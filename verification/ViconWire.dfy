/** The vicon messages in plain numbers (src/vicon.c): which bytes a packet is written as, and
    what any bytes are read as. */
module ViconWire {
  import opened Timeval
  import opened Bytes
  import opened Ccpacket
  import opened Codec
  import V = ViconCodec

  // --- writing ---

  // the second byte, with the low half of the address
  function Flags1(p: Packet, extended: bool): nat {
    p.receiver % 16 + 16 + On(p.GetAck() == AckAlarm, 32) + On(extended, 64)
  }

  function Flags2(p: Packet): nat { On(p.GetIris() == IrisAuto, 2) + On(p.GetPan() == PanAuto, 4) }

  // a movement takes its bit only when it has a speed
  function Moves2(p: Packet): nat {
    On(p.GetTilt() == TiltDown && p.tilt != 0, 8) + On(p.GetTilt() == TiltUp && p.tilt != 0, 16)
    + On(p.GetPan() == PanRight && p.pan != 0, 32) + On(p.GetPan() == PanLeft && p.pan != 0, 64)
  }

  function Flags3(p: Packet): nat {
    On(p.GetLens() == LensSpeed, 1) + On(p.GetIris() == IrisClose, 2) + On(p.GetIris() == IrisOpen, 4)
    + On(p.GetFocus() == FocusNear, 8) + On(p.GetFocus() == FocusFar, 16)
    + On(p.GetZoom() == ZoomIn, 32) + On(p.GetZoom() == ZoomOut, 64)
  }

  function Flags5(p: Packet): nat {
    p.preset % 16 + On(p.GetPreset() == Recall, 32) + On(p.GetPreset() == Store, 64)
  }

  // a preset to recall or store that has a high number or goes with speeds
  predicate WithPreset(p: Packet) {
    (p.GetPreset() == Recall || p.GetPreset() == Store) && (p.preset > 15 || p.pan != 0 || p.tilt != 0)
  }

  predicate WithSpeed(p: Packet) {
    (p.GetPan() != Off && p.pan != 0) || (p.GetTilt() != Off && p.tilt != 0) || p.GetWiper() != Off
  }

  // the bytes of the three forms, numbers cut to seven bits and speeds to eleven
  predicate MessageBytes(p: Packet, m: seq<int>) {
    var (b0, aux) := (128 + p.receiver / 16, On(p.GetWiper() == WiperOn, 2));
    if WithPreset(p) then
      m == [b0, Flags1(p, true), Flags2(p), Flags3(p), aux, 0, 16 + On(p.GetPreset() == Store, 1),
            p.preset % 128, p.pan % 128, p.tilt % 128]
    else if WithSpeed(p) then
      m == [b0, Flags1(p, true), Flags2(p) + Moves2(p), Flags3(p), aux, Flags5(p),
            p.pan % 2048 / 128, p.pan % 128, p.tilt % 2048 / 128, p.tilt % 128]
    else
      m == [b0, Flags1(p, false), Flags2(p) + Moves2(p), Flags3(p), aux, Flags5(p)]
  }

  lemma NibbleIs(bits: seq<bool>)
    requires |bits| == 4
    ensures Number(bits) == On(bits[0], 1) + On(bits[1], 2) + On(bits[2], 4) + On(bits[3], 8)
  {
    hide Number;
    NumberFour(bits);
    assert bits[4..] == [];
    EmptyNumber();
  }

  lemma HalvesAre(low: nat, bits: seq<bool>)
    requires low < 16 && |bits| == 4
    ensures V.Halves(low, bits) == low + On(bits[0], 16) + On(bits[1], 32) + On(bits[2], 64) + On(bits[3], 128)
  {
    hide Number;
    NibbleIs(bits);
  }

  lemma AddressIs(p: Packet, extended: bool)
    requires 0 <= p.receiver < 256
    ensures V.Byte0(p) == 128 + p.receiver / 16 && V.Byte1(p, extended) == Flags1(p, extended)
  {
    hide V.Halves, ModeOf;
    HalvesAre(p.receiver / 16, [false, false, false, true]);
    HalvesAre(p.receiver % 16, [true, p.GetAck() == AckAlarm, extended, false]);
  }

  lemma FlagsAre(p: Packet, moves: bool)
    ensures Pack(V.Bits2(p, moves)) == Flags2(p) + if moves then Moves2(p) else 0
  {
    hide Pack, ModeOf;
    PackIs(V.Bits2(p, moves));
  }

  lemma LensFlagsAre(p: Packet)
    ensures Pack(V.Bits3(p)) == Flags3(p)
  {
    hide Pack, ModeOf;
    PackIs(V.Bits3(p));
  }

  lemma AuxIs(p: Packet)
    ensures Pack(V.Bits4(p)) == On(p.GetWiper() == WiperOn, 2)
  {
    hide Pack, ModeOf;
    PackIs(V.Bits4(p));
  }

  lemma TailsAre(p: Packet)
    ensures V.Byte5(p) == Flags5(p)
    ensures V.SpeedTail(p) == [Flags5(p), p.pan % 2048 / 128, p.pan % 128, p.tilt % 2048 / 128, p.tilt % 128]
    ensures V.PresetTail(p) == [0, 16 + On(p.GetPreset() == Store, 1), p.preset % 128, p.pan % 128, p.tilt % 128]
  {
    hide V.Halves, Pack, ModeOf;
    HalvesAre(p.preset % 16, [false, p.GetPreset() == Recall, p.GetPreset() == Store, false]);
    HalvesAre(p.pan % 2048 / 128, [false, false, false, false]);
    HalvesAre(p.tilt % 2048 / 128, [false, false, false, false]);
    PackIs([p.GetPreset() == Store, false, false, false, true, false, false, false]);
  }

  lemma HeadIs(p: Packet, extended: bool, moves: bool)
    requires 1 <= p.receiver <= 255
    ensures V.Head(p, extended, moves) == [128 + p.receiver / 16, Flags1(p, extended),
      Flags2(p) + (if moves then Moves2(p) else 0), Flags3(p), On(p.GetWiper() == WiperOn, 2)]
  {
    hide ModeOf, Pack, V.Byte0, V.Byte1, V.Bits2, V.Bits3, V.Bits4, Flags1, Flags2, Flags3, Moves2, On;
    AddressIs(p, extended);
    FlagsAre(p, moves);
    LensFlagsAre(p);
    AuxIs(p);
  }

  lemma FormIs(p: Packet)
    requires 1 <= p.receiver <= 255
    ensures MessageBytes(p, V.Form(p))
  {
    hide ModeOf, V.Head, V.Byte5, V.SpeedTail, V.PresetTail, Flags1, Flags2, Flags3, Flags5, Moves2, On,
         Packet.GetPreset, Packet.GetWiper;
    TailsAre(p);
    if WithPreset(p) {
      HeadIs(p, true, false);
    } else if WithSpeed(p) {
      HeadIs(p, true, true);
    } else {
      HeadIs(p, false, true);
    }
  }

  // For every packet without a menu command: the bytes that vicon writes.
  lemma MessageWritten(p: Packet)
    requires 1 <= p.receiver <= 255 && p.GetMenu() == Off
    ensures |V.DoWrite(p)| == 1 && MessageBytes(p, V.DoWrite(p)[0])
  {
    hide MessageBytes, V.Form, V.AdjustMenu, Packet.GetMenu;
    V.AdjustKeeps(p);
    FormIs(p);
  }

  // A menu command goes out as the storing of preset 94, as auto-pan or as automatic iris,
  // together with all else that the packet asks for.
  lemma MenuWritten(p: Packet)
    requires 1 <= p.receiver <= 255 && p.GetMenu() != Off
    ensures |V.DoWrite(p)| == 1
    ensures p.GetMenu() == MenuOpen ==> MessageBytes(p.SetPreset(Store, 94).SetMenu(Off), V.DoWrite(p)[0])
    ensures p.GetMenu() == MenuEnter ==> MessageBytes(p.SetPan(PanAuto, 0).SetMenu(Off), V.DoWrite(p)[0])
    ensures p.GetMenu() == MenuCancel ==> MessageBytes(p.SetIris(IrisAuto).SetMenu(Off), V.DoWrite(p)[0])
  {
    hide MessageBytes, V.Form, SameButMenu, ModeOf, Packet.SetPreset, Packet.SetPan, Packet.SetIris, Packet.SetMenu,
         Packet.GetMenu;
    V.AdjustKeeps(p);
    V.AskedFor(p);
    V.FormUnsaid(V.AdjustMenu(p), V.Asked(p));
    FormIs(V.Asked(p));
  }

  // a packet with nothing but one menu command
  predicate OnlyMenu(p: Packet, m: Mode) {
    ModesOf(p.flags) == NO_MODES.(menu := m) && p.pan == 0 && p.tilt == 0 && p.preset == 0
  }

  lemma MenuGone(p: Packet)
    ensures var q := p.SetMenu(Off); ModesOf(q.flags) == ModesOf(p.flags).(menu := Off) && q == p.(flags := q.flags)
  {
    ModesSet(p.flags, ForMenu, Off);
    hide With, ModesOf;
  }

  lemma MenuIs(p: Packet, m: Mode)
    requires OnlyMenu(p, m)
    ensures p.GetMenu() == m
  {
    hide ModeOf;
  }

  // a packet with nothing but one toggle
  predicate OnlyToggle(q: Packet, receiver: int, m: Mode) {
    && q.receiver == receiver && q.pan == 0 && q.tilt == 0 && q.preset == 0
    && ModesOf(q.flags) == if m == PanAuto then NO_MODES.(pan := m) else NO_MODES.(iris := m)
  }

  lemma MenuAsPreset(p: Packet)
    requires OnlyMenu(p, MenuOpen)
    ensures OnlyPreset(p.SetPreset(Store, 94).SetMenu(Off), p.receiver, Store, 94)
  {
    var a := p.SetPreset(Store, 94);
    PresetModes(p, Store, 94);
    MenuGone(a);
    PresetRead(a.SetMenu(Off), Store);
    hide ModesOf, Packet.SetPreset, Packet.SetMenu, Packet.GetPreset;
  }

  lemma PresetRead(q: Packet, m: Mode)
    requires ModesOf(q.flags).preset == m && q.preset > 0 && Fits(ForPreset, m)
    ensures q.GetPreset() == m
  {
    hide ModeOf;
  }

  lemma MenuAsPan(p: Packet)
    requires OnlyMenu(p, MenuEnter)
    ensures OnlyToggle(p.SetPan(PanAuto, 0).SetMenu(Off), p.receiver, PanAuto)
  {
    ModesSet(p.flags, ForPan, PanAuto);
    MenuGone(p.SetPan(PanAuto, 0));
    hide With, ModesOf, Packet.SetMenu;
  }

  lemma MenuAsIris(p: Packet)
    requires OnlyMenu(p, MenuCancel)
    ensures OnlyToggle(p.SetIris(IrisAuto).SetMenu(Off), p.receiver, IrisAuto)
  {
    ModesSet(p.flags, ForIris, IrisAuto);
    MenuGone(p.SetIris(IrisAuto));
    hide With, ModesOf, Packet.SetMenu;
  }

  lemma PresetSpeaks(q: Packet, receiver: int, m: Mode, n: int)
    requires OnlyPreset(q, receiver, m, n) && (m == Recall || m == Store)
    ensures q.GetPreset() == m && WithPreset(q) == (n > 15) && !WithSpeed(q)
    ensures Flags2(q) == Flags3(q) == Moves2(q) == On(q.GetWiper() == WiperOn, 2) == 0 && q.GetAck() == Off
    ensures q.GetMenu() == Off && n > 0 && q.receiver == receiver && q.preset == n && q.pan == 0 && q.tilt == 0
  {
    hide ModeOf;
  }

  lemma PresetBytes(q: Packet, receiver: int, m: Mode, n: int, t: seq<int>)
    requires OnlyPreset(q, receiver, m, n) && (m == Recall || m == Store) && 0 <= receiver < 256 && MessageBytes(q, t)
    ensures var (a, b, store) := (128 + receiver / 16, receiver % 16, On(m == Store, 1));
      t == if n > 15 then [a, b + 80, 0, 0, 0, 0, 16 + store, n % 128, 0, 0]
           else [a, b + 16, 0, 0, 0, n + 32 + 32 * store]
  {
    hide OnlyPreset, WithPreset, WithSpeed, Flags2, Flags3, Moves2, Packet.GetPreset, Packet.GetAck, Packet.GetWiper;
    PresetSpeaks(q, receiver, m, n);
  }

  // A packet with nothing but the recall or storing of preset n is this one message.
  lemma PresetOnly(q: Packet, receiver: int, m: Mode, n: int)
    requires OnlyPreset(q, receiver, m, n) && (m == Recall || m == Store) && 1 <= receiver <= 255
    ensures var (a, b, store) := (128 + receiver / 16, receiver % 16, On(m == Store, 1));
      V.DoWrite(q) == if n > 15 then [[a, b + 80, 0, 0, 0, 0, 16 + store, n % 128, 0, 0]]
                      else [[a, b + 16, 0, 0, 0, n + 32 + 32 * store]]
  {
    hide *;
    PresetSpeaks(q, receiver, m, n);
    MessageWritten(q);
    PresetBytes(q, receiver, m, n, V.DoWrite(q)[0]);
  }

  lemma ToggleSpeaks(q: Packet, receiver: int, m: Mode)
    requires OnlyToggle(q, receiver, m) && (m == PanAuto || m == IrisAuto)
    ensures !WithPreset(q) && !WithSpeed(q) && Flags3(q) == Moves2(q) == On(q.GetWiper() == WiperOn, 2) == 0
    ensures q.GetAck() == Off && q.GetPreset() == Off && Flags2(q) == if m == PanAuto then 4 else 2
  {
    hide ModeOf;
  }

  lemma ToggleBytes(q: Packet, receiver: int, m: Mode, t: seq<int>)
    requires OnlyToggle(q, receiver, m) && (m == PanAuto || m == IrisAuto) && 0 <= receiver < 256 && MessageBytes(q, t)
    ensures t == [128 + receiver / 16, receiver % 16 + 16, if m == PanAuto then 4 else 2, 0, 0, 0]
  {
    hide WithPreset, WithSpeed, Flags2, Flags3, Moves2, Packet.GetPreset, Packet.GetAck, Packet.GetWiper, ModesOf;
    ToggleSpeaks(q, receiver, m);
  }

  // A packet with nothing but a menu command: opening the menu is storing preset 94, enter is
  // auto-pan and cancel is automatic iris.
  lemma MenuOpened(p: Packet)
    requires OnlyMenu(p, MenuOpen) && 1 <= p.receiver <= 255
    ensures V.DoWrite(p) == [[128 + p.receiver / 16, p.receiver % 16 + 80, 0, 0, 0, 0, 17, 94, 0, 0]]
  {
    hide *;
    MenuIs(p, MenuOpen);
    MenuAsPreset(p);
    MenuWritten(p);
    StoreBytes(p.SetPreset(Store, 94).SetMenu(Off), p.receiver, 94, V.DoWrite(p)[0]);
  }

  lemma StoreBytes(q: Packet, receiver: int, n: nat, t: seq<int>)
    requires OnlyPreset(q, receiver, Store, n) && 15 < n < 128 && 0 <= receiver < 256 && MessageBytes(q, t)
    ensures t == [128 + receiver / 16, receiver % 16 + 80, 0, 0, 0, 0, 17, n, 0, 0]
  {
    hide OnlyPreset, MessageBytes;
    PresetBytes(q, receiver, Store, n, t);
  }

  lemma MenuEntered(p: Packet)
    requires OnlyMenu(p, MenuEnter) && 1 <= p.receiver <= 255
    ensures V.DoWrite(p) == [[128 + p.receiver / 16, p.receiver % 16 + 16, 4, 0, 0, 0]]
  {
    hide *;
    MenuIs(p, MenuEnter);
    MenuAsPan(p);
    MenuWritten(p);
    ToggleBytes(p.SetPan(PanAuto, 0).SetMenu(Off), p.receiver, PanAuto, V.DoWrite(p)[0]);
  }

  lemma MenuCancelled(p: Packet)
    requires OnlyMenu(p, MenuCancel) && 1 <= p.receiver <= 255
    ensures V.DoWrite(p) == [[128 + p.receiver / 16, p.receiver % 16 + 16, 2, 0, 0, 0]]
  {
    hide *;
    MenuIs(p, MenuCancel);
    MenuAsIris(p);
    MenuWritten(p);
    ToggleBytes(p.SetIris(IrisAuto).SetMenu(Off), p.receiver, IrisAuto, V.DoWrite(p)[0]);
  }

  // --- reading ---

  // the preset of a short message: recall wins over store, and number 0 is none
  function PresetIn(b: byte): Mode {
    if b % 16 == 0 then Off else if Has(b, 32) then Recall else if Has(b, 64) then Store else Off
  }

  function NumberIn(b: byte): nat { if PresetIn(b) == Off then 0 else b % 16 }

  // What the first five bytes mean to a cleared packet, in a message of six bytes or of ten,
  // together with this preset.
  predicate HeadRead(q: Packet, m: seq<byte>, c: Packet, preset: Mode, n: int)
    requires |m| >= 6
  {
    var (b1, b2, b3) := (m[1], m[2], m[3]);
    && q.receiver == m[0] % 16 * 16 + b1 % 16 && q.expire == c.expire
    && ModesOf(q.flags) == NO_MODES.(
         pan := if Has(b2, 4) then PanAuto else if Has(b2, 32) then PanRight else PanLeft,
         tilt := if Has(b2, 16) then TiltUp else TiltDown,
         iris := if Has(b2, 2) then IrisAuto else if Has(b3, 4) then IrisOpen else if Has(b3, 2) then IrisClose
           else Off,
         focus := if Has(b3, 8) then FocusNear else if Has(b3, 16) then FocusFar else Off,
         zoom := if Has(b3, 32) then ZoomIn else if Has(b3, 64) then ZoomOut else Off,
         ack := if Has(b1, 32) then AckAlarm else Off, lens := if Has(b3, 1) then LensSpeed else Off,
         wiper := if Has(m[4], 2) then WiperOn else Off, preset := preset)
    && q.preset == n
    && q.pan == (if !Has(b2, 4) && (Has(b2, 32) || Has(b2, 64)) then 2047 else 0)
    && q.tilt == (if Has(b2, 16) || Has(b2, 8) then 2047 else 0)
  }

  lemma MotionPlain(m: seq<byte>)
    requires |m| >= 6
    ensures var (x, b2, b3) := (V.MotionBits(m), m[2], m[3]);
      && x.right == Has(b2, 32) && x.left == Has(b2, 64) && x.up == Has(b2, 16) && x.down == Has(b2, 8)
      && x.open == Has(b3, 4) && x.close == Has(b3, 2) && x.near == Has(b3, 8) && x.far == Has(b3, 16)
      && x.zin == Has(b3, 32) && x.zout == Has(b3, 64) && x.pan == 2047 && x.tilt == 2047
  {
    hide Bit, Has;
    BitsAre(m[2]);
    BitsAre(m[3]);
  }

  lemma ModesPlain(m: seq<byte>)
    requires |m| >= 6
    ensures var (x, b2, b3) := (V.MotionBits(m), m[2], m[3]);
      && PanOf(x) == (if Has(b2, 32) then PanRight else PanLeft)
      && TiltOf(x) == (if Has(b2, 16) then TiltUp else TiltDown)
      && IrisOf(x) == (if Has(b3, 4) then IrisOpen else if Has(b3, 2) then IrisClose else Off)
      && FocusOf(x) == (if Has(b3, 8) then FocusNear else if Has(b3, 16) then FocusFar else Off)
      && ZoomOf(x) == (if Has(b3, 32) then ZoomIn else if Has(b3, 64) then ZoomOut else Off)
  {
    hide Has, V.MotionBits;
    MotionPlain(m);
  }

  lemma TogglesPlain(m: seq<byte>)
    requires |m| >= 6
    ensures var t := V.ToggleBits(m);
      t.ack == Has(m[1], 32) && t.iris == Has(m[2], 2) && t.pan == Has(m[2], 4) && t.lens == Has(m[3], 1)
    ensures Bit(m[4], 1) == Has(m[4], 2)
    ensures V.PresetBit(m) == if Has(m[5], 32) then Recall else if Has(m[5], 64) then Store else Off
  {
    hide Bit, Has;
    BitsAre(m[1]);
    BitsAre(m[2]);
    BitsAre(m[3]);
    BitsAre(m[4]);
    BitsAre(m[5]);
  }

  // the common part without its preset
  lemma CommonFirst(x: Motion, t: V.Toggles, wiper: bool, preset: Mode, n: int, receiver: int, c: Packet)
    ensures V.Common(x, t, wiper, preset, n, receiver, c)
      == V.DecodePreset(preset, n, V.Common(x, t, wiper, Off, 0, receiver, c))
  {
    hide V.DecodeWiper, V.DecodeToggles, DecodeMotion, Packet.SetPreset;
  }

  lemma PresetLast(m: Mode, n: int, p: Packet)
    requires 0 <= n < 16 && (m == Off || m == Recall || m == Store) && ModesOf(p.flags).preset == Off && p.preset == 0
    ensures var (q, k) := (V.DecodePreset(m, n, p), if n == 0 then Off else m);
      && ModesOf(q.flags) == ModesOf(p.flags).(preset := k)
      && q == p.(flags := q.flags, preset := if k == Off then 0 else n)
  {
    hide ModesOf, Packet.SetPreset;
    if m != Off { PresetStored(p, m, n); }
  }

  // What vicon makes of the first six bytes of a message, for a cleared packet.
  lemma CommonRead(m: seq<byte>, c: Packet)
    requires |m| >= 6 && Blank(c)
    ensures HeadRead(V.DecodeCommon(m, c), m, c, PresetIn(m[5]), NumberIn(m[5]))
  {
    hide Has, Bit, V.Common, V.DecodePreset, V.MotionBits, V.ToggleBits, V.PresetBit, Blank, HeadRead, ModesOf;
    FirstRead(m, c);
    TogglesPlain(m);
    var p := Unset(m, c);
    CommonFirst(V.MotionBits(m), V.ToggleBits(m), Bit(m[4], 1), V.PresetBit(m), m[5] % 16,
      m[0] % 16 * 16 + m[1] % 16, c);
    PresetLast(V.PresetBit(m), m[5] % 16, p);
    HeadPreset(p, V.DecodePreset(V.PresetBit(m), m[5] % 16, p), m, c, PresetIn(m[5]), NumberIn(m[5]));
  }

  // the common part before its preset
  function Unset(m: seq<byte>, c: Packet): Packet
    requires |m| >= 6
  {
    V.Common(V.MotionBits(m), V.ToggleBits(m), Bit(m[4], 1), Off, 0, m[0] % 16 * 16 + m[1] % 16, c)
  }

  lemma HeadPreset(p: Packet, q: Packet, m: seq<byte>, c: Packet, k: Mode, n: int)
    requires |m| >= 6 && HeadRead(p, m, c, Off, 0)
    requires ModesOf(q.flags) == ModesOf(p.flags).(preset := k) && q == p.(flags := q.flags, preset := n)
    ensures HeadRead(q, m, c, k, n)
  {
    hide Has, ModesOf;
  }

  lemma FirstRead(m: seq<byte>, c: Packet)
    requires |m| >= 6 && Blank(c)
    ensures var p := Unset(m, c);
      HeadRead(p, m, c, Off, 0) && ModesOf(p.flags).preset == Off && p.preset == 0
  {
    hide Has, Bit, ModesOf, V.Common, V.MotionBits, V.ToggleBits, Blank, PanOf, TiltOf, IrisOf, FocusOf, ZoomOf;
    MotionPlain(m);
    ModesPlain(m);
    TogglesPlain(m);
    CommonModes(V.MotionBits(m), V.ToggleBits(m), Bit(m[4], 1), m[0] % 16 * 16 + m[1] % 16, c);
  }

  lemma CommonModes(x: Motion, t: V.Toggles, wiper: bool, receiver: int, c: Packet)
    requires Blank(c) && 0 <= x.pan <= 2047
    ensures var q := V.Common(x, t, wiper, Off, 0, receiver, c);
      && ModesOf(q.flags) == NO_MODES.(
           pan := if t.pan then PanAuto else PanOf(x), tilt := TiltOf(x),
             iris := if t.iris then IrisAuto else IrisOf(x),
           focus := FocusOf(x), zoom := ZoomOf(x), ack := if t.ack then AckAlarm else Off,
           lens := if t.lens then LensSpeed else Off, wiper := if wiper then WiperOn else Off)
      && q.receiver == receiver && q.expire == c.expire && q.preset == 0
      && q.pan == (if !t.pan && (x.right || x.left) then x.pan else 0)
      && q.tilt == (if x.up || x.down then x.tilt else 0)
  {
    hide V.Common, ModesOf, Blank, PanOf, TiltOf, IrisOf, FocusOf, ZoomOf;
    V.CommonModes(x, t, wiper, Off, 0, receiver, c);
  }

  // What vicon makes of a message of six bytes, for a cleared packet.
  lemma CommandRead(m: seq<byte>, c: Packet)
    requires |m| == 6 && Blank(c)
    ensures HeadRead(V.Decode(m, c), m, c, PresetIn(m[5]), NumberIn(m[5]))
  {
    hide HeadRead, V.DecodeCommon, Blank;
    CommonRead(m, c);
  }

  // Two bytes are a status message, which changes nothing.
  lemma StatusRead(m: seq<byte>, c: Packet)
    requires |m| == 2
    ensures V.Decode(m, c) == c
  {
  }

  function Eleven(high: nat, low: nat): nat { high % 16 * 128 + low % 128 }

  // A message of ten bytes is read like its first six, and then its last four are two speeds of
  // eleven bits when the seventh byte lacks its bit of 16, ...
  lemma SpeedsRead(m: seq<byte>, c: Packet)
    requires |m| == 10 && Blank(c) && !Has(m[6], 16)
    ensures V.Decode(m, c) == V.Decode(m[..6], c).(pan := Eleven(m[6], m[7]), tilt := Eleven(m[8], m[9]))
  {
    hide Bit, Has, V.DecodeCommon, Blank;
    BitsAre(m[6]);
    SameHead(m, c);
  }

  // ... and otherwise a preset with two speeds of seven bits, to store or to recall by the
  // lowest bit, unless the bit of 2 says that it is neither.
  lemma PresetsRead(m: seq<byte>, c: Packet)
    requires |m| == 10 && Blank(c) && Has(m[6], 16)
    ensures var (q, h, k, n) := (V.Decode(m, c), V.Decode(m[..6], c), if Has(m[6], 1) then Store else Recall,
        m[7] % 128);
      && (Has(m[6], 2) ==> q == h)
      && (!Has(m[6], 2) ==>
        var ok := n > 0 && !(k == Store && 77 <= n <= 79);
        && ModesOf(q.flags) == ModesOf(h.flags).(preset := if ok then k else Off)
        && q == h.(flags := q.flags, preset := if ok then n else 0, pan := m[8] % 128, tilt := m[9] % 128))
  {
    hide Bit, Has, V.DecodeCommon, Blank, ModesOf, Packet.SetPreset;
    BitsAre(m[6]);
    SameHead(m, c);
    PresetStored(V.DecodeCommon(m, c), if Has(m[6], 1) then Store else Recall, m[7] % 128);
  }

  lemma SameHead(m: seq<byte>, c: Packet)
    requires |m| >= 6
    ensures V.DecodeCommon(m[..6], c) == V.DecodeCommon(m, c)
  {
    hide Bit, V.Common;
  }
}
