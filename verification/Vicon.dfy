/** Messages of the vicon protocol (src/vicon.c). */
module ViconCodec {
  import opened Timeval
  import opened Powers
  import opened Bytes
  import opened Framing
  import opened Ccpacket
  import opened Codec

  // --- encoding ---

  // a byte with a number in its low half and bits above
  function Halves(low: nat, bits: seq<bool>): byte
    requires low < 16 && |bits| == 4
  {
    NibbleRoom(bits);
    low + 16 * Number(bits)
  }

  lemma NibbleRoom(bits: seq<bool>)
    requires |bits| == 4
    ensures Number(bits) < 16
  {
    assert Pow2(4) == 16;
  }

  lemma HalvesRead(low: nat, bits: seq<bool>)
    requires low < 16 && |bits| == 4
    ensures var x := Halves(low, bits);
      x % 16 == low && Bit(x, 4) == bits[0] && Bit(x, 5) == bits[1] && Bit(x, 6) == bits[2] && Bit(x, 7) == bits[3]
  {
    HighBit(low, bits, 0);
    HighBit(low, bits, 1);
    HighBit(low, bits, 2);
    HighBit(low, bits, 3);
    hide Bit, Number;
  }

  lemma HighBit(low: nat, bits: seq<bool>, k: nat)
    requires low < 16 && k < |bits| == 4
    ensures Bit(Halves(low, bits), 4 + k) == bits[k]
  {
    var n := Number(bits);
    var x := low + 16 * n;
    assert x / 2 / 2 / 2 / 2 == n;
    NumberBits(bits, k);
    assert Bit(x, 4 + k) == Bit(x / 2 / 2, 4 + k - 2) == Bit(x / 2 / 2 / 2 / 2, k);
  }

  predicate Pans(p: Packet, m: Mode) { p.HasPan() && p.GetPan() == m }
  predicate Tilts(p: Packet, m: Mode) { p.HasTilt() && p.GetTilt() == m }

  // encode_receiver, with the command, alarm and extended bits
  function Byte0(p: Packet): byte
    requires 0 <= p.receiver < 256
  {
    Halves(p.receiver / 16, [false, false, false, true])
  }

  function Byte1(p: Packet, extended: bool): byte {
    Halves(p.receiver % 16, [true, p.GetAck() == AckAlarm, extended, false])
  }

  // encode_pan_tilt (where the form has it) and encode_toggles
  function Bits2(p: Packet, moves: bool): (b: seq<bool>)
    ensures |b| == 8
  {
    [false, p.GetIris() == IrisAuto, p.GetPan() == PanAuto, moves && Tilts(p, TiltDown), moves && Tilts(p, TiltUp),
     moves && Pans(p, PanRight), moves && Pans(p, PanLeft), false]
  }

  // encode_lens and encode_toggles
  function Bits3(p: Packet): (b: seq<bool>)
    ensures |b| == 8
  {
    [p.GetLens() == LensSpeed, p.GetIris() == IrisClose, p.GetIris() == IrisOpen, p.GetFocus() == FocusNear,
     p.GetFocus() == FocusFar, p.GetZoom() == ZoomIn, p.GetZoom() == ZoomOut, false]
  }

  // encode_aux
  function Bits4(p: Packet): (b: seq<bool>)
    ensures |b| == 8
  {
    [false, p.GetWiper() == WiperOn, false, false, false, false, false, false]
  }

  // encode_preset
  function Byte5(p: Packet): byte {
    Halves(p.preset % 16, [false, p.GetPreset() == Recall, p.GetPreset() == Store, false])
  }

  // the first five bytes, which all forms have in common
  function Head(p: Packet, extended: bool, moves: bool): (m: seq<byte>)
    requires 0 <= p.receiver < 256
    ensures |m| == 5
  {
    [Byte0(p), Byte1(p, extended), Pack(Bits2(p, moves)), Pack(Bits3(p)), Pack(Bits4(p))]
  }

  // encode_speeds, after the preset byte
  function High(speed: int): byte { Halves(speed % 2048 / 128, [false, false, false, false]) }
  function Low(speed: int): byte { speed % 128 }

  function SpeedTail(p: Packet): (t: seq<byte>)
    ensures |t| == 5
  {
    [Byte5(p), High(p.pan), Low(p.pan), High(p.tilt), Low(p.tilt)]
  }

  function PresetTail(p: Packet): (t: seq<byte>)
    ensures |t| == 5
  {
    [0, Pack([p.GetPreset() == Store, false, false, false, true, false, false, false]), Low(p.preset), Low(p.pan),
      Low(p.tilt)]
  }

  // encode_command, encode_extended_speed, encode_extended_preset
  function Command(p: Packet): (m: seq<byte>)
    requires 0 <= p.receiver < 256
  {
    Head(p, false, true) + [Byte5(p)]
  }

  function ExSpeed(p: Packet): (m: seq<byte>)
    requires 0 <= p.receiver < 256
  {
    Head(p, true, true) + SpeedTail(p)
  }

  function ExPreset(p: Packet): (m: seq<byte>)
    requires 0 <= p.receiver < 256
  {
    Head(p, true, false) + PresetTail(p)
  }

  predicate IsExtendedPreset(p: Packet) {
    (p.GetPreset() == Recall || p.GetPreset() == Store) && (p.preset > 15 || p.pan != 0 || p.tilt != 0)
  }

  predicate IsExtendedSpeed(p: Packet) { p.HasPan() || p.HasTilt() || p.GetWiper() != Off }

  // the form of message that vicon_do_write chooses
  function Form(p: Packet): seq<byte>
    requires 0 <= p.receiver < 256
  {
    if IsExtendedPreset(p) then ExPreset(p) else if IsExtendedSpeed(p) then ExSpeed(p) else Command(p)
  }

  // adjust_menu_commands; opening the menu is storing preset 94
  function AdjustMenu(p: Packet): Packet {
    match p.GetMenu()
    case MenuOpen => p.SetPreset(Store, 94)
    case MenuEnter => p.SetPan(PanAuto, 0)
    case MenuCancel => p.SetIris(IrisAuto)
    case _ => p
  }

  lemma AdjustKeeps(p: Packet)
    ensures AdjustMenu(p).receiver == p.receiver && (p.GetMenu() == Off ==> AdjustMenu(p) == p)
  {
    hide With, ModeOf;
  }

  // vicon_do_write
  function DoWrite(p: Packet): (ms: seq<seq<byte>>) {
    AdjustKeeps(p);
    if p.receiver < 1 || p.receiver > 255 then [] else [Form(AdjustMenu(p))]
  }

  // --- decoding ---

  datatype Toggles = Toggles(ack: bool, iris: bool, pan: bool, lens: bool)

  function MotionBits(m: seq<byte>): Motion
    requires |m| >= 6
  {
    Motion(Bit(m[2], 5), Bit(m[2], 6), Bit(m[2], 4), Bit(m[2], 3), Bit(m[3], 2), Bit(m[3], 1),
           Bit(m[3], 3), Bit(m[3], 4), Bit(m[3], 5), Bit(m[3], 6), SPEED_MAX, SPEED_MAX)
  }

  function ToggleBits(m: seq<byte>): Toggles
    requires |m| >= 6
  {
    Toggles(Bit(m[1], 5), Bit(m[2], 1), Bit(m[2], 2), Bit(m[3], 0))
  }

  // decode_toggles
  function DecodeToggles(t: Toggles, p: Packet): Packet {
    DecodeLensSpeed(t.lens, DecodeAutoPan(t.pan, DecodeAutoIris(t.iris, DecodeAck(t.ack, p))))
  }
  function DecodeAck(on: bool, p: Packet): Packet { if on then p.SetAck(AckAlarm) else p }
  function DecodeAutoIris(on: bool, p: Packet): Packet { if on then p.SetIris(IrisAuto) else p }
  function DecodeAutoPan(on: bool, p: Packet): Packet { if on then p.SetPan(PanAuto, 0) else p }
  function DecodeLensSpeed(on: bool, p: Packet): Packet { if on then p.SetLens(LensSpeed) else p }

  // decode_aux and decode_preset
  function DecodeWiper(on: bool, p: Packet): Packet { if on then p.SetWiper(WiperOn) else p }
  function DecodePreset(m: Mode, number: int, p: Packet): Packet { if m == Off then p else p.SetPreset(m, number) }

  // the part that commands and extended messages have in common
  function Common(x: Motion, t: Toggles, wiper: bool, preset: Mode, number: int, receiver: int, p: Packet): Packet {
    DecodePreset(preset, number, DecodeWiper(wiper, DecodeToggles(t, DecodeMotion(x, p.SetReceiver(receiver)))))
  }

  function PresetBit(m: seq<byte>): Mode
    requires |m| >= 6
  {
    if Bit(m[5], 5) then Recall else if Bit(m[5], 6) then Store else Off
  }

  function DecodeCommon(m: seq<byte>, p: Packet): Packet
    requires |m| >= 6
  {
    Common(MotionBits(m), ToggleBits(m), Bit(m[4], 1), PresetBit(m), m[5] % 16, m[0] % 16 * 16 + m[1] % 16, p)
  }

  // decode_ex_speed and decode_ex_preset
  function DecodeExtended(m: seq<byte>, p: Packet): Packet
    requires |m| == 10
  {
    if Bit(m[6], 4) then
      if Bit(m[6], 1) then p
      else p.SetPreset(if Bit(m[6], 0) then Store else Recall,
        m[7] % 128).SetPanSpeed(m[8] % 128).SetTiltSpeed(m[9] % 128)
    else p.SetPanSpeed(ElevenBits(m[6], m[7])).SetTiltSpeed(ElevenBits(m[8], m[9]))
  }

  function ElevenBits(high: nat, low: nat): nat { high % 16 * 128 + low % 128 }

  // the packet of a message, if it is not a status message
  function Decode(m: seq<byte>, p: Packet): Packet {
    if |m| == 10 then DecodeExtended(m, DecodeCommon(m, p)) else if |m| == 6 then DecodeCommon(m, p) else p
  }

  // --- meanings ---

  lemma AckModes(on: bool, p: Packet)
    requires ModesOf(p.flags).ack == Off
    ensures var q := DecodeAck(on, p);
      ModesOf(q.flags) == ModesOf(p.flags).(ack := if on then AckAlarm else Off) && q == p.(flags := q.flags)
  {
    ModesSet(p.flags, ForAck, AckAlarm);
    hide With, ModesOf;
  }

  lemma AutoIrisModes(on: bool, p: Packet)
    ensures var q, y := DecodeAutoIris(on, p), ModesOf(p.flags);
      ModesOf(q.flags) == y.(iris := if on then IrisAuto else y.iris) && q == p.(flags := q.flags)
  {
    ModesSet(p.flags, ForIris, IrisAuto);
    hide With, ModesOf;
  }

  lemma AutoPanModes(on: bool, p: Packet)
    ensures var q, y := DecodeAutoPan(on, p), ModesOf(p.flags);
      ModesOf(q.flags) == y.(pan := if on then PanAuto else y.pan)
        && q == p.(flags := q.flags, pan := if on then 0 else p.pan)
  {
    ModesSet(p.flags, ForPan, PanAuto);
    hide With, ModesOf;
  }

  lemma LensSpeedModes(on: bool, p: Packet)
    requires ModesOf(p.flags).lens == Off
    ensures var q := DecodeLensSpeed(on, p);
      ModesOf(q.flags) == ModesOf(p.flags).(lens := if on then LensSpeed else Off) && q == p.(flags := q.flags)
  {
    ModesSet(p.flags, ForLens, LensSpeed);
    hide With, ModesOf;
  }

  lemma WiperModes(on: bool, p: Packet)
    requires ModesOf(p.flags).wiper == Off
    ensures var q := DecodeWiper(on, p);
      ModesOf(q.flags) == ModesOf(p.flags).(wiper := if on then WiperOn else Off) && q == p.(flags := q.flags)
  {
    ModesSet(p.flags, ForWiper, WiperOn);
    hide With, ModesOf;
  }

  lemma PresetsModes(m: Mode, number: int, p: Packet)
    requires ModesOf(p.flags).preset == Off && p.preset == 0 && (m == Off || Storable(m, number))
    ensures var q := DecodePreset(m, number, p);
      ModesOf(q.flags) == ModesOf(p.flags).(preset := m)
        && q == p.(flags := q.flags, preset := if m == Off then 0 else number)
  {
    if m != Off { PresetModes(p, m, number); }
    hide With, ModesOf, Storable, Packet.SetPreset;
  }

  lemma TogglesModes(t: Toggles, p: Packet)
    requires var y := ModesOf(p.flags); y.ack == Off && y.lens == Off
    ensures var q, y := DecodeToggles(t, p), ModesOf(p.flags);
      && ModesOf(q.flags) == y.(ack := if t.ack then AckAlarm else Off, iris := if t.iris then IrisAuto else y.iris,
                                pan := if t.pan then PanAuto else y.pan, lens := if t.lens then LensSpeed else Off)
      && q == p.(flags := q.flags, pan := if t.pan then 0 else p.pan)
  {
    var a := DecodeAck(t.ack, p);
    var b := DecodeAutoIris(t.iris, a);
    AckModes(t.ack, p);
    AutoIrisModes(t.iris, a);
    AutoPanModes(t.pan, b);
    LensSpeedModes(t.lens, DecodeAutoPan(t.pan, b));
    hide ModesOf, DecodeAck, DecodeAutoIris, DecodeAutoPan, DecodeLensSpeed;
  }

  // what the common part means to a blank packet
  lemma CommonModes(x: Motion, t: Toggles, wiper: bool, preset: Mode, number: int, receiver: int, c: Packet)
    requires Blank(c) && 0 <= x.pan <= SPEED_MAX && (preset == Off || Storable(preset, number))
    ensures var q := Common(x, t, wiper, preset, number, receiver, c);
      && ModesOf(q.flags) == NO_MODES.(
           pan := if t.pan then PanAuto else PanOf(x), tilt := TiltOf(x),
             iris := if t.iris then IrisAuto else IrisOf(x),
           focus := FocusOf(x), zoom := ZoomOf(x), ack := if t.ack then AckAlarm else Off,
             lens := if t.lens then LensSpeed else Off,
           wiper := if wiper then WiperOn else Off, preset := preset)
      && q.receiver == receiver && q.expire == c.expire && q.preset == (if preset == Off then 0 else number)
      && q.pan == (if !t.pan && (x.right || x.left) then x.pan else 0)
      && q.tilt == (if x.up || x.down then x.tilt else 0)
  {
    var r := c.SetReceiver(receiver);
    MotionModes(x, r);
    var a := DecodeMotion(x, r);
    TogglesModes(t, a);
    var b := DecodeToggles(t, a);
    WiperModes(wiper, b);
    PresetsModes(preset, number, DecodeWiper(wiper, b));
    hide ModesOf, DecodeMotion, DecodeToggles, DecodeWiper, DecodePreset, PanOf, TiltOf, IrisOf, FocusOf, ZoomOf,
         Storable;
  }

  // --- round trips ---

  predicate Headed(m: seq<byte>, p: Packet, extended: bool, moves: bool)
    requires 1 <= p.receiver <= 255
  {
    && |m| >= 6 && m[0] == Byte0(p) && m[1] == Byte1(p, extended)
    && m[2] == Pack(Bits2(p, moves)) && m[3] == Pack(Bits3(p)) && m[4] == Pack(Bits4(p))
  }

  lemma HeadFirst(p: Packet, extended: bool, moves: bool, t: seq<byte>)
    requires 1 <= p.receiver <= 255 && t != []
    ensures var m := Head(p, extended, moves) + t;
      |m| == 5 + |t| && Headed(m, p, extended, moves) && forall i | 0 <= i < |t| :: m[5 + i] == t[i]
  {
    hide Byte0, Byte1, Pack, Bits2, Bits3, Bits4;
  }

  lemma HeadReceiver(m: seq<byte>, p: Packet, extended: bool, moves: bool)
    requires 1 <= p.receiver <= 255 && Headed(m, p, extended, moves)
    ensures m[0] % 16 * 16 + m[1] % 16 == p.receiver
    ensures Bit(m[1], 4) && Bit(m[1], 5) == (p.GetAck() == AckAlarm) && Bit(m[1], 6) == extended
  {
    var bits := [true, p.GetAck() == AckAlarm, extended, false];
    HalvesRead(p.receiver % 16, bits);
    HalvesRead(p.receiver / 16, [false, false, false, true]);
    hide Pack, Bit, Halves, ModeOf, Bits2, Bits3, Bits4, Packet.GetAck;
  }

  function Moving(p: Packet, moves: bool): Motion {
    Motion(moves && Pans(p, PanRight), moves && Pans(p, PanLeft), moves && Tilts(p, TiltUp),
           moves && Tilts(p, TiltDown),
           p.GetIris() == IrisOpen, p.GetIris() == IrisClose, p.GetFocus() == FocusNear, p.GetFocus() == FocusFar,
           p.GetZoom() == ZoomIn, p.GetZoom() == ZoomOut, SPEED_MAX, SPEED_MAX)
  }

  function Toggling(p: Packet): Toggles {
    Toggles(p.GetAck() == AckAlarm, p.GetIris() == IrisAuto, p.GetPan() == PanAuto, p.GetLens() == LensSpeed)
  }

  lemma HeadBits(m: seq<byte>, p: Packet, extended: bool, moves: bool)
    requires 1 <= p.receiver <= 255 && Headed(m, p, extended, moves)
    ensures MotionBits(m) == Moving(p, moves) && ToggleBits(m) == Toggling(p)
      && Bit(m[4], 1) == (p.GetWiper() == WiperOn)
  {
    hide Pack, Bit, Halves, Pans, Tilts, ModeOf;
    HeadReceiver(m, p, extended, moves);
    PackBits(Bits2(p, moves));
    PackBits(Bits3(p));
    PackBits(Bits4(p));
  }

  lemma PresetBits(p: Packet)
    ensures var x := Byte5(p);
      x % 16 == p.preset % 16 && Bit(x, 5) == (p.GetPreset() == Recall) && Bit(x, 6) == (p.GetPreset() == Store)
  {
    var bits := [false, p.GetPreset() == Recall, p.GetPreset() == Store, false];
    HalvesRead(p.preset % 16, bits);
    hide Bit, Halves, Packet.GetPreset;
  }

  // what the protocol can express
  predicate Carried(p: Packet) {
    && 1 <= p.receiver <= 255 && InRange(p) && p.GetMenu() == Off && p.GetCamera() == Off
    && p.GetFocus() != FocusAuto && p.GetWiper() != WiperOff && p.GetPreset() != Erase
    && (p.GetPreset() != Off ==> p.preset < 128 && Storable(p.GetPreset(), p.preset))
  }

  // speeds come with a direction
  predicate Directed(p: Packet) { (p.GetPan() == Off ==> p.pan == 0) && (p.GetTilt() == Off ==> p.tilt == 0) }

  // the commands that arrive, whatever the form of the message
  predicate Relayed(p: Packet, q: Packet) {
    && q.receiver == p.receiver
    && q.GetZoom() == p.GetZoom() && q.GetFocus() == p.GetFocus() && q.GetIris() == p.GetIris()
    && q.GetLens() == p.GetLens()
    && q.GetAck() == p.GetAck() && q.GetWiper() == p.GetWiper() && q.GetCamera() == p.GetCamera()
    && q.GetMenu() == p.GetMenu()
    && (q.GetPan() == PanAuto <==> p.GetPan() == PanAuto)
    && q.GetPreset() == p.GetPreset() && (p.GetPreset() != Off ==> q.preset == p.preset)
  }

  // q is what a blank packet becomes by the common part of a message for p
  predicate Mirrors(p: Packet, q: Packet, moves: bool, preset: Mode) {
    var x := Moving(p, moves);
    && ModesOf(q.flags) == NO_MODES.(
         pan := if p.GetPan() == PanAuto then PanAuto else PanOf(x), tilt := TiltOf(x),
         iris := if p.GetIris() == IrisAuto then IrisAuto else IrisOf(x), focus := FocusOf(x), zoom := ZoomOf(x),
         ack := if p.GetAck() == AckAlarm then AckAlarm else Off,
           lens := if p.GetLens() == LensSpeed then LensSpeed else Off,
         wiper := if p.GetWiper() == WiperOn then WiperOn else Off, preset := preset)
    && q.receiver == p.receiver
  }

  lemma HeadIs(m: seq<byte>, p: Packet, extended: bool, moves: bool, c: Packet)
    requires 1 <= p.receiver <= 255 && |m| >= 6 && Headed(m, p, extended, moves)
    ensures DecodeCommon(m, c) == Common(Moving(p, moves), Toggling(p), p.GetWiper() == WiperOn, PresetBit(m),
      m[5] % 16, p.receiver, c)
  {
    hide *;
    HeadReceiver(m, p, extended, moves);
    HeadBits(m, p, extended, moves);
    CommonIs(m, c);
  }

  lemma CommonIs(m: seq<byte>, c: Packet)
    requires |m| >= 6
    ensures DecodeCommon(m, c)
      == Common(MotionBits(m), ToggleBits(m), Bit(m[4], 1), PresetBit(m), m[5] % 16, m[0] % 16 * 16 + m[1] % 16, c)
  {
    hide Common, MotionBits, ToggleBits, Bit, PresetBit;
  }

  lemma HeadDecoded(m: seq<byte>, p: Packet, extended: bool, moves: bool, preset: Mode, number: int, c: Packet)
    requires 1 <= p.receiver <= 255 && Headed(m, p, extended, moves) && Blank(c)
    requires PresetBit(m) == preset && m[5] % 16 == number && (preset == Off || Storable(preset, number))
    ensures var q, x := DecodeCommon(m, c), Moving(p, moves);
      && Mirrors(p, q, moves, preset) && q.expire == c.expire && q.preset == (if preset == Off then 0 else number)
      && q.pan == (if p.GetPan() != PanAuto && (x.right || x.left) then SPEED_MAX else 0)
      && q.tilt == (if x.up || x.down then SPEED_MAX else 0)
  {
    assert |m| >= 6;
    HeadIs(m, p, extended, moves, c);
    CommonModes(Moving(p, moves), Toggling(p), p.GetWiper() == WiperOn, preset, number, p.receiver, c);
    hide DecodeCommon, ModesOf, Bit, Common, PanOf, TiltOf, IrisOf, FocusOf, ZoomOf, PresetBit, Storable, Headed,
         ModeOf, Pans, Tilts, Blank;
  }

  lemma LensMirrored(p: Packet, q: Packet, moves: bool)
    requires Mirrors(p, q, moves, p.GetPreset())
    ensures var x := Moving(p, moves);
      && q.GetZoom() == ZoomOf(x) && q.GetFocus() == FocusOf(x)
      && q.GetIris() == if p.GetIris() == IrisAuto then IrisAuto else IrisOf(x)
  {
    hide ModeOf, Pans, Tilts, Packet.GetPreset, PanOf, TiltOf, IrisOf, FocusOf, ZoomOf, Moving;
  }

  lemma MirrorsLens(p: Packet, q: Packet, moves: bool)
    requires Carried(p) && Mirrors(p, q, moves, p.GetPreset())
    ensures q.GetZoom() == p.GetZoom() && q.GetFocus() == p.GetFocus()
  {
    hide ModeOf, Mirrors, Pans, Tilts, InRange, Storable, Packet.GetPreset, Packet.GetIris, IrisOf;
    LensMirrored(p, q, moves);
    ModeFits(p.flags, ForZoom);
    ModeFits(p.flags, ForFocus);
  }

  lemma MirrorsIris(p: Packet, q: Packet, moves: bool)
    requires Mirrors(p, q, moves, p.GetPreset())
    ensures q.GetIris() == p.GetIris()
  {
    hide ModeOf, Mirrors, Pans, Tilts, Packet.GetPreset, Packet.GetZoom, Packet.GetFocus, Packet.GetIris, ZoomOf,
         FocusOf;
    LensMirrored(p, q, moves);
    IrisFits(p);
  }

  lemma IrisFits(p: Packet)
    ensures var m := p.GetIris(); m == Off || m == IrisClose || m == IrisOpen || m == IrisAuto
  {
    hide ModeOf;
    ModeFits(p.flags, ForIris);
  }

  lemma MirrorsToggles(p: Packet, q: Packet, moves: bool)
    requires Mirrors(p, q, moves, p.GetPreset())
    ensures q.GetLens() == p.GetLens() && q.GetAck() == p.GetAck()
  {
    hide ModeOf, Pans, Tilts, Packet.GetPreset, Packet.GetZoom, Packet.GetFocus, Packet.GetIris, PanOf, TiltOf,
         IrisOf, FocusOf, ZoomOf, Moving;
    ModeFits(p.flags, ForLens);
    ModeFits(p.flags, ForAck);
  }

  lemma MirrorsRest(p: Packet, q: Packet, moves: bool)
    requires Carried(p) && Mirrors(p, q, moves, p.GetPreset())
    ensures q.GetWiper() == p.GetWiper() && q.GetCamera() == Off && q.GetMenu() == Off && q.receiver == p.receiver
    ensures q.GetPan() == PanAuto <==> p.GetPan() == PanAuto
  {
    hide ModeOf, Pans, Tilts, InRange, Storable, Packet.GetPreset, Packet.GetZoom, Packet.GetFocus, Packet.GetIris,
         Packet.GetLens, Packet.GetAck, TiltOf, IrisOf, FocusOf, ZoomOf, Moving;
    ModeFits(p.flags, ForWiper);
  }

  lemma MirrorsRelayed(p: Packet, q: Packet, moves: bool)
    requires Carried(p) && Mirrors(p, q, moves, p.GetPreset()) && (p.GetPreset() != Off ==> q.preset == p.preset)
    ensures Relayed(p, q)
  {
    hide ModeOf, Pans, Tilts, InRange, Storable, Packet.GetPreset, PanOf, TiltOf, IrisOf, FocusOf, ZoomOf,
         Packet.GetPan, Packet.GetZoom, Packet.GetFocus, Packet.GetIris, Packet.GetLens, Packet.GetAck,
         Packet.GetWiper, Packet.GetCamera, Packet.GetMenu;
    MirrorsLens(p, q, moves);
    MirrorsIris(p, q, moves);
    MirrorsToggles(p, q, moves);
    MirrorsRest(p, q, moves);
    PresetReads(p, q);
  }

  lemma PresetReads(p: Packet, q: Packet)
    requires ModesOf(q.flags).preset == p.GetPreset() && (p.GetPreset() != Off ==> q.preset == p.preset)
    requires p.GetPreset() != Off ==> Storable(p.GetPreset(), p.preset)
    ensures q.GetPreset() == p.GetPreset()
  {
    ModeFits(q.flags, ForPreset);
    hide ModeOf;
  }

  lemma PresetBitIs(m: seq<byte>, p: Packet)
    requires |m| >= 6 && m[5] == Byte5(p) && Carried(p) && !IsExtendedPreset(p)
    ensures PresetBit(m) == p.GetPreset() && (p.GetPreset() != Off ==> m[5] % 16 == p.preset)
  {
    PresetBits(p);
    PresetKinds(p);
    hide Byte5, Bit, InRange, ModeOf;
  }

  lemma PresetKinds(p: Packet)
    ensures p.GetPreset() in {Off, Recall, Store, Erase}
  {
    ModeFits(p.flags, ForPreset);
    hide ModeOf;
  }

  lemma CarriedParts(p: Packet)
    requires Carried(p)
    ensures 1 <= p.receiver <= 255 && InRange(p) && (p.GetPreset() != Off ==>
      p.preset < 128 && Storable(p.GetPreset(), p.preset))
    ensures p.GetMenu() == Off
  {
  }

  lemma CommandHead(p: Packet)
    requires 1 <= p.receiver <= 255
    ensures |Command(p)| == 6 && Headed(Command(p), p, false, true) && Command(p)[5] == Byte5(p)
  {
    HeadFirst(p, false, true, [Byte5(p)]);
    assert Command(p)[5 + 0] == [Byte5(p)][0];
    hide Byte5, Head, Headed;
  }

  lemma DecodeIs(m: seq<byte>, c: Packet)
    ensures |m| == 6 ==> Decode(m, c) == DecodeCommon(m, c)
    ensures |m| == 10 ==> Decode(m, c) == DecodeExtended(m, DecodeCommon(m, c))
  {
    hide DecodeCommon, DecodeExtended;
  }

  // A command in the short form arrives as it was sent; it has no velocity.
  lemma CommandRoundTrip(p: Packet, c: Packet)
    requires Carried(p) && !IsExtendedPreset(p) && !IsExtendedSpeed(p) && Blank(c)
    ensures var q := Decode(Command(p), c);
      Relayed(p, q) && q.PanVelocity() == p.PanVelocity() && q.TiltVelocity() == p.TiltVelocity()
  {
    hide *;
    CarriedParts(p);
    var m := Command(p);
    CommandHead(p);
    PresetBitIs(m, p);
    HeadDecoded(m, p, false, true, p.GetPreset(), m[5] % 16, c);
    DecodeIs(m, c);
    CommandStill(p, DecodeCommon(m, c));
    MirrorsRelayed(p, DecodeCommon(m, c), true);
  }

  lemma CommandStill(p: Packet, q: Packet)
    requires Mirrors(p, q, true, p.GetPreset()) && !IsExtendedSpeed(p)
    requires var x := Moving(p, true);
      && q.pan == (if p.GetPan() != PanAuto && (x.right || x.left) then SPEED_MAX else 0)
      && q.tilt == (if x.up || x.down then SPEED_MAX else 0)
    ensures q.PanVelocity() == 0 == p.PanVelocity() && q.TiltVelocity() == 0 == p.TiltVelocity()
  {
    hide ModeOf, Mirrors;
  }

  lemma SpeedHead(p: Packet)
    requires 1 <= p.receiver <= 255
    ensures var m, t := ExSpeed(p), SpeedTail(p);
      |m| == 10 && Headed(m, p, true, true) && m[5] == t[0] && m[6] == t[1] && m[7] == t[2] && m[8] == t[3]
        && m[9] == t[4]
  {
    var t := SpeedTail(p);
    HeadFirst(p, true, true, t);
    assert ExSpeed(p)[5 + 0] == t[0] && ExSpeed(p)[5 + 1] == t[1] && ExSpeed(p)[5 + 2] == t[2]
      && ExSpeed(p)[5 + 3] == t[3] && ExSpeed(p)[5 + 4] == t[4];
    hide SpeedTail, Head, Headed;
  }

  lemma SpeedHalves(v: int)
    requires 0 <= v <= SPEED_MAX
    ensures !Bit(High(v), 4) && ElevenBits(High(v), Low(v)) == v
  {
    Eleven(v);
    HalvesRead(v / 128, [false, false, false, false]);
    hide Halves, Bit;
  }

  lemma Eleven(v: int)
    requires 0 <= v <= SPEED_MAX
    ensures v % 2048 == v && v / 128 < 16 && v / 128 * 128 + v % 128 % 128 == v
  {
  }

  lemma SpeedParts(p: Packet)
    requires InRange(p)
    ensures var t := SpeedTail(p);
      t[0] == Byte5(p) && !Bit(t[1], 4) && ElevenBits(t[1], t[2]) == p.pan && ElevenBits(t[3], t[4]) == p.tilt
  {
    SpeedHalves(p.pan);
    SpeedHalves(p.tilt);
    hide Byte5, High, Low, ElevenBits, Bit;
  }

  // With extended speeds every command arrives, and the velocities are exact for the
  // packets, and only for the packets, whose speeds have a direction.
  lemma SpeedRoundTrip(p: Packet, c: Packet)
    requires Carried(p) && !IsExtendedPreset(p) && Blank(c)
    ensures var q := Decode(ExSpeed(p), c);
      && Relayed(p, q)
      && (q.PanVelocity() == p.PanVelocity() && q.TiltVelocity() == p.TiltVelocity() <==> Directed(p))
  {
    hide *;
    CarriedParts(p);
    var m := ExSpeed(p);
    SpeedHead(p);
    SpeedParts(p);
    PresetBitIs(m, p);
    HeadDecoded(m, p, true, true, p.GetPreset(), m[5] % 16, c);
    DecodeIs(m, c);
    var r := DecodeCommon(m, c);
    SpeedsSet(m, r, p.pan, p.tilt);
    SameMirror(p, r, DecodeExtended(m, r), true, p.GetPreset());
    SpeedVelocity(p, DecodeExtended(m, r));
    MirrorsRelayed(p, DecodeExtended(m, r), true);
  }

  lemma SpeedsSet(m: seq<byte>, r: Packet, pan: int, tilt: int)
    requires |m| == 10 && !Bit(m[6], 4) && ElevenBits(m[6], m[7]) == pan && ElevenBits(m[8], m[9]) == tilt
    ensures DecodeExtended(m, r) == r.(pan := pan, tilt := tilt)
  {
    hide Bit;
  }

  lemma SameMirror(p: Packet, r: Packet, q: Packet, moves: bool, preset: Mode)
    requires Mirrors(p, r, moves, preset) && q == r.(pan := q.pan, tilt := q.tilt)
    ensures Mirrors(p, q, moves, preset) && q.preset == r.preset
  {
    hide ModesOf, Moving;
  }

  lemma SpeedVelocity(p: Packet, q: Packet)
    requires Mirrors(p, q, true, p.GetPreset()) && q.pan == p.pan && q.tilt == p.tilt && InRange(p)
    ensures q.PanVelocity() == p.PanVelocity() && q.TiltVelocity() == p.TiltVelocity() <==> Directed(p)
  {
    hide *;
    PanExact(p, q);
    TiltExact(p, q);
    DirectedParts(p);
  }

  lemma MirrorsMoves(p: Packet, q: Packet)
    requires Mirrors(p, q, true, p.GetPreset())
    ensures q.GetPan() == if p.GetPan() == PanAuto then PanAuto else if Pans(p, PanRight) then PanRight else PanLeft
    ensures q.GetTilt() == if Tilts(p, TiltUp) then TiltUp else TiltDown
  {
    hide ModeOf, Pans, Tilts, Packet.GetPreset, Packet.GetZoom, Packet.GetFocus, Packet.GetIris, Packet.GetLens,
         Packet.GetAck, Packet.GetWiper, IrisOf, FocusOf, ZoomOf;
  }

  lemma PanExact(p: Packet, q: Packet)
    requires Mirrors(p, q, true, p.GetPreset()) && q.pan == p.pan && InRange(p)
    ensures q.PanVelocity() == p.PanVelocity() <==> (p.GetPan() == Off ==> p.pan == 0)
  {
    hide ModeOf, Mirrors, Packet.GetPreset;
    MirrorsMoves(p, q);
    ModeFits(p.flags, ForPan);
  }

  lemma TiltExact(p: Packet, q: Packet)
    requires Mirrors(p, q, true, p.GetPreset()) && q.tilt == p.tilt && InRange(p)
    ensures q.TiltVelocity() == p.TiltVelocity() <==> (p.GetTilt() == Off ==> p.tilt == 0)
  {
    hide ModeOf, Mirrors, Packet.GetPreset;
    MirrorsMoves(p, q);
    ModeFits(p.flags, ForTilt);
  }

  lemma DirectedParts(p: Packet)
    ensures Directed(p) <==> (p.GetPan() == Off ==> p.pan == 0) && (p.GetTilt() == Off ==> p.tilt == 0)
  {
    hide ModeOf;
  }

  lemma PresetHead(p: Packet)
    requires 1 <= p.receiver <= 255
    ensures var m, t := ExPreset(p), PresetTail(p);
      |m| == 10 && Headed(m, p, true, false) && m[5] == t[0] && m[6] == t[1] && m[7] == t[2] && m[8] == t[3]
        && m[9] == t[4]
  {
    var t := PresetTail(p);
    HeadFirst(p, true, false, t);
    assert ExPreset(p)[5 + 0] == t[0] && ExPreset(p)[5 + 1] == t[1] && ExPreset(p)[5 + 2] == t[2]
      && ExPreset(p)[5 + 3] == t[3] && ExPreset(p)[5 + 4] == t[4];
    hide PresetTail, Head, Headed;
  }

  lemma PresetParts(p: Packet)
    ensures var t := PresetTail(p);
      && t[0] == 0 && Bit(t[1], 4) && !Bit(t[1], 1) && Bit(t[1], 0) == (p.GetPreset() == Store)
      && t[2] % 128 == p.preset % 128 && t[3] % 128 == p.pan % 128 && t[4] % 128 == p.tilt % 128
  {
    hide Pack, Bit, Packet.GetPreset;
    var bits := [p.GetPreset() == Store, false, false, false, true, false, false, false];
    PackBits(bits);
    assert bits[0] == (p.GetPreset() == Store) && !bits[1] && bits[4];
  }

  lemma ExtendedNumber(p: Packet)
    requires Carried(p) && IsExtendedPreset(p)
    ensures p.preset % 128 == p.preset && Storable(p.GetPreset(), p.preset)
  {
  }

  lemma NoPresetBit(m: seq<byte>)
    requires |m| >= 6 && m[5] == 0
    ensures PresetBit(m) == Off && m[5] % 16 == 0
  {
    ZeroBits();
    hide Bit;
  }

  lemma ZeroBits()
    ensures !Bit(0, 5) && !Bit(0, 6) && !Bit(0, 4)
  {
    assert !Bit(0, 1) && !Bit(0, 2);
    assert !Bit(0, 3) && !Bit(0, 4);
  }

  // Presets above 15, or with speeds, arrive with the low seven bits of their speeds, which
  // all go left (but for auto-pan, which has none) and down, whatever the direction was.
  lemma PresetRoundTrip(p: Packet, c: Packet)
    requires Carried(p) && IsExtendedPreset(p) && Blank(c)
    ensures var q := Decode(ExPreset(p), c);
      && Relayed(p, q) && q.pan == p.pan % 128 && q.tilt == p.tilt % 128
      && q.PanVelocity() == (if p.GetPan() == PanAuto then 0 else -(p.pan % 128)) && q.TiltVelocity() == -(p.tilt % 128)
  {
    hide *;
    CarriedParts(p);
    var m := ExPreset(p);
    PresetKinds(p);
    ExtendedNumber(p);
    PresetHead(p);
    PresetParts(p);
    NoPresetBit(m);
    HeadDecoded(m, p, true, false, Off, 0, c);
    DecodeIs(m, c);
    var r := DecodeCommon(m, c);
    ExtendedStored(p, m, r);
    MirrorsRelayed(p, DecodeExtended(m, r), false);
    Unmoved(p, DecodeExtended(m, r));
  }

  // without movement bits everything is to the left and down
  lemma Unmoved(p: Packet, q: Packet)
    requires Mirrors(p, q, false, p.GetPreset())
    ensures q.PanVelocity() == (if p.GetPan() == PanAuto then 0 else -q.pan) && q.TiltVelocity() == -q.tilt
  {
    hide ModeOf, Pans, Tilts, Packet.GetPreset, Packet.GetZoom, Packet.GetFocus, Packet.GetIris, Packet.GetLens,
         Packet.GetAck, Packet.GetWiper, IrisOf, FocusOf, ZoomOf;
  }

  lemma ExtendedPresetIs(m: seq<byte>, r: Packet, preset: Mode, number: int)
    requires |m| == 10 && Bit(m[6], 4) && !Bit(m[6], 1) && (preset == Recall || preset == Store)
    requires Bit(m[6], 0) == (preset == Store) && m[7] % 128 == number
    ensures var a := r.SetPreset(preset, number); DecodeExtended(m, r) == a.(pan := m[8] % 128, tilt := m[9] % 128)
  {
    hide Bit, Packet.SetPreset;
  }

  lemma ExtendedStored(p: Packet, m: seq<byte>, r: Packet)
    requires Mirrors(p, r, false, Off) && IsExtendedPreset(p)
    requires |m| == 10 && Bit(m[6], 4) && !Bit(m[6], 1) && Bit(m[6], 0) == (p.GetPreset() == Store)
    requires m[7] % 128 == p.preset % 128
    ensures var q, ok := DecodeExtended(m, r), Storable(p.GetPreset(), p.preset % 128);
      && Mirrors(p, q, false, if ok then p.GetPreset() else Off) && q.preset == (if ok then p.preset % 128 else 0)
      && q.pan == m[8] % 128 && q.tilt == m[9] % 128
  {
    hide ModesOf, Mirrors, DecodeExtended, Bit, Packet.SetPreset, Packet.GetPreset, Storable;
    var a, ok := r.SetPreset(p.GetPreset(), p.preset % 128), Storable(p.GetPreset(), p.preset % 128);
    PresetStored(r, p.GetPreset(), p.preset % 128);
    ExtendedPresetIs(m, r, p.GetPreset(), p.preset % 128);
    MirroredAnew(p, r, a, DecodeExtended(m, r), if ok then p.GetPreset() else Off);
  }

  lemma MirroredAnew(p: Packet, r: Packet, a: Packet, q: Packet, preset: Mode)
    requires Mirrors(p, r, false, Off) && ModesOf(a.flags) == ModesOf(r.flags).(preset := preset)
    requires a == r.(flags := a.flags, preset := a.preset) && q == a.(pan := q.pan, tilt := q.tilt)
    ensures Mirrors(p, q, false, preset)
  {
    hide ModesOf, ModeOf, Moving, Packet.GetPreset;
  }

  // --- what is lost ---

  // commands that the protocol has no words for
  predicate Wordless(p: Packet) {
    p.GetMenu() != Off || p.GetCamera() != Off || p.GetFocus() == FocusAuto || p.GetWiper() == WiperOff
  }

  lemma WordsLost(p: Packet, q: Packet, moves: bool, preset: Mode)
    requires Mirrors(p, q, moves, preset) && Wordless(p)
    ensures !Relayed(p, q)
  {
    hide ModeOf, Pans, Tilts, Packet.GetPreset, Packet.GetZoom, Packet.GetIris, Packet.GetLens, Packet.GetAck, PanOf,
         TiltOf, IrisOf, ZoomOf;
  }

  lemma ModeLost(p: Packet, q: Packet, moves: bool, preset: Mode)
    requires Mirrors(p, q, moves, preset) && p.GetPreset() != preset && p.GetPreset() != Off
    ensures !Relayed(p, q)
  {
    hide ModeOf, Pans, Tilts, Packet.GetZoom, Packet.GetFocus, Packet.GetIris, Packet.GetLens, Packet.GetAck,
         Packet.GetWiper, PanOf, TiltOf, IrisOf, FocusOf, ZoomOf;
  }

  // the preset of a message that is no extended preset
  function ShortPreset(p: Packet): Mode {
    if p.GetPreset() == Recall || p.GetPreset() == Store then p.GetPreset() else Off
  }

  lemma ShortPresetIs(m: seq<byte>, p: Packet)
    requires |m| >= 6 && m[5] == Byte5(p) && !IsExtendedPreset(p)
    ensures PresetBit(m) == ShortPreset(p) && (ShortPreset(p) == Off || Storable(ShortPreset(p), m[5] % 16))
  {
    PresetBits(p);
    hide Byte5, Bit, ModeOf;
  }

  // a packet that is not carried has commands without words, or a preset that
  lemma NotCarried(p: Packet)
    requires 1 <= p.receiver <= 255 && InRange(p) && !Carried(p) && !Wordless(p)
    ensures p.GetPreset() != Off
    ensures if IsExtendedPreset(p) then p.preset >= 128 || !Storable(p.GetPreset(), p.preset)
            else p.GetPreset() != ShortPreset(p)
  {
    PresetKinds(p);
    hide ModeOf;
  }

  lemma ShortLost(p: Packet, q: Packet)
    requires 1 <= p.receiver <= 255 && InRange(p) && !Carried(p) && !IsExtendedPreset(p)
    requires Mirrors(p, q, true, ShortPreset(p))
    ensures !Relayed(p, q)
  {
    hide *;
    if Wordless(p) {
      WordsLost(p, q, true, ShortPreset(p));
    } else {
      NotCarried(p);
      ModeLost(p, q, true, ShortPreset(p));
    }
  }

  lemma CommandLost(p: Packet, c: Packet)
    requires 1 <= p.receiver <= 255 && InRange(p) && !Carried(p) && !IsExtendedPreset(p) && Blank(c)
    ensures !Relayed(p, Decode(Command(p), c))
  {
    hide *;
    var m := Command(p);
    CommandHead(p);
    ShortPresetIs(m, p);
    HeadDecoded(m, p, false, true, ShortPreset(p), m[5] % 16, c);
    DecodeIs(m, c);
    ShortLost(p, DecodeCommon(m, c));
  }

  lemma SpeedLost(p: Packet, c: Packet)
    requires 1 <= p.receiver <= 255 && InRange(p) && !Carried(p) && !IsExtendedPreset(p) && Blank(c)
    ensures !Relayed(p, Decode(ExSpeed(p), c))
  {
    hide *;
    var m := ExSpeed(p);
    SpeedHead(p);
    SpeedParts(p);
    ShortPresetIs(m, p);
    HeadDecoded(m, p, true, true, ShortPreset(p), m[5] % 16, c);
    DecodeIs(m, c);
    var r := DecodeCommon(m, c);
    SpeedsSet(m, r, p.pan, p.tilt);
    SameMirror(p, r, DecodeExtended(m, r), true, ShortPreset(p));
    ShortLost(p, DecodeExtended(m, r));
  }

  lemma PresetLost(p: Packet, c: Packet)
    requires 1 <= p.receiver <= 255 && InRange(p) && !Carried(p) && IsExtendedPreset(p) && Blank(c)
    ensures !Relayed(p, Decode(ExPreset(p), c))
  {
    hide *;
    var m := ExPreset(p);
    PresetHead(p);
    PresetParts(p);
    NoPresetBit(m);
    HeadDecoded(m, p, true, false, Off, 0, c);
    DecodeIs(m, c);
    var r := DecodeCommon(m, c);
    ExtendedStored(p, m, r);
    var q := DecodeExtended(m, r);
    if Wordless(p) {
      WordsLost(p, q, false, if Storable(p.GetPreset(), p.preset % 128) then p.GetPreset() else Off);
    } else {
      NotCarried(p);
      NumberLost(p, q);
    }
  }

  lemma NumberLost(p: Packet, q: Packet)
    requires p.GetPreset() != Off && (p.preset >= 128 || !Storable(p.GetPreset(), p.preset))
    requires q.preset == if Storable(p.GetPreset(), p.preset % 128) then p.preset % 128 else 0
    ensures !Relayed(p, q)
  {
    hide ModeOf, Storable, Packet.GetZoom, Packet.GetFocus, Packet.GetIris, Packet.GetLens, Packet.GetAck,
         Packet.GetWiper, Packet.GetCamera, Packet.GetMenu, Packet.GetPan;
  }

  // For all packets: what vicon_do_write makes of the commands of a packet arrives as it was
  // sent if and only if the protocol has words for all of them.
  lemma FormExactly(p: Packet, c: Packet)
    requires 1 <= p.receiver <= 255 && InRange(p) && Blank(c)
    ensures Relayed(p, Decode(Form(p), c)) <==> Carried(p)
  {
    hide Decode, Command, ExSpeed, ExPreset, Relayed, Carried, IsExtendedPreset, IsExtendedSpeed, Blank, InRange;
    if Carried(p) {
      if IsExtendedPreset(p) { PresetRoundTrip(p, c); }
      else if IsExtendedSpeed(p) { SpeedRoundTrip(p, c); }
      else { CommandRoundTrip(p, c); }
    } else {
      if IsExtendedPreset(p) { PresetLost(p, c); }
      else if IsExtendedSpeed(p) { SpeedLost(p, c); }
      else { CommandLost(p, c); }
    }
  }

  // --- streams ---

  lemma LowByte(x: byte)
    requires x < 128
    ensures !Bit(x, 7)
  {
    assert x / 2 / 2 / 2 / 2 / 2 / 2 / 2 == 0;
    assert Bit(x, 7) == Bit(x / 2 / 2, 5) == Bit(x / 2 / 2 / 2 / 2, 3) == Bit(x / 2 / 2 / 2 / 2 / 2 / 2, 1);
  }

  // every form is a message of its own size
  lemma FormOk(p: Packet, extended: bool, moves: bool, t: seq<byte>)
    requires 1 <= p.receiver <= 255 && |t| == if extended then 5 else 1
    ensures Message(Protocol.Vicon, Head(p, extended, moves) + t)
  {
    hide Bit, Head, Halves, Byte1, Bits2, Bits3, Bits4, Pack;
    var m := Head(p, extended, moves) + t;
    HeadFirst(p, extended, moves, t);
    HeadReceiver(m, p, extended, moves);
    HalvesRead(p.receiver / 16, [false, false, false, true]);
  }

  lemma MessagesOk(p: Packet)
    requires 1 <= p.receiver <= 255
    ensures Message(Protocol.Vicon, Command(p)) && Message(Protocol.Vicon, ExSpeed(p))
      && Message(Protocol.Vicon, ExPreset(p))
  {
    FormOk(p, false, true, [Byte5(p)]);
    FormOk(p, true, true, SpeedTail(p));
    FormOk(p, true, false, PresetTail(p));
    hide Message, Head, SpeedTail, PresetTail, Byte5;
  }

  // In every message written, only the first byte has the flag bit.
  lemma FlagsFirst(p: Packet, extended: bool, moves: bool, t: seq<byte>)
    requires 1 <= p.receiver <= 255 && t != [] && forall b <- t :: !Bit(b, 7)
    ensures FlagFirst(Head(p, extended, moves) + t)
  {
    hide Head, Bit;
    var m := Head(p, extended, moves) + t;
    HeadFlags(p, extended, moves);
    forall i | 1 <= i < |m| ensures !FlagBit(m[i]) {
      if i >= 5 { assert m[i] in t; } else { assert m[i] == Head(p, extended, moves)[i]; }
    }
  }

  lemma HeadFlags(p: Packet, extended: bool, moves: bool)
    requires 1 <= p.receiver <= 255
    ensures var m := Head(p, extended, moves); |m| == 5 && Bit(m[0], 7) && forall i | 1 <= i < 5 :: !Bit(m[i], 7)
  {
    hide Bit, Bits2, Bits3, Bits4, Byte0, Byte1, Pack;
    FlagBits01(p, extended);
    TopBits(p, moves);
    PackBits(Bits2(p, moves));
    PackBits(Bits3(p));
    PackBits(Bits4(p));
  }

  lemma FlagBits01(p: Packet, extended: bool)
    requires 1 <= p.receiver <= 255
    ensures Bit(Byte0(p), 7) && !Bit(Byte1(p, extended), 7)
  {
    hide Bit, Halves, ModeOf;
    HalvesRead(p.receiver % 16, [true, p.GetAck() == AckAlarm, extended, false]);
    HalvesRead(p.receiver / 16, [false, false, false, true]);
  }

  lemma TopBits(p: Packet, moves: bool)
    ensures !Bits2(p, moves)[7] && !Bits3(p)[7] && !Bits4(p)[7]
  {
    hide ModeOf, Pans, Tilts;
  }

  lemma FormFlags(p: Packet)
    requires 1 <= p.receiver <= 255
    ensures Message(Protocol.Vicon, Form(p)) && FlagFirst(Form(p)) && (|Form(p)| == 6 || |Form(p)| == 10)
  {
    hide Message, FlagFirst, Head, SpeedTail, PresetTail, Byte5, IsExtendedPreset, IsExtendedSpeed, Bit;
    MessagesOk(p);
    TailFlags(p);
    FlagsFirst(p, false, true, [Byte5(p)]);
    FlagsFirst(p, true, true, SpeedTail(p));
    FlagsFirst(p, true, false, PresetTail(p));
  }

  lemma WrittenFlags(p: Packet)
    requires 1 <= p.receiver <= 255
    ensures forall m <- DoWrite(p) :: Message(Protocol.Vicon, m) && FlagFirst(m) && (|m| == 6 || |m| == 10)
  {
    hide Message, FlagFirst, Form, AdjustMenu;
    AdjustKeeps(p);
    FormFlags(AdjustMenu(p));
  }

  lemma TailFlags(p: Packet)
    ensures !Bit(Byte5(p), 7) && (forall b <- SpeedTail(p) :: !Bit(b, 7)) && (forall b <- PresetTail(p) :: !Bit(b, 7))
  {
    var bits := [p.GetPreset() == Store, false, false, false, true, false, false, false];
    PackBits(bits);
    assert !bits[7];
    HalvesRead(p.preset % 16, [false, p.GetPreset() == Recall, p.GetPreset() == Store, false]);
    HalvesRead(p.pan % 2048 / 128, [false, false, false, false]);
    HalvesRead(p.tilt % 2048 / 128, [false, false, false, false]);
    LowByte(0);
    LowByte(Low(p.pan));
    LowByte(Low(p.tilt));
    LowByte(Low(p.preset));
    hide Bit, Halves, Pack, ModeOf;
  }

  function Sent(ps: seq<Packet>): seq<seq<byte>> {
    if ps == [] then [] else DoWrite(ps[0]) + Sent(ps[1..])
  }

  lemma OneMessage(p: Packet)
    requires 1 <= p.receiver <= 255
    ensures |DoWrite(p)| == 1
  {
    hide Form, AdjustMenu;
  }

  // each packet takes one message
  lemma {:induction false} SentAt(ps: seq<Packet>)
    requires forall p <- ps :: 1 <= p.receiver <= 255
    ensures |Sent(ps)| == |ps| && forall i | 0 <= i < |ps| :: DoWrite(ps[i]) == [Sent(ps)[i]]
    ensures forall m <- Sent(ps) :: Message(Protocol.Vicon, m) && FlagFirst(m)
  {
    hide Message, FlagFirst, DoWrite;
    if ps != [] {
      OneMessage(ps[0]);
      WrittenFlags(ps[0]);
      SentAt(ps[1..]);
    }
  }

  // what a packet arrives as: all commands, and exact velocities unless it is an extended
  // preset
  predicate Delivered(p: Packet, q: Packet) {
    && Relayed(p, q)
    && (!IsExtendedPreset(p) ==> q.PanVelocity() == p.PanVelocity() && q.TiltVelocity() == p.TiltVelocity())
  }

  // what the protocol has words for, with a direction for every speed if that is sent
  predicate Expressible(p: Packet) {
    Carried(p) && (!IsExtendedPreset(p) && IsExtendedSpeed(p) ==> Directed(p))
  }

  // For all packets: the form that vicon_do_write chooses delivers a packet if and only if
  // the packet is expressible.
  lemma FormDelivered(p: Packet, c: Packet)
    requires 1 <= p.receiver <= 255 && InRange(p) && Blank(c)
    ensures Delivered(p, Decode(Form(p), c)) <==> Expressible(p)
  {
    hide Decode, Command, ExSpeed, ExPreset, Relayed, Carried, Directed, IsExtendedPreset, IsExtendedSpeed,
         Packet.PanVelocity, Packet.TiltVelocity, Blank, InRange, Storable;
    FormExactly(p, c);
    if Carried(p) && !IsExtendedPreset(p) {
      if IsExtendedSpeed(p) { SpeedRoundTrip(p, c); } else { CommandRoundTrip(p, c); }
    }
  }

  // A packet put off after its menu command has been turned is no other to the scheduler,
  // and turning it again when it is sent again changes nothing.
  lemma TurnedAlike(p: Packet, timeout: int, now: Timeval)
    ensures var q := AdjustMenu(p);
      && q.receiver == p.receiver && q.IsStop() == p.IsStop() && q.IsExpired(timeout, now) == p.IsExpired(timeout, now)
      && AdjustMenu(q) == q
  {
    ModeWith(p.flags, ForPreset, Store, ForMenu);
    WithTwice(p.flags, ForPreset, Store);
    ModeWith(p.flags, ForPan, PanAuto, ForMenu);
    ModeWith(p.flags, ForIris, IrisAuto, ForMenu);
    WithTwice(p.flags, ForPan, PanAuto);
    WithTwice(p.flags, ForIris, IrisAuto);
    hide With, ModeOf;
  }

  // what a packet asks for, its menu command turned into another one
  function Asked(p: Packet): Packet { if p.GetMenu() == Off then p else AdjustMenu(p).SetMenu(Off) }

  lemma AskedFor(p: Packet)
    ensures SameButMenu(AdjustMenu(p), Asked(p)) && Asked(p).receiver == p.receiver
  {
    AdjustKeeps(p);
    MenuDropped(AdjustMenu(p));
    hide AdjustMenu, With, ModeOf;
  }

  // no message says anything of the menu
  lemma FormUnsaid(p: Packet, q: Packet)
    requires SameButMenu(p, q) && 0 <= p.receiver < 256
    ensures Form(p) == Form(q)
  {
    hide Head, SpeedTail, PresetTail, Byte5, IsExtendedPreset, IsExtendedSpeed, ModesOf, ModeOf;
    HeadUnsaid(p, q, false, true);
    HeadUnsaid(p, q, true, true);
    HeadUnsaid(p, q, true, false);
    TailUnsaid(p, q);
  }

  lemma HeadUnsaid(p: Packet, q: Packet, extended: bool, moves: bool)
    requires SameButMenu(p, q) && 0 <= p.receiver < 256
    ensures Head(p, extended, moves) == Head(q, extended, moves)
  {
    hide Pack, Bits2, Bits3, Bits4, Byte0, Byte1, ModeOf, ModesOf;
    BitsUnsaid(p, q, moves);
    BytesUnsaid(p, q, extended);
  }

  lemma BitsUnsaid(p: Packet, q: Packet, moves: bool)
    requires SameButMenu(p, q)
    ensures Bits2(p, moves) == Bits2(q, moves) && Bits3(p) == Bits3(q) && Bits4(p) == Bits4(q)
  {
    hide ModeOf;
  }

  lemma BytesUnsaid(p: Packet, q: Packet, extended: bool)
    requires SameButMenu(p, q) && 0 <= p.receiver < 256
    ensures Byte0(p) == Byte0(q) && Byte1(p, extended) == Byte1(q, extended)
  {
    hide ModeOf, Halves;
  }

  lemma TailUnsaid(p: Packet, q: Packet)
    requires SameButMenu(p, q)
    ensures SpeedTail(p) == SpeedTail(q) && PresetTail(p) == PresetTail(q) && Byte5(p) == Byte5(q)
    ensures IsExtendedPreset(p) == IsExtendedPreset(q) && IsExtendedSpeed(p) == IsExtendedSpeed(q)
  {
    hide ModeOf, Pack, Halves;
  }

  lemma PacketDelivered(p: Packet, c: Packet)
    requires Expressible(Asked(p)) && Blank(c)
    ensures |DoWrite(p)| == 1 && Delivered(Asked(p), Decode(DoWrite(p)[0], c))
  {
    hide Decode, Form, AdjustMenu, Asked, Delivered, Carried, Directed, Blank, SameButMenu;
    CarriedParts(Asked(p));
    AskedFor(p);
    AdjustKeeps(p);
    FormUnsaid(AdjustMenu(p), Asked(p));
    FormDelivered(Asked(p), c);
  }

  // Round trip of whole streams: packets sent back to back are framed without a byte
  // dropped, and each is delivered by its one message, a menu command as the command that
  // it is turned into.
  lemma StreamRoundTrip(ps: seq<Packet>, c: Packet)
    requires (forall p <- ps :: Expressible(Asked(p))) && Blank(c)
    ensures Parse(Protocol.Vicon, Flatten(Sent(ps))) == (Sent(ps), [])
    ensures |Sent(ps)| == |ps| && forall i | 0 <= i < |ps| :: Delivered(Asked(ps[i]), Decode(Sent(ps)[i], c))
  {
    forall p <- ps ensures 1 <= p.receiver <= 255 {
      assert Expressible(Asked(p));
      CarriedParts(Asked(p));
      AskedFor(p);
    }
    SentAt(ps);
    ParseMessages(Protocol.Vicon, Sent(ps));
    forall i | 0 <= i < |ps| ensures Delivered(Asked(ps[i]), Decode(Sent(ps)[i], c)) { PacketDelivered(ps[i], c); }
    hide DoWrite, Sent, Parse, Flatten, Message, Expressible, Delivered, Decode, Blank, FlagFirst, Asked, SameButMenu;
  }

  // A reader that joins the stream in the middle of a message drops the rest of that
  // message, at most nine bytes, and then frames every later one.
  lemma Resynchronises(p: Packet, m: seq<byte>, k: nat, ps: seq<Packet>)
    requires 1 <= p.receiver <= 255 && m in DoWrite(p) && 1 <= k <= |m|
    requires forall q <- ps :: 1 <= q.receiver <= 255
    ensures |m| - k <= 9 && Parse(Protocol.Vicon, m[k..] + Flatten(Sent(ps))).0 == Sent(ps)
  {
    WrittenFlags(p);
    SentAt(ps);
    forall b <- m[k..] ensures !FlagBit(b) {
      var i :| 0 <= i < |m| - k && m[k..][i] == b;
      assert m[k + i] == b;
    }
    Resync(Protocol.Vicon, m[k..], Sent(ps));
    hide Sent, Parse, Flatten, Message, Bit;
  }
}
