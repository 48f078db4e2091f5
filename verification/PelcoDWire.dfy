/** The pelco_d messages in plain numbers (src/pelco_d.c): which bytes a packet is written as,
    and what any bytes are read as. */
module PelcoDWire {
  import opened Timeval
  import opened Bytes
  import opened Framing
  import opened Ccpacket
  import opened Codec
  import opened Pelco
  import opened PelcoWire
  import D = PelcoD

  function Flags2(p: Packet): nat {
    var on, auto := p.GetCamera() == CameraOn, p.GetPan() == PanAuto;
    On(p.GetFocus() == FocusNear, 1) + On(p.GetIris() == IrisOpen, 2) + On(p.GetIris() == IrisClose, 4)
    + On(on || (p.GetCamera() == CameraOff && !auto), 8) + On(auto, 16) + On(on || auto, 128)
  }

  predicate CommandBytes(p: Packet, m: seq<byte>) {
    && Shape(Protocol.PelcoD, m)
    && m[1] == p.receiver && m[2] == Flags2(p) && m[3] == MoveBits(p) + On(p.GetFocus() == FocusFar, 128)
    && SpeedBytes(p, m[4], m[5])
  }

  predicate FunctionBytes(m: seq<byte>, receiver: int, word: byte, n: byte) {
    m == [0xFF, receiver, 0, word, 0, n, (receiver + word + n) % 256]
  }

  // one message each for the commands, the preset and the wiper
  predicate Messages(p: Packet, ms: seq<seq<byte>>) {
    var (a, b, c) := (On(Active(p), 1), On(p.GetPreset() != Off, 1), On(p.GetWiper() != Off, 1));
    && |ms| == a + b + c
    && (a == 1 ==> CommandBytes(p, ms[0]))
    && (b == 1 ==> FunctionBytes(ms[a], p.receiver, PresetWord(p.GetPreset()), p.preset % 256))
    && (c == 1 ==> FunctionBytes(ms[a + b], p.receiver, WiperWord(p.GetWiper()), 1))
  }

  lemma FlagsAre(p: Packet)
    ensures Pack(D.Bits2(p)) == Flags2(p)
  {
    hide ModeOf, Pack;
    PackIs(D.Bits2(p));
  }

  lemma MoveBitsAre(p: Packet)
    requires InRange(p)
    ensures Pack(D.Bits3(p)) == MoveBits(p) + On(p.GetFocus() == FocusFar, 128)
  {
    hide ModeOf, Pack, MoveBits, InRange, Pans, Tilts;
    PackIs(D.Bits3(p));
    MovesAre(p);
  }

  lemma CommandIs(p: Packet)
    requires InRange(p) && 1 <= p.receiver <= 254
    ensures CommandBytes(p, D.Command(p))
  {
    hide ModeOf, Pack, Shape, SpeedBytes, MoveBits, Flags2, PanByte, TiltByte, InRange, Message, D.Command, D.Bits2,
         D.Bits3, Packet.GetFocus;
    D.MessagesOk(p);
    MessageExactly(Protocol.PelcoD, D.Command(p));
    D.CommandAt(p);
    FlagsAre(p);
    MoveBitsAre(p);
    SpeedBytesAre(p);
  }

  lemma ExtendedIs(receiver: int, ex: Function, word: byte, n: byte)
    requires 0 <= receiver < 256 && ExtendedByte(ex) == word
    ensures FunctionBytes(D.Extended(receiver, ex, n), receiver, word, n)
  {
    hide SumD, ExtendedByte;
    SumIs([0xFF, receiver, 0, word, 0, n, 0]);
  }

  lemma PresetIs(p: Packet)
    requires 1 <= p.receiver <= 254 && p.GetPreset() != Off
    ensures FunctionBytes(D.Preset(p), p.receiver, PresetWord(p.GetPreset()), p.preset % 256)
  {
    hide FunctionBytes, D.Extended, PresetFunction, ExtendedByte, PresetWord, Fits, ModeOf, Packet.GetPreset;
    D.PresetIs(p);
    WordsAre(p.GetPreset());
    ExtendedIs(p.receiver, PresetFunction(p.GetPreset()), PresetWord(p.GetPreset()), p.preset % 256);
  }

  lemma WiperIs(p: Packet)
    requires 1 <= p.receiver <= 254 && p.GetWiper() != Off
    ensures FunctionBytes(D.Wiper(p), p.receiver, WiperWord(p.GetWiper()), 1)
  {
    hide FunctionBytes, D.Extended, WiperFunction, ExtendedByte, WiperWord, Fits, ModeOf, Packet.GetWiper;
    WiperFits(p);
    WordsAre(p.GetWiper());
    ExtendedIs(p.receiver, WiperFunction(p.GetWiper()), WiperWord(p.GetWiper()), 1);
  }

  // For every packet without a menu command: the bytes that pelco_d writes.
  lemma MessagesWritten(p: Packet)
    requires InRange(p) && 1 <= p.receiver <= 254 && p.GetMenu() == Off
    ensures Messages(p, D.DoWrite(p))
  {
    hide InRange, CommandBytes, FunctionBytes, D.Command, D.Preset, D.Wiper, D.DoWrite, Written, Commands, Active,
         Asked,
         PresetWord, WiperWord, ModeOf, Packet.GetWiper, Packet.GetPreset, Packet.GetMenu, Parts;
    D.DoWriteIs(p);
    AskedFor(p);
    CommandIs(p);
    if p.GetPreset() != Off { PresetIs(p); }
    if p.GetWiper() != Off { WiperIs(p); }
    WrittenAt(p, D.Command(p), D.Preset(p), D.Wiper(p));
    WrittenLength(p, D.Command(p), D.Preset(p), D.Wiper(p));
    ActiveIs(p);
  }

  // A menu command goes out as the storing of preset 95, or as iris open or close, together
  // with all else that the packet asks for.
  lemma MenuWritten(p: Packet)
    requires InRange(p) && 1 <= p.receiver <= 254
    ensures p.GetMenu() == MenuOpen ==> Messages(p.SetPreset(Store, 95).SetMenu(Off), D.DoWrite(p))
    ensures p.GetMenu() == MenuEnter ==> Messages(p.SetIris(IrisOpen).SetMenu(Off), D.DoWrite(p))
    ensures p.GetMenu() == MenuCancel ==> Messages(p.SetIris(IrisClose).SetMenu(Off), D.DoWrite(p))
  {
    hide InRange, Messages, D.Command, D.Preset, D.Wiper, D.DoWrite, Written, SameButMenu, ModeOf, Packet.SetPreset,
         Packet.SetIris, Packet.SetMenu, Packet.GetMenu;
    if p.GetMenu() != Off {
      D.DoWriteIs(p);
      var q := Asked(p);
      AskedFor(p);
      MenuDropped(AdjustMenu(p));
      AskedAgain(q);
      D.DoWriteIs(q);
      MessagesWritten(q);
    }
  }

  // A packet with nothing but one preset or wiper command is this one pelco_d message.
  lemma PresetOnly(q: Packet, receiver: int, m: Mode, n: int)
    requires OnlyPreset(q, receiver, m, n) && m != Off && 1 <= receiver <= 254
    ensures var w := if m == Recall then 7 else if m == Store then 3 else 5;
      D.DoWrite(q) == [[0xFF, receiver, 0, w, 0, n % 256, (receiver + w + n % 256) % 256]]
  {
    hide *;
    SpeaksPreset(q, receiver, m, n);
    PresetParts(q, receiver, m, n);
    MessagesWritten(q);
    PresetMessage(q, receiver, m, n, D.DoWrite(q));
  }

  lemma PresetMessage(q: Packet, receiver: int, m: Mode, n: int, ms: seq<seq<byte>>)
    requires OnlyPreset(q, receiver, m, n) && m != Off && 0 <= receiver < 256 && Messages(q, ms)
    ensures var w := if m == Recall then 7 else if m == Store then 3 else 5;
      ms == [[0xFF, receiver, 0, w, 0, n % 256, (receiver + w + n % 256) % 256]]
  {
    hide OnlyPreset, InRange, Active, Packet.GetPreset, Packet.GetWiper, Packet.GetMenu, ModesOf, CommandBytes;
    SpeaksPreset(q, receiver, m, n);
    PresetParts(q, receiver, m, n);
  }

  lemma WiperOnly(q: Packet, receiver: int, m: Mode)
    requires OnlyWiper(q, receiver, m) && m != Off && 1 <= receiver <= 254
    ensures var w := if m == WiperOn then 9 else 11;
      D.DoWrite(q) == [[0xFF, receiver, 0, w, 0, 1, (receiver + w + 1) % 256]]
  {
    hide D.DoWrite, InRange, Active, Packet.GetPreset, Packet.GetWiper, Packet.GetMenu, ModesOf;
    SpeaksWiper(q, receiver, m);
    MessagesWritten(q);
  }

  lemma IrisOnly(q: Packet, receiver: int, m: Mode, ms: seq<seq<byte>>)
    requires OnlyIris(q, receiver, m) && (m == IrisOpen || m == IrisClose) && 0 <= receiver < 256 && Messages(q, ms)
    ensures var w := if m == IrisOpen then 2 else 4; ms == [[0xFF, receiver, w, 0, 0, 0, (receiver + w) % 256]]
  {
    hide InRange, Active, Packet.GetPreset, Packet.GetWiper, Packet.GetMenu, ModesOf, ModeOf, Nearest, NearestPan;
    SpeaksIris(q, receiver, m);
    assert q.pan == 0 && q.tilt == 0;
    StillNearest(ms[0][4]);
    StillNearest(ms[0][5]);
    assert ms[0] == [0xFF, receiver, ms[0][2], 0, 0, 0, ms[0][6]];
  }

  lemma StoreMessage(q: Packet, receiver: int, n: byte, ms: seq<seq<byte>>)
    requires OnlyPreset(q, receiver, Store, n) && 0 <= receiver < 256 && Messages(q, ms)
    ensures ms == [[0xFF, receiver, 0, 3, 0, n, (receiver + 3 + n) % 256]]
  {
    hide *;
    PresetMessage(q, receiver, Store, n, ms);
  }

  // A packet with nothing but a menu command: opening the menu is storing preset 95, enter
  // and cancel are iris open and close.
  lemma MenuOpened(p: Packet)
    requires OnlyMenu(p, MenuOpen) && 1 <= p.receiver <= 254
    ensures D.DoWrite(p) == [[0xFF, p.receiver, 0, 3, 0, 95, (p.receiver + 3 + 95) % 256]]
  {
    MenuRanged(p, MenuOpen);
    hide *;
    MenuWritten(p);
    MenuAsPreset(p, MenuOpen);
    StoreMessage(p.SetPreset(Store, 95).SetMenu(Off), p.receiver, 95, D.DoWrite(p));
  }

  lemma MenuEntered(p: Packet)
    requires OnlyMenu(p, MenuEnter) && 1 <= p.receiver <= 254
    ensures D.DoWrite(p) == [[0xFF, p.receiver, 2, 0, 0, 0, (p.receiver + 2) % 256]]
  {
    MenuRanged(p, MenuEnter);
    hide *;
    MenuWritten(p);
    MenuAsIris(p, MenuEnter, IrisOpen);
    IrisOnly(p.SetIris(IrisOpen).SetMenu(Off), p.receiver, IrisOpen, D.DoWrite(p));
  }

  lemma MenuCancelled(p: Packet)
    requires OnlyMenu(p, MenuCancel) && 1 <= p.receiver <= 254
    ensures D.DoWrite(p) == [[0xFF, p.receiver, 4, 0, 0, 0, (p.receiver + 4) % 256]]
  {
    MenuRanged(p, MenuCancel);
    hide *;
    MenuWritten(p);
    MenuAsIris(p, MenuCancel, IrisClose);
    IrisOnly(p.SetIris(IrisClose).SetMenu(Off), p.receiver, IrisClose, D.DoWrite(p));
  }

  // A stop with a direction is the message without any command, one without is none.
  lemma StopWritten(p: Packet)
    requires p.IsStop() && 1 <= p.receiver <= 254
    ensures D.DoWrite(p) == if p.GetPan() == p.GetTilt() == Off then []
      else [[0xFF, p.receiver, 0, 0, 0, 0, p.receiver]]
  {
    hide *;
    StopSpeaks(p);
    MessagesWritten(p);
    StopMessages(p, D.DoWrite(p));
  }

  lemma StopMessages(p: Packet, ms: seq<seq<byte>>)
    requires p.IsStop() && 0 <= p.receiver < 256 && Messages(p, ms)
    ensures ms == if p.GetPan() == p.GetTilt() == Off then [] else [[0xFF, p.receiver, 0, 0, 0, 0, p.receiver]]
  {
    hide ModeOf, Packet.GetPreset, Packet.GetWiper, Packet.GetMenu, Packet.GetIris, Packet.GetCamera, Packet.GetFocus,
         Packet.GetZoom, Packet.IsStop, Active, InRange, Nearest, NearestPan, Shape;
    StopSpeaks(p);
    if ms != [] { StopBytes(p, ms[0]); }
  }

  lemma StopBytes(p: Packet, m: seq<byte>)
    requires p.IsStop() && 0 <= p.receiver < 256 && CommandBytes(p, m)
    ensures m == [0xFF, p.receiver, 0, 0, 0, 0, p.receiver]
  {
    hide ModeOf, Packet.GetPreset, Packet.GetWiper, Packet.GetMenu, Packet.GetIris, Packet.GetCamera, Packet.GetFocus,
         Packet.GetZoom, Packet.IsStop, Active, InRange, Nearest, NearestPan;
    StopSpeaks(p);
    StillNearest(m[4]);
    StillNearest(m[5]);
  }

  // What pelco_d makes of any seven bytes that are a command, for a cleared packet: which bit
  // of the third and fourth byte is which command, the first of two contrary ones winning.
  lemma CommandRead(m: seq<byte>, c: Packet)
    requires |m| == 7 && m[3] % 2 == 0 && Blank(c)
    ensures var (q, x, y) := (D.Decode(m, c), m[2], m[3]);
      && q.receiver == m[1] && q.preset == 0 && q.expire == c.expire
      && ModesOf(q.flags) == NO_MODES.(
           pan := if Has(x, 16) then (if Has(x, 128) then PanAuto else Off)
                  else if Has(y, 2) then PanRight else PanLeft,
           tilt := if Has(y, 8) then TiltUp else TiltDown,
           zoom := if Has(y, 32) then ZoomIn else if Has(y, 64) then ZoomOut else Off,
           focus := if Has(x, 1) then FocusNear else if Has(y, 128) then FocusFar else Off,
           iris := if Has(x, 2) then IrisOpen else if Has(x, 4) then IrisClose else Off,
           camera := if !Has(x, 8) then Off else if Has(x, 128) then CameraOn else CameraOff)
  {
    hide Has, ModesOf, CommandOf, SpeedOf, Blank, D.Decode, D.MotionBits, D.CameraIn, D.AutoIn, PanOf, TiltOf, IrisOf,
         FocusOf, ZoomOf;
    ReadSpeed(false, m[4]);
    PlainBits(m);
    PlainModes(m);
    CommandDecoded(m, c);
    CommandModes(D.MotionBits(m), m[1], D.CameraIn(m), D.AutoIn(m), c);
  }

  lemma PlainModes(m: seq<byte>)
    requires |m| == 7
    ensures var (x, y, z) := (m[2], m[3], D.MotionBits(m));
      && PanOf(z) == (if Has(y, 2) then PanRight else PanLeft) && TiltOf(z) == (if Has(y, 8) then TiltUp else TiltDown)
      && ZoomOf(z) == (if Has(y, 32) then ZoomIn else if Has(y, 64) then ZoomOut else Off)
      && FocusOf(z) == (if Has(x, 1) then FocusNear else if Has(y, 128) then FocusFar else Off)
      && IrisOf(z) == (if Has(x, 2) then IrisOpen else if Has(x, 4) then IrisClose else Off)
  {
    hide Has, D.MotionBits;
    PlainBits(m);
  }

  // and the speeds
  lemma SpeedsRead(m: seq<byte>, c: Packet)
    requires |m| == 7 && m[3] % 2 == 0 && Blank(c)
    ensures var (q, x, y) := (D.Decode(m, c), m[2], m[3]);
      && (if !Has(x, 16) && (Has(y, 2) || Has(y, 4)) then ReadAs(false, m[4], q.pan) else q.pan == 0)
      && (if Has(y, 8) || Has(y, 16) then ReadAs(false, m[5], q.tilt) else q.tilt == 0)
  {
    hide Has, ModesOf, CommandOf, SpeedOf, ReadAs, Blank, D.Decode, D.MotionBits, D.CameraIn, D.AutoIn, PanOf, TiltOf,
         IrisOf, FocusOf, ZoomOf;
    ReadSpeed(false, m[4]);
    ReadSpeed(false, m[5]);
    PlainBits(m);
    CommandDecoded(m, c);
    CommandModes(D.MotionBits(m), m[1], D.CameraIn(m), D.AutoIn(m), c);
  }

  lemma PlainBits(m: seq<byte>)
    requires |m| == 7
    ensures var (x, y, z) := (m[2], m[3], D.MotionBits(m));
      && z.right == Has(y, 2) && z.left == Has(y, 4) && z.up == Has(y, 8)
      && z.down == Has(y, 16) && z.open == Has(x, 2) && z.close == Has(x, 4)
      && z.near == Has(x, 1) && z.far == Has(y, 128) && z.zin == Has(y, 32) && z.zout == Has(y, 64)
      && z.pan == SpeedOf(false, m[4]) && z.tilt == SpeedOf(false, m[5])
      && D.CameraIn(m) == (if !Has(x, 8) then Off else if Has(x, 128) then CameraOn else CameraOff)
      && D.AutoIn(m) == (if !Has(x, 16) then Off else if Has(x, 128) then PanAuto else PanManual)
  {
    hide Bit, Has, SpeedOf;
    BitsAre(m[2]);
    BitsAre(m[3]);
  }

  lemma CommandDecoded(m: seq<byte>, c: Packet)
    requires |m| == 7 && m[3] % 2 == 0
    ensures D.Decode(m, c) == CommandOf(D.MotionBits(m), m[1], D.CameraIn(m), D.AutoIn(m), c)
  {
    hide CommandOf, DecodeFunction, D.MotionBits, D.CameraIn, D.AutoIn, ExtendedCode;
    BitZero(m[3]);
  }

  // What pelco_d makes of any seven bytes that are a function.
  lemma ExtendedRead(m: seq<byte>, c: Packet)
    requires |m| == 7 && m[3] % 2 == 1 && Blank(c)
    ensures FunctionRead(D.Decode(m, c), m[1], m[3] % 64, m[5])
  {
    hide CommandOf, DecodeFunction, D.MotionBits, D.CameraIn, D.AutoIn, ExtendedCode, FunctionRead, Blank;
    BitZero(m[3]);
    FunctionIs(m[3], m[5], m[1], c);
  }

  // What is read of a message without any command is a stop.
  lemma StopRead(m: seq<byte>, c: Packet)
    requires |m| == 7 && m[2] == 0 && m[3] == 0 && Blank(c)
    ensures D.Decode(m, c).IsStop()
  {
    hide D.Decode, Blank, ModesOf, Packet.IsStop, ReadAs;
    CommandRead(m, c);
    SpeedsRead(m, c);
    StopExactly(D.Decode(m, c));
  }
}
