/** The pelco_p messages in plain numbers (src/pelco_p.c): which bytes a packet is written as,
    and what any bytes are read as. */
module PelcoPWire {
  import opened Timeval
  import opened Bytes
  import opened Framing
  import opened Ccpacket
  import opened Codec
  import opened Pelco
  import opened PelcoWire
  import P = PelcoP

  function Flags2(p: Packet): nat {
    var on, off := p.GetCamera() == CameraOn, p.GetCamera() == CameraOff;
    On(p.GetFocus() == FocusFar, 1) + On(p.GetFocus() == FocusNear, 2) + On(p.GetIris() == IrisOpen, 4)
    + On(p.GetIris() == IrisClose, 8) + On(on || off, 16) + On(p.GetPan() == PanAuto, 32) + On(on, 64)
  }

  predicate CommandBytes(p: Packet, m: seq<byte>) {
    && Shape(Protocol.PelcoP, m)
    && m[1] == p.receiver && m[2] == Flags2(p) && m[3] == MoveBits(p) && SpeedBytes(p, m[4], m[5])
  }

  // the last byte is the exclusive or of these seven
  predicate FunctionBytes(m: seq<byte>, receiver: int, word: byte, n: byte) {
    Shape(Protocol.PelcoP, m) && m[..7] == [0xA0, receiver, 0, word, 0, n, 0xAF]
  }

  // one message each for the commands, the preset and the wiper
  predicate Messages(p: Packet, ms: seq<seq<byte>>) {
    var (a, b, c) := (On(Active(p), 1), On(p.GetPreset() != Off, 1), On(p.GetWiper() != Off, 1));
    && |ms| == a + b + c
    && (a == 1 ==> CommandBytes(p, ms[0]))
    && (b == 1 ==> FunctionBytes(ms[a], p.receiver, PresetWord(p.GetPreset()), p.preset % 256))
    && (c == 1 ==> FunctionBytes(ms[a + b], p.receiver, WiperWord(p.GetWiper()), 1))
  }

  lemma FlagsAre(p: Packet)
    ensures Pack(P.Bits2(p)) == Flags2(p)
  {
    hide ModeOf, Pack;
    PackIs(P.Bits2(p));
  }

  lemma MoveBitsAre(p: Packet)
    requires InRange(p)
    ensures Pack(P.Bits3(p)) == MoveBits(p)
  {
    hide ModeOf, Pack, MoveBits, InRange, Pans, Tilts;
    PackIs(P.Bits3(p));
    MovesAre(p);
  }

  lemma CommandIs(p: Packet)
    requires InRange(p) && 1 <= p.receiver <= 254
    ensures CommandBytes(p, P.Command(p))
  {
    hide ModeOf, Pack, Shape, SpeedBytes, MoveBits, Flags2, PanByte, TiltByte, InRange, Message, P.Command, P.Bits2,
         P.Bits3, Packet.GetFocus;
    P.MessagesOk(p);
    MessageExactly(Protocol.PelcoP, P.Command(p));
    P.CommandAt(p);
    FlagsAre(p);
    MoveBitsAre(p);
    SpeedBytesAre(p);
  }

  lemma ExtendedIs(receiver: int, ex: Function, word: byte, n: byte)
    requires 0 <= receiver < 256 && ExtendedByte(ex) == word
    ensures FunctionBytes(P.Extended(receiver, ex, n), receiver, word, n)
  {
    hide ExtendedByte, P.Checksummed, Message, Shape;
    var m := [0xA0, receiver, 0, word, 0, n, 0xAF, 0];
    P.MessageOk(m);
    MessageExactly(Protocol.PelcoP, P.Checksummed(m));
    ChecksummedFront(m);
  }

  lemma ChecksummedFront(m: seq<byte>)
    requires |m| == 8
    ensures P.Checksummed(m)[..7] == m[..7] && |P.Checksummed(m)| == 8
  {
    hide XorP;
  }

  lemma PresetIs(p: Packet)
    requires 1 <= p.receiver <= 254 && p.GetPreset() != Off
    ensures FunctionBytes(P.Preset(p), p.receiver, PresetWord(p.GetPreset()), p.preset % 256)
  {
    hide FunctionBytes, P.Extended, PresetFunction, ExtendedByte, PresetWord, Fits, ModeOf, Packet.GetPreset;
    P.PresetIs(p);
    WordsAre(p.GetPreset());
    ExtendedIs(p.receiver, PresetFunction(p.GetPreset()), PresetWord(p.GetPreset()), p.preset % 256);
  }

  lemma WiperIs(p: Packet)
    requires 1 <= p.receiver <= 254 && p.GetWiper() != Off
    ensures FunctionBytes(P.Wiper(p), p.receiver, WiperWord(p.GetWiper()), 1)
  {
    hide FunctionBytes, P.Extended, WiperFunction, ExtendedByte, WiperWord, Fits, ModeOf, Packet.GetWiper;
    WiperFits(p);
    WordsAre(p.GetWiper());
    ExtendedIs(p.receiver, WiperFunction(p.GetWiper()), WiperWord(p.GetWiper()), 1);
  }

  // For every packet without a menu command: the bytes that pelco_p writes.
  lemma MessagesWritten(p: Packet)
    requires InRange(p) && 1 <= p.receiver <= 254 && p.GetMenu() == Off
    ensures Messages(p, P.DoWrite(p))
  {
    hide InRange, CommandBytes, FunctionBytes, P.Command, P.Preset, P.Wiper, P.DoWrite, Written, Commands, Active,
         Asked,
         PresetWord, WiperWord, ModeOf, Packet.GetWiper, Packet.GetPreset, Packet.GetMenu, Parts;
    P.DoWriteIs(p);
    AskedFor(p);
    CommandIs(p);
    if p.GetPreset() != Off { PresetIs(p); }
    if p.GetWiper() != Off { WiperIs(p); }
    WrittenAt(p, P.Command(p), P.Preset(p), P.Wiper(p));
    WrittenLength(p, P.Command(p), P.Preset(p), P.Wiper(p));
    ActiveIs(p);
  }

  // A menu command goes out as the storing of preset 95, or as iris open or close, together
  // with all else that the packet asks for.
  lemma MenuWritten(p: Packet)
    requires InRange(p) && 1 <= p.receiver <= 254
    ensures p.GetMenu() == MenuOpen ==> Messages(p.SetPreset(Store, 95).SetMenu(Off), P.DoWrite(p))
    ensures p.GetMenu() == MenuEnter ==> Messages(p.SetIris(IrisOpen).SetMenu(Off), P.DoWrite(p))
    ensures p.GetMenu() == MenuCancel ==> Messages(p.SetIris(IrisClose).SetMenu(Off), P.DoWrite(p))
  {
    hide InRange, Messages, P.Command, P.Preset, P.Wiper, P.DoWrite, Written, SameButMenu, ModeOf, Packet.SetPreset,
         Packet.SetIris, Packet.SetMenu, Packet.GetMenu;
    if p.GetMenu() != Off {
      P.DoWriteIs(p);
      var q := Asked(p);
      AskedFor(p);
      MenuDropped(AdjustMenu(p));
      AskedAgain(q);
      P.DoWriteIs(q);
      MessagesWritten(q);
    }
  }

  // A packet with nothing but one preset or wiper command is this one pelco_p message.
  lemma PresetOnly(q: Packet, receiver: int, m: Mode, n: int)
    requires OnlyPreset(q, receiver, m, n) && m != Off && 1 <= receiver <= 254
    ensures var w := if m == Recall then 7 else if m == Store then 3 else 5;
      |P.DoWrite(q)| == 1 && FunctionBytes(P.DoWrite(q)[0], receiver, w, n % 256)
  {
    hide *;
    SpeaksPreset(q, receiver, m, n);
    PresetParts(q, receiver, m, n);
    MessagesWritten(q);
    PresetMessage(q, receiver, m, n, P.DoWrite(q));
  }

  lemma PresetMessage(q: Packet, receiver: int, m: Mode, n: int, ms: seq<seq<byte>>)
    requires OnlyPreset(q, receiver, m, n) && m != Off && 0 <= receiver < 256 && Messages(q, ms)
    ensures var w := if m == Recall then 7 else if m == Store then 3 else 5;
      |ms| == 1 && FunctionBytes(ms[0], receiver, w, n % 256)
  {
    hide OnlyPreset, InRange, Active, Packet.GetPreset, Packet.GetWiper, Packet.GetMenu, ModesOf, CommandBytes;
    SpeaksPreset(q, receiver, m, n);
    PresetParts(q, receiver, m, n);
  }

  lemma WiperOnly(q: Packet, receiver: int, m: Mode)
    requires OnlyWiper(q, receiver, m) && m != Off && 1 <= receiver <= 254
    ensures var w := if m == WiperOn then 9 else 11;
      |P.DoWrite(q)| == 1 && FunctionBytes(P.DoWrite(q)[0], receiver, w, 1)
  {
    hide P.DoWrite, InRange, Active, Packet.GetPreset, Packet.GetWiper, Packet.GetMenu, ModesOf;
    SpeaksWiper(q, receiver, m);
    MessagesWritten(q);
  }

  predicate IrisBytes(m: seq<byte>, receiver: int, flag: byte) {
    Shape(Protocol.PelcoP, m) && m[..7] == [0xA0, receiver, flag, 0, 0, 0, 0xAF]
  }

  lemma IrisOnly(q: Packet, receiver: int, m: Mode, ms: seq<seq<byte>>)
    requires OnlyIris(q, receiver, m) && (m == IrisOpen || m == IrisClose) && 0 <= receiver < 256 && Messages(q, ms)
    ensures |ms| == 1 && IrisBytes(ms[0], receiver, if m == IrisOpen then 4 else 8)
  {
    hide InRange, Active, Packet.GetPreset, Packet.GetWiper, Packet.GetMenu, ModesOf, ModeOf, Nearest, NearestPan;
    SpeaksIris(q, receiver, m);
    assert q.pan == 0 && q.tilt == 0;
    StillNearest(ms[0][4]);
    StillNearest(ms[0][5]);
  }

  lemma StoreMessage(q: Packet, receiver: int, n: byte, ms: seq<seq<byte>>)
    requires OnlyPreset(q, receiver, Store, n) && 0 <= receiver < 256 && Messages(q, ms)
    ensures |ms| == 1 && FunctionBytes(ms[0], receiver, 3, n)
  {
    hide *;
    PresetMessage(q, receiver, Store, n, ms);
  }

  // A packet with nothing but a menu command: opening the menu is storing preset 95, enter
  // and cancel are iris open and close.
  lemma MenuOpened(p: Packet)
    requires OnlyMenu(p, MenuOpen) && 1 <= p.receiver <= 254
    ensures |P.DoWrite(p)| == 1 && FunctionBytes(P.DoWrite(p)[0], p.receiver, 3, 95)
  {
    MenuRanged(p, MenuOpen);
    hide *;
    MenuWritten(p);
    MenuAsPreset(p, MenuOpen);
    StoreMessage(p.SetPreset(Store, 95).SetMenu(Off), p.receiver, 95, P.DoWrite(p));
  }

  lemma MenuEntered(p: Packet)
    requires OnlyMenu(p, MenuEnter) && 1 <= p.receiver <= 254
    ensures |P.DoWrite(p)| == 1 && IrisBytes(P.DoWrite(p)[0], p.receiver, 4)
  {
    MenuRanged(p, MenuEnter);
    hide *;
    MenuWritten(p);
    MenuAsIris(p, MenuEnter, IrisOpen);
    IrisOnly(p.SetIris(IrisOpen).SetMenu(Off), p.receiver, IrisOpen, P.DoWrite(p));
  }

  lemma MenuCancelled(p: Packet)
    requires OnlyMenu(p, MenuCancel) && 1 <= p.receiver <= 254
    ensures |P.DoWrite(p)| == 1 && IrisBytes(P.DoWrite(p)[0], p.receiver, 8)
  {
    MenuRanged(p, MenuCancel);
    hide *;
    MenuWritten(p);
    MenuAsIris(p, MenuCancel, IrisClose);
    IrisOnly(p.SetIris(IrisClose).SetMenu(Off), p.receiver, IrisClose, P.DoWrite(p));
  }

  // A stop with a direction is the message without any command, one without is none.
  lemma StopWritten(p: Packet)
    requires p.IsStop() && 1 <= p.receiver <= 254
    ensures var ms := P.DoWrite(p);
      if p.GetPan() == p.GetTilt() == Off then ms == [] else |ms| == 1 && IrisBytes(ms[0], p.receiver, 0)
  {
    hide ModeOf, Packet.GetPreset, Packet.GetWiper, Packet.GetMenu, Packet.GetIris, Packet.GetCamera, Packet.GetFocus,
         Packet.GetZoom, Packet.IsStop, Active, InRange, P.DoWrite, Nearest, NearestPan, XorIs;
    StopSpeaks(p);
    MessagesWritten(p);
    var ms := P.DoWrite(p);
    if ms != [] {
      StillNearest(ms[0][4]);
      StillNearest(ms[0][5]);
    }
  }

  // What pelco_p makes of any eight bytes that are a command, for a cleared packet at a reader with or
  // without deadzone: which bit
  // of the third and fourth byte is which command, the first of two contrary ones winning.
  lemma CommandRead(m: seq<byte>, dead: bool, c: Packet)
    requires |m| == 8 && m[3] % 2 == 0 && Blank(c)
    ensures var (q, x, y) := (P.Decode(m, dead, c), m[2], m[3]);
      && q.receiver == m[1] && q.preset == 0 && q.expire == c.expire
      && ModesOf(q.flags) == NO_MODES.(
           pan := if Has(x, 32) then PanAuto else if Has(y, 2) then PanRight else PanLeft,
           tilt := if Has(y, 8) then TiltUp else TiltDown,
           zoom := if Has(y, 32) then ZoomIn else if Has(y, 64) then ZoomOut else Off,
           focus := if Has(x, 2) then FocusNear else if Has(x, 1) then FocusFar else Off,
           iris := if Has(x, 4) then IrisOpen else if Has(x, 8) then IrisClose else Off,
           camera := if !Has(x, 16) then Off else if Has(x, 64) then CameraOn else CameraOff)
  {
    hide Has, ModesOf, CommandOf, SpeedOf, Blank, P.Decode, P.MotionBits, P.CameraIn, P.AutoIn, PanOf, TiltOf, IrisOf,
         FocusOf, ZoomOf;
    ReadSpeed(dead, m[4]);
    PlainBits(m, dead);
    PlainModes(m, dead);
    CommandDecoded(m, dead, c);
    CommandModes(P.MotionBits(m, dead), m[1], P.CameraIn(m), P.AutoIn(m), c);
  }

  lemma PlainModes(m: seq<byte>, dead: bool)
    requires |m| == 8
    ensures var (x, y, z) := (m[2], m[3], P.MotionBits(m, dead));
      && PanOf(z) == (if Has(y, 2) then PanRight else PanLeft) && TiltOf(z) == (if Has(y, 8) then TiltUp else TiltDown)
      && ZoomOf(z) == (if Has(y, 32) then ZoomIn else if Has(y, 64) then ZoomOut else Off)
      && FocusOf(z) == (if Has(x, 2) then FocusNear else if Has(x, 1) then FocusFar else Off)
      && IrisOf(z) == (if Has(x, 4) then IrisOpen else if Has(x, 8) then IrisClose else Off)
  {
    hide Has, P.MotionBits;
    PlainBits(m, dead);
  }

  // and the speeds
  lemma SpeedsRead(m: seq<byte>, dead: bool, c: Packet)
    requires |m| == 8 && m[3] % 2 == 0 && Blank(c)
    ensures var (q, x, y) := (P.Decode(m, dead, c), m[2], m[3]);
      && (if !Has(x, 32) && (Has(y, 2) || Has(y, 4)) then ReadAs(dead, m[4], q.pan) else q.pan == 0)
      && (if Has(y, 8) || Has(y, 16) then ReadAs(dead, m[5], q.tilt) else q.tilt == 0)
  {
    hide Has, ModesOf, CommandOf, SpeedOf, ReadAs, Blank, P.Decode, P.MotionBits, P.CameraIn, P.AutoIn, PanOf, TiltOf,
         IrisOf, FocusOf, ZoomOf;
    ReadSpeed(dead, m[4]);
    ReadSpeed(dead, m[5]);
    PlainBits(m, dead);
    CommandDecoded(m, dead, c);
    CommandModes(P.MotionBits(m, dead), m[1], P.CameraIn(m), P.AutoIn(m), c);
  }

  lemma PlainBits(m: seq<byte>, dead: bool)
    requires |m| == 8
    ensures var (x, y, z) := (m[2], m[3], P.MotionBits(m, dead));
      && z.right == Has(y, 2) && z.left == Has(y, 4) && z.up == Has(y, 8)
      && z.down == Has(y, 16) && z.open == Has(x, 4) && z.close == Has(x, 8)
      && z.near == Has(x, 2) && z.far == Has(x, 1) && z.zin == Has(y, 32) && z.zout == Has(y, 64)
      && z.pan == SpeedOf(dead, m[4]) && z.tilt == SpeedOf(dead, m[5])
      && P.CameraIn(m) == (if !Has(x, 16) then Off else if Has(x, 64) then CameraOn else CameraOff)
      && P.AutoIn(m) == (if Has(x, 32) then PanAuto else Off)
  {
    hide Bit, Has, SpeedOf;
    BitsAre(m[2]);
    BitsAre(m[3]);
  }

  lemma CommandDecoded(m: seq<byte>, dead: bool, c: Packet)
    requires |m| == 8 && m[3] % 2 == 0
    ensures P.Decode(m, dead, c) == CommandOf(P.MotionBits(m, dead), m[1], P.CameraIn(m), P.AutoIn(m), c)
  {
    hide CommandOf, DecodeFunction, P.MotionBits, P.CameraIn, P.AutoIn, ExtendedCode;
    BitZero(m[3]);
  }

  // What pelco_p makes of any eight bytes that are a function.
  lemma ExtendedRead(m: seq<byte>, dead: bool, c: Packet)
    requires |m| == 8 && m[3] % 2 == 1 && Blank(c)
    ensures FunctionRead(P.Decode(m, dead, c), m[1], m[3] % 64, m[5])
  {
    hide CommandOf, DecodeFunction, P.MotionBits, P.CameraIn, P.AutoIn, ExtendedCode, FunctionRead, Blank;
    BitZero(m[3]);
    FunctionIs(m[3], m[5], m[1], c);
  }

  // What is read of a message without any command is a stop.
  lemma StopRead(m: seq<byte>, dead: bool, c: Packet)
    requires |m| == 8 && m[2] == 0 && m[3] == 0 && Blank(c)
    ensures P.Decode(m, dead, c).IsStop()
  {
    hide P.Decode, Blank, ModesOf, Packet.IsStop, ReadAs;
    CommandRead(m, dead, c);
    SpeedsRead(m, dead, c);
    StopExactly(P.Decode(m, dead, c));
  }
}
