/** The pelco messages in plain numbers (src/pelco_d.c, src/pelco_p.c): which bytes a packet
    is written as, and what any bytes are read as. Nothing here names the encoders' or the
    decoders' own tables of bits, levels and functions. */
module PelcoWire {
  import opened Timeval
  import opened Bytes
  import opened Framing
  import opened Ccpacket
  import opened Codec
  import opened Pelco

  // --- speeds ---

  // the nearest multiple of 32, and 63 from there on; full pan speed has a level of its own
  predicate Nearest(level: int, speed: int) {
    if speed >= 2032 then level == 63 else 32 * level - 16 <= speed < 32 * level + 16
  }

  predicate NearestPan(level: int, speed: int) { if speed >= 2040 then level == 64 else Nearest(level, speed) }

  lemma LevelsAre(speed: nat)
    requires speed <= 2047
    ensures Nearest(EncodeSpeed(speed), speed) && NearestPan(EncodePanSpeed(speed), speed)
    ensures EncodeSpeed(speed) != 0 <==> speed >= 16
  {
  }

  // what a reader makes of a level: with the deadzone, level 7 upwards evenly up to 64
  predicate ReadAs(dead: bool, level: int, speed: int) {
    if level >= 64 then speed == 2047
    else if !dead then speed == 32 * level
    else if level < 7 then speed == 0
    else 58 * speed <= 2047 * (level - 6) < 58 * speed + 58
  }

  lemma ReadSpeed(dead: bool, level: nat)
    ensures ReadAs(dead, level, SpeedOf(dead, level)) && SpeedOf(dead, level) <= 2047
  {
    if level >= 64 { assert (level - 6) * 2047 >= 58 * 2047; }
  }

  // --- the packet ---

  // what takes a command message
  predicate Active(p: Packet) {
    || p.GetPan() != Off || p.GetTilt() != Off || p.GetZoom() != Off || p.GetFocus() != Off || p.GetIris() != Off
    || p.GetCamera() != Off
  }

  // the movement and zoom bits, which both protocols have in the fourth byte
  function MoveBits(p: Packet): nat {
    On(p.GetPan() == PanRight && p.pan != 0, 2) + On(p.GetPan() == PanLeft && p.pan != 0, 4)
    + On(p.GetTilt() == TiltUp && p.tilt >= 16, 8) + On(p.GetTilt() == TiltDown && p.tilt >= 16, 16)
    + On(p.GetZoom() == ZoomIn, 32) + On(p.GetZoom() == ZoomOut, 64)
  }

  predicate SpeedBytes(p: Packet, pan: byte, tilt: byte) {
    && (if p.GetPan() == PanAuto then pan == 0 else NearestPan(pan, p.pan))
    && (if p.GetTilt() == Off then tilt == 0 else Nearest(tilt, p.tilt))
  }

  function PresetWord(m: Mode): byte {
    match m case Recall => 7 case Store => 3 case Erase => 5 case _ => 1
  }

  function WiperWord(m: Mode): byte { if m == WiperOn then 9 else 11 }

  lemma SpeedBytesAre(p: Packet)
    requires InRange(p)
    ensures SpeedBytes(p, PanByte(p), TiltByte(p))
  {
    LevelsAre(p.pan);
    LevelsAre(p.tilt);
    ModeFits(p.flags, ForPan);
    ModeFits(p.flags, ForTilt);
    hide ModeOf, Nearest, NearestPan, EncodeSpeed, EncodePanSpeed;
    StillByte();
  }

  lemma StillByte()
    ensures EncodePanSpeed(0) == 0
  {
  }

  lemma MovesAre(p: Packet)
    requires InRange(p)
    ensures MoveBits(p) == On(Pans(p, PanRight), 2) + On(Pans(p, PanLeft), 4) + On(Tilts(p, TiltUp), 8)
      + On(Tilts(p, TiltDown), 16) + On(p.GetZoom() == ZoomIn, 32) + On(p.GetZoom() == ZoomOut, 64)
  {
    hide ModeOf, EncodeSpeed, Nearest, NearestPan;
    LevelsAre(p.tilt);
  }

  lemma ActiveIs(p: Packet)
    ensures Commands(p) == Active(p)
  {
    hide ModeOf;
    ModeFits(p.flags, ForPan);
  }

  lemma WordsAre(m: Mode)
    requires m != Off
    ensures Fits(ForPreset, m) ==> ExtendedByte(PresetFunction(m)) == PresetWord(m)
    ensures Fits(ForWiper, m) ==> ExtendedByte(WiperFunction(m)) == WiperWord(m)
  {
  }

  // --- functions read ---

  predicate Nothing(q: Packet, receiver: int) {
    q.receiver == receiver && ModesOf(q.flags) == NO_MODES && q.pan == 0 && q.tilt == 0 && q.preset == 0
  }

  // What the fourth byte of a function and its number are to a cleared packet: 3 stores, 5
  // erases and 7 recalls a preset, 9 and 11 turn the wiper on and off, the rest is ignored.
  predicate FunctionRead(q: Packet, receiver: int, word: nat, n: byte) {
    var m := match word case 3 => Store case 5 => Erase case 7 => Recall case _ => Off;
    if m != Off && n > 0 && !(m == Store && 77 <= n <= 79) then OnlyPreset(q, receiver, m, n)
    else if word == 9 && n == 1 then OnlyWiper(q, receiver, WiperOn)
    else if word == 11 && n == 1 then OnlyWiper(q, receiver, WiperOff)
    else Nothing(q, receiver)
  }

  lemma FunctionIs(x: byte, n: byte, receiver: int, c: Packet)
    requires x % 2 == 1 && Blank(c)
    ensures FunctionRead(DecodeFunction(ExtendedCode(x), n, c.SetReceiver(receiver)), receiver, x % 64, n)
  {
    hide *;
    WordOf(x);
    FunctionOf(ExtendedCode(x), n, receiver, c);
  }

  lemma FunctionOf(code: nat, n: byte, receiver: int, c: Packet)
    requires Blank(c)
    ensures FunctionRead(DecodeFunction(code, n, c.SetReceiver(receiver)), receiver, 1 + 2 * code, n)
  {
    hide OnlyPreset, OnlyWiper, Nothing, Blank, Packet.SetPreset, Packet.SetWiper, ModesOf, ModeOf, Storable;
    var r := c.SetReceiver(receiver);
    BlankNothing(r, receiver, c);
    if code == 1 {
      PresetCase(c, receiver, Store, n);
    } else if code == 2 {
      PresetCase(c, receiver, Erase, n);
    } else if code == 3 {
      PresetCase(c, receiver, Recall, n);
    } else if code == 4 {
      BlankWiper(c, receiver, WiperOn);
    } else if code == 5 {
      BlankWiper(c, receiver, WiperOff);
    }
  }

  lemma PresetCase(c: Packet, receiver: int, m: Mode, n: byte)
    requires Blank(c) && m != Off && Fits(ForPreset, m)
    ensures var q := c.SetReceiver(receiver).SetPreset(m, n);
      if n > 0 && !(m == Store && 77 <= n <= 79) then OnlyPreset(q, receiver, m, n) else Nothing(q, receiver)
  {
    hide OnlyPreset, Nothing, Blank, Packet.SetPreset, ModesOf, ModeOf;
    if Storable(m, n) { BlankPreset(c, receiver, m, n); } else { PresetRefused(c, receiver, m, n); }
  }

  lemma WordOf(x: byte)
    requires x % 2 == 1
    ensures x % 64 == 1 + 2 * ExtendedCode(x)
  {
  }

  lemma BlankNothing(r: Packet, receiver: int, c: Packet)
    requires Blank(c) && r == c.SetReceiver(receiver)
    ensures Nothing(r, receiver)
  {
    hide ModesOf;
  }

  lemma PresetRefused(c: Packet, receiver: int, m: Mode, n: nat)
    requires Blank(c) && m != Off && Fits(ForPreset, m) && !Storable(m, n)
    ensures Nothing(c.SetReceiver(receiver).SetPreset(m, n), receiver)
  {
    hide ModesOf, Packet.SetPreset;
    PresetStored(c.SetReceiver(receiver), m, n);
  }

  // --- packets with one command ---

  lemma WrittenLength(p: Packet, command: seq<byte>, preset: seq<byte>, wiper: seq<byte>)
    ensures |Written(p, command, preset, wiper)| == On(Commands(p), 1) + On(p.GetPreset() != Off, 1)
      + On(p.GetWiper() != Off, 1)
  {
    hide Commands, Packet.GetWiper, Packet.GetPreset;
  }

  lemma AskedAgain(q: Packet)
    requires q.GetMenu() == Off
    ensures Asked(q) == q
  {
  }

  // a packet with nothing but one menu command
  predicate OnlyMenu(p: Packet, m: Mode) {
    ModesOf(p.flags) == NO_MODES.(menu := m) && p.pan == 0 && p.tilt == 0 && p.preset == 0
  }

  lemma MenuRanged(p: Packet, m: Mode)
    requires OnlyMenu(p, m)
    ensures InRange(p) && p.GetMenu() == m
  {
    hide ModeOf;
  }

  lemma MenuGone(p: Packet)
    ensures var q := p.SetMenu(Off); ModesOf(q.flags) == ModesOf(p.flags).(menu := Off) && q == p.(flags := q.flags)
  {
    ModesSet(p.flags, ForMenu, Off);
    hide With, ModesOf;
  }

  predicate OnlyIris(q: Packet, receiver: int, m: Mode) {
    && ModesOf(q.flags) == NO_MODES.(iris := m) && q.receiver == receiver && q.pan == 0 && q.tilt == 0 && q.preset == 0
  }

  // what the packet asks for once its menu command is turned
  lemma MenuAsPreset(p: Packet, m: Mode)
    requires OnlyMenu(p, m)
    ensures OnlyPreset(p.SetPreset(Store, 95).SetMenu(Off), p.receiver, Store, 95)
  {
    var a := p.SetPreset(Store, 95);
    PresetModes(p, Store, 95);
    MenuGone(a);
    PresetRead(a.SetMenu(Off), Store);
    hide ModesOf, Packet.SetPreset, Packet.SetMenu, Packet.GetPreset;
  }

  lemma PresetRead(q: Packet, m: Mode)
    requires ModesOf(q.flags).preset == m && q.preset > 0 && Fits(ForPreset, m)
    ensures q.GetPreset() == m
  {
    hide ModeOf;
  }

  lemma MenuAsIris(p: Packet, m: Mode, x: Mode)
    requires OnlyMenu(p, m) && (x == IrisOpen || x == IrisClose)
    ensures OnlyIris(p.SetIris(x).SetMenu(Off), p.receiver, x)
  {
    ModesSet(p.flags, ForIris, x);
    MenuGone(p.SetIris(x));
    hide With, ModesOf, Packet.SetMenu;
  }

  lemma StillNearest(level: int)
    ensures Nearest(level, 0) <==> level == 0
    ensures NearestPan(level, 0) <==> level == 0
  {
  }

  lemma PresetParts(q: Packet, receiver: int, m: Mode, n: int)
    requires OnlyPreset(q, receiver, m, n)
    ensures q.receiver == receiver && q.preset == n
  {
  }

  lemma SpeaksPreset(q: Packet, receiver: int, m: Mode, n: int)
    requires OnlyPreset(q, receiver, m, n) && m != Off
    ensures !Active(q) && q.GetPreset() == m && q.GetWiper() == Off && q.GetMenu() == Off && InRange(q)
    ensures Fits(ForPreset, m) && n > 0
  {
    hide ModeOf;
    ModeFits(q.flags, ForPreset);
  }

  lemma SpeaksWiper(q: Packet, receiver: int, m: Mode)
    requires OnlyWiper(q, receiver, m) && m != Off
    ensures !Active(q) && q.GetPreset() == Off && q.GetWiper() == m && q.GetMenu() == Off && InRange(q)
    ensures Fits(ForWiper, m)
  {
    hide ModeOf;
    ModeFits(q.flags, ForWiper);
  }

  lemma SpeaksIris(q: Packet, receiver: int, m: Mode)
    requires OnlyIris(q, receiver, m) && m != Off
    ensures Active(q) && q.GetIris() == m && q.GetPreset() == Off && q.GetWiper() == Off && InRange(q)
    ensures q.GetFocus() == q.GetCamera() == q.GetPan() == q.GetTilt() == q.GetZoom() == Off
  {
    hide ModeOf;
  }

  // what a stop with a direction speaks
  lemma StopSpeaks(p: Packet)
    requires p.IsStop()
    ensures p.GetPreset() == Off && p.GetWiper() == Off && p.GetMenu() == Off && InRange(p)
    ensures p.GetFocus() == p.GetCamera() == p.GetIris() == p.GetZoom() == Off
    ensures p.GetPan() != PanAuto && p.pan == 0 && p.tilt == 0 && Active(p) == (p.GetPan() != Off || p.GetTilt() != Off)
  {
    hide ModeOf;
  }
}
