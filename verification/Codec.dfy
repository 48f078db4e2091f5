/** The movement and lens commands, as all protocols decode them. */
module Codec {
  import opened Timeval
  import opened Ccpacket

  // speeds within the range that decoders keep to
  predicate InRange(p: Packet) { 0 <= p.pan <= SPEED_MAX && 0 <= p.tilt <= SPEED_MAX }
  type Ranged = p: Packet | InRange(p) witness Cleared(Timeval(0, 0))

  // two packets that differ in their menu commands at most
  predicate SameButMenu(p: Packet, q: Packet) {
    p.(flags := 0) == q.(flags := 0) && ModesOf(p.flags).(menu := Off) == ModesOf(q.flags).(menu := Off)
  }

  lemma MenuDropped(p: Packet)
    ensures SameButMenu(p, p.SetMenu(Off)) && p.SetMenu(Off).GetMenu() == Off
  {
    ModesSet(p.flags, ForMenu, Off);
    hide With, ModeOf;
  }

  // no automatic lens function, which most protocols cannot ask for
  predicate Manual(p: Packet) { p.GetFocus() != FocusAuto && p.GetIris() != IrisAuto }

  // --- movement and lens commands ---

  // which command bits a message carries, and the speeds that go with them
  datatype Motion = Motion(right: bool, left: bool, up: bool, down: bool, open: bool, close: bool,
                           near: bool, far: bool, zin: bool, zout: bool, pan: int, tilt: int)

  // decode_pan
  function DecodePan(x: Motion, p: Packet): Packet {
    if x.right then p.SetPan(PanRight, x.pan) else if x.left then p.SetPan(PanLeft, x.pan) else p.SetPan(PanLeft, 0)
  }

  // decode_tilt
  function DecodeTilt(x: Motion, p: Packet): Packet {
    if x.up then p.SetTilt(TiltUp, x.tilt) else if x.down then p.SetTilt(TiltDown, x.tilt) else p.SetTilt(TiltDown, 0)
  }

  // decode_lens
  function DecodeIris(x: Motion, p: Packet): Packet {
    if x.open then p.SetIris(IrisOpen) else if x.close then p.SetIris(IrisClose) else p
  }
  function DecodeFocus(x: Motion, p: Packet): Packet {
    if x.near then p.SetFocus(FocusNear) else if x.far then p.SetFocus(FocusFar) else p
  }
  function DecodeZoom(x: Motion, p: Packet): Packet {
    if x.zin then p.SetZoom(ZoomIn) else if x.zout then p.SetZoom(ZoomOut) else p
  }

  function DecodeLens(x: Motion, p: Packet): Packet { DecodeZoom(x, DecodeFocus(x, DecodeIris(x, p))) }

  function DecodeMotion(x: Motion, p: Packet): Packet { DecodeLens(x, DecodeTilt(x, DecodePan(x, p))) }

  // the same, in place
  method PanInto(x: Motion, pkt: PacketBuffer)
    modifies pkt
    ensures pkt.View() == DecodePan(x, old(pkt.View()))
  {
    hide With;
    if x.right {
      pkt.SetPan(PanRight, x.pan);
    } else if x.left {
      pkt.SetPan(PanLeft, x.pan);
    } else {
      pkt.SetPan(PanLeft, 0);
    }
  }

  method TiltInto(x: Motion, pkt: PacketBuffer)
    modifies pkt
    ensures pkt.View() == DecodeTilt(x, old(pkt.View()))
  {
    hide With;
    if x.up {
      pkt.SetTilt(TiltUp, x.tilt);
    } else if x.down {
      pkt.SetTilt(TiltDown, x.tilt);
    } else {
      pkt.SetTilt(TiltDown, 0);
    }
  }

  method LensInto(x: Motion, pkt: PacketBuffer)
    modifies pkt
    ensures pkt.View() == DecodeLens(x, old(pkt.View()))
  {
    hide With;
    if x.open { pkt.SetIris(IrisOpen); } else if x.close { pkt.SetIris(IrisClose); }
    if x.near { pkt.SetFocus(FocusNear); } else if x.far { pkt.SetFocus(FocusFar); }
    if x.zin { pkt.SetZoom(ZoomIn); } else if x.zout { pkt.SetZoom(ZoomOut); }
  }

  method MotionInto(x: Motion, pkt: PacketBuffer)
    modifies pkt
    ensures pkt.View() == DecodeMotion(x, old(pkt.View()))
  {
    hide DecodePan, DecodeTilt, DecodeLens;
    PanInto(x, pkt);
    TiltInto(x, pkt);
    LensInto(x, pkt);
  }

  // --- meanings ---

  // presets 77 to 79 cannot be stored
  predicate Storable(m: Mode, number: int) {
    number > 0 && m != Off && Fits(ForPreset, m) && !(m == Store && 77 <= number <= 79)
  }

  function PanOf(x: Motion): Mode { if x.right then PanRight else PanLeft }
  function TiltOf(x: Motion): Mode { if x.up then TiltUp else TiltDown }
  function IrisOf(x: Motion): Mode { if x.open then IrisOpen else if x.close then IrisClose else Off }
  function FocusOf(x: Motion): Mode { if x.near then FocusNear else if x.far then FocusFar else Off }
  function ZoomOf(x: Motion): Mode { if x.zin then ZoomIn else if x.zout then ZoomOut else Off }

  lemma PanModes(x: Motion, p: Packet)
    requires 0 <= x.pan <= SPEED_MAX
    ensures var q := DecodePan(x, p);
      && ModesOf(q.flags) == ModesOf(p.flags).(pan := PanOf(x))
      && q == p.(flags := q.flags, pan := if x.right || x.left then x.pan else 0)
  {
    ModesSet(p.flags, ForPan, PanOf(x));
    hide With, ModesOf;
  }

  lemma TiltModes(x: Motion, p: Packet)
    ensures var q := DecodeTilt(x, p);
      && ModesOf(q.flags) == ModesOf(p.flags).(tilt := TiltOf(x))
      && q == p.(flags := q.flags, tilt := if x.up || x.down then x.tilt else 0)
  {
    ModesSet(p.flags, ForTilt, TiltOf(x));
    hide With, ModesOf;
  }

  lemma IrisModes(x: Motion, p: Packet)
    requires ModesOf(p.flags).iris == Off
    ensures var q := DecodeIris(x, p);
      ModesOf(q.flags) == ModesOf(p.flags).(iris := IrisOf(x)) && q == p.(flags := q.flags)
  {
    ModesSet(p.flags, ForIris, IrisOf(x));
    hide With, ModesOf;
  }

  lemma FocusModes(x: Motion, p: Packet)
    requires ModesOf(p.flags).focus == Off
    ensures var q := DecodeFocus(x, p);
      ModesOf(q.flags) == ModesOf(p.flags).(focus := FocusOf(x)) && q == p.(flags := q.flags)
  {
    ModesSet(p.flags, ForFocus, FocusOf(x));
    hide With, ModesOf;
  }

  lemma ZoomModes(x: Motion, p: Packet)
    requires ModesOf(p.flags).zoom == Off
    ensures var q := DecodeZoom(x, p);
      ModesOf(q.flags) == ModesOf(p.flags).(zoom := ZoomOf(x)) && q == p.(flags := q.flags)
  {
    ModesSet(p.flags, ForZoom, ZoomOf(x));
    hide With, ModesOf;
  }

  lemma LensModes(x: Motion, p: Packet)
    requires var y := ModesOf(p.flags); y.iris == Off && y.focus == Off && y.zoom == Off
    ensures var q := DecodeLens(x, p);
      ModesOf(q.flags) == ModesOf(p.flags).(iris := IrisOf(x), focus := FocusOf(x), zoom := ZoomOf(x))
        && q == p.(flags := q.flags)
  {
    var c := DecodeIris(x, p);
    var d := DecodeFocus(x, c);
    IrisModes(x, p);
    FocusModes(x, c);
    ZoomModes(x, d);
    hide ModesOf, DecodeIris, DecodeFocus, DecodeZoom, IrisOf, FocusOf, ZoomOf;
  }

  lemma MoveModes(x: Motion, p: Packet)
    requires 0 <= x.pan <= SPEED_MAX
    ensures var q := DecodeTilt(x, DecodePan(x, p));
      && ModesOf(q.flags) == ModesOf(p.flags).(pan := PanOf(x), tilt := TiltOf(x))
      && q == p.(flags := q.flags, pan := if x.right || x.left then x.pan else 0,
           tilt := if x.up || x.down then x.tilt else 0)
  {
    PanModes(x, p);
    TiltModes(x, DecodePan(x, p));
    hide ModesOf, DecodePan, DecodeTilt, PanOf, TiltOf;
  }

  // What the movement commands mean, whichever protocol carries them: a cleared packet
  // gets the modes of its command bits, the first of two contrary bits winning.
  lemma MotionModes(x: Motion, p: Packet)
    requires ModesOf(p.flags) == NO_MODES && 0 <= x.pan <= SPEED_MAX
    ensures var q := DecodeMotion(x, p);
      && ModesOf(q.flags) == NO_MODES.(pan := PanOf(x), tilt := TiltOf(x), iris := IrisOf(x), focus := FocusOf(x),
        zoom := ZoomOf(x))
      && q == p.(flags := q.flags, pan := if x.right || x.left then x.pan else 0,
           tilt := if x.up || x.down then x.tilt else 0)
  {
    MoveModes(x, p);
    LensModes(x, DecodeTilt(x, DecodePan(x, p)));
    hide ModesOf, DecodePan, DecodeTilt, DecodeLens, PanOf, TiltOf, IrisOf, FocusOf, ZoomOf;
  }

  lemma MotionExpire(x: Motion, p: Packet)
    ensures DecodeMotion(x, p).expire == p.expire
  {
    hide With;
  }

  // --- presets and wiper ---

  // a packet with nothing but one preset command, and one with nothing but a wiper command
  predicate OnlyPreset(q: Packet, receiver: int, m: Mode, number: int) {
    && q.receiver == receiver && q.GetPreset() == m && q.preset == number
    && ModesOf(q.flags) == NO_MODES.(preset := m) && q.pan == 0 && q.tilt == 0
  }

  predicate OnlyWiper(q: Packet, receiver: int, m: Mode) {
    && q.receiver == receiver && q.GetWiper() == m
    && ModesOf(q.flags) == NO_MODES.(wiper := m) && q.pan == 0 && q.tilt == 0 && q.preset == 0
  }

  lemma PresetModes(p: Packet, m: Mode, number: int)
    requires Storable(m, number)
    ensures var q := p.SetPreset(m, number);
      ModesOf(q.flags) == ModesOf(p.flags).(preset := m) && q == p.(flags := q.flags, preset := number)
        && q.GetPreset() == m
  {
    ModesSet(p.flags, ForPreset, m);
    ModeWith(p.flags, ForPreset, m, ForPreset);
    hide With, ModesOf, ModeOf;
  }

  // a preset that is not stored leaves none
  lemma PresetStored(p: Packet, m: Mode, number: int)
    requires m != Off && Fits(ForPreset, m) && number >= 0
    ensures var q, ok := p.SetPreset(m, number), Storable(m, number);
      && ModesOf(q.flags) == ModesOf(p.flags).(preset := if ok then m else Off)
      && q == p.(flags := q.flags, preset := if ok then number else 0)
  {
    ModesSet(p.flags, ForPreset, if Storable(m, number) then m else Off);
    hide With, ModesOf, ModeOf;
  }

  lemma BlankPreset(c: Packet, receiver: int, m: Mode, number: int)
    requires Blank(c) && Storable(m, number)
    ensures OnlyPreset(c.SetReceiver(receiver).SetPreset(m, number), receiver, m, number)
  {
    PresetModes(c.SetReceiver(receiver), m, number);
    hide ModesOf, ModeOf, With, Storable;
  }

  lemma BlankWiper(c: Packet, receiver: int, m: Mode)
    requires Blank(c) && m != Off && Fits(ForWiper, m)
    ensures OnlyWiper(c.SetReceiver(receiver).SetWiper(m), receiver, m)
  {
    ModesSet(c.flags, ForWiper, m);
    ModeWith(c.flags, ForWiper, m, ForWiper);
    hide ModesOf, ModeOf, With;
  }
}
