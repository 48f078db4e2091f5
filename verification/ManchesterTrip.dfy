/** Round trip of packets through the manchester protocol (src/manchester.c). */
module ManchesterTrip {
  import opened Bytes
  import opened Framing
  import opened Ccpacket
  import opened Codec
  import opened ManchesterCodec
  import opened ManchesterRead

  // contents merged into a packet
  function MergedContents(xs: seq<Content>, q: Packet): Packet {
    if xs == [] then q else MergedContents(xs[1..], DecodeContent(xs[0], q))
  }

  lemma {:induction false} MergedPlus(a: seq<Content>, b: seq<Content>, q: Packet)
    ensures MergedContents(a + b, q) == MergedContents(b, MergedContents(a, q))
    decreases |a|
  {
    hide DecodeContent;
    if a == [] {
      assert a + b == b;
    } else {
      assert (a + b)[1..] == a[1..] + b;
      MergedPlus(a[1..], b, DecodeContent(a[0], q));
    }
  }

  lemma MergedIf(c: bool, x: Content, q: Packet)
    ensures MergedContents(If(c, x), q) == if c then DecodeContent(x, q) else q
  {
    hide DecodeContent;
    if c { assert MergedContents([x][1..], DecodeContent(x, q)) == DecodeContent(x, q); }
  }

  // --- what each part does ---

  function PanPart(p: Packet, q: Packet): Packet { if Pans(p) then q.SetPan(p.GetPan(), Speed(Level(p.pan))) else q }
  function TiltPart(p: Packet, q: Packet): Packet {
    if Tilts(p) then q.SetTilt(p.GetTilt(), Speed(Level(p.tilt))) else q
  }
  function ZoomPart(p: Packet, q: Packet): Packet { if p.GetZoom() != Off then q.SetZoom(p.GetZoom()) else q }
  function FocusPart(p: Packet, q: Packet): Packet {
    if p.GetFocus() == FocusNear || p.GetFocus() == FocusFar then q.SetFocus(p.GetFocus()) else q
  }
  function IrisPart(p: Packet, q: Packet): Packet {
    if p.GetIris() == IrisClose || p.GetIris() == IrisOpen then q.SetIris(p.GetIris()) else q
  }
  function CameraPart(p: Packet, q: Packet): Packet { if p.GetCamera() != Off then q.SetCamera(p.GetCamera()) else q }
  function WiperPart(p: Packet, q: Packet): Packet {
    if p.GetCamera() == Off && p.GetWiper() == WiperOn then q.SetWiper(WiperOn) else q
  }
  function PresetPart(p: Packet, q: Packet): Packet { if Presets(p) then q.SetPreset(p.GetPreset(), p.preset) else q }

  lemma PanDecoded(p: Packet, q: Packet)
    requires Pans(p) && 0 <= p.pan <= SPEED_MAX
    ensures DecodeContent(PanContent(p), q) == q.SetPan(p.GetPan(), Speed(Level(p.pan)))
  {
    hide ModeOf, With, LevelFrom, Packet.SetZoom, Packet.SetFocus, Packet.SetIris, Packet.SetCamera, Packet.SetWiper,
         Packet.SetPreset, Packet.SetTilt;
  }

  lemma TiltDecoded(p: Packet, q: Packet)
    requires Tilts(p) && 0 <= p.tilt <= SPEED_MAX
    ensures DecodeContent(TiltContent(p), q) == q.SetTilt(p.GetTilt(), Speed(Level(p.tilt)))
  {
    hide ModeOf, With, LevelFrom, Packet.SetZoom, Packet.SetFocus, Packet.SetIris, Packet.SetCamera, Packet.SetWiper,
         Packet.SetPreset, Packet.SetPan;
  }

  lemma LensDecoded(p: Packet, q: Packet)
    ensures p.GetZoom() != Off ==>
      DecodeContent(Content(false, 0, if p.GetZoom() == ZoomOut then 6 else 3), q)
        == q.SetZoom(p.GetZoom())
    ensures p.GetFocus() == FocusNear || p.GetFocus() == FocusFar ==>
      DecodeContent(Content(false, 0, if p.GetFocus() == FocusNear then 5 else 2), q) == q.SetFocus(p.GetFocus())
    ensures p.GetIris() == IrisClose || p.GetIris() == IrisOpen ==>
      DecodeContent(Content(false, 0, if p.GetIris() == IrisClose then 4 else 1), q) == q.SetIris(p.GetIris())
  {
    hide ModeOf, With, Packet.SetZoom, Packet.SetFocus, Packet.SetIris;
    ModeFits(p.flags, ForZoom);
  }

  lemma AuxDecoded(p: Packet, q: Packet)
    ensures p.GetCamera() != Off ==>
      DecodeContent(Content(false, 1, if p.GetCamera() == CameraOff then 2 else 3), q)
        == q.SetCamera(p.GetCamera())
    ensures DecodeContent(Content(false, 1, 7), q) == q.SetWiper(WiperOn)
    ensures Presets(p) ==>
      DecodeContent(Content(false, if p.GetPreset() == Recall then 2 else 3, p.preset - 1), q)
        == q.SetPreset(p.GetPreset(), p.preset)
  {
    hide ModeOf, With, Packet.SetCamera, Packet.SetWiper, Packet.SetPreset;
    ModeFits(p.flags, ForCamera);
  }

  // the packet that all messages of p merge into
  function Moved(p: Packet, q: Packet): Packet { TiltPart(p, PanPart(p, q)) }
  function Lensed(p: Packet, q: Packet): Packet { IrisPart(p, FocusPart(p, ZoomPart(p, q))) }
  function Switched(p: Packet, q: Packet): Packet { PresetPart(p, WiperPart(p, CameraPart(p, q))) }
  function Rebuilt(p: Packet, q: Packet): Packet { Switched(p, Lensed(p, Moved(p, q))) }

  lemma MovesMerged(p: Packet, q: Packet)
    requires InRange(p)
    ensures MergedContents(MoveContents(p), q) == Moved(p, q)
  {
    MergedPlus(If(Pans(p), PanContent(p)), If(Tilts(p), TiltContent(p)), q);
    MergedIf(Pans(p), PanContent(p), q);
    MergedIf(Tilts(p), TiltContent(p), PanPart(p, q));
    if Pans(p) { PanDecoded(p, q); }
    if Tilts(p) { TiltDecoded(p, PanPart(p, q)); }
    hide MergedContents, If, PanContent, TiltContent, DecodeContent, Pans, Tilts, Packet.SetPan, Packet.SetTilt, ModeOf;
  }

  lemma LensMerged(p: Packet, q: Packet)
    ensures MergedContents(LensContents(p), q) == Lensed(p, q)
  {
    var (a, b, c) := (ZoomContents(p), FocusContents(p), IrisContents(p));
    var (x, y) := (ZoomPart(p, q), FocusPart(p, ZoomPart(p, q)));
    MergedPlus(a + b, c, q);
    MergedPlus(a, b, q);
    ZoomMerged(p, q);
    FocusMerged(p, x);
    IrisMerged(p, y);
    hide MergedContents, ZoomContents, FocusContents, IrisContents, ZoomPart, FocusPart, IrisPart;
  }

  lemma ZoomMerged(p: Packet, q: Packet)
    ensures MergedContents(ZoomContents(p), q) == ZoomPart(p, q)
  {
    LensDecoded(p, q);
    MergedIf(p.GetZoom() != Off, Content(false, 0, if p.GetZoom() == ZoomOut then 6 else 3), q);
    hide MergedContents, DecodeContent, If, Packet.SetZoom, ModeOf;
  }

  lemma FocusMerged(p: Packet, q: Packet)
    ensures MergedContents(FocusContents(p), q) == FocusPart(p, q)
  {
    LensDecoded(p, q);
    MergedIf(p.GetFocus() == FocusNear || p.GetFocus() == FocusFar,
      Content(false, 0, if p.GetFocus() == FocusNear then 5 else 2), q);
    hide MergedContents, DecodeContent, If, Packet.SetFocus, ModeOf;
  }

  lemma IrisMerged(p: Packet, q: Packet)
    ensures MergedContents(IrisContents(p), q) == IrisPart(p, q)
  {
    LensDecoded(p, q);
    MergedIf(p.GetIris() == IrisClose || p.GetIris() == IrisOpen,
      Content(false, 0, if p.GetIris() == IrisClose then 4 else 1), q);
    hide MergedContents, DecodeContent, If, Packet.SetIris, ModeOf;
  }

  lemma SwitchesMerged(p: Packet, q: Packet)
    ensures MergedContents(AuxContents(p) + PresetContents(p), q) == Switched(p, q)
  {
    var camera := If(p.GetCamera() != Off, Content(false, 1, if p.GetCamera() == CameraOff then 2 else 3));
    var wiper := If(p.GetCamera() == Off && p.GetWiper() == WiperOn, Content(false, 1, 7));
    MergedPlus(camera + wiper, PresetContents(p), q);
    MergedPlus(camera, wiper, q);
    MergedIf(p.GetCamera() != Off, Content(false, 1, if p.GetCamera() == CameraOff then 2 else 3), q);
    AuxDecoded(p, q);
    var r := CameraPart(p, q);
    MergedIf(p.GetCamera() == Off && p.GetWiper() == WiperOn, Content(false, 1, 7), r);
    AuxDecoded(p, r);
    PresetMerged(p, WiperPart(p, r));
    hide MergedContents, DecodeContent, If, PresetContents, PresetPart, Packet.SetCamera, Packet.SetWiper, ModeOf;
  }

  lemma PresetMerged(p: Packet, q: Packet)
    ensures MergedContents(PresetContents(p), q) == PresetPart(p, q)
  {
    AuxDecoded(p, q);
    MergedIf(Presets(p), Content(false, if p.GetPreset() == Recall then 2 else 3,
      if Presets(p) then p.preset - 1 else 0), q);
    hide MergedContents, DecodeContent, If, Presets, Packet.SetPreset, ModeOf;
  }

  lemma ContentsMerged(p: Packet, q: Packet)
    requires InRange(p)
    ensures MergedContents(Contents(p), q) == Rebuilt(p, q)
  {
    MergedPlus(MoveContents(p) + LensContents(p), AuxContents(p) + PresetContents(p), q);
    MergedPlus(MoveContents(p), LensContents(p), q);
    MovesMerged(p, q);
    LensMerged(p, Moved(p, q));
    SwitchesMerged(p, Lensed(p, Moved(p, q)));
    hide MergedContents, MoveContents, LensContents, AuxContents, PresetContents, Moved, Lensed, Switched, InRange;
  }

  // --- what arrives ---

  predicate LensIdle(q: Packet) { var y := ModesOf(q.flags); y.zoom == Off && y.focus == Off && y.iris == Off }
  predicate AuxIdle(q: Packet) {
    var y := ModesOf(q.flags);
    y.camera == Off && y.wiper == Off && y.preset == Off && q.preset == 0
  }
  predicate MoveIdle(q: Packet) {
    var y := ModesOf(q.flags);
    y.pan == Off && y.tilt == Off && q.pan == 0 && q.tilt == 0
  }

  lemma MovedModes(p: Packet, q: Packet)
    requires MoveIdle(q)
    ensures var r := Moved(p, q);
      && ModesOf(r.flags) == ModesOf(q.flags).(pan := if Pans(p) then p.GetPan() else Off,
        tilt := if Tilts(p) then p.GetTilt() else Off)
      && r == q.(flags := r.flags, pan := if Pans(p) then ClampSpeed(Speed(Level(p.pan))) else 0,
        tilt := if Tilts(p) then Speed(Level(p.tilt)) else 0)
  {
    var a := PanPart(p, q);
    ModesSet(q.flags, ForPan, p.GetPan());
    ModesSet(a.flags, ForTilt, p.GetTilt());
    hide ModesOf, ModeOf, With, Level, ClampSpeed;
  }

  // the focus and iris modes that there are words for
  function ManualFocus(p: Packet): Mode { if p.GetFocus() == FocusAuto then Off else p.GetFocus() }
  function ManualIris(p: Packet): Mode { if p.GetIris() == IrisAuto then Off else p.GetIris() }

  lemma LensedModes(p: Packet, q: Packet)
    requires LensIdle(q)
    ensures var r := Lensed(p, q);
      && ModesOf(r.flags) == ModesOf(q.flags).(zoom := p.GetZoom(), focus := ManualFocus(p), iris := ManualIris(p))
      && r == q.(flags := r.flags)
  {
    ZoomModes(p, q);
    FocusModes(p, ZoomPart(p, q));
    IrisModes(p, FocusPart(p, ZoomPart(p, q)));
    hide ModesOf, ModeOf, ManualFocus, ManualIris, ZoomPart, FocusPart, IrisPart;
  }

  lemma ZoomModes(p: Packet, q: Packet)
    requires ModesOf(q.flags).zoom == Off
    ensures var r := ZoomPart(p, q);
      ModesOf(r.flags) == ModesOf(q.flags).(zoom := p.GetZoom()) && r == q.(flags := r.flags)
  {
    ModeFits(p.flags, ForZoom);
    ModesSet(q.flags, ForZoom, p.GetZoom());
    hide ModesOf, ModeOf, With;
  }

  lemma FocusModes(p: Packet, q: Packet)
    requires ModesOf(q.flags).focus == Off
    ensures var r := FocusPart(p, q);
      ModesOf(r.flags) == ModesOf(q.flags).(focus := ManualFocus(p)) && r == q.(flags := r.flags)
  {
    ModeFits(p.flags, ForFocus);
    ModesSet(q.flags, ForFocus, p.GetFocus());
    hide ModesOf, ModeOf, With;
  }

  lemma IrisModes(p: Packet, q: Packet)
    requires ModesOf(q.flags).iris == Off
    ensures var r := IrisPart(p, q);
      ModesOf(r.flags) == ModesOf(q.flags).(iris := ManualIris(p)) && r == q.(flags := r.flags)
  {
    ModeFits(p.flags, ForIris);
    ModesSet(q.flags, ForIris, p.GetIris());
    hide ModesOf, ModeOf, With;
  }

  lemma SwitchedModes(p: Packet, q: Packet)
    requires AuxIdle(q)
    ensures var r := Switched(p, q);
      && ModesOf(r.flags) == ModesOf(q.flags).(camera := p.GetCamera(),
           wiper := if p.GetCamera() == Off && p.GetWiper() == WiperOn then WiperOn else Off,
           preset := if Presets(p) then p.GetPreset() else Off)
      && r == q.(flags := r.flags, preset := if Presets(p) then p.preset else 0)
  {
    CameraModes(p, q);
    var a := CameraPart(p, q);
    WiperModes(p, a);
    PresetPartModes(p, WiperPart(p, a));
    hide ModesOf, ModeOf, CameraPart, WiperPart, PresetPart, Presets, Packet.GetPreset;
  }

  lemma CameraModes(p: Packet, q: Packet)
    requires ModesOf(q.flags).camera == Off
    ensures var r := CameraPart(p, q);
      ModesOf(r.flags) == ModesOf(q.flags).(camera := p.GetCamera()) && r == q.(flags := r.flags)
  {
    ModeFits(p.flags, ForCamera);
    ModesSet(q.flags, ForCamera, p.GetCamera());
    hide ModesOf, ModeOf, With;
  }

  lemma WiperModes(p: Packet, q: Packet)
    requires ModesOf(q.flags).wiper == Off
    ensures var r := WiperPart(p, q);
      && ModesOf(r.flags) == ModesOf(q.flags).(
           wiper := if p.GetCamera() == Off && p.GetWiper() == WiperOn then WiperOn else Off)
      && r == q.(flags := r.flags)
  {
    ModesSet(q.flags, ForWiper, WiperOn);
    hide ModesOf, ModeOf, With;
  }

  lemma PresetPartModes(p: Packet, q: Packet)
    requires ModesOf(q.flags).preset == Off && q.preset == 0
    ensures var r := PresetPart(p, q);
      && ModesOf(r.flags) == ModesOf(q.flags).(preset := if Presets(p) then p.GetPreset() else Off)
      && r == q.(flags := r.flags, preset := if Presets(p) then p.preset else 0)
  {
    if Presets(p) { PresetModes(q, p.GetPreset(), p.preset); }
    hide ModesOf, ModeOf, Packet.SetPreset, Packet.GetPreset;
  }

  lemma RebuiltModes(p: Packet, c: Packet)
    requires Blank(c)
    ensures Same(p, Rebuilt(p, c.SetReceiver(p.receiver)))
  {
    hide ModesOf, ModeOf, Moved, Lensed, Switched, Pans, Tilts, Presets, ManualFocus, ManualIris, ClampSpeed, Level,
         Packet.GetPreset;
    var q := c.SetReceiver(p.receiver);
    MovedModes(p, q);
    LensedModes(p, Moved(p, q));
    SwitchedModes(p, Lensed(p, Moved(p, q)));
  }

  // a velocity at the next level of its own sign
  function RoundUp(v: int): int { if v == 0 then 0 else if v < 0 then -(Speed(Level(-v)) as int) else Speed(Level(v)) }

  // What the protocol can express: no automatic functions, no alarm, lens or menu
  // commands, no wiper with a camera command, presets 1 to 8.
  predicate Expressible(p: Packet) {
    && 1 <= p.receiver <= 1024 && InRange(p) && Manual(p) && p.GetPan() != PanAuto
    && p.GetAck() == Off && p.GetLens() == Off && p.GetMenu() == Off
    && (p.GetWiper() == Off || (p.GetWiper() == WiperOn && p.GetCamera() == Off))
    && (p.GetPreset() == Off || Presets(p))
  }

  predicate Relayed(p: Packet, q: Packet) {
    && q.receiver == p.receiver
    && q.PanVelocity() == RoundUp(p.PanVelocity()) && q.TiltVelocity() == RoundUp(p.TiltVelocity())
    && q.GetZoom() == p.GetZoom() && q.GetFocus() == p.GetFocus() && q.GetIris() == p.GetIris()
    && q.GetCamera() == p.GetCamera()
    && q.GetWiper() == p.GetWiper() && q.GetPreset() == p.GetPreset() && (p.GetPreset() != Off ==> q.preset == p.preset)
    && q.GetAck() == p.GetAck() && q.GetLens() == p.GetLens() && q.GetMenu() == p.GetMenu()
    && (q.GetPan() == PanAuto <==> p.GetPan() == PanAuto)
  }

  lemma MoveRelayed(m: Mode, back: Mode, forth: Mode, speed: int)
    requires 0 <= speed <= SPEED_MAX && back != forth && Off != back && Off != forth
    ensures var on := speed != 0 && (m == back || m == forth);
      Velocity(if on then m else Off, back, forth, if on then Speed(Level(speed)) else 0)
        == RoundUp(Velocity(m, back, forth, speed))
    ensures ClampSpeed(Speed(Level(speed))) == Speed(Level(speed))
  {
    LevelIsNext(0, speed);
    hide Level;
  }

  // what RebuiltModes says of the packet q rebuilt from p
  predicate Same(p: Packet, q: Packet) {
    && ModesOf(q.flags) == NO_MODES.(
         pan := if Pans(p) then p.GetPan() else Off, tilt := if Tilts(p) then p.GetTilt() else Off,
         zoom := p.GetZoom(), focus := ManualFocus(p), iris := ManualIris(p), camera := p.GetCamera(),
         wiper := if p.GetCamera() == Off && p.GetWiper() == WiperOn then WiperOn else Off,
         preset := if Presets(p) then p.GetPreset() else Off)
    && q.receiver == p.receiver && q.preset == (if Presets(p) then p.preset else 0)
    && q.pan == (if Pans(p) then ClampSpeed(Speed(Level(p.pan))) else 0)
    && q.tilt == (if Tilts(p) then Speed(Level(p.tilt)) else 0)
  }

  lemma SameMoves(p: Packet, q: Packet)
    requires Expressible(p) && Same(p, q)
    ensures q.PanVelocity() == RoundUp(p.PanVelocity()) && q.TiltVelocity() == RoundUp(p.TiltVelocity())
      && q.GetPan() != PanAuto
  {
    MoveRelayed(p.GetPan(), PanLeft, PanRight, p.pan);
    MoveRelayed(p.GetTilt(), TiltDown, TiltUp, p.tilt);
    hide ModeOf, Level, Speed, RoundUp, Velocity, Presets, ClampSpeed, Packet.GetPreset, Packet.GetZoom,
         Packet.GetFocus, Packet.GetIris, Packet.GetCamera, Packet.GetWiper, Packet.GetAck, Packet.GetLens,
         Packet.GetMenu;
  }

  lemma ExpressibleParts(p: Packet)
    requires Expressible(p)
    ensures 1 <= p.receiver <= 1024 && InRange(p)
  {
  }

  // what the protocol has no words for does not arrive
  lemma WordsLost(p: Packet, q: Packet)
    requires 1 <= p.receiver <= 1024 && InRange(p) && Same(p, q) && !Expressible(p)
    ensures !Relayed(p, q)
  {
    hide ModeOf, Level, Speed, RoundUp, Velocity, ClampSpeed, Tilts, Packet.PanVelocity, Packet.TiltVelocity;
    ModeFits(p.flags, ForWiper);
    if !Presets(p) { PresetOff(q); }
  }

  lemma PresetOff(q: Packet)
    requires ModesOf(q.flags).preset == Off
    ensures q.GetPreset() == Off
  {
    hide ModeOf;
  }

  lemma SameModes(p: Packet, q: Packet)
    requires Expressible(p) && Same(p, q)
    ensures q.GetZoom() == p.GetZoom() && q.GetFocus() == p.GetFocus() && q.GetIris() == p.GetIris()
      && q.GetCamera() == p.GetCamera()
    ensures q.GetWiper() == p.GetWiper() && q.GetAck() == Off && q.GetLens() == Off && q.GetMenu() == Off
  {
    hide ModeOf, Level, Speed, RoundUp, Velocity, Presets, ClampSpeed, Packet.GetPreset, Pans, Tilts,
         Packet.PanVelocity, Packet.TiltVelocity;
  }

  lemma RebuiltRelayed(p: Packet, c: Packet)
    requires 1 <= p.receiver <= 1024 && InRange(p) && Blank(c)
    ensures Relayed(p, Rebuilt(p, c.SetReceiver(p.receiver))) <==> Expressible(p)
  {
    hide *;
    var q := Rebuilt(p, c.SetReceiver(p.receiver));
    RebuiltModes(p, c);
    if Expressible(p) { SameRelayed(p, q); } else { WordsLost(p, q); }
  }

  lemma SameRelayed(p: Packet, q: Packet)
    requires Expressible(p) && Same(p, q)
    ensures Relayed(p, q)
  {
    SameMoves(p, q);
    SameModes(p, q);
    PresetRebuilt(p, q);
    hide Rebuilt, ModeOf, Level, Speed, RoundUp, Velocity, Presets, ClampSpeed, Pans, Tilts, Packet.PanVelocity,
         Packet.TiltVelocity, Packet.GetPreset, Packet.GetPan, Packet.GetTilt, Packet.GetZoom, Packet.GetFocus,
         Packet.GetIris, Packet.GetCamera, Packet.GetWiper, Packet.GetAck, Packet.GetLens, Packet.GetMenu;
  }

  lemma PresetRebuilt(p: Packet, q: Packet)
    requires p.GetPreset() == Off || Presets(p)
    requires ModesOf(q.flags).preset == (if Presets(p) then p.GetPreset() else Off)
      && q.preset == (if Presets(p) then p.preset else 0)
    ensures q.GetPreset() == p.GetPreset() && (p.GetPreset() != Off ==> q.preset == p.preset)
  {
    ModeFits(q.flags, ForPreset);
    hide ModeOf;
  }

  // --- messages ---

  lemma {:induction false} EncodedMerged(receiver: int, xs: seq<Content>, q: Packet)
    requires 1 <= receiver <= 1024 && (forall x <- xs :: Fit(x)) && q.receiver == receiver
    ensures Merged(q, Encoded(receiver, xs)) == MergedContents(xs, q) && MergedContents(xs, q).receiver == receiver
    decreases |xs|
  {
    if xs != [] {
      var n := |xs| - 1;
      var x := xs[n];
      EncodedMerged(receiver, xs[..n], q);
      EncodedLast(receiver, xs);
      var r := MergedContents(xs[..n], q);
      MergedPlus(xs[..n], [x], q);
      assert xs[..n] + [x] == xs;
      MergedIf(true, x, r);
      FieldsRoundTrip(receiver, x);
      AbsorbReceiver(Encode(receiver, x), r);
      hide DecodeContent, Encode, ReceiverIn, ContentIn;
      assert r.SetReceiver(receiver) == r;
    }
  }

  lemma {:induction false} EncodedLast(receiver: int, xs: seq<Content>)
    requires 1 <= receiver <= 1024 && (forall x <- xs :: Fit(x)) && xs != []
    ensures var n, ms := |xs| - 1, Encoded(receiver, xs);
      ms[n] == Encode(receiver, xs[n]) && ms[..n] == Encoded(receiver, xs[..n])
  {
    hide Encode, Fit;
    if |xs| > 1 {
      EncodedLast(receiver, xs[1..]);
      assert xs[1..][..|xs| - 2] == xs[..|xs| - 1][1..];
    }
  }

  lemma {:induction false} EncodedReceivers(receiver: int, xs: seq<Content>)
    requires 1 <= receiver <= 1024 && forall x <- xs :: Fit(x)
    ensures forall m <- Encoded(receiver, xs) :: ReceiverIn(m) == receiver && Message(Manchester, m) && FlagFirst(m)
  {
    if xs != [] {
      EncodedReceivers(receiver, xs[1..]);
      FieldsRoundTrip(receiver, xs[0]);
      EncodedFlags(receiver, xs[0]);
      hide ReceiverIn, Message, FlagFirst, Encode;
    }
  }

  // only the first byte of a message has the flag bit
  lemma EncodedFlags(receiver: int, x: Content)
    requires 1 <= receiver <= 1024 && Fit(x)
    ensures Message(Manchester, Encode(receiver, x)) && FlagFirst(Encode(receiver, x))
  {
    var r: nat := receiver - 1;
    TopBit(High(r));
    TopBit(Middle(r, x));
    TopBit(Low(r, x));
    hide Bit;
  }

  lemma TopBit(x: byte)
    ensures Bit(x, 7) == (x >= 128)
  {
    var y := x / 2 / 2 / 2 / 2 / 2 / 2;
    assert y == x / 64;
    assert Bit(x, 7) == Bit(x / 2 / 2, 5) == Bit(x / 2 / 2 / 2 / 2, 3) == Bit(y, 1) == Bit(y / 2, 0);
  }

  function Written(p: Packet): (ms: seq<Msg>)
    requires 1 <= p.receiver <= 1024
  {
    ContentsFit(p);
    Encoded(p.receiver, Contents(p))
  }

  // Round trip, for all packets to a receiver from 1 to 1024: their messages merge back into
  // one packet with the same receiver and commands, and velocities at the next level up, if
  // and only if the protocol has words for all of them.
  lemma PacketRoundTrip(p: Packet, c: Packet)
    requires 1 <= p.receiver <= 1024 && InRange(p) && Blank(c)
    ensures Relayed(p, PacketOf(Group(p.receiver, Written(p)), c)) <==> Expressible(p)
    ensures DoWrite(p) == Written(p)
    ensures forall m <- Written(p) :: ReceiverIn(m) == p.receiver && Message(Manchester, m) && FlagFirst(m)
  {
    hide Contents, Encoded, Merged, MergedContents, Rebuilt, Relayed, Expressible, ReceiverIn, Message, FlagFirst,
         Presets, ModeOf, Blank, Packet.GetPreset;
    ContentsFit(p);
    EncodedReceivers(p.receiver, Contents(p));
    EncodedMerged(p.receiver, Contents(p), c.SetReceiver(p.receiver));
    ContentsMerged(p, c.SetReceiver(p.receiver));
    RebuiltRelayed(p, c);
  }
}
