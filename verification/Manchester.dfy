/** Messages of the manchester protocol (src/manchester.c) and how they merge. */
module ManchesterCodec {
  import opened Bytes
  import opened Framing
  import opened Ccpacket
  import opened Codec

  // --- three byte messages ---

  // pan/tilt command or extended function, its code and three bits more
  datatype Content = Content(pt: bool, cmnd: nat, extra: nat)

  predicate Fit(x: Content) { x.cmnd < 4 && x.extra < 8 }

  // encode_receiver and the bits of the content; the address is scattered over all bytes
  function Encode(receiver: int, x: Content): (m: seq<byte>)
    requires 1 <= receiver <= 1024 && Fit(x)
    ensures |m| == 3
  {
    var r: nat := receiver - 1;
    [High(r), Middle(r, x), Low(r, x)]
  }

  function High(r: nat): byte
    requires r < 1024
  {
    128 + r / 64
  }

  function Middle(r: nat, x: Content): byte
    requires r < 1024 && Fit(x)
  {
    r / 32 % 2 + 2 * x.extra + 16 * x.cmnd
  }

  function Low(r: nat, x: Content): byte
    requires r < 1024
  {
    r % 32 * 4 + if x.pt then 2 else 0
  }

  // decode_receiver
  function ReceiverIn(m: seq<byte>): nat
    requires |m| == 3
  {
    Gathered(m[0], m[1], m[2])
  }

  function Gathered(a: nat, b: nat, c: nat): nat { 1 + (a % 16 * 64 + b % 2 * 32 + c / 4 % 32) }

  // is_pan_tilt_command, decode_command, pt_extra
  function ContentIn(m: seq<byte>): (x: Content)
    requires |m| == 3
    ensures Fit(x)
  {
    Content(m[2] / 2 % 2 == 1, m[1] / 16 % 4, m[1] / 2 % 8)
  }

  // Every address from 1 to 1024 and every content survive the scattering.
  lemma FieldsRoundTrip(receiver: int, x: Content)
    requires 1 <= receiver <= 1024 && Fit(x)
    ensures var m := Encode(receiver, x); ReceiverIn(m) == receiver && ContentIn(m) == x
  {
    var r: nat := receiver - 1;
    AddressParts(r, Middle(r, x), Low(r, x));
    ContentParts(r, x);
    hide High, Middle, Low, Gathered;
  }

  lemma AddressParts(r: nat, b: nat, c: nat)
    requires r < 1024 && b % 2 == r / 32 % 2 && c / 4 == r % 32
    ensures Gathered(High(r), b, c) == r + 1
  {
    assert High(r) % 16 == r / 64;
    assert r == r / 64 * 64 + r / 32 % 2 * 32 + r % 32;
  }

  lemma ContentParts(r: nat, x: Content)
    requires r < 1024 && Fit(x)
    ensures Middle(r, x) % 2 == r / 32 % 2 && Middle(r, x) / 16 % 4 == x.cmnd && Middle(r, x) / 2 % 8 == x.extra
    ensures Low(r, x) / 4 == r % 32 && (Low(r, x) / 2 % 2 == 1) == x.pt
  {
    var a := r / 32 % 2;
    assert Middle(r, x) / 2 == x.extra + 8 * x.cmnd;
    assert Middle(r, x) / 16 == x.cmnd;
    assert Low(r, x) / 2 == r % 32 * 2 + if x.pt then 1 else 0;
  }

  // --- speeds ---

  const SPEED_FULL: nat := 7

  function Speed(level: nat): nat { if level < 7 then (level + 1) * 256 else SPEED_MAX }

  // manchester_encode_speed, as a function and as the search it is
  function Level(speed: int): nat { LevelFrom(0, speed) }

  function LevelFrom(s: nat, speed: int): (l: nat)
    ensures s <= 7 ==> s <= l <= 7
    decreases 7 - s
  {
    if s >= 7 then 7 else if Speed(s) >= speed then s else LevelFrom(s + 1, speed)
  }

  method EncodeSpeed(speed: int) returns (level: nat)
    ensures level == Level(speed)
  {
    for s := 0 to SPEED_FULL
      invariant Level(speed) == LevelFrom(s, speed)
    {
      if Speed(s) >= speed { return s; }
    }
    level := SPEED_FULL;
  }

  // The speed is rounded up to the next level of the table: the level reached is not
  // below it, and every lower level is.
  lemma {:induction false} LevelIsNext(s: nat, speed: int)
    requires s <= 7 && speed <= SPEED_MAX
    ensures Speed(LevelFrom(s, speed)) >= speed && forall l | s <= l < LevelFrom(s, speed) :: Speed(l) < speed
    decreases 7 - s
  {
    if s < 7 && Speed(s) < speed { LevelIsNext(s + 1, speed); }
  }

  lemma RoundedUp(speed: int)
    requires 0 < speed <= SPEED_MAX
    ensures speed <= Speed(Level(speed)) < speed + 256
    ensures Speed(Level(Speed(Level(speed)))) == Speed(Level(speed))
  {
    LevelIsNext(0, speed);
    var l := Level(speed);
    if l > 0 { assert Speed(l - 1) < speed; }
    LevelIsNext(0, Speed(l));
    var k := Level(Speed(l));
    if k > 0 { assert Speed(k - 1) < Speed(l); }
  }

  // --- decoding ---

  // decode_pan_tilt
  function DecodeMove(cmnd: nat, speed: int, p: Packet): Packet {
    if cmnd == 2 then p.SetPan(PanLeft, speed) else if cmnd == 3 then p.SetPan(PanRight, speed)
    else if cmnd == 0 then p.SetTilt(TiltDown, speed) else p.SetTilt(TiltUp, speed)
  }

  // decode_lens; two of its codes are full speed movements
  function DecodeLensCode(extra: nat, p: Packet): Packet {
    match extra
    case 0 => p.SetTilt(TiltDown, SPEED_MAX)
    case 1 => p.SetIris(IrisOpen)
    case 2 => p.SetFocus(FocusFar)
    case 3 => p.SetZoom(ZoomIn)
    case 4 => p.SetIris(IrisClose)
    case 5 => p.SetFocus(FocusNear)
    case 6 => p.SetZoom(ZoomOut)
    case _ => p.SetPan(PanLeft, SPEED_MAX)
  }

  // decode_aux
  function DecodeAux(extra: nat, p: Packet): Packet {
    match extra
    case 0 => p.SetTilt(TiltUp, SPEED_MAX)
    case 1 => p.SetPan(PanRight, SPEED_MAX)
    case 2 => p.SetCamera(CameraOff)
    case 3 => p.SetCamera(CameraOn)
    case 7 => p.SetWiper(WiperOn)
    case _ => p
  }

  // decode_packet
  function DecodeContent(x: Content, p: Packet): Packet {
    if x.pt then DecodeMove(x.cmnd, Speed(x.extra), p)
    else if x.cmnd == 0 then DecodeLensCode(x.extra, p)
    else if x.cmnd == 1 then DecodeAux(x.extra, p)
    else if x.cmnd == 2 then p.SetPreset(Recall, x.extra + 1)
    else p.SetPreset(Store, x.extra + 1)
  }

  // a message merged into the packet that the reader holds
  function Absorb(m: seq<byte>, p: Packet): Packet
    requires |m| == 3
  {
    DecodeContent(ContentIn(m), p.SetReceiver(ReceiverIn(m)))
  }

  lemma AbsorbReceiver(m: seq<byte>, p: Packet)
    requires |m| == 3
    ensures Absorb(m, p).receiver == ReceiverIn(m) && Absorb(m, p).expire == p.expire
  {
    hide With;
  }

  // --- encoding ---

  // what encode_pan and encode_tilt send: full speed has codes of its own
  function PanContent(p: Packet): Content {
    var l := Level(p.pan);
    if p.GetPan() == PanLeft then (if l == SPEED_FULL then Content(false, 0, 7) else Content(true, 2, l))
    else (if l == SPEED_FULL then Content(false, 1, 1) else Content(true, 3, l))
  }

  function TiltContent(p: Packet): Content {
    var l := Level(p.tilt);
    if p.GetTilt() == TiltDown then (if l == SPEED_FULL then Content(false, 0, 0) else Content(true, 0, l))
    else (if l == SPEED_FULL then Content(false, 1, 0) else Content(true, 1, l))
  }

  predicate Pans(p: Packet) { p.HasPan() && (p.GetPan() == PanLeft || p.GetPan() == PanRight) }
  predicate Tilts(p: Packet) { p.tilt != 0 && (p.GetTilt() == TiltDown || p.GetTilt() == TiltUp) }
  predicate Presets(p: Packet) { 1 <= p.preset <= 8 && (p.GetPreset() == Recall || p.GetPreset() == Store) }

  function If(c: bool, x: Content): seq<Content> { if c then [x] else [] }

  function MoveContents(p: Packet): seq<Content> { If(Pans(p), PanContent(p)) + If(Tilts(p), TiltContent(p)) }

  // encode_zoom, encode_focus, encode_iris
  function ZoomContents(p: Packet): seq<Content> {
    If(p.GetZoom() != Off, Content(false, 0, if p.GetZoom() == ZoomOut then 6 else 3))
  }
  function FocusContents(p: Packet): seq<Content> {
    If(p.GetFocus() == FocusNear || p.GetFocus() == FocusFar,
      Content(false, 0, if p.GetFocus() == FocusNear then 5 else 2))
  }
  function IrisContents(p: Packet): seq<Content> {
    If(p.GetIris() == IrisClose || p.GetIris() == IrisOpen,
      Content(false, 0, if p.GetIris() == IrisClose then 4 else 1))
  }
  function LensContents(p: Packet): seq<Content> { ZoomContents(p) + FocusContents(p) + IrisContents(p) }

  // encode_aux: the wiper only gets its turn when there is no camera command
  function AuxContents(p: Packet): seq<Content> {
    If(p.GetCamera() != Off, Content(false, 1, if p.GetCamera() == CameraOff then 2 else 3))
    + If(p.GetCamera() == Off && p.GetWiper() == WiperOn, Content(false, 1, 7))
  }

  // encode_preset
  function PresetContents(p: Packet): seq<Content> {
    If(Presets(p), Content(false, if p.GetPreset() == Recall then 2 else 3, if Presets(p) then p.preset - 1 else 0))
  }

  // manchester_do_write: the contents of the messages, in order
  function Contents(p: Packet): seq<Content> {
    MoveContents(p) + LensContents(p) + (AuxContents(p) + PresetContents(p))
  }

  lemma ContentsFit(p: Packet)
    ensures forall x <- Contents(p) :: Fit(x)
  {
    hide ModeOf, PanContent, TiltContent, Presets, Pans, Tilts;
    MovesFit(p);
    PresetFits(p);
  }

  lemma MovesFit(p: Packet)
    ensures Fit(PanContent(p)) && Fit(TiltContent(p))
  {
    hide ModeOf;
    var l, k := Level(p.pan), Level(p.tilt);
  }

  lemma PresetFits(p: Packet)
    ensures Presets(p) ==> 1 <= p.preset <= 8
  {
    hide ModeOf;
  }

  function DoWrite(p: Packet): seq<seq<byte>> {
    if p.receiver < 1 || p.receiver > 1024 then [] else ContentsFit(p); Encoded(p.receiver, Contents(p))
  }

  function Encoded(receiver: int, xs: seq<Content>): (ms: seq<seq<byte>>)
    requires 1 <= receiver <= 1024 && forall x <- xs :: Fit(x)
    ensures |ms| == |xs| && forall m <- ms :: |m| == 3
  {
    if xs == [] then [] else [Encode(receiver, xs[0])] + Encoded(receiver, xs[1..])
  }

  // --- the same, in place ---

  method DecodeMoveInto(cmnd: nat, speed: int, pkt: PacketBuffer)
    modifies pkt
    ensures pkt.View() == DecodeMove(cmnd, speed, old(pkt.View()))
  {
    hide With;
    if cmnd == 2 {
      pkt.SetPan(PanLeft, speed);
    } else if cmnd == 3 {
      pkt.SetPan(PanRight, speed);
    } else if cmnd == 0 {
      pkt.SetTilt(TiltDown, speed);
    } else {
      pkt.SetTilt(TiltUp, speed);
    }
  }

  method DecodeLensInto(extra: nat, pkt: PacketBuffer)
    modifies pkt
    ensures pkt.View() == DecodeLensCode(extra, old(pkt.View()))
  {
    hide With;
    match extra
    case 0 => pkt.SetTilt(TiltDown, SPEED_MAX);
    case 1 => pkt.SetIris(IrisOpen);
    case 2 => pkt.SetFocus(FocusFar);
    case 3 => pkt.SetZoom(ZoomIn);
    case 4 => pkt.SetIris(IrisClose);
    case 5 => pkt.SetFocus(FocusNear);
    case 6 => pkt.SetZoom(ZoomOut);
    case _ => pkt.SetPan(PanLeft, SPEED_MAX);
  }

  method DecodeAuxInto(extra: nat, pkt: PacketBuffer)
    modifies pkt
    ensures pkt.View() == DecodeAux(extra, old(pkt.View()))
  {
    hide With;
    match extra
    case 0 => pkt.SetTilt(TiltUp, SPEED_MAX);
    case 1 => pkt.SetPan(PanRight, SPEED_MAX);
    case 2 => pkt.SetCamera(CameraOff);
    case 3 => pkt.SetCamera(CameraOn);
    case 7 => pkt.SetWiper(WiperOn);
    case _ =>
  }

  method DecodeContentInto(x: Content, pkt: PacketBuffer)
    modifies pkt
    ensures pkt.View() == DecodeContent(x, old(pkt.View()))
  {
    hide With, DecodeMove, DecodeLensCode, DecodeAux;
    if x.pt {
      DecodeMoveInto(x.cmnd, Speed(x.extra), pkt);
    } else if x.cmnd == 0 {
      DecodeLensInto(x.extra, pkt);
    } else if x.cmnd == 1 {
      DecodeAuxInto(x.extra, pkt);
    } else if x.cmnd == 2 {
      pkt.SetPreset(Recall, x.extra + 1);
    } else {
      pkt.SetPreset(Store, x.extra + 1);
    }
  }
}
