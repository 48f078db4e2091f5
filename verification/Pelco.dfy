/** What the two pelco protocols share (src/pelco_d.c, src/pelco_p.c): speed levels,
    extended functions, and what a command becomes on its way. */
module Pelco {
  import opened Timeval
  import opened Bytes
  import opened Ccpacket
  import opened Codec

  // --- speeds ---

  const TURBO_SPEED: nat := 64

  // pelco_d_encode_speed, pelco_p_encode_speed: to the nearest level, at most 63
  function EncodeSpeed(speed: nat): nat {
    var s := speed / 32 + (speed % 32) / 16;
    if s < TURBO_SPEED then s else TURBO_SPEED - 1
  }

  // pelco_d_encode_pan_speed, pelco_p_encode_pan_speed: full speed has a level of its own
  function EncodePanSpeed(speed: nat): nat {
    if speed > SPEED_MAX - 8 then TURBO_SPEED else EncodeSpeed(speed)
  }

  // decode_speed
  function DecodeSpeed(val: nat): nat {
    if val * 32 > SPEED_MAX then SPEED_MAX else val * 32
  }

  // decode_speed7, of pelco_p only: nothing below 7, then evenly up to full speed at 64
  function DeadzoneSpeed(val: nat): nat {
    var speed := if val >= 7 then (val - 6) * SPEED_MAX / 58 else 0;
    if speed > SPEED_MAX then SPEED_MAX else speed
  }

  // the speed that a reader makes of a level; one of pelco_p may have a deadzone
  function SpeedOf(dead: bool, val: nat): nat { if dead then DeadzoneSpeed(val) else DecodeSpeed(val) }

  function PanLevel(speed: nat): nat { DecodeSpeed(EncodePanSpeed(speed)) }
  function TiltLevel(speed: nat): nat { DecodeSpeed(EncodeSpeed(speed)) }

  // Sending a speed quantises it: the error is at most 23 for pan and 31 for tilt, and
  // both bounds are reached.
  lemma SpeedError(speed: nat)
    requires speed <= SPEED_MAX
    ensures -23 <= PanLevel(speed) - speed <= 16
    ensures -31 <= TiltLevel(speed) - speed <= 16
    ensures PanLevel(speed) == 0 <==> speed < 16
    ensures TiltLevel(speed) == 0 <==> speed < 16
    ensures EncodePanSpeed(speed) <= 64 && EncodeSpeed(speed) <= 63
  {
  }

  lemma SpeedErrorReached()
    ensures PanLevel(2039) == 2039 - 23 && TiltLevel(2047) == 2047 - 31 && PanLevel(2047) == 2047
  {
  }

  // a faster command is never sent as a slower one
  lemma SpeedMonotone(a: nat, b: nat)
    requires a <= b
    ensures PanLevel(a) <= PanLevel(b) && TiltLevel(a) <= TiltLevel(b)
  {
  }

  // relaying a decoded speed does not change it again
  lemma SpeedIdempotent(speed: nat)
    ensures PanLevel(PanLevel(speed)) == PanLevel(speed) && TiltLevel(TiltLevel(speed)) == TiltLevel(speed)
  {
    assert EncodeSpeed(speed) <= 63;
    assert forall s: nat | s <= 63 :: EncodeSpeed(DecodeSpeed(s)) == s;
  }

  // with the deadzone, level 64 is still full speed, more is never slower, and the levels
  // below 7 are still
  lemma DeadzoneSpeeds(a: nat, b: nat)
    requires a <= b
    ensures DeadzoneSpeed(a) <= DeadzoneSpeed(b) <= SPEED_MAX
    ensures DeadzoneSpeed(a) == 0 <==> a < 7
    ensures a >= 64 ==> DeadzoneSpeed(a) == SPEED_MAX
  {
    if a >= 7 {
      assert (a - 6) * SPEED_MAX <= (b - 6) * SPEED_MAX;
      assert (a - 6) * SPEED_MAX >= SPEED_MAX;
    }
    if a >= 64 { assert (a - 6) * SPEED_MAX >= 58 * SPEED_MAX; }
  }

  // At a reader with deadzone a speed arrives at most 207 slower and 11 faster than it was
  // sent, and as zero exactly below 208.
  lemma DeadzoneError(speed: nat)
    requires speed <= SPEED_MAX
    ensures -207 <= DeadzoneSpeed(EncodePanSpeed(speed)) - speed <= 11
    ensures -207 <= DeadzoneSpeed(EncodeSpeed(speed)) - speed <= 11
    ensures DeadzoneSpeed(EncodePanSpeed(speed)) == 0 <==> speed < 208
    ensures DeadzoneSpeed(EncodeSpeed(speed)) == 0 <==> speed < 208
  {
  }

  // the signed velocity that arrives, at a reader with or without deadzone
  function PanRelay(dead: bool, v: int): int {
    if v < 0 then -(SpeedOf(dead, EncodePanSpeed(-v)) as int) else SpeedOf(dead, EncodePanSpeed(v))
  }

  function TiltRelay(dead: bool, v: int): int {
    if v < 0 then -(SpeedOf(dead, EncodeSpeed(-v)) as int) else SpeedOf(dead, EncodeSpeed(v))
  }

  // Without deadzone within 23 of the pan velocity and 31 of the tilt velocity that was sent, and never
  // the other way
  lemma VelocityError(v: int)
    requires -SPEED_MAX <= v <= SPEED_MAX
    ensures -23 <= PanRelay(false, v) - v <= 23 && -31 <= TiltRelay(false, v) - v <= 31
    ensures v >= 0 ==> PanRelay(false, v) >= 0 && TiltRelay(false, v) >= 0
    ensures v <= 0 ==> PanRelay(false, v) <= 0 && TiltRelay(false, v) <= 0
  {
    SpeedError(if v < 0 then -v else v);
  }

  // the velocity that results when a speed is sent with its direction, and none without
  lemma RelayedPanVelocity(dead: bool, m: Mode, back: Mode, forth: Mode, speed: nat)
    requires back != forth
    ensures var r := if m == forth && speed != 0 then forth else back;
      Velocity(r, back, forth,
               if (m == back || m == forth) && speed != 0 then SpeedOf(dead, EncodePanSpeed(speed)) else 0)
      == PanRelay(dead, Velocity(m, back, forth, speed))
  {
    StillLevel(dead);
    hide EncodePanSpeed, SpeedOf;
  }

  lemma RelayedTiltVelocity(dead: bool, m: Mode, back: Mode, forth: Mode, speed: nat)
    requires back != forth
    ensures var r := if m == forth && EncodeSpeed(speed) != 0 then forth else back;
      Velocity(r, back, forth,
               if (m == back || m == forth) && EncodeSpeed(speed) != 0 then SpeedOf(dead, EncodeSpeed(speed)) else 0)
      == TiltRelay(dead, Velocity(m, back, forth, speed))
  {
    StillLevel(dead);
    hide EncodeSpeed, SpeedOf;
  }

  lemma StillLevel(dead: bool)
    ensures SpeedOf(dead, 0) == 0 && EncodeSpeed(0) == 0 && EncodePanSpeed(0) == 0
  {
  }

  // --- commands ---

  // the pan speed byte: none when the pan mode has no speed
  function PanByte(p: Packet): byte
    requires InRange(p)
  {
    SpeedError(p.pan);
    if p.HasPan() && p.GetPan() != PanLeft && p.GetPan() != PanRight then 0 else EncodePanSpeed(p.pan)
  }

  function TiltByte(p: Packet): byte
    requires InRange(p)
  {
    SpeedError(p.tilt);
    if p.GetTilt() == TiltUp || p.GetTilt() == TiltDown then EncodeSpeed(p.tilt) else 0
  }

  predicate Pans(p: Packet, m: Mode) { p.HasPan() && p.GetPan() == m }

  predicate Tilts(p: Packet, m: Mode)
    requires InRange(p)
  {
    EncodeSpeed(p.tilt) != 0 && p.GetTilt() == m
  }

  // the movement a packet asks for, at the speeds that arrive
  function Movement(p: Packet, dead: bool): Motion
    requires InRange(p)
  {
    Motion(Pans(p, PanRight), Pans(p, PanLeft), Tilts(p, TiltUp), Tilts(p, TiltDown),
           p.GetIris() == IrisOpen, p.GetIris() == IrisClose, p.GetFocus() == FocusNear, p.GetFocus() == FocusFar,
           p.GetZoom() == ZoomIn, p.GetZoom() == ZoomOut, SpeedOf(dead, PanByte(p)), SpeedOf(dead, TiltByte(p)))
  }

  // decode_sense: a camera mode and an auto-pan mode, where given
  function DecodeToggles(camera: Mode, auto: Mode, p: Packet): Packet {
    var a := if camera == Off then p else p.SetCamera(camera);
    if auto == Off then a else a.SetPan(auto, 0)
  }

  // pelco_decode_command
  function CommandOf(x: Motion, receiver: int, camera: Mode, auto: Mode, p: Packet): Packet {
    DecodeToggles(camera, auto, DecodeMotion(x, p.SetReceiver(receiver)))
  }

  lemma ToggleModes(camera: Mode, auto: Mode, p: Packet)
    requires ModesOf(p.flags).camera == Off && Fits(ForCamera, camera)
      && (auto == Off || auto == PanAuto || auto == PanManual)
    ensures var q := DecodeToggles(camera, auto, p);
      && ModesOf(q.flags) == ModesOf(p.flags).(camera := camera,
        pan := if auto == Off then ModesOf(p.flags).pan else if auto == PanAuto then PanAuto else Off)
      && q == p.(flags := q.flags, pan := if auto == Off then p.pan else 0)
  {
    var a := if camera == Off then p else p.SetCamera(camera);
    ModesSet(p.flags, ForCamera, camera);
    ModesSet(a.flags, ForPan, auto);
    hide With, ModesOf;
  }

  // what a command means to a blank packet
  lemma CommandModes(x: Motion, receiver: int, camera: Mode, auto: Mode, c: Packet)
    requires Blank(c) && 0 <= x.pan <= SPEED_MAX && Fits(ForCamera, camera)
      && (auto == Off || auto == PanAuto || auto == PanManual)
    ensures var q := CommandOf(x, receiver, camera, auto, c);
      && ModesOf(q.flags) == NO_MODES.(
           pan := if auto == Off then PanOf(x) else if auto == PanAuto then PanAuto else Off,
           tilt := TiltOf(x), iris := IrisOf(x), focus := FocusOf(x), zoom := ZoomOf(x), camera := camera)
      && q.receiver == receiver && q.preset == 0 && q.expire == c.expire
      && q.pan == (if auto == Off && (x.right || x.left) then x.pan else 0)
      && q.tilt == (if x.up || x.down then x.tilt else 0)
  {
    var r := c.SetReceiver(receiver);
    MotionModes(x, r);
    ToggleModes(camera, auto, DecodeMotion(x, r));
    hide ModesOf, DecodeMotion, DecodeToggles, PanOf, TiltOf, IrisOf, FocusOf, ZoomOf, Fits;
  }

  // q is what a blank packet becomes by the command that p asks for, with this camera mode
  predicate Mirrors(p: Packet, q: Packet, camera: Mode, dead: bool)
    requires InRange(p)
  {
    var x := Movement(p, dead);
    && ModesOf(q.flags) == NO_MODES.(
         pan := if p.GetPan() == PanAuto then PanAuto else PanOf(x),
         tilt := TiltOf(x), iris := IrisOf(x), focus := FocusOf(x), zoom := ZoomOf(x), camera := camera)
    && q.receiver == p.receiver && q.preset == 0
    && q.pan == (if p.GetPan() != PanAuto && (x.right || x.left) then x.pan else 0)
    && q.tilt == (if x.up || x.down then x.tilt else 0)
  }

  lemma MirroredBy(p: Packet, camera: Mode, dead: bool, c: Packet)
    requires InRange(p) && Blank(c) && Fits(ForCamera, camera)
    ensures var auto := if p.GetPan() == PanAuto then PanAuto else Off;
      Mirrors(p, CommandOf(Movement(p, dead), p.receiver, camera, auto, c), camera, dead)
  {
    hide CommandOf, Movement, ModesOf, ModeOf, Blank, Fits, InRange, PanOf, TiltOf, IrisOf, FocusOf, ZoomOf;
    MovementSpeed(p, dead);
    CommandModes(Movement(p, dead), p.receiver, camera, if p.GetPan() == PanAuto then PanAuto else Off, c);
  }

  lemma MovementSpeed(p: Packet, dead: bool)
    requires InRange(p)
    ensures 0 <= Movement(p, dead).pan <= SPEED_MAX
  {
    hide ModeOf, PanByte, TiltByte, Pans, Tilts, InRange;
  }

  // --- what arrives ---

  // The same receiver, lens and camera commands, auto-pan, alarm acknowledgement, lens
  // speed and menu command; velocities as the reader makes them of the nearest level; and no preset or wiper, which
  // have messages of their own.
  predicate Relayed(p: Packet, q: Packet, dead: bool)
    requires InRange(p)
  {
    && q.receiver == p.receiver
    && q.GetZoom() == p.GetZoom() && q.GetFocus() == p.GetFocus() && q.GetIris() == p.GetIris()
    && q.GetCamera() == p.GetCamera()
    && (q.GetPan() == PanAuto <==> p.GetPan() == PanAuto)
    && q.PanVelocity() == PanRelay(dead, p.PanVelocity()) && q.TiltVelocity() == TiltRelay(dead, p.TiltVelocity())
    && q.GetAck() == p.GetAck() && q.GetLens() == p.GetLens() && q.GetMenu() == p.GetMenu()
    && q.GetWiper() == Off && q.GetPreset() == Off
  }

  // what the protocols have words for: no automatic lens function, no alarm
  // acknowledgement, no lens speed, no menu command
  predicate Plain(p: Packet) { Manual(p) && p.GetAck() == Off && p.GetLens() == Off && p.GetMenu() == Off }

  // A mirrored command is a relayed one exactly when it asked for nothing that the
  // protocols cannot express and the camera mode is the one sent.
  lemma MirrorsRelayed(p: Packet, q: Packet, camera: Mode, dead: bool)
    requires InRange(p) && Mirrors(p, q, camera, dead)
    ensures Relayed(p, q, dead) <==> Plain(p) && camera == p.GetCamera()
  {
    hide Mirrors, ModeOf, InRange, Manual, Packet.GetAck, Packet.GetLens, Packet.GetMenu;
    RelayedRest(p, q, camera, dead);
    if Manual(p) && camera == p.GetCamera() {
      RelayedLens(p, q, camera, dead);
      RelayedIris(p, q, camera, dead);
      RelayedPan(p, q, camera, dead);
      RelayedTilt(p, q, camera, dead);
    } else {
      LensLost(p, q, camera, dead);
    }
  }

  lemma LensLost(p: Packet, q: Packet, camera: Mode, dead: bool)
    requires InRange(p) && Mirrors(p, q, camera, dead) && (!Manual(p) || camera != p.GetCamera())
    ensures !Relayed(p, q, dead)
  {
    hide ModeOf, SpeedOf, PanByte, TiltByte, Pans, Tilts, PanRelay, TiltRelay;
  }

  lemma RelayedLens(p: Packet, q: Packet, camera: Mode, dead: bool)
    requires InRange(p) && Mirrors(p, q, camera, dead) && Manual(p) && camera == p.GetCamera()
    ensures q.GetZoom() == p.GetZoom() && q.GetCamera() == p.GetCamera() && q.receiver == p.receiver
    ensures q.GetFocus() == p.GetFocus()
  {
    hide ModeOf, SpeedOf, PanByte, TiltByte, Pans, Tilts, InRange, PanOf, TiltOf, IrisOf, Packet.GetIris;
    ModeFits(p.flags, ForZoom);
    ModeFits(p.flags, ForFocus);
  }

  lemma RelayedIris(p: Packet, q: Packet, camera: Mode, dead: bool)
    requires InRange(p) && Mirrors(p, q, camera, dead) && Manual(p)
    ensures q.GetIris() == p.GetIris()
  {
    hide ModeOf, SpeedOf, PanByte, TiltByte, Pans, Tilts, InRange, PanOf, TiltOf, FocusOf, ZoomOf, Packet.GetZoom;
    ModeFits(p.flags, ForIris);
  }

  lemma RelayedRest(p: Packet, q: Packet, camera: Mode, dead: bool)
    requires InRange(p) && Mirrors(p, q, camera, dead)
    ensures q.GetWiper() == Off && q.GetAck() == Off && q.GetMenu() == Off && q.GetLens() == Off && q.GetPreset() == Off
  {
    hide ModeOf, SpeedOf, PanByte, TiltByte, Pans, Tilts, InRange;
  }

  lemma MirroredMoves(p: Packet, q: Packet, camera: Mode, dead: bool)
    requires InRange(p) && Mirrors(p, q, camera, dead)
    ensures q.GetPan() == if p.GetPan() == PanAuto then PanAuto else if Pans(p, PanRight) then PanRight else PanLeft
    ensures q.pan == if Pans(p, PanRight) || Pans(p, PanLeft) then SpeedOf(dead, PanByte(p)) else 0
    ensures q.GetTilt() == if Tilts(p, TiltUp) then TiltUp else TiltDown
    ensures q.tilt == if Tilts(p, TiltUp) || Tilts(p, TiltDown) then SpeedOf(dead, TiltByte(p)) else 0
  {
    hide ModeOf, SpeedOf, PanByte, TiltByte, Tilts, EncodeSpeed, InRange;
  }

  lemma RelayedPan(p: Packet, q: Packet, camera: Mode, dead: bool)
    requires InRange(p) && Mirrors(p, q, camera, dead)
    ensures (q.GetPan() == PanAuto <==> p.GetPan() == PanAuto) && q.PanVelocity() == PanRelay(dead, p.PanVelocity())
  {
    MirroredMoves(p, q, camera, dead);
    RelayedPanVelocity(dead, p.GetPan(), PanLeft, PanRight, p.pan);
    hide Mirrors, ModeOf, EncodePanSpeed, SpeedOf, PanRelay;
  }

  lemma RelayedTilt(p: Packet, q: Packet, camera: Mode, dead: bool)
    requires InRange(p) && Mirrors(p, q, camera, dead)
    ensures q.TiltVelocity() == TiltRelay(dead, p.TiltVelocity())
  {
    MirroredMoves(p, q, camera, dead);
    RelayedTiltVelocity(dead, p.GetTilt(), TiltDown, TiltUp, p.tilt);
    hide Mirrors, ModeOf, EncodeSpeed, SpeedOf, TiltRelay;
  }

  // --- extended functions ---

  datatype Function = ExNone | ExStore | ExClear | ExRecall | ExAuxSet | ExAuxClear

  function Code(ex: Function): nat {
    match ex case ExNone => 0 case ExStore => 1 case ExClear => 2 case ExRecall => 3 case ExAuxSet => 4
    case ExAuxClear => 5
  }

  // the fourth byte of an extended message, and the function in it
  function ExtendedByte(ex: Function): byte { 1 + 2 * Code(ex) }
  function ExtendedCode(x: byte): nat { x / 2 % 32 }

  lemma ExtendedCodes(ex: Function)
    ensures Bit(ExtendedByte(ex), 0) && ExtendedCode(ExtendedByte(ex)) == Code(ex)
  {
  }

  function PresetFunction(m: Mode): Function {
    match m case Recall => ExRecall case Store => ExStore case Erase => ExClear case _ => ExNone
  }

  function WiperFunction(m: Mode): Function { if m == WiperOn then ExAuxSet else ExAuxClear }

  // decode_extended
  function DecodeFunction(ex: nat, p0: int, q: Packet): Packet {
    if ex == Code(ExStore) then q.SetPreset(Store, p0)
    else if ex == Code(ExRecall) then q.SetPreset(Recall, p0)
    else if ex == Code(ExClear) then q.SetPreset(Erase, p0)
    else if ex == Code(ExAuxSet) then (if p0 == 1 then q.SetWiper(WiperOn) else q)
    else if ex == Code(ExAuxClear) then (if p0 == 1 then q.SetWiper(WiperOff) else q)
    else q
  }

  lemma FunctionDecoded(m: Mode, number: int, q: Packet)
    ensures Storable(m, number) ==> DecodeFunction(Code(PresetFunction(m)), number, q) == q.SetPreset(m, number)
    ensures m != Off && Fits(ForWiper, m) ==> DecodeFunction(Code(WiperFunction(m)), 1, q) == q.SetWiper(m)
  {
    hide Packet.SetPreset, Packet.SetWiper;
  }

  lemma PresetDecoded(receiver: int, m: Mode, number: int, c: Packet)
    requires Blank(c) && Storable(m, number)
    ensures OnlyPreset(DecodeFunction(Code(PresetFunction(m)), number, c.SetReceiver(receiver)), receiver, m, number)
  {
    hide *;
    FunctionDecoded(m, number, c.SetReceiver(receiver));
    BlankPreset(c, receiver, m, number);
  }

  // Of a number cut to a byte, exactly those arrive that fit, and are not refused.
  lemma PresetArrives(receiver: int, m: Mode, number: int, c: Packet)
    requires Blank(c) && m != Off && Fits(ForPreset, m) && number > 0
    ensures OnlyPreset(DecodeFunction(Code(PresetFunction(m)), number % 256, c.SetReceiver(receiver)), receiver, m,
      number)
      <==> number < 256 && Storable(m, number)
  {
    hide OnlyPreset, DecodeFunction, Code, PresetFunction, Blank, Storable, Fits;
    if number < 256 && Storable(m, number) {
      PresetDecoded(receiver, m, number, c);
    } else {
      PresetMissing(m, number, c.SetReceiver(receiver));
      NotThatPreset(DecodeFunction(Code(PresetFunction(m)), number % 256, c.SetReceiver(receiver)), receiver, m,
        number);
    }
  }

  lemma NotThatPreset(q: Packet, receiver: int, m: Mode, number: int)
    requires q.preset != number
    ensures !OnlyPreset(q, receiver, m, number)
  {
    hide ModesOf;
  }

  lemma PresetMissing(m: Mode, number: int, q: Packet)
    requires m != Off && Fits(ForPreset, m) && number > 0 && (number >= 256 || !Storable(m, number))
    ensures DecodeFunction(Code(PresetFunction(m)), number % 256, q).preset != number
  {
    hide With;
  }

  lemma WiperDecoded(receiver: int, m: Mode, c: Packet)
    requires Blank(c) && m != Off && Fits(ForWiper, m)
    ensures OnlyWiper(DecodeFunction(Code(WiperFunction(m)), 1, c.SetReceiver(receiver)), receiver, m)
  {
    hide *;
    FunctionDecoded(m, 1, c.SetReceiver(receiver));
    BlankWiper(c, receiver, m);
  }

  lemma WiperFits(p: Packet)
    ensures Fits(ForWiper, p.GetWiper())
  {
    ModeFits(p.flags, ForWiper);
  }

  // --- streams ---

  // when a command message is written
  predicate Commands(p: Packet) { p.HasCommand() || p.HasAutopan() || p.HasPower() }

  function Count(b: bool): nat { if b then 1 else 0 }

  // the number of messages that a packet takes
  function Parts(p: Packet): nat { Count(Commands(p)) + Count(p.GetPreset() != Off) + Count(p.GetWiper() != Off) }

  // what one packet sent becomes: up to one packet each for its commands, its preset and
  // its wiper, in that order
  predicate Delivered(p: Ranged, qs: seq<Packet>, dead: bool) {
    var a := Count(Commands(p));
    var b := Count(p.GetPreset() != Off);
    && |qs| == Parts(p)
    && (Commands(p) ==> Relayed(p, qs[0], dead))
    && (p.GetPreset() != Off ==> OnlyPreset(qs[a], p.receiver, p.GetPreset(), p.preset))
    && (p.GetWiper() != Off ==> OnlyWiper(qs[a + b], p.receiver, p.GetWiper()))
  }

  lemma DeliveredBy(p: Ranged, qs: seq<Packet>, dead: bool)
    requires |qs| == Parts(p) && (Commands(p) ==> qs != []) && (p.GetPreset() != Off ==> Count(Commands(p)) < |qs|)
    requires p.GetWiper() != Off ==> Count(Commands(p)) + Count(p.GetPreset() != Off) < |qs|
    requires Commands(p) ==> Relayed(p, qs[0], dead)
    requires p.GetPreset() != Off ==> OnlyPreset(qs[Count(Commands(p))], p.receiver, p.GetPreset(), p.preset)
    requires p.GetWiper() != Off ==> OnlyWiper(qs[Count(Commands(p)) + Count(p.GetPreset() != Off)], p.receiver,
      p.GetWiper())
    ensures Delivered(p, qs, dead)
  {
  }

  // what both protocols can express: something that needs a message at all, and nothing
  // beyond their words
  predicate Sendable(p: Packet) {
    && 1 <= p.receiver <= 254 && InRange(p) && Plain(p) && Parts(p) > 0
    && (p.GetPreset() != Off ==> p.preset < 256 && Storable(p.GetPreset(), p.preset))
  }

  // nothing that takes a message: no pan, tilt, lens, camera, preset or wiper mode
  predicate Speechless(p: Packet) {
    && p.GetPan() == Off && p.GetTilt() == Off && p.GetZoom() == Off && p.GetFocus() == Off && p.GetIris() == Off
    && p.GetCamera() == Off && p.GetPreset() == Off && p.GetWiper() == Off
  }

  lemma NoParts(p: Packet)
    ensures Parts(p) == 0 <==> Speechless(p)
  {
    hide ModeOf, Packet.GetPreset, Packet.GetWiper, Packet.GetCamera;
    ModeFits(p.flags, ForPan);
  }

  lemma TurnedSpeaks(p: Packet)
    requires p.GetMenu() != Off
    ensures Parts(AdjustMenu(p)) > 0
  {
    hide *;
    TurnedModes(p);
    NoParts(AdjustMenu(p));
    NotSpeechless(AdjustMenu(p));
  }

  lemma NotSpeechless(p: Packet)
    requires p.GetPreset() != Off || p.GetIris() != Off
    ensures !Speechless(p)
  {
    hide ModeOf;
  }

  lemma TurnedModes(p: Packet)
    requires p.GetMenu() != Off
    ensures var q := AdjustMenu(p); q.GetPreset() != Off || q.GetIris() != Off
  {
    hide ModeOf, Fits, Storable, Packet.GetMenu, Packet.GetPreset, Packet.GetIris, Packet.SetPreset, Packet.SetIris;
    MenuKinds(p);
    PresetModes(p, Store, 95);
    IrisSet(p, IrisOpen);
    IrisSet(p, IrisClose);
  }

  lemma MenuKinds(p: Packet)
    ensures var m := p.GetMenu(); m == Off || m == MenuOpen || m == MenuEnter || m == MenuCancel
    ensures Storable(Store, 95)
  {
    hide ModeOf;
    ModeFits(p.flags, ForMenu);
  }

  lemma IrisSet(p: Packet, m: Mode)
    requires m == IrisOpen || m == IrisClose
    ensures p.SetIris(m).GetIris() == m
  {
    hide ModeOf, With;
    ModeWith(p.flags, ForIris, m, ForIris);
  }

  // A packet takes no message, its menu command turned, exactly when it has neither a mode
  // that takes one nor a menu command.
  lemma TurnedParts(p: Packet)
    ensures Parts(AdjustMenu(p)) == 0 <==> Speechless(p) && p.GetMenu() == Off
  {
    hide Parts, AdjustMenu, Speechless, Packet.GetMenu;
    NoParts(p);
    AdjustKeeps(p);
    if p.GetMenu() != Off { TurnedSpeaks(p); }
  }

  // adjust_menu_commands; opening the menu is storing preset 95
  function AdjustMenu(p: Packet): Packet {
    match p.GetMenu()
    case MenuOpen => p.SetPreset(Store, 95)
    case MenuEnter => p.SetIris(IrisOpen)
    case MenuCancel => p.SetIris(IrisClose)
    case _ => p
  }

  lemma AdjustKeeps(p: Packet)
    ensures var q := AdjustMenu(p); q.receiver == p.receiver && q.pan == p.pan && q.tilt == p.tilt
    ensures p.GetMenu() == Off ==> AdjustMenu(p) == p
  {
    hide With, ModeOf;
  }

  lemma AdjustRanged(p: Packet)
    ensures InRange(AdjustMenu(p)) == InRange(p) && AdjustMenu(p).receiver == p.receiver
  {
    AdjustKeeps(p);
    hide AdjustMenu;
  }

  // A packet put off after its menu command has been turned is no other to the scheduler,
  // and turning it again when it is sent again changes nothing.
  lemma TurnedAlike(p: Packet, timeout: int, now: Timeval)
    ensures var q := AdjustMenu(p);
      && q.receiver == p.receiver && q.IsStop() == p.IsStop() && q.IsExpired(timeout, now) == p.IsExpired(timeout, now)
      && AdjustMenu(q) == q
  {
    ModeWith(p.flags, ForPreset, Store, ForMenu);
    WithTwice(p.flags, ForPreset, Store);
    ModeWith(p.flags, ForIris, IrisOpen, ForMenu);
    ModeWith(p.flags, ForIris, IrisClose, ForMenu);
    WithTwice(p.flags, ForIris, IrisOpen);
    WithTwice(p.flags, ForIris, IrisClose);
    hide With, ModeOf;
  }

  // what a packet asks for, its menu command turned into another one
  function Asked(p: Packet): Packet { if p.GetMenu() == Off then p else AdjustMenu(p).SetMenu(Off) }

  lemma AskedFor(p: Packet)
    ensures SameButMenu(AdjustMenu(p), Asked(p)) && Asked(p).receiver == p.receiver && InRange(Asked(p)) == InRange(p)
    ensures p.GetMenu() == Off ==> Asked(p) == p
  {
    AdjustKeeps(p);
    MenuDropped(AdjustMenu(p));
    hide AdjustMenu, With, ModeOf;
  }

  // no message says anything of the menu
  lemma MenuUnsaid(p: Packet, q: Packet)
    requires SameButMenu(p, q) && InRange(p)
    ensures Commands(p) == Commands(q) && p.GetPreset() == q.GetPreset() && p.GetWiper() == q.GetWiper()
    ensures InRange(q) && PanByte(p) == PanByte(q) && TiltByte(p) == TiltByte(q)
  {
    hide ModeOf, EncodeSpeed, EncodePanSpeed;
  }

  method AdjustMenuCommands(pkt: PacketBuffer)
    modifies pkt
    ensures pkt.View() == AdjustMenu(old(pkt.View()))
  {
    hide With, ModeOf, Packet.SetPreset;
    var mc := pkt.View().GetMenu();
    if mc == MenuOpen {
      pkt.SetPreset(Store, 95);
    } else if mc == MenuEnter {
      pkt.SetIris(IrisOpen);
    } else if mc == MenuCancel {
      pkt.SetIris(IrisClose);
    }
  }

  // the messages of a packet, given those for its parts
  function Written(p: Packet, command: seq<byte>, preset: seq<byte>, wiper: seq<byte>): (ms: seq<seq<byte>>)
    ensures |ms| == Parts(p)
  {
    (if Commands(p) then [command] else []) + (if p.GetPreset() != Off then [preset] else [])
      + (if p.GetWiper() != Off then [wiper] else [])
  }

  lemma WrittenParts(p: Packet, command: seq<byte>, preset: seq<byte>, wiper: seq<byte>)
    ensures Written(p, command, preset, wiper) ==
      ([] + if Commands(p) then [command] else []) + (if p.GetPreset() != Off then [preset] else [])
        + (if p.GetWiper() != Off then [wiper] else [])
  {
    hide Commands, Packet.GetPreset, Packet.GetWiper;
  }

  // where they stand
  lemma WrittenAt(p: Packet, command: seq<byte>, preset: seq<byte>, wiper: seq<byte>)
    ensures var a, b, ms := Count(Commands(p)), Count(p.GetPreset() != Off), Written(p, command, preset, wiper);
      && (Commands(p) ==> 0 < |ms|) && (p.GetPreset() != Off ==> a < |ms|) && (p.GetWiper() != Off ==> a + b < |ms|)
      && (forall m <- ms :: m == command || m == preset || m == wiper)
      && (Commands(p) ==> ms[0] == command)
      && (p.GetPreset() != Off ==> ms[a] == preset)
      && (p.GetWiper() != Off ==> ms[a + b] == wiper)
  {
    hide Commands, Packet.GetPreset, Packet.GetWiper;
  }

  // decoding leaves the time to live alone
  lemma ExpireKept(x: Motion, receiver: int, camera: Mode, auto: Mode, ex: nat, p0: int, p: Packet)
    ensures CommandOf(x, receiver, camera, auto, p).expire == p.expire
    ensures DecodeFunction(ex, p0, p).expire == p.expire
  {
    MotionExpire(x, p.SetReceiver(receiver));
    hide With, DecodeMotion;
  }

  // --- in place ---

  // bytes other than these two are as they were
  twostate predicate Others(mess: array<byte>, i: nat, j: nat)
    reads mess
  {
    forall k | 0 <= k < mess.Length && k != i && k != j :: mess[k] == old(mess[k])
  }

  method EncodePan(mess: array<byte>, p: Packet, ghost b3: seq<bool>) returns (ghost r3: seq<bool>)
    requires mess.Length >= 7 && InRange(p) && |b3| == 8 && mess[3] == Number(b3) && !b3[1] && !b3[2]
    modifies mess
    ensures r3 == b3[1 := Pans(p, PanRight)][2 := Pans(p, PanLeft)] && mess[3] == Number(r3) && mess[4] == PanByte(p)
    ensures Others(mess, 3, 4)
  {
    hide Number, ModeOf;
    SpeedError(p.pan);
    var pan := EncodePanSpeed(p.pan);
    mess[4] := pan;
    r3 := b3;
    if p.HasPan() {
      if p.GetPan() == PanLeft {
        r3 := SetFlag(mess, 3, 2, r3);
      } else if p.GetPan() == PanRight {
        r3 := SetFlag(mess, 3, 1, r3);
      } else {
        mess[4] := 0;
      }
    }
  }

  method EncodeTilt(mess: array<byte>, p: Packet, ghost b3: seq<bool>) returns (ghost r3: seq<bool>)
    requires mess.Length >= 7 && InRange(p) && |b3| == 8 && mess[3] == Number(b3) && !b3[3] && !b3[4]
    modifies mess
    ensures r3 == b3[3 := Tilts(p, TiltUp)][4 := Tilts(p, TiltDown)] && mess[3] == Number(r3) && mess[5] == TiltByte(p)
    ensures Others(mess, 3, 5)
  {
    hide Number, ModeOf;
    SpeedError(p.tilt);
    var tilt := EncodeSpeed(p.tilt);
    mess[5] := tilt;
    r3 := b3;
    if tilt != 0 {
      if p.GetTilt() == TiltUp {
        r3 := SetFlag(mess, 3, 3, r3);
      } else if p.GetTilt() == TiltDown {
        r3 := SetFlag(mess, 3, 4, r3);
      } else {
        mess[5] := 0;
      }
    }
  }

  method EncodeMoves(mess: array<byte>, p: Packet) returns (ghost r3: seq<bool>)
    requires mess.Length >= 7 && InRange(p) && mess[3] == 0
    modifies mess
    ensures |r3| == 8 && mess[3] == Number(r3) && mess[4] == PanByte(p) && mess[5] == TiltByte(p)
    ensures r3 == NO_BITS[1 := Pans(p, PanRight)][2 := Pans(p, PanLeft)][3 := Tilts(p, TiltUp)][4 := Tilts(p, TiltDown)]
    ensures forall k | 0 <= k < mess.Length && k != 3 && k != 4 && k != 5 :: mess[k] == old(mess[k])
  {
    NoBits();
    hide Number, ModeOf, Pans, Tilts, PanByte, TiltByte, InRange;
    r3 := EncodePan(mess, p, NO_BITS);
    r3 := EncodeTilt(mess, p, r3);
  }

  method EncodeZoom(mess: array<byte>, p: Packet, ghost b3: seq<bool>) returns (ghost r3: seq<bool>)
    requires mess.Length >= 7 && |b3| == 8 && mess[3] == Number(b3) && !b3[5] && !b3[6]
    modifies mess
    ensures mess[3] == Number(r3) && r3 == b3[5 := p.GetZoom() == ZoomIn][6 := p.GetZoom() == ZoomOut]
    ensures Others(mess, 3, 3)
  {
    hide Number, ModeOf;
    r3 := b3;
    if p.GetZoom() == ZoomIn {
      r3 := SetFlag(mess, 3, 5, r3);
    } else if p.GetZoom() == ZoomOut {
      r3 := SetFlag(mess, 3, 6, r3);
    }
  }

  // decode_extended
  method DecodeFunctionInto(ex: nat, p0: int, pkt: PacketBuffer)
    modifies pkt
    ensures pkt.View() == DecodeFunction(ex, p0, old(pkt.View()))
  {
    hide With;
    if ex == Code(ExStore) {
      pkt.SetPreset(Store, p0);
    } else if ex == Code(ExRecall) {
      pkt.SetPreset(Recall, p0);
    } else if ex == Code(ExClear) {
      pkt.SetPreset(Erase, p0);
    } else if ex == Code(ExAuxSet) {
      if p0 == 1 { pkt.SetWiper(WiperOn); }
    } else if ex == Code(ExAuxClear) {
      if p0 == 1 { pkt.SetWiper(WiperOff); }
    }
  }

  // the function code of encode_preset and encode_wiper
  method EncodeFunction(mess: array<byte>, ex: Function)
    requires mess.Length >= 7 && mess[3] == 0
    modifies mess
    ensures mess[3] == ExtendedByte(ex) && Others(mess, 3, 3)
  {
    mess[3] := SetBit(0, 0);
    mess[3] := mess[3] + 2 * Code(ex);
  }
}
