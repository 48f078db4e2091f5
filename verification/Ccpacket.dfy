/** Camera control packets (src/ccpacket.c). */
module Ccpacket {
  import opened Timeval

  // the flag word of a packet: enum cc_flags
  type Flags = bv32

  // the constants of enum cc_flags that name one command
  datatype Mode =
    | Off
    | PanLeft | PanRight | PanAuto | PanManual
    | TiltUp | TiltDown
    | Recall | Store | Erase
    | MenuOpen | MenuEnter | MenuCancel
    | CameraOn | CameraOff
    | AckAlarm
    | ZoomIn | ZoomOut
    | FocusNear | FocusFar | FocusAuto
    | IrisClose | IrisOpen | IrisAuto
    | LensSpeed
    | WiperOn | WiperOff

  function FlagOf(m: Mode): Flags {
    match m
    case Off => 0
    case PanLeft => 0x1 case PanRight => 0x2 case PanAuto => 0x4 case PanManual => 0x8
    case TiltUp => 0x10 case TiltDown => 0x20
    case Recall => 0x40 case Store => 0x80 case Erase => 0x100
    case MenuOpen => 0x200 case MenuEnter => 0x400 case MenuCancel => 0x800
    case CameraOn => 0x1000 case CameraOff => 0x2000
    case AckAlarm => 0x4000
    case ZoomIn => 0x8000 case ZoomOut => 0x10000
    case FocusNear => 0x20000 case FocusFar => 0x40000 case FocusAuto => 0x80000
    case IrisClose => 0x100000 case IrisOpen => 0x200000 case IrisAuto => 0x400000
    case LensSpeed => 0x800000
    case WiperOn => 0x1000000 case WiperOff => 0x2000000
  }

  // the groups of commands that exclude one another
  datatype Field = ForPan | ForTilt | ForPreset | ForMenu | ForCamera | ForAck | ForZoom | ForFocus | ForIris
    | ForLens | ForWiper

  function MaskOf(x: Field): Flags {
    match x
    case ForPan => 0xF case ForTilt => 0x30 case ForPreset => 0x1C0 case ForMenu => 0xE00 case ForCamera => 0x3000
    case ForAck => 0x4000
    case ForZoom => 0x18000 case ForFocus => 0xE0000 case ForIris => 0x700000 case ForLens => 0x800000
    case ForWiper => 0x3000000
  }

  // the field a mode is legal in; manual pan is legal in none
  predicate Fits(x: Field, m: Mode) {
    match m
    case Off => true
    case PanManual => false
    case PanLeft | PanRight | PanAuto => x == ForPan
    case TiltUp | TiltDown => x == ForTilt
    case Recall | Store | Erase => x == ForPreset
    case MenuOpen | MenuEnter | MenuCancel => x == ForMenu
    case CameraOn | CameraOff => x == ForCamera
    case AckAlarm => x == ForAck
    case ZoomIn | ZoomOut => x == ForZoom
    case FocusNear | FocusFar | FocusAuto => x == ForFocus
    case IrisClose | IrisOpen | IrisAuto => x == ForIris
    case LensSpeed => x == ForLens
    case WiperOn | WiperOff => x == ForWiper
  }

  // the one legal mode whose flag makes up these bits, if any
  function NameOf(x: Field, bits: Flags): Mode {
    match x
    case ForPan =>
      if bits == 0x1 then PanLeft else if bits == 0x2 then PanRight else if bits == 0x4 then PanAuto else Off
    case ForTilt =>
      if bits == 0x10 then TiltUp else if bits == 0x20 then TiltDown else Off
    case ForPreset =>
      if bits == 0x40 then Recall else if bits == 0x80 then Store else if bits == 0x100 then Erase else Off
    case ForMenu =>
      if bits == 0x200 then MenuOpen else if bits == 0x400 then MenuEnter else if bits == 0x800 then MenuCancel else Off
    case ForCamera =>
      if bits == 0x1000 then CameraOn else if bits == 0x2000 then CameraOff else Off
    case ForAck =>
      if bits == 0x4000 then AckAlarm else Off
    case ForZoom =>
      if bits == 0x8000 then ZoomIn else if bits == 0x10000 then ZoomOut else Off
    case ForFocus =>
      if bits == 0x20000 then FocusNear else if bits == 0x40000 then FocusFar else if bits == 0x80000 then FocusAuto
        else Off
    case ForIris =>
      if bits == 0x100000 then IrisClose else if bits == 0x200000 then IrisOpen else if bits == 0x400000 then IrisAuto
        else Off
    case ForLens =>
      if bits == 0x800000 then LensSpeed else Off
    case ForWiper =>
      if bits == 0x1000000 then WiperOn else if bits == 0x2000000 then WiperOff else Off
  }

  // the mode of a field: ccpacket_pan, ccpacket_tilt, ccpacket_menu and so on
  function And(f: Flags, m: Flags): Flags { f & m }
  function Masked(f: Flags, x: Field): Flags { And(f, MaskOf(x)) }
  function ModeOf(x: Field, f: Flags): Mode { NameOf(x, Masked(f, x)) }

  // a field replaced by a mode, or emptied when the mode does not fit
  function Replace(f: Flags, m: Flags, bits: Flags): Flags { bits | (f & !m) }
  function Place(f: Flags, x: Field, bits: Flags): Flags { Replace(f, MaskOf(x), bits) }
  function With(f: Flags, x: Field, m: Mode): Flags { Place(f, x, FlagOf(if Fits(x, m) then m else Off)) }

  const SPEED_MAX: int := 2047

  function ClampSpeed(speed: int): int {
    if speed < 0 then 0 else if speed > SPEED_MAX then SPEED_MAX else speed
  }

  // a preset mode needs a positive number
  function PresetMode(m: Mode, number: int): Mode { if number <= 0 || !Fits(ForPreset, m) then Off else m }

  datatype Packet = Packet(receiver: int, flags: Flags, pan: int, tilt: int, preset: int, expire: Timeval)
  {
    function GetPan(): Mode { ModeOf(ForPan, flags) }
    function GetTilt(): Mode { ModeOf(ForTilt, flags) }
    function GetMenu(): Mode { ModeOf(ForMenu, flags) }
    function GetCamera(): Mode { ModeOf(ForCamera, flags) }
    function GetAck(): Mode { ModeOf(ForAck, flags) }
    function GetZoom(): Mode { ModeOf(ForZoom, flags) }
    function GetFocus(): Mode { ModeOf(ForFocus, flags) }
    function GetIris(): Mode { ModeOf(ForIris, flags) }
    function GetLens(): Mode { ModeOf(ForLens, flags) }
    function GetWiper(): Mode { ModeOf(ForWiper, flags) }
    function GetPreset(): Mode { PresetMode(ModeOf(ForPreset, flags), preset) }

    function Clear(): Packet { Cleared(expire) }
    function SetReceiver(r: int): Packet { this.(receiver := r) }
    function SetPan(m: Mode, speed: int): Packet { this.(flags := With(flags, ForPan, m), pan := ClampSpeed(speed)) }
    function SetPanSpeed(speed: int): Packet { this.(pan := ClampSpeed(speed)) }
    function SetTilt(m: Mode, speed: int): Packet { this.(flags := With(flags, ForTilt, m), tilt := speed) }
    function SetTiltSpeed(speed: int): Packet { this.(tilt := speed) }
    function SetMenu(m: Mode): Packet { this.(flags := With(flags, ForMenu, m)) }
    function SetCamera(m: Mode): Packet { this.(flags := With(flags, ForCamera, m)) }
    function SetAck(m: Mode): Packet { this.(flags := With(flags, ForAck, m)) }
    function SetZoom(m: Mode): Packet { this.(flags := With(flags, ForZoom, m)) }
    function SetFocus(m: Mode): Packet { this.(flags := With(flags, ForFocus, m)) }
    function SetIris(m: Mode): Packet { this.(flags := With(flags, ForIris, m)) }
    function SetLens(m: Mode): Packet { this.(flags := With(flags, ForLens, m)) }
    function SetWiper(m: Mode): Packet { this.(flags := With(flags, ForWiper, m)) }

    // storing presets 77 to 79 sets no preset; the flags saved before the menu
    // translation are written back, so the menu bits do not survive either
    function SetPreset(m: Mode, number: int): Packet {
      var p := PresetMode(m, number);
      if p == Store && 77 <= number <= 79 then this.(flags := With(flags, ForPreset, Off), preset := 0)
      else this.(flags := With(flags, ForPreset, p), preset := number)
    }

    predicate HasPan() { GetPan() != Off && pan != 0 }
    predicate HasTilt() { GetTilt() != Off && tilt != 0 }
    predicate HasCommand() {
      GetPan() != Off || GetTilt() != Off || GetZoom() != Off || GetFocus() != Off || GetIris() != Off
    }
    predicate HasAutopan() { GetPan() == PanAuto || GetPan() == PanManual }
    predicate HasPower() { GetCamera() != Off }
    predicate IsStop() {
      && pan == 0 && tilt == 0
      && GetPan() != PanAuto && GetPan() != PanManual
      && GetPreset() == Off && GetMenu() == Off && GetAck() == Off && GetCamera() == Off
      && GetZoom() == Off && GetFocus() == Off && GetIris() == Off && GetWiper() == Off
    }
    predicate IsExpired(timeout: int, now: Timeval) { FromNow(expire, now) > timeout }

    // signed velocities
    function PanVelocity(): int { Velocity(GetPan(), PanLeft, PanRight, pan) }
    function TiltVelocity(): int { Velocity(GetTilt(), TiltDown, TiltUp, tilt) }
  }

  function Velocity(m: Mode, back: Mode, forth: Mode, speed: int): int {
    if m == back then -speed else if m == forth then speed else 0
  }

  // --- the modes of a packet, field by field ---

  datatype Modes = Modes(pan: Mode, tilt: Mode, preset: Mode, menu: Mode, camera: Mode, ack: Mode, zoom: Mode,
      focus: Mode, iris: Mode, lens: Mode, wiper: Mode)

  const NO_MODES: Modes := Modes(Off, Off, Off, Off, Off, Off, Off, Off, Off, Off, Off)

  function ModesOf(f: Flags): Modes {
    Modes(ModeOf(ForPan, f), ModeOf(ForTilt, f), ModeOf(ForPreset, f), ModeOf(ForMenu, f), ModeOf(ForCamera, f),
      ModeOf(ForAck, f),
          ModeOf(ForZoom, f), ModeOf(ForFocus, f), ModeOf(ForIris, f), ModeOf(ForLens, f), ModeOf(ForWiper, f))
  }

  function Updated(modes: Modes, x: Field, m: Mode): Modes {
    match x
    case ForPan => modes.(pan := m)
    case ForTilt => modes.(tilt := m)
    case ForPreset => modes.(preset := m)
    case ForMenu => modes.(menu := m)
    case ForCamera => modes.(camera := m)
    case ForAck => modes.(ack := m)
    case ForZoom => modes.(zoom := m)
    case ForFocus => modes.(focus := m)
    case ForIris => modes.(iris := m)
    case ForLens => modes.(lens := m)
    case ForWiper => modes.(wiper := m)
  }

  // the fields do not overlap
  lemma MasksDisjoint(x: Field, y: Field)
    requires x != y
    ensures And(MaskOf(x), MaskOf(y)) == 0
  {
  }

  lemma FlagInField(x: Field, m: Mode)
    requires Fits(x, m)
    ensures FlagOf(m) & !MaskOf(x) == 0
  {
    hide NameOf;
  }

  lemma FlagNamed(x: Field, m: Mode)
    requires Fits(x, m)
    ensures NameOf(x, FlagOf(m)) == m
  {
    hide MaskOf, NameOf;
    if m == Off { NoName(x); } else { NameIs(x, m); }
  }

  lemma NoName(x: Field)
    ensures NameOf(x, 0) == Off
  {
  }

  lemma NameIs(x: Field, m: Mode)
    requires Fits(x, m) && m != Off
    ensures NameOf(x, FlagOf(m)) == m
  {
    hide MaskOf;
  }

  // a flag lies in its field and is the only one named so there
  lemma FlagFits(x: Field, m: Mode)
    requires Fits(x, m)
    ensures FlagOf(m) & !MaskOf(x) == 0 && NameOf(x, FlagOf(m)) == m
  {
    hide *;
    FlagInField(x, m);
    FlagNamed(x, m);
  }

  lemma Replaced(f: Flags, m: Flags, bits: Flags, n: Flags)
    requires bits & !m == 0
    ensures And(Replace(f, m, bits), m) == bits
    ensures And(m, n) == 0 ==> And(Replace(f, m, bits), n) == And(f, n)
  {
  }

  lemma PutMasked(f: Flags, x: Field, g: Flags, y: Field)
    requires g & !MaskOf(x) == 0
    ensures Masked(Place(f, x, g), y) == if y == x then g else Masked(f, y)
  {
    if y != x { MasksDisjoint(x, y); }
    Replaced(f, MaskOf(x), g, MaskOf(y));
    hide MaskOf, And, Replace;
  }

  lemma ModePut(f: Flags, x: Field, m: Mode, y: Field)
    requires Fits(x, m)
    ensures ModeOf(y, Place(f, x, FlagOf(m))) == if y != x then ModeOf(y, f) else m
  {
    FlagFits(x, m);
    PutMasked(f, x, FlagOf(m), y);
    hide Place, FlagOf, MaskOf, NameOf, Masked, Fits;
  }

  lemma ModeWith(f: Flags, x: Field, m: Mode, y: Field)
    ensures ModeOf(y, With(f, x, m)) == if y != x then ModeOf(y, f) else if Fits(x, m) then m else Off
  {
    assert Fits(x, Off);
    ModePut(f, x, if Fits(x, m) then m else Off, y);
    hide Place, FlagOf, ModeOf;
  }

  // a field never reads as a mode of another field
  lemma ModeFits(f: Flags, x: Field)
    ensures Fits(x, ModeOf(x, f))
  {
    hide Masked;
  }

  // a field reads back as it was set, and setting it changes no other
  lemma ModesSet(f: Flags, x: Field, m: Mode)
    ensures ModesOf(With(f, x, m)) == Updated(ModesOf(f), x, if Fits(x, m) then m else Off)
  {
    ModeWith(f, x, m, ForPan);
    ModeWith(f, x, m, ForTilt);
    ModeWith(f, x, m, ForPreset);
    ModeWith(f, x, m, ForMenu);
    ModeWith(f, x, m, ForCamera);
    ModeWith(f, x, m, ForAck);
    ModeWith(f, x, m, ForZoom);
    ModeWith(f, x, m, ForFocus);
    ModeWith(f, x, m, ForIris);
    ModeWith(f, x, m, ForLens);
    ModeWith(f, x, m, ForWiper);
    hide With, ModeOf, Fits;
  }

  lemma ReplacedTwice(f: Flags, m: Flags, bits: Flags)
    requires bits & !m == 0
    ensures Replace(Replace(f, m, bits), m, bits) == Replace(f, m, bits)
  {
  }

  lemma WithTwice(f: Flags, x: Field, m: Mode)
    ensures With(With(f, x, m), x, m) == With(f, x, m)
  {
    hide MaskOf, FlagOf, Replace, Fits;
    OffFits(x);
    FlagInField(x, if Fits(x, m) then m else Off);
    ReplacedTwice(f, MaskOf(x), FlagOf(if Fits(x, m) then m else Off));
  }

  lemma OffFits(x: Field)
    ensures Fits(x, Off)
  {
  }

  // what is left of a packet once it is cleared
  function Cleared(expire: Timeval): Packet { Packet(0, 0, 0, 0, 0, expire) }

  // a packet that asks for nothing
  predicate Blank(p: Packet) { ModesOf(p.flags) == NO_MODES && p.pan == 0 && p.tilt == 0 && p.preset == 0 }

  lemma ClearedBlank(expire: Timeval)
    ensures Blank(Cleared(expire))
  {
  }

  // storing one of the presets 77 to 79 leaves no trace: no preset mode, no preset
  // number, and the menu command as it was before
  lemma MenuPresetLost(p: Packet, number: int)
    requires 77 <= number <= 79
    ensures var q := p.SetPreset(Store, number);
      q.GetPreset() == Off && q.preset == 0 && q.GetMenu() == p.GetMenu()
  {
    ModeWith(p.flags, ForPreset, Off, ForMenu);
    hide With, ModeOf;
  }

  // A stop is a packet without speeds that has no mode but a direction, a lens speed or the
  // mode of a preset without a number.
  lemma StopExactly(p: Packet)
    ensures p.IsStop() <==>
      var y := ModesOf(p.flags);
      && p.pan == 0 && p.tilt == 0 && y.pan != PanAuto && (y.preset == Off || p.preset <= 0)
      && y == NO_MODES.(pan := y.pan, tilt := y.tilt, lens := y.lens, preset := y.preset)
  {
    hide ModeOf;
    ModeFits(p.flags, ForPan);
    ModeFits(p.flags, ForPreset);
  }

  // struct ccpacket, as readers and writers change it in place
  class PacketBuffer {
    var receiver: int
    var flags: Flags
    var pan: int
    var tilt: int
    var preset: int
    var expire: Timeval

    function View(): Packet
      reads this
    {
      Packet(receiver, flags, pan, tilt, preset, expire)
    }

    // ccpacket_create
    constructor (now: Timeval)
      ensures View() == Packet(0, 0, 0, 0, 0, now)
    {
      receiver, flags, pan, tilt, preset, expire := 0, 0, 0, 0, 0, now;
    }

    method Clear()
      modifies this
      ensures View() == old(View()).Clear()
    {
      receiver, flags, pan, tilt, preset := 0, 0, 0, 0, 0;
    }

    method SetReceiver(r: int)
      modifies this
      ensures View() == old(View()).SetReceiver(r)
    {
      receiver := r;
    }

    method SetPan(m: Mode, speed: int)
      modifies this
      ensures View() == old(View()).SetPan(m, speed)
    {
      hide With;
      flags := With(flags, ForPan, m);
      SetPanSpeed(speed);
    }

    method SetPanSpeed(speed: int)
      modifies this
      ensures View() == old(View()).SetPanSpeed(speed)
    {
      pan := ClampSpeed(speed);
    }

    method SetTilt(m: Mode, speed: int)
      modifies this
      ensures View() == old(View()).SetTilt(m, speed)
    {
      hide With;
      flags := With(flags, ForTilt, m);
      SetTiltSpeed(speed);
    }

    method SetTiltSpeed(speed: int)
      modifies this
      ensures View() == old(View()).SetTiltSpeed(speed)
    {
      tilt := speed;
    }

    method SetMenu(m: Mode)
      modifies this`flags
      ensures View() == old(View()).SetMenu(m)
    {
      hide With;
      flags := With(flags, ForMenu, m);
    }

    method SetCamera(m: Mode)
      modifies this`flags
      ensures View() == old(View()).SetCamera(m)
    {
      hide With;
      flags := With(flags, ForCamera, m);
    }

    method SetAck(m: Mode)
      modifies this`flags
      ensures View() == old(View()).SetAck(m)
    {
      hide With;
      flags := With(flags, ForAck, m);
    }

    method SetZoom(m: Mode)
      modifies this`flags
      ensures View() == old(View()).SetZoom(m)
    {
      hide With;
      flags := With(flags, ForZoom, m);
    }

    method SetFocus(m: Mode)
      modifies this`flags
      ensures View() == old(View()).SetFocus(m)
    {
      hide With;
      flags := With(flags, ForFocus, m);
    }

    method SetIris(m: Mode)
      modifies this`flags
      ensures View() == old(View()).SetIris(m)
    {
      hide With;
      flags := With(flags, ForIris, m);
    }

    method SetLens(m: Mode)
      modifies this`flags
      ensures View() == old(View()).SetLens(m)
    {
      hide With;
      flags := With(flags, ForLens, m);
    }

    method SetWiper(m: Mode)
      modifies this`flags
      ensures View() == old(View()).SetWiper(m)
    {
      hide With;
      flags := With(flags, ForWiper, m);
    }

    // presets 77 to 79 become menu commands
    method MenuPreset(number: int) returns (menu: bool)
      modifies this`flags
      ensures menu == (77 <= number <= 79)
    {
      menu := true;
      if number == 77 {
        SetMenu(MenuOpen);
      } else if number == 78 {
        SetMenu(MenuEnter);
      } else if number == 79 {
        SetMenu(MenuCancel);
      } else {
        menu := false;
      }
    }

    method SetPreset(m: Mode, number: int)
      modifies this
      ensures View() == old(View()).SetPreset(m, number)
    {
      hide With;
      var was := flags;
      var p := PresetMode(m, number);
      var menu := false;
      if p == Store { menu := MenuPreset(number); }
      if menu {
        flags, preset := With(was, ForPreset, Off), 0;
      } else {
        flags, preset := With(was, ForPreset, p), number;
      }
    }

    method SetTimeout(now: Timeval, timeout: nat)
      requires Normal(now) && timeout < UINT_MODULUS
      modifies this
      ensures View() == old(View()).(expire := Adjusted(now, timeout))
    {
      expire := now;
      expire := Adjust(expire, timeout);
    }
  }

  // The buffer holds the cleared packet c, for some receiver: that of the first address a
  // node takes when the reader has just been set up, 0 later on.
  ghost predicate Ready(pkt: PacketBuffer, c: Packet)
    reads pkt
  {
    c == Cleared(c.expire) && pkt.View() == c.SetReceiver(pkt.receiver)
  }
}
