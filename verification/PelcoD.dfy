/** Messages of the pelco_d protocol (src/pelco_d.c). */
module PelcoD {
  import opened Timeval
  import opened Bytes
  import opened Buffers
  import opened Framing
  import opened Readers
  import opened Writers
  import opened Ccpacket
  import opened Codec
  import opened Pelco

  // --- encoding ---

  // encode_checksum
  function Checksummed(m: seq<byte>): seq<byte>
    requires |m| == 7
  {
    m[6 := SumD(m)]
  }

  // the sense bit tells camera on and auto-pan from camera off
  predicate Sense(p: Packet) { p.GetCamera() == CameraOn || p.GetPan() == PanAuto }

  predicate CameraBit(p: Packet) {
    if Sense(p) then p.GetCamera() == CameraOn else p.GetCamera() == CameraOff
  }

  // the camera mode that arrives: camera off is lost with auto-pan
  function CameraArriving(p: Packet): Mode {
    if !CameraBit(p) then Off else if Sense(p) then CameraOn else CameraOff
  }

  // the third and fourth bytes of a command
  function Bits2(p: Packet): (b: seq<bool>)
    ensures |b| == 8
  {
    [p.GetFocus() == FocusNear, p.GetIris() == IrisOpen, p.GetIris() == IrisClose, CameraBit(p),
     p.GetPan() == PanAuto, false, false, Sense(p)]
  }

  function Bits3(p: Packet): (b: seq<bool>)
    requires InRange(p)
    ensures |b| == 8
  {
    [false, Pans(p, PanRight), Pans(p, PanLeft), Tilts(p, TiltUp), Tilts(p, TiltDown),
     p.GetZoom() == ZoomIn, p.GetZoom() == ZoomOut, p.GetFocus() == FocusFar]
  }

  // encode_command
  function Command(p: Packet): (m: seq<byte>)
    requires InRange(p) && 0 <= p.receiver < 256
    ensures |m| == 7
  {
    hide ModeOf, Pack, Bits2, Bits3, PanByte, TiltByte, SumD;
    Checksummed([0xFF, p.receiver, Pack(Bits2(p)), Pack(Bits3(p)), PanByte(p), TiltByte(p), 0])
  }

  function Extended(receiver: int, ex: Function, p0: int): (m: seq<byte>)
    requires 0 <= receiver < 256 && 0 <= p0 < 256
    ensures |m| == 7
  {
    Checksummed([0xFF, receiver, 0, ExtendedByte(ex), 0, p0, 0])
  }

  // encode_preset; the number is cut to a byte
  function Preset(p: Packet): (m: seq<byte>)
    requires 0 <= p.receiver < 256
    ensures |m| == 7
  {
    Extended(p.receiver, PresetFunction(p.GetPreset()), p.preset % 256)
  }

  // encode_wiper
  function Wiper(p: Packet): (m: seq<byte>)
    requires 0 <= p.receiver < 256
    ensures |m| == 7
  {
    Extended(p.receiver, WiperFunction(p.GetWiper()), 1)
  }

  // --- decoding ---

  function MotionBits(m: seq<byte>): Motion
    requires |m| == 7
  {
    Motion(Bit(m[3], 1), Bit(m[3], 2), Bit(m[3], 3), Bit(m[3], 4), Bit(m[2], 1), Bit(m[2], 2),
           Bit(m[2], 0), Bit(m[3], 7), Bit(m[3], 5), Bit(m[3], 6), SpeedOf(false, m[4]), SpeedOf(false, m[5]))
  }

  // decode_sense; auto-pan without the sense bit asks for manual pan, which is no legal mode
  function CameraIn(m: seq<byte>): Mode
    requires |m| == 7
  {
    if !Bit(m[2], 3) then Off else if Bit(m[2], 7) then CameraOn else CameraOff
  }

  function AutoIn(m: seq<byte>): Mode
    requires |m| == 7
  {
    if !Bit(m[2], 4) then Off else if Bit(m[2], 7) then PanAuto else PanManual
  }

  // pelco_decode_extended, pelco_decode_command
  function Decode(m: seq<byte>, p: Packet): Packet
    requires |m| == 7
  {
    if Bit(m[3], 0) then DecodeFunction(ExtendedCode(m[3]), m[5], p.SetReceiver(m[1]))
    else CommandOf(MotionBits(m), m[1], CameraIn(m), AutoIn(m), p)
  }

  // --- round trips ---

  lemma CommandAt(p: Packet)
    requires InRange(p) && 0 <= p.receiver < 256
    ensures var m := Command(p);
      && m[1] == p.receiver && m[2] == Pack(Bits2(p)) && m[3] == Pack(Bits3(p)) && m[4] == PanByte(p)
      && m[5] == TiltByte(p)
  {
    hide Bits2, Bits3, Pack, PanByte, TiltByte, SumD;
  }

  lemma CommandBits(p: Packet)
    requires InRange(p) && 0 <= p.receiver < 256
    ensures var m := Command(p);
      && m[1] == p.receiver && !Bit(m[3], 0) && MotionBits(m) == Movement(p, false)
      && CameraIn(m) == CameraArriving(p) && AutoIn(m) == if p.GetPan() == PanAuto then PanAuto else Off
  {
    CommandAt(p);
    PackBits(Bits2(p));
    PackBits(Bits3(p));
    hide Command, Pack, Bit, Pans, Tilts, ModeOf, SpeedOf, PanByte, TiltByte;
  }

  // Round trip of commands, for all packets: what arrives is what was sent, exactly for the
  // packets without automatic lens function, alarm acknowledgement, lens speed and menu
  // command, and without camera off during auto-pan.
  lemma CommandRoundTrip(p: Packet, c: Packet)
    requires InRange(p) && 0 <= p.receiver < 256 && Blank(c)
    ensures Relayed(p, Decode(Command(p), c), false) <==>
      Plain(p) && !(p.GetCamera() == CameraOff && p.GetPan() == PanAuto)
  {
    CommandBits(p);
    CameraArrives(p);
    MirroredBy(p, CameraArriving(p), false, c);
    MirrorsRelayed(p, CommandOf(Movement(p, false), p.receiver, CameraArriving(p),
      if p.GetPan() == PanAuto then PanAuto else Off, c),
      CameraArriving(p), false);
    hide Command, CommandOf, MotionBits, Movement, CameraArriving, CameraIn, AutoIn, Bit, Mirrors, Relayed, Plain,
         InRange, ModeOf, Blank;
  }

  lemma CameraArrives(p: Packet)
    ensures Fits(ForCamera, CameraArriving(p))
    ensures CameraArriving(p) == p.GetCamera() <==> !(p.GetCamera() == CameraOff && p.GetPan() == PanAuto)
  {
    ModeFits(p.flags, ForCamera);
    hide ModeOf;
  }

  lemma ExtendedAt(receiver: int, ex: Function, p0: int, c: Packet)
    requires 0 <= receiver < 256 && 0 <= p0 < 256
    ensures Decode(Extended(receiver, ex, p0), c) == DecodeFunction(Code(ex), p0, c.SetReceiver(receiver))
  {
    ExtendedCodes(ex);
    hide CommandOf, DecodeFunction, SumD, Bit, ExtendedByte, ExtendedCode, Code, MotionBits;
  }

  lemma PresetIs(p: Packet)
    requires 0 <= p.receiver < 256 && p.GetPreset() != Off
    ensures Preset(p) == Extended(p.receiver, PresetFunction(p.GetPreset()), p.preset % 256)
    ensures p.preset > 0 && Fits(ForPreset, p.GetPreset())
    ensures Storable(p.GetPreset(), p.preset) <==> !(p.GetPreset() == Store && 77 <= p.preset <= 79)
  {
    hide Extended, ModeOf;
  }

  // A preset arrives if and only if its number is at most 255 and it is not the storing
  // of 77, 78 or 79.
  lemma PresetRoundTrip(p: Packet, c: Packet)
    requires 0 <= p.receiver < 256 && Blank(c) && p.GetPreset() != Off
    ensures OnlyPreset(Decode(Preset(p), c), p.receiver, p.GetPreset(), p.preset)
      <==> p.preset < 256 && !(p.GetPreset() == Store && 77 <= p.preset <= 79)
  {
    hide *;
    PresetIs(p);
    PresetArrives(p.receiver, p.GetPreset(), p.preset, c);
    ExtendedAt(p.receiver, PresetFunction(p.GetPreset()), p.preset % 256, c);
  }

  lemma WiperRoundTrip(p: Packet, c: Packet)
    requires 0 <= p.receiver < 256 && Blank(c) && p.GetWiper() != Off
    ensures OnlyWiper(Decode(Wiper(p), c), p.receiver, p.GetWiper())
  {
    WiperFits(p);
    WiperDecoded(p.receiver, p.GetWiper(), c);
    ExtendedAt(p.receiver, WiperFunction(p.GetWiper()), 1, c);
    hide Decode, Extended, OnlyWiper, Blank, DecodeFunction, WiperFunction, Code, Packet.GetWiper;
  }

  // --- writing ---

  // pelco_d_do_write
  function DoWrite(p: Packet): seq<seq<byte>>
    requires InRange(p)
  {
    AdjustKeeps(p);
    var q := AdjustMenu(p);
    if p.receiver < 1 || p.receiver > 254 then [] else Written(q, Command(q), Preset(q), Wiper(q))
  }

  lemma MessageOk(m: seq<byte>)
    requires |m| == 7 && m[0] == 0xFF
    ensures Message(PelcoD, Checksummed(m))
  {
    hide Plus;
  }

  lemma MessagesOk(p: Packet)
    requires InRange(p) && 0 <= p.receiver < 256
    ensures Message(PelcoD, Command(p)) && Message(PelcoD, Preset(p)) && Message(PelcoD, Wiper(p))
  {
    hide Checksummed, Message, Pack, PanByte, TiltByte, Bits2, Bits3, ExtendedByte, PresetFunction, WiperFunction;
    MessageOk([0xFF, p.receiver, Pack(Bits2(p)), Pack(Bits3(p)), PanByte(p), TiltByte(p), 0]);
    MessageOk([0xFF, p.receiver, 0, ExtendedByte(PresetFunction(p.GetPreset())), 0, p.preset % 256, 0]);
    MessageOk([0xFF, p.receiver, 0, ExtendedByte(WiperFunction(p.GetWiper())), 0, 1, 0]);
  }

  lemma SaysTheSame(p: Packet, q: Packet)
    requires SameButMenu(p, q) && InRange(p) && 0 <= p.receiver < 256
    ensures q.receiver == p.receiver && InRange(q)
    ensures Command(p) == Command(q) && Preset(p) == Preset(q) && Wiper(p) == Wiper(q)
  {
    hide InRange, Bits2, Bits3, Pack, Checksummed, Extended, PanByte, TiltByte, Packet.GetPreset, Packet.GetWiper,
         ModeOf, ModesOf;
    MenuUnsaid(p, q);
    BitsUnsaid(p, q);
  }

  lemma BitsUnsaid(p: Packet, q: Packet)
    requires SameButMenu(p, q) && InRange(p) && InRange(q)
    ensures Bits2(p) == Bits2(q) && Bits3(p) == Bits3(q)
  {
    hide ModeOf, EncodeSpeed, InRange;
  }

  // its messages are those of the packet with the menu command turned
  lemma DoWriteIs(p: Ranged)
    requires 1 <= p.receiver <= 254
    ensures var q := Asked(p);
      InRange(q) && q.receiver == p.receiver && DoWrite(p) == Written(q, Command(q), Preset(q), Wiper(q))
  {
    hide AdjustMenu, Asked, SameButMenu, Command, Preset, Wiper, Commands, Packet.GetPreset, Packet.GetWiper, InRange;
    AdjustRanged(p);
    AskedFor(p);
    MenuUnsaid(AdjustMenu(p), Asked(p));
    SaysTheSame(AdjustMenu(p), Asked(p));
  }

  // What goes without any message: packets for a receiver out of range, and those that hold
  // nothing but an alarm acknowledgement, a lens speed or a speed without a direction.
  lemma SilentExactly(p: Packet)
    requires InRange(p)
    ensures DoWrite(p) == [] <==> p.receiver < 1 || p.receiver > 254 || (Speechless(p) && p.GetMenu() == Off)
  {
    hide AdjustMenu, Command, Preset, Wiper, Parts, Speechless, Packet.GetMenu, InRange, Written;
    AdjustRanged(p);
    TurnedParts(p);
  }

  // --- in place ---

  // the iris and focus part of encode_lens
  method EncodeLens(mess: array<byte>, p: Packet, ghost b2: seq<bool>, ghost b3: seq<bool>)
    returns (ghost r2: seq<bool>, ghost r3: seq<bool>)
    requires mess.Length == 7 && |b2| == |b3| == 8 && mess[2] == Number(b2) && mess[3] == Number(b3)
    requires !b2[0] && !b2[1] && !b2[2] && !b3[7]
    modifies mess
    ensures mess[2] == Number(r2) && r2 == b2[0 := p.GetFocus() == FocusNear][1 := p.GetIris() == IrisOpen]
      [2 := p.GetIris() == IrisClose]
    ensures mess[3] == Number(r3) && r3 == b3[7 := p.GetFocus() == FocusFar]
    ensures Others(mess, 2, 3)
  {
    hide Number, ModeOf;
    r2, r3 := b2, b3;
    if p.GetIris() == IrisOpen {
      r2 := SetFlag(mess, 2, 1, r2);
    } else if p.GetIris() == IrisClose {
      r2 := SetFlag(mess, 2, 2, r2);
    }
    if p.GetFocus() == FocusNear {
      r2 := SetFlag(mess, 2, 0, r2);
    } else if p.GetFocus() == FocusFar {
      r3 := SetFlag(mess, 3, 7, r3);
    }
  }

  method EncodeSense(mess: array<byte>, p: Packet, ghost b2: seq<bool>) returns (ghost r2: seq<bool>)
    requires mess.Length == 7 && |b2| == 8 && mess[2] == Number(b2) && !b2[3] && !b2[4] && !b2[7]
    modifies mess
    ensures mess[2] == Number(r2) && r2 == b2[3 := CameraBit(p)][4 := p.GetPan() == PanAuto][7 := Sense(p)]
    ensures Others(mess, 2, 2)
  {
    hide Number, ModeOf;
    r2 := b2;
    var cc, pm := p.GetCamera(), p.GetPan();
    if cc == CameraOn || pm == PanAuto {
      r2 := SetFlag(mess, 2, 7, r2);
      if cc == CameraOn { r2 := SetFlag(mess, 2, 3, r2); }
      if pm == PanAuto { r2 := SetFlag(mess, 2, 4, r2); }
    } else if cc == CameraOff {
      r2 := SetFlag(mess, 2, 3, r2);
    }
  }

  // all of encode_command but the checksum
  method EncodeBody(mess: array<byte>, p: Packet)
    requires mess.Length == 7 && InRange(p) && 0 <= p.receiver < 256 && forall i | 0 <= i < 7 :: mess[i] == 0
    modifies mess
    ensures mess[0] == 0xFF && mess[1] == p.receiver && mess[4] == PanByte(p) && mess[5] == TiltByte(p) && mess[6] == 0
    ensures mess[2] == Number(Bits2(p)) && mess[3] == Number(Bits3(p))
  {
    hide Number, ModeOf, Pans, Tilts, Sense, CameraBit, PanByte, TiltByte, SumD, InRange, Command, Bits2, Bits3,
         Packet.GetPan, Packet.GetZoom, Packet.GetFocus, Packet.GetIris, Packet.GetCamera;
    NoBits();
    mess[0] := 0xFF;
    mess[1] := p.receiver;
    ghost var b2, b3 := NO_BITS, NO_BITS;
    b3 := EncodeMoves(mess, p);
    b2, b3 := EncodeLens(mess, p, b2, b3);
    b3 := EncodeZoom(mess, p, b3);
    b2 := EncodeSense(mess, p, b2);
    SameBits2(p, b2);
    SameBits3(p, b3);
  }

  // encode_command, on zeroed bytes
  method EncodeCommand(mess: array<byte>, p: Packet)
    requires mess.Length == 7 && InRange(p) && 0 <= p.receiver < 256 && forall i | 0 <= i < 7 :: mess[i] == 0
    modifies mess
    ensures mess[..] == Command(p)
  {
    hide Number, PanByte, TiltByte, SumD, InRange, Command, Bits2, Bits3;
    EncodeBody(mess, p);
    var m := mess[..];
    IsCommand(m, p);
    mess[6] := SumChecksum(m);
    assert mess[..] == m[6 := mess[6]];
  }

  lemma SameBits2(p: Packet, b: seq<bool>)
    requires b == NO_BITS[0 := p.GetFocus() == FocusNear][1 := p.GetIris() == IrisOpen][2 := p.GetIris() == IrisClose]
                         [3 := CameraBit(p)][4 := p.GetPan() == PanAuto][7 := Sense(p)]
    ensures b == Bits2(p)
  {
    hide ModeOf, Sense, CameraBit;
  }

  lemma SameBits3(p: Packet, b: seq<bool>)
    requires InRange(p)
    requires b == NO_BITS[1 := Pans(p, PanRight)][2 := Pans(p, PanLeft)][3 := Tilts(p, TiltUp)][4 := Tilts(p, TiltDown)]
                         [7 := p.GetFocus() == FocusFar][5 := p.GetZoom() == ZoomIn][6 := p.GetZoom() == ZoomOut]
    ensures b == Bits3(p)
  {
    hide ModeOf, Pans, Tilts, InRange;
  }

  lemma IsCommand(m: seq<byte>, p: Packet)
    requires InRange(p) && 0 <= p.receiver < 256 && |m| == 7
    requires m[0] == 0xFF && m[1] == p.receiver && m[4] == PanByte(p) && m[5] == TiltByte(p) && m[6] == 0
    requires m[2] == Number(Bits2(p)) && m[3] == Number(Bits3(p))
    ensures m[6 := SumD(m)] == Command(p)
  {
    hide Number, Bits2, Bits3, PanByte, TiltByte, SumD, InRange;
    assert m == [0xFF, p.receiver, Pack(Bits2(p)), Pack(Bits3(p)), PanByte(p), TiltByte(p), 0];
  }

  // the bytes that encode_preset and encode_wiper write
  method EncodeExtended(mess: array<byte>, receiver: int, ex: Function, p0: byte)
    requires mess.Length == 7 && 0 <= receiver < 256 && forall i | 0 <= i < 7 :: mess[i] == 0
    modifies mess
    ensures mess[..] == Extended(receiver, ex, p0)
  {
    hide SumD, ExtendedByte, Code;
    mess[0] := 0xFF;
    mess[1] := receiver;
    EncodeFunction(mess, ex);
    mess[5] := p0;
    ghost var m := mess[..];
    assert m == [0xFF, receiver, 0, ExtendedByte(ex), 0, p0, 0];
    mess[6] := SumChecksum(mess[..]);
    assert mess[..] == m[6 := mess[6]];
  }

  // pelco_d_do_write_cb: the menu command is turned into another one in the packet itself, and
  // the messages are appended as far as they find room
  method DoWriteTo(buf: Buffer, pkt: PacketBuffer) returns (n: nat)
    requires buf.Valid() && InRange(pkt.View())
    modifies pkt, buf`pin, buf`appended, buf.base
    ensures var p := old(pkt.View());
      && n == (if 1 <= p.receiver <= 254 then 1 else 0)
      && pkt.View() == (if 1 <= p.receiver <= 254 then AdjustMenu(p) else p)
      && Appended(buf, old(buf.Space()), old(buf.Pending()), DoWrite(p))
  {
    hide Appended, InRange, AdjustMenu, Written, Command, Preset, Wiper;
    NoneAppended(buf);
    if pkt.receiver < 1 || pkt.receiver > 254 { return 0; }
    AdjustRanged(pkt.View());
    ghost var space, was := buf.Space(), buf.Pending();
    AdjustMenuCommands(pkt);
    SendParts(buf, pkt.View(), space, was);
    n := 1;
  }

  method SendParts(buf: Buffer, p: Packet, ghost space: nat, ghost was: seq<byte>)
    requires InRange(p) && 1 <= p.receiver <= 254 && Appended(buf, space, was, [])
    modifies buf`pin, buf`appended, buf.base
    ensures Appended(buf, space, was, Written(p, Command(p), Preset(p), Wiper(p)))
  {
    hide Appended, Commands, Command, Extended, InRange, Packet.GetPreset, Packet.GetWiper, PresetFunction,
         WiperFunction, Written;
    ghost var ms := [];
    if Commands(p) {
      var mess := new byte[7](i => 0);
      EncodeCommand(mess, p);
      ms := AppendMessage(buf, mess[..], space, was, ms);
    }
    if p.GetPreset() != Off {
      var mess := new byte[7](i => 0);
      EncodeExtended(mess, p.receiver, PresetFunction(p.GetPreset()), p.preset % 256);
      ms := AppendMessage(buf, mess[..], space, was, ms);
    }
    if p.GetWiper() != Off {
      var mess := new byte[7](i => 0);
      EncodeExtended(mess, p.receiver, WiperFunction(p.GetWiper()), 1);
      ms := AppendMessage(buf, mess[..], space, was, ms);
    }
    WrittenParts(p, Command(p), Preset(p), Wiper(p));
    assert ms == Written(p, Command(p), Preset(p), Wiper(p));
  }

  // decode_sense
  method DecodeSense(m: seq<byte>, pkt: PacketBuffer)
    requires |m| == 7
    modifies pkt
    ensures pkt.View() == DecodeToggles(CameraIn(m), AutoIn(m), old(pkt.View()))
  {
    hide With, Bit;
    if Bit(m[2], 7) {
      if Bit(m[2], 3) { pkt.SetCamera(CameraOn); }
      if Bit(m[2], 4) { pkt.SetPan(PanAuto, 0); }
    } else {
      if Bit(m[2], 3) { pkt.SetCamera(CameraOff); }
      if Bit(m[2], 4) { pkt.SetPan(PanManual, 0); }
    }
  }

  // pelco_decode_message, for a message that is framed
  method DecodeMessage(m: seq<byte>, pkt: PacketBuffer)
    requires |m| == 7
    modifies pkt
    ensures pkt.View() == Decode(m, old(pkt.View()))
  {
    hide Bit, MotionBits, DecodeToggles, DecodeMotion, DecodeFunction, CameraIn, AutoIn;
    pkt.SetReceiver(m[1]);
    if Bit(m[3], 0) {
      DecodeFunctionInto(ExtendedCode(m[3]), m[5], pkt);
    } else {
      MotionInto(MotionBits(m), pkt);
      DecodeSense(m, pkt);
    }
  }

  lemma DecodeExpire(m: seq<byte>, p: Packet)
    requires |m| == 7
    ensures Decode(m, p).expire == p.expire
  {
    ExpireKept(MotionBits(m), m[1], CameraIn(m), AutoIn(m), ExtendedCode(m[3]), m[5], p);
    ExpireKept(MotionBits(m), m[1], CameraIn(m), AutoIn(m), ExtendedCode(m[3]), m[5], p.SetReceiver(m[1]));
    hide CommandOf, DecodeFunction, Bit, MotionBits, CameraIn, AutoIn;
  }

  // the receiver held before makes no difference
  lemma DecodeAnew(m: seq<byte>, p: Packet, receiver: int)
    requires |m| == 7
    ensures Decode(m, p.SetReceiver(receiver)) == Decode(m, p)
  {
    hide DecodeFunction, DecodeMotion, DecodeToggles, Bit, MotionBits, CameraIn, AutoIn;
    assert p.SetReceiver(receiver).SetReceiver(m[1]) == p.SetReceiver(m[1]);
  }
}
