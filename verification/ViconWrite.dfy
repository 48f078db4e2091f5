/** Building vicon messages byte by byte (src/vicon.c). */
module ViconWriter {
  import opened Powers
  import opened Bytes
  import opened Buffers
  import opened Framing
  import opened Writers
  import opened Ccpacket
  import opened ViconCodec

  const NO_HALF: seq<bool> := [false, false, false, false]

  // The bits of bytes 1 to 5 so far; of bytes 1 and 5 only the upper halves.
  datatype Draft = Draft(b1: seq<bool>, b2: seq<bool>, b3: seq<bool>, b4: seq<bool>, b5: seq<bool>)
  {
    predicate Sized() { |b1| == 4 && |b2| == 8 && |b3| == 8 && |b4| == 8 && |b5| == 4 }

    // with bit k of byte i set
    function Marked(i: nat, k: nat): Draft
      requires Sized() && Marks(i, k)
    {
      match i
      case 1 => this.(b1 := b1[k - 4 := true])
      case 2 => this.(b2 := b2[k := true])
      case 3 => this.(b3 := b3[k := true])
      case 4 => this.(b4 := b4[k := true])
      case _ => this.(b5 := b5[k - 4 := true])
    }
  }

  predicate Marks(i: nat, k: nat) { 1 <= i <= 5 && k < 8 && (i == 1 || i == 5 ==> k >= 4) }

  const EMPTY: Draft := Draft(NO_HALF, NO_BITS, NO_BITS, NO_BITS, NO_HALF)

  // the bytes are as drafted, low being the lower half of byte 1
  predicate Drafted(m: seq<byte>, low: nat, d: Draft) {
    && |m| >= 6 && low < 16 && d.Sized()
    && m[1] == Halves(low, d.b1) && m[2] == Pack(d.b2) && m[3] == Pack(d.b3) && m[4] == Pack(d.b4)
    && m[5] == Halves(0, d.b5)
  }

  twostate predicate Elsewhere(mess: array<byte>)
    reads mess
  {
    forall j | 0 <= j < mess.Length && (j == 0 || j > 5) :: mess[j] == old(mess[j])
  }

  lemma HalvesSet(low: nat, bits: seq<bool>, k: nat)
    requires low < 16 && k < |bits| == 4
    ensures SetBit(Halves(low, bits), 4 + k) == Halves(low, bits[k := true])
  {
    hide Bit, Number, Pow2;
    HighBit(low, bits, k);
    NumberBits(bits, k);
    NumberSet(bits, k);
    FourMore(k);
  }

  lemma FourMore(k: nat)
    ensures Pow2(4 + k) == 16 * Pow2(k)
  {
    assert Pow2(4 + k) == 2 * Pow2(3 + k) && Pow2(3 + k) == 2 * Pow2(2 + k) && Pow2(2 + k) == 2 * Pow2(1 + k);
  }

  lemma PackSet(bits: seq<bool>, k: nat)
    requires k < |bits| == 8
    ensures SetBit(Pack(bits), k) == Pack(bits[k := true])
  {
    NumberSet(bits, k);
  }

  lemma MarkedByte(m: seq<byte>, low: nat, d: Draft, i: nat, k: nat)
    requires Drafted(m, low, d) && Marks(i, k)
    ensures SetBit(m[i], k) < 256 && Drafted(m[i := SetBit(m[i], k)], low, d.Marked(i, k))
  {
    hide Pack, Halves, SetBit;
    if i == 1 { HalvesSet(low, d.b1, k - 4); }
    if i == 2 { PackSet(d.b2, k); }
    if i == 3 { PackSet(d.b3, k); }
    if i == 4 { PackSet(d.b4, k); }
    if i == 5 { HalvesSet(0, d.b5, k - 4); }
  }

  // bit_set(mess, 8 * i + k)
  method Mark(mess: array<byte>, i: nat, k: nat, ghost low: nat, ghost d: Draft) returns (ghost e: Draft)
    requires Drafted(mess[..], low, d) && Marks(i, k)
    modifies mess
    ensures e == d.Marked(i, k) && Drafted(mess[..], low, e) && Elsewhere(mess)
  {
    hide Pack, Halves, SetBit;
    ghost var m := mess[..];
    MarkedByte(m, low, d, i, k);
    e := d.Marked(i, k);
    mess[i] := SetBit(mess[i], k);
    assert mess[..] == m[i := mess[i]];
  }

  // encode_pan_tilt
  method EncodePanTilt(mess: array<byte>, p: Packet, ghost low: nat, ghost d: Draft) returns (ghost e: Draft)
    requires Drafted(mess[..], low, d) && !d.b2[3] && !d.b2[4] && !d.b2[5] && !d.b2[6]
    modifies mess
    ensures Drafted(mess[..], low, e) && Elsewhere(mess)
    ensures e == d.(b2 := d.b2[5 := Pans(p, PanRight)][6 := Pans(p, PanLeft)][4 := Tilts(p, TiltUp)]
      [3 := Tilts(p, TiltDown)])
  {
    hide Drafted, ModeOf;
    DraftSized(mess[..], low, d);
    e := d;
    if p.HasPan() {
      if p.GetPan() == PanLeft {
        e := Mark(mess, 2, 6, low, e);
      } else if p.GetPan() == PanRight {
        e := Mark(mess, 2, 5, low, e);
      }
    }
    if p.HasTilt() {
      if p.GetTilt() == TiltUp {
        e := Mark(mess, 2, 4, low, e);
      } else if p.GetTilt() == TiltDown {
        e := Mark(mess, 2, 3, low, e);
      }
    }
  }

  lemma DraftSized(m: seq<byte>, low: nat, d: Draft)
    requires Drafted(m, low, d)
    ensures d.Sized() && |m| >= 6
  {
  }

  // encode_lens
  method EncodeLens(mess: array<byte>, p: Packet, ghost low: nat, ghost d: Draft) returns (ghost e: Draft)
    requires Drafted(mess[..], low, d) && forall k | 1 <= k <= 6 :: !d.b3[k]
    modifies mess
    ensures Drafted(mess[..], low, e) && Elsewhere(mess)
    ensures e == d.(b3 := d.b3[1 := p.GetIris() == IrisClose][2 := p.GetIris() == IrisOpen]
      [3 := p.GetFocus() == FocusNear]
                               [4 := p.GetFocus() == FocusFar][5 := p.GetZoom() == ZoomIn][6 := p.GetZoom() == ZoomOut])
  {
    hide Drafted, ModeOf, Packet.GetIris, Packet.GetFocus, Packet.GetZoom;
    DraftSized(mess[..], low, d);
    e := EncodeIris(mess, p, low, d);
    e := EncodeFocus(mess, p, low, e);
    e := EncodeZoom(mess, p, low, e);
  }

  method EncodeIris(mess: array<byte>, p: Packet, ghost low: nat, ghost d: Draft) returns (ghost e: Draft)
    requires Drafted(mess[..], low, d) && !d.b3[1] && !d.b3[2]
    modifies mess
    ensures Drafted(mess[..], low, e) && Elsewhere(mess)
    ensures e == d.(b3 := d.b3[1 := p.GetIris() == IrisClose][2 := p.GetIris() == IrisOpen])
  {
    hide Drafted, ModeOf;
    DraftSized(mess[..], low, d);
    e := d;
    if p.GetIris() == IrisOpen {
      e := Mark(mess, 3, 2, low, e);
    } else if p.GetIris() == IrisClose {
      e := Mark(mess, 3, 1, low, e);
    }
  }

  method EncodeFocus(mess: array<byte>, p: Packet, ghost low: nat, ghost d: Draft) returns (ghost e: Draft)
    requires Drafted(mess[..], low, d) && !d.b3[3] && !d.b3[4]
    modifies mess
    ensures Drafted(mess[..], low, e) && Elsewhere(mess)
    ensures e == d.(b3 := d.b3[3 := p.GetFocus() == FocusNear][4 := p.GetFocus() == FocusFar])
  {
    hide Drafted, ModeOf;
    DraftSized(mess[..], low, d);
    e := d;
    if p.GetFocus() == FocusNear {
      e := Mark(mess, 3, 3, low, e);
    } else if p.GetFocus() == FocusFar {
      e := Mark(mess, 3, 4, low, e);
    }
  }

  method EncodeZoom(mess: array<byte>, p: Packet, ghost low: nat, ghost d: Draft) returns (ghost e: Draft)
    requires Drafted(mess[..], low, d) && !d.b3[5] && !d.b3[6]
    modifies mess
    ensures Drafted(mess[..], low, e) && Elsewhere(mess)
    ensures e == d.(b3 := d.b3[5 := p.GetZoom() == ZoomIn][6 := p.GetZoom() == ZoomOut])
  {
    hide Drafted, ModeOf;
    DraftSized(mess[..], low, d);
    e := d;
    if p.GetZoom() == ZoomIn {
      e := Mark(mess, 3, 5, low, e);
    } else if p.GetZoom() == ZoomOut {
      e := Mark(mess, 3, 6, low, e);
    }
  }

  // encode_toggles
  method EncodeToggles(mess: array<byte>, p: Packet, ghost low: nat, ghost d: Draft) returns (ghost e: Draft)
    requires Drafted(mess[..], low, d) && !d.b1[1] && !d.b2[1] && !d.b2[2] && !d.b3[0]
    modifies mess
    ensures Drafted(mess[..], low, e) && Elsewhere(mess)
    ensures e == d.(b1 := d.b1[1 := p.GetAck() == AckAlarm], b2 := d.b2[1 := p.GetIris() == IrisAuto]
      [2 := p.GetPan() == PanAuto],
                    b3 := d.b3[0 := p.GetLens() == LensSpeed])
  {
    hide Drafted, ModeOf, Packet.GetAck, Packet.GetIris, Packet.GetPan, Packet.GetLens;
    DraftSized(mess[..], low, d);
    e := d;
    if p.GetAck() == AckAlarm { e := Mark(mess, 1, 5, low, e); }
    if p.GetIris() == IrisAuto { e := Mark(mess, 2, 1, low, e); }
    if p.GetPan() == PanAuto { e := Mark(mess, 2, 2, low, e); }
    if p.GetLens() == LensSpeed { e := Mark(mess, 3, 0, low, e); }
  }

  // encode_aux
  method EncodeAux(mess: array<byte>, p: Packet, ghost low: nat, ghost d: Draft) returns (ghost e: Draft)
    requires Drafted(mess[..], low, d) && !d.b4[1]
    modifies mess
    ensures Drafted(mess[..], low, e) && Elsewhere(mess) && e == d.(b4 := d.b4[1 := p.GetWiper() == WiperOn])
  {
    hide Drafted, ModeOf;
    DraftSized(mess[..], low, d);
    e := d;
    if p.GetWiper() == WiperOn { e := Mark(mess, 4, 1, low, e); }
  }

  // encode_preset, up to the number
  method EncodePresetMode(mess: array<byte>, p: Packet, ghost low: nat, ghost d: Draft) returns (ghost e: Draft)
    requires Drafted(mess[..], low, d) && !d.b5[1] && !d.b5[2]
    modifies mess
    ensures Drafted(mess[..], low, e) && Elsewhere(mess)
    ensures e == d.(b5 := d.b5[1 := p.GetPreset() == Recall][2 := p.GetPreset() == Store])
  {
    hide Drafted, ModeOf;
    DraftSized(mess[..], low, d);
    e := d;
    if p.GetPreset() == Recall {
      e := Mark(mess, 5, 5, low, e);
    } else if p.GetPreset() == Store {
      e := Mark(mess, 5, 6, low, e);
    }
  }

  // the draft that the first five bytes come to
  function Headers(p: Packet, extended: bool, moves: bool, b5: seq<bool>): Draft {
    Draft([true, p.GetAck() == AckAlarm, extended, false], Bits2(p, moves), Bits3(p), Bits4(p), b5)
  }

  lemma EmptyDrafted(m: seq<byte>, low: nat)
    requires |m| >= 6 && low < 16 && m[1] == low && m[2] == 0 && m[3] == 0 && m[4] == 0 && m[5] == 0
    ensures Drafted(m, low, EMPTY)
  {
    NoBits();
    assert Number(NO_HALF) == 0;
  }

  // encode_receiver
  method EncodeReceiver(mess: array<byte>, p: Packet)
    requires mess.Length >= 6 && 0 <= p.receiver < 256 && forall i | 0 <= i < mess.Length :: mess[i] == 0
    modifies mess
    ensures mess[0] == Byte0(p) && Drafted(mess[..], p.receiver % 16, EMPTY)
    ensures forall i | 6 <= i < mess.Length :: mess[i] == 0
  {
    assert Number([false, false, false, true]) == 8 by { assert [false, false, false, true][1..][1..][1..] == [true]; }
    mess[0] := 128 + p.receiver / 16;
    mess[1] := p.receiver % 16;
    EmptyDrafted(mess[..], p.receiver % 16);
  }

  // the draft before and after the lens, toggle and auxiliary bits
  function Moving(p: Packet, extended: bool, moves: bool): Draft {
    Draft([true, false, extended, false],
          NO_BITS[5 := moves && Pans(p, PanRight)][6 := moves && Pans(p, PanLeft)][4 := moves && Tilts(p, TiltUp)]
            [3 := moves && Tilts(p, TiltDown)],
          NO_BITS, NO_BITS, NO_HALF)
  }

  // what all three forms begin with
  method EncodeHead(mess: array<byte>, p: Packet, extended: bool, moves: bool)
    requires mess.Length >= 6 && 0 <= p.receiver < 256 && forall i | 0 <= i < mess.Length :: mess[i] == 0
    modifies mess
    ensures mess[0] == Byte0(p) && Drafted(mess[..], p.receiver % 16, Headers(p, extended, moves, NO_HALF))
    ensures forall i | 6 <= i < mess.Length :: mess[i] == 0
  {
    hide Drafted, ModeOf, Byte0, Pans, Tilts, Headers;
    EncodeReceiver(mess, p);
    ghost var e := EncodeMoves(mess, p, extended, moves);
    EncodeRest(mess, p, extended, moves);
  }

  method EncodeMoves(mess: array<byte>, p: Packet, extended: bool, moves: bool) returns (ghost e: Draft)
    requires Drafted(mess[..], p.receiver % 16, EMPTY)
    modifies mess
    ensures e == Moving(p, extended, moves) && Drafted(mess[..], p.receiver % 16, e) && Elsewhere(mess)
  {
    hide Drafted, ModeOf, Pans, Tilts;
    ghost var low := p.receiver % 16;
    e := EMPTY;
    e := Mark(mess, 1, 4, low, e);
    if extended { e := Mark(mess, 1, 6, low, e); }
    assert e.b1 == [true, false, extended, false];
    if moves { e := EncodePanTilt(mess, p, low, e); }
  }

  method EncodeRest(mess: array<byte>, p: Packet, ghost extended: bool, ghost moves: bool)
    requires Drafted(mess[..], p.receiver % 16, Moving(p, extended, moves))
    modifies mess
    ensures Drafted(mess[..], p.receiver % 16, Headers(p, extended, moves, NO_HALF)) && Elsewhere(mess)
  {
    hide Drafted, ModeOf, Pans, Tilts, Headers;
    ghost var low, e := p.receiver % 16, Moving(p, extended, moves);
    e := EncodeLens(mess, p, low, e);
    e := EncodeToggles(mess, p, low, e);
    e := EncodeAux(mess, p, low, e);
    Bits2Reached(p, moves, e.b2);
    Bits3Reached(p, e.b3);
    HeadersReached(p, extended, moves, e);
  }

  lemma Bits2Reached(p: Packet, moves: bool, b: seq<bool>)
    requires b == NO_BITS[5 := moves && Pans(p, PanRight)][6 := moves && Pans(p, PanLeft)]
      [4 := moves && Tilts(p, TiltUp)]
                         [3 := moves && Tilts(p, TiltDown)][1 := p.GetIris() == IrisAuto][2 := p.GetPan() == PanAuto]
    ensures b == Bits2(p, moves)
  {
    hide ModeOf, Pans, Tilts;
  }

  lemma Bits3Reached(p: Packet, b: seq<bool>)
    requires b == NO_BITS[1 := p.GetIris() == IrisClose][2 := p.GetIris() == IrisOpen][3 := p.GetFocus() == FocusNear]
                         [4 := p.GetFocus() == FocusFar][5 := p.GetZoom() == ZoomIn][6 := p.GetZoom() == ZoomOut]
                           [0 := p.GetLens() == LensSpeed]
    ensures b == Bits3(p)
  {
    hide ModeOf;
  }

  lemma HeadersReached(p: Packet, extended: bool, moves: bool, e: Draft)
    requires e.b1 == [true, false, extended, false][1 := p.GetAck() == AckAlarm]
    requires e.b2 == Bits2(p, moves) && e.b3 == Bits3(p) && e.b4 == NO_BITS[1 := p.GetWiper() == WiperOn]
      && e.b5 == NO_HALF
    ensures e == Headers(p, extended, moves, NO_HALF)
  {
    hide ModeOf, Bits2, Bits3;
  }

  // --- the three forms ---

  lemma DraftHead(m: seq<byte>, p: Packet, extended: bool, moves: bool, b5: seq<bool>)
    requires |b5| == 4 && 0 <= p.receiver < 256
    requires Drafted(m, p.receiver % 16, Headers(p, extended, moves, b5)) && m[0] == Byte0(p)
    ensures m[..5] == Head(p, extended, moves) && m[5] == Halves(0, b5)
  {
    hide Pack, Halves, Bits2, Bits3, Bits4;
  }

  lemma PresetByte(p: Packet)
    ensures var b := NO_HALF[1 := p.GetPreset() == Recall][2 := p.GetPreset() == Store];
      Byte5(p) == Halves(0, b) + p.preset % 16
  {
    hide ModeOf, Number;
    var b := NO_HALF[1 := p.GetPreset() == Recall][2 := p.GetPreset() == Store];
    assert b == [false, p.GetPreset() == Recall, p.GetPreset() == Store, false];
  }

  // encode_preset
  method EncodePreset(mess: array<byte>, p: Packet, extended: bool)
    requires 0 <= p.receiver < 256 && mess.Length >= 6
    requires mess[0] == Byte0(p) && Drafted(mess[..], p.receiver % 16, Headers(p, extended, true, NO_HALF))
    modifies mess
    ensures mess[..6] == Head(p, extended, true) + [Byte5(p)]
    ensures forall i | 6 <= i < mess.Length :: mess[i] == old(mess[i])
  {
    hide Drafted, ModeOf, Byte0, Byte5, Head, Bits2, Bits3, Bits4;
    ghost var e := EncodePresetMode(mess, p, p.receiver % 16, Headers(p, extended, true, NO_HALF));
    DraftHead(mess[..], p, extended, true, e.b5);
    PresetByte(p);
    ghost var head := mess[..5];
    mess[5] := mess[5] + p.preset % 16;
    assert mess[..6] == head + [mess[5]];
  }

  // encode_command
  method EncodeCommand(mess: array<byte>, p: Packet)
    requires mess.Length == 6 && 0 <= p.receiver < 256 && forall i | 0 <= i < 6 :: mess[i] == 0
    modifies mess
    ensures mess[..] == Command(p)
  {
    hide Drafted, Byte0, Byte5, Head, Headers;
    EncodeHead(mess, p, false, true);
    EncodePreset(mess, p, false);
    assert mess[..] == mess[..6];
  }

  // encode_extended_speed
  method EncodeExtendedSpeed(mess: array<byte>, p: Packet)
    requires mess.Length == 10 && 0 <= p.receiver < 256 && forall i | 0 <= i < 10 :: mess[i] == 0
    modifies mess
    ensures mess[..] == ExSpeed(p)
  {
    hide Drafted, Byte0, Byte5, Head, Headers;
    EncodeHead(mess, p, true, true);
    EncodePreset(mess, p, true);
    ghost var head := mess[..6];
    SpeedHigh(p.pan);
    SpeedHigh(p.tilt);
    mess[6] := p.pan % 2048 / 128;
    mess[7] := p.pan % 2048 % 128;
    mess[8] := p.tilt % 2048 / 128;
    mess[9] := p.tilt % 2048 % 128;
    assert mess[..] == head + [High(p.pan), Low(p.pan), High(p.tilt), Low(p.tilt)];
    assert Head(p, true, true) + SpeedTail(p) == Head(p, true, true) + [Byte5(p)]
      + [High(p.pan), Low(p.pan), High(p.tilt), Low(p.tilt)];
  }

  lemma SpeedHigh(speed: int)
    ensures High(speed) == speed % 2048 / 128 && Low(speed) == speed % 2048 % 128
  {
    assert Number(NO_HALF) == 0;
    assert NO_HALF == [false, false, false, false];
  }

  // encode_extended_preset
  method EncodeExtendedPreset(mess: array<byte>, p: Packet)
    requires mess.Length == 10 && 0 <= p.receiver < 256 && forall i | 0 <= i < 10 :: mess[i] == 0
    modifies mess
    ensures mess[..] == ExPreset(p)
  {
    hide Drafted, Byte0, Head, ModeOf, Bits2, Bits3, Bits4, Number;
    EncodeHead(mess, p, true, false);
    DraftHead(mess[..], p, true, false, NO_HALF);
    NoBits();
    NoPreset();
    ghost var head, b6 := mess[..6], NO_BITS;
    b6 := SetFlag(mess, 6, 4, b6);
    if p.GetPreset() == Store { b6 := SetFlag(mess, 6, 0, b6); }
    assert b6 == [p.GetPreset() == Store, false, false, false, true, false, false, false];
    mess[7] := p.preset % 128;
    mess[8] := p.pan % 128;
    mess[9] := p.tilt % 128;
    assert mess[..6] == head;
    assert mess[..] == head + [mess[6], mess[7], mess[8], mess[9]];
    assert head == Head(p, true, false) + [0];
  }

  lemma NoPreset()
    ensures Halves(0, NO_HALF) == 0
  {
    assert Number(NO_HALF) == 0;
  }

  method AdjustMenuCommands(pkt: PacketBuffer)
    modifies pkt
    ensures pkt.View() == AdjustMenu(old(pkt.View()))
  {
    hide With, ModeOf, Packet.SetPreset;
    var mc := pkt.View().GetMenu();
    if mc == MenuOpen {
      pkt.SetPreset(Store, 94);
    } else if mc == MenuEnter {
      pkt.SetPan(PanAuto, 0);
    } else if mc == MenuCancel {
      pkt.SetIris(IrisAuto);
    }
  }

  method EncodeForm(p: Packet) returns (mess: array<byte>)
    requires 0 <= p.receiver < 256
    ensures fresh(mess) && mess[..] == Form(p)
  {
    hide Command, ExSpeed, ExPreset, IsExtendedPreset, IsExtendedSpeed;
    var size := if IsExtendedPreset(p) || IsExtendedSpeed(p) then 10 else 6;
    mess := new byte[size](i => 0);
    if IsExtendedPreset(p) {
      EncodeExtendedPreset(mess, p);
    } else if IsExtendedSpeed(p) {
      EncodeExtendedSpeed(mess, p);
    } else {
      EncodeCommand(mess, p);
    }
  }

  // vicon_do_write: the menu command is turned into another one in the packet itself, and
  // the message is appended if it finds room
  method DoWriteTo(buf: Buffer, pkt: PacketBuffer) returns (n: nat)
    requires buf.Valid()
    modifies pkt, buf`pin, buf`appended, buf.base
    ensures var p := old(pkt.View());
      && n == (if 1 <= p.receiver <= 255 then 1 else 0)
      && pkt.View() == (if 1 <= p.receiver <= 255 then AdjustMenu(p) else p)
      && Appended(buf, old(buf.Space()), old(buf.Pending()), DoWrite(p))
  {
    hide Appended, Form, AdjustMenu;
    NoneAppended(buf);
    if pkt.receiver < 1 || pkt.receiver > 255 { return 0; }
    AdjustKeeps(pkt.View());
    ghost var space, was := buf.Space(), buf.Pending();
    AdjustMenuCommands(pkt);
    var mess := EncodeForm(pkt.View());
    ghost var ms := AppendMessage(buf, mess[..], space, was, []);
    assert ms == [mess[..]];
    n := 1;
  }
}
