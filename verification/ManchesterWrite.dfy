/** Writing packets in the manchester protocol (src/manchester.c). */
module ManchesterWriter {
  import opened Bytes
  import opened Buffers
  import opened Writers
  import opened Ccpacket
  import opened ManchesterCodec

  // Since the buffer held `was` and had this space, messages with these contents for the
  // receiver were appended.
  ghost predicate Put(buf: Buffer, space: nat, was: seq<byte>, receiver: int, xs: seq<Content>)
    reads buf, buf.base
  {
    1 <= receiver <= 1024 && (forall x <- xs :: Fit(x)) && Appended(buf, space, was, Encoded(receiver, xs))
  }

  lemma {:induction false} EncodedMore(receiver: int, xs: seq<Content>, x: Content)
    requires 1 <= receiver <= 1024 && (forall y <- xs :: Fit(y)) && Fit(x)
    ensures Encoded(receiver, xs + [x]) == Encoded(receiver, xs) + [Encode(receiver, x)]
  {
    hide Encode;
    if xs == [] {
      assert xs + [x] == [x] && [x][1..] == [];
    } else {
      assert (xs + [x])[1..] == xs[1..] + [x];
      EncodedMore(receiver, xs[1..], x);
    }
  }

  // encode_receiver and one message on top of it
  method EncodeMessage(mess: array<byte>, receiver: int, x: Content)
    requires mess.Length == 3 && 1 <= receiver <= 1024 && Fit(x)
    modifies mess
    ensures mess[..] == Encode(receiver, x)
  {
    var rdr := receiver - 1;
    mess[0] := 128 + rdr / 64 % 16;
    mess[1] := rdr / 32 % 2;
    mess[2] := rdr % 32 * 4;
    mess[1] := mess[1] + 16 * x.cmnd + 2 * x.extra;
    if x.pt { mess[2] := mess[2] + 2; }
  }

  method Send(buf: Buffer, x: Content, ghost space: nat, ghost was: seq<byte>, receiver: int, ghost xs: seq<Content>)
    returns (ghost ys: seq<Content>)
    requires Put(buf, space, was, receiver, xs) && Fit(x)
    modifies buf`pin, buf`appended, buf.base
    ensures ys == xs + [x] && Put(buf, space, was, receiver, ys)
  {
    hide Appended, Encode, Encoded;
    EncodedMore(receiver, xs, x);
    var mess := new byte[3](i => 0);
    EncodeMessage(mess, receiver, x);
    ghost var more := AppendMessage(buf, mess[..], space, was, Encoded(receiver, xs));
    ys := xs + [x];
  }

  // encode_pan, when the packet has pan
  method EncodePan(buf: Buffer, p: Packet, ghost space: nat, ghost was: seq<byte>, ghost xs: seq<Content>)
    returns (ghost ys: seq<Content>)
    requires Put(buf, space, was, p.receiver, xs)
    modifies buf`pin, buf`appended, buf.base
    ensures ys == xs + If(Pans(p), PanContent(p)) && Put(buf, space, was, p.receiver, ys)
  {
    hide Put, ModeOf, Level;
    ys := xs;
    if p.HasPan() {
      var speed := EncodeSpeed(p.pan);
      LevelSmall(p.pan);
      if p.GetPan() == PanLeft {
        ys := Send(buf, if speed == SPEED_FULL then Content(false, 0, 7) else Content(true, 2, speed), space, was,
          p.receiver, ys);
      } else if p.GetPan() == PanRight {
        ys := Send(buf, if speed == SPEED_FULL then Content(false, 1, 1) else Content(true, 3, speed), space, was,
          p.receiver, ys);
      }
    }
    assert xs + [] == xs;
  }

  lemma LevelSmall(speed: int)
    ensures Level(speed) <= 7
  {
  }

  // encode_tilt, when the packet has a tilt speed
  method EncodeTilt(buf: Buffer, p: Packet, ghost space: nat, ghost was: seq<byte>, ghost xs: seq<Content>)
    returns (ghost ys: seq<Content>)
    requires Put(buf, space, was, p.receiver, xs)
    modifies buf`pin, buf`appended, buf.base
    ensures ys == xs + If(Tilts(p), TiltContent(p)) && Put(buf, space, was, p.receiver, ys)
  {
    hide Put, ModeOf, Level;
    ys := xs;
    if p.tilt != 0 {
      var speed := EncodeSpeed(p.tilt);
      LevelSmall(p.tilt);
      if p.GetTilt() == TiltDown {
        ys := Send(buf, if speed == SPEED_FULL then Content(false, 0, 0) else Content(true, 0, speed), space, was,
          p.receiver, ys);
      } else if p.GetTilt() == TiltUp {
        ys := Send(buf, if speed == SPEED_FULL then Content(false, 1, 0) else Content(true, 1, speed), space, was,
          p.receiver, ys);
      }
    }
    assert xs + [] == xs;
  }

  // encode_zoom, encode_focus, encode_iris
  method EncodeZoom(buf: Buffer, p: Packet, ghost space: nat, ghost was: seq<byte>, ghost xs: seq<Content>)
    returns (ghost ys: seq<Content>)
    requires Put(buf, space, was, p.receiver, xs)
    modifies buf`pin, buf`appended, buf.base
    ensures ys == xs + ZoomContents(p) && Put(buf, space, was, p.receiver, ys)
  {
    hide Put, ModeOf;
    ModeFits(p.flags, ForZoom);
    ys := xs;
    if p.GetZoom() == ZoomOut {
      ys := Send(buf, Content(false, 0, 6), space, was, p.receiver, ys);
    } else if p.GetZoom() == ZoomIn {
      ys := Send(buf, Content(false, 0, 3), space, was, p.receiver, ys);
    }
  }

  method EncodeFocus(buf: Buffer, p: Packet, ghost space: nat, ghost was: seq<byte>, ghost xs: seq<Content>)
    returns (ghost ys: seq<Content>)
    requires Put(buf, space, was, p.receiver, xs)
    modifies buf`pin, buf`appended, buf.base
    ensures ys == xs + FocusContents(p) && Put(buf, space, was, p.receiver, ys)
  {
    hide Put, ModeOf;
    ys := xs;
    if p.GetFocus() == FocusNear {
      ys := Send(buf, Content(false, 0, 5), space, was, p.receiver, ys);
    } else if p.GetFocus() == FocusFar {
      ys := Send(buf, Content(false, 0, 2), space, was, p.receiver, ys);
    }
  }

  method EncodeIris(buf: Buffer, p: Packet, ghost space: nat, ghost was: seq<byte>, ghost xs: seq<Content>)
    returns (ghost ys: seq<Content>)
    requires Put(buf, space, was, p.receiver, xs)
    modifies buf`pin, buf`appended, buf.base
    ensures ys == xs + IrisContents(p) && Put(buf, space, was, p.receiver, ys)
  {
    hide Put, ModeOf;
    ys := xs;
    if p.GetIris() == IrisClose {
      ys := Send(buf, Content(false, 0, 4), space, was, p.receiver, ys);
    } else if p.GetIris() == IrisOpen {
      ys := Send(buf, Content(false, 0, 1), space, was, p.receiver, ys);
    }
  }

  // encode_aux
  method EncodeAux(buf: Buffer, p: Packet, ghost space: nat, ghost was: seq<byte>, ghost xs: seq<Content>)
    returns (ghost ys: seq<Content>)
    requires Put(buf, space, was, p.receiver, xs)
    modifies buf`pin, buf`appended, buf.base
    ensures ys == xs + AuxContents(p) && Put(buf, space, was, p.receiver, ys)
  {
    hide Put, ModeOf;
    ModeFits(p.flags, ForCamera);
    ys := xs;
    if p.GetCamera() == CameraOff {
      ys := Send(buf, Content(false, 1, 2), space, was, p.receiver, ys);
    } else if p.GetCamera() == CameraOn {
      ys := Send(buf, Content(false, 1, 3), space, was, p.receiver, ys);
    } else if p.GetWiper() == WiperOn {
      ys := Send(buf, Content(false, 1, 7), space, was, p.receiver, ys);
    }
  }

  // encode_preset
  method EncodePreset(buf: Buffer, p: Packet, ghost space: nat, ghost was: seq<byte>, ghost xs: seq<Content>)
    returns (ghost ys: seq<Content>)
    requires Put(buf, space, was, p.receiver, xs)
    modifies buf`pin, buf`appended, buf.base
    ensures ys == xs + PresetContents(p) && Put(buf, space, was, p.receiver, ys)
  {
    hide Put, ModeOf;
    ys := xs;
    assert xs + [] == xs;
    if p.preset < 1 || p.preset > 8 { return; }
    if p.GetPreset() == Recall {
      ys := Send(buf, Content(false, 2, p.preset - 1), space, was, p.receiver, ys);
    } else if p.GetPreset() == Store {
      ys := Send(buf, Content(false, 3, p.preset - 1), space, was, p.receiver, ys);
    }
  }

  // manchester_do_write
  method DoWriteTo(buf: Buffer, p: Packet) returns (n: nat)
    requires buf.Valid()
    modifies buf`pin, buf`appended, buf.base
    ensures n == if 1 <= p.receiver <= 1024 then 1 else 0
    ensures Appended(buf, old(buf.Space()), old(buf.Pending()), DoWrite(p))
  {
    hide Put, Appended, If, Pans, Tilts, PanContent, TiltContent, ZoomContents, FocusContents, IrisContents,
         AuxContents, PresetContents;
    ghost var space, was := buf.Space(), buf.Pending();
    NoneAppended(buf);
    if p.receiver < 1 || p.receiver > 1024 { return 0; }
    NothingPut(buf, p.receiver);
    ghost var xs := EncodePan(buf, p, space, was, []);
    xs := EncodeTilt(buf, p, space, was, xs);
    xs := EncodeZoom(buf, p, space, was, xs);
    xs := EncodeFocus(buf, p, space, was, xs);
    xs := EncodeIris(buf, p, space, was, xs);
    xs := EncodeAux(buf, p, space, was, xs);
    xs := EncodePreset(buf, p, space, was, xs);
    assert xs == Contents(p);
    AllPut(buf, space, was, p);
    n := 1;
  }

  lemma NothingPut(buf: Buffer, receiver: int)
    requires buf.Valid() && 1 <= receiver <= 1024
    ensures Put(buf, buf.Space(), buf.Pending(), receiver, [])
  {
    NoneAppended(buf);
  }

  lemma AllPut(buf: Buffer, space: nat, was: seq<byte>, p: Packet)
    requires Put(buf, space, was, p.receiver, Contents(p))
    ensures Appended(buf, space, was, DoWrite(p))
  {
    hide Contents, Appended, Encoded;
  }
}
