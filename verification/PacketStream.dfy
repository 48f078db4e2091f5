/** Whole streams of packets, from writer to reader, over the three protocols that
    process a message at a time. */
module PacketStream {
  import opened Bytes
  import opened Framing
  import opened Readers
  import opened Ccpacket
  import opened Codec
  import opened Pelco
  import opened PacketReader
  import D = PelcoD
  import P = PelcoP
  import V = ViconCodec
  import W = ViconReader

  // --- pelco_d and pelco_p ---

  // whether the reader has a deadzone
  function Dead(r: Reader): bool { r.OverPelcoP? && r.deadzone }

  function Command(r: Reader, p: Ranged): seq<byte>
    requires 0 <= p.receiver < 256
  {
    if r.OverPelcoD? then D.Command(p) else P.Command(p)
  }

  function Preset(r: Reader, p: Ranged): seq<byte>
    requires 0 <= p.receiver < 256
  {
    if r.OverPelcoD? then D.Preset(p) else P.Preset(p)
  }

  function Wiper(r: Reader, p: Ranged): seq<byte>
    requires 0 <= p.receiver < 256
  {
    if r.OverPelcoD? then D.Wiper(p) else P.Wiper(p)
  }

  // pelco_d_do_write, pelco_p_do_write
  function DoWrite(r: Reader, p: Ranged): seq<seq<byte>> {
    if r.OverPelcoD? then D.DoWrite(p) else P.DoWrite(p)
  }

  // what the protocol can express
  predicate Expressible(r: Reader, p: Packet) {
    Sendable(p) && !(r.OverPelcoD? && p.GetCamera() == CameraOff && p.GetPan() == PanAuto)
  }

  lemma DoWriteIs(r: Reader, p: Ranged)
    requires Expressible(r, Asked(p))
    ensures var q := Asked(p);
      && InRange(q) && 1 <= q.receiver <= 254
      && DoWrite(r, p) == Written(q, Command(r, q), Preset(r, q), Wiper(r, q))
  {
    hide Written, D.Command, P.Command, D.Preset, P.Preset, D.Wiper, P.Wiper, D.DoWrite, P.DoWrite, Asked, Plain,
         Parts, InRange, Packet.GetPreset, Packet.GetCamera, Packet.GetPan, AdjustMenu;
    AskedFor(p);
    if r.OverPelcoD? { D.DoWriteIs(p); } else { P.DoWriteIs(p); }
  }

  lemma MessagesOk(r: Reader, p: Ranged)
    requires !r.OverVicon? && 0 <= p.receiver < 256
    ensures forall m <- [Command(r, p), Preset(r, p), Wiper(r, p)] :: Message(Of(r), m) && Telling(r, m)
  {
    hide D.Command, P.Command, D.Preset, P.Preset, D.Wiper, P.Wiper, Message;
    if r.OverPelcoD? { D.MessagesOk(p); } else { P.MessagesOk(p); }
  }

  // each message of a packet arrives
  lemma PartsArrive(r: Reader, p: Ranged, c: Packet)
    requires !r.OverVicon? && Expressible(r, p) && Blank(c) && 0 <= p.receiver < 256
    ensures Telling(r, Command(r, p)) && Relayed(p, Decode(r, Command(r, p), c), Dead(r))
    ensures p.GetPreset() != Off ==>
      Telling(r, Preset(r, p)) && OnlyPreset(Decode(r, Preset(r, p), c), p.receiver, p.GetPreset(), p.preset)
    ensures p.GetWiper() != Off ==>
      Telling(r, Wiper(r, p)) && OnlyWiper(Decode(r, Wiper(r, p), c), p.receiver, p.GetWiper())
  {
    hide D.Command, P.Command, D.Preset, P.Preset, D.Wiper, P.Wiper, D.Decode, P.Decode, Relayed, OnlyPreset,
         OnlyWiper, Parts, InRange, Blank, Packet.GetPreset, Packet.GetWiper, Packet.GetCamera, Packet.GetPan, Plain;
    if r.OverPelcoD? {
      D.CommandRoundTrip(p, c);
      if p.GetPreset() != Off { D.PresetRoundTrip(p, c); }
      if p.GetWiper() != Off { D.WiperRoundTrip(p, c); }
    } else {
      P.CommandRoundTrip(p, r.deadzone, c);
      if p.GetPreset() != Off { P.PresetRoundTrip(p, r.deadzone, c); }
      if p.GetWiper() != Off { P.WiperRoundTrip(p, r.deadzone, c); }
    }
  }

  lemma PacketDelivered(r: Reader, p: Ranged, c: Packet)
    requires !r.OverVicon? && Expressible(r, Asked(p)) && Blank(c)
    ensures InRange(Asked(p)) && |DoWrite(r, p)| == Parts(Asked(p)) && forall m <- DoWrite(r, p) :: Message(Of(r), m)
    ensures Delivered(Asked(p), Received(r, DoWrite(r, p), c), Dead(r))
  {
    hide *;
    DoWriteIs(r, p);
    var q := Asked(p);
    MessagesOk(r, q);
    WrittenAt(q, Command(r, q), Preset(r, q), Wiper(r, q));
    PartsArrive(r, q, c);
    ReceivedEach(r, DoWrite(r, p), c);
    DeliveredBy(q, Received(r, DoWrite(r, p), c), Dead(r));
  }

  function Sent(r: Reader, ps: seq<Ranged>): seq<seq<byte>> {
    if ps == [] then [] else DoWrite(r, ps[0]) + Sent(r, ps[1..])
  }

  // packet by packet, everything asked for is delivered and nothing else
  predicate AllDelivered(ps: seq<Packet>, qs: seq<Packet>, dead: bool) {
    if ps == [] then qs == []
    else
      var k := Parts(Asked(ps[0]));
      && k <= |qs| && InRange(Asked(ps[0])) && Delivered(Asked(ps[0]), qs[..k], dead)
      && AllDelivered(ps[1..], qs[k..], dead)
  }

  // Round trip of whole streams over pelco_d, and over pelco_p to a reader with or without
  // deadzone: packets sent back to back are framed without a byte dropped and delivered in
  // order, a menu command as the command that it is turned into.
  lemma {:induction false} StreamRoundTrip(r: Reader, ps: seq<Ranged>, c: Packet)
    requires !r.OverVicon? && (forall p <- ps :: Expressible(r, Asked(p))) && Blank(c)
    ensures forall m <- Sent(r, ps) :: Message(Of(r), m)
    ensures Parse(Of(r), Flatten(Sent(r, ps))) == (Sent(r, ps), [])
    ensures AllDelivered(ps, Received(r, Sent(r, ps), c), Dead(r))
  {
    hide DoWrite, Delivered, Expressible, Message, Blank, Received, Parse, Flatten, Parts, Of, Dead, Asked, InRange;
    if ps == [] {
      NoneReceived(r, c);
    } else {
      var a, b := DoWrite(r, ps[0]), Sent(r, ps[1..]);
      PacketDelivered(r, ps[0], c);
      DeliveredLength(Asked(ps[0]), Received(r, a, c), Dead(r));
      StreamRoundTrip(r, ps[1..], c);
      ReceivedPlus(r, a, b, c);
      assert Received(r, a + b, c)[..|Received(r, a, c)|] == Received(r, a, c);
      assert Received(r, a + b, c)[|Received(r, a, c)|..] == Received(r, b, c);
    }
    ParseMessages(Of(r), Sent(r, ps));
  }

  lemma DeliveredLength(p: Ranged, qs: seq<Packet>, dead: bool)
    requires Delivered(p, qs, dead)
    ensures |qs| == Parts(p)
  {
  }

  // --- vicon ---

  lemma WrittenLong(p: Packet)
    ensures forall m <- V.DoWrite(p) :: Telling(OverVicon, m)
  {
    hide V.Form, V.AdjustMenu, Message;
    if 1 <= p.receiver <= 255 { V.WrittenFlags(p); }
  }

  lemma {:induction false} SentLong(ps: seq<Packet>)
    ensures forall m <- V.Sent(ps) :: Telling(OverVicon, m)
  {
    hide V.DoWrite, Telling;
    if ps != [] {
      WrittenLong(ps[0]);
      SentLong(ps[1..]);
    }
  }

  // Packets sent back to back over vicon arrive one by one, in order, menu commands as those
  // that they are turned into, and nothing else arrives.
  lemma ViconArrives(ps: seq<Packet>, c: Packet)
    requires (forall p <- ps :: V.Expressible(V.Asked(p))) && Blank(c)
    ensures var out := Received(OverVicon, Parse(Protocol.Vicon, Flatten(V.Sent(ps))).0, c);
      |out| == |ps| && forall i | 0 <= i < |ps| :: V.Delivered(V.Asked(ps[i]), out[i])
  {
    hide V.Expressible, V.Asked, Blank, V.Delivered, Received, Parse, Flatten, V.Sent, V.Decode, Telling;
    V.StreamRoundTrip(ps, c);
    SentLong(ps);
    ReceivedEach(OverVicon, V.Sent(ps), c);
  }
}
