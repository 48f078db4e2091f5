/** The manchester reader over a whole stream, read by read (src/manchester.c). */
module ManchesterReceiver {
  import opened Bytes
  import opened Buffers
  import opened Framing
  import opened Readers
  import opened Ccpacket
  import opened ManchesterCodec
  import opened ManchesterRead

  // one more read after those so far
  lemma {:induction false} ReadsMore(g: Group, chunks: seq<Chunk>, x: Chunk)
    ensures var r := GroupedReads(g, chunks);
      var s := Grouped(r.1, x.ms);
      GroupedReads(g, chunks + [x]) == if x.drained then (r.0 + (s.0 + [s.1]), Group(0, [])) else (r.0 + s.0, s.1)
    decreases |chunks|
  {
    hide Grouped;
    if chunks == [] {
      assert chunks + [x] == [x] && [x][1..] == [];
      var s := Grouped(g, x.ms);
      assert s.0 + [s.1] + [] == [] + (s.0 + [s.1]) && s.0 + [] == [] + s.0;
    } else {
      assert (chunks + [x])[0] == chunks[0] && (chunks + [x])[1..] == chunks[1..] + [x];
      var a := Grouped(g, chunks[0].ms);
      var h, front := if chunks[0].drained then Group(0, []) else a.1, if chunks[0].drained then a.0 + [a.1] else a.0;
      ReadsMore(h, chunks[1..], x);
      var r := GroupedReads(h, chunks[1..]);
      var s := Grouped(r.1, x.ms);
      assert front + (r.0 + (s.0 + [s.1])) == front + r.0 + (s.0 + [s.1]);
      assert front + (r.0 + s.0) == front + r.0 + s.0;
    }
  }

  lemma {:induction false} MessagesMore(chunks: seq<Chunk>, x: Chunk)
    ensures Messages(chunks + [x]) == Messages(chunks) + x.ms
  {
    if chunks == [] {
      assert chunks + [x] == [x] && [x][1..] == [];
    } else {
      assert (chunks + [x])[1..] == chunks[1..] + [x];
      MessagesMore(chunks[1..], x);
    }
  }

  // The reads so far brought the messages of s, out is what was handed on, and p is held;
  // the reader started with the receiver first.
  ghost predicate Received(c: Packet, first: int, s: seq<byte>, chunks: seq<Chunk>, out: seq<Packet>, p: Packet) {
    var r := GroupedReads(Group(first, []), chunks);
    Messages(chunks) == Parse(Manchester, s).0 && out == PacketsOf(r.0, c) && p == PacketOf(r.1, c) && Uniform(r.1)
  }

  lemma NothingReceived(c: Packet, first: int)
    requires Fresh(c)
    ensures Received(c, first, [], [], [], c.SetReceiver(first)) && Parse(Manchester, []) == ([], [])
  {
    hide PacketOf, Fresh;
    NoGroup(c, first);
  }

  // what one read adds to the packets
  lemma OneRead(c: Packet, g: Group, p: Packet, ms: seq<Msg>, drained: bool)
    requires Fresh(c) && Uniform(g) && p == PacketOf(g, c)
    ensures var s := Grouped(g, ms);
      && ReadAll(p, ms, drained) == (if drained then (PacketsOf(s.0 + [s.1], c), c)
        else (PacketsOf(s.0, c), PacketOf(s.1, c)))
      && Uniform(s.1)
  {
    hide Fold, Grouped, PacketOf, PacketsOf, Packet.Clear, Uniform, Fresh;
    FoldIsGrouped(p, g, ms, c);
    var s := Grouped(g, ms);
    PacketsOfMore(s.0, [s.1], c);
    PacketsOfOne(s.1, c);
    HeldExpire(s.1, c);
    ClearOf(PacketOf(s.1, c), c);
  }

  lemma HeldExpire(g: Group, c: Packet)
    requires Uniform(g)
    ensures PacketOf(g, c).expire == c.expire
  {
    MergedReceiver(c.SetReceiver(g.receiver), g.ms);
  }

  lemma ReceivedMore(c: Packet, first: int, s: seq<byte>, chunks: seq<Chunk>, out: seq<Packet>, p: Packet,
      more: seq<byte>, x: Chunk)
    requires Fresh(c) && Received(c, first, s, chunks, out, p)
    requires Parse(Manchester, Parse(Manchester, s).1 + more).0 == x.ms
    ensures var r := ReadAll(p, x.ms, x.drained); Received(c, first, s + more, chunks + [x], out + r.0, r.1)
    ensures x.drained ==> ReadAll(p, x.ms, x.drained).1 == c
  {
    hide GroupedReads, Grouped, PacketsOf, PacketOf, Messages, ReadAll, Parse, Uniform, Fresh;
    ParseMore(Manchester, s, more);
    var r := GroupedReads(Group(first, []), chunks);
    ReadsMore(Group(first, []), chunks, x);
    MessagesMore(chunks, x);
    OneRead(c, r.1, p, x.ms, x.drained);
    var t := Grouped(r.1, x.ms);
    PacketsOfMore(r.0, if x.drained then t.0 + [t.1] else t.0, c);
    NoGroup(c, 0);
  }

  // Receiving a stream, however it is cut into reads: the packets handed on and the one
  // held at the end are the groups of the reads, and these are made of the messages of the
  // stream, every one of them once. When no partial message is left, nothing is held.
  method Receive(buf: Buffer, pkt: PacketBuffer, stream: seq<byte>, ghost c: Packet)
    returns (out: seq<Packet>, ghost chunks: seq<Chunk>)
    requires buf.Valid() && buf.Pending() == [] && buf.base.Length == BUFFER_SIZE && Ready(pkt, c)
    modifies pkt, buf`pin, buf`pout, buf`appended, buf`consumed, buf.base
    ensures buf.Valid() && buf.Pending() == Parse(Manchester, stream).1
    ensures var r := GroupedReads(Group(old(pkt.receiver), []), chunks);
      && out == PacketsOf(r.0, c) && pkt.View() == PacketOf(r.1, c)
      && Join(r.0) + r.1.ms == Parse(Manchester, stream).0
    ensures stream != [] && buf.Pending() == [] ==> pkt.View() == c
  {
    hide Parse, Received, ReadAll, Fresh, Ready, GroupedReads, PacketsOf, PacketOf, Join;
    ReadyFresh(pkt, c);
    out, chunks := [], [];
    ghost var first := pkt.receiver;
    NothingReceived(c, first);
    var k := 0;
    while k < |stream|
      invariant 0 <= k <= |stream| && buf.Valid() && |buf.Pending()| < 3
      invariant buf.Pending() == Parse(Manchester, stream[..k]).1
        && Received(c, first, stream[..k], chunks, out, pkt.View())
      invariant k > 0 && buf.Pending() == [] ==> pkt.View() == c
    {
      ghost var was, p := buf.Pending(), pkt.View();
      var n := buf.Read(stream[k..]);
      assert n > 0;  // never ENOBUFS
      ghost var chunk := stream[k..][..n];
      NextChunk(stream, k, n);
      ParseMore(Manchester, stream[..k], chunk);
      var more;
      ghost var ms;
      more, ms := DoRead(buf, pkt);
      ghost var x := Chunk(ms, buf.Pending() == []);
      ReceivedMore(c, first, stream[..k], chunks, out, p, chunk, x);
      out, chunks := out + more, chunks + [x];
      k := k + n;
    }
    assert stream[..|stream|] == stream;
    AllReceived(c, first, stream, chunks, out, pkt.View());
  }

  lemma ReadyFresh(pkt: PacketBuffer, c: Packet)
    requires Ready(pkt, c)
    ensures Fresh(c) && pkt.View() == c.SetReceiver(pkt.receiver)
  {
  }

  lemma AllReceived(c: Packet, first: int, s: seq<byte>, chunks: seq<Chunk>, out: seq<Packet>, p: Packet)
    requires Received(c, first, s, chunks, out, p)
    ensures var r := GroupedReads(Group(first, []), chunks);
      out == PacketsOf(r.0, c) && p == PacketOf(r.1, c) && Join(r.0) + r.1.ms == Parse(Manchester, s).0
  {
    hide GroupedReads, PacketsOf, PacketOf, Parse, Join;
    ReadsConserve(Group(first, []), chunks);
    assert Group(first, []).ms + Messages(chunks) == Messages(chunks);
  }
}
