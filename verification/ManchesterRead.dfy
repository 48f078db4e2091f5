/** The merging reader of the manchester protocol (src/manchester.c). */
module ManchesterRead {
  import opened Bytes
  import opened Buffers
  import opened Framing
  import opened Readers
  import opened Ccpacket
  import opened ManchesterCodec

  type Msg = m: seq<byte> | |m| == 3 witness [0, 0, 0]

  // --- packets ---

  // manchester_decode_packet for message after message: the packets handed on, and the
  // packet held at the end
  function Fold(p: Packet, ms: seq<Msg>): (seq<Packet>, Packet)
    decreases |ms|
  {
    if ms == [] then ([], p)
    else if p.receiver != ReceiverIn(ms[0]) then
      var r := Fold(Absorb(ms[0], p.Clear()), ms[1..]);
      ([p] + r.0, r.1)
    else Fold(Absorb(ms[0], p), ms[1..])
  }

  // a whole read: when no partial message is left the held packet is handed on, too
  function ReadAll(p: Packet, ms: seq<Msg>, drained: bool): (seq<Packet>, Packet) {
    var r := Fold(p, ms);
    if drained then (r.0 + [r.1], r.1.Clear()) else r
  }

  // --- groups ---

  // a packet in terms of the messages merged into it since it was cleared; receiver 0
  // stands for a cleared packet
  datatype Group = Group(receiver: int, ms: seq<Msg>)

  function Grouped(g: Group, ms: seq<Msg>): (r: (seq<Group>, Group))
    decreases |ms|
  {
    if ms == [] then ([], g)
    else if g.receiver != ReceiverIn(ms[0]) then
      var r := Grouped(Group(ReceiverIn(ms[0]), [ms[0]]), ms[1..]);
      ([g] + r.0, r.1)
    else Grouped(Group(g.receiver, g.ms + [ms[0]]), ms[1..])
  }

  function Merged(p: Packet, ms: seq<Msg>): Packet {
    if ms == [] then p else Absorb(ms[|ms| - 1], Merged(p, ms[..|ms| - 1]))
  }

  // the packet that a group merges into
  function PacketOf(g: Group, c: Packet): Packet { Merged(c.SetReceiver(g.receiver), g.ms) }

  function PacketsOf(gs: seq<Group>, c: Packet): seq<Packet> {
    if gs == [] then [] else [PacketOf(gs[0], c)] + PacketsOf(gs[1..], c)
  }

  // all messages of a group are for its receiver
  predicate Uniform(g: Group) { forall m <- g.ms :: ReceiverIn(m) == g.receiver }

  lemma {:induction false} MergedReceiver(p: Packet, ms: seq<Msg>)
    requires forall m <- ms :: ReceiverIn(m) == p.receiver
    ensures Merged(p, ms).receiver == p.receiver && Merged(p, ms).expire == p.expire
  {
    if ms != [] {
      var n := |ms| - 1;
      MergedReceiver(p, ms[..n]);
      AbsorbReceiver(ms[n], Merged(p, ms[..n]));
      assert ms[n] in ms;
      hide Absorb;
    }
  }

  // a packet that starts over
  predicate Fresh(c: Packet) { c == Cleared(c.expire) }

  lemma ClearOf(p: Packet, c: Packet)
    requires Fresh(c) && p.expire == c.expire
    ensures p.Clear() == c
  {
  }

  // The reader's packets are the merged groups.
  lemma {:induction false} FoldIsGrouped(p: Packet, g: Group, ms: seq<Msg>, c: Packet)
    requires Uniform(g) && p == PacketOf(g, c) && Fresh(c)
    ensures var (f, r) := (Fold(p, ms), Grouped(g, ms));
      f.0 == PacketsOf(r.0, c) && f.1 == PacketOf(r.1, c) && Uniform(r.1) && forall h <- r.0 :: Uniform(h)
    decreases |ms|
  {
    MergedReceiver(c.SetReceiver(g.receiver), g.ms);
    assert p.receiver == g.receiver;
    hide Absorb, Fresh, Packet.Clear, PacketOf, Packet.SetReceiver, Merged;
    if ms != [] {
      var m := ms[0];
      if g.receiver != ReceiverIn(m) {
        ClearOf(p, c);
        OneMerged(m, c);
        FoldIsGrouped(Absorb(m, c), Group(ReceiverIn(m), [m]), ms[1..], c);
      } else {
        MoreMerged(g, m, c);
        FoldIsGrouped(Absorb(m, p), Group(g.receiver, g.ms + [m]), ms[1..], c);
      }
    }
  }

  lemma MoreMerged(g: Group, m: Msg, c: Packet)
    ensures PacketOf(Group(g.receiver, g.ms + [m]), c) == Absorb(m, PacketOf(g, c))
  {
    assert (g.ms + [m])[..|g.ms|] == g.ms;
    hide Absorb;
  }

  // starting over with a message sets its receiver either way
  lemma OneMerged(m: Msg, c: Packet)
    ensures PacketOf(Group(ReceiverIn(m), [m]), c) == Absorb(m, c)
  {
    assert [m][..0] == [];
    assert Merged(c.SetReceiver(ReceiverIn(m)), []) == c.SetReceiver(ReceiverIn(m));
    hide DecodeContent;
  }

  // a group without messages merges into a cleared packet with its receiver
  lemma NoGroup(c: Packet, receiver: int)
    requires Fresh(c)
    ensures PacketOf(Group(receiver, []), c) == c.SetReceiver(receiver) && Uniform(Group(receiver, []))
    ensures c.SetReceiver(0) == c
  {
  }

  lemma {:induction false} PacketsOfMore(a: seq<Group>, b: seq<Group>, c: Packet)
    ensures PacketsOf(a + b, c) == PacketsOf(a, c) + PacketsOf(b, c)
  {
    hide PacketOf;
    if a == [] {
      assert a + b == b;
    } else {
      assert (a + b)[0] == a[0] && (a + b)[1..] == a[1..] + b;
      PacketsOfMore(a[1..], b, c);
    }
  }

  lemma PacketsOfOne(g: Group, c: Packet)
    ensures PacketsOf([g], c) == [PacketOf(g, c)]
  {
    hide PacketOf;
    assert [g][1..] == [];
  }

  // --- what grouping does ---

  function Join(gs: seq<Group>): seq<Msg> {
    if gs == [] then [] else gs[0].ms + Join(gs[1..])
  }

  // neighbours have different receivers
  predicate Apart(gs: seq<Group>, last: Group) {
    forall i | 0 <= i < |gs| :: gs[i].receiver != Next(gs, last, i).receiver
  }

  function Next(gs: seq<Group>, last: Group, i: nat): Group
    requires i < |gs|
  {
    if i + 1 < |gs| then gs[i + 1] else last
  }

  lemma ApartMore(g: Group, gs: seq<Group>, last: Group)
    requires Apart(gs, last) && g.receiver != (if gs == [] then last else gs[0]).receiver
    ensures Apart([g] + gs, last)
  {
    forall i | 0 <= i < |gs| + 1 ensures ([g] + gs)[i].receiver != Next([g] + gs, last, i).receiver {
      if i > 0 { assert gs[i - 1].receiver != Next(gs, last, i - 1).receiver; }
    }
  }

  // Grouping cuts the messages, after those merged already, into maximal runs of one
  // receiver: no message is lost or doubled, and neighbouring runs differ in receiver.
  lemma {:induction false} GroupsAreRuns(g: Group, ms: seq<Msg>)
    ensures var r := Grouped(g, ms);
      && Join(r.0) + r.1.ms == g.ms + ms
      && Apart(r.0, r.1)
      && (r.0 == [] ==> r.1.receiver == g.receiver) && (r.0 != [] ==> r.0[0].receiver == g.receiver)
    decreases |ms|
  {
    if ms != [] {
      var m := ms[0];
      assert [m] + ms[1..] == ms;
      if g.receiver != ReceiverIn(m) {
        GroupsAreRuns(Group(ReceiverIn(m), [m]), ms[1..]);
        var r := Grouped(Group(ReceiverIn(m), [m]), ms[1..]);
        assert ([g] + r.0)[1..] == r.0;
        ApartMore(g, r.0, r.1);
      } else {
        assert g.ms + [m] + ms[1..] == g.ms + ms;
        GroupsAreRuns(Group(g.receiver, g.ms + [m]), ms[1..]);
      }
    }
  }

  // what one read brings: its messages, and whether it empties the buffer
  datatype Chunk = Chunk(ms: seq<Msg>, drained: bool)

  function GroupedReads(g: Group, chunks: seq<Chunk>): (seq<Group>, Group)
    decreases |chunks|
  {
    if chunks == [] then ([], g)
    else
      var r := Grouped(g, chunks[0].ms);
      if chunks[0].drained then
        var s := GroupedReads(Group(0, []), chunks[1..]);
        (r.0 + [r.1] + s.0, s.1)
      else
        var s := GroupedReads(r.1, chunks[1..]);
        (r.0 + s.0, s.1)
  }

  function Messages(chunks: seq<Chunk>): seq<Msg> {
    if chunks == [] then [] else chunks[0].ms + Messages(chunks[1..])
  }

  lemma {:induction false} JoinPlus(a: seq<Group>, b: seq<Group>)
    ensures Join(a + b) == Join(a) + Join(b)
  {
    if a == [] {
      assert a + b == b;
    } else {
      assert (a + b)[1..] == a[1..] + b;
      JoinPlus(a[1..], b);
    }
  }

  // Over any series of reads, partial tails or not, every message goes into exactly one
  // packet: those handed on and the one still held are made of all messages, in order.
  lemma {:induction false} ReadsConserve(g: Group, chunks: seq<Chunk>)
    ensures var r := GroupedReads(g, chunks); Join(r.0) + r.1.ms == g.ms + Messages(chunks)
    decreases |chunks|
  {
    if chunks != [] {
      var ms, rest := chunks[0].ms, Messages(chunks[1..]);
      var r := Grouped(g, ms);
      GroupsAreRuns(g, ms);
      var h := if chunks[0].drained then Group(0, []) else r.1;
      var s := GroupedReads(h, chunks[1..]);
      ReadsConserve(h, chunks[1..]);
      hide Grouped, Join;
      JoinParts(r.0, r.1, s.0);
      Associate(g.ms, ms, rest, Join(r.0), r.1.ms, Join(s.0), s.1.ms, h.ms);
    }
  }

  lemma JoinParts(a: seq<Group>, g: Group, b: seq<Group>)
    ensures Join(a + b) == Join(a) + Join(b) && Join(a + [g] + b) == Join(a) + g.ms + Join(b)
  {
    hide Join;
    JoinPlus(a, b);
    JoinPlus(a + [g], b);
    JoinPlus(a, [g]);
    JoinOne(g);
  }

  lemma JoinOne(g: Group)
    ensures Join([g]) == g.ms
  {
    assert Join([g]) == g.ms + Join([]);
  }

  lemma Associate(g: seq<Msg>, ms: seq<Msg>, rest: seq<Msg>, a: seq<Msg>, x: seq<Msg>, b: seq<Msg>, y: seq<Msg>,
      h: seq<Msg>)
    requires a + x == g + ms && b + y == h + rest
    ensures h == x ==> (a + b) + y == g + (ms + rest)
    ensures h == [] ==> (a + x + b) + y == g + (ms + rest)
  {
    assert (a + x) + rest == g + (ms + rest);
    if h == x { assert (a + b) + y == a + (x + rest); }
    if h == [] { assert [] + rest == rest && (a + x + b) + y == (a + x) + (b + y); }
  }

  // --- the loop ---

  lemma {:induction false} FoldMore(p: Packet, ms: seq<Msg>, m: Msg)
    ensures var (f, q) := Fold(p, ms);
      Fold(p, ms + [m]) == if q.receiver != ReceiverIn(m) then (f + [q], Absorb(m, q.Clear())) else (f, Absorb(m, q))
    decreases |ms|
  {
    hide Absorb, Packet.Clear;
    if ms == [] {
      assert ms + [m] == [m] && [m][1..] == [];
      assert Fold(p, [m]) == if p.receiver != ReceiverIn(m) then ([p] + [], Absorb(m, p.Clear()))
        else ([], Absorb(m, p));
      assert [p] + [] == [p] == [] + [p];
    } else {
      assert (ms + [m])[1..] == ms[1..] + [m] && (ms + [m])[0] == ms[0];
      var next := if p.receiver != ReceiverIn(ms[0]) then Absorb(ms[0], p.Clear()) else Absorb(ms[0], p);
      FoldMore(next, ms[1..], m);
      var r := Fold(next, ms[1..]);
      assert [p] + (r.0 + [r.1]) == [p] + r.0 + [r.1];
    }
  }

  // manchester_decode_packet
  method DecodePacket(m: Msg, pkt: PacketBuffer) returns (out: seq<Packet>)
    modifies pkt
    ensures var q := old(pkt.View());
      if q.receiver != ReceiverIn(m) then out == [q] && pkt.View() == Absorb(m, q.Clear())
      else out == [] && pkt.View() == Absorb(m, q)
  {
    hide DecodeContent, ReceiverIn, ContentIn, Cleared;
    out := [];
    var receiver := ReceiverIn(m);
    if pkt.receiver != receiver {
      out := [pkt.View()];
      pkt.Clear();
    }
    pkt.SetReceiver(receiver);
    DecodeContentInto(ContentIn(m), pkt);
  }

  // p0 with the messages absorbed has given out and become p, and the framing of the rest
  // of the buffer makes up that of all
  ghost predicate Progress(all: seq<byte>, p0: Packet, ms: seq<Msg>, out: seq<Packet>, p: Packet, rest: seq<byte>) {
    Left(Manchester, all, ms, rest) && Fold(p0, ms) == (out, p)
  }

  lemma ProgressDrop(all: seq<byte>, p0: Packet, ms: seq<Msg>, out: seq<Packet>, p: Packet, rest: seq<byte>)
    requires Progress(all, p0, ms, out, p, rest) && |rest| >= 3 && !FlagBit(rest[0])
    ensures Progress(all, p0, ms, out, p, rest[1..])
  {
    hide Left, Fold, FlagBit;
    LeftDrop(Manchester, all, ms, rest);
  }

  lemma ProgressTake(all: seq<byte>, p0: Packet, ms: seq<Msg>, out: seq<Packet>, p: Packet, rest: seq<byte>,
      more: seq<Packet>, q: Packet)
    requires Progress(all, p0, ms, out, p, rest) && |rest| >= 3 && FlagBit(rest[0])
    requires var m := rest[..3];
      if p.receiver != ReceiverIn(m) then more == [p] && q == Absorb(m, p.Clear()) else more == [] && q == Absorb(m, p)
    ensures Progress(all, p0, ms + [rest[..3]], out + more, q, rest[3..])
  {
    hide Left, Fold, FlagBit, Absorb, Packet.Clear, ReceiverIn;
    LeftTake(Manchester, all, ms, rest, 3);
    FoldMore(p0, ms, rest[..3]);
    assert out + [] == out;
  }

  lemma ProgressEnd(all: seq<byte>, p0: Packet, ms: seq<Msg>, out: seq<Packet>, p: Packet, rest: seq<byte>)
    requires Progress(all, p0, ms, out, p, rest) && |rest| < 3
    ensures Parse(Manchester, all) == (ms, rest)
  {
    LeftWait(Manchester, all, ms, rest);
    hide Fold;
  }

  lemma ProgressStart(all: seq<byte>, p0: Packet)
    ensures Progress(all, p0, [], [], p0, all)
  {
    LeftAll(Manchester, all);
    hide Left;
  }

  // manchester_do_read
  method DoRead(buf: Buffer, pkt: PacketBuffer) returns (out: seq<Packet>, ghost ms: seq<Msg>)
    requires buf.Valid()
    modifies pkt, buf`pin, buf`pout, buf`consumed
    ensures buf.Valid() && |buf.Pending()| < 3 && Parse(Manchester, old(buf.Pending())) == (ms, buf.Pending())
    ensures (out, pkt.View()) == ReadAll(old(pkt.View()), ms, buf.Pending() == [])
  {
    out, ms := [], [];
    ghost var all, p0 := buf.Pending(), pkt.View();
    ProgressStart(all, p0);
    out, ms := ReadLoop(buf, pkt, all, p0);
    ProgressEnd(all, p0, ms, out, pkt.View(), buf.Pending());
    hide Parse, Fold, Cleared;
    if buf.Available() == 0 {
      out := out + [pkt.View()];
      pkt.Clear();
    }
  }

  method ReadLoop(buf: Buffer, pkt: PacketBuffer, ghost all: seq<byte>, ghost p0: Packet)
    returns (out: seq<Packet>, ghost ms: seq<Msg>)
    requires buf.Valid() && Progress(all, p0, [], [], pkt.View(), buf.Pending())
    modifies pkt, buf`pin, buf`pout, buf`consumed
    ensures buf.Valid() && |buf.Pending()| < 3 && Progress(all, p0, ms, out, pkt.View(), buf.Pending())
  {
    hide Progress, Absorb, FlagBit, Packet.Clear, ReceiverIn;
    out, ms := [], [];
    while buf.Available() >= 3
      invariant buf.Valid() && Progress(all, p0, ms, out, pkt.View(), buf.Pending())
      decreases buf.Available()
    {
      ghost var rest, p := buf.Pending(), pkt.View();
      if !FlagBit(buf.At(0)) {
        ProgressDrop(all, p0, ms, out, p, rest);
        buf.Consume(1);  // unexpected byte
      } else {
        var mess := Front(buf, 3);
        var more := DecodePacket(mess, pkt);
        buf.Consume(3);
        ProgressTake(all, p0, ms, out, p, rest, more, pkt.View());
        out, ms := out + more, ms + [mess];
      }
    }
  }
}
