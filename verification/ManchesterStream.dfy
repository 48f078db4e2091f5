/** Streams of packets in the manchester protocol (src/manchester.c). */
module ManchesterStream {
  import opened Bytes
  import opened Framing
  import opened Ccpacket
  import opened ManchesterCodec
  import opened ManchesterRead
  import opened ManchesterTrip

  predicate Addressed(ps: seq<Packet>) { forall p <- ps :: 1 <= p.receiver <= 1024 }

  // the messages of packets written back to back
  function WrittenAll(ps: seq<Packet>): seq<Msg>
    requires Addressed(ps)
  {
    if ps == [] then [] else Written(ps[0]) + WrittenAll(ps[1..])
  }

  function GroupOf(p: Packet): Group
    requires 1 <= p.receiver <= 1024
  {
    Group(p.receiver, Written(p))
  }

  function GroupsOf(ps: seq<Packet>): seq<Group>
    requires Addressed(ps)
  {
    if ps == [] then [] else [GroupOf(ps[0])] + GroupsOf(ps[1..])
  }

  lemma {:induction false} GroupsAt(ps: seq<Packet>, i: nat)
    requires Addressed(ps) && i < |ps|
    ensures |GroupsOf(ps)| == |ps| && GroupsOf(ps)[i] == GroupOf(ps[i])
  {
    hide GroupOf;
    GroupsLength(ps);
    if i > 0 { GroupsAt(ps[1..], i - 1); }
  }

  lemma {:induction false} GroupsLength(ps: seq<Packet>)
    requires Addressed(ps)
    ensures |GroupsOf(ps)| == |ps|
  {
    hide GroupOf;
    if ps != [] { GroupsLength(ps[1..]); }
  }

  // every packet says something, and no two neighbours have the same receiver
  predicate Alternating(ps: seq<Packet>)
    requires Addressed(ps)
  {
    && (forall p <- ps :: Written(p) != [])
    && forall i | 0 < i < |ps| :: ps[i].receiver != ps[i - 1].receiver
  }

  // messages for the receiver of the group that is open all join it
  lemma {:induction false} RunJoins(g: Group, ms: seq<Msg>, rest: seq<Msg>)
    requires forall m <- ms :: ReceiverIn(m) == g.receiver
    ensures Grouped(g, ms + rest) == Grouped(Group(g.receiver, g.ms + ms), rest)
    decreases |ms|
  {
    hide ReceiverIn;
    if ms == [] {
      assert ms + rest == rest && g.ms + ms == g.ms;
    } else {
      assert (ms + rest)[0] == ms[0] && (ms + rest)[1..] == ms[1..] + rest && ms[0] in ms;
      assert g.ms + [ms[0]] + ms[1..] == g.ms + ms;
      RunJoins(Group(g.receiver, g.ms + [ms[0]]), ms[1..], rest);
    }
  }

  // a run for another receiver closes the group that is open
  lemma RunOpens(g: Group, h: Group, rest: seq<Msg>)
    requires h.ms != [] && Uniform(h) && g.receiver != h.receiver
    ensures var (r, q) := (Grouped(g, h.ms + rest), Grouped(h, rest)); r.0 == [g] + q.0 && r.1 == q.1
  {
    hide ReceiverIn;
    var ms := h.ms;
    assert (ms + rest)[0] == ms[0] && (ms + rest)[1..] == ms[1..] + rest && ms[0] in ms;
    assert [ms[0]] + ms[1..] == ms;
    RunJoins(Group(h.receiver, [ms[0]]), ms[1..], rest);
  }

  lemma WrittenUniform(p: Packet)
    requires 1 <= p.receiver <= 1024
    ensures Uniform(GroupOf(p)) && forall m <- Written(p) :: Message(Protocol.Manchester, m) && FlagFirst(m)
  {
    ContentsFit(p);
    EncodedReceivers(p.receiver, Contents(p));
    hide ReceiverIn, Message, FlagFirst, Encoded, Contents;
  }

  // The groups of the reader are the packets as they were written.
  lemma {:induction false} GroupedPackets(g: Group, ps: seq<Packet>)
    requires Addressed(ps) && Alternating(ps) && (ps != [] ==> g.receiver != ps[0].receiver)
    ensures var r := Grouped(g, WrittenAll(ps)); r.0 + [r.1] == [g] + GroupsOf(ps)
    decreases |ps|
  {
    hide Grouped, Written, Uniform;
    if ps == [] {
      GroupedNone(g);
      assert GroupsOf(ps) == [];
    } else {
      var h, rest := GroupOf(ps[0]), WrittenAll(ps[1..]);
      WrittenUniform(ps[0]);
      RunOpens(g, h, rest);
      AlternatingRest(ps);
      GroupedPackets(h, ps[1..]);
      var q := Grouped(h, rest);
      assert [g] + q.0 + [q.1] == [g] + (q.0 + [q.1]);
      assert [h] + GroupsOf(ps[1..]) == GroupsOf(ps);
    }
  }

  lemma GroupedNone(g: Group)
    ensures Grouped(g, []) == ([], g)
  {
  }

  lemma AlternatingRest(ps: seq<Packet>)
    requires Addressed(ps) && Alternating(ps) && ps != []
    ensures Alternating(ps[1..]) && (|ps| > 1 ==> ps[1].receiver != ps[0].receiver)
  {
    hide Written;
    var t := ps[1..];
    forall i | 0 < i < |t| ensures t[i].receiver != t[i - 1].receiver {
      assert t[i] == ps[i + 1] && t[i - 1] == ps[i];
    }
  }

  lemma {:induction false} PacketsOfEach(gs: seq<Group>, c: Packet)
    ensures |PacketsOf(gs, c)| == |gs| && forall i | 0 <= i < |gs| :: PacketsOf(gs, c)[i] == PacketOf(gs[i], c)
  {
    hide PacketOf;
    if gs != [] { PacketsOfEach(gs[1..], c); }
  }

  lemma {:induction false} AllMessages(ps: seq<Packet>)
    requires Addressed(ps)
    ensures forall m <- WrittenAll(ps) :: Message(Protocol.Manchester, m) && FlagFirst(m)
  {
    hide Message, FlagFirst, Written;
    if ps != [] {
      WrittenUniform(ps[0]);
      AllMessages(ps[1..]);
    }
  }

  // Messages for the receiver that the reader starts with join the packet it holds.
  predicate Joins(first: int, ps: seq<Packet>) { ps != [] && ps[0].receiver == first }

  // the group that is open before the first message, unless those messages join it
  function Opening(first: int, ps: seq<Packet>): seq<Group> { if Joins(first, ps) then [] else [Group(first, [])] }

  lemma FirstJoins(first: int, ps: seq<Packet>)
    requires Addressed(ps) && Alternating(ps) && Joins(first, ps)
    ensures var r := Grouped(Group(first, []), WrittenAll(ps)); r.0 + [r.1] == GroupsOf(ps)
  {
    hide Grouped, Written, Uniform;
    var g, h := Group(first, []), GroupOf(ps[0]);
    WrittenUniform(ps[0]);
    RunIn(h);
    RunJoins(g, h.ms, WrittenAll(ps[1..]));
    assert g.ms + h.ms == h.ms;
    AlternatingRest(ps);
    GroupedPackets(h, ps[1..]);
    assert [h] + GroupsOf(ps[1..]) == GroupsOf(ps);
  }

  lemma RunIn(h: Group)
    requires Uniform(h)
    ensures forall m <- h.ms :: ReceiverIn(m) == h.receiver
  {
  }

  lemma StartGroups(first: int, ps: seq<Packet>)
    requires Addressed(ps) && Alternating(ps)
    ensures var r := Grouped(Group(first, []), WrittenAll(ps)); r.0 + [r.1] == Opening(first, ps) + GroupsOf(ps)
  {
    hide Grouped, WrittenAll, Addressed, Alternating;
    if Joins(first, ps) {
      FirstJoins(first, ps);
      assert [] + GroupsOf(ps) == GroupsOf(ps);
    } else {
      GroupedPackets(Group(first, []), ps);
    }
  }

  // what comes out of one read of the messages of ps
  lemma ReadGroups(first: int, ps: seq<Packet>, c: Packet)
    requires Addressed(ps) && Alternating(ps) && Fresh(c)
    ensures ReadAll(c.SetReceiver(first), WrittenAll(ps), true).0 == PacketsOf(Opening(first, ps) + GroupsOf(ps), c)
  {
    hide Grouped, Fold, Fresh, WrittenAll, PacketOf, PacketsOf, Uniform, Alternating, Packet.Clear, Addressed, Opening;
    var ms, g := WrittenAll(ps), Group(first, []);
    NoGroup(c, first);
    FoldIsGrouped(c.SetReceiver(first), g, ms, c);
    StartGroups(first, ps);
    var r := Grouped(g, ms);
    PacketsOfMore(r.0, [r.1], c);
    PacketsOfOne(r.1, c);
  }

  lemma FreshBlank(c: Packet)
    requires Fresh(c)
    ensures Blank(c)
  {
    ClearedBlank(c.expire);
  }

  lemma GroupRelayed(p: Packet, c: Packet)
    requires Expressible(p) && Blank(c) && 1 <= p.receiver <= 1024
    ensures Relayed(p, PacketOf(Group(p.receiver, Written(p)), c))
  {
    hide *;
    ExpressibleParts(p);
    PacketRoundTrip(p, c);
  }

  lemma EachRelayed(ps: seq<Packet>, c: Packet)
    requires Addressed(ps) && Blank(c) && forall p <- ps :: Expressible(p)
    ensures var out := PacketsOf(GroupsOf(ps), c);
      |out| == |ps| && forall i | 0 <= i < |ps| :: Relayed(ps[i], out[i])
  {
    hide Blank, Written, PacketOf, PacketsOf, Relayed, Expressible;
    var gs := GroupsOf(ps);
    GroupsLength(ps);
    PacketsOfEach(gs, c);
    forall i | 0 <= i < |ps| ensures Relayed(ps[i], PacketsOf(gs, c)[i]) {
      var p := ps[i];
      GroupRelayed(p, c);
      GroupsAt(ps, i);
    }
  }

  // a cleared packet, whatever its receiver, is a stop
  lemma EmptyStops(first: int, c: Packet)
    requires Blank(c)
    ensures c.SetReceiver(first).IsStop()
  {
    hide ModeOf;
  }

  // Round trip of a stream: packets for alternating receivers, written back to back and
  // read at once, are framed without a byte dropped and come out one by one, each with its
  // receiver and commands. Before them goes one packet that nobody sent, a stop for the
  // receiver that the reader starts with, if and only if the first packet is for another.
  lemma StreamRoundTrip(first: int, ps: seq<Packet>, c: Packet)
    requires Addressed(ps) && Alternating(ps) && (forall p <- ps :: Expressible(p)) && Fresh(c)
    ensures Parse(Protocol.Manchester, Flatten(WrittenAll(ps))) == (WrittenAll(ps), [])
    ensures var out, k := ReadAll(c.SetReceiver(first), WrittenAll(ps), true).0, if Joins(first, ps) then 0 else 1;
      && |out| == k + |ps| && (forall i | 0 <= i < |ps| :: Relayed(ps[i], out[k + i]))
      && (k == 1 ==> out[0] == c.SetReceiver(first) && out[0].IsStop())
  {
    hide *;
    StreamFramed(ps);
    ReadGroups(first, ps, c);
    NoGroup(c, first);
    FreshBlank(c);
    EachRelayed(ps, c);
    EmptyStops(first, c);
    OpeningPackets(first, ps, c);
    PacketsOfMore(Opening(first, ps), GroupsOf(ps), c);
  }

  lemma OpeningPackets(first: int, ps: seq<Packet>, c: Packet)
    ensures PacketsOf(Opening(first, ps), c) == if Joins(first, ps) then [] else [PacketOf(Group(first, []), c)]
  {
    hide PacketOf, Joins;
    PacketsOfOne(Group(first, []), c);
  }

  lemma StreamFramed(ps: seq<Packet>)
    requires Addressed(ps)
    ensures Parse(Protocol.Manchester, Flatten(WrittenAll(ps))) == (WrittenAll(ps), [])
  {
    AllMessages(ps);
    ParseMessages(Protocol.Manchester, WrittenAll(ps));
    hide Parse, Flatten, WrittenAll, Message, FlagFirst;
  }

  // A reader that joins the stream in the middle of a message drops the rest of that
  // message, at most two bytes, and then frames every later one.
  lemma Resynchronises(p: Packet, m: Msg, k: nat, ps: seq<Packet>)
    requires 1 <= p.receiver <= 1024 && m in Written(p) && 1 <= k <= 3 && Addressed(ps)
    ensures Parse(Protocol.Manchester, m[k..] + Flatten(WrittenAll(ps))).0 == WrittenAll(ps)
    ensures ps != [] && WrittenAll(ps) != [] ==> Parse(Protocol.Manchester, m[k..] + Flatten(WrittenAll(ps))).1 == []
  {
    WrittenUniform(p);
    AllMessages(ps);
    forall b <- m[k..] ensures !FlagBit(b) {
      var i :| 0 <= i < |m| - k && m[k..][i] == b;
      assert m[k + i] == b;
    }
    Resync(Protocol.Manchester, m[k..], WrittenAll(ps));
    hide WrittenAll, Written, Parse, Flatten, Message, Bit;
  }
}
