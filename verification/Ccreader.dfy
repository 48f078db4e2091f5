/** Routing of packets from a reader to its writers (src/ccreader.c). */
module Ccreader {
  import opened SortedList
  import opened Timeval
  import opened Ccpacket
  import opened Defer
  import opened DeferRate
  import opened DeferWake
  import opened Scheduler

  // struct ccnode: a writer with the range of addresses it takes and their shift
  datatype Node = Node(writer: nat, first: int, last: int, shift: int)

  // ccnode_get_receiver; 0 means drop
  function GetReceiver(node: Node, receiver: int): int {
    if receiver < node.first || receiver > node.last then 0
    else if receiver + node.shift < 0 then 0
    else receiver + node.shift
  }

  // what the writers of the list are handed, in order
  function Routed(nodes: seq<Node>, p: Packet): seq<(nat, Packet)> {
    if nodes == [] then []
    else
      var last := nodes[|nodes| - 1];
      var r := GetReceiver(last, p.receiver);
      Routed(nodes[..|nodes| - 1], p) + if r == 0 then [] else [(last.writer, p.SetReceiver(r))]
  }

  // the places in the list of the nodes that take a receiver
  function Takers(nodes: seq<Node>, receiver: int): seq<nat> {
    if nodes == [] then []
    else
      var n := |nodes| - 1;
      Takers(nodes[..n], receiver) + if Takes(nodes[n], receiver) then [n] else []
  }

  lemma {:induction false} TakersExactly(nodes: seq<Node>, receiver: int)
    ensures var ks := Takers(nodes, receiver);
      && (forall k :: k in ks <==> 0 <= k < |nodes| && Takes(nodes[k], receiver))
      && (forall i, j | 0 <= i < j < |ks| :: ks[i] < ks[j])
  {
    hide Takes;
    if nodes != [] {
      var n, ks := |nodes| - 1, Takers(nodes[..|nodes| - 1], receiver);
      TakersExactly(nodes[..n], receiver);
      forall i | 0 <= i < |ks| ensures ks[i] < n { assert ks[i] in ks; }
      forall k | 0 <= k < n ensures k in ks <==> Takes(nodes[k], receiver) { assert nodes[..n][k] == nodes[k]; }
    }
  }

  lemma {:induction false} RoutedTakers(nodes: seq<Node>, p: Packet)
    ensures var ks, out := Takers(nodes, p.receiver), Routed(nodes, p);
      && |out| == |ks|
      && forall i | 0 <= i < |ks| :: ks[i] < |nodes| && out[i] == Handed(nodes[ks[i]], p)
  {
    hide Handed;
    if nodes != [] {
      RoutedTakers(nodes[..|nodes| - 1], p);
      TakenShifted(nodes[|nodes| - 1], p);
    }
  }

  // the packet with the receiver shifted, the rest of it as it came
  function Handed(node: Node, p: Packet): (nat, Packet) { (node.writer, p.(receiver := p.receiver + node.shift)) }

  lemma TakenShifted(node: Node, p: Packet)
    ensures GetReceiver(node, p.receiver) != 0 <==> Takes(node, p.receiver)
    ensures Takes(node, p.receiver) ==> (node.writer, p.SetReceiver(GetReceiver(node, p.receiver))) == Handed(node, p)
  {
  }

  // The nodes whose range holds the receiver, no others, in the order of the list and each
  // once, get the packet with the receiver shifted.
  lemma RoutedExactly(nodes: seq<Node>, p: Packet)
    ensures var ks, out := Takers(nodes, p.receiver), Routed(nodes, p);
      && (forall k :: k in ks <==> 0 <= k < |nodes| && Takes(nodes[k], p.receiver))
      && (forall i, j | 0 <= i < j < |ks| :: ks[i] < ks[j])
      && |out| == |ks|
      && forall i | 0 <= i < |ks| :: ks[i] < |nodes| && out[i] == Handed(nodes[ks[i]], p)
  {
    hide *;
    TakersExactly(nodes, p.receiver);
    RoutedTakers(nodes, p);
  }

  // a node takes a receiver in its range whose shifted address is positive
  predicate Takes(node: Node, receiver: int) {
    node.first <= receiver <= node.last && receiver + node.shift > 0
  }

  // the events are sends of these packets
  ghost predicate Sends(evs: seq<Event>, sent: seq<(nat, Packet)>) {
    |evs| == |sent| && forall n | 0 <= n < |evs| :: IsSend(evs[n], sent[n])
  }

  predicate IsSend(ev: Event, to: (nat, Packet)) {
    ev.Send? && ev.k == to.0 && ev.packet == to.1
  }

  class Reader {
    const packet: PacketBuffer
    const timeout: nat
    var nodes: seq<Node>

    // ccreader_init
    constructor (timeout: nat, now: Timeval)
      requires timeout < UINT_MODULUS
      ensures Valid() && fresh(packet) && nodes == [] && this.timeout == timeout
      ensures Ready(packet, Cleared(now)) && packet.receiver == 0
    {
      packet := new PacketBuffer(now);
      this.timeout, nodes := timeout, [];
    }

    // ccreader_add_writer: the node goes to the front, and the packet gets the first
    // address that it takes
    method AddWriter(node: Node)
      requires Valid()
      modifies this`nodes, packet
      ensures Valid() && nodes == [node] + old(nodes) && packet.View() == old(packet.View()).SetReceiver(node.first)
      ensures forall c | old(Ready(packet, c)) :: Ready(packet, c)
    {
      nodes := [node] + nodes;
      packet.SetReceiver(node.first);
    }

    predicate Valid() { timeout < UINT_MODULUS }

    // one turn of ccreader_do_writers
    method PassOn(sch: Scheduler, node: Node, receiver: int, ghost states: seq<State>, ghost evs: seq<Event>,
        ghost start: State)
      returns (ghost states2: seq<State>, ghost more: seq<Event>)
      requires sch.Valid() && node.writer < |sch.writers| && Traced(sch.writers, states, evs, start, sch.View())
      modifies packet
      modifies sch`slots, sch`now, sch`armed, sch`itimer, sch`pipe, sch`tied, sch`log, sch.tree, sch.tree.pool
      modifies sch.tree.mem.Keys
      ensures sch.Valid() && fresh(sch.tree.mem.Keys - old(sch.tree.mem.Keys))
      ensures Traced(sch.writers, states2, evs + more, start, sch.View())
      ensures packet.View() == old(packet.View()).SetReceiver(packet.receiver)
      ensures Passed(node, old(packet.View()), receiver, more)
    {
      hide Scheduler.Valid, Scheduler.View, Goes, Traced, NotBefore;
      states2, more := states, [];
      var r := GetReceiver(node, receiver);
      if r == 0 {
        assert evs + more == evs;
      } else {
        packet.SetReceiver(r);
        var p := Packet(packet.receiver, packet.flags, packet.pan, packet.tilt, packet.preset, packet.expire);
        ghost var e := sch.Send(node.writer, p);
        more := [Event.Send(node.writer, p, e)];
        ghost var evs2;
        states2, evs2 := TraceMore(sch.writers, states, evs, start, more[0], old(sch.View()), sch.View());
      }
    }

    // ccreader_do_writers
    method DoWriters(sch: Scheduler, ghost states: seq<State>, ghost evs: seq<Event>, ghost start: State)
      returns (ghost states2: seq<State>, ghost sends: seq<Event>)
      requires Valid() && sch.Valid() && (forall node <- nodes :: node.writer < |sch.writers|)
      requires Traced(sch.writers, states, evs, start, sch.View())
      modifies packet
      modifies sch`slots, sch`now, sch`armed, sch`itimer, sch`pipe, sch`tied, sch`log, sch.tree, sch.tree.pool
      modifies sch.tree.mem.Keys
      ensures sch.Valid() && fresh(sch.tree.mem.Keys - old(sch.tree.mem.Keys))
      ensures packet.View() == old(packet.View())
      ensures Traced(sch.writers, states2, evs + sends, start, sch.View())
      ensures Sends(sends, Routed(nodes, old(packet.View())))
    {
      hide Scheduler.Valid, Scheduler.View, Traced, Sends, Routed, Passed;
      ghost var p := packet.View();
      var receiver := packet.receiver;  // the true receiver
      NoneSent(p);
      states2, sends := states, [];
      assert evs + sends == evs;
      for n := 0 to |nodes|
        invariant sch.Valid() && fresh(sch.tree.mem.Keys - old(sch.tree.mem.Keys))
        invariant packet.View() == p.SetReceiver(packet.receiver)
        invariant Traced(sch.writers, states2, evs + sends, start, sch.View())
        invariant Sends(sends, Routed(nodes[..n], p))
      {
        assert nodes[n] in nodes;
        ghost var more, q := [], packet.View();
        states2, more := PassOn(sch, nodes[n], receiver, states2, evs + sends, start);
        sends := OneSent(nodes, n, p, q, evs, sends, more);
      }
      assert nodes[..|nodes|] == nodes;
      packet.SetReceiver(receiver);
    }

    // ccpacket_set_timeout for the reader
    method SetTimeout(sch: Scheduler) returns (ghost t: Timeval, ghost states: seq<State>)
      requires Valid() && sch.Valid()
      modifies packet, sch`now
      ensures sch.Valid() && packet.View() == old(packet.View()).(expire := Adjusted(t, timeout))
      ensures Traced(sch.writers, states, [Event.Tick(t)], old(sch.View()), sch.View())
    {
      hide Scheduler.Valid, Scheduler.View, Traced, Goes, Adjusted, Normal;
      ViewTraced(sch);
      ghost var start, evs := sch.View(), [];
      var now := sch.ReadClock();
      t := now;
      states, evs := TraceMore(sch.writers, [start], [], start, Event.Tick(now), start, sch.View());
      assert evs == [Event.Tick(now)];
      packet.SetTimeout(now, timeout);
    }

    // ccreader_process_packet: the packet is given its time to live, routed and cleared
    method ProcessPacket(sch: Scheduler) returns (ghost t: Timeval, ghost states: seq<State>, ghost sends: seq<Event>)
      requires Valid() && sch.Valid() && (forall node <- nodes :: node.writer < |sch.writers|)
      modifies packet
      modifies sch`slots, sch`now, sch`armed, sch`itimer, sch`pipe, sch`tied, sch`log, sch.tree, sch.tree.pool
      modifies sch.tree.mem.Keys
      ensures sch.Valid() && fresh(sch.tree.mem.Keys - old(sch.tree.mem.Keys))
      ensures packet.View() == old(packet.View()).Clear().(expire := Adjusted(t, timeout))
      ensures Traced(sch.writers, states, [Event.Tick(t)] + sends, old(sch.View()), sch.View())
      ensures Sends(sends, Routed(nodes, old(packet.View()).(expire := Adjusted(t, timeout))))
    {
      hide Scheduler.Valid, Scheduler.View, Traced, Sends, Routed, Adjusted;
      t, states := SetTimeout(sch);
      ghost var start := old(sch.View());
      states, sends := DoWriters(sch, states, [Event.Tick(t)], start);
      packet.Clear();
    }
  }

  // what one node makes of the packet
  ghost predicate Passed(node: Node, p: Packet, receiver: int, more: seq<Event>) {
    var r := GetReceiver(node, receiver);
    if r == 0 then more == []
    else |more| == 1 && more[0].Send? && more[0].k == node.writer && more[0].packet == p.SetReceiver(r)
  }

  lemma ViewTraced(sch: Scheduler)
    requires sch.Valid()
    ensures Traced(sch.writers, [sch.View()], [], sch.View(), sch.View())
  {
    ViewRunning(sch);
  }

  lemma NoneSent(p: Packet)
    ensures Sends([], Routed([], p))
  {
  }

  lemma SendsPlus(a: seq<Event>, b: seq<Event>, x: seq<(nat, Packet)>, y: seq<(nat, Packet)>)
    requires Sends(a, x) && Sends(b, y)
    ensures Sends(a + b, x + y)
  {
  }

  function RoutedOne(node: Node, p: Packet): seq<(nat, Packet)> {
    var r := GetReceiver(node, p.receiver);
    if r == 0 then [] else [(node.writer, p.SetReceiver(r))]
  }

  lemma RoutedMore(nodes: seq<Node>, n: nat, p: Packet)
    requires n < |nodes|
    ensures Routed(nodes[..n + 1], p) == Routed(nodes[..n], p) + RoutedOne(nodes[n], p)
  {
    assert nodes[..n + 1][..n] == nodes[..n];
  }

  lemma OneSent(nodes: seq<Node>, n: nat, p: Packet, q: Packet, evs: seq<Event>, sends: seq<Event>, more: seq<Event>)
    returns (r: seq<Event>)
    requires n < |nodes| && Sends(sends, Routed(nodes[..n], p)) && Passed(nodes[n], q, p.receiver, more)
    requires q == p.SetReceiver(q.receiver)
    ensures Sends(r, Routed(nodes[..n + 1], p)) && evs + r == evs + sends + more
  {
    r := sends + more;
    assert evs + r == evs + sends + more;
    RoutedMore(nodes, n, p);
    assert Sends(more, RoutedOne(nodes[n], p));
    hide Sends, Routed, RoutedOne;
    SendsPlus(sends, more, Routed(nodes[..n], p), RoutedOne(nodes[n], p));
  }
}
