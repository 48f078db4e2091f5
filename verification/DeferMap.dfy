/** When the queue of deferred packets is a map from receivers to packets. */
module DeferMap {
  import opened SortedList
  import opened Timeval
  import opened Ccpacket
  import opened Defer
  import opened DeferRate

  // every entry carries the present time of its slot, and no slot has two
  ghost predicate Current(s: State) {
    && Sorted(s.queue)
    && (forall v <- s.queue :: v.ref < |s.slots| && v.key == Key(s, v.ref))
    && OneEach(s.queue)
  }

  ghost predicate OneEach(q: seq<Value>) {
    forall a, b | 0 <= a < b < |q| :: q[a].ref != q[b].ref
  }

  ghost function Refs(q: seq<Value>): set<nat> {
    set v | v in q :: v.ref
  }

  // what is to be sent again, when, by slot
  ghost function Pending(s: State): map<nat, (Timeval, Packet)> {
    map i | i in Refs(s.queue) && i < |s.slots| :: (s.slots[i].tv, s.slots[i].packet)
  }

  // taking the entry at k out
  lemma CutEntries(q: seq<Value>, k: nat)
    requires k < |q| && OneEach(q)
    ensures var r := q[..k] + q[k + 1..];
      OneEach(r) && Refs(r) == Refs(q) - {q[k].ref} && forall v <- r :: v in q
  {
    var r := q[..k] + q[k + 1..];
    assert forall i | 0 <= i < |r| :: r[i] == if i < k then q[i] else q[i + 1];
    forall j | j in Refs(q) && j != q[k].ref ensures j in Refs(r) {
      var v :| v in q && v.ref == j;
      assert q == q[..k] + [q[k]] + q[k + 1..];
      assert v in r;
    }
    forall j | j in Refs(r) ensures j in Refs(q) && j != q[k].ref {
      var i :| 0 <= i < |r| && r[i].ref == j;
      assert r[i] in q;
    }
  }

  // putting an entry in at k
  lemma InsertEntries(q: seq<Value>, k: nat, v: Value)
    requires k <= |q| && OneEach(q) && v.ref !in Refs(q)
    ensures var r := q[..k] + [v] + q[k..];
      OneEach(r) && Refs(r) == Refs(q) + {v.ref} && forall w <- r :: w == v || w in q
  {
    InsertMembers(q, k, v);
    InsertOneEach(q, k, v);
    hide OneEach;
  }

  lemma InsertMembers(q: seq<Value>, k: nat, v: Value)
    requires k <= |q|
    ensures var r := q[..k] + [v] + q[k..]; forall w :: w in r <==> w == v || w in q
  {
    assert q == q[..k] + q[k..];
  }

  lemma InsertOneEach(q: seq<Value>, k: nat, v: Value)
    requires k <= |q| && OneEach(q) && v.ref !in Refs(q)
    ensures OneEach(q[..k] + [v] + q[k..])
  {
    var r := q[..k] + [v] + q[k..];
    forall a, b | 0 <= a < b < |r| ensures r[a].ref != r[b].ref {
      if a == k { assert r[b] == q[b - 1] && q[b - 1] in q; }
      else if b == k { assert r[a] == q[a] && q[a] in q; }
    }
  }

  lemma RemoveEntries(q: seq<Value>, key: int)
    requires Sorted(q) && OneEach(q)
    ensures OneEach(Remove(q, key)) && Sorted(Remove(q, key)) && forall v <- Remove(q, key) :: v in q
    ensures Refs(Remove(q, key)) == if Has(q, key) then Refs(q) - {q[LowerBound(q, key)].ref} else Refs(q)
  {
    RemoveSorted(q, key);
    if Has(q, key) { CutEntries(q, LowerBound(q, key)); }
    hide OneEach, Sorted, Refs, LowerBound;
  }

  lemma AddEntries(q: seq<Value>, v: Value)
    requires Sorted(q) && OneEach(q) && v.ref !in Refs(q)
    ensures OneEach(Add(q, v)) && Sorted(Add(q, v)) && Refs(Add(q, v)) == Refs(q) + {v.ref}
    ensures forall w <- Add(q, v) :: w == v || w in q
  {
    AddSorted(q, v);
    InsertEntries(q, LowerBound(q, v.key), v);
    hide OneEach, Sorted, Refs, LowerBound;
  }

  // with its own entry taken, a slot is out of the queue
  lemma TakeOutCurrent(s: State, i: nat)
    requires Current(s) && i < |s.slots| && TakesOwn(s.queue, Key(s, i), i)
    ensures Current(TakeOut(s, i)) && Refs(TakeOut(s, i).queue) == Refs(s.queue) - {i}
  {
    RemoveEntries(s.queue, Key(s, i));
    hide Micros;
  }

  // a removal by the time of a queued slot finds some entry
  lemma QueuedFound(s: State, i: nat)
    requires Current(s) && i < |s.slots| && i in Refs(s.queue)
    ensures Has(s.queue, Key(s, i))
  {
    var key := Key(s, i);
    var k :| 0 <= k < |s.queue| && s.queue[k].ref == i;
    assert s.queue[k] in s.queue && Splits(s.queue, key, LowerBound(s.queue, key));
  }

  // otherwise another slot loses its entry
  lemma TakeOutLoses(s: State, i: nat)
    requires Current(s) && i < |s.slots| && !TakesOwn(s.queue, Key(s, i), i)
    ensures exists j :: j in Refs(s.queue) && j != i && Refs(TakeOut(s, i).queue) == Refs(s.queue) - {j}
  {
    RemoveEntries(s.queue, Key(s, i));
    if !Has(s.queue, Key(s, i)) { QueuedFound(s, i); }
    var v := s.queue[LowerBound(s.queue, Key(s, i))];
    assert v.ref in Refs(s.queue);
  }

  lemma PutCurrent(s: State, i: nat, packet: Packet, ms: nat, t: Timeval, room: bool)
    requires Current(s) && i < |s.slots| && i !in Refs(s.queue)
    ensures var r := Put(s, i, packet, ms, t, room);
      Current(r) && Refs(r.queue) == Refs(s.queue) + if room then {i} else {}
  {
    var r, v := Put(s, i, packet, ms, t, room), Value(Micros(Adjusted(t, ms)), i);
    AddEntries(s.queue, v);
    hide Micros, Adjusted;
    forall w <- r.queue ensures w.ref < |r.slots| && w.key == Key(r, w.ref) {
      if w in s.queue { assert w.ref in Refs(s.queue); }
    }
  }

  lemma RearmedCurrent(s: State, t: Timeval)
    requires Current(s)
    ensures Current(Rearmed(s, t)) && Rearmed(s, t).queue == s.queue && Rearmed(s, t).slots == s.slots
    ensures Rearmed(s, t).tied == s.tied
  {
    hide Micros;
  }

  // Deferring is a map update exactly when the first entry with the time of the slot
  // is its own, or there is none; otherwise some other receiver loses its packet.
  lemma DeferIsMapUpdate(s: State, i: nat, packet: Option<Packet>, ms: nat, e: Env)
    requires Current(s) && i < |s.slots| && (packet.Some? ==> e.room)
    ensures var r, p := DeferPacket(s, i, packet, ms, e), Pending(s);
      var updated := if packet.None? then p - {i} else p[i := (Adjusted(e.tv, ms), packet.value)];
      && (TakesOwn(s.queue, Key(s, i), i) <==> Pending(r) == updated)
      && (TakesOwn(s.queue, Key(s, i), i) ==> Current(r) && r.tied == s.tied)
      && (!TakesOwn(s.queue, Key(s, i), i) ==> r.tied && exists j :: j in p && j != i && j !in Pending(r))
  {
    var out, r := TakeOut(s, i), DeferPacket(s, i, packet, ms, e);
    DeferKeeps(s, i, packet, ms, e);
    if TakesOwn(s.queue, Key(s, i), i) {
      DeferOwn(s, i, packet, ms, e);
      PendingUpdate(s, r, i);
    } else {
      TakeOutLoses(s, i);
      var j :| j in Refs(s.queue) && j != i && Refs(out.queue) == Refs(s.queue) - {j};
      DeferRefs(s, i, packet, ms, e);
      assert j !in Refs(r.queue);
      assert j < |s.slots|;
      assert j in Pending(s) && j !in Pending(r);
    }
  }

  lemma DeferOwn(s: State, i: nat, packet: Option<Packet>, ms: nat, e: Env)
    requires Current(s) && i < |s.slots| && TakesOwn(s.queue, Key(s, i), i)
    ensures var r := DeferPacket(s, i, packet, ms, e);
      && Current(r) && r.tied == s.tied
      && Refs(r.queue) == Refs(s.queue) - {i} + if packet.Some? && e.room then {i} else {}
  {
    TakeOutCurrent(s, i);
    var out := TakeOut(s, i);
    hide Current, TakeOut, Put, Rearmed;
    if packet.None? {
      RearmedCurrent(out, e.arm);
    } else {
      PutCurrent(out, i, packet.value, ms, e.tv, e.room);
      if e.room { RearmedCurrent(Put(out, i, packet.value, ms, e.tv, true), e.arm); }
      PutTied(out, i, packet.value, ms, e.tv, e.room);
    }
    assert out.tied == s.tied && |out.slots| == |s.slots| by { TakeOutOwn(s, i); }
  }

  lemma TakeOutOwn(s: State, i: nat)
    requires i < |s.slots|
    ensures TakeOut(s, i).tied == (s.tied || !TakesOwn(s.queue, Key(s, i), i)) && TakeOut(s, i).slots == s.slots
  {
  }

  lemma PutTied(s: State, i: nat, packet: Packet, ms: nat, t: Timeval, room: bool)
    requires i < |s.slots|
    ensures Put(s, i, packet, ms, t, room).tied == s.tied
  {
  }

  lemma DeferRefs(s: State, i: nat, packet: Option<Packet>, ms: nat, e: Env)
    requires i < |s.slots|
    ensures Refs(DeferPacket(s, i, packet, ms, e).queue) <= Refs(TakeOut(s, i).queue) + {i}
    ensures DeferPacket(s, i, packet, ms, e).tied == TakeOut(s, i).tied
  {
    TakenFrom(TakeOut(s, i).queue, 0, Value(Micros(Adjusted(e.tv, ms)), i));
    hide Adjusted, Micros, Add, TakeOut, FromNow;
  }

  lemma PendingUpdate(s: State, r: State, i: nat)
    requires Current(s) && Current(r) && i < |s.slots| == |r.slots|
    requires forall j | 0 <= j < |s.slots| && j != i :: r.slots[j] == s.slots[j]
    ensures Refs(r.queue) == Refs(s.queue) - {i} ==> Pending(r) == Pending(s) - {i}
    ensures Refs(r.queue) == Refs(s.queue) - {i} + {i} ==>
      Pending(r) == Pending(s)[i := (r.slots[i].tv, r.slots[i].packet)]
  {
  }

  // --- a lost command ---

  ghost predicate Soon(w: Writer, s: State, i: nat, t: Timeval, e: Env) {
    i < |s.slots| && s.slots[i].sent == t && 0 < w.gaptime && e == Env(t, true, t, t, t, true, t)
  }

  // a command too soon after the last write goes in front of those that came at the same time
  lemma SoonQueued(w: Writer, s: State, i: nat, packet: Packet, t: Timeval, e: Env)
    requires Soon(w, s, i, t, e) && !Has(s.queue, Key(s, i))
    requires s.queue == [] || s.queue[0].key == Micros(t) + Step(w.gaptime)
    ensures var r, key := WriteSlot(w, s, i, packet, e), Micros(t) + Step(w.gaptime);
      && r.queue == [Value(key, i)] + s.queue && r.log == s.log && |r.slots| == |s.slots| && Key(r, i) == key
      && (forall j | 0 <= j < |s.slots| && j != i :: Key(r, j) == Key(s, j))
      && (forall j | Soon(w, s, j, t, e) :: Soon(w, r, j, t, e))
  {
    var key := Micros(t) + Step(w.gaptime);
    assert Since(t, t) == 0;
    assert Remove(s.queue, Key(s, i)) == s.queue;
    assert LowerBound(s.queue, key) == 0;
    assert Micros(Adjusted(t, w.gaptime)) == key;
    hide Adjusted, Micros, Step, TakesOwn, FromNow, Since;
  }

  // Two receivers sent a command too soon, at the same clock reading, are queued for the
  // same time, the later one in front. The next command for the earlier one then throws
  // out the command of the other, although that was never written.
  lemma TieLosesCommand(w: Writer, s: State, i: nat, j: nat, packet: Packet, t: Timeval, e: Env)
    requires Current(s) && Soon(w, s, i, t, e) && i != j
    requires s.queue != [] && s.queue[0] == Value(Key(s, i), j)
    ensures var r := WriteSlot(w, s, i, packet, e);
      j in Refs(s.queue) && j !in Refs(r.queue) && r.log == s.log && r.tied
  {
    assert Since(t, t) == 0;
    var read := s.(now := t);
    assert LowerBound(s.queue, Key(s, i)) == 0 && Key(read, i) == Key(s, i);
    RemoveEntries(s.queue, Key(s, i));
    DeferKeeps(read, i, Some(packet), w.gaptime, e);
    DeferRefs(read, i, Some(packet), w.gaptime, e);
    assert s.queue[0] in s.queue;
    hide DeferPacket, Refs, Remove, Micros, Since, Current;
  }
}
