/** When two deferred packets get into each other's way: a condition on times under which
    they never do, and a run from the very start in which they do. */
module DeferTie {
  import opened SortedList
  import opened Timeval
  import opened Ccpacket
  import opened Defer
  import opened DeferRate
  import opened DeferMap
  import opened DeferWake
  import opened DeferStop
  import opened Scheduler

  // --- no ties ---

  // no packet of another receiver waits for this time
  ghost predicate Alone(q: seq<Value>, key: int, i: nat) { forall v <- q :: v.ref != i ==> v.key != key }

  // A removal takes the entry that is meant when no other receiver's has the same time.
  lemma AloneTakesOwn(s: State, i: nat)
    requires Current(s) && i < |s.slots| && Alone(s.queue, Key(s, i), i)
    ensures TakesOwn(s.queue, Key(s, i), i)
  {
    if Has(s.queue, Key(s, i)) {
      var v := s.queue[LowerBound(s.queue, Key(s, i))];
      assert v in s.queue;
    } else if i in Refs(s.queue) {
      QueuedFound(s, i);
    } else {
      forall v <- s.queue ensures v.ref != i { assert v.ref in Refs(s.queue); }
    }
  }

  lemma DeferUntied(s: State, i: nat, packet: Option<Packet>, ms: nat, e: Env)
    requires i < |s.slots| && !s.tied && TakesOwn(s.queue, Key(s, i), i)
    ensures !DeferPacket(s, i, packet, ms, e).tied
  {
    hide TakesOwn, Current;
    DeferRefs(s, i, packet, ms, e);
    TakeOutOwn(s, i);
  }

  lemma WriteSlotUntied(w: Writer, s: State, i: nat, packet: Packet, e: Env)
    requires i < |s.slots| && !s.tied && TakesOwn(s.queue, Key(s, i), i)
    ensures !WriteSlot(w, s, i, packet, e).tied
  {
    hide TakesOwn, DeferPacket, TooSoon, Packet.IsStop, Packet.IsExpired, Micros;
    var t := s.(now := e.soon);
    if TooSoon(w, s.slots[i], e.soon) {
      DeferUntied(t, i, Some(packet), w.gaptime, e);
    } else if e.accept {
      CheckUntied(w, Stamp(t, i, packet, e), i, packet, e);
    }
  }

  lemma CheckUntied(w: Writer, s: State, i: nat, packet: Packet, e: Env)
    requires i < |s.slots| && !s.tied && TakesOwn(s.queue, Key(s, i), i)
    ensures !CheckDeferred(w, s, i, packet, e).tied
  {
    hide TakesOwn, DeferPacket, Packet.IsStop, Packet.IsExpired, Micros;
    if packet.IsStop() {
      if s.slots[i].nCnt < 1 {
        DeferUntied(s, i, Some(packet), w.gaptime, e);
      } else {
        DeferUntied(SetCount(s, i, 0), i, None, 0, e);
      }
    } else {
      var p := if packet.IsExpired(w.timeout, e.expiry) then Some(packet) else None;
      DeferUntied(s.(now := e.expiry), i, p, if p.Some? then w.timeout else 0, e);
    }
  }

  // The times that decide: a packet for a receiver must find no other receiver's waiting
  // for the time of its own slot, and when the first packet is sent again no other may
  // wait for the time that it is given meanwhile.
  ghost predicate Clear(ws: seq<Writer>, s: State, ev: Event) {
    match ev
    case Send(k, packet, e) => k < |ws| && (Reaches(ws[k], s, packet) ==>
      var i := ws[k].first + packet.receiver - 1; Alone(s.queue, Key(s, i), i))
    case Next(t, e, last) => s.queue != [] && s.queue[0].ref < |s.slots| && s.slots[s.queue[0].ref].writer < |ws| ==>
      var i := s.queue[0].ref; Alone(s.queue, Micros(Adjusted(t, ws[s.slots[i].writer].timeout)), i)
    case _ => true
  }

  lemma SendFirstUntied(ws: seq<Writer>, s: State, t: Timeval, e: Env)
    requires Holds(ws, s) && Current(s) && !s.tied && s.queue != []
    requires s.queue[0].ref < |s.slots| && s.slots[s.queue[0].ref].writer < |ws|
    requires var i := s.queue[0].ref; Alone(s.queue, Micros(Adjusted(t, ws[s.slots[i].writer].timeout)), i)
    ensures !SendFirst(ws, s, t, e).tied
  {
    hide Holds, Current, WriteSlot, Adjusted, Micros, TakesOwn, Alone, Put, TakeOut, Remove;
    var i := s.queue[0].ref;
    var w, packet := ws[s.slots[i].writer], s.slots[i].packet;
    TakeOutOwn(s, i);
    SendFirstSplit(ws, s, t);
    var p := Put(TakeOut(s, i), i, packet, w.timeout, t, false);
    PutAlone(s, i, packet, w.timeout, t);
    TrackedCurrent(p);
    AloneTakesOwn(p, i);
    WriteSlotUntied(w, p, i, packet, e);
  }

  lemma TrackedCurrent(s: State)
    requires Tracked(s) && !s.tied
    ensures Current(s)
  {
  }

  lemma PutAlone(s: State, i: nat, packet: Packet, ms: nat, t: Timeval)
    requires i < |s.slots| && Current(s) && Alone(s.queue, Micros(Adjusted(t, ms)), i)
    ensures var p := Put(TakeOut(s, i), i, packet, ms, t, false); i < |p.slots| && Alone(p.queue, Key(p, i), i)
  {
    hide Adjusted, Micros, Remove;
    TakeOutSub(s, i);
  }

  lemma AfterUntied(ws: seq<Writer>, s: State, ev: Event)
    requires Holds(ws, s) && Current(s) && !s.tied && Timely(ws, s, ev) && Clear(ws, s, ev)
    requires s.queue != [] ==> s.queue[0].ref < |s.slots| && s.slots[s.queue[0].ref].writer < |ws|
    ensures !After(ws, s, ev).tied
  {
    hide Holds, Current, WriteSlot, SendFirst, Rearmed, Alone, Adjusted, Micros, TakesOwn, Waits, NotBefore;
    match ev
    case Send(k, packet, e) =>
      if Reaches(ws[k], s, packet) {
        var i := ws[k].first + packet.receiver - 1;
        AloneTakesOwn(s, i);
        WriteSlotUntied(ws[k], s, i, packet, e);
      }
    case Next(t, e, last) =>
      if s.pipe > 0 {
        var read := s.(pipe := s.pipe - 1);
        if s.queue == [] {
          RearmedTied(read, last);
        } else {
          TimerHoldsPipe(ws, s);
          SamePipe(s, read);
          SendFirstUntied(ws, read, t, e);
          RearmedTied(SendFirst(ws, read, t, e), last);
        }
      }
    case _ =>
  }

  lemma SamePipe(s: State, r: State)
    requires Current(s) && r == s.(pipe := r.pipe)
    ensures Current(r)
  {
    hide Micros;
  }

  // In a run without such ties every removal takes the entry that is meant, so that
  // deferring stays a map update and the timer never misses a packet.
  lemma {:induction false} RunsUntied(ws: seq<Writer>, states: seq<State>, evs: seq<Event>, n: nat)
    requires Runs(ws, states, evs) && n <= |evs| && Current(states[0]) && Wake(states[0]) && !states[0].tied
    requires forall m | 0 <= m < n :: Clear(ws, states[m], evs[m])
    ensures !states[n].tied && Current(states[n]) && Wake(states[n])
  {
    hide Current, Wake, Holds, After, Timely, Clear;
    RunsWake(ws, states, evs, n);
    if n > 0 {
      RunsUntied(ws, states, evs, n - 1);
      RunsHold(ws, states, evs, n - 1);
      assert Goes(ws, states[n - 1], evs[n - 1], states[n]);
      AfterUntied(ws, states[n - 1], evs[n - 1]);
    }
  }

  // --- a lost command, from the start ---

  // the engine as it is after defer_init and one ccwriter_set_receivers, all at time t
  function NewEngine(n: nat, t: Timeval): State {
    State(seq(n, _ => Slot(0, Timeval(0, 0), t, Packet(0, 0, 0, 0, 0, t), 0)), [], t, 0, 0, t, [], false)
  }

  lemma NewEngineRunning(w: Writer, t: Timeval)
    requires Normal(t) && w.first == 0
    ensures Extends(State([], [], t, 0, 0, t, [], false), NewEngine(w.nRcv, t), w, 0)
    ensures Running([w], NewEngine(w.nRcv, t)) && Current(NewEngine(w.nRcv, t))
  {
    StartRunning(t);
    ReceiversRunning([], State([], [], t, 0, 0, t, [], false), NewEngine(w.nRcv, t), w);
    assert [] + [w] == [w];
    hide Running;
  }

  // a step of one writer at one clock reading
  lemma SendStep(w: Writer, s: State, i: nat, packet: Packet, t: Timeval, e: Env)
    requires Running([w], s) && w.first == 0 && i < w.nRcv && packet.receiver == i + 1 && s.now == t
      && Soon(w, s, i, t, e) && Normal(t)
    ensures var r := WriteSlot(w, s, i, packet, e);
      Goes([w], s, Event.Send(0, packet, e), r) && Running([w], r)
  {
    hide Running, WriteSlot, Soon;
    StillEnv(t);
    SoonEnv(w, s, i, t, e);
    RunningParts([w], s, 0);
    StillForward(t);
    SendGoes([w], s, 0, packet, e);
  }

  lemma SoonEnv(w: Writer, s: State, i: nat, t: Timeval, e: Env)
    requires Soon(w, s, i, t, e)
    ensures e == Env(t, true, t, t, t, true, t) && i < |s.slots|
  {
  }

  lemma StillForward(t: Timeval)
    requires Normal(t)
    ensures Forward(t, Env(t, true, t, t, t, true, t))
  {
  }

  // what a command too soon leaves behind
  lemma SoonKeeps(w: Writer, s: State, i: nat, packet: Packet, t: Timeval, e: Env)
    requires Soon(w, s, i, t, e)
    ensures var r := WriteSlot(w, s, i, packet, e);
      && |r.slots| == |s.slots| && r.slots[i].packet == packet && r.now == t && r.log == s.log
      && forall j | 0 <= j < |s.slots| && j != i :: r.slots[j] == s.slots[j]
  {
    hide DeferPacket;
    assert Since(t, t) == 0;
    DeferKeeps(s.(now := t), i, Some(packet), w.gaptime, e);
  }

  // From a new engine with one writer: a command for each of any two receivers and then one
  // more for the first of them, all at one clock reading and therefore too soon after the
  // start, make a run at the end of which the command for the second is gone from the queue,
  // and nothing was written.
  lemma TieReached(w: Writer, t: Timeval, one: Packet, two: Packet, three: Packet)
    requires Normal(t) && Micros(t) > 0 && w.first == 0 && w.gaptime > 0
    requires 1 <= one.receiver <= w.nRcv && 1 <= two.receiver <= w.nRcv
    requires one.receiver != two.receiver && three.receiver == one.receiver
    ensures exists states, evs :: Loses(w, t, one, two, three, states, evs)
  {
    hide WriteSlot, Running, Holds, Current, Goes, Soon, Micros, Step, Refs, Has, LowerBound, NewEngine;
    var i, j := one.receiver - 1, two.receiver - 1;
    var e := Env(t, true, t, t, t, true, t);
    var s0 := NewEngine(w.nRcv, t);
    NewEngineRunning(w, t);
    SoonStart(w, i, t, e);
    SoonStart(w, j, t, e);
    var s1 := WriteSlot(w, s0, i, one, e);
    SoonQueued(w, s0, i, one, t, e);
    SoonKeeps(w, s0, i, one, t, e);
    SendStep(w, s0, i, one, t, e);
    OtherKey(w, s1, i, j, t);
    var s2 := WriteSlot(w, s1, j, two, e);
    SoonQueued(w, s1, j, two, t, e);
    SoonKeeps(w, s1, j, two, t, e);
    SendStep(w, s1, j, two, t, e);
    PairCurrent(s2, i, j, Micros(t) + Step(w.gaptime));
    var s3 := WriteSlot(w, s2, i, three, e);
    TieLosesCommand(w, s2, i, j, three, t, e);
    SendStep(w, s2, i, three, t, e);
    var states, evs := [s0, s1, s2, s3], [Event.Send(0, one, e), Event.Send(0, two, e), Event.Send(0, three, e)];
    RunningHolds(w, s0);
    forall n | 0 <= n < |evs| ensures Goes([w], states[n], evs[n], states[n + 1]) {}
    assert Loses(w, t, one, two, three, states, evs);
  }

  // a run of these three commands in which the second is queued and then lost unwritten
  ghost predicate Loses(w: Writer, t: Timeval, one: Packet, two: Packet, three: Packet, states: seq<State>,
      evs: seq<Event>)
    requires 1 <= two.receiver
  {
    var j := two.receiver - 1;
    && |evs| == 3 && Runs([w], states, evs) && states[0] == NewEngine(w.nRcv, t)
    && (forall n | 0 <= n < 3 :: evs[n].Send? && evs[n].k == 0)
    && evs[0].packet == one && evs[1].packet == two && evs[2].packet == three
    && j < |states[2].slots| && j in Refs(states[2].queue) && states[2].slots[j].packet == two
    && j !in Refs(states[3].queue) && states[3].log == []
  }

  lemma SoonStart(w: Writer, i: nat, t: Timeval, e: Env)
    requires w.gaptime > 0 && i < w.nRcv && e == Env(t, true, t, t, t, true, t)
    ensures var s := NewEngine(w.nRcv, t);
      && |s.slots| == w.nRcv && s.queue == [] && s.log == [] && s.now == t
      && Soon(w, s, i, t, e) && !Has(s.queue, Key(s, i)) && Key(s, i) == 0
  {
  }

  lemma OtherKey(w: Writer, s: State, i: nat, j: nat, t: Timeval)
    requires Micros(t) > 0 && j < |s.slots| && Key(s, j) == 0 && s.queue == [Value(Micros(t) + Step(w.gaptime), i)] + []
    ensures !Has(s.queue, Key(s, j)) && s.queue[0].key == Micros(t) + Step(w.gaptime)
  {
  }

  lemma PairCurrent(s: State, i: nat, j: nat, key: int)
    requires i < |s.slots| && j < |s.slots| && i != j && Key(s, i) == key && Key(s, j) == key
    requires s.queue == [Value(key, j)] + [Value(key, i)]
    ensures Current(s) && j in Refs(s.queue)
  {
    assert s.queue == [Value(key, j), Value(key, i)];
    assert s.queue[0] in s.queue;
  }

  lemma RunningHolds(w: Writer, s: State)
    requires Running([w], s)
    ensures Holds([w], s)
  {
  }
}
