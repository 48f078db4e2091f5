/** When a packet is written, which, and what is queued afterwards, in microseconds of the
    clock readings and entries of the queue. */
module DeferWrites {
  import opened SortedList
  import opened Timeval
  import opened Ccpacket
  import opened Defer
  import opened DeferRate
  import opened DeferMap
  import opened DeferWake
  import opened DeferStop

  // slot i is queued with this packet for this time
  ghost predicate QueuedFor(s: State, i: nat, packet: Packet, key: int) {
    && i < |s.slots| && s.slots[i].packet == packet && Micros(s.slots[i].tv) == key
    && Value(key, i) in s.queue
  }

  ghost predicate Unqueued(s: State, i: nat) { !s.tied ==> i !in Refs(s.queue) }

  // What becomes of a packet for slot i, which was in this state, with this log. Times are
  // microseconds; what lies in the millisecond between two thresholds depends on truncation.
  ghost predicate Outcome(w: Writer, slot: Slot, log: seq<Written>, i: nat, packet: Packet, e: Env, r: State) {
    var since := Micros(e.soon) - Micros(slot.sent);
    && i < |r.slots|
    && (r.log == log || r.log == log + [Written(i, e.soon, e.sent, packet)])
    && (r.log != log ==> e.accept) && (since >= 1000 * w.gaptime && e.accept ==> r.log != log)
    && (since <= 1000 * w.gaptime - 1000 ==> r.log == log)
    && (since <= 1000 * w.gaptime - 1000 || (e.accept && r.log == log) ==> PutOff(w, slot, i, packet, e, r))
    && (r.log != log ==> if packet.IsStop() then StopKept(w, slot, i, packet, e, r)
      else CommandKept(w, slot, i, packet, e, r))
  }

  // too soon: it waits for the gap time, in place of what waited before
  ghost predicate PutOff(w: Writer, slot: Slot, i: nat, packet: Packet, e: Env, r: State)
    requires i < |r.slots|
  {
    && (e.room ==> QueuedFor(r, i, packet, Micros(e.tv) + Step(w.gaptime)))
    && (!e.room ==> Unqueued(r, i))
    && r.slots[i].nCnt == slot.nCnt && r.slots[i].sent == slot.sent
  }

  // written stops: the first waits for its one repeat, the second is done with
  ghost predicate StopKept(w: Writer, slot: Slot, i: nat, packet: Packet, e: Env, r: State)
    requires i < |r.slots|
  {
    && r.slots[i].sent == e.sent
    && if slot.nCnt == 0 then
         && r.slots[i].nCnt == 1 && (e.room ==> QueuedFor(r, i, packet, Micros(e.tv) + Step(w.gaptime)))
         && (!e.room ==> Unqueued(r, i))
       else r.slots[i].nCnt == 0 && Unqueued(r, i)
  }

  // written commands wait to be sent again while they outlive the timeout by a millisecond,
  // and are done with when they do not outlive it
  ghost predicate CommandKept(w: Writer, slot: Slot, i: nat, packet: Packet, e: Env, r: State)
    requires i < |r.slots|
  {
    var left := Micros(packet.expire) - Micros(e.expiry);
    && r.slots[i].sent == e.sent && r.slots[i].nCnt == slot.nCnt
    && (left >= 1000 * w.timeout + 1000 && e.room ==> QueuedFor(r, i, packet, Micros(e.tv) + Step(w.timeout)))
    && (left <= 1000 * w.timeout || !e.room ==> Unqueued(r, i))
  }

  // late enough to be written, and refused by the writer
  ghost predicate Refused(w: Writer, slot: Slot, e: Env) {
    !e.accept && Micros(e.soon) - Micros(slot.sent) >= 1000 * w.gaptime
  }

  // --- one write ---

  lemma DeferQueued(s: State, i: nat, packet: Packet, ms: nat, e: Env)
    requires i < |s.slots| && e.room
    ensures QueuedFor(DeferPacket(s, i, Some(packet), ms, e), i, packet, Micros(e.tv) + Step(ms))
  {
    hide TakesOwn, Remove, FromNow, Add, Step;
    AddedIn(TakeOut(s, i).queue, Value(Micros(Adjusted(e.tv, ms)), i));
  }

  lemma AddedIn(q: seq<Value>, v: Value)
    ensures v in Add(q, v)
  {
    var k := LowerBound(q, v.key);
    assert (q[..k] + [v] + q[k..])[k] == v;
  }

  // defer_packet with a packet
  lemma DeferOutcome(s: State, i: nat, packet: Packet, ms: nat, e: Env)
    requires i < |s.slots| && Tracked(s)
    ensures var r := DeferPacket(s, i, Some(packet), ms, e);
      && r.log == s.log && |r.slots| == |s.slots|
      && r.slots[i].sent == s.slots[i].sent && r.slots[i].nCnt == s.slots[i].nCnt
      && (e.room ==> QueuedFor(r, i, packet, Micros(e.tv) + Step(ms)))
      && (!e.room ==> Unqueued(r, i))
  {
    hide DeferPacket, Current, QueuedFor, Step;
    DeferKeeps(s, i, Some(packet), ms, e);
    DeferSelf(s, i, Some(packet), ms, e);
    if e.room { DeferQueued(s, i, packet, ms, e); }
  }

  // and without
  lemma DropOutcome(s: State, i: nat, e: Env)
    requires i < |s.slots| && Tracked(s)
    ensures var r := DeferPacket(s, i, None, 0, e);
      && r.log == s.log && |r.slots| == |s.slots|
      && r.slots[i].sent == s.slots[i].sent && r.slots[i].nCnt == s.slots[i].nCnt && Unqueued(r, i)
  {
    hide DeferPacket, Current;
    DeferKeeps(s, i, None, 0, e);
    DeferSelf(s, i, None, 0, e);
  }

  lemma CountKeeps(s: State, i: nat, n: nat, packet: Packet, key: int)
    requires i < |s.slots|
    ensures var r := SetCount(s, i, n);
      && |r.slots| == |s.slots| && r.log == s.log && r.slots[i].sent == s.slots[i].sent && r.slots[i].nCnt == n
      && (QueuedFor(s, i, packet, key) ==> QueuedFor(r, i, packet, key)) && (Unqueued(s, i) ==> Unqueued(r, i))
      && (Tracked(s) ==> Tracked(r))
  {
    SameQueue(s, SetCount(s, i, n));
    hide Current, Micros;
  }

  lemma StopOutcome(w: Writer, s: State, i: nat, packet: Packet, e: Env)
    requires i < |s.slots| && Tracked(s) && packet.IsStop() && s.slots[i].sent == e.sent
    ensures var r := CheckDeferred(w, s, i, packet, e);
      i < |r.slots| && StopKept(w, s.slots[i], i, packet, e, r) && r.log == s.log
  {
    hide DeferPacket, Tracked, QueuedFor, Unqueued, Step, Packet.IsStop, Micros;
    var key := Micros(e.tv) + Step(w.gaptime);
    if s.slots[i].nCnt < 1 {
      DeferOutcome(s, i, packet, w.gaptime, e);
      CountKeeps(DeferPacket(s, i, Some(packet), w.gaptime, e), i, s.slots[i].nCnt + 1, packet, key);
    } else {
      CountKeeps(s, i, 0, packet, key);
      DropOutcome(SetCount(s, i, 0), i, e);
    }
  }

  // in microseconds, when truncated milliseconds are more than a number of them
  lemma MoreThan(start: Timeval, end: Timeval, ms: nat)
    ensures Micros(end) - Micros(start) >= 1000 * ms + 1000 ==> FromNow(end, start) > ms
    ensures Micros(end) - Micros(start) <= 1000 * ms ==> FromNow(end, start) <= ms
    ensures Micros(end) >= Micros(start) && Micros(end) - Micros(start) >= 1000 * ms ==> Since(start, end) >= ms
    ensures Micros(end) - Micros(start) <= 1000 * ms - 1000 ==> Since(start, end) < ms || ms == 0
  {
    hide Micros, Elapsed;
    ElapsedError(start, end);
  }

  lemma CommandOutcome(w: Writer, s: State, i: nat, packet: Packet, e: Env)
    requires i < |s.slots| && Tracked(s) && !packet.IsStop() && s.slots[i].sent == e.sent
    ensures var r := CheckDeferred(w, s, i, packet, e);
      i < |r.slots| && CommandKept(w, s.slots[i], i, packet, e, r) && r.log == s.log
  {
    hide DeferPacket, Tracked, QueuedFor, Unqueued, Step, Packet.IsStop, Micros, FromNow;
    var t := s.(now := e.expiry);
    SameQueue(s, t);
    MoreThan(e.expiry, packet.expire, w.timeout);
    if packet.IsExpired(w.timeout, e.expiry) {
      DeferOutcome(t, i, packet, w.timeout, e);
    } else {
      DropOutcome(t, i, e);
    }
  }

  lemma WriteOutcome(w: Writer, s: State, i: nat, packet: Packet, e: Env)
    requires i < |s.slots| && Tracked(s) && Micros(s.slots[i].sent) <= Micros(e.soon)
    ensures var r := WriteSlot(w, s, i, packet, e);
      && Outcome(w, s.slots[i], s.log, i, packet, e, r)
      && (Refused(w, s.slots[i], e) ==> r == s.(now := e.soon))
  {
    hide DeferPacket, CheckDeferred, Tracked, QueuedFor, Unqueued, Step, Packet.IsStop, Micros, Since;
    var t := s.(now := e.soon);
    SameQueue(s, t);
    MoreThan(s.slots[i].sent, e.soon, w.gaptime);
    if TooSoon(w, s.slots[i], e.soon) {
      DeferOutcome(t, i, packet, w.gaptime, e);
    } else if e.accept {
      var u := Stamp(t, i, packet, e);
      SameQueue(t, u);
      LogLonger(s.log, Written(i, e.soon, e.sent, packet));
      if packet.IsStop() { StopOutcome(w, u, i, packet, e); } else { CommandOutcome(w, u, i, packet, e); }
    }
  }

  lemma LogLonger(log: seq<Written>, x: Written)
    ensures log + [x] != log
  {
    assert |log + [x]| == |log| + 1;
  }

  // --- one event ---

  // A packet sent to a receiver, in any run: what is written, and what is queued. A packet for
  // a receiver that the writer does not have changes nothing.
  lemma SendOutcome(ws: seq<Writer>, states: seq<State>, evs: seq<Event>, n: nat)
    requires Runs(ws, states, evs) && n < |evs| && Tracked(states[0]) && Woken(states[0])
    requires evs[n].Send?
    ensures evs[n].k < |ws|
    ensures var (ev, s, r) := (evs[n], states[n], states[n + 1]);
      var (w, i) := (ws[ev.k], ws[ev.k].first + ev.packet.receiver - 1);
      if ev.packet.receiver < 1 || ev.packet.receiver > w.nRcv then r == s
      else
        && i < |s.slots| && Outcome(w, s.slots[i], s.log, i, ev.packet, ev.e, r)
        && (Refused(w, s.slots[i], ev.e) ==> r == s.(now := ev.e.soon))
  {
    hide Holds, Current, Wake, WriteSlot, Outcome, Micros;
    var (ev, s) := (evs[n], states[n]);
    RunsWake(ws, states, evs, n);
    RunsHold(ws, states, evs, n);
    assert Goes(ws, s, ev, states[n + 1]);
    if 1 <= ev.packet.receiver <= ws[ev.k].nRcv {
      var i := ws[ev.k].first + ev.packet.receiver - 1;
      SlotOf(ws, s, ev.k);
      HoldsParts(ws, s, i);
      SentBefore(s.slots[i], s.now, ev.e);
      WriteOutcome(ws[ev.k], s, i, ev.packet, ev.e);
    }
  }

  // every receiver has its slot
  lemma SlotOf(ws: seq<Writer>, s: State, k: nat)
    requires Holds(ws, s) && k < |ws|
    ensures ws[k].first + ws[k].nRcv <= |s.slots|
  {
    hide Coherent, Stamped, Spaced, Owned;
    assert Owns(ws[k], k, s.slots);
  }

  lemma SentBefore(slot: Slot, now: Timeval, e: Env)
    requires SlotOk(slot, now) && Forward(now, e)
    ensures Micros(slot.sent) <= Micros(e.soon)
  {
    hide Micros;
  }

  // The first packet of the queue, when it is its turn: it is written as it was queued, or
  // put off, or refused and then out of the queue.
  lemma NextOutcome(ws: seq<Writer>, states: seq<State>, evs: seq<Event>, n: nat)
    requires Runs(ws, states, evs) && n < |evs| && Tracked(states[0]) && Woken(states[0])
    requires evs[n].Next? && states[n].pipe > 0 && states[n].queue != []
    ensures var (ev, s, r) := (evs[n], states[n], states[n + 1]);
      var i := s.queue[0].ref;
      && i < |s.slots| && s.slots[i].writer < |ws|
      && Outcome(ws[s.slots[i].writer], s.slots[i], s.log, i, s.slots[i].packet, ev.e, r)
      && (Refused(ws[s.slots[i].writer], s.slots[i], ev.e) ==> Unqueued(r, i))
  {
    hide Holds, Current, Wake, WriteSlot, Outcome, Micros, SendFirst, Rearmed, Put, TakeOut;
    var (ev, s) := (evs[n], states[n]);
    RunsWake(ws, states, evs, n);
    RunsHold(ws, states, evs, n);
    assert Goes(ws, s, ev, states[n + 1]);
    var read := s.(pipe := s.pipe - 1);
    TimerHoldsPipe(ws, s);
    SameQueue(s, read);
    FirstOutcome(ws, read, ev.t, ev.e);
    var sent := SendFirst(ws, read, ev.t, ev.e);
    var i := s.queue[0].ref;
    RearmedShape(sent, ev.last);
    RearmedTied(sent, ev.last);
    RearmedLog(sent, ev.last);
    OutcomeKept(ws[s.slots[i].writer], s.slots[i], s.log, i, s.slots[i].packet, ev.e, sent, Rearmed(sent, ev.last));
  }

  lemma FirstOutcome(ws: seq<Writer>, s: State, t: Timeval, e: Env)
    requires Holds(ws, s) && Tracked(s) && s.queue != [] && NotBefore(s.now, t) && Forward(t, e)
    ensures s.queue[0].ref < |s.slots| && s.slots[s.queue[0].ref].writer < |ws|
    ensures var i, r := s.queue[0].ref, SendFirst(ws, s, t, e);
      && Outcome(ws[s.slots[i].writer], s.slots[i], s.log, i, s.slots[i].packet, e, r)
      && (Refused(ws[s.slots[i].writer], s.slots[i], e) ==> Unqueued(r, i))
  {
    hide Holds, Current, WriteSlot, Outcome, Micros, Put, TakeOut;
    FirstNamed(ws, s);
    var i := s.queue[0].ref;
    var w, packet := ws[s.slots[i].writer], s.slots[i].packet;
    HoldsParts(ws, s, i);
    TakeOutOwn(s, i);
    var p := Put(TakeOut(s, i), i, packet, w.timeout, t, false);
    PutSlot(s, i, packet, w.timeout, t);
    PutTied(TakeOut(s, i), i, packet, w.timeout, t, false);
    if !s.tied { SendFirstSplit(ws, s, t); }
    SentEarlier(s.slots[i], s.now, t, e);
    WriteOutcome(w, p, i, packet, e);
    OutcomeSlot(w, s.slots[i], p.slots[i], s.log, i, packet, e, WriteSlot(w, p, i, packet, e));
  }

  lemma SentEarlier(slot: Slot, now: Timeval, t: Timeval, e: Env)
    requires SlotOk(slot, now) && NotBefore(now, t) && Forward(t, e)
    ensures Micros(slot.sent) <= Micros(e.soon)
  {
    hide Micros;
  }

  lemma PutSlot(s: State, i: nat, packet: Packet, ms: nat, t: Timeval)
    requires i < |s.slots|
    ensures var p := Put(TakeOut(s, i), i, packet, ms, t, false);
      i < |p.slots| == |s.slots| && p.slots[i].sent == s.slots[i].sent && p.slots[i].nCnt == s.slots[i].nCnt
      && p.log == s.log && (forall j | 0 <= j < |s.slots| :: p.slots[j].writer == s.slots[j].writer)
  {
    hide Adjusted, Remove, TakesOwn;
  }

  // only the last write and the count of the slot matter
  lemma OutcomeSlot(w: Writer, a: Slot, b: Slot, log: seq<Written>, i: nat, packet: Packet, e: Env, r: State)
    requires Outcome(w, b, log, i, packet, e, r) && a.sent == b.sent && a.nCnt == b.nCnt
    ensures Outcome(w, a, log, i, packet, e, r)
  {
    hide QueuedFor, Unqueued, Step, Packet.IsStop, Micros;
  }

  // and of what becomes of it slots, queue and log
  lemma OutcomeKept(w: Writer, slot: Slot, log: seq<Written>, i: nat, packet: Packet, e: Env, r: State, q: State)
    requires Outcome(w, slot, log, i, packet, e, r)
    requires q.slots == r.slots && q.queue == r.queue && q.log == r.log && q.tied == r.tied
    ensures Outcome(w, slot, log, i, packet, e, q)
  {
    hide Step, Packet.IsStop, Micros;
  }

  // --- which packet ---

  // event n sends a packet to slot i, and the writer does not refuse it
  ghost predicate Tells(ws: seq<Writer>, s: State, ev: Event, i: nat) {
    && ev.Send? && ev.k < |ws| && 1 <= ev.packet.receiver <= ws[ev.k].nRcv
    && ws[ev.k].first + ev.packet.receiver - 1 == i
    && i < |s.slots| && (ev.e.accept || TooSoon(ws[ev.k], s.slots[i], ev.e.soon))
  }

  // the packet last sent to slot i in the first n events
  ghost function Latest(ws: seq<Writer>, states: seq<State>, evs: seq<Event>, n: nat, i: nat): Option<Packet>
    requires n <= |evs| && |states| == |evs| + 1
  {
    if n == 0 then None
    else if Tells(ws, states[n - 1], evs[n - 1], i) then Some(evs[n - 1].packet)
    else Latest(ws, states, evs, n - 1, i)
  }

  // what waits in slot i is the packet, as far as no removal has gone wrong
  ghost predicate Waiting(s: State, i: nat, packet: Option<Packet>) {
    !s.tied && i in Refs(s.queue) ==> i < |s.slots| && packet == Some(s.slots[i].packet)
  }

  lemma TellWaits(w: Writer, s: State, i: nat, packet: Packet, e: Env)
    requires i < |s.slots| && Tracked(s)
    ensures var r := WriteSlot(w, s, i, packet, e);
      if e.accept || TooSoon(w, s.slots[i], e.soon) then Waiting(r, i, Some(packet)) else r == s.(now := e.soon)
  {
    hide DeferPacket, Tracked, Packet.IsStop, Micros, Packet.IsExpired, Since;
    var t := s.(now := e.soon);
    SameQueue(s, t);
    if TooSoon(w, s.slots[i], e.soon) {
      DeferSelf(t, i, Some(packet), w.gaptime, e);
    } else if e.accept {
      var u := Stamp(t, i, packet, e);
      SameQueue(t, u);
      CheckWaits(w, u, i, packet, e);
    }
  }

  lemma CheckWaits(w: Writer, s: State, i: nat, packet: Packet, e: Env)
    requires i < |s.slots| && Tracked(s)
    ensures Waiting(CheckDeferred(w, s, i, packet, e), i, Some(packet))
  {
    hide DeferPacket, Tracked, Packet.IsStop, Micros, Packet.IsExpired;
    if packet.IsStop() {
      if s.slots[i].nCnt < 1 {
        DeferSelf(s, i, Some(packet), w.gaptime, e);
      } else {
        SameQueue(s, SetCount(s, i, 0));
        DeferSelf(SetCount(s, i, 0), i, None, 0, e);
      }
    } else {
      var t := s.(now := e.expiry);
      SameQueue(s, t);
      var held := packet.IsExpired(w.timeout, e.expiry);
      DeferSelf(t, i, if held then Some(packet) else None, if held then w.timeout else 0, e);
    }
  }

  // a write for slot j leaves alone what waits in slot i
  lemma OtherWaits(w: Writer, s: State, j: nat, packet: Packet, e: Env, i: nat, known: Option<Packet>)
    requires j < |s.slots| && i != j && Tracked(s) && Named(s) && Waiting(s, i, known)
    ensures Waiting(WriteSlot(w, s, j, packet, e), i, known)
  {
    hide WriteSlot, Tracked;
    WriteSlotTracks(w, s, j, packet, e);
    TiedStays(s, WriteSlot(w, s, j, packet, e));
    if i < |s.slots| {
      WriteSlotOther(w, s, j, packet, e, i);
    } else {
      NotNamed(s, i);
      WriteSlotShape(w, s, j, packet, e);
      NotNamed(WriteSlot(w, s, j, packet, e), i);
    }
  }

  lemma TiedStays(s: State, r: State)
    requires Follows(s, r)
    ensures (s.tied ==> r.tied) && Named(r) && Tracked(r)
  {
    hide Current, Wake, Armed;
  }

  lemma NotNamed(s: State, i: nat)
    requires Named(s) && i >= |s.slots|
    ensures i !in Refs(s.queue)
  {
  }

  lemma WriteSlotShape(w: Writer, s: State, i: nat, packet: Packet, e: Env)
    requires i < |s.slots|
    ensures |WriteSlot(w, s, i, packet, e).slots| == |s.slots|
  {
    hide DeferPacket, TooSoon, Packet.IsStop, Packet.IsExpired;
    DeferKeeps(s.(now := e.soon), i, Some(packet), w.gaptime, e);
    var u := Stamp(s.(now := e.soon), i, packet, e);
    DeferKeeps(u, i, Some(packet), w.gaptime, e);
    DeferKeeps(SetCount(u, i, 0), i, None, 0, e);
    DeferKeeps(u.(now := e.expiry), i, Some(packet), w.timeout, e);
    DeferKeeps(u.(now := e.expiry), i, None, 0, e);
  }

  lemma FirstWaits(ws: seq<Writer>, s: State, t: Timeval, e: Env, i: nat, known: Option<Packet>)
    requires Holds(ws, s) && Tracked(s) && Named(s) && !s.tied && s.queue != [] && Waiting(s, i, known)
    requires s.queue[0].ref < |s.slots| && s.slots[s.queue[0].ref].writer < |ws|
    ensures Waiting(SendFirst(ws, s, t, e), i, known)
  {
    hide Holds, Current, WriteSlot, Put, TakeOut;
    SendFirstSplit(ws, s, t);
    var j := s.queue[0].ref;
    var w, packet := ws[s.slots[j].writer], s.slots[j].packet;
    TakeOutOwn(s, j);
    var p := Put(TakeOut(s, j), j, packet, w.timeout, t, false);
    NamedLess(s, p);
    if i == j {
      assert s.queue[0] in s.queue;
      TellWaits(w, p, i, packet, e);
    } else {
      OtherWaits(w, p, j, packet, e, i, known);
    }
  }

  lemma NamedLess(s: State, p: State)
    requires Named(s) && Refs(p.queue) <= Refs(s.queue) && |p.slots| == |s.slots|
    ensures Named(p)
  {
    forall v <- p.queue ensures v.ref < |p.slots| { assert v.ref in Refs(p.queue); }
  }

  lemma EventWaits(ws: seq<Writer>, s: State, ev: Event, i: nat, known: Option<Packet>)
    requires Holds(ws, s) && Tracked(s) && Named(s) && !s.tied && Timely(ws, s, ev) && Waiting(s, i, known)
    requires s.queue != [] ==> s.queue[0].ref < |s.slots| && s.slots[s.queue[0].ref].writer < |ws|
    ensures Waiting(After(ws, s, ev), i, if Tells(ws, s, ev, i) then Some(ev.packet) else known)
  {
    hide Holds, Current, WriteSlot, DeferNext, TooSoon, Micros, Waiting, Waits, Named, Refs;
    StillWaits(s, i, known);
    match ev
    case Send(k, packet, e) =>
      if Reaches(ws[k], s, packet) {
        var j := ws[k].first + packet.receiver - 1;
        if i == j { TellWaits(ws[k], s, i, packet, e); } else { OtherWaits(ws[k], s, j, packet, e, i, known); }
      }
    case Next(t, e, last) => NextWaits(ws, s, t, e, last, i, known);
    case _ =>
  }

  // the clock and the timer make no difference
  lemma StillWaits(s: State, i: nat, known: Option<Packet>)
    requires Waiting(s, i, known)
    ensures forall r: State | r.slots == s.slots && r.queue == s.queue && r.tied == s.tied :: Waiting(r, i, known)
  {
  }

  lemma NextWaits(ws: seq<Writer>, s: State, t: Timeval, e: Env, last: Timeval, i: nat, known: Option<Packet>)
    requires Holds(ws, s) && Tracked(s) && Named(s) && !s.tied && Waiting(s, i, known)
    requires s.queue != [] ==> s.queue[0].ref < |s.slots| && s.slots[s.queue[0].ref].writer < |ws|
    ensures Waiting(DeferNext(ws, s, t, e, last), i, known)
  {
    hide Holds, Current, SendFirst, Rearmed, Micros, Waiting, Named;
    StillWaits(s, i, known);
    if s.pipe > 0 {
      var read := s.(pipe := s.pipe - 1);
      TimerHoldsPipe(ws, s);
      SameQueue(s, read);
      if s.queue != [] { FirstWaits(ws, read, t, e, i, known); }
      var sent := if s.queue == [] then read else SendFirst(ws, read, t, e);
      StillWaits(sent, i, known);
      RearmedShape(sent, last);
      RearmedTied(sent, last);
    }
  }

  // In any run from an empty queue, while no removal has gone wrong, what waits for a
  // receiver is the packet last sent to it.
  lemma {:induction false} LatestWaits(ws: seq<Writer>, states: seq<State>, evs: seq<Event>, n: nat, i: nat)
    requires Runs(ws, states, evs) && n <= |evs| && Tracked(states[0]) && Woken(states[0]) && states[0].queue == []
    ensures Waiting(states[n], i, Latest(ws, states, evs, n, i))
  {
    hide Holds, Current, Wake, After, Timely, Tells;
    RunsWake(ws, states, evs, n);
    if n > 0 && !states[n].tied {
      RunsWake(ws, states, evs, n - 1);
      RunsHold(ws, states, evs, n - 1);
      LatestWaits(ws, states, evs, n - 1, i);
      assert Goes(ws, states[n - 1], evs[n - 1], states[n]);
      EventWaits(ws, states[n - 1], evs[n - 1], i, Latest(ws, states, evs, n - 1, i));
    }
  }

  // And what is written for a receiver, be it at once or when the timer says so, is the
  // packet last sent to it.
  lemma LatestWritten(ws: seq<Writer>, states: seq<State>, evs: seq<Event>, n: nat)
    requires Runs(ws, states, evs) && n < |evs| && Tracked(states[0]) && Woken(states[0]) && states[0].queue == []
    requires !states[n].tied && states[n + 1].log != states[n].log
    ensures |states[n + 1].log| == |states[n].log| + 1 && states[n].log <= states[n + 1].log
    ensures var x := states[n + 1].log[|states[n].log|]; Latest(ws, states, evs, n + 1, x.slot) == Some(x.packet)
  {
    hide Holds, Current, Wake, WriteSlot, Outcome, Micros, Rearmed, SendFirst, TooSoon;
    var (ev, s, r) := (evs[n], states[n], states[n + 1]);
    assert Goes(ws, s, ev, r);
    RunsWake(ws, states, evs, n);
    if ev.Send? {
      SendOutcome(ws, states, evs, n);
      var i := ws[ev.k].first + ev.packet.receiver - 1;
      OutcomeLog(ws[ev.k], s.slots[i], s.log, i, ev.packet, ev.e, r);
      TelledWrites(ws[ev.k], s.slots[i], s.log, i, ev.packet, ev.e, r);
    } else {
      assert ev.Next? && s.pipe > 0;
      NextWritten(s, ev.last);
      var i := s.queue[0].ref;
      NextOutcome(ws, states, evs, n);
      OutcomeLog(ws[s.slots[i].writer], s.slots[i], s.log, i, s.slots[i].packet, ev.e, r);
      LatestWaits(ws, states, evs, n, i);
      assert s.queue[0] in s.queue;
    }
  }

  lemma NextWritten(s: State, last: Timeval)
    requires s.pipe > 0
    ensures s.queue == [] ==> Rearmed(s.(pipe := s.pipe - 1), last).log == s.log
  {
    RearmedLog(s.(pipe := s.pipe - 1), last);
  }

  // what was written was not refused
  lemma TelledWrites(w: Writer, slot: Slot, log: seq<Written>, i: nat, packet: Packet, e: Env, r: State)
    requires Outcome(w, slot, log, i, packet, e, r) && r.log != log
    ensures e.accept
  {
    hide Step;
  }

  // a write adds one entry
  lemma OutcomeLog(w: Writer, slot: Slot, log: seq<Written>, i: nat, packet: Packet, e: Env, r: State)
    requires Outcome(w, slot, log, i, packet, e, r) && r.log != log
    ensures r.log == log + [Written(i, e.soon, e.sent, packet)]
  {
    hide Micros, Step;
  }
}
