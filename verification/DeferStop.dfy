/** The resend machine of one receiver: stops are written twice, held commands
    are sent again only before they expire. */
module DeferStop {
  import opened SortedList
  import opened Timeval
  import opened Ccpacket
  import opened Defer
  import opened DeferRate
  import opened DeferMap
  import opened DeferWake

  // how often slot i was written
  ghost function Writes(log: seq<Written>, i: nat): nat {
    if log == [] then 0
    else Writes(log[..|log| - 1], i) + if log[|log| - 1].slot == i then 1 else 0
  }

  lemma WritesMore(log: seq<Written>, w: Written, i: nat)
    ensures Writes(log + [w], i) == Writes(log, i) + if w.slot == i then 1 else 0
  {
    assert (log + [w])[..|log|] == log;
  }

  // Slot i is repeating a stop, `before` being its writes until then: it is queued and
  // has been written as often as it counts, or it has been written twice and is done.
  ghost predicate Stopping(s: State, i: nat, before: nat) {
    && i < |s.slots|
    && if i in Refs(s.queue) then s.slots[i].packet.IsStop() && Writes(s.log, i) == before + s.slots[i].nCnt
       else Writes(s.log, i) == before + 2 && s.slots[i].nCnt == 0
  }

  // deferring slot j changes nothing for slot i
  lemma DeferOther(s: State, j: nat, packet: Option<Packet>, ms: nat, e: Env, i: nat)
    requires j < |s.slots| && i < |s.slots| && i != j && Tracked(s)
    ensures var r := DeferPacket(s, j, packet, ms, e);
      && r.slots[i] == s.slots[i] && r.log == s.log && |r.slots| == |s.slots|
      && (!r.tied ==> (i in Refs(r.queue) <==> i in Refs(s.queue)))
  {
    DeferKeeps(s, j, packet, ms, e);
    DeferRefs(s, j, packet, ms, e);
    TakeOutOwn(s, j);
    if !DeferPacket(s, j, packet, ms, e).tied { DeferOwn(s, j, packet, ms, e); }
  }

  // deferring slot i queues it, or not, as the packet says
  lemma DeferSelf(s: State, i: nat, packet: Option<Packet>, ms: nat, e: Env)
    requires i < |s.slots| && Tracked(s)
    ensures var r := DeferPacket(s, i, packet, ms, e);
      && r.log == s.log && |r.slots| == |s.slots| && r.slots[i].nCnt == s.slots[i].nCnt
      && (packet.Some? ==> r.slots[i].packet == packet.value)
      && (!r.tied ==> (i in Refs(r.queue) <==> packet.Some? && e.room))
  {
    DeferKeeps(s, i, packet, ms, e);
    DeferRefs(s, i, packet, ms, e);
    TakeOutOwn(s, i);
    if !DeferPacket(s, i, packet, ms, e).tied { DeferOwn(s, i, packet, ms, e); }
  }

  ghost predicate Untouched(s: State, r: State, i: nat)
    requires i < |s.slots|
  {
    && |r.slots| == |s.slots| && r.slots[i] == s.slots[i] && Writes(r.log, i) == Writes(s.log, i)
    && (!r.tied ==> (i in Refs(r.queue) <==> i in Refs(s.queue)))
  }

  lemma CheckOther(w: Writer, s: State, j: nat, packet: Packet, e: Env, i: nat)
    requires j < |s.slots| && i < |s.slots| && i != j && Tracked(s)
    ensures Untouched(s, CheckDeferred(w, s, j, packet, e), i)
  {
    hide DeferPacket, Current, Packet.IsStop, Packet.IsExpired;
    if packet.IsStop() {
      if s.slots[j].nCnt < 1 {
        DeferOther(s, j, Some(packet), w.gaptime, e, i);
      } else {
        SameQueue(s, SetCount(s, j, 0));
        DeferOther(SetCount(s, j, 0), j, None, 0, e, i);
      }
    } else {
      var c := s.(now := e.expiry);
      SameQueue(s, c);
      var p := if packet.IsExpired(w.timeout, e.expiry) then Some(packet) else None;
      DeferOther(c, j, p, if p.Some? then w.timeout else 0, e, i);
    }
  }

  lemma WriteSlotOther(w: Writer, s: State, j: nat, packet: Packet, e: Env, i: nat)
    requires j < |s.slots| && i < |s.slots| && i != j && Tracked(s)
    ensures Untouched(s, WriteSlot(w, s, j, packet, e), i)
  {
    hide DeferPacket, CheckDeferred, TooSoon, Current;
    var t := s.(now := e.soon);
    SameQueue(s, t);
    if TooSoon(w, s.slots[j], e.soon) {
      DeferOther(t, j, Some(packet), w.gaptime, e, i);
    } else if e.accept {
      SameQueue(t, Stamp(t, j, packet, e));
      WritesMore(s.log, Written(j, e.soon, e.sent, packet), i);
      CheckOther(w, Stamp(t, j, packet, e), j, packet, e, i);
    }
  }

  // writing a stop: once more while it counts 0 or 1, queued again only at 0
  lemma WriteSlotStop(w: Writer, s: State, i: nat, packet: Packet, e: Env, before: nat)
    requires i < |s.slots| && Tracked(s) && packet.IsStop() && e.accept && e.room
    requires s.slots[i].nCnt <= 1 && Writes(s.log, i) == before + s.slots[i].nCnt
    ensures var r := WriteSlot(w, s, i, packet, e); !r.tied ==> Stopping(r, i, before)
  {
    hide DeferPacket, TooSoon, Current, Packet.IsStop;
    var t := s.(now := e.soon);
    SameQueue(s, t);
    if TooSoon(w, s.slots[i], e.soon) {
      DeferSelf(t, i, Some(packet), w.gaptime, e);
    } else {
      var u := Stamp(t, i, packet, e);
      SameQueue(t, u);
      WritesMore(s.log, Written(i, e.soon, e.sent, packet), i);
      if u.slots[i].nCnt < 1 {
        DeferSelf(u, i, Some(packet), w.gaptime, e);
      } else {
        SameQueue(u, SetCount(u, i, 0));
        DeferSelf(SetCount(u, i, 0), i, None, 0, e);
      }
    }
  }

  // no command for the receiver of slot i, and, whenever it is its turn to be sent again,
  // room and a working writer
  ghost predicate Quiet(ws: seq<Writer>, s: State, ev: Event, i: nat) {
    match ev
    case Send(k, packet, e) => k < |ws| && (Reaches(ws[k], s, packet) ==> ws[k].first + packet.receiver - 1 != i)
    case Next(t, e, last) => s.pipe > 0 && s.queue != [] && s.queue[0].ref == i ==> e.accept && e.room
    case _ => true
  }

  // taking out the first entry and setting its time
  lemma SendFirstSplit(ws: seq<Writer>, s: State, t: Timeval)
    requires Holds(ws, s) && Tracked(s) && !s.tied && s.queue != []
    ensures var i := s.queue[0].ref;
      && i < |s.slots| && s.slots[i].writer < |ws|
      && var w := ws[s.slots[i].writer];
      var p := Put(TakeOut(s, i), i, s.slots[i].packet, w.timeout, t, false);
      && Tracked(p) && !p.tied && Refs(p.queue) == Refs(s.queue) - {i} && p.log == s.log && |p.slots| == |s.slots|
      && (forall j | 0 <= j < |s.slots| && j != i :: p.slots[j] == s.slots[j])
      && p.slots[i].nCnt == s.slots[i].nCnt
      && Reaches(w, p, s.slots[i].packet) && w.first + s.slots[i].packet.receiver - 1 == i
  {
    var i := s.queue[0].ref;
    FirstNamed(ws, s);
    FirstOwn(s);
    TakeOutOwn(s, i);
    TakeOutCurrent(s, i);
    hide Current, Adjusted, Remove, TakesOwn, Holds;
    var out := TakeOut(s, i);
    PutCurrent(out, i, s.slots[i].packet, ws[s.slots[i].writer].timeout, t, false);
  }

  lemma SentStops(ws: seq<Writer>, s: State, t: Timeval, e: Env, i: nat, before: nat)
    requires Holds(ws, s) && Tracked(s) && !s.tied && Stopping(s, i, before)
    requires s.queue != [] && (s.queue[0].ref == i ==> e.accept && e.room) && s.queue[0].ref < |s.slots|
      && s.slots[s.queue[0].ref].writer < |ws|
    ensures var r := SendFirst(ws, s, t, e); !r.tied ==> Stopping(r, i, before)
  {
    hide Current, Holds, WriteSlot, Put, TakeOut, Remove, TakesOwn, Packet.IsStop;
    HoldsParts(ws, s, i);
    SendFirstSplit(ws, s, t);
    var j := s.queue[0].ref;
    TakeOutOwn(s, j);
    var w, packet := ws[s.slots[j].writer], s.slots[j].packet;
    var p := Put(TakeOut(s, j), j, packet, w.timeout, t, false);
    if j == i {
      assert s.queue[0] in s.queue;
      WriteSlotStop(w, p, i, packet, e, before);
    } else {
      WriteSlotOther(w, p, j, packet, e, i);
    }
  }

  lemma NextStops(ws: seq<Writer>, s: State, t: Timeval, e: Env, last: Timeval, i: nat, before: nat)
    requires Holds(ws, s) && Tracked(s) && !s.tied && Stopping(s, i, before)
    requires s.pipe > 0 && s.queue != [] && s.queue[0].ref == i ==> e.accept && e.room
    requires s.queue != [] ==> s.queue[0].ref < |s.slots| && s.slots[s.queue[0].ref].writer < |ws|
    ensures var r := DeferNext(ws, s, t, e, last); !r.tied ==> Stopping(r, i, before)
  {
    hide Current, Holds, Rearmed, SendFirst, Packet.IsStop;
    if s.pipe > 0 {
      var read := s.(pipe := s.pipe - 1);
      TimerHoldsPipe(ws, s);
      SameQueue(s, read);
      var sent := if s.queue == [] then read else SendFirst(ws, read, t, e);
      if s.queue != [] { SentStops(ws, read, t, e, i, before); }
      RearmedShape(sent, last);
      RearmedTied(sent, last);
      RearmedLog(sent, last);
    }
  }

  lemma TimerHoldsPipe(ws: seq<Writer>, s: State)
    requires Holds(ws, s) && s.pipe > 0
    ensures Holds(ws, s.(pipe := s.pipe - 1))
  {
    NowNormal(ws, s);
    TimerHolds(ws, s, s.(pipe := s.pipe - 1));
  }

  lemma RearmedLog(s: State, t: Timeval)
    ensures Rearmed(s, t).log == s.log
  {
  }

  lemma AfterStops(ws: seq<Writer>, s: State, ev: Event, i: nat, before: nat)
    requires Holds(ws, s) && Tracked(s) && !s.tied && Stopping(s, i, before)
    requires Timely(ws, s, ev) && Quiet(ws, s, ev, i)
    requires s.queue != [] ==> s.queue[0].ref < |s.slots| && s.slots[s.queue[0].ref].writer < |ws|
    ensures !After(ws, s, ev).tied ==> Stopping(After(ws, s, ev), i, before)
  {
    hide Current, Holds, WriteSlot, DeferNext, Packet.IsStop, Micros, Waits;
    match ev
    case Send(k, packet, e) =>
      if Reaches(ws[k], s, packet) { WriteSlotOther(ws[k], s, ws[k].first + packet.receiver - 1, packet, e, i); }
    case Next(t, e, last) => NextStops(ws, s, t, e, last, i, before);
    case _ =>
  }

  // A stop sent to an idle receiver (count 0) is written exactly twice and then leaves
  // the queue: in any run without other commands for that receiver it is never written
  // more often, and whenever its slot is out of the queue it has been written twice.
  lemma {:induction false} StopWrittenTwice(ws: seq<Writer>, states: seq<State>, evs: seq<Event>, i: nat, n: nat)
    requires Runs(ws, states, evs) && Tracked(states[0]) && Woken(states[0])
    requires 0 < n <= |evs| && i < |states[0].slots| && states[0].slots[i].nCnt == 0
    requires var ev := evs[0];
      && ev.Send? && ev.k < |ws| && Reaches(ws[ev.k], states[0], ev.packet)
      && ws[ev.k].first + ev.packet.receiver - 1 == i
      && ev.packet.IsStop() && ev.e.accept && ev.e.room
    requires forall m | 1 <= m < |evs| :: Quiet(ws, states[m], evs[m], i)
    requires !states[n].tied
    ensures Stopping(states[n], i, Writes(states[0].log, i))
    ensures var more := Writes(states[n].log, i) - Writes(states[0].log, i);
      0 <= more <= 2 && (i in Refs(states[n].queue) <==> more < 2)
  {
    hide Holds, Current, WriteSlot, DeferNext, Packet.IsStop, Woken, Refs;
    var before := Writes(states[0].log, i);
    RunsWake(ws, states, evs, n);
    RunsHold(ws, states, evs, n);
    RunsHold(ws, states, evs, n - 1);
    assert Goes(ws, states[n - 1], evs[n - 1], states[n]);
    RunsWake(ws, states, evs, n - 1);
    if n == 1 {
      var ev := evs[0];
      WriteSlotStop(ws[ev.k], states[0], i, ev.packet, ev.e, before);
    } else {
      StopWrittenTwice(ws, states, evs, i, n - 1);
      AfterStops(ws, states[n - 1], evs[n - 1], i, before);
    }
    HoldsParts(ws, states[n], i);
  }

  // --- held commands ---

  // A command is held for another timeout only while it outlives it: with one clock
  // reading for both, the time it is queued for lies before its own expiry; otherwise it
  // is late by no more than the clock advanced in between.
  lemma HeldBeforeExpiry(w: Writer, s: State, i: nat, packet: Packet, e: Env)
    requires i < |s.slots| && !packet.IsStop()
    ensures packet.IsExpired(w.timeout, e.expiry) ==>
      Micros(CheckDeferred(w, s, i, packet, e).slots[i].tv) < Micros(packet.expire) + (Micros(e.tv) - Micros(e.expiry))
  {
    if packet.IsExpired(w.timeout, e.expiry) {
      DeferKeeps(s.(now := e.expiry), i, Some(packet), w.timeout, e);
      ElapsedError(e.expiry, packet.expire);
      StepSmall(w.timeout);
    }
    hide DeferPacket, Adjusted, Packet.IsStop;
  }

  // a command that does not outlive the timeout is not queued at all
  lemma ShortNotHeld(w: Writer, s: State, i: nat, packet: Packet, e: Env)
    requires i < |s.slots| && Tracked(s) && !packet.IsStop() && !packet.IsExpired(w.timeout, e.expiry)
    ensures var r := CheckDeferred(w, s, i, packet, e); !r.tied ==> i !in Refs(r.queue)
  {
    hide Packet.IsStop, Packet.IsExpired, DeferPacket, Current;
    SameQueue(s, s.(now := e.expiry));
    DeferSelf(s.(now := e.expiry), i, None, 0, e);
  }
}
