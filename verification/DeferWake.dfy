/** No lost wake-up: the timer covers the earliest deferred packet. */
module DeferWake {
  import opened SortedList
  import opened Timeval
  import opened Ccpacket
  import opened Defer
  import opened DeferRate
  import opened DeferMap

  // Whenever a packet waits, a wake-up is on its way: a byte is in the pipe, or the
  // timer is set and runs out less than a millisecond after the packet is due.
  ghost predicate Wake(s: State) {
    s.queue != [] ==> s.pipe > 0 || (s.itimer > 0 && Micros(s.armed) + 1000 * s.itimer <= s.queue[0].key + 999)
  }

  // The timer as every completed call leaves it: off when nothing waits, otherwise set for
  // the earliest packet, or a byte in the pipe when that packet is already due.
  ghost predicate Armed(s: State) {
    if s.queue == [] then s.itimer == 0
    else
      && s.queue[0].ref < |s.slots|
      && s.itimer == FromNow(s.slots[s.queue[0].ref].tv, s.armed)
      && (s.itimer == 0 ==> s.pipe > 0)
  }

  // every entry names a slot
  ghost predicate Named(s: State) { forall v <- s.queue :: v.ref < |s.slots| }

  // both hold as long as every removal has taken the entry that was meant
  ghost predicate Tracked(s: State) { !s.tied ==> Current(s) }
  ghost predicate Woken(s: State) { !s.tied ==> Wake(s) }

  lemma RearmedArmed(s: State, t: Timeval)
    requires s.queue != [] ==> s.queue[0].ref < |s.slots|
    ensures Armed(Rearmed(s, t))
  {
    hide Micros, FromNow;
  }

  lemma ArmedWake(s: State)
    requires Armed(s) && Current(s)
    ensures Wake(s)
  {
    if s.queue != [] {
      assert s.queue[0] in s.queue;
      ElapsedError(s.armed, s.slots[s.queue[0].ref].tv);
    }
  }

  // The timer as calls leave it runs out less than a millisecond before or after the earliest
  // packet is due; where it is not set, that packet is due in less than a millisecond.
  lemma ArmedClose(s: State)
    requires Armed(s) && Current(s) && s.queue != []
    ensures var early := s.queue[0].key - Micros(s.armed) - 1000 * s.itimer;
      early < 1000 && (s.itimer > 0 ==> -1000 < early)
  {
    assert s.queue[0] in s.queue;
    ElapsedError(s.armed, s.slots[s.queue[0].ref].tv);
  }

  // Arming puts one byte into the pipe when the earliest packet is due, none when it is due in
  // a millisecond or later, and none when nothing waits.
  lemma ByteWhenDue(s: State, t: Timeval)
    requires Current(s)
    ensures var more := Rearmed(s, t).pipe - s.pipe;
      && 0 <= more <= 1 && (s.queue == [] ==> more == 0 && Rearmed(s, t).itimer == 0)
      && (s.queue != [] && s.queue[0].key <= Micros(t) ==> more == 1)
      && (s.queue != [] && s.queue[0].key >= Micros(t) + 1000 ==> more == 0)
  {
    if s.queue != [] {
      assert s.queue[0] in s.queue;
      ElapsedError(t, s.slots[s.queue[0].ref].tv);
    }
  }

  lemma RearmedTracks(s: State, t: Timeval)
    requires Tracked(s) && (s.queue != [] ==> s.queue[0].ref < |s.slots|)
    ensures var r := Rearmed(s, t); Tracked(r) && Woken(r) && Armed(r) && r.tied == s.tied
  {
    RearmedArmed(s, t);
    RearmedTied(s, t);
    hide Current, Wake, Armed, Rearmed;
    if !s.tied {
      RearmedCurrent(s, t);
      ArmedWake(Rearmed(s, t));
    }
  }

  lemma RearmedTied(s: State, t: Timeval)
    ensures Rearmed(s, t).tied == s.tied
  {
  }

  // removals only make the earliest packet later
  lemma RemoveLater(s: State, i: nat)
    requires i < |s.slots| && Current(s) && Wake(s)
    ensures Wake(TakeOut(s, i))
  {
    var k, r := LowerBound(s.queue, Key(s, i)), TakeOut(s, i).queue;
    if r != [] {
      assert s.queue != [] && r[0] in s.queue by { RemoveEntries(s.queue, Key(s, i)); }
      assert s.queue[0].key <= r[0].key;
    }
  }

  // defer_packet, when there is room, ends with the timer armed for the earliest packet
  lemma DeferTracks(s: State, i: nat, packet: Option<Packet>, ms: nat, e: Env)
    requires i < |s.slots| && Tracked(s) && Named(s)
    ensures var r := DeferPacket(s, i, packet, ms, e);
      && Tracked(r) && (s.tied ==> r.tied)
      && (Woken(s) ==> Woken(r))
      && (packet.None? || e.room ==> Woken(r) && Armed(r))
  {
    var r := DeferPacket(s, i, packet, ms, e);
    DeferRefs(s, i, packet, ms, e);
    TakeOutOwn(s, i);
    if !r.tied {
      DeferOwn(s, i, packet, ms, e);
      if Wake(s) { RemoveLater(s, i); }
    }
    if packet.None? || e.room { DeferArmed(s, i, packet, ms, e); }
    hide Current, Wake, Armed, DeferPacket;
    if !r.tied && (packet.None? || e.room) { ArmedWake(r); }
    if !r.tied && packet.Some? && !e.room && Wake(s) { PutWake(s, i, packet.value, ms, e); }
  }

  lemma PutWake(s: State, i: nat, packet: Packet, ms: nat, e: Env)
    requires i < |s.slots| && !e.room && Wake(TakeOut(s, i))
    ensures Wake(DeferPacket(s, i, Some(packet), ms, e))
  {
    hide Adjusted, Remove, TakesOwn;
  }

  lemma DeferArmed(s: State, i: nat, packet: Option<Packet>, ms: nat, e: Env)
    requires i < |s.slots| && (packet.None? || e.room) && Named(s)
    ensures Armed(DeferPacket(s, i, packet, ms, e))
  {
    var out := TakeOut(s, i);
    TakenFrom(s.queue, Key(s, i), Value(0, i));
    hide Adjusted, TakeOut, Rearmed, Armed;
    assert |out.slots| == |s.slots| && forall v <- out.queue :: v.ref < |s.slots| by {
      TakeOutOwn(s, i);
      TakeOutSub(s, i);
    }
    if packet.None? {
      assert out.queue != [] ==> out.queue[0] in out.queue;
      RearmedArmed(out, e.arm);
    } else {
      var p := Put(out, i, packet.value, ms, e.tv, true);
      TakenFrom(out.queue, 0, Value(Micros(Adjusted(e.tv, ms)), i));
      assert p.queue != [] ==> p.queue[0] in p.queue;
      RearmedArmed(p, e.arm);
    }
  }

  lemma TakeOutSub(s: State, i: nat)
    requires i < |s.slots|
    ensures forall v <- TakeOut(s, i).queue :: v in s.queue
  {
    TakenFrom(s.queue, Key(s, i), Value(0, i));
  }

  // a step that leaves entries, times and timer alone, or adds a byte to the pipe
  lemma SameQueue(s: State, r: State)
    requires r.queue == s.queue && r.tied == s.tied && |r.slots| == |s.slots|
    requires forall j | 0 <= j < |s.slots| :: r.slots[j].tv == s.slots[j].tv
    ensures Tracked(s) ==> Tracked(r)
    ensures Named(s) ==> Named(r)
    ensures r.itimer == s.itimer && r.pipe == s.pipe && r.armed == s.armed ==>
      (Woken(s) ==> Woken(r)) && (Armed(s) ==> Armed(r))
    ensures r.pipe > 0 ==> Woken(r)
  {
    hide Micros, FromNow;
  }

  lemma DeferNamed(s: State, i: nat, packet: Option<Packet>, ms: nat, e: Env)
    requires i < |s.slots| && Named(s)
    ensures Named(DeferPacket(s, i, packet, ms, e))
  {
    DeferKeeps(s, i, packet, ms, e);
    DeferEntries(s, i, packet, ms, e);
    hide DeferPacket;
  }

  // what one step of the writers does for the queue and the timer
  ghost predicate Follows(s: State, r: State) {
    Named(r) && Tracked(r) && (s.tied ==> r.tied) && (Woken(s) ==> Woken(r))
  }

  // deferring, or not, is followed up
  lemma DeferFollows(s: State, i: nat, packet: Option<Packet>, ms: nat, e: Env)
    requires i < |s.slots| && Tracked(s) && Named(s)
    ensures Follows(s, DeferPacket(s, i, packet, ms, e)) && |DeferPacket(s, i, packet, ms, e).slots| == |s.slots|
  {
    hide DeferPacket, Tracked, Woken, Named, Armed;
    DeferTracks(s, i, packet, ms, e);
    DeferNamed(s, i, packet, ms, e);
    DeferKeeps(s, i, packet, ms, e);
  }

  lemma CountFollows(s: State, i: nat, n: nat)
    requires i < |s.slots| && Tracked(s) && Named(s)
    ensures Follows(s, SetCount(s, i, n)) && |SetCount(s, i, n).slots| == |s.slots|
  {
    hide Tracked, Woken, Named;
    SameQueue(s, SetCount(s, i, n));
  }

  lemma FollowsBoth(s: State, r: State, q: State)
    requires Follows(s, r) && Follows(r, q)
    ensures Follows(s, q)
  {
    hide Tracked, Woken, Named;
  }

  lemma CheckTracks(w: Writer, s: State, i: nat, packet: Packet, e: Env)
    requires i < |s.slots| && Tracked(s) && Named(s)
    ensures Follows(s, CheckDeferred(w, s, i, packet, e))
  {
    hide DeferPacket, Tracked, Woken, Named, Follows, SetCount, Packet.IsStop, Packet.IsExpired;
    if packet.IsStop() {
      if s.slots[i].nCnt < 1 {
        var d := DeferPacket(s, i, Some(packet), w.gaptime, e);
        DeferFollows(s, i, Some(packet), w.gaptime, e);
        FollowsParts(s, d);
        CountFollows(d, i, s.slots[i].nCnt + 1);
        FollowsBoth(s, d, SetCount(d, i, s.slots[i].nCnt + 1));
      } else {
        var c := SetCount(s, i, 0);
        CountFollows(s, i, 0);
        FollowsParts(s, c);
        DeferFollows(c, i, None, 0, e);
        FollowsBoth(s, c, DeferPacket(c, i, None, 0, e));
      }
    } else {
      var c := s.(now := e.expiry);
      SameFollows(s, c);
      FollowsParts(s, c);
      var p := if packet.IsExpired(w.timeout, e.expiry) then Some(packet) else None;
      var ms := if p.Some? then w.timeout else 0;
      DeferFollows(c, i, p, ms, e);
      FollowsBoth(s, c, DeferPacket(c, i, p, ms, e));
    }
  }

  lemma FollowsParts(s: State, r: State)
    requires Follows(s, r)
    ensures Named(r) && Tracked(r)
  {
  }

  lemma SameFollows(s: State, r: State)
    requires Tracked(s) && Named(s) && r == s.(now := r.now)
    ensures Follows(s, r)
  {
    hide Tracked, Woken, Named;
    SameQueue(s, r);
  }

  lemma WriteSlotTracks(w: Writer, s: State, i: nat, packet: Packet, e: Env)
    requires i < |s.slots| && Tracked(s) && Named(s)
    ensures Follows(s, WriteSlot(w, s, i, packet, e))
  {
    hide DeferPacket, CheckDeferred, Tracked, Woken, Named, Armed, TooSoon;
    var t := s.(now := e.soon);
    SameQueue(s, t);
    if TooSoon(w, s.slots[i], e.soon) {
      DeferTracks(t, i, Some(packet), w.gaptime, e);
      DeferNamed(t, i, Some(packet), w.gaptime, e);
    } else if e.accept {
      SameQueue(t, Stamp(t, i, packet, e));
      CheckTracks(w, Stamp(t, i, packet, e), i, packet, e);
    }
  }

  lemma WriteToTracks(w: Writer, s: State, packet: Packet, e: Env)
    requires Tracked(s) && Named(s)
    ensures Follows(s, WriteTo(w, s, packet, e))
  {
    hide WriteSlot, Tracked, Woken, Named;
    if Reaches(w, s, packet) { WriteSlotTracks(w, s, w.first + packet.receiver - 1, packet, e); }
  }

  // the entry that defer_next takes is its own
  lemma FirstOwn(s: State)
    requires Current(s) && s.queue != []
    ensures s.queue[0].ref < |s.slots| && TakesOwn(s.queue, Key(s, s.queue[0].ref), s.queue[0].ref)
  {
    assert s.queue[0] in s.queue;
    assert LowerBound(s.queue, s.queue[0].key) == 0;
  }

  lemma SendFirstTracks(ws: seq<Writer>, s: State, t: Timeval, e: Env)
    requires s.queue != [] && s.queue[0].ref < |s.slots| && s.slots[s.queue[0].ref].writer < |ws|
    requires Tracked(s) && Named(s)
    ensures var r := SendFirst(ws, s, t, e); Named(r) && Tracked(r) && (s.tied ==> r.tied)
  {
    var i := s.queue[0].ref;
    var w, packet := ws[s.slots[i].writer], s.slots[i].packet;
    var out := TakeOut(s, i);
    var p := Put(out, i, packet, w.timeout, t, false);
    TakeOutOwn(s, i);
    PutTied(out, i, packet, w.timeout, t, false);
    TakeOutSub(s, i);
    assert |p.slots| == |s.slots| && p.queue == out.queue by { PutShape(out, i, packet, w.timeout, t); }
    assert Named(p);
    if !p.tied {
      FirstOwn(s);
      TakeOutCurrent(s, i);
      PutCurrent(out, i, packet, w.timeout, t, false);
    }
    hide TakeOut, Put, WriteTo, Current, Named;
    WriteToTracks(w, p, packet, e);
  }

  lemma PutShape(s: State, i: nat, packet: Packet, ms: nat, t: Timeval)
    requires i < |s.slots|
    ensures var r := Put(s, i, packet, ms, t, false); |r.slots| == |s.slots| && r.queue == s.queue
  {
  }

  // After defer_next has read a byte the timer is off when nothing waits, and otherwise
  // armed for the earliest packet, through the nested write too.
  lemma DeferNextTracks(ws: seq<Writer>, s: State, t: Timeval, e: Env, last: Timeval)
    requires Tracked(s) && Named(s) && (s.queue != [] ==>
      s.queue[0].ref < |s.slots| && s.slots[s.queue[0].ref].writer < |ws|)
    ensures var r := DeferNext(ws, s, t, e, last);
      Follows(s, r) && (s.pipe > 0 ==> Woken(r) && Armed(r))
  {
    hide SendFirst, Rearmed, Current, Armed, Wake;
    if s.pipe > 0 {
      var read := s.(pipe := s.pipe - 1);
      SameQueue(s, read);
      var sent := if s.queue == [] then read else SendFirst(ws, read, t, e);
      if s.queue != [] { SendFirstTracks(ws, read, t, e); }
      assert sent.queue != [] ==> sent.queue[0] in sent.queue;
      RearmedTracks(sent, last);
      assert Named(Rearmed(sent, last)) by { RearmedShape(sent, last); }
    }
  }

  lemma RearmedShape(s: State, t: Timeval)
    ensures Rearmed(s, t).queue == s.queue && Rearmed(s, t).slots == s.slots
  {
  }

  lemma AfterTracks(ws: seq<Writer>, s: State, ev: Event)
    requires Timely(ws, s, ev) && Tracked(s) && Woken(s) && Named(s)
    requires s.queue != [] ==> s.queue[0].ref < |s.slots| && s.slots[s.queue[0].ref].writer < |ws|
    ensures var r := After(ws, s, ev); Tracked(r) && Woken(r) && Named(r) && (s.tied ==> r.tied)
  {
    hide Tracked, Woken, Named, WriteTo, DeferNext, Timely, Upturned;
    match ev
    case Send(k, packet, e) => WriteToTracks(WriterAt(ws, s, ev), s, packet, e);
    case Next(t, e, last) => DeferNextTracks(ws, s, t, e, last);
    case Alarm(t) => SameQueue(s, Fire(s, t));
    case Tick(t) => SameQueue(s, s.(now := t));
    case Upset(queue, itimer, pipe, armed) => UpsetTracks(ws, s, queue, itimer, pipe, armed);
  }

  lemma UpsetTracks(ws: seq<Writer>, s: State, queue: seq<Value>, itimer: nat, pipe: nat, armed: Timeval)
    requires Timely(ws, s, Event.Upset(queue, itimer, pipe, armed))
    ensures var r := Upturned(s, queue, itimer, pipe, armed); Tracked(r) && Woken(r) && Named(r) && r.tied
  {
    hide Current, Wake;
  }

  ghost function WriterAt(ws: seq<Writer>, s: State, ev: Event): Writer
    requires Timely(ws, s, ev) && ev.Send?
  {
    ws[ev.k]
  }

  // No lost wake-up, over whole runs: from a state in which the timer covers the queue,
  // it does so after every event, until a removal takes an entry that was not meant.
  lemma {:induction false} RunsWake(ws: seq<Writer>, states: seq<State>, evs: seq<Event>, n: nat)
    requires Runs(ws, states, evs) && n <= |evs| && Tracked(states[0]) && Woken(states[0])
    ensures Named(states[n]) && Tracked(states[n]) && Woken(states[n])
    ensures !states[n].tied ==> forall m | 0 <= m <= n :: !states[m].tied
  {
    RunsHold(ws, states, evs, n);
    if n > 0 {
      RunsWake(ws, states, evs, n - 1);
      assert Goes(ws, states[n - 1], evs[n - 1], states[n]);
      AfterTracks(ws, states[n - 1], evs[n - 1]);
    }
  }
}
