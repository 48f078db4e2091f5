/** Slots, receivers and the rate limit: what every step of the writers keeps. */
module DeferRate {
  import opened SortedList
  import opened Timeval
  import opened Ccpacket
  import opened Defer

  // every slot belongs to the one writer whose range of receivers covers it
  ghost predicate Config(ws: seq<Writer>, s: State) {
    && (forall i | 0 <= i < |s.slots| :: Owned(ws, s.slots, i))
    && forall k | 0 <= k < |ws| :: Owns(ws[k], k, s.slots)
  }

  predicate Owns(w: Writer, k: nat, slots: seq<Slot>) {
    w.first + w.nRcv <= |slots| && forall i | w.first <= i < w.first + w.nRcv :: slots[i].writer == k
  }

  predicate Owned(ws: seq<Writer>, slots: seq<Slot>, i: nat)
    requires i < |slots|
  {
    && slots[i].writer < |ws|
    && var w := ws[slots[i].writer];
    && w.first <= i < w.first + w.nRcv <= |slots|
  }

  // the receiver whose commands slot i holds
  function ReceiverOf(ws: seq<Writer>, s: State, i: nat): int
    requires i < |s.slots| && s.slots[i].writer < |ws|
  {
    i - ws[s.slots[i].writer].first + 1
  }

  // every queued packet is addressed to the receiver of its own slot
  ghost predicate Coherent(ws: seq<Writer>, s: State)
    requires Config(ws, s)
  {
    forall v <- s.queue :: v.ref < |s.slots| && Addressed(ws, s, v.ref)
  }

  ghost predicate Addressed(ws: seq<Writer>, s: State, i: nat)
    requires Config(ws, s) && i < |s.slots|
  {
    assert Owned(ws, s.slots, i);
    s.slots[i].packet.receiver == ReceiverOf(ws, s, i)
  }

  // times are clock readings, the last write is in the past, and no slot counts beyond 1
  ghost predicate Stamped(s: State) {
    && Normal(s.now)
    && forall i | 0 <= i < |s.slots| :: SlotOk(s.slots[i], s.now)
  }

  predicate SlotOk(slot: Slot, now: Timeval) {
    Normal(slot.tv) && NotBefore(slot.sent, now) && Normal(slot.sent) && slot.nCnt <= 1
  }

  // two writes of the same slot are a gap time apart, but for the millisecond that
  // truncation may lose
  predicate Apart(ws: seq<Writer>, slots: seq<Slot>, a: Written, b: Written) {
    a.slot == b.slot && a.slot < |slots| && slots[a.slot].writer < |ws| ==>
      Micros(b.start) - Micros(a.end) >= 1000 * ws[slots[a.slot].writer].gaptime - 999
  }

  ghost predicate Spaced(ws: seq<Writer>, s: State) {
    && (forall a <- s.log :: Past(s.slots, a))
    && forall a, b | 0 <= a < b < |s.log| :: Apart(ws, s.slots, s.log[a], s.log[b])
  }

  predicate Past(slots: seq<Slot>, a: Written) {
    a.slot < |slots| && Micros(a.end) <= Micros(slots[a.slot].sent)
  }

  // how a step may change the slots: the write time, count and owner stay
  ghost predicate SameStamps(a: seq<Slot>, b: seq<Slot>) {
    && |a| == |b|
    && forall i | 0 <= i < |a| :: b[i].sent == a[i].sent && b[i].writer == a[i].writer && b[i].nCnt == a[i].nCnt
  }

  // what defer_packet leaves alone
  lemma DeferKeeps(s: State, i: nat, packet: Option<Packet>, ms: nat, e: Env)
    requires i < |s.slots|
    ensures var r := DeferPacket(s, i, packet, ms, e);
      && r.log == s.log && |r.slots| == |s.slots|
      && (forall j | 0 <= j < |s.slots| && j != i :: r.slots[j] == s.slots[j])
      && r.slots[i] == (if packet.None? then s.slots[i]
        else s.slots[i].(tv := Adjusted(e.tv, ms), packet := packet.value))
      && (r.now == s.now || r.now == e.tv || r.now == e.arm)
  {
    hide Adjusted, TakesOwn, Remove, Add, FromNow;
  }

  lemma DeferStamped(s: State, i: nat, packet: Option<Packet>, ms: nat, e: Env)
    requires i < |s.slots| && Stamped(s) && NotBefore(s.now, e.tv) && NotBefore(e.tv, e.arm)
    ensures var r := DeferPacket(s, i, packet, ms, e);
      Stamped(r) && NotBefore(s.now, r.now) && SameStamps(s.slots, r.slots) && r.log == s.log
      && Micros(r.now) <= Micros(e.arm)
  {
    hide DeferPacket, Adjusted, Micros;
    DeferKeeps(s, i, packet, ms, e);
    var r := DeferPacket(s, i, packet, ms, e);
    forall j | 0 <= j < |r.slots| ensures SlotOk(r.slots[j], r.now) {
      assert SlotOk(s.slots[j], s.now);
    }
  }

  lemma SpacedKept(ws: seq<Writer>, s: State, r: State)
    requires Spaced(ws, s) && r.log == s.log && SameStamps(s.slots, r.slots)
    ensures Spaced(ws, r)
  {
    forall a, b | 0 <= a < b < |r.log| ensures Apart(ws, r.slots, r.log[a], r.log[b]) {
      assert Apart(ws, s.slots, s.log[a], s.log[b]);
    }
    forall a <- r.log ensures Past(r.slots, a) { assert Past(s.slots, a); }
  }

  // a write that was not too soon keeps the distance
  lemma StampSpaced(ws: seq<Writer>, s: State, i: nat, packet: Packet, e: Env)
    requires i < |s.slots| && Spaced(ws, s) && Stamped(s) && s.slots[i].writer < |ws|
    requires s.now == e.soon && NotBefore(e.soon, e.sent)
    requires !TooSoon(ws[s.slots[i].writer], s.slots[i], e.soon)
    ensures Spaced(ws, Stamp(s, i, packet, e)) && Stamped(Stamp(s, i, packet, e))
  {
    var r, w := Stamp(s, i, packet, e), ws[s.slots[i].writer];
    assert SlotOk(s.slots[i], s.now);
    ElapsedError(s.slots[i].sent, e.soon);
    assert Micros(e.soon) - Micros(s.slots[i].sent) >= 1000 * w.gaptime - 999;
    hide Micros, TooSoon;
    forall a <- r.log ensures Past(r.slots, a) { if a in s.log { assert Past(s.slots, a); } }
    forall a, b | 0 <= a < b < |r.log| ensures Apart(ws, r.slots, r.log[a], r.log[b]) {
      if b < |s.log| {
        assert Apart(ws, s.slots, s.log[a], s.log[b]);
      } else {
        assert Past(s.slots, s.log[a]);
      }
    }
    forall j | 0 <= j < |r.slots| ensures SlotOk(r.slots[j], r.now) { assert SlotOk(s.slots[j], s.now); }
  }

  // --- addresses ---

  lemma TakenFrom(q: seq<Value>, key: int, v: Value)
    ensures forall x <- Remove(q, key) :: x in q
    ensures forall x <- Add(q, v) :: x == v || x in q
  {
    var k := LowerBound(q, v.key);
    assert forall x <- q[..k] + [v] + q[k..] :: x == v || x in q;
  }

  lemma DeferEntries(s: State, i: nat, packet: Option<Packet>, ms: nat, e: Env)
    requires i < |s.slots|
    ensures var r := DeferPacket(s, i, packet, ms, e);
      forall v <- r.queue :: v in s.queue || (packet.Some? && v.ref == i)
  {
    var out := TakeOut(s, i);
    TakenFrom(s.queue, Key(s, i), Value(0, i));
    TakenFrom(out.queue, 0, Value(Micros(Adjusted(e.tv, ms)), i));
    hide Adjusted, TakesOwn, Remove, Add, FromNow;
  }

  lemma SlotsConfig(ws: seq<Writer>, s: State, r: State)
    requires Config(ws, s) && |s.slots| == |r.slots|
    requires forall i | 0 <= i < |s.slots| :: r.slots[i].writer == s.slots[i].writer
    ensures Config(ws, r)
  {
    forall i | 0 <= i < |r.slots| ensures Owned(ws, r.slots, i) { assert Owned(ws, s.slots, i); }
    forall k | 0 <= k < |ws| ensures Owns(ws[k], k, r.slots) { assert Owns(ws[k], k, s.slots); }
  }

  lemma DeferCoherent(ws: seq<Writer>, s: State, i: nat, packet: Option<Packet>, ms: nat, e: Env)
    requires Config(ws, s) && Coherent(ws, s) && i < |s.slots| && Owned(ws, s.slots, i)
    requires packet.Some? ==> packet.value.receiver == ReceiverOf(ws, s, i)
    ensures var r := DeferPacket(s, i, packet, ms, e); Config(ws, r) && Coherent(ws, r)
  {
    hide DeferPacket;
    var r := DeferPacket(s, i, packet, ms, e);
    DeferKeeps(s, i, packet, ms, e);
    DeferEntries(s, i, packet, ms, e);
    SlotsConfig(ws, s, r);
    forall v <- r.queue ensures v.ref < |r.slots| && Addressed(ws, r, v.ref) {
      if v in s.queue { assert Addressed(ws, s, v.ref); }
    }
  }

  // --- the whole invariant ---

  ghost predicate Holds(ws: seq<Writer>, s: State) {
    Config(ws, s) && Coherent(ws, s) && Stamped(s) && Spaced(ws, s)
  }

  lemma DeferHolds(ws: seq<Writer>, s: State, i: nat, packet: Option<Packet>, ms: nat, e: Env)
    requires Holds(ws, s) && i < |s.slots| && NotBefore(s.now, e.tv) && NotBefore(e.tv, e.arm)
    requires Owned(ws, s.slots, i) && (packet.Some? ==> packet.value.receiver == ReceiverOf(ws, s, i))
    ensures var r := DeferPacket(s, i, packet, ms, e);
      Holds(ws, r) && NotBefore(s.now, r.now) && NotBefore(r.now, e.arm) && SameStamps(s.slots, r.slots)
        && r.log == s.log
  {
    hide DeferPacket, Config, Coherent, Stamped, Spaced, Owned, SameStamps;
    DeferCoherent(ws, s, i, packet, ms, e);
    DeferStamped(s, i, packet, ms, e);
    SpacedKept(ws, s, DeferPacket(s, i, packet, ms, e));
  }

  // changing the count of a slot, or reading the clock
  lemma CountHolds(ws: seq<Writer>, s: State, i: nat, n: nat, now: Timeval)
    requires Holds(ws, s) && i < |s.slots| && n <= 1 && NotBefore(s.now, now)
    ensures Holds(ws, SetCount(s, i, n)) && Holds(ws, s.(now := now))
  {
    var r, t := SetCount(s, i, n), s.(now := now);
    SlotsConfig(ws, s, r);
    SlotsConfig(ws, s, t);
    forall v <- r.queue ensures v.ref < |r.slots| && Addressed(ws, r, v.ref) { assert Addressed(ws, s, v.ref); }
    forall v <- t.queue ensures v.ref < |t.slots| && Addressed(ws, t, v.ref) { assert Addressed(ws, s, v.ref); }
    CountSpaced(ws, s, i, n, now);
    hide Micros;
    forall j | 0 <= j < |r.slots| ensures SlotOk(r.slots[j], r.now) { assert SlotOk(s.slots[j], s.now); }
    forall j | 0 <= j < |t.slots| ensures SlotOk(t.slots[j], t.now) { assert SlotOk(s.slots[j], s.now); }
  }

  lemma CountSpaced(ws: seq<Writer>, s: State, i: nat, n: nat, now: Timeval)
    requires Spaced(ws, s) && i < |s.slots|
    ensures Spaced(ws, SetCount(s, i, n)) && Spaced(ws, s.(now := now))
  {
    var r := SetCount(s, i, n);
    forall a, b | 0 <= a < b < |r.log| ensures Apart(ws, r.slots, r.log[a], r.log[b]) {
      assert Apart(ws, s.slots, s.log[a], s.log[b]);
    }
    forall a <- r.log ensures Past(r.slots, a) { assert Past(s.slots, a); }
    SpacedKept(ws, s, s.(now := now));
  }

  lemma StampHolds(ws: seq<Writer>, s: State, i: nat, packet: Packet, e: Env)
    requires Holds(ws, s) && i < |s.slots| && Owned(ws, s.slots, i)
    requires s.now == e.soon && NotBefore(e.soon, e.sent)
    requires !TooSoon(ws[s.slots[i].writer], s.slots[i], e.soon)
    ensures Holds(ws, Stamp(s, i, packet, e))
  {
    var r := Stamp(s, i, packet, e);
    hide TooSoon;
    StampSpaced(ws, s, i, packet, e);
    SlotsConfig(ws, s, r);
    hide Spaced, Stamped;
    forall v <- r.queue ensures v.ref < |r.slots| && Addressed(ws, r, v.ref) { assert Addressed(ws, s, v.ref); }
  }

  lemma StopHolds(ws: seq<Writer>, s: State, i: nat, packet: Packet, e: Env)
    requires Holds(ws, s) && i < |s.slots| && Owned(ws, s.slots, i) && packet.receiver == ReceiverOf(ws, s, i)
    requires packet.IsStop() && NotBefore(s.now, e.tv) && NotBefore(e.tv, e.arm)
    ensures var r := CheckDeferred(ws[s.slots[i].writer], s, i, packet, e);
      Holds(ws, r) && NotBefore(s.now, r.now) && NotBefore(r.now, e.arm) && r.log == s.log
        && SameOwners(s.slots, r.slots)
  {
    hide DeferPacket, Holds, Packet.IsStop;
    var w := ws[s.slots[i].writer];
    HoldsParts(ws, s, i);
    if s.slots[i].nCnt < 1 {
      DeferHolds(ws, s, i, Some(packet), w.gaptime, e);
      var d := DeferPacket(s, i, Some(packet), w.gaptime, e);
      HoldsParts(ws, d, i);
      CountHolds(ws, d, i, s.slots[i].nCnt + 1, d.now);
    } else {
      CountHolds(ws, s, i, 0, s.now);
      DeferHolds(ws, SetCount(s, i, 0), i, None, 0, e);
    }
  }

  ghost predicate SameOwners(a: seq<Slot>, b: seq<Slot>) {
    |a| == |b| && forall i | 0 <= i < |a| :: b[i].writer == a[i].writer
  }

  lemma CheckHolds(ws: seq<Writer>, s: State, i: nat, packet: Packet, e: Env)
    requires Holds(ws, s) && i < |s.slots| && Owned(ws, s.slots, i) && packet.receiver == ReceiverOf(ws, s, i)
    requires s.now == e.sent && NotBefore(e.sent, e.expiry) && NotBefore(e.expiry, e.tv) && NotBefore(e.tv, e.arm)
    ensures var r := CheckDeferred(ws[s.slots[i].writer], s, i, packet, e);
      Holds(ws, r) && NotBefore(s.now, r.now) && NotBefore(r.now, e.arm) && r.log == s.log
        && SameOwners(s.slots, r.slots)
  {
    hide DeferPacket, Holds, Packet.IsStop, Packet.IsExpired;
    if packet.IsStop() {
      StopHolds(ws, s, i, packet, e);
    } else {
      var w, t := ws[s.slots[i].writer], s.(now := e.expiry);
      CountHolds(ws, s, i, 0, e.expiry);
      var p := if packet.IsExpired(w.timeout, e.expiry) then Some(packet) else None;
      DeferHolds(ws, t, i, p, if p.Some? then w.timeout else 0, e);
    }
  }

  lemma HoldsParts(ws: seq<Writer>, s: State, i: nat)
    requires Holds(ws, s) && i < |s.slots|
    ensures Owned(ws, s.slots, i) && SlotOk(s.slots[i], s.now) && Normal(s.now)
  {
  }

  lemma WriteSlotHolds(ws: seq<Writer>, s: State, i: nat, packet: Packet, e: Env)
    requires Holds(ws, s) && i < |s.slots| && Owned(ws, s.slots, i) && packet.receiver == ReceiverOf(ws, s, i)
    requires Forward(s.now, e)
    ensures var r := WriteSlot(ws[s.slots[i].writer], s, i, packet, e);
      Holds(ws, r) && NotBefore(s.now, r.now) && NotBefore(r.now, e.arm) && SameOwners(s.slots, r.slots)
      && (r.log == s.log || r.log == s.log + [Written(i, e.soon, e.sent, packet)])
  {
    var w := ws[s.slots[i].writer];
    hide Holds, DeferPacket, CheckDeferred, TooSoon;
    CountHolds(ws, s, i, 0, e.soon);
    var t := s.(now := e.soon);
    if TooSoon(w, s.slots[i], e.soon) {
      DeferHolds(ws, t, i, Some(packet), w.gaptime, e);
    } else if e.accept {
      StampHolds(ws, t, i, packet, e);
      HoldsParts(ws, Stamp(t, i, packet, e), i);
      CheckHolds(ws, Stamp(t, i, packet, e), i, packet, e);
    }
  }

  lemma WriteToHolds(ws: seq<Writer>, s: State, k: nat, packet: Packet, e: Env)
    requires Holds(ws, s) && k < |ws| && Forward(s.now, e)
    ensures var r := WriteTo(ws[k], s, packet, e);
      Holds(ws, r) && NotBefore(s.now, r.now) && NotBefore(r.now, e.arm) && SameOwners(s.slots, r.slots)
  {
    hide WriteSlot, Coherent, Stamped, Spaced;
    if Reaches(ws[k], s, packet) {
      assert Owns(ws[k], k, s.slots);
      var i := ws[k].first + packet.receiver - 1;
      assert Owned(ws, s.slots, i);
      WriteSlotHolds(ws, s, i, packet, e);
    } else {
      assert Normal(s.now) by { NowNormal(ws, s); }
    }
  }

  lemma NowNormal(ws: seq<Writer>, s: State)
    requires Holds(ws, s)
    ensures Normal(s.now)
  {
  }

  // taking an entry out and setting the time of its slot
  lemma PutHolds(ws: seq<Writer>, s: State, i: nat, ms: nat, t: Timeval)
    requires Holds(ws, s) && i < |s.slots| && NotBefore(s.now, t)
    ensures |TakeOut(s, i).slots| == |s.slots|
    ensures var r := Put(TakeOut(s, i), i, s.slots[i].packet, ms, t, false);
      Holds(ws, r) && r.now == t && r.log == s.log && SameStamps(s.slots, r.slots)
  {
    hide Adjusted, Remove, TakesOwn;
    var r := Put(TakeOut(s, i), i, s.slots[i].packet, ms, t, false);
    TakenFrom(s.queue, Key(s, i), Value(0, i));
    SlotsConfig(ws, s, r);
    SpacedKept(ws, s, r);
    hide Spaced;
    forall v <- r.queue ensures v.ref < |r.slots| && Addressed(ws, r, v.ref) { assert Addressed(ws, s, v.ref); }
    hide Micros;
    forall j | 0 <= j < |r.slots| ensures SlotOk(r.slots[j], r.now) { assert SlotOk(s.slots[j], s.now); }
  }

  lemma RearmHolds(ws: seq<Writer>, s: State, t: Timeval)
    requires Holds(ws, s) && NotBefore(s.now, t)
    ensures var r := Rearmed(s, t);
      Holds(ws, r) && NotBefore(s.now, r.now) && r.slots == s.slots && r.log == s.log && NotBefore(r.now, t)
  {
    hide FromNow;
    var r := Rearmed(s, t);
    SlotsConfig(ws, s, r);
    SpacedKept(ws, s, r);
    forall v <- r.queue ensures v.ref < |r.slots| && Addressed(ws, r, v.ref) { assert Addressed(ws, s, v.ref); }
    hide Micros;
    forall j | 0 <= j < |r.slots| ensures SlotOk(r.slots[j], r.now) { assert SlotOk(s.slots[j], s.now); }
  }

  // the same slots, entries, clock and log
  lemma TimerHolds(ws: seq<Writer>, s: State, r: State)
    requires Holds(ws, s) && r.slots == s.slots && r.queue == s.queue && r.log == s.log && NotBefore(s.now, r.now)
    ensures Holds(ws, r)
  {
    SpacedKept(ws, s, r);
    SlotsConfig(ws, s, r);
    forall v <- r.queue ensures v.ref < |r.slots| && Addressed(ws, r, v.ref) { assert Addressed(ws, s, v.ref); }
    hide Micros;
    forall j | 0 <= j < |r.slots| ensures SlotOk(r.slots[j], r.now) { assert SlotOk(s.slots[j], s.now); }
  }

  // the first entry, if any, names a slot and its writer
  lemma FirstNamed(ws: seq<Writer>, s: State)
    requires Holds(ws, s) && s.queue != []
    ensures var i := s.queue[0].ref;
      && i < |s.slots| && Owned(ws, s.slots, i) && s.slots[i].packet.receiver == ReceiverOf(ws, s, i)
      && Reaches(ws[s.slots[i].writer], s, s.slots[i].packet)
      && ws[s.slots[i].writer].first + s.slots[i].packet.receiver - 1 == i
  {
    var v := s.queue[0];
    assert v in s.queue && Addressed(ws, s, v.ref);
    assert Owned(ws, s.slots, v.ref);
  }

  lemma SendFirstHolds(ws: seq<Writer>, s: State, t: Timeval, e: Env)
    requires Holds(ws, s) && s.queue != [] && NotBefore(s.now, t) && Forward(t, e)
    ensures s.queue[0].ref < |s.slots| && s.slots[s.queue[0].ref].writer < |ws|
    ensures var r := SendFirst(ws, s, t, e);
      Holds(ws, r) && NotBefore(s.now, r.now) && NotBefore(r.now, e.arm) && SameOwners(s.slots, r.slots)
  {
    hide Holds, WriteTo, Put, TakeOut, Micros;
    FirstNamed(ws, s);
    var i := s.queue[0].ref;
    var k := s.slots[i].writer;
    PutHolds(ws, s, i, ws[k].timeout, t);
    WriteToHolds(ws, Put(TakeOut(s, i), i, s.slots[i].packet, ws[k].timeout, t, false), k, s.slots[i].packet, e);
  }

  lemma DeferNextHolds(ws: seq<Writer>, s: State, t: Timeval, e: Env, last: Timeval)
    requires Holds(ws, s) && NotBefore(s.now, t) && Forward(t, e) && NotBefore(e.arm, last)
    ensures s.queue != [] ==> s.queue[0].ref < |s.slots| && s.slots[s.queue[0].ref].writer < |ws|
    ensures var r := DeferNext(ws, s, t, e, last);
      Holds(ws, r) && NotBefore(s.now, r.now) && SameOwners(s.slots, r.slots)
  {
    hide Holds, Rearmed, SendFirst, Micros;
    NowNormal(ws, s);
    if s.queue != [] { FirstNamed(ws, s); }
    if s.pipe > 0 {
      var read := s.(pipe := s.pipe - 1);
      TimerHolds(ws, s, read);
      if s.queue == [] {
        RearmHolds(ws, read, last);
      } else {
        SendFirstHolds(ws, read, t, e);
        RearmHolds(ws, SendFirst(ws, read, t, e), last);
      }
    }
  }

  // --- runs ---

  // A packet reaches a writer, the timer pipe becomes readable, the timer fires, or
  // something else reads the clock. Once a removal has taken an entry that was not meant,
  // a key may change inside the tree and its order is lost: what it holds and gives out
  // first, and when the timer is armed, may then be anything at any time.
  datatype Event =
    | Send(k: nat, packet: Packet, e: Env)
    | Next(t: Timeval, e: Env, last: Timeval)
    | Alarm(t: Timeval)
    | Tick(t: Timeval)
    | Upset(queue: seq<Value>, itimer: nat, pipe: nat, armed: Timeval)

  // the clock readings an event makes do not go back
  ghost predicate Timely(ws: seq<Writer>, s: State, ev: Event) {
    match ev
    case Send(k, packet, e) => k < |ws| && Forward(s.now, e)
    case Next(t, e, last) => NotBefore(s.now, t) && Forward(t, e) && NotBefore(e.arm, last)
    case Alarm(t) => Due(s, t)
    case Tick(t) => NotBefore(s.now, t)
    case Upset(queue, itimer, pipe, armed) => s.tied && forall v <- queue :: Waits(ws, s, v.ref)
  }

  // slot i holds a packet that was put off for its receiver
  predicate Waits(ws: seq<Writer>, s: State, i: nat) {
    i < |s.slots| && s.slots[i].writer < |ws| && s.slots[i].packet.receiver == ReceiverOf(ws, s, i)
  }

  ghost function After(ws: seq<Writer>, s: State, ev: Event): State
    requires Timely(ws, s, ev)
    requires s.queue != [] ==> s.queue[0].ref < |s.slots| && s.slots[s.queue[0].ref].writer < |ws|
  {
    match ev
    case Send(k, packet, e) => WriteTo(ws[k], s, packet, e)
    case Next(t, e, last) => DeferNext(ws, s, t, e, last)
    case Alarm(t) => Fire(s, t)
    case Tick(t) => s.(now := t)
    case Upset(queue, itimer, pipe, armed) => Upturned(s, queue, itimer, pipe, armed)
  }

  function Upturned(s: State, queue: seq<Value>, itimer: nat, pipe: nat, armed: Timeval): State {
    s.(queue := queue, itimer := itimer, pipe := pipe, armed := armed)
  }

  lemma UpturnedHolds(ws: seq<Writer>, s: State, queue: seq<Value>, itimer: nat, pipe: nat, armed: Timeval)
    requires Holds(ws, s) && forall v <- queue :: Waits(ws, s, v.ref)
    ensures Holds(ws, Upturned(s, queue, itimer, pipe, armed))
  {
    hide Micros, Normal;
    var r := Upturned(s, queue, itimer, pipe, armed);
    SpacedKept(ws, s, r);
    SlotsConfig(ws, s, r);
    forall v <- r.queue ensures v.ref < |r.slots| && Addressed(ws, r, v.ref) { assert Waits(ws, s, v.ref); }
    forall j | 0 <= j < |r.slots| ensures SlotOk(r.slots[j], r.now) { assert SlotOk(s.slots[j], s.now); }
  }

  lemma AfterHolds(ws: seq<Writer>, s: State, ev: Event)
    requires Holds(ws, s) && Timely(ws, s, ev)
    ensures s.queue != [] ==> s.queue[0].ref < |s.slots| && s.slots[s.queue[0].ref].writer < |ws|
    ensures Holds(ws, After(ws, s, ev)) && NotBefore(s.now, After(ws, s, ev).now)
  {
    hide Holds, WriteTo, DeferNext, Waits, Upturned;
    if s.queue != [] { FirstNamed(ws, s); }
    match ev
    case Send(k, packet, e) => WriteToHolds(ws, s, k, packet, e);
    case Next(t, e, last) => DeferNextHolds(ws, s, t, e, last);
    case Alarm(t) => TimerHolds(ws, s, Fire(s, t));
    case Tick(t) => TimerHolds(ws, s, s.(now := t));
    case Upset(queue, itimer, pipe, armed) =>
      NowNormal(ws, s);
      UpturnedHolds(ws, s, queue, itimer, pipe, armed);
      UpturnedNow(s, queue, itimer, pipe, armed);
  }

  lemma UpturnedNow(s: State, queue: seq<Value>, itimer: nat, pipe: nat, armed: Timeval)
    ensures Upturned(s, queue, itimer, pipe, armed).now == s.now
  {
  }

  // a run of the system: the states between any events
  ghost predicate Runs(ws: seq<Writer>, states: seq<State>, evs: seq<Event>) {
    && |states| == |evs| + 1 && Holds(ws, states[0])
    && forall n | 0 <= n < |evs| :: Goes(ws, states[n], evs[n], states[n + 1])
  }

  ghost predicate Goes(ws: seq<Writer>, s: State, ev: Event, r: State) {
    && Timely(ws, s, ev)
    && (s.queue != [] ==> s.queue[0].ref < |s.slots| && s.slots[s.queue[0].ref].writer < |ws|)
    && r == After(ws, s, ev)
  }

  lemma {:induction false} RunsHold(ws: seq<Writer>, states: seq<State>, evs: seq<Event>, n: nat)
    requires Runs(ws, states, evs) && n <= |evs|
    ensures Holds(ws, states[n])
  {
    if n > 0 {
      RunsHold(ws, states, evs, n - 1);
      assert Goes(ws, states[n - 1], evs[n - 1], states[n]);
      AfterHolds(ws, states[n - 1], evs[n - 1]);
    }
  }

  // The rate limit: in any run, upsets of the queue included, two successful writes to the same receiver of a writer
  // are at least a gap time apart, less the 999 microseconds that truncation can hide.
  lemma RateLimit(ws: seq<Writer>, states: seq<State>, evs: seq<Event>, n: nat, a: nat, b: nat)
    requires Runs(ws, states, evs) && n <= |evs| && a < b < |states[n].log|
    ensures var s := states[n];
      var (x, y) := (s.log[a], s.log[b]);
      && x.slot < |s.slots| && s.slots[x.slot].writer < |ws|
      && (x.slot == y.slot ==> Micros(y.start) - Micros(x.end) >= 1000 * ws[s.slots[x.slot].writer].gaptime - 999)
  {
    RunsHold(ws, states, evs, n);
    var s := states[n];
    assert Past(s.slots, s.log[a]) && Apart(ws, s.slots, s.log[a], s.log[b]);
    assert Owned(ws, s.slots, s.log[a].slot);
  }

  // Every packet waiting in slot i is addressed to the receiver of slot i, so that
  // sending it again comes back to the same slot.
  lemma ResendReturns(ws: seq<Writer>, states: seq<State>, evs: seq<Event>, n: nat, v: Value)
    requires Runs(ws, states, evs) && n <= |evs| && v in states[n].queue
    ensures var s := states[n];
      && v.ref < |s.slots| && s.slots[v.ref].writer < |ws|
      && var w := ws[s.slots[v.ref].writer];
      && Reaches(w, s, s.slots[v.ref].packet) && w.first + s.slots[v.ref].packet.receiver - 1 == v.ref
  {
    RunsHold(ws, states, evs, n);
    assert Addressed(ws, states[n], v.ref);
    assert Owned(ws, states[n].slots, v.ref);
  }
}
