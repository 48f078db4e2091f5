/** The queue of deferred packets and the camera control writers above it
    (src/defer.c, src/ccwriter.c, src/timer.c), as one state machine. */
module Defer {
  import opened SortedList
  import opened Timeval
  import opened Ccpacket

  // struct deferred_pkt: one per receiver of each writer
  datatype Slot = Slot(writer: nat, tv: Timeval, sent: Timeval, packet: Packet, nCnt: nat)

  // struct ccwriter: its receivers 1 to nRcv have the slots first to first + nRcv - 1
  datatype Writer = Writer(first: nat, nRcv: nat, gaptime: nat, timeout: nat)

  // a successful do_write for a slot, between two clock readings, and what it was given
  datatype Written = Written(slot: nat, start: Timeval, end: Timeval, packet: Packet)

  // The queue holds (time, slot) pairs. `now` is the last clock reading, `armed` the
  // one at which the interval timer was set to itimer ms (0 when it is off), `pipe` the
  // bytes waiting in the timer pipe. `tied` records that a removal from the tree has
  // taken an entry other than the one meant: from then on a key may change in the tree.
  datatype State = State(slots: seq<Slot>, queue: seq<Value>, now: Timeval,
                         itimer: nat, pipe: nat, armed: Timeval, log: seq<Written>, tied: bool)

  // What the surroundings answer during one write: the clock at each reading, whether
  // do_write wrote anything, whether the tree has room for another node.
  datatype Env = Env(soon: Timeval, accept: bool, sent: Timeval, expiry: Timeval, tv: Timeval, room: bool, arm: Timeval)

  predicate NotBefore(t: Timeval, u: Timeval) { Normal(u) && Micros(t) <= Micros(u) }

  // the clock does not run backwards
  predicate Forward(now: Timeval, e: Env) {
    && NotBefore(now, e.soon) && NotBefore(e.soon, e.sent) && NotBefore(e.sent, e.expiry)
    && NotBefore(e.expiry, e.tv) && NotBefore(e.tv, e.arm)
  }

  // --- the steps ---

  function Key(s: State, i: nat): int
    requires i < |s.slots|
  {
    Micros(s.slots[i].tv)
  }

  // the entry that removal by this key takes is that of slot i, or neither exists
  predicate TakesOwn(q: seq<Value>, key: int, i: nat) {
    if Has(q, key) then q[LowerBound(q, key)].ref == i else forall v <- q :: v.ref != i
  }

  // cl_rbtree_remove(&dfr->tree, dpkt)
  function TakeOut(s: State, i: nat): State
    requires i < |s.slots|
  {
    s.(queue := Remove(s.queue, Key(s, i)), tied := s.tied || !TakesOwn(s.queue, Key(s, i), i))
  }

  // the new time and packet of a slot, and its entry when the tree has room
  function Put(s: State, i: nat, packet: Packet, ms: nat, t: Timeval, room: bool): State
    requires i < |s.slots|
  {
    var tv := Adjusted(t, ms);
    s.(slots := s.slots[i := s.slots[i].(tv := tv, packet := packet)], now := t,
       queue := if room then Add(s.queue, Value(Micros(tv), i)) else s.queue)
  }

  // defer_rearm, timer_arm and timer_disarm
  function Rearmed(s: State, t: Timeval): State {
    if s.queue == [] || s.queue[0].ref >= |s.slots| then s.(itimer := 0)
    else
      var ms := FromNow(s.slots[s.queue[0].ref].tv, t);
      s.(now := t, armed := t, itimer := ms, pipe := s.pipe + if ms == 0 then 1 else 0)
  }

  // defer_packet
  function DeferPacket(s: State, i: nat, packet: Option<Packet>, ms: nat, e: Env): State
    requires i < |s.slots|
  {
    var out := TakeOut(s, i);
    if packet.None? then Rearmed(out, e.arm)
    else if e.room then Rearmed(Put(out, i, packet.value, ms, e.tv, true), e.arm)
    else Put(out, i, packet.value, ms, e.tv, false)
  }

  function SetCount(s: State, i: nat, n: nat): State
    requires i < |s.slots|
  {
    s.(slots := s.slots[i := s.slots[i].(nCnt := n)])
  }

  // the write itself: the slot is stamped and the log extended
  function Stamp(s: State, i: nat, packet: Packet, e: Env): State
    requires i < |s.slots|
  {
    s.(slots := s.slots[i := s.slots[i].(sent := e.sent)], now := e.sent,
       log := s.log + [Written(i, e.soon, e.sent, packet)])
  }

  // ccwriter_check_deferred, after its first statement
  function CheckDeferred(w: Writer, s: State, i: nat, packet: Packet, e: Env): State
    requires i < |s.slots|
  {
    hide Packet.IsStop, Packet.IsExpired, Remove, Add, Adjusted;
    if packet.IsStop() then
      if s.slots[i].nCnt < 1 then
        SetCount(DeferPacket(s, i, Some(packet), w.gaptime, e), i, s.slots[i].nCnt + 1)
      else
        DeferPacket(SetCount(s, i, 0), i, None, 0, e)
    else
      var read := s.(now := e.expiry);
      if packet.IsExpired(w.timeout, e.expiry) then DeferPacket(read, i, Some(packet), w.timeout, e)
      else DeferPacket(read, i, None, 0, e)
  }

  predicate TooSoon(w: Writer, slot: Slot, now: Timeval) {
    Since(slot.sent, now) < w.gaptime
  }

  // ccwriter_do_write_
  function WriteSlot(w: Writer, s: State, i: nat, packet: Packet, e: Env): State
    requires i < |s.slots|
  {
    var read := s.(now := e.soon);
    if TooSoon(w, s.slots[i], e.soon) then DeferPacket(read, i, Some(packet), w.gaptime, e)
    else if !e.accept then read
    else CheckDeferred(w, Stamp(read, i, packet, e), i, packet, e)
  }

  predicate Reaches(w: Writer, s: State, packet: Packet) {
    0 < packet.receiver <= w.nRcv && w.first + packet.receiver <= |s.slots|
  }

  // ccwriter_do_write
  function WriteTo(w: Writer, s: State, packet: Packet, e: Env): State {
    if Reaches(w, s, packet) then WriteSlot(w, s, w.first + packet.receiver - 1, packet, e) else s
  }

  // defer_packet_now for the first entry
  function SendFirst(ws: seq<Writer>, s: State, t: Timeval, e: Env): State
    requires s.queue != [] && s.queue[0].ref < |s.slots| && s.slots[s.queue[0].ref].writer < |ws|
  {
    var i := s.queue[0].ref;
    var w, packet := ws[s.slots[i].writer], s.slots[i].packet;
    WriteTo(w, Put(TakeOut(s, i), i, packet, w.timeout, t, false), packet, e)
  }

  // defer_next
  function DeferNext(ws: seq<Writer>, s: State, t: Timeval, e: Env, last: Timeval): State
    requires s.queue != [] ==> s.queue[0].ref < |s.slots| && s.slots[s.queue[0].ref].writer < |ws|
  {
    if s.pipe == 0 then s
    else
      var read := s.(pipe := s.pipe - 1);
      if s.queue == [] then Rearmed(read, last) else Rearmed(SendFirst(ws, read, t, e), last)
  }

  // the interval timer runs out and its signal handler writes to the pipe
  function Fire(s: State, t: Timeval): State {
    s.(now := t, itimer := 0, pipe := s.pipe + 1)
  }

  predicate Due(s: State, t: Timeval) {
    s.itimer > 0 && NotBefore(s.now, t) && Micros(t) >= Micros(s.armed) + 1000 * s.itimer
  }
}
