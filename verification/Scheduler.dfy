/** The deferred packet engine and its writers as the program runs them: the queue
    is a red-black tree, the packets are mutable, the clock and the channels answer. */
module Scheduler {
  import opened SortedList
  import SlotPool
  import opened RbTree
  import opened Timeval
  import opened Ccpacket
  import opened Defer
  import opened DeferRate
  import opened DeferMap
  import opened DeferWake
  import RbRuns

  ghost predicate Unsigned(ws: seq<Writer>) {
    forall w <- ws :: w.gaptime < UINT_MODULUS && w.timeout < UINT_MODULUS
  }

  // the environment of a single defer_packet call
  function DeferEnv(tv: Timeval, room: bool, arm: Timeval): Env {
    Env(tv, true, tv, tv, tv, room, arm)
  }

  // defer_packet makes only these two clock readings
  lemma DeferReads(s: State, i: nat, packet: Option<Packet>, ms: nat, e: Env, f: Env)
    requires i < |s.slots| && e.tv == f.tv && e.room == f.room && e.arm == f.arm
    ensures DeferPacket(s, i, packet, ms, e) == DeferPacket(s, i, packet, ms, f)
  {
  }

  // the entries left after a removal still name slots
  lemma StillNamed(s: State, i: nat)
    requires i < |s.slots| && Named(s)
    ensures Named(TakeOut(s, i)) && TakeOut(s, i).slots == s.slots && TakeOut(s, i).now == s.now
  {
    TakeOutSub(s, i);
  }

  lemma PutIs(s: State, r: State, i: nat, packet: Packet, ms: nat, t: Timeval, room: bool)
    requires i < |s.slots| && Named(s)
    requires r == s.(slots := s.slots[i := s.slots[i].(tv := Adjusted(t, ms), packet := packet)], now := t,
      queue := if room then Add(s.queue, Value(Micros(Adjusted(t, ms)), i)) else s.queue)
    ensures r == Put(s, i, packet, ms, t, room) && Named(r)
  {
    TakenFrom(s.queue, 0, Value(Micros(Adjusted(t, ms)), i));
    hide Adjusted, Micros, Add;
  }

  lemma StampNamed(s: State, i: nat, u: State)
    requires Named(s) && i < |s.slots| && |u.slots| == |s.slots| && u.queue == s.queue
    ensures Named(u)
  {
  }

  lemma CountNamed(s: State, i: nat, n: nat)
    requires Named(s) && i < |s.slots|
    ensures Named(SetCount(s, i, n))
  {
  }

  lemma ReadNamed(s: State, t: Timeval)
    requires Named(s)
    ensures Named(s.(now := t))
  {
  }

  class Scheduler {
    const tree: RbTree
    var writers: seq<Writer>
    var slots: seq<Slot>
    var now: Timeval
    var itimer: nat
    var pipe: nat
    var armed: Timeval
    ghost var log: seq<Written>
    ghost var tied: bool

    ghost function View(): State
      reads this, tree
    {
      State(slots, tree.Contents(), now, itimer, pipe, armed, log, tied)
    }

    // between the statements of a call
    ghost predicate Base()
      reads this, tree, tree.pool, tree.mem.Keys
    {
      tree.Valid() && tree.dup == Allow && Normal(now) && Unsigned(writers)
    }

    // defer_init
    constructor (t: Timeval)
      requires Normal(t)
      ensures Valid() && writers == [] && slots == [] && fresh(tree) && fresh(tree.pool) && fresh(tree.mem.Keys)
      ensures View() == State([], [], t, 0, 0, t, [], false)
    {
      tree := new RbTree(Allow);
      writers, slots, now, itimer, pipe, armed, log, tied := [], [], t, 0, 0, t, [], false;
      new;
      hide RbTree.Valid, RbTree.Contents, Running;
      StartRunning(t);
    }

    // gettimeofday
    method GetTimeOfDay() returns (t: Timeval)
      requires Normal(now)
      modifies this`now
      ensures NotBefore(old(now), t) && now == t
    {
      var ms: int := *;
      t := if 0 <= ms < UINT_MODULUS then Adjusted(now, ms) else now;
      StepSmall(ms);
      now := t;
    }

    // cl_rbtree_remove(&dfr->tree, dpkt)
    method RemoveEntry(i: nat)
      requires Base() && i < |slots|
      modifies this`tied, tree, tree.pool, tree.mem.Keys
      ensures Base() && tree.mem.Keys <= old(tree.mem.Keys)
      ensures View() == TakeOut(old(View()), i)
    {
      hide RbTree.Valid, RbTree.Contents, Remove, Has, LowerBound, TakesOwn, Micros, Unsigned, Normal;
      var key := Micros(slots[i].tv);
      tied := tied || !TakesOwn(tree.Contents(), key, i);
      ghost var rounds;
      var r;
      r, rounds := tree.RemoveValue(key);
    }

    // cl_rbtree_add(&dfr->tree, dpkt)
    method AddEntry(i: nat) returns (ok: bool)
      requires Base() && i < |slots|
      modifies tree, tree.pool, tree.mem.Keys
      ensures Base() && fresh(tree.mem.Keys - old(tree.mem.Keys))
      ensures View() == old(View()).(queue := if ok then Add(old(View()).queue, Value(Micros(slots[i].tv), i))
        else old(View()).queue)
    {
      hide RbTree.Valid, RbTree.Contents, Add, Micros, Unsigned, Normal, SlotPool.Malloced, LowerBound, Has;
      var base := RbRuns.Malloc(tree.pool.blocks);
      var r := tree.AddValue(Value(Micros(slots[i].tv), i), base);
      ok := r != None;
    }

    // defer_rearm
    method Rearm() returns (ghost t: Timeval)
      requires Base() && Named(View())
      modifies this`now, this`armed, this`itimer, this`pipe
      ensures Base() && View() == Rearmed(old(View()), t) && NotBefore(old(now), t) && NotBefore(t, now)
      ensures tree.mem == old(tree.mem)
    {
      hide RbTree.Valid, RbTree.Contents, FromNow, Unsigned;
      ghost var rounds;
      var r;
      r, rounds := tree.Peek();
      t := now;
      if r == None {
        itimer := 0;
      } else {
        assert r.value in tree.Contents();
        var reading := GetTimeOfDay();
        t := reading;
        armed := reading;
        TimerArm(FromNow(slots[r.value.ref].tv, reading));
      }
    }

    // timer_arm
    method TimerArm(msec: nat)
      modifies this`itimer, this`pipe
      ensures itimer == msec && pipe == old(pipe) + if msec == 0 then 1 else 0
    {
      if msec == 0 { pipe := pipe + 1; }
      itimer := msec;
    }
  
    // defer_packet
    method DeferPacketFor(i: nat, packet: Option<Packet>, ms: nat) returns (ok: bool, ghost e: Env)
      requires Base() && i < |slots| && Named(View()) && ms < UINT_MODULUS
      modifies this`slots, this`now, this`armed, this`itimer, this`pipe, this`tied, tree, tree.pool, tree.mem.Keys
      ensures Base() && Named(View()) && fresh(tree.mem.Keys - old(tree.mem.Keys)) && NotBefore(e.arm, now)
      ensures View() == DeferPacket(old(View()), i, packet, ms, e)
      ensures e == DeferEnv(e.tv, e.room, e.arm) && NotBefore(old(now), e.tv) && NotBefore(e.tv, e.arm)
      ensures ok == (packet.None? || e.room)
    {
      hide RbTree.Valid, RbTree.Contents, Unsigned, Normal, TakeOut, Put, Rearmed, Named, Micros;
      ghost var s := View();
      RemoveEntry(i);
      StillNamed(s, i);
      if packet == None {
        ghost var t := Rearm();
        ok, e := true, DeferEnv(s.now, true, t);
      } else {
        var reading := GetTimeOfDay();
        var tv := Adjust(reading, ms);
        slots := slots[i := slots[i].(tv := tv, packet := packet.value)];
        ok := AddEntry(i);
        PutIs(TakeOut(s, i), View(), i, packet.value, ms, reading, ok);
        if ok {
          ghost var t := Rearm();
          e := DeferEnv(reading, true, t);
        } else {
          e := DeferEnv(reading, false, reading);
        }
      }
      DeferNamed(s, i, packet, ms, e);
    }
  
    // ccwriter_too_soon
    method TooSoonFor(w: Writer, i: nat) returns (soon: bool, t: Timeval)
      requires Normal(now) && i < |slots|
      modifies this`now
      ensures NotBefore(old(now), t) && now == t && soon == TooSoon(w, slots[i], t)
    {
      t := GetTimeOfDay();
      soon := Since(slots[i].sent, t) < w.gaptime;
    }

    // defer_packet, with the clock readings its caller has made already
    method DeferAfter(i: nat, packet: Option<Packet>, ms: nat, ghost soon: Timeval, ghost sent: Timeval)
      returns (ghost e: Env)
      requires Base() && i < |slots| && Named(View()) && ms < UINT_MODULUS && NotBefore(soon, sent)
        && NotBefore(sent, now)
      modifies this`slots, this`now, this`armed, this`itimer, this`pipe, this`tied, tree, tree.pool, tree.mem.Keys
      ensures Base() && Named(View()) && fresh(tree.mem.Keys - old(tree.mem.Keys)) && NotBefore(e.arm, now)
      ensures View() == DeferPacket(old(View()), i, packet, ms, e)
      ensures e == Env(soon, true, sent, old(now), e.tv, e.room, e.arm) && NotBefore(old(now), e.tv)
        && NotBefore(e.tv, e.arm)
    {
      hide RbTree.Valid, RbTree.Contents, DeferPacket, Named, Micros;
      ghost var s, ok, f := View(), true, Env(soon, true, sent, now, now, true, now);
      ok, f := DeferPacketFor(i, packet, ms);
      e := Env(soon, true, sent, s.now, f.tv, f.room, f.arm);
      DeferReads(s, i, packet, ms, e, f);
    }

    // ccwriter_check_deferred, for a stop: the first is queued for one repeat, the second is not
    method RepeatStop(w: Writer, i: nat, packet: Packet, ghost soon: Timeval, ghost sent: Timeval)
      returns (ghost e: Env)
      requires Base() && i < |slots| && Named(View()) && w in writers && NotBefore(soon, sent) && now == sent
        && packet.IsStop()
      modifies this`slots, this`now, this`armed, this`itimer, this`pipe, this`tied, tree, tree.pool, tree.mem.Keys
      ensures Base() && Named(View()) && fresh(tree.mem.Keys - old(tree.mem.Keys)) && NotBefore(e.arm, now)
      ensures View() == CheckDeferred(w, old(View()), i, packet, e)
      ensures e == Env(soon, true, sent, old(now), e.tv, e.room, e.arm) && NotBefore(sent, e.tv)
        && NotBefore(e.tv, e.arm)
    {
      hide RbTree.Valid, RbTree.Contents, DeferPacket, Named, Micros, Packet.IsStop;
      ghost var u := View();
      var count := slots[i].nCnt;
      if count < 1 {
        e := DeferAfter(i, Some(packet), w.gaptime, soon, sent);
        DeferKeeps(u, i, Some(packet), w.gaptime, e);
        CountNamed(View(), i, count + 1);
        slots := slots[i := slots[i].(nCnt := count + 1)];
      } else {
        slots := slots[i := slots[i].(nCnt := 0)];
        CountNamed(u, i, 0);
        e := DeferAfter(i, None, 0, soon, sent);
      }
    }

    // ccwriter_check_deferred
    method CheckDeferredFor(w: Writer, i: nat, packet: Packet, ghost soon: Timeval, ghost before: seq<Written>)
      returns (ghost e: Env)
      requires Base() && i < |slots| && Named(View()) && w in writers && now == soon
      requires log == before + [Written(i, soon, soon, packet)]
      modifies this`slots, this`now, this`armed, this`itimer, this`pipe, this`tied, this`log, tree, tree.pool
      modifies tree.mem.Keys
      ensures Base() && Named(View()) && fresh(tree.mem.Keys - old(tree.mem.Keys)) && NotBefore(e.arm, now)
      ensures View() == CheckDeferred(w, Stamp(old(View()).(log := before), i, packet, e), i, packet, e)
      ensures Forward(soon, e) && e.soon == soon && e.accept
    {
      hide RbTree.Valid, RbTree.Contents, DeferPacket, Named, Micros, Packet.IsStop;
      ghost var s := View();
      var sent := GetTimeOfDay();
      slots := slots[i := slots[i].(sent := sent)];
      log := before + [Written(i, soon, sent, log[|before|].packet)];
      ghost var u := View();
      StampNamed(s, i, u);
      if packet.IsStop() {
        e := RepeatStop(w, i, packet, soon, sent);
      } else {
        var expired, expiry := IsExpiredNow(packet, w.timeout);
        ReadNamed(u, expiry);
        e := DeferAfter(i, if expired then Some(packet) else None, if expired then w.timeout else 0, soon, sent);
      }
    }

    // ccpacket_is_expired
    method IsExpiredNow(packet: Packet, timeout: nat) returns (expired: bool, t: Timeval)
      requires Normal(now)
      modifies this`now
      ensures NotBefore(old(now), t) && now == t && expired == packet.IsExpired(timeout, t)
    {
      t := GetTimeOfDay();
      expired := FromNow(packet.expire, t) > timeout;
    }
  
    // wtr->do_write: whether the channel took the packet; the log keeps what it was given,
    // the time after the write being that before it until it is read
    method DoWrite(packet: Packet, ghost i: nat, ghost soon: Timeval) returns (accept: bool)
      modifies this`log
      ensures log == if accept then old(log) + [Written(i, soon, soon, packet)] else old(log)
    {
      accept := *;
      if accept { log := log + [Written(i, soon, soon, packet)]; }
    }

    // ccwriter_do_write_
    method WriteSlotFor(w: Writer, i: nat, packet: Packet) returns (ghost e: Env)
      requires Base() && i < |slots| && Named(View()) && w in writers
      modifies this`slots, this`now, this`armed, this`itimer, this`pipe, this`tied, this`log, tree, tree.pool
      modifies tree.mem.Keys
      ensures Base() && Named(View()) && fresh(tree.mem.Keys - old(tree.mem.Keys)) && NotBefore(e.arm, now)
      ensures View() == WriteSlot(w, old(View()), i, packet, e) && Forward(old(now), e)
    {
      hide RbTree.Valid, RbTree.Contents, DeferPacket, CheckDeferred, TooSoon, Named, Micros;
      ghost var s := View();
      var tooSoon, soon := TooSoonFor(w, i);
      ReadNamed(s, soon);
      if tooSoon {
        e := DeferAfter(i, Some(packet), w.gaptime, soon, soon);
      } else {
        ghost var before := log;
        var accept := DoWrite(packet, i, soon);
        if accept {
          StampNamed(s, i, View());
          e := CheckDeferredFor(w, i, packet, soon, before);
        } else {
          e := Env(soon, false, soon, soon, soon, true, soon);
        }
      }
    }

    // ccwriter_do_write
    method CcwriterDoWrite(w: Writer, packet: Packet) returns (ghost e: Env)
      requires Base() && Named(View()) && w in writers && w.first + w.nRcv <= |slots|
      modifies this`slots, this`now, this`armed, this`itimer, this`pipe, this`tied, this`log, tree, tree.pool
      modifies tree.mem.Keys
      ensures Base() && Named(View()) && fresh(tree.mem.Keys - old(tree.mem.Keys)) && NotBefore(e.arm, now)
      ensures View() == WriteTo(w, old(View()), packet, e) && Forward(old(now), e)
    {
      hide RbTree.Valid, RbTree.Contents, WriteSlot, Named, Micros;
      if 0 < packet.receiver <= w.nRcv {
        e := WriteSlotFor(w, w.first + packet.receiver - 1, packet);
      } else {
        e := Env(now, false, now, now, now, true, now);
      }
    }

    // the first half of defer_packet_now: out of the queue, with a new time
    method Dequeue(i: nat, timeout: nat) returns (t: Timeval)
      requires Base() && i < |slots| && Named(View()) && timeout < UINT_MODULUS
      modifies this`slots, this`now, this`tied, tree, tree.pool, tree.mem.Keys
      ensures Base() && Named(View()) && tree.mem.Keys <= old(tree.mem.Keys)
      ensures View() == Put(TakeOut(old(View()), i), i, old(slots)[i].packet, timeout, t, false)
        && NotBefore(old(now), t)
      ensures |slots| == |old(slots)| && slots[i].packet == old(slots)[i].packet && now == t
    {
      hide RbTree.Valid, RbTree.Contents, TakeOut, Named, Micros;
      ghost var s := View();
      RemoveEntry(i);
      StillNamed(s, i);
      t := GetTimeOfDay();
      var tv := Adjust(t, timeout);
      slots := slots[i := slots[i].(tv := tv)];
      PutIs(TakeOut(s, i), View(), i, slots[i].packet, timeout, t, false);
    }

    // defer_packet_now for the packet that cl_rbtree_peek returned
    method DeferPacketNow(i: nat) returns (ghost t: Timeval, ghost e: Env)
      requires Base() && Named(View()) && Config(writers, View())
      requires View().queue != [] && View().queue[0].ref == i
      modifies this`slots, this`now, this`armed, this`itimer, this`pipe, this`tied, this`log, tree, tree.pool
      modifies tree.mem.Keys
      ensures i < |old(slots)| && old(slots)[i].writer < |writers|
      ensures Base() && Named(View()) && fresh(tree.mem.Keys - old(tree.mem.Keys)) && NotBefore(e.arm, now)
      ensures View() == SendFirst(writers, old(View()), t, e) && NotBefore(old(now), t) && Forward(t, e)
    {
      hide RbTree.Valid, RbTree.Contents, WriteTo, TakeOut, Put, Named, Micros, Config;
      FirstOwned(writers, View());
      var w, packet := writers[slots[i].writer], slots[i].packet;
      var reading := Dequeue(i, w.timeout);
      t := reading;
      e := CcwriterDoWrite(w, packet);
    }

    // the middle of defer_next: the first packet, if any, is sent now
    method ProcessFirst() returns (ghost t: Timeval, ghost e: Env)
      requires Base() && Named(View()) && Config(writers, View())
      modifies this`slots, this`now, this`armed, this`itimer, this`pipe, this`tied, this`log, tree, tree.pool
      modifies tree.mem.Keys
      ensures Base() && Named(View()) && fresh(tree.mem.Keys - old(tree.mem.Keys))
      ensures FirstFits(writers, old(View()))
      ensures View() == FirstSent(writers, old(View()), t, e) && NotBefore(old(now), t) && Forward(t, e)
        && NotBefore(e.arm, now)
    {
      hide RbTree.Valid, RbTree.Contents, SendFirst, Named, Micros, Config, Unsigned;
      FirstOwned(writers, View());
      t := now;
      e := Env(now, false, now, now, now, true, now);
      ghost var rounds;
      var r;
      r, rounds := tree.Peek();
      if r != None { t, e := DeferPacketNow(r.value.ref); }
    }

    // and its end
    method ProcessRearm() returns (ghost t: Timeval, ghost e: Env, ghost last: Timeval)
      requires Base() && Named(View()) && Config(writers, View())
      modifies this`slots, this`now, this`armed, this`itimer, this`pipe, this`tied, this`log, tree, tree.pool
      modifies tree.mem.Keys
      ensures Base() && fresh(tree.mem.Keys - old(tree.mem.Keys))
      ensures FirstFits(writers, old(View()))
      ensures View() == Rearmed(FirstSent(writers, old(View()), t, e), last)
      ensures NotBefore(old(now), t) && Forward(t, e) && NotBefore(e.arm, last)
    {
      hide Base, View, FirstSent, Rearmed, Named, Config, FirstFits, NotBefore, Forward, Normal;
      t, e := ProcessFirst();
      ghost var mid := now;
      last := Rearm();
      Later(e.arm, mid, last);
    }

    // timer_read, when there is a byte to read
    method TimerRead()
      requires Base() && Named(View()) && Config(writers, View()) && pipe > 0
      modifies this`pipe
      ensures Base() && Named(View()) && Config(writers, View()) && tree.mem == old(tree.mem)
      ensures View() == old(View()).(pipe := old(View()).pipe - 1)
    {
      hide RbTree.Valid, RbTree.Contents, Named, Config, Unsigned;
      PipeNamed(writers, View(), pipe - 1);
      pipe := pipe - 1;
    }

    method ReadAndProcess() returns (ghost t: Timeval, ghost e: Env, ghost last: Timeval)
      requires Base() && Named(View()) && Config(writers, View()) && pipe > 0
      modifies this`slots, this`now, this`armed, this`itimer, this`pipe, this`tied, this`log, tree, tree.pool
      modifies tree.mem.Keys
      ensures Base() && fresh(tree.mem.Keys - old(tree.mem.Keys))
      ensures IsNext(writers, old(View()), View(), t, e, last)
    {
      hide Base, View, FirstSent, Rearmed, Named, Config, FirstFits, NotBefore, Forward, Normal, IsNext;
      ghost var s := View();
      FirstFitting(writers, s);
      ViewClock();
      TimerRead();
      ghost var keys := tree.mem.Keys;
      t, e, last := ProcessRearm();
      NextIs(writers, s, View(), t, e, last);
    }

    // defer_next
    method DeferNextReady() returns (ok: bool, ghost t: Timeval, ghost e: Env, ghost last: Timeval)
      requires Base() && Named(View()) && Config(writers, View())
      modifies this`slots, this`now, this`armed, this`itimer, this`pipe, this`tied, this`log, tree, tree.pool
      modifies tree.mem.Keys
      ensures Base() && fresh(tree.mem.Keys - old(tree.mem.Keys))
      ensures ok == (old(View()).pipe > 0) && IsNext(writers, old(View()), View(), t, e, last)
    {
      ghost var s := View();
      FirstOwned(writers, s);
      NowReading();
      StillEnv(now);
      hide Base, FirstSent, Rearmed, Named, Config, FirstFits, NotBefore, Forward, Normal, IsNext;
      ok := pipe > 0;
      if ok {
        t, e, last := ReadAndProcess();
      } else {
        t, e, last := now, Env(now, false, now, now, now, true, now), now;
        NextIs(writers, s, s, t, e, last);
      }
    }

    // --- what the rest of the program calls ---

    ghost predicate Valid()
      reads this, tree, tree.pool, tree.mem.Keys
    {
      Base() && Running(writers, View())
    }

    // a packet for writer k, from a reader
    method Send(k: nat, packet: Packet) returns (ghost e: Env)
      requires Valid() && k < |writers|
      modifies this`slots, this`now, this`armed, this`itimer, this`pipe, this`tied, this`log, tree, tree.pool
      modifies tree.mem.Keys
      ensures Valid() && fresh(tree.mem.Keys - old(tree.mem.Keys))
      ensures Goes(writers, old(View()), Event.Send(k, packet, e), View())
    {
      hide Base, Running, WriteTo, Named, Config, FirstFits, NotBefore, Forward, Normal, Goes;
      ghost var s := View();
      RunningParts(writers, s, k);
      e := CcwriterDoWrite(writers[k], packet);
      SendGoes(writers, s, k, packet, e);
    }

    // the timer pipe is readable
    method TimerReady() returns (ok: bool, ghost t: Timeval, ghost e: Env, ghost last: Timeval)
      requires Valid()
      modifies this`slots, this`now, this`armed, this`itimer, this`pipe, this`tied, this`log, tree, tree.pool
      modifies tree.mem.Keys
      ensures Valid() && fresh(tree.mem.Keys - old(tree.mem.Keys))
      ensures Goes(writers, old(View()), Event.Next(t, e, last), View())
      ensures ok == (old(View()).pipe > 0) && (ok ==> Armed(View()))
    {
      hide Base, Running, Named, Config, NotBefore, Forward, Normal, Goes, IsNext, Armed;
      ghost var s := View();
      RunningNamed(writers, s);
      ok, t, e, last := DeferNextReady();
      NextGoes(writers, s, View(), t, e, last);
    }

    // timer_handler
    method TimerHandler(t: Timeval)
      requires Valid() && Due(View(), t)
      modifies this`now, this`itimer, this`pipe
      ensures Valid() && Goes(writers, old(View()), Event.Alarm(t), View())
    {
      hide Running, Goes, RbTree.Valid, RbTree.Contents, Unsigned, Due, Micros, Normal;
      ghost var s := View();
      DueNormal(s, t);
      AlarmGoes(writers, s, t);
      now, itimer, pipe := t, 0, pipe + 1;
    }

    // any other reading of the clock
    method ReadClock() returns (t: Timeval)
      requires Valid()
      modifies this`now
      ensures Valid() && Goes(writers, old(View()), Event.Tick(t), View()) && now == t && Normal(t)
    {
      hide Running, Goes, RbTree.Valid, RbTree.Contents, Unsigned, Micros, Normal;
      ghost var s := View();
      t := GetTimeOfDay();
      TickGoes(writers, s, t);
    }

    // ccwriter_set_receivers
    method SetReceivers(nRcv: nat, gaptime: nat, timeout: nat)
      requires Valid() && gaptime < UINT_MODULUS && timeout < UINT_MODULUS
      modifies this`slots, this`now, this`writers
      ensures Valid() && View() == old(View()).(slots := slots, now := now) && NotBefore(old(now), now)
      ensures writers == old(writers) + [Writer(|old(slots)|, nRcv, gaptime, timeout)]
      ensures |slots| == |old(slots)| + nRcv && slots[..|old(slots)|] == old(slots)
      ensures forall i | |old(slots)| <= i < |slots| :: NewSlot(slots[i], |old(writers)|, old(now), now)
    {
      ghost var s := View();
      hide Running, RbTree.Valid, RbTree.Contents, Adjusted;
      var first := |slots|;
      for i := 0 to nRcv
        invariant writers == old(writers) && |slots| == first + i && slots[..first] == old(slots)
          && NotBefore(old(now), now)
        invariant forall j | first <= j < |slots| :: NewSlot(slots[j], |writers|, old(now), now)
      {
        var sent := GetTimeOfDay();
        var expire := GetTimeOfDay();
        slots := slots + [Slot(|writers|, Timeval(0, 0), sent, Packet(0, 0, 0, 0, 0, expire), 0)];
      }
      writers := writers + [Writer(first, nRcv, gaptime, timeout)];
      ReceiversRunning(old(writers), s, View(), Writer(first, nRcv, gaptime, timeout));
    }

    lemma ViewClock()
      ensures View().now == now && View().pipe == pipe
    {
    }

    lemma NowReading()
      requires Base()
      ensures Normal(now)
    {
    }
  }

  // deferred_pkt_init
  predicate NewSlot(slot: Slot, w: nat, before: Timeval, after: Timeval) {
    && slot.writer == w && slot.tv == Timeval(0, 0) && slot.nCnt == 0
    && NotBefore(before, slot.sent) && NotBefore(slot.sent, after)
    && slot.packet == Packet(0, 0, 0, 0, 0, slot.packet.expire)
  }

  // what the scheduler keeps: slots, addresses and rate; and the queue and the timer as
  // long as no removal has taken an entry that was not meant
  ghost predicate Running(ws: seq<Writer>, s: State) {
    Holds(ws, s) && Tracked(s) && Woken(s)
  }

  lemma StartRunning(t: Timeval)
    requires Normal(t)
    ensures Running([], State([], [], t, 0, 0, t, [], false))
  {
  }

  lemma RunningNamed(ws: seq<Writer>, s: State)
    requires Running(ws, s)
    ensures Named(s) && Config(ws, s)
  {
  }

  lemma RunningParts(ws: seq<Writer>, s: State, k: nat)
    requires Running(ws, s) && k < |ws|
    ensures Named(s) && Config(ws, s) && ws[k].first + ws[k].nRcv <= |s.slots|
  {
    assert Owns(ws[k], k, s.slots);
  }

  // every event keeps it
  lemma GoesRunning(ws: seq<Writer>, s: State, ev: Event, r: State)
    requires Running(ws, s) && Goes(ws, s, ev, r)
    ensures Running(ws, r)
  {
    hide Holds, Tracked, Woken, After, Timely;
    RunningNamed(ws, s);
    AfterHolds(ws, s, ev);
    AfterTracks(ws, s, ev);
  }

  lemma SendGoes(ws: seq<Writer>, s: State, k: nat, packet: Packet, e: Env)
    requires Running(ws, s) && k < |ws| && Forward(s.now, e)
    ensures var r := WriteTo(ws[k], s, packet, e); Goes(ws, s, Event.Send(k, packet, e), r) && Running(ws, r)
  {
    RunningNamed(ws, s);
    FirstOwned(ws, s);
    hide Running, WriteTo, Forward;
    GoesRunning(ws, s, Event.Send(k, packet, e), WriteTo(ws[k], s, packet, e));
  }

  lemma NextGoes(ws: seq<Writer>, s: State, r: State, t: Timeval, e: Env, last: Timeval)
    requires Running(ws, s) && IsNext(ws, s, r, t, e, last)
    ensures Goes(ws, s, Event.Next(t, e, last), r) && Running(ws, r) && (s.pipe > 0 ==> Armed(r))
  {
    RunningNamed(ws, s);
    assert Tracked(s);
    hide Running, DeferNext, Forward, Armed, Named, Tracked, Woken, Config;
    GoesRunning(ws, s, Event.Next(t, e, last), r);
    DeferNextTracks(ws, s, t, e, last);
  }

  lemma AlarmGoes(ws: seq<Writer>, s: State, t: Timeval)
    requires Running(ws, s) && Due(s, t)
    ensures Goes(ws, s, Event.Alarm(t), Fire(s, t)) && Running(ws, Fire(s, t))
  {
    RunningNamed(ws, s);
    FirstOwned(ws, s);
    hide Running, Due, Config, Named;
    GoesRunning(ws, s, Event.Alarm(t), Fire(s, t));
  }

  lemma DueNormal(s: State, t: Timeval)
    requires Due(s, t)
    ensures Normal(t)
  {
  }

  lemma TickGoes(ws: seq<Writer>, s: State, t: Timeval)
    requires Running(ws, s) && NotBefore(s.now, t)
    ensures Goes(ws, s, Event.Tick(t), s.(now := t)) && Running(ws, s.(now := t))
  {
    RunningNamed(ws, s);
    FirstOwned(ws, s);
    hide Running, Config, Named;
    GoesRunning(ws, s, Event.Tick(t), s.(now := t));
  }

  // r is s with the receivers of one more writer
  ghost predicate Extends(s: State, r: State, w: Writer, k: nat) {
    && w.first == |s.slots| && |r.slots| == |s.slots| + w.nRcv
    && r == s.(slots := r.slots, now := r.now) && NotBefore(s.now, r.now)
    && (forall i | 0 <= i < |s.slots| :: r.slots[i] == s.slots[i])
    && forall i | |s.slots| <= i < |r.slots| :: NewSlot(r.slots[i], k, s.now, r.now)
  }

  lemma ReceiversConfig(ws: seq<Writer>, s: State, r: State, w: Writer)
    requires Config(ws, s) && Coherent(ws, s) && Extends(s, r, w, |ws|)
    ensures Config(ws + [w], r) && Coherent(ws + [w], r)
  {
    hide Micros;
    var vs := ws + [w];
    forall i | 0 <= i < |r.slots| ensures Owned(vs, r.slots, i) {
      if i < |s.slots| { assert Owned(ws, s.slots, i); }
    }
    forall k | 0 <= k < |vs| ensures Owns(vs[k], k, r.slots) {
      if k < |ws| { assert Owns(ws[k], k, s.slots); }
    }
    forall v <- r.queue ensures v.ref < |r.slots| && Addressed(vs, r, v.ref) {
      assert Addressed(ws, s, v.ref) && Owned(ws, s.slots, v.ref);
    }
  }

  lemma ReceiversSpaced(ws: seq<Writer>, s: State, r: State, w: Writer)
    requires Config(ws, s) && Spaced(ws, s) && Extends(s, r, w, |ws|)
    ensures Spaced(ws + [w], r)
  {
    hide Micros, Config;
    forall a <- r.log ensures Past(r.slots, a) { assert Past(s.slots, a); }
    forall a, b | 0 <= a < b < |r.log| ensures Apart(ws + [w], r.slots, r.log[a], r.log[b]) {
      assert Apart(ws, s.slots, s.log[a], s.log[b]) && Past(s.slots, s.log[a]);
      assert Owned(ws, s.slots, s.log[a].slot) by { OwnedAt(ws, s, s.log[a].slot); }
    }
  }

  lemma OwnedAt(ws: seq<Writer>, s: State, i: nat)
    requires Config(ws, s) && i < |s.slots|
    ensures Owned(ws, s.slots, i)
  {
  }

  lemma ReceiversStamped(s: State, r: State, w: Writer, k: nat)
    requires Stamped(s) && Extends(s, r, w, k)
    ensures Stamped(r)
  {
    forall i | 0 <= i < |r.slots| ensures SlotOk(r.slots[i], r.now) {
      if i < |s.slots| { assert SlotOk(s.slots[i], s.now); } else { assert NewSlot(r.slots[i], k, s.now, r.now); }
    }
  }

  // new receivers start idle, with nothing queued and nothing written
  lemma ReceiversRunning(ws: seq<Writer>, s: State, r: State, w: Writer)
    requires Running(ws, s) && Extends(s, r, w, |ws|)
    ensures Running(ws + [w], r)
  {
    ReceiversConfig(ws, s, r, w);
    ReceiversSpaced(ws, s, r, w);
    ReceiversStamped(s, r, w, |ws|);
    hide Config, Coherent, Spaced, Stamped, Micros;
    assert !s.tied ==> Current(s);
  }

  // the first entry, if any, names a slot and a writer
  ghost predicate FirstFits(ws: seq<Writer>, s: State) {
    s.queue != [] ==> s.queue[0].ref < |s.slots| && s.slots[s.queue[0].ref].writer < |ws|
  }

  ghost function FirstSent(ws: seq<Writer>, s: State, t: Timeval, e: Env): State
    requires FirstFits(ws, s)
  {
    if s.queue == [] then s else SendFirst(ws, s, t, e)
  }

  // a step of defer_next, with the clock readings it made
  ghost predicate IsNext(ws: seq<Writer>, s: State, r: State, t: Timeval, e: Env, last: Timeval) {
    && FirstFits(ws, s) && r == DeferNext(ws, s, t, e, last)
    && NotBefore(s.now, t) && Forward(t, e) && NotBefore(e.arm, last)
  }

  lemma FirstFitting(ws: seq<Writer>, s: State)
    requires Config(ws, s) && Named(s)
    ensures FirstFits(ws, s)
  {
    hide Config, Named;
    FirstOwned(ws, s);
  }

  lemma NextIs(ws: seq<Writer>, s: State, r: State, t: Timeval, e: Env, last: Timeval)
    requires FirstFits(ws, s) && NotBefore(s.now, t) && Forward(t, e) && NotBefore(e.arm, last)
    requires r == if s.pipe == 0 then s else Rearmed(FirstSent(ws, s.(pipe := s.pipe - 1), t, e), last)
    ensures IsNext(ws, s, r, t, e, last)
  {
    hide SendFirst;
  }

  lemma Later(t: Timeval, u: Timeval, v: Timeval)
    requires NotBefore(t, u) && NotBefore(u, v)
    ensures NotBefore(t, v)
  {
  }

  // an environment that reads the clock once
  lemma StillEnv(t: Timeval)
    requires Normal(t)
    ensures var e := Env(t, false, t, t, t, true, t); NotBefore(t, t) && Forward(t, e)
  {
  }

  lemma PipeNamed(ws: seq<Writer>, s: State, n: nat)
    requires Named(s) && Config(ws, s)
    ensures Named(s.(pipe := n)) && Config(ws, s.(pipe := n))
  {
    SlotsConfig(ws, s, s.(pipe := n));
  }

  lemma FirstOwned(ws: seq<Writer>, s: State)
    requires Config(ws, s) && Named(s)
    ensures FirstFits(ws, s)
    ensures s.queue != [] ==> var w := ws[s.slots[s.queue[0].ref].writer]; w in ws && w.first + w.nRcv <= |s.slots|
  {
    if s.queue != [] {
      assert s.queue[0] in s.queue;
      assert Owned(ws, s.slots, s.queue[0].ref);
    }
  }

  // what happens to the program: a packet is read, the poll loop finds the timer pipe
  // readable, the interval timer may have run out
  datatype Request = Packets(k: nat, packet: Packet) | Readable | Elapse(t: Timeval)

  // a run from the state at the start to the present one
  ghost predicate Traced(ws: seq<Writer>, states: seq<State>, evs: seq<Event>, start: State, s: State) {
    Runs(ws, states, evs) && states[0] == start && states[|evs|] == s
  }

  method Handle(sch: Scheduler, request: Request, ghost states: seq<State>, ghost evs: seq<Event>, ghost start: State)
    returns (ghost states2: seq<State>, ghost evs2: seq<Event>)
    requires sch.Valid() && Traced(sch.writers, states, evs, start, sch.View())
    modifies sch`slots, sch`now, sch`armed, sch`itimer, sch`pipe, sch`tied, sch`log, sch.tree, sch.tree.pool
    modifies sch.tree.mem.Keys
    ensures sch.Valid() && fresh(sch.tree.mem.Keys - old(sch.tree.mem.Keys))
    ensures Traced(sch.writers, states2, evs2, start, sch.View())
  {
    hide Scheduler.Valid, Scheduler.View, Goes, Due, NotBefore, Micros, Traced;
    states2, evs2 := states, evs;
    match request
    case Packets(k, packet) =>
      if k < |sch.writers| {
        ghost var e := sch.Send(k, packet);
        states2, evs2 := TraceMore(sch.writers, states, evs, start, Event.Send(k, packet, e), old(sch.View()),
          sch.View());
      }
    case Readable =>
      ghost var t, e, last;
      var ok;
      ok, t, e, last := sch.TimerReady();
      states2, evs2 := TraceMore(sch.writers, states, evs, start, Event.Next(t, e, last), old(sch.View()), sch.View());
    case Elapse(t) =>
      if sch.itimer > 0 && NotBefore(sch.now, t) && Micros(t) >= Micros(sch.armed) + 1000 * sch.itimer {
        DueNow(sch, t);
        sch.TimerHandler(t);
        states2, evs2 := TraceMore(sch.writers, states, evs, start, Event.Alarm(t), old(sch.View()), sch.View());
      }
  }

  lemma TraceMore(ws: seq<Writer>, states: seq<State>, evs: seq<Event>, start: State, ev: Event, s: State, r: State)
    returns (states2: seq<State>, evs2: seq<Event>)
    requires Traced(ws, states, evs, start, s) && Goes(ws, s, ev, r)
    ensures Traced(ws, states2, evs2, start, r) && states2 == states + [r] && evs2 == evs + [ev]
  {
    RunsMore(ws, states, evs, ev, r);
    states2, evs2 := states + [r], evs + [ev];
  }

  // Whatever happens in whatever order, the engine goes through a run of the state machine,
  // so that what is proved of runs holds of the program, up to a tie: the keys in this tree
  // are snapshots, and from then on those of the program change inside its own.
  method Serve(sch: Scheduler, requests: seq<Request>) returns (ghost states: seq<State>, ghost evs: seq<Event>)
    requires sch.Valid()
    modifies sch`slots, sch`now, sch`armed, sch`itimer, sch`pipe, sch`tied, sch`log, sch.tree, sch.tree.pool
    modifies sch.tree.mem.Keys
    ensures sch.Valid() && Traced(sch.writers, states, evs, old(sch.View()), sch.View())
    ensures Tracked(states[0]) && Woken(states[0])
  {
    hide Scheduler.Valid, Scheduler.View, Holds, Tracked, Woken, Goes;
    ViewRunning(sch);
    states, evs := [sch.View()], [];
    for n := 0 to |requests|
      invariant sch.Valid() && fresh(sch.tree.mem.Keys - old(sch.tree.mem.Keys))
      invariant Traced(sch.writers, states, evs, old(sch.View()), sch.View())
    {
      states, evs := Handle(sch, requests[n], states, evs, old(sch.View()));
    }
  }

  lemma ViewRunning(sch: Scheduler)
    requires sch.Valid()
    ensures Holds(sch.writers, sch.View()) && Tracked(sch.View()) && Woken(sch.View())
  {
  }

  lemma DueNow(sch: Scheduler, t: Timeval)
    requires sch.itimer > 0 && NotBefore(sch.now, t) && Micros(t) >= Micros(sch.armed) + 1000 * sch.itimer
    ensures Due(sch.View(), t)
  {
  }

  lemma RunsMore(ws: seq<Writer>, states: seq<State>, evs: seq<Event>, ev: Event, r: State)
    requires Runs(ws, states, evs) && Goes(ws, states[|evs|], ev, r)
    ensures Runs(ws, states + [r], evs + [ev])
  {
    hide Goes, Holds;
    var ss, es := states + [r], evs + [ev];
    forall n | 0 <= n < |es| ensures Goes(ws, ss[n], es[n], ss[n + 1]) {
      if n < |evs| { assert Goes(ws, states[n], evs[n], states[n + 1]); }
    }
  }
}
