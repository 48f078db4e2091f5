/** The memory pool of src/pool.c: fixed-size slots cut from 4096-byte blocks,
    with the free list threaded through the first word of every free slot. */
module SlotPool {
  const MALLOC_SIZE: int := 4096
  const WORD: int := 8  // sizeof(void *)

  // Memory as words by byte address. A word is known only while no later
  // store has touched one of its bytes.
  type Words = map<int, int>

  function Put(mem: Words, a: int, w: int): Words {
    (map x | x in mem && (x + WORD <= a || a + WORD <= x) :: mem[x])[a := w]
  }

  ghost predicate Far(a: int, s: seq<int>) {
    forall i | 0 <= i < |s| :: s[i] + WORD <= a || a + WORD <= s[i]
  }

  ghost function After(s: seq<int>, i: int): int
    requires 0 <= i < |s|
  {
    if i + 1 < |s| then s[i + 1] else 0
  }

  // following the first words from address h visits exactly s and ends at NULL
  ghost predicate Chain(mem: Words, h: int, s: seq<int>) {
    && h == (if s == [] then 0 else s[0])
    && forall i | 0 <= i < |s| :: s[i] in mem && mem[s[i]] == After(s, i)
  }

  function SlotsPerBlock(n: int): int
    requires n > 0
  {
    (MALLOC_SIZE - WORD) / n
  }

  ghost predicate SlotSize(n: int) { WORD <= n <= MALLOC_SIZE - WORD }

  // a block takes its header and that many slots, and not one more
  lemma BlockFull(n: int)
    requires SlotSize(n)
    ensures 8 + SlotsPerBlock(n) * n <= 4096 < 8 + (SlotsPerBlock(n) + 1) * n
  {
    assert (MALLOC_SIZE - WORD) == SlotsPerBlock(n) * n + (MALLOC_SIZE - WORD) % n;
    assert (SlotsPerBlock(n) + 1) * n == SlotsPerBlock(n) * n + n;
  }

  ghost function SlotAt(b: int, i: int, n: int): int { b + WORD + i * n }

  ghost function Slots(b: int, n: int): (s: seq<int>)
    requires SlotSize(n)
    ensures |s| == SlotsPerBlock(n) >= 1
  {
    seq(SlotsPerBlock(n), i => SlotAt(b, i, n))
  }

  lemma SlotBounds(b: int, i: int, n: int)
    requires SlotSize(n) && 0 <= i < SlotsPerBlock(n)
    ensures b + WORD <= SlotAt(b, i, n) && SlotAt(b, i, n) + n <= b + MALLOC_SIZE
  {
    assert (i + 1) * n <= SlotsPerBlock(n) * n <= MALLOC_SIZE - WORD;
  }

  lemma SlotGap(b: int, i: int, j: int, n: int)
    requires SlotSize(n) && i < j
    ensures SlotAt(b, i, n) + n <= SlotAt(b, j, n)
  {
    assert (i + 1) * n <= j * n;
  }

  // every slot of every block; oldest block first, as release_all links them
  ghost function AllSlots(blocks: seq<int>, n: int): seq<int>
    requires SlotSize(n)
  {
    if blocks == [] then [] else AllSlots(blocks[1..], n) + Slots(blocks[0], n)
  }

  ghost predicate Apart(blocks: seq<int>) {
    && (forall i | 0 <= i < |blocks| :: blocks[i] > 0)
    && (forall i, j | 0 <= i < j < |blocks| ::
          blocks[i] + MALLOC_SIZE <= blocks[j] || blocks[j] + MALLOC_SIZE <= blocks[i])
  }

  ghost predicate InSome(a: int, blocks: seq<int>, n: int) {
    exists j :: 0 <= j < |blocks| && blocks[j] + WORD <= a && a + n <= blocks[j] + MALLOC_SIZE
  }

  // a slot lies in one block, past its header
  lemma {:induction false} SlotInside(blocks: seq<int>, n: int, a: int)
    requires SlotSize(n) && a in AllSlots(blocks, n)
    ensures InSome(a, blocks, n)
  {
    if a in Slots(blocks[0], n) {
      var i :| 0 <= i < SlotsPerBlock(n) && a == SlotAt(blocks[0], i, n);
      SlotBounds(blocks[0], i, n);
    } else {
      SlotInside(blocks[1..], n, a);
      var j :| 0 <= j < |blocks[1..]| && blocks[1..][j] + WORD <= a && a + n <= blocks[1..][j] + MALLOC_SIZE;
      assert blocks[j + 1] == blocks[1..][j];
    }
  }

  // Disjoint byte ranges: two slots never share a byte, and no slot is listed twice.
  lemma {:induction false} SlotsDisjoint(blocks: seq<int>, n: int, i: int, j: int)
    requires SlotSize(n) && Apart(blocks) && 0 <= i < j < |AllSlots(blocks, n)|
    ensures var s := AllSlots(blocks, n); s[i] + n <= s[j] || s[j] + n <= s[i]
  {
    var tail, b := AllSlots(blocks[1..], n), blocks[0];
    var s := AllSlots(blocks, n);
    if j < |tail| {
      SlotsDisjoint(blocks[1..], n, i, j);
    } else if i < |tail| {
      SlotInside(blocks[1..], n, s[i]);
      var k :| 0 <= k < |blocks[1..]| && blocks[1..][k] + WORD <= s[i] && s[i] + n <= blocks[1..][k] + MALLOC_SIZE;
      assert blocks[1..][k] == blocks[k + 1];
      SlotBounds(b, j - |tail|, n);
    } else {
      SlotGap(b, i - |tail|, j - |tail|, n);
    }
  }

  // the first words of the first k slots of block b point to the slot after
  ghost predicate Threaded(mem: Words, b: int, k: int, n: int) {
    forall j | 0 <= j < k :: SlotAt(b, j, n) in mem && mem[SlotAt(b, j, n)] == SlotAt(b, j + 1, n)
  }

  // nothing outside the slots of block b has changed
  ghost predicate KeptOutside(was: Words, mem: Words, b: int) {
    forall x | x in was && (x <= b || b + MALLOC_SIZE <= x) :: x in mem && mem[x] == was[x]
  }

  lemma ThreadNext(mem: Words, b: int, i: int, n: int, w: int)
    requires SlotSize(n) && 0 <= i && Threaded(mem, b, i, n) && w == SlotAt(b, i + 1, n)
    ensures Threaded(Put(mem, SlotAt(b, i, n), w), b, i + 1, n)
  {
    forall j | 0 <= j < i ensures SlotAt(b, j, n) + n <= SlotAt(b, i, n) {
      SlotGap(b, j, i, n);
    }
  }

  // a store far from every node of a chain leaves the chain alone
  lemma ChainPut(mem: Words, h: int, s: seq<int>, a: int, w: int)
    requires Chain(mem, h, s) && Far(a, s)
    ensures Chain(Put(mem, a, w), h, s)
  {
  }

  lemma {:induction false} CountOnce(s: seq<int>, a: int)
    requires forall i, j | 0 <= i < j < |s| :: s[i] != s[j]
    ensures multiset(s)[a] <= 1
  {
    if s != [] {
      var t := s[..|s| - 1];
      assert s == t + [s[|s| - 1]];
      CountOnce(t, a);
      assert forall i | 0 <= i < |t| :: t[i] == s[i];
      if a == s[|s| - 1] { assert a !in t; }
    }
  }

  lemma SlotOnce(blocks: seq<int>, n: int, a: int)
    requires SlotSize(n) && Apart(blocks)
    ensures multiset(AllSlots(blocks, n))[a] <= 1
  {
    var s := AllSlots(blocks, n);
    forall i, j | 0 <= i < j < |s| ensures s[i] != s[j] { SlotsDisjoint(blocks, n, i, j); }
    CountOnce(s, a);
  }

  // a slot keeps clear of every other slot and of every block header
  lemma SlotFar(blocks: seq<int>, n: int, a: int, b: int)
    requires SlotSize(n) && Apart(blocks) && a in AllSlots(blocks, n) && b in AllSlots(blocks, n) && a != b
    ensures a + n <= b || b + n <= a
  {
    var s := AllSlots(blocks, n);
    var i, j :| 0 <= i < |s| && 0 <= j < |s| && s[i] == a && s[j] == b;
    if i < j { SlotsDisjoint(blocks, n, i, j); } else { SlotsDisjoint(blocks, n, j, i); }
  }

  lemma HeaderFar(blocks: seq<int>, n: int, a: int)
    requires SlotSize(n) && Apart(blocks) && a in AllSlots(blocks, n)
    ensures forall i | 0 <= i < |blocks| :: blocks[i] + WORD <= a || a + n <= blocks[i]
  {
    SlotInside(blocks, n, a);
  }

  lemma ChainJoin(mem: Words, s: seq<int>, next: int, tail: seq<int>)
    requires s != [] && Chain(mem, next, tail)
    requires forall i | 0 <= i < |s| - 1 :: s[i] in mem && mem[s[i]] == s[i + 1]
    requires s[|s| - 1] in mem && mem[s[|s| - 1]] == next
    ensures Chain(mem, s[0], s + tail)
  {
    var r := s + tail;
    assert forall i | 0 <= i < |s| :: r[i] == s[i];
    forall i | 0 <= i < |r| ensures r[i] in mem && mem[r[i]] == After(r, i) {
      if i >= |s| { assert r[i] == tail[i - |s|]; }
    }
  }

  lemma FreshChain(mem: Words, b: int, n: int, next: int, tail: seq<int>)
    requires SlotSize(n) && Threaded(mem, b, SlotsPerBlock(n) - 1, n) && Chain(mem, next, tail)
    requires var l := SlotAt(b, SlotsPerBlock(n) - 1, n); l in mem && mem[l] == next
    ensures Chain(mem, b + WORD, Slots(b, n) + tail)
  {
    ChainJoin(mem, Slots(b, n), next, tail);
  }

  lemma ThreadedPut(mem: Words, b: int, n: int, w: int)
    requires SlotSize(n) && Threaded(mem, b, SlotsPerBlock(n) - 1, n)
    ensures Threaded(Put(mem, SlotAt(b, SlotsPerBlock(n) - 1, n), w), b, SlotsPerBlock(n) - 1, n)
    ensures var l := SlotAt(b, SlotsPerBlock(n) - 1, n); l in Put(mem, l, w) && Put(mem, l, w)[l] == w
  {
    forall j | 0 <= j < SlotsPerBlock(n) - 1 ensures SlotAt(b, j, n) + n <= SlotAt(b, SlotsPerBlock(n) - 1, n) {
      SlotGap(b, j, SlotsPerBlock(n) - 1, n);
    }
  }

  // what malloc may return: NULL, or a block apart from the others
  ghost predicate Malloced(base: int, blocks: seq<int>) {
    base == 0 || Apart([base] + blocks)
  }

  // the headers after a new block has been linked in
  lemma HeadersChain(mem: Words, h: int, blocks: seq<int>, base: int)
    requires Chain(mem, h, blocks) && base != 0 && Malloced(base, blocks)
    ensures Chain(Put(mem, base, h), base, [base] + blocks)
  {
    var bs := [base] + blocks;
    assert forall i | 0 <= i < |blocks| :: bs[i + 1] == blocks[i];
    assert bs[0] == base;
  }

  // filling the slots of one block leaves the headers alone
  lemma HeadersKept(was: Words, mem: Words, h: int, blocks: seq<int>, b: int, last: int, w: int, n: int)
    requires Chain(was, h, blocks) && KeptOutside(was, mem, b) && Apart(blocks) && b in blocks
    requires b + WORD <= last && last + WORD <= b + MALLOC_SIZE
    ensures Chain(Put(mem, last, w), h, blocks)
  {
    assert forall i | 0 <= i < |blocks| :: blocks[i] <= b || b + MALLOC_SIZE <= blocks[i];
  }

  // live slots are slots, and no live slot is free
  lemma LiveSlot(free: seq<int>, live: set<int>, blocks: seq<int>, n: int, m: int)
    requires SlotSize(n) && Apart(blocks) && multiset(free) + multiset(live) == multiset(AllSlots(blocks, n))
      && m in live
    ensures m in AllSlots(blocks, n) && m !in free
    ensures forall i | 0 <= i < |free| :: free[i] + n <= m || m + n <= free[i]
    ensures forall i | 0 <= i < |blocks| :: blocks[i] + WORD <= m || m + n <= blocks[i]
  {
    var s := AllSlots(blocks, n);
    assert m in multiset(s);
    SlotOnce(blocks, n, m);
    assert multiset(live)[m] == 1;
    assert m !in multiset(free);
    HeaderFar(blocks, n, m);
    forall i | 0 <= i < |free| ensures free[i] + n <= m || m + n <= free[i] {
      assert free[i] in multiset(free) && free[i] in multiset(s);
      SlotFar(blocks, n, free[i], m);
    }
  }

  class Pool {
    const nBytes: int
    var block: int  // newest block, 0 for none
    var head: int   // head of the free list, 0 for none
    var mem: Words
    ghost var blocks: seq<int>
    ghost var free: seq<int>
    ghost var live: set<int>

    ghost predicate Valid()
      reads this
    {
      && SlotSize(nBytes) && Apart(blocks)
      && Chain(mem, head, free) && Chain(mem, block, blocks)
      && multiset(free) + multiset(live) == multiset(AllSlots(blocks, nBytes))
    }

    // cl_pool_init
    constructor (s: int)
      requires SlotSize(s)
      ensures Valid() && nBytes == s && blocks == [] && free == [] && live == {}
    {
      nBytes, block, head, mem := s, 0, 0, map[];
      blocks, free, live := [], [], {};
    }

    // cl_pool_init_block
    method InitBlock(b: int) returns (slot: int)
      requires SlotSize(nBytes)
      modifies this`mem
      ensures slot == SlotAt(b, SlotsPerBlock(nBytes) - 1, nBytes)
      ensures Threaded(mem, b, SlotsPerBlock(nBytes) - 1, nBytes) && KeptOutside(old(mem), mem, b)
    {
      slot := b + WORD;
      var next := slot;
      var last := next + SlotsPerBlock(nBytes) * nBytes;
      ghost var i := 0;
      next := next + nBytes;
      assert SlotsPerBlock(nBytes) >= 1;
      while next < last
        invariant 0 <= i < SlotsPerBlock(nBytes)
        invariant slot == SlotAt(b, i, nBytes) && next == slot + nBytes
        invariant Threaded(mem, b, i, nBytes) && KeptOutside(old(mem), mem, b)
        decreases last - next
      {
        assert i + 1 < SlotsPerBlock(nBytes) by { MulLess(i + 1, SlotsPerBlock(nBytes), nBytes); }
        assert next == SlotAt(b, i + 1, nBytes);
        ThreadNext(mem, b, i, nBytes, next);
        SlotBounds(b, i, nBytes);
        mem := Put(mem, slot, next);
        slot := next;
        next := next + nBytes;
        i := i + 1;
      }
      MulLess(SlotsPerBlock(nBytes), i + 1, nBytes);
    }

    // cl_pool_add_block; base is what malloc returns
    method AddBlock(base: int) returns (ok: bool)
      requires Valid() && free == [] && Malloced(base, blocks)
      modifies this
      ensures Valid() && ok == (base != 0) && live == old(live)
      ensures blocks == if ok then [base] + old(blocks) else old(blocks)
      ensures free == if ok then Slots(base, nBytes) else []
    {
      hide Chain, Threaded, KeptOutside, Apart, Put;
      ok := base != 0;
      if ok {
        HeadersChain(mem, block, blocks, base);
        mem := Put(mem, base, block);
        block := base;
        head := base + WORD;
        blocks := [base] + blocks;
        ghost var was := mem;
        var last := InitBlock(base);
        SlotBounds(base, SlotsPerBlock(nBytes) - 1, nBytes);
        HeadersKept(was, mem, block, blocks, base, last, 0, nBytes);
        ThreadedPut(mem, base, nBytes, 0);
        mem := Put(mem, last, 0);
        FreshChain(mem, base, nBytes, 0, []);
        free := Slots(base, nBytes);
        assert free + [] == free;
        assert blocks[1..] == old(blocks);
      }
    }

    // cl_pool_alloc; base is what malloc returns if it is called
    method Alloc(base: int) returns (slot: int)
      requires Valid() && (head == 0 ==> Malloced(base, blocks))
      modifies this
      ensures Valid() && blocks == if old(head) == 0 && base != 0 then [base] + old(blocks) else old(blocks)
      ensures slot == 0 <==> old(head) == 0 && base == 0
      ensures slot == 0 ==> live == old(live) && free == old(free)
      ensures slot != 0 ==> slot !in old(live) && live == old(live) + {slot}
      ensures slot != 0 && old(free) != [] ==> [slot] + free == old(free)
    {
      hide Chain, Apart, AllSlots, Slots, Malloced;
      HeadFree(mem, head, free, live, blocks, nBytes);
      if head == 0 {
        var ok := AddBlock(base);
        if !ok {
          return 0;
        }
      }
      slot := head;
      FreeSlot(free, live, blocks, nBytes);
      ChainTail(mem, head, free);
      head := mem[slot];
      free := free[1..];
      live := live + {slot};
    }

    // cl_pool_release
    method Release(m: int)
      requires Valid() && m in live
      modifies this
      ensures Valid() && blocks == old(blocks) && live == old(live) - {m} && free == [m] + old(free)
      ensures mem == Put(old(mem), m, old(head))
    {
      LiveSlot(free, live, blocks, nBytes, m);
      ChainPut(mem, head, free, m, head);
      ChainPut(mem, block, blocks, m, head);
      mem := Put(mem, m, head);
      head := m;
      free := [m] + free;
      live := live - {m};
    }

    // what the owner of a live slot may do with it
    method Store(m: int, offset: int, w: int)
      requires Valid() && m in live && 0 <= offset && offset + WORD <= nBytes
      modifies this`mem
      ensures Valid() && mem == Put(old(mem), m + offset, w)
    {
      LiveSlot(free, live, blocks, nBytes, m);
      ChainPut(mem, head, free, m + offset, w);
      ChainPut(mem, block, blocks, m + offset, w);
      mem := Put(mem, m + offset, w);
    }

    // cl_pool_release_all
    method ReleaseAll()
      requires Valid()
      modifies this
      ensures Valid() && blocks == old(blocks) && live == {} && free == AllSlots(blocks, nBytes)
    {
      hide Chain, AllSlots, KeptOutside, Threaded;
      NoneChained(mem, block, blocks, nBytes);
      var b := block;
      var next := 0;
      ghost var k := 0;
      while b != 0
        invariant blocks == old(blocks) && Apart(blocks)
        invariant 0 <= k <= |blocks| && b == if k == |blocks| then 0 else blocks[k]
        invariant Chain(mem, block, blocks) && Chain(mem, next, AllSlots(blocks[..k], nBytes))
        decreases |blocks| - k
      {
        ghost var was := mem;
        var slot := InitBlock(b);
        ReleaseBlock(was, mem, block, blocks, k, next, nBytes);
        mem := Put(mem, slot, next);
        next := b + WORD;
        ChainAt(mem, block, blocks, k);
        b := mem[b];
        k := k + 1;
      }
      head := next;
      assert blocks[..k] == blocks;
      free := AllSlots(blocks, nBytes);
      live := {};
    }

    // cl_pool_destroy; freed are the blocks handed back to free, in order
    method Destroy() returns (freed: seq<int>)
      requires Valid()
      modifies this
      ensures Valid() && freed == old(blocks) && blocks == [] && free == [] && live == {}
    {
      hide Chain, AllSlots, Apart;
      freed := [];
      NoneChained(mem, block, blocks, nBytes);
      var b := block;
      while b != 0
        invariant Chain(mem, block, blocks) && Apart(blocks) && blocks == old(blocks)
        invariant |freed| <= |blocks| && freed == blocks[..|freed|]
        invariant b == if |freed| == |blocks| then 0 else blocks[|freed|]
        decreases |blocks| - |freed|
      {
        var c := b;
        ChainAt(mem, block, blocks, |freed|);
        NextBlock(blocks, |freed|);
        b := mem[b];
        freed := freed + [c];
      }
      if |freed| < |blocks| { NextBlock(blocks, |freed|); }
      assert freed == blocks;
      EmptyPool(mem, nBytes);
      block, head := 0, 0;
      blocks, free, live := [], [], {};
    }
  }

  lemma NextBlock(blocks: seq<int>, k: nat)
    requires Apart(blocks) && k < |blocks|
    ensures After(blocks, k) == (if k + 1 < |blocks| then blocks[k + 1] else 0)
      && blocks[..k] + [blocks[k]] == blocks[..k + 1]
    ensures blocks[k] != 0
  {
  }

  lemma EmptyPool(mem: Words, n: int)
    ensures Chain(mem, 0, []) && Apart([]) && (SlotSize(n) ==> AllSlots([], n) == [])
  {
  }

  lemma HeadFree(mem: Words, head: int, free: seq<int>, live: set<int>, blocks: seq<int>, n: int)
    requires SlotSize(n) && Apart(blocks) && Chain(mem, head, free)
    requires multiset(free) + multiset(live) == multiset(AllSlots(blocks, n))
    ensures head == 0 <==> free == []
  {
    if free != [] { FreeSlot(free, live, blocks, n); }
  }

  lemma {:induction false} SlotCount(blocks: seq<int>, n: int)
    requires SlotSize(n)
    ensures |AllSlots(blocks, n)| == |blocks| * SlotsPerBlock(n)
  {
    hide SlotsPerBlock;
    if blocks != [] { SlotCount(blocks[1..], n); }
  }

  // The free list is empty exactly if every slot of every block is live.
  lemma FullPool(p: Pool)
    requires p.Valid()
    ensures |p.live| <= |p.blocks| * SlotsPerBlock(p.nBytes)
    ensures p.head == 0 <==> |p.live| == |p.blocks| * SlotsPerBlock(p.nBytes)
  {
    hide Chain, Apart, AllSlots;
    var all := AllSlots(p.blocks, p.nBytes);
    HeadFree(p.mem, p.head, p.free, p.live, p.blocks, p.nBytes);
    SlotCount(p.blocks, p.nBytes);
    assert |multiset(p.free) + multiset(p.live)| == |p.free| + |p.live| && |multiset(all)| == |all|;
  }

  lemma ChainAt(mem: Words, h: int, s: seq<int>, k: nat)
    requires Chain(mem, h, s) && k < |s|
    ensures s[k] in mem && mem[s[k]] == After(s, k)
  {
  }

  lemma NoneChained(mem: Words, h: int, s: seq<int>, n: int)
    requires SlotSize(n) && Chain(mem, h, s)
    ensures h == (if s == [] then 0 else s[0]) && s[..0] == [] && Chain(mem, 0, AllSlots(s[..0], n))
  {
  }

  lemma ChainTail(mem: Words, h: int, s: seq<int>)
    requires Chain(mem, h, s) && s != []
    ensures h == s[0] && h in mem && Chain(mem, mem[h], s[1..])
  {
  }

  lemma FreeSlot(free: seq<int>, live: set<int>, blocks: seq<int>, n: int)
    requires SlotSize(n) && Apart(blocks) && free != []
    requires multiset(free) + multiset(live) == multiset(AllSlots(blocks, n))
    ensures free[0] in AllSlots(blocks, n) && free[0] > 0 && free[0] !in live
    ensures multiset(free[1..]) + multiset(live + {free[0]}) == multiset(AllSlots(blocks, n))
  {
    var a := free[0];
    assert free == [a] + free[1..];
    assert a in multiset(free) && a in multiset(AllSlots(blocks, n));
    SlotOnce(blocks, n, a);
    SlotInside(blocks, n, a);
    assert multiset(live + {a}) == multiset(live) + multiset{a};
  }

  lemma {:induction false} AllSlotsSnoc(blocks: seq<int>, b: int, n: int)
    requires SlotSize(n)
    ensures AllSlots(blocks + [b], n) == Slots(b, n) + AllSlots(blocks, n)
  {
    if blocks != [] {
      assert (blocks + [b])[1..] == blocks[1..] + [b];
      AllSlotsSnoc(blocks[1..], b, n);
    } else {
      assert (blocks + [b])[1..] == [];
    }
  }

  // one round of release_all
  lemma ReleaseBlock(was: Words, mem: Words, block: int, blocks: seq<int>, k: int, next: int, n: int)
    requires SlotSize(n) && Apart(blocks) && 0 <= k < |blocks|
    requires Chain(was, block, blocks) && Chain(was, next, AllSlots(blocks[..k], n))
    requires Threaded(mem, blocks[k], SlotsPerBlock(n) - 1, n) && KeptOutside(was, mem, blocks[k])
    ensures var last := SlotAt(blocks[k], SlotsPerBlock(n) - 1, n);
      && Chain(Put(mem, last, next), block, blocks)
      && Chain(Put(mem, last, next), blocks[k] + WORD, AllSlots(blocks[..k + 1], n))
  {
    hide Chain, Threaded, Put, KeptOutside;
    var b := blocks[k];
    var last := SlotAt(b, SlotsPerBlock(n) - 1, n);
    var tail := AllSlots(blocks[..k], n);
    SlotBounds(b, SlotsPerBlock(n) - 1, n);
    HeadersKept(was, mem, block, blocks, b, last, next, n);
    ThreadedPut(mem, b, n, next);
    forall i | 0 <= i < |tail| ensures tail[i] + n <= b || b + MALLOC_SIZE <= tail[i] {
      SlotInside(blocks[..k], n, tail[i]);
    }
    TailKept(was, mem, next, tail, b, last, n);
    FreshChain(Put(mem, last, next), b, n, next, tail);
    AllSlotsSnoc(blocks[..k], b, n);
    assert blocks[..k + 1] == blocks[..k] + [b];
  }

  lemma TailKept(was: Words, mem: Words, h: int, tail: seq<int>, b: int, last: int, n: int)
    requires SlotSize(n) && Chain(was, h, tail) && KeptOutside(was, mem, b)
    requires forall i | 0 <= i < |tail| :: tail[i] + n <= b || b + MALLOC_SIZE <= tail[i]
    requires b + WORD <= last && last + n <= b + MALLOC_SIZE
    ensures Chain(Put(mem, last, h), h, tail)
  {
  }

  // Two live slots never share a byte; each lies in one block, past its header.
  lemma LiveApart(p: Pool, a: int, b: int)
    requires p.Valid() && a in p.live && b in p.live && a != b
    ensures a + p.nBytes <= b || b + p.nBytes <= a
    ensures InSome(a, p.blocks, p.nBytes)
  {
    LiveSlot(p.free, p.live, p.blocks, p.nBytes, a);
    LiveSlot(p.free, p.live, p.blocks, p.nBytes, b);
    SlotFar(p.blocks, p.nBytes, a, b);
    SlotInside(p.blocks, p.nBytes, a);
  }

  lemma MulLess(a: int, b: int, n: int)
    requires n > 0
    ensures a * n < b * n ==> a < b
    ensures a * n <= b * n ==> a <= b
  {
    if b < a { assert (b + 1) * n <= a * n; }
    if a == b { }
  }
}
