/** Whole runs of the red-black tree against the sorted list. */
module RbRuns {
  import opened SortedList
  import opened SlotPool
  import opened RbTree

  datatype Op = AddOp(v: Value) | RemoveOp(key: int) | GetOp(key: int) | PeekOp | CountOp | ForEachOp | ClearOp

  datatype Answer = One(value: Option<Value>) | Many(values: seq<Value>) | Number(n: int)

  // an operation, whether malloc refuses a block should it be asked for one, and the answer
  datatype Event = Event(op: Op, refused: bool, answer: Answer)

  // the list, and the number of blocks that the pool holds for it
  datatype Store = Store(values: seq<Value>, blocks: nat)

  // the values fill every slot of every block
  ghost predicate Full(s: Store) {
    |s.values| == s.blocks * SlotsPerBlock(NODE_SIZE)
  }

  // What the sorted list answers and becomes. An add fails exactly if it needs a new node,
  // the blocks are full and malloc refuses another; a get among equals may answer with any.
  ghost predicate Step(dup: Dup, s: Store, e: Event, r: Store) {
    var l := s.values;
    match e.op
    case AddOp(v) => Adds(dup, s, v, e.refused, e.answer, r)
    case RemoveOp(key) =>
      && r == s.(values := Remove(l, key))
      && e.answer == One(if Has(l, key) then Some(l[LowerBound(l, key)]) else None)
    case GetOp(key) =>
      && r == s && e.answer.One?
      && (e.answer.value == None <==> !Has(l, key))
      && (e.answer.value != None ==> e.answer.value.value in l && e.answer.value.value.key == key)
    case PeekOp => r == s && e.answer == One(if l == [] then None else Some(l[0]))
    case CountOp => r == s && e.answer == Number(|l|)
    case ForEachOp => r == s && e.answer == Many(l)
    case ClearOp => r == Store([], 0) && e.answer == Many(l)
  }

  ghost predicate Adds(dup: Dup, s: Store, v: Value, refused: bool, a: Answer, r: Store) {
    var more := Grows(dup, s.values, v) && Full(s);
    if more && refused then r == s && a == One(None)
    else
      && r == Store(Added(dup, s.values, v).0, if more then s.blocks + 1 else s.blocks)
      && a == One(Some(Added(dup, s.values, v).1))
  }

  // a run of the list: states[i] is the list before event i
  ghost predicate Run(dup: Dup, events: seq<Event>, states: seq<Store>) {
    && |states| == |events| + 1 && states[0] == Store([], 0)
    && forall i | 0 <= i < |events| :: Stepped(dup, events, states, i)
  }

  ghost predicate Stepped(dup: Dup, events: seq<Event>, states: seq<Store>, i: nat)
    requires i < |events| && |states| == |events| + 1
  {
    Step(dup, states[i], events[i], states[i + 1])
  }

  // the C allocator, known by its contract alone: a new block apart from the others, or 0;
  // the body is the one answer that malloc can always give
  method Malloc(ghost blocks: seq<int>) returns (base: int)
    ensures Malloced(base, blocks)
  {
    base := 0;
  }

  ghost function StoreOf(tree: RbTree): Store
    reads tree, tree.pool
  {
    Store(tree.Contents(), |tree.pool.blocks|)
  }

  // base is what malloc returns if it is called
  method Perform(tree: RbTree, op: Op, base: int) returns (a: Answer)
    requires tree.Valid() && (tree.pool.head == 0 ==> Malloced(base, tree.pool.blocks))
    modifies tree, tree.pool, tree.mem.Keys
    ensures tree.Valid() && fresh(tree.mem.Keys - old(tree.mem.Keys))
    ensures Step(tree.dup, old(StoreOf(tree)), Event(op, base == 0, a), StoreOf(tree))
  {
    hide RbTree.Valid, Malloced, RbTree.Contents, Added, LowerBound, Has, Remove, Grows, SlotsPerBlock;
    tree.FullWhen();
    match op
    case AddOp(v) =>
      var r := tree.AddValue(v, base);
      a := One(r);
    case RemoveOp(key) =>
      ghost var rounds;
      var r;
      r, rounds := tree.RemoveValue(key);
      a := One(r);
    case GetOp(key) =>
      var r := tree.Get(key);
      a := One(r);
    case PeekOp =>
      ghost var rounds;
      var r;
      r, rounds := tree.Peek();
      a := One(r);
    case CountOp =>
      var n := tree.Count();
      a := Number(n);
    case ForEachOp =>
      var called := tree.ForEach();
      a := Many(called);
    case ClearOp =>
      var called := tree.Clear();
      a := Many(called);
  }

  // Every run of the tree, from cl_rbtree_init on, is a run of the list.
  method Execute(dup: Dup, ops: seq<Op>) returns (events: seq<Event>)
    ensures |events| == |ops| && forall i | 0 <= i < |ops| :: events[i].op == ops[i]
    ensures exists states :: Run(dup, events, states)
  {
    hide RbTree.Valid, Step, RbTree.Contents;
    var tree := new RbTree(dup);
    events := [];
    ghost var states := [StoreOf(tree)];
    for i := 0 to |ops|
      invariant tree.Valid() && tree.dup == dup && fresh(tree) && fresh(tree.pool) && fresh(tree.mem.Keys)
      invariant |events| == i && forall j | 0 <= j < i :: events[j].op == ops[j]
      invariant Run(dup, events, states) && states[i] == StoreOf(tree)
    {
      var base := Malloc(tree.pool.blocks);
      var a := Perform(tree, ops[i], base);
      var e := Event(ops[i], base == 0, a);
      RunMore(dup, events, states, e, StoreOf(tree));
      events, states := events + [e], states + [StoreOf(tree)];
    }
  }

  lemma RunMore(dup: Dup, events: seq<Event>, states: seq<Store>, e: Event, r: Store)
    requires Run(dup, events, states) && Step(dup, states[|events|], e, r)
    ensures Run(dup, events + [e], states + [r])
  {
    hide Step;
    var e2, s2 := events + [e], states + [r];
    forall i | 0 <= i < |e2| ensures Stepped(dup, e2, s2, i) {
      if i < |events| { assert Stepped(dup, events, states, i); }
    }
  }

  lemma RunLess(dup: Dup, events: seq<Event>, states: seq<Store>)
    requires Run(dup, events, states) && events != []
    ensures var n := |events| - 1;
      Run(dup, events[..n], states[..n + 1]) && Step(dup, states[n], events[n], states[n + 1])
  {
    hide Step;
    var n := |events| - 1;
    var e1, s1 := events[..n], states[..n + 1];
    forall i | 0 <= i < n ensures Stepped(dup, e1, s1, i) {
      assert Stepped(dup, events, states, i);
    }
    assert Stepped(dup, events, states, n);
  }

  // The list is always sorted, and its blocks have room for it; unless duplicates are
  // allowed, no two equal values ever coexist.
  lemma {:induction false} RunSorted(dup: Dup, events: seq<Event>, states: seq<Store>)
    requires Run(dup, events, states)
    ensures Kept(dup, states[|events|])
    decreases |events|
  {
    if events != [] {
      var n := |events| - 1;
      RunLess(dup, events, states);
      RunSorted(dup, events[..n], states[..n + 1]);
      StepSorted(dup, states[n], events[n], states[n + 1]);
    }
  }

  ghost predicate Kept(dup: Dup, s: Store) {
    && Sorted(s.values) && (dup != Allow ==> Unique(s.values))
    && |s.values| <= s.blocks * SlotsPerBlock(NODE_SIZE)
  }

  lemma StepSorted(dup: Dup, s: Store, e: Event, r: Store)
    requires Step(dup, s, e, r) && Kept(dup, s)
    ensures Kept(dup, r)
  {
    hide Added;
    if e.op.AddOp? {
      AddedSorted(dup, s.values, e.op.v);
      AddedCount(dup, s.values, e.op.v);
    }
    if e.op.RemoveOp? { RemoveSorted(s.values, e.op.key); }
  }

  lemma AddedCount(dup: Dup, s: seq<Value>, v: Value)
    ensures |Added(dup, s, v).0| == |s| + if Grows(dup, s, v) then 1 else 0
  {
  }

  // Removing by what peek returned takes that very entry, however many are equal to it.
  lemma PeekRemove(s: seq<Value>)
    requires Sorted(s) && s != []
    ensures Has(s, s[0].key) && s[LowerBound(s, s[0].key)] == s[0] && Remove(s, s[0].key) == s[1..]
  {
    assert LowerBound(s, s[0].key) == 0;
  }

  // --- order among equals ---

  // values carry serial numbers in the order of their insertion
  ghost predicate Serial(events: seq<Event>) {
    forall i, j | 0 <= i < j < |events| && events[i].op.AddOp? && events[j].op.AddOp? ::
      events[i].op.v.ref < events[j].op.v.ref
  }

  ghost predicate NewestFirst(s: seq<Value>) {
    forall i, j | 0 <= i < j < |s| && s[i].key == s[j].key :: s[i].ref > s[j].ref
  }

  ghost predicate Came(v: Value, events: seq<Event>) {
    exists i :: 0 <= i < |events| && events[i].op == AddOp(v)
  }

  ghost predicate AllCame(s: seq<Value>, events: seq<Event>) {
    forall v <- s :: Came(v, events)
  }

  lemma AddNewest(s: seq<Value>, v: Value)
    requires Sorted(s) && NewestFirst(s) && forall w <- s :: w.ref < v.ref
    ensures NewestFirst(Add(s, v))
  {
    hide LowerBound;
    var k, r := LowerBound(s, v.key), Add(s, v);
    forall i | 0 <= i < |r| ensures r[i] == if i < k then s[i] else if i == k then v else s[i - 1] {}
    forall i, j | 0 <= i < j < |r| && r[i].key == r[j].key ensures r[i].ref > r[j].ref {
      if i == k { assert r[j] in s; }
    }
  }

  lemma RemoveNewest(s: seq<Value>, key: int)
    requires NewestFirst(s)
    ensures NewestFirst(Remove(s, key)) && forall v <- Remove(s, key) :: v in s
  {
    var k, r := LowerBound(s, key), Remove(s, key);
    if Has(s, key) {
      assert forall i | 0 <= i < |r| :: r[i] == if i < k then s[i] else s[i + 1];
    }
  }

  // Among equal values the one added last always comes first.
  lemma {:induction false} RunNewestFirst(events: seq<Event>, states: seq<Store>)
    requires Run(Allow, events, states) && Serial(events)
    ensures var s := states[|events|].values; NewestFirst(s) && AllCame(s, events)
    decreases |events|
  {
    if events != [] {
      var n := |events| - 1;
      var s, op := states[n].values, events[n].op;
      RunLess(Allow, events, states);
      assert Serial(events[..n]);
      RunNewestFirst(events[..n], states[..n + 1]);
      RunSorted(Allow, events[..n], states[..n + 1]);
      CameMore(s, events);
      if op.AddOp? {
        forall w <- s ensures w.ref < op.v.ref {
          var i :| 0 <= i < n && events[..n][i].op == AddOp(w);
          assert events[i].op.AddOp? && events[n].op.AddOp?;
        }
        AddNewest(s, op.v);
        assert Came(op.v, events);
      } else if op.RemoveOp? {
        RemoveNewest(s, op.key);
      }
    }
  }

  lemma CameMore(s: seq<Value>, events: seq<Event>)
    requires events != [] && AllCame(s, events[..|events| - 1])
    ensures AllCame(s, events)
  {
    var n := |events| - 1;
    forall v <- s ensures Came(v, events) {
      var i :| 0 <= i < n && events[..n][i].op == AddOp(v);
      assert events[i].op == AddOp(v);
    }
  }

  // --- conservation ---

  ghost function Gained(e: Event): multiset<Value> {
    if e.op.AddOp? && e.answer == One(Some(e.op.v)) then multiset{e.op.v} else multiset{}
  }

  ghost function Lost(e: Event): multiset<Value> {
    if e.op.RemoveOp? && e.answer.One? && e.answer.value.Some? then multiset{e.answer.value.value}
    else if e.op.ClearOp? && e.answer.Many? then multiset(e.answer.values)
    else multiset{}
  }

  ghost function AllGained(events: seq<Event>): multiset<Value> {
    if events == [] then multiset{}
    else var n := |events| - 1; AllGained(events[..n]) + Gained(events[n])
  }

  ghost function AllLost(events: seq<Event>): multiset<Value> {
    if events == [] then multiset{}
    else var n := |events| - 1; AllLost(events[..n]) + Lost(events[n])
  }

  lemma AddConserves(s: seq<Value>, v: Value)
    ensures multiset(Add(s, v)) == multiset(s) + multiset{v}
  {
    var k := LowerBound(s, v.key);
    assert multiset(s[..k] + s[k..]) == multiset(s) by { assert s == s[..k] + s[k..]; }
  }

  lemma RemoveConserves(s: seq<Value>, key: int)
    requires Has(s, key)
    ensures multiset(Remove(s, key)) + multiset{s[LowerBound(s, key)]} == multiset(s)
  {
    hide LowerBound;
    var k := LowerBound(s, key);
    assert multiset(s[..k] + [s[k]] + s[k + 1..]) == multiset(s) by { assert s == s[..k] + [s[k]] + s[k + 1..]; }
  }

  lemma StepConserves(s: Store, e: Event, r: Store)
    requires Step(Allow, s, e, r)
    ensures multiset(r.values) + Lost(e) == multiset(s.values) + Gained(e)
  {
    hide Add, Remove, LowerBound;
    if e.op.AddOp? {
      AddConserves(s.values, e.op.v);
    } else if e.op.RemoveOp? {
      if Has(s.values, e.op.key) { RemoveConserves(s.values, e.op.key); } else { RemoveMissing(s.values, e.op.key); }
    }
  }

  lemma RemoveMissing(s: seq<Value>, key: int)
    requires !Has(s, key)
    ensures Remove(s, key) == s
  {
  }

  lemma Balance(s: multiset<Value>, r: multiset<Value>, l: multiset<Value>, x: multiset<Value>, g: multiset<Value>,
      y: multiset<Value>)
    requires s + l == g && r + x == s + y
    ensures r + (l + x) == g + y
  {
    assert r + (l + x) == (r + x) + l == (s + y) + l == (s + l) + y;
  }

  // With duplicates allowed, what is in the tree and what removals and clears
  // gave back is exactly what the adds put in: nothing is lost or doubled.
  lemma {:induction false} RunConserves(events: seq<Event>, states: seq<Store>)
    requires Run(Allow, events, states)
    ensures multiset(states[|events|].values) + AllLost(events) == AllGained(events)
    decreases |events|
  {
    hide Step, Gained, Lost;
    if events == [] {
      assert states[0].values == [];
    } else {
      var n := |events| - 1;
      RunLess(Allow, events, states);
      RunConserves(events[..n], states[..n + 1]);
      StepConserves(states[n], events[n], states[n + 1]);
      Balance(multiset(states[n].values), multiset(states[n + 1].values), AllLost(events[..n]), Lost(events[n]),
              AllGained(events[..n]), Gained(events[n]));
    }
  }
}
