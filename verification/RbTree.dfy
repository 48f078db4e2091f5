/** The red-black tree of src/rbtree.c, nodes in a pool, against the sorted list. */
module RbTree {
  import opened Powers
  import opened SortedList
  import opened SlotPool
  import opened RbShape
  import opened RbRotate
  import opened RbScan
  import opened RbHeight
  import opened RbInsert
  import opened RbRemove

  const NODE_SIZE: int := 32  // colour (padded), two links, value pointer

  // the nodes live in the pool: one live slot each, and no slot to spare
  ghost predicate Housed(nodes: set<Node>, live: set<int>) {
    && live == Addrs(nodes)
    && OwnSlots(nodes)
  }

  ghost predicate OwnSlots(nodes: set<Node>) {
    forall a, b | a in nodes && b in nodes && a.addr == b.addr :: a == b
  }

  // an add that needs a new node
  ghost predicate Grows(dup: Dup, s: seq<Value>, v: Value) { dup == Allow || !Has(s, v.key) }

  lemma {:induction false} HousedCount(nodes: set<Node>, live: set<int>)
    requires Housed(nodes, live)
    ensures |live| == |nodes|
  {
    if nodes != {} {
      var n :| n in nodes;
      var rest := nodes - {n};
      assert Addrs(nodes) == Addrs(rest) + {n.addr};
      assert n.addr !in Addrs(rest);
      HousedCount(rest, Addrs(rest));
    }
  }

  lemma {:induction false} NodeCount(t: Tree)
    requires t.Distinct()
    ensures |t.Ids()| == |t.Inorder()|
  {
    if t.Bin? {
      NodeCount(t.left);
      NodeCount(t.right);
    }
  }

  lemma HousedAdd(nodes: set<Node>, live: set<int>, n: Node)
    requires Housed(nodes, live) && n.addr !in live
    ensures Housed(nodes + {n}, live + {n.addr}) && n !in nodes
  {
  }

  lemma HousedMinus(nodes: set<Node>, live: set<int>, gone: set<Node>)
    requires Housed(nodes, live) && gone <= nodes
    ensures Housed(nodes - gone, live - Addrs(gone))
  {
  }

  // --- lookup ---

  // the subtree at which cl_rbtree_lookup stops
  ghost function Lookup(t: Tree, key: int): Tree {
    if t.Leaf? || t.value.key == key then t
    else if t.value.key > key then Lookup(t.left, key)
    else Lookup(t.right, key)
  }

  lemma {:induction false} LookupFinds(t: Tree, key: int)
    requires Sorted(t.Inorder())
    ensures var x := Lookup(t, key);
      && (x.Leaf? <==> forall v <- t.Inorder() :: v.key != key)
      && (x.Bin? ==> x.value.key == key && x.value in t.Inorder() && x.node in t.Ids())
  {
    if t.Bin? {
      var s, i := t.Inorder(), |t.left.Inorder()|;
      assert s[i] == t.value;
      SortedParts(t);
      LookupFinds(t.left, key);
      LookupFinds(t.right, key);
    }
  }

  lemma SortedParts(t: Tree)
    requires t.Bin? && Sorted(t.Inorder())
    ensures Sorted(t.left.Inorder()) && Sorted(t.right.Inorder())
    ensures forall v <- t.left.Inorder() :: v.key <= t.value.key
    ensures forall v <- t.right.Inorder() :: t.value.key <= v.key
  {
    SortedSplit(t.left.Inorder(), t.value, t.right.Inorder());
  }

  lemma SortedSplit(l: seq<Value>, v: Value, r: seq<Value>)
    requires Sorted(l + [v] + r)
    ensures Sorted(l) && Sorted(r) && (forall x <- l :: x.key <= v.key) && forall x <- r :: v.key <= x.key
  {
    var s := l + [v] + r;
    assert s[|l|] == v;
    forall i | 0 <= i < |l| ensures s[i] == l[i] {}
    forall i | 0 <= i < |r| ensures s[|l| + 1 + i] == r[i] {}
  }

  lemma HasKey(s: seq<Value>, key: int)
    requires Sorted(s)
    ensures Has(s, key) <==> exists v :: v in s && v.key == key
  {
    var k := LowerBound(s, key);
    if k < |s| { assert s[k] in s; }
  }

  // the tree with another value at the node that cl_rbtree_lookup finds
  ghost function Revalue(t: Tree, key: int, v: Value): Tree {
    if t.Leaf? then t
    else if t.value.key == key then t.(value := v)
    else if t.value.key > key then t.(left := Revalue(t.left, key, v))
    else t.(right := Revalue(t.right, key, v))
  }

  lemma {:induction false} RevalueStored(g: Mem, t: Tree, key: int, v: Value)
    requires t.Rep(g) && t.Distinct() && Lookup(t, key).Bin?
    ensures var n := Lookup(t, key).node; n in g && Revalue(t, key, v).Rep(g[n := g[n].(value := v)])
    ensures Revalue(t, key, v).Ids() == t.Ids() && Revalue(t, key, v).Distinct()
    ensures Revalue(t, key, v).Bh() == t.Bh() && Revalue(t, key, v).Ref() == t.Ref()
      && Revalue(t, key, v).Red() == t.Red()
    ensures RedBlack(t) ==> RedBlack(Revalue(t, key, v))
    ensures Lookup(t, key).node in t.Ids()
  {
    var n := Lookup(t, key).node;
    if t.value.key == key {
      var h := g[n := g[n].(value := v)];
      Frame(g, h, t.left);
      Frame(g, h, t.right);
    } else {
      var (near, far) := if t.value.key > key then (t.left, t.right) else (t.right, t.left);
      RevalueStored(g, near, key, v);
      Frame(g, g[n := g[n].(value := v)], far);
    }
  }

  lemma {:induction false} RevalueInorder(t: Tree, key: int, v: Value)
    requires Unique(t.Inorder()) && Lookup(t, key).Bin?
    ensures var s, k := t.Inorder(), LowerBound(t.Inorder(), key);
      && Has(s, key) && s[k] == Lookup(t, key).value && Revalue(t, key, v).Inorder() == s[k := v]
  {
    RevalueAt(t, key, v);
    LowerBoundAt(t.Inorder(), key, IndexOf(t, key));
  }

  ghost function IndexOf(t: Tree, key: int): nat {
    if t.Leaf? || t.value.key > key then if t.Leaf? then 0 else IndexOf(t.left, key)
    else |t.left.Inorder()| + if t.value.key == key then 0 else 1 + IndexOf(t.right, key)
  }

  lemma {:induction false} RevalueAt(t: Tree, key: int, v: Value)
    requires Lookup(t, key).Bin?
    ensures var s, i := t.Inorder(), IndexOf(t, key);
      i < |s| && s[i] == Lookup(t, key).value && s[i].key == key && Revalue(t, key, v).Inorder() == s[i := v]
  {
    if t.value.key > key {
      RevalueAt(t.left, key, v);
    } else if t.value.key < key {
      RevalueAt(t.right, key, v);
    }
  }

  // --- painting the root black ---

  lemma BlackenStored(t: Tree, m: Mem)
    requires Stored(t, m) && RedBlack(t) && t.Bin?
    ensures t.node in m && Stored(Blacken(t), Painted(m, t.node, false))
    ensures RedBlack(Blacken(t)) && !Blacken(t).Red() && Blacken(t).Inorder() == t.Inorder()
      && Blacken(t).Ref() == t.Ref()
  {
    var h := Painted(m, t.node, false);
    assert t.node in t.Ids();
    Frame(m, h, t.left);
    Frame(m, h, t.right);
  }

  method BlackenRoot(root: Node?, ghost t: Tree, ghost m: Mem) returns (ghost u: Tree, ghost h: Mem)
    requires Agree(m) && Stored(t, m) && RedBlack(t) && root == t.Ref()
    modifies m.Keys
    ensures Agree(h) && Stored(u, h) && RedBlack(u) && !u.Red() && u.Inorder() == t.Inorder() && u.Ref() == root
    ensures h.Keys == m.Keys
  {
    u, h := t, m;
    if root != null {
      BlackenStored(t, m);
      hide Agree, Stored, RedBlack;
      h := StoreRed(root, false, m);
      u := Blacken(t);
    }
  }

  // cl_rbtree_insert
  method Insert(root: Node?, n: Node, ghost shape: Tree, ghost mem: Mem)
    returns (newRoot: Node, ghost newShape: Tree, ghost newMem: Mem, ghost rounds: nat)
    requires Agree(mem) && Stored(shape, mem) && root == shape.Ref() && RedBlack(shape) && !shape.Red()
    requires Sorted(shape.Inorder())
    requires n !in mem && n.red && n.left == null && n.right == null
    modifies mem.Keys, n
    ensures Agree(newMem) && Stored(newShape, newMem) && newRoot == newShape.Ref() && RedBlack(newShape)
      && !newShape.Red()
    ensures newMem.Keys == mem.Keys + {n}
    ensures newShape.Inorder() == Add(shape.Inorder(), old(n.value))
    ensures rounds <= 2 * Height(shape) + 1
  {
    var r: Node?;
    if root == null {
      r, rounds := n, 0;
      newShape, newMem := Bin(n, true, Leaf, n.value, Leaf), map[n := Cell(true, null, null, n.value)];
      OneNode(n, n.value);
    } else {
      hide Agree, Stored, RedBlack, Sorted, Height;
      r, newShape, newMem, rounds := Insert2(root, n, shape, mem);
    }
    NonEmpty(newShape, n);
    newShape, newMem := BlackenRoot(r, newShape, newMem);
    newRoot := r;
  }

  // cl_rbnode_init and cl_rbtree_insert on a new slot
  method Plant(slot: int, value: Value, root: Node?, ghost shape: Tree, ghost mem: Mem)
    returns (newRoot: Node, ghost newShape: Tree, ghost newMem: Mem, ghost n: Node, ghost rounds: nat)
    requires Agree(mem) && Stored(shape, mem) && root == shape.Ref() && RedBlack(shape) && !shape.Red()
    requires Sorted(shape.Inorder())
    modifies mem.Keys
    ensures Agree(newMem) && Stored(newShape, newMem) && newRoot == newShape.Ref() && RedBlack(newShape)
      && !newShape.Red()
    ensures fresh(n) && n.addr == slot && newMem.Keys == mem.Keys + {n}
    ensures newShape.Inorder() == Add(shape.Inorder(), value)
    ensures rounds <= 2 * Height(shape) + 1
  {
    hide Agree, Stored, RedBlack, Sorted, Add, Height;
    var m := new Node(slot, value);
    n := m;
    newRoot, newShape, newMem, rounds := Insert(root, m, shape, mem);
  }

  lemma OneNode(n: Node, v: Value)
    ensures Stored(Bin(n, true, Leaf, v, Leaf), map[n := Cell(true, null, null, v)])
    ensures RedBlack(Bin(n, true, Leaf, v, Leaf))
  {
  }

  lemma NonEmpty(t: Tree, n: Node)
    requires n in t.Ids()
    ensures t.Bin?
  {
  }

  ghost function First(t: Tree): Value
    requires t.Bin?
  {
    if t.left.Leaf? then t.value else First(t.left)
  }

  lemma {:induction false} FirstAt(t: Tree)
    ensures t.Leaf? <==> t.Inorder() == []
    ensures t.Bin? ==> t.Inorder()[0] == First(t)
  {
    if t.Bin? { FirstAt(t.left); }
  }

  // what the tree keeps, apart from what its objects hold
  ghost predicate Sound(shape: Tree, mem: Mem, dup: Dup, live: set<int>, nItems: int) {
    && Stored(shape, mem) && RedBlack(shape) && !shape.Red()
    && Sorted(shape.Inorder()) && (dup != Allow ==> Unique(shape.Inorder()))
    && nItems == |shape.Inorder()| && Housed(mem.Keys, live)
  }

  lemma SoundAdd(shape: Tree, mem: Mem, dup: Dup, live: set<int>, nItems: int, n: Node, v: Value, shape2: Tree,
      mem2: Mem)
    requires Sound(shape, mem, dup, live, nItems) && n.addr !in live && (dup == Allow || !Has(shape.Inorder(), v.key))
    requires Stored(shape2, mem2) && RedBlack(shape2) && !shape2.Red() && mem2.Keys == mem.Keys + {n}
    requires shape2.Inorder() == Add(shape.Inorder(), v)
    ensures Sound(shape2, mem2, dup, live + {n.addr}, nItems + 1)
  {
    AddSorted(shape.Inorder(), v);
    HousedAdd(mem.Keys, live, n);
  }

  lemma SoundRemove(shape: Tree, mem: Mem, dup: Dup, live: set<int>, nItems: int, key: int, gone: set<Node>,
      shape2: Tree, mem2: Mem)
    requires Sound(shape, mem, dup, live, nItems) && gone <= mem.Keys
    requires Stored(shape2, mem2) && RedBlack(shape2) && !shape2.Red() && mem2.Keys == mem.Keys - gone
    requires shape2.Inorder() == Remove(shape.Inorder(), key)
    ensures Sound(shape2, mem2, dup, live - Addrs(gone), nItems - if Has(shape.Inorder(), key) then 1 else 0)
  {
    RemoveSorted(shape.Inorder(), key);
    HousedMinus(mem.Keys, live, gone);
  }

  lemma SoundReplace(shape: Tree, mem: Mem, dup: Dup, live: set<int>, nItems: int, v: Value)
    requires Sound(shape, mem, dup, live, nItems) && dup != Allow && Lookup(shape, v.key).Bin?
    ensures var n, k := Lookup(shape, v.key).node, LowerBound(shape.Inorder(), v.key);
      && n in mem && var u := Revalue(shape, v.key, v);
      && Sound(u, mem[n := mem[n].(value := v)], dup, live, nItems) && u.Ref() == shape.Ref()
      && Has(shape.Inorder(), v.key) && u.Inorder() == shape.Inorder()[k := v]
  {
    var s, n := shape.Inorder(), Lookup(shape, v.key).node;
    RevalueStored(mem, shape, v.key, v);
    RevalueInorder(shape, v.key, v);
    ReplaceSorted(s, v);
    assert mem[n := mem[n].(value := v)].Keys == mem.Keys;
  }

  lemma SoundLookup(shape: Tree, mem: Mem, dup: Dup, live: set<int>, nItems: int, key: int)
    requires Sound(shape, mem, dup, live, nItems)
    ensures var x, s := Lookup(shape, key), shape.Inorder();
      && (x.Bin? <==> Has(s, key))
      && (x.Bin? ==> x.value in s && x.value.key == key && x.node in mem && mem[x.node].value == x.value)
      && (x.Bin? && dup != Allow ==> x.value == s[LowerBound(s, key)])
  {
    LookupFinds(shape, key);
    HasKey(shape.Inorder(), key);
    LookupRep(mem, shape, key);
    if Lookup(shape, key).Bin? && dup != Allow { RevalueInorder(shape, key, Value(key, 0)); }
  }

  lemma {:induction false} LookupRep(g: Mem, t: Tree, key: int)
    requires t.Rep(g)
    ensures Lookup(t, key).Rep(g)
  {
    if t.Bin? {
      LookupRep(g, t.left, key);
      LookupRep(g, t.right, key);
    }
  }

  lemma SoundParts(shape: Tree, mem: Mem, dup: Dup, live: set<int>, nItems: int)
    requires Sound(shape, mem, dup, live, nItems)
    ensures Stored(shape, mem) && RedBlack(shape) && !shape.Red() && Sorted(shape.Inorder()) && shape.Rep(mem)
    ensures forall n <- mem.Keys :: n.addr in live
    ensures nItems == |live| == |shape.Inorder()| && (shape.Leaf? <==> nItems == 0)
    ensures mem.Keys == shape.Ids() && live == Addrs(mem.Keys)
  {
    NodeCount(shape);
    HousedCount(mem.Keys, live);
  }

  class RbTree {
    const dup: Dup
    const pool: Pool
    var root: Node?
    var nItems: int
    ghost var shape: Tree
    ghost var mem: Mem

    ghost predicate Valid()
      reads this, pool, mem.Keys
    {
      && Agree(mem) && root == shape.Ref() && pool.Valid() && pool.nBytes == NODE_SIZE
      && Sound(shape, mem, dup, pool.live, nItems)
    }

    ghost function Contents(): seq<Value>
      reads this
    {
      shape.Inorder()
    }

    // cl_rbtree_init
    constructor (dup: Dup)
      ensures Valid() && fresh(pool) && this.dup == dup && Contents() == [] && mem == map[] && pool.blocks == []
    {
      this.dup := dup;
      pool := new Pool(NODE_SIZE);
      root, nItems, shape, mem := null, 0, Leaf, map[];
    }

    // cl_rbtree_count
    method Count() returns (n: int)
      requires Valid()
      ensures n == |Contents()| == |pool.live|
    {
      SoundParts(shape, mem, dup, pool.live, nItems);
      n := nItems;
    }

    // cl_rbtree_lookup
    method LookupNode(key: int) returns (n: Node?, ghost rounds: nat)
      requires Valid()
      ensures n == Lookup(shape, key).Ref()
      ensures rounds <= Height(shape) && Within(rounds, nItems)
    {
      hide Sound;
      SoundParts(shape, mem, dup, pool.live, nItems);
      n, rounds := root, 0;
      ghost var x := shape;
      if n != null {
        TreeHead(mem, x);
        while n.value.key != key
          invariant n != null && n == x.Ref() && x.Rep(mem) && n in mem && mem[n].value == x.value
          invariant Lookup(x, key) == Lookup(shape, key)
          invariant rounds + Height(x) <= Height(shape)
          decreases Height(x)
        {
          TreeHead(mem, x);
          rounds := rounds + 1;
          if n.value.key > key {
            n, x := n.left, x.left;
          } else {
            n, x := n.right, x.right;
          }
          if n == null { break; }
          TreeHead(mem, x);
        }
      }
      RoundsWithin(shape, rounds);
    }

    // what Valid says of the parts
    lemma Parts()
      requires Valid()
      ensures Agree(mem) && root == shape.Ref() && pool.Valid() && Sound(shape, mem, dup, pool.live, nItems)
      ensures Stored(shape, mem) && RedBlack(shape) && !shape.Red() && Sorted(Contents())
        && Contents() == shape.Inorder()
      ensures forall n <- mem.Keys :: n.addr in pool.live
      ensures pool.nBytes == NODE_SIZE && nItems == |Contents()|
    {
      SoundParts(shape, mem, dup, pool.live, nItems);
    }

    // The height is at most 2 * log2(n_items + 1).
    lemma HeightByCount()
      requires Valid()
      ensures Pow2(Height(shape)) <= Square(nItems + 1)
    {
      Parts();
      HeightBound(shape);
    }

    // The pool is out of slots exactly if the nodes fill all its blocks.
    lemma FullWhen()
      requires Valid()
      ensures |Contents()| <= |pool.blocks| * SlotsPerBlock(NODE_SIZE)
      ensures pool.head == 0 <==> |Contents()| == |pool.blocks| * SlotsPerBlock(NODE_SIZE)
    {
      SoundParts(shape, mem, dup, pool.live, nItems);
      FullPool(pool);
    }

    // the tree takes over a new shape
    method Commit(newRoot: Node?, count: int, ghost newShape: Tree, ghost newMem: Mem)
      requires Agree(newMem) && newRoot == newShape.Ref() && pool.Valid() && pool.nBytes == NODE_SIZE
      requires Sound(newShape, newMem, dup, pool.live, count)
      modifies this
      ensures Valid() && mem == newMem && Contents() == newShape.Inorder() && nItems == count && shape == newShape
    {
      hide Sound, Chain, Apart, AllSlots, SlotSize;
      root, nItems, shape, mem := newRoot, count, newShape, newMem;
    }

    // cl_rbtree_add_dup_allow; base is what malloc returns if the pool needs a block
    method AddDupAllow(value: Value, base: int) returns (r: Option<Value>, ghost rounds: nat)
      requires Valid() && (pool.head == 0 ==> Malloced(base, pool.blocks))
      requires dup == Allow || !Has(Contents(), value.key)
      modifies this, pool, mem.Keys
      ensures Valid() && fresh(mem.Keys - old(mem.Keys))
      ensures r == None <==> old(pool.head) == 0 && base == 0
      ensures r == None ==> Contents() == old(Contents())
      ensures r != None ==> r == Some(value) && Contents() == Add(old(Contents()), value) && nItems == old(nItems) + 1
      ensures pool.blocks == if old(pool.head) == 0 && base != 0 then [base] + old(pool.blocks) else old(pool.blocks)
      ensures rounds <= 2 * Height(old(shape)) + 1 && TwiceWithin(rounds, old(nItems))
    {
      hide Valid, Agree, Sound, Pool.Valid, Stored, RedBlack, Sorted, Has, Add, Malloced, Height, TwiceWithin;
      Parts();
      r, rounds := None, 0;
      var count := nItems;
      ghost var live, shape0, mem0 := pool.live, shape, mem;
      RoundsTwiceWithin(shape0, rounds);
      var slot := pool.Alloc(base);
      if slot == 0 {
        Commit(root, count, shape, mem);
      } else {
        var newRoot;
        ghost var shape2, mem2, n;
        newRoot, shape2, mem2, n, rounds := Plant(slot, value, root, shape, mem);
        RoundsTwiceWithin(shape0, rounds);
        SoundAdd(shape0, mem0, dup, live, count, n, value, shape2, mem2);
        Commit(newRoot, count + 1, shape2, mem2);
        r := Some(value);
      }
    }

    // cl_rbtree_add in the mode chosen at cl_rbtree_init
    method AddValue(value: Value, base: int) returns (r: Option<Value>)
      requires Valid() && (pool.head == 0 ==> Malloced(base, pool.blocks))
      modifies this, pool, mem.Keys
      ensures Valid() && fresh(mem.Keys - old(mem.Keys))
      ensures r == None <==> Grows(dup, old(Contents()), value) && old(pool.head) == 0 && base == 0
      ensures r == None ==> Contents() == old(Contents())
      ensures r != None ==>
        && Contents() == Added(dup, old(Contents()), value).0
        && r == Some(Added(dup, old(Contents()), value).1)
      ensures pool.blocks == if Grows(dup, old(Contents()), value) && old(pool.head) == 0 && base != 0
                             then [base] + old(pool.blocks) else old(pool.blocks)
    {
      if dup == Allow {
        ghost var rounds;
        r, rounds := AddDupAllow(value, base);
      } else {
        SoundLookup(shape, mem, dup, pool.live, nItems, value.key);
        ghost var rounds;
        var n;
        n, rounds := LookupNode(value.key);
        if n == null {
          r, rounds := AddDupAllow(value, base);
        } else {
          AgreeAt(mem, n);
          r := Some(n.value);
          if dup == Replace { ReplaceValue(n, value); }
        }
      }
    }

    // the store of cl_rbtree_add_dup_replace
    method ReplaceValue(n: Node, value: Value)
      requires Valid() && dup == Replace && Lookup(shape, value.key).Ref() == n
      modifies this, n
      ensures Valid() && mem.Keys == old(mem.Keys)
      ensures Has(old(Contents()), value.key)
      ensures Contents() == old(Contents())[LowerBound(old(Contents()), value.key) := value]
    {
      hide Valid, Agree, Sound, Pool.Valid, Stored, RedBlack, Sorted, Has, LowerBound, Revalue, Lookup;
      Parts();
      SoundReplace(shape, mem, dup, pool.live, nItems, value);
      ghost var m := StoreValue(n, value, mem);
      Commit(root, nItems, Revalue(shape, value.key, value), m);
    }

    // cl_rbtree_get
    method Get(key: int) returns (r: Option<Value>)
      requires Valid()
      ensures r == None <==> !Has(Contents(), key)
      ensures r != None ==> r.value in Contents() && r.value.key == key
      ensures r != None && dup != Allow ==> r.value == Contents()[LowerBound(Contents(), key)]
    {
      SoundLookup(shape, mem, dup, pool.live, nItems, key);
      var n, rounds := LookupNode(key);
      if n == null {
        r := None;
      } else {
        AgreeAt(mem, n);
        r := Some(n.value);
      }
    }

    // cl_rbtree_peek
    method Peek() returns (r: Option<Value>, ghost rounds: nat)
      requires Valid()
      ensures r == if Contents() == [] then None else Some(Contents()[0])
      ensures rounds <= Height(shape) && Within(rounds, nItems)
    {
      hide Valid, Agree, Sound, Pool.Valid, Stored, RedBlack, Sorted, Tree.Inorder;
      Parts();
      FirstAt(shape);
      var n := root;
      r, rounds := None, 0;
      RoundsWithin(shape, rounds);
      if n == null { return; }
      ghost var x := shape;
      TreeHead(mem, x);
      AgreeAt(mem, n);
      while n.left != null
        invariant n != null && n == x.Ref() && x.Rep(mem) && n in mem && mem[n].value == x.value
        invariant n.left == x.left.Ref() && n.value == x.value
        invariant First(x) == First(shape)
        invariant rounds + Height(x) <= Height(shape)
        decreases Height(x)
      {
        TreeHead(mem, x);
        TreeHead(mem, x.left);
        rounds := rounds + 1;
        n, x := n.left, x.left;
        AgreeAt(mem, n);
      }
      RoundsWithin(shape, rounds);
      r := Some(n.value);
    }

    // cl_rbtree_remove
    method RemoveValue(key: int) returns (r: Option<Value>, ghost rounds: nat)
      requires Valid()
      modifies this, pool, mem.Keys
      ensures Valid() && mem.Keys <= old(mem.Keys)
      ensures Contents() == Remove(old(Contents()), key)
      ensures r == if Has(old(Contents()), key) then Some(old(Contents())[LowerBound(old(Contents()), key)]) else None
      ensures nItems == old(nItems) - (if r == None then 0 else 1) && pool.blocks == old(pool.blocks)
      ensures rounds <= Height(old(shape)) && Within(rounds, old(nItems))
    {
      hide Valid, Agree, Sound, Pool.Valid, Stored, RedBlack, Sorted, Has, Remove, Height, LowerBound, Within;
      Parts();
      r, rounds := None, 0;
      ghost var shape0 := shape;
      if root == null {
        RemoveEmpty(key);
        assert Contents() == [];
      } else {
        var count := nItems;
        ghost var live, mem0 := pool.live, mem;
        var newRoot;
        ghost var gone, shape2, mem2;
        r, gone, newRoot, shape2, mem2, rounds := RemoveAndBlacken(root, key, pool, shape, mem);
        SoundRemove(shape0, mem0, dup, live, count, key, gone, shape2, mem2);
        Commit(newRoot, if r != None then count - 1 else count, shape2, mem2);
      }
      RoundsWithin(shape0, rounds);
    }

    // cl_rbtree_for_each: the values in the order in which the callback sees them
    method ForEach() returns (called: seq<Value>)
      requires Valid()
      ensures called == Contents()
    {
      Parts();
      called := Iterate(root, shape, mem);
    }

    // cl_rbtree_clear
    method Clear() returns (called: seq<Value>)
      requires Valid()
      modifies this, pool
      ensures Valid() && Contents() == [] && nItems == 0 && mem == map[] && pool.blocks == [] && pool.live == {}
      ensures called == old(Contents())
    {
      Parts();
      SoundParts(shape, mem, dup, pool.live, nItems);
      hide Valid, Agree, Sound, Pool.Valid, Stored, RedBlack, Sorted;
      called := ClearNode(root, pool, shape, mem);
      var freed := pool.Destroy();
      NothingStored(dup);
      Commit(null, 0, Leaf, map[]);
    }
  }

  lemma NothingStored(dup: Dup)
    ensures Agree(map[]) && Sound(Leaf, map[], dup, {}, 0)
  {
  }

  // cl_rbtree_iterate
  method Iterate(n: Node?, ghost t: Tree, ghost m: Mem) returns (called: seq<Value>)
    requires Agree(m) && t.Rep(m) && n == t.Ref()
    ensures called == t.Inorder()
    decreases t
  {
    called := [];
    if n != null {
      TreeHead(m, t);
      AgreeAt(m, n);
      hide Agree;
      called := Iterate(n.left, t.left, m);
      called := called + [n.value];
      var rest := Iterate(n.right, t.right, m);
      called := called + rest;
    }
  }

  // cl_rbtree_clear_node: callbacks in order, every node back to the pool after its subtrees
  method ClearNode(n: Node?, pool: Pool, ghost t: Tree, ghost m: Mem) returns (called: seq<Value>)
    requires Agree(m) && t.Rep(m) && n == t.Ref() && t.Distinct()
    requires pool.Valid() && Addrs(t.Ids()) <= pool.live
    requires OwnSlots(t.Ids())
    modifies pool
    ensures called == t.Inorder()
    ensures pool.Valid() && pool.live == old(pool.live) - Addrs(t.Ids())
    decreases t
  {
    hide Pool.Valid, Addrs, OwnSlots, Tree.Ids, Tree.Distinct, Tree.Rep, Tree.Inorder, Agree;
    called := [];
    if n == null {
      LeafParts(t);
    } else {
      TreeHead(m, t);
      AgreeAt(m, n);
      AddrsSplit(t);
      InorderParts(t);
      MinusThree(pool.live, n.addr, Addrs(t.left.Ids()), Addrs(t.right.Ids()));
      called := ClearNode(n.left, pool, t.left, m);
      called := called + [n.value];
      var rest := ClearNode(n.right, pool, t.right, m);
      called := called + rest;
      pool.Release(n.addr);
    }
  }

  lemma LeafParts(t: Tree)
    requires t.Leaf?
    ensures t.Inorder() == [] && Addrs(t.Ids()) == {}
  {
  }

  lemma InorderParts(t: Tree)
    requires t.Bin?
    ensures t.Inorder() == t.left.Inorder() + [t.value] + t.right.Inorder()
  {
  }

  lemma MinusThree(live: set<int>, x: int, a: set<int>, b: set<int>)
    requires {x} + a + b <= live && a !! b && x !in a && x !in b
    ensures a <= live && b <= live - a && x in live - a - b
    ensures live - a - b - {x} == live - ({x} + a + b)
  {
  }

  // distinct addresses make the parts of a tree occupy distinct slots
  lemma AddrsSplit(t: Tree)
    requires t.Bin? && t.Distinct() && OwnSlots(t.Ids())
    ensures OwnSlots(t.left.Ids()) && OwnSlots(t.right.Ids()) && t.left.Distinct() && t.right.Distinct()
    ensures Addrs(t.Ids()) == {t.node.addr} + Addrs(t.left.Ids()) + Addrs(t.right.Ids())
    ensures Addrs(t.left.Ids()) !! Addrs(t.right.Ids())
    ensures t.node.addr !in Addrs(t.left.Ids()) && t.node.addr !in Addrs(t.right.Ids())
  {
  }

  // cl_rbtree_remove2 with its last step, painting the root
  method RemoveAndBlacken(root: Node, key: int, pool: Pool, ghost shape: Tree, ghost mem: Mem)
    returns (v: Option<Value>, ghost gone: set<Node>, newRoot: Node?, ghost newShape: Tree, ghost newMem: Mem,
      ghost rounds: nat)
    requires Agree(mem) && Stored(shape, mem) && root == shape.Ref() && RedBlack(shape)
    requires Sorted(shape.Inorder())
    requires pool.Valid() && forall n <- mem.Keys :: n.addr in pool.live
    modifies mem.Keys, pool
    ensures Agree(newMem) && Stored(newShape, newMem) && newRoot == newShape.Ref() && RedBlack(newShape)
      && !newShape.Red()
    ensures newShape.Inorder() == Remove(shape.Inorder(), key)
    ensures newMem.Keys == mem.Keys - gone && gone <= mem.Keys
    ensures if Has(shape.Inorder(), key) then v == Some(shape.Inorder()[LowerBound(shape.Inorder(), key)])
      && |gone| == 1
            else v == None && gone == {}
    ensures pool.Valid() && pool.live == old(pool.live) - Addrs(gone) && pool.blocks == old(pool.blocks)
    ensures rounds <= Height(shape)
  {
    hide Agree, Stored, RedBlack, Sorted, Has, Remove, Height, Pool.Valid, LowerBound;
    v, gone, newRoot, newShape, newMem, rounds := Remove2(root, key, pool, shape, mem);
    newShape, newMem := BlackenRoot(newRoot, newShape, newMem);
  }

  lemma RemoveEmpty(key: int)
    ensures Remove([], key) == [] && !Has([], key)
  {
  }
}
