/** The zipper seen as a search: where the focus stands in the whole sequence,
    and what every step of a descent keeps. */
module RbScan {
  import opened SortedList
  import opened RbShape
  import opened RbRotate

  // balance and colour of the whole tree, seen from the focus
  ghost predicate Good(p: Path, t: Tree) {
    p.Bal(t.Bh()) && t.Bal() && p.NoRR(t.Red()) && t.NoRR()
  }

  // position of the focus root in the whole sequence
  ghost function Idx(p: Path, t: Tree): nat
    requires t.Bin?
  {
    |p.Before()| + |t.left.Inorder()|
  }

  // gap k of the whole sequence lies inside the focus
  ghost predicate Gap(p: Path, t: Tree, k: int) {
    |p.Before()| <= k <= |p.Before()| + |t.Inorder()|
  }

  ghost function Toward(p: Path, t: Tree, k: int): Dir
    requires t.Bin?
  {
    if k <= Idx(p, t) then Left else Right
  }

  lemma CompareToward(p: Path, t: Tree, key: int, k: int)
    requires t.Bin? && Splits(Whole(p, t), key, k)
    ensures t.value.key < key <==> Toward(p, t, k) == Right
  {
    assert Whole(p, t)[Idx(p, t)] == t.value;
  }

  lemma StepDown(g: Mem, p: Path, t: Tree, d: Dir)
    requires t.Bin? && Zip(g, p, t)
    ensures Zip(g, Push(p, t, d), t.Link(d))
    ensures Push(p, t, d).Ids() + t.Link(d).Ids() == p.Ids() + t.Ids()
    ensures Whole(Push(p, t, d), t.Link(d)) == Whole(p, t)
    ensures t.node in g && g[t.node].Link(d) == t.Link(d).Ref() && g[t.node].value == t.value
  {
    Descend(g, p, t, d);
    AscendInorder(Push(p, t, d), t.Link(d));
    assert MkAt(Push(p, t, d), t.Link(d)) == t;
  }

  lemma StepGood(p: Path, t: Tree, d: Dir)
    requires t.Bin? && Good(p, t)
    ensures Good(Push(p, t, d), t.Link(d))
  {
    assert t.left.NoRR() && t.right.NoRR();
    assert t.left.Bal() && t.right.Bal();
  }

  lemma StepGap(p: Path, t: Tree, k: int)
    requires t.Bin? && Gap(p, t, k)
    ensures Gap(Push(p, t, Toward(p, t, k)), t.Link(Toward(p, t, k)), k)
  {
  }

  lemma {:induction false} FillGood(p: Path, t: Tree)
    requires Good(p, t)
    ensures Fill(p, t).Bal() && Fill(p, t).NoRR()
  {
    if p.Down? {
      FillGood(p.up, MkAt(p, t));
    }
  }

  // a red-black tree laid out in memory with exactly its own nodes
  ghost predicate Stored(t: Tree, m: Mem) {
    t.Rep(m) && t.Distinct() && m.Keys == t.Ids()
  }

  ghost predicate RedBlack(t: Tree) {
    t.Bal() && t.NoRR()
  }

  // a stage of a descent: the memory and the zipper
  datatype Scan = Scan(m: Mem, path: Path, x: Tree)

  // what stays fixed during a descent: the nodes, the fake root, the values in
  // order, and the gap of the value sequence that is searched for
  datatype Quest = Quest(keys: set<Node>, froot: Node, vals: seq<Value>, k: nat)

  ghost predicate Core(st: Scan, keys: set<Node>, froot: Node, s: seq<Value>) {
    && Zip(st.m, st.path, st.x) && st.m.Keys == st.path.Ids() + st.x.Ids() && st.m.Keys == keys
    && Whole(st.path, st.x) == s && Root(st.path) == froot
  }

  ghost predicate Inv(st: Scan, u: Quest) {
    Core(st, u.keys, u.froot, u.vals) && Good(st.path, st.x) && Gap(st.path, st.x, u.k)
  }

  lemma Descended(st: Scan, u: Quest, key: int) returns (nt: Scan)
    requires Inv(st, u) && st.x.Bin? && Splits(u.vals, key, u.k)
    ensures var d := Toward(st.path, st.x, u.k);
      && nt == Scan(st.m, Push(st.path, st.x, d), st.x.Link(d))
      && Inv(nt, u)
      && st.x.node in st.m && st.m[st.x.node].Link(d) == nt.x.Ref() && st.m[st.x.node].value == st.x.value
      && (st.x.value.key < key <==> d == Right)
  {
    var d := Toward(st.path, st.x, u.k);
    nt := Scan(st.m, Push(st.path, st.x, d), st.x.Link(d));
    StepDown(st.m, st.path, st.x, d);
    StepGood(st.path, st.x, d);
    StepGap(st.path, st.x, u.k);
    CompareToward(st.path, st.x, key, u.k);
  }

  lemma Close(st: Scan, keys: set<Node>, froot: Node, s: seq<Value>) returns (t: Tree, m: Mem)
    requires Core(st, keys, froot, s) && Good(st.path, st.x)
    ensures m == st.m - {froot} && froot in st.m && t.Ref() == st.m[froot].right
    ensures Stored(t, m) && RedBlack(t) && t.Inorder() == s && m.Keys == keys - {froot}
  {
    FillZip(st.m, st.path, st.x);
    FillGood(st.path, st.x);
    t := Fill(st.path, st.x);
    m := st.m - {froot};
    Frame(st.m, m, t);
  }

  // a fake root whose right link holds the tree (src/rbtree.c:108-116 and 268-276)
  method FakeRoot(root: Node, v: Value, ghost shape: Tree, ghost mem: Mem)
    returns (froot: Node, ghost st: Scan, ghost u: Quest)
    requires Agree(mem) && Stored(shape, mem) && root == shape.Ref() && RedBlack(shape)
    requires Sorted(shape.Inorder())
    ensures fresh(froot) && Agree(st.m) && st.m.Keys == u.keys && froot !in mem
    ensures u == Quest(mem.Keys + {froot}, froot, shape.Inorder(), LowerBound(shape.Inorder(), v.key))
    ensures Inv(st, u) && st.path == Top(froot) && st.x == shape && Splits(u.vals, v.key, u.k)
  {
    froot := new Node(0, v);
    froot.red := false;
    froot.right := root;
    st := Scan(mem[froot := Cell(false, null, root, v)], Top(froot), shape);
    u := Quest(mem.Keys + {froot}, froot, shape.Inorder(), LowerBound(shape.Inorder(), v.key));
    Frame(mem, st.m, shape);
  }

  ghost function Blacken(t: Tree): Tree {
    if t.Leaf? then t else t.(red := false)
  }

  ghost function Painted(g: Mem, n: Node, red: bool): Mem
    requires n in g
  {
    g[n := g[n].(red := red)]
  }
}
