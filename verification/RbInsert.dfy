/** Top-down insertion (src/rbtree.c). */
module RbInsert {
  import opened SortedList
  import opened RbShape
  import opened RbRotate
  import opened RbScan
  import opened RbHeight

  // as Good, but the focus may be red below a red parent
  ghost predicate GoodButFocus(p: Path, t: Tree) {
    p.Bal(t.Bh()) && t.Bal() && p.NoRR(false) && t.NoRR()
  }

  ghost predicate Calm(t: Tree) {
    t.Bin? && !(t.left.Red() && t.right.Red())
  }

  // the colour flip of src/rbtree.c:124-130
  ghost function Flip(t: Tree): Tree
    requires t.Bin?
  {
    Bin(t.node, true, Blacken(t.left), t.value, Blacken(t.right))
  }

  method FlipColors(q: Node, ghost g: Mem, ghost p: Path, ghost t: Tree) returns (ghost h: Mem)
    requires Agree(g) && Zip(g, p, t) && q == t.Ref() && t.Bin? && t.left.Red() && t.right.Red()
    modifies g.Keys
    ensures Agree(h) && h.Keys == g.Keys && Zip(h, p, Flip(t)) && Flip(t).Ids() == t.Ids()
  {
    hide Agree, Zip, Flip, Tree.Ids, Tree.Rep, Path.Rep;
    FlipZip(g, p, t);
    AgreeAt(g, q);
    h := StoreRed(q, true, g);
    AgreeAt(h, q);
    h := StoreRed(q.left, false, h);
    AgreeAt(h, q);
    h := StoreRed(q.right, false, h);
  }

  ghost function FlipMem(g: Mem, t: Tree): Mem
    requires t.Bin? && t.left.Bin? && t.right.Bin?
    requires t.node in g && t.left.node in g && t.right.node in g
  {
    var g1 := g[t.node := g[t.node].(red := true)];
    var g2 := g1[t.left.node := g1[t.left.node].(red := false)];
    g2[t.right.node := g2[t.right.node].(red := false)]
  }

  lemma FlipZip(g: Mem, p: Path, t: Tree)
    requires Zip(g, p, t) && t.Bin? && t.left.Red() && t.right.Red()
    ensures t.node in g && g[t.node].left == t.left.node && g[t.node].right == t.right.node
    ensures t.left.node in g && t.right.node in g && t.node != t.left.node && t.node != t.right.node
    ensures Zip(FlipMem(g, t), p, Flip(t)) && Flip(t).Ids() == t.Ids()
  {
    var l, r := t.left, t.right;
    assert l.Rep(g) && r.Rep(g);
    assert l.Distinct() && r.Distinct();
    assert l.node in l.Ids() && r.node in r.Ids();
    assert t.node in t.Ids() && l.node in t.Ids() && r.node in t.Ids();
    var h := FlipMem(g, t);
    PathFrame(g, h, p, t.Ref());
    BlackenRep(g, h, l);
    BlackenRep(g, h, r);
    assert Blacken(l).Ids() == l.Ids() && Blacken(r).Ids() == r.Ids();
    assert Blacken(l).Distinct() && Blacken(r).Distinct();
  }

  lemma BlackenRep(g: Mem, h: Mem, t: Tree)
    requires t.Rep(g) && t.Distinct() && t.Bin? && t.node in g && t.node in h && h[t.node] == g[t.node].(red := false)
    requires forall n <- t.Ids() :: n in g && n != t.node ==> n in h && h[n] == g[n]
    ensures Blacken(t).Rep(h)
  {
    Frame(g, h, t.left);
    Frame(g, h, t.right);
  }

  lemma FlipGood(p: Path, t: Tree)
    requires Good(p, t) && t.Bin? && t.left.Red() && t.right.Red()
    ensures GoodButFocus(p, Flip(t)) && Flip(t).Inorder() == t.Inorder()
    ensures Calm(Flip(t).left) && Calm(Flip(t).right)
    ensures !t.Red()
  {
    var l, r := t.left, t.right;
    assert l.NoRR() && l.Bal();
    assert r.NoRR() && r.Bal();
    var a, b := Blacken(l), Blacken(r);
    assert a.NoRR() && a.Bal() && a.Bh() == l.Bh() + 1;
    assert b.NoRR() && b.Bal() && b.Bh() == r.Bh() + 1;
    assert Flip(t).NoRR() && Flip(t).Bal();
  }

  // the violation that src/rbtree.c:132-138 repairs: red focus, red parent (and a black uncle)
  ghost predicate Violation(p: Path, t: Tree) {
    p.Down? && p.red && p.up.Down? && t.Red() && !p.up.other.Red()
  }

  // the subtree hanging below the great-grandparent
  ghost function AtGrand(p: Path, t: Tree): Tree
    requires p.Down? && p.up.Down?
  {
    MkAt(p.up, MkAt(p, t))
  }

  ghost predicate Outer(p: Path)
    requires p.Down? && p.up.Down?
  {
    p.dir == p.up.dir
  }

  ghost function FixedPath(p: Path, t: Tree): Path
    requires Violation(p, t)
  {
    var l := p.up.dir;
    if Outer(p) then Push(p.up.up, Single(AtGrand(p, t), l.Opp()), l) else p.up.up
  }

  ghost function FixedFocus(p: Path, t: Tree): Tree
    requires Violation(p, t)
  {
    if Outer(p) then t else Double(AtGrand(p, t), p.up.dir.Opp())
  }

  lemma FixGood(p: Path, t: Tree)
    requires Violation(p, t) && GoodButFocus(p, t)
    ensures Good(FixedPath(p, t), FixedFocus(p, t))
  {
    if Outer(p) {
      FixGoodOuter(p, t);
    } else {
      FixGoodInner(p, t);
    }
  }

  lemma FixGoodInner(p: Path, t: Tree)
    requires Violation(p, t) && GoodButFocus(p, t) && !Outer(p)
    ensures Good(FixedPath(p, t), FixedFocus(p, t))
  {
    var u, w := p.up, p.up.up;
    assert u.NoRR(true);
    assert u.Bal(t.Bh());
    assert w.NoRR(false) && w.Bal(t.Bh() + 1);
    var l := u.dir;
    var a, b := t.Link(l), t.Link(l.Opp());
    assert a.NoRR() && a.Bal() && b.NoRR() && b.Bal();
    var y := Mk(l, p.node, true, p.value, p.other, a);
    var z := Mk(l, u.node, true, u.value, b, u.other);
    assert y.NoRR() && y.Bal() && y.Bh() == t.Bh();
    assert z.NoRR() && z.Bal() && z.Bh() == t.Bh();
    assert FixedFocus(p, t) == Mk(l, t.node, false, t.value, y, z);
  }

  lemma FixGoodOuter(p: Path, t: Tree)
    requires Violation(p, t) && GoodButFocus(p, t) && Outer(p)
    ensures Good(FixedPath(p, t), FixedFocus(p, t))
  {
    var u, w := p.up, p.up.up;
    assert u.NoRR(true);
    assert u.Bal(t.Bh());
    assert w.NoRR(false) && w.Bal(t.Bh() + 1);
    var x := Mk(u.dir, u.node, true, u.value, p.other, u.other);
    assert x.NoRR() && x.Bal() && x.Bh() == t.Bh();
    assert FixedPath(p, t) == Down(p.node, false, p.dir, p.value, x, w);
  }

  lemma FixWhole(p: Path, t: Tree)
    requires Violation(p, t)
    ensures Whole(FixedPath(p, t), FixedFocus(p, t)) == Whole(p, t)
  {
    AscendInorder(p, t);
    AscendInorder(p.up, MkAt(p, t));
    var x := AtGrand(p, t);
    var l := p.up.dir;
    if Outer(p) {
      SingleInorder(x, l.Opp());
      var y := Single(x, l.Opp());
      AscendInorder(Push(p.up.up, y, l), t);
      assert MkAt(Push(p.up.up, y, l), t) == y;
    } else {
      DoubleInorder(x, l.Opp());
    }
  }

  lemma DoubleInorder(x: Tree, dir: Dir)
    requires x.Bin? && x.Link(dir.Opp()).Bin? && x.Link(dir.Opp()).Link(dir).Bin?
    ensures Double(x, dir).Inorder() == x.Inorder()
  {
    var c := x.Link(dir.Opp());
    SingleInorder(c, dir.Opp());
    SingleInorder(Mk(dir.Opp(), x.node, x.red, x.value, Single(c, dir.Opp()), x.Link(dir)), dir);
  }

  // what the trailing pointers see in memory just before the repair
  lemma FixSetup(m: Mem, path: Path, x: Tree)
    requires Zip(m, path, x) && Violation(path, x)
    ensures Zip(m, path.up.up, AtGrand(path, x))
    ensures path.up.up.Ref() in m && path.node in m
    ensures m[path.up.up.Ref()].right == path.up.node <==> path.up.up.D() == Right
    ensures m[path.node].Link(path.up.dir) == x.node <==> Outer(path)
    ensures AtGrand(path, x).Ids() == {path.up.node} + path.up.other.Ids() + {path.node} + path.other.Ids() + x.Ids()
  {
    var g, w := path.up, path.up.up;
    Ascend(m, path, x);
    Ascend(m, g, MkAt(path, x));
    assert w.Ref() in w.Ids() && path.node in path.Ids() && x.node in x.Ids();
    assert w.Rep(m, g.node);
    if w.Down? && w.dir == Left { OtherRef(m, w, g.node); }
  }

  lemma OtherRef(m: Mem, w: Path, n: Node)
    requires w.Down? && w.Rep(m, n) && n !in w.Ids()
    ensures w.node in m && m[w.node].Link(w.dir.Opp()) != n
  {
  }

  method FixRed(t: Node, g: Node, p: Node, q: Node, last: Dir, ghost m: Mem, ghost path: Path, ghost x: Tree)
    returns (ghost h: Mem)
    requires Agree(m) && Zip(m, path, x) && Violation(path, x)
    requires q == x.node && p == path.node && g == path.up.node && t == path.up.up.Ref() && last == path.up.dir
    modifies m.Keys
    ensures Agree(h) && h.Keys == m.Keys && Zip(h, FixedPath(path, x), FixedFocus(path, x))
    ensures FixedPath(path, x).Ids() + FixedFocus(path, x).Ids() == path.Ids() + x.Ids()
  {
    FixSetup(m, path, x);
    var d := if t.right == g then Right else Left;
    if q == p.Link(last) {
      h := RotateSingleAt(t, d, last.Opp(), m, path.up.up, AtGrand(path, x));
      Descend(h, path.up.up, Single(AtGrand(path, x), last.Opp()), last);
    } else {
      h := RotateDoubleAt(t, d, last.Opp(), m, path.up.up, AtGrand(path, x));
    }
    FixIds(path, x);
  }

  lemma FixIds(path: Path, x: Tree)
    requires Violation(path, x)
    ensures FixedPath(path, x).Ids() + FixedFocus(path, x).Ids() == path.Ids() + x.Ids()
  {
    var g, w := path.up, path.up.up;
    assert path.Ids() == {path.node} + path.other.Ids() + ({g.node} + g.other.Ids() + w.Ids());
  }

  // How far the trailing pointers can be trusted:
  // Exact    t, g are the great-grandparent and grandparent of the focus
  // Settled  after an outer repair t is stale, but the focus cannot turn red
  // Twisted  after an inner repair g and t are stale; the parent is black and
  //          the focus is red, with a child on the way that cannot turn red
  datatype Phase = Exact | Settled | Twisted

  ghost predicate Trail(ph: Phase, path: Path, x: Tree, t: Node, g: Node?, last: Dir, k: int) {
    match ph
    case Exact =>
      if path.Top? then g == null && t == path.froot && x.Bin? && !x.Red()
      else
        && !(x.Red() && path.other.Red())
        && if path.up.Top? then g == null && t == path.up.froot && (path.red ==> Calm(x))
           else g == path.up.node && last == path.up.dir && t == path.up.up.Ref()
                && (path.red && path.up.other.Red() ==> Calm(x))
    case Settled =>
      path.Down? && path.up.Down? && g == path.up.node && last == path.up.dir && path.red && Calm(x)
    case Twisted =>
      path.Down? && !path.red && x.Red() && g != null && Calm(x.Link(Toward(path, x, k)))
  }

  // src/rbtree.c:120-130: hang the new node, or flip the colours of a black node with two red children
  method Meet(q: Node?, p: Node?, dir: Dir, n: Node, ghost m: Mem, ghost path: Path, ghost x: Tree)
    returns (r: Node, ghost h: Mem, ghost y: Tree)
    requires Agree(m) && Zip(m, path, x) && x.Ref() == q && m.Keys == path.Ids() + x.Ids()
    requires x.Leaf? ==> path.Down?
    requires path.Down? ==> p == path.node && dir == path.dir
    requires n !in m && n.red && n.left == null && n.right == null
    requires Good(path, x)
    modifies m.Keys
    ensures Agree(h) && Zip(h, path, y) && h.Keys == path.Ids() + y.Ids() && r == y.Ref()
    ensures GoodButFocus(path, y)
    ensures if q == null then r == n && y == Bin(n, true, Leaf, n.value, Leaf) && h.Keys == m.Keys + {n}
            else
              && r == q && h.Keys == m.Keys && y.Inorder() == x.Inorder()
              && y == if x.left.Red() && x.right.Red() then Flip(x) else x
  {
    PathRepIds(m, path, x.Ref());
    if q == null {
      r := n;
      h := StoreLink(p, dir, n, m);
      y := Bin(n, true, Leaf, n.value, Leaf);
      h := h[n := Cell(n.red, n.left, n.right, n.value)];
      assert p in path.Ids();
      PathRelink(m, h, path, null, n);
    } else {
      r := q; y := x; h := m;
      assert x.left.Rep(m) && x.right.Rep(m) && q in m;
      var l, rr := q.left, q.right;
      assert l == x.left.Ref() && rr == x.right.Ref();
      if l != null && l.red && rr != null && rr.red {
        FlipGood(path, x);
        h := FlipColors(q, m, path, x);
        y := Flip(x);
      }
    }
  }

  // each round makes the part of the tree still to be searched smaller
  ghost function Measure(ph: Phase, path: Path, x: Tree, k: int): nat {
    if ph == Twisted && x.Bin? then 2 * Height(x.Link(Toward(path, x, k))) + 1 else 2 * Height(x)
  }

  ghost function NextMeasure(ph: Phase, path: Path, x: Tree, k: int): nat
    requires x.Bin?
  {
    var d := Toward(path, x, k);
    Measure(ph, Push(path, x, d), x.Link(d), k)
  }

  // what src/rbtree.c:120-130 makes of the focus x
  ghost predicate Met(x: Tree, y: Tree) {
    if x.Leaf? then y.Bin? && y.red
    else y == if x.left.Red() && x.right.Red() then Flip(x) else x
  }

  ghost function ParentOf(path: Path): Node? {
    if path.Top? then null else path.node
  }

  // a red violation is only ever met when the trailing pointers are exact
  lemma MetViolation(ph: Phase, path: Path, x: Tree, y: Tree, t: Node, g: Node?, last: Dir, k: int)
    requires Trail(ph, path, x, t, g, last, k) && Good(path, x) && Met(x, y)
    requires y.Red() && path.Down? && path.red
    ensures ph == Exact && Violation(path, y)
    ensures g == path.up.node && last == path.up.dir && t == path.up.up.Ref()
  {
  }

  // one step down makes the pointers one generation fresher
  ghost function NextPhase(ph: Phase): Phase {
    if ph == Twisted then Settled else Exact
  }

  ghost function FixedPhase(path: Path): Phase
    requires path.Down? && path.up.Down?
  {
    if Outer(path) then Settled else Twisted
  }

  // one step down without a repair
  lemma TrailStep(ph: Phase, path: Path, x: Tree, y: Tree, t: Node, g: Node?, last: Dir, dir: Dir, k: int)
    requires Trail(ph, path, x, t, g, last, k) && Good(path, x) && Met(x, y) && x.Bin?
    requires !(y.Red() && path.Down? && path.red) && (path.Down? ==> dir == path.dir)
    ensures var d := Toward(path, y, k);
            Trail(NextPhase(ph), Push(path, y, d), y.Link(d), if g != null then g else t, ParentOf(path), dir, k)
  {
    assert x.left.NoRR() && x.right.NoRR();
  }

  // one step down after a repair
  lemma TrailFixed(path: Path, x: Tree, k: int)
    requires x.Bin? && Violation(path, Flip(x)) && x.left.Red() && x.right.Red() && Good(path, x) && Gap(path, x, k)
    ensures var w, y := FixedPath(path, Flip(x)), FixedFocus(path, Flip(x));
            var d := Toward(w, y, k);
            y.Bin? && Trail(FixedPhase(path), Push(w, y, d), y.Link(d), path.up.node, path.node, path.dir, k)
    ensures NextMeasure(FixedPhase(path), FixedPath(path, Flip(x)), FixedFocus(path, Flip(x)), k) < 2 * Height(x)
  {
    hide Good, Gap, Trail, NextMeasure, FixedPath, FixedFocus, FixedPhase, Toward, Height, Flip;
    if Outer(path) { TrailOuter(path, x, k); } else { TrailInner(path, x, k); }
  }

  lemma TrailOuter(path: Path, x: Tree, k: int)
    requires x.Bin? && Violation(path, Flip(x)) && x.left.Red() && x.right.Red() && Good(path, x) && Outer(path)
    ensures var w, y := FixedPath(path, Flip(x)), FixedFocus(path, Flip(x));
            var d := Toward(w, y, k);
            y.Bin? && Trail(FixedPhase(path), Push(w, y, d), y.Link(d), path.up.node, path.node, path.dir, k)
    ensures NextMeasure(FixedPhase(path), FixedPath(path, Flip(x)), FixedFocus(path, Flip(x)), k) < 2 * Height(x)
  {
    hide Toward, Tree.Inorder, Good;
    FlipGood(path, x);
  }

  lemma TrailInner(path: Path, x: Tree, k: int)
    requires x.Bin? && Violation(path, Flip(x)) && x.left.Red() && x.right.Red() && Good(path, x) && Gap(path, x, k)
      && !Outer(path)
    ensures var w, y := FixedPath(path, Flip(x)), FixedFocus(path, Flip(x));
            var d := Toward(w, y, k);
            y.Bin? && Trail(FixedPhase(path), Push(w, y, d), y.Link(d), path.up.node, path.node, path.dir, k)
    ensures NextMeasure(FixedPhase(path), FixedPath(path, Flip(x)), FixedFocus(path, Flip(x)), k) < 2 * Height(x)
  {
    FlipGood(path, x);
    TwistToward(path, Flip(x), k);
    hide Good, Gap, Toward, Tree.Inorder;
  }

  // after an inner repair the search goes on into a former child of the focus
  lemma TwistToward(path: Path, f: Tree, k: int)
    requires Violation(path, f) && !Outer(path) && Gap(path, f, k)
    ensures var w, y := path.up.up, FixedFocus(path, f);
            y.Bin? && var d := Toward(w, y, k);
            y.Link(d).Bin? && y.Link(d).red && y.Link(d).Link(Toward(Push(w, y, d), y.Link(d), k)) == f.Link(d)
  {
    var w, g := path.up.up, path.up;
    var l := g.dir;
    var a := Mk(l, path.node, true, path.value, path.other, f.Link(l));
    var b := Mk(l, g.node, true, g.value, f.Link(l.Opp()), g.other);
    var y := Mk(l, f.node, false, f.value, a, b);
    assert y == FixedFocus(path, f);
    var d := Toward(w, y, k);
    if l == Left {
      assert |path.Before()| == |w.Before()| + |path.other.Inorder()| + 1;
      assert |a.Inorder()| == |path.other.Inorder()| + 1 + |f.left.Inorder()|;
    } else {
      assert |path.Before()| == |w.Before()| + |g.other.Inorder()| + 1;
      assert |b.Inorder()| == |g.other.Inorder()| + 1 + |f.left.Inorder()|;
    }
  }

  // hanging the new node puts its value where the sorted list wants it
  lemma MetLeaf(st: Scan, u: Quest, m: Mem, y: Tree, n: Node, v: Value)
    requires Inv(st, u) && u.k == LowerBound(u.vals, v.key) && st.x.Leaf?
    requires y == Bin(n, true, Leaf, v, Leaf) && Zip(m, st.path, y)
    requires m.Keys == st.path.Ids() + y.Ids() && m.Keys == u.keys + {n}
    ensures Core(Scan(m, st.path, y), u.keys + {n}, u.froot, Add(u.vals, v))
  {
    var a, b := st.path.Before(), st.path.After();
    assert u.vals == a + b;
    assert u.vals[..|a|] == a && u.vals[|a|..] == b;
  }

  lemma FixedCore(st: Scan, keys: set<Node>, froot: Node, s: seq<Value>, m: Mem)
    requires Core(st, keys, froot, s) && GoodButFocus(st.path, st.x) && Violation(st.path, st.x)
    requires m.Keys == keys && Zip(m, FixedPath(st.path, st.x), FixedFocus(st.path, st.x))
    ensures Core(Scan(m, FixedPath(st.path, st.x), FixedFocus(st.path, st.x)), keys, froot, s)
    ensures Good(FixedPath(st.path, st.x), FixedFocus(st.path, st.x))
    ensures forall k :: Gap(st.path, st.x, k) ==> Gap(FixedPath(st.path, st.x), FixedFocus(st.path, st.x), k)
  {
    FixIds(st.path, st.x);
    FixWhole(st.path, st.x);
    FixGood(st.path, st.x);
    FixGap(st.path, st.x);
    assert Root(st.path) == Root(st.path.up);
  }

  lemma FixGap(p: Path, t: Tree)
    requires Violation(p, t)
    ensures Outer(p) ==> FixedPath(p, t).Before() == p.Before()
    ensures !Outer(p) ==> |FixedPath(p, t).Before()| <= |p.Before()| && |FixedPath(p, t).After()| <= |p.After()|
  {
    var w, g := p.up.up, p.up;
    if Outer(p) {
      var l := g.dir;
      assert FixedPath(p, t) == Down(p.node, false, p.dir, p.value, Mk(l, g.node, true, g.value, p.other, g.other), w);
    }
  }

  lemma Repaired(st: Scan, x: Tree, u: Quest, m: Mem) returns (nt: Scan)
    requires Core(st, u.keys, u.froot, u.vals) && GoodButFocus(st.path, st.x) && Violation(st.path, st.x)
    requires m.Keys == u.keys && Zip(m, FixedPath(st.path, st.x), FixedFocus(st.path, st.x))
    requires x.Bin? ==> x.left.Red() && x.right.Red() && st.x == Flip(x) && Good(st.path, x) && Gap(st.path, x, u.k)
    ensures nt == Scan(m, FixedPath(st.path, st.x), FixedFocus(st.path, st.x)) && nt.x.Bin?
    ensures Core(nt, u.keys, u.froot, u.vals) && Good(nt.path, nt.x)
    ensures x.Bin? ==> Gap(nt.path, nt.x, u.k) && NextMeasure(FixedPhase(st.path), nt.path, nt.x, u.k) < 2 * Height(x)
    ensures x.Bin? ==> (var d := Toward(nt.path, nt.x, u.k);
      Trail(FixedPhase(st.path), Push(nt.path, nt.x, d), nt.x.Link(d), st.path.up.node, st.path.node, st.path.dir, u.k))
  {
    FixedCore(st, u.keys, u.froot, u.vals, m);
    nt := Scan(m, FixedPath(st.path, st.x), FixedFocus(st.path, st.x));
    if x.Bin? {
      FlipGood(st.path, x);
      TrailFixed(st.path, x, u.k);
    }
  }

  // the pointer variables of the loop
  datatype Fingers = Fingers(t: Node, g: Node?, p: Node?, q: Node?, dir: Dir, last: Dir)
  {
    // the trailing pointers after one move down
    ghost function MovedT(): Node { if g != null then g else t }
  }

  // the whole loop invariant: zipper and trailing pointers
  ghost predicate Scanning(st: Scan, ph: Phase, u: Quest, f: Fingers) {
    && Inv(st, u) && st.x.Ref() == f.q
    && f.p == ParentOf(st.path) && (st.path.Down? ==> f.dir == st.path.dir)
    && Trail(ph, st.path, st.x, f.t, f.g, f.last, u.k)
  }

  // the same one step further on, before the pointers have moved
  ghost predicate Ready(st: Scan, ph: Phase, u: Quest, t: Node, g: Node?, last: Dir) {
    && Inv(st, u) && st.x.Bin?
    && var d := Toward(st.path, st.x, u.k);
    Trail(ph, Push(st.path, st.x, d), st.x.Link(d), t, g, last, u.k)
  }

  lemma ScanningMeet(st: Scan, ph: Phase, u: Quest, f: Fingers)
    requires Scanning(st, ph, u, f)
    ensures Zip(st.m, st.path, st.x) && st.m.Keys == st.path.Ids() + st.x.Ids() && st.m.Keys == u.keys
    ensures Good(st.path, st.x) && st.x.Ref() == f.q && (st.x.Leaf? ==> st.path.Down?)
    ensures st.path.Down? ==> f.p == st.path.node && f.dir == st.path.dir
    ensures Inv(st, u) && f.p == ParentOf(st.path)
  {
  }

  lemma ScanningViolation(st: Scan, ph: Phase, u: Quest, f: Fingers, y: Tree)
    requires Scanning(st, ph, u, f)
    requires Met(st.x, y) && y.Bin? && y.red && st.path.Down? && st.path.red
    ensures ph == Exact && Violation(st.path, y)
    ensures f.g == st.path.up.node && f.p == st.path.node && f.last == st.path.up.dir && f.t == st.path.up.up.Ref()
  {
    MetViolation(ph, st.path, st.x, y, f.t, f.g, f.last, u.k);
  }

  // the quest once the new node hangs in the tree
  ghost function Settle(u: Quest, x: Tree, n: Node, v: Value): Quest {
    if x.Leaf? then u.(keys := u.keys + {n}, vals := Add(u.vals, v)) else u
  }

  // after the new node is hung or the colours are flipped
  lemma ScanningMet(st: Scan, u: Quest, p: Node?, n: Node, v: Value, m: Mem, y: Tree) returns (nt: Scan, w: Quest)
    requires Inv(st, u) && p == ParentOf(st.path) && u.k == LowerBound(u.vals, v.key)
    requires Zip(m, st.path, y) && m.Keys == st.path.Ids() + y.Ids() && GoodButFocus(st.path, y)
    requires if st.x.Leaf? then y == Bin(n, true, Leaf, v, Leaf) && m.Keys == u.keys + {n}
             else Met(st.x, y) && y.Inorder() == st.x.Inorder() && m.Keys == u.keys
    ensures nt == Scan(m, st.path, y) && Met(st.x, y) && GoodButFocus(st.path, y)
    ensures w == Settle(u, st.x, n, v) && Core(nt, w.keys, w.froot, w.vals) && m.Keys == w.keys
    ensures y.Bin? && y.node in m && m[y.node].red == y.red
    ensures p != null ==> st.path.Down? && p in m && m[p].red == st.path.red
  {
    nt := Scan(m, st.path, y);
    w := Settle(u, st.x, n, v);
    if st.x.Leaf? { MetLeaf(st, u, m, y, n, v); }
  }

  // what a visit achieves
  ghost predicate Visited(st: Scan, ph: Phase, u: Quest, f: Fingers, done: Scan, ph2: Phase, w: Quest) {
    && Core(done, w.keys, w.froot, w.vals) && Good(done.path, done.x) && done.x.Bin?
    && (f.q != null ==>
      && w == u && Ready(done, ph2, u, f.MovedT(), f.p, f.dir)
      && NextMeasure(ph2, done.path, done.x, u.k) < Measure(ph, st.path, st.x, u.k))
  }

  lemma MetHeight(x: Tree, y: Tree)
    requires x.Bin? && Met(x, y)
    ensures Height(y.left) == Height(x.left) && Height(y.right) == Height(x.right)
  {
  }

  // no violation: the visit ends here
  lemma Passed(st: Scan, ph: Phase, u: Quest, f: Fingers, n: Node, v: Value, nt: Scan)
    requires Scanning(st, ph, u, f) && nt.path == st.path
    requires var w := Settle(u, st.x, n, v); Core(nt, w.keys, w.froot, w.vals)
    requires GoodButFocus(st.path, nt.x) && Met(st.x, nt.x) && !(nt.x.Red() && st.path.Down? && st.path.red)
    requires st.x.Bin? ==> nt.x.Inorder() == st.x.Inorder()
    ensures Visited(st, ph, u, f, nt, NextPhase(ph), Settle(u, st.x, n, v))
  {
    if st.x.Bin? {
      MetHeight(st.x, nt.x);
      TrailStep(ph, st.path, st.x, nt.x, f.t, f.g, f.last, f.dir, u.k);
    }
  }

  // a violation, and the memory m in which it is repaired
  lemma Mended(st: Scan, ph: Phase, u: Quest, f: Fingers, n: Node, v: Value, nt: Scan, m: Mem) returns (done: Scan)
    requires Scanning(st, ph, u, f) && nt.path == st.path
    requires var w := Settle(u, st.x, n, v); Core(nt, w.keys, w.froot, w.vals) && m.Keys == w.keys
    requires GoodButFocus(st.path, nt.x) && Met(st.x, nt.x) && Violation(st.path, nt.x)
    requires Zip(m, FixedPath(st.path, nt.x), FixedFocus(st.path, nt.x))
    ensures done.m == m && done.x.Bin? && done.x.node == nt.x.node
    ensures Visited(st, ph, u, f, done, FixedPhase(st.path), Settle(u, st.x, n, v))
  {
    hide Zip, Core, GoodButFocus, Gap, Toward, Tree.Inorder;
    MetViolation(ph, st.path, st.x, nt.x, f.t, f.g, f.last, u.k);
    if st.x.Bin? {
      assert st.x.NoRR() && !st.x.Red();
    }
    done := Repaired(nt, st.x, Settle(u, st.x, n, v), m);
  }

  // src/rbtree.c:119-138: one visit, repairs included, before the pointers move down
  method Visit(f: Fingers, n: Node, ghost st: Scan, ghost ph: Phase, ghost u: Quest)
    returns (r: Node, ghost done: Scan, ghost ph2: Phase)
    requires Agree(st.m) && Scanning(st, ph, u, f) && st.m.Keys == u.keys && u.k == LowerBound(u.vals, n.value.key)
    requires n !in u.keys && n.red && n.left == null && n.right == null
    modifies st.m.Keys, n
    ensures Agree(done.m) && done.x.Bin? && done.x.node == r
    ensures Visited(st, ph, u, f, done, ph2, Settle(u, st.x, n, old(n.value)))
    ensures f.q == null ==> r == n && st.x.Leaf?
    ensures f.q != null ==> r in u.keys && done.m.Keys == u.keys && st.x.Bin?
    ensures f.q != null ==> n.red && n.left == null && n.right == null && n.value == old(n.value)
  {
    hide Zip, Good, Whole, Gap, Trail, Flip, FixedPath, FixedFocus, Measure, Toward, Add, LowerBound, Core, Inv;
    hide Scanning, Ready, Agree, Met, Violation, GoodButFocus, ParentOf, NextMeasure, Visited;
    ghost var m, y, w;
    ghost var v := n.value;
    ScanningMeet(st, ph, u, f);
    r, m, y := Meet(f.q, f.p, f.dir, n, st.m, st.path, st.x);
    done, w := ScanningMet(st, u, f.p, n, v, m, y);
    AgreeAt(m, r);
    if f.p != null { AgreeAt(m, f.p); }
    if r.red && f.p != null && f.p.red {
      ScanningViolation(st, ph, u, f, y);
      m := FixRed(f.t, f.g, f.p, r, f.last, m, st.path, y);
      done := Mended(st, ph, u, f, n, v, done, m);
      ph2 := FixedPhase(st.path);
    } else {
      Passed(st, ph, u, f, n, v, done);
      ph2 := NextPhase(ph);
    }
  }

  lemma Moved(st: Scan, ph: Phase, u: Quest, f: Fingers, done: Scan, ph2: Phase, key: int)
    returns (nt: Scan, g: Fingers)
    requires Visited(st, ph, u, f, done, ph2, u) && f.q != null && done.x.Bin?
    requires Splits(u.vals, key, u.k)
    ensures nt.m == done.m && done.x.node in done.m
    ensures var c := done.m[done.x.node];
      && (c.value.key < key <==> g.dir == Right)
      && g == Fingers(f.MovedT(), f.p, done.x.node, if g.dir == Left then c.left else c.right, g.dir, f.dir)
    ensures Scanning(nt, ph2, u, g)
    ensures Measure(ph2, nt.path, nt.x, u.k) < Measure(ph, st.path, st.x, u.k)
  {
    var d := Toward(done.path, done.x, u.k);
    nt := Descended(done, u, key);
    g := Fingers(f.MovedT(), f.p, done.x.node, done.m[done.x.node].Link(d), d, f.dir);
  }

  // src/rbtree.c:118-150: the descent
  method SearchAndLink(froot: Node, root: Node?, n: Node, ghost start: Scan, ghost u: Quest)
    returns (ghost st: Scan, ghost rounds: nat)
    requires Agree(start.m) && start.m.Keys == u.keys && n !in u.keys && n.red && n.left == null && n.right == null
    requires Scanning(start, Exact, u, Fingers(froot, null, null, root, Left, Left))
    requires u.k == LowerBound(u.vals, n.value.key) && Splits(u.vals, n.value.key, u.k)
    modifies u.keys, n
    ensures Agree(st.m) && Core(st, u.keys + {n}, u.froot, Add(u.vals, old(n.value))) && Good(st.path, st.x)
    ensures rounds <= 2 * Height(start.x) + 1
  {
    assert Measure(Exact, start.path, start.x, u.k) == 2 * Height(start.x);
    hide Agree, Scanning, Ready, Inv, Core, Good, Zip, Measure, NextMeasure, Add, LowerBound, Splits, Height;
    rounds := 0;
    var t: Node, g: Node?, p: Node?, q: Node? := froot, null, null, root;
    var dir, last := Left, Left;
    ghost var v := n.value;
    ghost var ph := Exact;
    st := start;
    while true
      invariant Agree(st.m) && Scanning(st, ph, u, Fingers(t, g, p, q, dir, last))
      invariant st.m.Keys == u.keys && rounds + Measure(ph, st.path, st.x, u.k) <= 2 * Height(start.x)
      invariant n.red && n.left == null && n.right == null && n.value == v
      decreases Measure(ph, st.path, st.x, u.k)
    {
      var f := Fingers(t, g, p, q, dir, last);
      ghost var done, ph2, f2;
      rounds := rounds + 1;
      q, done, ph2 := Visit(f, n, st, ph, u);
      if q == n {
        st := done;
        break;
      }
      st, f2 := Moved(st, ph, u, f, done, ph2, v.key);
      ph := ph2;
      AgreeAt(st.m, q);
      last := dir;
      dir := if q.value.key < n.value.key then Right else Left;
      if g != null { t := g; }
      g := p;
      p := q;
      q := q.Link(dir);
    }
  }

  method Insert2(root: Node, n: Node, ghost shape: Tree, ghost mem: Mem)
    returns (newRoot: Node?, ghost newShape: Tree, ghost newMem: Mem, ghost rounds: nat)
    requires Agree(mem) && Stored(shape, mem) && root == shape.Ref() && RedBlack(shape) && !shape.Red()
    requires Sorted(shape.Inorder())
    requires n !in mem && n.red && n.left == null && n.right == null
    modifies mem.Keys, n
    ensures Agree(newMem) && Stored(newShape, newMem) && newRoot == newShape.Ref() && RedBlack(newShape)
    ensures newMem.Keys == mem.Keys + {n}
    ensures newShape.Inorder() == Add(shape.Inorder(), old(n.value))
    ensures rounds <= 2 * Height(shape) + 1
  {
    hide Agree, Core, Good, Stored, Zip, Add, LowerBound, Sorted, Splits;
    var froot;
    ghost var st, u;
    ghost var v := n.value;
    froot, st, u := FakeRoot(root, n.value, shape, mem);
    st, rounds := SearchAndLink(froot, root, n, st, u);
    newShape, newMem := Close(st, u.keys + {n}, froot, Add(shape.Inorder(), v));
    AgreeAt(st.m, froot);
    AgreeMinus(st.m, froot);
    newRoot := froot.right;
  }
}
