/** Top-down removal (src/rbtree.c). */
module RbRemove {
  import opened SortedList
  import opened RbShape
  import opened RbRotate
  import opened RbScan
  import opened RbHeight
  import opened SlotPool

  // The loop keeps the current node or the next one red, so that the node that
  // is finally unlinked can be red. At the root, which may stay black, the
  // sibling of the next node is black instead.
  ghost predicate Primed(p: Path, t: Tree) {
    || p.Top? || p.red || t.Red()
    || (p.up.Top? && !p.other.Red())
  }

  // the node holding the first value after the focus
  ghost function Follower(p: Path): Node? {
    if p.Top? then null else if p.dir == Left then p.node else Follower(p.up)
  }

  // --- pushing a red down into the focus ---

  // case 1: the child not taken is red
  lemma PushRotate(p: Path, t: Tree, d: Dir)
    requires Good(p, t) && t.Bin? && !t.red && !t.Link(d).Red() && t.Link(d.Opp()).Red()
    ensures var y := Single(t, d);
      Good(Push(p, y, d), y.Link(d)) && y.Link(d).Red() && y.Link(d).node == t.node && y.Link(d).Link(d) == t.Link(d)
  {
    var m := t.Link(d.Opp());
    assert m.NoRR() && m.Bal();
    assert t.Link(d).NoRR() && t.Link(d).Bal();
    var a, b := m.Link(d), m.Link(d.Opp());
    assert a.NoRR() && a.Bal() && b.NoRR() && b.Bal();
    var q := Mk(d, t.node, true, t.value, t.Link(d), a);
    assert q.NoRR() && q.Bal();
  }

  // case 2: fix_remove, sibling with two black children
  ghost predicate CanFix(p: Path, t: Tree) {
    && p.Down? && t.Bin? && !t.red && !t.left.Red() && !t.right.Red()
    && Good(p, t) && Primed(p, t)
  }

  // the sibling is there and black
  lemma Sibling(p: Path, t: Tree)
    requires CanFix(p, t)
    ensures p.other.Bin? && !p.other.red
  {
    assert t.Bh() >= 1;
  }

  ghost function Redden(t: Tree): Tree
    requires t.Bin?
  {
    t.(red := true)
  }

  ghost function FlipPath(p: Path): Path
    requires p.Down? && p.other.Bin?
  {
    Down(p.node, false, p.dir, p.value, Redden(p.other), p.up)
  }

  lemma FlipFixGood(p: Path, t: Tree)
    requires CanFix(p, t) && p.other.Bin? && !p.other.left.Red() && !p.other.right.Red()
    ensures Good(FlipPath(p), Redden(t)) && Redden(t).Inorder() == t.Inorder()
  {
    Sibling(p, t);
    var s := p.other;
    assert s.NoRR() && s.Bal();
    assert Redden(s).NoRR() && Redden(s).Bal();
    assert p.up.NoRR(p.red) && p.up.Bal(t.Bh() + if p.red then 0 else 1);
    assert p.red || p.up.Top?;
  }

  // the sibling has a red child: rotate, then recolour
  ghost function Turned(p: Path, t: Tree): Tree
    requires p.Down? && p.other.Bin? && (p.other.Link(p.dir).Red() || p.other.Link(p.dir.Opp()).Red())
  {
    var x := MkAt(p, t);
    if p.other.Link(p.dir).Red() then Double(x, p.dir) else Single(x, p.dir)
  }

  // the colours set by src/rbtree.c:259-262
  ghost function Recolor(y: Tree, d: Dir): Tree
    requires y.Bin? && y.Link(d).Bin? && y.Link(d.Opp()).Bin? && y.Link(d).Link(d).Bin?
  {
    var a, b := y.Link(d), y.Link(d.Opp());
    Mk(d, y.node, true, y.value, Mk(d, a.node, false, a.value, Redden(a.Link(d)), a.Link(d.Opp())), b.(red := false))
  }

  ghost predicate CanRecolor(y: Tree, d: Dir) {
    y.Bin? && y.Link(d).Bin? && y.Link(d.Opp()).Bin? && y.Link(d).Link(d).Bin?
  }

  ghost predicate CanTurn(p: Path, t: Tree) {
    CanFix(p, t) && p.other.Bin? && (p.other.Link(p.dir).Red() || p.other.Link(p.dir.Opp()).Red())
  }

  // where the focus hangs after the turn: below its old parent, now black,
  // below the new top of the subtree, now red
  ghost function TurnedPath(p: Path, t: Tree): Path
    requires CanTurn(p, t)
  {
    var d, s := p.dir, p.other;
    var a, b := s.Link(d), s.Link(d.Opp());
    if a.Red() then
      Down(p.node, false, d, p.value, a.Link(d),
           Down(a.node, true, d, a.value, Mk(d, s.node, false, s.value, a.Link(d.Opp()), b), p.up))
    else
      Down(p.node, false, d, p.value, a, Down(s.node, true, d, s.value, b.(red := false), p.up))
  }

  lemma TurnShape(p: Path, t: Tree)
    requires CanTurn(p, t)
    ensures var y := Turned(p, t);
      && y.Bin? && y.Link(p.dir).Bin? && y.Link(p.dir.Opp()).Bin? && y.Link(p.dir).Link(p.dir) == t
      && y.Link(p.dir).node == p.node && CanRecolor(y, p.dir)
      && var z := Recolor(y, p.dir);
      && z.Link(p.dir).Link(p.dir) == Redden(t)
      && Push(Push(p.up, z, p.dir), z.Link(p.dir), p.dir) == TurnedPath(p, t)
  {
  }

  lemma TurnGood(p: Path, t: Tree)
    requires CanTurn(p, t)
    ensures Good(TurnedPath(p, t), Redden(t))
  {
    Sibling(p, t);
    var d, s, h := p.dir, p.other, t.Bh();
    assert s.NoRR() && s.Bal() && s.Bh() == h;
    assert p.up.NoRR(true) && p.up.Bal(h) by {
      assert p.up.NoRR(p.red) && p.up.Bal(h + if p.red then 0 else 1);
      assert p.red || p.up.Top?;
    }
    var a, b := s.Link(d), s.Link(d.Opp());
    assert a.NoRR() && a.Bal() && b.NoRR() && b.Bal();
    if a.Red() {
      TurnInner(a, b, d, s.node, s.value, h);
    }
    var q := TurnedPath(p, t);
    assert q.up.other.NoRR() && q.up.other.Bal() && q.up.other.Bh() == h;
    assert q.other.NoRR() && q.other.Bal() && q.other.Bh() == h - 1;
    assert q.up.Bal(h) && q.up.NoRR(false);
  }

  lemma TurnInner(a: Tree, b: Tree, d: Dir, n: Node, v: Value, h: nat)
    requires a.Red() && a.NoRR() && a.Bal() && b.NoRR() && b.Bal() && a.Bh() == b.Bh() && a.Bh() + 1 == h
    ensures var u := Mk(d, n, false, v, a.Link(d.Opp()), b); u.NoRR() && u.Bal() && u.Bh() == h
    ensures a.Link(d).NoRR() && a.Link(d).Bal() && a.Link(d).Bh() == h - 1 && !a.Link(d).Red()
  {
    assert a.left.NoRR() && a.left.Bal() && a.right.NoRR() && a.right.Bal();
  }

  // --- the same steps in memory ---

  lemma PaintZip(g: Mem, p: Path, t: Tree, red: bool)
    requires Zip(g, p, t) && t.Bin?
    ensures t.node in g && Zip(Painted(g, t.node, red), p, t.(red := red)) && t.(red := red).Ids() == t.Ids()
  {
    var h := Painted(g, t.node, red);
    assert t.node in t.Ids();
    Frame(g, h, t.left);
    Frame(g, h, t.right);
    PathFrame(g, h, p, t.node);
  }

  // painting the root of one child of the focus
  lemma PaintChild(g: Mem, p: Path, t: Tree, d: Dir, red: bool) returns (u: Tree)
    requires Zip(g, p, t) && t.Bin? && t.Link(d).Bin?
    ensures u == Mk(d, t.node, t.red, t.value, t.Link(d).(red := red), t.Link(d.Opp()))
    ensures t.node in g && g[t.node].Link(d) == t.Link(d).node && t.Link(d).node in g
    ensures Zip(Painted(g, t.Link(d).node, red), p, u) && u.Ids() == t.Ids()
  {
    var c := t.Link(d);
    u := Mk(d, t.node, t.red, t.value, c.(red := red), t.Link(d.Opp()));
    Descend(g, p, t, d);
    PaintZip(g, Push(p, t, d), c, red);
    Ascend(Painted(g, c.node, red), Push(p, t, d), c.(red := red));
    assert c.(red := red).Ids() == c.Ids();
  }

  ghost function FlipFixMem(g: Mem, p: Path, t: Tree): Mem
    requires p.Down? && p.other.Bin? && t.Bin? && {p.node, p.other.node, t.node} <= g.Keys
  {
    Painted(Painted(Painted(g, p.node, false), p.other.node, true), t.node, true)
  }

  lemma FlipFixZip(g: Mem, p: Path, t: Tree)
    requires Zip(g, p, t) && p.Down? && p.other.Bin? && t.Bin?
    ensures {p.node, p.other.node, t.node} <= g.Keys
    ensures g[p.node].Link(p.dir.Opp()) == p.other.node
    ensures Zip(FlipFixMem(g, p, t), FlipPath(p), Redden(t))
  {
    var u, d := MkAt(p, t), p.dir;
    Ascend(g, p, t);
    PaintZip(g, p.up, u, false);
    var g1 := Painted(g, p.node, false);
    var u1 := u.(red := false);
    var u2 := PaintChild(g1, p.up, u1, d.Opp(), true);
    var g2 := Painted(g1, p.other.node, true);
    var u3 := PaintChild(g2, p.up, u2, d, true);
    Descend(FlipFixMem(g, p, t), p.up, u3, d);
    assert Push(p.up, u3, d) == FlipPath(p) && u3.Link(d) == Redden(t);
  }

  lemma FlipFixIds(p: Path, t: Tree)
    requires p.Down? && p.other.Bin? && t.Bin?
    ensures FlipPath(p).Ids() == p.Ids() && Redden(t).Ids() == t.Ids()
    ensures FlipPath(p).Before() == p.Before() && FlipPath(p).After() == p.After()
    ensures Redden(t).Inorder() == t.Inorder()
  {
    assert Redden(p.other).Ids() == p.other.Ids() && Redden(p.other).Inorder() == p.other.Inorder();
  }

  // q, the top, and the two children of the top
  ghost function RecolorMem(g: Mem, y: Tree, d: Dir): Mem
    requires CanRecolor(y, d) && {y.node, y.left.node, y.right.node, y.Link(d).Link(d).node} <= g.Keys
  {
    Painted(Painted(Painted(Painted(g, y.Link(d).Link(d).node, true), y.node, true), y.left.node, false), y.right.node,
      false)
  }

  // painting a grandchild of the focus
  lemma PaintGrandchild(g: Mem, up: Path, y: Tree, d: Dir) returns (z: Tree)
    requires Zip(g, up, y) && CanRecolor(y, d)
    ensures var a := y.Link(d); var c := a.Link(d);
      && y.node in g && c.node in g && g[y.node].left == y.left.node && g[y.node].right == y.right.node
      && z == Mk(d, y.node, y.red, y.value, Mk(d, a.node, a.red, a.value, c.(red := true), a.Link(d.Opp())),
        y.Link(d.Opp()))
      && Zip(Painted(g, c.node, true), up, z) && z.Ids() == y.Ids()
  {
    var a := y.Link(d);
    var c := a.Link(d);
    TreeHead(g, y);
    Descend(g, up, y, d);
    hide Zip, Tree.Rep, Tree.Distinct, Path.Rep, Path.Distinct;
    var b := PaintChild(g, Push(up, y, d), a, d, true);
    Ascend(Painted(g, c.node, true), Push(up, y, d), b);
    z := MkAt(Push(up, y, d), b);
    assert y.Ids() == {y.node} + a.Ids() + y.Link(d.Opp()).Ids();
  }

  lemma RecolorZip(g: Mem, up: Path, y: Tree, d: Dir)
    requires Zip(g, up, y) && CanRecolor(y, d)
    ensures {y.node, y.left.node, y.right.node, y.Link(d).Link(d).node} <= g.Keys
    ensures g[y.node].left == y.left.node && g[y.node].right == y.right.node
    ensures Zip(RecolorMem(g, y, d), up, Recolor(y, d)) && Recolor(y, d).Ids() == y.Ids()
  {
    hide Zip, Tree.Ids;
    var c := y.Link(d).Link(d);
    var y1 := PaintGrandchild(g, up, y, d);
    var g1 := Painted(g, c.node, true);
    PaintZip(g1, up, y1, true);
    var g2 := Painted(g1, y.node, true);
    var y3 := PaintChild(g2, up, y1.(red := true), Left, false);
    var g3 := Painted(g2, y.left.node, false);
    var y4 := PaintChild(g3, up, y3, Right, false);
    assert y4 == Recolor(y, d);
  }

  // --- one step of the descent ---

  // The focus (p, t) has been made ready, as (p2, t2), for a move to its child d.
  ghost predicate Prepared(p: Path, t: Tree, d: Dir, p2: Path, t2: Tree) {
    && t.Bin? && t2.Bin? && t2.node == t.node && t2.value == t.value && t2.Link(d) == t.Link(d)
    && Good(p2, t2) && Primed(Push(p2, t2, d), t2.Link(d))
    && Whole(p2, t2) == Whole(p, t) && Root(p2) == Root(p) && p2.Ids() + t2.Ids() == p.Ids() + t.Ids()
    && Idx(p2, t2) == Idx(p, t)
    && (d == Left ==> |p2.Before()| <= |p.Before()|)
    && (d == Right ==> |p2.After()| <= |p.After()| && Follower(p2) == Follower(p))
  }

  lemma PrepareNone(p: Path, t: Tree, d: Dir)
    requires t.Bin? && Good(p, t)
    requires t.red || t.Link(d).Red() || (p.Top? && !t.Link(d.Opp()).Red())
    ensures Prepared(p, t, d, p, t)
  {
  }

  lemma PrepareRotate(p: Path, t: Tree, d: Dir)
    requires Good(p, t) && t.Bin? && !t.red && !t.Link(d).Red() && t.Link(d.Opp()).Red()
    ensures var y := Single(t, d); Prepared(p, t, d, Push(p, y, d), y.Link(d))
  {
    var y := Single(t, d);
    PushRotate(p, t, d);
    SingleInorder(t, d);
    AscendInorder(Push(p, y, d), y.Link(d));
    assert MkAt(Push(p, y, d), y.Link(d)) == y;
    assert Root(Push(p, y, d)) == Root(p);
  }

  lemma PrepareFlip(p: Path, t: Tree, d: Dir)
    requires CanFix(p, t) && p.other.Bin? && !p.other.left.Red() && !p.other.right.Red()
    ensures Prepared(p, t, d, FlipPath(p), Redden(t))
  {
    FlipFixGood(p, t);
    FlipFixIds(p, t);
  }

  lemma PrepareTurn(p: Path, t: Tree, d: Dir)
    requires CanTurn(p, t)
    ensures Prepared(p, t, d, TurnedPath(p, t), Redden(t))
  {
    TurnGood(p, t);
    TurnWhole(p, t);
    var q := TurnedPath(p, t);
    assert Root(q) == Root(q.up) == Root(p.up) == Root(p);
  }

  lemma TurnWhole(p: Path, t: Tree)
    requires CanTurn(p, t)
    ensures TurnedPath(p, t).Before() == p.Before() && TurnedPath(p, t).After() == p.After()
    ensures TurnedPath(p, t).Ids() == p.Ids() && Follower(TurnedPath(p, t)) == Follower(p)
    ensures Redden(t).Ids() == t.Ids() && Redden(t).Inorder() == t.Inorder()
  {
    hide Path.Before, Path.After, Path.Ids;
    if p.other.Link(p.dir).Red() {
      if p.dir == Left { TurnInnerLeft(p, t); } else { TurnInnerRight(p, t); }
    } else {
      TurnOuter(p, t);
    }
  }

  lemma TurnOuter(p: Path, t: Tree)
    requires CanTurn(p, t) && !p.other.Link(p.dir).Red()
    ensures TurnedPath(p, t).Before() == p.Before() && TurnedPath(p, t).After() == p.After()
    ensures TurnedPath(p, t).Ids() == p.Ids()
  {
    var s := p.other;
    var b := s.Link(p.dir.Opp());
    assert b.(red := false).Ids() == b.Ids() && b.(red := false).Inorder() == b.Inorder();
    if p.dir == Left {
      RegroupAfter(p.value, s.left.Inorder(), s.value, b.Inorder(), s.Inorder(), p.up.After());
    } else {
      assert s.Inorder() == b.Inorder() + [s.value] + s.right.Inorder();
    }
  }

  lemma Regroup<T>(a: seq<T>, x: T, b: seq<T>, y: T, c: seq<T>)
    ensures (a + [x] + b) + [y] + c == a + [x] + (b + [y] + c)
  {
  }

  lemma RegroupAfter<T>(v: T, a: seq<T>, x: T, n: seq<T>, s: seq<T>, after: seq<T>)
    requires s == a + [x] + n
    ensures [v] + a + ([x] + n + after) == [v] + s + after
  {
  }

  lemma TurnInnerLeft(p: Path, t: Tree)
    requires CanTurn(p, t) && p.other.left.Red() && p.dir == Left
    ensures TurnedPath(p, t).Before() == p.Before() && TurnedPath(p, t).After() == p.After()
    ensures TurnedPath(p, t).Ids() == p.Ids()
  {
    var s := p.other;
    var a := s.left;
    var n := Bin(s.node, false, a.right, s.value, s.right);
    Regroup(a.left.Inorder(), a.value, a.right.Inorder(), s.value, s.right.Inorder());
    assert s.Inorder() == a.left.Inorder() + [a.value] + n.Inorder();
    RegroupAfter(p.value, a.left.Inorder(), a.value, n.Inorder(), s.Inorder(), p.up.After());
    assert s.Ids() == a.left.Ids() + {a.node} + n.Ids();
  }

  lemma TurnInnerRight(p: Path, t: Tree)
    requires CanTurn(p, t) && p.other.right.Red() && p.dir == Right
    ensures TurnedPath(p, t).Before() == p.Before() && TurnedPath(p, t).After() == p.After()
    ensures TurnedPath(p, t).Ids() == p.Ids()
  {
    var s := p.other;
    var a := s.right;
    var n := Bin(s.node, false, s.left, s.value, a.left);
    Regroup(s.left.Inorder(), s.value, a.left.Inorder(), a.value, a.right.Inorder());
    assert s.Inorder() == n.Inorder() + [a.value] + a.right.Inorder();
    assert s.Ids() == n.Ids() + {a.node} + a.right.Ids();
  }

  method Paint(n: Node, red: bool, ghost m: Mem) returns (ghost h: Mem)
    requires Agree(m) && n in m
    modifies n
    ensures Agree(h) && h.Keys == m.Keys && h == Painted(m, n, red)
  {
    hide Agree;
    h := StoreRed(n, red, m);
  }

  // src/rbtree.c:250-252
  method Paint3(p: Node, s: Node, q: Node, ghost m: Mem) returns (ghost h: Mem)
    requires Agree(m) && p in m && s in m && q in m
    modifies p, s, q
    ensures Agree(h) && h.Keys == m.Keys && h == Painted(Painted(Painted(m, p, false), s, true), q, true)
  {
    hide Agree, Painted;
    h := Paint(p, false, m);
    h := Paint(s, true, h);
    h := Paint(q, true, h);
  }

  // src/rbtree.c:259-262
  method Paint4(q: Node, top: Node, l: Node, r: Node, ghost m: Mem) returns (ghost h: Mem)
    requires Agree(m) && q in m && top in m && l in m && r in m
    modifies q, top, l, r
    ensures Agree(h) && h.Keys == m.Keys
    ensures h == Painted(Painted(Painted(Painted(m, q, true), top, true), l, false), r, false)
  {
    hide Agree, Painted;
    h := Paint(q, true, m);
    h := Paint(top, true, h);
    h := Paint(l, false, h);
    h := Paint(r, false, h);
  }

  // cl_rbnode_fix_remove (src/rbtree.c:242-265)
  method FixRemove(q: Node, p: Node, g: Node?, last: Dir, ghost m: Mem, ghost path: Path, ghost t: Tree, ghost d: Dir)
    returns (ghost h: Mem, ghost path2: Path, ghost t2: Tree)
    requires Agree(m) && Zip(m, path, t) && t.Bin? && q == t.node
    requires p == path.Ref() && last == path.D() && (path.Down? ==> g == path.up.Ref())
    requires Good(path, t) && Primed(path, t) && !t.red && !t.left.Red() && !t.right.Red()
    modifies m.Keys
    ensures Agree(h) && h.Keys == m.Keys && Zip(h, path2, t2) && Prepared(path, t, d, path2, t2) && path2.Ref() == p
  {
    PathHead(m, path, q);
    hide Agree, Good, Prepared, Primed, Zip;
    AgreeAt(m, p);
    var s := p.Link(last.Opp());
    if s != null {
      SiblingFacts(m, path, t);
      var l := LinkIsRed(s, Left, m, path.other);
      var r := LinkIsRed(s, Right, m, path.other);
      if !l && !r {
        FlipFixZip(m, path, t);
        PrepareFlip(path, t, d);
        h := Paint3(p, s, q, m);
        path2, t2 := FlipPath(path), Redden(t);
      } else {
        h := Turn(q, p, g, last, m, path, t);
        PrepareTurn(path, t, d);
        path2, t2 := TurnedPath(path, t), Redden(t);
      }
    } else {
      path2, t2, h := path, t, m;
      NoSibling(m, path, t, d);
    }
  }

  lemma SiblingFacts(m: Mem, path: Path, t: Tree)
    requires Zip(m, path, t) && t.Bin? && path.Ref() in m && m[path.Ref()].Link(path.D().Opp()) != null
    requires Good(path, t) && Primed(path, t) && !t.red && !t.left.Red() && !t.right.Red()
    ensures CanFix(path, t) && path.other.Bin? && path.other.node == m[path.node].Link(path.dir.Opp())
    ensures ChildrenSeen(m, path.other)
  {
    PathHead(m, path, t.node);
    See(m, path.other);
  }

  // the root of t and the colours of its children, as read from memory
  ghost predicate ChildrenSeen(m: Mem, t: Tree)
    requires t.Bin?
  {
    && t.node in m && m[t.node].left == t.left.Ref() && m[t.node].right == t.right.Ref()
    && (t.left.Bin? ==> t.left.node in m && m[t.left.node].red == t.left.red)
    && (t.right.Bin? ==> t.right.node in m && m[t.right.node].red == t.right.red)
  }

  lemma See(m: Mem, t: Tree)
    requires t.Rep(m) && t.Bin?
    ensures ChildrenSeen(m, t)
  {
    TreeHead(m, t);
    if t.left.Bin? { TreeHead(m, t.left); }
    if t.right.Bin? { TreeHead(m, t.right); }
  }

  // reads link d of the node n, when that link holds a red node
  method LinkIsRed(n: Node, d: Dir, ghost m: Mem, ghost t: Tree) returns (r: bool)
    requires Agree(m) && t.Bin? && t.node == n && ChildrenSeen(m, t)
    ensures r == t.Link(d).Red()
  {
    AgreeAt(m, n);
    var c := n.Link(d);
    r := c != null && c.red;
  }

  lemma NoSibling(m: Mem, path: Path, t: Tree, d: Dir)
    requires Zip(m, path, t) && t.Bin? && path.Ref() in m && m[path.Ref()].Link(path.D().Opp()) == null
    requires Good(path, t) && Primed(path, t) && !t.red && !t.left.Red() && !t.right.Red()
    ensures Prepared(path, t, d, path, t)
  {
    if path.Down? { Sibling(path, t); }
    PrepareNone(path, t, d);
  }

  // src/rbtree.c:253-263: the sibling has a red child
  method Turn(q: Node, p: Node, g: Node?, last: Dir, ghost m: Mem, ghost path: Path, ghost t: Tree)
    returns (ghost h: Mem)
    requires Agree(m) && Zip(m, path, t) && CanTurn(path, t) && q == t.node
    requires p == path.node && last == path.dir && g == path.up.Ref()
    modifies m.Keys
    ensures Agree(h) && h.Keys == m.Keys && Zip(h, TurnedPath(path, t), Redden(t))
  {
    assert path.Down? && path.other.Bin?;
    hide Agree, CanFix;
    ghost var x, up := MkAt(path, t), path.up;
    TurnSetup(m, path, t);
    AgreeAt(m, g);
    AgreeAt(m, p);
    var d := if g.right == p then Right else Left;
    var s := p.Link(last.Opp());
    var near := LinkIsRed(s, last, m, path.other);
    if near {
      h := RotateDoubleAt(g, d, last, m, up, x);
    } else {
      h := RotateSingleAt(g, d, last, m, up, x);
    }
    TurnShape(path, t);
    h := Repaint(q, g, d, h, up, Turned(path, t), last);
    TurnDown(h, path, t);
  }

  lemma TurnSetup(m: Mem, path: Path, t: Tree)
    requires Zip(m, path, t) && CanTurn(path, t)
    ensures Zip(m, path.up, MkAt(path, t)) && path.up.Ref() in m && path.node in m
    ensures m[path.up.Ref()].right == path.node <==> path.up.D() == Right
    ensures m[path.node].Link(path.dir.Opp()) == path.other.node && ChildrenSeen(m, path.other)
  {
    var up := path.up;
    Ascend(m, path, t);
    PathHead(m, path, t.node);
    PathHead(m, up, path.node);
    See(m, path.other);
    if up.Down? && up.other.Bin? { TreeHead(m, up.other); }
  }

  lemma TurnDown(h: Mem, path: Path, t: Tree)
    requires CanTurn(path, t) && CanRecolor(Turned(path, t), path.dir)
    requires Zip(h, path.up, Recolor(Turned(path, t), path.dir))
    ensures Zip(h, TurnedPath(path, t), Redden(t))
  {
    TurnShape(path, t);
    var z, d := Recolor(Turned(path, t), path.dir), path.dir;
    Descend(h, path.up, z, d);
    Descend(h, Push(path.up, z, d), z.Link(d), d);
  }

  method Repaint(q: Node, g: Node, d: Dir, ghost m: Mem, ghost up: Path, ghost y: Tree, ghost last: Dir)
    returns (ghost h: Mem)
    requires Agree(m) && Zip(m, up, y) && CanRecolor(y, last) && q == y.Link(last).Link(last).node
    requires g == up.Ref() && d == up.D()
    modifies m.Keys
    ensures Agree(h) && h.Keys == m.Keys && Zip(h, up, Recolor(y, last))
  {
    hide Agree, Recolor;
    PathHead(m, up, y.node);
    RecolorZip(m, up, y, last);
    hide Zip;
    AgreeAt(m, g);
    var top := g.Link(d);
    AgreeAt(m, top);
    var l, r := top.left, top.right;
    h := Paint4(q, top, l, r, m);
  }

  // src/rbtree.c:291-299: make the focus ready for the move to its child dir
  method PushDown(q: Node, p: Node, g: Node?, last: Dir, dir: Dir, ghost m: Mem, ghost path: Path, ghost t: Tree)
    returns (p2: Node, ghost h: Mem, ghost path2: Path, ghost t2: Tree)
    requires Agree(m) && Zip(m, path, t) && t.Bin? && q == t.node
    requires p == path.Ref() && last == path.D() && (path.Down? ==> g == path.up.Ref())
    requires Good(path, t) && Primed(path, t)
    modifies m.Keys
    ensures Agree(h) && h.Keys == m.Keys && Zip(h, path2, t2) && Prepared(path, t, dir, path2, t2) && path2.Ref() == p2
  {
    hide Agree, Good, Prepared, Primed, ChildrenSeen;
    PathHead(m, path, q);
    See(m, t);
    TreeHead(m, t);
    AgreeAt(m, q);
    var c := LinkIsRed(q, dir, m, t);
    var b := LinkIsRed(q, dir.Opp(), m, t);
    p2, h, path2, t2 := p, m, path, t;
    if !q.red && !c {
      if b {
        PrepareRotate(path, t, dir);
        h := RotateSingleAt(p, last, dir, m, path, t);
        path2, t2 := Push(path, Single(t, dir), dir), Single(t, dir).Link(dir);
        Descend(h, path, Single(t, dir), dir);
        PathHead(h, path, Single(t, dir).node);
        AgreeAt(h, p);
        p2 := p.Link(last);
      } else {
        h, path2, t2 := FixRemove(q, p, g, last, m, path, t, dir);
      }
    } else {
      PrepareNone(path, t, dir);
    }
  }

  // --- which node has been found ---

  ghost predicate HasAt(u: Quest, key: int) {
    u.k < |u.vals| && u.vals[u.k].key == key
  }

  ghost predicate Found(f: Node?, path: Path, x: Tree, u: Quest, key: int) {
    && (f != null ==> HasAt(u, key))
    && (u.k == |path.Before()| + |x.Inorder()| ==> f == if HasAt(u, key) then Follower(path) else null)
  }

  lemma FoundStep(f: Node?, path: Path, t: Tree, u: Quest, key: int, path2: Path, t2: Tree)
    requires t.Bin? && Found(f, path, t, u, key) && Whole(path, t) == u.vals && Gap(path, t, u.k)
    requires Sorted(u.vals) && Splits(u.vals, key, u.k)
    requires Prepared(path, t, Toward(path, t, u.k), path2, t2)
    ensures var d := Toward(path, t, u.k);
      && Found(if t.value.key == key then t.node else f, Push(path2, t2, d), t2.Link(d), u, key)
      && Gap(Push(path2, t2, d), t2.Link(d), u.k)
  {
    var i := Idx(path, t);
    assert u.vals[i] == t.value;
    assert |Whole(path2, t2)| == |u.vals|;
  }

  // --- the descent ---

  ghost predicate Hunting(st: Scan, u: Quest, key: int, q: Node, p: Node?, f: Node?, dir: Dir) {
    && Inv(st, u) && Primed(st.path, st.x) && Found(f, st.path, st.x, u, key)
    && q == st.path.Ref() && dir == st.path.D() && (st.path.Down? ==> p == st.path.up.Ref())
    && (f != null ==> f in st.m)
    && (st.path.Top? ==> st.x.Bin?)
  }

  lemma HuntingFacts(st: Scan, u: Quest, key: int, q: Node, p: Node?, f: Node?, dir: Dir)
    requires Hunting(st, u, key, q, p, f, dir)
    ensures Zip(st.m, st.path, st.x) && Good(st.path, st.x) && Primed(st.path, st.x)
    ensures q == st.path.Ref() && dir == st.path.D() && (st.path.Down? ==> p == st.path.up.Ref())
    ensures q in st.m && st.m[q].Link(dir) == st.x.Ref() && st.m.Keys == u.keys
    ensures st.x.Bin? ==> st.x.node in st.m && st.m[st.x.node].value == st.x.value
  {
    PathHead(st.m, st.path, st.x.Ref());
  }

  lemma Hunted(st: Scan, u: Quest, key: int, q: Node, p: Node?, f: Node?, dir: Dir, h: Mem, path2: Path, t2: Tree)
    returns (nt: Scan, d: Dir)
    requires Hunting(st, u, key, q, p, f, dir) && st.x.Bin? && Sorted(u.vals) && Splits(u.vals, key, u.k)
    requires Zip(h, path2, t2) && h.Keys == u.keys
    requires Prepared(st.path, st.x, if st.x.value.key < key then Right else Left, path2, t2)
    ensures d == if st.x.value.key < key then Right else Left
    ensures nt.m == h && Height(nt.x) < Height(st.x)
    ensures Hunting(nt, u, key, st.x.node, path2.Ref(), if st.x.value.key == key then st.x.node else f, d)
  {
    hide Zip, Good, Found, Splits, Sorted, Toward, Primed;
    CompareToward(st.path, st.x, key, u.k);
    d := Toward(st.path, st.x, u.k);
    FoundStep(f, st.path, st.x, u, key, path2, t2);
    StepDown(h, path2, t2, d);
    StepGood(path2, t2, d);
    nt := Scan(h, Push(path2, t2, d), t2.Link(d));
    assert st.x.node in st.m;
  }

  method Hunt(froot: Node, key: int, ghost start: Scan, ghost u: Quest)
    returns (q: Node, p: Node?, f: Node?, ghost st: Scan, ghost rounds: nat)
    requires Agree(start.m) && start.m.Keys == u.keys
    requires Hunting(start, u, key, froot, null, null, Right)
    requires Sorted(u.vals) && Splits(u.vals, key, u.k)
    modifies u.keys
    ensures Agree(st.m) && st.x.Leaf? && exists dir :: Hunting(st, u, key, q, p, f, dir)
    ensures rounds <= Height(start.x)
  {
    hide Height, Agree, Hunting, Inv, Found, Primed, Prepared, Zip, Good, Splits, Sorted;
    rounds := 0;
    var g: Node?, dir := null, Right;
    q, p, f, st := froot, null, null, start;
    HuntingFacts(st, u, key, q, p, f, dir);
    AgreeAt(st.m, q);
    while q.Link(dir) != null
      invariant Agree(st.m) && Hunting(st, u, key, q, p, f, dir)
      invariant q.Link(dir) == st.x.Ref() && rounds + Height(st.x) <= Height(start.x)
      decreases Height(st.x)
    {
      HuntingFacts(st, u, key, q, p, f, dir);
      rounds := rounds + 1;
      ghost var q0, p0, f0, dir0 := q, p, f, dir;
      var last := dir;
      g := p;
      p := q;
      q := q.Link(dir);
      AgreeAt(st.m, q);
      if q.value.key == key { f := q; }
      dir := if q.value.key < key then Right else Left;
      ghost var h, path2, t2, d;
      p, h, path2, t2 := PushDown(q, p, g, last, dir, st.m, st.path, st.x);
      st, d := Hunted(st, u, key, q0, p0, f0, dir0, h, path2, t2);
      HuntingFacts(st, u, key, q, p, f, dir);
      AgreeAt(st.m, q);
    }
  }

  // --- taking the last node out ---

  // the path with another value in the node that follows the focus
  ghost function SetFollower(p: Path, v: Value): Path {
    if p.Top? then p else if p.dir == Left then p.(value := v) else p.(up := SetFollower(p.up, v))
  }

  lemma {:induction false} SetFollowerNodes(p: Path, v: Value)
    ensures var r := SetFollower(p, v);
      && r.Ref() == p.Ref() && r.D() == p.D() && r.Ids() == p.Ids() && Root(r) == Root(p)
      && (p.Distinct() ==> r.Distinct())
      && (Follower(p) != null ==> Follower(p) in p.Ids())
  {
    if p.Down? && p.dir == Right { SetFollowerNodes(p.up, v); }
  }

  lemma {:induction false} SetFollowerGood(p: Path, v: Value)
    ensures var r := SetFollower(p, v);
      (forall h :: p.Bal(h) ==> r.Bal(h)) && (forall red :: p.NoRR(red) ==> r.NoRR(red))
  {
    if p.Down? && p.dir == Right { SetFollowerGood(p.up, v); }
  }

  lemma {:induction false} SetFollowerValues(p: Path, v: Value)
    ensures var r := SetFollower(p, v);
      && r.Before() == p.Before()
      && (Follower(p) == null <==> p.After() == [])
      && (Follower(p) != null ==> r.After() == [v] + p.After()[1..])
  {
    if p.Down? && p.dir == Right { SetFollowerValues(p.up, v); }
  }

  lemma {:induction false} SetFollowerRep(g: Mem, p: Path, focus: Node?, v: Value)
    requires p.Rep(g, focus) && p.Distinct() && Follower(p) != null && Follower(p) in g
    ensures SetFollower(p, v).Rep(g[Follower(p) := g[Follower(p)].(value := v)], focus)
    ensures |p.After()| > 0 && g[Follower(p)].value == p.After()[0]
  {
    var n := Follower(p);
    var h := g[n := g[n].(value := v)];
    SetFollowerNodes(p.up, v);
    SetFollowerValues(p.up, v);
    Frame(g, h, p.other);
    if p.dir == Right {
      SetFollowerRep(g, p.up, p.node, v);
    } else {
      PathFrame(g, h, p.up, p.node);
    }
  }

  // the path once the found value has been replaced by that of the last node
  ghost function Emptied(p: Path): Path
    requires p.Down?
  {
    if p.dir == Left then p.up else SetFollower(p.up, p.value)
  }

  lemma EmptiedGood(p: Path)
    requires p.Down? && Good(p, Leaf) && Primed(p, Leaf)
    ensures p.other.Leaf? && Good(Emptied(p), Leaf)
  {
    assert p.other.Bh() == 0 && !p.other.Red();
    assert p.up.NoRR(p.red) && p.up.Bal(if p.red then 0 else 1);
    assert p.up.NoRR(false) && p.up.Bal(0);
    SetFollowerGood(p.up, p.value);
  }

  lemma EmptiedWhole(p: Path, k: int)
    requires p.Down? && p.other.Leaf? && k == |p.Before()| && Follower(p) != null
    ensures var s := Whole(p, Leaf); k < |s| && Whole(Emptied(p), Leaf) == s[..k] + s[k + 1..]
  {
    hide Follower, SetFollower;
    SetFollowerValues(p, p.value);
    SetFollowerValues(p.up, p.value);
    Dropped(p.Before(), p.After());
    if p.dir == Left {
      assert p.After()[1..] == p.up.After();
    } else {
      assert p.Before() == p.up.Before() + [p.value];
    }
  }

  lemma Dropped(a: seq<Value>, b: seq<Value>)
    requires b != []
    ensures var s := a + [] + b; s[..|a|] + s[|a| + 1..] == a + b[1..]
  {
  }

  // memory after f->value = q->value and the splice of src/rbtree.c:307-308
  ghost function SplicedMem(g: Mem, p: Path, f: Node): Mem
    requires p.Down? && f in g && p.up.Ref() in g
  {
    var h := g[f := g[f].(value := p.value)];
    h[p.up.Ref() := h[p.up.Ref()].SetLink(p.up.D(), null)]
  }

  lemma EmptiedZip(g: Mem, p: Path, f: Node)
    requires Zip(g, p, Leaf) && p.Down? && p.other.Leaf? && f == Follower(p) && f in g && p.up.Ref() in g
    ensures Zip(SplicedMem(g, p, f) - {p.node}, Emptied(p), Leaf)
    ensures Emptied(p).Ids() == p.Ids() - {p.node}
    ensures |p.After()| > 0 && g[f].value == p.After()[0]
  {
    var h := g[f := g[f].(value := p.value)];
    var h2 := SplicedMem(g, p, f);
    SetFollowerNodes(p.up, p.value);
    PathHead(g, p, null);
    if p.dir == Left {
      PathFrame(g, h, p.up, p.node);
    } else {
      SetFollowerRep(g, p.up, p.node, p.value);
    }
    assert Emptied(p).Rep(h, p.node);
    assert Emptied(p).Ref() in Emptied(p).Ids();
    PathRelink(h, h2 - {p.node}, Emptied(p), p.node, null);
  }

  lemma HuntEnd(st: Scan, u: Quest, key: int, q: Node, p: Node?, f: Node?, dir: Dir)
    requires Hunting(st, u, key, q, p, f, dir) && st.x.Leaf? && u.k == LowerBound(u.vals, key)
    ensures st.path.Down? && q == st.path.node && p == st.path.up.Ref()
    ensures Core(st, u.keys, u.froot, u.vals) && Good(st.path, Leaf) && Primed(st.path, Leaf)
    ensures f == null <==> !Has(u.vals, key)
    ensures f != null ==> f == Follower(st.path) && f in st.m && u.k == |st.path.Before()|
  {
    SetFollowerValues(st.path, st.path.value);
    assert Whole(st.path, Leaf) == st.path.Before() + st.path.After();
  }

  lemma FoundEnd(st: Scan, u: Quest, key: int)
    requires st.path.Down? && st.x.Leaf? && Core(st, u.keys, u.froot, u.vals) && Good(st.path, Leaf)
      && Primed(st.path, Leaf)
    requires u.k == LowerBound(u.vals, key) == |st.path.Before()| && Has(u.vals, key)
    requires Follower(st.path) != null && Follower(st.path) in st.m
    ensures var f, q, p := Follower(st.path), st.path.node, st.path.up.Ref();
      && p in st.m && q in st.m && st.m[f].value == u.vals[u.k]
      && Core(Scan(SplicedMem(st.m, st.path, f) - {q}, Emptied(st.path), Leaf), u.keys - {q}, u.froot,
        Remove(u.vals, key))
      && Good(Emptied(st.path), Leaf)
  {
    hide Zip, Good, Primed, Whole, Emptied, Has, Remove, LowerBound, SplicedMem, Follower, Root, Path.Before,
         Path.After;
    EndLinks(st, u.froot);
    EmptiedGood(st.path);
    EmptiedZip(st.m, st.path, Follower(st.path));
    EmptiedValues(st.path, u.vals, key);
    SplicedKeys(st.m, st.path, Follower(st.path));
  }

  lemma SplicedKeys(g: Mem, p: Path, f: Node)
    requires p.Down? && f in g && p.up.Ref() in g
    ensures SplicedMem(g, p, f).Keys == g.Keys
  {
  }

  lemma EmptiedValues(p: Path, vals: seq<Value>, key: int)
    requires p.Down? && p.other.Leaf? && Whole(p, Leaf) == vals && Follower(p) != null
    requires LowerBound(vals, key) == |p.Before()| && Has(vals, key)
    ensures Whole(Emptied(p), Leaf) == Remove(vals, key)
    ensures |p.After()| > 0 && p.After()[0] == vals[|p.Before()|] && Root(Emptied(p)) == Root(p)
  {
    EmptiedWhole(p, |p.Before()|);
    EmptiedRoot(p);
    hide Emptied, LowerBound, Root;
    var a, b := p.Before(), p.After();
    assert vals == a + b;
    assert vals[|a|] == b[0];
  }

  lemma EmptiedRoot(p: Path)
    requires p.Down?
    ensures Root(Emptied(p)) == Root(p)
  {
    SetFollowerNodes(p.up, p.value);
  }

  lemma {:induction false} RootIn(p: Path)
    ensures Root(p) in p.Ids()
  {
    if p.Down? { RootIn(p.up); }
  }

  lemma EndLinks(st: Scan, froot: Node)
    requires Root(st.path) == froot && st.path.Down? && st.x.Leaf? && Zip(st.m, st.path, Leaf) && Good(st.path, Leaf)
      && Primed(st.path, Leaf)
    ensures var q, p := st.path.node, st.path.up.Ref();
      && p in st.m && q in st.m && p != q && q != froot
      && st.m[q].value == st.path.value && st.m[q].left == null && st.m[q].right == null
      && (st.m[p].right == q <==> st.path.up.D() == Right)
  {
    var up := st.path.up;
    PathHead(st.m, st.path, null);
    PathHead(st.m, up, st.path.node);
    EmptiedGood(st.path);
    RootIn(up);
    if up.Down? && up.other.Bin? { TreeHead(st.m, up.other); }
  }

  // f->value = v, followed in the ghost memory
  method StoreValue(f: Node, v: Value, ghost g: Mem) returns (ghost h: Mem)
    requires Agree(g) && f in g
    modifies f
    ensures h == g[f := g[f].(value := v)] && Agree(h)
  {
    f.value := v;
    h := g[f := g[f].(value := v)];
  }

  // the slots of nodes
  ghost function Addrs(nodes: set<Node>): set<int> {
    set n | n in nodes :: n.addr
  }

  lemma OneAddr(n: Node)
    ensures Addrs({n}) == {n.addr} && Addrs({}) == {}
  {
  }

  // cl_pool_release on a node: the free-list word lies over the colour
  method Recycle(q: Node, pool: Pool)
    requires pool.Valid() && q.addr in pool.live
    modifies pool, q`red
    ensures pool.Valid() && pool.live == old(pool.live) - {q.addr} && pool.blocks == old(pool.blocks)
  {
    pool.Release(q.addr);
    q.red := *;
  }

  // src/rbtree.c:302-309. The slot of q goes back to the pool before its links are
  // read: the free-list word overwrites the colour of q and nothing else.
  method Unlink(q: Node, p: Node, f: Node, pool: Pool, ghost m: Mem, ghost path: Path) returns (v: Value, ghost h: Mem)
    requires Agree(m) && q in m && p in m && f in m && path.Down? && path.up.Ref() == p && p != q
    requires m[q].value == path.value && m[q].left == null && m[q].right == null
    requires m[p].right == q <==> path.up.D() == Right
    requires pool.Valid() && q.addr in pool.live
    modifies m.Keys, pool
    ensures v == m[f].value && h == SplicedMem(m, path, f) - {q} && Agree(h)
    ensures pool.Valid() && pool.live == old(pool.live) - {q.addr} && pool.blocks == old(pool.blocks)
  {
    hide Agree, Pool.Valid, SplicedMem, Path.D, Path.Ref, Cell.SetLink;
    AgreeAt(m, q);
    AgreeAt(m, p);
    AgreeAt(m, f);
    SplicedIs(m, path, q, p, f);
    v := f.value;
    h := StoreValue(f, q.value, m);
    AgreeMinus(h, q);
    h := h - {q};
    Recycle(q, pool);
    AgreeAt(h, p);
    h := StoreLink(p, if p.right == q then Right else Left, q.Link(if q.left == null then Right else Left), h);
  }

  lemma SplicedIs(m: Mem, path: Path, q: Node, p: Node, f: Node)
    requires q in m && p in m && f in m && path.Down? && path.up.Ref() == p && p != q
    ensures var h := m[f := m[f].(value := path.value)] - {q};
      SplicedMem(m, path, f) - {q} == h[p := h[p].SetLink(path.up.D(), null)]
  {
  }

  // src/rbtree.c:302-309: take the node at the end of the hunt out, if the key was met
  method TakeOut(q: Node, p: Node?, f: Node?, pool: Pool, ghost key: int, ghost st: Scan, ghost u: Quest,
      ghost dir: Dir)
    returns (v: Option<Value>, ghost gone: set<Node>, ghost nt: Scan)
    requires Agree(st.m) && Hunting(st, u, key, q, p, f, dir) && st.x.Leaf? && u.k == LowerBound(u.vals, key)
    requires pool.Valid() && forall n <- u.keys - {u.froot} :: n.addr in pool.live
    modifies st.m.Keys, pool
    ensures Agree(nt.m) && Core(nt, u.keys - gone, u.froot, Remove(u.vals, key)) && Good(nt.path, nt.x)
    ensures gone <= u.keys - {u.froot}
    ensures if Has(u.vals, key) then v == Some(u.vals[u.k]) && |gone| == 1 else v == None && gone == {}
    ensures pool.Valid() && pool.live == old(pool.live) - Addrs(gone) && pool.blocks == old(pool.blocks)
  {
    hide Agree, LowerBound, Has, Remove, Good, Zip, Whole, Follower, SplicedMem, Emptied, Pool.Valid, Hunting, Core,
         Addrs;
    HuntEnd(st, u, key, q, p, f, dir);
    CoreZip(st, u.keys, u.froot, u.vals);
    v, gone, nt := None, {}, st;
    OneAddr(q);
    if f != null {
      FoundEnd(st, u, key);
      EndLinks(st, u.froot);
      var w;
      ghost var h;
      w, h := Unlink(q, p, f, pool, st.m, st.path);
      v, gone := Some(w), {q};
      nt := Scan(h, Emptied(st.path), Leaf);
    } else {
      RemoveNone(u.vals, key);
      assert u.keys - gone == u.keys;
    }
  }

  // cl_rbtree_remove2 (src/rbtree.c:267-315), up to the colour of the root
  method Remove2(root: Node, key: int, pool: Pool, ghost shape: Tree, ghost mem: Mem)
    returns (v: Option<Value>, ghost gone: set<Node>, newRoot: Node?, ghost newShape: Tree, ghost newMem: Mem,
      ghost rounds: nat)
    requires Agree(mem) && Stored(shape, mem) && root == shape.Ref() && RedBlack(shape)
    requires Sorted(shape.Inorder())
    requires pool.Valid() && forall n <- mem.Keys :: n.addr in pool.live
    modifies mem.Keys, pool
    ensures Agree(newMem) && Stored(newShape, newMem) && newRoot == newShape.Ref() && RedBlack(newShape)
    ensures newShape.Inorder() == Remove(shape.Inorder(), key)
    ensures newMem.Keys == mem.Keys - gone && gone <= mem.Keys
    ensures if Has(shape.Inorder(), key) then v == Some(shape.Inorder()[LowerBound(shape.Inorder(), key)])
      && |gone| == 1
            else v == None && gone == {}
    ensures pool.Valid() && pool.live == old(pool.live) - Addrs(gone) && pool.blocks == old(pool.blocks)
    ensures rounds <= Height(shape)
  {
    hide Agree, Stored, RedBlack, Sorted, Splits, LowerBound, Has, Remove, Good, Zip, Whole, Pool.Valid, Addrs, Inv,
         Hunting, Core, Height, Tree.Inorder, Path.Ids, Tree.Ids, Tree.Red;
    var froot;
    ghost var st, u;
    froot, st, u := FakeRoot(root, Value(key, 0), shape, mem);
    StartHunt(st, u, key);
    var q, p, f;
    q, p, f, st, rounds := Hunt(froot, key, st, u);
    ghost var dir :| Hunting(st, u, key, q, p, f, dir);
    HuntingFacts(st, u, key, q, p, f, dir);
    v, gone, st := TakeOut(q, p, f, pool, key, st, u, dir);
    newShape, newMem := Close(st, u.keys - gone, froot, Remove(u.vals, key));
    CoreZip(st, u.keys - gone, froot, Remove(u.vals, key));
    AgreeAt(st.m, froot);
    AgreeMinus(st.m, froot);
    newRoot := froot.right;
  }

  lemma StartHunt(st: Scan, u: Quest, key: int)
    requires Inv(st, u) && st.path.Top? && st.x.Bin? && u.k == LowerBound(u.vals, key) && Root(st.path) == st.path.froot
    ensures Hunting(st, u, key, st.path.froot, null, null, Right)
  {
  }

  lemma CoreZip(st: Scan, keys: set<Node>, froot: Node, s: seq<Value>)
    requires Core(st, keys, froot, s)
    ensures Zip(st.m, st.path, st.x) && st.m.Keys == keys && Root(st.path) == froot
  {
  }

  lemma RemoveNone(s: seq<Value>, key: int)
    requires !Has(s, key)
    ensures Remove(s, key) == s
  {
  }
}