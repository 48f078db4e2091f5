/** Single and double rotations at a link of the tree (src/rbtree.c). */
module RbRotate {
  import opened SortedList
  import opened RbShape

  // n->link[d] = x, followed in the ghost memory
  method StoreLink(n: Node, d: Dir, x: Node?, ghost g: Mem) returns (ghost h: Mem)
    requires Agree(g) && n in g
    modifies n
    ensures h == g[n := g[n].SetLink(d, x)] && Agree(h)
  {
    n.SetLink(d, x);
    h := g[n := g[n].SetLink(d, x)];
  }

  // n->color = red, followed in the ghost memory
  method StoreRed(n: Node, red: bool, ghost g: Mem) returns (ghost h: Mem)
    requires Agree(g) && n in g
    modifies n
    ensures h == g[n := g[n].(red := red)] && Agree(h)
  {
    n.red := red;
    h := g[n := g[n].(red := red)];
  }

  ghost predicate CanRotate(g: Mem, n: Node, dir: Dir)
  {
    && n in g
    && var m := g[n].Link(dir.Opp());
    && m != null && m in g && m != n
  }

  // the memory effect of cl_rbnode_rotate_single
  ghost function RotMem(g: Mem, n: Node, dir: Dir): Mem
    requires CanRotate(g, n, dir)
  {
    var m: Node := g[n].Link(dir.Opp());
    var g1 := g[n := g[n].SetLink(dir.Opp(), g[m].Link(dir))];
    var g2 := g1[m := g1[m].SetLink(dir, n)];
    var g3 := g2[n := g2[n].(red := true)];
    g3[m := g3[m].(red := false)]
  }

  method RotateSingle(n: Node, dir: Dir, ghost g: Mem) returns (m: Node, ghost h: Mem)
    requires Agree(g) && CanRotate(g, n, dir)
    modifies g.Keys
    ensures m == g[n].Link(dir.Opp())
    ensures h == RotMem(g, n, dir) && Agree(h)
  {
    m := n.Link(dir.Opp());
    h := StoreLink(n, dir.Opp(), m.Link(dir), g);
    h := StoreLink(m, dir, n, h);
    h := StoreRed(n, true, h);
    h := StoreRed(m, false, h);
  }

  // the tree rotated once towards dir, recoloured as the source does
  ghost function Single(t: Tree, dir: Dir): (u: Tree)
    requires t.Bin? && t.Link(dir.Opp()).Bin?
    ensures u.Bin? && u.Link(dir).Bin?
  {
    var s := t.Link(dir.Opp());
    Mk(dir, s.node, false, s.value, Mk(dir, t.node, true, t.value, t.Link(dir), s.Link(dir)), s.Link(dir.Opp()))
  }

  // the subtree at the last node of the path, with u in the hole
  ghost function MkAt(p: Path, u: Tree): Tree
    requires p.Down?
  {
    Mk(p.dir, p.node, p.red, p.value, u, p.other)
  }

  ghost function Whole(p: Path, t: Tree): seq<Value> {
    p.Before() + t.Inorder() + p.After()
  }

  ghost function Double(t: Tree, dir: Dir): (u: Tree)
    requires t.Bin? && t.Link(dir.Opp()).Bin? && t.Link(dir.Opp()).Link(dir).Bin?
  {
    var s := Single(t.Link(dir.Opp()), dir.Opp());
    Single(Mk(dir.Opp(), t.node, t.red, t.value, s, t.Link(dir)), dir)
  }

  lemma SingleRep(g: Mem, t: Tree, dir: Dir)
    requires t.Bin? && t.Rep(g) && t.Distinct() && t.Link(dir.Opp()).Bin?
    ensures CanRotate(g, t.node, dir)
    ensures Single(t, dir).Rep(RotMem(g, t.node, dir))
  {
    var s := t.Link(dir.Opp());
    assert s.Rep(g) && s.node in s.Ids();
    var h := RotMem(g, t.node, dir);
    Frame(g, h, t.Link(dir));
    Frame(g, h, s.Link(dir));
    Frame(g, h, s.Link(dir.Opp()));
  }

  lemma SingleIds(t: Tree, dir: Dir)
    requires t.Bin? && t.Distinct() && t.Link(dir.Opp()).Bin?
    ensures Single(t, dir).Distinct() && Single(t, dir).Ids() == t.Ids()
  {
  }

  lemma SingleInorder(t: Tree, dir: Dir)
    requires t.Bin? && t.Link(dir.Opp()).Bin?
    ensures Single(t, dir).Inorder() == t.Inorder()
  {
  }

  // the memory after t->link[d] = cl_rbnode_rotate_single(t->link[d], dir)
  ghost function RotAtMem(g: Mem, up: Path, x: Tree, dir: Dir): Mem
    requires x.Bin? && x.Link(dir.Opp()).Bin? && CanRotate(g, x.node, dir) && up.Ref() in g
  {
    var g1 := RotMem(g, x.node, dir);
    g1[up.Ref() := g1[up.Ref()].SetLink(up.D(), Single(x, dir).Ref())]
  }

  lemma SingleZip(g: Mem, up: Path, x: Tree, dir: Dir)
    requires Zip(g, up, x) && x.Bin? && x.Link(dir.Opp()).Bin?
    ensures CanRotate(g, x.node, dir) && up.Ref() in g && g[x.node].Link(dir.Opp()) == Single(x, dir).Ref()
    ensures g[up.Ref()].Link(up.D()) == x.Ref()
    ensures Zip(RotAtMem(g, up, x, dir), up, Single(x, dir))
    ensures Single(x, dir).Ids() == x.Ids() && Single(x, dir).Inorder() == x.Inorder()
  {
    PathRepIds(g, up, x.Ref());
    assert up.Ref() in up.Ids();
    SingleRep(g, x, dir);
    SingleIds(x, dir);
    SingleInorder(x, dir);
    RotateFrame(g, RotMem(g, x.node, dir), RotAtMem(g, up, x, dir), up, x, dir);
  }

  method RotateSingleAt(t: Node, d: Dir, dir: Dir, ghost g: Mem, ghost up: Path, ghost x: Tree) returns (ghost h: Mem)
    requires Agree(g) && Zip(g, up, x) && t == up.Ref() && d == up.D()
    requires x.Bin? && x.Link(dir.Opp()).Bin?
    modifies g.Keys
    ensures Agree(h) && h.Keys == g.Keys && Zip(h, up, Single(x, dir))
    ensures Single(x, dir).Ids() == x.Ids() && Single(x, dir).Inorder() == x.Inorder()
  {
    hide Tree.Inorder, Tree.Ids;
    SingleZip(g, up, x, dir);
    var m;
    m, h := RotateSingle(t.Link(d), dir, g);
    h := StoreLink(t, d, m, h);
    assert h == RotAtMem(g, up, x, dir);
  }

  lemma RotateFrame(g: Mem, g1: Mem, h: Mem, up: Path, x: Tree, dir: Dir)
    requires Zip(g, up, x) && x.Bin? && x.Link(dir.Opp()).Bin? && CanRotate(g, x.node, dir)
    requires g1 == RotMem(g, x.node, dir) && up.Ref() in g1
    requires h == g1[up.Ref() := g1[up.Ref()].SetLink(up.D(), Single(x, dir).Ref())]
    requires Single(x, dir).Rep(g1) && Single(x, dir).Ids() == x.Ids()
    ensures up.Rep(h, Single(x, dir).Ref()) && Single(x, dir).Rep(h)
  {
    var m := x.Link(dir.Opp());
    assert x.node in x.Ids() && m.node in m.Ids() && m.node in x.Ids();
    assert up.Ref() in up.Ids();
    PathRelink(g, h, up, x.Ref(), Single(x, dir).Ref());
    Frame(g1, h, Single(x, dir));
  }

  // t->link[d] = cl_rbnode_rotate_double(t->link[d], dir)
  method RotateDoubleAt(t: Node, d: Dir, dir: Dir, ghost g: Mem, ghost up: Path, ghost x: Tree) returns (ghost h: Mem)
    requires Agree(g) && Zip(g, up, x) && t == up.Ref() && d == up.D()
    requires x.Bin? && x.Link(dir.Opp()).Bin? && x.Link(dir.Opp()).Link(dir).Bin?
    modifies g.Keys
    ensures Agree(h) && h.Keys == g.Keys && Zip(h, up, Double(x, dir))
    ensures Double(x, dir).Ids() == x.Ids() && Double(x, dir).Inorder() == x.Inorder()
  {
    PathRepIds(g, up, x.Ref());
    assert t in up.Ids();
    var n := t.Link(d);
    Descend(g, up, x, dir.Opp());
    ghost var c := x.Link(dir.Opp());
    ghost var path := Push(up, x, dir.Opp());
    h := RotateSingleAt(n, dir.Opp(), dir.Opp(), g, path, c);
    Ascend(h, path, Single(c, dir.Opp()));
    assert MkAt(path, c) == x;
    h := RotateSingleAt(t, d, dir, h, up, MkAt(path, Single(c, dir.Opp())));
  }

  // closing the zipper by one level
  lemma Ascend(g: Mem, p: Path, u: Tree)
    requires p.Down? && Zip(g, p, u)
    ensures Zip(g, p.up, MkAt(p, u))
    ensures MkAt(p, u).Ids() == {p.node} + p.other.Ids() + u.Ids()
  {
  }

  lemma AscendInorder(p: Path, u: Tree)
    requires p.Down?
    ensures Whole(p.up, MkAt(p, u)) == Whole(p, u)
  {
  }

  // closing the zipper all the way
  ghost function Fill(p: Path, t: Tree): Tree {
    if p.Top? then t else Fill(p.up, MkAt(p, t))
  }

  ghost function Root(p: Path): Node {
    if p.Top? then p.froot else Root(p.up)
  }

  lemma {:induction false} FillZip(g: Mem, p: Path, t: Tree)
    requires Zip(g, p, t)
    ensures var f := Fill(p, t);
      && f.Rep(g) && f.Distinct() && f.Inorder() == Whole(p, t)
      && Root(p) in g && g[Root(p)].right == f.Ref()
      && Root(p) !in f.Ids() && f.Ids() + {Root(p)} == p.Ids() + t.Ids()
  {
    if p.Down? {
      Ascend(g, p, t);
      AscendInorder(p, t);
      FillZip(g, p.up, MkAt(p, t));
    }
  }
}
