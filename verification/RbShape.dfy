/** Nodes, functional trees and zippers of the red-black tree, and how they lie in memory
    (src/rbtree.c). */
module RbShape {
  import opened SortedList

  datatype Dir = Left | Right
  {
    function Opp(): Dir { if Left? then Right else Left }
  }

  // struct cl_rbnode; addr is where the pool put it
  class Node {
    const addr: int
    var red: bool
    var left: Node?
    var right: Node?
    var value: Value

    constructor (addr: int, v: Value)
      ensures this.addr == addr && red && left == null && right == null && value == v
    {
      this.addr, red, left, right, value := addr, true, null, null, v;
    }

    function Link(d: Dir): Node?
      reads this
    {
      if d == Left then left else right
    }

    method SetLink(d: Dir, n: Node?)
      modifies this
      ensures Link(d) == n && Link(d.Opp()) == old(Link(d.Opp()))
      ensures red == old(red) && value == old(value)
    {
      if d == Left { left := n; } else { right := n; }
    }
  }

  datatype Cell = Cell(red: bool, left: Node?, right: Node?, value: Value)
  {
    function Link(d: Dir): Node? { if d == Left then left else right }
    function SetLink(d: Dir, n: Node?): Cell { if d == Left then this.(left := n) else this.(right := n) }
  }
  type Mem = map<Node, Cell>

  ghost predicate Agree(g: Mem)
    reads g.Keys
  {
    forall n <- g :: g[n] == Cell(n.red, n.left, n.right, n.value)
  }

  datatype Tree = Leaf | Bin(node: Node, red: bool, left: Tree, value: Value, right: Tree)
  {
    ghost function Ref(): Node? { if Leaf? then null else node }
    ghost predicate Red() { Bin? && red }
    ghost function Ids(): set<Node> { if Leaf? then {} else {node} + left.Ids() + right.Ids() }
    ghost predicate Distinct() {
      Bin? ==>
        && node !in left.Ids() && node !in right.Ids() && left.Ids() !! right.Ids()
        && left.Distinct() && right.Distinct()
    }
    ghost function Inorder(): seq<Value> { if Leaf? then [] else left.Inorder() + [value] + right.Inorder() }
    ghost function Link(d: Dir): Tree requires Bin? { if d == Left then left else right }
    ghost predicate Rep(g: Mem)
    {
      Bin? ==> node in g && g[node] == Cell(red, left.Ref(), right.Ref(), value) && left.Rep(g) && right.Rep(g)
    }
    ghost function Bh(): nat { if Leaf? then 0 else left.Bh() + if red then 0 else 1 }
    ghost predicate Bal() { Bin? ==> left.Bh() == right.Bh() && left.Bal() && right.Bal() }
    ghost predicate NoRR() { Bin? ==> (red ==> !left.Red() && !right.Red()) && left.NoRR() && right.NoRR() }
  }

  // x hangs at link d, y at the other link
  ghost function Mk(d: Dir, n: Node, red: bool, v: Value, x: Tree, y: Tree): Tree
  {
    if d == Left then Bin(n, red, x, v, y) else Bin(n, red, y, v, x)
  }

  datatype Path = Top(froot: Node) | Down(node: Node, red: bool, dir: Dir, value: Value, other: Tree, up: Path)
  {
    ghost function Ref(): Node { if Top? then froot else node }
    ghost function D(): Dir { if Top? then Right else dir }
    ghost function Ids(): set<Node> { if Top? then {froot} else {node} + other.Ids() + up.Ids() }
    ghost predicate Distinct() {
      Down? ==>
        && node !in other.Ids() && node !in up.Ids() && other.Ids() !! up.Ids()
        && other.Distinct() && up.Distinct()
    }
    ghost function Before(): seq<Value> {
      if Top? then [] else if dir == Left then up.Before() else up.Before() + other.Inorder() + [value]
    }
    ghost function After(): seq<Value> {
      if Top? then [] else if dir == Left then [value] + other.Inorder() + up.After() else up.After()
    }
    ghost predicate Rep(g: Mem, focus: Node?)
    {
      if Top? then froot in g && !g[froot].red && g[froot].left == null && g[froot].right == focus
      else
        && node in g && g[node].red == red && g[node].value == value
        && g[node].Link(dir) == focus && g[node].Link(dir.Opp()) == other.Ref()
        && other.Rep(g) && up.Rep(g, node)
    }
    // the focus has black height h
    ghost predicate Bal(h: nat) {
      Down? ==> other.Bh() == h && other.Bal() && up.Bal(h + if red then 0 else 1)
    }
    ghost predicate NoRR(focusRed: bool) {
      Down? ==> other.NoRR() && (red ==> !focusRed && !other.Red()) && up.NoRR(red)
    }
  }

  ghost function Push(p: Path, t: Tree, d: Dir): Path
    requires t.Bin?
  {
    Down(t.node, t.red, d, t.value, t.Link(d.Opp()), p)
  }

  // the zipper (p, t) is laid out in the memory g
  ghost predicate Zip(g: Mem, p: Path, t: Tree) {
    && p.Rep(g, t.Ref()) && t.Rep(g)
    && p.Distinct() && t.Distinct() && p.Ids() !! t.Ids()
  }

  lemma {:induction false} Frame(g: Mem, h: Mem, t: Tree)
    requires t.Rep(g) && forall n <- t.Ids() :: n in g ==> n in h && h[n] == g[n]
    ensures t.Rep(h)
  {
    if t.Bin? { assert t.node in t.Ids(); Frame(g, h, t.left); Frame(g, h, t.right); }
  }

  lemma {:induction false} PathFrame(g: Mem, h: Mem, p: Path, focus: Node?)
    requires p.Rep(g, focus) && forall n <- p.Ids() :: n in g ==> n in h && h[n] == g[n]
    ensures p.Rep(h, focus)
  {
    assert p.Ref() in p.Ids();
    if p.Down? { Frame(g, h, p.other); PathFrame(g, h, p.up, p.node); }
  }

  // re-pointing the link the focus hangs from
  lemma PathRelink(g: Mem, h: Mem, p: Path, focus: Node?, n: Node?)
    requires p.Rep(g, focus) && p.Distinct()
    requires p.Ref() in g && p.Ref() in h && h[p.Ref()] == g[p.Ref()].SetLink(p.D(), n)
    requires forall x <- p.Ids() :: x in g && x != p.Ref() ==> x in h && h[x] == g[x]
    ensures p.Rep(h, n)
  {
    if p.Down? { Frame(g, h, p.other); PathFrame(g, h, p.up, p.node); }
  }

  lemma RepIds(g: Mem, t: Tree)
    requires t.Rep(g)
    ensures t.Ids() <= g.Keys
  {
  }

  lemma PathRepIds(g: Mem, p: Path, focus: Node?)
    requires p.Rep(g, focus)
    ensures p.Ids() <= g.Keys
  {
    if p.Down? { RepIds(g, p.other); PathRepIds(g, p.up, p.node); }
  }

  lemma Descend(g: Mem, p: Path, t: Tree, d: Dir)
    requires Zip(g, p, t) && t.Bin?
    ensures Zip(g, Push(p, t, d), t.Link(d))
  {
  }

  lemma AgreeAt(g: Mem, n: Node)
    requires Agree(g) && n in g
    ensures g[n] == Cell(n.red, n.left, n.right, n.value)
  {
  }

  lemma AgreeMinus(g: Mem, n: Node)
    requires Agree(g)
    ensures Agree(g - {n})
  {
  }

  // what the node above the focus holds
  lemma PathHead(g: Mem, p: Path, focus: Node?)
    requires p.Rep(g, focus)
    ensures p.Ref() in g && p.Ref() in p.Ids() && g[p.Ref()].Link(p.D()) == focus
    ensures p.Down? ==> g[p.node].red == p.red && g[p.node].Link(p.dir.Opp()) == p.other.Ref()
    ensures p.Top? ==> !g[p.froot].red && g[p.froot].left == null
  {
  }

  // what the root of a tree holds
  lemma TreeHead(g: Mem, t: Tree)
    requires t.Rep(g) && t.Bin?
    ensures t.node in g && t.node in t.Ids() && g[t.node] == Cell(t.red, t.left.Ref(), t.right.Ref(), t.value)
    ensures t.left.Rep(g) && t.right.Rep(g)
  {
  }
}
