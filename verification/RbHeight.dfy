/** How deep a red-black tree can be. */
module RbHeight {
  import opened Powers
  import opened SortedList
  import opened RbShape
  import opened RbScan

  ghost function Max(a: nat, b: nat): nat { if a < b then b else a }

  ghost function Height(t: Tree): nat {
    if t.Leaf? then 0 else 1 + Max(Height(t.left), Height(t.right))
  }

  // a red-black tree is not taller than twice its black height
  lemma {:induction false} HeightByBh(t: Tree)
    requires RedBlack(t)
    ensures Height(t) <= 2 * t.Bh() + if t.Red() then 1 else 0
  {
    if t.Bin? {
      HeightByBh(t.left);
      HeightByBh(t.right);
    }
  }

  // and holds at least 2^bh - 1 values
  lemma {:induction false} SizeByBh(t: Tree)
    requires RedBlack(t)
    ensures Pow2(t.Bh()) <= |t.Inorder()| + 1
  {
    if t.Bin? {
      SizeByBh(t.left);
      SizeByBh(t.right);
    }
  }

  ghost function Square(x: int): int { x * x }

  lemma SquareMono(a: nat, b: nat)
    requires a <= b
    ensures Square(a) <= Square(b)
  {
    assert a * a <= a * b <= b * b;
  }

  // The height bound h <= 2 * log2(n + 1), without the logarithm.
  lemma HeightBound(t: Tree)
    requires RedBlack(t) && !t.Red()
    ensures Pow2(Height(t)) <= Square(|t.Inorder()| + 1)
  {
    HeightByBh(t);
    SizeByBh(t);
    Pow2Mono(Height(t), 2 * t.Bh());
    Pow2Double(t.Bh());
    SquareMono(Pow2(t.Bh()), |t.Inorder()| + 1);
  }

  // a number of rounds that one way down a tree of n values may take: at most 2 * log2(n + 1)
  ghost predicate Within(rounds: nat, n: int) { Pow2(rounds) <= Square(n + 1) }

  lemma RoundsWithin(t: Tree, rounds: nat)
    requires RedBlack(t) && !t.Red() && rounds <= Height(t)
    ensures Within(rounds, |t.Inorder()|)
  {
    HeightBound(t);
    Pow2Mono(rounds, Height(t));
  }

  // twice as many and one more: at most 4 * log2(n + 1) + 1
  ghost predicate TwiceWithin(rounds: nat, n: int) { Pow2(rounds) <= 2 * Square(Square(n + 1)) }

  lemma RoundsTwiceWithin(t: Tree, rounds: nat)
    requires RedBlack(t) && !t.Red() && rounds <= 2 * Height(t) + 1
    ensures TwiceWithin(rounds, |t.Inorder()|)
  {
    hide RedBlack, Height, Tree.Inorder, Tree.Red;
    var h := Height(t);
    HeightBound(t);
    Pow2Mono(rounds, 2 * h + 1);
    Pow2Double(h);
    SquareMono(Pow2(h), Square(|t.Inorder()| + 1));
  }
}
