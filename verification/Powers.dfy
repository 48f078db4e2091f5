/** Powers of two. */
module Powers {
  function Pow2(k: nat): nat { if k == 0 then 1 else 2 * Pow2(k - 1) }

  lemma {:induction false} Pow2Mono(a: nat, b: nat)
    requires a <= b
    ensures Pow2(a) <= Pow2(b)
    decreases b
  {
    if a < b { Pow2Mono(a, b - 1); }
  }

  lemma {:induction false} Pow2Double(a: nat)
    ensures Pow2(2 * a) == Pow2(a) * Pow2(a)
  {
    if a > 0 {
      Pow2Double(a - 1);
      assert Pow2(2 * a) == 2 * Pow2(2 * a - 1) == 4 * Pow2(2 * (a - 1));
      var p := Pow2(a - 1);
      assert (2 * p) * (2 * p) == 4 * (p * p);
    }
  }
}
