/** Times of day, as src/timeval.c computes with them. */
module Timeval {
  datatype Timeval = Timeval(sec: int, usec: int)

  // microseconds since the epoch
  function Micros(t: Timeval): int { t.sec * 1000000 + t.usec }

  // what gettimeofday returns
  predicate Normal(t: Timeval) { 0 <= t.usec < 1000000 }

  const UINT_MODULUS: int := 0x1_0000_0000

  // the microseconds added by timeval_adjust: an unsigned 32-bit product
  function Step(ms: int): int { (ms * 1000) % UINT_MODULUS }

  // the time that far after tv
  function Adjusted(tv: Timeval, ms: int): (r: Timeval)
    ensures Normal(r) && Micros(r) == Micros(tv) + Step(ms)
  {
    var m := Micros(tv) + Step(ms);
    Timeval(m / 1000000, m % 1000000)
  }

  // no wrap-around below 2^32 microseconds, and never a longer step
  lemma StepSmall(ms: int)
    ensures 0 <= ms <= 4294967 ==> Step(ms) == ms * 1000
    ensures 0 <= Step(ms) < UINT_MODULUS && (ms >= 0 ==> Step(ms) <= ms * 1000)
  {
    assert ms >= 0 ==> (ms * 1000) % UINT_MODULUS <= ms * 1000;
  }

  // timeval_adjust
  method Adjust(tv: Timeval, ms: int) returns (r: Timeval)
    requires Normal(tv) && 0 <= ms < UINT_MODULUS
    ensures r == Adjusted(tv, ms)
  {
    hide Adjusted, Step;
    StepSmall(ms);
    r := tv.(usec := tv.usec + Step(ms));
    while r.usec >= 1000000
      invariant 0 <= r.usec && Micros(r) == Micros(tv) + Step(ms)
      decreases r.usec
    {
      r := Timeval(r.sec + 1, r.usec - 1000000);
    }
    NormalUnique(r, Adjusted(tv, ms));
  }

  // a normal time is its microsecond count and nothing else
  lemma NormalUnique(a: Timeval, b: Timeval)
    requires Normal(a) && Normal(b) && Micros(a) == Micros(b)
    ensures a == b
  {
    assert a.sec == Micros(a) / 1000000 && b.sec == Micros(b) / 1000000;
  }

  // C division, towards zero
  function TruncDiv(a: int, b: int): int
    requires b > 0
  {
    if a >= 0 then a / b else -((-a) / b)
  }

  // time_elapsed, in milliseconds
  function Elapsed(start: Timeval, end: Timeval): int {
    (end.sec - start.sec) * 1000 + TruncDiv(end.usec - start.usec, 1000)
  }

  // time_since and time_from_now, given the clock reading
  function Since(tv: Timeval, now: Timeval): nat {
    if Elapsed(tv, now) < 0 then 0 else Elapsed(tv, now)
  }

  function FromNow(tv: Timeval, now: Timeval): nat {
    if Elapsed(now, tv) < 0 then 0 else Elapsed(now, tv)
  }

  // The seconds and microseconds are truncated apart, so the result may err on
  // either side, but always by less than a millisecond.
  lemma ElapsedError(start: Timeval, end: Timeval)
    ensures -1000 < Micros(end) - Micros(start) - 1000 * Elapsed(start, end) < 1000
  {
    var d := end.usec - start.usec;
    assert -1000 < d - 1000 * TruncDiv(d, 1000) < 1000;
  }

  // both signs of the error occur
  lemma ElapsedErrsBothWays(s: int)
    ensures Elapsed(Timeval(s, 0), Timeval(s, 999)) == 0
    ensures Micros(Timeval(s, 999)) - Micros(Timeval(s, 0)) == 999
    ensures Elapsed(Timeval(s, 999), Timeval(s + 1, 0)) == 1000
    ensures Micros(Timeval(s + 1, 0)) - Micros(Timeval(s, 999)) == 999001
  {
    assert TruncDiv(999, 1000) == 0 && TruncDiv(-999, 1000) == 0;
  }

  datatype Compare = Less | Equal | Greater

  // timeval_compare
  function TimevalCompare(a: Timeval, b: Timeval): Compare {
    if a.sec < b.sec then Less
    else if a.sec > b.sec then Greater
    else if a.usec < b.usec then Less
    else if a.usec > b.usec then Greater
    else Equal
  }

  // on clock readings it orders by microseconds
  lemma CompareIsMicros(a: Timeval, b: Timeval)
    requires Normal(a) && Normal(b)
    ensures TimevalCompare(a, b) == Less <==> Micros(a) < Micros(b)
    ensures TimevalCompare(a, b) == Equal <==> Micros(a) == Micros(b)
    ensures TimevalCompare(a, b) == Greater <==> Micros(a) > Micros(b)
  {
    if a.sec < b.sec { assert Micros(a) < a.sec * 1000000 + 1000000 <= b.sec * 1000000; }
    if b.sec < a.sec { assert Micros(b) < b.sec * 1000000 + 1000000 <= a.sec * 1000000; }
  }
}
