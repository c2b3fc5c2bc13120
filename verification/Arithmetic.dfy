/** Facts about products and quotients of natural numbers. */
module Arithmetic {

  lemma {:induction false} MulStep(a: nat, b: nat, n: nat)
    ensures a < b ==> a * n + n <= b * n
  {
    if a + 1 < b { MulStep(a, b - 1, n); }
  }

  lemma DividesBelow(n: nat, t: nat, s: nat)
    requires s >= 1
    ensures n * s <= t <==> n <= t / s
  {
    assert t == (t / s) * s + t % s;
    MulStep(n, t / s, s);
    MulStep(t / s, n, s);
  }

  lemma Cancel(x: nat, q: nat, n: nat)
    requires n >= 1 && x == q * n
    ensures x / n == q
  {
    DividesBelow(q, x, n);
    DividesBelow(q + 1, x, n);
    MulStep(q, q + 1, n);
  }

  /** f(lo) + ... + f(hi - 1). */
  function SumOf(f: nat -> nat, lo: nat, hi: nat): nat {
    if hi <= lo then 0 else SumOf(f, lo, hi - 1) + f(hi - 1)
  }

  lemma SumTimes(a: nat, b: nat, n: nat)
    ensures (a + b) * n == a * n + b * n
  {
  }

  lemma QuotientIsBelow(t: nat, n: nat)
    requires n > 1 && t > 0
    ensures t / n < t
  {
    DividesBelow(t, t, n);
    MulStep(1, n, t);
  }
}
