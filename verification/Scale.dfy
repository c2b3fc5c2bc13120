/** The vertical scale of every graph: `roundup` picks the top of the y axis from a grid of round numbers,
    and bar heights are rounded up to whole pixels.  Doubles are modelled as reals. */
module Scale {

  // ----- ceil -----

  function Ceil(x: real): int { -((-x).Floor) }

  lemma CeilBounds(x: real)
    ensures x <= Ceil(x) as real < x + 1.0
  {
  }

  lemma CeilAtMost(x: real, n: int)
    ensures Ceil(x) <= n <==> x <= n as real
  {
  }

  lemma CeilMonotone(x: real, y: real)
    requires x <= y
    ensures Ceil(x) <= Ceil(y)
  {
    CeilAtMost(x, Ceil(y));
  }

  // ----- roundup -----

  function Pow10(b: nat): real { if b == 0 then 1.0 else 10.0 * Pow10(b - 1) }

  const LAST: nat := 108

  /** The grid 10, 20, ..., 90, 100, 200, ..., 9*10^12, 10^13 in increasing order. */
  function Grid(k: nat): real { GridValue(k / 9 + 1, k % 9 + 1) }

  function GridValue(b: nat, d: nat): real { Times(d, Pow10(b)) }

  function Times(d: nat, p: real): real { d as real * p }

  const TOP: real := 10_000_000_000_000.0

  /** The first grid value from the k-th on that is at least x, or the last one. */
  function Search(x: real, k: nat): real
    requires k <= LAST
    decreases LAST - k
  {
    if k == LAST || x <= Grid(k) then Grid(k) else Search(x, k + 1)
  }

  function Rounded(x: real): real { Search(x, 0) }

  method RoundUp(x: real) returns (v: real)
    ensures v == Rounded(x)
  {
    var rv := 1.0;
    for base := 1 to 13
      invariant rv == Pow10(base - 1)
      invariant Rounded(x) == Search(x, 9 * (base - 1))
    {
      rv := rv * 10.0;
      for i := 1 to 10
        invariant Rounded(x) == Search(x, 9 * (base - 1) + (i - 1))
      {
        SearchStep(x, base, i);
        if x <= Times(i, rv) {
          return Times(i, rv);
        }
      }
    }
    GridAt(13, 1);
    return Times(10, rv);
  }

  lemma SearchStep(x: real, base: nat, i: nat)
    requires 1 <= base <= 12 && 1 <= i <= 9
    ensures Search(x, 9 * (base - 1) + (i - 1)) ==
              if x <= Times(i, Pow10(base)) then Times(i, Pow10(base)) else Search(x, 9 * (base - 1) + i)
  {
    GridAt(base, i);
  }

  lemma DivNine(q: nat, r: nat)
    requires r < 9
    ensures (9 * q + r) / 9 == q && (9 * q + r) % 9 == r
  {
  }

  lemma GridAt(base: nat, i: nat)
    requires base >= 1 && 1 <= i <= 9
    ensures Grid(9 * (base - 1) + (i - 1)) == GridValue(base, i)
  {
    DivNine(base - 1, i - 1);
    GridIs(9 * (base - 1) + (i - 1), base, i);
  }

  lemma GridIs(k: nat, b: nat, d: nat)
    requires k / 9 == b - 1 && k % 9 == d - 1
    ensures Grid(k) == GridValue(b, d)
  {
  }

  lemma {:induction false} Pow10Positive(b: nat)
    ensures Pow10(b) >= 1.0
  {
    if b > 0 { Pow10Positive(b - 1); }
  }

  lemma GridSteps(k: nat)
    ensures Grid(k) < Grid(k + 1) <= 2.0 * Grid(k)
    ensures Grid(k) >= 10.0
  {
    var b, d := k / 9 + 1, k % 9 + 1;
    Pow10Positive(b);
    Pow10Positive(b - 1);
    GridAt(b, d);
    assert Times(d, Pow10(b)) >= Pow10(b);
    if d < 9 {
      GridAt(b, d + 1);
      assert Times(d + 1, Pow10(b)) == Times(d, Pow10(b)) + Pow10(b);
    } else {
      GridAt(b + 1, 1);
    }
  }

  lemma {:induction false} GridIncreases(j: nat, k: nat)
    requires j <= k
    ensures Grid(j) <= Grid(k)
    decreases k - j
  {
    if j < k {
      GridSteps(j);
      GridIncreases(j + 1, k);
    }
  }

  lemma TopOfGrid()
    ensures Grid(LAST) == TOP
  {
    GridAt(13, 1);
    assert Pow10(1) == 10.0;
    assert Pow10(3) == 1000.0;
    assert Pow10(5) == 100000.0;
    assert Pow10(7) == 10000000.0;
    assert Pow10(9) == 1000000000.0;
    assert Pow10(11) == 100000000000.0;
  }

  lemma {:induction false} SearchFinds(x: real, k: nat)
    requires k <= LAST && (k == 0 || x > Grid(k - 1))
    ensures exists n :: 0 <= n <= LAST && Search(x, k) == Grid(n) && (n == 0 || x > Grid(n - 1))
    ensures x <= TOP ==> x <= Search(x, k)
    decreases LAST - k
  {
    TopOfGrid();
    if k == LAST || x <= Grid(k) {
    } else {
      SearchFinds(x, k + 1);
    }
  }

  /** Up to 10^13, roundup returns the least grid value that is at least x; beyond, it returns 10^13. */
  lemma RoundedIsLeast(x: real)
    ensures x <= TOP ==> x <= Rounded(x)
    ensures exists n :: 0 <= n <= LAST && Rounded(x) == Grid(n)
    ensures forall n :: 0 <= n <= LAST && x <= Grid(n) ==> Rounded(x) <= Grid(n)
    ensures x > TOP ==> Rounded(x) == TOP
  {
    SearchFinds(x, 0);
    var m :| 0 <= m <= LAST && Rounded(x) == Grid(m) && (m == 0 || x > Grid(m - 1));
    forall n | 0 <= n <= LAST && x <= Grid(n) ensures Rounded(x) <= Grid(n) {
      if n < m { GridIncreases(n, m - 1); }
      GridIncreases(if m <= n then m else n, n);
    }
    if x > TOP {
      TopOfGrid();
      if m < LAST {
        GridIncreases(m, LAST);
        SearchStops(x, 0);
      }
    }
  }

  lemma RoundedCovers(x: real)
    ensures x <= TOP ==> x <= Rounded(x)
    ensures x > TOP ==> Rounded(x) == TOP
  {
    RoundedIsLeast(x);
  }

  lemma {:induction false} SearchStops(x: real, k: nat)
    requires k <= LAST && x > TOP
    ensures Search(x, k) == TOP
    decreases LAST - k
  {
    TopOfGrid();
    GridIncreases(k, LAST);
    if k < LAST { SearchStops(x, k + 1); }
  }

  /** roundup never returns less than 10, so scales are never divided by zero. */
  lemma RoundedAtLeastTen(x: real)
    ensures Rounded(x) >= 10.0
  {
    RoundedIsLeast(x);
    var n :| 0 <= n <= LAST && Rounded(x) == Grid(n);
    GridSteps(n);
  }

  lemma RoundedMonotone(x: real, y: real)
    requires x <= y
    ensures Rounded(x) <= Rounded(y)
  {
    RoundedIsLeast(x);
    RoundedIsLeast(y);
    TopOfGrid();
    var n :| 0 <= n <= LAST && Rounded(x) == Grid(n);
    GridIncreases(n, LAST);
  }

  lemma RoundedIdempotent(x: real)
    ensures Rounded(Rounded(x)) == Rounded(x)
  {
    RoundedIsLeast(x);
    RoundedIsLeast(Rounded(x));
    TopOfGrid();
    var n :| 0 <= n <= LAST && Rounded(x) == Grid(n);
    GridIncreases(n, LAST);
  }

  /** The axis is never twice as high as the data needs. */
  lemma RoundedBelowDouble(x: real)
    requires 10.0 < x <= TOP
    ensures Rounded(x) < 2.0 * x
  {
    SearchFinds(x, 0);
    var n :| 0 <= n <= LAST && Rounded(x) == Grid(n) && (n == 0 || x > Grid(n - 1));
    if n == 0 {
      assert Pow10(1) == 10.0;
    } else {
      GridSteps(n - 1);
    }
  }

  // ----- the grid in plain numbers -----

  /** 10, 100, ..., 10^12. */
  const POWERS: seq<nat> :=
    [10, 100, 1_000, 10_000, 100_000, 1_000_000, 10_000_000, 100_000_000, 1_000_000_000, 10_000_000_000,
     100_000_000_000, 1_000_000_000_000]

  function DigitTimes(d: nat, b: nat): nat
    requires b < |POWERS|
  {
    d * POWERS[b]
  }

  /** A digit times a power of ten up to 10^12, or 10^13. */
  predicate IsRound(y: nat) {
    y == 10_000_000_000_000 || exists d: nat, b: nat :: 1 <= d <= 9 && b < |POWERS| && y == DigitTimes(d, b)
  }

  lemma PowersAre(b: nat)
    requires b < |POWERS|
    ensures Pow10(b + 1) == POWERS[b] as real
  {
    assert Pow10(1) == 10.0;
    assert Pow10(3) == 1000.0;
    assert Pow10(5) == 100000.0;
    assert Pow10(7) == 10000000.0;
    assert Pow10(9) == 1000000000.0;
    assert Pow10(11) == 100000000000.0;
  }

  lemma DigitTimesPower(d: nat, b: nat)
    requires b < |POWERS|
    ensures GridValue(b + 1, d) == DigitTimes(d, b) as real
  {
    PowersAre(b);
  }

  lemma GridIsRound(n: nat)
    requires n <= LAST
    ensures exists y: nat :: IsRound(y) && Grid(n) == y as real
  {
    if n == LAST {
      TopOfGrid();
      assert IsRound(10_000_000_000_000);
    } else {
      DigitTimesPower(n % 9 + 1, n / 9);
      assert IsRound(DigitTimes(n % 9 + 1, n / 9));
    }
  }

  lemma RoundIsOnGrid(y: nat)
    requires IsRound(y)
    ensures exists n :: 0 <= n <= LAST && Grid(n) == y as real
  {
    if y == 10_000_000_000_000 {
      TopOfGrid();
    } else {
      var d: nat, b: nat :| 1 <= d <= 9 && b < |POWERS| && y == DigitTimes(d, b);
      GridAt(b + 1, d);
      DigitTimesPower(d, b);
      assert Grid(9 * b + (d - 1)) == y as real;
    }
  }

  /** Up to 10^13, roundup returns the least number that is a digit times a power of ten, from 10 on, and at least x. */
  lemma RoundedIsLeastRound(x: real)
    requires x <= 10_000_000_000_000.0
    ensures exists y: nat :: IsRound(y) && Rounded(x) == y as real
    ensures x <= Rounded(x) && forall y: nat :: IsRound(y) && x <= y as real ==> Rounded(x) <= y as real
  {
    RoundedIsLeast(x);
    var m :| 0 <= m <= LAST && Rounded(x) == Grid(m);
    GridIsRound(m);
    forall y: nat | IsRound(y) && x <= y as real ensures Rounded(x) <= y as real {
      RoundIsOnGrid(y);
    }
  }
}
