/** The CPU load pcapper reports: once a second it sums the busy counters of the kernel, averaged over the
    processors, and sends the low 16 bits of the growth since the second before. */
module CpuReport {
  import opened Arithmetic

  const S_IDLE: nat := 3
  const S_TOT: nat := 7
  const S_MAX: nat := 8

  const WORD: nat := 0x1_0000_0000_0000_0000
  const HALF: nat := 0x1_0000

  type Word = n: nat | n < WORD

  /** What readstat leaves behind: the seven counters, and the number of processors or an error. */
  datatype Sample = Sample(counters: seq<Word>, ncpu: int)

  type Reading = r: Sample | |r.counters| == S_TOT witness Sample([0, 0, 0, 0, 0, 0, 0], 1)

  // ----- unsigned arithmetic -----

  function Plus(a: Word, b: Word): Word { if a + b < WORD then a + b else a + b - WORD }

  function Minus(a: Word, b: Word): Word { if a >= b then a - b else a + WORD - b }

  // ----- one second -----

  /** A failed reading is used as if there were one processor. */
  function Processors(r: Reading): (n: nat)
    ensures n >= 1
  {
    if r.ncpu < 1 then 1 else r.ncpu
  }

  function Quotient(x: Word, n: nat): Word
    requires n >= 1
  {
    x / n
  }

  /** The busy counters before i, averaged, in unsigned arithmetic. */
  function Busy(r: Reading, i: nat): Word
    requires i <= S_TOT
  {
    if i == 0 then 0
    else if i - 1 == S_IDLE then Busy(r, i - 1)
    else Plus(Busy(r, i - 1), Quotient(r.counters[i - 1], Processors(r)))
  }

  function Total(r: Reading): Word { Busy(r, S_TOT) }

  lemma PlusCarries(a: Word, b: Word) returns (k: nat)
    ensures a + b == Plus(a, b) + k * WORD
  {
    k := if a + b < WORD then 0 else 1;
  }

  lemma SixTerms(a: Word, b: Word, c: Word, d: Word, e: Word, f: Word) returns (k: nat)
    ensures a + b + c + d + e + f == Plus(Plus(Plus(Plus(Plus(a, b), c), d), e), f) + k * WORD
  {
    var k1 := PlusCarries(a, b);
    var k2 := PlusCarries(Plus(a, b), c);
    var k3 := PlusCarries(Plus(Plus(a, b), c), d);
    var k4 := PlusCarries(Plus(Plus(Plus(a, b), c), d), e);
    var k5 := PlusCarries(Plus(Plus(Plus(Plus(a, b), c), d), e), f);
    k := k1 + k2 + k3 + k4 + k5;
  }

  lemma Remainder(x: Word, k: nat, sum: nat)
    requires sum == x + k * WORD
    ensures x == sum % 0x1_0000_0000_0000_0000
  {
  }

  lemma TotalIsPlus(r: Reading, q: seq<Word>)
    requires |q| == S_TOT && forall i :: 0 <= i < S_TOT ==> q[i] == Quotient(r.counters[i], Processors(r))
    ensures Total(r) == Plus(Plus(Plus(Plus(Plus(q[0], q[1]), q[2]), q[4]), q[5]), q[6])
  {
    assert Busy(r, 1) == q[0];
    assert Busy(r, 3) == Plus(Plus(q[0], q[1]), q[2]);
    assert Busy(r, 4) == Busy(r, 3);
    assert Busy(r, 6) == Plus(Plus(Busy(r, 4), q[4]), q[5]);
  }

  /** The busy total: the sum of all counters but the fourth, each divided by the number of processors, which is taken
      to be 1 if it is not known, in 64 bits. */
  lemma TotalIsSum(r: Reading, n: int, sum: nat)
    requires n == (if r.ncpu < 1 then 1 else r.ncpu)
    requires var c := r.counters; sum == c[0] / n + c[1] / n + c[2] / n + c[4] / n + c[5] / n + c[6] / n
    ensures Total(r) == sum % 0x1_0000_0000_0000_0000
  {
    var q: seq<Word> := seq(S_TOT, i requires 0 <= i < S_TOT => Quotient(r.counters[i], Processors(r)));
    TotalIsPlus(r, q);
    var k := SixTerms(q[0], q[1], q[2], q[4], q[5], q[6]);
    Remainder(Total(r), k, sum);
  }

  /** What is sent when the busy total goes from a to b. */
  function Report(a: Word, b: Word): (h: nat)
    ensures h < HALF
  {
    Minus(b, a) % HALF
  }

  /** The low 16 bits of the difference. */
  lemma ReportIsDifference(a: Word, b: Word)
    ensures Report(a, b) == (b as int - a as int) % 0x1_0000
  {
  }

  // ----- the sampling loop -----

  /** watchstat's two sets of counters. */
  class Watcher {
    const orig: array<Word>
    const data: array<Word>

    /** Between two samples, orig holds the counters and the busy total of the last one. */
    ghost predicate Holds(total: Word)
      reads orig, data
    {
      orig != data && orig.Length == data.Length == S_MAX && orig[S_TOT] == total
    }

    /** The sum over the counters, into the cell after them. */
    static method SumUp(a: array<Word>, r: Reading)
      requires a.Length == S_MAX && a[..S_TOT] == r.counters
      modifies a
      ensures a[..] == r.counters + [Total(r)]
    {
      var ncpu := if r.ncpu < 1 then 1 else r.ncpu;
      a[S_TOT] := 0;
      for i := 0 to S_TOT
        invariant a[S_TOT] == Busy(r, i) && a[..S_TOT] == r.counters
      {
        if i != S_IDLE {
          assert a[..S_TOT][i] == a[i];
          a[S_TOT] := Plus(a[S_TOT], Quotient(a[i], ncpu));
        }
      }
    }

    static method Read(a: array<Word>, r: Reading)
      requires a.Length == S_MAX
      modifies a
      ensures a[..S_TOT] == r.counters
    {
      for i := 0 to S_TOT
        invariant a[..i] == r.counters[..i]
      {
        a[i] := r.counters[i];
      }
    }

    /** The first reading; the caller gives up when it fails. */
    constructor (first: Reading)
      requires first.ncpu >= 1
      ensures fresh(orig) && fresh(data) && Holds(Total(first))
    {
      orig, data := new Word[S_MAX](_ => 0), new Word[S_MAX](_ => 0);
      new;
      Read(orig, first);
      SumUp(orig, first);
    }

    /** One round of the loop. */
    method Sample(r: Reading, ghost before: Word) returns (h: nat)
      requires Holds(before)
      modifies orig, data
      ensures Holds(Total(r)) && h == Report(before, Total(r))
    {
      Read(data, r);
      SumUp(data, r);
      h := Minus(data[S_TOT], orig[S_TOT]) % HALF;
      forall i | 0 <= i < S_MAX {
        orig[i] := data[i];
      }
    }
  }

  function Totals(readings: seq<Reading>): seq<Word> {
    seq(|readings|, i requires 0 <= i < |readings| => Total(readings[i]))
  }

  /** What is sent over a run of busy totals. */
  function Reports(totals: seq<Word>): (reports: seq<nat>)
    ensures |totals| > 0 ==> |reports| == |totals| - 1
  {
    if |totals| < 2 then []
    else Reports(totals[..|totals| - 1]) + [Report(totals[|totals| - 2], totals[|totals| - 1])]
  }

  /** watchstat, for as many rounds as there are readings after the first. */
  method Watch(readings: seq<Reading>) returns (reports: seq<nat>)
    requires |readings| > 0 && readings[0].ncpu >= 1
    ensures reports == Reports(Totals(readings))
  {
    var w := new Watcher(readings[0]);
    reports := [];
    ghost var totals := Totals(readings);
    for n := 1 to |readings|
      invariant fresh(w.orig) && fresh(w.data) && w.Holds(totals[n - 1])
      invariant reports == Reports(totals[..n])
    {
      var h := w.Sample(readings[n], totals[n - 1]);
      reports := reports + [h];
      assert totals[..n + 1][..n] == totals[..n];
    }
    assert totals[..|readings|] == totals;
  }

  // ----- the reports telescope -----

  function Sum(s: seq<nat>): nat {
    if s == [] then 0 else Sum(s[..|s| - 1]) + s[|s| - 1]
  }

  /** Equal modulo 2^16. */
  predicate Same16(a: int, b: int) { (a - b) % HALF == 0 }

  function Growth(a: Word, b: Word): int { b as int - a as int }

  lemma ReportIsGrowth(a: Word, b: Word)
    ensures Same16(Report(a, b), Growth(a, b))
    ensures b >= a ==> Report(a, b) <= Growth(a, b)
    ensures b >= a ==> (Report(a, b) == Growth(a, b) <==> Growth(a, b) < HALF)
    ensures b < a ==> Report(a, b) > Growth(a, b)
  {
  }

  /** From the first total to the last. */
  function Net(totals: seq<Word>): int
    requires |totals| > 0
  {
    Growth(totals[0], totals[|totals| - 1])
  }

  lemma ReportsStep(totals: seq<Word>)
    requires |totals| >= 2
    ensures var n := |totals|;
            && Sum(Reports(totals)) == Sum(Reports(totals[..n - 1])) + Report(totals[n - 2], totals[n - 1])
            && Net(totals) == Net(totals[..n - 1]) + Growth(totals[n - 2], totals[n - 1])
  {
    var n := |totals|;
    assert Reports(totals)[..n - 2] == Reports(totals[..n - 1]);
    ReportIsGrowth(totals[n - 2], totals[n - 1]);
  }

  /** However the totals move, the sum of the reports is the growth from first to last modulo 2^16. */
  lemma {:induction false} ReportsTelescope(totals: seq<Word>)
    requires |totals| > 0
    ensures Same16(Sum(Reports(totals)), Net(totals))
  {
    if |totals| >= 2 {
      ReportsTelescope(totals[..|totals| - 1]);
      ReportsStep(totals);
      ReportIsGrowth(totals[|totals| - 2], totals[|totals| - 1]);
    }
  }

  /** The totals never decrease. */
  predicate Rising(totals: seq<Word>) { forall k :: 0 < k < |totals| ==> totals[k - 1] <= totals[k] }

  /** Every second's growth fits into a report. */
  predicate Small(totals: seq<Word>) { forall k :: 0 < k < |totals| ==> Growth(totals[k - 1], totals[k]) < HALF }

  lemma RisingIff(totals: seq<Word>)
    requires |totals| >= 2
    ensures var n := |totals|; Rising(totals) <==> Rising(totals[..n - 1]) && totals[n - 2] <= totals[n - 1]
  {
  }

  lemma SmallIff(totals: seq<Word>)
    requires |totals| >= 2
    ensures var n := |totals|;
            Small(totals) <==> Small(totals[..n - 1]) && Growth(totals[n - 2], totals[n - 1]) < HALF
  {
  }

  /** Over totals that never decrease, the reports add up to the growth exactly if no second's growth is cut,
      and otherwise to less. */
  lemma {:induction false} RisingReportsAddUpIff(totals: seq<Word>)
    requires |totals| > 0 && Rising(totals)
    ensures Sum(Reports(totals)) <= Net(totals)
    ensures Sum(Reports(totals)) == Net(totals) <==> Small(totals)
  {
    var n := |totals|;
    if n >= 2 {
      RisingIff(totals);
      SmallIff(totals);
      RisingReportsAddUpIff(totals[..n - 1]);
      ReportsStep(totals);
      ReportIsGrowth(totals[n - 2], totals[n - 1]);
    }
  }

  /** If no growth is cut, the reports add up exactly if the totals never decrease, and otherwise to more. */
  lemma {:induction false} SmallReportsAddUpIff(totals: seq<Word>)
    requires |totals| > 0 && Small(totals)
    ensures Sum(Reports(totals)) >= Net(totals)
    ensures Sum(Reports(totals)) == Net(totals) <==> Rising(totals)
  {
    var n := |totals|;
    if n >= 2 {
      RisingIff(totals);
      SmallIff(totals);
      SmallReportsAddUpIff(totals[..n - 1]);
      ReportsStep(totals);
      ReportIsGrowth(totals[n - 2], totals[n - 1]);
    }
  }

  // ----- when totals decrease -----

  lemma QuotientGrows(x: nat, n: nat, x': nat, n': nat)
    requires 1 <= n' <= n && x <= x'
    ensures x / n <= x' / n'
  {
    var q := x / n;
    assert q * n <= x;
    assert q * n' <= q * n;
    DividesBelow(q, x', n');
  }

  /** The sum before i does not wrap around. */
  predicate NoWrap(r: Reading, i: nat)
    requires i <= S_TOT
  {
    i == 0
    || (NoWrap(r, i - 1)
        && (i - 1 == S_IDLE || Busy(r, i - 1) + Quotient(r.counters[i - 1], Processors(r)) < WORD))
  }

  /** Kernel counters only grow, so the busy total only decreases when a reading counts more processors than
      the one before it. */
  lemma {:induction false} TotalsRise(r: Reading, r': Reading, i: nat)
    requires i <= S_TOT && NoWrap(r, i) && NoWrap(r', i)
    requires Processors(r') <= Processors(r)
    requires Grown(r, r')
    ensures Busy(r, i) <= Busy(r', i)
  {
    if i > 0 {
      TotalsRise(r, r', i - 1);
      QuotientGrows(r.counters[i - 1], Processors(r), r'.counters[i - 1], Processors(r'));
    }
  }

  predicate Grown(r: Reading, r': Reading) { forall j :: 0 <= j < S_TOT ==> r.counters[j] <= r'.counters[j] }

  /** Whatever the kernel counts, from n processors to n' the total does not decrease. */
  ghost predicate AlwaysRises(n: nat, n': nat) {
    forall r: Reading, r': Reading ::
      Grown(r, r') && Processors(r) == n && Processors(r') == n' && NoWrap(r, S_TOT) && NoWrap(r', S_TOT) ==>
        Total(r) <= Total(r')
  }

  /** And it does so exactly from one reading to another with no more processors. */
  lemma AlwaysRisesIff(n: nat, n': nat)
    requires 1 <= n < 0x8000_0000 && 1 <= n' < 0x8000_0000
    ensures AlwaysRises(n, n') <==> n' <= n
  {
    if n' <= n {
      forall r: Reading, r': Reading |
        Grown(r, r') && Processors(r) == n && Processors(r') == n' && NoWrap(r, S_TOT) && NoWrap(r', S_TOT)
        ensures Total(r) <= Total(r')
      {
        TotalsRise(r, r', S_TOT);
      }
    } else {
      ProductFits(n, n');
      var x := n * n';
      var r, r' := Sample([x, 0, 0, 0, 0, 0, 0], n), Sample([x, 0, 0, 0, 0, 0, 0], n');
      TotalOfOne(r, x, n');
      TotalOfOne(r', x, n);
      assert Grown(r, r') && Total(r) > Total(r');
    }
  }

  lemma TimesAtMost(a: nat, b: nat, n: nat)
    requires a <= b
    ensures a * n <= b * n
  {
    MulStep(a, b, n);
  }

  lemma ProductFits(n: nat, n': nat)
    requires 1 <= n < 0x8000_0000 && 1 <= n' < 0x8000_0000
    ensures n * n' < WORD && (n * n') / n == n' && (n * n') / n' == n
  {
    TimesAtMost(n, 0x8000_0000, n');
    Cancel(n * n', n', n);
    Cancel(n * n', n, n');
  }

  // ----- what a failed reading does -----

  /** A failed reading stands for the counters of a reading with its real number of processors. */
  predicate FailedCopy(r: Reading, r': Reading) { r'.counters == r.counters && r'.ncpu < 1 }

  /** Some busy counter before i is not zero. */
  predicate AnyBusy(r: Reading, i: nat)
    requires i <= S_TOT
  {
    exists j :: 0 <= j < i && j != S_IDLE && r.counters[j] > 0
  }

  lemma QuotientIsAllIff(x: nat, n: nat)
    requires n >= 1
    ensures x / n <= x
    ensures x / n == x <==> n == 1 || x == 0
  {
    if n > 1 && x > 0 {
      assert x == (x / n) * n + x % n;
      if x / n == x { MulStep(1, n, x); }
    }
  }

  /** A failed reading never lowers the total, and leaves it as it is exactly if there is one processor or
      no busy counter is above zero. */
  lemma {:induction false} FailedTotalIff(r: Reading, r': Reading, i: nat)
    requires FailedCopy(r, r') && i <= S_TOT && NoWrap(r, i) && NoWrap(r', i)
    ensures Busy(r, i) <= Busy(r', i)
    ensures Busy(r, i) == Busy(r', i) <==> Processors(r) == 1 || !AnyBusy(r, i)
  {
    if i > 0 {
      FailedTotalIff(r, r', i - 1);
      QuotientIsAllIff(r.counters[i - 1], Processors(r));
      assert AnyBusy(r, i) <==> AnyBusy(r, i - 1) || (i - 1 != S_IDLE && r.counters[i - 1] > 0);
    }
  }

  /** So a failed reading changes the report, whatever the total before it, exactly if the excess of its
      total is not a multiple of 2^16; there is no excess with one processor or nothing busy. */
  lemma FailedReportIff(before: Word, r: Reading, r': Reading)
    requires FailedCopy(r, r') && NoWrap(r, S_TOT) && NoWrap(r', S_TOT)
    ensures Report(before, Total(r')) == Report(before, Total(r)) <==> Growth(Total(r), Total(r')) % HALF == 0
    ensures Growth(Total(r), Total(r')) >= 0
    ensures Growth(Total(r), Total(r')) == 0 <==> Processors(r) == 1 || !AnyBusy(r, S_TOT)
  {
    FailedTotalIff(r, r', S_TOT);
    ReportIsGrowth(before, Total(r));
    ReportIsGrowth(before, Total(r'));
    SameResidue(Report(before, Total(r)), Growth(before, Total(r)),
                Report(before, Total(r')), Growth(before, Total(r')));
  }

  lemma SameResidue(h: nat, g: int, h': nat, g': int)
    requires h < HALF && h' < HALF && Same16(h, g) && Same16(h', g')
    ensures h == h' <==> (g' - g) % HALF == 0
  {
  }

  /** A host that does nothing between good readings is reported as doing nothing around a failed one exactly
      under the same condition: the excess and its way back are both reported. */
  lemma FailedReadingInflatesIff(r: Reading, r': Reading)
    requires FailedCopy(r, r') && NoWrap(r, S_TOT) && NoWrap(r', S_TOT)
    ensures var g := Growth(Total(r), Total(r'));
            && Reports(Totals([r, r, r', r])) == [0, g % HALF, (-g) % HALF]
            && (Reports(Totals([r, r, r', r])) == [0, 0, 0] <==> g % HALF == 0)
  {
    FailedTotalIff(r, r', S_TOT);
    var t, t' := Total(r), Total(r');
    assert Totals([r, r, r', r]) == [t] + [t] + [t'] + [t];
    FourReports(t, t');
    WayBack(t, t');
  }

  lemma FourReports(t: Word, t': Word)
    ensures Reports([t] + [t] + [t'] + [t]) == [Report(t, t), Report(t, t'), Report(t', t)]
  {
    ReportsAppend([t], t);
    ReportsAppend([t] + [t], t');
    ReportsAppend([t] + [t] + [t'], t);
  }

  lemma ReportsAppend(totals: seq<Word>, t: Word)
    requires |totals| >= 1
    ensures Reports(totals + [t]) == Reports(totals) + [Report(totals[|totals| - 1], t)]
  {
    assert (totals + [t])[..|totals|] == totals;
  }

  lemma WayBack(t: Word, t': Word)
    requires t <= t'
    ensures Report(t, t) == 0 && Report(t, t') == Growth(t, t') % HALF && Report(t', t) == (-Growth(t, t')) % HALF
    ensures Growth(t, t') % HALF == 0 <==> (-Growth(t, t')) % HALF == 0
  {
  }

  /** A host with two processors that has been busy for 100 ticks and now idles: the failed reading reports 50
      ticks, and the next good one almost 2^16. */
  lemma FailedReadingInflates()
    ensures var ok, bad := Sample([100, 0, 0, 0, 0, 0, 0], 2), Sample([100, 0, 0, 0, 0, 0, 0], -1);
            Reports(Totals([ok, ok, bad, ok])) == [0, 50, HALF - 50]
  {
    var ok, bad := Sample([100, 0, 0, 0, 0, 0, 0], 2), Sample([100, 0, 0, 0, 0, 0, 0], -1);
    TotalOfOne(ok, 100, 50);
    TotalOfOne(bad, 100, 100);
    FailedReadingInflatesIff(ok, bad);
  }

  lemma TotalOfOne(r: Reading, x: Word, t: nat)
    requires r.counters == [x, 0, 0, 0, 0, 0, 0] && t == x / Processors(r)
    ensures Total(r) == t && NoWrap(r, S_TOT)
  {
    assert Quotient(0, Processors(r)) == 0;
    assert Busy(r, 1) == t && NoWrap(r, 1);
    assert Busy(r, 2) == t && NoWrap(r, 2);
    assert Busy(r, 3) == t && NoWrap(r, 3);
    assert Busy(r, 4) == t && NoWrap(r, 4);
    assert Busy(r, 5) == t && NoWrap(r, 5);
    assert Busy(r, 6) == t && NoWrap(r, 6);
  }
}
