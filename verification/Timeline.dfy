/** The time axis of the historical graphs: seconds 0 to cxtime are merged into columns of sperpx seconds,
    and the column that starts at second i covers a run of consecutive cells of the sample array. */
module Timeline {
  import opened Arithmetic
  import opened Samples
  import opened Views

  // ----- columns of seconds -----

  /** The seconds of the column that starts at second i. */
  function Width(v: View, s: Interval, i: nat): nat {
    if i > Cxtime(v) then 0 else if i + s <= Cxtime(v) + 1 then s else Cxtime(v) + 1 - i
  }

  /** The first second of column n. */
  function Start(n: nat, s: Interval): nat { n * s }

  lemma StartStep(n: nat, s: Interval)
    ensures Start(n + 1, s) == Start(n, s) + s
  {
  }

  function Columns(v: View, s: Interval): nat { Cxtime(v) / s + 1 }

  /** Column n starts at a second to draw exactly if it is one of the columns. */
  lemma ColumnStarts(v: View, s: Interval, n: nat)
    ensures Start(n, s) <= Cxtime(v) <==> n < Columns(v, s)
  {
    DividesBelow(n, Cxtime(v), s);
  }

  lemma StartOver(n: nat, s: Interval)
    ensures Start(n, s) / s == n
  {
    DividesBelow(n, Start(n, s), s);
    DividesBelow(n + 1, Start(n, s), s);
    MulStep(n, n + 1, s);
  }

  predicate InColumn(v: View, s: Interval, n: nat, t: nat) {
    Start(n, s) <= t < Start(n, s) + Width(v, s, Start(n, s))
  }

  /** Second t belongs to column n of s seconds: the clock has passed it, or it is the first one. */
  predicate InPast(v: View, s: Interval, n: nat, t: nat) { (t < v.curtime || t == 0) && n == t / s }

  /** The columns partition the seconds: every second before the clock is in exactly one column, and no column
      holds any other second, except that the first second is always drawn. */
  lemma ColumnsPartition(v: View, s: Interval, t: nat, n: nat)
    ensures n < Columns(v, s) && InColumn(v, s, n, t) <==> (t < v.curtime || t == 0) && n == t / s
  {
    DividesBelow(n, t, s);
    DividesBelow(n + 1, t, s);
    StartStep(n, s);
    ColumnStarts(v, s, n);
    assert n == t / s <==> Start(n, s) <= t < Start(n + 1, s);
  }

  // ----- cells of the sample array -----

  function Offset(v: View, level: nat): nat { if level == 0 then 0 else Half(v.nsys) }

  predicate Present(v: View, k: nat, level: nat, e: nat) { At(v, k, e + Offset(v, level)) > 0 }

  function First(v: View, i: nat): nat { i * v.nsys }

  /** The number of cells of the column that starts at second i. */
  function Cells(v: View, s: Interval, i: nat): nat { Width(v, s, i) * v.nsys }

  lemma CellsStep(j: nat, i: nat, nsys: nat)
    ensures (i + j) * nsys == i * nsys + j * nsys
    ensures (j + 1) * nsys == j * nsys + nsys
  {
  }

  lemma CellInRange(v: View, second: nat, m: nat)
    requires Wf(v) && second <= Cxtime(v) && m < v.nsys
    ensures second * v.nsys + m + Half(v.nsys) < 2 * Half(v.nsys)
  {
    RowFits(second, m, v.nsys);
  }

  lemma CellOfRow(v: View, level: nat, t: nat, who: nat)
    requires level < 2
    ensures Cell(level, t, who, v.nsys) == First(v, t) + who + Offset(v, level)
  {
  }

  lemma RowOfCell(v: View, i: nat, w: nat, e: nat)
    requires First(v, i) <= e < First(v, i) + w * v.nsys
    ensures v.nsys > 0 && i <= e / v.nsys < i + w && e == First(v, e / v.nsys) + e % v.nsys
  {
    assert v.nsys > 0;
    SumTimes(i, w, v.nsys);
    DividesBelow(i, e, v.nsys);
    DividesBelow(i + w, e, v.nsys);
  }

  lemma RowInRows(v: View, i: nat, w: nat, t: nat, who: nat)
    requires i <= t < i + w && who < v.nsys
    ensures First(v, i) <= First(v, t) + who < First(v, i) + w * v.nsys
  {
    SumTimes(i, w, v.nsys);
    MulStep(t, i + w, v.nsys);
    if i < t { MulStep(i, t, v.nsys); }
  }

  /** A level has a positive sample among the cells of a column exactly if some host has one booked in some second of
      the column. */
  lemma PresentIff(v: View, s: Interval, n: nat, k: nat, level: nat)
    requires n < Columns(v, s) && level < 2
    ensures (exists e :: First(v, Start(n, s)) <= e < First(v, Start(n, s)) + Cells(v, s, Start(n, s))
                         && Present(v, k, level, e)) <==>
              exists t: nat, who: nat :: InPast(v, s, n, t) && who < v.nsys && At(v, k, Cell(level, t, who, v.nsys)) > 0
  {
    var i := Start(n, s);
    var w := Width(v, s, i);
    if e :| First(v, i) <= e < First(v, i) + Cells(v, s, i) && Present(v, k, level, e) {
      RowOfCell(v, i, w, e);
      var t, who := e / v.nsys, e % v.nsys;
      ColumnsPartition(v, s, t, n);
      CellOfRow(v, level, t, who);
      assert InPast(v, s, n, t) && At(v, k, Cell(level, t, who, v.nsys)) > 0;
    }
    if t: nat, who: nat :| InPast(v, s, n, t) && who < v.nsys && At(v, k, Cell(level, t, who, v.nsys)) > 0 {
      ColumnsPartition(v, s, t, n);
      RowInRows(v, i, w, t, who);
      CellOfRow(v, level, t, who);
      assert Present(v, k, level, First(v, t) + who);
    }
  }

  // ----- sums over the keys of a column -----

  /** The first second after column n. */
  function End(v: View, s: Interval, n: nat): nat {
    var past := if v.curtime == 0 then 1 else v.curtime;
    if n * s + s <= past then n * s + s else past
  }

  /** f over the seconds from lo to hi - 1 and all hosts. */
  function KeySum(f: (nat, nat) -> nat, nsys: nat, lo: nat, hi: nat): nat {
    SumOf((t: nat) => SumOf((m: nat) => f(t, m), 0, nsys), lo, hi)
  }

  lemma {:induction false} SumsAgree(f: nat -> nat, g: nat -> nat, lo: nat, hi: nat)
    requires forall k: nat :: lo <= k < hi ==> f(k) == g(k)
    ensures SumOf(f, lo, hi) == SumOf(g, lo, hi)
  {
    if lo < hi { SumsAgree(f, g, lo, hi - 1); }
  }

  lemma {:induction false} SumSplits(f: nat -> nat, lo: nat, mid: nat, hi: nat)
    requires lo <= mid <= hi
    ensures SumOf(f, lo, hi) == SumOf(f, lo, mid) + SumOf(f, mid, hi)
  {
    if mid < hi { SumSplits(f, lo, mid, hi - 1); }
  }

  lemma {:induction false} SumShifts(h: nat -> nat, f: nat -> nat, c: nat, n: nat)
    requires forall m: nat :: m < n ==> h(c + m) == f(m)
    ensures SumOf(h, c, c + n) == SumOf(f, 0, n)
  {
    if n > 0 { SumShifts(h, f, c, n - 1); }
  }

  /** h is f on the cells of the sample array. */
  ghost predicate OnCells(h: nat -> nat, f: (nat, nat) -> nat, nsys: nat) {
    forall t: nat, m: nat :: m < nsys ==> h(t * nsys + m) == f(t, m)
  }

  lemma RowSum(h: nat -> nat, f: (nat, nat) -> nat, nsys: nat, t: nat)
    requires OnCells(h, f, nsys)
    ensures SumOf(h, t * nsys, t * nsys + nsys) == SumOf((m: nat) => f(t, m), 0, nsys)
  {
    SumShifts(h, (m: nat) => f(t, m), t * nsys, nsys);
  }

  lemma NextRow(h: nat -> nat, nsys: nat, lo: nat, t: nat, begin: nat, end: nat)
    requires lo <= t && begin == lo * nsys && end == (t + 1) * nsys
    ensures SumOf(h, begin, end) == SumOf(h, begin, t * nsys) + SumOf(h, t * nsys, t * nsys + nsys)
  {
    SumTimes(t, 1, nsys);
    if lo < t { MulStep(lo, t, nsys); }
    SumSplits(h, begin, t * nsys, end);
  }

  /** Summing cell by cell is summing key by key. */
  lemma {:induction false} CellsAreKeys(h: nat -> nat, f: (nat, nat) -> nat, nsys: nat, lo: nat, hi: nat)
    requires lo <= hi && OnCells(h, f, nsys)
    ensures SumOf(h, lo * nsys, hi * nsys) == KeySum(f, nsys, lo, hi)
    decreases hi
  {
    if lo < hi {
      CellsAreKeys(h, f, nsys, lo, hi - 1);
      NextRow(h, nsys, lo, hi - 1, lo * nsys, hi * nsys);
      RowSum(h, f, nsys, hi - 1);
    }
  }

  lemma ColumnEnds(v: View, s: Interval, n: nat)
    requires n < Columns(v, s)
    ensures n * s < End(v, s, n) == Start(n, s) + Width(v, s, Start(n, s))
    ensures First(v, Start(n, s)) + Cells(v, s, Start(n, s)) == End(v, s, n) * v.nsys
  {
    ColumnStarts(v, s, n);
    SumTimes(Start(n, s), Width(v, s, Start(n, s)), v.nsys);
  }

  /** The cells of a column are its keys. */
  lemma ColumnCellsAreKeys(v: View, s: Interval, n: nat, h: nat -> nat, f: (nat, nat) -> nat)
    requires n < Columns(v, s) && OnCells(h, f, v.nsys)
    ensures var c, q := First(v, Start(n, s)), Cells(v, s, Start(n, s));
            SumOf(h, c, c + q) == KeySum(f, v.nsys, n * s, End(v, s, n))
  {
    ColumnEnds(v, s, n);
    CellsAreKeys(h, f, v.nsys, n * s, End(v, s, n));
  }
}
