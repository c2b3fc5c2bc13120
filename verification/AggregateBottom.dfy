/** The historical aggregate graph: seconds are merged into columns of sperpx seconds; every sample is
    divided among the seconds of its column and rounded up, and every window's part of the column is
    rounded up again to whole pixels.  The pass that finds the maximum divides by the compile-time
    INTERVAL, which is 1, while the drawing pass divides by the interval of the command line. */
module AggregateBottom {
  import opened Arithmetic
  import opened Lines
  import opened Samples
  import opened Scale
  import opened Views
  import opened Timeline
  import opened ColumnLines

  /** The lines of every window, at column x. */
  datatype Column = Column(x: nat, top: int, lines: seq<seq<Line>>)

  // ----- what one sample adds -----

  /** In the maximum pass. */
  function Part(x: nat, sperpx: Interval): (r: real)
    ensures r >= 0.0
  {
    CeilAtMost(x as real / sperpx as real, -1);
    Ceil(x as real / sperpx as real) as real
  }

  /** In the drawing pass. */
  function Piece(v: View, x: nat, sperpx: Interval): real { Part(x, sperpx) / Rate(v) }

  lemma PieceAtMostPart(v: View, x: nat, sperpx: Interval)
    ensures 0.0 <= Piece(v, x, sperpx) <= Part(x, sperpx)
    ensures Piece(v, 0, sperpx) == 0.0
  {
    QuotientAtMost(Part(x, sperpx), Rate(v));
  }

  lemma QuotientAtMost(p: real, r: real)
    requires p >= 0.0 && r >= 1.0
    ensures 0.0 <= p / r <= p
  {
    DivideTimes(p, r);
  }

  // ----- the maximum pass -----

  /** All traffic windows below n, both levels, in the cells c of one host and second. */
  function RowLoad(v: View, s: Interval, c: nat, n: nat): real {
    if n <= W_OTHER then 0.0
    else RowLoad(v, s, c, n - 1) + Part(At(v, n - 1, c), s) + Part(At(v, n - 1, c + Half(v.nsys)), s)
  }

  /** The first j seconds of the column from second i, for host m. */
  function HostLoad(v: View, s: Interval, i: nat, m: nat, j: nat): real {
    if j == 0 then 0.0
    else HostLoad(v, s, i, m, j - 1) + RowLoad(v, s, (i + j - 1) * v.nsys + m, |v.store|)
  }

  /** The first m hosts, each with the first j seconds of the column. */
  function HostsLoad(v: View, s: Interval, i: nat, m: nat, j: nat): real {
    if m == 0 then 0.0 else HostsLoad(v, s, i, m - 1, j) + HostLoad(v, s, i, m - 1, j)
  }

  function ColumnLoad(v: View, s: Interval, i: nat): real { HostsLoad(v, s, i, v.nsys, Width(v, s, i)) }

  /** The load of each column. */
  function LoadsOf(v: View, s: Interval): nat -> real { (n: nat) => ColumnLoad(v, s, Start(n, s)) }

  function Peak(v: View, s: Interval): real { Highest(LoadsOf(v, s), Columns(v, s)) }

  /** The scale of update_multi_bottom; the peak is not divided by the interval again. */
  function YScale(v: View, s: Interval, drawh: int): real {
    ScaleFor(Peak(v, s), 1.0, (drawh - Delta(v)) as real)
  }

  /** The innermost loop: all windows of one cell. */
  method AddRow(v: View, s: Interval, c: nat, start: real) returns (ax: real)
    requires Wf(v) && c < Half(v.nsys)
    ensures ax == start + RowLoad(v, s, c, |v.store|)
  {
    ax := start;
    for k := W_OTHER to |v.store|
      invariant ax == start + RowLoad(v, s, c, k)
    {
      ax := ax + Part(v.store[k][c], s);
      ax := ax + Part(v.store[k][c + Half(v.nsys)], s);
    }
  }

  method AddHost(v: View, s: Interval, i: nat, m: nat, start: real) returns (ax: real)
    requires Wf(v) && m < v.nsys
    ensures ax == start + HostLoad(v, s, i, m, Width(v, s, i))
  {
    ax := start;
    var j := 0;
    while j < s && i + j <= Cxtime(v)
      invariant j <= Width(v, s, i)
      invariant ax == start + HostLoad(v, s, i, m, j)
    {
      CellInRange(v, i + j, m);
      ax := AddRow(v, s, (i + j) * v.nsys + m, ax);
      j := j + 1;
    }
  }

  method SumColumn(v: View, s: Interval, i: nat) returns (ax: real)
    requires Wf(v)
    ensures ax == ColumnLoad(v, s, i)
  {
    ax := 0.0;
    for m := 0 to v.nsys
      invariant ax == HostsLoad(v, s, i, m, Width(v, s, i))
    {
      ax := AddHost(v, s, i, m, ax);
    }
  }

  method FindPeak(v: View, s: Interval) returns (lmax: real)
    requires Wf(v)
    ensures lmax == Peak(v, s)
  {
    lmax := 0.0;
    var i := 0;
    ghost var n, cols := 0, Columns(v, s);
    ColumnStarts(v, s, 0);
    while i <= Cxtime(v)
      invariant i == Start(n, s) && lmax == Highest(LoadsOf(v, s), n)
      invariant 0 <= n <= cols && (i <= Cxtime(v) <==> n < cols)
      decreases cols - n
    {
      var ax := SumColumn(v, s, i);
      if lmax < ax {
        lmax := ax;
      }
      i := i + s;
      StartStep(n, s);
      n := n + 1;
      ColumnStarts(v, s, n);
    }
  }

  // ----- the drawing pass -----

  /** ax[k] and bx[k] over the first q cells from c on: the level's samples of one window. */
  function Share(v: View, s: Interval, k: nat, level: nat, c: nat, q: nat): real {
    if q == 0 then 0.0
    else Share(v, s, k, level, c, q - 1) + Piece(v, At(v, k, c + q - 1 + Offset(v, level)), s)
  }

  function ColumnShare(v: View, s: Interval, i: nat, k: nat, level: nat): real {
    Share(v, s, k, level, First(v, i), Cells(v, s, i))
  }

  function SharesOf(v: View, s: Interval, i: nat): Shares {
    Shares(
      seq(|v.store|, k => if k < W_OTHER then 0.0 else ColumnShare(v, s, i, k, 0)),
      seq(|v.store|, k => if k < W_OTHER then 0.0 else ColumnShare(v, s, i, k, 1)))
  }

  function Height(v: View, s: Interval, i: nat, y: real): int {
    Reserved(SharesOf(v, s, i), |v.store|, y)
  }

  function ColumnOf(v: View, s: Interval, i: nat, base: int, y: real): Column {
    var top := base - Height(v, s, i, y);
    Column(i / s, top, LinesOf(SharesOf(v, s, i), |v.store|, top, y))
  }

  lemma ShareGrows(v: View, s: Interval, k: nat, level: nat, c: nat, q: nat)
    ensures Share(v, s, k, level, c, q + 1)
              == Share(v, s, k, level, c, q) + Piece(v, At(v, k, c + q + Offset(v, level)), s)
  {
  }

  /** ax and bx hold the shares of the first q cells from c0 on. */
  ghost predicate Holds(v: View, s: Interval, c0: nat, q: nat, ax: array<real>, bx: array<real>)
    reads ax, bx
  {
    && ax.Length == bx.Length == |v.store|
    && (forall k :: 0 <= k < W_OTHER && k < ax.Length ==> ax[k] == bx[k] == 0.0)
    && (forall k :: W_OTHER <= k < ax.Length ==> ax[k] == Share(v, s, k, 0, c0, q))
    && (forall k :: W_OTHER <= k < ax.Length ==> bx[k] == Share(v, s, k, 1, c0, q))
  }

  /** The body of the accumulation loops: one host and second, all windows. */
  method AddCell(v: View, s: Interval, c: nat, ghost c0: nat, ghost q: nat, ax: array<real>, bx: array<real>)
    requires Wf(v) && c == c0 + q && c < Half(v.nsys)
    requires ax != bx && Holds(v, s, c0, q, ax, bx)
    modifies ax, bx
    ensures Holds(v, s, c0, q + 1, ax, bx)
  {
    for k := W_OTHER to |v.store|
      invariant forall j :: 0 <= j < W_OTHER ==> ax[j] == bx[j] == 0.0
      invariant forall j :: k <= j < |v.store| ==>
                  ax[j] == Share(v, s, j, 0, c0, q) && bx[j] == Share(v, s, j, 1, c0, q)
      invariant forall j :: W_OTHER <= j < k ==>
                  ax[j] == Share(v, s, j, 0, c0, q + 1) && bx[j] == Share(v, s, j, 1, c0, q + 1)
    {
      ShareGrows(v, s, k, 0, c0, q);
      ShareGrows(v, s, k, 1, c0, q);
      PieceAtMostPart(v, 0, s);
      var h := v.store[k][c];
      if h != 0 {
        ax[k] := ax[k] + Piece(v, h, s);
      }
      h := v.store[k][c + Half(v.nsys)];
      if h != 0 {
        bx[k] := bx[k] + Piece(v, h, s);
      }
    }
  }

  lemma HeldShares(v: View, s: Interval, i: nat, ax: array<real>, bx: array<real>)
    requires Holds(v, s, First(v, i), Cells(v, s, i), ax, bx)
    ensures ax[..] == SharesOf(v, s, i).primary && bx[..] == SharesOf(v, s, i).secondary
  {
  }

  /** The cells of one second. */
  method AddSecond(v: View, s: Interval, second: nat, ghost c0: nat, ghost q: nat, ax: array<real>, bx: array<real>)
    requires Wf(v) && second <= Cxtime(v) && second * v.nsys == c0 + q
    requires ax != bx && Holds(v, s, c0, q, ax, bx)
    modifies ax, bx
    ensures Holds(v, s, c0, q + v.nsys, ax, bx)
  {
    for m := 0 to v.nsys
      invariant Holds(v, s, c0, q + m, ax, bx)
    {
      CellInRange(v, second, m);
      AddCell(v, s, second * v.nsys + m, c0, q + m, ax, bx);
    }
  }

  /** The two arrays of one column. */
  method Accumulate(v: View, s: Interval, i: nat) returns (ax: array<real>, bx: array<real>)
    requires Wf(v)
    ensures fresh(ax) && fresh(bx) && ax.Length == bx.Length == |v.store|
    ensures ax[..] == SharesOf(v, s, i).primary && bx[..] == SharesOf(v, s, i).secondary
  {
    ax, bx := new real[|v.store|](_ => 0.0), new real[|v.store|](_ => 0.0);
    var j := 0;
    while j < s && i + j <= Cxtime(v)
      invariant j <= Width(v, s, i)
      invariant Holds(v, s, First(v, i), j * v.nsys, ax, bx)
    {
      CellsStep(j, i, v.nsys);
      AddSecond(v, s, i + j, First(v, i), j * v.nsys, ax, bx);
      j := j + 1;
    }
    HeldShares(v, s, i, ax, bx);
  }

  /** The drawing of one column. */
  method DrawColumn(v: View, s: Interval, i: nat, base: int, y: real) returns (column: Column)
    requires Wf(v)
    ensures column == ColumnOf(v, s, i, base, y)
  {
    var ax, bx := Accumulate(v, s, i);
    var top, lines := DrawShares(SharesOf(v, s, i), base, y, ax, bx);
    column := Column(i / s, top, lines);
  }

  /** The drawing pass. */
  method DrawColumns(v: View, s: Interval, base: int, y: real) returns (columns: seq<Column>)
    requires Wf(v)
    ensures |columns| == Columns(v, s)
    ensures forall n :: 0 <= n < |columns| ==> columns[n] == ColumnOf(v, s, Start(n, s), base, y)
  {
    columns := [];
    var i := 0;
    ghost var cols := Columns(v, s);
    ColumnStarts(v, s, 0);
    while i <= Cxtime(v)
      invariant i == Start(|columns|, s)
      invariant |columns| <= cols && (i <= Cxtime(v) <==> |columns| < cols)
      invariant forall n :: 0 <= n < |columns| ==> columns[n] == ColumnOf(v, s, Start(n, s), base, y)
      decreases cols - |columns|
    {
      var column := DrawColumn(v, s, i, base, y);
      columns := columns + [column];
      StartStep(|columns| - 1, s);
      i := i + s;
      ColumnStarts(v, s, |columns|);
    }
  }

  method FindScale(v: View, s: Interval, drawh: int) returns (yscal: real)
    requires Wf(v)
    ensures yscal == YScale(v, s, drawh)
  {
    var lmax := FindPeak(v, s);
    lmax := RoundUp(lmax / 1.0);
    var delta := 1 + |v.store| - W_OTHER;
    assert lmax == AxisFor(Peak(v, s), 1.0);
    yscal := Scaled((drawh - delta) as real, lmax, 1.0);
  }

  /** update_multi_bottom. */
  method UpdateMultiBottom(v: View, s: Interval, drawh: int, base: int) returns (columns: seq<Column>)
    requires Wf(v)
    ensures |columns| == Columns(v, s)
    ensures forall n :: 0 <= n < |columns| ==>
              columns[n] == ColumnOf(v, s, Start(n, s), base, YScale(v, s, drawh))
  {
    var yscal := FindScale(v, s, drawh);
    columns := DrawColumns(v, s, base, yscal);
  }

  // ----- the reserved height fits -----

  /** What the cell c adds to the shares of all windows below n. */
  function RowPiece(v: View, s: Interval, c: nat, n: nat): real {
    if n <= W_OTHER then 0.0
    else RowPiece(v, s, c, n - 1) + Piece(v, At(v, n - 1, c), s) + Piece(v, At(v, n - 1, c + Half(v.nsys)), s)
  }

  lemma {:induction false} RowPieceAtMostLoad(v: View, s: Interval, c: nat, n: nat)
    ensures RowPiece(v, s, c, n) <= RowLoad(v, s, c, n)
  {
    if n > W_OTHER {
      RowPieceAtMostLoad(v, s, c, n - 1);
      PieceAtMostPart(v, At(v, n - 1, c), s);
      PieceAtMostPart(v, At(v, n - 1, c + Half(v.nsys)), s);
    }
  }

  /** The shares of the windows below n over the first q cells from c0 on. */
  function Together(v: View, s: Interval, c0: nat, q: nat, n: nat): real {
    if n <= W_OTHER then 0.0
    else Together(v, s, c0, q, n - 1) + (Share(v, s, n - 1, 0, c0, q) + Share(v, s, n - 1, 1, c0, q))
  }

  lemma {:induction false} TogetherStep(v: View, s: Interval, c0: nat, q: nat, n: nat)
    ensures Together(v, s, c0, 0, n) == 0.0
    ensures Together(v, s, c0, q + 1, n) == Together(v, s, c0, q, n) + RowPiece(v, s, c0 + q, n)
  {
    if n > W_OTHER {
      TogetherStep(v, s, c0, q, n - 1);
      ShareGrows(v, s, n - 1, 0, c0, q);
      ShareGrows(v, s, n - 1, 1, c0, q);
    }
  }

  /** The loads of the first q cells from c0 on, in the order of the array. */
  function Flat(v: View, s: Interval, c0: nat, q: nat): real {
    if q == 0 then 0.0 else Flat(v, s, c0, q - 1) + RowLoad(v, s, c0 + q - 1, |v.store|)
  }

  lemma {:induction false} TogetherAtMostFlat(v: View, s: Interval, c0: nat, q: nat)
    ensures Together(v, s, c0, q, |v.store|) <= Flat(v, s, c0, q)
  {
    if q == 0 {
      TogetherStep(v, s, c0, 0, |v.store|);
    } else {
      TogetherAtMostFlat(v, s, c0, q - 1);
      TogetherStep(v, s, c0, q - 1, |v.store|);
      RowPieceAtMostLoad(v, s, c0 + q - 1, |v.store|);
    }
  }

  lemma {:induction false} FlatAppend(v: View, s: Interval, c0: nat, q: nat, r: nat)
    ensures Flat(v, s, c0, q + r) == Flat(v, s, c0, q) + Flat(v, s, c0 + q, r)
  {
    if r > 0 {
      FlatAppend(v, s, c0, q, r - 1);
      assert c0 + (q + r) - 1 == (c0 + q) + r - 1;
    }
  }

  /** One more second of the column adds one load to every host. */
  lemma {:induction false} HostsLoadStep(v: View, s: Interval, i: nat, m: nat, j: nat)
    ensures HostsLoad(v, s, i, m, 0) == 0.0
    ensures HostsLoad(v, s, i, m, j + 1) == HostsLoad(v, s, i, m, j) + Flat(v, s, (i + j) * v.nsys, m)
  {
    if m > 0 { HostsLoadStep(v, s, i, m - 1, j); }
  }

  /** The maximum pass goes host by host, the array second by second: the sums agree. */
  lemma {:induction false} FlatIsHostsLoad(v: View, s: Interval, i: nat, j: nat)
    ensures Flat(v, s, First(v, i), j * v.nsys) == HostsLoad(v, s, i, v.nsys, j)
  {
    if j == 0 {
      HostsLoadStep(v, s, i, v.nsys, 0);
    } else {
      FlatIsHostsLoad(v, s, i, j - 1);
      HostsLoadStep(v, s, i, v.nsys, j - 1);
      CellsStep(j - 1, i, v.nsys);
      FlatAppend(v, s, First(v, i), (j - 1) * v.nsys, v.nsys);
    }
  }

  lemma {:induction false} TotalIsTogether(v: View, s: Interval, i: nat, n: nat)
    requires n <= |v.store|
    ensures Total(SharesOf(v, s, i), n) == Together(v, s, First(v, i), Cells(v, s, i), n)
  {
    if n > W_OTHER { TotalIsTogether(v, s, i, n - 1); }
  }

  /** Dividing by the interval only makes a column lower than the maximum pass found it. */
  lemma TotalAtMostLoad(v: View, s: Interval, i: nat)
    ensures Total(SharesOf(v, s, i), |v.store|) <= ColumnLoad(v, s, i)
  {
    TotalIsTogether(v, s, i, |v.store|);
    TogetherAtMostFlat(v, s, First(v, i), Cells(v, s, i));
    FlatIsHostsLoad(v, s, i, Width(v, s, i));
  }

  /** The height reserved for any column is lower than the frame, although the two passes divide by
      different intervals. */
  lemma ReserveFits(v: View, s: Interval, n: nat, drawh: int)
    requires Wf(v) && n < Columns(v, s) && drawh >= Delta(v) && InScale(Peak(v, s), 1.0)
    ensures Height(v, s, Start(n, s), YScale(v, s, drawh)) < drawh - 1
  {
    var i, y := Start(n, s), YScale(v, s, drawh);
    PeakFitsIff(Peak(v, s), 1.0, (drawh - Delta(v)) as real);
    HighestIsMax(LoadsOf(v, s), Columns(v, s), n);
    TotalAtMostLoad(v, s, i);
    ReservedBelow(SharesOf(v, s, i), |v.store|, y);
    Squeeze(Height(v, s, i, y), Total(SharesOf(v, s, i), |v.store|), Peak(v, s), y, Delta(v), drawh);
  }

  // ----- what is drawn -----

  /** Every column starts inside the frame; from the top, each window's lines start where those of the windows
      before it end and have no gap; and the column ends exactly one pixel below the baseline for every
      window whose two levels spill, of which there are at most as many as windows with both levels. */
  lemma ColumnsFit(v: View, s: Interval, n: nat, drawh: int, base: int, k: nat)
    requires Wf(v) && n < Columns(v, s) && drawh >= Delta(v) && InScale(Peak(v, s), 1.0) && k < |v.store|
    ensures var i, y := Start(n, s), YScale(v, s, drawh);
            var c, column := SharesOf(v, s, i), ColumnOf(v, s, i, base, y);
            && column.x == n && column.top > base - (drawh - 1)
            && Joined(column.lines[k], column.top + Drawn(c, k, y), column.top + Drawn(c, k + 1, y))
            && column.top + Drawn(c, |v.store|, y) == base + Spilling(c, |v.store|, y)
            && Spilling(c, |v.store|, y) <= Both(c, |v.store|)
  {
    var i, y := Start(n, s), YScale(v, s, drawh);
    ReserveFits(v, s, n, drawh);
    StartOver(n, s);
    OvershootExact(SharesOf(v, s, i), |v.store|, y);
    SpillingAtMostBoth(SharesOf(v, s, i), |v.store|, y);
    LinesJoin(SharesOf(v, s, i), |v.store|, base - Height(v, s, i, y), y, k);
  }

  /** A column ends on the baseline exactly if no traffic window spills. */
  lemma EndsOnBaselineIff(v: View, s: Interval, i: nat, base: int, y: real)
    ensures var c, column := SharesOf(v, s, i), ColumnOf(v, s, i, base, y);
            column.top + Drawn(c, |v.store|, y) == base <==>
              forall k :: W_OTHER <= k < |v.store| ==> !Spills(c.primary[k], c.secondary[k], y)
  {
    OvershootExact(SharesOf(v, s, i), |v.store|, y);
    NoOvershootIff(SharesOf(v, s, i), |v.store|, y);
  }

  lemma {:induction false} ShareIsZeroIff(v: View, s: Interval, k: nat, level: nat, c: nat, q: nat)
    ensures Share(v, s, k, level, c, q) >= 0.0
    ensures Share(v, s, k, level, c, q) == 0.0 <==>
              forall e :: c <= e < c + q ==> !Present(v, k, level, e)
  {
    if q > 0 {
      ShareIsZeroIff(v, s, k, level, c, q - 1);
      PieceIsZeroIff(v, At(v, k, c + q - 1 + Offset(v, level)), s);
      assert Present(v, k, level, c + q - 1) <==> At(v, k, c + q - 1 + Offset(v, level)) > 0;
    }
  }

  lemma PieceIsZeroIff(v: View, x: nat, s: Interval)
    ensures Piece(v, x, s) >= 0.0 && (Piece(v, x, s) == 0.0 <==> x == 0)
  {
    PieceAtMostPart(v, x, s);
    if x > 0 {
      DivideTimes(x as real, s as real);
      CeilAtMost(x as real / s as real, 0);
      DivideTimes(Part(x, s), Rate(v));
    }
  }

  /** A window's level has a line in column n exactly if some host has a positive sample booked for that level in a
      second of the column; a line is as high as the level's share, rounded up, the primary line comes first, and in a
      frame higher than the pixels kept free every line is at least one pixel high. */
  lemma TrafficIsShown(v: View, s: Interval, n: nat, base: int, drawh: int, k: nat, level: nat)
    requires n < Columns(v, s) && 4 <= k < |v.store| && level < 2
    ensures var y := YScale(v, s, drawh);
            var lines := ColumnOf(v, s, Start(n, s), base, y).lines[k];
            && (Shown(lines, level) <==>
                  exists t: nat, m: nat :: InPast(v, s, n, t) && m < v.nsys && At(v, k, Cell(level, t, m, v.nsys)) > 0)
            && (forall l <- lines :: l.level < 2 && Measured(l, ColumnShare(v, s, Start(n, s), k, l.level), y))
            && PrimaryFirst(lines)
            && (drawh > |v.store| - 3 ==> forall l <- lines :: l.y2 > l.y1)
  {
    var i, y := Start(n, s), YScale(v, s, drawh);
    ShareIsZeroIff(v, s, k, level, First(v, i), Cells(v, s, i));
    ShownIffColumnShare(v, s, i, base, y, k, level);
    PresentIff(v, s, n, k, level);
    LinesMeasure(SharesOf(v, s, i), |v.store|, base - Height(v, s, i, y), y, k);
    if drawh > Delta(v) { ScaleIsPositive(Peak(v, s), 1.0, (drawh - Delta(v)) as real); }
  }

  lemma ShownIffColumnShare(v: View, s: Interval, i: nat, base: int, y: real, k: nat, level: nat)
    requires W_OTHER <= k < |v.store| && level < 2
    ensures Shown(ColumnOf(v, s, i, base, y).lines[k], level) <==> ColumnShare(v, s, i, k, level) != 0.0
    ensures y > 0.0 ==> forall l <- ColumnOf(v, s, i, base, y).lines[k] :: l.y2 > l.y1
  {
    ShareIsZeroIff(v, s, k, 0, First(v, i), Cells(v, s, i));
    ShareIsZeroIff(v, s, k, 1, First(v, i), Cells(v, s, i));
    LinesShowShares(SharesOf(v, s, i), |v.store|, base - Height(v, s, i, y), y, k);
  }

  // ----- the sums of both passes, by key -----

  /** x divided among s seconds, rounded up. */
  function UpTo(x: nat, s: Interval): nat { (x + s - 1) / s }

  lemma UpToIsLeast(x: nat, s: Interval, q: nat)
    ensures UpTo(x, s) <= q <==> x <= q * s
  {
    DividesBelow(q + 1, x + s - 1, s);
    SumTimes(q, 1, s);
  }

  lemma QuotientBelow(x: nat, s: Interval, q: nat)
    ensures x as real / s as real <= q as real <==> x <= q * s
  {
    DivideTimes(x as real, s as real);
    assert (q * s) as real == q as real * s as real;
    if x as real / s as real <= q as real {
      TimesMonotone(x as real / s as real, q as real, s as real);
    } else {
      TimesStrict(q as real, x as real / s as real, s as real);
    }
  }

  lemma PartIsRoundedUp(x: nat, s: Interval)
    ensures Part(x, s) == UpTo(x, s) as real
  {
    var q := UpTo(x, s);
    UpToIsLeast(x, s, q);
    QuotientBelow(x, s, q);
    CeilAtMost(x as real / s as real, q);
    if q > 0 {
      UpToIsLeast(x, s, q - 1);
      QuotientBelow(x, s, q - 1);
      CeilAtMost(x as real / s as real, q - 1);
    } else {
      CeilAtMost(x as real / s as real, -1);
    }
  }

  /** Both levels of a traffic window, for one second and host. */
  function BothLevels(v: View, s: Interval, t: nat, m: nat, k: nat): nat {
    UpTo(At(v, k, Cell(0, t, m, v.nsys)), s) + UpTo(At(v, k, Cell(1, t, m, v.nsys)), s)
  }

  /** All traffic windows, both levels, for one second and host. */
  function TrafficAt(v: View, s: Interval, t: nat, m: nat): nat {
    SumOf((k: nat) => BothLevels(v, s, t, m, k), 4, |v.store|)
  }

  /** All traffic of column n. */
  function ColumnTraffic(v: View, s: Interval, n: nat): nat {
    KeySum((t: nat, m: nat) => TrafficAt(v, s, t, m), v.nsys, n * s, End(v, s, n))
  }

  lemma {:induction false} RowLoadIsSum(v: View, s: Interval, t: nat, m: nat, n: nat, f: nat -> nat)
    requires forall k: nat :: f(k) == BothLevels(v, s, t, m, k)
    ensures RowLoad(v, s, t * v.nsys + m, n) == SumOf(f, 4, n) as real
  {
    if n > W_OTHER {
      RowLoadIsSum(v, s, t, m, n - 1, f);
      PartIsRoundedUp(At(v, n - 1, Cell(0, t, m, v.nsys)), s);
      PartIsRoundedUp(At(v, n - 1, Cell(1, t, m, v.nsys)), s);
    }
  }

  lemma RowLoadIsTraffic(v: View, s: Interval, t: nat, m: nat)
    ensures RowLoad(v, s, t * v.nsys + m, |v.store|) == TrafficAt(v, s, t, m) as real
  {
    RowLoadIsSum(v, s, t, m, |v.store|, (k: nat) => BothLevels(v, s, t, m, k));
  }

  /** The cell e of host e % nsys and second e / nsys. */
  function TrafficIn(v: View, s: Interval, e: nat): nat {
    if v.nsys == 0 then 0 else TrafficAt(v, s, e / v.nsys, e % v.nsys)
  }

  lemma CellKey(t: nat, m: nat, nsys: nat)
    requires m < nsys
    ensures (t * nsys + m) / nsys == t && (t * nsys + m) % nsys == m
  {
    DividesBelow(t, t * nsys + m, nsys);
    DividesBelow(t + 1, t * nsys + m, nsys);
    SumTimes(t, 1, nsys);
  }

  lemma TrafficOnCells(v: View, s: Interval)
    ensures OnCells((e: nat) => TrafficIn(v, s, e), (t: nat, m: nat) => TrafficAt(v, s, t, m), v.nsys)
  {
    forall t: nat, m: nat | m < v.nsys ensures TrafficIn(v, s, t * v.nsys + m) == TrafficAt(v, s, t, m) {
      CellKey(t, m, v.nsys);
    }
  }

  lemma CellParts(e: nat, n: nat)
    requires n > 0
    ensures (e / n) * n + e % n == e
  {
  }

  ghost predicate LoadsAre(v: View, s: Interval, h: nat -> nat) {
    forall e: nat :: RowLoad(v, s, e, |v.store|) == h(e) as real
  }

  lemma FlatStep(v: View, s: Interval, c: nat, q: nat, h: nat -> nat)
    requires LoadsAre(v, s, h) && Flat(v, s, c, q) == SumOf(h, c, c + q) as real
    ensures Flat(v, s, c, q + 1) == SumOf(h, c, c + (q + 1)) as real
  {
    assert RowLoad(v, s, c + q, |v.store|) == h(c + q) as real;
  }

  lemma {:induction false} FlatIsSum(v: View, s: Interval, c: nat, q: nat, h: nat -> nat)
    requires LoadsAre(v, s, h)
    ensures Flat(v, s, c, q) == SumOf(h, c, c + q) as real
  {
    if q == 0 {
      NoHosts(v, s, c, q, h);
    } else {
      FlatIsSum(v, s, c, q - 1, h);
      FlatStep(v, s, c, q - 1, h);
    }
  }

  lemma LoadsAreTraffic(v: View, s: Interval)
    requires v.nsys > 0
    ensures LoadsAre(v, s, (e: nat) => TrafficIn(v, s, e))
  {
    forall e: nat ensures RowLoad(v, s, e, |v.store|) == TrafficIn(v, s, e) as real {
      RowLoadOfCell(v, s, e);
    }
  }

  lemma RowLoadOfCell(v: View, s: Interval, e: nat)
    requires v.nsys > 0
    ensures RowLoad(v, s, e, |v.store|) == TrafficIn(v, s, e) as real
  {
    CellParts(e, v.nsys);
    RowLoadIsTraffic(v, s, e / v.nsys, e % v.nsys);
  }

  lemma NoHosts(v: View, s: Interval, c: nat, q: nat, h: nat -> nat)
    requires q == 0
    ensures Flat(v, s, c, q) == SumOf(h, c, c + q) as real
  {
  }

  /** The maximum pass measures a column as the sum of its samples, over all traffic windows, both levels, all hosts and
      its seconds, each divided among the seconds of a column and rounded up. */
  lemma ColumnIsTraffic(v: View, s: Interval, n: nat)
    requires n < Columns(v, s)
    ensures ColumnLoad(v, s, Start(n, s)) == ColumnTraffic(v, s, n) as real
  {
    var i := Start(n, s);
    var h := (e: nat) => TrafficIn(v, s, e);
    FlatIsHostsLoad(v, s, i, Width(v, s, i));
    if v.nsys == 0 {
      NoHosts(v, s, First(v, i), Cells(v, s, i), h);
    } else {
      LoadsAreTraffic(v, s);
      FlatIsSum(v, s, First(v, i), Cells(v, s, i), h);
    }
    TrafficOnCells(v, s);
    ColumnCellsAreKeys(v, s, n, h, (t: nat, m: nat) => TrafficAt(v, s, t, m));
  }

  lemma PeakIsHighest(v: View, s: Interval)
    ensures Peak(v, s) >= 0.0
    ensures forall n :: 0 <= n < Columns(v, s) ==> ColumnTraffic(v, s, n) as real <= Peak(v, s)
    ensures Peak(v, s) > 0.0 ==> exists n :: 0 <= n < Columns(v, s) && ColumnTraffic(v, s, n) as real == Peak(v, s)
  {
    HighestIsNotNegative(LoadsOf(v, s), Columns(v, s));
    forall n | 0 <= n < Columns(v, s) ensures ColumnTraffic(v, s, n) as real <= Peak(v, s) {
      ColumnIsTraffic(v, s, n);
      HighestIsMax(LoadsOf(v, s), Columns(v, s), n);
    }
    if Peak(v, s) > 0.0 {
      HighestIsReached(LoadsOf(v, s), Columns(v, s));
      var n :| 0 <= n < Columns(v, s) && LoadsOf(v, s)(n) == Peak(v, s);
      ColumnIsTraffic(v, s, n);
      assert ColumnTraffic(v, s, n) as real == Peak(v, s);
    }
  }

  /** The scale is made for the column with the most traffic: that number, rounded up to the top of the axis, takes all
      pixels but one for each traffic window and one more. */
  lemma ScaleIsForHighestColumn(v: View, s: Interval, drawh: int)
    ensures Peak(v, s) >= 0.0
    ensures forall n :: 0 <= n < Columns(v, s) ==> ColumnTraffic(v, s, n) as real <= Peak(v, s)
    ensures Peak(v, s) > 0.0 ==> exists n :: 0 <= n < Columns(v, s) && ColumnTraffic(v, s, n) as real == Peak(v, s)
    ensures MadeFor(YScale(v, s, drawh), Peak(v, s), 1.0, (drawh - (|v.store| - 3)) as real)
  {
    PeakIsHighest(v, s);
    AxisFillsRoom(Peak(v, s), 1.0, (drawh - Delta(v)) as real);
  }

  /** One level of one window in column n. */
  function WindowTraffic(v: View, s: Interval, n: nat, k: nat, level: nat): nat {
    KeySum((t: nat, m: nat) => UpTo(At(v, k, Cell(level, t, m, v.nsys)), s), v.nsys, n * s, End(v, s, n))
  }

  /** x a second, at a given number of seconds a sample. */
  predicate AtRate(x: real, total: nat, rate: real) { x * rate == total as real }

  lemma AtRateSum(x: real, a: nat, y: real, b: nat, rate: real)
    requires AtRate(x, a, rate) && AtRate(y, b, rate)
    ensures AtRate(x + y, a + b, rate)
  {
    Distribute(x, y, rate);
  }

  lemma PieceAtRate(v: View, x: nat, s: Interval)
    ensures AtRate(Piece(v, x, s), UpTo(x, s), Rate(v))
  {
    PartIsRoundedUp(x, s);
    DivideTimes(Part(x, s), Rate(v));
  }

  lemma {:induction false} ShareAtRate(v: View, s: Interval, k: nat, level: nat, c: nat, q: nat, h: nat -> nat)
    requires forall e: nat :: h(e) == UpTo(At(v, k, e + Offset(v, level)), s)
    ensures AtRate(Share(v, s, k, level, c, q), SumOf(h, c, c + q), Rate(v))
  {
    if q > 0 {
      ShareAtRate(v, s, k, level, c, q - 1, h);
      PieceAtRate(v, At(v, k, c + q - 1 + Offset(v, level)), s);
      AtRateSum(Share(v, s, k, level, c, q - 1), SumOf(h, c, c + q - 1),
                Piece(v, At(v, k, c + q - 1 + Offset(v, level)), s), h(c + q - 1), Rate(v));
    }
  }

  /** The drawing pass gives a window's level the sum of its samples in the column, each divided among the seconds of a
      column and rounded up, a second of the interval unless samples are gauges. */
  lemma ShareIsTraffic(v: View, s: Interval, n: nat, k: nat, level: nat)
    requires n < Columns(v, s) && level < 2
    ensures var rate := if v.gauge then 1.0 else v.interval as real;
            AtRate(ColumnShare(v, s, Start(n, s), k, level), WindowTraffic(v, s, n, k, level), rate)
  {
    var h := (e: nat) => UpTo(At(v, k, e + Offset(v, level)), s);
    var f := (t: nat, m: nat) => UpTo(At(v, k, Cell(level, t, m, v.nsys)), s);
    forall t: nat, m: nat | m < v.nsys ensures h(t * v.nsys + m) == f(t, m) {
      CellOfRow(v, level, t, m);
    }
    ShareAtRate(v, s, k, level, First(v, Start(n, s)), Cells(v, s, Start(n, s)), h);
    ColumnCellsAreKeys(v, s, n, h, f);
  }

  // ----- a column that runs past its baseline -----

  /** One host, one second, and one primary and one secondary unit of unknown traffic. */
  predicate OneEach(v: View) {
    && v.nsys == 1 && v.curtime == 1 && v.gauge && |v.store| == W_USER
    && At(v, W_OTHER, 0) == 1 && At(v, W_OTHER, Half(1)) == 1
  }

  lemma WholePart(x: nat, s: Interval)
    requires s == 1
    ensures Part(x, s) == x as real
  {
    DivideTimes(x as real, 1.0);
    CeilAtMost(x as real, x);
    CeilAtMost(x as real, x - 1);
  }

  lemma OneEachRow(v: View, s: Interval)
    requires OneEach(v) && s == 1
    ensures RowLoad(v, s, 0, W_USER) == 2.0
  {
    WholePart(1, s);
    assert RowLoad(v, s, 0, W_OTHER) == 0.0;
    assert 0 + Half(v.nsys) == Half(1);
  }

  lemma OneEachWidth(v: View, s: Interval)
    requires OneEach(v) && s == 1
    ensures Width(v, s, 0) == 1 && Columns(v, s) == 1 && First(v, 0) == 0 && Cells(v, s, 0) == 1 && Start(0, s) == 0
    ensures Delta(v) == 2
  {
  }

  lemma OneEachPeak(v: View, s: Interval)
    requires OneEach(v) && s == 1
    ensures Peak(v, s) == 2.0
  {
    OneEachWidth(v, s);
    OneEachRow(v, s);
    assert HostLoad(v, s, 0, 0, 0) == 0.0;
    assert HostLoad(v, s, 0, 0, 1) == 2.0;
    assert HostsLoad(v, s, 0, 0, 1) == 0.0;
    assert HostsLoad(v, s, 0, 1, 1) == 2.0;
    assert ColumnLoad(v, s, 0) == 2.0;
    assert LoadsOf(v, s)(0) == 2.0 && Highest(LoadsOf(v, s), 0) == 0.0;
  }

  lemma OneEachShares(v: View, s: Interval)
    requires OneEach(v) && s == 1
    ensures ColumnShare(v, s, 0, W_OTHER, 0) == 1.0 && ColumnShare(v, s, 0, W_OTHER, 1) == 1.0
  {
    OneEachWidth(v, s);
    WholePart(1, s);
    assert Piece(v, 1, s) == 1.0;
    assert Share(v, s, W_OTHER, 0, 0, 0) == 0.0 && Share(v, s, W_OTHER, 1, 0, 0) == 0.0;
  }

  lemma RoundedTwo()
    ensures Rounded(2.0) == 10.0
  {
    RoundedAtLeastTen(2.0);
    GridAt(1, 1);
    assert Pow10(1) == 10.0;
  }

  lemma ScaleOfTwo(m: real, d: int)
    requires m == 2.0 && d == 5
    ensures ScaleFor(m, 1.0, d as real) == 0.5 && InScale(m, 1.0)
  {
    RoundedTwo();
    assert m / 1.0 == 2.0;
    assert AxisFor(m, 1.0) == 10.0;
    assert 5.0 / 10.0 == 0.5;
  }

  lemma OneEachSpills(c: Shares, y: real)
    requires Covers(c, W_USER) && c.primary[W_OTHER] == 1.0 && c.secondary[W_OTHER] == 1.0 && y == 0.5
    ensures Spilling(c, W_USER, y) == 1
  {
    assert Excess(1.0, 0.5) == 0.5;
    assert Spilling(c, W_OTHER, y) == 0;
  }

  lemma OneEachRunsOver(v: View, s: Interval, base: int, y: real)
    requires OneEach(v) && s == 1 && y == 0.5
    ensures ColumnOf(v, s, 0, base, y).top + Drawn(SharesOf(v, s, 0), |v.store|, y) == base + 1
  {
    OneEachShares(v, s);
    OneEachSpills(SharesOf(v, s, 0), y);
    OvershootExact(SharesOf(v, s, 0), |v.store|, y);
  }

  lemma OneEachScale(v: View, s: Interval)
    requires OneEach(v) && s == 1
    ensures YScale(v, s, 7) == 0.5 && InScale(Peak(v, s), 1.0)
  {
    OneEachPeak(v, s);
    OneEachWidth(v, s);
    ScaleOfTwo(Peak(v, s), 7 - Delta(v));
  }

  /** In a frame of 7 pixels each level takes half a pixel, is drawn as a whole one, and the column ends one
      pixel below its baseline, although the peak is well within the range of roundup. */
  lemma ColumnRunsOver(v: View, s: Interval, base: int)
    requires OneEach(v) && s == 1
    ensures Start(0, s) == 0 < Columns(v, s) && 7 >= Delta(v) && InScale(Peak(v, s), 1.0)
    ensures var y := YScale(v, s, 7);
            ColumnOf(v, s, 0, base, y).top + Drawn(SharesOf(v, s, 0), |v.store|, y) == base + 1
  {
    OneEachWidth(v, s);
    OneEachScale(v, s);
    OneEachRunsOver(v, s, base, YScale(v, s, 7));
  }

  /** There is such a view. */
  lemma OneEachExists()
    ensures exists v :: Wf(v) && OneEach(v)
  {
    var row := seq(2 * Half(1), c => if c == 0 || c == Half(1) then 1 else 0);
    var blank := seq(2 * Half(1), _ => 0);
    var v := View([blank, blank, blank, blank, row], 1, 1, true, 1);
    assert Wf(v) && OneEach(v);
  }
}
