/** The historical graph of a single window: seconds are merged into columns, a first pass finds the highest
    column and a second pass draws both levels of every column.  Columns of the CPU, memory and time
    windows are averaged over the hosts and seconds that reported. */
module StripChart {
  import opened Arithmetic
  import opened Lines
  import opened Samples
  import opened Scale
  import opened Views
  import opened Timeline

  /** A vertical line of one level, from y1 down to y2. */
  datatype Stroke = Stroke(level: nat, y1: int, y2: int)

  datatype Bar = Bar(x: nat, strokes: seq<Stroke>)

  predicate Averaged(w: nat) { w == W_CPU || w == W_MEM || w == W_TIME }

  // ----- the value of a column -----

  /** What one sample adds to its column. */
  function Bit(v: View, x: nat, s: Interval): real { (x as real / s as real) / Rate(v) }

  /** One level over the first q cells from c on. */
  function Level(v: View, w: nat, s: Interval, level: nat, c: nat, q: nat): real {
    if q == 0 then 0.0 else Level(v, w, s, level, c, q - 1) + Bit(v, At(v, w, c + q - 1 + Offset(v, level)), s)
  }

  /** Cells that reported, in a window that is averaged. */
  function Reps(v: View, w: nat, c: nat, q: nat): nat {
    if q == 0 then 0 else Reps(v, w, c, q - 1) + if Averaged(w) && Present(v, w, 0, c + q - 1) then 1 else 0
  }

  function Mean(x: real, reps: nat, s: Interval): real {
    if reps == 0 then x else x / (reps as real / s as real)
  }

  function RepsOf(v: View, w: nat, s: Interval, i: nat): nat { Reps(v, w, First(v, i), Cells(v, s, i)) }

  function LevelOf(v: View, w: nat, s: Interval, i: nat, level: nat): real {
    Level(v, w, s, level, First(v, i), Cells(v, s, i))
  }

  /** The value of the column from second i, as the maximum pass computes it. */
  function ColumnValue(v: View, w: nat, s: Interval, i: nat): real {
    Mean(LevelOf(v, w, s, i, 0) + LevelOf(v, w, s, i, 1), RepsOf(v, w, s, i), s)
  }

  /** One level of the column from second i, as the drawing pass computes it. */
  function Part(v: View, w: nat, s: Interval, i: nat, level: nat): real {
    Mean(LevelOf(v, w, s, i, level), RepsOf(v, w, s, i), s)
  }

  /** The value of each column. */
  function ValuesOf(v: View, w: nat, s: Interval): nat -> real { (n: nat) => ColumnValue(v, w, s, Start(n, s)) }

  function Peak(v: View, w: nat, s: Interval): real { Highest(ValuesOf(v, w, s), Columns(v, s)) }

  function YScale(v: View, w: nat, s: Interval, drawh: int): real {
    ScaleFor(Peak(v, w, s), 1.0, drawh as real)
  }

  function Pixels(a: real, y: real): int { Ceil(a * y) }

  function StrokesOf(a: real, b: real, base: int, y: real): seq<Stroke> {
    (if a > 0.0 then [Stroke(0, base - Pixels(a, y), base)] else [])
    + (if b > 0.0 then [Stroke(1, base - Pixels(a + b, y), base - Pixels(a, y))] else [])
  }

  /** The bar of two parts for the column from second i. */
  function BarWith(i: nat, s: Interval, a: real, b: real, base: int, y: real): Bar {
    Bar(i / s, StrokesOf(a, b, base, y))
  }

  function BarOf(v: View, w: nat, s: Interval, i: nat, base: int, y: real): Bar {
    BarWith(i, s, Part(v, w, s, i, 0), Part(v, w, s, i, 1), base, y)
  }

  // ----- the loops -----

  /** The body of the innermost loop for host m and second t, in either pass. */
  method AddCell(v: View, w: nat, s: Interval, t: nat, m: nat, reps: nat) returns (a: real, b: real, reps': nat)
    requires Wf(v) && w < |v.store| && t <= Cxtime(v) && m < v.nsys
    ensures a == Bit(v, At(v, w, t * v.nsys + m + Offset(v, 0)), s)
    ensures b == Bit(v, At(v, w, t * v.nsys + m + Offset(v, 1)), s)
    ensures reps' == reps + if Averaged(w) && Present(v, w, 0, t * v.nsys + m) then 1 else 0
  {
    CellInRange(v, t, m);
    assert (t + DEFTLEN) * v.nsys + m == t * v.nsys + m + Half(v.nsys);
    a := (v.store[w][t * v.nsys + m] as real / s as real) / Rate(v);
    b := (v.store[w][(t + DEFTLEN) * v.nsys + m] as real / s as real) / Rate(v);
    reps' := reps;
    if (w == W_CPU || w == W_MEM || w == W_TIME) && v.store[w][t * v.nsys + m] != 0 {
      reps' := reps' + 1;
    }
  }

  /** One second of a column in the maximum pass, which adds both levels to one sum. */
  method AddSecond(v: View, w: nat, s: Interval, t: nat, ghost c: nat, ghost q: nat, start: real, reps0: nat)
    returns (ax: real, reps: nat)
    requires Wf(v) && w < |v.store| && t <= Cxtime(v) && First(v, t) == c + q
    requires start == Level(v, w, s, 0, c, q) + Level(v, w, s, 1, c, q) && reps0 == Reps(v, w, c, q)
    ensures ax == Level(v, w, s, 0, c, q + v.nsys) + Level(v, w, s, 1, c, q + v.nsys)
    ensures reps == Reps(v, w, c, q + v.nsys)
  {
    ax, reps := start, reps0;
    for m := 0 to v.nsys
      invariant ax == Level(v, w, s, 0, c, q + m) + Level(v, w, s, 1, c, q + m)
      invariant reps == Reps(v, w, c, q + m)
    {
      var a, b;
      a, b, reps := AddCell(v, w, s, t, m, reps);
      ax := ax + a;
      ax := ax + b;
      assert t * v.nsys + m == c + (q + m + 1) - 1;
    }
  }

  method MeasureColumn(v: View, w: nat, s: Interval, i: nat) returns (ax: real)
    requires Wf(v) && w < |v.store|
    ensures ax == ColumnValue(v, w, s, i)
  {
    ax := 0.0;
    var j, reps := 0, 0;
    while j < s && i + j <= Cxtime(v)
      invariant j <= Width(v, s, i)
      invariant ax == Level(v, w, s, 0, First(v, i), j * v.nsys) + Level(v, w, s, 1, First(v, i), j * v.nsys)
      invariant reps == Reps(v, w, First(v, i), j * v.nsys)
    {
      CellsStep(j, i, v.nsys);
      ax, reps := AddSecond(v, w, s, i + j, First(v, i), j * v.nsys, ax, reps);
      j := j + 1;
    }
    if reps != 0 {
      ax := ax / (reps as real / s as real);
    }
  }

  method FindPeak(v: View, w: nat, s: Interval) returns (lmax: real)
    requires Wf(v) && w < |v.store|
    ensures lmax == Peak(v, w, s)
  {
    lmax := 0.0;
    var i := 0;
    ghost var n, cols := 0, Columns(v, s);
    ColumnStarts(v, s, 0);
    while i <= Cxtime(v)
      invariant i == Start(n, s) && lmax == Highest(ValuesOf(v, w, s), n)
      invariant 0 <= n <= cols && (i <= Cxtime(v) <==> n < cols)
      decreases cols - n
    {
      var ax := MeasureColumn(v, w, s, i);
      if lmax < ax {
        lmax := ax;
      }
      i := i + s;
      StartStep(n, s);
      n := n + 1;
      ColumnStarts(v, s, n);
    }
  }

  /** One second of a column in the drawing pass, which keeps the levels apart. */
  method AddSecondToParts(v: View, w: nat, s: Interval, t: nat, ghost c: nat, ghost q: nat,
                          startA: real, startB: real, reps0: nat)
    returns (ax: real, bx: real, reps: nat)
    requires Wf(v) && w < |v.store| && t <= Cxtime(v) && First(v, t) == c + q
    requires startA == Level(v, w, s, 0, c, q) && startB == Level(v, w, s, 1, c, q) && reps0 == Reps(v, w, c, q)
    ensures ax == Level(v, w, s, 0, c, q + v.nsys) && bx == Level(v, w, s, 1, c, q + v.nsys)
    ensures reps == Reps(v, w, c, q + v.nsys)
  {
    ax, bx, reps := startA, startB, reps0;
    for m := 0 to v.nsys
      invariant ax == Level(v, w, s, 0, c, q + m) && bx == Level(v, w, s, 1, c, q + m)
      invariant reps == Reps(v, w, c, q + m)
    {
      var a, b;
      a, b, reps := AddCell(v, w, s, t, m, reps);
      ax, bx := ax + a, bx + b;
      assert t * v.nsys + m == c + (q + m + 1) - 1;
    }
  }

  method MeasureParts(v: View, w: nat, s: Interval, i: nat) returns (ax: real, bx: real)
    requires Wf(v) && w < |v.store|
    ensures ax == Part(v, w, s, i, 0) && bx == Part(v, w, s, i, 1)
  {
    ax, bx := 0.0, 0.0;
    var j, reps := 0, 0;
    while j < s && i + j <= Cxtime(v)
      invariant j <= Width(v, s, i)
      invariant ax == Level(v, w, s, 0, First(v, i), j * v.nsys) && bx == Level(v, w, s, 1, First(v, i), j * v.nsys)
      invariant reps == Reps(v, w, First(v, i), j * v.nsys)
    {
      CellsStep(j, i, v.nsys);
      ax, bx, reps := AddSecondToParts(v, w, s, i + j, First(v, i), j * v.nsys, ax, bx, reps);
      j := j + 1;
    }
    if reps != 0 {
      ax := ax / (reps as real / s as real);
      bx := bx / (reps as real / s as real);
    }
  }

  /** The two lines of a column. */
  method DrawParts(i: nat, s: Interval, ax: real, bx: real, base: int, y: real) returns (bar: Bar)
    ensures bar == BarWith(i, s, ax, bx, base, y)
  {
    var strokes := [];
    if ax > 0.0 {
      strokes := strokes + [Stroke(0, base - Pixels(ax, y), base)];
    }
    if bx > 0.0 {
      strokes := strokes + [Stroke(1, base - Pixels(ax + bx, y), base - Pixels(ax, y))];
    }
    bar := Bar(i / s, strokes);
  }

  method DrawBar(v: View, w: nat, s: Interval, i: nat, base: int, y: real) returns (bar: Bar)
    requires Wf(v) && w < |v.store|
    ensures bar == BarOf(v, w, s, i, base, y)
  {
    var ax, bx := MeasureParts(v, w, s, i);
    bar := DrawParts(i, s, ax, bx, base, y);
  }

  method DrawBars(v: View, w: nat, s: Interval, base: int, y: real) returns (bars: seq<Bar>)
    requires Wf(v) && w < |v.store|
    ensures |bars| == Columns(v, s)
    ensures forall n :: 0 <= n < |bars| ==> bars[n] == BarOf(v, w, s, Start(n, s), base, y)
  {
    bars := [];
    var i := 0;
    ghost var cols := Columns(v, s);
    ColumnStarts(v, s, 0);
    while i <= Cxtime(v)
      invariant i == Start(|bars|, s)
      invariant |bars| <= cols && (i <= Cxtime(v) <==> |bars| < cols)
      invariant forall n :: 0 <= n < |bars| ==> bars[n] == BarOf(v, w, s, Start(n, s), base, y)
      decreases cols - |bars|
    {
      var bar := DrawBar(v, w, s, i, base, y);
      bars := bars + [bar];
      StartStep(|bars| - 1, s);
      i := i + s;
      ColumnStarts(v, s, |bars|);
    }
  }

  method FindScale(v: View, w: nat, s: Interval, drawh: int) returns (yscal: real)
    requires Wf(v) && w < |v.store|
    ensures yscal == YScale(v, w, s, drawh)
  {
    var lmax := FindPeak(v, w, s);
    lmax := RoundUp(lmax / 1.0);
    assert lmax == AxisFor(Peak(v, w, s), 1.0);
    yscal := Scaled(drawh as real, lmax, 1.0);
  }

  /** update_bottom. */
  method UpdateBottom(v: View, w: nat, s: Interval, drawh: int, base: int) returns (bars: seq<Bar>)
    requires Wf(v) && w < |v.store|
    ensures |bars| == Columns(v, s)
    ensures forall n :: 0 <= n < |bars| ==> bars[n] == BarOf(v, w, s, Start(n, s), base, YScale(v, w, s, drawh))
  {
    var yscal := FindScale(v, w, s, drawh);
    bars := DrawBars(v, w, s, base, yscal);
  }

  // ----- both passes agree -----

  lemma QuotientOfSum(a: real, b: real, d: real)
    requires d > 0.0
    ensures a / d + b / d == (a + b) / d
  {
  }

  lemma QuotientSign(a: real, d: real)
    requires a >= 0.0 && d > 0.0
    ensures a / d >= 0.0
  {
  }

  lemma RatioIsPositive(reps: nat, s: Interval)
    requires reps > 0
    ensures reps as real / s as real > 0.0
  {
  }

  lemma MeanOfSum(a: real, b: real, reps: nat, s: Interval)
    ensures Mean(a + b, reps, s) == Mean(a, reps, s) + Mean(b, reps, s)
  {
    if reps > 0 {
      RatioIsPositive(reps, s);
      QuotientOfSum(a, b, reps as real / s as real);
    }
  }

  /** The height drawn for a column is the height the maximum pass measured. */
  lemma PassesAgree(v: View, w: nat, s: Interval, i: nat)
    ensures Part(v, w, s, i, 0) + Part(v, w, s, i, 1) == ColumnValue(v, w, s, i)
  {
    MeanOfSum(LevelOf(v, w, s, i, 0), LevelOf(v, w, s, i, 1), RepsOf(v, w, s, i), s);
  }

  lemma {:induction false} LevelIsNotNegative(v: View, w: nat, s: Interval, level: nat, c: nat, q: nat)
    ensures Level(v, w, s, level, c, q) >= 0.0
  {
    if q > 0 {
      LevelIsNotNegative(v, w, s, level, c, q - 1);
      var x := At(v, w, c + q - 1 + Offset(v, level));
      QuotientSign(x as real, s as real);
      QuotientSign(x as real / s as real, Rate(v));
    }
  }

  lemma PartIsNotNegative(v: View, w: nat, s: Interval, i: nat, level: nat)
    ensures Part(v, w, s, i, level) >= 0.0
  {
    LevelIsNotNegative(v, w, s, level, First(v, i), Cells(v, s, i));
    var reps := RepsOf(v, w, s, i);
    if reps > 0 {
      RatioIsPositive(reps, s);
      QuotientSign(LevelOf(v, w, s, i, level), reps as real / s as real);
    }
  }

  // ----- no bar exceeds the frame -----

  /** All strokes stay between the baseline and h pixels above it. */
  predicate Within(strokes: seq<Stroke>, base: int, h: int) {
    forall p <- strokes :: base - h <= p.y1 <= p.y2 <= base
  }

  lemma StrokesWithinIff(a: real, b: real, sum: real, base: int, y: real, h: int)
    requires a >= 0.0 && b >= 0.0 && sum == a + b && y >= 0.0 && h >= 0
    ensures Within(StrokesOf(a, b, base, y), base, h) <==> Gentle(sum, y, h as real)
  {
    var strokes := StrokesOf(a, b, base, y);
    TimesMonotone(0.0, a, y);
    TimesMonotone(a, a + b, y);
    CeilMonotone(0.0, a * y);
    CeilMonotone(a * y, (a + b) * y);
    CeilAtMost((a + b) * y, h);
    if b > 0.0 {
      assert strokes[|strokes| - 1] == Stroke(1, base - Pixels(a + b, y), base - Pixels(a, y));
    } else if a > 0.0 {
      assert strokes == [Stroke(0, base - Pixels(a, y), base)];
    }
  }

  lemma BarWithinIff(v: View, w: nat, s: Interval, i: nat, base: int, y: real, h: int)
    requires y >= 0.0 && h >= 0
    ensures Within(BarOf(v, w, s, i, base, y).strokes, base, h) <==> Gentle(ColumnValue(v, w, s, i), y, h as real)
  {
    PassesAgree(v, w, s, i);
    PartIsNotNegative(v, w, s, i, 0);
    PartIsNotNegative(v, w, s, i, 1);
    StrokesWithinIff(Part(v, w, s, i, 0), Part(v, w, s, i, 1), ColumnValue(v, w, s, i), base, y, h);
  }

  lemma LowerIsGentle(x: real, m: real, y: real, d: real)
    requires x <= m && Gentle(m, y, d)
    ensures Gentle(x, y, d)
  {
    TimesMonotone(x, m, y);
  }

  predicate Fits(v: View, w: nat, s: Interval, n: nat, base: int, y: real, h: int) {
    Within(BarOf(v, w, s, Start(n, s), base, y).strokes, base, h)
  }

  /** All bars fit exactly if the highest does. */
  lemma BarsFitIffPeakFits(v: View, w: nat, s: Interval, base: int, y: real, h: int)
    requires y >= 0.0 && h >= 0
    ensures (forall n :: 0 <= n < Columns(v, s) ==> Fits(v, w, s, n, base, y, h)) <==>
              Gentle(Peak(v, w, s), y, h as real)
  {
    if Gentle(Peak(v, w, s), y, h as real) {
      forall n | 0 <= n < Columns(v, s) ensures Fits(v, w, s, n, base, y, h) {
        HighestIsMax(ValuesOf(v, w, s), Columns(v, s), n);
        LowerIsGentle(ColumnValue(v, w, s, Start(n, s)), Peak(v, w, s), y, h as real);
        BarWithinIff(v, w, s, Start(n, s), base, y, h);
      }
    } else {
      if Peak(v, w, s) <= 0.0 { TimesMonotone(Peak(v, w, s), 0.0, y); }
      HighestIsReached(ValuesOf(v, w, s), Columns(v, s));
      var n :| 0 <= n < Columns(v, s) && ValuesOf(v, w, s)(n) == Peak(v, w, s);
      BarWithinIff(v, w, s, Start(n, s), base, y, h);
      assert !Fits(v, w, s, n, base, y, h);
    }
  }

  /** No bar exceeds the frame, exactly when the peak is one that roundup covers. */
  lemma BarsFitIff(v: View, w: nat, s: Interval, drawh: int, base: int)
    requires drawh > 0
    ensures (forall n :: 0 <= n < Columns(v, s) ==> Fits(v, w, s, n, base, YScale(v, w, s, drawh), drawh)) <==>
              InScale(Peak(v, w, s), 1.0)
  {
    PeakFitsIff(Peak(v, w, s), 1.0, drawh as real);
    BarsFitIffPeakFits(v, w, s, base, YScale(v, w, s, drawh), drawh);
  }

  /** One host and one second with a primary sample of 2 * 10^13. */
  predicate HugeSample(v: View, w: nat) {
    && v.nsys == 1 && v.curtime == 1 && v.gauge && !Averaged(w)
    && At(v, w, 0) == 20_000_000_000_000 && At(v, w, Half(1)) == 0
  }

  lemma HugeColumn(v: View, w: nat, s: Interval)
    requires s == 1 && HugeSample(v, w)
    ensures ColumnValue(v, w, s, 0) > TOP
  {
    assert First(v, 0) == 0 && Width(v, s, 0) == 1 && Cells(v, s, 0) == 1;
    NoReps(v, w, 0, 1);
    DivideTimes(20_000_000_000_000.0, 1.0);
    assert Level(v, w, s, 0, 0, 0) == 0.0 && Level(v, w, s, 1, 0, 0) == 0.0;
    assert Offset(v, 0) == 0 && Offset(v, 1) == Half(1);
    assert Level(v, w, s, 0, 0, 1) == 20_000_000_000_000.0;
    assert Level(v, w, s, 1, 0, 1) == 0.0;
  }

  /** Its bar leaves the frame, whatever its height. */
  lemma HugeSampleOverflows(v: View, w: nat, s: Interval, drawh: int, base: int)
    requires s == 1 && HugeSample(v, w) && drawh > 0
    ensures 0 < Columns(v, s) && !Fits(v, w, s, 0, base, YScale(v, w, s, drawh), drawh)
  {
    HugeColumn(v, w, s);
    assert Columns(v, s) == 1 && Start(0, s) == 0 && ValuesOf(v, w, s)(0) > TOP;
    HighestIsMax(ValuesOf(v, w, s), 1, 0);
    BarsFitIff(v, w, s, drawh, base);
  }

  lemma HugeSampleExists()
    ensures exists v :: Wf(v) && HugeSample(v, W_OTHER)
  {
    var row := seq(2 * Half(1), c => if c == 0 then 20_000_000_000_000 else 0);
    var blank := seq(2 * Half(1), _ => 0);
    var v := View([blank, blank, blank, blank, row], 1, 1, true, 1);
    assert Wf(v) && HugeSample(v, W_OTHER);
  }

  /** The strokes run from the baseline up without gap or overlap, the primary one below. */
  predicate Rising(strokes: seq<Stroke>, base: int, top: int) {
    if |strokes| == 0 then top == base
    else if |strokes| == 1 then strokes[0].y2 == base && strokes[0].y1 == top
    else
      && |strokes| == 2 && strokes[0].level < strokes[1].level
      && strokes[0].y2 == base && strokes[1].y2 == strokes[0].y1 && strokes[1].y1 == top
  }

  predicate Shown(strokes: seq<Stroke>, level: nat) { exists p :: p in strokes && p.level == level }

  lemma StrokesRise(a: real, b: real, sum: real, base: int, y: real)
    requires a >= 0.0 && b >= 0.0 && sum == a + b
    ensures Rising(StrokesOf(a, b, base, y), base, base - Pixels(sum, y))
    ensures Shown(StrokesOf(a, b, base, y), 0) <==> a > 0.0
    ensures Shown(StrokesOf(a, b, base, y), 1) <==> b > 0.0
  {
    var strokes := StrokesOf(a, b, base, y);
    assert Pixels(0.0, y) == 0;
    if a > 0.0 { assert strokes[0].level == 0; }
    if b > 0.0 { assert strokes[|strokes| - 1].level == 1; }
  }

  /** The primary stroke stands on the baseline, as high as its part, rounded up to whole pixels. */
  predicate Measured(p: Stroke, part: real, base: int, y: real) {
    p.y2 == base && (p.y2 - p.y1) as real - 1.0 < part * y <= (p.y2 - p.y1) as real
  }

  lemma StrokesMeasure(a: real, b: real, base: int, y: real)
    ensures forall p <- StrokesOf(a, b, base, y) :: p.level < 2 && (p.level == 0 ==> Measured(p, a, base, y))
  {
    CeilBounds(a * y);
  }

  /** The bar of column n stands at column n and shows exactly its positive levels, the secondary on top of the primary,
      together as high as its value. */
  lemma BarShowsLevels(v: View, w: nat, s: Interval, n: nat, base: int, y: real)
    ensures var i := Start(n, s);
            var bar := BarOf(v, w, s, i, base, y);
            && bar.x == n
            && Rising(bar.strokes, base, base - Pixels(ColumnValue(v, w, s, i), y))
            && (forall p <- bar.strokes ::
                  p.level < 2 && (p.level == 0 ==> Measured(p, Part(v, w, s, i, 0), base, y)))
            && (Shown(bar.strokes, 0) <==> Part(v, w, s, i, 0) > 0.0)
            && (Shown(bar.strokes, 1) <==> Part(v, w, s, i, 1) > 0.0)
  {
    var i := Start(n, s);
    StartOver(n, s);
    PassesAgree(v, w, s, i);
    PartIsNotNegative(v, w, s, i, 0);
    PartIsNotNegative(v, w, s, i, 1);
    StrokesRise(Part(v, w, s, i, 0), Part(v, w, s, i, 1), ColumnValue(v, w, s, i), base, y);
    StrokesMeasure(Part(v, w, s, i, 0), Part(v, w, s, i, 1), base, y);
  }

  /** The scale is made for the highest column, which takes the whole frame once it is rounded up to the top of the
      axis. */
  lemma ScaleIsForHighestColumn(v: View, w: nat, s: Interval, drawh: int)
    ensures Peak(v, w, s) >= 0.0
    ensures forall n :: 0 <= n < Columns(v, s) ==> ColumnValue(v, w, s, Start(n, s)) <= Peak(v, w, s)
    ensures Peak(v, w, s) > 0.0 ==>
              exists n :: 0 <= n < Columns(v, s) && ColumnValue(v, w, s, Start(n, s)) == Peak(v, w, s)
    ensures MadeFor(YScale(v, w, s, drawh), Peak(v, w, s), 1.0, drawh as real)
  {
    AxisFillsRoom(Peak(v, w, s), 1.0, drawh as real);
    HighestIsNotNegative(ValuesOf(v, w, s), Columns(v, s));
    forall n | 0 <= n < Columns(v, s) ensures ColumnValue(v, w, s, Start(n, s)) <= Peak(v, w, s) {
      HighestIsMax(ValuesOf(v, w, s), Columns(v, s), n);
    }
    if Peak(v, w, s) > 0.0 {
      HighestIsReached(ValuesOf(v, w, s), Columns(v, s));
      var n :| 0 <= n < Columns(v, s) && ValuesOf(v, w, s)(n) == Peak(v, w, s);
      assert ColumnValue(v, w, s, Start(n, s)) == Peak(v, w, s);
    }
  }

  // ----- what the columns mean, by key -----

  /** x is the sum r divided by s and by the rate. */
  predicate Spread(x: real, r: nat, s: Interval, rate: real) { (x * rate) * s as real == r as real }

  lemma BitIsSpread(v: View, x: nat, s: Interval)
    ensures Spread(Bit(v, x, s), x, s, Rate(v))
  {
    DivideTimes(x as real, s as real);
    DivideTimes(x as real / s as real, Rate(v));
  }

  lemma SpreadSum(x: real, r: nat, x': real, r': nat, s: Interval, rate: real)
    requires Spread(x, r, s, rate) && Spread(x', r', s, rate)
    ensures Spread(x + x', r + r', s, rate)
  {
    Distribute(x, x', rate);
    Distribute(x * rate, x' * rate, s as real);
  }

  lemma {:induction false} LevelIsSpread(v: View, w: nat, s: Interval, level: nat, c: nat, q: nat, h: nat -> nat)
    requires forall e: nat :: h(e) == At(v, w, e + Offset(v, level))
    ensures Spread(Level(v, w, s, level, c, q), SumOf(h, c, c + q), s, Rate(v))
  {
    if q > 0 {
      LevelIsSpread(v, w, s, level, c, q - 1, h);
      BitIsSpread(v, h(c + q - 1), s);
      SpreadSum(Level(v, w, s, level, c, q - 1), SumOf(h, c, c + q - 1), Bit(v, h(c + q - 1), s), h(c + q - 1),
                s, Rate(v));
    }
  }

  lemma {:induction false} RepsAreSum(v: View, w: nat, c: nat, q: nat, h: nat -> nat)
    requires w <= 2 && forall e: nat :: h(e) == Reported(v, w, e)
    ensures Reps(v, w, c, q) == SumOf(h, c, c + q)
  {
    if q > 0 { RepsAreSum(v, w, c, q - 1, h); }
  }

  lemma {:induction false} NoReps(v: View, w: nat, c: nat, q: nat)
    requires !Averaged(w)
    ensures Reps(v, w, c, q) == 0
  {
    if q > 0 { NoReps(v, w, c, q - 1); }
  }

  /** All samples of one level in column n. */
  function LevelTotal(v: View, w: nat, s: Interval, n: nat, level: nat): nat {
    KeySum((t: nat, m: nat) => At(v, w, Cell(level, t, m, v.nsys)), v.nsys, n * s, End(v, s, n))
  }

  /** The number of hosts and seconds of column n with a positive primary sample. */
  function Reporting(v: View, w: nat, s: Interval, n: nat): nat {
    KeySum((t: nat, m: nat) => Reported(v, w, Cell(0, t, m, v.nsys)), v.nsys, n * s, End(v, s, n))
  }

  function Reported(v: View, w: nat, c: nat): nat { if At(v, w, c) > 0 then 1 else 0 }

  lemma ReportedOnCells(v: View, w: nat)
    ensures OnCells((e: nat) => Reported(v, w, e), (t: nat, m: nat) => Reported(v, w, Cell(0, t, m, v.nsys)), v.nsys)
  {
    forall t: nat, m: nat | m < v.nsys
      ensures Reported(v, w, t * v.nsys + m) == Reported(v, w, Cell(0, t, m, v.nsys))
    {
      CellOfRow(v, 0, t, m);
    }
  }

  /** What a level is divided by: in windows 0 to 2, which hold memory, processors and time, the number of samples
      reported, if any, and otherwise the seconds of a column. */
  function Divisor(v: View, w: nat, s: Interval, n: nat): Interval {
    if w <= 2 && Reporting(v, w, s, n) > 0 then Reporting(v, w, s, n) else s
  }

  lemma LevelOfIsSpread(v: View, w: nat, s: Interval, n: nat, level: nat)
    requires n < Columns(v, s) && level < 2
    ensures Spread(LevelOf(v, w, s, Start(n, s), level), LevelTotal(v, w, s, n, level), s, Rate(v))
  {
    var h := (e: nat) => At(v, w, e + Offset(v, level));
    var f := (t: nat, m: nat) => At(v, w, Cell(level, t, m, v.nsys));
    forall t: nat, m: nat | m < v.nsys ensures h(t * v.nsys + m) == f(t, m) {
      CellOfRow(v, level, t, m);
    }
    LevelIsSpread(v, w, s, level, First(v, Start(n, s)), Cells(v, s, Start(n, s)), h);
    ColumnCellsAreKeys(v, s, n, h, f);
  }

  lemma RepsAreReporting(v: View, w: nat, s: Interval, n: nat)
    requires n < Columns(v, s)
    ensures RepsOf(v, w, s, Start(n, s)) == if w <= 2 then Reporting(v, w, s, n) else 0
  {
    if w <= 2 {
      var h := (e: nat) => Reported(v, w, e);
      RepsAreSum(v, w, First(v, Start(n, s)), Cells(v, s, Start(n, s)), h);
      ReportedOnCells(v, w);
      ColumnCellsAreKeys(v, s, n, h, (t: nat, m: nat) => Reported(v, w, Cell(0, t, m, v.nsys)));
    } else {
      NoReps(v, w, First(v, Start(n, s)), Cells(v, s, Start(n, s)));
    }
  }

  lemma MeanOfSpread(x: real, r: nat, reps: nat, s: Interval, rate: real)
    requires Spread(x, r, s, rate) && reps > 0
    ensures Spread(Mean(x, reps, s), r, reps, rate)
  {
    var t, d := reps as real / s as real, s as real;
    RatioIsPositive(reps, s);
    DivideTimes(reps as real, d);
    DivideTimes(x, t);
    Regroup(x / t, t, d, rate);
  }

  lemma Regroup(m: real, t: real, d: real, rate: real)
    ensures (m * rate) * (t * d) == ((m * t) * rate) * d
  {
  }

  lemma MeanIsSpread(x: real, r: nat, reps: nat, s: Interval, rate: real)
    requires Spread(x, r, s, rate)
    ensures Spread(Mean(x, reps, s), r, if reps > 0 then reps else s, rate)
  {
    if reps > 0 { MeanOfSpread(x, r, reps, s, rate); }
  }

  /** Each level of a column is drawn as the sum of its samples, over all hosts and the seconds of the column, divided
      by the divisor and by the interval unless samples are gauges. */
  lemma LevelsAreMeans(v: View, w: nat, s: Interval, n: nat, level: nat)
    requires n < Columns(v, s) && level < 2
    ensures var rate := if v.gauge then 1.0 else v.interval as real;
            Spread(Part(v, w, s, Start(n, s), level), LevelTotal(v, w, s, n, level), Divisor(v, w, s, n), rate)
  {
    LevelOfIsSpread(v, w, s, n, level);
    RepsAreReporting(v, w, s, n);
    MeanIsSpread(LevelOf(v, w, s, Start(n, s), level), LevelTotal(v, w, s, n, level), RepsOf(v, w, s, Start(n, s)),
                 s, Rate(v));
  }

  // ----- the columns add up -----

  function ValueSum(v: View, w: nat, s: Interval, n: nat): real {
    if n == 0 then 0.0 else ValueSum(v, w, s, n - 1) + ColumnValue(v, w, s, Start(n - 1, s))
  }

  /** Both levels of one key. */
  function Both(v: View, w: nat): (nat, nat) -> nat {
    (t: nat, m: nat) => At(v, w, Cell(0, t, m, v.nsys)) + At(v, w, Cell(1, t, m, v.nsys))
  }

  lemma {:induction false} SumsAdd(f: nat -> nat, g: nat -> nat, h: nat -> nat, lo: nat, hi: nat)
    requires forall k: nat :: h(k) == f(k) + g(k)
    ensures SumOf(h, lo, hi) == SumOf(f, lo, hi) + SumOf(g, lo, hi)
  {
    if lo < hi { SumsAdd(f, g, h, lo, hi - 1); }
  }

  lemma KeySumsAdd(f: (nat, nat) -> nat, g: (nat, nat) -> nat, h: (nat, nat) -> nat, nsys: nat, lo: nat, hi: nat)
    requires forall t: nat, m: nat :: h(t, m) == f(t, m) + g(t, m)
    ensures KeySum(h, nsys, lo, hi) == KeySum(f, nsys, lo, hi) + KeySum(g, nsys, lo, hi)
  {
    var rf := (t: nat) => SumOf((m: nat) => f(t, m), 0, nsys);
    var rg := (t: nat) => SumOf((m: nat) => g(t, m), 0, nsys);
    var rh := (t: nat) => SumOf((m: nat) => h(t, m), 0, nsys);
    forall t: nat ensures rh(t) == rf(t) + rg(t) {
      SumsAdd((m: nat) => f(t, m), (m: nat) => g(t, m), (m: nat) => h(t, m), 0, nsys);
    }
    SumsAdd(rf, rg, rh, lo, hi);
  }

  lemma ValueIsSpread(v: View, w: nat, s: Interval, n: nat)
    requires n < Columns(v, s) && w >= 3
    ensures Spread(ColumnValue(v, w, s, Start(n, s)), KeySum(Both(v, w), v.nsys, n * s, End(v, s, n)), s, Rate(v))
  {
    LevelsAreMeans(v, w, s, n, 0);
    LevelsAreMeans(v, w, s, n, 1);
    PassesAgree(v, w, s, Start(n, s));
    SpreadSum(Part(v, w, s, Start(n, s), 0), LevelTotal(v, w, s, n, 0),
              Part(v, w, s, Start(n, s), 1), LevelTotal(v, w, s, n, 1), s, Rate(v));
    KeySumsAdd((t: nat, m: nat) => At(v, w, Cell(0, t, m, v.nsys)), (t: nat, m: nat) => At(v, w, Cell(1, t, m, v.nsys)),
               Both(v, w), v.nsys, n * s, End(v, s, n));
  }

  /** The first second not in the first n columns. */
  function Reach(v: View, s: Interval, n: nat): nat { if n == 0 then 0 else End(v, s, n - 1) }

  lemma ReachIsNextStart(v: View, s: Interval, n: nat)
    requires n < Columns(v, s)
    ensures Reach(v, s, n) == n * s <= End(v, s, n)
    ensures n + 1 == Columns(v, s) ==> End(v, s, n) == if v.curtime == 0 then 1 else v.curtime
  {
    ColumnStarts(v, s, n);
    ColumnStarts(v, s, n + 1);
    StartStep(n, s);
    if n > 0 { StartStep(n - 1, s); }
  }

  lemma KeySumSplits(f: (nat, nat) -> nat, nsys: nat, mid: nat, hi: nat)
    requires mid <= hi
    ensures KeySum(f, nsys, 0, hi) == KeySum(f, nsys, 0, mid) + KeySum(f, nsys, mid, hi)
  {
    SumSplits((t: nat) => SumOf((m: nat) => f(t, m), 0, nsys), 0, mid, hi);
  }

  lemma {:induction false} ColumnsAreSpread(v: View, w: nat, s: Interval, n: nat)
    requires w >= 3 && n <= Columns(v, s)
    ensures Spread(ValueSum(v, w, s, n), KeySum(Both(v, w), v.nsys, 0, Reach(v, s, n)), s, Rate(v))
  {
    if n > 0 {
      var f := Both(v, w);
      ColumnsAreSpread(v, w, s, n - 1);
      ReachIsNextStart(v, s, n - 1);
      ValueIsSpread(v, w, s, n - 1);
      KeySumSplits(f, v.nsys, (n - 1) * s, End(v, s, n - 1));
      SpreadSum(ValueSum(v, w, s, n - 1), KeySum(f, v.nsys, 0, (n - 1) * s), ColumnValue(v, w, s, Start(n - 1, s)),
                KeySum(f, v.nsys, (n - 1) * s, End(v, s, n - 1)), s, Rate(v));
    }
  }

  /** The columns of a window that is not averaged, times the seconds of a column and the interval, add up to all
      samples of both levels of all hosts and all seconds the clock has passed (of the first second, if it has passed none). */
  lemma ColumnsAddUp(v: View, w: nat, s: Interval)
    requires w >= 3
    ensures var rate, past := if v.gauge then 1.0 else v.interval as real, if v.curtime == 0 then 1 else v.curtime;
            Spread(ValueSum(v, w, s, Columns(v, s)), KeySum(Both(v, w), v.nsys, 0, past), s, rate)
  {
    ReachIsNextStart(v, s, Columns(v, s) - 1);
    ColumnsAreSpread(v, w, s, Columns(v, s));
  }
}
