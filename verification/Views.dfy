/** What the drawing functions see: the sample arrays and the clock at one moment, and the frame they draw
    into.  Drawing calls are replaced by the numbers passed to them. */
module Views {
  import opened Lines
  import opened Samples
  import opened Scale

  /** The command line only accepts a positive interval. */
  type Interval = n: nat | n >= 1 witness 1

  datatype View = View(store: seq<seq<nat>>, nsys: nat, curtime: nat, gauge: bool, interval: Interval)

  ghost predicate Wf(v: View) {
    && |v.store| >= W_USER && v.curtime <= DEFTLEN
    && (forall k :: 0 <= k < |v.store| ==> |v.store[k]| == 2 * Half(v.nsys))
  }

  /** A view of a grapher between two events. */
  ghost predicate Shows(g: Grapher, v: View)
    reads g, g.samps
  {
    && v.nsys == g.nsys && v.curtime == g.curtime && |v.store| == |g.samps|
    && (forall k :: 0 <= k < |v.store| ==> v.store[k] == g.samps[k][..])
  }

  /** Every grapher that update and readin can produce gives a well-formed view: the clock never runs past
      the time axis. */
  lemma GraphersGiveGoodViews(g: Grapher, v: View)
    requires g.Valid() && Shows(g, v) && |g.samps| >= W_USER
    ensures Wf(v)
  {
  }

  /** The sample in cell c of window k. */
  function At(v: View, k: nat, c: nat): nat {
    if k < |v.store| && c < |v.store[k]| then v.store[k][c] else 0
  }

  /** The last complete second. */
  function Cxtime(v: View): nat { if v.curtime == 0 then 0 else v.curtime - 1 }

  /** Samples are shown per second, unless they are gauges. */
  function Rate(v: View): (r: real)
    ensures r >= 1.0
  {
    if v.gauge then 1.0 else v.interval as real
  }

  // ----- maxima -----

  /** The highest of f(0), ..., f(n - 1), or 0: every graph's first pass. */
  function Highest(f: nat -> real, n: nat): real {
    if n == 0 then 0.0 else if Highest(f, n - 1) < f(n - 1) then f(n - 1) else Highest(f, n - 1)
  }

  lemma {:induction false} HighestIsMax(f: nat -> real, n: nat, i: nat)
    requires i < n
    ensures f(i) <= Highest(f, n)
  {
    if i < n - 1 { HighestIsMax(f, n - 1, i); }
  }

  lemma {:induction false} HighestIsNotNegative(f: nat -> real, n: nat)
    ensures Highest(f, n) >= 0.0
  {
    if n > 0 { HighestIsNotNegative(f, n - 1); }
  }

  lemma {:induction false} HighestIsReached(f: nat -> real, n: nat)
    requires Highest(f, n) > 0.0
    ensures exists i :: 0 <= i < n && f(i) == Highest(f, n)
  {
    if Highest(f, n) != f(n - 1) { HighestIsReached(f, n - 1); }
  }

  // ----- scales -----

  /** The number of pixels kept free for rounding, plus one. */
  function Delta(v: View): int { 1 + |v.store| - W_OTHER }

  // ----- arithmetic on reals -----

  lemma Distribute(a: real, b: real, y: real)
    ensures (a + b) * y == a * y + b * y
  {
  }

  lemma TimesMonotone(a: real, b: real, y: real)
    requires a <= b && y >= 0.0
    ensures a * y <= b * y
  {
  }

  lemma DivideTimes(d: real, l: real)
    requires l > 0.0
    ensures (d / l) * l == d
  {
  }

  /** Pixels per sample: d pixels for an axis up to l a second. */
  function Scaled(d: real, l: real, r: real): real
    requires l > 0.0 && r > 0.0
  {
    (d / l) / r
  }

  lemma ScaleIsNotNegative(d: real, l: real, r: real)
    requires d >= 0.0 && l > 0.0 && r > 0.0
    ensures Scaled(d, l, r) >= 0.0 && (d > 0.0 ==> Scaled(d, l, r) > 0.0)
  {
  }

  /** A scale that maps l * r to d. */
  lemma FullScale(d: real, l: real, r: real)
    requires l > 0.0 && r > 0.0
    ensures (l * r) * Scaled(d, l, r) == d
  {
    var q := d / l;
    DivideTimes(d, l);
    DivideTimes(q, r);
    assert (l * r) * (q / r) == l * ((q / r) * r);
  }

  /** The scale keeps a peak m within d pixels. */
  predicate Gentle(m: real, y: real, d: real) { y >= 0.0 && m * y <= d }

  lemma ScaledIsGentleIff(m: real, l: real, r: real, d: real)
    requires l > 0.0 && r > 0.0 && d >= 0.0
    ensures m <= l * r ==> Gentle(m, Scaled(d, l, r), d)
    ensures m > l * r && d > 0.0 ==> !Gentle(m, Scaled(d, l, r), d)
  {
    var y := Scaled(d, l, r);
    ScaleIsNotNegative(d, l, r);
    FullScale(d, l, r);
    if m <= l * r {
      TimesMonotone(m, l * r, y);
    } else if d > 0.0 {
      TimesStrict(l * r, m, y);
    }
  }

  lemma TimesStrict(a: real, b: real, y: real)
    requires a < b && y > 0.0
    ensures a * y < b * y
  {
  }

  /** The top of the axis for a peak m at r seconds a sample. */
  function AxisFor(m: real, r: real): (top: real)
    requires r >= 1.0
    ensures top >= 10.0
  {
    RoundedAtLeastTen(m / r);
    Rounded(m / r)
  }

  function ScaleFor(m: real, r: real, d: real): real
    requires r >= 1.0
  {
    Scaled(d, AxisFor(m, r), r)
  }

  /** A peak of at most 10^13 a second, the limit of roundup. */
  predicate InScale(m: real, r: real) { m <= TOP * r }

  /** The top l of the axis covers the peak exactly within that range. */
  predicate AxisCoversPeak(m: real, l: real, r: real) { InScale(m, r) <==> m <= l * r }

  lemma AxisCovers(m: real, r: real)
    requires r >= 1.0
    ensures AxisCoversPeak(m, AxisFor(m, r), r)
  {
    DivideTimes(m, r);
    RoundedCoversPeak(m, m / r, r);
  }

  lemma RoundedCoversPeak(m: real, x: real, r: real)
    requires r >= 1.0 && x * r == m
    ensures AxisCoversPeak(m, Rounded(x), r)
  {
    RoundedCovers(x);
    CoversIff(m, x, Rounded(x), r);
  }

  lemma CoversIff(m: real, x: real, l: real, r: real)
    requires r >= 1.0 && x * r == m
    requires if x <= TOP then x <= l else l == TOP
    ensures AxisCoversPeak(m, l, r)
  {
    if x <= TOP {
      TimesMonotone(x, TOP, r);
      TimesMonotone(x, l, r);
    } else {
      TimesStrict(TOP, x, r);
    }
  }

  /** With the axis roundup picks, the peak is drawn within d pixels exactly up to roundup's limit; above
      it the axis stops growing and the peak overshoots. */
  lemma PeakFitsIff(m: real, r: real, d: real)
    requires r >= 1.0 && d >= 0.0
    ensures d > 0.0 ==> ScaleFor(m, r, d) > 0.0
    ensures InScale(m, r) ==> Gentle(m, ScaleFor(m, r, d), d)
    ensures !InScale(m, r) && d > 0.0 ==> !Gentle(m, ScaleFor(m, r, d), d)
  {
    AxisCovers(m, r);
    ScaleFitsIff(m, AxisFor(m, r), r, d);
  }

  /** On the scale y, the value l at r seconds a sample is drawn exactly d pixels high. */
  predicate Fills(l: real, r: real, y: real, d: real) { (l * r) * y == d }

  /** The scale y is made for the peak m: the peak a second, rounded up to the top of the axis, is drawn exactly d
      pixels high. */
  predicate MadeFor(y: real, m: real, r: real, d: real)
    requires r >= 1.0
  {
    Fills(Rounded(m / r), r, y, d)
  }

  lemma AxisFillsRoom(m: real, r: real, d: real)
    requires r >= 1.0
    ensures AxisFor(m, r) == Rounded(m / r) && Fills(AxisFor(m, r), r, ScaleFor(m, r, d), d)
    ensures MadeFor(ScaleFor(m, r, d), m, r, d)
  {
    ScaledFills(AxisFor(m, r), r, d);
  }

  lemma ScaledFills(l: real, r: real, d: real)
    requires l > 0.0 && r > 0.0
    ensures Fills(l, r, Scaled(d, l, r), d)
  {
    FullScale(d, l, r);
  }

  /** The peak takes more than half of the room and no more than all of it. */
  predicate UsesHalf(m: real, y: real, d: real) { d < 2.0 * (m * y) <= 2.0 * d }

  predicate PerSecond(x: real, m: real, r: real) { x * r == m }

  lemma HalfIsUsed(m: real, x: real, l: real, r: real, y: real, d: real)
    requires PerSecond(x, m, r) && x <= l < 2.0 * x && r > 0.0 && y > 0.0 && Fills(l, r, y, d)
    ensures UsesHalf(m, y, d)
  {
    TimesStrict(l, 2.0 * x, r);
    TimesMonotone(x, l, r);
    TimesStrict(l * r, 2.0 * m, y);
    TimesMonotone(m, l * r, y);
  }

  lemma QuotientIsPerSecond(m: real, r: real)
    requires r >= 1.0
    ensures PerSecond(m / r, m, r)
  {
    DivideTimes(m, r);
  }

  lemma ScaleIsPositive(m: real, r: real, d: real)
    requires r >= 1.0 && d > 0.0
    ensures ScaleFor(m, r, d) > 0.0
  {
    ScaleIsNotNegative(d, AxisFor(m, r), r);
  }

  /** So a peak of more than 10 a second is drawn more than half as high. */
  lemma PeakFillsHalf(m: real, r: real, d: real)
    requires r >= 1.0 && d > 0.0 && 10.0 < m / r <= TOP
    ensures UsesHalf(m, ScaleFor(m, r, d), d)
  {
    QuotientIsPerSecond(m, r);
    AxisFillsRoom(m, r, d);
    TopIsNear(m / r, AxisFor(m, r));
    ScaleIsPositive(m, r, d);
    HalfIsUsed(m, m / r, AxisFor(m, r), r, ScaleFor(m, r, d), d);
  }

  lemma TopIsNear(x: real, l: real)
    requires l == Rounded(x) && 10.0 < x <= TOP
    ensures x <= l < 2.0 * x
  {
    RoundedBelowDouble(x);
    RoundedCovers(x);
  }

  lemma ScaleFitsIff(m: real, l: real, r: real, d: real)
    requires r >= 1.0 && d >= 0.0 && l > 0.0 && AxisCoversPeak(m, l, r)
    ensures d > 0.0 ==> Scaled(d, l, r) > 0.0
    ensures InScale(m, r) ==> Gentle(m, Scaled(d, l, r), d)
    ensures !InScale(m, r) && d > 0.0 ==> !Gentle(m, Scaled(d, l, r), d)
  {
    ScaleIsNotNegative(d, l, r);
    ScaledIsGentleIff(m, l, r, d);
  }

  lemma NoHeight(y: real)
    ensures Ceil(0.0 * y) == 0
  {
  }

  /** A positive share is at least a pixel high. */
  lemma PositiveIsAPixel(share: real, y: real)
    requires y > 0.0 && share >= 0.0
    ensures Ceil(share * y) >= 1 <==> share > 0.0
  {
    CeilAtMost(share * y, 0);
    if share > 0.0 { TimesStrict(0.0, share, y); }
  }

  /** p pixels are less than the scaled samples s and the pixels kept for rounding. */
  predicate Below(p: int, s: real, y: real, spare: int) { (p as real) < s * y + spare as real }

  /** One more sample a costs less than its scaled height and a pixel. */
  lemma BelowStep(p: int, s: real, a: real, y: real, spare: int)
    requires Below(p, s, y, spare) || (p == 0 && s == 0.0 && spare == 0)
    ensures Below(p + Ceil(a * y), s + a, y, spare + 1)
  {
    CeilBounds(a * y);
    Distribute(s, a, y);
  }

  lemma Squeeze(p: int, s: real, m: real, y: real, delta: int, drawh: int)
    requires s <= m && Below(p, s, y, delta - 1) && Gentle(m, y, (drawh - delta) as real)
    ensures p < drawh - 1
  {
    TimesMonotone(s, m, y);
  }
}
