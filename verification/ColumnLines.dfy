/** One column of the historical aggregate graph, given every window's share of it. */
module ColumnLines {
  import opened Lines
  import opened Scale
  import opened Views

  /** One vertical line: a level of a window.  Columns are one pixel wide. */
  datatype Line = Line(level: nat, y1: int, y2: int)

  /** The two levels of every window in one column; only traffic windows have a share. */
  datatype Shares = Shares(primary: seq<real>, secondary: seq<real>)

  predicate Covers(c: Shares, n: nat) { n <= |c.primary| == |c.secondary| }

  function Pixels(share: real, y: real): int { Ceil(share * y) }

  /** The height kept for the windows below n: both levels of a window rounded up together. */
  function Reserved(c: Shares, n: nat, y: real): int
    requires Covers(c, n)
  {
    if n <= W_OTHER then 0
    else Reserved(c, n - 1, y) + Pixels(c.primary[n - 1] + c.secondary[n - 1], y)
  }

  /** The height drawn for the windows below n: the levels rounded up separately. */
  function Drawn(c: Shares, n: nat, y: real): int
    requires Covers(c, n)
  {
    if n <= W_OTHER then 0
    else Drawn(c, n - 1, y) + Pixels(c.primary[n - 1], y) + Pixels(c.secondary[n - 1], y)
  }

  /** The lines of one window with primary share a and secondary share b, from `from` down. */
  function WindowLines(a: real, b: real, from: int, y: real): seq<Line> {
    (if a == 0.0 then [] else [Line(0, from, from + Pixels(a, y))])
    + (if b == 0.0 then [] else [Line(1, from + Pixels(a, y), from + Pixels(a, y) + Pixels(b, y))])
  }

  function WindowAt(c: Shares, k: nat, top: int, y: real): seq<Line>
    requires Covers(c, k + 1)
  {
    if k < W_OTHER then [] else WindowLines(c.primary[k], c.secondary[k], top + Drawn(c, k, y), y)
  }

  /** The lines of every window of a column, in the order in which they are drawn. */
  function LinesOf(c: Shares, n: nat, top: int, y: real): (lines: seq<seq<Line>>)
    requires Covers(c, n)
    ensures |lines| == n
  {
    seq(n, k requires 0 <= k < n => WindowAt(c, k, top, y))
  }

  // ----- the loops -----

  /** The loop that finds the top of the column. */
  method Reserve(c: Shares, base: int, y: real, ax: array<real>, bx: array<real>) returns (pos: int)
    requires ax[..] == c.primary && bx[..] == c.secondary && ax.Length == bx.Length >= W_OTHER
    ensures pos == base - Reserved(c, ax.Length, y)
  {
    pos := base;
    for k := W_OTHER to ax.Length
      invariant pos == base - Reserved(c, k, y)
    {
      if ax[k] != 0.0 || bx[k] != 0.0 {
        pos := pos - Pixels(ax[k] + bx[k], y);
      } else {
        NoHeight(y);
      }
    }
  }

  /** The body of the drawing loop. */
  method DrawWindow(a: real, b: real, from: int, y: real) returns (pos: int, lines: seq<Line>)
    ensures pos == from + Pixels(a, y) + Pixels(b, y) && lines == WindowLines(a, b, from, y)
  {
    NoHeight(y);
    pos, lines := from, [];
    if a != 0.0 {
      lines := lines + [Line(0, pos, pos + Pixels(a, y))];
      pos := pos + Pixels(a, y);
    }
    if b != 0.0 {
      lines := lines + [Line(1, pos, pos + Pixels(b, y))];
      pos := pos + Pixels(b, y);
    }
  }

  /** The loop that draws the column from its top. */
  method DrawLines(c: Shares, top: int, y: real, ax: array<real>, bx: array<real>) returns (lines: seq<seq<Line>>)
    requires ax[..] == c.primary && bx[..] == c.secondary && ax.Length == bx.Length >= W_OTHER
    ensures lines == LinesOf(c, ax.Length, top, y)
  {
    lines := seq(W_OTHER, _ => []);
    var pos := top;
    for k := W_OTHER to ax.Length
      invariant pos == top + Drawn(c, k, y)
      invariant |lines| == k && forall j :: 0 <= j < k ==> lines[j] == WindowAt(c, j, top, y)
    {
      var window;
      pos, window := DrawWindow(ax[k], bx[k], pos, y);
      lines := lines + [window];
    }
  }

  /** The column's top, found before its lines are drawn. */
  method DrawShares(c: Shares, base: int, y: real, ax: array<real>, bx: array<real>)
    returns (top: int, lines: seq<seq<Line>>)
    requires ax[..] == c.primary && bx[..] == c.secondary && ax.Length == bx.Length >= W_OTHER
    ensures top == base - Reserved(c, ax.Length, y) && lines == LinesOf(c, ax.Length, top, y)
  {
    top := Reserve(c, base, y, ax, bx);
    lines := DrawLines(c, top, y, ax, bx);
  }

  // ----- the height reserved -----

  /** All shares of the windows below n. */
  function Total(c: Shares, n: nat): real
    requires Covers(c, n)
  {
    if n <= W_OTHER then 0.0 else Total(c, n - 1) + (c.primary[n - 1] + c.secondary[n - 1])
  }

  /** Rounding up both levels of a window together costs less than one pixel a window. */
  lemma {:induction false} ReservedBelow(c: Shares, n: nat, y: real)
    requires Covers(c, n) && n > W_OTHER
    ensures Below(Reserved(c, n, y), Total(c, n), y, n - W_OTHER)
  {
    if n - 1 > W_OTHER { ReservedBelow(c, n - 1, y); }
    BelowStep(Reserved(c, n - 1, y), Total(c, n - 1), c.primary[n - 1] + c.secondary[n - 1], y, n - 1 - W_OTHER);
  }

  // ----- the height drawn -----

  /** What rounding up adds to a share. */
  function Excess(share: real, y: real): real { Pixels(share, y) as real - share * y }

  /** The excesses of the two levels make up a whole pixel. */
  predicate Spills(a: real, b: real, y: real) { Excess(a, y) + Excess(b, y) >= 1.0 }

  /** Rounding the levels separately costs exactly one pixel more than together if they spill. */
  lemma PairExact(a: real, b: real, y: real)
    ensures Pixels(a, y) + Pixels(b, y) == Pixels(a + b, y) + if Spills(a, b, y) then 1 else 0
    ensures Spills(a, b, y) ==> a != 0.0 && b != 0.0
  {
    Distribute(a, b, y);
    CeilBounds(a * y);
    CeilBounds(b * y);
    CeilBounds((a + b) * y);
    NoHeight(y);
  }

  /** Traffic windows below n whose levels spill. */
  function Spilling(c: Shares, n: nat, y: real): nat
    requires Covers(c, n)
  {
    if n <= W_OTHER then 0
    else Spilling(c, n - 1, y) + if Spills(c.primary[n - 1], c.secondary[n - 1], y) then 1 else 0
  }

  /** A column is drawn exactly one pixel higher than was reserved for every window that spills. */
  lemma {:induction false} OvershootExact(c: Shares, n: nat, y: real)
    requires Covers(c, n)
    ensures Drawn(c, n, y) == Reserved(c, n, y) + Spilling(c, n, y)
  {
    if n > W_OTHER {
      OvershootExact(c, n - 1, y);
      PairExact(c.primary[n - 1], c.secondary[n - 1], y);
    }
  }

  /** So it ends where it should exactly if no traffic window spills. */
  lemma {:induction false} NoOvershootIff(c: Shares, n: nat, y: real)
    requires Covers(c, n)
    ensures Spilling(c, n, y) == 0 <==> forall k :: W_OTHER <= k < n ==> !Spills(c.primary[k], c.secondary[k], y)
  {
    if n > W_OTHER { NoOvershootIff(c, n - 1, y); }
  }

  /** Windows below n with both primary and secondary traffic in the column. */
  function Both(c: Shares, n: nat): nat
    requires Covers(c, n)
  {
    if n <= W_OTHER then 0
    else Both(c, n - 1) + if c.primary[n - 1] != 0.0 && c.secondary[n - 1] != 0.0 then 1 else 0
  }

  /** Only windows with both levels spill. */
  lemma {:induction false} SpillingAtMostBoth(c: Shares, n: nat, y: real)
    requires Covers(c, n)
    ensures Spilling(c, n, y) <= Both(c, n)
  {
    if n > W_OTHER {
      SpillingAtMostBoth(c, n - 1, y);
      PairExact(c.primary[n - 1], c.secondary[n - 1], y);
    }
  }

  /** The at most two lines of one window run from `from` to `to` without gap or overlap. */
  predicate Joined(lines: seq<Line>, from: int, to: int) {
    if |lines| == 0 then from == to
    else if |lines| == 1 then lines[0].y1 == from && lines[0].y2 == to
    else |lines| == 2 && lines[0].y1 == from && lines[0].y2 == lines[1].y1 && lines[1].y2 == to
  }

  lemma WindowJoins(a: real, b: real, from: int, y: real)
    ensures Joined(WindowLines(a, b, from, y), from, from + Pixels(a, y) + Pixels(b, y))
  {
    NoHeight(y);
  }

  /** Every window of a column starts where the one before it ends: Drawn(k) pixels below the top. */
  lemma LinesJoin(c: Shares, n: nat, top: int, y: real, k: nat)
    requires Covers(c, n) && k < n
    ensures Joined(LinesOf(c, n, top, y)[k], top + Drawn(c, k, y), top + Drawn(c, k + 1, y))
  {
    if k >= W_OTHER {
      WindowJoins(c.primary[k], c.secondary[k], top + Drawn(c, k, y), y);
    }
  }

  // ----- which lines are drawn -----

  predicate Shown(lines: seq<Line>, level: nat) { exists l :: l in lines && l.level == level }

  lemma ShownIffShare(a: real, b: real, from: int, y: real)
    ensures Shown(WindowLines(a, b, from, y), 0) <==> a != 0.0
    ensures Shown(WindowLines(a, b, from, y), 1) <==> b != 0.0
    ensures a >= 0.0 && b >= 0.0 && y > 0.0 ==> forall l <- WindowLines(a, b, from, y) :: l.y2 > l.y1
  {
    if a >= 0.0 && b >= 0.0 && y > 0.0 {
      PositiveIsAPixel(a, y);
      PositiveIsAPixel(b, y);
    }
    var lines := WindowLines(a, b, from, y);
    if a != 0.0 { assert lines[0].level == 0; }
    if b != 0.0 { assert lines[|lines| - 1].level == 1; }
  }

  /** As high as the share, rounded up to whole pixels. */
  predicate Measured(l: Line, share: real, y: real) {
    (l.y2 - l.y1) as real - 1.0 < share * y <= (l.y2 - l.y1) as real
  }

  /** The primary line comes first. */
  predicate PrimaryFirst(lines: seq<Line>) {
    |lines| <= 2 && (|lines| == 2 ==> lines[0].level == 0 && lines[1].level == 1)
  }

  lemma WindowMeasures(a: real, b: real, from: int, y: real)
    ensures PrimaryFirst(WindowLines(a, b, from, y))
    ensures forall l <- WindowLines(a, b, from, y) ::
              (l.level == 0 && Measured(l, a, y)) || (l.level == 1 && Measured(l, b, y))
  {
    CeilBounds(a * y);
    CeilBounds(b * y);
  }

  lemma LinesMeasure(c: Shares, n: nat, top: int, y: real, k: nat)
    requires Covers(c, n) && W_OTHER <= k < n
    ensures var lines := LinesOf(c, n, top, y)[k];
            && PrimaryFirst(lines)
            && forall l <- lines ::
                 (l.level == 0 && Measured(l, c.primary[k], y)) || (l.level == 1 && Measured(l, c.secondary[k], y))
  {
    WindowMeasures(c.primary[k], c.secondary[k], top + Drawn(c, k, y), y);
  }

  lemma LinesShowShares(c: Shares, n: nat, top: int, y: real, k: nat)
    requires Covers(c, n) && W_OTHER <= k < n
    ensures Shown(LinesOf(c, n, top, y)[k], 0) <==> c.primary[k] != 0.0
    ensures Shown(LinesOf(c, n, top, y)[k], 1) <==> c.secondary[k] != 0.0
    ensures c.primary[k] >= 0.0 && c.secondary[k] >= 0.0 && y > 0.0 ==>
              forall l <- LinesOf(c, n, top, y)[k] :: l.y2 > l.y1
  {
    ShownIffShare(c.primary[k], c.secondary[k], top + Drawn(c, k, y), y);
  }
}
