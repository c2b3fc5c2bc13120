/** The width of the historical graphs: configure_event picks how many seconds share a pixel column and how
    wide the right margin becomes. */
module Margins {
  import opened Arithmetic
  import opened Samples
  import opened Scale
  import opened Views
  import opened Timeline

  /** Seconds a column for w pixels. */
  function SperpxFor(w: int): int
    requires w != 0
  {
    Ceil(DEFTLEN as real / w as real)
  }

  lemma TimesPositive(x: real, w: nat, t: int)
    requires w >= 1
    ensures x / w as real <= t as real <==> x <= (t * w) as real
  {
    DivideTimes(x, w as real);
    assert (t * w) as real == t as real * w as real;
    if x / w as real <= t as real {
      TimesMonotone(x / w as real, t as real, w as real);
    } else {
      TimesStrict(t as real, x / w as real, w as real);
    }
  }

  /** The whole time axis of 1860 seconds fits into w pixels of t seconds exactly if t is at least the number chosen. */
  lemma SperpxIsLeast(w: nat, t: int)
    requires w >= 1
    ensures SperpxFor(w) <= t <==> 1860 <= t * w
    ensures SperpxFor(w) >= 1
  {
    CeilAtMost(DEFTLEN as real / w as real, t);
    TimesPositive(DEFTLEN as real, w, t);
    CeilAtMost(DEFTLEN as real / w as real, 0);
    TimesPositive(DEFTLEN as real, w, 0);
  }

  /** A window too narrow for its margins would get no usable number. */
  lemma SperpxIsPositiveIff(w: int)
    requires w != 0
    ensures SperpxFor(w) >= 1 <==> w >= 1
  {
    if w >= 1 {
      SperpxIsLeast(w, 1);
    } else {
      CeilAtMost(DEFTLEN as real / w as real, 0);
    }
  }

  lemma SperpxIsZeroIff(w: int)
    requires w != 0
    ensures SperpxFor(w) == 0 <==> w + DEFTLEN < 0
  {
    var x := DEFTLEN as real / w as real;
    CeilAtMost(x, 0);
    CeilAtMost(x, -1);
    if w >= 1 {
      SperpxIsLeast(w, 1);
    } else {
      DivideTimes(DEFTLEN as real, -w as real);
      assert x == -(DEFTLEN as real / (-w) as real);
      TimesPositive(DEFTLEN as real, -w, 1);
      if x == -1.0 { assert DEFTLEN as real == (-w) as real; }
    }
  }

  /** C's division. */
  function Divide(a: nat, b: int): int
    requires b != 0
  {
    if b > 0 then a / b else -(a / -b)
  }

  /** It truncates. */
  lemma DivideTruncates(a: nat, b: int)
    requires b != 0
    ensures b > 0 ==> 0 <= a - b * Divide(a, b) < b
    ensures b < 0 ==> 0 <= a - b * Divide(a, b) < -b
  {
    if b < 0 {
      var q := a / -b;
      assert b * Divide(a, b) == (-b) * q;
    }
  }

  lemma ColumnsInWidth(w: nat, s: Interval)
    requires w >= 1 && s == SperpxFor(w)
    ensures DEFTLEN / s <= w
  {
    SperpxIsLeast(w, s);
    assert DEFTLEN < w * s + s;
    DividesBelow(w + 1, DEFTLEN, s);
    assert (w + 1) * s == w * s + s;
  }

  /** The historical half of a window; left and right depend on the font. */
  class Graph {
    const left: nat
    const right: nat
    var sperpx: int
    var rm: int

    constructor (left: nat, right: nat)
      ensures this.left == left && this.right == right
    {
      this.left, this.right := left, right;
    }

    /** Pixels for the time axis in a window of the given width. */
    function Room(width: int): int { width - left - right - 2 }

    /** A resized window.  False if the width makes the code divide by zero; a number of seconds to draw with
        results exactly from a width that leaves room for a column, and then the margin is kept. */
    method Configure(width: int) returns (defined: bool)
      modifies this
      ensures defined <==> width - left - right - 2 != 0 && width - left - right - 2 + 1860 >= 0
      ensures defined ==> sperpx == SperpxFor(width - left - right - 2) && sperpx != 0
      ensures defined ==> rm == width - Divide(DEFTLEN, sperpx) - left - 2
      ensures defined ==> (sperpx >= 1 <==> width - left - right - 2 >= 1)
      ensures width - left - right - 2 >= 1 ==> defined && rm >= right
    {
      if Room(width) == 0 {
        return false;
      }
      SperpxIsPositiveIff(Room(width));
      SperpxIsZeroIff(Room(width));
      sperpx := Ceil(DEFTLEN as real / Room(width) as real);
      if sperpx == 0 {
        return false;
      }
      if Room(width) >= 1 { ColumnsInWidth(Room(width), sperpx); }
      rm := width - Divide(DEFTLEN, sperpx) - left - 2;
      return true;
    }
  }

  /** Every column of either historical graph is drawn left of the right margin. */
  lemma ColumnsLeftOfMargin(v: View, s: Interval, n: nat, width: int, left: nat, rm: int)
    requires Wf(v) && n < Columns(v, s) && rm == width - 1860 / s - left - 2
    ensures left < left + 1 + n < width - rm
  {
    ColumnStarts(v, s, n);
    DividesBelow(n, DEFTLEN, s);
  }
}
