/** The instantaneous aggregate graph: for each host one stack of bars per level, a layer for each traffic
    window, every layer rounded up to whole pixels. */
module AggregateTop {
  import opened Arithmetic
  import opened Lines
  import opened Samples
  import opened Scale
  import opened Views

  /** A filled rectangle of the layer of one window; columns are one pixel narrower than xscal. */
  datatype Rect = Rect(window: nat, y: int, h: int)

  /** The bars of one host and level; top is where the (empty) bounding rectangle goes. */
  datatype Bar = Bar(host: nat, level: nat, top: int, layers: seq<Rect>)

  function CellAt(v: View, i: nat, level: nat): nat {
    Cxtime(v) * v.nsys + i + level * Half(v.nsys)
  }

  /** The samples of the traffic windows below n in cell c. */
  function Stacked(v: View, c: nat, n: nat): nat {
    if n <= W_OTHER then 0 else Stacked(v, c, n - 1) + At(v, n - 1, c)
  }

  function Load(v: View, i: nat, n: nat): nat {
    Stacked(v, CellAt(v, i, 0), n) + Stacked(v, CellAt(v, i, 1), n)
  }

  /** Each host's load, both levels together. */
  function LoadsOf(v: View): nat -> real { (i: nat) => Load(v, i, |v.store|) as real }

  function MaxLoad(v: View): real { Highest(LoadsOf(v), v.nsys) }

  function YScale(v: View, drawh: int): real {
    ScaleFor(MaxLoad(v), Rate(v), Room(v, drawh))
  }

  function Pixels(v: View, c: nat, n: nat, y: real): int {
    if n <= W_OTHER then 0 else Pixels(v, c, n - 1, y) + Ceil(At(v, n - 1, c) as real * y)
  }

  /** The layers of the windows below n, drawn downwards from top. */
  function LayersOf(v: View, c: nat, n: nat, top: int, y: real): seq<Rect> {
    if n <= W_OTHER then []
    else if At(v, n - 1, c) > 0 then
      LayersOf(v, c, n - 1, top, y) + [Rect(n - 1, top + Pixels(v, c, n - 1, y), Ceil(At(v, n - 1, c) as real * y))]
    else LayersOf(v, c, n - 1, top, y)
  }

  function BarOf(v: View, i: nat, level: nat, base: int, y: real): Bar {
    var c := CellAt(v, i, level);
    var top := base - Pixels(v, c, |v.store|, y);
    Bar(i, level, top, LayersOf(v, c, |v.store|, top, y))
  }

  lemma CellInRange(v: View, i: nat, level: nat)
    requires Wf(v) && i < v.nsys && level < 2
    ensures CellAt(v, i, level) < 2 * Half(v.nsys)
  {
    RowFits(Cxtime(v), i, v.nsys);
  }

  method TallestLoad(v: View) returns (lmax: real)
    requires Wf(v)
    ensures lmax == MaxLoad(v)
  {
    lmax := 0.0;
    for i := 0 to v.nsys
      invariant lmax == Highest(LoadsOf(v), i)
    {
      var ax := 0.0;
      CellInRange(v, i, 0);
      CellInRange(v, i, 1);
      for k := W_OTHER to |v.store|
        invariant ax == Load(v, i, k) as real
      {
        ax := ax + v.store[k][Cxtime(v) * v.nsys + i] as real;
        ax := ax + v.store[k][Cxtime(v) * v.nsys + i + Half(v.nsys)] as real;
      }
      if lmax < ax {
        lmax := ax;
      }
    }
  }

  /** The loop that finds the top of the stack. */
  method FindTop(v: View, sam: nat, base: int, y: real) returns (s: int)
    requires Wf(v) && sam < 2 * Half(v.nsys)
    ensures s == base - Pixels(v, sam, |v.store|, y)
  {
    s := base;
    for k := W_OTHER to |v.store|
      invariant s == base - Pixels(v, sam, k, y)
    {
      s := s - Ceil(v.store[k][sam] as real * y);
    }
  }

  /** The loop that draws the layers from there. */
  method DrawLayers(v: View, sam: nat, top: int, y: real) returns (layers: seq<Rect>)
    requires Wf(v) && sam < 2 * Half(v.nsys)
    ensures layers == LayersOf(v, sam, |v.store|, top, y)
  {
    var s := top;
    layers := [];
    for k := W_OTHER to |v.store|
      invariant s == top + Pixels(v, sam, k, y)
      invariant layers == LayersOf(v, sam, k, top, y)
    {
      var memo := v.store[k][sam] as real;
      if memo > 0.0 {
        var h := Ceil(memo * y);
        layers := layers + [Rect(k, s, h)];
        s := s + h;
      } else {
        NoHeight(y);
      }
    }
  }

  method DrawBar(v: View, i: nat, level: nat, base: int, y: real) returns (bar: Bar)
    requires Wf(v) && i < v.nsys && level < 2
    ensures bar == BarOf(v, i, level, base, y)
  {
    CellInRange(v, i, level);
    var sam := CellAt(v, i, level);
    var top := FindTop(v, sam, base, y);
    var layers := DrawLayers(v, sam, top, y);
    return Bar(i, level, top, layers);
  }

  /** One pass of the drawing loop over ofs: all hosts at one level. */
  method DrawLevel(v: View, level: nat, base: int, y: real) returns (bars: seq<Bar>)
    requires Wf(v) && level < 2
    ensures |bars| == v.nsys && forall i :: 0 <= i < v.nsys ==> bars[i] == BarOf(v, i, level, base, y)
  {
    bars := [];
    for i := 0 to v.nsys
      invariant |bars| == i && forall j :: 0 <= j < i ==> bars[j] == BarOf(v, j, level, base, y)
    {
      var bar := DrawBar(v, i, level, base, y);
      bars := bars + [bar];
    }
  }

  /** update_multi_top: level 0 of every host, then level 1. */
  method UpdateMultiTop(v: View, drawh: int, base: int) returns (bars: seq<Bar>)
    requires Wf(v)
    ensures |bars| == 2 * v.nsys
    ensures forall i :: 0 <= i < v.nsys ==>
              && bars[i] == BarOf(v, i, 0, base, YScale(v, drawh))
              && bars[v.nsys + i] == BarOf(v, i, 1, base, YScale(v, drawh))
  {
    var lmax := TallestLoad(v);
    lmax := RoundUp(lmax / Rate(v));
    var delta := 1;
    for k := W_OTHER to |v.store|
      invariant delta == 1 + k - W_OTHER
    {
      delta := delta + 1;
    }
    assert lmax == AxisFor(MaxLoad(v), Rate(v)) && delta == Delta(v);
    var yscal := Scaled((drawh - delta) as real, lmax, Rate(v));
    var primary := DrawLevel(v, 0, base, yscal);
    var secondary := DrawLevel(v, 1, base, yscal);
    bars := primary + secondary;
  }

  // ----- main results -----

  /** Rounding every layer up costs less than one pixel a window. */
  lemma {:induction false} PixelsBelow(v: View, c: nat, n: nat, y: real)
    requires n > W_OTHER
    ensures Below(Pixels(v, c, n, y), Stacked(v, c, n) as real, y, n - W_OTHER)
  {
    if n - 1 > W_OTHER { PixelsBelow(v, c, n - 1, y); }
    BelowStep(Pixels(v, c, n - 1, y), Stacked(v, c, n - 1) as real, At(v, n - 1, c) as real, y, n - 1 - W_OTHER);
  }

  function Room(v: View, drawh: int): real { (drawh - Delta(v)) as real }

  /** The stack of any host and level, every layer rounded up, is lower than the frame. */
  lemma StackFits(v: View, i: nat, level: nat, drawh: int, y: real)
    requires Wf(v) && i < v.nsys && level < 2 && Gentle(MaxLoad(v), y, Room(v, drawh))
    ensures Pixels(v, CellAt(v, i, level), |v.store|, y) < drawh - 1
  {
    var c, n := CellAt(v, i, level), |v.store|;
    StackBelowMax(v, i, level);
    PixelsBelow(v, c, n, y);
    Squeeze(Pixels(v, c, n, y), Stacked(v, c, n) as real, MaxLoad(v), y, Delta(v), drawh);
  }

  lemma StackBelowMax(v: View, i: nat, level: nat)
    requires i < v.nsys && level < 2
    ensures Stacked(v, CellAt(v, i, level), |v.store|) as real <= MaxLoad(v)
  {
    HighestIsMax(LoadsOf(v), v.nsys, i);
    assert Stacked(v, CellAt(v, i, level), |v.store|) <= Load(v, i, |v.store|);
  }

  /** The rectangles cover exactly the pixels from top to bottom, in order and without gap or overlap. */
  predicate Tiles(layers: seq<Rect>, top: int, bottom: int) {
    if layers == [] then top == bottom
    else
      var last := layers[|layers| - 1];
      last.y + last.h == bottom && Tiles(layers[..|layers| - 1], top, last.y)
  }

  lemma {:induction false} LayersTile(v: View, c: nat, n: nat, top: int, y: real)
    requires n >= W_OTHER
    ensures Tiles(LayersOf(v, c, n, top, y), top, top + Pixels(v, c, n, y))
  {
    if n > W_OTHER {
      LayersTile(v, c, n - 1, top, y);
      if At(v, n - 1, c) == 0 {
        assert Ceil(0.0 * y) == 0;
      }
    }
  }

  /** Exactly the windows with a positive sample get a layer, and it is at least one pixel high. */
  lemma {:induction false} LayersShowPositives(v: View, c: nat, n: nat, top: int, y: real)
    requires y > 0.0
    ensures forall r <- LayersOf(v, c, n, top, y) :: W_OTHER <= r.window < n && At(v, r.window, c) > 0 && r.h >= 1
    ensures forall k :: W_OTHER <= k < n && At(v, k, c) > 0 ==>
              exists r :: r in LayersOf(v, c, n, top, y) && r.window == k && r.h >= 1
  {
    if n > W_OTHER {
      LayersShowPositives(v, c, n - 1, top, y);
      PositiveIsAPixel(At(v, n - 1, c) as real, y);
      if At(v, n - 1, c) > 0 {
        assert LayersOf(v, c, n, top, y)[|LayersOf(v, c, n - 1, top, y)|].window == n - 1;
      }
    }
  }

  /** The aggregate top graph never overflows: every bar starts inside the frame and its layers run without
      gap down to the baseline exactly. */
  lemma BarsFit(v: View, i: nat, level: nat, drawh: int, base: int)
    requires Wf(v) && i < v.nsys && level < 2
    requires drawh >= Delta(v) && InScale(MaxLoad(v), Rate(v))
    ensures var bar := BarOf(v, i, level, base, YScale(v, drawh));
            bar.top > base - (drawh - 1) && Tiles(bar.layers, bar.top, base)
  {
    PeakFitsIff(MaxLoad(v), Rate(v), Room(v, drawh));
    var y := YScale(v, drawh);
    var c := CellAt(v, i, level);
    StackFits(v, i, level, drawh, y);
    LayersTile(v, c, |v.store|, base - Pixels(v, c, |v.store|, y), y);
  }

  /** Each layer is as high as its sample, rounded up to whole pixels. */
  predicate Measured(r: Rect, v: View, c: nat, y: real) {
    r.h as real - 1.0 < At(v, r.window, c) as real * y <= r.h as real
  }

  lemma {:induction false} LayersMeasure(v: View, c: nat, n: nat, top: int, y: real)
    ensures forall r <- LayersOf(v, c, n, top, y) :: r.window < n && Measured(r, v, c, y)
  {
    if n > W_OTHER {
      LayersMeasure(v, c, n - 1, top, y);
      CeilBounds(At(v, n - 1, c) as real * y);
    }
  }

  /** Layers are drawn in the order of the windows. */
  predicate InOrder(rs: seq<Rect>) { forall a, b :: 0 <= a < b < |rs| ==> rs[a].window < rs[b].window }

  lemma InOrderAppend(rs: seq<Rect>, r: Rect)
    requires InOrder(rs) && forall x <- rs :: x.window < r.window
    ensures InOrder(rs + [r])
  {
    assert forall a :: 0 <= a < |rs| ==> rs[a] in rs;
  }

  lemma {:induction false} LayersInOrder(v: View, c: nat, n: nat, top: int, y: real)
    ensures InOrder(LayersOf(v, c, n, top, y))
  {
    if n > W_OTHER {
      LayersInOrder(v, c, n - 1, top, y);
      LayersMeasure(v, c, n - 1, top, y);
      InOrderAppend(LayersOf(v, c, n - 1, top, y),
                    Rect(n - 1, top + Pixels(v, c, n - 1, y), Ceil(At(v, n - 1, c) as real * y)));
    }
  }

  /** The second that is shown. */
  function Latest(v: View): nat { if v.curtime == 0 then 0 else v.curtime - 1 }

  /** In a frame higher than the pixels kept free, a host's bar of a level has layers for exactly the windows from 4 on
      with a positive sample booked for that level, the last complete second and that host; they follow the order of
      the windows, and each is as high as its sample, rounded up, and at least one pixel. */
  lemma PositivesAreDrawn(v: View, i: nat, level: nat, drawh: int, base: int, k: nat)
    requires drawh > |v.store| - 3 && 4 <= k < |v.store|
    ensures var layers, c := BarOf(v, i, level, base, YScale(v, drawh)).layers, Cell(level, Latest(v), i, v.nsys);
            && (At(v, k, c) > 0 <==> exists r :: r in layers && r.window == k && r.h >= 1)
            && (forall r <- layers :: r.h >= 1 && Measured(r, v, c, YScale(v, drawh)))
            && InOrder(layers)
  {
    PeakFitsIff(MaxLoad(v), Rate(v), Room(v, drawh));
    LatestCell(v, i, level);
    var c, y := CellAt(v, i, level), YScale(v, drawh);
    var top := base - Pixels(v, c, |v.store|, y);
    LayersShowPositives(v, c, |v.store|, top, y);
    LayersMeasure(v, c, |v.store|, top, y);
    LayersInOrder(v, c, |v.store|, top, y);
  }

  lemma LatestCell(v: View, i: nat, level: nat)
    ensures CellAt(v, i, level) == Cell(level, Latest(v), i, v.nsys)
  {
  }

  // ----- the scale -----

  /** Everything booked for a host in the second shown, over both levels of the traffic windows. */
  function HostTotal(v: View, i: nat): nat {
    SumOf((k: nat) => At(v, k, Cell(0, Latest(v), i, v.nsys)) + At(v, k, Cell(1, Latest(v), i, v.nsys)), 4, |v.store|)
  }

  lemma {:induction false} LoadIsSum(v: View, i: nat, n: nat, f: nat -> nat)
    requires forall k: nat ::
      f(k) == At(v, k, Cell(0, Latest(v), i, v.nsys)) + At(v, k, Cell(1, Latest(v), i, v.nsys))
    ensures Load(v, i, n) == SumOf(f, 4, n)
  {
    if n > W_OTHER { LoadIsSum(v, i, n - 1, f); }
  }

  lemma LoadIsTotal(v: View, i: nat)
    ensures Load(v, i, |v.store|) == HostTotal(v, i)
  {
    var f := (k: nat) => At(v, k, Cell(0, Latest(v), i, v.nsys)) + At(v, k, Cell(1, Latest(v), i, v.nsys));
    LoadIsSum(v, i, |v.store|, f);
  }

  lemma MaxLoadIsHighest(v: View)
    ensures MaxLoad(v) >= 0.0
    ensures forall i :: 0 <= i < v.nsys ==> HostTotal(v, i) as real <= MaxLoad(v)
    ensures MaxLoad(v) > 0.0 ==> exists i :: 0 <= i < v.nsys && HostTotal(v, i) as real == MaxLoad(v)
  {
    forall i | 0 <= i < v.nsys ensures HostTotal(v, i) as real <= MaxLoad(v) {
      LoadIsTotal(v, i);
      HighestIsMax(LoadsOf(v), v.nsys, i);
    }
    HighestIsNotNegative(LoadsOf(v), v.nsys);
    if MaxLoad(v) > 0.0 {
      HighestIsReached(LoadsOf(v), v.nsys);
      var i :| 0 <= i < v.nsys && LoadsOf(v)(i) == MaxLoad(v);
      LoadIsTotal(v, i);
      assert HostTotal(v, i) as real == MaxLoad(v);
    }
  }

  /** The scale is made for the host with the highest total and no other number: that total a second, rounded up to the
      top of the axis, takes all pixels but one for each traffic window and one more. */
  lemma ScaleIsForTallestHost(v: View, drawh: int)
    ensures MaxLoad(v) >= 0.0
    ensures forall i :: 0 <= i < v.nsys ==> HostTotal(v, i) as real <= MaxLoad(v)
    ensures MaxLoad(v) > 0.0 ==> exists i :: 0 <= i < v.nsys && HostTotal(v, i) as real == MaxLoad(v)
    ensures var rate := if v.gauge then 1.0 else v.interval as real;
            MadeFor(YScale(v, drawh), MaxLoad(v), rate, (drawh - (|v.store| - 3)) as real)
  {
    MaxLoadIsHighest(v);
    AxisFillsRoom(MaxLoad(v), Rate(v), Room(v, drawh));
  }
}
