/**
 * Lines drawn as chains of sketchy segments: `plot_line` cuts a polyline
 * into consecutive segments, and `plot_hline` / `plot_vline` build the
 * evenly spaced point grid of a horizontal or vertical line first.
 */
module PlotLines {
  import opened Wrappers
  import opened Geometry
  import opened Ellipses

  /** Alpha that `plot_line` sets when the caller gives none. */
  const LineAlpha: real := 0.2

  /** One `Segment(start, end).plot(...)` call with the arguments it receives. */
  datatype SegmentCall = SegmentCall(start: Point, end: Point, lw: real, n: nat, fuzz: real,
                                     width: real, kwargs: Kwargs)

  /**
   * `kwargs.setdefault(key, value)`: the key is present afterwards, with the
   * caller's value when there was one and `value` otherwise; every other
   * entry is untouched.
   */
  function SetDefault(kwargs: Kwargs, key: string, value: real): (r: Kwargs)
    ensures r.Keys == kwargs.Keys + {key}
    ensures r[key] == PopOr(kwargs, key, value)
    ensures forall k :: k in kwargs ==> r[k] == kwargs[k]
  {
    if key in kwargs then kwargs else kwargs[key := value]
  }

  /** `np.vstack((x, y)).T`: the points (x[i], y[i]). */
  function Stack(xs: seq<real>, ys: seq<real>): (pts: seq<Point>)
    requires |xs| == |ys|
    ensures |pts| == |xs|
    ensures forall i :: 0 <= i < |pts| ==> pts[i].x == xs[i] && pts[i].y == ys[i]
  {
    seq(|xs|, i requires 0 <= i < |xs| => Point(xs[i], ys[i]))
  }

  /** `zip(data, data[1:])`: each point paired with the next one. */
  function Consecutive(pts: seq<Point>): (pairs: seq<Chord>)
    ensures |pairs| == if |pts| <= 1 then 0 else |pts| - 1
  {
    if |pts| <= 1 then [] else seq(|pts| - 1, i requires 0 <= i < |pts| - 1 => Chord(pts[i], pts[i + 1]))
  }

  /** The polyline a chain of pairs traces: the first start, then every end. */
  function Vertices(pairs: seq<Chord>): (pts: seq<Point>)
    requires |pairs| > 0
  {
    [pairs[0].start] + seq(|pairs|, i requires 0 <= i < |pairs| => pairs[i].end)
  }

  /**
   * k points give k − 1 pairs, none when k <= 1; pair i joins point i to
   * point i + 1, so each pair ends where the next one starts.
   */
  lemma ConsecutiveShape(pts: seq<Point>)
    ensures |Consecutive(pts)| == if |pts| <= 1 then 0 else |pts| - 1
    ensures forall i :: 0 <= i < |Consecutive(pts)| ==>
      Consecutive(pts)[i].start == pts[i] && Consecutive(pts)[i].end == pts[i + 1]
    ensures forall i :: 0 <= i < |Consecutive(pts)| - 1 ==> Consecutive(pts)[i].end == Consecutive(pts)[i + 1].start
  {
  }

  /** The pairs retrace the polyline: at least two points are recovered exactly. */
  lemma ConsecutiveRoundTrip(pts: seq<Point>)
    requires |pts| >= 2
    ensures Vertices(Consecutive(pts)) == pts
  {
    var pairs := Consecutive(pts);
    var back := Vertices(pairs);
    assert |back| == |pts|;
    forall i | 0 <= i < |pts|
      ensures back[i] == pts[i]
    {
      if i > 0 {
        assert back[i] == pairs[i - 1].end;
      }
    }
  }

  /** The endpoints of each call, as a chord. */
  function Strokes(calls: seq<SegmentCall>): (pairs: seq<Chord>)
    ensures |pairs| == |calls|
  {
    seq(|calls|, i requires 0 <= i < |calls| => Chord(calls[i].start, calls[i].end))
  }

  /**
   * `plot_line`: alpha defaults to 0.2, then one segment per consecutive
   * pair of points, all with the same lw, n, fuzz, width and keywords.
   * Arrays of different lengths make `np.vstack` fail: the result is None.
   */
  method PlotLine(xs: seq<real>, ys: seq<real>, lw: real, n: nat, fuzz: real, width: real, kwargs: Kwargs)
    returns (result: Option<seq<SegmentCall>>)
    ensures result.None? <==> |xs| != |ys|
    ensures result.Some? ==> Strokes(result.value) == Consecutive(Stack(xs, ys))
    ensures result.Some? ==> |result.value| == if |xs| <= 1 then 0 else |xs| - 1
    ensures result.Some? ==> forall i :: 0 <= i < |result.value| ==>
      result.value[i].start == Point(xs[i], ys[i]) && result.value[i].end == Point(xs[i + 1], ys[i + 1])
    ensures result.Some? ==> forall i :: 0 <= i < |result.value| ==>
      result.value[i].lw == lw && result.value[i].n == n && result.value[i].fuzz == fuzz
      && result.value[i].width == width && result.value[i].kwargs == SetDefault(kwargs, "alpha", LineAlpha)
  {
    if |xs| != |ys| {
      return None;
    }
    var data := Stack(xs, ys);
    var options := SetDefault(kwargs, "alpha", LineAlpha);
    var calls: seq<SegmentCall> := [];
    var i := 0;
    while i + 1 < |data|
      invariant |data| <= 1 ==> i == 0
      invariant |data| > 1 ==> 0 <= i <= |data| - 1
      invariant |calls| == i
      invariant forall j :: 0 <= j < i ==>
        calls[j] == SegmentCall(data[j], data[j + 1], lw, n, fuzz, width, options)
    {
      calls := calls + [SegmentCall(data[i], data[i + 1], lw, n, fuzz, width, options)];
      i := i + 1;
    }
    ConsecutiveShape(data);
    assert forall j :: 0 <= j < |data| ==> data[j] == Point(xs[j], ys[j]);
    return Some(calls);
  }

  /** Python's `int(x)`: truncation toward zero. */
  function Trunc(x: real): (k: int)
    ensures 0.0 <= x ==> 0 <= k && k as real <= x < k as real + 1.0
    ensures x < 0.0 ==> k <= 0 && k as real - 1.0 < x <= k as real
  {
    if x >= 0.0 then x.Floor else -((-x).Floor)
  }

  /** `np.linspace(a, b, num)`: num points from a to b, both ends included. */
  function Linspace(a: real, b: real, num: nat): (xs: seq<real>)
    ensures |xs| == num
    ensures num >= 1 ==> xs[0] == a
    ensures num >= 2 ==> xs[num - 1] == b
  {
    if num == 1 then [a]
    else seq(num, i requires 0 <= i < num => a + i as real * ((b - a) / (num - 1) as real))
  }

  /** Consecutive linspace points are one step (b − a)/(num − 1) apart. */
  lemma LinspaceStep(a: real, b: real, num: nat)
    requires num >= 2
    ensures forall i :: 0 <= i < num - 1 ==> Linspace(a, b, num)[i + 1] - Linspace(a, b, num)[i] == (b - a) / (num - 1) as real
  {
    var step := (b - a) / (num - 1) as real;
    var xs := Linspace(a, b, num);
    forall i | 0 <= i < num - 1
      ensures xs[i + 1] - xs[i] == step
    {
      var x := i as real;
      assert xs[i] == a + x * step && xs[i + 1] == a + (x + 1.0) * step;
      NextMultiple(x, step);
    }
  }

  /** From a up to b, every linspace point lies between the two ends. */
  lemma LinspaceWithin(a: real, b: real, num: nat)
    requires a <= b
    ensures forall i :: 0 <= i < num ==> a <= Linspace(a, b, num)[i] <= b
  {
    var xs := Linspace(a, b, num);
    if num >= 2 {
      var step := (b - a) / (num - 1) as real;
      var m := (num - 1) as real;
      assert step >= 0.0;
      assert a + m * step == b by {
        assert xs[num - 1] == a + m * step;
      }
      forall i | 0 <= i < num
        ensures a <= xs[i] <= b
      {
        assert xs[i] == a + i as real * step;
        MultipleBetween(i as real, m, step);
      }
    }
  }

  /** (x + 1)·step − x·step = step. */
  lemma NextMultiple(x: real, step: real)
    ensures (x + 1.0) * step - x * step == step
  {
  }

  /** 0 <= x <= m and step >= 0 give 0 <= x·step <= m·step. */
  lemma MultipleBetween(x: real, m: real, step: real)
    requires 0.0 <= x <= m && step >= 0.0
    ensures 0.0 <= x * step <= m * step
  {
    assert (m - x) * step >= 0.0;
  }

  /** A point grid: x values and y values of the same length. */
  datatype Grid = Grid(xs: seq<real>, ys: seq<real>)

  /**
   * The grid of `plot_hline`: int((xmax − xmin)/width) points from xmin to
   * xmax, all at height y. A negative count makes `np.linspace` fail: None.
   */
  function HLineGrid(y: real, xmin: real, xmax: real, width: real): (g: Option<Grid>)
    requires width != 0.0
    ensures g.None? <==> Trunc((xmax - xmin) / width) < 0
    ensures g.Some? ==> g.value.xs == Linspace(xmin, xmax, Trunc((xmax - xmin) / width))
    ensures g.Some? ==> |g.value.ys| == |g.value.xs| && forall i :: 0 <= i < |g.value.ys| ==> g.value.ys[i] == y
  {
    var count := Trunc((xmax - xmin) / width);
    if count < 0 then None
    else
      var xs := Linspace(xmin, xmax, count);
      Some(Grid(xs, seq(|xs|, _ => y)))
  }

  /**
   * The grid of `plot_vline`: `num` points from ymin to ymax, all at
   * abscissa x. The count is given directly.
   */
  function VLineGrid(x: real, ymin: real, ymax: real, num: nat): (g: Grid)
    ensures g.ys == Linspace(ymin, ymax, num)
    ensures |g.xs| == num && forall i :: 0 <= i < num ==> g.xs[i] == x
  {
    var ys := Linspace(ymin, ymax, num);
    Grid(seq(|ys|, _ => x), ys)
  }

  /**
   * `plot_hline`: the segments of a horizontal line. Every segment lies at
   * height y, and they run from xmin to xmax when there are at least two
   * grid points.
   */
  method PlotHLine(y: real, xmin: real, xmax: real, lw: real, n: nat, fuzz: real, width: real, kwargs: Kwargs)
    returns (result: Option<seq<SegmentCall>>)
    requires width != 0.0
    ensures result.None? <==> Trunc((xmax - xmin) / width) < 0
    ensures result.Some? ==> |result.value| == if Trunc((xmax - xmin) / width) <= 1 then 0 else Trunc((xmax - xmin) / width) - 1
    ensures result.Some? ==> forall i :: 0 <= i < |result.value| ==>
      result.value[i].start.y == y && result.value[i].end.y == y && result.value[i].width == width
    ensures result.Some? && |result.value| > 0 ==>
      result.value[0].start.x == xmin && result.value[|result.value| - 1].end.x == xmax
    ensures result.Some? ==> HLineGrid(y, xmin, xmax, width).Some?
    ensures result.Some? ==>
      var grid := HLineGrid(y, xmin, xmax, width).value;
      Strokes(result.value) == Consecutive(Stack(grid.xs, grid.ys))
    ensures result.Some? ==> forall i :: 0 <= i < |result.value| ==>
      result.value[i].lw == lw && result.value[i].n == n && result.value[i].fuzz == fuzz
      && result.value[i].kwargs == SetDefault(kwargs, "alpha", LineAlpha)
  {
    var grid := HLineGrid(y, xmin, xmax, width);
    if grid.None? {
      return None;
    }
    var xs, ys := grid.value.xs, grid.value.ys;
    result := PlotLine(xs, ys, lw, n, fuzz, width, kwargs);
    var calls := result.value;
    forall i | 0 <= i < |calls|
      ensures calls[i].start.y == y && calls[i].end.y == y
    {
      assert calls[i].start == Point(xs[i], ys[i]) && calls[i].end == Point(xs[i + 1], ys[i + 1]);
    }
    if |calls| > 0 {
      assert calls[0].start == Point(xs[0], ys[0]);
      assert calls[|calls| - 1].end == Point(xs[|xs| - 1], ys[|xs| - 1]);
    }
  }

  /**
   * `plot_vline` with the point count given: every segment lies at abscissa
   * x, and they run from ymin to ymax when there are at least two points.
   */
  method PlotVLine(x: real, ymin: real, ymax: real, num: nat, lw: real, n: nat, fuzz: real, width: real, kwargs: Kwargs)
    returns (calls: seq<SegmentCall>)
    ensures |calls| == if num <= 1 then 0 else num - 1
    ensures forall i :: 0 <= i < |calls| ==> calls[i].start.x == x && calls[i].end.x == x && calls[i].width == width
    ensures |calls| > 0 ==> calls[0].start.y == ymin && calls[|calls| - 1].end.y == ymax
    ensures Strokes(calls) == Consecutive(Stack(VLineGrid(x, ymin, ymax, num).xs, VLineGrid(x, ymin, ymax, num).ys))
    ensures forall i :: 0 <= i < |calls| ==>
      calls[i].lw == lw && calls[i].n == n && calls[i].fuzz == fuzz
      && calls[i].kwargs == SetDefault(kwargs, "alpha", LineAlpha)
  {
    var grid := VLineGrid(x, ymin, ymax, num);
    var result := PlotLine(grid.xs, grid.ys, lw, n, fuzz, width, kwargs);
    calls := result.value;
    forall i | 0 <= i < |calls|
      ensures calls[i].start.x == x && calls[i].end.x == x
    {
      assert calls[i].start == Point(grid.xs[i], grid.ys[i]) && calls[i].end == Point(grid.xs[i + 1], grid.ys[i + 1]);
    }
    if |calls| > 0 {
      assert calls[0].start == Point(grid.xs[0], grid.ys[0]);
      assert calls[|calls| - 1].end == Point(grid.xs[num - 1], grid.ys[num - 1]);
    }
  }
}
