/**
 * Circles and ellipses drawn as a swarm of random chords: each chord joins
 * two points taken at random angles on (or, with fuzz, near) the ellipse.
 */
module Ellipses {
  import opened Wrappers
  import opened Geometry
  import opened Utils

  /** An ellipse with semi-axes `width` (along x) and `height` (along y). */
  datatype Ellipse = Ellipse(center: Point, width: real, height: real)

  /**
   * The random draws behind one endpoint: the angle θ (as its cos and sin;
   * θ = 2π · rand()) and one standard-normal draw for the radial noise.
   */
  datatype Draw = Draw(angle: Trig, gauss: real)

  /** The draws behind one chord: one row of the n×2 draw arrays. */
  datatype ChordDraw = ChordDraw(first: Draw, second: Draw)

  /** Gaussian noise is scaled by 0.001 · fuzz. */
  const FuzzScale: real := 0.001

  /** Alpha used by `plot` when the caller gives none. */
  const DefaultAlpha: real := 0.05

  /** Noise on the RGB channels used by `plot` (the default of `jittered_colors`). */
  const ColorNoise: int := 50

  /** Keyword arguments; only numeric ones such as "alpha" are modelled. */
  type Kwargs = map<string, real>

  /** `kwargs.pop(key, default)`: the value the caller gave, or the default. */
  function PopOr(kwargs: Kwargs, key: string, default: real): (v: real)
    ensures key in kwargs ==> v == kwargs[key]
    ensures key !in kwargs ==> v == default
  {
    if key in kwargs then kwargs[key] else default
  }

  /** The rotation pivot: `rot_point`, or the shape's center when it is None. */
  function Pivot(center: Point, rotPoint: Option<Point>): (q: Point)
    ensures rotPoint.Some? ==> q == rotPoint.value
    ensures rotPoint.None? ==> q == center
  {
    rotPoint.GetOr(center)
  }

  /**
   * One endpoint: the same noise value f = 0.001·fuzz·gauss is added to both
   * semi-axes, then (cx + (width + f)·cos θ, cy + (height + f)·sin θ).
   * Without fuzz the noise vanishes and the point is the ellipse's own
   * point at angle θ.
   */
  function Endpoint(e: Ellipse, fuzz: real, d: Draw): (p: Point)
    ensures fuzz == 0.0 ==> p == Point(e.center.x + e.width * d.angle.cos, e.center.y + e.height * d.angle.sin)
  {
    var f := FuzzScale * fuzz * d.gauss;
    Point((f + e.width) * d.angle.cos + e.center.x, (f + e.height) * d.angle.sin + e.center.y)
  }

  /** The chords before any rotation. */
  function Unrotated(e: Ellipse, fuzz: real, draws: seq<ChordDraw>): (points: seq<Chord>)
    ensures |points| == |draws|
  {
    seq(|draws|, i requires 0 <= i < |draws| =>
      Chord(Endpoint(e, fuzz, draws[i].first), Endpoint(e, fuzz, draws[i].second)))
  }

  /**
   * `Ellipse.gen_points`: n chords from n rows of draws, rotated by `rot`
   * about `rot_point` (default: the center) when `rot` is given.
   */
  function GenPoints(e: Ellipse, n: nat, fuzz: real, draws: seq<ChordDraw>,
                     rot: Option<Trig>, rotPoint: Option<Point>): (points: seq<Chord>)
    requires |draws| == n
    ensures |points| == n
  {
    var raw := Unrotated(e, fuzz, draws);
    match rot
    case None => raw
    case Some(t) => RotateInPlace(raw, Pivot(e.center, rotPoint), t)
  }

  /** ((x − cx)/a)² + ((y − cy)/b)² = 1: `p` lies on the ellipse with semi-axes a, b. */
  predicate OnEllipse(center: Point, a: real, b: real, p: Point)
    requires a != 0.0 && b != 0.0
  {
    ((p.x - center.x) / a) * ((p.x - center.x) / a) + ((p.y - center.y) / b) * ((p.y - center.y) / b) == 1.0
  }

  /**
   * An endpoint with noise f lies exactly on the ellipse whose two semi-axes
   * are both grown by the same f: one noise value serves both coordinates.
   */
  lemma EndpointOnNoisyEllipse(e: Ellipse, fuzz: real, d: Draw)
    requires Unit(d.angle)
    requires e.width + FuzzScale * fuzz * d.gauss != 0.0
    requires e.height + FuzzScale * fuzz * d.gauss != 0.0
    ensures OnEllipse(e.center, e.width + FuzzScale * fuzz * d.gauss,
                      e.height + FuzzScale * fuzz * d.gauss, Endpoint(e, fuzz, d))
  {
    var f := FuzzScale * fuzz * d.gauss;
    var a, b := e.width + f, e.height + f;
    var p := Endpoint(e, fuzz, d);
    assert p.x - e.center.x == a * d.angle.cos;
    assert p.y - e.center.y == b * d.angle.sin;
    assert (p.x - e.center.x) / a == d.angle.cos;
    assert (p.y - e.center.y) / b == d.angle.sin;
  }

  /** With fuzz 0 and no rotation, every endpoint lies on the ellipse itself. */
  lemma GenPointsOnEllipse(e: Ellipse, n: nat, draws: seq<ChordDraw>)
    requires |draws| == n
    requires e.width != 0.0 && e.height != 0.0
    requires forall i :: 0 <= i < n ==> Unit(draws[i].first.angle) && Unit(draws[i].second.angle)
    ensures forall i :: 0 <= i < n ==>
      OnEllipse(e.center, e.width, e.height, GenPoints(e, n, 0.0, draws, None, None)[i].start)
      && OnEllipse(e.center, e.width, e.height, GenPoints(e, n, 0.0, draws, None, None)[i].end)
  {
    var points := GenPoints(e, n, 0.0, draws, None, None);
    forall i | 0 <= i < n
      ensures OnEllipse(e.center, e.width, e.height, points[i].start)
      ensures OnEllipse(e.center, e.width, e.height, points[i].end)
    {
      EndpointOnNoisyEllipse(e, 0.0, draws[i].first);
      EndpointOnNoisyEllipse(e, 0.0, draws[i].second);
    }
  }

  /** A circle of radius r at the origin, fuzz 0: every endpoint has x² + y² = r². */
  lemma GenPointsOnCircle(r: real, n: nat, draws: seq<ChordDraw>)
    requires |draws| == n
    requires forall i :: 0 <= i < n ==> Unit(draws[i].first.angle) && Unit(draws[i].second.angle)
    ensures forall i, p :: 0 <= i < n && p in {GenPoints(Ellipse(Point(0.0, 0.0), r, r), n, 0.0, draws, None, None)[i].start,
                                              GenPoints(Ellipse(Point(0.0, 0.0), r, r), n, 0.0, draws, None, None)[i].end} ==>
      p.x * p.x + p.y * p.y == r * r
  {
    var e := Ellipse(Point(0.0, 0.0), r, r);
    var points := GenPoints(e, n, 0.0, draws, None, None);
    forall i | 0 <= i < n
      ensures Dist2(points[i].start, e.center) == r * r
      ensures Dist2(points[i].end, e.center) == r * r
    {
      EndpointOnCircle(e.center, r, draws[i].first);
      EndpointOnCircle(e.center, r, draws[i].second);
    }
  }

  /** A noise-free endpoint of a circle lies at distance r from its center. */
  lemma EndpointOnCircle(center: Point, r: real, d: Draw)
    requires Unit(d.angle)
    ensures Dist2(Endpoint(Ellipse(center, r, r), 0.0, d), center) == r * r
  {
    var c, s := d.angle.cos, d.angle.sin;
    var p := Endpoint(Ellipse(center, r, r), 0.0, d);
    assert p.x - center.x == r * c && p.y - center.y == r * s;
    assert (r * c) * (r * c) + (r * s) * (r * s) == r * r * (c * c + s * s);
  }

  /**
   * With `rot` given, every endpoint is the rotation of the unrotated one
   * about `rot_point` (the center when it is None), at the same distance
   * from that pivot.
   */
  lemma GenPointsRotated(e: Ellipse, n: nat, fuzz: real, draws: seq<ChordDraw>, t: Trig, rotPoint: Option<Point>)
    requires |draws| == n
    requires Unit(t)
    ensures forall i :: 0 <= i < n ==>
      var q := Pivot(e.center, rotPoint);
      var raw := GenPoints(e, n, fuzz, draws, None, None)[i];
      var rotated := GenPoints(e, n, fuzz, draws, Some(t), rotPoint)[i];
      && rotated.start == RotatePoint(raw.start, q, t) && rotated.end == RotatePoint(raw.end, q, t)
      && Dist2(rotated.start, q) == Dist2(raw.start, q) && Dist2(rotated.end, q) == Dist2(raw.end, q)
  {
    var q := Pivot(e.center, rotPoint);
    var raw := GenPoints(e, n, fuzz, draws, None, None);
    forall i | 0 <= i < n
      ensures Dist2(RotatePoint(raw[i].start, q, t), q) == Dist2(raw[i].start, q)
      ensures Dist2(RotatePoint(raw[i].end, q, t), q) == Dist2(raw[i].end, q)
    {
      RotatePreservesDistance(raw[i].start, q, t);
      RotatePreservesDistance(raw[i].end, q, t);
    }
  }

  /**
   * The colour preparation of `Ellipse.plot`: n jittered colours, then the
   * alpha column overwritten with the `alpha` keyword (0.05 by default).
   * `offsets` are the `randint` draws of `jittered_colors`.
   */
  method PlotColors(base: Rgba, n: nat, offsets: seq<Offset>, kwargs: Kwargs) returns (colors: seq<Rgba>)
    requires InUnit(base)
    requires |offsets| == n
    requires forall i :: 0 <= i < n ==> OffsetInRange(offsets[i], ColorNoise)
    ensures |colors| == n
    ensures forall i :: 0 <= i < n ==>
      colors[i] == JitterColor(base, offsets[i]).(a := PopOr(kwargs, "alpha", DefaultAlpha))
    ensures forall i :: 0 <= i < n ==>
      colors[i].a == PopOr(kwargs, "alpha", DefaultAlpha) && RgbNear(colors[i], base, ColorNoise)
  {
    colors := JitteredColors(base, n, ColorNoise, offsets);
    var alpha := PopOr(kwargs, "alpha", DefaultAlpha);
    var i := 0;
    while i < n
      invariant 0 <= i <= n
      invariant |colors| == n
      invariant forall j :: 0 <= j < i ==> colors[j] == JitterColor(base, offsets[j]).(a := alpha)
      invariant forall j :: i <= j < n ==> colors[j] == JitterColor(base, offsets[j])
      invariant forall j :: 0 <= j < n ==> RgbNear(colors[j], base, ColorNoise)
    {
      colors := colors[i := colors[i].(a := alpha)];
      i := i + 1;
    }
  }
}
