/**
 * Rotation of point batches and colour jitter, the helpers every mark uses.
 */
module Utils {
  import opened Geometry

  // ---------------------------------------------------------------------
  // Rotation
  // ---------------------------------------------------------------------

  /** A 2×2 matrix [[m00, m01], [m10, m11]]. */
  datatype Matrix = Matrix(m00: real, m01: real, m10: real, m11: real)

  const Identity := Matrix(1.0, 0.0, 0.0, 1.0)

  function Mul(a: Matrix, b: Matrix): Matrix {
    Matrix(a.m00 * b.m00 + a.m01 * b.m10, a.m00 * b.m01 + a.m01 * b.m11,
           a.m10 * b.m00 + a.m11 * b.m10, a.m10 * b.m01 + a.m11 * b.m11)
  }

  /** The matrix applied to a column vector: m · v. */
  function Apply(m: Matrix, v: Point): Point {
    Point(m.m00 * v.x + m.m01 * v.y, m.m10 * v.x + m.m11 * v.y)
  }

  /** A row vector times the matrix: v · m, as `np.dot` does for an (…, 2) array. */
  function RowTimes(v: Point, m: Matrix): Point {
    Point(v.x * m.m00 + v.y * m.m10, v.x * m.m01 + v.y * m.m11)
  }

  /**
   * The rotation matrix [[cos θ, −sin θ], [sin θ, cos θ]]: equal diagonal,
   * opposite off-diagonal entries, and determinant 1 for a true angle.
   */
  function Rotation(t: Trig): (m: Matrix)
    ensures m.m00 == m.m11 && m.m01 == -m.m10
    ensures Unit(t) ==> m.m00 * m.m11 - m.m01 * m.m10 == 1.0
  {
    Matrix(t.cos, -t.sin, t.sin, t.cos)
  }

  /** R(θ) and R(−θ) are inverse to each other: R(θ)·R(−θ) = R(−θ)·R(θ) = I. */
  lemma RotationInverse(t: Trig)
    requires Unit(t)
    ensures Mul(Rotation(t), Rotation(Negate(t))) == Identity
    ensures Mul(Rotation(Negate(t)), Rotation(t)) == Identity
  {
    var c, s := t.cos, t.sin;
    assert Rotation(t) == Matrix(c, -s, s, c);
    assert Rotation(Negate(t)) == Matrix(c, s, -s, c);
    assert c * c + (-s) * (-s) == 1.0;
    assert c * s + (-s) * c == 0.0 && s * c + c * (-s) == 0.0;
  }

  /** One point of `rotate_in_place`: shift + (p − shift) · R(θ). The pivot stays put. */
  function RotatePoint(p: Point, shift: Point, t: Trig): (q: Point)
    ensures p == shift ==> q == shift
  {
    Add(RowTimes(Sub(p, shift), Rotation(t)), shift)
  }

  /**
   * `rotate_in_place` on a batch of chords: every endpoint is rotated, and the
   * batch keeps its length, its order and each chord's start/end pairing.
   */
  function RotateInPlace(chords: seq<Chord>, shift: Point, t: Trig): (r: seq<Chord>)
    ensures |r| == |chords|
    ensures forall i :: 0 <= i < |r| ==>
      r[i].start == RotatePoint(chords[i].start, shift, t) && r[i].end == RotatePoint(chords[i].end, shift, t)
  {
    seq(|chords|, i requires 0 <= i < |chords| =>
      Chord(RotatePoint(chords[i].start, shift, t), RotatePoint(chords[i].end, shift, t)))
  }

  /**
   * Multiplying the row vector by R(θ) is applying R(−θ) to the column
   * vector: `rotate_in_place` turns points clockwise by θ.
   */
  lemma RotateIsClockwise(p: Point, shift: Point, t: Trig)
    ensures RotatePoint(p, shift, t) == Add(Apply(Rotation(Negate(t)), Sub(p, shift)), shift)
  {
  }

  /** Every point keeps its distance from the pivot. */
  lemma RotatePreservesDistance(p: Point, shift: Point, t: Trig)
    requires Unit(t)
    ensures Dist2(RotatePoint(p, shift, t), shift) == Dist2(p, shift)
  {
    var dx, dy := p.x - shift.x, p.y - shift.y;
    var c, s := t.cos, t.sin;
    var qx, qy := dx * c + dy * s, dx * (-s) + dy * c;
    assert RotatePoint(p, shift, t) == Point(qx + shift.x, qy + shift.y);
    SumOfSquaresRotated(dx, dy, c, s);
  }

  /** (dx·c + dy·s)² + (−dx·s + dy·c)² = (dx² + dy²)(c² + s²). */
  lemma SumOfSquaresRotated(dx: real, dy: real, c: real, s: real)
    ensures (dx * c + dy * s) * (dx * c + dy * s) + (dx * (-s) + dy * c) * (dx * (-s) + dy * c)
         == (dx * dx + dy * dy) * (c * c + s * s)
  {
  }

  /** Rotating by θ and then by −θ about the same pivot gives the point back. */
  lemma RotateRoundTrip(p: Point, shift: Point, t: Trig)
    requires Unit(t)
    ensures RotatePoint(RotatePoint(p, shift, t), shift, Negate(t)) == p
  {
    var d := Sub(p, shift);
    UndoRotation(d.x, d.y, t.cos, t.sin);
  }

  /** Rotating the row vector (dx, dy) by (c, s) and then by (c, −s) gives it back when c² + s² = 1. */
  lemma UndoRotation(dx: real, dy: real, c: real, s: real)
    requires c * c + s * s == 1.0
    ensures (dx * c + dy * s) * c + (dx * (-s) + dy * c) * (-s) == dx
    ensures (dx * c + dy * s) * s + (dx * (-s) + dy * c) * c == dy
  {
    assert (dx * c + dy * s) * c + (dx * (-s) + dy * c) * (-s) == dx * (c * c + s * s);
    assert (dx * c + dy * s) * s + (dx * (-s) + dy * c) * c == dy * (c * c + s * s);
  }

  /** The batch round trip: every chord of the batch comes back unchanged. */
  lemma RotateInPlaceRoundTrip(chords: seq<Chord>, shift: Point, t: Trig)
    requires Unit(t)
    ensures RotateInPlace(RotateInPlace(chords, shift, t), shift, Negate(t)) == chords
  {
    var back := RotateInPlace(RotateInPlace(chords, shift, t), shift, Negate(t));
    forall i | 0 <= i < |chords|
      ensures back[i] == chords[i]
    {
      RotateRoundTrip(chords[i].start, shift, t);
      RotateRoundTrip(chords[i].end, shift, t);
    }
  }

  // ---------------------------------------------------------------------
  // Colour jitter
  // ---------------------------------------------------------------------

  /** An RGBA colour; channels in [0, 1] or, scaled, in [0, 255]. */
  datatype Rgba = Rgba(r: real, g: real, b: real, a: real)

  /** One random integer offset per RGB channel. */
  datatype Offset = Offset(dr: int, dg: int, db: int)

  predicate InUnit(c: Rgba) {
    0.0 <= c.r <= 1.0 && 0.0 <= c.g <= 1.0 && 0.0 <= c.b <= 1.0 && 0.0 <= c.a <= 1.0
  }

  /** What `randint(-noise, noise)` can draw: integers in [−noise, noise). */
  predicate OffsetInRange(o: Offset, noise: int) {
    -noise <= o.dr < noise && -noise <= o.dg < noise && -noise <= o.db < noise
  }

  function Abs(x: real): real {
    if x < 0.0 then -x else x
  }

  /** Every channel of `c` is within `noise`/255 of `base`'s. */
  predicate RgbNear(c: Rgba, base: Rgba, noise: int) {
    Abs(c.r - base.r) <= noise as real / 255.0
    && Abs(c.g - base.g) <= noise as real / 255.0
    && Abs(c.b - base.b) <= noise as real / 255.0
  }

  /** min(255, max(0, v)). */
  function Clamp(v: real): (r: real)
    ensures 0.0 <= r <= 255.0
    ensures 0.0 <= v <= 255.0 ==> r == v
  {
    if v < 0.0 then 0.0 else if v > 255.0 then 255.0 else v
  }

  /** Clamping never moves a value away from a point inside [0, 255]. */
  lemma ClampNonExpansive(v: real, u: real)
    requires 0.0 <= u <= 255.0
    ensures Abs(Clamp(v) - u) <= Abs(v - u)
  {
  }

  /** The base colour in the 0–255 domain (`to_rgba(color) * 255`). */
  function Scaled(c: Rgba): (s: Rgba)
    ensures InUnit(c) ==> 0.0 <= s.r <= 255.0 && 0.0 <= s.g <= 255.0 && 0.0 <= s.b <= 255.0 && 0.0 <= s.a <= 255.0
  {
    Rgba(c.r * 255.0, c.g * 255.0, c.b * 255.0, c.a * 255.0)
  }

  /** `colors[:, :3] += offset`: only the RGB channels move, each by its own offset. */
  function AddOffset(c: Rgba, o: Offset): (d: Rgba)
    ensures d.a == c.a
    ensures d.r - c.r == o.dr as real && d.g - c.g == o.dg as real && d.b - c.b == o.db as real
  {
    Rgba(c.r + o.dr as real, c.g + o.dg as real, c.b + o.db as real, c.a)
  }

  /** `np.minimum(255, np.maximum(0, c)) / 255` on every channel. */
  function Normalize(c: Rgba): (n: Rgba)
    ensures InUnit(n)
  {
    Rgba(Clamp(c.r) / 255.0, Clamp(c.g) / 255.0, Clamp(c.b) / 255.0, Clamp(c.a) / 255.0)
  }

  /** The colour one offset draw produces from `base`: always a valid colour. */
  function JitterColor(base: Rgba, o: Offset): (c: Rgba)
    ensures InUnit(c)
  {
    Normalize(AddOffset(Scaled(base), o))
  }

  /** A jittered colour stays in [0, 1], keeps the base alpha and stays near the base RGB. */
  lemma JitterColorNearBase(base: Rgba, o: Offset, noise: int)
    requires InUnit(base) && OffsetInRange(o, noise)
    ensures InUnit(JitterColor(base, o))
    ensures JitterColor(base, o).a == base.a
    ensures RgbNear(JitterColor(base, o), base, noise)
  {
    var c := JitterColor(base, o);
    ChannelNear(base.r, o.dr, noise);
    ChannelNear(base.g, o.dg, noise);
    ChannelNear(base.b, o.db, noise);
    assert Clamp(base.a * 255.0) == base.a * 255.0;
  }

  /** One channel: clamping 255·v + d lands within |d| of 255·v. */
  lemma ChannelNear(v: real, d: int, noise: int)
    requires 0.0 <= v <= 1.0 && -noise <= d < noise
    ensures Abs(Clamp(v * 255.0 + d as real) / 255.0 - v) <= noise as real / 255.0
  {
    var u := v * 255.0;
    var r := Clamp(u + d as real);
    ClampNonExpansive(u + d as real, u);
    assert Abs(r / 255.0 - v) == Abs(r - u) / 255.0;
  }

  /**
   * `jittered_colors`: tile the scaled base colour into `nColors` rows, add
   * one offset draw to each row's RGB channels in place, then clamp and
   * normalise. `offsets` are the `randint` draws, one per row.
   */
  method JitteredColors(base: Rgba, nColors: nat, noise: int, offsets: seq<Offset>) returns (colors: seq<Rgba>)
    requires noise > 0
    requires InUnit(base)
    requires |offsets| == nColors
    requires forall i :: 0 <= i < nColors ==> OffsetInRange(offsets[i], noise)
    ensures |colors| == nColors
    ensures forall i :: 0 <= i < nColors ==> colors[i] == JitterColor(base, offsets[i])
    ensures forall i :: 0 <= i < nColors ==>
      InUnit(colors[i]) && colors[i].a == base.a && RgbNear(colors[i], base, noise)
  {
    var scaled := Scaled(base);
    var rows := new Rgba[nColors](_ => scaled);
    var i := 0;
    while i < nColors
      invariant 0 <= i <= nColors
      invariant forall j :: 0 <= j < i ==> rows[j] == AddOffset(scaled, offsets[j])
      invariant forall j :: i <= j < nColors ==> rows[j] == scaled
    {
      rows[i] := AddOffset(rows[i], offsets[i]);
      i := i + 1;
    }
    colors := [];
    i := 0;
    while i < nColors
      invariant 0 <= i <= nColors
      invariant |colors| == i
      invariant forall j :: 0 <= j < i ==> colors[j] == JitterColor(base, offsets[j])
    {
      colors := colors + [Normalize(rows[i])];
      i := i + 1;
    }
    forall i | 0 <= i < nColors
      ensures InUnit(colors[i]) && colors[i].a == base.a && RgbNear(colors[i], base, noise)
    {
      JitterColorNearBase(base, offsets[i], noise);
    }
  }
}
