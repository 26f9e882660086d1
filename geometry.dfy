/** Optional values, standing in for Python's `None` defaults. */
module Wrappers {

  datatype Option<T> = None | Some(value: T) {

    /** The wrapped value, or `default` when there is none. */
    function GetOr(default: T): T {
      match this
      case Some(v) => v
      case None => default
    }
  }
}

/**
 * Plane geometry shared by every mark: points, chords, and the
 * (cos, sin) pair that stands for an angle.
 */
module Geometry {

  /** A point (x, y); numpy's float coordinates become reals. */
  datatype Point = Point(x: real, y: real)

  /** One drawn stroke: a start and an end point, in that order. */
  datatype Chord = Chord(start: Point, end: Point)

  /**
   * An angle θ, given by its cosine and sine. cos and sin are not computed
   * here: they come with the angle, and `Unit` states cos²θ + sin²θ = 1.
   */
  datatype Trig = Trig(cos: real, sin: real)

  predicate Unit(t: Trig) {
    t.cos * t.cos + t.sin * t.sin == 1.0
  }

  /** The angle −θ: cos(−θ) = cos θ and sin(−θ) = −sin θ. */
  function Negate(t: Trig): (r: Trig)
    ensures Unit(t) ==> Unit(r)
  {
    Trig(t.cos, -t.sin)
  }

  function Add(p: Point, q: Point): Point {
    Point(p.x + q.x, p.y + q.y)
  }

  function Sub(p: Point, q: Point): Point {
    Point(p.x - q.x, p.y - q.y)
  }

  /** Squared Euclidean distance. */
  function Dist2(p: Point, q: Point): (d: real)
    ensures d >= 0.0
  {
    (p.x - q.x) * (p.x - q.x) + (p.y - q.y) * (p.y - q.y)
  }
}
