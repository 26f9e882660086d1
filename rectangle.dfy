/**
 * Rectangles drawn by clipping an ellipse's chords, and line segments drawn
 * as thin rotated rectangles.
 *
 * A rectangle shares the circumscribing ellipse's center, width and height
 * (here full extents, not semi-axes). Each chord of that ellipse is read as
 * the infinite line through its two points; the line is cut at the two
 * middle crossings of the four edge lines, and is kept only when it truly
 * passes through the rectangle.
 */
module Rectangles {
  import opened Wrappers
  import opened Geometry
  import opened Utils
  import Ellipses

  /** A rectangle carries the same data as its circumscribing ellipse. */
  type Rectangle = Ellipses.Ellipse

  /** The top edge lies half the height above the center. */
  function Top(r: Rectangle): (y: real)
    ensures 2.0 * (y - r.center.y) == r.height
  {
    r.center.y + r.height / 2.0
  }

  /** The bottom edge lies half the height below the center. */
  function Bottom(r: Rectangle): (y: real)
    ensures 2.0 * (r.center.y - y) == r.height
  {
    r.center.y - r.height / 2.0
  }

  /** The left edge lies half the width left of the center. */
  function Left(r: Rectangle): (x: real)
    ensures 2.0 * (r.center.x - x) == r.width
  {
    r.center.x - r.width / 2.0
  }

  /** The right edge lies half the width right of the center. */
  function Right(r: Rectangle): (x: real)
    ensures 2.0 * (x - r.center.x) == r.width
  {
    r.center.x + r.width / 2.0
  }

  /** The box is `width` wide and `height` tall, centred on `center`. */
  lemma BoxGeometry(r: Rectangle)
    ensures Right(r) - Left(r) == r.width && Top(r) - Bottom(r) == r.height
    ensures (Left(r) + Right(r)) / 2.0 == r.center.x && (Bottom(r) + Top(r)) / 2.0 == r.center.y
    ensures r.width > 0.0 ==> Left(r) < Right(r)
    ensures r.height > 0.0 ==> Bottom(r) < Top(r)
  {
  }

  /** The open box left < x < right, bottom < y < top. */
  predicate StrictlyInside(r: Rectangle, p: Point) {
    Left(r) < p.x < Right(r) && Bottom(r) < p.y < Top(r)
  }

  /** The closed box [left, right] × [bottom, top]. */
  predicate InClosedBox(r: Rectangle, p: Point) {
    Left(r) <= p.x <= Right(r) && Bottom(r) <= p.y <= Top(r)
  }

  // ---------------------------------------------------------------------
  // Crossing times
  // ---------------------------------------------------------------------

  /** Neither Δx nor Δy is zero, so all four crossing times exist. */
  predicate NonAxisParallel(c: Chord) {
    c.end.x != c.start.x && c.end.y != c.start.y
  }

  predicate AllNonAxisParallel(chords: seq<Chord>) {
    forall i :: 0 <= i < |chords| ==> NonAxisParallel(chords[i])
  }

  /** The point at time t on the line through the chord: start + t·(end − start). */
  function LineAt(c: Chord, t: real): Point {
    Point(c.start.x + t * (c.end.x - c.start.x), c.start.y + t * (c.end.y - c.start.y))
  }

  /**
   * The times at which the chord's line meets x = left, x = right, y = top
   * and y = bottom, in that order.
   */
  function CrossingTimes(r: Rectangle, c: Chord): (times: seq<real>)
    requires NonAxisParallel(c)
    ensures |times| == 4
  {
    var dx, dy := c.end.x - c.start.x, c.end.y - c.start.y;
    [(Left(r) - c.start.x) / dx, (Right(r) - c.start.x) / dx,
     (Top(r) - c.start.y) / dy, (Bottom(r) - c.start.y) / dy]
  }

  /** The line is on each edge line at that edge's crossing time. */
  lemma CrossingTimesMeetEdges(r: Rectangle, c: Chord)
    requires NonAxisParallel(c)
    ensures LineAt(c, CrossingTimes(r, c)[0]).x == Left(r) && LineAt(c, CrossingTimes(r, c)[1]).x == Right(r)
    ensures LineAt(c, CrossingTimes(r, c)[2]).y == Top(r) && LineAt(c, CrossingTimes(r, c)[3]).y == Bottom(r)
  {
  }

  function Min(a: real, b: real): real { if a <= b then a else b }
  function Max(a: real, b: real): real { if a <= b then b else a }

  /** Order positions i < j of `s`: the smaller value first. */
  function CompareExchange(s: seq<real>, i: nat, j: nat): (r: seq<real>)
    requires i < j < |s|
    ensures |r| == |s| && r[i] == Min(s[i], s[j]) && r[j] == Max(s[i], s[j])
    ensures forall k :: 0 <= k < |s| && k != i && k != j ==> r[k] == s[k]
  {
    if s[i] <= s[j] then s else s[i := s[j]][j := s[i]]
  }

  /** A compare-exchange only swaps, so it keeps the multiset of values. */
  lemma CompareExchangePermutes(s: seq<real>, i: nat, j: nat)
    requires i < j < |s|
    ensures multiset(CompareExchange(s, i, j)) == multiset(s)
  {
    if s[j] < s[i] {
      calc {
        multiset(s[i := s[j]][j := s[i]]);
        multiset(s[i := s[j]]) - multiset{s[i := s[j]][j]} + multiset{s[i]};
        multiset(s) - multiset{s[i]} + multiset{s[j]} - multiset{s[j]} + multiset{s[i]};
        multiset(s);
      }
    }
  }

  /**
   * `np.sort` of the four crossing times. Sorting the x pair and the y pair
   * and then merging them puts the larger of the two minima and the smaller
   * of the two maxima in the middle.
   */
  function Sort4(t: seq<real>): (s: seq<real>)
    requires |t| == 4
    ensures |s| == 4 && s[0] <= s[1] <= s[2] <= s[3]
  {
    var pairs := CompareExchange(CompareExchange(t, 0, 1), 2, 3);
    var ends := CompareExchange(CompareExchange(pairs, 0, 2), 1, 3);
    CompareExchange(ends, 1, 2)
  }

  /** The sorted times are a rearrangement of the crossing times. */
  lemma Sort4Permutes(t: seq<real>)
    requires |t| == 4
    ensures multiset(Sort4(t)) == multiset(t)
  {
    var x := CompareExchange(t, 0, 1);
    var pairs := CompareExchange(x, 2, 3);
    var y := CompareExchange(pairs, 0, 2);
    var ends := CompareExchange(y, 1, 3);
    CompareExchangePermutes(t, 0, 1);
    CompareExchangePermutes(x, 2, 3);
    CompareExchangePermutes(pairs, 0, 2);
    CompareExchangePermutes(y, 1, 3);
    CompareExchangePermutes(ends, 1, 2);
  }

  /**
   * The two middle sorted times: the larger of the pair minima and the
   * smaller of the pair maxima, in order.
   */
  lemma Sort4Middle(t: seq<real>)
    requires |t| == 4
    ensures Sort4(t)[1] == Min(Max(Min(t[0], t[1]), Min(t[2], t[3])), Min(Max(t[0], t[1]), Max(t[2], t[3])))
    ensures Sort4(t)[2] == Max(Max(Min(t[0], t[1]), Min(t[2], t[3])), Min(Max(t[0], t[1]), Max(t[2], t[3])))
  {
  }

  /** The probe is taken this far past the second crossing time. */
  const Eps: real := 0.0000001

  /** The four Gaussian draws added to one chord's sorted times. */
  datatype TimeNoise = TimeNoise(g0: real, g1: real, g2: real, g3: real)

  /**
   * A chord is kept exactly when its entry probe, the point on its line
   * just past the second sorted crossing time, lies in the open box. A box
   * without area keeps nothing.
   */
  predicate Kept(r: Rectangle, c: Chord)
    requires NonAxisParallel(c)
    ensures Kept(r, c) ==> r.width > 0.0 && r.height > 0.0
  {
    StrictlyInside(r, LineAt(c, Eps + Sort4(CrossingTimes(r, c))[1]))
  }

  /**
   * The kept chord: its line at the noisy 2nd and 3rd sorted times. Both
   * new endpoints stay on the line through the raw chord.
   */
  function Relocate(r: Rectangle, fuzz: real, c: Chord, g: TimeNoise): (k: Chord)
    requires NonAxisParallel(c)
    ensures exists t1, t2 :: k == Chord(LineAt(c, t1), LineAt(c, t2))
  {
    var s := Sort4(CrossingTimes(r, c));
    Chord(LineAt(c, s[1] + Ellipses.FuzzScale * fuzz * g.g1),
          LineAt(c, s[2] + Ellipses.FuzzScale * fuzz * g.g2))
  }

  // ---------------------------------------------------------------------
  // Clip and filter
  // ---------------------------------------------------------------------

  /** The kept chords, relocated, in the order of the raw chords they come from. */
  function Clip(r: Rectangle, fuzz: real, raw: seq<Chord>, noise: seq<TimeNoise>): (kept: seq<Chord>)
    requires |noise| == |raw| && AllNonAxisParallel(raw)
    ensures |kept| <= |raw|
    decreases |raw|
  {
    if raw == [] then []
    else
      var k := |raw| - 1;
      Clip(r, fuzz, raw[..k], noise[..k]) + (if Kept(r, raw[k]) then [Relocate(r, fuzz, raw[k], noise[k])] else [])
  }

  /** The positions of the kept raw chords. */
  function KeptIndices(r: Rectangle, raw: seq<Chord>): (idx: seq<nat>)
    requires AllNonAxisParallel(raw)
    decreases |raw|
  {
    if raw == [] then []
    else
      var k := |raw| - 1;
      KeptIndices(r, raw[..k]) + (if Kept(r, raw[k]) then [k] else [])
  }

  /** The kept positions are positions of `raw`, each once and in increasing order. */
  lemma {:induction false} KeptIndicesIncreasing(r: Rectangle, raw: seq<Chord>)
    requires AllNonAxisParallel(raw)
    ensures forall j :: 0 <= j < |KeptIndices(r, raw)| ==> KeptIndices(r, raw)[j] < |raw|
    ensures forall j, j' :: 0 <= j < j' < |KeptIndices(r, raw)| ==> KeptIndices(r, raw)[j] < KeptIndices(r, raw)[j']
    decreases |raw|
  {
    if raw != [] {
      var k := |raw| - 1;
      KeptIndicesIncreasing(r, raw[..k]);
    }
  }

  /** A raw chord's position is among the kept positions exactly when the chord is kept. */
  lemma {:induction false} KeptIndicesExact(r: Rectangle, raw: seq<Chord>)
    requires AllNonAxisParallel(raw)
    ensures forall i :: 0 <= i < |raw| ==> (Kept(r, raw[i]) <==> i in KeptIndices(r, raw))
    decreases |raw|
  {
    if raw != [] {
      var k := |raw| - 1;
      var raw' := raw[..k];
      KeptIndicesExact(r, raw');
      KeptIndicesIncreasing(r, raw');
      var idx, idx' := KeptIndices(r, raw), KeptIndices(r, raw');
      assert idx == idx' + (if Kept(r, raw[k]) then [k] else []);
      forall i | 0 <= i < k
        ensures Kept(r, raw[i]) <==> i in idx
      {
        assert raw'[i] == raw[i];
        assert i in idx <==> i in idx';
      }
    }
  }

  /**
   * `Clip` is an order-preserving filter followed by a map: the j-th output
   * chord is the relocation of the raw chord at the j-th kept position.
   */
  lemma {:induction false} ClipIsOrderedFilter(r: Rectangle, fuzz: real, raw: seq<Chord>, noise: seq<TimeNoise>)
    requires |noise| == |raw| && AllNonAxisParallel(raw)
    ensures |Clip(r, fuzz, raw, noise)| == |KeptIndices(r, raw)|
    ensures forall j :: 0 <= j < |KeptIndices(r, raw)| ==>
      var i := KeptIndices(r, raw)[j];
      i < |raw| && Kept(r, raw[i]) && Clip(r, fuzz, raw, noise)[j] == Relocate(r, fuzz, raw[i], noise[i])
    decreases |raw|
  {
    if raw != [] {
      var k := |raw| - 1;
      var raw', noise' := raw[..k], noise[..k];
      ClipIsOrderedFilter(r, fuzz, raw', noise');
      KeptIndicesIncreasing(r, raw');
      var idx, out := KeptIndices(r, raw), Clip(r, fuzz, raw, noise);
      var idx', out' := KeptIndices(r, raw'), Clip(r, fuzz, raw', noise');
      var keep := Kept(r, raw[k]);
      assert idx == idx' + (if keep then [k] else []);
      assert out == out' + (if keep then [Relocate(r, fuzz, raw[k], noise[k])] else []);
      forall j | 0 <= j < |idx|
        ensures idx[j] < |raw| && Kept(r, raw[idx[j]]) && out[j] == Relocate(r, fuzz, raw[idx[j]], noise[idx[j]])
      {
        if j < |idx'| {
          var i := idx'[j];
          assert idx[j] == i && out[j] == out'[j];
          assert raw'[i] == raw[i] && noise'[i] == noise[i];
        }
      }
    }
  }

  /**
   * Monotonicity of the line in one coordinate: x0 + t·dx is strictly
   * between lo and hi only at times strictly between the crossing times
   * ta (where it equals lo) and tb (where it equals hi).
   */
  lemma StrictCoordToTime(x0: real, dx: real, lo: real, hi: real, ta: real, tb: real, t: real)
    requires dx != 0.0 && x0 + ta * dx == lo && x0 + tb * dx == hi
    requires lo < x0 + t * dx < hi
    ensures Min(ta, tb) < t < Max(ta, tb)
  {
    assert (t - ta) * dx > 0.0;
    assert (tb - t) * dx > 0.0;
    if dx > 0.0 {
      NonNegativeFactor(t - ta, dx);
      NonNegativeFactor(tb - t, dx);
    } else {
      NonNegativeFactor(ta - t, -dx);
      NonNegativeFactor(t - tb, -dx);
    }
  }

  /** A product with a positive factor is positive only if the other factor is. */
  lemma NonNegativeFactor(x: real, y: real)
    requires y > 0.0 && x * y > 0.0
    ensures x > 0.0
  {
  }

  lemma MulNonNegative(x: real, y: real)
    requires x >= 0.0 && y >= 0.0
    ensures x * y >= 0.0
  {
  }

  /** Between the two crossing times, the coordinate stays between lo and hi. */
  lemma TimeToClosedCoord(x0: real, dx: real, lo: real, hi: real, ta: real, tb: real, t: real)
    requires dx != 0.0 && x0 + ta * dx == lo && x0 + tb * dx == hi
    requires Min(ta, tb) <= t <= Max(ta, tb)
    ensures Min(lo, hi) <= x0 + t * dx <= Max(lo, hi)
  {
    assert x0 + t * dx - lo == (t - ta) * dx;
    assert hi - (x0 + t * dx) == (tb - t) * dx;
    if ta <= tb {
      if dx > 0.0 {
        MulNonNegative(t - ta, dx);
        MulNonNegative(tb - t, dx);
      } else {
        MulNonNegative(t - ta, -dx);
        MulNonNegative(tb - t, -dx);
      }
    } else {
      if dx > 0.0 {
        MulNonNegative(ta - t, dx);
        MulNonNegative(t - tb, dx);
      } else {
        MulNonNegative(ta - t, -dx);
        MulNonNegative(t - tb, -dx);
      }
    }
  }

  /**
   * Order facts behind the clipping: if a time just past the middle of the
   * merged pairs lies strictly inside both [lo1, hi1] and [lo2, hi2], the
   * two middle times lie in both intervals, the earlier one first.
   */
  lemma MiddleTimes(lo1: real, hi1: real, lo2: real, hi2: real)
    requires lo1 <= hi1 && lo2 <= hi2
    requires
      var probe := Eps + Min(Max(lo1, lo2), Min(hi1, hi2));
      lo1 < probe < hi1 && lo2 < probe < hi2
    ensures
      var s1, s2 := Min(Max(lo1, lo2), Min(hi1, hi2)), Max(Max(lo1, lo2), Min(hi1, hi2));
      s1 < s2 && lo1 <= s1 && s2 <= hi1 && lo2 <= s1 && s2 <= hi2
  {
  }

  /** `StrictCoordToTime` on the x coordinate of a chord's line. */
  lemma StrictOnLineX(c: Chord, lo: real, hi: real, ta: real, tb: real, t: real)
    requires c.end.x != c.start.x && LineAt(c, ta).x == lo && LineAt(c, tb).x == hi
    requires lo < LineAt(c, t).x < hi
    ensures Min(ta, tb) < t < Max(ta, tb)
  {
    StrictCoordToTime(c.start.x, c.end.x - c.start.x, lo, hi, ta, tb, t);
  }

  /** `StrictCoordToTime` on the y coordinate of a chord's line. */
  lemma StrictOnLineY(c: Chord, lo: real, hi: real, ta: real, tb: real, t: real)
    requires c.end.y != c.start.y && LineAt(c, ta).y == lo && LineAt(c, tb).y == hi
    requires lo < LineAt(c, t).y < hi
    ensures Min(ta, tb) < t < Max(ta, tb)
  {
    StrictCoordToTime(c.start.y, c.end.y - c.start.y, lo, hi, ta, tb, t);
  }

  /** `TimeToClosedCoord` on the x coordinate of a chord's line. */
  lemma ClosedOnLineX(c: Chord, lo: real, hi: real, ta: real, tb: real, t: real)
    requires c.end.x != c.start.x && LineAt(c, ta).x == lo && LineAt(c, tb).x == hi
    requires Min(ta, tb) <= t <= Max(ta, tb)
    ensures Min(lo, hi) <= LineAt(c, t).x <= Max(lo, hi)
  {
    TimeToClosedCoord(c.start.x, c.end.x - c.start.x, lo, hi, ta, tb, t);
  }

  /** `TimeToClosedCoord` on the y coordinate of a chord's line. */
  lemma ClosedOnLineY(c: Chord, lo: real, hi: real, ta: real, tb: real, t: real)
    requires c.end.y != c.start.y && LineAt(c, ta).y == lo && LineAt(c, tb).y == hi
    requires Min(ta, tb) <= t <= Max(ta, tb)
    ensures Min(lo, hi) <= LineAt(c, t).y <= Max(lo, hi)
  {
    TimeToClosedCoord(c.start.y, c.end.y - c.start.y, lo, hi, ta, tb, t);
  }

  /**
   * The clipping argument on one chord's line with crossing times tl, tr,
   * tt, tb of the four edges: when the probe just past the second sorted
   * crossing is strictly inside the box, the second and third crossings
   * are in the closed box, in that order.
   */
  lemma LineClippedInBox(r: Rectangle, c: Chord, tl: real, tr: real, tt: real, tb: real, s1: real, s2: real)
    requires NonAxisParallel(c)
    requires LineAt(c, tl).x == Left(r) && LineAt(c, tr).x == Right(r)
    requires LineAt(c, tt).y == Top(r) && LineAt(c, tb).y == Bottom(r)
    requires s1 == Min(Max(Min(tl, tr), Min(tt, tb)), Min(Max(tl, tr), Max(tt, tb)))
    requires s2 == Max(Max(Min(tl, tr), Min(tt, tb)), Min(Max(tl, tr), Max(tt, tb)))
    requires StrictlyInside(r, LineAt(c, Eps + s1))
    ensures s1 < s2 && InClosedBox(r, LineAt(c, s1)) && InClosedBox(r, LineAt(c, s2))
  {
    StrictOnLineX(c, Left(r), Right(r), tl, tr, Eps + s1);
    StrictOnLineY(c, Bottom(r), Top(r), tb, tt, Eps + s1);
    MiddleTimes(Min(tl, tr), Max(tl, tr), Min(tt, tb), Max(tt, tb));
    ClosedOnLineX(c, Left(r), Right(r), tl, tr, s1);
    ClosedOnLineY(c, Bottom(r), Top(r), tb, tt, s1);
    ClosedOnLineX(c, Left(r), Right(r), tl, tr, s2);
    ClosedOnLineY(c, Bottom(r), Top(r), tb, tt, s2);
  }

  /**
   * A kept chord enters strictly before it exits, and with fuzz 0 its new
   * endpoints are its line at the 2nd and 3rd sorted crossing times, both
   * inside the closed box.
   */
  lemma KeptChordInBox(r: Rectangle, c: Chord, g: TimeNoise)
    requires NonAxisParallel(c) && Kept(r, c)
    ensures Sort4(CrossingTimes(r, c))[1] < Sort4(CrossingTimes(r, c))[2]
    ensures Relocate(r, 0.0, c, g)
         == Chord(LineAt(c, Sort4(CrossingTimes(r, c))[1]), LineAt(c, Sort4(CrossingTimes(r, c))[2]))
    ensures InClosedBox(r, Relocate(r, 0.0, c, g).start) && InClosedBox(r, Relocate(r, 0.0, c, g).end)
  {
    var t := CrossingTimes(r, c);
    var s := Sort4(t);
    CrossingTimesMeetEdges(r, c);
    Sort4Middle(t);
    LineClippedInBox(r, c, t[0], t[1], t[2], t[3], s[1], s[2]);
    RelocateWithoutFuzz(r, c, g);
  }

  /** With fuzz 0 the Gaussian draws do not move the kept chord's times. */
  lemma RelocateWithoutFuzz(r: Rectangle, c: Chord, g: TimeNoise)
    requires NonAxisParallel(c)
    ensures Relocate(r, 0.0, c, g)
         == Chord(LineAt(c, Sort4(CrossingTimes(r, c))[1]), LineAt(c, Sort4(CrossingTimes(r, c))[2]))
  {
    assert Ellipses.FuzzScale * 0.0 * g.g1 == 0.0 && Ellipses.FuzzScale * 0.0 * g.g2 == 0.0;
  }

  /** With fuzz 0 every endpoint of every clipped chord lies in the closed box. */
  lemma ClipInBox(r: Rectangle, raw: seq<Chord>, noise: seq<TimeNoise>)
    requires |noise| == |raw| && AllNonAxisParallel(raw)
    ensures forall j :: 0 <= j < |Clip(r, 0.0, raw, noise)| ==>
      InClosedBox(r, Clip(r, 0.0, raw, noise)[j].start) && InClosedBox(r, Clip(r, 0.0, raw, noise)[j].end)
  {
    ClipIsOrderedFilter(r, 0.0, raw, noise);
    var idx := KeptIndices(r, raw);
    forall j | 0 <= j < |idx|
      ensures InClosedBox(r, Clip(r, 0.0, raw, noise)[j].start) && InClosedBox(r, Clip(r, 0.0, raw, noise)[j].end)
    {
      KeptChordInBox(r, raw[idx[j]], noise[idx[j]]);
    }
  }

  // ---------------------------------------------------------------------
  // gen_points
  // ---------------------------------------------------------------------

  /** The raw chords: the circumscribing ellipse's, with fuzz 0 and no rotation. */
  function RawChords(r: Rectangle, n: nat, draws: seq<Ellipses.ChordDraw>): (raw: seq<Chord>)
    requires |draws| == n
    ensures |raw| == n
  {
    Ellipses.GenPoints(r, n, 0.0, draws, None, None)
  }

  /** One more raw chord extends the clipped prefix by its relocation, if it is kept. */
  lemma ClipStep(r: Rectangle, fuzz: real, raw: seq<Chord>, noise: seq<TimeNoise>, i: nat)
    requires |noise| == |raw| && AllNonAxisParallel(raw) && i < |raw|
    ensures AllNonAxisParallel(raw[..i]) && AllNonAxisParallel(raw[..i + 1])
    ensures Clip(r, fuzz, raw[..i + 1], noise[..i + 1])
         == Clip(r, fuzz, raw[..i], noise[..i]) + (if Kept(r, raw[i]) then [Relocate(r, fuzz, raw[i], noise[i])] else [])
  {
    assert raw[..i + 1][..i] == raw[..i] && noise[..i + 1][..i] == noise[..i];
    assert raw[..i + 1][i] == raw[i] && noise[..i + 1][i] == noise[i];
  }

  /**
   * `Rectangle.gen_points`: clip each raw chord to the box, keep those whose
   * entry probe is inside, and rotate the result about `rot_point` (default:
   * the center) when `rot` is given. `draws` are the ellipse's random draws,
   * `noise` the n×4 Gaussian draws added to the sorted times.
   */
  method GenPoints(r: Rectangle, n: nat, fuzz: real, draws: seq<Ellipses.ChordDraw>, noise: seq<TimeNoise>,
                   rot: Option<Trig>, rotPoint: Option<Point>) returns (points: seq<Chord>)
    requires |draws| == n && |noise| == n
    requires AllNonAxisParallel(RawChords(r, n, draws))
    ensures |points| <= n
    ensures points == match rot
      case None => Clip(r, fuzz, RawChords(r, n, draws), noise)
      case Some(t) => RotateInPlace(Clip(r, fuzz, RawChords(r, n, draws), noise), Ellipses.Pivot(r.center, rotPoint), t)
  {
    var raw := RawChords(r, n, draws);
    var kept: seq<Chord> := [];
    var i := 0;
    while i < n
      invariant 0 <= i <= n
      invariant AllNonAxisParallel(raw[..i])
      invariant kept == Clip(r, fuzz, raw[..i], noise[..i])
    {
      ClipStep(r, fuzz, raw, noise, i);
      if Kept(r, raw[i]) {
        kept := kept + [Relocate(r, fuzz, raw[i], noise[i])];
      }
      i := i + 1;
    }
    assert raw[..n] == raw && noise[..n] == noise;
    match rot
    case None =>
      points := kept;
    case Some(t) =>
      points := RotateInPlace(kept, Ellipses.Pivot(r.center, rotPoint), t);
  }

  // ---------------------------------------------------------------------
  // Segment
  // ---------------------------------------------------------------------

  /**
   * The segment's angle: π/2 when the tangent is horizontal, otherwise
   * arctan(Δx/Δy). Kept symbolic; `TrigOf` says which (cos, sin) it has.
   */
  datatype Angle = HalfPi | Arctan(ratio: real)

  /** `t` is (cos θ, sin θ) of the angle; arctan lies in (−π/2, π/2), so its cosine is positive. */
  predicate TrigOf(a: Angle, t: Trig) {
    match a
    case HalfPi => t == Trig(0.0, 1.0)
    case Arctan(q) => Unit(t) && t.cos > 0.0 && t.sin == q * t.cos
  }

  /** A line segment as the source stores it: start, center, length and angle. */
  datatype Segment = Segment(start: Point, center: Point, length: real, theta: Angle)

  /** `root` is the Euclidean length √(Δx² + Δy²) of the segment. */
  predicate IsLength(start: Point, end: Point, root: real) {
    root >= 0.0 && root * root == Dist2(end, start)
  }

  /** `Segment(start, end)`, with the square root of Δx² + Δy² supplied as `root`. */
  function NewSegment(start: Point, end: Point, root: real): (s: Segment)
    requires IsLength(start, end, root)
    ensures s.start == start
    ensures s.center == Point((start.x + end.x) / 2.0, (start.y + end.y) / 2.0)
    ensures s.length >= 0.0 && s.length * s.length == Dist2(end, start)
    ensures s.theta.HalfPi? <==> start.y == end.y
    ensures s.theta.Arctan? ==> s.theta.ratio * (end.y - start.y) == end.x - start.x
  {
    var tangent := Sub(end, start);
    var theta := if tangent.y == 0.0 then HalfPi else Arctan(tangent.x / tangent.y);
    Segment(start, Add(start, Point(tangent.x / 2.0, tangent.y / 2.0)), root, theta)
  }

  /** Alpha used by `Segment.plot` when the caller gives none. */
  const SegmentAlpha: real := 0.2

  /** The thin rectangle a segment is drawn as: `width` wide, as tall as the segment is long. */
  function SegmentRect(seg: Segment, width: real): (rect: Rectangle)
    ensures rect.center == seg.center
    ensures Right(rect) - Left(rect) == width && Top(rect) - Bottom(rect) == seg.length
  {
    Ellipses.Ellipse(seg.center, width, seg.length)
  }

  /** What `Segment.plot` hands on to `Rectangle.plot`. */
  datatype RectPlot = RectPlot(rect: Rectangle, rot: Angle, rotPoint: Point, n: nat, lw: real,
                               fuzz: real, alpha: real, kwargs: Ellipses.Kwargs)

  /**
   * `Segment.plot`: the segment's thin rectangle, rotated by the segment's
   * angle about its center; alpha popped from the keywords, 0.2 by default;
   * the remaining keywords passed on unchanged.
   */
  function SegmentPlot(seg: Segment, lw: real, n: nat, fuzz: real, width: real, kwargs: Ellipses.Kwargs): (p: RectPlot)
    ensures p.rect == SegmentRect(seg, width) && p.rot == seg.theta && p.rotPoint == seg.center
    ensures p.n == n && p.lw == lw && p.fuzz == fuzz
    ensures p.alpha == if "alpha" in kwargs then kwargs["alpha"] else SegmentAlpha
    ensures p.kwargs == kwargs - {"alpha"}
  {
    RectPlot(SegmentRect(seg, width), seg.theta, seg.center, n, lw, fuzz,
             Ellipses.PopOr(kwargs, "alpha", SegmentAlpha), kwargs - {"alpha"})
  }

  lemma MulPositive(x: real, y: real)
    requires x > 0.0 && y > 0.0
    ensures x * y > 0.0
  {
  }

  /** Two non-negative numbers with equal squares are equal. */
  lemma SquareRootUnique(a: real, b: real)
    requires a >= 0.0 && b >= 0.0 && a * a == b * b
    ensures a == b
  {
    if a > b {
      MulPositive(a - b, a + b);
    } else if a < b {
      MulPositive(b - a, a + b);
    }
  }

  /**
   * For the arctan case: with c = cos θ > 0, s = sin θ = (dx/dy)·c and
   * L = √(dx² + dy²), the rotated axis (L·s, L·c) is ±(dx, dy).
   */
  lemma ArctanScale(dx: real, dy: real, len: real, c: real, s: real)
    requires dy != 0.0 && len >= 0.0 && len * len == dx * dx + dy * dy
    requires c > 0.0 && c * c + s * s == 1.0 && s == (dx / dy) * c
    ensures c * len == Abs(dy)
    ensures s * len == if dy > 0.0 then dx else -dx
  {
    var q := dx / dy;
    assert q * dy == dx;
    assert dx * dx == q * q * (dy * dy);
    assert (c * len) * (c * len) == c * c * (q * q * (dy * dy) + dy * dy);
    assert c * c * (q * q * (dy * dy) + dy * dy) == (c * c + (q * c) * (q * c)) * (dy * dy);
    assert (c * len) * (c * len) == Abs(dy) * Abs(dy);
    SquareRootUnique(c * len, Abs(dy));
    assert s * len == q * (c * len);
  }

  /**
   * The rotated thin rectangle lies along the segment: rotating the middle
   * of its top edge by the segment's angle about the center lands on one end
   * of the segment, and the middle of its bottom edge on the other.
   */
  lemma StripAlongSegment(start: Point, end: Point, root: real, width: real, t: Trig)
    requires IsLength(start, end, root)
    requires TrigOf(NewSegment(start, end, root).theta, t)
    ensures
      var seg := NewSegment(start, end, root);
      var rect := SegmentRect(seg, width);
      var top := RotatePoint(Point(seg.center.x, Top(rect)), seg.center, t);
      var bottom := RotatePoint(Point(seg.center.x, Bottom(rect)), seg.center, t);
      if end.y > start.y || (end.y == start.y && end.x >= start.x)
      then top == end && bottom == start
      else top == start && bottom == end
  {
    var seg := NewSegment(start, end, root);
    var h := root / 2.0;
    var rect := SegmentRect(seg, width);
    assert Top(rect) == seg.center.y + h && Bottom(rect) == seg.center.y - h;
    RotateVertical(seg.center, h, t);
    if end.y == start.y {
      HorizontalStripEnds(start, end, root);
    } else {
      SlopedStripEnds(start, end, root, t);
    }
  }

  /** Rotating the points h above and below a pivot turns them by (h·sin θ, h·cos θ). */
  lemma RotateVertical(center: Point, h: real, t: Trig)
    ensures RotatePoint(Point(center.x, center.y + h), center, t) == Point(center.x + h * t.sin, center.y + h * t.cos)
    ensures RotatePoint(Point(center.x, center.y - h), center, t) == Point(center.x - h * t.sin, center.y - h * t.cos)
  {
  }

  /** A horizontal segment: π/2 turns the half-length h = L/2 onto ±(Δx/2, 0). */
  lemma HorizontalStripEnds(start: Point, end: Point, root: real)
    requires IsLength(start, end, root) && end.y == start.y
    ensures
      var h, m := root / 2.0, Point((start.x + end.x) / 2.0, (start.y + end.y) / 2.0);
      if end.x >= start.x
      then Point(m.x + h, m.y) == end && Point(m.x - h, m.y) == start
      else Point(m.x + h, m.y) == start && Point(m.x - h, m.y) == end
  {
    var dx := end.x - start.x;
    assert root * root == Abs(dx) * Abs(dx);
    SquareRootUnique(root, Abs(dx));
  }

  /** A sloped segment: arctan(Δx/Δy) turns the half-length onto ±(Δx/2, Δy/2), upward first. */
  lemma SlopedStripEnds(start: Point, end: Point, root: real, t: Trig)
    requires IsLength(start, end, root) && end.y != start.y
    requires TrigOf(Arctan((end.x - start.x) / (end.y - start.y)), t)
    ensures
      var h, m := root / 2.0, Point((start.x + end.x) / 2.0, (start.y + end.y) / 2.0);
      var top, bottom := Point(m.x + h * t.sin, m.y + h * t.cos), Point(m.x - h * t.sin, m.y - h * t.cos);
      if end.y > start.y then top == end && bottom == start else top == start && bottom == end
  {
    var dx, dy := end.x - start.x, end.y - start.y;
    ArctanScale(dx, dy, root, t.cos, t.sin);
    assert (root / 2.0) * t.sin == (t.sin * root) / 2.0 && (root / 2.0) * t.cos == (t.cos * root) / 2.0;
  }
}
