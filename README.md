# compart sketchy marks, modelled in Dafny

compart draws "sketchy" shapes with matplotlib. Each shape is a swarm of random
chords:

- **Ellipses and circles** join two points taken at random angles on the
  ellipse. With `fuzz`, each point is pushed slightly in or out.
- **Rectangles** reuse the chords of the circumscribing ellipse. Each chord is
  read as the infinite line through its two points and cut at the two middle
  crossings of the four edge lines. It is kept only when the point just past
  the entry crossing is strictly inside the box.
- **Segments** are drawn as thin rectangles, rotated by the segment's angle
  about its center.
- **Lines** (`plot_line`, `plot_hline`, `plot_vline`) are chains of segments
  between consecutive points.
- **Colours** of the chords are the base colour with random integer jitter on
  the RGB channels, clamped to the valid range.

The model covers all of this geometry over `real` numbers. Everything random
is a parameter:

- the angles and Gaussian draws of a chord (`Ellipses.ChordDraw`);
- the four Gaussian draws added to a kept chord's sorted times
  (`Rectangles.TimeNoise`);
- the integer offsets of each colour (`Utils.Offset`).

An angle θ is passed as its cosine and sine (`Geometry.Trig`), with
cos²θ + sin²θ = 1 as a precondition (`Geometry.Unit`). −θ is
(cos θ, −sin θ) (`Geometry.Negate`). The segment length is passed in as the
square root it is. The segment angle stays symbolic: π/2, or arctan of a ratio.
`Rectangles.TrigOf` says which cosine and sine such an angle has.

Files:

- `geometry.dfy`: the `Wrappers` module (Option) and the `Geometry` module
  (points, chords, angles).
- `utils.dfy`: `Utils`, which models compart/marks/utils.py.
- `ellipse.dfy`: `Ellipses`, which models compart/marks/ellipse.py.
- `rectangle.dfy`: `Rectangles`, which models compart/marks/rectangle.py.
- `plot_line.dfy`: `PlotLines`, which models compart/plots/plot_line.py.

Behaviour of the code that the model makes explicit:

- `rotate_in_place` multiplies the row vector (p − pivot) by the rotation
  matrix. That is R(−θ) applied to the column vector, so points turn
  **clockwise** by θ (`Utils.RotateIsClockwise`). The segment angle
  arctan(Δx/Δy) relies on this convention (`Rectangles.StripAlongSegment`).
- An ellipse endpoint draws **one** Gaussian noise value, and the same value
  is added to both semi-axes (`Ellipses.EndpointOnNoisyEllipse`).
- `jittered_colors` with noise 0 calls `randint(0, 0)`, which raises, so the
  model requires noise > 0.
- Nothing checks the rectangle's width and height or the chords' direction.
  The crossing times divide by Δx and Δy without a guard, so the model
  requires every raw chord to have Δx ≠ 0 and Δy ≠ 0 (`Rectangles.NonAxisParallel`).
- The `plot_hline` grid has int((xmax − xmin)/width) points from xmin to
  xmax, so its spacing is (xmax − xmin)/(count − 1), which is in general not
  `width`.

## Model

| member | source | states |
|---|---|---|
| Utils.Rotation | compart/marks/utils.py:6-8 | the matrix has equal diagonal and opposite off-diagonal entries, with determinant 1 when cos² + sin² = 1 |
| Utils.RotatePoint | compart/marks/utils.py:13 | one point of the batch; the pivot is a fixed point |
| Utils.RotationInverse | compart/marks/utils.py:6-8 | R(θ)·R(−θ) = R(−θ)·R(θ) = I when cos² + sin² = 1 |
| Utils.RotateInPlace | compart/marks/utils.py:11-13 | the batch keeps its length and order, and each chord's start and end are rotated in place as pivot + (p − pivot)·R(θ) |
| Utils.RotateIsClockwise | compart/marks/utils.py:11-13 | the row-vector product is R(−θ) applied to p − pivot: a clockwise turn |
| Utils.RotatePreservesDistance | compart/marks/utils.py:6-13 | every point keeps its squared distance from the pivot |
| Utils.RotateRoundTrip | compart/marks/utils.py:6-13 | rotating by θ and then by −θ about the same pivot returns the point |
| Utils.RotateInPlaceRoundTrip | compart/marks/utils.py:11-13 | the same round trip returns the whole chord batch |
| Utils.Scaled | compart/marks/utils.py:33 | a colour in [0, 1] scales to channels in [0, 255] |
| Utils.AddOffset | compart/marks/utils.py:35 | each RGB channel moves by exactly its own offset; alpha does not move |
| Utils.Clamp | compart/marks/utils.py:37 | min(255, max(0, v)) lies in [0, 255] and leaves values already in range unchanged |
| Utils.ClampNonExpansive | compart/marks/utils.py:37 | clamping never moves a value farther from any point of [0, 255] |
| Utils.Normalize | compart/marks/utils.py:37 | every clamped and rescaled channel is in [0, 1] |
| Utils.JitterColor | compart/marks/utils.py:33-37 | one row of the result: always a colour in [0, 1] |
| Utils.JitterColorNearBase | compart/marks/utils.py:33-37 | a jittered colour is in [0, 1], keeps the base alpha, and each RGB channel is within noise/255 of the base |
| Utils.JitteredColors | compart/marks/utils.py:16-37 | n_colors rows, row i being the base scaled to 0–255 plus offset i on RGB, clamped and divided by 255; in range, same alpha, near the base |
| Ellipses.PopOr | compart/marks/ellipse.py:99 | `kwargs.pop(key, default)`: the caller's value when the key is given, the default otherwise |
| Ellipses.Pivot | compart/marks/ellipse.py:54-55 | the pivot is `rot_point` when given and the center when it is None |
| Ellipses.Endpoint | compart/marks/ellipse.py:57-61 | one endpoint; without fuzz it is the ellipse's own point (cx + width·cos θ, cy + height·sin θ) |
| Ellipses.GenPoints | compart/marks/ellipse.py:34-67 | exactly n chords, one per row of draws |
| Ellipses.EndpointOnNoisyEllipse | compart/marks/ellipse.py:56-61 | an endpoint with noise f lies on the ellipse with semi-axes width + f and height + f, one f for both |
| Ellipses.GenPointsOnEllipse | compart/marks/ellipse.py:56-67 | with fuzz 0 and no rotation, ((x − cx)/width)² + ((y − cy)/height)² = 1 for every endpoint |
| Ellipses.GenPointsOnCircle | test/test_circle.py:8-16 | a circle of radius r at the origin with fuzz 0: x² + y² = r² for every endpoint |
| Ellipses.GenPointsRotated | compart/marks/ellipse.py:54-67 | with `rot`, every endpoint is the unrotated one rotated about `rot_point` (default: the center), at the same distance from it |
| Ellipses.PlotColors | compart/marks/ellipse.py:98-100 | n jittered colours whose alpha is the `alpha` keyword, 0.05 by default, with RGB still near the base |
| Rectangles.Top | compart/marks/rectangle.py:16-19 | the top edge is half the height above the center |
| Rectangles.Bottom | compart/marks/rectangle.py:21-24 | the bottom edge is half the height below the center |
| Rectangles.Left | compart/marks/rectangle.py:26-29 | the left edge is half the width left of the center |
| Rectangles.Right | compart/marks/rectangle.py:31-34 | the right edge is half the width right of the center |
| Rectangles.CrossingTimes | compart/marks/rectangle.py:63-66 | four crossing times, one per edge line |
| Rectangles.BoxGeometry | compart/marks/rectangle.py:16-34 | right − left = width, top − bottom = height, the box is centred on `center`, and positive sizes order the edges |
| Rectangles.CrossingTimesMeetEdges | compart/marks/rectangle.py:62-66 | the line through the chord is on x = left, x = right, y = top and y = bottom at the four crossing times |
| Rectangles.Kept | compart/marks/rectangle.py:71-82 | the entry-probe test; a box without area (width or height ≤ 0) keeps no chord |
| Rectangles.Relocate | compart/marks/rectangle.py:83-91 | the relocated chord's endpoints both lie on the line through the raw chord |
| Rectangles.CompareExchange | compart/marks/rectangle.py:70 | positions i and j hold the smaller then the larger value, and nothing else moves |
| Rectangles.CompareExchangePermutes | compart/marks/rectangle.py:70 | a compare-exchange keeps the multiset of values |
| Rectangles.Sort4 | compart/marks/rectangle.py:70 | the four times come out in ascending order |
| Rectangles.Sort4Permutes | compart/marks/rectangle.py:70 | the sorted times are a permutation of the crossing times |
| Rectangles.Sort4Middle | compart/marks/rectangle.py:68-72 | the 2nd sorted time is the later entry of the x and y slabs and the 3rd the earlier exit, in closed form |
| Rectangles.Clip | compart/marks/rectangle.py:85-92 | the clipped batch has at most as many chords as the raw batch |
| Rectangles.KeptIndicesIncreasing | compart/marks/rectangle.py:85-91 | the kept positions are positions of the raw batch, strictly increasing, so each raw chord gives at most one output chord |
| Rectangles.KeptIndicesExact | compart/marks/rectangle.py:70-82 | a raw chord is among the kept positions exactly when the point at its 2nd sorted time + 1e-7 is strictly inside the box |
| Rectangles.ClipIsOrderedFilter | compart/marks/rectangle.py:85-91 | output chord j is the relocation of the raw chord at the j-th kept position, in raw order |
| Rectangles.RelocateWithoutFuzz | compart/marks/rectangle.py:83-91 | with fuzz 0 the kept chord is its line at exactly the 2nd and 3rd sorted times |
| Rectangles.LineClippedInBox | compart/marks/rectangle.py:62-72 | if the probe past the 2nd sorted time is strictly inside the box, the 2nd time is before the 3rd and the line is in the closed box at both |
| Rectangles.KeptChordInBox | compart/marks/rectangle.py:62-91 | a kept chord with fuzz 0 enters strictly before it exits, and both of its new endpoints lie in the closed box |
| Rectangles.ClipInBox | test/test_rectangle.py:8-21 | with fuzz 0 every endpoint of every clipped chord lies in [left, right] × [bottom, top] |
| Rectangles.RawChords | compart/marks/rectangle.py:58 | the raw chords are n chords of the parent ellipse with fuzz 0 and no rotation |
| Rectangles.ClipStep | compart/marks/rectangle.py:74-91 | one more raw chord extends the clipped prefix by its relocation exactly when it is kept |
| Rectangles.GenPoints | compart/marks/rectangle.py:36-95 | the loop over raw chords yields the clipped batch, at most n chords, rotated about `rot_point` (default: the center) only when `rot` is given |
| Rectangles.NewSegment | compart/marks/rectangle.py:115-123 | the start is kept, the center is the midpoint, length² = Δx² + Δy², and the angle is π/2 exactly when Δy = 0, else arctan of a ratio r with r·Δy = Δx |
| Rectangles.SegmentRect | compart/marks/rectangle.py:150 | the rectangle sits at the segment's center, `width` wide and as tall as the segment is long |
| Rectangles.SegmentPlot | compart/marks/rectangle.py:150-161 | `Rectangle.plot` gets that rectangle and the segment angle about the center; alpha is popped with default 0.2, and the keywords passed on are exactly the caller's without `alpha` |
| Rectangles.StripAlongSegment | compart/marks/rectangle.py:150-161 | the rotated rectangle's top-middle and bottom-middle land on the segment's two endpoints |
| Rectangles.HorizontalStripEnds | compart/marks/rectangle.py:118-119 | with Δy = 0 and angle π/2, center ± (length/2, 0) are the two endpoints |
| Rectangles.SlopedStripEnds | compart/marks/rectangle.py:120-121 | with angle arctan(Δx/Δy), center ± (length/2)(sin θ, cos θ) are the two endpoints, the upper one first |
| PlotLines.SetDefault | compart/plots/plot_line.py:37 | `alpha` is set to 0.2 only when the caller gave none; every other keyword is unchanged |
| PlotLines.Stack | compart/plots/plot_line.py:36 | point i is (x[i], y[i]), as many points as values |
| PlotLines.Consecutive | compart/plots/plot_line.py:39 | k points give k − 1 pairs, none when k ≤ 1 |
| PlotLines.ConsecutiveShape | compart/plots/plot_line.py:39 | k points give k − 1 pairs (none when k ≤ 1); pair i runs from point i to point i + 1, so each pair ends where the next starts |
| PlotLines.ConsecutiveRoundTrip | compart/plots/plot_line.py:39-40 | the first start and all the ends of the pairs give back the points |
| PlotLines.PlotLine | compart/plots/plot_line.py:36-41 | one call per consecutive pair, call i from (x[i], y[i]) to (x[i+1], y[i+1]), all with the same lw, n, fuzz, width and keywords (alpha defaulted); None when x and y differ in length |
| PlotLines.Trunc | compart/plots/plot_line.py:115 | `int(x)` truncates toward zero: within 1 of x and no farther from 0 |
| PlotLines.Linspace | compart/plots/plot_line.py:115 | num points, the first a and, from two points on, the last b |
| PlotLines.LinspaceStep | compart/plots/plot_line.py:115 | consecutive points are (b − a)/(num − 1) apart |
| PlotLines.LinspaceWithin | compart/plots/plot_line.py:115 | for a ≤ b every point lies in [a, b] |
| PlotLines.HLineGrid | compart/plots/plot_line.py:115-116 | int((xmax − xmin)/width) x values from xmin to xmax, every y the given y; None when that count is negative |
| PlotLines.VLineGrid | compart/plots/plot_line.py:77-78 | num y values from ymin to ymax, every x the given x |
| PlotLines.PlotHLine | compart/plots/plot_line.py:115-117 | None exactly when the grid count is negative; otherwise one segment per consecutive pair of grid points (count − 1 of them), all at height y, from xmin to xmax, each with the caller's lw, n, fuzz and width and the alpha-defaulted keywords |
| PlotLines.PlotVLine | compart/plots/plot_line.py:77-79 | one segment per consecutive pair of grid points (num − 1 of them), all at abscissa x, from ymin to ymax, each with the caller's lw, n, fuzz and width and the alpha-defaulted keywords |

## Left out

- Drawing: `Path`, `PathCollection` and `ax.add_collection` (compart/marks/ellipse.py:101-114), and the `ax` and `color` hand-offs in `Segment.plot` and `plot_line`. `plot_line` is modelled as the list of segment calls it makes.
- `matplotlib.colors.to_rgba`: the base colour is given as an RGBA quadruple in [0, 1].
- Random distributions: the uniform angles, Gaussian noise and `randint` offsets are parameters. Uniformity and Gaussianity are not stated.
- cos, sin, arctan and sqrt are not computed. Their values are parameters constrained by cos² + sin² = 1, cos(−θ) = cos θ, sin(−θ) = −sin θ, the range of arctan (positive cosine), and root ≥ 0 with root² = Δx² + Δy².
- Floating point: the model works over exact reals. Rounding is not modelled, and neither are the NaN and infinity that an axis-parallel chord produces at compart/marks/rectangle.py:63-66; the model requires Δx ≠ 0 and Δy ≠ 0.
- Numeric defaults other than alpha: `Segment.plot` (lw=1, n=1000, fuzz=4, width=0.02), `plot_line` (lw=0.05, n=150, fuzz=100, width=0.02), `plot_vline` and `plot_hline` (lw=0.05, n=150, fuzz=5, width=0.02) and `Ellipse.plot` (lw=2, n=30000, fuzz=3) are not modelled; callers pass every value explicitly. Only the alpha defaults (0.05, 0.2) are modelled.
- Keyword arguments are a map from names to reals; only `alpha` is looked at.
- PlotLines.PlotVLine: takes the point count directly. The source passes the non-integer (ymax − ymin)/width to `np.linspace`, and what that does depends on the numpy version.
- PlotLines.Linspace: only the real-valued grid is modelled (numpy's `retstep`, `dtype` and `endpoint=False` are not used here).
- PlotLines.PlotLine: `np.vstack` of arrays of different lengths is modelled as a None result; scalar or nested inputs are not modelled.
- Rectangles.GenPoints: the source clips all chords with array operations; the model visits the chords one by one in a loop, in the same order, with the same per-chord arithmetic (`Rectangles.Kept`, `Rectangles.Relocate`).
- Ellipses.PlotColors: the `alpha` keyword is popped before the remaining keywords go to `PathCollection`; since drawing is left out, only the colours are produced.
- `Ellipse.__init__` and `Rectangle` construction store their arguments only; there is no validation to model.
- The plotting smoke tests (test/test_rectangle.py:24-33, test/test_circle.py:19-22, test/test_plot_line.py) only draw; they state nothing to model.
