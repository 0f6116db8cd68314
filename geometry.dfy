/**
 * Board localisation geometry: putting four detected corner points into
 * top-left, top-right, bottom-right, bottom-left order (by the sum and
 * difference of coordinates, or by sorting on y then x), the shoelace
 * area, and the plausibility test applied to a candidate quadrilateral.
 */
module Geometry {
  import opened Wrappers
  import opened Numeric

  /** An image point `[x, y]`. */
  datatype Point = Point(x: real, y: real)

  /** The two ranking keys: `x + y`, smallest at the top-left corner, and `np.diff([x, y]) = y - x`, smallest at the top-right corner. */
  datatype CornerKey = SumKey | DiffKey

  function Key(k: CornerKey, p: Point): real
  {
    match k
    case SumKey => p.x + p.y
    case DiffKey => p.y - p.x
  }

  /** `np.argmin`: the first index holding the smallest key. */
  function ArgMin(pts: seq<Point>, key: CornerKey): (i: nat)
    requires |pts| > 0
    ensures i < |pts|
    ensures forall k :: 0 <= k < |pts| ==> Key(key, pts[i]) <= Key(key, pts[k])
    ensures forall k :: 0 <= k < i ==> Key(key, pts[k]) > Key(key, pts[i])
  {
    if |pts| == 1 then 0
    else
      var j := ArgMin(pts[..|pts| - 1], key);
      if Key(key, pts[|pts| - 1]) < Key(key, pts[j]) then |pts| - 1 else j
  }

  /** `np.argmax`: the first index holding the largest key. */
  function ArgMax(pts: seq<Point>, key: CornerKey): (i: nat)
    requires |pts| > 0
    ensures i < |pts|
    ensures forall k :: 0 <= k < |pts| ==> Key(key, pts[k]) <= Key(key, pts[i])
    ensures forall k :: 0 <= k < i ==> Key(key, pts[k]) < Key(key, pts[i])
  {
    if |pts| == 1 then 0
    else
      var j := ArgMax(pts[..|pts| - 1], key);
      if Key(key, pts[|pts| - 1]) > Key(key, pts[j]) then |pts| - 1 else j
  }

  /**
   * `_order_corners_tl_tr_br_bl`: the corner of least x+y, of least y-x,
   * of greatest x+y and of greatest y-x, each one of the inputs.
   */
  function OrderCorners(pts: seq<Point>): (r: seq<Point>)
    requires |pts| == 4
    ensures |r| == 4 && forall k :: 0 <= k < 4 ==> r[k] in pts
    ensures forall p :: p in pts ==> Key(SumKey, r[0]) <= Key(SumKey, p) && Key(SumKey, p) <= Key(SumKey, r[2])
    ensures forall p :: p in pts ==> Key(DiffKey, r[1]) <= Key(DiffKey, p) && Key(DiffKey, p) <= Key(DiffKey, r[3])
  {
    [pts[ArgMin(pts, SumKey)], pts[ArgMin(pts, DiffKey)], pts[ArgMax(pts, SumKey)], pts[ArgMax(pts, DiffKey)]]
  }

  /**
   * `order_points`: fills a zeroed 4x2 array slot by slot, `rect[0]` and
   * `rect[2]` from the sums, `rect[1]` and `rect[3]` from the differences.
   */
  method OrderPoints(pts: seq<Point>) returns (rect: array<Point>)
    requires |pts| == 4
    ensures fresh(rect) && rect.Length == 4
    ensures rect[..] == OrderCorners(pts)
  {
    var tl, br := ArgMin(pts, SumKey), ArgMax(pts, SumKey);
    var tr, bl := ArgMin(pts, DiffKey), ArgMax(pts, DiffKey);
    rect := new Point[4](_ => Point(0.0, 0.0));
    rect[0] := pts[tl];
    rect[2] := pts[br];
    rect[1] := pts[tr];
    rect[3] := pts[bl];
    assert rect[..] == [pts[tl], pts[tr], pts[br], pts[bl]];
  }

  /** One shoelace term, `x_i * y_(i+1) - y_i * x_(i+1)`. */
  function Cross(p: Point, q: Point): real
  {
    p.x * q.y - p.y * q.x
  }

  /** `np.roll(pts, -1)[i]`: the next vertex, the last one wrapping round to the first. */
  function Successor(pts: seq<Point>, i: int): Point
    requires 0 <= i < |pts|
  {
    if i + 1 < |pts| then pts[i + 1] else pts[0]
  }

  /** The shoelace terms. */
  function ShoelaceTerms(pts: seq<Point>): (t: seq<real>)
    ensures |t| == |pts|
  {
    seq(|pts|, i requires 0 <= i < |pts| => Cross(pts[i], Successor(pts, i)))
  }

  /** `poly_area`: half the absolute value of the shoelace sum. */
  function PolyArea(pts: seq<Point>): (a: real)
    ensures a >= 0.0
  {
    0.5 * Abs(SumR(ShoelaceTerms(pts)))
  }

  /** The polygon starting from its second vertex. */
  function Rotate(pts: seq<Point>): (r: seq<Point>)
    requires |pts| > 0
    ensures multiset(r) == multiset(pts)
  {
    assert pts == [pts[0]] + pts[1..];
    pts[1..] + [pts[0]]
  }

  /** The area does not depend on which vertex the polygon starts from. */
  lemma PolyAreaRotate(pts: seq<Point>)
    requires |pts| > 0
    ensures PolyArea(Rotate(pts)) == PolyArea(pts)
  {
    var n := |pts|;
    var r := Rotate(pts);
    var t := ShoelaceTerms(pts);
    var rt := ShoelaceTerms(r);
    forall i | 0 <= i < n ensures rt[i] == (t[1..] + [t[0]])[i] {
      if i < n - 1 {
        assert r[i] == pts[i + 1] && Successor(r, i) == Successor(pts, i + 1);
      } else {
        assert r[i] == pts[0] && Successor(r, i) == Successor(pts, 0);
      }
    }
    assert rt == t[1..] + [t[0]];
    SumRotate(t);
  }

  /** The area of an axis-aligned w-by-h rectangle listed corner by corner is w*h. */
  lemma RectangleArea(x: real, y: real, w: real, h: real)
    requires w >= 0.0 && h >= 0.0
    ensures PolyArea([Point(x, y), Point(x + w, y), Point(x + w, y + h), Point(x, y + h)]) == w * h
  {
    var pts := [Point(x, y), Point(x + w, y), Point(x + w, y + h), Point(x, y + h)];
    var t := ShoelaceTerms(pts);
    assert t == [Cross(pts[0], pts[1]), Cross(pts[1], pts[2]), Cross(pts[2], pts[3]), Cross(pts[3], pts[0])];
    assert t[..3] == [t[0], t[1], t[2]] && t[..2] == [t[0], t[1]] && t[..1] == [t[0]];
    assert t[..3][..2] == t[..2] && t[..2][..1] == t[..1] && t[..1][..0] == [];
    assert SumR(t[..1]) == t[0];
    assert SumR(t[..2]) == t[0] + t[1];
    assert SumR(t[..3]) == t[0] + t[1] + t[2];
    assert SumR(t) == t[0] + t[1] + t[2] + t[3];
    assert SumR(t) == 2.0 * w * h;
  }

  /** How a zero side is recognised: `w == 0`, or `w <= tol` for a small tolerance. */
  datatype ZeroRule = ExactZero | AtMost(tol: Tolerance)

  type Tolerance = t: real | t >= 0.0 witness 0.0

  predicate Degenerate(v: real, z: ZeroRule)
  {
    match z
    case ExactZero => v == 0.0
    case AtMost(tol) => v <= tol
  }

  /** The defaults of one copy of `is_valid_quad`. */
  datatype QuadRule = QuadRule(minArea: real, arMin: real, arMax: real, zero: ZeroRule)

  /** The verdicts of `is_valid_quad`, in the order the tests are made. */
  datatype QuadVerdict = Accepted | NoCorners | BadShape | TooSmall | ZeroSide | BadAspect

  /** Mean of the top and bottom edge lengths; `dist` is the Euclidean norm of the difference. */
  function QuadWidth(q: seq<Point>, dist: (Point, Point) -> real): real
    requires |q| == 4
  {
    (dist(q[1], q[0]) + dist(q[2], q[3])) / 2.0
  }

  /** Mean of the left and right edge lengths. */
  function QuadHeight(q: seq<Point>, dist: (Point, Point) -> real): real
    requires |q| == 4
  {
    (dist(q[3], q[0]) + dist(q[2], q[1])) / 2.0
  }

  /**
   * `is_valid_quad`: rejects missing corners, a count other than four, an
   * area below the minimum, a zero width or height, and a width/height
   * ratio outside [arMin, arMax]; each verdict is the first test that fails.
   */
  function QuadCheck(pts: Option<seq<Point>>, rule: QuadRule, dist: (Point, Point) -> real): (v: QuadVerdict)
    ensures v == NoCorners <==> pts.None?
    ensures v == BadShape <==> pts.Some? && |pts.value| != 4
    ensures v == TooSmall <==> pts.Some? && |pts.value| == 4 && PolyArea(pts.value) < rule.minArea
    ensures v == Accepted <==> (pts.Some? && |pts.value| == 4 && PolyArea(pts.value) >= rule.minArea
      && !Degenerate(QuadWidth(pts.value, dist), rule.zero) && !Degenerate(QuadHeight(pts.value, dist), rule.zero)
      && rule.arMin <= QuadWidth(pts.value, dist) / QuadHeight(pts.value, dist) <= rule.arMax)
  {
    if pts.None? then NoCorners
    else if |pts.value| != 4 then BadShape
    else if PolyArea(pts.value) < rule.minArea then TooSmall
    else
      var w := QuadWidth(pts.value, dist);
      var h := QuadHeight(pts.value, dist);
      if Degenerate(w, rule.zero) || Degenerate(h, rule.zero) then ZeroSide
      else if !(rule.arMin <= w / h <= rule.arMax) then BadAspect
      else Accepted
  }

  /** `is_valid_quad(...)[0]`, or the plain boolean of the copy that returns one. */
  predicate IsValidQuad(pts: Option<seq<Point>>, rule: QuadRule, dist: (Point, Point) -> real)
  {
    QuadCheck(pts, rule, dist) == Accepted
  }

  /** A larger minimum area or a narrower aspect window only rejects more quads. */
  lemma QuadCheckMonotone(pts: Option<seq<Point>>, loose: QuadRule, strict: QuadRule, dist: (Point, Point) -> real)
    requires loose.zero == strict.zero
    requires loose.minArea <= strict.minArea && loose.arMin <= strict.arMin && strict.arMax <= loose.arMax
    ensures IsValidQuad(pts, strict, dist) ==> IsValidQuad(pts, loose, dist)
  {
  }

  /** An accepted quad covers at least the minimum area and has positive width and height when side lengths are nonnegative. */
  lemma AcceptedQuadIsProper(pts: Option<seq<Point>>, rule: QuadRule, dist: (Point, Point) -> real)
    requires IsValidQuad(pts, rule, dist) && rule.zero == ExactZero
    requires |pts.value| == 4 && forall i, j :: 0 <= i < 4 && 0 <= j < 4 ==> dist(pts.value[i], pts.value[j]) >= 0.0
    ensures PolyArea(pts.value) >= rule.minArea
    ensures QuadWidth(pts.value, dist) > 0.0 && QuadHeight(pts.value, dist) > 0.0
  {
  }

  /** `is_valid_quad` defaults in warp_cam_picam2_stable_v2.py. */
  const StableV2Quad := QuadRule(500.0, 0.6, 1.7, ExactZero)
  /** The arguments its callers pass: `MIN_QUAD_AREA = 5000`, `AR_MIN, AR_MAX = 0.6, 2.0`. */
  const StableV2CallerQuad := QuadRule(5000.0, 0.6, 2.0, ExactZero)
  /** `is_valid_quad` defaults in the CV and mjpg warp_cam_picam2 copies. */
  const PicamQuad := QuadRule(8000.0, 0.6, 1.7, ExactZero)
  /** `is_valid_quad` defaults in brain/cv/picam_stable.py: `MIN_QUAD_AREA`, `AR_MIN`, `AR_MAX`, sides of at most 1e-6 count as zero. */
  const PicamStableQuad := QuadRule(5000.0, 0.8, 1.2, AtMost(0.000001))

  /** The `(y, x)` sort key order. */
  predicate RowMajorLe(p: Point, q: Point)
  {
    p.y < q.y || (p.y == q.y && p.x <= q.x)
  }

  predicate SortedRowMajor(s: seq<Point>)
  {
    forall i, j :: 0 <= i < j < |s| ==> RowMajorLe(s[i], s[j])
  }

  function InsertRowMajor(p: Point, s: seq<Point>): (r: seq<Point>)
    requires SortedRowMajor(s)
    ensures SortedRowMajor(r) && multiset(r) == multiset(s) + multiset{p}
  {
    if |s| == 0 then [p]
    else if RowMajorLe(p, s[0]) then [p] + s
    else
      var rest := InsertRowMajor(p, s[1..]);
      assert s == [s[0]] + s[1..];
      assert RowMajorLe(s[0], p);
      forall k | 0 <= k < |rest| ensures RowMajorLe(s[0], rest[k]) {
        assert rest[k] in multiset(rest);
        if rest[k] != p {
          assert rest[k] in multiset(s[1..]);
          var m :| 0 <= m < |s[1..]| && s[1..][m] == rest[k];
          assert s[m + 1] == rest[k];
        }
      }
      [s[0]] + rest
  }

  /** `sorted(pts, key=lambda p: (p[1], p[0]))` */
  function SortRowMajor(s: seq<Point>): (r: seq<Point>)
    ensures SortedRowMajor(r) && multiset(r) == multiset(s)
  {
    if |s| == 0 then []
    else
      assert s == [s[0]] + s[1..];
      InsertRowMajor(s[0], SortRowMajor(s[1..]))
  }

  /** `sorted([a, b], key=lambda p: p[0])`: stable, so equal x keeps the given order. */
  function SortPairByX(a: Point, b: Point): (r: seq<Point>)
    ensures r == [a, b] || r == [b, a]
    ensures r[0].x <= r[1].x && (a.x == b.x ==> r == [a, b])
  {
    if b.x < a.x then [b, a] else [a, b]
  }

  predicate SortedByX(s: seq<Point>)
  {
    forall i, j :: 0 <= i < j < |s| ==> s[i].x <= s[j].x
  }

  /** One step of Python's stable sort on `p[0]`: `p` goes before the first point not left of it. */
  function InsertByX(p: Point, s: seq<Point>): (r: seq<Point>)
    requires SortedByX(s)
    ensures SortedByX(r) && multiset(r) == multiset(s) + multiset{p}
  {
    if |s| == 0 then [p]
    else if p.x <= s[0].x then [p] + s
    else
      var rest := InsertByX(p, s[1..]);
      HeadSplit(s);
      SecondLeft(s[1..], s[0]);
      MultisetBound(rest, s[0]);
      ConsByX(s[0], rest);
      [s[0]] + rest
  }

  /** `sorted(pts, key=lambda p: p[0])` */
  function SortByX(s: seq<Point>): (r: seq<Point>)
    ensures SortedByX(r) && multiset(r) == multiset(s)
  {
    if |s| == 0 then []
    else
      assert s == [s[0]] + s[1..];
      InsertByX(s[0], SortByX(s[1..]))
  }

  /** On two points the stable sort by x is the pair comparison. */
  lemma SortByXPair(a: Point, b: Point)
    ensures SortByX([a, b]) == SortPairByX(a, b)
  {
    assert [a, b][1..] == [b] && [b][1..] == [];
    assert SortByX([b]) == [b];
  }

  /**
   * `sort_corners_by_position`: the two points first in (y, x) order form
   * the top row, left to right; of the others, sorted by x, the first two
   * form the bottom row, emitted right then left.  With more than four
   * points the rest are dropped; with fewer the indexing fails, which the
   * caller's precondition stands for.
   */
  function SortCornersByPosition(pts: seq<Point>): (r: seq<Point>)
    requires |pts| >= 4
    ensures |r| == 4
  {
    var s := SortRowMajor(pts);
    assert |multiset(s)| == |s| && |multiset(pts)| == |pts|;
    var top := SortPairByX(s[0], s[1]);
    var bot := SortByX(s[2..]);
    assert |multiset(bot)| == |bot| && |multiset(s[2..])| == |s[2..]|;
    top + [bot[1], bot[0]]
  }

  /** On four points the bottom row is the other two, ordered by x. */
  lemma SortCornersOfFour(pts: seq<Point>)
    requires |pts| == 4
    ensures var s := SortRowMajor(pts);
      |s| == 4 && SortCornersByPosition(pts) == SortPairByX(s[0], s[1]) + [SortPairByX(s[2], s[3])[1], SortPairByX(s[2], s[3])[0]]
  {
    var s := SortRowMajor(pts);
    SortedLength(pts);
    assert s[2..] == [s[2], s[3]];
    SortByXPair(s[2], s[3]);
  }

  /** A pair listed either way round holds the same two points. */
  lemma SwapPermutes(a: Point, b: Point)
    ensures multiset([b, a]) == multiset([a, b])
  {
    assert multiset([b, a]) == multiset{b} + multiset{a};
    assert multiset([a, b]) == multiset{a} + multiset{b};
  }

  /** Ordering a pair by x keeps its two points. */
  lemma PairPermutes(a: Point, b: Point)
    ensures multiset(SortPairByX(a, b)) == multiset([a, b])
  {
    SwapPermutes(a, b);
  }

  /** Ordering a pair by x and listing it backwards keeps its two points. */
  lemma FlippedPermutes(a: Point, b: Point)
    ensures var r := SortPairByX(a, b); multiset([r[1], r[0]]) == multiset([a, b])
  {
    var r := SortPairByX(a, b);
    SwapPermutes(a, b);
    if r == [a, b] {
      assert [r[1], r[0]] == [b, a];
    } else {
      assert [r[1], r[0]] == [a, b];
    }
  }

  /** Rearranging the first two points and the rest separately rearranges the whole. */
  lemma HalvesPermute(s: seq<Point>, t: seq<Point>, u: seq<Point>)
    requires |s| >= 2 && multiset(t) == multiset(s[..2]) && multiset(u) == multiset(s[2..])
    ensures multiset(t + u) == multiset(s)
  {
    assert s == s[..2] + s[2..];
  }

  /** Sorting each row by x only permutes the four points. */
  lemma RowsPermute(s: seq<Point>)
    requires |s| == 4
    ensures multiset(SortPairByX(s[0], s[1]) + [SortPairByX(s[2], s[3])[1], SortPairByX(s[2], s[3])[0]]) == multiset(s)
  {
    var bot := SortPairByX(s[2], s[3]);
    PairPermutes(s[0], s[1]);
    FlippedPermutes(s[2], s[3]);
    FourHalves(s);
    HalvesPermute(s, SortPairByX(s[0], s[1]), [bot[1], bot[0]]);
  }

  lemma FourHalves(s: seq<Point>)
    requires |s| == 4
    ensures s[..2] == [s[0], s[1]] && s[2..] == [s[2], s[3]]
  {
  }

  /** Points drawn from the first two of a (y, x)-sorted four precede those drawn from the last two. */
  lemma RowsSeparate(s: seq<Point>)
    requires |s| == 4 && SortedRowMajor(s)
    ensures var top, bot := SortPairByX(s[0], s[1]), SortPairByX(s[2], s[3]);
      forall i, j :: 0 <= i < 2 && 0 <= j < 2 ==> RowMajorLe(top[i], bot[j])
  {
  }

  /**
   * The corners come out as a permutation of the inputs; both top corners
   * precede both bottom corners in (y, x) order, and each row runs left to
   * right from its first-listed corner (bottom row listed right to left).
   */
  lemma SortCornersSpec(pts: seq<Point>)
    requires |pts| == 4
    ensures var r := SortCornersByPosition(pts);
      multiset(r) == multiset(pts)
      && (forall i, j :: 0 <= i < 2 <= j < 4 ==> RowMajorLe(r[i], r[j]))
      && r[0].x <= r[1].x && r[3].x <= r[2].x
  {
    var s := SortRowMajor(pts);
    SortedLength(pts);
    SortCornersOfFour(pts);
    RowsPermute(s);
    RowsSeparate(s);
    CornersFromRows(SortPairByX(s[0], s[1]), SortPairByX(s[2], s[3]));
  }

  /**
   * On any number of points from four up, the four corners are drawn from
   * the points: the top row is the first two in (y, x) order, left to
   * right; the bottom row comes from the others and is listed right to
   * left, its left corner no further right than any other point of the
   * others, its right corner no further right than any of them but the
   * two chosen.
   */
  lemma SortCornersSelects(pts: seq<Point>)
    requires |pts| >= 4
    ensures var r, s := SortCornersByPosition(pts), SortRowMajor(pts);
      |s| == |pts|
      && multiset(r) <= multiset(pts)
      && multiset(r[..2]) == multiset(s[..2])
      && multiset{r[2], r[3]} <= multiset(s[2..])
      && (forall i, j :: 0 <= i < 2 <= j < 4 ==> RowMajorLe(r[i], r[j]))
      && r[0].x <= r[1].x && r[3].x <= r[2].x
      && (forall p | p in multiset(s[2..]) :: r[3].x <= p.x)
      && (forall p | p in multiset(s[2..]) - multiset{r[2], r[3]} :: r[2].x <= p.x)
  {
    var s := SortRowMajor(pts);
    SortedLength(pts);
    SelectedParts(s, SortPairByX(s[0], s[1]), SortByX(s[2..]));
  }

  /** The corners assembled from the sorted top pair and the x-sorted rest. */
  lemma SelectedParts(s: seq<Point>, top: seq<Point>, bot: seq<Point>)
    requires |s| >= 4 && SortedRowMajor(s)
    requires top == SortPairByX(s[0], s[1])
    requires SortedByX(bot) && multiset(bot) == multiset(s[2..])
    ensures |bot| >= 2
    ensures var r := top + [bot[1], bot[0]];
      multiset(r) <= multiset(s)
      && multiset(r[..2]) == multiset(s[..2])
      && multiset{r[2], r[3]} <= multiset(s[2..])
      && (forall i, j :: 0 <= i < 2 <= j < 4 ==> RowMajorLe(r[i], r[j]))
      && r[0].x <= r[1].x && r[3].x <= r[2].x
      && (forall p | p in multiset(s[2..]) :: r[3].x <= p.x)
      && (forall p | p in multiset(s[2..]) - multiset{r[2], r[3]} :: r[2].x <= p.x)
  {
    assert |multiset(bot)| == |bot| && |multiset(s[2..])| == |s[2..]|;
    var r := top + [bot[1], bot[0]];
    SelectedMultiset(s, top, bot);
    RowsBefore(s, bot);
    CornersFromRows(top, [bot[0], bot[1]]);
    BottomPicks(bot);
    assert r[2] == bot[1] && r[3] == bot[0];
  }

  lemma SelectedMultiset(s: seq<Point>, top: seq<Point>, bot: seq<Point>)
    requires |s| >= 4 && top == SortPairByX(s[0], s[1])
    requires |bot| >= 2 && multiset(bot) == multiset(s[2..])
    ensures var r := top + [bot[1], bot[0]];
      multiset(r) <= multiset(s)
      && multiset(r[..2]) == multiset(s[..2])
      && multiset{r[2], r[3]} <= multiset(s[2..])
  {
    var r := top + [bot[1], bot[0]];
    assert r[..2] == top && r[2] == bot[1] && r[3] == bot[0];
    PairPermutes(s[0], s[1]);
    assert s[..2] == [s[0], s[1]];
    PairSplit(bot);
    assert multiset(r) == multiset(top) + multiset{bot[1], bot[0]} by {
      assert r == top + [bot[1], bot[0]];
    }
    assert multiset(s) == multiset(s[..2]) + multiset(s[2..]) by {
      assert s == s[..2] + s[2..];
    }
  }

  /** The first two of an x-sorted list are its two left-most points. */
  lemma BottomPicks(bot: seq<Point>)
    requires |bot| >= 2 && SortedByX(bot)
    ensures multiset{bot[1], bot[0]} <= multiset(bot)
    ensures forall p | p in multiset(bot) :: bot[0].x <= p.x
    ensures forall p | p in multiset(bot) - multiset{bot[1], bot[0]} :: bot[1].x <= p.x
  {
    PairSplit(bot);
    LeftMost(bot);
    SecondLeft(bot[2..], bot[1]);
  }

  lemma PairSplit(bot: seq<Point>)
    requires |bot| >= 2
    ensures multiset(bot) == multiset{bot[1], bot[0]} + multiset(bot[2..])
  {
    assert bot == [bot[0], bot[1]] + bot[2..];
  }

  lemma LeftMost(bot: seq<Point>)
    requires |bot| >= 1 && SortedByX(bot)
    ensures forall p | p in multiset(bot) :: bot[0].x <= p.x
  {
    forall p | p in multiset(bot) ensures bot[0].x <= p.x {
      var k :| 0 <= k < |bot| && bot[k] == p;
    }
  }

  /** A point no further right than any of an x-sorted list can go in front of it. */
  lemma ConsByX(h: Point, t: seq<Point>)
    requires SortedByX(t) && forall k :: 0 <= k < |t| ==> h.x <= t[k].x
    ensures SortedByX([h] + t)
  {
  }

  /** A list holds its head and its tail. */
  lemma HeadSplit(s: seq<Point>)
    requires |s| > 0
    ensures multiset(s) == multiset{s[0]} + multiset(s[1..])
  {
    assert s == [s[0]] + s[1..];
  }

  lemma MultisetBound(t: seq<Point>, q: Point)
    requires forall p | p in multiset(t) :: q.x <= p.x
    ensures forall k :: 0 <= k < |t| ==> q.x <= t[k].x
  {
    forall k | 0 <= k < |t| ensures q.x <= t[k].x {
      assert t[k] in multiset(t);
    }
  }

  lemma SecondLeft(rest: seq<Point>, q: Point)
    requires forall k :: 0 <= k < |rest| ==> q.x <= rest[k].x
    ensures forall p | p in multiset(rest) :: q.x <= p.x
  {
    forall p | p in multiset(rest) ensures q.x <= p.x {
      var k :| 0 <= k < |rest| && rest[k] == p;
    }
  }

  /** Points of the top two of a (y, x)-sorted list precede every point of the rest. */
  lemma RowsBefore(s: seq<Point>, bot: seq<Point>)
    requires |s| >= 4 && SortedRowMajor(s) && |bot| >= 2 && multiset(bot) == multiset(s[2..])
    ensures var top := SortPairByX(s[0], s[1]);
      forall i, j :: 0 <= i < 2 && 0 <= j < 2 ==> RowMajorLe(top[i], bot[j])
  {
    forall j | 0 <= j < 2 ensures RowMajorLe(s[0], bot[j]) && RowMajorLe(s[1], bot[j]) {
      assert bot[j] in multiset(s[2..]);
      var k :| 0 <= k < |s[2..]| && s[2..][k] == bot[j];
      assert s[k + 2] == bot[j];
    }
  }

  /** A top row wholly before a bottom row, each left to right, gives corners in that layout. */
  lemma CornersFromRows(top: seq<Point>, bot: seq<Point>)
    requires |top| == 2 && |bot| == 2 && top[0].x <= top[1].x && bot[0].x <= bot[1].x
    requires forall i, j :: 0 <= i < 2 && 0 <= j < 2 ==> RowMajorLe(top[i], bot[j])
    ensures var r := top + [bot[1], bot[0]];
      (forall i, j :: 0 <= i < 2 <= j < 4 ==> RowMajorLe(r[i], r[j]))
      && r[0].x <= r[1].x && r[3].x <= r[2].x
  {
    var r := top + [bot[1], bot[0]];
    assert r[0] == top[0] && r[1] == top[1] && r[2] == bot[1] && r[3] == bot[0];
  }

  /** Sorting keeps the number of points. */
  lemma SortedLength(pts: seq<Point>)
    ensures |SortRowMajor(pts)| == |pts|
  {
    var s := SortRowMajor(pts);
    assert |multiset(s)| == |s| && |multiset(pts)| == |pts|;
  }

  /** Re-sorting already sorted corners changes nothing. */
  lemma SortCornersIdempotent(pts: seq<Point>)
    requires |pts| == 4
    ensures SortCornersByPosition(SortCornersByPosition(pts)) == SortCornersByPosition(pts)
  {
    var r := SortCornersByPosition(pts);
    SortCornersSpec(pts);
    SortedRowMajorUnique(SortRowMajor(r), SortRowMajor(pts));
  }

  lemma HeadIsLeast(a: seq<Point>, p: Point)
    requires SortedRowMajor(a) && p in a
    ensures RowMajorLe(a[0], p)
  {
    var i :| 0 <= i < |a| && a[i] == p;
    if i > 0 {
      assert RowMajorLe(a[0], a[i]);
    }
  }

  lemma TailMultiset(a: seq<Point>)
    requires |a| > 0
    ensures multiset(a[1..]) == multiset(a) - multiset{a[0]}
  {
    assert a == [a[0]] + a[1..];
    assert multiset(a) == multiset([a[0]]) + multiset(a[1..]);
  }

  /** Two sorted sequences with the same elements are the same sequence. */
  lemma {:induction false} SortedRowMajorUnique(a: seq<Point>, b: seq<Point>)
    requires SortedRowMajor(a) && SortedRowMajor(b) && multiset(a) == multiset(b)
    ensures a == b
  {
    assert |a| == |multiset(a)| == |multiset(b)| == |b|;
    if |a| > 0 {
      assert a[0] in multiset(b) && b[0] in multiset(a);
      HeadIsLeast(a, b[0]);
      HeadIsLeast(b, a[0]);
      assert a[0] == b[0];
      TailMultiset(a);
      TailMultiset(b);
      SortedRowMajorUnique(a[1..], b[1..]);
      assert a == [a[0]] + a[1..] && b == [b[0]] + b[1..];
    }
  }
}
