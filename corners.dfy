// Board localisation from blobs found in a camera frame: the marker-centre
// pipelines (`find_green_corners` and its copies), centroid de-duplication,
// the "first and last light square" estimate, the largest convex
// quadrilateral of `find_chessboard_corners`, and the guards in front of
// `warp_chessboard`. Contours, moments, masks and the perspective warp are
// cv2's; they enter as the blob list, the mask-count function and the warp
// function.

module Corners {
  import opened Wrappers
  import opened Geometry
  import opened Ranking

  /** One external contour as cv2 measures it: `contourArea`, the `m00` moment, and its centroid `(int(m10/m00), int(m01/m00))`. */
  datatype Blob = Blob(area: real, m00: real, centre: Point)

  function Areas(blobs: seq<Blob>): (r: seq<real>)
    ensures |r| == |blobs| && forall k :: 0 <= k < |blobs| ==> r[k] == blobs[k].area
  {
    seq(|blobs|, k requires 0 <= k < |blobs| => blobs[k].area)
  }

  /** `sorted(cnts, key=cv2.contourArea, reverse=True)[:n]` (Python's sort is stable, also in reverse). */
  function Largest(blobs: seq<Blob>, n: Option<nat>): (r: seq<Blob>)
    ensures |r| <= |blobs|
  {
    var o := ArgsortDesc(Areas(blobs));
    var m := if n.Some? && n.value < |blobs| then n.value else |blobs|;
    seq(m, k requires 0 <= k < m => blobs[o[k]])
  }

  /** The kept contours are contours of the input, largest first, and no dropped contour is larger than a kept one. */
  lemma LargestSpec(blobs: seq<Blob>, n: Option<nat>)
    ensures var r := Largest(blobs, n);
      |r| == (if n.Some? && n.value < |blobs| then n.value else |blobs|)
      && (forall k :: 0 <= k < |r| ==> r[k] in blobs)
      && (forall j, k :: 0 <= j < k < |r| ==> r[j].area >= r[k].area)
      && (forall b :: b in blobs && b !in r ==> forall k :: 0 <= k < |r| ==> b.area <= r[k].area)
  {
    var x := Areas(blobs);
    var o := ArgsortDesc(x);
    var r := Largest(blobs, n);
    ArgsortRanked(x);
    forall j, k | 0 <= j < k < |r| ensures r[j].area >= r[k].area {
      assert Before(x, o[j], o[k]);
    }
    forall b | b in blobs && b !in r ensures forall k :: 0 <= k < |r| ==> b.area <= r[k].area {
      var i :| 0 <= i < |blobs| && blobs[i] == b;
      assert i in o;
      var p :| 0 <= p < |o| && o[p] == i;
      assert forall q :: 0 <= q < |r| ==> r[q] == blobs[o[q]] && r[q] in r;
      assert p >= |r|;
      forall k | 0 <= k < |r| ensures b.area <= r[k].area {
        assert Before(x, o[k], o[p]);
      }
    }
  }

  /** A contour whose centre is used: area at least (or, for the strict finders, above) the minimum, and `m00 != 0`. */
  predicate Usable(b: Blob, minArea: real, strict: bool)
  {
    Qualifies(b.area, minArea, strict) && b.m00 != 0.0
  }

  /** The centres of the usable contours, in contour order. */
  function Centres(blobs: seq<Blob>, minArea: real, strict: bool): (r: seq<Point>)
    ensures |r| <= |blobs|
  {
    if blobs == [] then []
    else
      var rest := Centres(blobs[1..], minArea, strict);
      if Usable(blobs[0], minArea, strict) then [blobs[0].centre] + rest else rest
  }

  /** A point is a centre exactly when some usable contour has it as its centroid. */
  lemma {:induction false} CentresSpec(blobs: seq<Blob>, minArea: real, strict: bool)
    ensures forall p :: p in Centres(blobs, minArea, strict) <==>
      (exists b :: b in blobs && Usable(b, minArea, strict) && b.centre == p)
  {
    if blobs != [] {
      CentresSpec(blobs[1..], minArea, strict);
      assert blobs == [blobs[0]] + blobs[1..];
      forall p | (exists b :: b in blobs && Usable(b, minArea, strict) && b.centre == p)
        ensures p in Centres(blobs, minArea, strict)
      {
        var b :| b in blobs && Usable(b, minArea, strict) && b.centre == p;
        if b != blobs[0] {
          assert b in blobs[1..];
        }
      }
    }
  }

  // --------------------------------------------------------- de-duplication

  /** `all(np.hypot(...) > radius for d in dedup)` */
  predicate FarFromAll(c: Point, kept: seq<Point>, radius: real, dist: (Point, Point) -> real)
  {
    forall k :: 0 <= k < |kept| ==> dist(c, kept[k]) > radius
  }

  /** The de-duplication loop, continued from an already kept prefix. */
  function DedupFrom(kept: seq<Point>, rest: seq<Point>, radius: real, dist: (Point, Point) -> real): seq<Point>
    decreases |rest|
  {
    if rest == [] then kept
    else DedupFrom(if FarFromAll(rest[0], kept, radius, dist) then kept + [rest[0]] else kept, rest[1..], radius, dist)
  }

  function Dedup(cs: seq<Point>, radius: real, dist: (Point, Point) -> real): seq<Point>
  {
    DedupFrom([], cs, radius, dist)
  }

  /** Pairwise separation: each kept centre is farther than the radius from every centre kept before it. */
  predicate Separated(kept: seq<Point>, radius: real, dist: (Point, Point) -> real)
  {
    forall i, j :: 0 <= i < j < |kept| ==> dist(kept[j], kept[i]) > radius
  }

  /** Every input centre is kept or lies within the radius of a kept one. */
  predicate Covered(cs: seq<Point>, kept: seq<Point>, radius: real, dist: (Point, Point) -> real)
  {
    forall c :: c in cs ==> c in kept || exists k :: 0 <= k < |kept| && dist(c, kept[k]) <= radius
  }

  lemma {:induction false} DedupFromSpec(kept: seq<Point>, rest: seq<Point>, radius: real, dist: (Point, Point) -> real)
    requires Separated(kept, radius, dist)
    ensures var r := DedupFrom(kept, rest, radius, dist);
      Separated(r, radius, dist)
      && |kept| <= |r| && r[..|kept|] == kept
      && (forall p :: p in r ==> p in kept || p in rest)
      && Covered(rest, r, radius, dist)
    decreases |rest|
  {
    if rest != [] {
      var c := rest[0];
      var next := if FarFromAll(c, kept, radius, dist) then kept + [c] else kept;
      DedupFromSpec(next, rest[1..], radius, dist);
      var r := DedupFrom(kept, rest, radius, dist);
      assert r == DedupFrom(next, rest[1..], radius, dist);
      assert r[..|next|] == next;
      assert r[..|kept|] == next[..|kept|];
      forall p | p in r ensures p in kept || p in rest {
        if p !in next {
          assert p in rest[1..];
        }
      }
      forall p | p in rest ensures p in r || exists k :: 0 <= k < |r| && dist(p, r[k]) <= radius {
        if p == c {
          if !FarFromAll(c, kept, radius, dist) {
            var k :| 0 <= k < |kept| && dist(c, kept[k]) <= radius;
            assert r[k] == kept[k];
          } else {
            assert r[|kept|] == next[|kept|];
          }
        } else {
          assert p in rest[1..];
        }
      }
    }
  }

  /** The de-duplicated centres are pairwise farther apart than the radius, come from the input in input order (the first centre is always kept), and every dropped centre is within the radius of a kept one. */
  lemma DedupSpec(cs: seq<Point>, radius: real, dist: (Point, Point) -> real)
    ensures var r := Dedup(cs, radius, dist);
      Separated(r, radius, dist)
      && (forall p :: p in r ==> p in cs)
      && (|cs| > 0 ==> |r| > 0 && r[0] == cs[0])
      && Covered(cs, r, radius, dist)
  {
    if |cs| == 0 {
      DedupFromSpec([], cs, radius, dist);
    } else {
      var r := Dedup(cs, radius, dist);
      assert FarFromAll(cs[0], [], radius, dist);
      assert [] + [cs[0]] == [cs[0]];
      assert r == DedupFrom([cs[0]], cs[1..], radius, dist);
      DedupFromSpec([cs[0]], cs[1..], radius, dist);
      assert r[0] == cs[0];
      forall p | p in r ensures p in cs {
        if p != cs[0] {
          assert p in cs[1..];
        }
      }
      forall c | c in cs ensures c in r || exists k :: 0 <= k < |r| && dist(c, r[k]) <= radius {
        if c != cs[0] {
          assert c in cs[1..];
        }
      }
    }
  }

  /** `all(np.linalg.norm(c - d) > radius for d in dedup)`, one kept centre at a time. */
  method AllFar(c: Point, kept: seq<Point>, radius: real, dist: (Point, Point) -> real) returns (far: bool)
    ensures far == FarFromAll(c, kept, radius, dist)
  {
    far := true;
    var j := 0;
    while j < |kept|
      invariant 0 <= j <= |kept|
      invariant far <==> forall k :: 0 <= k < j ==> dist(c, kept[k]) > radius
    {
      far := far && dist(c, kept[j]) > radius;
      j := j + 1;
    }
  }

  /** The loop `for c in centers: if all(...): dedup.append(c)`. */
  method DedupCentres(cs: seq<Point>, radius: real, dist: (Point, Point) -> real) returns (kept: seq<Point>)
    ensures kept == Dedup(cs, radius, dist)
  {
    kept := [];
    var i := 0;
    while i < |cs|
      invariant 0 <= i <= |cs|
      invariant DedupFrom(kept, cs[i..], radius, dist) == Dedup(cs, radius, dist)
    {
      assert cs[i..][1..] == cs[i + 1..];
      var far := AllFar(cs[i], kept, radius, dist);
      if far {
        kept := kept + [cs[i]];
      }
      i := i + 1;
    }
  }

  // ----------------------------------------------------- marker-centre finders

  /** What a finder does with more than four centres. */
  datatype ManyRule =
    | RejectMany          // give up
    | TopFourByMask       // keep the four with the largest mask count in a 20x20 window
    | BoundingBox         // `cv2.boxPoints(cv2.minAreaRect(pts))`

  /** How four centres are put in TL, TR, BR, BL order. */
  datatype Ordering = ByPosition | BySumDiff

  datatype Finder = Finder(keep: Option<nat>, minArea: real, strict: bool, dedup: Option<real>, many: ManyRule, order: Ordering)

  /** warp_cam_picam2_stable_v2.py `find_green_corners` (default `min_area=500`). */
  const StableV2Finder := Finder(Some(10), 500.0, false, Some(15.0), TopFourByMask, ByPosition)
  /** CV/warp_cam_picam2_v2.py, as called from its `main` with `MIN_CONTOUR_AREA = 100`. */
  const PicamV2Finder := Finder(Some(10), 100.0, false, Some(8.0), TopFourByMask, ByPosition)
  /** CV/warp_cam_picam2.py, as called from its `main` with `MIN_CONTOUR_AREA = 90`. */
  const PicamFinder := Finder(Some(8), 90.0, false, Some(10.0), RejectMany, ByPosition)
  /** mjpg/warp_cam_picam2.py (fixed minimum area 80). */
  const MjpgPicamFinder := Finder(Some(8), 80.0, false, Some(10.0), RejectMany, ByPosition)
  /** brain/cv/picam_stable.py (contours under 200 skipped, more than four boxed). */
  const PicamStableFinder := Finder(None, 200.0, false, None, BoundingBox, ByPosition)
  /** mjpg/warp_chessboard.py and CV/warping_utils.py: the four largest contours, area above 50. */
  const WarpUtilsFinder := Finder(Some(4), 50.0, true, None, RejectMany, ByPosition)
  /** ChessRobot/webcam_warp_streaming_server.py's green and orange finders: every contour of area above 50, ordered by sums and differences. */
  const WebcamFinder := Finder(None, 50.0, true, None, RejectMany, BySumDiff)

  function Arrange(order: Ordering, pts: seq<Point>): (r: seq<Point>)
    requires |pts| == 4
    ensures |r| == 4
  {
    match order
    case ByPosition => SortCornersByPosition(pts)
    case BySumDiff => OrderCorners(pts)
  }

  /** `np.argsort(areas)[::-1][:4]`, with ties broken by index. */
  function TopFour(cs: seq<Point>, maskCount: Point -> real): (r: seq<Point>)
    requires |cs| > 4
    ensures |r| == 4
  {
    var counts := seq(|cs|, k requires 0 <= k < |cs| => maskCount(cs[k]));
    var o := ArgsortDesc(counts);
    [cs[o[0]], cs[o[1]], cs[o[2]], cs[o[3]]]
  }

  /** `r` is the entries `i0`..`i3` of `cs`, four different ones, and no other entry has a larger mask count than the last. */
  predicate KeptAt(cs: seq<Point>, maskCount: Point -> real, r: seq<Point>, i0: int, i1: int, i2: int, i3: int)
  {
    0 <= i0 < |cs| && 0 <= i1 < |cs| && 0 <= i2 < |cs| && 0 <= i3 < |cs|
    && i0 != i1 && i0 != i2 && i0 != i3 && i1 != i2 && i1 != i3 && i2 != i3
    && r == [cs[i0], cs[i1], cs[i2], cs[i3]]
    && forall k :: 0 <= k < |cs| && k != i0 && k != i1 && k != i2 && k != i3 ==>
         maskCount(cs[k]) <= maskCount(cs[i3])
  }

  /** The four kept centres are four different entries of the input, and no other entry has a larger mask count. */
  lemma TopFourSpec(cs: seq<Point>, maskCount: Point -> real)
    requires |cs| > 4
    ensures exists i0, i1, i2, i3 :: KeptAt(cs, maskCount, TopFour(cs, maskCount), i0, i1, i2, i3)
  {
    var i0, i1, i2, i3 := TopFourIndices(cs, maskCount);
    assert KeptAt(cs, maskCount, TopFour(cs, maskCount), i0, i1, i2, i3);
  }

  /** The indices `TopFour` keeps: the first four of the descending order. */
  lemma TopFourIndices(cs: seq<Point>, maskCount: Point -> real) returns (i0: int, i1: int, i2: int, i3: int)
    requires |cs| > 4
    ensures 0 <= i0 < |cs| && 0 <= i1 < |cs| && 0 <= i2 < |cs| && 0 <= i3 < |cs|
    ensures i0 != i1 && i0 != i2 && i0 != i3 && i1 != i2 && i1 != i3 && i2 != i3
    ensures TopFour(cs, maskCount) == [cs[i0], cs[i1], cs[i2], cs[i3]]
    ensures forall k :: 0 <= k < |cs| && k != i0 && k != i1 && k != i2 && k != i3 ==>
              maskCount(cs[k]) <= maskCount(cs[i3])
  {
    var counts := seq(|cs|, k requires 0 <= k < |cs| => maskCount(cs[k]));
    var o := ArgsortDesc(counts);
    ArgsortRanked(counts);
    i0, i1, i2, i3 := o[0], o[1], o[2], o[3];
    assert Before(counts, i0, i1) && Before(counts, i0, i2) && Before(counts, i0, i3);
    assert Before(counts, i1, i2) && Before(counts, i1, i3) && Before(counts, i2, i3);
    forall k | 0 <= k < |cs| && k != i0 && k != i1 && k != i2 && k != i3
      ensures maskCount(cs[k]) <= maskCount(cs[i3])
    {
      assert k in o;
      var p :| 0 <= p < |o| && o[p] == k;
      assert Before(counts, o[3], o[p]);
    }
  }

  /** The count rule: exactly four centres are ordered; more than four are reduced as the finder says; fewer give nothing. */
  function Settle(f: Finder, cs: seq<Point>, maskCount: Point -> real, box: seq<Point> -> seq<Point>): Option<seq<Point>>
  {
    if |cs| == 4 then Some(Arrange(f.order, cs))
    else if |cs| < 4 then None
    else match f.many
      case RejectMany => None
      case TopFourByMask => Some(SortCornersByPosition(TopFour(cs, maskCount)))
      case BoundingBox => if |box(cs)| == 4 then Some(SortCornersByPosition(box(cs))) else None
  }

  /** The centres a finder settles on: largest contours, usable ones, then de-duplicated. */
  function FinderCentres(f: Finder, blobs: seq<Blob>, dist: (Point, Point) -> real): seq<Point>
  {
    var cs := Centres(Largest(blobs, f.keep), f.minArea, f.strict);
    if f.dedup.Some? then Dedup(cs, f.dedup.value, dist) else cs
  }

  function FindCorners(f: Finder, blobs: seq<Blob>, dist: (Point, Point) -> real,
                       maskCount: Point -> real, box: seq<Point> -> seq<Point>): (r: Option<seq<Point>>)
    ensures r.Some? ==> |r.value| == 4
  {
    Settle(f, FinderCentres(f, blobs, dist), maskCount, box)
  }

  /** Corners are found exactly when four centres survive, or more than four and the finder reduces them; four survivors come back as a reordering of themselves. */
  lemma FindCornersSpec(f: Finder, blobs: seq<Blob>, dist: (Point, Point) -> real,
                        maskCount: Point -> real, box: seq<Point> -> seq<Point>)
    ensures var cs := FinderCentres(f, blobs, dist);
      var r := FindCorners(f, blobs, dist, maskCount, box);
      (r.Some? <==> |cs| == 4 || (|cs| > 4 && (f.many == TopFourByMask || (f.many == BoundingBox && |box(cs)| == 4))))
      && (|cs| == 4 ==> forall p :: p in r.value ==> p in cs)
      && (|cs| == 4 && f.order == ByPosition ==> multiset(r.value) == multiset(cs))
  {
    var cs := FinderCentres(f, blobs, dist);
    if |cs| == 4 && f.order == ByPosition {
      SortCornersSpec(cs);
      var r := SortCornersByPosition(cs);
      forall p | p in r ensures p in cs {
        assert p in multiset(r);
      }
    }
  }

  // ------------------------------------------------- first and last squares

  /** Python's `int()` on a float: truncation toward zero. */
  function Trunc(v: real): int
  {
    if v >= 0.0 then v.Floor else -((-v).Floor)
  }

  /** An axis-aligned pixel box, `[start_x, start_y]` to `[end_x, end_y]`. */
  datatype Box = Box(sx: int, sy: int, ex: int, ey: int)

  function BoxCorners(b: Box): (r: seq<Point>)
    ensures |r| == 4
  {
    [Point(b.sx as real, b.sy as real), Point(b.ex as real, b.sy as real),
     Point(b.ex as real, b.ey as real), Point(b.sx as real, b.ey as real)]
  }

  /** warp_cam_picam2_stable_v2.py's `MIN_QUAD_AREA`. */
  const StableV2MinQuadArea := 5000

  /** The square of side `int(distance * 1.414)` started half a square before the first centre, clipped to the frame. */
  function SpanBox(first: Point, d: real, width: int, height: int): (b: Box)
    requires d >= 0.0 && width >= 0 && height >= 0
    ensures 0 <= b.sx && 0 <= b.sy && b.ex <= width && b.ey <= height
  {
    var size := (d * 1.414).Floor;
    var square := size / 8;
    var sx0 := Trunc(first.x - square as real * 0.5);
    var sy0 := Trunc(first.y - square as real * 0.5);
    Box(if sx0 < 0 then 0 else sx0, if sy0 < 0 then 0 else sy0,
        if width < sx0 + size then width else sx0 + size,
        if height < sy0 + size then height else sy0 + size)
  }

  /** The area check against `MIN_QUAD_AREA` and the aspect check, `width / height` counted as 0 when the height is not positive. */
  predicate BoxAccepted(b: Box)
  {
    var w := b.ex - b.sx;
    var h := b.ey - b.sy;
    var aspect := if h > 0 then w as real / h as real else 0.0;
    w * h >= StableV2MinQuadArea && 0.8 <= aspect <= 1.2
  }

  /**
   * `find_chessboard_by_first_last_squares` (warp_cam_picam2_stable_v2.py):
   * the light squares nearest the top-left and bottom-right corners, at
   * least 100 pixels apart, span a square box in a `width` x `height` frame.
   */
  function FirstLastBox(centres: seq<Point>, dist: (Point, Point) -> real, width: int, height: int): Option<Box>
    requires width >= 0 && height >= 0
  {
    if |centres| < 2 then None
    else
      var first := centres[ArgMin(centres, SumKey)];
      var last := centres[ArgMax(centres, SumKey)];
      var d := dist(last, first);
      if d < 100.0 then None
      else
        var b := SpanBox(first, d, width, height);
        if BoxAccepted(b) then Some(b) else None
  }

  function FirstLastSquares(blobs: seq<Blob>, dist: (Point, Point) -> real, width: int, height: int): (r: Option<seq<Point>>)
    requires width >= 0 && height >= 0
    ensures r.Some? ==> |r.value| == 4
  {
    var b := FirstLastBox(Centres(Largest(blobs, None), 1000.0, true), dist, width, height);
    if b.None? then None else Some(SortCornersByPosition(BoxCorners(b.value)))
  }

  lemma AspectBounds(w: int, h: int)
    requires h > 0 && 0.8 <= w as real / h as real <= 1.2
    ensures 0.8 * h as real <= w as real <= 1.2 * h as real
  {
    var a := w as real / h as real;
    assert a * h as real == w as real;
    assert 0.8 * h as real <= a * h as real;
    assert a * h as real <= 1.2 * h as real;
  }

  /** An accepted box has positive sides, area at least `MIN_QUAD_AREA` and width between 0.8 and 1.2 times its height. */
  lemma AcceptedBoxProper(b: Box)
    requires BoxAccepted(b)
    ensures b.sx < b.ex && b.sy < b.ey
    ensures (b.ex - b.sx) * (b.ey - b.sy) >= StableV2MinQuadArea
    ensures 0.8 * (b.ey - b.sy) as real <= (b.ex - b.sx) as real <= 1.2 * (b.ey - b.sy) as real
  {
    var w := b.ex - b.sx;
    var h := b.ey - b.sy;
    assert h > 0;
    AspectBounds(w, h);
  }

  /** A box is produced only from two centres at least 100 apart, and it lies inside the frame with positive sides. */
  lemma FirstLastBoxSound(centres: seq<Point>, dist: (Point, Point) -> real, width: int, height: int)
    requires width >= 0 && height >= 0
    ensures var r := FirstLastBox(centres, dist, width, height);
      r.Some? ==>
        |centres| >= 2
        && dist(centres[ArgMax(centres, SumKey)], centres[ArgMin(centres, SumKey)]) >= 100.0
        && 0 <= r.value.sx < r.value.ex <= width && 0 <= r.value.sy < r.value.ey <= height
        && BoxAccepted(r.value)
  {
    var r := FirstLastBox(centres, dist, width, height);
    if r.Some? {
      AcceptedBoxProper(r.value);
    }
  }

  /** brain/cv/picam_stable.py's beige box: it starts at the first square's centre and is not clipped. */
  function PicamBeige(cs: seq<Point>, dist: (Point, Point) -> real): (r: Option<seq<Point>>)
    ensures r.Some? ==> |r.value| == 4
  {
    if |cs| < 2 then None
    else
      var first := cs[ArgMin(cs, SumKey)];
      var last := cs[ArgMax(cs, SumKey)];
      var d := dist(last, first);
      if d > 100.0 then
        var size := (d * 1.414).Floor;
        var sx, sy := Trunc(first.x), Trunc(first.y);
        Some(BoxCorners(Box(sx, sy, sx + size, sy + size)))
      else None
  }

  /**
   * brain/cv/picam_stable.py's `find_chessboard_by_first_last_squares`: the
   * beige box must pass `is_valid_quad` (area 5000, aspect [0.8, 1.2]);
   * otherwise the largest contour's approximation `fallback` is tried
   * under the same check.
   */
  function PicamFirstLast(blobs: seq<Blob>, dist: (Point, Point) -> real, fallback: Option<seq<Point>>): Option<seq<Point>>
  {
    var beige := PicamBeige(Centres(blobs, 1000.0, false), dist);
    if beige.Some? && IsValidQuad(beige, PicamStableQuad, dist) then Some(SortCornersByPosition(beige.value))
    else if fallback.Some? && |fallback.value| == 4 && IsValidQuad(fallback, PicamStableQuad, dist) then Some(SortCornersByPosition(fallback.value))
    else None
  }

  /** Whatever the picam finder returns is a quad that passed `is_valid_quad`, put in position order. */
  lemma PicamFirstLastValid(blobs: seq<Blob>, dist: (Point, Point) -> real, fallback: Option<seq<Point>>)
    ensures var r := PicamFirstLast(blobs, dist, fallback);
      r.Some? ==> exists q :: |q| == 4 && IsValidQuad(Some(q), PicamStableQuad, dist) && r.value == SortCornersByPosition(q)
  {
    var beige := PicamBeige(Centres(blobs, 1000.0, false), dist);
    if beige.Some? && IsValidQuad(beige, PicamStableQuad, dist) {
      assert Some(beige.value) == beige;
    } else if fallback.Some? && |fallback.value| == 4 && IsValidQuad(fallback, PicamStableQuad, dist) {
      assert Some(fallback.value) == fallback;
    }
  }

  // ------------------------------------------- largest convex quadrilateral

  /** A contour's `approxPolyDP` approximation, whether it is convex, and its area. */
  datatype Polygon = Polygon(approx: seq<Point>, convex: bool, area: real)

  predicate IsQuad(p: Polygon)
  {
    |p.approx| == 4 && p.convex
  }

  /** The scan in `find_chessboard_corners`: `max_area` starts at 0 and only a strictly larger convex quad replaces the best. */
  method LargestQuad(polys: seq<Polygon>) returns (best: Option<nat>)
    ensures best.None? <==> forall k :: 0 <= k < |polys| && IsQuad(polys[k]) ==> polys[k].area <= 0.0
    ensures best.Some? ==> best.value < |polys| && IsQuad(polys[best.value]) && polys[best.value].area > 0.0
    ensures best.Some? ==> forall k :: 0 <= k < |polys| && IsQuad(polys[k]) ==> polys[k].area <= polys[best.value].area
    ensures best.Some? ==> forall k :: 0 <= k < best.value && IsQuad(polys[k]) ==> polys[k].area < polys[best.value].area
  {
    var maxArea := 0.0;
    best := None;
    for i := 0 to |polys|
      invariant best.None? ==> maxArea == 0.0
      invariant best.None? <==> forall k :: 0 <= k < i && IsQuad(polys[k]) ==> polys[k].area <= 0.0
      invariant best.Some? ==> best.value < i && IsQuad(polys[best.value]) && maxArea == polys[best.value].area > 0.0
      invariant forall k :: 0 <= k < i && IsQuad(polys[k]) ==> polys[k].area <= maxArea
      invariant best.Some? ==> forall k :: 0 <= k < best.value && IsQuad(polys[k]) ==> polys[k].area < maxArea
    {
      if IsQuad(polys[i]) && polys[i].area > maxArea {
        maxArea := polys[i].area;
        best := Some(i);
      }
    }
  }

  /** `find_chessboard_corners` (ChessRobot/chessboard_warp.py, CV/chessboard_warp_image.py): the largest convex quad in `order_points` order, or nothing. */
  method FindChessboardCorners(polys: seq<Polygon>) returns (r: Option<seq<Point>>)
    ensures r.None? <==> forall k :: 0 <= k < |polys| && IsQuad(polys[k]) ==> polys[k].area <= 0.0
    ensures r.Some? ==>
      (exists i :: 0 <= i < |polys| && IsQuad(polys[i]) && r.value == OrderCorners(polys[i].approx)
                   && forall k :: 0 <= k < |polys| && IsQuad(polys[k]) ==> polys[k].area <= polys[i].area)
  {
    var best := LargestQuad(polys);
    if best.None? {
      return None;
    }
    var rect := OrderPoints(polys[best.value].approx);
    r := Some(rect[..]);
  }

  // ------------------------------------------------------------- warp guards

  /** What the copies of `warp_chessboard` do with unusable corners. */
  datatype WarpGuard =
    | NoneUnlessQuad      // CV/warp_cam_picam2.py: None for None or a non-(4, 2) shape, corners used as given
    | SortedNoneUnlessQuad // CV/warp_cam_picam2_v2.py: the same, after sorting the corners
    | CopyUnlessQuad      // mjpg/warp_chessboard.py, CV/warping_utils.py: a copy of the frame
    | SortedNoneIfMissing // brain/cv/picam_stable.py: None only when corners are None, then sorted

  datatype WarpOutcome<F> = NoWarp | Warped(frame: F) | WarpError

  /**
   * The result of a guarded warp; `warp` is cv2's perspective warp onto
   * the square.  The picam copy sorts whatever it is given: fewer than four
   * corners make `sort_corners_by_position` raise `IndexError`, more than
   * four are cut down to the four it selects.
   */
  function WarpChessboard<F>(guard: WarpGuard, frame: F, corners: Option<seq<Point>>, warp: (F, seq<Point>) -> F): WarpOutcome<F>
  {
    if corners.None? then (if guard == CopyUnlessQuad then Warped(frame) else NoWarp)
    else if guard == SortedNoneIfMissing then
      if |corners.value| < 4 then WarpError
      else Warped(warp(frame, SortCornersByPosition(corners.value)))
    else if |corners.value| != 4 then
      if guard == CopyUnlessQuad then Warped(frame) else NoWarp
    else if guard == SortedNoneUnlessQuad then Warped(warp(frame, SortCornersByPosition(corners.value)))
    else Warped(warp(frame, corners.value))
  }

  /**
   * Only four corners are ever handed to the warp, and they are always
   * some of the given ones: a reordering of them when four are given.
   * Without corners, or with a count other than four, the guarded copies
   * give back the frame or nothing; the picam copy fails on fewer than
   * four and warps four of the given corners when there are more.
   */
  lemma WarpGuardSpec<F>(guard: WarpGuard, frame: F, corners: Option<seq<Point>>, warp: (F, seq<Point>) -> F)
    ensures var r := WarpChessboard(guard, frame, corners, warp);
      (corners.None? ==> r == (if guard == CopyUnlessQuad then Warped(frame) else NoWarp))
      && (corners.Some? && |corners.value| != 4 && guard != SortedNoneIfMissing ==>
            r == (if guard == CopyUnlessQuad then Warped(frame) else NoWarp))
      && (corners.Some? && guard == SortedNoneIfMissing ==> (r == WarpError <==> |corners.value| < 4))
      && (corners.Some? && |corners.value| >= 4 && guard == SortedNoneIfMissing ==>
            exists q :: |q| == 4 && multiset(q) <= multiset(corners.value) && r == Warped(warp(frame, q)))
      && (corners.Some? && |corners.value| == 4 ==>
            exists q :: multiset(q) == multiset(corners.value) && r == Warped(warp(frame, q)))
  {
    if corners.Some? && |corners.value| >= 4 {
      var c := corners.value;
      if guard == SortedNoneIfMissing || (guard == SortedNoneUnlessQuad && |c| == 4) {
        SortedWarp(guard, frame, c, warp);
      } else if |c| == 4 {
        assert WarpChessboard(guard, frame, corners, warp) == Warped(warp(frame, c));
      }
    }
  }

  /** A sorting copy warps four of the given corners, all of them when four are given. */
  lemma SortedWarp<F>(guard: WarpGuard, frame: F, c: seq<Point>, warp: (F, seq<Point>) -> F)
    requires guard == SortedNoneIfMissing || (guard == SortedNoneUnlessQuad && |c| == 4)
    requires |c| >= 4
    ensures var q := SortCornersByPosition(c);
      WarpChessboard(guard, frame, Some(c), warp) == Warped(warp(frame, q))
      && |q| == 4 && multiset(q) <= multiset(c) && (|c| == 4 ==> multiset(q) == multiset(c))
  {
    SortCornersSelects(c);
    if |c| == 4 {
      SortCornersSpec(c);
    }
  }
}
