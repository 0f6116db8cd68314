// The per-frame logic of the streaming loops: which corners a loop warps
// with, which picture it falls back to, how it smooths the cell means and
// the cell differences across frames, and which cells it highlights.
// Camera reads, cv2 warping and colour conversion, drawing and JPEG
// framing stay outside: the loops receive their results as arguments.

module Streams {
  import opened Wrappers
  import opened Colour
  import opened Ranking
  import opened Geometry
  import opened Stabilizer

  /** A picture as rows of pixels: a camera frame, a warp or a conversion of one. */
  type Image = seq<seq<Color3>>

  /** One value per cell, flattened row-major like the cell grids. */
  type CellValues = s: seq<real> | |s| == CellCount witness seq(CellCount, k => 0.0)

  /** A stored row of cell values, seen as a plain sequence. */
  function Widen(v: Option<CellValues>): (r: Option<seq<real>>)
    ensures r.Some? ==> |r.value| == CellCount
  {
    match v
    case None => None
    case Some(x) => Some(x)
  }

  // ------------------------------------------------------------ warp fallback

  /** The picture a loop works on: the fresh warp, else the previous warp, else the stand-in for the raw frame. */
  function WarpFallback(warped: Option<Image>, prev: Option<Image>, orig: Image): Image
  {
    match warped
    case Some(w) => w
    case None => prev.GetOr(orig)
  }

  /** The previous warp a loop keeps for the next frame. */
  function KeptWarp(warped: Option<Image>, prev: Option<Image>): Option<Image>
  {
    if warped.Some? then warped else prev
  }

  /**
   * A fresh warp is shown and remembered; without one the remembered warp
   * is shown and kept; only when no warp was ever made is the raw frame
   * shown, and once a warp exists the loop never goes back to the frame.
   */
  lemma WarpFallbackSpec(warped: Option<Image>, prev: Option<Image>, orig: Image)
    ensures warped.Some? ==> WarpFallback(warped, prev, orig) == warped.value && KeptWarp(warped, prev) == warped
    ensures warped.None? && prev.Some? ==> WarpFallback(warped, prev, orig) == prev.value && KeptWarp(warped, prev) == prev
    ensures warped.None? && prev.None? ==> WarpFallback(warped, prev, orig) == orig && KeptWarp(warped, prev).None?
    ensures KeptWarp(warped, prev).Some? ==> WarpFallback(warped, prev, orig) == KeptWarp(warped, prev).value
  {
  }

  // ------------------------------------------- corner gate of the mjpg loop

  /** The largest mean corner movement the mjpg move-detection loop adopts, in pixels. */
  const MaxCornerShift := 40.0
  /** `_avg_corner_distance`'s answer when a corner set is missing. */
  const FarAway := 1000000000.0

  /** `_avg_corner_distance`: mean distance of matching corners, or `1e9` when either set is missing. */
  function AvgCornerDistance(a: Option<seq<Point>>, b: Option<seq<Point>>, dist: (Point, Point) -> real): (d: real)
    requires a.Some? ==> |a.value| == 4
    requires b.Some? ==> |b.value| == 4
    ensures a.None? || b.None? ==> d > MaxCornerShift
  {
    if a.None? || b.None? then FarAway else MeanCornerDistance(a.value, b.value, dist)
  }

  /**
   * The corners the mjpg loop warps with: a candidate that is a valid
   * quad and, when corners were adopted before, lies on average within
   * 40 pixels of them; otherwise the last adopted corners.
   */
  function ChooseCorners(last: Option<seq<Point>>, candidate: Option<seq<Point>>, dist: (Point, Point) -> real): Option<seq<Point>>
    requires last.Some? ==> |last.value| == 4
  {
    if IsValidQuad(candidate, StableV2CallerQuad, dist)
      && (last.None? || AvgCornerDistance(last, candidate, dist) <= MaxCornerShift)
    then candidate
    else last
  }

  /**
   * The gate adopts exactly the valid, nearby candidates; anything else
   * keeps the last corners, so adopted corners are always a valid quad
   * and never jump by more than 40 pixels on average.
   */
  lemma CornerGate(last: Option<seq<Point>>, candidate: Option<seq<Point>>, dist: (Point, Point) -> real)
    requires last.Some? ==> IsValidQuad(last, StableV2CallerQuad, dist)
    ensures var chosen := ChooseCorners(last, candidate, dist);
      (chosen == candidate || chosen == last)
      && (chosen.Some? ==> IsValidQuad(chosen, StableV2CallerQuad, dist) && |chosen.value| == 4)
      && (IsValidQuad(candidate, StableV2CallerQuad, dist) && last.None? ==> chosen == candidate)
      && (last.Some? && chosen.Some? ==> MeanCornerDistance(last.value, chosen.value, dist) <= MaxCornerShift
                                          || chosen == last)
      && (!IsValidQuad(candidate, StableV2CallerQuad, dist) ==> chosen == last)
  {
  }

  /** A valid candidate within the limit of the last corners is adopted; one beyond it is refused. */
  lemma CornerGateDistance(last: seq<Point>, candidate: seq<Point>, dist: (Point, Point) -> real)
    requires IsValidQuad(Some(last), StableV2CallerQuad, dist) && IsValidQuad(Some(candidate), StableV2CallerQuad, dist)
    ensures ChooseCorners(Some(last), Some(candidate), dist) == Some(candidate)
      <==> MeanCornerDistance(last, candidate, dist) <= MaxCornerShift || candidate == last
  {
  }

  // --------------------------------------------------------------- highlights

  /** The cells of `pairs[:top_k]`, both cells of each pair in order. */
  function PairCells(pairs: seq<(int, int)>, topK: int): (cells: seq<int>)
    ensures |cells| == 2 * (if topK <= 0 then 0 else if topK < |pairs| then topK else |pairs|)
  {
    if topK <= 0 || |pairs| == 0 then []
    else [pairs[0].0, pairs[0].1] + PairCells(pairs[1..], topK - 1)
  }

  /**
   * The mjpg loop boxes at most the one pair `_pair_moves` proposes: two
   * different cells whose detrended norms both exceed the threshold, the
   * larger first, and no other cell exceeds the smaller one.
   */
  lemma HighlightedPair(norms: seq<real>, thr: real, topK: int)
    ensures var cells := PairCells(PairMoves(norms, thr), topK);
      |cells| <= 2
      && (|cells| == 2 ==>
        0 <= cells[0] < |norms| && 0 <= cells[1] < |norms| && cells[0] != cells[1]
        && norms[cells[0]] >= norms[cells[1]] > thr
        && forall k :: 0 <= k < |norms| && k != cells[0] ==> norms[k] <= norms[cells[1]])
  {
    PairMovesIsTopPair(norms, thr);
    var pairs := PairMoves(norms, thr);
    if |pairs| > 0 && topK > 0 {
      TopTwo(norms);
      var o := ArgsortDesc(norms);
      assert pairs == [(o[0], o[1])];
      assert PairCells(pairs, topK) == [o[0], o[1]];
      var i, j :| 0 <= i < j < |norms| && norms[i] > thr && norms[j] > thr;
      var other := if i != o[0] then i else j;
      assert other != o[0] && norms[other] > thr;
      assert norms[other] <= norms[o[1]];
    }
  }

  // ---------------------------------------- mjpg move-detection loop state

  /** What the mjpg move-detection generator keeps across frames. */
  datatype EdgeState = EdgeState(lastCorners: Option<seq<Point>>, prevWarp: Option<Image>, ema: Option<CellGrid>)

  /** The foreign operations the loops call: cv2 warping and resizing, the cell-mean measurement and the colour norm. */
  datatype Tools = Tools(
    warp: (Image, seq<Point>) -> Image,
    resize: Image -> Image,
    measure: Image -> CellGrid,
    norm: Color3 -> real,
    dist: (Point, Point) -> real)

  /** Weight of the newest means in the mjpg loop's smoothing. */
  const EdgeMeanAlpha := 0.6

  /**
   * One frame of `gen_edges_frames` in the mjpg copy, given the corners
   * `_safe_find_corners` returned: gate the corners, warp or fall back,
   * smooth the cell means, detrend against the baseline and box the
   * proposed pair.  Returns the new state and the boxed cells.
   */
  function EdgeNext(tools: Tools, base: CellGrid, thr: real, topK: int, s: EdgeState, frame: Image, candidate: Option<seq<Point>>): (EdgeState, seq<int>)
    requires s.lastCorners.Some? ==> |s.lastCorners.value| == 4
  {
    var chosen := ChooseCorners(s.lastCorners, candidate, tools.dist);
    var warped := if chosen.Some? then Some(tools.warp(frame, chosen.value)) else None;
    var shown := WarpFallback(warped, s.prevWarp, tools.resize(frame));
    var ema := EmaMeans(EdgeMeanAlpha, s.ema, tools.measure(shown));
    var norms := Norms(Detrend(Deltas(ema, base)), tools.norm);
    (EdgeState(chosen, KeptWarp(warped, s.prevWarp), Some(ema)), PairCells(PairMoves(norms, thr), topK))
  }

  /** The mjpg move-detection generator's loop state, advanced one frame per call. */
  class EdgeStream {
    const tools: Tools
    const base: CellGrid
    const threshold: real
    const topK: int
    var lastCorners: Option<seq<Point>>
    var prevWarp: Option<Image>
    var ema: Option<CellGrid>

    function State(): EdgeState
      reads this
    {
      EdgeState(lastCorners, prevWarp, ema)
    }

    ghost predicate Valid()
      reads this
    {
      lastCorners.Some? ==> IsValidQuad(lastCorners, StableV2CallerQuad, tools.dist)
    }

    /** The generator's defaults: threshold 9.0, two boxed pairs at most. */
    constructor (tools: Tools, base: CellGrid)
      ensures this.tools == tools && this.base == base && threshold == 9.0 && topK == 2
      ensures State() == EdgeState(None, None, None) && Valid()
    {
      this.tools := tools;
      this.base := base;
      threshold := 9.0;
      topK := 2;
      lastCorners := None;
      prevWarp := None;
      ema := None;
    }

    method Step(frame: Image, candidate: Option<seq<Point>>) returns (cells: seq<int>)
      requires Valid()
      modifies this
      ensures Valid()
      ensures (State(), cells) == EdgeNext(tools, base, threshold, topK, old(State()), frame, candidate)
    {
      ghost var s0 := State();
      CornerGate(lastCorners, candidate, tools.dist);
      var chosen := lastCorners;
      if candidate.Some? && IsValidQuad(candidate, StableV2CallerQuad, tools.dist) {
        if lastCorners.None? || MeanCornerDistance(lastCorners.value, candidate.value, tools.dist) <= MaxCornerShift {
          chosen := candidate;
        }
      }
      assert chosen == ChooseCorners(s0.lastCorners, candidate, tools.dist);
      ghost var warped := if chosen.Some? then Some(tools.warp(frame, chosen.value)) else None;
      var shown: Image;
      if chosen.Some? {
        shown := tools.warp(frame, chosen.value);
        prevWarp := Some(shown);
        lastCorners := chosen;
      } else if prevWarp.Some? {
        shown := prevWarp.value;
      } else {
        shown := tools.resize(frame);
      }
      assert shown == WarpFallback(warped, s0.prevWarp, tools.resize(frame)) && prevWarp == KeptWarp(warped, s0.prevWarp);
      var means := tools.measure(shown);
      ema := Some(EmaMeans(EdgeMeanAlpha, ema, means));
      var norms := Norms(Detrend(Deltas(ema.value, base)), tools.norm);
      cells := PairCells(PairMoves(norms, threshold), topK);
    }
  }

  // ------------------------------------ stand-alone recognition loop (`run`)

  /** The key pressed after a frame: `b` re-bases, `c` clears, `q` or Esc quits. */
  datatype Key = BaseKey | ClearKey | QuitKey | OtherKey

  /** What `run` keeps across frames. */
  datatype RunState = RunState(base: Option<CellGrid>, prevWarp: Option<Image>, ema: Option<CellGrid>, prevDiff: Option<CellValues>)

  const RunMeanAlpha := 0.6
  const RunDiffAlpha := 0.5
  const RunThreshold := 12.0
  const RunTopK := 4

  /** The cells `run` boxes: the largest smoothed differences, at most four, none below 12. */
  function RunPicks(smooth: seq<real>): seq<int>
  {
    ArgsortDesc(smooth)[..PickCount(smooth, RunTopK, RunThreshold)]
  }

  /**
   * One frame of `run` in the CV copy, given the corners found on it and
   * the key pressed after it.  Returns the new state, the boxed cells and
   * whether the loop stops.
   */
  function RunNext(tools: Tools, s: RunState, frame: Image, corners: Option<seq<Point>>, key: Key): (RunState, seq<int>, bool)
  {
    var warped := if corners.Some? then Some(tools.warp(frame, corners.value)) else None;
    var shown := WarpFallback(warped, s.prevWarp, frame);
    var kept := KeptWarp(warped, s.prevWarp);
    match s.base
    case None =>
      if key == BaseKey then (RunState(Some(tools.measure(shown)), kept, None, None), [], false)
      else (RunState(None, kept, s.ema, s.prevDiff), [], key == QuitKey)
    case Some(base) =>
      var ema := EmaMeans(RunMeanAlpha, s.ema, tools.measure(shown));
      var smooth: CellValues := EmaDiffs(RunDiffAlpha, Widen(s.prevDiff), CellDiffs(ema, base, tools.norm));
      var picks := RunPicks(smooth);
      match key
      case BaseKey => (RunState(Some(tools.measure(shown)), kept, None, None), picks, false)
      case ClearKey => (RunState(None, kept, None, None), picks, false)
      case QuitKey => (RunState(s.base, kept, Some(ema), Some(smooth)), picks, true)
      case OtherKey => (RunState(s.base, kept, Some(ema), Some(smooth)), picks, false)
  }

  /** At most four boxes and none before a baseline is set; with a baseline the boxes are `RunPicks` of the frame's smoothed differences. */
  lemma RunPicksSpec(s: RunState, tools: Tools, frame: Image, corners: Option<seq<Point>>, key: Key)
    ensures var (_, picks, _) := RunNext(tools, s, frame, corners, key);
      |picks| <= RunTopK
      && (s.base.None? ==> picks == [])
      && (s.base.Some? ==> exists smooth: seq<real> :: |smooth| == CellCount && picks == RunPicks(smooth))
  {
    var (_, picks, _) := RunNext(tools, s, frame, corners, key);
    if s.base.Some? {
      var warped := if corners.Some? then Some(tools.warp(frame, corners.value)) else None;
      var shown := WarpFallback(warped, s.prevWarp, frame);
      var ema := EmaMeans(RunMeanAlpha, s.ema, tools.measure(shown));
      var smooth: CellValues := EmaDiffs(RunDiffAlpha, Widen(s.prevDiff), CellDiffs(ema, s.base.value, tools.norm));
      assert picks == RunPicks(smooth);
      PicksSpec(smooth, RunTopK, RunThreshold);
    }
  }

  /**
   * Re-basing with `b` and clearing with `c` both drop the smoothing state,
   * so the frame after either starts afresh: its smoothed means are that
   * frame's means and its smoothed differences the raw differences.
   */
  lemma RebaseRestartsSmoothing(tools: Tools, s: RunState, f1: Image, c1: Option<seq<Point>>, f2: Image, c2: Option<seq<Point>>, k2: Key)
    requires s.base.Some?
    ensures var (s1, _, stop) := RunNext(tools, s, f1, c1, BaseKey);
      !stop && s1.ema.None? && s1.prevDiff.None? && s1.base.Some?
      && var (s2, _, _) := RunNext(tools, s1, f2, c2, k2);
      var w2 := WarpFallback(if c2.Some? then Some(tools.warp(f2, c2.value)) else None, s1.prevWarp, f2);
      (k2 == OtherKey ==>
         (s2.ema == Some(tools.measure(w2)) && s2.prevDiff.Some?
          && s2.prevDiff.value == CellDiffs(tools.measure(w2), s1.base.value, tools.norm)))
    ensures var (s1, _, stop) := RunNext(tools, s, f1, c1, ClearKey);
      !stop && s1.base.None? && s1.ema.None? && s1.prevDiff.None?
  {
  }

  /** `run`'s loop state, advanced one frame per call. */
  class RecognitionRun {
    const tools: Tools
    var base: Option<CellGrid>
    var prevWarp: Option<Image>
    var ema: Option<CellGrid>
    var prevDiff: Option<CellValues>

    function State(): RunState
      reads this
    {
      RunState(base, prevWarp, ema, prevDiff)
    }

    constructor (tools: Tools)
      ensures this.tools == tools && State() == RunState(None, None, None, None)
    {
      this.tools := tools;
      base := None;
      prevWarp := None;
      ema := None;
      prevDiff := None;
    }

    method Step(frame: Image, corners: Option<seq<Point>>, key: Key) returns (picks: seq<int>, stop: bool)
      modifies this
      ensures (State(), picks, stop) == RunNext(tools, old(State()), frame, corners, key)
    {
      ghost var s0 := State();
      ghost var warped := if corners.Some? then Some(tools.warp(frame, corners.value)) else None;
      var shown: Image;
      if corners.Some? {
        shown := tools.warp(frame, corners.value);
        prevWarp := Some(shown);
      } else if prevWarp.Some? {
        shown := prevWarp.value;
      } else {
        shown := frame;
      }
      assert shown == WarpFallback(warped, s0.prevWarp, frame) && prevWarp == KeptWarp(warped, s0.prevWarp);
      picks, stop := [], false;
      if base.None? {
        if key == BaseKey {
          base := Some(tools.measure(shown));
          ema, prevDiff := None, None;
        }
        stop := key == QuitKey;
        return;
      }
      var means := tools.measure(shown);
      var e := EmaMeans(RunMeanAlpha, ema, means);
      ema := Some(e);
      var smooth: CellValues := EmaDiffs(RunDiffAlpha, Widen(prevDiff), CellDiffs(e, base.value, tools.norm));
      prevDiff := Some(smooth);
      picks := TopAbove(smooth, RunTopK, RunThreshold);
      assert picks == RunPicks(smooth);
      if key == BaseKey {
        base := Some(tools.measure(shown));
        ema, prevDiff := None, None;
      } else if key == ClearKey {
        base := None;
        ema, prevDiff := None, None;
      } else if key == QuitKey {
        stop := true;
      }
    }
  }

  // ------------------------------ difference-highlighting streaming loops

  /**
   * The streaming loops that compare the warp with a stored baseline:
   * optional smoothing of the differences, how many cells they box, the
   * threshold, and whether corners must number exactly four to warp.
   */
  datatype DiffConfig = DiffConfig(smoothing: Option<real>, topK: int, threshold: real, needFour: bool)

  /** `gen_warped_frames` in CV/video_streams.py: `DIFF_EMA = 0.5`, `TOP_K = 2`, `THRESHOLD = 12.0`. */
  const VideoStreamsDiff := DiffConfig(Some(0.5), 2, 12.0, true)
  /** `gen_edges_frames` in CV/piece_recognition.py with its defaults 12.0 and 4. */
  const RecognitionEdgesDiff := DiffConfig(None, 4, 12.0, false)
  /** `gen_edges_frames` in brain/piece_detector.py with its defaults 12.0 and 4. */
  const DetectorEdgesDiff := DiffConfig(None, 4, 12.0, true)

  datatype DiffState = DiffState(prevWarp: Option<Image>, prevDiffs: Option<CellValues>)

  /** The cells a difference loop boxes. */
  function DiffPicks(cfg: DiffConfig, smooth: seq<real>): seq<int>
  {
    ArgsortDesc(smooth)[..PickCount(smooth, cfg.topK, cfg.threshold)]
  }

  /** Whether the found corners are used for warping. */
  predicate WarpsWith(cfg: DiffConfig, corners: Option<seq<Point>>)
  {
    corners.Some? && (!cfg.needFour || |corners.value| == 4)
  }

  /**
   * One frame of a difference loop, given the corners found on it and the
   * baseline it compares with (`None` when the file is missing, unreadable
   * or not of shape 8x8x3).  Returns the new state and the boxed cells.
   */
  function DiffNext(cfg: DiffConfig, tools: Tools, s: DiffState, frame: Image, corners: Option<seq<Point>>, base: Option<CellGrid>): (DiffState, seq<int>)
  {
    var warped := if WarpsWith(cfg, corners) then Some(tools.warp(frame, corners.value)) else None;
    var shown := WarpFallback(warped, s.prevWarp, frame);
    var kept := KeptWarp(warped, s.prevWarp);
    match base
    case None => (DiffState(kept, s.prevDiffs), [])
    case Some(b) =>
      var diffs := CellDiffs(tools.measure(shown), b, tools.norm);
      match cfg.smoothing
      case None => (DiffState(kept, s.prevDiffs), DiffPicks(cfg, diffs))
      case Some(alpha) =>
        var smooth: CellValues := EmaDiffs(alpha, Widen(s.prevDiffs), diffs);
        (DiffState(kept, Some(smooth)), DiffPicks(cfg, smooth))
  }

  /**
   * Differences are computed only against a baseline; each boxed cell's
   * value is at least the threshold, the boxes run largest first and
   * number at most `top_k`; and with smoothing the first frame uses the raw
   * differences while later ones average half and half with the previous.
   */
  lemma DiffNextSpec(cfg: DiffConfig, tools: Tools, s: DiffState, frame: Image, corners: Option<seq<Point>>, base: Option<CellGrid>)
    ensures var (s1, picks) := DiffNext(cfg, tools, s, frame, corners, base);
      (base.None? ==> picks == [] && s1.prevDiffs == s.prevDiffs)
      && |picks| <= (if cfg.topK < 0 then 0 else cfg.topK)
      && (base.Some? ==>
        var shown := WarpFallback(if WarpsWith(cfg, corners) then Some(tools.warp(frame, corners.value)) else None, s.prevWarp, frame);
        var diffs := CellDiffs(tools.measure(shown), base.value, tools.norm);
        var smooth := if cfg.smoothing.Some? then EmaDiffs(cfg.smoothing.value, Widen(s.prevDiffs), diffs) else diffs;
        picks == DiffPicks(cfg, smooth)
        && (forall j :: 0 <= j < |picks| ==> 0 <= picks[j] < CellCount && smooth[picks[j]] >= cfg.threshold)
        && (forall j :: 0 < j < |picks| ==> smooth[picks[j - 1]] >= smooth[picks[j]])
        && (cfg.smoothing.Some? ==> s1.prevDiffs.Some? && s1.prevDiffs.value == smooth))
  {
    var (s1, picks) := DiffNext(cfg, tools, s, frame, corners, base);
    if base.Some? {
      var shown := WarpFallback(if WarpsWith(cfg, corners) then Some(tools.warp(frame, corners.value)) else None, s.prevWarp, frame);
      var diffs := CellDiffs(tools.measure(shown), base.value, tools.norm);
      var smooth := if cfg.smoothing.Some? then EmaDiffs(cfg.smoothing.value, Widen(s.prevDiffs), diffs) else diffs;
      PicksSpec(smooth, cfg.topK, cfg.threshold);
    }
  }

  /** A difference loop's state, advanced one frame per call. */
  class DiffStream {
    const cfg: DiffConfig
    const tools: Tools
    var prevWarp: Option<Image>
    var prevDiffs: Option<CellValues>

    function State(): DiffState
      reads this
    {
      DiffState(prevWarp, prevDiffs)
    }

    constructor (cfg: DiffConfig, tools: Tools)
      ensures this.cfg == cfg && this.tools == tools && State() == DiffState(None, None)
    {
      this.cfg := cfg;
      this.tools := tools;
      prevWarp := None;
      prevDiffs := None;
    }

    method Step(frame: Image, corners: Option<seq<Point>>, base: Option<CellGrid>) returns (picks: seq<int>)
      modifies this
      ensures (State(), picks) == DiffNext(cfg, tools, old(State()), frame, corners, base)
    {
      var shown: Image;
      if corners.Some? && (!cfg.needFour || |corners.value| == 4) {
        shown := tools.warp(frame, corners.value);
        prevWarp := Some(shown);
      } else if prevWarp.Some? {
        shown := prevWarp.value;
      } else {
        shown := frame;
      }
      picks := [];
      if base.Some? {
        var diffs := CellDiffs(tools.measure(shown), base.value, tools.norm);
        var smooth := diffs;
        if cfg.smoothing.Some? {
          var sm: CellValues := EmaDiffs(cfg.smoothing.value, Widen(prevDiffs), diffs);
          smooth := sm;
          prevDiffs := Some(sm);
        }
        picks := TopAbove(smooth, cfg.topK, cfg.threshold);
      }
    }
  }
}
