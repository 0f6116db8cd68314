/**
 * Per-cell colour statistics of the warped 8x8 board: the LAB or BGR mean
 * of each cell, the deltas against a stored baseline, per-channel
 * detrending, exponential smoothing and the multi-frame average.
 *
 * Colour values are exact reals.  The Euclidean norm and the colour
 * conversion are computed by the image library and enter as parameters.
 * Cells are numbered row-major, `idx = 8 * row + column`.
 */
module Colour {
  import opened Wrappers

  /** One cell's mean colour: three channels (L, a, b or B, G, R). */
  datatype Color3 = Color3(c0: real, c1: real, c2: real)
  {
    function Plus(o: Color3): Color3 { Color3(c0 + o.c0, c1 + o.c1, c2 + o.c2) }
    function Minus(o: Color3): Color3 { Color3(c0 - o.c0, c1 - o.c1, c2 - o.c2) }
    function Neg(): Color3 { Color3(-c0, -c1, -c2) }
    function Scale(k: real): Color3 { Color3(k * c0, k * c1, k * c2) }
    /** The a,b chroma part only, with the lightness channel zeroed. */
    function Chroma(): Color3 { Color3(0.0, c1, c2) }
  }

  const Black3 := Color3(0.0, 0.0, 0.0)

  const CellCount := 64

  /** The 8x8 grid of cell colours, flattened row-major. */
  type CellGrid = g: seq<Color3> | |g| == CellCount witness seq(CellCount, k => Black3)

  /** The grid of zeros that the accumulators start from. */
  function ZeroGrid(): CellGrid { seq(CellCount, k => Black3) }

  function AddGrid(a: CellGrid, b: CellGrid): CellGrid
  {
    seq(CellCount, k requires 0 <= k < CellCount => a[k].Plus(b[k]))
  }

  function ScaleGrid(a: CellGrid, f: real): CellGrid
  {
    seq(CellCount, k requires 0 <= k < CellCount => a[k].Scale(f))
  }

  /** `curr - prev`, cell by cell. */
  function Deltas(curr: CellGrid, prev: CellGrid): (d: CellGrid)
    ensures forall k :: 0 <= k < CellCount ==> d[k].Plus(prev[k]) == curr[k]
  {
    seq(CellCount, k requires 0 <= k < CellCount => curr[k].Minus(prev[k]))
  }

  /** The channel-wise sum of a run of colours. */
  function Sum(cs: seq<Color3>): Color3
  {
    if |cs| == 0 then Black3 else Sum(cs[..|cs| - 1]).Plus(cs[|cs| - 1])
  }

  /** The channel-wise mean, `reshape(-1, 3).mean(axis=0)`. */
  function Mean(cs: seq<Color3>): Color3
    requires |cs| > 0
  {
    Sum(cs).Scale(1.0 / |cs| as real)
  }

  /** Adds the same vector to every cell. */
  function Shift(d: seq<Color3>, c: Color3): (r: seq<Color3>)
    ensures |r| == |d|
  {
    seq(|d|, k requires 0 <= k < |d| => d[k].Plus(c))
  }

  /** Subtracts the channel means from every cell (`_detrend_deltas`). */
  function Detrend(d: seq<Color3>): (r: seq<Color3>)
    requires |d| > 0
    ensures |r| == |d|
  {
    Shift(d, Mean(d).Neg())
  }

  lemma MulNonneg(a: real, b: real)
    requires a >= 0.0 && b >= 0.0
    ensures a * b >= 0.0
  {
  }

  lemma ScaleStep(c: Color3, m: real)
    ensures c.Scale(m).Plus(c) == c.Scale(m + 1.0)
  {
  }

  lemma ScaleInverse(c: Color3, n: real)
    requires n > 0.0
    ensures c.Scale(n).Scale(1.0 / n) == c
    ensures c.Scale(1.0 / n).Scale(n) == c
  {
  }

  /** Shifting every cell by `c` shifts the sum by `|d|` copies of `c`. */
  lemma {:induction false} SumShift(d: seq<Color3>, c: Color3)
    ensures Sum(Shift(d, c)) == Sum(d).Plus(c.Scale(|d| as real))
  {
    if |d| > 0 {
      var n := |d|;
      var e := Shift(d, c);
      assert e[..n - 1] == Shift(d[..n - 1], c);
      SumShift(d[..n - 1], c);
      var a := Sum(d[..n - 1]);
      assert Sum(e) == a.Plus(c.Scale((n - 1) as real)).Plus(d[n - 1].Plus(c));
      ScaleStep(c, (n - 1) as real);
    }
  }

  /** After detrending, every channel sums to zero over the cells. */
  lemma DetrendZeroMean(d: seq<Color3>)
    requires |d| > 0
    ensures Sum(Detrend(d)) == Black3
  {
    var n := |d| as real;
    var s := Sum(d);
    SumShift(d, Mean(d).Neg());
    ScaleInverse(s.Neg(), n);
    assert Mean(d).Neg() == s.Neg().Scale(1.0 / n);
  }

  /** A lighting change that moves every cell by the same amount leaves the detrended deltas unchanged. */
  lemma DetrendRemovesUniformShift(d: seq<Color3>, c: Color3)
    requires |d| > 0
    ensures Detrend(Shift(d, c)) == Detrend(d)
  {
    var n := |d| as real;
    SumShift(d, c);
    ScaleInverse(c, n);
    assert Mean(Shift(d, c)) == Mean(d).Plus(c);
  }

  /** Detrending twice is detrending once. */
  lemma DetrendIdempotent(d: seq<Color3>)
    requires |d| > 0
    ensures Detrend(Detrend(d)) == Detrend(d)
  {
    DetrendZeroMean(d);
    assert Mean(Detrend(d)) == Black3;
  }

  /** The per-cell norms of a delta grid, `np.linalg.norm(deltas, axis=2)`. */
  function Norms(d: seq<Color3>, norm: Color3 -> real): (r: seq<real>)
    ensures |r| == |d| && forall k :: 0 <= k < |d| ==> r[k] == norm(d[k])
  {
    seq(|d|, k requires 0 <= k < |d| => norm(d[k]))
  }

  /**
   * The detrended norms a turn transition ranks.  Without a stored
   * baseline the current board is its own baseline.
   */
  function DetrendedNorms(curr: CellGrid, baseline: Option<CellGrid>, norm: Color3 -> real): (r: seq<real>)
    ensures |r| == CellCount
  {
    Norms(Detrend(Deltas(curr, baseline.GetOr(curr))), norm)
  }

  /** With no baseline every delta is zero, so every norm is the norm of zero. */
  lemma NoBaselineAllZero(curr: CellGrid, norm: Color3 -> real)
    ensures forall k :: 0 <= k < CellCount ==> Deltas(curr, curr)[k] == Black3
    ensures forall k :: 0 <= k < CellCount ==> DetrendedNorms(curr, None, norm)[k] == norm(Black3)
  {
    var d := Deltas(curr, curr);
    assert forall k :: 0 <= k < CellCount ==> d[k] == Black3;
    SumOfBlack(d);
    assert Detrend(d) == d;
  }

  lemma {:induction false} SumOfBlack(d: seq<Color3>)
    requires forall k :: 0 <= k < |d| ==> d[k] == Black3
    ensures Sum(d) == Black3
  {
    if |d| > 0 {
      SumOfBlack(d[..|d| - 1]);
    }
  }

  /** `alpha * x + (1 - alpha) * y`, the exponential-smoothing step. */
  function Blend(alpha: real, x: real, y: real): real
  {
    alpha * x + (1.0 - alpha) * y
  }

  /** A blend with weight in [0, 1] lies between its two inputs and equals them when they agree. */
  lemma BlendBetween(alpha: real, x: real, y: real)
    requires 0.0 <= alpha <= 1.0
    ensures x <= y ==> x <= Blend(alpha, x, y) <= y
    ensures y <= x ==> y <= Blend(alpha, x, y) <= x
    ensures x == y ==> Blend(alpha, x, y) == x
  {
    var b := 1.0 - alpha;
    assert Blend(alpha, x, y) == x + b * (y - x) == y - alpha * (y - x);
    if x <= y {
      MulNonneg(b, y - x);
      MulNonneg(alpha, y - x);
    } else {
      MulNonneg(b, x - y);
      MulNonneg(alpha, x - y);
    }
  }

  /**
   * The smoothed cell means: the first frame copies the means, later
   * frames blend `alpha * means + (1 - alpha) * ema`.
   */
  function EmaMeans(alpha: real, ema: Option<CellGrid>, means: CellGrid): (r: CellGrid)
    ensures ema.None? ==> r == means
    ensures ema.Some? ==> forall k :: 0 <= k < CellCount ==>
      r[k] == Color3(Blend(alpha, means[k].c0, ema.value[k].c0),
                     Blend(alpha, means[k].c1, ema.value[k].c1),
                     Blend(alpha, means[k].c2, ema.value[k].c2))
  {
    match ema
    case None => means
    case Some(e) => AddGrid(ScaleGrid(means, alpha), ScaleGrid(e, 1.0 - alpha))
  }

  /** A board that stays still is a fixed point of the mean smoothing. */
  lemma EmaMeansSteady(alpha: real, means: CellGrid)
    ensures EmaMeans(alpha, Some(means), means) == means
  {
    var r := EmaMeans(alpha, Some(means), means);
    forall k | 0 <= k < CellCount ensures r[k] == means[k] {
      assert Blend(alpha, means[k].c0, means[k].c0) == means[k].c0;
      assert Blend(alpha, means[k].c1, means[k].c1) == means[k].c1;
      assert Blend(alpha, means[k].c2, means[k].c2) == means[k].c2;
    }
  }

  /** The smoothed difference grid: the first frame uses the raw diffs. */
  function EmaDiffs(alpha: real, prev: Option<seq<real>>, diffs: seq<real>): (r: seq<real>)
    requires prev.Some? ==> |prev.value| == |diffs|
    ensures |r| == |diffs|
    ensures prev.None? ==> r == diffs
    ensures prev.Some? ==> forall k :: 0 <= k < |diffs| ==> r[k] == Blend(alpha, diffs[k], prev.value[k])
  {
    match prev
    case None => diffs
    case Some(p) => seq(|diffs|, k requires 0 <= k < |diffs| => Blend(alpha, diffs[k], p[k]))
  }

  /** With weights in [0, 1], each smoothed diff lies between the new and the previous value. */
  lemma EmaDiffsBetween(alpha: real, prev: seq<real>, diffs: seq<real>)
    requires 0.0 <= alpha <= 1.0 && |prev| == |diffs|
    ensures forall k :: 0 <= k < |diffs| ==>
      var r := EmaDiffs(alpha, Some(prev), diffs)[k];
      (diffs[k] <= prev[k] ==> diffs[k] <= r <= prev[k]) && (prev[k] <= diffs[k] ==> prev[k] <= r <= diffs[k])
  {
    forall k | 0 <= k < |diffs| {
      BlendBetween(alpha, diffs[k], prev[k]);
    }
  }

  /** The per-cell distance of the current means from the baseline, `norm(mean - base)`. */
  function CellDiffs(means: CellGrid, base: CellGrid, norm: Color3 -> real): (r: seq<real>)
    ensures |r| == CellCount && forall k :: 0 <= k < CellCount ==> r[k] == norm(means[k].Minus(base[k]))
  {
    Norms(Deltas(means, base), norm)
  }

  /** One camera read that succeeded: the cell means of the warped frame and the warp itself. */
  datatype Shot<W> = Shot(lab: CellGrid, warp: W)

  /** Whether the `k`-th camera read succeeds; reads past the end of the list fail. */
  predicate ReadOk<W>(shots: seq<Option<Shot<W>>>, k: int)
  {
    0 <= k < |shots| && shots[k].Some?
  }

  /** How many shots the capture loop consumes: it stops at `n` or at the first failed read. */
  function Captured<W>(shots: seq<Option<Shot<W>>>, n: int): (k: nat)
    ensures k <= |shots| && (n <= 0 ==> k == 0) && (n > 0 ==> k <= n)
    decreases |shots|
  {
    if n <= 0 || |shots| == 0 || shots[0].None? then 0 else 1 + Captured(shots[1..], n - 1)
  }

  /** `Captured` is the length of the leading run of good shots, cut at `n`. */
  lemma {:induction false} CapturedExact<W>(shots: seq<Option<Shot<W>>>, n: int, k: nat)
    requires k <= |shots| && (k <= n || k == 0)
    requires forall i :: 0 <= i < k ==> shots[i].Some?
    requires k == n || n <= 0 || !ReadOk(shots, k)
    ensures Captured(shots, n) == k
    decreases k
  {
    if k > 0 {
      assert forall i :: 0 <= i < k - 1 ==> shots[1..][i] == shots[i + 1];
      assert k - 1 == n - 1 || !ReadOk(shots[1..], k - 1);
      CapturedExact(shots[1..], n - 1, k - 1);
    }
  }

  /** The cell means of the first `k` shots. */
  function Labs<W>(shots: seq<Option<Shot<W>>>, k: nat): (gs: seq<CellGrid>)
    requires k <= |shots| && forall i :: 0 <= i < k ==> shots[i].Some?
    ensures |gs| == k
  {
    seq(k, i requires 0 <= i < k => shots[i].value.lab)
  }

  /** The cell-by-cell sum of a run of grids. */
  function SumGrids(gs: seq<CellGrid>): CellGrid
  {
    if |gs| == 0 then ZeroGrid() else AddGrid(SumGrids(gs[..|gs| - 1]), gs[|gs| - 1])
  }

  /**
   * What `_capture_avg_lab_board` returns: nothing when no read succeeded,
   * otherwise the mean of the captured grids and the last warp.
   */
  function AverageCapture<W>(shots: seq<Option<Shot<W>>>, n: int): Option<(CellGrid, W)>
  {
    var k := Captured(shots, n);
    if k == 0 then None
    else
      CapturedPrefix(shots, n);
      Some((ScaleGrid(SumGrids(Labs(shots, k)), 1.0 / k as real), shots[k - 1].value.warp))
  }

  lemma {:induction false} CapturedPrefix<W>(shots: seq<Option<Shot<W>>>, n: int)
    ensures forall i :: 0 <= i < Captured(shots, n) ==> shots[i].Some?
    decreases |shots|
  {
    if n > 0 && |shots| > 0 && shots[0].Some? {
      CapturedPrefix(shots[1..], n - 1);
      forall i | 0 < i < Captured(shots, n) ensures shots[i].Some? {
        assert shots[1..][i - 1] == shots[i];
      }
    }
  }

  /**
   * The averaging loop: read up to `n` frames, stop at the first failed
   * read, accumulate the cell means and keep the last warp.
   */
  method CaptureAvgBoard<W(==)>(shots: seq<Option<Shot<W>>>, n: int) returns (r: Option<(CellGrid, W)>)
    ensures r == AverageCapture(shots, n)
  {
    var acc := ZeroGrid();
    var cnt := 0;
    var lastWarp: Option<W> := None;
    while cnt < n
      invariant 0 <= cnt <= |shots| && (cnt <= n || cnt == 0)
      invariant forall i :: 0 <= i < cnt ==> shots[i].Some?
      invariant acc == SumGrids(Labs(shots, cnt))
      invariant cnt > 0 ==> lastWarp == Some(shots[cnt - 1].value.warp)
    {
      if !ReadOk(shots, cnt) {
        break;
      }
      var shot := shots[cnt].value;
      lastWarp := Some(shot.warp);
      assert Labs(shots, cnt + 1)[..cnt] == Labs(shots, cnt);
      acc := AddGrid(acc, shot.lab);
      cnt := cnt + 1;
    }
    CapturedExact(shots, n, cnt);
    if cnt == 0 {
      return None;
    }
    r := Some((ScaleGrid(acc, 1.0 / cnt as real), lastWarp.value));
  }

  /** The sum of `k` copies of one grid is that grid scaled by `k`. */
  lemma {:induction false} SumOfCopies(gs: seq<CellGrid>, g: CellGrid)
    requires forall i :: 0 <= i < |gs| ==> gs[i] == g
    ensures SumGrids(gs) == ScaleGrid(g, |gs| as real)
  {
    if |gs| > 0 {
      var m := (|gs| - 1) as real;
      SumOfCopies(gs[..|gs| - 1], g);
      forall i | 0 <= i < CellCount
        ensures AddGrid(ScaleGrid(g, m), g)[i] == ScaleGrid(g, |gs| as real)[i]
      {
        ScaleStep(g[i], m);
      }
    }
  }

  /** A board seen identically on every captured frame averages to itself. */
  lemma AverageOfStillBoard<W>(shots: seq<Option<Shot<W>>>, n: int, g: CellGrid)
    requires forall i :: 0 <= i < Captured(shots, n) ==> shots[i].Some? && shots[i].value.lab == g
    requires Captured(shots, n) > 0
    ensures AverageCapture(shots, n).Some? && AverageCapture(shots, n).value.0 == g
  {
    var k := Captured(shots, n);
    SumOfCopies(Labs(shots, k), g);
    var m := ScaleGrid(ScaleGrid(g, k as real), 1.0 / k as real);
    forall i | 0 <= i < CellCount ensures m[i] == g[i] {
      ScaleInverse(g[i], k as real);
    }
  }
}
