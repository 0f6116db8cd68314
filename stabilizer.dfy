// Temporal smoothing of detected board corners: the `CornerStabilizer`
// (bounded history, per-coordinate median, EMA, jump rejection and a
// `good_run` gate) and the "hold the last good corners for N frames" state
// machine wrapped around it.

module Stabilizer {
  import opened Wrappers
  import opened Geometry
  import opened Ranking

  // ---------------------------------------------------------------- median

  /** `np.median` of a non-empty sample: the middle value, or the mean of the two middle values. */
  function Median(xs: seq<real>): real
    requires |xs| > 0
  {
    var o := ArgsortDesc(xs);
    var n := |xs|;
    if n % 2 == 1 then xs[o[n / 2]] else (xs[o[n / 2 - 1]] + xs[o[n / 2]]) / 2.0
  }

  /** At least half of the sample (in sorted order) lies on each side of the median. */
  lemma MedianSplits(xs: seq<real>)
    requires |xs| > 0
    ensures var o := ArgsortDesc(xs);
      (forall p :: 0 <= p < (|xs| + 1) / 2 ==> xs[o[p]] >= Median(xs))
      && (forall p :: |xs| / 2 <= p < |xs| ==> xs[o[p]] <= Median(xs))
  {
    var o := ArgsortDesc(xs);
    var n := |xs|;
    ArgsortRanked(xs);
    if n % 2 == 0 {
      assert Before(xs, o[n / 2 - 1], o[n / 2]);
    }
    forall p | 0 <= p < (n + 1) / 2 ensures xs[o[p]] >= Median(xs) {
      if p < n / 2 {
        assert Before(xs, o[p], o[n / 2]);
      }
      if n % 2 == 0 && p < n / 2 - 1 {
        assert Before(xs, o[p], o[n / 2 - 1]);
      }
    }
    forall p | n / 2 <= p < n ensures xs[o[p]] <= Median(xs) {
      if p > n / 2 {
        assert Before(xs, o[n / 2], o[p]);
      }
      if n % 2 == 0 {
        assert Before(xs, o[n / 2 - 1], o[p]);
      }
    }
  }

  /** The median of a constant sample is that constant. */
  lemma MedianOfConstant(xs: seq<real>, c: real)
    requires |xs| > 0 && forall k :: 0 <= k < |xs| ==> xs[k] == c
    ensures Median(xs) == c
  {
    var o := ArgsortDesc(xs);
    var n := |xs|;
    assert xs[o[n / 2]] == c;
    if n % 2 == 0 {
      assert xs[o[n / 2 - 1]] == c;
    }
  }

  // ------------------------------------------------------------ corner sets

  predicate AllQuads(hist: seq<seq<Point>>)
  {
    forall k :: 0 <= k < |hist| ==> |hist[k]| == 4
  }

  function Xs(hist: seq<seq<Point>>, i: nat): (r: seq<real>)
    requires AllQuads(hist) && i < 4
    ensures |r| == |hist|
  {
    seq(|hist|, k requires 0 <= k < |hist| => hist[k][i].x)
  }

  function Ys(hist: seq<seq<Point>>, i: nat): (r: seq<real>)
    requires AllQuads(hist) && i < 4
    ensures |r| == |hist|
  {
    seq(|hist|, k requires 0 <= k < |hist| => hist[k][i].y)
  }

  /** `np.median(np.stack(hist), axis=0)`: each corner coordinate is the median over the history. */
  function MedianQuad(hist: seq<seq<Point>>): (r: seq<Point>)
    requires |hist| > 0 && AllQuads(hist)
    ensures |r| == 4
  {
    seq(4, i requires 0 <= i < 4 => Point(Median(Xs(hist, i)), Median(Ys(hist, i))))
  }

  /** A history holding one corner set throughout has that set as its median. */
  lemma MedianQuadOfConstant(hist: seq<seq<Point>>, q: seq<Point>)
    requires |hist| > 0 && |q| == 4 && forall k :: 0 <= k < |hist| ==> hist[k] == q
    ensures MedianQuad(hist) == q
  {
    forall i | 0 <= i < 4 ensures MedianQuad(hist)[i] == q[i] {
      MedianOfConstant(Xs(hist, i), q[i].x);
      MedianOfConstant(Ys(hist, i), q[i].y);
    }
  }

  /** `alpha * med + (1 - alpha) * ema`, corner by corner. */
  function Blend(alpha: real, med: seq<Point>, ema: seq<Point>): (r: seq<Point>)
    requires |med| == 4 && |ema| == 4
    ensures |r| == 4
  {
    seq(4, i requires 0 <= i < 4 =>
      Point(alpha * med[i].x + (1.0 - alpha) * ema[i].x, alpha * med[i].y + (1.0 - alpha) * ema[i].y))
  }

  /** Blending a corner set with itself leaves it unchanged, whatever the weight. */
  lemma BlendSame(alpha: real, q: seq<Point>)
    requires |q| == 4
    ensures Blend(alpha, q, q) == q
  {
    forall i | 0 <= i < 4 ensures Blend(alpha, q, q)[i] == q[i] {
      assert alpha * q[i].x + (1.0 - alpha) * q[i].x == q[i].x;
      assert alpha * q[i].y + (1.0 - alpha) * q[i].y == q[i].y;
    }
  }

  /** `np.linalg.norm(a - b, axis=1).mean()`: the mean distance between matching corners. */
  function MeanCornerDistance(a: seq<Point>, b: seq<Point>, dist: (Point, Point) -> real): real
    requires |a| == 4 && |b| == 4
  {
    (dist(a[0], b[0]) + dist(a[1], b[1]) + dist(a[2], b[2]) + dist(a[3], b[3])) / 4.0
  }

  /** `deque.append` on a deque with `maxlen = cap`: the oldest entry is evicted when full. */
  function Push<T>(s: seq<T>, x: T, cap: nat): (r: seq<T>)
    requires 1 <= cap && |s| <= cap
    ensures |r| == if |s| < cap then |s| + 1 else cap
    ensures 1 <= |r| <= cap && r[|r| - 1] == x
    ensures r == (s + [x])[|s| + 1 - |r|..]
  {
    if |s| < cap then s + [x] else s[1..] + [x]
  }

  // ------------------------------------------------------------- the state

  /** Constructor arguments, plus whether a rejected jump also resets `good_run`. */
  datatype StabConfig = StabConfig(histLen: nat, alpha: real, maxJump: real, needGood: nat, jumpResets: bool)

  /** The defaults `hist_len=7, ema_alpha=0.35, max_jump=60.0, need_good=3`; a jump keeps `good_run`. */
  const DefaultStab := StabConfig(7, 0.35, 60.0, 3, false)
  /** mjpg/warp_cam_picam2.py: same defaults, but a jump resets `good_run`. */
  const ResettingStab := StabConfig(7, 0.35, 60.0, 3, true)
  /** CV/warp_cam_picam2_v2.py's and warp_cam_picam2_stable_v2.py's `main`. */
  const StrictStab := StabConfig(7, 0.3, 50.0, 3, false)

  datatype Track = Track(hist: seq<seq<Point>>, ema: Option<seq<Point>>, goodRun: nat)

  /** The invariant the stabiliser keeps: a bounded history of corner sets, EMA set exactly once something was accepted, `good_run <= need_good`. */
  predicate Wf(cfg: StabConfig, t: Track)
  {
    1 <= cfg.histLen && |t.hist| <= cfg.histLen && AllQuads(t.hist)
    && (t.ema.Some? <==> |t.hist| > 0)
    && (t.ema.Some? ==> |t.ema.value| == 4)
    && t.goodRun <= cfg.needGood
  }

  const Fresh := Track([], None, 0)

  /** `get`: the EMA once it exists and `good_run` has reached `need_good`. */
  function Output(cfg: StabConfig, t: Track): Option<seq<Point>>
  {
    if t.ema.None? || t.goodRun < cfg.needGood then None else t.ema
  }

  predicate IsJump(cfg: StabConfig, t: Track, c: seq<Point>, dist: (Point, Point) -> real)
    requires Wf(cfg, t) && |c| == 4
  {
    t.ema.Some? && MeanCornerDistance(t.ema.value, c, dist) > cfg.maxJump
  }

  /** `update`: the new state after one candidate. */
  function Next(cfg: StabConfig, t: Track, corners: Option<seq<Point>>, dist: (Point, Point) -> real): Track
    requires Wf(cfg, t)
  {
    if corners.None? || |corners.value| != 4 then t.(goodRun := 0)
    else if IsJump(cfg, t, corners.value, dist) then
      if cfg.jumpResets then t.(goodRun := 0) else t
    else
      var hist := Push(t.hist, corners.value, cfg.histLen);
      var med := MedianQuad(hist);
      Track(hist, Some(if t.ema.None? then med else Blend(cfg.alpha, med, t.ema.value)),
            if t.goodRun + 1 < cfg.needGood then t.goodRun + 1 else cfg.needGood)
  }

  predicate Accepts(cfg: StabConfig, t: Track, corners: Option<seq<Point>>, dist: (Point, Point) -> real)
    requires Wf(cfg, t)
  {
    corners.Some? && |corners.value| == 4 && !IsJump(cfg, t, corners.value, dist)
  }

  /** Every update keeps the invariant. */
  lemma NextKeepsWf(cfg: StabConfig, t: Track, corners: Option<seq<Point>>, dist: (Point, Point) -> real)
    requires Wf(cfg, t)
    ensures Wf(cfg, Next(cfg, t, corners, dist))
  {
    if Accepts(cfg, t, corners, dist) {
      PushQuads(t.hist, corners.value, cfg.histLen);
    }
  }

  /** Pushing a corner set onto a history of corner sets keeps it one. */
  lemma PushQuads(hist: seq<seq<Point>>, c: seq<Point>, cap: nat)
    requires 1 <= cap && |hist| <= cap && AllQuads(hist) && |c| == 4
    ensures AllQuads(Push(hist, c, cap))
  {
    var h := Push(hist, c, cap);
    forall k | 0 <= k < |h| ensures |h[k]| == 4 {
      assert h[k] == (hist + [c])[|hist| + 1 - |h| + k];
    }
  }

  /** A missing or mis-shaped candidate zeroes `good_run`, keeps history and EMA, and silences the output. */
  lemma RejectedCandidate(cfg: StabConfig, t: Track, corners: Option<seq<Point>>, dist: (Point, Point) -> real)
    requires Wf(cfg, t) && (corners.None? || |corners.value| != 4)
    ensures var n := Next(cfg, t, corners, dist);
      n.hist == t.hist && n.ema == t.ema && n.goodRun == 0
      && (cfg.needGood > 0 ==> Output(cfg, n).None?)
  {
  }

  /** A candidate too far from the EMA is ignored; only the resetting variant also zeroes `good_run`. */
  lemma JumpIgnored(cfg: StabConfig, t: Track, c: seq<Point>, dist: (Point, Point) -> real)
    requires Wf(cfg, t) && |c| == 4 && t.ema.Some?
    requires MeanCornerDistance(t.ema.value, c, dist) > cfg.maxJump
    ensures var n := Next(cfg, t, Some(c), dist);
      n.hist == t.hist && n.ema == t.ema
      && n.goodRun == (if cfg.jumpResets then 0 else t.goodRun)
  {
  }

  /** An accepted candidate is pushed onto the bounded history (see `Push`), `good_run` grows by one up to `need_good`, and the EMA is set. */
  lemma AcceptedCandidate(cfg: StabConfig, t: Track, c: seq<Point>, dist: (Point, Point) -> real)
    requires Wf(cfg, t) && Accepts(cfg, t, Some(c), dist)
    ensures Next(cfg, t, Some(c), dist).hist == Push(t.hist, c, cfg.histLen)
    ensures Next(cfg, t, Some(c), dist).goodRun == (if t.goodRun + 1 < cfg.needGood then t.goodRun + 1 else cfg.needGood)
    ensures Next(cfg, t, Some(c), dist).ema.Some?
  {
  }

  /** The first accepted corner set becomes the EMA as it is. */
  lemma FirstAcceptSetsEma(cfg: StabConfig, t: Track, c: seq<Point>, dist: (Point, Point) -> real)
    requires Wf(cfg, t) && t.ema.None? && |c| == 4
    ensures Next(cfg, t, Some(c), dist).ema == Some(c)
  {
    var hist := Push(t.hist, c, cfg.histLen);
    assert hist == [c];
    MedianQuadOfConstant(hist, c);
  }

  /** Once the history and the EMA both hold one corner set, feeding that set again changes neither. */
  lemma SteadyCorners(cfg: StabConfig, t: Track, q: seq<Point>, dist: (Point, Point) -> real)
    requires Wf(cfg, t) && |q| == 4 && t.ema == Some(q)
    requires forall k :: 0 <= k < |t.hist| ==> t.hist[k] == q
    requires MeanCornerDistance(q, q, dist) <= cfg.maxJump
    ensures var n := Next(cfg, t, Some(q), dist);
      n.ema == Some(q) && forall k :: 0 <= k < |n.hist| ==> n.hist[k] == q
  {
    var n := Next(cfg, t, Some(q), dist);
    forall k | 0 <= k < |n.hist| ensures n.hist[k] == q {
      assert n.hist[k] == (t.hist + [q])[|t.hist| + 1 - |n.hist| + k];
    }
    MedianQuadOfConstant(n.hist, q);
    BlendSame(cfg.alpha, q);
  }

  /** The state after a sequence of candidates. */
  function Feed(cfg: StabConfig, t: Track, cs: seq<Option<seq<Point>>>, dist: (Point, Point) -> real): (r: Track)
    requires Wf(cfg, t)
    ensures Wf(cfg, r)
    decreases |cs|
  {
    NextKeepsWf(cfg, t, if cs == [] then None else cs[0], dist);
    if cs == [] then t else Feed(cfg, Next(cfg, t, cs[0], dist), cs[1..], dist)
  }

  /** Every candidate of the sequence is accepted in turn. */
  predicate AllAccepted(cfg: StabConfig, t: Track, cs: seq<Option<seq<Point>>>, dist: (Point, Point) -> real)
    requires Wf(cfg, t)
    decreases |cs|
  {
    NextKeepsWf(cfg, t, if cs == [] then None else cs[0], dist);
    cs == [] || (Accepts(cfg, t, cs[0], dist) && AllAccepted(cfg, Next(cfg, t, cs[0], dist), cs[1..], dist))
  }

  /** `good_run` counts consecutive accepted candidates up to `need_good`, so `need_good` of them in a row make `get` produce corners. */
  lemma {:induction false} ReadyAfterRun(cfg: StabConfig, t: Track, cs: seq<Option<seq<Point>>>, dist: (Point, Point) -> real)
    requires Wf(cfg, t) && AllAccepted(cfg, t, cs, dist)
    ensures var r := Feed(cfg, t, cs, dist);
      r.goodRun == (if t.goodRun + |cs| < cfg.needGood then t.goodRun + |cs| else cfg.needGood)
      && (|cs| > 0 ==> r.ema.Some?)
      && (|cs| >= cfg.needGood && |cs| > 0 ==> Output(cfg, r) == r.ema && r.ema.Some?)
    decreases |cs|
  {
    if cs != [] {
      var n := Next(cfg, t, cs[0], dist);
      AcceptedCandidate(cfg, t, cs[0].value, dist);
      NextKeepsWf(cfg, t, cs[0], dist);
      ReadyAfterRun(cfg, n, cs[1..], dist);
    }
  }

  // ------------------------------------------------------------- the class

  class CornerStabilizer {
    const cfg: StabConfig
    /** `np.linalg.norm` of the difference of two corners. */
    const dist: (Point, Point) -> real
    var hist: seq<seq<Point>>
    var ema: Option<seq<Point>>
    var goodRun: nat

    function State(): Track
      reads this
    {
      Track(hist, ema, goodRun)
    }

    ghost predicate Valid()
      reads this
    {
      Wf(cfg, State())
    }

    constructor (cfg: StabConfig, dist: (Point, Point) -> real)
      requires cfg.histLen >= 1
      ensures this.cfg == cfg && this.dist == dist
      ensures State() == Fresh && Valid()
    {
      this.cfg := cfg;
      this.dist := dist;
      hist := [];
      ema := None;
      goodRun := 0;
    }

    function Get(): Option<seq<Point>>
      reads this
    {
      Output(cfg, State())
    }

    method Update(corners: Option<seq<Point>>) returns (out: Option<seq<Point>>)
      requires Valid()
      modifies this
      ensures Valid()
      ensures State() == Next(cfg, old(State()), corners, dist)
      ensures out == Output(cfg, State())
    {
      NextKeepsWf(cfg, State(), corners, dist);
      if corners.None? || |corners.value| != 4 {
        goodRun := 0;
        return Get();
      }
      var c := corners.value;
      if ema.Some? {
        var d := MeanCornerDistance(ema.value, c, dist);
        if d > cfg.maxJump {
          if cfg.jumpResets {
            goodRun := 0;
          }
          return Get();
        }
      }
      hist := Push(hist, c, cfg.histLen);
      goodRun := if goodRun + 1 < cfg.needGood then goodRun + 1 else cfg.needGood;
      var med := MedianQuad(hist);
      if ema.None? {
        ema := Some(med);
      } else {
        ema := Some(Blend(cfg.alpha, med, ema.value));
      }
      out := Get();
    }
  }

  // ------------------------------------------------------- holding corners

  datatype Hold = Hold(last: Option<seq<Point>>, counter: nat)

  /** One frame of the hold: a stable result is used and remembered; without one, the last good corners are reused while the counter is below the hold length. */
  function HoldNext(holdLen: nat, h: Hold, stable: Option<seq<Point>>): (Hold, Option<seq<Point>>)
  {
    if stable.Some? then (Hold(stable, 0), stable)
    else if h.last.Some? && h.counter < holdLen then (Hold(h.last, h.counter + 1), h.last)
    else (h, None)
  }

  /** `_HOLD_LAST_N_FRAMES` in mjpg/ and CV/warp_cam_picam2_v2.py; `HOLD_LAST_N_FRAMES` in CV/warp_cam_picam2.py. */
  const LongHold := 20
  const ShortHold := 15

  /** A fresh stable result is used, remembered and restarts the hold; the counter never exceeds the hold length. */
  lemma HoldFresh(holdLen: nat, h: Hold, stable: Option<seq<Point>>)
    requires h.counter <= holdLen
    ensures var (n, use) := HoldNext(holdLen, h, stable);
      n.counter <= holdLen
      && (stable.Some? ==> use == stable && n == Hold(stable, 0))
      && (use.Some? ==> use == stable || use == h.last)
  {
  }

  /** The outputs of `k` consecutive frames without a stable result. */
  function Misses(holdLen: nat, h: Hold, k: nat): (r: seq<Option<seq<Point>>>)
    ensures |r| == k
    decreases k
  {
    if k == 0 then [] else
      var (n, use) := HoldNext(holdLen, h, None);
      [use] + Misses(holdLen, n, k - 1)
  }

  /** Without a stable result, frame `i` reuses the last good corners exactly while `counter + i` is below the hold length, and yields None after that. */
  lemma {:induction false} HoldExpires(holdLen: nat, h: Hold, k: nat)
    ensures forall i :: 0 <= i < k ==>
      Misses(holdLen, h, k)[i] == (if h.last.Some? && h.counter + i < holdLen then h.last else None)
    decreases k
  {
    if k > 0 {
      var (n, use) := HoldNext(holdLen, h, None);
      HoldExpires(holdLen, n, k - 1);
      forall i | 0 <= i < k
        ensures Misses(holdLen, h, k)[i] == (if h.last.Some? && h.counter + i < holdLen then h.last else None)
      {
        if i > 0 {
          assert Misses(holdLen, h, k)[i] == Misses(holdLen, n, k - 1)[i - 1];
        }
      }
    }
  }

  class CornerHold {
    const holdLen: nat
    var last: Option<seq<Point>>
    var counter: nat

    function State(): Hold
      reads this
    {
      Hold(last, counter)
    }

    constructor (holdLen: nat)
      ensures this.holdLen == holdLen && State() == Hold(None, 0)
    {
      this.holdLen := holdLen;
      last := None;
      counter := 0;
    }

    method Use(stable: Option<seq<Point>>) returns (use: Option<seq<Point>>)
      modifies this
      ensures (State(), use) == HoldNext(holdLen, old(State()), stable)
    {
      if stable.Some? {
        use := stable;
        last := stable;
        counter := 0;
      } else if last.Some? && counter < holdLen {
        use := last;
        counter := counter + 1;
      } else {
        use := None;
      }
    }
  }

  /** A raw quad that fails the quadrilateral check never reaches the stabiliser. */
  function Screen(raw: Option<seq<Point>>, rule: QuadRule, dist: (Point, Point) -> real): (r: Option<seq<Point>>)
    ensures r.Some? ==> r == raw && IsValidQuad(raw, rule, dist)
    ensures r.None? ==> !IsValidQuad(raw, rule, dist)
  {
    if IsValidQuad(raw, rule, dist) then raw else None
  }

  /** `_safe_find_corners`: screen the raw quad, stabilise it, then apply the hold. */
  method SafeFindCorners(stab: CornerStabilizer, hold: CornerHold, raw: Option<seq<Point>>, rule: QuadRule)
      returns (use: Option<seq<Point>>)
    requires stab.Valid()
    modifies stab, hold
    ensures stab.Valid()
    ensures stab.State() == Next(stab.cfg, old(stab.State()), Screen(raw, rule, stab.dist), stab.dist)
    ensures (hold.State(), use) == HoldNext(hold.holdLen, old(hold.State()), stab.Get())
  {
    var screened := if IsValidQuad(raw, rule, stab.dist) then raw else None;
    var stable := stab.Update(screened);
    use := hold.Use(stable);
  }
}
