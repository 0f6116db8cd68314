/**
 * Turning a grid of per-cell changes into one (source, destination) pair
 * of squares.  Two schemes exist:
 *
 *  - the scored scheme: an adaptive threshold over the a,b chroma
 *    deviations, the six most-changed cells as candidates, every pair of
 *    candidates scored in both directions with bonuses for a piece of the
 *    side that moved and for an empty or enemy destination, and the two
 *    most-changed cells as fallback;
 *  - the pair-picker scheme: detrended LAB deltas handed to a pair picker,
 *    with the two most-changed cells as fallback.
 */
module Resolve {
  import opened Wrappers
  import opened Board
  import opened Notation
  import opened Colour
  import opened Ranking
  import opened Numeric

  /** The square of a flattened cell index, `(idx // 8, idx % 8)`. */
  function CellPos(idx: int): Pos
  {
    Pos(idx / 8, idx % 8)
  }

  /** Cell indices 0..63 decode to distinct squares of the board. */
  lemma CellPosOnBoard(idx: int)
    requires 0 <= idx < CellCount
    ensures OnBoard(CellPos(idx)) && 8 * CellPos(idx).r + CellPos(idx).c == idx
  {
  }

  lemma CellPosInjective(i: int, j: int)
    requires 0 <= i < CellCount && 0 <= j < CellCount && i != j
    ensures CellPos(i) != CellPos(j)
  {
    CellPosOnBoard(i);
    CellPosOnBoard(j);
  }

  /** The population variance, whose square root is `x.std()`. */
  function Variance(xs: seq<real>): real
    requires |xs| > 0
  {
    var mu := MeanR(xs);
    MeanR(seq(|xs|, k requires 0 <= k < |xs| => (xs[k] - mu) * (xs[k] - mu)))
  }

  /** The adaptive threshold `max(3.0, mean + 0.75 * std)`; `sqrt` is the library square root. */
  function AdaptiveThreshold(dev: seq<real>, sqrt: real -> real): real
    requires |dev| > 0
  {
    var t := MeanR(dev) + 0.75 * sqrt(Variance(dev));
    if t > 3.0 then t else 3.0
  }

  /** The threshold is never below 3.0 nor below the mean plus three quarters of the deviation. */
  lemma ThresholdFloor(dev: seq<real>, sqrt: real -> real)
    requires |dev| > 0
    ensures AdaptiveThreshold(dev, sqrt) >= 3.0
    ensures AdaptiveThreshold(dev, sqrt) >= MeanR(dev) + 0.75 * sqrt(Variance(dev))
    ensures AdaptiveThreshold(dev, sqrt) == 3.0 || AdaptiveThreshold(dev, sqrt) == MeanR(dev) + 0.75 * sqrt(Variance(dev))
  {
  }

  /** When nothing changed (all deviations zero) the threshold is exactly 3.0. */
  lemma QuietBoardThreshold(dev: seq<real>, sqrt: real -> real)
    requires |dev| > 0 && forall k :: 0 <= k < |dev| ==> dev[k] == 0.0
    requires sqrt(0.0) == 0.0
    ensures AdaptiveThreshold(dev, sqrt) == 3.0
  {
    SumOfZeros(dev);
    assert MeanR(dev) == 0.0;
    var sq := seq(|dev|, k requires 0 <= k < |dev| => (dev[k] - MeanR(dev)) * (dev[k] - MeanR(dev)));
    SumOfZeros(sq);
  }

  /** The a,b-only deviation of each cell from the baseline, `norm(curr[..,1:3] - prev[..,1:3])`. */
  function ChromaDeviation(curr: CellGrid, prev: CellGrid, norm: Color3 -> real): (dev: seq<real>)
    ensures |dev| == CellCount
    ensures forall k :: 0 <= k < CellCount ==> dev[k] == norm(curr[k].Minus(prev[k]).Chroma())
  {
    seq(CellCount, k requires 0 <= k < CellCount => norm(curr[k].Minus(prev[k]).Chroma()))
  }

  /** The number of candidate cells the scored scheme considers. */
  const TopCandidates := 6

  /** A candidate cell with its deviation. */
  datatype Cand = Cand(pos: Pos, dev: real)

  /** `[(idx // 8, idx % 8, flat[idx]) for idx in order[:6]]` */
  function Candidates(dev: seq<real>): (c: seq<Cand>)
    requires |dev| == CellCount
    ensures |c| == TopCandidates
  {
    var o := ArgsortDesc(dev);
    seq(TopCandidates, k requires 0 <= k < TopCandidates => Cand(CellPos(o[k]), dev[o[k]]))
  }

  /**
   * The candidates are six distinct squares of the board, each carrying
   * its own cell's deviation, in descending order of deviation.
   */
  lemma CandidatesDescending(dev: seq<real>)
    requires |dev| == CellCount
    ensures var c := Candidates(dev);
      (forall k :: 0 <= k < |c| ==> OnBoard(c[k].pos) && c[k].dev == dev[8 * c[k].pos.r + c[k].pos.c])
      && (forall j, k :: 0 <= j < k < |c| ==> c[j].pos != c[k].pos && c[j].dev >= c[k].dev)
  {
    var o := ArgsortDesc(dev);
    var c := Candidates(dev);
    ArgsortRanked(dev);
    forall k | 0 <= k < |c| ensures OnBoard(c[k].pos) && c[k].dev == dev[8 * c[k].pos.r + c[k].pos.c] {
      CellPosOnBoard(o[k]);
    }
    forall j, k | 0 <= j < k < |c| ensures c[j].pos != c[k].pos && c[j].dev >= c[k].dev {
      assert Before(dev, o[j], o[k]);
      CellPosInjective(o[j], o[k]);
    }
  }

  /** In a ranked order, an entry of larger value than the entry at `q` sits before `q`. */
  lemma RankedEarlier(x: seq<real>, o: seq<int>, q: int, p: int)
    requires Ranked(x, o) && 0 <= q < |o| && 0 <= p < |o| && x[o[p]] > x[o[q]]
    ensures p < q
  {
  }

  /** Every cell left out of the candidates changed no more than the last candidate. */
  lemma CandidatesDominate(dev: seq<real>)
    requires |dev| == CellCount
    ensures var c := Candidates(dev);
      forall i :: 0 <= i < CellCount && dev[i] > c[|c| - 1].dev ==> exists k :: 0 <= k < |c| && c[k].pos == CellPos(i)
  {
    var o := ArgsortDesc(dev);
    var c := Candidates(dev);
    ArgsortRanked(dev);
    forall i | 0 <= i < CellCount && dev[i] > c[|c| - 1].dev ensures exists k :: 0 <= k < |c| && c[k].pos == CellPos(i) {
      assert i in o;
      var p :| 0 <= p < |o| && o[p] == i;
      RankedEarlier(dev, o, TopCandidates - 1, p);
      assert c[p].pos == CellPos(i);
    }
  }

  /** The piece code on an on-board square, `''` off the board. */
  function Occupant(before: Grid, p: Pos): string
    requires IsBoard(before)
  {
    if OnBoard(p) then At(before, p) else ""
  }

  /**
   * `pair_score`: the two changes weighted 1.0 and 0.8, +2 when the source
   * holds a piece of the side that moved, +1 when the destination is empty
   * or holds a piece of the other colour letter, -100 for the same square.
   */
  function PairScore(before: Grid, mover: string, src: Pos, dst: Pos, ds: real, dd: real): real
    requires IsBoard(before)
  {
    var psrc := Occupant(before, src);
    var pdst := Occupant(before, dst);
    1.0 * ds + 0.8 * dd
    + (if IsColorPiece(psrc, mover) then 2.0 else 0.0)
    + (if pdst == "" || (psrc != "" && pdst != "" && psrc[0] != pdst[0]) then 1.0 else 0.0)
    - (if src == dst then 100.0 else 0.0)
  }

  /**
   * The score's direction preference: when one square holds a piece of the
   * side that moved and the other is empty, moving the piece onto the empty
   * square outscores the reverse unless the empty square changed by 15 or
   * more than the occupied one.
   */
  lemma ScoreFavoursMoverToEmpty(before: Grid, mover: string, a: Pos, b: Pos, da: real, db: real)
    requires IsBoard(before) && OnBoard(a) && OnBoard(b)
    requires IsColorPiece(At(before, a), mover) && At(before, b) == ""
    requires db - da < 15.0
    ensures PairScore(before, mover, a, b, da, db) > PairScore(before, mover, b, a, db, da)
  {
  }

  /** One scored direction of a candidate pair. */
  datatype Try = Try(score: real, src: Pos, dst: Pos)

  /** The two directions of pair (a, b), or nothing when both changes are below the threshold. */
  function PairTries(c: seq<Cand>, thr: real, before: Grid, mover: string, a: nat, b: nat): (ts: seq<Try>)
    requires IsBoard(before) && a < |c| && b < |c|
    ensures |ts| == 0 || |ts| == 2
  {
    if c[a].dev < thr && c[b].dev < thr then []
    else [Try(PairScore(before, mover, c[a].pos, c[b].pos, c[a].dev, c[b].dev), c[a].pos, c[b].pos),
          Try(PairScore(before, mover, c[b].pos, c[a].pos, c[b].dev, c[a].dev), c[b].pos, c[a].pos)]
  }

  /** The tries of pairs (a, a+1), ..., (a, b-1), in loop order. */
  function RowTries(c: seq<Cand>, thr: real, before: Grid, mover: string, a: nat, b: nat): seq<Try>
    requires IsBoard(before) && a < b <= |c|
    decreases b
  {
    if b == a + 1 then [] else RowTries(c, thr, before, mover, a, b - 1) + PairTries(c, thr, before, mover, a, b - 1)
  }

  /** The tries of every pair whose first index is below `a`, in loop order. */
  function AllTries(c: seq<Cand>, thr: real, before: Grid, mover: string, a: nat): seq<Try>
    requires IsBoard(before) && a <= |c|
  {
    if a == 0 then [] else AllTries(c, thr, before, mover, a - 1) + RowTries(c, thr, before, mover, a - 1, |c|)
  }

  /** `if best is None or s > best[0]: best = ...` */
  function Step(best: Option<Try>, t: Try): (r: Option<Try>)
    ensures r.Some?
  {
    if best.None? || t.score > best.value.score then Some(t) else best
  }

  /** The running best after a sequence of tries. */
  function Best(ts: seq<Try>): Option<Try>
  {
    if |ts| == 0 then None else Step(Best(ts[..|ts| - 1]), ts[|ts| - 1])
  }

  /**
   * The kept try is a try of greatest score, the first one reaching it:
   * every earlier try scores strictly less.  There is none only when
   * nothing was tried.
   */
  lemma {:induction false} BestIsFirstMaximum(ts: seq<Try>)
    ensures Best(ts).None? <==> ts == []
    ensures Best(ts).Some? ==> forall j :: 0 <= j < |ts| ==> ts[j].score <= Best(ts).value.score
    ensures Best(ts).Some? ==> exists k :: (0 <= k < |ts| && ts[k] == Best(ts).value
      && forall j :: 0 <= j < k ==> ts[j].score < ts[k].score)
  {
    if |ts| > 0 {
      var init := ts[..|ts| - 1];
      var t := ts[|ts| - 1];
      BestIsFirstMaximum(init);
      if Best(init).None? || t.score > Best(init).value.score {
        forall j | 0 <= j < |ts| - 1 ensures ts[j].score < t.score {
          assert ts[j] == init[j];
        }
      } else {
        var k :| 0 <= k < |init| && init[k] == Best(init).value && forall j :: 0 <= j < k ==> init[j].score < init[k].score;
        assert ts[k] == init[k];
        forall j | 0 <= j < k ensures ts[j].score < ts[k].score {
          assert ts[j] == init[j];
        }
        forall j | 0 <= j < |ts| - 1 ensures ts[j].score <= Best(ts).value.score {
          assert ts[j] == init[j];
        }
      }
    }
  }

  lemma BestSnoc2(ts: seq<Try>, t1: Try, t2: Try)
    ensures Best(ts + [t1, t2]) == Step(Step(Best(ts), t1), t2)
  {
    var u := ts + [t1];
    var v := u + [t2];
    assert ts + [t1, t2] == v;
    assert v[..|v| - 1] == u;
    assert u[..|u| - 1] == ts;
  }

  /** One more pair of the inner loop appends that pair's tries. */
  lemma RowTriesSnoc(c: seq<Cand>, thr: real, before: Grid, mover: string, a: nat, b: nat, seen: seq<Try>)
    requires IsBoard(before) && a < b < |c|
    ensures seen + RowTries(c, thr, before, mover, a, b + 1)
         == (seen + RowTries(c, thr, before, mover, a, b)) + PairTries(c, thr, before, mover, a, b)
  {
  }

  /** One pass of the inner loop: pairs (a, a+1), ..., (a, |c|-1) folded into the running best. */
  method ScanRow(c: seq<Cand>, thr: real, before: Grid, mover: string, a: nat, best0: Option<Try>, ghost seen: seq<Try>)
      returns (best: Option<Try>)
    requires IsBoard(before) && a < |c| && best0 == Best(seen)
    ensures best == Best(seen + RowTries(c, thr, before, mover, a, |c|))
  {
    best := best0;
    var b := a + 1;
    assert seen + RowTries(c, thr, before, mover, a, b) == seen;
    while b < |c|
      invariant a + 1 <= b <= |c|
      invariant best == Best(seen + RowTries(c, thr, before, mover, a, b))
    {
      ghost var prefix := seen + RowTries(c, thr, before, mover, a, b);
      ghost var pair := PairTries(c, thr, before, mover, a, b);
      RowTriesSnoc(c, thr, before, mover, a, b, seen);
      if !(c[a].dev < thr && c[b].dev < thr) {
        var s1 := PairScore(before, mover, c[a].pos, c[b].pos, c[a].dev, c[b].dev);
        var s2 := PairScore(before, mover, c[b].pos, c[a].pos, c[b].dev, c[a].dev);
        BestSnoc2(prefix, Try(s1, c[a].pos, c[b].pos), Try(s2, c[b].pos, c[a].pos));
        if best.None? || s1 > best.value.score {
          best := Some(Try(s1, c[a].pos, c[b].pos));
        }
        if s2 > best.value.score {
          best := Some(Try(s2, c[b].pos, c[a].pos));
        }
      } else {
        assert prefix + pair == prefix;
      }
      b := b + 1;
    }
  }

  /** The nested loop over candidate pairs that keeps the running best try. */
  method BestPair(c: seq<Cand>, thr: real, before: Grid, mover: string) returns (best: Option<Try>)
    requires IsBoard(before)
    ensures best == Best(AllTries(c, thr, before, mover, |c|))
  {
    best := None;
    var a := 0;
    while a < |c|
      invariant 0 <= a <= |c|
      invariant best == Best(AllTries(c, thr, before, mover, a))
    {
      best := ScanRow(c, thr, before, mover, a, best, AllTries(c, thr, before, mover, a));
      a := a + 1;
    }
  }

  /** Every try of a row comes from a pair (a, b) with a < b. */
  lemma {:induction false} RowTriesFrom(c: seq<Cand>, thr: real, before: Grid, mover: string, a: nat, b: nat)
    requires IsBoard(before) && a < b <= |c|
    ensures forall t :: t in RowTries(c, thr, before, mover, a, b) ==>
      exists i, j :: 0 <= i < j < |c| && ((t.src == c[i].pos && t.dst == c[j].pos) || (t.src == c[j].pos && t.dst == c[i].pos))
    decreases b
  {
    if b > a + 1 {
      RowTriesFrom(c, thr, before, mover, a, b - 1);
    }
  }

  lemma {:induction false} AllTriesFrom(c: seq<Cand>, thr: real, before: Grid, mover: string, a: nat)
    requires IsBoard(before) && a <= |c|
    ensures forall t :: t in AllTries(c, thr, before, mover, a) ==>
      exists i, j :: 0 <= i < j < |c| && ((t.src == c[i].pos && t.dst == c[j].pos) || (t.src == c[j].pos && t.dst == c[i].pos))
  {
    if a > 0 {
      AllTriesFrom(c, thr, before, mover, a - 1);
      RowTriesFrom(c, thr, before, mover, a - 1, |c|);
    }
  }

  /** With every candidate below the threshold nothing is scored. */
  lemma {:induction false} QuietRows(c: seq<Cand>, thr: real, before: Grid, mover: string, a: nat)
    requires IsBoard(before) && a <= |c|
    requires forall k :: 0 <= k < |c| ==> c[k].dev < thr
    ensures AllTries(c, thr, before, mover, a) == []
  {
    if a > 0 {
      QuietRows(c, thr, before, mover, a - 1);
      QuietRow(c, thr, before, mover, a - 1, |c|);
    }
  }

  lemma {:induction false} QuietRow(c: seq<Cand>, thr: real, before: Grid, mover: string, a: nat, b: nat)
    requires IsBoard(before) && a < b <= |c|
    requires forall k :: 0 <= k < |c| ==> c[k].dev < thr
    ensures RowTries(c, thr, before, mover, a, b) == []
    decreases b
  {
    if b > a + 1 {
      QuietRow(c, thr, before, mover, a, b - 1);
    }
  }

  /** When the first candidate reaches the threshold, pair (0, 1) is scored. */
  lemma {:induction false} LoudFirstRow(c: seq<Cand>, thr: real, before: Grid, mover: string, b: nat)
    requires IsBoard(before) && 2 <= b <= |c| && c[0].dev >= thr
    ensures RowTries(c, thr, before, mover, 0, b) != []
    decreases b
  {
    if b > 2 {
      LoudFirstRow(c, thr, before, mover, b - 1);
    }
  }

  lemma {:induction false} LoudAll(c: seq<Cand>, thr: real, before: Grid, mover: string, a: nat)
    requires IsBoard(before) && 1 <= a <= |c| && |c| >= 2 && c[0].dev >= thr
    ensures AllTries(c, thr, before, mover, a) != []
  {
    if a == 1 {
      LoudFirstRow(c, thr, before, mover, |c|);
    } else {
      LoudAll(c, thr, before, mover, a - 1);
    }
  }

  /**
   * The (source, destination) squares the scored scheme settles on: the
   * best try, or the two most-changed cells when no pair was scored.
   */
  function ScoredMove(dev: seq<real>, thr: real, before: Grid, mover: string): (Pos, Pos)
    requires |dev| == CellCount && IsBoard(before)
  {
    var best := Best(AllTries(Candidates(dev), thr, before, mover, TopCandidates));
    if best.None? then
      var o := ArgsortDesc(dev);
      (CellPos(o[0]), CellPos(o[1]))
    else (best.value.src, best.value.dst)
  }

  /** The scored scheme always yields two distinct squares of the board, so the same-square penalty never decides anything. */
  lemma ScoredMoveDistinct(dev: seq<real>, thr: real, before: Grid, mover: string)
    requires |dev| == CellCount && IsBoard(before)
    ensures OnBoard(ScoredMove(dev, thr, before, mover).0) && OnBoard(ScoredMove(dev, thr, before, mover).1)
    ensures ScoredMove(dev, thr, before, mover).0 != ScoredMove(dev, thr, before, mover).1
  {
    var c := Candidates(dev);
    var ts := AllTries(c, thr, before, mover, TopCandidates);
    var best := Best(ts);
    if best.None? {
      var o := ArgsortDesc(dev);
      TopTwo(dev);
      CellPosInjective(o[0], o[1]);
      CellPosOnBoard(o[0]);
      CellPosOnBoard(o[1]);
    } else {
      BestIsFirstMaximum(ts);
      var k :| 0 <= k < |ts| && ts[k] == best.value;
      AllTriesFrom(c, thr, before, mover, TopCandidates);
      assert ts[k] in ts;
      CandidatesDescending(dev);
    }
  }

  /** Some pair is scored exactly when some cell's change reaches the threshold. */
  lemma ScoredIffLoud(dev: seq<real>, thr: real, before: Grid, mover: string)
    requires |dev| == CellCount && IsBoard(before)
    ensures AllTries(Candidates(dev), thr, before, mover, TopCandidates) == [] <==> forall i :: 0 <= i < CellCount ==> dev[i] < thr
  {
    var c := Candidates(dev);
    var o := ArgsortDesc(dev);
    TopTwo(dev);
    if c[0].dev >= thr {
      LoudAll(c, thr, before, mover, TopCandidates);
      assert !(dev[o[0]] < thr);
    } else {
      forall k | 0 <= k < |c| ensures c[k].dev < thr {
        CandidatesDescending(dev);
      }
      QuietRows(c, thr, before, mover, TopCandidates);
      forall i | 0 <= i < CellCount ensures dev[i] < thr {
        assert dev[i] <= dev[o[0]];
      }
    }
  }

  /**
   * The scored scheme falls back to the two most-changed cells exactly
   * when nothing was scored; otherwise it takes a try of the greatest
   * score, the first one found.
   */
  lemma ScoredMoveChoice(dev: seq<real>, thr: real, before: Grid, mover: string)
    requires |dev| == CellCount && IsBoard(before)
    ensures var ts := AllTries(Candidates(dev), thr, before, mover, TopCandidates);
      ts == [] ==> ScoredMove(dev, thr, before, mover) == (CellPos(ArgsortDesc(dev)[0]), CellPos(ArgsortDesc(dev)[1]))
    ensures var ts := AllTries(Candidates(dev), thr, before, mover, TopCandidates);
      ts != [] ==> exists k :: (0 <= k < |ts| && (ts[k].src, ts[k].dst) == ScoredMove(dev, thr, before, mover)
        && (forall j :: 0 <= j < |ts| ==> ts[j].score <= ts[k].score)
        && (forall j :: 0 <= j < k ==> ts[j].score < ts[k].score))
  {
    var ts := AllTries(Candidates(dev), thr, before, mover, TopCandidates);
    BestIsFirstMaximum(ts);
  }

  /** The pair pickers a turn transition can be handed: `_pair_moves` or `_fallback_pair_moves`. */
  datatype PairPicker = StrictPicker | FallbackPicker

  /** The pairs the picker proposes for the flattened norms. */
  function PickPairs(p: PairPicker, norms: seq<real>, thr: real): (pairs: seq<(int, int)>)
    ensures |pairs| <= 1
  {
    match p
    case StrictPicker => PairMoves(norms, thr)
    case FallbackPicker => FirstPair(FallbackCandidates(norms, thr))
  }

  /** `src, dst` decoded from the first proposed pair, or the two highest-norm cells when none is proposed. */
  function PickedMove(p: PairPicker, norms: seq<real>, thr: real): (Pos, Pos)
    requires |norms| == CellCount
  {
    var pairs := PickPairs(p, norms, thr);
    if |pairs| > 0 then (CellPos(pairs[0].0), CellPos(pairs[0].1))
    else
      var o := ArgsortDesc(norms);
      (CellPos(o[0]), CellPos(o[1]))
  }

  /**
   * Whatever the picker and the threshold, the resolved squares are the two
   * highest-norm cells, highest first: two distinct squares of the board.
   */
  lemma PickedMoveIsTopTwo(p: PairPicker, norms: seq<real>, thr: real)
    requires |norms| == CellCount
    ensures var o := ArgsortDesc(norms);
      PickedMove(p, norms, thr) == (CellPos(o[0]), CellPos(o[1]))
    ensures OnBoard(PickedMove(p, norms, thr).0) && OnBoard(PickedMove(p, norms, thr).1)
    ensures PickedMove(p, norms, thr).0 != PickedMove(p, norms, thr).1
    ensures var (src, dst) := PickedMove(p, norms, thr);
      norms[8 * src.r + src.c] >= norms[8 * dst.r + dst.c]
      && forall k :: 0 <= k < CellCount && CellPos(k) != src ==> norms[k] <= norms[8 * dst.r + dst.c]
  {
    var o := ArgsortDesc(norms);
    match p {
      case StrictPicker => PairMovesIsTopPair(norms, thr);
      case FallbackPicker => FallbackCandidatesTop(norms, thr);
    }
    TopTwo(norms);
    CellPosOnBoard(o[0]);
    CellPosOnBoard(o[1]);
    CellPosInjective(o[0], o[1]);
    forall k | 0 <= k < CellCount && CellPos(k) != CellPos(o[0]) ensures norms[k] <= norms[o[1]] {
      assert k != o[0];
    }
  }
}
