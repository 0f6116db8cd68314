// Change detection of the stand-alone piece detector: which cells differ
// from the stored baseline, the move it reports after a number of attempts,
// and the coordinate text its stream attaches to each frame.

module Detector {
  import opened Wrappers
  import opened Colour
  import opened Ranking
  import opened Board
  import opened Notation
  import opened Text
  import opened Resolve
  import opened Geometry
  import opened Streams

  /** `DEFAULT_THRESHOLD` and `DEFAULT_TOP_K`, used when the caller passes `None`. */
  const DefaultThreshold := 12.0
  const DefaultTopK := 4

  /** The baseline file as loading leaves it: absent, unreadable, or an array (of any shape). */
  datatype BaseFile = Missing | Unloadable | Loaded(values: seq<Color3>)

  /** One changed cell: its square and its difference from the baseline. */
  datatype Change = Change(pos: Pos, diff: real)

  /** The changes for the chosen cells, in the order chosen. */
  function Describe(diffs: seq<real>, picks: seq<int>): seq<Change>
    requires forall k :: 0 <= k < |picks| ==> 0 <= picks[k] < |diffs|
  {
    seq(|picks|, k requires 0 <= k < |picks| => Change(CellPos(picks[k]), diffs[picks[k]]))
  }

  /** Whether every guard of `detect_piece_changes` passes: a baseline of shape 8x8x3, a frame, and four corners. */
  predicate Usable(base: BaseFile, frame: Option<Image>, corners: Option<seq<Point>>)
  {
    base.Loaded? && |base.values| == CellCount && frame.Some? && corners.Some? && |corners.value| == 4
  }

  /** The per-cell differences of the warped frame from the baseline. */
  function FrameDiffs(base: BaseFile, frame: Option<Image>, corners: Option<seq<Point>>, tools: Tools): (d: seq<real>)
    requires Usable(base, frame, corners)
    ensures |d| == CellCount
  {
    CellDiffs(tools.measure(tools.warp(frame.value, corners.value)), base.values, tools.norm)
  }

  /**
   * `detect_piece_changes`: nothing when a guard fails, otherwise the cells
   * in descending order of difference, stopping after `top_k` or at the
   * first difference below the threshold.
   */
  function PieceChanges(base: BaseFile, frame: Option<Image>, corners: Option<seq<Point>>,
                        threshold: Option<real>, topK: Option<int>, tools: Tools): seq<Change>
  {
    if !Usable(base, frame, corners) then []
    else
      var diffs := FrameDiffs(base, frame, corners, tools);
      var thr, k := threshold.GetOr(DefaultThreshold), topK.GetOr(DefaultTopK);
      PicksSpec(diffs, k, thr);
      Describe(diffs, ArgsortDesc(diffs)[..PickCount(diffs, k, thr)])
  }

  method DetectPieceChanges(base: BaseFile, frame: Option<Image>, corners: Option<seq<Point>>,
                            threshold: Option<real>, topK: Option<int>, tools: Tools) returns (changes: seq<Change>)
    ensures changes == PieceChanges(base, frame, corners, threshold, topK, tools)
  {
    var thr := if threshold.None? then DefaultThreshold else threshold.value;
    var k := if topK.None? then DefaultTopK else topK.value;
    if base.Missing? || base.Unloadable? {
      return [];
    }
    if |base.values| != CellCount {
      return [];
    }
    if frame.None? {
      return [];
    }
    if corners.None? || |corners.value| != 4 {
      return [];
    }
    var diffs := CellDiffs(tools.measure(tools.warp(frame.value, corners.value)), base.values, tools.norm);
    var picks := TopAbove(diffs, k, thr);
    PicksSpec(diffs, k, thr);
    changes := Describe(diffs, picks);
  }

  /**
   * Every failed guard gives no changes.  Otherwise the changes number at
   * most `top_k`, lie on distinct squares of the board, each differs by at
   * least the threshold, they run in descending order of difference, and
   * when fewer than `top_k` are returned no other cell reaches the
   * threshold.  Omitted arguments mean 12.0 and 4.
   */
  lemma PieceChangesSpec(base: BaseFile, frame: Option<Image>, corners: Option<seq<Point>>,
                         threshold: Option<real>, topK: Option<int>, tools: Tools)
    ensures !Usable(base, frame, corners) ==> PieceChanges(base, frame, corners, threshold, topK, tools) == []
    ensures PieceChanges(base, frame, corners, None, None, tools)
         == PieceChanges(base, frame, corners, Some(DefaultThreshold), Some(DefaultTopK), tools)
    ensures Usable(base, frame, corners) ==>
      var cs := PieceChanges(base, frame, corners, threshold, topK, tools);
      var diffs := FrameDiffs(base, frame, corners, tools);
      var thr, k := threshold.GetOr(DefaultThreshold), topK.GetOr(DefaultTopK);
      |cs| <= (if k < 0 then 0 else k)
      && (forall j :: 0 <= j < |cs| ==> OnBoard(cs[j].pos) && cs[j].diff == diffs[8 * cs[j].pos.r + cs[j].pos.c] >= thr)
      && (forall j :: 0 < j < |cs| ==> cs[j - 1].diff >= cs[j].diff)
      && (forall i, j :: 0 <= i < j < |cs| ==> cs[i].pos != cs[j].pos)
      && (|cs| < k ==> forall v :: 0 <= v < CellCount && diffs[v] >= thr ==> exists j :: 0 <= j < |cs| && cs[j].pos == CellPos(v))
  {
    if Usable(base, frame, corners) {
      var diffs := FrameDiffs(base, frame, corners, tools);
      var thr, k := threshold.GetOr(DefaultThreshold), topK.GetOr(DefaultTopK);
      DescribedPicks(diffs, k, thr);
    }
  }

  /** What the reported changes promise about the differences they were picked from. */
  predicate ChangesReport(cs: seq<Change>, diffs: seq<real>, k: int, thr: real)
    requires |diffs| == CellCount
  {
    |cs| <= (if k < 0 then 0 else k)
    && (forall j :: 0 <= j < |cs| ==> OnBoard(cs[j].pos) && cs[j].diff == diffs[8 * cs[j].pos.r + cs[j].pos.c] >= thr)
    && (forall j :: 0 < j < |cs| ==> cs[j - 1].diff >= cs[j].diff)
    && (forall i, j :: 0 <= i < j < |cs| ==> cs[i].pos != cs[j].pos)
    && (|cs| < k ==> forall v :: 0 <= v < CellCount && diffs[v] >= thr ==> exists j :: 0 <= j < |cs| && cs[j].pos == CellPos(v))
  }

  lemma DescribedPicks(diffs: seq<real>, k: int, thr: real)
    requires |diffs| == CellCount
    ensures PickCount(diffs, k, thr) <= |ArgsortDesc(diffs)|
    ensures forall j :: 0 <= j < PickCount(diffs, k, thr) ==> 0 <= ArgsortDesc(diffs)[j] < |diffs|
    ensures ChangesReport(Describe(diffs, ArgsortDesc(diffs)[..PickCount(diffs, k, thr)]), diffs, k, thr)
  {
    var o := ArgsortDesc(diffs);
    PicksSpec(diffs, k, thr);
    ArgsortRanked(diffs);
    var p := o[..PickCount(diffs, k, thr)];
    var cs := Describe(diffs, p);
    forall j | 0 <= j < |cs| ensures OnBoard(cs[j].pos) && cs[j].diff == diffs[8 * cs[j].pos.r + cs[j].pos.c] {
      CellPosOnBoard(p[j]);
    }
    forall i, j | 0 <= i < j < |cs| ensures cs[i].pos != cs[j].pos {
      assert p[i] == o[i] && p[j] == o[j];
      CellPosInjective(p[i], p[j]);
    }
    if |cs| < k {
      forall v | 0 <= v < CellCount && diffs[v] >= thr ensures exists j :: 0 <= j < |cs| && cs[j].pos == CellPos(v) {
        var j :| 0 <= j < |p| && p[j] == v;
        assert cs[j].pos == CellPos(v);
      }
    }
  }

  // ------------------------------------------------ detect_move_and_update

  /** Every change lies on the board, as `detect_piece_changes` guarantees. */
  predicate OnBoardChanges(cs: seq<Change>)
  {
    forall j :: 0 <= j < |cs| ==> OnBoard(cs[j].pos)
  }

  /**
   * The outcome of `detect_move_and_update`: the two changed squares'
   * names run together (the detector then re-bases), no move, or, when
   * no attempt was made, the failure to read the never-assigned result.
   */
  datatype MoveDetection = Detected(coords: string) | Undetected | NoAttempt

  /** The move of one attempt: the names of its two largest changes, or `None` for fewer than two. */
  function AttemptMove(cs: seq<Change>): Option<string>
    requires OnBoardChanges(cs)
  {
    if |cs| >= 2 then Some(SquareName(cs[0].pos) + SquareName(cs[1].pos)) else None
  }

  /**
   * `detect_move_and_update` as written: the loop body only calls
   * `detect_piece_changes`, and the move is read from the last attempt
   * alone; with no attempt at all the result variable is never bound.
   */
  function DetectMoveAsWritten(attempts: seq<seq<Change>>): MoveDetection
    requires forall a :: 0 <= a < |attempts| ==> OnBoardChanges(attempts[a])
  {
    if |attempts| == 0 then NoAttempt
    else
      match AttemptMove(attempts[|attempts| - 1])
      case Some(m) => Detected(m)
      case None => Undetected
  }

  /** The detection loop with the move check inside it: the first attempt that finds two changes decides. */
  function DetectMove(attempts: seq<seq<Change>>): MoveDetection
    requires forall a :: 0 <= a < |attempts| ==> OnBoardChanges(attempts[a])
  {
    if |attempts| == 0 then Undetected
    else
      match AttemptMove(attempts[0])
      case Some(m) => Detected(m)
      case None => DetectMove(attempts[1..])
  }

  /**
   * The corrected loop reports a move exactly when some attempt saw two
   * changes, and then it is the move of the first such attempt; an attempt
   * with a single change never decides.
   */
  lemma {:induction false} DetectMoveSpec(attempts: seq<seq<Change>>)
    requires forall a :: 0 <= a < |attempts| ==> OnBoardChanges(attempts[a])
    ensures DetectMove(attempts).Detected? <==> exists a :: 0 <= a < |attempts| && |attempts[a]| >= 2
    ensures DetectMove(attempts).Detected? ==>
      exists a :: 0 <= a < |attempts| && |attempts[a]| >= 2
        && (forall b :: 0 <= b < a ==> |attempts[b]| < 2)
        && DetectMove(attempts) == Detected(AttemptMove(attempts[a]).value)
    ensures DetectMove(attempts) != NoAttempt
  {
    if |attempts| > 0 {
      var rest := attempts[1..];
      DetectMoveSpec(rest);
      if |attempts[0]| >= 2 {
        assert DetectMove(attempts) == Detected(AttemptMove(attempts[0]).value);
      } else {
        if exists a :: 0 <= a < |attempts| && |attempts[a]| >= 2 {
          var a :| 0 <= a < |attempts| && |attempts[a]| >= 2;
          assert rest[a - 1] == attempts[a];
        }
        if DetectMove(rest).Detected? {
          var a :| 0 <= a < |rest| && |rest[a]| >= 2
            && (forall b :: 0 <= b < a ==> |rest[b]| < 2)
            && DetectMove(rest) == Detected(AttemptMove(rest[a]).value);
          assert attempts[a + 1] == rest[a];
          assert forall b :: 0 <= b < a + 1 ==> |attempts[b]| < 2 by {
            forall b | 0 <= b < a + 1 ensures |attempts[b]| < 2 {
              if b > 0 {
                assert attempts[b] == rest[b - 1];
              }
            }
          }
        }
      }
    }
  }

  /** As written, only the last attempt counts: the outcome is that of a single attempt with the last result. */
  lemma AsWrittenReadsLastAttempt(attempts: seq<seq<Change>>)
    requires forall a :: 0 <= a < |attempts| ==> OnBoardChanges(attempts[a])
    requires |attempts| > 0
    ensures DetectMoveAsWritten(attempts) == DetectMove([attempts[|attempts| - 1]])
  {
  }

  /** Two attempts: the first sees e2 and e4 change, the second sees nothing. */
  function MissedMoveAttempts(): (attempts: seq<seq<Change>>)
    ensures forall a :: 0 <= a < |attempts| ==> OnBoardChanges(attempts[a])
  {
    [[Change(Pos(6, 4), 30.0), Change(Pos(4, 4), 20.0)], []]
  }

  /** The as-written loop loses the move the first attempt saw; the corrected loop reports "e2e4". */
  lemma MissedMove()
    ensures DetectMoveAsWritten(MissedMoveAttempts()) == Undetected
    ensures DetectMove(MissedMoveAttempts()) == Detected("e2e4")
  {
    var attempts := MissedMoveAttempts();
    assert IntToString(2) == "2" && IntToString(4) == "4";
    assert SquareName(Pos(6, 4)) == "e2" && SquareName(Pos(4, 4)) == "e4";
    assert attempts[0] == [Change(Pos(6, 4), 30.0), Change(Pos(4, 4), 20.0)];
    assert "e2" + "e4" == "e2e4";
    assert AttemptMove(attempts[0]) == Some("e2e4");
  }

  // ---------------------------------------------------- coordinate text

  /** The coordinate text of a stream frame: the first two names separated by a space, the only name, or nothing. */
  function CoordText(names: seq<string>): string
  {
    if |names| >= 2 then names[0] + " " + names[1]
    else if |names| == 1 then names[0]
    else ""
  }

  /** Square names of the boxed cells, in the order boxed. */
  function BoxedNames(picks: seq<int>): (names: seq<string>)
    requires forall k :: 0 <= k < |picks| ==> 0 <= picks[k] < CellCount
    ensures |names| == |picks|
  {
    seq(|picks|, k requires 0 <= k < |picks| => (CellPosOnBoard(picks[k]); SquareName(CellPos(picks[k]))))
  }

  /** Square names never contain a space. */
  lemma NameHasNoSpace(p: Pos)
    requires OnBoard(p)
    ensures forall i :: 0 <= i < |SquareName(p)| ==> SquareName(p)[i] != ' '
  {
    NotationOnBoard(p.r, p.c);
  }

  /**
   * Splitting the coordinate text on the space gives back the first two
   * boxed squares' names (or the only one), and the text is empty exactly
   * when nothing was boxed.
   */
  lemma CoordTextRoundTrip(picks: seq<int>)
    requires forall k :: 0 <= k < |picks| ==> 0 <= picks[k] < CellCount
    ensures var names := BoxedNames(picks);
      (CoordText(names) == "" <==> |picks| == 0)
      && (|picks| >= 1 ==> SplitOn(CoordText(names), ' ') == names[..if |picks| >= 2 then 2 else 1])
  {
    var names := BoxedNames(picks);
    if |picks| >= 1 {
      CellPosOnBoard(picks[0]);
      NameHasNoSpace(CellPos(picks[0]));
      NotationOnBoard(CellPos(picks[0]).r, CellPos(picks[0]).c);
      if |picks| >= 2 {
        CellPosOnBoard(picks[1]);
        NameHasNoSpace(CellPos(picks[1]));
        SplitAtFirst(names[0], ' ', names[1]);
        SplitNoSeparator(names[1], ' ');
        assert names[0] + " " + names[1] == names[0] + [' '] + names[1];
        assert names[..2] == [names[0], names[1]];
      } else {
        SplitNoSeparator(names[0], ' ');
        assert names[..1] == [names[0]];
      }
    }
  }
}
