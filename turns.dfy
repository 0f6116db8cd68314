/**
 * Turn transitions: what happens when a player ends a turn.  The turn
 * colour flips, the current board is captured as an average of several
 * frames, the (source, destination) squares are inferred against the
 * stored baseline, the tracked board is updated, the move text is
 * recorded and the new baseline is saved.
 *
 * Three front ends share this core:
 *  - the web servers' `next_turn` routes (two copies, differing only in
 *    how the squares are inferred), which keep their state in globals;
 *  - `process_turn_transition` in the two cv_manager copies, which takes
 *    the state as arguments and returns a fresh record, raising an error
 *    when it cannot proceed;
 *  - `save_initial_board_from_capture`, which stores the first baseline.
 */
module Turns {
  import opened Wrappers
  import opened Board
  import opened Notation
  import opened Colour
  import opened Ranking
  import opened Resolve
  import opened Streams

  /** The foreign operations a transition calls: BGR to LAB, the per-cell BGR means of a warp, the vector norm and the square root. */
  datatype TurnTools = TurnTools(
    toLab: Color3 -> Color3,
    bgrMeans: Image -> CellGrid,
    norm: Color3 -> real,
    sqrt: real -> real)

  /** How a front end turns the two boards into two squares: the scored scheme, or a pair picker at a threshold. */
  datatype Resolver = Scored | Picked(picker: PairPicker, threshold: real)

  /** The first web server resolves by score. */
  const CvMainResolver := Scored

  /** The mjpg web server hands the detrended deltas to `_pair_moves` at threshold 9.0. */
  const MjpgResolver := Picked(StrictPicker, 9.0)

  /** Frames averaged by the web servers' `next_turn`. */
  const ServerFrames := 8

  /** The stored BGR baseline converted cell by cell to LAB. */
  function LabGrid(toLab: Color3 -> Color3, bgr: CellGrid): (lab: CellGrid)
    ensures forall k :: 0 <= k < CellCount ==> lab[k] == toLab(bgr[k])
  {
    seq(CellCount, k requires 0 <= k < CellCount => toLab(bgr[k]))
  }

  /** The baseline the current board is compared with: the stored one in LAB, or the current board itself when none is stored. */
  function PrevLab(toLab: Color3 -> Color3, saved: Option<CellGrid>, curr: CellGrid): CellGrid
  {
    match saved
    case None => curr
    case Some(bgr) => LabGrid(toLab, bgr)
  }

  /**
   * The (source, destination) squares a resolver infers from the current
   * and previous LAB boards, with `mover` the side that just played.
   * Either scheme yields two distinct squares of the board.
   */
  function ResolveSquares(res: Resolver, norm: Color3 -> real, sqrt: real -> real, curr: CellGrid, prevLab: CellGrid, before: Grid, mover: string): (m: (Pos, Pos))
    requires IsBoard(before)
    ensures OnBoard(m.0) && OnBoard(m.1) && m.0 != m.1
  {
    match res
    case Scored =>
      var dev := ChromaDeviation(curr, prevLab, norm);
      ScoredMoveDistinct(dev, AdaptiveThreshold(dev, sqrt), before, mover);
      ScoredMove(dev, AdaptiveThreshold(dev, sqrt), before, mover)
    case Picked(p, thr) =>
      var norms := DetrendedNorms(curr, Some(prevLab), norm);
      PickedMoveIsTopTwo(p, norms, thr);
      PickedMove(p, norms, thr)
  }

  /**
   * What each resolver settles on: a picker always takes the two cells of
   * greatest detrended norm, highest first; the scored scheme takes the two
   * cells of greatest chroma deviation when no deviation reaches the
   * adaptive threshold.
   */
  lemma ResolveSquaresSpec(res: Resolver, norm: Color3 -> real, sqrt: real -> real, curr: CellGrid, prevLab: CellGrid, before: Grid, mover: string)
    requires IsBoard(before)
    ensures res.Picked? ==>
      var o := ArgsortDesc(DetrendedNorms(curr, Some(prevLab), norm));
      ResolveSquares(res, norm, sqrt, curr, prevLab, before, mover) == (CellPos(o[0]), CellPos(o[1]))
    ensures res.Scored? ==>
      var dev := ChromaDeviation(curr, prevLab, norm);
      var o := ArgsortDesc(dev);
      (forall k :: 0 <= k < CellCount ==> dev[k] < AdaptiveThreshold(dev, sqrt)) ==>
        ResolveSquares(res, norm, sqrt, curr, prevLab, before, mover) == (CellPos(o[0]), CellPos(o[1]))
  {
    match res {
      case Picked(p, thr) =>
        PickedMoveIsTopTwo(p, DetrendedNorms(curr, Some(prevLab), norm), thr);
      case Scored =>
        var dev := ChromaDeviation(curr, prevLab, norm);
        var thr := AdaptiveThreshold(dev, sqrt);
        ScoredIffLoud(dev, thr, before, mover);
        ScoredMoveChoice(dev, thr, before, mover);
    }
  }

  /** The outcome of a completed transition, the fields of the record `process_turn_transition` returns. */
  datatype Transition = Transition(
    turn: string,
    prevTurn: string,
    baseline: CellGrid,
    pieces: Grid,
    moveStr: string,
    src: Pos,
    dst: Pos,
    warp: Image)

  /**
   * The transition once the current board `curr` and its last warp are
   * captured: the turn flips, the squares are resolved with the previous
   * turn as mover, the board is updated, the move text is taken from the
   * board as it was, and the new baseline is the warp's BGR cell means.
   */
  function Transit(res: Resolver, tools: TurnTools, saved: Option<CellGrid>, pieces: Grid, turn: string, curr: CellGrid, warp: Image): (t: Transition)
    requires IsBoard(pieces)
    ensures IsBoard(t.pieces) && OnBoard(t.src) && OnBoard(t.dst)
  {
    var m := ResolveSquares(res, tools.norm, tools.sqrt, curr, PrevLab(tools.toLab, saved, curr), pieces, turn);
    Transition(NextTurnColor(turn), turn, tools.bgrMeans(warp), Relocate(pieces, m.0, m.1), MoveString(pieces, m.0, m.1), m.0, m.1, warp)
  }

  /**
   * Every completed transition flips the turn, reports the old one as the
   * previous turn, moves at most one piece between two distinct squares
   * (no square elsewhere changes, no piece appears or vanishes), and
   * records a move text that describes exactly that update.
   */
  lemma TransitSpec(res: Resolver, tools: TurnTools, saved: Option<CellGrid>, pieces: Grid, turn: string, curr: CellGrid, warp: Image)
    requires IsBoard(pieces)
    ensures var t := Transit(res, tools, saved, pieces, turn, curr, warp);
      t.prevTurn == turn && (t.turn == "black" <==> turn == "white") && (t.turn == "white" || t.turn == "black")
      && t.src != t.dst && t.warp == warp && t.baseline == tools.bgrMeans(warp)
    ensures var t := Transit(res, tools, saved, pieces, turn, curr, warp);
      (forall q :: OnBoard(q) && q != t.src && q != t.dst ==> At(t.pieces, q) == At(pieces, q))
      && multiset(Cells(t.pieces)) == multiset(Cells(pieces))
    ensures var t := Transit(res, tools, saved, pieces, turn, curr, warp);
      (At(pieces, t.src) != "" && At(pieces, t.dst) == "" ==>
        t.moveStr == PieceToFen(At(pieces, t.src)) + " " + SquareName(t.src) + "-" + SquareName(t.dst)
        && At(t.pieces, t.dst) == At(pieces, t.src) && At(t.pieces, t.src) == "")
      && (At(pieces, t.dst) != "" && At(pieces, t.src) == "" ==>
        t.moveStr == PieceToFen(At(pieces, t.dst)) + " " + SquareName(t.dst) + "-" + SquareName(t.src)
        && At(t.pieces, t.src) == At(pieces, t.dst) && At(t.pieces, t.dst) == "")
      && ((At(pieces, t.src) == "") == (At(pieces, t.dst) == "") ==>
        t.moveStr == "? " + SquareName(t.src) + "<->" + SquareName(t.dst) && t.pieces == pieces)
  {
    var t := Transit(res, tools, saved, pieces, turn, curr, warp);
    forall q | OnBoard(q) && q != t.src && q != t.dst
      ensures At(t.pieces, q) == At(pieces, q)
    {
      RelocateFrame(pieces, t.src, t.dst, q);
    }
    RelocateKeepsPieces(pieces, t.src, t.dst);
    MoveStringDescribesUpdate(pieces, t.src, t.dst);
  }

  /** The transition whose squares were resolved as `src` and `dst`. */
  lemma TransitOf(res: Resolver, tools: TurnTools, saved: Option<CellGrid>, pieces: Grid, turn: string, curr: CellGrid, warp: Image, src: Pos, dst: Pos)
    returns (t: Transition)
    requires IsBoard(pieces)
    requires (src, dst) == ResolveSquares(res, tools.norm, tools.sqrt, curr, PrevLab(tools.toLab, saved, curr), pieces, turn)
    ensures t == Transit(res, tools, saved, pieces, turn, curr, warp) && IsBoard(t.pieces)
    ensures t == Transition(NextTurnColor(turn), turn, tools.bgrMeans(warp), Relocate(pieces, src, dst), MoveString(pieces, src, dst), src, dst, warp)
  {
    t := Transit(res, tools, saved, pieces, turn, curr, warp);
  }

  // ------------------------------------------------ the web servers' state

  /** The globals a web server's `next_turn` reads and writes, and the baseline file on disk. */
  datatype ServerState = ServerState(
    turn: string,
    prevTurn: string,
    pieces: Grid,
    history: seq<string>,
    savedValues: Option<CellGrid>,
    initValues: Option<CellGrid>,
    reloadBase: bool,
    prevWarp: Option<Image>)

  /**
   * One `next_turn` request.  The turn flips first; then a missing frame
   * answers 400 and a failed capture 500, leaving everything else as it
   * was; otherwise the transition is applied, its move text appended to
   * the history, and the new baseline stored, loaded and flagged for
   * reloading.  Answers 200.
   */
  function ServerNext(res: Resolver, tools: TurnTools, s: ServerState, frameAvailable: bool, shots: seq<Option<Shot<Image>>>): (ServerState, int)
    requires IsBoard(s.pieces)
  {
    if !frameAvailable then (Flip(s), 400)
    else
      match AverageCapture(shots, ServerFrames)
      case None => (Flip(s), 500)
      case Some(cw) => (Record(Flip(s), Transit(res, tools, s.savedValues, s.pieces, s.turn, cw.0, cw.1)), 200)
  }

  /** The turn toggle at the top of `next_turn`. */
  function Flip(s: ServerState): ServerState
  {
    s.(prevTurn := s.turn, turn := NextTurnColor(s.turn))
  }

  /** The globals once a transition is applied: its board, its move text appended, its baseline stored and loaded, its warp kept. */
  function Record(s: ServerState, t: Transition): ServerState
  {
    s.(pieces := t.pieces, history := s.history + [t.moveStr], savedValues := Some(t.baseline),
       initValues := Some(t.baseline), reloadBase := true, prevWarp := Some(t.warp))
  }

  /**
   * Every request flips the turn, whatever it answers.  It answers 400
   * exactly when there is no frame and 500 exactly when the capture read
   * nothing; those answers leave the board, the history and the baselines
   * as they were.  A 200 appends exactly one move text, the one the
   * transition computed, and applies that transition's board.
   */
  lemma ServerNextSpec(res: Resolver, tools: TurnTools, s: ServerState, frameAvailable: bool, shots: seq<Option<Shot<Image>>>)
    requires IsBoard(s.pieces)
    ensures var (s', status) := ServerNext(res, tools, s, frameAvailable, shots);
      s'.prevTurn == s.turn && s'.turn == NextTurnColor(s.turn) && IsBoard(s'.pieces)
      && (status == 400 <==> !frameAvailable)
      && (status == 500 <==> frameAvailable && AverageCapture(shots, ServerFrames).None?)
      && (status == 200 || status == 400 || status == 500)
    ensures var (s', status) := ServerNext(res, tools, s, frameAvailable, shots);
      status != 200 ==>
        s'.pieces == s.pieces && s'.history == s.history && s'.savedValues == s.savedValues
        && s'.initValues == s.initValues && s'.reloadBase == s.reloadBase && s'.prevWarp == s.prevWarp
    ensures var (s', status) := ServerNext(res, tools, s, frameAvailable, shots);
      status == 200 ==>
        var cw := AverageCapture(shots, ServerFrames).value;
        var t := Transit(res, tools, s.savedValues, s.pieces, s.turn, cw.0, cw.1);
        |s'.history| == |s.history| + 1 && s'.history[..|s.history|] == s.history
        && s'.history[|s.history|] == t.moveStr && s'.pieces == t.pieces
        && s'.savedValues == Some(tools.bgrMeans(cw.1)) && s'.initValues == s'.savedValues && s'.reloadBase
  {
    var (s', status) := ServerNext(res, tools, s, frameAvailable, shots);
    if status == 200 {
      var cw := AverageCapture(shots, ServerFrames).value;
      TransitSpec(res, tools, s.savedValues, s.pieces, s.turn, cw.0, cw.1);
    }
  }

  /**
   * Because the turn flips before the frame check, a request that answers
   * 400 or 500 leaves the colours swapped: the next successful request
   * resolves the squares with the opposite side as mover from the one that
   * a single successful request would have used.
   */
  lemma FailedRequestSwapsMover(res: Resolver, tools: TurnTools, s: ServerState, shots1: seq<Option<Shot<Image>>>, shots2: seq<Option<Shot<Image>>>)
    requires IsBoard(s.pieces) && (s.turn == "white" || s.turn == "black")
    requires AverageCapture(shots2, ServerFrames).Some?
    ensures var (s1, status1) := ServerNext(res, tools, s, false, shots1);
      var (s2, status2) := ServerNext(res, tools, s1, true, shots2);
      var (direct, _) := ServerNext(res, tools, s, true, shots2);
      status1 == 400 && status2 == 200 && s2.prevTurn == NextTurnColor(s.turn) && s2.prevTurn != direct.prevTurn
      && s2.turn == s.turn
  {
    ToggleTwice(s.turn);
  }

  /** A web server's globals: the turn colours, the tracked board, the move history and the baselines. */
  class TurnServer {
    const resolver: Resolver
    const tools: TurnTools
    var turnColor: string
    var prevTurnColor: string
    var chessPieces: Grid
    var moveHistory: seq<string>
    var savedValues: Option<CellGrid>
    var initBoardValues: Option<CellGrid>
    var reloadBaseBoard: bool
    var prevWarp: Option<Image>

    function State(): ServerState
      reads this
    {
      ServerState(turnColor, prevTurnColor, chessPieces, moveHistory, savedValues, initBoardValues, reloadBaseBoard, prevWarp)
    }

    ghost predicate Valid()
      reads this
    {
      IsBoard(chessPieces)
    }

    /** Start-up: White to move, the starting position, no history; `savedValues` is whatever baseline file is on disk. */
    constructor (resolver: Resolver, tools: TurnTools, savedValues: Option<CellGrid>)
      ensures this.resolver == resolver && this.tools == tools && Valid()
      ensures State() == ServerState("white", "white", DefaultChessPieces(), [], savedValues, None, false, None)
    {
      this.resolver := resolver;
      this.tools := tools;
      turnColor := "white";
      prevTurnColor := "white";
      chessPieces := DefaultChessPieces();
      moveHistory := [];
      this.savedValues := savedValues;
      initBoardValues := None;
      reloadBaseBoard := false;
      prevWarp := None;
    }

    /** The square inference inside `next_turn`: the scored pair search with its fallback, or the picker's pair. */
    method ResolveMove(curr: CellGrid, before: Grid) returns (src: Pos, dst: Pos)
      requires IsBoard(before)
      ensures (src, dst) == ResolveSquares(resolver, tools.norm, tools.sqrt, curr, PrevLab(tools.toLab, savedValues, curr), before, prevTurnColor)
    {
      var prevLab := PrevLab(tools.toLab, savedValues, curr);
      match resolver {
        case Scored =>
          var dev := ChromaDeviation(curr, prevLab, tools.norm);
          var thr := AdaptiveThreshold(dev, tools.sqrt);
          var best := BestPair(Candidates(dev), thr, before, prevTurnColor);
          if best.None? {
            var order := ArgsortDesc(dev);
            src, dst := CellPos(order[0]), CellPos(order[1]);
          } else {
            src, dst := best.value.src, best.value.dst;
          }
        case Picked(p, thr) =>
          var m := PickedMove(p, DetrendedNorms(curr, Some(prevLab), tools.norm), thr);
          src, dst := m.0, m.1;
      }
    }

    /** The success path of `next_turn`, once the turn has flipped and the capture is in. */
    method Complete(curr: CellGrid, warp: Image)
      requires Valid()
      modifies this
      ensures Valid()
      ensures State() == Record(old(State()), Transit(resolver, tools, old(savedValues), old(chessPieces), old(prevTurnColor), curr, warp))
    {
      ghost var s0 := State();
      var before := chessPieces;
      var src, dst := ResolveMove(curr, before);
      ghost var t := TransitOf(resolver, tools, savedValues, before, prevTurnColor, curr, warp, src, dst);
      var boardVals := tools.bgrMeans(warp);
      var after := Relocate(before, src, dst);
      var moveStr := MoveString(before, src, dst);
      chessPieces, moveHistory, savedValues, initBoardValues, reloadBaseBoard, prevWarp :=
        after, moveHistory + [moveStr], Some(boardVals), Some(boardVals), true, Some(warp);
      assert State() == Record(s0, t);
    }

    /**
     * `next_turn`, given whether a frame has been streamed yet and the
     * results of the capture's reads.  Returns the HTTP status.
     */
    method NextTurn(frameAvailable: bool, shots: seq<Option<Shot<Image>>>) returns (status: int)
      requires Valid()
      modifies this
      ensures Valid()
      ensures (State(), status) == ServerNext(resolver, tools, old(State()), frameAvailable, shots)
    {
      prevTurnColor := turnColor;
      turnColor := if turnColor == "white" then "black" else "white";
      if !frameAvailable {
        return 400;
      }
      var capture := CaptureAvgBoard(shots, ServerFrames);
      if capture.None? {
        return 500;
      }
      Complete(capture.value.0, capture.value.1);
      status := 200;
    }
  }

  // ------------------------------------------ cv_manager's transition call

  /** Why `process_turn_transition` raises `RuntimeError`. */
  datatype TransitionError = NoPairFunction | NoCapture

  datatype TransitionResult = Raised(err: TransitionError) | Finished(t: Transition)

  /** The `pair_moves_fn` argument: given by the caller, or left to the module default. */
  datatype PairSource = Given(picker: PairPicker) | Default

  /** The default pair threshold of `process_turn_transition`. */
  const TransitionThreshold := 9.0

  /** Default frames averaged: one in the cv package copy, eight in the older copy. */
  const PackageFrames := 1
  const LegacyFrames := 8

  /**
   * The module default picker: the cv package copy falls back to its own
   * `_fallback_pair_moves` when `_pair_moves` cannot be imported; the older
   * copy is left without one.
   */
  function PackageDefault(imported: bool): Option<PairPicker>
  {
    Some(if imported then StrictPicker else FallbackPicker)
  }

  function LegacyDefault(imported: bool): Option<PairPicker>
  {
    if imported then Some(StrictPicker) else None
  }

  /**
   * `process_turn_transition`: raise when no pair function is available,
   * raise when the capture read nothing, and otherwise the picked
   * transition.
   */
  function ProcessTurn(source: PairSource, defaultPicker: Option<PairPicker>, threshold: real, frames: int, tools: TurnTools,
                       saved: Option<CellGrid>, pieces: Grid, turn: string, shots: seq<Option<Shot<Image>>>): TransitionResult
    requires IsBoard(pieces)
  {
    var picker := if source.Given? then Some(source.picker) else defaultPicker;
    if picker.None? then Raised(NoPairFunction)
    else
      match AverageCapture(shots, frames)
      case None => Raised(NoCapture)
      case Some(cw) => Finished(Transit(Picked(picker.value, threshold), tools, saved, pieces, turn, cw.0, cw.1))
  }

  /**
   * It raises for a missing pair function exactly when the caller gave none
   * and the module has no default, and for the capture exactly when a pair
   * function exists and nothing was read.  A finished transition flips the
   * turn and resolves the two cells of greatest detrended norm.
   */
  lemma ProcessTurnSpec(source: PairSource, defaultPicker: Option<PairPicker>, threshold: real, frames: int, tools: TurnTools,
                        saved: Option<CellGrid>, pieces: Grid, turn: string, shots: seq<Option<Shot<Image>>>)
    requires IsBoard(pieces)
    ensures var r := ProcessTurn(source, defaultPicker, threshold, frames, tools, saved, pieces, turn, shots);
      (r == Raised(NoPairFunction) <==> source.Default? && defaultPicker.None?)
      && (r == Raised(NoCapture) <==> (source.Given? || defaultPicker.Some?) && AverageCapture(shots, frames).None?)
    ensures var r := ProcessTurn(source, defaultPicker, threshold, frames, tools, saved, pieces, turn, shots);
      r.Finished? ==>
        var cw := AverageCapture(shots, frames).value;
        var o := ArgsortDesc(DetrendedNorms(cw.0, Some(PrevLab(tools.toLab, saved, cw.0)), tools.norm));
        r.t.prevTurn == turn && r.t.turn == NextTurnColor(turn) && r.t.warp == cw.1
        && (r.t.src, r.t.dst) == (CellPos(o[0]), CellPos(o[1]))
        && r.t.pieces == Relocate(pieces, r.t.src, r.t.dst) && r.t.moveStr == MoveString(pieces, r.t.src, r.t.dst)
  {
    var r := ProcessTurn(source, defaultPicker, threshold, frames, tools, saved, pieces, turn, shots);
    if r.Finished? {
      var cw := AverageCapture(shots, frames).value;
      var picker := if source.Given? then source.picker else defaultPicker.value;
      ResolveSquaresSpec(Picked(picker, threshold), tools.norm, tools.sqrt, cw.0, PrevLab(tools.toLab, saved, cw.0), pieces, turn);
    }
  }

  /** The cv package copy never lacks a pair function; the older copy lacks one exactly when the import failed. */
  lemma DefaultPickers(imported: bool)
    ensures PackageDefault(imported).Some?
    ensures LegacyDefault(imported).None? <==> !imported
  {
  }

  /** `process_turn_transition` with its loops: the capture average, then the picked transition. */
  method ProcessTurnTransition(source: PairSource, defaultPicker: Option<PairPicker>, threshold: real, frames: int, tools: TurnTools,
                               saved: Option<CellGrid>, pieces: Grid, turn: string, shots: seq<Option<Shot<Image>>>)
    returns (r: TransitionResult)
    requires IsBoard(pieces)
    ensures r == ProcessTurn(source, defaultPicker, threshold, frames, tools, saved, pieces, turn, shots)
  {
    var picker := defaultPicker;
    if source.Given? {
      picker := Some(source.picker);
    }
    if picker.None? {
      return Raised(NoPairFunction);
    }
    var capture := CaptureAvgBoard(shots, frames);
    if capture.None? {
      return Raised(NoCapture);
    }
    var curr, warp := capture.value.0, capture.value.1;
    var prevLab := PrevLab(tools.toLab, saved, curr);
    var norms := DetrendedNorms(curr, Some(prevLab), tools.norm);
    var m := PickedMove(picker.value, norms, threshold);
    assert m == ResolveSquares(Picked(picker.value, threshold), tools.norm, tools.sqrt, curr, prevLab, pieces, turn);
    var next := NextTurnColor(turn);
    r := Finished(Transition(next, turn, tools.bgrMeans(warp), Relocate(pieces, m.0, m.1), MoveString(pieces, m.0, m.1), m.0, m.1, warp));
  }

  // ------------------------------------------------- the initial baseline

  /** Default read attempts of the cv package copy's initial capture. */
  const InitialTries := 30

  /** The first valid frame among the first `maxTries` frames, a failed or empty read being `None`; a read past the recorded ones fails. */
  function FirstValid(frames: seq<Option<Image>>, maxTries: int): (r: Option<nat>)
    decreases |frames|
  {
    if maxTries <= 0 || |frames| == 0 then None
    else if frames[0].Some? then Some(0)
    else
      match FirstValid(frames[1..], maxTries - 1)
      case None => None
      case Some(i) => Some(i + 1)
  }

  /** The index found is the first valid read and lies within the allowed attempts; none is found exactly when every allowed read failed. */
  lemma {:induction false} FirstValidSpec(frames: seq<Option<Image>>, maxTries: int)
    decreases |frames|
    ensures var r := FirstValid(frames, maxTries);
      (r.Some? ==> r.value < maxTries && r.value < |frames| && frames[r.value].Some?
                   && forall k :: 0 <= k < r.value ==> frames[k].None?)
      && (r.None? <==> forall k :: 0 <= k < maxTries && k < |frames| ==> frames[k].None?)
  {
    if maxTries <= 0 || |frames| == 0 {
    } else if frames[0].Some? {
    } else {
      FirstValidSpec(frames[1..], maxTries - 1);
      var r := FirstValid(frames[1..], maxTries - 1);
      if r.None? {
        forall k | 0 <= k < maxTries && k < |frames| ensures frames[k].None? {
          if k > 0 {
            assert frames[1..][k - 1] == frames[k];
          }
        }
      } else {
        assert frames[1..][r.value] == frames[r.value + 1];
        forall k | 0 <= k < r.value + 1 ensures frames[k].None? {
          if k > 0 {
            assert frames[1..][k - 1] == frames[k];
          }
        }
      }
    }
  }

  /**
   * `save_initial_board_from_capture`: the BGR cell means of the first
   * valid frame seen through `view` (the manual-corner warp) and that
   * view, or nothing when no allowed read was valid.  The means are what
   * is written to the baseline file.
   */
  function InitialBoard(frames: seq<Option<Image>>, maxTries: int, view: Image -> Image, bgrMeans: Image -> CellGrid): Option<(CellGrid, Image)>
  {
    FirstValidSpec(frames, maxTries);
    match FirstValid(frames, maxTries)
    case None => None
    case Some(i) => Some((bgrMeans(view(frames[i].value)), view(frames[i].value)))
  }

  /** The retry loop of the cv package copy. */
  method SaveInitialBoard(frames: seq<Option<Image>>, maxTries: int, view: Image -> Image, bgrMeans: Image -> CellGrid)
    returns (r: Option<(CellGrid, Image)>)
    ensures r == InitialBoard(frames, maxTries, view, bgrMeans)
  {
    FirstValidSpec(frames, maxTries);
    var frame: Option<Image> := None;
    var i := 0;
    while frame.None? && i < maxTries && i < |frames|
      invariant 0 <= i <= |frames|
      invariant frame.None? ==> forall k :: 0 <= k < i ==> frames[k].None?
      invariant frame.Some? ==>
        (0 < i <= maxTries && frame == frames[i - 1] && frames[i - 1].Some?
         && forall k :: 0 <= k < i - 1 ==> frames[k].None?)
    {
      frame := frames[i];
      i := i + 1;
    }
    if frame.None? {
      return None;
    }
    var warp := view(frame.value);
    r := Some((bgrMeans(warp), warp));
  }

  /** The older copy makes a single read. */
  function LegacyInitialBoard(read: Option<Image>, view: Image -> Image, bgrMeans: Image -> CellGrid): (r: Option<(CellGrid, Image)>)
  {
    if read.None? then None else Some((bgrMeans(view(read.value)), view(read.value)))
  }

  /** The single read of the older copy is the retrying copy with one attempt allowed. */
  lemma LegacyIsOneTry(read: Option<Image>, view: Image -> Image, bgrMeans: Image -> CellGrid)
    ensures LegacyInitialBoard(read, view, bgrMeans) == InitialBoard([read], 1, view, bgrMeans)
    ensures LegacyInitialBoard(read, view, bgrMeans).None? <==> read.None?
  {
    assert [read][1..] == [];
    assert FirstValid([read][1..], 0) == None;
  }
}
