/**
 * The game's use of the camera: `detect_move_via_cv` runs a turn
 * transition on the game state and turns the detected pair of squares
 * into a legal move of the current position, trying the squares in the
 * detected order first, then swapped, and the four promotions for a pawn
 * reaching the first or last rank.
 */
module CvGame {
  import opened Wrappers
  import opened Board
  import opened Notation
  import opened Colour
  import opened Streams
  import opened Turns

  datatype PieceType = Queen | Rook | Bishop | Knight

  /** A python-chess move: from-square, to-square (0 = a1 … 63 = h8) and promotion. */
  datatype ChessMove = ChessMove(from: int, to: int, promotion: Option<PieceType>)

  /**
   * The current position, seen through the two questions the resolution
   * asks of it: whether a pawn stands on a square, and whether a move is
   * among the legal moves.
   */
  datatype Position = Position(pawnAt: int -> bool, legal: ChessMove -> bool)

  /** Promotions are tried queen, rook, bishop, knight. */
  const PromotionOrder := [Some(Queen), Some(Rook), Some(Bishop), Some(Knight)]

  /** The (from, to) coordinate orders tried: as detected, then swapped when the squares differ. */
  function Orientations(src: Pos, dst: Pos): (os: seq<(Pos, Pos)>)
    ensures |os| == (if src == dst then 1 else 2) && os[0] == (src, dst)
    ensures |os| == 2 ==> os[1] == (dst, src)
  {
    [(src, dst)] + (if src != dst then [(dst, src)] else [])
  }

  /** The promotions tried for a move from `fromSq` to the square named `toName`. */
  function PromotionChoices(pos: Position, fromSq: int, toName: string): seq<Option<PieceType>>
  {
    if pos.pawnAt(fromSq) && |toName| >= 2 && (toName[1] == '1' || toName[1] == '8') then PromotionOrder else [None]
  }

  /** A coordinate whose file letter `chr(ord('a') + j)` exists. */
  predicate Nameable(p: Pos)
  {
    0 <= 97 + p.c < 0xD800
  }

  /** The moves tried for one orientation; none when either name fails to parse (`ValueError`, skipped). */
  function OrientationMoves(pos: Position, o: (Pos, Pos)): seq<ChessMove>
    requires Nameable(o.0) && Nameable(o.1)
  {
    var fromName := CoordToChessNotation(o.0.r, o.0.c);
    var toName := CoordToChessNotation(o.1.r, o.1.c);
    var fromSq := ParseSquare(fromName);
    var toSq := ParseSquare(toName);
    if fromSq.None? || toSq.None? then []
    else
      var promos := PromotionChoices(pos, fromSq.value, toName);
      seq(|promos|, k requires 0 <= k < |promos| => ChessMove(fromSq.value, toSq.value, promos[k]))
  }

  /** Every move tried, in order. */
  function CandidateMoves(pos: Position, os: seq<(Pos, Pos)>): seq<ChessMove>
    requires forall k :: 0 <= k < |os| ==> Nameable(os[k].0) && Nameable(os[k].1)
  {
    if os == [] then [] else OrientationMoves(pos, os[0]) + CandidateMoves(pos, os[1..])
  }

  /** The first legal move of a list, if any. */
  function FirstLegal(legal: ChessMove -> bool, ms: seq<ChessMove>): Option<ChessMove>
  {
    if ms == [] then None
    else if legal(ms[0]) then Some(ms[0])
    else FirstLegal(legal, ms[1..])
  }

  /** The first legal move is in the list, legal, and preceded only by illegal ones; there is none exactly when no move of the list is legal. */
  lemma {:induction false} FirstLegalSpec(legal: ChessMove -> bool, ms: seq<ChessMove>)
    ensures var r := FirstLegal(legal, ms);
      (r.Some? ==> exists i :: 0 <= i < |ms| && ms[i] == r.value && legal(ms[i]) && forall k :: 0 <= k < i ==> !legal(ms[k]))
      && (r.None? <==> forall k :: 0 <= k < |ms| ==> !legal(ms[k]))
  {
    if ms != [] && !legal(ms[0]) {
      FirstLegalSpec(legal, ms[1..]);
      var r := FirstLegal(legal, ms[1..]);
      if r.Some? {
        var i :| 0 <= i < |ms[1..]| && ms[1..][i] == r.value && legal(ms[1..][i]) && forall k :: 0 <= k < i ==> !legal(ms[1..][k]);
        assert ms[i + 1] == r.value;
        forall k | 0 <= k < i + 1 ensures !legal(ms[k]) {
          if k > 0 {
            assert ms[k] == ms[1..][k - 1];
          }
        }
      } else {
        forall k | 0 <= k < |ms| ensures !legal(ms[k]) {
          if k > 0 {
            assert ms[k] == ms[1..][k - 1];
          }
        }
      }
    }
  }

  /** `_resolve_move_from_coords(src, dst)`: the first legal candidate move, or nothing. */
  function ResolveMoveFromCoords(pos: Position, src: Pos, dst: Pos): Option<ChessMove>
    requires Nameable(src) && Nameable(dst)
  {
    FirstLegal(pos.legal, CandidateMoves(pos, Orientations(src, dst)))
  }

  /** The python-chess index of an on-board grid square: row i is rank 8 - i. */
  function SquareIndex(p: Pos): int
  {
    (7 - p.r) * 8 + p.c
  }

  /** On the board, the moves tried for one orientation go between the two squares, with the promotions as chosen. */
  lemma OrientationMovesOnBoard(pos: Position, a: Pos, b: Pos)
    requires OnBoard(a) && OnBoard(b)
    ensures var promos := PromotionChoices(pos, SquareIndex(a), SquareName(b));
      OrientationMoves(pos, (a, b)) == seq(|promos|, k requires 0 <= k < |promos| => ChessMove(SquareIndex(a), SquareIndex(b), promos[k]))
    ensures PromotionChoices(pos, SquareIndex(a), SquareName(b)) ==
      (if pos.pawnAt(SquareIndex(a)) && (b.r == 0 || b.r == 7) then PromotionOrder else [None])
  {
    ParseNotation(a.r, a.c);
    ParseNotation(b.r, b.c);
    NotationOnBoard(b.r, b.c);
    var toName := CoordToChessNotation(b.r, b.c);
    assert ParseSquare(CoordToChessNotation(a.r, a.c)) == Some(SquareIndex(a));
    assert ParseSquare(toName) == Some(SquareIndex(b));
    assert toName == SquareName(b);
    assert toName[1] == '1' <==> b.r == 7;
    assert toName[1] == '8' <==> b.r == 0;
  }

  /**
   * For two squares of the board, the moves tried are: from `src` to
   * `dst` with each promotion choice, then (only when the squares differ)
   * from `dst` to `src`.  The result is the first legal one of these,
   * and nothing exactly when none is legal; so a legal move from `src` to
   * `dst` always wins over the swapped direction.
   */
  lemma ResolveMoveSpec(pos: Position, src: Pos, dst: Pos)
    requires OnBoard(src) && OnBoard(dst)
    ensures var fwd := OrientationMoves(pos, (src, dst));
      var all := CandidateMoves(pos, Orientations(src, dst));
      all == fwd + (if src != dst then OrientationMoves(pos, (dst, src)) else [])
      && (forall k :: 0 <= k < |fwd| ==> fwd[k].from == SquareIndex(src) && fwd[k].to == SquareIndex(dst))
      && (forall k :: 0 <= k < |all| ==>
            (all[k].from, all[k].to) == (SquareIndex(src), SquareIndex(dst))
            || (all[k].from, all[k].to) == (SquareIndex(dst), SquareIndex(src)))
    ensures var r := ResolveMoveFromCoords(pos, src, dst);
      var all := CandidateMoves(pos, Orientations(src, dst));
      (r.Some? ==> pos.legal(r.value) && r.value in all)
      && (r.None? <==> forall k :: 0 <= k < |all| ==> !pos.legal(all[k]))
    ensures var r := ResolveMoveFromCoords(pos, src, dst);
      var fwd := OrientationMoves(pos, (src, dst));
      (exists k :: 0 <= k < |fwd| && pos.legal(fwd[k])) ==>
        r.Some? && r.value.from == SquareIndex(src) && r.value.to == SquareIndex(dst)
  {
    var fwd := OrientationMoves(pos, (src, dst));
    var back := if src != dst then OrientationMoves(pos, (dst, src)) else [];
    CandidatesSplit(pos, src, dst);
    FirstLegalSpec(pos.legal, fwd + back);
    if exists k :: 0 <= k < |fwd| && pos.legal(fwd[k]) {
      FirstLegalPrefersFront(pos.legal, fwd, back);
    }
  }

  /** The moves tried are those from `src` to `dst`, then (for distinct squares) those from `dst` to `src`. */
  lemma CandidatesSplit(pos: Position, src: Pos, dst: Pos)
    requires OnBoard(src) && OnBoard(dst)
    ensures var fwd := OrientationMoves(pos, (src, dst));
      var all := CandidateMoves(pos, Orientations(src, dst));
      all == fwd + (if src != dst then OrientationMoves(pos, (dst, src)) else [])
      && (forall k :: 0 <= k < |fwd| ==> fwd[k].from == SquareIndex(src) && fwd[k].to == SquareIndex(dst))
      && (forall k :: 0 <= k < |all| ==>
            (all[k].from, all[k].to) == (SquareIndex(src), SquareIndex(dst))
            || (all[k].from, all[k].to) == (SquareIndex(dst), SquareIndex(src)))
  {
    var os := Orientations(src, dst);
    var fwd := OrientationMoves(pos, (src, dst));
    OrientationMovesOnBoard(pos, src, dst);
    OrientationMovesOnBoard(pos, dst, src);
    if src != dst {
      assert os[1..] == [(dst, src)];
      assert CandidateMoves(pos, os[1..]) == OrientationMoves(pos, (dst, src)) + CandidateMoves(pos, []);
    } else {
      assert os[1..] == [];
    }
  }

  /** A legal move in the front part of a list makes the first legal move one of the front part. */
  lemma FirstLegalPrefersFront(legal: ChessMove -> bool, fwd: seq<ChessMove>, back: seq<ChessMove>)
    requires exists k :: 0 <= k < |fwd| && legal(fwd[k])
    ensures FirstLegal(legal, fwd + back).Some? && FirstLegal(legal, fwd + back).value in fwd
  {
    var all := fwd + back;
    FirstLegalSpec(legal, all);
    var k :| 0 <= k < |fwd| && legal(fwd[k]);
    assert all[k] == fwd[k];
    var r := FirstLegal(legal, all);
    var i :| 0 <= i < |all| && all[i] == r.value && legal(all[i]) && forall j :: 0 <= j < i ==> !legal(all[j]);
    assert i <= k;
    assert all[i] == fwd[i];
  }


  /** The moves tried when one square is detected twice all start and end on it. */
  lemma SameSquareSingleOrientation(pos: Position, p: Pos)
    requires OnBoard(p)
    ensures forall m :: m in CandidateMoves(pos, Orientations(p, p)) ==> m.from == SquareIndex(p) && m.to == SquareIndex(p)
  {
    OrientationMovesOnBoard(pos, p, p);
    assert Orientations(p, p)[1..] == [];
    assert CandidateMoves(pos, Orientations(p, p)) == OrientationMoves(pos, (p, p)) + [];
  }

  // ----------------------------------------------------- the game state

  /** The game-state fields a detection reads and writes: the tracked board, the camera's turn colour and the baseline. */
  datatype CvState = CvState(pieces: Option<Grid>, turn: string, initValues: Option<CellGrid>)

  /** Everything a detection consults besides the state: the import outcome, the tools, the baseline file and the capture's reads. */
  datatype CvInputs = CvInputs(imported: bool, tools: TurnTools, saved: Option<CellGrid>, shots: seq<Option<Shot<Image>>>)

  /**
   * `detect_move_via_cv`.  Without a capture device nothing happens.
   * Otherwise the tracked board is loaded if missing, and the transition
   * runs with the package defaults; when it raises the move is nothing
   * and only the loaded board is kept.  When it finishes, the turn, the
   * baseline and the board are taken from it and the detected squares are
   * resolved against the position.  A tracked board that is not 8 by 8
   * is treated as making the transition raise.
   */
  function DetectViaCv(s: CvState, captureReady: bool, loaded: Loaded, inputs: CvInputs, pos: Position): (CvState, Option<ChessMove>)
  {
    if !captureReady then (s, None)
    else
      var pieces := s.pieces.GetOr(LoadChessPieces(loaded));
      var s1 := s.(pieces := Some(pieces));
      if !IsBoard(pieces) then (s1, None)
      else
        match ProcessTurn(Default, PackageDefault(inputs.imported), TransitionThreshold, PackageFrames,
                          inputs.tools, inputs.saved, pieces, s.turn, inputs.shots)
        case Raised(_) => (s1, None)
        case Finished(t) =>
          (CvState(Some(t.pieces), t.turn, Some(t.baseline)), ResolveMoveFromCoords(pos, t.src, t.dst))
  }

  /** A resolved move between two distinct squares of the board is legal and joins them, in one direction or the other. */
  lemma ResolvedMoveJoins(pos: Position, a: Pos, b: Pos)
    requires OnBoard(a) && OnBoard(b) && a != b
    ensures var m := ResolveMoveFromCoords(pos, a, b);
      m.Some? ==> pos.legal(m.value) && Joins(m.value, a, b)
  {
    ResolveMoveSpec(pos, a, b);
  }

  /** The move goes from one of the two squares to the other. */
  predicate Joins(m: ChessMove, a: Pos, b: Pos)
  {
    (m.from, m.to) == (SquareIndex(a), SquareIndex(b)) || (m.from, m.to) == (SquareIndex(b), SquareIndex(a))
  }

  /**
   * No capture device: nothing changes.  Otherwise the board is loaded if
   * it was missing, and a transition that fails, which happens only for
   * want of a capture, changes nothing else and yields no move.
   */
  lemma DetectViaCvFailure(s: CvState, captureReady: bool, loaded: Loaded, inputs: CvInputs, pos: Position)
    ensures !captureReady ==> DetectViaCv(s, captureReady, loaded, inputs, pos) == (s, None)
    ensures var (s', m) := DetectViaCv(s, captureReady, loaded, inputs, pos);
      var pieces := s.pieces.GetOr(LoadChessPieces(loaded));
      captureReady && s'.turn == s.turn ==>
        s' == s.(pieces := Some(pieces)) && m.None?
        && (IsBoard(pieces) ==> AverageCapture(inputs.shots, PackageFrames).None?)
  {
    if captureReady {
      var pieces := s.pieces.GetOr(LoadChessPieces(loaded));
      if IsBoard(pieces) {
        ProcessTurnSpec(Default, PackageDefault(inputs.imported), TransitionThreshold, PackageFrames,
                        inputs.tools, inputs.saved, pieces, s.turn, inputs.shots);
      }
    }
  }

  /**
   * A detection that flips the turn adopts the transition's board (still
   * 8 by 8) and baseline, and yields only a legal move between two
   * distinct squares of the board.
   */
  lemma DetectViaCvSuccess(s: CvState, captureReady: bool, loaded: Loaded, inputs: CvInputs, pos: Position)
    ensures var (s', m) := DetectViaCv(s, captureReady, loaded, inputs, pos);
      s'.turn != s.turn ==>
        captureReady && s'.turn == NextTurnColor(s.turn) && s'.pieces.Some? && IsBoard(s'.pieces.value) && s'.initValues.Some?
        && (m.Some? ==> pos.legal(m.value) && exists a: Pos, b: Pos :: OnBoard(a) && OnBoard(b) && a != b && Joins(m.value, a, b))
  {
    var (s', m) := DetectViaCv(s, captureReady, loaded, inputs, pos);
    if captureReady {
      var pieces := s.pieces.GetOr(LoadChessPieces(loaded));
      if IsBoard(pieces) {
        var r := ProcessTurn(Default, PackageDefault(inputs.imported), TransitionThreshold, PackageFrames,
                             inputs.tools, inputs.saved, pieces, s.turn, inputs.shots);
        if r.Finished? {
          var cw := AverageCapture(inputs.shots, PackageFrames).value;
          TransitSpec(Picked(PackageDefault(inputs.imported).value, TransitionThreshold), inputs.tools, inputs.saved, pieces, s.turn, cw.0, cw.1);
          ResolvedMoveJoins(pos, r.t.src, r.t.dst);
        }
      }
    }
  }

  /** A detection with a capture device and an 8 by 8 board follows the outcome of the transition. */
  lemma DetectViaCvStep(s: CvState, loaded: Loaded, inputs: CvInputs, pos: Position, pieces: Grid, r: TransitionResult)
    requires pieces == s.pieces.GetOr(LoadChessPieces(loaded)) && IsBoard(pieces)
    requires r == ProcessTurn(Default, PackageDefault(inputs.imported), TransitionThreshold, PackageFrames,
                              inputs.tools, inputs.saved, pieces, s.turn, inputs.shots)
    ensures r.Raised? ==> DetectViaCv(s, true, loaded, inputs, pos) == (s.(pieces := Some(pieces)), None)
    ensures r.Finished? ==>
      DetectViaCv(s, true, loaded, inputs, pos)
        == (CvState(Some(r.t.pieces), r.t.turn, Some(r.t.baseline)), ResolveMoveFromCoords(pos, r.t.src, r.t.dst))
  {
  }

  /** The `game_state` module fields a detection touches. */
  class GameState {
    var chessPiecesState: Option<Grid>
    var cvTurnColor: string
    var initBoardValues: Option<CellGrid>

    function State(): CvState
      reads this
    {
      CvState(chessPiecesState, cvTurnColor, initBoardValues)
    }

    constructor (turn: string)
      ensures State() == CvState(None, turn, None)
    {
      chessPiecesState := None;
      cvTurnColor := turn;
      initBoardValues := None;
    }

    /** `detect_move_via_cv()`, writing the game state in place. */
    method DetectMoveViaCv(captureReady: bool, loaded: Loaded, inputs: CvInputs, pos: Position) returns (move: Option<ChessMove>)
      modifies this
      ensures (State(), move) == DetectViaCv(old(State()), captureReady, loaded, inputs, pos)
    {
      if !captureReady {
        return None;
      }
      ghost var s0 := State();
      if chessPiecesState.None? {
        chessPiecesState := Some(LoadChessPieces(loaded));
      }
      var pieces := chessPiecesState.value;
      if !IsBoard(pieces) {
        return None;
      }
      var result := ProcessTurnTransition(Default, PackageDefault(inputs.imported), TransitionThreshold, PackageFrames,
                                          inputs.tools, inputs.saved, pieces, cvTurnColor, inputs.shots);
      DetectViaCvStep(s0, loaded, inputs, pos, pieces, result);
      if result.Raised? {
        return None;
      }
      var t := result.t;
      cvTurnColor, initBoardValues, chessPiecesState := t.turn, Some(t.baseline), Some(t.pieces);
      move := ResolveMoveFromCoords(pos, t.src, t.dst);
    }
  }
}
