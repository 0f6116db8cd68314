/**
 * The position analyser: from two squares whose contents changed, guess
 * which piece of the side to move went where, by listing the scenarios
 * the two squares allow and taking the first legal one in a fixed
 * priority order; then check the move (with an optional promotion
 * letter) against the board.
 */
module PositionAnalyzer {
  import opened Wrappers
  import opened Notation
  import opened Chess

  /** The four scenarios `_determine_move_direction` considers. */
  datatype ScenarioKind = FromCoord1 | FromCoord2 | PromotionCase | CaptureCase

  /** A scenario: a move from one square to the other by a given piece. */
  datatype Scenario = Scenario(from: string, to: string, piece: Piece, kind: ScenarioKind)

  /** The order in which scenarios are tried for legality. */
  const PriorityOrder: seq<ScenarioKind> := [FromCoord1, FromCoord2, CaptureCase, PromotionCase]

  /** A piece of the side to move stands here. */
  predicate Own(p: Option<Piece>, whiteToMove: bool)
  {
    p.Some? && p.value.white == whiteToMove
  }

  /**
   * The scenarios in the order they are collected: a move from the first
   * square when it holds a piece of the side to move, one from the second
   * square likewise, the first-to-second "promotion" reading when the
   * first square is empty, and the "capture" reading when the second is.
   */
  function Scenarios(c1: string, c2: string, p1: Option<Piece>, p2: Option<Piece>, whiteToMove: bool): seq<Scenario>
  {
    (if Own(p1, whiteToMove) then [Scenario(c1, c2, p1.value, FromCoord1)] else [])
    + (if Own(p2, whiteToMove) then [Scenario(c2, c1, p2.value, FromCoord2)] else [])
    + (if p1.None? && Own(p2, whiteToMove) then [Scenario(c1, c2, p2.value, PromotionCase)] else [])
    + (if Own(p1, whiteToMove) && p2.None? then [Scenario(c1, c2, p1.value, CaptureCase)] else [])
  }

  /**
   * `_is_legal_move`: the move built from the two names is legal; a name
   * that does not parse raises inside the check and counts as illegal.
   */
  predicate IsLegalMove(b: ChessBoard, fromName: string, toName: string)
  {
    var f := ParseSquare(fromName);
    var t := ParseSquare(toName);
    f.Some? && t.Some? && b.legal(f.value, t.value, None)
  }

  /** The first scenario of kind `k` whose move is legal. */
  function FirstLegalOfKind(b: ChessBoard, scs: seq<Scenario>, k: ScenarioKind): (r: Option<Scenario>)
    ensures r.Some? ==> r.value in scs && r.value.kind == k && IsLegalMove(b, r.value.from, r.value.to)
  {
    if |scs| == 0 then None
    else if scs[0].kind == k && IsLegalMove(b, scs[0].from, scs[0].to) then Some(scs[0])
    else FirstLegalOfKind(b, scs[1..], k)
  }

  /** The nested priority loops: the first kind in `order` that has a legal scenario, and its first such scenario. */
  function FirstByPriority(b: ChessBoard, scs: seq<Scenario>, order: seq<ScenarioKind>): (r: Option<Scenario>)
    ensures r.Some? ==> r.value in scs && IsLegalMove(b, r.value.from, r.value.to)
  {
    if |order| == 0 then None
    else
      var s := FirstLegalOfKind(b, scs, order[0]);
      if s.Some? then s else FirstByPriority(b, scs, order[1..])
  }

  /**
   * `_determine_move_direction` on two names that parse: nothing when no
   * scenario applies, else the first legal scenario by priority, else the
   * first scenario collected.
   */
  function Direction(b: ChessBoard, c1: string, c2: string): Option<Scenario>
    requires ParseSquare(c1).Some? && ParseSquare(c2).Some?
  {
    var scs := Scenarios(c1, c2, b.pieceAt(ParseSquare(c1).value), b.pieceAt(ParseSquare(c2).value), b.whiteToMove);
    if |scs| == 0 then None
    else
      var s := FirstByPriority(b, scs, PriorityOrder);
      if s.Some? then s else Some(scs[0])
  }

  /**
   * The scenario list, then the two nested first-match loops over it:
   * kinds in priority order outside, collected scenarios inside.
   */
  method DetermineMoveDirection(b: ChessBoard, c1: string, c2: string) returns (r: Option<Scenario>)
    requires ParseSquare(c1).Some? && ParseSquare(c2).Some?
    ensures r == Direction(b, c1, c2)
  {
    var p1 := b.pieceAt(ParseSquare(c1).value);
    var p2 := b.pieceAt(ParseSquare(c2).value);
    var turn := b.whiteToMove;
    var scenarios := Scenarios(c1, c2, p1, p2, turn);
    if |scenarios| == 0 {
      return None;
    }
    var i := 0;
    while i < |PriorityOrder|
      invariant 0 <= i <= |PriorityOrder|
      invariant FirstByPriority(b, scenarios, PriorityOrder) == FirstByPriority(b, scenarios, PriorityOrder[i..])
    {
      var k := PriorityOrder[i];
      var j := 0;
      while j < |scenarios|
        invariant 0 <= j <= |scenarios|
        invariant FirstLegalOfKind(b, scenarios, k) == FirstLegalOfKind(b, scenarios[j..], k)
      {
        var s := scenarios[j];
        if s.kind == k && IsLegalMove(b, s.from, s.to) {
          return Some(s);
        }
        assert scenarios[j..][1..] == scenarios[j + 1..];
        j := j + 1;
      }
      assert PriorityOrder[i..][1..] == PriorityOrder[i + 1..];
      i := i + 1;
    }
    return Some(scenarios[0]);
  }

  /** When exactly one scenario has kind `k`, the search for `k` finds it if and only if it is legal; with none, it finds nothing. */
  lemma {:induction false} FirstLegalOfKindSingle(b: ChessBoard, scs: seq<Scenario>, k: ScenarioKind, i: int)
    requires -1 <= i < |scs|
    requires forall j :: 0 <= j < |scs| && j != i ==> scs[j].kind != k
    requires i >= 0 ==> scs[i].kind == k
    ensures i < 0 ==> FirstLegalOfKind(b, scs, k) == None
    ensures i >= 0 ==> FirstLegalOfKind(b, scs, k) == (if IsLegalMove(b, scs[i].from, scs[i].to) then Some(scs[i]) else None)
  {
    if |scs| > 0 {
      if i == 0 {
        FirstLegalOfKindSingle(b, scs[1..], k, -1);
      } else {
        FirstLegalOfKindSingle(b, scs[1..], k, if i < 0 then -1 else i - 1);
      }
    }
  }

  /**
   * The answer case by case: no piece of the side to move on either
   * square gives nothing; otherwise the forward move when it is legal,
   * else the backward move when legal, else the "promotion" reading when
   * legal, else the first scenario collected.  The "capture" scenario
   * repeats the forward move and so is never the answer.
   */
  lemma DirectionSpec(b: ChessBoard, c1: string, c2: string)
    requires ParseSquare(c1).Some? && ParseSquare(c2).Some?
    ensures var p1, p2 := b.pieceAt(ParseSquare(c1).value), b.pieceAt(ParseSquare(c2).value);
      var own1, own2 := Own(p1, b.whiteToMove), Own(p2, b.whiteToMove);
      var l12, l21 := IsLegalMove(b, c1, c2), IsLegalMove(b, c2, c1);
      var r := Direction(b, c1, c2);
      (r == None <==> !own1 && !own2)
      && (own1 && l12 ==> r == Some(Scenario(c1, c2, p1.value, FromCoord1)))
      && (!(own1 && l12) && own2 && l21 ==> r == Some(Scenario(c2, c1, p2.value, FromCoord2)))
      && (!own1 && own2 && !l21 && p1.None? && l12 ==> r == Some(Scenario(c1, c2, p2.value, PromotionCase)))
      && (own1 && !l12 && !(own2 && l21) ==> r == Some(Scenario(c1, c2, p1.value, FromCoord1)))
      && (!own1 && own2 && !l21 && !(p1.None? && l12) ==> r == Some(Scenario(c2, c1, p2.value, FromCoord2)))
      && (r.Some? ==> r.value.kind != CaptureCase && r.value.piece.white == b.whiteToMove)
  {
    var p1, p2 := b.pieceAt(ParseSquare(c1).value), b.pieceAt(ParseSquare(c2).value);
    var own1, own2 := Own(p1, b.whiteToMove), Own(p2, b.whiteToMove);
    var scs := Scenarios(c1, c2, p1, p2, b.whiteToMove);
    FirstLegalOfKindSingle(b, scs, FromCoord1, if own1 then 0 else -1);
    FirstLegalOfKindSingle(b, scs, FromCoord2, if own2 then (if own1 then 1 else 0) else -1);
    FirstLegalOfKindSingle(b, scs, CaptureCase, if own1 && p2.None? then 1 else -1);
    FirstLegalOfKindSingle(b, scs, PromotionCase, if p1.None? && own2 then 1 else -1);
    var o := PriorityOrder;
    assert o[1..][1..][1..][1..] == [];
    assert FirstByPriority(b, scs, o[1..][1..][1..])
        == (if FirstLegalOfKind(b, scs, PromotionCase).Some? then FirstLegalOfKind(b, scs, PromotionCase) else None);
    assert FirstByPriority(b, scs, o[1..][1..]) ==
      (if FirstLegalOfKind(b, scs, CaptureCase).Some? then FirstLegalOfKind(b, scs, CaptureCase)
       else FirstByPriority(b, scs, o[1..][1..][1..]));
    assert FirstByPriority(b, scs, o[1..]) ==
      (if FirstLegalOfKind(b, scs, FromCoord2).Some? then FirstLegalOfKind(b, scs, FromCoord2)
       else FirstByPriority(b, scs, o[1..][1..]));
  }

  /** `_convert_to_san`'s parse of the promotion letter: none, one of "pnbrqk", or a `ValueError` (`None`). */
  function PromotionSuffix(promotion: Option<string>): Option<Option<char>>
  {
    if promotion.None? || promotion.value == "" then Some(None)
    else if |promotion.value| == 1 && promotion.value[0] in "pnbrqk" then Some(Some(promotion.value[0]))
    else None
  }

  /** Why an analysis fails. */
  datatype Failure = BadCoordinates | AnalysisError | NoMoveFound | IllegalMove(from: string, to: string) | ConversionError

  /**
   * The outcome: a failure, or the move with its UCI text, the moved piece,
   * the move number and the side to move.  The SAN text and the check and
   * capture flags come from python-chess and are not modelled.
   */
  datatype PositionResult =
    | Failed(failure: Failure)
    | Succeeded(from: string, to: string, uci: string, piece: Piece, moveNumber: nat, whiteToMove: bool)

  /**
   * `analyze_position_change`: the format check, then the parse (an
   * upper-case file raises there and is reported as an analysis error),
   * then the direction, then the move with its promotion letter must parse
   * and be legal.
   */
  function AnalyzePositionChange(b: ChessBoard, c1: string, c2: string, promotion: Option<string>): PositionResult
  {
    if !IsValidSquare(c1) || !IsValidSquare(c2) then Failed(BadCoordinates)
    else if ParseSquare(c1).None? || ParseSquare(c2).None? then Failed(AnalysisError)
    else match Direction(b, c1, c2)
      case None => Failed(NoMoveFound)
      case Some(s) =>
        var suffix := PromotionSuffix(promotion);
        if suffix.None? then Failed(ConversionError)
        else
          var f, t := ParseSquare(s.from).GetOr(0), ParseSquare(s.to).GetOr(0);
          if !b.legal(f, t, suffix.value) then Failed(IllegalMove(s.from, s.to))
          else
            var uci := s.from + s.to + (if suffix.value.Some? then promotion.value else "");
            Succeeded(s.from, s.to, uci, s.piece, b.moveCount + 1, b.whiteToMove)
  }

  /**
   * Bad text fails first; a validated upper-case file fails as an
   * analysis error; with no piece of the side to move on either square no
   * move is found; a success is a legal move between the two squares, in
   * one direction or the other, by a piece of the side to move, numbered
   * one past the moves played.
   */
  lemma AnalyzePositionChangeSpec(b: ChessBoard, c1: string, c2: string, promotion: Option<string>)
    ensures var r := AnalyzePositionChange(b, c1, c2, promotion);
      (r == Failed(BadCoordinates) <==> !IsValidSquare(c1) || !IsValidSquare(c2))
      && (r == Failed(AnalysisError) <==>
            IsValidSquare(c1) && IsValidSquare(c2) && ('A' <= c1[0] <= 'H' || 'A' <= c2[0] <= 'H'))
      && (ParseSquare(c1).Some? && ParseSquare(c2).Some? ==>
            (r == Failed(NoMoveFound) <==>
               !Own(b.pieceAt(ParseSquare(c1).value), b.whiteToMove)
               && !Own(b.pieceAt(ParseSquare(c2).value), b.whiteToMove)))
      && (r.Succeeded? ==>
            ((r.from, r.to) == (c1, c2) || (r.from, r.to) == (c2, c1))
            && PromotionSuffix(promotion).Some?
            && b.legal(ParseSquare(r.from).value, ParseSquare(r.to).value, PromotionSuffix(promotion).value)
            && r.piece.white == b.whiteToMove
            && r.moveNumber == b.moveCount + 1
            && |r.uci| >= 4 && r.uci[..4] == r.from + r.to)
  {
    if IsValidSquare(c1) && IsValidSquare(c2) {
      ValidButUnparsable(c1);
      ValidButUnparsable(c2);
    }
    var r := AnalyzePositionChange(b, c1, c2, promotion);
    if ParseSquare(c1).Some? && ParseSquare(c2).Some? {
      DirectionSpec(b, c1, c2);
      if r.Succeeded? {
        var s := Direction(b, c1, c2).value;
        assert s in Scenarios(c1, c2, b.pieceAt(ParseSquare(c1).value), b.pieceAt(ParseSquare(c2).value), b.whiteToMove);
        assert (r.from, r.to) == (s.from, s.to);
        assert (r.uci)[..4] == r.from + r.to;
      }
    }
  }

  /** The four kinds of square change `_get_change_type` reports. */
  datatype ChangeType = PieceAppeared | PieceDisappeared | PieceChanged | NoChange

  /** `_get_change_type`: by emptiness before and after, and equality. */
  function ChangeTypeOf(prev: Option<Piece>, curr: Option<Piece>): (c: ChangeType)
    ensures c == NoChange <==> prev == curr
    ensures c == PieceAppeared <==> prev.None? && curr.Some?
    ensures c == PieceDisappeared <==> prev.Some? && curr.None?
    ensures c == PieceChanged <==> prev.Some? && curr.Some? && prev != curr
  {
    if prev.None? && curr.Some? then PieceAppeared
    else if prev.Some? && curr.None? then PieceDisappeared
    else if prev.Some? && curr.Some? && prev != curr then PieceChanged
    else NoChange
  }
}
