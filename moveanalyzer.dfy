/**
 * The move analyser of the keyboard game: given two typed squares, decide
 * which one the side to move moved from.  Validation accepts an upper-case
 * file ("E2") but python-chess's `parse_square` does not, so the code as
 * written raises on such input.  `AnalyzeCoordinatesAsWritten` keeps that
 * behaviour, and `AnalyzeMoveWithContext` is built on it, as the code is;
 * `AnalyzeCoordinates` lower-cases the file first and is the reference the
 * accepted reports are stated against.
 */
module MoveAnalyzer {
  import opened Wrappers
  import opened Notation
  import opened Chess

  /**
   * `_is_valid_move`: both names parse, a piece of the side to move stands
   * on the source, and the plain move is legal.  A name that does not parse
   * raises `ValueError`, which this check catches and reports as false.
   */
  predicate IsValidMove(b: ChessBoard, fromName: string, toName: string)
  {
    var f := ParseSquare(fromName);
    var t := ParseSquare(toName);
    f.Some? && t.Some? && b.pieceAt(f.value).Some?
    && b.pieceAt(f.value).value.white == b.whiteToMove
    && b.legal(f.value, t.value, None)
  }

  /** What `analyze_coordinates` as written can do: return a pair or nothing, or raise `ValueError`. */
  datatype Analyzed = Returned(pair: Option<(string, string)>) | ValueErrorRaised

  /**
   * `analyze_coordinates` as written: reject invalid or identical text,
   * then parse both names without catching the error, then try the
   * typed order before the reversed one.
   */
  function AnalyzeCoordinatesAsWritten(b: ChessBoard, c1: string, c2: string): Analyzed
  {
    if !IsValidSquare(c1) || !IsValidSquare(c2) then Returned(None)
    else if c1 == c2 then Returned(None)
    else if ParseSquare(c1).None? || ParseSquare(c2).None? then ValueErrorRaised
    else if IsValidMove(b, c1, c2) then Returned(Some((c1, c2)))
    else if IsValidMove(b, c2, c1) then Returned(Some((c2, c1)))
    else Returned(None)
  }

  /**
   * The discrepancy: two distinct squares that pass validation make the
   * analyser raise exactly when one of them has an upper-case file, for
   * example "E2" and "e4".
   */
  lemma UpperCaseFileRaises(b: ChessBoard, c1: string, c2: string)
    requires IsValidSquare(c1) && IsValidSquare(c2) && c1 != c2
    ensures AnalyzeCoordinatesAsWritten(b, c1, c2) == ValueErrorRaised
        <==> 'A' <= c1[0] <= 'H' || 'A' <= c2[0] <= 'H'
    ensures AnalyzeCoordinatesAsWritten(b, "E2", "e4") == ValueErrorRaised
  {
    ValidButUnparsable(c1);
    ValidButUnparsable(c2);
  }

  /** A validated square with its file lower-cased, the form `parse_square` accepts. */
  function LowerSquare(c: string): (n: string)
    requires IsValidSquare(c)
    ensures |n| == 2 && 'a' <= n[0] <= 'h' && n[1] == c[1]
    ensures ParseSquare(n).Some?
  {
    [LowerAscii(c[0]), c[1]]
  }

  /**
   * `analyze_coordinates` as evidently intended: the validator's
   * case-insensitive file is lower-cased before comparing and parsing.
   */
  function AnalyzeCoordinates(b: ChessBoard, c1: string, c2: string): Option<(string, string)>
  {
    if !IsValidSquare(c1) || !IsValidSquare(c2) then None
    else
      var n1 := LowerSquare(c1);
      var n2 := LowerSquare(c2);
      if n1 == n2 then None
      else if IsValidMove(b, n1, n2) then Some((n1, n2))
      else if IsValidMove(b, n2, n1) then Some((n2, n1))
      else None
  }

  /**
   * Invalid text and one square typed twice give nothing; otherwise the
   * answer is the typed order when that is a valid move, else the reversed
   * order when that is, else nothing; a returned move starts on a piece of
   * the side to move and is legal.
   */
  lemma AnalyzeCoordinatesSpec(b: ChessBoard, c1: string, c2: string)
    ensures !IsValidSquare(c1) || !IsValidSquare(c2) ==> AnalyzeCoordinates(b, c1, c2) == None
    ensures IsValidSquare(c1) && IsValidSquare(c2) ==>
      var n1, n2 := LowerSquare(c1), LowerSquare(c2);
      var r := AnalyzeCoordinates(b, c1, c2);
      (n1 == n2 ==> r == None)
      && (n1 != n2 && IsValidMove(b, n1, n2) ==> r == Some((n1, n2)))
      && (n1 != n2 && !IsValidMove(b, n1, n2) && IsValidMove(b, n2, n1) ==> r == Some((n2, n1)))
      && (r == None ==> n1 == n2 || (!IsValidMove(b, n1, n2) && !IsValidMove(b, n2, n1)))
    ensures var r := AnalyzeCoordinates(b, c1, c2);
      r.Some? ==>
        var f, t := ParseSquare(r.value.0), ParseSquare(r.value.1);
        f.Some? && t.Some? && f != t
        && b.pieceAt(f.value).Some? && b.pieceAt(f.value).value.white == b.whiteToMove
        && b.legal(f.value, t.value, None)
  {
    var r := AnalyzeCoordinates(b, c1, c2);
    if r.Some? {
      var n1, n2 := LowerSquare(c1), LowerSquare(c2);
      assert n1 != n2;
      assert ParseSquare(n1) != ParseSquare(n2) by {
        if n1[0] == n2[0] { assert n1[1] != n2[1]; }
      }
    }
  }

  /** On lower-case input the correction changes nothing: it agrees with the code as written. */
  lemma AnalyzeCoordinatesAgrees(b: ChessBoard, c1: string, c2: string)
    requires |c1| == 2 && |c2| == 2 && !('A' <= c1[0] <= 'H') && !('A' <= c2[0] <= 'H')
    ensures AnalyzeCoordinatesAsWritten(b, c1, c2) == Returned(AnalyzeCoordinates(b, c1, c2))
  {
    if IsValidSquare(c1) && IsValidSquare(c2) {
      assert LowerSquare(c1) == c1 && LowerSquare(c2) == c2;
    }
  }

  /** `_get_move_type`: the shared priority over the board's classification of the move. */
  function MoveTypeOf(b: ChessBoard, from: int, to: int, promotion: Option<char>): MoveType
  {
    Classify(MoveFlags(b.isCastling(from, to), b.isEnPassant(from, to), b.isCapture(from, to), promotion.Some?))
  }

  /** The three reasons `analyze_move_with_context` gives for rejecting input. */
  datatype Reason = InvalidFormat | SameSquare | InvalidMove

  /**
   * The result record: rejected with a reason, accepted with the move, the
   * moved piece and the move type, or the `ValueError` the analyser raises.
   */
  datatype Report =
    | Rejected(reason: Reason)
    | Accepted(from: string, to: string, piece: Option<Piece>, moveType: MoveType)
    | Raised

  /**
   * `analyze_move_with_context`: the format check, the identical-text
   * check, then the analyser as written, whose error is not caught; an
   * accepted move reports the piece on its source and the type of the
   * plain move.
   */
  function AnalyzeMoveWithContext(b: ChessBoard, c1: string, c2: string): Report
  {
    if !IsValidSquare(c1) || !IsValidSquare(c2) then Rejected(InvalidFormat)
    else if c1 == c2 then Rejected(SameSquare)
    else match AnalyzeCoordinatesAsWritten(b, c1, c2)
      case ValueErrorRaised => Raised
      case Returned(None) => Rejected(InvalidMove)
      case Returned(Some((f, t))) =>
        var fs := ParseSquare(f).GetOr(0);
        var ts := ParseSquare(t).GetOr(0);
        Accepted(f, t, b.pieceAt(fs), MoveTypeOf(b, fs, ts, None))
  }

  /**
   * Each rejection names the first check that failed; two distinct valid
   * squares raise exactly when one has an upper-case file ("E2" with "e4",
   * and also "E2" with "e2", whose texts differ); otherwise the report is
   * valid exactly when the corrected analyser finds a move, and then it
   * carries that move, a piece of the side to move, and never the
   * promotion type (the move it classifies has no promotion piece).
   */
  lemma AnalyzeMoveWithContextSpec(b: ChessBoard, c1: string, c2: string)
    ensures var rep := AnalyzeMoveWithContext(b, c1, c2);
      (rep.Rejected? && rep.reason == InvalidFormat <==> !IsValidSquare(c1) || !IsValidSquare(c2))
      && (rep.Rejected? && rep.reason == SameSquare <==> IsValidSquare(c1) && IsValidSquare(c2) && c1 == c2)
      && (rep.Raised? <==> IsValidSquare(c1) && IsValidSquare(c2) && c1 != c2
                           && ('A' <= c1[0] <= 'H' || 'A' <= c2[0] <= 'H'))
      && (rep.Accepted? <==> IsValidSquare(c1) && IsValidSquare(c2) && c1 != c2
                             && !('A' <= c1[0] <= 'H') && !('A' <= c2[0] <= 'H')
                             && AnalyzeCoordinates(b, c1, c2).Some?)
      && (rep.Accepted? ==>
            AnalyzeCoordinates(b, c1, c2) == Some((rep.from, rep.to))
            && rep.piece.Some? && rep.piece.value.white == b.whiteToMove
            && rep.moveType != Promotion)
    ensures AnalyzeMoveWithContext(b, "E2", "e4") == Raised
    ensures AnalyzeMoveWithContext(b, "E2", "e2") == Raised
  {
    AnalyzeCoordinatesSpec(b, c1, c2);
    if IsValidSquare(c1) && IsValidSquare(c2) && c1 != c2 {
      UpperCaseFileRaises(b, c1, c2);
      if !('A' <= c1[0] <= 'H') && !('A' <= c2[0] <= 'H') {
        AnalyzeCoordinatesAgrees(b, c1, c2);
      }
    }
    UpperCaseFileRaises(b, "E2", "e4");
    UpperCaseFileRaises(b, "E2", "e2");
  }
}
