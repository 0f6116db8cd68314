/**
 * The terminal board display's two computed lines: the engine evaluation
 * (a mate announcement, or white's and black's winning chances in whole
 * percent) and the name of the suggested move's type.  The engine's
 * probability is a real number here; Python's float rounding error is
 * not modelled.
 */
module Display {
  import opened Wrappers
  import opened Chess

  /** `_resolve_move_type_name`: the name of the first flag set, in the shared priority order. */
  function ResolveMoveTypeName(d: MoveTypeDict): string
  {
    if Flag(d, "is_castling") then "캐슬링"
    else if Flag(d, "is_en_passant") then "앙파상"
    else if Flag(d, "is_capture") then "기물 잡기"
    else if Flag(d, "is_promotion") then "프로모션"
    else "일반 이동"
  }

  /**
   * The name is the one of the record's classification: castling before
   * en passant before capture before promotion, and a normal move when
   * no flag is set.
   */
  lemma ResolveMoveTypeNameSpec(d: MoveTypeDict)
    ensures ResolveMoveTypeName(d) == TypeName(Classify(FlagsOf(d)))
    ensures ResolveMoveTypeName(d) == "일반 이동"
        <==> !Flag(d, "is_castling") && !Flag(d, "is_en_passant") && !Flag(d, "is_capture") && !Flag(d, "is_promotion")
  {
    if ResolveMoveTypeName(d) == "일반 이동" {
      TypeNameInjective(Classify(FlagsOf(d)), Normal);
    }
  }

  /** The type line is printed only when the evaluation has a move-type record and a best move. */
  function MoveTypeLine(moveType: Option<MoveTypeDict>, bestMove: Option<string>): Option<string>
  {
    if moveType.Some? && |moveType.value| > 0 && bestMove.Some? && bestMove.value != ""
    then Some(ResolveMoveTypeName(moveType.value))
    else None
  }

  /**
   * The type line is printed exactly when the record is non-empty and the
   * best move is a non-empty text, and it names the record's classification.
   */
  lemma MoveTypeLineSpec(moveType: Option<MoveTypeDict>, bestMove: Option<string>)
    ensures MoveTypeLine(moveType, bestMove).Some?
        <==> moveType.Some? && |moveType.value| > 0 && bestMove.Some? && bestMove.value != ""
    ensures MoveTypeLine(moveType, bestMove).Some? ==>
      MoveTypeLine(moveType, bestMove).value == TypeName(Classify(FlagsOf(moveType.value)))
  {
    if moveType.Some? {
      ResolveMoveTypeNameSpec(moveType.value);
    }
  }

  /** Python's `round` on a number: to the nearest integer, a tie going to the even one. */
  function RoundHalfEven(x: real): (n: int)
    ensures (n as real - x) * 2.0 <= 1.0 && (x - n as real) * 2.0 <= 1.0
    ensures (n as real - x) * 2.0 == 1.0 || (x - n as real) * 2.0 == 1.0 ==> n % 2 == 0
  {
    var f := x.Floor;
    var frac := x - f as real;
    if frac * 2.0 < 1.0 then f
    else if frac * 2.0 > 1.0 then f + 1
    else if f % 2 == 0 then f else f + 1
  }

  /** What the evaluation line shows. */
  datatype Evaluation =
    | MateLine(mate: int)
    | ChanceLine(white: int, black: int, cp: Option<int>)
    | Unavailable

  /**
   * `_print_engine_evaluation`: a mate score wins over the win
   * probability; white's share is the probability in whole percent and
   * black's the rest.
   */
  function EvaluationLine(mate: Option<int>, winProbWhite: Option<real>, cp: Option<int>): Evaluation
  {
    if mate.Some? then MateLine(mate.value)
    else if winProbWhite.Some? then
      var w := RoundHalfEven(winProbWhite.value * 100.0);
      ChanceLine(w, 100 - w, cp)
    else Unavailable
  }

  /**
   * A mate score is always shown in place of the chances; the two shares
   * add up to 100, each lies in 0..100 for a probability in [0, 1], and
   * white's share is within half a percent of the probability.
   */
  lemma EvaluationLineSpec(mate: Option<int>, winProbWhite: Option<real>, cp: Option<int>)
    ensures var e := EvaluationLine(mate, winProbWhite, cp);
      (e.MateLine? <==> mate.Some?)
      && (e.Unavailable? <==> mate.None? && winProbWhite.None?)
      && (e.ChanceLine? ==>
            e.white + e.black == 100 && e.cp == cp
            && (e.white as real - winProbWhite.value * 100.0) * 2.0 <= 1.0
            && (winProbWhite.value * 100.0 - e.white as real) * 2.0 <= 1.0
            && (0.0 <= winProbWhite.value <= 1.0 ==> 0 <= e.white <= 100 && 0 <= e.black <= 100))
  {
  }

  /** A higher winning probability never shows a smaller share for white. */
  lemma ChanceMonotone(p: real, q: real)
    requires p <= q
    ensures RoundHalfEven(p * 100.0) <= RoundHalfEven(q * 100.0)
  {
    RoundMonotone(p * 100.0, q * 100.0);
  }

  lemma RoundMonotone(x: real, y: real)
    requires x <= y
    ensures RoundHalfEven(x) <= RoundHalfEven(y)
  {
    var fx, fy := x.Floor, y.Floor;
    assert fx <= fy;
    if fx == fy {
      assert x - fx as real <= y - fy as real;
    }
  }
}
