/**
 * The keyboard move reader: it keeps reading lines until one is a quit
 * word or a four-character move the side to move can play.  The console
 * is a finite sequence of lines; running out of lines is an outcome of
 * its own.
 */
module PlayerInput {
  import opened Wrappers
  import opened Text
  import opened Notation
  import opened Chess
  import opened MoveAnalyzer

  /** ASCII `str.lower` of a whole line. */
  function LowerText(s: string): (t: string)
    ensures |t| == |s| && forall i :: 0 <= i < |s| ==> t[i] == LowerAscii(s[i])
  {
    if |s| == 0 then "" else [LowerAscii(s[0])] + LowerText(s[1..])
  }

  /** What one line of input leads to. */
  datatype LineOutcome = QuitWord | Chosen(from: int, to: int) | Retry

  /**
   * One pass of the loop in `get_move_from_user`: the stripped,
   * lower-cased line is a quit word, or four characters forming two
   * squares that the move analyser turns into a legal move; anything else
   * prints an error and asks again.
   */
  function ReadLine(b: ChessBoard, raw: string): LineOutcome
  {
    ReadNormalised(b, LowerText(Strip(raw)))
  }

  /** The decision on the stripped, lower-cased line. */
  function ReadNormalised(b: ChessBoard, u: string): LineOutcome
  {
    if u == "q" || u == "quit" || u == "exit" then QuitWord
    else if |u| != 4 then Retry
    else
      var c1, c2 := u[..2], u[2..];
      if !IsValidInputCoordinate(c1) || !IsValidInputCoordinate(c2) then Retry
      else match AnalyzeCoordinates(b, c1, c2)
        case None => Retry
        case Some((f, t)) =>
          var fs, ts := ParseSquare(f), ParseSquare(t);
          if fs.Some? && ts.Some? && b.legal(fs.value, ts.value, None) then Chosen(fs.value, ts.value)
          else Retry
  }

  /**
   * A chosen move is a legal move of a piece of the side to move between
   * the two typed squares, in one order or the other; a line whose
   * stripped length is not four is asked again unless it is a quit word.
   */
  lemma ReadLineSpec(b: ChessBoard, raw: string)
    ensures var u := LowerText(Strip(raw));
      (ReadLine(b, raw) == QuitWord <==> u in {"q", "quit", "exit"})
      && (|u| != 4 && u !in {"q", "quit", "exit"} ==> ReadLine(b, raw) == Retry)
      && (ReadLine(b, raw).Chosen? ==>
            var m := ReadLine(b, raw);
            |u| == 4 && m.from != m.to
            && b.pieceAt(m.from).Some? && b.pieceAt(m.from).value.white == b.whiteToMove
            && b.legal(m.from, m.to, None)
            && ((ParseSquare(u[..2]), ParseSquare(u[2..])) == (Some(m.from), Some(m.to))
                || (ParseSquare(u[..2]), ParseSquare(u[2..])) == (Some(m.to), Some(m.from))))
  {
    var u := LowerText(Strip(raw));
    if ReadLine(b, raw).Chosen? {
      var c1, c2 := u[..2], u[2..];
      AnalyzeCoordinatesSpec(b, c1, c2);
      InputCoordinateVersusSquare(c1);
      InputCoordinateVersusSquare(c2);
      assert LowerSquare(c1) == c1 && LowerSquare(c2) == c2;
    }
  }

  /** Text with no whitespace at either end is only lower-cased. */
  lemma NormalisedUnpadded(raw: string)
    requires |raw| > 0 && !IsSpace(raw[0]) && !IsSpace(raw[|raw| - 1])
    ensures LowerText(Strip(raw)) == LowerText(raw)
  {
    StripNoSpace(raw);
  }

  /** Lower-casing comes first, so a move typed with capital files reads the same as in lower case. */
  lemma CapitalFilesAccepted(b: ChessBoard)
    ensures ReadLine(b, "E2E4") == ReadLine(b, "e2e4")
  {
    NormalisedUnpadded("E2E4");
    NormalisedUnpadded("e2e4");
    assert LowerText("E2E4") == "e2e4";
    assert LowerText("e2e4") == "e2e4";
  }

  /** What `get_move_from_user` returns, or that the lines ran out first. */
  datatype InputResult = Quit | Move(from: int, to: int) | NoMoreInput

  /** The outcome of the first line that is not asked again. */
  function FirstDecision(b: ChessBoard, lines: seq<string>): InputResult
  {
    if |lines| == 0 then NoMoreInput
    else match ReadLine(b, lines[0])
      case Retry => FirstDecision(b, lines[1..])
      case QuitWord => Quit
      case Chosen(f, t) => Move(f, t)
  }

  /**
   * `get_move_from_user`: read line after line until one decides; `used`
   * is the number of lines consumed, the last of them the deciding one.
   */
  method GetMoveFromUser(b: ChessBoard, lines: seq<string>) returns (r: InputResult, used: nat)
    ensures r == FirstDecision(b, lines)
    ensures used <= |lines| && (r.NoMoreInput? || used >= 1)
    ensures forall j :: 0 <= j < used - 1 ==> ReadLine(b, lines[j]) == Retry
    ensures r.NoMoreInput? <==> used == |lines| && (used == 0 || ReadLine(b, lines[used - 1]) == Retry)
    ensures r == Quit ==> ReadLine(b, lines[used - 1]) == QuitWord
    ensures r.Move? ==> ReadLine(b, lines[used - 1]) == Chosen(r.from, r.to)
  {
    var k := 0;
    while k < |lines|
      invariant 0 <= k <= |lines|
      invariant forall j :: 0 <= j < k ==> ReadLine(b, lines[j]) == Retry
      invariant FirstDecision(b, lines) == FirstDecision(b, lines[k..])
    {
      var outcome := ReadLine(b, lines[k]);
      if outcome == QuitWord {
        return Quit, k + 1;
      }
      if outcome.Chosen? {
        return Move(outcome.from, outcome.to), k + 1;
      }
      assert lines[k..][1..] == lines[k + 1..];
      k := k + 1;
    }
    return NoMoreInput, k;
  }
}
