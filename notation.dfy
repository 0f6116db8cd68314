/**
 * Rendering squares and pieces as text.  Square names follow section
 * 8.2.3.1 of the PGN Standard (file letter a-h, then rank digit 1-8);
 * piece letters follow the Forsyth-Edwards piece placement of section
 * 16.1.3.1 of the PGN Standard (upper case White, lower case Black).
 */
module Notation {
  import opened Wrappers
  import opened Text
  import opened Board

  /** A square of the 8 x 8 board as the detector produces it (`idx // 8`, `idx % 8`). */
  predicate OnBoard(p: Pos)
  {
    0 <= p.r < 8 && 0 <= p.c < 8
  }

  /** `chr(ord('a') + j)` (the range excludes surrogates, which are not Dafny characters). */
  function FileChar(j: int): char
    requires 0 <= 97 + j < 0xD800
  {
    (97 + j) as char
  }

  /** `coord_to_chess_notation(i, j)`: file `'a' + j` followed by `str(8 - i)`. */
  function CoordToChessNotation(i: int, j: int): string
    requires 0 <= 97 + j < 0xD800
  {
    [FileChar(j)] + IntToString(8 - i)
  }

  function SquareName(p: Pos): string
    requires OnBoard(p)
  {
    CoordToChessNotation(p.r, p.c)
  }

  /** On the board the name is two characters, file letter then rank digit; so (0,0) is "a8" and (7,7) is "h1". */
  lemma NotationOnBoard(i: int, j: int)
    requires 0 <= i < 8 && 0 <= j < 8
    ensures |CoordToChessNotation(i, j)| == 2
    ensures CoordToChessNotation(i, j)[0] as int == 'a' as int + j
    ensures CoordToChessNotation(i, j)[1] as int == '1' as int + (7 - i)
    ensures CoordToChessNotation(0, 0) == "a8" && CoordToChessNotation(7, 7) == "h1"
  {
    assert IntToString(8 - i) == [DigitChar(8 - i)];
    assert IntToString(8) == "8" && IntToString(1) == "1";
  }

  /** Different squares get different names. */
  lemma NotationInjective(i1: int, j1: int, i2: int, j2: int)
    requires 0 <= i1 < 8 && 0 <= j1 < 8 && 0 <= i2 < 8 && 0 <= j2 < 8
    requires CoordToChessNotation(i1, j1) == CoordToChessNotation(i2, j2)
    ensures i1 == i2 && j1 == j2
  {
    NotationOnBoard(i1, j1);
    NotationOnBoard(i2, j2);
  }

  /**
   * python-chess `parse_square(name)`: the index of `name` among the 64
   * lower-case square names, rank-major from a1 = 0 to h8 = 63; any other
   * text raises `ValueError`, modelled as `None`.
   */
  function ParseSquare(name: string): Option<int>
  {
    if |name| == 2 && 'a' <= name[0] <= 'h' && '1' <= name[1] <= '8'
    then Some((name[1] as int - '1' as int) * 8 + (name[0] as int - 'a' as int))
    else None
  }

  /** python-chess `square_name(sq)`, the inverse of `parse_square`. */
  function SquareNameOf(sq: int): string
    requires 0 <= sq < 64
  {
    [('a' as int + sq % 8) as char, ('1' as int + sq / 8) as char]
  }

  /** `parse_square` undoes `coord_to_chess_notation` (row i is rank 8 - i, column j is file j), and `square_name` redoes it. */
  lemma ParseNotation(i: int, j: int)
    requires 0 <= i < 8 && 0 <= j < 8
    ensures ParseSquare(CoordToChessNotation(i, j)) == Some((7 - i) * 8 + j)
    ensures SquareNameOf((7 - i) * 8 + j) == CoordToChessNotation(i, j)
  {
    NotationOnBoard(i, j);
    var sq := (7 - i) * 8 + j;
    assert sq % 8 == j && sq / 8 == 7 - i;
  }

  /** ASCII `str.lower` of one character; no other character lower-cases into a-h. */
  function LowerAscii(c: char): char
  {
    if 'A' <= c <= 'Z' then (c as int + 32) as char else c
  }

  /** ASCII `str.upper` of one character. */
  function UpperAscii(c: char): char
  {
    if 'a' <= c <= 'z' then (c as int - 32) as char else c
  }

  /**
   * `_is_valid_square` (move analyser) and `_is_valid_coordinate` (position
   * analyser): exactly two characters, the first lower-cased in "abcdefgh",
   * the second in "12345678".
   */
  predicate IsValidSquare(coord: string)
  {
    |coord| == 2 && 'a' <= LowerAscii(coord[0]) <= 'h' && '1' <= coord[1] <= '8'
  }

  /** A lower-case valid square is exactly the name of one of the 64 board cells. */
  lemma ValidSquareIsName(coord: string)
    ensures (IsValidSquare(coord) && 'a' <= coord[0] <= 'h')
        <==> exists i, j :: 0 <= i < 8 && 0 <= j < 8 && coord == CoordToChessNotation(i, j)
  {
    if IsValidSquare(coord) && 'a' <= coord[0] <= 'h' {
      var j := coord[0] as int - 'a' as int;
      var i := 7 - (coord[1] as int - '1' as int);
      NotationOnBoard(i, j);
      var s := CoordToChessNotation(i, j);
      assert s[0] == coord[0] && s[1] == coord[1];
      assert coord == s;
    }
    if exists i, j :: 0 <= i < 8 && 0 <= j < 8 && coord == CoordToChessNotation(i, j) {
      var i, j :| 0 <= i < 8 && 0 <= j < 8 && coord == CoordToChessNotation(i, j);
      NotationOnBoard(i, j);
    }
  }

  /**
   * The validator accepts an upper-case file that `parse_square` then
   * rejects: "E2" passes the check but has no square index.
   */
  lemma ValidButUnparsable(coord: string)
    requires IsValidSquare(coord)
    ensures ParseSquare(coord) == None <==> 'A' <= coord[0] <= 'H'
  {
  }

  /** `_is_valid_coordinate` of the keyboard reader: no length check and no lower-casing. */
  predicate IsValidInputCoordinate(coord: string)
    requires |coord| >= 2
  {
    coord[0] in "abcdefgh" && coord[1] in "12345678"
  }

  /** On two-character input the keyboard check is the square check minus upper-case files. */
  lemma InputCoordinateVersusSquare(coord: string)
    requires |coord| == 2
    ensures IsValidInputCoordinate(coord) <==> IsValidSquare(coord) && !('A' <= coord[0] <= 'H')
  {
  }

  /** The six piece kinds `piece_to_fen` knows. */
  predicate IsKind(k: char)
  {
    k == 'K' || k == 'Q' || k == 'R' || k == 'B' || k == 'N' || k == 'P'
  }

  /**
   * `piece_to_fen(piece)`: "" for an empty or one-character code; otherwise
   * the kind letter (looked up after upper-casing, "?" if unknown) in upper
   * case for colour 'W', lower case for 'B', and "?" for any other colour.
   */
  function PieceToFen(piece: string): (fen: string)
    ensures |piece| < 2 <==> fen == ""
    ensures |piece| >= 2 && piece[0] != 'W' && piece[0] != 'B' ==> fen == "?"
    ensures |piece| >= 2 && !IsKind(UpperAscii(piece[1])) ==> fen == "?"
    ensures |piece| >= 2 && piece[0] == 'W' && IsKind(UpperAscii(piece[1])) ==> fen == [UpperAscii(piece[1])]
    ensures |piece| >= 2 && piece[0] == 'B' && IsKind(UpperAscii(piece[1])) ==> fen == [LowerAscii(UpperAscii(piece[1]))]
  {
    if |piece| < 2 then ""
    else
      var kind := UpperAscii(piece[1]);
      var fen := if IsKind(kind) then kind else '?';
      if piece[0] == 'W' then [UpperAscii(fen)]
      else if piece[0] == 'B' then [LowerAscii(fen)]
      else "?"
  }

  /** A well-formed piece code: colour 'W' or 'B' then a kind letter. */
  predicate IsPieceCode(code: string)
  {
    |code| == 2 && (code[0] == 'W' || code[0] == 'B') && IsKind(code[1])
  }

  /** The inverse reading of a FEN piece letter. */
  function FenToPiece(fen: string): Option<string>
  {
    if |fen| != 1 then None
    else if IsKind(fen[0]) then Some(['W', fen[0]])
    else if IsKind(UpperAscii(fen[0])) && 'a' <= fen[0] <= 'z' then Some(['B', UpperAscii(fen[0])])
    else None
  }

  /** Reading a rendered letter gives the code back, so no two codes share a letter. */
  lemma FenRoundTrip(code: string)
    requires IsPieceCode(code)
    ensures FenToPiece(PieceToFen(code)) == Some(code)
  {
    var k := code[1];
    assert UpperAscii(k) == k;
    var low := LowerAscii(k);
    assert 'a' <= low <= 'z' && UpperAscii(low) == k && !IsKind(low);
    assert code == [code[0], k];
  }

  /** `_is_color_piece(code, color)`: a non-empty code whose colour letter matches 'white' or 'black'. */
  predicate IsColorPiece(code: string, color: string)
  {
    code != "" && ((color == "white" && code[0] == 'W') || (color == "black" && code[0] == 'B'))
  }

  /** On well-formed codes, belonging to White is having an upper-case letter and to Black a lower-case one. */
  lemma ColorPieceMatchesFen(code: string)
    requires IsPieceCode(code)
    ensures IsColorPiece(code, "white") <==> 'A' <= PieceToFen(code)[0] <= 'Z'
    ensures IsColorPiece(code, "black") <==> 'a' <= PieceToFen(code)[0] <= 'z'
    ensures forall color :: color != "white" && color != "black" ==> !IsColorPiece(code, color)
  {
    assert UpperAscii(code[1]) == code[1];
  }

  /** The turn toggle: 'black' after 'white', 'white' after anything else. */
  function NextTurnColor(color: string): (next: string)
    ensures next == "white" || next == "black"
    ensures (next == "black") <==> (color == "white")
  {
    if color == "white" then "black" else "white"
  }

  /** Two toggles restore a proper colour. */
  lemma ToggleTwice(color: string)
    requires color == "white" || color == "black"
    ensures NextTurnColor(NextTurnColor(color)) == color && NextTurnColor(color) != color
  {
  }

  /**
   * The move text logged after an update, computed on the board as it was
   * before: "<fen> src-dst" when only src was occupied, "<fen> dst-src" when
   * only dst was, and "? src<->dst" otherwise.
   */
  function MoveString(before: Grid, src: Pos, dst: Pos): string
    requires OnBoard(src) && OnBoard(dst) && InGrid(before, src) && InGrid(before, dst)
  {
    var pieceSrc := At(before, src);
    var pieceDst := At(before, dst);
    if pieceSrc != "" && pieceDst == "" then
      PieceToFen(pieceSrc) + " " + SquareName(src) + "-" + SquareName(dst)
    else if pieceDst != "" && pieceSrc == "" then
      PieceToFen(pieceDst) + " " + SquareName(dst) + "-" + SquareName(src)
    else
      "? " + SquareName(src) + "<->" + SquareName(dst)
  }

  /**
   * The logged text describes the update that was applied: when a move was
   * made it names the piece, the square it left (now empty) and the square it
   * reached (now holding it); otherwise it is the "?" form and the board is
   * unchanged.
   */
  lemma MoveStringDescribesUpdate(before: Grid, src: Pos, dst: Pos)
    requires OnBoard(src) && OnBoard(dst) && InGrid(before, src) && InGrid(before, dst)
    ensures At(before, src) != "" && At(before, dst) == "" ==>
      MoveString(before, src, dst) == PieceToFen(At(before, src)) + " " + SquareName(src) + "-" + SquareName(dst)
      && At(Relocate(before, src, dst), dst) == At(before, src) && At(Relocate(before, src, dst), src) == ""
    ensures At(before, dst) != "" && At(before, src) == "" ==>
      MoveString(before, src, dst) == PieceToFen(At(before, dst)) + " " + SquareName(dst) + "-" + SquareName(src)
      && At(Relocate(before, src, dst), src) == At(before, dst) && At(Relocate(before, src, dst), dst) == ""
    ensures (At(before, src) == "") == (At(before, dst) == "") ==>
      MoveString(before, src, dst) == "? " + SquareName(src) + "<->" + SquareName(dst)
      && Relocate(before, src, dst) == before
  {
    var after := Relocate(before, src, dst);
    if At(before, src) != "" && At(before, dst) == "" {
      RelocateForward(before, src, dst);
      assert At(after, dst) == At(before, src) && At(after, src) == "";
    } else if At(before, dst) != "" && At(before, src) == "" {
      RelocateBackward(before, src, dst);
      assert At(after, src) == At(before, dst) && At(after, dst) == "";
    } else {
      RelocateAmbiguous(before, src, dst);
    }
  }
}
