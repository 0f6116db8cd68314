/**
 * The logical chess board the camera pipeline keeps: an 8 x 8 list of
 * two-letter piece codes ("WP", "BK", ...) with "" for an empty square,
 * row 0 being rank 8 and column 0 file a.  The one update the pipeline
 * makes is `update_chess_pieces`, which moves the piece standing on one of
 * two detected squares onto the other when exactly one of them is occupied.
 */
module Board {
  import opened Wrappers

  /** A square as (row, column) indices into the list of lists. */
  datatype Pos = Pos(r: int, c: int)

  /** The list of lists of piece codes; rows need not all have the same length. */
  type Grid = seq<seq<string>>

  predicate InGrid(g: Grid, p: Pos)
  {
    0 <= p.r < |g| && 0 <= p.c < |g[p.r]|
  }

  /** Two grids with the same number of rows and the same row lengths. */
  predicate SameShape(g: Grid, h: Grid)
  {
    |g| == |h| && forall r :: 0 <= r < |g| ==> |g[r]| == |h[r]|
  }

  /** A full 8 x 8 board. */
  predicate IsBoard(g: Grid)
  {
    |g| == 8 && forall r :: 0 <= r < 8 ==> |g[r]| == 8
  }

  function At(g: Grid, p: Pos): string
    requires InGrid(g, p)
  {
    g[p.r][p.c]
  }

  /** `g[p.r][p.c] = v` */
  function Put(g: Grid, p: Pos, v: string): (h: Grid)
    requires InGrid(g, p)
    ensures SameShape(g, h) && At(h, p) == v
    ensures forall q :: InGrid(g, q) && q != p ==> At(h, q) == At(g, q)
  {
    g[p.r := g[p.r][p.c := v]]
  }

  /** The board after `update_chess_pieces(g, p1, p2)`. */
  function Relocate(g: Grid, p1: Pos, p2: Pos): (h: Grid)
    requires InGrid(g, p1) && InGrid(g, p2)
    ensures SameShape(g, h)
  {
    var piece1 := At(g, p1);
    var piece2 := At(g, p2);
    if piece1 != "" && piece2 == "" then Put(Put(g, p2, piece1), p1, "")
    else if piece2 != "" && piece1 == "" then Put(Put(g, p1, piece2), p2, "")
    else g
  }

  /** An occupied first square and an empty second square: the piece moves from the first to the second. */
  lemma RelocateForward(g: Grid, p1: Pos, p2: Pos)
    requires InGrid(g, p1) && InGrid(g, p2)
    requires At(g, p1) != "" && At(g, p2) == ""
    ensures At(Relocate(g, p1, p2), p2) == At(g, p1)
    ensures At(Relocate(g, p1, p2), p1) == ""
  {
  }

  /** An empty first square and an occupied second square: the piece moves from the second to the first. */
  lemma RelocateBackward(g: Grid, p1: Pos, p2: Pos)
    requires InGrid(g, p1) && InGrid(g, p2)
    requires At(g, p2) != "" && At(g, p1) == ""
    ensures At(Relocate(g, p1, p2), p1) == At(g, p2)
    ensures At(Relocate(g, p1, p2), p2) == ""
  {
  }

  /** Both or neither square occupied, including one square named twice: nothing changes. */
  lemma RelocateAmbiguous(g: Grid, p1: Pos, p2: Pos)
    requires InGrid(g, p1) && InGrid(g, p2)
    requires (At(g, p1) == "") == (At(g, p2) == "") || p1 == p2
    ensures Relocate(g, p1, p2) == g
  {
  }

  /** No square other than the two detected ones ever changes. */
  lemma RelocateFrame(g: Grid, p1: Pos, p2: Pos, q: Pos)
    requires InGrid(g, p1) && InGrid(g, p2) && InGrid(g, q)
    requires q != p1 && q != p2
    ensures At(Relocate(g, p1, p2), q) == At(g, q)
  {
  }

  /** Every cell of the board, row after row. */
  function Cells(g: Grid): seq<string>
  {
    if |g| == 0 then [] else g[0] + Cells(g[1..])
  }

  /** Replacing one row changes the cell multiset by exactly that row. */
  lemma {:induction false} CellsRow(g: Grid, r: nat, row: seq<string>)
    requires r < |g|
    ensures multiset(Cells(g[r := row])) + multiset(g[r]) == multiset(Cells(g)) + multiset(row)
    decreases r
  {
    var h := g[r := row];
    if r == 0 {
      assert h[1..] == g[1..];
    } else {
      CellsRow(g[1..], r - 1, row);
      assert h[1..] == g[1..][r - 1 := row];
      var m0, mh, mg := multiset(g[0]), multiset(Cells(h[1..])), multiset(Cells(g[1..]));
      calc {
        multiset(Cells(h)) + multiset(g[r]);
        (m0 + mh) + multiset(g[r]);
        m0 + (mh + multiset(g[1..][r - 1]));
        m0 + (mg + multiset(row));
        multiset(Cells(g)) + multiset(row);
      }
    }
  }

  lemma MultisetUpdate(s: seq<string>, i: nat, v: string)
    requires i < |s|
    ensures multiset(s[i := v]) + multiset{s[i]} == multiset(s) + multiset{v}
  {
    var pre, post := s[..i], s[i + 1..];
    assert s == pre + [s[i]] + post;
    assert s[i := v] == pre + [v] + post;
  }

  lemma CellsPut(g: Grid, p: Pos, v: string)
    requires InGrid(g, p)
    ensures multiset(Cells(Put(g, p, v))) + multiset{At(g, p)} == multiset(Cells(g)) + multiset{v}
  {
    var row := g[p.r];
    var row' := row[p.c := v];
    CellsRow(g, p.r, row');
    MultisetUpdate(row, p.c, v);
    assert Put(g, p, v) == g[p.r := row'];
    var mh, mg := multiset(Cells(g[p.r := row'])), multiset(Cells(g));
    var a, b, x := multiset(row), multiset(row'), row[p.c];
    assert mh + a == mg + b;
    assert b + multiset{x} == a + multiset{v};
    forall e ensures (mh + multiset{x})[e] == (mg + multiset{v})[e] {
      assert (mh + a)[e] == (mg + b)[e];
      assert (b + multiset{x})[e] == (a + multiset{v})[e];
    }
    assert mh + multiset{x} == mg + multiset{v};
  }

  /**
   * No piece is created or destroyed: the board holds the same multiset of
   * codes (empty squares included) before and after the update.
   */
  lemma RelocateKeepsPieces(g: Grid, p1: Pos, p2: Pos)
    requires InGrid(g, p1) && InGrid(g, p2)
    ensures multiset(Cells(Relocate(g, p1, p2))) == multiset(Cells(g))
  {
    var piece1 := At(g, p1);
    var piece2 := At(g, p2);
    if piece1 != "" && piece2 == "" {
      SwapKeepsCells(g, p2, p1);
    } else if piece2 != "" && piece1 == "" {
      SwapKeepsCells(g, p1, p2);
    }
  }

  /** Writing the piece of `src` onto the empty square `dst` and emptying `src` keeps the cell multiset. */
  lemma SwapKeepsCells(g: Grid, dst: Pos, src: Pos)
    requires InGrid(g, dst) && InGrid(g, src) && At(g, dst) == "" && At(g, src) != ""
    ensures multiset(Cells(Put(Put(g, dst, At(g, src)), src, ""))) == multiset(Cells(g))
  {
    var x := At(g, src);
    var g1 := Put(g, dst, x);
    var g2 := Put(g1, src, "");
    CellsPut(g, dst, x);
    CellsPut(g1, src, "");
    assert At(g1, src) == x;
    var m, m1, m2 := multiset(Cells(g)), multiset(Cells(g1)), multiset(Cells(g2));
    forall e ensures m2[e] == m[e] {
      assert (m1 + multiset{""})[e] == (m + multiset{x})[e];
      assert (m2 + multiset{x})[e] == (m1 + multiset{""})[e];
    }
    assert m2 == m;
  }

  /** Grids of the same shape that agree on every square are equal. */
  lemma GridExt(g: Grid, h: Grid)
    requires SameShape(g, h)
    requires forall q :: InGrid(g, q) ==> At(g, q) == At(h, q)
    ensures g == h
  {
    forall r | 0 <= r < |g| ensures g[r] == h[r] {
      forall c | 0 <= c < |g[r]| ensures g[r][c] == h[r][c] {
        assert InGrid(g, Pos(r, c));
      }
    }
  }

  /** A move that was made (exactly one square occupied) is undone by applying the update again. */
  lemma RelocateUndo(g: Grid, p1: Pos, p2: Pos)
    requires InGrid(g, p1) && InGrid(g, p2)
    requires (At(g, p1) == "") != (At(g, p2) == "")
    ensures Relocate(Relocate(g, p1, p2), p1, p2) == g
  {
    var h := Relocate(g, p1, p2);
    var k := Relocate(h, p1, p2);
    forall q | InGrid(g, q) ensures At(k, q) == At(g, q) {
    }
    GridExt(k, g);
  }

  /** The array as a list of lists, for stating what the in-place update did. */
  ghost function Snapshot(b: array2<string>): (g: Grid)
    reads b
    ensures |g| == b.Length0 && forall r :: 0 <= r < |g| ==> |g[r]| == b.Length1
    ensures forall r, c :: 0 <= r < b.Length0 && 0 <= c < b.Length1 ==> g[r][c] == b[r, c]
  {
    seq(b.Length0, r requires 0 <= r < b.Length0 reads b =>
      seq(b.Length1, c requires 0 <= c < b.Length1 reads b => b[r, c]))
  }

  /**
   * `update_chess_pieces(chess_pieces, pos1, pos2)`: writes the two squares
   * in place and returns the very same board object.
   */
  method UpdateChessPieces(b: array2<string>, pos1: Pos, pos2: Pos) returns (same: array2<string>)
    requires 0 <= pos1.r < b.Length0 && 0 <= pos1.c < b.Length1
    requires 0 <= pos2.r < b.Length0 && 0 <= pos2.c < b.Length1
    modifies b
    ensures same == b
    ensures Snapshot(b) == Relocate(old(Snapshot(b)), pos1, pos2)
  {
    ghost var before := Snapshot(b);
    var piece1 := b[pos1.r, pos1.c];
    var piece2 := b[pos2.r, pos2.c];
    if piece1 != "" && piece2 == "" {
      b[pos2.r, pos2.c] := piece1;
      b[pos1.r, pos1.c] := "";
    } else if piece2 != "" && piece1 == "" {
      b[pos1.r, pos1.c] := piece2;
      b[pos2.r, pos2.c] := "";
    }
    same := b;
    ghost var after := Snapshot(b);
    ghost var expected := Relocate(before, pos1, pos2);
    forall q | InGrid(after, q) ensures At(after, q) == At(expected, q) {
    }
    GridExt(after, expected);
  }

  /** The starting position: Black on rows 0-1, White on rows 6-7. */
  function DefaultChessPieces(): (g: Grid)
    ensures |g| == 8 && forall r :: 0 <= r < 8 ==> |g[r]| == 8
  {
    [ ["BR", "BN", "BB", "BQ", "BK", "BB", "BN", "BR"],
      ["BP", "BP", "BP", "BP", "BP", "BP", "BP", "BP"],
      ["", "", "", "", "", "", "", ""],
      ["", "", "", "", "", "", "", ""],
      ["", "", "", "", "", "", "", ""],
      ["", "", "", "", "", "", "", ""],
      ["WP", "WP", "WP", "WP", "WP", "WP", "WP", "WP"],
      ["WR", "WN", "WB", "WQ", "WK", "WB", "WN", "WR"] ]
  }

  /** The back-rank order shared by both sides. */
  function BackRank(c: int): string
    requires 0 <= c < 8
  {
    ["R", "N", "B", "Q", "K", "B", "N", "R"][c]
  }

  /** Rows 0 and 7 hold the back ranks, rows 1 and 6 the pawns, rows 2-5 are empty. */
  lemma DefaultLayout(r: int, c: int)
    requires 0 <= r < 8 && 0 <= c < 8
    ensures var p := DefaultChessPieces()[r][c];
      (r == 0 ==> p == "B" + BackRank(c)) && (r == 7 ==> p == "W" + BackRank(c))
      && (r == 1 ==> p == "BP") && (r == 6 ==> p == "WP")
      && (2 <= r <= 5 ==> p == "")
  {
  }

  /** What unpickling the saved board produced: nothing usable, or some list of rows. */
  datatype Loaded = Unreadable | NotAList | Rows(rows: Grid)

  /** `load_chess_pieces`: the saved board if it is a list of 8 rows, otherwise the starting position. */
  function LoadChessPieces(loaded: Loaded): (g: Grid)
    ensures |g| == 8
    ensures loaded.Rows? && |loaded.rows| == 8 ==> g == loaded.rows
    ensures !(loaded.Rows? && |loaded.rows| == 8) ==> g == DefaultChessPieces()
  {
    if loaded.Rows? && |loaded.rows| == 8 then loaded.rows else DefaultChessPieces()
  }
}
