// Integer arithmetic that carves a warped board image into an 8x8 grid of
// cells: cell sizes and margins, the margined region of a cell clipped to the
// image, a cell's pixel rectangle and centre, and the numbered centres of the
// playable (dark) squares.

module CellGeometry {
  import opened Colour

  /** `_split_sizes`: cell height and width, and margins `int(cell * 0.08)`. */
  datatype Sizes = Sizes(csH: int, csW: int, my: int, mx: int)

  /** `int(cs * CELL_MARGIN_RATIO)` with the ratio 0.08 taken exactly. */
  function Margin(cs: nat): nat
  {
    cs * 8 / 100
  }

  lemma MarginSmall(cs: nat)
    ensures Margin(cs) * 100 <= cs * 8
    ensures cs >= 1 ==> 2 * Margin(cs) + 1 <= cs
  {
  }

  function SplitSizes(h: nat, w: nat, grid: nat): (s: Sizes)
    requires grid > 0
    ensures s.csH >= 0 && s.csW >= 0 && s.my >= 0 && s.mx >= 0
  {
    var csH, csW := h / grid, w / grid;
    Sizes(csH, csW, Margin(csH), Margin(csW))
  }

  /** The grid covers the image up to less than one cell per side, and a non-empty cell keeps a non-empty core after both margins. */
  lemma SplitSizesSpec(h: nat, w: nat, grid: nat)
    requires grid > 0
    ensures var s := SplitSizes(h, w, grid);
      s.csH * grid <= h < (s.csH + 1) * grid && s.csW * grid <= w < (s.csW + 1) * grid
      && (s.csH >= 1 ==> 2 * s.my < s.csH) && (s.csW >= 1 ==> 2 * s.mx < s.csW)
  {
    var s := SplitSizes(h, w, grid);
    DivSpan(h, grid);
    DivSpan(w, grid);
    MarginSmall(s.csH);
    MarginSmall(s.csW);
  }

  /** Floor division brackets its dividend between two consecutive multiples of the divisor. */
  lemma DivSpan(h: nat, grid: nat)
    requires grid > 0
    ensures (h / grid) * grid <= h < (h / grid + 1) * grid
  {
    var q, r := h / grid, h % grid;
    assert h == q * grid + r;
    assert (q + 1) * grid == q * grid + grid;
  }

  /** A half-open pixel rectangle `[y1, y2) x [x1, x2)`. */
  datatype Region = Region(y1: int, y2: int, x1: int, x2: int)

  function Max(a: int, b: int): int { if a < b then b else a }
  function Min(a: int, b: int): int { if a < b then a else b }

  /** `_cell_region`: the margined cell, first clamped into the image, then widened to at least one pixel. */
  function CellRegion(i: int, j: int, s: Sizes, hh: int, ww: int): Region
  {
    var y1 := Max(0, Min(i * s.csH + s.my, hh - 1));
    var y2 := Max(y1 + 1, Min((i + 1) * s.csH - s.my, hh));
    var x1 := Max(0, Min(j * s.csW + s.mx, ww - 1));
    var x2 := Max(x1 + 1, Min((j + 1) * s.csW - s.mx, ww));
    Region(y1, y2, x1, x2)
  }

  /** Whatever the indices and sizes, the region is non-empty and inside an image of at least one pixel. */
  lemma CellRegionInBounds(i: int, j: int, s: Sizes, hh: int, ww: int)
    requires hh >= 1 && ww >= 1
    ensures var r := CellRegion(i, j, s, hh, ww);
      0 <= r.y1 <= hh - 1 && r.y1 < r.y2 <= hh && 0 <= r.x1 <= ww - 1 && r.x1 < r.x2 <= ww
  {
  }

  /** For an image at least one cell per pixel and a cell of the grid, the region is exactly the cell minus its margins. */
  lemma CellRegionInsideCell(i: int, j: int, hh: nat, ww: nat, grid: nat)
    requires grid > 0 && hh >= grid && ww >= grid && 0 <= i < grid && 0 <= j < grid
    ensures var s := SplitSizes(hh, ww, grid);
      CellRegion(i, j, s, hh, ww) == Region(i * s.csH + s.my, (i + 1) * s.csH - s.my, j * s.csW + s.mx, (j + 1) * s.csW - s.mx)
      && i * s.csH <= i * s.csH + s.my < (i + 1) * s.csH - s.my <= (i + 1) * s.csH
      && j * s.csW <= j * s.csW + s.mx < (j + 1) * s.csW - s.mx <= (j + 1) * s.csW
  {
    var s := SplitSizes(hh, ww, grid);
    SplitSizesSpec(hh, ww, grid);
    AxisInside(i, grid, s.csH, s.my, hh);
    AxisInside(j, grid, s.csW, s.mx, ww);
    AxisClamp(i * s.csH + s.my, (i + 1) * s.csH - s.my, hh);
    AxisClamp(j * s.csW + s.mx, (j + 1) * s.csW - s.mx, ww);
  }

  /** Along one axis, the margined cell `i` of a grid that fits the image lies inside the image and keeps a core. */
  lemma AxisInside(i: int, grid: nat, cs: int, m: nat, hh: int)
    requires 0 <= i < grid && cs >= 1 && 2 * m < cs && cs * grid <= hh
    ensures 0 <= i * cs && i * cs + m < (i + 1) * cs - m && (i + 1) * cs <= hh
  {
    MulMono(i + 1, grid, cs);
    RowSplit(i, cs);
  }

  /** Clamping leaves a span already inside the image alone. */
  lemma AxisClamp(a: int, b: int, hh: int)
    requires 0 <= a < b <= hh
    ensures Max(0, Min(a, hh - 1)) == a && Max(a + 1, Min(b, hh)) == b
  {
  }

  lemma MulMono(a: int, b: int, c: nat)
    requires a <= b
    ensures a * c <= b * c
  {
  }

  // ---------------------------------------------------------- pixel access

  /** `_cell_mean_bgr`'s slice `img[i*cs_h:(i+1)*cs_h, j*cs_w:(j+1)*cs_w]`. */
  function CellRect(i: int, j: int, csH: int, csW: int): Region
  {
    Region(i * csH, (i + 1) * csH, j * csW, (j + 1) * csW)
  }

  /** Cells of the 8x8 grid lie inside an image of `8*cs_h` x `8*cs_w` pixels, and different cells never share a pixel. */
  lemma CellRectsTile(i: int, j: int, k: int, l: int, csH: nat, csW: nat, y: int, x: int)
    requires 0 <= i < 8 && 0 <= j < 8 && 0 <= k < 8 && 0 <= l < 8
    ensures var a := CellRect(i, j, csH, csW);
      0 <= a.y1 <= a.y2 <= 8 * csH && 0 <= a.x1 <= a.x2 <= 8 * csW
    ensures var a, b := CellRect(i, j, csH, csW), CellRect(k, l, csH, csW);
      (i, j) != (k, l) && a.y1 <= y < a.y2 && a.x1 <= x < a.x2 ==> !(b.y1 <= y < b.y2 && b.x1 <= x < b.x2)
  {
    MulMono(i + 1, 8, csH);
    MulMono(j + 1, 8, csW);
    if i < k {
      MulMono(i + 1, k, csH);
    } else if k < i {
      MulMono(k + 1, i, csH);
    }
    if j < l {
      MulMono(j + 1, l, csW);
    } else if l < j {
      MulMono(l + 1, j, csW);
    }
  }

  /** An image as rows of pixels. */
  predicate Contains(img: seq<seq<Color3>>, r: Region)
  {
    0 <= r.y1 <= r.y2 <= |img| && 0 <= r.x1 <= r.x2
    && forall y :: r.y1 <= y < r.y2 ==> r.x2 <= |img[y]|
  }

  /** The pixels of a rectangle, row by row (`reshape(-1, 3)`). */
  function Pixels(img: seq<seq<Color3>>, r: Region): (p: seq<Color3>)
    requires Contains(img, r)
    ensures |p| == (r.y2 - r.y1) * (r.x2 - r.x1)
    decreases r.y2 - r.y1
  {
    if r.y1 == r.y2 then []
    else
      assert (r.y2 - r.y1) * (r.x2 - r.x1) == (r.x2 - r.x1) + (r.y2 - (r.y1 + 1)) * (r.x2 - r.x1);
      img[r.y1][r.x1..r.x2] + Pixels(img, Region(r.y1 + 1, r.y2, r.x1, r.x2))
  }

  /** `(a + 1) * w` splits into one row and the rest. */
  lemma RowSplit(a: int, w: int)
    ensures (a + 1) * w == w + a * w
  {
  }

  /** Pixel `(dy, dx)` of the rectangle sits at flat position `dy * w + dx` of its pixels: exactly the rectangle is read, row by row. */
  lemma {:induction false} PixelsAt(img: seq<seq<Color3>>, r: Region, dy: nat, dx: nat)
    requires Contains(img, r) && dy < r.y2 - r.y1 && dx < r.x2 - r.x1
    ensures var w := r.x2 - r.x1;
      dy * w + dx < |Pixels(img, r)| && Pixels(img, r)[dy * w + dx] == img[r.y1 + dy][r.x1 + dx]
    decreases dy
  {
    var w := r.x2 - r.x1;
    var rest := Region(r.y1 + 1, r.y2, r.x1, r.x2);
    var row := img[r.y1][r.x1..r.x2];
    var tail := Pixels(img, rest);
    FirstRow(img, r);
    assert |row| == w;
    if dy > 0 {
      var k, k' := dy * w + dx, (dy - 1) * w + dx;
      PixelsAt(img, rest, dy - 1, dx);
      FlatStep(dy, w, dx);
      assert k == w + k' && k' < |tail|;
      ConcatIndex(row, tail, k);
    } else {
      assert dy * w + dx == dx;
    }
  }

  /** The pixels of a non-empty rectangle are its first row, then the rest. */
  lemma FirstRow(img: seq<seq<Color3>>, r: Region)
    requires Contains(img, r) && r.y1 < r.y2
    ensures Contains(img, Region(r.y1 + 1, r.y2, r.x1, r.x2))
    ensures Pixels(img, r) == img[r.y1][r.x1..r.x2] + Pixels(img, Region(r.y1 + 1, r.y2, r.x1, r.x2))
  {
  }

  /** Going one row down moves the flat position on by one row's width. */
  lemma FlatStep(dy: nat, w: int, dx: int)
    requires dy > 0
    ensures dy * w + dx == w + ((dy - 1) * w + dx)
  {
    RowSplit(dy - 1, w);
  }

  /** Indexing past the first part of a concatenation reads the second. */
  lemma ConcatIndex<T>(a: seq<T>, b: seq<T>, k: int)
    requires |a| <= k < |a| + |b|
    ensures (a + b)[k] == b[k - |a|]
  {
  }

  /** `_cell_mean_bgr`: the mean colour of the cell's rectangle. */
  function CellMeanBgr(img: seq<seq<Color3>>, i: int, j: int, csH: int, csW: int): Color3
    requires csH >= 1 && csW >= 1 && Contains(img, CellRect(i, j, csH, csW))
  {
    Mean(Pixels(img, CellRect(i, j, csH, csW)))
  }

  /** `_cell_center`: the midpoint of the cell rectangle, rounded down. */
  function CellCenter(i: int, j: int, csH: int, csW: int): (int, int)
  {
    var r := CellRect(i, j, csH, csW);
    ((r.x1 + r.x2) / 2, (r.y1 + r.y2) / 2)
  }

  /** The centre is `(j*cs_w + cs_w//2, i*cs_h + cs_h//2)`, inside the cell whenever the cell is non-empty. */
  lemma CellCenterInside(i: int, j: int, csH: int, csW: int)
    requires csH >= 1 && csW >= 1
    ensures var (cx, cy) := CellCenter(i, j, csH, csW);
      cx == j * csW + csW / 2 && cy == i * csH + csH / 2
      && j * csW <= cx < (j + 1) * csW && i * csH <= cy < (i + 1) * csH
  {
    assert j * csW + (j + 1) * csW == 2 * (j * csW) + csW;
    assert i * csH + (i + 1) * csH == 2 * (i * csH) + csH;
  }

  // ---------------------------------------------------- playable squares

  /** One entry of `generate_playable_square_centers`: its 1-based number, its centre and its cell. */
  datatype Square = Square(index: nat, cx: int, cy: int, r: int, c: int)

  /** The pixel coordinate of the middle of cell number `c` along one axis. */
  function Mid(c: int, cell: int): int
  {
    c * cell + cell / 2
  }

  /** The playable squares of the rows before `r` and of the first `c` columns of row `r`, in row-major order. */
  function Playable(size: nat, grid: nat, parity: int, r: nat, c: nat): (ps: seq<Square>)
    requires grid > 0 && c <= grid
    decreases r, c
  {
    if c == 0 then
      if r == 0 then [] else Playable(size, grid, parity, r - 1, grid)
    else
      var prev := Playable(size, grid, parity, r, c - 1);
      var cell := size / grid;
      if (r + c - 1) % 2 == parity then prev + [Square(|prev| + 1, Mid(c - 1, cell), Mid(r, cell), r, c - 1)]
      else prev
  }

  /** Cell `(r1, c1)` comes before cell `(r2, c2)` in row-major order. */
  predicate Earlier(r1: int, c1: int, r2: int, c2: int)
  {
    r1 < r2 || (r1 == r2 && c1 < c2)
  }

  /** Every entry is numbered by its position from 1, sits on a cell of the given parity inside the grid and before cell `(r, c)`, has its centre in the middle of that cell, and entries run in row-major order. */
  predicate WellNumbered(ps: seq<Square>, size: nat, grid: nat, parity: int, r: nat, c: nat)
    requires grid > 0
  {
    var cell := size / grid;
    (forall k :: 0 <= k < |ps| ==>
      ps[k].index == k + 1 && (ps[k].r + ps[k].c) % 2 == parity
      && 0 <= ps[k].r && 0 <= ps[k].c < grid && Earlier(ps[k].r, ps[k].c, r, c)
      && ps[k].cx == Mid(ps[k].c, cell) && ps[k].cy == Mid(ps[k].r, cell))
    && (forall k, m :: 0 <= k < m < |ps| ==> Earlier(ps[k].r, ps[k].c, ps[m].r, ps[m].c))
  }

  lemma {:induction false} PlayableSpec(size: nat, grid: nat, parity: int, r: nat, c: nat)
    requires grid > 0 && c <= grid
    ensures WellNumbered(Playable(size, grid, parity, r, c), size, grid, parity, r, c)
    decreases r, c
  {
    if c == 0 {
      if r > 0 {
        PlayableSpec(size, grid, parity, r - 1, grid);
        RowStep(size, grid, parity, r);
      }
    } else {
      PlayableSpec(size, grid, parity, r, c - 1);
      ColumnStep(size, grid, parity, r, c);
    }
  }

  /** The numbering survives the step from the end of one row to the start of the next. */
  lemma RowStep(size: nat, grid: nat, parity: int, r: nat)
    requires grid > 0 && r > 0 && WellNumbered(Playable(size, grid, parity, r - 1, grid), size, grid, parity, r - 1, grid)
    ensures WellNumbered(Playable(size, grid, parity, r, 0), size, grid, parity, r, 0)
  {
    NextRowNumbered(Playable(size, grid, parity, r - 1, grid), size, grid, parity, r);
  }

  /** The numbering survives the step over one cell, whether or not that cell is playable. */
  lemma ColumnStep(size: nat, grid: nat, parity: int, r: nat, c: nat)
    requires grid > 0 && 0 < c <= grid
    requires WellNumbered(Playable(size, grid, parity, r, c - 1), size, grid, parity, r, c - 1)
    ensures WellNumbered(Playable(size, grid, parity, r, c), size, grid, parity, r, c)
  {
    var prev := Playable(size, grid, parity, r, c - 1);
    if (r + c - 1) % 2 == parity {
      var cell := size / grid;
      AppendNumbered(prev, Square(|prev| + 1, Mid(c - 1, cell), Mid(r, cell), r, c - 1), size, grid, parity, r, c);
    } else {
      NextColumnNumbered(prev, size, grid, parity, r, c);
    }
  }

  /** Entries before the end of row `r - 1` are before the start of row `r`. */
  lemma NextRowNumbered(ps: seq<Square>, size: nat, grid: nat, parity: int, r: nat)
    requires grid > 0 && r > 0 && WellNumbered(ps, size, grid, parity, r - 1, grid)
    ensures WellNumbered(ps, size, grid, parity, r, 0)
  {
  }

  /** Entries before cell `(r, c - 1)` are before cell `(r, c)`. */
  lemma NextColumnNumbered(ps: seq<Square>, size: nat, grid: nat, parity: int, r: nat, c: nat)
    requires grid > 0 && c > 0 && WellNumbered(ps, size, grid, parity, r, c - 1)
    ensures WellNumbered(ps, size, grid, parity, r, c)
  {
  }

  /** Appending the square of cell `(r, c - 1)`, numbered next, keeps the numbering. */
  lemma AppendNumbered(prev: seq<Square>, sq: Square, size: nat, grid: nat, parity: int, r: nat, c: nat)
    requires grid > 0 && 0 < c <= grid && WellNumbered(prev, size, grid, parity, r, c - 1)
    requires (r + c - 1) % 2 == parity
    requires sq == Square(|prev| + 1, Mid(c - 1, size / grid), Mid(r, size / grid), r, c - 1)
    ensures WellNumbered(prev + [sq], size, grid, parity, r, c)
  {
    var ps := prev + [sq];
    assert forall k :: 0 <= k < |prev| ==> ps[k] == prev[k];
    assert ps[|prev|] == sq;
  }

  /** On a grid of `2g` columns, the first `2m` cells of a row add exactly `m` squares for parity 0 or 1. */
  lemma {:induction false} RowCount(size: nat, grid: nat, parity: int, r: nat, m: nat)
    requires grid > 0 && 2 * m <= grid && (parity == 0 || parity == 1)
    ensures |Playable(size, grid, parity, r, 2 * m)| == |Playable(size, grid, parity, r, 0)| + m
  {
    if m > 0 {
      RowCount(size, grid, parity, r, m - 1);
    }
  }

  /** On a grid of `2g` columns, each complete row holds `g` squares for parity 0 or 1. */
  lemma {:induction false} PlayableCount(size: nat, g: nat, parity: int, r: nat)
    requires g > 0 && (parity == 0 || parity == 1)
    ensures |Playable(size, 2 * g, parity, r, 0)| == r * g
  {
    if r > 0 {
      PlayableCount(size, g, parity, r - 1);
      RowCount(size, 2 * g, parity, r - 1, g);
      RowSplit(r - 1, g);
    }
  }

  /** On the standard board, 32 squares are numbered 1 to 32. */
  lemma ThirtyTwoSquares(size: nat, parity: int)
    requires parity == 0 || parity == 1
    ensures |Playable(size, 8, parity, 8, 0)| == 32
  {
    PlayableCount(size, 4, parity, 8);
  }

  /** `generate_playable_square_centers`: a row loop and a column loop appending each playable cell under a running index. */
  method PlayableSquareCenters(size: nat, grid: nat, parity: int) returns (centers: seq<Square>)
    requires grid > 0
    ensures centers == Playable(size, grid, parity, grid, 0)
  {
    var cell := size / grid;
    centers := [];
    var index := 1;
    for r := 0 to grid
      invariant centers == Playable(size, grid, parity, r, 0)
      invariant index == |centers| + 1
    {
      for c := 0 to grid
        invariant centers == Playable(size, grid, parity, r, c)
        invariant index == |centers| + 1
      {
        if (r + c) % 2 == parity {
          centers := centers + [Square(index, Mid(c, cell), Mid(r, cell), r, c)];
          index := index + 1;
        }
      }
    }
  }
}
