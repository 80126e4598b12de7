/** The window catalog: every length-4 line of cells on the 6x7 board, listed
    the way `alphaBetaAI._precomp_windows` lists them (horizontal, vertical,
    down-right diagonal, up-right diagonal; rows outer, columns inner). */
module Windows {
  import opened Board

  type Cell = (int, int)
  type Window = seq<Cell>

  predicate OnBoard(x: Cell) {
    0 <= x.0 < ROWS && 0 <= x.1 < COLS
  }

  predicate InGrid(w: Window) {
    forall i :: 0 <= i < |w| ==> OnBoard(w[i])
  }

  predicate AllInGrid(ws: seq<Window>) {
    forall k :: 0 <= k < |ws| ==> InGrid(ws[k])
  }

  /** The four cells from (r, c) on, each one step (dr, dc) after the last. */
  function Line(r: int, c: int, dr: int, dc: int): (w: Window)
    ensures |w| == 4
  {
    [(r, c), (r + dr, c + dc), (r + 2 * dr, c + 2 * dc), (r + 3 * dr, c + 3 * dc)]
  }

  /** Both ends of the line are on the board, hence all four cells are. */
  predicate LineFits(r: int, c: int, dr: int, dc: int) {
    OnBoard((r, c)) && OnBoard((r + 3 * dr, c + 3 * dc))
  }

  /** Line `k` of a block, in row-major order, fits. */
  predicate FitsAt(k: int, width: int, r0: int, dr: int, dc: int)
    requires width > 0
  {
    LineFits(r0 + k / width, k % width, dr, dc)
  }

  predicate BlockFits(n: nat, width: int, r0: int, dr: int, dc: int)
    requires width > 0
  {
    forall k :: 0 <= k < n ==> FitsAt(k, width, r0, dr, dc)
  }

  /** The four unit steps a window may take. */
  predicate IsDirection(dr: int, dc: int) {
    (dr, dc) in {(0, 1), (1, 0), (1, 1), (-1, 1)}
  }

  /** A window: four distinct on-board cells, each one unit step from the
      previous one in one of the four directions. */
  predicate IsWindow(w: Window) {
    |w| == 4 && InGrid(w) &&
    (forall i, j :: 0 <= i < j < 4 ==> w[i] != w[j]) &&
    var dr, dc := w[1].0 - w[0].0, w[1].1 - w[0].1;
    IsDirection(dr, dc) && w == Line(w[0].0, w[0].1, dr, dc)
  }

  /** One orientation's nested loops `for row in range(r0, r0 + n / width):
      for col in range(width)`, flattened: window `k` is the line starting at
      row `r0 + k / width`, column `k % width` (rows outer, columns inner). */
  function Block(n: nat, width: int, r0: int, dr: int, dc: int): (ws: seq<Window>)
    requires width > 0
  {
    seq(n, k => Line(r0 + k / width, k % width, dr, dc))
  }

  /** A block's first `n` lines: its first `n - 1`, then line `n - 1`. */
  lemma BlockSnoc(n: nat, width: int, r0: int, dr: int, dc: int)
    requires width > 0 && n > 0
    ensures Block(n, width, r0, dr, dc)[..n - 1] == Block(n - 1, width, r0, dr, dc)
    ensures Block(n, width, r0, dr, dc)[n - 1] == Line(r0 + (n - 1) / width, (n - 1) % width, dr, dc)
  {
  }

  /** `_precomp_windows()`: horizontal, vertical, right and left diagonals. */
  function PrecompWindows(): (ws: seq<Window>)
    ensures AllInGrid(ws)
  {
    Horizontals() + Verticals() + Diagonals() + AntiDiagonals()
  }

  /** Rows 0..5, start columns 0..3, step (0, 1). */
  function Horizontals(): (ws: seq<Window>)
    ensures AllInGrid(ws)
  {
    BlockInGrid(24, 4, 0, 0, 1);
    Block(24, 4, 0, 0, 1)
  }

  /** Start rows 0..2, columns 0..6, step (1, 0). */
  function Verticals(): (ws: seq<Window>)
    ensures AllInGrid(ws)
  {
    BlockInGrid(21, COLS, 0, 1, 0);
    Block(21, COLS, 0, 1, 0)
  }

  /** Start rows 0..2, start columns 0..3, step (1, 1). */
  function Diagonals(): (ws: seq<Window>)
    ensures AllInGrid(ws)
  {
    BlockInGrid(12, 4, 0, 1, 1);
    Block(12, 4, 0, 1, 1)
  }

  /** Start rows 3..5, start columns 0..3, step (-1, 1). */
  function AntiDiagonals(): (ws: seq<Window>)
    ensures AllInGrid(ws)
  {
    BlockInGrid(12, 4, 3, -1, 1);
    Block(12, 4, 3, -1, 1)
  }

  lemma BlockInGrid(n: nat, width: int, r0: int, dr: int, dc: int)
    requires width > 0 && BlockFits(n, width, r0, dr, dc)
    ensures AllInGrid(Block(n, width, r0, dr, dc))
  {
    forall k | 0 <= k < n
      ensures InGrid(Block(n, width, r0, dr, dc)[k])
    {
      assert FitsAt(k, width, r0, dr, dc);
      LineInGrid(r0 + k / width, k % width, dr, dc);
    }
  }

  /** The marks on the window's cells, in the window's order. */
  function CellsOf(g: Grid, w: Window): (cells: seq<int>)
    requires IsGrid(g) && InGrid(w)
    ensures |cells| == |w|
    ensures forall i :: 0 <= i < |w| ==> cells[i] == g[w[i].0][w[i].1]
  {
    seq(|w|, i requires 0 <= i < |w| => g[w[i].0][w[i].1])
  }

  lemma LineInGrid(r: int, c: int, dr: int, dc: int)
    requires LineFits(r, c, dr, dc)
    ensures InGrid(Line(r, c, dr, dc))
  {
  }

  lemma LineIsWindow(r: int, c: int, dr: int, dc: int)
    requires LineFits(r, c, dr, dc) && IsDirection(dr, dc)
    ensures IsWindow(Line(r, c, dr, dc))
  {
    var w := Line(r, c, dr, dc);
    assert w[1].0 - w[0].0 == dr && w[1].1 - w[0].1 == dc;
    assert dc == 1 || dr == 1;
    forall i, j | 0 <= i < j < 4
      ensures w[i] != w[j]
    {
      assert w[i] == (r + i * dr, c + i * dc) && w[j] == (r + j * dr, c + j * dc);
    }
    LineInGrid(r, c, dr, dc);
  }

  /** Where in the catalog the line of a direction starting at (r, c) sits. */
  function CatalogIndex(r: int, c: int, dr: int, dc: int): int {
    if (dr, dc) == (0, 1) then 4 * r + c
    else if (dr, dc) == (1, 0) then 24 + 7 * r + c
    else if (dr, dc) == (1, 1) then 45 + 4 * r + c
    else 57 + 4 * (r - 3) + c
  }

  function WindowIndex(w: Window): int
    requires |w| == 4
  {
    CatalogIndex(w[0].0, w[0].1, w[1].0 - w[0].0, w[1].1 - w[0].1)
  }

  lemma CatalogEntry(k: int)
    requires 0 <= k < 69
    ensures |PrecompWindows()| == 69
    ensures PrecompWindows()[k] ==
      if k < 24 then Line(k / 4, k % 4, 0, 1)
      else if k < 45 then Line((k - 24) / 7, (k - 24) % 7, 1, 0)
      else if k < 57 then Line((k - 45) / 4, (k - 45) % 4, 1, 1)
      else Line(3 + (k - 57) / 4, (k - 57) % 4, -1, 1)
  {
    var h, v, d, u := Block(24, 4, 0, 0, 1), Block(21, COLS, 0, 1, 0), Block(12, 4, 0, 1, 1), Block(12, 4, 3, -1, 1);
    assert PrecompWindows() == h + v + d + u;
    if k < 24 {
      assert PrecompWindows()[k] == h[k];
    } else if k < 45 {
      assert PrecompWindows()[k] == v[k - 24];
    } else if k < 57 {
      assert PrecompWindows()[k] == d[k - 45];
    } else {
      assert PrecompWindows()[k] == u[k - 57];
    }
  }

  lemma CatalogEntryIsWindow(k: int)
    requires 0 <= k < 69
    ensures |PrecompWindows()| == 69 && IsWindow(PrecompWindows()[k])
  {
    CatalogEntry(k);
    if k < 24 {
      LineIsWindow(k / 4, k % 4, 0, 1);
    } else if k < 45 {
      LineIsWindow((k - 24) / 7, (k - 24) % 7, 1, 0);
    } else if k < 57 {
      LineIsWindow((k - 45) / 4, (k - 45) % 4, 1, 1);
    } else {
      LineIsWindow(3 + (k - 57) / 4, (k - 57) % 4, -1, 1);
    }
  }

  lemma CatalogEntriesDiffer(i: int, j: int)
    requires 0 <= i < j < 69
    ensures |PrecompWindows()| == 69 && PrecompWindows()[i] != PrecompWindows()[j]
  {
    CatalogEntry(i);
    CatalogEntry(j);
  }

  lemma CatalogListsWindow(w: Window)
    requires IsWindow(w)
    ensures |PrecompWindows()| == 69
    ensures 0 <= WindowIndex(w) < 69 && PrecompWindows()[WindowIndex(w)] == w
  {
    var r, c, dr, dc := w[0].0, w[0].1, w[1].0 - w[0].0, w[1].1 - w[0].1;
    assert w == Line(r, c, dr, dc);
    assert OnBoard(w[0]) && OnBoard(w[3]);
    var k := WindowIndex(w);
    if (dr, dc) == (0, 1) {
      assert k == 4 * r + c && k / 4 == r && k % 4 == c;
    } else if (dr, dc) == (1, 0) {
      assert k == 24 + 7 * r + c && (k - 24) / 7 == r && (k - 24) % 7 == c;
    } else if (dr, dc) == (1, 1) {
      assert k == 45 + 4 * r + c && (k - 45) / 4 == r && (k - 45) % 4 == c;
    } else {
      assert (dr, dc) == (-1, 1);
      assert k == 57 + 4 * (r - 3) + c && 3 + (k - 57) / 4 == r && (k - 57) % 4 == c;
    }
    CatalogEntry(k);
  }

  /** The catalog holds exactly 69 windows (24 horizontal, then 21 vertical,
      then 12 of each diagonal, see CatalogEntry); every entry is a window, no
      window is listed twice, and every window of the board is listed. */
  lemma CatalogShape()
    ensures |PrecompWindows()| == 69
    ensures forall k :: 0 <= k < |PrecompWindows()| ==> IsWindow(PrecompWindows()[k])
    ensures forall i, j :: 0 <= i < j < |PrecompWindows()| ==> PrecompWindows()[i] != PrecompWindows()[j]
    ensures forall w: Window :: IsWindow(w) ==>
      0 <= WindowIndex(w) < 69 && PrecompWindows()[WindowIndex(w)] == w
  {
    CatalogEntry(0);
    forall k | 0 <= k < 69
      ensures IsWindow(PrecompWindows()[k])
    {
      CatalogEntryIsWindow(k);
    }
    forall i, j | 0 <= i < j < 69
      ensures PrecompWindows()[i] != PrecompWindows()[j]
    {
      CatalogEntriesDiffer(i, j);
    }
    forall w: Window | IsWindow(w)
      ensures 0 <= WindowIndex(w) < 69 && PrecompWindows()[WindowIndex(w)] == w
    {
      CatalogListsWindow(w);
    }
  }

  // ---------------------------------------------------------------------
  // Row-major positions in a block

  lemma MulAtLeast(a: int, b: nat)
    requires a >= 1
    ensures a * b >= b
  {
    assert a * b == (a - 1) * b + b;
    if a > 1 {
      MulAtLeast(a - 1, b);
    }
  }

  lemma DivMod(n: int, width: int, row: int, col: int)
    requires width > 0 && row >= 0 && 0 <= col < width && n == row * width + col
    ensures n / width == row && n % width == col
  {
    var q, r := n / width, n % width;
    assert n == q * width + r;
    if q > row {
      assert (q - row) * width == q * width - row * width;
      MulAtLeast(q - row, width);
    } else if q < row {
      assert (row - q) * width == row * width - q * width;
      MulAtLeast(row - q, width);
    }
  }

  lemma MulStep(row: nat, width: nat)
    requires row > 0
    ensures (row - 1) * width + width == row * width
  {
  }
}
