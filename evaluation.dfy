/** The two heuristic evaluators: `minimaxAI.evaluate_window` and
    `evaluate_position`, and `alphaBetaAI.quick_eval`. Both count, in each
    window, the cells holding the agent's own mark, the opponent's mark and 0,
    and both add 3 per own mark in the centre column. */
module Evaluation {
  import opened Board
  import opened Windows

  /** How many cells of `w` hold `m`. */
  function Count(w: seq<int>, m: int): (n: nat)
    ensures n <= |w|
  {
    if w == [] then 0 else (if w[0] == m then 1 else 0) + Count(w[1..], m)
  }

  lemma {:induction false} CountDistinct(w: seq<int>, a: int, b: int)
    requires a != b
    ensures Count(w, a) + Count(w, b) <= |w|
  {
    if w != [] {
      CountDistinct(w[1..], a, b);
    }
  }

  lemma {:induction false} CountDistinct3(w: seq<int>, a: int, b: int, c: int)
    requires a != b && b != c && a != c
    ensures Count(w, a) + Count(w, b) + Count(w, c) <= |w|
  {
    if w != [] {
      CountDistinct3(w[1..], a, b, c);
    }
  }

  lemma {:induction false} CountAllZero(w: seq<int>, m: int)
    requires forall i :: 0 <= i < |w| ==> w[i] == 0
    ensures Count(w, m) == if m == 0 then |w| else 0
  {
    if w != [] {
      CountAllZero(w[1..], m);
    }
  }

  /** minimaxAI's window score: 1000, 5 or 2 for four, three or two own
      marks (the others empty), less 4 for three opponent marks and an empty
      cell. */
  function EvaluateWindow(w: seq<int>, own: int, opp: int): int {
    var p, o, e := Count(w, own), Count(w, opp), Count(w, 0);
    (if p == 4 then 1000 else if p == 3 && e == 1 then 5 else if p == 2 && e == 2 then 2 else 0)
    + (if o == 3 && e == 1 then -4 else 0)
  }

  /** A window of four cells is worth one of 1000, 5, 2, 0 and -4: the
      offensive and the defensive pattern never both apply, and each value
      appears exactly when its pattern does. */
  lemma EvaluateWindowValues(w: seq<int>, own: int, opp: int)
    requires |w| == 4 && own != opp
    ensures EvaluateWindow(w, own, opp) in {1000, 5, 2, 0, -4}
    ensures EvaluateWindow(w, own, opp) == 1000 <==> Count(w, own) == 4
    ensures EvaluateWindow(w, own, opp) == 5 <==> Count(w, own) == 3 && Count(w, 0) == 1
    ensures EvaluateWindow(w, own, opp) == 2 <==> Count(w, own) == 2 && Count(w, 0) == 2
    ensures EvaluateWindow(w, own, opp) == -4 <==> Count(w, opp) == 3 && Count(w, 0) == 1
  {
    CountDistinct(w, own, opp);
    if own != 0 {
      CountDistinct(w, own, 0);
    }
    if opp != 0 {
      CountDistinct(w, opp, 0);
    }
    if own != 0 && opp != 0 {
      CountDistinct3(w, own, opp, 0);
    }
  }

  /** The four cells from (r, c) on, each one step (dr, dc) after the last. */
  function WindowAt(g: Grid, r: int, c: int, dr: int, dc: int): (w: seq<int>)
    requires IsGrid(g) && LineFits(r, c, dr, dc)
    ensures |w| == 4
  {
    [g[r][c], g[r + dr][c + dc], g[r + 2 * dr][c + 2 * dc], g[r + 3 * dr][c + 3 * dc]]
  }

  /** One orientation of `evaluate_position`: the first `n` windows of its
      nested loops `for row ...: for col in range(width)`, row-major. */
  function BlockScore(g: Grid, own: int, opp: int, n: nat, width: int, r0: int, dr: int, dc: int): int
    requires IsGrid(g) && width > 0 && BlockFits(n, width, r0, dr, dc)
  {
    if n == 0 then 0 else
      assert FitsAt(n - 1, width, r0, dr, dc);
      BlockScore(g, own, opp, n - 1, width, r0, dr, dc) + EvaluateWindow(BlockWindow(g, n - 1, width, r0, dr, dc), own, opp)
  }

  /** The cells of window `k` of a block, in row-major order. */
  function BlockWindow(g: Grid, k: int, width: int, r0: int, dr: int, dc: int): (w: seq<int>)
    requires IsGrid(g) && width > 0 && FitsAt(k, width, r0, dr, dc)
    ensures |w| == 4
  {
    WindowAt(g, r0 + k / width, k % width, dr, dc)
  }

  function Column(g: Grid, c: int): (col: seq<int>)
    requires IsGrid(g) && 0 <= c < COLS
    ensures |col| == ROWS
  {
    seq(ROWS, r requires 0 <= r < ROWS => g[r][c])
  }

  /** How many cells of the centre column hold the own mark. */
  function CenterCount(g: Grid, own: int): nat
    requires IsGrid(g)
  {
    Count(Column(g, CENTER), own)
  }

  /** minimaxAI's position score: the four orientations' window scores,
      then 3 per own mark in the centre column. */
  function EvaluatePosition(g: Grid, own: int, opp: int): int
    requires IsGrid(g)
  {
    HorizontalScore(g, own, opp) + VerticalScore(g, own, opp)
    + DiagonalScore(g, own, opp) + AntiDiagonalScore(g, own, opp)
    + 3 * CenterCount(g, own)
  }

  /** How many windows each orientation's nested loops visit. */
  const HORIZONTAL_WINDOWS: nat := 24
  const VERTICAL_WINDOWS: nat := 21
  const DIAGONAL_WINDOWS: nat := 12

  /** Horizontal windows: rows 0 to 5 by start columns 0 to 3, step (0, 1). */
  function HorizontalScore(g: Grid, own: int, opp: int): int
    requires IsGrid(g)
  {
    BlockScore(g, own, opp, HORIZONTAL_WINDOWS, 4, 0, 0, 1)
  }

  /** Vertical windows: start rows 0 to 2 by columns 0 to 6, step (1, 0). */
  function VerticalScore(g: Grid, own: int, opp: int): int
    requires IsGrid(g)
  {
    BlockScore(g, own, opp, VERTICAL_WINDOWS, COLS, 0, 1, 0)
  }

  /** Down-right windows: start rows 0 to 2 by start columns 0 to 3, step (1, 1). */
  function DiagonalScore(g: Grid, own: int, opp: int): int
    requires IsGrid(g)
  {
    BlockScore(g, own, opp, DIAGONAL_WINDOWS, 4, 0, 1, 1)
  }

  /** Up-right windows: start rows 3 to 5 by start columns 0 to 3, step (-1, 1). */
  function AntiDiagonalScore(g: Grid, own: int, opp: int): int
    requires IsGrid(g)
  {
    BlockScore(g, own, opp, DIAGONAL_WINDOWS, 4, 3, -1, 1)
  }

  /** The windowed part of a score, summed over a list of windows. */
  function WindowSum(g: Grid, own: int, opp: int, ws: seq<Window>): int
    requires IsGrid(g) && AllInGrid(ws)
  {
    if ws == [] then 0
    else WindowSum(g, own, opp, ws[..|ws| - 1]) + EvaluateWindow(CellsOf(g, ws[|ws| - 1]), own, opp)
  }

  lemma {:induction false} WindowSumAppend(g: Grid, own: int, opp: int, a: seq<Window>, b: seq<Window>)
    requires IsGrid(g) && AllInGrid(a) && AllInGrid(b)
    ensures AllInGrid(a + b)
    ensures WindowSum(g, own, opp, a + b) == WindowSum(g, own, opp, a) + WindowSum(g, own, opp, b)
    decreases |b|
  {
    assert forall k :: 0 <= k < |a + b| ==> (a + b)[k] == if k < |a| then a[k] else b[k - |a|];
    if b != [] {
      var b' := b[..|b| - 1];
      assert (a + b)[..|a + b| - 1] == a + b';
      WindowSumAppend(g, own, opp, a, b');
    } else {
      assert a + b == a;
    }
  }

  lemma CellsOfLine(g: Grid, r: int, c: int, dr: int, dc: int)
    requires IsGrid(g) && LineFits(r, c, dr, dc)
    ensures InGrid(Line(r, c, dr, dc))
    ensures CellsOf(g, Line(r, c, dr, dc)) == WindowAt(g, r, c, dr, dc)
  {
  }

  lemma {:induction false} BlockScoreIsSum(g: Grid, own: int, opp: int, n: nat, width: int, r0: int, dr: int, dc: int)
    requires IsGrid(g) && width > 0 && BlockFits(n, width, r0, dr, dc)
    ensures AllInGrid(Block(n, width, r0, dr, dc))
    ensures BlockScore(g, own, opp, n, width, r0, dr, dc) == WindowSum(g, own, opp, Block(n, width, r0, dr, dc))
  {
    BlockInGrid(n, width, r0, dr, dc);
    if n > 0 {
      assert FitsAt(n - 1, width, r0, dr, dc);
      BlockScoreIsSum(g, own, opp, n - 1, width, r0, dr, dc);
      BlockSumSnoc(g, own, opp, n, width, r0, dr, dc);
    }
  }

  /** The sum over a block's first `n` windows: its first `n - 1`, then the
      last one. */
  lemma BlockSumSnoc(g: Grid, own: int, opp: int, n: nat, width: int, r0: int, dr: int, dc: int)
    requires IsGrid(g) && width > 0 && n > 0 && BlockFits(n, width, r0, dr, dc)
    ensures AllInGrid(Block(n, width, r0, dr, dc)) && AllInGrid(Block(n - 1, width, r0, dr, dc))
    ensures FitsAt(n - 1, width, r0, dr, dc)
    ensures WindowSum(g, own, opp, Block(n, width, r0, dr, dc)) ==
      WindowSum(g, own, opp, Block(n - 1, width, r0, dr, dc)) +
      EvaluateWindow(BlockWindow(g, n - 1, width, r0, dr, dc), own, opp)
  {
    BlockInGrid(n, width, r0, dr, dc);
    BlockInGrid(n - 1, width, r0, dr, dc);
    var ws := Block(n, width, r0, dr, dc);
    var r, c := r0 + (n - 1) / width, (n - 1) % width;
    assert FitsAt(n - 1, width, r0, dr, dc);
    BlockSnoc(n, width, r0, dr, dc);
    CellsOfLine(g, r, c, dr, dc);
    WindowSumSnoc(g, own, opp, ws);
    assert CellsOf(g, ws[n - 1]) == BlockWindow(g, n - 1, width, r0, dr, dc);
  }

  lemma WindowSumSnoc(g: Grid, own: int, opp: int, ws: seq<Window>)
    requires IsGrid(g) && AllInGrid(ws) && |ws| > 0
    ensures AllInGrid(ws[..|ws| - 1])
    ensures WindowSum(g, own, opp, ws) == WindowSum(g, own, opp, ws[..|ws| - 1]) + EvaluateWindow(CellsOf(g, ws[|ws| - 1]), own, opp)
  {
  }

  /** evaluate_position walks exactly the catalog's windows: its total is the
      sum of evaluate_window over the 69 windows of `_precomp_windows`, plus 3
      per own mark in the centre column. */
  lemma EvaluatePositionClosedForm(g: Grid, own: int, opp: int)
    requires IsGrid(g)
    ensures EvaluatePosition(g, own, opp) == WindowSum(g, own, opp, PrecompWindows()) + 3 * CenterCount(g, own)
  {
    var h, v, d := WindowSum(g, own, opp, Horizontals()), WindowSum(g, own, opp, Verticals()), WindowSum(g, own, opp, Diagonals());
    HorizontalAsSum(g, own, opp);
    VerticalAsSum(g, own, opp, h);
    DiagonalAsSum(g, own, opp, h + v);
    AntiDiagonalAsSum(g, own, opp, h + v + d);
    WindowSumAppend4(g, own, opp, Horizontals(), Verticals(), Diagonals(), AntiDiagonals());
  }

  /** evaluate_position with each orientation's loops replaced, one after the
      other, by the sum over that orientation's windows; `x` stands for the
      orientations already replaced. */
  lemma HorizontalAsSum(g: Grid, own: int, opp: int)
    requires IsGrid(g)
    ensures EvaluatePosition(g, own, opp) == WindowSum(g, own, opp, Horizontals()) + VerticalScore(g, own, opp)
      + DiagonalScore(g, own, opp) + AntiDiagonalScore(g, own, opp) + 3 * CenterCount(g, own)
  {
    HorizontalSum(g, own, opp);
  }

  lemma VerticalAsSum(g: Grid, own: int, opp: int, x: int)
    requires IsGrid(g)
    requires EvaluatePosition(g, own, opp) == x + VerticalScore(g, own, opp)
      + DiagonalScore(g, own, opp) + AntiDiagonalScore(g, own, opp) + 3 * CenterCount(g, own)
    ensures EvaluatePosition(g, own, opp) == x + WindowSum(g, own, opp, Verticals())
      + DiagonalScore(g, own, opp) + AntiDiagonalScore(g, own, opp) + 3 * CenterCount(g, own)
  {
    VerticalSum(g, own, opp);
  }

  lemma DiagonalAsSum(g: Grid, own: int, opp: int, x: int)
    requires IsGrid(g)
    requires EvaluatePosition(g, own, opp) == x + DiagonalScore(g, own, opp) + AntiDiagonalScore(g, own, opp) + 3 * CenterCount(g, own)
    ensures EvaluatePosition(g, own, opp) == x + WindowSum(g, own, opp, Diagonals()) + AntiDiagonalScore(g, own, opp) + 3 * CenterCount(g, own)
  {
    DiagonalSum(g, own, opp);
  }

  lemma AntiDiagonalAsSum(g: Grid, own: int, opp: int, x: int)
    requires IsGrid(g)
    requires EvaluatePosition(g, own, opp) == x + AntiDiagonalScore(g, own, opp) + 3 * CenterCount(g, own)
    ensures EvaluatePosition(g, own, opp) == x + WindowSum(g, own, opp, AntiDiagonals()) + 3 * CenterCount(g, own)
  {
    AntiDiagonalSum(g, own, opp);
  }

  lemma WindowSumAppend4(g: Grid, own: int, opp: int, a: seq<Window>, b: seq<Window>, c: seq<Window>, d: seq<Window>)
    requires IsGrid(g) && AllInGrid(a) && AllInGrid(b) && AllInGrid(c) && AllInGrid(d)
    ensures AllInGrid(a + b + c + d)
    ensures WindowSum(g, own, opp, a + b + c + d) ==
      WindowSum(g, own, opp, a) + WindowSum(g, own, opp, b) + WindowSum(g, own, opp, c) + WindowSum(g, own, opp, d)
  {
    WindowSumAppend(g, own, opp, a, b);
    WindowSumAppend(g, own, opp, a + b, c);
    WindowSumAppend(g, own, opp, a + b + c, d);
  }

  /** Each orientation's nested loops sum evaluate_window over that
      orientation's part of the catalog. */
  lemma HorizontalSum(g: Grid, own: int, opp: int)
    requires IsGrid(g)
    ensures HorizontalScore(g, own, opp) == WindowSum(g, own, opp, Horizontals())
  {
    BlockScoreIsSum(g, own, opp, HORIZONTAL_WINDOWS, 4, 0, 0, 1);
  }

  lemma VerticalSum(g: Grid, own: int, opp: int)
    requires IsGrid(g)
    ensures VerticalScore(g, own, opp) == WindowSum(g, own, opp, Verticals())
  {
    BlockScoreIsSum(g, own, opp, VERTICAL_WINDOWS, COLS, 0, 1, 0);
  }

  lemma DiagonalSum(g: Grid, own: int, opp: int)
    requires IsGrid(g)
    ensures DiagonalScore(g, own, opp) == WindowSum(g, own, opp, Diagonals())
  {
    BlockScoreIsSum(g, own, opp, DIAGONAL_WINDOWS, 4, 0, 1, 1);
  }

  lemma AntiDiagonalSum(g: Grid, own: int, opp: int)
    requires IsGrid(g)
    ensures AntiDiagonalScore(g, own, opp) == WindowSum(g, own, opp, AntiDiagonals())
  {
    BlockScoreIsSum(g, own, opp, DIAGONAL_WINDOWS, 4, 3, -1, 1);
  }

  lemma BlankWindowWorthless(g: Grid, r: int, c: int, dr: int, dc: int, own: int, opp: int)
    requires Blank(g) && own != 0 && LineFits(r, c, dr, dc)
    ensures EvaluateWindow(WindowAt(g, r, c, dr, dc), own, opp) == 0
  {
    var w := WindowAt(g, r, c, dr, dc);
    CountAllZero(w, own);
    CountAllZero(w, opp);
    CountAllZero(w, 0);
  }

  lemma {:induction false} BlockScoreBlank(g: Grid, own: int, opp: int, n: nat, width: int, r0: int, dr: int, dc: int)
    requires Blank(g) && own != 0 && width > 0 && BlockFits(n, width, r0, dr, dc)
    ensures BlockScore(g, own, opp, n, width, r0, dr, dc) == 0
  {
    if n > 0 {
      var r, c := r0 + (n - 1) / width, (n - 1) % width;
      assert FitsAt(n - 1, width, r0, dr, dc);
      assert BlockFits(n - 1, width, r0, dr, dc);
      BlockScoreBlank(g, own, opp, n - 1, width, r0, dr, dc);
      BlankWindowWorthless(g, r, c, dr, dc, own, opp);
    }
  }

  lemma CenterCountBlank(g: Grid, own: int)
    requires Blank(g) && own != 0
    ensures CenterCount(g, own) == 0
  {
    CountAllZero(Column(g, CENTER), own);
  }

  /** The empty board is worth 0 to evaluate_position. */
  lemma EvaluatePositionEmpty(own: int, opp: int)
    requires own != 0
    ensures EvaluatePosition(EmptyGrid(), own, opp) == 0
  {
    var g := EmptyGrid();
    EmptyGridBlank();
    assert HorizontalScore(g, own, opp) == 0 by {
      BlockScoreBlank(g, own, opp, HORIZONTAL_WINDOWS, 4, 0, 0, 1);
    }
    assert VerticalScore(g, own, opp) == 0 by {
      BlockScoreBlank(g, own, opp, VERTICAL_WINDOWS, COLS, 0, 1, 0);
    }
    assert DiagonalScore(g, own, opp) == 0 by {
      BlockScoreBlank(g, own, opp, DIAGONAL_WINDOWS, 4, 0, 1, 1);
    }
    assert AntiDiagonalScore(g, own, opp) == 0 by {
      BlockScoreBlank(g, own, opp, DIAGONAL_WINDOWS, 4, 3, -1, 1);
    }
    CenterCountBlank(g, own);
  }

  lemma {:induction false} BlockScoreBounds(g: Grid, own: int, opp: int, n: nat, width: int, r0: int, dr: int, dc: int)
    requires IsGrid(g) && width > 0 && BlockFits(n, width, r0, dr, dc)
    ensures -4 * n <= BlockScore(g, own, opp, n, width, r0, dr, dc) <= 1000 * n
  {
    if n > 0 {
      assert BlockFits(n - 1, width, r0, dr, dc);
      BlockScoreBounds(g, own, opp, n - 1, width, r0, dr, dc);
    }
  }

  /** evaluate_position lies between -4 per window and 1000 per window plus
      the centre bonus, so always strictly between -100000 and 100000. */
  lemma EvaluatePositionBounds(g: Grid, own: int, opp: int)
    requires IsGrid(g)
    ensures -4 * 69 <= EvaluatePosition(g, own, opp) <= 1000 * 69 + 3 * ROWS
    ensures -WIN < EvaluatePosition(g, own, opp) < WIN
  {
    BlockScoreBounds(g, own, opp, HORIZONTAL_WINDOWS, 4, 0, 0, 1);
    BlockScoreBounds(g, own, opp, VERTICAL_WINDOWS, COLS, 0, 1, 0);
    BlockScoreBounds(g, own, opp, DIAGONAL_WINDOWS, 4, 0, 1, 1);
    BlockScoreBounds(g, own, opp, DIAGONAL_WINDOWS, 4, 3, -1, 1);
  }

  // ---------------------------------------------------------------------
  // quick_eval

  /** The `elif` tail of quick_eval's chain, for a window holding neither four
      own nor four opponent marks. */
  function QuickPoints(w: seq<int>, own: int, opp: int): (s: int)
    ensures s in {5, -4, 2, 0}
  {
    var p, o, e := Count(w, own), Count(w, opp), Count(w, 0);
    if p == 3 && e == 1 then 5
    else if o == 3 && e == 1 then -4
    else if p == 2 && e == 2 then 2
    else 0
  }

  /** A window that decides quick_eval at once: four of one side's marks. */
  predicate Decided(g: Grid, own: int, opp: int, w: Window)
    requires IsGrid(g) && InGrid(w)
  {
    Count(CellsOf(g, w), own) == 4 || Count(CellsOf(g, w), opp) == 4
  }

  /** Window `j` is the first deciding window from `k` on. */
  predicate FirstDecided(g: Grid, own: int, opp: int, ws: seq<Window>, k: nat, j: int)
    requires IsGrid(g) && AllInGrid(ws)
  {
    k <= j < |ws| && Decided(g, own, opp, ws[j]) &&
    forall i :: k <= i < j ==> !Decided(g, own, opp, ws[i])
  }

  /** What a deciding window returns: own four first, as the chain tests it. */
  function Verdict(g: Grid, own: int, w: Window): int
    requires IsGrid(g) && InGrid(w)
  {
    if Count(CellsOf(g, w), own) == 4 then WIN else -WIN
  }

  /** quick_eval's loop over `self.all_windows` from window `k` on, with the
      running `score`. */
  function QuickScan(g: Grid, own: int, opp: int, ws: seq<Window>, k: nat, score: int): int
    requires IsGrid(g) && AllInGrid(ws) && k <= |ws|
    decreases |ws| - k
  {
    if k == |ws| then score
    else
      var w := CellsOf(g, ws[k]);
      if Count(w, own) == 4 then WIN
      else if Count(w, opp) == 4 then -WIN
      else QuickScan(g, own, opp, ws, k + 1, score + QuickPoints(w, own, opp))
  }

  /** `quick_eval(env)` over the window list `ws` (the agent's all_windows). */
  function QuickEval(g: Grid, own: int, opp: int, ws: seq<Window>): int
    requires IsGrid(g) && AllInGrid(ws)
  {
    QuickScan(g, own, opp, ws, 0, 3 * CenterCount(g, own))
  }

  /** Sum of the non-deciding points of windows `k..`. */
  function QuickSum(g: Grid, own: int, opp: int, ws: seq<Window>, k: nat): int
    requires IsGrid(g) && AllInGrid(ws) && k <= |ws|
    decreases |ws| - k
  {
    if k == |ws| then 0 else QuickPoints(CellsOf(g, ws[k]), own, opp) + QuickSum(g, own, opp, ws, k + 1)
  }

  lemma {:induction false} QuickScanClosedForm(g: Grid, own: int, opp: int, ws: seq<Window>, k: nat, score: int)
    requires IsGrid(g) && AllInGrid(ws) && k <= |ws|
    ensures (forall j :: k <= j < |ws| ==> !Decided(g, own, opp, ws[j])) ==>
      QuickScan(g, own, opp, ws, k, score) == score + QuickSum(g, own, opp, ws, k)
    ensures forall j :: FirstDecided(g, own, opp, ws, k, j) ==>
      QuickScan(g, own, opp, ws, k, score) == Verdict(g, own, ws[j])
    decreases |ws| - k
  {
    if k < |ws| {
      var w := CellsOf(g, ws[k]);
      var next := score + QuickPoints(w, own, opp);
      QuickScanClosedForm(g, own, opp, ws, k + 1, next);
      if Decided(g, own, opp, ws[k]) {
        assert QuickScan(g, own, opp, ws, k, score) == Verdict(g, own, ws[k]);
        forall j | FirstDecided(g, own, opp, ws, k, j)
          ensures j == k
        {
        }
      } else {
        assert QuickScan(g, own, opp, ws, k, score) == QuickScan(g, own, opp, ws, k + 1, next);
        forall j | FirstDecided(g, own, opp, ws, k, j)
          ensures FirstDecided(g, own, opp, ws, k + 1, j)
        {
        }
      }
    }
  }

  /** quick_eval in closed form: if some window holds four marks of one side,
      the first such window in list order decides +100000 (own) or -100000
      (opponent); otherwise it is 3 per own centre mark plus, per window, 5,
      -4, 2 or 0. */
  lemma QuickEvalClosedForm(g: Grid, own: int, opp: int, ws: seq<Window>)
    requires IsGrid(g) && AllInGrid(ws)
    ensures (forall j :: 0 <= j < |ws| ==> !Decided(g, own, opp, ws[j])) ==>
      QuickEval(g, own, opp, ws) == 3 * CenterCount(g, own) + QuickSum(g, own, opp, ws, 0)
    ensures forall j :: FirstDecided(g, own, opp, ws, 0, j) ==>
      QuickEval(g, own, opp, ws) == Verdict(g, own, ws[j])
  {
    QuickScanClosedForm(g, own, opp, ws, 0, 3 * CenterCount(g, own));
  }

  lemma {:induction false} QuickSumBlank(g: Grid, own: int, opp: int, ws: seq<Window>, k: nat)
    requires Blank(g) && own != 0 && opp != 0 && AllInGrid(ws) && k <= |ws|
    ensures forall j :: k <= j < |ws| ==> !Decided(g, own, opp, ws[j])
    ensures QuickSum(g, own, opp, ws, k) == 0
    decreases |ws| - k
  {
    if k < |ws| {
      QuickSumBlank(g, own, opp, ws, k + 1);
      var w := CellsOf(g, ws[k]);
      CountAllZero(w, own);
      CountAllZero(w, opp);
    }
  }

  /** The empty board is worth 0 to quick_eval, whatever the window list. */
  lemma QuickEvalEmpty(own: int, opp: int, ws: seq<Window>)
    requires own != 0 && opp != 0 && AllInGrid(ws)
    ensures QuickEval(EmptyGrid(), own, opp, ws) == 0
  {
    var g := EmptyGrid();
    EmptyGridBlank();
    QuickSumBlank(g, own, opp, ws, 0);
    QuickEvalClosedForm(g, own, opp, ws);
    CenterCountBlank(g, own);
  }
}
