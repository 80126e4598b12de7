/** `minimaxAI`: plain minimax to a fixed depth over the legal columns, scored
    at the leaves by `evaluate_position`, and the agent's `play`. The pure
    functions give the value the search computes; the class MinimaxAI computes
    it by placing and taking back marks in the environment's arrays. */
module MinimaxPlayer {
  import opened ExtScores
  import opened Board
  import opened Windows
  import opened Evaluation

  /** The search depth `play` starts from (`self.max_depth`). */
  const MAX_DEPTH: nat := 4

  lemma ValidMovesLegal(p: Position)
    requires WellFormed(p)
    ensures LegalMoves(p, ValidMoves(p.tops))
    ensures forall c :: Legal(p, c) <==> c in ValidMoves(p.tops)
  {
    ValidMovesMembers(p.tops);
  }

  /** `minimax(env, depth, max_player)` on position `p`: the rules oracle's
      verdict first (own win, opponent win, draw), then the heuristic at
      depth 0, otherwise the loop over the legal columns in increasing order,
      each scored one level deeper with the other side to move. */
  function MinimaxValue(gm: Game, p: Position, depth: nat, maxP: bool): Ext
    requires WellFormed(p)
    decreases depth, 2
  {
    var winner := gm.oracle.gameOver(p);
    if winner == gm.own then Fin(WIN)
    else if winner == gm.opponent then Fin(-WIN)
    else if winner == -1 then Fin(0)
    else if depth == 0 then Fin(gm.leaf(p.grid))
    else Best(maxP, Children(gm, p, depth, maxP, ValidMoves(p.tops)))
  }

  /** The score of playing `c`: the side to move drops its mark there and
      the other side moves next, one level deeper. */
  function Child(gm: Game, p: Position, depth: nat, maxP: bool, c: int): Ext
    requires WellFormed(p) && Legal(p, c) && depth > 0
    decreases depth, 0
  {
    MinimaxValue(gm, Drop(p, c, Mover(gm, maxP)), Deeper(depth), !maxP)
  }

  /** The scores of the columns `ms`, in list order. */
  function Children(gm: Game, p: Position, depth: nat, maxP: bool, ms: seq<int>): (vs: seq<Ext>)
    requires WellFormed(p) && depth > 0 && LegalMoves(p, ms)
    ensures |vs| == |ms|
    decreases depth, 1
  {
    seq(|ms|, i requires 0 <= i < |ms| => Child(gm, p, depth, maxP, ms[i]))
  }

  /** At positive depth, below a position the oracle leaves undecided, the
      search is the loop over the legal columns' scores. */
  lemma MinimaxSearches(gm: Game, p: Position, depth: nat, maxP: bool)
    requires WellFormed(p) && depth > 0
    requires gm.oracle.gameOver(p) != gm.own && gm.oracle.gameOver(p) != gm.opponent && gm.oracle.gameOver(p) != -1
    ensures LegalMoves(p, ValidMoves(p.tops))
    ensures MinimaxValue(gm, p, depth, maxP) == Best(maxP, Children(gm, p, depth, maxP, ValidMoves(p.tops)))
  {
    ValidMovesLegal(p);
  }

  lemma ChildrenSnoc(gm: Game, p: Position, depth: nat, maxP: bool, ms: seq<int>, i: nat)
    requires WellFormed(p) && depth > 0 && LegalMoves(p, ms) && i < |ms|
    ensures Children(gm, p, depth, maxP, ms[..i + 1]) ==
      Children(gm, p, depth, maxP, ms[..i]) + [Child(gm, p, depth, maxP, ms[i])]
  {
  }

  /** A column's score, with the child's depth named. */
  lemma {:induction false} ChildValue(gm: Game, p: Position, depth: nat, deeper: nat, maxP: bool, c: int)
    requires WellFormed(p) && Legal(p, c) && depth > 0 && deeper == Deeper(depth)
    ensures Child(gm, p, depth, maxP, c) == MinimaxValue(gm, Drop(p, c, Mover(gm, maxP)), deeper, !maxP)
  {
  }

  /** One step of the search loop: folding in the next column's score. */
  lemma SearchStep(gm: Game, p: Position, depth: nat, maxP: bool, ms: seq<int>, i: nat, acc: Ext, s: Ext)
    requires WellFormed(p) && depth > 0 && LegalMoves(p, ms) && i < |ms|
    requires acc == Best(maxP, Children(gm, p, depth, maxP, ms[..i]))
    requires s == Child(gm, p, depth, maxP, ms[i])
    ensures Combine(maxP, acc, s) == Best(maxP, Children(gm, p, depth, maxP, ms[..i + 1]))
  {
    ChildrenSnoc(gm, p, depth, maxP, ms, i);
    assert Child(gm, p, depth, maxP, ms[i]) == s;
    BestSnoc(maxP, Children(gm, p, depth, maxP, ms[..i]), s);
    assert Children(gm, p, depth, maxP, ms[..i + 1]) == Children(gm, p, depth, maxP, ms[..i]) + [s];
  }

  /** Two column lists with the same members have the same scores. */
  lemma ChildrenMembers(gm: Game, p: Position, depth: nat, maxP: bool, ms1: seq<int>, ms2: seq<int>)
    requires WellFormed(p) && depth > 0 && LegalMoves(p, ms1) && LegalMoves(p, ms2)
    requires forall c :: c in ms1 <==> c in ms2
    ensures forall x :: x in Children(gm, p, depth, maxP, ms1) <==> x in Children(gm, p, depth, maxP, ms2)
  {
    var v1, v2 := Children(gm, p, depth, maxP, ms1), Children(gm, p, depth, maxP, ms2);
    forall x | x in v1
      ensures x in v2
    {
      var i :| 0 <= i < |v1| && v1[i] == x;
      assert ms1[i] in ms2;
      var j :| 0 <= j < |ms2| && ms2[j] == ms1[i];
      assert v2[j] == x;
    }
    forall x | x in v2
      ensures x in v1
    {
      var i :| 0 <= i < |v2| && v2[i] == x;
      assert ms2[i] in ms1;
      var j :| 0 <= j < |ms1| && ms1[j] == ms2[i];
      assert v1[j] == x;
    }
  }

  /** Below a position the oracle leaves undecided, at positive depth,
      minimax is the max (own to move) or min (opponent to move) of the
      scores of all legal columns, attained by one of them, and the same
      whatever order the columns are enumerated in; with no legal column it
      is the loop's seed. */
  lemma MinimaxIsBest(gm: Game, p: Position, depth: nat, maxP: bool)
    requires WellFormed(p) && depth > 0
    requires gm.oracle.gameOver(p) != gm.own && gm.oracle.gameOver(p) != gm.opponent && gm.oracle.gameOver(p) != -1
    ensures maxP ==> forall c :: Legal(p, c) ==> Le(Child(gm, p, depth, maxP, c), MinimaxValue(gm, p, depth, maxP))
    ensures !maxP ==> forall c :: Legal(p, c) ==> Le(MinimaxValue(gm, p, depth, maxP), Child(gm, p, depth, maxP, c))
    ensures AllFull(p.tops) ==> MinimaxValue(gm, p, depth, maxP) == Seed(maxP)
    ensures !AllFull(p.tops) ==> exists c :: Legal(p, c) && MinimaxValue(gm, p, depth, maxP) == Child(gm, p, depth, maxP, c)
    ensures forall ms :: LegalMoves(p, ms) && (forall c :: c in ms <==> Legal(p, c)) ==>
      MinimaxValue(gm, p, depth, maxP) == Best(maxP, Children(gm, p, depth, maxP, ms))
  {
    var ms := ValidMoves(p.tops);
    ValidMovesLegal(p);
    MinimaxSearches(gm, p, depth, maxP);
    var vs := Children(gm, p, depth, maxP, ms);
    BestBounds(maxP, vs);
    AllFullNoMoves(p.tops);
    forall c | Legal(p, c)
      ensures maxP ==> Le(Child(gm, p, depth, maxP, c), MinimaxValue(gm, p, depth, maxP))
      ensures !maxP ==> Le(MinimaxValue(gm, p, depth, maxP), Child(gm, p, depth, maxP, c))
    {
      var i :| 0 <= i < |ms| && ms[i] == c;
      assert vs[i] == Child(gm, p, depth, maxP, c);
    }
    if !AllFull(p.tops) {
      var i :| 0 <= i < |vs| && vs[i] == Best(maxP, vs);
      assert Legal(p, ms[i]);
    }
    forall ms2 | LegalMoves(p, ms2) && (forall c :: c in ms2 <==> Legal(p, c))
      ensures MinimaxValue(gm, p, depth, maxP) == Best(maxP, Children(gm, p, depth, maxP, ms2))
    {
      ChildrenMembers(gm, p, depth, maxP, ms, ms2);
      BestOrderFree(maxP, vs, Children(gm, p, depth, maxP, ms2));
    }
  }

  /** `evaluate_position` as a leaf heuristic for the marks `own`, `opp`. */
  function Heuristic(own: int, opp: int): (Grid -> int) {
    g => if IsGrid(g) then EvaluatePosition(g, own, opp) else 0
  }

  /** The leaf heuristic never reaches a win's score. */
  ghost predicate LeafBounded(gm: Game) {
    forall g :: IsGrid(g) ==> -WIN < gm.leaf(g) < WIN
  }

  lemma HeuristicBounded(oracle: Oracle, own: int, opp: int)
    ensures LeafBounded(Game(oracle, own, opp, Heuristic(own, opp)))
  {
    forall g | IsGrid(g)
      ensures -WIN < Heuristic(own, opp)(g) < WIN
    {
      EvaluatePositionBounds(g, own, opp);
    }
  }

  /** A score that is either infinite or within [-100000, 100000]. */
  predicate Within(e: Ext) {
    e.Fin? ==> -WIN <= e.n <= WIN
  }

  lemma BestWithin(maxP: bool, vs: seq<Ext>)
    requires forall i :: 0 <= i < |vs| ==> Within(vs[i])
    ensures Within(Best(maxP, vs))
  {
    BestBounds(maxP, vs);
  }

  lemma ChildrenWithin(gm: Game, p: Position, depth: nat, maxP: bool, ms: seq<int>)
    requires WellFormed(p) && depth > 0 && LegalMoves(p, ms)
    requires forall c :: Legal(p, c) ==> Within(Child(gm, p, depth, maxP, c))
    ensures Within(Best(maxP, Children(gm, p, depth, maxP, ms)))
  {
    var vs := Children(gm, p, depth, maxP, ms);
    forall i | 0 <= i < |vs|
      ensures Within(vs[i])
    {
      assert Legal(p, ms[i]);
    }
    BestWithin(maxP, vs);
  }

  /** A finite minimax value lies within [-100000, 100000]: the heuristic at
      the leaves never reaches a win's score. */
  lemma {:induction false} MinimaxBounded(gm: Game, p: Position, depth: nat, maxP: bool)
    requires WellFormed(p) && LeafBounded(gm)
    ensures MinimaxValue(gm, p, depth, maxP).Fin? ==> -WIN <= MinimaxValue(gm, p, depth, maxP).n <= WIN
    decreases depth
  {
    if gm.oracle.gameOver(p) != gm.own && gm.oracle.gameOver(p) != gm.opponent && gm.oracle.gameOver(p) != -1 {
      if depth > 0 {
        var deeper: nat := Deeper(depth);
        forall c | Legal(p, c)
          ensures Within(Child(gm, p, depth, maxP, c))
        {
          MinimaxBounded(gm, Drop(p, c, Mover(gm, maxP)), deeper, !maxP);
          ChildValue(gm, p, depth, deeper, maxP, c);
        }
        MinimaxSearches(gm, p, depth, maxP);
        ChildrenWithin(gm, p, depth, maxP, ValidMoves(p.tops));
      }
    }
  }

  // ---------------------------------------------------------------------
  // play

  /** What `play` writes into `move_dict["move"]`, or the IndexError that
      `valid_moves[0]` raises when every column is full. */
  datatype Choice = Chose(col: int) | IndexError

  /** The loop of `play` over the first `k` columns of `ms`, whose scores
      are `vs`: the best score so far and its column, replaced only on a
      strictly larger score; initially `float('-inf')` and `valid_moves[0]`. */
  function Scan(vs: seq<Ext>, ms: seq<int>, k: nat): (Ext, int)
    requires |vs| == |ms| && 0 < |ms| && k <= |ms|
  {
    if k == 0 then (NegInf, ms[0])
    else
      var best := Scan(vs, ms, k - 1);
      if Lt(best.0, vs[k - 1]) then (vs[k - 1], ms[k - 1]) else best
  }

  lemma ScanStep(vs: seq<Ext>, ms: seq<int>, i: nat, best: Ext, col: int)
    requires |vs| == |ms| && 0 < |ms| && i < |ms| && Scan(vs, ms, i) == (best, col)
    ensures Scan(vs, ms, i + 1) == if Lt(best, vs[i]) then (vs[i], ms[i]) else (best, col)
  {
  }

  /** The scan keeps the first strictly best column: after all `k` steps it
      holds the column `ms[j]` and its score `vs[j]`, which bounds every
      score scanned, and every score before `j` is strictly lower. */
  lemma {:induction false} ScanBest(vs: seq<Ext>, ms: seq<int>, k: nat) returns (j: nat)
    requires |vs| == |ms| && 0 < |ms| && 0 < k <= |ms|
    ensures j < k && Scan(vs, ms, k) == (vs[j], ms[j])
    ensures forall i :: 0 <= i < k ==> Le(vs[i], vs[j])
    ensures forall i :: 0 <= i < j ==> Lt(vs[i], vs[j])
  {
    if k == 1 {
      j := 0;
      assert Scan(vs, ms, 0) == (NegInf, ms[0]);
    } else {
      var j0 := ScanBest(vs, ms, k - 1);
      if Lt(vs[j0], vs[k - 1]) {
        j := k - 1;
        forall i | 0 <= i < k - 1
          ensures Lt(vs[i], vs[k - 1])
        {
          LeTrans(vs[i], vs[j0], vs[k - 1]);
        }
      } else {
        j := j0;
      }
    }
  }

  /** `play(env, move_dict)` for an agent whose `is_first_move` is
      `firstMove`: the centre on the first call while it is open, otherwise
      the scan over the legal columns in increasing order, each scored by
      `minimax(env, max_depth - 1, False)` after dropping the own mark. */
  function PlayChoice(gm: Game, p: Position, firstMove: bool): Choice
    requires WellFormed(p)
  {
    if firstMove && p.tops[CENTER] >= 0 then Chose(CENTER)
    else
      var ms := ValidMoves(p.tops);
      if ms == [] then IndexError else Chose(Scan(Children(gm, p, MAX_DEPTH, true, ms), ms, |ms|).1)
  }

  /** When `play` searches, it fails exactly when every column is full. */
  lemma PlayFailsWhenFull(gm: Game, p: Position, firstMove: bool)
    requires WellFormed(p)
    requires !(firstMove && p.tops[CENTER] >= 0)
    ensures PlayChoice(gm, p, firstMove) == IndexError <==> AllFull(p.tops)
  {
    AllFullNoMoves(p.tops);
  }

  /** When `play` searches a board with room, its column is legal and no
      legal column scores higher. */
  lemma PlayBest(gm: Game, p: Position, firstMove: bool)
    requires WellFormed(p)
    requires !(firstMove && p.tops[CENTER] >= 0) && !AllFull(p.tops)
    ensures PlayChoice(gm, p, firstMove).Chose? && Legal(p, PlayChoice(gm, p, firstMove).col)
    ensures forall d :: Legal(p, d) ==>
      Le(Child(gm, p, MAX_DEPTH, true, d), Child(gm, p, MAX_DEPTH, true, PlayChoice(gm, p, firstMove).col))
  {
    var ms := ValidMoves(p.tops);
    ValidMovesLegal(p);
    AllFullNoMoves(p.tops);
    var vs := Children(gm, p, MAX_DEPTH, true, ms);
    var j := ScanBest(vs, ms, |ms|);
    forall d | Legal(p, d)
      ensures Le(Child(gm, p, MAX_DEPTH, true, d), Child(gm, p, MAX_DEPTH, true, ms[j]))
    {
      var i :| 0 <= i < |ms| && ms[i] == d;
      assert vs[i] == Child(gm, p, MAX_DEPTH, true, d);
    }
  }

  /** Ties go to the smallest column: every legal column left of the chosen
      one scores strictly less. */
  lemma PlayFirstBest(gm: Game, p: Position, firstMove: bool)
    requires WellFormed(p)
    requires !(firstMove && p.tops[CENTER] >= 0) && !AllFull(p.tops)
    ensures PlayChoice(gm, p, firstMove).Chose? && Legal(p, PlayChoice(gm, p, firstMove).col)
    ensures forall d :: Legal(p, d) && d < PlayChoice(gm, p, firstMove).col ==>
      Lt(Child(gm, p, MAX_DEPTH, true, d), Child(gm, p, MAX_DEPTH, true, PlayChoice(gm, p, firstMove).col))
  {
    var ms := ValidMoves(p.tops);
    ValidMovesLegal(p);
    AllFullNoMoves(p.tops);
    var vs := Children(gm, p, MAX_DEPTH, true, ms);
    var j := ScanBest(vs, ms, |ms|);
    forall d | Legal(p, d) && d < ms[j]
      ensures Lt(Child(gm, p, MAX_DEPTH, true, d), Child(gm, p, MAX_DEPTH, true, ms[j]))
    {
      var i :| 0 <= i < |ms| && ms[i] == d;
      ValidMovesSorted(p.tops, i, j);
      assert vs[i] == Child(gm, p, MAX_DEPTH, true, d);
    }
  }

  /** On the first call with the centre open, `play` answers 3 without any
      search; on every later call it searches. */
  lemma PlayOpening(gm: Game, p: Position)
    requires WellFormed(p)
    ensures p.tops[CENTER] >= 0 ==> PlayChoice(gm, p, true) == Chose(CENTER)
    ensures p.tops[CENTER] < 0 ==> PlayChoice(gm, p, true) == PlayChoice(gm, p, false)
  {
  }

  // ---------------------------------------------------------------------
  // evaluate_position, on the board array

  /** The windows starting in row `r`, columns `0 .. width - 1`, fit. */
  predicate RowFits(r: int, width: nat, dr: int, dc: int) {
    forall col :: 0 <= col < width ==> LineFits(r, col, dr, dc)
  }

  /** Every window starting in rows `r0 .. r0 + rows - 1`, columns
      `0 .. width - 1` fits. */
  predicate GridFits(rows: nat, width: nat, r0: int, dr: int, dc: int) {
    forall r :: r0 <= r < r0 + rows ==> RowFits(r, width, dr, dc)
  }

  /** The ranges of evaluate_position's four orientations keep every
      window on the board. */
  lemma OrientationsFit()
    ensures GridFits(6, 4, 0, 0, 1) && GridFits(3, COLS, 0, 1, 0)
    ensures GridFits(3, 4, 0, 1, 1) && GridFits(3, 4, 3, -1, 1)
  {
    forall r | 0 <= r < 6 ensures RowFits(r, 4, 0, 1) { }
    forall r | 0 <= r < 3 ensures RowFits(r, COLS, 1, 0) { }
    forall r | 0 <= r < 3 ensures RowFits(r, 4, 1, 1) { }
    forall r | 3 <= r < 6 ensures RowFits(r, 4, -1, 1) { }
  }

  /** The inner loop `for col in range(width)` of one row `r`, after `cols`
      steps. */
  function RowScore(g: Grid, own: int, opp: int, r: int, width: nat, dr: int, dc: int, cols: nat): int
    requires IsGrid(g) && cols <= width && RowFits(r, width, dr, dc)
  {
    if cols == 0 then 0
    else RowScore(g, own, opp, r, width, dr, dc, cols - 1) + EvaluateWindow(WindowAt(g, r, cols - 1, dr, dc), own, opp)
  }

  /** The outer loop over the rows `r0 .. r0 + rows - 1`. */
  function RowsScore(g: Grid, own: int, opp: int, rows: nat, width: nat, r0: int, dr: int, dc: int): int
    requires IsGrid(g) && GridFits(rows, width, r0, dr, dc)
  {
    if rows == 0 then 0
    else
      assert RowFits(r0 + rows - 1, width, dr, dc);
      RowsScore(g, own, opp, rows - 1, width, r0, dr, dc) + RowScore(g, own, opp, r0 + rows - 1, width, dr, dc, width)
  }

  /** Window `n = row * width + col` of a block starts at row `r0 + row`,
      column `col`: the block's score and the row's score grow by the same
      window. */
  lemma BlockScoreNext(g: Grid, own: int, opp: int, n: nat, width: int, r0: int, dr: int, dc: int, row: nat, col: nat, rest: int)
    requires IsGrid(g) && width > 0 && BlockFits(n, width, r0, dr, dc)
    requires n == row * width + col && col < width
    requires RowFits(r0 + row, width, dr, dc)
    requires BlockScore(g, own, opp, n, width, r0, dr, dc) == rest + RowScore(g, own, opp, r0 + row, width, dr, dc, col)
    ensures BlockFits(n + 1, width, r0, dr, dc)
    ensures BlockScore(g, own, opp, n + 1, width, r0, dr, dc) == rest + RowScore(g, own, opp, r0 + row, width, dr, dc, col + 1)
  {
    DivMod(n, width, row, col);
  }

  /** A finished row is a finished row of the outer loop. */
  lemma RowsNext(g: Grid, own: int, opp: int, row: nat, width: nat, r0: int, dr: int, dc: int)
    requires IsGrid(g) && GridFits(row + 1, width, r0, dr, dc) && row > 0
    ensures RowsScore(g, own, opp, row, width, r0, dr, dc) ==
      RowsScore(g, own, opp, row - 1, width, r0, dr, dc) + RowScore(g, own, opp, r0 + row - 1, width, dr, dc, width)
      + RowScore(g, own, opp, r0 + row, width, dr, dc, 0)
  {
    assert RowFits(r0 + row - 1, width, dr, dc);
  }

  /** The nested loops visit the windows in the row-major order of
      BlockScore: after `row` full rows and `col` more windows, they have
      added up BlockScore's first `n = row * width + col` windows. */
  lemma {:induction false} BlockRows(g: Grid, own: int, opp: int, rows: nat, width: nat, r0: int, dr: int, dc: int, row: nat, col: nat, n: nat)
    requires IsGrid(g) && width > 0 && GridFits(rows, width, r0, dr, dc)
    requires row < rows && col <= width && n == row * width + col
    ensures BlockFits(n, width, r0, dr, dc)
    ensures BlockScore(g, own, opp, n, width, r0, dr, dc) ==
      RowsScore(g, own, opp, row, width, r0, dr, dc) + RowScore(g, own, opp, r0 + row, width, dr, dc, col)
    decreases row, col
  {
    assert RowFits(r0 + row, width, dr, dc);
    if col > 0 {
      BlockRows(g, own, opp, rows, width, r0, dr, dc, row, col - 1, n - 1);
      BlockScoreNext(g, own, opp, n - 1, width, r0, dr, dc, row, col - 1, RowsScore(g, own, opp, row, width, r0, dr, dc));
    } else if row > 0 {
      MulStep(row, width);
      BlockRows(g, own, opp, rows, width, r0, dr, dc, row - 1, width, n);
      RowsNext(g, own, opp, row, width, r0, dr, dc);
    }
  }

  /** A whole orientation: all `rows * width` windows. */
  lemma BlockAllRows(g: Grid, own: int, opp: int, rows: nat, width: nat, r0: int, dr: int, dc: int)
    requires IsGrid(g) && width > 0 && GridFits(rows, width, r0, dr, dc) && rows > 0
    ensures BlockFits(rows * width, width, r0, dr, dc)
    ensures BlockScore(g, own, opp, rows * width, width, r0, dr, dc) == RowsScore(g, own, opp, rows, width, r0, dr, dc)
  {
    MulStep(rows, width);
    BlockRows(g, own, opp, rows, width, r0, dr, dc, rows - 1, width, rows * width);
  }

  /** One orientation's nested loops in `evaluate_position`: rows `r0` to
      `r0 + rows - 1` outer, start columns `0` to `width - 1` inner, each
      window read off the board array and scored by `evaluate_window`. */
  method ScoreBlock(env: Env, own: int, opp: int, rows: nat, width: nat, r0: int, dr: int, dc: int) returns (score: int)
    requires env.Valid() && GridFits(rows, width, r0, dr, dc)
    ensures score == RowsScore(env.Grid(), own, opp, rows, width, r0, dr, dc)
  {
    ghost var g := env.Grid();
    score := 0;
    for row := 0 to rows
      invariant score == RowsScore(g, own, opp, row, width, r0, dr, dc)
    {
      assert RowFits(r0 + row, width, dr, dc);
      for col := 0 to width
        invariant score == RowsScore(g, own, opp, row, width, r0, dr, dc) + RowScore(g, own, opp, r0 + row, width, dr, dc, col)
      {
        assert LineFits(r0 + row, col, dr, dc);
        var window := [env.board[r0 + row, col], env.board[r0 + row + dr, col + dc],
                       env.board[r0 + row + 2 * dr, col + 2 * dc], env.board[r0 + row + 3 * dr, col + 3 * dc]];
        assert window == WindowAt(g, r0 + row, col, dr, dc);
        score := score + EvaluateWindow(window, own, opp);
      }
    }
  }

  // ---------------------------------------------------------------------
  // The agent

  class MinimaxAI {
    const position: int
    const opponent: int
    const maxDepth: nat := MAX_DEPTH
    var isFirstMove: bool

    /** The agent with mark `position` against `opponent`'s mark. */
    constructor (position: int, opponent: int)
      ensures this.position == position && this.opponent == opponent && isFirstMove
    {
      this.position := position;
      this.opponent := opponent;
      isFirstMove := true;
    }

    function Rules(env: Env): Game {
      Game(env.oracle, position, opponent, Heuristic(position, opponent))
    }

    /** `evaluate_position(env)`: the four orientations' loops, then 3 per
        own mark in the centre column. */
    method EvaluatePositionOf(env: Env) returns (score: int)
      requires env.Valid()
      ensures score == EvaluatePosition(env.Grid(), position, opponent)
    {
      ghost var g := env.Grid();
      OrientationsFit();
      BlockAllRows(g, position, opponent, 6, 4, 0, 0, 1);
      BlockAllRows(g, position, opponent, 3, COLS, 0, 1, 0);
      BlockAllRows(g, position, opponent, 3, 4, 0, 1, 1);
      BlockAllRows(g, position, opponent, 3, 4, 3, -1, 1);
      score := 0;
      var h := ScoreBlock(env, position, opponent, 6, 4, 0, 0, 1);
      score := score + h;
      var v := ScoreBlock(env, position, opponent, 3, COLS, 0, 1, 0);
      score := score + v;
      var d := ScoreBlock(env, position, opponent, 3, 4, 0, 1, 1);
      score := score + d;
      var u := ScoreBlock(env, position, opponent, 3, 4, 3, -1, 1);
      score := score + u;
      var centerCt := CenterCount(env.Grid(), position);
      score := score + centerCt * 3;
    }

    /** `minimax(env, depth, max_player)`: the value of MinimaxValue, with
        the grid and topPosition as they were on entry. */
    method Minimax(env: Env, depth: nat, maxP: bool, ghost p: Position) returns (score: Ext)
      requires env.Valid() && Settled(p) && env.Current() == p
      modifies env.board, env.topPosition
      ensures env.Current() == p
      ensures score == MinimaxValue(Rules(env), p, depth, maxP)
      decreases depth, 2
    {
      ghost var gm := Rules(env);
      var winner := env.oracle.gameOver(env.Current());
      if winner == position {
        return Fin(WIN);
      } else if winner == opponent {
        return Fin(-WIN);
      } else if winner == -1 {
        return Fin(0);
      } else if depth == 0 {
        var e := EvaluatePositionOf(env);
        return Fin(e);
      }
      var validMoves := ValidMoves(env.Tops());
      MinimaxSearches(gm, p, depth, maxP);
      if maxP {
        score := MaxScore(env, depth, p, validMoves);
      } else {
        score := MinScore(env, depth, p, validMoves);
      }
    }

    /** minimax's maximizing branch: `max_score` starts at `float('-inf')`
        and takes the max with each valid column's score. */
    method MaxScore(env: Env, depth: nat, ghost p: Position, validMoves: seq<int>) returns (score: Ext)
      requires env.Valid() && Settled(p) && env.Current() == p && depth > 0 && LegalMoves(p, validMoves)
      modifies env.board, env.topPosition
      ensures env.Current() == p
      ensures score == Best(true, Children(Rules(env), p, depth, true, validMoves))
      decreases depth, 1
    {
      ghost var gm := Rules(env);
      score := NegInf;
      for i := 0 to |validMoves|
        invariant env.Current() == p
        invariant score == Best(true, Children(gm, p, depth, true, validMoves[..i]))
      {
        var s := ChildScore(env, depth, true, p, validMoves[i]);
        SearchStep(gm, p, depth, true, validMoves, i, score, s);
        score := Max(score, s);
      }
      assert validMoves[..|validMoves|] == validMoves;
    }

    /** minimax's minimizing branch: `min_score` starts at `float('inf')`
        and takes the min with each valid column's score. */
    method MinScore(env: Env, depth: nat, ghost p: Position, validMoves: seq<int>) returns (score: Ext)
      requires env.Valid() && Settled(p) && env.Current() == p && depth > 0 && LegalMoves(p, validMoves)
      modifies env.board, env.topPosition
      ensures env.Current() == p
      ensures score == Best(false, Children(Rules(env), p, depth, false, validMoves))
      decreases depth, 1
    {
      ghost var gm := Rules(env);
      score := PosInf;
      for i := 0 to |validMoves|
        invariant env.Current() == p
        invariant score == Best(false, Children(gm, p, depth, false, validMoves[..i]))
      {
        var s := ChildScore(env, depth, false, p, validMoves[i]);
        SearchStep(gm, p, depth, false, validMoves, i, score, s);
        score := Min(score, s);
      }
      assert validMoves[..|validMoves|] == validMoves;
    }

    /** The body of minimax's loops for one column: the side to move drops
        its mark into `move`, the opponent's reply is searched one level
        deeper, and the mark is taken back. */
    method ChildScore(env: Env, depth: nat, maxP: bool, ghost p: Position, move: int) returns (s: Ext)
      requires env.Valid() && Settled(p) && env.Current() == p && Legal(p, move) && depth > 0
      modifies env.board, env.topPosition
      ensures env.Current() == p
      ensures s == Child(Rules(env), p, depth, maxP, move)
      decreases depth, 0
    {
      var mark := if maxP then position else opponent;
      env.TryMove(move, mark);
      DropSettled(p, move, mark);
      var deeper: nat := Deeper(depth);
      s := Minimax(env, deeper, !maxP, Drop(p, move, mark));
      env.UndoMove(move, p, mark);
      ChildValue(Rules(env), p, depth, deeper, maxP, move);
    }

    /** `play(env, move_dict)`: the column of PlayChoice, `is_first_move`
        cleared, the grid and topPosition as they were on entry. */
    method Play(env: Env) returns (choice: Choice)
      requires env.Valid() && Settled(env.Current())
      modifies this, env.board, env.topPosition
      ensures env.Current() == old(env.Current())
      ensures choice == PlayChoice(Rules(env), old(env.Current()), old(isFirstMove))
      ensures !isFirstMove
    {
      ghost var p := env.Current();
      ghost var gm := Rules(env);
      if isFirstMove && env.topPosition[CENTER] >= 0 {
        isFirstMove := false;
        return Chose(CENTER);
      }
      isFirstMove := false;
      var validMoves := ValidMoves(env.Tops());
      ValidMovesLegal(p);
      if |validMoves| == 0 {
        return IndexError;
      }
      var bestMove := ScanColumns(env, maxDepth, p, validMoves);
      return Chose(bestMove);
    }

    /** The loop of `play`: each valid column scored by
        `minimax(env, max_depth - 1, False)` after dropping the own mark,
        keeping the first column of strictly best score. */
    method ScanColumns(env: Env, depth: nat, ghost p: Position, validMoves: seq<int>) returns (bestMove: int)
      requires env.Valid() && Settled(p) && env.Current() == p && depth > 0
      requires 0 < |validMoves| && LegalMoves(p, validMoves)
      modifies env.board, env.topPosition
      ensures env.Current() == p
      ensures bestMove == Scan(Children(Rules(env), p, depth, true, validMoves), validMoves, |validMoves|).1
    {
      var bestScore := NegInf;
      bestMove := validMoves[0];
      for i := 0 to |validMoves|
        invariant env.Current() == p
        invariant (bestScore, bestMove) == Scan(Children(Rules(env), p, depth, true, validMoves), validMoves, i)
      {
        bestScore, bestMove := ScanNext(env, depth, p, validMoves, i, bestScore, bestMove);
      }
    }

    /** One iteration of play's loop: score column `validMoves[i]` and keep
        it if it beats the best score so far. */
    method ScanNext(env: Env, depth: nat, ghost p: Position, validMoves: seq<int>, i: nat, bestScore: Ext, bestMove: int)
      returns (bestScore': Ext, bestMove': int)
      requires env.Valid() && Settled(p) && env.Current() == p && depth > 0
      requires i < |validMoves| && LegalMoves(p, validMoves)
      requires (bestScore, bestMove) == Scan(Children(Rules(env), p, depth, true, validMoves), validMoves, i)
      modifies env.board, env.topPosition
      ensures env.Current() == p
      ensures (bestScore', bestMove') == Scan(Children(Rules(env), p, depth, true, validMoves), validMoves, i + 1)
    {
      ghost var vs := Children(Rules(env), p, depth, true, validMoves);
      var move := validMoves[i];
      var score := ChildScore(env, depth, true, p, move);
      assert score == vs[i];
      ScanStep(vs, validMoves, i, bestScore, bestMove);
      bestScore', bestMove' := bestScore, bestMove;
      if Lt(bestScore, score) {
        bestScore', bestMove' := score, move;
      }
    }
  }
}
