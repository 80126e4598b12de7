/** The 6x7 board the agents search on: a grid of marks (0 is empty) and, per
    column, the next free row (`topPosition`), where -1 means the column is
    full. Row 0 is the top row; pieces stack from row 5 upwards. */
module Board {

  const ROWS: int := 6
  const COLS: int := 7
  const CENTER: int := 3

  /** The score of a won position; every heuristic score is far smaller. */
  const WIN: int := 100000

  type Grid = seq<seq<int>>

  predicate IsGrid(g: Grid) {
    |g| == ROWS && forall r :: 0 <= r < ROWS ==> |g[r]| == COLS
  }

  predicate IsTops(t: seq<int>) {
    |t| == COLS && forall c :: 0 <= c < COLS ==> -1 <= t[c] < ROWS
  }

  /** The part of the environment a search reads: the grid and topPosition. */
  datatype Position = Position(grid: Grid, tops: seq<int>)

  predicate WellFormed(p: Position) {
    IsGrid(p.grid) && IsTops(p.tops)
  }

  /** Gravity, as far as restoring the board needs it: every cell at or above
      a column's next free row is empty. */
  predicate Settled(p: Position) {
    WellFormed(p) &&
    forall r, c :: 0 <= c < COLS && 0 <= r <= p.tops[c] ==> p.grid[r][c] == 0
  }

  /** A move is a column whose next free row is on the board. */
  predicate Legal(p: Position, c: int) {
    0 <= c < COLS && c < |p.tops| && p.tops[c] >= 0
  }

  predicate LegalMoves(p: Position, moves: seq<int>) {
    forall i :: 0 <= i < |moves| ==> Legal(p, moves[i])
  }

  function SetCell(g: Grid, r: int, c: int, v: int): (h: Grid)
    requires IsGrid(g) && 0 <= r < ROWS && 0 <= c < COLS
    ensures IsGrid(h)
    ensures forall i, j :: 0 <= i < ROWS && 0 <= j < COLS ==>
      h[i][j] == if i == r && j == c then v else g[i][j]
  {
    g[r := g[r][c := v]]
  }

  /** The searches' "try move": `mark` goes to the column's next free row and
      that column's topPosition steps up by one. */
  function Drop(p: Position, c: int, mark: int): (q: Position)
    requires WellFormed(p) && Legal(p, c)
    ensures WellFormed(q)
  {
    Position(SetCell(p.grid, p.tops[c], c, mark), p.tops[c := p.tops[c] - 1])
  }

  /** The orderer's probe: `mark` goes to the column's next free row while
      topPosition is left as it is. */
  function Probe(p: Position, c: int, mark: int): (q: Position)
    requires WellFormed(p) && Legal(p, c)
    ensures WellFormed(q) && q.tops == p.tops
  {
    Position(SetCell(p.grid, p.tops[c], c, mark), p.tops)
  }

  /** Legal columns from `c` on, in increasing order (ValidFromSorted);
      every one of them is listed (ValidFromMembers). */
  function ValidFrom(t: seq<int>, c: int): (ms: seq<int>)
    requires |t| == COLS && 0 <= c <= COLS
    ensures forall i :: 0 <= i < |ms| ==> c <= ms[i] < COLS && t[ms[i]] >= 0
    decreases COLS - c
  {
    if c == COLS then [] else (if t[c] >= 0 then [c] else []) + ValidFrom(t, c + 1)
  }

  lemma {:induction false} ValidFromMembers(t: seq<int>, c: int)
    requires |t| == COLS && 0 <= c <= COLS
    ensures forall x :: x in ValidFrom(t, c) <==> c <= x < COLS && t[x] >= 0
    decreases COLS - c
  {
    if c < COLS {
      ValidFromMembers(t, c + 1);
      assert ValidFrom(t, c) == (if t[c] >= 0 then [c] else []) + ValidFrom(t, c + 1);
    }
  }

  /** A column is listed as valid exactly when its next free row is on the
      board. */
  lemma ValidMovesMembers(t: seq<int>)
    requires |t| == COLS
    ensures forall x :: x in ValidMoves(t) <==> 0 <= x < COLS && t[x] >= 0
  {
    ValidFromMembers(t, 0);
  }

  lemma {:induction false} ValidFromSorted(t: seq<int>, c: int)
    requires |t| == COLS && 0 <= c <= COLS
    ensures forall i, j :: 0 <= i < j < |ValidFrom(t, c)| ==> ValidFrom(t, c)[i] < ValidFrom(t, c)[j]
    decreases COLS - c
  {
    if c < COLS {
      ValidFromSorted(t, c + 1);
      var rest := ValidFrom(t, c + 1);
      forall i, j | 0 <= i < j < |ValidFrom(t, c)|
        ensures ValidFrom(t, c)[i] < ValidFrom(t, c)[j]
      {
        if t[c] >= 0 {
          assert ValidFrom(t, c) == [c] + rest;
          if i > 0 {
            assert ValidFrom(t, c)[i] == rest[i - 1];
          } else {
            assert rest[j - 1] in rest;
          }
        }
      }
    }
  }

  /** The legal columns are listed in increasing order. */
  lemma ValidMovesSorted(t: seq<int>, i: int, j: int)
    requires |t| == COLS && 0 <= i < |ValidMoves(t)| && 0 <= j < |ValidMoves(t)|
    ensures i < j <==> ValidMoves(t)[i] < ValidMoves(t)[j]
  {
    ValidFromSorted(t, 0);
  }

  /** The columns whose next free row is on the board, left to right. */
  function ValidMoves(t: seq<int>): (ms: seq<int>)
    requires |t| == COLS
  {
    ValidFrom(t, 0)
  }

  /** Every column is full: no next free row is on the board. */
  predicate AllFull(t: seq<int>) {
    forall c :: 0 <= c < |t| ==> t[c] < 0
  }

  function EmptyGrid(): (g: Grid)
    ensures IsGrid(g)
  {
    seq(ROWS, _ => seq(COLS, _ => 0))
  }

  /** Every cell holds 0. */
  predicate Blank(g: Grid) {
    IsGrid(g) && forall r, c :: 0 <= r < ROWS && 0 <= c < COLS ==> g[r][c] == 0
  }

  lemma EmptyGridBlank()
    ensures Blank(EmptyGrid())
  {
  }

  /** The rules oracle of the game module, which is not part of this model.
      `gameOver` is its argument-free form: the winner's mark, -1 for a draw,
      anything else for a game still going. `movedWins(p, col, mark)` is its
      two-argument form: whether `mark`'s piece in `col` completes a line. */
  datatype Oracle = Oracle(gameOver: Position -> int, movedWins: (Position, int, int) -> bool)

  /** What a search knows besides the position: the oracle, its own mark,
      the opponent's mark and the heuristic it scores the leaves with. */
  datatype Game = Game(oracle: Oracle, own: int, opponent: int, leaf: Grid -> int)

  /** The mark placed by the side to move: own when maximizing. */
  function Mover(gm: Game, maxP: bool): int {
    if maxP then gm.own else gm.opponent
  }

  /** The depth the reply to a move is searched at: one level deeper. */
  function Deeper(depth: nat): (d: nat)
    requires depth > 0
    ensures d < depth
  {
    depth - 1
  }

  lemma GridExt(a: Grid, b: Grid)
    requires IsGrid(a) && IsGrid(b)
    requires forall r, c :: 0 <= r < ROWS && 0 <= c < COLS ==> a[r][c] == b[r][c]
    ensures a == b
  {
    forall r | 0 <= r < ROWS
      ensures a[r] == b[r]
    {
      assert |a[r]| == |b[r]| == COLS;
    }
  }

  lemma DropSettled(p: Position, c: int, mark: int)
    requires Settled(p) && Legal(p, c)
    ensures Settled(Drop(p, c, mark))
  {
  }

  /** Undoing a drop (topPosition back up, then a 0 written at the freed row)
      gives back the grid exactly, because that cell was empty before. */
  lemma UndoDrop(p: Position, c: int, mark: int)
    requires Settled(p) && Legal(p, c)
    ensures SetCell(Drop(p, c, mark).grid, p.tops[c], c, 0) == p.grid
  {
    GridExt(SetCell(Drop(p, c, mark).grid, p.tops[c], c, 0), p.grid);
  }

  lemma SetCellTwice(g: Grid, r: int, c: int, v: int, w: int)
    requires IsGrid(g) && 0 <= r < ROWS && 0 <= c < COLS
    ensures SetCell(SetCell(g, r, c, v), r, c, w) == SetCell(g, r, c, w)
  {
    GridExt(SetCell(SetCell(g, r, c, v), r, c, w), SetCell(g, r, c, w));
  }

  lemma SetCellSame(g: Grid, r: int, c: int)
    requires IsGrid(g) && 0 <= r < ROWS && 0 <= c < COLS
    ensures SetCell(g, r, c, g[r][c]) == g
  {
    GridExt(SetCell(g, r, c, g[r][c]), g);
  }

  lemma AllFullNoMoves(t: seq<int>)
    requires |t| == COLS
    ensures AllFull(t) <==> ValidMoves(t) == []
  {
    if !AllFull(t) {
      var c :| 0 <= c < |t| && t[c] >= 0;
      ValidMovesMembers(t);
      assert c in ValidMoves(t);
    }
  }

  /** The game module's board object: the grid as a 6x7 array updated in place,
      topPosition as an array, and its rules oracle. */
  class Env {
    const board: array2<int>
    const topPosition: array<int>
    const oracle: Oracle

    ghost predicate Valid() {
      board.Length0 == ROWS && board.Length1 == COLS && topPosition.Length == COLS
    }

    /** A fresh game: empty grid, every column's next free row at the bottom. */
    constructor (oracle: Oracle)
      ensures Valid() && fresh(board) && fresh(topPosition) && this.oracle == oracle
      ensures Grid() == EmptyGrid() && Tops() == seq(COLS, _ => ROWS - 1)
      ensures Settled(Current())
    {
      board := new int[ROWS, COLS]((_, _) => 0);
      topPosition := new int[COLS](_ => ROWS - 1);
      this.oracle := oracle;
      new;
      GridExt(Grid(), EmptyGrid());
    }

    function Grid(): (g: Grid)
      requires Valid()
      reads board
      ensures IsGrid(g)
      ensures forall r, c :: 0 <= r < ROWS && 0 <= c < COLS ==> g[r][c] == board[r, c]
    {
      seq(ROWS, r requires 0 <= r < ROWS reads board =>
        seq(COLS, c requires 0 <= c < COLS reads board => board[r, c]))
    }

    function Tops(): (t: seq<int>)
      reads topPosition
      ensures |t| == topPosition.Length
    {
      topPosition[..]
    }

    function Current(): Position
      requires Valid()
      reads board, topPosition
    {
      Position(Grid(), Tops())
    }

    /** Writes `v` into cell (r, c) of the board array. */
    method Write(r: int, c: int, v: int)
      requires Valid() && 0 <= r < ROWS && 0 <= c < COLS
      modifies board
      ensures Grid() == SetCell(old(Grid()), r, c, v)
    {
      ghost var g := Grid();
      board[r, c] := v;
      GridExt(Grid(), SetCell(g, r, c, v));
    }

    /** Sets column `c`'s next free row to `v`. */
    method SetTop(c: int, v: int)
      requires Valid() && 0 <= c < COLS
      modifies topPosition
      ensures Tops() == old(Tops())[c := v]
    {
      topPosition[c] := v;
    }

    /** The searches' "try move": the mark goes into the column's next free
        row, then that row index steps up by one. */
    method TryMove(c: int, mark: int)
      requires Valid() && WellFormed(Current()) && Legal(Current(), c)
      modifies board, topPosition
      ensures Current() == Drop(old(Current()), c, mark)
    {
      Write(topPosition[c], c, mark);
      SetTop(c, topPosition[c] - 1);
    }

    /** The searches' "undo move": the column's row index steps back down,
        then the cell it names is emptied. From the position a drop into `c`
        reached, it restores the position before the drop. */
    method UndoMove(c: int, ghost p: Position, mark: int)
      requires Valid() && Settled(p) && Legal(p, c) && Current() == Drop(p, c, mark)
      modifies board, topPosition
      ensures Current() == p
    {
      SetTop(c, topPosition[c] + 1);
      Write(topPosition[c], c, 0);
      UndoDrop(p, c, mark);
      assert Tops() == p.tops;
    }
  }
}
