# Connect 4 search agents: a verified model

This project models the search-and-evaluation core of the two search agents in
`connect4/players.py` and proves properties of that model.

- **minimaxAI**: plain minimax to depth 4. Its leaves are scored by
  `evaluate_position`, and `play` opens with a hard-coded centre column.
- **alphaBetaAI**: fail-soft alpha-beta to depth 5.
  - It orders the columns with `_get_order`.
  - It scores the leaves with `quick_eval` over a precomputed window catalog.
  - It caches scores in a per-agent transposition table.

Both agents search one shared board. The board is a 6x7 grid of marks (0 is
empty) plus one next-free-row index per column (`topPosition`, where -1 means
the column is full). The agents change it in place and undo every change, so
the board ends as it was at the start.

Modules, one file each:

- `ext_scores.dfy`, **ExtScores**: scores are integers extended with
  `float('-inf')` and `float('inf')`.
  - Python's `max`/`min`.
  - The max/min fold a search loop performs.
  - The window clamp that states fail-soft behaviour.
- `board.dfy`, **Board**:
  - the grid as a value;
  - "drop a mark into column c" and the orderer's probe (a mark written with
    `topPosition` left alone);
  - the valid-column list;
  - the class `Env`, the environment's `board` (a 2-D array) and
    `topPosition` (an array), with the searches' try-move and undo-move
    steps.
  - The rules oracle `gameOver` belongs to the unshown `connect4` module, so
    it is an uninterpreted value in both of its call shapes.
- `windows.dfy`, **Windows**: the 69-window catalog of `_precomp_windows`,
  and its shape.
- `evaluation.dfy`, **Evaluation**: `evaluate_window`, `evaluate_position`
  and `quick_eval` as pure functions, with closed forms.
- `ordering.dfy`, **Ordering**: `_get_order` as the list it returns, with a
  closed form.
- `minimax_player.dfy`, **MinimaxPlayer**:
  - pure `MinimaxValue` and `PlayChoice`;
  - the class `MinimaxAI`, whose methods search in place on `Env` and are
    proved equal to those functions.
- `alphabeta_player.dfy`, **AlphaBetaPlayer**:
  - the pure `AlphaBeta` and its loop, threading the table;
  - the unpruned reference `Value` over the same ordered column lists;
  - the fail-soft and table theorems;
  - the class `AlphaBetaAI`, whose methods (`quick_eval`, `_get_order`,
    `alpha_beta`, `_precomp_windows`) are proved equal to the pure functions.

How the model is set up:

- The search functions take the leaf heuristic as part of a `Game` value:
  the oracle, own mark, opponent mark and leaf scorer.
- Each agent's `Rules` supplies its own heuristic: `evaluate_position` for
  minimax, `quick_eval` over the catalog for alpha-beta.
- Every method that changes the board requires it to be *settled*: every
  cell at or above a column's next free row is empty. This is what makes
  "write the mark, recurse, write 0 back" restore the grid exactly.

## Model

| member | source | states |
|---|---|---|
| ExtScores.Max | connect4/players.py:176 | Python's `max` on scores: the result bounds both arguments and is one of them |
| ExtScores.Min | connect4/players.py:192 | Python's `min` on scores: the result is below both arguments and is one of them |
| ExtScores.BestBounds | connect4/players.py:164-177 | the search loop's fold bounds every score, is one of them, and is the seed `float('-inf')` (`float('inf')` for min) when there are none |
| ExtScores.BestOrderFree | connect4/players.py:163-193 | the fold's result depends only on which scores occur, not on their order or repeats |
| Board.ValidMoves | connect4/players.py:161 | the valid-column list of the searches and of play: its contract is ValidMovesMembers (membership both ways) and ValidMovesSorted (increasing order) |
| Board.AllFull | connect4/players.py:309 | `all(pos < 0 ...)` over topPosition: AllFullNoMoves ties it to an empty valid-column list |
| Board.Drop | connect4/players.py:167-168 | the searches' try-move on the position value: the mark goes to the column's next free row and that column's topPosition steps up; it keeps the position well formed, DropSettled keeps it settled, UndoDrop inverts it |
| Board.Probe | connect4/players.py:363-369 | the orderer's probe: the mark goes to the column's next free row while topPosition stays as it is (its ensures); GetOrder walks it in place |
| Board.ValidMovesMembers | connect4/players.py:161 | a column is in the valid-column list exactly when its next free row is on the board |
| Board.ValidMovesSorted | connect4/players.py:161 | the valid columns are listed in increasing order |
| Board.AllFullNoMoves | connect4/players.py:309 | `all(pos < 0 ...)` holds exactly when no column is valid |
| Board.DropSettled | connect4/players.py:167-168 | dropping a mark into a legal column keeps the board settled |
| Board.UndoDrop | connect4/players.py:173-174 | undoing a drop (index back up, 0 written at the freed row) gives back the grid exactly |
| Board.Env.Write | connect4/players.py:167-174 | one cell assignment on the board array: the grid afterwards is the old grid with that one cell changed and every other cell as it was |
| Board.Env.SetTop | connect4/players.py:168-173 | one topPosition assignment: that one entry takes the new value, every other entry is as it was |
| Board.Env.TryMove | connect4/players.py:167-168 | the arrays afterwards hold the position with the mark dropped into the column |
| Board.Env.UndoMove | connect4/players.py:173-174 | from the position a drop reached, the arrays hold the position before the drop again |
| Windows.Horizontals | connect4/players.py:272-274 | the horizontal part of the catalog, rows 0-5 by start columns 0-3, every cell on the board; CatalogEntry gives each entry's line |
| Windows.Verticals | connect4/players.py:276-278 | the vertical part of the catalog, start rows 0-2 by columns 0-6, every cell on the board |
| Windows.Diagonals | connect4/players.py:280-282 | the down-right part of the catalog, start rows 0-2 by start columns 0-3, every cell on the board |
| Windows.AntiDiagonals | connect4/players.py:284-286 | the up-right part of the catalog, start rows 3-5 by start columns 0-3, every cell on the board |
| Windows.PrecompWindows | connect4/players.py:268-287 | every cell of every catalog window is on the board |
| Windows.CatalogEntry | connect4/players.py:270-286 | catalog entry k is the horizontal, vertical, down-right or up-right line from the row and column the nested loops give entry k, rows outer and columns inner |
| Windows.CatalogShape | connect4/players.py:268-287 | the catalog has exactly 69 windows; each is 4 distinct on-board cells on one unit-step line; none is listed twice; every such line on the board is listed |
| Evaluation.Count | connect4/players.py:239-241 | how many cells of the window hold the mark, never more than the window has |
| Evaluation.EvaluateWindow | connect4/players.py:233-255 | the window score of minimaxAI: EvaluateWindowValues gives its possible values and the pattern behind each |
| Evaluation.EvaluateWindowValues | connect4/players.py:233-255 | a 4-cell window scores one of 1000, 5, 2, 0, -4, and each non-zero value occurs exactly when its pattern of own, opponent and empty cells does |
| Evaluation.WindowAt | connect4/players.py:204-225 | the four cells of the line from (r, c) with step (dr, dc), read off the grid |
| Evaluation.BlockScore | connect4/players.py:204-225 | the running score after the first n windows of one orientation's nested loops: BlockScoreIsSum ties it to the catalog sum, BlockScoreBounds bounds it |
| Evaluation.HorizontalScore | connect4/players.py:204-207 | the horizontal loops of evaluate_position: HorizontalSum gives their total |
| Evaluation.VerticalScore | connect4/players.py:210-213 | the vertical loops: VerticalSum gives their total |
| Evaluation.DiagonalScore | connect4/players.py:216-219 | the down-right loops: DiagonalSum gives their total |
| Evaluation.AntiDiagonalScore | connect4/players.py:222-225 | the up-right loops: AntiDiagonalSum gives their total |
| Evaluation.CenterCount | connect4/players.py:228 | the own marks in column 3: CenterCountBlank has it 0 on the empty board |
| Evaluation.EvaluatePosition | connect4/players.py:195-231 | minimaxAI's position score: EvaluatePositionClosedForm, EvaluatePositionBounds and EvaluatePositionEmpty state what it is |
| Evaluation.WindowSum | connect4/players.py:233-255 | the reference sum of the window score over a list of windows, against which the loops are proved |
| Evaluation.HorizontalSum | connect4/players.py:204-207 | the horizontal loops of evaluate_position sum evaluate_window over the catalog's 24 horizontal windows |
| Evaluation.VerticalSum | connect4/players.py:210-213 | the vertical loops sum over the catalog's 21 vertical windows |
| Evaluation.DiagonalSum | connect4/players.py:216-219 | the down-right loops sum over the catalog's 12 down-right windows |
| Evaluation.AntiDiagonalSum | connect4/players.py:222-225 | the up-right loops sum over the catalog's 12 up-right windows |
| Evaluation.EvaluatePositionClosedForm | connect4/players.py:195-231 | evaluate_position is the sum of evaluate_window over the 69 catalog windows plus 3 per own mark in column 3 |
| Evaluation.EvaluatePositionEmpty | connect4/players.py:195-231 | evaluate_position is 0 on the empty board |
| Evaluation.EvaluatePositionBounds | connect4/players.py:195-231 | evaluate_position lies between -4*69 and 1000*69 + 18, strictly inside (-100000, 100000) |
| Evaluation.QuickPoints | connect4/players.py:399-404 | a window without four of a kind adds 5, -4, 2 or 0 |
| Evaluation.QuickScan | connect4/players.py:386-406 | quick_eval's loop from window k on with its running score: QuickScanClosedForm gives it in closed form |
| Evaluation.QuickSum | connect4/players.py:399-404 | the reference sum of the non-deciding points of windows k on, against which QuickScanClosedForm states the loop |
| Evaluation.Verdict | connect4/players.py:395-398 | a deciding window's answer: +100000 for four own marks, tested first, otherwise -100000 |
| Evaluation.QuickEval | connect4/players.py:377-406 | quick_eval over a window list: QuickEvalClosedForm and QuickEvalEmpty state what it is |
| Evaluation.QuickScanClosedForm | connect4/players.py:386-406 | from window k on, quick_eval's loop returns the verdict of the first window holding four marks of one side, or else the running score plus the points of the remaining windows |
| Evaluation.QuickEvalClosedForm | connect4/players.py:377-406 | quick_eval is +100000 or -100000 according to the first window holding four own or four opponent marks, and otherwise 3 per own centre mark plus 5, -4, 2 or 0 per window |
| Evaluation.QuickEvalEmpty | connect4/players.py:377-406 | quick_eval is 0 on the empty board |
| Ordering.OrderFrom | connect4/players.py:360-375 | the orderer's loop from priority index i on with the list built so far: OrderFromValid keeps legal, distinct columns; OrderClosedForm gives its result |
| Ordering.Reverse | connect4/players.py:371 | the reference order of the blocking columns, reversed by `insert(0, col)`: entry i is entry |s|-1-i of its argument |
| Ordering.Blockers | connect4/players.py:368-372 | the reference list of the legal blocking columns in priority order, against which OrderClosedForm states the result |
| Ordering.Quiets | connect4/players.py:373-374 | the reference list of the other legal columns in priority order |
| Ordering.OrderOf | connect4/players.py:353-375 | the orderer returns legal columns only, none twice |
| Ordering.OrderClosedForm | connect4/players.py:360-375 | with an immediate own win, the order is the first winning column in [3,2,4,1,5,0,6] order alone; otherwise the blocking columns in reverse priority order, then the other legal columns in priority order |
| Ordering.OrderMembers | connect4/players.py:360-375 | without an immediate win, every legal column appears (exactly once) |
| Ordering.OrderKinds | connect4/players.py:368-374 | the first entries, as many as there are blocking columns, are the blocking ones; the rest are quiet |
| Ordering.BlockersFirst | connect4/players.py:371 | no blocking column comes after a quiet one |
| Ordering.BlockersRanked | connect4/players.py:371 | the blocking columns come in reverse priority order |
| Ordering.QuietsRanked | connect4/players.py:374 | the quiet columns come in priority order |
| MinimaxPlayer.MinimaxValue | connect4/players.py:146-193 | minimax on the position value: MinimaxSearches unfolds one level, MinimaxIsBest and MinimaxBounded state what it is |
| MinimaxPlayer.Child | connect4/players.py:166-174 | one column of the loop: drop the mover's mark, search one level deeper for the other side |
| MinimaxPlayer.Children | connect4/players.py:163-193 | the scores of the listed columns, in list order, one per column (its ensures); ChildrenMembers and ChildrenWithin state more |
| MinimaxPlayer.Heuristic | connect4/players.py:158-159 | evaluate_position as the depth-0 leaf scorer: HeuristicBounded bounds it |
| MinimaxPlayer.MinimaxIsBest | connect4/players.py:161-193 | below an undecided position at positive depth, minimax is the max (own to move) or min (opponent to move) over all legal columns' scores, attained by one of them, the same for any enumeration of the legal columns, and the seed when the board is full |
| MinimaxPlayer.HeuristicBounded | connect4/players.py:158-159 | the depth-0 heuristic stays strictly between -100000 and 100000, so it never reaches a win's score |
| MinimaxPlayer.MinimaxBounded | connect4/players.py:150-193 | every finite minimax value lies within [-100000, 100000] |
| MinimaxPlayer.Scan | connect4/players.py:125-142 | play's loop after k columns, as (best score, best column): ScanBest states which column it holds |
| MinimaxPlayer.PlayChoice | connect4/players.py:114-144 | play's answer: PlayOpening, PlayFailsWhenFull, PlayBest and PlayFirstBest state it |
| MinimaxPlayer.ScanBest | connect4/players.py:125-142 | play's loop ends on a column whose score bounds every scanned score, and every earlier column scores strictly less |
| MinimaxPlayer.PlayOpening | connect4/players.py:116-119 | on the first call with column 3 open, play answers 3 without search; with column 3 full, the first call searches like any other |
| MinimaxPlayer.PlayFailsWhenFull | connect4/players.py:122-126 | when play searches, `valid_moves[0]` fails exactly when every column is full |
| MinimaxPlayer.PlayBest | connect4/players.py:128-144 | when play searches a board with room, its column is legal and no legal column scores higher |
| MinimaxPlayer.PlayFirstBest | connect4/players.py:140-142 | ties go to the smallest column: every legal column left of the chosen one scores strictly less |
| MinimaxPlayer.BlockAllRows | connect4/players.py:204-225 | an orientation's nested loops, rows outer and columns inner, visit its windows in the row-major order of the closed form |
| MinimaxPlayer.RowsScore | connect4/players.py:204-225 | one orientation's nested loops, rows outer: BlockAllRows ties it to the row-major block sum |
| MinimaxPlayer.RowScore | connect4/players.py:205-225 | the inner loop over one row's start columns |
| MinimaxPlayer.MinimaxAI.Rules | connect4/players.py:151-159 | minimaxAI's game: the environment's oracle, its own and the opponent's mark, evaluate_position at depth 0 |
| MinimaxPlayer.ScoreBlock | connect4/players.py:204-225 | one orientation's nested loops, reading windows off the board array, compute that orientation's sum |
| MinimaxPlayer.MinimaxAI.constructor | connect4/players.py:106-112 | a new agent has depth 4 and its first-move flag set |
| MinimaxPlayer.MinimaxAI.EvaluatePositionOf | connect4/players.py:195-231 | the loops over the board array compute evaluate_position of the grid |
| MinimaxPlayer.MinimaxAI.Minimax | connect4/players.py:146-193 | the method returns MinimaxValue and leaves grid and topPosition as they were |
| MinimaxPlayer.MinimaxAI.MaxScore | connect4/players.py:163-177 | the maximizing loop returns the max fold of the columns' scores, board restored |
| MinimaxPlayer.MinimaxAI.MinScore | connect4/players.py:179-193 | the minimizing loop returns the min fold of the columns' scores, board restored |
| MinimaxPlayer.MinimaxAI.ChildScore | connect4/players.py:166-174 | try, recurse one level deeper with the other side, undo: the column's score, board restored |
| MinimaxPlayer.MinimaxAI.Play | connect4/players.py:114-144 | play answers PlayChoice for the flag it had on entry, clears the flag, and restores the board |
| MinimaxPlayer.MinimaxAI.ScanColumns | connect4/players.py:125-142 | play's loop answers the first strictly best column of the scan, board restored |
| MinimaxPlayer.MinimaxAI.ScanNext | connect4/players.py:128-142 | one iteration of play's loop: the column is scored and kept only when its score is strictly higher, board restored |
| AlphaBetaPlayer.AlphaBeta | connect4/players.py:289-351 | alpha_beta keyed on `max_player`, threading the table: AlphaBetaShortcuts, AlphaBetaExtends, AlphaBetaClamp, FailSoft and FullWindowExact state it |
| AlphaBetaPlayer.Loop | connect4/players.py:315-351 | the for-loop with cutoff and narrowed window: LoopStep unfolds it, LoopClamp, LoopExtends and LoopHit state it |
| AlphaBetaPlayer.Reply | connect4/players.py:318-326 | one column of the loop: drop the mover's mark, search one level deeper for the other side with the current window |
| AlphaBetaPlayer.NextAlpha | connect4/players.py:329 | `alpha = max(alpha, score)` for the maximizer, alpha unchanged for the minimizer |
| AlphaBetaPlayer.NextBeta | connect4/players.py:347 | `beta = min(beta, score)` for the minimizer, beta unchanged for the maximizer |
| AlphaBetaPlayer.LastMoveWon | connect4/players.py:292-295 | the two terminal checks: has the side that just moved won with the last column |
| AlphaBetaPlayer.Value | connect4/players.py:289-351 | the reference: the same terminal test and leaves, the plain max or min over the orderer's list, no window and no table; FailSoft and FullWindowExact compare AlphaBeta with it |
| AlphaBetaPlayer.ValueOf | connect4/players.py:318-326 | the reference score of one column, one level deeper for the other side |
| AlphaBetaPlayer.Values | connect4/players.py:315-351 | the reference scores of the listed columns, one per column (its ensures) |
| AlphaBetaPlayer.FailSoft | connect4/players.py:289-351 | for a search with alpha < beta that never answers from the table, with v its unpruned value over the same ordered lists: the result is v when alpha < v < beta, at most alpha exactly when v is, at least beta exactly when v is |
| AlphaBetaPlayer.FullWindowExact | connect4/players.py:289-351 | from (-inf, +inf), a search that never answers from the table returns exactly the unpruned value |
| AlphaBetaPlayer.AlphaBetaClamp | connect4/players.py:289-351 | a table-free search and the unpruned value look the same through the window [alpha, beta] |
| AlphaBetaPlayer.LoopClamp | connect4/players.py:315-351 | the loop with the narrowed window, from any step where its invariant holds, ends with a result that looks, through the caller's window, like the unpruned fold over all columns |
| AlphaBetaPlayer.AlphaBetaExtends | connect4/players.py:300-350 | a search only adds table entries, never removes or overwrites one, and adds them only for its depth or below |
| AlphaBetaPlayer.LoopExtends | connect4/players.py:317-331 | the loop's children only add entries, all one level deeper or below |
| AlphaBetaPlayer.AlphaBetaShortcuts | connect4/players.py:292-310 | the last move's win is checked before the table, whatever the table holds; a hit returns the stored score with the table unchanged; depth 0 stores and returns the heuristic; a full board returns 0 without storing; every other path stores its result |
| AlphaBetaPlayer.AlphaBetaAsWritten | connect4/players.py:292-299 | alpha_beta as written: the two terminal checks return, anything past them raises NameError; AsWrittenRaises and NameErrorAtOpening state it |
| AlphaBetaPlayer.AsWrittenRaises | connect4/players.py:292-299 | as written, a call raises NameError exactly when the last move did not win, and otherwise agrees with the corrected search |
| AlphaBetaPlayer.NameErrorAtOpening | connect4/players.py:299 | the opening search on the empty board raises NameError as written, while the corrected search completes and stores its root entry |
| AlphaBetaPlayer.AppendBlock | connect4/players.py:271-274 | one orientation's nested loops append exactly that orientation's lines, rows outer and columns inner |
| AlphaBetaPlayer.PrecompWindowsOf | connect4/players.py:268-287 | the four orientations' loops build exactly the catalog |
| AlphaBetaPlayer.AlphaBetaAI.constructor | connect4/players.py:259-265 | a new agent has depth 5, its first-move flag set, an empty table, and the catalog as its window list |
| AlphaBetaPlayer.QuickLeaf | connect4/players.py:303-306 | quick_eval over a window list as the depth-0 leaf scorer |
| AlphaBetaPlayer.AlphaBetaAI.Rules | connect4/players.py:303-306 | alphaBetaAI's game: the environment's oracle, the two marks, quick_eval over its window list at depth 0; RulesLeaf states the leaf |
| AlphaBetaPlayer.AlphaBetaAI.RulesLeaf | connect4/players.py:303-306 | the pruned search scores its depth-0 leaves with quick_eval over the catalog |
| AlphaBetaPlayer.AlphaBetaAI.QuickEvalOf | connect4/players.py:377-406 | the loop over the window list, with its early returns, computes quick_eval of the grid |
| AlphaBetaPlayer.AlphaBetaAI.GetOrder | connect4/players.py:353-375 | probing each column in place returns the order of OrderOf and leaves the grid and topPosition as they were |
| AlphaBetaPlayer.AlphaBetaAI.AlphaBetaSearch | connect4/players.py:289-351 | the method returns AlphaBeta's value, leaves AlphaBeta's table, and restores grid and topPosition on every path |
| AlphaBetaPlayer.AlphaBetaAI.Expand | connect4/players.py:313-351 | ordering, the side's loop and the final store give the loop's value, with the table holding it under the position's key |
| AlphaBetaPlayer.AlphaBetaAI.MaxLoop | connect4/players.py:315-333 | the maximizing loop with its cutoff gives the pure loop's value and table, board restored |
| AlphaBetaPlayer.AlphaBetaAI.MinLoop | connect4/players.py:334-351 | the minimizing loop with its cutoff gives the pure loop's value and table, board restored |
| AlphaBetaPlayer.AlphaBetaAI.ChildSearch | connect4/players.py:318-326 | try, search one level deeper with the current window, undo: the column's result and table, board restored |
| AlphaBetaPlayer.AlphaBetaAI.Play | connect4/players.py:20-21 | the agent defines no `play` of its own, so it answers the base player's -1 |

## Left out

- `humanConsole`, `humanGUI`, the pygame setup, the display constants and the `CVDMode` colour switch: these are I/O and presentation.
- `randomAI`, `stupidAI` and `random.seed`: these are random or fixed choices outside the search core. The constructors' `seed` argument is dropped for the same reason.
- The `connect4` module is not part of this model.
  - `gameOver` is an uninterpreted oracle in its two call shapes.
  - `Env` models that module's board only as far as the searches touch it.
- `hash(str(env.board))`: the table is keyed on the grid itself, so hash collisions are not modelled.
- Floats: every score is a small integer or an infinity, so scores are integers extended with the two infinities. No rounding is modelled.
- The 3-second move budget and the tournament rules are not behaviour of the code.
- The opponent's mark: the source reads it from `self.opponent.position` through an object linked after construction. Here it is a constructor argument.
- `last_move_row` is never read by `alpha_beta`, so AlphaBetaSearch omits it.
- Method splitting: for verification cost, each of these Python functions is split into methods that run the same statements in the same order.
  - `minimax` is split into Minimax, MaxScore, MinScore and ChildScore.
  - `play` is split into Play, ScanColumns and ScanNext.
  - `alpha_beta` is split into AlphaBetaSearch, Expand, MaxLoop, MinLoop and ChildSearch.
    - MaxLoop and MinLoop return where the source breaks out of the loop.
    - Expand then stores the result, as the line after the loop does.
- Settled precondition: the search methods require a settled board. The source relies on that without checking it, and without it the undo does not restore the grid.
- AlphaBetaPlayer.FailSoft: it is stated only for searches that never answer from the table, because of the stored cut-off results described under Design notes.
  - The table keeps the result of each cut-off search. That result is a bound, not an exact value, and the key (grid, depth, side) does not include alpha or beta (lines 332 and 350).
  - So a later hit can return a bound where an exact score is needed, and the cached search differs from the uncached one.
- AlphaBetaPlayer.FailSoft: it states the window-relative form (inside, below or above the window, each in both directions). It does not state the stronger bound form (a result at or below alpha is an upper bound on v, one at or above beta a lower bound).
- Alpha-beta is not compared with minimax. The two use different terminal tests (the last move's column versus a whole-board verdict) and different leaf heuristics. FailSoft relates alpha-beta to the unpruned search with alpha-beta's own leaves and ordered column lists.

## Design notes

- Alpha-beta has its own terminal and leaf rules: it asks whether the last move won rather than for a whole-board verdict, ends a full board at 0, and scores depth-0 leaves with quick_eval.
- Cached bounds can change alpha-beta's value: a cut-off result stored in the table may come back later where an exact score is needed (see FailSoft under Left out).
- `play` of minimaxAI raises IndexError on a full board when it does not take the opening move. The model returns an `IndexError` choice there.
- `_get_order` probes `gameOver` without decrementing `topPosition`, unlike the searches. The model's Probe writes the mark with `topPosition` unchanged, and Drop steps it.

## Findings

| source | as written | input that shows it | evidently intended | confidence | as-written member | corrected member |
|---|---|---|---|---|---|---|
| connect4/players.py:299 | the cache key is built from the name `maximizing_player`, which is bound nowhere in the file, so every call that gets past the two terminal checks raises NameError | the opening search on the empty board from (-inf, +inf), with no winning last move | key the table on the parameter `max_player` | high; not executed | AlphaBetaPlayer.AlphaBetaAsWritten, exhibited by AlphaBetaPlayer.NameErrorAtOpening and AlphaBetaPlayer.AsWrittenRaises | AlphaBetaPlayer.AlphaBeta, with AlphaBetaPlayer.FailSoft and AlphaBetaPlayer.AlphaBetaExtends proved about it |
