/** `alphaBetaAI`: fail-soft alpha-beta over the orderer's column lists,
    scored at the leaves by `quick_eval`, with a transposition table that
    lives as long as the agent. The pure functions give what a search returns
    and the table it leaves; the class AlphaBetaAI computes them by placing
    and taking back marks in the environment's arrays. */
module AlphaBetaPlayer {
  import opened ExtScores
  import opened Board
  import opened Windows
  import opened Evaluation
  import opened Ordering

  /** The search depth the agent is built with (`self.max_depth`). */
  const MAX_DEPTH: nat := 5

  /** A transposition-table key: the grid (standing in for the hash of its
      text), the remaining depth and the side to move. */
  datatype Key = Key(grid: Grid, depth: nat, maxP: bool)

  type Table = map<Key, Ext>

  /** What a search returns, the table it leaves behind, and whether it
      answered any call from the table. */
  datatype Search = Search(value: Ext, table: Table, hit: bool)

  /** The last move, into `lastCol`, won for the side that just moved: the
      opponent when it is own turn, own when it is the opponent's turn. */
  predicate LastMoveWon(gm: Game, p: Position, maxP: bool, lastCol: int) {
    if maxP then gm.oracle.movedWins(p, lastCol, gm.opponent)
    else gm.oracle.movedWins(p, lastCol, gm.own)
  }

  /** `alpha_beta(env, depth, alpha, beta, max_player, _, last_move_col)` on
      position `p` with table `t`, keyed on `max_player`. */
  function AlphaBeta(gm: Game, p: Position, depth: nat, alpha: Ext, beta: Ext, maxP: bool, lastCol: int, t: Table): Search
    requires WellFormed(p)
    decreases depth, 1
  {
    if maxP && gm.oracle.movedWins(p, lastCol, gm.opponent) then Search(Fin(-WIN), t, false)
    else if !maxP && gm.oracle.movedWins(p, lastCol, gm.own) then Search(Fin(WIN), t, false)
    else
      var key := Key(p.grid, depth, maxP);
      if key in t then Search(t[key], t, true)
      else if depth == 0 then Search(Fin(gm.leaf(p.grid)), t[key := Fin(gm.leaf(p.grid))], false)
      else if AllFull(p.tops) then Search(Fin(0), t, false)
      else
        var r := Loop(gm, p, depth, alpha, beta, maxP, OrderOf(gm, p), 0, Seed(maxP), t, false);
        Search(r.value, r.table[key := r.value], r.hit)
  }

  /** The search of column `c`: the side to move drops its mark there and
      the other side answers one level deeper, with the window as it is. */
  function Reply(gm: Game, p: Position, depth: nat, alpha: Ext, beta: Ext, maxP: bool, c: int, t: Table): Search
    requires WellFormed(p) && Legal(p, c) && depth > 0
    decreases depth, 0, 0
  {
    AlphaBeta(gm, Drop(p, c, Mover(gm, maxP)), Deeper(depth), alpha, beta, !maxP, c, t)
  }

  /** The loop `for move in moves` from `ms[i]` on, with `max_score` (or
      `min_score`) in `acc`, the window narrowed to [alpha, beta], the table
      `t`, and `hit` recording any table answer so far: the best score so far
      is the result once the window closes (`beta <= alpha`) or the columns
      run out. */
  function Loop(gm: Game, p: Position, depth: nat, alpha: Ext, beta: Ext, maxP: bool, ms: seq<int>, i: nat, acc: Ext, t: Table, hit: bool): Search
    requires WellFormed(p) && depth > 0 && LegalMoves(p, ms) && i <= |ms|
    decreases depth, 0, |ms| - i + 1
  {
    if i == |ms| then Search(acc, t, hit)
    else
      var r := Reply(gm, p, depth, alpha, beta, maxP, ms[i], t);
      var acc' := Combine(maxP, acc, r.value);
      var alpha', beta' := NextAlpha(maxP, alpha, r.value), NextBeta(maxP, beta, r.value);
      if Le(beta', alpha') then Search(acc', r.table, hit || r.hit)
      else Loop(gm, p, depth, alpha', beta', maxP, ms, i + 1, acc', r.table, hit || r.hit)
  }

  /** The maximizer raises alpha to the reply's score; the minimizer keeps it. */
  function NextAlpha(maxP: bool, alpha: Ext, s: Ext): Ext {
    if maxP then Max(alpha, s) else alpha
  }

  /** The minimizer lowers beta to the reply's score; the maximizer keeps it. */
  function NextBeta(maxP: bool, beta: Ext, s: Ext): Ext {
    if maxP then beta else Min(beta, s)
  }

  /** One iteration of the loop, unfolded. */
  lemma LoopStep(gm: Game, p: Position, depth: nat, alpha: Ext, beta: Ext, maxP: bool, ms: seq<int>, i: nat, acc: Ext, t: Table, hit: bool)
    requires WellFormed(p) && depth > 0 && LegalMoves(p, ms) && i < |ms|
    ensures var r := Reply(gm, p, depth, alpha, beta, maxP, ms[i], t);
      var acc', alpha', beta' := Combine(maxP, acc, r.value), NextAlpha(maxP, alpha, r.value), NextBeta(maxP, beta, r.value);
      Loop(gm, p, depth, alpha, beta, maxP, ms, i, acc, t, hit) ==
        if Le(beta', alpha') then Search(acc', r.table, hit || r.hit)
        else Loop(gm, p, depth, alpha', beta', maxP, ms, i + 1, acc', r.table, hit || r.hit)
  {
  }

  /** Once a table answer is recorded, the loop reports it. */
  lemma {:induction false} LoopHit(gm: Game, p: Position, depth: nat, alpha: Ext, beta: Ext, maxP: bool, ms: seq<int>, i: nat, acc: Ext, t: Table)
    requires WellFormed(p) && depth > 0 && LegalMoves(p, ms) && i <= |ms|
    ensures Loop(gm, p, depth, alpha, beta, maxP, ms, i, acc, t, true).hit
    decreases |ms| - i
  {
    if i < |ms| {
      var r := Reply(gm, p, depth, alpha, beta, maxP, ms[i], t);
      LoopHit(gm, p, depth, NextAlpha(maxP, alpha, r.value), NextBeta(maxP, beta, r.value), maxP, ms, i + 1,
              Combine(maxP, acc, r.value), r.table);
    }
  }

  // ---------------------------------------------------------------------
  // The unpruned search over the same column lists

  /** The value alpha-beta approximates: the same terminal test, the same
      leaves (the heuristic at depth 0, 0 on a full board), and the plain
      max (min) over every column of the orderer's list, without a window
      or a table. */
  function Value(gm: Game, p: Position, depth: nat, maxP: bool, lastCol: int): Ext
    requires WellFormed(p)
    decreases depth, 2
  {
    if LastMoveWon(gm, p, maxP, lastCol) then (if maxP then Fin(-WIN) else Fin(WIN))
    else if depth == 0 then Fin(gm.leaf(p.grid))
    else if AllFull(p.tops) then Fin(0)
    else Best(maxP, Values(gm, p, depth, maxP, OrderOf(gm, p)))
  }

  function ValueOf(gm: Game, p: Position, depth: nat, maxP: bool, c: int): Ext
    requires WellFormed(p) && Legal(p, c) && depth > 0
    decreases depth, 0
  {
    Value(gm, Drop(p, c, Mover(gm, maxP)), Deeper(depth), !maxP, c)
  }

  /** The unpruned scores of the columns `ms`, in list order. */
  function Values(gm: Game, p: Position, depth: nat, maxP: bool, ms: seq<int>): (vs: seq<Ext>)
    requires WellFormed(p) && depth > 0 && LegalMoves(p, ms)
    ensures |vs| == |ms|
    decreases depth, 1
  {
    seq(|ms|, i requires 0 <= i < |ms| => ValueOf(gm, p, depth, maxP, ms[i]))
  }

  /** A column's pruned and unpruned searches, with the child's depth named. */
  lemma {:induction false} ReplyDeeper(gm: Game, p: Position, depth: nat, deeper: nat, alpha: Ext, beta: Ext, maxP: bool, c: int, t: Table)
    requires WellFormed(p) && Legal(p, c) && depth > 0 && deeper == Deeper(depth)
    ensures Reply(gm, p, depth, alpha, beta, maxP, c, t) == AlphaBeta(gm, Drop(p, c, Mover(gm, maxP)), deeper, alpha, beta, !maxP, c, t)
    ensures ValueOf(gm, p, depth, maxP, c) == Value(gm, Drop(p, c, Mover(gm, maxP)), deeper, !maxP, c)
  {
  }

  // ---------------------------------------------------------------------
  // Fail-soft

  /** The loop's window at step `i`: the maximizer has raised alpha to the
      best score so far (beta untouched), the minimizer has lowered beta
      (alpha untouched); the window is still open; and the best score so far
      looks, through the caller's window [a, b], like the unpruned fold over
      the columns searched so far. */
  predicate LoopWindow(maxP: bool, a: Ext, b: Ext, alpha: Ext, beta: Ext, acc: Ext, vs: seq<Ext>, i: nat)
    requires i <= |vs|
  {
    (if maxP then beta == b && alpha == Max(a, acc) else alpha == a && beta == Min(b, acc)) &&
    Lt(alpha, beta) &&
    Clamp(a, b, acc) == Clamp(a, b, Best(maxP, vs[..i]))
  }

  lemma BestStep(maxP: bool, vs: seq<Ext>, i: nat)
    requires i < |vs|
    ensures Best(maxP, vs[..i + 1]) == Combine(maxP, Best(maxP, vs[..i]), vs[i])
  {
    assert vs[..i + 1] == vs[..i] + [vs[i]];
    BestSnoc(maxP, vs[..i], vs[i]);
  }

  /** Every column folded in: the best score is the unpruned fold, as seen
      through the caller's window. */
  lemma LoopWindowDone(maxP: bool, a: Ext, b: Ext, alpha: Ext, beta: Ext, acc: Ext, vs: seq<Ext>)
    requires LoopWindow(maxP, a, b, alpha, beta, acc, vs, |vs|)
    ensures Clamp(a, b, acc) == Clamp(a, b, Best(maxP, vs))
  {
    assert vs[..|vs|] == vs;
  }

  /** One column folded in: when the reply looks like its unpruned score
      through the loop's window, the new best score looks like the extended
      unpruned fold through the caller's window. */
  lemma WindowStep(maxP: bool, a: Ext, b: Ext, alpha: Ext, beta: Ext, acc: Ext, vs: seq<Ext>, i: nat, r: Ext)
    requires i < |vs| && Lt(a, b) && LoopWindow(maxP, a, b, alpha, beta, acc, vs, i)
    requires Clamp(alpha, beta, r) == Clamp(alpha, beta, vs[i])
    ensures Clamp(a, b, Combine(maxP, acc, r)) == Clamp(a, b, Best(maxP, vs[..i + 1]))
  {
    var prev := Best(maxP, vs[..i]);
    BestStep(maxP, vs, i);
    if maxP {
      ClampRaise(a, b, acc, r);
      ClampRaise(a, b, acc, vs[i]);
      ClampMax(a, b, acc, vs[i]);
      ClampMax(a, b, prev, vs[i]);
    } else {
      ClampLower(a, b, acc, r);
      ClampLower(a, b, acc, vs[i]);
      ClampMin(a, b, acc, vs[i]);
      ClampMin(a, b, prev, vs[i]);
    }
  }

  /** The window closes after a column: the best score so far is already
      past the caller's window on the pruning side, and so is the unpruned
      fold over all columns. */
  lemma WindowCut(maxP: bool, a: Ext, b: Ext, alpha: Ext, beta: Ext, acc: Ext, vs: seq<Ext>, i: nat, r: Ext)
    requires i < |vs| && Lt(a, b) && LoopWindow(maxP, a, b, alpha, beta, acc, vs, i)
    requires Clamp(a, b, Combine(maxP, acc, r)) == Clamp(a, b, Best(maxP, vs[..i + 1]))
    requires Le(NextBeta(maxP, beta, r), NextAlpha(maxP, alpha, r))
    ensures Clamp(a, b, Combine(maxP, acc, r)) == Clamp(a, b, Best(maxP, vs))
  {
    var acc' := Combine(maxP, acc, r);
    BestPrefix(maxP, vs, i + 1);
    ClampCases(a, b, acc');
    ClampCases(a, b, Best(maxP, vs[..i + 1]));
    ClampCases(a, b, Best(maxP, vs));
    if maxP {
      MaxAssoc(a, acc, r);
      LeTrans(b, Best(maxP, vs[..i + 1]), Best(maxP, vs));
    } else {
      MinAssoc(b, acc, r);
      LeTrans(Best(maxP, vs), Best(maxP, vs[..i + 1]), a);
    }
  }

  /** The window stays open after a column: it is still the loop's window. */
  lemma WindowNext(maxP: bool, a: Ext, b: Ext, alpha: Ext, beta: Ext, acc: Ext, vs: seq<Ext>, i: nat, r: Ext)
    requires i < |vs| && Lt(a, b) && LoopWindow(maxP, a, b, alpha, beta, acc, vs, i)
    requires Clamp(a, b, Combine(maxP, acc, r)) == Clamp(a, b, Best(maxP, vs[..i + 1]))
    requires !Le(NextBeta(maxP, beta, r), NextAlpha(maxP, alpha, r))
    ensures LoopWindow(maxP, a, b, NextAlpha(maxP, alpha, r), NextBeta(maxP, beta, r), Combine(maxP, acc, r), vs, i + 1)
  {
    MaxAssoc(a, acc, r);
    MinAssoc(b, acc, r);
  }

  /** Fail-soft, through the caller's window: a search that never answered
      from the table, started with a non-empty window [a, b], returns a
      score that the window cannot tell from the unpruned value. */
  lemma {:induction false} AlphaBetaClamp(gm: Game, p: Position, depth: nat, a: Ext, b: Ext, maxP: bool, lastCol: int, t: Table)
    requires WellFormed(p) && Lt(a, b)
    ensures !AlphaBeta(gm, p, depth, a, b, maxP, lastCol, t).hit ==>
      Clamp(a, b, AlphaBeta(gm, p, depth, a, b, maxP, lastCol, t).value) == Clamp(a, b, Value(gm, p, depth, maxP, lastCol))
    decreases depth, 1
  {
    if !LastMoveWon(gm, p, maxP, lastCol) && Key(p.grid, depth, maxP) !in t && depth > 0 && !AllFull(p.tops) {
      var ms := OrderOf(gm, p);
      var vs := Values(gm, p, depth, maxP, ms);
      assert vs[..0] == [];
      ClampCases(a, b, NegInf);
      LoopClamp(gm, p, depth, a, b, maxP, ms, 0, a, b, Seed(maxP), t, false);
    }
  }

  lemma {:induction false} LoopClamp(gm: Game, p: Position, depth: nat, a: Ext, b: Ext, maxP: bool, ms: seq<int>, i: nat,
                                     alpha: Ext, beta: Ext, acc: Ext, t: Table, hit: bool)
    requires WellFormed(p) && depth > 0 && LegalMoves(p, ms) && i <= |ms| && Lt(a, b)
    requires LoopWindow(maxP, a, b, alpha, beta, acc, Values(gm, p, depth, maxP, ms), i)
    ensures !Loop(gm, p, depth, alpha, beta, maxP, ms, i, acc, t, hit).hit ==>
      Clamp(a, b, Loop(gm, p, depth, alpha, beta, maxP, ms, i, acc, t, hit).value) ==
      Clamp(a, b, Best(maxP, Values(gm, p, depth, maxP, ms)))
    decreases depth, 0, |ms| - i, 1
  {
    if i == |ms| {
      LoopWindowDone(maxP, a, b, alpha, beta, acc, Values(gm, p, depth, maxP, ms));
    } else {
      var r := Reply(gm, p, depth, alpha, beta, maxP, ms[i], t);
      LoopStep(gm, p, depth, alpha, beta, maxP, ms, i, acc, t, hit);
      ReplyClamp(gm, p, depth, maxP, ms, i, alpha, beta, t);
      if r.hit {
        LoopHit(gm, p, depth, NextAlpha(maxP, alpha, r.value), NextBeta(maxP, beta, r.value), maxP, ms, i + 1,
                Combine(maxP, acc, r.value), r.table);
      } else {
        LoopClampNext(gm, p, depth, a, b, maxP, ms, i, alpha, beta, acc, r, hit || r.hit);
      }
    }
  }

  /** The loop after a column whose reply never answered from the table:
      if the window closes, the best score so far already looks like the
      unpruned fold; otherwise the loop goes on in the loop's window. */
  lemma {:induction false} LoopClampNext(gm: Game, p: Position, depth: nat, a: Ext, b: Ext, maxP: bool, ms: seq<int>, i: nat,
                                         alpha: Ext, beta: Ext, acc: Ext, r: Search, hit: bool)
    requires WellFormed(p) && depth > 0 && LegalMoves(p, ms) && i < |ms| && Lt(a, b)
    requires LoopWindow(maxP, a, b, alpha, beta, acc, Values(gm, p, depth, maxP, ms), i)
    requires Clamp(alpha, beta, r.value) == Clamp(alpha, beta, Values(gm, p, depth, maxP, ms)[i])
    ensures var alpha', beta', acc' := NextAlpha(maxP, alpha, r.value), NextBeta(maxP, beta, r.value), Combine(maxP, acc, r.value);
      if Le(beta', alpha') then Clamp(a, b, acc') == Clamp(a, b, Best(maxP, Values(gm, p, depth, maxP, ms)))
      else !Loop(gm, p, depth, alpha', beta', maxP, ms, i + 1, acc', r.table, hit).hit ==>
        Clamp(a, b, Loop(gm, p, depth, alpha', beta', maxP, ms, i + 1, acc', r.table, hit).value) ==
        Clamp(a, b, Best(maxP, Values(gm, p, depth, maxP, ms)))
    decreases depth, 0, |ms| - i, 0
  {
    var vs := Values(gm, p, depth, maxP, ms);
    var alpha', beta' := NextAlpha(maxP, alpha, r.value), NextBeta(maxP, beta, r.value);
    WindowStep(maxP, a, b, alpha, beta, acc, vs, i, r.value);
    if Le(beta', alpha') {
      WindowCut(maxP, a, b, alpha, beta, acc, vs, i, r.value);
    } else {
      WindowNext(maxP, a, b, alpha, beta, acc, vs, i, r.value);
      LoopClamp(gm, p, depth, a, b, maxP, ms, i + 1, alpha', beta', Combine(maxP, acc, r.value), r.table, hit);
    }
  }

  /** One column's reply, when it never answered from the table, looks
      like the column's unpruned score through the loop's window. */
  lemma {:induction false} ReplyClamp(gm: Game, p: Position, depth: nat, maxP: bool, ms: seq<int>, i: nat,
                                      alpha: Ext, beta: Ext, t: Table)
    requires WellFormed(p) && depth > 0 && LegalMoves(p, ms) && i < |ms| && Lt(alpha, beta)
    ensures !Reply(gm, p, depth, alpha, beta, maxP, ms[i], t).hit ==>
      Clamp(alpha, beta, Reply(gm, p, depth, alpha, beta, maxP, ms[i], t).value) ==
      Clamp(alpha, beta, Values(gm, p, depth, maxP, ms)[i])
    decreases depth, 0, 0
  {
    var c := ms[i];
    var deeper: nat := Deeper(depth);
    ReplyDeeper(gm, p, depth, deeper, alpha, beta, maxP, c, t);
    AlphaBetaClamp(gm, Drop(p, c, Mover(gm, maxP)), deeper, alpha, beta, !maxP, c, t);
    assert Values(gm, p, depth, maxP, ms)[i] == ValueOf(gm, p, depth, maxP, c);
  }

  /** `alpha_beta` is fail-soft: if a search with alpha < beta never
      answers from the table, and v is the unpruned value over the same
      column lists, then the result equals v when v lies strictly inside the
      window, is at most alpha exactly when v is, and at least beta exactly
      when v is. */
  lemma FailSoft(gm: Game, p: Position, depth: nat, alpha: Ext, beta: Ext, maxP: bool, lastCol: int, t: Table)
    requires WellFormed(p) && Lt(alpha, beta) && !AlphaBeta(gm, p, depth, alpha, beta, maxP, lastCol, t).hit
    ensures var r, v := AlphaBeta(gm, p, depth, alpha, beta, maxP, lastCol, t).value, Value(gm, p, depth, maxP, lastCol);
      (Lt(alpha, v) && Lt(v, beta) ==> r == v) &&
      (Le(v, alpha) <==> Le(r, alpha)) &&
      (Le(beta, v) <==> Le(beta, r))
  {
    var r, v := AlphaBeta(gm, p, depth, alpha, beta, maxP, lastCol, t).value, Value(gm, p, depth, maxP, lastCol);
    AlphaBetaClamp(gm, p, depth, alpha, beta, maxP, lastCol, t);
    ClampCases(alpha, beta, r);
    ClampCases(alpha, beta, v);
  }

  /** From the full window (-inf, +inf), a search that never answers from
      the table returns exactly the unpruned value. */
  lemma FullWindowExact(gm: Game, p: Position, depth: nat, maxP: bool, lastCol: int, t: Table)
    requires WellFormed(p) && !AlphaBeta(gm, p, depth, NegInf, PosInf, maxP, lastCol, t).hit
    ensures AlphaBeta(gm, p, depth, NegInf, PosInf, maxP, lastCol, t).value == Value(gm, p, depth, maxP, lastCol)
  {
    AlphaBetaClamp(gm, p, depth, NegInf, PosInf, maxP, lastCol, t);
    ClampCases(NegInf, PosInf, AlphaBeta(gm, p, depth, NegInf, PosInf, maxP, lastCol, t).value);
    ClampCases(NegInf, PosInf, Value(gm, p, depth, maxP, lastCol));
  }

  // ---------------------------------------------------------------------
  // The transposition table

  /** `u` keeps every entry of `t` unchanged, and every key it adds has
      depth at most `depth`. */
  ghost predicate Extends(t: Table, u: Table, depth: int) {
    (forall k :: k in t ==> k in u && u[k] == t[k]) &&
    (forall k :: k in u && k !in t ==> k.depth <= depth)
  }

  lemma ExtendsTrans(t: Table, u: Table, w: Table, d: int, e: int)
    requires Extends(t, u, d) && Extends(u, w, e) && e <= d
    ensures Extends(t, w, d)
  {
  }

  /** A search only adds entries, never removes or overwrites one, and the
      entries it adds are for its own depth or below: the store at the end
      of the loop never lands on a key the children added, since theirs are
      one level deeper. */
  lemma {:induction false} AlphaBetaExtends(gm: Game, p: Position, depth: nat, alpha: Ext, beta: Ext, maxP: bool, lastCol: int, t: Table)
    requires WellFormed(p)
    ensures Extends(t, AlphaBeta(gm, p, depth, alpha, beta, maxP, lastCol, t).table, depth)
    decreases depth, 1
  {
    if !LastMoveWon(gm, p, maxP, lastCol) && Key(p.grid, depth, maxP) !in t && depth > 0 && !AllFull(p.tops) {
      LoopExtends(gm, p, depth, alpha, beta, maxP, OrderOf(gm, p), 0, Seed(maxP), t, false);
    }
  }

  lemma {:induction false} LoopExtends(gm: Game, p: Position, depth: nat, alpha: Ext, beta: Ext, maxP: bool, ms: seq<int>, i: nat,
                                       acc: Ext, t: Table, hit: bool)
    requires WellFormed(p) && depth > 0 && LegalMoves(p, ms) && i <= |ms|
    ensures Extends(t, Loop(gm, p, depth, alpha, beta, maxP, ms, i, acc, t, hit).table, depth - 1)
    decreases depth, 0, |ms| - i
  {
    if i < |ms| {
      var c := ms[i];
      var r := Reply(gm, p, depth, alpha, beta, maxP, c, t);
      var deeper: nat := Deeper(depth);
      ReplyDeeper(gm, p, depth, deeper, alpha, beta, maxP, c, t);
      AlphaBetaExtends(gm, Drop(p, c, Mover(gm, maxP)), deeper, alpha, beta, !maxP, c, t);
      var alpha', beta' := NextAlpha(maxP, alpha, r.value), NextBeta(maxP, beta, r.value);
      if !Le(beta', alpha') {
        LoopExtends(gm, p, depth, alpha', beta', maxP, ms, i + 1, Combine(maxP, acc, r.value), r.table, hit || r.hit);
        ExtendsTrans(t, r.table, Loop(gm, p, depth, alpha', beta', maxP, ms, i + 1, Combine(maxP, acc, r.value), r.table, hit || r.hit).table, deeper, deeper);
      }
    }
  }

  /** The paths that return before the loop: the last move's win is checked
      before the table is consulted, whatever the table holds; a stored
      entry is returned as it is, with the table unchanged; at depth 0 the
      heuristic is stored and returned; a full board at positive depth
      returns 0 and stores nothing. Every other path stores its result. */
  lemma AlphaBetaShortcuts(gm: Game, p: Position, depth: nat, alpha: Ext, beta: Ext, maxP: bool, lastCol: int, t: Table)
    requires WellFormed(p)
    ensures var r, key := AlphaBeta(gm, p, depth, alpha, beta, maxP, lastCol, t), Key(p.grid, depth, maxP);
      (LastMoveWon(gm, p, maxP, lastCol) ==>
        r == Search(if maxP then Fin(-WIN) else Fin(WIN), t, false) &&
        forall u :: AlphaBeta(gm, p, depth, alpha, beta, maxP, lastCol, u).value == r.value) &&
      (!LastMoveWon(gm, p, maxP, lastCol) && key in t ==> r == Search(t[key], t, true)) &&
      (!LastMoveWon(gm, p, maxP, lastCol) && key !in t && depth == 0 ==>
        r.value == Fin(gm.leaf(p.grid)) && r.table == t[key := r.value]) &&
      (!LastMoveWon(gm, p, maxP, lastCol) && key !in t && depth > 0 && AllFull(p.tops) ==> r == Search(Fin(0), t, false)) &&
      (!LastMoveWon(gm, p, maxP, lastCol) && !(depth > 0 && AllFull(p.tops)) ==> key in r.table && r.table[key] == r.value)
  {
  }

  /** The path through the loop: the loop's result, stored under the
      position's key. */
  lemma LoopPath(gm: Game, p: Position, depth: nat, alpha: Ext, beta: Ext, maxP: bool, lastCol: int, t: Table)
    requires WellFormed(p) && !LastMoveWon(gm, p, maxP, lastCol) && Key(p.grid, depth, maxP) !in t
    requires depth > 0 && !AllFull(p.tops)
    ensures var r := Loop(gm, p, depth, alpha, beta, maxP, OrderOf(gm, p), 0, Seed(maxP), t, false);
      AlphaBeta(gm, p, depth, alpha, beta, maxP, lastCol, t) == Search(r.value, r.table[Key(p.grid, depth, maxP) := r.value], r.hit)
  {
  }

  // ---------------------------------------------------------------------
  // The search as written

  /** What a call of `alpha_beta` does as written: line 299 builds the
      cache key from the name `maximizing_player`, which is bound nowhere, so
      every call that passes the two terminal checks raises NameError. */
  datatype Outcome = Returned(value: Ext) | NameError

  function AlphaBetaAsWritten(gm: Game, p: Position, depth: nat, alpha: Ext, beta: Ext, maxP: bool, lastCol: int, t: Table): Outcome
    requires WellFormed(p)
  {
    if maxP && gm.oracle.movedWins(p, lastCol, gm.opponent) then Returned(Fin(-WIN))
    else if !maxP && gm.oracle.movedWins(p, lastCol, gm.own) then Returned(Fin(WIN))
    else NameError
  }

  /** As written, a search raises NameError exactly when the last move did
      not win, before the table is read; where it does return, it agrees
      with AlphaBeta, which keys the table on `max_player` instead. */
  lemma AsWrittenRaises(gm: Game, p: Position, depth: nat, alpha: Ext, beta: Ext, maxP: bool, lastCol: int, t: Table)
    requires WellFormed(p)
    ensures AlphaBetaAsWritten(gm, p, depth, alpha, beta, maxP, lastCol, t) == NameError <==> !LastMoveWon(gm, p, maxP, lastCol)
    ensures AlphaBetaAsWritten(gm, p, depth, alpha, beta, maxP, lastCol, t).Returned? ==>
      AlphaBetaAsWritten(gm, p, depth, alpha, beta, maxP, lastCol, t).value == AlphaBeta(gm, p, depth, alpha, beta, maxP, lastCol, t).value
  {
  }

  /** A rules oracle under which no game is ever over. */
  function Undecided(): Oracle {
    Oracle(_ => 0, (_, _, _) => false)
  }

  /** The opening search on the empty board, from the full window, raises
      NameError as written, while AlphaBeta completes it and stores its
      value under the root key. */
  lemma NameErrorAtOpening(leaf: Grid -> int)
    ensures var gm, p := Game(Undecided(), 1, 2, leaf), Position(EmptyGrid(), seq(COLS, _ => ROWS - 1));
      AlphaBetaAsWritten(gm, p, MAX_DEPTH, NegInf, PosInf, true, CENTER, map[]) == NameError &&
      Key(p.grid, MAX_DEPTH, true) in AlphaBeta(gm, p, MAX_DEPTH, NegInf, PosInf, true, CENTER, map[]).table
  {
    var gm, p := Game(Undecided(), 1, 2, leaf), Position(EmptyGrid(), seq(COLS, _ => ROWS - 1));
    assert !AllFull(p.tops) by {
      assert p.tops[0] == ROWS - 1;
    }
    AlphaBetaShortcuts(gm, p, MAX_DEPTH, NegInf, PosInf, true, CENTER, map[]);
  }

  // ---------------------------------------------------------------------
  // The agent

  /** `quick_eval` over the window list `ws`, as a leaf heuristic for the
      marks `own`, `opp`. */
  function QuickLeaf(own: int, opp: int, ws: seq<Window>): (Grid -> int) {
    g => if IsGrid(g) && AllInGrid(ws) then QuickEval(g, own, opp, ws) else 0
  }

  /** Window `n = row * width + col` of a block is the line from row
      `r0 + row`, column `col`. */
  lemma BlockNext(n: nat, width: int, r0: int, dr: int, dc: int, row: nat, col: nat)
    requires width > 0 && col < width && n == row * width + col
    ensures Block(n + 1, width, r0, dr, dc) == Block(n, width, r0, dr, dc) + [Line(r0 + row, col, dr, dc)]
  {
    DivMod(n, width, row, col);
  }

  /** One orientation of `_precomp_windows`: for each of `rows` rows from
      `r0`, for each start column below `width`, the line in direction
      (dr, dc) is appended. */
  method AppendBlock(windows: seq<Window>, rows: nat, width: nat, r0: int, dr: int, dc: int) returns (ws: seq<Window>)
    requires width > 0
    ensures ws == windows + Block(rows * width, width, r0, dr, dc)
  {
    ws := windows;
    for row := 0 to rows
      invariant ws == windows + Block(row * width, width, r0, dr, dc)
    {
      for col := 0 to width
        invariant ws == windows + Block(row * width + col, width, r0, dr, dc)
      {
        BlockNext(row * width + col, width, r0, dr, dc, row, col);
        ws := ws + [Line(r0 + row, col, dr, dc)];
      }
      MulStep(row + 1, width);
    }
  }

  /** `_precomp_windows()`: the four orientations' loops build the catalog. */
  method PrecompWindowsOf() returns (windows: seq<Window>)
    ensures windows == PrecompWindows()
  {
    windows := [];
    windows := AppendBlock(windows, 6, 4, 0, 0, 1);
    windows := AppendBlock(windows, 3, COLS, 0, 1, 0);
    windows := AppendBlock(windows, 3, 4, 0, 1, 1);
    windows := AppendBlock(windows, 3, 4, 3, -1, 1);
  }

  class AlphaBetaAI {
    const position: int
    const opponent: int
    const maxDepth: nat
    var isFirstMove: bool
    var transpositionTable: Table
    const allWindows: seq<Window>

    /** The agent with mark `position` against `opponent`'s mark: depth 5,
        an empty table, and the window catalog computed once. */
    constructor (position: int, opponent: int)
      ensures this.position == position && this.opponent == opponent && maxDepth == MAX_DEPTH
      ensures isFirstMove && transpositionTable == map[] && Valid()
    {
      this.position := position;
      this.opponent := opponent;
      maxDepth := MAX_DEPTH;
      isFirstMove := true;
      transpositionTable := map[];
      var windows := PrecompWindowsOf();
      allWindows := windows;
    }

    /** The catalog is the one `_precomp_windows` builds. */
    predicate Valid() {
      allWindows == PrecompWindows()
    }

    function Rules(env: Env): Game {
      Game(env.oracle, position, opponent, QuickLeaf(position, opponent, allWindows))
    }

    /** The pruned search scores its leaves with quick_eval over the
        catalog. */
    lemma RulesLeaf(env: Env, g: Grid)
      requires Valid() && IsGrid(g)
      ensures Rules(env).leaf(g) == QuickEval(g, position, opponent, PrecompWindows())
    {
    }

    /** `quick_eval(env)`: 3 per own mark in the centre column, then the
        windows in catalog order, stopping at the first one holding four
        marks of one side. */
    method QuickEvalOf(env: Env) returns (score: int)
      requires env.Valid() && Valid()
      ensures score == QuickEval(env.Grid(), position, opponent, allWindows)
    {
      ghost var g := env.Grid();
      var centerCount := CenterCount(env.Grid(), position);
      score := centerCount * 3;
      for k := 0 to |allWindows|
        invariant QuickScan(g, position, opponent, allWindows, k, score) == QuickEval(g, position, opponent, allWindows)
      {
        var winCoords := allWindows[k];
        assert InGrid(winCoords);
        var window := seq(|winCoords|, i requires 0 <= i < |winCoords| reads env.board => env.board[winCoords[i].0, winCoords[i].1]);
        assert window == CellsOf(g, winCoords);
        var playerCt, oppCt, emptyCt := Count(window, position), Count(window, opponent), Count(window, 0);
        if playerCt == 4 {
          return WIN;
        } else if oppCt == 4 {
          return -WIN;
        } else if playerCt == 3 && emptyCt == 1 {
          score := score + 5;
        } else if oppCt == 3 && emptyCt == 1 {
          score := score - 4;
        } else if playerCt == 2 && emptyCt == 2 {
          score := score + 2;
        }
      }
    }

    /** `_get_order(env)`: the orderer's list, each column probed by writing
        a mark at its next free row and clearing it again, so that the grid
        is as it was on return. */
    method GetOrder(env: Env) returns (moves: seq<int>)
      requires env.Valid() && Settled(env.Current())
      modifies env.board
      ensures env.Current() == old(env.Current())
      ensures moves == OrderOf(Rules(env), old(env.Current()))
    {
      ghost var p := env.Current();
      ghost var gm := Rules(env);
      moves := [];
      for i := 0 to |PRIORITY|
        invariant env.Current() == p
        invariant OrderFrom(gm, p, i, moves) == OrderFrom(gm, p, 0, [])
      {
        var col := PRIORITY[i];
        if env.topPosition[col] >= 0 {
          var row := env.topPosition[col];
          SetCellSame(p.grid, row, col);
          env.Write(row, col, position);
          SetCellTwice(p.grid, row, col, position, 0);
          if env.oracle.movedWins(env.Current(), col, position) {
            env.Write(row, col, 0);
            return [col];
          }
          env.Write(row, col, opponent);
          SetCellTwice(p.grid, row, col, position, opponent);
          SetCellTwice(p.grid, row, col, opponent, 0);
          if env.oracle.movedWins(env.Current(), col, opponent) {
            env.Write(row, col, 0);
            moves := [col] + moves;
            continue;
          }
          env.Write(row, col, 0);
          moves := moves + [col];
        }
      }
    }

    /** `alpha_beta(env, depth, alpha, beta, max_player, _, last_move_col)`:
        the value and the table of AlphaBeta, with the grid and topPosition
        as they were on entry. */
    method AlphaBetaSearch(env: Env, depth: nat, alpha: Ext, beta: Ext, maxP: bool, lastCol: int, ghost p: Position) returns (value: Ext)
      requires env.Valid() && Valid() && Settled(p) && env.Current() == p
      modifies env.board, env.topPosition, this`transpositionTable
      ensures env.Current() == p
      ensures value == AlphaBeta(Rules(env), p, depth, alpha, beta, maxP, lastCol, old(transpositionTable)).value
      ensures transpositionTable == AlphaBeta(Rules(env), p, depth, alpha, beta, maxP, lastCol, old(transpositionTable)).table
      decreases depth, 2
    {
      if maxP && env.oracle.movedWins(env.Current(), lastCol, opponent) {
        return Fin(-WIN);
      }
      if !maxP && env.oracle.movedWins(env.Current(), lastCol, position) {
        return Fin(WIN);
      }
      var cacheKey := Key(env.Grid(), depth, maxP);
      if cacheKey in transpositionTable {
        return transpositionTable[cacheKey];
      }
      if depth == 0 {
        var evalScore := QuickEvalOf(env);
        transpositionTable := transpositionTable[cacheKey := Fin(evalScore)];
        return Fin(evalScore);
      }
      if AllFull(env.Tops()) {
        return Fin(0);
      }
      LoopPath(Rules(env), p, depth, alpha, beta, maxP, lastCol, transpositionTable);
      value := Expand(env, depth, alpha, beta, maxP, p, cacheKey);
    }

    /** The rest of alpha_beta below a position with room and no table
        entry: the orderer's list, the side's loop, and the result stored
        under the position's key. */
    method Expand(env: Env, depth: nat, alpha: Ext, beta: Ext, maxP: bool, ghost p: Position, cacheKey: Key) returns (value: Ext)
      requires env.Valid() && Valid() && Settled(p) && env.Current() == p && depth > 0
      modifies env.board, env.topPosition, this`transpositionTable
      ensures env.Current() == p
      ensures var r := Loop(Rules(env), p, depth, alpha, beta, maxP, OrderOf(Rules(env), p), 0, Seed(maxP), old(transpositionTable), false);
        value == r.value && transpositionTable == r.table[cacheKey := r.value]
      decreases depth, 1
    {
      var moves := GetOrder(env);
      if maxP {
        value := MaxLoop(env, depth, alpha, beta, p, moves);
      } else {
        value := MinLoop(env, depth, alpha, beta, p, moves);
      }
      transpositionTable := transpositionTable[cacheKey := value];
    }

    /** alpha_beta's maximizing loop: `max_score` from `float('-inf')`,
        alpha raised with each score, leaving the loop once `beta <= alpha`. */
    method MaxLoop(env: Env, depth: nat, alpha0: Ext, beta: Ext, ghost p: Position, moves: seq<int>) returns (maxScore: Ext)
      requires env.Valid() && Valid() && Settled(p) && env.Current() == p && depth > 0 && LegalMoves(p, moves)
      modifies env.board, env.topPosition, this`transpositionTable
      ensures env.Current() == p
      ensures maxScore == Loop(Rules(env), p, depth, alpha0, beta, true, moves, 0, NegInf, old(transpositionTable), false).value
      ensures transpositionTable == Loop(Rules(env), p, depth, alpha0, beta, true, moves, 0, NegInf, old(transpositionTable), false).table
      decreases depth, 0, 2
    {
      ghost var gm := Rules(env);
      ghost var target := Loop(gm, p, depth, alpha0, beta, true, moves, 0, NegInf, transpositionTable, false);
      ghost var hit := false;
      var alpha := alpha0;
      maxScore := NegInf;
      for i := 0 to |moves|
        invariant env.Current() == p
        invariant Loop(gm, p, depth, alpha, beta, true, moves, i, maxScore, transpositionTable, hit) == target
      {
        ghost var r := Reply(gm, p, depth, alpha, beta, true, moves[i], transpositionTable);
        var score := ChildSearch(env, depth, true, alpha, beta, p, moves[i]);
        maxScore := Max(maxScore, score);
        alpha := Max(alpha, score);
        hit := hit || r.hit;
        if Le(beta, alpha) {
          return;
        }
      }
    }

    /** alpha_beta's minimizing loop: `min_score` from `float('inf')`,
        beta lowered with each score, leaving the loop once `beta <= alpha`. */
    method MinLoop(env: Env, depth: nat, alpha: Ext, beta0: Ext, ghost p: Position, moves: seq<int>) returns (minScore: Ext)
      requires env.Valid() && Valid() && Settled(p) && env.Current() == p && depth > 0 && LegalMoves(p, moves)
      modifies env.board, env.topPosition, this`transpositionTable
      ensures env.Current() == p
      ensures minScore == Loop(Rules(env), p, depth, alpha, beta0, false, moves, 0, PosInf, old(transpositionTable), false).value
      ensures transpositionTable == Loop(Rules(env), p, depth, alpha, beta0, false, moves, 0, PosInf, old(transpositionTable), false).table
      decreases depth, 0, 2
    {
      ghost var gm := Rules(env);
      ghost var target := Loop(gm, p, depth, alpha, beta0, false, moves, 0, PosInf, transpositionTable, false);
      ghost var hit := false;
      var beta := beta0;
      minScore := PosInf;
      for i := 0 to |moves|
        invariant env.Current() == p
        invariant Loop(gm, p, depth, alpha, beta, false, moves, i, minScore, transpositionTable, hit) == target
      {
        ghost var r := Reply(gm, p, depth, alpha, beta, false, moves[i], transpositionTable);
        var score := ChildSearch(env, depth, false, alpha, beta, p, moves[i]);
        minScore := Min(minScore, score);
        beta := Min(beta, score);
        hit := hit || r.hit;
        if Le(beta, alpha) {
          return;
        }
      }
    }

    /** The body of alpha_beta's loops for one column: the side to move
        drops its mark into `move`, the reply is searched one level deeper
        with the current window, and the mark is taken back. */
    method ChildSearch(env: Env, depth: nat, maxP: bool, alpha: Ext, beta: Ext, ghost p: Position, move: int) returns (score: Ext)
      requires env.Valid() && Valid() && Settled(p) && env.Current() == p && Legal(p, move) && depth > 0
      modifies env.board, env.topPosition, this`transpositionTable
      ensures env.Current() == p
      ensures score == Reply(Rules(env), p, depth, alpha, beta, maxP, move, old(transpositionTable)).value
      ensures transpositionTable == Reply(Rules(env), p, depth, alpha, beta, maxP, move, old(transpositionTable)).table
      decreases depth, 0, 1
    {
      ghost var t := transpositionTable;
      var mark := if maxP then position else opponent;
      env.TryMove(move, mark);
      DropSettled(p, move, mark);
      var deeper: nat := Deeper(depth);
      score := AlphaBetaSearch(env, deeper, alpha, beta, !maxP, move, Drop(p, move, mark));
      env.UndoMove(move, p, mark);
      ReplyDeeper(Rules(env), p, depth, deeper, alpha, beta, maxP, move, t);
    }

    /** `play(env, move_dict)`: the agent defines none of its own, so the
        base player's answers -1 and the search is never started. */
    method Play(env: Env) returns (move: int)
      ensures move == -1
    {
      move := -1;
    }
  }
}
