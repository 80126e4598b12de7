/** `alphaBetaAI._get_order`: the move orderer of the pruned search, as the
    list it returns. The in-place probing that computes it is the method
    AlphaBetaPlayer.AlphaBetaAI.GetOrder. */
module Ordering {
  import opened Board

  /** Centre first, then outwards. */
  const PRIORITY: seq<int> := [3, 2, 4, 1, 5, 0, 6]

  /** The position of a column in PRIORITY (past its end for a non-column). */
  function Rank(c: int): (r: int)
    ensures 0 <= r <= COLS && (r < COLS <==> 0 <= c < COLS)
  {
    if 0 <= c < COLS then [5, 3, 1, 0, 2, 4, 6][c] else COLS
  }

  lemma PriorityRank()
    ensures |PRIORITY| == COLS
    ensures forall i :: 0 <= i < |PRIORITY| ==> 0 <= PRIORITY[i] < COLS && Rank(PRIORITY[i]) == i
  {
  }

  lemma RankPriority(c: int)
    requires 0 <= c < COLS
    ensures 0 <= Rank(c) < |PRIORITY| && PRIORITY[Rank(c)] == c
  {
  }

  predicate Distinct(s: seq<int>) {
    forall i, j :: 0 <= i < j < |s| ==> s[i] != s[j]
  }

  /** Own mark in `c`, topPosition untouched, completes a line. */
  predicate WinsAt(gm: Game, p: Position, c: int) {
    WellFormed(p) && Legal(p, c) && gm.oracle.movedWins(Probe(p, c, gm.own), c, gm.own)
  }

  /** `c` is not a win, but the opponent's mark there would complete a line. */
  predicate BlocksAt(gm: Game, p: Position, c: int) {
    WellFormed(p) && Legal(p, c) && !WinsAt(gm, p, c) &&
    gm.oracle.movedWins(Probe(p, c, gm.opponent), c, gm.opponent)
  }

  /** A legal column that neither wins nor blocks. */
  predicate Quiet(gm: Game, p: Position, c: int) {
    WellFormed(p) && Legal(p, c) && !WinsAt(gm, p, c) && !BlocksAt(gm, p, c)
  }

  /** `_get_order`'s loop from PRIORITY[i] on, with `moves` so far in `acc`:
      a win returns that column alone, a block goes to the front
      (`insert(0, col)`), any other legal column to the back. */
  function OrderFrom(gm: Game, p: Position, i: nat, acc: seq<int>): seq<int>
    requires WellFormed(p) && i <= |PRIORITY|
    decreases |PRIORITY| - i
  {
    if i == |PRIORITY| then acc
    else
      var c := PRIORITY[i];
      if !Legal(p, c) then OrderFrom(gm, p, i + 1, acc)
      else if gm.oracle.movedWins(Probe(p, c, gm.own), c, gm.own) then [c]
      else if gm.oracle.movedWins(Probe(p, c, gm.opponent), c, gm.opponent) then OrderFrom(gm, p, i + 1, [c] + acc)
      else OrderFrom(gm, p, i + 1, acc + [c])
  }

  /** `_get_order(env)`: legal columns only, none twice. */
  function OrderOf(gm: Game, p: Position): (moves: seq<int>)
    requires WellFormed(p)
    ensures LegalMoves(p, moves) && Distinct(moves)
  {
    OrderFromValid(gm, p, 0, []);
    OrderFrom(gm, p, 0, [])
  }

  lemma {:induction false} OrderFromValid(gm: Game, p: Position, i: nat, acc: seq<int>)
    requires WellFormed(p) && i <= |PRIORITY|
    requires LegalMoves(p, acc) && Distinct(acc)
    requires forall k :: 0 <= k < |acc| ==> Rank(acc[k]) < i
    ensures LegalMoves(p, OrderFrom(gm, p, i, acc)) && Distinct(OrderFrom(gm, p, i, acc))
    decreases |PRIORITY| - i
  {
    if i < |PRIORITY| {
      PriorityRank();
      var c := PRIORITY[i];
      if !Legal(p, c) {
        OrderFromValid(gm, p, i + 1, acc);
      } else if gm.oracle.movedWins(Probe(p, c, gm.own), c, gm.own) {
      } else if gm.oracle.movedWins(Probe(p, c, gm.opponent), c, gm.opponent) {
        OrderFromValid(gm, p, i + 1, [c] + acc);
      } else {
        OrderFromValid(gm, p, i + 1, acc + [c]);
      }
    }
  }

  // ---------------------------------------------------------------------
  // A reference description of the order

  function Reverse(s: seq<int>): (r: seq<int>)
    ensures |r| == |s|
    ensures forall i :: 0 <= i < |s| ==> r[i] == s[|s| - 1 - i]
  {
    seq(|s|, i requires 0 <= i < |s| => s[|s| - 1 - i])
  }

  predicate Kind(gm: Game, p: Position, blocking: bool, c: int) {
    if blocking then BlocksAt(gm, p, c) else Quiet(gm, p, c)
  }

  /** Per PRIORITY position: is that column blocking (or quiet)? */
  function Flags(gm: Game, p: Position, blocking: bool): (f: seq<bool>)
    ensures |f| == |PRIORITY|
    ensures forall j :: 0 <= j < |PRIORITY| ==> f[j] == Kind(gm, p, blocking, PRIORITY[j])
  {
    seq(|PRIORITY|, j requires 0 <= j < |PRIORITY| => Kind(gm, p, blocking, PRIORITY[j]))
  }

  /** The columns PRIORITY[i..] whose flag is set, in priority order. */
  function Keep(f: seq<bool>, i: nat): seq<int>
    requires |f| == |PRIORITY| && i <= |PRIORITY|
    decreases |PRIORITY| - i
  {
    if i == |PRIORITY| then [] else (if f[i] then [PRIORITY[i]] else []) + Keep(f, i + 1)
  }

  /** The blocking columns, in priority order. */
  function Blockers(gm: Game, p: Position): seq<int> {
    Keep(Flags(gm, p, true), 0)
  }

  /** The quiet columns, in priority order. */
  function Quiets(gm: Game, p: Position): seq<int> {
    Keep(Flags(gm, p, false), 0)
  }

  /** No column is an immediate own win. */
  predicate NoWin(gm: Game, p: Position) {
    forall c :: 0 <= c < COLS ==> !WinsAt(gm, p, c)
  }

  /** PRIORITY[i] is the first winning column in priority order. */
  predicate FirstWin(gm: Game, p: Position, i: int) {
    0 <= i < |PRIORITY| && WinsAt(gm, p, PRIORITY[i]) &&
    forall j :: 0 <= j < i ==> !WinsAt(gm, p, PRIORITY[j])
  }

  lemma {:induction false} KeepMembers(f: seq<bool>, i: nat)
    requires |f| == |PRIORITY| && i <= |PRIORITY|
    ensures forall k :: 0 <= k < |Keep(f, i)| ==>
      0 <= Keep(f, i)[k] < COLS && i <= Rank(Keep(f, i)[k]) < COLS && f[Rank(Keep(f, i)[k])]
    decreases |PRIORITY| - i
  {
    if i < |PRIORITY| {
      KeepMembers(f, i + 1);
      PriorityRank();
    }
  }

  /** Columns listed in increasing PRIORITY position. */
  predicate RankSorted(s: seq<int>) {
    forall k1, k2 :: 0 <= k1 < k2 < |s| ==> Rank(s[k1]) < Rank(s[k2])
  }

  lemma ConsRankSorted(x: int, rest: seq<int>)
    requires RankSorted(rest) && forall k :: 0 <= k < |rest| ==> Rank(x) < Rank(rest[k])
    ensures RankSorted([x] + rest)
  {
    var r := [x] + rest;
    forall k1, k2 | 0 <= k1 < k2 < |r|
      ensures Rank(r[k1]) < Rank(r[k2])
    {
      assert r[k2] == rest[k2 - 1];
      if k1 > 0 {
        assert r[k1] == rest[k1 - 1];
      }
    }
  }

  lemma {:induction false} KeepSorted(f: seq<bool>, i: nat)
    requires |f| == |PRIORITY| && i <= |PRIORITY|
    ensures RankSorted(Keep(f, i))
    decreases |PRIORITY| - i
  {
    if i < |PRIORITY| {
      KeepSorted(f, i + 1);
      KeepSortedStep(f, i);
    }
  }

  lemma KeepSortedStep(f: seq<bool>, i: nat)
    requires |f| == |PRIORITY| && i < |PRIORITY| && RankSorted(Keep(f, i + 1))
    ensures RankSorted(Keep(f, i))
  {
    var rest := Keep(f, i + 1);
    if f[i] {
      KeepMembers(f, i + 1);
      PriorityRank();
      assert Keep(f, i) == [PRIORITY[i]] + rest;
      ConsRankSorted(PRIORITY[i], rest);
    } else {
      assert Keep(f, i) == [] + rest;
      assert [] + rest == rest;
    }
  }

  lemma {:induction false} KeepComplete(f: seq<bool>, i: nat)
    requires |f| == |PRIORITY| && i <= |PRIORITY|
    ensures forall j :: i <= j < |PRIORITY| && f[j] ==> PRIORITY[j] in Keep(f, i)
    decreases |PRIORITY| - i
  {
    if i < |PRIORITY| {
      KeepComplete(f, i + 1);
    }
  }

  lemma Unwrapped(acc: seq<int>)
    ensures Reverse([]) + acc + [] == acc
  {
  }

  /** A block goes in front of everything collected so far. */
  lemma BlockStep(c: int, b: seq<int>, acc: seq<int>, q: seq<int>)
    ensures Reverse(b) + ([c] + acc) + q == Reverse([c] + b) + acc + q
  {
    assert Reverse([c] + b) == Reverse(b) + [c];
  }

  /** A quiet column goes behind everything collected so far. */
  lemma QuietStep(c: int, b: seq<int>, acc: seq<int>, q: seq<int>)
    ensures Reverse(b) + (acc + [c]) + q == Reverse(b) + acc + ([c] + q)
  {
  }

  /** The closed form of OrderFrom from PRIORITY[i] on, with `acc` so far. */
  predicate NoWinForm(gm: Game, p: Position, fb: seq<bool>, fq: seq<bool>, i: nat, acc: seq<int>)
    requires WellFormed(p) && i <= |PRIORITY| && |fb| == |fq| == |PRIORITY|
  {
    OrderFrom(gm, p, i, acc) == Reverse(Keep(fb, i)) + acc + Keep(fq, i)
  }

  lemma {:induction false} OrderFromNoWin(gm: Game, p: Position, fb: seq<bool>, fq: seq<bool>, i: nat, acc: seq<int>)
    requires WellFormed(p) && i <= |PRIORITY| && NoWin(gm, p)
    requires fb == Flags(gm, p, true) && fq == Flags(gm, p, false)
    ensures NoWinForm(gm, p, fb, fq, i, acc)
    decreases |PRIORITY| - i
  {
    if i == |PRIORITY| {
      assert Keep(fb, i) == [] && Keep(fq, i) == [];
      Unwrapped(acc);
    } else {
      var c := PRIORITY[i];
      assert !WinsAt(gm, p, c);
      if !Legal(p, c) {
        OrderFromNoWin(gm, p, fb, fq, i + 1, acc);
        SkipStep(gm, p, fb, fq, i, acc);
      } else if gm.oracle.movedWins(Probe(p, c, gm.opponent), c, gm.opponent) {
        OrderFromNoWin(gm, p, fb, fq, i + 1, [c] + acc);
        BlockingStep(gm, p, fb, fq, i, acc);
      } else {
        OrderFromNoWin(gm, p, fb, fq, i + 1, acc + [c]);
        QuietingStep(gm, p, fb, fq, i, acc);
      }
    }
  }

  lemma SkipStep(gm: Game, p: Position, fb: seq<bool>, fq: seq<bool>, i: nat, acc: seq<int>)
    requires WellFormed(p) && i < |PRIORITY| && NoWin(gm, p)
    requires fb == Flags(gm, p, true) && fq == Flags(gm, p, false)
    requires !Legal(p, PRIORITY[i])
    requires NoWinForm(gm, p, fb, fq, i + 1, acc)
    ensures NoWinForm(gm, p, fb, fq, i, acc)
  {
    assert !fb[i] && !fq[i];
    assert Keep(fb, i) == Keep(fb, i + 1) by {
      assert [] + Keep(fb, i + 1) == Keep(fb, i + 1);
    }
    assert Keep(fq, i) == Keep(fq, i + 1) by {
      assert [] + Keep(fq, i + 1) == Keep(fq, i + 1);
    }
  }

  lemma BlockingStep(gm: Game, p: Position, fb: seq<bool>, fq: seq<bool>, i: nat, acc: seq<int>)
    requires WellFormed(p) && i < |PRIORITY| && NoWin(gm, p)
    requires fb == Flags(gm, p, true) && fq == Flags(gm, p, false)
    requires Legal(p, PRIORITY[i]) && gm.oracle.movedWins(Probe(p, PRIORITY[i], gm.opponent), PRIORITY[i], gm.opponent)
    requires NoWinForm(gm, p, fb, fq, i + 1, [PRIORITY[i]] + acc)
    ensures NoWinForm(gm, p, fb, fq, i, acc)
  {
    var c, b, q := PRIORITY[i], Keep(fb, i + 1), Keep(fq, i + 1);
    assert !WinsAt(gm, p, c);
    assert fb[i] && !fq[i];
    assert Keep(fb, i) == [c] + b;
    assert Keep(fq, i) == q by {
      assert [] + q == q;
    }
    BlockStep(c, b, acc, q);
  }

  lemma QuietingStep(gm: Game, p: Position, fb: seq<bool>, fq: seq<bool>, i: nat, acc: seq<int>)
    requires WellFormed(p) && i < |PRIORITY| && NoWin(gm, p)
    requires fb == Flags(gm, p, true) && fq == Flags(gm, p, false)
    requires Legal(p, PRIORITY[i]) && !gm.oracle.movedWins(Probe(p, PRIORITY[i], gm.opponent), PRIORITY[i], gm.opponent)
    requires NoWinForm(gm, p, fb, fq, i + 1, acc + [PRIORITY[i]])
    ensures NoWinForm(gm, p, fb, fq, i, acc)
  {
    var c, b, q := PRIORITY[i], Keep(fb, i + 1), Keep(fq, i + 1);
    assert !WinsAt(gm, p, c);
    assert !fb[i] && fq[i];
    assert Keep(fq, i) == [c] + q;
    assert Keep(fb, i) == b by {
      assert [] + b == b;
    }
    QuietStep(c, b, acc, q);
  }

  lemma {:induction false} OrderFromWin(gm: Game, p: Position, i: nat, acc: seq<int>, j: int)
    requires WellFormed(p) && i <= j && FirstWin(gm, p, j)
    ensures OrderFrom(gm, p, i, acc) == [PRIORITY[j]]
    decreases |PRIORITY| - i
  {
    if i < j {
      var c := PRIORITY[i];
      assert !WinsAt(gm, p, c);
      if !Legal(p, c) {
        OrderFromWin(gm, p, i + 1, acc, j);
      } else if gm.oracle.movedWins(Probe(p, c, gm.opponent), c, gm.opponent) {
        OrderFromWin(gm, p, i + 1, [c] + acc, j);
      } else {
        OrderFromWin(gm, p, i + 1, acc + [c], j);
      }
    }
  }

  /** `_get_order` in closed form: if some column wins at once, the first
      winning column in priority order alone; otherwise the blocking columns,
      in reverse priority order (each `insert(0, …)` goes in front of the
      previous), followed by the quiet columns in priority order. */
  lemma OrderClosedForm(gm: Game, p: Position)
    requires WellFormed(p)
    ensures NoWin(gm, p) ==> OrderOf(gm, p) == Reverse(Blockers(gm, p)) + Quiets(gm, p)
    ensures !NoWin(gm, p) ==> exists i :: FirstWin(gm, p, i) && OrderOf(gm, p) == [PRIORITY[i]]
  {
    PriorityRank();
    if NoWin(gm, p) {
      OrderFromNoWin(gm, p, Flags(gm, p, true), Flags(gm, p, false), 0, []);
    } else {
      var c :| 0 <= c < COLS && WinsAt(gm, p, c);
      var i := FirstWinExists(gm, p, Rank(c));
      OrderFromWin(gm, p, 0, [], i);
    }
  }

  lemma {:induction false} FirstWinExists(gm: Game, p: Position, k: int) returns (i: int)
    requires 0 <= k < |PRIORITY| && WinsAt(gm, p, PRIORITY[k])
    ensures i <= k && FirstWin(gm, p, i)
    decreases k
  {
    if forall j :: 0 <= j < k ==> !WinsAt(gm, p, PRIORITY[j]) {
      i := k;
    } else {
      var j :| 0 <= j < k && WinsAt(gm, p, PRIORITY[j]);
      i := FirstWinExists(gm, p, j);
    }
  }

  /** Indexing the reversal of `b` followed by `q`. */
  lemma ReverseConcatAt(b: seq<int>, q: seq<int>, k: int)
    requires 0 <= k < |b| + |q|
    ensures |Reverse(b) + q| == |b| + |q|
    ensures (Reverse(b) + q)[k] == if k < |b| then b[|b| - 1 - k] else q[k - |b|]
  {
  }

  lemma ReverseMembers(s: seq<int>)
    ensures forall x :: x in Reverse(s) <==> x in s
  {
    forall x | x in s
      ensures x in Reverse(s)
    {
      var k :| 0 <= k < |s| && s[k] == x;
      assert Reverse(s)[|s| - 1 - k] == x;
    }
  }

  /** The blocking-flagged columns in reverse priority order, then the
      quiet-flagged ones in priority order. */
  function Arranged(fb: seq<bool>, fq: seq<bool>): seq<int>
    requires |fb| == |fq| == |PRIORITY|
  {
    Reverse(Keep(fb, 0)) + Keep(fq, 0)
  }

  lemma {:induction false} FlagsMembers(fb: seq<bool>, fq: seq<bool>)
    requires |fb| == |fq| == |PRIORITY|
    ensures forall k :: 0 <= k < |Arranged(fb, fq)| ==>
      0 <= Arranged(fb, fq)[k] < COLS &&
      ((k < |Keep(fb, 0)| && fb[Rank(Arranged(fb, fq)[k])]) || (k >= |Keep(fb, 0)| && fq[Rank(Arranged(fb, fq)[k])]))
  {
    KeepMembers(fb, 0);
    KeepMembers(fq, 0);
    forall k | 0 <= k < |Arranged(fb, fq)|
      ensures 0 <= Arranged(fb, fq)[k] < COLS &&
        ((k < |Keep(fb, 0)| && fb[Rank(Arranged(fb, fq)[k])]) || (k >= |Keep(fb, 0)| && fq[Rank(Arranged(fb, fq)[k])]))
    {
      ReverseConcatAt(Keep(fb, 0), Keep(fq, 0), k);
    }
  }

  lemma {:induction false} FlagsRanked(fb: seq<bool>, fq: seq<bool>)
    requires |fb| == |fq| == |PRIORITY|
    ensures forall k1, k2 :: 0 <= k1 < k2 < |Arranged(fb, fq)| ==>
      (k2 < |Keep(fb, 0)| ==> Rank(Arranged(fb, fq)[k1]) > Rank(Arranged(fb, fq)[k2])) &&
      (|Keep(fb, 0)| <= k1 ==> Rank(Arranged(fb, fq)[k1]) < Rank(Arranged(fb, fq)[k2]))
  {
    KeepSorted(fb, 0);
    KeepSorted(fq, 0);
    forall k1, k2 | 0 <= k1 < k2 < |Arranged(fb, fq)|
      ensures (k2 < |Keep(fb, 0)| ==> Rank(Arranged(fb, fq)[k1]) > Rank(Arranged(fb, fq)[k2])) &&
        (|Keep(fb, 0)| <= k1 ==> Rank(Arranged(fb, fq)[k1]) < Rank(Arranged(fb, fq)[k2]))
    {
      ReverseConcatAt(Keep(fb, 0), Keep(fq, 0), k1);
      ReverseConcatAt(Keep(fb, 0), Keep(fq, 0), k2);
    }
  }

  /** In the absence of a win, the order is the arrangement of the flags. */
  lemma OrderArranged(gm: Game, p: Position)
    requires WellFormed(p) && NoWin(gm, p)
    ensures OrderOf(gm, p) == Arranged(Flags(gm, p, true), Flags(gm, p, false))
    ensures |Blockers(gm, p)| == |Keep(Flags(gm, p, true), 0)|
  {
    OrderClosedForm(gm, p);
  }

  /** Without an immediate win, `_get_order` lists exactly the legal columns
      (each once, by OrderOf's contract). */
  lemma OrderMembers(gm: Game, p: Position)
    requires WellFormed(p) && NoWin(gm, p)
    ensures forall c :: c in OrderOf(gm, p) <==> Legal(p, c)
  {
    OrderArranged(gm, p);
    KeepComplete(Flags(gm, p, true), 0);
    KeepComplete(Flags(gm, p, false), 0);
    ReverseMembers(Keep(Flags(gm, p, true), 0));
    forall c | Legal(p, c)
      ensures c in OrderOf(gm, p)
    {
      RankPriority(c);
      assert !WinsAt(gm, p, c);
    }
  }

  /** The k-th column of the order is blocking exactly when it sits among the
      first |Blockers| entries, and quiet otherwise. */
  lemma OrderKinds(gm: Game, p: Position)
    requires WellFormed(p) && NoWin(gm, p)
    ensures forall k :: 0 <= k < |OrderOf(gm, p)| ==>
      (BlocksAt(gm, p, OrderOf(gm, p)[k]) <==> k < |Blockers(gm, p)|) &&
      (Quiet(gm, p, OrderOf(gm, p)[k]) <==> k >= |Blockers(gm, p)|)
  {
    OrderArranged(gm, p);
    FlagsMembers(Flags(gm, p, true), Flags(gm, p, false));
    forall k | 0 <= k < |OrderOf(gm, p)|
      ensures (BlocksAt(gm, p, OrderOf(gm, p)[k]) <==> k < |Blockers(gm, p)|) &&
        (Quiet(gm, p, OrderOf(gm, p)[k]) <==> k >= |Blockers(gm, p)|)
    {
      RankPriority(OrderOf(gm, p)[k]);
    }
  }

  /** A later column blocks only if every earlier one does. */
  lemma BlockersFirst(gm: Game, p: Position)
    requires WellFormed(p) && NoWin(gm, p)
    ensures forall k1, k2 :: 0 <= k1 < k2 < |OrderOf(gm, p)| && BlocksAt(gm, p, OrderOf(gm, p)[k2]) ==>
      BlocksAt(gm, p, OrderOf(gm, p)[k1])
  {
    OrderKinds(gm, p);
  }

  /** The quiet columns come in priority order. */
  lemma QuietsRanked(gm: Game, p: Position)
    requires WellFormed(p) && NoWin(gm, p)
    ensures forall k1, k2 :: 0 <= k1 < k2 < |OrderOf(gm, p)| && Quiet(gm, p, OrderOf(gm, p)[k1]) ==>
      Rank(OrderOf(gm, p)[k1]) < Rank(OrderOf(gm, p)[k2])
  {
    OrderKinds(gm, p);
    OrderArranged(gm, p);
    FlagsRanked(Flags(gm, p, true), Flags(gm, p, false));
  }

  /** The blocking columns come in reverse priority order. */
  lemma BlockersRanked(gm: Game, p: Position)
    requires WellFormed(p) && NoWin(gm, p)
    ensures forall k1, k2 :: 0 <= k1 < k2 < |OrderOf(gm, p)| && BlocksAt(gm, p, OrderOf(gm, p)[k2]) ==>
      Rank(OrderOf(gm, p)[k1]) > Rank(OrderOf(gm, p)[k2])
  {
    OrderKinds(gm, p);
    OrderArranged(gm, p);
    FlagsRanked(Flags(gm, p, true), Flags(gm, p, false));
  }
}
