/** Search scores. The searches seed their max/min folds and their alpha-beta
    window with float('-inf') and float('inf'); every other score is a small
    integer, so a score is an integer extended with the two infinities. */
module ExtScores {

  datatype Ext = NegInf | Fin(n: int) | PosInf

  /** The total order of the extended integers. */
  predicate Le(a: Ext, b: Ext) {
    match (a, b)
    case (NegInf, _) => true
    case (_, PosInf) => true
    case (Fin(x), Fin(y)) => x <= y
    case _ => false
  }

  predicate Lt(a: Ext, b: Ext) {
    !Le(b, a)
  }

  /** Python's max(a, b): the larger, and `a` on a tie. */
  function Max(a: Ext, b: Ext): (r: Ext)
    ensures Le(a, r) && Le(b, r)
    ensures r == a || r == b
  {
    if Lt(a, b) then b else a
  }

  /** Python's min(a, b): the smaller, and `a` on a tie. */
  function Min(a: Ext, b: Ext): (r: Ext)
    ensures Le(r, a) && Le(r, b)
    ensures r == a || r == b
  {
    if Lt(b, a) then b else a
  }

  lemma LeTrans(a: Ext, b: Ext, c: Ext)
    requires Le(a, b) && Le(b, c)
    ensures Le(a, c)
  {
  }

  lemma LeAntisym(a: Ext, b: Ext)
    requires Le(a, b) && Le(b, a)
    ensures a == b
  {
  }

  /** What a fold over no children returns: `float('-inf')` for the
      maximizer, `float('inf')` for the minimizer. */
  function Seed(maxP: bool): Ext {
    if maxP then NegInf else PosInf
  }

  /** One step of the search loop: `max(max_score, score)` for the
      maximizer, `min(min_score, score)` for the minimizer. */
  function Combine(maxP: bool, acc: Ext, s: Ext): Ext {
    if maxP then Max(acc, s) else Min(acc, s)
  }

  /** The search loop over the scores `vs`, in list order, from the seed. */
  function Best(maxP: bool, vs: seq<Ext>): Ext {
    if vs == [] then Seed(maxP) else Combine(maxP, Best(maxP, vs[..|vs| - 1]), vs[|vs| - 1])
  }

  /** The loop computes the maximum (minimum): it bounds every score, it is
      one of them, and it is the seed when there are none. */
  lemma {:induction false} BestBounds(maxP: bool, vs: seq<Ext>)
    ensures maxP ==> forall i :: 0 <= i < |vs| ==> Le(vs[i], Best(maxP, vs))
    ensures !maxP ==> forall i :: 0 <= i < |vs| ==> Le(Best(maxP, vs), vs[i])
    ensures vs == [] ==> Best(maxP, vs) == Seed(maxP)
    ensures vs != [] ==> Best(maxP, vs) in vs
  {
    if vs != [] {
      var init := vs[..|vs| - 1];
      BestBounds(maxP, init);
      var acc, f := Best(maxP, init), Best(maxP, vs);
      forall i | 0 <= i < |init|
        ensures maxP ==> Le(vs[i], f)
        ensures !maxP ==> Le(f, vs[i])
      {
        assert vs[i] == init[i];
        if maxP {
          LeTrans(vs[i], acc, f);
        } else {
          LeTrans(f, acc, vs[i]);
        }
      }
      if f != vs[|vs| - 1] {
        assert f == acc && init != [];
        assert acc in init;
      }
    }
  }

  /** The loop's result depends only on which scores occur: not on their
      order, nor on repeats. */
  lemma BestOrderFree(maxP: bool, v1: seq<Ext>, v2: seq<Ext>)
    requires forall x :: x in v1 <==> x in v2
    ensures Best(maxP, v1) == Best(maxP, v2)
  {
    BestBounds(maxP, v1);
    BestBounds(maxP, v2);
    var f1, f2 := Best(maxP, v1), Best(maxP, v2);
    if v1 != [] {
      assert v1[0] in v2;
    }
    if v2 != [] {
      assert v2[0] in v1;
    }
    if v1 != [] {
      var i1 :| 0 <= i1 < |v2| && v2[i1] == f1;
      var i2 :| 0 <= i2 < |v1| && v1[i2] == f2;
      LeAntisym(f1, f2);
    }
  }

  lemma BestSnoc(maxP: bool, vs: seq<Ext>, x: Ext)
    ensures Best(maxP, vs + [x]) == Combine(maxP, Best(maxP, vs), x)
  {
    assert (vs + [x])[..|vs|] == vs;
  }

  /** A score as seen through the window [a, b]: below the window it reads
      as `a`, above it as `b`. */
  function Clamp(a: Ext, b: Ext, x: Ext): Ext {
    Max(a, Min(x, b))
  }

  lemma MaxAssoc(a: Ext, b: Ext, c: Ext)
    ensures Max(Max(a, b), c) == Max(a, Max(b, c))
  {
  }

  lemma MinAssoc(a: Ext, b: Ext, c: Ext)
    ensures Min(Min(a, b), c) == Min(a, Min(b, c))
  {
  }

  /** Clamping is monotone, so it commutes with max and min. */
  lemma ClampMax(a: Ext, b: Ext, x: Ext, y: Ext)
    requires Le(a, b)
    ensures Clamp(a, b, Max(x, y)) == Max(Clamp(a, b, x), Clamp(a, b, y))
  {
  }

  lemma ClampMin(a: Ext, b: Ext, x: Ext, y: Ext)
    requires Le(a, b)
    ensures Clamp(a, b, Min(x, y)) == Min(Clamp(a, b, x), Clamp(a, b, y))
  {
  }

  /** Raising the lower bound to a score `acc` below `b` is the same as
      folding `acc` into what is clamped. */
  lemma ClampRaise(a: Ext, b: Ext, acc: Ext, x: Ext)
    requires Lt(Max(a, acc), b)
    ensures Clamp(a, b, Max(acc, x)) == Clamp(Max(a, acc), b, x)
  {
  }

  /** Lowering the upper bound to `acc` is the same as folding `acc` into
      what is clamped. */
  lemma ClampLower(a: Ext, b: Ext, acc: Ext, x: Ext)
    ensures Clamp(a, b, Min(acc, x)) == Clamp(a, Min(b, acc), x)
  {
  }

  /** Within a non-empty window the clamp tells which side a score is on. */
  lemma ClampCases(a: Ext, b: Ext, x: Ext)
    requires Lt(a, b)
    ensures Lt(a, x) && Lt(x, b) ==> Clamp(a, b, x) == x
    ensures Le(x, a) <==> Clamp(a, b, x) == a
    ensures Le(b, x) <==> Clamp(a, b, x) == b
    ensures Clamp(a, b, NegInf) == a && Clamp(NegInf, PosInf, x) == x
  {
  }

  /** Extending the list a fold runs over only moves the maximum up and the
      minimum down. */
  lemma {:induction false} BestPrefix(maxP: bool, vs: seq<Ext>, k: nat)
    requires k <= |vs|
    ensures maxP ==> Le(Best(maxP, vs[..k]), Best(maxP, vs))
    ensures !maxP ==> Le(Best(maxP, vs), Best(maxP, vs[..k]))
    decreases |vs| - k
  {
    if k < |vs| {
      BestPrefix(maxP, vs, k + 1);
      assert vs[..k + 1][..k] == vs[..k];
      var b, c := Best(maxP, vs[..k]), Best(maxP, vs[..k + 1]);
      if maxP {
        LeTrans(b, c, Best(maxP, vs));
      } else {
        LeTrans(Best(maxP, vs), c, b);
      }
    } else {
      assert vs[..k] == vs;
    }
  }
}
