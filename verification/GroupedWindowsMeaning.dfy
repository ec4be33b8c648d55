/**
  transformGroupedWindows keeps the rows: the rewritten expressions read from the
  subquery's row what the original ones computed on the group.
 */
module GroupedWindowsMeaning {
  import opened Values
  import opened GroupedWindows

  // ----- the subquery's target list -----

  predicate Appended(e: Expr) { e.Agg? || e.SubLink? || e.Grouping? }

  // The grouping columns, then what was appended for the outer expressions.
  predicate Lower(sub: seq<Target>, es: seq<Expr>) {
    && |es| <= |sub|
    && (forall k :: 0 <= k < |es| ==> sub[k] == Target(es[k], k + 1, false))
    && (forall k :: |es| <= k < |sub| ==> sub[k].ref == 0 && Appended(sub[k].expr))
  }

  // SQL has no GROUPING and no window function at the top of a grouping expression.
  predicate Groupable(es: seq<Expr>) {
    forall k :: 0 <= k < |es| ==> !es[k].Grouping? && !es[k].Win?
  }

  /** The subquery's list only grows, and only at its end. */
  lemma {:induction false} MutateGrows(e: Expr, sub: seq<Target>, m: seq<nat>, es: seq<Expr>)
    requires Lower(sub, es) && Mutate(e, sub, m).Done?
    ensures sub <= Mutate(e, sub, m).sub && Lower(Mutate(e, sub, m).sub, es)
    decreases e
  {
    match e
    case Op(_, args) => if IndexOf(Exprs(sub), e) == |sub| { MutateAllGrows(args, sub, m, es); }
    case Win(_, args, _) => if IndexOf(Exprs(sub), e) == |sub| { MutateAllGrows(args, sub, m, es); }
    case _ =>
  }

  lemma {:induction false} MutateAllGrows(xs: seq<Expr>, sub: seq<Target>, m: seq<nat>, es: seq<Expr>)
    requires Lower(sub, es) && MutateAll(xs, sub, m).Done?
    ensures sub <= MutateAll(xs, sub, m).sub && Lower(MutateAll(xs, sub, m).sub, es)
    decreases xs
  {
    if xs != [] {
      var n := |xs| - 1;
      MutateAllGrows(xs[..n], sub, m, es);
      MutateGrows(xs[n], MutateAll(xs[..n], sub, m).sub, m, es);
    }
  }

  // ----- the values -----

  function Numbers(n: nat): (r: seq<int>)
    ensures |r| == n && forall k :: 0 <= k < n ==> r[k] == k + 1
  {
    seq(n, k => k + 1)
  }

  // A grouped query during its transformation, with the final list of the subquery.
  datatype Scene = Scene(I: Interp, refs: seq<int>, es: seq<Expr>, sets: bool, cs: seq<Context>, sub: seq<Target>)

  predicate Fits(s: Scene) {
    && |s.refs| == |s.es| && Groupable(s.es) && Lower(s.sub, s.es)
    && (forall i, j :: 0 <= i < j < |s.refs| ==> s.refs[i] != s.refs[j])
    && (forall i :: 0 <= i < |s.refs| ==> s.refs[i] > 0)
    && (forall i :: 0 <= i < |s.cs| ==> s.cs[i].Group? && |s.cs[i].present| == |s.es|)
  }

  function Was(s: Scene): Columns { Columns(s.refs, s.es, s.sets) }

  function Now(s: Scene): Columns { Columns(Numbers(|s.es|), s.es, s.sets) }

  function SubRow(s: Scene, i: nat): (r: Row)
    requires i < |s.cs|
    ensures |r| == |s.sub| && forall k :: 0 <= k < |s.sub| ==> r[k] == Ev(s.I, Now(s), [], s.sub[k].expr, s.cs, i)
  {
    EvAll(s.I, Now(s), [], Exprs(s.sub), s.cs, i)
  }

  function Above(s: Scene): (r: seq<Context>)
    ensures |r| == |s.cs| && forall i :: 0 <= i < |r| ==> r[i] == Plain([SubRow(s, i)])
  {
    seq(|s.cs|, i requires 0 <= i < |s.cs| => Plain([SubRow(s, i)]))
  }

  lemma {:induction false} IndexUnique<T>(xs: seq<T>, i: nat)
    requires i < |xs| && forall a, b :: 0 <= a < b < |xs| ==> xs[a] != xs[b]
    ensures IndexOf(xs, xs[i]) == i
  {
  }

  // A reference and its image select the same grouping column, or neither selects one.
  lemma {:induction false} SameColumn(s: Scene, ref: int)
    requires Fits(s) && 0 <= ref < |SgrMap(s.refs)|
    ensures
      var i, j := IndexOf(s.refs, ref), IndexOf(Numbers(|s.es|), SgrMap(s.refs)[ref]);
      (i < |s.refs| <==> j < |s.es|) && (i < |s.refs| ==> i == j)
  {
    if ref in s.refs {
      var i := IndexOf(s.refs, ref);
      IndexUnique(Numbers(|s.es|), i);
    }
  }

  lemma {:induction false} SameBits(s: Scene, refs: seq<int>, i: nat)
    requires Fits(s) && i < |s.cs| && InRange(refs, SgrMap(s.refs))
    ensures GroupingBits(Now(s), MapRefs(refs, SgrMap(s.refs)), s.cs[i]) == GroupingBits(Was(s), refs, s.cs[i])
  {
    forall k | 0 <= k < |refs|
      ensures GroupingBits(Now(s), MapRefs(refs, SgrMap(s.refs)), s.cs[i])[k] == GroupingBits(Was(s), refs, s.cs[i])[k]
    {
      SameColumn(s, refs[k]);
    }
  }

  // A column of the subquery holds what its expression is worth in the original query.
  lemma {:induction false} EntryValue(s: Scene, w: seq<Panes>, k: nat, i: nat)
    requires Fits(s) && i < |s.cs| && k < |s.sub| && !s.sub[k].expr.Grouping?
    ensures Ev(s.I, NO_COLUMNS, w, Var(1, k + 1), Above(s), i) == Ev(s.I, Was(s), w, s.sub[k].expr, s.cs, i)
  {
    assert At(SubRow(s, i), k + 1) == SubRow(s, i)[k];
    if k < |s.es| {
      assert s.sub[k].expr == s.es[k] && s.es[k] in s.es;
    }
  }

  // A looked-up expression: found in the list, it is a grouping column.
  lemma {:induction false} FoundValue(s: Scene, w: seq<Panes>, e: Expr, k: nat, i: nat)
    requires Fits(s) && i < |s.cs| && k < |s.sub| && s.sub[k].expr == e && !e.Grouping?
    ensures Ev(s.I, NO_COLUMNS, w, Var(1, k + 1), Above(s), i) == Ev(s.I, Was(s), w, e, s.cs, i)
  {
    EntryValue(s, w, k, i);
  }

  lemma {:induction false} GroupingValue(s: Scene, w: seq<Panes>, refs: seq<int>, k: nat, i: nat)
    requires Fits(s) && i < |s.cs| && InRange(refs, SgrMap(s.refs))
    requires k < |s.sub| && s.sub[k].expr == Grouping(MapRefs(refs, SgrMap(s.refs)))
    ensures Ev(s.I, NO_COLUMNS, w, Var(1, k + 1), Above(s), i) == Ev(s.I, Was(s), w, Grouping(refs), s.cs, i)
  {
    assert At(SubRow(s, i), k + 1) == SubRow(s, i)[k];
    SameBits(s, refs, i);
    assert forall e :: e in s.es ==> !e.Grouping?;
  }

  // The outer expressions are worth on row i what the original ones are on group i.
  predicate SameValues(s: Scene, w: seq<Panes>, now: seq<Expr>, was: seq<Expr>, i: nat)
    requires i < |s.cs|
  {
    && |now| == |was|
    && forall k :: 0 <= k < |was| ==>
      Ev(s.I, NO_COLUMNS, w, now[k], Above(s), i) == Ev(s.I, Was(s), w, was[k], s.cs, i)
  }

  lemma {:induction false} SameRow(s: Scene, w: seq<Panes>, now: seq<Expr>, was: seq<Expr>, i: nat)
    requires i < |s.cs| && SameValues(s, w, now, was, i)
    ensures EvAll(s.I, NO_COLUMNS, w, now, Above(s), i) == EvAll(s.I, Was(s), w, was, s.cs, i)
  {
  }

  lemma {:induction false} MutateColumn(e: Expr, sub: seq<Target>, m: seq<nat>)
    requires Mutate(e, sub, m).Done? && (Appended(e) || IndexOf(Exprs(sub), e) < |sub|)
    ensures
      var x := if e.Grouping? then Grouping(MapRefs(e.refs, m)) else e;
      var k := IndexOf(Exprs(sub), x);
      Mutate(e, sub, m).value == Var(1, k + 1) && k < |Mutate(e, sub, m).sub| && Mutate(e, sub, m).sub[k].expr == x
  {
  }

  // Expressions that become columns of the subquery.
  lemma {:induction false} ColumnValue(s: Scene, w: seq<Panes>, e: Expr, sub: seq<Target>, i: nat)
    requires Fits(s) && i < |s.cs| && Lower(sub, s.es) && Mutate(e, sub, SgrMap(s.refs)).Done?
    requires Mutate(e, sub, SgrMap(s.refs)).sub <= s.sub && (Appended(e) || IndexOf(Exprs(sub), e) < |sub|)
    ensures Ev(s.I, NO_COLUMNS, w, Mutate(e, sub, SgrMap(s.refs)).value, Above(s), i) == Ev(s.I, Was(s), w, e, s.cs, i)
  {
    var m := SgrMap(s.refs);
    MutateColumn(e, sub, m);
    var k := Mutate(e, sub, m).value.attno - 1;
    assert s.sub[k] == Mutate(e, sub, m).sub[k];
    if e.Grouping? { GroupingValue(s, w, e.refs, k, i); } else { FoundValue(s, w, e, k, i); }
  }

  lemma {:induction false} NotAColumn(s: Scene, e: Expr, sub: seq<Target>)
    requires Lower(sub, s.es) && IndexOf(Exprs(sub), e) == |sub|
    ensures e !in s.es
  {
    assert forall j :: 0 <= j < |s.es| ==> Exprs(sub)[j] == s.es[j];
  }

  /** A rewritten expression on the subquery's rows is worth what the original is on the groups. */
  lemma {:induction false} MutateValue(s: Scene, w: seq<Panes>, e: Expr, sub: seq<Target>, i: nat)
    requires Fits(s) && i < |s.cs| && Lower(sub, s.es) && Mutate(e, sub, SgrMap(s.refs)).Done?
    requires Mutate(e, sub, SgrMap(s.refs)).sub <= s.sub
    ensures Ev(s.I, NO_COLUMNS, w, Mutate(e, sub, SgrMap(s.refs)).value, Above(s), i) == Ev(s.I, Was(s), w, e, s.cs, i)
    decreases e
  {
    var m := SgrMap(s.refs);
    if Appended(e) || IndexOf(Exprs(sub), e) < |sub| {
      ColumnValue(s, w, e, sub, i);
    } else {
      NotAColumn(s, e, sub);
      match e
      case Const(_) =>
      case Op(_, args) =>
        MutateAllValue(s, w, args, sub, i);
        SameRow(s, w, MutateAll(args, sub, m).value, args, i);
      case Win(fn, args, n) =>
        forall j | 0 <= j < |s.cs|
          ensures EvAll(s.I, NO_COLUMNS, w, MutateAll(args, sub, m).value, Above(s), j) == EvAll(s.I, Was(s), w, args, s.cs, j)
        {
          MutateAllValue(s, w, args, sub, j);
          SameRow(s, w, MutateAll(args, sub, m).value, args, j);
        }
        WinValue(s, w, fn, MutateAll(args, sub, m).value, args, n, i);
    }
  }

  lemma {:induction false} WinValue(s: Scene, w: seq<Panes>, fn: nat, new_: seq<Expr>, args: seq<Expr>, n: nat, i: nat)
    requires Fits(s) && i < |s.cs| && Win(fn, args, n) !in s.es
    requires forall j :: 0 <= j < |s.cs| ==>
      EvAll(s.I, NO_COLUMNS, w, new_, Above(s), j) == EvAll(s.I, Was(s), w, args, s.cs, j)
    ensures Ev(s.I, NO_COLUMNS, w, Win(fn, new_, n), Above(s), i) == Ev(s.I, Was(s), w, Win(fn, args, n), s.cs, i)
  {
    assert EvRows(s.I, NO_COLUMNS, w, new_, Above(s)) == EvRows(s.I, Was(s), w, args, s.cs);
  }

  lemma {:induction false} MutateAllValue(s: Scene, w: seq<Panes>, xs: seq<Expr>, sub: seq<Target>, i: nat)
    requires Fits(s) && i < |s.cs| && Lower(sub, s.es) && MutateAll(xs, sub, SgrMap(s.refs)).Done?
    requires MutateAll(xs, sub, SgrMap(s.refs)).sub <= s.sub
    ensures SameValues(s, w, MutateAll(xs, sub, SgrMap(s.refs)).value, xs, i)
    decreases xs
  {
    var m := SgrMap(s.refs);
    if xs != [] {
      var n := |xs| - 1;
      var front := MutateAll(xs[..n], sub, m);
      MutateAllGrows(xs[..n], sub, m, s.es);
      MutateGrows(xs[n], front.sub, m, s.es);
      MutateAllValue(s, w, xs[..n], sub, i);
      MutateValue(s, w, xs[n], front.sub, i);
    }
  }
}
