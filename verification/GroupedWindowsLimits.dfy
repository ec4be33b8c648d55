/**
  When transformGroupedWindows gives up, that its own consistency check never does, and
  the one place where it does not keep the meaning: GROUPING in HAVING.
 */
module GroupedWindowsLimits {
  import opened Values
  import opened GroupedWindows
  import opened GroupedWindowsMeaning
  import opened GroupedWindowsRows

  // ----- when a rewrite raises -----

  // The references that an array of so many places has room for.
  predicate Fitting(refs: seq<int>, places: nat) { forall i :: 0 <= i < |refs| ==> 0 <= refs[i] < places }

  predicate Named(tl: seq<Target>, ref: int) { exists i :: 0 <= i < |tl| && tl[i].ref == ref }

  // A column that is not a grouping expression outside of aggregates, or a GROUPING
  // reference that sgr_map has no place for.
  predicate Unresolved(e: Expr, es: seq<Expr>, places: nat)
    decreases e
  {
    match e
    case Agg(_, _) => false
    case SubLink(_) => false
    case Grouping(refs) => !Fitting(refs, places)
    case Var(_, _) => e !in es
    case Const(_) => false
    case Op(_, args) => e !in es && exists i :: 0 <= i < |args| && Unresolved(args[i], es, places)
    case Win(_, args, _) => e !in es && exists i :: 0 <= i < |args| && Unresolved(args[i], es, places)
  }

  predicate AnyUnresolved(xs: seq<Expr>, es: seq<Expr>, places: nat) {
    exists i :: 0 <= i < |xs| && Unresolved(xs[i], es, places)
  }

  // Looked up without force, only grouping expressions are found.
  lemma {:induction false} FoundIff(sub: seq<Target>, es: seq<Expr>, e: Expr)
    requires Lower(sub, es) && !Appended(e)
    ensures IndexOf(Exprs(sub), e) < |sub| <==> e in es
  {
    assert forall k :: 0 <= k < |es| ==> Exprs(sub)[k] == es[k];
  }

  /** Rewriting raises exactly on unresolved expressions, whatever was rewritten before. */
  lemma {:induction false} MutateRaisesIff(e: Expr, sub: seq<Target>, m: seq<nat>, es: seq<Expr>)
    requires Lower(sub, es)
    ensures Mutate(e, sub, m).Raise? <==> Unresolved(e, es, |m|)
    decreases e
  {
    if !Appended(e) { FoundIff(sub, es, e); }
    match e
    case Op(_, args) => MutateAllRaisesIff(args, sub, m, es);
    case Win(_, args, _) => MutateAllRaisesIff(args, sub, m, es);
    case _ =>
  }

  lemma {:induction false} MutateAllRaisesIff(xs: seq<Expr>, sub: seq<Target>, m: seq<nat>, es: seq<Expr>)
    requires Lower(sub, es)
    ensures MutateAll(xs, sub, m).Raise? <==> exists i :: 0 <= i < |xs| && Unresolved(xs[i], es, |m|)
    decreases xs
  {
    if xs != [] {
      var n := |xs| - 1;
      MutateAllRaisesIff(xs[..n], sub, m, es);
      assert forall i :: 0 <= i < n ==> xs[..n][i] == xs[i];
      var front := MutateAll(xs[..n], sub, m);
      if front.Done? {
        MutateAllGrows(xs[..n], sub, m, es);
        MutateRaisesIff(xs[n], front.sub, m, es);
      }
    }
  }

  // ----- SubLinks are moved, not lost -----

  lemma {:induction false} MutateSubLinks(e: Expr, sub: seq<Target>, m: seq<nat>)
    requires Mutate(e, sub, m).Done?
    ensures !HasSubLink(Mutate(e, sub, m).value)
    ensures AnySubLink(Exprs(Mutate(e, sub, m).sub)) <==> AnySubLink(Exprs(sub)) || HasSubLink(e)
    decreases e
  {
    var k, r := IndexOf(Exprs(sub), e), Mutate(e, sub, m).sub;
    if Appended(e) {
      var x := if e.Grouping? then Grouping(MapRefs(e.refs, m)) else e;
      ForcedSubLinks(x, sub);
    } else if k < |sub| {
      assert Exprs(sub)[k] == e;
    } else {
      match e
      case Op(_, args) => MutateAllSubLinks(args, sub, m);
      case Win(_, args, _) => MutateAllSubLinks(args, sub, m);
      case _ =>
    }
  }

  lemma {:induction false} ForcedSubLinks(e: Expr, sub: seq<Target>)
    ensures AnySubLink(Exprs(Forced(e, sub).sub)) <==> AnySubLink(Exprs(sub)) || HasSubLink(e)
  {
    var k, r := IndexOf(Exprs(sub), e), Forced(e, sub).sub;
    if k < |sub| {
      assert Exprs(sub)[k] == e;
    } else {
      assert Exprs(r)[|sub|] == e;
      assert forall i :: 0 <= i < |sub| ==> Exprs(r)[i] == Exprs(sub)[i];
    }
  }

  lemma {:induction false} MutateAllSubLinks(xs: seq<Expr>, sub: seq<Target>, m: seq<nat>)
    requires MutateAll(xs, sub, m).Done?
    ensures forall i :: 0 <= i < |xs| ==> !HasSubLink(MutateAll(xs, sub, m).value[i])
    ensures AnySubLink(Exprs(MutateAll(xs, sub, m).sub)) <==>
      AnySubLink(Exprs(sub)) || exists i :: 0 <= i < |xs| && HasSubLink(xs[i])
    decreases xs
  {
    if xs != [] {
      var n := |xs| - 1;
      MutateAllSubLinks(xs[..n], sub, m);
      assert forall i :: 0 <= i < n ==> xs[..n][i] == xs[i];
      MutateSubLinks(xs[n], MutateAll(xs[..n], sub, m).sub, m);
    }
  }

  lemma {:induction false} GroupTargetSubLinks(q: Query)
    requires RefsFound(q) && AnySubLink(Exprs(GroupTargets(ColumnsOf(q).exprs)))
    ensures AnySubLink(Exprs(q.tlist))
  {
    var c := ColumnsOf(q);
    var k :| 0 <= k < |c.exprs| && HasSubLink(Exprs(GroupTargets(c.exprs))[k]);
    assert c.refs[k] in q.group;
    var i := IndexOf(Refs(q.tlist), c.refs[k]);
    assert Exprs(q.tlist)[i] == c.exprs[k];
  }

  // The subquery's list holds the SubLinks of the target list and the window clauses.
  lemma {:induction false} SubTargetSubLinks(q: Query)
    requires RefsFound(q) && Targets(q).Done? && WindowOffsets(q).Done?
    ensures !AnySubLink(Targets(q).value)
    ensures AnySubLink(Exprs(WindowOffsets(q).sub)) <==> AnySubLink(Exprs(q.tlist)) || AnySubLink(Offsets(q.windows))
  {
    var m, start := SgrMap(ColumnsOf(q).refs), GroupTargets(ColumnsOf(q).exprs);
    MutateAllSubLinks(Exprs(q.tlist), start, m);
    MutateAllSubLinks(Offsets(q.windows), Targets(q).sub, m);
    if AnySubLink(Exprs(start)) { GroupTargetSubLinks(q); }
  }

  // The "inconsistency detected" error cannot occur.
  lemma {:induction false} SubLinksAgree(q: Query)
    requires RefsFound(q) && SetsInRange(q) && Targets(q).Done? && WindowOffsets(q).Done?
    ensures
      var outer, sub := OuterQuery(q, Targets(q).value, WindowOffsets(q).value), SubQuery(q, WindowOffsets(q).sub);
      QuerySubLinks(q) == (AnySubLink(Exprs(outer.tlist)) || QuerySubLinks(sub))
  {
    SubTargetSubLinks(q);
    assert Exprs(WithExprs(q.tlist, Targets(q).value)) == Targets(q).value;
  }

  // A target or a frame offset that cannot be rewritten.
  predicate Stuck(q: Query) {
    var es, places := ColumnsOf(q).exprs, |SgrMap(ColumnsOf(q).refs)|;
    AnyUnresolved(Exprs(q.tlist), es, places) || AnyUnresolved(Offsets(q.windows), es, places)
  }

  predicate Rewritable(q: Query) { Targets(q).Done? && WindowOffsets(q).Done? }

  lemma {:induction false} TargetsDoneIff(q: Query)
    ensures Targets(q).Done? <==> !AnyUnresolved(Exprs(q.tlist), ColumnsOf(q).exprs, |SgrMap(ColumnsOf(q).refs)|)
    ensures Targets(q).Done? ==> Lower(Targets(q).sub, ColumnsOf(q).exprs)
  {
    var es, m := ColumnsOf(q).exprs, SgrMap(ColumnsOf(q).refs);
    MutateAllRaisesIff(Exprs(q.tlist), GroupTargets(es), m, es);
    if Targets(q).Done? { MutateAllGrows(Exprs(q.tlist), GroupTargets(es), m, es); }
  }

  lemma {:induction false} OffsetsDoneIff(q: Query)
    requires Targets(q).Done? && Lower(Targets(q).sub, ColumnsOf(q).exprs)
    ensures WindowOffsets(q).Done? <==> !AnyUnresolved(Offsets(q.windows), ColumnsOf(q).exprs, |SgrMap(ColumnsOf(q).refs)|)
  {
    MutateAllRaisesIff(Offsets(q.windows), Targets(q).sub, SgrMap(ColumnsOf(q).refs), ColumnsOf(q).exprs);
  }

  // Rewriting both lists succeeds unless something is unresolved.
  lemma {:induction false} RewritesIff(q: Query)
    ensures Rewritable(q) <==> !Stuck(q)
  {
    TargetsDoneIff(q);
    if Targets(q).Done? { OffsetsDoneIff(q); }
  }

  // Past the checks of the references only a rewrite can fail.
  lemma {:induction false} RefusedByRewrite(q: Query)
    requires Mixed(q) && RefsFound(q) && SetsInRange(q)
    ensures Transform(q).Refused? <==> !Rewritable(q)
  {
    if Rewritable(q) { SubLinksAgree(q); }
  }

  lemma {:induction false} FoundIsNamed(tl: seq<Target>, ref: int)
    ensures ref in Refs(tl) <==> Named(tl, ref)
  {
    if i :| 0 <= i < |tl| && tl[i].ref == ref { assert Refs(tl)[i] == ref; }
  }

  lemma {:induction false} GroupNamedIff(q: Query)
    ensures RefsFound(q) <==> GroupNamed(q)
  {
    forall k | 0 <= k < |q.group| ensures q.group[k] in Refs(q.tlist) <==> Named(q.tlist, q.group[k]) {
      FoundIsNamed(q.tlist, q.group[k]);
    }
  }

  lemma {:induction false} SetsFitIff(q: Query)
    ensures SetsInRange(q) <==> SetsFit(q, |SgrMap(ColumnsOf(q).refs)|)
  {
    var m := SgrMap(ColumnsOf(q).refs);
    forall k | 0 <= k < |q.sets| ensures InRange(q.sets[k], m) <==> Fitting(q.sets[k], |m|) {}
  }

  lemma {:induction false} RefusedWhenStuck(q: Query)
    requires Mixed(q) && RefsFound(q) && SetsInRange(q)
    ensures Transform(q).Refused? <==> Stuck(q)
  {
    RefusedByRewrite(q);
    RewritesIff(q);
  }

  lemma {:induction false} RefusedForReferences(q: Query)
    requires Mixed(q) && !(RefsFound(q) && SetsInRange(q))
    ensures Transform(q).Refused?
  {
  }

  // Every grouping reference names a target.
  predicate GroupNamed(q: Query) { forall k :: 0 <= k < |q.group| ==> Named(q.tlist, q.group[k]) }

  predicate SetsFit(q: Query, places: nat) { forall k :: 0 <= k < |q.sets| ==> Fitting(q.sets[k], places) }

  /** The transformation of a query that mixes windows and grouping fails if and only if a
      grouping reference names no target, a grouping set has a reference that is negative or
      above all grouping references, or a target or an offset cannot be resolved. */
  lemma {:induction false} RefusedIff(q: Query)
    requires Mixed(q)
    ensures Transform(q).Refused? <==> !GroupNamed(q) || !SetsFit(q, |SgrMap(ColumnsOf(q).refs)|) || Stuck(q)
  {
    GroupNamedIff(q);
    SetsFitIff(q);
    if RefsFound(q) && SetsInRange(q) { RefusedWhenStuck(q); } else { RefusedForReferences(q); }
  }

  // ----- GROUPING in HAVING -----

  const KEY := Var(1, 1)

  // GROUPING is true when its column is in the grouping set; there is one group.
  const ONE_GROUP := Interp(
    (fn: nat, args: Row) => Null,
    (fn: nat, rows: seq<Row>) => Null,
    (id: nat, c: Context) => Null,
    (bits: seq<bool>) => if bits == [false] then Datum(1) else Datum(0),
    (fn: nat, p: Panes, rows: seq<Row>, i: nat) => Null,
    (keys: seq<Row>) => [[0]])

  // SELECT x, win(x) OVER (PARTITION BY x) GROUP BY GROUPING SETS ((x)) HAVING GROUPING(x)
  // ORDER BY 2, with reference 1 for the window function and 2 for x
  predicate BySets(q: Query) {
    && q.tlist == [Target(KEY, 2, false), Target(Win(0, [KEY], 0), 1, false)] && q.group == [2] && q.sets == [[2]]
    && q.having == [Grouping([2])] && q.windows == [Window([2], [], Const(Null), Const(Null))]
  }

  lemma {:induction false} DistinctOne(r: int)
    ensures Distinct([r]) == [r]
  {
    assert DistinctTo([r], 0) == [];
  }

  lemma {:induction false} BySetsColumns(q: Query)
    requires BySets(q)
    ensures ColumnsOf(q) == Columns([2], [KEY], true)
  {
    DistinctOne(2);
    assert Refs(q.tlist)[0] == 2 && IndexOf(Refs(q.tlist), 2) == 0;
    assert RefExprs(q.tlist, [2]) == [KEY];
  }

  lemma {:induction false} BySetsResolved(q: Query, places: nat)
    requires BySets(q)
    ensures !AnyUnresolved(Exprs(q.tlist), [KEY], places) && !AnyUnresolved(Offsets(q.windows), [KEY], places)
    ensures Offsets(q.windows) == [Const(Null), Const(Null)]
  {
    assert q.windows[..0] == [] && Offsets([]) == [];
    var key, win := KEY, Win(0, [KEY], 0);
    assert !Unresolved(key, [KEY], places);
    assert win.args[0] == key && !Unresolved(win, [KEY], places);
    assert Exprs(q.tlist) == [key, win];
  }

  lemma {:induction false} BySetsMixed(q: Query)
    requires BySets(q)
    ensures Mixed(q) && RefsFound(q) && SetsInRange(q) && Wf(q)
  {
    BySetsColumns(q);
    assert HasWin(q.tlist[1].expr) && Refs(q.tlist)[0] == 2 && q.group[0] == 2;
    assert |SgrMap([2])| >= 3 by { assert [2][0] == 2; }
  }

  lemma {:induction false} BySetsSplit(q: Query)
    requires BySets(q)
    ensures Transform(q).Split? && Wf(q)
  {
    BySetsMixed(q);
    BySetsColumns(q);
    BySetsResolved(q, |SgrMap([2])|);
    RewritesIff(q);
    RefusedByRewrite(q);
  }

  lemma {:induction false} OneGroup(es: seq<Expr>, present: seq<bool>, row: Binding)
    requires |es| == |present| && true in present
    ensures GroupsOf(ONE_GROUP, es, present, [row]) == [Group([row], present)]
  {
    assert Pick([row], [0]) == [row];
  }

  lemma {:induction false} OneSet(I: Interp, refs: seq<int>, es: seq<Expr>, sets: seq<seq<int>>, input: seq<Binding>)
    requires |refs| == |es| && |sets| == 1
    ensures GroupsOfSets(I, refs, es, sets, input) == GroupsOf(I, es, Present(refs, sets[0]), input)
  {
    assert sets[1..] == [];
  }

  lemma {:induction false} OneContext(q: Query)
    requires BySets(q)
    ensures Contexts(ONE_GROUP, q, [[[Null]]]) == [Group([[[Null]]], [true])]
  {
    BySetsColumns(q);
    OneSet(ONE_GROUP, [2], [KEY], q.sets, [[[Null]]]);
    var present := Present([2], q.sets[0]);
    assert present == [true] && present[0] in present;
    OneGroup([KEY], present, [[Null]]);
  }

  lemma {:induction false} BitsOfTwo(refs: seq<int>, c: Context)
    requires refs == [1] || refs == [2]
    requires c == Group([[[Null]]], [true])
    ensures GroupingBits(Columns(refs, [KEY], true), [2], c) == [refs == [1]]
  {
    assert IndexOf(refs, 2) == if refs == [1] then 1 else 0;
  }

  // HAVING GROUPING(x) with the reference 2 holds of the group only if 2 is the reference of x.
  lemma {:induction false} KeptByReference(refs: seq<int>)
    requires refs == [1] || refs == [2]
    ensures
      |Kept(ONE_GROUP, Columns(refs, [KEY], true), [Grouping([2])], [Group([[[Null]]], [true])])| == if refs == [2] then 1 else 0
  {
    var cs := [Group([[[Null]]], [true])];
    BitsOfTwo(refs, cs[0]);
    var vs := EvAll(ONE_GROUP, Columns(refs, [KEY], true), [], [Grouping([2])], cs, 0);
    assert vs[0] == if refs == [2] then Datum(1) else Datum(0);
    assert AllPass(vs) <==> Passes(vs[0]);
    assert cs[1..] == [];
  }

  lemma {:induction false} OriginalKeepsGroup(q: Query)
    requires BySets(q)
    ensures |GroupedRows(ONE_GROUP, q, [[[Null]]])| == 1
  {
    BySetsColumns(q);
    OneContext(q);
    KeptByReference([2]);
  }

  lemma {:induction false} RowCount(I: Interp, q: Query, input: seq<Binding>, cols: Columns, cs: seq<Context>)
    requires ColumnsOf(q) == cols && Contexts(I, q, input) == cs
    ensures |GroupedRows(I, q, input)| == |Kept(I, cols, q.having, cs)|
  {
  }

  lemma {:induction false} SubqueryDropsGroup(q: Query, sub: seq<Target>)
    requires BySets(q) && SetsInRange(q) && Lower(sub, ColumnsOf(q).exprs)
    ensures |GroupedRows(ONE_GROUP, SubQuery(q, sub), [[[Null]]])| == 0
  {
    BySetsSubColumns(q, sub);
    OneContext(q);
    SameContexts(ONE_GROUP, q, sub, [[[Null]]]);
    RowCount(ONE_GROUP, SubQuery(q, sub), [[[Null]]], Columns([1], [KEY], true), [Group([[[Null]]], [true])]);
    KeptByReference([1]);
  }

  lemma {:induction false} BySetsSubColumns(q: Query, sub: seq<Target>)
    requires BySets(q) && SetsInRange(q) && Lower(sub, ColumnsOf(q).exprs)
    ensures ColumnsOf(SubQuery(q, sub)) == Columns([1], [KEY], true)
  {
    BySetsColumns(q);
    SubColumns(q, sub);
    assert Numbers(1) == [1];
  }

  /** Such a query keeps its group, and the subquery made of it drops the group. */
  lemma {:induction false} GroupingInHavingIsLost(q: Query)
    requires BySets(q)
    ensures Transform(q).Split? && Wf(q)
    ensures |GroupedRows(ONE_GROUP, q, [[[Null]]])| == 1
    ensures |GroupedRows(ONE_GROUP, Transform(q).sub, [[[Null]]])| == 0
  {
    BySetsSplit(q);
    OriginalKeepsGroup(q);
    Lists(q);
    SubqueryDropsGroup(q, WindowOffsets(q).sub);
  }
}
