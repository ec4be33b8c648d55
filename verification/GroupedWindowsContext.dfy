/**
  grouped_window_ctx as the source keeps it: a subquery target list that grows, and a
  map from old to new sort-group references. Each method is tied to the function of
  GroupedWindows that it computes.
 */
module GroupedWindowsContext {
  import opened GroupedWindows

  // get_sortgroupclause_tle
  function Tle(tl: seq<Target>, ref: int): Target
    requires ref in Refs(tl)
  {
    tl[IndexOf(Refs(tl), ref)]
  }

  function Tles(tl: seq<Target>, refs: seq<int>): (r: seq<Target>)
    requires forall k :: 0 <= k < |refs| ==> refs[k] in Refs(tl)
    ensures |r| == |refs| && forall k :: 0 <= k < |refs| ==> r[k] == Tle(tl, refs[k])
  {
    seq(|refs|, k requires 0 <= k < |refs| => Tle(tl, refs[k]))
  }

  // A target is in the list exactly when its reference was seen.
  lemma {:induction false} TleSeen(tl: seq<Target>, refs: seq<int>, ref: int)
    requires ref in Refs(tl) && forall k :: 0 <= k < |refs| ==> refs[k] in Refs(tl)
    ensures Tle(tl, ref) in Tles(tl, refs) <==> ref in refs
  {
    if ref in refs {
      var k :| 0 <= k < |refs| && refs[k] == ref;
      assert Tles(tl, refs)[k] == Tle(tl, ref);
    }
    if Tle(tl, ref) in Tles(tl, refs) {
      var k :| 0 <= k < |refs| && Tles(tl, refs)[k] == Tle(tl, ref);
      TleRef(tl, refs[k]);
      TleRef(tl, ref);
    }
  }

  lemma {:induction false} TleRef(tl: seq<Target>, ref: int)
    requires ref in Refs(tl)
    ensures Tle(tl, ref).ref == ref && Tle(tl, ref).expr == RefExpr(tl, ref)
  {
  }

  lemma {:induction false} TlesParts(tl: seq<Target>, refs: seq<int>)
    requires forall k :: 0 <= k < |refs| ==> refs[k] in Refs(tl)
    ensures Refs(Tles(tl, refs)) == refs && Exprs(Tles(tl, refs)) == RefExprs(tl, refs)
  {
    forall k | 0 <= k < |refs| ensures Tle(tl, refs[k]).ref == refs[k] && Tle(tl, refs[k]).expr == RefExpr(tl, refs[k]) {
      TleRef(tl, refs[k]);
    }
  }

  predicate AllFound(tl: seq<Target>, refs: seq<int>) { forall k :: 0 <= k < |refs| ==> refs[k] in Refs(tl) }

  // The list after one more clause.
  lemma {:induction false} TlesNext(tl: seq<Target>, seen: seq<int>, ref: int)
    requires AllFound(tl, seen) && ref in Refs(tl)
    ensures AllFound(tl, AddNew(seen, ref))
    ensures Tles(tl, AddNew(seen, ref)) ==
      if Tle(tl, ref) in Tles(tl, seen) then Tles(tl, seen) else Tles(tl, seen) + [Tle(tl, ref)]
  {
    TleSeen(tl, seen, ref);
  }

  // get_sortgroupclauses_tles: the targets that the clauses name, each once.
  method SortGroupTles(group: seq<nat>, tl: seq<Target>) returns (found: bool, tles: seq<Target>)
    ensures found <==> forall k :: 0 <= k < |group| ==> group[k] in Refs(tl)
    ensures found ==> Refs(tles) == Distinct(group) && Exprs(tles) == RefExprs(tl, Distinct(group))
  {
    tles := [];
    ghost var seen: seq<int> := [];
    for i := 0 to |group|
      invariant forall k :: 0 <= k < i ==> group[k] in Refs(tl)
      invariant seen == DistinctTo(group, i) && AllFound(tl, seen) && tles == Tles(tl, seen)
    {
      if group[i] !in Refs(tl) { return false, tles; }
      var tle := Tle(tl, group[i]);
      TlesNext(tl, seen, group[i]);
      seen := AddNew(seen, group[i]);
      if tle !in tles {
        tles := tles + [tle];
      }
    }
    TlesParts(tl, seen);
    found := true;
  }

  lemma {:induction false} NatRefs(group: seq<nat>, tles: seq<Target>)
    requires Refs(tles) == Distinct(group)
    ensures NoRepeats(Refs(tles)) && forall k :: 0 <= k < |tles| ==> tles[k].ref >= 0
  {
    DistinctNoRepeats(group, |group|);
    forall k | 0 <= k < |tles| ensures tles[k].ref >= 0 {
      assert Refs(tles)[k] in group;
    }
  }

  // maxSortGroupRef
  method MaxSortGroupRef(tl: seq<Target>) returns (max: int)
    ensures max == MaxRef(Refs(tl)) && (max == 0 || max in Refs(tl)) && forall k :: 0 <= k < |tl| ==> tl[k].ref <= max
  {
    max := 0;
    for i := 0 to |tl|
      invariant max == MaxRef(Refs(tl)[..i]) && (max == 0 || max in Refs(tl))
    {
      assert Refs(tl)[..i + 1][..i] == Refs(tl)[..i];
      if tl[i].ref > max {
        max := tl[i].ref;
        assert Refs(tl)[i] == max;
      }
    }
    assert Refs(tl)[..|tl|] == Refs(tl);
    assert forall k :: 0 <= k < |tl| ==> Refs(tl)[k] == tl[k].ref;
  }

  // The entry of sgr_map for r after the first k grouping columns.
  function Position(refs: seq<int>, k: nat, r: int): nat
    requires k <= |refs|
  {
    if k == 0 then 0 else if refs[k - 1] == r then k else Position(refs, k - 1, r)
  }

  function Filled(refs: seq<int>, k: nat): (m: seq<nat>)
    requires k <= |refs|
    ensures |m| == MaxRef(refs) + 1 && forall r :: 0 <= r < |m| ==> m[r] == Position(refs, k, r)
  {
    seq(MaxRef(refs) + 1, r requires 0 <= r < MaxRef(refs) + 1 => Position(refs, k, r))
  }

  lemma {:induction false} FillStep(refs: seq<int>, k: nat)
    requires k < |refs| && refs[k] >= 0
    ensures refs[k] <= MaxRef(refs) && Filled(refs, k + 1) == Filled(refs, k)[refs[k] := k + 1]
  {
  }

  lemma {:induction false} PositionFound(refs: seq<int>, k: nat, j: nat)
    requires NoRepeats(refs) && j < k <= |refs|
    ensures Position(refs, k, refs[j]) == j + 1
    decreases k
  {
    if j < k - 1 { PositionFound(refs, k - 1, j); }
  }

  lemma {:induction false} PositionMissing(refs: seq<int>, k: nat, r: int)
    requires k <= |refs| && r !in refs
    ensures Position(refs, k, r) == 0
    decreases k
  {
    if k > 0 { PositionMissing(refs, k - 1, r); }
  }

  lemma {:induction false} FilledAll(refs: seq<int>)
    requires NoRepeats(refs)
    ensures Filled(refs, |refs|) == SgrMap(refs)
  {
    var m := Filled(refs, |refs|);
    forall r | 0 <= r < |m| ensures m[r] == SgrMap(refs)[r] {
      if r in refs { PositionFound(refs, |refs|, IndexOf(refs, r)); } else { PositionMissing(refs, |refs|, r); }
    }
  }

  class GroupedWindowContext {
    var subtlist: seq<Target>
    var sgrMap: array<nat>
    var subgroup: seq<nat>
    var subsets: seq<seq<nat>>

    constructor ()
      ensures subtlist == [] && fresh(sgrMap)
    {
      subtlist, subgroup, subsets := [], [], [];
      sgrMap := new nat[0];
    }

    // The loop over the grouping targets: subtlist and sgr_map are filled together.
    method Prime(tles: seq<Target>)
      requires NoRepeats(Refs(tles)) && forall k :: 0 <= k < |tles| ==> tles[k].ref >= 0
      modifies this
      ensures fresh(sgrMap) && sgrMap[..] == SgrMap(Refs(tles)) && subtlist == GroupTargets(Exprs(tles))
    {
      ghost var refs, all := Refs(tles), GroupTargets(Exprs(tles));
      var max := MaxSortGroupRef(tles);
      subtlist := [];
      var positions := new nat[max + 1](_ => 0);
      assert positions[..] == Filled(refs, 0);
      for k := 0 to |tles|
        invariant positions[..] == Filled(refs, k)
        invariant subtlist == all[..k]
      {
        FillStep(refs, k);
        subtlist := subtlist + [Target(tles[k].expr, |subtlist| + 1, false)];
        positions[tles[k].ref] := |subtlist|;
      }
      sgrMap := positions;
      FilledAll(refs);
      assert all[..|tles|] == all;
    }

    // map_sgr_mutator on the grouping sets
    method MapSetLists(sets: seq<seq<int>>) returns (ok: bool, mapped: seq<seq<nat>>)
      ensures ok <==> forall k :: 0 <= k < |sets| ==> InRange(sets[k], sgrMap[..])
      ensures ok ==> mapped == MapSets(sets, sgrMap[..])
    {
      mapped := [];
      for k := 0 to |sets|
        invariant |mapped| == k
        invariant forall j :: 0 <= j < k ==> InRange(sets[j], sgrMap[..]) && mapped[j] == MapRefs(sets[j], sgrMap[..])
      {
        var inRange, set_ := MapRefList(sets[k]);
        if !inRange { return false, mapped; }
        mapped := mapped + [set_];
      }
      ok := true;
    }

    // The grouping targets of the query, then the loop over them.
    method PrimeFor(q: Query) returns (ok: bool)
      modifies this
      ensures ok <==> RefsFound(q)
      ensures ok ==> fresh(sgrMap) && sgrMap[..] == SgrMap(ColumnsOf(q).refs) && subtlist == GroupTargets(ColumnsOf(q).exprs)
    {
      var tles;
      ok, tles := SortGroupTles(q.group, q.tlist);
      if ok {
        NatRefs(q.group, tles);
        Prime(tles);
      }
    }

    // init_grouped_window_context
    method Init(q: Query) returns (ok: bool)
      modifies this
      ensures ok <==> RefsFound(q) && SetsInRange(q)
      ensures ok ==> fresh(sgrMap) && sgrMap[..] == SgrMap(ColumnsOf(q).refs)
      ensures ok ==> subtlist == GroupTargets(ColumnsOf(q).exprs)
      ensures ok ==> InRange(q.group, sgrMap[..]) && subgroup == MapRefs(q.group, sgrMap[..])
      ensures ok ==> subsets == MapSets(q.sets, sgrMap[..])
    {
      ok := PrimeFor(q);
      if ok {
        GroupInRange(q);
        ok, subgroup := MapRefList(q.group);
        ok, subsets := MapSetLists(q.sets);
      }
    }

    // map_sgr_mutator on a list of references
    method MapRefList(refs: seq<int>) returns (ok: bool, mapped: seq<nat>)
      ensures ok <==> InRange(refs, sgrMap[..])
      ensures ok ==> mapped == MapRefs(refs, sgrMap[..])
    {
      mapped := [];
      for i := 0 to |refs|
        invariant |mapped| == i
        invariant forall k :: 0 <= k < i ==> 0 <= refs[k] < sgrMap.Length && mapped[k] == sgrMap[refs[k]]
      {
        if refs[i] < 0 || refs[i] >= sgrMap.Length { return false, mapped; }
        mapped := mapped + [sgrMap[refs[i]]];
      }
      ok := true;
    }

    // var_for_grouped_window_expr
    method VarFor(e: Expr, force: bool) returns (found: bool, v: Expr)
      modifies this`subtlist
      ensures found <==> force || IndexOf(Exprs(old(subtlist)), e) < |old(subtlist)|
      ensures found && force ==> Forced(e, old(subtlist)) == Done(v, subtlist)
      ensures found && !force ==> v == Var(1, IndexOf(Exprs(old(subtlist)), e) + 1)
      ensures !force ==> subtlist == old(subtlist)
    {
      var k := 0;
      while k < |subtlist| && subtlist[k].expr != e
        invariant 0 <= k <= |subtlist| && forall j :: 0 <= j < k ==> subtlist[j].expr != e
      {
        k := k + 1;
      }
      assert k == IndexOf(Exprs(subtlist), e) by {
        var i := IndexOf(Exprs(subtlist), e);
        assert i < |subtlist| ==> Exprs(subtlist)[i] == subtlist[i].expr;
        assert k < |subtlist| ==> Exprs(subtlist)[k] == subtlist[k].expr;
      }
      if k == |subtlist| && force {
        subtlist := subtlist + [Target(e, 0, false)];
      }
      found, v := k < |subtlist|, Var(1, k + 1);
    }

    // grouped_window_mutator on an expression
    method MutateExpr(e: Expr) returns (ok: bool, r: Expr)
      modifies this`subtlist
      ensures ok <==> Mutate(e, old(subtlist), sgrMap[..]).Done?
      ensures ok ==> Mutate(e, old(subtlist), sgrMap[..]) == Done(r, subtlist)
      decreases e
    {
      ok, r := true, e;
      match e
      case Agg(_, _) =>
        ok, r := VarFor(e, true);
      case SubLink(_) =>
        ok, r := VarFor(e, true);
      case Grouping(refs) =>
        var mapped;
        ok, mapped := MapRefList(refs);
        if ok { ok, r := VarFor(Grouping(mapped), true); }
      case Var(_, _) =>
        ok, r := VarFor(e, false);
      case Const(_) =>
        var found, v := VarFor(e, false);
        if found { r := v; }
      case Op(fn, args) =>
        var found, v := VarFor(e, false);
        if found { return true, v; }
        var rs;
        ok, rs := MutateList(args);
        r := Op(fn, rs);
      case Win(fn, args, n) =>
        var found, v := VarFor(e, false);
        if found { return true, v; }
        var rs;
        ok, rs := MutateList(args);
        r := Win(fn, rs, n);
    }

    // The context is primed, then the lists are rewritten; `sub` is the subquery.
    method Rewrite(q: Query) returns (ok: bool, targets: seq<Expr>, offsets: seq<Expr>, sub: Query)
      modifies this
      ensures ok <==> RefsFound(q) && SetsInRange(q) && Targets(q).Done? && WindowOffsets(q).Done?
      ensures ok ==> targets == Targets(q).value && offsets == WindowOffsets(q).value
      ensures ok ==> sub == SubQuery(q, WindowOffsets(q).sub)
    {
      targets, offsets, sub := [], [], q;
      ok := Init(q);
      if ok {
        ok, targets, offsets := MutateQuery(q);
        if ok { sub := Query(subtlist, subgroup, subsets, q.having, [], q.fromSubLinks); }
      }
    }

    // The target list and the window clauses, in this order.
    method MutateQuery(q: Query) returns (ok: bool, targets: seq<Expr>, offsets: seq<Expr>)
      requires sgrMap[..] == SgrMap(ColumnsOf(q).refs) && subtlist == GroupTargets(ColumnsOf(q).exprs)
      modifies this`subtlist
      ensures ok <==> Targets(q).Done? && WindowOffsets(q).Done?
      ensures ok ==> Targets(q).value == targets && WindowOffsets(q) == Done(offsets, subtlist)
    {
      ok, targets := MutateList(Exprs(q.tlist));
      offsets := [];
      if ok { ok, offsets := MutateList(Offsets(q.windows)); }
    }

    method MutateList(es: seq<Expr>) returns (ok: bool, rs: seq<Expr>)
      modifies this`subtlist
      ensures ok <==> MutateAll(es, old(subtlist), sgrMap[..]).Done?
      ensures ok ==> MutateAll(es, old(subtlist), sgrMap[..]) == Done(rs, subtlist)
      decreases es
    {
      rs := [];
      for i := 0 to |es|
        invariant MutateAll(es[..i], old(subtlist), sgrMap[..]) == Done(rs, subtlist)
      {
        assert es[..i + 1][..i] == es[..i];
        var r;
        ok, r := MutateExpr(es[i]);
        if !ok {
          RaiseStays(es, i + 1, old(subtlist), sgrMap[..]);
          return;
        }
        rs := rs + [r];
      }
      assert es[..|es|] == es;
      ok := true;
    }
  }

  lemma {:induction false} RaiseStays(es: seq<Expr>, i: nat, sub: seq<Target>, m: seq<nat>)
    requires i <= |es| && MutateAll(es[..i], sub, m).Raise?
    ensures MutateAll(es, sub, m).Raise?
    decreases |es|
  {
    if i < |es| {
      var n := |es| - 1;
      assert es[..n][..i] == es[..i];
      RaiseStays(es[..n], i, sub, m);
    } else {
      assert es[..i] == es;
    }
  }

  // Both queries and the final comparison of their SubLinks with those of the original.
  method Assemble(q: Query, targets: seq<Expr>, offsets: seq<Expr>, sub: Query) returns (r: Split)
    requires Mixed(q) && RefsFound(q) && SetsInRange(q) && Targets(q).Done? && WindowOffsets(q).Done?
    requires targets == Targets(q).value && offsets == WindowOffsets(q).value && sub == SubQuery(q, WindowOffsets(q).sub)
    ensures r == Transform(q)
  {
    var outer := OuterQuery(q, targets, offsets);
    if QuerySubLinks(q) != (AnySubLink(Exprs(outer.tlist)) || QuerySubLinks(sub)) { return Refused; }
    r := Split(outer, sub);
  }

  /** transformGroupedWindows: the context is primed, then the lists are rewritten in turn. */
  method TransformInPlace(q: Query) returns (r: Split)
    ensures r == Transform(q)
  {
    if !Mixed(q) { return Unchanged; }
    var ctx := new GroupedWindowContext();
    var ok, targets, offsets, sub := ctx.Rewrite(q);
    if !ok { return Refused; }
    r := Assemble(q, targets, offsets, sub);
  }
}
