/**
  When NormalizeGroupByProjList (gpopt/translate/CQueryMutators.cpp) leaves a query alone,
  when it splits it and when it raises.
 */
module GroupByCases {
  import opened QueryTree
  import opened GroupBySplit
  import opened GroupByMeaning
  import opened GroupByNormalize

  // ----- what cannot be rewritten: a column of the counted level that is no grouping column -----

  predicate RaisesExpr(e: Expr, d: nat, base: seq<TargetEntry>)
    decreases e
  {
    if e.Agg? && e.level == d then false
    else if d == 0 && !e.Const? && Find(base, e) < |base| then false
    else
      match e
      case Const(_) => false
      case Var(_, _, l, _) => l == d && Find(base, AtLevel(e, 0)) == |base|
      case Op(_, args) => RaisesAll(args, d, base)
      case Agg(_, args, _) => RaisesAll(args, d, base)
      case SubLink(_, test, sub) => RaisesAll(test, d, base) || RaisesQuery(sub, d + 1, d + 2, base)
  }

  predicate RaisesAll(es: seq<Expr>, d: nat, base: seq<TargetEntry>)
    decreases es
  {
    exists i :: 0 <= i < |es| && RaisesExpr(es[i], d, base)
  }

  predicate RaisesTarget(te: TargetEntry, d: nat, base: seq<TargetEntry>)
    decreases te
  {
    RaisesExpr(te.expr, d, base)
  }

  predicate RaisesTargets(tl: seq<TargetEntry>, d: nat, base: seq<TargetEntry>)
    decreases tl
  {
    exists i :: 0 <= i < |tl| && RaisesTarget(tl[i], d, base)
  }

  predicate RaisesRte(r: Rte, rt: nat, base: seq<TargetEntry>)
    decreases r
  {
    r.Derived? && RaisesQuery(r.sub, rt, rt + 1, base)
  }

  predicate RaisesRtes(rs: seq<Rte>, rt: nat, base: seq<TargetEntry>)
    decreases rs
  {
    exists i :: 0 <= i < |rs| && RaisesRte(rs[i], rt, base)
  }

  predicate RaisesCte(c: Cte, d: nat, base: seq<TargetEntry>)
    decreases c
  {
    RaisesQuery(c.body, d + 1, d + 1, base)
  }

  predicate RaisesCtes(cs: seq<Cte>, d: nat, base: seq<TargetEntry>)
    decreases cs
  {
    exists i :: 0 <= i < |cs| && RaisesCte(cs[i], d, base)
  }

  predicate RaisesQuery(q: Query, d: nat, rt: nat, base: seq<TargetEntry>)
    decreases q
  {
    || RaisesTargets(q.tlist, d, base) || RaisesAll(q.quals, d, base) || RaisesAll(q.having, d, base)
    || RaisesCtes(q.ctes, d, base) || RaisesRtes(q.rtable, rt, base)
  }

  /** Rewriting an expression raises if and only if it has such a column. */
  lemma {:induction false} RaisedExpr(e: Expr, d: nat, base: seq<TargetEntry>, lower: seq<TargetEntry>)
    requires OnlyAggs(base, lower)
    ensures MapExpr(e, d, Above, lower).Raise? <==> RaisesExpr(e, d, base)
    decreases e
  {
    if !(e.Agg? && e.level == d) {
      if d == 0 { FindAmong(base, lower, e); }
      if !(d == 0 && !e.Const? && Find(lower, e) < |lower|) {
        match e
        case Const(_) =>
        case Var(_, _, _, _) => FindAmong(base, lower, AtLevel(e, 0));
        case Op(_, args) => RaisedAll(args, d, base, lower);
        case Agg(_, args, _) => RaisedAll(args, d, base, lower);
        case SubLink(_, test, sub) =>
          RaisedAll(test, d, base, lower);
          var first := MapAll(test, d, Above, lower);
          if first.Ok? {
            AppendsAll(test, d, Above, lower);
            OnlyAggsTwice(base, lower, first.lower);
            RaisedQuery(sub, d + 1, d + 2, base, first.lower);
          }
      }
    }
  }

  lemma {:induction false} RaisedAll(es: seq<Expr>, d: nat, base: seq<TargetEntry>, lower: seq<TargetEntry>)
    requires OnlyAggs(base, lower)
    ensures MapAll(es, d, Above, lower).Raise? <==> RaisesAll(es, d, base)
    decreases es
  {
    if es != [] {
      RaisedExpr(es[0], d, base, lower);
      var first := MapExpr(es[0], d, Above, lower);
      assert forall i :: 0 < i < |es| ==> es[i] == es[1..][i - 1];
      assert RaisesAll(es[1..], d, base) ==> RaisesAll(es, d, base) by {
        if i :| 0 <= i < |es[1..]| && RaisesExpr(es[1..][i], d, base) { assert es[i + 1] == es[1..][i]; }
      }
      if first.Ok? {
        AppendsExpr(es[0], d, Above, lower);
        OnlyAggsTwice(base, lower, first.lower);
        RaisedAll(es[1..], d, base, first.lower);
      }
    }
  }

  lemma {:induction false} RaisedTarget(te: TargetEntry, d: nat, base: seq<TargetEntry>, lower: seq<TargetEntry>)
    requires OnlyAggs(base, lower)
    ensures MapTarget(te, d, Above, lower).Raise? <==> RaisesTarget(te, d, base)
    decreases te
  {
    RaisedExpr(te.expr, d, base, lower);
  }

  lemma {:induction false} RaisedTargets(tl: seq<TargetEntry>, d: nat, base: seq<TargetEntry>, lower: seq<TargetEntry>)
    requires OnlyAggs(base, lower)
    ensures MapTargets(tl, d, Above, lower).Raise? <==> RaisesTargets(tl, d, base)
    decreases tl
  {
    if tl != [] {
      RaisedTarget(tl[0], d, base, lower);
      var first := MapTarget(tl[0], d, Above, lower);
      assert forall i :: 0 < i < |tl| ==> tl[i] == tl[1..][i - 1];
      assert RaisesTargets(tl[1..], d, base) ==> RaisesTargets(tl, d, base) by {
        if i :| 0 <= i < |tl[1..]| && RaisesTarget(tl[1..][i], d, base) { assert tl[i + 1] == tl[1..][i]; }
      }
      if first.Ok? {
        AppendsTarget(tl[0], d, Above, lower);
        OnlyAggsTwice(base, lower, first.lower);
        RaisedTargets(tl[1..], d, base, first.lower);
      }
    }
  }

  lemma {:induction false} RaisedRte(r: Rte, rt: nat, base: seq<TargetEntry>, lower: seq<TargetEntry>)
    requires OnlyAggs(base, lower)
    ensures MapRte(r, rt, Above, lower).Raise? <==> RaisesRte(r, rt, base)
    decreases r
  {
    if r.Derived? { RaisedQuery(r.sub, rt, rt + 1, base, lower); }
  }

  lemma {:induction false} RaisedRtes(rs: seq<Rte>, rt: nat, base: seq<TargetEntry>, lower: seq<TargetEntry>)
    requires OnlyAggs(base, lower)
    ensures MapRtes(rs, rt, Above, lower).Raise? <==> RaisesRtes(rs, rt, base)
    decreases rs
  {
    if rs != [] {
      RaisedRte(rs[0], rt, base, lower);
      var first := MapRte(rs[0], rt, Above, lower);
      assert forall i :: 0 < i < |rs| ==> rs[i] == rs[1..][i - 1];
      assert RaisesRtes(rs[1..], rt, base) ==> RaisesRtes(rs, rt, base) by {
        if i :| 0 <= i < |rs[1..]| && RaisesRte(rs[1..][i], rt, base) { assert rs[i + 1] == rs[1..][i]; }
      }
      if first.Ok? {
        AppendsRte(rs[0], rt, Above, lower);
        OnlyAggsTwice(base, lower, first.lower);
        RaisedRtes(rs[1..], rt, base, first.lower);
      }
    }
  }

  lemma {:induction false} RaisedCte(c: Cte, d: nat, base: seq<TargetEntry>, lower: seq<TargetEntry>)
    requires OnlyAggs(base, lower)
    ensures MapCte(c, d, Above, lower).Raise? <==> RaisesCte(c, d, base)
    decreases c
  {
    RaisedQuery(c.body, d + 1, d + 1, base, lower);
  }

  lemma {:induction false} RaisedCtes(cs: seq<Cte>, d: nat, base: seq<TargetEntry>, lower: seq<TargetEntry>)
    requires OnlyAggs(base, lower)
    ensures MapCtes(cs, d, Above, lower).Raise? <==> RaisesCtes(cs, d, base)
    decreases cs
  {
    if cs != [] {
      RaisedCte(cs[0], d, base, lower);
      var first := MapCte(cs[0], d, Above, lower);
      assert forall i :: 0 < i < |cs| ==> cs[i] == cs[1..][i - 1];
      assert RaisesCtes(cs[1..], d, base) ==> RaisesCtes(cs, d, base) by {
        if i :| 0 <= i < |cs[1..]| && RaisesCte(cs[1..][i], d, base) { assert cs[i + 1] == cs[1..][i]; }
      }
      if first.Ok? {
        AppendsCte(cs[0], d, Above, lower);
        OnlyAggsTwice(base, lower, first.lower);
        RaisedCtes(cs[1..], d, base, first.lower);
      }
    }
  }

  lemma {:induction false} RaisedQuery(q: Query, d: nat, rt: nat, base: seq<TargetEntry>, lower: seq<TargetEntry>)
    requires OnlyAggs(base, lower)
    ensures MapQuery(q, d, rt, Above, lower).Raise? <==> RaisesQuery(q, d, rt, base)
    decreases q
  {
    RaisedTargets(q.tlist, d, base, lower);
    var a := MapTargets(q.tlist, d, Above, lower);
    if a.Ok? {
      AppendsTargets(q.tlist, d, Above, lower);
      OnlyAggsTwice(base, lower, a.lower);
      RaisedAll(q.quals, d, base, a.lower);
      var b := MapAll(q.quals, d, Above, a.lower);
      if b.Ok? {
        AppendsAll(q.quals, d, Above, a.lower);
        OnlyAggsTwice(base, a.lower, b.lower);
        RaisedAll(q.having, d, base, b.lower);
        var c := MapAll(q.having, d, Above, b.lower);
        if c.Ok? {
          AppendsAll(q.having, d, Above, b.lower);
          OnlyAggsTwice(base, b.lower, c.lower);
          RaisedFrom(q, d, rt, base, c.lower);
        }
      }
    }
  }

  // The CTEs, then the range table.
  lemma {:induction false} RaisedFrom(q: Query, d: nat, rt: nat, base: seq<TargetEntry>, lower: seq<TargetEntry>)
    requires OnlyAggs(base, lower)
    ensures MapCtes(q.ctes, d, Above, lower).Raise? <==> RaisesCtes(q.ctes, d, base)
    ensures MapCtes(q.ctes, d, Above, lower).Ok? ==>
      (MapRtes(q.rtable, rt, Above, MapCtes(q.ctes, d, Above, lower).lower).Raise? <==> RaisesRtes(q.rtable, rt, base))
    decreases q, 0
  {
    RaisedCtes(q.ctes, d, base, lower);
    var a := MapCtes(q.ctes, d, Above, lower);
    if a.Ok? {
      AppendsCtes(q.ctes, d, Above, lower);
      OnlyAggsTwice(base, lower, a.lower);
      RaisedRtes(q.rtable, rt, base, a.lower);
    }
  }

  // ----- the decision -----

  predicate GroupingColumnOf(e: Expr, tl: seq<TargetEntry>, group: seq<nat>) {
    exists i :: 0 <= i < |tl| && tl[i].expr == e && tl[i].ref in group
  }

  // A target entry that the derived table can hold as it is.
  predicate Flat(q: Query, i: nat)
    requires i < |q.tlist|
  {
    q.tlist[i].expr.Agg? || GroupingColumnOf(q.tlist[i].expr, q.tlist, q.group)
  }

  // The entry is the first that it cannot.
  predicate FirstComplex(q: Query, i: nat) {
    i < |q.tlist| && !Flat(q, i) && forall j: nat :: j < i ==> Flat(q, j)
  }

  // From e down through operators to a column of the query, past no grouping column.
  predicate BareColumn(c: seq<Expr>, e: Expr, tl: seq<TargetEntry>, group: seq<nat>) {
    && c != [] && c[0] == e && c[|c| - 1].Var? && c[|c| - 1].level == 0
    && (forall k :: 0 <= k < |c| ==> !GroupingColumnOf(c[k], tl, group))
    && (forall k :: 0 <= k < |c| - 1 ==> c[k].Op? && c[k + 1] in c[k].args)
  }

  ghost predicate HasBareColumn(e: Expr, tl: seq<TargetEntry>, group: seq<nat>) { exists c :: BareColumn(c, e, tl, group) }

  lemma {:induction false} FallbackIff(e: Expr, tl: seq<TargetEntry>, group: seq<nat>)
    ensures ShouldFallback(e, tl, group) <==> HasBareColumn(e, tl, group)
    decreases e
  {
    assert IsGroupingExpr(e, tl, group) <==> GroupingColumnOf(e, tl, group);
    if ShouldFallback(e, tl, group) {
      if e.Var? {
        assert BareColumn([e], e, tl, group);
      } else {
        var i :| 0 <= i < |e.args| && ShouldFallback(e.args[i], tl, group);
        FallbackIff(e.args[i], tl, group);
        var c :| BareColumn(c, e.args[i], tl, group);
        Longer(c, e, i, tl, group);
      }
    }
    if HasBareColumn(e, tl, group) {
      var c :| BareColumn(c, e, tl, group);
      if |c| > 1 {
        var i :| 0 <= i < |e.args| && e.args[i] == c[1];
        assert BareColumn(c[1..], e.args[i], tl, group);
        FallbackIff(e.args[i], tl, group);
      }
    }
  }

  lemma {:induction false} Longer(c: seq<Expr>, e: Expr, i: nat, tl: seq<TargetEntry>, group: seq<nat>)
    requires e.Op? && i < |e.args| && BareColumn(c, e.args[i], tl, group) && !GroupingColumnOf(e, tl, group)
    ensures BareColumn([e] + c, e, tl, group)
  {
    var d := [e] + c;
    forall k | 0 <= k < |d| ensures !GroupingColumnOf(d[k], tl, group) {
      if k > 0 { assert d[k] == c[k - 1]; }
    }
    forall k | 0 <= k < |d| - 1 ensures d[k].Op? && d[k + 1] in d[k].args {
      if k > 0 { assert d[k] == c[k - 1] && d[k + 1] == c[k]; }
    }
    assert d[|d| - 1] == c[|c| - 1];
  }

  lemma {:induction false} NeedsIff(q: Query, i: nat)
    requires i <= |q.tlist| && forall j: nat :: j < i ==> Flat(q, j)
    ensures Needs(q, i) == Keep <==> forall j: nat :: j < |q.tlist| ==> Flat(q, j)
    ensures Needs(q, i) == Refuse <==> exists j: nat :: FirstComplex(q, j) && HasBareColumn(q.tlist[j].expr, q.tlist, q.group)
    decreases |q.tlist| - i
  {
    if i < |q.tlist| {
      var e := q.tlist[i].expr;
      FallbackIff(e, q.tlist, q.group);
      if Flat(q, i) {
        NeedsIff(q, i + 1);
      } else {
        assert FirstComplex(q, i);
        assert forall j: nat :: FirstComplex(q, j) ==> j == i;
      }
    }
  }

  // ----- the three outcomes -----

  // What the first loop puts below.
  function Base(q: Query): seq<TargetEntry> { GroupPass(q.tlist, q.group, []).lower }

  predicate RestRaises(tl: seq<TargetEntry>, group: seq<nat>, base: seq<TargetEntry>) {
    exists i :: 0 <= i < |tl| && tl[i].ref !in group && RaisesExpr(tl[i].expr, 0, base)
  }

  lemma {:induction false} GroupPassKeeps(tl: seq<TargetEntry>, group: seq<nat>, lower: seq<TargetEntry>)
    ensures
      var r := GroupPass(tl, group, lower).value;
      forall i :: 0 <= i < |tl| ==> r[i].ref == tl[i].ref && (tl[i].ref !in group ==> r[i] == tl[i])
  {
    if tl != [] {
      if tl[0].ref in group {
        var col := MapExpr(tl[0].expr, 0, GroupingColumn, lower);
        GroupPassKeeps(tl[1..], group, col.lower + [TargetEntry(col.value, tl[0].ref, false)]);
      } else {
        GroupPassKeeps(tl[1..], group, lower);
      }
    }
  }

  lemma {:induction false} RestPassRaises(tl: seq<TargetEntry>, group: seq<nat>, base: seq<TargetEntry>, lower: seq<TargetEntry>)
    requires OnlyAggs(base, lower)
    ensures RestPass(tl, group, lower).Raise? <==> RestRaises(tl, group, base)
  {
    if tl != [] {
      assert forall i :: 0 < i < |tl| ==> tl[i] == tl[1..][i - 1];
      assert RestRaises(tl[1..], group, base) ==> RestRaises(tl, group, base) by {
        if i :| 0 <= i < |tl[1..]| && tl[1..][i].ref !in group && RaisesExpr(tl[1..][i].expr, 0, base) {
          assert tl[i + 1] == tl[1..][i];
        }
      }
      if tl[0].ref in group {
        RestPassRaises(tl[1..], group, base, lower);
      } else {
        RaisedTarget(tl[0], 0, base, lower);
        var first := MapTarget(tl[0], 0, Above, lower);
        if first.Ok? {
          AppendsTarget(tl[0], 0, Above, lower);
          OnlyAggsTwice(base, lower, first.lower);
          RestPassRaises(tl[1..], group, base, first.lower);
        }
      }
    }
  }

  lemma {:induction false} SplitRaises(q: Query)
    ensures SplitTargetsOf(q).Raise? <==> RestRaises(q.tlist, q.group, Base(q))
    ensures SplitTargetsOf(q).Ok? ==> OnlyAggs(Base(q), SplitTargetsOf(q).lower)
  {
    var g := GroupPass(q.tlist, q.group, []);
    GroupPassKeeps(q.tlist, q.group, []);
    RestPassRaises(g.value, q.group, g.lower, g.lower);
    AppendsRest(g.value, q.group, g.lower);
    assert RestRaises(g.value, q.group, g.lower) <==> RestRaises(q.tlist, q.group, g.lower) by {
      if i :| 0 <= i < |q.tlist| && q.tlist[i].ref !in q.group && RaisesExpr(q.tlist[i].expr, 0, g.lower) {
        assert g.value[i] == q.tlist[i];
      }
      if i :| 0 <= i < |g.value| && g.value[i].ref !in q.group && RaisesExpr(g.value[i].expr, 0, g.lower) {
        assert g.value[i] == q.tlist[i];
      }
    }
  }

  // Every entry is an aggregate or a grouping column.
  predicate AllFlat(q: Query) { forall i: nat :: i < |q.tlist| ==> Flat(q, i) }

  /** A query comes back unchanged if and only if it is not grouped or every target entry is an
      aggregate or a grouping column. Otherwise it is refused if and only if the first other
      entry has a bare column or some entry outside the GROUP BY has a part that cannot be
      rewritten. Otherwise it is split, and the entries of the derived table are those of the
      grouping columns followed by aggregates. */
  lemma {:induction false} NormalizeCases(q: Query)
    ensures NormalizeGroupByProjList(q) == Done(q) <==> !q.grouped || AllFlat(q)
    ensures NormalizeGroupByProjList(q).NoAttribute? <==>
      && q.grouped && !AllFlat(q)
      && (RestRaises(q.tlist, q.group, Base(q))
          || exists i: nat :: FirstComplex(q, i) && HasBareColumn(q.tlist[i].expr, q.tlist, q.group))
    ensures NormalizeGroupByProjList(q).Done? && q.grouped && !AllFlat(q) ==>
      var n := NormalizeGroupByProjList(q).query;
      && !n.grouped && n.ctes == q.ctes && n.quals == [] && n.having == []
      && |n.rtable| == 1 && n.rtable[0].Derived?
      && n.rtable[0].sub.grouped && n.rtable[0].sub.group == q.group && OnlyAggs(Base(q), n.rtable[0].sub.tlist)
  {
    NeedsIff(q, 0);
    SplitRaises(q);
  }
}
