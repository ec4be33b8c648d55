/**
  What the expansion of virtual generated columns leaves behind: without a fallback no
  Var of the query's own relations names a virtual column any more, at any depth.
 */
module VirtualColumnsClean {
  import opened Values
  import opened QueryTree
  import opened VarMap
  import opened VirtualColumns
  import opened VirtualColumnsMeaning

  // The virtual columns of each range-table entry.
  function Virtual(cat: Catalog, rtable: seq<Rte>): seq<map<int, Expr>> {
    seq(|rtable|, i requires 0 <= i < |rtable| => ColumnsOf(cat, rtable[i]))
  }

  // A Var of one of the entries lo + 1 .. hi that names a virtual column.
  predicate NamesIn(cols: seq<map<int, Expr>>, lo: nat, hi: nat, v: Expr, d: nat) {
    v.Var? && lo < v.varno <= hi && v.varno <= |cols| && v.level == d && v.attno in cols[v.varno - 1]
  }

  function NamesOne(cols: seq<map<int, Expr>>, lo: nat, hi: nat): VarPred {
    (v: Expr, d: nat) => NamesIn(cols, lo, hi, v, d)
  }

  function NamesNulled(cols: seq<map<int, Expr>>, lo: nat, hi: nat): VarPred {
    (v: Expr, d: nat) => NamesIn(cols, lo, hi, v, d) && v.nulled
  }

  function Own(cat: Catalog, q: Query): VarPred {
    NamesOne(Virtual(cat, q.rtable), 0, |q.rtable|)
  }

  function OwnNulled(cat: Catalog, q: Query): VarPred {
    NamesNulled(Virtual(cat, q.rtable), 0, |q.rtable|)
  }

  // A virtual column of an earlier entry, or a nullable one of entry `rt`.
  function Remaining(cols: seq<map<int, Expr>>, rt: nat): VarPred
    requires 1 <= rt <= |cols|
  {
    (v: Expr, d: nat) => NamesIn(cols, 0, rt - 1, v, d) || (Names(v, d, rt, cols[rt - 1]) && v.nulled)
  }

  lemma {:induction false} RemainingTraces(cat: Catalog, rtable: seq<Rte>, rt: nat)
    requires ValidCatalog(cat) && 1 <= rt <= |rtable|
    ensures
      var all := Virtual(cat, rtable);
      Traces(Replacement(rt, all[rt - 1]), NamesOne(all, 0, rt), Remaining(all, rt), 0, false)
  {
    var all := Virtual(cat, rtable);
    var f, p, before, cols := Replacement(rt, all[rt - 1]), NamesOne(all, 0, rt), Remaining(all, rt), all[rt - 1];
    forall v: Expr, d: nat | v.Var? && AnyExpr(f(v, d), d, p, false) ensures before(v, d) {
      if Names(v, d, rt, cols) && !v.nulled {
        LiftVars(cols[v.attno], cols.Keys, rt, d, d, p, false);
      }
    }
  }

  // Replacing for entry `rt` leaves of its virtual columns only the nullable references.
  lemma {:induction false} ReplaceStep(cat: Catalog, q: Query, rt: nat)
    requires ValidCatalog(cat) && 1 <= rt <= |q.rtable|
    requires !AnyQuery(q, 0, Nulled(rt, ColumnsOf(cat, q.rtable[rt - 1])), false)
    requires !AnyQuery(q, 0, NamesOne(Virtual(cat, q.rtable), 0, rt - 1), false)
    ensures
      var q' := MapQuery(q, 0, Replacement(rt, ColumnsOf(cat, q.rtable[rt - 1])));
      !AnyQuery(q', 0, NamesOne(Virtual(cat, q.rtable), 0, rt), false)
  {
    var all, cols := Virtual(cat, q.rtable), ColumnsOf(cat, q.rtable[rt - 1]);
    RemainingTraces(cat, q.rtable, rt);
    TraceQuery(q, 0, Replacement(rt, cols), NamesOne(all, 0, rt), Remaining(all, rt), 0, false);
    JoinTwo(Remaining(all, rt), NamesOne(all, 0, rt - 1), Nulled(rt, cols));
    EitherQuery(q, 0, Remaining(all, rt), [NamesOne(all, 0, rt - 1), Nulled(rt, cols)], false);
  }

  lemma {:induction false} ExpandFromClean(cat: Catalog, q: Query, rt: nat)
    requires ValidCatalog(cat) && 1 <= rt <= |q.rtable| + 1 && !ExpandFrom(cat, q, rt).1
    requires !AnyQuery(q, 0, NamesOne(Virtual(cat, q.rtable), 0, rt - 1), false)
    ensures !AnyQuery(ExpandFrom(cat, q, rt).0, 0, Own(cat, q), false)
    ensures Virtual(cat, ExpandFrom(cat, q, rt).0.rtable) == Virtual(cat, q.rtable)
    decreases |q.rtable| + 1 - rt
  {
    if rt <= |q.rtable| {
      var all, cols := Virtual(cat, q.rtable), ColumnsOf(cat, q.rtable[rt - 1]);
      if cols == map[] {
        JoinTwo(NamesOne(all, 0, rt), NamesOne(all, 0, rt - 1), NamesOne(all, 0, rt - 1));
        EitherQuery(q, 0, NamesOne(all, 0, rt), [NamesOne(all, 0, rt - 1), NamesOne(all, 0, rt - 1)], false);
        ExpandFromClean(cat, q, rt + 1);
      } else {
        var q' := MapQuery(q, 0, Replacement(rt, cols));
        ReplaceStep(cat, q, rt);
        assert Virtual(cat, q'.rtable) == all;
        ExpandFromClean(cat, q', rt + 1);
      }
    }
  }

  // ----- when the fallback is flagged -----

  lemma {:induction false} NulledTraces(cat: Catalog, rtable: seq<Rte>, rt: nat)
    requires ValidCatalog(cat) && 1 <= rt <= |rtable|
    ensures
      var p := NamesNulled(Virtual(cat, rtable), rt, |rtable|);
      var f := Replacement(rt, ColumnsOf(cat, rtable[rt - 1]));
      Traces(f, p, p, 0, false) && Carries(f, p, p, 0, false)
  {
    var p, cols := NamesNulled(Virtual(cat, rtable), rt, |rtable|), ColumnsOf(cat, rtable[rt - 1]);
    var f := Replacement(rt, cols);
    forall v: Expr, d: nat | v.Var? && AnyExpr(f(v, d), d, p, false) ensures p(v, d) {
      if Names(v, d, rt, cols) && !v.nulled {
        LiftVars(cols[v.attno], cols.Keys, rt, d, d, p, false);
      }
    }
  }

  // Replacing for one entry neither adds nor removes nullable references of later entries.
  lemma {:induction false} NulledStep(cat: Catalog, q: Query, rt: nat)
    requires ValidCatalog(cat) && 1 <= rt <= |q.rtable|
    ensures
      var all, cols, n := Virtual(cat, q.rtable), ColumnsOf(cat, q.rtable[rt - 1]), |q.rtable|;
      && (AnyQuery(MapQuery(q, 0, Replacement(rt, cols)), 0, NamesNulled(all, rt, n), false)
          <==> AnyQuery(q, 0, NamesNulled(all, rt, n), false))
      && (AnyQuery(q, 0, NamesNulled(all, rt - 1, n), false)
          <==> AnyQuery(q, 0, Nulled(rt, cols), false) || AnyQuery(q, 0, NamesNulled(all, rt, n), false))
  {
    var all, cols, n := Virtual(cat, q.rtable), ColumnsOf(cat, q.rtable[rt - 1]), |q.rtable|;
    var p, ps := NamesNulled(all, rt, n), [Nulled(rt, cols), NamesNulled(all, rt, n)];
    NulledTraces(cat, q.rtable, rt);
    TraceQuery(q, 0, Replacement(rt, cols), p, p, 0, false);
    JoinTwo(NamesNulled(all, rt - 1, n), ps[0], ps[1]);
    EitherQuery(q, 0, NamesNulled(all, rt - 1, n), ps, false);
    assert AnyQuery(q, 0, ps[0], false) == AnyQuery(q, 0, Nulled(rt, cols), false);
    assert AnyQuery(q, 0, ps[1], false) == AnyQuery(q, 0, p, false);
  }

  lemma {:induction false} FallbackFrom(cat: Catalog, q: Query, rt: nat)
    requires ValidCatalog(cat) && 1 <= rt <= |q.rtable| + 1
    ensures ExpandFrom(cat, q, rt).1 <==> AnyQuery(q, 0, NamesNulled(Virtual(cat, q.rtable), rt - 1, |q.rtable|), false)
    decreases |q.rtable| + 1 - rt
  {
    var all, n := Virtual(cat, q.rtable), |q.rtable|;
    if rt == n + 1 {
      EitherQuery(q, 0, NamesNulled(all, rt - 1, n), [], false);
    } else {
      var cols := ColumnsOf(cat, q.rtable[rt - 1]);
      NulledStep(cat, q, rt);
      if cols == map[] {
        EitherQuery(q, 0, Nulled(rt, cols), [], false);
        FallbackFrom(cat, q, rt + 1);
      } else {
        var q' := MapQuery(q, 0, Replacement(rt, cols));
        assert Virtual(cat, q'.rtable) == all;
        FallbackFrom(cat, q', rt + 1);
      }
    }
  }

  // ----- other levels are left alone -----

  // Only Vars of the query `shift` levels away are looked for.
  ghost predicate AtLevel(p: VarPred) {
    forall v: Expr, t: nat :: p(v, t) ==> v.Var? && v.level == t
  }

  // References of another level are the same before and after replacing for one entry.
  lemma {:induction false} ReplaceElsewhere(cat: Catalog, q: Query, k: nat, r: Rte, rt: nat, p: VarPred, shift: int)
    requires ValidCatalog(cat) && AtLevel(p) && shift != 0 && k + shift >= 0
    ensures AnyQuery(MapQuery(q, k, Replacement(rt, ColumnsOf(cat, r))), k + shift, p, false)
       <==> AnyQuery(q, k + shift, p, false)
  {
    var cols := ColumnsOf(cat, r);
    var f := Replacement(rt, cols);
    forall v: Expr, d: nat | v.Var? && d + shift >= 0 && AnyExpr(f(v, d), d + shift, p, false) ensures p(v, d + shift) {
      if Names(v, d, rt, cols) && !v.nulled {
        LiftVars(cols[v.attno], cols.Keys, rt, d, d + shift, p, false);
      }
    }
    TraceQuery(q, k, f, p, p, shift, false);
  }

  lemma {:induction false} ExpandFromElsewhere(cat: Catalog, q: Query, rt: nat, p: VarPred, k: nat)
    requires ValidCatalog(cat) && AtLevel(p) && k > 0 && 1 <= rt <= |q.rtable| + 1
    ensures AnyQuery(ExpandFrom(cat, q, rt).0, k, p, false) <==> AnyQuery(q, k, p, false)
    decreases |q.rtable| + 1 - rt
  {
    if rt <= |q.rtable| {
      var r := q.rtable[rt - 1];
      if ColumnsOf(cat, r) == map[] {
        ExpandFromElsewhere(cat, q, rt + 1, p, k);
      } else {
        ReplaceElsewhere(cat, q, 0, r, rt, p, k);
        ExpandFromElsewhere(cat, MapQuery(q, 0, Replacement(rt, ColumnsOf(cat, r))), rt + 1, p, k);
      }
    }
  }

  lemma {:induction false} ExpandElsewhere(cat: Catalog, q: Query, p: VarPred, k: nat)
    requires ValidCatalog(cat) && AtLevel(p) && k > 0
    ensures AnyQuery(Expand(cat, q).0, k, p, false) <==> AnyQuery(q, k, p, false)
    decreases q
  {
    InnerElsewhere(cat, q, p, k);
    var inner := q.(rtable := ExpandRtes(cat, q.rtable).0, ctes := ExpandCtes(cat, q.ctes).0);
    if q.sets == [] { ExpandFromElsewhere(cat, inner, 1, p, k); }
  }

  // Expanding the derived tables and CTEs of a query leaves references from outside them alone.
  lemma {:induction false} InnerElsewhere(cat: Catalog, q: Query, p: VarPred, k: nat)
    requires ValidCatalog(cat) && AtLevel(p)
    ensures
      var inner := q.(rtable := ExpandRtes(cat, q.rtable).0, ctes := ExpandCtes(cat, q.ctes).0);
      AnyQuery(inner, k, p, false) <==> AnyQuery(q, k, p, false)
    decreases q, 0
  {
    forall i | 0 <= i < |q.rtable|
      ensures AnyRte(ExpandRte(cat, q.rtable[i]).0, k, p, false) <==> AnyRte(q.rtable[i], k, p, false)
    {
      RteElsewhere(cat, q.rtable[i], p, k);
    }
    forall i | 0 <= i < |q.ctes|
      ensures AnyCte(ExpandCte(cat, q.ctes[i]).0, k, p, false) <==> AnyCte(q.ctes[i], k, p, false)
    {
      CteElsewhere(cat, q.ctes[i], p, k);
    }
  }

  lemma {:induction false} RteElsewhere(cat: Catalog, r: Rte, p: VarPred, k: nat)
    requires ValidCatalog(cat) && AtLevel(p)
    ensures AnyRte(ExpandRte(cat, r).0, k, p, false) <==> AnyRte(r, k, p, false)
    decreases r
  {
    if r.Derived? { ExpandElsewhere(cat, r.sub, p, k + 1); }
  }

  lemma {:induction false} CteElsewhere(cat: Catalog, c: Cte, p: VarPred, k: nat)
    requires ValidCatalog(cat) && AtLevel(p)
    ensures AnyCte(ExpandCte(cat, c).0, k, p, false) <==> AnyCte(c, k, p, false)
    decreases c
  {
    ExpandElsewhere(cat, c.body, p, k + 1);
  }

  // ----- the fallback of a whole query -----

  // Some nullable reference to a virtual column, in the query, a derived table or a CTE.
  predicate Blocked(cat: Catalog, q: Query)
    decreases q
  {
    || (q.sets == [] && AnyQuery(q, 0, OwnNulled(cat, q), false))
    || (exists i :: 0 <= i < |q.rtable| && BlockedRte(cat, q.rtable[i]))
    || (exists i :: 0 <= i < |q.ctes| && BlockedCte(cat, q.ctes[i]))
  }

  predicate BlockedRte(cat: Catalog, r: Rte)
    decreases r
  {
    r.Derived? && Blocked(cat, r.sub)
  }

  predicate BlockedCte(cat: Catalog, c: Cte)
    decreases c
  {
    Blocked(cat, c.body)
  }

  /** The fallback flag is raised exactly when an outer join may null a virtual column that is read. */
  lemma {:induction false} FallbackIff(cat: Catalog, q: Query)
    requires ValidCatalog(cat)
    ensures Expand(cat, q).1 <==> Blocked(cat, q)
    decreases q
  {
    forall i | 0 <= i < |q.rtable| ensures ExpandRte(cat, q.rtable[i]).1 <==> BlockedRte(cat, q.rtable[i]) {
      FallbackRte(cat, q.rtable[i]);
    }
    forall i | 0 <= i < |q.ctes| ensures ExpandCte(cat, q.ctes[i]).1 <==> BlockedCte(cat, q.ctes[i]) {
      FallbackCte(cat, q.ctes[i]);
    }
    var inner := q.(rtable := ExpandRtes(cat, q.rtable).0, ctes := ExpandCtes(cat, q.ctes).0);
    assert Virtual(cat, inner.rtable) == Virtual(cat, q.rtable);
    InnerElsewhere(cat, q, OwnNulled(cat, q), 0);
    FallbackFrom(cat, inner, 1);
  }

  lemma {:induction false} FallbackRte(cat: Catalog, r: Rte)
    requires ValidCatalog(cat)
    ensures ExpandRte(cat, r).1 <==> BlockedRte(cat, r)
    decreases r
  {
    if r.Derived? { FallbackIff(cat, r.sub); }
  }

  lemma {:induction false} FallbackCte(cat: Catalog, c: Cte)
    requires ValidCatalog(cat)
    ensures ExpandCte(cat, c).1 <==> BlockedCte(cat, c)
    decreases c
  {
    FallbackIff(cat, c.body);
  }

  // ----- nothing is left at any depth of derived tables and CTEs -----

  predicate Clean(cat: Catalog, q: Query)
    decreases q
  {
    && (q.sets == [] ==> !AnyQuery(q, 0, Own(cat, q), false))
    && (forall i :: 0 <= i < |q.rtable| ==> CleanRte(cat, q.rtable[i]))
    && (forall i :: 0 <= i < |q.ctes| ==> CleanCte(cat, q.ctes[i]))
  }

  predicate CleanRte(cat: Catalog, r: Rte)
    decreases r
  {
    r.Derived? ==> Clean(cat, r.sub)
  }

  predicate CleanCte(cat: Catalog, c: Cte)
    decreases c
  {
    Clean(cat, c.body)
  }

  // Replacing columns of an enclosing query brings no virtual column of an inner one back.
  lemma {:induction false} ReplaceClean(cat: Catalog, q: Query, k: nat, r: Rte, rt: nat)
    requires ValidCatalog(cat) && Clean(cat, q) && k > 0
    ensures Clean(cat, MapQuery(q, k, Replacement(rt, ColumnsOf(cat, r))))
    decreases q
  {
    var f := Replacement(rt, ColumnsOf(cat, r));
    forall i | 0 <= i < |q.rtable| ensures CleanRte(cat, MapRte(q.rtable[i], k, f)) {
      ReplaceCleanRte(cat, q.rtable[i], k, r, rt);
    }
    forall i | 0 <= i < |q.ctes| ensures CleanCte(cat, MapCte(q.ctes[i], k, f)) {
      ReplaceCleanCte(cat, q.ctes[i], k, r, rt);
    }
    assert Virtual(cat, MapQuery(q, k, f).rtable) == Virtual(cat, q.rtable);
    ReplaceElsewhere(cat, q, k, r, rt, Own(cat, q), 0 - k);
  }

  lemma {:induction false} ReplaceCleanRte(cat: Catalog, e: Rte, k: nat, r: Rte, rt: nat)
    requires ValidCatalog(cat) && CleanRte(cat, e)
    ensures CleanRte(cat, MapRte(e, k, Replacement(rt, ColumnsOf(cat, r))))
    decreases e
  {
    if e.Derived? { ReplaceClean(cat, e.sub, k + 1, r, rt); }
  }

  lemma {:induction false} ReplaceCleanCte(cat: Catalog, c: Cte, k: nat, r: Rte, rt: nat)
    requires ValidCatalog(cat) && CleanCte(cat, c)
    ensures CleanCte(cat, MapCte(c, k, Replacement(rt, ColumnsOf(cat, r))))
    decreases c
  {
    ReplaceClean(cat, c.body, k + 1, r, rt);
  }

  // Derived tables and CTEs stay clean through the loop over the range table.
  predicate CleanInside(cat: Catalog, q: Query) {
    && (forall i :: 0 <= i < |q.rtable| ==> CleanRte(cat, q.rtable[i]))
    && (forall i :: 0 <= i < |q.ctes| ==> CleanCte(cat, q.ctes[i]))
  }

  lemma {:induction false} ExpandFromCleanInside(cat: Catalog, q: Query, rt: nat)
    requires ValidCatalog(cat) && CleanInside(cat, q) && 1 <= rt <= |q.rtable| + 1
    ensures CleanInside(cat, ExpandFrom(cat, q, rt).0)
    decreases |q.rtable| + 1 - rt
  {
    if rt <= |q.rtable| {
      var r := q.rtable[rt - 1];
      var f := Replacement(rt, ColumnsOf(cat, r));
      if ColumnsOf(cat, r) == map[] {
        ExpandFromCleanInside(cat, q, rt + 1);
      } else {
        forall i | 0 <= i < |q.rtable| ensures CleanRte(cat, MapRte(q.rtable[i], 0, f)) {
          ReplaceCleanRte(cat, q.rtable[i], 0, r, rt);
        }
        forall i | 0 <= i < |q.ctes| ensures CleanCte(cat, MapCte(q.ctes[i], 0, f)) {
          ReplaceCleanCte(cat, q.ctes[i], 0, r, rt);
        }
        ExpandFromCleanInside(cat, MapQuery(q, 0, f), rt + 1);
      }
    }
  }

  /** Without a fallback no own virtual column is referenced any more, at any depth. */
  lemma {:induction false} ExpandClean(cat: Catalog, q: Query)
    requires ValidCatalog(cat) && !Expand(cat, q).1
    ensures Clean(cat, Expand(cat, q).0)
    decreases q
  {
    var inner := q.(rtable := ExpandRtes(cat, q.rtable).0, ctes := ExpandCtes(cat, q.ctes).0);
    forall i | 0 <= i < |q.rtable| ensures CleanRte(cat, inner.rtable[i]) {
      ExpandCleanRte(cat, q.rtable[i]);
    }
    forall i | 0 <= i < |q.ctes| ensures CleanCte(cat, inner.ctes[i]) {
      ExpandCleanCte(cat, q.ctes[i]);
    }
    if q.sets == [] {
      EitherQuery(inner, 0, NamesOne(Virtual(cat, inner.rtable), 0, 0), [], false);
      ExpandFromClean(cat, inner, 1);
      ExpandFromCleanInside(cat, inner, 1);
    }
  }

  lemma {:induction false} ExpandCleanRte(cat: Catalog, r: Rte)
    requires ValidCatalog(cat) && !ExpandRte(cat, r).1
    ensures CleanRte(cat, ExpandRte(cat, r).0)
    decreases r
  {
    if r.Derived? { ExpandClean(cat, r.sub); }
  }

  lemma {:induction false} ExpandCleanCte(cat: Catalog, c: Cte)
    requires ValidCatalog(cat) && !ExpandCte(cat, c).1
    ensures CleanCte(cat, ExpandCte(cat, c).0)
    decreases c
  {
    ExpandClean(cat, c.body);
  }

  // ----- subqueries in expressions -----

  // Some query references a virtual column of its own. With `deep` all queries of the tree
  // count; without, only those that lie in a subquery of an expression, at any depth, and
  // among the others those with grouping sets.
  predicate Leaks(cat: Catalog, q: Query, deep: bool)
    decreases q
  {
    || ((deep || q.sets != []) && AnyQuery(q, 0, Own(cat, q), false))
    || LeaksTargets(cat, q.tlist) || LeaksAll(cat, q.quals) || LeaksAll(cat, q.having)
    || LeaksCtes(cat, q.ctes, deep) || LeaksRtes(cat, q.rtable, deep)
  }

  predicate LeaksExpr(cat: Catalog, e: Expr)
    decreases e
  {
    match e
    case Const(_) => false
    case Var(_, _, _, _) => false
    case Op(_, args) => LeaksAll(cat, args)
    case Agg(_, args, _) => LeaksAll(cat, args)
    case SubLink(_, test, sub) => LeaksAll(cat, test) || Leaks(cat, sub, true)
  }

  predicate LeaksAll(cat: Catalog, es: seq<Expr>)
    decreases es
  {
    exists i :: 0 <= i < |es| && LeaksExpr(cat, es[i])
  }

  predicate LeaksTarget(cat: Catalog, te: TargetEntry)
    decreases te
  {
    LeaksExpr(cat, te.expr)
  }

  predicate LeaksTargets(cat: Catalog, tl: seq<TargetEntry>)
    decreases tl
  {
    exists i :: 0 <= i < |tl| && LeaksTarget(cat, tl[i])
  }

  predicate LeaksRte(cat: Catalog, r: Rte, deep: bool)
    decreases r
  {
    r.Derived? && Leaks(cat, r.sub, deep)
  }

  predicate LeaksRtes(cat: Catalog, rs: seq<Rte>, deep: bool)
    decreases rs
  {
    exists i :: 0 <= i < |rs| && LeaksRte(cat, rs[i], deep)
  }

  predicate LeaksCte(cat: Catalog, c: Cte, deep: bool)
    decreases c
  {
    Leaks(cat, c.body, deep)
  }

  predicate LeaksCtes(cat: Catalog, cs: seq<Cte>, deep: bool)
    decreases cs
  {
    exists i :: 0 <= i < |cs| && LeaksCte(cat, cs[i], deep)
  }

  // Replacing columns of a query leaves the references of other queries as they were.
  lemma {:induction false} ReplaceLeaks(cat: Catalog, q: Query, k: nat, r: Rte, rt: nat, deep: bool)
    requires ValidCatalog(cat) && (deep || q.sets != [] ==> k > 0)
    ensures Leaks(cat, MapQuery(q, k, Replacement(rt, ColumnsOf(cat, r))), deep) <==> Leaks(cat, q, deep)
    decreases q
  {
    var f := Replacement(rt, ColumnsOf(cat, r));
    ReplaceLeaksTargets(cat, q.tlist, k, r, rt);
    ReplaceLeaksAll(cat, q.quals, k, r, rt);
    ReplaceLeaksAll(cat, q.having, k, r, rt);
    ReplaceLeaksCtes(cat, q.ctes, k, r, rt, deep);
    ReplaceLeaksRtes(cat, q.rtable, k, r, rt, deep);
    if k > 0 {
      assert Virtual(cat, MapQuery(q, k, f).rtable) == Virtual(cat, q.rtable);
      ReplaceElsewhere(cat, q, k, r, rt, Own(cat, q), 0 - k);
    }
  }

  lemma {:induction false} ReplaceLeaksExpr(cat: Catalog, e: Expr, k: nat, r: Rte, rt: nat)
    requires ValidCatalog(cat)
    ensures LeaksExpr(cat, MapExpr(e, k, Replacement(rt, ColumnsOf(cat, r)))) <==> LeaksExpr(cat, e)
    decreases e
  {
    match e
    case Const(_) =>
    case Var(_, _, _, _) =>
      var cols := ColumnsOf(cat, r);
      if Names(e, k, rt, cols) && !e.nulled { LiftLeaks(cat, cols[e.attno], cols.Keys, rt, k); }
    case Op(_, args) => ReplaceLeaksAll(cat, args, k, r, rt);
    case Agg(_, args, _) => ReplaceLeaksAll(cat, args, k, r, rt);
    case SubLink(_, test, sub) =>
      ReplaceLeaksAll(cat, test, k, r, rt);
      ReplaceLeaks(cat, sub, k + 1, r, rt, true);
  }

  // A generation expression has no subquery.
  lemma {:induction false} LiftLeaks(cat: Catalog, g: Expr, virt: set<int>, rt: nat, d: nat)
    requires Simple(g, virt)
    ensures !LeaksExpr(cat, Lift(g, rt, d))
    decreases g
  {
    if g.Op? {
      forall i | 0 <= i < |g.args| ensures !LeaksExpr(cat, LiftAll(g.args, rt, d)[i]) {
        LiftLeaks(cat, g.args[i], virt, rt, d);
      }
    }
  }

  lemma {:induction false} ReplaceLeaksAll(cat: Catalog, es: seq<Expr>, k: nat, r: Rte, rt: nat)
    requires ValidCatalog(cat)
    ensures LeaksAll(cat, MapAll(es, k, Replacement(rt, ColumnsOf(cat, r)))) <==> LeaksAll(cat, es)
    decreases es
  {
    var f := Replacement(rt, ColumnsOf(cat, r));
    forall i | 0 <= i < |es| ensures LeaksExpr(cat, MapExpr(es[i], k, f)) <==> LeaksExpr(cat, es[i]) {
      ReplaceLeaksExpr(cat, es[i], k, r, rt);
    }
  }

  lemma {:induction false} ReplaceLeaksTarget(cat: Catalog, te: TargetEntry, k: nat, r: Rte, rt: nat)
    requires ValidCatalog(cat)
    ensures LeaksTarget(cat, MapTarget(te, k, Replacement(rt, ColumnsOf(cat, r)))) <==> LeaksTarget(cat, te)
    decreases te
  {
    ReplaceLeaksExpr(cat, te.expr, k, r, rt);
  }

  lemma {:induction false} ReplaceLeaksTargets(cat: Catalog, tl: seq<TargetEntry>, k: nat, r: Rte, rt: nat)
    requires ValidCatalog(cat)
    ensures LeaksTargets(cat, MapTargets(tl, k, Replacement(rt, ColumnsOf(cat, r)))) <==> LeaksTargets(cat, tl)
    decreases tl
  {
    var f := Replacement(rt, ColumnsOf(cat, r));
    forall i | 0 <= i < |tl| ensures LeaksTarget(cat, MapTarget(tl[i], k, f)) <==> LeaksTarget(cat, tl[i]) {
      ReplaceLeaksTarget(cat, tl[i], k, r, rt);
    }
  }

  lemma {:induction false} ReplaceLeaksRte(cat: Catalog, e: Rte, k: nat, r: Rte, rt: nat, deep: bool)
    requires ValidCatalog(cat)
    ensures LeaksRte(cat, MapRte(e, k, Replacement(rt, ColumnsOf(cat, r))), deep) <==> LeaksRte(cat, e, deep)
    decreases e
  {
    if e.Derived? { ReplaceLeaks(cat, e.sub, k + 1, r, rt, deep); }
  }

  lemma {:induction false} ReplaceLeaksRtes(cat: Catalog, rs: seq<Rte>, k: nat, r: Rte, rt: nat, deep: bool)
    requires ValidCatalog(cat)
    ensures LeaksRtes(cat, MapRtes(rs, k, Replacement(rt, ColumnsOf(cat, r))), deep) <==> LeaksRtes(cat, rs, deep)
    decreases rs
  {
    var f := Replacement(rt, ColumnsOf(cat, r));
    forall i | 0 <= i < |rs| ensures LeaksRte(cat, MapRte(rs[i], k, f), deep) <==> LeaksRte(cat, rs[i], deep) {
      ReplaceLeaksRte(cat, rs[i], k, r, rt, deep);
    }
  }

  lemma {:induction false} ReplaceLeaksCte(cat: Catalog, c: Cte, k: nat, r: Rte, rt: nat, deep: bool)
    requires ValidCatalog(cat)
    ensures LeaksCte(cat, MapCte(c, k, Replacement(rt, ColumnsOf(cat, r))), deep) <==> LeaksCte(cat, c, deep)
    decreases c
  {
    ReplaceLeaks(cat, c.body, k + 1, r, rt, deep);
  }

  lemma {:induction false} ReplaceLeaksCtes(cat: Catalog, cs: seq<Cte>, k: nat, r: Rte, rt: nat, deep: bool)
    requires ValidCatalog(cat)
    ensures LeaksCtes(cat, MapCtes(cs, k, Replacement(rt, ColumnsOf(cat, r))), deep) <==> LeaksCtes(cat, cs, deep)
    decreases cs
  {
    var f := Replacement(rt, ColumnsOf(cat, r));
    forall i | 0 <= i < |cs| ensures LeaksCte(cat, MapCte(cs[i], k, f), deep) <==> LeaksCte(cat, cs[i], deep) {
      ReplaceLeaksCte(cat, cs[i], k, r, rt, deep);
    }
  }

  lemma {:induction false} ExpandFromLeaks(cat: Catalog, q: Query, rt: nat)
    requires ValidCatalog(cat) && q.sets == [] && 1 <= rt <= |q.rtable| + 1
    ensures Leaks(cat, ExpandFrom(cat, q, rt).0, false) <==> Leaks(cat, q, false)
    decreases |q.rtable| + 1 - rt
  {
    if rt <= |q.rtable| {
      var r := q.rtable[rt - 1];
      if ColumnsOf(cat, r) == map[] {
        ExpandFromLeaks(cat, q, rt + 1);
      } else {
        ReplaceLeaks(cat, q, 0, r, rt, false);
        ExpandFromLeaks(cat, MapQuery(q, 0, Replacement(rt, ColumnsOf(cat, r))), rt + 1);
      }
    }
  }

  /** Subqueries of expressions and queries with grouping sets are not expanded, wherever they
      stand: the expansion neither removes nor adds a reference of one to its virtual columns. */
  lemma {:induction false} ExpandLeaks(cat: Catalog, q: Query)
    requires ValidCatalog(cat)
    ensures Leaks(cat, Expand(cat, q).0, false) <==> Leaks(cat, q, false)
    decreases q
  {
    forall i | 0 <= i < |q.rtable| ensures LeaksRte(cat, ExpandRte(cat, q.rtable[i]).0, false) <==> LeaksRte(cat, q.rtable[i], false) {
      ExpandLeaksRte(cat, q.rtable[i]);
    }
    forall i | 0 <= i < |q.ctes| ensures LeaksCte(cat, ExpandCte(cat, q.ctes[i]).0, false) <==> LeaksCte(cat, q.ctes[i], false) {
      ExpandLeaksCte(cat, q.ctes[i]);
    }
    var inner := q.(rtable := ExpandRtes(cat, q.rtable).0, ctes := ExpandCtes(cat, q.ctes).0);
    if q.sets == [] {
      ExpandFromLeaks(cat, inner, 1);
    } else {
      assert Virtual(cat, inner.rtable) == Virtual(cat, q.rtable);
      InnerElsewhere(cat, q, Own(cat, q), 0);
    }
  }

  lemma {:induction false} ExpandLeaksRte(cat: Catalog, r: Rte)
    requires ValidCatalog(cat)
    ensures LeaksRte(cat, ExpandRte(cat, r).0, false) <==> LeaksRte(cat, r, false)
    decreases r
  {
    if r.Derived? { ExpandLeaks(cat, r.sub); }
  }

  lemma {:induction false} ExpandLeaksCte(cat: Catalog, c: Cte)
    requires ValidCatalog(cat)
    ensures LeaksCte(cat, ExpandCte(cat, c).0, false) <==> LeaksCte(cat, c, false)
    decreases c
  {
    ExpandLeaks(cat, c.body);
  }

  // What is neither expanded nor clean is all there is.
  lemma {:induction false} LeaksSplit(cat: Catalog, q: Query)
    ensures Leaks(cat, q, true) <==> Leaks(cat, q, false) || !Clean(cat, q)
    decreases q
  {
    forall i | 0 <= i < |q.rtable|
      ensures LeaksRte(cat, q.rtable[i], true) <==> LeaksRte(cat, q.rtable[i], false) || !CleanRte(cat, q.rtable[i])
    {
      LeaksSplitRte(cat, q.rtable[i]);
    }
    forall i | 0 <= i < |q.ctes|
      ensures LeaksCte(cat, q.ctes[i], true) <==> LeaksCte(cat, q.ctes[i], false) || !CleanCte(cat, q.ctes[i])
    {
      LeaksSplitCte(cat, q.ctes[i]);
    }
  }

  lemma {:induction false} LeaksSplitRte(cat: Catalog, r: Rte)
    ensures LeaksRte(cat, r, true) <==> LeaksRte(cat, r, false) || !CleanRte(cat, r)
    decreases r
  {
    if r.Derived? { LeaksSplit(cat, r.sub); }
  }

  lemma {:induction false} LeaksSplitCte(cat: Catalog, c: Cte)
    ensures LeaksCte(cat, c, true) <==> LeaksCte(cat, c, false) || !CleanCte(cat, c)
    decreases c
  {
    LeaksSplit(cat, c.body);
  }

  /** Without a fallback no query of the expanded tree, at any depth and in subqueries of
      expressions too, references a virtual column of its own, if and only if no subquery of
      an expression and no query with grouping sets referenced one before. */
  lemma {:induction false} ExpandPureIff(cat: Catalog, q: Query)
    requires ValidCatalog(cat) && !Expand(cat, q).1
    ensures Leaks(cat, Expand(cat, q).0, true) <==> Leaks(cat, q, false)
  {
    ExpandClean(cat, q);
    ExpandLeaks(cat, q);
    LeaksSplit(cat, Expand(cat, q).0);
  }

  // A catalog whose relation 7 computes column 2 from column 1, and a query that reads it.
  const ONE_VIRTUAL := Catalog((r: nat) => if r == 7 then map[2 := Op(0, [Var(1, 1, 0, false)])] else map[])
  const READER := Query([], [Relation(7)], Inner, [Var(1, 2, 0, false)], [], false, [], [], [])

  /** EXISTS over such a query, under any operator, comes out unexpanded, without a fallback. */
  lemma {:induction false} SubqueryIsMissed(fn: nat)
    ensures
      var q := Query([], [], Inner, [Op(fn, [SubLink(0, [], READER)])], [], false, [], [], []);
      Expand(ONE_VIRTUAL, q) == (q, false) && Leaks(ONE_VIRTUAL, q, false)
    ensures ValidCatalog(ONE_VIRTUAL) && AnyQuery(READER, 0, Own(ONE_VIRTUAL, READER), false)
  {
    assert Simple(Var(1, 1, 0, false), {2});
    assert NamesIn(Virtual(ONE_VIRTUAL, READER.rtable), 0, 1, READER.quals[0], 0);
    assert AnyExpr(READER.quals[0], 0, Own(ONE_VIRTUAL, READER), false);
    var e := Op(fn, [SubLink(0, [], READER)]);
    assert LeaksExpr(ONE_VIRTUAL, e.args[0]);
    assert LeaksAll(ONE_VIRTUAL, e.args);
    var q := Query([], [], Inner, [e], [], false, [], [], []);
    assert q.quals[0] == e && LeaksAll(ONE_VIRTUAL, q.quals);
  }

  // ----- why nullable references are not replaced -----

  // a LEFT JOIN b with b empty: the row of a, and NULLs for b
  const JOINED := Query([], [Relation(6), Relation(7)], Outer(0), [], [TargetEntry(Var(2, 1, 0, true), 0, false)], false, [], [], [])

  // Relation 7 computes its column as a constant.
  const CONSTANT := Catalog((r: nat) => if r == 7 then map[1 := Const(Datum(1))] else map[])

  // The replacement without the test for a nulling outer join.
  function Unguarded(rt: nat, cols: map<int, Expr>): VarFn {
    (v: Expr, d: nat) => if Names(v, d, rt, cols) then Lift(cols[v.attno], rt, d) else v
  }

  /** Replacing a nullable Var by an expression that is not NULL on NULLs changes the rows. */
  lemma {:induction false} NulledReplacementIsWrong(I: Interp, env: Env)
    requires I.table(6) == [[Datum(5)]] && I.table(7) == []
    requires forall bs, rows :: I.pick(0, bs, rows) == [0]
    ensures ValidCatalog(CONSTANT) && Blocked(CONSTANT, JOINED)
    ensures Rows(I, JOINED, env) == [[Null]]
    ensures Rows(I, MapQuery(JOINED, 0, Unguarded(2, CONSTANT.generated(7))), env) == [[Datum(1)]]
  {
    JoinedFrames(I, JOINED, env);
    var q := MapQuery(JOINED, 0, Unguarded(2, CONSTANT.generated(7)));
    assert q.rtable == JOINED.rtable;
    JoinedFrames(I, q, env);
    assert q.tlist[0].expr == Const(Datum(1));
    assert NamesIn(Virtual(CONSTANT, JOINED.rtable), 0, 2, JOINED.tlist[0].expr, 0);
    assert AnyTarget(JOINED.tlist[0], 0, OwnNulled(CONSTANT, JOINED), false);
  }

  lemma {:induction false} JoinedFrames(I: Interp, q: Query, env: Env)
    requires q.ctes == [] && q.rtable == JOINED.rtable && q.join == Outer(0) && !q.grouped && |q.tlist| == 1
    requires I.table(6) == [[Datum(5)]] && I.table(7) == []
    requires forall bs, rows :: I.pick(0, bs, rows) == [0]
    ensures
      var f := Frame(map[], [Slot([Datum(5)], [Datum(5)]), Slot(I.phantom(7), [])], []);
      Rows(I, q, env) == [[Eval(I, q.tlist[0].expr, [f] + env)]]
  {
    var a: Binding := [Slot([Datum(5)], [Datum(5)])];
    var b := Slot(I.phantom(7), []);
    var first := Product(I, [Relation(6)], true, map[], env);
    FirstOf(I, Relation(6), [[]], map[], env);
    assert [Relation(6)][..0] == [] && first == Extend(I, Relation(6), true, [[]], map[], env);
    assert first[0] == a;
    FirstOf(I, Relation(7), first, map[], env);
    var rs := q.rtable;
    assert |rs| == 2 && rs[1] == Relation(7) && rs[..1] == [Relation(6)];
    assert Product(I, rs, true, map[], env) == Extend(I, rs[1], true, Product(I, rs[..1], true, map[], env), map[], env);
    var fs := Combined(I, q, map[], env);
    assert fs[0] == Frame(map[], a + [b], []);
    var picked := [0];
    assert picked[1..] == [] && Picked(fs, picked) == [fs[0]] + Picked(fs, []);
    assert Selected(I, q, map[], env) == [fs[0]];
    assert Targets(I, q.tlist, [fs[0]] + env) == [Target(I, q.tlist[0], [fs[0]] + env)];
    assert TargetRows(I, q.tlist, [fs[0]], env) == [Targets(I, q.tlist, [fs[0]] + env)];
    assert CteTables(I, q.ctes, env) == map[] && Projected(I, q, map[], env) == [fs[0]];
    assert fs[0].rows == [Slot([Datum(5)], [Datum(5)]), Slot(I.phantom(7), [])];
  }

  // The first combination continues the first one with the first row of the next entry.
  lemma {:induction false} FirstOf(I: Interp, r: Rte, bs: seq<Binding>, ctes: map<nat, Table>, env: Env)
    requires bs != []
    ensures
      var all := Extend(I, r, true, bs, ctes, env);
      |all| > 0 && all[0] == bs[0] + [Slots(I, r, Source(I, r, [Frame(ctes, bs[0], [])] + env), true)[0]]
  {
  }
}
