/**
  Expanding virtual generated columns keeps the rows of every query, and without a
  fallback leaves no reference to a virtual column of the expanded queries.
 */
module VirtualColumnsMeaning {
  import opened Values
  import opened QueryTree
  import opened VarMap
  import opened VarMapMeaning
  import opened VirtualColumns

  // ----- rows come from their tables -----

  lemma {:induction false} ExtendMembers(I: Interp, r: Rte, outer: bool, bs: seq<Binding>, ctes: map<nat, Table>, env: Env, k: nat)
    returns (i: nat, s: Slot)
    requires k < |Extend(I, r, outer, bs, ctes, env)|
    ensures i < |bs| && Extend(I, r, outer, bs, ctes, env)[k] == bs[i] + [s]
    ensures s in Slots(I, r, Source(I, r, [Frame(ctes, bs[i], [])] + env), outer)
    decreases |bs|
  {
    var ss := Slots(I, r, Source(I, r, [Frame(ctes, bs[0], [])] + env), outer);
    if k < |ss| {
      i, s := 0, ss[k];
    } else {
      i, s := ExtendMembers(I, r, outer, bs[1..], ctes, env, k - |ss|);
      i := i + 1;
    }
  }

  // A relation's row is stored, or stands in for a missing one.
  lemma {:induction false} SlotStored(I: Interp, r: Rte, env: Env, outer: bool, s: Slot)
    requires r.Relation? && s in Slots(I, r, Source(I, r, env), outer)
    ensures s.base in RowSet(I, r.relid)
  {
  }

  lemma {:induction false} ProductMembers(I: Interp, rs: seq<Rte>, outer: bool, ctes: map<nat, Table>, env: Env, k: nat, i: nat)
    requires k < |Product(I, rs, outer, ctes, env)| && i < |rs| && rs[i].Relation?
    ensures
      var b := Product(I, rs, outer, ctes, env)[k];
      |b| == |rs| && b[i].base in RowSet(I, rs[i].relid)
  {
    var n := |rs| - 1;
    var bs := Product(I, rs[..n], outer, ctes, env);
    var a, s := ExtendMembers(I, rs[n], outer, bs, ctes, env, k);
    ProductWidth(I, rs[..n], outer, ctes, env, a);
    if i < n {
      ProductMembers(I, rs[..n], outer, ctes, env, a, i);
    } else {
      SlotStored(I, rs[n], [Frame(ctes, bs[a], [])] + env, outer, s);
    }
  }

  lemma {:induction false} ProductWidth(I: Interp, rs: seq<Rte>, outer: bool, ctes: map<nat, Table>, env: Env, k: nat)
    requires k < |Product(I, rs, outer, ctes, env)|
    ensures |Product(I, rs, outer, ctes, env)[k]| == |rs|
  {
    if rs != [] {
      var n := |rs| - 1;
      var a, s := ExtendMembers(I, rs[n], outer, Product(I, rs[..n], outer, ctes, env), ctes, env, k);
      ProductWidth(I, rs[..n], outer, ctes, env, a);
    }
  }

  lemma {:induction false} SomeFine(fs: seq<Frame>, some: seq<Frame>, env: Env, d: nat, c: Change, strict: bool)
    requires AllFine(fs, env, d, c, strict) && forall i :: 0 <= i < |some| ==> some[i] in fs
    ensures AllFine(some, env, d, c, strict)
  {
    forall i | 0 <= i < |some| ensures Fine([some[i]] + env, d, c, strict) {
      var j :| 0 <= j < |fs| && fs[j] == some[i];
    }
  }

  lemma {:induction false} MembersIn(keys: seq<Row>, bs: seq<Binding>, key: Row, k: nat)
    requires |keys| == |bs| && k < |Members(keys, bs, key)|
    ensures Members(keys, bs, key)[k] in bs
  {
    var here := if keys[0] == key then [bs[0]] else [];
    if k >= |here| {
      MembersIn(keys[1..], bs[1..], key, k - |here|);
      assert forall x :: x in bs[1..] ==> x in bs;
    }
  }

  lemma {:induction false} GroupsIn(keys: seq<Row>, bs: seq<Binding>, from: nat, k: nat)
    requires |keys| == |bs| && from <= |bs| && k < |GroupsFrom(keys, bs, from)|
    ensures GroupsFrom(keys, bs, from)[k].0 in bs
    ensures forall m :: 0 <= m < |GroupsFrom(keys, bs, from)[k].1| ==> GroupsFrom(keys, bs, from)[k].1[m] in bs
    decreases |bs| - from
  {
    var here := if keys[from] in keys[..from] then [] else [(bs[from], Members(keys, bs, keys[from]))];
    if k >= |here| {
      GroupsIn(keys, bs, from + 1, k - |here|);
    } else {
      var ms := Members(keys, bs, keys[from]);
      forall m | 0 <= m < |ms| ensures ms[m] in bs { MembersIn(keys, bs, keys[from], m); }
    }
  }

  // ----- the frames of a query whose entry `rt` is the changed relation -----

  predicate Owns(I: Interp, rs: seq<Rte>, c: Change) {
    0 < c.rt <= |rs| && rs[c.rt - 1].Relation? && c.rows == RowSet(I, rs[c.rt - 1].relid)
  }

  // Once the entry is among them, all combinations have a row of it.
  lemma {:induction false} ProductFine(I: Interp, rs: seq<Rte>, outer: bool, ctes: map<nat, Table>, env: Env, c: Change)
    requires Owns(I, rs, c)
    ensures AllFine(RowFrames(ctes, Product(I, rs, outer, ctes, env)), env, 0, c, true)
  {
    var bs := Product(I, rs, outer, ctes, env);
    var fs := RowFrames(ctes, bs);
    forall i | 0 <= i < |fs| ensures Fine([fs[i]] + env, 0, c, true) {
      ProductMembers(I, rs, outer, ctes, env, i, c.rt - 1);
      assert ([fs[i]] + env)[0] == fs[i];
    }
  }

  // A derived table sees the entries before it; so no entry from itself on.
  ghost predicate Backward(rs: seq<Rte>) {
    forall i, u: nat :: 0 <= i < |rs| && i < u ==> !AnyRte(rs[i], 0, Uses(u), true)
  }

  lemma {:induction false} KeepOwnProduct(I: Interp, rs: seq<Rte>, n: nat, outer: bool, ctes: map<nat, Table>, env: Env, c: Change)
    requires Faithful(I, c) && Owns(I, rs, c) && Backward(rs) && n <= |rs|
    ensures Product(I, MapRtes(rs, 0, c.f)[..n], outer, ctes, env) == Product(I, rs[..n], outer, ctes, env)
  {
    if n > 0 {
      KeepOwnProduct(I, rs, n - 1, outer, ctes, env, c);
      assert MapRtes(rs, 0, c.f)[..n][..n - 1] == MapRtes(rs, 0, c.f)[..n - 1] && rs[..n][..n - 1] == rs[..n - 1];
      var bs := Product(I, rs[..n - 1], outer, ctes, env);
      if c.rt <= n - 1 {
        ProductFine(I, rs[..n - 1], outer, ctes, env, c);
      } else {
        PlainFine(RowFrames(ctes, bs), env, c);
      }
      KeepExtend(I, rs[n - 1], outer, bs, ctes, env, 0, c, c.rt <= n - 1);
    }
  }

  lemma {:induction false} PlainFine(fs: seq<Frame>, env: Env, c: Change)
    requires forall i :: 0 <= i < |fs| ==> fs[i].group == []
    ensures AllFine(fs, env, 0, c, false)
  {
    forall i | 0 <= i < |fs| ensures Fine([fs[i]] + env, 0, c, false) { assert ([fs[i]] + env)[0] == fs[i]; }
  }

  predicate PlainAggregate(q: Query) { q.grouped && q.group == [] }

  lemma {:induction false} GroupFramesFine(I: Interp, q: Query, fs: seq<Frame>, ctes: map<nat, Table>, env: Env, c: Change)
    requires q.sets == [] && AllFine(fs, env, 0, c, true)
    ensures AllFine(GroupFrames(I, q, fs, ctes, env), env, 0, c, q.group != [])
  {
    var bs := Bindings(fs);
    assert forall i :: 0 <= i < |fs| ==> ([fs[i]] + env)[0] == fs[i];
    assert forall i :: 0 <= i < |bs| ==> Has(bs[i], c);
    var keys := Keys(I, q.tlist, q.group, fs, env);
    var gs := GroupsOf(I, q, keys, bs);
    var gf := GroupFrames(I, q, fs, ctes, env);
    if q.group != [] {
      forall k | 0 <= k < |gs| ensures Has(gs[k].0, c) && forall m :: 0 <= m < |gs[k].1| ==> Has(gs[k].1[m], c) {
        GroupsIn(keys, bs, 0, k);
      }
    }
    assert forall k :: 0 <= k < |gf| ==> ([gf[k]] + env)[0] == gf[k];
  }

  // Where SQL lets a query name its own entries: in a derived table only earlier ones, in a
  // CTE none, and in a query without GROUP BY only inside aggregates.
  ghost predicate Scoped(q: Query) {
    && Backward(q.rtable)
    && (forall u: nat :: !AnyCtes(q.ctes, 0, Uses(u), true))
    && (PlainAggregate(q) ==>
          forall u: nat :: !AnyTargets(q.tlist, 0, Uses(u), true) && !AnyAll(q.having, 0, Uses(u), true))
  }

  /** Replacing the virtual columns of one relation keeps the rows of the query that owns it. */
  lemma {:induction false} ReplaceKeepsRows(I: Interp, q: Query, env: Env, c: Change)
    requires Faithful(I, c) && Owns(I, q.rtable, c) && Scoped(q) && q.sets == []
    ensures Rows(I, MapQuery(q, 0, c.f), env) == Rows(I, q, env)
  {
    KeepCteTables(I, q.ctes, env, 0, c, false);
    var ctes := CteTables(I, q.ctes, env);
    ReplaceKeepsSelected(I, q, ctes, env, c);
    var fs := Selected(I, q, ctes, env);
    var strict := !PlainAggregate(q);
    if q.grouped {
      GroupFramesFine(I, q, fs, ctes, env, c);
      var gf := GroupFrames(I, q, fs, ctes, env);
      KeepProjected(I, q, ctes, env, 0, c, true, strict);
      SomeFine(gf, Filter(I, q.having, gf, env), env, 0, c, strict);
    }
    KeepTargetRows(I, q.tlist, Projected(I, q, ctes, env), env, 0, c, strict);
  }

  lemma {:induction false} ReplaceKeepsSelected(I: Interp, q: Query, ctes: map<nat, Table>, env: Env, c: Change)
    requires Faithful(I, c) && Owns(I, q.rtable, c) && Scoped(q)
    ensures Selected(I, MapQuery(q, 0, c.f), ctes, env) == Selected(I, q, ctes, env)
    ensures AllFine(Selected(I, q, ctes, env), env, 0, c, true)
  {
    var rs := q.rtable;
    KeepOwnProduct(I, rs, |rs|, q.join.Outer?, ctes, env, c);
    assert rs[..|rs|] == rs && MapRtes(rs, 0, c.f)[..|rs|] == MapRtes(rs, 0, c.f);
    ProductFine(I, rs, q.join.Outer?, ctes, env, c);
    KeepSelected(I, q, ctes, env, 0, c, true);
    SomeFine(Combined(I, q, ctes, env), Selected(I, q, ctes, env), env, 0, c, true);
  }

  // ----- replacing keeps queries scoped -----

  lemma {:induction false} LiftVars(g: Expr, virt: set<int>, rt: nat, d: nat, t: nat, p: VarPred, bare: bool)
    requires Simple(g, virt) && AnyExpr(Lift(g, rt, d), t, p, bare)
    ensures exists a :: a !in virt && p(Var(rt, a, d, false), t)
    decreases g
  {
    match g
    case Const(_) =>
    case Var(_, a, _, _) => assert a !in virt && p(Var(rt, a, d, false), t);
    case Op(_, args) =>
      var i :| 0 <= i < |args| && AnyExpr(LiftAll(args, rt, d)[i], t, p, bare);
      LiftVars(args[i], virt, rt, d, t, p, bare);
    case _ =>
  }

  // Columns of an entry come only from columns of the entry, seen from any level further out.
  lemma {:induction false} UseTraces(cat: Catalog, relid: nat, rt: nat, shift: nat, u: nat)
    requires ValidCatalog(cat)
    ensures Traces(Replacement(rt, cat.generated(relid)), Uses(u), Uses(u), shift, true)
  {
    var cols := cat.generated(relid);
    var f := Replacement(rt, cols);
    forall v: Expr, d: nat | v.Var? && AnyExpr(f(v, d), d + shift, Uses(u), true) ensures Uses(u)(v, d + shift) {
      if Names(v, d, rt, cols) && !v.nulled {
        LiftVars(cols[v.attno], cols.Keys, rt, d, d + shift, Uses(u), true);
      }
    }
  }

  lemma {:induction false} ReplaceScoped(cat: Catalog, q: Query, relid: nat, rt: nat)
    requires ValidCatalog(cat) && Scoped(q)
    ensures Scoped(MapQuery(q, 0, Replacement(rt, cat.generated(relid))))
  {
    var f := Replacement(rt, cat.generated(relid));
    forall i, u: nat | 0 <= i < |q.rtable| && i < u ensures !AnyRte(MapRte(q.rtable[i], 0, f), 0, Uses(u), true) {
      UseTraces(cat, relid, rt, 0, u);
      TraceRte(q.rtable[i], 0, f, Uses(u), Uses(u), 0, true);
    }
    forall u: nat ensures !AnyCtes(MapCtes(q.ctes, 0, f), 0, Uses(u), true) {
      UseTraces(cat, relid, rt, 0, u);
      TraceCtes(q.ctes, 0, f, Uses(u), Uses(u), 0, true);
    }
    if PlainAggregate(q) {
      forall u: nat
        ensures !AnyTargets(MapTargets(q.tlist, 0, f), 0, Uses(u), true) && !AnyAll(MapAll(q.having, 0, f), 0, Uses(u), true)
      {
        UseTraces(cat, relid, rt, 0, u);
        TraceTargets(q.tlist, 0, f, Uses(u), Uses(u), 0, true);
        TraceAll(q.having, 0, f, Uses(u), Uses(u), 0, true);
      }
    }
  }

  // ----- the loop over the range table -----

  lemma {:induction false} ExpandFromKeepsRows(I: Interp, cat: Catalog, q: Query, rt: nat, env: Env)
    requires ValidCatalog(cat) && Consistent(I, cat) && Scoped(q) && q.sets == [] && 1 <= rt <= |q.rtable| + 1
    ensures Rows(I, ExpandFrom(cat, q, rt).0, env) == Rows(I, q, env)
    decreases |q.rtable| + 1 - rt
  {
    if rt <= |q.rtable| {
      var cols := ColumnsOf(cat, q.rtable[rt - 1]);
      if cols == map[] {
        ExpandFromKeepsRows(I, cat, q, rt + 1, env);
      } else {
        var relid := q.rtable[rt - 1].relid;
        ReplacementFaithful(I, cat, relid, rt);
        ReplaceKeepsRows(I, q, env, ChangeFor(I, cat, relid, rt));
        ReplaceScoped(cat, q, relid, rt);
        ExpandFromKeepsRows(I, cat, MapQuery(q, 0, Replacement(rt, cols)), rt + 1, env);
      }
    }
  }

  // Seen from outside, the loop adds no reference to a column of an enclosing query.
  lemma {:induction false} ExpandFromScope(cat: Catalog, q: Query, rt: nat, k: nat, u: nat)
    requires ValidCatalog(cat) && 1 <= rt <= |q.rtable| + 1 && !AnyQuery(q, k, Uses(u), true)
    ensures !AnyQuery(ExpandFrom(cat, q, rt).0, k, Uses(u), true)
    decreases |q.rtable| + 1 - rt
  {
    if rt <= |q.rtable| {
      var cols := ColumnsOf(cat, q.rtable[rt - 1]);
      if cols == map[] {
        ExpandFromScope(cat, q, rt + 1, k, u);
      } else {
        UseTraces(cat, q.rtable[rt - 1].relid, rt, k, u);
        TraceQuery(q, 0, Replacement(rt, cols), Uses(u), Uses(u), k, true);
        ExpandFromScope(cat, MapQuery(q, 0, Replacement(rt, cols)), rt + 1, k, u);
      }
    }
  }

  // ----- whole queries -----

  ghost predicate DeepScoped(q: Query)
    decreases q
  {
    && Scoped(q)
    && (forall i :: 0 <= i < |q.rtable| ==> DeepScopedRte(q.rtable[i]))
    && (forall i :: 0 <= i < |q.ctes| ==> DeepScopedCte(q.ctes[i]))
  }

  ghost predicate DeepScopedRte(r: Rte)
    decreases r
  {
    r.Derived? ==> DeepScoped(r.sub)
  }

  ghost predicate DeepScopedCte(c: Cte)
    decreases c
  {
    DeepScoped(c.body)
  }

  lemma {:induction false} ExpandScope(cat: Catalog, q: Query, k: nat, u: nat)
    requires ValidCatalog(cat) && !AnyQuery(q, k, Uses(u), true)
    ensures !AnyQuery(Expand(cat, q).0, k, Uses(u), true)
    decreases q
  {
    ExpandRtesScope(cat, q.rtable, k, u);
    ExpandCtesScope(cat, q.ctes, k, u);
    var inner := q.(rtable := ExpandRtes(cat, q.rtable).0, ctes := ExpandCtes(cat, q.ctes).0);
    assert !AnyQuery(inner, k, Uses(u), true);
    if q.sets == [] { ExpandFromScope(cat, inner, 1, k, u); }
  }

  lemma {:induction false} ExpandRtesScope(cat: Catalog, rs: seq<Rte>, k: nat, u: nat)
    requires ValidCatalog(cat) && !AnyRtes(rs, k, Uses(u), true)
    ensures !AnyRtes(ExpandRtes(cat, rs).0, k, Uses(u), true)
    decreases rs
  {
    forall i | 0 <= i < |rs| ensures !AnyRte(ExpandRte(cat, rs[i]).0, k, Uses(u), true) {
      assert !AnyRte(rs[i], k, Uses(u), true);
      ExpandRteScope(cat, rs[i], k, u);
    }
  }

  lemma {:induction false} ExpandRteScope(cat: Catalog, r: Rte, k: nat, u: nat)
    requires ValidCatalog(cat) && !AnyRte(r, k, Uses(u), true)
    ensures !AnyRte(ExpandRte(cat, r).0, k, Uses(u), true)
    decreases r
  {
    if r.Derived? { ExpandScope(cat, r.sub, k + 1, u); }
  }

  lemma {:induction false} ExpandCtesScope(cat: Catalog, cs: seq<Cte>, k: nat, u: nat)
    requires ValidCatalog(cat) && !AnyCtes(cs, k, Uses(u), true)
    ensures !AnyCtes(ExpandCtes(cat, cs).0, k, Uses(u), true)
    decreases cs
  {
    forall i | 0 <= i < |cs| ensures !AnyCte(ExpandCte(cat, cs[i]).0, k, Uses(u), true) {
      assert !AnyCte(cs[i], k, Uses(u), true);
      ExpandCteScope(cat, cs[i], k, u);
    }
  }

  lemma {:induction false} ExpandCteScope(cat: Catalog, c: Cte, k: nat, u: nat)
    requires ValidCatalog(cat) && !AnyCte(c, k, Uses(u), true)
    ensures !AnyCte(ExpandCte(cat, c).0, k, Uses(u), true)
    decreases c
  {
    ExpandScope(cat, c.body, k + 1, u);
  }

  lemma {:induction false} InnerScoped(cat: Catalog, q: Query)
    requires ValidCatalog(cat) && Scoped(q)
    ensures Scoped(q.(rtable := ExpandRtes(cat, q.rtable).0, ctes := ExpandCtes(cat, q.ctes).0))
  {
    forall i, u: nat | 0 <= i < |q.rtable| && i < u ensures !AnyRte(ExpandRte(cat, q.rtable[i]).0, 0, Uses(u), true) {
      ExpandRteScope(cat, q.rtable[i], 0, u);
    }
    forall u: nat ensures !AnyCtes(ExpandCtes(cat, q.ctes).0, 0, Uses(u), true) {
      ExpandCtesScope(cat, q.ctes, 0, u);
    }
  }

  /** The whole expansion keeps the rows, at every depth of derived tables and CTEs. */
  lemma {:induction false} ExpandKeepsRows(I: Interp, cat: Catalog, q: Query, env: Env)
    requires ValidCatalog(cat) && Consistent(I, cat) && DeepScoped(q)
    ensures Rows(I, Expand(cat, q).0, env) == Rows(I, q, env)
    decreases q
  {
    var inner := q.(rtable := ExpandRtes(cat, q.rtable).0, ctes := ExpandCtes(cat, q.ctes).0);
    ExpandCtesRows(I, cat, q.ctes, env);
    var ctes := CteTables(I, q.ctes, env);
    ExpandProduct(I, cat, q.rtable, q.join.Outer?, ctes, env);
    assert Selected(I, inner, ctes, env) == Selected(I, q, ctes, env);
    assert Rows(I, inner, env) == Rows(I, q, env);
    if q.sets == [] {
      InnerScoped(cat, q);
      ExpandFromKeepsRows(I, cat, inner, 1, env);
    }
  }

  lemma {:induction false} ExpandSource(I: Interp, cat: Catalog, r: Rte, env: Env)
    requires ValidCatalog(cat) && Consistent(I, cat) && DeepScopedRte(r)
    ensures Source(I, ExpandRte(cat, r).0, env) == Source(I, r, env)
    decreases r, 0
  {
    if r.Derived? { ExpandKeepsRows(I, cat, r.sub, env); }
  }

  lemma {:induction false} ExpandExtend(I: Interp, cat: Catalog, r: Rte, outer: bool, bs: seq<Binding>, ctes: map<nat, Table>, env: Env)
    requires ValidCatalog(cat) && Consistent(I, cat) && DeepScopedRte(r)
    ensures Extend(I, ExpandRte(cat, r).0, outer, bs, ctes, env) == Extend(I, r, outer, bs, ctes, env)
    decreases r, 1, |bs|
  {
    if bs != [] {
      ExpandSource(I, cat, r, [Frame(ctes, bs[0], [])] + env);
      ExpandExtend(I, cat, r, outer, bs[1..], ctes, env);
    }
  }

  lemma {:induction false} ExpandProduct(I: Interp, cat: Catalog, rs: seq<Rte>, outer: bool, ctes: map<nat, Table>, env: Env)
    requires ValidCatalog(cat) && Consistent(I, cat) && forall i :: 0 <= i < |rs| ==> DeepScopedRte(rs[i])
    ensures Product(I, ExpandRtes(cat, rs).0, outer, ctes, env) == Product(I, rs, outer, ctes, env)
    decreases rs
  {
    if rs != [] {
      var n := |rs| - 1;
      ExpandProduct(I, cat, rs[..n], outer, ctes, env);
      assert ExpandRtes(cat, rs).0[..n] == ExpandRtes(cat, rs[..n]).0;
      ExpandExtend(I, cat, rs[n], outer, Product(I, rs[..n], outer, ctes, env), ctes, env);
    }
  }

  lemma {:induction false} ExpandCteRows(I: Interp, cat: Catalog, c: Cte, env: Env)
    requires ValidCatalog(cat) && Consistent(I, cat) && DeepScopedCte(c)
    ensures CteTable(I, ExpandCte(cat, c).0, env) == CteTable(I, c, env)
    decreases c
  {
    ExpandKeepsRows(I, cat, c.body, env);
  }

  lemma {:induction false} ExpandCtesRows(I: Interp, cat: Catalog, cs: seq<Cte>, env: Env)
    requires ValidCatalog(cat) && Consistent(I, cat) && forall i :: 0 <= i < |cs| ==> DeepScopedCte(cs[i])
    ensures CteTables(I, ExpandCtes(cat, cs).0, env) == CteTables(I, cs, env)
    decreases cs
  {
    if cs != [] {
      var n := |cs| - 1;
      ExpandCtesRows(I, cat, cs[..n], env);
      assert ExpandCtes(cat, cs).0[..n] == ExpandCtes(cat, cs[..n]).0;
      ExpandCteRows(I, cat, cs[n], [Frame(CteTables(I, cs[..n], env), [], [])] + env);
    }
  }
}
