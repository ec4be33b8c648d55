/**
  ConvertToDerivedTable (gpopt/translate/CQueryMutators.cpp): the two passes over the
  moved query together, and the meaning of the pair of queries they leave.
 */
module DerivedTable {
  import opened Values
  import opened QueryTree
  import opened LevelShift

  // One pass over the query that moves down. Its own CTEs have been taken away and its
  // target list is visited only on request.
  function TopPass(q: Query, fix: Fix, fixTargets: bool): Query {
    q.(rtable := ShiftRtes(q.rtable, 0, 0, fix), quals := ShiftAll(q.quals, 0, 0, fix),
       tlist := if fixTargets then ShiftTargets(q.tlist, 0, 0, fix) else q.tlist,
       having := ShiftAll(q.having, 0, 0, fix))
  }

  function LowerQuery(q: Query, fixTargets: bool, fixHaving: bool): Query {
    var bare := q.(ctes := [], having := if fixHaving then q.having else []);
    var moved := TopPass(TopPass(bare, INCR_VARS, fixTargets), FIX_CTES, fixTargets);
    if fixHaving then moved else moved.(having := q.having)
  }

  /** The upper query: one derived table, the original CTEs, no target list yet. */
  function ConvertToDerivedTable(q: Query, fixTargets: bool, fixHaving: bool): Query {
    Query(q.ctes, [Derived(LowerQuery(q, fixTargets, fixHaving))], Inner, [], [], false, [], [], [])
  }

  // ----- aggregates of an outer query, whose level the passes leave alone -----

  predicate NoOuterAgg(e: Expr, d: nat)
    decreases e
  {
    match e
    case Const(_) => true
    case Var(_, _, _, _) => true
    case Op(_, args) => NoOuterAggs(args, d)
    case Agg(_, args, l) => l <= d && NoOuterAggs(args, d)
    case SubLink(_, test, sub) => NoOuterAggs(test, d) && NoOuterAggsIn(sub, d + 1)
  }

  predicate NoOuterAggs(es: seq<Expr>, d: nat)
    decreases es
  {
    forall i :: 0 <= i < |es| ==> NoOuterAgg(es[i], d)
  }

  predicate NoOuterAggTarget(te: TargetEntry, d: nat)
    decreases te
  {
    NoOuterAgg(te.expr, d)
  }

  predicate NoOuterAggTargets(tl: seq<TargetEntry>, d: nat)
    decreases tl
  {
    forall i :: 0 <= i < |tl| ==> NoOuterAggTarget(tl[i], d)
  }

  predicate NoOuterAggRte(r: Rte, d: nat)
    decreases r
  {
    r.Derived? ==> NoOuterAggsIn(r.sub, d + 1)
  }

  predicate NoOuterAggRtes(rs: seq<Rte>, d: nat)
    decreases rs
  {
    forall i :: 0 <= i < |rs| ==> NoOuterAggRte(rs[i], d)
  }

  predicate NoOuterAggCte(c: Cte, d: nat)
    decreases c
  {
    NoOuterAggsIn(c.body, d + 1)
  }

  predicate NoOuterAggCtes(cs: seq<Cte>, d: nat)
    decreases cs
  {
    forall i :: 0 <= i < |cs| ==> NoOuterAggCte(cs[i], d)
  }

  predicate NoOuterAggsIn(q: Query, d: nat)
    decreases q
  {
    && NoOuterAggCtes(q.ctes, d) && NoOuterAggRtes(q.rtable, d) && NoOuterAggs(q.quals, d)
    && NoOuterAggTargets(q.tlist, d) && NoOuterAggs(q.having, d)
  }

  // ----- the passes compose, and make the full shift exactly without outer aggregates -----

  lemma {:induction false} PassesExpr(e: Expr, d: nat)
    ensures ShiftExpr(ShiftExpr(e, d, 0, INCR_VARS), d, 0, FIX_CTES) == ShiftExpr(e, d, 0, BOTH_PASSES)
    ensures ShiftExpr(e, d, 0, BOTH_PASSES) == ShiftExpr(e, d, 0, FULL_SHIFT) <==> NoOuterAgg(e, d)
    decreases e, 1
  {
    match e
    case Const(_) =>
    case Var(_, _, _, _) =>
    case Op(_, args) => PassesAll(args, d);
    case Agg(_, args, _) => PassesAll(args, d);
    case SubLink(_, _, _) => PassesSubLink(e, d);
  }

  lemma {:induction false} PassesSubLink(e: Expr, d: nat)
    requires e.SubLink?
    ensures ShiftExpr(ShiftExpr(e, d, 0, INCR_VARS), d, 0, FIX_CTES) == ShiftExpr(e, d, 0, BOTH_PASSES)
    ensures ShiftExpr(e, d, 0, BOTH_PASSES) == ShiftExpr(e, d, 0, FULL_SHIFT) <==> NoOuterAgg(e, d)
    decreases e, 0
  {
    PassesAll(e.test, d);
    PassesQuery(e.sub, d + 1);
  }

  lemma {:induction false} PassesAll(es: seq<Expr>, d: nat)
    ensures ShiftAll(ShiftAll(es, d, 0, INCR_VARS), d, 0, FIX_CTES) == ShiftAll(es, d, 0, BOTH_PASSES)
    ensures ShiftAll(es, d, 0, BOTH_PASSES) == ShiftAll(es, d, 0, FULL_SHIFT) <==> NoOuterAggs(es, d)
    decreases es
  {
    forall i | 0 <= i < |es|
      ensures ShiftExpr(ShiftExpr(es[i], d, 0, INCR_VARS), d, 0, FIX_CTES) == ShiftExpr(es[i], d, 0, BOTH_PASSES)
      ensures ShiftExpr(es[i], d, 0, BOTH_PASSES) == ShiftExpr(es[i], d, 0, FULL_SHIFT) <==> NoOuterAgg(es[i], d)
    {
      PassesExpr(es[i], d);
    }
    var b, f := ShiftAll(es, d, 0, BOTH_PASSES), ShiftAll(es, d, 0, FULL_SHIFT);
    assert b == f <==> forall i :: 0 <= i < |es| ==> b[i] == f[i];
  }

  lemma {:induction false} PassesTarget(te: TargetEntry, d: nat)
    ensures ShiftTarget(ShiftTarget(te, d, 0, INCR_VARS), d, 0, FIX_CTES) == ShiftTarget(te, d, 0, BOTH_PASSES)
    ensures ShiftTarget(te, d, 0, BOTH_PASSES) == ShiftTarget(te, d, 0, FULL_SHIFT) <==> NoOuterAggTarget(te, d)
    decreases te
  {
    PassesExpr(te.expr, d);
  }

  lemma {:induction false} PassesTargets(tl: seq<TargetEntry>, d: nat)
    ensures ShiftTargets(ShiftTargets(tl, d, 0, INCR_VARS), d, 0, FIX_CTES) == ShiftTargets(tl, d, 0, BOTH_PASSES)
    ensures ShiftTargets(tl, d, 0, BOTH_PASSES) == ShiftTargets(tl, d, 0, FULL_SHIFT) <==> NoOuterAggTargets(tl, d)
    decreases tl
  {
    forall i | 0 <= i < |tl|
      ensures ShiftTarget(ShiftTarget(tl[i], d, 0, INCR_VARS), d, 0, FIX_CTES) == ShiftTarget(tl[i], d, 0, BOTH_PASSES)
      ensures ShiftTarget(tl[i], d, 0, BOTH_PASSES) == ShiftTarget(tl[i], d, 0, FULL_SHIFT) <==> NoOuterAggTarget(tl[i], d)
    {
      PassesTarget(tl[i], d);
    }
    var b, f := ShiftTargets(tl, d, 0, BOTH_PASSES), ShiftTargets(tl, d, 0, FULL_SHIFT);
    assert b == f <==> forall i :: 0 <= i < |tl| ==> b[i] == f[i];
  }

  lemma {:induction false} PassesRte(r: Rte, d: nat)
    ensures ShiftRte(ShiftRte(r, d, 0, INCR_VARS), d, 0, FIX_CTES) == ShiftRte(r, d, 0, BOTH_PASSES)
    ensures ShiftRte(r, d, 0, BOTH_PASSES) == ShiftRte(r, d, 0, FULL_SHIFT) <==> NoOuterAggRte(r, d)
    decreases r
  {
    if r.Derived? { PassesQuery(r.sub, d + 1); }
  }

  lemma {:induction false} PassesRtes(rs: seq<Rte>, d: nat)
    ensures ShiftRtes(ShiftRtes(rs, d, 0, INCR_VARS), d, 0, FIX_CTES) == ShiftRtes(rs, d, 0, BOTH_PASSES)
    ensures ShiftRtes(rs, d, 0, BOTH_PASSES) == ShiftRtes(rs, d, 0, FULL_SHIFT) <==> NoOuterAggRtes(rs, d)
    decreases rs
  {
    forall i | 0 <= i < |rs|
      ensures ShiftRte(ShiftRte(rs[i], d, 0, INCR_VARS), d, 0, FIX_CTES) == ShiftRte(rs[i], d, 0, BOTH_PASSES)
      ensures ShiftRte(rs[i], d, 0, BOTH_PASSES) == ShiftRte(rs[i], d, 0, FULL_SHIFT) <==> NoOuterAggRte(rs[i], d)
    {
      PassesRte(rs[i], d);
    }
    var b, f := ShiftRtes(rs, d, 0, BOTH_PASSES), ShiftRtes(rs, d, 0, FULL_SHIFT);
    assert b == f <==> forall i :: 0 <= i < |rs| ==> b[i] == f[i];
  }

  lemma {:induction false} PassesCte(c: Cte, d: nat)
    ensures ShiftCte(ShiftCte(c, d, 0, INCR_VARS), d, 0, FIX_CTES) == ShiftCte(c, d, 0, BOTH_PASSES)
    ensures ShiftCte(c, d, 0, BOTH_PASSES) == ShiftCte(c, d, 0, FULL_SHIFT) <==> NoOuterAggCte(c, d)
    decreases c
  {
    PassesQuery(c.body, d + 1);
  }

  lemma {:induction false} PassesCtes(cs: seq<Cte>, d: nat)
    ensures ShiftCtes(ShiftCtes(cs, d, 0, INCR_VARS), d, 0, FIX_CTES) == ShiftCtes(cs, d, 0, BOTH_PASSES)
    ensures ShiftCtes(cs, d, 0, BOTH_PASSES) == ShiftCtes(cs, d, 0, FULL_SHIFT) <==> NoOuterAggCtes(cs, d)
    decreases cs
  {
    forall i | 0 <= i < |cs|
      ensures ShiftCte(ShiftCte(cs[i], d, 0, INCR_VARS), d, 0, FIX_CTES) == ShiftCte(cs[i], d, 0, BOTH_PASSES)
      ensures ShiftCte(cs[i], d, 0, BOTH_PASSES) == ShiftCte(cs[i], d, 0, FULL_SHIFT) <==> NoOuterAggCte(cs[i], d)
    {
      PassesCte(cs[i], d);
    }
    var b, f := ShiftCtes(cs, d, 0, BOTH_PASSES), ShiftCtes(cs, d, 0, FULL_SHIFT);
    assert b == f <==> forall i :: 0 <= i < |cs| ==> b[i] == f[i];
  }

  lemma {:induction false} PassesQuery(q: Query, d: nat)
    ensures ShiftQuery(ShiftQuery(q, d, 0, INCR_VARS), d, 0, FIX_CTES) == ShiftQuery(q, d, 0, BOTH_PASSES)
    ensures ShiftQuery(q, d, 0, BOTH_PASSES) == ShiftQuery(q, d, 0, FULL_SHIFT) <==> NoOuterAggsIn(q, d)
    decreases q
  {
    PassesCtes(q.ctes, d);
    PassesRtes(q.rtable, d);
    PassesAll(q.quals, d);
    PassesTargets(q.tlist, d);
    PassesAll(q.having, d);
  }

  // The part of the query that the flags let the passes visit.
  function Visited(q: Query, fixTargets: bool, fixHaving: bool): Query {
    q.(ctes := [], tlist := if fixTargets then q.tlist else [], having := if fixHaving then q.having else [])
  }

  // That part shifted for one inserted scope, and the rest as it was.
  function ShiftedPart(q: Query, fixTargets: bool, fixHaving: bool): Query {
    var moved := ShiftQuery(Visited(q, fixTargets, fixHaving), 0, 0, FULL_SHIFT);
    moved.(tlist := if fixTargets then moved.tlist else q.tlist, having := if fixHaving then moved.having else q.having)
  }

  /** For all flags, the two passes do exactly the shift of what they visit and leave the rest
      alone, iff no aggregate of the visited part belongs to an outer query. */
  lemma {:induction false} LowerIsShiftedIff(q: Query, fixTargets: bool, fixHaving: bool)
    ensures LowerQuery(q, fixTargets, fixHaving) == ShiftedPart(q, fixTargets, fixHaving)
       <==> NoOuterAggsIn(Visited(q, fixTargets, fixHaving), 0)
    ensures ConvertToDerivedTable(q, fixTargets, fixHaving)
         == Query(q.ctes, [Derived(ShiftedPart(q, fixTargets, fixHaving))], Inner, [], [], false, [], [], [])
       <==> NoOuterAggsIn(Visited(q, fixTargets, fixHaving), 0)
  {
    var part := Visited(q, fixTargets, fixHaving);
    PassesQuery(part, 0);
    var twice := ShiftQuery(ShiftQuery(part, 0, 0, INCR_VARS), 0, 0, FIX_CTES);
    var low, right := LowerQuery(q, fixTargets, fixHaving), ShiftedPart(q, fixTargets, fixHaving);
    assert low == twice.(tlist := if fixTargets then twice.tlist else q.tlist, having := if fixHaving then twice.having else q.having);
    var moved := ShiftQuery(part, 0, 0, FULL_SHIFT);
    assert twice == moved <==> twice.rtable == moved.rtable && twice.quals == moved.quals && twice.tlist == moved.tlist && twice.having == moved.having;
    assert low == right <==> low.rtable == right.rtable && low.quals == right.quals && low.tlist == right.tlist && low.having == right.having;
  }

  // ----- meaning -----

  // The environment in which the upper query evaluates its derived table.
  function UpperEnv(I: Interp, q: Query, env: Env): Env {
    [Frame(CteTables(I, q.ctes, env), [], [])] + env
  }

  /** The moved query keeps its rows, in every environment; the CTE bodies need no change. */
  lemma {:induction false} LowerMeaning(I: Interp, q: Query, env: Env)
    requires NoOuterAggsIn(q.(ctes := []), 0)
    ensures Rows(I, LowerQuery(q, true, true), UpperEnv(I, q, env)) == Rows(I, q, env)
  {
    LowerIsShiftedIff(q, true, true);
    var ctes := CteTables(I, q.ctes, env);
    var bare := q.(ctes := []);
    ProjectedShift(I, bare, ctes, env, 0, 0);
    assert Combined(I, bare, ctes, env) == Combined(I, q, ctes, env);
    assert Projected(I, bare, ctes, env) == Projected(I, q, ctes, env);
    TargetRowsShift(I, q.tlist, Projected(I, q, ctes, env), ctes, env, 0, 0);
  }

  // A target list that passes on the first `n` columns of the only range-table entry.
  function Columns(n: nat): (tl: seq<TargetEntry>)
    ensures |tl| == n
    ensures forall i :: 0 <= i < n ==> tl[i] == TargetEntry(Var(1, i + 1, 0, false), 0, false)
  {
    seq(n, i => TargetEntry(Var(1, i + 1, 0, false), 0, false))
  }

  lemma {:induction false} KeptAll(fs: seq<Frame>, vs: seq<bool>)
    requires |fs| == |vs| && forall i :: 0 <= i < |vs| ==> vs[i]
    ensures Kept(fs, vs) == fs
  {
    if fs != [] { KeptAll(fs[1..], vs[1..]); }
  }

  // The rows of a FROM list with one entry.
  lemma {:induction false} OneEntry(I: Interp, r: Rte, ctes: map<nat, Table>, env: Env)
    ensures Product(I, [r], false, ctes, env) == Each([], Matched(Source(I, r, [Frame(ctes, [], [])] + env)))
  {
    var none: seq<Binding> := [[]];
    assert [r][..0] == [];
    assert none[1..] == [] && Extend(I, r, false, [], ctes, env) == [];
    assert Extend(I, r, false, none, ctes, env)
        == Each([], Slots(I, r, Source(I, r, [Frame(ctes, none[0], [])] + env), false)) + Extend(I, r, false, none[1..], ctes, env);
  }

  lemma {:induction false} SelectedFrom(I: Interp, q: Query, r: Rte, ctes: map<nat, Table>, env: Env)
    requires q.rtable == [r] && q.join == Inner && q.quals == []
    ensures var t := Source(I, r, [Frame(ctes, [], [])] + env);
            var fs := Selected(I, q, ctes, env);
            |fs| == |t| && forall i :: 0 <= i < |t| ==> fs[i] == Frame(ctes, [Slot(t[i], t[i])], [])
  {
    OneEntry(I, r, ctes, env);
    var fs := Combined(I, q, ctes, env);
    KeptAll(fs, Verdicts(I, [], fs, env));
    assert Selected(I, q, ctes, env) == fs;
  }

  // The frames of a query that only reads one derived table: one per row of it.
  lemma {:induction false} UpperFrames(I: Interp, u: Query, sub: Query, ctes: map<nat, Table>, env: Env)
    requires u.rtable == [Derived(sub)] && u.join == Inner && u.quals == [] && !u.grouped
    ensures var t := Rows(I, sub, [Frame(ctes, [], [])] + env);
            var fs := Projected(I, u, ctes, env);
            |fs| == |t| && forall i :: 0 <= i < |t| ==> fs[i] == Frame(ctes, [Slot(t[i], t[i])], [])
  {
    SelectedFrom(I, u, u.rtable[0], ctes, env);
  }

  /** The upper query over all columns yields the rows of the original. */
  lemma {:induction false} WrapMeaning(I: Interp, q: Query, env: Env)
    requires NoOuterAggsIn(q.(ctes := []), 0)
    ensures Rows(I, ConvertToDerivedTable(q, true, true).(tlist := Columns(|q.tlist|)), env) == Rows(I, q, env)
  {
    var u := ConvertToDerivedTable(q, true, true).(tlist := Columns(|q.tlist|));
    var ctes := CteTables(I, q.ctes, env);
    var t := Rows(I, q, env);
    LowerMeaning(I, q, env);
    UpperFrames(I, u, LowerQuery(q, true, true), ctes, env);
    var fs := Projected(I, u, ctes, env);
    forall i | 0 <= i < |t| ensures Targets(I, u.tlist, [fs[i]] + env) == t[i] {
      assert |t[i]| == |q.tlist|;
      forall j | 0 <= j < |t[i]| ensures Target(I, u.tlist[j], [fs[i]] + env) == t[i][j] {
        assert ([fs[i]] + env)[0] == fs[i];
      }
    }
  }

  // ----- an outer aggregate is moved out of reach -----

  function OuterCount(): Query {
    Query([], [], Inner, [], [TargetEntry(Agg(0, [], 1), 0, false)], false, [], [], [])
  }

  // A query without a FROM list has one empty row.
  lemma {:induction false} NoFrom(I: Interp, q: Query, env: Env)
    requires q.rtable == [] && q.join == Inner && q.ctes == [] && q.quals == [] && !q.grouped
    ensures Projected(I, q, map[], env) == [Frame(map[], [], [])]
  {
    var fs := Combined(I, q, map[], env);
    assert Product(I, q.rtable, false, map[], env) == [[]];
    assert fs == [Frame(map[], [], [])];
    KeptAll(fs, Verdicts(I, [], fs, env));
    assert Selected(I, q, map[], env) == fs;
  }

  lemma {:induction false} CountOf(I: Interp, env: Env)
    requires forall fn, rows :: I.agg(fn, rows) == Datum(|rows|)
    requires env != []
    ensures Rows(I, OuterCount(), env)
            == [[Datum(|AggInputs(I, [], 1, [Frame(map[], [], [])] + env, env[0].group)|)]]
  {
    var q := OuterCount();
    NoFrom(I, q, env);
    var f := Frame(map[], [], []);
    assert CteTables(I, q.ctes, env) == map[];
    assert ([f] + env)[1] == env[0];
    assert Target(I, q.tlist[0], [f] + env) == Datum(|AggInputs(I, [], 1, [f] + env, env[0].group)|);
    assert Targets(I, q.tlist, [f] + env) == [Target(I, q.tlist[0], [f] + env)];
    assert TargetRows(I, q.tlist, [f], env) == [Targets(I, q.tlist, [f] + env)];
  }

  // The aggregate counts the group of the enclosing query; once wrapped it counts the
  // group of the inserted one, which has none.
  lemma {:induction false} OuterAggregateIsLost(I: Interp, env: Env)
    requires forall fn, rows :: I.agg(fn, rows) == Datum(|rows|)
    requires env == [Frame(map[], [], [[]])]
    ensures Rows(I, OuterCount(), env) == [[Datum(1)]]
    ensures Rows(I, ConvertToDerivedTable(OuterCount(), true, true).(tlist := Columns(1)), env) == [[Datum(0)]]
  {
    var q := OuterCount();
    CountOf(I, env);
    assert AggInputs(I, [], 1, [Frame(map[], [], [])] + env, env[0].group) == [[]] by { assert env[0].group[1..] == []; }
    var low := LowerQuery(q, true, true);
    assert low == q;
    CountOf(I, [Frame(map[], [], [])] + env);
    var u := ConvertToDerivedTable(q, true, true).(tlist := Columns(1));
    UpperFrames(I, u, low, map[], env);
    var fs := Projected(I, u, map[], env);
    assert fs == [Frame(map[], [Slot([Datum(0)], [Datum(0)])], [])];
    assert Target(I, u.tlist[0], [fs[0]] + env) == Datum(0);
  }
}
