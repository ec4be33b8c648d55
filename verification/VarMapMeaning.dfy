/**
  When replacing Vars keeps the meaning of a query.

  A replacement may change the Vars of one range-table entry `rt`, and must have the
  same value as the Var wherever that entry's row, before any outer join, is one of `rows`.
 */
module VarMapMeaning {
  import opened Values
  import opened QueryTree
  import opened VarMap

  datatype Change = Change(f: VarFn, rt: nat, rows: set<Row>)

  predicate Has(b: Binding, c: Change) { RowOf(b, c.rt).base in c.rows }

  // The entry's row at level `d` is one of the rows of the change.
  predicate RowFine(env: Env, d: nat, c: Change)
    requires d < |env|
  {
    Has(env[d].rows, c)
  }

  predicate Fine(env: Env, d: nat, c: Change, strict: bool) {
    && d < |env| && (strict ==> RowFine(env, d, c))
    && forall i :: 0 <= i < |env[d].group| ==> Has(env[d].group[i], c)
  }

  // A Var of one range-table entry of the outermost query.
  function Uses(rt: nat): VarPred { (v: Expr, d: nat) => v.Var? && v.level == d && v.varno == rt }

  // f changes only Vars of the entry, to expressions of the same value.
  ghost predicate Faithful(I: Interp, c: Change) {
    && (forall v: Expr, d: nat :: v.Var? && !Uses(c.rt)(v, d) ==> c.f(v, d) == v)
    && (forall v: Expr, d: nat, env: Env ::
          v.Var? && d < |env| && RowFine(env, d, c) ==> Eval(I, c.f(v, d), env) == Eval(I, v, env))
  }

  lemma {:induction false} FinePush(g: Frame, env: Env, d: nat, c: Change, strict: bool)
    requires Fine(env, d, c, strict)
    ensures Fine([g] + env, d + 1, c, strict)
  {
    assert ([g] + env)[d + 1] == env[d];
  }

  lemma {:induction false} KeepExpr(I: Interp, e: Expr, env: Env, d: nat, c: Change, strict: bool)
    requires Faithful(I, c) && Fine(env, d, c, strict) && (strict || !AnyExpr(e, d, Uses(c.rt), true))
    ensures Eval(I, MapExpr(e, d, c.f), env) == Eval(I, e, env)
    decreases e
  {
    match e
    case Const(_) =>
    case Var(_, _, l, _) =>
      if !strict { assert !Uses(c.rt)(e, d); }
    case Op(_, args) => KeepAll(I, args, env, d, c, strict);
    case Agg(_, args, l) =>
      if l < |env| { KeepAggInputs(I, args, l, env, env[l].group, d, c, strict); }
    case SubLink(_, test, sub) =>
      KeepAll(I, test, env, d, c, strict);
      KeepQuery(I, sub, env, d, c, strict);
  }

  lemma {:induction false} KeepAll(I: Interp, es: seq<Expr>, env: Env, d: nat, c: Change, strict: bool)
    requires Faithful(I, c) && Fine(env, d, c, strict) && (strict || !AnyAll(es, d, Uses(c.rt), true))
    ensures EvalAll(I, MapAll(es, d, c.f), env) == EvalAll(I, es, env)
    decreases es, 0
  {
    forall i | 0 <= i < |es| ensures Eval(I, MapExpr(es[i], d, c.f), env) == Eval(I, es[i], env) {
      KeepExpr(I, es[i], env, d, c, strict);
    }
  }

  lemma {:induction false} KeepAggInputs(I: Interp, es: seq<Expr>, l: nat, env: Env, ms: seq<Binding>, d: nat, c: Change, strict: bool)
    requires Faithful(I, c) && Fine(env, d, c, strict) && l < |env| && (l == d || strict || !AnyAll(es, d, Uses(c.rt), true))
    requires l == d ==> forall i :: 0 <= i < |ms| ==> Has(ms[i], c)
    ensures AggInputs(I, MapAll(es, d, c.f), l, env, ms) == AggInputs(I, es, l, env, ms)
    decreases es, 1, |ms|
  {
    if ms != [] {
      KeepAll(I, es, env[l := env[l].(rows := ms[0])], d, c, strict || l == d);
      KeepAggInputs(I, es, l, env, ms[1..], d, c, strict);
    }
  }

  lemma {:induction false} KeepTarget(I: Interp, te: TargetEntry, env: Env, d: nat, c: Change, strict: bool)
    requires Faithful(I, c) && Fine(env, d, c, strict) && (strict || !AnyTarget(te, d, Uses(c.rt), true))
    ensures Target(I, MapTarget(te, d, c.f), env) == Target(I, te, env)
    decreases te
  {
    KeepExpr(I, te.expr, env, d, c, strict);
  }

  lemma {:induction false} KeepTargets(I: Interp, tl: seq<TargetEntry>, env: Env, d: nat, c: Change, strict: bool)
    requires Faithful(I, c) && Fine(env, d, c, strict) && (strict || !AnyTargets(tl, d, Uses(c.rt), true))
    ensures Targets(I, MapTargets(tl, d, c.f), env) == Targets(I, tl, env)
    decreases tl, 0
  {
    forall i | 0 <= i < |tl| ensures Target(I, MapTarget(tl[i], d, c.f), env) == Target(I, tl[i], env) {
      KeepTarget(I, tl[i], env, d, c, strict);
    }
  }

  // All frames of a query at depth `d` are fine.
  predicate AllFine(fs: seq<Frame>, env: Env, d: nat, c: Change, strict: bool) {
    forall i :: 0 <= i < |fs| ==> Fine([fs[i]] + env, d, c, strict)
  }

  lemma {:induction false} KeepTargetRows(I: Interp, tl: seq<TargetEntry>, fs: seq<Frame>, env: Env, d: nat, c: Change, strict: bool)
    requires Faithful(I, c) && AllFine(fs, env, d, c, strict) && (strict || !AnyTargets(tl, d, Uses(c.rt), true))
    ensures TargetRows(I, MapTargets(tl, d, c.f), fs, env) == TargetRows(I, tl, fs, env)
    decreases tl, 1
  {
    forall i | 0 <= i < |fs| ensures Targets(I, MapTargets(tl, d, c.f), [fs[i]] + env) == Targets(I, tl, [fs[i]] + env) {
      KeepTargets(I, tl, [fs[i]] + env, d, c, strict);
    }
  }

  lemma {:induction false} KeepRefValue(I: Interp, tl: seq<TargetEntry>, ref: nat, env: Env, d: nat, c: Change, strict: bool)
    requires Faithful(I, c) && Fine(env, d, c, strict) && (strict || !AnyTargets(tl, d, Uses(c.rt), true))
    ensures RefValue(I, MapTargets(tl, d, c.f), ref, env) == RefValue(I, tl, ref, env)
    decreases tl, 0
  {
    if tl != [] {
      KeepTarget(I, tl[0], env, d, c, strict);
      assert AnyTargets(tl[1..], d, Uses(c.rt), true) ==> AnyTargets(tl, d, Uses(c.rt), true) by {
        if AnyTargets(tl[1..], d, Uses(c.rt), true) {
          var i :| 0 <= i < |tl[1..]| && AnyTarget(tl[1..][i], d, Uses(c.rt), true);
          assert AnyTarget(tl[i + 1], d, Uses(c.rt), true);
        }
      }
      KeepRefValue(I, tl[1..], ref, env, d, c, strict);
      assert MapTargets(tl, d, c.f)[1..] == MapTargets(tl[1..], d, c.f);
    }
  }

  lemma {:induction false} KeepKey(I: Interp, tl: seq<TargetEntry>, refs: seq<nat>, env: Env, d: nat, c: Change, strict: bool)
    requires Faithful(I, c) && Fine(env, d, c, strict) && (strict || !AnyTargets(tl, d, Uses(c.rt), true))
    ensures Key(I, MapTargets(tl, d, c.f), refs, env) == Key(I, tl, refs, env)
    decreases tl, 1, |refs|
  {
    if refs != [] {
      KeepRefValue(I, tl, refs[0], env, d, c, strict);
      KeepKey(I, tl, refs[1..], env, d, c, strict);
    }
  }

  lemma {:induction false} KeepKeys(I: Interp, tl: seq<TargetEntry>, refs: seq<nat>, fs: seq<Frame>, env: Env, d: nat, c: Change, strict: bool)
    requires Faithful(I, c) && AllFine(fs, env, d, c, strict) && (strict || !AnyTargets(tl, d, Uses(c.rt), true))
    ensures Keys(I, MapTargets(tl, d, c.f), refs, fs, env) == Keys(I, tl, refs, fs, env)
    decreases tl, 2
  {
    forall i | 0 <= i < |fs| ensures Key(I, MapTargets(tl, d, c.f), refs, [fs[i]] + env) == Key(I, tl, refs, [fs[i]] + env) {
      KeepKey(I, tl, refs, [fs[i]] + env, d, c, strict);
    }
  }

  lemma {:induction false} KeepVerdict(I: Interp, qs: seq<Expr>, env: Env, d: nat, c: Change, strict: bool)
    requires Faithful(I, c) && Fine(env, d, c, strict) && (strict || !AnyAll(qs, d, Uses(c.rt), true))
    ensures Verdict(I, MapAll(qs, d, c.f), env) == Verdict(I, qs, env)
    decreases qs, 1
  {
    KeepAll(I, qs, env, d, c, strict);
  }

  lemma {:induction false} KeepFilter(I: Interp, qs: seq<Expr>, fs: seq<Frame>, env: Env, d: nat, c: Change, strict: bool)
    requires Faithful(I, c) && AllFine(fs, env, d, c, strict) && (strict || !AnyAll(qs, d, Uses(c.rt), true))
    ensures Filter(I, MapAll(qs, d, c.f), fs, env) == Filter(I, qs, fs, env)
    decreases qs, 2
  {
    forall i | 0 <= i < |fs| ensures Verdict(I, MapAll(qs, d, c.f), [fs[i]] + env) == Verdict(I, qs, [fs[i]] + env) {
      KeepVerdict(I, qs, [fs[i]] + env, d, c, strict);
    }
    assert Verdicts(I, MapAll(qs, d, c.f), fs, env) == Verdicts(I, qs, fs, env);
  }

  lemma {:induction false} KeepChosen(I: Interp, join: Join, qs: seq<Expr>, fs: seq<Frame>, env: Env, d: nat, c: Change, strict: bool)
    requires Faithful(I, c) && AllFine(fs, env, d, c, strict) && (strict || !AnyAll(qs, d, Uses(c.rt), true))
    ensures Chosen(I, join, MapAll(qs, d, c.f), fs, env) == Chosen(I, join, qs, fs, env)
    decreases qs, 3
  {
    KeepFilter(I, qs, fs, env, d, c, strict);
    forall i | 0 <= i < |fs| ensures EvalAll(I, MapAll(qs, d, c.f), [fs[i]] + env) == EvalAll(I, qs, [fs[i]] + env) {
      KeepAll(I, qs, [fs[i]] + env, d, c, strict);
    }
    assert Conditions(I, MapAll(qs, d, c.f), fs, env) == Conditions(I, qs, fs, env);
  }

  lemma {:induction false} KeepSource(I: Interp, r: Rte, env: Env, d: nat, c: Change, strict: bool)
    requires Faithful(I, c) && Fine(env, d, c, strict) && (strict || !AnyRte(r, d, Uses(c.rt), true))
    ensures Source(I, MapRte(r, d, c.f), env) == Source(I, r, env)
    decreases r, 0
  {
    if r.Derived? { KeepQuery(I, r.sub, env, d, c, strict); }
  }

  lemma {:induction false} KeepExtend(I: Interp, r: Rte, outer: bool, bs: seq<Binding>, ctes: map<nat, Table>, env: Env, d: nat, c: Change, strict: bool)
    requires Faithful(I, c) && AllFine(RowFrames(ctes, bs), env, d, c, strict) && (strict || !AnyRte(r, d, Uses(c.rt), true))
    ensures Extend(I, MapRte(r, d, c.f), outer, bs, ctes, env) == Extend(I, r, outer, bs, ctes, env)
    decreases r, 1, |bs|
  {
    if bs != [] {
      assert RowFrames(ctes, bs)[0] == Frame(ctes, bs[0], []);
      KeepSource(I, r, [Frame(ctes, bs[0], [])] + env, d, c, strict);
      assert RowFrames(ctes, bs)[1..] == RowFrames(ctes, bs[1..]);
      KeepExtend(I, r, outer, bs[1..], ctes, env, d, c, strict);
    }
  }

  lemma {:induction false} NoneBefore(rs: seq<Rte>, n: nat, d: nat, p: VarPred)
    requires n < |rs| && !AnyRtes(rs, d, p, true)
    ensures !AnyRtes(rs[..n], d, p, true) && !AnyRte(rs[n], d, p, true)
  {
    forall i | 0 <= i < n ensures !AnyRte(rs[..n][i], d, p, true) { assert rs[..n][i] == rs[i]; }
  }

  // The rows of a range table of a nested query.
  lemma {:induction false} KeepProduct(I: Interp, rs: seq<Rte>, outer: bool, ctes: map<nat, Table>, env: Env, d: nat, c: Change, strict: bool)
    requires Faithful(I, c) && Fine(env, d, c, strict) && (strict || !AnyRtes(rs, d + 1, Uses(c.rt), true))
    ensures Product(I, MapRtes(rs, d + 1, c.f), outer, ctes, env) == Product(I, rs, outer, ctes, env)
    decreases rs
  {
    if rs != [] {
      var n := |rs| - 1;
      if !strict { NoneBefore(rs, n, d + 1, Uses(c.rt)); }
      KeepProduct(I, rs[..n], outer, ctes, env, d, c, strict);
      assert MapRtes(rs, d + 1, c.f)[..n] == MapRtes(rs[..n], d + 1, c.f);
      var bs := Product(I, rs[..n], outer, ctes, env);
      FineNested(RowFrames(ctes, bs), env, d, c, strict);
      KeepExtend(I, rs[n], outer, bs, ctes, env, d + 1, c, strict);
    }
  }

  lemma {:induction false} KeepCteTable(I: Interp, x: Cte, env: Env, d: nat, c: Change, strict: bool)
    requires Faithful(I, c) && Fine(env, d, c, strict) && (strict || !AnyCte(x, d, Uses(c.rt), true))
    ensures CteTable(I, MapCte(x, d, c.f), env) == CteTable(I, x, env)
    decreases x
  {
    KeepQuery(I, x.body, env, d, c, strict);
  }

  // The CTEs of a query at depth `d`; the frames they see below that depth are fine.
  ghost predicate CteFine(env: Env, d: nat, c: Change, strict: bool) {
    forall ctes :: Fine([Frame(ctes, [], [])] + env, d, c, strict)
  }

  lemma {:induction false} KeepCteTables(I: Interp, cs: seq<Cte>, env: Env, d: nat, c: Change, strict: bool)
    requires Faithful(I, c) && CteFine(env, d, c, strict) && (strict || !AnyCtes(cs, d, Uses(c.rt), true))
    ensures CteTables(I, MapCtes(cs, d, c.f), env) == CteTables(I, cs, env)
    decreases cs
  {
    if cs != [] {
      var n := |cs| - 1;
      assert AnyCtes(cs[..n], d, Uses(c.rt), true) ==> AnyCtes(cs, d, Uses(c.rt), true) by {
        if AnyCtes(cs[..n], d, Uses(c.rt), true) {
          var i :| 0 <= i < n && AnyCte(cs[..n][i], d, Uses(c.rt), true);
          assert AnyCte(cs[i], d, Uses(c.rt), true);
        }
      }
      KeepCteTables(I, cs[..n], env, d, c, strict);
      KeepCteTable(I, cs[n], [Frame(CteTables(I, cs[..n], env), [], [])] + env, d, c, strict);
    }
  }

  // The WHERE stage of a query at depth `d` after its FROM stage.
  lemma {:induction false} KeepSelected(I: Interp, q: Query, ctes: map<nat, Table>, env: Env, d: nat, c: Change, rows: bool)
    requires Faithful(I, c) && Combined(I, MapQuery(q, d, c.f), ctes, env) == Combined(I, q, ctes, env)
    requires AllFine(Combined(I, q, ctes, env), env, d, c, rows) && (rows || !AnyAll(q.quals, d, Uses(c.rt), true))
    ensures Selected(I, MapQuery(q, d, c.f), ctes, env) == Selected(I, q, ctes, env)
    decreases q, 0
  {
    KeepChosen(I, q.join, q.quals, Combined(I, q, ctes, env), env, d, c, rows);
  }

  function GroupFrames(I: Interp, q: Query, fs: seq<Frame>, ctes: map<nat, Table>, env: Env): seq<Frame> {
    FramesOf(ctes, GroupsOf(I, q, Keys(I, q.tlist, q.group, fs, env), Bindings(fs)))
  }

  // The grouping stage.
  lemma {:induction false} KeepProjected(I: Interp, q: Query, ctes: map<nat, Table>, env: Env, d: nat, c: Change, rows: bool, groups: bool)
    requires Faithful(I, c) && q.grouped
    requires Selected(I, MapQuery(q, d, c.f), ctes, env) == Selected(I, q, ctes, env)
    requires AllFine(Selected(I, q, ctes, env), env, d, c, rows) && (rows || !AnyTargets(q.tlist, d, Uses(c.rt), true))
    requires AllFine(GroupFrames(I, q, Selected(I, q, ctes, env), ctes, env), env, d, c, groups)
    requires groups || !AnyAll(q.having, d, Uses(c.rt), true)
    ensures Projected(I, MapQuery(q, d, c.f), ctes, env) == Projected(I, q, ctes, env)
    decreases q, 1
  {
    var fs := Selected(I, q, ctes, env);
    KeepKeys(I, q.tlist, q.group, fs, env, d, c, rows);
    KeepFilter(I, q.having, GroupFrames(I, q, fs, ctes, env), env, d, c, groups);
  }

  lemma {:induction false} FineNested(fs: seq<Frame>, env: Env, d: nat, c: Change, strict: bool)
    requires Fine(env, d, c, strict)
    ensures AllFine(fs, env, d + 1, c, strict)
  {
    forall i | 0 <= i < |fs| ensures Fine([fs[i]] + env, d + 1, c, strict) { FinePush(fs[i], env, d, c, strict); }
  }

  lemma {:induction false} KeepQuery(I: Interp, q: Query, env: Env, d: nat, c: Change, strict: bool)
    requires Faithful(I, c) && Fine(env, d, c, strict) && (strict || !AnyQuery(q, d + 1, Uses(c.rt), true))
    ensures Rows(I, MapQuery(q, d + 1, c.f), env) == Rows(I, q, env)
    decreases q, 2
  {
    forall ctes ensures Fine([Frame(ctes, [], [])] + env, d + 1, c, strict) {
      FinePush(Frame(ctes, [], []), env, d, c, strict);
    }
    KeepCteTables(I, q.ctes, env, d + 1, c, strict);
    var ctes := CteTables(I, q.ctes, env);
    KeepProduct(I, q.rtable, q.join.Outer?, ctes, env, d, c, strict);
    FineNested(Combined(I, q, ctes, env), env, d, c, strict);
    KeepSelected(I, q, ctes, env, d + 1, c, strict);
    var fs := Selected(I, q, ctes, env);
    if q.grouped {
      FineNested(fs, env, d, c, strict);
      FineNested(GroupFrames(I, q, fs, ctes, env), env, d, c, strict);
      KeepProjected(I, q, ctes, env, d + 1, c, strict, strict);
    }
    FineNested(Projected(I, q, ctes, env), env, d, c, strict);
    KeepTargetRows(I, q.tlist, Projected(I, q, ctes, env), env, d + 1, c, strict);
  }
}
