/**
  Flattening an aggregate target list returns the same rows
  (NormalizeGroupByProjList in gpopt/translate/CQueryMutators.cpp).
 */
module GroupByRows {
  import opened Values
  import opened QueryTree
  import opened LevelShift
  import opened GroupByMeaning

  // ----- from the group to the derived row -----

  // Level `d` of the environment shows a group; afterwards it shows the row that the
  // derived table computes for that group, one level further down.
  function Swap(I: Interp, below: seq<TargetEntry>, env: Env, d: nat): Env
    requires d < |env|
  {
    var row := Targets(I, below, Insert(env, 0, d));
    env[d := Frame(env[d].ctes, [Slot(row, row)], [])]
  }

  lemma {:induction false} SwapPush(I: Interp, below: seq<TargetEntry>, f: Frame, env: Env, d: nat)
    requires d < |env|
    ensures Swap(I, below, [f] + env, d + 1) == [f] + Swap(I, below, env, d)
  {
    assert Insert([f] + env, 0, d + 1) == Insert(env, 0, d);
  }

  lemma {:induction false} SwapUpdate(I: Interp, below: seq<TargetEntry>, env: Env, d: nat, l: nat, b: Binding)
    requires d < |env| && l < d
    ensures Swap(I, below, env[l := env[l].(rows := b)], d)
            == Swap(I, below, env, d)[l := Swap(I, below, env, d)[l].(rows := b)]
  {
    assert Insert(env[l := env[l].(rows := b)], 0, d) == Insert(env, 0, d);
  }

  lemma {:induction false} StandsMeaning(I: Interp, x: Expr, e: Expr, env: Env, d: nat)
    requires d < |env| && Stands(x, e, d)
    ensures Eval(I, x, Insert(env, 0, d)) == Eval(I, e, env)
  {
    if d == 0 && x == ShiftExpr(e, 0, 0, FULL_SHIFT) {
      EvalShift(I, e, env, 0, 0);
    } else if e.Agg? && e.level == d && AvoidsAll(e.args, 0, d) && x == Agg(e.fn, ShiftAll(e.args, 0, d, FULL_SHIFT), 0) {
      AggInputsShift(I, e.args, d, env, env[d].group, 0, d);
      InsertAt(env, 0, d, d);
    } else {
      InsertAt(env, 0, d, d);
    }
  }

  lemma {:induction false} MeanExpr(I: Interp, e2: Expr, e: Expr, below: seq<TargetEntry>, env: Env, d: nat)
    requires d < |env| && RwExpr(e2, e, d, below)
    ensures Eval(I, e2, Swap(I, below, env, d)) == Eval(I, e, env)
    decreases e
  {
    if Reads(e2, e, d, below) {
      StandsMeaning(I, below[e2.attno - 1].expr, e, env, d);
      assert Target(I, below[e2.attno - 1], Insert(env, 0, d)) == Eval(I, e, env);
    } else {
      match e
      case Const(_) =>
      case Var(_, _, _, _) =>
      case Op(_, args) => MeanAll(I, e2.args, args, below, env, d);
      case Agg(_, args, l) => MeanAggInputs(I, e2.args, args, l, below, env, env[l].group, d);
      case SubLink(_, test, sub) =>
        MeanAll(I, e2.test, test, below, env, d);
        MeanQuery(I, e2.sub, sub, below, env, d);
    }
  }

  lemma {:induction false} MeanAll(I: Interp, es2: seq<Expr>, es: seq<Expr>, below: seq<TargetEntry>, env: Env, d: nat)
    requires d < |env| && RwAll(es2, es, d, below)
    ensures EvalAll(I, es2, Swap(I, below, env, d)) == EvalAll(I, es, env)
    decreases es, 0
  {
    forall i | 0 <= i < |es| ensures Eval(I, es2[i], Swap(I, below, env, d)) == Eval(I, es[i], env) {
      MeanExpr(I, es2[i], es[i], below, env, d);
    }
  }

  lemma {:induction false} MeanAggInputs(I: Interp, es2: seq<Expr>, es: seq<Expr>, l: nat, below: seq<TargetEntry>, env: Env, ms: seq<Binding>, d: nat)
    requires d < |env| && l < d && RwAll(es2, es, d, below)
    ensures AggInputs(I, es2, l, Swap(I, below, env, d), ms) == AggInputs(I, es, l, env, ms)
    decreases es, 1, |ms|
  {
    if ms != [] {
      SwapUpdate(I, below, env, d, l, ms[0]);
      MeanAll(I, es2, es, below, env[l := env[l].(rows := ms[0])], d);
      MeanAggInputs(I, es2, es, l, below, env, ms[1..], d);
    }
  }

  lemma {:induction false} MeanTarget(I: Interp, te2: TargetEntry, te: TargetEntry, below: seq<TargetEntry>, env: Env, d: nat)
    requires d < |env| && RwTarget(te2, te, d, below)
    ensures Target(I, te2, Swap(I, below, env, d)) == Target(I, te, env)
    decreases te
  {
    MeanExpr(I, te2.expr, te.expr, below, env, d);
  }

  lemma {:induction false} MeanTargets(I: Interp, tl2: seq<TargetEntry>, tl: seq<TargetEntry>, below: seq<TargetEntry>, env: Env, d: nat)
    requires d < |env| && RwTargets(tl2, tl, d, below)
    ensures Targets(I, tl2, Swap(I, below, env, d)) == Targets(I, tl, env)
    decreases tl, 0
  {
    forall i | 0 <= i < |tl| ensures Target(I, tl2[i], Swap(I, below, env, d)) == Target(I, tl[i], env) {
      MeanTarget(I, tl2[i], tl[i], below, env, d);
    }
  }

  lemma {:induction false} MeanTargetRows(I: Interp, tl2: seq<TargetEntry>, tl: seq<TargetEntry>, below: seq<TargetEntry>, fs: seq<Frame>, env: Env, d: nat)
    requires d < |env| && RwTargets(tl2, tl, d + 1, below)
    ensures TargetRows(I, tl2, fs, Swap(I, below, env, d)) == TargetRows(I, tl, fs, env)
    decreases tl, 1
  {
    forall i | 0 <= i < |fs| ensures Targets(I, tl2, [fs[i]] + Swap(I, below, env, d)) == Targets(I, tl, [fs[i]] + env) {
      SwapPush(I, below, fs[i], env, d);
      MeanTargets(I, tl2, tl, below, [fs[i]] + env, d + 1);
    }
  }

  lemma {:induction false} MeanRefValue(I: Interp, tl2: seq<TargetEntry>, tl: seq<TargetEntry>, ref: nat, below: seq<TargetEntry>, env: Env, d: nat)
    requires d < |env| && RwTargets(tl2, tl, d, below)
    ensures RefValue(I, tl2, ref, Swap(I, below, env, d)) == RefValue(I, tl, ref, env)
    decreases tl, 0
  {
    if tl != [] {
      assert RwTarget(tl2[0], tl[0], d, below);
      MeanTarget(I, tl2[0], tl[0], below, env, d);
      MeanRefValue(I, tl2[1..], tl[1..], ref, below, env, d);
    }
  }

  lemma {:induction false} MeanKey(I: Interp, tl2: seq<TargetEntry>, tl: seq<TargetEntry>, refs: seq<nat>, below: seq<TargetEntry>, env: Env, d: nat)
    requires d < |env| && RwTargets(tl2, tl, d, below)
    ensures Key(I, tl2, refs, Swap(I, below, env, d)) == Key(I, tl, refs, env)
    decreases tl, 1, |refs|
  {
    if refs != [] {
      MeanRefValue(I, tl2, tl, refs[0], below, env, d);
      MeanKey(I, tl2, tl, refs[1..], below, env, d);
    }
  }

  lemma {:induction false} MeanKeys(I: Interp, tl2: seq<TargetEntry>, tl: seq<TargetEntry>, refs: seq<nat>, below: seq<TargetEntry>, fs: seq<Frame>, env: Env, d: nat)
    requires d < |env| && RwTargets(tl2, tl, d + 1, below)
    ensures Keys(I, tl2, refs, fs, Swap(I, below, env, d)) == Keys(I, tl, refs, fs, env)
    decreases tl, 2
  {
    forall i | 0 <= i < |fs| ensures Key(I, tl2, refs, [fs[i]] + Swap(I, below, env, d)) == Key(I, tl, refs, [fs[i]] + env) {
      SwapPush(I, below, fs[i], env, d);
      MeanKey(I, tl2, tl, refs, below, [fs[i]] + env, d + 1);
    }
  }

  lemma {:induction false} MeanVerdict(I: Interp, qs2: seq<Expr>, qs: seq<Expr>, below: seq<TargetEntry>, f: Frame, env: Env, d: nat)
    requires d < |env| && RwAll(qs2, qs, d + 1, below)
    ensures Verdict(I, qs2, [f] + Swap(I, below, env, d)) == Verdict(I, qs, [f] + env)
    decreases qs, 1
  {
    SwapPush(I, below, f, env, d);
    MeanAll(I, qs2, qs, below, [f] + env, d + 1);
  }

  lemma {:induction false} MeanFilter(I: Interp, qs2: seq<Expr>, qs: seq<Expr>, below: seq<TargetEntry>, fs: seq<Frame>, env: Env, d: nat)
    requires d < |env| && RwAll(qs2, qs, d + 1, below)
    ensures Filter(I, qs2, fs, Swap(I, below, env, d)) == Filter(I, qs, fs, env)
    decreases qs, 2
  {
    forall i | 0 <= i < |fs| ensures Verdict(I, qs2, [fs[i]] + Swap(I, below, env, d)) == Verdict(I, qs, [fs[i]] + env) {
      MeanVerdict(I, qs2, qs, below, fs[i], env, d);
    }
    assert Verdicts(I, qs2, fs, Swap(I, below, env, d)) == Verdicts(I, qs, fs, env);
  }

  lemma {:induction false} MeanChosen(I: Interp, join: Join, qs2: seq<Expr>, qs: seq<Expr>, below: seq<TargetEntry>, fs: seq<Frame>, env: Env, d: nat)
    requires d < |env| && RwAll(qs2, qs, d + 1, below)
    ensures Chosen(I, join, qs2, fs, Swap(I, below, env, d)) == Chosen(I, join, qs, fs, env)
    decreases qs, 3
  {
    MeanFilter(I, qs2, qs, below, fs, env, d);
    forall i | 0 <= i < |fs| ensures EvalAll(I, qs2, [fs[i]] + Swap(I, below, env, d)) == EvalAll(I, qs, [fs[i]] + env) {
      SwapPush(I, below, fs[i], env, d);
      MeanAll(I, qs2, qs, below, [fs[i]] + env, d + 1);
    }
    assert Conditions(I, qs2, fs, Swap(I, below, env, d)) == Conditions(I, qs, fs, env);
  }

  // `d` is the depth of the query that owns the range table.
  lemma {:induction false} MeanSource(I: Interp, r2: Rte, r: Rte, below: seq<TargetEntry>, env: Env, d: nat)
    requires d < |env| && RwRte(r2, r, d, below)
    ensures Source(I, r2, Swap(I, below, env, d)) == Source(I, r, env)
    decreases r, 0
  {
    if r.Derived? { MeanQuery(I, r2.sub, r.sub, below, env, d); }
  }

  lemma {:induction false} MeanExtend(I: Interp, r2: Rte, r: Rte, outer: bool, below: seq<TargetEntry>, bs: seq<Binding>, ctes: map<nat, Table>, env: Env, d: nat)
    requires d < |env| && RwRte(r2, r, d + 1, below)
    ensures Extend(I, r2, outer, bs, ctes, Swap(I, below, env, d)) == Extend(I, r, outer, bs, ctes, env)
    decreases r, 1, |bs|
  {
    if bs != [] {
      var f := Frame(ctes, bs[0], []);
      SwapPush(I, below, f, env, d);
      MeanSource(I, r2, r, below, [f] + env, d + 1);
      MeanExtend(I, r2, r, outer, below, bs[1..], ctes, env, d);
    }
  }

  lemma {:induction false} MeanProduct(I: Interp, rs2: seq<Rte>, rs: seq<Rte>, outer: bool, below: seq<TargetEntry>, ctes: map<nat, Table>, env: Env, d: nat)
    requires d < |env| && RwRtes(rs2, rs, d + 1, below)
    ensures Product(I, rs2, outer, ctes, Swap(I, below, env, d)) == Product(I, rs, outer, ctes, env)
    decreases rs
  {
    if rs != [] {
      var n := |rs| - 1;
      assert RwRte(rs2[n], rs[n], d + 1, below);
      MeanProduct(I, rs2[..n], rs[..n], outer, below, ctes, env, d);
      MeanExtend(I, rs2[n], rs[n], outer, below, Product(I, rs[..n], outer, ctes, env), ctes, env, d);
    }
  }

  lemma {:induction false} MeanCteTable(I: Interp, c2: Cte, c: Cte, below: seq<TargetEntry>, env: Env, d: nat)
    requires d < |env| && RwCte(c2, c, d, below)
    ensures CteTable(I, c2, Swap(I, below, env, d)) == CteTable(I, c, env)
    decreases c
  {
    MeanQuery(I, c2.body, c.body, below, env, d);
  }

  lemma {:induction false} MeanCteTables(I: Interp, cs2: seq<Cte>, cs: seq<Cte>, below: seq<TargetEntry>, env: Env, d: nat)
    requires d < |env| && RwCtes(cs2, cs, d + 1, below)
    ensures CteTables(I, cs2, Swap(I, below, env, d)) == CteTables(I, cs, env)
    decreases cs
  {
    if cs != [] {
      var n := |cs| - 1;
      MeanCteTables(I, cs2[..n], cs[..n], below, env, d);
      var before := Frame(CteTables(I, cs[..n], env), [], []);
      SwapPush(I, below, before, env, d);
      assert RwCte(cs2[n], cs[n], d + 1, below);
      MeanCteTable(I, cs2[n], cs[n], below, [before] + env, d + 1);
    }
  }

  lemma {:induction false} MeanProjected(I: Interp, q2: Query, q: Query, ctes: map<nat, Table>, below: seq<TargetEntry>, env: Env, d: nat)
    requires d < |env| && RwQuery(q2, q, d + 1, below)
    ensures Projected(I, q2, ctes, Swap(I, below, env, d)) == Projected(I, q, ctes, env)
    decreases q, 1
  {
    MeanProduct(I, q2.rtable, q.rtable, q.join.Outer?, below, ctes, env, d);
    MeanChosen(I, q.join, q2.quals, q.quals, below, Combined(I, q, ctes, env), env, d);
    var fs := Selected(I, q, ctes, env);
    assert Selected(I, q2, ctes, Swap(I, below, env, d)) == fs;
    if q.grouped {
      MeanKeys(I, q2.tlist, q.tlist, q.group, below, fs, env, d);
      MeanFilter(I, q2.having, q.having, below,
                 FramesOf(ctes, GroupsOf(I, q, Keys(I, q.tlist, q.group, fs, env), Bindings(fs))), env, d);
    }
  }

  lemma {:induction false} MeanQuery(I: Interp, q2: Query, q: Query, below: seq<TargetEntry>, env: Env, d: nat)
    requires d < |env| && RwQuery(q2, q, d + 1, below)
    ensures Rows(I, q2, Swap(I, below, env, d)) == Rows(I, q, env)
    decreases q, 2
  {
    MeanCteTables(I, q2.ctes, q.ctes, below, env, d);
    var ctes := CteTables(I, q.ctes, env);
    MeanProjected(I, q2, q, ctes, below, env, d);
    MeanTargetRows(I, q2.tlist, q.tlist, below, Projected(I, q, ctes, env), env, d);
  }
}
