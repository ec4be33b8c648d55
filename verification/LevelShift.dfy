/**
  Wrapping a query as a derived table (RunIncrLevelsUpMutator, RunFixCTELevelsUpWalker
  and ConvertToDerivedTable in gpopt/translate/CQueryMutators.cpp).

  The query moves one level down below a new query that keeps its CTEs. References
  that leave the query must count one level more; references inside must not. The
  module proves that the two passes do exactly this at every nesting depth.
 */
module LevelShift {
  import opened Values
  import opened QueryTree

  // What a pass adjusts. The source adjusts Vars in one pass and CTE references in
  // another, and leaves the level of outer aggregates alone.
  datatype Fix = Fix(vars: bool, ctes: bool, aggs: bool)

  const INCR_VARS := Fix(true, false, false)
  const FIX_CTES := Fix(false, true, false)
  const BOTH_PASSES := Fix(true, true, false)
  const FULL_SHIFT := Fix(true, true, true)

  // A level counted from `d` query levels below the moved part, before and after the move.
  function Up(l: nat, d: nat, a: nat): nat {
    if l < d + a then l else if l == d + a then l - a else l - a + 1
  }

  function CteUp(l: nat, d: nat, a: nat): nat {
    if l < d + a then l else l - a + 1
  }

  // Not one of the levels that disappear.
  predicate Outside(l: nat, d: nat, a: nat) { l < d || l >= d + a }

  // ----- the passes; `d` is the number of query levels entered below the moved query -----

  function ShiftExpr(e: Expr, d: nat, a: nat, fix: Fix): Expr
    decreases e
  {
    match e
    case Const(_) => e
    case Var(n, at, l, nl) => if fix.vars then Var(n, at, Up(l, d, a), nl) else e
    case Op(fn, args) => Op(fn, ShiftAll(args, d, a, fix))
    case Agg(fn, args, l) => Agg(fn, ShiftAll(args, d, a, fix), if fix.aggs then Up(l, d, a) else l)
    case SubLink(k, test, sub) => SubLink(k, ShiftAll(test, d, a, fix), ShiftQuery(sub, d + 1, a, fix))
  }

  function ShiftAll(es: seq<Expr>, d: nat, a: nat, fix: Fix): (r: seq<Expr>)
    ensures |r| == |es| && forall i :: 0 <= i < |es| ==> r[i] == ShiftExpr(es[i], d, a, fix)
    decreases es
  {
    if es == [] then [] else [ShiftExpr(es[0], d, a, fix)] + ShiftAll(es[1..], d, a, fix)
  }

  function ShiftTarget(te: TargetEntry, d: nat, a: nat, fix: Fix): TargetEntry
    decreases te
  {
    te.(expr := ShiftExpr(te.expr, d, a, fix))
  }

  function ShiftTargets(tl: seq<TargetEntry>, d: nat, a: nat, fix: Fix): (r: seq<TargetEntry>)
    ensures |r| == |tl| && forall i :: 0 <= i < |tl| ==> r[i] == ShiftTarget(tl[i], d, a, fix)
    decreases tl
  {
    if tl == [] then [] else [ShiftTarget(tl[0], d, a, fix)] + ShiftTargets(tl[1..], d, a, fix)
  }

  function ShiftRte(r: Rte, d: nat, a: nat, fix: Fix): Rte
    decreases r
  {
    match r
    case Relation(_) => r
    case Derived(sub) => Derived(ShiftQuery(sub, d + 1, a, fix))
    case CteRef(name, l) => if fix.ctes then CteRef(name, CteUp(l, d, a)) else r
  }

  function ShiftRtes(rs: seq<Rte>, d: nat, a: nat, fix: Fix): (r: seq<Rte>)
    ensures |r| == |rs| && forall i :: 0 <= i < |rs| ==> r[i] == ShiftRte(rs[i], d, a, fix)
    decreases rs
  {
    if rs == [] then [] else [ShiftRte(rs[0], d, a, fix)] + ShiftRtes(rs[1..], d, a, fix)
  }

  function ShiftCte(c: Cte, d: nat, a: nat, fix: Fix): Cte
    decreases c
  {
    c.(body := ShiftQuery(c.body, d + 1, a, fix))
  }

  function ShiftCtes(cs: seq<Cte>, d: nat, a: nat, fix: Fix): (r: seq<Cte>)
    ensures |r| == |cs| && forall i :: 0 <= i < |cs| ==> r[i] == ShiftCte(cs[i], d, a, fix)
    decreases cs
  {
    if cs == [] then [] else ShiftCtes(cs[..|cs| - 1], d, a, fix) + [ShiftCte(cs[|cs| - 1], d, a, fix)]
  }

  function ShiftQuery(q: Query, d: nat, a: nat, fix: Fix): Query
    decreases q
  {
    q.(ctes := ShiftCtes(q.ctes, d, a, fix), rtable := ShiftRtes(q.rtable, d, a, fix), quals := ShiftAll(q.quals, d, a, fix),
       tlist := ShiftTargets(q.tlist, d, a, fix), having := ShiftAll(q.having, d, a, fix))
  }

  // ----- no reference to a level that disappears -----

  predicate AvoidsExpr(e: Expr, d: nat, a: nat)
    decreases e
  {
    match e
    case Const(_) => true
    case Var(_, _, l, _) => Outside(l, d, a)
    case Op(_, args) => AvoidsAll(args, d, a)
    case Agg(_, args, l) => Outside(l, d, a) && AvoidsAll(args, d, a)
    case SubLink(_, test, sub) => AvoidsAll(test, d, a) && AvoidsQuery(sub, d + 1, a)
  }

  predicate AvoidsAll(es: seq<Expr>, d: nat, a: nat)
    decreases es
  {
    forall i :: 0 <= i < |es| ==> AvoidsExpr(es[i], d, a)
  }

  predicate AvoidsTarget(te: TargetEntry, d: nat, a: nat)
    decreases te
  {
    AvoidsExpr(te.expr, d, a)
  }

  predicate AvoidsTargets(tl: seq<TargetEntry>, d: nat, a: nat)
    decreases tl
  {
    forall i :: 0 <= i < |tl| ==> AvoidsTarget(tl[i], d, a)
  }

  predicate AvoidsRte(r: Rte, d: nat, a: nat)
    decreases r
  {
    match r
    case Relation(_) => true
    case Derived(sub) => AvoidsQuery(sub, d + 1, a)
    case CteRef(_, l) => Outside(l, d, a)
  }

  predicate AvoidsRtes(rs: seq<Rte>, d: nat, a: nat)
    decreases rs
  {
    forall i :: 0 <= i < |rs| ==> AvoidsRte(rs[i], d, a)
  }

  predicate AvoidsCte(c: Cte, d: nat, a: nat)
    decreases c
  {
    AvoidsQuery(c.body, d + 1, a)
  }

  predicate AvoidsCtes(cs: seq<Cte>, d: nat, a: nat)
    decreases cs
  {
    forall i :: 0 <= i < |cs| ==> AvoidsCte(cs[i], d, a)
  }

  predicate AvoidsQuery(q: Query, d: nat, a: nat)
    decreases q
  {
    && AvoidsCtes(q.ctes, d, a) && AvoidsRtes(q.rtable, d, a) && AvoidsAll(q.quals, d, a)
    && AvoidsTargets(q.tlist, d, a) && AvoidsAll(q.having, d, a)
  }

  // ----- the environment with one more scope -----

  // Of the levels from `d` on, the first `a` disappear, the next one loses its
  // CTEs, and a new frame that holds those CTEs follows it. Wrapping a query crosses
  // no level (a == 0); moving an aggregate to the query it belongs to crosses as many
  // as its agglevelsup.
  function Insert(env: Env, d: nat, a: nat): Env
    requires d + a < |env|
  {
    env[..d] + [env[d + a].(ctes := map[]), Frame(env[d + a].ctes, [], [])] + env[d + a + 1..]
  }

  // The same for an environment to which a query at depth `d` adds its frames.
  function OwnCtes(ctes: map<nat, Table>, d: nat): map<nat, Table> {
    if d == 0 then map[] else ctes
  }

  function Below(ctes: map<nat, Table>, env: Env, d: nat, a: nat): Env
    requires d + a <= |env| && (d == 0 ==> a == 0)
  {
    if d == 0 then [Frame(ctes, [], [])] + env else Insert(env, d - 1, a)
  }

  function Moved(fs: seq<Frame>, d: nat): (r: seq<Frame>)
    ensures |r| == |fs| && forall i :: 0 <= i < |fs| ==> r[i] == fs[i].(ctes := OwnCtes(fs[i].ctes, d))
  {
    seq(|fs|, i requires 0 <= i < |fs| => fs[i].(ctes := OwnCtes(fs[i].ctes, d)))
  }

  lemma {:induction false} InsertPush(f: Frame, env: Env, d: nat, a: nat)
    requires d + a <= |env| && (d == 0 ==> a == 0)
    ensures Insert([f] + env, d, a) == [f.(ctes := OwnCtes(f.ctes, d))] + Below(f.ctes, env, d, a)
  {
    if d > 0 {
      assert ([f] + env)[d + a] == env[d + a - 1];
      assert ([f] + env)[..d] == [f] + env[..d - 1];
      assert ([f] + env)[d + a + 1..] == env[d + a..];
    }
  }

  lemma {:induction false} InsertAt(env: Env, d: nat, a: nat, l: nat)
    requires d + a < |env| && Outside(l, d, a)
    ensures |Insert(env, d, a)| == |env| + 1 - a
    ensures l < |env| <==> Up(l, d, a) < |Insert(env, d, a)|
    ensures l < |env| ==> Insert(env, d, a)[Up(l, d, a)].rows == env[l].rows
                          && Insert(env, d, a)[Up(l, d, a)].group == env[l].group
    ensures l < |env| <==> CteUp(l, d, a) < |Insert(env, d, a)|
    ensures l < |env| ==> Insert(env, d, a)[CteUp(l, d, a)].ctes == env[l].ctes
  {
  }

  lemma {:induction false} InsertUpdate(env: Env, d: nat, a: nat, l: nat, b: Binding)
    requires d + a < |env| && l < |env| && Outside(l, d, a)
    ensures Up(l, d, a) < |Insert(env, d, a)|
    ensures Insert(env[l := env[l].(rows := b)], d, a)
            == Insert(env, d, a)[Up(l, d, a) := Insert(env, d, a)[Up(l, d, a)].(rows := b)]
  {
  }

  // ----- the full shift keeps every meaning -----

  lemma {:induction false} EvalShift(I: Interp, e: Expr, env: Env, d: nat, a: nat)
    requires d + a < |env|
    requires a == 0 || AvoidsExpr(e, d, a)
    ensures Eval(I, ShiftExpr(e, d, a, FULL_SHIFT), Insert(env, d, a)) == Eval(I, e, env)
    decreases e
  {
    match e
    case Const(_) =>
    case Var(_, _, l, _) => InsertAt(env, d, a, l);
    case Op(_, args) => EvalAllShift(I, args, env, d, a);
    case Agg(_, args, l) =>
      InsertAt(env, d, a, l);
      if l < |env| { AggInputsShift(I, args, l, env, env[l].group, d, a); }
    case SubLink(_, test, sub) =>
      EvalAllShift(I, test, env, d, a);
      NestedShift(I, sub, env, d, a);
  }

  lemma {:induction false} EvalAllShift(I: Interp, es: seq<Expr>, env: Env, d: nat, a: nat)
    requires d + a < |env|
    requires a == 0 || AvoidsAll(es, d, a)
    ensures EvalAll(I, ShiftAll(es, d, a, FULL_SHIFT), Insert(env, d, a)) == EvalAll(I, es, env)
    decreases es, 0
  {
    forall i | 0 <= i < |es| ensures Eval(I, ShiftExpr(es[i], d, a, FULL_SHIFT), Insert(env, d, a)) == Eval(I, es[i], env) {
      EvalShift(I, es[i], env, d, a);
    }
  }

  lemma {:induction false} AggInputsShift(I: Interp, args: seq<Expr>, l: nat, env: Env, ms: seq<Binding>, d: nat, a: nat)
    requires d + a < |env| && l < |env|
    requires a == 0 || (Outside(l, d, a) && AvoidsAll(args, d, a))
    ensures Up(l, d, a) < |Insert(env, d, a)|
    ensures AggInputs(I, ShiftAll(args, d, a, FULL_SHIFT), Up(l, d, a), Insert(env, d, a), ms) == AggInputs(I, args, l, env, ms)
    decreases args, 1, |ms|
  {
    InsertAt(env, d, a, l);
    if ms != [] {
      InsertUpdate(env, d, a, l, ms[0]);
      EvalAllShift(I, args, env[l := env[l].(rows := ms[0])], d, a);
      AggInputsShift(I, args, l, env, ms[1..], d, a);
    }
  }

  lemma {:induction false} TargetShift(I: Interp, te: TargetEntry, env: Env, d: nat, a: nat)
    requires d + a < |env|
    requires a == 0 || AvoidsTarget(te, d, a)
    ensures Target(I, ShiftTarget(te, d, a, FULL_SHIFT), Insert(env, d, a)) == Target(I, te, env)
    decreases te
  {
    EvalShift(I, te.expr, env, d, a);
  }

  lemma {:induction false} TargetsShift(I: Interp, tl: seq<TargetEntry>, env: Env, d: nat, a: nat)
    requires d + a < |env|
    requires a == 0 || AvoidsTargets(tl, d, a)
    ensures Targets(I, ShiftTargets(tl, d, a, FULL_SHIFT), Insert(env, d, a)) == Targets(I, tl, env)
    decreases tl, 0
  {
    forall i | 0 <= i < |tl|
      ensures Target(I, ShiftTarget(tl[i], d, a, FULL_SHIFT), Insert(env, d, a)) == Target(I, tl[i], env)
    {
      TargetShift(I, tl[i], env, d, a);
    }
  }

  lemma {:induction false} TargetRowsShift(I: Interp, tl: seq<TargetEntry>, fs: seq<Frame>, ctes: map<nat, Table>, env: Env, d: nat, a: nat)
    requires d + a <= |env| && (d == 0 ==> a == 0) && forall i :: 0 <= i < |fs| ==> fs[i].ctes == ctes
    requires a == 0 || AvoidsTargets(tl, d, a)
    ensures TargetRows(I, ShiftTargets(tl, d, a, FULL_SHIFT), Moved(fs, d), Below(ctes, env, d, a)) == TargetRows(I, tl, fs, env)
    decreases tl, 1
  {
    forall i | 0 <= i < |fs|
      ensures Targets(I, ShiftTargets(tl, d, a, FULL_SHIFT), [Moved(fs, d)[i]] + Below(ctes, env, d, a)) == Targets(I, tl, [fs[i]] + env)
    {
      InsertPush(fs[i], env, d, a);
      TargetsShift(I, tl, [fs[i]] + env, d, a);
    }
  }

  lemma {:induction false} RefValueShift(I: Interp, tl: seq<TargetEntry>, ref: nat, env: Env, d: nat, a: nat)
    requires d + a < |env|
    requires a == 0 || AvoidsTargets(tl, d, a)
    ensures RefValue(I, ShiftTargets(tl, d, a, FULL_SHIFT), ref, Insert(env, d, a)) == RefValue(I, tl, ref, env)
    decreases tl, 0
  {
    if tl != [] {
      TargetShift(I, tl[0], env, d, a);
      RefValueShift(I, tl[1..], ref, env, d, a);
      assert ShiftTargets(tl, d, a, FULL_SHIFT)[1..] == ShiftTargets(tl[1..], d, a, FULL_SHIFT);
    }
  }

  lemma {:induction false} KeyShift(I: Interp, tl: seq<TargetEntry>, refs: seq<nat>, env: Env, d: nat, a: nat)
    requires d + a < |env|
    requires a == 0 || AvoidsTargets(tl, d, a)
    ensures Key(I, ShiftTargets(tl, d, a, FULL_SHIFT), refs, Insert(env, d, a)) == Key(I, tl, refs, env)
    decreases tl, 1, |refs|
  {
    if refs != [] {
      RefValueShift(I, tl, refs[0], env, d, a);
      KeyShift(I, tl, refs[1..], env, d, a);
    }
  }

  lemma {:induction false} KeysShift(I: Interp, tl: seq<TargetEntry>, refs: seq<nat>, fs: seq<Frame>, ctes: map<nat, Table>, env: Env, d: nat, a: nat)
    requires d + a <= |env| && (d == 0 ==> a == 0) && forall i :: 0 <= i < |fs| ==> fs[i].ctes == ctes
    requires a == 0 || AvoidsTargets(tl, d, a)
    ensures Keys(I, ShiftTargets(tl, d, a, FULL_SHIFT), refs, Moved(fs, d), Below(ctes, env, d, a)) == Keys(I, tl, refs, fs, env)
    decreases tl, 2
  {
    forall i | 0 <= i < |fs|
      ensures Key(I, ShiftTargets(tl, d, a, FULL_SHIFT), refs, [Moved(fs, d)[i]] + Below(ctes, env, d, a)) == Key(I, tl, refs, [fs[i]] + env)
    {
      InsertPush(fs[i], env, d, a);
      KeyShift(I, tl, refs, [fs[i]] + env, d, a);
    }
  }

  lemma {:induction false} VerdictShift(I: Interp, quals: seq<Expr>, f: Frame, env: Env, d: nat, a: nat)
    requires d + a <= |env| && (d == 0 ==> a == 0)
    requires a == 0 || AvoidsAll(quals, d, a)
    ensures Verdict(I, ShiftAll(quals, d, a, FULL_SHIFT), [f.(ctes := OwnCtes(f.ctes, d))] + Below(f.ctes, env, d, a))
            == Verdict(I, quals, [f] + env)
    decreases quals, 1
  {
    InsertPush(f, env, d, a);
    EvalAllShift(I, quals, [f] + env, d, a);
  }

  lemma {:induction false} VerdictsShift(I: Interp, quals: seq<Expr>, fs: seq<Frame>, ctes: map<nat, Table>, env: Env, d: nat, a: nat)
    requires d + a <= |env| && (d == 0 ==> a == 0) && forall i :: 0 <= i < |fs| ==> fs[i].ctes == ctes
    requires a == 0 || AvoidsAll(quals, d, a)
    ensures Verdicts(I, ShiftAll(quals, d, a, FULL_SHIFT), Moved(fs, d), Below(ctes, env, d, a)) == Verdicts(I, quals, fs, env)
    decreases quals, 2
  {
    forall i | 0 <= i < |fs|
      ensures Verdict(I, ShiftAll(quals, d, a, FULL_SHIFT), [Moved(fs, d)[i]] + Below(ctes, env, d, a)) == Verdict(I, quals, [fs[i]] + env)
    {
      VerdictShift(I, quals, fs[i], env, d, a);
    }
  }

  lemma {:induction false} KeptMoved(fs: seq<Frame>, vs: seq<bool>, d: nat)
    requires |fs| == |vs|
    ensures Kept(Moved(fs, d), vs) == Moved(Kept(fs, vs), d)
  {
    if fs != [] {
      KeptMoved(fs[1..], vs[1..], d);
      assert Moved(fs, d)[1..] == Moved(fs[1..], d);
    }
  }

  lemma {:induction false} FilterShift(I: Interp, quals: seq<Expr>, fs: seq<Frame>, ctes: map<nat, Table>, env: Env, d: nat, a: nat)
    requires d + a <= |env| && (d == 0 ==> a == 0) && forall i :: 0 <= i < |fs| ==> fs[i].ctes == ctes
    requires a == 0 || AvoidsAll(quals, d, a)
    ensures Filter(I, ShiftAll(quals, d, a, FULL_SHIFT), Moved(fs, d), Below(ctes, env, d, a)) == Moved(Filter(I, quals, fs, env), d)
    ensures forall i :: 0 <= i < |Filter(I, quals, fs, env)| ==> Filter(I, quals, fs, env)[i].ctes == ctes
    decreases quals, 3
  {
    VerdictsShift(I, quals, fs, ctes, env, d, a);
    KeptMoved(fs, Verdicts(I, quals, fs, env), d);
  }

  lemma {:induction false} ConditionsShift(I: Interp, quals: seq<Expr>, fs: seq<Frame>, ctes: map<nat, Table>, env: Env, d: nat, a: nat)
    requires d + a <= |env| && (d == 0 ==> a == 0) && forall i :: 0 <= i < |fs| ==> fs[i].ctes == ctes
    requires a == 0 || AvoidsAll(quals, d, a)
    ensures Conditions(I, ShiftAll(quals, d, a, FULL_SHIFT), Moved(fs, d), Below(ctes, env, d, a)) == Conditions(I, quals, fs, env)
    decreases quals, 2
  {
    forall i | 0 <= i < |fs|
      ensures EvalAll(I, ShiftAll(quals, d, a, FULL_SHIFT), [Moved(fs, d)[i]] + Below(ctes, env, d, a)) == EvalAll(I, quals, [fs[i]] + env)
    {
      InsertPush(fs[i], env, d, a);
      EvalAllShift(I, quals, [fs[i]] + env, d, a);
    }
  }

  lemma {:induction false} PickedMoved(fs: seq<Frame>, at: seq<nat>, d: nat)
    ensures Picked(Moved(fs, d), at) == Moved(Picked(fs, at), d)
  {
    if at != [] { PickedMoved(fs, at[1..], d); }
  }

  lemma {:induction false} ChosenShift(I: Interp, join: Join, quals: seq<Expr>, fs: seq<Frame>, ctes: map<nat, Table>, env: Env, d: nat, a: nat)
    requires d + a <= |env| && (d == 0 ==> a == 0) && forall i :: 0 <= i < |fs| ==> fs[i].ctes == ctes
    requires a == 0 || AvoidsAll(quals, d, a)
    ensures Chosen(I, join, ShiftAll(quals, d, a, FULL_SHIFT), Moved(fs, d), Below(ctes, env, d, a)) == Moved(Chosen(I, join, quals, fs, env), d)
    ensures forall i :: 0 <= i < |Chosen(I, join, quals, fs, env)| ==> Chosen(I, join, quals, fs, env)[i].ctes == ctes
    decreases quals, 4
  {
    match join
    case Inner => FilterShift(I, quals, fs, ctes, env, d, a);
    case Outer(shape) =>
      ConditionsShift(I, quals, fs, ctes, env, d, a);
      MovedBindings(fs, d);
      PickedMoved(fs, I.pick(shape, Bindings(fs), Conditions(I, quals, fs, env)), d);
  }

  lemma {:induction false} SourceShift(I: Interp, r: Rte, env: Env, d: nat, a: nat)
    requires d + a < |env|
    requires a == 0 || AvoidsRte(r, d, a)
    ensures Source(I, ShiftRte(r, d, a, FULL_SHIFT), Insert(env, d, a)) == Source(I, r, env)
    decreases r, 0
  {
    match r
    case Relation(_) =>
    case Derived(sub) => NestedShift(I, sub, env, d, a);
    case CteRef(_, l) => InsertAt(env, d, a, l);
  }

  lemma {:induction false} ExtendShift(I: Interp, r: Rte, outer: bool, bs: seq<Binding>, ctes: map<nat, Table>, env: Env, d: nat, a: nat)
    requires d + a <= |env| && (d == 0 ==> a == 0)
    requires a == 0 || AvoidsRte(r, d, a)
    ensures Extend(I, ShiftRte(r, d, a, FULL_SHIFT), outer, bs, OwnCtes(ctes, d), Below(ctes, env, d, a)) == Extend(I, r, outer, bs, ctes, env)
    decreases r, 1, |bs|
  {
    if bs != [] {
      var f := Frame(ctes, bs[0], []);
      InsertPush(f, env, d, a);
      SourceShift(I, r, [f] + env, d, a);
      ExtendShift(I, r, outer, bs[1..], ctes, env, d, a);
    }
  }

  lemma {:induction false} RtesBefore(rs: seq<Rte>, n: nat, d: nat, a: nat)
    requires n < |rs|
    ensures ShiftRtes(rs, d, a, FULL_SHIFT)[..n] == ShiftRtes(rs[..n], d, a, FULL_SHIFT)
    ensures AvoidsRtes(rs, d, a) ==> AvoidsRtes(rs[..n], d, a) && AvoidsRte(rs[n], d, a)
  {
  }

  // Range tables that agree up to the last entry, and on it.
  lemma {:induction false} ProductStep(I: Interp, rs2: seq<Rte>, rs: seq<Rte>, outer: bool, ctes2: map<nat, Table>, env2: Env, ctes: map<nat, Table>, env: Env)
    requires
      var n := |rs| - 1;
      && |rs2| == |rs| > 0
      && Product(I, rs2[..n], outer, ctes2, env2) == Product(I, rs[..n], outer, ctes, env)
      && var bs := Product(I, rs[..n], outer, ctes, env);
         Extend(I, rs2[n], outer, bs, ctes2, env2) == Extend(I, rs[n], outer, bs, ctes, env)
    ensures Product(I, rs2, outer, ctes2, env2) == Product(I, rs, outer, ctes, env)
  {
  }

  lemma {:induction false} ProductShift(I: Interp, rs: seq<Rte>, outer: bool, ctes: map<nat, Table>, env: Env, d: nat, a: nat)
    requires d + a <= |env| && (d == 0 ==> a == 0)
    requires a == 0 || AvoidsRtes(rs, d, a)
    ensures Product(I, ShiftRtes(rs, d, a, FULL_SHIFT), outer, OwnCtes(ctes, d), Below(ctes, env, d, a)) == Product(I, rs, outer, ctes, env)
    decreases rs
  {
    if rs != [] {
      var n := |rs| - 1;
      RtesBefore(rs, n, d, a);
      ProductShift(I, rs[..n], outer, ctes, env, d, a);
      ExtendShift(I, rs[n], outer, Product(I, rs[..n], outer, ctes, env), ctes, env, d, a);
      ProductStep(I, ShiftRtes(rs, d, a, FULL_SHIFT), rs, outer, OwnCtes(ctes, d), Below(ctes, env, d, a), ctes, env);
    }
  }

  lemma {:induction false} CteTableShift(I: Interp, c: Cte, env: Env, d: nat, a: nat)
    requires d + a < |env|
    requires a == 0 || AvoidsCte(c, d, a)
    ensures CteTable(I, ShiftCte(c, d, a, FULL_SHIFT), Insert(env, d, a)) == CteTable(I, c, env)
    decreases c
  {
    NestedShift(I, c.body, env, d, a);
  }

  lemma {:induction false} CteTablesShift(I: Interp, cs: seq<Cte>, env: Env, d: nat, a: nat)
    requires d + a < |env|
    requires a == 0 || AvoidsCtes(cs, d + 1, a)
    ensures CteTables(I, ShiftCtes(cs, d + 1, a, FULL_SHIFT), Insert(env, d, a)) == CteTables(I, cs, env)
    decreases cs
  {
    if cs != [] {
      CteTablesShift(I, cs[..|cs| - 1], env, d, a);
      var before := Frame(CteTables(I, cs[..|cs| - 1], env), [], []);
      InsertPush(before, env, d + 1, a);
      CteTableShift(I, cs[|cs| - 1], [before] + env, d + 1, a);
    }
  }

  // A query at depth `d`: its frames move, its rows stay.
  lemma {:induction false} SelectedShift(I: Interp, q: Query, ctes: map<nat, Table>, env: Env, d: nat, a: nat)
    requires d + a <= |env| && (d == 0 ==> a == 0)
    requires a == 0 || AvoidsQuery(q, d, a)
    ensures Selected(I, ShiftQuery(q, d, a, FULL_SHIFT), OwnCtes(ctes, d), Below(ctes, env, d, a)) == Moved(Selected(I, q, ctes, env), d)
    ensures forall i :: 0 <= i < |Selected(I, q, ctes, env)| ==> Selected(I, q, ctes, env)[i].ctes == ctes
    decreases q, 0
  {
    ProductShift(I, q.rtable, q.join.Outer?, ctes, env, d, a);
    var fs := Combined(I, q, ctes, env);
    assert Moved(fs, d) == Combined(I, ShiftQuery(q, d, a, FULL_SHIFT), OwnCtes(ctes, d), Below(ctes, env, d, a));
    ChosenShift(I, q.join, q.quals, fs, ctes, env, d, a);
  }

  lemma {:induction false} ProjectedShift(I: Interp, q: Query, ctes: map<nat, Table>, env: Env, d: nat, a: nat)
    requires d + a <= |env| && (d == 0 ==> a == 0)
    requires a == 0 || AvoidsQuery(q, d, a)
    ensures Projected(I, ShiftQuery(q, d, a, FULL_SHIFT), OwnCtes(ctes, d), Below(ctes, env, d, a)) == Moved(Projected(I, q, ctes, env), d)
    ensures forall i :: 0 <= i < |Projected(I, q, ctes, env)| ==> Projected(I, q, ctes, env)[i].ctes == ctes
    decreases q, 1
  {
    SelectedShift(I, q, ctes, env, d, a);
    if q.grouped {
      var fs := Selected(I, q, ctes, env);
      KeysShift(I, q.tlist, q.group, fs, ctes, env, d, a);
      MovedBindings(fs, d);
      var gs := GroupsOf(I, q, Keys(I, q.tlist, q.group, fs, env), Bindings(fs));
      MovedFrames(ctes, gs, d);
      FilterShift(I, q.having, FramesOf(ctes, gs), ctes, env, d, a);
    }
  }

  lemma {:induction false} MovedBindings(fs: seq<Frame>, d: nat)
    ensures Bindings(Moved(fs, d)) == Bindings(fs)
  {
  }

  lemma {:induction false} MovedFrames(ctes: map<nat, Table>, gs: seq<(Binding, seq<Binding>)>, d: nat)
    ensures Moved(FramesOf(ctes, gs), d) == FramesOf(OwnCtes(ctes, d), gs)
  {
  }

  lemma {:induction false} NestedShift(I: Interp, q: Query, env: Env, d: nat, a: nat)
    requires d + a < |env|
    requires a == 0 || AvoidsQuery(q, d + 1, a)
    ensures Rows(I, ShiftQuery(q, d + 1, a, FULL_SHIFT), Insert(env, d, a)) == Rows(I, q, env)
    decreases q, 2
  {
    var ctes := CteTables(I, q.ctes, env);
    CteTablesShift(I, q.ctes, env, d, a);
    ProjectedShift(I, q, ctes, env, d + 1, a);
    TargetRowsShift(I, q.tlist, Projected(I, q, ctes, env), ctes, env, d + 1, a);
  }
}
