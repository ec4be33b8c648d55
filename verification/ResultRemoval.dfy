/**
  Removal of redundant Result nodes (compat/utils/remove_redundant_results.cpp).

  One bottom-up pass composes a Result's projection with that of its cleaned child
  and drops the Result. `Remove` is that pass on values; the module PlanHeap runs it
  in place. The pass keeps the rows of every well-formed tree, keeps it well formed,
  and reaches a fixpoint exactly when no collapse drops a column that was the only
  reason for a lower Result to stay.
 */
module ResultRemoval {
  import opened PlanTree

  // ----- the pass -----

  // push_down_expr_mutator
  function PushDown(e: Expr, child: seq<Expr>): Expr
    decreases e
  {
    match e
    case Var(OuterVar, a) => if 0 < a <= |child| then child[a - 1] else e
    case Func(fn, args) => Func(fn, PushDownAll(args, child))
    case SubPlan(p, args) => SubPlan(p, PushDownAll(args, child))
    case _ => e
  }

  function PushDownAll(es: seq<Expr>, child: seq<Expr>): (r: seq<Expr>)
    ensures |r| == |es|
    ensures forall i :: 0 <= i < |es| ==> r[i] == PushDown(es[i], child)
    decreases es
  {
    if es == [] then [] else [PushDown(es[0], child)] + PushDownAll(es[1..], child)
  }

  // tlist_unsafe_to_push_walker: a Param, or a Var that is not a positive OUTER_VAR
  predicate Unsafe(e: Expr)
    decreases e
  {
    match e
    case Var(v, a) => v != OuterVar || a <= 0
    case Param(_) => true
    case Func(_, args) => AnyUnsafe(args)
    case _ => false
  }

  predicate AnyUnsafe(es: seq<Expr>)
    decreases es
  {
    es != [] && (Unsafe(es[0]) || AnyUnsafe(es[1..]))
  }

  predicate SafeToPush(m: Machine, tlist: seq<Expr>) {
    !AnyEffects(m, tlist) && !AnyUnsafe(tlist)
  }

  predicate Replaceable(m: Machine, op: Op, tlist: seq<Expr>) {
    !AnyReturnsSet(m, tlist) && !AnyEffects(m, tlist) && ProjectionCapable(op)
  }

  predicate CanReplaceTlist(m: Machine, t: Tree) {
    t.Node? && Replaceable(m, t.op, t.tlist)
  }

  // A Result that only projects.
  predicate BareResult(t: Tree) {
    t.Node? && t.op.Result? && t.own == [] && t.initPlan == [] && t.qual == []
  }

  predicate Collapsible(m: Machine, t: Tree) {
    BareResult(t) && !AnyReturnsSet(m, t.tlist) && SafeToPush(m, t.tlist) && CanReplaceTlist(m, t.left)
  }

  // The child takes over the composed projection and keeps everything else.
  function Collapse(t: Tree): Tree
    requires t.Node? && t.left.Node?
  {
    t.left.(tlist := PushDownAll(t.tlist, t.left.tlist))
  }

  // Operators whose list of child plans the pass descends into.
  predicate HasPlanList(op: Op) {
    op.Append? || op.MergeAppend? || op.BitmapAnd? || op.BitmapOr? || op.SubqueryScan? || op.CustomScan?
  }

  /** remove_redundant_results_walker */
  function Remove(m: Machine, t: Tree): Tree
    decreases t, 1
  {
    if t.Empty? then Empty
    else
      var n := CleanChildren(m, t);
      if Collapsible(m, n) then Collapse(n) else n
  }

  // recurse_plan_children
  function CleanChildren(m: Machine, t: Tree): (n: Tree)
    requires t.Node?
    ensures n.Node?
    decreases t, 0
  {
    t.(left := Remove(m, t.left), right := Remove(m, t.right),
       kids := if HasPlanList(t.op) then RemoveAll(m, t.kids) else t.kids)
  }

  function RemoveAll(m: Machine, ts: seq<Tree>): (r: seq<Tree>)
    ensures |r| == |ts|
    ensures forall i :: 0 <= i < |ts| ==> r[i] == Remove(m, ts[i])
    decreases ts
  {
    if ts == [] then [] else [Remove(m, ts[0])] + RemoveAll(m, ts[1..])
  }

  // ----- well-formedness: OUTER_VAR and INNER_VAR stay inside the child's list -----

  // `opaqueOk`: the operator can resolve Aggref and its like (a Result cannot).
  predicate InScope(e: Expr, outer: nat, inner: nat, opaqueOk: bool)
    decreases e
  {
    match e
    case Var(OuterVar, a) => a <= outer
    case Var(InnerVar, a) => a <= inner
    case Func(_, args) => AllInScope(args, outer, inner, opaqueOk)
    case SubPlan(_, args) => AllInScope(args, outer, inner, opaqueOk)
    case Opaque(_) => opaqueOk
    case _ => true
  }

  predicate AllInScope(es: seq<Expr>, outer: nat, inner: nat, opaqueOk: bool)
    decreases es
  {
    es == [] || (InScope(es[0], outer, inner, opaqueOk) && AllInScope(es[1..], outer, inner, opaqueOk))
  }

  predicate WellFormed(t: Tree)
    decreases t
  {
    t.Node? ==>
      var o, i, q := |Tlist(t.left)|, |Tlist(t.right)|, !t.op.Result?;
      && AllInScope(t.tlist, o, i, q) && AllInScope(t.qual, o, i, q) && AllInScope(t.own, o, i, q)
      && AllInScope(t.hidden, o, i, q)
      && WellFormed(t.left) && WellFormed(t.right) && AllWellFormed(t.kids)
  }

  predicate AllWellFormed(ts: seq<Tree>)
    decreases ts
  {
    ts == [] || (WellFormed(ts[0]) && AllWellFormed(ts[1..]))
  }

  // ----- substitution -----

  // Evaluating the composed list on the child's tuple is evaluating the original
  // on the child's projected row.
  lemma {:induction false} PushDownEval(m: Machine, e: Expr, child: seq<Expr>, inner: nat, env: Env)
    requires !Unsafe(e) && !HasEffects(m, e) && InScope(e, |child|, inner, false)
    ensures Eval(m, PushDown(e, child), env) == Eval(m, e, Env(EvalAll(m, child, env), [], [], 0))
    decreases e
  {
    match e
    case Func(_, args) => PushDownEvalAll(m, args, child, inner, env);
    case _ =>
  }

  lemma {:induction false} PushDownEvalAll(m: Machine, es: seq<Expr>, child: seq<Expr>, inner: nat, env: Env)
    requires !AnyUnsafe(es) && !AnyEffects(m, es) && AllInScope(es, |child|, inner, false)
    ensures EvalAll(m, PushDownAll(es, child), env) == EvalAll(m, es, Env(EvalAll(m, child, env), [], [], 0))
    decreases es
  {
    if es != [] {
      PushDownEval(m, es[0], child, inner, env);
      PushDownEvalAll(m, es[1..], child, inner, env);
      assert PushDownAll(es, child)[1..] == PushDownAll(es[1..], child);
    }
  }

  lemma {:induction false} NoEffectsAt(m: Machine, es: seq<Expr>, i: nat)
    requires i < |es| && !AnyEffects(m, es) && !AnyReturnsSet(m, es)
    ensures !HasEffects(m, es[i]) && !ReturnsSet(m, es[i])
  {
    if i > 0 { NoEffectsAt(m, es[1..], i - 1); }
  }

  lemma {:induction false} UnsafeAt(es: seq<Expr>, i: nat)
    requires i < |es| && !AnyUnsafe(es)
    ensures !Unsafe(es[i])
  {
    if i > 0 { UnsafeAt(es[1..], i - 1); }
  }

  // Composition adds no effects.
  lemma {:induction false} PushDownPure(m: Machine, e: Expr, child: seq<Expr>)
    requires !HasEffects(m, e) && !ReturnsSet(m, e)
    requires !AnyEffects(m, child) && !AnyReturnsSet(m, child)
    ensures !HasEffects(m, PushDown(e, child)) && !ReturnsSet(m, PushDown(e, child))
    decreases e
  {
    match e
    case Var(OuterVar, a) => if 0 < a <= |child| { NoEffectsAt(m, child, a - 1); }
    case Func(_, args) => PushDownPureAll(m, args, child);
    case _ =>
  }

  lemma {:induction false} PushDownPureAll(m: Machine, es: seq<Expr>, child: seq<Expr>)
    requires !AnyEffects(m, es) && !AnyReturnsSet(m, es)
    requires !AnyEffects(m, child) && !AnyReturnsSet(m, child)
    ensures !AnyEffects(m, PushDownAll(es, child)) && !AnyReturnsSet(m, PushDownAll(es, child))
    decreases es
  {
    if es != [] {
      PushDownPure(m, es[0], child);
      PushDownPureAll(m, es[1..], child);
      assert PushDownAll(es, child)[1..] == PushDownAll(es[1..], child);
    }
  }

  // Composition stays inside the scope of the child.
  lemma {:induction false} InScopeAt(es: seq<Expr>, i: nat, o: nat, n: nat, q: bool)
    requires i < |es| && AllInScope(es, o, n, q)
    ensures InScope(es[i], o, n, q)
  {
    if i > 0 { InScopeAt(es[1..], i - 1, o, n, q); }
  }

  lemma {:induction false} PushDownScope(m: Machine, e: Expr, child: seq<Expr>, inner: nat, o: nat, n: nat, q: bool)
    requires !Unsafe(e) && !HasEffects(m, e) && InScope(e, |child|, inner, false) && AllInScope(child, o, n, q)
    ensures InScope(PushDown(e, child), o, n, q)
    decreases e
  {
    match e
    case Var(OuterVar, a) => InScopeAt(child, a - 1, o, n, q);
    case Func(_, args) => PushDownScopeAll(m, args, child, inner, o, n, q);
    case _ =>
  }

  lemma {:induction false} PushDownScopeAll(m: Machine, es: seq<Expr>, child: seq<Expr>, inner: nat, o: nat, n: nat, q: bool)
    requires !AnyUnsafe(es) && !AnyEffects(m, es) && AllInScope(es, |child|, inner, false) && AllInScope(child, o, n, q)
    ensures AllInScope(PushDownAll(es, child), o, n, q)
    decreases es
  {
    if es != [] {
      PushDownScope(m, es[0], child, inner, o, n, q);
      PushDownScopeAll(m, es[1..], child, inner, o, n, q);
      assert PushDownAll(es, child)[1..] == PushDownAll(es[1..], child);
    }
  }

  // ----- the rows are kept -----

  lemma {:induction false} KeepAll(m: Machine, envs: seq<Env>)
    ensures Keep(m, [], envs) == envs
  {
    if envs != [] { KeepAll(m, envs[1..]); }
  }

  // One collapse: projecting the child's tuples through the composed list yields
  // the rows the Result projected from the child's rows.
  lemma {:induction false} CollapseRows(m: Machine, t: Tree)
    requires WellFormed(t) && Collapsible(m, t)
    ensures Rows(m, Collapse(t)) == Rows(m, t)
  {
    var c := t.left;
    var rows := Rows(m, c);
    KeepAll(m, OuterEnvs(rows));
    var composed := PushDownAll(t.tlist, c.tlist);
    PushDownPureAll(m, t.tlist, c.tlist);
    var l, r, k := Rows(m, c.left), Rows(m, c.right), RowsAll(m, c.kids);
    var envs := if c.op.Result? then ResultEnvs(m, c.own, c.qual, c.left, l)
                else m.produce(c.op, c.qual, c.own, l, r, k);
    assert rows == ProjectEach(m, c.tlist, envs);
    forall i | 0 <= i < |envs|
      ensures EvalAll(m, composed, envs[i]) == EvalAll(m, t.tlist, OuterEnvs(rows)[i])
    {
      PushDownEvalAll(m, t.tlist, c.tlist, |Tlist(t.right)|, envs[i]);
    }
    assert ProjectEach(m, composed, envs) == ProjectEach(m, t.tlist, OuterEnvs(rows));
  }

  lemma {:induction false} RemoveWidth(m: Machine, t: Tree)
    ensures Remove(m, t).Empty? <==> t.Empty?
    ensures |Tlist(Remove(m, t))| == |Tlist(t)|
  {
  }

  lemma {:induction false} RemoveWellFormed(m: Machine, t: Tree)
    requires WellFormed(t)
    ensures WellFormed(Remove(m, t))
    ensures t.Node? ==> WellFormed(CleanChildren(m, t))
    decreases t
  {
    if t.Node? {
      RemoveWellFormed(m, t.left);
      RemoveWellFormed(m, t.right);
      RemoveAllWellFormed(m, t.kids);
      RemoveWidth(m, t.left);
      RemoveWidth(m, t.right);
      var n := CleanChildren(m, t);
      if Collapsible(m, n) {
        var c := n.left;
        PushDownScopeAll(m, n.tlist, c.tlist, |Tlist(n.right)|, |Tlist(c.left)|, |Tlist(c.right)|, !c.op.Result?);
      }
    }
  }

  lemma {:induction false} RemoveAllWellFormed(m: Machine, ts: seq<Tree>)
    requires AllWellFormed(ts)
    ensures AllWellFormed(RemoveAll(m, ts))
    decreases ts
  {
    if ts != [] {
      RemoveWellFormed(m, ts[0]);
      RemoveAllWellFormed(m, ts[1..]);
      assert RemoveAll(m, ts)[1..] == RemoveAll(m, ts[1..]);
    }
  }

  /** The whole pass keeps the rows of every well-formed tree, in order. */
  lemma {:induction false} RemoveRows(m: Machine, t: Tree)
    requires WellFormed(t)
    ensures Rows(m, Remove(m, t)) == Rows(m, t)
    decreases t
  {
    if t.Node? {
      RemoveRows(m, t.left);
      RemoveRows(m, t.right);
      RemoveAllRows(m, t.kids);
      RemoveWidth(m, t.left);
      var n := CleanChildren(m, t);
      assert Rows(m, n) == Rows(m, t);
      if Collapsible(m, n) {
        RemoveWellFormed(m, t);
        CollapseRows(m, n);
      }
    }
  }

  lemma {:induction false} RemoveAllRows(m: Machine, ts: seq<Tree>)
    requires AllWellFormed(ts)
    ensures RowsAll(m, RemoveAll(m, ts)) == RowsAll(m, ts)
    decreases ts
  {
    if ts != [] {
      RemoveRows(m, ts[0]);
      RemoveAllRows(m, ts[1..]);
      assert RemoveAll(m, ts)[1..] == RemoveAll(m, ts[1..]);
    }
  }
}
