/**
  Where things are in a plan tree: the nodes that a walk of the plan reaches, and the
  parts of an expression. What the passes do is stated over these, node by node.
 */
module PlanPaths {
  import opened PlanTree

  // ----- nodes -----

  datatype Step = ToLeft | ToRight | ToKid(index: nat)

  // Only these operators keep child plans in a list.
  predicate HasChild(t: Tree, s: Step) {
    t.Node? && match s
               case ToLeft => t.left.Node?
               case ToRight => t.right.Node?
               case ToKid(i) =>
                 && (t.op.Append? || t.op.MergeAppend? || t.op.BitmapAnd? || t.op.BitmapOr? || t.op.SubqueryScan? || t.op.CustomScan?)
                 && i < |t.kids| && t.kids[i].Node?
  }

  function Child(t: Tree, s: Step): Tree
    requires HasChild(t, s)
  {
    match s case ToLeft => t.left case ToRight => t.right case ToKid(i) => t.kids[i]
  }

  predicate IsPath(t: Tree, path: seq<Step>)
    decreases path
  {
    if path == [] then t.Node? else HasChild(t, path[0]) && IsPath(Child(t, path[0]), path[1..])
  }

  function NodeAt(t: Tree, path: seq<Step>): (n: Tree)
    requires IsPath(t, path)
    ensures n.Node?
    decreases path
  {
    if path == [] then t else NodeAt(Child(t, path[0]), path[1..])
  }

  // Some node that a walk reaches has the property.
  ghost predicate Somewhere(t: Tree, p: Tree -> bool) {
    exists path :: IsPath(t, path) && p(NodeAt(t, path))
  }

  lemma {:induction false} Below(t: Tree, s: Step, path: seq<Step>)
    requires HasChild(t, s) && IsPath(Child(t, s), path)
    ensures IsPath(t, [s] + path) && NodeAt(t, [s] + path) == NodeAt(Child(t, s), path)
  {
    assert ([s] + path)[1..] == path;
  }

  // It is the root or it is below one of the children.
  lemma {:induction false} SomewhereStep(t: Tree, p: Tree -> bool)
    requires t.Node?
    ensures Somewhere(t, p) <==> p(t) || exists s :: HasChild(t, s) && Somewhere(Child(t, s), p)
  {
    if p(t) { assert IsPath(t, []) && NodeAt(t, []) == t; }
    if Somewhere(t, p) {
      var path :| IsPath(t, path) && p(NodeAt(t, path));
      if path != [] { assert IsPath(Child(t, path[0]), path[1..]) && p(NodeAt(Child(t, path[0]), path[1..])); }
    }
    forall s | HasChild(t, s) && Somewhere(Child(t, s), p) ensures Somewhere(t, p) {
      var path :| IsPath(Child(t, s), path) && p(NodeAt(Child(t, s), path));
      Below(t, s, path);
    }
  }

  // ----- parts of expressions; the arguments of a SubPlan are parts, its plan is not -----

  predicate PartOf(x: Expr, e: Expr)
    decreases e
  {
    x == e || (e.Func? && PartOfAny(x, e.args)) || (e.SubPlan? && PartOfAny(x, e.args))
  }

  predicate PartOfAny(x: Expr, es: seq<Expr>)
    decreases es
  {
    exists i :: 0 <= i < |es| && PartOf(x, es[i])
  }

  lemma {:induction false} PartOfStep(x: Expr, es: seq<Expr>)
    requires es != []
    ensures PartOfAny(x, es) <==> PartOf(x, es[0]) || PartOfAny(x, es[1..])
  {
    if PartOfAny(x, es[1..]) {
      var i :| 0 <= i < |es[1..]| && PartOf(x, es[1..][i]);
      assert es[i + 1] == es[1..][i];
    }
    if PartOfAny(x, es) {
      var i :| 0 <= i < |es| && PartOf(x, es[i]);
      if i > 0 { assert es[1..][i - 1] == es[i]; }
    }
  }

  ghost predicate SomePart(e: Expr, p: Expr -> bool) { exists x :: PartOf(x, e) && p(x) }

  ghost predicate AnyPart(es: seq<Expr>, p: Expr -> bool) { exists x :: PartOfAny(x, es) && p(x) }

  lemma {:induction false} AnyPartStep(es: seq<Expr>, p: Expr -> bool)
    requires es != []
    ensures AnyPart(es, p) <==> SomePart(es[0], p) || AnyPart(es[1..], p)
  {
    forall x ensures PartOfAny(x, es) <==> PartOf(x, es[0]) || PartOfAny(x, es[1..]) { PartOfStep(x, es); }
  }

  lemma {:induction false} SomePartStep(e: Expr, p: Expr -> bool)
    ensures SomePart(e, p) <==> p(e) || (e.Func? && AnyPart(e.args, p)) || (e.SubPlan? && AnyPart(e.args, p))
  {
    if p(e) { assert PartOf(e, e); }
    if (e.Func? || e.SubPlan?) && AnyPart(e.args, p) {
      var x :| PartOfAny(x, e.args) && p(x);
      assert PartOf(x, e);
    }
  }

  // ----- effects, sets and references that a list must not be pushed with -----

  function Effect(m: Machine): Expr -> bool { (x: Expr) => x.SubPlan? || (x.Func? && m.volatile_(x.fn)) }

  function SetFunction(m: Machine): Expr -> bool { (x: Expr) => x.Func? && m.setReturning(x.fn) }

  lemma {:induction false} EffectsIff(m: Machine, e: Expr)
    ensures HasEffects(m, e) <==> SomePart(e, Effect(m))
    decreases e
  {
    SomePartStep(e, Effect(m));
    if e.Func? { AnyEffectsIff(m, e.args); }
  }

  lemma {:induction false} AnyEffectsIff(m: Machine, es: seq<Expr>)
    ensures AnyEffects(m, es) <==> AnyPart(es, Effect(m))
    decreases es
  {
    if es != [] {
      EffectsIff(m, es[0]);
      AnyEffectsIff(m, es[1..]);
      AnyPartStep(es, Effect(m));
    }
  }

  lemma {:induction false} SetsIff(m: Machine, e: Expr)
    ensures ReturnsSet(m, e) <==> SomePart(e, SetFunction(m))
    decreases e
  {
    SomePartStep(e, SetFunction(m));
    if e.Func? || e.SubPlan? { AnySetsIff(m, e.args); }
  }

  lemma {:induction false} AnySetsIff(m: Machine, es: seq<Expr>)
    ensures AnyReturnsSet(m, es) <==> AnyPart(es, SetFunction(m))
    decreases es
  {
    if es != [] {
      SetsIff(m, es[0]);
      AnySetsIff(m, es[1..]);
      AnyPartStep(es, SetFunction(m));
    }
  }
}
