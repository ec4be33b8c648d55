/**
  When one pass of Result removal is enough.

  A second pass finds work exactly when some Result collapsed onto a bare Result
  that had stayed only because of columns the collapse dropped.
 */
module ResultFixpoint {
  import opened PlanTree
  import opened PlanPaths
  import opened ResultRemoval

  // Some node that the pass visits could be collapsed.
  predicate Pending(m: Machine, t: Tree)
    decreases t
  {
    t.Node? && (Collapsible(m, t) || Pending(m, t.left) || Pending(m, t.right)
                || (HasPlanList(t.op) && AnyPending(m, t.kids)))
  }

  predicate AnyPending(m: Machine, ts: seq<Tree>)
    decreases ts
  {
    ts != [] && (Pending(m, ts[0]) || AnyPending(m, ts[1..]))
  }

  // Whether a list reads column `a` of the child's target list.
  predicate Reads(e: Expr, a: int)
    decreases e
  {
    match e
    case Var(OuterVar, b) => a == b
    case Func(_, args) => AnyReads(args, a)
    case _ => false
  }

  predicate AnyReads(es: seq<Expr>, a: int)
    decreases es
  {
    es != [] && (Reads(es[0], a) || AnyReads(es[1..], a))
  }

  predicate UnsafeColumn(child: seq<Expr>, a: int) {
    0 < a <= |child| && Unsafe(child[a - 1])
  }

  // `tlist` reads no column of `child` that must not be pushed.
  ghost predicate ReadsOnlySafe(tlist: seq<Expr>, child: seq<Expr>) {
    forall a :: AnyReads(tlist, a) ==> !UnsafeColumn(child, a)
  }

  // The Result `n` absorbs a bare Result that only its own unsafe columns kept
  // apart from a child able to project, and `n` reads none of those columns.
  ghost predicate DropsBlocker(m: Machine, n: Tree)
    requires n.Node?
  {
    && BareResult(n.left) && CanReplaceTlist(m, n.left.left)
    && AnyUnsafe(n.left.tlist) && ReadsOnlySafe(n.tlist, n.left.tlist)
  }

  // Somewhere in the tree the pass performs such a collapse.
  ghost predicate Uncovers(m: Machine, t: Tree)
    decreases t
  {
    t.Node? &&
    var n := CleanChildren(m, t);
    || Uncovers(m, t.left)
    || (if Collapsible(m, n) then DropsBlocker(m, n)
        else Uncovers(m, t.right) || (HasPlanList(t.op) && AnyUncovers(m, t.kids)))
  }

  ghost predicate AnyUncovers(m: Machine, ts: seq<Tree>)
    decreases ts
  {
    ts != [] && (Uncovers(m, ts[0]) || AnyUncovers(m, ts[1..]))
  }

  // ----- a tree is a fixpoint iff nothing is pending -----

  function Size(t: Tree): nat
    decreases t
  {
    if t.Empty? then 0 else 1 + Size(t.left) + Size(t.right) + SizeAll(t.kids)
  }

  function SizeAll(ts: seq<Tree>): nat
    decreases ts
  {
    if ts == [] then 0 else Size(ts[0]) + SizeAll(ts[1..])
  }

  lemma {:induction false} RemoveSize(m: Machine, t: Tree)
    ensures Size(Remove(m, t)) <= Size(t)
    ensures Pending(m, t) ==> Size(Remove(m, t)) < Size(t)
    ensures !Pending(m, t) ==> Remove(m, t) == t
    decreases t
  {
    if t.Node? {
      RemoveSize(m, t.left);
      RemoveSize(m, t.right);
      RemoveAllSize(m, t.kids);
    }
  }

  lemma {:induction false} RemoveAllSize(m: Machine, ts: seq<Tree>)
    ensures SizeAll(RemoveAll(m, ts)) <= SizeAll(ts)
    ensures AnyPending(m, ts) ==> SizeAll(RemoveAll(m, ts)) < SizeAll(ts)
    ensures !AnyPending(m, ts) ==> RemoveAll(m, ts) == ts
    decreases ts
  {
    if ts != [] {
      RemoveSize(m, ts[0]);
      RemoveAllSize(m, ts[1..]);
      assert RemoveAll(m, ts)[1..] == RemoveAll(m, ts[1..]);
    }
  }

  // ----- what a collapse leaves pending -----

  lemma {:induction false} PushDownUnsafe(e: Expr, child: seq<Expr>)
    requires !Unsafe(e)
    ensures Unsafe(PushDown(e, child)) <==> exists a :: Reads(e, a) && UnsafeColumn(child, a)
    decreases e
  {
    match e
    case Var(OuterVar, a) =>
      assert Reads(e, a);
      assert Unsafe(PushDown(e, child)) <==> UnsafeColumn(child, a);
      assert forall b :: Reads(e, b) <==> a == b;
    case Func(_, args) =>
      PushDownUnsafeAll(args, child);
      assert forall a :: Reads(e, a) <==> AnyReads(args, a);
    case _ =>
  }

  lemma {:induction false} PushDownUnsafeAll(es: seq<Expr>, child: seq<Expr>)
    requires !AnyUnsafe(es)
    ensures AnyUnsafe(PushDownAll(es, child)) <==> !ReadsOnlySafe(es, child)
    decreases es
  {
    if es != [] {
      PushDownUnsafe(es[0], child);
      PushDownUnsafeAll(es[1..], child);
      assert PushDownAll(es, child)[1..] == PushDownAll(es[1..], child);
      assert forall a :: AnyReads(es, a) <==> Reads(es[0], a) || AnyReads(es[1..], a);
    }
  }

  lemma {:induction false} CollapseStaysPure(m: Machine, n: Tree)
    requires n.Node? && Collapsible(m, n)
    ensures Collapsible(m, Collapse(n)) <==>
            BareResult(n.left) && CanReplaceTlist(m, n.left.left) && ReadsOnlySafe(n.tlist, n.left.tlist)
  {
    PushDownPureAll(m, n.tlist, n.left.tlist);
    PushDownUnsafeAll(n.tlist, n.left.tlist);
  }

  // A list without unsafe columns has only safe columns to read.
  lemma {:induction false} SafeColumns(tlist: seq<Expr>, child: seq<Expr>)
    requires !AnyUnsafe(child)
    ensures ReadsOnlySafe(tlist, child)
  {
    forall a | UnsafeColumn(child, a) ensures false { UnsafeAt(child, a - 1); }
  }

  lemma {:induction false} PendingIffUncovers(m: Machine, t: Tree)
    ensures Pending(m, Remove(m, t)) <==> Uncovers(m, t)
    decreases t
  {
    if t.Node? {
      PendingIffUncovers(m, t.left);
      PendingIffUncovers(m, t.right);
      PendingIffUncoversAll(m, t.kids);
      var n := CleanChildren(m, t);
      if Collapsible(m, n) {
        CollapseStaysPure(m, n);
        if !AnyUnsafe(n.left.tlist) { SafeColumns(n.tlist, n.left.tlist); }
        var c := Collapse(n);
        assert Remove(m, t) == c && n.left == Remove(m, t.left);
        assert c.op == n.left.op && c.left == n.left.left && c.right == n.left.right && c.kids == n.left.kids;
        assert Collapsible(m, c) <==> DropsBlocker(m, n) || Collapsible(m, n.left);
      }
    }
  }

  lemma {:induction false} PendingIffUncoversAll(m: Machine, ts: seq<Tree>)
    ensures AnyPending(m, RemoveAll(m, ts)) <==> AnyUncovers(m, ts)
    decreases ts
  {
    if ts != [] {
      PendingIffUncovers(m, ts[0]);
      PendingIffUncoversAll(m, ts[1..]);
      assert RemoveAll(m, ts)[1..] == RemoveAll(m, ts[1..]);
    }
  }

  /** A second pass changes nothing, for exactly the trees in which no collapse drops a blocker. */
  lemma {:induction false} FixpointIff(m: Machine, t: Tree)
    ensures Remove(m, Remove(m, t)) == Remove(m, t) <==> !Uncovers(m, t)
  {
    RemoveSize(m, Remove(m, t));
    PendingIffUncovers(m, t);
  }

  // ----- the common case: Result lists without Params or foreign Vars -----

  predicate PlainResults(t: Tree)
    decreases t
  {
    t.Node? ==> (t.op.Result? ==> !AnyUnsafe(t.tlist))
                && PlainResults(t.left) && PlainResults(t.right) && AllPlainResults(t.kids)
  }

  predicate AllPlainResults(ts: seq<Tree>)
    decreases ts
  {
    ts == [] || (PlainResults(ts[0]) && AllPlainResults(ts[1..]))
  }

  lemma {:induction false} PlainStaysPlain(m: Machine, t: Tree)
    requires PlainResults(t)
    ensures PlainResults(Remove(m, t)) && !Uncovers(m, t)
    decreases t
  {
    if t.Node? {
      PlainStaysPlain(m, t.left);
      PlainStaysPlain(m, t.right);
      PlainStaysPlainAll(m, t.kids);
      var n := CleanChildren(m, t);
      if Collapsible(m, n) && n.left.op.Result? {
        SafeColumns(n.tlist, n.left.tlist);
        PushDownUnsafeAll(n.tlist, n.left.tlist);
      }
    }
  }

  lemma {:induction false} PlainStaysPlainAll(m: Machine, ts: seq<Tree>)
    requires AllPlainResults(ts)
    ensures AllPlainResults(RemoveAll(m, ts)) && !AnyUncovers(m, ts)
    decreases ts
  {
    if ts != [] {
      PlainStaysPlain(m, ts[0]);
      PlainStaysPlainAll(m, ts[1..]);
      assert RemoveAll(m, ts)[1..] == RemoveAll(m, ts[1..]);
    }
  }

  /** With only positive OUTER_VAR references in Result lists one pass is enough. */
  lemma {:induction false} PlainFixpoint(m: Machine, t: Tree)
    requires PlainResults(t)
    ensures Remove(m, Remove(m, t)) == Remove(m, t)
  {
    PlainStaysPlain(m, t);
    FixpointIff(m, t);
  }

  // ----- node by node: nothing redundant is left -----

  // A list without effects and set-returning functions.
  ghost predicate Pure(m: Machine, tlist: seq<Expr>) {
    !AnyPart(tlist, Effect(m)) && !AnyPart(tlist, SetFunction(m))
  }

  // Operators that pass their rows on as they are.
  const PASSING := {Hash, Material, Memoize, Sort, IncrementalSort, Unique, SetOp, LockRows, Limit, ModifyTable,
                    Append, MergeAppend, RecursiveUnion, ProjectSet, CustomScan(false)}

  // A Result that only projects a pure list, over a node that could project it itself.
  ghost predicate Superfluous(m: Machine, n: Tree) {
    && n.Node? && n.op == Result && n.qual == [] && n.initPlan == [] && n.own == [] && Pure(m, n.tlist)
    && n.left.Node? && n.left.op !in PASSING && Pure(m, n.left.tlist)
  }

  function Unpushable(): Expr -> bool { (x: Expr) => x.Param? || (x.Var? && (x.varno != OuterVar || x.attno <= 0)) }

  lemma {:induction false} UnsafeIff(m: Machine, e: Expr)
    requires !HasEffects(m, e)
    ensures Unsafe(e) <==> SomePart(e, Unpushable())
    decreases e
  {
    SomePartStep(e, Unpushable());
    if e.Func? { AnyUnsafeIff(m, e.args); }
  }

  lemma {:induction false} AnyUnsafeIff(m: Machine, es: seq<Expr>)
    requires !AnyEffects(m, es)
    ensures AnyUnsafe(es) <==> AnyPart(es, Unpushable())
    decreases es
  {
    if es != [] {
      UnsafeIff(m, es[0]);
      AnyUnsafeIff(m, es[1..]);
      AnyPartStep(es, Unpushable());
    }
  }

  // The test of the pass in these terms.
  lemma {:induction false} CollapsibleIff(m: Machine, n: Tree)
    ensures Collapsible(m, n) <==> Superfluous(m, n) && !AnyPart(n.tlist, Unpushable())
  {
    if n.Node? {
      AnyEffectsIff(m, n.tlist);
      AnySetsIff(m, n.tlist);
      if !AnyEffects(m, n.tlist) { AnyUnsafeIff(m, n.tlist); }
      if n.left.Node? {
        AnyEffectsIff(m, n.left.tlist);
        AnySetsIff(m, n.left.tlist);
      }
    }
  }

  ghost function Left(m: Machine): Tree -> bool { (n: Tree) => Collapsible(m, n) }

  lemma {:induction false} PendingIff(m: Machine, t: Tree)
    ensures Pending(m, t) <==> Somewhere(t, Left(m))
    decreases t
  {
    if t.Node? {
      PendingIff(m, t.left);
      PendingIff(m, t.right);
      AnyPendingIff(m, t.kids);
      SomewhereStep(t, Left(m));
      if Somewhere(t.left, Left(m)) { assert HasChild(t, ToLeft) && Child(t, ToLeft) == t.left; }
      if Somewhere(t.right, Left(m)) { assert HasChild(t, ToRight) && Child(t, ToRight) == t.right; }
      forall i: nat | i < |t.kids| && Somewhere(t.kids[i], Left(m)) && HasPlanList(t.op) ensures Somewhere(t, Left(m)) {
        assert HasChild(t, ToKid(i)) && Child(t, ToKid(i)) == t.kids[i];
      }
    }
  }

  lemma {:induction false} AnyPendingIff(m: Machine, ts: seq<Tree>)
    ensures AnyPending(m, ts) <==> exists i :: 0 <= i < |ts| && Somewhere(ts[i], Left(m))
    decreases ts
  {
    if ts != [] {
      PendingIff(m, ts[0]);
      AnyPendingIff(m, ts[1..]);
      assert forall i :: 0 < i < |ts| ==> ts[i] == ts[1..][i - 1];
      if i :| 0 <= i < |ts[1..]| && Somewhere(ts[1..][i], Left(m)) { assert ts[i + 1] == ts[1..][i]; }
    }
  }

  // Its list reads nothing but columns of that node.
  ghost predicate Leftover(m: Machine, n: Tree) { Superfluous(m, n) && !AnyPart(n.tlist, Unpushable()) }

  /** After the pass such a Result is left somewhere, if and only if some collapse dropped a blocker. */
  lemma {:induction false} LeftoverIff(m: Machine, t: Tree)
    ensures (exists path :: IsPath(Remove(m, t), path) && Leftover(m, NodeAt(Remove(m, t), path))) <==> Uncovers(m, t)
  {
    var r := Remove(m, t);
    PendingIffUncovers(m, t);
    PendingIff(m, r);
    if path :| IsPath(r, path) && Leftover(m, NodeAt(r, path)) {
      CollapsibleIff(m, NodeAt(r, path));
      assert Left(m)(NodeAt(r, path));
    }
    if path :| IsPath(r, path) && Left(m)(NodeAt(r, path)) {
      CollapsibleIff(m, NodeAt(r, path));
      assert Leftover(m, NodeAt(r, path));
    }
  }

  /** In the common case no superfluous Result is left anywhere. */
  lemma {:induction false} NothingLeft(m: Machine, t: Tree, path: seq<Step>)
    requires PlainResults(t) && IsPath(Remove(m, t), path)
    ensures !Superfluous(m, NodeAt(Remove(m, t), path))
  {
    PlainStaysPlain(m, t);
    LeftoverIff(m, t);
    var n := NodeAt(Remove(m, t), path);
    if Superfluous(m, n) {
      PlainAt(Remove(m, t), path);
      AnyEffectsIff(m, n.tlist);
      AnyUnsafeIff(m, n.tlist);
    }
  }

  lemma {:induction false} PlainAt(t: Tree, path: seq<Step>)
    requires PlainResults(t) && IsPath(t, path)
    ensures PlainResults(NodeAt(t, path))
    decreases path
  {
    if path != [] {
      if path[0].ToKid? { PlainKid(t.kids, path[0].index); }
      PlainAt(Child(t, path[0]), path[1..]);
    }
  }

  lemma {:induction false} PlainKid(ts: seq<Tree>, i: nat)
    requires AllPlainResults(ts) && i < |ts|
    ensures PlainResults(ts[i])
  {
    if i > 0 { PlainKid(ts[1..], i - 1); }
  }

  // ----- nothing else is lost -----

  // What a node is besides its projection and its children.
  datatype Fields = Fields(op: Op, qual: seq<Expr>, initPlan: seq<Expr>, own: seq<Expr>, hidden: seq<Expr>, allParam: set<nat>)

  function FieldsOf(t: Tree): Fields
    requires t.Node?
  {
    Fields(t.op, t.qual, t.initPlan, t.own, t.hidden, t.allParam)
  }

  // The nodes of a tree that do more than project.
  function Workers(t: Tree): multiset<Fields>
    decreases t
  {
    if t.Empty? then multiset{}
    else
      (if t.op == Result && t.qual == [] && t.initPlan == [] && t.own == [] then multiset{} else multiset{FieldsOf(t)})
      + Workers(t.left) + Workers(t.right) + WorkersAll(t.kids)
  }

  function WorkersAll(ts: seq<Tree>): multiset<Fields>
    decreases ts
  {
    if ts == [] then multiset{} else Workers(ts[0]) + WorkersAll(ts[1..])
  }

  // The right child and the list of a Result, which has neither.
  predicate LeanResults(t: Tree)
    decreases t
  {
    t.Node? ==> (t.op.Result? ==> t.right.Empty? && t.kids == [])
                && LeanResults(t.left) && LeanResults(t.right) && AllLeanResults(t.kids)
  }

  predicate AllLeanResults(ts: seq<Tree>)
    decreases ts
  {
    ts == [] || (LeanResults(ts[0]) && AllLeanResults(ts[1..]))
  }

  /** The pass keeps every other node with all its fields, exactly as often as it occurs. */
  lemma {:induction false} WorkersConserved(m: Machine, t: Tree)
    requires LeanResults(t)
    ensures Workers(Remove(m, t)) == Workers(t) && LeanResults(Remove(m, t))
    decreases t
  {
    if t.Node? {
      WorkersConserved(m, t.left);
      WorkersConserved(m, t.right);
      AllWorkersConserved(m, t.kids);
      var n := CleanChildren(m, t);
      SameWorkers(n, t);
      assert LeanResults(n);
      if Collapsible(m, n) { CollapseWorkers(m, n); }
    }
  }

  // A node with children that have the same workers.
  lemma {:induction false} SameWorkers(n: Tree, t: Tree)
    requires n.Node? && t.Node? && FieldsOf(n) == FieldsOf(t)
    requires Workers(n.left) == Workers(t.left) && Workers(n.right) == Workers(t.right) && WorkersAll(n.kids) == WorkersAll(t.kids)
    ensures Workers(n) == Workers(t)
  {
  }

  lemma {:induction false} CollapseWorkers(m: Machine, n: Tree)
    requires Collapsible(m, n) && LeanResults(n)
    ensures Workers(Collapse(n)) == Workers(n) && LeanResults(Collapse(n))
  {
    SameWorkers(Collapse(n), n.left);
    assert WorkersAll(n.kids) == multiset{} && Workers(n.right) == multiset{};
  }

  lemma {:induction false} AllWorkersConserved(m: Machine, ts: seq<Tree>)
    requires AllLeanResults(ts)
    ensures WorkersAll(RemoveAll(m, ts)) == WorkersAll(ts) && AllLeanResults(RemoveAll(m, ts))
    decreases ts
  {
    if ts != [] {
      WorkersConserved(m, ts[0]);
      AllWorkersConserved(m, ts[1..]);
      assert RemoveAll(m, ts)[1..] == RemoveAll(m, ts[1..]);
    }
  }

  // ----- and a tree that needs two passes -----

  function Plain(op: Op, tlist: seq<Expr>, left: Tree): Tree {
    Node(op, tlist, [], [], [], [], left, Empty, [], {})
  }

  // Result [OUTER.1] over Result [OUTER.1, Param] over a scan: the first pass drops
  // the Param column, the second drops the Result that the Param had kept.
  function TwoPassTree(): Tree {
    Plain(Result, [Var(OuterVar, 1)],
          Plain(Result, [Var(OuterVar, 1), Param(0)],
                Plain(SeqScan(1), [Var(RangeVar(1), 1)], Empty)))
  }

  lemma {:induction false} OnePassIsNotEnough(m: Machine)
    ensures WellFormed(TwoPassTree()) && Uncovers(m, TwoPassTree())
    ensures Remove(m, TwoPassTree()) == Plain(Result, [Var(OuterVar, 1)], Plain(SeqScan(1), [Var(RangeVar(1), 1)], Empty))
    ensures Remove(m, Remove(m, TwoPassTree())) == Plain(SeqScan(1), [Var(RangeVar(1), 1)], Empty)
  {
    var scan := Plain(SeqScan(1), [Var(RangeVar(1), 1)], Empty);
    var low := Plain(Result, [Var(OuterVar, 1), Param(0)], scan);
    assert Remove(m, scan) == scan;
    assert AnyUnsafe(low.tlist) by { assert AnyUnsafe(low.tlist[1..]); }
    assert Remove(m, low) == low;
    var top := TwoPassTree();
    assert CleanChildren(m, top) == top;
    assert Collapsible(m, top);
    assert PushDownAll(top.tlist, low.tlist) == [Var(OuterVar, 1)];
    var once := Plain(Result, [Var(OuterVar, 1)], scan);
    assert Remove(m, top) == once;
    assert CleanChildren(m, once) == once;
    assert PushDownAll(once.tlist, scan.tlist) == scan.tlist;
    FixpointIff(m, top);
  }
}
