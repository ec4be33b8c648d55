/**
  Executor parameter sets (SetParamIds and FinalizeParamIds in
  gpopt/translate/CTranslatorDXLToPlStmt.cpp, the walk in compat/utils/walkers.c).

  On a rescan the executor hands each child the changed parameters that are in the
  child's allParam. After finalisation that reaches every node whose walked
  expressions mention a changed parameter, also once redundant Results are removed.
 */
module PlanParams {
  import opened PlanTree
  import opened PlanPaths
  import opened ResultRemoval

  // The Params that a walk of an expression collects; SubPlan bodies are not entered.
  function ParamsOf(e: Expr): set<nat>
    decreases e
  {
    match e
    case Param(id) => {id}
    case Func(_, args) => ParamsOfAll(args)
    case SubPlan(_, args) => ParamsOfAll(args)
    case _ => {}
  }

  function ParamsOfAll(es: seq<Expr>): set<nat>
    decreases es
  {
    if es == [] then {} else ParamsOf(es[0]) + ParamsOfAll(es[1..])
  }

  // The node's own walked expressions.
  function OwnParams(t: Tree): set<nat>
    requires t.Node?
  {
    ParamsOfAll(t.tlist) + ParamsOfAll(t.qual) + ParamsOfAll(t.initPlan) + ParamsOfAll(t.own)
  }

  // extract_nodes_plan(plan, T_Param, true)
  function Mentioned(t: Tree): set<nat>
    decreases t
  {
    if t.Empty? then {}
    else OwnParams(t) + Mentioned(t.left) + Mentioned(t.right)
         + (if HasPlanList(t.op) then MentionedAll(t.kids) else {})
  }

  function MentionedAll(ts: seq<Tree>): set<nat>
    decreases ts
  {
    if ts == [] then {} else Mentioned(ts[0]) + MentionedAll(ts[1..])
  }

  /** FinalizeParamIds: children first, then the node from a walk of the whole subtree. */
  function Finalize(t: Tree): (r: Tree)
    ensures r.Empty? <==> t.Empty?
    decreases t
  {
    if t.Empty? then Empty
    else
      var n := t.(left := Finalize(t.left), right := Finalize(t.right),
                  kids := if HasPlanList(t.op) then FinalizeAll(t.kids) else t.kids);
      n.(allParam := Mentioned(n))
  }

  function FinalizeAll(ts: seq<Tree>): (r: seq<Tree>)
    ensures |r| == |ts|
    ensures forall i :: 0 <= i < |ts| ==> r[i] == Finalize(ts[i])
    decreases ts
  {
    if ts == [] then [] else [Finalize(ts[0])] + FinalizeAll(ts[1..])
  }

  function AllParam(t: Tree): set<nat> {
    if t.Empty? then {} else t.allParam
  }

  // Every node's set holds what its subtree mentions and what its children's sets hold.
  predicate Covered(t: Tree)
    decreases t
  {
    t.Node? ==>
      && Mentioned(t) <= t.allParam
      && AllParam(t.left) <= t.allParam && AllParam(t.right) <= t.allParam
      && Covered(t.left) && Covered(t.right)
      && (HasPlanList(t.op) ==> AllCovered(t.kids, t.allParam))
  }

  predicate AllCovered(ts: seq<Tree>, bound: set<nat>)
    decreases ts
  {
    ts == [] || (AllParam(ts[0]) <= bound && Covered(ts[0]) && AllCovered(ts[1..], bound))
  }

  // ----- a set holds what occurs in a walked field of some node -----

  lemma {:induction false} ParamsIff(e: Expr, p: nat)
    ensures p in ParamsOf(e) <==> PartOf(Param(p), e)
    decreases e
  {
    if e.Func? || e.SubPlan? { ParamsAllIff(e.args, p); }
  }

  lemma {:induction false} ParamsAllIff(es: seq<Expr>, p: nat)
    ensures p in ParamsOfAll(es) <==> PartOfAny(Param(p), es)
    decreases es
  {
    if es != [] {
      ParamsIff(es[0], p);
      ParamsAllIff(es[1..], p);
      PartOfStep(Param(p), es);
    }
  }

  function Uses(p: nat): Tree -> bool {
    (n: Tree) => n.Node? && (PartOfAny(Param(p), n.tlist) || PartOfAny(Param(p), n.qual)
                             || PartOfAny(Param(p), n.initPlan) || PartOfAny(Param(p), n.own))
  }

  /** The walk collects a parameter if and only if it occurs in the target list, the qual, an
      init plan or another walked field of some node that is reached. */
  lemma {:induction false} MentionedIff(t: Tree, p: nat)
    ensures p in Mentioned(t) <==> Somewhere(t, Uses(p))
    decreases t
  {
    if t.Node? {
      ParamsAllIff(t.tlist, p);
      ParamsAllIff(t.qual, p);
      ParamsAllIff(t.initPlan, p);
      ParamsAllIff(t.own, p);
      MentionedIff(t.left, p);
      MentionedIff(t.right, p);
      MentionedAllIff(t.kids, p);
      SomewhereStep(t, Uses(p));
      if Somewhere(t.left, Uses(p)) { assert HasChild(t, ToLeft) && Child(t, ToLeft) == t.left; }
      if Somewhere(t.right, Uses(p)) { assert HasChild(t, ToRight) && Child(t, ToRight) == t.right; }
      forall i: nat | i < |t.kids| && Somewhere(t.kids[i], Uses(p)) && HasPlanList(t.op) ensures Somewhere(t, Uses(p)) {
        assert HasChild(t, ToKid(i)) && Child(t, ToKid(i)) == t.kids[i];
      }
    }
  }

  lemma {:induction false} MentionedAllIff(ts: seq<Tree>, p: nat)
    ensures p in MentionedAll(ts) <==> exists i :: 0 <= i < |ts| && Somewhere(ts[i], Uses(p))
    decreases ts
  {
    if ts != [] {
      MentionedIff(ts[0], p);
      MentionedAllIff(ts[1..], p);
      assert forall i :: 0 < i < |ts| ==> ts[i] == ts[1..][i - 1];
      if i :| 0 <= i < |ts[1..]| && Somewhere(ts[1..][i], Uses(p)) { assert ts[i + 1] == ts[1..][i]; }
    }
  }

  // ----- nothing but the sets is touched -----

  function Erase(t: Tree): Tree
    decreases t
  {
    if t.Empty? then Empty
    else t.(left := Erase(t.left), right := Erase(t.right), kids := EraseAll(t.kids), allParam := {})
  }

  function EraseAll(ts: seq<Tree>): (r: seq<Tree>)
    ensures |r| == |ts|
    decreases ts
  {
    if ts == [] then [] else [Erase(ts[0])] + EraseAll(ts[1..])
  }

  lemma {:induction false} FinalizeOnlySets(t: Tree)
    ensures Erase(Finalize(t)) == Erase(t)
    decreases t
  {
    if t.Node? {
      FinalizeOnlySets(t.left);
      FinalizeOnlySets(t.right);
      FinalizeAllOnlySets(t.kids);
    }
  }

  lemma {:induction false} FinalizeAllOnlySets(ts: seq<Tree>)
    ensures EraseAll(FinalizeAll(ts)) == EraseAll(ts)
    decreases ts
  {
    if ts != [] {
      FinalizeOnlySets(ts[0]);
      FinalizeAllOnlySets(ts[1..]);
      assert FinalizeAll(ts)[1..] == FinalizeAll(ts[1..]);
    }
  }

  // ----- how a change set travels down on a rescan -----

  // UpdateChangedParamSet, one node after the other along a path.
  function ChgParamAt(t: Tree, changed: set<nat>, path: seq<Step>): set<nat>
    requires IsPath(t, path)
    decreases path
  {
    var mine := changed * t.allParam;
    if path == [] then mine else ChgParamAt(Child(t, path[0]), mine, path[1..])
  }

  // ----- finalisation covers -----

  lemma {:induction false} MentionedIgnoresSets(t: Tree)
    ensures Mentioned(Finalize(t)) == Mentioned(t)
    decreases t
  {
    if t.Node? {
      MentionedIgnoresSets(t.left);
      MentionedIgnoresSets(t.right);
      MentionedAllIgnoresSets(t.kids);
    }
  }

  lemma {:induction false} MentionedAllIgnoresSets(ts: seq<Tree>)
    ensures MentionedAll(FinalizeAll(ts)) == MentionedAll(ts)
    decreases ts
  {
    if ts != [] {
      MentionedIgnoresSets(ts[0]);
      MentionedAllIgnoresSets(ts[1..]);
      assert FinalizeAll(ts)[1..] == FinalizeAll(ts[1..]);
    }
  }

  /** Finalisation sets every allParam to exactly what the subtree mentions, which covers the tree. */
  lemma {:induction false} FinalizeCovers(t: Tree)
    ensures Covered(Finalize(t)) && AllParam(Finalize(t)) == Mentioned(t)
    decreases t
  {
    if t.Node? {
      FinalizeCovers(t.left);
      FinalizeCovers(t.right);
      MentionedIgnoresSets(t);
      MentionedIgnoresSets(t.left);
      MentionedIgnoresSets(t.right);
      if HasPlanList(t.op) {
        FinalizeAllCovers(t.kids, Mentioned(t));
        MentionedAllIgnoresSets(t.kids);
      }
    }
  }

  lemma {:induction false} FinalizeAllCovers(ts: seq<Tree>, bound: set<nat>)
    requires MentionedAll(ts) <= bound
    ensures AllCovered(FinalizeAll(ts), bound)
    decreases ts
  {
    if ts != [] {
      FinalizeCovers(ts[0]);
      FinalizeAllCovers(ts[1..], bound);
      assert FinalizeAll(ts)[1..] == FinalizeAll(ts[1..]);
    }
  }

  // ----- what arrives -----

  lemma {:induction false} CoveredKid(ts: seq<Tree>, i: nat, bound: set<nat>)
    requires AllCovered(ts, bound) && i < |ts|
    ensures Covered(ts[i]) && AllParam(ts[i]) <= bound
  {
    if i > 0 { CoveredKid(ts[1..], i - 1, bound); }
  }

  /** In a covered tree every node receives exactly the changed parameters of its own set. */
  lemma {:induction false} ArrivesExactly(t: Tree, changed: set<nat>, path: seq<Step>)
    requires Covered(t) && IsPath(t, path)
    ensures ChgParamAt(t, changed, path) == changed * NodeAt(t, path).allParam
    ensures Covered(NodeAt(t, path)) && NodeAt(t, path).allParam <= t.allParam
    ensures changed * Mentioned(NodeAt(t, path)) <= ChgParamAt(t, changed, path)
    decreases path
  {
    if path != [] {
      var c := Child(t, path[0]);
      if path[0].ToKid? { CoveredKid(t.kids, path[0].index, t.allParam); }
      assert c.allParam <= t.allParam;
      ArrivesExactly(c, changed * t.allParam, path[1..]);
    }
  }

  // The expressions that the walk skips are reached only by luck: a changed
  // parameter of a hash key arrives exactly when the walked subtree mentions it too.
  lemma {:induction false} HiddenArrivesIff(t: Tree, changed: set<nat>, path: seq<Step>, p: nat)
    requires IsPath(Finalize(t), path) && p in changed
    ensures p in ChgParamAt(Finalize(t), changed, path) <==> p in Mentioned(NodeAt(Finalize(t), path))
  {
    FinalizeCovers(t);
    ArrivesExactly(Finalize(t), changed, path);
    FinalizedAt(t, path);
  }

  lemma {:induction false} FinalizedAt(t: Tree, path: seq<Step>)
    requires IsPath(Finalize(t), path)
    ensures NodeAt(Finalize(t), path).allParam == Mentioned(NodeAt(Finalize(t), path))
    decreases path
  {
    MentionedIgnoresSets(t);
    FinalizeCovers(t);
    if path != [] {
      match path[0]
      case ToLeft => FinalizedAt(t.left, path[1..]);
      case ToRight => FinalizedAt(t.right, path[1..]);
      case ToKid(i) => FinalizedAt(t.kids[i], path[1..]);
    }
  }

  // inner.y + $7
  const HASH_KEY := Func(0, [Var(OuterVar, 1), Param(7)])

  function Scan(rti: nat): Tree { Node(SeqScan(rti), [], [], [], [], [], Empty, Empty, [], {}) }

  // The hash condition of the join mentions the parameter, and so does the key of the Hash below it.
  function KeyedJoin(): Tree {
    var hash := Node(Hash, [], [], [], [], [HASH_KEY], Scan(2), Empty, [], {});
    Node(HashJoin, [], [], [], [Func(1, [Var(OuterVar, 1), HASH_KEY])], [], Scan(1), hash, [], {})
  }

  /** The join is told of a change of the parameter, the Hash is not: it keeps its old table. */
  lemma {:induction false} HashKeyParamIsMissed()
    ensures IsPath(Finalize(KeyedJoin()), [ToRight])
    ensures NodeAt(Finalize(KeyedJoin()), [ToRight]).op == Hash && 7 in ParamsOfAll(NodeAt(Finalize(KeyedJoin()), [ToRight]).hidden)
    ensures 7 in ChgParamAt(Finalize(KeyedJoin()), {7}, [])
    ensures 7 !in ChgParamAt(Finalize(KeyedJoin()), {7}, [ToRight])
  {
    KeyParams();
    var t, path := KeyedJoin(), [ToRight];
    assert path[1..] == [];
    assert Finalize(t).right == Finalize(t.right);
    HiddenArrivesIff(t, {7}, [], 7);
    HiddenArrivesIff(t, {7}, path, 7);
    MentionedIgnoresSets(t);
    MentionedIgnoresSets(t.right);
  }

  lemma {:induction false} KeyParams()
    ensures ParamsOf(HASH_KEY) == {7} && 7 in ParamsOfAll([HASH_KEY]) && 7 in ParamsOfAll([Func(1, [Var(OuterVar, 1), HASH_KEY])])
  {
    var args, more := [Var(OuterVar, 1), Param(7)], [Var(OuterVar, 1), HASH_KEY];
    assert args[1..] == [Param(7)] && more[1..] == [HASH_KEY];
    assert ParamsOfAll(args) == {7};
    var clause := Func(1, more);
    assert ParamsOfAll(more) == ParamsOf(more[0]) + ParamsOfAll(more[1..]);
    assert 7 in ParamsOf(clause) && ParamsOf([clause][0]) <= ParamsOfAll([clause]);
  }

  // ----- Result removal keeps the coverage -----

  lemma {:induction false} ParamsAt(es: seq<Expr>, i: nat)
    requires i < |es|
    ensures ParamsOf(es[i]) <= ParamsOfAll(es)
  {
    if i > 0 { ParamsAt(es[1..], i - 1); }
  }

  // A safe list contributes no parameter of its own: that is what the Param guard is for.
  lemma {:induction false} PushDownParams(m: Machine, e: Expr, child: seq<Expr>)
    requires !Unsafe(e) && !HasEffects(m, e)
    ensures ParamsOf(PushDown(e, child)) <= ParamsOfAll(child)
    decreases e
  {
    match e
    case Var(OuterVar, a) => if 0 < a <= |child| { ParamsAt(child, a - 1); }
    case Func(_, args) => PushDownAllParams(m, args, child);
    case _ =>
  }

  lemma {:induction false} PushDownAllParams(m: Machine, es: seq<Expr>, child: seq<Expr>)
    requires !AnyUnsafe(es) && !AnyEffects(m, es)
    ensures ParamsOfAll(PushDownAll(es, child)) <= ParamsOfAll(child)
    decreases es
  {
    if es != [] {
      PushDownParams(m, es[0], child);
      PushDownAllParams(m, es[1..], child);
      assert PushDownAll(es, child)[1..] == PushDownAll(es[1..], child);
    }
  }

  /** Removing redundant Results from a covered tree leaves a covered tree. */
  lemma {:induction false} RemoveKeepsCoverage(m: Machine, t: Tree)
    requires Covered(t)
    ensures Covered(Remove(m, t))
    ensures AllParam(Remove(m, t)) <= AllParam(t)
    ensures Mentioned(Remove(m, t)) <= Mentioned(t)
    decreases t
  {
    if t.Node? {
      RemoveKeepsCoverage(m, t.left);
      RemoveKeepsCoverage(m, t.right);
      if HasPlanList(t.op) { RemoveAllKeepsCoverage(m, t.kids, t.allParam); }
      var n := CleanChildren(m, t);
      assert Covered(n) && Mentioned(n) <= Mentioned(t);
      if Collapsible(m, n) {
        PushDownAllParams(m, n.tlist, n.left.tlist);
        var c := Collapse(n);
        assert OwnParams(c) <= OwnParams(n.left);
        assert Mentioned(c) <= Mentioned(n.left);
      }
    }
  }

  lemma {:induction false} RemoveAllKeepsCoverage(m: Machine, ts: seq<Tree>, bound: set<nat>)
    requires AllCovered(ts, bound)
    ensures AllCovered(RemoveAll(m, ts), bound)
    ensures MentionedAll(RemoveAll(m, ts)) <= MentionedAll(ts)
    decreases ts
  {
    if ts != [] {
      RemoveKeepsCoverage(m, ts[0]);
      RemoveAllKeepsCoverage(m, ts[1..], bound);
      assert RemoveAll(m, ts)[1..] == RemoveAll(m, ts[1..]);
    }
  }

  /** End to end: finalise, remove Results, rescan; every node that mentions a changed parameter hears of it. */
  lemma {:induction false} ChangesReachEveryMention(m: Machine, t: Tree, changed: set<nat>, path: seq<Step>)
    requires IsPath(Remove(m, Finalize(t)), path)
    ensures changed * Mentioned(NodeAt(Remove(m, Finalize(t)), path)) <= ChgParamAt(Remove(m, Finalize(t)), changed, path)
  {
    FinalizeCovers(t);
    RemoveKeepsCoverage(m, Finalize(t));
    ArrivesExactly(Remove(m, Finalize(t)), changed, path);
  }
}
