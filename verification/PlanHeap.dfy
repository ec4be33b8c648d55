/**
  The in-place forms: plan nodes as heap objects whose child pointers, target lists
  and parameter sets are overwritten (compat/utils/remove_redundant_results.cpp and
  FinalizeParamIds in gpopt/translate/CTranslatorDXLToPlStmt.cpp).

  Each method is proved to turn the tree it is given into the one the functions of
  ResultRemoval and PlanParams describe, touching no node outside that tree.
 */
module PlanHeap {
  import opened PlanTree
  import opened ResultRemoval
  import opened PlanParams

  class PlanNode {
    var op: Op
    var tlist: seq<Expr>
    var qual: seq<Expr>
    var initPlan: seq<Expr>
    var own: seq<Expr>
    var hidden: seq<Expr>
    // slot 0 is lefttree, slot 1 righttree, the others the operator's own list of plans
    var slots: seq<PlanNode?>
    var extParam: set<nat>
    var allParam: set<nat>
    ghost var repr: set<PlanNode>

    // Every slot is null or the root of a smaller tree without this node; slots are disjoint.
    ghost predicate Valid()
      reads this, repr
      decreases repr
    {
      && this in repr && |slots| >= 2
      && (forall i :: 0 <= i < |slots| && slots[i] != null ==>
            slots[i] in repr && slots[i].repr < repr && this !in slots[i].repr && slots[i].Valid())
      && (forall i, j :: 0 <= i < j < |slots| && slots[i] != null && slots[j] != null ==>
            slots[i].repr !! slots[j].repr)
    }

    ghost function Subtrees(): (ts: seq<Tree>)
      requires Valid()
      reads this, repr
      ensures |ts| == |slots| && forall i :: 0 <= i < |slots| ==> ts[i] == AbsOf(slots[i])
      decreases repr, 1
    {
      AbsAll(slots, repr)
    }

    // The tree this node is the root of.
    ghost function Abs(): (t: Tree)
      requires Valid()
      reads this, repr
      ensures t.Node?
      decreases repr, 2
    {
      var s := Subtrees();
      Node(op, tlist, qual, initPlan, own, hidden, s[0], s[1], s[2..], allParam)
    }
  }

  ghost function Footprint(p: PlanNode?): set<PlanNode>
    reads p
  {
    if p == null then {} else p.repr
  }

  ghost predicate IsTree(p: PlanNode?)
    reads p, Footprint(p)
  {
    p != null ==> p.Valid()
  }

  ghost function AbsOf(p: PlanNode?): Tree
    requires IsTree(p)
    reads p, Footprint(p)
    decreases Footprint(p), 3
  {
    if p == null then Empty else p.Abs()
  }

  ghost function AbsAll(ps: seq<PlanNode?>, bound: set<PlanNode>): (ts: seq<Tree>)
    requires bound != {}
    requires forall i :: 0 <= i < |ps| && ps[i] != null ==> ps[i] in bound && ps[i].repr < bound && ps[i].Valid()
    reads bound
    ensures |ts| == |ps| && forall i :: 0 <= i < |ps| ==> ts[i] == AbsOf(ps[i])
    decreases bound, 0, |ps|
  {
    if ps == [] then [] else [AbsOf(ps[0])] + AbsAll(ps[1..], bound)
  }

  // The fields other than the child slots.
  twostate predicate SameNode(p: PlanNode)
    reads p
  {
    && p.op == old(p.op) && p.tlist == old(p.tlist) && p.qual == old(p.qual) && p.initPlan == old(p.initPlan)
    && p.own == old(p.own) && p.hidden == old(p.hidden) && p.allParam == old(p.allParam)
    && p.extParam == old(p.extParam) && p.repr == old(p.repr) && |p.slots| == old(|p.slots|)
  }

  // Which slots the passes descend into.
  predicate Visits(op: Op, slot: nat) { slot < 2 || HasPlanList(op) }

  // ----- removal of redundant Results -----

  /** remove_redundant_results_walker */
  method Walk(m: Machine, p: PlanNode?) returns (r: PlanNode?)
    requires IsTree(p)
    modifies Footprint(p)
    ensures IsTree(r) && Footprint(r) <= old(Footprint(p))
    ensures AbsOf(r) == Remove(m, old(AbsOf(p)))
    decreases Footprint(p), 5
  {
    if p == null { return null; }
    WalkChildren(m, p);
    var child := p.slots[0];
    ghost var n := p.Abs();
    if p.op.Result? && p.own == [] && p.initPlan == [] && p.qual == [] && !AnyReturnsSet(m, p.tlist)
       && SafeToPush(m, p.tlist) && child != null && Replaceable(m, child.op, child.tlist) {
      ghost var c := child.Abs();
      assert n.left == c && c.op == child.op && c.tlist == child.tlist;
      assert Collapsible(m, n);
      Absorb(p, child);
      return child;
    }
    if child != null {
      ghost var c := child.Abs();
      assert n.left == c && c.op == child.op && c.tlist == child.tlist;
    }
    return p;
  }

  // The Result's entries are rewritten one by one, then become the child's list.
  method Absorb(p: PlanNode, child: PlanNode)
    requires p.Valid() && p.slots[0] == child
    modifies p`tlist, child`tlist
    ensures child.Valid() && child.repr == old(child.repr)
    ensures child.Abs() == Collapse(old(p.Abs()))
  {
    ghost var before := p.tlist;
    var i := 0;
    while i < |p.tlist|
      invariant 0 <= i <= |p.tlist| == |before|
      invariant child.tlist == old(child.tlist)
      invariant forall j :: 0 <= j < i ==> p.tlist[j] == PushDown(before[j], child.tlist)
      invariant forall j :: i <= j < |before| ==> p.tlist[j] == before[j]
    {
      p.tlist := p.tlist[i := PushDown(p.tlist[i], child.tlist)];
      i := i + 1;
    }
    assert p.tlist == PushDownAll(before, child.tlist);
    child.tlist := p.tlist;
    assert child.Subtrees() == old(child.Subtrees());
    ghost var was, result := old(child.Abs()), old(p.Abs());
    assert was.Node? && child.Abs() == was.(tlist := child.tlist);
    assert result.Node? && result.left == was && result.tlist == before;
  }

  /** recurse_plan_children */
  method WalkChildren(m: Machine, p: PlanNode)
    requires p.Valid()
    modifies p.repr
    ensures p.Valid() && SameNode(p)
    ensures p.Abs() == CleanChildren(m, old(p.Abs()))
    decreases p.repr, 4
  {
    ghost var before := p.Subtrees();
    var i := 0;
    while i < |p.slots|
      invariant 0 <= i <= |p.slots| && p.Valid() && SameNode(p)
      invariant forall j :: 0 <= j < |p.slots| ==>
        AbsOf(p.slots[j]) == if j < i && Visits(p.op, j) then Remove(m, before[j]) else before[j]
    {
      if Visits(p.op, i) { WalkSlot(m, p, i); }
      i := i + 1;
    }
    assert p.Subtrees()[2..] == if HasPlanList(p.op) then RemoveAll(m, before[2..]) else before[2..];
  }

  method WalkSlot(m: Machine, p: PlanNode, i: nat)
    requires p.Valid() && i < |p.slots|
    modifies p.repr
    ensures p.Valid() && SameNode(p)
    ensures forall j :: 0 <= j < |p.slots| ==>
      AbsOf(p.slots[j]) == if j == i then Remove(m, old(AbsOf(p.slots[j]))) else old(AbsOf(p.slots[j]))
    decreases p.repr, 3
  {
    var r := Walk(m, p.slots[i]);
    p.slots := p.slots[i := r];
    forall j | 0 <= j < |p.slots| && j != i
      ensures IsTree(p.slots[j]) && Footprint(p.slots[j]) == old(Footprint(p.slots[j]))
      ensures AbsOf(p.slots[j]) == old(AbsOf(p.slots[j]))
    {
      assert p.slots[j] == old(p.slots[j]);
    }
  }

  // ----- finalisation of the parameter sets -----

  /** FinalizeParamIds */
  method FinalizeParamIds(p: PlanNode?)
    requires IsTree(p)
    modifies Footprint(p)
    ensures IsTree(p) && Footprint(p) == old(Footprint(p))
    ensures AbsOf(p) == Finalize(old(AbsOf(p)))
    ensures p != null ==> p.extParam == p.allParam
    decreases Footprint(p), 5
  {
    if p == null { return; }
    FinalizeChildren(p);
    SetParamIds(p);
  }

  method FinalizeChildren(p: PlanNode)
    requires p.Valid()
    modifies p.repr
    ensures p.Valid() && SameNode(p)
    ensures var t := old(p.Abs());
            p.Abs() == t.(left := Finalize(t.left), right := Finalize(t.right),
                          kids := if HasPlanList(t.op) then FinalizeAll(t.kids) else t.kids)
    decreases p.repr, 4
  {
    ghost var before := p.Subtrees();
    var i := 0;
    while i < |p.slots|
      invariant 0 <= i <= |p.slots| && p.Valid() && SameNode(p)
      invariant forall j :: 0 <= j < |p.slots| ==>
        AbsOf(p.slots[j]) == if j < i && Visits(p.op, j) then Finalize(before[j]) else before[j]
    {
      if Visits(p.op, i) { FinalizeSlot(p, i); }
      i := i + 1;
    }
    assert p.Subtrees()[2..] == if HasPlanList(p.op) then FinalizeAll(before[2..]) else before[2..];
  }

  method FinalizeSlot(p: PlanNode, i: nat)
    requires p.Valid() && i < |p.slots|
    modifies p.repr
    ensures p.Valid() && SameNode(p)
    ensures forall j :: 0 <= j < |p.slots| ==>
      AbsOf(p.slots[j]) == if j == i then Finalize(old(AbsOf(p.slots[j]))) else old(AbsOf(p.slots[j]))
    decreases p.repr, 3
  {
    FinalizeParamIds(p.slots[i]);
    forall j | 0 <= j < |p.slots| && j != i
      ensures IsTree(p.slots[j]) && Footprint(p.slots[j]) == old(Footprint(p.slots[j]))
      ensures AbsOf(p.slots[j]) == old(AbsOf(p.slots[j]))
    {
      assert p.slots[j] == old(p.slots[j]);
    }
  }

  ghost function Elements(s: seq<nat>): set<nat> { set x | x in s }

  // The Params of an expression list in the order the walk appends them.
  function ParamSeq(es: seq<Expr>): (r: seq<nat>)
    ensures Elements(r) == ParamsOfAll(es)
    decreases es
  {
    if es == [] then []
    else
      var here := match es[0]
                  case Param(id) => [id]
                  case Func(_, args) => ParamSeq(args)
                  case SubPlan(_, args) => ParamSeq(args)
                  case _ => [];
      assert Elements(here) == ParamsOf(es[0]);
      here + ParamSeq(es[1..])
  }

  method AppendParams(nodes: seq<nat>, es: seq<Expr>) returns (r: seq<nat>)
    ensures Elements(r) == Elements(nodes) + ParamsOfAll(es)
  {
    r := nodes + ParamSeq(es);
  }

  method ExtractOwn(p: PlanNode, nodes: seq<nat>) returns (r: seq<nat>)
    requires p.Valid()
    ensures Elements(r) == Elements(nodes) + OwnParams(p.Abs())
  {
    r := AppendParams(nodes, p.tlist);
    r := AppendParams(r, p.qual);
    r := AppendParams(r, p.initPlan);
    r := AppendParams(r, p.own);
  }

  // The number of slots the walk descends into.
  function Visited(op: Op, slots: nat): nat { if HasPlanList(op) then slots else 2 }

  lemma {:induction false} MentionedCons(t: Tree, ts: seq<Tree>)
    ensures MentionedAll([t] + ts) == Mentioned(t) + MentionedAll(ts)
  {
    assert ([t] + ts)[1..] == ts;
  }

  lemma {:induction false} MentionedParts(p: PlanNode)
    requires p.Valid()
    ensures Mentioned(AbsOf(p)) == OwnParams(p.Abs()) + MentionedAll(p.Subtrees()[..Visited(p.op, |p.slots|)])
  {
    var s := p.Subtrees();
    var n := Visited(p.op, |p.slots|);
    var t := p.Abs();
    var kids := if HasPlanList(p.op) then t.kids else [];
    assert s[..n] == [t.left] + ([t.right] + kids);
    MentionedCons(t.left, [t.right] + kids);
    MentionedCons(t.right, kids);
    assert Mentioned(t) == OwnParams(t) + Mentioned(t.left) + Mentioned(t.right) + MentionedAll(kids);
  }

  // extract_nodes_walker: appends to the list it is given.
  method ExtractNodes(p: PlanNode?, nodes: seq<nat>) returns (r: seq<nat>)
    requires IsTree(p)
    ensures Elements(r) == Elements(nodes) + Mentioned(AbsOf(p))
    decreases Footprint(p), 3
  {
    if p == null { return nodes; }
    r := ExtractOwn(p, nodes);
    r := ExtractSlots(p, Visited(p.op, |p.slots|), r);
    MentionedParts(p);
  }

  method ExtractSlots(p: PlanNode, n: nat, nodes: seq<nat>) returns (r: seq<nat>)
    requires p.Valid() && n <= |p.slots|
    ensures Elements(r) == Elements(nodes) + MentionedAll(p.Subtrees()[..n])
    decreases p.repr, 1
  {
    ghost var s := p.Subtrees();
    r := nodes;
    var i := 0;
    while i < n
      invariant 0 <= i <= n
      invariant Elements(r) == Elements(nodes) + MentionedAll(s[..i])
    {
      r := ExtractNodes(p.slots[i], r);
      MentionedAllSnoc(s[..i], s[i]);
      assert s[..i + 1] == s[..i] + [s[i]];
      i := i + 1;
    }
  }

  lemma {:induction false} MentionedAllSnoc(ts: seq<Tree>, t: Tree)
    ensures MentionedAll(ts + [t]) == MentionedAll(ts) + Mentioned(t)
  {
    if ts == [] {
      assert ts + [t] == [t];
    } else {
      MentionedAllSnoc(ts[1..], t);
      assert (ts + [t])[1..] == ts[1..] + [t];
    }
  }

  // The ids of the collected Params as a set.
  method ParamSet(nodes: seq<nat>) returns (bitmapset: set<nat>)
    ensures bitmapset == Elements(nodes)
  {
    bitmapset := {};
    for i := 0 to |nodes|
      invariant bitmapset == Elements(nodes[..i])
    {
      bitmapset := bitmapset + {nodes[i]};
      assert nodes[..i + 1] == nodes[..i] + [nodes[i]];
    }
    assert nodes[..|nodes|] == nodes;
  }

  method SetParamIds(p: PlanNode)
    requires p.Valid()
    modifies p`extParam, p`allParam
    ensures p.Valid() && p.extParam == p.allParam
    ensures var t := old(p.Abs()); t.Node? && p.Abs() == t.(allParam := Mentioned(t))
  {
    var nodes := ExtractNodes(p, []);
    var bitmapset := ParamSet(nodes);
    assert bitmapset == Mentioned(p.Abs());
    p.extParam := bitmapset;
    p.allParam := bitmapset;
    assert p.Subtrees() == old(p.Subtrees());
  }
}
