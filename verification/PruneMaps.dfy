/**
  The arrays that tie partitions to subplans
  (CreatePartPruneInfoForOneLevel, gpopt/translate/CPartPruneStepsBuilder.cpp), and the
  relations of a plan that initial pruning never removes
  (gpopt/translate/CTranslatorDXLToPlStmt.cpp).
 */
module PruneMaps {
  import opened PruneSteps

  // ----- the one-pointer loop -----

  // How many surviving indexes the loop has matched before partition i.
  function Matched(idx: seq<nat>, i: nat): (k: nat)
    ensures k <= |idx| && k <= i
  {
    if i == 0 then 0
    else
      var k := Matched(idx, i - 1);
      if k < |idx| && idx[k] == i - 1 then k + 1 else k
  }

  // The subplan of partition i, or -1.
  function Subplan(idx: seq<nat>, i: nat): int {
    var k := Matched(idx, i);
    if k < |idx| && idx[k] == i then k else -1
  }

  predicate Ascending(idx: seq<nat>) { forall j, k :: 0 <= j < k < |idx| ==> idx[j] < idx[k] }

  lemma {:induction false} MatchedMonotone(idx: seq<nat>, i: nat, j: nat)
    requires i <= j
    ensures Matched(idx, i) <= Matched(idx, j)
    decreases j
  {
    if i < j { MatchedMonotone(idx, i, j - 1); }
  }

  // For ascending indexes the pointer stands at the first index that is not below i.
  lemma {:induction false} MatchedAscending(idx: seq<nat>, i: nat)
    requires Ascending(idx)
    ensures forall k :: 0 <= k < Matched(idx, i) ==> idx[k] < i
    ensures forall k :: Matched(idx, i) <= k < |idx| ==> i <= idx[k]
  {
    if i > 0 { MatchedAscending(idx, i - 1); }
  }

  // The map inverts the list: the j-th survivor has subplan j, and the others have none.
  predicate Inverse(idx: seq<nat>, n: nat) {
    && (forall j :: 0 <= j < |idx| ==> idx[j] < n && Subplan(idx, idx[j]) == j)
    && (forall i :: 0 <= i < n && Subplan(idx, i) == -1 ==> i !in idx)
  }

  /** The loop inverts the list of survivors exactly when it is strictly ascending and in range. */
  lemma {:induction false} InverseIff(idx: seq<nat>, n: nat)
    ensures Inverse(idx, n) <==> Ascending(idx) && forall j :: 0 <= j < |idx| ==> idx[j] < n
  {
    if Ascending(idx) && forall j :: 0 <= j < |idx| ==> idx[j] < n {
      forall j | 0 <= j < |idx| ensures Subplan(idx, idx[j]) == j {
        MatchedAscending(idx, idx[j]);
      }
    }
    if Inverse(idx, n) {
      forall j, k | 0 <= j < k < |idx| ensures idx[j] < idx[k] {
        assert Matched(idx, idx[j]) == j && Matched(idx, idx[k]) == k;
        if idx[k] <= idx[j] { MatchedMonotone(idx, idx[k], idx[j]); }
      }
    }
  }

  // ----- the arrays -----

  // The child range-table index of subplan k, 0 when the list is too short.
  function ChildRti(rtis: seq<int>, k: int): int { if 0 <= k < |rtis| then rtis[k] else 0 }

  // What the maps hold for partition i.
  predicate Entry(oids: seq<nat>, idx: seq<nat>, rtis: seq<int>, i: nat, subpart: int, subplan: int, relid: nat, leafRti: int)
    requires i < |oids|
  {
    && subpart == -1 && subplan == Subplan(idx, i)
    && relid == (if subplan >= 0 then oids[i] else 0)
    && leafRti == (if subplan >= 0 then ChildRti(rtis, subplan) else 0)
  }

  /** The loop of CreatePartPruneInfoForOneLevel. */
  method BuildMaps(oids: seq<nat>, idx: seq<nat>, rtis: seq<int>)
    returns (subpart: array<int>, subplan: array<int>, relid: array<nat>, leafRti: array<int>, present: set<nat>)
    ensures subpart.Length == subplan.Length == relid.Length == leafRti.Length == |oids|
    ensures forall i :: 0 <= i < |oids| ==> Entry(oids, idx, rtis, i, subpart[i], subplan[i], relid[i], leafRti[i])
    ensures forall i :: i in present <==> 0 <= i < |oids| && Subplan(idx, i) >= 0
  {
    var n := |oids|;
    subpart, subplan, relid := new int[n], new int[n], new nat[n];
    leafRti := new int[n](_ => 0);
    present := {};
    var ptr := 0;
    for i := 0 to n
      invariant ptr == Matched(idx, i)
      invariant forall k :: 0 <= k < i ==> Entry(oids, idx, rtis, k, subpart[k], subplan[k], relid[k], leafRti[k])
      invariant forall k :: i <= k < n ==> leafRti[k] == 0
      invariant forall k :: k in present <==> 0 <= k < i && Subplan(idx, k) >= 0
    {
      subpart[i] := -1;
      if ptr < |idx| && i == idx[ptr] {
        subplan[i] := ptr;
        relid[i] := oids[i];
        present := present + {i};
        if ptr < |rtis| {
          leafRti[i] := rtis[ptr];
        }
        ptr := ptr + 1;
      } else {
        subplan[i] := -1;
        relid[i] := 0;
        leafRti[i] := 0;
      }
    }
  }

  // For ascending indexes in range the partitions present are exactly the survivors.
  lemma {:induction false} PresentIsSurvivors(idx: seq<nat>, n: nat)
    requires Ascending(idx) && forall j :: 0 <= j < |idx| ==> idx[j] < n
    ensures forall i :: 0 <= i < n ==> (Subplan(idx, i) >= 0 <==> i in idx)
  {
    InverseIff(idx, n);
  }

  // ----- initial and run-time pruning -----

  // The executor parameters in the expressions of the comparison steps.
  method ExecParams(steps: seq<Step>, params: nat -> set<nat>) returns (ids: set<nat>)
    ensures forall x :: x in ids <==> exists i :: 0 <= i < |steps| && steps[i].OpStep? && x in params(steps[i].rhs)
  {
    ids := {};
    for i := 0 to |steps|
      invariant forall x :: x in ids <==> exists k :: 0 <= k < i && steps[k].OpStep? && x in params(steps[k].rhs)
    {
      if steps[i].OpStep? {
        ids := ids + params(steps[i].rhs);
      }
    }
  }

  datatype Info = Info(initialSteps: seq<Step>, execSteps: seq<Step>, execParams: set<nat>, leafRti: seq<int>)

  /** A filter that waits for a run-time parameter is not used for initial pruning, and only such a filter. */
  method SplitSteps(steps: seq<Step>, params: nat -> set<nat>, leafRti: seq<int>) returns (info: Info)
    ensures info.leafRti == leafRti
    ensures forall x :: x in info.execParams <==> exists i :: 0 <= i < |steps| && steps[i].OpStep? && x in params(steps[i].rhs)
    ensures
      if exists i :: 0 <= i < |steps| && steps[i].OpStep? && params(steps[i].rhs) != {}
      then info.execSteps == steps && info.initialSteps == [] && info.execParams != {}
      else info.initialSteps == steps && info.execSteps == [] && info.execParams == {}
  {
    var ids := ExecParams(steps, params);
    if exists i :: 0 <= i < |steps| && steps[i].OpStep? && params(steps[i].rhs) != {} {
      var i :| 0 <= i < |steps| && steps[i].OpStep? && params(steps[i].rhs) != {};
      var x :| x in params(steps[i].rhs);
      assert x in ids;
    }
    if ids != {} {
      var x :| x in ids;
      info := Info([], steps, ids, leafRti);
    } else {
      info := Info(steps, [], {}, leafRti);
    }
  }

  // ----- unprunableRelids -----

  // A mapped leaf of an info with initial pruning steps.
  predicate Leaf(info: Info, i: int, r: int) {
    info.initialSteps != [] && 0 <= i < |info.leafRti| && info.leafRti[i] == r && r != 0
  }

  predicate LeafOfInfo(info: Info, r: int) { LeafBefore(info, |info.leafRti|, r) }

  predicate LeafBefore(info: Info, n: nat, r: int) { exists i :: 0 <= i < n && Leaf(info, i, r) }

  predicate LeafOfHierarchy(infos: seq<Info>, r: int) { exists c :: 0 <= c < |infos| && LeafOfInfo(infos[c], r) }

  predicate LeafOfPrune(infos: seq<seq<Info>>, r: int) { exists b :: 0 <= b < |infos| && LeafOfHierarchy(infos[b], r) }

  // Removing one info's leaves from the set.
  method RemoveLeaves(relids: set<int>, info: Info) returns (r: set<int>)
    ensures forall x :: x in r <==> x in relids && !LeafOfInfo(info, x)
  {
    r := relids;
    if info.initialSteps != [] {
      for i := 0 to |info.leafRti|
        invariant forall x :: x in r <==> x in relids && !LeafBefore(info, i, x)
      {
        forall x ensures LeafBefore(info, i + 1, x) <==> LeafBefore(info, i, x) || (x == info.leafRti[i] && x != 0) {
          assert Leaf(info, i, x) <==> x == info.leafRti[i] && x != 0;
        }
        if info.leafRti[i] != 0 {
          r := r - {info.leafRti[i]};
        }
      }
    }
  }

  method RemoveHierarchy(relids: set<int>, infos: seq<Info>) returns (r: set<int>)
    ensures forall x :: x in r <==> x in relids && !LeafOfHierarchy(infos, x)
  {
    r := relids;
    for c := 0 to |infos|
      invariant forall x :: x in r <==> x in relids && !exists k :: 0 <= k < c && LeafOfInfo(infos[k], x)
    {
      r := RemoveLeaves(r, infos[c]);
    }
  }

  method RemovePrune(relids: set<int>, infos: seq<seq<Info>>) returns (r: set<int>)
    ensures forall x :: x in r <==> x in relids && !LeafOfPrune(infos, x)
  {
    r := relids;
    for b := 0 to |infos|
      invariant forall x :: x in r <==> x in relids && !exists k :: 0 <= k < b && LeafOfHierarchy(infos[k], x)
    {
      r := RemoveHierarchy(r, infos[b]);
    }
  }

  /** All range-table indexes minus exactly the leaves of infos with initial pruning steps. */
  method UnprunableRelids(rtsize: nat, infos: seq<seq<seq<Info>>>) returns (r: set<int>)
    ensures forall x :: x in r <==> 1 <= x <= rtsize && !exists a :: 0 <= a < |infos| && LeafOfPrune(infos[a], x)
  {
    r := {};
    for i := 1 to rtsize + 1
      invariant forall x :: x in r <==> 1 <= x < i
    {
      r := r + {i};
    }
    for a := 0 to |infos|
      invariant forall x :: x in r <==> 1 <= x <= rtsize && !exists k :: 0 <= k < a && LeafOfPrune(infos[k], x)
    {
      r := RemovePrune(r, infos[a]);
    }
  }
}
