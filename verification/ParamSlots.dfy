/**
  Executor parameter slots as the plan translator hands them out
  (gpopt/translate/CContextDXLToPlStmt.cpp): a counter, a list with one type per
  parameter, and maps that remember which slot a scan, a selector or a CTE was given.
 */
module ParamSlots {
  datatype CtePlan = CtePlan(planId: nat, paramId: nat)

  // Who was given a slot.
  datatype Owner = ScanOwner(id: nat) | SelectorOwner(id: nat) | CteOwner(id: nat) | NoOwner

  datatype Maps = Maps(scans: map<nat, nat>, selectors: map<nat, nat>, ctes: map<nat, CtePlan>)

  // Every slot in a map was handed out, to the owner that the map names.
  ghost predicate Owned(m: Maps, params: seq<Owner>, plans: seq<Owner>) {
    && (forall k :: k in m.scans ==> m.scans[k] < |params| && params[m.scans[k]] == ScanOwner(k))
    && (forall k :: k in m.selectors ==> m.selectors[k] < |params| && params[m.selectors[k]] == SelectorOwner(k))
    && (forall k :: k in m.ctes ==>
          && m.ctes[k].paramId < |params| && params[m.ctes[k].paramId] == CteOwner(k)
          && 1 <= m.ctes[k].planId <= |plans| && plans[m.ctes[k].planId - 1] == CteOwner(k))
  }

  /** Slots are never shared: not by two scans, selectors or CTEs, and not between the kinds. */
  lemma {:induction false} NoSharedSlot(m: Maps, params: seq<Owner>, plans: seq<Owner>)
    requires Owned(m, params, plans)
    ensures forall k, l :: k in m.scans && l in m.scans && k != l ==> m.scans[k] != m.scans[l]
    ensures forall k, l :: k in m.selectors && l in m.selectors && k != l ==> m.selectors[k] != m.selectors[l]
    ensures forall k, l :: k in m.ctes && l in m.ctes && k != l ==>
      m.ctes[k].paramId != m.ctes[l].paramId && m.ctes[k].planId != m.ctes[l].planId
    ensures forall k, l :: k in m.scans && l in m.selectors ==> m.scans[k] != m.selectors[l]
    ensures forall k, l :: k in m.scans && l in m.ctes ==> m.scans[k] != m.ctes[l].paramId
    ensures forall k, l :: k in m.selectors && l in m.ctes ==> m.selectors[k] != m.ctes[l].paramId
  {
    forall k, l | k in m.ctes && l in m.ctes && m.ctes[k].planId == m.ctes[l].planId ensures k == l {
      assert plans[m.ctes[k].planId - 1] == CteOwner(k);
      assert plans[m.ctes[l].planId - 1] == CteOwner(l);
    }
  }

  class PlanContext {
    var paramTypes: seq<nat>
    var nextParam: nat
    var maps: Maps
    var subplans: seq<nat>
    ghost var owners: seq<Owner>
    ghost var planOwners: seq<Owner>

    ghost predicate Valid()
      reads this
    {
      nextParam == |paramTypes| == |owners| && |planOwners| == |subplans| && Owned(maps, owners, planOwners)
    }

    constructor ()
      ensures Valid() && maps == Maps(map[], map[], map[]) && paramTypes == [] && subplans == []
    {
      paramTypes, nextParam, subplans, owners, planOwners := [], 0, [], [], [];
      maps := Maps(map[], map[], map[]);
    }

    method GetNextParamId(typeOid: nat, ghost owner: Owner) returns (id: nat)
      requires Valid()
      modifies this
      ensures Valid() && id == |old(paramTypes)| && paramTypes == old(paramTypes) + [typeOid]
      ensures owners == old(owners) + [owner]
      ensures maps == old(maps) && subplans == old(subplans) && planOwners == old(planOwners)
    {
      paramTypes := paramTypes + [typeOid];
      owners := owners + [owner];
      id := nextParam;
      nextParam := nextParam + 1;
    }

    // The same scan id always gets the slot it got first; a new one gets a slot no one has.
    method GetParamIdForScanId(typeOid: nat, scanId: nat) returns (id: nat)
      requires Valid()
      modifies this
      ensures Valid() && subplans == old(subplans)
      ensures old(scanId in maps.scans) ==> id == old(maps).scans[scanId] && maps == old(maps) && paramTypes == old(paramTypes)
      ensures old(scanId !in maps.scans) ==> id == |old(paramTypes)| && paramTypes == old(paramTypes) + [typeOid]
      ensures maps == old(maps).(scans := old(maps).scans[scanId := id])
    {
      if scanId !in maps.scans {
        var slot := GetNextParamId(typeOid, ScanOwner(scanId));
        maps := maps.(scans := maps.scans[scanId := slot]);
      }
      id := maps.scans[scanId];
      assert maps.scans == old(maps).scans[scanId := id];
    }

    method GetParamIdForSelector(typeOid: nat, selectorId: nat) returns (id: nat)
      requires Valid()
      modifies this
      ensures Valid() && subplans == old(subplans)
      ensures old(selectorId in maps.selectors) ==>
        id == old(maps).selectors[selectorId] && maps == old(maps) && paramTypes == old(paramTypes)
      ensures old(selectorId !in maps.selectors) ==> id == |old(paramTypes)| && paramTypes == old(paramTypes) + [typeOid]
      ensures maps == old(maps).(selectors := old(maps).selectors[selectorId := id])
    {
      if selectorId !in maps.selectors {
        var slot := GetNextParamId(typeOid, SelectorOwner(selectorId));
        maps := maps.(selectors := maps.selectors[selectorId := slot]);
      }
      id := maps.selectors[selectorId];
      assert maps.selectors == old(maps).selectors[selectorId := id];
    }

    method AddSubplan(plan: nat, ghost owner: Owner)
      requires Valid()
      modifies this
      ensures Valid() && subplans == old(subplans) + [plan] && planOwners == old(planOwners) + [owner]
      ensures maps == old(maps) && paramTypes == old(paramTypes) && owners == old(owners)
    {
      subplans := subplans + [plan];
      planOwners := planOwners + [owner];
    }

    // The plan id is the 1-based position of the CTE's plan in the list of subplans. A CTE
    // is registered once: the source asserts that the insertion into the map succeeds.
    method RegisterCTEPlan(cteId: nat, plan: nat) returns (planId: nat)
      requires Valid() && cteId !in maps.ctes
      modifies this
      ensures Valid() && planId == |old(subplans)| + 1 && subplans == old(subplans) + [plan]
      ensures paramTypes == old(paramTypes) + [0]
      ensures maps == old(maps).(ctes := old(maps).ctes[cteId := CtePlan(planId, |old(paramTypes)|)])
    {
      AddSubplan(plan, CteOwner(cteId));
      planId := |subplans|;
      var paramId := GetNextParamId(0, CteOwner(cteId));
      maps := maps.(ctes := maps.ctes[cteId := CtePlan(planId, paramId)]);
    }

    // A consumer is given the plan and the slot of its producer.
    method GetCTEPlanInfo(cteId: nat) returns (info: CtePlan)
      requires Valid() && cteId in maps.ctes
      ensures info == maps.ctes[cteId] && 1 <= info.planId <= |subplans| && info.paramId < |paramTypes|
    {
      info := maps.ctes[cteId];
    }
  }

  // What else may be asked of the context while a plan is translated.
  datatype Request =
    | NextParam(typeOid: nat)
    | Scan(typeOid: nat, scanId: nat)
    | Selector(typeOid: nat, selectorId: nat)
    | Subplan(plan: nat)
    | CtePlanOf(cteId: nat, plan: nat)

  // A CTE that is already registered is only looked up.
  method Serve(ctx: PlanContext, r: Request)
    requires ctx.Valid()
    modifies ctx
    ensures ctx.Valid()
    ensures forall k :: k in old(ctx.maps).scans ==> k in ctx.maps.scans && ctx.maps.scans[k] == old(ctx.maps).scans[k]
    ensures forall k :: k in old(ctx.maps).selectors ==>
      k in ctx.maps.selectors && ctx.maps.selectors[k] == old(ctx.maps).selectors[k]
    ensures forall k :: k in old(ctx.maps).ctes ==> k in ctx.maps.ctes && ctx.maps.ctes[k] == old(ctx.maps).ctes[k]
  {
    match r
    case NextParam(typeOid) =>
      var id := ctx.GetNextParamId(typeOid, NoOwner);
    case Scan(typeOid, scanId) =>
      var id := ctx.GetParamIdForScanId(typeOid, scanId);
    case Selector(typeOid, selectorId) =>
      var id := ctx.GetParamIdForSelector(typeOid, selectorId);
    case Subplan(plan) =>
      ctx.AddSubplan(plan, NoOwner);
    case CtePlanOf(cteId, plan) =>
      if cteId in ctx.maps.ctes {
        var info := ctx.GetCTEPlanInfo(cteId);
      } else {
        var planId := ctx.RegisterCTEPlan(cteId, plan);
      }
  }

  /** A selector and a scan translated for one scan id meet in one slot, whatever is
      translated in between, and no other scan, selector or CTE has that slot. */
  method SameSlot(ctx: PlanContext, typeOid: nat, scanId: nat, others: seq<Request>) returns (first: nat, second: nat)
    requires ctx.Valid()
    modifies ctx
    ensures ctx.Valid() && first == second
    ensures forall k :: k in ctx.maps.scans && k != scanId ==> ctx.maps.scans[k] != first
    ensures forall k :: k in ctx.maps.selectors ==> ctx.maps.selectors[k] != first
    ensures forall k :: k in ctx.maps.ctes ==> ctx.maps.ctes[k].paramId != first
  {
    first := ctx.GetParamIdForScanId(typeOid, scanId);
    for i := 0 to |others|
      invariant ctx.Valid() && scanId in ctx.maps.scans && ctx.maps.scans[scanId] == first
    {
      Serve(ctx, others[i]);
    }
    second := ctx.GetParamIdForScanId(typeOid, scanId);
    NoSharedSlot(ctx.maps, ctx.owners, ctx.planOwners);
  }
}
