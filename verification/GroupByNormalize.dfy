/**
  NormalizeGroupByProjList (gpopt/translate/CQueryMutators.cpp): the split of a grouped
  query into a derived table with a flat target list and a query above it.
 */
module GroupByNormalize {
  import opened Values
  import opened QueryTree
  import opened LevelShift
  import opened DerivedTable
  import opened GroupBySplit
  import opened GroupByMoves
  import opened GroupByMeaning
  import opened GroupByRows

  datatype Normalized = NoAttribute | Done(query: Query)

  // Some target entry with this expression is a grouping column.
  predicate IsGroupingExpr(e: Expr, tl: seq<TargetEntry>, group: seq<nat>) {
    exists i :: 0 <= i < |tl| && tl[i].expr == e && tl[i].ref in group
  }

  // A Var of this query that is neither grouped by nor inside an aggregate or sublink.
  predicate ShouldFallback(e: Expr, tl: seq<TargetEntry>, group: seq<nat>)
    decreases e
  {
    match e
    case Const(_) => false
    case Agg(_, _, _) => false
    case SubLink(_, _, _) => false
    case Var(_, _, l, _) => !IsGroupingExpr(e, tl, group) && l == 0
    case Op(_, args) =>
      !IsGroupingExpr(e, tl, group) && exists i :: 0 <= i < |args| && ShouldFallback(args[i], tl, group)
  }

  datatype Need = Refuse | Keep | Split

  // NeedsProjListNormalization, from entry `i` on.
  function Needs(q: Query, i: nat): Need
    requires i <= |q.tlist|
    decreases |q.tlist| - i
  {
    if i == |q.tlist| then Keep
    else
      var e := q.tlist[i].expr;
      if ShouldFallback(e, q.tlist, q.group) then Refuse
      else if !e.Agg? && !IsGroupingExpr(e, q.tlist, q.group) then Split
      else Needs(q, i + 1)
  }

  // The first loop: each grouping column becomes an entry below and a Var above.
  function GroupPass(tl: seq<TargetEntry>, group: seq<nat>, lower: seq<TargetEntry>): (r: Outcome<seq<TargetEntry>>)
    ensures r.Ok? && lower <= r.lower && |r.value| == |tl|
  {
    if tl == [] then Ok([], lower)
    else if tl[0].ref !in group then
      var r := GroupPass(tl[1..], group, lower);
      Ok([tl[0]] + r.value, r.lower)
    else
      var col := MapExpr(tl[0].expr, 0, GroupingColumn, lower);
      var r := GroupPass(tl[1..], group, col.lower + [TargetEntry(col.value, tl[0].ref, false)]);
      Ok([tl[0].(expr := Var(1, |lower| + 1, 0, false))] + r.value, r.lower)
  }

  // The second loop: the other entries.
  function RestPass(tl: seq<TargetEntry>, group: seq<nat>, lower: seq<TargetEntry>): (r: Outcome<seq<TargetEntry>>)
    ensures r.Ok? ==> lower <= r.lower && |r.value| == |tl|
  {
    if tl == [] then Ok([], lower)
    else
      var first := if tl[0].ref in group then Ok(tl[0], lower) else MapTarget(tl[0], 0, Above, lower);
      match first
      case Raise => Raise
      case Ok(te, lo) =>
        match RestPass(tl[1..], group, lo)
        case Raise => Raise
        case Ok(rest, lo') => Ok([te] + rest, lo')
  }

  function SplitTargetsOf(q: Query): Outcome<seq<TargetEntry>> {
    var g := GroupPass(q.tlist, q.group, []);
    RestPass(g.value, q.group, g.lower)
  }

  /** NormalizeGroupByProjList */
  function NormalizeGroupByProjList(q: Query): Normalized {
    if !q.grouped then Done(q)
    else
      match Needs(q, 0)
      case Refuse => NoAttribute
      case Keep => Done(q)
      case Split =>
        match SplitTargetsOf(q)
        case Raise => NoAttribute
        case Ok(tl, lower) =>
          var low := LowerQuery(q, false, true).(tlist := lower);
          Done(ConvertToDerivedTable(q, false, true).(rtable := [Derived(low)], tlist := tl))
  }

  // ----- the queries that split correctly -----

  predicate RefsResolve(q: Query) {
    forall i :: 0 <= i < |q.group| ==> exists j :: 0 <= j < |q.tlist| && q.tlist[j].ref == q.group[i]
  }

  predicate ColumnsMove(tl: seq<TargetEntry>, group: seq<nat>) {
    forall i :: 0 <= i < |tl| && tl[i].ref in group ==> ColumnExpr(tl[i].expr, 0, 0)
  }

  // The entries that the first loop adds: the shifted grouping columns.
  function GroupEntries(tl: seq<TargetEntry>, group: seq<nat>): seq<TargetEntry> {
    if tl == [] then []
    else (if tl[0].ref in group then [TargetEntry(ShiftExpr(tl[0].expr, 0, 0, FULL_SHIFT), tl[0].ref, false)] else [])
         + GroupEntries(tl[1..], group)
  }

  // The other columns are rewritten correctly.
  predicate RestRight(tl: seq<TargetEntry>, group: seq<nat>, base: seq<TargetEntry>) {
    forall i :: 0 <= i < |tl| && tl[i].ref !in group ==> RightTarget(tl[i], 0, 0, base)
  }

  predicate Splittable(q: Query) {
    && RefsResolve(q)
    && NoOuterAggsIn(q.(ctes := [], tlist := []), 0)
    && ColumnsMove(q.tlist, q.group)
    && RestRight(q.tlist, q.group, GroupEntries(q.tlist, q.group))
  }

  // ----- the loops -----

  // A grouping entry is appended to the lower list in shifted form.
  lemma {:induction false} GroupPassStep(tl: seq<TargetEntry>, group: seq<nat>, lower: seq<TargetEntry>)
    requires tl != [] && tl[0].ref in group && ColumnsMove(tl, group)
    ensures
      var entry := TargetEntry(ShiftExpr(tl[0].expr, 0, 0, FULL_SHIFT), tl[0].ref, false);
      GroupPass(tl, group, lower).lower == GroupPass(tl[1..], group, lower + [entry]).lower
  {
    PlacedExpr(tl[0].expr, 0, 0, lower);
  }

  lemma {:induction false} GroupPassSkip(tl: seq<TargetEntry>, group: seq<nat>, lower: seq<TargetEntry>)
    requires tl != [] && tl[0].ref !in group
    ensures GroupPass(tl, group, lower).lower == GroupPass(tl[1..], group, lower).lower
    ensures GroupEntries(tl, group) == GroupEntries(tl[1..], group)
  {
  }

  lemma {:induction false} Reassociate(lower: seq<TargetEntry>, entry: TargetEntry, rest: seq<TargetEntry>)
    ensures (lower + [entry]) + rest == lower + ([entry] + rest)
  {
  }

  lemma {:induction false} GroupPassEntries(tl: seq<TargetEntry>, group: seq<nat>, lower: seq<TargetEntry>)
    requires ColumnsMove(tl, group)
    ensures GroupPass(tl, group, lower).lower == lower + GroupEntries(tl, group)
  {
    if tl == [] {
      assert lower + [] == lower;
    } else if tl[0].ref in group {
      var entry := TargetEntry(ShiftExpr(tl[0].expr, 0, 0, FULL_SHIFT), tl[0].ref, false);
      GroupPassStep(tl, group, lower);
      GroupPassEntries(tl[1..], group, lower + [entry]);
      Reassociate(lower, entry, GroupEntries(tl[1..], group));
    } else {
      GroupPassSkip(tl, group, lower);
      GroupPassEntries(tl[1..], group, lower);
    }
  }

  lemma {:induction false} GroupPassOutcome(tl: seq<TargetEntry>, group: seq<nat>, lower: seq<TargetEntry>, below: seq<TargetEntry>)
    requires ColumnsMove(tl, group) && GroupPass(tl, group, lower).lower <= below
    ensures forall i :: 0 <= i < |tl| ==>
      var te := GroupPass(tl, group, lower).value[i];
      te.ref == tl[i].ref && if tl[i].ref in group then RwTarget(te, tl[i], 0, below) else te == tl[i]
  {
    if tl != [] {
      if tl[0].ref in group {
        PlacedExpr(tl[0].expr, 0, 0, lower);
        var entry := TargetEntry(ShiftExpr(tl[0].expr, 0, 0, FULL_SHIFT), tl[0].ref, false);
        GroupPassOutcome(tl[1..], group, lower + [entry], below);
        assert lower + [entry] <= below;
        assert below[|lower|] == entry;
        assert Stands(entry.expr, tl[0].expr, 0);
      } else {
        GroupPassOutcome(tl[1..], group, lower, below);
      }
    }
  }

  lemma {:induction false} AppendsRest(tl: seq<TargetEntry>, group: seq<nat>, lower: seq<TargetEntry>)
    ensures Appends(RestPass(tl, group, lower), lower)
  {
    if tl != [] {
      var first := if tl[0].ref in group then Ok(tl[0], lower) else MapTarget(tl[0], 0, Above, lower);
      if tl[0].ref !in group { AppendsTarget(tl[0], 0, Above, lower); }
      if first.Ok? {
        var rest := RestPass(tl[1..], group, first.lower);
        AppendsRest(tl[1..], group, first.lower);
        if rest.Ok? { OnlyAggsTwice(lower, first.lower, rest.lower); }
      }
    }
  }

  lemma {:induction false} RestPassOutcome(tl2: seq<TargetEntry>, tl: seq<TargetEntry>, group: seq<nat>, base: seq<TargetEntry>, lower: seq<TargetEntry>, below: seq<TargetEntry>)
    requires |tl2| == |tl| && Between(base, lower, RestPass(tl2, group, lower), below)
    requires forall i :: 0 <= i < |tl| ==>
      tl2[i].ref == tl[i].ref && if tl[i].ref in group then RwTarget(tl2[i], tl[i], 0, below) else tl2[i] == tl[i]
    ensures RwTargets(RestPass(tl2, group, lower).value, tl, 0, below) <==> RestRight(tl, group, base)
  {
    if tl != [] {
      var lo := lower;
      if tl[0].ref !in group {
        lo := MapTarget(tl2[0], 0, Above, lower).lower;
        OutcomeTarget(tl[0], 0, 0, base, lower, below);
        AppendsTarget(tl[0], 0, Above, lower);
        OnlyAggsTwice(base, lower, lo);
      }
      RestPassOutcome(tl2[1..], tl[1..], group, base, lo, below);
      RestRightStep(tl, group, base);
      RwTargetsStep(RestPass(tl2, group, lower).value, tl, 0, below);
      assert RestPass(tl2, group, lower).value[1..] == RestPass(tl2[1..], group, lo).value;
    }
  }

  lemma {:induction false} RestRightStep(tl: seq<TargetEntry>, group: seq<nat>, base: seq<TargetEntry>)
    requires tl != []
    ensures RestRight(tl, group, base)
       <==> (tl[0].ref in group || RightTarget(tl[0], 0, 0, base)) && RestRight(tl[1..], group, base)
  {
    if RestRight(tl[1..], group, base) {
      forall i | 1 <= i < |tl| && tl[i].ref !in group ensures RightTarget(tl[i], 0, 0, base) { assert tl[i] == tl[1..][i - 1]; }
    }
  }

  /** The rebuilt target list is a rewritten form of the original if and only if every column
      outside the GROUP BY is right. */
  lemma {:induction false} SplitOutcome(q: Query)
    requires ColumnsMove(q.tlist, q.group) && SplitTargetsOf(q).Ok?
    ensures RwTargets(SplitTargetsOf(q).value, q.tlist, 0, SplitTargetsOf(q).lower)
       <==> RestRight(q.tlist, q.group, GroupEntries(q.tlist, q.group))
    ensures GroupEntries(q.tlist, q.group) <= SplitTargetsOf(q).lower
  {
    var g := GroupPass(q.tlist, q.group, []);
    var below := SplitTargetsOf(q).lower;
    var base := GroupEntries(q.tlist, q.group);
    GroupPassEntries(q.tlist, q.group, []);
    assert g.lower == base;
    AppendsRest(g.value, q.group, base);
    GroupPassOutcome(q.tlist, q.group, [], below);
    RestPassOutcome(g.value, q.tlist, q.group, base, base, below);
  }

  // ----- the derived table forms the same groups -----

  lemma {:induction false} RefBelow(I: Interp, tl: seq<TargetEntry>, group: seq<nat>, rest: seq<TargetEntry>, ref: nat, env: Env)
    requires env != [] && ref in group && exists j :: 0 <= j < |tl| && tl[j].ref == ref
    ensures RefValue(I, GroupEntries(tl, group) + rest, ref, Insert(env, 0, 0)) == RefValue(I, tl, ref, env)
  {
    var g := GroupEntries(tl, group) + rest;
    if tl[0].ref in group {
      assert g[1..] == GroupEntries(tl[1..], group) + rest;
      if tl[0].ref == ref {
        EvalShift(I, tl[0].expr, env, 0, 0);
      } else {
        RefBelow(I, tl[1..], group, rest, ref, env);
      }
    } else {
      assert g == GroupEntries(tl[1..], group) + rest;
      RefBelow(I, tl[1..], group, rest, ref, env);
    }
  }

  lemma {:induction false} KeyBelow(I: Interp, q: Query, refs: seq<nat>, below: seq<TargetEntry>, env: Env)
    requires env != [] && RefsResolve(q) && GroupEntries(q.tlist, q.group) <= below
    requires forall i :: 0 <= i < |refs| ==> refs[i] in q.group
    ensures Key(I, below, refs, Insert(env, 0, 0)) == Key(I, q.tlist, refs, env)
  {
    if refs != [] {
      var g := GroupEntries(q.tlist, q.group);
      assert below == g + below[|g|..];
      RefBelow(I, q.tlist, q.group, below[|g|..], refs[0], env);
      KeyBelow(I, q, refs[1..], below, env);
    }
  }

  lemma {:induction false} KeysBelow(I: Interp, q: Query, below: seq<TargetEntry>, fs: seq<Frame>, ctes: map<nat, Table>, env: Env)
    requires RefsResolve(q) && GroupEntries(q.tlist, q.group) <= below
    requires forall i :: 0 <= i < |fs| ==> fs[i].ctes == ctes
    ensures Keys(I, below, q.group, Moved(fs, 0), Below(ctes, env, 0, 0)) == Keys(I, q.tlist, q.group, fs, env)
  {
    forall i | 0 <= i < |fs|
      ensures Key(I, below, q.group, [Moved(fs, 0)[i]] + Below(ctes, env, 0, 0)) == Key(I, q.tlist, q.group, [fs[i]] + env)
    {
      InsertPush(fs[i], env, 0, 0);
      KeyBelow(I, q, q.group, below, [fs[i]] + env);
    }
  }

  // The frames of the derived table are those of the original query, moved one level down.
  lemma {:induction false} ProjectedBelow(I: Interp, q: Query, below: seq<TargetEntry>, ctes: map<nat, Table>, env: Env)
    requires q.grouped && RefsResolve(q) && NoOuterAggsIn(q.(ctes := [], tlist := []), 0) && GroupEntries(q.tlist, q.group) <= below
    ensures Projected(I, LowerQuery(q, false, true).(tlist := below), map[], Below(ctes, env, 0, 0)) == Moved(Projected(I, q, ctes, env), 0)
    ensures forall i :: 0 <= i < |Projected(I, q, ctes, env)| ==> Projected(I, q, ctes, env)[i].ctes == ctes
  {
    var bare := q.(ctes := [], tlist := []);
    PassesQuery(bare, 0);
    var low := LowerQuery(q, false, true).(tlist := below);
    var shifted := ShiftQuery(bare, 0, 0, FULL_SHIFT);
    assert low.rtable == shifted.rtable && low.quals == shifted.quals && low.having == shifted.having;
    SelectedShift(I, bare, ctes, env, 0, 0);
    var fs := Selected(I, q, ctes, env);
    assert Combined(I, bare, ctes, env) == Combined(I, q, ctes, env);
    assert Selected(I, bare, ctes, env) == fs;
    assert Selected(I, low, map[], Below(ctes, env, 0, 0)) == Moved(fs, 0);
    KeysBelow(I, q, below, fs, ctes, env);
    MovedBindings(fs, 0);
    var gs := GroupsOf(I, q, Keys(I, q.tlist, q.group, fs, env), Bindings(fs));
    MovedFrames(ctes, gs, 0);
    FilterShift(I, q.having, FramesOf(ctes, gs), ctes, env, 0, 0);
  }

  // Above the derived table each group's row is rebuilt.
  lemma {:induction false} RowAbove(I: Interp, q: Query, f: Frame, u: Frame, env: Env)
    requires Splittable(q) && SplitTargetsOf(q).Ok?
    requires
      var row := Targets(I, SplitTargetsOf(q).lower, [f.(ctes := map[])] + Below(f.ctes, env, 0, 0));
      u == Frame(f.ctes, [Slot(row, row)], [])
    ensures Targets(I, SplitTargetsOf(q).value, [u] + env) == Targets(I, q.tlist, [f] + env)
  {
    var r := SplitTargetsOf(q);
    SplitOutcome(q);
    InsertPush(f, env, 0, 0);
    assert [u] + env == Swap(I, r.lower, [f] + env, 0);
    MeanTargets(I, r.value, q.tlist, r.lower, [f] + env, 0);
  }

  /** Whenever it does not raise, flattening a splittable query returns the same rows. */
  lemma {:induction false} NormalizeKeepsRows(I: Interp, q: Query, env: Env)
    requires Splittable(q) && NormalizeGroupByProjList(q).Done?
    ensures Rows(I, NormalizeGroupByProjList(q).query, env) == Rows(I, q, env)
  {
    if q.grouped && Needs(q, 0).Split? {
      SplitKeepsRows(I, q, env);
    }
  }

  lemma {:induction false} SplitKeepsRows(I: Interp, q: Query, env: Env)
    requires q.grouped && Splittable(q) && Needs(q, 0).Split? && SplitTargetsOf(q).Ok?
    ensures Rows(I, NormalizeGroupByProjList(q).query, env) == Rows(I, q, env)
  {
    var n := NormalizeGroupByProjList(q).query;
    var r := SplitTargetsOf(q);
    var low := LowerQuery(q, false, true).(tlist := r.lower);
    var ctes := CteTables(I, q.ctes, env);
    SplitOutcome(q);
    ProjectedBelow(I, q, r.lower, ctes, env);
    UpperFrames(I, n, low, ctes, env);
    var fs := Projected(I, q, ctes, env);
    var us := Projected(I, n, ctes, env);
    assert Rows(I, low, UpperEnv(I, q, env)) == TargetRows(I, r.lower, Moved(fs, 0), Below(ctes, env, 0, 0));
    forall i | 0 <= i < |fs| ensures Targets(I, n.tlist, [us[i]] + env) == Targets(I, q.tlist, [fs[i]] + env) {
      RowAbove(I, q, fs[i], us[i], env);
    }
  }
}
