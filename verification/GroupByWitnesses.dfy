/**
  Whole queries that NormalizeGroupByProjList (gpopt/translate/CQueryMutators.cpp) turns
  into queries with other rows. Each violates one condition of `Splittable`.

  All are evaluated where operator number n returns its n-th argument, an aggregate the
  argument of its first member and a subquery its first column, over one relation with
  the row (4, 7).
 */
module GroupByWitnesses {
  import opened Values
  import opened QueryTree
  import opened DerivedTable
  import opened GroupBySplit
  import opened GroupByMoves
  import opened GroupByMeaning
  import opened GroupByNormalize

  function Choosing(): Interp {
    Interp(_ => [[Datum(4), Datum(7)]], _ => [], (_, _, _) => [], (fn, row) => At(row, fn),
           (_, rows) => if rows == [] then Null else At(rows[0], 1),
           (_, _, t) => if t == [] then Null else At(t[0], 1), (_, _, _) => [])
  }

  function Whole(row: Row): Slot { Slot(row, row) }

  const STORED := Whole([Datum(4), Datum(7)])

  function Column(e: Expr, ref: nat): TargetEntry { TargetEntry(e, ref, false) }

  // SELECT tl FROM the relation, grouped
  function Grouped(ctes: seq<Cte>, tl: seq<TargetEntry>, group: seq<nat>): Query {
    Query(ctes, [Relation(0)], Inner, [], tl, true, group, [], [])
  }

  // SELECT the first column FROM r
  function FirstColumn(ctes: seq<Cte>, r: Rte): Query {
    Query(ctes, [r], Inner, [], [Column(Var(1, 1, 0, false), 0)], false, [], [], [])
  }

  // SELECT e
  function Just(e: Expr): Query { Query([], [], Inner, [], [Column(e, 0)], false, [], [], []) }

  // ----- evaluation -----

  lemma {:induction false} JustRows(I: Interp, e: Expr, env: Env)
    ensures Rows(I, Just(e), env) == [[Eval(I, e, [Frame(map[], [], [])] + env)]]
  {
    var q := Just(e);
    NoFrom(I, q, env);
    var f := Frame(map[], [], []);
    assert CteTables(I, q.ctes, env) == map[];
    assert Targets(I, q.tlist, [f] + env) == [Target(I, q.tlist[0], [f] + env)];
    assert TargetRows(I, q.tlist, [f], env) == [Targets(I, q.tlist, [f] + env)];
  }

  lemma {:induction false} FirstColumnRows(I: Interp, ctes: seq<Cte>, r: Rte, env: Env)
    ensures
      var t := Source(I, r, [Frame(CteTables(I, ctes, env), [], [])] + env);
      var rows := Rows(I, FirstColumn(ctes, r), env);
      |rows| == |t| && forall i :: 0 <= i < |t| ==> rows[i] == [At(t[i], 1)]
  {
    var q := FirstColumn(ctes, r);
    var own := CteTables(I, ctes, env);
    var t := Source(I, r, [Frame(own, [], [])] + env);
    SelectedFrom(I, q, r, own, env);
    var fs := Projected(I, q, own, env);
    forall i | 0 <= i < |t| ensures Targets(I, q.tlist, [fs[i]] + env) == [At(t[i], 1)] {
      assert fs[i].rows == [Whole(t[i])];
      assert Targets(I, q.tlist, [fs[i]] + env) == [Target(I, q.tlist[0], [fs[i]] + env)];
    }
  }

  // At most one row, of one column
  lemma {:induction false} FirstColumnOf(I: Interp, ctes: seq<Cte>, r: Rte, t: Table, env: Env)
    requires Source(I, r, [Frame(CteTables(I, ctes, env), [], [])] + env) == t && |t| <= 1 && (t != [] ==> |t[0]| == 1)
    ensures Rows(I, FirstColumn(ctes, r), env) == t
  {
    FirstColumnRows(I, ctes, r, env);
    var rows := Rows(I, FirstColumn(ctes, r), env);
    if t != [] {
      assert rows[0] == [At(t[0], 1)] && t[0] == [At(t[0], 1)];
      assert rows == [rows[0]] && t == [t[0]];
    }
  }

  // A grouped query over the one row has one group.
  lemma {:induction false} GroupedRows(q: Query, env: Env)
    requires q == Grouped(q.ctes, q.tlist, q.group)
    ensures
      var f := Frame(CteTables(Choosing(), q.ctes, env), [STORED], [[STORED]]);
      Rows(Choosing(), q, env) == [Targets(Choosing(), q.tlist, [f] + env)]
  {
    var I := Choosing();
    var ctes := CteTables(I, q.ctes, env);
    SelectedFrom(I, q, Relation(0), ctes, env);
    var fs := Selected(I, q, ctes, env);
    assert fs == [Frame(ctes, [STORED], [])];
    var keys, bs := Keys(I, q.tlist, q.group, fs, env), Bindings(fs);
    assert bs == [[STORED]];
    OneGroup(keys, bs);
    var gs := FramesOf(ctes, GroupsOf(I, q, keys, bs));
    assert gs == [Frame(ctes, [STORED], [[STORED]])];
    KeptAll(gs, Verdicts(I, [], gs, env));
    assert Projected(I, q, ctes, env) == gs;
  }

  lemma {:induction false} OneGroup(keys: seq<Row>, bs: seq<Binding>)
    requires |keys| == |bs| == 1
    ensures GroupsFrom(keys, bs, 0) == [(bs[0], bs)]
  {
    assert keys[0] !in keys[..0] && GroupsFrom(keys, bs, 1) == [];
    var rest := Members(keys[1..], bs[1..], keys[0]);
    assert rest == [];
    var all := Members(keys, bs, keys[0]);
    assert all == [bs[0]] + rest;
    assert all == bs;
    var first := [(bs[0], all)];
    assert first + [] == first;
    assert GroupsFrom(keys, bs, 0) == first + GroupsFrom(keys, bs, 1);
  }

  // The row of such a query after normalization.
  lemma {:induction false} SplitRows(q: Query, tl: seq<TargetEntry>, lower: seq<TargetEntry>, env: Env)
    requires q == Grouped(q.ctes, q.tlist, q.group) && Needs(q, 0).Split? && SplitTargetsOf(q) == Ok(tl, lower)
    ensures NormalizeGroupByProjList(q).Done?
    ensures
      var ctes := CteTables(Choosing(), q.ctes, env);
      var row := Targets(Choosing(), lower, [Frame(map[], [STORED], [[STORED]])] + ([Frame(ctes, [], [])] + env));
      Rows(Choosing(), NormalizeGroupByProjList(q).query, env) == [Targets(Choosing(), tl, [Frame(ctes, [Whole(row)], [])] + env)]
  {
    var I := Choosing();
    var n := NormalizeGroupByProjList(q).query;
    var ctes := CteTables(I, q.ctes, env);
    var low := LowerQuery(q, false, true).(tlist := lower);
    assert low == Grouped([], lower, q.group);
    GroupedRows(low, [Frame(ctes, [], [])] + env);
    assert CteTables(I, [], [Frame(ctes, [], [])] + env) == map[];
    UpperFrames(I, n, low, ctes, env);
  }

  lemma {:induction false} OneCte(I: Interp, name: nat, body: Query, env: Env)
    ensures CteTables(I, [Cte(name, body)], env) == map[name := Rows(I, body, [Frame(map[], [], [])] + env)]
  {
    var cs := [Cte(name, body)];
    assert cs[..0] == [] && CteTables(I, [], env) == map[];
  }

  lemma {:induction false} LinkValue(q: Query, env: Env)
    ensures
      var t := Rows(Choosing(), q, env);
      Eval(Choosing(), SubLink(0, [], q), env) == if t == [] then Null else At(t[0], 1)
  {
  }

  lemma {:induction false} PairOf(I: Interp, tl: seq<TargetEntry>, env: Env)
    requires |tl| == 2
    ensures Targets(I, tl, env) == [Eval(I, tl[0].expr, env), Eval(I, tl[1].expr, env)]
  {
  }

  lemma {:induction false} OneOf(I: Interp, tl: seq<TargetEntry>, env: Env)
    requires |tl| == 1
    ensures Targets(I, tl, env) == [Eval(I, tl[0].expr, env)]
  {
  }

  lemma {:induction false} ChosenArgument(fn: nat, a: Expr, b: Expr, env: Env)
    requires fn == 1 || fn == 2
    ensures Eval(Choosing(), Op(fn, [a, b]), env) == Eval(Choosing(), if fn == 1 then a else b, env)
  {
    assert EvalAll(Choosing(), [a, b], env) == [Eval(Choosing(), a, env), Eval(Choosing(), b, env)];
  }

  lemma {:induction false} NotSplittable(q: Query, i: nat)
    requires i < |q.tlist| && q.tlist[i].ref !in q.group && !RightExpr(q.tlist[i].expr, 0, 0, GroupEntries(q.tlist, q.group))
    ensures !Splittable(q)
  {
    assert !RightTarget(q.tlist[i], 0, 0, GroupEntries(q.tlist, q.group));
  }

  // Not a grouping column itself, and one argument is not right.
  lemma {:induction false} NotRight(e: Expr, base: seq<TargetEntry>)
    requires e.Op? && Find(base, e) == |base| && e.args != [] && !RightExpr(e.args[0], 0, 0, base)
    ensures !RightExpr(e, 0, 0, base)
  {
  }

  // ----- an argument that refers to an outer query -----

  // (SELECT o.x), where o belongs to the query around the split one
  function OuterColumn(): Expr { SubLink(0, [], Just(Var(1, 1, 2, false))) }

  lemma {:induction false} OuterColumnValue(env: Env)
    requires |env| >= 2
    ensures Eval(Choosing(), OuterColumn(), env) == At(RowOf(env[1].rows, 1).base, 1)
  {
    JustRows(Choosing(), Var(1, 1, 2, false), env);
    var inner := [Frame(map[], [], [])] + env;
    assert inner[2] == env[1];
  }

  // sum(t.y + (SELECT o.x))
  function SumOverOuter(): Expr { Agg(0, [Op(2, [Var(1, 1, 0, false), OuterColumn()])], 0) }

  // SELECT sum(t.y + (SELECT o.x)) + 1 FROM t
  function OuterArgument(): Query {
    Grouped([], [Column(Op(1, [SumOverOuter(), Const(Datum(1))]), 0)], [])
  }

  // The argument moves down unchanged.
  lemma {:induction false} OuterArgumentSplit()
    ensures SplitTargetsOf(OuterArgument())
            == Ok([Column(Op(1, [Var(1, 1, 0, false), Const(Datum(1))]), 0)], [Column(SumOverOuter(), 0)])
  {
    var one := Const(Datum(1));
    JustMoves(Var(1, 1, 2, false), 1, InAggregate(0));
    var arg := Op(2, [Var(1, 1, 0, false), OuterColumn()]);
    MapPair(Var(1, 1, 0, false), OuterColumn(), 0, InAggregate(0), []);
    MapSingle(arg, 0, InAggregate(0), []);
    assert MapExpr(SumOverOuter(), 0, Above, []) == Ok(Var(1, 1, 0, false), [Column(SumOverOuter(), 0)]);
    MapPair(SumOverOuter(), one, 0, Above, []);
    var q := OuterArgument();
    GroupPassLast(q.tlist[0], [], []);
    RestPassLast(q.tlist[0], [], []);
  }

  lemma {:induction false} OuterArgumentNeeds()
    ensures Needs(OuterArgument(), 0).Split?
  {
  }

  lemma {:induction false} OuterArgumentStays()
    ensures !MovesAll(SumOverOuter().args, 0, 0, 0)
  {
    assert !MovesTarget(OuterColumn().sub.tlist[0], 1, 1, 0);
    var arg := SumOverOuter().args[0];
    assert !MovesExpr(arg.args[1], 0, 0, 0);
    assert !MovesExpr(SumOverOuter().args[0], 0, 0, 0);
  }

  lemma {:induction false} OuterArgumentWrong()
    ensures !Splittable(OuterArgument())
  {
    OuterArgumentStays();
    var q := OuterArgument();
    var e, base := q.tlist[0].expr, GroupEntries(q.tlist, q.group);
    assert q.tlist[1..] == [] && base == [];
    assert !RightExpr(e.args[0], 0, 0, base);
    NotRight(e, base);
    NotSplittable(q, 0);
  }

  lemma {:induction false} GroupPassLast(te: TargetEntry, group: seq<nat>, lower: seq<TargetEntry>)
    requires te.ref !in group
    ensures GroupPass([te], group, lower) == Ok([te], lower)
  {
    assert [te][1..] == [] && GroupPass([], group, lower) == Ok([], lower) && [te] + [] == [te];
  }

  lemma {:induction false} RestPassLast(te: TargetEntry, group: seq<nat>, lower: seq<TargetEntry>)
    requires te.ref !in group && MapTarget(te, 0, Above, lower).Ok?
    ensures RestPass([te], group, lower) == Ok([MapTarget(te, 0, Above, lower).value], MapTarget(te, 0, Above, lower).lower)
  {
    var r := MapTarget(te, 0, Above, lower);
    assert [te][1..] == [] && RestPass([], group, r.lower) == Ok([], r.lower) && [r.value] + [] == [r.value];
  }

  // A subquery of one expression that the mutator leaves alone.
  lemma {:induction false} JustMoves(e: Expr, d: nat, mode: Mode)
    requires MapExpr(e, d, mode, []) == Ok(e, [])
    ensures MapQuery(Just(e), d, d + 1, mode, []) == Ok(Just(e), [])
  {
    var q := Just(e);
    assert MapTarget(q.tlist[0], d, mode, []) == Ok(q.tlist[0], []);
    assert q.tlist == [q.tlist[0]] + [];
    assert MapTargets(q.tlist[1..], d, mode, []) == Ok([], []);
  }

  lemma {:induction false} MapSingle(e: Expr, d: nat, mode: Mode, lower: seq<TargetEntry>)
    requires MapExpr(e, d, mode, lower).Ok?
    ensures MapAll([e], d, mode, lower) == Ok([MapExpr(e, d, mode, lower).value], MapExpr(e, d, mode, lower).lower)
  {
    var first := MapExpr(e, d, mode, lower);
    assert [e][1..] == [] && MapAll([], d, mode, first.lower) == Ok([], first.lower);
    assert [first.value] + [] == [first.value];
  }

  lemma {:induction false} MapPair(a: Expr, b: Expr, d: nat, mode: Mode, lower: seq<TargetEntry>)
    requires
      && MapExpr(a, d, mode, lower).Ok?
      && MapExpr(b, d, mode, MapExpr(a, d, mode, lower).lower).Ok?
    ensures
      var first := MapExpr(a, d, mode, lower);
      var second := MapExpr(b, d, mode, first.lower);
      MapAll([a, b], d, mode, lower) == Ok([first.value, second.value], second.lower)
  {
    var first := MapExpr(a, d, mode, lower);
    var second := MapExpr(b, d, mode, first.lower);
    MapSingle(b, d, mode, first.lower);
    assert [a, b][1..] == [b] && [first.value] + [second.value] == [first.value, second.value];
  }

  const OUTER := Frame(map[], [Whole([Datum(5)])], [])
  const GROUP := Frame(map[], [STORED], [[STORED]])

  lemma {:induction false} OuterArgumentRows()
    ensures Rows(Choosing(), OuterArgument(), [OUTER]) == [[Datum(5)]]
  {
    var q := OuterArgument();
    GroupedRows(q, [OUTER]);
    assert CteTables(Choosing(), [], [OUTER]) == map[];
    var env := [GROUP] + [OUTER];
    SumValue(env);
    assert env[1] == OUTER;
    ChosenArgument(1, SumOverOuter(), Const(Datum(1)), env);
    OneOf(Choosing(), q.tlist, env);
  }

  lemma {:induction false} OuterArgumentSplitRows()
    ensures NormalizeGroupByProjList(OuterArgument()).Done?
    ensures Rows(Choosing(), NormalizeGroupByProjList(OuterArgument()).query, [OUTER]) == [[Null]]
  {
    var q := OuterArgument();
    OuterArgumentNeeds();
    OuterArgumentSplit();
    var tl, lower := SplitTargetsOf(q).value, SplitTargetsOf(q).lower;
    SplitRows(q, tl, lower, [OUTER]);
    assert CteTables(Choosing(), [], [OUTER]) == map[];
    var below := [GROUP] + ([Frame(map[], [], [])] + [OUTER]);
    SumValue(below);
    assert below[1] == Frame(map[], [], []);
    OneOf(Choosing(), lower, below);
    var above := [Frame(map[], [Whole([Null])], [])] + [OUTER];
    ChosenArgument(1, Var(1, 1, 0, false), Const(Datum(1)), above);
    OneOf(Choosing(), tl, above);
  }

  /** The argument then reads the inserted query, which has no row: the sum is NULL. */
  lemma {:induction false} OuterReferenceIsLost()
    ensures !Splittable(OuterArgument()) && NormalizeGroupByProjList(OuterArgument()).Done?
    ensures Rows(Choosing(), OuterArgument(), [OUTER]) == [[Datum(5)]]
    ensures Rows(Choosing(), NormalizeGroupByProjList(OuterArgument()).query, [OUTER]) == [[Null]]
  {
    OuterArgumentWrong();
    OuterArgumentRows();
    OuterArgumentSplitRows();
  }

  lemma {:induction false} SumValue(env: Env)
    requires |env| >= 2 && env[0] == GROUP
    ensures Eval(Choosing(), SumOverOuter(), env) == At(RowOf(env[1].rows, 1).base, 1)
  {
    var arg := Op(2, [Var(1, 1, 0, false), OuterColumn()]);
    var member := env[0 := env[0].(rows := [STORED])];
    assert member == env;
    OuterColumnValue(env);
    ChosenArgument(2, Var(1, 1, 0, false), OuterColumn(), env);
    assert EvalAll(Choosing(), [arg], env) == [Eval(Choosing(), arg, env)];
    var group := env[0].group;
    assert group[1..] == [] && AggInputs(Choosing(), [arg], 0, env, group) == [EvalAll(Choosing(), [arg], member)] + AggInputs(Choosing(), [arg], 0, env, group[1..]);
  }

  // ----- a column that looks like a shifted grouping column -----

  // SELECT o.x, p.x + 1 FROM t GROUP BY o.x, where o is one and p two levels out
  function TwoOuterColumns(): Query {
    Grouped([], [Column(Var(1, 1, 1, false), 1), Column(Op(1, [Var(1, 1, 2, false), Const(Datum(1))]), 0)], [1])
  }

  // Shifted, o.x looks like p.x, which is therefore replaced by it.
  lemma {:induction false} TwoOuterColumnsSplit()
    ensures SplitTargetsOf(TwoOuterColumns())
            == Ok([Column(Var(1, 1, 0, false), 1), Column(Op(1, [Var(1, 1, 0, false), Const(Datum(1))]), 0)], [Column(Var(1, 1, 2, false), 1)])
  {
    var q := TwoOuterColumns();
    var one, p := Const(Datum(1)), Var(1, 1, 2, false);
    var lower := [Column(p, 1)];
    var top := [Column(Var(1, 1, 0, false), 1), q.tlist[1]];
    assert q.tlist[1..] == [q.tlist[1]];
    GroupPassLast(q.tlist[1], [1], lower);
    assert [] + lower == lower && [top[0]] + [top[1]] == top && GroupPass(q.tlist, [1], []) == Ok(top, lower);
    MapPair(p, one, 0, Above, lower);
    assert top[1..] == [q.tlist[1]];
    assert MapExpr(Op(1, [p, one]), 0, Above, lower) == Ok(Op(1, [Var(1, 1, 0, false), one]), lower);
    RestPassLast(q.tlist[1], [1], lower);
    var after := Column(Op(1, [Var(1, 1, 0, false), one]), 0);
    assert [top[0]] + [after] == [top[0], after];
  }

  lemma {:induction false} TwoOuterColumnsNeeds()
    ensures Needs(TwoOuterColumns(), 0).Split?
  {
    var q := TwoOuterColumns();
    assert IsGroupingExpr(q.tlist[0].expr, q.tlist, q.group);
    assert !IsGroupingExpr(q.tlist[1].expr, q.tlist, q.group);
    assert Needs(q, 1).Split?;
  }

  lemma {:induction false} TwoOuterColumnsWrong()
    ensures !Splittable(TwoOuterColumns())
  {
    var q := TwoOuterColumns();
    var e, base := q.tlist[1].expr, [Column(Var(1, 1, 2, false), 1)];
    assert q.tlist[1..][1..] == [] && GroupEntries(q.tlist[1..], [1]) == [] && GroupEntries(q.tlist, [1]) == base;
    assert Find(base, e.args[0]) == 0 && !RightExpr(e.args[0], 0, 0, base);
    NotRight(e, base);
    NotSplittable(q, 1);
  }

  // o.x is 1 and p.x is 2.
  const TWO_LEVELS := [Frame(map[], [Whole([Datum(1)])], []), Frame(map[], [Whole([Datum(2)])], [])]

  lemma {:induction false} TwoOuterColumnsInner()
    ensures Targets(Choosing(), TwoOuterColumns().tlist, [GROUP] + TWO_LEVELS) == [Datum(1), Datum(2)]
  {
    var inner := [GROUP] + TWO_LEVELS;
    assert inner[1] == TWO_LEVELS[0] && inner[2] == TWO_LEVELS[1];
    ChosenArgument(1, Var(1, 1, 2, false), Const(Datum(1)), inner);
    PairOf(Choosing(), TwoOuterColumns().tlist, inner);
  }

  lemma {:induction false} TwoOuterColumnsRows()
    ensures Rows(Choosing(), TwoOuterColumns(), TWO_LEVELS) == [[Datum(1), Datum(2)]]
  {
    assert CteTables(Choosing(), [], TWO_LEVELS) == map[];
    GroupedRows(TwoOuterColumns(), TWO_LEVELS);
    TwoOuterColumnsInner();
  }

  lemma {:induction false} TwoOuterColumnsBelow()
    ensures Targets(Choosing(), [Column(Var(1, 1, 2, false), 1)], [GROUP] + ([Frame(map[], [], [])] + TWO_LEVELS)) == [Datum(1)]
  {
    var below := [GROUP] + ([Frame(map[], [], [])] + TWO_LEVELS);
    assert below[2] == TWO_LEVELS[0];
    OneOf(Choosing(), [Column(Var(1, 1, 2, false), 1)], below);
  }

  lemma {:induction false} TwoOuterColumnsAbove()
    ensures
      var tl := [Column(Var(1, 1, 0, false), 1), Column(Op(1, [Var(1, 1, 0, false), Const(Datum(1))]), 0)];
      Targets(Choosing(), tl, [Frame(map[], [Whole([Datum(1)])], [])] + TWO_LEVELS) == [Datum(1), Datum(1)]
  {
    var tl := [Column(Var(1, 1, 0, false), 1), Column(Op(1, [Var(1, 1, 0, false), Const(Datum(1))]), 0)];
    var above := [Frame(map[], [Whole([Datum(1)])], [])] + TWO_LEVELS;
    ChosenArgument(1, Var(1, 1, 0, false), Const(Datum(1)), above);
    PairOf(Choosing(), tl, above);
  }

  lemma {:induction false} TwoOuterColumnsSplitRows()
    ensures NormalizeGroupByProjList(TwoOuterColumns()).Done?
    ensures Rows(Choosing(), NormalizeGroupByProjList(TwoOuterColumns()).query, TWO_LEVELS) == [[Datum(1), Datum(1)]]
  {
    var q := TwoOuterColumns();
    TwoOuterColumnsNeeds();
    TwoOuterColumnsSplit();
    SplitRows(q, SplitTargetsOf(q).value, SplitTargetsOf(q).lower, TWO_LEVELS);
    assert CteTables(Choosing(), [], TWO_LEVELS) == map[];
    TwoOuterColumnsBelow();
    TwoOuterColumnsAbove();
  }

  /** Both columns then show o.x. */
  lemma {:induction false} ShiftedGroupingColumnIsMistaken()
    ensures !Splittable(TwoOuterColumns()) && NormalizeGroupByProjList(TwoOuterColumns()).Done?
    ensures Rows(Choosing(), TwoOuterColumns(), TWO_LEVELS) == [[Datum(1), Datum(2)]]
    ensures Rows(Choosing(), NormalizeGroupByProjList(TwoOuterColumns()).query, TWO_LEVELS) == [[Datum(1), Datum(1)]]
  {
    TwoOuterColumnsWrong();
    TwoOuterColumnsRows();
    TwoOuterColumnsSplitRows();
  }

  // ----- a grouping column that reads a CTE of the split query -----

  const FIVE := [Cte(3, Just(Const(Datum(5))))]

  // (SELECT * FROM c)
  function ReadCte(): Expr { SubLink(0, [], FirstColumn([], CteRef(3, 1))) }

  // max(t.x)
  function Largest(): Expr { Agg(0, [Var(1, 1, 0, false)], 0) }

  // WITH c AS (SELECT 5) SELECT (SELECT * FROM c), max(t.x) + 1 FROM t GROUP BY 1
  function GroupedByCte(): Query {
    Grouped(FIVE, [Column(ReadCte(), 1), Column(Op(1, [Largest(), Const(Datum(1))]), 0)], [1])
  }

  // Nothing happens to it below depth 0 unless to its source or its CTEs.
  lemma {:induction false} StaysFirst(r: Rte, ctes: seq<Cte>, d: nat, rt: nat, mode: Mode, lower: seq<TargetEntry>)
    requires d > 0 && MapRte(r, rt, mode, lower) == Ok(r, lower) && MapCtes(ctes, d, mode, lower) == Ok(ctes, lower)
    ensures MapQuery(FirstColumn(ctes, r), d, rt, mode, lower) == Ok(FirstColumn(ctes, r), lower)
  {
    var q := FirstColumn(ctes, r);
    assert MapTarget(q.tlist[0], d, mode, lower) == Ok(q.tlist[0], lower);
    assert q.tlist[1..] == [] && MapTargets([], d, mode, lower) == Ok([], lower) && [q.tlist[0]] + [] == q.tlist;
    assert q.rtable[1..] == [] && MapRtes([], rt, mode, lower) == Ok([], lower) && [r] + [] == q.rtable;
  }

  lemma {:induction false} LargestSplit(lower: seq<TargetEntry>)
    ensures MapExpr(Largest(), 0, Above, lower) == Ok(Var(1, |lower| + 1, 0, false), lower + [Column(Largest(), 0)])
  {
    MapSingle(Var(1, 1, 0, false), 0, InAggregate(0), lower);
  }

  // The grouping column moves down unchanged.
  lemma {:induction false} GroupedByCteFirst()
    ensures
      var q := GroupedByCte();
      GroupPass(q.tlist, [1], []) == Ok([Column(Var(1, 1, 0, false), 1), q.tlist[1]], [Column(ReadCte(), 1)])
  {
    var q := GroupedByCte();
    var lower, first := [Column(ReadCte(), 1)], Column(Var(1, 1, 0, false), 1);
    StaysFirst(CteRef(3, 1), [], 1, 2, GroupingColumn, []);
    assert MapExpr(ReadCte(), 0, GroupingColumn, []) == Ok(ReadCte(), []);
    assert q.tlist[1..] == [q.tlist[1]];
    GroupPassLast(q.tlist[1], [1], lower);
    assert [] + lower == lower && [first] + [q.tlist[1]] == [first, q.tlist[1]];
  }

  lemma {:induction false} GroupedByCteSplit()
    ensures SplitTargetsOf(GroupedByCte())
            == Ok([Column(Var(1, 1, 0, false), 1), Column(Op(1, [Var(1, 2, 0, false), Const(Datum(1))]), 0)],
                  [Column(ReadCte(), 1), Column(Largest(), 0)])
  {
    var q := GroupedByCte();
    var one := Const(Datum(1));
    var lower, first := [Column(ReadCte(), 1)], Column(Var(1, 1, 0, false), 1);
    GroupedByCteFirst();
    LargestSplit(lower);
    MapPair(Largest(), one, 0, Above, lower);
    var after := Column(Op(1, [Var(1, 2, 0, false), one]), 0);
    var all := lower + [Column(Largest(), 0)];
    assert MapTarget(q.tlist[1], 0, Above, lower) == Ok(after, all);
    RestPassLast(q.tlist[1], [1], lower);
    assert [first, q.tlist[1]][1..] == [q.tlist[1]] && [first] + [after] == [first, after];
    assert all == [Column(ReadCte(), 1), Column(Largest(), 0)];
  }

  lemma {:induction false} GroupedByCteNeeds()
    ensures Needs(GroupedByCte(), 0).Split? && !ColumnExpr(ReadCte(), 0, 0)
  {
    var q := GroupedByCte();
    assert IsGroupingExpr(q.tlist[0].expr, q.tlist, q.group);
    assert !IsGroupingExpr(q.tlist[1].expr, q.tlist, q.group);
    assert Needs(q, 1).Split?;
    assert !ColumnRte(ReadCte().sub.rtable[0], 1, 2);
  }

  lemma {:induction false} ReadCteValue(env: Env)
    requires env != [] && (3 in env[0].ctes ==> env[0].ctes[3] == [[Datum(5)]])
    ensures Eval(Choosing(), ReadCte(), env) == if 3 in env[0].ctes then Datum(5) else Null
  {
    var inner := [Frame(CteTables(Choosing(), [], env), [], [])] + env;
    assert inner[1] == env[0];
    FirstColumnOf(Choosing(), [], CteRef(3, 1), if 3 in env[0].ctes then [[Datum(5)]] else [], env);
  }

  lemma {:induction false} LargestValue(env: Env)
    requires env != [] && env[0].group == [[STORED]]
    ensures Eval(Choosing(), Largest(), env) == Datum(4)
  {
    var group := env[0].group;
    var member := env[0 := env[0].(rows := [STORED])];
    assert EvalAll(Choosing(), Largest().args, member) == [Datum(4)];
    assert group[1..] == [];
    assert AggInputs(Choosing(), Largest().args, 0, env, group)
        == [EvalAll(Choosing(), Largest().args, member)] + AggInputs(Choosing(), Largest().args, 0, env, group[1..]);
  }

  lemma {:induction false} FiveTables(env: Env)
    ensures CteTables(Choosing(), FIVE, env) == map[3 := [[Datum(5)]]]
  {
    OneCte(Choosing(), 3, Just(Const(Datum(5))), env);
    JustRows(Choosing(), Const(Datum(5)), [Frame(map[], [], [])] + env);
  }

  /** The column then looks for the CTE in the derived table, which has none, and is NULL. */
  lemma {:induction false} GroupedCteIsLost(env: Env)
    ensures !Splittable(GroupedByCte()) && NormalizeGroupByProjList(GroupedByCte()).Done?
    ensures Rows(Choosing(), GroupedByCte(), env) == [[Datum(5), Datum(4)]]
    ensures Rows(Choosing(), NormalizeGroupByProjList(GroupedByCte()).query, env) == [[Null, Datum(4)]]
  {
    GroupedByCteNeeds();
    GroupedByCteRows(env);
    GroupedByCteSplitRows(env);
    assert !ColumnsMove(GroupedByCte().tlist, [1]);
  }

  lemma {:induction false} GroupedByCteRows(env: Env)
    ensures Rows(Choosing(), GroupedByCte(), env) == [[Datum(5), Datum(4)]]
  {
    var q := GroupedByCte();
    GroupedRows(q, env);
    FiveTables(env);
    var inner := [Frame(map[3 := [[Datum(5)]]], [STORED], [[STORED]])] + env;
    ReadCteValue(inner);
    LargestValue(inner);
    ChosenArgument(1, Largest(), Const(Datum(1)), inner);
    PairOf(Choosing(), q.tlist, inner);
  }

  lemma {:induction false} GroupedByCteSplitRows(env: Env)
    ensures NormalizeGroupByProjList(GroupedByCte()).Done?
    ensures Rows(Choosing(), NormalizeGroupByProjList(GroupedByCte()).query, env) == [[Null, Datum(4)]]
  {
    var q := GroupedByCte();
    GroupedByCteNeeds();
    GroupedByCteSplit();
    var tl, lower := SplitTargetsOf(q).value, SplitTargetsOf(q).lower;
    SplitRows(q, tl, lower, env);
    FiveTables(env);
    var ctes := map[3 := [[Datum(5)]]];
    var below := [GROUP] + ([Frame(ctes, [], [])] + env);
    ReadCteValue(below);
    LargestValue(below);
    PairOf(Choosing(), lower, below);
    var above := [Frame(ctes, [Whole([Null, Datum(4)])], [])] + env;
    ChosenArgument(1, Var(1, 2, 0, false), Const(Datum(1)), above);
    PairOf(Choosing(), tl, above);
  }

  // ----- a derived table in the body of a CTE -----

  // (SELECT foo.b), where b is column number `a`, three levels inside the query that reads foo
  function Innermost(a: nat): Query { Just(Var(1, a, 3, false)) }

  // SELECT * FROM (SELECT foo.b) t
  function CteBody(a: nat): Query { FirstColumn([], Derived(Innermost(a))) }

  // (WITH c AS (SELECT * FROM (SELECT foo.b) t) SELECT * FROM c)
  function ThroughCte(a: nat): Expr { SubLink(0, [], FirstColumn([Cte(3, CteBody(a))], CteRef(3, 0))) }

  // SELECT (WITH c AS (SELECT * FROM (SELECT foo.b) t) SELECT * FROM c) + 1, foo.b FROM foo GROUP BY foo.b
  function GroupedColumnInCte(a: nat): Query {
    Grouped([], [Column(Op(1, [ThroughCte(a), Const(Datum(1))]), 0), Column(Var(1, a, 0, false), 1)], [1])
  }

  // The derived table is entered at depth 2 instead of 3, so foo.b is not seen to be the grouping column.
  lemma {:induction false} ThroughCteStays(a: nat, lower: seq<TargetEntry>)
    requires lower == [Column(Var(1, a, 0, false), 1)]
    ensures MapExpr(ThroughCte(a), 0, Above, lower) == Ok(ThroughCte(a), lower)
  {
    var ctes := [Cte(3, CteBody(a))];
    StaysCte(a, lower);
    StaysFirst(CteRef(3, 0), ctes, 1, 2, Above, lower);
    StaysLink(FirstColumn(ctes, CteRef(3, 0)), lower);
  }

  lemma {:induction false} StaysCte(a: nat, lower: seq<TargetEntry>)
    ensures MapCtes([Cte(3, CteBody(a))], 1, Above, lower) == Ok([Cte(3, CteBody(a))], lower)
  {
    var ctes := [Cte(3, CteBody(a))];
    StaysJust(a, lower);
    StaysFirst(Derived(Innermost(a)), [], 2, 2, Above, lower);
    assert MapCte(ctes[0], 1, Above, lower) == Ok(ctes[0], lower);
    assert ctes[1..] == [] && MapCtes([], 1, Above, lower) == Ok([], lower) && [ctes[0]] + [] == ctes;
  }

  lemma {:induction false} StaysLink(q: Query, lower: seq<TargetEntry>)
    requires MapQuery(q, 1, 2, Above, lower) == Ok(q, lower) && Find(lower, SubLink(0, [], q)) == |lower|
    ensures MapExpr(SubLink(0, [], q), 0, Above, lower) == Ok(SubLink(0, [], q), lower)
  {
  }

  // What is overlooked three levels inside comes out right exactly if it is the first column.
  lemma {:induction false} ThroughCteIff(a: nat)
    ensures RightExpr(ThroughCte(a), 0, 0, [Column(Var(1, a, 0, false), 1)]) <==> a == 1
  {
    var base := [Column(Var(1, a, 0, false), 1)];
    InnermostIff(a);
    FirstIff(Derived(Innermost(a)), [], 2, 2, 2, base);
    var ctes := [Cte(3, CteBody(a))];
    assert RightCtes(ctes, 1, 1, base) <==> RightCte(ctes[0], 1, 1, base);
    FirstIff(CteRef(3, 0), ctes, 1, 1, 2, base);
    assert Find(base, ThroughCte(a)) == 1;
  }

  lemma {:induction false} InnermostIff(a: nat)
    ensures RightQuery(Innermost(a), 3, 2, 3, [Column(Var(1, a, 0, false), 1)]) <==> a == 1
  {
    var tl, base := Innermost(a).tlist, [Column(Var(1, a, 0, false), 1)];
    assert RightTargets(tl, 3, 2, base) <==> RightTarget(tl[0], 3, 2, base);
  }

  lemma {:induction false} FirstIff(r: Rte, ctes: seq<Cte>, t: nat, d: nat, rt: nat, base: seq<TargetEntry>)
    requires t > 0 && d == t
    ensures RightQuery(FirstColumn(ctes, r), t, d, rt, base) <==> RightRte(r, t, rt, base) && RightCtes(ctes, t, d, base)
  {
    var q := FirstColumn(ctes, r);
    assert RightTarget(q.tlist[0], t, d, base);
    assert RightRtes(q.rtable, t, rt, base) <==> RightRte(q.rtable[0], t, rt, base);
  }

  lemma {:induction false} StaysJust(a: nat, lower: seq<TargetEntry>)
    ensures MapQuery(Innermost(a), 2, 3, Above, lower) == Ok(Innermost(a), lower)
  {
    var tl := Innermost(a).tlist;
    assert MapTarget(tl[0], 2, Above, lower) == Ok(tl[0], lower);
    assert tl[1..] == [] && MapTargets([], 2, Above, lower) == Ok([], lower) && [tl[0]] + [] == tl;
  }

  lemma {:induction false} GroupedColumnInCteSplit(a: nat)
    ensures SplitTargetsOf(GroupedColumnInCte(a))
            == Ok([GroupedColumnInCte(a).tlist[0], Column(Var(1, 1, 0, false), 1)], [Column(Var(1, a, 0, false), 1)])
  {
    var q := GroupedColumnInCte(a);
    var b, one := q.tlist[1], Const(Datum(1));
    var lower, last := [b], Column(Var(1, 1, 0, false), 1);
    assert q.tlist[1..] == [b] && [b][1..] == [] && [] + lower == lower;
    assert GroupPass([], [1], lower) == Ok([], lower);
    assert [last] + [] == [last] && GroupPass([b], [1], []) == Ok([last], lower);
    var top := [q.tlist[0], last];
    assert [q.tlist[0]] + [last] == top;
    assert GroupPass(q.tlist, [1], []) == Ok(top, lower);
    ThroughCteStays(a, lower);
    MapPair(ThroughCte(a), one, 0, Above, lower);
    assert MapTarget(q.tlist[0], 0, Above, lower) == Ok(q.tlist[0], lower);
    assert top[1..] == [last] && [last][1..] == [] && RestPass([], [1], lower) == Ok([], lower);
    assert RestPass([last], [1], lower) == Ok([last], lower);
  }

  lemma {:induction false} GroupedColumnInCteNeeds(a: nat)
    ensures Needs(GroupedColumnInCte(a), 0).Split?
  {
    var q := GroupedColumnInCte(a);
    var e := q.tlist[0].expr;
    assert !ShouldFallback(e.args[0], q.tlist, q.group) && !ShouldFallback(e.args[1], q.tlist, q.group);
    assert !IsGroupingExpr(e, q.tlist, q.group) && !ShouldFallback(e, q.tlist, q.group);
  }

  lemma {:induction false} ThroughCteValue(a: nat, env: Env)
    requires env != []
    ensures Eval(Choosing(), ThroughCte(a), env) == At(RowOf(env[0].rows, 1).base, a)
  {
    var e1 := [Frame(map[], [], [])] + env;
    assert e1[1] == env[0];
    CteBodyRows(a, e1);
    var t := Rows(Choosing(), CteBody(a), e1);
    OneCte(Choosing(), 3, CteBody(a), env);
    ReadOwnCte(CteBody(a), t, env);
    LinkValue(ThroughCte(a).sub, env);
  }

  lemma {:induction false} ReadOwnCte(body: Query, t: Table, env: Env)
    requires CteTables(Choosing(), [Cte(3, body)], env) == map[3 := t] && |t| == 1 && |t[0]| == 1
    ensures Rows(Choosing(), FirstColumn([Cte(3, body)], CteRef(3, 0)), env) == t
  {
    FirstColumnOf(Choosing(), [Cte(3, body)], CteRef(3, 0), t, env);
  }

  lemma {:induction false} CteBodyRows(a: nat, env: Env)
    requires |env| >= 2
    ensures Rows(Choosing(), CteBody(a), env) == [[At(RowOf(env[1].rows, 1).base, a)]]
  {
    var inner := [Frame(map[], [], [])] + env;
    JustRows(Choosing(), Var(1, a, 3, false), inner);
    assert ([Frame(map[], [], [])] + inner)[3] == env[1];
    assert CteTables(Choosing(), [], env) == map[];
    FirstColumnOf(Choosing(), [], Derived(Innermost(a)), Rows(Choosing(), Innermost(a), inner), env);
  }

  /** The query is split correctly if and only if it is grouped by the first column. */
  lemma {:induction false} MiscountedColumnIff(a: nat)
    ensures Splittable(GroupedColumnInCte(a)) <==> a == 1
  {
    var q := GroupedColumnInCte(a);
    var e, base := q.tlist[0].expr, [q.tlist[1]];
    GroupedColumnInCteBase(a);
    ThroughCteIff(a);
    assert RightAll(e.args, 0, 0, base) <==> RightExpr(e.args[0], 0, 0, base) && RightExpr(e.args[1], 0, 0, base);
    assert Find(base, e) == 1;
    assert RestRight(q.tlist, q.group, base) <==> RightTarget(q.tlist[0], 0, 0, base);
  }

  lemma {:induction false} GroupedColumnInCteBase(a: nat)
    ensures
      var q := GroupedColumnInCte(a);
      && GroupEntries(q.tlist, q.group) == [q.tlist[1]] && ColumnsMove(q.tlist, q.group)
      && RefsResolve(q) && NoOuterAggsIn(q.(ctes := [], tlist := []), 0)
  {
    var q := GroupedColumnInCte(a);
    var last := q.tlist[1..];
    assert last == [q.tlist[1]] && last[1..] == [] && GroupEntries(last, [1]) == [q.tlist[1]] + GroupEntries([], [1]);
    assert q.tlist[1].ref == q.group[0];
  }

  /** Above, the second column foo.b names a second column of the derived table, which has
      only one, and is NULL. */
  lemma {:induction false} MiscountedColumnIsLost(env: Env)
    ensures !Splittable(GroupedColumnInCte(2)) && NormalizeGroupByProjList(GroupedColumnInCte(2)).Done?
    ensures Rows(Choosing(), GroupedColumnInCte(2), env) == [[Datum(7), Datum(7)]]
    ensures Rows(Choosing(), NormalizeGroupByProjList(GroupedColumnInCte(2)).query, env) == [[Null, Datum(7)]]
  {
    MiscountedColumnIff(2);
    GroupedColumnInCteRows(env);
    GroupedColumnInCteSplitRows(env);
  }

  lemma {:induction false} GroupedColumnInCteRows(env: Env)
    ensures Rows(Choosing(), GroupedColumnInCte(2), env) == [[Datum(7), Datum(7)]]
  {
    var q := GroupedColumnInCte(2);
    GroupedRows(q, env);
    assert CteTables(Choosing(), [], env) == map[];
    var inner := [GROUP] + env;
    ThroughCteValue(2, inner);
    ChosenArgument(1, ThroughCte(2), Const(Datum(1)), inner);
    PairOf(Choosing(), q.tlist, inner);
  }

  lemma {:induction false} GroupedColumnInCteSplitRows(env: Env)
    ensures NormalizeGroupByProjList(GroupedColumnInCte(2)).Done?
    ensures Rows(Choosing(), NormalizeGroupByProjList(GroupedColumnInCte(2)).query, env) == [[Null, Datum(7)]]
  {
    var q := GroupedColumnInCte(2);
    GroupedColumnInCteNeeds(2);
    GroupedColumnInCteSplit(2);
    var tl, lower := SplitTargetsOf(q).value, SplitTargetsOf(q).lower;
    SplitRows(q, tl, lower, env);
    assert CteTables(Choosing(), [], env) == map[];
    var below := [GROUP] + ([Frame(map[], [], [])] + env);
    OneOf(Choosing(), lower, below);
    var above := [Frame(map[], [Whole([Datum(7)])], [])] + env;
    ThroughCteValue(2, above);
    ChosenArgument(1, ThroughCte(2), Const(Datum(1)), above);
    PairOf(Choosing(), tl, above);
  }
}
