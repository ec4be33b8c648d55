/**
  A grouping column that is mistaken for another one changes the result.

  While the target list above is rebuilt, a part is looked up among the shifted grouping
  columns. A part that refers to an outer query can look like the shifted form of another
  column, which then replaces it. In an interpretation where operators add and where the
  columns of each query hold its level, the difference between the original and the
  rewritten expression is the number of outer references in mistaken parts.
 */
module GroupByMistakes {
  import opened Values
  import opened QueryTree
  import opened LevelShift
  import opened GroupBySplit
  import opened GroupByMeaning
  import opened GroupByRows

  // ----- an interpretation that counts -----

  function Num(v: Value): int { if v.Datum? then v.v else 0 }

  function Sum(row: Row): int {
    if row == [] then 0 else Num(row[0]) + Sum(row[1..])
  }

  function Adding(): Interp {
    Interp(_ => [], _ => [], (_, _, _) => [], (_, row) => Datum(Sum(row)), (_, _) => Null, (_, row, _) => Datum(Sum(row)),
           (_, _, _) => [])
  }

  function Full(n: nat, l: nat): Slot {
    var row := seq(n, _ => Datum(l));
    Slot(row, row)
  }

  // Queries nested n deep, each with n entries of n columns that hold the query's level.
  function Tower(n: nat): (env: Env)
    ensures |env| == n + 1
    ensures forall l :: 0 <= l <= n ==> env[l] == Frame(map[], seq(n, _ => Full(n, l)), [])
  {
    seq(n + 1, l requires 0 <= l <= n => Frame(map[], seq(n, _ => Full(n, l)), []))
  }

  // The Vars outside subqueries and aggregates name columns that the tower has.
  predicate Within(e: Expr, n: nat)
    decreases e
  {
    match e
    case Var(v, a, l, _) => 0 < v <= n && 0 < a <= n && l <= n
    case Op(_, args) => forall i :: 0 <= i < |args| ==> Within(args[i], n)
    case SubLink(_, test, _) => forall i :: 0 <= i < |test| ==> Within(test[i], n)
    case _ => true
  }

  // ----- outer references, outside subqueries and aggregates -----

  function Outers(e: Expr): nat
    decreases e
  {
    match e
    case Var(_, _, l, _) => if l > 0 then 1 else 0
    case Op(_, args) => OutersAll(args)
    case SubLink(_, test, _) => OutersAll(test)
    case _ => 0
  }

  function OutersAll(es: seq<Expr>): nat
    decreases es
  {
    if es == [] then 0 else Outers(es[0]) + OutersAll(es[1..])
  }

  // Those in parts that are looked up and found among the grouping columns.
  function Mistakes(e: Expr, base: seq<TargetEntry>): nat
    decreases e
  {
    if e.Const? || (e.Agg? && e.level == 0) then 0
    else if Find(base, e) < |base| then Outers(e)
    else
      match e
      case Op(_, args) => MistakesAll(args, base)
      case SubLink(_, test, _) => MistakesAll(test, base)
      case _ => 0
  }

  function MistakesAll(es: seq<Expr>, base: seq<TargetEntry>): nat
    decreases es
  {
    if es == [] then 0 else Mistakes(es[0], base) + MistakesAll(es[1..], base)
  }

  // Everything is right but perhaps the parts that are looked up and found.
  predicate ElseRight(e: Expr, base: seq<TargetEntry>)
    decreases e
  {
    if e.Agg? && e.level == 0 then RightAggregate(e, 0, 0)
    else if !e.Const? && Find(base, e) < |base| then true
    else
      match e
      case Const(_) => true
      case Var(_, _, _, _) => true
      case Op(_, args) => forall i :: 0 <= i < |args| ==> ElseRight(args[i], base)
      case Agg(_, _, _) => false
      case SubLink(_, test, sub) => (forall i :: 0 <= i < |test| ==> ElseRight(test[i], base)) && RightQuery(sub, 1, 1, 2, base)
  }

  // ----- one level further down every outer reference counts one less -----

  lemma {:induction false} InsertedSum(e: Expr, n: nat)
    requires Within(e, n)
    ensures Num(Eval(Adding(), e, Tower(n))) == Num(Eval(Adding(), e, Insert(Tower(n), 0, 0))) + Outers(e)
    decreases e
  {
    match e
    case Const(_) =>
    case Var(_, _, _, _) => InsertedVar(e, n);
    case Op(_, args) => InsertedSums(args, n);
    case Agg(_, _, _) =>
    case SubLink(_, test, _) => InsertedSums(test, n);
  }

  lemma {:induction false} InsertedVar(e: Expr, n: nat)
    requires e.Var? && Within(e, n)
    ensures Eval(Adding(), e, Tower(n)) == Datum(e.level)
    ensures Num(Eval(Adding(), e, Insert(Tower(n), 0, 0))) == if e.level > 0 then e.level - 1 else 0
  {
    var env, below := Tower(n), Insert(Tower(n), 0, 0);
    var l := e.level;
    assert env[l].rows[e.varno - 1] == Full(n, l);
    if l == 0 {
      assert below[0].rows == env[0].rows;
    } else if l == 1 {
      assert below[1].rows == [];
    } else {
      assert below[l] == env[l - 1];
      assert env[l - 1].rows[e.varno - 1] == Full(n, l - 1);
    }
  }

  lemma {:induction false} InsertedSums(es: seq<Expr>, n: nat)
    requires forall i :: 0 <= i < |es| ==> Within(es[i], n)
    ensures Sum(EvalAll(Adding(), es, Tower(n))) == Sum(EvalAll(Adding(), es, Insert(Tower(n), 0, 0))) + OutersAll(es)
    decreases es
  {
    if es != [] {
      InsertedSum(es[0], n);
      InsertedSums(es[1..], n);
      EvalAllStep(Adding(), es, Tower(n));
      EvalAllStep(Adding(), es, Insert(Tower(n), 0, 0));
    }
  }

  lemma {:induction false} EvalAllStep(I: Interp, es: seq<Expr>, env: Env)
    requires es != []
    ensures EvalAll(I, es, env)[0] == Eval(I, es[0], env) && EvalAll(I, es, env)[1..] == EvalAll(I, es[1..], env)
  {
  }

  // ----- the rewritten expression -----

  lemma {:induction false} MistakenSum(e: Expr, base: seq<TargetEntry>, lower: seq<TargetEntry>, below: seq<TargetEntry>, n: nat)
    requires ElseRight(e, base) && Within(e, n) && Between(base, lower, MapExpr(e, 0, Above, lower), below)
    ensures Num(Eval(Adding(), e, Tower(n)))
         == Num(Eval(Adding(), MapExpr(e, 0, Above, lower).value, Swap(Adding(), below, Tower(n), 0))) + Mistakes(e, base)
    decreases e
  {
    if e.Agg? && e.level == 0 {
      OutcomeAggregate(e, 0, 0, lower, below);
      MeanExpr(Adding(), MapExpr(e, 0, Above, lower).value, e, below, Tower(n), 0);
    } else {
      FindAmong(base, lower, e);
      if !e.Const? && Find(lower, e) < |lower| {
        InsertedSum(e, n);
        FoundValue(Adding(), e, lower, below, Tower(n));
      } else {
        match e
        case Const(_) =>
        case Var(_, _, _, _) => StayedVar(e, below, n);
        case Op(_, args) => MistakenSums(args, base, lower, below, n);
        case SubLink(_, test, sub) => MistakenSums(test, base, lower, below, n);
      }
    }
  }

  lemma {:induction false} StayedVar(e: Expr, below: seq<TargetEntry>, n: nat)
    requires e.Var? && e.level != 0
    ensures Eval(Adding(), e, Swap(Adding(), below, Tower(n), 0)) == Eval(Adding(), e, Tower(n))
  {
  }

  // Above, a found part has the value that it has one level further down.
  lemma {:induction false} FoundValue(I: Interp, e: Expr, lower: seq<TargetEntry>, below: seq<TargetEntry>, env: Env)
    requires env != [] && Find(lower, e) < |lower| && lower <= below
    ensures Eval(I, Var(1, Find(lower, e) + 1, 0, false), Swap(I, below, env, 0)) == Eval(I, e, Insert(env, 0, 0))
  {
    var i := Find(lower, e);
    assert below[i] == lower[i];
    assert Targets(I, below, Insert(env, 0, 0))[i] == Target(I, below[i], Insert(env, 0, 0));
  }

  lemma {:induction false} MistakenSums(es: seq<Expr>, base: seq<TargetEntry>, lower: seq<TargetEntry>, below: seq<TargetEntry>, n: nat)
    requires forall i :: 0 <= i < |es| ==> ElseRight(es[i], base) && Within(es[i], n)
    requires Between(base, lower, MapAll(es, 0, Above, lower), below)
    ensures Sum(EvalAll(Adding(), es, Tower(n)))
         == Sum(EvalAll(Adding(), MapAll(es, 0, Above, lower).value, Swap(Adding(), below, Tower(n), 0))) + MistakesAll(es, base)
    decreases es
  {
    if es != [] {
      var first := MapExpr(es[0], 0, Above, lower);
      var rest := MapAll(es[1..], 0, Above, first.lower);
      MistakenSum(es[0], base, lower, below, n);
      AppendsExpr(es[0], 0, Above, lower);
      OnlyAggsTwice(base, lower, first.lower);
      MistakenSums(es[1..], base, first.lower, below, n);
      EvalAllStep(Adding(), es, Tower(n));
      var es2 := MapAll(es, 0, Above, lower).value;
      assert es2[0] == first.value && es2[1..] == rest.value;
      EvalAllStep(Adding(), es2, Swap(Adding(), below, Tower(n), 0));
    }
  }

  // ----- both directions -----

  // Found parts that refer to an outer query do so somewhere outside subqueries and aggregates.
  predicate OpenHits(e: Expr, base: seq<TargetEntry>)
    decreases e
  {
    if e.Const? || (e.Agg? && e.level == 0) then true
    else if Find(base, e) < |base| then ShiftExpr(e, 0, 0, FULL_SHIFT) == e || Outers(e) > 0
    else
      match e
      case Op(_, args) => forall i :: 0 <= i < |args| ==> OpenHits(args[i], base)
      case SubLink(_, test, _) => forall i :: 0 <= i < |test| ==> OpenHits(test[i], base)
      case _ => true
  }

  predicate Bare(e: Expr)
    decreases e
  {
    match e
    case Const(_) => true
    case Var(_, _, _, _) => true
    case Op(_, args) => forall i :: 0 <= i < |args| ==> Bare(args[i])
    case _ => false
  }

  // So does every part without any.
  lemma {:induction false} BareIsOpen(e: Expr)
    requires Bare(e)
    ensures ShiftExpr(e, 0, 0, FULL_SHIFT) == e || Outers(e) > 0
    decreases e
  {
    if e.Op? && OutersAll(e.args) == 0 {
      forall i | 0 <= i < |e.args| ensures ShiftExpr(e.args[i], 0, 0, FULL_SHIFT) == e.args[i] {
        OutersOne(e.args, i);
        BareIsOpen(e.args[i]);
      }
    }
  }

  lemma {:induction false} OutersOne(es: seq<Expr>, i: nat)
    requires i < |es|
    ensures Outers(es[i]) <= OutersAll(es)
  {
    if i > 0 { OutersOne(es[1..], i - 1); }
  }

  lemma {:induction false} MistakesOne(es: seq<Expr>, base: seq<TargetEntry>, i: nat)
    requires i < |es|
    ensures Mistakes(es[i], base) <= MistakesAll(es, base)
  {
    if i > 0 { MistakesOne(es[1..], base, i - 1); }
  }

  lemma {:induction false} MistakenCounts(e: Expr, base: seq<TargetEntry>)
    requires ElseRight(e, base) && OpenHits(e, base) && !RightExpr(e, 0, 0, base)
    ensures Mistakes(e, base) > 0
    decreases e
  {
    if Find(base, e) == |base| {
      var parts := if e.Op? then e.args else e.test;
      var i :| 0 <= i < |parts| && !RightExpr(parts[i], 0, 0, base);
      MistakenCounts(parts[i], base);
      MistakesOne(parts, base, i);
    }
  }

  ghost predicate SameValue(e2: Expr, e: Expr, below: seq<TargetEntry>) {
    forall I: Interp, env: Env :: env != [] ==> Eval(I, e2, Swap(I, below, env, 0)) == Eval(I, e, env)
  }

  /** A rewritten expression has the value of the original in every interpretation and
      environment, if and only if no part that was found refers to an outer query. */
  lemma {:induction false} SameValueIff(e: Expr, base: seq<TargetEntry>, lower: seq<TargetEntry>, below: seq<TargetEntry>, n: nat)
    requires ElseRight(e, base) && OpenHits(e, base) && Within(e, n)
    requires Between(base, lower, MapExpr(e, 0, Above, lower), below)
    ensures SameValue(MapExpr(e, 0, Above, lower).value, e, below) <==> RightExpr(e, 0, 0, base)
  {
    var e2 := MapExpr(e, 0, Above, lower).value;
    OutcomeExpr(e, 0, 0, base, lower, below);
    if RightExpr(e, 0, 0, base) {
      forall I: Interp, env: Env | env != [] ensures Eval(I, e2, Swap(I, below, env, 0)) == Eval(I, e, env) {
        MeanExpr(I, e2, e, below, env, 0);
      }
    } else {
      MistakenSum(e, base, lower, below, n);
      MistakenCounts(e, base);
      assert Eval(Adding(), e2, Swap(Adding(), below, Tower(n), 0)) != Eval(Adding(), e, Tower(n));
    }
  }

  // ----- why only such parts -----

  // (SELECT o.x WHERE NULL), with o two levels out
  function DeadReference(): Expr {
    SubLink(0, [], Query([], [], Inner, [Const(Null)], [TargetEntry(Var(1, 1, 2, false), 0, false)], false, [], [], []))
  }

  lemma {:induction false} DeadRows(I: Interp, env: Env)
    ensures Rows(I, DeadReference().sub, env) == []
  {
    var q := DeadReference().sub;
    var fs := Combined(I, q, map[], env);
    assert CteTables(I, q.ctes, env) == map[];
    assert Product(I, q.rtable, false, map[], env) == [[]];
    assert |fs| == 1 && fs[1..] == [];
    assert EvalAll(I, q.quals, [fs[0]] + env) == [Null];
    assert Kept(fs[1..], Verdicts(I, q.quals, fs, env)[1..]) == [];
    assert Projected(I, q, map[], env) == [];
  }

  /** Inside a subquery an outer reference may be mistaken without any effect. */
  lemma {:induction false} DeadReferenceIsHarmless(I: Interp, env: Env)
    requires env != []
    ensures ShiftExpr(DeadReference(), 0, 0, FULL_SHIFT) != DeadReference()
    ensures Eval(I, DeadReference(), Insert(env, 0, 0)) == Eval(I, DeadReference(), env)
  {
    DeadRows(I, env);
    DeadRows(I, Insert(env, 0, 0));
    var q := DeadReference().sub;
    assert ShiftTargets(q.tlist, 1, 0, FULL_SHIFT)[0] == ShiftTarget(q.tlist[0], 1, 0, FULL_SHIFT);
    assert ShiftTarget(q.tlist[0], 1, 0, FULL_SHIFT) != q.tlist[0];
  }
}
