/**
  When the arguments of an aggregate and the grouping columns move correctly.

  The arguments of an aggregate that belongs to the split query move from depth
  `a` (its agglevelsup) to the derived table. The right move is the level shift of
  module LevelShift that crosses `a` levels.

  The mutator counts the query levels it enters, but not that of a derived table in the
  body of a CTE. So each predicate has two depths: `t`, the levels really entered inside
  the expression, and `d`, the levels counted; `rt` is the count for derived tables. As
  long as they agree, arguments move correctly exactly when no reference leaves the split
  query, except directly at depth 0 or from aggregates with agglevelsup 1; and a grouping
  column exactly when it holds no aggregate of an outer query and no CTE of this or an
  outer query. Where they differ, references to the counted level are taken for
  references to the split query, and those are overlooked.
 */
module GroupByMoves {
  import opened QueryTree
  import opened LevelShift
  import opened GroupBySplit

  // At depth 0 nothing has been miscounted yet.
  predicate Counted(t: nat, d: nat) { d <= t && (d == 0 ==> t == 0) }

  // ----- references that the mutator moves correctly -----

  predicate VarMoves(l: nat, t: nat, d: nat, a: nat) {
    if d == t then l <= t + a || t + a == 0 || a == 1
    else if l < t + a then l != d + a || a == 0
    else if l == t + a then a == 0
    else a == 1
  }

  predicate AggMoves(l: nat, t: nat, d: nat, a: nat) {
    l != d + a && if l < t + a then true else if l == t + a then a == 0 else a == 1
  }

  predicate MovesExpr(e: Expr, t: nat, d: nat, a: nat)
    decreases e
  {
    match e
    case Const(_) => true
    case Var(_, _, l, _) => VarMoves(l, t, d, a)
    case Op(_, args) => MovesAll(args, t, d, a)
    case Agg(_, args, l) => AggMoves(l, t, d, a) && MovesAll(args, t, d, a)
    case SubLink(_, test, sub) => MovesAll(test, t, d, a) && MovesQuery(sub, t + 1, d + 1, d + 2, a)
  }

  predicate MovesAll(es: seq<Expr>, t: nat, d: nat, a: nat)
    decreases es
  {
    forall i :: 0 <= i < |es| ==> MovesExpr(es[i], t, d, a)
  }

  predicate MovesTarget(te: TargetEntry, t: nat, d: nat, a: nat)
    decreases te
  {
    MovesExpr(te.expr, t, d, a)
  }

  predicate MovesTargets(tl: seq<TargetEntry>, t: nat, d: nat, a: nat)
    decreases tl
  {
    forall i :: 0 <= i < |tl| ==> MovesTarget(tl[i], t, d, a)
  }

  predicate MovesRte(r: Rte, t: nat, rt: nat, a: nat)
    decreases r
  {
    match r
    case Relation(_) => true
    case Derived(sub) => MovesQuery(sub, t + 1, rt, rt + 1, a)
    case CteRef(_, l) => l < t + a || a == 1
  }

  predicate MovesRtes(rs: seq<Rte>, t: nat, rt: nat, a: nat)
    decreases rs
  {
    forall i :: 0 <= i < |rs| ==> MovesRte(rs[i], t, rt, a)
  }

  predicate MovesCte(c: Cte, t: nat, d: nat, a: nat)
    decreases c
  {
    MovesQuery(c.body, t + 1, d + 1, d + 1, a)
  }

  predicate MovesCtes(cs: seq<Cte>, t: nat, d: nat, a: nat)
    decreases cs
  {
    forall i :: 0 <= i < |cs| ==> MovesCte(cs[i], t, d, a)
  }

  predicate MovesQuery(q: Query, t: nat, d: nat, rt: nat, a: nat)
    decreases q
  {
    && MovesTargets(q.tlist, t, d, a) && MovesAll(q.quals, t, d, a) && MovesAll(q.having, t, d, a)
    && MovesCtes(q.ctes, t, d, a) && MovesRtes(q.rtable, t, rt, a)
  }

  // The outcome is this value exactly when `right` holds, and then nothing was appended.
  predicate Yields<T(==)>(o: Outcome<T>, value: T, lower: seq<TargetEntry>, right: bool) {
    o.Ok? && (o.value == value <==> right) && (right ==> o.lower == lower)
  }

  lemma {:induction false} MovedVar(e: Expr, t: nat, d: nat, a: nat, lower: seq<TargetEntry>)
    requires e.Var? && Counted(t, d)
    ensures Yields(MapVar(e, d + a, InAggregate(a), lower), ShiftExpr(e, t, a, FULL_SHIFT), lower, VarMoves(e.level, t, d, a))
  {
  }

  lemma {:induction false} MovedAgg(e: Expr, t: nat, d: nat, a: nat, lower: seq<TargetEntry>)
    requires e.Agg? && Counted(t, d)
    requires Yields(MapAll(e.args, d + a, InAggregate(a), lower), ShiftAll(e.args, t, a, FULL_SHIFT), lower, MovesAll(e.args, t, d, a))
    ensures Yields(MapExpr(e, d + a, InAggregate(a), lower), ShiftExpr(e, t, a, FULL_SHIFT), lower, MovesExpr(e, t, d, a))
  {
  }

  lemma {:induction false} MovedExpr(e: Expr, t: nat, d: nat, a: nat, lower: seq<TargetEntry>)
    requires Counted(t, d)
    ensures Yields(MapExpr(e, d + a, InAggregate(a), lower), ShiftExpr(e, t, a, FULL_SHIFT), lower, MovesExpr(e, t, d, a))
    decreases e
  {
    match e
    case Const(_) =>
    case Var(_, _, _, _) => MovedVar(e, t, d, a, lower);
    case Op(_, args) => MovedAll(args, t, d, a, lower);
    case Agg(_, args, _) =>
      MovedAll(args, t, d, a, lower);
      MovedAgg(e, t, d, a, lower);
    case SubLink(_, test, sub) =>
      MovedAll(test, t, d, a, lower);
      MovedQuery(sub, t + 1, d + 1, d + 2, a, MapAll(test, d + a, InAggregate(a), lower).lower);
  }

  lemma {:induction false} MovedAll(es: seq<Expr>, t: nat, d: nat, a: nat, lower: seq<TargetEntry>)
    requires Counted(t, d)
    ensures Yields(MapAll(es, d + a, InAggregate(a), lower), ShiftAll(es, t, a, FULL_SHIFT), lower, MovesAll(es, t, d, a))
    decreases es
  {
    if es != [] {
      MovedExpr(es[0], t, d, a, lower);
      MovedAll(es[1..], t, d, a, MapExpr(es[0], d + a, InAggregate(a), lower).lower);
      assert ShiftAll(es, t, a, FULL_SHIFT)[1..] == ShiftAll(es[1..], t, a, FULL_SHIFT);
      assert MovesAll(es, t, d, a) <==> MovesExpr(es[0], t, d, a) && MovesAll(es[1..], t, d, a);
    }
  }

  lemma {:induction false} MovedTarget(te: TargetEntry, t: nat, d: nat, a: nat, lower: seq<TargetEntry>)
    requires Counted(t, d)
    ensures Yields(MapTarget(te, d + a, InAggregate(a), lower), ShiftTarget(te, t, a, FULL_SHIFT), lower, MovesTarget(te, t, d, a))
    decreases te
  {
    MovedExpr(te.expr, t, d, a, lower);
  }

  lemma {:induction false} MovedTargets(tl: seq<TargetEntry>, t: nat, d: nat, a: nat, lower: seq<TargetEntry>)
    requires Counted(t, d)
    ensures Yields(MapTargets(tl, d + a, InAggregate(a), lower), ShiftTargets(tl, t, a, FULL_SHIFT), lower, MovesTargets(tl, t, d, a))
    decreases tl
  {
    if tl != [] {
      MovedTarget(tl[0], t, d, a, lower);
      MovedTargets(tl[1..], t, d, a, MapTarget(tl[0], d + a, InAggregate(a), lower).lower);
      assert ShiftTargets(tl, t, a, FULL_SHIFT)[1..] == ShiftTargets(tl[1..], t, a, FULL_SHIFT);
      assert MovesTargets(tl, t, d, a) <==> MovesTarget(tl[0], t, d, a) && MovesTargets(tl[1..], t, d, a);
    }
  }

  lemma {:induction false} MovedRte(r: Rte, t: nat, rt: nat, a: nat, lower: seq<TargetEntry>)
    requires 0 < rt <= t + 1
    ensures Yields(MapRte(r, rt + a, InAggregate(a), lower), ShiftRte(r, t, a, FULL_SHIFT), lower, MovesRte(r, t, rt, a))
    decreases r
  {
    if r.Derived? { MovedQuery(r.sub, t + 1, rt, rt + 1, a, lower); }
  }

  lemma {:induction false} MovedRtes(rs: seq<Rte>, t: nat, rt: nat, a: nat, lower: seq<TargetEntry>)
    requires 0 < rt <= t + 1
    ensures Yields(MapRtes(rs, rt + a, InAggregate(a), lower), ShiftRtes(rs, t, a, FULL_SHIFT), lower, MovesRtes(rs, t, rt, a))
    decreases rs
  {
    if rs != [] {
      MovedRte(rs[0], t, rt, a, lower);
      MovedRtes(rs[1..], t, rt, a, MapRte(rs[0], rt + a, InAggregate(a), lower).lower);
      assert ShiftRtes(rs, t, a, FULL_SHIFT)[1..] == ShiftRtes(rs[1..], t, a, FULL_SHIFT);
      assert MovesRtes(rs, t, rt, a) <==> MovesRte(rs[0], t, rt, a) && MovesRtes(rs[1..], t, rt, a);
    }
  }

  lemma {:induction false} MovedCte(c: Cte, t: nat, d: nat, a: nat, lower: seq<TargetEntry>)
    requires Counted(t, d)
    ensures Yields(MapCte(c, d + a, InAggregate(a), lower), ShiftCte(c, t, a, FULL_SHIFT), lower, MovesCte(c, t, d, a))
    decreases c
  {
    MovedQuery(c.body, t + 1, d + 1, d + 1, a, lower);
  }

  lemma {:induction false} MovedCtes(cs: seq<Cte>, t: nat, d: nat, a: nat, lower: seq<TargetEntry>)
    requires Counted(t, d)
    ensures Yields(MapCtes(cs, d + a, InAggregate(a), lower), ShiftCtes(cs, t, a, FULL_SHIFT), lower, MovesCtes(cs, t, d, a))
    decreases cs
  {
    if cs != [] {
      MovedCte(cs[0], t, d, a, lower);
      MovedCtes(cs[1..], t, d, a, MapCte(cs[0], d + a, InAggregate(a), lower).lower);
      assert ShiftCtes(cs, t, a, FULL_SHIFT) == [ShiftCte(cs[0], t, a, FULL_SHIFT)] + ShiftCtes(cs[1..], t, a, FULL_SHIFT);
      assert ShiftCtes(cs, t, a, FULL_SHIFT)[1..] == ShiftCtes(cs[1..], t, a, FULL_SHIFT);
      assert MovesCtes(cs, t, d, a) <==> MovesCte(cs[0], t, d, a) && MovesCtes(cs[1..], t, d, a);
    }
  }

  lemma {:induction false} MovedQuery(q: Query, t: nat, d: nat, rt: nat, a: nat, lower: seq<TargetEntry>)
    requires Counted(t, d) && 0 < rt <= t + 1
    ensures Yields(MapQuery(q, d + a, rt + a, InAggregate(a), lower), ShiftQuery(q, t, a, FULL_SHIFT), lower, MovesQuery(q, t, d, rt, a))
    decreases q
  {
    var l1 := MapTargets(q.tlist, d + a, InAggregate(a), lower).lower;
    var l2 := MapAll(q.quals, d + a, InAggregate(a), l1).lower;
    var l3 := MapAll(q.having, d + a, InAggregate(a), l2).lower;
    var l4 := MapCtes(q.ctes, d + a, InAggregate(a), l3).lower;
    MovedTargets(q.tlist, t, d, a, lower);
    MovedAll(q.quals, t, d, a, l1);
    MovedAll(q.having, t, d, a, l2);
    MovedCtes(q.ctes, t, d, a, l3);
    MovedRtes(q.rtable, t, rt, a, l4);
  }

  // ----- grouping columns that move correctly -----

  predicate ColumnExpr(e: Expr, t: nat, d: nat)
    decreases e
  {
    match e
    case Const(_) => true
    case Var(_, _, l, _) => l <= d || l > t
    case Op(_, args) => ColumnAll(args, t, d)
    case Agg(_, args, l) => l <= t && ColumnAll(args, t, d)
    case SubLink(_, test, sub) => ColumnAll(test, t, d) && ColumnQuery(sub, t + 1, d + 1, d + 2)
  }

  predicate ColumnAll(es: seq<Expr>, t: nat, d: nat)
    decreases es
  {
    forall i :: 0 <= i < |es| ==> ColumnExpr(es[i], t, d)
  }

  predicate ColumnTarget(te: TargetEntry, t: nat, d: nat)
    decreases te
  {
    ColumnExpr(te.expr, t, d)
  }

  predicate ColumnTargets(tl: seq<TargetEntry>, t: nat, d: nat)
    decreases tl
  {
    forall i :: 0 <= i < |tl| ==> ColumnTarget(tl[i], t, d)
  }

  predicate ColumnRte(r: Rte, t: nat, rt: nat)
    decreases r
  {
    match r
    case Relation(_) => true
    case Derived(sub) => ColumnQuery(sub, t + 1, rt, rt + 1)
    case CteRef(_, l) => l < t
  }

  predicate ColumnRtes(rs: seq<Rte>, t: nat, rt: nat)
    decreases rs
  {
    forall i :: 0 <= i < |rs| ==> ColumnRte(rs[i], t, rt)
  }

  predicate ColumnCte(c: Cte, t: nat, d: nat)
    decreases c
  {
    ColumnQuery(c.body, t + 1, d + 1, d + 1)
  }

  predicate ColumnCtes(cs: seq<Cte>, t: nat, d: nat)
    decreases cs
  {
    forall i :: 0 <= i < |cs| ==> ColumnCte(cs[i], t, d)
  }

  predicate ColumnQuery(q: Query, t: nat, d: nat, rt: nat)
    decreases q
  {
    && ColumnTargets(q.tlist, t, d) && ColumnAll(q.quals, t, d) && ColumnAll(q.having, t, d)
    && ColumnCtes(q.ctes, t, d) && ColumnRtes(q.rtable, t, rt)
  }

  lemma {:induction false} PlacedLeaf(e: Expr, t: nat, d: nat, lower: seq<TargetEntry>)
    requires (e.Const? || e.Var?) && Counted(t, d)
    ensures MapExpr(e, d, GroupingColumn, lower) == Ok(ShiftExpr(e, t, 0, FULL_SHIFT), lower) <==> ColumnExpr(e, t, d)
  {
  }

  lemma {:induction false} PlacedExpr(e: Expr, t: nat, d: nat, lower: seq<TargetEntry>)
    requires Counted(t, d)
    ensures MapExpr(e, d, GroupingColumn, lower) == Ok(ShiftExpr(e, t, 0, FULL_SHIFT), lower) <==> ColumnExpr(e, t, d)
    decreases e
  {
    match e
    case Const(_) => PlacedLeaf(e, t, d, lower);
    case Var(_, _, _, _) => PlacedLeaf(e, t, d, lower);
    case Op(_, args) => PlacedAll(args, t, d, lower);
    case Agg(_, args, _) => PlacedAll(args, t, d, lower);
    case SubLink(_, test, sub) =>
      PlacedAll(test, t, d, lower);
      PlacedQuery(sub, t + 1, d + 1, d + 2, lower);
  }

  lemma {:induction false} PlacedAll(es: seq<Expr>, t: nat, d: nat, lower: seq<TargetEntry>)
    requires Counted(t, d)
    ensures MapAll(es, d, GroupingColumn, lower) == Ok(ShiftAll(es, t, 0, FULL_SHIFT), lower) <==> ColumnAll(es, t, d)
    decreases es
  {
    if es != [] {
      PlacedExpr(es[0], t, d, lower);
      PlacedAll(es[1..], t, d, lower);
      assert ShiftAll(es, t, 0, FULL_SHIFT)[1..] == ShiftAll(es[1..], t, 0, FULL_SHIFT);
      assert ColumnAll(es, t, d) <==> ColumnExpr(es[0], t, d) && ColumnAll(es[1..], t, d);
    }
  }

  lemma {:induction false} PlacedTarget(te: TargetEntry, t: nat, d: nat, lower: seq<TargetEntry>)
    requires Counted(t, d)
    ensures MapTarget(te, d, GroupingColumn, lower) == Ok(ShiftTarget(te, t, 0, FULL_SHIFT), lower) <==> ColumnTarget(te, t, d)
    decreases te
  {
    PlacedExpr(te.expr, t, d, lower);
  }

  lemma {:induction false} PlacedTargets(tl: seq<TargetEntry>, t: nat, d: nat, lower: seq<TargetEntry>)
    requires Counted(t, d)
    ensures MapTargets(tl, d, GroupingColumn, lower) == Ok(ShiftTargets(tl, t, 0, FULL_SHIFT), lower) <==> ColumnTargets(tl, t, d)
    decreases tl
  {
    if tl != [] {
      PlacedTarget(tl[0], t, d, lower);
      PlacedTargets(tl[1..], t, d, lower);
      assert ShiftTargets(tl, t, 0, FULL_SHIFT)[1..] == ShiftTargets(tl[1..], t, 0, FULL_SHIFT);
      assert ColumnTargets(tl, t, d) <==> ColumnTarget(tl[0], t, d) && ColumnTargets(tl[1..], t, d);
    }
  }

  lemma {:induction false} PlacedRte(r: Rte, t: nat, rt: nat, lower: seq<TargetEntry>)
    requires 0 < rt <= t + 1
    ensures MapRte(r, rt, GroupingColumn, lower) == Ok(ShiftRte(r, t, 0, FULL_SHIFT), lower) <==> ColumnRte(r, t, rt)
    decreases r
  {
    if r.Derived? { PlacedQuery(r.sub, t + 1, rt, rt + 1, lower); }
  }

  lemma {:induction false} PlacedRtes(rs: seq<Rte>, t: nat, rt: nat, lower: seq<TargetEntry>)
    requires 0 < rt <= t + 1
    ensures MapRtes(rs, rt, GroupingColumn, lower) == Ok(ShiftRtes(rs, t, 0, FULL_SHIFT), lower) <==> ColumnRtes(rs, t, rt)
    decreases rs
  {
    if rs != [] {
      PlacedRte(rs[0], t, rt, lower);
      PlacedRtes(rs[1..], t, rt, lower);
      assert ShiftRtes(rs, t, 0, FULL_SHIFT)[1..] == ShiftRtes(rs[1..], t, 0, FULL_SHIFT);
      assert ColumnRtes(rs, t, rt) <==> ColumnRte(rs[0], t, rt) && ColumnRtes(rs[1..], t, rt);
    }
  }

  lemma {:induction false} PlacedCte(c: Cte, t: nat, d: nat, lower: seq<TargetEntry>)
    requires Counted(t, d)
    ensures MapCte(c, d, GroupingColumn, lower) == Ok(ShiftCte(c, t, 0, FULL_SHIFT), lower) <==> ColumnCte(c, t, d)
    decreases c
  {
    PlacedQuery(c.body, t + 1, d + 1, d + 1, lower);
  }

  lemma {:induction false} PlacedCtes(cs: seq<Cte>, t: nat, d: nat, lower: seq<TargetEntry>)
    requires Counted(t, d)
    ensures MapCtes(cs, d, GroupingColumn, lower) == Ok(ShiftCtes(cs, t, 0, FULL_SHIFT), lower) <==> ColumnCtes(cs, t, d)
    decreases cs
  {
    if cs != [] {
      PlacedCte(cs[0], t, d, lower);
      PlacedCtes(cs[1..], t, d, lower);
      assert ShiftCtes(cs, t, 0, FULL_SHIFT) == [ShiftCte(cs[0], t, 0, FULL_SHIFT)] + ShiftCtes(cs[1..], t, 0, FULL_SHIFT);
      assert ShiftCtes(cs, t, 0, FULL_SHIFT)[1..] == ShiftCtes(cs[1..], t, 0, FULL_SHIFT);
      assert ColumnCtes(cs, t, d) <==> ColumnCte(cs[0], t, d) && ColumnCtes(cs[1..], t, d);
    }
  }

  lemma {:induction false} PlacedQuery(q: Query, t: nat, d: nat, rt: nat, lower: seq<TargetEntry>)
    requires Counted(t, d) && 0 < rt <= t + 1
    ensures MapQuery(q, d, rt, GroupingColumn, lower) == Ok(ShiftQuery(q, t, 0, FULL_SHIFT), lower) <==> ColumnQuery(q, t, d, rt)
    decreases q
  {
    PlacedTargets(q.tlist, t, d, lower);
    PlacedAll(q.quals, t, d, lower);
    PlacedAll(q.having, t, d, lower);
    PlacedCtes(q.ctes, t, d, lower);
    PlacedRtes(q.rtable, t, rt, lower);
  }
}
