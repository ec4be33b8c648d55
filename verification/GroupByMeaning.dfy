/**
  The rewritten expressions mean what the originals meant.

  `Rw...(x2, x, d, below)` says that `x2`, at query depth `d`, is `x` with parts
  replaced by columns of the derived table whose target list is `below`. Whatever is so
  rewritten evaluates on the derived row to what the original evaluates to on the group.

  `Right...(x, t, d, base)` says of which `x` the mutator makes a rewritten form, in terms
  of the grouping columns `base` alone: the list below grows only at its end and only by
  aggregates, which are never looked up.
 */
module GroupByMeaning {
  import opened QueryTree
  import opened LevelShift
  import opened GroupBySplit
  import opened GroupByMoves

  // ----- rewritten forms -----

  // The entry `x` of the derived table has the value of `e` at depth `d`.
  predicate Stands(x: Expr, e: Expr, d: nat) {
    || (d == 0 && x == ShiftExpr(e, 0, 0, FULL_SHIFT))
    || (e.Var? && e.level == d && x == AtLevel(e, 0))
    || (e.Agg? && e.level == d && x == Agg(e.fn, ShiftAll(e.args, 0, d, FULL_SHIFT), 0) && AvoidsAll(e.args, 0, d))
  }

  predicate Reads(e2: Expr, e: Expr, d: nat, below: seq<TargetEntry>) {
    e2.Var? && e2.varno == 1 && e2.level == d && 0 < e2.attno <= |below| && Stands(below[e2.attno - 1].expr, e, d)
  }

  predicate RwExpr(e2: Expr, e: Expr, d: nat, below: seq<TargetEntry>)
    decreases e
  {
    || Reads(e2, e, d, below)
    || match e
       case Const(_) => e2 == e
       case Var(_, _, l, _) => e2 == e && l != d
       case Op(fn, args) => e2.Op? && e2.fn == fn && RwAll(e2.args, args, d, below)
       case Agg(fn, args, l) => e2.Agg? && e2.fn == fn && e2.level == l && l < d && RwAll(e2.args, args, d, below)
       case SubLink(k, test, sub) =>
         e2.SubLink? && e2.kind == k && RwAll(e2.test, test, d, below) && RwQuery(e2.sub, sub, d + 1, below)
  }

  predicate RwAll(es2: seq<Expr>, es: seq<Expr>, d: nat, below: seq<TargetEntry>)
    decreases es
  {
    |es2| == |es| && forall i :: 0 <= i < |es| ==> RwExpr(es2[i], es[i], d, below)
  }

  predicate RwTarget(te2: TargetEntry, te: TargetEntry, d: nat, below: seq<TargetEntry>)
    decreases te
  {
    te2.ref == te.ref && te2.junk == te.junk && RwExpr(te2.expr, te.expr, d, below)
  }

  predicate RwTargets(tl2: seq<TargetEntry>, tl: seq<TargetEntry>, d: nat, below: seq<TargetEntry>)
    decreases tl
  {
    |tl2| == |tl| && forall i :: 0 <= i < |tl| ==> RwTarget(tl2[i], tl[i], d, below)
  }

  predicate RwRte(r2: Rte, r: Rte, d: nat, below: seq<TargetEntry>)
    decreases r
  {
    if r.Derived? then r2.Derived? && RwQuery(r2.sub, r.sub, d + 1, below) else r2 == r
  }

  predicate RwRtes(rs2: seq<Rte>, rs: seq<Rte>, d: nat, below: seq<TargetEntry>)
    decreases rs
  {
    |rs2| == |rs| && forall i :: 0 <= i < |rs| ==> RwRte(rs2[i], rs[i], d, below)
  }

  predicate RwCte(c2: Cte, c: Cte, d: nat, below: seq<TargetEntry>)
    decreases c
  {
    c2.name == c.name && RwQuery(c2.body, c.body, d + 1, below)
  }

  predicate RwCtes(cs2: seq<Cte>, cs: seq<Cte>, d: nat, below: seq<TargetEntry>)
    decreases cs
  {
    |cs2| == |cs| && forall i :: 0 <= i < |cs| ==> RwCte(cs2[i], cs[i], d, below)
  }

  predicate RwQuery(q2: Query, q: Query, d: nat, below: seq<TargetEntry>)
    decreases q
  {
    && RwTargets(q2.tlist, q.tlist, d, below) && RwAll(q2.quals, q.quals, d, below)
    && RwAll(q2.having, q.having, d, below) && RwCtes(q2.ctes, q.ctes, d, below) && RwRtes(q2.rtable, q.rtable, d, below)
    && q2.join == q.join && q2.grouped == q.grouped && q2.group == q.group && q2.sets == q.sets
  }

  // ----- the list below grows by aggregates only -----

  predicate OnlyAggs(base: seq<TargetEntry>, more: seq<TargetEntry>) {
    base <= more && forall i :: |base| <= i < |more| ==> more[i].expr.Agg? && more[i].expr.level == 0
  }

  lemma {:induction false} OnlyAggsTwice(a: seq<TargetEntry>, b: seq<TargetEntry>, c: seq<TargetEntry>)
    requires OnlyAggs(a, b) && OnlyAggs(b, c)
    ensures OnlyAggs(a, c)
  {
    forall i | |a| <= i < |c| ensures c[i].expr.Agg? && c[i].expr.level == 0 {
      if i < |b| { assert b[i] == c[i]; }
    }
  }

  // Anything else is found where it was found before.
  lemma {:induction false} FindAmong(base: seq<TargetEntry>, lower: seq<TargetEntry>, e: Expr)
    requires OnlyAggs(base, lower) && !(e.Agg? && e.level == 0)
    ensures Find(lower, e) < |lower| <==> Find(base, e) < |base|
    ensures Find(base, e) < |base| ==> Find(lower, e) == Find(base, e)
  {
    var i, k := Find(base, e), Find(lower, e);
    if i < |base| { assert lower[i] == base[i]; }
    if k < |lower| { assert k < |base| && base[k] == lower[k]; }
  }

  predicate Appends<T>(o: Outcome<T>, lower: seq<TargetEntry>) { o.Ok? ==> OnlyAggs(lower, o.lower) }

  lemma {:induction false} AppendsExpr(e: Expr, d: nat, mode: Mode, lower: seq<TargetEntry>)
    ensures Appends(MapExpr(e, d, mode, lower), lower)
    decreases e
  {
    if e.Agg? && e.level == d && !mode.GroupingColumn? {
      var r := MapAll(e.args, d, InAggregate(d), lower);
      AppendsAll(e.args, d, InAggregate(d), lower);
      OnlyAggsTwice(lower, r.lower, r.lower + [TargetEntry(Agg(e.fn, r.value, 0), 0, false)]);
    } else {
      match e
      case Const(_) =>
      case Var(_, _, _, _) =>
      case Op(_, args) => AppendsAll(args, d, mode, lower);
      case Agg(_, args, _) => AppendsAll(args, d, mode, lower);
      case SubLink(_, test, sub) => AppendsLink(e, d, mode, lower);
    }
  }

  lemma {:induction false} AppendsLink(e: Expr, d: nat, mode: Mode, lower: seq<TargetEntry>)
    requires e.SubLink?
    ensures Appends(MapExpr(e, d, mode, lower), lower)
    decreases e, 0
  {
    AppendsAll(e.test, d, mode, lower);
    var first := MapAll(e.test, d, mode, lower);
    if first.Ok? {
      var second := MapQuery(e.sub, d + 1, d + 2, mode, first.lower);
      AppendsQuery(e.sub, d + 1, d + 2, mode, first.lower);
      if second.Ok? { OnlyAggsTwice(lower, first.lower, second.lower); }
    }
  }

  lemma {:induction false} AppendsAll(es: seq<Expr>, d: nat, mode: Mode, lower: seq<TargetEntry>)
    ensures Appends(MapAll(es, d, mode, lower), lower)
    decreases es
  {
    if es != [] {
      AppendsExpr(es[0], d, mode, lower);
      var first := MapExpr(es[0], d, mode, lower);
      if first.Ok? {
        var rest := MapAll(es[1..], d, mode, first.lower);
        AppendsAll(es[1..], d, mode, first.lower);
        if rest.Ok? { OnlyAggsTwice(lower, first.lower, rest.lower); }
      }
    }
  }

  lemma {:induction false} AppendsTarget(te: TargetEntry, d: nat, mode: Mode, lower: seq<TargetEntry>)
    ensures Appends(MapTarget(te, d, mode, lower), lower)
    decreases te
  {
    AppendsExpr(te.expr, d, mode, lower);
  }

  lemma {:induction false} AppendsTargets(tl: seq<TargetEntry>, d: nat, mode: Mode, lower: seq<TargetEntry>)
    ensures Appends(MapTargets(tl, d, mode, lower), lower)
    decreases tl
  {
    if tl != [] {
      AppendsTarget(tl[0], d, mode, lower);
      var first := MapTarget(tl[0], d, mode, lower);
      if first.Ok? {
        var rest := MapTargets(tl[1..], d, mode, first.lower);
        AppendsTargets(tl[1..], d, mode, first.lower);
        if rest.Ok? { OnlyAggsTwice(lower, first.lower, rest.lower); }
      }
    }
  }

  lemma {:induction false} AppendsRte(r: Rte, rt: nat, mode: Mode, lower: seq<TargetEntry>)
    ensures Appends(MapRte(r, rt, mode, lower), lower)
    decreases r
  {
    if r.Derived? { AppendsQuery(r.sub, rt, rt + 1, mode, lower); }
  }

  lemma {:induction false} AppendsRtes(rs: seq<Rte>, rt: nat, mode: Mode, lower: seq<TargetEntry>)
    ensures Appends(MapRtes(rs, rt, mode, lower), lower)
    decreases rs
  {
    if rs != [] {
      AppendsRte(rs[0], rt, mode, lower);
      var first := MapRte(rs[0], rt, mode, lower);
      if first.Ok? {
        var rest := MapRtes(rs[1..], rt, mode, first.lower);
        AppendsRtes(rs[1..], rt, mode, first.lower);
        if rest.Ok? { OnlyAggsTwice(lower, first.lower, rest.lower); }
      }
    }
  }

  lemma {:induction false} AppendsCte(c: Cte, d: nat, mode: Mode, lower: seq<TargetEntry>)
    ensures Appends(MapCte(c, d, mode, lower), lower)
    decreases c
  {
    AppendsQuery(c.body, d + 1, d + 1, mode, lower);
  }

  lemma {:induction false} AppendsCtes(cs: seq<Cte>, d: nat, mode: Mode, lower: seq<TargetEntry>)
    ensures Appends(MapCtes(cs, d, mode, lower), lower)
    decreases cs
  {
    if cs != [] {
      AppendsCte(cs[0], d, mode, lower);
      var first := MapCte(cs[0], d, mode, lower);
      if first.Ok? {
        var rest := MapCtes(cs[1..], d, mode, first.lower);
        AppendsCtes(cs[1..], d, mode, first.lower);
        if rest.Ok? { OnlyAggsTwice(lower, first.lower, rest.lower); }
      }
    }
  }

  lemma {:induction false} AppendsQuery(q: Query, d: nat, rt: nat, mode: Mode, lower: seq<TargetEntry>)
    ensures Appends(MapQuery(q, d, rt, mode, lower), lower)
    decreases q
  {
    if MapQuery(q, d, rt, mode, lower).Ok? {
      var l1 := MapTargets(q.tlist, d, mode, lower).lower;
      var l2 := MapAll(q.quals, d, mode, l1).lower;
      var l3 := MapAll(q.having, d, mode, l2).lower;
      var l4 := MapCtes(q.ctes, d, mode, l3).lower;
      var l5 := MapRtes(q.rtable, rt, mode, l4).lower;
      AppendsTargets(q.tlist, d, mode, lower);
      AppendsAll(q.quals, d, mode, l1);
      AppendsAll(q.having, d, mode, l2);
      AppendsCtes(q.ctes, d, mode, l3);
      AppendsRtes(q.rtable, rt, mode, l4);
      OnlyAggsTwice(lower, l1, l2);
      OnlyAggsTwice(lower, l2, l3);
      OnlyAggsTwice(lower, l3, l4);
      OnlyAggsTwice(lower, l4, l5);
    }
  }

  // ----- what the mutator rewrites correctly -----

  // A Var where `t` query levels have been entered and `d` have been counted. If it belongs
  // to the counted level it is taken for a grouping column and comes out right only if it
  // happens to have that column's number. If it belongs to the split query it is
  // overlooked and comes out right only if it happens to have its own column's number.
  predicate RightVar(e: Expr, t: nat, d: nat, base: seq<TargetEntry>)
    requires e.Var?
  {
    if d == t then true
    else if e.level == d then e.varno == 1 && e.attno == Find(base, AtLevel(e, 0)) + 1
    else if e.level == t then e.varno == 1 && 0 < e.attno <= |base| && base[e.attno - 1].expr == AtLevel(e, 0)
    else true
  }

  predicate RightAggregate(e: Expr, t: nat, d: nat)
    requires e.Agg?
  {
    d == t && (d == 0 || AvoidsAll(e.args, 0, d)) && MovesAll(e.args, 0, 0, d)
  }

  // A part found among the grouping columns must not refer to an outer query: it would be
  // taken for the shifted form of another one.
  predicate RightExpr(e: Expr, t: nat, d: nat, base: seq<TargetEntry>)
    decreases e
  {
    if e.Agg? && e.level == d then RightAggregate(e, t, d)
    else if d == 0 && !e.Const? && Find(base, e) < |base| then ShiftExpr(e, 0, 0, FULL_SHIFT) == e
    else
      match e
      case Const(_) => true
      case Var(_, _, _, _) => RightVar(e, t, d, base)
      case Op(_, args) => RightAll(args, t, d, base)
      case Agg(_, args, l) => l < t && RightAll(args, t, d, base)
      case SubLink(_, test, sub) => RightAll(test, t, d, base) && RightQuery(sub, t + 1, d + 1, d + 2, base)
  }

  predicate RightAll(es: seq<Expr>, t: nat, d: nat, base: seq<TargetEntry>)
    decreases es
  {
    forall i :: 0 <= i < |es| ==> RightExpr(es[i], t, d, base)
  }

  predicate RightTarget(te: TargetEntry, t: nat, d: nat, base: seq<TargetEntry>)
    decreases te
  {
    RightExpr(te.expr, t, d, base)
  }

  predicate RightTargets(tl: seq<TargetEntry>, t: nat, d: nat, base: seq<TargetEntry>)
    decreases tl
  {
    forall i :: 0 <= i < |tl| ==> RightTarget(tl[i], t, d, base)
  }

  predicate RightRte(r: Rte, t: nat, rt: nat, base: seq<TargetEntry>)
    decreases r
  {
    r.Derived? ==> RightQuery(r.sub, t + 1, rt, rt + 1, base)
  }

  predicate RightRtes(rs: seq<Rte>, t: nat, rt: nat, base: seq<TargetEntry>)
    decreases rs
  {
    forall i :: 0 <= i < |rs| ==> RightRte(rs[i], t, rt, base)
  }

  predicate RightCte(c: Cte, t: nat, d: nat, base: seq<TargetEntry>)
    decreases c
  {
    RightQuery(c.body, t + 1, d + 1, d + 1, base)
  }

  predicate RightCtes(cs: seq<Cte>, t: nat, d: nat, base: seq<TargetEntry>)
    decreases cs
  {
    forall i :: 0 <= i < |cs| ==> RightCte(cs[i], t, d, base)
  }

  predicate RightQuery(q: Query, t: nat, d: nat, rt: nat, base: seq<TargetEntry>)
    decreases q
  {
    && RightTargets(q.tlist, t, d, base) && RightAll(q.quals, t, d, base) && RightAll(q.having, t, d, base)
    && RightCtes(q.ctes, t, d, base) && RightRtes(q.rtable, t, rt, base)
  }

  // ----- an outcome is a rewritten form exactly for these -----

  // The list so far holds the grouping columns, the list that all ends in as well.
  predicate Between<T>(base: seq<TargetEntry>, lower: seq<TargetEntry>, o: Outcome<T>, below: seq<TargetEntry>) {
    OnlyAggs(base, lower) && OnlyAggs(base, below) && o.Ok? && o.lower <= below
  }

  lemma {:induction false} OutcomeAggregate(e: Expr, t: nat, d: nat, lower: seq<TargetEntry>, below: seq<TargetEntry>)
    requires e.Agg? && e.level == d && Counted(t, d)
    requires MapExpr(e, d, Above, lower).Ok? && MapExpr(e, d, Above, lower).lower <= below
    ensures RwExpr(MapExpr(e, d, Above, lower).value, e, t, below) <==> RightAggregate(e, t, d)
  {
    MovedAll(e.args, 0, 0, d, lower);
    var r := MapAll(e.args, 0 + d, InAggregate(d), lower);
    var entry := TargetEntry(Agg(e.fn, r.value, 0), 0, false);
    assert MapExpr(e, d, Above, lower) == Ok(Var(1, |r.lower| + 1, d, false), r.lower + [entry]);
    assert (r.lower + [entry])[|r.lower|] == entry && below[|r.lower|] == entry;
  }

  // An entry stands for the part that a lookup finds it for, exactly when that part does
  // not refer to an outer query.
  lemma {:induction false} FoundIff(e: Expr, lower: seq<TargetEntry>, below: seq<TargetEntry>)
    requires !(e.Agg? && e.level == 0) && !e.Const? && Find(lower, e) < |lower| && lower <= below
    ensures Reads(Var(1, Find(lower, e) + 1, 0, false), e, 0, below) <==> ShiftExpr(e, 0, 0, FULL_SHIFT) == e
  {
    var i := Find(lower, e);
    assert below[i] == lower[i];
  }

  lemma {:induction false} OutcomeVar(e: Expr, t: nat, d: nat, base: seq<TargetEntry>, lower: seq<TargetEntry>, below: seq<TargetEntry>)
    requires e.Var? && Counted(t, d) && Between(base, lower, MapVar(e, d, Above, lower), below)
    ensures RwExpr(MapVar(e, d, Above, lower).value, e, t, below) <==> RightVar(e, t, d, base)
  {
    FindAmong(base, lower, AtLevel(e, 0));
    if e.level == d {
      var i := Find(lower, AtLevel(e, 0));
      assert below[i] == lower[i];
    } else if e.level == t && 0 < e.attno <= |base| {
      assert below[e.attno - 1] == base[e.attno - 1];
    }
  }

  /** The outcome of an expression is a rewritten form if and only if it is right. */
  lemma {:induction false} OutcomeExpr(e: Expr, t: nat, d: nat, base: seq<TargetEntry>, lower: seq<TargetEntry>, below: seq<TargetEntry>)
    requires Counted(t, d) && Between(base, lower, MapExpr(e, d, Above, lower), below)
    ensures RwExpr(MapExpr(e, d, Above, lower).value, e, t, below) <==> RightExpr(e, t, d, base)
    decreases e
  {
    if e.Agg? && e.level == d {
      OutcomeAggregate(e, t, d, lower, below);
    } else {
      if d == 0 { FindAmong(base, lower, e); }
      if d == 0 && !e.Const? && Find(lower, e) < |lower| {
        FoundIff(e, lower, below);
      } else {
        match e
        case Const(_) =>
        case Var(_, _, _, _) => OutcomeVar(e, t, d, base, lower, below);
        case Op(_, args) => OutcomeAll(args, t, d, base, lower, below);
        case Agg(_, args, _) => OutcomeAll(args, t, d, base, lower, below);
        case SubLink(_, _, _) => OutcomeLink(e, t, d, base, lower, below);
      }
    }
  }

  lemma {:induction false} OutcomeLink(e: Expr, t: nat, d: nat, base: seq<TargetEntry>, lower: seq<TargetEntry>, below: seq<TargetEntry>)
    requires e.SubLink? && Counted(t, d) && Between(base, lower, MapExpr(e, d, Above, lower), below)
    requires d == 0 ==> Find(lower, e) == |lower| && Find(base, e) == |base|
    ensures RwExpr(MapExpr(e, d, Above, lower).value, e, t, below) <==> RightExpr(e, t, d, base)
    decreases e, 0
  {
    var lo := MapAll(e.test, d, Above, lower).lower;
    OutcomeAll(e.test, t, d, base, lower, below);
    AppendsAll(e.test, d, Above, lower);
    OnlyAggsTwice(base, lower, lo);
    OutcomeQuery(e.sub, t + 1, d + 1, d + 2, base, lo, below);
  }

  lemma {:induction false} OutcomeAll(es: seq<Expr>, t: nat, d: nat, base: seq<TargetEntry>, lower: seq<TargetEntry>, below: seq<TargetEntry>)
    requires Counted(t, d) && Between(base, lower, MapAll(es, d, Above, lower), below)
    ensures RwAll(MapAll(es, d, Above, lower).value, es, t, below) <==> RightAll(es, t, d, base)
    decreases es
  {
    if es != [] {
      var first := MapExpr(es[0], d, Above, lower);
      var rest := MapAll(es[1..], d, Above, first.lower);
      OutcomeExpr(es[0], t, d, base, lower, below);
      AppendsExpr(es[0], d, Above, lower);
      OnlyAggsTwice(base, lower, first.lower);
      OutcomeAll(es[1..], t, d, base, first.lower, below);
      RwAllStep([first.value] + rest.value, es, t, below);
      assert ([first.value] + rest.value)[1..] == rest.value;
      assert RightAll(es, t, d, base) <==> RightExpr(es[0], t, d, base) && RightAll(es[1..], t, d, base);
    }
  }

  lemma {:induction false} RwAllStep(es2: seq<Expr>, es: seq<Expr>, d: nat, below: seq<TargetEntry>)
    requires |es2| == |es| > 0
    ensures RwAll(es2, es, d, below) <==> RwExpr(es2[0], es[0], d, below) && RwAll(es2[1..], es[1..], d, below)
  {
  }

  lemma {:induction false} OutcomeTarget(te: TargetEntry, t: nat, d: nat, base: seq<TargetEntry>, lower: seq<TargetEntry>, below: seq<TargetEntry>)
    requires Counted(t, d) && Between(base, lower, MapTarget(te, d, Above, lower), below)
    ensures RwTarget(MapTarget(te, d, Above, lower).value, te, t, below) <==> RightTarget(te, t, d, base)
    decreases te
  {
    OutcomeExpr(te.expr, t, d, base, lower, below);
  }

  lemma {:induction false} OutcomeTargets(tl: seq<TargetEntry>, t: nat, d: nat, base: seq<TargetEntry>, lower: seq<TargetEntry>, below: seq<TargetEntry>)
    requires Counted(t, d) && Between(base, lower, MapTargets(tl, d, Above, lower), below)
    ensures RwTargets(MapTargets(tl, d, Above, lower).value, tl, t, below) <==> RightTargets(tl, t, d, base)
    decreases tl
  {
    if tl != [] {
      var first := MapTarget(tl[0], d, Above, lower);
      var rest := MapTargets(tl[1..], d, Above, first.lower);
      OutcomeTarget(tl[0], t, d, base, lower, below);
      AppendsTarget(tl[0], d, Above, lower);
      OnlyAggsTwice(base, lower, first.lower);
      OutcomeTargets(tl[1..], t, d, base, first.lower, below);
      RwTargetsStep([first.value] + rest.value, tl, t, below);
      assert ([first.value] + rest.value)[1..] == rest.value;
      assert RightTargets(tl, t, d, base) <==> RightTarget(tl[0], t, d, base) && RightTargets(tl[1..], t, d, base);
    }
  }

  lemma {:induction false} RwTargetsStep(tl2: seq<TargetEntry>, tl: seq<TargetEntry>, d: nat, below: seq<TargetEntry>)
    requires |tl2| == |tl| > 0
    ensures RwTargets(tl2, tl, d, below) <==> RwTarget(tl2[0], tl[0], d, below) && RwTargets(tl2[1..], tl[1..], d, below)
  {
  }

  lemma {:induction false} OutcomeRte(r: Rte, t: nat, rt: nat, base: seq<TargetEntry>, lower: seq<TargetEntry>, below: seq<TargetEntry>)
    requires 0 < rt <= t + 1 && Between(base, lower, MapRte(r, rt, Above, lower), below)
    ensures RwRte(MapRte(r, rt, Above, lower).value, r, t, below) <==> RightRte(r, t, rt, base)
    decreases r
  {
    if r.Derived? { OutcomeQuery(r.sub, t + 1, rt, rt + 1, base, lower, below); }
  }

  lemma {:induction false} OutcomeRtes(rs: seq<Rte>, t: nat, rt: nat, base: seq<TargetEntry>, lower: seq<TargetEntry>, below: seq<TargetEntry>)
    requires 0 < rt <= t + 1 && Between(base, lower, MapRtes(rs, rt, Above, lower), below)
    ensures RwRtes(MapRtes(rs, rt, Above, lower).value, rs, t, below) <==> RightRtes(rs, t, rt, base)
    decreases rs
  {
    if rs != [] {
      var first := MapRte(rs[0], rt, Above, lower);
      var rest := MapRtes(rs[1..], rt, Above, first.lower);
      OutcomeRte(rs[0], t, rt, base, lower, below);
      AppendsRte(rs[0], rt, Above, lower);
      OnlyAggsTwice(base, lower, first.lower);
      OutcomeRtes(rs[1..], t, rt, base, first.lower, below);
      RwRtesStep([first.value] + rest.value, rs, t, below);
      assert ([first.value] + rest.value)[1..] == rest.value;
      assert RightRtes(rs, t, rt, base) <==> RightRte(rs[0], t, rt, base) && RightRtes(rs[1..], t, rt, base);
    }
  }

  lemma {:induction false} RwRtesStep(rs2: seq<Rte>, rs: seq<Rte>, d: nat, below: seq<TargetEntry>)
    requires |rs2| == |rs| > 0
    ensures RwRtes(rs2, rs, d, below) <==> RwRte(rs2[0], rs[0], d, below) && RwRtes(rs2[1..], rs[1..], d, below)
  {
  }

  lemma {:induction false} OutcomeCte(c: Cte, t: nat, d: nat, base: seq<TargetEntry>, lower: seq<TargetEntry>, below: seq<TargetEntry>)
    requires Counted(t, d) && Between(base, lower, MapCte(c, d, Above, lower), below)
    ensures RwCte(MapCte(c, d, Above, lower).value, c, t, below) <==> RightCte(c, t, d, base)
    decreases c
  {
    OutcomeQuery(c.body, t + 1, d + 1, d + 1, base, lower, below);
  }

  lemma {:induction false} OutcomeCtes(cs: seq<Cte>, t: nat, d: nat, base: seq<TargetEntry>, lower: seq<TargetEntry>, below: seq<TargetEntry>)
    requires Counted(t, d) && Between(base, lower, MapCtes(cs, d, Above, lower), below)
    ensures RwCtes(MapCtes(cs, d, Above, lower).value, cs, t, below) <==> RightCtes(cs, t, d, base)
    decreases cs
  {
    if cs != [] {
      var first := MapCte(cs[0], d, Above, lower);
      var rest := MapCtes(cs[1..], d, Above, first.lower);
      OutcomeCte(cs[0], t, d, base, lower, below);
      AppendsCte(cs[0], d, Above, lower);
      OnlyAggsTwice(base, lower, first.lower);
      OutcomeCtes(cs[1..], t, d, base, first.lower, below);
      RwCtesStep([first.value] + rest.value, cs, t, below);
      assert ([first.value] + rest.value)[1..] == rest.value;
      assert RightCtes(cs, t, d, base) <==> RightCte(cs[0], t, d, base) && RightCtes(cs[1..], t, d, base);
    }
  }

  lemma {:induction false} RwCtesStep(cs2: seq<Cte>, cs: seq<Cte>, d: nat, below: seq<TargetEntry>)
    requires |cs2| == |cs| > 0
    ensures RwCtes(cs2, cs, d, below) <==> RwCte(cs2[0], cs[0], d, below) && RwCtes(cs2[1..], cs[1..], d, below)
  {
  }

  lemma {:induction false} OutcomeQuery(q: Query, t: nat, d: nat, rt: nat, base: seq<TargetEntry>, lower: seq<TargetEntry>, below: seq<TargetEntry>)
    requires Counted(t, d) && 0 < rt <= t + 1 && Between(base, lower, MapQuery(q, d, rt, Above, lower), below)
    ensures RwQuery(MapQuery(q, d, rt, Above, lower).value, q, t, below) <==> RightQuery(q, t, d, rt, base)
    decreases q
  {
    var l1 := MapTargets(q.tlist, d, Above, lower).lower;
    var l2 := MapAll(q.quals, d, Above, l1).lower;
    var l3 := MapAll(q.having, d, Above, l2).lower;
    var l4 := MapCtes(q.ctes, d, Above, l3).lower;
    var l5 := MapRtes(q.rtable, rt, Above, l4).lower;
    assert l1 <= below && l2 <= below && l3 <= below && l4 <= below && l5 <= below;
    AppendsTargets(q.tlist, d, Above, lower);
    OnlyAggsTwice(base, lower, l1);
    AppendsAll(q.quals, d, Above, l1);
    OnlyAggsTwice(base, l1, l2);
    AppendsAll(q.having, d, Above, l2);
    OnlyAggsTwice(base, l2, l3);
    AppendsCtes(q.ctes, d, Above, l3);
    OnlyAggsTwice(base, l3, l4);
    OutcomeTargets(q.tlist, t, d, base, lower, below);
    OutcomeAll(q.quals, t, d, base, l1, below);
    OutcomeAll(q.having, t, d, base, l2, below);
    OutcomeCtes(q.ctes, t, d, base, l3, below);
    OutcomeRtes(q.rtable, t, rt, base, l4, below);
  }
}
