/**
  What transformGroupedWindows (compat/utils/misc.c) leaves where: which queries it
  touches, and that afterwards windows and grouping never meet. All is stated over the
  parts of expressions.
 */
module GroupedWindowsShape {
  import opened GroupedWindows

  // ----- parts -----

  predicate PartOf(x: Expr, e: Expr)
    decreases e
  {
    x == e
    || match e
       case Op(_, args) => PartOfAny(x, args)
       case Agg(_, args) => PartOfAny(x, args)
       case Win(_, args, _) => PartOfAny(x, args)
       case _ => false
  }

  predicate PartOfAny(x: Expr, es: seq<Expr>)
    decreases es
  {
    exists i :: 0 <= i < |es| && PartOf(x, es[i])
  }

  // Some part has the property.
  ghost predicate Holds(e: Expr, p: Expr -> bool) { exists x :: PartOf(x, e) && p(x) }

  ghost predicate HoldsAny(es: seq<Expr>, p: Expr -> bool) { exists i :: 0 <= i < |es| && Holds(es[i], p) }

  lemma {:induction false} HoldsStep(e: Expr, p: Expr -> bool)
    ensures Holds(e, p) <==> p(e) || ((e.Op? || e.Agg? || e.Win?) && HoldsAny(e.args, p))
  {
    if p(e) { assert PartOf(e, e); }
    if (e.Op? || e.Agg? || e.Win?) && HoldsAny(e.args, p) {
      var i :| 0 <= i < |e.args| && Holds(e.args[i], p);
      var x :| PartOf(x, e.args[i]) && p(x);
      assert PartOfAny(x, e.args);
    }
    if Holds(e, p) && !p(e) {
      var x :| PartOf(x, e) && p(x);
      assert PartOfAny(x, e.args);
      var i :| 0 <= i < |e.args| && PartOf(x, e.args[i]);
      assert Holds(e.args[i], p);
    }
  }

  const IS_WIN: Expr -> bool := (x: Expr) => x.Win?
  const IS_AGG: Expr -> bool := (x: Expr) => x.Agg?
  const IS_APPENDED: Expr -> bool := (x: Expr) => x.Agg? || x.Grouping? || x.SubLink?

  // ----- the queries that are touched -----

  lemma {:induction false} HasWinIff(e: Expr)
    ensures HasWin(e) <==> Holds(e, IS_WIN)
    decreases e
  {
    HoldsStep(e, IS_WIN);
    if e.Op? || e.Agg? {
      forall i | 0 <= i < |e.args| ensures HasWin(e.args[i]) <==> Holds(e.args[i], IS_WIN) { HasWinIff(e.args[i]); }
    }
  }

  lemma {:induction false} HasAggIff(e: Expr)
    ensures HasAgg(e) <==> Holds(e, IS_AGG)
    decreases e
  {
    HoldsStep(e, IS_AGG);
    if e.Op? || e.Win? {
      forall i | 0 <= i < |e.args| ensures HasAgg(e.args[i]) <==> Holds(e.args[i], IS_AGG) { HasAggIff(e.args[i]); }
    }
  }

  /** A query is left alone if and only if it has no window function, or neither a GROUP BY nor
      grouping sets nor an aggregate in the target list or HAVING. */
  lemma {:induction false} UnchangedIff(q: Query)
    ensures Transform(q).Unchanged? <==>
      || !HoldsAny(Exprs(q.tlist), IS_WIN)
      || (q.group == [] && q.sets == [] && !HoldsAny(Exprs(q.tlist), IS_AGG) && !HoldsAny(q.having, IS_AGG))
  {
    var es := Exprs(q.tlist);
    forall i | 0 <= i < |es| ensures HasWin(q.tlist[i].expr) <==> Holds(es[i], IS_WIN) { HasWinIff(es[i]); }
    forall i | 0 <= i < |es| ensures HasAgg(q.tlist[i].expr) <==> Holds(es[i], IS_AGG) { HasAggIff(es[i]); }
    forall i | 0 <= i < |q.having| ensures HasAgg(q.having[i]) <==> Holds(q.having[i], IS_AGG) { HasAggIff(q.having[i]); }
  }

  // ----- no grouping is left above -----

  lemma {:induction false} MutateLeavesNone(e: Expr, sub: seq<Target>, m: seq<nat>)
    requires Mutate(e, sub, m).Done?
    ensures !Holds(Mutate(e, sub, m).value, IS_APPENDED)
    decreases e
  {
    var r := Mutate(e, sub, m).value;
    HoldsStep(r, IS_APPENDED);
    if (e.Op? || e.Win?) && !r.Var? { MutateAllLeavesNone(e.args, sub, m); }
  }

  lemma {:induction false} MutateAllLeavesNone(es: seq<Expr>, sub: seq<Target>, m: seq<nat>)
    requires MutateAll(es, sub, m).Done?
    ensures !HoldsAny(MutateAll(es, sub, m).value, IS_APPENDED)
    decreases es
  {
    if es != [] {
      var n := |es| - 1;
      MutateAllLeavesNone(es[..n], sub, m);
      MutateLeavesNone(es[n], MutateAll(es[..n], sub, m).sub, m);
    }
  }

  // ----- no window is left below -----

  ghost predicate Windowless(sub: seq<Target>) { !HoldsAny(Exprs(sub), IS_WIN) }

  // No aggregate has a window function in its arguments, which SQL does not allow.
  ghost predicate PlainAggs(e: Expr) { forall x :: PartOf(x, e) && x.Agg? ==> !Holds(x, IS_WIN) }

  ghost predicate AllPlainAggs(es: seq<Expr>) { forall i :: 0 <= i < |es| ==> PlainAggs(es[i]) }

  lemma {:induction false} PartsOfParts(y: Expr, x: Expr, e: Expr)
    requires PartOf(y, x) && PartOf(x, e)
    ensures PartOf(y, e)
    decreases e
  {
    if x != e {
      var args := e.args;
      var i :| 0 <= i < |args| && PartOf(x, args[i]);
      PartsOfParts(y, x, args[i]);
      assert PartOfAny(y, args);
    }
  }

  lemma {:induction false} WindowlessIsPlain(e: Expr)
    requires !Holds(e, IS_WIN)
    ensures PlainAggs(e)
  {
    forall x, y | PartOf(x, e) && PartOf(y, x) ensures !IS_WIN(y) { PartsOfParts(y, x, e); }
  }

  lemma {:induction false} PlainAggsStep(e: Expr)
    ensures PlainAggs(e) <==>
      if e.Agg? then !Holds(e, IS_WIN) else (e.Op? || e.Win? ==> AllPlainAggs(e.args))
  {
    if e.Agg? {
      assert PartOf(e, e);
      if !Holds(e, IS_WIN) { WindowlessIsPlain(e); }
    } else if e.Op? || e.Win? {
      if PlainAggs(e) {
        forall i | 0 <= i < |e.args| ensures PlainAggs(e.args[i]) {
          forall x | PartOf(x, e.args[i]) && x.Agg? ensures !Holds(x, IS_WIN) { assert PartOfAny(x, e.args) && PartOf(x, e); }
        }
      }
      if AllPlainAggs(e.args) {
        forall x | PartOf(x, e) && x.Agg? ensures !Holds(x, IS_WIN) {
          assert x != e && PartOfAny(x, e.args);
          var i :| 0 <= i < |e.args| && PartOf(x, e.args[i]);
          assert PlainAggs(e.args[i]);
        }
      }
    }
  }

  lemma {:induction false} ForcedWindowless(e: Expr, sub: seq<Target>)
    ensures Windowless(Forced(e, sub).sub) <==> Windowless(sub) && !Holds(e, IS_WIN)
  {
    var k, r := IndexOf(Exprs(sub), e), Forced(e, sub).sub;
    if k < |sub| {
      assert Exprs(sub)[k] == e;
    } else {
      assert Exprs(r)[|sub|] == e;
      assert forall i :: 0 <= i < |sub| ==> Exprs(r)[i] == Exprs(sub)[i];
    }
  }

  lemma {:induction false} MutateWindowless(e: Expr, sub: seq<Target>, m: seq<nat>)
    requires Mutate(e, sub, m).Done?
    ensures Windowless(Mutate(e, sub, m).sub) <==> Windowless(sub) && PlainAggs(e)
    decreases e
  {
    var k := IndexOf(Exprs(sub), e);
    PlainAggsStep(e);
    if e.Agg? {
      ForcedWindowless(e, sub);
    } else if e.SubLink? || e.Grouping? {
      var x := if e.Grouping? then Grouping(MapRefs(e.refs, m)) else e;
      HoldsStep(x, IS_WIN);
      ForcedWindowless(x, sub);
    } else if k < |sub| {
      assert Exprs(sub)[k] == e;
      if Windowless(sub) { WindowlessIsPlain(e); }
    } else if e.Op? || e.Win? {
      MutateAllWindowless(e.args, sub, m);
    }
  }

  lemma {:induction false} MutateAllWindowless(es: seq<Expr>, sub: seq<Target>, m: seq<nat>)
    requires MutateAll(es, sub, m).Done?
    ensures Windowless(MutateAll(es, sub, m).sub) <==> Windowless(sub) && AllPlainAggs(es)
    decreases es
  {
    if es != [] {
      var n := |es| - 1;
      MutateAllWindowless(es[..n], sub, m);
      assert forall i :: 0 <= i < n ==> es[..n][i] == es[i];
      MutateWindowless(es[n], MutateAll(es[..n], sub, m).sub, m);
    }
  }

  /** After a split the outer query has the references of the original, no GROUP BY, no grouping
      sets, no HAVING and no aggregate, GROUPING call or subquery in its target list and frame
      offsets; the subquery has no window clause, and no window function in its target list if
      and only if no grouping column and no argument of an aggregate had one. */
  lemma {:induction false} SplitApart(q: Query)
    requires Transform(q).Split?
    ensures
      var outer := Transform(q).outer;
      && outer.group == [] && outer.sets == [] && outer.having == []
      && |outer.tlist| == |q.tlist| && |outer.windows| == |q.windows|
      && (forall i :: 0 <= i < |q.tlist| ==> outer.tlist[i].ref == q.tlist[i].ref && outer.tlist[i].junk == q.tlist[i].junk)
      && (forall i :: 0 <= i < |q.windows| ==>
            outer.windows[i].partition == q.windows[i].partition && outer.windows[i].order == q.windows[i].order)
      && !HoldsAny(Exprs(outer.tlist), IS_APPENDED) && !HoldsAny(Offsets(outer.windows), IS_APPENDED)
    ensures
      var sub := Transform(q).sub;
      && sub.windows == [] && sub.having == q.having
      && (Windowless(sub.tlist) <==>
            !HoldsAny(ColumnsOf(q).exprs, IS_WIN) && AllPlainAggs(Exprs(q.tlist)) && AllPlainAggs(Offsets(q.windows)))
  {
    SplitParts(q);
    BareOuter(q);
    WindowlessSub(q);
  }

  lemma {:induction false} SplitParts(q: Query)
    requires Transform(q).Split?
    ensures Targets(q).Done? && WindowOffsets(q).Done?
    ensures Transform(q).outer == OuterQuery(q, Targets(q).value, WindowOffsets(q).value)
    ensures
      var sub := Transform(q).sub;
      sub.tlist == WindowOffsets(q).sub && sub.windows == [] && sub.having == q.having
  {
  }

  lemma {:induction false} BareOuter(q: Query)
    requires Targets(q).Done? && WindowOffsets(q).Done?
    ensures
      var outer := OuterQuery(q, Targets(q).value, WindowOffsets(q).value);
      && outer.group == [] && outer.sets == [] && outer.having == []
      && |outer.tlist| == |q.tlist| && |outer.windows| == |q.windows|
      && (forall i :: 0 <= i < |q.tlist| ==> outer.tlist[i].ref == q.tlist[i].ref && outer.tlist[i].junk == q.tlist[i].junk)
      && (forall i :: 0 <= i < |q.windows| ==>
            outer.windows[i].partition == q.windows[i].partition && outer.windows[i].order == q.windows[i].order)
      && !HoldsAny(Exprs(outer.tlist), IS_APPENDED) && !HoldsAny(Offsets(outer.windows), IS_APPENDED)
  {
    var m, start := SgrMap(ColumnsOf(q).refs), GroupTargets(ColumnsOf(q).exprs);
    MutateAllLeavesNone(Exprs(q.tlist), start, m);
    MutateAllLeavesNone(Offsets(q.windows), Targets(q).sub, m);
    var outer := OuterQuery(q, Targets(q).value, WindowOffsets(q).value);
    assert Exprs(outer.tlist) == Targets(q).value;
    OffsetsOf(q.windows, WindowOffsets(q).value);
  }

  lemma {:induction false} WindowlessSub(q: Query)
    requires Targets(q).Done? && WindowOffsets(q).Done?
    ensures Windowless(WindowOffsets(q).sub) <==>
              !HoldsAny(ColumnsOf(q).exprs, IS_WIN) && AllPlainAggs(Exprs(q.tlist)) && AllPlainAggs(Offsets(q.windows))
  {
    var m, start := SgrMap(ColumnsOf(q).refs), GroupTargets(ColumnsOf(q).exprs);
    MutateAllWindowless(Exprs(q.tlist), start, m);
    MutateAllWindowless(Offsets(q.windows), Targets(q).sub, m);
    assert Exprs(start) == ColumnsOf(q).exprs;
  }

  lemma {:induction false} OffsetsOf(ws: seq<Window>, es: seq<Expr>)
    requires |es| == 2 * |ws|
    ensures Offsets(WithOffsets(ws, es)) == es
  {
    var r := WithOffsets(ws, es);
    forall i | 0 <= i < |es| ensures Offsets(r)[i] == es[i] {
      var k := i / 2;
      assert r[k] == Window(ws[k].partition, ws[k].order, es[2 * k], es[2 * k + 1]);
      assert i == 2 * k || i == 2 * k + 1;
    }
  }
}
