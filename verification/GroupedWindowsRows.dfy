/** transformGroupedWindows on whole queries: the same groups, and the same rows. */
module GroupedWindowsRows {
  import opened Values
  import opened GroupedWindows
  import opened GroupedWindowsMeaning

  // ----- references before and after -----

  lemma {:induction false} SgrAt(refs: seq<int>, r: int, k: nat)
    requires 0 <= r < |SgrMap(refs)| && k < |refs| && NoRepeats(refs)
    ensures SgrMap(refs)[r] == k + 1 <==> r == refs[k]
  {
    IndexUnique(refs, k);
  }

  // Removing repetitions commutes with the renumbering, which counts from 1.
  lemma {:induction false} DistinctMapped(group: seq<int>, refs: seq<int>, n: nat)
    requires n <= |group| && DistinctTo(group, n) <= refs && InRange(group, SgrMap(refs)) && NoRepeats(refs)
    ensures DistinctTo(MapRefs(group, SgrMap(refs)), n) == Numbers(|DistinctTo(group, n)|)
    decreases n
  {
    if n > 0 {
      var front := DistinctTo(group, n - 1);
      FrontOf(refs, front, group[n - 1]);
      DistinctMapped(group, refs, n - 1);
      NewNumber(refs, front, group[n - 1]);
    }
  }

  lemma {:induction false} FrontOf(refs: seq<int>, front: seq<int>, x: int)
    requires AddNew(front, x) <= refs
    ensures front <= refs && (x !in front ==> |front| < |refs| && refs[|front|] == x)
  {
    if x !in front { assert AddNew(front, x)[|front|] == x; }
  }

  // The image of a reference is one of the numbers given so far, or the next one.
  lemma {:induction false} NewNumber(refs: seq<int>, front: seq<int>, x: int)
    requires NoRepeats(refs) && front <= refs && 0 <= x < |SgrMap(refs)|
    requires x !in front ==> |front| < |refs| && refs[|front|] == x
    ensures AddNew(Numbers(|front|), SgrMap(refs)[x]) == Numbers(|AddNew(front, x)|)
  {
    if x in front {
      var k :| 0 <= k < |front| && front[k] == x;
      SgrAt(refs, x, k);
      assert Numbers(|front|)[k] == SgrMap(refs)[x];
    } else {
      SgrAt(refs, x, |front|);
      assert Numbers(|front|) + [SgrMap(refs)[x]] == Numbers(|front| + 1);
    }
  }

  /** Every position of the subquery's list that a reference names holds its grouping expression. */
  lemma {:induction false} LowerRef(sub: seq<Target>, es: seq<Expr>, k: nat)
    requires Lower(sub, es) && k < |es|
    ensures RefExpr(sub, k + 1) == es[k]
  {
    assert forall j :: 0 <= j < k ==> Refs(sub)[j] == j + 1;
    assert Refs(sub)[k] == k + 1;
  }

  lemma {:induction false} SameMember(refs: seq<int>, s: seq<int>, k: nat)
    requires InRange(s, SgrMap(refs)) && NoRepeats(refs) && k < |refs|
    ensures k + 1 in MapRefs(s, SgrMap(refs)) <==> refs[k] in s
  {
    forall j | 0 <= j < |s| ensures MapRefs(s, SgrMap(refs))[j] == k + 1 <==> s[j] == refs[k] {
      SgrAt(refs, s[j], k);
    }
  }

  lemma {:induction false} SamePresent(refs: seq<int>, s: seq<int>)
    requires InRange(s, SgrMap(refs)) && NoRepeats(refs)
    ensures Present(Numbers(|refs|), MapRefs(s, SgrMap(refs))) == Present(refs, s)
  {
    forall k | 0 <= k < |refs| ensures (k + 1 in MapRefs(s, SgrMap(refs))) == (refs[k] in s) {
      SameMember(refs, s, k);
    }
  }

  // ----- the same groups -----

  lemma {:induction false} SameGroupsOfSets(I: Interp, refs: seq<int>, es: seq<Expr>, sets: seq<seq<int>>, input: seq<Binding>)
    requires |refs| == |es| && NoRepeats(refs)
    requires forall k :: 0 <= k < |sets| ==> InRange(sets[k], SgrMap(refs))
    ensures GroupsOfSets(I, Numbers(|es|), es, MapSets(sets, SgrMap(refs)), input) == GroupsOfSets(I, refs, es, sets, input)
    decreases sets
  {
    if sets != [] {
      SamePresent(refs, sets[0]);
      SameGroupsOfSets(I, refs, es, sets[1..], input);
      assert MapSets(sets, SgrMap(refs))[1..] == MapSets(sets[1..], SgrMap(refs));
    }
  }

  predicate Wf(q: Query) {
    && RefsFound(q) && Groupable(ColumnsOf(q).exprs)
    && (forall k :: 0 <= k < |q.group| ==> q.group[k] > 0)
    && (forall k, j :: 0 <= k < |q.windows| && 0 <= j < |q.windows[k].partition| ==> q.windows[k].partition[j] in Refs(q.tlist))
    && (forall k, j :: 0 <= k < |q.windows| && 0 <= j < |q.windows[k].order| ==> q.windows[k].order[j] in Refs(q.tlist))
  }

  lemma {:induction false} LowerRefs(sub: seq<Target>, es: seq<Expr>)
    requires Lower(sub, es)
    ensures RefExprs(sub, Numbers(|es|)) == es
  {
    forall k | 0 <= k < |es| ensures RefExpr(sub, Numbers(|es|)[k]) == es[k] {
      LowerRef(sub, es, k);
    }
  }

  /** The subquery has the grouping columns of the original, renumbered from 1. */
  lemma {:induction false} SubColumns(q: Query, sub: seq<Target>)
    requires SetsInRange(q) && Lower(sub, ColumnsOf(q).exprs)
    ensures
      var c := ColumnsOf(q);
      ColumnsOf(SubQuery(q, sub)) == Columns(Numbers(|c.exprs|), c.exprs, c.sets)
  {
    GroupInRange(q);
    DistinctMapped(q.group, ColumnsOf(q).refs, |q.group|);
    LowerRefs(sub, ColumnsOf(q).exprs);
  }

  /** Every remapped reference of the subquery names the grouping expression it named before. */
  lemma {:induction false} RemappedRef(q: Query, sub: seq<Target>, i: nat)
    requires SetsInRange(q) && Lower(sub, ColumnsOf(q).exprs) && i < |q.group|
    ensures |SubQuery(q, sub).group| == |q.group|
    ensures RefExpr(sub, SubQuery(q, sub).group[i]) == RefExpr(q.tlist, q.group[i])
  {
    GroupInRange(q);
    RemappedExpr(q.tlist, sub, ColumnsOf(q).refs, ColumnsOf(q).exprs, q.group[i]);
  }

  lemma {:induction false} RemappedExpr(tl: seq<Target>, sub: seq<Target>, refs: seq<int>, es: seq<Expr>, r: int)
    requires Lower(sub, es) && es == RefExprs(tl, refs) && NoRepeats(refs) && r in refs && 0 <= r < |SgrMap(refs)|
    ensures RefExpr(sub, SgrMap(refs)[r]) == RefExpr(tl, r)
  {
    var k :| 0 <= k < |refs| && refs[k] == r;
    SgrAt(refs, r, k);
    LowerRef(sub, es, k);
  }

  lemma {:induction false} SameContexts(I: Interp, q: Query, sub: seq<Target>, input: seq<Binding>)
    requires SetsInRange(q) && Lower(sub, ColumnsOf(q).exprs)
    ensures Contexts(I, SubQuery(q, sub), input) == Contexts(I, q, input)
  {
    SubColumns(q, sub);
    SameGroups(I, ColumnsOf(q).refs, ColumnsOf(q).exprs, q.sets, input);
  }

  lemma {:induction false} SameGroups(I: Interp, refs: seq<int>, es: seq<Expr>, sets: seq<seq<int>>, input: seq<Binding>)
    requires |refs| == |es| && NoRepeats(refs) && forall k :: 0 <= k < |sets| ==> InRange(sets[k], SgrMap(refs))
    ensures GroupsOfSets(I, Numbers(|es|), es, MapSets(sets, SgrMap(refs)), input) == GroupsOfSets(I, refs, es, sets, input)
    ensures Present(Numbers(|es|), Numbers(|es|)) == Present(refs, refs)
  {
    SameGroupsOfSets(I, refs, es, sets, input);
  }

  // ----- HAVING -----

  // GROUPING references in HAVING are not remapped: whether each still stands for its column.
  predicate SafeRefs(rs: seq<int>, refs: seq<int>, sets: seq<seq<int>>) {
    forall k, j :: 0 <= k < |rs| && 0 <= j < |sets| ==>
      (rs[k] in refs && rs[k] in sets[j] <==> 1 <= rs[k] <= |refs| && refs[rs[k] - 1] in sets[j])
  }

  predicate SafeHaving(e: Expr, refs: seq<int>, sets: seq<seq<int>>)
    decreases e
  {
    match e
    case Grouping(rs) => SafeRefs(rs, refs, sets)
    case Op(_, args) => forall i :: 0 <= i < |args| ==> SafeHaving(args[i], refs, sets)
    case Win(_, args, _) => forall i :: 0 <= i < |args| ==> SafeHaving(args[i], refs, sets)
    case _ => true
  }

  predicate HavingSafe(q: Query) {
    forall i :: 0 <= i < |q.having| ==> SafeHaving(q.having[i], ColumnsOf(q).refs, q.sets)
  }

  // One GROUPING reference, for one grouping set.
  lemma {:induction false} BitIff(refs: seq<int>, r: int, s: seq<int>)
    requires NoRepeats(refs)
    ensures
      var i, j, p := IndexOf(refs, r), IndexOf(Numbers(|refs|), r), Present(refs, s);
      && (i < |refs| && p[i] <==> r in refs && r in s)
      && (j < |refs| && p[j] <==> 1 <= r <= |refs| && refs[r - 1] in s)
  {
    if 1 <= r <= |refs| { IndexUnique(Numbers(|refs|), r - 1); }
  }

  /** An unmapped GROUPING call keeps its value in every grouping set exactly when its references are safe. */
  lemma {:induction false} GroupingIff(refs: seq<int>, es: seq<Expr>, rs: seq<int>, sets: seq<seq<int>>, rows: seq<Binding>)
    requires NoRepeats(refs)
    ensures SafeRefs(rs, refs, sets) <==>
      forall j :: 0 <= j < |sets| ==>
        GroupingBits(Columns(Numbers(|refs|), es, true), rs, Group(rows, Present(refs, sets[j])))
          == GroupingBits(Columns(refs, es, true), rs, Group(rows, Present(refs, sets[j])))
  {
    forall j | 0 <= j < |sets|
      ensures
        var c := Group(rows, Present(refs, sets[j]));
        GroupingBits(Columns(Numbers(|refs|), es, true), rs, c) == GroupingBits(Columns(refs, es, true), rs, c) <==>
        (forall k :: 0 <= k < |rs| ==>
          (rs[k] in refs && rs[k] in sets[j] <==> 1 <= rs[k] <= |refs| && refs[rs[k] - 1] in sets[j]))
    {
      var c := Group(rows, Present(refs, sets[j]));
      var now, was := GroupingBits(Columns(Numbers(|refs|), es, true), rs, c), GroupingBits(Columns(refs, es, true), rs, c);
      forall k | 0 <= k < |rs|
        ensures now[k] == was[k] <==>
          (rs[k] in refs && rs[k] in sets[j] <==> 1 <= rs[k] <= |refs| && refs[rs[k] - 1] in sets[j])
      {
        BitIff(refs, rs[k], sets[j]);
      }
    }
  }

  // Contexts of a query: groups of one of its grouping sets, or of all its grouping columns.
  ghost predicate OfSets(cs: seq<Context>, refs: seq<int>, sets: seq<seq<int>>) {
    forall i :: 0 <= i < |cs| ==> cs[i].Group? && InSets(cs[i].present, refs, sets)
  }

  ghost predicate InSets(present: seq<bool>, refs: seq<int>, sets: seq<seq<int>>) {
    if sets == [] then present == Present(refs, refs)
    else exists j :: 0 <= j < |sets| && present == Present(refs, sets[j])
  }

  lemma {:induction false} GroupsOfSetsFrom(I: Interp, refs: seq<int>, es: seq<Expr>, sets: seq<seq<int>>, input: seq<Binding>)
    requires |refs| == |es| && sets != []
    ensures OfSets(GroupsOfSets(I, refs, es, sets, input), refs, sets)
    decreases sets
  {
    var head, tail := GroupsOf(I, es, Present(refs, sets[0]), input), GroupsOfSets(I, refs, es, sets[1..], input);
    assert forall i :: 0 <= i < |head| ==> head[i].Group? && head[i].present == Present(refs, sets[0]);
    if |sets| > 1 {
      GroupsOfSetsFrom(I, refs, es, sets[1..], input);
      forall i | 0 <= i < |tail| ensures tail[i].Group? && InSets(tail[i].present, refs, sets) {
        var j :| 0 <= j < |sets[1..]| && tail[i].present == Present(refs, sets[1..][j]);
        assert sets[1..][j] == sets[j + 1];
      }
    }
  }

  lemma {:induction false} ContextsFrom(I: Interp, q: Query, input: seq<Binding>)
    ensures OfSets(Contexts(I, q, input), ColumnsOf(q).refs, q.sets)
  {
    if q.sets != [] { GroupsOfSetsFrom(I, ColumnsOf(q).refs, ColumnsOf(q).exprs, q.sets, input); }
  }

  lemma {:induction false} HavingValue(I: Interp, refs: seq<int>, es: seq<Expr>, sets: seq<seq<int>>, e: Expr, cs: seq<Context>, i: nat)
    requires |refs| == |es| && NoRepeats(refs)
    requires i < |cs| && OfSets(cs, refs, sets) && SafeHaving(e, refs, sets)
    ensures Ev(I, Columns(Numbers(|es|), es, sets != []), [], e, cs, i) == Ev(I, Columns(refs, es, sets != []), [], e, cs, i)
    decreases e
  {
    if e !in es {
      match e
      case Op(_, args) =>
        forall k | 0 <= k < |args|
          ensures Ev(I, Columns(Numbers(|es|), es, sets != []), [], args[k], cs, i)
               == Ev(I, Columns(refs, es, sets != []), [], args[k], cs, i)
        {
          HavingValue(I, refs, es, sets, args[k], cs, i);
        }
        assert EvAll(I, Columns(Numbers(|es|), es, sets != []), [], args, cs, i)
            == EvAll(I, Columns(refs, es, sets != []), [], args, cs, i);
      case Grouping(rs) => HavingBits(refs, es, sets, rs, cs[i]);
      case _ =>
    }
  }

  lemma {:induction false} HavingBits(refs: seq<int>, es: seq<Expr>, sets: seq<seq<int>>, rs: seq<int>, c: Context)
    requires |refs| == |es| && NoRepeats(refs)
    requires c.Group? && InSets(c.present, refs, sets) && SafeRefs(rs, refs, sets)
    ensures GroupingBits(Columns(Numbers(|es|), es, sets != []), rs, c) == GroupingBits(Columns(refs, es, sets != []), rs, c)
  {
    if sets != [] {
      var j :| 0 <= j < |sets| && c.present == Present(refs, sets[j]);
      forall k | 0 <= k < |rs|
        ensures GroupingBits(Columns(Numbers(|es|), es, true), rs, c)[k] == GroupingBits(Columns(refs, es, true), rs, c)[k]
      {
        BitIff(refs, rs[k], sets[j]);
      }
    }
  }

  lemma {:induction false} SameKept(I: Interp, q: Query, cs: seq<Context>)
    requires HavingSafe(q) && OfSets(cs, ColumnsOf(q).refs, q.sets)
    ensures
      var c := ColumnsOf(q);
      Kept(I, Columns(Numbers(|c.exprs|), c.exprs, c.sets), q.having, cs) == Kept(I, c, q.having, cs)
    decreases cs
  {
    if cs != [] {
      var c := ColumnsOf(q);
      forall k | 0 <= k < |q.having|
        ensures Ev(I, Columns(Numbers(|c.exprs|), c.exprs, c.sets), [], q.having[k], cs, 0) == Ev(I, c, [], q.having[k], cs, 0)
      {
        HavingValue(I, c.refs, c.exprs, q.sets, q.having[k], cs, 0);
      }
      assert EvAll(I, Columns(Numbers(|c.exprs|), c.exprs, c.sets), [], q.having, cs, 0) == EvAll(I, c, [], q.having, cs, 0);
      SameKept(I, q, cs[1..]);
    }
  }

  // ----- the outer query -----

  lemma {:induction false} KeptAll(I: Interp, cols: Columns, cs: seq<Context>)
    ensures Kept(I, cols, [], cs) == cs
    decreases cs
  {
    if cs != [] { KeptAll(I, cols, cs[1..]); }
  }

  // The subquery's rows as the outer query's input.
  function Bindings(rows: seq<Row>): (r: seq<Binding>)
    ensures |r| == |rows| && forall i :: 0 <= i < |rows| ==> r[i] == [rows[i]]
  {
    seq(|rows|, i requires 0 <= i < |rows| => [rows[i]])
  }

  // The outer query reads expressions `now` where the original reads `was`.
  predicate Rewritten(s: Scene, w: seq<Panes>, now: seq<Expr>, was: seq<Expr>) {
    |now| == |was| && forall j :: 0 <= j < |s.cs| ==> SameValues(s, w, now, was, j)
  }

  lemma {:induction false} RewrittenRows(s: Scene, w: seq<Panes>, now: seq<Expr>, was: seq<Expr>)
    requires Rewritten(s, w, now, was)
    ensures EvRows(s.I, NO_COLUMNS, w, now, Above(s)) == EvRows(s.I, Was(s), w, was, s.cs)
  {
    forall j | 0 <= j < |s.cs|
      ensures EvAll(s.I, NO_COLUMNS, w, now, Above(s), j) == EvAll(s.I, Was(s), w, was, s.cs, j)
    {
      SameRow(s, w, now, was, j);
    }
  }

  lemma {:induction false} MutateAllRewritten(s: Scene, w: seq<Panes>, xs: seq<Expr>, sub: seq<Target>)
    requires Fits(s) && Lower(sub, s.es) && MutateAll(xs, sub, SgrMap(s.refs)).Done?
    requires MutateAll(xs, sub, SgrMap(s.refs)).sub <= s.sub
    ensures Rewritten(s, w, MutateAll(xs, sub, SgrMap(s.refs)).value, xs)
  {
    forall j | 0 <= j < |s.cs| ensures SameValues(s, w, MutateAll(xs, sub, SgrMap(s.refs)).value, xs, j) {
      MutateAllValue(s, w, xs, sub, j);
    }
  }

  // Sort-group references of the outer query name the rewritten expressions.
  lemma {:induction false} RewrittenRefs(s: Scene, tl: seq<Target>, now: seq<Expr>, refs: seq<int>)
    requires Rewritten(s, [], now, Exprs(tl)) && forall k :: 0 <= k < |refs| ==> refs[k] in Refs(tl)
    ensures Rewritten(s, [], RefExprs(WithExprs(tl, now), refs), RefExprs(tl, refs))
  {
    assert Refs(WithExprs(tl, now)) == Refs(tl);
    var new_, old_ := RefExprs(WithExprs(tl, now), refs), RefExprs(tl, refs);
    forall j | 0 <= j < |s.cs| ensures SameValues(s, [], new_, old_, j) {
      assert SameValues(s, [], now, Exprs(tl), j);
      forall k | 0 <= k < |refs|
        ensures Ev(s.I, NO_COLUMNS, [], new_[k], Above(s), j) == Ev(s.I, Was(s), [], old_[k], s.cs, j)
      {
        var i := IndexOf(Refs(tl), refs[k]);
        assert Exprs(tl)[i] == tl[i].expr;
      }
    }
  }

  lemma {:induction false} SamePanes(s: Scene, tl: seq<Target>, now: seq<Expr>, w: Window, start: Expr, end: Expr)
    requires Rewritten(s, [], now, Exprs(tl)) && Rewritten(s, [], [start, end], [w.start, w.end])
    requires forall k :: 0 <= k < |w.partition| ==> w.partition[k] in Refs(tl)
    requires forall k :: 0 <= k < |w.order| ==> w.order[k] in Refs(tl)
    ensures PanesOf(s.I, NO_COLUMNS, WithExprs(tl, now), Window(w.partition, w.order, start, end), Above(s))
         == PanesOf(s.I, Was(s), tl, w, s.cs)
  {
    RewrittenRefs(s, tl, now, w.partition);
    RewrittenRows(s, [], RefExprs(WithExprs(tl, now), w.partition), RefExprs(tl, w.partition));
    RewrittenRefs(s, tl, now, w.order);
    RewrittenRows(s, [], RefExprs(WithExprs(tl, now), w.order), RefExprs(tl, w.order));
    RewrittenRows(s, [], [start, end], [w.start, w.end]);
  }

  lemma {:induction false} PairRewritten(s: Scene, now: seq<Expr>, was: seq<Expr>, a: nat, b: nat)
    requires Rewritten(s, [], now, was) && a < |was| && b < |was|
    ensures Rewritten(s, [], [now[a], now[b]], [was[a], was[b]])
  {
    var new_, old_ := [now[a], now[b]], [was[a], was[b]];
    forall j | 0 <= j < |s.cs| ensures SameValues(s, [], new_, old_, j) {
      assert SameValues(s, [], now, was, j);
    }
  }

  lemma {:induction false} SameAllPanes(s: Scene, tl: seq<Target>, now: seq<Expr>, ws: seq<Window>, offsets: seq<Expr>)
    requires Rewritten(s, [], now, Exprs(tl)) && Rewritten(s, [], offsets, Offsets(ws))
    requires forall k, j :: 0 <= k < |ws| && 0 <= j < |ws[k].partition| ==> ws[k].partition[j] in Refs(tl)
    requires forall k, j :: 0 <= k < |ws| && 0 <= j < |ws[k].order| ==> ws[k].order[j] in Refs(tl)
    ensures AllPanes(s.I, NO_COLUMNS, WithExprs(tl, now), WithOffsets(ws, offsets), Above(s))
         == AllPanes(s.I, Was(s), tl, ws, s.cs)
  {
    forall k | 0 <= k < |ws|
      ensures PanesOf(s.I, NO_COLUMNS, WithExprs(tl, now), WithOffsets(ws, offsets)[k], Above(s))
           == PanesOf(s.I, Was(s), tl, ws[k], s.cs)
    {
      PairRewritten(s, offsets, Offsets(ws), 2 * k, 2 * k + 1);
      SamePanes(s, tl, now, ws[k], offsets[2 * k], offsets[2 * k + 1]);
    }
  }

  // The groups of `q` that pass HAVING, with the subquery's final list.
  function SceneOf(I: Interp, q: Query, input: seq<Binding>, sub: seq<Target>): Scene {
    var c := ColumnsOf(q);
    Scene(I, c.refs, c.exprs, c.sets, Kept(I, c, q.having, Contexts(I, q, input)), sub)
  }

  lemma {:induction false} SceneFits(I: Interp, q: Query, input: seq<Binding>, sub: seq<Target>)
    requires Wf(q) && Lower(sub, ColumnsOf(q).exprs)
    ensures Fits(SceneOf(I, q, input, sub))
  {
    var s, refs := SceneOf(I, q, input, sub), ColumnsOf(q).refs;
    ContextsFrom(I, q, input);
    forall i | 0 <= i < |refs| ensures refs[i] > 0 {
      assert refs[i] in q.group;
    }
    forall i | 0 <= i < |s.cs| ensures s.cs[i].Group? && |s.cs[i].present| == |s.es| {
      var j :| 0 <= j < |Contexts(I, q, input)| && Contexts(I, q, input)[j] == s.cs[i];
    }
  }

  lemma {:induction false} WindowlessRows(I: Interp, q: Query, input: seq<Binding>, cols: Columns)
    requires q.windows == [] && ColumnsOf(q) == cols
    ensures GroupedRows(I, q, input) == EvRows(I, cols, [], Exprs(q.tlist), Kept(I, cols, q.having, Contexts(I, q, input)))
  {
    var cs := Kept(I, cols, q.having, Contexts(I, q, input));
    assert AllPanes(I, cols, q.tlist, q.windows, cs) == [];
  }

  lemma {:induction false} SubGroupedRows(I: Interp, q: Query, input: seq<Binding>, sub: seq<Target>)
    requires Wf(q) && SetsInRange(q) && HavingSafe(q) && Lower(sub, ColumnsOf(q).exprs)
    ensures
      var s := SceneOf(I, q, input, sub);
      GroupedRows(I, SubQuery(q, sub), input) == EvRows(I, Now(s), [], Exprs(sub), s.cs)
  {
    var q', s := SubQuery(q, sub), SceneOf(I, q, input, sub);
    SubColumns(q, sub);
    WindowlessRows(I, q', input, Now(s));
    SameContexts(I, q, sub, input);
    assert s.cs == Kept(I, Now(s), q'.having, Contexts(I, q', input)) by {
      ContextsFrom(I, q, input);
      SameKept(I, q, Contexts(I, q, input));
    }
  }

  // The subquery returns, group by group, the rows the outer expressions are evaluated on.
  lemma {:induction false} SubContexts(s: Scene)
    ensures PlainContexts(Bindings(EvRows(s.I, Now(s), [], Exprs(s.sub), s.cs))) == Above(s)
  {
    var rows := EvRows(s.I, Now(s), [], Exprs(s.sub), s.cs);
    forall i | 0 <= i < |s.cs| ensures PlainContexts(Bindings(rows))[i] == Above(s)[i] {
      assert rows[i] == SubRow(s, i);
    }
  }

  lemma {:induction false} Lists(q: Query)
    requires Transform(q).Split?
    ensures
      var es := ColumnsOf(q).exprs;
      && Lower(GroupTargets(es), es) && Lower(Targets(q).sub, es) && Lower(WindowOffsets(q).sub, es)
      && GroupTargets(es) <= Targets(q).sub <= WindowOffsets(q).sub
  {
    var es, m := ColumnsOf(q).exprs, SgrMap(ColumnsOf(q).refs);
    MutateAllGrows(Exprs(q.tlist), GroupTargets(es), m, es);
    MutateAllGrows(Offsets(q.windows), Targets(q).sub, m, es);
  }

  lemma {:induction false} OuterRows(s: Scene, tl: seq<Target>, ws: seq<Window>, targets: Result<seq<Expr>>, offsets: Result<seq<Expr>>)
    requires targets.Done? && offsets.Done?
    requires Fits(s) && Lower(targets.sub, s.es) && targets.sub <= offsets.sub == s.sub
    requires targets == MutateAll(Exprs(tl), GroupTargets(s.es), SgrMap(s.refs))
    requires offsets == MutateAll(Offsets(ws), targets.sub, SgrMap(s.refs))
    requires forall k, j :: 0 <= k < |ws| && 0 <= j < |ws[k].partition| ==> ws[k].partition[j] in Refs(tl)
    requires forall k, j :: 0 <= k < |ws| && 0 <= j < |ws[k].order| ==> ws[k].order[j] in Refs(tl)
    ensures EvRows(s.I, NO_COLUMNS,
                   AllPanes(s.I, NO_COLUMNS, WithExprs(tl, targets.value), WithOffsets(ws, offsets.value), Above(s)),
                   targets.value, Above(s))
         == EvRows(s.I, Was(s), AllPanes(s.I, Was(s), tl, ws, s.cs), Exprs(tl), s.cs)
  {
    MutateAllRewritten(s, [], Exprs(tl), GroupTargets(s.es));
    MutateAllRewritten(s, [], Offsets(ws), targets.sub);
    SameAllPanes(s, tl, targets.value, ws, offsets.value);
    var w := AllPanes(s.I, Was(s), tl, ws, s.cs);
    MutateAllRewritten(s, w, Exprs(tl), GroupTargets(s.es));
    RewrittenRows(s, w, targets.value, Exprs(tl));
  }

  lemma {:induction false} OuterPlainRows(s: Scene, outer: Query, rows: seq<Row>)
    requires outer.having == [] && PlainContexts(Bindings(rows)) == Above(s)
    ensures PlainRows(s.I, outer, Bindings(rows))
         == EvRows(s.I, NO_COLUMNS, AllPanes(s.I, NO_COLUMNS, outer.tlist, outer.windows, Above(s)), Exprs(outer.tlist), Above(s))
  {
    KeptAll(s.I, NO_COLUMNS, Above(s));
  }

  lemma {:induction false} SubAsInput(I: Interp, q: Query, input: seq<Binding>, sub: seq<Target>)
    requires Wf(q) && SetsInRange(q) && HavingSafe(q) && Lower(sub, ColumnsOf(q).exprs)
    ensures PlainContexts(Bindings(GroupedRows(I, SubQuery(q, sub), input))) == Above(SceneOf(I, q, input, sub))
  {
    SubGroupedRows(I, q, input, sub);
    SubContexts(SceneOf(I, q, input, sub));
  }

  lemma {:induction false} OuterSide(s: Scene, q: Query, targets: seq<Expr>, offsets: seq<Expr>, rows: seq<Row>)
    requires |targets| == |q.tlist| && |offsets| == 2 * |q.windows| && PlainContexts(Bindings(rows)) == Above(s)
    ensures PlainRows(s.I, OuterQuery(q, targets, offsets), Bindings(rows))
         == EvRows(s.I, NO_COLUMNS,
                   AllPanes(s.I, NO_COLUMNS, WithExprs(q.tlist, targets), WithOffsets(q.windows, offsets), Above(s)),
                   targets, Above(s))
  {
    var outer := OuterQuery(q, targets, offsets);
    OuterPlainRows(s, outer, rows);
    assert Exprs(outer.tlist) == targets;
  }

  lemma {:induction false} OriginalSide(I: Interp, q: Query, input: seq<Binding>, sub: seq<Target>)
    ensures
      var s := SceneOf(I, q, input, sub);
      GroupedRows(I, q, input) == EvRows(I, Was(s), AllPanes(I, Was(s), q.tlist, q.windows, s.cs), Exprs(q.tlist), s.cs)
  {
  }

  lemma {:induction false} SplitKeepsRows(I: Interp, q: Query, input: seq<Binding>, targets: Result<seq<Expr>>, offsets: Result<seq<Expr>>)
    requires Wf(q) && SetsInRange(q) && HavingSafe(q)
    requires targets == Targets(q) && targets.Done? && offsets == WindowOffsets(q) && offsets.Done?
    requires Lower(targets.sub, ColumnsOf(q).exprs) && Lower(offsets.sub, ColumnsOf(q).exprs) && targets.sub <= offsets.sub
    ensures
      var outer, sub := OuterQuery(q, targets.value, offsets.value), SubQuery(q, offsets.sub);
      PlainRows(I, outer, Bindings(GroupedRows(I, sub, input))) == GroupedRows(I, q, input)
  {
    var s := SceneOf(I, q, input, offsets.sub);
    SubAsInput(I, q, input, offsets.sub);
    OuterSide(s, q, targets.value, offsets.value, GroupedRows(I, SubQuery(q, offsets.sub), input));
    OriginalSide(I, q, input, offsets.sub);
    SceneFits(I, q, input, offsets.sub);
    OuterRows(s, q.tlist, q.windows, targets, offsets);
  }

  /** The outer query over the subquery returns the rows of the original, windows included. */
  lemma {:induction false} TransformKeepsRows(I: Interp, q: Query, input: seq<Binding>)
    requires Transform(q).Split? && Wf(q) && HavingSafe(q)
    ensures PlainRows(I, Transform(q).outer, Bindings(GroupedRows(I, Transform(q).sub, input))) == GroupedRows(I, q, input)
  {
    Lists(q);
    SplitKeepsRows(I, q, input, Targets(q), WindowOffsets(q));
  }
}
