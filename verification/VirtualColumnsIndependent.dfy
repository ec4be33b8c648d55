/**
  An expanded query does not depend on what is stored in virtual columns.

  Two interpretations that differ only there give the same rows, when the expansion raised
  no fallback and nothing that it leaves unexpanded read such a column.
 */
module VirtualColumnsIndependent {
  import opened Values
  import opened QueryTree
  import opened VarMap
  import opened VirtualColumns
  import opened VirtualColumnsMeaning
  import opened VirtualColumnsClean

  // ----- alike but for virtual columns -----

  ghost predicate RowAlike(virt: set<int>, r: Row, s: Row) { forall a :: a !in virt ==> At(r, a) == At(s, a) }

  ghost predicate SlotAlike(virt: set<int>, r: Slot, s: Slot) { RowAlike(virt, r.base, s.base) && RowAlike(virt, r.out, s.out) }

  ghost predicate TableAlike(virt: set<int>, t: Table, u: Table) {
    |t| == |u| && forall i :: 0 <= i < |t| ==> RowAlike(virt, t[i], u[i])
  }

  // The virtual columns of the i-th entry of a range table.
  function Virt(cat: Catalog, rs: seq<Rte>, i: nat): set<int> {
    if i < |rs| then ColumnsOf(cat, rs[i]).Keys else {}
  }

  ghost predicate Alike(cat: Catalog, rs: seq<Rte>, b: Binding, c: Binding) {
    |b| == |c| && forall i :: 0 <= i < |b| ==> SlotAlike(Virt(cat, rs, i), b[i], c[i])
  }

  ghost predicate AllAlike(cat: Catalog, rs: seq<Rte>, bs: seq<Binding>, cs: seq<Binding>) {
    |bs| == |cs| && forall i :: 0 <= i < |bs| ==> Alike(cat, rs, bs[i], cs[i])
  }

  ghost predicate GroupsAlike(cat: Catalog, rs: seq<Rte>, gs: seq<(Binding, seq<Binding>)>, hs: seq<(Binding, seq<Binding>)>) {
    |gs| == |hs| && forall i :: 0 <= i < |gs| ==> Alike(cat, rs, gs[i].0, hs[i].0) && AllAlike(cat, rs, gs[i].1, hs[i].1)
  }

  // Two interpretations of one catalog.
  datatype Two = Two(cat: Catalog, a: Interp, b: Interp)

  // They differ only in the virtual columns of stored and of stand-in rows, and their joins
  // and grouping sets treat rows alike that differ only there.
  ghost predicate SameButVirtual(w: Two) {
    && (forall fn, row :: w.a.apply(fn, row) == w.b.apply(fn, row))
    && (forall fn, rows :: w.a.agg(fn, rows) == w.b.agg(fn, rows))
    && (forall k, row, t :: w.a.link(k, row, t) == w.b.link(k, row, t))
    && (forall r :: TableAlike(w.cat.generated(r).Keys, w.a.table(r), w.b.table(r)))
    && (forall r :: RowAlike(w.cat.generated(r).Keys, w.a.phantom(r), w.b.phantom(r)))
    && (forall rs, shape, bs, cs, vals :: AllAlike(w.cat, rs, bs, cs) ==> w.a.pick(shape, bs, vals) == w.b.pick(shape, cs, vals))
    && (forall rs, sets, keys, bs, cs :: AllAlike(w.cat, rs, bs, cs) ==>
          GroupsAlike(w.cat, rs, w.a.setGroups(sets, keys, bs), w.b.setGroups(sets, keys, cs)))
  }

  ghost predicate FrameAlike(cat: Catalog, rs: seq<Rte>, f: Frame, g: Frame) {
    f.ctes == g.ctes && Alike(cat, rs, f.rows, g.rows) && AllAlike(cat, rs, f.group, g.group)
  }

  ghost predicate FramesAlike(cat: Catalog, rs: seq<Rte>, fs: seq<Frame>, gs: seq<Frame>) {
    |fs| == |gs| && forall i :: 0 <= i < |fs| ==> FrameAlike(cat, rs, fs[i], gs[i])
  }

  // The environments of both, and the range tables of the innermost queries.
  datatype View = View(rts: seq<seq<Rte>>, a: Env, b: Env)

  ghost predicate EnvAlike(cat: Catalog, v: View) {
    && |v.rts| <= |v.a| == |v.b|
    && (forall l :: 0 <= l < |v.rts| ==> FrameAlike(cat, v.rts[l], v.a[l], v.b[l]))
    && (forall l :: |v.rts| <= l < |v.a| ==> v.a[l] == v.b[l])
  }

  function Push(rs: seq<Rte>, f: Frame, g: Frame, v: View): View { View([rs] + v.rts, [f] + v.a, [g] + v.b) }

  lemma {:induction false} PushAlike(cat: Catalog, rs: seq<Rte>, f: Frame, g: Frame, v: View)
    requires EnvAlike(cat, v) && FrameAlike(cat, rs, f, g)
    ensures EnvAlike(cat, Push(rs, f, g, v))
  {
    var p := Push(rs, f, g, v);
    forall l | 0 <= l < |p.rts| ensures FrameAlike(cat, p.rts[l], p.a[l], p.b[l]) {
      if l > 0 { assert p.rts[l] == v.rts[l - 1] && p.a[l] == v.a[l - 1] && p.b[l] == v.b[l - 1]; }
    }
  }

  // ----- no Var of one of these range tables names a virtual column -----

  function OwnOf(cat: Catalog, rs: seq<Rte>): VarPred { NamesOne(Virtual(cat, rs), 0, |rs|) }

  predicate FreeExpr(cat: Catalog, e: Expr, rts: seq<seq<Rte>>) {
    forall k :: 0 <= k < |rts| ==> !AnyExpr(e, k, OwnOf(cat, rts[k]), false)
  }

  predicate FreeAll(cat: Catalog, es: seq<Expr>, rts: seq<seq<Rte>>) {
    forall k :: 0 <= k < |rts| ==> !AnyAll(es, k, OwnOf(cat, rts[k]), false)
  }

  predicate FreeTargets(cat: Catalog, tl: seq<TargetEntry>, rts: seq<seq<Rte>>) {
    forall k :: 0 <= k < |rts| ==> !AnyTargets(tl, k, OwnOf(cat, rts[k]), false)
  }

  predicate FreeRte(cat: Catalog, r: Rte, rts: seq<seq<Rte>>) {
    forall k :: 0 <= k < |rts| ==> !AnyRte(r, k, OwnOf(cat, rts[k]), false)
  }

  lemma {:induction false} FreeRteAt(cat: Catalog, rs: seq<Rte>, i: nat, rts: seq<seq<Rte>>)
    requires FreeRtes(cat, rs, rts) && i < |rs|
    ensures FreeRte(cat, rs[i], rts)
  {
    forall k | 0 <= k < |rts| ensures !AnyRte(rs[i], k, OwnOf(cat, rts[k]), false) {
      assert !AnyRtes(rs, k, OwnOf(cat, rts[k]), false);
    }
  }

  predicate FreeRtes(cat: Catalog, rs: seq<Rte>, rts: seq<seq<Rte>>) {
    forall k :: 0 <= k < |rts| ==> !AnyRtes(rs, k, OwnOf(cat, rts[k]), false)
  }

  predicate FreeCtes(cat: Catalog, cs: seq<Cte>, rts: seq<seq<Rte>>) {
    forall k :: 0 <= k < |rts| ==> !AnyCtes(cs, k, OwnOf(cat, rts[k]), false)
  }

  // A query one level below them.
  predicate FreeQuery(cat: Catalog, q: Query, rts: seq<seq<Rte>>) {
    forall k :: 0 <= k < |rts| ==> !AnyQuery(q, k + 1, OwnOf(cat, rts[k]), false)
  }

  lemma {:induction false} FreeInside(cat: Catalog, q: Query, rts: seq<seq<Rte>>)
    requires FreeQuery(cat, q, rts) && !Leaks(cat, q, true)
    ensures
      var all := [q.rtable] + rts;
      FreeTargets(cat, q.tlist, all) && FreeAll(cat, q.quals, all) && FreeAll(cat, q.having, all)
      && FreeCtes(cat, q.ctes, all) && FreeRtes(cat, q.rtable, all)
  {
    var all := [q.rtable] + rts;
    forall k | 0 <= k < |all| ensures !AnyQuery(q, k, OwnOf(cat, all[k]), false) {
      if k > 0 { assert all[k] == rts[k - 1]; }
    }
  }

  // ----- groups of bindings that are alike -----

  lemma {:induction false} MembersAlike(cat: Catalog, rs: seq<Rte>, keys: seq<Row>, bs: seq<Binding>, cs: seq<Binding>, key: Row)
    requires |keys| == |bs| && AllAlike(cat, rs, bs, cs)
    ensures AllAlike(cat, rs, Members(keys, bs, key), Members(keys, cs, key))
  {
    if keys != [] {
      assert forall i :: 0 <= i < |bs| - 1 ==> bs[1..][i] == bs[i + 1] && cs[1..][i] == cs[i + 1];
      MembersAlike(cat, rs, keys[1..], bs[1..], cs[1..], key);
    }
  }

  lemma {:induction false} GroupsFromAlike(cat: Catalog, rs: seq<Rte>, keys: seq<Row>, bs: seq<Binding>, cs: seq<Binding>, i: nat)
    requires |keys| == |bs| && i <= |bs| && AllAlike(cat, rs, bs, cs)
    ensures GroupsAlike(cat, rs, GroupsFrom(keys, bs, i), GroupsFrom(keys, cs, i))
    decreases |bs| - i
  {
    if i < |bs| {
      GroupsFromAlike(cat, rs, keys, bs, cs, i + 1);
      MembersAlike(cat, rs, keys, bs, cs, keys[i]);
    }
  }

  lemma {:induction false} GroupsOfAlike(w: Two, q: Query, keys: seq<Row>, bs: seq<Binding>, cs: seq<Binding>)
    requires SameButVirtual(w) && |keys| == |bs| && AllAlike(w.cat, q.rtable, bs, cs)
    ensures GroupsAlike(w.cat, q.rtable, GroupsOf(w.a, q, keys, bs), GroupsOf(w.b, q, keys, cs))
  {
    if q.sets == [] && q.group != [] { GroupsFromAlike(w.cat, q.rtable, keys, bs, cs, 0); }
  }

  lemma {:induction false} KeptAlike(cat: Catalog, rs: seq<Rte>, fs: seq<Frame>, gs: seq<Frame>, vs: seq<bool>)
    requires FramesAlike(cat, rs, fs, gs) && |vs| == |fs|
    ensures FramesAlike(cat, rs, Kept(fs, vs), Kept(gs, vs))
  {
    if fs != [] {
      assert forall i :: 0 <= i < |fs| - 1 ==> fs[1..][i] == fs[i + 1] && gs[1..][i] == gs[i + 1];
      KeptAlike(cat, rs, fs[1..], gs[1..], vs[1..]);
      if vs[0] { LinkedAlike(cat, rs, fs[0], gs[0], Kept(fs[1..], vs[1..]), Kept(gs[1..], vs[1..])); }
    }
  }

  lemma {:induction false} LinkedAlike(cat: Catalog, rs: seq<Rte>, f: Frame, g: Frame, fs: seq<Frame>, gs: seq<Frame>)
    requires FrameAlike(cat, rs, f, g) && FramesAlike(cat, rs, fs, gs)
    ensures FramesAlike(cat, rs, [f] + fs, [g] + gs)
  {
  }

  lemma {:induction false} PickedAlike(cat: Catalog, rs: seq<Rte>, fs: seq<Frame>, gs: seq<Frame>, at: seq<nat>)
    requires FramesAlike(cat, rs, fs, gs)
    ensures FramesAlike(cat, rs, Picked(fs, at), Picked(gs, at))
  {
    if at != [] { PickedAlike(cat, rs, fs, gs, at[1..]); }
  }

  // ----- evaluation -----

  lemma {:induction false} SameVar(w: Two, e: Expr, v: View)
    requires e.Var? && EnvAlike(w.cat, v) && FreeExpr(w.cat, e, v.rts)
    ensures Eval(w.a, e, v.a) == Eval(w.b, e, v.b)
  {
    var l, n := e.level, e.varno;
    if l < |v.rts| {
      var rs := v.rts[l];
      assert !NamesIn(Virtual(w.cat, rs), 0, |rs|, e, l);
      if 0 < n <= |v.a[l].rows| {
        assert SlotAlike(Virt(w.cat, rs, n - 1), v.a[l].rows[n - 1], v.b[l].rows[n - 1]);
        assert e.attno !in Virt(w.cat, rs, n - 1);
      }
    }
  }

  lemma {:induction false} SameExpr(w: Two, e: Expr, v: View)
    requires SameButVirtual(w) && EnvAlike(w.cat, v) && FreeExpr(w.cat, e, v.rts) && !LeaksExpr(w.cat, e)
    ensures Eval(w.a, e, v.a) == Eval(w.b, e, v.b)
    decreases e
  {
    match e
    case Const(_) =>
    case Var(_, _, _, _) => SameVar(w, e, v);
    case Op(_, args) =>
      assert FreeAll(w.cat, args, v.rts);
      SameAll(w, args, v);
    case Agg(_, args, l) =>
      assert FreeAll(w.cat, args, v.rts);
      if l < |v.a| { SameAggInputs(w, args, l, v, v.a[l].group, v.b[l].group); }
    case SubLink(_, test, sub) =>
      assert FreeAll(w.cat, test, v.rts) && FreeQuery(w.cat, sub, v.rts);
      SameAll(w, test, v);
      SameQuery(w, sub, v);
  }

  lemma {:induction false} SameAll(w: Two, es: seq<Expr>, v: View)
    requires SameButVirtual(w) && EnvAlike(w.cat, v) && FreeAll(w.cat, es, v.rts) && !LeaksAll(w.cat, es)
    ensures EvalAll(w.a, es, v.a) == EvalAll(w.b, es, v.b)
    decreases es, 0
  {
    forall i | 0 <= i < |es| ensures Eval(w.a, es[i], v.a) == Eval(w.b, es[i], v.b) {
      assert FreeExpr(w.cat, es[i], v.rts);
      SameExpr(w, es[i], v);
    }
  }

  // At a level of the innermost queries the members are alike, further out they are equal.
  ghost predicate MembersFit(cat: Catalog, v: View, l: nat, ms: seq<Binding>, ns: seq<Binding>) {
    if l < |v.rts| then AllAlike(cat, v.rts[l], ms, ns) else ms == ns
  }

  lemma {:induction false} SameAggInputs(w: Two, es: seq<Expr>, l: nat, v: View, ms: seq<Binding>, ns: seq<Binding>)
    requires SameButVirtual(w) && EnvAlike(w.cat, v) && FreeAll(w.cat, es, v.rts) && !LeaksAll(w.cat, es)
    requires l < |v.a| && MembersFit(w.cat, v, l, ms, ns)
    ensures AggInputs(w.a, es, l, v.a, ms) == AggInputs(w.b, es, l, v.b, ns)
    decreases es, 1, |ms|
  {
    if ms != [] {
      var u := View(v.rts, v.a[l := v.a[l].(rows := ms[0])], v.b[l := v.b[l].(rows := ns[0])]);
      assert EnvAlike(w.cat, u);
      SameAll(w, es, u);
      assert MembersFit(w.cat, v, l, ms[1..], ns[1..]);
      SameAggInputs(w, es, l, v, ms[1..], ns[1..]);
    }
  }

  lemma {:induction false} SameTarget(w: Two, te: TargetEntry, v: View)
    requires SameButVirtual(w) && EnvAlike(w.cat, v) && FreeExpr(w.cat, te.expr, v.rts) && !LeaksTarget(w.cat, te)
    ensures Target(w.a, te, v.a) == Target(w.b, te, v.b)
    decreases te
  {
    SameExpr(w, te.expr, v);
  }

  // The values of all entries.
  ghost predicate TargetsAgree(w: Two, tl: seq<TargetEntry>, v: View) {
    forall i :: 0 <= i < |tl| ==> Target(w.a, tl[i], v.a) == Target(w.b, tl[i], v.b)
  }

  lemma {:induction false} SameTargets(w: Two, tl: seq<TargetEntry>, v: View)
    requires SameButVirtual(w) && EnvAlike(w.cat, v) && FreeTargets(w.cat, tl, v.rts) && !LeaksTargets(w.cat, tl)
    ensures TargetsAgree(w, tl, v) && Targets(w.a, tl, v.a) == Targets(w.b, tl, v.b)
    decreases tl, 0
  {
    forall i | 0 <= i < |tl| ensures Target(w.a, tl[i], v.a) == Target(w.b, tl[i], v.b) {
      forall k | 0 <= k < |v.rts| ensures !AnyTarget(tl[i], k, OwnOf(w.cat, v.rts[k]), false) {
        assert !AnyTargets(tl, k, OwnOf(w.cat, v.rts[k]), false);
      }
      SameTarget(w, tl[i], v);
    }
  }

  lemma {:induction false} SameRefValue(w: Two, tl: seq<TargetEntry>, ref: nat, v: View)
    requires TargetsAgree(w, tl, v)
    ensures RefValue(w.a, tl, ref, v.a) == RefValue(w.b, tl, ref, v.b)
  {
    if tl != [] {
      assert TargetsAgree(w, tl[1..], v);
      SameRefValue(w, tl[1..], ref, v);
    }
  }

  lemma {:induction false} SameKey(w: Two, tl: seq<TargetEntry>, refs: seq<nat>, v: View)
    requires TargetsAgree(w, tl, v)
    ensures Key(w.a, tl, refs, v.a) == Key(w.b, tl, refs, v.b)
  {
    if refs != [] {
      SameRefValue(w, tl, refs[0], v);
      SameKey(w, tl, refs[1..], v);
    }
  }

  // ----- the stages of a query; `rs` is its range table -----

  lemma {:induction false} SameTargetRows(w: Two, rs: seq<Rte>, tl: seq<TargetEntry>, fs: seq<Frame>, gs: seq<Frame>, v: View)
    requires SameButVirtual(w) && EnvAlike(w.cat, v) && FramesAlike(w.cat, rs, fs, gs)
    requires FreeTargets(w.cat, tl, [rs] + v.rts) && !LeaksTargets(w.cat, tl)
    ensures TargetRows(w.a, tl, fs, v.a) == TargetRows(w.b, tl, gs, v.b)
    decreases tl, 1
  {
    forall i | 0 <= i < |fs| ensures Targets(w.a, tl, [fs[i]] + v.a) == Targets(w.b, tl, [gs[i]] + v.b) {
      PushAlike(w.cat, rs, fs[i], gs[i], v);
      SameTargets(w, tl, Push(rs, fs[i], gs[i], v));
    }
  }

  lemma {:induction false} SameKeys(w: Two, rs: seq<Rte>, tl: seq<TargetEntry>, refs: seq<nat>, fs: seq<Frame>, gs: seq<Frame>, v: View)
    requires SameButVirtual(w) && EnvAlike(w.cat, v) && FramesAlike(w.cat, rs, fs, gs)
    requires FreeTargets(w.cat, tl, [rs] + v.rts) && !LeaksTargets(w.cat, tl)
    ensures Keys(w.a, tl, refs, fs, v.a) == Keys(w.b, tl, refs, gs, v.b)
    decreases tl, 1
  {
    forall i | 0 <= i < |fs| ensures Key(w.a, tl, refs, [fs[i]] + v.a) == Key(w.b, tl, refs, [gs[i]] + v.b) {
      PushAlike(w.cat, rs, fs[i], gs[i], v);
      SameTargets(w, tl, Push(rs, fs[i], gs[i], v));
      SameKey(w, tl, refs, Push(rs, fs[i], gs[i], v));
    }
  }

  lemma {:induction false} SameConditions(w: Two, rs: seq<Rte>, qs: seq<Expr>, fs: seq<Frame>, gs: seq<Frame>, v: View)
    requires SameButVirtual(w) && EnvAlike(w.cat, v) && FramesAlike(w.cat, rs, fs, gs)
    requires FreeAll(w.cat, qs, [rs] + v.rts) && !LeaksAll(w.cat, qs)
    ensures Conditions(w.a, qs, fs, v.a) == Conditions(w.b, qs, gs, v.b)
    ensures Verdicts(w.a, qs, fs, v.a) == Verdicts(w.b, qs, gs, v.b)
    decreases qs, 1
  {
    forall i | 0 <= i < |fs| ensures EvalAll(w.a, qs, [fs[i]] + v.a) == EvalAll(w.b, qs, [gs[i]] + v.b) {
      PushAlike(w.cat, rs, fs[i], gs[i], v);
      SameAll(w, qs, Push(rs, fs[i], gs[i], v));
    }
    forall i | 0 <= i < |fs| ensures Verdict(w.a, qs, [fs[i]] + v.a) == Verdict(w.b, qs, [gs[i]] + v.b) {}
  }

  lemma {:induction false} FilterAlike(w: Two, rs: seq<Rte>, qs: seq<Expr>, fs: seq<Frame>, gs: seq<Frame>, v: View)
    requires SameButVirtual(w) && EnvAlike(w.cat, v) && FramesAlike(w.cat, rs, fs, gs)
    requires FreeAll(w.cat, qs, [rs] + v.rts) && !LeaksAll(w.cat, qs)
    ensures FramesAlike(w.cat, rs, Filter(w.a, qs, fs, v.a), Filter(w.b, qs, gs, v.b))
    decreases qs, 2
  {
    SameConditions(w, rs, qs, fs, gs, v);
    KeptAlike(w.cat, rs, fs, gs, Verdicts(w.a, qs, fs, v.a));
  }

  lemma {:induction false} ChosenAlike(w: Two, rs: seq<Rte>, join: Join, qs: seq<Expr>, fs: seq<Frame>, gs: seq<Frame>, v: View)
    requires SameButVirtual(w) && EnvAlike(w.cat, v) && FramesAlike(w.cat, rs, fs, gs)
    requires FreeAll(w.cat, qs, [rs] + v.rts) && !LeaksAll(w.cat, qs)
    ensures FramesAlike(w.cat, rs, Chosen(w.a, join, qs, fs, v.a), Chosen(w.b, join, qs, gs, v.b))
    decreases qs, 3
  {
    match join
    case Inner => FilterAlike(w, rs, qs, fs, gs, v);
    case Outer(shape) =>
      SameConditions(w, rs, qs, fs, gs, v);
      var vals := Conditions(w.a, qs, fs, v.a);
      assert AllAlike(w.cat, rs, Bindings(fs), Bindings(gs));
      PickedAlike(w.cat, rs, fs, gs, w.a.pick(shape, Bindings(fs), vals));
  }

  lemma {:induction false} SourceAlike(w: Two, r: Rte, v: View)
    requires SameButVirtual(w) && EnvAlike(w.cat, v) && !LeaksRte(w.cat, r, true) && FreeRte(w.cat, r, v.rts)
    ensures TableAlike(ColumnsOf(w.cat, r).Keys, Source(w.a, r, v.a), Source(w.b, r, v.b))
    decreases r, 0
  {
    if r.Derived? {
      assert FreeQuery(w.cat, r.sub, v.rts);
      SameQuery(w, r.sub, v);
    }
  }

  lemma {:induction false} EachAlike(w: Two, rs: seq<Rte>, i: nat, outer: bool, b: Binding, c: Binding, t: Table, u: Table)
    requires SameButVirtual(w) && i < |rs| && |b| == i && Alike(w.cat, rs, b, c) && TableAlike(ColumnsOf(w.cat, rs[i]).Keys, t, u)
    ensures AllAlike(w.cat, rs, Each(b, Slots(w.a, rs[i], t, outer)), Each(c, Slots(w.b, rs[i], u, outer)))
  {
    var ss, tt := Slots(w.a, rs[i], t, outer), Slots(w.b, rs[i], u, outer);
    forall k | 0 <= k < |ss| ensures Alike(w.cat, rs, Each(b, ss)[k], Each(c, tt)[k]) {
      assert SlotAlike(Virt(w.cat, rs, i), ss[k], tt[k]);
      forall j | 0 <= j < |b + [ss[k]]| ensures SlotAlike(Virt(w.cat, rs, j), (b + [ss[k]])[j], (c + [tt[k]])[j]) {
        if j < i { assert (b + [ss[k]])[j] == b[j] && (c + [tt[k]])[j] == c[j]; }
      }
    }
  }

  // Combinations of the first n entries.
  ghost predicate WideAlike(cat: Catalog, rs: seq<Rte>, n: nat, bs: seq<Binding>, cs: seq<Binding>) {
    AllAlike(cat, rs, bs, cs) && forall k :: 0 <= k < |bs| ==> |bs[k]| == n
  }

  lemma {:induction false} WideConcat(cat: Catalog, rs: seq<Rte>, n: nat, bs: seq<Binding>, cs: seq<Binding>, ds: seq<Binding>, es: seq<Binding>)
    requires WideAlike(cat, rs, n, bs, cs) && WideAlike(cat, rs, n, ds, es)
    ensures WideAlike(cat, rs, n, bs + ds, cs + es)
  {
    forall k | 0 <= k < |bs + ds| ensures Alike(cat, rs, (bs + ds)[k], (cs + es)[k]) && |(bs + ds)[k]| == n {
      if k >= |bs| { assert (bs + ds)[k] == ds[k - |bs|] && (cs + es)[k] == es[k - |bs|]; }
    }
  }

  lemma {:induction false} WideTail(cat: Catalog, rs: seq<Rte>, n: nat, bs: seq<Binding>, cs: seq<Binding>)
    requires WideAlike(cat, rs, n, bs, cs) && bs != []
    ensures WideAlike(cat, rs, n, bs[1..], cs[1..])
  {
    forall k | 0 <= k < |bs| - 1 ensures Alike(cat, rs, bs[1..][k], cs[1..][k]) { assert Alike(cat, rs, bs[k + 1], cs[k + 1]); }
  }

  // One combination continued with the i-th entry of the range table.
  lemma {:induction false} ContinueAlike(w: Two, rs: seq<Rte>, i: nat, outer: bool, b: Binding, c: Binding, ctes: map<nat, Table>, v: View)
    requires SameButVirtual(w) && EnvAlike(w.cat, v) && i < |rs| && !LeaksRte(w.cat, rs[i], true)
    requires FreeRtes(w.cat, rs, [rs] + v.rts) && |b| == i && Alike(w.cat, rs, b, c)
    ensures
      var t, u := Source(w.a, rs[i], [Frame(ctes, b, [])] + v.a), Source(w.b, rs[i], [Frame(ctes, c, [])] + v.b);
      WideAlike(w.cat, rs, i + 1, Each(b, Slots(w.a, rs[i], t, outer)), Each(c, Slots(w.b, rs[i], u, outer)))
    decreases rs[i], 1
  {
    var f, g := Frame(ctes, b, []), Frame(ctes, c, []);
    PushAlike(w.cat, rs, f, g, v);
    var p := Push(rs, f, g, v);
    FreeRteAt(w.cat, rs, i, p.rts);
    SourceAlike(w, rs[i], p);
    EachAlike(w, rs, i, outer, b, c, Source(w.a, rs[i], p.a), Source(w.b, rs[i], p.b));
  }

  lemma {:induction false} ExtendAlike(w: Two, rs: seq<Rte>, i: nat, outer: bool, bs: seq<Binding>, cs: seq<Binding>, ctes: map<nat, Table>, v: View)
    requires SameButVirtual(w) && EnvAlike(w.cat, v) && i < |rs| && !LeaksRte(w.cat, rs[i], true)
    requires FreeRtes(w.cat, rs, [rs] + v.rts) && WideAlike(w.cat, rs, i, bs, cs)
    ensures WideAlike(w.cat, rs, i + 1, Extend(w.a, rs[i], outer, bs, ctes, v.a), Extend(w.b, rs[i], outer, cs, ctes, v.b))
    decreases rs[i], 2, |bs|
  {
    if bs != [] {
      var r := rs[i];
      ContinueAlike(w, rs, i, outer, bs[0], cs[0], ctes, v);
      WideTail(w.cat, rs, i, bs, cs);
      ExtendAlike(w, rs, i, outer, bs[1..], cs[1..], ctes, v);
      WideConcat(w.cat, rs, i + 1, Each(bs[0], Slots(w.a, r, Source(w.a, r, [Frame(ctes, bs[0], [])] + v.a), outer)),
                 Each(cs[0], Slots(w.b, r, Source(w.b, r, [Frame(ctes, cs[0], [])] + v.b), outer)),
                 Extend(w.a, r, outer, bs[1..], ctes, v.a), Extend(w.b, r, outer, cs[1..], ctes, v.b));
    }
  }

  lemma {:induction false} ProductAlike(w: Two, rs: seq<Rte>, n: nat, outer: bool, ctes: map<nat, Table>, v: View)
    requires SameButVirtual(w) && EnvAlike(w.cat, v) && n <= |rs| && !LeaksRtes(w.cat, rs, true)
    requires FreeRtes(w.cat, rs, [rs] + v.rts)
    ensures WideAlike(w.cat, rs, n, Product(w.a, rs[..n], outer, ctes, v.a), Product(w.b, rs[..n], outer, ctes, v.b))
    decreases rs, n
  {
    if n > 0 {
      assert rs[..n][..n - 1] == rs[..n - 1];
      ProductAlike(w, rs, n - 1, outer, ctes, v);
      assert !LeaksRte(w.cat, rs[n - 1], true);
      ExtendAlike(w, rs, n - 1, outer, Product(w.a, rs[..n - 1], outer, ctes, v.a), Product(w.b, rs[..n - 1], outer, ctes, v.b), ctes, v);
    }
  }

  lemma {:induction false} SameCteTable(w: Two, c: Cte, v: View)
    requires SameButVirtual(w) && EnvAlike(w.cat, v) && !LeaksCte(w.cat, c, true) && FreeQuery(w.cat, c.body, v.rts)
    ensures CteTable(w.a, c, v.a) == CteTable(w.b, c, v.b)
    decreases c
  {
    SameQuery(w, c.body, v);
  }

  lemma {:induction false} SameCteTables(w: Two, rs: seq<Rte>, cs: seq<Cte>, n: nat, v: View)
    requires SameButVirtual(w) && EnvAlike(w.cat, v) && n <= |cs| && !LeaksCtes(w.cat, cs, true)
    requires FreeCtes(w.cat, cs, [rs] + v.rts)
    ensures CteTables(w.a, cs[..n], v.a) == CteTables(w.b, cs[..n], v.b)
    decreases cs, n
  {
    if n > 0 {
      assert cs[..n][..n - 1] == cs[..n - 1];
      SameCteTables(w, rs, cs, n - 1, v);
      var f := Frame(CteTables(w.a, cs[..n - 1], v.a), [], []);
      PushAlike(w.cat, rs, f, f, v);
      var p := Push(rs, f, f, v);
      forall k | 0 <= k < |p.rts| ensures !AnyQuery(cs[n - 1].body, k + 1, OwnOf(w.cat, p.rts[k]), false) {
        assert !AnyCtes(cs, k, OwnOf(w.cat, p.rts[k]), false);
        assert !AnyCte(cs[n - 1], k, OwnOf(w.cat, p.rts[k]), false);
      }
      assert !LeaksCte(w.cat, cs[n - 1], true);
      SameCteTable(w, cs[n - 1], p);
    }
  }

  lemma {:induction false} SelectedAlike(w: Two, q: Query, ctes: map<nat, Table>, v: View)
    requires SameButVirtual(w) && EnvAlike(w.cat, v) && !Leaks(w.cat, q, true) && FreeQuery(w.cat, q, v.rts)
    ensures FramesAlike(w.cat, q.rtable, Selected(w.a, q, ctes, v.a), Selected(w.b, q, ctes, v.b))
    decreases q, 0
  {
    var rs := q.rtable;
    FreeInside(w.cat, q, v.rts);
    ProductAlike(w, rs, |rs|, q.join.Outer?, ctes, v);
    assert rs[..|rs|] == rs;
    ChosenAlike(w, rs, q.join, q.quals, Combined(w.a, q, ctes, v.a), Combined(w.b, q, ctes, v.b), v);
  }

  lemma {:induction false} ProjectedAlike(w: Two, q: Query, ctes: map<nat, Table>, v: View)
    requires SameButVirtual(w) && EnvAlike(w.cat, v) && !Leaks(w.cat, q, true) && FreeQuery(w.cat, q, v.rts)
    ensures FramesAlike(w.cat, q.rtable, Projected(w.a, q, ctes, v.a), Projected(w.b, q, ctes, v.b))
    decreases q, 1
  {
    SelectedAlike(w, q, ctes, v);
    if q.grouped {
      var rs, fs, gs := q.rtable, Selected(w.a, q, ctes, v.a), Selected(w.b, q, ctes, v.b);
      FreeInside(w.cat, q, v.rts);
      SameKeys(w, rs, q.tlist, q.group, fs, gs, v);
      var keys := Keys(w.a, q.tlist, q.group, fs, v.a);
      assert AllAlike(w.cat, rs, Bindings(fs), Bindings(gs));
      GroupsOfAlike(w, q, keys, Bindings(fs), Bindings(gs));
      var a, b := FramesOf(ctes, GroupsOf(w.a, q, keys, Bindings(fs))), FramesOf(ctes, GroupsOf(w.b, q, keys, Bindings(gs)));
      assert FramesAlike(w.cat, rs, a, b);
      FilterAlike(w, rs, q.having, a, b, v);
    }
  }

  /** A query that never names a virtual column of its own or of an enclosing query has the same rows. */
  lemma {:induction false} SameQuery(w: Two, q: Query, v: View)
    requires SameButVirtual(w) && EnvAlike(w.cat, v) && !Leaks(w.cat, q, true) && FreeQuery(w.cat, q, v.rts)
    ensures Rows(w.a, q, v.a) == Rows(w.b, q, v.b)
    decreases q, 2
  {
    FreeInside(w.cat, q, v.rts);
    SameCteTables(w, q.rtable, q.ctes, |q.ctes|, v);
    assert q.ctes[..|q.ctes|] == q.ctes;
    var ctes := CteTables(w.a, q.ctes, v.a);
    ProjectedAlike(w, q, ctes, v);
    SameTargetRows(w, q.rtable, q.tlist, Projected(w.a, q, ctes, v.a), Projected(w.b, q, ctes, v.b), v);
  }

  /** Without a fallback, and if no subquery of an expression and no query with grouping sets
      referenced a virtual column of its own, the rows of the expanded query do not depend on
      what the virtual columns hold. */
  lemma {:induction false} ExpandedIsIndependent(w: Two, q: Query, env: Env)
    requires ValidCatalog(w.cat) && SameButVirtual(w) && !Expand(w.cat, q).1 && !Leaks(w.cat, q, false)
    ensures Rows(w.a, Expand(w.cat, q).0, env) == Rows(w.b, Expand(w.cat, q).0, env)
  {
    ExpandPureIff(w.cat, q);
    SameQuery(w, Expand(w.cat, q).0, View([], env, env));
  }

  /** So the expansion computes what the stored rows of one interpretation and the generation
      expressions say, whatever another one stores in the virtual columns. */
  lemma {:induction false} ExpandedMeansGenerated(w: Two, q: Query, env: Env)
    requires ValidCatalog(w.cat) && SameButVirtual(w) && !Expand(w.cat, q).1 && !Leaks(w.cat, q, false)
    requires Consistent(w.b, w.cat) && DeepScoped(q)
    ensures Rows(w.a, Expand(w.cat, q).0, env) == Rows(w.b, q, env)
  {
    ExpandedIsIndependent(w, q, env);
    ExpandKeepsRows(w.b, w.cat, q, env);
  }
}
