/**
  Replacing Vars throughout a query tree, and looking for Vars in it. `d` is the number
  of query levels entered, so a Var of level `d` belongs to the outermost query.
 */
module VarMap {
  import opened QueryTree

  type VarFn = (Expr, nat) -> Expr
  type VarPred = (Expr, nat) -> bool

  // ----- replace every Var `v` at depth `d` by f(v, d) -----

  function MapExpr(e: Expr, d: nat, f: VarFn): Expr
    decreases e
  {
    match e
    case Const(_) => e
    case Var(_, _, _, _) => f(e, d)
    case Op(fn, args) => Op(fn, MapAll(args, d, f))
    case Agg(fn, args, l) => Agg(fn, MapAll(args, d, f), l)
    case SubLink(k, test, sub) => SubLink(k, MapAll(test, d, f), MapQuery(sub, d + 1, f))
  }

  function MapAll(es: seq<Expr>, d: nat, f: VarFn): (r: seq<Expr>)
    ensures |r| == |es| && forall i :: 0 <= i < |es| ==> r[i] == MapExpr(es[i], d, f)
    decreases es
  {
    if es == [] then [] else [MapExpr(es[0], d, f)] + MapAll(es[1..], d, f)
  }

  function MapTarget(te: TargetEntry, d: nat, f: VarFn): TargetEntry
    decreases te
  {
    te.(expr := MapExpr(te.expr, d, f))
  }

  function MapTargets(tl: seq<TargetEntry>, d: nat, f: VarFn): (r: seq<TargetEntry>)
    ensures |r| == |tl| && forall i :: 0 <= i < |tl| ==> r[i] == MapTarget(tl[i], d, f)
    decreases tl
  {
    if tl == [] then [] else [MapTarget(tl[0], d, f)] + MapTargets(tl[1..], d, f)
  }

  function MapRte(r: Rte, d: nat, f: VarFn): Rte
    decreases r
  {
    if r.Derived? then Derived(MapQuery(r.sub, d + 1, f)) else r
  }

  function MapRtes(rs: seq<Rte>, d: nat, f: VarFn): (r: seq<Rte>)
    ensures |r| == |rs| && forall i :: 0 <= i < |rs| ==> r[i] == MapRte(rs[i], d, f)
    decreases rs
  {
    if rs == [] then [] else [MapRte(rs[0], d, f)] + MapRtes(rs[1..], d, f)
  }

  function MapCte(c: Cte, d: nat, f: VarFn): Cte
    decreases c
  {
    c.(body := MapQuery(c.body, d + 1, f))
  }

  function MapCtes(cs: seq<Cte>, d: nat, f: VarFn): (r: seq<Cte>)
    ensures |r| == |cs| && forall i :: 0 <= i < |cs| ==> r[i] == MapCte(cs[i], d, f)
    decreases cs
  {
    if cs == [] then [] else MapCtes(cs[..|cs| - 1], d, f) + [MapCte(cs[|cs| - 1], d, f)]
  }

  function MapQuery(q: Query, d: nat, f: VarFn): Query
    decreases q
  {
    q.(ctes := MapCtes(q.ctes, d, f), rtable := MapRtes(q.rtable, d, f), quals := MapAll(q.quals, d, f),
       tlist := MapTargets(q.tlist, d, f), having := MapAll(q.having, d, f))
  }

  // ----- some Var satisfies p; with `bare`, not counting arguments of aggregates of level `d` -----

  predicate AnyExpr(e: Expr, d: nat, p: VarPred, bare: bool)
    decreases e
  {
    match e
    case Const(_) => false
    case Var(_, _, _, _) => p(e, d)
    case Op(_, args) => AnyAll(args, d, p, bare)
    case Agg(_, args, l) => !(bare && l == d) && AnyAll(args, d, p, bare)
    case SubLink(_, test, sub) => AnyAll(test, d, p, bare) || AnyQuery(sub, d + 1, p, bare)
  }

  predicate AnyAll(es: seq<Expr>, d: nat, p: VarPred, bare: bool)
    decreases es
  {
    exists i :: 0 <= i < |es| && AnyExpr(es[i], d, p, bare)
  }

  predicate AnyTarget(te: TargetEntry, d: nat, p: VarPred, bare: bool)
    decreases te
  {
    AnyExpr(te.expr, d, p, bare)
  }

  predicate AnyTargets(tl: seq<TargetEntry>, d: nat, p: VarPred, bare: bool)
    decreases tl
  {
    exists i :: 0 <= i < |tl| && AnyTarget(tl[i], d, p, bare)
  }

  predicate AnyRte(r: Rte, d: nat, p: VarPred, bare: bool)
    decreases r
  {
    r.Derived? && AnyQuery(r.sub, d + 1, p, bare)
  }

  predicate AnyRtes(rs: seq<Rte>, d: nat, p: VarPred, bare: bool)
    decreases rs
  {
    exists i :: 0 <= i < |rs| && AnyRte(rs[i], d, p, bare)
  }

  predicate AnyCte(c: Cte, d: nat, p: VarPred, bare: bool)
    decreases c
  {
    AnyQuery(c.body, d + 1, p, bare)
  }

  predicate AnyCtes(cs: seq<Cte>, d: nat, p: VarPred, bare: bool)
    decreases cs
  {
    exists i :: 0 <= i < |cs| && AnyCte(cs[i], d, p, bare)
  }

  predicate AnyQuery(q: Query, d: nat, p: VarPred, bare: bool)
    decreases q
  {
    || AnyTargets(q.tlist, d, p, bare) || AnyAll(q.quals, d, p, bare) || AnyAll(q.having, d, p, bare)
    || AnyCtes(q.ctes, d, p, bare) || AnyRtes(q.rtable, d, p, bare)
  }

  // ----- the search finds exactly the Vars that a replacement meets -----

  // f changes the Vars that satisfy p, and no others.
  ghost predicate ChangesOnly(f: VarFn, p: VarPred) {
    forall v: Expr, d: nat :: v.Var? ==> (f(v, d) == v <==> !p(v, d))
  }

  lemma {:induction false} SameExprIff(e: Expr, d: nat, f: VarFn, p: VarPred)
    requires ChangesOnly(f, p)
    ensures MapExpr(e, d, f) == e <==> !AnyExpr(e, d, p, false)
    decreases e
  {
    match e
    case Const(_) =>
    case Var(_, _, _, _) =>
    case Op(_, args) => SameAllIff(args, d, f, p);
    case Agg(_, args, _) => SameAllIff(args, d, f, p);
    case SubLink(_, test, sub) =>
      SameAllIff(test, d, f, p);
      SameQueryIff(sub, d + 1, f, p);
  }

  lemma {:induction false} SameAllIff(es: seq<Expr>, d: nat, f: VarFn, p: VarPred)
    requires ChangesOnly(f, p)
    ensures MapAll(es, d, f) == es <==> !AnyAll(es, d, p, false)
    decreases es
  {
    forall i | 0 <= i < |es| ensures MapExpr(es[i], d, f) == es[i] <==> !AnyExpr(es[i], d, p, false) {
      SameExprIff(es[i], d, f, p);
    }
    var r := MapAll(es, d, f);
    assert r == es <==> forall i :: 0 <= i < |es| ==> r[i] == es[i];
  }

  lemma {:induction false} SameTargetIff(te: TargetEntry, d: nat, f: VarFn, p: VarPred)
    requires ChangesOnly(f, p)
    ensures MapTarget(te, d, f) == te <==> !AnyTarget(te, d, p, false)
    decreases te
  {
    SameExprIff(te.expr, d, f, p);
  }

  lemma {:induction false} SameTargetsIff(tl: seq<TargetEntry>, d: nat, f: VarFn, p: VarPred)
    requires ChangesOnly(f, p)
    ensures MapTargets(tl, d, f) == tl <==> !AnyTargets(tl, d, p, false)
    decreases tl
  {
    forall i | 0 <= i < |tl| ensures MapTarget(tl[i], d, f) == tl[i] <==> !AnyTarget(tl[i], d, p, false) {
      SameTargetIff(tl[i], d, f, p);
    }
    var r := MapTargets(tl, d, f);
    assert r == tl <==> forall i :: 0 <= i < |tl| ==> r[i] == tl[i];
  }

  lemma {:induction false} SameRteIff(r: Rte, d: nat, f: VarFn, p: VarPred)
    requires ChangesOnly(f, p)
    ensures MapRte(r, d, f) == r <==> !AnyRte(r, d, p, false)
    decreases r
  {
    if r.Derived? { SameQueryIff(r.sub, d + 1, f, p); }
  }

  lemma {:induction false} SameRtesIff(rs: seq<Rte>, d: nat, f: VarFn, p: VarPred)
    requires ChangesOnly(f, p)
    ensures MapRtes(rs, d, f) == rs <==> !AnyRtes(rs, d, p, false)
    decreases rs
  {
    forall i | 0 <= i < |rs| ensures MapRte(rs[i], d, f) == rs[i] <==> !AnyRte(rs[i], d, p, false) {
      SameRteIff(rs[i], d, f, p);
    }
    var r := MapRtes(rs, d, f);
    assert r == rs <==> forall i :: 0 <= i < |rs| ==> r[i] == rs[i];
  }

  lemma {:induction false} SameCteIff(c: Cte, d: nat, f: VarFn, p: VarPred)
    requires ChangesOnly(f, p)
    ensures MapCte(c, d, f) == c <==> !AnyCte(c, d, p, false)
    decreases c
  {
    SameQueryIff(c.body, d + 1, f, p);
  }

  lemma {:induction false} SameCtesIff(cs: seq<Cte>, d: nat, f: VarFn, p: VarPred)
    requires ChangesOnly(f, p)
    ensures MapCtes(cs, d, f) == cs <==> !AnyCtes(cs, d, p, false)
    decreases cs
  {
    forall i | 0 <= i < |cs| ensures MapCte(cs[i], d, f) == cs[i] <==> !AnyCte(cs[i], d, p, false) {
      SameCteIff(cs[i], d, f, p);
    }
    var r := MapCtes(cs, d, f);
    assert r == cs <==> forall i :: 0 <= i < |cs| ==> r[i] == cs[i];
  }

  /** Replacing leaves a query as it is if and only if the search finds no Var to replace. */
  lemma {:induction false} SameQueryIff(q: Query, d: nat, f: VarFn, p: VarPred)
    requires ChangesOnly(f, p)
    ensures MapQuery(q, d, f) == q <==> !AnyQuery(q, d, p, false)
    decreases q
  {
    SameTargetsIff(q.tlist, d, f, p);
    SameAllIff(q.quals, d, f, p);
    SameAllIff(q.having, d, f, p);
    SameCtesIff(q.ctes, d, f, p);
    SameRtesIff(q.rtable, d, f, p);
  }

  // ----- finding a Var before and after replacing -----

  // Seen from `shift` levels further out, whatever f puts in place of a Var satisfies p
  // only if the Var satisfied q.
  ghost predicate Traces(f: VarFn, p: VarPred, q: VarPred, shift: int, bare: bool) {
    forall v: Expr, d: nat :: v.Var? && d + shift >= 0 && AnyExpr(f(v, d), d + shift, p, bare) ==> q(v, d + shift)
  }

  // Whatever f puts in place of a Var that satisfies q holds a Var that satisfies p.
  ghost predicate Carries(f: VarFn, p: VarPred, q: VarPred, shift: int, bare: bool) {
    forall v: Expr, d: nat :: v.Var? && d + shift >= 0 && q(v, d + shift) ==> AnyExpr(f(v, d), d + shift, p, bare)
  }

  ghost predicate Linked(f: VarFn, p: VarPred, q: VarPred, shift: int, bare: bool, after: bool, before: bool) {
    && (Traces(f, p, q, shift, bare) && after ==> before)
    && (Carries(f, p, q, shift, bare) && before ==> after)
  }

  lemma {:induction false} TraceExpr(e: Expr, d: nat, f: VarFn, p: VarPred, q: VarPred, shift: int, bare: bool)
    requires d + shift >= 0
    ensures Linked(f, p, q, shift, bare, AnyExpr(MapExpr(e, d, f), d + shift, p, bare), AnyExpr(e, d + shift, q, bare))
    decreases e
  {
    match e
    case Const(_) =>
    case Var(_, _, _, _) =>
    case Op(_, args) => TraceAll(args, d, f, p, q, shift, bare);
    case Agg(_, args, _) => TraceAll(args, d, f, p, q, shift, bare);
    case SubLink(_, test, sub) =>
      TraceAll(test, d, f, p, q, shift, bare);
      TraceQuery(sub, d + 1, f, p, q, shift, bare);
  }

  lemma {:induction false} TraceAll(es: seq<Expr>, d: nat, f: VarFn, p: VarPred, q: VarPred, shift: int, bare: bool)
    requires d + shift >= 0
    ensures Linked(f, p, q, shift, bare, AnyAll(MapAll(es, d, f), d + shift, p, bare), AnyAll(es, d + shift, q, bare))
    decreases es
  {
    forall i | 0 <= i < |es|
      ensures Linked(f, p, q, shift, bare, AnyExpr(MapExpr(es[i], d, f), d + shift, p, bare), AnyExpr(es[i], d + shift, q, bare))
    {
      TraceExpr(es[i], d, f, p, q, shift, bare);
    }
  }

  lemma {:induction false} TraceTargets(tl: seq<TargetEntry>, d: nat, f: VarFn, p: VarPred, q: VarPred, shift: int, bare: bool)
    requires d + shift >= 0
    ensures Linked(f, p, q, shift, bare, AnyTargets(MapTargets(tl, d, f), d + shift, p, bare), AnyTargets(tl, d + shift, q, bare))
    decreases tl
  {
    forall i | 0 <= i < |tl|
      ensures Linked(f, p, q, shift, bare, AnyTarget(MapTarget(tl[i], d, f), d + shift, p, bare), AnyTarget(tl[i], d + shift, q, bare))
    {
      TraceTarget(tl[i], d, f, p, q, shift, bare);
    }
  }

  lemma {:induction false} TraceTarget(te: TargetEntry, d: nat, f: VarFn, p: VarPred, q: VarPred, shift: int, bare: bool)
    requires d + shift >= 0
    ensures Linked(f, p, q, shift, bare, AnyTarget(MapTarget(te, d, f), d + shift, p, bare), AnyTarget(te, d + shift, q, bare))
    decreases te
  {
    TraceExpr(te.expr, d, f, p, q, shift, bare);
  }

  lemma {:induction false} TraceRte(r: Rte, d: nat, f: VarFn, p: VarPred, q: VarPred, shift: int, bare: bool)
    requires d + shift >= 0
    ensures Linked(f, p, q, shift, bare, AnyRte(MapRte(r, d, f), d + shift, p, bare), AnyRte(r, d + shift, q, bare))
    decreases r
  {
    if r.Derived? { TraceQuery(r.sub, d + 1, f, p, q, shift, bare); }
  }

  lemma {:induction false} TraceRtes(rs: seq<Rte>, d: nat, f: VarFn, p: VarPred, q: VarPred, shift: int, bare: bool)
    requires d + shift >= 0
    ensures Linked(f, p, q, shift, bare, AnyRtes(MapRtes(rs, d, f), d + shift, p, bare), AnyRtes(rs, d + shift, q, bare))
    decreases rs
  {
    forall i | 0 <= i < |rs|
      ensures Linked(f, p, q, shift, bare, AnyRte(MapRte(rs[i], d, f), d + shift, p, bare), AnyRte(rs[i], d + shift, q, bare))
    {
      TraceRte(rs[i], d, f, p, q, shift, bare);
    }
  }

  lemma {:induction false} TraceCte(c: Cte, d: nat, f: VarFn, p: VarPred, q: VarPred, shift: int, bare: bool)
    requires d + shift >= 0
    ensures Linked(f, p, q, shift, bare, AnyCte(MapCte(c, d, f), d + shift, p, bare), AnyCte(c, d + shift, q, bare))
    decreases c
  {
    TraceQuery(c.body, d + 1, f, p, q, shift, bare);
  }

  lemma {:induction false} TraceCtes(cs: seq<Cte>, d: nat, f: VarFn, p: VarPred, q: VarPred, shift: int, bare: bool)
    requires d + shift >= 0
    ensures Linked(f, p, q, shift, bare, AnyCtes(MapCtes(cs, d, f), d + shift, p, bare), AnyCtes(cs, d + shift, q, bare))
    decreases cs
  {
    forall i | 0 <= i < |cs|
      ensures Linked(f, p, q, shift, bare, AnyCte(MapCte(cs[i], d, f), d + shift, p, bare), AnyCte(cs[i], d + shift, q, bare))
    {
      TraceCte(cs[i], d, f, p, q, shift, bare);
    }
  }

  lemma {:induction false} TraceQuery(qu: Query, d: nat, f: VarFn, p: VarPred, q: VarPred, shift: int, bare: bool)
    requires d + shift >= 0
    ensures Linked(f, p, q, shift, bare, AnyQuery(MapQuery(qu, d, f), d + shift, p, bare), AnyQuery(qu, d + shift, q, bare))
    decreases qu
  {
    TraceTargets(qu.tlist, d, f, p, q, shift, bare);
    TraceAll(qu.quals, d, f, p, q, shift, bare);
    TraceAll(qu.having, d, f, p, q, shift, bare);
    TraceCtes(qu.ctes, d, f, p, q, shift, bare);
    TraceRtes(qu.rtable, d, f, p, q, shift, bare);
  }

  // ----- looking for one of several kinds of Var -----

  ghost predicate Joins(s: VarPred, ps: seq<VarPred>) {
    forall v: Expr, d: nat :: v.Var? ==> (s(v, d) <==> exists j :: 0 <= j < |ps| && ps[j](v, d))
  }

  lemma {:induction false} JoinTwo(s: VarPred, p: VarPred, q: VarPred)
    requires forall v: Expr, d: nat :: v.Var? ==> (s(v, d) <==> p(v, d) || q(v, d))
    ensures Joins(s, [p, q])
  {
    var ps := [p, q];
    forall v: Expr, d: nat | v.Var? ensures s(v, d) <==> exists j :: 0 <= j < |ps| && ps[j](v, d) {
      assert ps[0](v, d) == p(v, d) && ps[1](v, d) == q(v, d);
    }
  }

  lemma {:induction false} EitherExpr(e: Expr, d: nat, s: VarPred, ps: seq<VarPred>, bare: bool)
    requires Joins(s, ps)
    ensures AnyExpr(e, d, s, bare) <==> exists j :: 0 <= j < |ps| && AnyExpr(e, d, ps[j], bare)
    decreases e
  {
    match e
    case Const(_) =>
    case Var(_, _, _, _) =>
    case Op(_, args) => EitherAll(args, d, s, ps, bare);
    case Agg(_, args, _) => EitherAll(args, d, s, ps, bare);
    case SubLink(_, test, sub) =>
      EitherAll(test, d, s, ps, bare);
      EitherQuery(sub, d + 1, s, ps, bare);
  }

  lemma {:induction false} EitherAll(es: seq<Expr>, d: nat, s: VarPred, ps: seq<VarPred>, bare: bool)
    requires Joins(s, ps)
    ensures AnyAll(es, d, s, bare) <==> exists j :: 0 <= j < |ps| && AnyAll(es, d, ps[j], bare)
    decreases es
  {
    forall i | 0 <= i < |es|
      ensures AnyExpr(es[i], d, s, bare) <==> exists j :: 0 <= j < |ps| && AnyExpr(es[i], d, ps[j], bare)
    {
      EitherExpr(es[i], d, s, ps, bare);
    }
  }

  lemma {:induction false} EitherTarget(te: TargetEntry, d: nat, s: VarPred, ps: seq<VarPred>, bare: bool)
    requires Joins(s, ps)
    ensures AnyTarget(te, d, s, bare) <==> exists j :: 0 <= j < |ps| && AnyTarget(te, d, ps[j], bare)
    decreases te
  {
    EitherExpr(te.expr, d, s, ps, bare);
  }

  lemma {:induction false} EitherTargets(tl: seq<TargetEntry>, d: nat, s: VarPred, ps: seq<VarPred>, bare: bool)
    requires Joins(s, ps)
    ensures AnyTargets(tl, d, s, bare) <==> exists j :: 0 <= j < |ps| && AnyTargets(tl, d, ps[j], bare)
    decreases tl
  {
    forall i | 0 <= i < |tl|
      ensures AnyTarget(tl[i], d, s, bare) <==> exists j :: 0 <= j < |ps| && AnyTarget(tl[i], d, ps[j], bare)
    {
      EitherTarget(tl[i], d, s, ps, bare);
    }
  }

  lemma {:induction false} EitherRte(r: Rte, d: nat, s: VarPred, ps: seq<VarPred>, bare: bool)
    requires Joins(s, ps)
    ensures AnyRte(r, d, s, bare) <==> exists j :: 0 <= j < |ps| && AnyRte(r, d, ps[j], bare)
    decreases r
  {
    if r.Derived? { EitherQuery(r.sub, d + 1, s, ps, bare); }
  }

  lemma {:induction false} EitherRtes(rs: seq<Rte>, d: nat, s: VarPred, ps: seq<VarPred>, bare: bool)
    requires Joins(s, ps)
    ensures AnyRtes(rs, d, s, bare) <==> exists j :: 0 <= j < |ps| && AnyRtes(rs, d, ps[j], bare)
    decreases rs
  {
    forall i | 0 <= i < |rs|
      ensures AnyRte(rs[i], d, s, bare) <==> exists j :: 0 <= j < |ps| && AnyRte(rs[i], d, ps[j], bare)
    {
      EitherRte(rs[i], d, s, ps, bare);
    }
  }

  lemma {:induction false} EitherCte(c: Cte, d: nat, s: VarPred, ps: seq<VarPred>, bare: bool)
    requires Joins(s, ps)
    ensures AnyCte(c, d, s, bare) <==> exists j :: 0 <= j < |ps| && AnyCte(c, d, ps[j], bare)
    decreases c
  {
    EitherQuery(c.body, d + 1, s, ps, bare);
  }

  lemma {:induction false} EitherCtes(cs: seq<Cte>, d: nat, s: VarPred, ps: seq<VarPred>, bare: bool)
    requires Joins(s, ps)
    ensures AnyCtes(cs, d, s, bare) <==> exists j :: 0 <= j < |ps| && AnyCtes(cs, d, ps[j], bare)
    decreases cs
  {
    forall i | 0 <= i < |cs|
      ensures AnyCte(cs[i], d, s, bare) <==> exists j :: 0 <= j < |ps| && AnyCte(cs[i], d, ps[j], bare)
    {
      EitherCte(cs[i], d, s, ps, bare);
    }
  }

  lemma {:induction false} EitherQuery(qu: Query, d: nat, s: VarPred, ps: seq<VarPred>, bare: bool)
    requires Joins(s, ps)
    ensures AnyQuery(qu, d, s, bare) <==> exists j :: 0 <= j < |ps| && AnyQuery(qu, d, ps[j], bare)
    decreases qu
  {
    EitherTargets(qu.tlist, d, s, ps, bare);
    EitherAll(qu.quals, d, s, ps, bare);
    EitherAll(qu.having, d, s, ps, bare);
    EitherCtes(qu.ctes, d, s, ps, bare);
    EitherRtes(qu.rtable, d, s, ps, bare);
  }
}
