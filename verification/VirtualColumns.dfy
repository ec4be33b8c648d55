/**
  Expansion of virtual generated columns (replace_vgc_mutator and
  expand_virtual_generated_columns_for_orca in pg_orca.cpp).

  A Var that names a virtual column is replaced by the column's generation expression,
  raised to the Var's level. Derived tables and CTEs are expanded first, each for its own
  relations; then the relations of the query one after the other, at every depth below
  it. A Var that an outer join may null is left alone and makes the caller fall back.
 */
module VirtualColumns {
  import opened Values
  import opened QueryTree
  import opened VarMap
  import opened VarMapMeaning

  // The generation expressions of a relation by attribute number, over its row as varno 1.
  datatype Catalog = Catalog(generated: nat -> map<int, Expr>)

  // Generation expressions read stored columns of their own row and nothing else.
  predicate Simple(g: Expr, virt: set<int>)
    decreases g
  {
    match g
    case Const(_) => true
    case Var(n, a, l, nl) => n == 1 && l == 0 && !nl && a !in virt
    case Op(_, args) => forall i :: 0 <= i < |args| ==> Simple(args[i], virt)
    case _ => false
  }

  ghost predicate ValidCatalog(cat: Catalog) {
    forall r, a :: a in cat.generated(r) ==> a > 0 && Simple(cat.generated(r)[a], cat.generated(r).Keys)
  }

  // ChangeVarNodes(expr, 1, rt, 0), then IncrementVarSublevelsUp(expr, d, 0)
  function Lift(g: Expr, rt: nat, d: nat): Expr
    decreases g
  {
    match g
    case Var(n, a, l, nl) => Var(if n == 1 && l == 0 then rt else n, a, l + d, nl)
    case Op(fn, args) => Op(fn, LiftAll(args, rt, d))
    case _ => g
  }

  function LiftAll(gs: seq<Expr>, rt: nat, d: nat): (r: seq<Expr>)
    ensures |r| == |gs| && forall i :: 0 <= i < |gs| ==> r[i] == Lift(gs[i], rt, d)
    decreases gs
  {
    if gs == [] then [] else [Lift(gs[0], rt, d)] + LiftAll(gs[1..], rt, d)
  }

  // A Var of the given range-table entry that names a virtual column.
  predicate Names(v: Expr, d: nat, rt: nat, cols: map<int, Expr>) {
    v.Var? && v.varno == rt && v.level == d && v.attno in cols
  }

  // replace_vgc_mutator at a Var
  function Replacement(rt: nat, cols: map<int, Expr>): VarFn {
    (v: Expr, d: nat) => if Names(v, d, rt, cols) && !v.nulled then Lift(cols[v.attno], rt, d) else v
  }

  function Nulled(rt: nat, cols: map<int, Expr>): VarPred {
    (v: Expr, d: nat) => Names(v, d, rt, cols) && v.nulled
  }

  function ColumnsOf(cat: Catalog, r: Rte): map<int, Expr> {
    if r.Relation? then cat.generated(r.relid) else map[]
  }

  // The loop over the range table, from entry `rt` on; the second part is the fallback flag.
  function ExpandFrom(cat: Catalog, q: Query, rt: nat): (Query, bool)
    requires 1 <= rt <= |q.rtable| + 1
    decreases |q.rtable| + 1 - rt
  {
    if rt == |q.rtable| + 1 then (q, false)
    else
      var cols := ColumnsOf(cat, q.rtable[rt - 1]);
      if cols == map[] then ExpandFrom(cat, q, rt + 1)
      else
        var r := ExpandFrom(cat, MapQuery(q, 0, Replacement(rt, cols)), rt + 1);
        (r.0, AnyQuery(q, 0, Nulled(rt, cols), false) || r.1)
  }

  /** expand_virtual_generated_columns_for_orca */
  function Expand(cat: Catalog, q: Query): (Query, bool)
    decreases q
  {
    var rtable, ctes := ExpandRtes(cat, q.rtable), ExpandCtes(cat, q.ctes);
    var inner := q.(rtable := rtable.0, ctes := ctes.0);
    if q.sets != [] then (inner, rtable.1 || ctes.1)
    else
      var r := ExpandFrom(cat, inner, 1);
      (r.0, rtable.1 || ctes.1 || r.1)
  }

  function ExpandRte(cat: Catalog, r: Rte): (Rte, bool)
    decreases r
  {
    if r.Derived? then var e := Expand(cat, r.sub); (Derived(e.0), e.1) else (r, false)
  }

  function ExpandRtes(cat: Catalog, rs: seq<Rte>): (r: (seq<Rte>, bool))
    ensures |r.0| == |rs| && forall i :: 0 <= i < |rs| ==> r.0[i] == ExpandRte(cat, rs[i]).0
    ensures r.1 <==> exists i :: 0 <= i < |rs| && ExpandRte(cat, rs[i]).1
    decreases rs
  {
    if rs == [] then ([], false)
    else
      var first, rest := ExpandRte(cat, rs[0]), ExpandRtes(cat, rs[1..]);
      assert forall i :: 0 < i < |rs| ==> rs[i] == rs[1..][i - 1];
      assert rest.1 ==> exists i :: 0 < i < |rs| && ExpandRte(cat, rs[i]).1 by {
        if rest.1 {
          var i :| 0 <= i < |rs[1..]| && ExpandRte(cat, rs[1..][i]).1;
          assert rs[i + 1] == rs[1..][i];
        }
      }
      ([first.0] + rest.0, first.1 || rest.1)
  }

  function ExpandCte(cat: Catalog, c: Cte): (Cte, bool)
    decreases c
  {
    var e := Expand(cat, c.body);
    (c.(body := e.0), e.1)
  }

  function ExpandCtes(cat: Catalog, cs: seq<Cte>): (r: (seq<Cte>, bool))
    ensures |r.0| == |cs| && forall i :: 0 <= i < |cs| ==> r.0[i] == ExpandCte(cat, cs[i]).0
    ensures r.1 <==> exists i :: 0 <= i < |cs| && ExpandCte(cat, cs[i]).1
    decreases cs
  {
    if cs == [] then ([], false)
    else
      var n := |cs| - 1;
      var rest, last := ExpandCtes(cat, cs[..n]), ExpandCte(cat, cs[n]);
      (rest.0 + [last.0], rest.1 || last.1)
  }

  // ----- the same as the source runs it: lists and the query are reassigned step by step -----

  method ExpandInPlace(cat: Catalog, original: Query, flagged: bool) returns (query: Query, fallback: bool)
    ensures query == Expand(cat, original).0
    ensures fallback == (flagged || Expand(cat, original).1)
    decreases original
  {
    var rtable, ctes;
    rtable, fallback := ExpandRtesInPlace(cat, original.rtable, flagged);
    ctes, fallback := ExpandCtesInPlace(cat, original.ctes, fallback);
    query := original.(rtable := rtable, ctes := ctes);
    if original.sets == [] {
      query, fallback := ExpandOwnInPlace(cat, query, fallback);
    }
  }

  method ExpandRtesInPlace(cat: Catalog, original: seq<Rte>, flagged: bool) returns (rtable: seq<Rte>, fallback: bool)
    ensures rtable == ExpandRtes(cat, original).0
    ensures fallback == (flagged || ExpandRtes(cat, original).1)
    decreases original
  {
    rtable, fallback := original, flagged;
    for i := 0 to |original|
      invariant |rtable| == |original|
      invariant forall j :: 0 <= j < i ==> rtable[j] == ExpandRte(cat, original[j]).0
      invariant forall j :: i <= j < |original| ==> rtable[j] == original[j]
      invariant fallback <==> flagged || exists j :: 0 <= j < i && ExpandRte(cat, original[j]).1
    {
      if original[i].Derived? {
        var r;
        r, fallback := ExpandRteInPlace(cat, original[i], fallback);
        rtable := rtable[i := r];
      }
    }
  }

  method ExpandRteInPlace(cat: Catalog, original: Rte, flagged: bool) returns (r: Rte, fallback: bool)
    requires original.Derived?
    ensures r == ExpandRte(cat, original).0
    ensures fallback == (flagged || ExpandRte(cat, original).1)
    decreases original
  {
    var sub;
    sub, fallback := ExpandInPlace(cat, original.sub, flagged);
    r := Derived(sub);
  }

  method ExpandCtesInPlace(cat: Catalog, original: seq<Cte>, flagged: bool) returns (ctes: seq<Cte>, fallback: bool)
    ensures ctes == ExpandCtes(cat, original).0
    ensures fallback == (flagged || ExpandCtes(cat, original).1)
    decreases original
  {
    ctes, fallback := original, flagged;
    for i := 0 to |original|
      invariant |ctes| == |original|
      invariant forall j :: 0 <= j < i ==> ctes[j] == ExpandCte(cat, original[j]).0
      invariant forall j :: i <= j < |original| ==> ctes[j] == original[j]
      invariant fallback <==> flagged || exists j :: 0 <= j < i && ExpandCte(cat, original[j]).1
    {
      var c;
      c, fallback := ExpandCteInPlace(cat, original[i], fallback);
      ctes := ctes[i := c];
    }
  }

  method ExpandCteInPlace(cat: Catalog, original: Cte, flagged: bool) returns (c: Cte, fallback: bool)
    ensures c == ExpandCte(cat, original).0
    ensures fallback == (flagged || ExpandCte(cat, original).1)
    decreases original
  {
    var body;
    body, fallback := ExpandInPlace(cat, original.body, flagged);
    c := original.(body := body);
  }

  method ExpandOwnInPlace(cat: Catalog, original: Query, flagged: bool) returns (query: Query, fallback: bool)
    ensures query == ExpandFrom(cat, original, 1).0
    ensures fallback == (flagged || ExpandFrom(cat, original, 1).1)
  {
    query, fallback := original, flagged;
    for rt := 1 to |original.rtable| + 1
      invariant |query.rtable| == |original.rtable|
      invariant ExpandFrom(cat, original, 1).0 == ExpandFrom(cat, query, rt).0
      invariant flagged || ExpandFrom(cat, original, 1).1 <==> fallback || ExpandFrom(cat, query, rt).1
    {
      var cols := ColumnsOf(cat, query.rtable[rt - 1]);
      if cols != map[] {
        fallback := AnyQuery(query, 0, Nulled(rt, cols), false) || fallback;
        query := MapQuery(query, 0, Replacement(rt, cols));
      }
    }
  }

  // ----- one relation -----

  function Alone(row: Row): Env { [Frame(map[], [Slot(row, row)], [])] }

  // The row has in each virtual column the value of its generation expression.
  predicate Computed(I: Interp, cols: map<int, Expr>, row: Row) {
    forall a :: a in cols ==> At(row, a) == Eval(I, cols[a], Alone(row))
  }

  // Stored rows satisfy the generation expressions, and so does the row that stands in for
  // a missing one below an outer join.
  ghost predicate Consistent(I: Interp, cat: Catalog) {
    && (forall r, i :: 0 <= i < |I.table(r)| ==> Computed(I, cat.generated(r), I.table(r)[i]))
    && (forall r :: Computed(I, cat.generated(r), I.phantom(r)))
  }

  // A row of NULLs with the virtual columns filled in: a stand-in for any relation.
  function Filled(I: Interp, cols: map<int, Expr>, n: nat): (row: Row)
    ensures |row| == n
  {
    seq(n, i requires 0 <= i < n => if i + 1 in cols then Eval(I, cols[i + 1], Alone([])) else Null)
  }

  lemma {:induction false} FilledIsComputed(I: Interp, cols: map<int, Expr>, n: nat)
    requires forall a :: a in cols ==> 0 < a <= n && Simple(cols[a], cols.Keys)
    ensures Computed(I, cols, Filled(I, cols, n))
  {
    forall a | a in cols ensures At(Filled(I, cols, n), a) == Eval(I, cols[a], Alone(Filled(I, cols, n))) {
      SimpleOnNulls(I, cols[a], cols.Keys, Filled(I, cols, n));
    }
  }

  lemma {:induction false} SimpleOnNulls(I: Interp, g: Expr, virt: set<int>, row: Row)
    requires Simple(g, virt) && forall a :: a !in virt ==> At(row, a) == Null
    ensures Eval(I, g, Alone(row)) == Eval(I, g, Alone([]))
    decreases g
  {
    if g.Op? {
      forall i | 0 <= i < |g.args| ensures Eval(I, g.args[i], Alone(row)) == Eval(I, g.args[i], Alone([])) {
        SimpleOnNulls(I, g.args[i], virt, row);
      }
      assert EvalAll(I, g.args, Alone(row)) == EvalAll(I, g.args, Alone([]));
    }
  }

  lemma {:induction false} LiftEval(I: Interp, g: Expr, virt: set<int>, rt: nat, env: Env, d: nat)
    requires Simple(g, virt) && rt > 0 && d < |env|
    ensures Eval(I, Lift(g, rt, d), env) == Eval(I, g, Alone(RowOf(env[d].rows, rt).base))
    decreases g
  {
    match g
    case Const(_) =>
    case Var(_, _, _, _) =>
    case Op(_, args) =>
      var row := Alone(RowOf(env[d].rows, rt).base);
      forall i | 0 <= i < |args| ensures Eval(I, LiftAll(args, rt, d)[i], env) == Eval(I, args[i], row) {
        LiftEval(I, args[i], virt, rt, env, d);
      }
      assert EvalAll(I, LiftAll(args, rt, d), env) == EvalAll(I, args, row);
  }

  function RowSet(I: Interp, relid: nat): set<Row> { (set row | row in I.table(relid)) + {I.phantom(relid)} }

  function ChangeFor(I: Interp, cat: Catalog, relid: nat, rt: nat): Change {
    Change(Replacement(rt, cat.generated(relid)), rt, RowSet(I, relid))
  }

  lemma {:induction false} ReplacementFaithful(I: Interp, cat: Catalog, relid: nat, rt: nat)
    requires ValidCatalog(cat) && Consistent(I, cat) && rt > 0
    ensures Faithful(I, ChangeFor(I, cat, relid, rt))
  {
    var c := ChangeFor(I, cat, relid, rt);
    var cols := cat.generated(relid);
    forall v: Expr, d: nat, env: Env | v.Var? && d < |env| && RowFine(env, d, c)
      ensures Eval(I, c.f(v, d), env) == Eval(I, v, env)
    {
      if Names(v, d, rt, cols) && !v.nulled {
        var row := RowOf(env[d].rows, rt).base;
        LiftEval(I, cols[v.attno], cols.Keys, rt, env, d);
        assert Computed(I, cols, row);
      }
    }
  }
}
