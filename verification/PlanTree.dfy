/**
  Executable plan trees and what they compute.

  Expressions are pure unless they call a volatile or set-returning function or
  run a SubPlan. A `Machine` fixes every foreign ingredient: the functions of the
  catalog, the values of the executor parameters, and the way each operator turns
  the rows of its children into the tuples it projects. The theorems of the other
  modules hold for every machine.
 */
module PlanTree {
  import opened Values

  // OUTER_VAR and INNER_VAR name a column of the left and right child's target
  // list; any other varno names a range-table entry.
  datatype Varno = OuterVar | InnerVar | RangeVar(rti: nat)

  // `Opaque` stands for the expression nodes that an operator resolves itself
  // (Aggref, WindowFunc, GroupingFunc).
  datatype Expr =
    | Const(value: Value)
    | Var(varno: Varno, attno: int)
    | Param(id: nat)
    | Func(fn: nat, args: seq<Expr>)
    | SubPlan(plan: nat, args: seq<Expr>)
    | Opaque(id: nat)

  datatype Op =
    | Result | ProjectSet | SeqScan(rti: nat) | IndexScan(rti: nat) | FunctionScan
    | NestLoop | HashJoin | MergeJoin | Agg | WindowAgg
    | Append | MergeAppend | BitmapAnd | BitmapOr | SubqueryScan
    | CustomScan(projects: bool)
    | Hash | Material | Memoize | Sort | IncrementalSort | Unique | SetOp
    | LockRows | Limit | ModifyTable | RecursiveUnion

  // `Empty` is the null child. `own` holds the operator's further expressions
  // that a plan walk visits (resconstantqual, joinqual, hashclauses, limitCount,
  // custom_exprs, ...) and `hidden` those that it does not (the hash keys of Hash
  // and HashJoin). `kids` is the list of child plans of Append and its like.
  datatype Tree =
    | Empty
    | Node(op: Op, tlist: seq<Expr>, qual: seq<Expr>, initPlan: seq<Expr>,
           own: seq<Expr>, hidden: seq<Expr>, left: Tree, right: Tree,
           kids: seq<Tree>, allParam: set<nat>)

  // The tuple an operator is about to project: the current outer, inner and scan
  // rows, and whatever else the operator keeps (a group, a window frame).
  datatype Env = Env(outer: Row, inner: Row, scan: Row, aux: int)

  datatype Machine = Machine(
    apply: (nat, Row) -> Value,
    params: nat -> Value,
    opaque_: (nat, Env) -> Value,
    volatile_: nat -> bool,
    setReturning: nat -> bool,
    // tuples projected by an operator, from its own expressions and the rows of its children
    produce: (Op, seq<Expr>, seq<Expr>, seq<Row>, seq<Row>, seq<seq<Row>>) -> seq<Env>,
    // rows passed on by an operator that does not project
    relay: (Op, seq<Expr>, seq<Expr>, seq<Row>, seq<Row>, seq<seq<Row>>) -> seq<Row>,
    // a projection with effects: any function of the list and the stream of tuples
    effects: (seq<Expr>, seq<Env>) -> seq<Row>)

  function Eval(m: Machine, e: Expr, env: Env): Value
    decreases e
  {
    match e
    case Const(v) => v
    case Var(OuterVar, a) => At(env.outer, a)
    case Var(InnerVar, a) => At(env.inner, a)
    case Var(RangeVar(_), a) => At(env.scan, a)
    case Param(id) => m.params(id)
    case Func(fn, args) => m.apply(fn, EvalAll(m, args, env))
    case SubPlan(p, args) => m.apply(p, EvalAll(m, args, env))
    case Opaque(id) => m.opaque_(id, env)
  }

  function EvalAll(m: Machine, es: seq<Expr>, env: Env): (r: Row)
    ensures |r| == |es|
    ensures forall i :: 0 <= i < |es| ==> r[i] == Eval(m, es[i], env)
    decreases es
  {
    if es == [] then [] else [Eval(m, es[0], env)] + EvalAll(m, es[1..], env)
  }

  // contain_volatile_functions || contain_subplans
  predicate HasEffects(m: Machine, e: Expr)
    decreases e
  {
    match e
    case Func(fn, args) => m.volatile_(fn) || AnyEffects(m, args)
    case SubPlan(_, _) => true
    case _ => false
  }

  predicate AnyEffects(m: Machine, es: seq<Expr>)
    decreases es
  {
    es != [] && (HasEffects(m, es[0]) || AnyEffects(m, es[1..]))
  }

  // expression_returns_set
  predicate ReturnsSet(m: Machine, e: Expr)
    decreases e
  {
    match e
    case Func(fn, args) => m.setReturning(fn) || AnyReturnsSet(m, args)
    case SubPlan(_, args) => AnyReturnsSet(m, args)
    case _ => false
  }

  predicate AnyReturnsSet(m: Machine, es: seq<Expr>)
    decreases es
  {
    es != [] && (ReturnsSet(m, es[0]) || AnyReturnsSet(m, es[1..]))
  }

  // PostgreSQL's is_projection_capable_plan.
  predicate ProjectionCapable(op: Op) {
    match op
    case Hash | Material | Memoize | Sort | IncrementalSort | Unique | SetOp => false
    case LockRows | Limit | ModifyTable | Append | MergeAppend | RecursiveUnion => false
    case ProjectSet => false
    case CustomScan(projects) => projects
    case _ => true
  }

  function ProjectEach(m: Machine, tlist: seq<Expr>, envs: seq<Env>): (rows: seq<Row>)
    ensures |rows| == |envs|
    ensures forall i :: 0 <= i < |envs| ==> rows[i] == EvalAll(m, tlist, envs[i])
  {
    seq(|envs|, i requires 0 <= i < |envs| => EvalAll(m, tlist, envs[i]))
  }

  // A pure target list is evaluated tuple by tuple; one with effects or with
  // set-returning functions may do anything with the stream of tuples.
  function Project(m: Machine, tlist: seq<Expr>, envs: seq<Env>): seq<Row> {
    if AnyEffects(m, tlist) || AnyReturnsSet(m, tlist) then m.effects(tlist, envs)
    else ProjectEach(m, tlist, envs)
  }

  function Keep(m: Machine, quals: seq<Expr>, envs: seq<Env>): seq<Env> {
    if envs == [] then []
    else (if AllPass(EvalAll(m, quals, envs[0])) then [envs[0]] else []) + Keep(m, quals, envs[1..])
  }

  function OuterEnvs(rows: seq<Row>): (envs: seq<Env>)
    ensures |envs| == |rows|
    ensures forall i :: 0 <= i < |rows| ==> envs[i] == Env(rows[i], [], [], 0)
  {
    seq(|rows|, i requires 0 <= i < |rows| => Env(rows[i], [], [], 0))
  }

  // A Result checks its constant qual once, then filters the tuples of its child;
  // without a child it has one empty tuple.
  function ResultEnvs(m: Machine, constQual: seq<Expr>, qual: seq<Expr>, left: Tree, rows: seq<Row>): seq<Env> {
    var none := Env([], [], [], 0);
    if !AllPass(EvalAll(m, constQual, none)) then []
    else Keep(m, qual, if left.Empty? then [none] else OuterEnvs(rows))
  }

  /** The rows a plan tree yields, in order. */
  function Rows(m: Machine, t: Tree): seq<Row>
    decreases t
  {
    match t
    case Empty => []
    case Node(op, tlist, qual, _, own, _, left, right, kids, _) =>
      var l, r, k := Rows(m, left), Rows(m, right), RowsAll(m, kids);
      if op.Result? then Project(m, tlist, ResultEnvs(m, own, qual, left, l))
      else if ProjectionCapable(op) then Project(m, tlist, m.produce(op, qual, own, l, r, k))
      else m.relay(op, qual, own, l, r, k)
  }

  function RowsAll(m: Machine, ts: seq<Tree>): seq<seq<Row>>
    decreases ts
  {
    if ts == [] then [] else [Rows(m, ts[0])] + RowsAll(m, ts[1..])
  }

  function Tlist(t: Tree): seq<Expr> {
    if t.Empty? then [] else t.tlist
  }
}
