/**
  Parsed query trees and their meaning.

  A Var, an aggregate and a CTE reference name their query by counting levels
  outwards, so the meaning of an expression depends on a stack of frames, the
  innermost query first. An `Interp` fixes the stored tables, the functions, the
  aggregates, the sublink kinds, the outer joins and the forming of groups for grouping
  sets; the theorems of the other modules hold for every interpretation. Tables are
  ordered, which makes equality of results stronger than equality of bags.
 */
module QueryTree {
  import opened Values

  datatype Expr =
    | Const(value: Value)
    | Var(varno: nat, attno: int, level: nat, nulled: bool)
    | Op(fn: nat, args: seq<Expr>)
    | Agg(fn: nat, args: seq<Expr>, level: nat)
    | SubLink(kind: nat, test: seq<Expr>, sub: Query)

  datatype TargetEntry = TargetEntry(expr: Expr, ref: nat, junk: bool)

  datatype Rte = Relation(relid: nat) | Derived(sub: Query) | CteRef(name: nat, level: nat)

  datatype Cte = Cte(name: nat, body: Query)

  // Whether the FROM list has outer joins, and then their arrangement.
  datatype Join = Inner | Outer(shape: nat)

  // `quals` holds the conditions of WHERE and of every join.
  // `group` and `sets` name target entries by their sort-group reference.
  // `grouped` holds when there are aggregates or a GROUP BY.
  datatype Query = Query(ctes: seq<Cte>, rtable: seq<Rte>, join: Join, quals: seq<Expr>, tlist: seq<TargetEntry>,
                         grouped: bool, group: seq<nat>, sets: seq<seq<nat>>, having: seq<Expr>)

  // A row of a range-table entry: as the entry delivers it, and as the outer joins above
  // the entry leave it. They may turn every column into NULL.
  datatype Slot = Slot(base: Row, out: Row)

  // One row of each range-table entry.
  type Binding = seq<Slot>

  // What a query level contributes to the evaluation of an expression: its CTEs,
  // the current row of each range-table entry, and the members of the current group.
  datatype Frame = Frame(ctes: map<nat, Table>, rows: Binding, group: seq<Binding>)

  type Env = seq<Frame>

  // `pick` makes the joins of a given shape: from all combinations of rows and the values
  // of all conditions on each of them it selects those that the joins return. `phantom` is
  // what a Var without a nulling mark would read from a relation with no matching row. Only
  // the conditions below the outer join have such Vars, and they are not consulted for it.
  datatype Interp = Interp(
    table: nat -> Table,
    phantom: nat -> Row,
    pick: (nat, seq<Binding>, seq<Row>) -> seq<nat>,
    apply: (nat, Row) -> Value,
    agg: (nat, seq<Row>) -> Value,
    link: (nat, Row, Table) -> Value,
    setGroups: (seq<seq<nat>>, seq<Row>, seq<Binding>) -> seq<(Binding, seq<Binding>)>)

  function RowOf(b: Binding, varno: nat): Slot {
    if 0 < varno <= |b| then b[varno - 1] else Slot([], [])
  }

  // A Var marked as nullable by an outer join reads the row above the join.
  function Read(s: Slot, nulled: bool): Row { if nulled then s.out else s.base }

  // ----- rows of the FROM list -----

  function Matched(t: Table): (ss: seq<Slot>)
    ensures |ss| == |t| && forall i :: 0 <= i < |t| ==> ss[i] == Slot(t[i], t[i])
  {
    seq(|t|, i requires 0 <= i < |t| => Slot(t[i], t[i]))
  }

  function Phantom(I: Interp, r: Rte): Row { if r.Relation? then I.phantom(r.relid) else [] }

  // The rows of one entry, and under outer joins also the row of NULLs.
  function Slots(I: Interp, r: Rte, t: Table, outer: bool): seq<Slot> {
    Matched(t) + if outer then [Slot(Phantom(I, r), [])] else []
  }

  function Each(b: Binding, ss: seq<Slot>): (bs: seq<Binding>)
    ensures |bs| == |ss| && forall i :: 0 <= i < |ss| ==> bs[i] == b + [ss[i]]
  {
    seq(|ss|, i requires 0 <= i < |ss| => b + [ss[i]])
  }

  // ----- groups, in the order of their first member -----

  function Members(keys: seq<Row>, bs: seq<Binding>, key: Row): seq<Binding>
    requires |keys| == |bs|
  {
    if keys == [] then []
    else (if keys[0] == key then [bs[0]] else []) + Members(keys[1..], bs[1..], key)
  }

  function GroupsFrom(keys: seq<Row>, bs: seq<Binding>, i: nat): seq<(Binding, seq<Binding>)>
    requires |keys| == |bs| && i <= |bs|
    decreases |bs| - i
  {
    if i == |bs| then []
    else (if keys[i] in keys[..i] then [] else [(bs[i], Members(keys, bs, keys[i]))]) + GroupsFrom(keys, bs, i + 1)
  }

  // Without a GROUP BY the whole input is one group, also when it is empty.
  function GroupsOf(I: Interp, q: Query, keys: seq<Row>, bs: seq<Binding>): seq<(Binding, seq<Binding>)>
    requires |keys| == |bs|
  {
    if q.sets != [] then I.setGroups(q.sets, keys, bs)
    else if q.group == [] then [(if bs == [] then [] else bs[0], bs)]
    else GroupsFrom(keys, bs, 0)
  }

  function FramesOf(ctes: map<nat, Table>, gs: seq<(Binding, seq<Binding>)>): (fs: seq<Frame>)
    ensures |fs| == |gs| && forall i :: 0 <= i < |gs| ==> fs[i] == Frame(ctes, gs[i].0, gs[i].1)
  {
    seq(|gs|, i requires 0 <= i < |gs| => Frame(ctes, gs[i].0, gs[i].1))
  }

  function RowFrames(ctes: map<nat, Table>, bs: seq<Binding>): (fs: seq<Frame>)
    ensures |fs| == |bs| && forall i :: 0 <= i < |bs| ==> fs[i] == Frame(ctes, bs[i], [])
  {
    seq(|bs|, i requires 0 <= i < |bs| => Frame(ctes, bs[i], []))
  }

  function Bindings(fs: seq<Frame>): (bs: seq<Binding>)
    ensures |bs| == |fs| && forall i :: 0 <= i < |fs| ==> bs[i] == fs[i].rows
  {
    seq(|fs|, i requires 0 <= i < |fs| => fs[i].rows)
  }

  function Kept(fs: seq<Frame>, vs: seq<bool>): (r: seq<Frame>)
    requires |fs| == |vs|
    ensures forall i :: 0 <= i < |r| ==> r[i] in fs
  {
    if fs == [] then [] else (if vs[0] then [fs[0]] else []) + Kept(fs[1..], vs[1..])
  }

  function Picked(fs: seq<Frame>, at: seq<nat>): (r: seq<Frame>)
    ensures forall i :: 0 <= i < |r| ==> r[i] in fs
  {
    if at == [] then [] else (if at[0] < |fs| then [fs[at[0]]] else []) + Picked(fs, at[1..])
  }

  // ----- evaluation -----

  function Eval(I: Interp, e: Expr, env: Env): Value
    decreases e
  {
    match e
    case Const(v) => v
    case Var(n, a, l, nulled) => if l < |env| then At(Read(RowOf(env[l].rows, n), nulled), a) else Null
    case Op(fn, args) => I.apply(fn, EvalAll(I, args, env))
    case Agg(fn, args, l) => if l < |env| then I.agg(fn, AggInputs(I, args, l, env, env[l].group)) else Null
    case SubLink(k, test, sub) => I.link(k, EvalAll(I, test, env), Rows(I, sub, env))
  }

  function EvalAll(I: Interp, es: seq<Expr>, env: Env): (r: Row)
    ensures |r| == |es|
    ensures forall i :: 0 <= i < |es| ==> r[i] == Eval(I, es[i], env)
    decreases es, 0
  {
    if es == [] then [] else [Eval(I, es[0], env)] + EvalAll(I, es[1..], env)
  }

  // The arguments of an aggregate of level `l`, once for each member of that level's group.
  function AggInputs(I: Interp, args: seq<Expr>, l: nat, env: Env, members: seq<Binding>): seq<Row>
    requires l < |env|
    decreases args, 1, |members|
  {
    if members == [] then []
    else [EvalAll(I, args, env[l := env[l].(rows := members[0])])] + AggInputs(I, args, l, env, members[1..])
  }

  function Target(I: Interp, te: TargetEntry, env: Env): Value
    decreases te
  {
    Eval(I, te.expr, env)
  }

  // The row of a target list.
  function Targets(I: Interp, tl: seq<TargetEntry>, env: Env): (r: Row)
    ensures |r| == |tl|
    ensures forall i :: 0 <= i < |tl| ==> r[i] == Target(I, tl[i], env)
    decreases tl, 0
  {
    if tl == [] then [] else [Target(I, tl[0], env)] + Targets(I, tl[1..], env)
  }

  function TargetRows(I: Interp, tl: seq<TargetEntry>, fs: seq<Frame>, env: Env): (t: Table)
    ensures |t| == |fs|
    ensures forall i :: 0 <= i < |fs| ==> t[i] == Targets(I, tl, [fs[i]] + env)
    decreases tl, 1, |fs|
  {
    if fs == [] then [] else [Targets(I, tl, [fs[0]] + env)] + TargetRows(I, tl, fs[1..], env)
  }

  // The value of the target entry with sort-group reference `ref`.
  function RefValue(I: Interp, tl: seq<TargetEntry>, ref: nat, env: Env): Value
    decreases tl, 0
  {
    if tl == [] then Null
    else if tl[0].ref == ref then Target(I, tl[0], env)
    else RefValue(I, tl[1..], ref, env)
  }

  function Key(I: Interp, tl: seq<TargetEntry>, refs: seq<nat>, env: Env): Row
    decreases tl, 1, |refs|
  {
    if refs == [] then [] else [RefValue(I, tl, refs[0], env)] + Key(I, tl, refs[1..], env)
  }

  function Keys(I: Interp, tl: seq<TargetEntry>, refs: seq<nat>, fs: seq<Frame>, env: Env): (ks: seq<Row>)
    ensures |ks| == |fs|
    ensures forall i :: 0 <= i < |fs| ==> ks[i] == Key(I, tl, refs, [fs[i]] + env)
    decreases tl, 2, |fs|
  {
    if fs == [] then [] else [Key(I, tl, refs, [fs[0]] + env)] + Keys(I, tl, refs, fs[1..], env)
  }

  predicate Verdict(I: Interp, quals: seq<Expr>, env: Env)
    decreases quals, 1
  {
    AllPass(EvalAll(I, quals, env))
  }

  function Verdicts(I: Interp, quals: seq<Expr>, fs: seq<Frame>, env: Env): (vs: seq<bool>)
    ensures |vs| == |fs|
    ensures forall i :: 0 <= i < |fs| ==> vs[i] == Verdict(I, quals, [fs[i]] + env)
    decreases quals, 2, |fs|
  {
    if fs == [] then [] else [Verdict(I, quals, [fs[0]] + env)] + Verdicts(I, quals, fs[1..], env)
  }

  function Filter(I: Interp, quals: seq<Expr>, fs: seq<Frame>, env: Env): (r: seq<Frame>)
    ensures forall i :: 0 <= i < |r| ==> r[i] in fs
    decreases quals, 3
  {
    Kept(fs, Verdicts(I, quals, fs, env))
  }

  function Conditions(I: Interp, quals: seq<Expr>, fs: seq<Frame>, env: Env): (rs: seq<Row>)
    ensures |rs| == |fs|
    ensures forall i :: 0 <= i < |fs| ==> rs[i] == EvalAll(I, quals, [fs[i]] + env)
    decreases quals, 2, |fs|
  {
    if fs == [] then [] else [EvalAll(I, quals, [fs[0]] + env)] + Conditions(I, quals, fs[1..], env)
  }

  // The combinations of rows that satisfy the conditions, or that the outer joins return.
  function Chosen(I: Interp, join: Join, quals: seq<Expr>, fs: seq<Frame>, env: Env): (r: seq<Frame>)
    ensures forall i :: 0 <= i < |r| ==> r[i] in fs
    decreases quals, 4
  {
    match join
    case Inner => Filter(I, quals, fs, env)
    case Outer(shape) => Picked(fs, I.pick(shape, Bindings(fs), Conditions(I, quals, fs, env)))
  }

  // `env[0]` is the frame of the query that owns the range table, with the rows of the
  // entries before this one.
  function Source(I: Interp, r: Rte, env: Env): Table
    decreases r, 0
  {
    match r
    case Relation(relid) => I.table(relid)
    case Derived(sub) => Rows(I, sub, env)
    case CteRef(name, l) => if l < |env| && name in env[l].ctes then env[l].ctes[name] else []
  }

  // Each combination continued with each row of the next entry.
  function Extend(I: Interp, r: Rte, outer: bool, bs: seq<Binding>, ctes: map<nat, Table>, env: Env): seq<Binding>
    decreases r, 1, |bs|
  {
    if bs == [] then []
    else
      Each(bs[0], Slots(I, r, Source(I, r, [Frame(ctes, bs[0], [])] + env), outer))
      + Extend(I, r, outer, bs[1..], ctes, env)
  }

  // All combinations of rows of the range table. A derived table sees the entries before it.
  function Product(I: Interp, rs: seq<Rte>, outer: bool, ctes: map<nat, Table>, env: Env): seq<Binding>
    decreases rs
  {
    if rs == [] then [[]]
    else Extend(I, rs[|rs| - 1], outer, Product(I, rs[..|rs| - 1], outer, ctes, env), ctes, env)
  }

  function CteTable(I: Interp, c: Cte, env: Env): Table
    decreases c
  {
    Rows(I, c.body, env)
  }

  // A CTE sees the CTEs listed before it, as one level further out.
  function CteTables(I: Interp, cs: seq<Cte>, env: Env): map<nat, Table>
    decreases cs
  {
    if cs == [] then map[]
    else
      var before := CteTables(I, cs[..|cs| - 1], env);
      var c := cs[|cs| - 1];
      before[c.name := CteTable(I, c, [Frame(before, [], [])] + env)]
  }

  function Combined(I: Interp, q: Query, ctes: map<nat, Table>, env: Env): seq<Frame>
    decreases q, 0
  {
    RowFrames(ctes, Product(I, q.rtable, q.join.Outer?, ctes, env))
  }

  // The FROM and WHERE stages of a query.
  function Selected(I: Interp, q: Query, ctes: map<nat, Table>, env: Env): seq<Frame>
    decreases q, 1
  {
    Chosen(I, q.join, q.quals, Combined(I, q, ctes, env), env)
  }

  // The frames a query projects: its selected rows, or its groups that pass HAVING.
  function Projected(I: Interp, q: Query, ctes: map<nat, Table>, env: Env): seq<Frame>
    decreases q, 2
  {
    var fs := Selected(I, q, ctes, env);
    if !q.grouped then fs
    else Filter(I, q.having,
                FramesOf(ctes, GroupsOf(I, q, Keys(I, q.tlist, q.group, fs, env), Bindings(fs))), env)
  }

  /** The rows of a query in an environment. */
  function Rows(I: Interp, q: Query, env: Env): Table
    decreases q, 3
  {
    TargetRows(I, q.tlist, Projected(I, q, CteTables(I, q.ctes, env), env), env)
  }
}
