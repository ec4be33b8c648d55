/**
  Separating grouping from windowing (transformGroupedWindows, compat/utils/misc.c).

  A query that mixes window functions with grouping becomes an outer query with the
  window functions over a subquery with the grouping. The subquery's target list starts
  with the grouping expressions; aggregates, GROUPING calls and SubLinks are appended to
  it as the outer expressions are rewritten to read its columns.

  A query is modelled with what the two share, its FROM and WHERE, as a list of input
  bindings, and without references to enclosing queries. Grouping sets are the flat lists
  of sort-group references they expand to.
 */
module GroupedWindows {
  import opened Values

  datatype Expr =
    | Const(v: Value)
    | Var(varno: nat, attno: int)
    | Op(fn: nat, args: seq<Expr>)
    | Agg(fn: nat, args: seq<Expr>)
    | Grouping(refs: seq<int>)
    | SubLink(id: nat)
    | Win(fn: nat, args: seq<Expr>, window: nat)

  datatype Target = Target(expr: Expr, ref: int, junk: bool)

  // Sort-group references of PARTITION BY and ORDER BY, and the frame offsets.
  datatype Window = Window(partition: seq<int>, order: seq<int>, start: Expr, end: Expr)

  datatype Query = Query(tlist: seq<Target>, group: seq<nat>, sets: seq<seq<int>>, having: seq<Expr>,
                         windows: seq<Window>, fromSubLinks: bool)

  // ----- evaluation -----

  type Binding = seq<Row>

  // What a target list is evaluated on: one input binding, or a group together with the
  // grouping columns of the grouping set it belongs to.
  datatype Context = Plain(row: Binding) | Group(rows: seq<Binding>, present: seq<bool>)

  // The grouping columns of a query.
  datatype Columns = Columns(refs: seq<int>, exprs: seq<Expr>, sets: bool)

  // The keys and offsets a window sees, per context.
  datatype Panes = Panes(partition: seq<Row>, order: seq<Row>, offsets: seq<Row>)

  datatype Interp = Interp(
    apply: (nat, Row) -> Value,
    agg: (nat, seq<Row>) -> Value,
    link: (nat, Context) -> Value,
    bits: seq<bool> -> Value,
    win: (nat, Panes, seq<Row>, nat) -> Value,
    groups: seq<Row> -> seq<seq<nat>>)

  const NO_COLUMNS := Columns([], [], false)

  function ColumnOf(row: Binding, varno: nat, attno: int): Value {
    if 1 <= varno <= |row| then At(row[varno - 1], attno) else Null
  }

  function EvalRow(I: Interp, e: Expr, row: Binding): Value
    decreases e
  {
    match e
    case Const(v) => v
    case Var(n, a) => ColumnOf(row, n, a)
    case Op(fn, args) => I.apply(fn, EvalRowAll(I, args, row))
    case SubLink(id) => I.link(id, Plain(row))
    case _ => Null
  }

  function EvalRowAll(I: Interp, es: seq<Expr>, row: Binding): Row
    decreases es
  {
    if es == [] then [] else [EvalRow(I, es[0], row)] + EvalRowAll(I, es[1..], row)
  }

  function IndexOf<T(==)>(xs: seq<T>, x: T): (i: nat)
    ensures i <= |xs| && (i < |xs| ==> xs[i] == x) && (forall j :: 0 <= j < i ==> xs[j] != x)
  {
    if xs == [] || xs[0] == x then 0 else 1 + IndexOf(xs[1..], x)
  }

  // A grouping column of a group: its value on the group's rows, or NULL outside the grouping set.
  function GroupColumn(I: Interp, e: Expr, i: nat, c: Context): Value
    requires c.Group?
  {
    if i < |c.present| && c.present[i] && c.rows != [] then EvalRow(I, e, c.rows[0]) else Null
  }

  // GROUPING: one bit per reference, set when it is not in the grouping set.
  function GroupingBits(cols: Columns, refs: seq<int>, c: Context): (bits: seq<bool>)
    requires c.Group?
    ensures |bits| == |refs|
  {
    seq(|refs|, k requires 0 <= k < |refs| =>
      var i := IndexOf(cols.refs, refs[k]);
      cols.sets && !(i < |cols.refs| && i < |c.present| && c.present[i]))
  }

  function Ev(I: Interp, cols: Columns, w: seq<Panes>, e: Expr, cs: seq<Context>, i: nat): Value
    requires i < |cs|
    decreases e
  {
    var c := cs[i];
    if c.Group? && e in cols.exprs then GroupColumn(I, e, IndexOf(cols.exprs, e), c)
    else
      match e
      case Const(v) => v
      case Var(n, a) =>
        if c.Plain? then ColumnOf(c.row, n, a) else if c.rows == [] then Null else ColumnOf(c.rows[0], n, a)
      case Op(fn, args) => I.apply(fn, EvAll(I, cols, w, args, cs, i))
      case Agg(fn, args) =>
        if c.Plain? then Null
        else I.agg(fn, seq(|c.rows|, k requires 0 <= k < |c.rows| => EvalRowAll(I, args, c.rows[k])))
      case Grouping(refs) => if c.Plain? then Null else I.bits(GroupingBits(cols, refs, c))
      case SubLink(id) => I.link(id, c)
      case Win(fn, args, n) =>
        if n < |w| then
          I.win(fn, w[n], EvRows(I, cols, w, args, cs), i)
        else Null
  }

  function EvAll(I: Interp, cols: Columns, w: seq<Panes>, es: seq<Expr>, cs: seq<Context>, i: nat): (r: Row)
    requires i < |cs|
    ensures |r| == |es| && forall k :: 0 <= k < |es| ==> r[k] == Ev(I, cols, w, es[k], cs, i)
    decreases es, 0
  {
    if es == [] then [] else [Ev(I, cols, w, es[0], cs, i)] + EvAll(I, cols, w, es[1..], cs, i)
  }

  // The arguments on every context.
  function EvRows(I: Interp, cols: Columns, w: seq<Panes>, es: seq<Expr>, cs: seq<Context>): (r: seq<Row>)
    ensures |r| == |cs| && forall j :: 0 <= j < |cs| ==> r[j] == EvAll(I, cols, w, es, cs, j)
    decreases es, 1
  {
    seq(|cs|, j requires 0 <= j < |cs| => EvAll(I, cols, w, es, cs, j))
  }

  // ----- the stages of a query -----

  function Exprs(tl: seq<Target>): (r: seq<Expr>)
    ensures |r| == |tl| && forall k :: 0 <= k < |tl| ==> r[k] == tl[k].expr
  {
    seq(|tl|, k requires 0 <= k < |tl| => tl[k].expr)
  }

  function Refs(tl: seq<Target>): (r: seq<int>)
    ensures |r| == |tl| && forall k :: 0 <= k < |tl| ==> r[k] == tl[k].ref
  {
    seq(|tl|, k requires 0 <= k < |tl| => tl[k].ref)
  }

  // The first target with a sort-group reference; a query without one is not evaluated.
  function RefExpr(tl: seq<Target>, ref: int): Expr {
    var i := IndexOf(Refs(tl), ref);
    if i < |tl| then tl[i].expr else Const(Null)
  }

  function RefExprs(tl: seq<Target>, refs: seq<int>): (r: seq<Expr>)
    ensures |r| == |refs| && forall k :: 0 <= k < |refs| ==> r[k] == RefExpr(tl, refs[k])
  {
    seq(|refs|, k requires 0 <= k < |refs| => RefExpr(tl, refs[k]))
  }

  // The references without repetitions, in the order of their first occurrence.
  function Distinct(refs: seq<int>): (r: seq<int>)
    ensures forall x :: x in r <==> x in refs
  {
    DistinctTo(refs, |refs|)
  }

  // The same for the first n references.
  function DistinctTo(refs: seq<int>, n: nat): (r: seq<int>)
    requires n <= |refs|
    ensures (forall x :: x in r ==> x in refs) && (forall k :: 0 <= k < n ==> refs[k] in r)
  {
    if n == 0 then [] else AddNew(DistinctTo(refs, n - 1), refs[n - 1])
  }

  predicate NoRepeats(refs: seq<int>) {
    forall i, j :: 0 <= i < j < |refs| ==> refs[i] != refs[j]
  }

  lemma {:induction false} DistinctNoRepeats(refs: seq<int>, n: nat)
    requires n <= |refs|
    ensures NoRepeats(DistinctTo(refs, n))
    decreases n
  {
    if n > 0 { DistinctNoRepeats(refs, n - 1); }
  }

  function AddNew(front: seq<int>, x: int): seq<int> { if x in front then front else front + [x] }

  function ColumnsOf(q: Query): (c: Columns)
    ensures NoRepeats(c.refs)
  {
    DistinctNoRepeats(q.group, |q.group|);
    Columns(Distinct(q.group), RefExprs(q.tlist, Distinct(q.group)), q.sets != [])
  }

  function Present(refs: seq<int>, s: seq<int>): (r: seq<bool>)
    ensures |r| == |refs| && forall k :: 0 <= k < |refs| ==> r[k] == (refs[k] in s)
  {
    seq(|refs|, k requires 0 <= k < |refs| => refs[k] in s)
  }

  // The values of the grouping expressions that are in the grouping set.
  function Key(I: Interp, es: seq<Expr>, present: seq<bool>, row: Binding): Row
    requires |es| == |present|
  {
    seq(|es|, k requires 0 <= k < |es| => if present[k] then EvalRow(I, es[k], row) else Null)
  }

  function Pick(input: seq<Binding>, ids: seq<nat>): seq<Binding> {
    seq(|ids|, k requires 0 <= k < |ids| => if ids[k] < |input| then input[ids[k]] else [])
  }

  // The groups of one grouping set; the empty set is a single group, even of no rows.
  function GroupsOf(I: Interp, es: seq<Expr>, present: seq<bool>, input: seq<Binding>): seq<Context>
    requires |es| == |present|
  {
    if true !in present then [Group(input, present)]
    else
      var parts := I.groups(seq(|input|, k requires 0 <= k < |input| => Key(I, es, present, input[k])));
      seq(|parts|, k requires 0 <= k < |parts| => Group(Pick(input, parts[k]), present))
  }

  function GroupsOfSets(I: Interp, refs: seq<int>, es: seq<Expr>, sets: seq<seq<int>>, input: seq<Binding>): seq<Context>
    requires |refs| == |es|
  {
    if sets == [] then []
    else GroupsOf(I, es, Present(refs, sets[0]), input) + GroupsOfSets(I, refs, es, sets[1..], input)
  }

  predicate HasAgg(e: Expr)
    decreases e
  {
    match e
    case Agg(_, _) => true
    case Op(_, args) => exists i :: 0 <= i < |args| && HasAgg(args[i])
    case Win(_, args, _) => exists i :: 0 <= i < |args| && HasAgg(args[i])
    case _ => false
  }

  predicate HasWin(e: Expr)
    decreases e
  {
    match e
    case Win(_, _, _) => true
    case Op(_, args) => exists i :: 0 <= i < |args| && HasWin(args[i])
    case Agg(_, args) => exists i :: 0 <= i < |args| && HasWin(args[i])
    case _ => false
  }

  predicate Grouped(q: Query) {
    || q.group != [] || q.sets != []
    || (exists i :: 0 <= i < |q.tlist| && HasAgg(q.tlist[i].expr))
    || (exists i :: 0 <= i < |q.having| && HasAgg(q.having[i]))
  }

  function Contexts(I: Interp, q: Query, input: seq<Binding>): seq<Context> {
    var c := ColumnsOf(q);
    if q.sets != [] then GroupsOfSets(I, c.refs, c.exprs, q.sets, input)
    else GroupsOf(I, c.exprs, Present(c.refs, c.refs), input)
  }

  function PlainContexts(input: seq<Binding>): seq<Context> {
    seq(|input|, k requires 0 <= k < |input| => Plain(input[k]))
  }

  // HAVING
  function Kept(I: Interp, cols: Columns, having: seq<Expr>, cs: seq<Context>): (r: seq<Context>)
    ensures forall i :: 0 <= i < |r| ==> r[i] in cs
  {
    if cs == [] then []
    else (if AllPass(EvAll(I, cols, [], having, cs, 0)) then [cs[0]] else []) + Kept(I, cols, having, cs[1..])
  }

  function PanesOf(I: Interp, cols: Columns, tl: seq<Target>, w: Window, cs: seq<Context>): Panes {
    Panes(EvRows(I, cols, [], RefExprs(tl, w.partition), cs),
          EvRows(I, cols, [], RefExprs(tl, w.order), cs),
          EvRows(I, cols, [], [w.start, w.end], cs))
  }

  function AllPanes(I: Interp, cols: Columns, tl: seq<Target>, ws: seq<Window>, cs: seq<Context>): seq<Panes> {
    seq(|ws|, k requires 0 <= k < |ws| => PanesOf(I, cols, tl, ws[k], cs))
  }

  function RowsOn(I: Interp, cols: Columns, q: Query, cs: seq<Context>): seq<Row> {
    EvRows(I, cols, AllPanes(I, cols, q.tlist, q.windows, cs), Exprs(q.tlist), cs)
  }

  /** The rows of a grouped query, junk columns included, before DISTINCT, ORDER BY and LIMIT. */
  function GroupedRows(I: Interp, q: Query, input: seq<Binding>): seq<Row> {
    RowsOn(I, ColumnsOf(q), q, Kept(I, ColumnsOf(q), q.having, Contexts(I, q, input)))
  }

  /** The rows of a query without grouping. */
  function PlainRows(I: Interp, q: Query, input: seq<Binding>): seq<Row> {
    RowsOn(I, NO_COLUMNS, q, Kept(I, NO_COLUMNS, q.having, PlainContexts(input)))
  }

  // ----- the transformation -----

  datatype Result<T> = Raise | Done(value: T, sub: seq<Target>)

  datatype Split = Refused | Unchanged | Split(outer: Query, sub: Query)

  function MaxRef(refs: seq<int>): (m: int)
    ensures m >= 0 && forall k :: 0 <= k < |refs| ==> refs[k] <= m
  {
    if refs == [] then 0
    else
      var m := MaxRef(refs[..|refs| - 1]);
      if refs[|refs| - 1] > m then refs[|refs| - 1] else m
  }

  // sgr_map: the position of a grouping column by its reference, counted from 1; 0 elsewhere.
  function SgrMap(refs: seq<int>): (m: seq<nat>)
    ensures |m| == MaxRef(refs) + 1
  {
    seq(MaxRef(refs) + 1, r requires 0 <= r < MaxRef(refs) + 1 => if r in refs then IndexOf(refs, r) + 1 else 0)
  }

  predicate InRange(refs: seq<int>, m: seq<nat>) {
    forall k :: 0 <= k < |refs| ==> 0 <= refs[k] < |m|
  }

  function MapRefs(refs: seq<int>, m: seq<nat>): (r: seq<nat>)
    requires InRange(refs, m)
    ensures |r| == |refs| && forall k :: 0 <= k < |refs| ==> r[k] == m[refs[k]]
  {
    seq(|refs|, k requires 0 <= k < |refs| => m[refs[k]])
  }

  function MapSets(sets: seq<seq<int>>, m: seq<nat>): (r: seq<seq<nat>>)
    requires forall k :: 0 <= k < |sets| ==> InRange(sets[k], m)
    ensures |r| == |sets| && forall k :: 0 <= k < |sets| ==> r[k] == MapRefs(sets[k], m)
  {
    seq(|sets|, k requires 0 <= k < |sets| => MapRefs(sets[k], m))
  }

  // The targets of the grouping columns, renumbered: position and reference coincide.
  function GroupTargets(es: seq<Expr>): (r: seq<Target>)
    ensures |r| == |es| && forall k :: 0 <= k < |es| ==> r[k] == Target(es[k], k + 1, false)
  {
    seq(|es|, k requires 0 <= k < |es| => Target(es[k], k + 1, false))
  }

  // var_for_grouped_window_expr with force
  function Forced(e: Expr, sub: seq<Target>): Result<Expr> {
    var k := IndexOf(Exprs(sub), e);
    Done(Var(1, k + 1), if k < |sub| then sub else sub + [Target(e, 0, false)])
  }

  /** grouped_window_mutator on an expression; `m` is sgr_map */
  function Mutate(e: Expr, sub: seq<Target>, m: seq<nat>): Result<Expr>
    decreases e
  {
    var k := IndexOf(Exprs(sub), e);
    match e
    case Agg(_, _) => Forced(e, sub)
    case SubLink(_) => Forced(e, sub)
    case Grouping(refs) => if InRange(refs, m) then Forced(Grouping(MapRefs(refs, m)), sub) else Raise
    case Var(_, _) => if k < |sub| then Done(Var(1, k + 1), sub) else Raise
    case Const(_) => if k < |sub| then Done(Var(1, k + 1), sub) else Done(e, sub)
    case Op(fn, args) =>
      if k < |sub| then Done(Var(1, k + 1), sub)
      else
        var r := MutateAll(args, sub, m);
        if r.Raise? then Raise else Done(Op(fn, r.value), r.sub)
    case Win(fn, args, n) =>
      if k < |sub| then Done(Var(1, k + 1), sub)
      else
        var r := MutateAll(args, sub, m);
        if r.Raise? then Raise else Done(Win(fn, r.value, n), r.sub)
  }

  function MutateAll(es: seq<Expr>, sub: seq<Target>, m: seq<nat>): (r: Result<seq<Expr>>)
    ensures r.Done? ==> |r.value| == |es|
    decreases es
  {
    if es == [] then Done([], sub)
    else
      var n := |es| - 1;
      var front := MutateAll(es[..n], sub, m);
      if front.Raise? then Raise
      else
        var last := Mutate(es[n], front.sub, m);
        if last.Raise? then Raise else Done(front.value + [last.value], last.sub)
  }

  function WithExprs(tl: seq<Target>, es: seq<Expr>): (r: seq<Target>)
    requires |tl| == |es|
    ensures |r| == |tl| && forall k :: 0 <= k < |tl| ==> r[k] == Target(es[k], tl[k].ref, tl[k].junk)
  {
    seq(|tl|, k requires 0 <= k < |tl| => Target(es[k], tl[k].ref, tl[k].junk))
  }

  // The frame offsets of all windows, in order.
  function Offsets(ws: seq<Window>): (r: seq<Expr>)
    ensures |r| == 2 * |ws|
    ensures forall k :: 0 <= k < |ws| ==> r[2 * k] == ws[k].start && r[2 * k + 1] == ws[k].end
  {
    if ws == [] then [] else Offsets(ws[..|ws| - 1]) + [ws[|ws| - 1].start, ws[|ws| - 1].end]
  }

  function WithOffsets(ws: seq<Window>, es: seq<Expr>): (r: seq<Window>)
    requires |es| == 2 * |ws|
    ensures |r| == |ws|
    ensures forall k :: 0 <= k < |ws| ==> r[k] == Window(ws[k].partition, ws[k].order, es[2 * k], es[2 * k + 1])
  {
    seq(|ws|, k requires 0 <= k < |ws| => Window(ws[k].partition, ws[k].order, es[2 * k], es[2 * k + 1]))
  }

  predicate HasSubLink(e: Expr)
    decreases e
  {
    match e
    case SubLink(_) => true
    case Op(_, args) => exists i :: 0 <= i < |args| && HasSubLink(args[i])
    case Agg(_, args) => exists i :: 0 <= i < |args| && HasSubLink(args[i])
    case Win(_, args, _) => exists i :: 0 <= i < |args| && HasSubLink(args[i])
    case _ => false
  }

  predicate AnySubLink(es: seq<Expr>) {
    exists i :: 0 <= i < |es| && HasSubLink(es[i])
  }

  predicate QuerySubLinks(q: Query) {
    q.fromSubLinks || AnySubLink(Exprs(q.tlist)) || AnySubLink(Offsets(q.windows)) || AnySubLink(q.having)
  }

  predicate RefsFound(q: Query) {
    forall k :: 0 <= k < |q.group| ==> q.group[k] in Refs(q.tlist)
  }

  // Nothing to do unless window functions meet grouping.
  predicate Mixed(q: Query) {
    (exists i :: 0 <= i < |q.tlist| && HasWin(q.tlist[i].expr)) && Grouped(q)
  }

  lemma {:induction false} GroupInRange(q: Query)
    ensures InRange(q.group, SgrMap(ColumnsOf(q).refs))
  {
    var refs := ColumnsOf(q).refs;
    forall k | 0 <= k < |q.group| ensures q.group[k] <= MaxRef(refs) {
      assert q.group[k] in refs;
      var i :| 0 <= i < |refs| && refs[i] == q.group[k];
    }
  }

  // The references that sgr_map is asked for with a bounds check.
  predicate SetsInRange(q: Query) {
    forall k :: 0 <= k < |q.sets| ==> InRange(q.sets[k], SgrMap(ColumnsOf(q).refs))
  }

  function OuterQuery(q: Query, targets: seq<Expr>, offsets: seq<Expr>): Query
    requires |targets| == |q.tlist| && |offsets| == 2 * |q.windows|
  {
    Query(WithExprs(q.tlist, targets), [], [], [], WithOffsets(q.windows, offsets), false)
  }

  function SubQuery(q: Query, sub: seq<Target>): Query
    requires SetsInRange(q)
  {
    GroupInRange(q);
    var m := SgrMap(ColumnsOf(q).refs);
    Query(sub, MapRefs(q.group, m), MapSets(q.sets, m), q.having, [], q.fromSubLinks)
  }

  // The target list, then the window clauses, over the subquery's growing target list.
  function Targets(q: Query): (r: Result<seq<Expr>>)
    ensures r.Done? ==> |r.value| == |q.tlist|
  {
    MutateAll(Exprs(q.tlist), GroupTargets(ColumnsOf(q).exprs), SgrMap(ColumnsOf(q).refs))
  }

  function WindowOffsets(q: Query): (r: Result<seq<Expr>>)
    requires Targets(q).Done?
    ensures r.Done? ==> |r.value| == 2 * |q.windows|
  {
    MutateAll(Offsets(q.windows), Targets(q).sub, SgrMap(ColumnsOf(q).refs))
  }

  /** transformGroupedWindows on one query */
  function Transform(q: Query): Split {
    if !Mixed(q) then Unchanged
    else if !RefsFound(q) || !SetsInRange(q) then Refused
    else if Targets(q).Raise? || WindowOffsets(q).Raise? then Refused
    else
      var outer := OuterQuery(q, Targets(q).value, WindowOffsets(q).value);
      var sub := SubQuery(q, WindowOffsets(q).sub);
      if QuerySubLinks(q) != (AnySubLink(Exprs(outer.tlist)) || QuerySubLinks(sub)) then Refused
      else Split(outer, sub)
  }
}
