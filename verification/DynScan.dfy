/**
  Dynamic partition elimination (compat/executor/dyn_scan.c): a PartitionSelector over the
  inner side of an equality join and a DynamicTableScan on its outer side communicate
  through one shared state. The protocol is a state machine over the calls that the
  executor makes, in any order it may make them.
 */
module DynScan {
  import opened Values

  // ----- bitmap sets; a set without members is the source's NULL -----

  type Bits = seq<bool>

  predicate In(b: Bits, i: int) { 0 <= i < |b| && b[i] }

  function Add(b: Bits, i: nat): (r: Bits)
    ensures forall k :: In(r, k) <==> In(b, k) || k == i
  {
    if i < |b| then b[i := true] else b + seq(i - |b|, k => false) + [true]
  }

  function Intersect(a: Bits, b: Bits): (r: Bits)
    ensures forall k :: In(r, k) <==> In(a, k) && In(b, k)
  {
    var n := if |a| < |b| then |a| else |b|;
    seq(n, k requires 0 <= k < n => a[k] && b[k])
  }

  predicate IsNull(b: Bits) { true !in b }

  // bms_next_member: the least member above `prev`, or -2
  function NextMember(b: Bits, prev: int): (m: int)
    requires prev >= -1
    ensures m >= 0 ==> In(b, m) && m > prev && forall k :: prev < k < m ==> !In(b, k)
    ensures m < 0 ==> m == -2 && forall k :: prev < k ==> !In(b, k)
    decreases |b| - prev
  {
    if prev + 1 >= |b| then -2 else if b[prev + 1] then prev + 1 else NextMember(b, prev + 1)
  }

  // ----- partition bounds -----

  datatype Bounds =
    | HashBounds(hash: Value -> nat, indexes: seq<int>)
    | ListBounds(values: seq<int>, indexes: seq<int>, nullIndex: int)
    | RangeBounds(bounds: seq<int>, indexes: seq<int>)

  predicate Ascending(xs: seq<int>) { forall i, j :: 0 <= i < j < |xs| ==> xs[i] < xs[j] }

  predicate ValidBounds(b: Bounds) {
    match b
    case HashBounds(_, indexes) => |indexes| > 0
    case ListBounds(values, indexes, _) => Ascending(values) && |indexes| == |values|
    case RangeBounds(bounds, indexes) => Ascending(bounds) && |indexes| == |bounds| + 1
  }

  // The offset of the greatest bound that is at most v, or -1: what both searches return.
  function Offset(xs: seq<int>, v: int): (o: int)
    ensures -1 <= o < |xs| && (o >= 0 ==> xs[o] <= v)
    ensures Ascending(xs) ==> forall i :: o < i < |xs| ==> v < xs[i]
  {
    if xs == [] then -1
    else if xs[|xs| - 1] <= v then |xs| - 1
    else Offset(xs[..|xs| - 1], v)
  }

  /** find_partition_for_value */
  function FindPartition(b: Bounds, v: Value): int
    requires ValidBounds(b)
  {
    match b
    case HashBounds(hash, indexes) => indexes[hash(v) % |indexes|]
    case ListBounds(values, indexes, nullIndex) =>
      if v.Null? then (if nullIndex != -1 then nullIndex else -1)
      else
        var o := Offset(values, v.v);
        if o >= 0 && values[o] == v.v then indexes[o] else -1
    case RangeBounds(bounds, indexes) => if v.Null? then -1 else indexes[Offset(bounds, v.v) + 1]
  }

  // What the bounds of one partition say of a value, without searching.
  predicate Accepts(b: Bounds, p: int, v: Value)
    requires ValidBounds(b)
  {
    match b
    case HashBounds(hash, indexes) => indexes[hash(v) % |indexes|] == p
    case ListBounds(values, indexes, nullIndex) =>
      if v.Null? then nullIndex == p else exists i :: 0 <= i < |values| && values[i] == v.v && indexes[i] == p
    case RangeBounds(bounds, indexes) =>
      v.Datum? && exists i :: 0 <= i < |indexes| && indexes[i] == p && Between(bounds, i, v.v)
  }

  // In the i-th interval of the line that the bounds cut.
  predicate Between(bounds: seq<int>, i: int, v: int) {
    0 <= i <= |bounds| && (i == 0 || bounds[i - 1] <= v) && (i == |bounds| || v < bounds[i])
  }

  /** The search finds a partition exactly when its bounds accept the value. */
  lemma {:induction false} FindPartitionIff(b: Bounds, v: Value, p: nat)
    requires ValidBounds(b)
    ensures FindPartition(b, v) == p <==> Accepts(b, p, v)
  {
    match b
    case HashBounds(_, _) =>
    case ListBounds(values, indexes, _) =>
      if v.Datum? && Accepts(b, p, v) {
        var i :| 0 <= i < |values| && values[i] == v.v && indexes[i] == p;
        assert Offset(values, v.v) == i;
      }
    case RangeBounds(bounds, indexes) =>
      if v.Datum? {
        var o := Offset(bounds, v.v);
        assert Between(bounds, o + 1, v.v);
        if Accepts(b, p, v) {
          var i :| 0 <= i < |indexes| && indexes[i] == p && Between(bounds, i, v.v);
          assert i == o + 1;
        }
      }
  }

  // ----- tables -----

  // Rows are stored in the partition's own column order; `attrs` maps root columns to it.
  datatype Part = Part(rows: seq<Row>, remapped: bool, attrs: seq<nat>)

  // One scan of a partitioned table: its qual, the partition key, what the pruner kept of
  // the partitions for the qual, and the selector's probe expression.
  datatype Plan = Plan(bounds: Bounds, parts: seq<Part>, default: int, qual: Row -> bool, key: Row -> Value,
                       pruned: Bits, probe: Row -> Value)

  // execute_attr_map_slot
  function Convert(part: Part, row: Row): Row {
    if part.remapped then seq(|part.attrs|, i requires 0 <= i < |part.attrs| => At(row, part.attrs[i])) else row
  }

  // A converted row has the root's columns: each is read from where the partition keeps it.
  lemma {:induction false} ConvertedColumn(part: Part, row: Row, a: int)
    ensures At(Convert(part, row), a) ==
      if !part.remapped then At(row, a) else if 0 < a <= |part.attrs| then At(row, part.attrs[a - 1]) else Null
  {
  }

  // The converted rows of a partition from position k on that pass the qual.
  function RowsAfter(plan: Plan, part: Part, k: nat): seq<Row>
    requires k <= |part.rows|
    decreases |part.rows| - k
  {
    if k == |part.rows| then []
    else
      var row := Convert(part, part.rows[k]);
      (if plan.qual(row) then [row] else []) + RowsAfter(plan, part, k + 1)
  }

  // The rows of the partitions p, p + 1, ... that are in the set.
  function RowsFrom(plan: Plan, b: Bits, p: nat): seq<Row>
    requires p <= |plan.parts|
    decreases |plan.parts| - p
  {
    if p == |plan.parts| then []
    else (if In(b, p) then RowsAfter(plan, plan.parts[p], 0) else []) + RowsFrom(plan, b, p + 1)
  }

  function EveryPart(plan: Plan): (b: Bits)
    ensures forall p :: In(b, p) <==> 0 <= p < |plan.parts|
  {
    seq(|plan.parts|, p => true)
  }

  /** The whole table as seen through the qual. */
  function AllRows(plan: Plan): seq<Row> {
    RowsFrom(plan, EveryPart(plan), 0)
  }

  // The partition of a row: the one found for its key, else the default partition.
  function Route(plan: Plan, v: Value): int
    requires ValidBounds(plan.bounds)
  {
    var p := FindPartition(plan.bounds, v);
    if 0 <= p < |plan.parts| then p else plan.default
  }

  // Rows are where tuple routing put them, and the pruner drops no partition with a qualifying row.
  ghost predicate ValidPlan(plan: Plan) {
    && ValidBounds(plan.bounds)
    && (forall p, k :: 0 <= p < |plan.parts| && 0 <= k < |plan.parts[p].rows| ==>
          Route(plan, plan.key(Convert(plan.parts[p], plan.parts[p].rows[k]))) == p)
    && (IsNull(plan.pruned) || Sound(plan, plan.pruned))
  }

  ghost predicate Sound(plan: Plan, b: Bits) {
    forall p :: 0 <= p < |plan.parts| && !In(b, p) ==> RowsAfter(plan, plan.parts[p], 0) == []
  }

  /** compute_static_parts_from_quals: whether there is a scan relation and a qual, whether
      the key is made of plain columns, and what PostgreSQL's pruner answers */
  function StaticParts(relation: bool, qualified: bool, plainKey: bool, nparts: nat, answer: Bits): Bits {
    if relation && qualified && plainKey && nparts != 0 then answer else []
  }

  // Pruning that is skipped and pruning to nothing both mean every partition, and both are right.
  lemma {:induction false} StaticPartsSound(plan: Plan, relation: bool, qualified: bool, plainKey: bool, answer: Bits)
    requires Sound(plan, answer)
    ensures
      var b := StaticParts(relation, qualified, plainKey, |plan.parts|, answer);
      IsNull(b) || Sound(plan, b)
    ensures relation && qualified && plainKey && plan.parts != [] ==>
      forall p :: In(StaticParts(relation, qualified, plainKey, |plan.parts|, answer), p) <==> In(answer, p)
    ensures
      var b := StaticParts(relation, qualified, plainKey, |plan.parts|, answer);
      RowsFrom(plan, if IsNull(b) then EveryPart(plan) else b, 0) == AllRows(plan)
  {
    var b := StaticParts(relation, qualified, plainKey, |plan.parts|, answer);
    if !IsNull(b) { NoneRows(plan, b, 0); }
  }

  // ----- the protocol -----

  datatype Shared = Shared(approved: Bits, finalized: bool)

  // The inner rows passed on and still to come in this pass.
  datatype Selector = Selector(done: seq<Row>, rest: seq<Row>, ended: bool)

  // The rows returned and still to be returned in this pass.
  datatype Scan = Scan(started: bool, approved: Bits, emitted: seq<Row>, left: seq<Row>, ended: bool)

  datatype State = State(shared: Shared, selector: Selector, scan: Scan, stale: bool)

  // Child rows can differ from pass to pass, so a rescan of the selector names the new ones.
  datatype Event = SelectorExec | SelectorRescan(rows: seq<Row>) | ScanExec | ScanRescan

  const FRESH_SCAN := Scan(false, [], [], [], false)

  function Initial(rows: seq<Row>): State {
    State(Shared([], false), Selector([], rows, false), FRESH_SCAN, false)
  }

  // What ps_exec adds for one inner row.
  function Approve(plan: Plan, b: Bits, u: Row): Bits
    requires ValidBounds(plan.bounds)
  {
    var p := FindPartition(plan.bounds, plan.probe(u));
    var found := if 0 <= p < |plan.parts| then Add(b, p) else b;
    if plan.default >= 0 then Add(found, plan.default) else found
  }

  /** ps_exec */
  function SelectorNext(plan: Plan, shared: Shared, sel: Selector): (Shared, Selector)
    requires ValidBounds(plan.bounds)
  {
    if sel.rest == [] then (shared.(finalized := true), sel.(ended := true))
    else (shared.(approved := Approve(plan, shared.approved, sel.rest[0])),
          Selector(sel.done + [sel.rest[0]], sel.rest[1..], false))
  }

  // The partitions that dts_exec fixes when it starts.
  function Approved(plan: Plan, shared: Shared): Bits {
    if shared.finalized then (if IsNull(plan.pruned) then shared.approved else Intersect(shared.approved, plan.pruned))
    else if IsNull(plan.pruned) then EveryPart(plan)
    else plan.pruned
  }

  function Started(plan: Plan, shared: Shared, scan: Scan): Scan {
    if scan.started then scan
    else
      var b := Approved(plan, shared);
      Scan(true, b, [], RowsFrom(plan, b, 0), false)
  }

  /** dts_exec */
  function ScanNext(plan: Plan, shared: Shared, scan: Scan): Scan {
    var c := Started(plan, shared, scan);
    if c.left == [] then c.(ended := true) else c.(emitted := c.emitted + [c.left[0]], left := c.left[1..])
  }

  function Step(plan: Plan, s: State, e: Event): State
    requires ValidBounds(plan.bounds)
  {
    match e
    case SelectorExec =>
      var (shared, selector) := SelectorNext(plan, s.shared, s.selector);
      s.(shared := shared, selector := selector)
    case SelectorRescan(rows) => State(Shared([], false), Selector([], rows, false), s.scan, s.stale || s.scan.started)
    case ScanExec => s.(scan := ScanNext(plan, s.shared, s.scan))
    case ScanRescan => s.(scan := FRESH_SCAN, stale := false)
  }

  // Calls stop after the end of a pass, and a scan that was running when the selector was
  // rescanned is rescanned before it goes on.
  predicate Enabled(s: State, e: Event) {
    match e
    case SelectorExec => !s.selector.ended
    case ScanExec => !s.scan.ended && !s.stale
    case _ => true
  }

  function Run(plan: Plan, s: State, es: seq<Event>): State
    requires ValidBounds(plan.bounds)
  {
    if es == [] then s else Step(plan, Run(plan, s, es[..|es| - 1]), es[|es| - 1])
  }

  predicate Legal(plan: Plan, s: State, es: seq<Event>)
    requires ValidBounds(plan.bounds)
  {
    forall i :: 0 <= i < |es| ==> Enabled(Run(plan, s, es[..i]), es[i])
  }

  // ----- the join -----

  predicate Matches(plan: Plan, u: Row, r: Row) {
    plan.probe(u) != Null && plan.key(r) == plan.probe(u)
  }

  function MatchesOf(plan: Plan, u: Row, rs: seq<Row>): seq<(Row, Row)> {
    if rs == [] then []
    else (if Matches(plan, u, rs[0]) then [(u, rs[0])] else []) + MatchesOf(plan, u, rs[1..])
  }

  /** The inner equality join of inner rows with scanned rows. */
  function Join(plan: Plan, us: seq<Row>, rs: seq<Row>): seq<(Row, Row)> {
    if us == [] then [] else MatchesOf(plan, us[0], rs) + Join(plan, us[1..], rs)
  }

  lemma {:induction false} MatchesOfConcat(plan: Plan, u: Row, a: seq<Row>, b: seq<Row>)
    ensures MatchesOf(plan, u, a + b) == MatchesOf(plan, u, a) + MatchesOf(plan, u, b)
  {
    if a == [] {
      assert a + b == b;
    } else {
      assert (a + b)[1..] == a[1..] + b;
      MatchesOfConcat(plan, u, a[1..], b);
    }
  }

  // Rows of one partition that are routed elsewhere than a probe value do not match it.
  lemma {:induction false} PartMatches(plan: Plan, u: Row, p: nat, k: nat)
    requires ValidPlan(plan) && p < |plan.parts| && k <= |plan.parts[p].rows| && Route(plan, plan.probe(u)) != p
    ensures MatchesOf(plan, u, RowsAfter(plan, plan.parts[p], k)) == []
    decreases |plan.parts[p].rows| - k
  {
    var part := plan.parts[p];
    if k < |part.rows| {
      PartMatches(plan, u, p, k + 1);
      var row := Convert(part, part.rows[k]);
      assert Route(plan, plan.key(row)) == p;
      if plan.qual(row) {
        assert RowsAfter(plan, part, k)[1..] == RowsAfter(plan, part, k + 1);
      } else {
        assert RowsAfter(plan, part, k) == RowsAfter(plan, part, k + 1);
      }
    }
  }

  // A set that keeps every partition where the probe value may be keeps all its matches.
  ghost predicate CoversValue(plan: Plan, b: Bits, u: Row)
    requires ValidBounds(plan.bounds)
  {
    forall p :: 0 <= p < |plan.parts| && !In(b, p) ==>
      Route(plan, plan.probe(u)) != p || RowsAfter(plan, plan.parts[p], 0) == []
  }

  lemma {:induction false} CoveredMatches(plan: Plan, b: Bits, u: Row, p: nat)
    requires ValidPlan(plan) && CoversValue(plan, b, u) && p <= |plan.parts|
    ensures MatchesOf(plan, u, RowsFrom(plan, b, p)) == MatchesOf(plan, u, RowsFrom(plan, EveryPart(plan), p))
    decreases |plan.parts| - p
  {
    if p < |plan.parts| {
      CoveredMatches(plan, b, u, p + 1);
      var rows := RowsAfter(plan, plan.parts[p], 0);
      MatchesOfConcat(plan, u, if In(b, p) then rows else [], RowsFrom(plan, b, p + 1));
      MatchesOfConcat(plan, u, rows, RowsFrom(plan, EveryPart(plan), p + 1));
      if !In(b, p) && rows != [] { PartMatches(plan, u, p, 0); }
    }
  }

  // Scanned rows that have every match of the given inner rows.
  ghost predicate Complete(plan: Plan, us: seq<Row>, rs: seq<Row>) {
    forall i :: 0 <= i < |us| ==> MatchesOf(plan, us[i], rs) == MatchesOf(plan, us[i], AllRows(plan))
  }

  lemma {:induction false} CompleteJoin(plan: Plan, us: seq<Row>, rs: seq<Row>)
    requires Complete(plan, us, rs)
    ensures Join(plan, us, rs) == Join(plan, us, AllRows(plan))
  {
    if us != [] {
      assert MatchesOf(plan, us[0], rs) == MatchesOf(plan, us[0], AllRows(plan));
      CompleteJoin(plan, us[1..], rs);
    }
  }

  // ----- the selector's set -----

  function ApproveAll(plan: Plan, us: seq<Row>): Bits
    requires ValidBounds(plan.bounds)
  {
    if us == [] then [] else Approve(plan, ApproveAll(plan, us[..|us| - 1]), us[|us| - 1])
  }

  lemma {:induction false} ApprovedCovers(plan: Plan, us: seq<Row>, i: nat)
    requires ValidBounds(plan.bounds) && i < |us|
    ensures CoversValue(plan, ApproveAll(plan, us), us[i])
  {
    var n := |us| - 1;
    if i < n {
      ApprovedCovers(plan, us[..n], i);
    }
  }

  // ----- every run -----

  // Rows of the pass, whether already passed on or not.
  function InnerRows(s: State): seq<Row> { s.selector.done + s.selector.rest }

  function ScanRows(s: State): seq<Row> { s.scan.emitted + s.scan.left }

  ghost predicate Inv(plan: Plan, s: State)
    requires ValidBounds(plan.bounds)
  {
    && s.shared.approved == ApproveAll(plan, s.selector.done)
    && (s.shared.finalized ==> s.selector.rest == [])
    && (s.scan.started && !s.stale ==> Complete(plan, InnerRows(s), ScanRows(s)))
    && (s.stale ==> s.scan.started)
    && (s.scan.ended ==> s.scan.started && s.scan.left == [])
  }

  /** A finalized shared set covers every inner row of the current pass. */
  lemma {:induction false} FinalizedCovers(plan: Plan, s: State, i: nat)
    requires ValidBounds(plan.bounds) && Inv(plan, s) && s.shared.finalized && i < |InnerRows(s)|
    ensures CoversValue(plan, s.shared.approved, InnerRows(s)[i])
  {
    assert InnerRows(s) == s.selector.done;
    ApprovedCovers(plan, s.selector.done, i);
  }

  lemma {:induction false} NoneRows(plan: Plan, b: Bits, p: nat)
    requires p <= |plan.parts| && Sound(plan, b)
    ensures RowsFrom(plan, b, p) == RowsFrom(plan, EveryPart(plan), p)
    decreases |plan.parts| - p
  {
    if p < |plan.parts| { NoneRows(plan, b, p + 1); }
  }

  /** Started before the selector finished, a pass has every qualifying row of the table, once and in order. */
  lemma {:induction false} UnfinalizedPass(plan: Plan, shared: Shared)
    requires ValidPlan(plan) && !shared.finalized
    ensures RowsFrom(plan, Approved(plan, shared), 0) == AllRows(plan)
  {
    if !IsNull(plan.pruned) { NoneRows(plan, plan.pruned, 0); }
  }

  // Starting the scan fixes a set that loses no row of the join.
  lemma {:induction false} StartKeepsJoin(plan: Plan, s: State)
    requires ValidPlan(plan) && Inv(plan, s)
    ensures Complete(plan, InnerRows(s), RowsFrom(plan, Approved(plan, s.shared), 0))
  {
    var us, b := InnerRows(s), Approved(plan, s.shared);
    if s.shared.finalized {
      forall i | 0 <= i < |us| ensures MatchesOf(plan, us[i], RowsFrom(plan, b, 0)) == MatchesOf(plan, us[i], AllRows(plan)) {
        FinalizedCovers(plan, s, i);
        CoveredMatches(plan, b, us[i], 0);
      }
    } else {
      UnfinalizedPass(plan, s.shared);
    }
  }

  lemma {:induction false} SelectorExecKeepsInv(plan: Plan, s: State)
    requires ValidPlan(plan) && Inv(plan, s)
    ensures Inv(plan, Step(plan, s, SelectorExec))
  {
    var t := Step(plan, s, SelectorExec);
    assert InnerRows(t) == InnerRows(s);
    if s.selector.rest != [] {
      assert t.selector.done[..|t.selector.done| - 1] == s.selector.done;
    }
  }

  // A call moves the next row to the rows returned, or ends the pass when there is none.
  lemma {:induction false} ScanNextRows(plan: Plan, shared: Shared, scan: Scan)
    ensures
      var c, t := Started(plan, shared, scan), ScanNext(plan, shared, scan);
      && t.emitted + t.left == c.emitted + c.left && t.started && (t.ended <==> c.left == [] || c.ended)
      && |t.emitted| == |c.emitted| + if c.left == [] then 0 else 1
  {
  }

  lemma {:induction false} ScanExecKeepsInv(plan: Plan, s: State)
    requires ValidPlan(plan) && Inv(plan, s) && Enabled(s, ScanExec)
    ensures Inv(plan, Step(plan, s, ScanExec))
  {
    ScanNextRows(plan, s.shared, s.scan);
    if !s.scan.started {
      StartKeepsJoin(plan, s);
      var c := Started(plan, s.shared, s.scan);
      assert c.emitted + c.left == c.left;
    }
  }

  lemma {:induction false} StepKeepsInv(plan: Plan, s: State, e: Event)
    requires ValidPlan(plan) && Inv(plan, s) && Enabled(s, e)
    ensures Inv(plan, Step(plan, s, e))
  {
    match e
    case SelectorExec => SelectorExecKeepsInv(plan, s);
    case SelectorRescan(_) =>
    case ScanExec => ScanExecKeepsInv(plan, s);
    case ScanRescan =>
  }

  lemma {:induction false} RunKeepsInv(plan: Plan, rows: seq<Row>, es: seq<Event>)
    requires ValidPlan(plan) && Legal(plan, Initial(rows), es)
    ensures Inv(plan, Run(plan, Initial(rows), es))
  {
    if es != [] {
      var n := |es| - 1;
      assert forall i :: 0 <= i < n ==> es[..n][..i] == es[..i];
      RunKeepsInv(plan, rows, es[..n]);
      StepKeepsInv(plan, Run(plan, Initial(rows), es[..n]), es[n]);
    }
  }

  /** Whenever the scan has ended, the join over the rows it returned is the join over the table. */
  lemma {:induction false} EliminationKeepsJoin(plan: Plan, rows: seq<Row>, es: seq<Event>)
    requires ValidPlan(plan) && Legal(plan, Initial(rows), es)
    ensures
      var s := Run(plan, Initial(rows), es);
      s.scan.ended && !s.stale ==> Join(plan, s.selector.done, s.scan.emitted) == Join(plan, s.selector.done, AllRows(plan))
  {
    var s := Run(plan, Initial(rows), es);
    RunKeepsInv(plan, rows, es);
    if s.scan.ended && !s.stale {
      assert ScanRows(s) == s.scan.emitted;
      assert forall i :: 0 <= i < |s.selector.done| ==> InnerRows(s)[i] == s.selector.done[i];
      CompleteJoin(plan, s.selector.done, s.scan.emitted);
    }
  }

  predicate Full(plan: Plan, scan: Scan) {
    scan.started ==> scan.emitted + scan.left == AllRows(plan) && (scan.ended ==> scan.emitted == AllRows(plan))
  }

  lemma {:induction false} FullStep(plan: Plan, s: State, e: Event)
    requires ValidPlan(plan) && Enabled(s, e) && Full(plan, s.scan)
    requires e == ScanExec && !s.scan.started ==> !s.shared.finalized
    ensures Full(plan, Step(plan, s, e).scan)
  {
    if e == ScanExec {
      if !s.scan.started { UnfinalizedPass(plan, s.shared); }
      ScanNextRows(plan, s.shared, s.scan);
      var c, t := Started(plan, s.shared, s.scan), ScanNext(plan, s.shared, s.scan);
      assert c.emitted + c.left == AllRows(plan);
      if t.ended { assert t.emitted + t.left == t.emitted; }
    }
  }

  /** Passes that start while the selector is not finalized return the whole table, each row once. */
  lemma {:induction false} FullPass(plan: Plan, rows: seq<Row>, es: seq<Event>)
    requires ValidPlan(plan) && Legal(plan, Initial(rows), es)
    requires forall i :: 0 <= i < |es| && es[i] == ScanExec ==>
      var s := Run(plan, Initial(rows), es[..i]); s.scan.started || !s.shared.finalized
    ensures Full(plan, Run(plan, Initial(rows), es).scan)
  {
    if es != [] {
      var n := |es| - 1;
      assert forall i :: 0 <= i <= n ==> es[..n][..i] == es[..i];
      FullPass(plan, rows, es[..n]);
      FullStep(plan, Run(plan, Initial(rows), es[..n]), es[n]);
    }
  }

  // ----- exactly what is eliminated -----

  // The inner row asks for the partition: the one its probe value is found in, or the default.
  predicate AskedFor(plan: Plan, u: Row, p: int)
    requires ValidBounds(plan.bounds)
  {
    (p == plan.default && 0 <= p) || (p == FindPartition(plan.bounds, plan.probe(u)) && 0 <= p < |plan.parts|)
  }

  lemma {:induction false} ApproveAllIff(plan: Plan, us: seq<Row>, p: int)
    requires ValidBounds(plan.bounds)
    ensures In(ApproveAll(plan, us), p) <==> exists i :: 0 <= i < |us| && AskedFor(plan, us[i], p)
  {
    if us != [] {
      var n := |us| - 1;
      ApproveAllIff(plan, us[..n], p);
      assert forall i :: 0 <= i < n ==> us[..n][i] == us[i];
    }
  }

  // The partitions of a pass that starts in this state: after the end of the selector's pass
  // those that an inner row asks for, before it all; of these what the pruner kept.
  predicate Wanted(plan: Plan, s: State, p: int)
    requires ValidBounds(plan.bounds)
  {
    && (IsNull(plan.pruned) || In(plan.pruned, p))
    && if s.selector.ended then exists i :: 0 <= i < |s.selector.done| && AskedFor(plan, s.selector.done[i], p)
       else IsNull(plan.pruned) ==> 0 <= p < |plan.parts|
  }

  // The inner rows of the selector's current pass.
  function PassRows(rows: seq<Row>, es: seq<Event>): seq<Row> {
    if es == [] then rows
    else if es[|es| - 1].SelectorRescan? then es[|es| - 1].rows
    else PassRows(rows, es[..|es| - 1])
  }

  // The set is final exactly when the selector has returned all its rows and then nothing.
  predicate InStep(plan: Plan, s: State, pass: seq<Row>)
    requires ValidBounds(plan.bounds)
  {
    && s.shared.approved == ApproveAll(plan, s.selector.done)
    && (s.shared.finalized <==> s.selector.ended) && (s.selector.ended ==> s.selector.rest == [])
    && InnerRows(s) == pass
  }

  lemma {:induction false} SelectorInStep(plan: Plan, s: State, pass: seq<Row>)
    requires ValidBounds(plan.bounds) && InStep(plan, s, pass) && !s.selector.ended
    ensures InStep(plan, Step(plan, s, SelectorExec), pass)
    ensures
      var t := Step(plan, s, SelectorExec).selector;
      (t.ended <==> s.selector.rest == []) && |t.done| == |s.selector.done| + if s.selector.rest == [] then 0 else 1
  {
    var t := Step(plan, s, SelectorExec);
    if s.selector.rest != [] {
      assert t.selector.done[..|t.selector.done| - 1] == s.selector.done;
      assert InnerRows(t) == InnerRows(s);
    }
  }

  lemma {:induction false} EventInStep(plan: Plan, s: State, e: Event, pass: seq<Row>)
    requires ValidBounds(plan.bounds) && InStep(plan, s, pass) && Enabled(s, e)
    ensures InStep(plan, Step(plan, s, e), if e.SelectorRescan? then e.rows else pass)
  {
    match e
    case SelectorExec => SelectorInStep(plan, s, pass);
    case SelectorRescan(rows) => assert [] + rows == rows;
    case ScanExec =>
    case ScanRescan =>
  }

  lemma {:induction false} StaysInStep(plan: Plan, rows: seq<Row>, es: seq<Event>)
    requires ValidBounds(plan.bounds) && Legal(plan, Initial(rows), es)
    ensures InStep(plan, Run(plan, Initial(rows), es), PassRows(rows, es))
  {
    if es == [] {
      assert [] + rows == rows;
    } else {
      var n := |es| - 1;
      assert forall i :: 0 <= i < n ==> es[..n][..i] == es[..i];
      StaysInStep(plan, rows, es[..n]);
      EventInStep(plan, Run(plan, Initial(rows), es[..n]), es[n], PassRows(rows, es[..n]));
    }
  }

  /** A pass that starts anywhere in a run fixes exactly the wanted partitions. */
  lemma {:induction false} StartsWithWanted(plan: Plan, rows: seq<Row>, es: seq<Event>, p: int)
    requires ValidBounds(plan.bounds) && Legal(plan, Initial(rows), es)
    ensures
      var s := Run(plan, Initial(rows), es);
      !s.scan.started ==> (In(Step(plan, s, ScanExec).scan.approved, p) <==> Wanted(plan, s, p))
  {
    StaysInStep(plan, rows, es);
    if !Run(plan, Initial(rows), es).scan.started { WantedInStep(plan, Run(plan, Initial(rows), es), PassRows(rows, es), p); }
  }

  lemma {:induction false} WantedInStep(plan: Plan, s: State, pass: seq<Row>, p: int)
    requires ValidBounds(plan.bounds) && InStep(plan, s, pass) && !s.scan.started
    ensures In(Step(plan, s, ScanExec).scan.approved, p) <==> Wanted(plan, s, p)
  {
    ApproveAllIff(plan, s.selector.done, p);
  }

  // A row that the qual lets through, of a partition in the set.
  predicate FromPart(plan: Plan, b: Bits, row: Row, p: int, k: int) {
    && 0 <= p < |plan.parts| && In(b, p) && 0 <= k < |plan.parts[p].rows|
    && row == Convert(plan.parts[p], plan.parts[p].rows[k]) && plan.qual(row)
  }

  ghost predicate FromSet(plan: Plan, b: Bits, row: Row) { exists p, k :: FromPart(plan, b, row, p, k) }

  lemma {:induction false} RowsOfPart(plan: Plan, b: Bits, p: nat, from: nat)
    requires p < |plan.parts| && In(b, p) && from <= |plan.parts[p].rows|
    ensures forall row :: row in RowsAfter(plan, plan.parts[p], from) ==> FromSet(plan, b, row)
    decreases |plan.parts[p].rows| - from
  {
    var part := plan.parts[p];
    if from < |part.rows| {
      RowsOfPart(plan, b, p, from + 1);
      var row := Convert(part, part.rows[from]);
      if plan.qual(row) { assert FromPart(plan, b, row, p, from); }
    }
  }

  lemma {:induction false} RowsOfSet(plan: Plan, b: Bits, p: nat)
    requires p <= |plan.parts|
    ensures forall row :: row in RowsFrom(plan, b, p) ==> FromSet(plan, b, row)
    decreases |plan.parts| - p
  {
    if p < |plan.parts| {
      RowsOfSet(plan, b, p + 1);
      if In(b, p) { RowsOfPart(plan, b, p, 0); }
    }
  }

  // The call that started the scan's pass.
  predicate StartedAt(plan: Plan, rows: seq<Row>, es: seq<Event>, j: int)
    requires ValidBounds(plan.bounds)
  {
    && 0 <= j < |es| && es[j] == ScanExec && !Run(plan, Initial(rows), es[..j]).scan.started
    && (forall i :: j < i < |es| ==> es[i] != ScanRescan)
  }

  lemma {:induction false} WasStarted(plan: Plan, rows: seq<Row>, es: seq<Event>) returns (j: nat)
    requires ValidBounds(plan.bounds) && Run(plan, Initial(rows), es).scan.started
    ensures StartedAt(plan, rows, es, j)
    ensures
      var s, t := Run(plan, Initial(rows), es), Run(plan, Initial(rows), es[..j]);
      && s.scan.approved == Step(plan, t, ScanExec).scan.approved
      && s.scan.emitted + s.scan.left == RowsFrom(plan, s.scan.approved, 0)
  {
    var n := |es| - 1;
    var front := es[..n];
    var before := Run(plan, Initial(rows), front);
    if before.scan.started && es[n] != ScanRescan {
      j := WasStarted(plan, rows, front);
      assert front[..j] == es[..j] && forall i :: 0 <= i < n ==> front[i] == es[i];
      if es[n] == ScanExec { ScanNextRows(plan, before.shared, before.scan); }
    } else {
      j := n;
      ScanNextRows(plan, before.shared, before.scan);
      var c := Started(plan, before.shared, before.scan);
      assert c.emitted + c.left == c.left;
    }
  }

  /** In every run the rows that a pass has returned are, in order, a prefix of the qualifying
      rows of the partitions that were wanted when it started, and of no others. */
  lemma {:induction false} OnlyWantedRows(plan: Plan, rows: seq<Row>, es: seq<Event>) returns (j: nat)
    requires ValidBounds(plan.bounds) && Legal(plan, Initial(rows), es) && Run(plan, Initial(rows), es).scan.started
    ensures StartedAt(plan, rows, es, j)
    ensures
      var s, t := Run(plan, Initial(rows), es), Run(plan, Initial(rows), es[..j]);
      && (forall p :: In(s.scan.approved, p) <==> Wanted(plan, t, p))
      && s.scan.emitted <= RowsFrom(plan, s.scan.approved, 0)
      && (forall row :: row in s.scan.emitted ==> FromSet(plan, s.scan.approved, row))
  {
    j := WasStarted(plan, rows, es);
    var front := es[..j];
    assert forall i :: 0 <= i < j ==> front[..i] == es[..i] && front[i] == es[i];
    var s := Run(plan, Initial(rows), es);
    forall p ensures In(s.scan.approved, p) <==> Wanted(plan, Run(plan, Initial(rows), front), p) {
      StartsWithWanted(plan, rows, front, p);
    }
    RowsOfSet(plan, s.scan.approved, 0);
    assert forall row :: row in s.scan.emitted ==> row in s.scan.emitted + s.scan.left;
  }

  // ----- why the two are rescanned together -----

  // Two range partitions, below 10 and from 10 on, with one row each.
  const TWO_PARTS := Plan(RangeBounds([10], [0, 1]), [Part([[Datum(5)]], false, []), Part([[Datum(15)]], false, [])], -1,
                          (r: Row) => true, (r: Row) => At(r, 1), [], (r: Row) => At(r, 1))

  lemma {:induction false} OneRow(plan: Plan, part: Part, row: Row)
    requires part == Part([row], false, []) && plan.qual(row)
    ensures RowsAfter(plan, part, 0) == [row]
  {
    assert RowsAfter(plan, part, 1) == [];
  }

  lemma {:induction false} TwoPartRows()
    ensures AllRows(TWO_PARTS) == [[Datum(5)], [Datum(15)]]
    ensures RowsFrom(TWO_PARTS, [true], 0) == [[Datum(5)]]
  {
    var plan := TWO_PARTS;
    OneRow(plan, plan.parts[0], [Datum(5)]);
    OneRow(plan, plan.parts[1], [Datum(15)]);
    assert RowsFrom(plan, EveryPart(plan), 2) == [] && RowsFrom(plan, [true], 2) == [];
    assert RowsFrom(plan, EveryPart(plan), 1) == [[Datum(15)]] && RowsFrom(plan, [true], 1) == [];
  }

  lemma {:induction false} TwoPartsValid()
    ensures ValidPlan(TWO_PARTS)
    ensures FindPartition(TWO_PARTS.bounds, Datum(5)) == 0 && FindPartition(TWO_PARTS.bounds, Datum(15)) == 1
  {
    assert Offset([], 5) == -1 && [10][..0] == [];
    assert Offset([10], 5) == -1 && Offset([10], 15) == 0;
  }

  /** A scan that goes on after the selector alone was rescanned can end without a matching row. */
  lemma {:induction false} StaleScanLosesRows()
    ensures ValidPlan(TWO_PARTS)
    ensures
      var five, fifteen := [Datum(5)], [Datum(15)];
      var es := [SelectorExec, SelectorExec, ScanExec, SelectorRescan([fifteen]), SelectorExec, ScanExec];
      var s := Run(TWO_PARTS, Initial([five]), es);
      && s.scan.ended && s.stale
      && Join(TWO_PARTS, s.selector.done, s.scan.emitted) == []
      && Join(TWO_PARTS, s.selector.done, AllRows(TWO_PARTS)) == [(fifteen, fifteen)]
  {
    var plan, five, fifteen := TWO_PARTS, [Datum(5)], [Datum(15)];
    TwoPartRows();
    TwoPartsValid();
    var es := [SelectorExec, SelectorExec, ScanExec, SelectorRescan([fifteen]), SelectorExec, ScanExec];
    var s0 := Initial([five]);
    var s1 := Step(plan, s0, SelectorExec);
    var s2 := Step(plan, s1, SelectorExec);
    var s3 := Step(plan, s2, ScanExec);
    var s4 := Step(plan, s3, SelectorRescan([fifteen]));
    var s5 := Step(plan, s4, SelectorExec);
    var s6 := Step(plan, s5, ScanExec);
    assert s2.shared == Shared([true], true);
    assert s3.scan == Scan(true, [true], [five], [], false);
    assert s6.scan == Scan(true, [true], [five], [], true) && s6.selector.done == [fifteen];
    RunOfSix(plan, s0, es);
    assert Join(plan, [fifteen], [five]) == [];
    assert MatchesOf(plan, fifteen, [fifteen]) == [(fifteen, fifteen)];
    assert [five, fifteen][1..] == [fifteen];
  }

  lemma {:induction false} RunOfSix(plan: Plan, s: State, es: seq<Event>)
    requires ValidBounds(plan.bounds) && |es| == 6
    ensures Run(plan, s, es) ==
      Step(plan, Step(plan, Step(plan, Step(plan, Step(plan, Step(plan, s, es[0]), es[1]), es[2]), es[3]), es[4]), es[5])
  {
    forall i | 0 <= i < 6 ensures Run(plan, s, es[..i + 1]) == Step(plan, Run(plan, s, es[..i]), es[i]) {
      assert es[..i + 1][..i] == es[..i];
    }
    assert es[..6] == es && es[..0] == [];
  }
}
