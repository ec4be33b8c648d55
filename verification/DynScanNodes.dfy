/**
  The two plan nodes as the executor drives them: objects that share one state through an
  executor parameter slot, and a scan that loops over partition handles. Each call is one
  step of the protocol of DynScan.
 */
module DynScanNodes {
  import opened Values
  import opened DynScan

  datatype Slot = Empty | Full(row: Row)

  class SharedState {
    var approved: Bits
    var finalized: bool

    constructor ()
      ensures View() == Shared([], false)
    {
      approved, finalized := [], false;
    }

    function View(): Shared
      reads this
    {
      Shared(approved, finalized)
    }
  }

  // The slot's state, created by whichever node begins first.
  method GetOrCreate(slots: array<SharedState?>, id: nat) returns (shared: SharedState)
    requires id < slots.Length
    modifies slots
    ensures slots[id] == shared
    ensures old(slots[id]) != null ==> shared == old(slots[id]) && unchanged(shared)
    ensures old(slots[id]) == null ==> fresh(shared) && shared.View() == Shared([], false)
    ensures forall k :: 0 <= k < slots.Length && k != id ==> slots[k] == old(slots[k])
  {
    if slots[id] == null {
      slots[id] := new SharedState();
    }
    shared := slots[id];
  }

  class PartitionSelector {
    const plan: Plan
    var shared: SharedState
    var child: seq<Row>      // what the child plan returns in this pass
    var pos: nat
    ghost var ended: bool

    ghost predicate Valid()
      reads this
    {
      ValidBounds(plan.bounds) && pos <= |child|
    }

    ghost function View(): Selector
      requires Valid()
      reads this
    {
      Selector(child[..pos], child[pos..], ended)
    }

    // ps_begin
    constructor (plan: Plan, shared: SharedState, rows: seq<Row>)
      requires ValidBounds(plan.bounds)
      ensures Valid() && View() == Selector([], rows, false) && this.shared == shared && this.plan == plan
    {
      this.plan, this.shared := plan, shared;
      child, pos, ended := rows, 0, false;
    }

    // ps_exec
    method Exec() returns (slot: Slot)
      requires Valid() && !ended
      modifies this, shared
      ensures Valid() && shared == old(shared)
      ensures (shared.View(), View()) == old(SelectorNext(plan, shared.View(), View()))
      ensures slot == old(if View().rest == [] then Empty else Full(View().rest[0]))
    {
      if pos == |child| {
        shared.finalized := true;
        ended := true;
        return Empty;
      }
      var row := child[pos];
      pos := pos + 1;
      var part := FindPartition(plan.bounds, plan.probe(row));
      if part >= 0 && part < |plan.parts| {
        shared.approved := Add(shared.approved, part);
      }
      if plan.default >= 0 {
        shared.approved := Add(shared.approved, plan.default);
      }
      assert child[..pos] == old(child[..pos]) + [row];
      slot := Full(row);
    }

    // ps_rescan; the child may return other rows in the next pass
    method Rescan(rows: seq<Row>)
      requires Valid()
      modifies this, shared
      ensures Valid() && shared == old(shared)
      ensures shared.View() == Shared([], false) && View() == Selector([], rows, false)
    {
      shared.approved := [];
      shared.finalized := false;
      child, pos, ended := rows, 0, false;
    }
  }

  // ----- rows still to come -----

  function RowsAbove(plan: Plan, b: Bits, p: int): seq<Row>
    requires p >= 0
  {
    if p <= |plan.parts| then RowsFrom(plan, b, p) else []
  }

  // Partitions that are not members add nothing.
  lemma {:induction false} SkipParts(plan: Plan, b: Bits, p: nat, m: nat)
    requires p <= m && forall k :: p <= k < m ==> !In(b, k)
    ensures RowsAbove(plan, b, p) == RowsAbove(plan, b, m)
    decreases m - p
  {
    if p < m { SkipParts(plan, b, p + 1, m); }
  }

  lemma {:induction false} NoMoreParts(plan: Plan, b: Bits, p: nat)
    requires forall k :: p <= k ==> !In(b, k)
    ensures RowsAbove(plan, b, p) == []
  {
    if p <= |plan.parts| { SkipParts(plan, b, p, |plan.parts|); }
  }

  // Tuples are fetched and converted until one passes the qual.
  method NextQualifying(plan: Plan, part: Part, from: nat) returns (k: nat)
    requires from <= |part.rows|
    ensures from <= k <= |part.rows|
    ensures k == |part.rows| ==> RowsAfter(plan, part, from) == []
    ensures k < |part.rows| ==> RowsAfter(plan, part, from) == [Convert(part, part.rows[k])] + RowsAfter(plan, part, k + 1)
  {
    k := from;
    while k < |part.rows| && !plan.qual(Convert(part, part.rows[k]))
      invariant from <= k <= |part.rows| && RowsAfter(plan, part, k) == RowsAfter(plan, part, from)
    {
      k := k + 1;
    }
  }

  class DynamicTableScan {
    const plan: Plan
    var shared: SharedState
    var scanStarted: bool
    var approved: Bits
    var curPart: int
    var pos: int             // position in the open partition, -1 when none is open
    ghost var emitted: seq<Row>
    ghost var ended: bool

    ghost predicate Valid()
      reads this
    {
      && -1 <= pos && (pos >= 0 ==> scanStarted && 0 <= curPart < |plan.parts| && pos <= |plan.parts[curPart].rows|)
      && (!ended ==> -1 <= curPart <= |approved|) && (ended ==> scanStarted && pos == -1)
      && (!scanStarted ==> !ended && approved == [] && emitted == [])
    }

    ghost function Left(): seq<Row>
      requires Valid()
      reads this
    {
      if !scanStarted || ended then []
      else (if pos >= 0 then RowsAfter(plan, plan.parts[curPart], pos) else []) + RowsAbove(plan, approved, curPart + 1)
    }

    ghost function View(): Scan
      requires Valid()
      reads this
    {
      Scan(scanStarted, approved, emitted, Left(), ended)
    }

    // dts_begin
    constructor (plan: Plan, shared: SharedState)
      ensures Valid() && View() == FRESH_SCAN && this.shared == shared && this.plan == plan
    {
      this.plan, this.shared := plan, shared;
      scanStarted, approved, curPart, pos, emitted, ended := false, [], -1, -1, [], false;
    }

    // The first call of a pass fixes the partitions to scan.
    method Start()
      requires Valid() && !scanStarted
      modifies this
      ensures Valid() && shared == old(shared) && pos == -1 && scanStarted && !ended
      ensures View() == Started(plan, shared.View(), old(View()))
    {
      approved := [];
      if shared.finalized {
        var dpe := shared.approved;
        if !IsNull(plan.pruned) {
          approved := Intersect(dpe, plan.pruned);
        } else {
          approved := dpe;
        }
      } else if !IsNull(plan.pruned) {
        approved := plan.pruned;
      } else {
        for i := 0 to |plan.parts|
          invariant |approved| == i && forall k :: 0 <= k < i ==> approved[k]
          invariant shared == old(shared) && emitted == [] && !ended && pos == -1 && !scanStarted
        {
          approved := Add(approved, i);
        }
        assert approved == EveryPart(plan);
      }
      curPart, scanStarted, pos := -1, true, -1;
    }

    // The open partition is exhausted: open the next approved one, if there is one.
    method OpenNext() returns (more: bool)
      requires Valid() && scanStarted && !ended && pos == -1
      modifies this
      ensures Valid() && shared == old(shared) && scanStarted && emitted == old(emitted) && approved == old(approved)
      ensures Left() == old(Left())
      ensures more ==> !ended && curPart > old(curPart)
      ensures !more ==> ended && old(Left()) == []
    {
      var next := NextMember(approved, curPart);
      if next < 0 {
        NoMoreParts(plan, approved, curPart + 1);
        curPart := next;
        ended := true;
        return false;
      }
      SkipParts(plan, approved, curPart + 1, next);
      curPart := next;
      if curPart < |plan.parts| {
        pos := 0;
      }
      more := true;
    }

    // The next qualifying row of the open partition; the partition is closed when there is none.
    method NextInPart() returns (slot: Slot)
      requires Valid() && scanStarted && !ended && pos >= 0
      modifies this
      ensures Valid() && shared == old(shared) && scanStarted && !ended && approved == old(approved) && curPart == old(curPart)
      ensures slot == Empty ==> pos == -1 && emitted == old(emitted) && Left() == old(Left())
      ensures slot.Full? ==> old(Left()) == [slot.row] + Left() && emitted == old(emitted) + [slot.row]
    {
      var part := plan.parts[curPart];
      ghost var above := RowsAbove(plan, approved, curPart + 1);
      var k := NextQualifying(plan, part, pos);
      if k == |part.rows| {
        pos := -1;
        return Empty;
      }
      var row := Convert(part, part.rows[k]);
      pos := k + 1;
      emitted := emitted + [row];
      assert [row] + RowsAfter(plan, part, pos) + above == [row] + (RowsAfter(plan, part, pos) + above);
      slot := Full(row);
    }

    // dts_exec
    method Exec() returns (slot: Slot)
      requires Valid() && !ended
      modifies this
      ensures Valid() && shared == old(shared)
      ensures View() == ScanNext(plan, shared.View(), old(View()))
      ensures
        var left := old(Started(plan, shared.View(), View())).left;
        slot == if left == [] then Empty else Full(left[0])
    {
      if !scanStarted { Start(); }
      slot := Fetch();
    }

    // Partition after partition until there is a row.
    method Fetch() returns (slot: Slot)
      requires Valid() && scanStarted && !ended
      modifies this
      ensures Valid() && shared == old(shared) && scanStarted && approved == old(approved)
      ensures old(Left()) == [] ==> slot == Empty && ended && emitted == old(emitted)
      ensures old(Left()) != [] ==>
        var row := old(Left())[0];
        slot == Full(row) && !ended && emitted == old(emitted) + [row] && Left() == old(Left())[1..]
    {
      ghost var left := Left();
      while true
        invariant Valid() && shared == old(shared) && scanStarted && !ended && approved == old(approved)
        invariant emitted == old(emitted) && Left() == left
        decreases |approved| + |plan.parts| - curPart
      {
        if pos >= 0 {
          slot := NextInPart();
          if slot.Full? { return; }
        }
        var more := OpenNext();
        if !more { return Empty; }
      }
    }

    // dts_rescan
    method Rescan()
      requires Valid()
      modifies this
      ensures Valid() && shared == old(shared) && View() == FRESH_SCAN
    {
      pos, approved, scanStarted, curPart := -1, [], false, -1;
      emitted, ended := [], false;
    }
  }
}
