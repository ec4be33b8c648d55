/**
  Sharing of aggregates and transition states (TranslateAggFillInfo in
  gpopt/translate/CTranslatorDXLToPlStmt.cpp, FindCompatibleAgg and FindCompatibleTrans in
  gpopt/gpdbwrappers.cpp).

  Calls are numbered in the order of translation. The first call of an aggregate stands
  for it, and so does the first call that uses a transition state.
 */
module AggSharing {
  // What a call aggregates: everything that must be the same for two calls to share a state.
  datatype Inputs = Inputs(collation: nat, transtype: nat, star: bool, variadic: bool, kind: nat, args: nat, order: nat,
                           distinct_: nat, filter: nat)

  datatype Call = Call(inputs: Inputs, fn: nat, resultType: nat, resultCollation: nat, directArgs: nat)

  datatype Option<T> = None | Some(value: T)

  // The catalog's entry of an aggregate function, resolved for the call's inputs.
  datatype Entry = Entry(transfn: nat, finalfn: nat, combinefn: nat, serialfn: nat, deserialfn: nat, transtype: nat,
                         init: Option<int>, shareable: bool)

  // Inputs and direct arguments are volatile when evaluating them again may give other values.
  datatype Catalog = Catalog(entry: (nat, Inputs) -> Entry, volatileInputs: Inputs -> bool, volatileDirect: nat -> bool)

  datatype AggInfo = AggInfo(call: nat, finalfn: nat, shareable: bool, transno: int)

  datatype TransInfo = TransInfo(call: nat, transfn: nat, combinefn: nat, serialfn: nat, deserialfn: nat, transtype: nat,
                                 init: Option<int>)

  // The identical aggregate or -1, and otherwise the states that could be shared.
  datatype Found = Found(aggno: int, transnos: seq<int>)

  datatype State = State(aggs: seq<AggInfo>, trans: seq<TransInfo>)

  function EntryOf(cat: Catalog, c: Call): Entry { cat.entry(c.fn, c.inputs) }

  predicate Volatile(cat: Catalog, c: Call) { cat.volatileInputs(c.inputs) || cat.volatileDirect(c.directArgs) }

  // ----- the two searches -----

  predicate Identical(a: Call, b: Call) {
    && a.inputs == b.inputs && a.fn == b.fn && a.resultType == b.resultType && a.resultCollation == b.resultCollation
    && a.directArgs == b.directArgs
  }

  // Every aggregate in the list stands for a call.
  predicate Refer(s: State, n: nat) {
    (forall j :: 0 <= j < |s.aggs| ==> s.aggs[j].call < n) && (forall t :: 0 <= t < |s.trans| ==> s.trans[t].call < n)
  }

  // The states of the shareable aggregates among the first n that have the inputs of `a`.
  function SameInputs(calls: seq<Call>, aggs: seq<AggInfo>, a: Call, n: nat): seq<int>
    requires n <= |aggs| && forall j :: 0 <= j < |aggs| ==> aggs[j].call < |calls|
  {
    if n == 0 then []
    else
      var r := SameInputs(calls, aggs, a, n - 1);
      if calls[aggs[n - 1].call].inputs == a.inputs && aggs[n - 1].shareable then r + [aggs[n - 1].transno] else r
  }

  lemma {:induction false} SameInputsFrom(calls: seq<Call>, aggs: seq<AggInfo>, a: Call, n: nat, t: int) returns (j: nat)
    requires n <= |aggs| && forall j :: 0 <= j < |aggs| ==> aggs[j].call < |calls|
    requires t in SameInputs(calls, aggs, a, n)
    ensures j < n && aggs[j].transno == t && aggs[j].shareable && calls[aggs[j].call].inputs == a.inputs
  {
    if t in SameInputs(calls, aggs, a, n - 1) {
      j := SameInputsFrom(calls, aggs, a, n - 1, t);
    } else {
      j := n - 1;
    }
  }

  /** FindCompatibleAgg: the identical aggregate, or -1 and the states that could be shared */
  method FindCompatibleAgg(cat: Catalog, calls: seq<Call>, aggs: seq<AggInfo>, a: Call) returns (aggno: int, transnos: seq<int>)
    requires forall j :: 0 <= j < |aggs| ==> aggs[j].call < |calls|
    ensures Found(aggno, transnos) == FoundAgg(cat, calls, aggs, a)
  {
    transnos := [];
    if Volatile(cat, a) { return -1, []; }
    for j := 0 to |aggs|
      invariant transnos == SameInputs(calls, aggs, a, j)
      invariant forall k :: 0 <= k < j ==> !Identical(calls[aggs[k].call], a)
    {
      var existing := calls[aggs[j].call];
      if existing.inputs == a.inputs {
        if existing.fn == a.fn && existing.resultType == a.resultType && existing.resultCollation == a.resultCollation &&
           existing.directArgs == a.directArgs {
          FirstIdentical(calls, aggs, a, j);
          return j, [];
        }
        if aggs[j].shareable {
          transnos := transnos + [aggs[j].transno];
        }
      }
    }
    aggno := -1;
  }

  // The first identical aggregate, or the length of the list.
  function IdenticalAt(calls: seq<Call>, aggs: seq<AggInfo>, a: Call): (j: nat)
    requires forall j :: 0 <= j < |aggs| ==> aggs[j].call < |calls|
    ensures j <= |aggs| && (j < |aggs| ==> Identical(calls[aggs[j].call], a))
    ensures forall k :: 0 <= k < j ==> !Identical(calls[aggs[k].call], a)
    decreases |aggs|
  {
    if aggs == [] then 0
    else
      var n := |aggs| - 1;
      var j := IdenticalAt(calls, aggs[..n], a);
      if j < n then j else if Identical(calls[aggs[n].call], a) then n else |aggs|
  }

  lemma {:induction false} FirstIdentical(calls: seq<Call>, aggs: seq<AggInfo>, a: Call, j: nat)
    requires forall j :: 0 <= j < |aggs| ==> aggs[j].call < |calls|
    requires j < |aggs| && Identical(calls[aggs[j].call], a)
    requires forall k :: 0 <= k < j ==> !Identical(calls[aggs[k].call], a)
    ensures IdenticalAt(calls, aggs, a) == j
  {
  }

  function FoundAgg(cat: Catalog, calls: seq<Call>, aggs: seq<AggInfo>, a: Call): (r: Found)
    requires forall j :: 0 <= j < |aggs| ==> aggs[j].call < |calls|
  {
    if Volatile(cat, a) then Found(-1, [])
    else
      var j := IdenticalAt(calls, aggs, a);
      if j < |aggs| then Found(j, []) else Found(-1, SameInputs(calls, aggs, a, |aggs|))
  }

  predicate Compatible(t: TransInfo, e: Entry) {
    && t.transfn == e.transfn && t.transtype == e.transtype && t.serialfn == e.serialfn && t.deserialfn == e.deserialfn
    && t.combinefn == e.combinefn && t.init == e.init
  }

  /** FindCompatibleTrans: the first state of the list that fits, or -1 */
  method FindCompatibleTrans(trans: seq<TransInfo>, e: Entry, transnos: seq<int>) returns (transno: int)
    requires forall k :: 0 <= k < |transnos| ==> 0 <= transnos[k] < |trans|
    ensures transno == FoundTrans(trans, e, transnos)
  {
    if !e.shareable { return -1; }
    for k := 0 to |transnos|
      invariant FoundTrans(trans, e, transnos[k..]) == FoundTrans(trans, e, transnos)
    {
      var t := trans[transnos[k]];
      assert transnos[k..][0] == transnos[k] && transnos[k..][1..] == transnos[k + 1..];
      if e.transfn == t.transfn && e.transtype == t.transtype && e.serialfn == t.serialfn && e.deserialfn == t.deserialfn &&
         e.combinefn == t.combinefn {
        if e.init.None? && t.init.None? { return transnos[k]; }
        if e.init.Some? && t.init.Some? && e.init.value == t.init.value { return transnos[k]; }
      }
    }
    transno := -1;
  }

  function FoundTrans(trans: seq<TransInfo>, e: Entry, transnos: seq<int>): (t: int)
    requires forall k :: 0 <= k < |transnos| ==> 0 <= transnos[k] < |trans|
    ensures t == -1 || (t in transnos && e.shareable && 0 <= t < |trans| && Compatible(trans[t], e))
    ensures t == -1 ==> !e.shareable || forall k :: 0 <= k < |transnos| ==> !Compatible(trans[transnos[k]], e)
  {
    if !e.shareable || transnos == [] then -1
    else if Compatible(trans[transnos[0]], e) then transnos[0]
    else
      assert forall k :: 1 <= k < |transnos| ==> transnos[k] == transnos[1..][k - 1];
      FoundTrans(trans, e, transnos[1..])
  }

  // ----- numbering one call -----

  function NewTrans(cat: Catalog, calls: seq<Call>, c: nat): TransInfo
    requires c < |calls|
  {
    var e := EntryOf(cat, calls[c]);
    TransInfo(c, e.transfn, e.combinefn, e.serialfn, e.deserialfn, e.transtype, e.init)
  }

  // The numbers that a call was given.
  datatype Numbers = Numbers(aggno: int, transno: int)

  predicate Valid(s: State, n: nat) {
    Refer(s, n) && forall j :: 0 <= j < |s.aggs| ==> 0 <= s.aggs[j].transno < |s.trans|
  }

  // Adding an aggregate that uses an old state, or one made for it.
  function AddAgg(cat: Catalog, calls: seq<Call>, s: State, c: nat, transno: int): State
    requires c < |calls|
  {
    var e := EntryOf(cat, calls[c]);
    if transno == -1 then State(s.aggs + [AggInfo(c, e.finalfn, e.shareable, |s.trans|)], s.trans + [NewTrans(cat, calls, c)])
    else State(s.aggs + [AggInfo(c, e.finalfn, e.shareable, transno)], s.trans)
  }

  lemma {:induction false} SameInputsValid(calls: seq<Call>, s: State, a: Call)
    requires Valid(s, |calls|)
    ensures forall k :: 0 <= k < |SameInputs(calls, s.aggs, a, |s.aggs|)| ==>
      0 <= SameInputs(calls, s.aggs, a, |s.aggs|)[k] < |s.trans|
  {
    var ts := SameInputs(calls, s.aggs, a, |s.aggs|);
    forall k | 0 <= k < |ts| ensures 0 <= ts[k] < |s.trans| {
      var j := SameInputsFrom(calls, s.aggs, a, |s.aggs|, ts[k]);
    }
  }

  /** TranslateAggFillInfo for call c: the new lists, and the numbers of the call */
  function Fill(cat: Catalog, calls: seq<Call>, s: State, c: nat): State
    requires c < |calls| && Valid(s, |calls|)
  {
    var found := FoundAgg(cat, calls, s.aggs, calls[c]);
    if found.aggno != -1 then s
    else
      SameInputsValid(calls, s, calls[c]);
      AddAgg(cat, calls, s, c, FoundTrans(s.trans, EntryOf(cat, calls[c]), found.transnos))
  }

  function NumbersOf(cat: Catalog, calls: seq<Call>, s: State, c: nat): Numbers
    requires c < |calls| && Valid(s, |calls|)
  {
    var found := FoundAgg(cat, calls, s.aggs, calls[c]);
    if found.aggno != -1 then Numbers(found.aggno, s.aggs[found.aggno].transno)
    else Numbers(|s.aggs|, Fill(cat, calls, s, c).aggs[|s.aggs|].transno)
  }

  // ----- what sharing relies on -----

  // A call may stand in for another: the same call, or one that evaluates to the same.
  predicate StandsFor(cat: Catalog, calls: seq<Call>, r: nat, c: nat) {
    r < |calls| && c < |calls| && Identical(calls[r], calls[c]) && (r == c || !Volatile(cat, calls[c]))
  }

  // An aggregate uses a state made for the same inputs with the same functions and initial value.
  predicate Uses(cat: Catalog, calls: seq<Call>, a: AggInfo, t: TransInfo) {
    && a.call < |calls| && t.call < |calls|
    && calls[a.call].inputs == calls[t.call].inputs
    && Compatible(t, EntryOf(cat, calls[a.call])) && t == NewTrans(cat, calls, t.call)
    && (a.call == t.call || !cat.volatileInputs(calls[a.call].inputs))
  }

  predicate Inv(cat: Catalog, calls: seq<Call>, s: State) {
    && Valid(s, |calls|)
    && (forall j :: 0 <= j < |s.aggs| ==>
          && s.aggs[j].finalfn == EntryOf(cat, calls[s.aggs[j].call]).finalfn
          && s.aggs[j].shareable == EntryOf(cat, calls[s.aggs[j].call]).shareable
          && Uses(cat, calls, s.aggs[j], s.trans[s.aggs[j].transno]))
    && (forall j :: 0 <= j < |s.aggs| ==> s.aggs[j].shareable || OnlyUser(s.aggs, j))
  }

  predicate OnlyUser(aggs: seq<AggInfo>, j: nat)
    requires j < |aggs|
  {
    forall k :: 0 <= k < |aggs| && aggs[k].transno == aggs[j].transno ==> k == j
  }

  /** A state with two users has only shareable users. */
  lemma {:induction false} SharedByShareable(cat: Catalog, calls: seq<Call>, s: State, j: nat, k: nat)
    requires Inv(cat, calls, s) && j < |s.aggs| && k < |s.aggs| && j != k && s.aggs[j].transno == s.aggs[k].transno
    ensures s.aggs[j].shareable && s.aggs[k].shareable
  {
    assert OnlyUser(s.aggs, j) ==> k == j;
    assert OnlyUser(s.aggs, k) ==> k == j;
  }

  // What the numbers of call c promise.
  predicate Numbered(cat: Catalog, calls: seq<Call>, s: State, c: nat, n: Numbers) {
    && 0 <= n.aggno < |s.aggs| && 0 <= n.transno < |s.trans|
    && s.aggs[n.aggno].transno == n.transno && StandsFor(cat, calls, s.aggs[n.aggno].call, c)
  }

  // A state that is shared has the inputs of the call, and all its users may share it.
  lemma {:induction false} SharedUse(cat: Catalog, calls: seq<Call>, s: State, c: nat, t: int)
    requires c < |calls| && Inv(cat, calls, s)
    requires t in SameInputs(calls, s.aggs, calls[c], |s.aggs|)
    ensures 0 <= t < |s.trans| && s.trans[t].call < |calls| && s.trans[t] == NewTrans(cat, calls, s.trans[t].call)
    ensures calls[c].inputs == calls[s.trans[t].call].inputs
    ensures forall k :: 0 <= k < |s.aggs| && s.aggs[k].transno == t ==> s.aggs[k].shareable
  {
    var j := SameInputsFrom(calls, s.aggs, calls[c], |s.aggs|, t);
    forall k | 0 <= k < |s.aggs| && s.aggs[k].transno == t ensures s.aggs[k].shareable {
      if k != j { SharedByShareable(cat, calls, s, j, k); }
    }
    assert Uses(cat, calls, s.aggs[j], s.trans[t]);
  }

  lemma {:induction false} AddFresh(cat: Catalog, calls: seq<Call>, s: State, c: nat)
    requires c < |calls| && Inv(cat, calls, s)
    ensures Inv(cat, calls, AddAgg(cat, calls, s, c, -1))
  {
  }

  lemma {:induction false} AddShared(cat: Catalog, calls: seq<Call>, s: State, c: nat, t: int)
    requires c < |calls| && Inv(cat, calls, s) && !Volatile(cat, calls[c]) && EntryOf(cat, calls[c]).shareable
    requires t in SameInputs(calls, s.aggs, calls[c], |s.aggs|) && 0 <= t < |s.trans|
    requires Compatible(s.trans[t], EntryOf(cat, calls[c]))
    ensures Inv(cat, calls, AddAgg(cat, calls, s, c, t))
  {
    SharedUse(cat, calls, s, c, t);
  }

  lemma {:induction false} FillKeepsInv(cat: Catalog, calls: seq<Call>, s: State, c: nat)
    requires c < |calls| && Inv(cat, calls, s)
    ensures Inv(cat, calls, Fill(cat, calls, s, c)) && s.aggs <= Fill(cat, calls, s, c).aggs
  {
    var found := FoundAgg(cat, calls, s.aggs, calls[c]);
    if found.aggno == -1 {
      SameInputsValid(calls, s, calls[c]);
      var t := FoundTrans(s.trans, EntryOf(cat, calls[c]), found.transnos);
      if t == -1 { AddFresh(cat, calls, s, c); } else { AddShared(cat, calls, s, c, t); }
    }
  }

  function Next(cat: Catalog, calls: seq<Call>, s: State, c: nat): (t: State)
    requires c < |calls| && Inv(cat, calls, s)
    ensures Inv(cat, calls, t)
  {
    FillKeepsInv(cat, calls, s, c);
    Fill(cat, calls, s, c)
  }

  // The numbers point to an aggregate that stands for the call, and to the state it uses.
  lemma {:induction false} FillNumbers(cat: Catalog, calls: seq<Call>, s: State, c: nat)
    requires c < |calls| && Inv(cat, calls, s)
    ensures Numbered(cat, calls, Next(cat, calls, s, c), c, NumbersOf(cat, calls, s, c))
  {
    FillKeepsInv(cat, calls, s, c);
  }

  lemma {:induction false} NumberedStays(cat: Catalog, calls: seq<Call>, s: State, next: nat, c: nat, n: Numbers)
    requires next < |calls| && Inv(cat, calls, s) && Numbered(cat, calls, s, c, n)
    ensures Numbered(cat, calls, Next(cat, calls, s, next), c, n)
  {
  }

  // ----- a whole translation -----

  datatype Translation = Translation(state: State, numbers: seq<Numbers>)

  // The calls that have no numbers yet, in order.
  function FillRest(cat: Catalog, calls: seq<Call>, s: State, numbers: seq<Numbers>): Translation
    requires Inv(cat, calls, s) && |numbers| <= |calls|
    decreases |calls| - |numbers|
  {
    if |numbers| == |calls| then Translation(s, numbers)
    else
      var c := |numbers|;
      FillRest(cat, calls, Next(cat, calls, s, c), numbers + [NumbersOf(cat, calls, s, c)])
  }

  function Translate(cat: Catalog, calls: seq<Call>): Translation {
    FillRest(cat, calls, State([], []), [])
  }

  predicate AllNumbered(cat: Catalog, calls: seq<Call>, s: State, numbers: seq<Numbers>) {
    |numbers| <= |calls| && forall c :: 0 <= c < |numbers| ==> Numbered(cat, calls, s, c, numbers[c])
  }

  lemma {:induction false} NumberedStep(cat: Catalog, calls: seq<Call>, s: State, numbers: seq<Numbers>)
    requires Inv(cat, calls, s) && AllNumbered(cat, calls, s, numbers) && |numbers| < |calls|
    ensures AllNumbered(cat, calls, Next(cat, calls, s, |numbers|), numbers + [NumbersOf(cat, calls, s, |numbers|)])
  {
    var n := |numbers|;
    forall c | 0 <= c <= n
      ensures Numbered(cat, calls, Next(cat, calls, s, n), c, (numbers + [NumbersOf(cat, calls, s, n)])[c])
    {
      if c == n { FillNumbers(cat, calls, s, c); } else { NumberedStays(cat, calls, s, n, c, numbers[c]); }
    }
  }

  /** Every call has numbers, and they stay right as later calls are translated. */
  lemma {:induction false} RestNumbered(cat: Catalog, calls: seq<Call>, s: State, numbers: seq<Numbers>)
    requires Inv(cat, calls, s) && AllNumbered(cat, calls, s, numbers)
    ensures
      var r := FillRest(cat, calls, s, numbers);
      Inv(cat, calls, r.state) && |r.numbers| == |calls| && AllNumbered(cat, calls, r.state, r.numbers)
    decreases |calls| - |numbers|
  {
    if |numbers| < |calls| {
      NumberedStep(cat, calls, s, numbers);
      RestNumbered(cat, calls, Next(cat, calls, s, |numbers|), numbers + [NumbersOf(cat, calls, s, |numbers|)]);
    }
  }

  class AggContext {
    var aggs: seq<AggInfo>
    var trans: seq<TransInfo>

    constructor ()
      ensures aggs == [] && trans == []
    {
      aggs, trans := [], [];
    }

    function View(): State
      reads this
    {
      State(aggs, trans)
    }

    // TranslateAggFillInfo
    method FillInfo(cat: Catalog, calls: seq<Call>, c: nat) returns (aggno: int, transno: int)
      requires c < |calls| && Valid(View(), |calls|)
      modifies this
      ensures View() == old(Fill(cat, calls, View(), c)) && Numbers(aggno, transno) == old(NumbersOf(cat, calls, View(), c))
    {
      var transnos;
      aggno, transnos := FindCompatibleAgg(cat, calls, aggs, calls[c]);
      if aggno != -1 {
        transno := aggs[aggno].transno;
      } else {
        SameInputsValid(calls, View(), calls[c]);
        var e := EntryOf(cat, calls[c]);
        aggno := |aggs|;
        transno := FindCompatibleTrans(trans, e, transnos);
        if transno == -1 {
          transno := |trans|;
          trans := trans + [NewTrans(cat, calls, c)];
        }
        aggs := aggs + [AggInfo(c, e.finalfn, e.shareable, transno)];
      }
    }

    method FillAllInfos(cat: Catalog, calls: seq<Call>) returns (numbers: seq<Numbers>)
      requires aggs == [] && trans == []
      modifies this
      ensures Translation(View(), numbers) == Translate(cat, calls)
    {
      numbers := [];
      for c := 0 to |calls|
        invariant Inv(cat, calls, View()) && |numbers| == c && FillRest(cat, calls, View(), numbers) == Translate(cat, calls)
      {
        FillKeepsInv(cat, calls, View(), c);
        var aggno, transno := FillInfo(cat, calls, c);
        numbers := numbers + [Numbers(aggno, transno)];
      }
    }
  }
}
