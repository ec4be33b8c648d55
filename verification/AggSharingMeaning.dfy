/**
  Computing with shared aggregates and transition states gives every call the result it
  would get on its own.

  Evaluating arguments is an event of its own for each call, so that volatile arguments
  may differ from call to call. A final function that is not shareable may spoil the
  state it is given; final functions are called in the order of the aggregate numbers.
 */
module AggSharingMeaning {
  import opened AggSharing

  type Rows = seq<seq<int>>

  // What a transition state is made with.
  datatype Kernel = Kernel(transfn: nat, combinefn: nat, serialfn: nat, deserialfn: nat, transtype: nat, init: Option<int>)

  datatype Interp = Interp(
    rows: (Inputs, nat) -> Rows,
    direct: (nat, nat) -> int,
    advance: (Inputs, Kernel, Rows) -> int,
    finish: (Call, nat, int, int) -> int,
    spoil: (nat, int) -> int)

  // Arguments that are not volatile have the same values for every call.
  ghost predicate Stable(I: Interp, cat: Catalog) {
    && (forall i, c, d :: !cat.volatileInputs(i) ==> I.rows(i, c) == I.rows(i, d))
    && (forall a, c, d :: !cat.volatileDirect(a) ==> I.direct(a, c) == I.direct(a, d))
  }

  function KernelOf(e: Entry): Kernel {
    Kernel(e.transfn, e.combinefn, e.serialfn, e.deserialfn, e.transtype, e.init)
  }

  function TransKernel(t: TransInfo): Kernel {
    Kernel(t.transfn, t.combinefn, t.serialfn, t.deserialfn, t.transtype, t.init)
  }

  /** A call computed on its own. */
  function Alone(I: Interp, cat: Catalog, calls: seq<Call>, c: nat): int
    requires c < |calls|
  {
    var call, e := calls[c], EntryOf(cat, calls[c]);
    I.finish(call, e.finalfn, I.direct(call.directArgs, c), I.advance(call.inputs, KernelOf(e), I.rows(call.inputs, c)))
  }

  // The final transition values, one per state, from the arguments of the call that made it.
  function StateValue(I: Interp, calls: seq<Call>, t: TransInfo): int
    requires t.call < |calls|
  {
    I.advance(calls[t.call].inputs, TransKernel(t), I.rows(calls[t.call].inputs, t.call))
  }

  function StateValues(I: Interp, calls: seq<Call>, trans: seq<TransInfo>): (r: seq<int>)
    requires forall t :: 0 <= t < |trans| ==> trans[t].call < |calls|
    ensures |r| == |trans| && forall t :: 0 <= t < |trans| ==> r[t] == StateValue(I, calls, trans[t])
  {
    seq(|trans|, t requires 0 <= t < |trans| => StateValue(I, calls, trans[t]))
  }

  function FinishOne(I: Interp, calls: seq<Call>, a: AggInfo, state: int): int
    requires a.call < |calls|
  {
    I.finish(calls[a.call], a.finalfn, I.direct(calls[a.call].directArgs, a.call), state)
  }

  /** The results of the aggregates from number j on, over the current transition values. */
  function Finish(I: Interp, calls: seq<Call>, s: State, j: nat, states: seq<int>): (r: seq<int>)
    requires Valid(s, |calls|) && j <= |s.aggs| && |states| == |s.trans|
    ensures |r| == |s.aggs| - j
    decreases |s.aggs| - j
  {
    if j == |s.aggs| then []
    else
      var a := s.aggs[j];
      var after := if a.shareable then states else states[a.transno := I.spoil(a.finalfn, states[a.transno])];
      [FinishOne(I, calls, a, states[a.transno])] + Finish(I, calls, s, j + 1, after)
  }

  /** No aggregate sees a state that another one spoiled. */
  lemma {:induction false} FinishPristine(I: Interp, cat: Catalog, calls: seq<Call>, s: State, j: nat, states: seq<int>,
                                          pristine: seq<int>, k: nat)
    requires Inv(cat, calls, s) && j <= k < |s.aggs| && |states| == |pristine| == |s.trans|
    requires forall i :: j <= i < |s.aggs| ==> states[s.aggs[i].transno] == pristine[s.aggs[i].transno]
    ensures Finish(I, calls, s, j, states)[k - j] == FinishOne(I, calls, s.aggs[k], pristine[s.aggs[k].transno])
    decreases k - j
  {
    if j < k {
      var a := s.aggs[j];
      var after := if a.shareable then states else states[a.transno := I.spoil(a.finalfn, states[a.transno])];
      forall i | j < i < |s.aggs| ensures after[s.aggs[i].transno] == pristine[s.aggs[i].transno] {
        if !a.shareable { assert OnlyUser(s.aggs, j); }
      }
      FinishPristine(I, cat, calls, s, j + 1, after, pristine, k);
    }
  }

  // An aggregate's own call gets from the shared state what it would compute itself.
  lemma {:induction false} UserValue(I: Interp, cat: Catalog, calls: seq<Call>, a: AggInfo, t: TransInfo)
    requires Stable(I, cat) && Uses(cat, calls, a, t) && a.finalfn == EntryOf(cat, calls[a.call]).finalfn
    ensures FinishOne(I, calls, a, StateValue(I, calls, t)) == Alone(I, cat, calls, a.call)
  {
    assert I.rows(calls[t.call].inputs, t.call) == I.rows(calls[a.call].inputs, a.call);
    assert TransKernel(t) == KernelOf(EntryOf(cat, calls[a.call]));
  }

  // A call gets what the call that stands for it computes.
  lemma {:induction false} StandInValue(I: Interp, cat: Catalog, calls: seq<Call>, r: nat, c: nat)
    requires Stable(I, cat) && StandsFor(cat, calls, r, c)
    ensures Alone(I, cat, calls, r) == Alone(I, cat, calls, c)
  {
    assert calls[r] == calls[c];
    if r != c {
      assert I.rows(calls[r].inputs, r) == I.rows(calls[c].inputs, c);
      assert I.direct(calls[r].directArgs, r) == I.direct(calls[c].directArgs, c);
    }
  }

  lemma {:induction false} NumberedResult(I: Interp, cat: Catalog, calls: seq<Call>, s: State, c: nat, n: Numbers)
    requires Stable(I, cat) && Inv(cat, calls, s) && c < |calls| && Numbered(cat, calls, s, c, n)
    ensures Finish(I, calls, s, 0, StateValues(I, calls, s.trans))[n.aggno] == Alone(I, cat, calls, c)
  {
    var states, j := StateValues(I, calls, s.trans), n.aggno;
    FinishPristine(I, cat, calls, s, 0, states, states, j);
    UserValue(I, cat, calls, s.aggs[j], s.trans[s.aggs[j].transno]);
    StandInValue(I, cat, calls, s.aggs[j].call, c);
  }

  /** For every sequence of calls, each call's shared result is the result it would get alone. */
  lemma {:induction false} SharingKeepsResults(I: Interp, cat: Catalog, calls: seq<Call>, c: nat)
    requires Stable(I, cat) && c < |calls|
    ensures
      var t := Translate(cat, calls);
      && Inv(cat, calls, t.state) && |t.numbers| == |calls| && Numbered(cat, calls, t.state, c, t.numbers[c])
      && Finish(I, calls, t.state, 0, StateValues(I, calls, t.state.trans))[t.numbers[c].aggno] == Alone(I, cat, calls, c)
  {
    RestNumbered(cat, calls, State([], []), []);
    NumberedResult(I, cat, calls, Translate(cat, calls).state, c, Translate(cat, calls).numbers[c]);
  }
}
