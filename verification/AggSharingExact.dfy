/**
  Which calls share: two calls get one aggregate, or one transition state, exactly when
  they may.
 */
module AggSharingExact {
  import opened AggSharing

  // ----- the first state that fits -----

  // Aggregate j of the list lends its state to a call with these inputs and this entry.
  predicate Fits(calls: seq<Call>, s: State, j: nat, inputs: Inputs, e: Entry) {
    && j < |s.aggs| && s.aggs[j].call < |calls| && 0 <= s.aggs[j].transno < |s.trans|
    && s.aggs[j].shareable && calls[s.aggs[j].call].inputs == inputs && Compatible(s.trans[s.aggs[j].transno], e)
  }

  predicate FirstFit(calls: seq<Call>, s: State, j: nat, inputs: Inputs, e: Entry) {
    Fits(calls, s, j, inputs, e) && forall i: nat :: i < j ==> !Fits(calls, s, i, inputs, e)
  }

  lemma {:induction false} FoundLast(trans: seq<TransInfo>, e: Entry, ts: seq<int>, t: int)
    requires (forall k :: 0 <= k < |ts| ==> 0 <= ts[k] < |trans|) && 0 <= t < |trans|
    ensures
      var r := FoundTrans(trans, e, ts);
      FoundTrans(trans, e, ts + [t]) == if r != -1 then r else if e.shareable && Compatible(trans[t], e) then t else -1
  {
    if ts == [] {
      assert [t][1..] == [];
    } else {
      assert (ts + [t])[1..] == ts[1..] + [t];
      FoundLast(trans, e, ts[1..], t);
    }
  }

  lemma {:induction false} StatesValid(calls: seq<Call>, s: State, a: Call, n: nat)
    requires Valid(s, |calls|) && n <= |s.aggs|
    ensures forall k :: 0 <= k < |SameInputs(calls, s.aggs, a, n)| ==> 0 <= SameInputs(calls, s.aggs, a, n)[k] < |s.trans|
  {
    if n > 0 { StatesValid(calls, s, a, n - 1); }
  }

  // Among the first n aggregates the search returns the state of the first that fits.
  lemma {:induction false} FoundIsFirst(calls: seq<Call>, s: State, a: Call, e: Entry, n: nat)
    requires Valid(s, |calls|) && n <= |s.aggs| && e.shareable
    requires forall k :: 0 <= k < |SameInputs(calls, s.aggs, a, n)| ==> 0 <= SameInputs(calls, s.aggs, a, n)[k] < |s.trans|
    ensures
      var t := FoundTrans(s.trans, e, SameInputs(calls, s.aggs, a, n));
      && (t == -1 <==> forall j: nat :: j < n ==> !Fits(calls, s, j, a.inputs, e))
      && (forall j: nat :: j < n && FirstFit(calls, s, j, a.inputs, e) ==> t == s.aggs[j].transno)
  {
    if n > 0 {
      StatesValid(calls, s, a, n - 1);
      FoundIsFirst(calls, s, a, e, n - 1);
      var ts := SameInputs(calls, s.aggs, a, n - 1);
      var g := s.aggs[n - 1];
      var last := calls[g.call].inputs == a.inputs && g.shareable;
      if last { FoundLast(s.trans, e, ts, g.transno); }
      assert Fits(calls, s, n - 1, a.inputs, e) <==> last && Compatible(s.trans[g.transno], e);
      assert (forall j: nat :: j < n ==> !Fits(calls, s, j, a.inputs, e))
         <==> (forall j: nat :: j < n - 1 ==> !Fits(calls, s, j, a.inputs, e)) && !Fits(calls, s, n - 1, a.inputs, e);
    }
  }

  // ----- every translation -----

  // Calls that are not volatile are listed once, and use the state of the first that fits them.
  ghost predicate Sharing(cat: Catalog, calls: seq<Call>, s: State)
    requires Valid(s, |calls|)
  {
    && (forall j: nat, k: nat :: j < k < |s.aggs| && Identical(calls[s.aggs[j].call], calls[s.aggs[k].call]) ==>
          Volatile(cat, calls[s.aggs[k].call]))
    && (forall j: nat, k: nat :: k < |s.aggs| && Willing(cat, calls, s, k) && FirstFor(cat, calls, s, j, k) ==>
          s.aggs[j].transno == s.aggs[k].transno)
  }

  // The list follows the calls, and a volatile call starts a state of its own.
  predicate Ordered(cat: Catalog, calls: seq<Call>, s: State, n: nat)
    requires Valid(s, |calls|)
  {
    && (forall j :: 0 <= j < |s.aggs| ==> s.aggs[j].call < n)
    && (forall j, k :: 0 <= j < k < |s.aggs| ==> s.aggs[j].call < s.aggs[k].call)
    && (forall j, k :: 0 <= j < k < |s.aggs| && Volatile(cat, calls[s.aggs[k].call]) ==> s.aggs[j].transno != s.aggs[k].transno)
  }

  // The number of a call is that of an aggregate listed by then.
  predicate ByThen(s: State, numbers: seq<Numbers>) {
    forall c :: 0 <= c < |numbers| ==> 0 <= numbers[c].aggno < |s.aggs| && s.aggs[numbers[c].aggno].call <= c
  }

  lemma {:induction false} OrderedAdds(cat: Catalog, calls: seq<Call>, s: State, c: nat, t: int)
    requires c < |calls| && Inv(cat, calls, s) && Ordered(cat, calls, s, c)
    requires Valid(AddAgg(cat, calls, s, c, t), |calls|) && (Volatile(cat, calls[c]) ==> t == -1)
    ensures Ordered(cat, calls, AddAgg(cat, calls, s, c, t), c + 1)
  {
    var r, n := AddAgg(cat, calls, s, c, t), |s.aggs|;
    assert forall j :: 0 <= j < n ==> r.aggs[j] == s.aggs[j];
    assert r.aggs[n].call == c;
  }

  lemma {:induction false} OrderedStep(cat: Catalog, calls: seq<Call>, s: State, c: nat)
    requires c < |calls| && Inv(cat, calls, s) && Ordered(cat, calls, s, c)
    ensures Ordered(cat, calls, Next(cat, calls, s, c), c + 1)
  {
    var found := FoundAgg(cat, calls, s.aggs, calls[c]);
    FillKeepsInv(cat, calls, s, c);
    if found.aggno == -1 {
      SameInputsValid(calls, s, calls[c]);
      OrderedAdds(cat, calls, s, c, FoundTrans(s.trans, EntryOf(cat, calls[c]), found.transnos));
    }
  }

  lemma {:induction false} ByThenStep(cat: Catalog, calls: seq<Call>, s: State, numbers: seq<Numbers>)
    requires |numbers| < |calls| && Inv(cat, calls, s) && Ordered(cat, calls, s, |numbers|) && ByThen(s, numbers)
    ensures ByThen(Next(cat, calls, s, |numbers|), numbers + [NumbersOf(cat, calls, s, |numbers|)])
  {
    var t := Next(cat, calls, s, |numbers|);
    assert forall j :: 0 <= j < |s.aggs| ==> t.aggs[j] == s.aggs[j];
  }

  lemma {:induction false} RestOrdered(cat: Catalog, calls: seq<Call>, s: State, numbers: seq<Numbers>)
    requires |numbers| <= |calls| && Inv(cat, calls, s) && Ordered(cat, calls, s, |numbers|) && ByThen(s, numbers)
    ensures
      var r := FillRest(cat, calls, s, numbers);
      Valid(r.state, |calls|) && Ordered(cat, calls, r.state, |calls|) && ByThen(r.state, r.numbers)
    decreases |calls| - |numbers|
  {
    if |numbers| < |calls| {
      OrderedStep(cat, calls, s, |numbers|);
      ByThenStep(cat, calls, s, numbers);
      RestOrdered(cat, calls, Next(cat, calls, s, |numbers|), numbers + [NumbersOf(cat, calls, s, |numbers|)]);
    }
  }

  predicate Willing(cat: Catalog, calls: seq<Call>, s: State, k: nat)
    requires k < |s.aggs|
  {
    s.aggs[k].call < |calls| && s.aggs[k].shareable && !Volatile(cat, calls[s.aggs[k].call])
  }

  predicate FirstFor(cat: Catalog, calls: seq<Call>, s: State, j: nat, k: nat)
    requires k < |s.aggs|
  {
    s.aggs[k].call < |calls| && FirstFit(calls, s, j, calls[s.aggs[k].call].inputs, EntryOf(cat, calls[s.aggs[k].call]))
  }

  // A new aggregate changes nothing for those before it.
  lemma {:induction false} FitsBefore(cat: Catalog, calls: seq<Call>, s: State, c: nat, t: int, j: nat, inputs: Inputs, e: Entry)
    requires Inv(cat, calls, s) && c < |calls| && j < |s.aggs|
    ensures Fits(calls, AddAgg(cat, calls, s, c, t), j, inputs, e) <==> Fits(calls, s, j, inputs, e)
  {
  }

  lemma {:induction false} SharingAdds(cat: Catalog, calls: seq<Call>, s: State, c: nat, t: int)
    requires Inv(cat, calls, s) && c < |calls| && Sharing(cat, calls, s) && FoundAgg(cat, calls, s.aggs, calls[c]).aggno == -1
    requires Inv(cat, calls, AddAgg(cat, calls, s, c, t)) && (t == -1 || 0 <= t < |s.trans|)
    requires
      var e := EntryOf(cat, calls[c]);
      e.shareable && !Volatile(cat, calls[c]) ==>
        && (t == -1 <==> forall j: nat :: j < |s.aggs| ==> !Fits(calls, s, j, calls[c].inputs, e))
        && (forall j: nat :: j < |s.aggs| && FirstFit(calls, s, j, calls[c].inputs, e) ==> t == s.aggs[j].transno)
    ensures Sharing(cat, calls, AddAgg(cat, calls, s, c, t))
  {
    var r, n := AddAgg(cat, calls, s, c, t), |s.aggs|;
    forall j: nat, k: nat | j < k < |r.aggs| && Identical(calls[r.aggs[j].call], calls[r.aggs[k].call])
      ensures Volatile(cat, calls[r.aggs[k].call])
    {
      if k < n { assert r.aggs[j] == s.aggs[j] && r.aggs[k] == s.aggs[k]; } else { assert r.aggs[j] == s.aggs[j]; }
    }
    forall j: nat, k: nat | k < |r.aggs| && Willing(cat, calls, r, k) && FirstFor(cat, calls, r, j, k)
      ensures r.aggs[j].transno == r.aggs[k].transno
    {
      FirstForAdded(cat, calls, s, c, t, j, k);
    }
  }

  lemma {:induction false} FirstForAdded(cat: Catalog, calls: seq<Call>, s: State, c: nat, t: int, j: nat, k: nat)
    requires Inv(cat, calls, s) && c < |calls| && Sharing(cat, calls, s)
    requires Inv(cat, calls, AddAgg(cat, calls, s, c, t)) && (t == -1 || 0 <= t < |s.trans|)
    requires
      var e := EntryOf(cat, calls[c]);
      e.shareable && !Volatile(cat, calls[c]) ==>
        && (t == -1 <==> forall j: nat :: j < |s.aggs| ==> !Fits(calls, s, j, calls[c].inputs, e))
        && (forall j: nat :: j < |s.aggs| && FirstFit(calls, s, j, calls[c].inputs, e) ==> t == s.aggs[j].transno)
    requires
      var r := AddAgg(cat, calls, s, c, t);
      k < |r.aggs| && Willing(cat, calls, r, k) && FirstFor(cat, calls, r, j, k)
    ensures
      var r := AddAgg(cat, calls, s, c, t);
      r.aggs[j].transno == r.aggs[k].transno
  {
    var r, n := AddAgg(cat, calls, s, c, t), |s.aggs|;
    var inputs, e := calls[r.aggs[k].call].inputs, EntryOf(cat, calls[r.aggs[k].call]);
    forall i: nat | i < n ensures Fits(calls, r, i, inputs, e) <==> Fits(calls, s, i, inputs, e) {
      FitsBefore(cat, calls, s, c, t, i, inputs, e);
    }
    assert Uses(cat, calls, r.aggs[k], r.trans[r.aggs[k].transno]);
    assert Fits(calls, r, k, inputs, e) && j <= k;
    if k < n {
      assert r.aggs[k] == s.aggs[k] && r.aggs[j] == s.aggs[j] && FirstFor(cat, calls, s, j, k);
    } else if j < n {
      assert r.aggs[j] == s.aggs[j] && FirstFit(calls, s, j, inputs, e);
    }
  }

  lemma {:induction false} FillShares(cat: Catalog, calls: seq<Call>, s: State, c: nat)
    requires c < |calls| && Inv(cat, calls, s) && Sharing(cat, calls, s)
    ensures Sharing(cat, calls, Next(cat, calls, s, c))
  {
    FillKeepsInv(cat, calls, s, c);
    var found := FoundAgg(cat, calls, s.aggs, calls[c]);
    if found.aggno == -1 {
      SameInputsValid(calls, s, calls[c]);
      var e := EntryOf(cat, calls[c]);
      var t := FoundTrans(s.trans, e, found.transnos);
      if e.shareable && !Volatile(cat, calls[c]) { FoundIsFirst(calls, s, calls[c], e, |s.aggs|); }
      SharingAdds(cat, calls, s, c, t);
    }
  }

  lemma {:induction false} RestShares(cat: Catalog, calls: seq<Call>, s: State, numbers: seq<Numbers>)
    requires Inv(cat, calls, s) && Sharing(cat, calls, s) && |numbers| <= |calls|
    ensures Inv(cat, calls, FillRest(cat, calls, s, numbers).state) && Sharing(cat, calls, FillRest(cat, calls, s, numbers).state)
    decreases |calls| - |numbers|
  {
    if |numbers| < |calls| {
      FillShares(cat, calls, s, |numbers|);
      RestShares(cat, calls, Next(cat, calls, s, |numbers|), numbers + [NumbersOf(cat, calls, s, |numbers|)]);
    }
  }

  lemma {:induction false} Translated(cat: Catalog, calls: seq<Call>)
    ensures
      var t := Translate(cat, calls);
      && Inv(cat, calls, t.state) && Sharing(cat, calls, t.state) && Ordered(cat, calls, t.state, |calls|)
      && |t.numbers| == |calls| && AllNumbered(cat, calls, t.state, t.numbers) && ByThen(t.state, t.numbers)
  {
    RestNumbered(cat, calls, State([], []), []);
    RestShares(cat, calls, State([], []), []);
    RestOrdered(cat, calls, State([], []), []);
  }

  // Neither the inputs nor the direct arguments are volatile.
  predicate Steady(cat: Catalog, c: Call) { !cat.volatileInputs(c.inputs) && !cat.volatileDirect(c.directArgs) }

  /** Two calls get the same aggregate if and only if they are identical and not volatile. */
  lemma {:induction false} SameAggIff(cat: Catalog, calls: seq<Call>, c: nat, d: nat)
    requires c < d < |calls|
    ensures
      var n := Translate(cat, calls).numbers;
      |n| == |calls| && (n[c].aggno == n[d].aggno <==> calls[c] == calls[d] && Steady(cat, calls[d]))
  {
    Translated(cat, calls);
    var t := Translate(cat, calls);
    var s, j, k := t.state, t.numbers[c].aggno, t.numbers[d].aggno;
    assert Numbered(cat, calls, s, c, t.numbers[c]) && Numbered(cat, calls, s, d, t.numbers[d]);
    if calls[c] == calls[d] && Steady(cat, calls[d]) {
      assert Identical(calls[s.aggs[j].call], calls[s.aggs[k].call]);
      assert calls[s.aggs[j].call] == calls[d] && calls[s.aggs[k].call] == calls[d];
    }
  }

  // Two entries make the same transition values.
  predicate SameKernel(e: Entry, f: Entry) {
    && e.transfn == f.transfn && e.transtype == f.transtype && e.serialfn == f.serialfn && e.deserialfn == f.deserialfn
    && e.combinefn == f.combinefn && e.init == f.init
  }

  lemma {:induction false} SharedState(cat: Catalog, calls: seq<Call>, s: State, j: nat, k: nat)
    requires Inv(cat, calls, s) && Sharing(cat, calls, s) && j < |s.aggs| && k < |s.aggs|
    requires Willing(cat, calls, s, j) && Willing(cat, calls, s, k)
    requires calls[s.aggs[j].call].inputs == calls[s.aggs[k].call].inputs
    requires SameKernel(EntryOf(cat, calls[s.aggs[j].call]), EntryOf(cat, calls[s.aggs[k].call]))
    ensures s.aggs[j].transno == s.aggs[k].transno
  {
    var inputs, e, f := calls[s.aggs[j].call].inputs, EntryOf(cat, calls[s.aggs[j].call]), EntryOf(cat, calls[s.aggs[k].call]);
    assert Uses(cat, calls, s.aggs[j], s.trans[s.aggs[j].transno]);
    assert Fits(calls, s, j, inputs, e);
    var i := FirstOf(calls, s, j, inputs, e);
    forall x: nat ensures Fits(calls, s, x, inputs, e) <==> Fits(calls, s, x, inputs, f) {}
    assert FirstFor(cat, calls, s, i, j) && FirstFor(cat, calls, s, i, k);
  }

  lemma {:induction false} FirstOf(calls: seq<Call>, s: State, j: nat, inputs: Inputs, e: Entry) returns (i: nat)
    requires Fits(calls, s, j, inputs, e)
    ensures FirstFit(calls, s, i, inputs, e)
  {
    if x: nat :| x < j && Fits(calls, s, x, inputs, e) {
      i := FirstOf(calls, s, x, inputs, e);
    } else {
      i := j;
    }
  }

  // The calls have the same inputs, their functions, type and initial value make the same
  // transition values, and neither final function spoils the state.
  predicate MayShare(cat: Catalog, a: Call, b: Call) {
    var e, f := EntryOf(cat, a), EntryOf(cat, b);
    a.inputs == b.inputs && SameKernel(e, f) && e.shareable && f.shareable
  }

  // The states that fit call d are those of the aggregates that may share with it.
  lemma {:induction false} FitsIff(cat: Catalog, calls: seq<Call>, s: State, i: nat, d: nat)
    requires Inv(cat, calls, s) && i < |s.aggs| && d < |calls| && EntryOf(cat, calls[d]).shareable
    ensures Fits(calls, s, i, calls[d].inputs, EntryOf(cat, calls[d])) <==> MayShare(cat, calls[s.aggs[i].call], calls[d])
  {
    assert Uses(cat, calls, s.aggs[i], s.trans[s.aggs[i].transno]);
  }

  // Two aggregates with one state may share it.
  lemma {:induction false} SharersMayShare(cat: Catalog, calls: seq<Call>, s: State, j: nat, k: nat)
    requires Inv(cat, calls, s) && j < |s.aggs| && k < |s.aggs| && j != k && s.aggs[j].transno == s.aggs[k].transno
    ensures MayShare(cat, calls[s.aggs[j].call], calls[s.aggs[k].call])
  {
    SharedByShareable(cat, calls, s, j, k);
    assert Uses(cat, calls, s.aggs[j], s.trans[s.aggs[j].transno]) && Uses(cat, calls, s.aggs[k], s.trans[s.aggs[k].transno]);
  }

  // A volatile call lends its state if and only if it is the first that may.
  lemma {:induction false} LendsIff(cat: Catalog, calls: seq<Call>, s: State, j: nat, k: nat)
    requires Inv(cat, calls, s) && Sharing(cat, calls, s) && Ordered(cat, calls, s, |calls|)
    requires j < |s.aggs| && k < |s.aggs| && Volatile(cat, calls[s.aggs[j].call]) && Willing(cat, calls, s, k)
    requires MayShare(cat, calls[s.aggs[j].call], calls[s.aggs[k].call])
    ensures s.aggs[j].transno == s.aggs[k].transno <==> forall i: nat :: i < j ==> !MayShare(cat, calls[s.aggs[i].call], calls[s.aggs[j].call])
  {
    var d := s.aggs[k].call;
    FitsIff(cat, calls, s, j, d);
    var first := FirstOf(calls, s, j, calls[d].inputs, EntryOf(cat, calls[d]));
    assert FirstFor(cat, calls, s, first, k);
    forall i: nat | i <= j
      ensures Fits(calls, s, i, calls[d].inputs, EntryOf(cat, calls[d])) <==> MayShare(cat, calls[s.aggs[i].call], calls[s.aggs[j].call])
    {
      FitsIff(cat, calls, s, i, d);
    }
  }

  // The calls before a volatile one are those of the aggregates listed before it.
  lemma {:induction false} EarlierIff(cat: Catalog, calls: seq<Call>, c: nat)
    requires c < |calls| && !Steady(cat, calls[c])
    ensures
      var t := Translate(cat, calls);
      && |t.numbers| == |calls| && 0 <= t.numbers[c].aggno < |t.state.aggs| && Valid(t.state, |calls|)
      && t.state.aggs[t.numbers[c].aggno].call == c
      && ((forall b: nat :: b < c ==> !MayShare(cat, calls[b], calls[c])) <==>
          forall i: nat :: i < t.numbers[c].aggno ==> !MayShare(cat, calls[t.state.aggs[i].call], calls[c]))
  {
    Translated(cat, calls);
    var t := Translate(cat, calls);
    var s, j := t.state, t.numbers[c].aggno;
    assert Numbered(cat, calls, s, c, t.numbers[c]);
    forall b: nat | b < c ensures t.numbers[b].aggno < j && calls[s.aggs[t.numbers[b].aggno].call] == calls[b] {
      assert Numbered(cat, calls, s, b, t.numbers[b]);
    }
    if forall i: nat :: i < j ==> !MayShare(cat, calls[s.aggs[i].call], calls[c]) {
      forall b: nat | b < c ensures !MayShare(cat, calls[b], calls[c]) {
        assert !MayShare(cat, calls[s.aggs[t.numbers[b].aggno].call], calls[c]);
      }
    }
  }

  /** A call gets the transition state of an earlier one if and only if it is not volatile and
      the two are identical, or they may share and the earlier one is not volatile or is the
      first with which it may share. */
  lemma {:induction false} SameTransIff(cat: Catalog, calls: seq<Call>, c: nat, d: nat)
    requires c < d < |calls|
    ensures
      var n := Translate(cat, calls).numbers;
      |n| == |calls| && (n[c].transno == n[d].transno <==>
        && Steady(cat, calls[d])
        && (calls[c] == calls[d]
            || (MayShare(cat, calls[c], calls[d])
                && (Steady(cat, calls[c]) || forall b: nat :: b < c ==> !MayShare(cat, calls[b], calls[c])))))
  {
    Translated(cat, calls);
    SameAggIff(cat, calls, c, d);
    var t := Translate(cat, calls);
    var s, j, k := t.state, t.numbers[c].aggno, t.numbers[d].aggno;
    assert Numbered(cat, calls, s, c, t.numbers[c]) && Numbered(cat, calls, s, d, t.numbers[d]);
    assert calls[s.aggs[j].call] == calls[c] && calls[s.aggs[k].call] == calls[d];
    if j != k {
      if s.aggs[j].transno == s.aggs[k].transno { SharersMayShare(cat, calls, s, j, k); }
      if Steady(cat, calls[d]) && MayShare(cat, calls[c], calls[d]) {
        assert Willing(cat, calls, s, k);
        if Steady(cat, calls[c]) {
          SharedState(cat, calls, s, j, k);
        } else {
          EarlierIff(cat, calls, c);
          LendsIff(cat, calls, s, j, k);
        }
      }
    }
  }
}
