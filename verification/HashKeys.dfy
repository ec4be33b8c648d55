/**
  Hash joins with IS NOT DISTINCT FROM clauses (WrapHashKeyWithCoalesce and
  TranslateDXLHashJoin, gpopt/translate/CTranslatorDXLToPlStmt.cpp).

  PostgreSQL's hash join leaves rows with a NULL key out of the table and looks only at
  rows with the same hash value. As soon as one clause is null-safe, every key on both
  sides is wrapped as COALESCE(key, zero), and the original conditions are rechecked on
  the rows of the bucket.
 */
module HashKeys {
  import opened Values

  // A clause compares an expression of the outer row with one of the inner row; the two
  // sides have hash functions and typed zeros of their own.
  datatype Clause = Clause(nullSafe: bool, outer: Row -> Value, inner: Row -> Value, eq: (int, int) -> bool,
                           outerHash: int -> nat, innerHash: int -> nat, outerZero: int, innerZero: int)

  // Equal values hash equally.
  ghost predicate ValuesHash(c: Clause) { forall a, b :: c.eq(a, b) ==> c.outerHash(a) == c.innerHash(b) }

  // So do the two zeros that stand for NULLs.
  predicate ZerosHash(c: Clause) { c.outerHash(c.outerZero) == c.innerHash(c.innerZero) }

  ghost predicate Hashable(c: Clause) { ValuesHash(c) && (c.nullSafe ==> ZerosHash(c)) }

  // ----- the conditions -----

  predicate Holds(c: Clause, o: Row, u: Row) {
    var a, b := c.outer(o), c.inner(u);
    if a.Null? || b.Null? then c.nullSafe && a.Null? && b.Null? else c.eq(a.v, b.v)
  }

  predicate AllHold(cs: seq<Clause>, o: Row, u: Row) {
    forall i :: 0 <= i < |cs| ==> Holds(cs[i], o, u)
  }

  /** The inner rows that a nested loop finds for an outer row. */
  function NestedLoop(cs: seq<Clause>, o: Row, inner: seq<Row>): seq<Row> {
    if inner == [] then []
    else (if AllHold(cs, o, inner[0]) then [inner[0]] else []) + NestedLoop(cs, o, inner[1..])
  }

  // ----- the translation -----

  datatype Key = Plain(clause: nat) | Coalesced(clause: nat)

  datatype HashPlan = HashPlan(clauses: seq<Clause>, outerKeys: seq<Key>, innerKeys: seq<Key>)

  predicate AnyNullSafe(cs: seq<Clause>) { exists i :: 0 <= i < |cs| && cs[i].nullSafe }

  function KeysOf(cs: seq<Clause>): (keys: seq<Key>)
    ensures |keys| == |cs|
    ensures forall i :: 0 <= i < |cs| ==> keys[i] == if AnyNullSafe(cs) then Coalesced(i) else Plain(i)
  {
    seq(|cs|, i requires 0 <= i < |cs| => if AnyNullSafe(cs) then Coalesced(i) else Plain(i))
  }

  // The hash-key part of TranslateDXLHashJoin.
  method TranslateHashKeys(cs: seq<Clause>) returns (plan: HashPlan)
    ensures plan == HashPlan(cs, KeysOf(cs), KeysOf(cs))
  {
    var nullSafe := false;
    var conditions := [];
    for i := 0 to |cs|
      invariant conditions == cs[..i]
      invariant nullSafe <==> exists k :: 0 <= k < i && cs[k].nullSafe
    {
      if cs[i].nullSafe { nullSafe := true; }
      conditions := conditions + [cs[i]];
    }
    var outerKeys, innerKeys := [], [];
    for i := 0 to |cs|
      invariant outerKeys == innerKeys == KeysOf(cs)[..i]
    {
      var outerKey, innerKey := Plain(i), Plain(i);
      if nullSafe {
        outerKey, innerKey := Coalesced(i), Coalesced(i);
      }
      outerKeys := outerKeys + [outerKey];
      innerKeys := innerKeys + [innerKey];
    }
    plan := HashPlan(conditions, outerKeys, innerKeys);
  }

  // ----- the executor -----

  // The hash value of a key; NULL keys that are not wrapped have none.
  function KeyHash(k: Key, v: Value, hash: int -> nat, zero: int): Value {
    if v.Datum? then Datum(hash(v.v)) else if k.Coalesced? then Datum(hash(zero)) else Null
  }

  function OuterHash(cs: seq<Clause>, k: Key, o: Row): Value
    requires k.clause < |cs|
  {
    var c := cs[k.clause];
    KeyHash(k, c.outer(o), c.outerHash, c.outerZero)
  }

  function InnerHash(cs: seq<Clause>, k: Key, u: Row): Value
    requires k.clause < |cs|
  {
    var c := cs[k.clause];
    KeyHash(k, c.inner(u), c.innerHash, c.innerZero)
  }

  predicate KeysValid(cs: seq<Clause>, keys: seq<Key>) { forall i :: 0 <= i < |keys| ==> keys[i].clause < |cs| }

  function OuterHashes(cs: seq<Clause>, keys: seq<Key>, o: Row): (r: Row)
    requires KeysValid(cs, keys)
    ensures |r| == |keys| && forall i :: 0 <= i < |keys| ==> r[i] == OuterHash(cs, keys[i], o)
  {
    seq(|keys|, i requires 0 <= i < |keys| => OuterHash(cs, keys[i], o))
  }

  function InnerHashes(cs: seq<Clause>, keys: seq<Key>, u: Row): (r: Row)
    requires KeysValid(cs, keys)
    ensures |r| == |keys| && forall i :: 0 <= i < |keys| ==> r[i] == InnerHash(cs, keys[i], u)
  {
    seq(|keys|, i requires 0 <= i < |keys| => InnerHash(cs, keys[i], u))
  }

  // Buckets by combined hash value; rows with a NULL key are not in the table.
  type Buckets = map<nat, seq<Row>>

  function Bucket(t: Buckets, h: nat): seq<Row> { if h in t then t[h] else [] }

  function Build(cs: seq<Clause>, keys: seq<Key>, combine: Row -> nat, inner: seq<Row>): Buckets
    requires KeysValid(cs, keys)
  {
    if inner == [] then map[]
    else
      var n := |inner| - 1;
      var t, hs := Build(cs, keys, combine, inner[..n]), InnerHashes(cs, keys, inner[n]);
      if Null in hs then t else t[combine(hs) := Bucket(t, combine(hs)) + [inner[n]]]
  }

  /** The inner rows that the hash join finds for an outer row: those of its bucket that pass the recheck. */
  function Probe(plan: HashPlan, combine: Row -> nat, o: Row, inner: seq<Row>): seq<Row>
    requires KeysValid(plan.clauses, plan.outerKeys) && KeysValid(plan.clauses, plan.innerKeys)
  {
    var hs := OuterHashes(plan.clauses, plan.outerKeys, o);
    if Null in hs then []
    else NestedLoop(plan.clauses, o, Bucket(Build(plan.clauses, plan.innerKeys, combine, inner), combine(hs)))
  }

  // ----- correctness -----

  /** A pair that satisfies the clauses has no NULL hash. It has the same hashes on both sides
      if and only if the zeros hash equally in every clause in which it has NULLs. */
  lemma {:induction false} MatchingHashesIff(cs: seq<Clause>, o: Row, u: Row)
    requires (forall i :: 0 <= i < |cs| ==> ValuesHash(cs[i])) && AllHold(cs, o, u)
    ensures Null !in OuterHashes(cs, KeysOf(cs), o) && Null !in InnerHashes(cs, KeysOf(cs), u)
    ensures OuterHashes(cs, KeysOf(cs), o) == InnerHashes(cs, KeysOf(cs), u)
       <==> forall i :: 0 <= i < |cs| && cs[i].outer(o).Null? ==> ZerosHash(cs[i])
  {
    var keys := KeysOf(cs);
    forall i | 0 <= i < |cs|
      ensures OuterHash(cs, keys[i], o) != Null && InnerHash(cs, keys[i], u) != Null
      ensures OuterHash(cs, keys[i], o) == InnerHash(cs, keys[i], u) <==> (cs[i].outer(o).Null? ==> ZerosHash(cs[i]))
    {
      assert ValuesHash(cs[i]) && Holds(cs[i], o, u);
      if cs[i].outer(o).Null? { assert AnyNullSafe(cs); }
    }
    var a, b := OuterHashes(cs, keys, o), InnerHashes(cs, keys, u);
    assert a == b <==> forall i :: 0 <= i < |cs| ==> a[i] == b[i];
  }

  lemma {:induction false} MatchingHashes(cs: seq<Clause>, o: Row, u: Row)
    requires (forall i :: 0 <= i < |cs| ==> Hashable(cs[i])) && AllHold(cs, o, u)
    ensures OuterHashes(cs, KeysOf(cs), o) == InnerHashes(cs, KeysOf(cs), u)
    ensures Null !in OuterHashes(cs, KeysOf(cs), o)
  {
    forall i | 0 <= i < |cs| ensures ValuesHash(cs[i]) && (cs[i].outer(o).Null? ==> ZerosHash(cs[i])) {
      assert Hashable(cs[i]) && Holds(cs[i], o, u);
    }
    MatchingHashesIff(cs, o, u);
  }

  lemma {:induction false} NestedLoopConcat(cs: seq<Clause>, o: Row, a: seq<Row>, b: seq<Row>)
    ensures NestedLoop(cs, o, a + b) == NestedLoop(cs, o, a) + NestedLoop(cs, o, b)
  {
    if a == [] {
      assert a + b == b;
    } else {
      assert (a + b)[1..] == a[1..] + b;
      NestedLoopConcat(cs, o, a[1..], b);
    }
  }

  // The bucket of an outer row holds, in order, every inner row that satisfies the clauses with it.
  lemma {:induction false} BucketComplete(cs: seq<Clause>, combine: Row -> nat, o: Row, inner: seq<Row>)
    requires forall i :: 0 <= i < |cs| ==> Hashable(cs[i])
    ensures
      var h := combine(OuterHashes(cs, KeysOf(cs), o));
      NestedLoop(cs, o, Bucket(Build(cs, KeysOf(cs), combine, inner), h)) == NestedLoop(cs, o, inner)
  {
    if inner != [] {
      var keys, n := KeysOf(cs), |inner| - 1;
      var u, h := inner[n], combine(OuterHashes(cs, keys, o));
      BucketComplete(cs, combine, o, inner[..n]);
      assert inner == inner[..n] + [u];
      NestedLoopConcat(cs, o, inner[..n], [u]);
      NestedLoopConcat(cs, o, Bucket(Build(cs, keys, combine, inner[..n]), h), [u]);
      if AllHold(cs, o, u) { MatchingHashes(cs, o, u); }
    }
  }

  // An outer row with a NULL key matches nothing.
  lemma {:induction false} NullKeyMatchesNothing(cs: seq<Clause>, o: Row, inner: seq<Row>)
    requires (forall i :: 0 <= i < |cs| ==> Hashable(cs[i])) && Null in OuterHashes(cs, KeysOf(cs), o)
    ensures NestedLoop(cs, o, inner) == []
  {
    if inner != [] {
      if AllHold(cs, o, inner[0]) {
        MatchingHashes(cs, o, inner[0]);
        assert false;
      }
      NullKeyMatchesNothing(cs, o, inner[1..]);
    }
  }

  /** The hash join finds, in order, exactly the rows the nested loop finds, for any mix of clauses. */
  lemma {:induction false} HashJoinCorrect(cs: seq<Clause>, combine: Row -> nat, o: Row, inner: seq<Row>)
    requires forall i :: 0 <= i < |cs| ==> Hashable(cs[i])
    ensures Probe(HashPlan(cs, KeysOf(cs), KeysOf(cs)), combine, o, inner) == NestedLoop(cs, o, inner)
  {
    if Null in OuterHashes(cs, KeysOf(cs), o) {
      NullKeyMatchesNothing(cs, o, inner);
    } else {
      BucketComplete(cs, combine, o, inner);
    }
  }

  // Zeros that hash differently lose two NULLs that are not distinct.
  lemma {:induction false} DifferentZerosLoseNulls(c: Clause, combine: Row -> nat, o: Row, u: Row)
    requires c.nullSafe && c.outer(o) == Null && c.inner(u) == Null
    requires combine([Datum(c.outerHash(c.outerZero))]) != combine([Datum(c.innerHash(c.innerZero))])
    ensures NestedLoop([c], o, [u]) == [u]
    ensures Probe(HashPlan([c], KeysOf([c]), KeysOf([c])), combine, o, [u]) == []
  {
    var cs := [c];
    assert AllHold(cs, o, u) && cs[0].nullSafe;
    assert OuterHashes(cs, KeysOf(cs), o) == [Datum(c.outerHash(c.outerZero))];
    assert InnerHashes(cs, KeysOf(cs), u) == [Datum(c.innerHash(c.innerZero))];
    assert [u][..0] == [] && Build(cs, KeysOf(cs), combine, []) == map[];
  }

  // ----- why the keys are wrapped -----

  // One null-safe clause on the first columns.
  const NULL_SAFE := Clause(true, (r: Row) => At(r, 1), (r: Row) => At(r, 1), (a: int, b: int) => a == b,
                            (v: int) => if v < 0 then 0 else v, (v: int) => if v < 0 then 0 else v, 0, 0)

  /** With plain keys two NULLs that are not distinct are never found. */
  lemma {:induction false} PlainKeysLoseNulls(combine: Row -> nat)
    ensures Hashable(NULL_SAFE)
    ensures NestedLoop([NULL_SAFE], [Null], [[Null]]) == [[Null]]
    ensures Probe(HashPlan([NULL_SAFE], [Plain(0)], [Plain(0)]), combine, [Null], [[Null]]) == []
    ensures Probe(HashPlan([NULL_SAFE], KeysOf([NULL_SAFE]), KeysOf([NULL_SAFE])), combine, [Null], [[Null]]) == [[Null]]
  {
    assert AllHold([NULL_SAFE], [Null], [Null]);
    assert OuterHashes([NULL_SAFE], [Plain(0)], [Null])[0] == Null;
    HashJoinCorrect([NULL_SAFE], combine, [Null], [[Null]]);
  }
}
