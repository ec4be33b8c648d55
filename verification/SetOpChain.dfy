/**
  N-ary set operations as a chain of binary ones (the set-operation part of
  TranslateDXLAppend, gpopt/translate/CTranslatorDXLToPlStmt.cpp). The results are those of
  section 7.13 of ISO/IEC 9075-2:2003.
 */
module SetOpChain {
  import opened Values

  type Bag = multiset<Row>

  datatype Kind = Intersect | IntersectAll | Except | ExceptAll | OtherKind

  datatype Column = Column(type_: nat, collation: nat, junk: bool)

  // An input's columns and row estimate.
  datatype Input = Input(columns: seq<Column>, rows: real)

  datatype Plan =
    | Leaf(number: nat, rows: real)
    | SetOp(kind: Kind, left: Plan, right: Plan, rows: real, groups: int)

  datatype Result = Raise | Built(plan: Plan)

  // ----- bags -----

  function Elements(b: Bag): set<Row> { set r | r in b }

  /** What one SetOp node returns. */
  function Apply(kind: Kind, a: Bag, b: Bag): Bag {
    match kind
    case Intersect => multiset(Elements(a) * Elements(b))
    case IntersectAll => a * b
    case Except => multiset(Elements(a) - Elements(b))
    case ExceptAll => a - b
    case OtherKind => multiset{}
  }

  function Eval(p: Plan, inputs: seq<Bag>): Bag {
    match p
    case Leaf(n, _) => if n < |inputs| then inputs[n] else multiset{}
    case SetOp(kind, left, right, _, _) => Apply(kind, Eval(left, inputs), Eval(right, inputs))
  }

  // ----- the chain -----

  const LONG_MAX: int := 0x7FFF_FFFF_FFFF_FFFF

  // A row estimate as a number of groups, in the range of a 64-bit integer and at least 1.
  function Clamp(rows: real): (g: int)
    ensures 1 <= g <= LONG_MAX
    ensures (rows < 1.0 ==> g == 1) && (rows > LONG_MAX as real ==> g == LONG_MAX)
    ensures 1.0 <= rows <= LONG_MAX as real ==> g as real <= rows < g as real + 1.0
  {
    if rows >= (LONG_MAX + 1) as real then LONG_MAX else if rows.Floor < 1 then 1 else rows.Floor
  }

  // The left-deep tree over the first n inputs, in their order. All but the last node of
  // the whole chain take their row estimate from the left.
  function Chain(kind: Kind, inputs: seq<Input>, total: real, n: nat): (p: Plan)
    requires 1 <= n <= |inputs|
    ensures p.rows == if n < |inputs| || n == 1 then inputs[0].rows else total
    ensures n > 1 ==> p.SetOp? && p.groups == Clamp(inputs[0].rows) && p.right.rows == inputs[n - 1].rows
  {
    if n == 1 then Leaf(0, inputs[0].rows)
    else
      var left := Chain(kind, inputs, total, n - 1);
      SetOp(kind, left, Leaf(n - 1, inputs[n - 1].rows), if n == |inputs| then total else left.rows, Clamp(left.rows))
  }

  // ----- what is refused -----

  // The columns of the output, by type, and the types that can be compared.
  predicate Aligned(input: Input, types: seq<nat>, first: Input) { AlignedTo(input, types, first, |types|) }

  // The first n columns are no junk columns and have the types and collations they should have.
  predicate AlignedTo(input: Input, types: seq<nat>, first: Input, n: nat) {
    && |input.columns| == |types| == |first.columns| && n <= |types|
    && forall c :: 0 <= c < n ==> Fits(input.columns[c], types[c], first.columns[c])
  }

  predicate Translatable(kind: Kind, inputs: seq<Input>, types: seq<nat>, quals: nat, comparable: nat -> bool) {
    && |inputs| >= 2 && quals == 0 && kind != OtherKind
    && (forall i :: 0 <= i < |inputs| ==> Aligned(inputs[i], types, inputs[0]))
    && (forall c :: 0 <= c < |types| ==> comparable(types[c]))
  }

  // The columns of one position, over all inputs.
  method CheckColumn(inputs: seq<Input>, c: nat, type_: nat) returns (ok: bool)
    requires inputs != [] && forall i :: 0 <= i < |inputs| ==> c < |inputs[i].columns|
    ensures ok <==> forall i :: 0 <= i < |inputs| ==> Fits(inputs[i].columns[c], type_, inputs[0].columns[c])
  {
    for i := 0 to |inputs|
      invariant forall k :: 0 <= k < i ==> Fits(inputs[k].columns[c], type_, inputs[0].columns[c])
    {
      var column := inputs[i].columns[c];
      if column.junk || column.type_ != type_ || column.collation != inputs[0].columns[c].collation {
        assert !Fits(column, type_, inputs[0].columns[c]);
        return false;
      }
    }
    ok := true;
  }

  method CheckColumns(inputs: seq<Input>, types: seq<nat>) returns (ok: bool)
    requires inputs != []
    ensures ok <==> forall i :: 0 <= i < |inputs| ==> Aligned(inputs[i], types, inputs[0])
  {
    for i := 0 to |inputs|
      invariant forall k :: 0 <= k < i ==> |inputs[k].columns| == |types|
    {
      if |inputs[i].columns| != |types| {
        assert !Aligned(inputs[i], types, inputs[0]);
        return false;
      }
    }
    for c := 0 to |types|
      invariant forall i :: 0 <= i < |inputs| ==> AlignedTo(inputs[i], types, inputs[0], c)
    {
      ok := CheckColumn(inputs, c, types[c]);
      if !ok {
        var i :| 0 <= i < |inputs| && !Fits(inputs[i].columns[c], types[c], inputs[0].columns[c]);
        assert !Aligned(inputs[i], types, inputs[0]);
        return;
      }
    }
    ok := true;
  }

  predicate Fits(column: Column, type_: nat, first: Column) {
    !column.junk && column.type_ == type_ && column.collation == first.collation
  }

  /** The set-operation part of TranslateDXLAppend; `total` is the operator's own row estimate */
  method TranslateSetOp(kind: Kind, inputs: seq<Input>, types: seq<nat>, quals: nat, comparable: nat -> bool, total: real)
    returns (r: Result)
    ensures r.Raise? <==> !Translatable(kind, inputs, types, quals, comparable)
    ensures r.Built? ==> r.plan == Chain(kind, inputs, total, |inputs|)
  {
    if |inputs| < 2 || quals != 0 { return Raise; }
    var aligned := CheckColumns(inputs, types);
    if !aligned || kind == OtherKind { return Raise; }
    var left := Leaf(0, inputs[0].rows);
    for i := 1 to |inputs|
      invariant left == Chain(kind, inputs, total, i)
      invariant i > 1 ==> forall c :: 0 <= c < |types| ==> comparable(types[c])
    {
      for c := 0 to |types|
        invariant forall k :: 0 <= k < c ==> comparable(types[k])
      {
        if !comparable(types[c]) { return Raise; }
      }
      var rows := if i + 1 == |inputs| then total else left.rows;
      left := SetOp(kind, left, Leaf(i, inputs[i].rows), rows, Clamp(left.rows));
    }
    r := Built(left);
  }

  // ----- the closed forms -----

  function MinCount(bags: seq<Bag>, n: nat, r: Row): nat
    requires 1 <= n <= |bags|
  {
    if n == 1 then bags[0][r]
    else
      var m := MinCount(bags, n - 1, r);
      if bags[n - 1][r] < m then bags[n - 1][r] else m
  }

  // How often a row occurs in the second to the n-th bag.
  function SumCount(bags: seq<Bag>, n: nat, r: Row): nat
    requires 1 <= n <= |bags|
  {
    if n == 1 then 0 else SumCount(bags, n - 1, r) + bags[n - 1][r]
  }

  /** The multiplicity of a row in the n-ary operation. */
  function ClosedCount(kind: Kind, bags: seq<Bag>, n: nat, r: Row): nat
    requires 2 <= n <= |bags|
  {
    match kind
    case Intersect => if MinCount(bags, n, r) > 0 then 1 else 0
    case IntersectAll => MinCount(bags, n, r)
    case Except => if bags[0][r] > 0 && SumCount(bags, n, r) == 0 then 1 else 0
    case ExceptAll =>
      if bags[0][r] > SumCount(bags, n, r) then bags[0][r] - SumCount(bags, n, r) else 0
    case OtherKind => 0
  }

  // The same for a chain of any length, before the first operation removes duplicates.
  function ChainCount(kind: Kind, bags: seq<Bag>, n: nat, r: Row): nat
    requires 1 <= n <= |bags|
  {
    if n == 1 then bags[0][r] else ClosedCount(kind, bags, n, r)
  }

  lemma {:induction false} ApplyCount(kind: Kind, a: Bag, b: Bag, r: Row)
    ensures Apply(kind, a, b)[r] ==
      match kind
      case Intersect => if a[r] > 0 && b[r] > 0 then 1 else 0
      case IntersectAll => if a[r] < b[r] then a[r] else b[r]
      case Except => if a[r] > 0 && b[r] == 0 then 1 else 0
      case ExceptAll => if a[r] > b[r] then a[r] - b[r] else 0
      case OtherKind => 0
  {
    assert r in Elements(a) <==> a[r] > 0;
    assert r in Elements(b) <==> b[r] > 0;
  }

  lemma {:induction false} ChainCounts(kind: Kind, inputs: seq<Input>, total: real, bags: seq<Bag>, n: nat, r: Row)
    requires 1 <= n <= |inputs| == |bags| && kind != OtherKind
    ensures Eval(Chain(kind, inputs, total, n), bags)[r] == ChainCount(kind, bags, n, r)
    decreases n
  {
    if n > 1 {
      ChainCounts(kind, inputs, total, bags, n - 1, r);
      ApplyCount(kind, Eval(Chain(kind, inputs, total, n - 1), bags), bags[n - 1], r);
    }
  }

  /** The chain over n >= 2 inputs returns every row exactly as often as the n-ary operation. */
  lemma {:induction false} ChainIsClosedForm(kind: Kind, inputs: seq<Input>, total: real, bags: seq<Bag>)
    requires 2 <= |inputs| == |bags| && kind != OtherKind
    ensures forall r :: Eval(Chain(kind, inputs, total, |inputs|), bags)[r] == ClosedCount(kind, bags, |bags|, r)
  {
    forall r ensures Eval(Chain(kind, inputs, total, |inputs|), bags)[r] == ClosedCount(kind, bags, |bags|, r) {
      ChainCounts(kind, inputs, total, bags, |inputs|, r);
    }
  }

  // ----- sizes -----

  lemma {:induction false} ApplyBelow(kind: Kind, a: Bag, b: Bag)
    ensures Apply(kind, a, b) <= a
  {
    forall r ensures Apply(kind, a, b)[r] <= a[r] {
      ApplyCount(kind, a, b, r);
    }
  }

  lemma {:induction false} PartSize(a: Bag, b: Bag)
    requires a <= b
    ensures |a| <= |b|
  {
    assert b == a + (b - a);
  }

  /** Every intermediate result is a part of the first input, and so no larger. */
  lemma {:induction false} IntermediateBound(kind: Kind, inputs: seq<Input>, total: real, bags: seq<Bag>, n: nat)
    requires 1 <= n <= |inputs| == |bags|
    ensures Eval(Chain(kind, inputs, total, n), bags) <= bags[0]
    ensures |Eval(Chain(kind, inputs, total, n), bags)| <= |bags[0]|
    decreases n
  {
    if n > 1 {
      IntermediateBound(kind, inputs, total, bags, n - 1);
      var left := Eval(Chain(kind, inputs, total, n - 1), bags);
      ApplyBelow(kind, left, bags[n - 1]);
      PartSize(Apply(kind, left, bags[n - 1]), left);
    }
  }
}
