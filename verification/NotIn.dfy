/**
  NOT IN as an anti join (TranslateDXLNLJoin, gpopt/translate/CTranslatorDXLToPlStmt.cpp).

  PostgreSQL has no null-aware anti join, so every conjunct of the join condition is
  wrapped as IS NOT FALSE. NOT IN is defined by section 8.4 of ISO/IEC 9075-2:2003: the
  negation of a three-valued disjunction, over the inner rows, of the condition.
 */
module NotIn {
  datatype Truth = True | False | Unknown

  function Not(t: Truth): Truth {
    match t
    case True => False
    case False => True
    case Unknown => Unknown
  }

  function And(s: Truth, t: Truth): Truth {
    if s == False || t == False then False else if s == True && t == True then True else Unknown
  }

  function Or(s: Truth, t: Truth): Truth { Not(And(Not(s), Not(t))) }

  function AndAll(ts: seq<Truth>): Truth { if ts == [] then True else And(ts[0], AndAll(ts[1..])) }

  function OrAll(ts: seq<Truth>): Truth { if ts == [] then False else Or(ts[0], OrAll(ts[1..])) }

  // ----- conditions over an outer and an inner row -----

  datatype Cond = Compare(fn: nat) | IsNotFalse(arg: Cond)

  type Comparisons<!R> = (nat, R, R) -> Truth

  function Eval<R>(f: Comparisons<R>, c: Cond, o: R, u: R): Truth {
    match c
    case Compare(fn) => f(fn, o, u)
    case IsNotFalse(arg) => if Eval(f, arg, o, u) == False then False else True
  }

  function EvalAll<R>(f: Comparisons<R>, cs: seq<Cond>, o: R, u: R): (r: seq<Truth>)
    ensures |r| == |cs| && forall i :: 0 <= i < |cs| ==> r[i] == Eval(f, cs[i], o, u)
  {
    seq(|cs|, i requires 0 <= i < |cs| => Eval(f, cs[i], o, u))
  }

  // A join qual passes when every conjunct is TRUE.
  predicate Passes<R>(f: Comparisons<R>, cs: seq<Cond>, o: R, u: R) {
    forall i :: 0 <= i < |cs| ==> Eval(f, cs[i], o, u) == True
  }

  /** The anti join keeps an outer row without a partner. */
  predicate AntiJoinKeeps<R>(f: Comparisons<R>, cs: seq<Cond>, o: R, inner: seq<R>) {
    forall i :: 0 <= i < |inner| ==> !Passes(f, cs, o, inner[i])
  }

  function Verdicts<R>(f: Comparisons<R>, cs: seq<Cond>, o: R, inner: seq<R>): (r: seq<Truth>)
    ensures |r| == |inner| && forall i :: 0 <= i < |inner| ==> r[i] == AndAll(EvalAll(f, cs, o, inner[i]))
  {
    seq(|inner|, i requires 0 <= i < |inner| => AndAll(EvalAll(f, cs, o, inner[i])))
  }

  /** NOT IN */
  function NotInValue<R>(f: Comparisons<R>, cs: seq<Cond>, o: R, inner: seq<R>): Truth {
    Not(OrAll(Verdicts(f, cs, o, inner)))
  }

  // ----- the translation -----

  function Wrapped(cs: seq<Cond>): (r: seq<Cond>)
    ensures |r| == |cs| && forall i :: 0 <= i < |cs| ==> r[i] == IsNotFalse(cs[i])
  {
    seq(|cs|, i requires 0 <= i < |cs| => IsNotFalse(cs[i]))
  }

  // The cells of the list are overwritten one by one.
  method WrapQuals(quals: array<Cond>)
    modifies quals
    ensures quals[..] == Wrapped(old(quals[..]))
  {
    for i := 0 to quals.Length
      invariant forall k :: 0 <= k < i ==> quals[k] == IsNotFalse(old(quals[k]))
      invariant forall k :: i <= k < quals.Length ==> quals[k] == old(quals[k])
    {
      quals[i] := IsNotFalse(quals[i]);
    }
  }

  // ----- correctness -----

  lemma {:induction false} AndAllFalseIff(ts: seq<Truth>)
    ensures AndAll(ts) == False <==> exists i :: 0 <= i < |ts| && ts[i] == False
  {
    if ts != [] {
      AndAllFalseIff(ts[1..]);
      assert forall i :: 0 < i < |ts| ==> ts[i] == ts[1..][i - 1];
      if AndAll(ts[1..]) == False {
        var i :| 0 <= i < |ts[1..]| && ts[1..][i] == False;
        assert ts[i + 1] == False;
      }
    }
  }

  lemma {:induction false} OrAllFalseIff(ts: seq<Truth>)
    ensures OrAll(ts) == False <==> forall i :: 0 <= i < |ts| ==> ts[i] == False
  {
    if ts != [] {
      OrAllFalseIff(ts[1..]);
      assert forall i :: 0 < i < |ts| ==> ts[i] == ts[1..][i - 1];
    }
  }

  // Wrapping the conjuncts is wrapping the conjunction: an inner row is a partner unless the condition is FALSE.
  lemma {:induction false} WrappedPassesIff<R>(f: Comparisons<R>, cs: seq<Cond>, o: R, u: R)
    ensures Passes(f, Wrapped(cs), o, u) <==> AndAll(EvalAll(f, cs, o, u)) != False
  {
    AndAllFalseIff(EvalAll(f, cs, o, u));
    if Passes(f, Wrapped(cs), o, u) {
      forall i | 0 <= i < |cs| ensures EvalAll(f, cs, o, u)[i] != False {
        assert Eval(f, Wrapped(cs)[i], o, u) == True;
      }
    }
  }

  /** The anti join on the wrapped condition keeps an outer row exactly when NOT IN is TRUE. */
  lemma {:induction false} AntiJoinIsNotIn<R>(f: Comparisons<R>, cs: seq<Cond>, o: R, inner: seq<R>)
    ensures AntiJoinKeeps(f, Wrapped(cs), o, inner) <==> NotInValue(f, cs, o, inner) == True
  {
    var ts := Verdicts(f, cs, o, inner);
    OrAllFalseIff(ts);
    forall i | 0 <= i < |inner| ensures Passes(f, Wrapped(cs), o, inner[i]) <==> ts[i] != False {
      WrappedPassesIff(f, cs, o, inner[i]);
    }
    assert NotInValue(f, cs, o, inner) == True <==> OrAll(ts) == False;
  }

  /** Without the wrapping an UNKNOWN comparison would keep a row that NOT IN rejects. */
  lemma {:induction false} PlainAntiJoinDiffers()
    ensures
      var unknown: Comparisons<int> := (fn: nat, o: int, u: int) => Unknown;
      AntiJoinKeeps(unknown, [Compare(0)], 0, [0]) && NotInValue(unknown, [Compare(0)], 0, [0]) == Unknown
  {
    var unknown: Comparisons<int> := (fn: nat, o: int, u: int) => Unknown;
    var ts := Verdicts(unknown, [Compare(0)], 0, [0]);
    assert EvalAll(unknown, [Compare(0)], 0, 0) == [Unknown];
    assert AndAll([Unknown]) == Unknown;
    assert ts == [Unknown];
    assert OrAll([Unknown]) == Unknown;
    assert Eval(unknown, [Compare(0)][0], 0, [0][0]) == Unknown;
  }
}
