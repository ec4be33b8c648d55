/**
  The mutator as the source runs it: a context object whose level counter, mode and
  lower target list change while expressions are rebuilt
  (SContextGrpbyPlMutator and RunExtractAggregatesMutator in
  gpopt/translate/CQueryMutators.cpp). Each method is proved to be the function of the
  same name in GroupBySplit, started from the state of the context.
 */
module GroupByContext {
  import opened QueryTree
  import opened GroupBySplit

  datatype Option<+T> = None | Some(value: T)

  class MutatorContext {
    var lowerTlist: seq<TargetEntry>
    var currentLevel: nat
    var mode: Mode

    constructor (derivedTlist: seq<TargetEntry>)
      ensures lowerTlist == derivedTlist && currentLevel == 0 && mode == Above
    {
      lowerTlist := derivedTlist;
      currentLevel := 0;
      mode := Above;
    }

    // The method did what the outcome says, and put the counter and the mode back.
    twostate predicate Follows<T>(new r: Option<T>, new o: Outcome<T>)
      reads this
    {
      match o
      case Raise => r == None
      case Ok(v, lo) =>
        r == Some(v) && lowerTlist == lo && currentLevel == old(currentLevel) && mode == old(mode)
    }

    method MakeVarInDerivedTable(e: Expr) returns (v: Expr)
      modifies this`lowerTlist
      ensures Ok(v, lowerTlist) == AddBelow(e, currentLevel, old(lowerTlist))
    {
      var attno := |lowerTlist| + 1;
      lowerTlist := lowerTlist + [TargetEntry(e, 0, false)];
      v := Var(1, attno, currentLevel, false);
    }

    method MutateVar(e: Expr) returns (r: Option<Expr>)
      requires e.Var?
      modifies this
      ensures Follows(r, MapVar(e, old(currentLevel), old(mode), old(lowerTlist)))
    {
      match mode
      case GroupingColumn =>
        r := Some(if e.level > currentLevel then AtLevel(e, e.level + 1) else e);
      case InAggregate(a) =>
        if currentLevel == 0 {
          r := Some(if e.level != 0 then AtLevel(e, e.level + 1) else e);
        } else if e.level == currentLevel && e.level >= a {
          r := Some(AtLevel(e, e.level - a));
        } else {
          r := Some(e);
        }
      case Above =>
        if e.level == currentLevel {
          var i := Find(lowerTlist, AtLevel(e, 0));
          if i == |lowerTlist| { return None; }
          r := Some(Var(1, i + 1, e.level, e.nulled));
        } else {
          r := Some(e);
        }
    }

    /** RunExtractAggregatesMutator; in mode GroupingColumn, RunGroupingColMutator */
    method MutateExpr(e: Expr) returns (r: Option<Expr>)
      modifies this
      ensures Follows(r, MapExpr(e, old(currentLevel), old(mode), old(lowerTlist)))
      decreases e
    {
      if e.Agg? && e.level == currentLevel && !mode.GroupingColumn? {
        var outerMode := mode;
        mode := InAggregate(e.level);
        var args := MutateAll(e.args);
        if args.None? { return None; }
        mode := outerMode;
        var v := MakeVarInDerivedTable(Agg(e.fn, args.value, 0));
        return Some(v);
      }
      if currentLevel == 0 && mode.Above? && !e.Const? {
        var found := Find(lowerTlist, e);
        if found < |lowerTlist| { return Some(Var(1, found + 1, 0, false)); }
      }
      match e
      case Const(_) => r := Some(e);
      case Var(_, _, _, _) => r := MutateVar(e);
      case Op(fn, args) =>
        var args' := MutateAll(args);
        r := if args'.None? then None else Some(Op(fn, args'.value));
      case Agg(fn, args, l) =>
        var args' := MutateAll(args);
        r := if args'.None? then None else Some(Agg(fn, args'.value, l));
      case SubLink(k, test, sub) =>
        var test' := MutateAll(test);
        if test'.None? { return None; }
        currentLevel := currentLevel + 1;
        var sub' := MutateQuery(sub, currentLevel + 1);
        if sub'.None? { return None; }
        currentLevel := currentLevel - 1;
        r := Some(SubLink(k, test'.value, sub'.value));
    }

    method MutateAll(es: seq<Expr>) returns (r: Option<seq<Expr>>)
      modifies this
      ensures Follows(r, MapAll(es, old(currentLevel), old(mode), old(lowerTlist)))
      decreases es
    {
      var done: seq<Expr> := [];
      ghost var whole := MapAll(es, currentLevel, mode, lowerTlist);
      assert es[0..] == es && (whole.Ok? ==> [] + whole.value == whole.value);
      for i := 0 to |es|
        invariant currentLevel == old(currentLevel) && mode == old(mode)
        invariant whole == Onto(done, MapAll(es[i..], currentLevel, mode, lowerTlist))
      {
        assert es[i..][0] == es[i] && es[i..][1..] == es[i + 1..];
        var e := MutateExpr(es[i]);
        if e.None? { return None; }
        ghost var rest := MapAll(es[i + 1..], currentLevel, mode, lowerTlist);
        assert rest.Ok? ==> done + ([e.value] + rest.value) == (done + [e.value]) + rest.value;
        done := done + [e.value];
      }
      assert es[|es|..] == [] && done + [] == done;
      r := Some(done);
    }

    method MutateTargets(tl: seq<TargetEntry>) returns (r: Option<seq<TargetEntry>>)
      modifies this
      ensures Follows(r, MapTargets(tl, old(currentLevel), old(mode), old(lowerTlist)))
      decreases tl
    {
      var done: seq<TargetEntry> := [];
      ghost var whole := MapTargets(tl, currentLevel, mode, lowerTlist);
      assert tl[0..] == tl && (whole.Ok? ==> [] + whole.value == whole.value);
      for i := 0 to |tl|
        invariant currentLevel == old(currentLevel) && mode == old(mode)
        invariant whole == Onto(done, MapTargets(tl[i..], currentLevel, mode, lowerTlist))
      {
        assert tl[i..][0] == tl[i] && tl[i..][1..] == tl[i + 1..];
        var te := MutateTarget(tl[i]);
        if te.None? { return None; }
        ghost var rest := MapTargets(tl[i + 1..], currentLevel, mode, lowerTlist);
        assert rest.Ok? ==> done + ([te.value] + rest.value) == (done + [te.value]) + rest.value;
        done := done + [te.value];
      }
      assert tl[|tl|..] == [] && done + [] == done;
      r := Some(done);
    }

    method MutateTarget(te: TargetEntry) returns (r: Option<TargetEntry>)
      modifies this
      ensures Follows(r, MapTarget(te, old(currentLevel), old(mode), old(lowerTlist)))
      decreases te
    {
      var e := MutateExpr(te.expr);
      r := if e.None? then None else Some(te.(expr := e.value));
    }

    // `rt` is the level at which the derived tables are entered.
    method MutateRtes(rs: seq<Rte>, rt: nat) returns (r: Option<seq<Rte>>)
      modifies this
      ensures Follows(r, MapRtes(rs, rt, old(mode), old(lowerTlist)))
      decreases rs
    {
      var done: seq<Rte> := [];
      ghost var whole := MapRtes(rs, rt, mode, lowerTlist);
      assert rs[0..] == rs && (whole.Ok? ==> [] + whole.value == whole.value);
      for i := 0 to |rs|
        invariant currentLevel == old(currentLevel) && mode == old(mode)
        invariant whole == Onto(done, MapRtes(rs[i..], rt, mode, lowerTlist))
      {
        assert rs[i..][0] == rs[i] && rs[i..][1..] == rs[i + 1..];
        var rte := MutateRte(rs[i], rt);
        if rte.None? { return None; }
        ghost var rest := MapRtes(rs[i + 1..], rt, mode, lowerTlist);
        assert rest.Ok? ==> done + ([rte.value] + rest.value) == (done + [rte.value]) + rest.value;
        done := done + [rte.value];
      }
      assert rs[|rs|..] == [] && done + [] == done;
      r := Some(done);
    }

    method MutateRte(rte: Rte, rt: nat) returns (r: Option<Rte>)
      modifies this
      ensures Follows(r, MapRte(rte, rt, old(mode), old(lowerTlist)))
      decreases rte
    {
      if !rte.Derived? { return Some(rte); }
      var level := currentLevel;
      currentLevel := rt;
      var q := MutateQuery(rte.sub, rt + 1);
      if q.None? { return None; }
      currentLevel := level;
      r := Some(Derived(q.value));
    }

    method MutateCtes(cs: seq<Cte>) returns (r: Option<seq<Cte>>)
      modifies this
      ensures Follows(r, MapCtes(cs, old(currentLevel), old(mode), old(lowerTlist)))
      decreases cs
    {
      var done: seq<Cte> := [];
      ghost var whole := MapCtes(cs, currentLevel, mode, lowerTlist);
      assert cs[0..] == cs && (whole.Ok? ==> [] + whole.value == whole.value);
      for i := 0 to |cs|
        invariant currentLevel == old(currentLevel) && mode == old(mode)
        invariant whole == Onto(done, MapCtes(cs[i..], currentLevel, mode, lowerTlist))
      {
        assert cs[i..][0] == cs[i] && cs[i..][1..] == cs[i + 1..];
        var c := MutateCte(cs[i]);
        if c.None? { return None; }
        ghost var rest := MapCtes(cs[i + 1..], currentLevel, mode, lowerTlist);
        assert rest.Ok? ==> done + ([c.value] + rest.value) == (done + [c.value]) + rest.value;
        done := done + [c.value];
      }
      assert cs[|cs|..] == [] && done + [] == done;
      r := Some(done);
    }

    method MutateCte(c: Cte) returns (r: Option<Cte>)
      modifies this
      ensures Follows(r, MapCte(c, old(currentLevel), old(mode), old(lowerTlist)))
      decreases c
    {
      currentLevel := currentLevel + 1;
      var q := MutateQuery(c.body, currentLevel);
      if q.None? { return None; }
      currentLevel := currentLevel - 1;
      r := Some(c.(body := q.value));
    }

    method MutateQuery(q: Query, rt: nat) returns (r: Option<Query>)
      modifies this
      ensures Follows(r, MapQuery(q, old(currentLevel), rt, old(mode), old(lowerTlist)))
      decreases q
    {
      var tl := MutateTargets(q.tlist);
      if tl.None? { return None; }
      var quals := MutateAll(q.quals);
      if quals.None? { return None; }
      var having := MutateAll(q.having);
      if having.None? { return None; }
      var ctes := MutateCtes(q.ctes);
      if ctes.None? { return None; }
      var rtable := MutateRtes(q.rtable, rt);
      if rtable.None? { return None; }
      r := Some(q.(tlist := tl.value, quals := quals.value, having := having.value, ctes := ctes.value, rtable := rtable.value));
    }
  }

  // An outcome with `done` in front.
  ghost function Onto<T>(done: seq<T>, o: Outcome<seq<T>>): Outcome<seq<T>> {
    match o case Raise => Raise case Ok(rest, lo) => Ok(done + rest, lo)
  }
}
