/**
  Flattening the target list of a grouped query (RunExtractAggregatesMutator,
  RunGroupingColMutator, FixGroupingCols and NormalizeGroupByProjList in
  gpopt/translate/CQueryMutators.cpp).

  The grouped query becomes a derived table whose target list is filled while the
  expressions above it are rewritten: grouping columns first, then one entry for each
  aggregate met. Every rewriting returns the expression together with the list so far,
  or raises.
 */
module GroupBySplit {
  import opened QueryTree

  // What the mutator is doing: rewriting an expression that stays above, the arguments
  // of an aggregate of the given level that moves below, or a grouping column.
  datatype Mode = Above | InAggregate(level: nat) | GroupingColumn

  datatype Outcome<+T> = Raise | Ok(value: T, lower: seq<TargetEntry>)

  // tlist_member: the position of the first entry with this expression, or the length.
  function Find(lower: seq<TargetEntry>, e: Expr): (i: nat)
    ensures i <= |lower|
    ensures i < |lower| ==> lower[i].expr == e
    ensures forall j :: 0 <= j < i ==> lower[j].expr != e
  {
    if lower == [] || lower[0].expr == e then 0 else 1 + Find(lower[1..], e)
  }

  // A new entry below and the Var above that reads it (MakeVarInDerivedTable).
  function AddBelow(e: Expr, d: nat, lower: seq<TargetEntry>): Outcome<Expr> {
    Ok(Var(1, |lower| + 1, d, false), lower + [TargetEntry(e, 0, false)])
  }

  function AtLevel(v: Expr, l: nat): Expr
    requires v.Var?
  {
    Var(v.varno, v.attno, l, v.nulled)
  }

  // A Var at query depth `d`.
  function MapVar(e: Expr, d: nat, mode: Mode, lower: seq<TargetEntry>): (r: Outcome<Expr>)
    requires e.Var?
    ensures r.Ok? ==> r.lower == lower
  {
    match mode
    case GroupingColumn => Ok(if e.level > d then AtLevel(e, e.level + 1) else e, lower)
    case InAggregate(a) =>
      if d == 0 then Ok(if e.level != 0 then AtLevel(e, e.level + 1) else e, lower)
      else if e.level == d && e.level >= a then Ok(AtLevel(e, e.level - a), lower)
      else Ok(e, lower)
    case Above =>
      if e.level != d then Ok(e, lower)
      else
        var i := Find(lower, AtLevel(e, 0));
        if i == |lower| then Raise else Ok(Var(1, i + 1, e.level, e.nulled), lower)
  }

  /** The mutator on an expression; `d` is the number of query levels entered. */
  function MapExpr(e: Expr, d: nat, mode: Mode, lower: seq<TargetEntry>): (r: Outcome<Expr>)
    ensures r.Ok? ==> lower <= r.lower
    ensures !mode.Above? ==> r.Ok?
    decreases e
  {
    if e.Agg? && e.level == d && !mode.GroupingColumn? then
      match MapAll(e.args, d, InAggregate(e.level), lower)
      case Raise => Raise
      case Ok(args, lo) => AddBelow(Agg(e.fn, args, 0), d, lo)
    else if d == 0 && mode.Above? && !e.Const? && Find(lower, e) < |lower| then
      Ok(Var(1, Find(lower, e) + 1, 0, false), lower)
    else
      match e
      case Const(_) => Ok(e, lower)
      case Var(_, _, _, _) => MapVar(e, d, mode, lower)
      case Op(fn, args) =>
        (match MapAll(args, d, mode, lower)
         case Raise => Raise
         case Ok(args', lo) => Ok(Op(fn, args'), lo))
      case Agg(fn, args, l) =>
        (match MapAll(args, d, mode, lower)
         case Raise => Raise
         case Ok(args', lo) => Ok(Agg(fn, args', l), lo))
      case SubLink(k, test, sub) =>
        match MapAll(test, d, mode, lower)
        case Raise => Raise
        case Ok(test', lo) =>
          match MapQuery(sub, d + 1, d + 2, mode, lo)
          case Raise => Raise
          case Ok(sub', lo') => Ok(SubLink(k, test', sub'), lo')
  }

  function MapAll(es: seq<Expr>, d: nat, mode: Mode, lower: seq<TargetEntry>): (r: Outcome<seq<Expr>>)
    ensures r.Ok? ==> lower <= r.lower && |r.value| == |es|
    ensures !mode.Above? ==> r.Ok?
    decreases es
  {
    if es == [] then Ok([], lower)
    else
      match MapExpr(es[0], d, mode, lower)
      case Raise => Raise
      case Ok(e, lo) =>
        match MapAll(es[1..], d, mode, lo)
        case Raise => Raise
        case Ok(rest, lo') => Ok([e] + rest, lo')
  }

  function MapTarget(te: TargetEntry, d: nat, mode: Mode, lower: seq<TargetEntry>): (r: Outcome<TargetEntry>)
    ensures r.Ok? ==> lower <= r.lower
    ensures !mode.Above? ==> r.Ok?
    decreases te
  {
    match MapExpr(te.expr, d, mode, lower)
    case Raise => Raise
    case Ok(e, lo) => Ok(te.(expr := e), lo)
  }

  function MapTargets(tl: seq<TargetEntry>, d: nat, mode: Mode, lower: seq<TargetEntry>): (r: Outcome<seq<TargetEntry>>)
    ensures r.Ok? ==> lower <= r.lower && |r.value| == |tl|
    ensures !mode.Above? ==> r.Ok?
    decreases tl
  {
    if tl == [] then Ok([], lower)
    else
      match MapTarget(tl[0], d, mode, lower)
      case Raise => Raise
      case Ok(te, lo) =>
        match MapTargets(tl[1..], d, mode, lo)
        case Raise => Raise
        case Ok(rest, lo') => Ok([te] + rest, lo')
  }

  // Only derived tables are entered, at depth `rt`.
  function MapRte(r: Rte, rt: nat, mode: Mode, lower: seq<TargetEntry>): (o: Outcome<Rte>)
    ensures o.Ok? ==> lower <= o.lower
    ensures !mode.Above? ==> o.Ok?
    decreases r
  {
    if !r.Derived? then Ok(r, lower)
    else
      match MapQuery(r.sub, rt, rt + 1, mode, lower)
      case Raise => Raise
      case Ok(q, lo) => Ok(Derived(q), lo)
  }

  function MapRtes(rs: seq<Rte>, rt: nat, mode: Mode, lower: seq<TargetEntry>): (o: Outcome<seq<Rte>>)
    ensures o.Ok? ==> lower <= o.lower && |o.value| == |rs|
    ensures !mode.Above? ==> o.Ok?
    decreases rs
  {
    if rs == [] then Ok([], lower)
    else
      match MapRte(rs[0], rt, mode, lower)
      case Raise => Raise
      case Ok(r, lo) =>
        match MapRtes(rs[1..], rt, mode, lo)
        case Raise => Raise
        case Ok(rest, lo') => Ok([r] + rest, lo')
  }

  // The body of a CTE is entered one level down, but its derived tables are not
  // counted as a further level.
  function MapCte(c: Cte, d: nat, mode: Mode, lower: seq<TargetEntry>): (r: Outcome<Cte>)
    ensures r.Ok? ==> lower <= r.lower
    ensures !mode.Above? ==> r.Ok?
    decreases c
  {
    match MapQuery(c.body, d + 1, d + 1, mode, lower)
    case Raise => Raise
    case Ok(q, lo) => Ok(c.(body := q), lo)
  }

  function MapCtes(cs: seq<Cte>, d: nat, mode: Mode, lower: seq<TargetEntry>): (r: Outcome<seq<Cte>>)
    ensures r.Ok? ==> lower <= r.lower && |r.value| == |cs|
    ensures !mode.Above? ==> r.Ok?
    decreases cs
  {
    if cs == [] then Ok([], lower)
    else
      match MapCte(cs[0], d, mode, lower)
      case Raise => Raise
      case Ok(c, lo) =>
        match MapCtes(cs[1..], d, mode, lo)
        case Raise => Raise
        case Ok(rest, lo') => Ok([c] + rest, lo')
  }

  // A query whose expressions are at depth `d` and whose derived tables are entered at `rt`.
  function MapQuery(q: Query, d: nat, rt: nat, mode: Mode, lower: seq<TargetEntry>): (r: Outcome<Query>)
    ensures r.Ok? ==> lower <= r.lower
    ensures !mode.Above? ==> r.Ok?
    decreases q
  {
    match MapTargets(q.tlist, d, mode, lower)
    case Raise => Raise
    case Ok(tl, l1) =>
      match MapAll(q.quals, d, mode, l1)
      case Raise => Raise
      case Ok(quals, l2) =>
        match MapAll(q.having, d, mode, l2)
        case Raise => Raise
        case Ok(having, l3) =>
          match MapCtes(q.ctes, d, mode, l3)
          case Raise => Raise
          case Ok(ctes, l4) =>
            match MapRtes(q.rtable, rt, mode, l4)
            case Raise => Raise
            case Ok(rtable, l5) =>
              Ok(q.(tlist := tl, quals := quals, having := having, ctes := ctes, rtable := rtable), l5)
  }
}
