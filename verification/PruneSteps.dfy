/**
  Compiling a partition filter to prune steps
  (PartPruneStepsFromFilter, gpopt/translate/CPartPruneStepsBuilder.cpp), and what
  PostgreSQL's executor of the steps makes of them.
 */
module PruneSteps {
  // Comparisons name an operator and the expression on the right; the partition column is on the left.
  datatype Filter =
    | Cmp(op: nat, rhs: nat)
    | And(args: seq<Filter>)
    | Or(args: seq<Filter>)
    | Not(arg: Filter)
    | Other

  datatype Option<T> = None | Some(value: T)

  // The strategy number of an operator in the partition key's operator family.
  type Family = nat -> Option<nat>

  datatype Step =
    | OpStep(id: int, strategy: nat, rhs: nat)
    | CombineStep(id: int, intersect: bool, sources: seq<int>)

  datatype Outcome = Raise | Steps(steps: seq<Step>)

  // The steps of a list of operands, and the ids of the last step of each.
  datatype Operands = Failed | Operands(ids: seq<int>, code: seq<Step>)

  // ----- compilation -----

  /** The steps of a filter when `n` steps are there already. */
  function Compile(f: Filter, fam: Family, n: nat): (r: Outcome)
    ensures r.Steps? ==> r.steps != []
    decreases f
  {
    match f
    case Cmp(op, rhs) => if fam(op).Some? then Steps([OpStep(n, fam(op).value, rhs)]) else Raise
    case And(args) =>
      var r := CompileAll(args, |args|, fam, n);
      if r.Failed? then Raise else Steps(r.code + [CombineStep(n + |r.code|, true, r.ids)])
    case Or(args) =>
      var r := CompileAll(args, |args|, fam, n);
      if r.Failed? then Raise else Steps(r.code + [CombineStep(n + |r.code|, false, r.ids)])
    case Not(_) => Raise
    case Other => Raise
  }

  // The first k operands, one after the other.
  function CompileAll(fs: seq<Filter>, k: nat, fam: Family, n: nat): Operands
    requires k <= |fs|
    decreases fs, k
  {
    if k == 0 then Operands([], [])
    else
      var front := CompileAll(fs, k - 1, fam, n);
      if front.Failed? then Failed else Append(front, Compile(fs[k - 1], fam, n + |front.code|))
  }

  function Append(front: Operands, last: Outcome): Operands
    requires front.Operands? && (last.Steps? ==> last.steps != [])
  {
    if last.Raise? then Failed
    else Operands(front.ids + [last.steps[|last.steps| - 1].id], front.code + last.steps)
  }

  // ----- execution -----

  // The partitions a comparison step keeps, and all partitions.
  datatype Pruner = Pruner(keep: (nat, nat) -> set<nat>, all: set<nat>)

  // The first set combined with the next ones in turn; everything when there are none.
  function Combine(p: Pruner, intersect: bool, sets: seq<set<nat>>, k: nat): set<nat>
    requires k <= |sets|
  {
    if k == 0 then p.all
    else if k == 1 then sets[0]
    else if intersect then Combine(p, intersect, sets, k - 1) * sets[k - 1]
    else Combine(p, intersect, sets, k - 1) + sets[k - 1]
  }

  function Pick(ids: seq<int>, rs: seq<set<nat>>): (sets: seq<set<nat>>)
    ensures |sets| == |ids| && forall i :: 0 <= i < |ids| && 0 <= ids[i] < |rs| ==> sets[i] == rs[ids[i]]
  {
    seq(|ids|, i requires 0 <= i < |ids| => if 0 <= ids[i] < |rs| then rs[ids[i]] else {})
  }

  // A combine step reads the results of its sources; without sources it keeps everything.
  function StepResult(p: Pruner, s: Step, rs: seq<set<nat>>): set<nat> {
    match s
    case OpStep(_, strategy, rhs) => p.keep(strategy, rhs)
    case CombineStep(_, intersect, sources) =>
      Combine(p, intersect, Pick(sources, rs), |sources|)
  }

  // The results of the first k steps in the order of the list, after earlier results `rs`.
  function Execute(p: Pruner, rs: seq<set<nat>>, steps: seq<Step>, k: nat): (r: seq<set<nat>>)
    requires k <= |steps|
    ensures |r| == |rs| + k && rs <= r
  {
    if k == 0 then rs
    else
      var before := Execute(p, rs, steps, k - 1);
      before + [StepResult(p, steps[k - 1], before)]
  }

  // ----- what the filter means for partitions -----

  function Eval(p: Pruner, fam: Family, f: Filter): set<nat>
    decreases f
  {
    match f
    case Cmp(op, rhs) => if fam(op).Some? then p.keep(fam(op).value, rhs) else {}
    case And(args) => Combine(p, true, EvalAll(p, fam, args), |args|)
    case Or(args) => Combine(p, false, EvalAll(p, fam, args), |args|)
    case Not(_) => {}
    case Other => {}
  }

  function EvalAll(p: Pruner, fam: Family, fs: seq<Filter>): (r: seq<set<nat>>)
    ensures |r| == |fs| && forall i :: 0 <= i < |fs| ==> r[i] == Eval(p, fam, fs[i])
    decreases fs
  {
    seq(|fs|, i requires 0 <= i < |fs| => Eval(p, fam, fs[i]))
  }

  // ----- the step list -----

  /** Ids are positions, and sources are earlier steps. */
  predicate Numbered(steps: seq<Step>, n: nat) {
    forall i :: 0 <= i < |steps| ==>
      && steps[i].id == n + i
      && (steps[i].CombineStep? ==> forall k :: 0 <= k < |steps[i].sources| ==> 0 <= steps[i].sources[k] < n + i)
  }

  predicate Below(ids: seq<int>, n: int) { forall i :: 0 <= i < |ids| ==> 0 <= ids[i] < n }

  lemma {:induction false} CompileNumbered(f: Filter, fam: Family, n: nat)
    requires Compile(f, fam, n).Steps?
    ensures Numbered(Compile(f, fam, n).steps, n)
    decreases f
  {
    match f
    case Cmp(_, _) =>
    case And(args) => CompileAllNumbered(args, |args|, fam, n);
    case Or(args) => CompileAllNumbered(args, |args|, fam, n);
    case Not(_) =>
    case Other =>
  }

  lemma {:induction false} CompileAllNumbered(fs: seq<Filter>, k: nat, fam: Family, n: nat)
    requires k <= |fs| && CompileAll(fs, k, fam, n).Operands?
    ensures
      var r := CompileAll(fs, k, fam, n);
      Numbered(r.code, n) && Below(r.ids, n + |r.code|)
    decreases fs, k
  {
    if k > 0 {
      var front, last := LastOf(fs, k, fam, n);
      CompileAllNumbered(fs, k - 1, fam, n);
      CompileNumbered(fs[k - 1], fam, n + |front.code|);
      AppendNumbered(front, last, n);
    }
  }

  lemma {:induction false} AppendNumbered(front: Operands, last: seq<Step>, n: nat)
    requires front.Operands? && Numbered(front.code, n) && Below(front.ids, n + |front.code|)
    requires last != [] && Numbered(last, n + |front.code|)
    ensures
      var r := Append(front, Steps(last));
      Numbered(r.code, n) && Below(r.ids, n + |r.code|)
  {
  }

  // ----- one step for every node -----

  // The comparisons and connectives of a filter.
  function Nodes(f: Filter): nat
    decreases f
  {
    match f
    case Cmp(_, _) => 1
    case And(args) => 1 + NodesOf(args, |args|)
    case Or(args) => 1 + NodesOf(args, |args|)
    case _ => 0
  }

  function NodesOf(fs: seq<Filter>, k: nat): nat
    requires k <= |fs|
    decreases fs, k
  {
    if k == 0 then 0 else NodesOf(fs, k - 1) + Nodes(fs[k - 1])
  }

  /** Every node of a filter has one step, in postorder. The step of a connective is the last
      and takes the results of its operands, each of them the last one of its own steps. */
  lemma {:induction false} StepPerNode(f: Filter, fam: Family, n: nat)
    requires Compile(f, fam, n).Steps?
    ensures |Compile(f, fam, n).steps| == Nodes(f)
    ensures f.And? || f.Or? ==>
      var last := Compile(f, fam, n).steps[Nodes(f) - 1];
      && last.CombineStep? && last.intersect == f.And? && |last.sources| == |f.args|
      && forall i :: 0 <= i < |f.args| ==> last.sources[i] == n + NodesOf(f.args, i + 1) - 1
    decreases f
  {
    match f
    case Cmp(_, _) =>
    case And(args) => OperandSteps(args, |args|, fam, n);
    case Or(args) => OperandSteps(args, |args|, fam, n);
    case Not(_) =>
    case Other =>
  }

  lemma {:induction false} OperandSteps(fs: seq<Filter>, k: nat, fam: Family, n: nat)
    requires k <= |fs| && CompileAll(fs, k, fam, n).Operands?
    ensures
      var r := CompileAll(fs, k, fam, n);
      |r.code| == NodesOf(fs, k) && |r.ids| == k && forall i :: 0 <= i < k ==> r.ids[i] == n + NodesOf(fs, i + 1) - 1
    decreases fs, k
  {
    if k > 0 {
      var front, last := LastOf(fs, k, fam, n);
      OperandSteps(fs, k - 1, fam, n);
      StepPerNode(fs[k - 1], fam, n + |front.code|);
      CompileNumbered(fs[k - 1], fam, n + |front.code|);
      assert last[|last| - 1].id == n + |front.code| + |last| - 1;
    }
  }

  // ----- executing in pieces -----

  lemma {:induction false} ExecuteConcat(p: Pruner, rs: seq<set<nat>>, a: seq<Step>, b: seq<Step>, k: nat)
    requires k <= |b|
    ensures Execute(p, rs, a + b, |a| + k) == Execute(p, Execute(p, rs, a, |a|), b, k)
    decreases k
  {
    if k == 0 {
      ExecuteFront(p, rs, a, b, |a|);
    } else {
      ExecuteConcat(p, rs, a, b, k - 1);
      assert (a + b)[|a| + k - 1] == b[k - 1];
    }
  }

  lemma {:induction false} ExecuteFront(p: Pruner, rs: seq<set<nat>>, a: seq<Step>, b: seq<Step>, k: nat)
    requires k <= |a|
    ensures Execute(p, rs, a + b, k) == Execute(p, rs, a, k)
    decreases k
  {
    if k > 0 {
      ExecuteFront(p, rs, a, b, k - 1);
      assert (a + b)[k - 1] == a[k - 1];
    }
  }

  function Results(p: Pruner, rs: seq<set<nat>>, steps: seq<Step>): seq<set<nat>> { Execute(p, rs, steps, |steps|) }

  // The result of the last step.
  function LastResult(p: Pruner, rs: seq<set<nat>>, steps: seq<Step>): set<nat>
    requires steps != []
  {
    Results(p, rs, steps)[|rs| + |steps| - 1]
  }

  lemma {:induction false} LastStep(p: Pruner, rs: seq<set<nat>>, front: seq<Step>, step: Step)
    ensures LastResult(p, rs, front + [step]) == StepResult(p, step, Results(p, rs, front))
  {
    ExecuteConcat(p, rs, front, [step], 1);
    ExecuteConcat(p, rs, front, [step], 0);
  }

  /** The last step of a filter computes the filter, whatever was executed before it. */
  lemma {:induction false} CompileResult(p: Pruner, f: Filter, fam: Family, rs: seq<set<nat>>, steps: seq<Step>)
    requires Compile(f, fam, |rs|) == Steps(steps)
    ensures LastResult(p, rs, steps) == Eval(p, fam, f)
    decreases f, 0
  {
    match f
    case Cmp(op, rhs) =>
      LastStep(p, rs, [], steps[0]);
      assert [] + [steps[0]] == steps;
    case And(args) => CombineResult(p, args, fam, rs, CompileAll(args, |args|, fam, |rs|), true);
    case Or(args) => CombineResult(p, args, fam, rs, CompileAll(args, |args|, fam, |rs|), false);
    case Not(_) =>
    case Other =>
  }

  lemma {:induction false} CombineResult(p: Pruner, args: seq<Filter>, fam: Family, rs: seq<set<nat>>, r: Operands, intersect: bool)
    requires CompileAll(args, |args|, fam, |rs|) == r && r.Operands?
    ensures LastResult(p, rs, r.code + [CombineStep(|rs| + |r.code|, intersect, r.ids)])
         == Combine(p, intersect, EvalAll(p, fam, args), |args|)
    decreases args, |args| + 1
  {
    CompileAllResult(p, args, |args|, fam, rs, r);
    assert Pick(r.ids, Results(p, rs, r.code)) == EvalAll(p, fam, args);
    LastStep(p, rs, r.code, CombineStep(|rs| + |r.code|, intersect, r.ids));
  }

  lemma {:induction false} PickKept(ids: seq<int>, before: seq<set<nat>>, after: seq<set<nat>>)
    requires Below(ids, |before|) && before <= after && after != []
    ensures Pick(ids + [|after| - 1], after) == Pick(ids, before) + [after[|after| - 1]]
  {
  }

  // The values of the first k operands.
  predicate Values(p: Pruner, fam: Family, fs: seq<Filter>, k: nat, sets: seq<set<nat>>) {
    k <= |fs| && |sets| == k && forall i :: 0 <= i < k ==> sets[i] == Eval(p, fam, fs[i])
  }

  lemma {:induction false} IdsBelow(fs: seq<Filter>, k: nat, fam: Family, n: nat)
    requires k <= |fs| && CompileAll(fs, k, fam, n).Operands?
    ensures Below(CompileAll(fs, k, fam, n).ids, n + |CompileAll(fs, k, fam, n).code|)
  {
    CompileAllNumbered(fs, k, fam, n);
  }

  lemma {:induction false} LastOf(fs: seq<Filter>, k: nat, fam: Family, n: nat) returns (front: Operands, last: seq<Step>)
    requires 0 < k <= |fs| && CompileAll(fs, k, fam, n).Operands?
    ensures CompileAll(fs, k - 1, fam, n) == front && front.Operands?
    ensures Compile(fs[k - 1], fam, n + |front.code|) == Steps(last) && last != []
    ensures CompileAll(fs, k, fam, n) == Operands(front.ids + [last[|last| - 1].id], front.code + last)
  {
    front := CompileAll(fs, k - 1, fam, n);
    last := Compile(fs[k - 1], fam, n + |front.code|).steps;
  }

  // The recorded ids are where the values of the operands are.
  lemma {:induction false} CompileAllResult(p: Pruner, fs: seq<Filter>, k: nat, fam: Family, rs: seq<set<nat>>, r: Operands)
    requires k <= |fs| && CompileAll(fs, k, fam, |rs|) == r && r.Operands?
    ensures Values(p, fam, fs, k, Pick(r.ids, Results(p, rs, r.code)))
    decreases fs, k
  {
    if k > 0 {
      var front, last := LastOf(fs, k, fam, |rs|);
      CompileAllResult(p, fs, k - 1, fam, rs, front);
      IdsBelow(fs, k - 1, fam, |rs|);
      LastOperand(p, fs[k - 1], fam, rs, front, last);
      var sets := Pick(front.ids, Results(p, rs, front.code));
      ValuesSnoc(p, fam, fs, k, sets);
      assert Pick(r.ids, Results(p, rs, r.code)) == sets + [Eval(p, fam, fs[k - 1])];
    }
  }

  lemma {:induction false} ValuesSnoc(p: Pruner, fam: Family, fs: seq<Filter>, k: nat, sets: seq<set<nat>>)
    requires 0 < k <= |fs| && Values(p, fam, fs, k - 1, sets)
    ensures Values(p, fam, fs, k, sets + [Eval(p, fam, fs[k - 1])])
  {
  }

  lemma {:induction false} LastOperand(p: Pruner, f: Filter, fam: Family, rs: seq<set<nat>>, front: Operands, last: seq<Step>)
    requires front.Operands? && Below(front.ids, |rs| + |front.code|) && Compile(f, fam, |rs| + |front.code|) == Steps(last)
    ensures last != []
    ensures Pick(front.ids + [last[|last| - 1].id], Results(p, rs, front.code + last))
         == Pick(front.ids, Results(p, rs, front.code)) + [Eval(p, fam, f)]
    decreases f, 1
  {
    CompileNumbered(f, fam, |rs| + |front.code|);
    CompileResult(p, f, fam, Results(p, rs, front.code), last);
    OperandResult(p, rs, front.code, last, front.ids);
  }

  lemma {:induction false} OperandResult(p: Pruner, rs: seq<set<nat>>, front: seq<Step>, last: seq<Step>, ids: seq<int>)
    requires last != [] && last[|last| - 1].id == |rs| + |front| + |last| - 1 && Below(ids, |rs| + |front|)
    ensures Pick(ids + [last[|last| - 1].id], Results(p, rs, front + last))
         == Pick(ids, Results(p, rs, front)) + [LastResult(p, Results(p, rs, front), last)]
  {
    ExecuteConcat(p, rs, front, last, |last|);
    var before := Results(p, rs, front);
    PickKept(ids, before, Results(p, before, last));
  }

  /** Executing the compiled steps and taking the last result evaluates the filter. */
  lemma {:induction false} PruneCorrect(p: Pruner, f: Filter, fam: Family)
    requires Compile(f, fam, 0).Steps?
    ensures
      var steps := Compile(f, fam, 0).steps;
      Numbered(steps, 0) && steps != [] && Results(p, [], steps)[|steps| - 1] == Eval(p, fam, f)
  {
    CompileNumbered(f, fam, 0);
    CompileResult(p, f, fam, [], Compile(f, fam, 0).steps);
  }

  // ----- which partitions are kept -----

  // The filter keeps the partition: both connectives keep everything when they have no operand.
  predicate Keeps(p: Pruner, fam: Family, f: Filter, part: nat)
    decreases f
  {
    match f
    case Cmp(op, rhs) => fam(op).Some? && part in p.keep(fam(op).value, rhs)
    case And(args) => if args == [] then part in p.all else forall i :: 0 <= i < |args| ==> Keeps(p, fam, args[i], part)
    case Or(args) => if args == [] then part in p.all else exists i :: 0 <= i < |args| && Keeps(p, fam, args[i], part)
    case Not(_) => false
    case Other => false
  }

  lemma {:induction false} CombineIff(p: Pruner, intersect: bool, sets: seq<set<nat>>, k: nat, part: nat)
    requires 0 < k <= |sets|
    ensures part in Combine(p, intersect, sets, k) <==>
      if intersect then forall i :: 0 <= i < k ==> part in sets[i] else exists i :: 0 <= i < k && part in sets[i]
    decreases k
  {
    if k > 1 { CombineIff(p, intersect, sets, k - 1, part); }
  }

  lemma {:induction false} EvalIff(p: Pruner, fam: Family, f: Filter, part: nat)
    ensures part in Eval(p, fam, f) <==> Keeps(p, fam, f, part)
    decreases f
  {
    if f.And? || f.Or? {
      var sets := EvalAll(p, fam, f.args);
      forall i | 0 <= i < |f.args| ensures part in sets[i] <==> Keeps(p, fam, f.args[i], part) {
        EvalIff(p, fam, f.args[i], part);
      }
      if f.args != [] { CombineIff(p, f.And?, sets, |sets|, part); }
    }
  }

  /** Executing the step list of a filter keeps a partition if and only if the filter does. */
  lemma {:induction false} PruneIff(p: Pruner, f: Filter, fam: Family, part: nat)
    requires Compile(f, fam, 0).Steps?
    ensures
      var steps := Compile(f, fam, 0).steps;
      steps != [] && (part in Results(p, [], steps)[|steps| - 1] <==> Keeps(p, fam, f, part))
  {
    PruneCorrect(p, f, fam);
    EvalIff(p, fam, f, part);
  }

  // ----- when compilation fails -----

  predicate Supported(f: Filter, fam: Family)
    decreases f
  {
    match f
    case Cmp(op, _) => fam(op).Some?
    case And(args) => forall i :: 0 <= i < |args| ==> Supported(args[i], fam)
    case Or(args) => forall i :: 0 <= i < |args| ==> Supported(args[i], fam)
    case Not(_) => false
    case Other => false
  }

  lemma {:induction false} CompilesIff(f: Filter, fam: Family, n: nat)
    ensures Compile(f, fam, n).Steps? <==> Supported(f, fam)
    decreases f
  {
    match f
    case Cmp(_, _) =>
    case And(args) => CompilesAllIff(args, |args|, fam, n);
    case Or(args) => CompilesAllIff(args, |args|, fam, n);
    case Not(_) =>
    case Other =>
  }

  lemma {:induction false} CompilesAllIff(fs: seq<Filter>, k: nat, fam: Family, n: nat)
    requires k <= |fs|
    ensures CompileAll(fs, k, fam, n).Operands? <==> forall i :: 0 <= i < k ==> Supported(fs[i], fam)
    decreases fs, k
  {
    if k > 0 {
      CompilesAllIff(fs, k - 1, fam, n);
      var front := CompileAll(fs, k - 1, fam, n);
      if front.Operands? { CompilesIff(fs[k - 1], fam, n + |front.code|); }
    }
  }

  lemma {:induction false} OperandFails(fs: seq<Filter>, i: nat, fam: Family, n: nat)
    requires i < |fs| && CompileAll(fs, i + 1, fam, n).Failed?
    ensures CompileAll(fs, |fs|, fam, n).Failed?
  {
    CompilesAllIff(fs, i + 1, fam, n);
    CompilesAllIff(fs, |fs|, fam, n);
  }

  // ----- no qualifying row is pruned -----

  // Whether a comparison is TRUE of a row.
  type Truth = (nat, nat, int) -> bool

  predicate Satisfies(f: Filter, t: Truth, row: int)
    decreases f
  {
    match f
    case Cmp(op, rhs) => t(op, rhs, row)
    case And(args) => forall i :: 0 <= i < |args| ==> Satisfies(args[i], t, row)
    case Or(args) => exists i :: 0 <= i < |args| && Satisfies(args[i], t, row)
    case Not(arg) => !Satisfies(arg, t, row)
    case Other => false
  }

  // Comparison steps keep every partition with a row that satisfies the comparison.
  ghost predicate Sound(p: Pruner, fam: Family, t: Truth, parts: nat -> set<int>) {
    forall op, rhs, part: nat, row :: part in p.all && row in parts(part) && t(op, rhs, row) && fam(op).Some? ==>
      part in p.keep(fam(op).value, rhs)
  }

  lemma {:induction false} IntersectionKeeps(p: Pruner, sets: seq<set<nat>>, k: nat, part: nat)
    requires k <= |sets| && part in p.all && forall i :: 0 <= i < |sets| ==> part in sets[i]
    ensures part in Combine(p, true, sets, k)
    decreases k
  {
    if k > 1 { IntersectionKeeps(p, sets, k - 1, part); }
  }

  lemma {:induction false} UnionKeeps(p: Pruner, sets: seq<set<nat>>, k: nat, part: nat, i: nat)
    requires i < k <= |sets| && part in sets[i]
    ensures part in Combine(p, false, sets, k)
    decreases k
  {
    if k > 1 && i < k - 1 { UnionKeeps(p, sets, k - 1, part, i); }
  }

  lemma {:induction false} EvalKeeps(p: Pruner, fam: Family, t: Truth, parts: nat -> set<int>, f: Filter, part: nat, row: int)
    requires Sound(p, fam, t, parts) && Supported(f, fam)
    requires part in p.all && row in parts(part) && Satisfies(f, t, row)
    ensures part in Eval(p, fam, f)
    decreases f
  {
    match f
    case Cmp(_, _) =>
    case And(args) =>
      forall i | 0 <= i < |args| ensures part in EvalAll(p, fam, args)[i] {
        EvalKeeps(p, fam, t, parts, args[i], part, row);
      }
      IntersectionKeeps(p, EvalAll(p, fam, args), |args|, part);
    case Or(args) =>
      var i :| 0 <= i < |args| && Satisfies(args[i], t, row);
      EvalKeeps(p, fam, t, parts, args[i], part, row);
      UnionKeeps(p, EvalAll(p, fam, args), |args|, part, i);
    case Not(_) =>
    case Other =>
  }

  /** Executing the steps of a filter never prunes a partition that holds a satisfying row,
      if no comparison step prunes it. */
  lemma {:induction false} PruneSound(p: Pruner, fam: Family, t: Truth, parts: nat -> set<int>, f: Filter, part: nat, row: int)
    requires Sound(p, fam, t, parts) && Compile(f, fam, 0).Steps?
    requires part in p.all && row in parts(part) && Satisfies(f, t, row)
    ensures
      var steps := Compile(f, fam, 0).steps;
      Numbered(steps, 0) && steps != [] && part in Results(p, [], steps)[|steps| - 1]
  {
    CompilesIff(f, fam, 0);
    EvalKeeps(p, fam, t, parts, f, part, row);
    PruneCorrect(p, f, fam);
  }

  // ----- the builder: one counter and one list through the recursion -----

  class StepsBuilder {
    var stepId: nat
    var steps: seq<Step>

    constructor ()
      ensures stepId == 0 && steps == []
    {
      stepId, steps := 0, [];
    }

    // PartPruneStepsFromFilter; false stands for the raised exception
    method FromFilter(f: Filter, fam: Family) returns (ok: bool)
      requires stepId == |steps|
      modifies this
      ensures ok <==> Compile(f, fam, old(stepId)).Steps?
      ensures ok ==> stepId == |steps| && steps == old(steps) + Compile(f, fam, old(stepId)).steps
      decreases f
    {
      match f
      case Cmp(op, rhs) =>
        if fam(op).None? { return false; }
        steps := steps + [OpStep(stepId, fam(op).value, rhs)];
        stepId := stepId + 1;
        ok := true;
      case And(args) =>
        ok := FromBool(args, fam, true);
      case Or(args) =>
        ok := FromBool(args, fam, false);
      case Not(_) =>
        ok := false;
      case Other =>
        ok := false;
    }

    // PartPruneStepFromScalarBoolExpr: the operands, then the combine step
    method FromBool(args: seq<Filter>, fam: Family, intersect: bool) returns (ok: bool)
      requires stepId == |steps|
      modifies this
      ensures ok <==> CompileAll(args, |args|, fam, old(stepId)).Operands?
      ensures ok ==>
        var r := CompileAll(args, |args|, fam, old(stepId));
        stepId == |steps| && steps == old(steps) + (r.code + [CombineStep(old(stepId) + |r.code|, intersect, r.ids)])
      decreases args, 1
    {
      var ids;
      ok, ids := FromOperands(args, fam);
      if ok {
        steps := steps + [CombineStep(stepId, intersect, ids)];
        stepId := stepId + 1;
      }
    }

    method FromOperands(args: seq<Filter>, fam: Family) returns (ok: bool, ids: seq<int>)
      requires stepId == |steps|
      modifies this
      ensures ok <==> CompileAll(args, |args|, fam, old(stepId)).Operands?
      ensures ok ==>
        stepId == |steps| && old(steps) <= steps && CompileAll(args, |args|, fam, old(stepId)) == Operands(ids, steps[old(|steps|)..])
      decreases args, 0
    {
      ids := [];
      ghost var n := stepId;
      for i := 0 to |args|
        invariant stepId == |steps| && n <= |steps| && steps[..n] == old(steps)
        invariant CompileAll(args, i, fam, n) == Operands(ids, steps[n..])
      {
        ghost var before := steps;
        ok := FromFilter(args[i], fam);
        if !ok {
          OperandFails(args, i, fam, n);
          return;
        }
        assert steps[n..] == before[n..] + Compile(args[i], fam, |before|).steps;
        ids := ids + [steps[|steps| - 1].id];
      }
      ok := true;
    }
  }
}
