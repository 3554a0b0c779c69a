/**
  Whole programs: calls mean runs of the callee's body, to any finite depth of nesting. What the
  run theorem says about one body is restated here for invocations that return.
 */
module ProgramRuns {
  import opened Wrappers
  import opened Graphs
  import opened CutDag
  import opened Terms
  import opened Ir
  import opened Summaries
  import opened Encoding
  import opened GuardTerms
  import opened Encoder
  import opened Runs
  import opened RunFacts
  import opened RunModel
  import opened RunSettled
  import opened RunAgrees
  import opened RunCalls
  import opened RunTheorem

  /**
    Bodies by function, what functions without one may return, and which calls count: all of them,
    or only those that meet the callee's preconditions.
   */
  datatype Program = Program(bodies: map<FuncId, Function>, external: (FuncId, seq<RVal>, seq<RVal>) -> bool,
                             admits: (FuncId, seq<RVal>) -> bool,
                             fieldAddr: (RVal, nat) -> nat, indexAddr: (RVal, RVal) -> nat)

  // ---- one invocation ----

  function LastInstr(f: Function, b: nat): Option<Op> {
    if b < |f.blocks| && |f.blocks[b].instrs| > 0 then Some(f.blocks[b].instrs[|f.blocks[b].instrs| - 1]) else None
  }

  ghost predicate StartsWith(f: Function, run: Run, args: seq<RVal>)
    requires |run.states| > 0 && |run.states[0]| > 0
  {
    |args| == |f.params|
    && forall i :: 0 <= i < |args| ==>
      f.params[i] in run.states[0][0].regs && run.states[0][0].regs[f.params[i]] == args[i]
  }

  /** The run left its last block through a return of these values. */
  ghost predicate Returned(f: Function, run: Run, results: seq<RVal>)
    requires |run.path| == |run.states| > 0 && LastBlock(run) < |f.blocks| && |run.states[|run.states| - 1]| > 0
  {
    && Complete(f, KeptGraph(f), run) && run.next == None
    && match LastInstr(f, LastBlock(run))
       case Some(Return(vals)) =>
         |results| == |vals|
         && forall i :: 0 <= i < |vals| ==> vals[i] in LastState(run).regs && results[i] == LastState(run).regs[vals[i]]
       case _ => false
  }

  /** A run of the body on the arguments that returns the results. */
  ghost predicate Invokes(m: Machine, f: Function, args: seq<RVal>, run: Run, results: seq<RVal>) {
    && IsRun(m, f, KeptGraph(f), run)
    && (RunShape(m, f, KeptGraph(f), run);
        StartsWith(f, run, args) && Returned(f, run, results))
  }

  ghost predicate MayReturn(m: Machine, f: Function, args: seq<RVal>, results: seq<RVal>) {
    exists run :: Invokes(m, f, args, run, results)
  }

  // ---- all depths of nesting ----

  ghost predicate Calls(p: Program, depth: nat, c: FuncId, args: seq<RVal>, results: seq<RVal>)
    decreases depth, 0
  {
    && p.admits(c, args)
    && if c in p.bodies then depth > 0 && MayReturn(MachineAt(p, depth - 1), p.bodies[c], args, results)
       else p.external(c, args, results)
  }

  /** The machine whose calls return within the given nesting depth. */
  ghost function MachineAt(p: Program, depth: nat): Machine
    decreases depth, 1
  {
    Machine(p.fieldAddr, p.indexAddr,
      (c: FuncId, args: seq<RVal>, results: seq<RVal>) => Calls(p, depth, c, args, results))
  }

  /** Every promise callers may rely on holds of every call that returns. */
  ghost predicate PromisesKept(p: Program, cs: Contracts) {
    forall depth: nat {:trigger MachineAt(p, depth)} :: ContractsTrue(MachineAt(p, depth), cs)
  }

  // ---- the run theorem for an invocation ----

  lemma InvocationReady(m: Machine, f: Function, cs: Contracts, run: Run)
    requires WellFormed(f) && IsRun(m, f, KeptGraph(f), run) && ContractsTrue(m, cs)
    ensures Ready(Setting(m, f, cs, KeptGraph(f), ReachableBlocks(f), BlockOrder(f), run))
  {
    hide WellFormed, IsRun, ContractsTrue, Walk;
    CutOfMeaning(Successors(f));
    OrderOfMeaning(KeptGraph(f));
    ListedInRange(KeptGraph(f), BlockOrder(f));
  }

  /** The final registers of an invocation under their names. */
  ghost function Outcome(f: Function, run: Run): Model
    requires |run.path| == |run.states| > 0 && |run.states[|run.states| - 1]| > 0
  {
    RegisterModel(f, LastState(run).regs)
  }

  /**
    If reaching the returning block together with some conjuncts is refuted, one of them is false of the
    invocation.
   */
  lemma RefutedAtReturn(m: Machine, f: Function, cs: Contracts, args: seq<RVal>, run: Run, results: seq<RVal>,
                        extra: seq<Term>)
    requires WellFormed(f) && ContractsTrue(m, cs) && Invokes(m, f, args, run, results)
    requires |run.path| == |run.states| > 0 && |run.states[|run.states| - 1]| > 0
    requires forall t, x :: t in extra && x in FreeVars(t) ==> x.0 in Outcome(f, run)
    requires !Satisfiable(ReachQuery(f, EncodingOf(f, cs), LastBlock(run), extra))
    ensures exists t :: t in extra && !Holds(t, Outcome(f, run))
  {
    hide WellFormed, ContractsTrue, Satisfiable, Encode, Complete;
    var c := Setting(m, f, cs, KeptGraph(f), ReachableBlocks(f), BlockOrder(f), run);
    InvocationReady(m, f, cs, run);
    RunShape(m, f, KeptGraph(f), run);
    assert Finished(c);
    UnsatRulesOutRuns(c, LastBlock(run), extra);
  }
}
