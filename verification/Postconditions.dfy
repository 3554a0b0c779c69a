/**
  Postconditions: proposing non-nil results and checking stated ones, both by refuting a query at
  every return site. A solver that only answers Unsat when there is no model makes the answers
  true of every invocation that returns, through any nesting of calls and any order of rounds.
 */
module Postconditions {
  import opened Wrappers
  import opened Graphs
  import opened Terms
  import opened Ir
  import opened Summaries
  import opened Encoding
  import opened Encoder
  import opened GuardTerms
  import opened Runs
  import opened RunFacts
  import opened RunModel
  import opened RunSettled
  import opened CutDag
  import opened RunAgrees
  import opened RunTheorem
  import opened ProgramRuns
  import opened Answers

  datatype SatResult = Sat | Unsat | Unknown

  ghost predicate Sound(solve: Query -> SatResult) {
    forall q :: solve(q) == Unsat ==> !Satisfiable(q)
  }

  // ---- return sites ----

  type ReturnSite = (nat, seq<ValueId>)

  function ReturnsIn(b: nat, instrs: seq<Op>): seq<ReturnSite> {
    if instrs == [] then []
    else
      var op := instrs[|instrs| - 1];
      ReturnsIn(b, instrs[..|instrs| - 1]) + if op.Return? then [(b, op.vals)] else []
  }

  /** Every return of the first n blocks, in order. */
  function ReturnsOf(f: Function, n: nat): seq<ReturnSite>
    requires n <= |f.blocks|
  {
    if n == 0 then [] else ReturnsOf(f, n - 1) + ReturnsIn(n - 1, f.blocks[n - 1].instrs)
  }

  /** Every return passes as many values as the signature has results. */
  predicate ArityFits(f: Function) {
    forall s | s in ReturnsOf(f, |f.blocks|) :: |s.1| == |f.results|
  }

  lemma {:induction false} ReturnInIs(b: nat, instrs: seq<Op>, i: nat)
    requires i < |instrs| && instrs[i].Return?
    ensures (b, instrs[i].vals) in ReturnsIn(b, instrs)
  {
    if i < |instrs| - 1 {
      ReturnInIs(b, instrs[..|instrs| - 1], i);
    }
  }

  lemma {:induction false} ReturnListed(f: Function, n: nat, s: Site)
    requires s.0 < n <= |f.blocks| && IsSite(f, s) && OpAt(f, s).Return?
    ensures (s.0, OpAt(f, s).vals) in ReturnsOf(f, n)
  {
    hide ReturnsIn;
    if s.0 == n - 1 {
      ReturnInIs(s.0, f.blocks[s.0].instrs, s.1);
    } else {
      ReturnListed(f, n - 1, s);
    }
  }

  lemma {:induction false} ReturnInFrom(b: nat, instrs: seq<Op>, r: ReturnSite) returns (i: nat)
    requires r in ReturnsIn(b, instrs)
    ensures i < |instrs| && instrs[i] == Return(r.1) && r.0 == b
  {
    if r in ReturnsIn(b, instrs[..|instrs| - 1]) {
      i := ReturnInFrom(b, instrs[..|instrs| - 1], r);
    } else {
      i := |instrs| - 1;
    }
  }

  lemma {:induction false} ReturnFrom(f: Function, n: nat, r: ReturnSite) returns (s: Site)
    requires n <= |f.blocks| && r in ReturnsOf(f, n)
    ensures IsSite(f, s) && OpAt(f, s) == Return(r.1) && r.0 == s.0
  {
    if r in ReturnsOf(f, n - 1) {
      s := ReturnFrom(f, n - 1, r);
    } else {
      var i := ReturnInFrom(n - 1, f.blocks[n - 1].instrs, r);
      s := (n - 1, i);
    }
  }

  lemma ReturnedMentioned(f: Function, r: ReturnSite)
    requires r in ReturnsOf(f, |f.blocks|)
    ensures forall v :: v in r.1 ==> v in Mentions(f)
  {
    hide Mentions;
    var s := ReturnFrom(f, |f.blocks|, r);
    forall v | v in r.1
      ensures v in Mentions(f)
    {
      Mentioned(f, s, v);
    }
  }

  method ReturnSites(f: Function) returns (sites: seq<ReturnSite>, fits: bool)
    ensures sites == ReturnsOf(f, |f.blocks|)
    ensures fits <==> ArityFits(f)
  {
    sites, fits := [], true;
    for b := 0 to |f.blocks|
      invariant sites == ReturnsOf(f, b)
      invariant fits <==> forall s :: s in sites ==> |s.1| == |f.results|
    {
      var instrs := f.blocks[b].instrs;
      for i := 0 to |instrs|
        invariant sites == ReturnsOf(f, b) + ReturnsIn(b, instrs[..i])
        invariant fits <==> forall s :: s in sites ==> |s.1| == |f.results|
      {
        assert instrs[..i + 1][..i] == instrs[..i];
        if instrs[i].Return? {
          fits := fits && |instrs[i].vals| == |f.results|;
          sites := sites + [(b, instrs[i].vals)];
        }
      }
      assert instrs[..|instrs|] == instrs;
    }
  }

  // ---- proposing non-nil results ----

  function NonNilResult(i: nat): Clause {
    Clause("nil-deref", Not(IsNil(Var(Result(i), PtrSort))), Inferred)
  }

  /** Never both nil. */
  function Correlation(e: nat, i: nat): Clause {
    Clause("nil-deref", Or([Not(IsNil(Var(Result(e), PtrSort))), Not(IsNil(Var(Result(i), PtrSort)))]), Inferred)
  }

  predicate PointerResult(f: Function, i: nat) {
    i < |f.results| && SortOfTy(f.results[i]) == Some(PtrSort)
  }

  predicate ErrorResult(f: Function, e: nat) {
    e < |f.results| && f.results[e] == IfaceTy(true)
  }

  /** Reaching the block with v nil is refuted. */
  ghost predicate RefutedNil(f: Function, cs: Contracts, solve: Query -> SatResult, b: nat, v: ValueId) {
    && TermOf(f, v).Some? && MkIsNil(TermOf(f, v).value).Some?
    && solve(ReachQuery(f, EncodingOf(f, cs), b, [IsNil(TermOf(f, v).value)])) == Unsat
  }

  ghost predicate NeverNil(f: Function, cs: Contracts, solve: Query -> SatResult, i: nat) {
    forall s :: s in ReturnsOf(f, |f.blocks|) ==> i < |s.1| && RefutedNil(f, cs, solve, s.0, s.1[i])
  }

  /** Refuted wherever the error returned is the literal nil; any other error expression counts as non-nil. */
  ghost predicate NilOnlyWithError(f: Function, cs: Contracts, solve: Query -> SatResult, e: nat, i: nat) {
    forall s :: s in ReturnsOf(f, |f.blocks|) ==>
      i < |s.1| && e < |s.1| && (ValueOf(f, s.1[e]).kind == ConstKind(NilConst) ==>
        RefutedNil(f, cs, solve, s.0, s.1[i]))
  }

  /**
    Clause proposed for pointer result i: the unconditional one, or else the correlations with error
    results below n.
   */
  ghost predicate ProposedFor(f: Function, cs: Contracts, solve: Query -> SatResult, i: nat, n: nat, cl: Clause) {
    PointerResult(f, i)
    && if NeverNil(f, cs, solve, i) then cl == NonNilResult(i)
       else exists e: nat ::
              e < n && ErrorResult(f, e) && e != i && NilOnlyWithError(f, cs, solve, e, i) && cl == Correlation(e, i)
  }

  ghost predicate Proposed(f: Function, cs: Contracts, solve: Query -> SatResult, cl: Clause) {
    && |EncodingOf(f, cs)| <= ASSERT_CAP && ArityFits(f) && ReturnsOf(f, |f.blocks|) != []
    && exists i: nat :: i < |f.results| && ProposedFor(f, cs, solve, i, |f.results|, cl)
  }

  method SiteNonNil(f: Function, ghost cs: Contracts, enc: EncodedFunc, solve: Query -> SatResult, b: nat, v: ValueId)
      returns (r: bool)
    requires enc.Encodes(f, cs) && v in Mentions(f)
    ensures r <==> RefutedNil(f, cs, solve, b, v)
  {
    hide EncodingOf, Mentions;
    match enc.Value(v)
    case None => return false;
    case Some(t) =>
      if MkIsNil(t).None? {
        return false;
      }
      var q := enc.ReachQuery(f, cs, b, [IsNil(t)]);
      return solve(q) == Unsat;
  }

  method AllNonNil(f: Function, ghost cs: Contracts, enc: EncodedFunc, solve: Query -> SatResult,
                   sites: seq<ReturnSite>, i: nat) returns (r: bool)
    requires enc.Encodes(f, cs) && sites == ReturnsOf(f, |f.blocks|) && ArityFits(f) && i < |f.results|
    ensures r <==> NeverNil(f, cs, solve, i)
  {
    hide EncodingOf, Mentions;
    for k := 0 to |sites|
      invariant forall l :: 0 <= l < k ==> RefutedNil(f, cs, solve, sites[l].0, sites[l].1[i])
    {
      ReturnedMentioned(f, sites[k]);
      var proven := SiteNonNil(f, cs, enc, solve, sites[k].0, sites[k].1[i]);
      if !proven {
        return false;
      }
    }
    return true;
  }

  method Correlated(f: Function, ghost cs: Contracts, enc: EncodedFunc, solve: Query -> SatResult,
                    sites: seq<ReturnSite>, e: nat, i: nat) returns (r: bool)
    requires enc.Encodes(f, cs) && sites == ReturnsOf(f, |f.blocks|) && ArityFits(f) && i < |f.results|
        && e < |f.results|
    ensures r <==> NilOnlyWithError(f, cs, solve, e, i)
  {
    hide EncodingOf, Mentions;
    for k := 0 to |sites|
      invariant forall l :: 0 <= l < k ==>
        ValueOf(f, sites[l].1[e]).kind == ConstKind(NilConst) ==> RefutedNil(f, cs, solve, sites[l].0, sites[l].1[i])
    {
      if ValueOf(f, sites[k].1[e]).kind == ConstKind(NilConst) {
        ReturnedMentioned(f, sites[k]);
        var proven := SiteNonNil(f, cs, enc, solve, sites[k].0, sites[k].1[i]);
        if !proven {
          return false;
        }
      }
    }
    return true;
  }

  function Pushed(out: seq<Clause>, cl: Clause): seq<Clause> {
    if cl in out then out else out + [cl]
  }

  /** Proposals for one result, added to those already there. */
  method ProposeFor(f: Function, ghost cs: Contracts, enc: EncodedFunc, solve: Query -> SatResult,
                    sites: seq<ReturnSite>, i: nat, before: seq<Clause>)
      returns (out: seq<Clause>)
    requires enc.Encodes(f, cs) && sites == ReturnsOf(f, |f.blocks|) && ArityFits(f) && i < |f.results|
    ensures forall cl :: cl in out <==> cl in before || ProposedFor(f, cs, solve, i, |f.results|, cl)
  {
    hide EncodingOf, NeverNil, NilOnlyWithError, ReturnsOf;
    out := before;
    if SortOfTy(f.results[i]) != Some(PtrSort) {
      return;
    }
    var always := AllNonNil(f, cs, enc, solve, sites, i);
    if always {
      out := Pushed(out, NonNilResult(i));
      return;
    }
    for e := 0 to |f.results|
      invariant forall cl :: cl in out <==> cl in before || ProposedFor(f, cs, solve, i, e, cl)
    {
      if f.results[e] == IfaceTy(true) && e != i {
        var proven := Correlated(f, cs, enc, solve, sites, e, i);
        if proven {
          out := Pushed(out, Correlation(e, i));
        }
      }
    }
  }

  /** Exactly the proposed clauses; none for a body that is too large, malformed or never returns. */
  method InferEnsures(f: Function, cs: Contracts, solve: Query -> SatResult) returns (out: seq<Clause>)
    ensures forall cl :: cl in out <==> Proposed(f, cs, solve, cl)
  {
    hide EncodingOf, ProposedFor;
    out := [];
    var enc := EncodeFunc(f, cs);
    if enc.None? {
      return;
    }
    var sites, fits := ReturnSites(f);
    if !fits || sites == [] {
      return;
    }
    for i := 0 to |f.results|
      invariant enc.value.Encodes(f, cs)
      invariant forall cl :: cl in out <==> exists j: nat :: j < i && ProposedFor(f, cs, solve, j, |f.results|, cl)
    {
      out := ProposeFor(f, cs, enc.value, solve, sites, i, out);
    }
  }

  // ---- proposals are true ----

  /** A value the invocation returned has its final value under its name. */
  lemma OutcomeHas(m: Machine, f: Function, cs: Contracts, run: Run, v: ValueId)
    requires WellFormed(f) && IsRun(m, f, KeptGraph(f), run) && ContractsTrue(m, cs)
    requires |run.path| == |run.states| > 0 && |run.states[|run.states| - 1]| > 0
    requires v in Mentions(f) && v in LastState(run).regs && TermOf(f, v).Some?
    ensures NameOf(f, v) in Outcome(f, run) && LastState(run).regs[v] == Plain(Outcome(f, run)[NameOf(f, v)])
    ensures LastState(run).regs[v] == Plain(Eval(TermOf(f, v).value, Outcome(f, run)))
  {
    hide WellFormed, ContractsTrue, Walk, IsRun, Mentions, NameOf, CutsBackEdges, BlockOrder, ReachableBlocks,
      KeptGraph;
    var c := Setting(m, f, cs, KeptGraph(f), ReachableBlocks(f), BlockOrder(f), run);
    InvocationReady(m, f, cs, run);
    FinalTyped(c, v);
    NameRoundTrip(f, v);
    MentionedDeclared(f, v);
  }

  lemma MentionedDeclared(f: Function, v: ValueId)
    requires v in Mentions(f) && SortOfValue(f, v).Some?
    ensures NameOf(f, v) in DeclaredNames(f)
  {
    hide Mentions;
    assert (NameOf(f, v), SortOfValue(f, v).value) in Declared(f);
  }

  /** The return a finished invocation left through is one of the sites. */
  lemma LeftThrough(m: Machine, f: Function, args: seq<RVal>, run: Run, results: seq<RVal>) returns (s: ReturnSite)
    requires Invokes(m, f, args, run, results)
    ensures |run.path| == |run.states| > 0 && |run.states[|run.states| - 1]| > 0
    ensures s in ReturnsOf(f, |f.blocks|) && s.0 == LastBlock(run) && |s.1| == |results|
    ensures LastInstr(f, LastBlock(run)) == Some(Return(s.1))
    ensures forall i :: 0 <= i < |results| ==>
        s.1[i] in LastState(run).regs && results[i] == LastState(run).regs[s.1[i]]
  {
    hide IsRun, Complete;
    RunShape(m, f, KeptGraph(f), run);
    var b := LastBlock(run);
    var n := |f.blocks[b].instrs|;
    s := (b, LastInstr(f, b).value.vals);
    ReturnListed(f, |f.blocks|, (b, n - 1));
  }

  /** A refuted nil is not what the invocation returned. */
  lemma RefutedIsNotNil(m: Machine, f: Function, cs: Contracts, solve: Query -> SatResult, args: seq<RVal>, run: Run,
                        results: seq<RVal>, s: ReturnSite, i: nat)
    requires WellFormed(f) && ContractsTrue(m, cs) && Sound(solve) && Invokes(m, f, args, run, results)
    requires |run.path| == |run.states| > 0 && |run.states[|run.states| - 1]| > 0
    requires s in ReturnsOf(f, |f.blocks|) && s.0 == LastBlock(run) && i < |s.1| && s.1[i] in LastState(run).regs
    requires RefutedNil(f, cs, solve, s.0, s.1[i])
    ensures LastState(run).regs[s.1[i]].Plain? && LastState(run).regs[s.1[i]].v != NilPtr
  {
    hide WellFormed, ContractsTrue, IsRun, Complete, StartsWith, EncodingOf, Mentions, Satisfiable, Outcome,
      ReturnsOf, ReachQuery;
    var v := s.1[i];
    var t := TermOf(f, v).value;
    ReturnedMentioned(f, s);
    OutcomeHas(m, f, cs, run, v);
    var extra := [IsNil(t)];
    assert FreeVars(IsNil(t)) == {(NameOf(f, v), SortOf(t))};
    RefutedAtReturn(m, f, cs, args, run, results, extra);
    assert !Holds(IsNil(t), Outcome(f, run));
  }

  lemma NotNilHolds(i: nat, world: Model)
    ensures Result(i) in world ==> (Holds(Not(IsNil(Var(Result(i), PtrSort))), world) <==> world[Result(i)] != NilPtr)
    ensures FreeVars(Not(IsNil(Var(Result(i), PtrSort)))) == {(Result(i), PtrSort)}
  {
    var x := Var(Result(i), PtrSort);
    if Result(i) in world {
      assert Eval(x, world) == world[Result(i)];
      assert Eval(IsNil(x), world) == BoolVal(world[Result(i)] == NilPtr);
      assert Eval(Not(IsNil(x)), world) == BoolVal(Eval(IsNil(x), world) != BoolVal(true));
    }
    assert FreeVars(IsNil(x)) == FreeVars(x) == {(Result(i), PtrSort)};
  }

  /** A proposed unconditional clause is true of a call that returns, if the calls it makes keep their promises. */
  lemma NonNilIsTrue(p: Program, cs: Contracts, solve: Query -> SatResult, id: FuncId, i: nat, depth: nat,
                     args: seq<RVal>, results: seq<RVal>)
    requires Sound(solve) && id in p.bodies && WellFormed(p.bodies[id])
    requires NeverNil(p.bodies[id], cs, solve, i) && Calls(p, depth, id, args, results)
    requires depth > 0 ==> ContractsTrue(MachineAt(p, depth - 1), cs)
    ensures ClauseTrue(NonNilResult(i).term, args, results)
  {
    hide WellFormed, ContractsTrue, IsRun, Returned, StartsWith, EncodingOf, Mentions, Satisfiable, RefutedNil,
      ReturnsOf;
    var f := p.bodies[id];
    var m := MachineAt(p, depth - 1);
    var run :| Invokes(m, f, args, run, results);
    var s := LeftThrough(m, f, args, run, results);
    RefutedIsNotNil(m, f, cs, solve, args, run, results, s, i);
    assert ValsIn(results)[i] == Some(results[i].v);
    NotNilHolds(i, Interface(ValsIn(args), ValsIn(results)));
  }

  /** The clause is true of every call of the function that returns. */
  ghost predicate KeptBy(p: Program, id: FuncId, cl: Clause) {
    forall depth: nat, args: seq<RVal>, results: seq<RVal> :: Calls(p, depth, id, args, results) ==>
      ClauseTrue(cl.term, args, results)
  }

  // ---- correlations ----

  /** Left through a return whose expression for result e is not the literal nil, the run returned no nil there. */
  ghost predicate ReturnsError(f: Function, run: Run, results: seq<RVal>, e: nat) {
    |run.path| > 0 && e < |results| ==>
      match LastInstr(f, LastBlock(run))
      case Some(Return(vals)) =>
        e < |vals| && ValueOf(f, vals[e]).kind != ConstKind(NilConst) ==> results[e] != Plain(NilPtr)
      case _ => true
  }

  /** Result e is of the error interface's type. */
  predicate GivesError(f: Function, e: nat) {
    e < |f.results| && f.results[e].IfaceTy? && f.results[e].isError
  }

  /**
    The convention for errors: an error expression other than the literal nil stands for an error. It is
    about the source of the function, and the one thing correlations take from outside.
   */
  ghost predicate ErrorsMeant(p: Program, id: FuncId) {
    forall depth: nat, args: seq<RVal>, run: Run, results: seq<RVal>, e: nat ::
      && id in p.bodies && GivesError(p.bodies[id], e)
      && Invokes(MachineAt(p, depth), p.bodies[id], args, run, results) ==>
        ReturnsError(p.bodies[id], run, results, e)
  }

  /** If one of two results is not nil, the correlation of the two is true. */
  lemma NeverBothNil(e: nat, i: nat, args: seq<RVal>, results: seq<RVal>)
    requires e < |results| && i < |results| && (results[e] != Plain(NilPtr) || results[i] != Plain(NilPtr))
    ensures ClauseTrue(Correlation(e, i).term, args, results)
  {
    var world := Interface(ValsIn(args), ValsIn(results));
    var x, y := Var(Result(e), PtrSort), Var(Result(i), PtrSort);
    var a, b := Not(IsNil(x)), Not(IsNil(y));
    if Evaluable(Or([a, b]), world) {
      NotNilHolds(e, world);
      NotNilHolds(i, world);
      assert a in [a, b] && b in [a, b];
      assert (Result(e), PtrSort) in FreeVars(Or([a, b])) && (Result(i), PtrSort) in FreeVars(Or([a, b]));
      assert ValsIn(results)[e] == Some(world[Result(e)]) && ValsIn(results)[i] == Some(world[Result(i)]);
      PairMeaning(a, b, world);
    }
  }

  /**
    A proposed correlation is true of a call that returns, if the calls it makes keep their promises and
    errors are meant: where the error is the literal nil the other result was refuted to be nil.
   */
  lemma CorrelationIsTrue(p: Program, cs: Contracts, solve: Query -> SatResult, id: FuncId, e: nat, i: nat, depth: nat,
                          args: seq<RVal>, results: seq<RVal>)
    requires Sound(solve) && id in p.bodies && WellFormed(p.bodies[id]) && ErrorsMeant(p, id)
    requires GivesError(p.bodies[id], e) && NilOnlyWithError(p.bodies[id], cs, solve, e, i)
    requires Calls(p, depth, id, args, results)
    requires depth > 0 ==> ContractsTrue(MachineAt(p, depth - 1), cs)
    ensures ClauseTrue(Correlation(e, i).term, args, results)
  {
    hide WellFormed, ContractsTrue, IsRun, Returned, StartsWith, EncodingOf, Mentions, Satisfiable, RefutedNil,
      ReturnsOf, ClauseTrue;
    var f := p.bodies[id];
    var m := MachineAt(p, depth - 1);
    var run :| Invokes(m, f, args, run, results);
    var s := LeftThrough(m, f, args, run, results);
    assert ReturnsError(f, run, results, e);
    if ValueOf(f, s.1[e]).kind == ConstKind(NilConst) {
      RefutedIsNotNil(m, f, cs, solve, args, run, results, s, i);
    }
    NeverBothNil(e, i, args, results);
  }

  /** A proposed clause is true of a call that returns, if the calls it makes keep their promises. */
  lemma ProposedIsTrue(p: Program, cs: Contracts, solve: Query -> SatResult, id: FuncId, cl: Clause, depth: nat,
                       args: seq<RVal>, results: seq<RVal>)
    requires Sound(solve) && id in p.bodies && WellFormed(p.bodies[id]) && Proposed(p.bodies[id], cs, solve, cl)
    requires (exists e, i :: cl == Correlation(e, i)) ==> ErrorsMeant(p, id)
    requires Calls(p, depth, id, args, results) && (depth > 0 ==> ContractsTrue(MachineAt(p, depth - 1), cs))
    ensures ClauseTrue(cl.term, args, results)
  {
    hide WellFormed, ContractsTrue, EncodingOf, NeverNil, NilOnlyWithError, ClauseTrue, ReturnsOf, ArityFits,
      ErrorsMeant, Calls;
    var f := p.bodies[id];
    var i: nat :| i < |f.results| && ProposedFor(f, cs, solve, i, |f.results|, cl);
    if NeverNil(f, cs, solve, i) {
      NonNilIsTrue(p, cs, solve, id, i, depth, args, results);
    } else {
      var e: nat :| ErrorResult(f, e) && NilOnlyWithError(f, cs, solve, e, i) && cl == Correlation(e, i);
      CorrelationIsTrue(p, cs, solve, id, e, i, depth, args, results);
    }
  }

  /** Errors are meant wherever a correlation is proposed. */
  ghost predicate ErrorsMeantFor(p: Program, cs: Contracts, solve: Query -> SatResult, id: FuncId) {
    (exists e, i :: id in p.bodies && Proposed(p.bodies[id], cs, solve, Correlation(e, i))) ==> ErrorsMeant(p, id)
  }

  // ---- rounds ----

  /**
    One round for one function: replacing its contract by proposals made under the current contracts
    keeps every promise, provided errors are meant where correlations are proposed, and the clauses a
    human stated are kept.
   */
  lemma RoundKeepsPromises(p: Program, cs: Contracts, solve: Query -> SatResult, id: FuncId, c: Contract)
    requires PromisesKept(p, cs) && Sound(solve) && id in p.bodies && WellFormed(p.bodies[id])
    requires forall cl :: cl in c.ensures_ && Usable(c, cl) && !Proposed(p.bodies[id], cs, solve, cl) ==>
        KeptBy(p, id, cl)
    requires ErrorsMeantFor(p, cs, solve, id)
    ensures PromisesKept(p, cs[id := c])
  {
    hide WellFormed, IsRun, EncodingOf, Mentions, Proposed, ClauseTrue, ErrorsMeant;
    forall depth: nat
      ensures ContractsTrue(MachineAt(p, depth), cs[id := c])
    {
      var m := MachineAt(p, depth);
      assert ContractsTrue(m, cs);
      forall g, args, results, cl | g in cs[id := c] && m.calls(g, args, results) && cl in cs[id := c][g].ensures_
        && Usable(cs[id := c][g], cl)
        ensures ClauseTrue(cl.term, args, results)
      {
        if g == id {
          assert Calls(p, depth, id, args, results);
          if Proposed(p.bodies[id], cs, solve, cl) {
            assert depth > 0 ==> ContractsTrue(MachineAt(p, depth - 1), cs);
            ProposedIsTrue(p, cs, solve, id, cl, depth, args, results);
          } else {
            assert KeptBy(p, id, cl);
          }
        }
      }
    }
  }

  /** One update of one member's contract, as RoundKeepsPromises allows it. */
  ghost predicate Round(p: Program, solve: Query -> SatResult, cs: Contracts, cs': Contracts, id: FuncId) {
    && id in p.bodies && WellFormed(p.bodies[id]) && id in cs' && cs' == cs[id := cs'[id]]
    && (forall cl :: cl in cs'[id].ensures_ && Usable(cs'[id], cl) && !Proposed(p.bodies[id], cs, solve, cl) ==>
      KeptBy(p, id, cl))
    && ErrorsMeantFor(p, cs, solve, id)
  }

  ghost predicate SomeRound(p: Program, solve: Query -> SatResult, cs: Contracts, cs': Contracts) {
    exists id :: Round(p, solve, cs, cs', id)
  }

  /** Any number of rounds over the members of a recursive group, in any order, keeps every promise. */
  lemma {:induction false} RoundsKeepPromises(p: Program, solve: Query -> SatResult, history: seq<Contracts>)
    requires |history| > 0 && PromisesKept(p, history[0]) && Sound(solve)
    requires forall k: nat :: k + 1 < |history| ==> SomeRound(p, solve, history[k], history[k + 1])
    ensures PromisesKept(p, history[|history| - 1])
  {
    hide PromisesKept, Sound, Usable, Proposed, KeptBy, ErrorsMeantFor;
    if |history| > 1 {
      var n := |history| - 2;
      var earlier := history[..n + 1];
      forall k: nat | k + 1 < |earlier|
        ensures SomeRound(p, solve, earlier[k], earlier[k + 1])
      {
        assert SomeRound(p, solve, history[k], history[k + 1]);
      }
      RoundsKeepPromises(p, solve, earlier);
      assert SomeRound(p, solve, history[n], history[n + 1]);
      var id :| Round(p, solve, history[n], history[n + 1], id);
      RoundKeepsPromises(p, history[n], solve, id, history[n + 1][id]);
    }
  }

  /** A group starts from contracts that promise nothing. */
  lemma NothingPromised(p: Program, cs: Contracts, id: FuncId)
    requires PromisesKept(p, cs)
    ensures PromisesKept(p, cs[id := Contract([], [], Inferred)])
  {
    hide ClauseTrue;
    forall depth: nat
      ensures ContractsTrue(MachineAt(p, depth), cs[id := Contract([], [], Inferred)])
    {
      assert ContractsTrue(MachineAt(p, depth), cs);
    }
  }

  // ---- checking stated postconditions ----

  /** The stated clause over the terms one return site passes; None when some variable has no term. */
  function BoundAt(f: Function, cl: Clause, s: ReturnSite): Option<Term> {
    Bind(cl.term, TermsOf(f, f.params), TermsOf(f, s.1))
  }

  ghost predicate ProvenAt(f: Function, cs: Contracts, solve: Query -> SatResult, own: seq<Term>, cl: Clause,
                           s: ReturnSite) {
    && BoundAt(f, cl, s).Some? && MkNot(BoundAt(f, cl, s).value).Some?
    && solve(ReachQuery(f, EncodingOf(f, cs), s.0, own + [Not(BoundAt(f, cl, s).value)])) == Unsat
  }

  /** Proven at every return of a well-formed body. */
  ghost predicate Verified(f: Function, cs: Contracts, solve: Query -> SatResult, own: seq<Term>, cl: Clause) {
    && ArityFits(f) && ReturnsOf(f, |f.blocks|) != []
    && forall s :: s in ReturnsOf(f, |f.blocks|) ==> ProvenAt(f, cs, solve, own, cl, s)
  }

  method ProvenEverywhere(f: Function, ghost cs: Contracts, enc: EncodedFunc, solve: Query -> SatResult,
                          own: seq<Term>, cl: Clause, sites: seq<ReturnSite>)
      returns (proven: bool)
    requires enc.Encodes(f, cs) && sites == ReturnsOf(f, |f.blocks|)
    ensures proven <==> forall s :: s in sites ==> ProvenAt(f, cs, solve, own, cl, s)
  {
    hide EncodingOf, Bind, ReturnsOf, Mentions;
    var args := seq(|f.params|, i requires 0 <= i < |f.params| reads enc => enc.Value(f.params[i]));
    ParamsMentioned(f);
    assert args == TermsOf(f, f.params);
    for k := 0 to |sites|
      invariant forall l :: 0 <= l < k ==> ProvenAt(f, cs, solve, own, cl, sites[l])
    {
      var vals := sites[k].1;
      ReturnedMentioned(f, sites[k]);
      var results := seq(|vals|, i requires 0 <= i < |vals| reads enc => enc.Value(vals[i]));
      assert results == TermsOf(f, vals);
      match Bind(cl.term, args, results)
      case None => return false;
      case Some(bound) =>
        if MkNot(bound).None? {
          return false;
        }
        var q := enc.ReachQuery(f, cs, sites[k].0, own + [Not(bound)]);
        if solve(q) != Unsat {
          return false;
        }
    }
    return true;
  }

  lemma ParamsMentioned(f: Function)
    ensures forall v :: v in f.params ==> v in Mentions(f)
  {
  }

  /** The positions of the stated clauses that could not be proven; all of them without an encoding. */
  method VerifyEnsures(f: Function, ghost cs: Contracts, enc: Option<EncodedFunc>, solve: Query -> SatResult,
                       own: seq<Term>, stated: seq<Clause>)
      returns (warned: seq<nat>)
    requires enc.Some? ==> enc.value.Encodes(f, cs)
    ensures forall k: nat :: k in warned <==> k < |stated| && !(enc.Some? && Verified(f, cs, solve, own, stated[k]))
    ensures forall i, j :: 0 <= i < j < |warned| ==> warned[i] < warned[j]
  {
    hide EncodingOf, ProvenAt, ReturnsOf;
    warned := [];
    if enc.None? {
      for k := 0 to |stated|
        invariant |warned| == k && forall i :: 0 <= i < k ==> warned[i] == i
      {
        warned := warned + [k];
      }
      forall k: nat | k < |stated|
        ensures k in warned
      {
        assert warned[k] == k;
      }
      return;
    }
    var sites, fits := ReturnSites(f);
    for k := 0 to |stated|
      invariant forall l: nat :: l in warned <==> l < k && !Verified(f, cs, solve, own, stated[l])
      invariant forall i, j :: 0 <= i < j < |warned| ==> warned[i] < warned[j]
    {
      var proven := false;
      if fits && sites != [] {
        proven := ProvenEverywhere(f, cs, enc.value, solve, own, stated[k], sites);
      }
      if !proven {
        assert forall i :: 0 <= i < |warned| ==> warned[i] in warned;
        warned := warned + [k];
      }
    }
  }

  /** The function's own preconditions, over its parameters, hold of the invocation. */
  ghost predicate RequiresMet(f: Function, run: Run, own: seq<Term>)
    requires |run.path| == |run.states| > 0 && |run.states[|run.states| - 1]| > 0
  {
    forall t :: t in own ==> (forall x :: x in FreeVars(t) ==> x.0 in Outcome(f, run)) && Holds(t, Outcome(f, run))
  }

  lemma ArgsHave(m: Machine, f: Function, cs: Contracts, args: seq<RVal>, run: Run, results: seq<RVal>)
    requires WellFormed(f) && ContractsTrue(m, cs) && Invokes(m, f, args, run, results)
    requires |run.path| == |run.states| > 0 && |run.states[|run.states| - 1]| > 0
    ensures TermsHave(TermsOf(f, f.params), ValsIn(args), Outcome(f, run))
    ensures forall i :: 0 <= i < |f.params| && TermOf(f, f.params[i]).Some? ==>
        NameOf(f, f.params[i]) in Outcome(f, run)
  {
    hide WellFormed, ContractsTrue, IsRun, Returned, EncodingOf, Mentions, Walk;
    var c := Setting(m, f, cs, KeptGraph(f), ReachableBlocks(f), BlockOrder(f), run);
    InvocationReady(m, f, cs, run);
    RunShape(m, f, KeptGraph(f), run);
    ReadyParts(c);
    RegsSurvive(m, f, KeptGraph(f), run, 0, 0);
    ParamsMentioned(f);
    forall i | 0 <= i < |f.params| && TermOf(f, f.params[i]).Some?
      ensures NameOf(f, f.params[i]) in Outcome(f, run)
      ensures ValsIn(args)[i] == Some(Eval(TermOf(f, f.params[i]).value, Outcome(f, run)))
    {
      OutcomeHas(m, f, cs, run, f.params[i]);
    }
  }

  lemma ReadyParts(c: Setting)
    requires Ready(c)
    ensures StrictSsa(c.f) && CutsBackEdges(Successors(c.f), c.dag) && AcyclicFromEntry(c.dag)
  {
    hide StrictSsa;
  }

  lemma ResultsHave(m: Machine, f: Function, cs: Contracts, args: seq<RVal>, run: Run, results: seq<RVal>,
                    s: ReturnSite)
    requires WellFormed(f) && ContractsTrue(m, cs) && Invokes(m, f, args, run, results)
    requires |run.path| == |run.states| > 0 && |run.states[|run.states| - 1]| > 0
    requires s in ReturnsOf(f, |f.blocks|) && |s.1| == |results|
    requires forall i :: 0 <= i < |results| ==>
        s.1[i] in LastState(run).regs && results[i] == LastState(run).regs[s.1[i]]
    ensures TermsHave(TermsOf(f, s.1), ValsIn(results), Outcome(f, run))
    ensures forall i :: 0 <= i < |s.1| && TermOf(f, s.1[i]).Some? ==> NameOf(f, s.1[i]) in Outcome(f, run)
  {
    hide WellFormed, ContractsTrue, IsRun, Returned, StartsWith, EncodingOf, Mentions, ReturnsOf;
    ReturnedMentioned(f, s);
    forall i | 0 <= i < |s.1| && TermOf(f, s.1[i]).Some?
      ensures NameOf(f, s.1[i]) in Outcome(f, run)
      ensures ValsIn(results)[i] == Some(Eval(TermOf(f, s.1[i]).value, Outcome(f, run)))
    {
      OutcomeHas(m, f, cs, run, s.1[i]);
    }
  }

  /** A bound clause reads only what the terms bound to it read. */
  lemma BoundVars(f: Function, cl: Clause, s: ReturnSite, x: (Name, Sort)) returns (v: ValueId)
    requires BoundAt(f, cl, s).Some? && x in FreeVars(BoundAt(f, cl, s).value)
    ensures (v in f.params || v in s.1) && TermOf(f, v).Some? && x.0 == NameOf(f, v)
  {
    var args, results := TermsOf(f, f.params), TermsOf(f, s.1);
    var bindings := Bindings(cl.term, args, results);
    var y := SubstituteVars(cl.term, bindings, x);
    var t := BindingOf(y.0, args, results).value;
    v := match y.0 case Param(i) => f.params[i] case Result(i) => s.1[i] case _ => 0;
    assert t == TermOf(f, v).value;
  }

  /**
    Silence means the stated clause is true of an invocation that returns and met the function's own
    preconditions, if the calls it makes keep their promises.
   */
  lemma SilenceMeansTrue(p: Program, cs: Contracts, solve: Query -> SatResult, own: seq<Term>, id: FuncId, cl: Clause,
                         depth: nat, args: seq<RVal>, run: Run, results: seq<RVal>)
    requires ContractsTrue(MachineAt(p, depth), cs) && Sound(solve) && id in p.bodies && WellFormed(p.bodies[id])
    requires Verified(p.bodies[id], cs, solve, own, cl)
    requires Invokes(MachineAt(p, depth), p.bodies[id], args, run, results)
    requires |run.path| == |run.states| > 0 && |run.states[|run.states| - 1]| > 0 && RequiresMet(p.bodies[id], run, own)
    ensures ClauseTrue(cl.term, args, results)
  {
    hide WellFormed, ContractsTrue, IsRun, Returned, StartsWith, EncodingOf, Mentions, Satisfiable, ReturnsOf, Bind,
      TermsOf;
    var f, m := p.bodies[id], MachineAt(p, depth);
    var s := LeftThrough(m, f, args, run, results);
    assert ProvenAt(f, cs, solve, own, cl, s);
    var bound := BoundAt(f, cl, s).value;
    ArgsHave(m, f, cs, args, run, results);
    ResultsHave(m, f, cs, args, run, results, s);
    var extra := own + [Not(bound)];
    forall t, x | t in extra && x in FreeVars(t)
      ensures x.0 in Outcome(f, run)
    {
      if t !in own {
        var v := BoundVars(f, cl, s, x);
      }
    }
    RefutedAtReturn(m, f, cs, args, run, results, extra);
    assert Holds(bound, Outcome(f, run));
    BindEval(cl.term, TermsOf(f, f.params), TermsOf(f, s.1), ValsIn(args), ValsIn(results), Outcome(f, run));
  }

  // ---- own preconditions ----

  /** A precondition over parameters that the encoding declares at these sorts. */
  predicate OverParams(f: Function, t: Term) {
    forall x | x in FreeVars(t) ::
      x.0.Param? && x.0.index < |f.params| && NameOf(f, f.params[x.0.index]) == x.0
        && SortOfValue(f, f.params[x.0.index]) == Some(x.1)
  }

  ghost predicate OwnTrue(f: Function, own: seq<Term>, args: seq<RVal>) {
    forall t :: t in own ==> OverParams(f, t) && Holds(t, Interface(ValsIn(args), []))
  }

  /** Preconditions true of the arguments are true of the registers the invocation ends with. */
  lemma OwnMet(m: Machine, f: Function, cs: Contracts, args: seq<RVal>, run: Run, results: seq<RVal>, own: seq<Term>)
    requires WellFormed(f) && ContractsTrue(m, cs) && Invokes(m, f, args, run, results) && OwnTrue(f, own, args)
    requires |run.path| == |run.states| > 0 && |run.states[|run.states| - 1]| > 0
    ensures RequiresMet(f, run, own)
  {
    hide WellFormed, ContractsTrue, IsRun, Returned, EncodingOf, Mentions, Outcome;
    ArgsHave(m, f, cs, args, run, results);
    var world := Interface(ValsIn(args), []);
    forall t | t in own
      ensures (forall x :: x in FreeVars(t) ==> x.0 in Outcome(f, run)) && Holds(t, Outcome(f, run))
    {
      forall x | x in FreeVars(t)
        ensures x.0 in world && x.0 in Outcome(f, run) && world[x.0] == Outcome(f, run)[x.0]
      {
        var i := x.0.index;
        var v := f.params[i];
        assert TermOf(f, v) == Some(Var(x.0, x.1)) && TermsOf(f, f.params)[i] == TermOf(f, v);
        assert Eval(TermOf(f, v).value, Outcome(f, run)) == Outcome(f, run)[x.0];
        assert ValsIn(args)[i] == Some(Outcome(f, run)[x.0]);
      }
      EvalAgrees(t, world, Outcome(f, run));
    }
  }

  // ---- all contracts at once ----

  /**
    Why a clause of a function's contract is true: it is known otherwise, or this very set of contracts
    proves it of the body, as a proposal (errors being meant) or as a stated clause not warned about.
   */
  ghost predicate Justified(p: Program, cs: Contracts, solve: Query -> SatResult, own: FuncId -> seq<Term>,
                            id: FuncId, cl: Clause) {
    || KeptBy(p, id, cl)
    || (id in p.bodies && WellFormed(p.bodies[id])
        && ((Proposed(p.bodies[id], cs, solve, cl) && ErrorsMeantFor(p, cs, solve, id))
            || Verified(p.bodies[id], cs, solve, own(id), cl)))
  }

  ghost predicate AllJustified(p: Program, cs: Contracts, solve: Query -> SatResult, own: FuncId -> seq<Term>) {
    forall id, cl :: id in cs && cl in cs[id].ensures_ && Usable(cs[id], cl) ==> Justified(p, cs, solve, own, id, cl)
  }

  /** Only calls that meet the callee's own preconditions count. */
  ghost predicate Respected(p: Program, own: FuncId -> seq<Term>) {
    forall id, args :: id in p.bodies && p.admits(id, args) ==> OwnTrue(p.bodies[id], own(id), args)
  }

  /** A justified clause is true of a call if the calls it makes keep their promises. */
  lemma JustifiedHolds(p: Program, cs: Contracts, solve: Query -> SatResult, own: FuncId -> seq<Term>, id: FuncId,
                       cl: Clause,
                       depth: nat, args: seq<RVal>, results: seq<RVal>)
    requires Sound(solve) && Respected(p, own) && Justified(p, cs, solve, own, id, cl)
    requires depth > 0 ==> ContractsTrue(MachineAt(p, depth - 1), cs)
    requires Calls(p, depth, id, args, results)
    ensures ClauseTrue(cl.term, args, results)
  {
    hide Sound, WellFormed, ContractsTrue, Verified, Proposed, ClauseTrue, OwnTrue, Invokes, ErrorsMeant;
    if KeptBy(p, id, cl) {
    } else if Proposed(p.bodies[id], cs, solve, cl) && ErrorsMeantFor(p, cs, solve, id) {
      ProposedIsTrue(p, cs, solve, id, cl, depth, args, results);
    } else {
      VerifiedHolds(p, cs, solve, own, id, cl, depth, args, results);
    }
  }

  lemma VerifiedHolds(p: Program, cs: Contracts, solve: Query -> SatResult, own: FuncId -> seq<Term>, id: FuncId,
                      cl: Clause,
                      depth: nat, args: seq<RVal>, results: seq<RVal>)
    requires Sound(solve) && Respected(p, own) && id in p.bodies && WellFormed(p.bodies[id])
    requires Verified(p.bodies[id], cs, solve, own(id), cl)
    requires depth > 0 ==> ContractsTrue(MachineAt(p, depth - 1), cs)
    requires Calls(p, depth, id, args, results)
    ensures ClauseTrue(cl.term, args, results)
  {
    hide Sound, WellFormed, ContractsTrue, Verified, ClauseTrue, OwnTrue, IsRun, StartsWith, Returned;
    var f, m := p.bodies[id], MachineAt(p, depth - 1);
    var run :| Invokes(m, f, args, run, results);
    RunShape(m, f, KeptGraph(f), run);
    OwnMet(m, f, cs, args, run, results, own(id));
    SilenceMeansTrue(p, cs, solve, own(id), id, cl, depth - 1, args, run, results);
  }

  /**
    Contracts that justify each other are all true of every call, recursion included: by induction on
    how deeply calls nest.
   */
  lemma {:induction false} ContractsHold(p: Program, cs: Contracts, solve: Query -> SatResult,
                                         own: FuncId -> seq<Term>, depth: nat)
    requires Sound(solve) && Respected(p, own) && AllJustified(p, cs, solve, own)
    ensures ContractsTrue(MachineAt(p, depth), cs)
  {
    hide Sound, Respected, Justified, ClauseTrue, Usable;
    if depth > 0 {
      ContractsHold(p, cs, solve, own, depth - 1);
    }
    var m := MachineAt(p, depth);
    forall g, args, results, cl | g in cs && m.calls(g, args, results) && cl in cs[g].ensures_ && Usable(cs[g], cl)
      ensures ClauseTrue(cl.term, args, results)
    {
      JustifiedHolds(p, cs, solve, own, g, cl, depth, args, results);
    }
  }

  lemma JustifiedKept(p: Program, cs: Contracts, solve: Query -> SatResult, own: FuncId -> seq<Term>)
    requires Sound(solve) && Respected(p, own) && AllJustified(p, cs, solve, own)
    ensures PromisesKept(p, cs)
  {
    hide Sound, Respected, AllJustified, ContractsTrue;
    forall depth: nat
      ensures ContractsTrue(MachineAt(p, depth), cs)
    {
      ContractsHold(p, cs, solve, own, depth);
    }
  }

  // ---- proposals can always be answered ----

  lemma NonNilMet(i: nat)
    ensures MetByNonNil(NonNilResult(i))
  {
    forall args: seq<Option<Val>>, sorts: seq<Option<Sort>> | ModelledArgs(args) && ModelledSorts(sorts)
      ensures ClauseMet(NonNilResult(i), args, NonNilResults(sorts))
    {
      ResultNotNil(i, args, sorts);
    }
  }

  lemma ResultNotNil(i: nat, args: seq<Option<Val>>, sorts: seq<Option<Sort>>)
    ensures var x, world := Var(Result(i), PtrSort), Interface(args, NonNilResults(sorts));
            Result(i) in world ==> Holds(Not(IsNil(x)), world)
    ensures FreeVars(Not(IsNil(Var(Result(i), PtrSort)))) == {(Result(i), PtrSort)}
  {
    var world := Interface(args, NonNilResults(sorts));
    NotNilHolds(i, world);
    if Result(i) in world {
      assert NonNilResults(sorts)[i] == Some(world[Result(i)]);
    }
  }

  lemma CorrelationMet(e: nat, i: nat)
    ensures MetByNonNil(Correlation(e, i))
  {
    var a, b := Not(IsNil(Var(Result(e), PtrSort))), Not(IsNil(Var(Result(i), PtrSort)));
    forall args: seq<Option<Val>>, sorts: seq<Option<Sort>> | ModelledArgs(args) && ModelledSorts(sorts)
      ensures ClauseMet(Correlation(e, i), args, NonNilResults(sorts))
    {
      ResultNotNil(e, args, sorts);
      assert a in [a, b];
      assert (Result(e), PtrSort) in FreeVars(Or([a, b]));
    }
  }

  /** A contract of proposals alone is answerable, so queries over its callers speak for all their runs. */
  lemma ProposalsAnswerable(k: Contract)
    requires forall cl :: Stated(k, cl) ==>
      (exists i :: cl == NonNilResult(i)) || exists e, i :: cl == Correlation(e, i)
    ensures Answerable(k)
  {
    hide MetByNonNil;
    forall cl | Stated(k, cl)
      ensures MetByNonNil(cl)
    {
      if i :| cl == NonNilResult(i) {
        NonNilMet(i);
      } else {
        var e, i :| cl == Correlation(e, i);
        CorrelationMet(e, i);
      }
    }
    NonNilAnswers(k);
  }
}
