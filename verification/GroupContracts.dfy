/**
  The contracts an analyzed group ends up with are kept: those of a settled group prove each other,
  those of a group that was given up are what humans stated.
 */
module GroupContracts {
  import opened Wrappers
  import opened Ir
  import opened Terms
  import opened Summaries
  import opened Encoder
  import opened Runs
  import opened ProgramRuns
  import opened Postconditions
  import Fixpoint
  import Collecting

  type Env = Fixpoint.SummaryEnv

  /** What callers read off the summaries of the functions there are. */
  function ContractsOf(universe: set<FuncId>, env: Env): Contracts {
    map id | id in universe :: env(id).contract
  }

  function StatedEnsures(ann: map<FuncId, Fixpoint.Annotations>, m: FuncId): seq<Clause> {
    if m in ann then ann[m].ensures_ else []
  }

  /**
    One analysis: the postconditions are proposals for the body under the contracts of the moment,
    merged with the stated ones; without a body, or if the analysis failed, only the stated ones are left.
   */
  ghost predicate InfersAt(p: Program, solve: Query -> SatResult, universe: set<FuncId>,
                           ann: map<FuncId, Fixpoint.Annotations>,
                           m: FuncId, env: Env, s: Fixpoint.Summary) {
    || s == Fixpoint.HavocWith(Fixpoint.AnnOf(ann, m))
    || (m in p.bodies && exists inferred ::
          && (forall cl :: cl in inferred ==> Proposed(p.bodies[m], ContractsOf(universe, env), solve, cl))
          && s.contract.ensures_ == Fixpoint.WithClauses(inferred, StatedEnsures(ann, m)))
  }

  ghost predicate Infers(p: Program, solve: Query -> SatResult, universe: set<FuncId>,
                         ann: map<FuncId, Fixpoint.Annotations>, members: seq<FuncId>,
                         analyze: Fixpoint.Analyzer) {
    forall m: FuncId, env: Env :: m in members ==> InfersAt(p, solve, universe, ann, m, env, analyze(m, env))
  }

  /** The bodies of members are well formed. */
  ghost predicate Bodies(p: Program, members: seq<FuncId>) {
    forall m :: m in members && m in p.bodies ==> WellFormed(p.bodies[m])
  }

  /** Errors are meant if a correlation is proposed for the function, and what is stated of it is justified. */
  ghost predicate OwnGrounds(p: Program, solve: Query -> SatResult, own: FuncId -> seq<Term>,
                             ann: map<FuncId, Fixpoint.Annotations>, cs: Contracts, m: FuncId) {
    && ErrorsMeantFor(p, cs, solve, m)
    && forall cl :: cl in StatedEnsures(ann, m) ==> Justified(p, cs, solve, own, m, cl)
  }

  /**
    What the kernel takes from elsewhere: the contracts of other functions are kept, errors are meant
    where correlations are proposed, and a stated clause is justified under the final contracts.
   */
  ghost predicate Grounds(p: Program, solve: Query -> SatResult, own: FuncId -> seq<Term>, universe: set<FuncId>,
                          members: seq<FuncId>,
                          outside: Env, ann: map<FuncId, Fixpoint.Annotations>, cs: Contracts) {
    && (forall id, cl ::
          && id in universe && id !in members
          && cl in outside(id).contract.ensures_ && Usable(outside(id).contract, cl) ==>
          KeptBy(p, id, cl))
    && forall m :: m in members ==> OwnGrounds(p, solve, own, ann, cs, m)
  }

  lemma HavocEnsures(ann: map<FuncId, Fixpoint.Annotations>, m: FuncId, cl: Clause)
    requires cl in Fixpoint.HavocWith(Fixpoint.AnnOf(ann, m)).contract.ensures_
    ensures cl in StatedEnsures(ann, m)
  {
    Fixpoint.WithClausesExact([], StatedEnsures(ann, m));
  }

  /** Every clause that an analysis came up with is justified under the contracts it was made under. */
  lemma ClauseJustified(p: Program, solve: Query -> SatResult, own: FuncId -> seq<Term>, universe: set<FuncId>,
                        ann: map<FuncId, Fixpoint.Annotations>, m: FuncId, env: Env, s: Fixpoint.Summary, cl: Clause)
    requires InfersAt(p, solve, universe, ann, m, env, s) && (m in p.bodies ==> WellFormed(p.bodies[m]))
    requires OwnGrounds(p, solve, own, ann, ContractsOf(universe, env), m) && cl in s.contract.ensures_
    ensures Justified(p, ContractsOf(universe, env), solve, own, m, cl)
  {
    hide WellFormed, Proposed, KeptBy, Verified, ErrorsMeantFor, Fixpoint.HavocWith;
    var cs := ContractsOf(universe, env);
    if s == Fixpoint.HavocWith(Fixpoint.AnnOf(ann, m)) {
      HavocEnsures(ann, m, cl);
    } else {
      var inferred :|
        && (forall c :: c in inferred ==> Proposed(p.bodies[m], cs, solve, c))
        && s.contract.ensures_ == Fixpoint.WithClauses(inferred, StatedEnsures(ann, m));
      Fixpoint.WithClausesExact(inferred, StatedEnsures(ann, m));
    }
  }

  /** A member of a settled or given-up group was analyzed, last of all, under the group's own contracts. */
  lemma LastAnalysis(p: Program, solve: Query -> SatResult, universe: set<FuncId>, members: seq<FuncId>,
                     outside: Env, analyze: Fixpoint.Analyzer, ann: map<FuncId, Fixpoint.Annotations>,
                     current: Fixpoint.Current, m: FuncId)
    requires Infers(p, solve, universe, ann, members, analyze) && m in members && m in current
    requires Fixpoint.Settled(members, current, outside, analyze) || Fixpoint.GivenUp(members, current, ann)
    ensures InfersAt(p, solve, universe, ann, m, Fixpoint.Latest(current, outside), current[m])
  {
    hide Proposed, Fixpoint.HavocWith;
    if !Fixpoint.GivenUp(members, current, ann) {
      assert current[m] == analyze(m, Fixpoint.Latest(current, outside));
    }
  }

  /** The final contracts of a settled or given-up group, with those of all other functions, are kept at every depth. */
  lemma GroupKept(p: Program, solve: Query -> SatResult, own: FuncId -> seq<Term>, universe: set<FuncId>,
                  members: seq<FuncId>,
                  outside: Env, analyze: Fixpoint.Analyzer, ann: map<FuncId, Fixpoint.Annotations>,
                    current: Fixpoint.Current)
    requires Sound(solve) && Respected(p, own) && Bodies(p, members)
    requires Infers(p, solve, universe, ann, members, analyze)
    requires forall c :: c in current <==> c in members
    requires Fixpoint.Settled(members, current, outside, analyze) || Fixpoint.GivenUp(members, current, ann)
    requires Grounds(p, solve, own, universe, members, outside, ann,
        ContractsOf(universe, Fixpoint.Latest(current, outside)))
    ensures PromisesKept(p, ContractsOf(universe, Fixpoint.Latest(current, outside)))
  {
    hide Sound, Respected, Infers, Fixpoint.Settled, Fixpoint.GivenUp, KeptBy, PromisesKept, InfersAt, OwnGrounds,
      WellFormed;
    var cs := ContractsOf(universe, Fixpoint.Latest(current, outside));
    forall id, cl | id in cs && cl in cs[id].ensures_ && Usable(cs[id], cl)
      ensures Justified(p, cs, solve, own, id, cl)
    {
      if id in current {
        LastAnalysis(p, solve, universe, members, outside, analyze, ann, current, id);
        ClauseJustified(p, solve, own, universe, ann, id, Fixpoint.Latest(current, outside), current[id], cl);
      } else {
        assert KeptBy(p, id, cl);
      }
    }
    JustifiedKept(p, cs, solve, own);
  }

  /** What a kept contract says holds of every call, which is what the next group is told. */
  lemma KeptForCallers(p: Program, cs: Contracts, id: FuncId, cl: Clause)
    requires PromisesKept(p, cs) && id in cs && cl in cs[id].ensures_ && Usable(cs[id], cl)
    ensures KeptBy(p, id, cl)
  {
    hide ClauseTrue;
    forall depth: nat, args: seq<RVal>, results: seq<RVal> | Calls(p, depth, id, args, results)
      ensures ClauseTrue(cl.term, args, results)
    {
      assert ContractsTrue(MachineAt(p, depth), cs);
      assert MachineAt(p, depth).calls(id, args, results);
    }
  }

  /** A function without recursion does not read its own summary. */
  ghost predicate IgnoresItself(analyze: Fixpoint.Analyzer, m: FuncId) {
    forall env: Env, env': Env :: (forall c: FuncId :: c != m ==> env(c) == env'(c)) ==>
      analyze(m, env) == analyze(m, env')
  }

  /** Analyzing a group, recursive or not, ends settled or given up. */
  method SettleGroup(members: seq<FuncId>, outside: Env, analyze: Fixpoint.Analyzer, recursive: bool, widenAfter: nat,
                     ann: map<FuncId, Fixpoint.Annotations>, ghost w: Collecting.World)
      returns (current: Fixpoint.Current)
    requires recursive || (|members| == 1 && IgnoresItself(analyze, members[0]))
    ensures forall c :: c in current <==> c in members
    ensures Fixpoint.Settled(members, current, outside, analyze) || Fixpoint.GivenUp(members, current, ann)
  {
    var passes, widened;
    current, passes, widened := Fixpoint.AnalyzeGroup(members, outside, analyze, recursive, widenAfter, ann, w);
    if !recursive {
      Fixpoint.OneRoundSettles(members[0], outside, analyze);
      assert members == [members[0]];
    }
  }

  /** Analyzing a group, recursive or not, ends with contracts that are kept. */
  method AnalyzeKept(ghost p: Program, ghost solve: Query -> SatResult, ghost own: FuncId -> seq<Term>,
                     ghost universe: set<FuncId>,
                     members: seq<FuncId>, outside: Env, analyze: Fixpoint.Analyzer, recursive: bool, widenAfter: nat,
                     ann: map<FuncId, Fixpoint.Annotations>, ghost w: Collecting.World)
      returns (current: Fixpoint.Current)
    requires Sound(solve) && Respected(p, own) && Bodies(p, members)
    requires Infers(p, solve, universe, ann, members, analyze)
    requires recursive || (|members| == 1 && IgnoresItself(analyze, members[0]))
    ensures forall c :: c in current <==> c in members
    ensures Grounds(p, solve, own, universe, members, outside, ann,
        ContractsOf(universe, Fixpoint.Latest(current, outside))) ==>
              PromisesKept(p, ContractsOf(universe, Fixpoint.Latest(current, outside)))
  {
    hide Sound, Respected, Bodies, Infers, Grounds, PromisesKept;
    current := SettleGroup(members, outside, analyze, recursive, widenAfter, ann, w);
    if Grounds(p, solve, own, universe, members, outside, ann,
      ContractsOf(universe, Fixpoint.Latest(current, outside))) {
      GroupKept(p, solve, own, universe, members, outside, analyze, ann, current);
    }
  }
}
