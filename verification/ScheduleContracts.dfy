/**
  The whole schedule: groups are analyzed callees first, each under the summaries of those before it.
  What an analysis was told of the functions a body calls is final, so the contracts of all functions
  justify each other, and every one of them is kept at every depth.
 */
module ScheduleContracts {
  import opened Wrappers
  import opened Ir
  import opened Terms
  import opened Summaries
  import opened Encoding
  import opened Encoder
  import opened Runs
  import opened ProgramRuns
  import opened Postconditions
  import opened GroupContracts
  import Fixpoint
  import Collecting

  // ---- an encoding depends on the contracts of the functions it calls ----

  ghost predicate CallsTo(f: Function, g: FuncId) {
    exists s: Site :: IsSite(f, s) && OpAt(f, s).Call? && OpAt(f, s).callee == Static(g)
  }

  /** The two say the same of every function the body calls. */
  ghost predicate SameForCallees(f: Function, cs: Contracts, cs': Contracts) {
    forall g :: CallsTo(f, g) ==> ContractOf(cs, g) == ContractOf(cs', g)
  }

  lemma SameCall(f: Function, cs: Contracts, cs': Contracts, s: Site)
    requires SameForCallees(f, cs, cs') && IsSite(f, s)
    ensures CallAsserts(f, cs, s.0, OpAt(f, s)) == CallAsserts(f, cs', s.0, OpAt(f, s))
  {
    hide GatedClauses, ContractOf;
    if OpAt(f, s).Call? && OpAt(f, s).callee.Static? {
      assert CallsTo(f, OpAt(f, s).callee.func);
    }
  }

  lemma {:induction false} SameBlockCalls(f: Function, cs: Contracts, cs': Contracts, b: nat, k: nat)
    requires SameForCallees(f, cs, cs') && b < |f.blocks| && k <= |f.blocks[b].instrs|
    ensures BlockCallAsserts(f, cs, b, f.blocks[b].instrs[..k]) == BlockCallAsserts(f, cs', b, f.blocks[b].instrs[..k])
  {
    hide CallAsserts, SameForCallees;
    if k > 0 {
      var instrs := f.blocks[b].instrs;
      assert instrs[..k][..k - 1] == instrs[..k - 1] && instrs[..k][k - 1] == instrs[k - 1];
      SameBlockCalls(f, cs, cs', b, k - 1);
      SameCall(f, cs, cs', (b, k - 1));
    }
  }

  lemma {:induction false} SameCalls(f: Function, cs: Contracts, cs': Contracts, n: nat)
    requires SameForCallees(f, cs, cs') && n <= |f.blocks|
    ensures AllCallAsserts(f, cs, n) == AllCallAsserts(f, cs', n)
  {
    hide BlockCallAsserts, SameForCallees;
    if n > 0 {
      var instrs := f.blocks[n - 1].instrs;
      assert instrs[..|instrs|] == instrs;
      SameCalls(f, cs, cs', n - 1);
      SameBlockCalls(f, cs, cs', n - 1, |instrs|);
    }
  }

  /** Contracts of functions that are not called play no part in an encoding. */
  lemma SameEncoding(f: Function, cs: Contracts, cs': Contracts)
    requires SameForCallees(f, cs, cs')
    ensures EncodingOf(f, cs) == EncodingOf(f, cs')
  {
    hide AllCallAsserts, SameForCallees, DeclarationAsserts, AllOpAsserts, ForwardAsserts;
    SameCalls(f, cs, cs', |f.blocks|);
  }

  /** Nor in what is proposed. */
  lemma SameProposals(f: Function, cs: Contracts, cs': Contracts, solve: Query -> SatResult, cl: Clause)
    requires SameForCallees(f, cs, cs') && Proposed(f, cs, solve, cl)
    ensures Proposed(f, cs', solve, cl)
  {
    hide EncodingOf, ReturnsOf, ArityFits, SameForCallees, ErrorResult, PointerResult;
    SameEncoding(f, cs, cs');
    forall b: nat, v: ValueId
      ensures RefutedNil(f, cs, solve, b, v) <==> RefutedNil(f, cs', solve, b, v)
    {
    }
    SameVerdicts(f, cs, cs', solve, cl);
  }

  lemma SameVerdicts(f: Function, cs: Contracts, cs': Contracts, solve: Query -> SatResult, cl: Clause)
    requires EncodingOf(f, cs) == EncodingOf(f, cs') && Proposed(f, cs, solve, cl)
    requires forall b: nat, v: ValueId :: RefutedNil(f, cs, solve, b, v) <==> RefutedNil(f, cs', solve, b, v)
    ensures Proposed(f, cs', solve, cl)
  {
    hide EncodingOf, ReturnsOf, ArityFits, ErrorResult, PointerResult, RefutedNil;
    forall i: nat
      ensures NeverNil(f, cs, solve, i) <==> NeverNil(f, cs', solve, i)
    {
    }
    forall e: nat, i: nat
      ensures NilOnlyWithError(f, cs, solve, e, i) <==> NilOnlyWithError(f, cs', solve, e, i)
    {
    }
    var i: nat :| i < |f.results| && ProposedFor(f, cs, solve, i, |f.results|, cl);
    assert ProposedFor(f, cs', solve, i, |f.results|, cl);
  }

  // ---- the summaries so far ----

  /** A finished summary, or for want of one what a human stated. */
  function ReadSlot(slots: Fixpoint.Current, ann: map<FuncId, Fixpoint.Annotations>): Env {
    (f: FuncId) => if f in slots then slots[f] else Fixpoint.HavocWith(Fixpoint.AnnOf(ann, f))
  }

  /** Each function is in one group; what a member calls is in its own group, an earlier one or in none. */
  ghost predicate CalleesFirst(p: Program, groups: seq<seq<FuncId>>) {
    && (forall i, j, m :: 0 <= i < j < |groups| && m in groups[i] ==> m !in groups[j])
    && forall i, j, m, g :: 0 <= i < j < |groups| && m in groups[i] && m in p.bodies && CallsTo(p.bodies[m], g) ==>
         g !in groups[j]
  }

  /** The slots of the first n groups are filled, and each was analyzed as if all of them had been. */
  ghost predicate Explained(p: Program, solve: Query -> SatResult, universe: set<FuncId>,
                            ann: map<FuncId, Fixpoint.Annotations>, groups: seq<seq<FuncId>>, n: nat,
                            slots: Fixpoint.Current)
    requires n <= |groups|
  {
    && (forall m :: m in slots <==> exists i :: 0 <= i < n && m in groups[i])
    && forall m :: m in slots ==> InfersAt(p, solve, universe, ann, m, ReadSlot(slots, ann), slots[m])
  }

  /** An analysis goes by what it is told of the functions the body calls. */
  lemma InfersAlike(p: Program, solve: Query -> SatResult, universe: set<FuncId>,
                    ann: map<FuncId, Fixpoint.Annotations>, m: FuncId, env: Env, env': Env, s: Fixpoint.Summary)
    requires InfersAt(p, solve, universe, ann, m, env, s)
    requires m in p.bodies ==> forall g :: CallsTo(p.bodies[m], g) ==> env(g) == env'(g)
    ensures InfersAt(p, solve, universe, ann, m, env', s)
  {
    hide Proposed, CallsTo, Fixpoint.HavocWith;
    if s != Fixpoint.HavocWith(Fixpoint.AnnOf(ann, m)) {
      var cs, cs' := ContractsOf(universe, env), ContractsOf(universe, env');
      var inferred :|
        && (forall cl :: cl in inferred ==> Proposed(p.bodies[m], cs, solve, cl))
        && s.contract.ensures_ == Fixpoint.WithClauses(inferred, StatedEnsures(ann, m));
      forall cl | cl in inferred
        ensures Proposed(p.bodies[m], cs', solve, cl)
      {
        SameProposals(p.bodies[m], cs, cs', solve, cl);
      }
    }
  }

  /** One more group: its members were analyzed under the final summaries, and the earlier ones still are. */
  lemma OneMoreGroup(p: Program, solve: Query -> SatResult, universe: set<FuncId>,
                     ann: map<FuncId, Fixpoint.Annotations>, groups: seq<seq<FuncId>>, n: nat,
                     slots: Fixpoint.Current, analyze: Fixpoint.Analyzer, current: Fixpoint.Current)
    requires CalleesFirst(p, groups) && n < |groups| && Explained(p, solve, universe, ann, groups, n, slots)
    requires Infers(p, solve, universe, ann, groups[n], analyze) && forall m :: m in current <==> m in groups[n]
    requires Fixpoint.Settled(groups[n], current, ReadSlot(slots, ann), analyze)
        || Fixpoint.GivenUp(groups[n], current, ann)
    ensures Explained(p, solve, universe, ann, groups, n + 1, slots + current)
  {
    hide InfersAt, Infers, Fixpoint.Settled, Fixpoint.GivenUp, CallsTo, Fixpoint.HavocWith;
    var outside, env := ReadSlot(slots, ann), ReadSlot(slots + current, ann);
    forall m | m in slots + current
      ensures InfersAt(p, solve, universe, ann, m, env, (slots + current)[m])
    {
      if m in current {
        LastAnalysis(p, solve, universe, groups[n], outside, analyze, ann, current, m);
        InfersAlike(p, solve, universe, ann, m, Fixpoint.Latest(current, outside), env, current[m]);
      } else {
        EarlierUntouched(p, groups, n, m, slots, current, ann);
        InfersAlike(p, solve, universe, ann, m, outside, env, slots[m]);
      }
    }
  }

  /** A finished function calls nothing in a later group. */
  lemma EarlierUntouched(p: Program, groups: seq<seq<FuncId>>, n: nat, m: FuncId, slots: Fixpoint.Current,
                         current: Fixpoint.Current, ann: map<FuncId, Fixpoint.Annotations>)
    requires CalleesFirst(p, groups) && n < |groups| && exists i :: 0 <= i < n && m in groups[i]
    requires forall x :: x in current <==> x in groups[n]
    ensures m in p.bodies ==> forall g :: CallsTo(p.bodies[m], g) ==>
        ReadSlot(slots, ann)(g) == ReadSlot(slots + current, ann)(g)
  {
    hide CallsTo, Fixpoint.HavocWith;
    var i :| 0 <= i < n && m in groups[i];
  }

  // ---- the theorem ----

  /** Of every function: errors are meant where correlations are proposed, and what is stated is justified. */
  ghost predicate ProgramGrounds(p: Program, solve: Query -> SatResult, own: FuncId -> seq<Term>,
                                 universe: set<FuncId>, ann: map<FuncId, Fixpoint.Annotations>, cs: Contracts) {
    forall m :: m in universe ==> OwnGrounds(p, solve, own, ann, cs, m)
  }

  /** When all groups are done, every contract there is holds of every call, however deep. */
  lemma AllKept(p: Program, solve: Query -> SatResult, own: FuncId -> seq<Term>, universe: set<FuncId>,
                ann: map<FuncId, Fixpoint.Annotations>, groups: seq<seq<FuncId>>, slots: Fixpoint.Current)
    requires Sound(solve) && Respected(p, own) && forall m :: m in p.bodies ==> WellFormed(p.bodies[m])
    requires Explained(p, solve, universe, ann, groups, |groups|, slots)
    requires ProgramGrounds(p, solve, own, universe, ann, ContractsOf(universe, ReadSlot(slots, ann)))
    ensures PromisesKept(p, ContractsOf(universe, ReadSlot(slots, ann)))
    ensures forall id, cl :: var k := ReadSlot(slots, ann)(id).contract;
              id in universe && cl in k.ensures_ && Usable(k, cl) ==> KeptBy(p, id, cl)
  {
    hide Sound, Respected, WellFormed, InfersAt, OwnGrounds, KeptBy, PromisesKept, Fixpoint.HavocWith;
    var env := ReadSlot(slots, ann);
    var cs := ContractsOf(universe, env);
    forall id, cl | id in cs && cl in cs[id].ensures_ && Usable(cs[id], cl)
      ensures Justified(p, cs, solve, own, id, cl)
    {
      if id !in slots {
        NothingInferred(p, solve, universe, ann, id, env);
      }
      ClauseJustified(p, solve, own, universe, ann, id, env, env(id), cl);
    }
    JustifiedKept(p, cs, solve, own);
    forall id, cl | id in universe && cl in env(id).contract.ensures_ && Usable(env(id).contract, cl)
      ensures KeptBy(p, id, cl)
    {
      KeptForCallers(p, cs, id, cl);
    }
  }

  lemma NothingInferred(p: Program, solve: Query -> SatResult, universe: set<FuncId>,
                        ann: map<FuncId, Fixpoint.Annotations>, m: FuncId, env: Env)
    ensures InfersAt(p, solve, universe, ann, m, env, Fixpoint.HavocWith(Fixpoint.AnnOf(ann, m)))
  {
  }

  /**
    Analyzes the groups of a program, callees first. Every contract it ends up with is kept by the
    function it is about, in every call, however deeply nested.
   */
  method AnalyzeSchedule(ghost p: Program, ghost solve: Query -> SatResult, ghost own: FuncId -> seq<Term>,
                         ghost universe: set<FuncId>, groups: seq<seq<FuncId>>, recursive: seq<bool>,
                         analyze: Fixpoint.Analyzer, widenAfter: nat, ann: map<FuncId, Fixpoint.Annotations>,
                         ghost w: Collecting.World)
      returns (slots: Fixpoint.Current)
    requires Sound(solve) && Respected(p, own) && forall m :: m in p.bodies ==> WellFormed(p.bodies[m])
    requires CalleesFirst(p, groups) && |recursive| == |groups|
    requires forall i :: 0 <= i < |groups| ==> Infers(p, solve, universe, ann, groups[i], analyze)
    requires forall i :: 0 <= i < |groups| ==>
        recursive[i] || (|groups[i]| == 1 && IgnoresItself(analyze, groups[i][0]))
    ensures forall m :: m in slots <==> exists i :: 0 <= i < |groups| && m in groups[i]
    ensures forall m :: m !in slots ==> Fixpoint.SafeFor(ReadSlot(slots, ann)(m), Fixpoint.AnnOf(ann, m))
    ensures ProgramGrounds(p, solve, own, universe, ann, ContractsOf(universe, ReadSlot(slots, ann))) ==>
              forall id, cl :: var k := ReadSlot(slots, ann)(id).contract;
                id in universe && cl in k.ensures_ && Usable(k, cl) ==> KeptBy(p, id, cl)
  {
    hide Sound, Respected, WellFormed, Infers, IgnoresItself, KeptBy, ProgramGrounds, CalleesFirst, InfersAt,
      Fixpoint.SafeFor;
    slots := map[];
    for i := 0 to |groups|
      invariant Explained(p, solve, universe, ann, groups, i, slots)
    {
      var current := SettleGroup(groups[i], ReadSlot(slots, ann), analyze, recursive[i], widenAfter, ann, w);
      OneMoreGroup(p, solve, universe, ann, groups, i, slots, analyze, current);
      slots := slots + current;
    }
    forall m | m !in slots
      ensures Fixpoint.SafeFor(ReadSlot(slots, ann)(m), Fixpoint.AnnOf(ann, m))
    {
      Fixpoint.GivenUpIsSafe(Fixpoint.AnnOf(ann, m));
    }
    if ProgramGrounds(p, solve, own, universe, ann, ContractsOf(universe, ReadSlot(slots, ann))) {
      AllKept(p, solve, own, universe, ann, groups, slots);
    }
  }
}
