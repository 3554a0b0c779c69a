/**
  The encoding covers every run: each run over kept edges extends to an assignment of all declared
  constants under which everything the encoder asserts is true. A query the solver refutes
  therefore describes no run.
 */
module RunTheorem {
  import opened Wrappers
  import opened MachineInts
  import opened Graphs
  import opened CutDag
  import opened Terms
  import opened Ir
  import opened Summaries
  import opened Encoding
  import opened Runs
  import opened RunFacts
  import opened RunModel
  import opened RunSettled
  import opened RunValues
  import opened RunAgrees
  import opened RunGuards
  import opened RunDefs
  import opened RunLoads
  import opened RunCalls

  // ---- declarations ----

  lemma {:induction false} DeclarationIs(f: Function, vs: seq<ValueId>, t: Term) returns (v: ValueId)
    requires t in DeclarationAsserts(f, vs)
    ensures v in vs && t in DeclareAsserts(f, v)
  {
    if t in DeclarationAsserts(f, vs[..|vs| - 1]) {
      v := DeclarationIs(f, vs[..|vs| - 1], t);
    } else {
      v := vs[|vs| - 1];
    }
  }

  lemma ConstAgrees(c: ConstVal, ty: Ty, m: Model)
    requires SortOfTy(ty).Some? && SortOfTy(ty) != Some(SeqSort)
    requires ConstTerm(c, ty).Some? && SortOf(ConstTerm(c, ty).value) == SortOfTy(ty).value
    ensures ConstMeaning(c, ty) == Some(Eval(ConstTerm(c, ty).value, m))
  {
  }

  lemma DeclarationsHold(c: Setting, t: Term)
    requires Ready(c) && t in DeclarationAsserts(c.f, Mentions(c.f))
    ensures Holds(t, FullModel(c))
  {
    hide Items, Walk, ModelAfter, IsRun, ContractsTrue, CutsBackEdges, Forward, ListsReachable;
    var v := DeclarationIs(c.f, Mentions(c.f), t);
    assert SortOfValue(c.f, v) != Some(SeqSort);
    var k := ValueOf(c.f, v).kind.c;
    forall d: Site
      ensures !DefinesAt(c.f, d, v)
    {
    }
    ExternalFinal(c, v);
    TermValue(c, v);
    ConstAgrees(k, TypeOf(c.f, v), FullModel(c));
    if v in Final(c) {
      FinalConst(c, v);
    }
  }

  // ---- the theorem ----

  function Encoded(c: Setting): seq<Term>
    requires OrderInRange(c.f, c.order)
  {
    Encode(c.f, c.cs, c.dag, c.reachable, c.order)
  }

  /**
    For every run of a well-formed function, with the callees' postconditions true of the callees,
    and answerable unless the run is complete: all constants are declared at their sorts and every
    emitted guard, defining, load and postcondition assertion holds.
   */
  lemma RunSatisfiesEncoding(c: Setting)
    requires Ready(c) && Covered(c)
    ensures Models(FullModel(c), Query(Declared(c.f), Encoded(c)))
  {
    hide IsRun, ContractsTrue, WellFormed, CutsBackEdges, ListsReachable, Forward, Covered, NothingOwed, Walk, Items,
      ModelAfter;
    CoveredOwesNothing(c);
    FullProper(c);
    forall t | t in Encoded(c)
      ensures Holds(t, FullModel(c))
    {
      if t in DeclarationAsserts(c.f, Mentions(c.f)) {
        DeclarationsHold(c, t);
      } else if t in GuardAsserts(c.f, c.dag, c.reachable, |c.f.blocks|) {
        GuardsHold(c, t);
      } else if t in AllOpAsserts(c.f, c.dag, |c.f.blocks|) {
        DefsHold(c, t);
      } else if t in ForwardAsserts(c.f, Walk(c.f, c.order)) {
        LoadsHold(c, t);
      } else {
        CallsHold(c, t);
      }
    }
  }

  /** Under that assignment the guards of a complete run are true exactly on the blocks it visited. */
  lemma GuardsMarkTheRun(c: Setting, b: nat)
    requires ValidSetting(c) && InRange(c.f, c.order) && OrderInRange(c.f, c.order) && b < |c.f.blocks|
    requires |c.run.path| == |c.run.states| > 0 && LastBlock(c.run) < |c.f.blocks|
        && |c.run.states[|c.run.states| - 1]| > 0
    requires Complete(c.f, c.dag, c.run)
    ensures Holds(GuardTerm(b), FullModel(c)) <==> b in c.run.path
  {
    hide IsRun, ContractsTrue, WellFormed, CutsBackEdges, ListsReachable, Forward, Walk, Items, ModelAfter;
    if b in c.run.path {
      var k :| 0 <= k < |c.run.path| && c.run.path[k] == b;
      VisitedOn(c, k);
    }
    if GuardOn(c, b) {
      var i := PositionOf(c, b);
      OnVisited(c, i);
    }
  }

  /** The registers the run ended with, under the names of the encoding. */
  ghost function RegisterModel(f: Function, regs: Regs): Model {
    map x | x in DeclaredNames(f) && ValueNamed(f, x).Some? && ValueNamed(f, x).value in regs
            && SortOfValue(f, ValueNamed(f, x).value).Some? && regs[ValueNamed(f, x).value].Plain?
            && x == NameOf(f, ValueNamed(f, x).value) && ValueNamed(f, x).value in Mentions(f)
      :: regs[ValueNamed(f, x).value].v
  }

  /** A term over registers the run knows has the same value in the run and under the assignment. */
  lemma TermOfRun(c: Setting, t: Term)
    requires Ready(c) && forall x :: x in FreeVars(t) ==> x.0 in RegisterModel(c.f, Final(c))
    ensures Eval(t, RegisterModel(c.f, Final(c))) == Eval(t, FullModel(c))
  {
    hide IsRun, ContractsTrue, WellFormed, CutsBackEdges, ListsReachable, Forward, Walk, Items, ModelAfter;
    forall x | x in FreeVars(t)
      ensures x.0 in FullModel(c) && FullModel(c)[x.0] == RegisterModel(c.f, Final(c))[x.0]
    {
      RunValue(c, ValueNamed(c.f, x.0).value);
    }
    EvalAgrees(t, RegisterModel(c.f, Final(c)), FullModel(c));
  }

  /** A run at the block with registers that make the extra conjuncts true satisfies the query. */
  lemma RunSatisfiesQuery(c: Setting, b: nat, extra: seq<Term>)
    requires Ready(c) && Covered(c)
    requires b in c.run.path
    requires forall t, x :: t in extra && x in FreeVars(t) ==> x.0 in RegisterModel(c.f, Final(c))
    requires forall t :: t in extra ==> Holds(t, RegisterModel(c.f, Final(c)))
    ensures Models(FullModel(c), ReachQuery(c.f, Encoded(c), b, extra))
  {
    hide Items, Walk, ModelAfter, IsRun, ContractsTrue, WellFormed, CutsBackEdges, ListsReachable, Forward, Encoded,
      Covered, RegisterModel, Declared;
    RunSatisfiesEncoding(c);
    var k :| 0 <= k < |c.run.path| && c.run.path[k] == b;
    VisitedOn(c, k);
    forall t | t in extra
      ensures Holds(t, FullModel(c))
    {
      TermOfRun(c, t);
    }
  }

  /**
    Refuting a reachability query is conclusive: no run gets to the block with registers that make
    all the extra conjuncts true.
   */
  lemma UnsatRulesOutRuns(c: Setting, b: nat, extra: seq<Term>)
    requires Ready(c) && Covered(c)
    requires b in c.run.path
    requires forall t, x :: t in extra && x in FreeVars(t) ==> x.0 in RegisterModel(c.f, Final(c))
    requires !Satisfiable(ReachQuery(c.f, Encoded(c), b, extra))
    ensures exists t :: t in extra && !Holds(t, RegisterModel(c.f, Final(c)))
  {
    hide IsRun, ContractsTrue, WellFormed, CutsBackEdges, Models, Satisfiable;
    if forall t :: t in extra ==> Holds(t, RegisterModel(c.f, Final(c))) {
      RunSatisfiesQuery(c, b, extra);
      RefutedHasNoModel(FullModel(c), ReachQuery(c.f, Encoded(c), b, extra));
    }
  }

  lemma RefutedHasNoModel(m: Model, q: Query)
    requires !Satisfiable(q)
    ensures !Models(m, q)
  {
  }
}
