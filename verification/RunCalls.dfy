/** Gated callee postconditions hold under the assignment, given that they are true of the callees. */
module RunCalls {
  import opened Wrappers
  import opened Graphs
  import opened CutDag
  import opened Terms
  import opened Ir
  import opened Summaries
  import opened Encoding
  import opened GuardTerms
  import opened Runs
  import opened RunFacts
  import opened RunModel
  import opened RunSettled
  import opened RunValues
  import opened RunAgrees
  import opened RunGuards
  import opened RunDefs
  import opened Answers
  import opened RunAnswers

  /** The call may come after the end of the run: not executed, but in a visited block or beyond the last one. */
  ghost predicate Ahead(c: Setting, s: Site)
    requires Ready(c)
  {
    !Executed(c.run, s) && (s.0 in c.run.path || Beyond(c, s.0))
  }

  /** Every call that control may still get to has an answerable contract. */
  ghost predicate NothingOwed(c: Setting)
    requires Ready(c)
  {
    forall s: Site :: IsSite(c.f, s) && OpAt(c.f, s).Call? && OpAt(c.f, s).callee.Static? && Ahead(c, s) ==>
      Answerable(ContractOf(c.cs, OpAt(c.f, s).callee.func))
  }

  /**
    When the encoding speaks for the run: the run is complete, or all contracts that the function
    relies on are answerable, which can be told from the contracts.
   */
  ghost predicate Covered(c: Setting)
    requires Ready(c)
  {
    CallsAnswerable(c.f, c.cs) || Finished(c)
  }

  ghost predicate Finished(c: Setting)
    requires Ready(c)
  {
    && |c.run.path| == |c.run.states| > 0 && LastBlock(c.run) < |c.f.blocks| && |c.run.states[|c.run.states| - 1]| > 0
    && Complete(c.f, c.dag, c.run)
  }

  lemma CoveredOwesNothing(c: Setting)
    requires Ready(c) && Covered(c)
    ensures NothingOwed(c)
  {
    hide Complete, Answerable, Ready, Ahead;
    forall s: Site | IsSite(c.f, s) && OpAt(c.f, s).Call? && OpAt(c.f, s).callee.Static? && Ahead(c, s)
      ensures Answerable(ContractOf(c.cs, OpAt(c.f, s).callee.func))
    {
      if Finished(c) {
        CompleteHasNothingAhead(c, s);
      } else {
        assert OpAt(c.f, s).callee == Static(OpAt(c.f, s).callee.func);
      }
    }
  }

  /** Nothing is ahead of a complete run. */
  lemma CompleteHasNothingAhead(c: Setting, s: Site)
    requires Ready(c) && IsSite(c.f, s)
    requires |c.run.path| == |c.run.states| > 0 && LastBlock(c.run) < |c.f.blocks|
        && |c.run.states[|c.run.states| - 1]| > 0
    requires Complete(c.f, c.dag, c.run)
    ensures !Ahead(c, s)
  {
    if s.0 in c.run.path {
      var k :| 0 <= k < |c.run.path| && c.run.path[k] == s.0;
      if k + 1 < |c.run.path| {
        assert HandsOver(c.f, c.run, k);
      }
      assert s.1 + 1 < |c.run.states[k]|;
    }
  }

  // ---- what the terms at a call stand for ----

  lemma ArgTermsHave(c: Setting, k: nat, s: Site, args: seq<ValueId>)
    requires Ready(c) && Ran(c, k, s) && OpAt(c.f, s).Call? && OpAt(c.f, s).args == args
    ensures forall a :: a in args ==> a in c.run.states[k][s.1].regs
    ensures TermsHave(TermsOf(c.f, args), ValsIn(ArgValues(c.run.states[k][s.1].regs, args)), FullModel(c))
    ensures forall i :: 0 <= i < |args| && TermOf(c.f, args[i]).Some? ==>
              HasSort(Eval(TermOf(c.f, args[i]).value, FullModel(c)), SortOf(TermOf(c.f, args[i]).value))
  {
    hide Items, Walk, ModelAfter, Executes, HandsOver, Initial, ContractsTrue, WellFormed, CutsBackEdges,
      ListsReachable, Forward;
    forall a | a in args
      ensures a in c.run.states[k][s.1].regs
    {
      assert a in OpReads(OpAt(c.f, s));
    }
    forall i | 0 <= i < |args| && TermOf(c.f, args[i]).Some?
      ensures ValsIn(ArgValues(c.run.states[k][s.1].regs, args))[i]
          == Some(Eval(TermOf(c.f, args[i]).value, FullModel(c)))
      ensures HasSort(Eval(TermOf(c.f, args[i]).value, FullModel(c)), SortOf(TermOf(c.f, args[i]).value))
    {
      assert args[i] in OpValues(OpAt(c.f, s));
      OperandValue(c, k, s, args[i]);
    }
  }

  /** A component of a tuple the run knows has the type of the register it is extracted to. */
  lemma ComponentTyped(c: Setting, s: Site, d: ValueId, i: nat)
    requires Ready(c) && IsSite(c.f, s) && OpAt(c.f, s).Extract? && OpAt(c.f, s).tuple == d
        && OpAt(c.f, s).component == i
    requires d in Final(c)
    ensures Final(c)[d].Tuple? && i < |Final(c)[d].parts|
    ensures HasType(Final(c)[d].parts[i], TypeOf(c.f, OpAt(c.f, s).dst))
  {
    hide IsRun, ContractsTrue, StrictSsa, CutsBackEdges, ListsReachable, Forward, Walk;
    FinalTyped(c, d);
  }

  /** An extracted component is assigned the component of the tuple, whether or not the Extract ran. */
  lemma ComponentAssigned(c: Setting, s: Site, d: ValueId, i: nat)
    requires Ready(c) && IsSite(c.f, s) && OpAt(c.f, s).Extract? && OpAt(c.f, s).tuple == d
        && OpAt(c.f, s).component == i
    requires TermOf(c.f, OpAt(c.f, s).dst).Some? && d in Final(c)
    ensures Final(c)[d].Tuple? && i < |Final(c)[d].parts|
    ensures Final(c)[d].parts[i] == Plain(Eval(TermOf(c.f, OpAt(c.f, s).dst).value, FullModel(c)))
    ensures HasSort(Eval(TermOf(c.f, OpAt(c.f, s).dst).value, FullModel(c)),
        SortOf(TermOf(c.f, OpAt(c.f, s).dst).value))
  {
    hide Items, Walk, ModelAfter, IsRun, ContractsTrue, PeerValue, RhsOf, Eval, CutsBackEdges, Forward,
      ListsReachable, WellFormed;
    var v := OpAt(c.f, s).dst;
    ComponentTyped(c, s, d, i);
    if v in Final(c) {
      ComponentRead(c, s, d, i);
    } else {
      var p := PositionOf(c, s.0);
      DefinedValue(c, p, s.1, v);
      TermValue(c, v);
    }
  }

  lemma ComponentRead(c: Setting, s: Site, d: ValueId, i: nat)
    requires Ready(c) && IsSite(c.f, s) && OpAt(c.f, s).Extract? && OpAt(c.f, s).tuple == d
        && OpAt(c.f, s).component == i
    requires TermOf(c.f, OpAt(c.f, s).dst).Some? && d in Final(c) && OpAt(c.f, s).dst in Final(c)
    requires Final(c)[d].Tuple? && i < |Final(c)[d].parts|
    ensures Final(c)[d].parts[i] == Plain(Eval(TermOf(c.f, OpAt(c.f, s).dst).value, FullModel(c)))
  {
    hide Items, Walk, ModelAfter, IsRun, ContractsTrue, PeerValue, RhsOf, Eval, WellFormed, CutsBackEdges, Forward,
      ListsReachable;
    var v := OpAt(c.f, s).dst;
    assert DefinesAt(c.f, s, v);
    FinalIffExecuted(c, s, v);
    var k := SiteRan(c, s);
    RanProduces(c, k, s, v);
    ResultValue(c, s, v);
  }

  /** The results of an executed call are what the encoding's result terms evaluate to. */
  lemma ResultTermHas(c: Setting, k: nat, s: Site, d: ValueId, results: seq<RVal>, i: nat)
    requires Ready(c) && Ran(c, k, s) && OpAt(c.f, s).Call? && OpAt(c.f, s).result == Some(d)
    requires d in Final(c) && Packs(TypeOf(c.f, d), results, Final(c)[d]) && ResultTerm(c.f, Some(d), i).Some?
    ensures i < |results| && results[i] == Plain(Eval(ResultTerm(c.f, Some(d), i).value, FullModel(c)))
    ensures HasSort(Eval(ResultTerm(c.f, Some(d), i).value, FullModel(c)), SortOf(ResultTerm(c.f, Some(d), i).value))
  {
    hide Items, Walk, ModelAfter, Exec, ContractsTrue, StrictSsa, CutsBackEdges;
    if TermOf(c.f, d).Some? {
      ResultValue(c, s, d);
    } else {
      var e := ExtractOfIs(c.f, d, i, |c.f.blocks|);
      ComponentAssigned(c, e, d, i);
    }
  }

  /** Absent results change nothing about the interface. */
  function Padded(vs: seq<Option<Val>>, n: nat): (r: seq<Option<Val>>)
    ensures |r| >= n && |r| >= |vs| && (forall i :: 0 <= i < |vs| ==> r[i] == vs[i]) && forall i ::
        |vs| <= i < |r| ==> r[i] == None
  {
    vs + seq(n, _ => None)
  }

  lemma PaddedInterface(args: seq<Option<Val>>, vs: seq<Option<Val>>, n: nat)
    ensures Interface(args, Padded(vs, n)) == Interface(args, vs)
  {
  }

  /** A clause true of the values at an executed call is true where the encoding binds it. */
  lemma BoundClauseHolds(c: Setting, t: Term, args: seq<Option<Term>>, results: seq<Option<Term>>, argVals: seq<RVal>,
                         resultVals: seq<RVal>)
    requires Ready(c) && Bind(t, args, results).Some?
    requires TermsHave(args, ValsIn(argVals), FullModel(c))
    requires TermsHave(results, Padded(ValsIn(resultVals), |results|), FullModel(c))
    requires forall i :: 0 <= i < |args| && args[i].Some? ==>
        HasSort(Eval(args[i].value, FullModel(c)), SortOf(args[i].value))
    requires forall i :: 0 <= i < |results| && results[i].Some? ==>
        HasSort(Eval(results[i].value, FullModel(c)), SortOf(results[i].value))
    requires ClauseTrue(t, argVals, resultVals)
    ensures Holds(Bind(t, args, results).value, FullModel(c))
  {
    hide Items, Walk, ModelAfter, IsRun, ContractsTrue, WellFormed, CutsBackEdges, ListsReachable, Forward;
    var padded := Padded(ValsIn(resultVals), |results|);
    PaddedInterface(ValsIn(argVals), ValsIn(resultVals), |results|);
    BoundMet(Clause("", t, Inferred), args, results, ValsIn(argVals), padded, FullModel(c));
  }

  lemma CallResults(c: Setting, k: nat, s: Site, g: FuncId) returns (results: seq<RVal>)
    requires Ready(c) && Ran(c, k, s) && OpAt(c.f, s).Call? && OpAt(c.f, s).callee == Static(g)
    ensures forall a :: a in OpAt(c.f, s).args ==> a in c.run.states[k][s.1].regs
    ensures c.m.calls(g, ArgValues(c.run.states[k][s.1].regs, OpAt(c.f, s).args), results)
    ensures OpAt(c.f, s).result.Some? ==>
              var d := OpAt(c.f, s).result.value; d in Final(c) && Packs(TypeOf(c.f, d), results, Final(c)[d])
  {
    hide Items, Walk, ModelAfter, Executes, HandsOver, Initial, ContractsTrue, WellFormed, CutsBackEdges,
      ListsReachable, Forward;
    var op, st := OpAt(c.f, s), c.run.states[k][s.1];
    ArgTermsHave(c, k, s, op.args);
    if op.result.Some? {
      RanProduces(c, k, s, op.result.value);
      results :| c.m.calls(g, ArgValues(st.regs, op.args), results)
        && Packs(TypeOf(c.f, op.result.value), results, Final(c)[op.result.value]);
    } else {
      results :| c.m.calls(g, ArgValues(st.regs, op.args), results);
    }
  }

  lemma ResultTermsHave(c: Setting, k: nat, s: Site, results: seq<RVal>)
    requires Ready(c) && Ran(c, k, s) && OpAt(c.f, s).Call?
    requires OpAt(c.f, s).result.Some? ==>
               var d := OpAt(c.f, s).result.value; d in Final(c) && Packs(TypeOf(c.f, d), results, Final(c)[d])
    ensures var ts := ResultTerms(c.f, OpAt(c.f, s).result);
            && TermsHave(ts, Padded(ValsIn(results), |ts|), FullModel(c))
            && forall i :: 0 <= i < |ts| && ts[i].Some? ==>
              HasSort(Eval(ts[i].value, FullModel(c)), SortOf(ts[i].value))
  {
    hide WellFormed, Executes, HandsOver, Initial, CutsBackEdges, Forward, ListsReachable, ContractsTrue, Packs, Left;
    var ts := ResultTerms(c.f, OpAt(c.f, s).result);
    forall i | 0 <= i < |ts| && ts[i].Some?
      ensures Padded(ValsIn(results), |ts|)[i] == Some(Eval(ts[i].value, FullModel(c)))
      ensures HasSort(Eval(ts[i].value, FullModel(c)), SortOf(ts[i].value))
    {
      ResultTermHas(c, k, s, OpAt(c.f, s).result.value, results, i);
    }
  }

  lemma {:induction false} GatedIs(f: Function, b: nat, k: Contract, cls: seq<Clause>, args: seq<ValueId>,
                                   dst: Option<ValueId>, t: Term) returns (cl: Clause)
    requires t in GatedClauses(f, b, k, cls, args, dst)
    ensures cl in cls && Usable(k, cl) && t in GatedClause(f, b, cl, args, dst)
  {
    var last := cls[|cls| - 1];
    if t in GatedClauses(f, b, k, cls[..|cls| - 1], args, dst) {
      cl := GatedIs(f, b, k, cls[..|cls| - 1], args, dst, t);
    } else {
      cl := last;
    }
  }

  /** One call's gated clauses hold. */
  lemma CallHolds(c: Setting, s: Site, t: Term)
    requires Ready(c) && NothingOwed(c) && IsSite(c.f, s) && t in CallAsserts(c.f, c.cs, s.0, OpAt(c.f, s))
    ensures Holds(t, FullModel(c))
  {
    hide IsRun, ContractsTrue, WellFormed, CutsBackEdges, ListsReachable, Forward, Walk, Items, ModelAfter, Bind,
      TermsOf, ResultTerms, Answerable;
    var op := OpAt(c.f, s);
    var g := op.callee.func;
    var cl := GatedIs(c.f, s.0, ContractOf(c.cs, g), ContractOf(c.cs, g).ensures_, op.args, op.result, t);
    var bound := Bind(cl.term, TermsOf(c.f, op.args), ResultTerms(c.f, op.result)).value;
    assert t == Or([Not(GuardTerm(s.0)), bound]);
    PairMeaning(Not(GuardTerm(s.0)), bound, FullModel(c));
    if GuardOn(c, s.0) {
      var i := PositionOf(c, s.0);
      OnVisited(c, i);
      RunShape(c.m, c.f, c.dag, c.run);
      if Executed(c.run, s) {
        ExecutedCallHolds(c, s, g, cl);
      } else {
        assert Ahead(c, s);
        BindSort(cl.term, TermsOf(c.f, op.args), ResultTerms(c.f, op.result));
        SkippedCallHolds(c, s, cl);
      }
    }
  }

  lemma ExecutedCallHolds(c: Setting, s: Site, g: FuncId, cl: Clause)
    requires Ready(c) && Executed(c.run, s) && IsSite(c.f, s) && OpAt(c.f, s).Call? && OpAt(c.f, s).callee == Static(g)
    requires cl in ContractOf(c.cs, g).ensures_ && Usable(ContractOf(c.cs, g), cl)
    requires Bind(cl.term, TermsOf(c.f, OpAt(c.f, s).args), ResultTerms(c.f, OpAt(c.f, s).result)).Some?
    ensures Holds(Bind(cl.term, TermsOf(c.f, OpAt(c.f, s).args), ResultTerms(c.f, OpAt(c.f, s).result)).value,
        FullModel(c))
  {
    hide WellFormed, Executes, HandsOver, Initial, Bind, ResultTerms, CutsBackEdges, Forward, ListsReachable, Left;
    var op := OpAt(c.f, s);
    var k := SiteRan(c, s);
    var results := CallResults(c, k, s, g);
    var args := ArgValues(c.run.states[k][s.1].regs, op.args);
    ArgTermsHave(c, k, s, op.args);
    ResultTermsHave(c, k, s, results);
    assert ClauseTrue(cl.term, args, results);
    BoundClauseHolds(c, cl.term, TermsOf(c.f, op.args), ResultTerms(c.f, op.result), args, results);
  }

  lemma {:induction false} BlockCallIs(f: Function, cs: Contracts, b: nat, instrs: seq<Op>, t: Term) returns (i: nat)
    requires t in BlockCallAsserts(f, cs, b, instrs)
    ensures i < |instrs| && t in CallAsserts(f, cs, b, instrs[i])
  {
    if t in BlockCallAsserts(f, cs, b, instrs[..|instrs| - 1]) {
      i := BlockCallIs(f, cs, b, instrs[..|instrs| - 1], t);
    } else {
      i := |instrs| - 1;
    }
  }

  lemma {:induction false} CallAssertIs(f: Function, cs: Contracts, n: nat, t: Term) returns (s: Site)
    requires n <= |f.blocks| && t in AllCallAsserts(f, cs, n)
    ensures IsSite(f, s) && t in CallAsserts(f, cs, s.0, OpAt(f, s))
  {
    hide CallAsserts;
    if t in AllCallAsserts(f, cs, n - 1) {
      s := CallAssertIs(f, cs, n - 1, t);
    } else {
      var i := BlockCallIs(f, cs, n - 1, f.blocks[n - 1].instrs, t);
      s := (n - 1, i);
    }
  }

  /** The emitted postconditions hold. */
  lemma CallsHold(c: Setting, t: Term)
    requires Ready(c) && NothingOwed(c) && t in AllCallAsserts(c.f, c.cs, |c.f.blocks|)
    ensures Holds(t, FullModel(c))
  {
    hide AllCallAsserts, CallAsserts, IsRun, ContractsTrue, WellFormed, CutsBackEdges, Eval;
    var s := CallAssertIs(c.f, c.cs, |c.f.blocks|, t);
    CallHolds(c, s, t);
  }
}
