/** Calls the run did not get to are assigned results their contracts allow, so their postconditions hold too. */
module RunAnswers {
  import opened Wrappers
  import opened Graphs
  import opened CutDag
  import opened Terms
  import opened Ir
  import opened Summaries
  import opened Encoding
  import opened Runs
  import opened RunFacts
  import opened Answers
  import opened RunModel
  import opened RunSettled
  import opened RunAgrees
  import opened RunDefs

  /** A static call that the run did not get to. */
  ghost predicate Skipped(c: Setting, s: Site)
    requires Ready(c)
  {
    IsSite(c.f, s) && OpAt(c.f, s).Call? && OpAt(c.f, s).callee.Static? && !Executed(c.run, s)
  }

  ghost function SkippedArgs(c: Setting, s: Site): seq<Option<Val>>
    requires Ready(c) && Skipped(c, s)
  {
    ArgsUnder(c.f, OpAt(c.f, s).args, FullModel(c))
  }

  ghost function SkippedAnswer(c: Setting, s: Site): seq<Option<Val>>
    requires Ready(c) && Skipped(c, s)
  {
    Answer(ContractOf(c.cs, OpAt(c.f, s).callee.func), SkippedArgs(c, s), ResultSorts(c.f, OpAt(c.f, s).result))
  }

  // ---- arguments ----

  lemma SortModelled(c: Setting, v: ValueId)
    requires WellTyped(c.f) && SortOfValue(c.f, v).Some?
    ensures Modelled(SortOfValue(c.f, v).value)
  {
  }

  lemma ArgsModelled(c: Setting, s: Site)
    requires Ready(c) && Skipped(c, s)
    ensures ModelledArgs(SkippedArgs(c, s))
  {
    hide Items, Walk, ModelAfter, IsRun, ContractsTrue, StrictSsa, CutsBackEdges, WellShaped, Modelled;
    FullProper(c);
    var args := OpAt(c.f, s).args;
    forall i | 0 <= i < |args| && TermOf(c.f, args[i]).Some?
      ensures exists sort :: Modelled(sort) && HasSort(SkippedArgs(c, s)[i].value, sort)
    {
      var v := args[i];
      assert v in OpValues(OpAt(c.f, s));
      Mentioned(c.f, s, v);
      TermValue(c, v);
      SortModelled(c, v);
      assert HasSort(SkippedArgs(c, s)[i].value, SortOfValue(c.f, v).value);
    }
  }

  lemma ExtractResultIs(f: Function, d: ValueId, i: nat)
    requires ResultTerm(f, Some(d), i).Some?
    ensures exists v :: ResultTerm(f, Some(d), i) == TermOf(f, v)
  {
  }

  lemma SortsModelled(c: Setting, dst: Option<ValueId>)
    requires WellTyped(c.f)
    ensures ModelledSorts(ResultSorts(c.f, dst))
  {
    hide Modelled;
    forall i | 0 <= i < MAX_CALL_RESULT_INDEX + 1 && ResultTerm(c.f, dst, i).Some?
      ensures Modelled(SortOf(ResultTerm(c.f, dst, i).value))
    {
      ExtractResultIs(c.f, dst.value, i);
      var v :| ResultTerm(c.f, dst, i) == TermOf(c.f, v);
      SortModelled(c, v);
    }
  }

  /** The arguments are settled when the call's block is reached at or after the call. */
  lemma ArgsSettledHere(c: Setting, s: Site, i: nat, j: nat)
    requires Ready(c) && Skipped(c, s) && i < |c.order| && c.order[i] == s.0
    requires s.1 <= j < |c.f.blocks[c.order[i]].instrs|
    ensures ArgsUnder(c.f, OpAt(c.f, s).args, ModelAt(c, i, j)) == SkippedArgs(c, s)
  {
    hide Items, Walk, ModelAfter, IsRun, ContractsTrue, WellFormed, CutsBackEdges, Eval;
    var args := OpAt(c.f, s).args;
    forall n | 0 <= n < |args| && TermOf(c.f, args[n]).Some?
      ensures Eval(TermOf(c.f, args[n]).value, ModelAt(c, i, j)) == Eval(TermOf(c.f, args[n]).value, FullModel(c))
    {
      assert args[n] in OpReads(OpAt(c.f, s));
      OperandSettled(c, i, s.1, args[n]);
      TermProper(c.f, args[n]);
      SettledAt(c, i, j, TermOf(c.f, args[n]).value);
    }
  }

  lemma ArgsSettledLater(c: Setting, s: Site, i': nat, i: nat, j: nat)
    requires Ready(c) && Skipped(c, s) && i' < i < |c.order| && c.order[i'] == s.0
    requires j < |c.f.blocks[c.order[i]].instrs|
    ensures ArgsUnder(c.f, OpAt(c.f, s).args, ModelAt(c, i, j)) == SkippedArgs(c, s)
  {
    hide Items, Walk, ModelAfter, IsRun, ContractsTrue, WellFormed, CutsBackEdges, Eval;
    var args := OpAt(c.f, s).args;
    forall n | 0 <= n < |args| && TermOf(c.f, args[n]).Some?
      ensures Eval(TermOf(c.f, args[n]).value, ModelAt(c, i, j)) == Eval(TermOf(c.f, args[n]).value, FullModel(c))
    {
      assert args[n] in OpReads(OpAt(c.f, s));
      EarlierOperandSettled(c, s, args[n], i', i, j + 1);
      TermProper(c.f, args[n]);
      SettledAt(c, i, j, TermOf(c.f, args[n]).value);
    }
  }

  /** Wherever a skipped call's result is read, the arguments have their final values. */
  lemma ArgsSettledAt(c: Setting, s: Site, e: Site, i: nat)
    requires Ready(c) && Skipped(c, s) && IsSite(c.f, e) && Precedes(c.f, s, e) && i < |c.order| && c.order[i] == e.0
    ensures ArgsUnder(c.f, OpAt(c.f, s).args, ModelAt(c, i, e.1)) == SkippedArgs(c, s)
  {
    hide Items, Walk, ModelAfter, IsRun, ContractsTrue, WellFormed, CutsBackEdges;
    if s.0 == e.0 {
      ArgsSettledHere(c, s, i, e.1);
    } else {
      var i' := DominatorEarlier(c, s.0, e.0, i);
      ArgsSettledLater(c, s, i', i, e.1);
    }
  }

  // ---- results ----

  lemma CallShadow(c: Setting, s: Site, sort: Sort, prev: Model, dst: Option<ValueId>, g: FuncId, args: seq<ValueId>)
    requires IsRun(c.m, c.f, c.dag, c.run) && OrderInRange(c.f, c.order)
    requires IsSite(c.f, s) && OpAt(c.f, s) == Call(dst, Static(g), args)
    ensures ShadowValue(c, s, sort, prev) == AnswerAt(c, s, 0, sort, prev)
  {
    hide IsRun, OrderInRange, PeerValue, ComponentValue, AnswerAt, RhsOf, LeaderOf, Eval;
  }

  lemma CallAnswer(c: Setting, s: Site, sort: Sort, prev: Model)
    requires IsSite(c.f, s) && OpAt(c.f, s).Call? && OpAt(c.f, s).callee.Static?
    ensures AnswerAt(c, s, 0, sort, prev)
         == AnswerOr(Answer(ContractOf(c.cs, OpAt(c.f, s).callee.func), ArgsUnder(c.f, OpAt(c.f, s).args, prev),
                            ResultSorts(c.f, OpAt(c.f, s).result)), 0, sort)
  {
    hide Answer, ArgsUnder, ResultSorts, AnswerOr, ContractOf;
  }

  /** The destination of a skipped call. */
  lemma SkippedResult(c: Setting, s: Site, d: ValueId)
    requires Ready(c) && Skipped(c, s) && OpAt(c.f, s).result == Some(d) && TermOf(c.f, d).Some?
    ensures d !in Final(c)
    ensures Eval(TermOf(c.f, d).value, FullModel(c))
         == AnswerOr(SkippedAnswer(c, s), 0, SortOfValue(c.f, d).value)
  {
    hide Items, Walk, ModelAfter, IsRun, ContractsTrue, RhsOf, WellFormed, CutsBackEdges, ListsReachable, Forward,
      Answer, ArgsUnder, ResultSorts, PeerValue, AnswerOr, AnswerAt, ComponentValue, LeaderOf, ShadowValue;
    assert DefinesAt(c.f, s, d);
    FinalIffExecuted(c, s, d);
    var i := PositionOf(c, s.0);
    DefinedValue(c, i, s.1, d);
    var op := OpAt(c.f, s);
    CallShadow(c, s, SortOfValue(c.f, d).value, ModelAt(c, i, s.1), op.result, op.callee.func, op.args);
    CallAnswer(c, s, SortOfValue(c.f, d).value, ModelAt(c, i, s.1));
    TermValue(c, d);
    ArgsSettledHere(c, s, i, s.1);
  }

  /** A component extracted from a skipped call. */
  lemma SkippedComponent(c: Setting, s: Site, d: ValueId, e: Site)
    requires Ready(c) && Skipped(c, s) && OpAt(c.f, s).result == Some(d)
    requires IsSite(c.f, e) && OpAt(c.f, e).Extract? && OpAt(c.f, e).tuple == d && TermOf(c.f, OpAt(c.f, e).dst).Some?
    ensures Eval(TermOf(c.f, OpAt(c.f, e).dst).value, FullModel(c))
         == AnswerOr(SkippedAnswer(c, s), OpAt(c.f, e).component, SortOfValue(c.f, OpAt(c.f, e).dst).value)
  {
    hide Items, Walk, ModelAfter, Executes, HandsOver, Initial, ContractsTrue, RhsOf, Answer;
    var v := OpAt(c.f, e).dst;
    assert DefinesAt(c.f, s, d) && DefinesAt(c.f, e, v);
    ExtractSkipped(c, s, d, e);
    assert d in OpReads(OpAt(c.f, e));
    assert Precedes(c.f, s, e);
    var i := PositionOf(c, e.0);
    DefinedValue(c, i, e.1, v);
    TermValue(c, v);
    ArgsSettledAt(c, s, e, i);
    ComponentIs(c, s, d, e, ModelAt(c, i, e.1));
  }

  lemma ExtractSkipped(c: Setting, s: Site, d: ValueId, e: Site)
    requires Ready(c) && Skipped(c, s) && OpAt(c.f, s).result == Some(d)
    requires IsSite(c.f, e) && OpAt(c.f, e).Extract? && OpAt(c.f, e).tuple == d
    ensures d !in Final(c) && OpAt(c.f, e).dst !in Final(c)
  {
    hide Items, Walk, ModelAfter, Executes, HandsOver, Initial, ContractsTrue, RhsOf;
    var v := OpAt(c.f, e).dst;
    assert DefinesAt(c.f, s, d) && DefinesAt(c.f, e, v);
    FinalIffExecuted(c, s, d);
    FinalIffExecuted(c, e, v);
    assert d in OpReads(OpAt(c.f, e));
    if v in Final(c) {
      var k := SiteRan(c, e);
      RanProduces(c, k, e, v);
    }
  }

  lemma ComponentIs(c: Setting, s: Site, d: ValueId, e: Site, prev: Model)
    requires Ready(c) && Skipped(c, s) && OpAt(c.f, s).result == Some(d) && d !in Final(c)
    requires IsSite(c.f, e) && OpAt(c.f, e).Extract? && OpAt(c.f, e).tuple == d
    requires ArgsUnder(c.f, OpAt(c.f, s).args, prev) == SkippedArgs(c, s)
    ensures forall sort ::
              ComponentValue(c, d, OpAt(c.f, e).component, sort, prev)
              == AnswerOr(SkippedAnswer(c, s), OpAt(c.f, e).component, sort)
  {
    hide Items, Walk, ModelAfter, IsRun, ContractsTrue, Answer;
    assert DefinesAt(c.f, s, d);
    forall s': Site | DefinesAt(c.f, s', d)
      ensures s' == s
    {
      OneDefinition(c.f, s', s, d);
    }
  }

  lemma AnswerFits(a: seq<Option<Val>>, sorts: seq<Option<Sort>>, i: nat)
    requires FitSorts(a, sorts) && i < |sorts| && sorts[i].Some?
    ensures a[i] == Some(AnswerOr(a, i, sorts[i].value)) && HasSort(a[i].value, sorts[i].value)
  {
  }

  lemma {:induction false} ExtractInIs(f: Function, b: nat, n: nat, d: ValueId, i: nat) returns (s: Site)
    requires b < |f.blocks| && n <= |f.blocks[b].instrs| && ExtractIn(f, f.blocks[b].instrs[..n], d, i).Some?
    ensures IsSite(f, s) && OpAt(f, s) == Extract(ExtractIn(f, f.blocks[b].instrs[..n], d, i).value, d, i)
    ensures TermOf(f, OpAt(f, s).dst).Some?
  {
    var instrs := f.blocks[b].instrs;
    assert instrs[..n][..n - 1] == instrs[..n - 1];
    if ExtractIn(f, instrs[..n - 1], d, i).Some? {
      s := ExtractInIs(f, b, n - 1, d, i);
    } else {
      s := (b, n - 1);
    }
  }

  lemma {:induction false} ExtractOfIs(f: Function, d: ValueId, i: nat, n: nat) returns (s: Site)
    requires n <= |f.blocks| && ExtractOf(f, d, i, n).Some?
    ensures IsSite(f, s) && OpAt(f, s) == Extract(ExtractOf(f, d, i, n).value, d, i)
    ensures TermOf(f, OpAt(f, s).dst).Some?
  {
    if ExtractOf(f, d, i, n - 1).Some? {
      s := ExtractOfIs(f, d, i, n - 1);
    } else {
      assert f.blocks[n - 1].instrs[..|f.blocks[n - 1].instrs|] == f.blocks[n - 1].instrs;
      s := ExtractInIs(f, n - 1, |f.blocks[n - 1].instrs|, d, i);
    }
  }

  /** Each result term of a skipped call has the answer's value. */
  lemma SkippedTermHas(c: Setting, s: Site, i: nat)
    requires Ready(c) && Skipped(c, s) && ResultTerm(c.f, OpAt(c.f, s).result, i).Some?
    ensures var t := ResultTerm(c.f, OpAt(c.f, s).result, i).value;
            Eval(t, FullModel(c)) == AnswerOr(SkippedAnswer(c, s), i, SortOf(t))
  {
    hide Items, Walk, ModelAfter, IsRun, ContractsTrue, WellFormed, CutsBackEdges, Answer, Eval;
    var d := OpAt(c.f, s).result.value;
    if TermOf(c.f, d).Some? {
      SkippedResult(c, s, d);
    } else {
      var e := ExtractOfIs(c.f, d, i, |c.f.blocks|);
      SkippedComponent(c, s, d, e);
    }
  }

  /** The results of a skipped call whose contract has an answer are that answer. */
  lemma SkippedTermsHave(c: Setting, s: Site)
    requires Ready(c) && Skipped(c, s) && Answerable(ContractOf(c.cs, OpAt(c.f, s).callee.func))
    ensures var k := ContractOf(c.cs, OpAt(c.f, s).callee.func);
            Answered(k, SkippedArgs(c, s), ResultSorts(c.f, OpAt(c.f, s).result), SkippedAnswer(c, s))
    ensures var ts := ResultTerms(c.f, OpAt(c.f, s).result);
            && TermsHave(ts, SkippedAnswer(c, s), FullModel(c))
            && forall i :: 0 <= i < |ts| && ts[i].Some? ==>
              HasSort(Eval(ts[i].value, FullModel(c)), SortOf(ts[i].value))
  {
    hide Items, Walk, ModelAfter, IsRun, ContractsTrue, WellFormed, CutsBackEdges, Eval, ModelledArgs, ModelledSorts,
      ClauseMet, Answer;
    ArgsModelled(c, s);
    TypedParts(c.f);
    SortsModelled(c, OpAt(c.f, s).result);
    var ts, sorts := ResultTerms(c.f, OpAt(c.f, s).result), ResultSorts(c.f, OpAt(c.f, s).result);
    forall i | 0 <= i < |ts| && ts[i].Some?
      ensures SkippedAnswer(c, s)[i] == Some(Eval(ts[i].value, FullModel(c)))
          && HasSort(Eval(ts[i].value, FullModel(c)), SortOf(ts[i].value))
    {
      SkippedTermHas(c, s, i);
      AnswerFits(SkippedAnswer(c, s), sorts, i);
    }
  }

  lemma TypedParts(f: Function)
    requires WellFormed(f)
    ensures WellTyped(f)
  {
  }

  // ---- bound clauses ----

  /** A clause true of some values is true where it is bound to terms that have those values. */
  lemma BoundMet(cl: Clause, args: seq<Option<Term>>, results: seq<Option<Term>>, argVals: seq<Option<Val>>,
                 resultVals: seq<Option<Val>>, m: Model)
    requires Bind(cl.term, args, results).Some? && TermsHave(args, argVals, m) && TermsHave(results, resultVals, m)
    requires forall i :: 0 <= i < |args| && args[i].Some? ==> HasSort(Eval(args[i].value, m), SortOf(args[i].value))
    requires forall i :: 0 <= i < |results| && results[i].Some? ==>
        HasSort(Eval(results[i].value, m), SortOf(results[i].value))
    requires ClauseMet(cl, argVals, resultVals)
    ensures Holds(Bind(cl.term, args, results).value, m)
  {
    var t, inner := cl.term, Interface(argVals, resultVals);
    var s := Bindings(t, args, results);
    forall v | v in FreeVars(t)
      ensures v.0 in inner && HasSort(inner[v.0], v.1)
    {
      assert v.0 in s && s[v.0] == BindingOf(v.0, args, results).value;
      SubstituteSorts(t, s, v);
      match v.0
      case Param(i) => assert Param(i) in inner;
      case Result(i) => assert Result(i) in inner;
      case _ =>
    }
    BindEval(t, args, results, argVals, resultVals, m);
  }

  /** What a skipped call's contract promises holds of the assignment. */
  lemma SkippedCallHolds(c: Setting, s: Site, cl: Clause)
    requires Ready(c) && Skipped(c, s)
    requires var k := ContractOf(c.cs, OpAt(c.f, s).callee.func); Answerable(k) && Stated(k, cl)
    requires Bind(cl.term, TermsOf(c.f, OpAt(c.f, s).args), ResultTerms(c.f, OpAt(c.f, s).result)).Some?
    ensures Holds(Bind(cl.term, TermsOf(c.f, OpAt(c.f, s).args), ResultTerms(c.f, OpAt(c.f, s).result)).value,
        FullModel(c))
  {
    hide Items, Walk, ModelAfter, IsRun, ContractsTrue, WellFormed, CutsBackEdges, Eval, Answerable, Answer;
    var op := OpAt(c.f, s);
    SkippedTermsHave(c, s);
    SkippedArgsSorted(c, s);
    BoundMet(cl, TermsOf(c.f, op.args), ResultTerms(c.f, op.result), SkippedArgs(c, s), SkippedAnswer(c, s),
      FullModel(c));
  }

  lemma SkippedArgsSorted(c: Setting, s: Site)
    requires Ready(c) && Skipped(c, s)
    ensures forall i :: 0 <= i < |OpAt(c.f, s).args| && TermOf(c.f, OpAt(c.f, s).args[i]).Some? ==>
              HasSort(Eval(TermOf(c.f, OpAt(c.f, s).args[i]).value, FullModel(c)),
                SortOf(TermOf(c.f, OpAt(c.f, s).args[i]).value))
  {
    hide Items, Walk, ModelAfter, IsRun, ContractsTrue, WellFormed, CutsBackEdges;
    FullProper(c);
    var args := OpAt(c.f, s).args;
    forall i | 0 <= i < |args| && TermOf(c.f, args[i]).Some?
      ensures HasSort(Eval(TermOf(c.f, args[i]).value, FullModel(c)), SortOf(TermOf(c.f, args[i]).value))
    {
      assert args[i] in OpValues(OpAt(c.f, s));
      Mentioned(c.f, s, args[i]);
      TermValue(c, args[i]);
    }
  }
}
