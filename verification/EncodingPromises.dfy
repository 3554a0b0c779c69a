/**
  Calls under an assignment that satisfies an encoding: where the calling block is on, whatever the
  callee promises is true of the values of the arguments and results.
 */
module EncodingPromises {
  import opened Wrappers
  import opened Terms
  import opened Ir
  import opened Summaries
  import opened Encoding
  import opened GuardTerms
  import opened GuardPaths
  import opened CutDag
  import opened Runs
  import opened AnswersNeeded
  import opened EncodingMeaning

  // ---- which register stands for a result ----

  predicate Earlier(s: Site, s': Site) {
    s.0 < s'.0 || (s.0 == s'.0 && s.1 < s'.1)
  }

  /** Component i of the tuple is extracted there, into a modelled register. */
  predicate ExtractsAt(f: Function, s: Site, d: ValueId, i: nat) {
    IsSite(f, s) && OpAt(f, s).Extract? && OpAt(f, s).tuple == d && OpAt(f, s).component == i
    && SortOfValue(f, OpAt(f, s).dst).Some?
  }

  ghost predicate FirstExtract(f: Function, s: Site, d: ValueId, i: nat) {
    ExtractsAt(f, s, d, i) && forall s': Site :: ExtractsAt(f, s', d, i) ==> !Earlier(s', s)
  }

  /** A modelled destination is the one result; of a tuple it is what first extracts the component. */
  ghost predicate IsResult(f: Function, dst: Option<ValueId>, i: nat, v: ValueId) {
    && dst.Some?
    && if SortOfValue(f, dst.value).Some? then v == dst.value && i == 0
       else i <= MAX_CALL_RESULT_INDEX && exists s: Site :: FirstExtract(f, s, dst.value, i) && OpAt(f, s).dst == v
  }

  lemma {:induction false} ExtractInFirst(f: Function, instrs: seq<Op>, d: ValueId, i: nat) returns (k: nat)
    requires i <= MAX_CALL_RESULT_INDEX
    ensures ExtractIn(f, instrs, d, i).Some? ==>
              && k < |instrs| && instrs[k] == Extract(ExtractIn(f, instrs, d, i).value, d, i)
              && TermOf(f, ExtractIn(f, instrs, d, i).value).Some?
    ensures forall j :: 0 <= j < (if ExtractIn(f, instrs, d, i).Some? then k else |instrs|) ==>
              (instrs[j].Extract? && instrs[j].tuple == d && instrs[j].component == i ==>
                TermOf(f, instrs[j].dst).None?)
  {
    hide TermOf;
    k := 0;
    if instrs != [] {
      var n := |instrs| - 1;
      k := ExtractInFirst(f, instrs[..n], d, i);
      if ExtractIn(f, instrs[..n], d, i).None? {
        k := n;
      }
    }
  }

  /** Among the first n blocks. */
  lemma {:induction false} ExtractOfFirst(f: Function, d: ValueId, i: nat, n: nat) returns (s: Site)
    requires i <= MAX_CALL_RESULT_INDEX && n <= |f.blocks|
    ensures ExtractOf(f, d, i, n).Some? ==>
              && ExtractsAt(f, s, d, i) && s.0 < n && OpAt(f, s).dst == ExtractOf(f, d, i, n).value
              && forall s': Site :: ExtractsAt(f, s', d, i) ==> !Earlier(s', s)
    ensures ExtractOf(f, d, i, n).None? ==> forall s': Site :: ExtractsAt(f, s', d, i) ==> s'.0 >= n
  {
    hide ExtractIn;
    s := (0, 0);
    if n > 0 {
      s := ExtractOfFirst(f, d, i, n - 1);
      if ExtractOf(f, d, i, n - 1).None? {
        var instrs := f.blocks[n - 1].instrs;
        var k := ExtractInFirst(f, instrs, d, i);
        s := (n - 1, k);
        forall s': Site | ExtractsAt(f, s', d, i)
          ensures ExtractIn(f, instrs, d, i).Some? ==> !Earlier(s', s)
          ensures ExtractIn(f, instrs, d, i).None? ==> s'.0 >= n
        {
          if s'.0 == n - 1 {
            assert OpAt(f, s') == instrs[s'.1];
          }
        }
      }
    }
  }

  lemma FirstUnique(f: Function, s: Site, s': Site, d: ValueId, i: nat)
    requires FirstExtract(f, s, d, i) && FirstExtract(f, s', d, i)
    ensures s == s'
  {
  }

  /** The term bound to result i is that of the register that stands for it. */
  lemma ResultTermExact(f: Function, dst: Option<ValueId>, i: nat, v: ValueId)
    requires i <= MAX_CALL_RESULT_INDEX
    ensures IsResult(f, dst, i, v) ==> TermOf(f, v).Some? && ResultTerm(f, dst, i) == TermOf(f, v)
    ensures ResultTerm(f, dst, i).Some? ==> exists v' :: IsResult(f, dst, i, v')
  {
    hide ExtractOf;
    if dst.Some? && SortOfValue(f, dst.value).None? {
      var d := dst.value;
      var s := ExtractOfFirst(f, d, i, |f.blocks|);
      if ExtractOf(f, d, i, |f.blocks|).Some? {
        assert FirstExtract(f, s, d, i);
        assert IsResult(f, dst, i, OpAt(f, s).dst);
        if IsResult(f, dst, i, v) {
          var s': Site :| FirstExtract(f, s', d, i) && OpAt(f, s').dst == v;
          FirstUnique(f, s, s', d, i);
        }
      } else {
        assert forall s': Site :: !ExtractsAt(f, s', d, i);
      }
    } else if dst.Some? && i == 0 {
      assert IsResult(f, dst, i, dst.value);
    }
  }

  // ---- promises ----

  /** The values of a call's arguments, as far as they are modelled. */
  ghost function ArgsIn(f: Function, m: Model, args: seq<ValueId>): seq<Option<Val>> {
    seq(|args|, i requires 0 <= i < |args| => ValueIn(f, m, args[i]))
  }

  ghost function ResultIn(f: Function, m: Model, dst: Option<ValueId>, i: nat): Option<Val> {
    if v :| IsResult(f, dst, i, v) then ValueIn(f, m, v) else None
  }

  ghost function ResultsIn(f: Function, m: Model, dst: Option<ValueId>): seq<Option<Val>> {
    seq(MAX_CALL_RESULT_INDEX + 1, i requires 0 <= i <= MAX_CALL_RESULT_INDEX => ResultIn(f, m, dst, i))
  }

  /** Every variable of the clause has a value of its sort at the call. */
  ghost predicate Heard(f: Function, m: Model, s: Site, cl: Clause)
    requires IsSite(f, s) && OpAt(f, s).Call?
  {
    Evaluable(cl.term, Interface(ArgsIn(f, m, OpAt(f, s).args), ResultsIn(f, m, OpAt(f, s).result)))
  }

  lemma OneSort(v: Val, a: Sort, b: Sort)
    requires HasSort(v, a) && HasSort(v, b)
    ensures a == b
  {
  }

  /** The terms of arguments and results have the values they should. */
  lemma ArgTermsIn(e: Source, m: Model, s: Site)
    requires Encodable(e) && Satisfies(m, e) && IsSite(e.f, s) && OpAt(e.f, s).Call?
    ensures TermsHave(TermsOf(e.f, OpAt(e.f, s).args), ArgsIn(e.f, m, OpAt(e.f, s).args), m)
    ensures forall i :: 0 <= i < |OpAt(e.f, s).args| ==>
              (ArgsIn(e.f, m, OpAt(e.f, s).args)[i].Some? <==> TermsOf(e.f, OpAt(e.f, s).args)[i].Some?)
  {
    hide Encodable, Satisfies, Eval, OpDst, TermOf;
    var args := OpAt(e.f, s).args;
    forall i | 0 <= i < |args|
      ensures ArgsIn(e.f, m, args)[i].Some? <==> TermOf(e.f, args[i]).Some?
      ensures TermOf(e.f, args[i]).Some? ==> ArgsIn(e.f, m, args)[i] == Some(Eval(TermOf(e.f, args[i]).value, m))
    {
      RegisterTerm(e, m, s, args[i]);
    }
  }

  lemma RegisterTerm(e: Source, m: Model, s: Site, v: ValueId)
    requires Encodable(e) && Satisfies(m, e) && IsSite(e.f, s) && v in OpValues(OpAt(e.f, s))
    ensures ValueIn(e.f, m, v).Some? <==> TermOf(e.f, v).Some?
    ensures TermOf(e.f, v).Some? ==>
              && ValueIn(e.f, m, v) == Some(Eval(TermOf(e.f, v).value, m))
              && HasSort(ValueIn(e.f, m, v).value, SortOf(TermOf(e.f, v).value))
  {
    hide Encodable, Satisfies, Eval, OpDst;
    SourceInRange(e);
    if SortOfValue(e.f, v).Some? {
      OperandIn(e, m, s, v);
      ValueEval(e.f, m, v);
    }
  }

  lemma ResultRegisterTerm(e: Source, m: Model, s: Site, i: nat)
    requires Encodable(e) && Satisfies(m, e) && IsSite(e.f, s) && OpAt(e.f, s).Call? && i <= MAX_CALL_RESULT_INDEX
    ensures var t := ResultTerm(e.f, OpAt(e.f, s).result, i);
            && (ResultIn(e.f, m, OpAt(e.f, s).result, i).Some? <==> t.Some?)
            && (t.Some? ==>
                  && ResultIn(e.f, m, OpAt(e.f, s).result, i) == Some(Eval(t.value, m))
                  && HasSort(Eval(t.value, m), SortOf(t.value)))
  {
    hide Encodable, Satisfies, Eval, TermOf, ResultTerm;
    var dst := OpAt(e.f, s).result;
    if v :| IsResult(e.f, dst, i, v) {
      ResultTermExact(e.f, dst, i, v);
      if SortOfValue(e.f, dst.value).Some? {
        assert v in OpValues(OpAt(e.f, s));
        RegisterTerm(e, m, s, v);
      } else {
        var x: Site :| FirstExtract(e.f, x, dst.value, i) && OpAt(e.f, x).dst == v;
        RegisterTerm(e, m, x, v);
      }
      AnyResult(e.f, dst, i, v);
    } else {
      ResultTermExact(e.f, dst, i, 0);
    }
  }

  /** Whichever register is picked for the result is the one. */
  lemma AnyResult(f: Function, dst: Option<ValueId>, i: nat, v: ValueId)
    requires IsResult(f, dst, i, v)
    ensures forall v' :: IsResult(f, dst, i, v') ==> v' == v
  {
    forall v' | IsResult(f, dst, i, v')
      ensures v' == v
    {
      if SortOfValue(f, dst.value).None? {
        var s: Site :| FirstExtract(f, s, dst.value, i) && OpAt(f, s).dst == v;
        var s': Site :| FirstExtract(f, s', dst.value, i) && OpAt(f, s').dst == v';
        FirstUnique(f, s, s', dst.value, i);
      }
    }
  }

  lemma ResultTermsIn(e: Source, m: Model, s: Site)
    requires Encodable(e) && Satisfies(m, e) && IsSite(e.f, s) && OpAt(e.f, s).Call?
    ensures TermsHave(ResultTerms(e.f, OpAt(e.f, s).result), ResultsIn(e.f, m, OpAt(e.f, s).result), m)
    ensures forall i :: 0 <= i <= MAX_CALL_RESULT_INDEX ==>
              (ResultsIn(e.f, m, OpAt(e.f, s).result)[i].Some? <==> ResultTerms(e.f, OpAt(e.f, s).result)[i].Some?)
  {
    hide Encodable, Satisfies, Eval, ResultTerm, ResultIn;
    var dst := OpAt(e.f, s).result;
    forall i | 0 <= i <= MAX_CALL_RESULT_INDEX
      ensures ResultsIn(e.f, m, dst)[i].Some? <==> ResultTerms(e.f, dst)[i].Some?
      ensures ResultTerms(e.f, dst)[i].Some? ==>
                ResultsIn(e.f, m, dst)[i] == Some(Eval(ResultTerms(e.f, dst)[i].value, m))
    {
      ResultRegisterTerm(e, m, s, i);
    }
  }

  lemma VariableBinds(e: Source, m: Model, s: Site, v: (Name, Sort))
    requires Encodable(e) && Satisfies(m, e) && IsSite(e.f, s) && OpAt(e.f, s).Call?
    requires var i := Interface(ArgsIn(e.f, m, OpAt(e.f, s).args), ResultsIn(e.f, m, OpAt(e.f, s).result));
             v.0 in i && HasSort(i[v.0], v.1)
    ensures var b := BindingOf(v.0, TermsOf(e.f, OpAt(e.f, s).args), ResultTerms(e.f, OpAt(e.f, s).result));
            b.Some? && SortOf(b.value) == v.1
  {
    hide Encodable, Satisfies, Eval, ResultTerm, ResultIn, TermOf, SortOf, HasSort;
    var args, dst := OpAt(e.f, s).args, OpAt(e.f, s).result;
    var i := Interface(ArgsIn(e.f, m, args), ResultsIn(e.f, m, dst));
    match v.0
    case Param(k) =>
      assert args[k] in OpValues(OpAt(e.f, s));
      RegisterTerm(e, m, s, args[k]);
      OneSort(i[v.0], v.1, SortOf(TermOf(e.f, args[k]).value));
    case Result(k) =>
      ResultRegisterTerm(e, m, s, k);
      OneSort(i[v.0], v.1, SortOf(ResultTerm(e.f, dst, k).value));
    case _ =>
  }

  /** A clause whose variables have values can be bound. */
  lemma HeardBinds(e: Source, m: Model, s: Site, cl: Clause)
    requires Encodable(e) && Satisfies(m, e) && IsSite(e.f, s) && OpAt(e.f, s).Call? && Heard(e.f, m, s, cl)
    ensures Bind(cl.term, TermsOf(e.f, OpAt(e.f, s).args), ResultTerms(e.f, OpAt(e.f, s).result)).Some?
  {
    hide Encodable, Satisfies, Eval, ResultTerm, ResultIn, TermOf, Substitute, FreeVars;
    var args, dst := OpAt(e.f, s).args, OpAt(e.f, s).result;
    var ts, rs := TermsOf(e.f, args), ResultTerms(e.f, dst);
    ArgTermsIn(e, m, s);
    ResultTermsIn(e, m, s);
    var i := Interface(ArgsIn(e.f, m, args), ResultsIn(e.f, m, dst));
    forall v | v in FreeVars(cl.term)
      ensures BindingOf(v.0, ts, rs).Some? && SortOf(BindingOf(v.0, ts, rs).value) == v.1
    {
      VariableBinds(e, m, s, v);
    }
    SubstituteSucceeds(cl.term, Bindings(cl.term, ts, rs));
  }

  /**
    Where the block of a static call is on, every postcondition of an inferred contract, and every stated
    one of any contract, is true of the values of the call's arguments and results, as soon as these are
    all modelled.
   */
  lemma PromiseForced(e: Source, m: Model, s: Site, g: FuncId, cl: Clause)
    requires Encodable(e) && Satisfies(m, e) && IsSite(e.f, s) && On(m, s.0)
    requires OpAt(e.f, s).Call? && OpAt(e.f, s).callee == Static(g)
    requires cl in ContractOf(e.cs, g).ensures_ && SortOf(cl.term) == BoolSort
    requires ContractOf(e.cs, g).provenance == Inferred || cl.provenance == Annotated
    requires Heard(e.f, m, s, cl)
    ensures Holds(cl.term, Interface(ArgsIn(e.f, m, OpAt(e.f, s).args), ResultsIn(e.f, m, OpAt(e.f, s).result)))
  {
    hide Encodable, Satisfies, Eval, ResultTerm, ResultIn, TermOf, Heard, Bind, Interface;
    var args, dst := OpAt(e.f, s).args, OpAt(e.f, s).result;
    HeardBinds(e, m, s, cl);
    ArgTermsIn(e, m, s);
    ResultTermsIn(e, m, s);
    GatedHolds(e, m, s, g, cl);
    BindEval(cl.term, TermsOf(e.f, args), ResultTerms(e.f, dst), ArgsIn(e.f, m, args), ResultsIn(e.f, m, dst), m);
  }

  /** The gated clause is asserted; its gate is open. */
  lemma GatedHolds(e: Source, m: Model, s: Site, g: FuncId, cl: Clause)
    requires Encodable(e) && Satisfies(m, e) && IsSite(e.f, s) && On(m, s.0)
    requires OpAt(e.f, s).Call? && OpAt(e.f, s).callee == Static(g)
    requires cl in ContractOf(e.cs, g).ensures_ && Usable(ContractOf(e.cs, g), cl) && SortOf(cl.term) == BoolSort
    requires Bind(cl.term, TermsOf(e.f, OpAt(e.f, s).args), ResultTerms(e.f, OpAt(e.f, s).result)).Some?
    ensures Holds(Bind(cl.term, TermsOf(e.f, OpAt(e.f, s).args), ResultTerms(e.f, OpAt(e.f, s).result)).value, m)
  {
    hide Walk, TermsOf, ResultTerms, Bind, DeclarationAsserts, GuardAsserts, AllOpAsserts, ForwardAsserts, FreeVars,
      CutsBackEdges, WellShaped, AllCallAsserts, BlockCallAsserts, Declared;
    var op, k := OpAt(e.f, s), ContractOf(e.cs, g);
    var bound := Bind(cl.term, TermsOf(e.f, op.args), ResultTerms(e.f, op.result)).value;
    BindSort(cl.term, TermsOf(e.f, op.args), ResultTerms(e.f, op.result));
    var t := Or([Not(GuardTerm(s.0)), bound]);
    assert t in GatedClause(e.f, s.0, cl, op.args, op.result);
    GatedHas(e.f, s.0, k, k.ensures_, op.args, op.result, cl);
    BlockCallHas(e.f, e.cs, s.0, e.f.blocks[s.0].instrs, s.1);
    AllCallsHave(e.f, e.cs, |e.f.blocks|, s.0, t);
    assert t in Encode(e.f, e.cs, e.dag, e.reachable, e.order);
    PairMeaning(Not(GuardTerm(s.0)), bound, m);
  }

  lemma {:induction false} AllCallsHave(f: Function, cs: Contracts, n: nat, b: nat, t: Term)
    requires b < n <= |f.blocks| && t in BlockCallAsserts(f, cs, b, f.blocks[b].instrs)
    ensures t in AllCallAsserts(f, cs, n)
  {
    hide BlockCallAsserts;
    if b < n - 1 {
      AllCallsHave(f, cs, n - 1, b, t);
    }
  }
}
