/**
  What is proposed and what is verified, beside what the encoding leaves possible: with a solver that
  is always right, a clause is proposed exactly when no assignment at the returns speaks against it.
 */
module ProposalsExact {
  import opened Wrappers
  import opened Terms
  import opened Ir
  import opened Summaries
  import opened Encoding
  import opened Encoder
  import opened GuardPaths
  import opened Postconditions
  import opened EncodingMeaning
  import opened EncodingPromises

  /** The solver refutes exactly what has no model. */
  ghost predicate Exact(solve: Query -> SatResult) {
    forall q :: solve(q) == Unsat <==> !Satisfiable(q)
  }

  /** The assignment satisfies the encoding and is at the block. */
  ghost predicate At(f: Function, cs: Contracts, m: Model, b: nat) {
    Models(m, Query(Declared(f), EncodingOf(f, cs))) && On(m, b)
  }

  /** No assignment at the block makes the register nil. */
  ghost predicate NilRuledOut(f: Function, cs: Contracts, b: nat, v: ValueId) {
    SortOfValue(f, v) == Some(PtrSort) && forall m: Model :: At(f, cs, m, b) ==> ValueIn(f, m, v) != Some(NilPtr)
  }

  predicate ReturnAt(f: Function, s: Site) {
    IsSite(f, s) && OpAt(f, s).Return?
  }

  /** Large enough an encoding is not looked at, nor is a body whose returns do not fit its signature. */
  ghost predicate Examined(f: Function, cs: Contracts) {
    && |EncodingOf(f, cs)| <= ASSERT_CAP
    && (exists s: Site :: ReturnAt(f, s))
    && forall s: Site :: ReturnAt(f, s) ==> |OpAt(f, s).vals| == |f.results|
  }

  /** At every return. */
  ghost predicate RuledOutEverywhere(f: Function, cs: Contracts, i: nat) {
    forall s: Site :: ReturnAt(f, s) ==>
      i < |OpAt(f, s).vals| && NilRuledOut(f, cs, s.0, OpAt(f, s).vals[i])
  }

  /** At every return of the literal nil as error e. */
  ghost predicate RuledOutWithNilError(f: Function, cs: Contracts, e: nat, i: nat) {
    forall s: Site :: ReturnAt(f, s) ==>
      var vals := OpAt(f, s).vals;
      && i < |vals| && e < |vals|
      && (ValueOf(f, vals[e]).kind == ConstKind(NilConst) ==> NilRuledOut(f, cs, s.0, vals[i]))
  }

  /** A result of pointer or interface type. */
  predicate MayBeNil(f: Function, i: nat) {
    i < |f.results| && (f.results[i].PtrTy? || f.results[i].IfaceTy?)
  }

  /** The clauses the encoding bears out. */
  ghost predicate BorneOut(f: Function, cs: Contracts, cl: Clause) {
    Examined(f, cs) && exists i: nat :: MayBeNil(f, i) && BorneOutFor(f, cs, i, cl)
  }

  ghost predicate BorneOutFor(f: Function, cs: Contracts, i: nat, cl: Clause) {
    if RuledOutEverywhere(f, cs, i) then cl == NonNilResult(i)
    else exists e: nat :: GivesError(f, e) && e != i && RuledOutWithNilError(f, cs, e, i) && cl == Correlation(e, i)
  }

  lemma NilHolds(f: Function, m: Model, v: ValueId)
    requires TermOf(f, v).Some? && ValueIn(f, m, v).Some?
    ensures Holds(IsNil(TermOf(f, v).value), m) <==> ValueIn(f, m, v) == Some(NilPtr)
  {
    hide Eval;
    ValueEval(f, m, v);
    NilValue(TermOf(f, v).value, m);
  }

  lemma NilValue(t: Term, m: Model)
    ensures Holds(IsNil(t), m) <==> Eval(t, m) == NilPtr
  {
    hide BinVal, CmpVal, SortOf, DefaultOf;
    assert Eval(IsNil(t), m) == BoolVal(Eval(t, m) == NilPtr);
  }

  /** The models of a query at a block are the assignments at it that make the extra conjuncts true. */
  lemma QueryModels(f: Function, cs: Contracts, b: nat, extra: seq<Term>, m: Model)
    requires b < |f.blocks|
    ensures Models(m, ReachQuery(f, EncodingOf(f, cs), b, extra)) <==>
              At(f, cs, m, b) && forall t :: t in extra ==> Holds(t, m)
  {
    hide EncodingOf, Declared, Eval;
    var asserts, q := EncodingOf(f, cs), ReachQuery(f, EncodingOf(f, cs), b, extra);
    assert forall t :: t in q.asserts <==> t in asserts || t == GuardTerm(b) || t in extra;
  }

  lemma DeclaredHas(f: Function, cs: Contracts, m: Model, b: nat, v: ValueId)
    requires At(f, cs, m, b) && v in Mentions(f) && SortOfValue(f, v).Some?
    ensures ValueIn(f, m, v).Some?
  {
    hide EncodingOf, Mentions, On;
    assert (NameOf(f, v), SortOfValue(f, v).value) in Declared(f);
  }

  lemma RefutedExact(f: Function, cs: Contracts, solve: Query -> SatResult, b: nat, v: ValueId)
    requires Exact(solve) && b < |f.blocks| && v in Mentions(f)
    ensures RefutedNil(f, cs, solve, b, v) <==> NilRuledOut(f, cs, b, v)
  {
    hide EncodingOf, Mentions, At, Models, ReachQuery, Holds;
    if SortOfValue(f, v) == Some(PtrSort) {
      var t := TermOf(f, v).value;
      var q := ReachQuery(f, EncodingOf(f, cs), b, [IsNil(t)]);
      forall m: Model
        ensures Models(m, q) <==> At(f, cs, m, b) && ValueIn(f, m, v) == Some(NilPtr)
      {
        QueryModels(f, cs, b, [IsNil(t)], m);
        if At(f, cs, m, b) {
          DeclaredHas(f, cs, m, b, v);
          NilHolds(f, m, v);
        }
      }
    }
  }

  /** Return sites by position in the list and by position in the body. */
  lemma SitesAlike(f: Function)
    ensures forall s: Site :: ReturnAt(f, s) ==> (s.0, OpAt(f, s).vals) in ReturnsOf(f, |f.blocks|)
    ensures forall r :: r in ReturnsOf(f, |f.blocks|) ==>
              exists s: Site :: ReturnAt(f, s) && r == (s.0, OpAt(f, s).vals)
  {
    hide ReturnsOf;
    forall s: Site | ReturnAt(f, s)
      ensures (s.0, OpAt(f, s).vals) in ReturnsOf(f, |f.blocks|)
    {
      ReturnListed(f, |f.blocks|, s);
    }
    forall r | r in ReturnsOf(f, |f.blocks|)
      ensures exists s: Site :: ReturnAt(f, s) && r == (s.0, OpAt(f, s).vals)
    {
      var s := ReturnFrom(f, |f.blocks|, r);
    }
  }

  lemma ExaminedExact(f: Function, cs: Contracts)
    ensures Examined(f, cs) <==>
              |EncodingOf(f, cs)| <= ASSERT_CAP && ArityFits(f) && ReturnsOf(f, |f.blocks|) != []
  {
    hide EncodingOf, ReturnsOf;
    SitesAlike(f);
    if s: Site :| ReturnAt(f, s) {
      assert (s.0, OpAt(f, s).vals) in ReturnsOf(f, |f.blocks|);
    }
    if ReturnsOf(f, |f.blocks|) != [] {
      assert ReturnsOf(f, |f.blocks|)[0] in ReturnsOf(f, |f.blocks|);
    }
  }

  lemma ReturnRefuted(f: Function, cs: Contracts, solve: Query -> SatResult, s: Site, i: nat)
    requires Exact(solve) && ReturnAt(f, s) && i < |OpAt(f, s).vals|
    ensures RefutedNil(f, cs, solve, s.0, OpAt(f, s).vals[i]) <==> NilRuledOut(f, cs, s.0, OpAt(f, s).vals[i])
  {
    hide Mentions, EncodingOf, RefutedNil, NilRuledOut, Exact;
    var v := OpAt(f, s).vals[i];
    assert v in OpReads(OpAt(f, s)) && v in OpValues(OpAt(f, s));
    Mentioned(f, s, v);
    RefutedExact(f, cs, solve, s.0, v);
  }

  lemma EverywhereExact(f: Function, cs: Contracts, solve: Query -> SatResult, i: nat)
    requires Exact(solve)
    ensures NeverNil(f, cs, solve, i) <==> RuledOutEverywhere(f, cs, i)
  {
    hide EncodingOf, ReturnsOf, RefutedNil, NilRuledOut, Exact;
    SitesAlike(f);
    forall s: Site | ReturnAt(f, s) && i < |OpAt(f, s).vals|
      ensures RefutedNil(f, cs, solve, s.0, OpAt(f, s).vals[i]) <==> NilRuledOut(f, cs, s.0, OpAt(f, s).vals[i])
    {
      ReturnRefuted(f, cs, solve, s, i);
    }
    if NeverNil(f, cs, solve, i) {
      forall s: Site | ReturnAt(f, s)
        ensures i < |OpAt(f, s).vals| && NilRuledOut(f, cs, s.0, OpAt(f, s).vals[i])
      {
        assert (s.0, OpAt(f, s).vals) in ReturnsOf(f, |f.blocks|);
      }
    }
  }

  lemma NilErrorExact(f: Function, cs: Contracts, solve: Query -> SatResult, e: nat, i: nat)
    requires Exact(solve)
    ensures NilOnlyWithError(f, cs, solve, e, i) <==> RuledOutWithNilError(f, cs, e, i)
  {
    hide EncodingOf, ReturnsOf, RefutedNil, NilRuledOut, Exact;
    SitesAlike(f);
    forall s: Site | ReturnAt(f, s) && i < |OpAt(f, s).vals|
      ensures RefutedNil(f, cs, solve, s.0, OpAt(f, s).vals[i]) <==> NilRuledOut(f, cs, s.0, OpAt(f, s).vals[i])
    {
      ReturnRefuted(f, cs, solve, s, i);
    }
    if NilOnlyWithError(f, cs, solve, e, i) {
      forall s: Site | ReturnAt(f, s)
        ensures var vals := OpAt(f, s).vals;
                && i < |vals| && e < |vals|
                && (ValueOf(f, vals[e]).kind == ConstKind(NilConst) ==> NilRuledOut(f, cs, s.0, vals[i]))
      {
        assert (s.0, OpAt(f, s).vals) in ReturnsOf(f, |f.blocks|);
      }
    }
  }

  /** Neither more nor less is proposed than the encoding bears out. */
  lemma ProposedExact(f: Function, cs: Contracts, solve: Query -> SatResult, cl: Clause)
    requires Exact(solve)
    ensures Proposed(f, cs, solve, cl) <==> BorneOut(f, cs, cl)
  {
    hide EncodingOf, ReturnsOf, ArityFits, Examined, NeverNil, NilOnlyWithError, RuledOutEverywhere,
      RuledOutWithNilError, Exact;
    ExaminedExact(f, cs);
    forall i: nat
      ensures ProposedFor(f, cs, solve, i, |f.results|, cl) <==> MayBeNil(f, i) && BorneOutFor(f, cs, i, cl)
    {
      ProposedForExact(f, cs, solve, i, cl);
    }
  }

  lemma ProposedForExact(f: Function, cs: Contracts, solve: Query -> SatResult, i: nat, cl: Clause)
    requires Exact(solve)
    ensures ProposedFor(f, cs, solve, i, |f.results|, cl) <==> MayBeNil(f, i) && BorneOutFor(f, cs, i, cl)
  {
    hide NeverNil, NilOnlyWithError, RuledOutEverywhere, RuledOutWithNilError, Exact;
    EverywhereExact(f, cs, solve, i);
    forall e: nat
      ensures NilOnlyWithError(f, cs, solve, e, i) <==> RuledOutWithNilError(f, cs, e, i)
    {
      NilErrorExact(f, cs, solve, e, i);
    }
  }

  // ---- stated clauses ----

  /** The register an interface variable stands for at a return of these values. */
  function StandsFor(f: Function, vals: seq<ValueId>, x: Name): Option<ValueId> {
    match x
    case Param(i) => if i < |f.params| then Some(f.params[i]) else None
    case Result(i) => if i < |vals| then Some(vals[i]) else None
    case _ => None
  }

  /** The clause is a condition on parameters and results of the sorts it gives them. */
  ghost predicate SpeaksOf(f: Function, vals: seq<ValueId>, cl: Clause) {
    && SortOf(cl.term) == BoolSort
    && forall v :: v in FreeVars(cl.term) ==>
         StandsFor(f, vals, v.0).Some? && SortOfValue(f, StandsFor(f, vals, v.0).value) == Some(v.1)
  }

  /** Every assignment at the return that meets the function's own preconditions makes the clause true there. */
  ghost predicate TrueAtReturn(f: Function, cs: Contracts, own: seq<Term>, cl: Clause, s: Site)
    requires ReturnAt(f, s)
  {
    var vals := OpAt(f, s).vals;
    && SpeaksOf(f, vals, cl)
    && forall m: Model :: At(f, cs, m, s.0) && (forall t :: t in own ==> Holds(t, m)) ==>
         Holds(cl.term, Interface(ArgsIn(f, m, f.params), ArgsIn(f, m, vals)))
  }

  lemma BindsExactly(f: Function, vals: seq<ValueId>, cl: Clause)
    ensures Bind(cl.term, TermsOf(f, f.params), TermsOf(f, vals)).Some? && SortOf(cl.term) == BoolSort
        <==> SpeaksOf(f, vals, cl)
  {
    hide FreeVars, SortOf;
    var args, results := TermsOf(f, f.params), TermsOf(f, vals);
    BindExact(cl.term, args, results);
    forall v | v in FreeVars(cl.term)
      ensures Given(args, results, v) <==>
                StandsFor(f, vals, v.0).Some? && SortOfValue(f, StandsFor(f, vals, v.0).value) == Some(v.1)
    {
      if StandsFor(f, vals, v.0).Some? {
        TermSort(f, StandsFor(f, vals, v.0).value);
      }
    }
  }

  lemma TermSort(f: Function, v: ValueId)
    ensures TermOf(f, v).Some? <==> SortOfValue(f, v).Some?
    ensures TermOf(f, v).Some? ==> SortOf(TermOf(f, v).value) == SortOfValue(f, v).value
  {
  }

  /** The terms of mentioned registers have the registers' values. */
  lemma TermsAreValues(f: Function, cs: Contracts, m: Model, b: nat, vs: seq<ValueId>)
    requires At(f, cs, m, b) && forall v :: v in vs ==> v in Mentions(f)
    ensures TermsHave(TermsOf(f, vs), ArgsIn(f, m, vs), m)
  {
    hide At, Mentions, Eval, TermOf;
    forall i | 0 <= i < |vs| && TermOf(f, vs[i]).Some?
      ensures ArgsIn(f, m, vs)[i] == Some(Eval(TermOf(f, vs[i]).value, m))
    {
      TermSort(f, vs[i]);
      DeclaredHas(f, cs, m, b, vs[i]);
      ValueEval(f, m, vs[i]);
    }
  }

  lemma NotHolds(t: Term, m: Model)
    ensures Holds(Not(t), m) <==> !Holds(t, m)
  {
    hide BinVal, CmpVal, SortOf, DefaultOf;
    assert Eval(Not(t), m) == BoolVal(Eval(t, m) != BoolVal(true));
  }

  lemma ProvenExact(f: Function, cs: Contracts, solve: Query -> SatResult, own: seq<Term>, cl: Clause, s: Site)
    requires Exact(solve) && ReturnAt(f, s)
    ensures ProvenAt(f, cs, solve, own, cl, (s.0, OpAt(f, s).vals)) <==> TrueAtReturn(f, cs, own, cl, s)
  {
    hide EncodingOf, At, Models, ReachQuery, Holds, SpeaksOf, Bind, TermsOf, ArgsIn;
    var vals := OpAt(f, s).vals;
    var args, results := TermsOf(f, f.params), TermsOf(f, vals);
    BindsExactly(f, vals, cl);
    if Bind(cl.term, args, results).Some? {
      BindSort(cl.term, args, results);
      var bound := Bind(cl.term, args, results).value;
      var extra := own + [Not(bound)];
      forall m: Model
        ensures Models(m, ReachQuery(f, EncodingOf(f, cs), s.0, extra)) <==>
                  && At(f, cs, m, s.0) && (forall t :: t in own ==> Holds(t, m))
                  && !Holds(cl.term, Interface(ArgsIn(f, m, f.params), ArgsIn(f, m, vals)))
      {
        QueryModels(f, cs, s.0, extra, m);
        if At(f, cs, m, s.0) {
          BoundTruth(f, cs, m, s, cl);
          NotHolds(bound, m);
          assert forall t :: t in extra <==> t in own || t == Not(bound);
        }
      }
    }
  }

  /** Bound at a return, the clause has its own truth over the values of parameters and results. */
  lemma BoundTruth(f: Function, cs: Contracts, m: Model, s: Site, cl: Clause)
    requires At(f, cs, m, s.0) && ReturnAt(f, s)
    requires Bind(cl.term, TermsOf(f, f.params), TermsOf(f, OpAt(f, s).vals)).Some?
    ensures Holds(Bind(cl.term, TermsOf(f, f.params), TermsOf(f, OpAt(f, s).vals)).value, m)
        <==> Holds(cl.term, Interface(ArgsIn(f, m, f.params), ArgsIn(f, m, OpAt(f, s).vals)))
  {
    hide At, Mentions, Eval, Bind, TermsOf, ArgsIn, Interface, TermsHave;
    var vals := OpAt(f, s).vals;
    ParamsMentioned(f);
    assert OpReads(OpAt(f, s)) == vals;
    forall v | v in vals
      ensures v in Mentions(f)
    {
      assert v in OpValues(OpAt(f, s));
      Mentioned(f, s, v);
    }
    TermsAreValues(f, cs, m, s.0, f.params);
    TermsAreValues(f, cs, m, s.0, vals);
    BindEval(cl.term, TermsOf(f, f.params), TermsOf(f, vals), ArgsIn(f, m, f.params), ArgsIn(f, m, vals), m);
  }

  /** A stated clause goes without a warning exactly when the encoding bears it out at every return. */
  lemma VerifiedExact(f: Function, cs: Contracts, solve: Query -> SatResult, own: seq<Term>, cl: Clause)
    requires Exact(solve) && |EncodingOf(f, cs)| <= ASSERT_CAP
    ensures Verified(f, cs, solve, own, cl) <==>
              Examined(f, cs) && forall s: Site :: ReturnAt(f, s) ==> TrueAtReturn(f, cs, own, cl, s)
  {
    hide EncodingOf, ReturnsOf, Examined, ProvenAt, TrueAtReturn, ArityFits, Exact;
    ExaminedExact(f, cs);
    SitesAlike(f);
    forall s: Site | ReturnAt(f, s)
      ensures ProvenAt(f, cs, solve, own, cl, (s.0, OpAt(f, s).vals)) <==> TrueAtReturn(f, cs, own, cl, s)
    {
      ProvenExact(f, cs, solve, own, cl, s);
    }
    if Verified(f, cs, solve, own, cl) {
      forall s: Site | ReturnAt(f, s)
        ensures TrueAtReturn(f, cs, own, cl, s)
      {
        assert (s.0, OpAt(f, s).vals) in ReturnsOf(f, |f.blocks|);
      }
    }
  }

  /** A precondition over parameters, asserted as it stands, has its own truth over the values of the arguments. */
  lemma OwnOverArgs(f: Function, cs: Contracts, m: Model, b: nat, t: Term)
    requires At(f, cs, m, b) && forall i, j :: 0 <= i < j < |f.params| ==> f.params[i] != f.params[j]
    requires forall v :: v in FreeVars(t) ==>
        v.0.Param? && v.0.index < |f.params| && SortOfValue(f, f.params[v.0.index]) == Some(v.1)
    ensures Holds(t, m) <==> Holds(t, Interface(ArgsIn(f, m, f.params), []))
  {
    hide At, Mentions, Eval, IndexIn;
    var world := Interface(ArgsIn(f, m, f.params), []);
    ParamsMentioned(f);
    forall v | v in FreeVars(t)
      ensures v.0 in m && v.0 in world && m[v.0] == world[v.0]
    {
      var p := f.params[v.0.index];
      DeclaredHas(f, cs, m, b, p);
      assert NameOf(f, p) == v.0;
      assert ArgsIn(f, m, f.params)[v.0.index] == Some(m[v.0]);
    }
    EvalAgrees(t, m, world);
  }
}
