/**
  Contract clauses over a function's interface (parameters p<i>, results r<i>), and binding them at
  a call site by substituting the caller's terms.
 */
module Summaries {
  import opened Wrappers
  import opened Terms
  import opened Ir

  datatype Provenance = Inferred | Havocked | Annotated

  datatype Clause = Clause(tag: string, term: Term, provenance: Provenance)

  /** What callers know about a function's values: preconditions, postconditions and how they were found. */
  datatype Contract = Contract(requires_: seq<Clause>, ensures_: seq<Clause>, provenance: Provenance)

  type Contracts = map<FuncId, Contract>

  const NO_CONTRACT := Contract([], [], Havocked)

  function ContractOf(cs: Contracts, f: FuncId): Contract {
    if f in cs then cs[f] else NO_CONTRACT
  }

  /** An inferred summary contributes all its clauses, a given-up one only what a human stated. */
  predicate Usable(c: Contract, cl: Clause) {
    c.provenance == Inferred || cl.provenance == Annotated
  }

  /** The caller's term for an interface variable; other names and missing terms have none. */
  function BindingOf(x: Name, args: seq<Option<Term>>, results: seq<Option<Term>>): Option<Term> {
    match x
    case Param(i) => if i < |args| then args[i] else None
    case Result(i) => if i < |results| then results[i] else None
    case _ => None
  }

  predicate Bindable(t: Term, args: seq<Option<Term>>, results: seq<Option<Term>>) {
    forall v | v in FreeVars(t) :: BindingOf(v.0, args, results).Some?
  }

  function Bindings(t: Term, args: seq<Option<Term>>, results: seq<Option<Term>>): Subst
    requires Bindable(t, args, results)
  {
    map x | x in VarNames(t) :: BindingOf(x, args, results).value
  }

  function VarNames(t: Term): (names: set<Name>)
    ensures forall x :: x in names <==> exists v :: v in FreeVars(t) && v.0 == x
  {
    set v | v in FreeVars(t) :: v.0
  }

  /** The clause with every interface variable replaced; None when some variable has no term. */
  function Bind(t: Term, args: seq<Option<Term>>, results: seq<Option<Term>>): Option<Term> {
    if Bindable(t, args, results) then Substitute(t, Bindings(t, args, results)) else None
  }

  // ---- what a clause says about actual values ----

  /** The interface as a model: argument and result values under their interface names. */
  ghost function Interface(args: seq<Option<Val>>, results: seq<Option<Val>>): Model {
    (map i: nat | i < |args| && args[i].Some? :: Param(i) := args[i].value)
    + (map i: nat | i < |results| && results[i].Some? :: Result(i) := results[i].value)
  }

  ghost predicate TermsHave(ts: seq<Option<Term>>, vs: seq<Option<Val>>, m: Model) {
    |ts| <= |vs| && forall i :: 0 <= i < |ts| && ts[i].Some? ==> vs[i] == Some(Eval(ts[i].value, m))
  }

  /**
    Binding is evaluation in the callee's environment: where the caller's terms have the argument
    and result values, the bound clause has the clause's value over those.
   */
  lemma BindEval(t: Term, args: seq<Option<Term>>, results: seq<Option<Term>>,
                 argVals: seq<Option<Val>>, resultVals: seq<Option<Val>>, m: Model)
    requires Bind(t, args, results).Some?
    requires TermsHave(args, argVals, m) && TermsHave(results, resultVals, m)
    ensures Eval(Bind(t, args, results).value, m) == Eval(t, Interface(argVals, resultVals))
  {
    var s := Bindings(t, args, results);
    var inner := Interface(argVals, resultVals);
    forall v | v in FreeVars(t)
      ensures Eval(Var(v.0, v.1), inner) == Eval(s[v.0], m)
    {
      assert v.0 in s;
      match v.0
      case Param(i) => assert Param(i) in inner;
      case Result(i) => assert Result(i) in inner;
      case _ =>
    }
    SubstituteEval(t, s, m, inner);
  }

  /** Each variable of the clause is an argument or a result there, with a term of its sort. */
  ghost predicate AllGiven(t: Term, args: seq<Option<Term>>, results: seq<Option<Term>>) {
    forall v :: v in FreeVars(t) ==> Given(args, results, v)
  }

  predicate Given(args: seq<Option<Term>>, results: seq<Option<Term>>, v: (Name, Sort)) {
    match v.0
    case Param(i) => i < |args| && args[i].Some? && SortOf(args[i].value) == v.1
    case Result(i) => i < |results| && results[i].Some? && SortOf(results[i].value) == v.1
    case _ => false
  }

  /** Nothing else keeps a clause from being bound. */
  lemma BindExact(t: Term, args: seq<Option<Term>>, results: seq<Option<Term>>)
    ensures Bind(t, args, results).Some? <==> AllGiven(t, args, results)
  {
    hide Substitute, FreeVars, SortOf;
    if Bindable(t, args, results) {
      var s := Bindings(t, args, results);
      if Substitute(t, s).Some? {
        forall v | v in FreeVars(t)
          ensures Given(args, results, v)
        {
          SubstituteSorts(t, s, v);
        }
      }
      if AllGiven(t, args, results) {
        SubstituteSucceeds(t, s);
      }
    }
  }

  lemma BindSort(t: Term, args: seq<Option<Term>>, results: seq<Option<Term>>)
    requires Bind(t, args, results).Some?
    ensures SortOf(Bind(t, args, results).value) == SortOf(t)
  {
    SubstituteSort(t, Bindings(t, args, results));
  }

  // ---- clauses at a call site ----

  /** A clause in the caller's terms and its negation; neither if it cannot be evaluated there. */
  datatype BoundClause = BoundClause(tag: string, bound: Option<Term>, violation: Option<Term>)

  function BoundOf(cl: Clause, args: seq<Option<Term>>, results: seq<Option<Term>>): BoundClause {
    var b := Bind(cl.term, args, results);
    if b.Some? && SortOf(b.value) == BoolSort then BoundClause(cl.tag, b, Some(Not(b.value)))
    else BoundClause(cl.tag, None, None)
  }

  function InstantiateRequires(c: Contract, args: seq<Option<Term>>): seq<BoundClause> {
    seq(|c.requires_|, i requires 0 <= i < |c.requires_| => BoundOf(c.requires_[i], args, []))
  }

  function InstantiateEnsures(c: Contract, args: seq<Option<Term>>, results: seq<Option<Term>>): seq<BoundClause> {
    seq(|c.ensures_|, i requires 0 <= i < |c.ensures_| => BoundOf(c.ensures_[i], args, results))
  }

  /**
    The violation of a precondition holds at a call exactly when the precondition is false of the
    argument values. A precondition about a result or a missing argument is not evaluated.
   */
  lemma RequiresViolated(c: Contract, args: seq<Option<Term>>, argVals: seq<Option<Val>>, m: Model, i: nat)
    requires TermsHave(args, argVals, m) && i < |c.requires_|
    ensures var b := InstantiateRequires(c, args)[i];
            && b.tag == c.requires_[i].tag && (b.bound.Some? <==> b.violation.Some?)
            && (b.bound.Some? <==> SortOf(c.requires_[i].term) == BoolSort && AllGiven(c.requires_[i].term, args, []))
            && (b.violation.Some? ==> (Holds(b.violation.value, m)
              <==> !Holds(c.requires_[i].term, Interface(argVals, []))))
  {
    var t := c.requires_[i].term;
    BindExact(t, args, []);
    if Bind(t, args, []).Some? {
      BindSort(t, args, []);
      BindEval(t, args, [], argVals, [], m);
    }
  }

  /**
    A condition on arguments and results that are all there is bound at a call, and the bound
    postcondition holds exactly when it is true of their values.
   */
  lemma EnsuresBound(c: Contract, args: seq<Option<Term>>, results: seq<Option<Term>>,
                     argVals: seq<Option<Val>>, resultVals: seq<Option<Val>>, m: Model, i: nat)
    requires TermsHave(args, argVals, m) && TermsHave(results, resultVals, m) && i < |c.ensures_|
    ensures var t, b := c.ensures_[i].term, InstantiateEnsures(c, args, results)[i].bound;
            && (b.Some? <==> SortOf(t) == BoolSort && AllGiven(t, args, results))
            && (b.Some? ==> (Holds(b.value, m) <==> Holds(t, Interface(argVals, resultVals))))
  {
    var t := c.ensures_[i].term;
    BindExact(t, args, results);
    if Bind(t, args, results).Some? {
      BindSort(t, args, results);
      BindEval(t, args, results, argVals, resultVals, m);
    }
  }
}
