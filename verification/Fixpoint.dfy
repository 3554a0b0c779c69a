/**
  Summaries of one group of mutually recursive functions: rounds over the members, each reading the
  others' latest summaries, until nothing changes or the round limit gives the group up.
 */
module Fixpoint {
  import opened Wrappers
  import opened Ir
  import opened Terms
  import opened Summaries
  import opened Locations
  import opened Effects
  import opened Collecting

  datatype Summary = Summary(contract: Contract, effects: Effects)

  /** The optimistic start: no clauses, no effects. */
  const DEFAULT_SUMMARY := Summary(Contract([], [], Inferred), EMPTY)

  const HAVOC_SUMMARY := Summary(Contract([], [], Havocked), TOP)

  // ---- annotations ----

  datatype Annotations = Annotations(requires_: seq<Clause>, ensures_: seq<Clause>)

  /** Appends the stated clauses whose formula is not there yet. */
  function WithClauses(cls: seq<Clause>, stated: seq<Clause>): seq<Clause> {
    if stated == [] then cls
    else
      var before := WithClauses(cls, stated[..|stated| - 1]);
      var cl := stated[|stated| - 1];
      if exists c :: c in before && c.term == cl.term then before else before + [cl]
  }

  function MergeAnnotations(s: Summary, ann: Option<Annotations>): Summary {
    match ann
    case None => s
    case Some(a) =>
      s.(contract := s.contract.(requires_ := WithClauses(s.contract.requires_, a.requires_),
        ensures_ := WithClauses(s.contract.ensures_, a.ensures_)))
  }

  /** Unknown function: anything may happen, and only what a human stated is known. */
  function HavocWith(ann: Option<Annotations>): Summary {
    MergeAnnotations(HAVOC_SUMMARY, ann)
  }

  /** Merging keeps what was there, adds every stated formula once, and nothing else. */
  lemma {:induction false} WithClausesExact(cls: seq<Clause>, stated: seq<Clause>)
    ensures cls <= WithClauses(cls, stated)
    ensures forall c :: c in WithClauses(cls, stated) ==> c in cls || c in stated
    ensures forall c :: c in stated ==> exists d :: d in WithClauses(cls, stated) && d.term == c.term
    ensures TermsDiffer(cls) ==> TermsDiffer(WithClauses(cls, stated))
  {
    hide TermsDiffer;
    if stated != [] {
      var before := stated[..|stated| - 1];
      WithClausesExact(cls, before);
      OneClauseMore(WithClauses(cls, before), stated[|stated| - 1]);
      var merged := WithClauses(cls, before);
      forall c | c in stated
        ensures exists d :: d in WithClauses(cls, stated) && d.term == c.term
      {
        if c in before {
          var d :| d in merged && d.term == c.term;
          assert d in WithClauses(cls, stated);
        } else if exists d :: d in merged && d.term == c.term {
          var d :| d in merged && d.term == c.term;
          assert WithClauses(cls, stated) == merged;
        } else {
          assert WithClauses(cls, stated) == merged + [c];
        }
      }
    }
  }

  ghost predicate TermsDiffer(cls: seq<Clause>) {
    forall i, j :: 0 <= i < j < |cls| ==> cls[i].term != cls[j].term
  }

  lemma OneClauseMore(merged: seq<Clause>, cl: Clause)
    ensures TermsDiffer(merged) && (forall c :: c in merged ==> c.term != cl.term) ==> TermsDiffer(merged + [cl])
    ensures cl in merged + [cl]
  {
    assert (merged + [cl])[|merged|] == cl;
    assert forall i :: 0 <= i < |merged| ==> merged[i] in merged;
  }

  // ---- what giving up leaves ----

  /** Whatever the function really does is covered, at the function and at every call of it. */
  ghost predicate CoversAll(big: Effects) {
    && (forall small: Effects :: Covers(big, small))
    && forall small: Effects, arg: Frame, fv: Frame, arg': Frame, fv': Frame ::
      Degrades(arg, arg') && Degrades(fv, fv') ==> Covers(Rebase(big, arg', fv'), Rebase(small, arg, fv))
  }

  /** No blocked operation counts as stuck beside such effects. */
  ghost predicate NeverStuck(e: Effects) {
    && (forall l: Loc, kind: CandKind :: HasCounterpart(e, l, kind))
    && forall l: Loc, dir: nat :: ArmHasCounterpart(e, l, dir)
  }

  /** Nothing but the stated clauses can be used, and every stated formula is there. */
  ghost predicate OnlyStated(c: Contract, ann: Option<Annotations>) {
    && (forall cl :: cl in c.requires_ ==> ann.Some? && cl in ann.value.requires_)
    && (forall cl :: cl in c.ensures_ ==> ann.Some? && cl in ann.value.ensures_)
    && (forall cl :: cl in c.ensures_ ==> (Usable(c, cl) <==> cl.provenance == Annotated))
    && (ann.Some? ==> forall cl :: cl in ann.value.ensures_ ==> HasFormula(c.ensures_, cl))
    && (ann.Some? ==> forall cl :: cl in ann.value.requires_ ==> HasFormula(c.requires_, cl))
  }

  ghost predicate HasFormula(cls: seq<Clause>, cl: Clause) {
    exists d :: d in cls && d.term == cl.term
  }

  ghost predicate SafeFor(s: Summary, ann: Option<Annotations>) {
    CoversAll(s.effects) && NeverStuck(s.effects) && OnlyStated(s.contract, ann)
  }

  lemma TopCoversAll()
    ensures CoversAll(TOP) && NeverStuck(TOP)
  {
    hide Covers, Degrades, Rebase, HasCounterpart, ArmHasCounterpart, AnyAt;
    forall small: Effects
      ensures Covers(TOP, small)
    {
      CoversOrder(small, small, small);
    }
    forall small: Effects, arg: Frame, fv: Frame, arg': Frame, fv': Frame | Degrades(arg, arg') && Degrades(fv, fv')
      ensures Covers(Rebase(TOP, arg', fv'), Rebase(small, arg, fv))
    {
      RebaseCovers(TOP, small, arg, fv, arg', fv');
    }
    forall l: Loc, kind: CandKind
      ensures HasCounterpart(TOP, l, kind)
    {
      TopAnswers(l, kind, 0);
    }
    forall l: Loc, dir: nat
      ensures ArmHasCounterpart(TOP, l, dir)
    {
      TopAnswers(l, SelectCand, dir);
    }
  }

  lemma TopAnswers(l: Loc, kind: CandKind, dir: nat)
    ensures HasCounterpart(TOP, l, kind) && ArmHasCounterpart(TOP, l, dir)
  {
    EveryOp();
    assert CloseOp in At(TOP.chanOps, UNKNOWN);
    assert CloseOp in Unblockers(SendCand) && CloseOp in Unblockers(RecvCand);
  }

  /** The summary of a function given up on, or never seen, is safe to use whatever the function does. */
  lemma GivenUpIsSafe(ann: Option<Annotations>)
    ensures SafeFor(HavocWith(ann), ann)
  {
    hide CoversAll, NeverStuck;
    TopCoversAll();
    if ann.Some? {
      WithClausesExact([], ann.value.requires_);
      WithClausesExact([], ann.value.ensures_);
    }
  }

  // ---- one group ----

  type SummaryEnv = FuncId -> Summary

  /** How one function is analyzed, given the summaries of others. */
  type Analyzer = (FuncId, SummaryEnv) -> Summary

  type Current = map<FuncId, Summary>

  /** The in-flight summary of a member, the finished one of any other function. */
  function Latest(current: Current, outside: SummaryEnv): SummaryEnv {
    (c: FuncId) => if c in current then current[c] else outside(c)
  }

  ghost predicate Settled(members: seq<FuncId>, current: Current, outside: SummaryEnv, analyze: Analyzer) {
    forall m :: m in members ==> m in current && current[m] == analyze(m, Latest(current, outside))
  }

  predicate GivenUp(members: seq<FuncId>, current: Current, ann: map<FuncId, Annotations>) {
    forall m :: m in members ==> m in current && current[m] == HavocWith(AnnOf(ann, m))
  }

  function AnnOf(ann: map<FuncId, Annotations>, m: FuncId): Option<Annotations> {
    if m in ann then Some(ann[m]) else None
  }

  // ---- effects: the least solution ----

  function EffectsIn(env: SummaryEnv): Env {
    (c: FuncId) => env(c).effects
  }

  /** The analyzer collects effects from the callees' effects, and from nothing else. */
  ghost predicate CollectsEffects(w: World, analyze: Analyzer) {
    forall m: FuncId, env: SummaryEnv :: analyze(m, env).effects == Collected(w, m, EffectsIn(env))
  }

  type EffectsMap = map<FuncId, Effects>

  function LatestEffects(bound: EffectsMap, outside: SummaryEnv): Env {
    (c: FuncId) => if c in bound then bound[c] else outside(c).effects
  }

  /** Effects for the members that already include whatever collecting from them gives. */
  ghost predicate PreFixed(w: World, members: seq<FuncId>, outside: SummaryEnv, bound: EffectsMap) {
    && (forall m :: m in members <==> m in bound)
    && forall m :: m in members ==> Leq(Collected(w, m, LatestEffects(bound, outside)), bound[m])
  }

  ghost predicate Below(current: Current, bound: EffectsMap) {
    forall m :: m in current && m in bound ==> Leq(current[m].effects, bound[m])
  }

  /** No solution is missed: the current effects are below every one. */
  ghost predicate BelowAll(w: World, members: seq<FuncId>, outside: SummaryEnv, current: Current) {
    forall bound :: PreFixed(w, members, outside, bound) ==> Below(current, bound)
  }

  lemma UpdateStaysBelow(w: World, members: seq<FuncId>, outside: SummaryEnv, analyze: Analyzer, current: Current,
                         m: FuncId, bound: EffectsMap)
    requires CollectsEffects(w, analyze) && m in members && (forall c :: c in current <==> c in members)
    requires PreFixed(w, members, outside, bound) && Below(current, bound)
    ensures Below(current[m := analyze(m, Latest(current, outside))], bound)
  {
    hide Collected, Leq;
    var env, env' := EffectsIn(Latest(current, outside)), LatestEffects(bound, outside);
    forall c: FuncId
      ensures Leq(env(c), env'(c))
    {
      LeqOrder(env(c), env(c), env(c));
    }
    CollectMonotone(w, m, env, env');
    assert analyze(m, Latest(current, outside)).effects == Collected(w, m, env);
    LeqOrder(Collected(w, m, env), Collected(w, m, env'), bound[m]);
  }

  lemma UpdateStaysBelowAll(w: World, members: seq<FuncId>, outside: SummaryEnv, analyze: Analyzer, current: Current,
                            m: FuncId)
    requires CollectsEffects(w, analyze) && m in members && (forall c :: c in current <==> c in members)
    requires BelowAll(w, members, outside, current)
    ensures BelowAll(w, members, outside, current[m := analyze(m, Latest(current, outside))])
  {
    hide Below, PreFixed, CollectsEffects;
    forall bound | PreFixed(w, members, outside, bound)
      ensures Below(current[m := analyze(m, Latest(current, outside))], bound)
    {
      UpdateStaysBelow(w, members, outside, analyze, current, m, bound);
    }
  }

  function EffectsOf(current: Current): EffectsMap {
    map m | m in current :: current[m].effects
  }

  /** A settled group's effects solve the equations; below every solution, they are the least. */
  lemma SettledIsLeast(w: World, members: seq<FuncId>, outside: SummaryEnv, analyze: Analyzer, current: Current,
                       bound: EffectsMap)
    requires CollectsEffects(w, analyze) && Settled(members, current, outside, analyze)
        && (forall c :: c in current <==> c in members)
    requires BelowAll(w, members, outside, current)
    ensures PreFixed(w, members, outside, EffectsOf(current))
    ensures forall m :: m in members ==>
        EffectsOf(current)[m] == Collected(w, m, LatestEffects(EffectsOf(current), outside))
    ensures PreFixed(w, members, outside, bound) ==> forall m :: m in members ==> Leq(EffectsOf(current)[m], bound[m])
  {
    hide Collected, Leq;
    var e := LatestEffects(EffectsOf(current), outside);
    var e' := EffectsIn(Latest(current, outside));
    forall m | m in members
      ensures current[m].effects == Collected(w, m, e) && Leq(Collected(w, m, e), current[m].effects)
    {
      assert current[m] == analyze(m, Latest(current, outside));
      SameEnv(w, m, e, e');
      LeqOrder(current[m].effects, current[m].effects, current[m].effects);
    }
  }

  /** Collecting looks at nothing but what the environment says of each function. */
  lemma SameEnv(w: World, m: FuncId, e: Env, e': Env)
    requires forall c: FuncId :: e(c) == e'(c)
    ensures Collected(w, m, e) == Collected(w, m, e')
  {
    hide Collected, Leq;
    forall c: FuncId
      ensures Leq(e(c), e'(c)) && Leq(e'(c), e(c))
    {
      LeqOrder(e(c), e'(c), e(c));
    }
    CollectMonotone(w, m, e, e');
    CollectMonotone(w, m, e', e);
    LeqOrder(Collected(w, m, e), Collected(w, m, e'), Collected(w, m, e));
  }

  // ---- the loop ----

  /** One round: every member in turn, each update visible to the next. */
  method Round(members: seq<FuncId>, outside: SummaryEnv, analyze: Analyzer, ghost w: World, start: Current)
      returns (current: Current, changed: bool)
    requires forall c :: c in start <==> c in members
    ensures forall c :: c in current <==> c in members
    ensures !changed ==> current == start && Settled(members, current, outside, analyze)
    ensures CollectsEffects(w, analyze) && BelowAll(w, members, outside, start) ==>
        BelowAll(w, members, outside, current)
    ensures |members| == 1 ==> current == map[members[0] := analyze(members[0], Latest(start, outside))]
  {
    hide CollectsEffects, BelowAll;
    current, changed := start, false;
    for k := 0 to |members|
      invariant forall c :: c in current <==> c in members
      invariant !changed ==> current == start && forall i :: 0 <= i < k ==>
          start[members[i]] == analyze(members[i], Latest(start, outside))
      invariant CollectsEffects(w, analyze) && BelowAll(w, members, outside, start) ==>
          BelowAll(w, members, outside, current)
      invariant k == 0 ==> current == start
      invariant k == 1 && |members| == 1 ==> current == map[members[0] := analyze(members[0], Latest(start, outside))]
    {
      var m := members[k];
      assert m in members;
      ghost var before := current;
      var new_ := analyze(m, Latest(current, outside));
      if CollectsEffects(w, analyze) && BelowAll(w, members, outside, current) {
        UpdateStaysBelowAll(w, members, outside, analyze, current, m);
        assert current[m] == new_ ==> current[m := new_] == current;
      }
      if current[m] != new_ {
        current := current[m := new_];
        changed := true;
      }
      if |members| == 1 {
        assert forall c :: c in current <==> c == m;
        assert current == map[m := new_];
      }
    }
  }

  lemma NothingBelowAll(w: World, members: seq<FuncId>, outside: SummaryEnv, current: Current)
    requires forall m :: m in current ==> current[m] == DEFAULT_SUMMARY
    ensures BelowAll(w, members, outside, current)
  {
    forall bound | PreFixed(w, members, outside, bound)
      ensures Below(current, bound)
    {
      forall m | m in current && m in bound
        ensures Leq(current[m].effects, bound[m])
      {
        LeqOrder(bound[m], bound[m], bound[m]);
      }
    }
  }

  function Defaults(members: seq<FuncId>): Current {
    map m | m in members :: DEFAULT_SUMMARY
  }

  function Havocs(members: seq<FuncId>, ann: map<FuncId, Annotations>): Current {
    map m | m in members :: HavocWith(AnnOf(ann, m))
  }

  /**
    The rounds of one group. Without recursion one round suffices. A recursive group stops settled,
    with effects that are the least solution, or, after widen_after + 1 rounds at most, given up.
   */
  method AnalyzeGroup(members: seq<FuncId>, outside: SummaryEnv, analyze: Analyzer, recursive: bool, widenAfter: nat,
                      ann: map<FuncId, Annotations>, ghost w: World)
                        returns (current: Current, passes: nat, widened: bool)
    requires recursive || |members| == 1
    ensures forall c :: c in current <==> c in members
    ensures 1 <= passes <= widenAfter + 1 && (widened ==> recursive && passes == widenAfter + 1)
    ensures widened ==> GivenUp(members, current, ann)
    ensures widened ==> forall m :: m in members ==> SafeFor(current[m], AnnOf(ann, m))
    ensures recursive && !widened ==> Settled(members, current, outside, analyze)
    ensures recursive && !widened && CollectsEffects(w, analyze) ==> BelowAll(w, members, outside, current)
    ensures !recursive ==>
              passes == 1 && current == map[members[0] := analyze(members[0], Latest(Defaults(members), outside))]
  {
    hide CollectsEffects, BelowAll, Settled, SafeFor, HavocWith;
    current := Defaults(members);
    NothingBelowAll(w, members, outside, current);
    var rounds := 0;
    passes := 0;
    widened := false;
    while true
      invariant forall c :: c in current <==> c in members
      invariant rounds == passes <= widenAfter && (!recursive ==> passes == 0)
      invariant passes == 0 ==> current == Defaults(members)
      invariant CollectsEffects(w, analyze) ==> BelowAll(w, members, outside, current)
      decreases widenAfter - rounds
    {
      var changed;
      current, changed := Round(members, outside, analyze, w, current);
      passes := passes + 1;
      if !recursive || !changed {
        break;
      }
      if rounds >= widenAfter {
        current := Havocs(members, ann);
        forall m | m in members
          ensures SafeFor(current[m], AnnOf(ann, m))
        {
          GivenUpIsSafe(AnnOf(ann, m));
        }
        widened := true;
        break;
      }
      rounds := rounds + 1;
    }
  }

  /** A function that does not read its own summary is settled by one round. */
  lemma OneRoundSettles(m: FuncId, outside: SummaryEnv, analyze: Analyzer)
    requires forall env: SummaryEnv, env': SummaryEnv :: (forall c: FuncId :: c != m ==> env(c) == env'(c)) ==>
        analyze(m, env) == analyze(m, env')
    ensures var current := map[m := analyze(m, Latest(Defaults([m]), outside))];
            Settled([m], current, outside, analyze)
  {
    var start := Defaults([m]);
    var current := map[m := analyze(m, Latest(start, outside))];
    var env, env' := Latest(start, outside), Latest(current, outside);
    forall c: FuncId | c != m
      ensures env(c) == env'(c)
    {
    }
  }
}
