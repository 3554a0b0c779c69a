/**
  A run that stops before a call is covered by the encoding exactly as far as the callee's contract
  can be answered: the guard of the block is on, so the contract is asserted although the call has
  not happened. With an unanswerable contract, one block that calls its owner has a run that no
  assignment describes.
 */
module AnswersNeeded {
  import opened Wrappers
  import opened MachineInts
  import opened Graphs
  import opened CutDag
  import opened Dominators
  import opened Terms
  import opened Ir
  import opened Summaries
  import opened Encoding
  import opened GuardTerms
  import opened Runs
  import opened Answers
  import opened Addresses
  import opened RunModel
  import opened RunSettled
  import opened RunAgrees
  import opened RunAnswers
  import opened RunCalls
  import opened RunTheorem

  // ---- functions of one block ----

  ghost predicate Single(f: Function) {
    && |f.blocks| == 1 && f.blocks[0].preds == [] && f.blocks[0].succs == [] && !EndsInBranch(f, 0)
    && (forall i :: 0 <= i < |f.blocks[0].instrs| ==> !f.blocks[0].instrs[i].Phi?)
    && StrictSsa(f) && WellTyped(f)
  }

  const ALONE: Graph := [[]]

  /** The run that has only just arrived. */
  ghost function Arrived(m: Machine, f: Function, cs: Contracts, s: State): Setting {
    Setting(m, f, cs, ALONE, [true], [0], Run([0], [[s]], None))
  }

  lemma AloneReaches(b: nat)
    ensures Reaches(ALONE, 0, b) <==> b == 0
  {
    if Reaches(ALONE, 0, b) {
      ReachesInRange(ALONE, 0, b);
    }
    ReachesSelf(ALONE, 0);
  }

  lemma AloneCut()
    ensures CutsBackEdges(ALONE, ALONE) && ListsReachable(ALONE, [0]) && Forward(ALONE, [0])
  {
    forall b: nat
      ensures Reaches(ALONE, 0, b) <==> b == 0
    {
      AloneReaches(b);
    }
    assert ALONE[0] == Without(ALONE[0], Gone(ALONE, ALONE, 0));
    assert [0][0] == 0;
  }

  lemma SingleWellFormed(f: Function)
    requires Single(f)
    ensures WellFormed(f) && Successors(f) == ALONE
  {
    assert Successors(f) == ALONE;
    AloneReaches(0);
    assert WellShapedBlock(f, 0);
  }

  lemma ArrivedRuns(m: Machine, f: Function, s: State)
    requires Single(f) && Initial(f, s)
    ensures IsRun(m, f, ALONE, Run([0], [[s]], None))
  {
    var run := Run([0], [[s]], None);
    assert run.path[0] == 0 && run.states[0] == [s];
    assert Executes(m, f, run, 0);
  }

  lemma ArrivedReady(m: Machine, f: Function, cs: Contracts, s: State)
    requires Single(f) && Initial(f, s) && ContractsTrue(m, cs)
    ensures Ready(Arrived(m, f, cs, s)) && Final(Arrived(m, f, cs, s)) == s.regs
  {
    hide Single, IsRun, Initial, ContractsTrue, WellFormed, CutsBackEdges, ListsReachable, Forward;
    AloneCut();
    SingleWellFormed(f);
    ArrivedRuns(m, f, s);
    AloneReaches(0);
    var c := Arrived(m, f, cs, s);
    OrderFits(c);
  }

  // ---- what the encoding says about a call ----

  lemma {:induction false} GatedHas(f: Function, b: nat, k: Contract, cls: seq<Clause>, args: seq<ValueId>,
                                    dst: Option<ValueId>, cl: Clause)
    requires cl in cls && Usable(k, cl)
    ensures forall t :: t in GatedClause(f, b, cl, args, dst) ==> t in GatedClauses(f, b, k, cls, args, dst)
  {
    hide GatedClause;
    if cl in cls[..|cls| - 1] {
      GatedHas(f, b, k, cls[..|cls| - 1], args, dst, cl);
    }
  }

  lemma {:induction false} BlockCallHas(f: Function, cs: Contracts, b: nat, instrs: seq<Op>, i: nat)
    requires i < |instrs|
    ensures forall t :: t in CallAsserts(f, cs, b, instrs[i]) ==> t in BlockCallAsserts(f, cs, b, instrs)
  {
    hide CallAsserts;
    if i < |instrs| - 1 {
      BlockCallHas(f, cs, b, instrs[..|instrs| - 1], i);
    }
  }

  /** In an assignment of the encoding, every call of the only block keeps its callee's contract. */
  lemma ContractAsserted(c: Setting, m: Model, s: Site, g: FuncId, cl: Clause)
    requires OrderInRange(c.f, c.order) && |c.f.blocks| == 1 && IsSite(c.f, s)
    requires OpAt(c.f, s).Call? && OpAt(c.f, s).callee == Static(g) && Stated(ContractOf(c.cs, g), cl)
    requires forall t :: t in Encoded(c) ==> Holds(t, m)
    requires Bind(cl.term, TermsOf(c.f, OpAt(c.f, s).args), ResultTerms(c.f, OpAt(c.f, s).result)).Some?
    ensures Holds(Bind(cl.term, TermsOf(c.f, OpAt(c.f, s).args), ResultTerms(c.f, OpAt(c.f, s).result)).value, m)
  {
    hide Walk, TermsOf, ResultTerms, Bind, DeclarationAsserts, GuardAsserts, AllOpAsserts, ForwardAsserts, FreeVars;
    var op := OpAt(c.f, s);
    var bound := Bind(cl.term, TermsOf(c.f, op.args), ResultTerms(c.f, op.result)).value;
    BindSort(cl.term, TermsOf(c.f, op.args), ResultTerms(c.f, op.result));
    var t := Or([Not(GuardTerm(0)), bound]);
    assert t in GatedClause(c.f, 0, cl, op.args, op.result);
    var k := ContractOf(c.cs, g);
    GatedHas(c.f, 0, k, k.ensures_, op.args, op.result, cl);
    BlockCallHas(c.f, c.cs, 0, c.f.blocks[0].instrs, s.1);
    assert AllCallAsserts(c.f, c.cs, 1) == AllCallAsserts(c.f, c.cs, 0)
      + BlockCallAsserts(c.f, c.cs, 0, c.f.blocks[0].instrs);
    assert t in Encoded(c);
    EntryOn(c, m);
    PairMeaning(Not(GuardTerm(0)), bound, m);
  }

  lemma EntryOn(c: Setting, m: Model)
    requires OrderInRange(c.f, c.order) && |c.f.blocks| == 1
    requires forall t :: t in Encoded(c) ==> Holds(t, m)
    ensures Holds(GuardTerm(0), m)
  {
    hide Walk, ForwardAsserts, AllCallAsserts, AllOpAsserts, DeclarationAsserts;
    var gs := GuardAsserts(c.f, c.dag, c.reachable, 1);
    assert gs[0] in gs && gs[0] == Eq(GuardTerm(0), BoolLit(true));
    assert gs[0] in Encoded(c);
    var t := Eq(GuardTerm(0), BoolLit(true));
    assert Holds(t, m);
    assert Eval(t, m) == BoolVal(Eval(GuardTerm(0), m) == Eval(BoolLit(true), m));
  }

  // ---- a caller for any arguments and result sorts ----

  function TypeFor(s: Option<Sort>): Ty {
    match s
    case Some(BoolSort) => BoolTy
    case Some(BvSort(w)) => IntTy(w, true)
    case Some(PtrSort) => PtrTy(None, false)
    case _ => OtherTy
  }

  /** Passes its parameters on to g and extracts every result. */
  function Caller(g: FuncId, ps: seq<Option<Sort>>, rs: seq<Option<Sort>>): Function {
    var n, k := |ps|, |rs|;
    var elems := seq(k, i requires 0 <= i < k => TypeFor(rs[i]));
    Function(FirstIds(n), [], [],
             seq(n, i requires 0 <= i < n => ValueInfo(TypeFor(ps[i]), ParamKind))
             + [ValueInfo(TupleTy(elems), InstrKind)]
             + seq(k, i requires 0 <= i < k => ValueInfo(TypeFor(rs[i]), InstrKind)),
             [Block(CallerBody(g, n, k), [], [])])
  }

  function FirstIds(n: nat): seq<ValueId> {
    seq(n, (i: nat) => i)
  }

  function CallerBody(g: FuncId, n: nat, k: nat): (r: seq<Op>)
    ensures |r| == k + 2 && r[0] == Call(Some(n), Static(g), FirstIds(n)) && r[k + 1] == Return([])
    ensures forall j :: 1 <= j <= k ==> r[j] == Extract(n + j, n, j - 1)
  {
    [Call(Some(n), Static(g), FirstIds(n))] + seq(k, i requires 0 <= i < k => Extract(n + 1 + i, n, i)) + [Return([])]
  }

  lemma CallerTypes(g: FuncId, ps: seq<Option<Sort>>, rs: seq<Option<Sort>>)
    ensures var f := Caller(g, ps, rs);
            && (forall i :: 0 <= i < |ps| ==> ValueOf(f, i) == ValueInfo(TypeFor(ps[i]), ParamKind))
            && TypeOf(f, |ps|).TupleTy? && |TypeOf(f, |ps|).elems| == |rs|
            && (forall i :: 0 <= i < |rs| ==> TypeOf(f, |ps|).elems[i] == TypeFor(rs[i]))
            && (forall i :: 0 <= i < |rs| ==> ValueOf(f, |ps| + 1 + i) == ValueInfo(TypeFor(rs[i]), InstrKind))
            && ValueOf(f, |ps|).kind == InstrKind
            && (forall v :: v >= |ps| + 1 + |rs| ==> ValueOf(f, v) == ValueInfo(OtherTy, OpaqueKind))
  {
  }

  lemma CallerDefines(g: FuncId, ps: seq<Option<Sort>>, rs: seq<Option<Sort>>, s: Site, v: ValueId)
    ensures DefinesAt(Caller(g, ps, rs), s, v) <==> s.0 == 0 && s.1 <= |rs| && v == |ps| + s.1
  {
    var f := Caller(g, ps, rs);
    if IsSite(f, s) {
      var op := OpAt(f, s);
      if 0 < s.1 <= |rs| {
        assert op == CallerBody(g, |ps|, |rs|)[s.1];
      }
    }
  }

  lemma CallerSsa(g: FuncId, ps: seq<Option<Sort>>, rs: seq<Option<Sort>>)
    ensures StrictSsa(Caller(g, ps, rs))
  {
    hide DefinesAt;
    var f := Caller(g, ps, rs);
    CallerTypes(g, ps, rs);
    forall s: Site, v: ValueId
      ensures DefinesAt(f, s, v) <==> s.0 == 0 && s.1 <= |rs| && v == |ps| + s.1
    {
      CallerDefines(g, ps, rs, s, v);
    }
    forall s: Site, v: ValueId, d: Site | IsSite(f, s) && !OpAt(f, s).Phi? && v in OpReads(OpAt(f, s))
      && DefinesAt(f, d, v)
      ensures Precedes(f, d, s)
    {
      CallerReads(g, ps, rs, s, v);
    }
    forall s: Site | IsSite(f, s)
      ensures !OpAt(f, s).Phi?
    {
      CallerOps(g, ps, rs, s);
    }
  }

  lemma CallerOps(g: FuncId, ps: seq<Option<Sort>>, rs: seq<Option<Sort>>, s: Site)
    requires IsSite(Caller(g, ps, rs), s)
    ensures var op := OpAt(Caller(g, ps, rs), s);
            if s.1 == 0 then op == Call(Some(|ps|), Static(g), FirstIds(|ps|))
            else if s.1 <= |rs| then op == Extract(|ps| + s.1, |ps|, s.1 - 1)
            else op == Return([])
  {
    if 0 < s.1 <= |rs| {
      assert OpAt(Caller(g, ps, rs), s) == CallerBody(g, |ps|, |rs|)[s.1];
    }
  }

  lemma CallerReads(g: FuncId, ps: seq<Option<Sort>>, rs: seq<Option<Sort>>, s: Site, v: ValueId)
    requires IsSite(Caller(g, ps, rs), s) && v in OpReads(OpAt(Caller(g, ps, rs), s))
    ensures v < |ps| || (v == |ps| && s.1 > 0)
  {
    CallerOps(g, ps, rs, s);
  }

  ghost predicate ModelledParams(ps: seq<Option<Sort>>) {
    forall i :: 0 <= i < |ps| && ps[i].Some? ==> Modelled(ps[i].value)
  }

  lemma CallerSorts(g: FuncId, ps: seq<Option<Sort>>, rs: seq<Option<Sort>>, v: nat)
    requires ModelledParams(ps) && ModelledParams(rs)
    ensures var f := Caller(g, ps, rs);
            SortOfValue(f, v) != Some(SeqSort) && (TypeOf(f, v).IntTy? ==> TypeOf(f, v).width in {8, 16, 32, 64})
  {
    hide Caller;
    var f := Caller(g, ps, rs);
    CallerTypes(g, ps, rs);
    if v < |ps| {
      assert ValueOf(f, v) == ValueInfo(TypeFor(ps[v]), ParamKind);
    } else if |ps| < v <= |ps| + |rs| {
      var i: nat := v - |ps| - 1;
      assert ValueOf(f, |ps| + 1 + i) == ValueInfo(TypeFor(rs[i]), InstrKind);
    }
  }

  lemma CallerTyped(g: FuncId, ps: seq<Option<Sort>>, rs: seq<Option<Sort>>)
    requires ModelledParams(ps) && ModelledParams(rs)
    ensures WellTyped(Caller(g, ps, rs))
  {
    hide CallerBody, TypeFor, SortOfTy;
    var f := Caller(g, ps, rs);
    CallerTypes(g, ps, rs);
    forall v: nat
      ensures SortOfValue(f, v) != Some(SeqSort) && (TypeOf(f, v).IntTy? ==> TypeOf(f, v).width in {8, 16, 32, 64})
    {
      CallerSorts(g, ps, rs, v);
    }
    forall s: Site | IsSite(f, s) && OpAt(f, s).Extract?
      ensures TypeOf(f, OpAt(f, s).tuple).TupleTy? && OpAt(f, s).component < |rs|
      ensures TypeOf(f, OpAt(f, s).tuple).elems[OpAt(f, s).component] == TypeOf(f, OpAt(f, s).dst)
    {
      CallerOps(g, ps, rs, s);
      assert ValueOf(f, |ps| + 1 + (s.1 - 1)) == ValueInfo(TypeFor(rs[s.1 - 1]), InstrKind);
    }
  }

  lemma CallerSingle(g: FuncId, ps: seq<Option<Sort>>, rs: seq<Option<Sort>>)
    requires ModelledParams(ps) && ModelledParams(rs)
    ensures Single(Caller(g, ps, rs))
  {
    hide StrictSsa, WellTyped;
    CallerSsa(g, ps, rs);
    CallerTyped(g, ps, rs);
    var f := Caller(g, ps, rs);
    forall i | 0 <= i < |f.blocks[0].instrs|
      ensures !f.blocks[0].instrs[i].Phi?
    {
      CallerOps(g, ps, rs, (0, i));
    }
    assert f.blocks[0].instrs[|rs| + 1] == Return([]);
  }

  // ---- its terms ----

  lemma {:induction false} CallerExtract(g: FuncId, ps: seq<Option<Sort>>, rs: seq<Option<Sort>>, i: nat, j: nat)
    requires j <= |rs| + 2 && i <= MAX_CALL_RESULT_INDEX
    ensures var f := Caller(g, ps, rs);
            ExtractIn(f, CallerBody(g, |ps|, |rs|)[..j], |ps|, i)
            == if i < |rs| && i + 1 < j && TermOf(f, |ps| + 1 + i).Some? then Some(|ps| + 1 + i) else None
  {
    hide TermOf, Caller, CallerBody;
    if j > 0 {
      var body := CallerBody(g, |ps|, |rs|);
      assert body[..j][..j - 1] == body[..j - 1] && body[..j][j - 1] == body[j - 1];
      CallerExtract(g, ps, rs, i, j - 1);
    }
  }

  lemma TupleHasNoTerm(f: Function, v: ValueId)
    requires TypeOf(f, v).TupleTy?
    ensures TermOf(f, v) == None
  {
  }

  lemma CallerResult(g: FuncId, ps: seq<Option<Sort>>, rs: seq<Option<Sort>>, i: nat)
    requires i <= MAX_CALL_RESULT_INDEX
    ensures var f := Caller(g, ps, rs);
            ResultTerm(f, Some(|ps|), i) == if i < |rs| then TermOf(f, |ps| + 1 + i) else None
  {
    hide CallerBody, TypeFor, TermOf;
    var f := Caller(g, ps, rs);
    CallerTypes(g, ps, rs);
    TupleHasNoTerm(f, |ps|);
    var body := CallerBody(g, |ps|, |rs|);
    CallerExtract(g, ps, rs, i, |rs| + 2);
    assert body[..|rs| + 2] == body;
    assert ExtractOf(f, |ps|, i, 1) == ExtractIn(f, f.blocks[0].instrs, |ps|, i);
  }

  lemma CallerTerm(g: FuncId, ps: seq<Option<Sort>>, rs: seq<Option<Sort>>, i: nat)
    requires ModelledParams(ps) && ModelledParams(rs)
    ensures i < |ps| ==> TermOf(Caller(g, ps, rs), i) == if ps[i].Some? then Some(Var(Param(i), ps[i].value)) else None
    ensures i < |rs| ==>
              TermOf(Caller(g, ps, rs), |ps| + 1 + i) == if rs[i].Some?
                then Some(Var(Register(|ps| + 1 + i), rs[i].value)) else None
  {
    var f := Caller(g, ps, rs);
    CallerTypes(g, ps, rs);
    if i < |ps| {
      assert ValueOf(f, i) == ValueInfo(TypeFor(ps[i]), ParamKind);
      ParamName(f, i);
    }
    if i < |rs| {
      assert ValueOf(f, |ps| + 1 + i) == ValueInfo(TypeFor(rs[i]), InstrKind);
      OtherName(f, |ps| + 1 + i);
    }
  }

  lemma ParamName(f: Function, i: nat)
    requires i < |f.params| && forall j :: 0 <= j < |f.params| ==> f.params[j] == j
    ensures NameOf(f, i) == Param(i)
  {
    assert f.params[i] == i && i in f.params;
  }

  lemma OtherName(f: Function, v: ValueId)
    requires v !in f.params
    ensures NameOf(f, v) == Register(v)
  {
  }

  // ---- a run that has arrived with given arguments ----

  const NEVER_RETURNS := Machine((_: RVal, _: nat) => 0, (_: RVal, _: RVal) => 0,
    (_: FuncId, _: seq<RVal>, _: seq<RVal>) => false)

  function SortOfVal(v: Val): Sort {
    match v
    case BoolVal(_) => BoolSort
    case BvVal(w, _) => BvSort(w)
    case SeqVal(_, _) => SeqSort
    case _ => PtrSort
  }

  function SortsOf(args: seq<Option<Val>>): seq<Option<Sort>> {
    seq(|args|, i requires 0 <= i < |args| => if args[i].Some? then Some(SortOfVal(args[i].value)) else None)
  }

  lemma ArgSorts(args: seq<Option<Val>>)
    requires ModelledArgs(args)
    ensures ModelledParams(SortsOf(args)) && forall i :: 0 <= i < |args| && args[i].Some? ==>
        HasSort(args[i].value, SortOfVal(args[i].value))
  {
    forall i | 0 <= i < |args| && args[i].Some?
      ensures Modelled(SortOfVal(args[i].value)) && HasSort(args[i].value, SortOfVal(args[i].value))
    {
      var s :| Modelled(s) && HasSort(args[i].value, s);
    }
  }

  function ArgRegs(args: seq<Option<Val>>): Regs {
    map i: nat | i < |args| :: i := if args[i].Some? then Plain(args[i].value) else Opaque(0)
  }

  function Waiting(args: seq<Option<Val>>): State {
    State(ArgRegs(args), map[])
  }

  lemma WaitingInitial(g: FuncId, args: seq<Option<Val>>, rs: seq<Option<Sort>>)
    requires ModelledArgs(args) && ModelledParams(rs)
    ensures Initial(Caller(g, SortsOf(args), rs), Waiting(args))
  {
    hide DefinesAt, Modelled, ModelledArgs;
    var ps := SortsOf(args);
    var f := Caller(g, ps, rs);
    ArgSorts(args);
    CallerTypes(g, ps, rs);
    forall d: Site, v: ValueId | DefinesAt(f, d, v)
      ensures v !in ArgRegs(args)
    {
      CallerDefines(g, ps, rs, d, v);
    }
    forall v | v in ArgRegs(args)
      ensures HasType(ArgRegs(args)[v], TypeOf(f, v)) && ValueOf(f, v).kind == ParamKind
    {
      assert ValueOf(f, v) == ValueInfo(TypeFor(ps[v]), ParamKind);
    }
  }

  ghost function Stuck(g: FuncId, k: Contract, args: seq<Option<Val>>, rs: seq<Option<Sort>>): Setting {
    Arrived(NEVER_RETURNS, Caller(g, SortsOf(args), rs), map[g := k], Waiting(args))
  }

  lemma StuckReady(g: FuncId, k: Contract, args: seq<Option<Val>>, rs: seq<Option<Sort>>)
    requires ModelledArgs(args) && ModelledParams(rs)
    ensures Ready(Stuck(g, k, args, rs)) && Final(Stuck(g, k, args, rs)) == ArgRegs(args)
  {
    hide Single, Initial, Ready, ModelledParams, ModelledArgs;
    ArgSorts(args);
    CallerSingle(g, SortsOf(args), rs);
    WaitingInitial(g, args, rs);
    ArrivedReady(NEVER_RETURNS, Caller(g, SortsOf(args), rs), map[g := k], Waiting(args));
  }

  // ---- what an assignment makes of the call ----

  /** What the assignment makes of the results of the caller's call. */
  ghost function ResultsIn(m: Model, n: nat, rs: seq<Option<Sort>>): seq<Option<Val>> {
    seq(|rs|, i requires 0 <= i < |rs| => if rs[i].Some? then Some(Eval(Var(Register(n + 1 + i), rs[i].value), m))
      else None)
  }

  lemma CallerParams(g: FuncId, ps: seq<Option<Sort>>, rs: seq<Option<Sort>>)
    ensures var f := Caller(g, ps, rs); |f.params| == |ps| && forall i :: 0 <= i < |ps| ==> f.params[i] == i
  {
  }

  lemma ArgKnown(g: FuncId, args: seq<Option<Val>>, rs: seq<Option<Sort>>, i: nat)
    requires ModelledParams(SortsOf(args)) && ModelledParams(rs) && i < |args| && args[i].Some?
    ensures var r := RegisterModel(Caller(g, SortsOf(args), rs), ArgRegs(args));
            Param(i) in r && r[Param(i)] == args[i].value
  {
    hide ModelledParams, BlockMentions;
    var f := Caller(g, SortsOf(args), rs);
    CallerTerm(g, SortsOf(args), rs, i);
    assert f.params[i] == i;
    ParamName(f, i);
    assert f.params[i] in Mentions(f);
    assert (Param(i), SortOfValue(f, i).value) in Declared(f);
    assert Param(i) in DeclaredNames(f);
  }

  ghost predicate SortsRespected(f: Function, m: Model) {
    forall d :: d in Declared(f) ==> d.0 in m && HasSort(m[d.0], d.1)
  }

  lemma ResultSorted(g: FuncId, ps: seq<Option<Sort>>, rs: seq<Option<Sort>>, i: nat, m: Model)
    requires ModelledParams(ps) && ModelledParams(rs) && i < |rs| && rs[i].Some?
    requires SortsRespected(Caller(g, ps, rs), m)
    ensures HasSort(Eval(Var(Register(|ps| + 1 + i), rs[i].value), m), rs[i].value)
  {
    hide SortsRespected, Caller, Declared, OpValues, ModelledParams;
    var f, v := Caller(g, ps, rs), |ps| + 1 + i;
    CallerTerm(g, ps, rs, i);
    CallerSite(g, ps, rs, i);
    Mentioned(f, (0, i + 1), v);
    DeclaredSorted(f, m, (NameOf(f, v), SortOfValue(f, v).value));
  }

  lemma CallerSite(g: FuncId, ps: seq<Option<Sort>>, rs: seq<Option<Sort>>, i: nat)
    requires i < |rs|
    ensures var f := Caller(g, ps, rs); IsSite(f, (0, i + 1)) && |ps| + 1 + i in OpValues(OpAt(f, (0, i + 1)))
  {
    CallerOps(g, ps, rs, (0, i + 1));
  }

  lemma DeclaredSorted(f: Function, m: Model, d: (Name, Sort))
    requires SortsRespected(f, m) && d in Declared(f)
    ensures d.0 in m && HasSort(m[d.0], d.1)
  {
  }

  lemma ResultsFit(g: FuncId, ps: seq<Option<Sort>>, rs: seq<Option<Sort>>, m: Model)
    requires ModelledParams(ps) && ModelledParams(rs) && SortsRespected(Caller(g, ps, rs), m)
    ensures FitSorts(ResultsIn(m, |ps|, rs), rs)
  {
    hide SortsRespected, Caller, ModelledParams;
    forall i | 0 <= i < |rs| && rs[i].Some?
      ensures HasSort(ResultsIn(m, |ps|, rs)[i].value, rs[i].value)
    {
      ResultSorted(g, ps, rs, i, m);
    }
  }

  lemma ResultsHave(g: FuncId, ps: seq<Option<Sort>>, rs: seq<Option<Sort>>, m: Model)
    requires ModelledParams(ps) && ModelledParams(rs)
    ensures TermsHave(ResultTerms(Caller(g, ps, rs), Some(|ps|)),
        Padded(ResultsIn(m, |ps|, rs), MAX_CALL_RESULT_INDEX + 1), m)
  {
    hide Caller, ModelledParams;
    var f := Caller(g, ps, rs);
    var ts := ResultTerms(f, Some(|ps|));
    forall i | 0 <= i < |ts| && ts[i].Some?
      ensures Padded(ResultsIn(m, |ps|, rs), MAX_CALL_RESULT_INDEX + 1)[i] == Some(Eval(ts[i].value, m))
    {
      CallerResult(g, ps, rs, i);
      CallerTerm(g, ps, rs, i);
    }
  }

  // ---- bound exactly where it can be evaluated ----

  /** Where there is a value there is a term of its sort. */
  ghost predicate TermsFor(ts: seq<Option<Term>>, vs: seq<Option<Val>>) {
    forall i :: 0 <= i < |vs| && vs[i].Some? ==> i < |ts| && ts[i].Some? && HasSort(vs[i].value, SortOf(ts[i].value))
  }

  lemma SortUnique(v: Val, s: Sort, s': Sort)
    requires HasSort(v, s) && HasSort(v, s')
    ensures s == s'
  {
  }

  lemma EvaluableBinds(t: Term, args: seq<Option<Term>>, results: seq<Option<Term>>, argVals: seq<Option<Val>>,
                       resultVals: seq<Option<Val>>)
    requires TermsFor(args, argVals) && TermsFor(results, resultVals) && Evaluable(t, Interface(argVals, resultVals))
    ensures Bind(t, args, results).Some?
  {
    hide HasSort;
    var inner := Interface(argVals, resultVals);
    forall v | v in FreeVars(t)
      ensures BindingOf(v.0, args, results).Some? && SortOf(BindingOf(v.0, args, results).value) == v.1
    {
      assert v.0 in inner && HasSort(inner[v.0], v.1);
      match v.0
      case Param(i) => SortUnique(inner[v.0], v.1, SortOf(args[i].value));
      case Result(i) => SortUnique(inner[v.0], v.1, SortOf(results[i].value));
      case _ =>
    }
    SubstituteSucceeds(t, Bindings(t, args, results));
  }

  /** What the assignment makes of the caller's parameters. */
  ghost function ArgsIn(m: Model, args: seq<Option<Val>>): seq<Option<Val>> {
    seq(|args|, i requires 0 <= i < |args| => if args[i].Some?
      then Some(Eval(Var(Param(i), SortOfVal(args[i].value)), m)) else None)
  }

  lemma ArgSorted(g: FuncId, args: seq<Option<Val>>, rs: seq<Option<Sort>>, i: nat, m: Model)
    requires ModelledParams(SortsOf(args)) && ModelledParams(rs) && i < |args| && args[i].Some?
    requires SortsRespected(Caller(g, SortsOf(args), rs), m)
    ensures HasSort(ArgsIn(m, args)[i].value, SortOfVal(args[i].value))
  {
    hide SortsRespected, ModelledParams, BlockMentions;
    var f := Caller(g, SortsOf(args), rs);
    CallerTerm(g, SortsOf(args), rs, i);
    assert f.params[i] == i;
    ParamName(f, i);
    assert f.params[i] in Mentions(f);
    DeclaredSorted(f, m, (NameOf(f, i), SortOfValue(f, i).value));
  }

  lemma ArgTermsFor(g: FuncId, args: seq<Option<Val>>, rs: seq<Option<Sort>>, m: Model)
    requires ModelledParams(SortsOf(args)) && ModelledParams(rs) && SortsRespected(Caller(g, SortsOf(args), rs), m)
    ensures var ts := TermsOf(Caller(g, SortsOf(args), rs), Caller(g, SortsOf(args), rs).params);
            TermsHave(ts, ArgsIn(m, args), m) && TermsFor(ts, ArgsIn(m, args))
  {
    hide ModelledParams, SortsRespected, Caller;
    var f := Caller(g, SortsOf(args), rs);
    CallerParams(g, SortsOf(args), rs);
    forall i | 0 <= i < |args|
      ensures TermOf(f, i) == if args[i].Some? then Some(Var(Param(i), SortOfVal(args[i].value))) else None
      ensures args[i].Some? ==> HasSort(ArgsIn(m, args)[i].value, SortOfVal(args[i].value))
    {
      CallerTerm(g, SortsOf(args), rs, i);
      if args[i].Some? {
        ArgSorted(g, args, rs, i, m);
      }
    }
  }

  lemma ResultTermsFor(g: FuncId, ps: seq<Option<Sort>>, rs: seq<Option<Sort>>, m: Model)
    requires ModelledParams(ps) && ModelledSorts(rs) && ModelledParams(rs) && FitSorts(ResultsIn(m, |ps|, rs), rs)
    ensures TermsFor(ResultTerms(Caller(g, ps, rs), Some(|ps|)), ResultsIn(m, |ps|, rs))
  {
    hide ModelledParams, Caller;
    var f := Caller(g, ps, rs);
    forall i | 0 <= i < |rs| && rs[i].Some?
      ensures ResultTerm(f, Some(|ps|), i).Some? && SortOf(ResultTerm(f, Some(|ps|), i).value) == rs[i].value
    {
      CallerResult(g, ps, rs, i);
      CallerTerm(g, ps, rs, i);
    }
  }

  /** An assignment of the encoding answers the contract for the arguments it gives. */
  lemma StuckAnswers(g: FuncId, k: Contract, args: seq<Option<Val>>, rs: seq<Option<Sort>>, m: Model)
    requires ModelledArgs(args) && ModelledSorts(rs) && Ready(Stuck(g, k, args, rs))
    requires SortsRespected(Caller(g, SortsOf(args), rs), m) && forall t :: t in Encoded(Stuck(g, k, args, rs)) ==>
        Holds(t, m)
    ensures Answered(k, ArgsIn(m, args), rs, ResultsIn(m, |args|, rs))
  {
    hide Ready, ModelledArgs, ModelledParams, Encoded, Caller, TermsHave, TermsFor, SortsRespected, ArgsIn, ResultsIn;
    var ps := SortsOf(args);
    ArgSorts(args);
    SortsAre(rs);
    ResultsFit(g, ps, rs, m);
    ResultsHave(g, ps, rs, m);
    ArgTermsFor(g, args, rs, m);
    ResultTermsFor(g, ps, rs, m);
    forall cl | Stated(k, cl)
      ensures ClauseMet(cl, ArgsIn(m, args), ResultsIn(m, |args|, rs))
    {
      StuckClause(g, k, args, rs, m, cl, ArgsIn(m, args));
    }
  }

  lemma SortsAre(rs: seq<Option<Sort>>)
    requires ModelledSorts(rs)
    ensures ModelledParams(rs)
  {
  }

  lemma StuckClause(g: FuncId, k: Contract, args: seq<Option<Val>>, rs: seq<Option<Sort>>, m: Model, cl: Clause,
                    vals: seq<Option<Val>>)
    requires Ready(Stuck(g, k, args, rs)) && forall t :: t in Encoded(Stuck(g, k, args, rs)) ==> Holds(t, m)
    requires Stated(k, cl)
    requires var f := Caller(g, SortsOf(args), rs);
             && TermsHave(TermsOf(f, f.params), vals, m) && TermsFor(TermsOf(f, f.params), vals)
             && TermsHave(ResultTerms(f, Some(|args|)), Padded(ResultsIn(m, |args|, rs), MAX_CALL_RESULT_INDEX + 1), m)
             && TermsFor(ResultTerms(f, Some(|args|)), ResultsIn(m, |args|, rs))
    ensures ClauseMet(cl, vals, ResultsIn(m, |args|, rs))
  {
    hide TermsHave, TermsFor, Encoded, TermsOf, ResultTerms, Bind, Holds, ResultsIn, Evaluable;
    var c := Stuck(g, k, args, rs);
    var f := c.f;
    var results := ResultsIn(m, |args|, rs);
    if Evaluable(cl.term, Interface(vals, results)) {
      EvaluableBinds(cl.term, TermsOf(f, f.params), ResultTerms(f, Some(|args|)), vals, results);
      assert OpAt(f, (0, 0)) == Call(Some(|args|), Static(g), f.params);
      ContractAsserted(c, m, (0, 0), g, cl);
      var padded := Padded(results, MAX_CALL_RESULT_INDEX + 1);
      BindEval(cl.term, TermsOf(f, f.params), ResultTerms(f, Some(|args|)), vals, padded, m);
      PaddedInterface(vals, results, MAX_CALL_RESULT_INDEX + 1);
      SameTruth(cl.term, Bind(cl.term, TermsOf(f, f.params), ResultTerms(f, Some(|args|))).value, m,
        Interface(vals, results));
    }
  }

  lemma SameTruth(t: Term, u: Term, m: Model, inner: Model)
    requires Holds(u, m) && Eval(u, m) == Eval(t, inner)
    ensures Holds(t, inner)
  {
  }

  // ---- conjuncts that pin the arguments down ----

  function ParamVar(args: seq<Option<Val>>, i: nat): Term
    requires i < |args| && args[i].Some?
  {
    Var(Param(i), SortOfVal(args[i].value))
  }

  /** The argument's value; of an address only that it is not nil. */
  function Pin(args: seq<Option<Val>>, i: nat): Term
    requires i < |args| && args[i].Some?
  {
    var x := ParamVar(args, i);
    match args[i].value
    case BoolVal(b) => if b then x else Not(x)
    case BvVal(w, n) => Eq(x, BvLit(w, n))
    case NilPtr => IsNil(x)
    case AddrPtr(_) => Not(IsNil(x))
    case SeqVal(_, _) => BoolLit(true)
  }

  /** Which addresses are the same. */
  function PairPin(args: seq<Option<Val>>, i: nat, j: nat): Term
    requires i < |args| && j < |args| && args[i].Some? && args[j].Some?
  {
    var e := Eq(ParamVar(args, i), ParamVar(args, j));
    if args[i] == args[j] then e else Not(e)
  }

  function PairPins(args: seq<Option<Val>>, i: nat, j: nat): seq<Term>
    requires i < |args| && j <= |args| && args[i].Some?
  {
    if j == 0 then []
    else PairPins(args, i, j - 1) + if args[j - 1].Some? && args[j - 1].value.AddrPtr? then [PairPin(args, i, j - 1)]
      else []
  }

  function Pins(args: seq<Option<Val>>, n: nat): seq<Term>
    requires n <= |args|
  {
    if n == 0 then []
    else
      Pins(args, n - 1)
      + (if args[n - 1].Some? then [Pin(args, n - 1)] else [])
      + if args[n - 1].Some? && args[n - 1].value.AddrPtr? then PairPins(args, n - 1, |args|) else []
  }

  lemma {:induction false} PairPinIn(args: seq<Option<Val>>, i: nat, j: nat, n: nat)
    requires i < |args| && j < n <= |args| && args[i].Some? && args[j].Some? && args[j].value.AddrPtr?
    ensures PairPin(args, i, j) in PairPins(args, i, n)
  {
    hide PairPin;
    if j < n - 1 {
      PairPinIn(args, i, j, n - 1);
    }
  }

  lemma {:induction false} PinIn(args: seq<Option<Val>>, i: nat, n: nat)
    requires i < n <= |args| && args[i].Some?
    ensures Pin(args, i) in Pins(args, n)
    ensures args[i].value.AddrPtr? ==> forall t :: t in PairPins(args, i, |args|) ==> t in Pins(args, n)
  {
    hide Pin, PairPins;
    if i < n - 1 {
      PinIn(args, i, n - 1);
    }
  }

  /** A model with the arguments' own values. */
  ghost predicate HasArgs(args: seq<Option<Val>>, m: Model) {
    forall i: nat :: i < |args| && args[i].Some? ==> Param(i) in m && m[Param(i)] == args[i].value
  }

  ghost predicate TrueOfArgs(t: Term, m: Model) {
    Holds(t, m) && forall x :: x in FreeVars(t) ==> x.0 in m
  }

  lemma PairPinValue(args: seq<Option<Val>>, i: nat, j: nat, m: Model)
    requires i < |args| && j < |args| && args[i].Some? && args[j].Some?
    ensures Holds(PairPin(args, i, j), m)
        <==> ((Eval(ParamVar(args, i), m) == Eval(ParamVar(args, j), m)) <==> args[i] == args[j])
    ensures HasArgs(args, m) ==> TrueOfArgs(PairPin(args, i, j), m)
  {
    var x, y := ParamVar(args, i), ParamVar(args, j);
    assert Eval(Eq(x, y), m) == BoolVal(Eval(x, m) == Eval(y, m));
    assert FreeVars(Eq(x, y)) == FreeVars(x) + FreeVars(y) && FreeVars(Not(Eq(x, y))) == FreeVars(Eq(x, y));
  }

  lemma PinValue(args: seq<Option<Val>>, i: nat, m: Model)
    requires i < |args| && args[i].Some?
    ensures var v := Eval(ParamVar(args, i), m);
            Holds(Pin(args, i), m) <==>
              match args[i].value
              case BoolVal(b) => if b then v == BoolVal(true) else v != BoolVal(true)
              case AddrPtr(_) => v != NilPtr
              case SeqVal(_, _) => true
              case w => v == w
    ensures HasArgs(args, m) ==> TrueOfArgs(Pin(args, i), m)
  {
    var x := ParamVar(args, i);
    assert Eval(Not(x), m) == BoolVal(Eval(x, m) != BoolVal(true)) && FreeVars(Not(x)) == FreeVars(x);
    assert Eval(IsNil(x), m) == BoolVal(Eval(x, m) == NilPtr) && FreeVars(IsNil(x)) == FreeVars(x);
    assert Eval(Not(IsNil(x)), m) == BoolVal(Eval(x, m) != NilPtr) && FreeVars(Not(IsNil(x))) == FreeVars(x);
    if args[i].value.BvVal? {
      var l := BvLit(args[i].value.width, args[i].value.n);
      assert Eval(Eq(x, l), m) == BoolVal(Eval(x, m) == Eval(l, m)) && FreeVars(Eq(x, l)) == FreeVars(x) + FreeVars(l);
    }
  }

  lemma {:induction false} PairPinsTrue(args: seq<Option<Val>>, i: nat, n: nat, m: Model)
    requires HasArgs(args, m) && i < |args| && n <= |args| && args[i].Some? && args[i].value.AddrPtr?
    ensures forall t :: t in PairPins(args, i, n) ==> TrueOfArgs(t, m)
  {
    if n > 0 {
      PairPinsTrue(args, i, n - 1, m);
      if args[n - 1].Some? && args[n - 1].value.AddrPtr? {
        PairPinValue(args, i, n - 1, m);
      }
    }
  }

  lemma {:induction false} PinsTrue(args: seq<Option<Val>>, n: nat, m: Model)
    requires HasArgs(args, m) && n <= |args|
    ensures forall t :: t in Pins(args, n) ==> TrueOfArgs(t, m)
  {
    hide PairPins;
    if n > 0 {
      PinsTrue(args, n - 1, m);
      if args[n - 1].Some? {
        PinValue(args, n - 1, m);
        if args[n - 1].value.AddrPtr? {
          PairPinsTrue(args, n - 1, |args|, m);
        }
      }
    }
  }

  /** Where the pins hold, no term can tell the arguments from the run's. */
  lemma PinnedAlike(args: seq<Option<Val>>, m: Model)
    requires ModelledArgs(args) && forall t :: t in Pins(args, |args|) ==> Holds(t, m)
    requires forall i :: 0 <= i < |args| && args[i].Some? ==>
        HasSort(ArgsIn(m, args)[i].value, SortOfVal(args[i].value))
    ensures Alike(args, ArgsIn(m, args))
  {
    hide Pins, PairPins, ModelledArgs, Modelled, PairPin, Pin;
    ArgSorts(args);
    NoSequences(args);
    var args' := ArgsIn(m, args);
    forall i: nat | i < |args|
      ensures AlikeAt(args, args', i)
    {
      if args[i].Some? {
        PinIn(args, i, |args|);
        PinMeans(args, i, m);
      }
    }
    forall i: nat, j: nat | i < |args| && j < |args|
      ensures PairAlike(args, args', i, j)
    {
      if IsAddress(args[i]) && IsAddress(args[j]) {
        PinIn(args, i, |args|);
        PairPinIn(args, i, j, |args|);
        PairPinValue(args, i, j, m);
      }
    }
  }

  lemma PinMeans(args: seq<Option<Val>>, i: nat, m: Model)
    requires i < |args| && args[i].Some? && Holds(Pin(args, i), m)
    requires HasSort(args[i].value, SortOfVal(args[i].value)) && !args[i].value.SeqVal?
    requires HasSort(ArgsIn(m, args)[i].value, SortOfVal(args[i].value))
    ensures AlikeAt(args, ArgsIn(m, args), i)
  {
    hide Pin;
    PinValue(args, i, m);
  }

  lemma NoSequences(args: seq<Option<Val>>)
    requires ModelledArgs(args)
    ensures forall i :: 0 <= i < |args| && args[i].Some? ==> !args[i].value.SeqVal?
  {
  }

  // ---- the condition is exact ----

  lemma NoContractAnswerable()
    ensures Answerable(NO_CONTRACT)
  {
    NonNilAnswers(NO_CONTRACT);
  }

  /** A visited block and conjuncts that are about the run's registers and true of them. */
  ghost predicate TrueThere(c: Setting, b: nat, extra: seq<Term>)
    requires Ready(c)
  {
    b in c.run.path && forall t :: t in extra ==> TrueOfArgs(t, RegisterModel(c.f, Final(c)))
  }

  /** What is true of the run cannot be refuted. */
  ghost predicate Spoken(c: Setting)
    requires Ready(c)
  {
    forall b: nat, extra: seq<Term> :: TrueThere(c, b, extra) ==> Satisfiable(ReachQuery(c.f, Encoded(c), b, extra))
  }

  lemma CoveredIsSpoken(c: Setting)
    requires Ready(c) && Covered(c)
    ensures Spoken(c)
  {
    hide IsRun, ContractsTrue, WellFormed, CutsBackEdges, ListsReachable, Forward, Models, Covered, RegisterModel,
      Encode, Declared, ModelAfter, Items, Walk;
    forall b: nat, extra: seq<Term> | TrueThere(c, b, extra)
      ensures Satisfiable(ReachQuery(c.f, Encoded(c), b, extra))
    {
      RunSatisfiesQuery(c, b, extra);
    }
  }

  /** A stuck run whose arguments have no answer is refuted although the pins are true of it. */
  lemma StuckRefuted(g: FuncId, k: Contract, args: seq<Option<Val>>, rs: seq<Option<Sort>>)
    requires ModelledArgs(args) && ModelledSorts(rs) && Ready(Stuck(g, k, args, rs)) && !HasAnswer(k, args, rs)
    ensures !Satisfiable(ReachQuery(Caller(g, SortsOf(args), rs), Encoded(Stuck(g, k, args, rs)), 0,
        Pins(args, |args|)))
  {
    hide IsRun, ContractsTrue, WellFormed, CutsBackEdges, ListsReachable, Forward, Walk, Encode, ModelledArgs,
      ModelledSorts, Caller, HasAnswer, Pins, Models, ReachQuery;
    var c := Stuck(g, k, args, rs);
    var q := ReachQuery(c.f, Encoded(c), 0, Pins(args, |args|));
    if Satisfiable(q) {
      var m :| Models(m, q);
      QueryParts(c, Pins(args, |args|), m);
      PinnedAnswers(g, k, args, rs, m);
    }
  }

  lemma PinnedAnswers(g: FuncId, k: Contract, args: seq<Option<Val>>, rs: seq<Option<Sort>>, m: Model)
    requires ModelledArgs(args) && ModelledSorts(rs) && Ready(Stuck(g, k, args, rs))
    requires SortsRespected(Caller(g, SortsOf(args), rs), m) && forall t :: t in Encoded(Stuck(g, k, args, rs)) ==>
        Holds(t, m)
    requires forall t :: t in Pins(args, |args|) ==> Holds(t, m)
    ensures HasAnswer(k, args, rs)
  {
    hide Ready, ModelledArgs, ModelledParams, ModelledSorts, Encoded, Caller, HasAnswer, Pins, Alike, SortsRespected,
      Answered, Holds;
    StuckAnswers(g, k, args, rs, m);
    ArgSorts(args);
    SortsAre(rs);
    forall i | 0 <= i < |args| && args[i].Some?
      ensures HasSort(ArgsIn(m, args)[i].value, SortOfVal(args[i].value))
    {
      ArgSorted(g, args, rs, i, m);
    }
    PinnedAlike(args, m);
    HasAnswerFrom(k, ArgsIn(m, args), rs, ResultsIn(m, |args|, rs));
    AlikeFrom(k, args, ArgsIn(m, args), rs);
  }

  lemma AlikeFrom(k: Contract, args: seq<Option<Val>>, args': seq<Option<Val>>, rs: seq<Option<Sort>>)
    requires Alike(args, args') && HasAnswer(k, args', rs)
    ensures HasAnswer(k, args, rs)
  {
    assert args[..0] == args'[..0];
    AlikeAnswers(k, args, args', rs, 0);
  }

  lemma QueryParts(c: Setting, extra: seq<Term>, m: Model)
    requires Ready(c) && Models(m, ReachQuery(c.f, Encoded(c), 0, extra))
    ensures SortsRespected(c.f, m) && (forall t :: t in Encoded(c) ==> Holds(t, m)) && forall t :: t in extra ==>
        Holds(t, m)
  {
  }

  lemma HasAnswerFrom(k: Contract, args: seq<Option<Val>>, rs: seq<Option<Sort>>, results: seq<Option<Val>>)
    requires Answered(k, args, rs, results)
    ensures HasAnswer(k, args, rs)
  {
  }

  lemma StuckTrue(g: FuncId, k: Contract, args: seq<Option<Val>>, rs: seq<Option<Sort>>)
    requires ModelledArgs(args) && ModelledSorts(rs) && Ready(Stuck(g, k, args, rs))
        && Final(Stuck(g, k, args, rs)) == ArgRegs(args)
    ensures TrueThere(Stuck(g, k, args, rs), 0, Pins(args, |args|))
  {
    hide Ready, Final, RegisterModel, ModelledArgs, ModelledParams, Pins, TrueOfArgs, Caller;
    ArgSorts(args);
    SortsAre(rs);
    var r := RegisterModel(Caller(g, SortsOf(args), rs), ArgRegs(args));
    forall i: nat | i < |args| && args[i].Some?
      ensures Param(i) in r && r[Param(i)] == args[i].value
    {
      ArgKnown(g, args, rs, i);
    }
    PinsTrue(args, |args|, r);
    assert Stuck(g, k, args, rs).run.path[0] == 0;
  }

  lemma Unanswered(g: FuncId, k: Contract) returns (c: Setting)
    requires !Answerable(k)
    ensures Ready(c) && c.cs == map[g := k] && !Spoken(c)
  {
    hide Ready, ModelledArgs, ModelledSorts, HasAnswer, Pins, TrueThere, Satisfiable, Caller, Encoded;
    var args: seq<Option<Val>>, rs: seq<Option<Sort>> :| ModelledArgs(args) && ModelledSorts(rs)
      && !HasAnswer(k, args, rs);
    c := Stuck(g, k, args, rs);
    SortsAre(rs);
    StuckReady(g, k, args, rs);
    StuckTrue(g, k, args, rs);
    StuckRefuted(g, k, args, rs);
  }

  /**
    Refutation is conclusive for every run of every well-formed caller of g exactly when the contract
    of g can be answered.
   */
  lemma ConclusiveExactly(g: FuncId, k: Contract)
    ensures Answerable(k) <==> forall c: Setting :: Ready(c) && c.cs == map[g := k] ==> Spoken(c)
  {
    hide Ready, Answerable, Spoken, Covered;
    if Answerable(k) {
      forall c: Setting | Ready(c) && c.cs == map[g := k]
        ensures Spoken(c)
      {
        NoContractAnswerable();
        assert CallsAnswerable(c.f, c.cs);
        AnswerableCovered(c);
        CoveredIsSpoken(c);
      }
    } else {
      var c := Unanswered(g, k);
    }
  }

  lemma AnswerableCovered(c: Setting)
    requires Ready(c) && CallsAnswerable(c.f, c.cs)
    ensures Covered(c)
  {
  }

  // ---- a contract without an answer ----

  /** Reads through its parameter, then passes it to function 0. */
  const READS_FIRST := Function([0], [], [], [ValueInfo(PtrTy(None, false), ParamKind), ValueInfo(OtherTy, InstrKind)],
                                [Block([Load(1, 0), Call(None, Static(0), [0]), Return([])], [], [])])

  const PARAM_NIL := IsNil(Var(Param(0), PtrSort))

  /** A stated postcondition about a parameter only. */
  const NOT_FOR_NIL := Contract([], [Clause("ensures", Not(PARAM_NIL), Annotated)], Inferred)

  /** Function 0 returns for anything but nil, so its contract is true of it. */
  const RETURNS_UNLESS_NIL :=
    Machine((_: RVal, _: nat) => 0, (_: RVal, _: RVal) => 0,
            (_: FuncId, args: seq<RVal>, _: seq<RVal>) => |args| == 1 && args[0] != Plain(NilPtr))

  const GIVEN_NIL := State(map[0 := Plain(NilPtr)], map[])

  ghost function PanickingRun(): Setting {
    Arrived(RETURNS_UNLESS_NIL, READS_FIRST, map[0 := NOT_FOR_NIL], GIVEN_NIL)
  }

  lemma NotForNilTrue()
    ensures ContractsTrue(RETURNS_UNLESS_NIL, map[0 := NOT_FOR_NIL])
  {
    forall args: seq<RVal>, results: seq<RVal> | RETURNS_UNLESS_NIL.calls(0, args, results)
      ensures ClauseTrue(Not(PARAM_NIL), args, results)
    {
      var i := Interface(ValsIn(args), ValsIn(results));
      NotNilMeaning(i);
      if Evaluable(Not(PARAM_NIL), i) {
        assert (Param(0), PtrSort) in FreeVars(Not(PARAM_NIL));
        assert ValsIn(args)[0] == Some(args[0].v) && i[Param(0)] == args[0].v;
      }
    }
  }

  lemma NotNilMeaning(m: Model)
    ensures Holds(Not(PARAM_NIL), m) <==> !Holds(PARAM_NIL, m)
    ensures Holds(PARAM_NIL, m) <==> (Param(0) in m ==> m[Param(0)] == NilPtr)
    ensures FreeVars(Not(PARAM_NIL)) == FreeVars(PARAM_NIL) == {(Param(0), PtrSort)}
  {
    var x := Var(Param(0), PtrSort);
    assert Eval(x, m) == if Param(0) in m then m[Param(0)] else NilPtr;
    assert Eval(PARAM_NIL, m) == BoolVal(Eval(x, m) == NilPtr);
  }

  lemma ReadsFirstDefs()
    ensures forall d: Site, v: ValueId :: DefinesAt(READS_FIRST, d, v) <==> d == (0, 0) && v == 1
  {
  }

  lemma ReadsFirstReads()
    ensures forall s: Site :: IsSite(READS_FIRST, s) ==>
              && !OpAt(READS_FIRST, s).Phi? && !OpAt(READS_FIRST, s).Extract?
              && 1 !in OpReads(OpAt(READS_FIRST, s))
  {
  }

  lemma ReadsFirstTyped()
    ensures ValueOf(READS_FIRST, 0).kind == ParamKind && ValueOf(READS_FIRST, 1).kind == InstrKind
    ensures WellTyped(READS_FIRST)
  {
    hide OpReads, OpDst;
    ReadsFirstReads();
  }

  lemma ReadsFirstSingle()
    ensures Single(READS_FIRST)
  {
    hide OpReads, OpDst, DefinesAt, WellTyped;
    ReadsFirstDefs();
    ReadsFirstReads();
    ReadsFirstTyped();
    assert READS_FIRST.blocks[0].instrs[2] == Return([]);
  }

  lemma GivenNilInitial()
    ensures Initial(READS_FIRST, GIVEN_NIL)
  {
    forall d: Site
      ensures !DefinesAt(READS_FIRST, d, 0)
    {
    }
  }

  lemma PanickingReady()
    ensures Ready(PanickingRun()) && Final(PanickingRun()) == map[0 := Plain(NilPtr)]
  {
    hide Single, ContractsTrue, Ready, Final, Initial;
    ReadsFirstSingle();
    NotForNilTrue();
    GivenNilInitial();
    ArrivedReady(RETURNS_UNLESS_NIL, READS_FIRST, map[0 := NOT_FOR_NIL], GIVEN_NIL);
  }

  lemma ReadsFirstNames()
    ensures NameOf(READS_FIRST, 0) == Param(0) && TermsOf(READS_FIRST, [0]) == [Some(Var(Param(0), PtrSort))]
    ensures (Param(0), PtrSort) in Declared(READS_FIRST) && 0 in Mentions(READS_FIRST)
  {
    assert READS_FIRST.params[0] == 0;
    ParamName(READS_FIRST, 0);
    assert 0 in Mentions(READS_FIRST);
  }

  /**
    A run can reach a read through nil although the encoding refutes that the pointer is nil there:
    the block goes on to a call whose contract, true of the callee, says that the argument is not nil.
   */
  lemma PanicRefuted()
    ensures Ready(PanickingRun()) && TrueThere(PanickingRun(), 0, [PARAM_NIL])
    ensures !Satisfiable(ReachQuery(READS_FIRST, Encoded(PanickingRun()), 0, [PARAM_NIL]))
    ensures !Answerable(NOT_FOR_NIL)
  {
    hide Ready, Final, TrueThere, Satisfiable, Answerable, Encoded, Spoken;
    PanickingReady();
    PanicTrue();
    NilUnsatisfiable();
    if Answerable(NOT_FOR_NIL) {
      ConclusiveExactly(0, NOT_FOR_NIL);
      SpokenSatisfiable(PanickingRun(), 0, [PARAM_NIL]);
    }
  }

  lemma SpokenSatisfiable(c: Setting, b: nat, extra: seq<Term>)
    requires Ready(c) && Spoken(c) && TrueThere(c, b, extra)
    ensures Satisfiable(ReachQuery(c.f, Encoded(c), b, extra))
  {
    hide Ready, TrueThere, Satisfiable, Encoded;
  }

  lemma NilRegister(r: Model)
    requires r == RegisterModel(READS_FIRST, map[0 := Plain(NilPtr)])
    ensures Param(0) in r && r[Param(0)] == NilPtr
  {
    hide Declared, Mentions;
    ReadsFirstNames();
    assert Param(0) in DeclaredNames(READS_FIRST);
  }

  lemma PanicTrue()
    requires Ready(PanickingRun()) && Final(PanickingRun()) == map[0 := Plain(NilPtr)]
    ensures TrueThere(PanickingRun(), 0, [PARAM_NIL])
  {
    hide Ready, Final, RegisterModel, READS_FIRST;
    var r := RegisterModel(READS_FIRST, map[0 := Plain(NilPtr)]);
    NilRegister(r);
    NotNilMeaning(r);
    assert PanickingRun().run.path[0] == 0;
  }

  lemma NilUnsatisfiable()
    requires Ready(PanickingRun())
    ensures !Satisfiable(ReachQuery(READS_FIRST, Encoded(PanickingRun()), 0, [PARAM_NIL]))
  {
    hide IsRun, ContractsTrue, WellFormed, CutsBackEdges, ListsReachable, Forward, Walk, Encode, Declared, Models;
    var c := PanickingRun();
    var q := ReachQuery(c.f, Encoded(c), 0, [PARAM_NIL]);
    if Satisfiable(q) {
      var m :| Models(m, q);
      QueryParts(c, [PARAM_NIL], m);
      assert PARAM_NIL in [PARAM_NIL];
      NotNilMeaning(m);
      NilRefused(m);
    }
  }

  lemma NilRefused(m: Model)
    requires Ready(PanickingRun()) && forall t :: t in Encoded(PanickingRun()) ==> Holds(t, m)
    ensures Holds(Not(PARAM_NIL), m)
  {
    hide IsRun, ContractsTrue, WellFormed, CutsBackEdges, ListsReachable, Forward, Walk, Encode, Declared;
    var c := PanickingRun();
    ReadsFirstNames();
    NotNilBinds(ResultTerms(c.f, None));
    assert OpAt(c.f, (0, 1)) == Call(None, Static(0), [0]);
    ContractAsserted(c, m, (0, 1), 0, Clause("ensures", Not(PARAM_NIL), Annotated));
  }

  lemma NotNilBinds(results: seq<Option<Term>>)
    ensures Bind(Not(PARAM_NIL), [Some(Var(Param(0), PtrSort))], results) == Some(Not(PARAM_NIL))
  {
    var args := [Some(Var(Param(0), PtrSort))];
    NotNilMeaning(map[]);
    assert Bindable(Not(PARAM_NIL), args, results);
    var s := Bindings(Not(PARAM_NIL), args, results);
    assert (Param(0), PtrSort) in FreeVars(Not(PARAM_NIL));
    assert Param(0) in VarNames(Not(PARAM_NIL));
    assert Substitute(Var(Param(0), PtrSort), s) == Some(Var(Param(0), PtrSort));
    assert Substitute(PARAM_NIL, s) == Some(PARAM_NIL);
  }
}
