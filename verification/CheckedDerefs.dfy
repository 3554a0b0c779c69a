/**
  Dereferences that were survived: at an obligation, every dereference site that must have been
  executed before contributes the fact that its subject was not nil there.
 */
module CheckedDerefs {
  import opened Wrappers
  import opened Graphs
  import opened CutDag
  import opened Dominators
  import opened Terms
  import opened Ir
  import opened Summaries
  import opened Encoding
  import opened GuardTerms
  import opened Encoder
  import opened Runs
  import opened RunFacts
  import opened RunModel
  import opened RunSettled
  import opened RunAgrees
  import opened RunGuards
  import opened RunDefs
  import opened RunCalls
  import opened RunTheorem

  /** A block, an instruction of it, and the pointer it dereferences. */
  type DerefSite = (nat, nat, ValueId)

  function DerefSubject(op: Op): Option<ValueId> {
    match op
    case Load(_, addr) => Some(addr)
    case Store(addr, _) => Some(addr)
    case FieldAddr(_, base, _) => Some(base)
    case Field(_, base, _) => Some(base)
    case _ => None
  }

  /** Only values of a plain pointer type count, not those of a named one. */
  predicate PlainPointer(f: Function, v: ValueId) {
    TypeOf(f, v).PtrTy? && !TypeOf(f, v).named
  }

  predicate IsDeref(f: Function, d: DerefSite) {
    IsSite(f, (d.0, d.1)) && DerefSubject(OpAt(f, (d.0, d.1))) == Some(d.2) && PlainPointer(f, d.2)
  }

  /** All dereferences of values of a plain pointer type. */
  method DerefSites(f: Function) returns (sites: seq<DerefSite>)
    ensures forall d: DerefSite :: d in sites <==> IsDeref(f, d)
  {
    sites := [];
    for b := 0 to |f.blocks|
      invariant forall d: DerefSite :: d in sites <==> IsDeref(f, d) && d.0 < b
    {
      var instrs := f.blocks[b].instrs;
      for i := 0 to |instrs|
        invariant forall d: DerefSite :: d in sites <==> IsDeref(f, d) && (d.0 < b || (d.0 == b && d.1 < i))
      {
        match DerefSubject(instrs[i])
        case None =>
        case Some(v) =>
          if PlainPointer(f, v) {
            sites := sites + [(b, i, v)];
          }
      }
    }
  }

  /** Executed before instruction instr of the block on every path there. */
  ghost predicate Before(dag: Graph, d: DerefSite, block: nat, instr: nat) {
    (d.0 == block && d.1 < instr) || (d.0 != block && Dominates(dag, d.0, block))
  }

  /** Either the site's block was not visited or its subject is not nil. */
  function Survived(f: Function, d: DerefSite): Option<Term> {
    var t :- TermOf(f, d.2);
    var n :- MkNonNil(t);
    MkOr([Not(GuardTerm(d.0)), n])
  }

  method CheckedDerefAssumptions(ghost f: Function, ghost cs: Contracts, sites: seq<DerefSite>, enc: EncodedFunc,
                                 idom: seq<Option<nat>>, block: nat, instr: nat)
      returns (out: seq<Term>)
    requires enc.Encodes(f, cs) && ImmediateDominators(enc.dagSuccs, idom) && AcyclicFromEntry(enc.dagSuccs)
    requires block < |f.blocks| && Reaches(enc.dagSuccs, 0, block)
    requires forall d :: d in sites ==> IsDeref(f, d)
    ensures forall t :: t in out <==> exists d ::
        d in sites && Before(enc.dagSuccs, d, block, instr) && Survived(f, d) == Some(t)
  {
    hide EncodingOf, Mentions, ImmediateDominators, AcyclicFromEntry, KeptGraph, Reaches, Dominates, TermOf;
    out := [];
    assert |enc.dagSuccs| == |f.blocks|;
    for k := 0 to |sites|
      invariant forall t :: t in out <==>
                exists j ::
                  0 <= j < k && Before(enc.dagSuccs, sites[j], block, instr) && Survived(f, sites[j]) == Some(t)
    {
      var (bj, ij, subj) := sites[k];
      assert sites[k] in sites;
      var above := StrictlyDominates(idom, bj, block);
      StrictDominanceExact(enc.dagSuccs, idom, bj, block);
      SubjectMentioned(f, sites[k]);
      if (bj == block && ij < instr) || above {
        match enc.Value(subj)
        case None =>
        case Some(s) =>
          match MkNonNil(s) {
            case None =>
            case Some(nonNil) =>
              if bj < |enc.guards| {
                match MkOr([Not(enc.guards[bj]), nonNil]) {
                  case None =>
                  case Some(implied) => out := out + [implied];
                }
              }
          }
      }
    }
  }

  lemma SubjectMentioned(f: Function, d: DerefSite)
    requires IsDeref(f, d)
    ensures d.2 in Mentions(f) && d.2 in OpValues(OpAt(f, (d.0, d.1)))
  {
    hide Mentions;
    Mentioned(f, (d.0, d.1), d.2);
  }

  // ---- the assumptions are true ----

  /** The run is about to execute instruction instr of the block, or has done so. */
  ghost predicate At(run: Run, block: nat, instr: nat)
    requires |run.path| == |run.states|
  {
    exists k :: 0 <= k < |run.path| && run.path[k] == block && instr < |run.states[k]|
  }

  /** A site that comes before the point on every path has been executed. */
  lemma BeforeIsExecuted(c: Setting, d: DerefSite, block: nat, instr: nat)
    requires Ready(c) && IsDeref(c.f, d) && Before(c.dag, d, block, instr) && At(c.run, block, instr)
    ensures Executed(c.run, (d.0, d.1))
  {
    hide Exec, ContractsTrue, WellFormed, CutsBackEdges, ListsReachable, Forward;
    var k :| 0 <= k < |c.run.path| && c.run.path[k] == block && instr < |c.run.states[k]|;
    if d.0 != block {
      PathSlice(c.dag, c.run.path, 0, k);
      var p := c.run.path[0..k + 1];
      assert PathFromTo(c.dag, p, 0, block);
      var j :| 0 <= j < |p| && p[j] == d.0;
      assert HandsOver(c.f, c.run, j);
    }
  }

  /** An executed dereference found its subject not nil. */
  lemma ExecutedNotNil(c: Setting, k: nat, d: DerefSite)
    requires Ready(c) && IsDeref(c.f, d) && Ran(c, k, (d.0, d.1))
    ensures d.2 in c.run.states[k][d.1].regs && c.run.states[k][d.1].regs[d.2] != Plain(NilPtr)
  {
    hide IsRun, ContractsTrue, WellFormed, CutsBackEdges, ListsReachable, Forward;
    var s := (d.0, d.1);
    var op := OpAt(c.f, s);
    if op.Store? {
      StoreExecuted(c, k, s);
    } else {
      RanProduces(c, k, s, op.dst);
      assert d.2 in OpReads(op);
    }
  }

  lemma StoreExecuted(c: Setting, k: nat, s: Site)
    requires Ready(c) && Ran(c, k, s) && OpAt(c.f, s).Store?
    ensures OpAt(c.f, s).addr in c.run.states[k][s.1].regs && IsAddr(c.run.states[k][s.1].regs[OpAt(c.f, s).addr])
  {
    hide IsRun, ContractsTrue, WellFormed, CutsBackEdges, ListsReachable, Forward;
    assert OpAt(c.f, s).addr in OpReads(OpAt(c.f, s));
  }

  /**
    Every assumption made at a point is true of every run that gets there, finished or not: it has
    executed the site, so the subject was not nil.
   */
  lemma AssumptionsAreTrue(c: Setting, d: DerefSite, block: nat, instr: nat)
    requires Ready(c) && IsDeref(c.f, d) && Before(c.dag, d, block, instr) && At(c.run, block, instr)
    requires Survived(c.f, d).Some?
    ensures Holds(Survived(c.f, d).value, FullModel(c))
  {
    hide IsRun, ContractsTrue, WellFormed, CutsBackEdges, ListsReachable, Forward, At, Before, Walk, Items,
      ModelAfter, IsDeref, Executed, Ran, Mentions;
    BeforeIsExecuted(c, d, block, instr);
    var k := DerefRan(c, d);
    ExecutedNotNil(c, k, d);
    SubjectMentioned(c.f, d);
    OperandValue(c, k, (d.0, d.1), d.2);
    NonNilMeaning(TermOf(c.f, d.2).value, FullModel(c));
    PairMeaning(Not(GuardTerm(d.0)), MkNonNil(TermOf(c.f, d.2).value).value, FullModel(c));
  }

  lemma DerefRan(c: Setting, d: DerefSite) returns (k: nat)
    requires Ready(c) && IsDeref(c.f, d) && Executed(c.run, (d.0, d.1))
    ensures Ran(c, k, (d.0, d.1)) && k < |c.run.states| && d.1 < |c.run.states[k]| && IsSite(c.f, (d.0, d.1))
  {
    hide IsRun, ContractsTrue, WellFormed, CutsBackEdges, ListsReachable, Forward;
    RunShape(c.m, c.f, c.dag, c.run);
    k := SiteRan(c, (d.0, d.1));
  }

  /**
    So a query refuted under the assumptions is conclusive all the same: no run gets to the point
    with registers that make the other conjuncts true.
   */
  lemma AssumedRefutation(c: Setting, block: nat, instr: nat, assumed: seq<Term>, extra: seq<Term>)
    requires Ready(c) && Covered(c) && At(c.run, block, instr)
    requires forall t :: t in assumed ==>
        exists d :: IsDeref(c.f, d) && Before(c.dag, d, block, instr) && Survived(c.f, d) == Some(t)
    requires forall t, x :: t in extra && x in FreeVars(t) ==> x.0 in RegisterModel(c.f, Final(c))
    requires !Satisfiable(ReachQuery(c.f, Encoded(c), block, assumed + extra))
    ensures exists t :: t in extra && !Holds(t, RegisterModel(c.f, Final(c)))
  {
    hide IsRun, ContractsTrue, WellFormed, CutsBackEdges, ListsReachable, Forward, Walk, Items, ModelAfter, Before,
      IsDeref, Survived, Models, Satisfiable;
    if forall t :: t in extra ==> Holds(t, RegisterModel(c.f, Final(c))) {
      AssumedModel(c, block, instr, assumed, extra);
      RefutedHasNoModel(FullModel(c), ReachQuery(c.f, Encoded(c), block, assumed + extra));
    }
  }

  lemma AssumedModel(c: Setting, block: nat, instr: nat, assumed: seq<Term>, extra: seq<Term>)
    requires Ready(c) && Covered(c) && At(c.run, block, instr)
    requires forall t :: t in assumed ==>
        exists d :: IsDeref(c.f, d) && Before(c.dag, d, block, instr) && Survived(c.f, d) == Some(t)
    requires forall t, x :: t in extra && x in FreeVars(t) ==> x.0 in RegisterModel(c.f, Final(c))
    requires forall t :: t in extra ==> Holds(t, RegisterModel(c.f, Final(c)))
    ensures Models(FullModel(c), ReachQuery(c.f, Encoded(c), block, assumed + extra))
  {
    hide IsRun, ContractsTrue, WellFormed, CutsBackEdges, ListsReachable, Forward, Walk, Items, ModelAfter, Before,
      IsDeref, Survived;
    RunSatisfiesEncoding(c);
    var k :| 0 <= k < |c.run.path| && c.run.path[k] == block;
    VisitedOn(c, k);
    forall t | t in assumed
      ensures Holds(t, FullModel(c))
    {
      var d :| IsDeref(c.f, d) && Before(c.dag, d, block, instr) && Survived(c.f, d) == Some(t);
      AssumptionsAreTrue(c, d, block, instr);
    }
    forall t | t in extra
      ensures Holds(t, FullModel(c))
    {
      TermOfRun(c, t);
    }
  }

  /** What is assumed of a site says that its subject is not nil wherever its block is on, no more and no less. */
  lemma SurvivedMeaning(f: Function, d: DerefSite, m: Model)
    requires SortOfValue(f, d.2) == Some(PtrSort) && NameOf(f, d.2) in m
    ensures Survived(f, d).Some?
    ensures Holds(Survived(f, d).value, m) <==> (Holds(GuardTerm(d.0), m) ==> m[NameOf(f, d.2)] != NilPtr)
  {
    hide NameOf;
    var x := TermOf(f, d.2).value;
    assert Eval(IsNil(x), m) == BoolVal(m[NameOf(f, d.2)] == NilPtr);
    assert Eval(Not(IsNil(x)), m) == BoolVal(Eval(IsNil(x), m) != BoolVal(true));
    PairMeaning(Not(GuardTerm(d.0)), Not(IsNil(x)), m);
  }

  // ---- which instructions need a pointer ----

  /** No machine executes the instruction, in any body, with nil for the pointer. */
  ghost predicate NeedsPointer(op: Op, v: ValueId) {
    forall m: Machine, f: Function, b: nat, from: Option<nat>, s: State, s': State ::
      b < |f.blocks| && PlainPointer(f, v) && Exec(m, f, b, from, op, s, s') && v in s.regs ==>
        s.regs[v] != Plain(NilPtr)
  }

  /** A body in which the register is a plain pointer and nothing is known of any other. */
  function BareBody(op: Op, v: ValueId): Function {
    Function([], [], [], seq(v + 1, i => ValueInfo(if i == v then PtrTy(None, false) else OtherTy, InstrKind)),
             [Block([op], if op.Phi? then seq(|op.edges|, j requires 0 <= j < |op.edges| => j) else [], [])])
  }

  /** A state with nil in the register and an address in all others. */
  function NilState(op: Op, v: ValueId): State {
    State(map x | x in OpReads(op) :: if x == v then Plain(NilPtr) else Plain(AddrPtr(0)), map[])
  }

  function AnyMachine(): Machine {
    Machine((r: RVal, n: nat) => 0, (r: RVal, i: RVal) => 0, (c: FuncId, args: seq<RVal>, results: seq<RVal>) => true)
  }

  lemma BareTypes(op: Op, v: ValueId)
    ensures PlainPointer(BareBody(op, v), v)
    ensures forall x: ValueId :: x != v ==> TypeOf(BareBody(op, v), x) == OtherTy
  {
  }

  /** What the instruction may leave in its destination there. */
  function Left(op: Op, v: ValueId): RVal {
    match op
    case IndexAddr(_, _, _) => Plain(AddrPtr(0))
    case BinOp(_, k, _, _) => Plain(BoolVal(k == EqK))
    case _ => Plain(NilPtr)
  }

  lemma StoreGoes(op: Op, v: ValueId)
    requires op.Store? && v == op.val && v != op.addr
    ensures !NeedsPointer(op, v)
  {
    var f, m, s := BareBody(op, v), AnyMachine(), NilState(op, v);
    BareTypes(op, v);
    StoreReads(op);
    var s' := s.(heap := s.heap[s.regs[op.addr].v.addr := s.regs[op.val]]);
    assert Exec(m, f, 0, None, op, s, s');
  }

  lemma CallReturns(op: Op, v: ValueId)
    requires op.Call? && op.callee.Static?
    ensures forall args :: AnyMachine().calls(op.callee.func, args, [Plain(NilPtr)])
  {
  }

  lemma GoesThrough(op: Op, v: ValueId, d: ValueId, from: Option<nat>)
    requires OpDst(op) == Some(d) && d != v && v in OpReads(op)
    requires Produces(AnyMachine(), BareBody(op, v), 0, from, op, NilState(op, v), Left(op, v))
    ensures !NeedsPointer(op, v)
  {
    hide Produces, OpReads, OpDst;
    var f, m, s, r := BareBody(op, v), AnyMachine(), NilState(op, v), Left(op, v);
    BareTypes(op, v);
    var s' := s.(regs := s.regs[d := r]);
    assert HasType(r, OtherTy);
    assert Exec(m, f, 0, from, op, s, s') by { DefinesExec(m, f, 0, from, op, d, s, s'); }
    assert s.regs[v] == Plain(NilPtr);
  }

  lemma DefinesExec(m: Machine, f: Function, b: nat, from: Option<nat>, op: Op, d: ValueId, s: State, s': State)
    requires b < |f.blocks| && Available(op, s.regs) && OpDst(op) == Some(d) && Defines(m, f, b, from, op, d, s, s')
    ensures Exec(m, f, b, from, op, s, s')
  {
    hide Defines, Available;
  }

  lemma PhiGoes(op: Op, v: ValueId)
    requires op.Phi? && v in op.edges && op.dst != v
    ensures !NeedsPointer(op, v)
  {
    hide NeedsPointer;
    var j :| 0 <= j < |op.edges| && op.edges[j] == v;
    assert BareBody(op, v).blocks[0].preds[j] == j;
    GoesThrough(op, v, op.dst, Some(j));
  }

  lemma CallGoes(op: Op, v: ValueId, d: ValueId)
    requires op.Call? && v in OpReads(op) && op.result == Some(d) && d != v
    ensures !NeedsPointer(op, v)
  {
    hide NeedsPointer, OpReads, HasType;
    BareTypes(op, v);
    if op.callee.Static? {
      CallReturns(op, v);
      assert Packs(TypeOf(BareBody(op, v), d), [Plain(NilPtr)], Plain(NilPtr));
    }
    GoesThrough(op, v, d, None);
  }

  lemma OperationGoes(op: Op, v: ValueId)
    requires op.BinOp? && v in OpReads(op) && op.dst != v
    ensures !NeedsPointer(op, v)
  {
    hide NeedsPointer, HasType, IntResult;
    BareTypes(op, v);
    GoesThrough(op, v, op.dst, None);
  }

  /** An instruction that defines something else goes through with nil in the register. */
  lemma DefinitionGoes(op: Op, v: ValueId, d: ValueId)
    requires v in OpReads(op) && OpDst(op) == Some(d) && d != v && !op.Extract? && DerefSubject(op) != Some(v)
    ensures !NeedsPointer(op, v)
  {
    hide NeedsPointer, HasType, BinResult, Packs;
    if op.Phi? {
      PhiGoes(op, v);
    } else if op.Call? {
      CallGoes(op, v, d);
    } else if op.BinOp? {
      OperationGoes(op, v);
    } else {
      BareTypes(op, v);
      GoesThrough(op, v, d, None);
    }
  }

  lemma NilGoesThrough(op: Op, v: ValueId)
    requires v in OpReads(op) && OpDst(op) != Some(v) && !op.Extract? && DerefSubject(op) != Some(v)
    ensures !NeedsPointer(op, v)
  {
    hide NeedsPointer;
    if op.Store? {
      StoreGoes(op, v);
    } else if OpDst(op).Some? {
      DefinitionGoes(op, v, OpDst(op).value);
    } else {
      RestGoes(op, v);
    }
  }

  lemma RestGoes(op: Op, v: ValueId)
    requires v in OpReads(op) && OpDst(op).None? && !op.Store?
    ensures !NeedsPointer(op, v)
  {
    var f, m, s := BareBody(op, v), AnyMachine(), NilState(op, v);
    BareTypes(op, v);
    if op.Call? && op.callee.Static? {
      CallReturns(op, v);
      assert m.calls(op.callee.func, ArgValues(s.regs, op.args), [Plain(NilPtr)]);
    }
    assert Exec(m, f, 0, None, op, s, s);
  }

  /**
    The sites are exactly the instructions that need the pointer they read: nil there goes through
    nowhere, and through any other instruction somewhere.
   */
  lemma NeedsExactly(op: Op, v: ValueId)
    requires v in OpReads(op) && OpDst(op) != Some(v) && !op.Extract?
    ensures DerefSubject(op) == Some(v) <==> NeedsPointer(op, v)
  {
    hide OpReads;
    if DerefSubject(op) != Some(v) {
      NilGoesThrough(op, v);
    }
  }

  lemma StoreReads(op: Op)
    requires op.Store?
    ensures op.addr in OpReads(op) && op.val in OpReads(op)
  {
  }
}
