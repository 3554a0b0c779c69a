/**
  What a function does when it runs: a step semantics over registers and a heap, and the runs that
  follow kept edges only, so that loops are seen up to the point where they would repeat. Calls do
  not write memory; an instruction with unknown effect may change all of it.
 */
module Runs {
  import opened Wrappers
  import opened MachineInts
  import opened Graphs
  import opened Dominators
  import opened Terms
  import opened Ir
  import opened Summaries
  import opened Encoding
  import opened GuardTerms

  // ---- runtime values ----

  datatype RVal = Plain(v: Val) | Tuple(parts: seq<RVal>) | Opaque(id: int)

  ghost predicate HasType(r: RVal, t: Ty) {
    match SortOfTy(t)
    case Some(s) => r.Plain? && HasSort(r.v, s)
    case None =>
      t.TupleTy? ==> r.Tuple? && |r.parts| == |t.elems| && forall i :: 0 <= i < |r.parts| ==>
        HasType(r.parts[i], t.elems[i])
  }

  function ValIn(r: RVal): Option<Val> {
    if r.Plain? then Some(r.v) else None
  }

  function ValsIn(rs: seq<RVal>): seq<Option<Val>> {
    seq(|rs|, i requires 0 <= i < |rs| => ValIn(rs[i]))
  }

  type Regs = map<ValueId, RVal>

  datatype State = State(regs: Regs, heap: map<nat, RVal>)

  /** What the semantics leaves open: where fields and elements live, and what each callee may return. */
  datatype Machine = Machine(fieldAddr: (RVal, nat) -> nat, indexAddr: (RVal, RVal) -> nat,
    calls: (FuncId, seq<RVal>, seq<RVal>) -> bool)

  // ---- Go's arithmetic ----

  /** The result of an integer operation, None when it panics. */
  function IntResult(k: BinOpKind, w: nat, s: bool, x: nat, y: nat, countSigned: bool): Option<Val> {
    var a, b := Reading(w, s, x), Reading(w, s, y);
    match k
    case AddOp => Some(BvVal(w, Wrap(w, a + b)))
    case SubOp => Some(BvVal(w, Wrap(w, a - b)))
    case MulOp => Some(BvVal(w, Wrap(w, a * b)))
    case DivOp => if b == 0 then None else Some(BvVal(w, Wrap(w, TruncDiv(a, b))))
    case RemOp => if b == 0 then None else Some(BvVal(w, Wrap(w, TruncRem(a, b))))
    case AndK => Some(BvVal(w, Bitwise(AndBits, w, x, y)))
    case OrK => Some(BvVal(w, Bitwise(OrBits, w, x, y)))
    case XorK => Some(BvVal(w, Bitwise(XorBits, w, x, y)))
    case AndNotK => Some(BvVal(w, Bitwise(AndBits, w, x, Wrap(w, 0 - b - 1))))
    case ShlK => if Reading(w, countSigned, y) < 0 then None
      else Some(BvVal(w, Wrap(w, a * Pow2(Reading(w, countSigned, y)))))
    case ShrK => if Reading(w, countSigned, y) < 0 then None
      else Some(BvVal(w, Wrap(w, Floor(a, Pow2(Reading(w, countSigned, y))))))
    case LtK => Some(BoolVal(a < b))
    case LeqK => Some(BoolVal(a <= b))
    case GtK => Some(BoolVal(a > b))
    case GeqK => Some(BoolVal(a >= b))
    case EqK => Some(BoolVal(a == b))
    case NeqK => Some(BoolVal(a != b))
  }

  function UnResult(k: UnOpKind, ty: Ty, x: Val): Option<Val> {
    match k
    case NotK => if x.BoolVal? then Some(BoolVal(!x.b)) else None
    case NegK => if ty.IntTy? && x.BvVal?
      then Some(BvVal(ty.width, Wrap(ty.width, 0 - Reading(ty.width, ty.signed, x.n)))) else None
    case BitNotK => if ty.IntTy? && x.BvVal?
      then Some(BvVal(ty.width, Wrap(ty.width, 0 - Reading(ty.width, ty.signed, x.n) - 1))) else None
  }

  ghost predicate BinResult(k: BinOpKind, lt: Ty, rt: Ty, x: RVal, y: RVal, r: RVal) {
    if (k == EqK || k == NeqK) then
      SortOfTy(lt).Some? && SortOfTy(lt) == SortOfTy(rt) ==> r == Plain(BoolVal((x == y) == (k == EqK)))
    else
      lt.IntTy? && rt.IntTy? && rt.width == lt.width && x.Plain? && x.v.BvVal? && y.Plain? && y.v.BvVal? ==>
        r.Plain? && IntResult(k, lt.width, lt.signed, x.v.n, y.v.n, rt.signed) == Some(r.v)
  }

  // ---- steps ----

  function ConstMeaning(c: ConstVal, ty: Ty): Option<Val> {
    match c
    case BoolConst(b) => if ty == BoolTy then Some(BoolVal(b)) else None
    case IntConst(i) => if ty.IntTy? then Some(BvVal(ty.width, Wrap(ty.width, i))) else None
    case NilConst => if SortOfTy(ty) == Some(PtrSort) then Some(NilPtr) else None
    case _ => None
  }

  /** What executing an instruction may leave in its destination. */
  ghost predicate Produces(m: Machine, f: Function, block: nat, from: Option<nat>, op: Op, s: State, r: RVal)
    requires block < |f.blocks| && Available(op, s.regs)
  {
    match op
    case Assign(_, src) => r == s.regs[src]
    case Alloc(_) => r.Plain? && r.v.AddrPtr?
    case Load(_, a) => IsAddr(s.regs[a]) && s.regs[a].v.addr in s.heap && r == s.heap[s.regs[a].v.addr]
    case FieldAddr(_, b, field) => s.regs[b] != Plain(NilPtr) && r == Plain(AddrPtr(m.fieldAddr(s.regs[b], field)))
    case Field(_, b, _) => s.regs[b] != Plain(NilPtr)
    case IndexAddr(_, b, i) => r == Plain(AddrPtr(m.indexAddr(s.regs[b], s.regs[i])))
    case BinOp(_, k, x, y) => BinResult(k, TypeOf(f, x), TypeOf(f, y), s.regs[x], s.regs[y], r)
    case UnOp(_, k, x) =>
      s.regs[x].Plain? && UnResult(k, TypeOf(f, x), s.regs[x].v).Some? ==>
        r == Plain(UnResult(k, TypeOf(f, x), s.regs[x].v).value)
    case Convert(dst, x) =>
      var from, to := TypeOf(f, x), TypeOf(f, dst);
      from.IntTy? && to.IntTy? && s.regs[x].Plain? && s.regs[x].v.BvVal? ==>
        r == Plain(BvVal(to.width, Wrap(to.width, Reading(from.width, from.signed, s.regs[x].v.n))))
    case Extract(_, t, i) => s.regs[t].Tuple? && i < |s.regs[t].parts| && r == s.regs[t].parts[i]
    case Phi(_, edges) =>
      exists j :: 0 <= j < |edges| && j < |f.blocks[block].preds| && from == Some(f.blocks[block].preds[j])
             && edges[j] in s.regs && r == s.regs[edges[j]]
    case Call(d, Static(c), args) =>
      d.Some? && exists results :: m.calls(c, ArgValues(s.regs, args), results) && Packs(TypeOf(f, d.value), results, r)
    case _ => true
  }

  ghost predicate IsAddr(r: RVal) {
    r.Plain? && r.v.AddrPtr?
  }

  ghost function ArgValues(regs: Regs, args: seq<ValueId>): seq<RVal>
    requires forall a :: a in args ==> a in regs
  {
    seq(|args|, i requires 0 <= i < |args| => regs[args[i]])
  }

  /** A call's results land in its destination: one by itself, several as a tuple. */
  ghost predicate Packs(ty: Ty, results: seq<RVal>, r: RVal) {
    if ty.TupleTy? then r == Tuple(results) else |results| == 1 && r == results[0]
  }

  ghost predicate Available(op: Op, regs: Regs) {
    op.Phi? || forall v :: v in OpReads(op) ==> v in regs
  }

  /** An instruction that defines d and leaves the heap alone. */
  ghost predicate Defines(m: Machine, f: Function, block: nat, from: Option<nat>, op: Op, d: ValueId, s: State,
                          s': State)
    requires block < |f.blocks| && Available(op, s.regs)
  {
    && s'.heap == s.heap && d in s'.regs && s'.regs == s.regs[d := s'.regs[d]]
    && HasType(s'.regs[d], TypeOf(f, d))
    && Produces(m, f, block, from, op, s, s'.regs[d])
  }

  /** One instruction. */
  ghost predicate Exec(m: Machine, f: Function, block: nat, from: Option<nat>, op: Op, s: State, s': State)
    requires block < |f.blocks|
  {
    && Available(op, s.regs)
    && if op.Store? then IsAddr(s.regs[op.addr]) && s' == s.(heap := s.heap[s.regs[op.addr].v.addr := s.regs[op.val]])
       else if op == Havoc(None) then s'.regs == s.regs
       else if OpDst(op).Some? then Defines(m, f, block, from, op, OpDst(op).value, s, s')
       else s' == s && (op.Call? && op.callee.Static? ==>
         exists results :: m.calls(op.callee.func, ArgValues(s.regs, op.args), results))
  }

  // ---- well-formed functions ----

  ghost predicate DefinesAt(f: Function, s: Site, v: ValueId) {
    IsSite(f, s) && OpDst(OpAt(f, s)) == Some(v)
  }

  ghost predicate Precedes(f: Function, d: Site, s: Site) {
    if d.0 == s.0 then d.1 < s.1 else Dominates(Successors(f), d.0, s.0)
  }

  /** Strict single assignment: one definition per value, and definitions dominate uses. */
  ghost predicate StrictSsa(f: Function) {
    && (forall d: Site, d': Site, v: ValueId :: DefinesAt(f, d, v) && DefinesAt(f, d', v) ==> d == d')
    && (forall d: Site, v: ValueId :: DefinesAt(f, d, v) ==> v !in f.params && !ValueOf(f, v).kind.ConstKind?)
    && (forall v :: v in f.params ==> !ValueOf(f, v).kind.ConstKind?)
    && (forall s: Site, v: ValueId, d: Site ::
      IsSite(f, s) && !OpAt(f, s).Phi? && v in OpReads(OpAt(f, s)) && DefinesAt(f, d, v) ==> Precedes(f, d, s))
    && (forall s: Site, j: nat, d: Site ::
      IsSite(f, s) && OpAt(f, s).Phi? && j < |OpAt(f, s).edges| && DefinesAt(f, d, OpAt(f, s).edges[j]) ==>
          && j < |f.blocks[s.0].preds|
          && (d.0 == f.blocks[s.0].preds[j] || Dominates(Successors(f), d.0, f.blocks[s.0].preds[j])))
  }

  /** Forked as the guards expect, and phi operands paired with distinct predecessors. */
  ghost predicate WellShapedBlock(f: Function, b: nat)
    requires b < |f.blocks|
  {
    var blk := f.blocks[b];
    && ForkedBlock(f, b)
    && (forall p: nat :: p in blk.preds <==> Edge(Successors(f), p, b))
    && (forall i, j :: 0 <= i < j < |blk.preds| ==> blk.preds[i] != blk.preds[j])
    && (forall i :: 0 <= i < |blk.instrs| && blk.instrs[i].Phi? ==> |blk.instrs[i].edges| == |blk.preds|)
  }

  /** Control flow the guard structure is built for. */
  ghost predicate WellShaped(f: Function) {
    && |f.blocks| > 0
    && forall b: nat :: b < |f.blocks| ==> WellShapedBlock(f, b)
  }

  /** No slice- or string-typed value; components extracted from a tuple have its component types. */
  ghost predicate WellTyped(f: Function) {
    && (forall v: nat :: SortOfValue(f, v) != Some(SeqSort))
    && (forall v: nat :: TypeOf(f, v).IntTy? ==> TypeOf(f, v).width in {8, 16, 32, 64})
    && (forall s: Site :: IsSite(f, s) && OpAt(f, s).Extract? ==>
          && TypeOf(f, OpAt(f, s).tuple).TupleTy?
          && OpAt(f, s).component < |TypeOf(f, OpAt(f, s).tuple).elems|
          && TypeOf(f, OpAt(f, s).tuple).elems[OpAt(f, s).component] == TypeOf(f, OpAt(f, s).dst))
  }

  ghost predicate AllReachable(f: Function) {
    forall b: nat :: b < |f.blocks| ==> Reaches(Successors(f), 0, b)
  }

  ghost predicate WellFormed(f: Function) {
    WellShaped(f) && AllReachable(f) && StrictSsa(f) && WellTyped(f)
  }

  // ---- runs ----

  /**
    A run: the blocks visited, the states before each executed instruction and after the last one,
    and, when control left the last block, where it wanted to go.
   */
  datatype Run = Run(path: seq<nat>, states: seq<seq<State>>, next: Option<nat>)

  ghost predicate Initial(f: Function, s: State) {
    && (forall d: Site, v: ValueId :: DefinesAt(f, d, v) ==> v !in s.regs)
    && (forall v :: v in s.regs ==> HasType(s.regs[v], TypeOf(f, v)))
    && (forall v ::
          v in s.regs && ValueOf(f, v).kind.ConstKind? && ConstMeaning(ValueOf(f, v).kind.c, TypeOf(f, v)).Some? ==>
          s.regs[v] == Plain(ConstMeaning(ValueOf(f, v).kind.c, TypeOf(f, v)).value))
  }

  /** Leaving block b in state s, control goes to `to`. */
  ghost predicate Takes(f: Function, b: nat, s: State, to: nat)
    requires b < |f.blocks|
  {
    && to in f.blocks[b].succs
    && (EndsInBranch(f, b) && TermOf(f, BranchValue(f, b)).Some? ==>
          && BranchValue(f, b) in s.regs && s.regs[BranchValue(f, b)].Plain? && |f.blocks[b].succs| == 2
          && s.regs[BranchValue(f, b)].v in {BoolVal(true), BoolVal(false)}
          && to == f.blocks[b].succs[if s.regs[BranchValue(f, b)].v == BoolVal(true) then 0 else 1])
  }

  function CameFrom(run: Run, k: nat): Option<nat>
    requires k < |run.path|
  {
    if k == 0 then None else Some(run.path[k - 1])
  }

  ghost predicate Executes(m: Machine, f: Function, run: Run, k: nat)
    requires k < |run.path| == |run.states| && run.path[k] < |f.blocks|
  {
    && 1 <= |run.states[k]| <= |f.blocks[run.path[k]].instrs| + 1
    && forall i: nat {:trigger ExecutesAt(m, f, run, k, i)} :: i + 1 < |run.states[k]| ==> ExecutesAt(m, f, run, k, i)
  }

  ghost predicate ExecutesAt(m: Machine, f: Function, run: Run, k: nat, i: nat)
    requires k < |run.path| == |run.states| && run.path[k] < |f.blocks|
        && i + 1 < |run.states[k]| <= |f.blocks[run.path[k]].instrs| + 1
  {
    Exec(m, f, run.path[k], CameFrom(run, k), f.blocks[run.path[k]].instrs[i], run.states[k][i], run.states[k][i + 1])
  }

  ghost predicate HandsOver(f: Function, run: Run, k: nat)
    requires k + 1 < |run.path| == |run.states| && run.path[k] < |f.blocks|
  {
    var b, sts := run.path[k], run.states[k];
    && |sts| == |f.blocks[b].instrs| + 1
    && |run.states[k + 1]| > 0 && run.states[k + 1][0] == sts[|sts| - 1]
    && Takes(f, b, sts[|sts| - 1], run.path[k + 1])
  }

  /** A run over kept edges, possibly stopped in the middle of its last block. */
  ghost predicate IsRun(m: Machine, f: Function, dag: Graph, run: Run) {
    && |dag| == |f.blocks|
    && IsPath(dag, run.path) && run.path[0] == 0
    && |run.states| == |run.path|
    && (forall k :: 0 <= k < |run.path| ==> run.path[k] < |f.blocks|)
    && (forall k: nat {:trigger Executes(m, f, run, k)} :: k < |run.path| ==> Executes(m, f, run, k))
    && (forall k: nat {:trigger HandsOver(f, run, k)} :: k + 1 < |run.path| ==> HandsOver(f, run, k))
    && |run.states[0]| > 0 && Initial(f, run.states[0][0])
  }

  function LastBlock(run: Run): nat
    requires |run.path| > 0
  {
    run.path[|run.path| - 1]
  }

  function LastState(run: Run): State
    requires |run.path| == |run.states| > 0 && |run.states[|run.states| - 1]| > 0
  {
    var sts := run.states[|run.states| - 1];
    sts[|sts| - 1]
  }

  /** The run finished its last block, and either nothing follows or it took an edge that was cut. */
  ghost predicate Complete(f: Function, dag: Graph, run: Run)
    requires |run.path| == |run.states| > 0 && LastBlock(run) < |f.blocks| && |run.states[|run.states| - 1]| > 0
  {
    && |run.states[|run.states| - 1]| == |f.blocks[LastBlock(run)].instrs| + 1
    && match run.next
       case None => f.blocks[LastBlock(run)].succs == []
       case Some(t) => Takes(f, LastBlock(run), LastState(run), t) && !Edge(dag, LastBlock(run), t)
  }

  ghost predicate Executed(run: Run, s: Site)
    requires |run.path| == |run.states|
  {
    exists k :: 0 <= k < |run.path| && run.path[k] == s.0 && s.1 + 1 < |run.states[k]|
  }

  // ---- contracts of callees ----

  ghost predicate Evaluable(t: Term, m: Model) {
    forall v :: v in FreeVars(t) ==> v.0 in m && HasSort(m[v.0], v.1)
  }

  /** The clause is true of one call, wherever its variables have modelled values. */
  ghost predicate ClauseTrue(t: Term, args: seq<RVal>, results: seq<RVal>) {
    var i := Interface(ValsIn(args), ValsIn(results));
    Evaluable(t, i) ==> Holds(t, i)
  }

  /** Every postcondition a caller may rely on is true of everything the callee may return. */
  ghost predicate ContractsTrue(m: Machine, cs: Contracts) {
    forall c, args, results, cl ::
      c in cs && m.calls(c, args, results) && cl in cs[c].ensures_ && Usable(cs[c], cl) ==>
        ClauseTrue(cl.term, args, results)
  }
}
