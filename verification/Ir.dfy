/**
  The analyzer's SSA instruction set and lowered function bodies. Types are resolved; a pointer type
  remembers whether it had a name.
 */
module Ir {
  import opened Wrappers
  import opened Graphs
  import opened Terms

  type ValueId = nat
  type FuncId = nat

  datatype Ty =
    | IntTy(width: nat, signed: bool)
    | BoolTy
    | StrTy
    | PtrTy(arrayLen: Option<nat>, named: bool)
    | SliceTy
    | IfaceTy(isError: bool)
    | ArrayTy(len: nat)
    | TupleTy(elems: seq<Ty>)
    | OtherTy

  /** The sort a type is modelled at; None havocs. */
  function SortOfTy(t: Ty): Option<Sort> {
    match t
    case IntTy(w, _) => Some(BvSort(w))
    case BoolTy => Some(BoolSort)
    case StrTy => Some(SeqSort)
    case PtrTy(_, _) => Some(PtrSort)
    case SliceTy => Some(SeqSort)
    case IfaceTy(_) => Some(PtrSort)
    case _ => None
  }

  /** The static length behind an array or a pointer to one. */
  function ArrayLen(t: Ty): Option<nat> {
    match t
    case ArrayTy(n) => Some(n)
    case PtrTy(n, _) => n
    case _ => None
  }

  datatype ConstVal = BoolConst(b: bool) | IntConst(i: int) | NilConst | StrConst(len: nat) | OtherConst

  datatype ValueKind =
    ParamKind | FreeVarKind | ConstKind(c: ConstVal) | GlobalKind(name: string) | InstrKind | OpaqueKind

  datatype ValueInfo = ValueInfo(ty: Ty, kind: ValueKind)

  datatype BinOpKind =
    | AddOp | SubOp | MulOp | DivOp | RemOp | AndK | OrK | XorK | ShlK | ShrK | AndNotK
    | EqK | NeqK | LtK | LeqK | GtK | GeqK
  datatype UnOpKind = NegK | NotK | BitNotK
  datatype MakeKind = MakeChan | MakeMap | MakeSlice
  datatype LockKind = LockK | UnlockK | RLockK | RUnlockK

  datatype Callee = Static(func: FuncId) | Invoke | Builtin(name: string) | Dynamic(value: ValueId)

  datatype SelectArm = SelectArm(dir: nat, chan: ValueId, send: Option<ValueId>)

  datatype Op =
    | Assign(dst: ValueId, src: ValueId)
    | Alloc(dst: ValueId)
    | Load(dst: ValueId, addr: ValueId)
    | Store(addr: ValueId, val: ValueId)
    | FieldAddr(dst: ValueId, base: ValueId, field: nat)
    | Field(dst: ValueId, base: ValueId, field: nat)
    | IndexAddr(dst: ValueId, base: ValueId, index: ValueId)
    | Index(dst: ValueId, base: ValueId, index: ValueId)
    | Lookup(dst: ValueId, table: ValueId, key: ValueId)
    | SliceExpr(dst: ValueId, base: ValueId, low: Option<ValueId>, high: Option<ValueId>, max: Option<ValueId>)
    | BinOp(dst: ValueId, kind: BinOpKind, lhs: ValueId, rhs: ValueId)
    | UnOp(dst: ValueId, unKind: UnOpKind, operand: ValueId)
    | Convert(dst: ValueId, src: ValueId)
    | Extract(dst: ValueId, tuple: ValueId, component: nat)
    | Phi(dst: ValueId, edges: seq<ValueId>)
    | Call(result: Option<ValueId>, callee: Callee, args: seq<ValueId>)
    | MakeClosure(dst: ValueId, func: FuncId, bindings: seq<ValueId>)
    | MakeInterface(dst: ValueId, src: ValueId)
    | Make(dst: ValueId, makeKind: MakeKind, args: seq<ValueId>)
    | Send(chan: ValueId, val: ValueId)
    | Recv(dst: ValueId, chan: ValueId)
    | CloseChan(chan: ValueId)
    | Select(dst: ValueId, arms: seq<SelectArm>, blocking: bool)
    | Go(callee: Callee, args: seq<ValueId>)
    | Defer(callee: Callee, args: seq<ValueId>)
    | Return(vals: seq<ValueId>)
    | Jump
    | Branch(cond: ValueId)
    | Panic(val: ValueId)
    | TypeAssert(dst: ValueId, src: ValueId)
    | Lock(lockKind: LockKind, mu: ValueId)
    | Havoc(result: Option<ValueId>)

  datatype Block = Block(instrs: seq<Op>, preds: seq<nat>, succs: seq<nat>)

  datatype Function = Function(params: seq<ValueId>, freeVars: seq<ValueId>, results: seq<Ty>, values: seq<ValueInfo>,
    blocks: seq<Block>)

  /** Total lookup: ids out of range degrade to an opaque value. */
  function ValueOf(f: Function, v: ValueId): ValueInfo {
    if v < |f.values| then f.values[v] else ValueInfo(OtherTy, OpaqueKind)
  }

  function TypeOf(f: Function, v: ValueId): Ty {
    ValueOf(f, v).ty
  }

  function SortOfValue(f: Function, v: ValueId): Option<Sort> {
    SortOfTy(TypeOf(f, v))
  }

  function Successors(f: Function): Graph {
    seq(|f.blocks|, b requires 0 <= b < |f.blocks| => f.blocks[b].succs)
  }

  function OptSeq(o: Option<ValueId>): seq<ValueId> {
    match o
    case None => []
    case Some(v) => [v]
  }

  /** The value an instruction defines, if any. */
  function OpDst(op: Op): Option<ValueId> {
    match op
    case Store(_, _) => None
    case Call(d, _, _) => d
    case Havoc(d) => d
    case Send(_, _) => None
    case CloseChan(_) => None
    case Go(_, _) => None
    case Defer(_, _) => None
    case Return(_) => None
    case Jump => None
    case Branch(_) => None
    case Panic(_) => None
    case Lock(_, _) => None
    case _ => Some(op.dst)
  }

  function ArmReads(arms: seq<SelectArm>): seq<ValueId> {
    if arms == [] then [] else [arms[0].chan] + OptSeq(arms[0].send) + ArmReads(arms[1..])
  }

  function CalleeReads(c: Callee): seq<ValueId> {
    match c
    case Dynamic(v) => [v]
    case _ => []
  }

  /** Every value an instruction reads. */
  function OpReads(op: Op): seq<ValueId> {
    match op
    case Assign(_, s) => [s]
    case Alloc(_) => []
    case Load(_, a) => [a]
    case Store(a, v) => [a, v]
    case FieldAddr(_, b, _) => [b]
    case Field(_, b, _) => [b]
    case IndexAddr(_, b, i) => [b, i]
    case Index(_, b, i) => [b, i]
    case Lookup(_, t, k) => [t, k]
    case SliceExpr(_, b, l, h, m) => [b] + OptSeq(l) + OptSeq(h) + OptSeq(m)
    case BinOp(_, _, l, r) => [l, r]
    case UnOp(_, _, o) => [o]
    case Convert(_, s) => [s]
    case Extract(_, t, _) => [t]
    case Phi(_, es) => es
    case Call(_, c, as_) => CalleeReads(c) + as_
    case MakeClosure(_, _, bs) => bs
    case MakeInterface(_, s) => [s]
    case Make(_, _, as_) => as_
    case Send(c, v) => [c, v]
    case Recv(_, c) => [c]
    case CloseChan(c) => [c]
    case Select(_, arms, _) => ArmReads(arms)
    case Go(c, as_) => CalleeReads(c) + as_
    case Defer(c, as_) => CalleeReads(c) + as_
    case Return(vs) => vs
    case Jump => []
    case Branch(c) => [c]
    case Panic(v) => [v]
    case TypeAssert(_, s) => [s]
    case Lock(_, m) => [m]
    case Havoc(_) => []
  }

  /** Every value an instruction reads or writes, as the declaration pass walks them. */
  function OpValues(op: Op): seq<ValueId> {
    OptSeq(OpDst(op)) + match op
                        case Call(_, _, as_) => as_
                        case Go(_, as_) => as_
                        case Defer(_, as_) => as_
                        case _ => OpReads(op)
  }

  /** First position of a value in a list. */
  function IndexIn(vs: seq<ValueId>, v: ValueId): (i: Option<nat>)
    ensures i.Some? ==> i.value < |vs| && vs[i.value] == v && forall j :: 0 <= j < i.value ==> vs[j] != v
    ensures i.None? ==> v !in vs
  {
    if vs == [] then None
    else if vs[0] == v then Some(0)
    else match IndexIn(vs[1..], v)
         case None => None
         case Some(i) => Some(i + 1)
  }
}
