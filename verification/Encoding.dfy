/**
  The gated-SSA encoding of a function as a value: which constants it declares and which terms it
  asserts. Encoder computes it step by step; the theorems are about the functions of this module.
 */
module Encoding {
  import opened Wrappers
  import opened MachineInts
  import opened Graphs
  import opened Terms
  import opened Ir
  import opened Summaries

  // ---- names and terms of values ----

  /** Parameters carry their interface name, everything else its register number. */
  function NameOf(f: Function, v: ValueId): Name {
    match IndexIn(f.params, v)
    case Some(i) => Param(i)
    case None => Register(v)
  }

  /** The term of a value, None when its type has no sort. */
  function TermOf(f: Function, v: ValueId): Option<Term> {
    match SortOfValue(f, v)
    case None => None
    case Some(s) => Some(Var(NameOf(f, v), s))
  }

  function TermsOf(f: Function, vs: seq<ValueId>): seq<Option<Term>> {
    seq(|vs|, i requires 0 <= i < |vs| => TermOf(f, vs[i]))
  }

  function GuardTerm(b: nat): Term {
    Var(Guard(b), BoolSort)
  }

  // ---- declarations ----

  /** Every value mentioned, parameters first, in the order the declaration pass meets them. */
  function Mentions(f: Function): seq<ValueId> {
    f.params + BlockMentions(f, |f.blocks|)
  }

  function BlockMentions(f: Function, n: nat): seq<ValueId>
    requires n <= |f.blocks|
  {
    if n == 0 then [] else BlockMentions(f, n - 1) + InstrMentions(f.blocks[n - 1].instrs)
  }

  function InstrMentions(instrs: seq<Op>): seq<ValueId> {
    if instrs == [] then [] else InstrMentions(instrs[..|instrs| - 1]) + OpValues(instrs[|instrs| - 1])
  }

  function ConstTerm(c: ConstVal, ty: Ty): Option<Term> {
    match c
    case BoolConst(b) => Some(BoolLit(b))
    case IntConst(i) => if ty.IntTy? then Some(BvLit(ty.width, Wrap(ty.width, i))) else None
    case NilConst =>
      (match SortOfTy(ty)
       case Some(PtrSort) => Some(NilLit)
       case Some(SeqSort) => Some(MkSeq(BvLit(64, 0), BvLit(64, 0)))
       case _ => None)
    case StrConst(n) => Some(MkSeq(BvLit(64, Wrap(64, n)), BvLit(64, Wrap(64, n))))
    case OtherConst => None
  }

  /** Some instruction slices a base into v. */
  predicate SliceDerived(f: Function, v: ValueId) {
    exists b, i :: 0 <= b < |f.blocks| && 0 <= i < |f.blocks[b].instrs| && IsSliceInto(f.blocks[b].instrs[i], v)
  }

  predicate IsSliceInto(op: Op, v: ValueId) {
    op.SliceExpr? && op.dst == v
  }

  function SeqInvariant(t: Term): Term {
    BvCmp(Ule, SeqLen(t), SeqCap(t))
  }

  /** What declaring one value asserts: the length invariant of slices, the value of constants. */
  function DeclareAsserts(f: Function, v: ValueId): seq<Term> {
    match TermOf(f, v)
    case None => []
    case Some(t) =>
      (if SortOf(t) == SeqSort && !SliceDerived(f, v) then [SeqInvariant(t)] else [])
      + (if ValueOf(f, v).kind.ConstKind? then
           match ConstTerm(ValueOf(f, v).kind.c, TypeOf(f, v))
           case None => []
           case Some(lit) => (match MkEq(t, lit) case Some(e) => [e] case None => [])
         else [])
  }

  function DeclarationAsserts(f: Function, vs: seq<ValueId>): seq<Term> {
    if vs == [] then []
    else
      var v := vs[|vs| - 1];
      DeclarationAsserts(f, vs[..|vs| - 1]) + if v in vs[..|vs| - 1] then [] else DeclareAsserts(f, v)
  }

  /** A branch whose condition has no term reads the constant hc<b> instead. */
  predicate HavocBranch(f: Function, b: nat) {
    && b < |f.blocks| && |f.blocks[b].instrs| > 0
    && var op := f.blocks[b].instrs[|f.blocks[b].instrs| - 1];
    && op.Branch? && TermOf(f, op.cond).None?
  }

  function Declared(f: Function): set<(Name, Sort)> {
    (set b | 0 <= b < |f.blocks| :: (Guard(b), BoolSort))
    + (set v | v in Mentions(f) && SortOfValue(f, v).Some? :: (NameOf(f, v), SortOfValue(f, v).value))
    + (set b | 0 <= b < |f.blocks| && HavocBranch(f, b) :: (HavocCond(b), BoolSort))
  }

  // ---- guards ----

  function BranchCond(f: Function, b: nat): Option<Term> {
    if b < |f.blocks| && |f.blocks[b].instrs| > 0 then
      match f.blocks[b].instrs[|f.blocks[b].instrs| - 1]
      case Branch(c) =>
        (match TermOf(f, c)
         case Some(t) => Some(t)
         case None => Some(Var(HavocCond(b), BoolSort)))
      case _ => None
    else None
  }

  /** The guard of the edge from -> to; branch polarity is the position among the original successors. */
  function EdgeGuard(f: Function, from: nat, to: nat): Option<Term> {
    if from >= |f.blocks| then None
    else
      match (BranchCond(f, from), IndexIn(f.blocks[from].succs, to))
      case (Some(c), Some(0)) => MkAnd([GuardTerm(from), c])
      case (Some(c), Some(1)) =>
        var nc :- MkNot(c);
        MkAnd([GuardTerm(from), nc])
      case _ => Some(GuardTerm(from))
  }

  /** Edge guards into `to` from the first b blocks, once per kept edge. */
  function Incoming(f: Function, dag: Graph, to: nat, b: nat): seq<Term>
    requires b <= |dag|
  {
    if b == 0 then [] else Incoming(f, dag, to, b - 1) + IncomingFrom(f, b - 1, to, dag[b - 1])
  }

  function IncomingFrom(f: Function, from: nat, to: nat, succs: seq<nat>): seq<Term> {
    if succs == [] then []
    else
      IncomingFrom(f, from, to, succs[..|succs| - 1])
      + if succs[|succs| - 1] == to && EdgeGuard(f, from, to).Some? then [EdgeGuard(f, from, to).value] else []
  }

  function GuardRhs(f: Function, dag: Graph, reachable: seq<bool>, b: nat): Term {
    var edges := Incoming(f, dag, b, |dag|);
    if b == 0 then BoolLit(true)
    else if !(b < |reachable| && reachable[b]) || |edges| == 0 then BoolLit(false)
    else if |edges| == 1 then edges[0]
    else Or(edges)
  }

  function GuardAsserts(f: Function, dag: Graph, reachable: seq<bool>, n: nat): seq<Term> {
    seq(n, b requires 0 <= b < n => Eq(GuardTerm(b), GuardRhs(f, dag, reachable, b)))
  }

  // ---- defining equalities ----

  /** Kept phi edges among the first k, with the guard of the edge each comes along. */
  function PhiKept(f: Function, dag: Graph, block: nat, edges: seq<ValueId>, k: nat): Option<seq<(Term, Term)>>
    requires k <= |edges| && block < |f.blocks|
  {
    if k == 0 then Some([])
    else
      var kept :- PhiKept(f, dag, block, edges, k - 1);
      var preds := f.blocks[block].preds;
      if k - 1 >= |preds| || preds[k - 1] >= |f.blocks| || preds[k - 1] >= |dag| then None
      else if block !in dag[preds[k - 1]] then Some(kept)
      else
        var g :- EdgeGuard(f, preds[k - 1], block);
        var v :- TermOf(f, edges[k - 1]);
        Some(kept + [(g, v)])
  }

  /** Nested ite over the kept edges; the last one needs no test. */
  function IteChain(kept: seq<(Term, Term)>): Option<Term>
    requires |kept| > 0
  {
    if |kept| == 1 then Some(kept[0].1)
    else
      var rest :- IteChain(kept[1..]);
      MkIte(kept[0].0, kept[0].1, rest)
  }

  function PhiTerm(f: Function, dag: Graph, block: nat, edges: seq<ValueId>): Option<Term>
    requires block < |f.blocks|
  {
    var kept :- PhiKept(f, dag, block, edges, |edges|);
    if |kept| == 0 then None else IteChain(kept)
  }

  /** A modelled binary operation on integers of width w. */
  function IntOpTerm(k: BinOpKind, w: nat, signed: bool, l: Term, r: Term): Option<Term> {
    match k
    case AddOp => MkBin(Add, l, r)
    case SubOp => MkBin(Sub, l, r)
    case MulOp => MkBin(Mul, l, r)
    case AndK => MkBin(AndOp, l, r)
    case OrK => MkBin(OrOp, l, r)
    case XorK => MkBin(XorOp, l, r)
    case ShlK => MkBin(ShlOp, l, r)
    case ShrK => MkBin(if signed then AshrOp else LshrOp, l, r)
    case DivOp => MkBin(if signed then SdivOp else UdivOp, l, r)
    case RemOp => MkBin(if signed then SremOp else UremOp, l, r)
    case AndNotK =>
      var nr :- MkBin(XorOp, r, BvLit(w, Pow2(w) - 1));
      MkBin(AndOp, l, nr)
    case LtK => MkCmp(if signed then Slt else Ult, l, r)
    case LeqK => MkCmp(if signed then Sle else Ule, l, r)
    case GtK => MkCmp(if signed then Slt else Ult, r, l)
    case GeqK => MkCmp(if signed then Sle else Ule, r, l)
    case EqK => None
    case NeqK => None
  }

  /** The right-hand side of a binary operation; width and signedness come from the left operand's type. */
  function BinOpTerm(k: BinOpKind, ty: Ty, l: Term, r: Term): Option<Term> {
    if k == EqK then MkEq(l, r)
    else if k == NeqK then
      var e :- MkEq(l, r);
      MkNot(e)
    else if ty.IntTy? then IntOpTerm(k, ty.width, ty.signed, l, r)
    else None
  }

  function UnOpTerm(k: UnOpKind, ty: Ty, o: Term): Option<Term> {
    match k
    case NotK => MkNot(o)
    case NegK => if ty.IntTy? then MkBin(Sub, BvLit(ty.width, 0), o) else None
    case BitNotK => if ty.IntTy? then MkBin(XorOp, o, BvLit(ty.width, Pow2(ty.width) - 1)) else None
  }

  /** Widening asserts the source type's range at the destination width; other conversions havoc. */
  function WideningRange(from: Ty, to: Ty, d: Term): Option<Term>
    requires from.IntTy? && to.IntTy?
  {
    var ws, wd := from.width, to.width;
    if wd <= ws || ws == 0 then None
    else if from.signed then
      var lo :- MkCmp(Sle, BvLit(wd, Wrap(wd, Pow2(wd) - Pow2(ws - 1))), d);
      var hi :- MkCmp(Sle, d, BvLit(wd, Wrap(wd, Pow2(ws - 1) - 1)));
      MkAnd([lo, hi])
    else MkCmp(Ule, d, BvLit(wd, Wrap(wd, Pow2(ws) - 1)))
  }

  function LengthsOf(f: Function, base: ValueId): Option<(Term, Term)> {
    match ArrayLen(TypeOf(f, base))
    case Some(n) => Some((BvLit(64, Wrap(64, n)), BvLit(64, Wrap(64, n))))
    case None =>
      var b :- TermOf(f, base);
      if SortOf(b) == SeqSort then Some((SeqLen(b), SeqCap(b))) else None
  }

  function OptTerm(f: Function, v: Option<ValueId>, default: Term): Option<Term> {
    match v
    case None => Some(default)
    case Some(x) => TermOf(f, x)
  }

  /** s[low:high:max] has length high - low and capacity (max or the base's capacity) - low. */
  function SliceTerm(f: Function, base: ValueId, low: Option<ValueId>, high: Option<ValueId>,
                     max: Option<ValueId>): (t: Option<Term>)
    ensures t.Some? ==> t.value.MkSeq?
  {
    var lens :- LengthsOf(f, base);
    var l :- OptTerm(f, low, BvLit(64, 0));
    var h :- OptTerm(f, high, lens.0);
    var c :- OptTerm(f, max, lens.1);
    var newLen :- MkBin(Sub, h, l);
    var newCap :- MkBin(Sub, c, l);
    if SortOf(newLen) == SortOf(newCap) == BvSort(64) then Some(MkSeq(newLen, newCap)) else None
  }

  function MakeSliceTerm(f: Function, args: seq<ValueId>): (t: Option<Term>)
    ensures t.Some? ==> t.value.MkSeq?
  {
    if |args| == 0 then None
    else
      var n :- TermOf(f, args[0]);
      var c := if |args| > 1 && TermOf(f, args[1]).Some? then TermOf(f, args[1]).value else n;
      if SortOf(n) == SortOf(c) == BvSort(64) then Some(MkSeq(n, c)) else None
  }

  /** The value an instruction's destination is equated with, for the operations defined by an equation. */
  function RhsOf(f: Function, dag: Graph, block: nat, op: Op): Option<Term>
    requires block < |f.blocks|
  {
    match op
    case Assign(_, s) => TermOf(f, s)
    case BinOp(_, k, l, r) =>
      var lt :- TermOf(f, l);
      var rt :- TermOf(f, r);
      BinOpTerm(k, TypeOf(f, l), lt, rt)
    case UnOp(_, k, o) =>
      var ot :- TermOf(f, o);
      UnOpTerm(k, TypeOf(f, o), ot)
    case Phi(_, edges) => PhiTerm(f, dag, block, edges)
    case Make(_, k, args) => if k == MakeSlice then MakeSliceTerm(f, args) else None
    case SliceExpr(_, b, l, h, m) => SliceTerm(f, b, l, h, m)
    case Call(_, c, args) =>
      if c == Builtin("len") && |args| > 0 then
        var a :- TermOf(f, args[0]);
        if SortOf(a) == SeqSort then Some(SeqLen(a)) else None
      else None
    case _ => None
  }

  /** The defining assertion of an instruction; None leaves its destination unconstrained. */
  function OpDef(f: Function, dag: Graph, block: nat, op: Op): Option<Term>
    requires block < |f.blocks|
  {
    var dst :- OpDst(op);
    var d :- TermOf(f, dst);
    match op
    case Convert(_, s) =>
      if TypeOf(f, s).IntTy? && TypeOf(f, dst).IntTy? then WideningRange(TypeOf(f, s), TypeOf(f, dst), d) else None
    case Alloc(_) => MkNonNil(d)
    case FieldAddr(_, _, _) => MkNonNil(d)
    case IndexAddr(_, _, _) => MkNonNil(d)
    case _ =>
      var r :- RhsOf(f, dag, block, op);
      MkEq(d, r)
  }

  function OptTermSeq(o: Option<Term>): seq<Term> {
    match o
    case None => []
    case Some(t) => [t]
  }

  function OpAsserts(f: Function, dag: Graph, b: nat, instrs: seq<Op>): seq<Term>
    requires b < |f.blocks|
  {
    if instrs == [] then []
    else OpAsserts(f, dag, b, instrs[..|instrs| - 1]) + OptTermSeq(OpDef(f, dag, b, instrs[|instrs| - 1]))
  }

  function AllOpAsserts(f: Function, dag: Graph, n: nat): seq<Term>
    requires n <= |f.blocks|
  {
    if n == 0 then [] else AllOpAsserts(f, dag, n - 1) + OpAsserts(f, dag, n - 1, f.blocks[n - 1].instrs)
  }

  // ---- load forwarding ----

  /** Structural value number of an address. */
  datatype AddrKey = Root(v: ValueId) | FieldOf(base: AddrKey, field: nat) | IndexOf(base: AddrKey, index: ValueId)

  const MAX_ADDR_KEY_DEPTH: nat := 64

  datatype Forwarding = Forwarding(keys: map<ValueId, AddrKey>, depths: map<ValueId, nat>, seen: map<AddrKey, ValueId>)

  function KeyOf(keys: map<ValueId, AddrKey>, v: ValueId): AddrKey {
    if v in keys then keys[v] else Root(v)
  }

  function DepthOf(depths: map<ValueId, nat>, v: ValueId): nat {
    if v in depths then depths[v] else 0
  }

  /** One instruction of the forwarding walk. */
  function ForwardStep(s: Forwarding, op: Op): Forwarding {
    match op
    case Assign(dst, src) =>
      if src in s.keys then
        s.(keys := s.keys[dst := s.keys[src]], depths := if src in s.depths then s.depths[dst := s.depths[src]]
          else s.depths)
      else s
    case FieldAddr(dst, base, field) =>
      if DepthOf(s.depths, base) >= MAX_ADDR_KEY_DEPTH
      then s.(keys := s.keys[dst := Root(dst)], depths := s.depths[dst := 0])
      else s.(keys := s.keys[dst := FieldOf(KeyOf(s.keys, base), field)],
        depths := s.depths[dst := DepthOf(s.depths, base) + 1])
    case IndexAddr(dst, base, index) =>
      if DepthOf(s.depths, base) >= MAX_ADDR_KEY_DEPTH
      then s.(keys := s.keys[dst := Root(dst)], depths := s.depths[dst := 0])
      else s.(keys := s.keys[dst := IndexOf(KeyOf(s.keys, base), index)],
        depths := s.depths[dst := DepthOf(s.depths, base) + 1])
    case Load(dst, addr) =>
      var k := KeyOf(s.keys, addr);
      if k in s.seen then s else s.(seen := s.seen[k := dst])
    case Store(_, _) => s.(seen := map[])
    case Havoc(None) => s.(seen := map[])
    case _ => s
  }

  /** The equality a load contributes when an earlier load of the same address is pending. */
  function ForwardAssert(f: Function, s: Forwarding, op: Op): seq<Term> {
    match op
    case Load(dst, addr) =>
      var k := KeyOf(s.keys, addr);
      if k in s.seen && TermOf(f, dst).Some? && TermOf(f, s.seen[k]).Some?
      then OptTermSeq(MkEq(TermOf(f, dst).value, TermOf(f, s.seen[k]).value))
      else []
    case _ => []
  }

  type Site = (nat, nat)

  /** The instructions of the listed blocks, in order. */
  function Walk(f: Function, order: seq<nat>): seq<Site> {
    if order == [] then []
    else Walk(f, order[..|order| - 1]) + BlockSites(f, order[|order| - 1])
  }

  function BlockSites(f: Function, b: nat): (s: seq<Site>)
    ensures |s| == if b < |f.blocks| then |f.blocks[b].instrs| else 0
    ensures forall i :: 0 <= i < |s| ==> s[i] == (b, i)
  {
    if b < |f.blocks| then seq(|f.blocks[b].instrs|, i requires 0 <= i < |f.blocks[b].instrs| => (b, i)) else []
  }

  predicate IsSite(f: Function, s: Site) {
    s.0 < |f.blocks| && s.1 < |f.blocks[s.0].instrs|
  }

  function OpAt(f: Function, s: Site): Op
    requires IsSite(f, s)
  {
    f.blocks[s.0].instrs[s.1]
  }

  /** The forwarding state after a walked prefix. */
  function Forwarded(f: Function, sites: seq<Site>): Forwarding
    requires forall s :: s in sites ==> IsSite(f, s)
  {
    if sites == [] then Forwarding(map[], map[], map[])
    else ForwardStep(Forwarded(f, sites[..|sites| - 1]), OpAt(f, sites[|sites| - 1]))
  }

  function ForwardAsserts(f: Function, sites: seq<Site>): seq<Term>
    requires forall s :: s in sites ==> IsSite(f, s)
  {
    if sites == [] then []
    else ForwardAsserts(f, sites[..|sites| - 1])
         + ForwardAssert(f, Forwarded(f, sites[..|sites| - 1]), OpAt(f, sites[|sites| - 1]))
  }

  // ---- callee postconditions ----

  const MAX_CALL_RESULT_INDEX: nat := 256

  /** The first Extract of component i of tuple d, among the first n blocks in instruction order. */
  function ExtractOf(f: Function, d: ValueId, i: nat, n: nat): Option<ValueId>
    requires n <= |f.blocks|
  {
    if n == 0 then None
    else match ExtractOf(f, d, i, n - 1)
         case Some(v) => Some(v)
         case None => ExtractIn(f, f.blocks[n - 1].instrs, d, i)
  }

  /** Only an Extract whose destination has a term fills a slot. */
  function ExtractIn(f: Function, instrs: seq<Op>, d: ValueId, i: nat): Option<ValueId> {
    if instrs == [] then None
    else match ExtractIn(f, instrs[..|instrs| - 1], d, i)
         case Some(v) => Some(v)
         case None =>
           var op := instrs[|instrs| - 1];
           if op.Extract? && op.tuple == d && op.component == i && i <= MAX_CALL_RESULT_INDEX && TermOf(f, op.dst).Some?
           then Some(op.dst) else None
  }

  /** The term bound to r<i> at a call: the destination itself, or the component extracted from it. */
  function ResultTerm(f: Function, dst: Option<ValueId>, i: nat): Option<Term> {
    match dst
    case None => None
    case Some(d) =>
      match TermOf(f, d)
      case Some(t) => if i == 0 then Some(t) else None
      case None =>
        var v :- ExtractOf(f, d, i, |f.blocks|);
        TermOf(f, v)
  }

  function ResultTerms(f: Function, dst: Option<ValueId>): seq<Option<Term>> {
    seq(MAX_CALL_RESULT_INDEX + 1, i requires i >= 0 => ResultTerm(f, dst, i))
  }

  /** One clause of one callee, gated on the guard of the calling block. */
  function GatedClause(f: Function, b: nat, cl: Clause, args: seq<ValueId>, dst: Option<ValueId>): seq<Term> {
    match Bind(cl.term, TermsOf(f, args), ResultTerms(f, dst))
    case None => []
    case Some(bound) => OptTermSeq(MkOr([Not(GuardTerm(b)), bound]))
  }

  function GatedClauses(f: Function, b: nat, c: Contract, cls: seq<Clause>, args: seq<ValueId>,
                        dst: Option<ValueId>): seq<Term> {
    if cls == [] then []
    else
      var cl := cls[|cls| - 1];
      GatedClauses(f, b, c, cls[..|cls| - 1], args, dst) + if Usable(c, cl) then GatedClause(f, b, cl, args, dst)
        else []
  }

  function CallAsserts(f: Function, cs: Contracts, b: nat, op: Op): seq<Term> {
    match op
    case Call(dst, Static(c), args) => GatedClauses(f, b, ContractOf(cs, c), ContractOf(cs, c).ensures_, args, dst)
    case _ => []
  }

  function BlockCallAsserts(f: Function, cs: Contracts, b: nat, instrs: seq<Op>): seq<Term> {
    if instrs == [] then []
    else BlockCallAsserts(f, cs, b, instrs[..|instrs| - 1]) + CallAsserts(f, cs, b, instrs[|instrs| - 1])
  }

  function AllCallAsserts(f: Function, cs: Contracts, n: nat): seq<Term>
    requires n <= |f.blocks|
  {
    if n == 0 then [] else AllCallAsserts(f, cs, n - 1) + BlockCallAsserts(f, cs, n - 1, f.blocks[n - 1].instrs)
  }

  // ---- the whole encoding ----

  predicate OrderInRange(f: Function, order: seq<nat>) {
    forall s :: s in Walk(f, order) ==> IsSite(f, s)
  }

  function Encode(f: Function, cs: Contracts, dag: Graph, reachable: seq<bool>, order: seq<nat>): seq<Term>
    requires OrderInRange(f, order)
  {
    DeclarationAsserts(f, Mentions(f))
    + GuardAsserts(f, dag, reachable, |f.blocks|)
    + AllOpAsserts(f, dag, |f.blocks|)
    + ForwardAsserts(f, Walk(f, order))
    + AllCallAsserts(f, cs, |f.blocks|)
  }

  /** Everything the encoding asserts, plus reaching the block, plus what the caller adds. */
  function ReachQuery(f: Function, asserts: seq<Term>, block: nat, extra: seq<Term>): Query {
    Query(Declared(f), asserts + (if block < |f.blocks| then [GuardTerm(block)] else []) + extra)
  }

  // ---- mentioned values ----

  lemma {:induction false} InstrMentioned(instrs: seq<Op>, i: nat, v: ValueId)
    requires i < |instrs| && v in OpValues(instrs[i])
    ensures v in InstrMentions(instrs)
  {
    hide OpValues;
    if i < |instrs| - 1 {
      InstrMentioned(instrs[..|instrs| - 1], i, v);
    }
  }

  lemma {:induction false} BlockMentioned(f: Function, n: nat, s: Site, v: ValueId)
    requires s.0 < n <= |f.blocks| && IsSite(f, s) && v in OpValues(OpAt(f, s))
    ensures v in BlockMentions(f, n)
  {
    hide OpValues, InstrMentions;
    if s.0 == n - 1 {
      InstrMentioned(f.blocks[n - 1].instrs, s.1, v);
    } else {
      BlockMentioned(f, n - 1, s, v);
    }
  }

  /** Whatever an instruction reads or writes is declared, if it has a sort. */
  lemma Mentioned(f: Function, s: Site, v: ValueId)
    requires IsSite(f, s) && v in OpValues(OpAt(f, s))
    ensures v in Mentions(f)
    ensures SortOfValue(f, v).Some? ==> (NameOf(f, v), SortOfValue(f, v).value) in Declared(f)
  {
    BlockMentioned(f, |f.blocks|, s, v);
  }
}
