/**
  What an encoding forces: under every assignment that satisfies it each defined constant has the
  value its instruction computes from the constants of its operands, whichever path the guards
  describe. Nothing is left out of an encoding that its instructions determine.
 */
module EncodingMeaning {
  import opened Wrappers
  import opened MachineInts
  import opened Graphs
  import opened CutDag
  import opened Terms
  import opened Ir
  import opened Summaries
  import opened Encoding
  import opened Encoder
  import opened GuardTerms
  import opened GuardPaths
  import opened Runs
  import opened IntOps
  import opened RunValues
  import opened RunDefs

  /** What an encoding is made from. */
  datatype Source = Source(f: Function, cs: Contracts, dag: Graph, reachable: seq<bool>, order: seq<nat>)

  ghost predicate Encodable(e: Source) {
    && WellShaped(e.f)
    && CutsBackEdges(Successors(e.f), e.dag)
    && |e.reachable| == |e.f.blocks|
    && (forall b: nat :: b < |e.f.blocks| ==> (e.reachable[b] <==> Reaches(Successors(e.f), 0, b)))
    && OrderInRange(e.f, e.order)
  }

  /** All constants are declared at their sorts, and everything asserted is true. */
  ghost predicate Satisfies(m: Model, e: Source)
    requires OrderInRange(e.f, e.order)
  {
    Models(m, Query(Declared(e.f), Encode(e.f, e.cs, e.dag, e.reachable, e.order)))
  }

  /** The encoder's own choice of cut and order. */
  ghost function SourceOf(f: Function, cs: Contracts): Source {
    Source(f, cs, KeptGraph(f), ReachableBlocks(f), BlockOrder(f))
  }

  lemma SourceEncodable(f: Function, cs: Contracts)
    requires WellShaped(f)
    ensures var e := SourceOf(f, cs);
            Encodable(e) && EncodingOf(f, cs) == Encode(e.f, e.cs, e.dag, e.reachable, e.order)
  {
    hide WellShaped, Encode, Walk, KeptGraph, ReachableBlocks, BlockOrder, OrderInRange, CutsBackEdges;
    KeptIsCut(f);
  }

  lemma KeptIsCut(f: Function)
    ensures CutsBackEdges(Successors(f), KeptGraph(f))
  {
    hide CutsBackEdges, CutOf;
    CutOfMeaning(Successors(f));
  }

  // ---- values under an assignment ----

  /** The value of a register, if it is modelled. */
  function ValueIn(f: Function, m: Model, v: ValueId): Option<Val> {
    if SortOfValue(f, v).Some? && NameOf(f, v) in m then Some(m[NameOf(f, v)]) else None
  }

  lemma ValueEval(f: Function, m: Model, v: ValueId)
    requires ValueIn(f, m, v).Some?
    ensures TermOf(f, v).Some? && SortOf(TermOf(f, v).value) == SortOfValue(f, v).value
    ensures Eval(TermOf(f, v).value, m) == ValueIn(f, m, v).value
  {
  }

  /** Whatever an instruction mentions has a value of its sort. */
  lemma OperandIn(e: Source, m: Model, s: Site, v: ValueId)
    requires OrderInRange(e.f, e.order) && Satisfies(m, e) && IsSite(e.f, s) && v in OpValues(OpAt(e.f, s))
    requires SortOfValue(e.f, v).Some?
    ensures ValueIn(e.f, m, v).Some? && HasSort(ValueIn(e.f, m, v).value, SortOfValue(e.f, v).value)
  {
    hide Encode, Walk, Declared;
    Mentioned(e.f, s, v);
  }

  // ---- what each instruction forces ----

  ghost predicate AssignMeans(f: Function, m: Model, d: ValueId, x: ValueId) {
    SortOfValue(f, d).Some? && SortOfValue(f, d) == SortOfValue(f, x) ==> ValueIn(f, m, d) == ValueIn(f, m, x)
  }

  /** The sort of a result of integers of width w. */
  function ResultSort(k: BinOpKind, w: nat): Sort {
    match k
    case LtK => BoolSort
    case LeqK => BoolSort
    case GtK => BoolSort
    case GeqK => BoolSort
    case _ => BvSort(w)
  }

  /** Equality compares values of one sort; any other operation gives what the language defines, unless it panics. */
  ghost predicate BinOpMeans(f: Function, m: Model, d: ValueId, k: BinOpKind, x: ValueId, y: ValueId) {
    var lt, rt := TypeOf(f, x), TypeOf(f, y);
    if k == EqK || k == NeqK then
      SortOfTy(lt).Some? && SortOfTy(lt) == SortOfTy(rt) && SortOfValue(f, d) == Some(BoolSort) ==>
        ValueIn(f, m, d) == Some(BoolVal((ValueIn(f, m, x) == ValueIn(f, m, y)) == (k == EqK)))
    else
      lt.IntTy? && rt.IntTy? && lt.width == rt.width > 0 && SortOfValue(f, d) == Some(ResultSort(k, lt.width)) ==>
        match (ValueIn(f, m, x), ValueIn(f, m, y))
        case (Some(BvVal(_, a)), Some(BvVal(_, b))) =>
          var r := IntResult(k, lt.width, lt.signed, a, b, rt.signed);
          r.Some? ==> ValueIn(f, m, d) == r
        case _ => false
  }

  ghost predicate UnOpMeans(f: Function, m: Model, d: ValueId, k: UnOpKind, x: ValueId) {
    var ty := TypeOf(f, x);
    (if k == NotK then ty == BoolTy else ty.IntTy?) && SortOfValue(f, d) == SortOfTy(ty) ==>
      ValueIn(f, m, x).Some? && UnResult(k, ty, ValueIn(f, m, x).value).Some?
      && ValueIn(f, m, d) == UnResult(k, ty, ValueIn(f, m, x).value)
  }

  /** Where the guards lead into the block along a kept edge, the phi has the operand of that edge. */
  ghost predicate PhiMeans(e: Source, m: Model, b: nat, d: ValueId, edges: seq<ValueId>)
    requires b < |e.f.blocks|
  {
    var preds := e.f.blocks[b].preds;
    forall j :: 0 <= j < |edges| && j < |preds| && PhiTyped(e, b, d, edges) && Comes(e, m, preds[j], b) ==>
      ValueIn(e.f, m, d) == ValueIn(e.f, m, edges[j])
  }

  /** Control is in p and goes on to b. */
  ghost predicate Comes(e: Source, m: Model, p: nat, b: nat) {
    p < |e.f.blocks| && Edge(e.dag, p, b) && On(m, p) && Chosen(e.f, m, p) == Some(b)
  }

  ghost predicate PhiTyped(e: Source, b: nat, d: ValueId, edges: seq<ValueId>)
    requires b < |e.f.blocks|
  {
    && SortOfValue(e.f, d).Some?
    && forall j :: 0 <= j < |edges| && j < |e.f.blocks[b].preds| && Edge(e.dag, e.f.blocks[b].preds[j], b) ==>
      SortOfValue(e.f, edges[j]) == SortOfValue(e.f, d)
  }

  ghost predicate AddressMeans(f: Function, m: Model, d: ValueId) {
    SortOfValue(f, d) == Some(PtrSort) ==> ValueIn(f, m, d).Some? && ValueIn(f, m, d) != Some(NilPtr)
  }

  /** A wider integer is the extension of some narrower one. */
  ghost predicate ConvertMeans(f: Function, m: Model, d: ValueId, x: ValueId) {
    var from, to := TypeOf(f, x), TypeOf(f, d);
    from.IntTy? && to.IntTy? && 0 < from.width < to.width ==>
      exists n :: 0 <= n < Pow2(from.width)
        && ValueIn(f, m, d) == Some(BvVal(to.width, Wrap(to.width, Reading(from.width, from.signed, n))))
  }

  ghost predicate LenMeans(f: Function, m: Model, d: ValueId, x: ValueId) {
    SortOfValue(f, x) == Some(SeqSort) && SortOfValue(f, d) == Some(BvSort(64)) ==>
      match ValueIn(f, m, x)
      case Some(SeqVal(len, _)) => ValueIn(f, m, d) == Some(BvVal(64, len))
      case _ => false
  }

  /** The pattern of a 64-bit operand, or the default where it is absent. */
  ghost predicate Is64Or(f: Function, m: Model, v: Option<ValueId>, default: nat, n: nat) {
    match v
    case None => n == default
    case Some(x) => ValueIn(f, m, x) == Some(BvVal(64, n))
  }

  predicate Typed64(f: Function, v: Option<ValueId>) {
    v.Some? ==> SortOfValue(f, v.value) == Some(BvSort(64))
  }

  /** A new slice has the length asked for, and the capacity, if asked for. */
  ghost predicate MakeMeans(f: Function, m: Model, d: ValueId, args: seq<ValueId>) {
    |args| > 0 && SortOfValue(f, d) == Some(SeqSort) && SortOfValue(f, args[0]) == Some(BvSort(64))
    && (|args| > 1 ==> SortOfValue(f, args[1]) == Some(BvSort(64))) ==>
      exists n: nat, c: nat :: ValueIn(f, m, args[0]) == Some(BvVal(64, n))
        && Is64Or(f, m, if |args| > 1 then Some(args[1]) else None, n, c) && ValueIn(f, m, d) == Some(SeqVal(n, c))
  }

  /** Length and capacity of what is sliced: an array's length, or those of the slice. */
  ghost predicate Lengths(f: Function, m: Model, base: ValueId, len: nat, cap: nat) {
    match ArrayLen(TypeOf(f, base))
    case Some(n) => len == cap == Wrap(64, n)
    case None => ValueIn(f, m, base) == Some(SeqVal(len, cap))
  }

  /** s[low:high:max] has length high - low and capacity max - low, with the bounds of s where one is absent. */
  ghost predicate SliceMeans(f: Function, m: Model, d: ValueId, base: ValueId, low: Option<ValueId>,
                             high: Option<ValueId>, max: Option<ValueId>) {
    SortOfValue(f, d) == Some(SeqSort) && Typed64(f, low) && Typed64(f, high) && Typed64(f, max)
    && (ArrayLen(TypeOf(f, base)).Some? || SortOfValue(f, base) == Some(SeqSort)) ==>
      exists len: nat, cap: nat, l: nat, h: nat, c: nat ::
        && Lengths(f, m, base, len, cap)
        && Is64Or(f, m, low, 0, l) && Is64Or(f, m, high, len, h) && Is64Or(f, m, max, cap, c)
        && ValueIn(f, m, d) == Some(SeqVal(Wrap(64, h - l), Wrap(64, c - l)))
  }

  /** What an instruction computes, read off an assignment. */
  ghost predicate Computes(e: Source, m: Model, s: Site)
    requires IsSite(e.f, s)
  {
    match OpAt(e.f, s)
    case Assign(d, x) => AssignMeans(e.f, m, d, x)
    case BinOp(d, k, x, y) => BinOpMeans(e.f, m, d, k, x, y)
    case UnOp(d, k, x) => UnOpMeans(e.f, m, d, k, x)
    case Phi(d, edges) => PhiMeans(e, m, s.0, d, edges)
    case Alloc(d) => AddressMeans(e.f, m, d)
    case FieldAddr(d, _, _) => AddressMeans(e.f, m, d)
    case IndexAddr(d, _, _) => AddressMeans(e.f, m, d)
    case Convert(d, x) => ConvertMeans(e.f, m, d, x)
    case Make(d, MakeSlice, args) => MakeMeans(e.f, m, d, args)
    case SliceExpr(d, base, low, high, max) => SliceMeans(e.f, m, d, base, low, high, max)
    case Call(Some(d), Builtin("len"), args) => |args| > 0 ==> LenMeans(e.f, m, d, args[0])
    case _ => true
  }

  // ---- what is emitted is in the encoding ----

  lemma {:induction false} OpAssertHas(f: Function, dag: Graph, b: nat, instrs: seq<Op>, i: nat)
    requires b < |f.blocks| && i < |instrs| && OpDef(f, dag, b, instrs[i]).Some?
    ensures OpDef(f, dag, b, instrs[i]).value in OpAsserts(f, dag, b, instrs)
  {
    hide OpDef;
    if i < |instrs| - 1 {
      OpAssertHas(f, dag, b, instrs[..|instrs| - 1], i);
    }
  }

  lemma {:induction false} DefAssertHas(f: Function, dag: Graph, n: nat, s: Site)
    requires s.0 < n <= |f.blocks| && IsSite(f, s) && OpDef(f, dag, s.0, OpAt(f, s)).Some?
    ensures OpDef(f, dag, s.0, OpAt(f, s)).value in AllOpAsserts(f, dag, n)
  {
    hide OpDef, OpAsserts;
    if s.0 == n - 1 {
      OpAssertHas(f, dag, s.0, f.blocks[s.0].instrs, s.1);
    } else {
      DefAssertHas(f, dag, n - 1, s);
    }
  }

  lemma DefHolds(e: Source, m: Model, s: Site)
    requires Encodable(e) && Satisfies(m, e) && IsSite(e.f, s) && OpDef(e.f, e.dag, s.0, OpAt(e.f, s)).Some?
    ensures Holds(OpDef(e.f, e.dag, s.0, OpAt(e.f, s)).value, m)
  {
    hide OpDef, AllOpAsserts, Walk, Declared, DeclarationAsserts, ForwardAsserts, AllCallAsserts, CutsBackEdges;
    DefAssertHas(e.f, e.dag, |e.f.blocks|, s);
  }

  lemma EquationHolds(d: Term, r: Term, m: Model)
    requires Holds(Eq(d, r), m)
    ensures Eval(d, m) == Eval(r, m)
  {
    hide BinVal, CmpVal, SortOf;
    assert Eval(Eq(d, r), m) == BoolVal(Eval(d, m) == Eval(r, m));
  }

  /** An instruction with an equation: its destination has the value of the right-hand side. */
  lemma DestinationIs(e: Source, m: Model, s: Site, d: ValueId, r: Term)
    requires Encodable(e) && Satisfies(m, e) && IsSite(e.f, s) && OpDst(OpAt(e.f, s)) == Some(d)
    requires RhsOf(e.f, e.dag, s.0, OpAt(e.f, s)) == Some(r) && SortOfValue(e.f, d) == Some(SortOf(r))
    ensures ValueIn(e.f, m, d) == Some(Eval(r, m))
  {
    hide Encodable, Satisfies, RhsOf, Eval, Encode, Walk, Declared;
    var op := OpAt(e.f, s);
    EquationOf(e.f, e.dag, s.0, op, d, r);
    assert OrderInRange(e.f, e.order) by { SourceInRange(e); }
    assert d in OpValues(op);
    OperandIn(e, m, s, d);
    ValueEval(e.f, m, d);
    DefHolds(e, m, s);
    EquationHolds(TermOf(e.f, d).value, r, m);
  }

  lemma SourceInRange(e: Source)
    requires Encodable(e)
    ensures OrderInRange(e.f, e.order) && |e.dag| == |e.f.blocks| && Forked(e.f)
  {
    forall b: nat | b < |e.f.blocks|
      ensures ForkedBlock(e.f, b)
    {
      assert WellShapedBlock(e.f, b);
    }
    SameLength(e.f, e.dag);
  }

  lemma EquationOf(f: Function, dag: Graph, b: nat, op: Op, d: ValueId, r: Term)
    requires b < |f.blocks| && OpDst(op) == Some(d) && RhsOf(f, dag, b, op) == Some(r)
    requires SortOfValue(f, d) == Some(SortOf(r))
    ensures TermOf(f, d).Some? && OpDef(f, dag, b, op) == Some(Eq(TermOf(f, d).value, r))
  {
    hide PhiTerm, BinOpTerm, UnOpTerm, MakeSliceTerm, SliceTerm;
  }

  // ---- instruction by instruction ----

  lemma AssignForced(e: Source, m: Model, s: Site)
    requires Encodable(e) && Satisfies(m, e) && IsSite(e.f, s) && OpAt(e.f, s).Assign?
    ensures AssignMeans(e.f, m, OpAt(e.f, s).dst, OpAt(e.f, s).src)
  {
    hide Encodable, Satisfies, Encode, Walk, Declared, Eval;
    var d, x := OpAt(e.f, s).dst, OpAt(e.f, s).src;
    if SortOfValue(e.f, d).Some? && SortOfValue(e.f, d) == SortOfValue(e.f, x) {
      ReadIn(e, m, s, x);
      DestinationIs(e, m, s, d, TermOf(e.f, x).value);
    }
  }

  /** An operand, with its term: the term has the value. */
  lemma ReadIn(e: Source, m: Model, s: Site, x: ValueId)
    requires Encodable(e) && Satisfies(m, e) && IsSite(e.f, s) && SortOfValue(e.f, x).Some?
    requires if OpAt(e.f, s).Call? then x in OpAt(e.f, s).args
             else x in OpReads(OpAt(e.f, s)) && !OpAt(e.f, s).Go? && !OpAt(e.f, s).Defer?
    ensures ValueIn(e.f, m, x).Some? && HasSort(ValueIn(e.f, m, x).value, SortOfValue(e.f, x).value)
    ensures TermOf(e.f, x).Some? && SortOf(TermOf(e.f, x).value) == SortOfValue(e.f, x).value
    ensures Eval(TermOf(e.f, x).value, m) == ValueIn(e.f, m, x).value
  {
    hide Encodable, Satisfies, Encode, Walk, Declared, Eval, OpReads, OpDst;
    SourceInRange(e);
    assert x in OpValues(OpAt(e.f, s));
    OperandIn(e, m, s, x);
    ValueEval(e.f, m, x);
  }

  lemma BinOpForced(e: Source, m: Model, s: Site)
    requires Encodable(e) && Satisfies(m, e) && IsSite(e.f, s) && OpAt(e.f, s).BinOp?
    ensures var op := OpAt(e.f, s); BinOpMeans(e.f, m, op.dst, op.kind, op.lhs, op.rhs)
  {
    hide Encodable, Satisfies, Encode, Walk, Declared, Eval, BinOpTerm, IntResult;
    var op := OpAt(e.f, s);
    var lt, rt := TypeOf(e.f, op.lhs), TypeOf(e.f, op.rhs);
    if SortOfTy(lt).Some? && SortOfTy(lt) == SortOfTy(rt) {
      assert op.lhs in OpReads(op) && op.rhs in OpReads(op);
      ReadIn(e, m, s, op.lhs);
      ReadIn(e, m, s, op.rhs);
      var l, r := TermOf(e.f, op.lhs).value, TermOf(e.f, op.rhs).value;
      if op.kind == EqK || op.kind == NeqK {
        EqTermIs(op.kind, lt, l, r);
        if SortOfValue(e.f, op.dst) == Some(BoolSort) {
          DestinationIs(e, m, s, op.dst, BinOpTerm(op.kind, lt, l, r).value);
          EqTermExact(op.kind, lt, l, r, m);
        }
      } else if lt.IntTy? && lt.width > 0 && SortOfValue(e.f, op.dst) == Some(ResultSort(op.kind, lt.width)) {
        IntTermIs(op.kind, lt, l, r);
        DestinationIs(e, m, s, op.dst, BinOpTerm(op.kind, lt, l, r).value);
        var a, b := ValueIn(e.f, m, op.lhs).value.n, ValueIn(e.f, m, op.rhs).value.n;
        if IntResult(op.kind, lt.width, lt.signed, a, b, rt.signed).Some? {
          IntOpExact(op.kind, lt.width, lt.signed, l, r, m, a, b, rt.signed);
        }
      }
    }
  }

  lemma EqTermIs(k: BinOpKind, ty: Ty, l: Term, r: Term)
    requires (k == EqK || k == NeqK) && SortOf(l) == SortOf(r)
    ensures BinOpTerm(k, ty, l, r).Some? && SortOf(BinOpTerm(k, ty, l, r).value) == BoolSort
  {
    hide IntOpTerm;
  }

  lemma IntTermIs(k: BinOpKind, ty: Ty, l: Term, r: Term)
    requires k != EqK && k != NeqK && ty.IntTy? && SortOf(l) == SortOf(r) == BvSort(ty.width)
    ensures BinOpTerm(k, ty, l, r) == IntOpTerm(k, ty.width, ty.signed, l, r)
    ensures BinOpTerm(k, ty, l, r).Some? && SortOf(BinOpTerm(k, ty, l, r).value) == ResultSort(k, ty.width)
  {
    hide Pow2;
  }

  lemma UnOpForced(e: Source, m: Model, s: Site)
    requires Encodable(e) && Satisfies(m, e) && IsSite(e.f, s) && OpAt(e.f, s).UnOp?
    ensures var op := OpAt(e.f, s); UnOpMeans(e.f, m, op.dst, op.unKind, op.operand)
  {
    hide Encodable, Satisfies, Encode, Walk, Declared, Eval, UnOpTerm, Pow2, Wrap, Reading;
    var op := OpAt(e.f, s);
    var ty := TypeOf(e.f, op.operand);
    if (if op.unKind == NotK then ty == BoolTy else ty.IntTy?) && SortOfValue(e.f, op.dst) == SortOfTy(ty) {
      assert op.operand in OpReads(op);
      ReadIn(e, m, s, op.operand);
      var o := TermOf(e.f, op.operand).value;
      UnTermIs(op.unKind, ty, o);
      DestinationIs(e, m, s, op.dst, UnOpTerm(op.unKind, ty, o).value);
      UnOpExact(op.unKind, ty, o, m, ValueIn(e.f, m, op.operand).value);
    }
  }

  lemma UnTermIs(k: UnOpKind, ty: Ty, o: Term)
    requires if k == NotK then ty == BoolTy && SortOf(o) == BoolSort else ty.IntTy? && SortOf(o) == BvSort(ty.width)
    ensures UnOpTerm(k, ty, o).Some? && SortOf(UnOpTerm(k, ty, o).value) == SortOf(o)
  {
    hide Pow2;
  }

  lemma AddressForced(e: Source, m: Model, s: Site)
    requires Encodable(e) && Satisfies(m, e) && IsSite(e.f, s)
    requires OpAt(e.f, s).Alloc? || OpAt(e.f, s).FieldAddr? || OpAt(e.f, s).IndexAddr?
    ensures AddressMeans(e.f, m, OpAt(e.f, s).dst)
  {
    hide Encodable, Satisfies, Encode, Walk, Declared, Eval, OpDef, TermOf, MkNonNil, Pow2;
    var op := OpAt(e.f, s);
    if SortOfValue(e.f, op.dst) == Some(PtrSort) {
      SourceInRange(e);
      assert op.dst in OpValues(op);
      OperandIn(e, m, s, op.dst);
      ValueEval(e.f, m, op.dst);
      AddressDef(e, s);
      DefHolds(e, m, s);
      NonNilTerm(TermOf(e.f, op.dst).value, m);
    }
  }

  lemma AddressDef(e: Source, s: Site)
    requires Encodable(e) && IsSite(e.f, s)
    requires OpAt(e.f, s).Alloc? || OpAt(e.f, s).FieldAddr? || OpAt(e.f, s).IndexAddr?
    requires SortOfValue(e.f, OpAt(e.f, s).dst) == Some(PtrSort)
    ensures var d := OpAt(e.f, s).dst;
            && TermOf(e.f, d).Some? && SortOf(TermOf(e.f, d).value) == PtrSort
            && OpDef(e.f, e.dag, s.0, OpAt(e.f, s)) == MkNonNil(TermOf(e.f, d).value)
            && MkNonNil(TermOf(e.f, d).value).Some?
  {
    hide Encodable, RhsOf;
  }

  lemma NonNilTerm(t: Term, m: Model)
    requires SortOf(t) == PtrSort && MkNonNil(t).Some? && Holds(MkNonNil(t).value, m)
    ensures Eval(t, m) != NilPtr
  {
    hide BinVal, CmpVal;
    assert MkNonNil(t).value == Not(IsNil(t));
    assert Eval(Not(IsNil(t)), m) == BoolVal(Eval(IsNil(t), m) != BoolVal(true));
    assert Eval(IsNil(t), m) == BoolVal(Eval(t, m) == NilPtr);
  }

  lemma ConvertForced(e: Source, m: Model, s: Site)
    requires Encodable(e) && Satisfies(m, e) && IsSite(e.f, s) && OpAt(e.f, s).Convert?
    ensures ConvertMeans(e.f, m, OpAt(e.f, s).dst, OpAt(e.f, s).src)
  {
    hide Encodable, Satisfies, Encode, Walk, Declared, Eval, WideningRange, Pow2, Wrap, Reading;
    var op := OpAt(e.f, s);
    var from, to := TypeOf(e.f, op.src), TypeOf(e.f, op.dst);
    if from.IntTy? && to.IntTy? && 0 < from.width < to.width {
      SourceInRange(e);
      assert op.dst in OpValues(op);
      OperandIn(e, m, s, op.dst);
      ValueEval(e.f, m, op.dst);
      var d, n := TermOf(e.f, op.dst).value, ValueIn(e.f, m, op.dst).value.n;
      WideningIgnoresTarget(from, to, d);
      WideningExact(from.width, from.signed, to.width, n, d, m);
      DefHolds(e, m, s);
      var x :| 0 <= x < Pow2(from.width) && n == Wrap(to.width, Reading(from.width, from.signed, x));
    }
  }

  lemma LenForced(e: Source, m: Model, s: Site, d: ValueId)
    requires Encodable(e) && Satisfies(m, e) && IsSite(e.f, s) && OpAt(e.f, s).Call?
    requires OpAt(e.f, s).result == Some(d) && OpAt(e.f, s).callee == Builtin("len") && |OpAt(e.f, s).args| > 0
    ensures LenMeans(e.f, m, d, OpAt(e.f, s).args[0])
  {
    hide Encodable, Satisfies, Encode, Walk, Declared, Eval, RhsOf, OpValues, OpReads, TermOf, Pow2;
    var op := OpAt(e.f, s);
    var x := op.args[0];
    if SortOfValue(e.f, x) == Some(SeqSort) && SortOfValue(e.f, d) == Some(BvSort(64)) {
      ReadIn(e, m, s, x);
      var t := TermOf(e.f, x).value;
      LenRhs(e, s.0, op, d, t);
      assert SortOf(SeqLen(t)) == BvSort(64);
      DestinationIs(e, m, s, d, SeqLen(t));
      LengthValue(t, m);
    }
  }

  lemma LenRhs(e: Source, b: nat, op: Op, d: ValueId, t: Term)
    requires b < |e.f.blocks| && op.Call? && op.result == Some(d) && op.callee == Builtin("len") && |op.args| > 0
    requires TermOf(e.f, op.args[0]) == Some(t) && SortOf(t) == SeqSort
    ensures RhsOf(e.f, e.dag, b, op) == Some(SeqLen(t))
  {
    hide TermOf, SortOf, PhiTerm, BinOpTerm, UnOpTerm, MakeSliceTerm, SliceTerm;
  }

  lemma LengthValue(t: Term, m: Model)
    requires Eval(t, m).SeqVal?
    ensures Eval(SeqLen(t), m) == BvVal(64, Eval(t, m).len) && Eval(SeqCap(t), m) == BvVal(64, Eval(t, m).cap)
  {
    hide Eval;
    LenValue(t, m);
    CapValue(t, m);
  }

  lemma LenValue(t: Term, m: Model)
    requires Eval(t, m).SeqVal?
    ensures Eval(SeqLen(t), m) == BvVal(64, Eval(t, m).len)
  {
    hide BinVal, CmpVal, SortOf, DefaultOf;
  }

  lemma CapValue(t: Term, m: Model)
    requires Eval(t, m).SeqVal?
    ensures Eval(SeqCap(t), m) == BvVal(64, Eval(t, m).cap)
  {
    hide BinVal, CmpVal, SortOf, DefaultOf;
  }

  lemma PairValue(a: Term, b: Term, m: Model, x: nat, y: nat)
    requires Eval(a, m) == BvVal(64, x) && Eval(b, m) == BvVal(64, y)
    ensures Eval(MkSeq(a, b), m) == SeqVal(x, y)
  {
    hide BinVal, CmpVal, SortOf;
  }

  lemma MakeForced(e: Source, m: Model, s: Site)
    requires Encodable(e) && Satisfies(m, e) && IsSite(e.f, s) && OpAt(e.f, s).Make?
    requires OpAt(e.f, s).makeKind == MakeSlice
    ensures MakeMeans(e.f, m, OpAt(e.f, s).dst, OpAt(e.f, s).args)
  {
    hide Encodable, Satisfies, Encode, Walk, Declared, Eval, RhsOf, TermOf, Pow2;
    var op := OpAt(e.f, s);
    var d, args := op.dst, op.args;
    if |args| > 0 && SortOfValue(e.f, d) == Some(SeqSort) && SortOfValue(e.f, args[0]) == Some(BvSort(64))
       && (|args| > 1 ==> SortOfValue(e.f, args[1]) == Some(BvSort(64))) {
      assert args[0] in OpReads(op);
      ReadIn(e, m, s, args[0]);
      if |args| > 1 {
        assert args[1] in OpReads(op);
        ReadIn(e, m, s, args[1]);
      }
      var n := TermOf(e.f, args[0]).value;
      var c := if |args| > 1 then TermOf(e.f, args[1]).value else n;
      MakeRhs(e, s.0, op, n, c);
      DestinationIs(e, m, s, d, MkSeq(n, c));
      PairValue(n, c, m, Eval(n, m).n, Eval(c, m).n);
      assert ValueIn(e.f, m, args[0]) == Some(BvVal(64, Eval(n, m).n));
      assert Is64Or(e.f, m, if |args| > 1 then Some(args[1]) else None, Eval(n, m).n, Eval(c, m).n);
    }
  }

  lemma MakeRhs(e: Source, b: nat, op: Op, n: Term, c: Term)
    requires b < |e.f.blocks| && op.Make? && op.makeKind == MakeSlice && |op.args| > 0
    requires TermOf(e.f, op.args[0]) == Some(n) && SortOf(n) == SortOf(c) == BvSort(64)
    requires if |op.args| > 1 then TermOf(e.f, op.args[1]) == Some(c) else c == n
    ensures RhsOf(e.f, e.dag, b, op) == Some(MkSeq(n, c))
  {
    hide TermOf, SortOf, PhiTerm, BinOpTerm, UnOpTerm, SliceTerm;
  }

  /** The term of an optional 64-bit operand has its pattern. */
  lemma OptIn(e: Source, m: Model, s: Site, v: Option<ValueId>, default: Term, n: nat)
    requires Encodable(e) && Satisfies(m, e) && IsSite(e.f, s) && OpAt(e.f, s).SliceExpr? && Typed64(e.f, v)
    requires v.Some? ==> v.value in OpReads(OpAt(e.f, s))
    requires SortOf(default) == BvSort(64) && Eval(default, m) == BvVal(64, n)
    ensures OptTerm(e.f, v, default).Some? && SortOf(OptTerm(e.f, v, default).value) == BvSort(64)
    ensures Eval(OptTerm(e.f, v, default).value, m).BvVal?
    ensures Eval(OptTerm(e.f, v, default).value, m).width == 64
    ensures Is64Or(e.f, m, v, n, Eval(OptTerm(e.f, v, default).value, m).n)
  {
    hide Encodable, Satisfies, Encode, Walk, Declared, Eval, OpReads;
    if v.Some? {
      ReadIn(e, m, s, v.value);
    }
  }

  lemma LengthsIn(e: Source, m: Model, s: Site, base: ValueId) returns (len: nat, cap: nat)
    requires Encodable(e) && Satisfies(m, e) && IsSite(e.f, s) && OpAt(e.f, s).SliceExpr? && OpAt(e.f, s).base == base
    requires ArrayLen(TypeOf(e.f, base)).Some? || SortOfValue(e.f, base) == Some(SeqSort)
    ensures LengthsOf(e.f, base).Some? && Lengths(e.f, m, base, len, cap)
    ensures var (a, b) := LengthsOf(e.f, base).value;
            SortOf(a) == SortOf(b) == BvSort(64) && Eval(a, m) == BvVal(64, len) && Eval(b, m) == BvVal(64, cap)
  {
    hide Encodable, Satisfies, Encode, Walk, Declared, Wrap, Pow2, BinVal, CmpVal;
    match ArrayLen(TypeOf(e.f, base))
    case Some(n) => len, cap := Wrap(64, n), Wrap(64, n);
    case None =>
      assert OpReads(OpAt(e.f, s))[0] == base;
      ReadIn(e, m, s, base);
      LengthValue(TermOf(e.f, base).value, m);
      len, cap := ValueIn(e.f, m, base).value.len, ValueIn(e.f, m, base).value.cap;
  }

  /** The bounds and the lengths, and the value they give. */
  lemma SliceParts(e: Source, m: Model, s: Site) returns (len: nat, cap: nat, l: nat, h: nat, c: nat)
    requires Encodable(e) && Satisfies(m, e) && IsSite(e.f, s) && OpAt(e.f, s).SliceExpr?
    requires var op := OpAt(e.f, s);
             && SortOfValue(e.f, op.dst) == Some(SeqSort)
             && Typed64(e.f, op.low) && Typed64(e.f, op.high) && Typed64(e.f, op.max)
             && (ArrayLen(TypeOf(e.f, op.base)).Some? || SortOfValue(e.f, op.base) == Some(SeqSort))
    ensures var op := OpAt(e.f, s);
            && Lengths(e.f, m, op.base, len, cap) && Is64Or(e.f, m, op.low, 0, l) && Is64Or(e.f, m, op.high, len, h)
            && Is64Or(e.f, m, op.max, cap, c)
            && ValueIn(e.f, m, op.dst) == Some(SeqVal(Wrap(64, h - l), Wrap(64, c - l)))
  {
    hide Encodable, Satisfies, Encode, Walk, Declared, Eval, LengthsOf, Lengths, Is64Or, OptTerm, Typed64, OpReads,
      SliceTerm, Pow2;
    var op := OpAt(e.f, s);
    len, cap := LengthsIn(e, m, s, op.base);
    BoundsRead(op);
    ZeroValue(m);
    var (a, b) := LengthsOf(e.f, op.base).value;
    OptIn(e, m, s, op.low, BvLit(64, 0), 0);
    OptIn(e, m, s, op.high, a, len);
    OptIn(e, m, s, op.max, b, cap);
    var lt, ht, ct := OptTerm(e.f, op.low, BvLit(64, 0)).value, OptTerm(e.f, op.high, a).value,
      OptTerm(e.f, op.max, b).value;
    l, h, c := Eval(lt, m).n, Eval(ht, m).n, Eval(ct, m).n;
    SliceRhs(e, s.0, op);
    DestinationIs(e, m, s, op.dst, MkSeq(BvBin(Sub, ht, lt), BvBin(Sub, ct, lt)));
    SlicedValue(ht, lt, ct, m, h, l, c);
  }

  lemma SliceForced(e: Source, m: Model, s: Site)
    requires Encodable(e) && Satisfies(m, e) && IsSite(e.f, s) && OpAt(e.f, s).SliceExpr?
    ensures var op := OpAt(e.f, s); SliceMeans(e.f, m, op.dst, op.base, op.low, op.high, op.max)
  {
    hide Encodable, Satisfies, Lengths, Is64Or, Typed64;
    var op := OpAt(e.f, s);
    if SortOfValue(e.f, op.dst) == Some(SeqSort) && Typed64(e.f, op.low) && Typed64(e.f, op.high)
       && Typed64(e.f, op.max) && (ArrayLen(TypeOf(e.f, op.base)).Some? || SortOfValue(e.f, op.base) == Some(SeqSort)) {
      var len, cap, l, h, c := SliceParts(e, m, s);
    }
  }

  lemma SliceRhs(e: Source, b: nat, op: Op)
    requires b < |e.f.blocks| && op.SliceExpr? && LengthsOf(e.f, op.base).Some?
    requires OptTerm(e.f, op.low, BvLit(64, 0)).Some? && OptTerm(e.f, op.high, LengthsOf(e.f, op.base).value.0).Some?
    requires OptTerm(e.f, op.max, LengthsOf(e.f, op.base).value.1).Some?
    requires SortOf(OptTerm(e.f, op.low, BvLit(64, 0)).value) == BvSort(64)
    requires SortOf(OptTerm(e.f, op.high, LengthsOf(e.f, op.base).value.0).value) == BvSort(64)
    requires SortOf(OptTerm(e.f, op.max, LengthsOf(e.f, op.base).value.1).value) == BvSort(64)
    ensures var lt := OptTerm(e.f, op.low, BvLit(64, 0)).value;
            var ht := OptTerm(e.f, op.high, LengthsOf(e.f, op.base).value.0).value;
            var ct := OptTerm(e.f, op.max, LengthsOf(e.f, op.base).value.1).value;
            RhsOf(e.f, e.dag, b, op) == Some(MkSeq(BvBin(Sub, ht, lt), BvBin(Sub, ct, lt)))
  {
    hide LengthsOf, OptTerm;
  }

  lemma SlicedValue(ht: Term, lt: Term, ct: Term, m: Model, h: nat, l: nat, c: nat)
    requires Eval(ht, m) == BvVal(64, h) && Eval(lt, m) == BvVal(64, l) && Eval(ct, m) == BvVal(64, c)
    ensures Eval(MkSeq(BvBin(Sub, ht, lt), BvBin(Sub, ct, lt)), m) == SeqVal(Wrap(64, h - l), Wrap(64, c - l))
  {
    hide Eval;
    DifferenceValue(ht, lt, m, h, l);
    DifferenceValue(ct, lt, m, c, l);
    PairValue(BvBin(Sub, ht, lt), BvBin(Sub, ct, lt), m, Wrap(64, h - l), Wrap(64, c - l));
  }

  lemma BoundsRead(op: Op)
    requires op.SliceExpr?
    ensures op.low.Some? ==> op.low.value in OpReads(op)
    ensures op.high.Some? ==> op.high.value in OpReads(op)
    ensures op.max.Some? ==> op.max.value in OpReads(op)
  {
    var l, h, x := OptSeq(op.low), OptSeq(op.high), OptSeq(op.max);
    assert OpReads(op) == (([op.base] + l) + h) + x;
    assert op.low.Some? ==> op.low.value in l;
    assert op.high.Some? ==> op.high.value in h;
    assert op.max.Some? ==> op.max.value in x;
  }

  lemma ZeroValue(m: Model)
    ensures Eval(BvLit(64, 0), m) == BvVal(64, 0)
  {
  }

  lemma DifferenceValue(a: Term, b: Term, m: Model, x: nat, y: nat)
    requires Eval(a, m) == BvVal(64, x) && Eval(b, m) == BvVal(64, y)
    ensures Eval(BvBin(Sub, a, b), m) == BvVal(64, Wrap(64, x - y))
  {
    hide Wrap;
  }

  // ---- phis ----

  /** Control comes into a block from one place only. */
  lemma OneWayIn(e: Source, m: Model, p: nat, q: nat, b: nat)
    requires Encodable(e) && Satisfies(m, e) && Comes(e, m, p, b) && Comes(e, m, q, b)
    ensures p == q
  {
    hide Chosen, Walk, CutsBackEdges, On, GuardAsserts, Satisfies, WellShaped;
    GuardsSatisfied(e, m);
    SourceInRange(e);
    var path := GuardsFollowOnePath(e.f, e.dag, e.reachable, m);
    var i :| 0 <= i < |path| && path[i] == p;
    var j :| 0 <= j < |path| && path[j] == q;
    SameLength(e.f, e.dag);
    LeadsTo(e, m, path, i, b);
    LeadsTo(e, m, path, j, b);
    if i + 1 < j + 1 {
      PathTwice(e.dag, path, i + 1, j + 1);
    } else if j + 1 < i + 1 {
      PathTwice(e.dag, path, j + 1, i + 1);
    }
  }

  lemma LeadsTo(e: Source, m: Model, path: seq<nat>, i: nat, b: nat)
    requires GuardPath(e.f, e.dag, m, path) && i < |path| && Comes(e, m, path[i], b)
    ensures i + 1 < |path| && path[i + 1] == b
  {
    hide Chosen, On;
    if i + 1 < |path| {
      assert StepAt(e.f, m, path, i);
    }
  }

  lemma GuardsSatisfied(e: Source, m: Model)
    requires Encodable(e) && Satisfies(m, e)
    ensures GuardModel(e.f, e.dag, e.reachable, m)
  {
    hide Walk, CutsBackEdges, GuardAsserts, DeclarationAsserts, AllOpAsserts, ForwardAsserts, AllCallAsserts, Declared;
    SourceInRange(e);
  }

  /** With sorts that fit, the kept edges give one guard and one value each. */
  lemma {:induction false} KeptThere(e: Source, b: nat, d: ValueId, edges: seq<ValueId>, k: nat)
    requires Encodable(e) && b < |e.f.blocks| && PhiTyped(e, b, d, edges) && k <= |edges| == |e.f.blocks[b].preds|
    ensures PhiKept(e.f, e.dag, b, edges, k).Some?
    ensures forall i :: 0 <= i < |PhiKept(e.f, e.dag, b, edges, k).value| ==>
              var pair := PhiKept(e.f, e.dag, b, edges, k).value[i];
              SortOf(pair.0) == BoolSort && SortOf(pair.1) == SortOfValue(e.f, d).value
  {
    hide CutsBackEdges, EdgeGuard, Walk;
    if k > 0 {
      KeptThere(e, b, d, edges, k - 1);
      var p := e.f.blocks[b].preds[k - 1];
      SourceInRange(e);
      PredInRange(e, b, k - 1);
      if b in e.dag[p] {
        KeptSuccessor(e.f, e.dag, p, b);
        assert ForkedBlock(e.f, p);
        EdgeGuardMeaning(e.f, p, b, map[]);
      }
    }
  }

  lemma PredInRange(e: Source, b: nat, j: nat)
    requires Encodable(e) && b < |e.f.blocks| && j < |e.f.blocks[b].preds|
    ensures e.f.blocks[b].preds[j] < |e.f.blocks|
  {
    hide CutsBackEdges, Walk;
    assert WellShapedBlock(e.f, b);
    assert e.f.blocks[b].preds[j] in e.f.blocks[b].preds;
  }

  lemma {:induction false} ChainThere(kept: seq<(Term, Term)>, sort: Sort)
    requires |kept| > 0
    requires forall i :: 0 <= i < |kept| ==> SortOf(kept[i].0) == BoolSort && SortOf(kept[i].1) == sort
    ensures IteChain(kept).Some? && SortOf(IteChain(kept).value) == sort
  {
    if |kept| > 1 {
      ChainThere(kept[1..], sort);
    }
  }

  lemma PhiForced(e: Source, m: Model, s: Site)
    requires Encodable(e) && Satisfies(m, e) && IsSite(e.f, s) && OpAt(e.f, s).Phi?
    ensures PhiMeans(e, m, s.0, OpAt(e.f, s).dst, OpAt(e.f, s).edges)
  {
    hide Encodable, Satisfies, Encode, Walk, Declared, Eval, Comes, PhiKept, IteChain, PhiTyped;
    var b, d, edges := s.0, OpAt(e.f, s).dst, OpAt(e.f, s).edges;
    var preds := e.f.blocks[b].preds;
    forall j | 0 <= j < |edges| && j < |preds| && PhiTyped(e, b, d, edges) && Comes(e, m, preds[j], b)
      ensures ValueIn(e.f, m, d) == ValueIn(e.f, m, edges[j])
    {
      PhiValue(e, m, s, j);
    }
  }

  lemma PhiValue(e: Source, m: Model, s: Site, j: nat)
    requires Encodable(e) && Satisfies(m, e) && IsSite(e.f, s) && OpAt(e.f, s).Phi?
    requires PhiTyped(e, s.0, OpAt(e.f, s).dst, OpAt(e.f, s).edges)
    requires j < |OpAt(e.f, s).edges| && j < |e.f.blocks[s.0].preds| && Comes(e, m, e.f.blocks[s.0].preds[j], s.0)
    ensures ValueIn(e.f, m, OpAt(e.f, s).dst) == ValueIn(e.f, m, OpAt(e.f, s).edges[j])
  {
    hide Encodable, Satisfies, Encode, Walk, Declared, Eval, Comes, PhiKept, IteChain, PhiTyped;
    var b, d, edges := s.0, OpAt(e.f, s).dst, OpAt(e.f, s).edges;
    PhiShape(e, s);
    KeptThere(e, b, d, edges, |edges|);
    SourceInRange(e);
    var kept := PhiKept(e.f, e.dag, b, edges, |edges|).value;
    var from := KeptFrom(e.f, e.dag, b, edges, |edges|);
    KeptHas(e, m, s, j, kept, from);
    var n :| 0 <= n < |from| && from[n] == j;
    PhiSort(e, s);
    ChainThere(kept, SortOfValue(e.f, d).value);
    assert RhsOf(e.f, e.dag, b, OpAt(e.f, s)) == IteChain(kept);
    DestinationIs(e, m, s, d, IteChain(kept).value);
    OneGuard(e, m, s, kept, from, n);
    IteChainValue(kept, m, n);
    assert edges[j] in OpReads(OpAt(e.f, s));
    PhiEdgeSort(e, m, s, j);
    ReadIn(e, m, s, edges[j]);
    assert FromEdge(e.f, e.dag, b, edges, kept[n], j);
  }

  lemma PhiShape(e: Source, s: Site)
    requires Encodable(e) && IsSite(e.f, s) && OpAt(e.f, s).Phi?
    ensures |OpAt(e.f, s).edges| == |e.f.blocks[s.0].preds|
    ensures forall i, j :: 0 <= i < j < |e.f.blocks[s.0].preds| ==> e.f.blocks[s.0].preds[i] != e.f.blocks[s.0].preds[j]
  {
    hide CutsBackEdges, Walk;
    assert WellShapedBlock(e.f, s.0);
  }

  lemma PhiSort(e: Source, s: Site)
    requires IsSite(e.f, s) && OpAt(e.f, s).Phi? && PhiTyped(e, s.0, OpAt(e.f, s).dst, OpAt(e.f, s).edges)
    ensures SortOfValue(e.f, OpAt(e.f, s).dst).Some?
  {
  }

  lemma PhiEdgeSort(e: Source, m: Model, s: Site, j: nat)
    requires IsSite(e.f, s) && OpAt(e.f, s).Phi? && PhiTyped(e, s.0, OpAt(e.f, s).dst, OpAt(e.f, s).edges)
    requires j < |OpAt(e.f, s).edges| && j < |e.f.blocks[s.0].preds| && Comes(e, m, e.f.blocks[s.0].preds[j], s.0)
    ensures SortOfValue(e.f, OpAt(e.f, s).edges[j]) == SortOfValue(e.f, OpAt(e.f, s).dst)
  {
    hide On, Chosen;
  }

  lemma KeptHas(e: Source, m: Model, s: Site, j: nat, kept: seq<(Term, Term)>, from: seq<nat>)
    requires IsSite(e.f, s) && OpAt(e.f, s).Phi? && j < |OpAt(e.f, s).edges| == |e.f.blocks[s.0].preds|
    requires Comes(e, m, e.f.blocks[s.0].preds[j], s.0) && |from| == |kept|
    requires forall i :: 0 <= i < |OpAt(e.f, s).edges| && Edge(e.dag, e.f.blocks[s.0].preds[i], s.0) ==> i in from
    ensures j in from && |kept| > 0
  {
    hide On, Chosen;
  }

  /** The guard of the edge control comes along is on, and no other. */
  lemma OneGuard(e: Source, m: Model, s: Site, kept: seq<(Term, Term)>, from: seq<nat>, n: nat)
    requires Encodable(e) && Satisfies(m, e) && IsSite(e.f, s) && OpAt(e.f, s).Phi? && n < |from| == |kept|
    requires |OpAt(e.f, s).edges| == |e.f.blocks[s.0].preds|
    requires forall i :: 0 <= i < |kept| ==> FromEdge(e.f, e.dag, s.0, OpAt(e.f, s).edges, kept[i], from[i])
    requires forall i, i' :: 0 <= i < i' < |kept| ==> from[i] < from[i']
    requires from[n] < |e.f.blocks[s.0].preds| && Comes(e, m, e.f.blocks[s.0].preds[from[n]], s.0)
    ensures forall i :: 0 <= i < |kept| ==> (Holds(kept[i].0, m) <==> i == n)
  {
    hide Satisfies, Encode, Walk, Declared, Eval, CutsBackEdges, WellShaped, Chosen, On;
    var b, preds := s.0, e.f.blocks[s.0].preds;
    SourceInRange(e);
    PhiShape(e, s);
    forall i | 0 <= i < |kept|
      ensures Holds(kept[i].0, m) <==> i == n
    {
      assert FromEdge(e.f, e.dag, b, OpAt(e.f, s).edges, kept[i], from[i]);
      EdgeChosen(e.f, e.dag, m, preds[from[i]], b);
      if i != n && Comes(e, m, preds[from[i]], b) {
        OneWayIn(e, m, preds[from[i]], preds[from[n]], b);
        assert from[i] != from[n];
      }
    }
  }

  // ---- all of them ----

  /** Under an assignment that satisfies the encoding every instruction computes what it should. */
  lemma EveryInstruction(e: Source, m: Model, s: Site)
    requires Encodable(e) && Satisfies(m, e) && IsSite(e.f, s)
    ensures Computes(e, m, s)
  {
    hide Encodable, Satisfies, AssignMeans, BinOpMeans, UnOpMeans, PhiMeans, AddressMeans, ConvertMeans, MakeMeans,
      SliceMeans, LenMeans;
    match OpAt(e.f, s)
    case Assign(_, _) => AssignForced(e, m, s);
    case BinOp(_, _, _, _) => BinOpForced(e, m, s);
    case UnOp(_, _, _) => UnOpForced(e, m, s);
    case Phi(_, _) => PhiForced(e, m, s);
    case Alloc(_) => AddressForced(e, m, s);
    case FieldAddr(_, _, _) => AddressForced(e, m, s);
    case IndexAddr(_, _, _) => AddressForced(e, m, s);
    case Convert(_, _) => ConvertForced(e, m, s);
    case Make(_, k, _) =>
      if k == MakeSlice {
        MakeForced(e, m, s);
      }
    case SliceExpr(_, _, _, _, _) => SliceForced(e, m, s);
    case Call(d, c, args) =>
      if d.Some? && c == Builtin("len") && |args| > 0 {
        LenForced(e, m, s, d.value);
      }
    case _ =>
  }

  /** For the encoding of a body, whichever cut and order the encoder chose. */
  lemma EncodingDetermines(f: Function, cs: Contracts, m: Model, s: Site)
    requires WellShaped(f) && Models(m, Query(Declared(f), EncodingOf(f, cs))) && IsSite(f, s)
    ensures Computes(SourceOf(f, cs), m, s)
  {
    hide WellShaped, EncodingOf, Declared, Computes, SourceOf, Encode, CutsBackEdges, OrderInRange;
    SourceEncodable(f, cs);
    assert SourceOf(f, cs).f == f by { SourceIsOf(f, cs); }
    EveryInstruction(SourceOf(f, cs), m, s);
  }

  lemma SourceIsOf(f: Function, cs: Contracts)
    ensures SourceOf(f, cs).f == f && SourceOf(f, cs).cs == cs
  {
  }

  // ---- declared values ----

  /** A constant has its meaning; the zero slice and string literals are their lengths. */
  ghost predicate ConstMeans(f: Function, m: Model, v: ValueId) {
    ValueOf(f, v).kind.ConstKind? ==>
      var k, ty := ValueOf(f, v).kind.c, TypeOf(f, v);
      && (ConstMeaning(k, ty).Some? ==> ValueIn(f, m, v) == ConstMeaning(k, ty))
      && (k == NilConst && ty == SliceTy ==> ValueIn(f, m, v) == Some(SeqVal(0, 0)))
      && (k.StrConst? && ty == StrTy ==> ValueIn(f, m, v) == Some(SeqVal(Wrap(64, k.len), Wrap(64, k.len))))
  }

  /** Slices and strings no slice expression made are no longer than their capacity. */
  ghost predicate LengthMeans(f: Function, m: Model, v: ValueId) {
    SortOfValue(f, v) == Some(SeqSort) && !SliceDerived(f, v) ==>
      match ValueIn(f, m, v)
      case Some(SeqVal(len, cap)) => len <= cap
      case _ => false
  }

  lemma {:induction false} DeclarationHas(f: Function, vs: seq<ValueId>, v: ValueId)
    requires v in vs
    ensures forall t :: t in DeclareAsserts(f, v) ==> t in DeclarationAsserts(f, vs)
  {
    hide DeclareAsserts;
    if v in vs[..|vs| - 1] {
      DeclarationHas(f, vs[..|vs| - 1], v);
    }
  }

  lemma DeclarationHolds(e: Source, m: Model, v: ValueId, t: Term)
    requires Encodable(e) && Satisfies(m, e) && v in Mentions(e.f) && t in DeclareAsserts(e.f, v)
    ensures Holds(t, m)
  {
    hide DeclareAsserts, AllOpAsserts, Walk, Declared, DeclarationAsserts, ForwardAsserts, AllCallAsserts,
      CutsBackEdges, GuardAsserts, Mentions;
    DeclarationHas(e.f, Mentions(e.f), v);
  }

  /** A mentioned register has a value of its sort. */
  lemma MentionIn(e: Source, m: Model, v: ValueId)
    requires Encodable(e) && Satisfies(m, e) && v in Mentions(e.f) && SortOfValue(e.f, v).Some?
    ensures ValueIn(e.f, m, v).Some? && HasSort(ValueIn(e.f, m, v).value, SortOfValue(e.f, v).value)
  {
    hide Encode, Walk, Mentions, CutsBackEdges;
    assert (NameOf(e.f, v), SortOfValue(e.f, v).value) in Declared(e.f);
  }

  lemma ConstForced(e: Source, m: Model, v: ValueId)
    requires Encodable(e) && Satisfies(m, e) && v in Mentions(e.f)
    ensures ConstMeans(e.f, m, v)
  {
    hide Encodable, Satisfies, Mentions, Eval, Wrap;
    if ValueOf(e.f, v).kind.ConstKind? && SortOfValue(e.f, v).Some? {
      var k, ty := ValueOf(e.f, v).kind.c, TypeOf(e.f, v);
      MentionIn(e, m, v);
      ValueEval(e.f, m, v);
      ConstValue(k, ty, m);
      if ConstTerm(k, ty).Some? && SortOf(ConstTerm(k, ty).value) == SortOfTy(ty).value {
        var t := Eq(TermOf(e.f, v).value, ConstTerm(k, ty).value);
        ConstAsserted(e.f, v, t);
        DeclarationHolds(e, m, v, t);
        EquationHolds(TermOf(e.f, v).value, ConstTerm(k, ty).value, m);
      }
    }
  }

  lemma ConstAsserted(f: Function, v: ValueId, t: Term)
    requires ValueOf(f, v).kind.ConstKind? && TermOf(f, v).Some?
    requires ConstTerm(ValueOf(f, v).kind.c, TypeOf(f, v)).Some?
    requires SortOf(ConstTerm(ValueOf(f, v).kind.c, TypeOf(f, v)).value) == SortOf(TermOf(f, v).value)
    requires t == Eq(TermOf(f, v).value, ConstTerm(ValueOf(f, v).kind.c, TypeOf(f, v)).value)
    ensures t in DeclareAsserts(f, v)
  {
    hide ConstTerm, TermOf, SliceDerived;
  }

  lemma ConstValue(k: ConstVal, ty: Ty, m: Model)
    ensures ConstMeaning(k, ty).Some? ==>
              && ConstTerm(k, ty).Some? && SortOfTy(ty) == Some(SortOf(ConstTerm(k, ty).value))
              && Eval(ConstTerm(k, ty).value, m) == ConstMeaning(k, ty).value
    ensures k == NilConst && ty == SliceTy ==>
              ConstTerm(k, ty).Some? && SortOf(ConstTerm(k, ty).value) == SeqSort
              && Eval(ConstTerm(k, ty).value, m) == SeqVal(0, 0)
    ensures k.StrConst? && ty == StrTy ==>
              ConstTerm(k, ty).Some? && SortOf(ConstTerm(k, ty).value) == SeqSort
              && Eval(ConstTerm(k, ty).value, m) == SeqVal(Wrap(64, k.len), Wrap(64, k.len))
  {
    hide Pow2;
  }

  lemma LengthForced(e: Source, m: Model, v: ValueId)
    requires Encodable(e) && Satisfies(m, e) && v in Mentions(e.f)
    ensures LengthMeans(e.f, m, v)
  {
    hide Encodable, Satisfies, Mentions, Eval;
    if SortOfValue(e.f, v) == Some(SeqSort) && !SliceDerived(e.f, v) {
      MentionIn(e, m, v);
      ValueEval(e.f, m, v);
      var t := TermOf(e.f, v).value;
      assert SeqInvariant(t) in DeclareAsserts(e.f, v);
      DeclarationHolds(e, m, v, SeqInvariant(t));
      InvariantValue(t, m);
    }
  }

  lemma InvariantValue(t: Term, m: Model)
    requires Eval(t, m).SeqVal? && Holds(SeqInvariant(t), m)
    ensures Eval(t, m).len <= Eval(t, m).cap
  {
    LengthValue(t, m);
    assert Eval(SeqInvariant(t), m) == BoolVal(Eval(t, m).len <= Eval(t, m).cap);
  }
}
