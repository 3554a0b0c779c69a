/** Every assertion of an encoding is over the constants the encoding declares. */
module EncodingClosed {
  import opened Wrappers
  import opened MachineInts
  import opened Graphs
  import opened CutDag
  import opened Terms
  import opened Ir
  import opened Summaries
  import opened Encoding
  import opened GuardTerms
  import opened Encoder
  import opened RunDefs
  import RunAnswers
  import opened RunCalls
  import opened RunTheorem
  import opened Frames

  ghost predicate Closed(f: Function, t: Term) {
    FreeVars(t) <= Declared(f)
  }

  /** A compound term is closed if its children are. */
  lemma FromChildren(f: Function, t: Term)
    requires !t.Var? && forall a :: a in Children(t) ==> Closed(f, a)
    ensures Closed(f, t)
  {
    forall v | v in FreeVars(t)
      ensures v in Declared(f)
    {
      ChildrenCover(t, v);
      var a :| a in Children(t) && v in FreeVars(a);
      assert Closed(f, a);
    }
  }

  // ---- values and guards ----

  lemma ValueClosed(f: Function, v: ValueId)
    requires v in Mentions(f) && TermOf(f, v).Some?
    ensures Closed(f, TermOf(f, v).value)
  {
    assert (NameOf(f, v), SortOfValue(f, v).value) in Declared(f);
  }

  lemma OperandClosed(f: Function, s: Site, v: ValueId)
    requires IsSite(f, s) && v in OpValues(OpAt(f, s)) && TermOf(f, v).Some?
    ensures Closed(f, TermOf(f, v).value)
  {
    Mentioned(f, s, v);
  }

  lemma GuardClosed(f: Function, b: nat)
    requires b < |f.blocks|
    ensures Closed(f, GuardTerm(b))
  {
  }

  lemma CondClosed(f: Function, b: nat)
    requires BranchCond(f, b).Some?
    ensures Closed(f, BranchCond(f, b).value)
  {
    hide Mentions;
    var s: Site := (b, |f.blocks[b].instrs| - 1);
    var v := OpAt(f, s).cond;
    if TermOf(f, v).Some? {
      assert v in OpValues(OpAt(f, s));
      OperandClosed(f, s, v);
    } else {
      assert HavocBranch(f, b) && (HavocCond(b), BoolSort) in Declared(f);
    }
  }

  lemma EdgeGuardClosed(f: Function, p: nat, b: nat)
    requires EdgeGuard(f, p, b).Some?
    ensures Closed(f, EdgeGuard(f, p, b).value)
  {
    hide Declared;
    GuardClosed(f, p);
    var t := EdgeGuard(f, p, b).value;
    if t != GuardTerm(p) {
      var c := BranchCond(f, p).value;
      CondClosed(f, p);
      FromChildren(f, Not(c));
      FromChildren(f, t);
    }
  }

  lemma GuardRhsClosed(f: Function, dag: Graph, reachable: seq<bool>, b: nat)
    requires b < |dag|
    ensures Closed(f, GuardRhs(f, dag, reachable, b))
  {
    hide Declared, EdgeGuard;
    var edges := Incoming(f, dag, b, |dag|);
    forall e | e in edges
      ensures Closed(f, e)
    {
      var p := IncomingIs(f, dag, b, |dag|, e);
      EdgeGuardClosed(f, p, b);
    }
    var t := GuardRhs(f, dag, reachable, b);
    if t.Or? && t == Or(edges) {
      FromChildren(f, t);
    } else if |edges| == 1 {
      assert edges[0] in edges;
    }
  }

  // ---- defining assertions ----

  lemma IntOpClosed(f: Function, k: BinOpKind, w: nat, signed: bool, l: Term, r: Term)
    requires Closed(f, l) && Closed(f, r) && IntOpTerm(k, w, signed, l, r).Some?
    ensures Closed(f, IntOpTerm(k, w, signed, l, r).value)
  {
    hide Closed, Pow2, Wrap, SortOf;
    LiteralClosed(f);
    var t := IntOpTerm(k, w, signed, l, r).value;
    if k == AndNotK {
      FromChildren(f, t.r);
    }
    FromChildren(f, t);
  }

  lemma LiteralClosed(f: Function)
    ensures forall w, n :: Closed(f, BvLit(w, n))
    ensures forall b :: Closed(f, BoolLit(b))
    ensures Closed(f, NilLit)
  {
  }

  lemma BinOpClosed(f: Function, k: BinOpKind, ty: Ty, l: Term, r: Term)
    requires Closed(f, l) && Closed(f, r) && BinOpTerm(k, ty, l, r).Some?
    ensures Closed(f, BinOpTerm(k, ty, l, r).value)
  {
    hide Closed, IntOpTerm;
    var t := BinOpTerm(k, ty, l, r).value;
    if k == EqK {
      FromChildren(f, t);
    } else if k == NeqK {
      FromChildren(f, t.t);
      FromChildren(f, t);
    } else {
      IntOpClosed(f, k, ty.width, ty.signed, l, r);
    }
  }

  lemma UnOpClosed(f: Function, k: UnOpKind, ty: Ty, o: Term)
    requires Closed(f, o) && UnOpTerm(k, ty, o).Some?
    ensures Closed(f, UnOpTerm(k, ty, o).value)
  {
    hide Closed;
    LiteralClosed(f);
    FromChildren(f, UnOpTerm(k, ty, o).value);
  }

  lemma RangeClosed(f: Function, from: Ty, to: Ty, d: Term)
    requires from.IntTy? && to.IntTy? && Closed(f, d) && WideningRange(from, to, d).Some?
    ensures Closed(f, WideningRange(from, to, d).value)
  {
    hide Closed, Pow2, Wrap;
    LiteralClosed(f);
    var t := WideningRange(from, to, d).value;
    if from.signed {
      FromChildren(f, t.ts[0]);
      FromChildren(f, t.ts[1]);
    }
    FromChildren(f, t);
  }

  lemma {:induction false} PhiKeptClosed(f: Function, dag: Graph, s: Site, k: nat)
    requires IsSite(f, s) && OpAt(f, s).Phi? && k <= |OpAt(f, s).edges|
        && PhiKept(f, dag, s.0, OpAt(f, s).edges, k).Some?
    ensures forall e :: e in PhiKept(f, dag, s.0, OpAt(f, s).edges, k).value ==> Closed(f, e.0) && Closed(f, e.1)
  {
    hide Closed, EdgeGuard;
    if k > 0 {
      PhiKeptClosed(f, dag, s, k - 1);
      var edges := OpAt(f, s).edges;
      var p := f.blocks[s.0].preds[k - 1];
      if s.0 in dag[p] {
        EdgeGuardClosed(f, p, s.0);
        assert edges[k - 1] in OpValues(OpAt(f, s));
        OperandClosed(f, s, edges[k - 1]);
      }
    }
  }

  lemma {:induction false} IteClosed(f: Function, kept: seq<(Term, Term)>)
    requires |kept| > 0 && IteChain(kept).Some? && forall e :: e in kept ==> Closed(f, e.0) && Closed(f, e.1)
    ensures Closed(f, IteChain(kept).value)
  {
    hide Closed;
    assert kept[0] in kept;
    if |kept| > 1 {
      IteClosed(f, kept[1..]);
      FromChildren(f, IteChain(kept).value);
    }
  }

  lemma LensClosed(f: Function, s: Site, base: ValueId)
    requires IsSite(f, s) && base in OpValues(OpAt(f, s)) && LengthsOf(f, base).Some?
    ensures Closed(f, LengthsOf(f, base).value.0) && Closed(f, LengthsOf(f, base).value.1)
  {
    hide Closed;
    LiteralClosed(f);
    if ArrayLen(TypeOf(f, base)).None? {
      OperandClosed(f, s, base);
      FromChildren(f, LengthsOf(f, base).value.0);
      FromChildren(f, LengthsOf(f, base).value.1);
    }
  }

  lemma SliceClosed(f: Function, s: Site)
    requires IsSite(f, s) && OpAt(f, s).SliceExpr?
    requires var op := OpAt(f, s); SliceTerm(f, op.base, op.low, op.high, op.max).Some?
    ensures var op := OpAt(f, s); Closed(f, SliceTerm(f, op.base, op.low, op.high, op.max).value)
  {
    hide Closed, LengthsOf, OpValues, TermOf;
    var op := OpAt(f, s);
    LiteralClosed(f);
    SliceUses(op);
    LensClosed(f, s, op.base);
    var lens := LengthsOf(f, op.base).value;
    OptClosed(f, s, op.low, BvLit(64, 0));
    OptClosed(f, s, op.high, lens.0);
    OptClosed(f, s, op.max, lens.1);
    var t := SliceTerm(f, op.base, op.low, op.high, op.max).value;
    DifferenceClosed(f, OptTerm(f, op.high, lens.0).value, OptTerm(f, op.low, BvLit(64, 0)).value);
    DifferenceClosed(f, OptTerm(f, op.max, lens.1).value, OptTerm(f, op.low, BvLit(64, 0)).value);
    FromChildren(f, t);
  }

  lemma SliceUses(op: Op)
    requires op.SliceExpr?
    ensures op.base in OpValues(op)
    ensures (op.low.Some? ==> op.low.value in OpValues(op)) && (op.high.Some? ==> op.high.value in OpValues(op))
    ensures op.max.Some? ==> op.max.value in OpValues(op)
  {
  }

  lemma OptClosed(f: Function, s: Site, o: Option<ValueId>, default: Term)
    requires IsSite(f, s) && (o.Some? ==> o.value in OpValues(OpAt(f, s))) && Closed(f, default)
    ensures OptTerm(f, o, default).Some? ==> Closed(f, OptTerm(f, o, default).value)
  {
    hide Closed, OpValues;
    if o.Some? && TermOf(f, o.value).Some? {
      OperandClosed(f, s, o.value);
    }
  }

  lemma DifferenceClosed(f: Function, x: Term, y: Term)
    requires Closed(f, x) && Closed(f, y)
    ensures Closed(f, BvBin(Sub, x, y))
  {
    hide Closed;
    FromChildren(f, BvBin(Sub, x, y));
  }

  lemma MakeClosed(f: Function, s: Site)
    requires IsSite(f, s) && OpAt(f, s).Make? && MakeSliceTerm(f, OpAt(f, s).args).Some?
    ensures Closed(f, MakeSliceTerm(f, OpAt(f, s).args).value)
  {
    hide Closed;
    var op := OpAt(f, s);
    forall v | v in op.args && TermOf(f, v).Some?
      ensures Closed(f, TermOf(f, v).value)
    {
      assert v in OpValues(op);
      OperandClosed(f, s, v);
    }
    FromChildren(f, MakeSliceTerm(f, op.args).value);
  }

  lemma RhsClosed(f: Function, dag: Graph, s: Site)
    requires IsSite(f, s) && RhsOf(f, dag, s.0, OpAt(f, s)).Some?
    ensures Closed(f, RhsOf(f, dag, s.0, OpAt(f, s)).value)
  {
    hide Closed, BinOpTerm, UnOpTerm, SliceTerm, MakeSliceTerm, IteChain, PhiKept;
    var op := OpAt(f, s);
    forall v | v in OpValues(op) && TermOf(f, v).Some?
      ensures Closed(f, TermOf(f, v).value)
    {
      OperandClosed(f, s, v);
    }
    match op
    case Assign(_, src) => assert src in OpValues(op);
    case BinOp(_, k, l, r) =>
      assert l in OpValues(op) && r in OpValues(op);
      BinOpClosed(f, k, TypeOf(f, l), TermOf(f, l).value, TermOf(f, r).value);
    case UnOp(_, k, o) =>
      assert o in OpValues(op);
      UnOpClosed(f, k, TypeOf(f, o), TermOf(f, o).value);
    case Phi(_, edges) =>
      PhiKeptClosed(f, dag, s, |edges|);
      IteClosed(f, PhiKept(f, dag, s.0, edges, |edges|).value);
    case Make(_, _, _) => MakeClosed(f, s);
    case SliceExpr(_, _, _, _, _) => SliceClosed(f, s);
    case Call(_, _, args) =>
      assert args[0] in OpValues(op);
      FromChildren(f, RhsOf(f, dag, s.0, op).value);
    case _ =>
  }

  lemma OpDefClosed(f: Function, dag: Graph, s: Site)
    requires IsSite(f, s) && OpDef(f, dag, s.0, OpAt(f, s)).Some?
    ensures Closed(f, OpDef(f, dag, s.0, OpAt(f, s)).value)
  {
    hide Closed, RhsOf, WideningRange, OpValues;
    var op := OpAt(f, s);
    var dst := OpDst(op).value;
    DestinationUsed(op);
    OperandClosed(f, s, dst);
    match op
    case Convert(_, x) => RangeClosed(f, TypeOf(f, x), TypeOf(f, dst), TermOf(f, dst).value);
    case Alloc(_) => NonNilClosed(f, TermOf(f, dst).value);
    case FieldAddr(_, _, _) => NonNilClosed(f, TermOf(f, dst).value);
    case IndexAddr(_, _, _) => NonNilClosed(f, TermOf(f, dst).value);
    case _ => EquationClosed(f, dag, s, dst);
  }

  lemma EquationClosed(f: Function, dag: Graph, s: Site, dst: ValueId)
    requires IsSite(f, s) && TermOf(f, dst).Some? && Closed(f, TermOf(f, dst).value)
    requires RhsOf(f, dag, s.0, OpAt(f, s)).Some?
        && MkEq(TermOf(f, dst).value, RhsOf(f, dag, s.0, OpAt(f, s)).value).Some?
    ensures Closed(f, MkEq(TermOf(f, dst).value, RhsOf(f, dag, s.0, OpAt(f, s)).value).value)
  {
    hide Closed, RhsOf;
    RhsClosed(f, dag, s);
    EqClosed(f, TermOf(f, dst).value, RhsOf(f, dag, s.0, OpAt(f, s)).value);
  }

  lemma EqClosed(f: Function, x: Term, y: Term)
    requires Closed(f, x) && Closed(f, y) && MkEq(x, y).Some?
    ensures Closed(f, MkEq(x, y).value)
  {
    hide Closed;
    FromChildren(f, Eq(x, y));
  }

  lemma DestinationUsed(op: Op)
    requires OpDst(op).Some?
    ensures OpDst(op).value in OpValues(op)
  {
  }

  lemma NonNilClosed(f: Function, d: Term)
    requires Closed(f, d) && MkNonNil(d).Some?
    ensures Closed(f, MkNonNil(d).value)
  {
    hide Closed;
    FromChildren(f, IsNil(d));
    FromChildren(f, Not(IsNil(d)));
  }

  // ---- declarations, loads and calls ----

  lemma DeclareClosed(f: Function, v: ValueId, t: Term)
    requires v in Mentions(f) && t in DeclareAsserts(f, v)
    ensures Closed(f, t)
  {
    hide Closed, Mentions;
    LiteralClosed(f);
    ValueClosed(f, v);
    var x := TermOf(f, v).value;
    if t == SeqInvariant(x) {
      FromChildren(f, SeqLen(x));
      FromChildren(f, SeqCap(x));
      FromChildren(f, t);
    } else {
      var lit := ConstTerm(ValueOf(f, v).kind.c, TypeOf(f, v)).value;
      ConstClosed(f, ValueOf(f, v).kind.c, TypeOf(f, v));
      EqClosed(f, x, lit);
    }
  }

  lemma ConstClosed(f: Function, c: ConstVal, ty: Ty)
    requires ConstTerm(c, ty).Some?
    ensures Closed(f, ConstTerm(c, ty).value)
  {
    hide Closed, Wrap, Pow2;
    LiteralClosed(f);
    match c
    case BoolConst(_) =>
    case IntConst(_) =>
    case NilConst => PairClosed(f, BvLit(64, 0));
    case StrConst(n) => PairClosed(f, BvLit(64, Wrap(64, n)));
    case OtherConst =>
  }

  lemma PairClosed(f: Function, x: Term)
    requires Closed(f, x)
    ensures Closed(f, MkSeq(x, x))
  {
    hide Closed;
    FromChildren(f, MkSeq(x, x));
  }

  /** Every pending load is a load of a walked site. */
  lemma {:induction false} SeenLoads(f: Function, sites: seq<Site>, k: AddrKey)
    requires (forall s :: s in sites ==> IsSite(f, s)) && k in Forwarded(f, sites).seen
    ensures exists s :: s in sites && OpAt(f, s).Load? && OpAt(f, s).dst == Forwarded(f, sites).seen[k]
  {
    if sites != [] {
      var before := sites[..|sites| - 1];
      if k in Forwarded(f, before).seen && Forwarded(f, before).seen[k] == Forwarded(f, sites).seen[k] {
        SeenLoads(f, before, k);
        var s :| s in before && OpAt(f, s).Load? && OpAt(f, s).dst == Forwarded(f, before).seen[k];
        assert s in sites;
      } else {
        assert sites[|sites| - 1] in sites;
      }
    }
  }

  lemma LoadClosed(f: Function, sites: seq<Site>, s: Site, t: Term)
    requires (forall s' :: s' in sites ==> IsSite(f, s')) && IsSite(f, s)
    requires t in ForwardAssert(f, Forwarded(f, sites), OpAt(f, s))
    ensures Closed(f, t)
  {
    hide Closed, Forwarded, OpValues;
    var st, op := Forwarded(f, sites), OpAt(f, s);
    var k := KeyOf(st.keys, op.addr);
    SeenLoads(f, sites, k);
    var s' :| s' in sites && OpAt(f, s').Load? && OpAt(f, s').dst == st.seen[k];
    DestinationUsed(op);
    DestinationUsed(OpAt(f, s'));
    OperandClosed(f, s, op.dst);
    OperandClosed(f, s', st.seen[k]);
    EqClosed(f, TermOf(f, op.dst).value, TermOf(f, st.seen[k]).value);
  }

  lemma {:induction false} LoadsClosed(f: Function, sites: seq<Site>, t: Term)
    requires (forall s :: s in sites ==> IsSite(f, s)) && t in ForwardAsserts(f, sites)
    ensures Closed(f, t)
  {
    hide Closed, ForwardAssert, Forwarded;
    var before, last := sites[..|sites| - 1], sites[|sites| - 1];
    assert last in sites;
    if t in ForwardAsserts(f, before) {
      LoadsClosed(f, before, t);
    } else {
      LoadClosed(f, before, last, t);
    }
  }

  lemma ResultClosed(f: Function, s: Site, i: nat)
    requires IsSite(f, s) && OpAt(f, s).Call? && ResultTerm(f, OpAt(f, s).result, i).Some?
    ensures Closed(f, ResultTerm(f, OpAt(f, s).result, i).value)
  {
    hide Closed, OpValues;
    var d := OpAt(f, s).result.value;
    if TermOf(f, d).Some? {
      DestinationUsed(OpAt(f, s));
      OperandClosed(f, s, d);
    } else {
      var e := RunAnswers.ExtractOfIs(f, d, i, |f.blocks|);
      DestinationUsed(OpAt(f, e));
      OperandClosed(f, e, OpAt(f, e).dst);
    }
  }

  lemma BoundClosed(f: Function, s: Site, t: Term)
    requires IsSite(f, s) && OpAt(f, s).Call?
    requires Bind(t, TermsOf(f, OpAt(f, s).args), ResultTerms(f, OpAt(f, s).result)).Some?
    ensures Closed(f, Bind(t, TermsOf(f, OpAt(f, s).args), ResultTerms(f, OpAt(f, s).result)).value)
  {
    hide Declared;
    var op := OpAt(f, s);
    var args, results := TermsOf(f, op.args), ResultTerms(f, op.result);
    var bindings := Bindings(t, args, results);
    var bound := Bind(t, args, results).value;
    forall x | x in FreeVars(bound)
      ensures x in Declared(f)
    {
      var y := SubstituteVars(t, bindings, x);
      match y.0
      case Param(i) =>
        assert op.args[i] in OpValues(op);
        OperandClosed(f, s, op.args[i]);
      case Result(i) => ResultClosed(f, s, i);
      case _ =>
    }
  }

  lemma CallClosed(f: Function, cs: Contracts, s: Site, t: Term)
    requires IsSite(f, s) && t in CallAsserts(f, cs, s.0, OpAt(f, s))
    ensures Closed(f, t)
  {
    hide Closed, Bind;
    var op := OpAt(f, s);
    var k := ContractOf(cs, op.callee.func);
    var cl := GatedIs(f, s.0, k, k.ensures_, op.args, op.result, t);
    BoundClosed(f, s, cl.term);
    GuardClosed(f, s.0);
    FromChildren(f, Not(GuardTerm(s.0)));
    FromChildren(f, t);
  }

  // ---- the whole encoding ----

  lemma GuardAssertClosed(f: Function, dag: Graph, reachable: seq<bool>, t: Term)
    requires |dag| == |f.blocks| && t in GuardAsserts(f, dag, reachable, |f.blocks|)
    ensures Closed(f, t)
  {
    hide Closed, GuardRhs;
    var gs := GuardAsserts(f, dag, reachable, |f.blocks|);
    var b :| 0 <= b < |f.blocks| && gs[b] == t;
    GuardClosed(f, b);
    GuardRhsClosed(f, dag, reachable, b);
    FromChildren(f, t);
  }

  /** Whatever is asserted is over what is declared, for every function and every set of contracts. */
  lemma EncodingIsClosed(f: Function, cs: Contracts, t: Term)
    requires t in EncodingOf(f, cs)
    ensures Closed(f, t)
  {
    hide Closed, GuardAsserts, AllOpAsserts, ForwardAsserts, AllCallAsserts, DeclarationAsserts, OpDef, CallAsserts,
      DeclareAsserts;
    var dag := KeptGraph(f);
    if t in DeclarationAsserts(f, Mentions(f)) {
      var v := DeclarationIs(f, Mentions(f), t);
      DeclareClosed(f, v, t);
    } else if t in GuardAsserts(f, dag, ReachableBlocks(f), |f.blocks|) {
      GuardAssertClosed(f, dag, ReachableBlocks(f), t);
    } else if t in AllOpAsserts(f, dag, |f.blocks|) {
      var s := DefAssertIs(f, dag, |f.blocks|, t);
      OpDefClosed(f, dag, s);
    } else if t in ForwardAsserts(f, Walk(f, BlockOrder(f))) {
      LoadsClosed(f, Walk(f, BlockOrder(f)), t);
    } else {
      var s := CallAssertIs(f, cs, |f.blocks|, t);
      CallClosed(f, cs, s, t);
    }
  }

  /** So a query over an encoding may be conjoined with others, as soon as what is added to it is about the function. */
  lemma QueryIsClosed(f: Function, cs: Contracts, block: nat, extra: seq<Term>)
    requires forall t :: t in extra ==> FreeVars(t) <= Declared(f)
    ensures var q := ReachQuery(f, EncodingOf(f, cs), block, extra); ClosedQuery(q) && OwnNames(q)
  {
    hide EncodingOf, Declared;
    var q := ReachQuery(f, EncodingOf(f, cs), block, extra);
    EncodedNames(f, EncodingOf(f, cs), block, extra);
    forall t | t in q.asserts
      ensures FreeVars(t) <= q.consts
    {
      if t in EncodingOf(f, cs) {
        EncodingIsClosed(f, cs, t);
      } else if t !in extra {
        GuardClosed(f, block);
      }
    }
  }
}
