/** Every defining assertion holds under the assignment, executed or not. */
module RunDefs {
  import opened Wrappers
  import opened MachineInts
  import opened Graphs
  import opened CutDag
  import opened Terms
  import opened Ir
  import opened Encoding
  import opened Runs
  import opened IntOps
  import opened RunFacts
  import opened RunModel
  import opened RunSettled
  import opened RunValues
  import opened RunAgrees
  import opened RunGuards

  /** The term of a destination has the value the assignment gives its name. */
  lemma TermValue(c: Setting, v: ValueId)
    requires Ready(c) && TermOf(c.f, v).Some? && NameOf(c.f, v) in FullModel(c)
    ensures Eval(TermOf(c.f, v).value, FullModel(c)) == FullModel(c)[NameOf(c.f, v)]
    ensures SortOf(TermOf(c.f, v).value) == SortOfValue(c.f, v).value
  {
    hide IsRun, ContractsTrue, WellFormed, CutsBackEdges, ListsReachable, Forward, Walk, Items, ModelAfter;
  }

  // ---- unexecuted instructions ----

  lemma ShadowHolds(c: Setting, i: nat, j: nat)
    requires Ready(c) && i < |c.order| && j < |c.f.blocks[c.order[i]].instrs|
    requires var op := OpAt(c.f, (c.order[i], j));
             OpDef(c.f, c.dag, c.order[i], op).Some? && OpDst(op).value !in Final(c)
    ensures Holds(OpDef(c.f, c.dag, c.order[i], OpAt(c.f, (c.order[i], j))).value, FullModel(c))
  {
    hide Items, Walk, ModelAfter, IsRun, ContractsTrue, WellFormed, CutsBackEdges, ListsReachable, Forward;
    var s: Site := (c.order[i], j);
    var op := OpAt(c.f, s);
    var v := OpDst(op).value;
    assert DefinesAt(c.f, s, v);
    DefinedValue(c, i, j, v);
    TermValue(c, v);
    match op
    case Convert(_, x) => ShadowConvert(c, x, v);
    case Alloc(_) => NonNilHolds(c, v);
    case FieldAddr(_, _, _) => NonNilHolds(c, v);
    case IndexAddr(_, _, _) => NonNilHolds(c, v);
    case _ => ShadowEquation(c, i, j, v);
  }

  lemma NonNilHolds(c: Setting, v: ValueId)
    requires Ready(c) && TermOf(c.f, v).Some? && MkNonNil(TermOf(c.f, v).value).Some? && NameOf(c.f, v) in FullModel(c)
    requires FullModel(c)[NameOf(c.f, v)] != NilPtr
    ensures Holds(MkNonNil(TermOf(c.f, v).value).value, FullModel(c))
  {
    hide GuardRhs, Items, Walk, ModelAfter, IsRun, ContractsTrue, WellFormed, CutsBackEdges;
    var t := TermOf(c.f, v).value;
    TermValue(c, v);
    assert Eval(IsNil(t), FullModel(c)) == BoolVal(false);
  }

  lemma ShadowConvert(c: Setting, x: ValueId, v: ValueId)
    requires Ready(c) && TypeOf(c.f, x).IntTy? && TypeOf(c.f, v).IntTy? && NameOf(c.f, v) in FullModel(c)
    requires WideningRange(TypeOf(c.f, x), TypeOf(c.f, v), TermOf(c.f, v).value).Some?
    requires FullModel(c)[NameOf(c.f, v)] == BvVal(TypeOf(c.f, v).width, 0)
    ensures Holds(WideningRange(TypeOf(c.f, x), TypeOf(c.f, v), TermOf(c.f, v).value).value, FullModel(c))
  {
    hide IsRun, ContractsTrue, WellFormed, CutsBackEdges, ListsReachable, Forward, Walk, Items, ModelAfter;
    TermValue(c, v);
    WrapSmall(TypeOf(c.f, v).width, 0);
    RangeOfImage(c, TypeOf(c.f, x), TypeOf(c.f, v), TermOf(c.f, v).value, 0, 0);
  }

  /** The range holds of every extended value. */
  lemma RangeOfImage(c: Setting, from: Ty, to: Ty, d: Term, x: nat, n: nat)
    requires Ready(c) && from.IntTy? && to.IntTy? && WideningRange(from, to, d).Some? && SortOf(d) == BvSort(to.width)
    requires Eval(d, FullModel(c)) == BvVal(to.width, n) && n == Wrap(to.width, Reading(from.width, from.signed, x))
        && x < Pow2(from.width)
    ensures Holds(WideningRange(from, to, d).value, FullModel(c))
  {
    hide IsRun, ContractsTrue, WellFormed, CutsBackEdges, ListsReachable, Forward, Walk, Items, ModelAfter;
    WideningIgnoresTarget(from, to, d);
    WideningExact(from.width, from.signed, to.width, n, d, FullModel(c));
  }

  lemma ShadowEquation(c: Setting, i: nat, j: nat, v: ValueId)
    requires Ready(c) && i < |c.order| && j < |c.f.blocks[c.order[i]].instrs|
    requires var op := OpAt(c.f, (c.order[i], j));
             && !op.Convert? && !op.Alloc? && !op.FieldAddr? && !op.IndexAddr?
             && OpDst(op) == Some(v) && OpDef(c.f, c.dag, c.order[i], op).Some? && v !in Final(c)
    ensures Holds(OpDef(c.f, c.dag, c.order[i], OpAt(c.f, (c.order[i], j))).value, FullModel(c))
  {
    hide Items, Walk, ModelAfter, IsRun, ContractsTrue, StrictSsa, CutsBackEdges;
    var s: Site := (c.order[i], j);
    var op := OpAt(c.f, s);
    var r := RhsOf(c.f, c.dag, c.order[i], op).value;
    assert DefinesAt(c.f, s, v);
    DefinedValue(c, i, j, v);
    TermValue(c, v);
    EquationShape(c.f, c.dag, c.order[i], op, v);
    RhsValue(c, i, j, r);
  }

  lemma EquationShape(f: Function, dag: Graph, b: nat, op: Op, v: ValueId)
    requires b < |f.blocks| && OpDst(op) == Some(v) && OpDef(f, dag, b, op).Some?
    requires !op.Convert? && !op.Alloc? && !op.FieldAddr? && !op.IndexAddr?
    ensures TermOf(f, v).Some? && RhsOf(f, dag, b, op).Some? && !op.Load? && !op.Extract?
    ensures OpDef(f, dag, b, op).value == Eq(TermOf(f, v).value, RhsOf(f, dag, b, op).value)
    ensures SortOfValue(f, v) == Some(SortOf(RhsOf(f, dag, b, op).value))
  {
  }

  lemma RhsValue(c: Setting, i: nat, j: nat, r: Term)
    requires Ready(c) && i < |c.order| && j < |c.f.blocks[c.order[i]].instrs|
    requires RhsOf(c.f, c.dag, c.order[i], OpAt(c.f, (c.order[i], j))) == Some(r) && SortOf(r) != SeqSort
    ensures Eval(r, ModelAt(c, i, j)) == Eval(r, FullModel(c))
  {
    hide IsRun, ContractsTrue, WellFormed, CutsBackEdges, ListsReachable, Forward, Walk, Items, ModelAfter;
    RhsSettled(c, i, j);
    SettledAt(c, i, j, r);
  }

  lemma SettledAt(c: Setting, i: nat, j: nat, t: Term)
    requires IsRun(c.m, c.f, c.dag, c.run) && OrderInRange(c.f, c.order) && InRange(c.f, c.order)
    requires i < |c.order| && j < |c.f.blocks[c.order[i]].instrs|
    requires forall x :: x in FreeVars(t) ==> SettledBy(c.f, Items(c.f, c.order), StartOf(c.f, c.order, i) + j + 1, x.0)
    ensures Eval(t, ModelAt(c, i, j)) == Eval(t, FullModel(c))
  {
    hide Items, BlockItems, ModelAfter, SettledBy, IsRun, OrderInRange, StartOf, FreeVars, Eval;
    InstrItemAt(c, i, j);
    SettledTerm(c, Items(c.f, c.order), StartOf(c.f, c.order, i) + j + 1, t);
  }

  // ---- executed instructions ----

  /** An executed instruction, its states, and the final registers that extend them. */
  ghost predicate Ran(c: Setting, k: nat, s: Site)
    requires Ready(c)
  {
    && k < |c.run.path| && c.run.path[k] == s.0 && s.1 + 1 < |c.run.states[k]| && IsSite(c.f, s)
    && Left(c.m, c.f, s.0, CameFrom(c.run, k), OpAt(c.f, s), c.run.states[k][s.1], c.run.states[k][s.1 + 1], Final(c))
  }

  lemma SiteRan(c: Setting, s: Site) returns (k: nat)
    requires Ready(c) && Executed(c.run, s)
    ensures Ran(c, k, s)
  {
    k := ExecutedLeft(c.m, c.f, c.dag, c.run, s);
  }

  /** A register has a final value exactly when the instruction that defines it was executed. */
  lemma FinalIffExecuted(c: Setting, s: Site, v: ValueId)
    requires Ready(c) && DefinesAt(c.f, s, v)
    ensures |c.run.path| == |c.run.states| && (v in Final(c) <==> Executed(c.run, s))
  {
    hide WellShaped, WellTyped, ContractsTrue, Forward, ListsReachable, Walk, Executes, HandsOver;
    DefinedIffExecuted(c.m, c.f, c.dag, c.run, s, v);
  }

  /** What the instruction produced, read off the final registers. */
  lemma RanProduces(c: Setting, k: nat, s: Site, v: ValueId)
    requires Ready(c) && Ran(c, k, s) && OpDst(OpAt(c.f, s)) == Some(v)
    ensures v in Final(c) && Available(OpAt(c.f, s), c.run.states[k][s.1].regs)
    ensures Produces(c.m, c.f, s.0, CameFrom(c.run, k), OpAt(c.f, s), c.run.states[k][s.1], Final(c)[v])
    ensures Within(Final(c), c.run.states[k][s.1].regs)
  {
    hide IsRun, ContractsTrue, WellFormed, CutsBackEdges, ListsReachable, Forward;
  }

  /** An operand the instruction read has its final value, which the assignment shares. */
  lemma OperandValue(c: Setting, k: nat, s: Site, x: ValueId)
    requires Ready(c) && Ran(c, k, s) && x in c.run.states[k][s.1].regs && x in OpValues(OpAt(c.f, s))
        && TermOf(c.f, x).Some?
    ensures c.run.states[k][s.1].regs[x] == Plain(Eval(TermOf(c.f, x).value, FullModel(c)))
    ensures HasSort(Eval(TermOf(c.f, x).value, FullModel(c)), SortOf(TermOf(c.f, x).value))
  {
    hide IsRun, ContractsTrue, WellFormed, CutsBackEdges, ListsReachable, Forward, Walk, Items, ModelAfter;
    assert x in Final(c);
    RunTerm(c, s, x);
    FinalTyped(c, x);
  }

  lemma ResultValue(c: Setting, s: Site, v: ValueId)
    requires Ready(c) && IsSite(c.f, s) && OpDst(OpAt(c.f, s)) == Some(v) && v in Final(c) && TermOf(c.f, v).Some?
    ensures Final(c)[v] == Plain(Eval(TermOf(c.f, v).value, FullModel(c)))
    ensures HasSort(Eval(TermOf(c.f, v).value, FullModel(c)), SortOf(TermOf(c.f, v).value))
  {
    hide IsRun, ContractsTrue, WellFormed, CutsBackEdges, ListsReachable, Forward, Walk, Items, ModelAfter;
    assert v in OpValues(OpAt(c.f, s));
    RunTerm(c, s, v);
    FinalTyped(c, v);
  }

  lemma RanHolds(c: Setting, k: nat, s: Site)
    requires Ready(c) && Ran(c, k, s) && OpDef(c.f, c.dag, s.0, OpAt(c.f, s)).Some?
    ensures Holds(OpDef(c.f, c.dag, s.0, OpAt(c.f, s)).value, FullModel(c))
  {
    hide IsRun, ContractsTrue, WellFormed, CutsBackEdges, ListsReachable, Forward, Items, Walk, ModelAfter, Produces;
    var op := OpAt(c.f, s);
    var v := OpDst(op).value;
    if op.Convert? {
      RanConvert(c, k, s, op.src, v);
    } else if op.Alloc? || op.FieldAddr? || op.IndexAddr? {
      RanAddress(c, k, s, v);
    } else {
      EquationShape(c.f, c.dag, s.0, op, v);
      RanEquation(c, k, s, v);
    }
  }

  lemma RanAddress(c: Setting, k: nat, s: Site, v: ValueId)
    requires Ready(c) && Ran(c, k, s) && OpDst(OpAt(c.f, s)) == Some(v) && OpDef(c.f, c.dag, s.0, OpAt(c.f, s)).Some?
    requires OpAt(c.f, s).Alloc? || OpAt(c.f, s).FieldAddr? || OpAt(c.f, s).IndexAddr?
    ensures Holds(OpDef(c.f, c.dag, s.0, OpAt(c.f, s)).value, FullModel(c))
  {
    hide IsRun, ContractsTrue, WellFormed, CutsBackEdges, Eval, ListsReachable, Forward, Walk, Items, ModelAfter;
    RanProduces(c, k, s, v);
    ResultValue(c, s, v);
    NonNilMeaning(TermOf(c.f, v).value, FullModel(c));
  }

  lemma NonNilMeaning(t: Term, m: Model)
    requires MkNonNil(t).Some? && Eval(t, m) != NilPtr
    ensures Holds(MkNonNil(t).value, m)
  {
    assert Eval(IsNil(t), m) == BoolVal(false);
  }

  lemma RanConvert(c: Setting, k: nat, s: Site, x: ValueId, v: ValueId)
    requires Ready(c) && Ran(c, k, s) && OpAt(c.f, s) == Convert(v, x) && OpDef(c.f, c.dag, s.0, OpAt(c.f, s)).Some?
    ensures Holds(OpDef(c.f, c.dag, s.0, OpAt(c.f, s)).value, FullModel(c))
  {
    hide IsRun, ContractsTrue, WellFormed, CutsBackEdges, ListsReachable, Forward, Walk, Items, ModelAfter, Reading,
      Wrap;
    RanProduces(c, k, s, v);
    ResultValue(c, s, v);
    OperandValue(c, k, s, x);
    var from, to := TypeOf(c.f, x), TypeOf(c.f, v);
    var xv := Eval(TermOf(c.f, x).value, FullModel(c));
    RangeOfImage(c, from, to, TermOf(c.f, v).value, xv.n, Wrap(to.width, Reading(from.width, from.signed, xv.n)));
  }

  /** The equation of an executed instruction states what the instruction computed. */
  lemma RanEquation(c: Setting, k: nat, s: Site, v: ValueId)
    requires Ready(c) && Ran(c, k, s) && OpDst(OpAt(c.f, s)) == Some(v) && TermOf(c.f, v).Some?
    requires RhsOf(c.f, c.dag, s.0, OpAt(c.f, s)).Some?
        && SortOf(RhsOf(c.f, c.dag, s.0, OpAt(c.f, s)).value) == SortOf(TermOf(c.f, v).value)
    ensures Eval(TermOf(c.f, v).value, FullModel(c)) == Eval(RhsOf(c.f, c.dag, s.0, OpAt(c.f, s)).value, FullModel(c))
  {
    hide ContractsTrue, Walk, Items, ModelAfter, Forward, ListsReachable;
    var op := OpAt(c.f, s);
    if op.Assign? {
      RanAssign(c, k, s, v);
    } else if op.BinOp? {
      RanBinOp(c, k, s, v);
    } else if op.UnOp? {
      RanUnOp(c, k, s, v);
    } else if op.Phi? {
      RanPhi(c, k, s, v);
    } else {
      SequencesOnly(c, s.0, op);
    }
  }

  /** The remaining equations are about slices, which a well-typed function does not have. */
  lemma SequencesOnly(c: Setting, b: nat, op: Op)
    requires Ready(c) && b < |c.f.blocks| && RhsOf(c.f, c.dag, b, op).Some?
    requires !op.Assign? && !op.BinOp? && !op.UnOp? && !op.Phi?
    ensures SortOf(RhsOf(c.f, c.dag, b, op).value) == SeqSort
  {
    hide IsRun, ContractsTrue, StrictSsa, CutsBackEdges;
  }

  lemma RanAssign(c: Setting, k: nat, s: Site, v: ValueId)
    requires Ready(c) && Ran(c, k, s) && OpDst(OpAt(c.f, s)) == Some(v) && OpAt(c.f, s).Assign? && TermOf(c.f, v).Some?
    requires RhsOf(c.f, c.dag, s.0, OpAt(c.f, s)).Some?
    ensures Eval(TermOf(c.f, v).value, FullModel(c)) == Eval(RhsOf(c.f, c.dag, s.0, OpAt(c.f, s)).value, FullModel(c))
  {
    hide IsRun, ContractsTrue, WellFormed, CutsBackEdges, ListsReachable, Forward, Walk, Items, ModelAfter;
    RanProduces(c, k, s, v);
    ResultValue(c, s, v);
    OperandValue(c, k, s, OpAt(c.f, s).src);
  }

  lemma RanUnOp(c: Setting, k: nat, s: Site, v: ValueId)
    requires Ready(c) && Ran(c, k, s) && OpDst(OpAt(c.f, s)) == Some(v) && OpAt(c.f, s).UnOp? && TermOf(c.f, v).Some?
    requires RhsOf(c.f, c.dag, s.0, OpAt(c.f, s)).Some?
    ensures Eval(TermOf(c.f, v).value, FullModel(c)) == Eval(RhsOf(c.f, c.dag, s.0, OpAt(c.f, s)).value, FullModel(c))
  {
    hide Items, Walk, ModelAfter, IsRun, ContractsTrue, WellFormed, CutsBackEdges, ListsReachable, Forward;
    var x, kind := OpAt(c.f, s).operand, OpAt(c.f, s).unKind;
    RanProduces(c, k, s, v);
    ResultValue(c, s, v);
    OperandValue(c, k, s, x);
    var xv := Eval(TermOf(c.f, x).value, FullModel(c));
    assert UnResult(kind, TypeOf(c.f, x), xv).Some?;
    UnOpExact(kind, TypeOf(c.f, x), TermOf(c.f, x).value, FullModel(c), xv);
  }

  lemma RanBinOp(c: Setting, k: nat, s: Site, v: ValueId)
    requires Ready(c) && Ran(c, k, s) && OpDst(OpAt(c.f, s)) == Some(v) && OpAt(c.f, s).BinOp? && TermOf(c.f, v).Some?
    requires RhsOf(c.f, c.dag, s.0, OpAt(c.f, s)).Some?
    ensures Eval(TermOf(c.f, v).value, FullModel(c)) == Eval(RhsOf(c.f, c.dag, s.0, OpAt(c.f, s)).value, FullModel(c))
  {
    hide IsRun, ContractsTrue, StrictSsa, AllReachable, WellShaped, CutsBackEdges, Forward, ListsReachable, Walk,
      Items, ModelAfter;
    var op := OpAt(c.f, s);
    RanProduces(c, k, s, v);
    ResultValue(c, s, v);
    OperandValue(c, k, s, op.lhs);
    OperandValue(c, k, s, op.rhs);
    var l, r := TermOf(c.f, op.lhs).value, TermOf(c.f, op.rhs).value;
    BinTermExact(op.kind, TypeOf(c.f, op.lhs), TypeOf(c.f, op.rhs), l, r, FullModel(c), Final(c)[v]);
  }

  lemma BinTermExact(k: BinOpKind, lt: Ty, rt: Ty, l: Term, r: Term, m: Model, res: RVal)
    requires SortOfTy(lt) == Some(SortOf(l)) && SortOfTy(rt) == Some(SortOf(r))
    requires HasSort(Eval(l, m), SortOf(l)) && HasSort(Eval(r, m), SortOf(r)) && (lt.IntTy? ==> lt.width > 0)
    requires BinOpTerm(k, lt, l, r).Some? && BinResult(k, lt, rt, Plain(Eval(l, m)), Plain(Eval(r, m)), res)
    ensures res == Plain(Eval(BinOpTerm(k, lt, l, r).value, m))
  {
    if k == EqK || k == NeqK {
      EqTermExact(k, lt, l, r, m);
    } else {
      SameWidth(k, lt, l, r);
      IntTermExact(k, lt, rt, l, r, m, res);
    }
  }

  lemma EqTermExact(k: BinOpKind, lt: Ty, l: Term, r: Term, m: Model)
    requires (k == EqK || k == NeqK) && BinOpTerm(k, lt, l, r).Some?
    ensures SortOf(l) == SortOf(r)
    ensures Eval(BinOpTerm(k, lt, l, r).value, m) == BoolVal((Eval(l, m) == Eval(r, m)) == (k == EqK))
  {
    hide IntOpTerm;
    assert BinOpTerm(k, lt, l, r).value == if k == EqK then Eq(l, r) else Not(Eq(l, r));
    assert Eval(Eq(l, r), m) == BoolVal(Eval(l, m) == Eval(r, m));
  }

  lemma IntTermExact(k: BinOpKind, lt: Ty, rt: Ty, l: Term, r: Term, m: Model, res: RVal)
    requires k != EqK && k != NeqK && lt.IntTy? && lt.width > 0 && rt.IntTy? && rt.width == lt.width
    requires HasSort(Eval(l, m), BvSort(lt.width)) && HasSort(Eval(r, m), BvSort(lt.width))
    requires IntOpTerm(k, lt.width, lt.signed, l, r).Some?
    requires BinResult(k, lt, rt, Plain(Eval(l, m)), Plain(Eval(r, m)), res)
    ensures res == Plain(Eval(IntOpTerm(k, lt.width, lt.signed, l, r).value, m))
  {
    hide IntOpTerm, IntResult, Eval;
    IntOpExact(k, lt.width, lt.signed, l, r, m, Eval(l, m).n, Eval(r, m).n, rt.signed);
  }

  lemma SameWidth(k: BinOpKind, lt: Ty, l: Term, r: Term)
    requires k != EqK && k != NeqK && BinOpTerm(k, lt, l, r).Some? && SortOfTy(lt) == Some(SortOf(l))
    ensures lt.IntTy? && SortOf(r) == BvSort(lt.width) && IntOpTerm(k, lt.width, lt.signed, l, r).Some?
  {
  }

  // ---- phis ----

  /** When exactly one listed guard is true, the chain has its value. */
  lemma {:induction false} IteChainValue(kept: seq<(Term, Term)>, m: Model, n: nat)
    requires n < |kept| && IteChain(kept).Some?
    requires forall i :: 0 <= i < |kept| ==> (Holds(kept[i].0, m) <==> i == n)
    ensures Eval(IteChain(kept).value, m) == Eval(kept[n].1, m)
  {
    if |kept| > 1 && n > 0 {
      IteChainValue(kept[1..], m, n - 1);
    }
  }

  lemma RanPhi(c: Setting, k: nat, s: Site, v: ValueId)
    requires Ready(c) && Ran(c, k, s) && OpDst(OpAt(c.f, s)) == Some(v) && OpAt(c.f, s).Phi? && TermOf(c.f, v).Some?
    requires RhsOf(c.f, c.dag, s.0, OpAt(c.f, s)).Some?
    ensures Eval(TermOf(c.f, v).value, FullModel(c)) == Eval(RhsOf(c.f, c.dag, s.0, OpAt(c.f, s)).value, FullModel(c))
  {
    hide Items, Walk, ModelAfter, Exec, ContractsTrue, StrictSsa, CutsBackEdges, WellTyped, Forward, ListsReachable,
      Executes, HandsOver;
    var op, b := OpAt(c.f, s), s.0;
    var st := c.run.states[k][s.1];
    RanProduces(c, k, s, v);
    ResultValue(c, s, v);
    var preds := c.f.blocks[b].preds;
    var e :| 0 <= e < |op.edges| && e < |preds| && CameFrom(c.run, k) == Some(preds[e]) && op.edges[e] in st.regs
      && Final(c)[v] == st.regs[op.edges[e]];
    assert k > 0 && preds[e] == c.run.path[k - 1] && Edge(c.dag, c.run.path[k - 1], c.run.path[k]);
    var kept := PhiKept(c.f, c.dag, b, op.edges, |op.edges|).value;
    var from := KeptFrom(c.f, c.dag, b, op.edges, |op.edges|);
    assert e in from;
    var n :| 0 <= n < |from| && from[n] == e;
    PhiGuards(c, k, s, kept, from, n);
    IteChainValue(kept, FullModel(c), n);
    assert FromEdge(c.f, c.dag, b, op.edges, kept[n], e);
    PhiOperand(c, k, s, op.edges[e]);
  }

  lemma PhiOperand(c: Setting, k: nat, s: Site, x: ValueId)
    requires Ready(c) && Ran(c, k, s) && OpAt(c.f, s).Phi? && x in OpAt(c.f, s).edges
        && x in c.run.states[k][s.1].regs && TermOf(c.f, x).Some?
    ensures c.run.states[k][s.1].regs[x] == Plain(Eval(TermOf(c.f, x).value, FullModel(c)))
  {
    hide Items, Walk, ModelAfter, Exec, ContractsTrue, WellFormed, CutsBackEdges;
    assert x in OpValues(OpAt(c.f, s));
    OperandValue(c, k, s, x);
  }

  lemma PhiGuards(c: Setting, k: nat, s: Site, kept: seq<(Term, Term)>, from: seq<nat>, n: nat)
    requires Ready(c) && Ran(c, k, s) && OpAt(c.f, s).Phi? && 0 < k && n < |from| == |kept|
    requires forall i :: 0 <= i < |kept| ==> FromEdge(c.f, c.dag, s.0, OpAt(c.f, s).edges, kept[i], from[i])
    requires forall i, i' :: 0 <= i < i' < |kept| ==> from[i] < from[i']
    requires from[n] < |c.f.blocks[s.0].preds| && c.f.blocks[s.0].preds[from[n]] == c.run.path[k - 1]
    ensures forall i :: 0 <= i < |kept| ==> (Holds(kept[i].0, FullModel(c)) <==> i == n)
  {
    hide ContractsTrue, StrictSsa, WellTyped, CutsBackEdges, Forward, Walk, Items, ModelAfter, Executes, HandsOver,
      Exec;
    var preds := c.f.blocks[s.0].preds;
    assert WellShapedBlock(c.f, s.0);
    forall i | 0 <= i < |kept|
      ensures Holds(kept[i].0, FullModel(c)) <==> i == n
    {
      assert FromEdge(c.f, c.dag, s.0, OpAt(c.f, s).edges, kept[i], from[i]);
      CameAlong(c, k, preds[from[i]]);
      if i != n {
        assert from[i] != from[n];
        assert preds[from[i]] != preds[from[n]];
      }
    }
  }

  // ---- all of them ----

  lemma OpDefHolds(c: Setting, s: Site)
    requires Ready(c) && IsSite(c.f, s) && OpDef(c.f, c.dag, s.0, OpAt(c.f, s)).Some?
    ensures Holds(OpDef(c.f, c.dag, s.0, OpAt(c.f, s)).value, FullModel(c))
  {
    hide IsRun, ContractsTrue, WellFormed, CutsBackEdges, ListsReachable, Forward, Walk, Items, ModelAfter;
    var v := OpDst(OpAt(c.f, s)).value;
    assert DefinesAt(c.f, s, v);
    FinalIffExecuted(c, s, v);
    if v in Final(c) {
      var k := SiteRan(c, s);
      RanHolds(c, k, s);
    } else {
      var i := PositionOf(c, s.0);
      ShadowHolds(c, i, s.1);
    }
  }

  lemma {:induction false} OpAssertIs(f: Function, dag: Graph, b: nat, instrs: seq<Op>, t: Term) returns (i: nat)
    requires b < |f.blocks| && t in OpAsserts(f, dag, b, instrs)
    ensures i < |instrs| && OpDef(f, dag, b, instrs[i]) == Some(t)
  {
    if t in OpAsserts(f, dag, b, instrs[..|instrs| - 1]) {
      i := OpAssertIs(f, dag, b, instrs[..|instrs| - 1], t);
    } else {
      i := |instrs| - 1;
    }
  }

  lemma {:induction false} DefAssertIs(f: Function, dag: Graph, n: nat, t: Term) returns (s: Site)
    requires n <= |f.blocks| && t in AllOpAsserts(f, dag, n)
    ensures IsSite(f, s) && OpDef(f, dag, s.0, OpAt(f, s)) == Some(t)
  {
    hide OpDef, OpAsserts;
    if t in AllOpAsserts(f, dag, n - 1) {
      s := DefAssertIs(f, dag, n - 1, t);
    } else {
      var i := OpAssertIs(f, dag, n - 1, f.blocks[n - 1].instrs, t);
      s := (n - 1, i);
    }
  }

  /** The emitted defining assertions hold. */
  lemma DefsHold(c: Setting, t: Term)
    requires Ready(c) && t in AllOpAsserts(c.f, c.dag, |c.f.blocks|)
    ensures Holds(t, FullModel(c))
  {
    hide AllOpAsserts, OpDef, IsRun, ContractsTrue, WellFormed, CutsBackEdges;
    var s := DefAssertIs(c.f, c.dag, |c.f.blocks|, t);
    OpDefHolds(c, s);
  }
}
