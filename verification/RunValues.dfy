/** The assignment is well sorted and agrees with the run on every register the run wrote. */
module RunValues {
  import opened Wrappers
  import opened MachineInts
  import opened Graphs
  import opened CutDag
  import opened Terms
  import opened Ir
  import opened Encoding
  import opened Runs
  import opened RunFacts
  import opened RunModel
  import opened RunSettled

  // ---- sorts of right-hand sides ----

  lemma BinProper(f: Function, op: Terms.BinOp, l: Term, r: Term)
    requires ProperTerm(f, l) && ProperTerm(f, r) && MkBin(op, l, r).Some?
    ensures ProperTerm(f, BvBin(op, l, r)) && FreeVars(BvBin(op, l, r)) == FreeVars(l) + FreeVars(r)
  {
  }

  lemma CmpProper(f: Function, op: CmpOp, l: Term, r: Term)
    requires ProperTerm(f, l) && ProperTerm(f, r) && MkCmp(op, l, r).Some?
    ensures ProperTerm(f, BvCmp(op, l, r)) && FreeVars(BvCmp(op, l, r)) == FreeVars(l) + FreeVars(r)
  {
  }

  lemma AndNotProper(f: Function, w: nat, l: Term, r: Term)
    requires ProperTerm(f, l) && ProperTerm(f, r) && IntOpTerm(AndNotK, w, false, l, r).Some?
    ensures ProperTerm(f, IntOpTerm(AndNotK, w, false, l, r).value)
    ensures FreeVars(IntOpTerm(AndNotK, w, false, l, r).value) == FreeVars(l) + FreeVars(r)
  {
    var ones := BvLit(w, Pow2(w) - 1);
    BinProper(f, XorOp, r, ones);
    assert FreeVars(BvBin(XorOp, r, ones)) == FreeVars(r);
    BinProper(f, AndOp, l, BvBin(XorOp, r, ones));
  }

  /** Comparisons put their operands in one order or the other; everything else keeps it. */
  lemma IntOpForm(k: BinOpKind, w: nat, signed: bool, l: Term, r: Term)
    requires k != AndNotK && IntOpTerm(k, w, signed, l, r).Some?
    ensures var t := IntOpTerm(k, w, signed, l, r).value;
            if t.BvBin? then t == BvBin(t.bin, l, r) && MkBin(t.bin, l, r).Some?
            else t.BvCmp? && MkCmp(t.cmp, t.l, t.r).Some? && (t == BvCmp(t.cmp, l, r) || t == BvCmp(t.cmp, r, l))
  {
  }

  lemma IntOpProper(f: Function, k: BinOpKind, w: nat, signed: bool, l: Term, r: Term)
    requires ProperTerm(f, l) && ProperTerm(f, r) && IntOpTerm(k, w, signed, l, r).Some?
    ensures ProperTerm(f, IntOpTerm(k, w, signed, l, r).value)
    ensures FreeVars(IntOpTerm(k, w, signed, l, r).value) == FreeVars(l) + FreeVars(r)
  {
    hide ProperTerm, FreeVars, IntOpTerm;
    if k == AndNotK {
      AndNotUnsigned(w, signed, l, r);
      AndNotProper(f, w, l, r);
    } else {
      IntOpForm(k, w, signed, l, r);
      var t := IntOpTerm(k, w, signed, l, r).value;
      if t.BvBin? {
        BinProper(f, t.bin, l, r);
      } else if t == BvCmp(t.cmp, l, r) {
        CmpProper(f, t.cmp, l, r);
      } else {
        CmpProper(f, t.cmp, r, l);
      }
    }
  }

  lemma AndNotUnsigned(w: nat, signed: bool, l: Term, r: Term)
    ensures IntOpTerm(AndNotK, w, signed, l, r) == IntOpTerm(AndNotK, w, false, l, r)
  {
  }

  lemma BinOpProper(f: Function, k: BinOpKind, ty: Ty, l: Term, r: Term)
    requires ProperTerm(f, l) && ProperTerm(f, r) && BinOpTerm(k, ty, l, r).Some?
    ensures ProperTerm(f, BinOpTerm(k, ty, l, r).value)
    ensures FreeVars(BinOpTerm(k, ty, l, r).value) == FreeVars(l) + FreeVars(r)
  {
    if k != EqK && k != NeqK {
      IntOpProper(f, k, ty.width, ty.signed, l, r);
    }
  }

  ghost predicate ReadsOnly(f: Function, vs: seq<ValueId>, t: Term) {
    forall x :: x in FreeVars(t) ==> exists v :: v in vs && x.0 == NameOf(f, v)
  }

  lemma SeqRhs(f: Function, dag: Graph, block: nat, op: Op)
    requires block < |f.blocks| && (op.Make? || op.SliceExpr?) && RhsOf(f, dag, block, op).Some?
    ensures SortOf(RhsOf(f, dag, block, op).value) == SeqSort
  {
  }

  /** Right-hand sides of everything but phis read only the instruction's operands. */
  lemma RhsProper(f: Function, dag: Graph, block: nat, op: Op)
    requires block < |f.blocks| && !op.Phi? && RhsOf(f, dag, block, op).Some?
    requires SortOf(RhsOf(f, dag, block, op).value) != SeqSort
    ensures ProperTerm(f, RhsOf(f, dag, block, op).value)
    ensures ReadsOnly(f, OpReads(op), RhsOf(f, dag, block, op).value)
  {
    hide ProperTerm, BinOpTerm, UnOpTerm, MakeSliceTerm, SliceTerm, TermOf, SortOf;
    match op
    case Assign(_, s) => TermProper(f, s);
    case BinOp(_, k, l, r) =>
      TermProper(f, l);
      TermProper(f, r);
      BinOpProper(f, k, TypeOf(f, l), TermOf(f, l).value, TermOf(f, r).value);
    case UnOp(_, k, o) => UnOpProper(f, k, o);
    case Call(_, c, args) => LenProper(f, dag, block, op);
    case Make(_, _, _) => SeqRhs(f, dag, block, op);
    case SliceExpr(_, _, _, _, _) => SeqRhs(f, dag, block, op);
    case _ =>
  }

  lemma LenProper(f: Function, dag: Graph, block: nat, op: Op)
    requires block < |f.blocks| && op.Call? && RhsOf(f, dag, block, op).Some?
    ensures ProperTerm(f, RhsOf(f, dag, block, op).value)
    ensures ReadsOnly(f, OpReads(op), RhsOf(f, dag, block, op).value)
  {
    TermProper(f, op.args[0]);
    assert op.args[0] in OpReads(op);
    assert RhsOf(f, dag, block, op).value == SeqLen(TermOf(f, op.args[0]).value);
  }

  lemma UnOpProper(f: Function, k: UnOpKind, o: ValueId)
    requires TermOf(f, o).Some? && UnOpTerm(k, TypeOf(f, o), TermOf(f, o).value).Some?
    ensures var t := UnOpTerm(k, TypeOf(f, o), TermOf(f, o).value).value; ProperTerm(f, t) && ReadsOnly(f, [o], t)
  {
    TermProper(f, o);
  }

  // ---- phis ----

  ghost predicate KeptProper(f: Function, kept: seq<(Term, Term)>) {
    forall i :: 0 <= i < |kept| ==>
      ProperTerm(f, kept[i].0) && SortOf(kept[i].0) == BoolSort && ProperTerm(f, kept[i].1)
  }

  ghost predicate AmongKept(x: (Name, Sort), kept: seq<(Term, Term)>) {
    exists i :: 0 <= i < |kept| && (x in FreeVars(kept[i].0) || x in FreeVars(kept[i].1))
  }

  lemma {:induction false} IteProper(f: Function, kept: seq<(Term, Term)>)
    requires |kept| > 0 && KeptProper(f, kept) && IteChain(kept).Some?
    ensures ProperTerm(f, IteChain(kept).value)
    ensures forall x :: x in FreeVars(IteChain(kept).value) ==> AmongKept(x, kept)
  {
    if |kept| > 1 {
      IteProper(f, kept[1..]);
      forall x | x in FreeVars(IteChain(kept[1..]).value)
        ensures AmongKept(x, kept)
      {
        assert AmongKept(x, kept[1..]);
        var i :| 0 <= i < |kept[1..]| && (x in FreeVars(kept[1..][i].0) || x in FreeVars(kept[1..][i].1));
        assert kept[1..][i] == kept[i + 1];
      }
    }
  }

  /** The i-th kept pair is the guard and the value of some kept phi edge. */
  ghost predicate FromEdge(f: Function, dag: Graph, block: nat, edges: seq<ValueId>, pair: (Term, Term), j: nat)
    requires block < |f.blocks|
  {
    && j < |edges| && j < |f.blocks[block].preds|
    && Edge(dag, f.blocks[block].preds[j], block)
    && EdgeGuard(f, f.blocks[block].preds[j], block) == Some(pair.0)
    && TermOf(f, edges[j]) == Some(pair.1)
  }

  /** Kept pairs are exactly the kept edges, in order. */
  lemma {:induction false} KeptFrom(f: Function, dag: Graph, block: nat, edges: seq<ValueId>, k: nat)
      returns (from: seq<nat>)
    requires |dag| == |f.blocks| && block < |f.blocks| && k <= |edges| && PhiKept(f, dag, block, edges, k).Some?
    ensures var kept := PhiKept(f, dag, block, edges, k).value;
            && |from| == |kept|
            && (forall i :: 0 <= i < |kept| ==> from[i] < k && FromEdge(f, dag, block, edges, kept[i], from[i]))
            && (forall i, i' :: 0 <= i < i' < |kept| ==> from[i] < from[i'])
            && (forall j :: 0 <= j < k && Edge(dag, f.blocks[block].preds[j], block) ==> j in from)
            && k <= |f.blocks[block].preds|
  {
    if k == 0 {
      from := [];
    } else {
      from := KeptFrom(f, dag, block, edges, k - 1);
      if block in dag[f.blocks[block].preds[k - 1]] {
        from := from + [k - 1];
      }
    }
  }

  lemma KeptSettled(c: Setting, i: nat, j: nat)
    requires Ready(c) && i < |c.order| && j < |c.f.blocks[c.order[i]].instrs| && OpAt(c.f, (c.order[i], j)).Phi?
    requires PhiKept(c.f, c.dag, c.order[i], OpAt(c.f, (c.order[i], j)).edges, |OpAt(c.f, (c.order[i], j)).edges|).Some?
    ensures var edges := OpAt(c.f, (c.order[i], j)).edges;
            var kept := PhiKept(c.f, c.dag, c.order[i], edges, |edges|).value;
            && KeptProper(c.f, kept)
            && forall x :: AmongKept(x, kept) ==>
              SettledBy(c.f, Items(c.f, c.order), StartOf(c.f, c.order, i) + j + 1, x.0)
  {
    hide Items, Walk, ModelAfter, Exec, ContractsTrue, WellFormed, CutsBackEdges, ShadowValue, Eval;
    var b := c.order[i];
    var edges := OpAt(c.f, (b, j)).edges;
    var kept := PhiKept(c.f, c.dag, b, edges, |edges|).value;
    var from := KeptFrom(c.f, c.dag, b, edges, |edges|);
    forall n | 0 <= n < |kept|
      ensures ProperTerm(c.f, kept[n].0) && SortOf(kept[n].0) == BoolSort && ProperTerm(c.f, kept[n].1)
      ensures forall x :: x in FreeVars(kept[n].0) || x in FreeVars(kept[n].1) ==>
                SettledBy(c.f, Items(c.f, c.order), StartOf(c.f, c.order, i) + j + 1, x.0)
    {
      var p := c.f.blocks[b].preds[from[n]];
      EdgeGuardSettled(c, p, b, i, j + 1);
      TermProper(c.f, edges[from[n]]);
      PhiOperandSettled(c, i, j, from[n]);
    }
  }

  lemma PhiOperandSettled(c: Setting, i: nat, j: nat, n: nat)
    requires Ready(c) && i < |c.order| && j < |c.f.blocks[c.order[i]].instrs| && OpAt(c.f, (c.order[i], j)).Phi?
    requires n < |OpAt(c.f, (c.order[i], j)).edges| && n < |c.f.blocks[c.order[i]].preds|
    requires Edge(c.dag, c.f.blocks[c.order[i]].preds[n], c.order[i])
    ensures SettledBy(c.f, Items(c.f, c.order), StartOf(c.f, c.order, i) + (j + 1),
        NameOf(c.f, OpAt(c.f, (c.order[i], j)).edges[n]))
  {
    var s: Site := (c.order[i], j);
    var v := OpAt(c.f, s).edges[n];
    var p := c.f.blocks[c.order[i]].preds[n];
    var i' := EdgeEarlier(c, p, c.order[i], i);
    forall d: Site | DefinesAt(c.f, d, v)
      ensures ComesBefore(c, d, i, j + 1)
    {
      if d.0 != p {
        var i'' := DominatorEarlier(c, d.0, p, i');
      }
    }
    SettledIf(c, i, j + 1, v);
  }

  /** The right-hand side of any instruction is proper and settled when the instruction is reached. */
  lemma RhsSettled(c: Setting, i: nat, j: nat)
    requires Ready(c) && i < |c.order| && j < |c.f.blocks[c.order[i]].instrs|
    requires RhsOf(c.f, c.dag, c.order[i], OpAt(c.f, (c.order[i], j))).Some?
    requires SortOf(RhsOf(c.f, c.dag, c.order[i], OpAt(c.f, (c.order[i], j))).value) != SeqSort
    ensures var t := RhsOf(c.f, c.dag, c.order[i], OpAt(c.f, (c.order[i], j))).value;
            && ProperTerm(c.f, t)
            && forall x :: x in FreeVars(t) ==>
              SettledBy(c.f, Items(c.f, c.order), StartOf(c.f, c.order, i) + j + 1, x.0)
  {
    hide IsRun, ContractsTrue, WellFormed, CutsBackEdges, ListsReachable, Forward, Walk, Items, ModelAfter;
    var op := OpAt(c.f, (c.order[i], j));
    var t := RhsOf(c.f, c.dag, c.order[i], op).value;
    if op.Phi? {
      KeptSettled(c, i, j);
      IteProper(c.f, PhiKept(c.f, c.dag, c.order[i], op.edges, |op.edges|).value);
    } else {
      RhsProper(c.f, c.dag, c.order[i], op);
      forall x | x in FreeVars(t)
        ensures SettledBy(c.f, Items(c.f, c.order), StartOf(c.f, c.order, i) + j + 1, x.0)
      {
        var v :| v in OpReads(op) && x.0 == NameOf(c.f, v);
        OperandSettled(c, i, j, v);
      }
    }
  }
}
