/**
  An assignment that satisfies an encoding is the run it describes: one that shares with a run its
  inputs, what the encoding does not model and the branches it leaves open agrees with the run on every
  register, and its guards are on along the run's path.
 */
module EncodingRuns {
  import opened Wrappers
  import opened MachineInts
  import opened Graphs
  import opened CutDag
  import opened Terms
  import opened Ir
  import opened Encoding
  import opened GuardTerms
  import opened GuardPaths
  import opened Runs
  import opened RunFacts
  import opened RunModel
  import opened RunSettled
  import opened RunTheorem
  import opened EncodingMeaning

  ghost function SourceIn(c: Setting): Source {
    Source(c.f, c.cs, c.dag, c.reachable, c.order)
  }

  /** The operands and the destination are modelled at sorts that fit, so the destination is computed. */
  ghost predicate Determined(e: Source, s: Site)
    requires IsSite(e.f, s)
  {
    match OpAt(e.f, s)
    case Assign(d, x) => SortOfValue(e.f, d) == SortOfValue(e.f, x)
    case BinOp(d, k, x, y) =>
      var lt, rt := TypeOf(e.f, x), TypeOf(e.f, y);
      if k == EqK || k == NeqK then SortOfTy(lt).Some? && SortOfTy(lt) == SortOfTy(rt) && TypeOf(e.f, d) == BoolTy
      else lt.IntTy? && rt.IntTy? && lt.width == rt.width > 0 && SortOfValue(e.f, d) == Some(ResultSort(k, lt.width))
    case UnOp(d, k, x) =>
      && (if k == NotK then TypeOf(e.f, x) == BoolTy else TypeOf(e.f, x).IntTy?)
      && SortOfValue(e.f, d) == SortOfValue(e.f, x)
    case Phi(d, edges) => PhiTyped(e, s.0, d, edges)
    case _ => false
  }

  ghost predicate Has(c: Setting, m: Model, v: ValueId, r: RVal) {
    r.Plain? && ValueIn(c.f, m, v) == Some(r.v)
  }

  predicate Open(f: Function, v: ValueId) {
    SortOfValue(f, v).Some? && v in Mentions(f)
  }

  /** Parameters, results the encoding leaves open, and branches on conditions it does not model. */
  ghost predicate SharesInputs(c: Setting, m: Model)
    requires Ready(c)
  {
    && (forall v :: v in Final(c) && Open(c.f, v) && (forall d: Site :: !DefinesAt(c.f, d, v)) ==>
          Has(c, m, v, Final(c)[v]))
    && (forall s: Site, v :: v in Final(c) && Open(c.f, v) && DefinesAt(c.f, s, v) && !Determined(SourceIn(c), s) ==>
          Has(c, m, v, Final(c)[v]))
    && (forall k: nat {:trigger SharesBranch(c, m, k)} :: k + 1 < |c.run.path| ==> SharesBranch(c, m, k))
  }

  ghost predicate SharesBranch(c: Setting, m: Model, k: nat)
    requires Ready(c) && k + 1 < |c.run.path|
  {
    HavocBranch(c.f, c.run.path[k]) ==>
      && c.f.blocks[c.run.path[k]].succs != []
      && (Holds(Var(HavocCond(c.run.path[k]), BoolSort), m)
          <==> c.run.path[k + 1] == c.f.blocks[c.run.path[k]].succs[0])
  }

  /** The registers of a state have their values under the assignment. */
  ghost predicate Agrees(c: Setting, m: Model, regs: Regs) {
    forall v :: v in regs && Open(c.f, v) ==> Has(c, m, v, regs[v])
  }

  lemma SettingEncodable(c: Setting)
    requires Ready(c)
    ensures Encodable(SourceIn(c)) && |c.dag| == |c.f.blocks|
  {
    hide IsRun, ContractsTrue, StrictSsa, WellTyped, ListsReachable, Forward, Walk, CutsBackEdges;
    SameLength(c.f, c.dag);
  }

  lemma ExecRegs(m: Machine, f: Function, b: nat, from: Option<nat>, op: Op, s: State, s': State)
    requires b < |f.blocks| && Exec(m, f, b, from, op, s, s')
    ensures Available(op, s.regs)
    ensures OpDst(op).None? ==> s'.regs == s.regs
    ensures OpDst(op).Some? ==>
              var d := OpDst(op).value;
              d in s'.regs && s'.regs == s.regs[d := s'.regs[d]] && Produces(m, f, b, from, op, s, s'.regs[d])
  {
    hide Produces, HasType;
  }

  /** What the instruction wrote agrees, if what it found agrees. */
  lemma NewAgrees(c: Setting, m: Model, k: nat, i: nat, d: ValueId)
    requires Ready(c) && Satisfies(m, SourceIn(c)) && SharesInputs(c, m) && Position(c.run, k, i + 1)
    requires Agrees(c, m, c.run.states[k][i].regs)
    requires k > 0 ==> Comes(SourceIn(c), m, c.run.path[k - 1], c.run.path[k])
    requires IsSite(c.f, (c.run.path[k], i)) && OpDst(OpAt(c.f, (c.run.path[k], i))) == Some(d) && Open(c.f, d)
    requires Available(OpAt(c.f, (c.run.path[k], i)), c.run.states[k][i].regs) && d in c.run.states[k][i + 1].regs
    requires Produces(c.m, c.f, c.run.path[k], CameFrom(c.run, k), OpAt(c.f, (c.run.path[k], i)), c.run.states[k][i],
                      c.run.states[k][i + 1].regs[d])
    ensures Has(c, m, d, c.run.states[k][i + 1].regs[d])
  {
    hide IsRun, ContractsTrue, WellFormed, ListsReachable, Forward, Walk, CutsBackEdges, Satisfies, Produces,
      SharesBranch, Comes, OpReads, Exec, Has, Determined, Agrees, Available, OpDst;
    var s: Site := (c.run.path[k], i);
    DefinedSurvives(c, k, i, d);
    if Determined(SourceIn(c), s) {
      DeterminedAgrees(c, m, k, i, d);
    } else {
      assert DefinesAt(c.f, s, d);
    }
  }

  /** One instruction: what it leaves behind agrees, if what it found agrees. */
  lemma StepAgrees(c: Setting, m: Model, k: nat, i: nat)
    requires Ready(c) && Satisfies(m, SourceIn(c)) && SharesInputs(c, m) && Position(c.run, k, i + 1)
    requires Agrees(c, m, c.run.states[k][i].regs)
    requires k > 0 ==> Comes(SourceIn(c), m, c.run.path[k - 1], c.run.path[k])
    ensures Agrees(c, m, c.run.states[k][i + 1].regs)
  {
    hide IsRun, ContractsTrue, WellFormed, ListsReachable, Forward, Walk, CutsBackEdges, Satisfies, Produces,
      SharesInputs, Comes, OpReads, Exec, Has, Open, Available, OpDst;
    ExecAt(c.m, c.f, c.dag, c.run, k, i);
    var s: Site := (c.run.path[k], i);
    ExecRegs(c.m, c.f, s.0, CameFrom(c.run, k), OpAt(c.f, s), c.run.states[k][i], c.run.states[k][i + 1]);
    if OpDst(OpAt(c.f, s)).Some? {
      var d := OpDst(OpAt(c.f, s)).value;
      if Open(c.f, d) {
        NewAgrees(c, m, k, i, d);
      }
    }
  }

  lemma DefinedSurvives(c: Setting, k: nat, i: nat, d: ValueId)
    requires Ready(c) && Position(c.run, k, i + 1) && d in c.run.states[k][i + 1].regs
    ensures d in Final(c) && Final(c)[d] == c.run.states[k][i + 1].regs[d]
  {
    hide ContractsTrue, WellTyped, WellShaped, AllReachable, ListsReachable, Forward, Walk, HandsOver, Initial, Exec;
    RegsSurvive(c.m, c.f, c.dag, c.run, k, i + 1);
  }

  lemma Typed(c: Setting, k: nat, i: nat, v: ValueId)
    requires Ready(c) && Position(c.run, k, i) && v in c.run.states[k][i].regs && SortOfValue(c.f, v).Some?
    ensures c.run.states[k][i].regs[v].Plain?
    ensures HasSort(c.run.states[k][i].regs[v].v, SortOfValue(c.f, v).value)
  {
    hide ContractsTrue, WellTyped, WellShaped, AllReachable, ListsReachable, Forward, Walk, CutsBackEdges, HandsOver,
      Initial, Exec;
    RegsTyped(c.m, c.f, c.dag, c.run, k, i, v);
  }

  /** An operand of the instruction, if it is modelled, is open. */
  lemma OperandOpen(f: Function, s: Site, v: ValueId)
    requires IsSite(f, s) && v in OpValues(OpAt(f, s)) && SortOfValue(f, v).Some?
    ensures Open(f, v)
  {
    hide Mentions, OpValues;
    Mentioned(f, s, v);
  }

  lemma DeterminedAgrees(c: Setting, m: Model, k: nat, i: nat, d: ValueId)
    requires Ready(c) && Satisfies(m, SourceIn(c)) && Position(c.run, k, i + 1)
    requires Agrees(c, m, c.run.states[k][i].regs) && IsSite(c.f, (c.run.path[k], i))
    requires k > 0 ==> Comes(SourceIn(c), m, c.run.path[k - 1], c.run.path[k])
    requires var op := OpAt(c.f, (c.run.path[k], i));
             && Available(op, c.run.states[k][i].regs) && OpDst(op) == Some(d) && SortOfValue(c.f, d).Some?
             && Determined(SourceIn(c), (c.run.path[k], i)) && d in c.run.states[k][i + 1].regs
             && Produces(c.m, c.f, c.run.path[k], CameFrom(c.run, k), op, c.run.states[k][i],
                         c.run.states[k][i + 1].regs[d])
    ensures Has(c, m, d, c.run.states[k][i + 1].regs[d])
  {
    hide Ready, Satisfies, Agrees, Produces, Computes, Comes, Determined;
    var s: Site := (c.run.path[k], i);
    var regs, r := c.run.states[k][i].regs, c.run.states[k][i + 1].regs[d];
    SettingEncodable(c);
    EveryInstruction(SourceIn(c), m, s);
    match OpAt(c.f, s)
    case Assign(_, _) => AssignAgrees(c, m, k, i, d, r);
    case BinOp(_, _, _, _) => BinOpAgrees(c, m, k, i, d, r);
    case UnOp(_, _, _) => UnOpAgrees(c, m, k, i, d, r);
    case Phi(_, _) => PhiAgrees(c, m, k, i, d, r);
    case _ => Undetermined(SourceIn(c), s);
  }

  lemma Undetermined(e: Source, s: Site)
    requires IsSite(e.f, s)
    ensures Determined(e, s) ==> OpAt(e.f, s).Assign? || OpAt(e.f, s).BinOp? || OpAt(e.f, s).UnOp? || OpAt(e.f, s).Phi?
  {
  }

  /** A modelled operand the state has is shared. */
  lemma OperandShared(c: Setting, m: Model, k: nat, i: nat, s: Site, x: ValueId)
    requires Ready(c) && Position(c.run, k, i) && Agrees(c, m, c.run.states[k][i].regs)
    requires IsSite(c.f, s) && x in OpValues(OpAt(c.f, s)) && x in c.run.states[k][i].regs && SortOfValue(c.f, x).Some?
    ensures Has(c, m, x, c.run.states[k][i].regs[x])
    ensures HasSort(c.run.states[k][i].regs[x].v, SortOfValue(c.f, x).value)
  {
    hide Ready, Position, Open;
    OperandOpen(c.f, s, x);
    Typed(c, k, i, x);
  }

  lemma AssignAgrees(c: Setting, m: Model, k: nat, i: nat, d: ValueId, r: RVal)
    requires Ready(c) && Position(c.run, k, i + 1) && Agrees(c, m, c.run.states[k][i].regs)
    requires IsSite(c.f, (c.run.path[k], i))
    requires var s: Site, op := (c.run.path[k], i), OpAt(c.f, (c.run.path[k], i));
             && op.Assign? && op.dst == d && Determined(SourceIn(c), s) && SortOfValue(c.f, d).Some?
             && Available(op, c.run.states[k][i].regs)
             && Produces(c.m, c.f, s.0, CameFrom(c.run, k), op, c.run.states[k][i], r)
             && Computes(SourceIn(c), m, s)
    ensures Has(c, m, d, r)
  {
    hide Ready, Agrees;
    var s: Site := (c.run.path[k], i);
    assert OpReads(OpAt(c.f, s))[0] == OpAt(c.f, s).src;
    OperandShared(c, m, k, i, s, OpAt(c.f, s).src);
  }

  lemma BinOpAgrees(c: Setting, m: Model, k: nat, i: nat, d: ValueId, r: RVal)
    requires Ready(c) && Position(c.run, k, i + 1) && Agrees(c, m, c.run.states[k][i].regs)
    requires IsSite(c.f, (c.run.path[k], i))
    requires var s: Site, op := (c.run.path[k], i), OpAt(c.f, (c.run.path[k], i));
             && op.BinOp? && op.dst == d && Determined(SourceIn(c), s) && SortOfValue(c.f, d).Some?
             && Available(op, c.run.states[k][i].regs)
             && Produces(c.m, c.f, s.0, CameFrom(c.run, k), op, c.run.states[k][i], r)
             && Computes(SourceIn(c), m, s)
    ensures Has(c, m, d, r)
  {
    hide Ready, Agrees, IntResult;
    var s: Site := (c.run.path[k], i);
    var op := OpAt(c.f, s);
    assert OpReads(op)[0] == op.lhs && OpReads(op)[1] == op.rhs;
    OperandShared(c, m, k, i, s, op.lhs);
    OperandShared(c, m, k, i, s, op.rhs);
  }

  lemma UnOpAgrees(c: Setting, m: Model, k: nat, i: nat, d: ValueId, r: RVal)
    requires Ready(c) && Position(c.run, k, i + 1) && Agrees(c, m, c.run.states[k][i].regs)
    requires IsSite(c.f, (c.run.path[k], i))
    requires var s: Site, op := (c.run.path[k], i), OpAt(c.f, (c.run.path[k], i));
             && op.UnOp? && op.dst == d && Determined(SourceIn(c), s) && SortOfValue(c.f, d).Some?
             && Available(op, c.run.states[k][i].regs)
             && Produces(c.m, c.f, s.0, CameFrom(c.run, k), op, c.run.states[k][i], r)
             && Computes(SourceIn(c), m, s)
    ensures Has(c, m, d, r)
  {
    hide Ready, Agrees, UnResult;
    var s: Site := (c.run.path[k], i);
    assert OpReads(OpAt(c.f, s))[0] == OpAt(c.f, s).operand;
    OperandShared(c, m, k, i, s, OpAt(c.f, s).operand);
  }

  lemma PhiAgrees(c: Setting, m: Model, k: nat, i: nat, d: ValueId, r: RVal)
    requires Ready(c) && Position(c.run, k, i + 1) && Agrees(c, m, c.run.states[k][i].regs)
    requires k > 0 ==> Comes(SourceIn(c), m, c.run.path[k - 1], c.run.path[k])
    requires IsSite(c.f, (c.run.path[k], i))
    requires var s: Site, op := (c.run.path[k], i), OpAt(c.f, (c.run.path[k], i));
             && op.Phi? && op.dst == d && Determined(SourceIn(c), s) && SortOfValue(c.f, d).Some?
             && Available(op, c.run.states[k][i].regs)
             && Produces(c.m, c.f, s.0, CameFrom(c.run, k), op, c.run.states[k][i], r)
             && Computes(SourceIn(c), m, s)
    ensures Has(c, m, d, r)
  {
    hide Ready, Agrees;
    var s: Site := (c.run.path[k], i);
    var edges, preds, regs := OpAt(c.f, s).edges, c.f.blocks[s.0].preds, c.run.states[k][i].regs;
    var j :| 0 <= j < |edges| && j < |preds| && CameFrom(c.run, k) == Some(preds[j]) && edges[j] in regs
      && r == regs[edges[j]];
    assert SortOfValue(c.f, edges[j]) == SortOfValue(c.f, d);
    assert edges[j] in OpReads(OpAt(c.f, s));
    OperandShared(c, m, k, i, s, edges[j]);
  }

  // ---- from block to block ----

  /** The assignment sends control where the run went. */
  lemma BlockAgrees(c: Setting, m: Model, k: nat)
    requires Ready(c) && Satisfies(m, SourceIn(c)) && SharesInputs(c, m) && k + 1 < |c.run.path|
    requires |c.run.states[k]| > 0 && Agrees(c, m, c.run.states[k][|c.run.states[k]| - 1].regs)
    requires On(m, c.run.path[k])
    ensures Comes(SourceIn(c), m, c.run.path[k], c.run.path[k + 1]) && On(m, c.run.path[k + 1])
  {
    hide ContractsTrue, StrictSsa, WellTyped, ListsReachable, Forward, Walk, CutsBackEdges, Satisfies, Executes,
      Initial, Agrees, On, Chosen, SharesBranch;
    var b, to := c.run.path[k], c.run.path[k + 1];
    assert HandsOver(c.f, c.run, k) && Edge(c.dag, b, to) && SharesBranch(c, m, k);
    ChosenIs(c, m, k);
    SettingEncodable(c);
    GuardsSatisfied(SourceIn(c), m);
    assert to < |c.f.blocks|;
    ReachedOnPath(c, k + 1);
    GuardEquation(c.f, c.dag, c.reachable, m, to);
  }

  lemma ReachedOnPath(c: Setting, k: nat)
    requires Ready(c) && k < |c.run.path|
    ensures c.run.path[k] < |c.f.blocks| && c.reachable[c.run.path[k]]
  {
    hide ContractsTrue, StrictSsa, WellTyped, WellShaped, ListsReachable, Forward, Walk, CutsBackEdges, Executes,
      HandsOver, Initial;
  }

  lemma ChosenIs(c: Setting, m: Model, k: nat)
    requires Ready(c) && k + 1 < |c.run.path| && c.run.path[k] < |c.f.blocks|
    requires |c.run.states[k]| > 0 && Agrees(c, m, c.run.states[k][|c.run.states[k]| - 1].regs)
    requires Takes(c.f, c.run.path[k], c.run.states[k][|c.run.states[k]| - 1], c.run.path[k + 1])
    requires SharesBranch(c, m, k)
    ensures Chosen(c.f, m, c.run.path[k]) == Some(c.run.path[k + 1])
  {
    hide ContractsTrue, StrictSsa, WellTyped, AllReachable, ListsReachable, Forward, Walk, CutsBackEdges, Executes,
      HandsOver, Initial, Agrees;
    var b, to := c.run.path[k], c.run.path[k + 1];
    var last := |c.run.states[k]| - 1;
    assert WellShapedBlock(c.f, b);
    if EndsInBranch(c.f, b) {
      var v, n := BranchValue(c.f, b), |c.f.blocks[b].instrs| - 1;
      if TermOf(c.f, v).Some? {
        var s: Site := (b, n);
        assert OpReads(OpAt(c.f, s))[0] == v;
        OperandShared(c, m, k, last, s, v);
        ValueEval(c.f, m, v);
      }
    }
  }

  /** Position by position. */
  lemma {:induction false} StateAgrees(c: Setting, m: Model, k: nat, i: nat)
    requires Ready(c) && Satisfies(m, SourceIn(c)) && SharesInputs(c, m) && Position(c.run, k, i)
    ensures Agrees(c, m, c.run.states[k][i].regs) && On(m, c.run.path[k])
    ensures k > 0 ==> Comes(SourceIn(c), m, c.run.path[k - 1], c.run.path[k])
    decreases k, i
  {
    hide ContractsTrue, WellFormed, ListsReachable, Forward, Walk, CutsBackEdges, Satisfies, Executes, SharesInputs,
      Agrees, On, Comes;
    if i > 0 {
      StateAgrees(c, m, k, i - 1);
      StepAgrees(c, m, k, i - 1);
    } else if k > 0 {
      RunShape(c.m, c.f, c.dag, c.run);
      assert HandsOver(c.f, c.run, k - 1);
      StateAgrees(c, m, k - 1, |c.run.states[k - 1]| - 1);
      BlockAgrees(c, m, k - 1);
    } else {
      StartAgrees(c, m);
    }
  }

  lemma StartAgrees(c: Setting, m: Model)
    requires Ready(c) && Satisfies(m, SourceIn(c)) && SharesInputs(c, m) && Position(c.run, 0, 0)
    ensures Agrees(c, m, c.run.states[0][0].regs) && On(m, c.run.path[0])
  {
    hide ContractsTrue, WellTyped, WellShaped, AllReachable, ListsReachable, Forward, Walk, Satisfies, Executes,
      HandsOver, SharesBranch, Determined;
    RegsSurvive(c.m, c.f, c.dag, c.run, 0, 0);
    EntryIsOn(c, m);
  }

  lemma EntryIsOn(c: Setting, m: Model)
    requires Ready(c) && Satisfies(m, SourceIn(c))
    ensures c.run.path[0] == 0 && On(m, 0)
  {
    hide ContractsTrue, StrictSsa, WellTyped, AllReachable, ListsReachable, Forward, Walk, Satisfies, Executes,
      HandsOver, Initial, CutsBackEdges, On;
    SettingEncodable(c);
    GuardsSatisfied(SourceIn(c), m);
    GuardEquation(c.f, c.dag, c.reachable, m, 0);
  }

  /**
    An assignment that satisfies the encoding and shares a run's inputs, the results that are not modelled
    and the branches left open agrees with the run on every register, and is on along its path.
   */
  lemma ModelIsRun(c: Setting, m: Model)
    requires Ready(c) && Models(m, Query(Declared(c.f), Encoded(c))) && SharesInputs(c, m)
    ensures forall v :: v in Final(c) && Open(c.f, v) ==> Has(c, m, v, Final(c)[v])
    ensures forall k :: 0 <= k < |c.run.path| ==> On(m, c.run.path[k])
  {
    hide ContractsTrue, WellFormed, ListsReachable, Forward, Walk, CutsBackEdges, Executes, HandsOver, SharesInputs,
      Open, On, Declared, Has;
    RunShape(c.m, c.f, c.dag, c.run);
    var last := |c.run.states| - 1;
    assert Satisfies(m, SourceIn(c));
    StateAgrees(c, m, last, |c.run.states[last]| - 1);
    forall k | 0 <= k < |c.run.path|
      ensures On(m, c.run.path[k])
    {
      StateAgrees(c, m, k, 0);
    }
  }
}
