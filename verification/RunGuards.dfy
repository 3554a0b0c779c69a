/** Guards of the assignment: true on the visited blocks, and on others only beyond the end of an unfinished run. */
module RunGuards {
  import opened Wrappers
  import opened Graphs
  import opened CutDag
  import opened Dominators
  import opened Terms
  import opened Ir
  import opened Encoding
  import opened GuardTerms
  import opened Runs
  import opened RunFacts
  import opened RunModel
  import opened RunSettled
  import opened RunValues
  import opened RunAgrees

  lemma GuardValue(c: Setting, i: nat)
    requires Ready(c) && i < |c.order|
    ensures Guard(c.order[i]) in FullModel(c)
    ensures FullModel(c)[Guard(c.order[i])] == Eval(GuardRhs(c.f, c.dag, c.reachable, c.order[i]), FullModel(c))
  {
    hide IsRun, ContractsTrue, WellFormed, CutsBackEdges, ListsReachable, Forward, Walk, Items, ModelAfter, StrictSsa,
      WellTyped, Executes, HandsOver, Exec;
    var items, k := Items(c.f, c.order), StartOf(c.f, c.order, i);
    ItemsAt(c.f, c.order, i, 0);
    SettledGuard(c, i, 1, i);
    GuardRhsSettled(c, i);
    AssignedValue(c, items, k, Guard(c.order[i]));
    SettledTerm(c, items, k, GuardRhs(c.f, c.dag, c.reachable, c.order[i]));
  }

  /** The emitted guard equations hold. */
  lemma GuardsHold(c: Setting, t: Term)
    requires Ready(c) && t in GuardAsserts(c.f, c.dag, c.reachable, |c.f.blocks|)
    ensures Holds(t, FullModel(c))
  {
    hide IsRun, ContractsTrue, StrictSsa, WellTyped, CutsBackEdges, Forward, ListsReachable, GuardRhs, FullModel;
    var b :| 0 <= b < |c.f.blocks| && t == GuardAsserts(c.f, c.dag, c.reachable, |c.f.blocks|)[b];
    var i := PositionOf(c, b);
    GuardValue(c, i);
    assert Eval(GuardTerm(b), FullModel(c)) == Eval(GuardRhs(c.f, c.dag, c.reachable, b), FullModel(c));
  }

  ghost predicate GuardOn(c: Setting, b: nat)
    requires Ready(c)
  {
    Holds(GuardTerm(b), FullModel(c))
  }

  ghost predicate EdgeOn(c: Setting, p: nat, b: nat)
    requires Ready(c)
  {
    EdgeGuard(c.f, p, b).Some? && Holds(EdgeGuard(c.f, p, b).value, FullModel(c))
  }

  lemma EdgeOnMeaning(c: Setting, p: nat, b: nat)
    requires Ready(c) && Edge(c.dag, p, b)
    ensures p < |c.f.blocks| && b in c.f.blocks[p].succs && WellShapedBlock(c.f, p)
    ensures EdgeGuard(c.f, p, b).Some?
    ensures EndsInBranch(c.f, p) ==> BranchCond(c.f, p).Some?
    ensures EdgeOn(c, p, b) <==>
              GuardOn(c, p) && (EndsInBranch(c.f, p) ==>
                (Holds(BranchCond(c.f, p).value, FullModel(c)) <==> b == c.f.blocks[p].succs[0]))
  {
    hide ContractsTrue, StrictSsa, WellTyped, Walk, Executes, Initial, Forward, ListsReachable;
    DagEdge(c, p, b);
    assert WellShapedBlock(c.f, p);
    EdgeGuardMeaning(c.f, p, b, FullModel(c));
  }

  lemma GuardFromEdges(c: Setting, b: nat)
    requires Ready(c) && 0 < b < |c.f.blocks|
    ensures GuardOn(c, b) <==> exists p: nat :: Edge(c.dag, p, b) && EdgeOn(c, p, b)
  {
    hide Items, Walk, ModelAfter, Exec, ContractsTrue, StrictSsa, CutsBackEdges;
    var i := PositionOf(c, b);
    GuardValue(c, i);
    forall p: nat | Edge(c.dag, p, b)
      ensures EdgeGuard(c.f, p, b).Some?
    {
      EdgeOnMeaning(c, p, b);
    }
    GuardRhsMeaning(c.f, c.dag, c.reachable, b, FullModel(c));
  }

  // ---- the branch a block takes ----

  /** The assignment decides a branch the way the state the run left it in does. */
  lemma BranchDecided(c: Setting, k: nat, to: nat)
    requires Ready(c) && k < |c.run.path| && |c.run.states[k]| == |c.f.blocks[c.run.path[k]].instrs| + 1
    requires EndsInBranch(c.f, c.run.path[k]) && Takes(c.f, c.run.path[k], c.run.states[k][|c.run.states[k]| - 1], to)
    requires BranchesTo(c.run, k, to)
    ensures BranchCond(c.f, c.run.path[k]).Some?
    ensures Holds(BranchCond(c.f, c.run.path[k]).value, FullModel(c)) <==> to == c.f.blocks[c.run.path[k]].succs[0]
  {
    hide Items, Walk, ModelAfter, Exec, ContractsTrue, StrictSsa, CutsBackEdges;
    var b := c.run.path[k];
    var v := BranchValue(c.f, b);
    assert WellShapedBlock(c.f, b);
    TakesMeaning(c.f, b, c.run.states[k][|c.run.states[k]| - 1], to);
    if TermOf(c.f, v).Some? {
      SortedDecided(c, k, v, (b, |c.f.blocks[b].instrs| - 1));
    } else {
      HavocDecided(c, k, to);
    }
  }

  lemma TakesMeaning(f: Function, b: nat, s: State, to: nat)
    requires b < |f.blocks| && WellShapedBlock(f, b) && EndsInBranch(f, b) && Takes(f, b, s, to)
    ensures var v := BranchValue(f, b);
            if TermOf(f, v).Some?
            then BranchCond(f, b) == TermOf(f, v) && v in s.regs && s.regs[v].Plain?
              && (s.regs[v].v == BoolVal(true) <==> to == f.blocks[b].succs[0])
            else BranchCond(f, b) == Some(Var(HavocCond(b), BoolSort)) && HavocBranch(f, b)
    ensures |f.blocks[b].succs| > 0
  {
  }

  lemma SortedDecided(c: Setting, k: nat, v: ValueId, s: Site)
    requires Ready(c) && k < |c.run.path| && |c.run.states[k]| > 0
    requires IsSite(c.f, s) && OpAt(c.f, s) == Branch(v) && TermOf(c.f, v).Some?
    requires v in c.run.states[k][|c.run.states[k]| - 1].regs
    ensures c.run.states[k][|c.run.states[k]| - 1].regs[v] == Plain(Eval(TermOf(c.f, v).value, FullModel(c)))
  {
    hide ContractsTrue, WellTyped, Walk, HandsOver, Initial, Forward, ListsReachable;
    RegsSurvive(c.m, c.f, c.dag, c.run, k, |c.run.states[k]| - 1);
    RunTerm(c, s, v);
  }

  ghost predicate BranchesTo(run: Run, k: nat, to: nat)
    requires k < |run.path|
  {
    if k + 1 < |run.path| then run.path[k + 1] == to else run.next == Some(to)
  }

  lemma HavocDecided(c: Setting, k: nat, to: nat)
    requires Ready(c) && k < |c.run.path| && BranchesTo(c.run, k, to) && HavocBranch(c.f, c.run.path[k])
    requires |c.f.blocks[c.run.path[k]].succs| > 0
    ensures Holds(Var(HavocCond(c.run.path[k]), BoolSort), FullModel(c)) <==> to == c.f.blocks[c.run.path[k]].succs[0]
  {
    hide ContractsTrue, StrictSsa, WellTyped, Walk, Executes, Initial, Forward, ListsReachable;
    var b := c.run.path[k];
    var items := Items(c.f, c.order);
    SettledHavoc(c.f, items, b);
    SettledName(c, items, 0, HavocCond(b));
    assert items[..0] == [];
    assert (HavocCond(b), BoolSort) in Declared(c.f);
    assert HavocCond(b) in DeclaredNames(c.f);
    assert FullModel(c)[HavocCond(b)] == BoolVal(TookFirst(c, b));
    forall l | 0 <= l < |c.run.path| && c.run.path[l] == b
      ensures l == k
    {
      if l < k { PathDistinct(c.dag, c.run.path, l, k); }
      if k < l { PathDistinct(c.dag, c.run.path, k, l); }
    }
    if k + 1 < |c.run.path| {
      assert LastBlock(c.run) != b;
      if to == c.f.blocks[b].succs[0] {
        var l := k + 1;
        assert 0 <= k < l < |c.run.path| && c.run.path[k] == b && c.run.path[l] == to;
      }
    }
  }

  /** Edges of a block the run left are on exactly towards where it went. */
  lemma EdgeTaken(c: Setting, k: nat, to: nat, b: nat)
    requires Ready(c) && k < |c.run.path| && |c.run.states[k]| == |c.f.blocks[c.run.path[k]].instrs| + 1
    requires Takes(c.f, c.run.path[k], c.run.states[k][|c.run.states[k]| - 1], to) && BranchesTo(c.run, k, to)
    requires GuardOn(c, c.run.path[k]) && Edge(c.dag, c.run.path[k], b)
    ensures EdgeOn(c, c.run.path[k], b) <==> b == to
  {
    hide Items, Walk, ModelAfter, IsRun, ContractsTrue, WellFormed, CutsBackEdges, ListsReachable, Forward;
    var p := c.run.path[k];
    EdgeOnMeaning(c, p, b);
    if EndsInBranch(c.f, p) {
      BranchDecided(c, k, to);
    }
  }

  /** Guards are true along the run. */
  lemma {:induction false} VisitedOn(c: Setting, k: nat)
    requires Ready(c) && k < |c.run.path|
    ensures GuardOn(c, c.run.path[k])
  {
    hide Items, Walk, ModelAfter, Exec, ContractsTrue, WellFormed, CutsBackEdges;
    if k == 0 {
      var i := PositionOf(c, 0);
      GuardValue(c, i);
    } else {
      VisitedOn(c, k - 1);
      assert HandsOver(c.f, c.run, k - 1);
      assert Edge(c.dag, c.run.path[k - 1], c.run.path[k]);
      EdgeTaken(c, k - 1, c.run.path[k], c.run.path[k]);
      EdgeTarget(c, c.run.path[k - 1], c.run.path[k]);
      GuardFromEdges(c, c.run.path[k]);
    }
  }

  /** No kept edge leads back to the entry. */
  lemma EdgeTarget(c: Setting, p: nat, b: nat)
    requires Ready(c) && Edge(c.dag, p, b)
    ensures b != 0
  {
    var i := PositionOf(c, b);
    var i' := EdgeEarlier(c, p, b, i);
    assert c.order[0] == 0;
  }

  /** A block that may come after the end of an unfinished run. */
  ghost predicate Beyond(c: Setting, b: nat)
    requires Ready(c)
  {
    RunShape(c.m, c.f, c.dag, c.run);
    !Complete(c.f, c.dag, c.run) && b != LastBlock(c.run) && Reaches(c.dag, LastBlock(c.run), b)
  }

  /** A true guard is a visited block, or one beyond the end of an unfinished run. */
  lemma {:induction false} OnVisited(c: Setting, i: nat)
    requires Ready(c) && i < |c.order| && GuardOn(c, c.order[i])
    ensures c.order[i] in c.run.path || Beyond(c, c.order[i])
    decreases i, 1
  {
    hide ContractsTrue, StrictSsa, WellTyped, Walk, Executes, Initial, Forward, ListsReachable;
    var b := c.order[i];
    if b == 0 {
      assert c.run.path[0] == 0;
    } else {
      GuardFromEdges(c, b);
      var p: nat :| Edge(c.dag, p, b) && EdgeOn(c, p, b);
      EdgeOnLeads(c, p, b, i);
    }
  }

  lemma {:induction false} EdgeOnLeads(c: Setting, p: nat, b: nat, i: nat)
    requires Ready(c) && i < |c.order| && c.order[i] == b && Edge(c.dag, p, b) && EdgeOn(c, p, b)
    ensures (exists k :: 0 <= k && k + 1 < |c.run.path| && c.run.path[k] == p && c.run.path[k + 1] == b) || Beyond(c, b)
    decreases i, 0
  {
    hide ContractsTrue, StrictSsa, WellTyped, Walk, Executes, Initial, Forward, ListsReachable;
    var i' := EdgeEarlier(c, p, b, i);
    EdgeOnMeaning(c, p, b);
    if p in c.run.path {
      var k :| 0 <= k < |c.run.path| && c.run.path[k] == p;
      LeavesVisited(c, k, b);
    } else {
      OnVisited(c, i');
      EdgeReaches(c.dag, p, b);
      ReachesTrans(c.dag, LastBlock(c.run), p, b);
      NotBack(c, p, b);
    }
  }

  lemma NotBack(c: Setting, p: nat, b: nat)
    requires Ready(c) && Reaches(c.dag, LastBlock(c.run), p) && Edge(c.dag, p, b)
    ensures b != LastBlock(c.run)
  {
    PathSlice(c.dag, c.run.path, 0, |c.run.path| - 1);
    ReachesTrans(c.dag, 0, LastBlock(c.run), p);
  }

  /** From a visited block the only true edge is the one the run took. */
  lemma LeavesVisited(c: Setting, k: nat, b: nat)
    requires Ready(c) && k < |c.run.path| && Edge(c.dag, c.run.path[k], b) && EdgeOn(c, c.run.path[k], b)
    ensures (k + 1 < |c.run.path| && c.run.path[k + 1] == b) || (k + 1 == |c.run.path| && Beyond(c, b))
  {
    hide ContractsTrue, StrictSsa, WellTyped, Walk, Executes, Initial, Forward, ListsReachable, Takes;
    VisitedOn(c, k);
    if k + 1 < |c.run.path| {
      assert HandsOver(c.f, c.run, k);
      EdgeTaken(c, k, c.run.path[k + 1], b);
    } else {
      RunShape(c.m, c.f, c.dag, c.run);
      ReachesSelf(c.dag, LastBlock(c.run));
      NotBack(c, c.run.path[k], b);
      EdgeReaches(c.dag, c.run.path[k], b);
      if Complete(c.f, c.dag, c.run) {
        EdgeOnMeaning(c, c.run.path[k], b);
        match c.run.next
        case None =>
        case Some(t) => EdgeTaken(c, k, t, b);
      }
    }
  }

  /** The edge the run came along is the only true one into a visited block. */
  lemma CameAlong(c: Setting, k: nat, p: nat)
    requires Ready(c) && 0 < k < |c.run.path| && Edge(c.dag, p, c.run.path[k])
    ensures EdgeOn(c, p, c.run.path[k]) <==> p == c.run.path[k - 1]
  {
    hide Items, Walk, ModelAfter, Exec, ContractsTrue, WellFormed, CutsBackEdges;
    var b := c.run.path[k];
    if p == c.run.path[k - 1] {
      VisitedOn(c, k - 1);
      assert HandsOver(c.f, c.run, k - 1);
      EdgeTaken(c, k - 1, b, b);
    } else if EdgeOn(c, p, b) {
      var i := PositionOf(c, b);
      EdgeOnLeads(c, p, b, i);
      NotBeyond(c, k);
      var k' :| 0 <= k' && k' + 1 < |c.run.path| && c.run.path[k'] == p && c.run.path[k' + 1] == b;
      SamePlace(c, k' + 1, k);
    }
  }

  lemma SamePlace(c: Setting, k: nat, l: nat)
    requires Ready(c) && k < |c.run.path| && l < |c.run.path| && c.run.path[k] == c.run.path[l]
    ensures k == l
  {
    if k < l { PathDistinct(c.dag, c.run.path, k, l); }
    if l < k { PathDistinct(c.dag, c.run.path, l, k); }
  }

  lemma NotBeyond(c: Setting, k: nat)
    requires Ready(c) && k < |c.run.path|
    ensures !Beyond(c, c.run.path[k])
  {
    hide ContractsTrue, StrictSsa, WellTyped, Walk, Executes, HandsOver, Initial, Forward, ListsReachable;
    if Beyond(c, c.run.path[k]) {
      PathSlice(c.dag, c.run.path, k, |c.run.path| - 1);
      PathSlice(c.dag, c.run.path, 0, k);
      NoTwoWay(c.dag, c.run.path[k], LastBlock(c.run));
    }
  }
}
