/** Definitions come before uses in the assignment order, so operands are settled when they are read. */
module RunSettled {
  import opened Wrappers
  import opened Graphs
  import opened CutDag
  import opened Dominators
  import opened Terms
  import opened Ir
  import opened Encoding
  import opened GuardTerms
  import opened Runs
  import opened RunFacts
  import opened RunModel

  lemma OrderFits(c: Setting)
    requires ValidSetting(c)
    ensures InRange(c.f, c.order) && OrderInRange(c.f, c.order)
  {
    forall i | 0 <= i < |c.order|
      ensures c.order[i] < |c.f.blocks|
    {
      assert c.order[i] in c.order;
      ReachesInRange(c.dag, 0, c.order[i]);
    }
    WalkFits(c.f, c.order);
  }

  lemma {:induction false} WalkFits(f: Function, order: seq<nat>)
    requires InRange(f, order)
    ensures forall s :: s in Walk(f, order) ==> IsSite(f, s)
  {
    if order != [] {
      WalkFits(f, order[..|order| - 1]);
      var last := BlockSites(f, order[|order| - 1]);
      forall s | s in last
        ensures IsSite(f, s)
      {
        var i :| 0 <= i < |last| && last[i] == s;
      }
    }
  }

  /** The setting is valid and its order is known to be in range. */
  ghost predicate Ready(c: Setting) {
    ValidSetting(c) && InRange(c.f, c.order) && OrderInRange(c.f, c.order)
  }

  /** Position of a block in the order; every block has one. */
  lemma PositionOf(c: Setting, b: nat) returns (i: nat)
    requires Ready(c) && b < |c.f.blocks|
    ensures i < |c.order| && c.order[i] == b
  {
    assert Reaches(Successors(c.f), 0, b);
    assert Reaches(c.dag, 0, b) && b in c.order;
    i :| 0 <= i < |c.order| && c.order[i] == b;
  }

  lemma DagEdge(c: Setting, u: nat, v: nat)
    requires ValidSetting(c) && Edge(c.dag, u, v)
    ensures Edge(Successors(c.f), u, v)
  {
    var g := Successors(c.f);
    assert c.dag[u] == Without(g[u], Gone(g, c.dag, u));
  }

  lemma DagDominates(c: Setting, a: nat, b: nat)
    requires ValidSetting(c) && Dominates(Successors(c.f), a, b)
    ensures Dominates(c.dag, a, b)
  {
    forall p | PathFromTo(c.dag, p, 0, b)
      ensures a in p
    {
      forall i, j | 0 <= i < j < |p| && j == i + 1
        ensures Edge(Successors(c.f), p[i], p[j])
      {
        DagEdge(c, p[i], p[j]);
      }
      assert PathFromTo(Successors(c.f), p, 0, b);
    }
  }

  /** A block that dominates another is listed earlier. */
  lemma DominatorEarlier(c: Setting, a: nat, b: nat, i: nat) returns (i': nat)
    requires Ready(c) && Dominates(Successors(c.f), a, b) && a != b && i < |c.order| && c.order[i] == b
    ensures i' < i && c.order[i'] == a
  {
    assert b in c.order;
    DagDominates(c, a, b);
    DominatorReaches(c.dag, a, b);
    assert a in c.order;
    i' :| 0 <= i' < |c.order| && c.order[i'] == a;
    ReachesForward(c.dag, c.order, i', i);
  }

  lemma EdgeEarlier(c: Setting, p: nat, b: nat, i: nat) returns (i': nat)
    requires Ready(c) && Edge(c.dag, p, b) && i < |c.order| && c.order[i] == b
    ensures i' < i && c.order[i'] == p
  {
    i' := PositionOf(c, p);
    assert Edge(c.dag, c.order[i'], c.order[i]);
  }

  /** Site d is assigned before item j of the i-th listed block. */
  ghost predicate ComesBefore(c: Setting, d: Site, i: nat, j: nat)
    requires i < |c.order|
  {
    (d.0 == c.order[i] && d.1 + 1 < j) || exists i' :: 0 <= i' < i && c.order[i'] == d.0
  }

  lemma PrecedesComesBefore(c: Setting, d: Site, s: Site, i: nat)
    requires Ready(c) && Precedes(c.f, d, s) && i < |c.order| && c.order[i] == s.0
    ensures ComesBefore(c, d, i, s.1 + 1)
  {
    if d.0 != s.0 {
      var i' := DominatorEarlier(c, d.0, s.0, i);
    }
  }

  lemma SettledIf(c: Setting, i: nat, j: nat, v: ValueId)
    requires Ready(c) && i < |c.order| && j <= |c.f.blocks[c.order[i]].instrs|
    requires forall d: Site :: DefinesAt(c.f, d, v) ==> ComesBefore(c, d, i, j)
    ensures SettledBy(c.f, Items(c.f, c.order), StartOf(c.f, c.order, i) + j, NameOf(c.f, v))
  {
    hide Items, Walk, ModelAfter, IsRun, ContractsTrue, WellFormed, CutsBackEdges;
    var items := Items(c.f, c.order);
    var k := StartOf(c.f, c.order, i) + j;
    forall k2 | k <= k2 < |items|
      ensures AssignedName(c.f, items[k2]) != Some(NameOf(c.f, v))
    {
      var i2, j2 := ItemFrom(c.f, c.order, k2);
      NameRoundTrip(c.f, v);
      if AssignedName(c.f, items[k2]) == Some(NameOf(c.f, v)) {
        var d: Site := (c.order[i2], j2 - 1);
        NameRoundTrip(c.f, OpDst(OpAt(c.f, d)).value);
        assert DefinesAt(c.f, d, v);
        if i2 > i {
          assert false;
        } else if i2 < i {
          StartsGrow(c.f, c.order, i2, i);
        }
      }
    }
  }

  lemma SettledGuard(c: Setting, i: nat, j: nat, i': nat)
    requires Ready(c) && i < |c.order| && j <= |c.f.blocks[c.order[i]].instrs| + 1
    requires i' < i || (i' == i && j >= 1)
    ensures SettledBy(c.f, Items(c.f, c.order), StartOf(c.f, c.order, i) + j, Guard(c.order[i']))
  {
    hide Items, Walk, ModelAfter, IsRun, ContractsTrue, WellFormed, CutsBackEdges;
    var items := Items(c.f, c.order);
    forall k2 | StartOf(c.f, c.order, i) + j <= k2 < |items|
      ensures AssignedName(c.f, items[k2]) != Some(Guard(c.order[i']))
    {
      var i2, j2 := ItemFrom(c.f, c.order, k2);
      if i2 < i {
        StartsGrow(c.f, c.order, i2, i);
      }
      if j2 > 0 && AssignedName(c.f, items[k2]).Some? {
        NameRoundTrip(c.f, OpDst(OpAt(c.f, (c.order[i2], j2 - 1))).value);
      }
    }
  }

  lemma SettledHavoc(f: Function, items: seq<Item>, b: nat)
    ensures SettledBy(f, items, 0, HavocCond(b))
  {
    forall k | 0 <= k < |items|
      ensures AssignedName(f, items[k]) != Some(HavocCond(b))
    {
      if items[k].InstrItem? && AssignedName(f, items[k]).Some? {
        NameRoundTrip(f, OpDst(OpAt(f, items[k].s)).value);
      }
    }
  }

  lemma OneDefinition(f: Function, d: Site, d': Site, v: ValueId)
    requires StrictSsa(f) && DefinesAt(f, d, v) && DefinesAt(f, d', v)
    ensures d == d'
  {
  }

  /** A definition at d is the only item that assigns its name. */
  lemma SettledAfter(c: Setting, i: nat, j: nat, v: ValueId)
    requires Ready(c) && i < |c.order| && j < |c.f.blocks[c.order[i]].instrs|
    requires DefinesAt(c.f, (c.order[i], j), v)
    ensures SettledBy(c.f, Items(c.f, c.order), StartOf(c.f, c.order, i) + j + 2, NameOf(c.f, v))
  {
    hide Items, Walk, ModelAfter, IsRun, ContractsTrue, StrictSsa, CutsBackEdges;
    var items := Items(c.f, c.order);
    forall k2 | StartOf(c.f, c.order, i) + j + 2 <= k2 < |items|
      ensures AssignedName(c.f, items[k2]) != Some(NameOf(c.f, v))
    {
      var i2, j2 := ItemFrom(c.f, c.order, k2);
      NameRoundTrip(c.f, v);
      if AssignedName(c.f, items[k2]) == Some(NameOf(c.f, v)) {
        var d: Site := (c.order[i2], j2 - 1);
        NameRoundTrip(c.f, OpDst(OpAt(c.f, d)).value);
        OneDefinition(c.f, d, (c.order[i], j), v);
      }
    }
  }

  /** Operands of a non-phi instruction are settled when it is reached. */
  lemma OperandSettled(c: Setting, i: nat, j: nat, v: ValueId)
    requires Ready(c) && i < |c.order| && j < |c.f.blocks[c.order[i]].instrs|
    requires var op := OpAt(c.f, (c.order[i], j)); !op.Phi? && v in OpReads(op)
    ensures SettledBy(c.f, Items(c.f, c.order), StartOf(c.f, c.order, i) + j + 1, NameOf(c.f, v))
  {
    var s: Site := (c.order[i], j);
    forall d: Site | DefinesAt(c.f, d, v)
      ensures ComesBefore(c, d, i, j + 1)
    {
      PrecedesComesBefore(c, d, s, i);
    }
    SettledIf(c, i, j + 1, v);
  }

  // ---- edge guards ----

  /** The condition an edge adds to its source's guard: the branch condition, its negation, or nothing. */
  lemma PairVars(a: Term, b: Term)
    ensures FreeVars(And([a, b])) == FreeVars(a) + FreeVars(b)
    ensures WellSorted(a) && WellSorted(b) && SortOf(a) == SortOf(b) == BoolSort ==> WellSorted(And([a, b]))
  {
    assert [a, b][0] == a && [a, b][1] == b;
    assert a in [a, b] && b in [a, b];
  }

  lemma EdgeGuardVars(f: Function, p: nat, b: nat)
    requires p < |f.blocks| && WellShapedBlock(f, p) && b in f.blocks[p].succs
    ensures EdgeGuard(f, p, b).Some? && ProperTerm(f, EdgeGuard(f, p, b).value)
        && SortOf(EdgeGuard(f, p, b).value) == BoolSort
    ensures FreeVars(EdgeGuard(f, p, b).value) <= {(Guard(p), BoolSort)} + CondVars(f, p)
  {
    EdgeGuardShape(f, p, b);
    if EndsInBranch(f, p) {
      var c := BranchCond(f, p).value;
      TermProper(f, BranchValue(f, p));
      PairVars(GuardTerm(p), c);
      PairVars(GuardTerm(p), Not(c));
    }
  }

  function CondVars(f: Function, p: nat): set<(Name, Sort)> {
    match BranchCond(f, p)
    case None => {}
    case Some(c) => FreeVars(c)
  }

  /** Whatever an instruction of an earlier block reads is settled. */
  lemma EarlierOperandSettled(c: Setting, s: Site, v: ValueId, i': nat, i: nat, j: nat)
    requires Ready(c) && i' < i < |c.order| && j <= |c.f.blocks[c.order[i]].instrs|
    requires IsSite(c.f, s) && s.0 == c.order[i'] && !OpAt(c.f, s).Phi? && v in OpReads(OpAt(c.f, s))
    ensures SettledBy(c.f, Items(c.f, c.order), StartOf(c.f, c.order, i) + j, NameOf(c.f, v))
  {
    forall d: Site | DefinesAt(c.f, d, v)
      ensures ComesBefore(c, d, i, j)
    {
      PrecedesComesBefore(c, d, s, i');
    }
    SettledIf(c, i, j, v);
  }

  lemma CondVarsShape(f: Function, p: nat)
    requires p < |f.blocks|
    ensures !EndsInBranch(f, p) ==> CondVars(f, p) == {}
    ensures EndsInBranch(f, p) ==> forall x :: x in CondVars(f, p) ==>
        x.0 == NameOf(f, BranchValue(f, p)) || x.0 == HavocCond(p)
    ensures EndsInBranch(f, p) ==>
              var s: Site := (p, |f.blocks[p].instrs| - 1);
              IsSite(f, s) && !OpAt(f, s).Phi? && BranchValue(f, p) in OpReads(OpAt(f, s))
  {
  }

  /** The branch condition of an earlier block is settled. */
  lemma CondSettled(c: Setting, i': nat, i: nat, j: nat)
    requires Ready(c) && i' < i < |c.order| && j <= |c.f.blocks[c.order[i]].instrs|
    ensures forall v :: v in CondVars(c.f, c.order[i']) ==>
        SettledBy(c.f, Items(c.f, c.order), StartOf(c.f, c.order, i) + j, v.0)
  {
    hide ContractsTrue, StrictSsa, WellTyped, CutsBackEdges, Forward, Walk, Items, ModelAfter, Executes, HandsOver,
      Exec;
    var p := c.order[i'];
    CondVarsShape(c.f, p);
    if EndsInBranch(c.f, p) {
      EarlierOperandSettled(c, (p, |c.f.blocks[p].instrs| - 1), BranchValue(c.f, p), i', i, j);
      SettledHavoc(c.f, Items(c.f, c.order), p);
    }
  }

  /** What an edge guard reads is settled before any later block begins. */
  lemma EdgeGuardSettled(c: Setting, p: nat, b: nat, i: nat, j: nat)
    requires Ready(c) && Edge(c.dag, p, b) && i < |c.order| && c.order[i] == b && j <= |c.f.blocks[b].instrs|
    ensures EdgeGuard(c.f, p, b).Some?
    ensures ProperTerm(c.f, EdgeGuard(c.f, p, b).value) && SortOf(EdgeGuard(c.f, p, b).value) == BoolSort
    ensures forall v :: v in FreeVars(EdgeGuard(c.f, p, b).value) ==>
        SettledBy(c.f, Items(c.f, c.order), StartOf(c.f, c.order, i) + j, v.0)
  {
    hide ContractsTrue, StrictSsa, WellTyped, CutsBackEdges, Forward, Walk, Items, ModelAfter, Executes, HandsOver,
      Exec;
    var i' := EdgeEarlier(c, p, b, i);
    DagEdge(c, p, b);
    assert WellShapedBlock(c.f, p);
    EdgeGuardVars(c.f, p, b);
    SettledGuard(c, i, j, i');
    CondSettled(c, i', i, j);
  }
}
