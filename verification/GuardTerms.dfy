/** What block and edge guards say under an assignment. */
module GuardTerms {
  import opened Wrappers
  import opened Graphs
  import opened Terms
  import opened Ir
  import opened Encoding

  predicate EndsInBranch(f: Function, b: nat)
    requires b < |f.blocks|
  {
    |f.blocks[b].instrs| > 0 && f.blocks[b].instrs[|f.blocks[b].instrs| - 1].Branch?
  }

  function BranchValue(f: Function, b: nat): ValueId
    requires b < |f.blocks| && EndsInBranch(f, b)
  {
    f.blocks[b].instrs[|f.blocks[b].instrs| - 1].cond
  }

  /**
    Successors in range; two distinct ones after a branch on a Bool (or unmodelled) condition, at most one
    otherwise.
   */
  ghost predicate ForkedBlock(f: Function, b: nat)
    requires b < |f.blocks|
  {
    var blk := f.blocks[b];
    && (forall s :: s in blk.succs ==> s < |f.blocks|)
    && (if EndsInBranch(f, b) then
          && |blk.succs| == 2 && blk.succs[0] != blk.succs[1]
          && (SortOfValue(f, BranchValue(f, b)) == None || SortOfValue(f, BranchValue(f, b)) == Some(BoolSort))
        else |blk.succs| <= 1)
  }

  lemma EdgeGuardShape(f: Function, p: nat, b: nat)
    requires p < |f.blocks| && ForkedBlock(f, p) && b in f.blocks[p].succs
    ensures EdgeGuard(f, p, b) ==
              if !EndsInBranch(f, p) then Some(GuardTerm(p))
              else if b == f.blocks[p].succs[0] then Some(And([GuardTerm(p), BranchCond(f, p).value]))
              else Some(And([GuardTerm(p), Not(BranchCond(f, p).value)]))
    ensures EndsInBranch(f, p) ==> BranchCond(f, p).Some? && SortOf(BranchCond(f, p).value) == BoolSort
  {
    if EndsInBranch(f, p) {
      var succs := f.blocks[p].succs;
      assert b == succs[0] || b == succs[1];
      assert SortOf(BranchCond(f, p).value) == BoolSort;
    }
  }

  lemma EdgeGuardMeaning(f: Function, p: nat, b: nat, m: Model)
    requires p < |f.blocks| && ForkedBlock(f, p) && b in f.blocks[p].succs
    ensures EdgeGuard(f, p, b).Some? && SortOf(EdgeGuard(f, p, b).value) == BoolSort
    ensures EndsInBranch(f, p) ==> BranchCond(f, p).Some?
    ensures Holds(EdgeGuard(f, p, b).value, m) <==>
              Holds(GuardTerm(p), m) && (EndsInBranch(f, p) ==>
                (Holds(BranchCond(f, p).value, m) <==> b == f.blocks[p].succs[0]))
  {
    EdgeGuardShape(f, p, b);
    if EndsInBranch(f, p) {
      var c := BranchCond(f, p).value;
      PairMeaning(GuardTerm(p), c, m);
      PairMeaning(GuardTerm(p), Not(c), m);
    }
  }

  lemma PairMeaning(a: Term, b: Term, m: Model)
    ensures Holds(And([a, b]), m) <==> Holds(a, m) && Holds(b, m)
    ensures Holds(Or([a, b]), m) <==> Holds(a, m) || Holds(b, m)
  {
    assert a in [a, b] && b in [a, b];
  }

  lemma {:induction false} IncomingIs(f: Function, dag: Graph, to: nat, n: nat, e: Term) returns (p: nat)
    requires n <= |dag| && to < |dag| && e in Incoming(f, dag, to, n)
    ensures p < n && Edge(dag, p, to) && EdgeGuard(f, p, to) == Some(e)
  {
    if e in Incoming(f, dag, to, n - 1) {
      p := IncomingIs(f, dag, to, n - 1, e);
    } else {
      p := n - 1;
      IncomingFromIs(f, p, to, dag[p], e);
    }
  }

  lemma {:induction false} IncomingFromIs(f: Function, from: nat, to: nat, succs: seq<nat>, e: Term)
    requires e in IncomingFrom(f, from, to, succs)
    ensures to in succs && EdgeGuard(f, from, to) == Some(e)
  {
    if e in IncomingFrom(f, from, to, succs[..|succs| - 1]) {
      IncomingFromIs(f, from, to, succs[..|succs| - 1], e);
    }
  }

  lemma {:induction false} IncomingHas(f: Function, dag: Graph, to: nat, n: nat, p: nat)
    requires p < n <= |dag| && to in dag[p] && EdgeGuard(f, p, to).Some?
    ensures EdgeGuard(f, p, to).value in Incoming(f, dag, to, n)
  {
    if p == n - 1 {
      IncomingFromHas(f, p, to, dag[p]);
    } else {
      IncomingHas(f, dag, to, n - 1, p);
    }
  }

  lemma {:induction false} IncomingFromHas(f: Function, from: nat, to: nat, succs: seq<nat>)
    requires to in succs && EdgeGuard(f, from, to).Some?
    ensures EdgeGuard(f, from, to).value in IncomingFrom(f, from, to, succs)
  {
    if succs[|succs| - 1] != to {
      IncomingFromHas(f, from, to, succs[..|succs| - 1]);
    }
  }

  /** A block's guard equation says: some kept edge into it has a true guard. */
  lemma GuardRhsMeaning(f: Function, dag: Graph, reachable: seq<bool>, b: nat, m: Model)
    requires |dag| == |f.blocks| && 0 < b < |dag| && b < |reachable| && reachable[b]
    requires forall p: nat :: Edge(dag, p, b) ==> EdgeGuard(f, p, b).Some?
    ensures Holds(GuardRhs(f, dag, reachable, b), m)
        <==> exists p: nat :: Edge(dag, p, b) && Holds(EdgeGuard(f, p, b).value, m)
  {
    hide EdgeGuard, Incoming;
    var edges := Incoming(f, dag, b, |dag|);
    if p: nat :| Edge(dag, p, b) && Holds(EdgeGuard(f, p, b).value, m) {
      IncomingHas(f, dag, b, |dag|, p);
      assert |edges| == 1 ==> edges[0] == EdgeGuard(f, p, b).value;
    }
    if Holds(GuardRhs(f, dag, reachable, b), m) {
      var e :| e in edges && Holds(e, m);
      var p := IncomingIs(f, dag, b, |dag|, e);
    }
  }
}
