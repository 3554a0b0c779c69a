/**
  Immediate dominators of the cut graph, computed in one pass over a topological order, and the
  query the checkers ask of them. The specification of dominance is by paths.
 */
module Dominators {
  import opened Wrappers
  import opened Graphs
  import opened CutDag

  /** Every path from the entry to b visits a. */
  ghost predicate Dominates(g: Graph, a: nat, b: nat) {
    forall p :: PathFromTo(g, p, 0, b) ==> a in p
  }

  /**
    The textbook immediate-dominator table: entries exactly for reachable blocks, the entry its own
    root, and for every other block the strict dominator that all its strict dominators dominate.
   */
  ghost predicate ImmediateDominators(g: Graph, idom: seq<Option<nat>>) {
    && |idom| == |g|
    && (forall b: nat :: b < |g| ==> (idom[b].Some? <==> Reaches(g, 0, b)))
    && (|g| > 0 ==> idom[0] == Some(0))
    && (forall b: nat {:trigger ImmediateAt(g, b, idom[b].value)} ::
          0 < b < |g| && Reaches(g, 0, b) ==> ImmediateAt(g, b, idom[b].value))
  }

  /** d is the strict dominator of b that every other one dominates. */
  ghost predicate ImmediateAt(g: Graph, b: nat, d: nat) {
    && d != b && Reaches(g, 0, d) && Dominates(g, d, b)
    && forall a: nat :: Dominates(g, a, b) && a != b ==> Dominates(g, a, d)
  }

  // ---- dominance through predecessors ----

  lemma DominatesSelf(g: Graph, b: nat)
    ensures Dominates(g, b, b)
  {
    forall p | PathFromTo(g, p, 0, b)
      ensures b in p
    {
      assert p[|p| - 1] == b;
    }
  }

  lemma EntryDominates(g: Graph, b: nat)
    ensures Dominates(g, 0, b)
  {
    forall p | PathFromTo(g, p, 0, b)
      ensures 0 in p
    {
      assert p[0] == 0;
    }
  }

  lemma OnlyEntryDominatesEntry(g: Graph, a: nat)
    requires |g| > 0 && Dominates(g, a, 0)
    ensures a == 0
  {
    assert PathFromTo(g, [0], 0, 0);
  }

  lemma DominatesTrans(g: Graph, a: nat, b: nat, c: nat)
    requires Dominates(g, a, b) && Dominates(g, b, c)
    ensures Dominates(g, a, c)
  {
    forall p | PathFromTo(g, p, 0, c)
      ensures a in p
    {
      assert b in p;
      var i :| 0 <= i < |p| && p[i] == b;
      PathSlice(g, p, 0, i);
      assert a in p[0..i + 1];
    }
  }

  /** A dominator of a reachable block reaches it. */
  lemma DominatorReaches(g: Graph, a: nat, b: nat)
    requires Reaches(g, 0, b) && Dominates(g, a, b)
    ensures Reaches(g, 0, a) && Reaches(g, a, b)
  {
    var p :| PathFromTo(g, p, 0, b);
    assert a in p;
    var i :| 0 <= i < |p| && p[i] == a;
    PathSlice(g, p, 0, i);
    PathSlice(g, p, i, |p| - 1);
  }

  lemma DominatesPred(g: Graph, a: nat, p: nat, b: nat)
    requires Dominates(g, a, b) && a != b && Edge(g, p, b)
    ensures Dominates(g, a, p)
  {
    forall q | PathFromTo(g, q, 0, p)
      ensures a in q
    {
      assert PathFromTo(g, [p, b], p, b);
      PathJoin(g, q, [p, b], 0, p, b);
      assert q + [p, b][1..] == q + [b];
      assert a in q + [b];
    }
  }

  lemma PredsDominate(g: Graph, a: nat, b: nat)
    requires b != 0
    requires forall p: nat :: Reaches(g, 0, p) && Edge(g, p, b) ==> Dominates(g, a, p)
    ensures Dominates(g, a, b)
  {
    forall q | PathFromTo(g, q, 0, b)
      ensures a in q
    {
      var i := |q| - 2;
      assert Edge(g, q[i], q[i + 1]);
      PathSlice(g, q, 0, i);
      assert a in q[0..i + 1];
    }
  }

  // ---- idom chains ----

  /** The table links a block it covers to a covered block that is earlier in the order. */
  ghost predicate LinkedAt(idom: seq<Option<nat>>, pos: map<nat, nat>, b: nat)
    requires b < |idom| && idom[b].Some?
  {
    && b in pos && idom[b].value in pos && idom[b].value < |idom| && idom[idom[b].value].Some?
    && if b == 0 then idom[b].value == 0 else pos[idom[b].value] < pos[b]
  }

  ghost predicate Linked(idom: seq<Option<nat>>, pos: map<nat, nat>) {
    && (forall b: nat {:trigger LinkedAt(idom, pos, b)} :: b < |idom| && idom[b].Some? ==> LinkedAt(idom, pos, b))
    && (forall x, y :: x in pos && y in pos && pos[x] == pos[y] ==> x == y)
    && (0 in pos ==> pos[0] == 0)
  }

  /** The blocks on the idom chain of b, b included. */
  ghost function Chain(idom: seq<Option<nat>>, pos: map<nat, nat>, b: nat): set<nat>
    requires Linked(idom, pos) && b < |idom| && idom[b].Some?
    decreases if LinkedAt(idom, pos, b) then pos[b] else 0
  {
    if LinkedAt(idom, pos, b) && b != 0 then {b} + Chain(idom, pos, idom[b].value) else {b}
  }

  lemma {:induction false} ChainEarlier(idom: seq<Option<nat>>, pos: map<nat, nat>, b: nat, x: nat)
    requires Linked(idom, pos) && b < |idom| && idom[b].Some? && x in Chain(idom, pos, b)
    ensures x in pos && pos[x] <= pos[b]
    ensures x < |idom| && idom[x].Some? && Chain(idom, pos, x) <= Chain(idom, pos, b)
    decreases if b in pos then pos[b] else 0
  {
    assert LinkedAt(idom, pos, b);
    if b != 0 && x != b {
      ChainEarlier(idom, pos, idom[b].value, x);
    }
  }

  /** Filling in a missing entry leaves the other chains alone. */
  lemma {:induction false} ChainStable(idom: seq<Option<nat>>, idom': seq<Option<nat>>, pos: map<nat, nat>, b: nat)
    requires Linked(idom, pos) && Linked(idom', pos) && |idom| == |idom'| && b < |idom| && idom[b].Some?
    requires forall x: nat :: x < |idom| && idom[x].Some? ==> idom'[x] == idom[x]
    ensures Chain(idom', pos, b) == Chain(idom, pos, b)
    decreases if b in pos then pos[b] else 0
  {
    assert LinkedAt(idom, pos, b);
    if b != 0 {
      ChainStable(idom, idom', pos, idom[b].value);
    }
  }

  /** The later of two fingers is on no chain of the other, so moving it loses nothing. */
  lemma LaterLeaves(idom: seq<Option<nat>>, pos: map<nat, nat>, a: nat, b: nat)
    requires Linked(idom, pos) && a != b
    requires a < |idom| && idom[a].Some? && b < |idom| && idom[b].Some?
    requires LinkedAt(idom, pos, a) && LinkedAt(idom, pos, b) && pos[a] >= pos[b]
    ensures LinkedAt(idom, pos, a) && pos[idom[a].value] < pos[a] && LinkedAt(idom, pos, idom[a].value)
    ensures Chain(idom, pos, a) * Chain(idom, pos, b) == Chain(idom, pos, idom[a].value) * Chain(idom, pos, b)
  {
    assert a != 0;
    if a in Chain(idom, pos, b) {
      ChainEarlier(idom, pos, b, a);
    }
    assert LinkedAt(idom, pos, idom[a].value);
  }

  /**
    Two-finger walk: the chain of the result is what the two chains have in common. A block
    without a position would make the walk give up at the entry; a linked table has none.
   */
  method Intersect(idom: array<Option<nat>>, pos: map<nat, nat>, first: nat, second: nat) returns (c: nat)
    requires Linked(idom[..], pos)
    requires first < idom.Length && idom[first].Some? && second < idom.Length && idom[second].Some?
    ensures c < idom.Length && idom[c].Some?
    ensures Chain(idom[..], pos, c) == Chain(idom[..], pos, first) * Chain(idom[..], pos, second)
  {
    ghost var table := idom[..];
    var a: nat, b: nat := first, second;
    while a != b
      invariant a < |table| && table[a].Some? && b < |table| && table[b].Some?
      invariant LinkedAt(table, pos, a) && LinkedAt(table, pos, b)
      invariant Chain(table, pos, a) * Chain(table, pos, b) == Chain(table, pos, first) * Chain(table, pos, second)
      decreases pos[a] + pos[b]
    {
      if pos[a] > pos[b] {
        LaterLeaves(table, pos, a, b);
        a := if idom[a].Some? then idom[a].value else 0;
      } else {
        LaterLeaves(table, pos, b, a);
        assert Chain(table, pos, a) * Chain(table, pos, b) == Chain(table, pos, b) * Chain(table, pos, a);
        assert Chain(table, pos, a) * Chain(table, pos, table[b].value)
          == Chain(table, pos, table[b].value) * Chain(table, pos, a);
        b := if idom[b].Some? then idom[b].value else 0;
      }
    }
    return a;
  }

  // ---- the one pass ----

  /** After the first k blocks of the order: their entries are final and their chains are their dominators. */
  ghost predicate FilledIn(g: Graph, order: seq<nat>, pos: map<nat, nat>, idom: seq<Option<nat>>, k: nat) {
    && k <= |order| && |idom| == |g| && Linked(idom, pos)
    && (forall b: nat :: b < |g| ==> (idom[b].Some? <==> b in order[..k]))
    && (|g| > 0 ==> idom[0] == Some(0))
    && (forall b: nat :: b < |g| && idom[b].Some? ==> DominatedByChain(g, pos, idom, b))
  }

  ghost predicate DominatedByChain(g: Graph, pos: map<nat, nat>, idom: seq<Option<nat>>, b: nat)
    requires Linked(idom, pos) && b < |idom| && idom[b].Some?
  {
    forall a: nat :: Dominates(g, a, b) <==> a in Chain(idom, pos, b)
  }

  /** Predecessor lists, in the order the edges are met. */
  method Predecessors(g: Graph) returns (preds: seq<seq<nat>>)
    ensures |preds| == |g|
    ensures forall p: nat, v: nat :: v < |g| ==> (p in preds[v] <==> Edge(g, p, v))
  {
    var n := |g|;
    preds := seq(n, _ => []);
    for b := 0 to n
      invariant |preds| == n
      invariant forall p: nat, v: nat :: v < n ==> (p in preds[v] <==> p < b && Edge(g, p, v))
    {
      for k := 0 to |g[b]|
        invariant |preds| == n
        invariant forall p: nat, v: nat :: v < n ==>
            (p in preds[v] <==> (p < b && Edge(g, p, v)) || (p == b && v in g[b][..k]))
      {
        var s := g[b][k];
        assert g[b][..k + 1] == g[b][..k] + [s];
        if s < n {
          preds := preds[s := preds[s] + [b]];
        }
      }
      assert g[b][..|g[b]|] == g[b];
    }
  }

  /** The running meet over the predecessors seen: none while none is covered, else their common chain. */
  ghost predicate Meets(g: Graph, pos: map<nat, nat>, idom: seq<Option<nat>>, preds: seq<nat>, m: Option<nat>)
  {
    && Linked(idom, pos)
    && (forall p :: p in preds ==> p < |idom|)
    && match m
       case None => forall p :: p in preds ==> idom[p].None?
       case Some(c) =>
         && c < |idom| && idom[c].Some?
         && (exists p :: p in preds && idom[p].Some?)
         && forall x :: x in Chain(idom, pos, c) <==> forall p :: p in preds && idom[p].Some? ==>
           x in Chain(idom, pos, p)
  }

  ghost predicate Positions(g: Graph, order: seq<nat>, pos: map<nat, nat>) {
    && ListsReachable(g, order) && Forward(g, order)
    && (forall i :: 0 <= i < |order| ==> order[i] < |g| && order[i] in pos && pos[order[i]] == i)
    && (forall b :: b in pos ==> pos[b] < |order| && order[pos[b]] == b)
  }

  /** The position of every listed block. */
  function PositionMap(order: seq<nat>): (pos: map<nat, nat>)
    requires forall i, j :: 0 <= i < j < |order| ==> order[i] != order[j]
  {
    map i | 0 <= i < |order| :: order[i] := i
  }

  lemma PositionsFit(g: Graph, order: seq<nat>)
    requires ListsReachable(g, order) && Forward(g, order)
    ensures Positions(g, order, PositionMap(order))
  {
    forall i | 0 <= i < |order|
      ensures order[i] < |g|
    {
      assert order[i] in order;
      ReachesInRange(g, 0, order[i]);
    }
  }

  lemma EntryFilledIn(g: Graph, order: seq<nat>, pos: map<nat, nat>, idom: seq<Option<nat>>)
    requires Positions(g, order, pos) && |g| > 0 && |idom| == |g|
    requires idom[0] == Some(0) && forall b :: 0 < b < |g| ==> idom[b] == None
    ensures FilledIn(g, order, pos, idom, 1)
  {
    assert Linked(idom, pos);
    forall a: nat
      ensures Dominates(g, a, 0) <==> a in Chain(idom, pos, 0)
    {
      DominatesSelf(g, 0);
      if Dominates(g, a, 0) {
        OnlyEntryDominatesEntry(g, a);
      }
    }
    assert order[..1] == [0];
  }

  /** One block: some predecessor is covered, and the common chain plus the block itself is exactly its dominators. */
  lemma BlockFilledIn(g: Graph, order: seq<nat>, pos: map<nat, nat>, idom: seq<Option<nat>>, k: nat, preds: seq<nat>,
                      m: Option<nat>)
    requires Positions(g, order, pos) && 0 < k < |order| && FilledIn(g, order, pos, idom, k)
    requires forall p: nat :: p in preds <==> Edge(g, p, order[k])
    requires Meets(g, pos, idom, preds, m)
    ensures m.Some? && order[k] < |idom| && FilledIn(g, order, pos, idom[order[k] := m], k + 1)
  {
    hide Positions, Linked, Meets, DominatedByChain;
    MeetIsSome(g, order, pos, idom, k, preds, m);
    var b, c := order[k], m.value;
    BlockLinks(g, order, pos, idom, k, c);
    MeetDominates(g, order, pos, idom, k, preds, c);
    ChainsExtend(g, pos, idom, b, c);
    assert order[..k + 1] == order[..k] + [b];
  }

  lemma MeetIsSome(g: Graph, order: seq<nat>, pos: map<nat, nat>, idom: seq<Option<nat>>, k: nat, preds: seq<nat>,
                   m: Option<nat>)
    requires Positions(g, order, pos) && 0 < k < |order| && FilledIn(g, order, pos, idom, k)
    requires forall p: nat :: p in preds <==> Edge(g, p, order[k])
    requires Meets(g, pos, idom, preds, m)
    ensures m.Some? && m.value < |idom| && idom[m.value].Some?
  {
    hide Positions, FilledIn;
    CoveredPreds(g, order, pos, idom, k, preds);
  }

  /** The block at the turn has no entry yet; with one that leads to a covered block the table stays linked. */
  lemma BlockLinks(g: Graph, order: seq<nat>, pos: map<nat, nat>, idom: seq<Option<nat>>, k: nat, c: nat)
    requires Positions(g, order, pos) && 0 < k < |order| && FilledIn(g, order, pos, idom, k)
    requires c < |idom| && idom[c].Some?
    ensures order[k] < |idom| && order[k] != 0 && idom[order[k]].None?
    ensures Linked(idom[order[k] := Some(c)], pos)
  {
    hide DominatedByChain;
    var b := order[k];
    CoveredEarlier(g, order, pos, idom, k, c);
    assert order[0] == 0;
    if idom[b].Some? {
      CoveredEarlier(g, order, pos, idom, k, b);
    }
    LinkedExtends(idom, pos, b, c);
  }

  /** A new entry gets its link's chain and itself; the chains already there are unchanged. */
  lemma ChainsExtend(g: Graph, pos: map<nat, nat>, idom: seq<Option<nat>>, b: nat, c: nat)
    requires Linked(idom, pos) && |idom| == |g| && b < |idom| && c < |idom| && idom[c].Some? && idom[b].None? && b != 0
    requires Linked(idom[b := Some(c)], pos)
    requires forall x: nat :: x < |g| && idom[x].Some? ==> DominatedByChain(g, pos, idom, x)
    requires forall a: nat :: Dominates(g, a, b) <==> a == b || a in Chain(idom, pos, c)
    ensures var idom' := idom[b := Some(c)];
            forall x: nat :: x < |g| && idom'[x].Some? ==> DominatedByChain(g, pos, idom', x)
  {
    var idom' := idom[b := Some(c)];
    ChainStable(idom, idom', pos, c);
    assert LinkedAt(idom', pos, b);
    assert DominatedByChain(g, pos, idom', b);
    forall x: nat | x < |g| && idom'[x].Some? && x != b
      ensures DominatedByChain(g, pos, idom', x)
    {
      ChainStable(idom, idom', pos, x);
      assert DominatedByChain(g, pos, idom, x);
    }
  }

  lemma LinkedExtends(idom: seq<Option<nat>>, pos: map<nat, nat>, b: nat, c: nat)
    requires Linked(idom, pos) && b < |idom| && c < |idom| && idom[c].Some?
    requires b != 0 && b in pos && c in pos && pos[c] < pos[b]
    ensures Linked(idom[b := Some(c)], pos)
  {
    var idom' := idom[b := Some(c)];
    forall x: nat | x < |idom'| && idom'[x].Some?
      ensures LinkedAt(idom', pos, x)
    {
      if x != b {
        assert LinkedAt(idom, pos, x);
      }
    }
  }

  lemma CoveredEarlier(g: Graph, order: seq<nat>, pos: map<nat, nat>, idom: seq<Option<nat>>, k: nat, x: nat)
    requires Positions(g, order, pos) && FilledIn(g, order, pos, idom, k) && x < |idom| && idom[x].Some?
    ensures x in pos && pos[x] < k
  {
    var i :| 0 <= i < k && order[i] == x;
  }

  /** At block k all reachable predecessors are covered, and there is one. */
  lemma CoveredPreds(g: Graph, order: seq<nat>, pos: map<nat, nat>, idom: seq<Option<nat>>, k: nat, preds: seq<nat>)
    requires Positions(g, order, pos) && 0 < k < |order| && FilledIn(g, order, pos, idom, k)
    requires forall p: nat :: p in preds <==> Edge(g, p, order[k])
    ensures forall p: nat :: p in preds && Reaches(g, 0, p) ==> idom[p].Some?
    ensures exists p: nat :: p in preds && p < |idom| && idom[p].Some?
  {
    forall p: nat | p in preds && Reaches(g, 0, p)
      ensures idom[p].Some?
    {
      var i :| 0 <= i < |order| && order[i] == p;
      assert Edge(g, order[i], order[k]);
      assert order[..k][i] == p;
    }
    assert order[k] in order && order[0] == 0;
    var p := ReachesLast(g, 0, order[k]);
    assert p in preds;
  }

  lemma MeetDominates(g: Graph, order: seq<nat>, pos: map<nat, nat>, idom: seq<Option<nat>>, k: nat, preds: seq<nat>,
                      c: nat)
    requires Positions(g, order, pos) && 0 < k < |order| && FilledIn(g, order, pos, idom, k)
    requires forall p: nat :: p in preds <==> Edge(g, p, order[k])
    requires Meets(g, pos, idom, preds, Some(c))
    ensures forall a: nat :: Dominates(g, a, order[k]) <==> a == order[k] || a in Chain(idom, pos, c)
  {
    var b := order[k];
    CoveredPreds(g, order, pos, idom, k, preds);
    DominatesSelf(g, b);
    assert order[0] == 0;
    forall a: nat
      ensures Dominates(g, a, b) <==> a == b || a in Chain(idom, pos, c)
    {
      if Dominates(g, a, b) && a != b {
        forall p | p in preds && idom[p].Some?
          ensures a in Chain(idom, pos, p)
        {
          DominatesPred(g, a, p, b);
          assert DominatedByChain(g, pos, idom, p);
        }
      }
      if a in Chain(idom, pos, c) {
        forall p: nat | Reaches(g, 0, p) && Edge(g, p, b)
          ensures Dominates(g, a, p)
        {
          assert p in preds && DominatedByChain(g, pos, idom, p);
        }
        PredsDominate(g, a, b);
      }
    }
  }

  lemma FilledInMeaning(g: Graph, order: seq<nat>, pos: map<nat, nat>, idom: seq<Option<nat>>)
    requires Positions(g, order, pos) && FilledIn(g, order, pos, idom, |order|)
    ensures ImmediateDominators(g, idom)
  {
    assert order[..|order|] == order;
    forall b: nat | 0 < b < |g| && Reaches(g, 0, b)
      ensures ImmediateAt(g, b, idom[b].value)
    {
      assert b in order && LinkedAt(idom, pos, b);
      var d := idom[b].value;
      assert LinkedAt(idom, pos, d);
      assert d in Chain(idom, pos, d);
      assert DominatedByChain(g, pos, idom, b) && DominatedByChain(g, pos, idom, d);
      assert d in order;
    }
  }

  /** Folds Intersect over the predecessors; a predecessor without an entry contributes nothing. */
  method CommonDominator(ghost g: Graph, idom: array<Option<nat>>, pos: map<nat, nat>, preds: seq<nat>)
      returns (meet: Option<nat>)
    requires Linked(idom[..], pos) && forall p :: p in preds ==> p < idom.Length
    ensures Meets(g, pos, idom[..], preds, meet)
  {
    ghost var table := idom[..];
    meet := None;
    for j := 0 to |preds|
      invariant Meets(g, pos, table, preds[..j], meet)
    {
      var pd := preds[j];
      assert pd in preds;
      assert preds[..j + 1] == preds[..j] + [pd];
      if idom[pd].None? {
        continue;
      }
      match meet
      case None =>
        assert table[pd].Some?;
        meet := Some(pd);
      case Some(cur) =>
        var c := Intersect(idom, pos, cur, pd);
        MeetStep(g, pos, table, preds[..j], pd, cur, c);
        meet := Some(c);
    }
    assert preds[..|preds|] == preds;
  }

  lemma MeetStep(g: Graph, pos: map<nat, nat>, idom: seq<Option<nat>>, preds: seq<nat>, pd: nat, cur: nat, c: nat)
    requires Meets(g, pos, idom, preds, Some(cur)) && pd < |idom| && idom[pd].Some?
    requires c < |idom| && idom[c].Some? && Chain(idom, pos, c) == Chain(idom, pos, cur) * Chain(idom, pos, pd)
    ensures Meets(g, pos, idom, preds + [pd], Some(c))
  {
    assert pd in preds + [pd] && idom[pd].Some?;
  }

  lemma ListedOnce(g: Graph, order: seq<nat>)
    requires ListsReachable(g, order)
    ensures forall i, j :: 0 <= i < j < |order| ==> order[i] != order[j]
    ensures |g| > 0 ==> |order| > 0
    ensures |g| == 0 ==> ImmediateDominators(g, [])
  {
    if |g| > 0 {
      ReachesSelf(g, 0);
    }
  }

  lemma ListedInRange(g: Graph, order: seq<nat>, pos: map<nat, nat>, k: nat)
    requires Positions(g, order, pos) && k < |order|
    ensures order[k] < |g|
  {
  }

  lemma PredsInRange(g: Graph, order: seq<nat>, pos: map<nat, nat>, idom: seq<Option<nat>>, k: nat, preds: seq<nat>)
    requires Positions(g, order, pos) && FilledIn(g, order, pos, idom, k) && k < |order|
    requires forall p: nat :: p in preds ==> Edge(g, p, order[k])
    ensures Linked(idom, pos) && |idom| == |g| && forall p :: p in preds ==> p < |idom|
  {
  }

  lemma NoBlocks(dag: Graph, idom: seq<Option<nat>>)
    requires |dag| == |idom| == 0
    ensures ImmediateDominators(dag, idom)
  {
  }

  method Dominators(dag: Graph) returns (idom: array<Option<nat>>)
    requires AcyclicFromEntry(dag)
    ensures fresh(idom) && ImmediateDominators(dag, idom[..])
  {
    hide OrderOf, ListsReachable, Forward, Positions, FilledIn, Meets, AcyclicFromEntry, Edge, Linked,
      ImmediateDominators;
    var n := |dag|;
    var preds := Predecessors(dag);
    var order := TopoOrder(dag);
    ListedOnce(dag, order);
    var pos := PositionMap(order);
    PositionsFit(dag, order);
    idom := new Option<nat>[n](_ => None);
    if n == 0 {
      NoBlocks(dag, idom[..]);
      return;
    }
    idom[0] := Some(0);
    EntryFilledIn(dag, order, pos, idom[..]);
    for k := 1 to |order|
      invariant idom.Length == n && fresh(idom)
      invariant FilledIn(dag, order, pos, idom[..], k)
    {
      var b := order[k];
      ghost var table := idom[..];
      ListedInRange(dag, order, pos, k);
      PredsInRange(dag, order, pos, table, k, preds[b]);
      var meet := CommonDominator(dag, idom, pos, preds[b]);
      BlockFilledIn(dag, order, pos, table, k, preds[b], meet);
      idom[b] := meet;
      assert idom[..] == table[b := meet];
    }
    assert order[..|order|] == order;
    FilledInMeaning(dag, order, pos, idom[..]);
  }

  // ---- the query ----

  /** k steps up the table from b; None once a missing entry is met. */
  ghost function Climb(idom: seq<Option<nat>>, b: nat, k: nat): Option<nat> {
    if k == 0 then Some(b)
    else match Climb(idom, b, k - 1)
         case None => None
         case Some(c) => if c < |idom| then idom[c] else None
  }

  /** True iff a is met strictly above b on its idom chain, within as many links as there are blocks. */
  method StrictlyDominates(idom: seq<Option<nat>>, a: nat, b: nat) returns (r: bool)
    ensures r <==> a != b && exists k :: 1 <= k <= |idom| && Climb(idom, b, k) == Some(a)
  {
    if a == b {
      return false;
    }
    var cur := b;
    for k := 0 to |idom|
      invariant Climb(idom, b, k) == Some(cur) && cur != a
      invariant forall j :: 1 <= j <= k ==> Climb(idom, b, j) != Some(a)
    {
      var d := if cur < |idom| then idom[cur] else None;
      assert Climb(idom, b, k + 1) == d;
      if d == Some(a) {
        assert k + 1 <= |idom|;
        return true;
      } else if d == Some(cur) {
        StuckClimb(idom, b, k, cur);
        return false;
      } else if d.None? {
        LostClimb(idom, b, k + 1);
        return false;
      }
      cur := d.value;
    }
    return false;
  }

  lemma {:induction false} StuckClimb(idom: seq<Option<nat>>, b: nat, k: nat, c: nat)
    requires Climb(idom, b, k) == Some(c) && c < |idom| && idom[c] == Some(c)
    ensures forall j :: j >= k ==> Climb(idom, b, j) == Some(c)
  {
    forall j | j >= k
      ensures Climb(idom, b, j) == Some(c)
    {
      var i := k;
      while i < j
        invariant k <= i <= j && Climb(idom, b, i) == Some(c)
      {
        i := i + 1;
      }
    }
  }

  lemma {:induction false} LostClimb(idom: seq<Option<nat>>, b: nat, k: nat)
    requires Climb(idom, b, k) == None
    ensures forall j :: j >= k ==> Climb(idom, b, j) == None
  {
    forall j | j >= k
      ensures Climb(idom, b, j) == None
    {
      var i := k;
      while i < j
        invariant k <= i <= j && Climb(idom, b, i) == None
      {
        i := i + 1;
      }
    }
  }

  lemma {:induction false} ClimbDominates(g: Graph, idom: seq<Option<nat>>, b: nat, k: nat, a: nat)
    requires ImmediateDominators(g, idom) && Reaches(g, 0, b) && Climb(idom, b, k) == Some(a)
    ensures Reaches(g, 0, a) && Dominates(g, a, b)
  {
    if k == 0 {
      DominatesSelf(g, b);
    } else {
      var c := Climb(idom, b, k - 1).value;
      ClimbDominates(g, idom, b, k - 1, c);
      if c == 0 {
        EntryDominates(g, b);
      } else {
        assert c < |idom| && ImmediateAt(g, c, idom[c].value);
        DominatesTrans(g, a, c, b);
      }
    }
  }

  ghost function DominatorsOf(g: Graph, b: nat): set<nat> {
    set a: nat | a < |g| && Dominates(g, a, b)
  }

  /** Without reachable cycles two blocks cannot dominate each other. */
  lemma StrictlyFewer(g: Graph, d: nat, b: nat)
    requires AcyclicFromEntry(g) && Reaches(g, 0, b) && Dominates(g, d, b) && d != b
    ensures DominatorsOf(g, d) < DominatorsOf(g, b)
  {
    forall a | a in DominatorsOf(g, d)
      ensures a in DominatorsOf(g, b)
    {
      DominatesTrans(g, a, d, b);
    }
    DominatesSelf(g, b);
    ReachesInRange(g, 0, b);
    DominatorReaches(g, d, b);
    if Dominates(g, b, d) {
      DominatorReaches(g, b, d);
      NoTwoWay(g, b, d);
    }
    assert b in DominatorsOf(g, b);
  }

  lemma NoTwoWay(g: Graph, u: nat, v: nat)
    requires AcyclicFromEntry(g) && Reaches(g, 0, u) && Reaches(g, u, v) && Reaches(g, v, u)
    ensures u == v
  {
    if u != v {
      var w := ReachesLast(g, v, u);
      ReachesTrans(g, 0, u, v);
      ReachesTrans(g, 0, v, w);
      ReachesTrans(g, u, v, w);
      assert false;
    }
  }

  lemma {:induction false} ClimbShift(idom: seq<Option<nat>>, b: nat, k: nat)
    requires b < |idom| && idom[b].Some?
    ensures Climb(idom, b, k + 1) == Climb(idom, idom[b].value, k)
  {
    if k == 0 {
      assert Climb(idom, b, 0) == Some(b);
    } else {
      ClimbShift(idom, b, k - 1);
    }
  }

  lemma CountInRange(g: Graph, b: nat)
    ensures |DominatorsOf(g, b)| <= |g|
  {
    SubsetCount(DominatorsOf(g, b), Ids(|g|));
  }

  /** A strict dominator is met on the way up, in fewer links than there are dominators. */
  lemma {:induction false} ClimbTo(g: Graph, idom: seq<Option<nat>>, a: nat, b: nat) returns (k: nat)
    requires AcyclicFromEntry(g) && ImmediateDominators(g, idom)
    requires Reaches(g, 0, b) && Dominates(g, a, b) && a != b
    ensures 1 <= k < |DominatorsOf(g, b)| && Climb(idom, b, k) == Some(a)
    decreases |DominatorsOf(g, b)|
  {
    ReachesInRange(g, 0, b);
    if b == 0 {
      OnlyEntryDominatesEntry(g, a);
    }
    var d := idom[b].value;
    assert ImmediateAt(g, b, d);
    ReachesInRange(g, 0, d);
    DominatesSelf(g, d);
    StrictlyFewer(g, d, b);
    FewerElements(DominatorsOf(g, d), DominatorsOf(g, b));
    if a == d {
      k := 1;
      OneLink(g, idom, b);
    } else {
      var j := ClimbTo(g, idom, a, d);
      ClimbShift(idom, b, j);
      k := j + 1;
    }
  }

  lemma OneLink(g: Graph, idom: seq<Option<nat>>, b: nat)
    requires b < |idom| == |g| && idom[b].Some? && Dominates(g, idom[b].value, idom[b].value) && idom[b].value < |g|
    ensures Climb(idom, b, 1) == idom[b] && |DominatorsOf(g, idom[b].value)| > 0
  {
    assert Climb(idom, b, 0) == Some(b);
    assert idom[b].value in DominatorsOf(g, idom[b].value);
  }

  /**
    The query answers path dominance: on an immediate-dominator table of an acyclic graph, a is met
    above b exactly when a is another block, b is reachable and every path from the entry to b visits a.
   */
  lemma StrictDominanceExact(g: Graph, idom: seq<Option<nat>>, a: nat, b: nat)
    requires AcyclicFromEntry(g) && ImmediateDominators(g, idom) && b < |g|
    ensures (a != b && exists k :: 1 <= k <= |idom| && Climb(idom, b, k) == Some(a))
       <==> a != b && Reaches(g, 0, b) && Dominates(g, a, b)
  {
    if Reaches(g, 0, b) {
      if a != b && Dominates(g, a, b) {
        var k := ClimbTo(g, idom, a, b);
        CountInRange(g, b);
      }
      if k: nat :| 1 <= k <= |idom| && Climb(idom, b, k) == Some(a) {
        ClimbDominates(g, idom, b, k, a);
      }
    } else {
      assert idom[b].None?;
      assert Climb(idom, b, 0) == Some(b);
      assert Climb(idom, b, 1) == None;
      LostClimb(idom, b, 1);
    }
  }
}
