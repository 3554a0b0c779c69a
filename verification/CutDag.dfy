/**
  Cutting back edges and topological order: the two depth-first searches of the encoder, each
  proved against a specification stated with paths only.
 */
module CutDag {
  import opened Graphs
  import opened DepthFirst

  /**
    What cutting promises. Edge lists keep their order and multiplicity; an edge goes only if its
    target still reaches its source through kept edges, from a block the entry still reaches; no
    block becomes unreachable; and what the entry reaches is acyclic.
   */
  ghost predicate CutsBackEdges(g: Graph, dag: Graph) {
    && |dag| == |g|
    && (forall b: nat :: b < |g| ==> dag[b] == Without(g[b], Gone(g, dag, b)))
    && (forall b: nat, s: nat :: b < |g| && s >= |g| && s in g[b] ==> s in dag[b])
    && (forall b: nat, s: nat :: Edge(g, b, s) && !Edge(dag, b, s) ==> Reaches(dag, 0, b) && Reaches(dag, s, b))
    && (forall b: nat :: Reaches(g, 0, b) <==> Reaches(dag, 0, b))
    && AcyclicFromEntry(dag)
  }

  ghost function Gone(g: Graph, dag: Graph, b: nat): set<nat>
    requires |dag| == |g| && b < |g|
  {
    set x | x in g[b] && x !in dag[b]
  }

  /** The order lists exactly the blocks the entry reaches, once each, entry first. */
  ghost predicate ListsReachable(g: Graph, order: seq<nat>) {
    && (forall i, j :: 0 <= i < j < |order| ==> order[i] != order[j])
    && (forall b: nat :: b in order <==> Reaches(g, 0, b))
    && (|g| > 0 ==> |order| > 0 && order[0] == 0)
  }

  /** Every edge between listed blocks points forward. */
  ghost predicate Forward(g: Graph, order: seq<nat>) {
    forall i, j :: 0 <= i < |order| && 0 <= j < |order| && Edge(g, order[i], order[j]) ==> i < j
  }

  function CutTargets(cut: seq<(nat, nat)>, b: nat): set<nat> {
    set e | e in cut && e.0 == b :: e.1
  }

  /** Removes every recorded back edge from the successor lists. */
  method Retain(succs: Graph, cut: seq<(nat, nat)>) returns (dag: Graph)
    requires forall e :: e in cut ==> e.0 < |succs|
    ensures |dag| == |succs| && forall b: nat :: b < |succs| ==> dag[b] == Without(succs[b], CutTargets(cut, b))
    ensures Kept(succs, dag, cut)
  {
    dag := succs;
    forall b: nat | b < |succs|
      ensures dag[b] == Without(succs[b], CutTargets(cut[..0], b))
    {
      WithoutNothing(succs[b], {});
      assert CutTargets(cut[..0], b) == {};
    }
    for k := 0 to |cut|
      invariant |dag| == |succs|
      invariant forall b: nat :: b < |succs| ==> dag[b] == Without(succs[b], CutTargets(cut[..k], b))
    {
      var (b, s) := cut[k];
      assert cut[k] in cut;
      CutTargetsGrow(cut, k);
      WithoutTwice(succs[b], CutTargets(cut[..k], b), {s});
      dag := dag[b := Without(dag[b], {s})];
      assert forall c: nat :: c != b ==> CutTargets(cut[..k + 1], c) == CutTargets(cut[..k], c);
    }
    assert cut[..|cut|] == cut;
    FilteredKept(succs, dag, cut);
  }

  /** The graph with the back edges of its depth-first search removed. */
  ghost function CutOf(g: Graph): (dag: Graph)
    ensures |dag| == |g|
  {
    if |g| == 0 then g
    else seq(|g|, b requires 0 <= b < |g| => Without(g[b], CutTargets(SearchOf(g).cut, b)))
  }

  /** Reverse postorder of its depth-first search. */
  ghost function OrderOf(g: Graph): seq<nat> {
    if |g| == 0 then [] else Reversed(SearchOf(g).post)
  }

  lemma CutOfMeaning(g: Graph)
    ensures CutsBackEdges(g, CutOf(g))
  {
    if |g| == 0 {
      EmptyGraph(g);
    } else {
      FilteredKept(g, CutOf(g), SearchOf(g).cut);
      CutMeaning(g, CutOf(g), SearchOf(g));
    }
  }

  lemma OrderOfMeaning(g: Graph)
    ensures ListsReachable(g, OrderOf(g))
    ensures AcyclicFromEntry(g) ==> Forward(g, OrderOf(g))
  {
    if |g| > 0 {
      PostorderMeaning(g, SearchOf(g));
    } else {
      forall b: nat | Reaches(g, 0, b)
        ensures false
      {
        ReachesInRange(g, 0, b);
      }
    }
  }

  method CutBackEdges(succs: Graph) returns (dag: Graph, visited: seq<bool>)
    ensures dag == CutOf(succs) && CutsBackEdges(succs, dag)
    ensures |visited| == |succs|
    ensures forall b: nat :: b < |succs| ==> (visited[b] <==> Reaches(succs, 0, b))
  {
    hide Inv, Ended, SearchOf, Complete, CutsBackEdges, White, Pending;
    var n := |succs|;
    if n == 0 {
      EmptyGraph(succs);
      return succs, [];
    }
    var state := new nat[n](_ => WHITE);
    var stack: seq<Frame> := [(0, 0)];
    state[0] := GREY;
    var cut: seq<(nat, nat)> := [];
    ghost var search := Initial(n);
    SearchStarts(succs);
    while |stack| > 0
      invariant state.Length == n
      invariant Inv(succs, search) && Ended(succs, search) == SearchOf(succs)
      invariant search.stack == stack && search.color == state[..] && search.cut == cut
      decreases White(search.color), Pending(succs, search.stack)
    {
      StepTowardsEnd(succs, search);
      search := Step(succs, search);
      var (b, i) := stack[|stack| - 1];
      if i < |succs[b]| {
        var s := succs[b][i];
        stack := Advance(stack);
        if s >= n {
          continue;
        }
        if state[s] == WHITE {
          state[s] := GREY;
          stack := stack + [(s, 0)];
        } else if state[s] == GREY {
          cut := cut + [(b, s)];
        }
      } else {
        state[b] := BLACK;
        stack := stack[..|stack| - 1];
      }
    }
    var color := state[..];
    SearchEnds(succs, search);
    CutsInRange(succs, search);
    dag := Retain(succs, cut);
    visited := seq(n, v requires 0 <= v < n => color[v] != WHITE);
    CutMeaning(succs, dag, search);
    forall b: nat | b < n
      ensures visited[b] <==> Reaches(succs, 0, b)
    {
      VisitedExact(succs, dag, search, b);
    }
  }

  lemma CutsInRange(g: Graph, s: Search)
    requires Inv(g, s)
    ensures forall e :: e in s.cut ==> e.0 < |g|
  {
  }

  lemma EmptyGraph(g: Graph)
    requires |g| == 0
    ensures CutsBackEdges(g, g)
  {
    forall b: nat | Reaches(g, 0, b)
      ensures false
    {
      ReachesInRange(g, 0, b);
    }
  }

  lemma CutTargetsGrow(cut: seq<(nat, nat)>, k: nat)
    requires k < |cut|
    ensures forall b: nat :: CutTargets(cut[..k + 1], b) == CutTargets(cut[..k], b) + if b == cut[k].0 then {cut[k].1}
        else {}
  {
    forall b: nat
      ensures CutTargets(cut[..k + 1], b) == CutTargets(cut[..k], b) + if b == cut[k].0 then {cut[k].1} else {}
    {
      assert cut[..k + 1] == cut[..k] + [cut[k]];
    }
  }

  lemma FilteredKept(g: Graph, dag: Graph, cut: seq<(nat, nat)>)
    requires |dag| == |g| && forall b: nat :: b < |g| ==> dag[b] == Without(g[b], CutTargets(cut, b))
    ensures Kept(g, dag, cut)
  {
    forall b: nat, s: nat
      ensures Edge(dag, b, s) <==> Edge(g, b, s) && (b, s) !in cut
    {
      if (b, s) in cut {
        assert s in CutTargets(cut, b);
      }
    }
  }

  lemma CutMeaning(g: Graph, dag: Graph, s: Search)
    requires Complete(g, s) && Kept(g, dag, s.cut)
    requires forall b: nat :: b < |g| ==> dag[b] == Without(g[b], CutTargets(s.cut, b))
    ensures CutsBackEdges(g, dag)
  {
    KeptAcyclic(g, dag, s);
    forall b: nat, t: nat | Edge(g, b, t) && !Edge(dag, b, t)
      ensures Reaches(dag, 0, b) && Reaches(dag, t, b)
    {
      var e := (b, t);
      assert e in s.cut;
      AscendingKept(g, dag, s.color, s.num, s.cut, t, b);
      DiscoveredReached(g, dag, s.color, s.num, s.cut, b);
    }
    forall b: nat
      ensures Reaches(g, 0, b) <==> Reaches(dag, 0, b)
    {
      if b < |g| {
        VisitedExact(g, dag, s, b);
      } else if Reaches(g, 0, b) {
        ReachesInRange(g, 0, b);
      } else if Reaches(dag, 0, b) {
        ReachesInRange(dag, 0, b);
      }
    }
    forall b: nat, t: nat | b < |g| && t >= |g| && t in g[b]
      ensures t in dag[b]
    {
      assert t in CutTargets(s.cut, b) ==> (b, t) in s.cut;
    }
    forall b: nat | b < |g|
      ensures dag[b] == Without(g[b], Gone(g, dag, b))
    {
      SameWithout(g[b], CutTargets(s.cut, b), Gone(g, dag, b));
    }
  }

  lemma SameWithout(s: seq<nat>, a: set<nat>, b: set<nat>)
    requires forall x :: x in s ==> (x in a <==> x in b)
    ensures Without(s, a) == Without(s, b)
  {
  }

  /**
    Reverse postorder of a depth-first search from the entry. The colour GREY exists only in the
    proof: the search itself distinguishes unvisited blocks from the rest.
   */
  method TopoOrder(dag: Graph) returns (order: seq<nat>)
    ensures order == OrderOf(dag)
    ensures ListsReachable(dag, order)
    ensures AcyclicFromEntry(dag) ==> Forward(dag, order)
  {
    hide Inv, Ended, SearchOf, Complete, CutsBackEdges, White, Pending, ListsReachable, Forward;
    var n := |dag|;
    if n == 0 {
      OrderOfMeaning(dag);
      return [];
    }
    var post: seq<nat> := [];
    var state := new nat[n](_ => WHITE);
    var stack: seq<Frame> := [(0, 0)];
    state[0] := GREY;
    ghost var search := Initial(n);
    SearchStarts(dag);
    while |stack| > 0
      invariant state.Length == n
      invariant Inv(dag, search) && Ended(dag, search) == SearchOf(dag)
      invariant search.stack == stack && search.post == post
      invariant state[..] == Marks(search.color)
      decreases White(search.color), Pending(dag, search.stack)
    {
      StepTowardsEnd(dag, search);
      MarksStep(dag, search);
      search := Step(dag, search);
      var (b, i) := stack[|stack| - 1];
      if i < |dag[b]| {
        stack := Advance(stack);
        var s := dag[b][i];
        if s < n && state[s] == WHITE {
          state[s] := GREY;
          stack := stack + [(s, 0)];
        }
      } else {
        post := post + [b];
        stack := stack[..|stack| - 1];
      }
    }
    order := Reversed(post);
    SearchEnds(dag, search);
    PostorderMeaning(dag, search);
  }

  /** The topological search marks visited blocks and tells no more about them. */
  ghost function Marks(color: seq<nat>): seq<nat> {
    seq(|color|, v requires 0 <= v < |color| => if color[v] == WHITE then WHITE else GREY)
  }

  lemma MarksStep(g: Graph, s: Search)
    requires Inv(g, s) && |s.stack| > 0
    ensures
      var (b, i) := s.stack[|s.stack| - 1];
      if i < |g[b]| && g[b][i] < |g| && s.color[g[b][i]] == WHITE
      then Marks(Step(g, s).color) == Marks(s.color)[g[b][i] := GREY]
      else Marks(Step(g, s).color) == Marks(s.color)
  {
  }

  function Reversed(s: seq<nat>): (r: seq<nat>)
    ensures |r| == |s| && forall i :: 0 <= i < |s| ==> r[i] == s[|s| - 1 - i]
  {
    seq(|s|, i requires 0 <= i < |s| => s[|s| - 1 - i])
  }

  lemma PostorderMeaning(g: Graph, s: Search)
    requires Complete(g, s)
    ensures ListsReachable(g, Reversed(s.post))
    ensures AcyclicFromEntry(g) ==> Forward(g, Reversed(s.post))
  {
    var order := Reversed(s.post);
    forall b: nat
      ensures b in order <==> Reaches(g, 0, b)
    {
      if b < |g| {
        FilteredKept(g, Minus(g, s.cut), s.cut);
        VisitedExact(g, Minus(g, s.cut), s, b);
        if s.color[b] == BLACK {
          assert order[|s.post| - 1 - s.fin[b]] == b;
        }
      } else if Reaches(g, 0, b) {
        ReachesInRange(g, 0, b);
      }
    }
    if AcyclicFromEntry(g) {
      NothingCut(g, s.color, s.cut, s.num);
      forall i, j | 0 <= i < |order| && 0 <= j < |order| && Edge(g, order[i], order[j])
        ensures i < j
      {
        assert s.fin[order[j]] < s.fin[order[i]];
      }
    }
  }

  ghost function Minus(g: Graph, cut: seq<(nat, nat)>): Graph {
    seq(|g|, b requires 0 <= b < |g| => Without(g[b], CutTargets(cut, b)))
  }

  // ---- consequences used by the other modules ----

  /** Along a forward order, reaching a block means coming no later. */
  lemma {:induction false} ReachesForward(g: Graph, order: seq<nat>, i: nat, j: nat)
    requires ListsReachable(g, order) && Forward(g, order)
    requires i < |order| && j < |order| && Reaches(g, order[i], order[j])
    ensures i <= j
  {
    var p :| PathFromTo(g, p, order[i], order[j]);
    PathForward(g, order, p, i, j);
  }

  lemma {:induction false} PathForward(g: Graph, order: seq<nat>, p: seq<nat>, i: nat, j: nat)
    requires ListsReachable(g, order) && Forward(g, order)
    requires i < |order| && j < |order| && PathFromTo(g, p, order[i], order[j])
    ensures i + |p| - 1 <= j
    decreases |p|
  {
    if |p| > 1 {
      assert Edge(g, p[0], p[1]);
      EdgeReaches(g, p[0], p[1]);
      assert order[i] in order;
      ReachesTrans(g, 0, order[i], p[1]);
      var k :| 0 <= k < |order| && order[k] == p[1];
      PathSlice(g, p, 1, |p| - 1);
      PathForward(g, order, p[1..|p| - 1 + 1], k, j);
    }
  }
}
