/**
  Every assignment that satisfies the guard equations describes one path: from the entry, along the
  branch conditions, until control ends or would take a cut edge. And the trace read off such an
  assignment for a report picks blocks of that path, from its first to its last.
 */
module GuardPaths {
  import opened Wrappers
  import opened Graphs
  import opened CutDag
  import opened Terms
  import opened Ir
  import opened Encoding
  import opened GuardTerms

  ghost predicate Forked(f: Function) {
    |f.blocks| > 0 && forall b: nat {:trigger ForkedBlock(f, b)} :: b < |f.blocks| ==> ForkedBlock(f, b)
  }

  /** An assignment of the guard equations alone; blocks may be unreachable and values unconstrained. */
  ghost predicate GuardModel(f: Function, dag: Graph, reachable: seq<bool>, m: Model) {
    && Forked(f)
    && CutsBackEdges(Successors(f), dag)
    && |reachable| == |f.blocks|
    && (forall b: nat :: b < |f.blocks| ==> (reachable[b] <==> Reaches(Successors(f), 0, b)))
    && forall t :: t in GuardAsserts(f, dag, reachable, |f.blocks|) ==> Holds(t, m)
  }

  ghost predicate On(m: Model, b: nat) {
    Holds(GuardTerm(b), m)
  }

  /** Where the assignment sends control from b. */
  ghost function Chosen(f: Function, m: Model, b: nat): Option<nat>
    requires b < |f.blocks|
  {
    var succs := f.blocks[b].succs;
    if |succs| == 0 then None
    else if |succs| > 1 && EndsInBranch(f, b) && BranchCond(f, b).Some?
      && !Holds(BranchCond(f, b).value, m) then Some(succs[1])
    else Some(succs[0])
  }

  ghost predicate StepAt(f: Function, m: Model, p: seq<nat>, i: nat)
    requires i + 1 < |p|
  {
    p[i] < |f.blocks| && Chosen(f, m, p[i]) == Some(p[i + 1])
  }

  /** A path of kept edges from the entry, each step the chosen one. */
  ghost predicate ChosenPath(f: Function, dag: Graph, m: Model, p: seq<nat>) {
    && IsPath(dag, p) && p[0] == 0
    && forall i: nat {:trigger StepAt(f, m, p, i)} :: i + 1 < |p| ==> StepAt(f, m, p, i)
  }

  /** Nothing is chosen after b, or the chosen edge was cut. */
  ghost predicate Ends(f: Function, dag: Graph, m: Model, b: nat) {
    b < |f.blocks| && (Chosen(f, m, b).None? || !Edge(dag, b, Chosen(f, m, b).value))
  }

  /** The path followed to its end. */
  ghost predicate GuardPath(f: Function, dag: Graph, m: Model, p: seq<nat>) {
    ChosenPath(f, dag, m, p) && Ends(f, dag, m, p[|p| - 1])
  }

  // ---- kept edges ----

  lemma KeptSuccessor(f: Function, dag: Graph, u: nat, v: nat)
    requires CutsBackEdges(Successors(f), dag) && Edge(dag, u, v)
    ensures u < |f.blocks| && v in f.blocks[u].succs
  {
    var g := Successors(f);
    assert dag[u] == Without(g[u], Gone(g, dag, u));
  }

  /** A kept edge is on exactly when its source is on and chooses it. */
  lemma EdgeChosen(f: Function, dag: Graph, m: Model, u: nat, v: nat)
    requires Forked(f) && CutsBackEdges(Successors(f), dag) && Edge(dag, u, v)
    ensures u < |f.blocks| && EdgeGuard(f, u, v).Some?
    ensures Holds(EdgeGuard(f, u, v).value, m) <==> On(m, u) && Chosen(f, m, u) == Some(v)
  {
    hide CutsBackEdges, EdgeGuard;
    KeptSuccessor(f, dag, u, v);
    assert ForkedBlock(f, u);
    EdgeGuardMeaning(f, u, v, m);
  }

  /** The equation of a block: the entry is on; another block is on when a chosen kept edge leads to it. */
  lemma GuardEquation(f: Function, dag: Graph, reachable: seq<bool>, m: Model, b: nat)
    requires GuardModel(f, dag, reachable, m) && b < |f.blocks|
    ensures On(m, b) <==> b == 0 || (reachable[b] && exists u: nat ::
        Edge(dag, u, b) && On(m, u) && Chosen(f, m, u) == Some(b))
  {
    hide CutsBackEdges, EdgeGuard, Chosen;
    var eqs := GuardAsserts(f, dag, reachable, |f.blocks|);
    assert eqs[b] in eqs && eqs[b] == Eq(GuardTerm(b), GuardRhs(f, dag, reachable, b));
    assert On(m, b) <==> Holds(GuardRhs(f, dag, reachable, b), m);
    SameLength(f, dag);
    forall u: nat | Edge(dag, u, b)
      ensures EdgeGuard(f, u, b).Some?
          && (Holds(EdgeGuard(f, u, b).value, m) <==> On(m, u) && Chosen(f, m, u) == Some(b))
    {
      EdgeChosen(f, dag, m, u, b);
    }
    if b > 0 && reachable[b] {
      GuardRhsMeaning(f, dag, reachable, b, m);
    }
  }

  lemma SameLength(f: Function, dag: Graph)
    requires CutsBackEdges(Successors(f), dag)
    ensures |dag| == |f.blocks| && AcyclicFromEntry(dag)
  {
  }

  // ---- descendants shrink along kept edges ----

  ghost function Below(dag: Graph, b: nat): set<nat> {
    set x: nat | x < |dag| && Reaches(dag, b, x)
  }

  ghost function Above(dag: Graph, b: nat): set<nat> {
    set x: nat | x < |dag| && Reaches(dag, x, b)
  }

  lemma EdgeDescends(dag: Graph, u: nat, v: nat)
    requires AcyclicFromEntry(dag) && Reaches(dag, 0, u) && Edge(dag, u, v)
    ensures Below(dag, v) < Below(dag, u) && Above(dag, u) < Above(dag, v)
  {
    EdgeReaches(dag, u, v);
    ReachesSelf(dag, u);
    ReachesSelf(dag, v);
    forall x | x in Below(dag, v)
      ensures x in Below(dag, u)
    {
      ReachesTrans(dag, u, v, x);
    }
    forall x | x in Above(dag, u)
      ensures x in Above(dag, v)
    {
      ReachesTrans(dag, x, u, v);
    }
    assert u in Below(dag, u) && u !in Below(dag, v);
    assert v in Above(dag, v) && v !in Above(dag, u);
  }

  lemma PathReaches(dag: Graph, p: seq<nat>, i: nat)
    requires IsPath(dag, p) && p[0] == 0 && i < |p|
    ensures Reaches(dag, 0, p[i]) && p[i] < |dag|
  {
    PathSlice(dag, p, 0, i);
    ReachesInRange(dag, 0, p[i]);
  }

  // ---- the path exists, is unique, and is exactly what is on ----

  lemma {:induction false} Extend(f: Function, dag: Graph, m: Model, p: seq<nat>) returns (q: seq<nat>)
    requires Forked(f) && CutsBackEdges(Successors(f), dag) && ChosenPath(f, dag, m, p)
    ensures GuardPath(f, dag, m, q)
    decreases Below(dag, p[|p| - 1])
  {
    hide CutsBackEdges, Chosen;
    SameLength(f, dag);
    var b := p[|p| - 1];
    PathReaches(dag, p, |p| - 1);
    if Ends(f, dag, m, b) {
      q := p;
    } else {
      var s := Chosen(f, m, b).value;
      EdgeDescends(dag, b, s);
      var p' := p + [s];
      forall i, j | 0 <= i < j < |p'| && j == i + 1
        ensures Edge(dag, p'[i], p'[j])
      {
        if j < |p| {
          assert Edge(dag, p[i], p[j]);
        }
      }
      forall i: nat | i + 1 < |p'|
        ensures StepAt(f, m, p', i)
      {
        if i + 1 < |p| {
          assert StepAt(f, m, p, i);
        }
      }
      q := Extend(f, dag, m, p');
    }
  }

  lemma {:induction false} PathOn(f: Function, dag: Graph, reachable: seq<bool>, m: Model, p: seq<nat>, i: nat)
    requires GuardModel(f, dag, reachable, m) && ChosenPath(f, dag, m, p) && i < |p|
    ensures p[i] < |f.blocks| && On(m, p[i])
  {
    hide CutsBackEdges, Chosen, GuardAsserts;
    SameLength(f, dag);
    PathReaches(dag, p, i);
    GuardEquation(f, dag, reachable, m, p[i]);
    if i > 0 {
      PathOn(f, dag, reachable, m, p, i - 1);
      assert StepAt(f, m, p, i - 1);
      assert Edge(dag, p[i - 1], p[i - 1 + 1]);
      StaysReachable(f, dag, p[i]);
    }
  }

  lemma StaysReachable(f: Function, dag: Graph, b: nat)
    requires CutsBackEdges(Successors(f), dag)
    ensures Reaches(dag, 0, b) <==> Reaches(Successors(f), 0, b)
  {
  }

  lemma {:induction false} OnPath(f: Function, dag: Graph, reachable: seq<bool>, m: Model, p: seq<nat>, b: nat)
    requires GuardModel(f, dag, reachable, m) && GuardPath(f, dag, m, p) && b < |f.blocks| && On(m, b)
    ensures b in p
    decreases Above(dag, b)
  {
    hide CutsBackEdges, Chosen, GuardAsserts;
    SameLength(f, dag);
    GuardEquation(f, dag, reachable, m, b);
    if b == 0 {
      assert p[0] == 0;
    } else {
      var u: nat :| Edge(dag, u, b) && On(m, u) && Chosen(f, m, u) == Some(b);
      OnReachable(f, dag, reachable, m, u);
      EdgeDescends(dag, u, b);
      OnPath(f, dag, reachable, m, p, u);
      var i :| 0 <= i < |p| && p[i] == u;
      if i + 1 < |p| {
        assert StepAt(f, m, p, i);
      }
    }
  }

  lemma OnReachable(f: Function, dag: Graph, reachable: seq<bool>, m: Model, b: nat)
    requires GuardModel(f, dag, reachable, m) && b < |f.blocks| && On(m, b)
    ensures Reaches(dag, 0, b)
  {
    hide Chosen, GuardAsserts;
    GuardEquation(f, dag, reachable, m, b);
    ReachesSelf(dag, 0);
  }

  /**
    Any assignment satisfying the guard equations makes true exactly the blocks of one path: the one
    that starts at the entry and takes the chosen edge until there is none or it was cut. Cycles of
    unreachable blocks are off.
   */
  lemma GuardsFollowOnePath(f: Function, dag: Graph, reachable: seq<bool>, m: Model) returns (p: seq<nat>)
    requires GuardModel(f, dag, reachable, m)
    ensures GuardPath(f, dag, m, p)
    ensures forall b: nat :: b < |f.blocks| ==> (On(m, b) <==> b in p)
  {
    hide Chosen, GuardAsserts;
    SameLength(f, dag);
    assert ChosenPath(f, dag, m, [0]);
    p := Extend(f, dag, m, [0]);
    forall b: nat | b < |f.blocks|
      ensures On(m, b) <==> b in p
    {
      if On(m, b) {
        OnPath(f, dag, reachable, m, p, b);
      }
      if i :| 0 <= i < |p| && p[i] == b {
        PathOn(f, dag, reachable, m, p, i);
      }
    }
  }

  lemma {:induction false} SamePrefix(f: Function, dag: Graph, m: Model, p: seq<nat>, q: seq<nat>, i: nat)
    requires GuardPath(f, dag, m, p) && GuardPath(f, dag, m, q) && i < |p|
    ensures i < |q| && p[i] == q[i]
  {
    hide Chosen;
    if i > 0 {
      SamePrefix(f, dag, m, p, q, i - 1);
      assert StepAt(f, m, p, i - 1);
      assert Edge(dag, p[i - 1], p[i - 1 + 1]);
      if i < |q| {
        assert StepAt(f, m, q, i - 1);
      }
    }
  }

  lemma GuardPathUnique(f: Function, dag: Graph, m: Model, p: seq<nat>, q: seq<nat>)
    requires GuardPath(f, dag, m, p) && GuardPath(f, dag, m, q)
    ensures p == q
  {
    SamePrefix(f, dag, m, p, q, |p| - 1);
    SamePrefix(f, dag, m, q, p, |q| - 1);
    forall i | 0 <= i < |p|
      ensures p[i] == q[i]
    {
      SamePrefix(f, dag, m, p, q, i);
    }
  }

  // ---- the trace read off an assignment ----

  /** Truth values of guards by block, as parsed from a model; a missing one counts as false. */
  type GuardValues = map<nat, bool>

  predicate IsOn(guards: GuardValues, b: nat) {
    b in guards && guards[b]
  }

  /** The first listed successor whose guard is true. */
  function FirstOn(succs: seq<nat>, guards: GuardValues): (s: Option<nat>)
    ensures s.Some? ==> s.value in succs && IsOn(guards, s.value)
    ensures s.None? ==> forall x :: x in succs ==> !IsOn(guards, x)
    ensures |succs| > 0 && IsOn(guards, succs[0]) ==> s == Some(succs[0])
  {
    if succs == [] then None
    else if IsOn(guards, succs[0]) then Some(succs[0])
    else FirstOn(succs[1..], guards)
  }

  ghost predicate TraceStep(dag: Graph, guards: GuardValues, path: seq<nat>, i: nat)
    requires i + 1 < |path|
  {
    path[i] < |dag| && FirstOn(dag[path[i]], guards) == Some(path[i + 1])
  }

  function NextOn(dag: Graph, guards: GuardValues, b: nat): Option<nat> {
    if b < |dag| then FirstOn(dag[b], guards) else None
  }

  /** From a first successor that is on to the next, until none is or the walk is longer than the function. */
  ghost predicate Trace(f: Function, dag: Graph, guards: GuardValues, path: seq<nat>) {
    && |path| > 0 && path[0] == 0
    && (forall i: nat {:trigger TraceStep(dag, guards, path, i)} :: i + 1 < |path| ==> TraceStep(dag, guards, path, i))
    && match NextOn(dag, guards, path[|path| - 1])
       case None => true
       case Some(next) => next >= |f.blocks| || |path| > |f.blocks|
  }

  method ViolatingPath(f: Function, dag: Graph, guards: GuardValues) returns (path: seq<nat>)
    ensures |f.blocks| == 0 || !IsOn(guards, 0) ==> path == []
    ensures |f.blocks| > 0 && IsOn(guards, 0) ==> Trace(f, dag, guards, path)
  {
    if |f.blocks| == 0 || !IsOn(guards, 0) {
      return [];
    }
    path := [0];
    var cur := 0;
    while NextOn(dag, guards, cur).Some?
      invariant |path| > 0 && path[0] == 0 && path[|path| - 1] == cur && |path| <= |f.blocks| + 1
      invariant forall i: nat {:trigger TraceStep(dag, guards, path, i)} :: i + 1 < |path| ==>
          TraceStep(dag, guards, path, i)
      decreases |f.blocks| + 1 - |path|
    {
      var next := NextOn(dag, guards, cur).value;
      if next >= |f.blocks| || |path| > |f.blocks| {
        break;
      }
      ghost var before := path;
      path := path + [next];
      forall i: nat | i + 1 < |path|
        ensures TraceStep(dag, guards, path, i)
      {
        if i + 1 < |before| {
          assert TraceStep(dag, guards, before, i);
        }
      }
      cur := next;
    }
  }

  /** Guard values as the assignment gives them, for the blocks there are. */
  ghost predicate ReadOff(f: Function, m: Model, guards: GuardValues) {
    && (forall b :: b in guards ==> b < |f.blocks|)
    && forall b: nat :: b < |f.blocks| ==> (IsOn(guards, b) <==> On(m, b))
  }

  /** path lists the elements of p at increasing positions, first and last included. */
  ghost predicate Picks(p: seq<nat>, path: seq<nat>, at: seq<nat>) {
    && |at| == |path| > 0 && |p| > 0
    && (forall i :: 0 <= i < |at| ==> at[i] < |p| && path[i] == p[at[i]])
    && (forall i, j :: 0 <= i < j < |at| ==> at[i] < at[j])
    && at[0] == 0 && at[|at| - 1] == |p| - 1
  }

  /** One assignment of all guards together with the path and the trace read from it. */
  ghost predicate Traced(f: Function, dag: Graph, reachable: seq<bool>, m: Model, guards: GuardValues, p: seq<nat>,
                         path: seq<nat>) {
    && GuardModel(f, dag, reachable, m) && GuardPath(f, dag, m, p)
    && ReadOff(f, m, guards) && Trace(f, dag, guards, path)
  }

  /** A kept edge between blocks of the path goes forward along it. */
  lemma ForwardAlong(dag: Graph, p: seq<nat>, i: nat, j: nat)
    requires AcyclicFromEntry(dag) && IsPath(dag, p) && p[0] == 0 && i < |p| && j < |p| && Edge(dag, p[i], p[j])
    ensures i < j
  {
    PathReaches(dag, p, i);
    if j <= i {
      PathSlice(dag, p, j, i);
    }
  }

  /** The next block of the trace is a later block of the path. */
  lemma NextLater(f: Function, dag: Graph, reachable: seq<bool>, m: Model, guards: GuardValues, p: seq<nat>, i: nat)
      returns (j: nat)
    requires GuardModel(f, dag, reachable, m) && GuardPath(f, dag, m, p) && ReadOff(f, m, guards)
    requires i < |p| && p[i] < |dag| && FirstOn(dag[p[i]], guards).Some?
    ensures i < j < |p| && p[j] == FirstOn(dag[p[i]], guards).value
  {
    hide CutsBackEdges, Chosen, GuardAsserts;
    SameLength(f, dag);
    var s := FirstOn(dag[p[i]], guards).value;
    OnPath(f, dag, reachable, m, p, s);
    j :| 0 <= j < |p| && p[j] == s;
    ForwardAlong(dag, p, i, j);
  }

  /** A true successor remains as long as the path goes on. */
  lemma NotLast(f: Function, dag: Graph, reachable: seq<bool>, m: Model, guards: GuardValues, p: seq<nat>, i: nat)
    requires GuardModel(f, dag, reachable, m) && GuardPath(f, dag, m, p) && ReadOff(f, m, guards) && i + 1 < |p|
    ensures p[i] < |dag| && p[i + 1] in dag[p[i]] && IsOn(guards, p[i + 1])
  {
    hide CutsBackEdges, Chosen, GuardAsserts;
    SameLength(f, dag);
    assert Edge(dag, p[i], p[i + 1]);
    PathOn(f, dag, reachable, m, p, i + 1);
  }

  lemma {:induction false} Positions(f: Function, dag: Graph, reachable: seq<bool>, m: Model, guards: GuardValues,
                                     p: seq<nat>, path: seq<nat>, k: nat) returns (at: seq<nat>)
    requires Traced(f, dag, reachable, m, guards, p, path) && 0 < k <= |path|
    ensures |at| == k && at[0] == 0
    ensures forall i :: 0 <= i < k ==> at[i] < |p| && path[i] == p[at[i]]
    ensures forall i, j :: 0 <= i < j < k ==> at[i] < at[j]
  {
    hide GuardModel, GuardPath, ReadOff;
    StartsAtEntry(f, dag, m, p);
    if k == 1 {
      at := [0];
    } else {
      var before := Positions(f, dag, reachable, m, guards, p, path, k - 1);
      assert TraceStep(dag, guards, path, k - 2);
      var j := NextLater(f, dag, reachable, m, guards, p, before[k - 2]);
      at := before + [j];
    }
  }

  lemma StartsAtEntry(f: Function, dag: Graph, m: Model, p: seq<nat>)
    requires GuardPath(f, dag, m, p)
    ensures |p| > 0 && p[0] == 0
  {
  }

  lemma {:induction false} GrowsAtLeast(at: seq<nat>, i: nat)
    requires forall j, k :: 0 <= j < k < |at| ==> at[j] < at[k]
    requires i < |at|
    ensures i <= at[i]
  {
    if i > 0 {
      GrowsAtLeast(at, i - 1);
    }
  }

  lemma PathShort(dag: Graph, p: seq<nat>)
    requires AcyclicFromEntry(dag) && IsPath(dag, p) && p[0] == 0
    ensures |p| <= |dag|
  {
    PathLeaves(dag, p, |p| - 1);
    CountBelow(dag, Below(dag, p[|p| - 1]));
    CountBelow(dag, Below(dag, p[0]));
    PathReaches(dag, p, |p| - 1);
    ReachesSelf(dag, p[|p| - 1]);
    assert p[|p| - 1] in Below(dag, p[|p| - 1]);
  }

  lemma {:induction false} PathLeaves(dag: Graph, p: seq<nat>, i: nat)
    requires AcyclicFromEntry(dag) && IsPath(dag, p) && p[0] == 0 && i < |p|
    ensures |Below(dag, p[i])| + i <= |Below(dag, p[0])|
  {
    if i > 0 {
      PathLeaves(dag, p, i - 1);
      PathReaches(dag, p, i - 1);
      assert Edge(dag, p[i - 1], p[i - 1 + 1]);
      EdgeDescends(dag, p[i - 1], p[i]);
      FewerElements(Below(dag, p[i]), Below(dag, p[i - 1]));
    }
  }

  lemma CountBelow(dag: Graph, s: set<nat>)
    requires forall x :: x in s ==> x < |dag|
    ensures |s| <= |dag|
  {
    SubsetCount(s, Ids(|dag|));
  }

  /**
    The trace lists blocks of the one path the guards describe, in its order, and has its first and
    last block.
   */
  lemma TracePicksPath(f: Function, dag: Graph, reachable: seq<bool>, m: Model, guards: GuardValues, p: seq<nat>,
                       path: seq<nat>) returns (at: seq<nat>)
    requires Traced(f, dag, reachable, m, guards, p, path)
    ensures Picks(p, path, at)
  {
    hide CutsBackEdges, Chosen, GuardAsserts;
    at := Positions(f, dag, reachable, m, guards, p, path, |path|);
    var last := |path| - 1;
    SameLength(f, dag);
    PathShort(dag, p);
    GrowsAtLeast(at, last);
    PathReaches(dag, p, at[last]);
    if at[last] + 1 < |p| {
      NotLast(f, dag, reachable, m, guards, p, at[last]);
    }
  }

  /** At block i of the path the first kept successor is on although control went to another one. */
  ghost predicate Shortcut(dag: Graph, guards: GuardValues, p: seq<nat>, i: nat) {
    && i + 1 < |p| && p[i] < |dag| && |dag[p[i]]| > 0
    && dag[p[i]][0] != p[i + 1] && IsOn(guards, dag[p[i]][0])
  }

  /** Of at most two kept successors, the one taken comes first or the other is met first. */
  lemma FirstOnTaken(f: Function, dag: Graph, reachable: seq<bool>, m: Model, guards: GuardValues, p: seq<nat>, i: nat)
    requires GuardModel(f, dag, reachable, m) && GuardPath(f, dag, m, p) && ReadOff(f, m, guards) && i + 1 < |p|
    ensures p[i] < |dag|
    ensures FirstOn(dag[p[i]], guards) == Some(p[i + 1]) <==> !Shortcut(dag, guards, p, i)
  {
    hide Chosen, GuardAsserts;
    NotLast(f, dag, reachable, m, guards, p, i);
    var b := p[i];
    assert ForkedBlock(f, b);
    assert dag[b] == Without(Successors(f)[b], Gone(Successors(f), dag, b));
    WithoutShort(f.blocks[b].succs, Gone(Successors(f), dag, b));
    var rest := dag[b][1..];
    if dag[b][0] != p[i + 1] && !IsOn(guards, dag[b][0]) {
      assert p[i + 1] in rest && |rest| == 1;
      assert rest[0] == p[i + 1];
      assert FirstOn(dag[b], guards) == FirstOn(rest, guards);
    }
  }

  lemma WithoutShort(s: seq<nat>, bad: set<nat>)
    ensures |Without(s, bad)| <= |s|
  {
  }

  /** Exactly when no block of the path offers a shortcut is the trace the whole path. */
  lemma TraceIsPath(f: Function, dag: Graph, reachable: seq<bool>, m: Model, guards: GuardValues, p: seq<nat>,
                    path: seq<nat>)
    requires Traced(f, dag, reachable, m, guards, p, path)
    ensures path == p <==> forall i: nat :: !Shortcut(dag, guards, p, i)
  {
    hide GuardModel, GuardPath, ReadOff;
    var at := TracePicksPath(f, dag, reachable, m, guards, p, path);
    if path == p {
      forall i: nat
        ensures !Shortcut(dag, guards, p, i)
      {
        if i + 1 < |p| {
          assert TraceStep(dag, guards, path, i);
          FirstOnTaken(f, dag, reachable, m, guards, p, i);
        }
      }
    }
    if forall i: nat :: !Shortcut(dag, guards, p, i) {
      TraceStays(f, dag, reachable, m, guards, p, path, at, |path| - 1);
      forall i | 0 <= i < |path|
        ensures path[i] == p[i]
      {
        TraceStays(f, dag, reachable, m, guards, p, path, at, i);
      }
    }
  }

  lemma {:induction false} TraceStays(f: Function, dag: Graph, reachable: seq<bool>, m: Model, guards: GuardValues,
                                      p: seq<nat>, path: seq<nat>, at: seq<nat>, i: nat)
    requires Traced(f, dag, reachable, m, guards, p, path) && Picks(p, path, at) && i < |path|
    requires forall i: nat :: !Shortcut(dag, guards, p, i)
    ensures at[i] == i
  {
    hide GuardModel, GuardPath, ReadOff;
    if i > 0 {
      TraceStays(f, dag, reachable, m, guards, p, path, at, i - 1);
      assert TraceStep(dag, guards, path, i - 1);
      assert i < |p|;
      FirstOnTaken(f, dag, reachable, m, guards, p, i - 1);
      SameSpot(f, dag, reachable, m, p, at[i], i);
    }
  }

  lemma SameSpot(f: Function, dag: Graph, reachable: seq<bool>, m: Model, p: seq<nat>, i: nat, j: nat)
    requires GuardModel(f, dag, reachable, m) && GuardPath(f, dag, m, p) && i < |p| && j < |p| && p[i] == p[j]
    ensures i == j
  {
    hide Chosen;
    SameLength(f, dag);
    if i < j {
      PathTwice(dag, p, i, j);
    } else if j < i {
      PathTwice(dag, p, j, i);
    }
  }

  lemma PathTwice(dag: Graph, p: seq<nat>, i: nat, j: nat)
    requires AcyclicFromEntry(dag) && IsPath(dag, p) && p[0] == 0 && i < j < |p|
    ensures p[i] != p[j]
  {
    PathReaches(dag, p, i);
    assert Edge(dag, p[i], p[i + 1]);
    PathSlice(dag, p, i + 1, j);
  }

  // ---- the trace can be shorter than the path ----

  /** 0: branch to 2, else 1; 1: jump to 2; 2: return. */
  const DETOUR := Function([], [], [], [ValueInfo(BoolTy, OpaqueKind)],
                           [Block([Branch(0)], [], [2, 1]), Block([Jump], [0], [2]), Block([Return([])], [0, 1], [])])

  const DETOUR_DAG: Graph := [[2, 1], [2], []]

  /** The branch goes to block 1, and every block is visited. */
  const DETOUR_MODEL: Model := map[Guard(0) := BoolVal(true), Guard(1) := BoolVal(true), Guard(2) := BoolVal(true),
    Register(0) := BoolVal(false)]

  lemma IncreasingAcyclic(g: Graph, p: seq<nat>, u: nat, v: nat)
    requires forall a: nat, b: nat :: Edge(g, a, b) ==> a < b
    requires PathFromTo(g, p, u, v)
    ensures u <= v
    decreases |p|
  {
    if |p| > 1 {
      PathSlice(g, p, 1, |p| - 1);
      assert Edge(g, p[0], p[0 + 1]);
      IncreasingAcyclic(g, p[1..|p| - 1 + 1], p[1], v);
    }
  }

  lemma DetourCut()
    ensures Successors(DETOUR) == DETOUR_DAG && CutsBackEdges(DETOUR_DAG, DETOUR_DAG)
    ensures forall b: nat :: b < 3 ==> Reaches(DETOUR_DAG, 0, b)
  {
    var g := DETOUR_DAG;
    forall u: nat, v: nat | Reaches(g, 0, u) && Edge(g, u, v)
      ensures !Reaches(g, v, u)
    {
      if p :| PathFromTo(g, p, v, u) {
        IncreasingAcyclic(g, p, v, u);
      }
    }
    forall b: nat | b < |g|
      ensures g[b] == Without(g[b], Gone(g, g, b))
    {
      WithoutNothing(g[b], Gone(g, g, b));
    }
    ReachesSelf(g, 0);
    EdgeReaches(g, 0, 1);
    EdgeReaches(g, 0, 2);
  }

  lemma DetourEdges()
    ensures BranchCond(DETOUR, 0) == Some(Var(Register(0), BoolSort)) && BranchCond(DETOUR, 1) == None
    ensures EdgeGuard(DETOUR, 0, 2) == Some(And([GuardTerm(0), Var(Register(0), BoolSort)]))
    ensures EdgeGuard(DETOUR, 0, 1) == Some(And([GuardTerm(0), Not(Var(Register(0), BoolSort))]))
    ensures EdgeGuard(DETOUR, 1, 2) == Some(GuardTerm(1))
  {
    assert DETOUR.blocks[0].succs == [2, 1] && DETOUR.blocks[1].succs == [2];
    assert [2, 1][1..] == [1];
  }

  lemma DetourEquations(b: nat)
    requires b < 3
    ensures Holds(Eq(GuardTerm(b), GuardRhs(DETOUR, DETOUR_DAG, [true, true, true], b)), DETOUR_MODEL)
  {
    assert Holds(GuardTerm(b), DETOUR_MODEL);
    assert Holds(GuardRhs(DETOUR, DETOUR_DAG, [true, true, true], b), DETOUR_MODEL) by {
      if b > 0 {
        DetourEquation(b);
      }
    }
  }

  lemma DetourEdgeOn(b: nat)
    requires b == 1 || b == 2
    ensures var u := if b == 1 then 0 else 1;
            && Edge(DETOUR_DAG, u, b) && EdgeGuard(DETOUR, u, b).Some?
            && Holds(EdgeGuard(DETOUR, u, b).value, DETOUR_MODEL)
  {
    hide EdgeGuard;
    DetourEdges();
    PairMeaning(GuardTerm(0), Not(Var(Register(0), BoolSort)), DETOUR_MODEL);
  }

  lemma DetourEdgesGuarded(b: nat)
    requires b == 1 || b == 2
    ensures forall u: nat :: Edge(DETOUR_DAG, u, b) ==> EdgeGuard(DETOUR, u, b).Some?
  {
    hide EdgeGuard;
    DetourEdges();
  }

  lemma DetourEquation(b: nat)
    requires b == 1 || b == 2
    ensures Holds(GuardRhs(DETOUR, DETOUR_DAG, [true, true, true], b), DETOUR_MODEL)
  {
    hide EdgeGuard, GuardRhs, DETOUR_MODEL, Holds;
    DetourEdgesGuarded(b);
    DetourEdgeOn(b);
    GuardRhsMeaning(DETOUR, DETOUR_DAG, [true, true, true], b, DETOUR_MODEL);
  }

  lemma DetourGuards()
    ensures GuardModel(DETOUR, DETOUR_DAG, [true, true, true], DETOUR_MODEL)
  {
    hide GuardRhs, CutsBackEdges;
    DetourCut();
    forall t | t in GuardAsserts(DETOUR, DETOUR_DAG, [true, true, true], 3)
      ensures Holds(t, DETOUR_MODEL)
    {
      var b :| 0 <= b < 3 && t == GuardAsserts(DETOUR, DETOUR_DAG, [true, true, true], 3)[b];
      DetourEquations(b);
    }
    forall b: nat | b < 3
      ensures ForkedBlock(DETOUR, b)
    {
    }
  }

  lemma DetourPath()
    ensures GuardPath(DETOUR, DETOUR_DAG, DETOUR_MODEL, [0, 1, 2])
  {
    DetourEdges();
    assert StepAt(DETOUR, DETOUR_MODEL, [0, 1, 2], 0) && StepAt(DETOUR, DETOUR_MODEL, [0, 1, 2], 1);
  }

  lemma DetourTrace(guards: GuardValues)
    requires guards == map[0 := true, 1 := true, 2 := true]
    ensures Trace(DETOUR, DETOUR_DAG, guards, [0, 2]) && ReadOff(DETOUR, DETOUR_MODEL, guards)
  {
    assert TraceStep(DETOUR_DAG, guards, [0, 2], 0);
    assert NextOn(DETOUR_DAG, guards, 2) == None;
    forall b: nat | b < 3
      ensures IsOn(guards, b) && On(DETOUR_MODEL, b)
    {
    }
  }

  /** The guards describe the path through block 1, the trace goes straight from 0 to 2. */
  lemma TraceCanSkip()
    ensures var guards := map[0 := true, 1 := true, 2 := true];
            && Traced(DETOUR, DETOUR_DAG, [true, true, true], DETOUR_MODEL, guards, [0, 1, 2], [0, 2])
            && Shortcut(DETOUR_DAG, guards, [0, 1, 2], 0)
  {
    hide GuardModel, GuardPath, Trace, ReadOff;
    DetourGuards();
    DetourPath();
    DetourTrace(map[0 := true, 1 := true, 2 := true]);
  }
}
