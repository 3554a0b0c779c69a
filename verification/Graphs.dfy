/**
  Control-flow graphs as the analyzer stores them: one successor list per block, holding raw
  block ids that need not be in range. Everything about reachability is stated with explicit
  paths, so that the algorithms of the other modules have a specification of their own.
 */
module Graphs {
  type Graph = seq<seq<nat>>

  predicate Edge(g: Graph, u: nat, v: nat) {
    u < |g| && v < |g| && v in g[u]
  }

  ghost predicate IsPath(g: Graph, p: seq<nat>) {
    && |p| > 0
    && p[0] < |g|
    && forall i, j :: 0 <= i < j < |p| && j == i + 1 ==> Edge(g, p[i], p[j])
  }

  ghost predicate PathFromTo(g: Graph, p: seq<nat>, u: nat, v: nat) {
    IsPath(g, p) && p[0] == u && p[|p| - 1] == v
  }

  ghost predicate Reaches(g: Graph, u: nat, v: nat) {
    exists p :: PathFromTo(g, p, u, v)
  }

  /** No edge that can be reached from the entry lies on a cycle. */
  ghost predicate AcyclicFromEntry(g: Graph) {
    forall u: nat, v: nat :: Reaches(g, 0, u) && Edge(g, u, v) ==> !Reaches(g, v, u)
  }

  lemma ReachesSelf(g: Graph, u: nat)
    requires u < |g|
    ensures Reaches(g, u, u)
  {
    assert PathFromTo(g, [u], u, u);
  }

  lemma PathInRange(g: Graph, p: seq<nat>, i: nat)
    requires IsPath(g, p) && i < |p|
    ensures p[i] < |g|
  {
    if i > 0 {
      assert Edge(g, p[i - 1], p[i - 1 + 1]);
    }
  }

  lemma PathSlice(g: Graph, p: seq<nat>, i: nat, j: nat)
    requires IsPath(g, p) && i <= j < |p|
    ensures PathFromTo(g, p[i..j + 1], p[i], p[j])
    ensures Reaches(g, p[i], p[j])
  {
    PathInRange(g, p, i);
    var q := p[i..j + 1];
    forall k, l | 0 <= k < l < |q| && l == k + 1
      ensures Edge(g, q[k], q[l])
    {
      assert Edge(g, p[i + k], p[i + k + 1]);
    }
    assert PathFromTo(g, q, p[i], p[j]);
  }

  lemma PathJoin(g: Graph, p: seq<nat>, q: seq<nat>, u: nat, v: nat, w: nat)
    requires PathFromTo(g, p, u, v) && PathFromTo(g, q, v, w)
    ensures PathFromTo(g, p + q[1..], u, w)
  {
    var r := p + q[1..];
    forall k, l | 0 <= k < l < |r| && l == k + 1
      ensures Edge(g, r[k], r[l])
    {
      if k < |p| - 1 {
        assert Edge(g, p[k], p[k + 1]);
      } else {
        assert Edge(g, q[k + 1 - |p|], q[k + 1 - |p| + 1]);
      }
    }
  }

  lemma ReachesTrans(g: Graph, u: nat, v: nat, w: nat)
    requires Reaches(g, u, v) && Reaches(g, v, w)
    ensures Reaches(g, u, w)
  {
    var p :| PathFromTo(g, p, u, v);
    var q :| PathFromTo(g, q, v, w);
    PathJoin(g, p, q, u, v, w);
  }

  lemma EdgeReaches(g: Graph, u: nat, v: nat)
    requires Edge(g, u, v)
    ensures Reaches(g, u, v)
  {
    assert PathFromTo(g, [u, v], u, v);
  }

  lemma ReachesInRange(g: Graph, u: nat, v: nat)
    requires Reaches(g, u, v)
    ensures u < |g| && v < |g|
  {
    var p :| PathFromTo(g, p, u, v);
    PathInRange(g, p, |p| - 1);
  }

  /** Reaching w from u in at least one step goes through some predecessor of w. */
  lemma ReachesLast(g: Graph, u: nat, w: nat) returns (v: nat)
    requires Reaches(g, u, w) && u != w
    ensures Reaches(g, u, v) && Edge(g, v, w)
  {
    var p :| PathFromTo(g, p, u, w);
    v := p[|p| - 2];
    PathSlice(g, p, 0, |p| - 2);
    assert Edge(g, p[|p| - 2], p[|p| - 2 + 1]);
  }

  /** A set that holds u and is closed under edges holds everything u reaches. */
  lemma ClosedHoldsReachable(g: Graph, u: nat, v: nat, s: set<nat>)
    requires Reaches(g, u, v) && u in s
    requires forall a: nat, b: nat :: a in s && Edge(g, a, b) ==> b in s
    ensures v in s
  {
    var p :| PathFromTo(g, p, u, v);
    ClosedHoldsPath(g, p, |p| - 1, s);
  }

  lemma {:induction false} ClosedHoldsPath(g: Graph, p: seq<nat>, i: nat, s: set<nat>)
    requires IsPath(g, p) && i < |p| && p[0] in s
    requires forall a: nat, b: nat :: a in s && Edge(g, a, b) ==> b in s
    ensures p[i] in s
  {
    if i > 0 {
      ClosedHoldsPath(g, p, i - 1, s);
      assert Edge(g, p[i - 1], p[i - 1 + 1]);
    }
  }

  /** Removing every occurrence of the ids in `bad`, order kept (Rust's `retain`). */
  function Without(s: seq<nat>, bad: set<nat>): (r: seq<nat>)
    ensures forall x :: x in r <==> x in s && x !in bad
  {
    if s == [] then []
    else if s[0] in bad then Without(s[1..], bad)
    else [s[0]] + Without(s[1..], bad)
  }

  lemma WithoutTwice(s: seq<nat>, a: set<nat>, b: set<nat>)
    ensures Without(Without(s, a), b) == Without(s, a + b)
  {
    if s != [] && s[0] !in a {
      assert ([s[0]] + Without(s[1..], a))[1..] == Without(s[1..], a);
    }
  }

  lemma WithoutNothing(s: seq<nat>, bad: set<nat>)
    requires forall x :: x in s ==> x !in bad
    ensures Without(s, bad) == s
  {
  }

  // ---- counting ----

  lemma FewerElements(a: set<nat>, b: set<nat>)
    requires a < b
    ensures |a| < |b|
  {
    var x :| x in b && x !in a;
    SubsetCount(a, b - {x});
  }

  lemma {:induction false} SubsetCount(a: set<nat>, b: set<nat>)
    requires a <= b
    ensures |a| <= |b|
  {
    if a != {} {
      var x :| x in a;
      SubsetCount(a - {x}, b - {x});
    }
  }

  /** The ids below n. */
  function Ids(n: nat): (s: set<nat>)
    ensures |s| == n && forall x: nat :: x in s <==> x < n
  {
    if n == 0 then {} else Ids(n - 1) + {n - 1}
  }
}
