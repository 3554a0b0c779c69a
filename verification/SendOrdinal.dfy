/**
  The fill count of a buffered channel: a term that adds up, over the blocks that can precede a
  send, how many sends on the location each visited one performs. It equals the number of sends on
  the path the guards describe, and never wraps.
 */
module SendOrdinal {
  import opened Wrappers
  import opened MachineInts
  import opened Graphs
  import opened CutDag
  import opened Dominators
  import opened Terms
  import opened Ir
  import opened Encoding
  import opened GuardPaths
  import opened Locations

  // ---- blocks that can precede a block ----

  ghost predicate StrictAncestor(dag: Graph, b: nat, block: nat) {
    b != block && Reaches(dag, b, block)
  }

  predicate Ascending(s: seq<nat>) {
    forall i, j :: 0 <= i < j < |s| ==> s[i] < s[j]
  }

  /** Marked blocks reach the target, and a predecessor of a mark that is no longer waiting is marked. */
  ghost predicate Backwards(dag: Graph, block: nat, seen: seq<bool>, queue: seq<nat>) {
    && |seen| == |dag| && block < |dag| && seen[block]
    && (forall x: nat :: x < |dag| && seen[x] ==> Reaches(dag, x, block))
    && (forall x :: x in queue ==> x < |dag| && seen[x])
    && (forall x: nat, y: nat :: Edge(dag, x, y) && seen[y] && y !in queue ==> seen[x])
  }

  function Marked(seen: seq<bool>): set<nat> {
    set x | x in Ids(|seen|) && seen[x]
  }

  function Unmarked(seen: seq<bool>): set<nat> {
    Ids(|seen|) - Marked(seen)
  }

  lemma {:induction false} ReachMarked(dag: Graph, block: nat, seen: seq<bool>, p: seq<nat>)
    requires Backwards(dag, block, seen, []) && IsPath(dag, p) && p[|p| - 1] == block
    ensures p[0] < |dag| && seen[p[0]]
    decreases |p|
  {
    if |p| > 1 {
      PathSlice(dag, p, 1, |p| - 1);
      assert Edge(dag, p[0], p[0 + 1]);
      ReachMarked(dag, block, seen, p[1..|p| - 1 + 1]);
    }
  }

  /** Marks the unmarked predecessors of a block and puts them in the queue. */
  method MarkPreds(dag: Graph, block: nat, preds: seq<nat>, b: nat, before: seq<bool>, rest: seq<nat>)
      returns (seen: seq<bool>, queue: seq<nat>)
    requires |before| == |dag| && block < |dag| && before[block] && b < |dag| && Reaches(dag, b, block)
    requires forall x :: x in preds <==> Edge(dag, x, b)
    requires forall x: nat :: x < |dag| && before[x] ==> Reaches(dag, x, block)
    requires forall x :: x in rest ==> x < |dag| && before[x]
    ensures |seen| == |dag| && seen[block]
    ensures forall x: nat :: x < |dag| && seen[x] ==> Reaches(dag, x, block)
    ensures forall x :: x in queue ==> x < |dag| && seen[x]
    ensures forall x: nat :: x < |dag| && before[x] ==> seen[x]
    ensures forall x: nat :: x < |dag| && seen[x] && !before[x] ==> x in queue
    ensures forall x :: x in rest ==> x in queue
    ensures forall x :: x in preds ==> x < |dag| && seen[x]
    ensures if seen == before then queue == rest else Unmarked(seen) < Unmarked(before)
  {
    hide Reaches;
    seen, queue := before, rest;
    for k := 0 to |preds|
      invariant |seen| == |dag| && seen[block]
      invariant forall x: nat :: x < |dag| && before[x] ==> seen[x]
      invariant forall x: nat :: x < |dag| && seen[x] ==> Reaches(dag, x, block)
      invariant forall x :: x in queue ==> x < |dag| && seen[x]
      invariant forall x: nat :: x < |dag| && seen[x] && !before[x] ==> x in queue
      invariant forall x :: x in rest ==> x in queue
      invariant forall i :: 0 <= i < k ==> preds[i] < |dag| && seen[preds[i]]
      invariant if seen == before then queue == rest else Unmarked(seen) < Unmarked(before)
    {
      var pb := preds[k];
      assert pb in preds && Edge(dag, pb, b);
      if !seen[pb] {
        EdgeReaches(dag, pb, b);
        ReachesTrans(dag, pb, b, block);
        MarkOne(seen, pb);
        seen := seen[pb := true];
        queue := queue + [pb];
      }
    }
  }

  /** The strict ancestors below n, ascending. */
  ghost function AncestorsBelow(dag: Graph, block: nat, n: nat): seq<nat> {
    if n == 0 then [] else AncestorsBelow(dag, block, n - 1) + if StrictAncestor(dag, n - 1, block) then [n - 1] else []
  }

  ghost function AncestorsOf(dag: Graph, block: nat): seq<nat> {
    AncestorsBelow(dag, block, |dag|)
  }

  lemma {:induction false} AncestorsBelowAre(dag: Graph, block: nat, n: nat)
    ensures Ascending(AncestorsBelow(dag, block, n))
    ensures forall b: nat :: b in AncestorsBelow(dag, block, n) <==> b < n && StrictAncestor(dag, b, block)
  {
    hide StrictAncestor;
    if n > 0 {
      AncestorsBelowAre(dag, block, n - 1);
      var before := AncestorsBelow(dag, block, n - 1);
      assert forall i :: 0 <= i < |before| ==> before[i] in before;
    }
  }

  lemma {:induction false} NoAncestors(dag: Graph, block: nat, n: nat)
    requires forall b: nat :: !StrictAncestor(dag, b, block)
    ensures AncestorsBelow(dag, block, n) == []
  {
    if n > 0 {
      NoAncestors(dag, block, n - 1);
    }
  }

  lemma AncestorsAre(dag: Graph, block: nat)
    ensures Ascending(AncestorsOf(dag, block))
    ensures forall b: nat :: b in AncestorsOf(dag, block) <==> StrictAncestor(dag, b, block)
  {
    AncestorsBelowAre(dag, block, |dag|);
    forall b: nat | StrictAncestor(dag, b, block)
      ensures b < |dag|
    {
      ReachesInRange(dag, b, block);
    }
  }

  /** Ascending list of the blocks that reach the block on kept edges, itself excluded. */
  method StrictAncestors(dag: Graph, block: nat) returns (ancestors: seq<nat>)
    ensures ancestors == AncestorsOf(dag, block)
    ensures Ascending(ancestors)
    ensures forall b: nat :: b in ancestors <==> StrictAncestor(dag, b, block)
  {
    hide Reaches, Unmarked;
    AncestorsAre(dag, block);
    var n := |dag|;
    if block >= n {
      forall b: nat
        ensures !StrictAncestor(dag, b, block)
      {
        if Reaches(dag, b, block) {
          ReachesInRange(dag, b, block);
        }
      }
      NoAncestors(dag, block, n);
      return [];
    }
    var preds := Predecessors(dag);
    var seen := seq(n, b requires 0 <= b < n => b == block);
    var queue: seq<nat> := [block];
    ReachesSelf(dag, block);
    while |queue| > 0
      invariant Backwards(dag, block, seen, queue)
      decreases Unmarked(seen), |queue|
    {
      var b := queue[0];
      ghost var before := seen;
      ghost var rest := queue[1..];
      assert queue == [b] + rest;
      assert b in queue && forall x :: x in rest ==> x in queue;
      seen, queue := MarkPreds(dag, block, preds[b], b, seen, queue[1..]);
      forall x: nat, y: nat | Edge(dag, x, y) && seen[y] && y !in queue
        ensures seen[x]
      {
        if y == b {
          assert x in preds[b];
        } else {
          assert before[y] ==> y !in [b] + rest;
        }
      }
    }
    forall b: nat
      ensures b < n && seen[b] <==> Reaches(dag, b, block)
    {
      if Reaches(dag, b, block) {
        AllMarked(dag, block, seen, b);
      }
    }
    ancestors := [];
    for b := 0 to n
      invariant ancestors == AncestorsBelow(dag, block, b)
    {
      if seen[b] && b != block {
        ancestors := ancestors + [b];
      }
    }
  }

  lemma AllMarked(dag: Graph, block: nat, seen: seq<bool>, b: nat)
    requires Backwards(dag, block, seen, []) && Reaches(dag, b, block)
    ensures b < |dag| && seen[b]
  {
    var p :| PathFromTo(dag, p, b, block);
    ReachMarked(dag, block, seen, p);
  }

  lemma MarkOne(seen: seq<bool>, x: nat)
    requires x < |seen| && !seen[x]
    ensures Unmarked(seen[x := true]) < Unmarked(seen)
  {
    assert x in Unmarked(seen) && x !in Unmarked(seen[x := true]);
  }

  // ---- counting sends ----

  predicate SendsOn(f: Function, loc: Loc, op: Op) {
    op.Send? && LocOf(f, op.chan) == loc
  }

  function Sends(f: Function, loc: Loc, instrs: seq<Op>): nat {
    if instrs == [] then 0 else Sends(f, loc, instrs[..|instrs| - 1]) + if SendsOn(f, loc, instrs[|instrs| - 1])
      then 1 else 0
  }

  function Upto(instrs: seq<Op>, upto: Option<nat>): seq<Op> {
    if upto.Some? && upto.value < |instrs| then instrs[..upto.value] else instrs
  }

  /** Sends on the location in a block, before an instruction of it if one is given. */
  function SendsIn(f: Function, b: nat, loc: Loc, upto: Option<nat>): nat {
    if b < |f.blocks| then Sends(f, loc, Upto(f.blocks[b].instrs, upto)) else 0
  }

  method SendsOnLocIn(f: Function, b: nat, loc: Loc, upto: Option<nat>) returns (n: nat)
    ensures n == SendsIn(f, b, loc, upto)
  {
    n := 0;
    if b >= |f.blocks| {
      return;
    }
    var instrs := f.blocks[b].instrs;
    for i := 0 to |instrs|
      invariant n == Sends(f, loc, Upto(instrs[..i], upto))
    {
      assert instrs[..i + 1][..i] == instrs[..i];
      if upto.None? || i < upto.value {
        assert Upto(instrs[..i + 1], upto) == instrs[..i + 1];
        if instrs[i].Send? {
          var l := ResolveLoc(f, instrs[i].chan);
          if l == loc {
            n := n + 1;
          }
        }
      } else {
        assert Upto(instrs[..i + 1], upto) == Upto(instrs[..i], upto);
      }
    }
    assert instrs[..|instrs|] == instrs;
  }

  // ---- the conjunct ----

  /** The send that may block: a place and the location it sends on. */
  datatype Candidate = Candidate(block: nat, instr: nat, loc: Loc)

  function Whole(f: Function, loc: Loc, b: nat): nat {
    SendsIn(f, b, loc, None)
  }

  function TotalOver(f: Function, loc: Loc, blocks: seq<nat>, own: nat): nat {
    if blocks == [] then own else TotalOver(f, loc, blocks[..|blocks| - 1], own) + Whole(f, loc, blocks[|blocks| - 1])
  }

  function PendingOver(f: Function, loc: Loc, blocks: seq<nat>, own: nat): Term {
    if blocks == [] then BvLit(32, own)
    else
      var before := PendingOver(f, loc, blocks[..|blocks| - 1], own);
      var b := blocks[|blocks| - 1];
      var n := Whole(f, loc, b);
      if n == 0 then before else BvBin(Add, before, Ite(GuardTerm(b), BvLit(32, n), BvLit(32, 0)))
  }

  /** Not below capacity: a term over the guards, None exactly when a number does not fit 32 bits. */
  ghost function ConjunctFor(f: Function, dag: Graph, cand: Candidate, cap: nat): Option<Term> {
    var own := SendsIn(f, cand.block, cand.loc, Some(cand.instr));
    var ancestors := AncestorsOf(dag, cand.block);
    if cap < Pow2(32) && TotalOver(f, cand.loc, ancestors, own) < Pow2(32)
    then Some(Not(BvCmp(Ult, PendingOver(f, cand.loc, ancestors, own), BvLit(32, cap))))
    else None
  }

  method OrdinalConjunct(f: Function, dag: Graph, cand: Candidate, cap: nat) returns (t: Option<Term>)
    requires |dag| == |f.blocks|
    ensures t == ConjunctFor(f, dag, cand, cap)
  {
    hide SendsIn, Pow2, Reaches, StrictAncestor, AncestorsOf;
    var blocks := StrictAncestors(dag, cand.block);
    if cap >= Pow2(32) {
      return None;
    }
    var own := SendsOnLocIn(f, cand.block, cand.loc, Some(cand.instr));
    var total := own;
    TotalGrows(f, cand.loc, blocks, own, 0);
    if own >= Pow2(32) {
      return None;
    }
    var pending := BvLit(32, own);
    for k := 0 to |blocks|
      invariant total == TotalOver(f, cand.loc, blocks[..k], own) < Pow2(32)
      invariant pending == PendingOver(f, cand.loc, blocks[..k], own) && SortOf(pending) == BvSort(32)
    {
      assert blocks[..k + 1][..k] == blocks[..k];
      var n := SendsOnLocIn(f, blocks[k], cand.loc, None);
      if n == 0 {
        continue;
      }
      total := total + n;
      if total >= Pow2(32) {
        TotalGrows(f, cand.loc, blocks, own, k + 1);
        return None;
      }
      pending := BvBin(Add, pending, Ite(GuardTerm(blocks[k]), BvLit(32, n), BvLit(32, 0)));
    }
    assert blocks[..|blocks|] == blocks;
    return Some(Not(BvCmp(Ult, pending, BvLit(32, cap))));
  }

  lemma {:induction false} TotalGrows(f: Function, loc: Loc, blocks: seq<nat>, own: nat, k: nat)
    requires k <= |blocks|
    ensures own <= TotalOver(f, loc, blocks[..k], own) <= TotalOver(f, loc, blocks, own)
    decreases |blocks| - k
  {
    TotalAtLeast(f, loc, blocks[..k], own);
    if k < |blocks| {
      assert blocks[..k + 1][..k] == blocks[..k];
      TotalGrows(f, loc, blocks, own, k + 1);
    } else {
      assert blocks[..k] == blocks;
    }
  }

  lemma {:induction false} TotalAtLeast(f: Function, loc: Loc, blocks: seq<nat>, own: nat)
    ensures own <= TotalOver(f, loc, blocks, own)
  {
    if blocks != [] {
      TotalAtLeast(f, loc, blocks[..|blocks| - 1], own);
    }
  }

  // ---- sums over blocks ----

  ghost function SumOver(s: set<nat>, w: nat -> nat): nat {
    if s == {} then 0
    else
      var x :| x in s;
      w(x) + SumOver(s - {x}, w)
  }

  lemma {:induction false} SumWithout(s: set<nat>, w: nat -> nat, x: nat)
    requires x in s
    ensures SumOver(s, w) == w(x) + SumOver(s - {x}, w)
  {
    var y :| y in s && SumOver(s, w) == w(y) + SumOver(s - {y}, w);
    if x != y {
      SumWithout(s - {y}, w, x);
      SumWithout(s - {x}, w, y);
      assert s - {y} - {x} == s - {x} - {y};
    }
  }

  /** Blocks of no weight can be left out, and only the weights of the others matter. */
  lemma {:induction false} SumRestricted(big: set<nat>, small: set<nat>, w': nat -> nat, w: nat -> nat)
    requires small <= big
    requires forall x :: x in big ==> w'(x) == if x in small then w(x) else 0
    ensures SumOver(big, w') == SumOver(small, w)
    decreases big
  {
    if big != {} {
      var x :| x in big;
      SumWithout(big, w', x);
      if x in small {
        SumWithout(small, w, x);
      }
      SumRestricted(big - {x}, small - {x}, w', w);
      assert x !in small ==> small - {x} == small;
    }
  }

  function ElementsOf(s: seq<nat>): set<nat> {
    set x | x in s
  }

  /** The sum of the weights of listed blocks. */
  ghost function ListSum(s: seq<nat>, w: nat -> nat): nat {
    if s == [] then 0 else ListSum(s[..|s| - 1], w) + w(s[|s| - 1])
  }

  lemma NothingToSum(w: nat -> nat)
    ensures SumOver(ElementsOf([]), w) == 0
  {
    assert ElementsOf([]) == {};
  }

  lemma {:induction false} ListSumIsSum(s: seq<nat>, w: nat -> nat)
    requires forall i, j :: 0 <= i < j < |s| ==> s[i] != s[j]
    ensures ListSum(s, w) == SumOver(ElementsOf(s), w)
  {
    hide SumOver;
    if s == [] {
      NothingToSum(w);
    } else {
      var before, x := s[..|s| - 1], s[|s| - 1];
      ListSumIsSum(before, w);
      SumWithout(ElementsOf(s), w, x);
      assert ElementsOf(s) - {x} == ElementsOf(before);
    }
  }

  // ---- exactness ----

  ghost function GuardedWeight(f: Function, loc: Loc, m: Model): nat -> nat {
    b => if On(m, b) then Whole(f, loc, b) else 0
  }

  function BlockWeight(f: Function, loc: Loc): nat -> nat {
    b => Whole(f, loc, b)
  }

  /** Below 2^32 the 32-bit sum is the integer sum of the visited blocks' sends. */
  lemma {:induction false} PendingIs(f: Function, loc: Loc, blocks: seq<nat>, own: nat, m: Model)
    requires TotalOver(f, loc, blocks, own) < Pow2(32)
    ensures Eval(PendingOver(f, loc, blocks, own), m) == BvVal(32, own + ListSum(blocks, GuardedWeight(f, loc, m)))
    ensures own + ListSum(blocks, GuardedWeight(f, loc, m)) <= TotalOver(f, loc, blocks, own)
  {
    hide Whole, Pow2;
    if blocks != [] {
      var before, b := blocks[..|blocks| - 1], blocks[|blocks| - 1];
      PendingIs(f, loc, before, own, m);
      var sum, n := own + ListSum(before, GuardedWeight(f, loc, m)), if On(m, b) then Whole(f, loc, b) else 0;
      WrapSmall(32, sum + n);
      var inc := Ite(GuardTerm(b), BvLit(32, Whole(f, loc, b)), BvLit(32, 0));
      assert Eval(inc, m) == BvVal(32, n);
    }
  }

  /** Sends on the location along the path, up to the candidate's instruction in the k-th block. */
  ghost function SendsBefore(f: Function, p: seq<nat>, k: nat, cand: Candidate): nat
    requires k <= |p|
  {
    ListSum(p[..k], BlockWeight(f, cand.loc)) + SendsIn(f, cand.block, cand.loc, Some(cand.instr))
  }

  /** Of the blocks that can precede the k-th block of the path, the visited ones are those before it. */
  lemma AncestorOn(f: Function, dag: Graph, reachable: seq<bool>, m: Model, p: seq<nat>, k: nat, b: nat)
    requires GuardModel(f, dag, reachable, m) && GuardPath(f, dag, m, p) && k < |p|
    requires StrictAncestor(dag, b, p[k])
    ensures On(m, b) <==> b in p[..k]
  {
    hide CutsBackEdges, Chosen, GuardAsserts;
    SameLength(f, dag);
    ReachesInRange(dag, b, p[k]);
    if On(m, b) {
      OnPath(f, dag, reachable, m, p, b);
      var j :| 0 <= j < |p| && p[j] == b;
      if j > k {
        PathReaches(dag, p, k);
        PathSlice(dag, p, k, j);
        NoTwoWay(dag, p[k], p[j]);
      }
      assert p[..k][j] == b;
    }
    if b in p[..k] {
      var j :| 0 <= j < k && p[j] == b;
      PathOn(f, dag, reachable, m, p, j);
    }
  }

  lemma EarlierIsAncestor(f: Function, dag: Graph, m: Model, p: seq<nat>, k: nat, j: nat)
    requires CutsBackEdges(Successors(f), dag) && GuardPath(f, dag, m, p) && j < k < |p|
    ensures StrictAncestor(dag, p[j], p[k])
  {
    hide Chosen;
    SameLength(f, dag);
    PathTwice(dag, p, j, k);
    PathSlice(dag, p, j, k);
  }

  /**
    The fill count is exact: under any assignment of the guard equations that visits the candidate's
    block, it is the number of sends on the location made before the candidate on the guards' path,
    and the conjunct holds iff that number has reached the capacity.
   */
  lemma OrdinalExact(f: Function, dag: Graph, reachable: seq<bool>, m: Model, p: seq<nat>, k: nat, cand: Candidate,
                     cap: nat)
    requires GuardModel(f, dag, reachable, m) && GuardPath(f, dag, m, p) && k < |p| && p[k] == cand.block
    requires ConjunctFor(f, dag, cand, cap).Some?
    ensures var own := SendsIn(f, cand.block, cand.loc, Some(cand.instr));
            Eval(PendingOver(f, cand.loc, AncestorsOf(dag, cand.block), own), m)
              == BvVal(32, SendsBefore(f, p, k, cand))
    ensures Holds(ConjunctFor(f, dag, cand, cap).value, m) <==> SendsBefore(f, p, k, cand) >= cap
  {
    hide Whole, Pow2, SendsIn, GuardModel, GuardPath, StrictAncestor, PendingOver, TotalOver, Eval, ListSum, SumOver,
      AncestorsOf;
    var ancestors := AncestorsOf(dag, cand.block);
    AncestorsAre(dag, cand.block);
    var own := SendsIn(f, cand.block, cand.loc, Some(cand.instr));
    var w', w := GuardedWeight(f, cand.loc, m), BlockWeight(f, cand.loc);
    PendingIs(f, cand.loc, ancestors, own, m);
    ListSumIsSum(ancestors, w');
    BeforeDistinct(f, dag, reachable, m, p, k);
    ListSumIsSum(p[..k], w);
    var big, small := ElementsOf(ancestors), ElementsOf(p[..k]);
    forall x | x in small
      ensures x in big
    {
      var j :| 0 <= j < k && p[j] == x;
      EarlierAncestor(f, dag, reachable, m, p, k, j);
    }
    forall x | x in big
      ensures w'(x) == if x in small then w(x) else 0
    {
      AncestorOn(f, dag, reachable, m, p, k, x);
    }
    SumRestricted(big, small, w', w);
    NotBelow(PendingOver(f, cand.loc, ancestors, own), m, SendsBefore(f, p, k, cand), cap);
  }

  lemma NotBelow(t: Term, m: Model, x: nat, cap: nat)
    requires Eval(t, m) == BvVal(32, x)
    ensures Holds(Not(BvCmp(Ult, t, BvLit(32, cap))), m) <==> x >= cap
  {
    assert Eval(BvCmp(Ult, t, BvLit(32, cap)), m) == BoolVal(x < cap);
  }

  lemma EarlierAncestor(f: Function, dag: Graph, reachable: seq<bool>, m: Model, p: seq<nat>, k: nat, j: nat)
    requires GuardModel(f, dag, reachable, m) && GuardPath(f, dag, m, p) && j < k < |p|
    ensures StrictAncestor(dag, p[j], p[k])
  {
    EarlierIsAncestor(f, dag, m, p, k, j);
  }

  lemma BeforeDistinct(f: Function, dag: Graph, reachable: seq<bool>, m: Model, p: seq<nat>, k: nat)
    requires GuardModel(f, dag, reachable, m) && GuardPath(f, dag, m, p) && k < |p|
    ensures forall i, j :: 0 <= i < j < |p[..k]| ==> p[..k][i] != p[..k][j]
  {
    hide Chosen, CutsBackEdges, GuardAsserts;
    SameLength(f, dag);
    forall i, j | 0 <= i < j < k
      ensures p[i] != p[j]
    {
      PathTwice(dag, p, i, j);
    }
  }
}
