/**
  The iterative depth-first search of `cut_back_edges_visited` and `topo_order`: an explicit
  stack of (block, next successor index) frames over an array of colours. `Inv` is the one
  invariant both loops keep, in terms of discovery and finishing numbers that exist only in the
  proof; each kind of step has its own lemma.
 */
module DepthFirst {
  import opened Graphs

  const WHITE: nat := 0
  const GREY: nat := 1
  const BLACK: nat := 2

  type Frame = (nat, nat)

  /** A path along which discovery numbers grow. */
  ghost predicate Ascends(g: Graph, num: seq<nat>, p: seq<nat>) {
    && |num| == |g|
    && IsPath(g, p)
    && (forall i :: 0 <= i < |p| ==> p[i] < |g|)
    && forall i, j :: 0 <= i < j < |p| ==> num[p[i]] < num[p[j]]
  }

  ghost predicate Grows(g: Graph, num: seq<nat>, color: seq<nat>, u: nat, v: nat) {
    && |color| == |g|
    && exists p :: Ascends(g, num, p) && p[0] == u && p[|p| - 1] == v && forall x :: x in p ==>
      x < |g| && color[x] != WHITE
  }

  ghost predicate Settled(g: Graph, color: seq<nat>, cut: seq<(nat, nat)>, b: nat, s: nat)
    requires |color| == |g|
  {
    s >= |g| || (b, s) in cut || color[s] == BLACK
  }

  ghost predicate Colors(g: Graph, color: seq<nat>, num: seq<nat>, fin: seq<nat>, cnt: nat, done: nat) {
    && |color| == |num| == |fin| == |g| && |g| > 0
    && (forall v: nat :: v < |g| ==> color[v] in {WHITE, GREY, BLACK})
    && color[0] != WHITE
    && (forall v: nat :: v < |g| && color[v] != WHITE ==> num[v] < cnt)
    && (forall v: nat :: v < |g| && color[v] == BLACK ==> fin[v] < done)
  }

  ghost predicate HasParent(g: Graph, color: seq<nat>, num: seq<nat>, v: nat)
    requires |color| == |num| == |g| && v < |g|
  {
    exists u: nat :: Edge(g, u, v) && color[u] != WHITE && num[u] < num[v]
  }

  ghost predicate Parents(g: Graph, color: seq<nat>, num: seq<nat>)
    requires |color| == |num| == |g|
  {
    forall v: nat {:trigger HasParent(g, color, num, v)} :: 0 < v < |g| && color[v] != WHITE ==>
      HasParent(g, color, num, v)
  }

  ghost predicate OnStack(stack: seq<Frame>, v: nat) {
    exists k :: 0 <= k < |stack| && stack[k].0 == v
  }

  /** The frame above was pushed for the successor that the frame below passed last. */
  ghost predicate Link(g: Graph, below: Frame, above: Frame) {
    below.0 < |g| && 0 < below.1 <= |g[below.0]| && g[below.0][below.1 - 1] == above.0
  }

  ghost predicate Stack(g: Graph, stack: seq<Frame>, color: seq<nat>, num: seq<nat>)
    requires |color| == |num| == |g|
  {
    && (forall k :: 0 <= k < |stack| ==>
          stack[k].0 < |g| && stack[k].1 <= |g[stack[k].0]| && color[stack[k].0] == GREY)
    && (forall v: nat {:trigger OnStack(stack, v)} :: v < |g| && color[v] == GREY ==> OnStack(stack, v))
    && (forall k, l :: 0 <= k < l < |stack| ==> num[stack[k].0] < num[stack[l].0])
    && (forall k, l :: 0 <= k < l < |stack| && l == k + 1 ==> Link(g, stack[k], stack[l]))
  }

  /** Every successor a frame has passed is settled, or is the frame right above. */
  ghost predicate Passed(g: Graph, stack: seq<Frame>, color: seq<nat>, cut: seq<(nat, nat)>)
    requires |color| == |g|
    requires forall k :: 0 <= k < |stack| ==> stack[k].0 < |g| && stack[k].1 <= |g[stack[k].0]|
  {
    forall k, j :: 0 <= k < |stack| && 0 <= j < stack[k].1 ==>
      || Settled(g, color, cut, stack[k].0, g[stack[k].0][j])
      || (k + 1 < |stack| && j == stack[k].1 - 1)
  }

  ghost predicate Cuts(g: Graph, color: seq<nat>, num: seq<nat>, cut: seq<(nat, nat)>)
    requires |color| == |num| == |g|
  {
    forall e :: e in cut ==>
      && Edge(g, e.0, e.1) && color[e.0] != WHITE && color[e.1] != WHITE && num[e.1] <= num[e.0]
      && Grows(g, num, color, e.1, e.0)
  }

  ghost predicate Finished(g: Graph, color: seq<nat>, fin: seq<nat>, cut: seq<(nat, nat)>)
    requires |color| == |fin| == |g|
  {
    forall b: nat, s: nat :: Edge(g, b, s) && color[b] == BLACK && (b, s) !in cut ==>
      color[s] == BLACK && fin[s] < fin[b]
  }

  /** Finishing numbers are positions in the postorder list. */
  ghost predicate Numbered(g: Graph, color: seq<nat>, fin: seq<nat>, post: seq<nat>) {
    && |color| == |fin| == |g|
    && (forall i :: 0 <= i < |post| ==> post[i] < |g| && color[post[i]] == BLACK && fin[post[i]] == i)
    && (forall v: nat :: v < |g| && color[v] == BLACK ==> fin[v] < |post| && post[fin[v]] == v)
  }

  /**
    A search under way: the frames, the colours, the back edges met and the blocks finished, and
    (only for the proof) discovery and finishing numbers.
   */
  datatype Search = Search(stack: seq<Frame>, color: seq<nat>, cut: seq<(nat, nat)>, post: seq<nat>,
                           num: seq<nat>, fin: seq<nat>, cnt: nat)

  ghost predicate Inv(g: Graph, s: Search) {
    && Colors(g, s.color, s.num, s.fin, s.cnt, |s.post|)
    && Parents(g, s.color, s.num)
    && Stack(g, s.stack, s.color, s.num)
    && Passed(g, s.stack, s.color, s.cut)
    && Cuts(g, s.color, s.num, s.cut)
    && Finished(g, s.color, s.fin, s.cut)
    && Numbered(g, s.color, s.fin, s.post)
    && (|s.stack| > 0 ==> s.stack[0].0 == 0)
    && (|s.stack| == 0 ==> |s.post| > 0 && s.post[|s.post| - 1] == 0)
  }

  function Initial(n: nat): Search
    requires n > 0
  {
    Search([(0, 0)], seq(n, _ => WHITE)[0 := GREY], [], [], seq(n, _ => 0), seq(n, _ => 0), 1)
  }

  lemma Start(g: Graph)
    requires |g| > 0
    ensures Inv(g, Initial(|g|))
  {
    assert [(0, 0)][0].0 == 0;
    assert OnStack([(0, 0)], 0);
  }

  lemma GrowsExtends(g: Graph, num: seq<nat>, color: seq<nat>, num': seq<nat>, color': seq<nat>, u: nat, v: nat)
    requires Grows(g, num, color, u, v)
    requires |num'| == |color'| == |g|
    requires forall x :: 0 <= x < |g| && color[x] != WHITE ==> color'[x] != WHITE && num'[x] == num[x]
    ensures Grows(g, num', color', u, v)
  {
    var p :| Ascends(g, num, p) && p[0] == u && p[|p| - 1] == v && forall x :: x in p ==> x < |g| && color[x] != WHITE;
    forall i, j | 0 <= i < j < |p|
      ensures num'[p[i]] < num'[p[j]]
    {
      assert p[i] in p && p[j] in p;
    }
    assert Ascends(g, num', p);
  }

  lemma ParentsExtend(g: Graph, color: seq<nat>, num: seq<nat>, color': seq<nat>, num': seq<nat>, v: nat)
    requires |color| == |num| == |color'| == |num'| == |g| && v < |g| && HasParent(g, color, num, v)
        && color[v] != WHITE
    requires forall x: nat :: x < |g| && color[x] != WHITE ==> color'[x] != WHITE && num'[x] == num[x]
    ensures HasParent(g, color', num', v)
  {
    var u: nat :| Edge(g, u, v) && color[u] != WHITE && num[u] < num[v];
    assert Edge(g, u, v) && color'[u] != WHITE && num'[u] < num'[v];
  }

  /** The part of the stack from frame k up is an ascending path. */
  lemma StackPath(g: Graph, stack: seq<Frame>, color: seq<nat>, num: seq<nat>, k: nat)
    requires |color| == |num| == |g| && Stack(g, stack, color, num) && k < |stack|
    ensures Grows(g, num, color, stack[k].0, stack[|stack| - 1].0)
  {
    var p := seq(|stack| - k, i requires 0 <= i < |stack| - k => stack[k + i].0);
    forall i, j | 0 <= i < j < |p| && j == i + 1
      ensures Edge(g, p[i], p[j])
    {
      assert Link(g, stack[k + i], stack[k + j]);
    }
    assert Ascends(g, num, p);
    forall x | x in p
      ensures x < |g| && color[x] != WHITE
    {
      var i :| 0 <= i < |p| && p[i] == x;
      assert stack[k + i].0 == x;
    }
  }

  ghost predicate Extends(g: Graph, color: seq<nat>, num: seq<nat>, color': seq<nat>, num': seq<nat>) {
    && |color| == |num| == |color'| == |num'| == |g|
    && forall x: nat :: x < |g| && color[x] != WHITE ==> color'[x] != WHITE && num'[x] == num[x]
  }

  lemma CutsExtend(g: Graph, color: seq<nat>, num: seq<nat>, cut: seq<(nat, nat)>, color': seq<nat>, num': seq<nat>)
    requires Extends(g, color, num, color', num') && Cuts(g, color, num, cut)
    ensures Cuts(g, color', num', cut)
  {
    forall e | e in cut
      ensures Edge(g, e.0, e.1) && color'[e.0] != WHITE && color'[e.1] != WHITE && num'[e.1] <= num'[e.0]
      ensures Grows(g, num', color', e.1, e.0)
    {
      GrowsExtends(g, num, color, num', color', e.1, e.0);
    }
  }

  /** The top frame moves on to its next successor. */
  function Advance(stack: seq<Frame>): seq<Frame>
    requires |stack| > 0
  {
    stack[|stack| - 1 := (stack[|stack| - 1].0, stack[|stack| - 1].1 + 1)]
  }

  /** The top frame has a successor left, and it is s. */
  predicate Next(g: Graph, stack: seq<Frame>, s: nat) {
    && |stack| > 0
    && var (b, i) := stack[|stack| - 1];
    && b < |g| && i < |g[b]| && g[b][i] == s
  }

  lemma AdvanceStack(g: Graph, stack: seq<Frame>, color: seq<nat>, num: seq<nat>, s: nat)
    requires |color| == |num| == |g| && Stack(g, stack, color, num) && Next(g, stack, s)
    ensures Stack(g, Advance(stack), color, num)
  {
    forall v: nat | v < |g| && color[v] == GREY
      ensures OnStack(Advance(stack), v)
    {
      assert OnStack(stack, v);
      var k :| 0 <= k < |stack| && stack[k].0 == v;
      assert Advance(stack)[k].0 == v;
    }
    forall k, l | 0 <= k < l < |stack| && l == k + 1
      ensures Link(g, Advance(stack)[k], Advance(stack)[l])
    {
      assert Link(g, stack[k], stack[l]);
    }
  }

  lemma AdvancePassed(g: Graph, stack: seq<Frame>, color: seq<nat>, num: seq<nat>, cut: seq<(nat, nat)>,
                      cut': seq<(nat, nat)>, s: nat)
    requires |color| == |num| == |g| && Stack(g, stack, color, num) && Next(g, stack, s)
    requires Passed(g, stack, color, cut) && cut <= cut'
    requires Settled(g, color, cut', stack[|stack| - 1].0, s)
    ensures Stack(g, Advance(stack), color, num) && Passed(g, Advance(stack), color, cut')
  {
    AdvanceStack(g, stack, color, num, s);
    var stack' := Advance(stack);
    forall k, j | 0 <= k < |stack'| && 0 <= j < stack'[k].1
      ensures Settled(g, color, cut', stack'[k].0, g[stack'[k].0][j]) || (k + 1 < |stack'| && j == stack'[k].1 - 1)
    {
      if k < |stack| - 1 || j < stack[k].1 {
        assert Settled(g, color, cut, stack[k].0, g[stack[k].0][j]) || (k + 1 < |stack| && j == stack[k].1 - 1);
      }
    }
  }

  lemma PushStack(g: Graph, stack: seq<Frame>, color: seq<nat>, num: seq<nat>, cnt: nat, s: nat)
    requires |color| == |num| == |g| && Stack(g, stack, color, num) && Next(g, stack, s)
    requires s < |g| && color[s] == WHITE
    requires forall v: nat :: v < |g| && color[v] != WHITE ==> num[v] < cnt
    ensures Stack(g, Advance(stack) + [(s, 0)], color[s := GREY], num[s := cnt])
  {
    AdvanceStack(g, stack, color, num, s);
    var a := Advance(stack);
    var stack' := a + [(s, 0)];
    forall v: nat | v < |g| && color[s := GREY][v] == GREY
      ensures OnStack(stack', v)
    {
      if v == s {
        assert stack'[|stack|].0 == v;
      } else {
        assert OnStack(a, v);
        var k :| 0 <= k < |a| && a[k].0 == v;
        assert stack'[k].0 == v;
      }
    }
    forall k, l | 0 <= k < l < |stack'| && l == k + 1
      ensures Link(g, stack'[k], stack'[l])
    {
      if l < |a| {
        assert Link(g, a[k], a[l]);
      }
    }
  }

  lemma PushPassed(g: Graph, stack: seq<Frame>, color: seq<nat>, num: seq<nat>, cut: seq<(nat, nat)>, cnt: nat, s: nat)
    requires |color| == |num| == |g| && Stack(g, stack, color, num) && Passed(g, stack, color, cut) && Next(g, stack, s)
    requires s < |g| && color[s] == WHITE
    requires Stack(g, Advance(stack) + [(s, 0)], color[s := GREY], num[s := cnt])
    ensures Passed(g, Advance(stack) + [(s, 0)], color[s := GREY], cut)
  {
    var stack', color' := Advance(stack) + [(s, 0)], color[s := GREY];
    forall k, j | 0 <= k < |stack'| && 0 <= j < stack'[k].1
      ensures Settled(g, color', cut, stack'[k].0, g[stack'[k].0][j]) || (k + 1 < |stack'| && j == stack'[k].1 - 1)
    {
      if k < |stack| && j < stack[k].1 {
        assert Settled(g, color, cut, stack[k].0, g[stack[k].0][j]) || (k + 1 < |stack| && j == stack[k].1 - 1);
      }
    }
  }

  /** One turn of the search loop. */
  function Step(g: Graph, s: Search): Search
    requires |s.stack| > 0 && |s.color| == |s.num| == |s.fin| == |g| && s.stack[|s.stack| - 1].0 < |g|
  {
    var (b, i) := s.stack[|s.stack| - 1];
    if i < |g[b]| then
      var v := g[b][i];
      if v < |g| && s.color[v] == WHITE then
        s.(stack := Advance(s.stack) + [(v, 0)], color := s.color[v := GREY], num := s.num[v := s.cnt],
          cnt := s.cnt + 1)
      else if v < |g| && s.color[v] == GREY then
        s.(stack := Advance(s.stack), cut := s.cut + [(b, v)])
      else
        s.(stack := Advance(s.stack))
    else
      s.(stack := s.stack[..|s.stack| - 1], color := s.color[b := BLACK], fin := s.fin[b := |s.post|],
        post := s.post + [b])
  }

  lemma PushParents(g: Graph, s: Search, v: nat)
    requires Inv(g, s) && Next(g, s.stack, v) && v < |g| && s.color[v] == WHITE
    ensures Parents(g, s.color[v := GREY], s.num[v := s.cnt]) && Cuts(g, s.color[v := GREY], s.num[v := s.cnt], s.cut)
  {
    hide Passed, Finished, Numbered, Cuts;
    var b := s.stack[|s.stack| - 1].0;
    var color', num' := s.color[v := GREY], s.num[v := s.cnt];
    CutsExtend(g, s.color, s.num, s.cut, color', num');
    forall x: nat | 0 < x < |g| && color'[x] != WHITE
      ensures HasParent(g, color', num', x)
    {
      if x == v {
        assert Edge(g, b, x) && color'[b] != WHITE && num'[b] < num'[x];
      } else {
        ParentsExtend(g, s.color, s.num, color', num', x);
      }
    }
  }

  /** The next successor is unvisited, so it is pushed. */
  lemma Discover(g: Graph, s: Search, v: nat)
    requires Inv(g, s) && Next(g, s.stack, v) && v < |g| && s.color[v] == WHITE
    ensures Inv(g, Step(g, s))
  {
    hide Passed, Cuts, Parents;
    PushStack(g, s.stack, s.color, s.num, s.cnt, v);
    PushPassed(g, s.stack, s.color, s.num, s.cut, s.cnt, v);
    PushParents(g, s, v);
  }

  /** The edge to a block on the stack closes a cycle. */
  lemma CutJustified(g: Graph, s: Search, v: nat)
    requires Inv(g, s) && Next(g, s.stack, v) && v < |g| && s.color[v] == GREY
    ensures Cuts(g, s.color, s.num, s.cut + [(s.stack[|s.stack| - 1].0, v)])
  {
    hide Passed, Finished, Numbered, Parents, Grows;
    var b := s.stack[|s.stack| - 1].0;
    assert OnStack(s.stack, v);
    var m :| 0 <= m < |s.stack| && s.stack[m].0 == v;
    StackPath(g, s.stack, s.color, s.num, m);
    assert Edge(g, b, v) && s.num[v] <= s.num[b];
  }

  /** The next successor is on the stack, so the edge is a back edge and is recorded. */
  lemma BackEdge(g: Graph, s: Search, v: nat)
    requires Inv(g, s) && Next(g, s.stack, v) && v < |g| && s.color[v] == GREY
    ensures Inv(g, Step(g, s))
  {
    hide Passed, Cuts, Parents;
    var b := s.stack[|s.stack| - 1].0;
    AdvancePassed(g, s.stack, s.color, s.num, s.cut, s.cut + [(b, v)], v);
    CutJustified(g, s, v);
  }

  lemma PopStack(g: Graph, stack: seq<Frame>, color: seq<nat>, num: seq<nat>)
    requires |color| == |num| == |g| && Stack(g, stack, color, num) && |stack| > 0
    ensures Stack(g, stack[..|stack| - 1], color[stack[|stack| - 1].0 := BLACK], num)
  {
    var top := |stack| - 1;
    var stack', color' := stack[..top], color[stack[top].0 := BLACK];
    forall v: nat | v < |g| && color'[v] == GREY
      ensures OnStack(stack', v)
    {
      assert OnStack(stack, v);
      var k :| 0 <= k < |stack| && stack[k].0 == v;
      assert stack'[k].0 == v;
    }
  }

  lemma PopPassed(g: Graph, stack: seq<Frame>, color: seq<nat>, num: seq<nat>, cut: seq<(nat, nat)>)
    requires |color| == |num| == |g| && Stack(g, stack, color, num) && |stack| > 0 && Passed(g, stack, color, cut)
    requires Stack(g, stack[..|stack| - 1], color[stack[|stack| - 1].0 := BLACK], num)
    ensures Passed(g, stack[..|stack| - 1], color[stack[|stack| - 1].0 := BLACK], cut)
  {
    var top := |stack| - 1;
    var stack', color' := stack[..top], color[stack[top].0 := BLACK];
    forall k, j | 0 <= k < |stack'| && 0 <= j < stack'[k].1
      ensures Settled(g, color', cut, stack'[k].0, g[stack'[k].0][j]) || (k + 1 < |stack'| && j == stack'[k].1 - 1)
    {
      assert Settled(g, color, cut, stack[k].0, g[stack[k].0][j]) || (k + 1 < |stack| && j == stack[k].1 - 1);
      if k == top - 1 && j == stack[k].1 - 1 {
        assert Link(g, stack[k], stack[top]);
      }
    }
  }

  lemma PopFinished(g: Graph, s: Search)
    requires Inv(g, s) && |s.stack| > 0 && s.stack[|s.stack| - 1].1 == |g[s.stack[|s.stack| - 1].0]|
    ensures
      var b := s.stack[|s.stack| - 1].0;
      Finished(g, s.color[b := BLACK], s.fin[b := |s.post|], s.cut)
  {
    var top := |s.stack| - 1;
    var b := s.stack[top].0;
    var color', fin' := s.color[b := BLACK], s.fin[b := |s.post|];
    forall a: nat, v: nat | Edge(g, a, v) && color'[a] == BLACK && (a, v) !in s.cut
      ensures color'[v] == BLACK && fin'[v] < fin'[a]
    {
      if a == b {
        var j :| 0 <= j < |g[b]| && g[b][j] == v;
        assert Settled(g, s.color, s.cut, s.stack[top].0, g[s.stack[top].0][j]);
      }
    }
  }

  lemma PopParents(g: Graph, s: Search, b: nat)
    requires Inv(g, s) && b < |g| && s.color[b] == GREY
    ensures Parents(g, s.color[b := BLACK], s.num) && Cuts(g, s.color[b := BLACK], s.num, s.cut)
  {
    var color' := s.color[b := BLACK];
    CutsExtend(g, s.color, s.num, s.cut, color', s.num);
    forall v: nat | 0 < v < |g| && color'[v] != WHITE
      ensures HasParent(g, color', s.num, v)
    {
      ParentsExtend(g, s.color, s.num, color', s.num, v);
    }
  }

  /** All successors passed, so the block is finished and popped. */
  lemma Finish(g: Graph, s: Search)
    requires Inv(g, s) && |s.stack| > 0 && s.stack[|s.stack| - 1].1 == |g[s.stack[|s.stack| - 1].0]|
    ensures Inv(g, Step(g, s))
  {
    PopStack(g, s.stack, s.color, s.num);
    PopPassed(g, s.stack, s.color, s.num, s.cut);
    PopParents(g, s, s.stack[|s.stack| - 1].0);
    PopFinished(g, s);
  }

  /** The termination measure: unvisited blocks first, then what the frames still have to pass. */
  function White(color: seq<nat>): nat {
    if color == [] then 0 else (if color[0] == WHITE then 1 else 0) + White(color[1..])
  }

  lemma WhiteDrops(color: seq<nat>, v: nat, c: nat)
    requires v < |color| && c != WHITE
    ensures White(color[v := c]) == White(color) - if color[v] == WHITE then 1 else 0
  {
    if v == 0 {
      assert color[v := c][1..] == color[1..];
    } else {
      assert color[v := c][1..] == color[1..][v - 1 := c];
      WhiteDrops(color[1..], v - 1, c);
    }
  }

  function Pending(g: Graph, stack: seq<Frame>): nat {
    if stack == [] then 0
    else
      var (b, i) := stack[|stack| - 1];
      Pending(g, stack[..|stack| - 1]) + 1 + if b < |g| && i <= |g[b]| then |g[b]| - i else 0
  }

  lemma PendingDrops(g: Graph, stack: seq<Frame>)
    requires |stack| > 0
    requires var (b, i) := stack[|stack| - 1]; b < |g| && i < |g[b]|
    ensures Pending(g, Advance(stack)) < Pending(g, stack)
  {
    var s' := Advance(stack);
    assert s'[..|s'| - 1] == stack[..|stack| - 1];
  }

  /** The next successor needs no visit: it is finished, or there is no such block. */
  lemma PassBy(g: Graph, s: Search, v: nat)
    requires Inv(g, s) && Next(g, s.stack, v) && (v >= |g| || s.color[v] == BLACK)
    ensures Inv(g, Step(g, s))
  {
    hide Passed, Cuts, Parents;
    AdvancePassed(g, s.stack, s.color, s.num, s.cut, s.cut, v);
  }

  /** The measure of a step: the colour change, if any, or the frame that moved on. */
  lemma StepLowers(g: Graph, s: Search)
    requires Inv(g, s) && |s.stack| > 0
    ensures White(Step(g, s).color) < White(s.color)
         || (White(Step(g, s).color) == White(s.color) && Pending(g, Step(g, s).stack) < Pending(g, s.stack))
  {
    hide Parents, Passed, Cuts, Finished, Numbered;
    var (b, i) := s.stack[|s.stack| - 1];
    if i < |g[b]| {
      PendingDrops(g, s.stack);
      if g[b][i] < |g| {
        WhiteDrops(s.color, g[b][i], GREY);
      }
    } else {
      WhiteDrops(s.color, b, BLACK);
    }
  }

  lemma StepKeeps(g: Graph, s: Search)
    requires Inv(g, s) && |s.stack| > 0
    ensures Inv(g, Step(g, s))
    ensures White(Step(g, s).color) < White(s.color)
         || (White(Step(g, s).color) == White(s.color) && Pending(g, Step(g, s).stack) < Pending(g, s.stack))
  {
    hide Parents, Passed, Cuts, Finished, Numbered, Step;
    StepLowers(g, s);
    var (b, i) := s.stack[|s.stack| - 1];
    if i < |g[b]| {
      var v := g[b][i];
      if v < |g| && s.color[v] == WHITE {
        Discover(g, s, v);
      } else if v < |g| && s.color[v] == GREY {
        BackEdge(g, s, v);
      } else {
        PassBy(g, s, v);
      }
    } else {
      Finish(g, s);
    }
  }

  // ---- what a completed search means ----

  /** The kept graph, seen through the cut list. */
  ghost predicate Kept(g: Graph, dag: Graph, cut: seq<(nat, nat)>) {
    |dag| == |g| && forall b: nat, s: nat :: Edge(dag, b, s) <==> Edge(g, b, s) && (b, s) !in cut
  }

  lemma AscendingKept(g: Graph, dag: Graph, color: seq<nat>, num: seq<nat>, cut: seq<(nat, nat)>, u: nat, v: nat)
    requires |color| == |num| == |g| && Cuts(g, color, num, cut) && Kept(g, dag, cut)
    requires Grows(g, num, color, u, v)
    ensures Reaches(dag, u, v)
  {
    var p :| Ascends(g, num, p) && p[0] == u && p[|p| - 1] == v && forall x :: x in p ==> x < |g| && color[x] != WHITE;
    forall i, j | 0 <= i < j < |p| && j == i + 1
      ensures Edge(dag, p[i], p[j])
    {
      assert Edge(g, p[i], p[i + 1]) && num[p[i]] < num[p[i + 1]];
      if (p[i], p[i + 1]) in cut {
        assert false;
      }
    }
    assert PathFromTo(dag, p, u, v);
  }

  lemma DiscoveredReached(g: Graph, dag: Graph, color: seq<nat>, num: seq<nat>, cut: seq<(nat, nat)>, v: nat)
    requires |color| == |num| == |g| && |g| > 0
    requires Parents(g, color, num) && Cuts(g, color, num, cut) && Kept(g, dag, cut)
    requires v < |g| && color[v] != WHITE
    ensures Reaches(dag, 0, v)
    decreases num[v]
  {
    if v == 0 {
      ReachesSelf(dag, 0);
    } else {
      assert HasParent(g, color, num, v);
      var u: nat :| Edge(g, u, v) && color[u] != WHITE && num[u] < num[v];
      DiscoveredReached(g, dag, color, num, cut, u);
      if (u, v) in cut {
        assert false;
      }
      EdgeReaches(dag, u, v);
      ReachesTrans(dag, 0, u, v);
    }
  }

  /** The state a search ends in: the whole search is a function of the graph. */
  ghost function Ended(g: Graph, s: Search): (r: Search)
    requires Inv(g, s)
    ensures Complete(g, r)
    decreases White(s.color), Pending(g, s.stack)
  {
    if |s.stack| == 0 then s
    else
      StepKeeps(g, s);
      Ended(g, Step(g, s))
  }

  ghost function SearchOf(g: Graph): (r: Search)
    requires |g| > 0
    ensures Complete(g, r)
  {
    Start(g);
    Ended(g, Initial(|g|))
  }

  lemma SearchStarts(g: Graph)
    requires |g| > 0
    ensures Inv(g, Initial(|g|)) && Ended(g, Initial(|g|)) == SearchOf(g)
  {
    Start(g);
  }

  lemma SearchEnds(g: Graph, s: Search)
    requires Inv(g, s) && |s.stack| == 0
    ensures Complete(g, s) && Ended(g, s) == s
  {
  }

  /** One more step ends the same way; the top frame and the colours are in range. */
  lemma StepTowardsEnd(g: Graph, s: Search)
    requires Inv(g, s) && |s.stack| > 0
    ensures s.stack[|s.stack| - 1].0 < |g| && |s.color| == |s.num| == |s.fin| == |g|
    ensures s.stack[|s.stack| - 1].1 <= |g[s.stack[|s.stack| - 1].0]|
    ensures Inv(g, Step(g, s)) && Ended(g, s) == Ended(g, Step(g, s))
    ensures White(Step(g, s).color) < White(s.color)
         || (White(Step(g, s).color) == White(s.color) && Pending(g, Step(g, s).stack) < Pending(g, s.stack))
  {
    StepKeeps(g, s);
  }

  ghost predicate Complete(g: Graph, s: Search) {
    Inv(g, s) && s.stack == []
  }

  /** At the end the visited blocks are exactly the reachable ones, before and after the cut. */
  lemma VisitedExact(g: Graph, dag: Graph, s: Search, v: nat)
    requires Complete(g, s) && Kept(g, dag, s.cut) && v < |g|
    ensures s.color[v] != WHITE <==> Reaches(g, 0, v)
    ensures s.color[v] != WHITE <==> Reaches(dag, 0, v)
    ensures s.color[v] != WHITE <==> s.color[v] == BLACK
  {
    var seen := set x: nat | x < |g| && s.color[x] != WHITE;
    forall a: nat, b: nat | a in seen && Edge(g, a, b)
      ensures b in seen
    {
      assert s.color[a] == GREY ==> OnStack([], a);
    }
    if Reaches(g, 0, v) {
      ClosedHoldsReachable(g, 0, v, seen);
    }
    if Reaches(dag, 0, v) {
      ClosedHoldsReachable(dag, 0, v, seen);
    }
    assert s.color[v] == GREY ==> OnStack([], v);
    if s.color[v] != WHITE {
      DiscoveredReached(g, dag, s.color, s.num, s.cut, v);
      var p :| PathFromTo(dag, p, 0, v);
      KeptPath(g, dag, s.cut, p);
      assert PathFromTo(g, p, 0, v);
    }
  }

  lemma KeptPath(g: Graph, dag: Graph, cut: seq<(nat, nat)>, p: seq<nat>)
    requires Kept(g, dag, cut) && IsPath(dag, p)
    ensures IsPath(g, p)
  {
    forall i, j | 0 <= i < j < |p| && j == i + 1
      ensures Edge(g, p[i], p[j])
    {
      assert Edge(dag, p[i], p[i + 1]);
    }
  }

  /** Finishing numbers fall along kept edges, so no kept cycle is reachable. */
  lemma FinishFalls(g: Graph, dag: Graph, color: seq<nat>, cut: seq<(nat, nat)>, fin: seq<nat>, p: seq<nat>, i: nat)
    requires |color| == |fin| == |g| && Finished(g, color, fin, cut) && Kept(g, dag, cut)
    requires IsPath(dag, p) && color[p[0]] == BLACK && i < |p|
    ensures p[i] < |g| && color[p[i]] == BLACK && fin[p[i]] + i <= fin[p[0]]
  {
    if i > 0 {
      FinishFalls(g, dag, color, cut, fin, p, i - 1);
      assert Edge(dag, p[i - 1], p[i - 1 + 1]);
    }
  }

  lemma KeptAcyclic(g: Graph, dag: Graph, s: Search)
    requires Complete(g, s) && Kept(g, dag, s.cut)
    ensures AcyclicFromEntry(dag)
  {
    forall u: nat, v: nat | Reaches(dag, 0, u) && Edge(dag, u, v)
      ensures !Reaches(dag, v, u)
    {
      VisitedExact(g, dag, s, u);
      if Reaches(dag, v, u) {
        var p :| PathFromTo(dag, p, v, u);
        assert s.color[v] == BLACK && s.fin[v] < s.fin[u];
        FinishFalls(g, dag, s.color, s.cut, s.fin, p, |p| - 1);
      }
    }
  }

  /** In a graph with no reachable cycle the search records no back edge. */
  lemma NothingCut(g: Graph, color: seq<nat>, cut: seq<(nat, nat)>, num: seq<nat>)
    requires |color| == |num| == |g| && |g| > 0
    requires Parents(g, color, num) && Cuts(g, color, num, cut)
    requires AcyclicFromEntry(g)
    ensures cut == []
  {
    if cut != [] {
      var e := cut[0];
      assert e in cut;
      AscendingPath(g, color, num, e.1, e.0);
      TreeReached(g, color, num, e.0);
      assert false;
    }
  }

  lemma AscendingPath(g: Graph, color: seq<nat>, num: seq<nat>, u: nat, v: nat)
    requires Grows(g, num, color, u, v)
    ensures Reaches(g, u, v)
  {
    var p :| Ascends(g, num, p) && p[0] == u && p[|p| - 1] == v && forall x :: x in p ==> x < |g| && color[x] != WHITE;
    assert PathFromTo(g, p, u, v);
  }

  lemma TreeReached(g: Graph, color: seq<nat>, num: seq<nat>, v: nat)
    requires |color| == |num| == |g| && |g| > 0 && Parents(g, color, num)
    requires v < |g| && color[v] != WHITE
    ensures Reaches(g, 0, v)
  {
    DiscoveredReached(g, g, color, num, [], v);
  }
}
