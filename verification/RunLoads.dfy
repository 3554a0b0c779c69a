/** Forwarded loads agree: the emitted equalities between loads of one address hold under the assignment. */
module RunLoads {
  import opened Wrappers
  import opened Graphs
  import opened CutDag
  import opened Dominators
  import opened Terms
  import opened Ir
  import opened Encoding
  import opened Runs
  import opened RunFacts
  import opened RunModel
  import opened RunSettled
  import opened RunValues
  import opened RunAgrees
  import opened RunGuards
  import opened RunDefs

  // ---- positions in the walk ----

  function OffsetOf(f: Function, order: seq<nat>, i: nat): nat
    requires i <= |order|
  {
    |Walk(f, order[..i])|
  }

  lemma WalkSplit(f: Function, order: seq<nat>)
    requires |order| > 0
    ensures Walk(f, order) == Walk(f, order[..|order| - 1]) + BlockSites(f, order[|order| - 1])
  {
  }

  lemma {:induction false} WalkAt(f: Function, order: seq<nat>, i: nat, j: nat)
    requires InRange(f, order) && i < |order| && j < |f.blocks[order[i]].instrs|
    ensures OffsetOf(f, order, i) + j < |Walk(f, order)| && Walk(f, order)[OffsetOf(f, order, i) + j] == (order[i], j)
  {
    hide Walk, BlockSites;
    var n := |order| - 1;
    var before, last := Walk(f, order[..n]), BlockSites(f, order[n]);
    WalkSplit(f, order);
    assert order[..n][..i] == order[..i];
    if i < n {
      WalkAt(f, order[..n], i, j);
    } else {
      assert last[j] == (order[i], j);
    }
  }

  lemma {:induction false} OffsetsGrow(f: Function, order: seq<nat>, i: nat, i': nat)
    requires InRange(f, order) && i < i' <= |order|
    ensures OffsetOf(f, order, i) + |f.blocks[order[i]].instrs| <= OffsetOf(f, order, i')
  {
    assert order[..i'][..i' - 1] == order[..i' - 1];
    if i + 1 < i' {
      OffsetsGrow(f, order, i, i' - 1);
    }
  }

  lemma {:induction false} WalkFrom(f: Function, order: seq<nat>, r: nat) returns (i: nat, j: nat)
    requires InRange(f, order) && r < |Walk(f, order)|
    ensures i < |order| && j < |f.blocks[order[i]].instrs|
    ensures r == OffsetOf(f, order, i) + j && Walk(f, order)[r] == (order[i], j)
  {
    var n := |order| - 1;
    if r >= |Walk(f, order[..n])| {
      i, j := n, r - |Walk(f, order[..n])|;
    } else {
      i, j := WalkFrom(f, order[..n], r);
      assert order[..n][..i] == order[..i];
    }
  }

  lemma WalkOnce(c: Setting, r: nat, r': nat)
    requires Ready(c) && r < |Walk(c.f, c.order)| && r' < |Walk(c.f, c.order)|
        && Walk(c.f, c.order)[r] == Walk(c.f, c.order)[r']
    ensures r == r'
  {
    hide Walk, IsRun, ContractsTrue, WellFormed, CutsBackEdges;
    var i, j := WalkFrom(c.f, c.order, r);
    var i', j' := WalkFrom(c.f, c.order, r');
  }

  lemma WalkHas(c: Setting, s: Site) returns (r: nat)
    requires Ready(c) && IsSite(c.f, s)
    ensures r < |Walk(c.f, c.order)| && Walk(c.f, c.order)[r] == s
  {
    hide Walk, StateAt, Executes, HandsOver, Initial, ContractsTrue;
    var i := PositionOf(c, s.0);
    WalkAt(c.f, c.order, i, s.1);
    r := OffsetOf(c.f, c.order, i) + s.1;
  }

  lemma SiteInWalk(c: Setting, s: Site) returns (r: nat)
    requires Ready(c) && IsSite(c.f, s)
    ensures r < |Walk(c.f, c.order)| && Walk(c.f, c.order)[r] == s
    ensures WalkedBefore(c, s) == Walk(c.f, c.order)[..r]
  {
    r := WalkHas(c, s);
    WalkedIs(c, s, r);
  }

  lemma WalkedIs(c: Setting, s: Site, r: nat)
    requires Ready(c) && r < |Walk(c.f, c.order)| && Walk(c.f, c.order)[r] == s
    ensures WalkedBefore(c, s) == Walk(c.f, c.order)[..r]
  {
    forall r' | 0 <= r' < |Walk(c.f, c.order)| && Walk(c.f, c.order)[r'] == s
      ensures r' == r
    {
      WalkOnce(c, r, r');
    }
  }

  /** The walk visits executed instructions in the order the run does. */
  lemma WalkFollowsRun(c: Setting, k: nat, i: nat, k': nat, i': nat, r: nat, r': nat)
    requires Ready(c) && k < |c.run.path| && k' < |c.run.path| && Earlier(k, i, k', i')
    requires r < |Walk(c.f, c.order)| && Walk(c.f, c.order)[r] == (c.run.path[k], i)
    requires r' < |Walk(c.f, c.order)| && Walk(c.f, c.order)[r'] == (c.run.path[k'], i')
    ensures r < r'
  {
    hide Walk, LeaderOf, StateAt, Executes, HandsOver, Initial, ContractsTrue;
    var p, j := WalkFrom(c.f, c.order, r);
    var p', j' := WalkFrom(c.f, c.order, r');
    if k < k' {
      PathSlice(c.dag, c.run.path, k, k');
      PathDistinct(c.dag, c.run.path, k, k');
      ReachesForward(c.dag, c.order, p, p');
      OffsetsGrow(c.f, c.order, p, p');
    }
  }

  // ---- what address keys stand for ----

  /** The location a key denotes in the run, when all registers it mentions are known. */
  ghost function KeyMeans(m: Machine, final: Regs, key: AddrKey): Option<RVal> {
    match key
    case Root(v) => if v in final then Some(final[v]) else None
    case FieldOf(base, field) =>
      var b :- KeyMeans(m, final, base);
      Some(Plain(AddrPtr(m.fieldAddr(b, field))))
    case IndexOf(base, i) =>
      var b :- KeyMeans(m, final, base);
      if i in final then Some(Plain(AddrPtr(m.indexAddr(b, final[i])))) else None
  }

  ghost function StateAt(c: Setting, r: nat): Forwarding
    requires Ready(c) && r <= |Walk(c.f, c.order)|
  {
    Forwarded(c.f, Walk(c.f, c.order)[..r])
  }

  lemma StateStep(c: Setting, r: nat)
    requires Ready(c) && r < |Walk(c.f, c.order)|
    ensures IsSite(c.f, Walk(c.f, c.order)[r])
    ensures StateAt(c, r + 1) == ForwardStep(StateAt(c, r), OpAt(c.f, Walk(c.f, c.order)[r]))
  {
    hide IsRun, ContractsTrue, StrictSsa, CutsBackEdges;
    var w := Walk(c.f, c.order);
    assert w[r] in w;
    assert w[..r + 1][..r] == w[..r];
  }

  predicate MakesKey(op: Op, v: ValueId) {
    OpDst(op) == Some(v) && (op.Assign? || op.FieldAddr? || op.IndexAddr?)
  }

  lemma OtherKeysKept(st: Forwarding, op: Op, v: ValueId)
    requires !MakesKey(op, v) && v in ForwardStep(st, op).keys
    ensures v in st.keys && st.keys[v] == ForwardStep(st, op).keys[v]
  {
  }

  lemma NewKeyIs(st: Forwarding, op: Op, v: ValueId)
    requires MakesKey(op, v) && v in ForwardStep(st, op).keys
    ensures var k := ForwardStep(st, op).keys[v];
            match op
            case Assign(_, src) => if src in st.keys then k == st.keys[src] else v in st.keys && k == st.keys[v]
            case FieldAddr(_, base, field) => k == Root(v) || k == FieldOf(KeyOf(st.keys, base), field)
            case IndexAddr(_, base, index) => k == Root(v) || k == IndexOf(KeyOf(st.keys, base), index)
            case _ => false
  {
  }

  /** A recorded key denotes the address its register holds. */
  lemma {:induction false} KeysTrue(c: Setting, r: nat, v: ValueId)
    requires Ready(c) && r <= |Walk(c.f, c.order)| && v in StateAt(c, r).keys && v in Final(c)
    ensures KeyMeans(c.m, Final(c), StateAt(c, r).keys[v]) == Some(Final(c)[v])
    decreases r, 2
  {
    hide IsRun, ContractsTrue, WellFormed, CutsBackEdges, ListsReachable, Forward;
    if r > 0 {
      StateStep(c, r - 1);
      var s := Walk(c.f, c.order)[r - 1];
      if MakesKey(OpAt(c.f, s), v) {
        NewKeyTrue(c, r - 1, s, v);
      } else {
        OtherKeysKept(StateAt(c, r - 1), OpAt(c.f, s), v);
        KeysTrue(c, r - 1, v);
      }
    }
  }

  lemma {:induction false} NewKeyTrue(c: Setting, r: nat, s: Site, v: ValueId)
    requires Ready(c) && r < |Walk(c.f, c.order)| && Walk(c.f, c.order)[r] == s && IsSite(c.f, s)
    requires MakesKey(OpAt(c.f, s), v) && v in Final(c) && v in StateAt(c, r + 1).keys
    ensures KeyMeans(c.m, Final(c), StateAt(c, r + 1).keys[v]) == Some(Final(c)[v])
    decreases r + 1, 1
  {
    hide IsRun, ContractsTrue, WellFormed, CutsBackEdges, ListsReachable, Forward, Walk, Items, ModelAfter;
    var op, st := OpAt(c.f, s), StateAt(c, r);
    StateStep(c, r);
    NewKeyIs(st, op, v);
    AddressOf(c, s, v);
    if op.Assign? {
      KeysTrue(c, r, if op.src in st.keys then op.src else v);
    } else {
      BaseKey(c, r, op.base);
    }
  }

  /** What an executed address instruction computed, from the final registers. */
  lemma AddressOf(c: Setting, s: Site, v: ValueId)
    requires Ready(c) && IsSite(c.f, s) && MakesKey(OpAt(c.f, s), v) && v in Final(c)
    ensures match OpAt(c.f, s)
            case Assign(_, src) => src in Final(c) && Final(c)[v] == Final(c)[src]
            case FieldAddr(_, base, field) => base in Final(c)
              && Final(c)[v] == Plain(AddrPtr(c.m.fieldAddr(Final(c)[base], field)))
            case IndexAddr(_, base, i) => base in Final(c) && i in Final(c)
              && Final(c)[v] == Plain(AddrPtr(c.m.indexAddr(Final(c)[base], Final(c)[i])))
            case _ => true
  {
    hide ContractsTrue, StrictSsa, WellTyped, CutsBackEdges, Forward, Walk, Items, ModelAfter, Executes, HandsOver,
      Exec;
    assert DefinesAt(c.f, s, v);
    FinalIffExecuted(c, s, v);
    var k := SiteRan(c, s);
    RanProduces(c, k, s, v);
  }

  /** The key used for a register, recorded or its own root, denotes what the register holds. */
  lemma {:induction false} BaseKey(c: Setting, r: nat, v: ValueId)
    requires Ready(c) && r <= |Walk(c.f, c.order)| && v in Final(c)
    ensures KeyMeans(c.m, Final(c), KeyOf(StateAt(c, r).keys, v)) == Some(Final(c)[v])
    decreases r, 3
  {
    if v in StateAt(c, r).keys {
      KeysTrue(c, r, v);
    }
  }

  // ---- the heap between loads ----

  predicate WritesMemory(op: Op) {
    op.Store? || op == Havoc(None)
  }

  ghost predicate InSpan(l: nat, j: nat, k: nat, i: nat, k': nat, i': nat) {
    !Earlier(l, j, k, i) && Earlier(l, j, k', i')
  }

  ghost predicate QuietAt(c: Setting, l: nat, j: nat)
    requires Ready(c)
  {
    l < |c.run.path| && j + 1 < |c.run.states[l]| && IsSite(c.f, (c.run.path[l], j)) ==>
      !WritesMemory(OpAt(c.f, (c.run.path[l], j)))
  }

  /** No executed instruction from position (k, i) up to (k', i') writes memory. */
  ghost predicate QuietBetween(c: Setting, k: nat, i: nat, k': nat, i': nat)
    requires Ready(c)
  {
    forall l: nat, j: nat {:trigger QuietAt(c, l, j)} :: InSpan(l, j, k, i, k', i') ==> QuietAt(c, l, j)
  }

  lemma QuietShrinks(c: Setting, k: nat, i: nat, k': nat, i': nat, k'': nat, i'': nat)
    requires Ready(c) && QuietBetween(c, k, i, k', i') && Earlier(k'', i'', k', i')
    ensures QuietBetween(c, k, i, k'', i'')
  {
    forall l: nat, j: nat | InSpan(l, j, k, i, k'', i'')
      ensures QuietAt(c, l, j)
    {
      assert InSpan(l, j, k, i, k', i');
    }
  }

  lemma {:induction false} HeapStable(c: Setting, k: nat, i: nat, k': nat, i': nat)
    requires Ready(c) && Position(c.run, k, i) && Position(c.run, k', i')
        && (Earlier(k, i, k', i') || (k == k' && i == i'))
    requires QuietBetween(c, k, i, k', i')
    ensures c.run.states[k][i].heap == c.run.states[k'][i'].heap
    decreases k', i'
  {
    hide ContractsTrue, WellFormed, CutsBackEdges, Forward, ListsReachable, Walk, Initial;
    if k != k' || i != i' {
      if i' > 0 {
        ExecAt(c.m, c.f, c.dag, c.run, k', i' - 1);
        assert InSpan(k', i' - 1, k, i, k', i') && QuietAt(c, k', i' - 1);
        QuietShrinks(c, k, i, k', i', k', i' - 1);
        HeapStable(c, k, i, k', i' - 1);
      } else {
        assert HandsOver(c.f, c.run, k' - 1);
        var last := |c.run.states[k' - 1]| - 1;
        QuietShrinks(c, k, i, k', i', k' - 1, last);
        EarlierSpan(c, k, i, k' - 1);
        HeapStable(c, k, i, k' - 1, last);
      }
    }
  }

  lemma EarlierSpan(c: Setting, k: nat, i: nat, l: nat)
    requires Ready(c) && Position(c.run, k, i) && k <= l < |c.run.path|
    ensures |c.run.states[l]| > 0
    ensures Earlier(k, i, l, |c.run.states[l]| - 1) || (k == l && i == |c.run.states[l]| - 1)
  {
    RunShape(c.m, c.f, c.dag, c.run);
  }

  // ---- pending loads ----

  /** The load at r0 is the pending one for a key at r: nothing cleared it in between. */
  ghost predicate PendingLoad(c: Setting, r0: nat, r: nat, key: AddrKey, leader: ValueId)
    requires Ready(c)
  {
    var w := Walk(c.f, c.order);
    && r0 < r <= |w| && IsSite(c.f, w[r0])
    && OpAt(c.f, w[r0]).Load? && OpAt(c.f, w[r0]).dst == leader
    && KeyOf(StateAt(c, r0).keys, OpAt(c.f, w[r0]).addr) == key && key !in StateAt(c, r0).seen
    && forall q :: r0 < q < r ==> IsSite(c.f, w[q]) && !WritesMemory(OpAt(c.f, w[q]))
  }

  lemma SeenStep(st: Forwarding, op: Op, key: AddrKey)
    requires key in ForwardStep(st, op).seen
    ensures !WritesMemory(op)
    ensures if key in st.seen then ForwardStep(st, op).seen[key] == st.seen[key]
            else op.Load? && KeyOf(st.keys, op.addr) == key && ForwardStep(st, op).seen[key] == op.dst
  {
  }

  lemma PendingGrows(c: Setting, r0: nat, r: nat, key: AddrKey, leader: ValueId)
    requires Ready(c) && PendingLoad(c, r0, r, key, leader) && r < |Walk(c.f, c.order)|
    requires IsSite(c.f, Walk(c.f, c.order)[r]) && !WritesMemory(OpAt(c.f, Walk(c.f, c.order)[r]))
    ensures PendingLoad(c, r0, r + 1, key, leader)
  {
    hide Walk, Forwarded, IsRun, ContractsTrue, WellFormed, CutsBackEdges;
  }

  lemma {:induction false} SeenPending(c: Setting, r: nat, key: AddrKey) returns (r0: nat)
    requires Ready(c) && r <= |Walk(c.f, c.order)| && key in StateAt(c, r).seen
    ensures PendingLoad(c, r0, r, key, StateAt(c, r).seen[key])
    decreases r
  {
    hide Walk, IsRun, ContractsTrue, WellFormed, CutsBackEdges;
    assert r > 0;
    StateStep(c, r - 1);
    var op := OpAt(c.f, Walk(c.f, c.order)[r - 1]);
    SeenStep(StateAt(c, r - 1), op, key);
    if key in StateAt(c, r - 1).seen {
      r0 := SeenPending(c, r - 1, key);
      PendingGrows(c, r0, r - 1, key, StateAt(c, r - 1).seen[key]);
    } else {
      r0 := r - 1;
    }
  }

  /** A load at r whose leader is the load at r0 (possibly itself): same key, memory quiet in between. */
  ghost predicate Follows(c: Setting, r0: nat, r: nat)
    requires Ready(c)
  {
    var w := Walk(c.f, c.order);
    && r0 <= r < |w| && IsSite(c.f, w[r0]) && IsSite(c.f, w[r]) && OpAt(c.f, w[r0]).Load? && OpAt(c.f, w[r]).Load?
    && KeyOf(StateAt(c, r0).keys, OpAt(c.f, w[r0]).addr) == KeyOf(StateAt(c, r).keys, OpAt(c.f, w[r]).addr)
    && KeyOf(StateAt(c, r0).keys, OpAt(c.f, w[r0]).addr) !in StateAt(c, r0).seen
    && LeaderOf(c, w[r]) == OpAt(c.f, w[r0]).dst
    && forall q :: r0 < q < r ==> IsSite(c.f, w[q]) && !WritesMemory(OpAt(c.f, w[q]))
  }

  lemma LeaderFound(c: Setting, s: Site) returns (r0: nat, r: nat)
    requires Ready(c) && IsSite(c.f, s) && OpAt(c.f, s).Load?
    ensures Follows(c, r0, r) && Walk(c.f, c.order)[r] == s
  {
    hide Walk, Forwarded, IsRun, ContractsTrue, WellFormed, CutsBackEdges;
    r := SiteInWalk(c, s);
    var key := KeyOf(StateAt(c, r).keys, OpAt(c.f, s).addr);
    if key in StateAt(c, r).seen {
      r0 := SeenPending(c, r, key);
    } else {
      r0 := r;
    }
  }

  // ---- executed peers agree ----

  /** An executed load read the heap at the address its register finally holds. */
  lemma LoadRead(c: Setting, s: Site, k: nat)
    requires Ready(c) && Ran(c, k, s) && OpAt(c.f, s).Load?
    ensures var op, st := OpAt(c.f, s), c.run.states[k][s.1];
            && op.addr in Final(c) && op.dst in Final(c) && IsAddr(Final(c)[op.addr])
            && Final(c)[op.addr].v.addr in st.heap && Final(c)[op.dst] == st.heap[Final(c)[op.addr].v.addr]
  {
    hide ContractsTrue, StrictSsa, WellTyped, CutsBackEdges, Forward, Walk, Items, ModelAfter, Executes, HandsOver,
      Exec;
    RanProduces(c, k, s, OpAt(c.f, s).dst);
  }

  lemma PeersAgree(c: Setting, r0: nat, r: nat, r': nat)
    requires Ready(c) && Follows(c, r0, r) && Follows(c, r0, r') && r < r'
    requires Executed(c.run, Walk(c.f, c.order)[r]) && Executed(c.run, Walk(c.f, c.order)[r'])
    ensures OpAt(c.f, Walk(c.f, c.order)[r]).dst in Final(c) && OpAt(c.f, Walk(c.f, c.order)[r']).dst in Final(c)
    ensures Final(c)[OpAt(c.f, Walk(c.f, c.order)[r]).dst] == Final(c)[OpAt(c.f, Walk(c.f, c.order)[r']).dst]
  {
    hide Walk, Exec, ContractsTrue, LeaderOf, StateAt, WellFormed, CutsBackEdges, PeerValue;
    var s, s' := Walk(c.f, c.order)[r], Walk(c.f, c.order)[r'];
    var k := SiteRan(c, s);
    var k' := SiteRan(c, s');
    LoadRead(c, s, k);
    LoadRead(c, s', k');
    BaseKey(c, r, OpAt(c.f, s).addr);
    BaseKey(c, r', OpAt(c.f, s').addr);
    QuietSpan(c, k, s.1, k', s'.1, r0, r, r');
    HeapStable(c, k, s.1, k', s'.1);
  }

  lemma RunFollowsWalk(c: Setting, k: nat, i: nat, k': nat, i': nat, r: nat, r': nat)
    requires Ready(c) && k < |c.run.path| && k' < |c.run.path| && r < r'
    requires r' < |Walk(c.f, c.order)| && Walk(c.f, c.order)[r] == (c.run.path[k], i)
        && Walk(c.f, c.order)[r'] == (c.run.path[k'], i')
    ensures Earlier(k, i, k', i')
  {
    hide Walk, IsRun, ContractsTrue, WellFormed, CutsBackEdges;
    if Earlier(k', i', k, i) {
      WalkFollowsRun(c, k', i', k, i, r', r);
    } else if k == k' && i == i' {
      WalkOnce(c, r, r');
    }
  }

  lemma QuietSpan(c: Setting, k: nat, i: nat, k': nat, i': nat, r0: nat, r: nat, r': nat)
    requires Ready(c) && k < |c.run.path| && k' < |c.run.path| && Follows(c, r0, r) && Follows(c, r0, r') && r < r'
    requires Walk(c.f, c.order)[r] == (c.run.path[k], i) && Walk(c.f, c.order)[r'] == (c.run.path[k'], i')
    ensures Earlier(k, i, k', i') && QuietBetween(c, k, i, k', i')
  {
    hide Walk, LeaderOf, StateAt, Executes, HandsOver, Initial, ContractsTrue, WellFormed, CutsBackEdges;
    RunFollowsWalk(c, k, i, k', i', r, r');
    forall l: nat, j: nat | InSpan(l, j, k, i, k', i')
      ensures QuietAt(c, l, j)
    {
      if l < |c.run.path| && j + 1 < |c.run.states[l]| && IsSite(c.f, (c.run.path[l], j)) {
        var q := WalkHas(c, (c.run.path[l], j));
        WalkFollowsRun(c, l, j, k', i', q, r');
        if q < r {
          RunFollowsWalk(c, l, j, k, i, q, r);
        } else if q > r {
          assert r0 < q < r';
        }
      }
    }
  }

  // ---- the emitted equalities ----

  /** The shared value of a leader's loads. */
  ghost function GroupValue(c: Setting, leader: ValueId): Val
    requires Ready(c) && SortOfValue(c.f, leader).Some?
  {
    PeerValue(c, leader, SortOfValue(c.f, leader).value)
  }

  lemma PeerFollows(c: Setting, leader: ValueId, r0: nat, r: nat, s: Site) returns (r': nat)
    requires Ready(c) && Follows(c, r0, r) && leader == OpAt(c.f, Walk(c.f, c.order)[r0]).dst
    requires IsSite(c.f, s) && OpAt(c.f, s).Load? && LeaderOf(c, s) == leader
    ensures Follows(c, r0, r') && Walk(c.f, c.order)[r'] == s
  {
    hide Walk, KeyOf, LeaderOf, StateAt, IsRun, ContractsTrue, StrictSsa, WellTyped, WellShaped;
    var q0, q := LeaderFound(c, s);
    r' := q;
    var w := Walk(c.f, c.order);
    assert DefinesAt(c.f, w[r0], leader) && DefinesAt(c.f, w[q0], leader);
    OneDefinition(c.f, w[r0], w[q0], leader);
    WalkOnce(c, r0, q0);
  }

  /** All executed loads of a group read the group's value. */
  lemma ExecutedInGroup(c: Setting, r0: nat, r: nat)
    requires Ready(c) && Follows(c, r0, r)
    requires var s, leader := Walk(c.f, c.order)[r], OpAt(c.f, Walk(c.f, c.order)[r0]).dst;
             Executed(c.run, s) && SortOfValue(c.f, leader).Some?
               && SortOfValue(c.f, OpAt(c.f, s).dst) == SortOfValue(c.f, leader)
    ensures OpAt(c.f, Walk(c.f, c.order)[r]).dst in Final(c)
    ensures Final(c)[OpAt(c.f, Walk(c.f, c.order)[r]).dst]
        == Plain(GroupValue(c, OpAt(c.f, Walk(c.f, c.order)[r0]).dst))
  {
    hide Walk, Exec, ContractsTrue, LeaderOf, StateAt;
    var s, leader := Walk(c.f, c.order)[r], OpAt(c.f, Walk(c.f, c.order)[r0]).dst;
    var k := SiteRan(c, s);
    LoadRead(c, s, k);
    FinalTyped(c, OpAt(c.f, s).dst);
    assert ExecutedPeer(c, leader, s);
    forall s' | ExecutedPeer(c, leader, s')
      ensures Final(c)[OpAt(c.f, s').dst] == Final(c)[OpAt(c.f, s).dst]
    {
      PeerReadsSame(c, r0, r, s');
    }
  }

  lemma PeerReadsSame(c: Setting, r0: nat, r: nat, s': Site)
    requires Ready(c) && Follows(c, r0, r) && Executed(c.run, Walk(c.f, c.order)[r])
    requires ExecutedPeer(c, OpAt(c.f, Walk(c.f, c.order)[r0]).dst, s')
    ensures OpAt(c.f, Walk(c.f, c.order)[r]).dst in Final(c)
    ensures Final(c)[OpAt(c.f, s').dst] == Final(c)[OpAt(c.f, Walk(c.f, c.order)[r]).dst]
  {
    hide Walk, Exec, ContractsTrue, LeaderOf, StateAt;
    var s := Walk(c.f, c.order)[r];
    var k := SiteRan(c, s);
    LoadRead(c, s, k);
    var r' := PeerFollows(c, OpAt(c.f, Walk(c.f, c.order)[r0]).dst, r0, r, s');
    if r < r' {
      PeersAgree(c, r0, r, r');
    } else if r' < r {
      PeersAgree(c, r0, r', r);
    }
  }

  /** Every load of a group, executed or not, is assigned the group's value. */
  lemma InGroup(c: Setting, r0: nat, r: nat)
    requires Ready(c) && Follows(c, r0, r)
    requires var s, leader := Walk(c.f, c.order)[r], OpAt(c.f, Walk(c.f, c.order)[r0]).dst;
             SortOfValue(c.f, leader).Some? && SortOfValue(c.f, OpAt(c.f, s).dst) == SortOfValue(c.f, leader)
    ensures NameOf(c.f, OpAt(c.f, Walk(c.f, c.order)[r]).dst) in FullModel(c)
    ensures FullModel(c)[NameOf(c.f, OpAt(c.f, Walk(c.f, c.order)[r]).dst)]
        == GroupValue(c, OpAt(c.f, Walk(c.f, c.order)[r0]).dst)
  {
    hide IsRun, ContractsTrue, WellFormed, CutsBackEdges, ListsReachable, Forward, Walk, Items, ModelAfter;
    var s := Walk(c.f, c.order)[r];
    var v := OpAt(c.f, s).dst;
    assert DefinesAt(c.f, s, v);
    FinalIffExecuted(c, s, v);
    var i, j := WalkFrom(c.f, c.order, r);
    DefinedValue(c, i, j, v);
    if v in Final(c) {
      ExecutedInGroup(c, r0, r);
    }
  }

  lemma {:induction false} ForwardAssertIs(c: Setting, r: nat, t: Term) returns (q: nat)
    requires Ready(c) && r <= |Walk(c.f, c.order)| && t in ForwardAsserts(c.f, Walk(c.f, c.order)[..r])
    ensures q < |Walk(c.f, c.order)| && IsSite(c.f, Walk(c.f, c.order)[q])
    ensures t in ForwardAssert(c.f, StateAt(c, q), OpAt(c.f, Walk(c.f, c.order)[q]))
  {
    hide Walk, Executes, HandsOver, Initial, ContractsTrue;
    var w := Walk(c.f, c.order);
    assert w[..r][..r - 1] == w[..r - 1] && w[..r][r - 1] == w[r - 1];
    assert w[r - 1] in w;
    if t in ForwardAsserts(c.f, w[..r - 1]) {
      q := ForwardAssertIs(c, r - 1, t);
    } else {
      q := r - 1;
    }
  }

  /** The emitted load equalities hold. */
  lemma LoadsHold(c: Setting, t: Term)
    requires Ready(c) && t in ForwardAsserts(c.f, Walk(c.f, c.order))
    ensures Holds(t, FullModel(c))
  {
    hide IsRun, ContractsTrue, WellFormed, CutsBackEdges, ListsReachable, Forward, Walk, Items, ModelAfter;
    var w := Walk(c.f, c.order);
    assert w[..|w|] == w;
    var r := ForwardAssertIs(c, |w|, t);
    LoadEqualityHolds(c, r, t);
  }

  /** The load remembered for an address leads the loads of that address. */
  lemma SeenFollows(c: Setting, r: nat) returns (r0: nat)
    requires Ready(c) && r < |Walk(c.f, c.order)| && IsSite(c.f, Walk(c.f, c.order)[r])
    requires OpAt(c.f, Walk(c.f, c.order)[r]).Load?
    requires KeyOf(StateAt(c, r).keys, OpAt(c.f, Walk(c.f, c.order)[r]).addr) in StateAt(c, r).seen
    ensures Follows(c, r0, r) && Follows(c, r0, r0)
    ensures OpAt(c.f, Walk(c.f, c.order)[r0]).dst
         == StateAt(c, r).seen[KeyOf(StateAt(c, r).keys, OpAt(c.f, Walk(c.f, c.order)[r]).addr)]
  {
    hide IsRun, ContractsTrue, WellFormed, CutsBackEdges, Walk, Forward, ListsReachable, Forwarded, KeyOf;
    var w := Walk(c.f, c.order);
    r0 := SeenPending(c, r, KeyOf(StateAt(c, r).keys, OpAt(c.f, w[r]).addr));
    WalkedIs(c, w[r], r);
    WalkedIs(c, w[r0], r0);
  }

  lemma GroupedTerm(c: Setting, r0: nat, r: nat)
    requires Ready(c) && Follows(c, r0, r)
    requires var s, leader := Walk(c.f, c.order)[r], OpAt(c.f, Walk(c.f, c.order)[r0]).dst;
             SortOfValue(c.f, leader).Some? && SortOfValue(c.f, OpAt(c.f, s).dst) == SortOfValue(c.f, leader)
    ensures var v := OpAt(c.f, Walk(c.f, c.order)[r]).dst;
            TermOf(c.f, v).Some? && Eval(TermOf(c.f, v).value, FullModel(c))
              == GroupValue(c, OpAt(c.f, Walk(c.f, c.order)[r0]).dst)
  {
    hide Ready, Walk, Follows, GroupValue, FullModel;
    InGroup(c, r0, r);
  }

  lemma LoadEqualityHolds(c: Setting, r: nat, t: Term)
    requires Ready(c) && r < |Walk(c.f, c.order)| && IsSite(c.f, Walk(c.f, c.order)[r])
    requires t in ForwardAssert(c.f, StateAt(c, r), OpAt(c.f, Walk(c.f, c.order)[r]))
    ensures Holds(t, FullModel(c))
  {
    hide IsRun, ContractsTrue, WellFormed, CutsBackEdges, Walk, Forward, ListsReachable, Follows, StateAt, KeyOf,
      FullModel, GroupValue, IsSite;
    var w := Walk(c.f, c.order);
    var v := OpAt(c.f, w[r]).dst;
    var leader := StateAt(c, r).seen[KeyOf(StateAt(c, r).keys, OpAt(c.f, w[r]).addr)];
    assert t == Eq(TermOf(c.f, v).value, TermOf(c.f, leader).value);
    var r0 := SeenFollows(c, r);
    GroupedTerm(c, r0, r);
    GroupedTerm(c, r0, r0);
  }
}
