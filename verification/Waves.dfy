/**
  The parallel schedule: groups are put into waves by depth, the tasks of a wave run in any
  interleaving, and every read finds a finished summary. Whatever the interleaving, the summaries
  are those of the sequential run, callees first.
 */
module Waves {
  import opened Wrappers
  import opened Ir
  import opened Fixpoint

  /** Groups of functions, callees first, and for each the groups it calls into. */
  datatype Schedule = Schedule(groups: seq<seq<FuncId>>, calleeGroups: seq<seq<nat>>)

  ghost predicate CalleesFirst(s: Schedule) {
    && |s.calleeGroups| == |s.groups|
    && (forall i, d :: 0 <= i < |s.groups| && d in s.calleeGroups[i] ==> d < i)
    && (forall i, j :: 0 <= i < j < |s.groups| ==> forall f :: f in s.groups[i] ==> f !in s.groups[j])
  }

  // ---- depths and waves ----

  predicate Below(callees: seq<nat>, n: nat) {
    forall k :: 0 <= k < |callees| ==> callees[k] < n
  }

  function MaxDepth(depth: seq<nat>, callees: seq<nat>): nat
    requires Below(callees, |depth|)
  {
    if callees == [] then 0
    else
      var rest := MaxDepth(depth, callees[..|callees| - 1]);
      var d := depth[callees[|callees| - 1]] + 1;
      if d > rest then d else rest
  }

  lemma {:induction false} MaxDepthIs(depth: seq<nat>, callees: seq<nat>)
    requires Below(callees, |depth|)
    ensures forall k :: 0 <= k < |callees| ==> depth[callees[k]] < MaxDepth(depth, callees)
    ensures MaxDepth(depth, callees) > 0 ==>
        exists k :: 0 <= k < |callees| && depth[callees[k]] + 1 == MaxDepth(depth, callees)
  {
    if callees != [] {
      var before := callees[..|callees| - 1];
      MaxDepthIs(depth, before);
      if MaxDepth(depth, before) == MaxDepth(depth, callees) {
        var k :| 0 <= k < |before| && depth[before[k]] + 1 == MaxDepth(depth, before);
        assert callees[k] == before[k];
      } else {
        assert depth[callees[|callees| - 1]] + 1 == MaxDepth(depth, callees);
      }
    }
  }

  /** One more than the deepest callee group, and no more. */
  ghost predicate DepthAt(callees: seq<nat>, depth: seq<nat>, i: nat)
    requires i < |depth|
  {
    && (forall k :: 0 <= k < |callees| ==> callees[k] < i && depth[callees[k]] < depth[i])
    && (depth[i] > 0 ==> exists k :: 0 <= k < |callees| && callees[k] < i && depth[callees[k]] + 1 == depth[i])
  }

  ghost predicate Depths(s: Schedule, depth: seq<nat>) {
    && |depth| == |s.groups| == |s.calleeGroups|
    && forall i: nat :: i < |depth| ==> DepthAt(s.calleeGroups[i], depth, i)
  }

  /** Every group is listed in the wave of its depth, in schedule order, and nowhere else. */
  ghost predicate WavesOf(depth: seq<nat>, waves: seq<seq<nat>>) {
    && (forall w: nat :: w < |waves| ==> Wave(depth, |depth|, w, waves[w]))
    && (forall i :: 0 <= i < |depth| ==> depth[i] < |waves|)
  }

  /** Of the first n groups, those of depth w in ascending order. */
  ghost predicate Wave(depth: seq<nat>, n: nat, w: nat, wave: seq<nat>)
    requires n <= |depth|
  {
    && (forall i: nat :: i in wave <==> i < n && depth[i] == w)
    && (forall j, k :: 0 <= j < k < |wave| ==> wave[j] < wave[k])
  }

  lemma WaveGrows(depth: seq<nat>, n: nat, w: nat, wave: seq<nat>)
    requires n < |depth| && Wave(depth, n, w, wave)
    ensures Wave(depth, n + 1, w, if depth[n] == w then wave + [n] else wave)
  {
    assert forall j :: 0 <= j < |wave| ==> wave[j] in wave;
    var more := if depth[n] == w then wave + [n] else wave;
    forall j, k | 0 <= j < k < |more|
      ensures more[j] < more[k]
    {
    }
  }

  lemma DepthStays(callees: seq<nat>, depth: seq<nat>, more: nat, i: nat)
    requires i < |depth| && DepthAt(callees, depth, i)
    ensures DepthAt(callees, depth + [more], i)
  {
    if depth[i] > 0 {
      var k :| 0 <= k < |callees| && callees[k] < i && depth[callees[k]] + 1 == depth[i];
      assert (depth + [more])[callees[k]] + 1 == (depth + [more])[i];
    }
  }

  lemma DepthOfNext(callees: seq<nat>, depth: seq<nat>)
    requires Below(callees, |depth|)
    ensures DepthAt(callees, depth + [MaxDepth(depth, callees)], |depth|)
  {
    hide MaxDepth;
    var here := MaxDepth(depth, callees);
    MaxDepthIs(depth, callees);
    if here > 0 {
      var k :| 0 <= k < |callees| && depth[callees[k]] + 1 == here;
      assert (depth + [here])[callees[k]] + 1 == here;
    }
  }

  lemma CalleesBelow(s: Schedule, i: nat)
    requires CalleesFirst(s) && i < |s.groups|
    ensures Below(s.calleeGroups[i], i)
  {
    var callees := s.calleeGroups[i];
    assert forall k :: 0 <= k < |callees| ==> callees[k] in callees;
  }

  method AssignDepths(s: Schedule) returns (depth: seq<nat>, deepest: nat)
    requires CalleesFirst(s)
    ensures Depths(s, depth)
    ensures forall j :: 0 <= j < |depth| ==> depth[j] <= deepest
  {
    hide DepthAt, MaxDepth;
    depth, deepest := [], 0;
    for i := 0 to |s.groups|
      invariant |depth| == i
      invariant forall j: nat :: j < i ==> DepthAt(s.calleeGroups[j], depth, j)
      invariant forall j :: 0 <= j < i ==> depth[j] <= deepest
    {
      CalleesBelow(s, i);
      var here := MaxDepth(depth, s.calleeGroups[i]);
      DepthOfNext(s.calleeGroups[i], depth);
      forall j: nat | j < i
        ensures DepthAt(s.calleeGroups[j], depth + [here], j)
      {
        DepthStays(s.calleeGroups[j], depth, here, j);
      }
      depth := depth + [here];
      if here > deepest {
        deepest := here;
      }
    }
  }

  method AssignWaves(s: Schedule) returns (depth: seq<nat>, waves: seq<seq<nat>>)
    requires CalleesFirst(s)
    ensures Depths(s, depth) && WavesOf(depth, waves)
  {
    hide CalleesFirst, DepthAt;
    var deepest;
    depth, deepest := AssignDepths(s);
    waves := seq(deepest + 1, _ => []);
    for i := 0 to |depth|
      invariant |waves| == deepest + 1
      invariant forall w: nat :: w < |waves| ==> Wave(depth, i, w, waves[w])
    {
      forall w: nat | w < |waves|
        ensures Wave(depth, i + 1, w, if depth[i] == w then waves[w] + [i] else waves[w])
      {
        WaveGrows(depth, i, w, waves[w]);
      }
      waves := waves[depth[i] := waves[depth[i]] + [i]];
    }
  }

  // ---- tasks ----

  type Slots = map<FuncId, Summary>

  /**
    What the tasks compute: the functions a group's task looks up outside the group, and its
    summaries given what the filled slots among them held.
   */
  datatype Tasks = Tasks(lookups: seq<set<FuncId>>, solve: (nat, Slots) -> Slots)

  /** Tasks look only into callee groups (or at functions no group has), and fill their own slots. */
  ghost predicate TasksFit(s: Schedule, t: Tasks) {
    && CalleesFirst(s) && |t.lookups| == |s.groups|
    && (forall i, f, d :: 0 <= i < |s.groups| && f in t.lookups[i] && 0 <= d < |s.groups| && f in s.groups[d] ==>
      d in s.calleeGroups[i])
    && (forall i: nat, view: Slots :: i < |s.groups| ==> (forall f :: f in t.solve(i, view) <==> f in s.groups[i]))
  }

  function Restricted(slots: Slots, fs: set<FuncId>): Slots {
    map f | f in slots && f in fs :: slots[f]
  }

  /** The slots after the first n groups, one after the other. */
  ghost function Sequential(s: Schedule, t: Tasks, n: nat): Slots
    requires n <= |s.groups| == |t.lookups|
  {
    if n == 0 then map[]
    else
      var before := Sequential(s, t, n - 1);
      before + t.solve(n - 1, Restricted(before, t.lookups[n - 1]))
  }

  lemma {:induction false} SequentialKeys(s: Schedule, t: Tasks, n: nat)
    requires TasksFit(s, t) && n <= |s.groups|
    ensures forall f :: f in Sequential(s, t, n) <==> exists i :: 0 <= i < n && f in s.groups[i]
  {
    if n > 0 {
      SequentialKeys(s, t, n - 1);
    }
  }

  /** A function met in an earlier group is in no later one. */
  lemma NotAgain(s: Schedule, t: Tasks, n: nat, i: nat, f: FuncId)
    requires TasksFit(s, t) && n <= i < |s.groups| && f in Sequential(s, t, n)
    ensures f !in s.groups[i]
  {
    hide Sequential;
    SequentialKeys(s, t, n);
  }

  /** A group leaves the slots of others alone. */
  lemma OthersKept(s: Schedule, t: Tasks, n: nat, f: FuncId)
    requires TasksFit(s, t) && n < |s.groups| && f !in s.groups[n] && f in Sequential(s, t, n)
    ensures f in Sequential(s, t, n + 1) && Sequential(s, t, n + 1)[f] == Sequential(s, t, n)[f]
  {
    hide CalleesFirst;
  }

  /** Once a group is done its slots do not change. */
  lemma {:induction false} SequentialStable(s: Schedule, t: Tasks, n: nat, n': nat, f: FuncId)
    requires TasksFit(s, t) && n <= n' <= |s.groups| && f in Sequential(s, t, n)
    ensures f in Sequential(s, t, n') && Sequential(s, t, n')[f] == Sequential(s, t, n)[f]
  {
    hide TasksFit, Sequential;
    if n < n' {
      SequentialStable(s, t, n, n' - 1, f);
      NotAgain(s, t, n, n' - 1, f);
      OthersKept(s, t, n' - 1, f);
    }
  }

  ghost function Final(s: Schedule, t: Tasks): Slots
    requires |s.groups| == |t.lookups|
  {
    Sequential(s, t, |s.groups|)
  }

  /** A group's result does not depend on more than the final slots of what it reads. */
  lemma GroupResult(s: Schedule, t: Tasks, i: nat)
    requires TasksFit(s, t) && i < |s.groups|
    ensures forall f :: f in s.groups[i] ==>
        f in Final(s, t) && Final(s, t)[f] == t.solve(i, Restricted(Final(s, t), t.lookups[i]))[f]
  {
    hide Sequential;
    var before := Sequential(s, t, i);
    assert Restricted(before, t.lookups[i]) == Restricted(Final(s, t), t.lookups[i]) by {
      forall f | f in t.lookups[i]
        ensures f in before <==> f in Final(s, t)
        ensures f in before ==> before[f] == Final(s, t)[f]
      {
        ReadSettled(s, t, i, f);
      }
    }
    forall f | f in s.groups[i]
      ensures f in Final(s, t) && Final(s, t)[f] == t.solve(i, Restricted(before, t.lookups[i]))[f]
    {
      SequentialStep(s, t, i, f);
      SequentialStable(s, t, i + 1, |s.groups|, f);
    }
  }

  lemma SequentialStep(s: Schedule, t: Tasks, i: nat, f: FuncId)
    requires TasksFit(s, t) && i < |s.groups| && f in s.groups[i]
    ensures f in Sequential(s, t, i + 1)
        && Sequential(s, t, i + 1)[f] == t.solve(i, Restricted(Sequential(s, t, i), t.lookups[i]))[f]
  {
  }

  lemma ReadSettled(s: Schedule, t: Tasks, i: nat, f: FuncId)
    requires TasksFit(s, t) && i < |s.groups| && f in t.lookups[i]
    ensures f in Sequential(s, t, i) <==> f in Final(s, t)
    ensures f in Sequential(s, t, i) ==> Sequential(s, t, i)[f] == Final(s, t)[f]
  {
    hide Sequential;
    SequentialKeys(s, t, i);
    SequentialKeys(s, t, |s.groups|);
    if f in Final(s, t) {
      var d :| 0 <= d < |s.groups| && f in s.groups[d];
      assert d in s.calleeGroups[i];
    }
    if f in Sequential(s, t, i) {
      SequentialStable(s, t, i, |s.groups|, f);
    }
  }

  // ---- interleavings ----

  /** What a running task has looked up so far; a lookup may find an empty slot. */
  type View = map<FuncId, Option<Summary>>

  datatype World = World(slots: Slots, views: seq<View>, done: set<nat>)

  datatype Event = Look(task: nat, func: FuncId) | Commit(task: nat)

  function SlotOf(slots: Slots, f: FuncId): Option<Summary> {
    if f in slots then Some(slots[f]) else None
  }

  function Noted(v: View, f: FuncId, s: Option<Summary>): View {
    v[f := s]
  }

  function Seen(v: View): Slots {
    map f | f in v && v[f].Some? :: v[f].value
  }

  ghost predicate Start(s: Schedule, w: World) {
    w.slots == map[] && w.done == {} && |w.views| == |s.groups| && forall i :: 0 <= i < |w.views| ==>
      w.views[i] == map[]
  }

  /** The wave barrier: a task runs only when every shallower task has finished. */
  ghost predicate MayRun(s: Schedule, depth: seq<nat>, w: World, i: nat) {
    i < |s.groups| == |depth| && i !in w.done && forall j :: 0 <= j < |depth| && depth[j] < depth[i] ==> j in w.done
  }

  /** One step of one task: looking up a slot as it is now, or filling its own once it has looked at all it needs. */
  ghost predicate Next(s: Schedule, t: Tasks, depth: seq<nat>, w: World, e: Event, w': World)
    requires |w.views| == |s.groups| == |t.lookups|
  {
    MayRun(s, depth, w, e.task)
    && match e
       case Look(i, f) => f in t.lookups[i] && w' == w.(views := w.views[i := Noted(w.views[i], f, SlotOf(w.slots, f))])
       case Commit(i) =>
         && t.lookups[i] <= w.views[i].Keys
         && w' == w.(slots := w.slots + t.solve(i, Seen(w.views[i])), done := w.done + {i})
  }

  /**
    Filled slots hold the sequential results, and so does everything looked up; nothing looked up was yet
    to be filled.
   */
  ghost predicate Sane(s: Schedule, t: Tasks, w: World)
    requires |s.groups| == |t.lookups|
  {
    && |w.views| == |s.groups|
    && (forall i: nat :: i in w.done ==> i < |s.groups|)
    && (forall f: FuncId :: f in w.slots <==> FilledBy(s, w, f))
    && (forall f: FuncId :: f in w.slots ==> f in Final(s, t) && w.slots[f] == Final(s, t)[f])
    && (forall i: nat :: i < |w.views| ==> TrueView(s, t, i, w.views[i]))
  }

  ghost predicate FilledBy(s: Schedule, w: World, f: FuncId) {
    exists i: nat :: i in w.done && i < |s.groups| && f in s.groups[i]
  }

  ghost predicate TrueView(s: Schedule, t: Tasks, i: nat, v: View)
    requires i < |s.groups| == |t.lookups|
  {
    forall f: FuncId :: f in v ==> f in t.lookups[i] && v[f] == SlotOf(Final(s, t), f)
  }

  /** A task that may run finds every slot it looks at filled, unless no group ever fills it. */
  lemma LooksAreSettled(s: Schedule, t: Tasks, depth: seq<nat>, w: World, i: nat, f: FuncId)
    requires TasksFit(s, t) && Depths(s, depth) && Sane(s, t, w) && MayRun(s, depth, w, i) && f in t.lookups[i]
    ensures SlotOf(w.slots, f) == SlotOf(Final(s, t), f)
  {
    hide Sequential;
    SequentialKeys(s, t, |s.groups|);
    if f in Final(s, t) {
      var d :| 0 <= d < |s.groups| && f in s.groups[d];
      var k :| 0 <= k < |s.calleeGroups[i]| && s.calleeGroups[i][k] == d;
      assert DepthAt(s.calleeGroups[i], depth, i);
      assert d in w.done;
    }
  }

  lemma ViewIsFinal(s: Schedule, t: Tasks, w: World, i: nat)
    requires |s.groups| == |t.lookups| && i < |s.groups| && Sane(s, t, w) && t.lookups[i] <= w.views[i].Keys
    ensures Seen(w.views[i]) == Restricted(Final(s, t), t.lookups[i])
  {
    hide Sequential;
    var v, final, fs := w.views[i], Final(s, t), t.lookups[i];
    assert TrueView(s, t, i, v);
    forall f: FuncId
      ensures f in Seen(v) <==> f in Restricted(final, fs)
      ensures f in Seen(v) ==> Seen(v)[f] == final[f]
    {
      if f in w.views[i] {
        assert v[f] == SlotOf(final, f);
      }
    }
    assert Seen(v).Keys == Restricted(final, fs).Keys;
  }

  lemma LookKeepsSane(s: Schedule, t: Tasks, w: World, i: nat, f: FuncId)
    requires |s.groups| == |t.lookups| && i < |s.groups| && Sane(s, t, w) && f in t.lookups[i]
        && SlotOf(w.slots, f) == SlotOf(Final(s, t), f)
    ensures Sane(s, t, w.(views := w.views[i := Noted(w.views[i], f, SlotOf(w.slots, f))]))
  {
    hide Sequential;
    var w' := w.(views := w.views[i := Noted(w.views[i], f, SlotOf(w.slots, f))]);
    assert TrueView(s, t, i, w'.views[i]);
    forall g: FuncId
      ensures FilledBy(s, w, g) <==> FilledBy(s, w', g)
    {
    }
  }

  lemma CommitKeepsSane(s: Schedule, t: Tasks, w: World, i: nat)
    requires TasksFit(s, t) && i < |s.groups| && Sane(s, t, w) && t.lookups[i] <= w.views[i].Keys
    ensures Sane(s, t, w.(slots := w.slots + t.solve(i, Seen(w.views[i])), done := w.done + {i}))
  {
    hide Sequential, Seen, Restricted;
    ViewIsFinal(s, t, w, i);
    GroupResult(s, t, i);
    var mine := t.solve(i, Seen(w.views[i]));
    var w' := w.(slots := w.slots + mine, done := w.done + {i});
    forall f: FuncId
      ensures f in w'.slots <==> FilledBy(s, w', f)
    {
      if f in mine {
        assert f in s.groups[i] && i in w'.done;
      } else if f in w.slots {
        var j: nat :| j in w.done && j < |s.groups| && f in s.groups[j];
        assert j in w'.done;
      }
    }
  }

  /** Every step keeps the invariant, whichever task takes it. */
  lemma StepKeepsSane(s: Schedule, t: Tasks, depth: seq<nat>, w: World, e: Event, w': World)
    requires TasksFit(s, t) && Depths(s, depth) && Sane(s, t, w) && Next(s, t, depth, w, e, w')
    ensures Sane(s, t, w')
  {
    hide Sequential;
    var i := e.task;
    match e
    case Look(_, f) =>
      LooksAreSettled(s, t, depth, w, i, f);
      LookKeepsSane(s, t, w, i, f);
    case Commit(_) =>
      CommitKeepsSane(s, t, w, i);
  }

  ghost predicate Execution(s: Schedule, t: Tasks, depth: seq<nat>, ws: seq<World>, es: seq<Event>) {
    && |s.groups| == |t.lookups| && |ws| == |es| + 1 && Start(s, ws[0])
    && forall k: nat :: k < |es| ==> |ws[k].views| == |s.groups| && Next(s, t, depth, ws[k], es[k], ws[k + 1])
  }

  lemma {:induction false} ExecutionSane(s: Schedule, t: Tasks, depth: seq<nat>, ws: seq<World>, es: seq<Event>, k: nat)
    requires TasksFit(s, t) && Depths(s, depth) && Execution(s, t, depth, ws, es) && k < |ws|
    ensures Sane(s, t, ws[k])
  {
    hide Sequential;
    if k > 0 {
      ExecutionSane(s, t, depth, ws, es, k - 1);
      StepKeepsSane(s, t, depth, ws[k - 1], es[k - 1], ws[k - 1 + 1]);
    }
  }

  /** In every execution, no lookup ever finds a slot that some group has yet to fill. */
  lemma NoEarlyLook(s: Schedule, t: Tasks, depth: seq<nat>, ws: seq<World>, es: seq<Event>, k: nat)
    requires TasksFit(s, t) && Depths(s, depth) && Execution(s, t, depth, ws, es) && k < |es| && es[k].Look?
    ensures (exists d :: 0 <= d < |s.groups| && es[k].func in s.groups[d]) ==> es[k].func in ws[k].slots
  {
    hide Sequential;
    ExecutionSane(s, t, depth, ws, es, k);
    assert Next(s, t, depth, ws[k], es[k], ws[k + 1]);
    LooksAreSettled(s, t, depth, ws[k], es[k].task, es[k].func);
    SequentialKeys(s, t, |s.groups|);
  }

  ghost predicate AllDone(s: Schedule, w: World) {
    forall i: nat :: i < |s.groups| ==> i in w.done
  }

  /** Any execution that finishes all tasks ends with the summaries of the sequential run. */
  lemma Deterministic(s: Schedule, t: Tasks, depth: seq<nat>, ws: seq<World>, es: seq<Event>)
    requires TasksFit(s, t) && Depths(s, depth) && Execution(s, t, depth, ws, es)
    requires AllDone(s, ws[|ws| - 1])
    ensures ws[|ws| - 1].slots == Final(s, t)
  {
    hide Sequential;
    ExecutionSane(s, t, depth, ws, es, |ws| - 1);
    SequentialKeys(s, t, |s.groups|);
    var w := ws[|ws| - 1];
    forall f
      ensures f in w.slots <==> f in Final(s, t)
    {
      if f in Final(s, t) {
        var d: nat :| d < |s.groups| && f in s.groups[d];
        assert d in w.done;
      }
    }
  }
}
