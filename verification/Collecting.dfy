/**
  Collecting one function's effects from its body and its callees' effects, and why more effects
  of the callees never give fewer of the caller.
 */
module Collecting {
  import opened Wrappers
  import opened Graphs
  import opened Ir
  import opened Locations
  import opened Effects

  // ---- blocks on a cycle ----

  /** The block can be left and come back to. */
  ghost predicate OnCycle(g: Graph, b: nat) {
    exists s: nat :: Edge(g, b, s) && Reaches(g, s, b)
  }

  /** x is reached from start in at least one step. */
  ghost predicate After(g: Graph, start: nat, x: nat) {
    exists s: nat :: Edge(g, start, s) && Reaches(g, s, x)
  }

  /** Everything marked can be reached again, and whatever follows a mark is marked or waiting. */
  ghost predicate Searching(g: Graph, start: nat, seen: set<nat>, stack: seq<nat>) {
    && (forall x :: x in seen ==> x < |g| && After(g, start, x))
    && (forall x :: x in stack ==> x < |g| && After(g, start, x))
    && (forall s: nat :: Edge(g, start, s) ==> s in seen || s in stack)
    && (forall x: nat, y: nat :: x in seen && Edge(g, x, y) ==> y in seen || y in stack)
    && start !in seen
  }

  lemma SearchFails(g: Graph, start: nat, seen: set<nat>)
    requires Searching(g, start, seen, [])
    ensures !OnCycle(g, start)
  {
    forall s: nat | Edge(g, start, s)
      ensures !Reaches(g, s, start)
    {
      if Reaches(g, s, start) {
        ClosedHoldsReachable(g, s, start, seen);
      }
    }
  }

  function InRangeOnly(g: Graph, succs: seq<nat>): (r: seq<nat>)
    ensures forall x :: x in r <==> x in succs && x < |g|
  {
    if succs == [] then [] else InRangeOnly(g, succs[..|succs| - 1]) + if succs[|succs| - 1] < |g|
      then [succs[|succs| - 1]] else []
  }

  lemma SearchStarts(g: Graph, start: nat)
    requires start < |g|
    ensures Searching(g, start, {}, InRangeOnly(g, g[start]))
  {
    forall x | x in InRangeOnly(g, g[start])
      ensures After(g, start, x)
    {
      ReachesSelf(g, x);
      assert Edge(g, start, x);
    }
  }

  /** Marking the block taken from the stack, its successors put in its place. */
  lemma SearchGoesOn(g: Graph, start: nat, seen: set<nat>, stack: seq<nat>, b: nat)
    requires Searching(g, start, seen, stack + [b]) && b < |g| && b != start && b !in seen
    ensures Searching(g, start, seen + {b}, stack + InRangeOnly(g, g[b]))
  {
    hide InRangeOnly, Reaches;
    assert b in stack + [b];
    var more := InRangeOnly(g, g[b]);
    forall x | x in stack + more
      ensures x < |g| && After(g, start, x)
    {
      if x in stack {
        assert x in stack + [b];
      } else {
        var s: nat :| Edge(g, start, s) && Reaches(g, s, b);
        EdgeReaches(g, b, x);
        ReachesTrans(g, s, b, x);
      }
    }
    forall s: nat | Edge(g, start, s)
      ensures s in seen + {b} || s in stack + InRangeOnly(g, g[b])
    {
      assert s in seen || s in stack + [b];
    }
    forall x: nat, y: nat | x in seen + {b} && Edge(g, x, y)
      ensures y in seen + {b} || y in stack + InRangeOnly(g, g[b])
    {
      if x != b {
        assert y in seen || y in stack + [b];
      }
    }
  }

  lemma SearchDrops(g: Graph, start: nat, seen: set<nat>, stack: seq<nat>, b: nat)
    requires Searching(g, start, seen, stack + [b]) && b in seen
    ensures Searching(g, start, seen, stack)
  {
    forall x | x in stack
      ensures x < |g| && After(g, start, x)
    {
      assert x in stack + [b];
    }
    forall s: nat | Edge(g, start, s)
      ensures s in seen || s in stack
    {
      assert s in seen || s in stack + [b];
    }
    forall x: nat, y: nat | x in seen && Edge(g, x, y)
      ensures y in seen || y in stack
    {
      assert y in seen || y in stack + [b];
    }
  }

  function Unseen(n: nat, seen: set<nat>): set<nat> {
    Ids(n) - seen
  }

  method ComesBack(g: Graph, start: nat) returns (r: bool)
    requires start < |g|
    ensures r <==> OnCycle(g, start)
  {
    hide Searching;
    var seen: set<nat> := {};
    var stack := InRangeOnly(g, g[start]);
    SearchStarts(g, start);
    while |stack| > 0
      invariant Searching(g, start, seen, stack)
      decreases Unseen(|g|, seen), |stack|
    {
      var b := stack[|stack| - 1];
      assert stack == stack[..|stack| - 1] + [b];
      StackTop(g, start, seen, stack);
      stack := stack[..|stack| - 1];
      if b == start {
        return true;
      }
      if b !in seen {
        SearchGoesOn(g, start, seen, stack, b);
        assert b in Unseen(|g|, seen) && b !in Unseen(|g|, seen + {b});
        seen := seen + {b};
        stack := stack + InRangeOnly(g, g[b]);
      } else {
        SearchDrops(g, start, seen, stack, b);
      }
    }
    SearchFails(g, start, seen);
    return false;
  }

  lemma StackTop(g: Graph, start: nat, seen: set<nat>, stack: seq<nat>)
    requires Searching(g, start, seen, stack) && |stack| > 0
    ensures stack[|stack| - 1] < |g| && After(g, start, stack[|stack| - 1])
  {
    assert stack[|stack| - 1] in stack;
  }

  method CyclicBlocks(f: Function) returns (cyclic: seq<bool>)
    ensures |cyclic| == |f.blocks|
    ensures forall b: nat :: b < |cyclic| ==> (cyclic[b] <==> OnCycle(Successors(f), b))
  {
    cyclic := [];
    for b := 0 to |f.blocks|
      invariant |cyclic| == b && forall a: nat :: a < b ==> (cyclic[a] <==> OnCycle(Successors(f), a))
    {
      var back := ComesBack(Successors(f), b);
      cyclic := cyclic + [back];
    }
  }

  // ---- closures ----

  type Captures = map<FuncId, Option<seq<ValueId>>>

  function CapturesWith(before: Captures, op: Op): Captures {
    match op
    case MakeClosure(_, c, bindings) => before[c := if c in before then None else Some(bindings)]
    case _ => before
  }

  function CapturesIn(before: Captures, instrs: seq<Op>): Captures {
    if instrs == [] then before else CapturesWith(CapturesIn(before, instrs[..|instrs| - 1]), instrs[|instrs| - 1])
  }

  /** What each closure made in the body captures; made twice, nothing is known. */
  function CapturesOf(f: Function, n: nat): Captures
    requires n <= |f.blocks|
  {
    if n == 0 then map[] else CapturesIn(CapturesOf(f, n - 1), f.blocks[n - 1].instrs)
  }

  method ClosureBindings(f: Function) returns (m: Captures)
    ensures m == CapturesOf(f, |f.blocks|)
  {
    m := map[];
    for b := 0 to |f.blocks|
      invariant m == CapturesOf(f, b)
    {
      var instrs := f.blocks[b].instrs;
      for i := 0 to |instrs|
        invariant m == CapturesIn(CapturesOf(f, b), instrs[..i])
      {
        assert instrs[..i + 1][..i] == instrs[..i];
        match instrs[i]
        case MakeClosure(_, c, bindings) =>
          if c in m {
            m := m[c := None];
          } else {
            m := m[c := Some(bindings)];
          }
        case _ =>
      }
      assert instrs[..|instrs|] == instrs;
    }
  }

  function ArgFrame(f: Function, args: seq<ValueId>): Frame {
    (i: nat) => if i < |args| then LocOf(f, args[i]) else UNKNOWN
  }

  function CaptureFrame(f: Function, captures: Captures, c: FuncId): Frame {
    (i: nat) => if c in captures && captures[c].Some? && i < |captures[c].value| then LocOf(f, captures[c].value[i])
      else UNKNOWN
  }

  function NowhereFrame(): Frame {
    (i: nat) => UNKNOWN
  }

  // ---- effects of one instruction ----

  /** Bodies, which functions are lock methods of the standard library, and call-graph edges. */
  datatype World = World(bodies: map<FuncId, Function>, lockMethods: map<FuncId, LockKind>,
                         callees: map<FuncId, seq<FuncId>>)

  type Env = FuncId -> Effects

  function ChanAt(l: Loc, op: ChanOp): Effects {
    Effects(NoSpawns, map[l := {op}], map[])
  }

  function LockAt(l: Loc, op: LockOp): Effects {
    Effects(NoSpawns, map[], map[l := {op}])
  }

  function SpawnsOnly(s: Spawns): Effects {
    Effects(s, map[], map[])
  }

  function LockOpOf(k: LockKind): LockOp {
    match k
    case LockK => LockedOp
    case UnlockK => UnlockedOp
    case RLockK => RLockedOp
    case RUnlockK => RUnlockedOp
  }

  /** A deferred unlock happens at exit. */
  function Deferred(op: LockOp): LockOp {
    match op
    case UnlockedOp => DeferredUnlockOp
    case RUnlockedOp => DeferredRUnlockOp
    case _ => op
  }

  /** What a call contributes: the callee's effects, re-rooted through arguments and captures. */
  function CallEffects(f: Function, captures: Captures, c: FuncId, args: seq<ValueId>, env: Env): Effects {
    Rebase(env(c), ArgFrame(f, args), CaptureFrame(f, captures, c))
  }

  function GoDeferEffects(w: World, f: Function, captures: Captures, callee: Callee, args: seq<ValueId>,
                          isDefer: bool, env: Env): Effects {
    if callee == Builtin("close") then ChanAt(ArgFrame(f, args)(0), CloseOp)
    else if callee.Static? then
      if callee.func in w.lockMethods then
        var op := LockOpOf(w.lockMethods[callee.func]);
        LockAt(ArgFrame(f, args)(0), if isDefer then Deferred(op) else op)
      else CallEffects(f, captures, callee.func, args, env)
    else EMPTY
  }

  function ArmEffects(f: Function, arms: seq<SelectArm>): Effects {
    if arms == [] then EMPTY else Joined(ArmEffects(f, arms[..|arms| - 1]),
      ChanAt(LocOf(f, arms[|arms| - 1].chan), SelectOp))
  }

  function InstrEffects(w: World, f: Function, captures: Captures, cyclic: bool, op: Op, env: Env): Effects {
    match op
    case Make(dst, MakeChan, _) => ChanAt(LocOf(f, dst), MakeOp)
    case Send(ch, _) => ChanAt(LocOf(f, ch), SendOp)
    case Recv(_, ch) => ChanAt(LocOf(f, ch), RecvOp)
    case CloseChan(ch) => ChanAt(LocOf(f, ch), CloseOp)
    case Select(_, arms, _) => ArmEffects(f, arms)
    case Lock(kind, mu) => LockAt(LocOf(f, mu), LockOpOf(kind))
    case Call(_, Static(c), args) => CallEffects(f, captures, c, args, env)
    case Go(callee, args) =>
      Joined(SpawnsOnly(if cyclic then Unbounded else Bounded),
        GoDeferEffects(w, f, captures, callee, args, false, env))
    case Defer(callee, args) => GoDeferEffects(w, f, captures, callee, args, true, env)
    case _ => EMPTY
  }

  function StaticSite(op: Op): set<FuncId> {
    match op
    case Call(_, Static(c), _) => {c}
    case Go(Static(c), _) => {c}
    case Defer(Static(c), _) => {c}
    case _ => {}
  }

  function StaticIn(instrs: seq<Op>): set<FuncId> {
    if instrs == [] then {} else StaticIn(instrs[..|instrs| - 1]) + StaticSite(instrs[|instrs| - 1])
  }

  function StaticOf(f: Function, n: nat): set<FuncId>
    requires n <= |f.blocks|
  {
    if n == 0 then {} else StaticOf(f, n - 1) + StaticIn(f.blocks[n - 1].instrs)
  }

  // ---- effects of a body ----

  function BlockEffects(w: World, f: Function, captures: Captures, cyclic: bool, start: Effects, instrs: seq<Op>,
                        env: Env): Effects {
    if instrs == [] then start
    else
      Joined(BlockEffects(w, f, captures, cyclic, start, instrs[..|instrs| - 1], env),
             InstrEffects(w, f, captures, cyclic, instrs[|instrs| - 1], env))
  }

  function BodyEffects(w: World, f: Function, captures: Captures, cyclic: seq<bool>, n: nat, env: Env): Effects
    requires n <= |f.blocks| == |cyclic|
  {
    if n == 0 then EMPTY
    else BlockEffects(w, f, captures, cyclic[n - 1], BodyEffects(w, f, captures, cyclic, n - 1, env),
      f.blocks[n - 1].instrs, env)
  }

  /** Callees the call graph knows beyond the static sites: their effects, nowhere in particular. */
  function DispatchEffects(start: Effects, callees: seq<FuncId>, known: set<FuncId>, env: Env): Effects {
    if callees == [] then start
    else
      var before := DispatchEffects(start, callees[..|callees| - 1], known, env);
      var c := callees[|callees| - 1];
      if c in known then before else Joined(before, Rebase(env(c), NowhereFrame(), NowhereFrame()))
  }

  function CalleesOf(w: World, id: FuncId): seq<FuncId> {
    if id in w.callees then w.callees[id] else []
  }

  ghost function CyclesOf(f: Function): (r: seq<bool>)
    ensures |r| == |f.blocks|
  {
    seq(|f.blocks|, b requires 0 <= b < |f.blocks| => OnCycle(Successors(f), b))
  }

  /** Everything a function may do, given what its callees may do; without a body, anything. */
  ghost function Collected(w: World, id: FuncId, env: Env): Effects {
    if id !in w.bodies then TOP
    else
      var f := w.bodies[id];
      var own := BodyEffects(w, f, CapturesOf(f, |f.blocks|), CyclesOf(f), |f.blocks|, env);
      DispatchEffects(own, CalleesOf(w, id), StaticOf(f, |f.blocks|), env)
  }

  // ---- the accumulator ----

  class Gathering {
    var spawns: Spawns
    var chanOps: Table<ChanOp>
    var lockOps: Table<LockOp>

    constructor ()
      ensures Value() == EMPTY
    {
      spawns, chanOps, lockOps := NoSpawns, map[], map[];
    }

    function Value(): Effects
      reads this
    {
      Effects(spawns, chanOps, lockOps)
    }

    method Join(other: Effects)
      modifies this
      ensures Value() == Joined(old(Value()), other)
    {
      spawns := spawns.Max(other.spawns);
      chanOps := MergeInto(chanOps, other.chanOps);
      lockOps := MergeInto(lockOps, other.lockOps);
    }

    method AddChan(l: Loc, op: ChanOp)
      modifies this`chanOps
      ensures Value() == Joined(old(Value()), ChanAt(l, op))
    {
      MergedOne(chanOps, l, op);
      MergedNone(lockOps);
      chanOps := chanOps[l := At(chanOps, l) + {op}];
    }

    method AddLock(l: Loc, op: LockOp)
      modifies this`lockOps
      ensures Value() == Joined(old(Value()), LockAt(l, op))
    {
      MergedOne(lockOps, l, op);
      MergedNone(chanOps);
      lockOps := lockOps[l := At(lockOps, l) + {op}];
    }

    method JoinArms(f: Function, arms: seq<SelectArm>)
      modifies this
      ensures Value() == Joined(old(Value()), ArmEffects(f, arms))
    {
      JoinEmpty(Value());
      for k := 0 to |arms|
        invariant Value() == Joined(old(Value()), ArmEffects(f, arms[..k]))
      {
        assert arms[..k + 1][..k] == arms[..k];
        var l := ResolveLoc(f, arms[k].chan);
        JoinIsLeast(old(Value()), ArmEffects(f, arms[..k]), ChanAt(l, SelectOp));
        AddChan(l, SelectOp);
      }
      assert arms[..|arms|] == arms;
    }

    method JoinCall(f: Function, captures: Captures, c: FuncId, args: seq<ValueId>, env: Env)
      modifies this
      ensures Value() == Joined(old(Value()), CallEffects(f, captures, c, args, env))
    {
      var e := RebaseEffects(env(c), ArgFrame(f, args), CaptureFrame(f, captures, c));
      Join(e);
    }

    /**
      The callee of a go or defer: closing a channel and lock methods act here, other functions through
      their effects.
     */
    method JoinGoDefer(w: World, f: Function, captures: Captures, callee: Callee, args: seq<ValueId>, isDefer: bool,
                       env: Env)
      modifies this
      ensures Value() == Joined(old(Value()), GoDeferEffects(w, f, captures, callee, args, isDefer, env))
    {
      hide CallEffects;
      JoinEmpty(Value());
      match callee
      case Builtin(name) =>
        if name == "close" {
          AddChan(ArgFrame(f, args)(0), CloseOp);
        }
      case Static(c) =>
        if c in w.lockMethods {
          var op := LockOpOf(w.lockMethods[c]);
          AddLock(ArgFrame(f, args)(0), if isDefer then Deferred(op) else op);
        } else {
          JoinCall(f, captures, c, args, env);
        }
      case _ =>
    }

    method RecordChan(f: Function, v: ValueId, op: ChanOp)
      modifies this
      ensures Value() == Joined(old(Value()), ChanAt(LocOf(f, v), op))
    {
      var l := ResolveLoc(f, v);
      AddChan(l, op);
    }

    method JoinInstr(w: World, f: Function, captures: Captures, cyclic: bool, op: Op, env: Env)
      modifies this
      ensures Value() == Joined(old(Value()), InstrEffects(w, f, captures, cyclic, op, env))
    {
      hide CallEffects, GoDeferEffects, ArmEffects, LocOf, Joined, ChanAt, LockAt, OpDst;
      JoinEmpty(Value());
      if op.Make? {
        if op.makeKind == MakeChan {
          RecordChan(f, op.dst, MakeOp);
        }
      } else if op.Send? {
        RecordChan(f, op.chan, SendOp);
      } else if op.Recv? {
        RecordChan(f, op.chan, RecvOp);
      } else if op.CloseChan? {
        RecordChan(f, op.chan, CloseOp);
      } else if op.Select? {
        JoinArms(f, op.arms);
      } else if op.Lock? {
        var l := ResolveLoc(f, op.mu);
        AddLock(l, LockOpOf(op.lockKind));
      } else if op.Call? {
        if op.callee.Static? {
          JoinCall(f, captures, op.callee.func, op.args, env);
        }
      } else if op.Go? {
        JoinGo(w, f, captures, cyclic, op.callee, op.args, env);
      } else if op.Defer? {
        JoinGoDefer(w, f, captures, op.callee, op.args, true, env);
      }
    }

    method JoinGo(w: World, f: Function, captures: Captures, cyclic: bool, callee: Callee, args: seq<ValueId>, env: Env)
      modifies this
      ensures Value() == Joined(old(Value()),
          Joined(SpawnsOnly(if cyclic then Unbounded else Bounded),
          GoDeferEffects(w, f, captures, callee, args, false, env)))
    {
      hide GoDeferEffects, Joined;
      var s := if cyclic then Unbounded else Bounded;
      JoinIsLeast(Value(), SpawnsOnly(s), GoDeferEffects(w, f, captures, callee, args, false, env));
      Spawn(s);
      JoinGoDefer(w, f, captures, callee, args, false, env);
    }

    method Spawn(s: Spawns)
      modifies this`spawns
      ensures Value() == Joined(old(Value()), SpawnsOnly(s))
    {
      MergedNone(chanOps);
      MergedNone(lockOps);
      spawns := spawns.Max(s);
    }
  }

  lemma MergedOne<T>(m: Table<T>, l: Loc, op: T)
    ensures Merged(m, map[l := {op}]) == m[l := At(m, l) + {op}]
  {
    MergedSame(m, map[l := {op}], m[l := At(m, l) + {op}]);
  }

  lemma MergedNone<T>(m: Table<T>)
    ensures Merged(m, map[]) == m && Merged(map[], m) == m
  {
    MergedSame(m, map[], m);
    MergedSame(map[], m, m);
  }

  /** Adds the entries of b to a, one location at a time. */
  method MergeInto<T>(a: Table<T>, b: Table<T>) returns (r: Table<T>)
    ensures r == Merged(a, b)
  {
    hide Merged;
    r := a;
    var todo := b.Keys;
    while todo != {}
      invariant todo <= b.Keys
      invariant forall l :: l in r <==> l in a || (l in b && l !in todo)
      invariant forall l :: l in r ==> r[l] == At(a, l) + if l in todo then {} else At(b, l)
      decreases |todo|
    {
      var l :| l in todo;
      r := r[l := At(r, l) + b[l]];
      todo := todo - {l};
    }
    MergedSame(a, b, r);
  }

  /** Re-roots a table, one location at a time. */
  method RebaseMap<T>(m: Table<T>, arg: Frame, fv: Frame) returns (r: Table<T>)
    ensures r == RebaseTable(m, arg, fv)
  {
    hide RebaseLoc, RebaseTable;
    r := map[];
    var todo := m.Keys;
    while todo != {}
      invariant todo <= m.Keys
      invariant forall l :: l in m && l !in todo ==> RebaseLoc(l, arg, fv) in r && m[l] <= r[RebaseLoc(l, arg, fv)]
      invariant forall l, o :: l in r && o in r[l] ==> exists l' :: l' in m && RebaseLoc(l', arg, fv) == l && o in m[l']
      invariant forall l :: l in r ==> exists l' :: l' in m && RebaseLoc(l', arg, fv) == l
      decreases |todo|
    {
      var l :| l in todo;
      var l2 := RebaseLoc(l, arg, fv);
      r := r[l2 := At(r, l2) + m[l]];
      todo := todo - {l};
    }
    RebaseTableIs(m, arg, fv, r);
  }

  method RebaseEffects(e: Effects, arg: Frame, fv: Frame) returns (r: Effects)
    ensures r == Rebase(e, arg, fv)
  {
    var chan := RebaseMap(e.chanOps, arg, fv);
    var lock := RebaseMap(e.lockOps, arg, fv);
    r := Effects(e.spawns, chan, lock);
  }

  lemma JoinEmpty(e: Effects)
    ensures Joined(e, EMPTY) == e
  {
    MergedNone(e.chanOps);
    MergedNone(e.lockOps);
  }

  /** Scans the body once, then joins the callees only the call graph knows. */
  method Collect(w: World, id: FuncId, env: Env) returns (e: Effects)
    ensures e == Collected(w, id, env)
  {
    hide BodyEffects, StaticOf, Joined, Rebase;
    if id !in w.bodies {
      return TOP;
    }
    var f := w.bodies[id];
    var cyclic := CyclicBlocks(f);
    assert cyclic == CyclesOf(f);
    var captures := ClosureBindings(f);
    var g := new Gathering();
    var known := CollectBody(w, f, captures, cyclic, env, g);
    var callees := CalleesOf(w, id);
    ghost var own := g.Value();
    assert callees[..0] == [];
    for k := 0 to |callees|
      invariant g.Value() == DispatchEffects(own, callees[..k], known, env)
    {
      assert callees[..k + 1][..k] == callees[..k];
      var c := callees[k];
      if c !in known {
        var there := RebaseEffects(env(c), NowhereFrame(), NowhereFrame());
        g.Join(there);
      }
    }
    assert callees[..|callees|] == callees;
    e := g.Value();
  }

  method CollectBody(w: World, f: Function, captures: Captures, cyclic: seq<bool>, env: Env, g: Gathering)
      returns (known: set<FuncId>)
    requires |cyclic| == |f.blocks| && g.Value() == EMPTY
    modifies g
    ensures g.Value() == BodyEffects(w, f, captures, cyclic, |f.blocks|, env)
    ensures known == StaticOf(f, |f.blocks|)
  {
    hide BlockEffects, StaticIn;
    known := {};
    for b := 0 to |f.blocks|
      invariant g.Value() == BodyEffects(w, f, captures, cyclic, b, env)
      invariant known == StaticOf(f, b)
    {
      known := CollectBlock(w, f, captures, cyclic[b], f.blocks[b].instrs, env, g, known);
    }
  }

  method CollectBlock(w: World, f: Function, captures: Captures, cyclic: bool, instrs: seq<Op>, env: Env,
                      g: Gathering, known: set<FuncId>)
      returns (known': set<FuncId>)
    modifies g
    ensures g.Value() == BlockEffects(w, f, captures, cyclic, old(g.Value()), instrs, env)
    ensures known' == known + StaticIn(instrs)
  {
    hide InstrEffects, Joined;
    known' := known;
    for i := 0 to |instrs|
      invariant g.Value() == BlockEffects(w, f, captures, cyclic, old(g.Value()), instrs[..i], env)
      invariant known' == known + StaticIn(instrs[..i])
    {
      assert instrs[..i + 1][..i] == instrs[..i];
      g.JoinInstr(w, f, captures, cyclic, instrs[i], env);
      known' := known' + StaticSite(instrs[i]);
    }
    assert instrs[..|instrs|] == instrs;
  }

  // ---- monotone in the callees ----

  ghost predicate EnvLeq(a: Env, b: Env) {
    forall c: FuncId :: Leq(a(c), b(c))
  }

  /** A relation between effects that is preserved the way collecting builds them up. */
  datatype Compared = AtMost | CoveredBy

  ghost predicate Related(r: Compared, a: Effects, b: Effects) {
    match r
    case AtMost => Leq(a, b)
    case CoveredBy => Covers(b, a)
  }

  ghost predicate EnvRelated(r: Compared, a: Env, b: Env) {
    forall c: FuncId :: Related(r, a(c), b(c))
  }

  lemma RelatedSelf(r: Compared, a: Effects)
    ensures Related(r, a, a)
  {
    LeqOrder(a, a, a);
    CoversOrder(a, a, a);
  }

  lemma RelatedJoin(r: Compared, a: Effects, a': Effects, b: Effects, b': Effects)
    requires Related(r, a, a') && Related(r, b, b')
    ensures Related(r, Joined(a, b), Joined(a', b'))
  {
    match r
    case AtMost => JoinMonotone(a, b, a', b');
    case CoveredBy =>
      CoversMerged(a'.chanOps, a.chanOps, b'.chanOps, b.chanOps);
      CoversMerged(a'.lockOps, a.lockOps, b'.lockOps, b.lockOps);
  }

  lemma CoversMerged<T>(big1: Table<T>, small1: Table<T>, big2: Table<T>, small2: Table<T>)
    requires TableCovers(big1, small1) && TableCovers(big2, small2)
    ensures TableCovers(Merged(big1, big2), Merged(small1, small2))
  {
    hide Merged;
    forall l, o | l in Merged(small1, small2) && o in Merged(small1, small2)[l]
      ensures o in At(Merged(big1, big2), l) || o in At(Merged(big1, big2), UNKNOWN)
    {
      MergedHas(small1, small2, l);
      MergedHas(big1, big2, l);
      MergedHas(big1, big2, UNKNOWN);
      if o in At(small1, l) {
        assert o in At(big1, l) || o in At(big1, UNKNOWN);
      } else {
        assert o in small2[l];
        assert o in At(big2, l) || o in At(big2, UNKNOWN);
      }
    }
  }

  lemma RelatedRebase(r: Compared, a: Effects, b: Effects, arg: Frame, fv: Frame)
    requires Related(r, a, b)
    ensures Related(r, Rebase(a, arg, fv), Rebase(b, arg, fv))
  {
    match r
    case AtMost => RebaseMonotone(a, b, arg, fv);
    case CoveredBy =>
      assert Degrades(arg, arg) && Degrades(fv, fv);
      RebaseCovers(b, a, arg, fv, arg, fv);
  }

  lemma InstrRelated(r: Compared, w: World, f: Function, captures: Captures, cyclic: bool, op: Op, env: Env, env': Env)
    requires EnvRelated(r, env, env')
    ensures Related(r, InstrEffects(w, f, captures, cyclic, op, env), InstrEffects(w, f, captures, cyclic, op, env'))
  {
    hide Related, Rebase, Joined, ArmEffects, LocOf;
    RelatedSelf(r, InstrEffects(w, f, captures, cyclic, op, env));
    if op.Call? && op.callee.Static? {
      RelatedRebase(r, env(op.callee.func), env'(op.callee.func), ArgFrame(f, op.args),
        CaptureFrame(f, captures, op.callee.func));
    } else if op.Go? {
      var s := SpawnsOnly(if cyclic then Unbounded else Bounded);
      GoDeferRelated(r, w, f, captures, op.callee, op.args, false, env, env');
      RelatedSelf(r, s);
      RelatedJoin(r, s, s, GoDeferEffects(w, f, captures, op.callee, op.args, false, env),
        GoDeferEffects(w, f, captures, op.callee, op.args, false, env'));
    } else if op.Defer? {
      GoDeferRelated(r, w, f, captures, op.callee, op.args, true, env, env');
    }
  }

  lemma GoDeferRelated(r: Compared, w: World, f: Function, captures: Captures, callee: Callee, args: seq<ValueId>,
                       isDefer: bool, env: Env, env': Env)
    requires EnvRelated(r, env, env')
    ensures Related(r, GoDeferEffects(w, f, captures, callee, args, isDefer, env),
        GoDeferEffects(w, f, captures, callee, args, isDefer, env'))
  {
    hide Related, Rebase;
    RelatedSelf(r, GoDeferEffects(w, f, captures, callee, args, isDefer, env));
    if callee.Static? && callee.func !in w.lockMethods {
      RelatedRebase(r, env(callee.func), env'(callee.func), ArgFrame(f, args), CaptureFrame(f, captures, callee.func));
    }
  }

  lemma {:induction false} BlockRelated(r: Compared, w: World, f: Function, captures: Captures, cyclic: bool,
                                        start: Effects, start': Effects, instrs: seq<Op>, env: Env, env': Env)
    requires EnvRelated(r, env, env') && Related(r, start, start')
    ensures Related(r, BlockEffects(w, f, captures, cyclic, start, instrs, env),
        BlockEffects(w, f, captures, cyclic, start', instrs, env'))
  {
    hide Related, Joined, InstrEffects;
    if instrs != [] {
      var before, op := instrs[..|instrs| - 1], instrs[|instrs| - 1];
      BlockRelated(r, w, f, captures, cyclic, start, start', before, env, env');
      InstrRelated(r, w, f, captures, cyclic, op, env, env');
      RelatedJoin(r, BlockEffects(w, f, captures, cyclic, start, before, env),
        BlockEffects(w, f, captures, cyclic, start', before, env'),
                  InstrEffects(w, f, captures, cyclic, op, env), InstrEffects(w, f, captures, cyclic, op, env'));
    }
  }

  lemma {:induction false} BodyRelated(r: Compared, w: World, f: Function, captures: Captures, cyclic: seq<bool>,
                                       n: nat, env: Env, env': Env)
    requires n <= |f.blocks| == |cyclic| && EnvRelated(r, env, env')
    ensures Related(r, BodyEffects(w, f, captures, cyclic, n, env), BodyEffects(w, f, captures, cyclic, n, env'))
  {
    hide Related, BlockEffects;
    if n == 0 {
      RelatedSelf(r, EMPTY);
    } else {
      BodyRelated(r, w, f, captures, cyclic, n - 1, env, env');
      BlockRelated(r, w, f, captures, cyclic[n - 1], BodyEffects(w, f, captures, cyclic, n - 1, env),
        BodyEffects(w, f, captures, cyclic, n - 1, env'),
                   f.blocks[n - 1].instrs, env, env');
    }
  }

  lemma {:induction false} DispatchRelated(r: Compared, start: Effects, start': Effects, callees: seq<FuncId>,
                                           known: set<FuncId>, env: Env, env': Env)
    requires EnvRelated(r, env, env') && Related(r, start, start')
    ensures Related(r, DispatchEffects(start, callees, known, env), DispatchEffects(start', callees, known, env'))
  {
    hide Related, Joined, Rebase;
    if callees != [] {
      var before, c := callees[..|callees| - 1], callees[|callees| - 1];
      DispatchRelated(r, start, start', before, known, env, env');
      RelatedRebase(r, env(c), env'(c), NowhereFrame(), NowhereFrame());
      RelatedJoin(r, DispatchEffects(start, before, known, env), DispatchEffects(start', before, known, env'),
                  Rebase(env(c), NowhereFrame(), NowhereFrame()), Rebase(env'(c), NowhereFrame(), NowhereFrame()));
    }
  }

  /**
    More effects of the callees give more of the caller, and effects that cover the callees' cover
    the caller's: giving up on a callee can only add reasons to stay silent.
   */
  lemma CollectRelated(r: Compared, w: World, id: FuncId, env: Env, env': Env)
    requires EnvRelated(r, env, env')
    ensures Related(r, Collected(w, id, env), Collected(w, id, env'))
  {
    hide Related, BodyEffects, DispatchEffects;
    if id !in w.bodies {
      RelatedSelf(r, TOP);
    } else {
      var f := w.bodies[id];
      var captures, cyclic := CapturesOf(f, |f.blocks|), CyclesOf(f);
      BodyRelated(r, w, f, captures, cyclic, |f.blocks|, env, env');
      DispatchRelated(r, BodyEffects(w, f, captures, cyclic, |f.blocks|, env),
        BodyEffects(w, f, captures, cyclic, |f.blocks|, env'),
                      CalleesOf(w, id), StaticOf(f, |f.blocks|), env, env');
    }
  }

  lemma CollectMonotone(w: World, id: FuncId, env: Env, env': Env)
    requires EnvLeq(env, env')
    ensures Leq(Collected(w, id, env), Collected(w, id, env'))
  {
    hide Leq, Collected;
    assert EnvRelated(AtMost, env, env');
    CollectRelated(AtMost, w, id, env, env');
  }
}
