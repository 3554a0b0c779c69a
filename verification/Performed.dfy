/**
  What a function does, instruction by instruction, beside what collecting records of it: every
  recorded operation is performed somewhere, every performed operation is recorded, and each at the
  location the caller knows it by.
 */
module Performed {
  import opened Wrappers
  import opened Graphs
  import opened Ir
  import opened Encoding
  import opened Locations
  import opened Effects
  import opened Collecting

  // ---- what an instruction does ----

  /** A channel operation, a lock operation, or spawning: at all, or without bound. */
  datatype Act = OnChan(chanOp: ChanOp) | OnLock(lockOp: LockOp) | Spawn(unbounded: bool)

  function FirstOf(args: seq<ValueId>): Option<ValueId> {
    if |args| > 0 then Some(args[0]) else None
  }

  /** A call started in another goroutine or put off to the exit. */
  predicate PutOff(op: Op) {
    op.Go? || op.Defer?
  }

  /** The channel operation on a register; a close without an argument is on none. */
  ghost predicate ActsOnChan(op: Op, o: ChanOp, v: Option<ValueId>) {
    match o
    case MakeOp => op.Make? && op.makeKind == MakeChan && v == Some(op.dst)
    case SendOp => op.Send? && v == Some(op.chan)
    case RecvOp => op.Recv? && v == Some(op.chan)
    case CloseOp =>
      || (op.CloseChan? && v == Some(op.chan))
      || (PutOff(op) && op.callee == Builtin("close") && v == FirstOf(op.args))
    case SelectOp => op.Select? && exists arm :: arm in op.arms && v == Some(arm.chan)
  }

  /** An unlock put off to the exit is told from one made on the way. */
  predicate LocksAs(kind: LockKind, atExit: bool, o: LockOp) {
    match o
    case LockedOp => kind == LockK
    case RLockedOp => kind == RLockK
    case UnlockedOp => kind == UnlockK && !atExit
    case RUnlockedOp => kind == RUnlockK && !atExit
    case DeferredUnlockOp => kind == UnlockK && atExit
    case DeferredRUnlockOp => kind == RUnlockK && atExit
  }

  /** The lock operation on a register: an intrinsic one, or a lock method started or put off. */
  predicate ActsOnLock(w: World, op: Op, o: LockOp, v: Option<ValueId>) {
    || (op.Lock? && LocksAs(op.lockKind, false, o) && v == Some(op.mu))
    || (PutOff(op) && op.callee.Static? && op.callee.func in w.lockMethods
        && LocksAs(w.lockMethods[op.callee.func], op.Defer?, o) && v == FirstOf(op.args))
  }

  /** The instruction itself performs the act, on a register if it is an act on something. */
  ghost predicate Performs(w: World, f: Function, s: Site, a: Act, v: Option<ValueId>)
    requires IsSite(f, s)
  {
    match a
    case OnChan(o) => ActsOnChan(OpAt(f, s), o, v)
    case OnLock(o) => ActsOnLock(w, OpAt(f, s), o, v)
    case Spawn(unbounded) => OpAt(f, s).Go? && (unbounded ==> OnCycle(Successors(f), s.0)) && v == None
  }

  function PlaceOf(f: Function, v: Option<ValueId>): Loc {
    if v.Some? then LocOf(f, v.value) else UNKNOWN
  }

  /** The instruction has the function run on the arguments, and the function is not a lock method put off. */
  predicate Runs(w: World, op: Op, c: FuncId, args: seq<ValueId>) {
    || (op.Call? && op.callee == Static(c) && args == op.args)
    || (PutOff(op) && op.callee == Static(c) && c !in w.lockMethods && args == op.args)
  }

  /** The instruction names the function. */
  predicate Names(op: Op, c: FuncId) {
    (op.Call? || PutOff(op)) && op.callee == Static(c)
  }

  /** The call graph has the function as a callee, though no instruction names it. */
  ghost predicate Dispatched(w: World, id: FuncId, f: Function, c: FuncId) {
    && id in w.callees && c in w.callees[id]
    && forall s: Site :: IsSite(f, s) ==> !Names(OpAt(f, s), c)
  }

  // ---- where the caller sees it ----

  /** That part of the base, if the base is known and the part is not too deep. */
  function Part(base: Loc, path: seq<nat>): Loc {
    if base.root.UnknownRoot? || |base.path| + |path| > MAX_LOC_DEPTH then UNKNOWN
    else Loc(base.root, base.path + path)
  }

  predicate MakesClosure(f: Function, s: Site, c: FuncId) {
    IsSite(f, s) && OpAt(f, s).MakeClosure? && OpAt(f, s).func == c
  }

  /** The body makes the closure at this one place. */
  ghost predicate OnlyClosure(f: Function, s: Site, c: FuncId) {
    MakesClosure(f, s, c) && forall s': Site :: MakesClosure(f, s', c) ==> s' == s
  }

  /** Register number i captured by the closure, if it is known. */
  ghost predicate Captured(f: Function, c: FuncId, i: nat, v: ValueId) {
    exists s: Site :: OnlyClosure(f, s, c) && i < |OpAt(f, s).bindings| && OpAt(f, s).bindings[i] == v
  }

  /** What the callee has at `inner` the caller has at `l`. */
  ghost predicate SeenAt(f: Function, c: FuncId, args: seq<ValueId>, inner: Loc, l: Loc) {
    match inner.root
    case GlobalRoot(_) => l == inner
    case ParamRoot(i) => l == if i < |args| then Part(LocOf(f, args[i]), inner.path) else UNKNOWN
    case FreeVarRoot(i) =>
      || (exists v :: Captured(f, c, i, v) && l == Part(LocOf(f, v), inner.path))
      || ((forall v :: !Captured(f, c, i, v)) && l == UNKNOWN)
    case _ => l == UNKNOWN
  }

  /** Of a callee that is not named, only globals are known. */
  predicate SeenAnyway(inner: Loc, l: Loc) {
    l == if inner.root.GlobalRoot? then inner else UNKNOWN
  }

  // ---- what effects say ----

  predicate Records(e: Effects, a: Act, l: Loc) {
    match a
    case OnChan(o) => o in At(e.chanOps, l)
    case OnLock(o) => o in At(e.lockOps, l)
    case Spawn(unbounded) => l == UNKNOWN && (if unbounded then e.spawns == Unbounded else e.spawns != NoSpawns)
  }

  ghost predicate DoesItself(w: World, f: Function, s: Site, a: Act, l: Loc)
    requires IsSite(f, s)
  {
    exists v :: Performs(w, f, s, a, v) && l == PlaceOf(f, v)
  }

  /** A function run on the arguments does it, as the caller sees it. */
  ghost predicate DoesInside(f: Function, env: Env, c: FuncId, args: seq<ValueId>, a: Act, l: Loc) {
    exists inner :: Records(env(c), a, inner) && SeenAt(f, c, args, inner, l)
  }

  /** The instruction does it, or a function it runs. */
  ghost predicate DoneBy(w: World, f: Function, s: Site, env: Env, a: Act, l: Loc)
    requires IsSite(f, s)
  {
    DoesItself(w, f, s, a, l) || exists c, args :: Runs(w, OpAt(f, s), c, args) && DoesInside(f, env, c, args, a, l)
  }

  ghost predicate DoneElsewhere(w: World, id: FuncId, f: Function, env: Env, a: Act, l: Loc) {
    exists c, inner :: Dispatched(w, id, f, c) && Records(env(c), a, inner) && SeenAnyway(inner, l)
  }

  lemma RecordsJoined(e: Effects, e': Effects, a: Act, l: Loc)
    ensures Records(Joined(e, e'), a, l) <==> Records(e, a, l) || Records(e', a, l)
  {
    hide Merged;
    MergedHas(e.chanOps, e'.chanOps, l);
    MergedHas(e.lockOps, e'.lockOps, l);
  }

  lemma RecordsRebased(e: Effects, arg: Frame, fv: Frame, a: Act, l: Loc)
    ensures Records(Rebase(e, arg, fv), a, l) <==>
              exists inner :: Records(e, a, inner) && RebaseLoc(inner, arg, fv) == l
  {
    hide RebaseLoc, RebaseTable;
    match a
    case OnChan(o) => TableRebased(e.chanOps, arg, fv, o, l);
    case OnLock(o) => TableRebased(e.lockOps, arg, fv, o, l);
    case Spawn(_) => UnknownStays(arg, fv);
  }

  lemma TableRebased<T>(m: Table<T>, arg: Frame, fv: Frame, o: T, l: Loc)
    ensures o in At(RebaseTable(m, arg, fv), l) <==> exists inner :: o in At(m, inner) && RebaseLoc(inner, arg, fv) == l
  {
    hide RebaseLoc, RebaseTable;
    var r := RebaseTable(m, arg, fv);
    if o in At(r, l) {
      var inner :| inner in m && RebaseLoc(inner, arg, fv) == l && o in m[inner];
      assert o in At(m, inner);
    }
    if inner :| o in At(m, inner) && RebaseLoc(inner, arg, fv) == l {
      assert m[inner] <= r[l];
    }
  }

  // ---- closures ----

  predicate Before(s: Site, n: nat, k: nat) {
    s.0 < n || (s.0 == n && s.1 < k)
  }

  /** The table tells of the closures made before a point: not made, made once, made again. */
  ghost predicate Tells(f: Function, m: Captures, n: nat, k: nat, c: FuncId) {
    && (c !in m ==> forall s: Site :: Before(s, n, k) ==> !MakesClosure(f, s, c))
    && (c in m && m[c].Some? ==> exists s: Site :: OnceBefore(f, s, n, k, c) && OpAt(f, s).bindings == m[c].value)
    && (c in m && m[c].None? ==> exists s: Site, s': Site :: TwiceBefore(f, s, s', n, k, c))
  }

  predicate TwiceBefore(f: Function, s: Site, s': Site, n: nat, k: nat, c: FuncId) {
    s != s' && Before(s, n, k) && Before(s', n, k) && MakesClosure(f, s, c) && MakesClosure(f, s', c)
  }

  ghost predicate OnceBefore(f: Function, s: Site, n: nat, k: nat, c: FuncId) {
    && Before(s, n, k) && MakesClosure(f, s, c)
    && forall s': Site :: Before(s', n, k) && MakesClosure(f, s', c) ==> s' == s
  }

  lemma TellsMore(f: Function, m: Captures, n: nat, k: nat, c: FuncId)
    requires IsSite(f, (n, k)) && Tells(f, m, n, k, c)
    ensures Tells(f, CapturesWith(m, OpAt(f, (n, k))), n, k + 1, c)
  {
    var here: Site := (n, k);
    var m' := CapturesWith(m, OpAt(f, here));
    forall s: Site
      ensures Before(s, n, k + 1) <==> Before(s, n, k) || s == here
    {
      assert s == (s.0, s.1);
    }
    if MakesClosure(f, here, c) {
      if c !in m {
        assert OnceBefore(f, here, n, k + 1, c);
      } else if m[c].Some? {
        var s: Site :| OnceBefore(f, s, n, k, c);
        assert TwiceBefore(f, s, here, n, k + 1, c);
      } else {
        var s: Site, s': Site :| TwiceBefore(f, s, s', n, k, c);
        assert TwiceBefore(f, s, s', n, k + 1, c);
      }
    } else {
      assert c in m' <==> c in m;
      assert c in m ==> m'[c] == m[c];
      if c in m && m[c].Some? {
        var s: Site :| OnceBefore(f, s, n, k, c) && OpAt(f, s).bindings == m[c].value;
        assert OnceBefore(f, s, n, k + 1, c);
      } else if c in m {
        var s: Site, s': Site :| TwiceBefore(f, s, s', n, k, c);
        assert TwiceBefore(f, s, s', n, k + 1, c);
      }
    }
  }

  lemma {:induction false} TellsBlock(f: Function, m: Captures, n: nat, k: nat, c: FuncId)
    requires n < |f.blocks| && k <= |f.blocks[n].instrs| && Tells(f, m, n, 0, c)
    ensures Tells(f, CapturesIn(m, f.blocks[n].instrs[..k]), n, k, c)
  {
    hide Tells, CapturesWith;
    var instrs := f.blocks[n].instrs;
    if k > 0 {
      assert instrs[..k][..k - 1] == instrs[..k - 1];
      TellsBlock(f, m, n, k - 1, c);
      TellsMore(f, CapturesIn(m, instrs[..k - 1]), n, k - 1, c);
    }
  }

  lemma {:induction false} TellsBody(f: Function, n: nat, c: FuncId)
    requires n <= |f.blocks|
    ensures Tells(f, CapturesOf(f, n), n, 0, c)
  {
    hide CapturesIn, OnceBefore;
    if n > 0 {
      var instrs := f.blocks[n - 1].instrs;
      TellsBody(f, n - 1, c);
      TellsBlock(f, CapturesOf(f, n - 1), n - 1, |instrs|, c);
      assert instrs[..|instrs|] == instrs;
      NextBlock(f, CapturesOf(f, n), n - 1, c);
    }
  }

  lemma NextBlock(f: Function, m: Captures, n: nat, c: FuncId)
    requires n < |f.blocks| && Tells(f, m, n, |f.blocks[n].instrs|, c)
    ensures Tells(f, m, n + 1, 0, c)
  {
    var k := |f.blocks[n].instrs|;
    assert forall s: Site :: MakesClosure(f, s, c) ==> (Before(s, n + 1, 0) <==> Before(s, n, k));
    if c in m && m[c].Some? {
      var s: Site :| OnceBefore(f, s, n, k, c) && OpAt(f, s).bindings == m[c].value;
      assert OnceBefore(f, s, n + 1, 0, c);
    } else if c in m {
      var s: Site, s': Site :| TwiceBefore(f, s, s', n, k, c);
      assert TwiceBefore(f, s, s', n + 1, 0, c);
    }
  }

  /** Bindings are known of exactly the closures made at one place, and are those of that place. */
  lemma CapturesExact(f: Function, c: FuncId, bindings: seq<ValueId>)
    ensures var m := CapturesOf(f, |f.blocks|);
            && (c in m && m[c] == Some(bindings) <==>
                  exists s: Site :: OnlyClosure(f, s, c) && OpAt(f, s).bindings == bindings)
            && (c in m <==> exists s: Site :: MakesClosure(f, s, c))
  {
    hide CapturesOf;
    var m := CapturesOf(f, |f.blocks|);
    TellsBody(f, |f.blocks|, c);
    assert forall s: Site :: MakesClosure(f, s, c) ==> Before(s, |f.blocks|, 0);
    if c in m && m[c].Some? {
      var s: Site :| OnceBefore(f, s, |f.blocks|, 0, c) && OpAt(f, s).bindings == m[c].value;
      assert OnlyClosure(f, s, c);
    }
  }

  // ---- re-rooting at an instruction ----

  lemma CapturedExact(f: Function, c: FuncId, i: nat, v: ValueId)
    ensures var m := CapturesOf(f, |f.blocks|);
            Captured(f, c, i, v) <==> c in m && m[c].Some? && i < |m[c].value| && m[c].value[i] == v
  {
    hide CapturesOf;
    var m := CapturesOf(f, |f.blocks|);
    if c in m && m[c].Some? {
      CapturesExact(f, c, m[c].value);
    }
    if Captured(f, c, i, v) {
      var s: Site :| OnlyClosure(f, s, c) && i < |OpAt(f, s).bindings| && OpAt(f, s).bindings[i] == v;
      CapturesExact(f, c, OpAt(f, s).bindings);
    }
  }

  /** The frames of a call re-root as the caller sees it. */
  lemma SeenExact(f: Function, c: FuncId, args: seq<ValueId>, inner: Loc, l: Loc)
    ensures RebaseLoc(inner, ArgFrame(f, args), CaptureFrame(f, CapturesOf(f, |f.blocks|), c)) == l <==>
              SeenAt(f, c, args, inner, l)
  {
    hide CapturesOf, LocOf, Captured;
    var m := CapturesOf(f, |f.blocks|);
    if inner.root.FreeVarRoot? {
      var i := inner.root.index;
      forall v
        ensures Captured(f, c, i, v) <==> c in m && m[c].Some? && i < |m[c].value| && m[c].value[i] == v
      {
        CapturedExact(f, c, i, v);
      }
      if c in m && m[c].Some? && i < |m[c].value| {
        assert Captured(f, c, i, m[c].value[i]);
      }
    }
  }

  lemma SeenAnywayExact(inner: Loc, l: Loc)
    ensures RebaseLoc(inner, NowhereFrame(), NowhereFrame()) == l <==> SeenAnyway(inner, l)
  {
  }

  // ---- one instruction ----

  lemma CallExact(f: Function, c: FuncId, args: seq<ValueId>, env: Env, a: Act, l: Loc)
    ensures Records(CallEffects(f, CapturesOf(f, |f.blocks|), c, args, env), a, l) <==>
              DoesInside(f, env, c, args, a, l)
  {
    hide Records, Rebase, CapturesOf, RebaseLoc, SeenAt, ArgFrame, CaptureFrame;
    var arg, fv := ArgFrame(f, args), CaptureFrame(f, CapturesOf(f, |f.blocks|), c);
    RecordsRebased(env(c), arg, fv, a, l);
    forall inner
      ensures RebaseLoc(inner, arg, fv) == l <==> SeenAt(f, c, args, inner, l)
    {
      SeenExact(f, c, args, inner, l);
    }
  }

  lemma {:induction false} ArmsExact(f: Function, arms: seq<SelectArm>, a: Act, l: Loc)
    ensures Records(ArmEffects(f, arms), a, l) <==>
              a == OnChan(SelectOp) && exists arm :: arm in arms && l == LocOf(f, arm.chan)
  {
    hide LocOf, Joined;
    if arms != [] {
      var before, last := arms[..|arms| - 1], arms[|arms| - 1];
      ArmsExact(f, before, a, l);
      RecordsJoined(ArmEffects(f, before), ChanAt(LocOf(f, last.chan), SelectOp), a, l);
      assert forall arm :: arm in arms <==> arm in before || arm == last;
    }
  }

  /** A close or a lock method put off, or the function run; spawning apart. */
  lemma PutOffExact(w: World, f: Function, s: Site, env: Env, a: Act, l: Loc)
    requires IsSite(f, s) && PutOff(OpAt(f, s))
    ensures var op := OpAt(f, s);
            Records(GoDeferEffects(w, f, CapturesOf(f, |f.blocks|), op.callee, op.args, op.Defer?, env), a, l) <==>
              || (!a.Spawn? && DoesItself(w, f, s, a, l))
              || exists c, args :: Runs(w, op, c, args) && DoesInside(f, env, c, args, a, l)
  {
    hide LocOf, CallEffects, CapturesOf, DoesInside;
    var op := OpAt(f, s);
    var v := FirstOf(op.args);
    assert ArgFrame(f, op.args)(0) == PlaceOf(f, v);
    if op.callee == Builtin("close") {
      assert a == OnChan(CloseOp) ==> Performs(w, f, s, a, v);
    } else if op.callee.Static? {
      if op.callee.func in w.lockMethods {
        assert a.OnLock? && LocksAs(w.lockMethods[op.callee.func], op.Defer?, a.lockOp) ==> Performs(w, f, s, a, v);
      } else {
        CallExact(f, op.callee.func, op.args, env, a, l);
        assert Runs(w, op, op.callee.func, op.args);
      }
    }
  }

  lemma InstrExact(w: World, f: Function, s: Site, cyclic: bool, env: Env, a: Act, l: Loc)
    requires IsSite(f, s) && (cyclic <==> OnCycle(Successors(f), s.0))
    ensures Records(InstrEffects(w, f, CapturesOf(f, |f.blocks|), cyclic, OpAt(f, s), env), a, l) <==>
              DoneBy(w, f, s, env, a, l)
  {
    hide LocOf, CapturesOf, DoesInside, DoesItself, GoDeferEffects, CallEffects, OnCycle, Joined, Records;
    var op := OpAt(f, s);
    match op
    case Call(_, callee, args) =>
      NothingRecorded(a, l);
      NothingItself(w, f, s, a, l);
      if callee.Static? {
        CallExact(f, callee.func, args, env, a, l);
        assert Runs(w, op, callee.func, args);
      }
    case Go(callee, args) =>
      PutOffExact(w, f, s, env, a, l);
      RecordsJoined(SpawnsOnly(if cyclic then Unbounded else Bounded),
        GoDeferEffects(w, f, CapturesOf(f, |f.blocks|), callee, args, false, env), a, l);
      SpawnExact(w, f, s, cyclic, a, l);
    case Defer(_, _) =>
      PutOffExact(w, f, s, env, a, l);
      if a.Spawn? {
        NothingItself(w, f, s, a, l);
      }
    case _ => PlainExact(w, f, s, cyclic, env, a, l);
  }

  lemma NothingItself(w: World, f: Function, s: Site, a: Act, l: Loc)
    requires IsSite(f, s) && (OpAt(f, s).Call? || (OpAt(f, s).Defer? && a.Spawn?))
    ensures !DoesItself(w, f, s, a, l)
  {
  }

  lemma SpawnExact(w: World, f: Function, s: Site, cyclic: bool, a: Act, l: Loc)
    requires IsSite(f, s) && OpAt(f, s).Go? && (cyclic <==> OnCycle(Successors(f), s.0))
    ensures Records(SpawnsOnly(if cyclic then Unbounded else Bounded), a, l) <==> a.Spawn? && DoesItself(w, f, s, a, l)
  {
    hide OnCycle;
    if a.Spawn? && (a.unbounded ==> cyclic) {
      assert Performs(w, f, s, a, None) && PlaceOf(f, None) == UNKNOWN;
    }
  }

  /** An instruction that runs nothing. */
  lemma PlainExact(w: World, f: Function, s: Site, cyclic: bool, env: Env, a: Act, l: Loc)
    requires IsSite(f, s) && !OpAt(f, s).Call? && !PutOff(OpAt(f, s))
    ensures Records(InstrEffects(w, f, CapturesOf(f, |f.blocks|), cyclic, OpAt(f, s), env), a, l) <==>
              DoesItself(w, f, s, a, l)
    ensures forall c, args :: !Runs(w, OpAt(f, s), c, args)
  {
    hide LocOf, CapturesOf, GoDeferEffects, CallEffects, OnCycle, Joined, ArmEffects, Records, ChanAt, LockAt,
      DoesItself;
    var op := OpAt(f, s);
    NothingRecorded(a, l);
    if op.Make? || op.Send? || op.Recv? || op.CloseChan? {
      ChannelItself(w, f, s, a, l);
    } else {
      OtherItself(w, f, s, a, l);
    }
    match op
    case Make(dst, _, _) => OneAct(f, dst, MakeOp, LockedOp, a, l);
    case Send(ch, _) => OneAct(f, ch, SendOp, LockedOp, a, l);
    case Recv(_, ch) => OneAct(f, ch, RecvOp, LockedOp, a, l);
    case CloseChan(ch) => OneAct(f, ch, CloseOp, LockedOp, a, l);
    case Lock(kind, mu) => OneAct(f, mu, MakeOp, LockOpOf(kind), a, l);
    case Select(_, arms, _) => ArmsExact(f, arms, a, l);
    case _ =>
  }

  lemma ChannelItself(w: World, f: Function, s: Site, a: Act, l: Loc)
    requires IsSite(f, s)
    ensures match OpAt(f, s)
            case Make(dst, k, _) =>
              DoesItself(w, f, s, a, l) <==> k == MakeChan && a == OnChan(MakeOp) && l == LocOf(f, dst)
            case Send(ch, _) => DoesItself(w, f, s, a, l) <==> a == OnChan(SendOp) && l == LocOf(f, ch)
            case Recv(_, ch) => DoesItself(w, f, s, a, l) <==> a == OnChan(RecvOp) && l == LocOf(f, ch)
            case CloseChan(ch) => DoesItself(w, f, s, a, l) <==> a == OnChan(CloseOp) && l == LocOf(f, ch)
            case _ => true
  {
    hide LocOf, OnCycle;
    match OpAt(f, s)
    case Make(dst, k, _) => assert k == MakeChan ==> Performs(w, f, s, OnChan(MakeOp), Some(dst));
    case Send(ch, _) => assert Performs(w, f, s, OnChan(SendOp), Some(ch));
    case Recv(_, ch) => assert Performs(w, f, s, OnChan(RecvOp), Some(ch));
    case CloseChan(ch) => assert Performs(w, f, s, OnChan(CloseOp), Some(ch));
    case _ =>
  }

  lemma OtherItself(w: World, f: Function, s: Site, a: Act, l: Loc)
    requires IsSite(f, s)
    ensures match OpAt(f, s)
            case Lock(kind, mu) => DoesItself(w, f, s, a, l) <==> a == OnLock(LockOpOf(kind)) && l == LocOf(f, mu)
            case Select(_, arms, _) =>
              DoesItself(w, f, s, a, l) <==>
              a == OnChan(SelectOp) && exists arm :: arm in arms && l == LocOf(f, arm.chan)
            case op => op.Make? || op.Send? || op.Recv? || op.CloseChan? || PutOff(op) || !DoesItself(w, f, s, a, l)
  {
    hide LocOf, OnCycle;
    match OpAt(f, s)
    case Lock(kind, mu) => assert Performs(w, f, s, OnLock(LockOpOf(kind)), Some(mu));
    case Select(_, arms, _) => assert forall arm :: arm in arms ==> Performs(w, f, s, OnChan(SelectOp), Some(arm.chan));
    case _ =>
  }

  lemma OneAct(f: Function, v: ValueId, o: ChanOp, k: LockOp, a: Act, l: Loc)
    ensures Records(ChanAt(LocOf(f, v), o), a, l) <==> a == OnChan(o) && l == LocOf(f, v)
    ensures Records(LockAt(LocOf(f, v), k), a, l) <==> a == OnLock(k) && l == LocOf(f, v)
  {
    hide LocOf;
  }

  lemma NothingRecorded(a: Act, l: Loc)
    ensures !Records(EMPTY, a, l)
  {
  }

  // ---- the body ----

  lemma {:induction false} BlockExact(w: World, f: Function, b: nat, k: nat, cyclic: bool, start: Effects, env: Env,
                                      a: Act, l: Loc)
    requires b < |f.blocks| && k <= |f.blocks[b].instrs| && (cyclic <==> OnCycle(Successors(f), b))
    ensures Records(BlockEffects(w, f, CapturesOf(f, |f.blocks|), cyclic, start, f.blocks[b].instrs[..k], env), a, l)
        <==> Records(start, a, l) || exists i: nat :: i < k && DoneBy(w, f, (b, i), env, a, l)
  {
    hide Records, InstrEffects, DoneBy, OnCycle, CapturesOf, Joined;
    var instrs, captures := f.blocks[b].instrs, CapturesOf(f, |f.blocks|);
    if k > 0 {
      assert instrs[..k][..k - 1] == instrs[..k - 1] && instrs[..k][k - 1] == instrs[k - 1];
      BlockExact(w, f, b, k - 1, cyclic, start, env, a, l);
      InstrExact(w, f, (b, k - 1), cyclic, env, a, l);
      RecordsJoined(BlockEffects(w, f, captures, cyclic, start, instrs[..k - 1], env),
        InstrEffects(w, f, captures, cyclic, instrs[k - 1], env), a, l);
    }
  }

  lemma {:induction false} BodyExact(w: World, f: Function, n: nat, env: Env, a: Act, l: Loc)
    requires n <= |f.blocks|
    ensures Records(BodyEffects(w, f, CapturesOf(f, |f.blocks|), CyclesOf(f), n, env), a, l) <==>
              exists s: Site :: s.0 < n && IsSite(f, s) && DoneBy(w, f, s, env, a, l)
  {
    hide BlockEffects, DoneBy, OnCycle, CapturesOf;
    if n > 0 {
      var instrs := f.blocks[n - 1].instrs;
      BodyExact(w, f, n - 1, env, a, l);
      BlockExact(w, f, n - 1, |instrs|, CyclesOf(f)[n - 1],
        BodyEffects(w, f, CapturesOf(f, |f.blocks|), CyclesOf(f), n - 1, env), env, a, l);
      assert instrs[..|instrs|] == instrs;
      var b := n - 1;
      if i: nat :| i < |instrs| && DoneBy(w, f, (b, i), env, a, l) {
        var s: Site := (b, i);
        assert IsSite(f, s) && DoneBy(w, f, s, env, a, l);
      }
    }
  }

  // ---- callees no instruction names ----

  lemma {:induction false} NamedIn(instrs: seq<Op>, c: FuncId)
    ensures c in StaticIn(instrs) <==> exists i :: 0 <= i < |instrs| && Names(instrs[i], c)
  {
    if instrs != [] {
      NamedIn(instrs[..|instrs| - 1], c);
      assert forall i :: 0 <= i < |instrs| - 1 ==> instrs[..|instrs| - 1][i] == instrs[i];
      assert c in StaticSite(instrs[|instrs| - 1]) <==> Names(instrs[|instrs| - 1], c);
    }
  }

  lemma {:induction false} NamedOf(f: Function, n: nat, c: FuncId)
    requires n <= |f.blocks|
    ensures c in StaticOf(f, n) <==> exists s: Site :: s.0 < n && IsSite(f, s) && Names(OpAt(f, s), c)
  {
    hide StaticIn, Names;
    if n > 0 {
      var instrs := f.blocks[n - 1].instrs;
      NamedOf(f, n - 1, c);
      NamedIn(instrs, c);
      if i :| 0 <= i < |instrs| && Names(instrs[i], c) {
        var s: Site := (n - 1, i);
        assert IsSite(f, s) && Names(OpAt(f, s), c);
      }
    }
  }

  ghost predicate DispatchedBy(callees: seq<FuncId>, known: set<FuncId>, env: Env, a: Act, l: Loc) {
    exists c, inner :: c in callees && c !in known && Records(env(c), a, inner) && SeenAnyway(inner, l)
  }

  lemma {:induction false} DispatchExact(start: Effects, callees: seq<FuncId>, known: set<FuncId>, env: Env,
                                         a: Act, l: Loc)
    ensures Records(DispatchEffects(start, callees, known, env), a, l) <==>
              Records(start, a, l) || DispatchedBy(callees, known, env, a, l)
  {
    hide Records, Joined, Rebase, SeenAnyway, RebaseLoc;
    if callees != [] {
      var before, c := callees[..|callees| - 1], callees[|callees| - 1];
      DispatchExact(start, before, known, env, a, l);
      assert forall x :: x in callees <==> x in before || x == c;
      RecordsJoined(DispatchEffects(start, before, known, env), Rebase(env(c), NowhereFrame(), NowhereFrame()), a, l);
      RecordsRebased(env(c), NowhereFrame(), NowhereFrame(), a, l);
      forall inner
        ensures RebaseLoc(inner, NowhereFrame(), NowhereFrame()) == l <==> SeenAnyway(inner, l)
      {
        SeenAnywayExact(inner, l);
      }
    }
  }

  // ---- all of it ----

  /**
    Effects collected for a function record exactly what its instructions and the functions they run do,
    where the function sees it, and what callees no instruction names do.
   */
  lemma CollectedExact(w: World, id: FuncId, env: Env, a: Act, l: Loc)
    requires id in w.bodies
    ensures Records(Collected(w, id, env), a, l) <==>
              || (exists s: Site :: IsSite(w.bodies[id], s) && DoneBy(w, w.bodies[id], s, env, a, l))
              || DoneElsewhere(w, id, w.bodies[id], env, a, l)
  {
    hide Records, DoneBy, BodyEffects, DispatchEffects, StaticOf, CapturesOf, CyclesOf, SeenAnyway, Names;
    var f := w.bodies[id];
    BodyExact(w, f, |f.blocks|, env, a, l);
    DispatchExact(BodyEffects(w, f, CapturesOf(f, |f.blocks|), CyclesOf(f), |f.blocks|, env), CalleesOf(w, id),
      StaticOf(f, |f.blocks|), env, a, l);
    forall c
      ensures Dispatched(w, id, f, c) <==> c in CalleesOf(w, id) && c !in StaticOf(f, |f.blocks|)
    {
      NamedOf(f, |f.blocks|, c);
    }
  }

  /** A function without a body may do anything, anywhere. */
  lemma BodylessDoesAll(w: World, id: FuncId, env: Env, a: Act)
    requires id !in w.bodies
    ensures Records(Collected(w, id, env), a, UNKNOWN)
  {
    EveryOp();
  }

  /** Goroutines are without bound exactly when one is started on a cycle or a callee starts them so. */
  lemma UnboundedExact(w: World, id: FuncId, env: Env)
    requires id in w.bodies
    ensures Collected(w, id, env).spawns == Unbounded <==>
              || (exists s: Site :: IsSite(w.bodies[id], s) && OpAt(w.bodies[id], s).Go?
                    && OnCycle(Successors(w.bodies[id]), s.0))
              || (exists s: Site, c, args :: IsSite(w.bodies[id], s) && Runs(w, OpAt(w.bodies[id], s), c, args)
                    && env(c).spawns == Unbounded)
              || exists c :: Dispatched(w, id, w.bodies[id], c) && env(c).spawns == Unbounded
  {
    hide Collected, OnCycle, Runs, Dispatched;
    var f, a := w.bodies[id], Spawn(true);
    CollectedExact(w, id, env, a, UNKNOWN);
    assert Records(Collected(w, id, env), a, UNKNOWN) <==> Collected(w, id, env).spawns == Unbounded;
    forall c
      ensures Records(env(c), a, UNKNOWN) <==> env(c).spawns == Unbounded
      ensures forall args :: DoesInside(f, env, c, args, a, UNKNOWN) <==> env(c).spawns == Unbounded
    {
      assert forall args :: SeenAt(f, c, args, UNKNOWN, UNKNOWN);
    }
    forall s: Site | IsSite(f, s)
      ensures DoesItself(w, f, s, a, UNKNOWN) <==> OpAt(f, s).Go? && OnCycle(Successors(f), s.0)
    {
      assert PlaceOf(f, None) == UNKNOWN;
    }
    assert SeenAnyway(UNKNOWN, UNKNOWN);
  }
}
