/**
  Does a channel escape its function? Two alias sets are grown until nothing changes, values that
  may be the channel and closures that may hold it; then every use is checked against a whitelist.
  The sets are the least ones closed under the alias rules, so no order of instructions matters.
 */
module Escapes {
  import opened Wrappers
  import opened Graphs
  import opened Ir
  import opened Encoding

  /** The values tracked as the channel and those tracked as closures over it. */
  datatype Aliases = Aliases(chans: set<ValueId>, closures: set<ValueId>)

  predicate Includes(big: Aliases, small: Aliases) {
    small.chans <= big.chans && small.closures <= big.closures
  }

  predicate SomeIn(vs: seq<ValueId>, s: set<ValueId>) {
    exists v :: v in vs && v in s
  }

  function AddIf(s: set<ValueId>, c: bool, v: ValueId): set<ValueId> {
    if c then s + {v} else s
  }

  /** What one instruction adds to the alias sets. */
  function Grown(a: Aliases, op: Op): Aliases {
    match op
    case Load(dst, addr) => Aliases(AddIf(a.chans, addr in a.chans, dst), AddIf(a.closures, addr in a.closures, dst))
    case Assign(dst, src) => Aliases(AddIf(a.chans, src in a.chans, dst), AddIf(a.closures, src in a.closures, dst))
    case Convert(dst, src) => Aliases(AddIf(a.chans, src in a.chans, dst), AddIf(a.closures, src in a.closures, dst))
    case Phi(dst, edges) => Aliases(AddIf(a.chans, SomeIn(edges, a.chans), dst),
      AddIf(a.closures, SomeIn(edges, a.closures), dst))
    case Store(addr, val) => a.(chans := AddIf(a.chans, addr in a.chans, val))
    case MakeClosure(dst, _, bindings) => a.(closures :=
      AddIf(a.closures, SomeIn(bindings, a.chans) || SomeIn(bindings, a.closures), dst))
    case _ => a
  }

  /** Nothing any instruction of the body would add is missing. */
  predicate ClosedFor(a: Aliases, f: Function) {
    forall b, i :: 0 <= b < |f.blocks| && 0 <= i < |f.blocks[b].instrs| ==> Grown(a, f.blocks[b].instrs[i]) == a
  }

  ghost predicate AliasClosed(f: Function, ch: ValueId, a: Aliases) {
    ch in a.chans && ClosedFor(a, f)
  }

  /** The least closed pair of sets that tracks the channel. */
  ghost predicate LeastAliases(f: Function, ch: ValueId, a: Aliases) {
    AliasClosed(f, ch, a) && forall a' :: AliasClosed(f, ch, a') ==> Includes(a', a)
  }

  lemma GrownMonotone(a: Aliases, a': Aliases, op: Op)
    requires Includes(a', a)
    ensures Includes(Grown(a', op), Grown(a, op)) && Includes(Grown(a, op), a)
  {
  }

  lemma LeastUnique(f: Function, ch: ValueId, a: Aliases, a': Aliases)
    requires LeastAliases(f, ch, a) && LeastAliases(f, ch, a')
    ensures a == a'
  {
    assert Includes(a, a') && Includes(a', a);
  }

  // ---- growing to the fixpoint ----

  function Defined(op: Op): set<ValueId> {
    match op
    case Load(dst, _) => {dst}
    case Assign(dst, _) => {dst}
    case Convert(dst, _) => {dst}
    case Phi(dst, _) => {dst}
    case Store(_, val) => {val}
    case MakeClosure(dst, _, _) => {dst}
    case _ => {}
  }

  function DefinedIn(instrs: seq<Op>): set<ValueId> {
    if instrs == [] then {} else DefinedIn(instrs[..|instrs| - 1]) + Defined(instrs[|instrs| - 1])
  }

  function DefinedOf(f: Function, n: nat): set<ValueId>
    requires n <= |f.blocks|
  {
    if n == 0 then {} else DefinedOf(f, n - 1) + DefinedIn(f.blocks[n - 1].instrs)
  }

  lemma {:induction false} DefinedHas(instrs: seq<Op>, i: nat)
    requires i < |instrs|
    ensures Defined(instrs[i]) <= DefinedIn(instrs)
  {
    hide Defined;
    if i < |instrs| - 1 {
      DefinedHas(instrs[..|instrs| - 1], i);
    }
  }

  lemma {:induction false} BodyDefines(f: Function, n: nat, b: nat)
    requires b < n <= |f.blocks|
    ensures DefinedIn(f.blocks[b].instrs) <= DefinedOf(f, n)
  {
    if b < n - 1 {
      BodyDefines(f, n - 1, b);
    }
  }

  /** What is not tracked yet, of all that ever could be. */
  ghost function Untracked(f: Function, a: Aliases): nat {
    |DefinedOf(f, |f.blocks|) - a.chans| + |DefinedOf(f, |f.blocks|) - a.closures|
  }

  lemma GrowthCounts(f: Function, a: Aliases, b: nat, i: nat)
    requires b < |f.blocks| && i < |f.blocks[b].instrs|
    ensures Untracked(f, Grown(a, f.blocks[b].instrs[i])) <= Untracked(f, a)
    ensures Grown(a, f.blocks[b].instrs[i]) != a ==> Untracked(f, Grown(a, f.blocks[b].instrs[i])) < Untracked(f, a)
  {
    var op := f.blocks[b].instrs[i];
    var all, a' := DefinedOf(f, |f.blocks|), Grown(a, op);
    DefinedHas(f.blocks[b].instrs, i);
    BodyDefines(f, |f.blocks|, b);
    GrownBy(a, op);
    Shrinks(all, a.chans, a'.chans, Defined(op));
    Shrinks(all, a.closures, a'.closures, Defined(op));
  }

  lemma GrownBy(a: Aliases, op: Op)
    ensures a.chans <= Grown(a, op).chans <= a.chans + Defined(op)
    ensures a.closures <= Grown(a, op).closures <= a.closures + Defined(op)
  {
  }

  lemma Shrinks(all: set<ValueId>, s: set<ValueId>, s': set<ValueId>, more: set<ValueId>)
    requires s <= s' <= s + more && more <= all
    ensures |all - s'| <= |all - s|
    ensures s' != s ==> |all - s'| < |all - s|
  {
    if s' != s {
      FewerElements(all - s', all - s);
    }
  }

  /** One pass over the body, adding aliases as they are found. */
  method Pass(f: Function, ghost ch: ValueId, before: Aliases) returns (a: Aliases)
    requires ch in before.chans && forall a' :: AliasClosed(f, ch, a') ==> Includes(a', before)
    ensures Includes(a, before) && forall a' :: AliasClosed(f, ch, a') ==> Includes(a', a)
    ensures Untracked(f, a) <= Untracked(f, before)
    ensures a != before ==> Untracked(f, a) < Untracked(f, before)
    ensures a == before ==> ClosedFor(before, f)
  {
    hide Grown, Untracked, DefinedOf;
    a := before;
    for b := 0 to |f.blocks|
      invariant Includes(a, before) && forall a' :: AliasClosed(f, ch, a') ==> Includes(a', a)
      invariant Untracked(f, a) <= Untracked(f, before) && (a != before ==> Untracked(f, a) < Untracked(f, before))
      invariant a == before ==> forall c, i :: 0 <= c < b && 0 <= i < |f.blocks[c].instrs| ==>
          Grown(before, f.blocks[c].instrs[i]) == before
    {
      var instrs := f.blocks[b].instrs;
      for i := 0 to |instrs|
        invariant Includes(a, before) && forall a' :: AliasClosed(f, ch, a') ==> Includes(a', a)
        invariant Untracked(f, a) <= Untracked(f, before) && (a != before ==> Untracked(f, a) < Untracked(f, before))
        invariant a == before ==> forall c, i :: 0 <= c < b && 0 <= i < |f.blocks[c].instrs| ==>
            Grown(before, f.blocks[c].instrs[i]) == before
        invariant a == before ==> forall j :: 0 <= j < i ==> Grown(before, instrs[j]) == before
      {
        GrowthCounts(f, a, b, i);
        GrownMonotone(a, a, instrs[i]);
        forall a' | AliasClosed(f, ch, a')
          ensures Includes(a', Grown(a, instrs[i]))
        {
          GrownMonotone(a, a', instrs[i]);
          assert Grown(a', f.blocks[b].instrs[i]) == a';
        }
        a := Grow(a, instrs[i]);
      }
    }
  }

  /** The additions of one instruction, set by set. */
  method Grow(a: Aliases, op: Op) returns (r: Aliases)
    ensures r == Grown(a, op)
  {
    var chans, closures := a.chans, a.closures;
    match op {
      case Load(dst, addr) =>
        if addr in chans { chans := chans + {dst}; }
        if addr in closures { closures := closures + {dst}; }
      case Assign(dst, src) =>
        if src in chans { chans := chans + {dst}; }
        if src in closures { closures := closures + {dst}; }
      case Convert(dst, src) =>
        if src in chans { chans := chans + {dst}; }
        if src in closures { closures := closures + {dst}; }
      case Phi(dst, edges) =>
        if SomeIn(edges, chans) { chans := chans + {dst}; }
        if SomeIn(edges, closures) { closures := closures + {dst}; }
      case Store(addr, val) =>
        if addr in chans { chans := chans + {val}; }
      case MakeClosure(dst, _, bindings) =>
        if SomeIn(bindings, chans) || SomeIn(bindings, closures) { closures := closures + {dst}; }
      case _ =>
    }
    r := Aliases(chans, closures);
  }

  /** Passes until one changes nothing. */
  method GrowAliases(f: Function, ch: ValueId) returns (a: Aliases)
    ensures LeastAliases(f, ch, a)
  {
    hide ClosedFor, Untracked;
    a := Aliases({ch}, {});
    var changed := true;
    while changed
      invariant ch in a.chans && forall a' :: AliasClosed(f, ch, a') ==> Includes(a', a)
      invariant !changed ==> ClosedFor(a, f)
      decreases Untracked(f, a), changed
    {
      var before := a;
      a := Pass(f, ch, a);
      changed := a != before;
    }
  }

  // ---- the whitelist ----

  predicate Tracked(a: Aliases, v: ValueId) {
    v in a.chans || v in a.closures
  }

  predicate AnyTracked(a: Aliases, vs: seq<ValueId>) {
    exists v :: v in vs && Tracked(a, v)
  }

  predicate CalleeTracked(a: Aliases, c: Callee) {
    c.Dynamic? && Tracked(a, c.value)
  }

  /** The instruction uses a tracked value in a role that may let it out of the function. */
  predicate InstrEscapes(a: Aliases, op: Op) {
    match op
    case Load(_, _) => false
    case Assign(_, _) => false
    case Convert(_, _) => false
    case Phi(_, _) => false
    case Store(addr, val) => !Tracked(a, addr) && Tracked(a, val)
    case MakeClosure(_, _, _) => false
    case Send(_, val) => Tracked(a, val)
    case Recv(_, _) => false
    case CloseChan(_) => false
    case Select(_, arms, _) => exists k :: 0 <= k < |arms| && arms[k].send.Some? && Tracked(a, arms[k].send.value)
    case Call(_, c, args) =>
      CalleeTracked(a, c) || (c !in {Builtin("close"), Builtin("len"), Builtin("cap")} && AnyTracked(a, args))
    case Go(c, args) => CalleeTracked(a, c) || (!c.Static? && c != Builtin("close") && AnyTracked(a, args))
    case Defer(c, args) => CalleeTracked(a, c) || (!c.Static? && c != Builtin("close") && AnyTracked(a, args))
    case _ => AnyTracked(a, OpReads(op))
  }

  ghost predicate SomethingEscapes(f: Function, a: Aliases) {
    exists s: Site :: IsSite(f, s) && InstrEscapes(a, OpAt(f, s))
  }

  // ---- what silence means ----

  /** One forward step of aliasing: the second value may be, or be a closure over, the first. */
  ghost predicate AliasStep(f: Function, u: ValueId, v: ValueId, toClosure: bool) {
    exists s: Site :: IsSite(f, s) && StepBy(OpAt(f, s), u, v, toClosure)
  }

  predicate StepBy(op: Op, u: ValueId, v: ValueId, toClosure: bool) {
    if toClosure then op.MakeClosure? && op.dst == v && u in op.bindings
    else match op
         case Load(dst, addr) => dst == v && addr == u
         case Assign(dst, src) => dst == v && src == u
         case Convert(dst, src) => dst == v && src == u
         case Phi(dst, edges) => dst == v && u in edges
         case Store(addr, val) => val == v && addr == u
         case _ => false
  }

  /** A chain of alias steps from the channel. Stores only alias cells that are not yet closures. */
  ghost predicate Chain(f: Function, ch: ValueId, chain: seq<ValueId>, closure: seq<bool>) {
    && |chain| == |closure| > 0 && chain[0] == ch && !closure[0]
    && forall i, j :: 0 <= i < j < |chain| && j == i + 1 ==>
         || (closure[j] == closure[i] && CopyStep(f, chain[i], chain[j], closure[i]))
         || (closure[j] && AliasStep(f, chain[i], chain[j], true))
  }

  /** Copies keep what a value is; a store makes its value alias a channel cell only. */
  ghost predicate CopyStep(f: Function, u: ValueId, v: ValueId, closure: bool) {
    exists s: Site :: IsSite(f, s) && StepBy(OpAt(f, s), u, v, false) && (closure ==> !OpAt(f, s).Store?)
  }

  lemma StepTracked(f: Function, a: Aliases, s: Site, u: ValueId, v: ValueId)
    requires ClosedFor(a, f) && IsSite(f, s)
    ensures StepBy(OpAt(f, s), u, v, false) && u in a.chans ==> v in a.chans
    ensures StepBy(OpAt(f, s), u, v, false) && !OpAt(f, s).Store? && u in a.closures ==> v in a.closures
    ensures StepBy(OpAt(f, s), u, v, true) && (u in a.chans || u in a.closures) ==> v in a.closures
  {
    assert Grown(a, f.blocks[s.0].instrs[s.1]) == a;
  }

  lemma {:induction false} ChainTracked(f: Function, ch: ValueId, a: Aliases, chain: seq<ValueId>, closure: seq<bool>,
                                        i: nat)
    requires AliasClosed(f, ch, a) && Chain(f, ch, chain, closure) && i < |chain|
    ensures chain[i] in if closure[i] then a.closures else a.chans
  {
    hide ClosedFor, StepBy;
    if i > 0 {
      ChainTracked(f, ch, a, chain, closure, i - 1);
      var u, v := chain[i - 1], chain[i - 1 + 1];
      if closure[i] && AliasStep(f, u, v, true) {
        var s: Site :| IsSite(f, s) && StepBy(OpAt(f, s), u, v, true);
        StepTracked(f, a, s, u, v);
      } else {
        assert CopyStep(f, u, v, closure[i - 1]);
        var s: Site :| IsSite(f, s) && StepBy(OpAt(f, s), u, v, false) && (closure[i - 1] ==> !OpAt(f, s).Store?);
        StepTracked(f, a, s, u, v);
      }
    }
  }

  /** Some chain leads to the value, as the channel or as a closure over it. */
  ghost predicate Reached(f: Function, ch: ValueId, v: ValueId, closure: bool) {
    exists chain, kinds :: Chain(f, ch, chain, kinds) && chain[|chain| - 1] == v && kinds[|chain| - 1] == closure
  }

  lemma ReachedStep(f: Function, ch: ValueId, u: ValueId, ku: bool, v: ValueId, kv: bool)
    requires Reached(f, ch, u, ku)
    requires (kv == ku && CopyStep(f, u, v, ku)) || (kv && AliasStep(f, u, v, true))
    ensures Reached(f, ch, v, kv)
  {
    hide CopyStep, AliasStep;
    var chain, kinds :| Chain(f, ch, chain, kinds) && chain[|chain| - 1] == u && kinds[|chain| - 1] == ku;
    assert Chain(f, ch, chain + [v], kinds + [kv]);
  }

  /** The tracked values that some chain leads to. */
  ghost function OnChains(f: Function, ch: ValueId, a: Aliases): Aliases {
    Aliases(set v | v in a.chans && Reached(f, ch, v, false), set v | v in a.closures && Reached(f, ch, v, true))
  }

  lemma OnChainsClosed(f: Function, ch: ValueId, a: Aliases, s: Site)
    requires ClosedFor(a, f) && IsSite(f, s)
    ensures Grown(OnChains(f, ch, a), OpAt(f, s)) == OnChains(f, ch, a)
  {
    hide Reached, ClosedFor;
    var o := OnChains(f, ch, a);
    var op := OpAt(f, s);
    forall u: ValueId, ku: bool, v: ValueId, kv: bool | StepKind(op, u, ku, v, kv) && In(o, u, ku)
      ensures In(o, v, kv)
    {
      StepTracked(f, a, s, u, v);
      assert kv == ku && StepBy(op, u, v, false) && (ku ==> !op.Store?) ==> CopyStep(f, u, v, ku);
      assert kv && StepBy(op, u, v, true) ==> AliasStep(f, u, v, true);
      ReachedStep(f, ch, u, ku, v, kv);
    }
    SmallGrowth(o, op);
  }

  predicate In(a: Aliases, v: ValueId, closure: bool) {
    v in if closure then a.closures else a.chans
  }

  predicate StepKind(op: Op, u: ValueId, ku: bool, v: ValueId, kv: bool) {
    (kv == ku && StepBy(op, u, v, false) && (ku ==> !op.Store?)) || (kv && StepBy(op, u, v, true))
  }

  /** If every step of the instruction stays inside, it adds nothing. */
  lemma SmallGrowth(o: Aliases, op: Op)
    requires forall u: ValueId, ku: bool, v: ValueId, kv: bool :: StepKind(op, u, ku, v, kv) && In(o, u, ku) ==>
        In(o, v, kv)
    ensures Grown(o, op) == o
  {
    match op
    case Load(dst, addr) => assert StepKind(op, addr, false, dst, false) && StepKind(op, addr, true, dst, true);
    case Assign(dst, src) => assert StepKind(op, src, false, dst, false) && StepKind(op, src, true, dst, true);
    case Convert(dst, src) => assert StepKind(op, src, false, dst, false) && StepKind(op, src, true, dst, true);
    case Phi(dst, edges) =>
      assert forall e :: e in edges ==> StepKind(op, e, false, dst, false) && StepKind(op, e, true, dst, true);
    case Store(addr, val) => assert StepKind(op, addr, false, val, false);
    case MakeClosure(dst, _, bindings) =>
      assert forall e :: e in bindings ==> StepKind(op, e, false, dst, true) && StepKind(op, e, true, dst, true);
    case _ =>
  }

  /** The least alias sets hold exactly what chains lead to. */
  lemma TrackedIffReached(f: Function, ch: ValueId, a: Aliases, v: ValueId)
    requires LeastAliases(f, ch, a)
    ensures v in a.chans <==> Reached(f, ch, v, false)
    ensures v in a.closures <==> Reached(f, ch, v, true)
  {
    hide Grown;
    var o := OnChains(f, ch, a);
    forall b, i | 0 <= b < |f.blocks| && 0 <= i < |f.blocks[b].instrs|
      ensures Grown(o, f.blocks[b].instrs[i]) == o
    {
      OnChainsClosed(f, ch, a, (b, i));
    }
    assert Chain(f, ch, [ch], [false]);
    assert AliasClosed(f, ch, o);
    forall k | Reached(f, ch, v, k)
      ensures v in if k then a.closures else a.chans
    {
      var chain, kinds :| Chain(f, ch, chain, kinds) && chain[|chain| - 1] == v && kinds[|chain| - 1] == k;
      ChainTracked(f, ch, a, chain, kinds, |chain| - 1);
    }
  }

  ghost predicate LeadsTo(f: Function, ch: ValueId, v: ValueId) {
    Reached(f, ch, v, false) || Reached(f, ch, v, true)
  }

  /**
    The instruction uses this one value outside the whitelist. Storing it is such a use unless some
    chain leads to the address too.
   */
  ghost predicate UsedOutside(f: Function, ch: ValueId, op: Op, v: ValueId) {
    match op
    case Load(_, _) => false
    case Assign(_, _) => false
    case Convert(_, _) => false
    case Phi(_, _) => false
    case Store(addr, val) => val == v && !LeadsTo(f, ch, addr)
    case MakeClosure(_, _, _) => false
    case Send(_, val) => val == v
    case Recv(_, _) => false
    case CloseChan(_) => false
    case Select(_, arms, _) => exists k :: 0 <= k < |arms| && arms[k].send == Some(v)
    case Call(_, c, args) => c == Dynamic(v) || (c !in {Builtin("close"), Builtin("len"), Builtin("cap")} && v in args)
    case Go(c, args) => c == Dynamic(v) || (!c.Static? && c != Builtin("close") && v in args)
    case Defer(c, args) => c == Dynamic(v) || (!c.Static? && c != Builtin("close") && v in args)
    case _ => v in OpReads(op)
  }

  /** A chain of aliases from the channel ends in a use outside the whitelist. */
  ghost predicate ChainEscapes(f: Function, ch: ValueId) {
    exists s: Site, v: ValueId :: IsSite(f, s) && LeadsTo(f, ch, v) && UsedOutside(f, ch, OpAt(f, s), v)
  }

  lemma UseEscapes(f: Function, ch: ValueId, a: Aliases, op: Op, v: ValueId)
    requires forall x :: Tracked(a, x) <==> LeadsTo(f, ch, x)
    requires LeadsTo(f, ch, v) && UsedOutside(f, ch, op, v)
    ensures InstrEscapes(a, op)
  {
    hide LeadsTo, Tracked;
    if op.Select? {
      var k :| 0 <= k < |op.arms| && op.arms[k].send == Some(v);
      assert Tracked(a, op.arms[k].send.value);
    }
  }

  lemma TrackedAmong(a: Aliases, vs: seq<ValueId>) returns (v: ValueId)
    requires AnyTracked(a, vs)
    ensures v in vs && Tracked(a, v)
  {
    v :| v in vs && Tracked(a, v);
  }

  lemma EscapeIsUse(f: Function, ch: ValueId, a: Aliases, op: Op) returns (v: ValueId)
    requires forall x :: Tracked(a, x) <==> LeadsTo(f, ch, x)
    requires InstrEscapes(a, op)
    ensures LeadsTo(f, ch, v) && UsedOutside(f, ch, op, v)
  {
    hide LeadsTo, Tracked, AnyTracked, OpReads;
    match op
    case Store(_, val) => v := val;
    case Send(_, val) => v := val;
    case Select(_, arms, _) =>
      var k :| 0 <= k < |arms| && arms[k].send.Some? && Tracked(a, arms[k].send.value);
      v := arms[k].send.value;
    case Call(_, c, args) =>
      if CalleeTracked(a, c) { v := c.value; } else { v := TrackedAmong(a, args); }
    case Go(c, args) =>
      if CalleeTracked(a, c) { v := c.value; } else { v := TrackedAmong(a, args); }
    case Defer(c, args) =>
      if CalleeTracked(a, c) { v := c.value; } else { v := TrackedAmong(a, args); }
    case _ =>
      v := ch;
      if AnyTracked(a, OpReads(op)) {
        v := TrackedAmong(a, OpReads(op));
      }
  }

  lemma EscapesByUse(f: Function, ch: ValueId, a: Aliases, op: Op)
    requires forall v :: Tracked(a, v) <==> LeadsTo(f, ch, v)
    ensures InstrEscapes(a, op) <==> exists v :: LeadsTo(f, ch, v) && UsedOutside(f, ch, op, v)
  {
    hide LeadsTo, Tracked, InstrEscapes, UsedOutside;
    if InstrEscapes(a, op) {
      var v := EscapeIsUse(f, ch, a, op);
    }
    if v :| LeadsTo(f, ch, v) && UsedOutside(f, ch, op, v) {
      UseEscapes(f, ch, a, op, v);
    }
  }

  /** The verdict is exact: something escapes iff some chain of aliases ends in a use outside the whitelist. */
  lemma VerdictExact(f: Function, ch: ValueId, a: Aliases)
    requires LeastAliases(f, ch, a)
    ensures SomethingEscapes(f, a) <==> ChainEscapes(f, ch)
  {
    hide LeastAliases, InstrEscapes, UsedOutside, LeadsTo;
    forall v
      ensures Tracked(a, v) <==> LeadsTo(f, ch, v)
    {
      TrackedIsLed(f, ch, a, v);
    }
    forall s: Site | IsSite(f, s)
      ensures InstrEscapes(a, OpAt(f, s)) <==> exists v :: LeadsTo(f, ch, v) && UsedOutside(f, ch, OpAt(f, s), v)
    {
      EscapesByUse(f, ch, a, OpAt(f, s));
    }
  }

  lemma TrackedIsLed(f: Function, ch: ValueId, a: Aliases, v: ValueId)
    requires LeastAliases(f, ch, a)
    ensures Tracked(a, v) <==> LeadsTo(f, ch, v)
  {
    TrackedIffReached(f, ch, a, v);
  }

  /** After a silent verdict no chain of aliases ends in a use outside the whitelist. */
  lemma SilenceCoversChains(f: Function, ch: ValueId, a: Aliases, chain: seq<ValueId>, closure: seq<bool>, s: Site)
    requires LeastAliases(f, ch, a) && !SomethingEscapes(f, a) && Chain(f, ch, chain, closure) && IsSite(f, s)
    ensures Tracked(a, chain[|chain| - 1])
    ensures !UsedOutside(f, ch, OpAt(f, s), chain[|chain| - 1])
  {
    hide ClosedFor, InstrEscapes, UsedOutside;
    var v := chain[|chain| - 1];
    assert Reached(f, ch, v, closure[|chain| - 1]);
    TrackedIsLed(f, ch, a, v);
    VerdictExact(f, ch, a);
  }

  /** True iff some chain of aliases from the channel ends in a use outside the whitelist. */
  method EscapesFrom(f: Function, ch: ValueId) returns (r: bool)
    ensures r <==> ChainEscapes(f, ch)
    ensures forall a :: LeastAliases(f, ch, a) ==> (r <==> SomethingEscapes(f, a))
  {
    hide LeastAliases, InstrEscapes, ChainEscapes;
    var a := GrowAliases(f, ch);
    VerdictExact(f, ch, a);
    forall a' | LeastAliases(f, ch, a')
      ensures a' == a
    {
      LeastUnique(f, ch, a, a');
    }
    for b := 0 to |f.blocks|
      invariant forall s: Site :: IsSite(f, s) && s.0 < b ==> !InstrEscapes(a, OpAt(f, s))
    {
      var instrs := f.blocks[b].instrs;
      for i := 0 to |instrs|
        invariant forall s: Site :: IsSite(f, s) && (s.0 < b || (s.0 == b && s.1 < i)) ==> !InstrEscapes(a, OpAt(f, s))
      {
        if InstrEscapes(a, instrs[i]) {
          assert IsSite(f, (b, i)) && OpAt(f, (b, i)) == instrs[i];
          return true;
        }
      }
    }
    return false;
  }

  // ---- order does not matter ----

  /** The two bodies have the same instructions, in whatever blocks and order. */
  ghost predicate SameInstructions(f: Function, f': Function) {
    && (forall s: Site :: IsSite(f, s) ==> HasInstr(f', OpAt(f, s)))
    && (forall s: Site :: IsSite(f', s) ==> HasInstr(f, OpAt(f', s)))
  }

  ghost predicate HasInstr(f: Function, op: Op) {
    exists s: Site :: IsSite(f, s) && OpAt(f, s) == op
  }

  lemma ClosedElsewhere(f: Function, f': Function, a: Aliases)
    requires SameInstructions(f, f') && ClosedFor(a, f)
    ensures ClosedFor(a, f')
  {
    forall b, i | 0 <= b < |f'.blocks| && 0 <= i < |f'.blocks[b].instrs|
      ensures Grown(a, f'.blocks[b].instrs[i]) == a
    {
      var s': Site := (b, i);
      assert IsSite(f', s');
      var s: Site :| IsSite(f, s) && OpAt(f, s) == OpAt(f', s');
      assert Grown(a, f.blocks[s.0].instrs[s.1]) == a;
    }
  }

  /** The verdict is about the instructions alone. */
  lemma OrderDoesNotMatter(f: Function, f': Function, ch: ValueId, a: Aliases)
    requires SameInstructions(f, f') && SameInstructions(f', f)
    ensures LeastAliases(f, ch, a) ==> LeastAliases(f', ch, a)
    ensures SomethingEscapes(f, a) ==> SomethingEscapes(f', a)
  {
    hide ClosedFor, InstrEscapes;
    if LeastAliases(f, ch, a) {
      ClosedElsewhere(f, f', a);
      forall a' | AliasClosed(f', ch, a')
        ensures Includes(a', a)
      {
        ClosedElsewhere(f', f, a');
      }
    }
    if s: Site :| IsSite(f, s) && InstrEscapes(a, OpAt(f, s)) {
      var s': Site :| IsSite(f', s') && OpAt(f', s') == OpAt(f, s);
    }
  }
}
