/**
  What locations stand for: the walk up the definitions as a derivation, and the places locations
  denote in a caller and in its callee.
 */
module LocationMeaning {
  import opened Wrappers
  import opened Ir
  import opened Encoding
  import opened Locations

  // ---- derivations ----

  predicate Later(s: Site, s': Site) {
    s.0 > s'.0 || (s.0 == s'.0 && s.1 > s'.1)
  }

  predicate DefinesHere(f: Function, s: Site, v: ValueId) {
    IsSite(f, s) && OpDst(OpAt(f, s)) == Some(v)
  }

  /** The definition of the register that counts: with several, the one furthest down. */
  ghost predicate LastDef(f: Function, s: Site, v: ValueId) {
    DefinesHere(f, s, v) && forall s': Site :: DefinesHere(f, s', v) ==> !Later(s', s)
  }

  predicate FirstAt(vs: seq<ValueId>, i: nat, v: ValueId) {
    i < |vs| && vs[i] == v && v !in vs[..i]
  }

  /** Registers whose definition is not looked at. */
  predicate GivenKind(f: Function, v: ValueId) {
    var k := ValueOf(f, v).kind;
    k.ParamKind? || k.FreeVarKind? || k.GlobalKind?
  }

  /** What the register itself names, if it is where a walk ends. */
  ghost predicate Origin(f: Function, v: ValueId, r: Root) {
    match r
    case ParamRoot(i) => ValueOf(f, v).kind.ParamKind? && FirstAt(f.params, i, v)
    case FreeVarRoot(i) => ValueOf(f, v).kind.FreeVarKind? && FirstAt(f.freeVars, i, v)
    case GlobalRoot(name) => ValueOf(f, v).kind == GlobalKind(name)
    case AllocRoot(d) => d == v && !GivenKind(f, v)
      && exists s: Site :: LastDef(f, s, v) && (OpAt(f, s).Alloc? || OpAt(f, s).Make?)
    case UnknownRoot => false
  }

  /** What an instruction's result is reached from, and by which field. */
  predicate ReachedFrom(op: Op, from: ValueId, fields: seq<nat>) {
    match op
    case FieldAddr(_, base, field) => from == base && fields == [field]
    case Load(_, addr) => from == addr && fields == []
    case Assign(_, src) => from == src && fields == []
    case _ => false
  }

  ghost predicate StepUp(f: Function, v: ValueId, from: ValueId, fields: seq<nat>) {
    !GivenKind(f, v) && exists s: Site :: LastDef(f, s, v) && ReachedFrom(OpAt(f, s), from, fields)
  }

  /** In n steps up its definitions the register is found to be this part of the root. */
  ghost predicate PartOf(f: Function, n: nat, v: ValueId, r: Root, path: seq<nat>)
    decreases n
  {
    if n == 0 then Origin(f, v, r) && path == []
    else exists from: ValueId, fields: seq<nat>, inner: seq<nat> ::
           StepUp(f, v, from, fields) && PartOf(f, n - 1, from, r, inner) && path == inner + fields
  }

  // ---- the definition map ----

  lemma {:induction false} DefsInLast(instrs: seq<Op>, v: ValueId) returns (k: nat)
    ensures v in DefsIn(instrs) ==> k < |instrs| && DefsIn(instrs)[v] == instrs[k] && OpDst(instrs[k]) == Some(v)
    ensures forall j :: (if v in DefsIn(instrs) then k + 1 else 0) <= j < |instrs| ==> OpDst(instrs[j]) != Some(v)
  {
    hide OpDst;
    k := 0;
    if instrs != [] {
      var n := |instrs| - 1;
      k := DefsInLast(instrs[..n], v);
      if OpDst(instrs[n]) == Some(v) {
        k := n;
      }
    }
  }

  /** The map has the definition that counts, among the first n blocks. */
  lemma {:induction false} DefsOfLast(f: Function, n: nat, v: ValueId) returns (s: Site)
    requires n <= |f.blocks|
    ensures v in DefsOf(f, n) ==> s.0 < n && DefinesHere(f, s, v) && DefsOf(f, n)[v] == OpAt(f, s)
    ensures forall s': Site :: s'.0 < n && DefinesHere(f, s', v) ==> v in DefsOf(f, n) && !Later(s', s)
  {
    hide OpDst, DefsIn;
    s := (0, 0);
    if n > 0 {
      s := DefsOfLast(f, n - 1, v);
      var instrs := f.blocks[n - 1].instrs;
      var k := DefsInLast(instrs, v);
      if v in DefsIn(instrs) {
        s := (n - 1, k);
      }
      forall s': Site | s'.0 < n && DefinesHere(f, s', v)
        ensures v in DefsOf(f, n) && !Later(s', s)
      {
        if s'.0 == n - 1 {
          assert OpAt(f, s') == instrs[s'.1];
        }
      }
    }
  }

  lemma DefMapExact(f: Function, v: ValueId) returns (s: Site)
    ensures v in DefsOf(f, |f.blocks|) ==> LastDef(f, s, v) && DefsOf(f, |f.blocks|)[v] == OpAt(f, s)
    ensures v !in DefsOf(f, |f.blocks|) ==> forall s': Site :: !LastDef(f, s', v)
  {
    hide OpDst, DefsOf;
    s := DefsOfLast(f, |f.blocks|, v);
  }

  lemma LastDefUnique(f: Function, v: ValueId, s: Site, s': Site)
    requires LastDef(f, s, v) && LastDef(f, s', v)
    ensures s == s'
  {
    hide OpDst;
  }

  // ---- the walk ----

  lemma {:induction false} FirstIs(vs: seq<ValueId>, i: nat, v: ValueId)
    ensures IndexIn(vs, v) == Some(i) <==> FirstAt(vs, i, v)
  {
    if i <= |vs| {
      assert forall j :: 0 <= j < i ==> vs[..i][j] == vs[j] && vs[j] in vs[..i];
    }
  }

  /** The first register of a walk, if it names something itself. */
  lemma RootExact(f: Function, v: ValueId, r: Root, path: seq<nat>)
    requires !r.AllocRoot? && !r.UnknownRoot?
    ensures RootAt(f, v, path) == Some(Loc(r, path)) <==> Origin(f, v, r)
  {
    hide IndexIn, FirstAt;
    if r.ParamRoot? {
      FirstIs(f.params, r.index, v);
    } else if r.FreeVarRoot? {
      FirstIs(f.freeVars, r.index, v);
    }
  }

  lemma GivenEnds(f: Function, v: ValueId, path: seq<nat>)
    ensures GivenKind(f, v) <==> RootAt(f, v, path).Some?
    ensures RootAt(f, v, path).Some? ==>
              var l := RootAt(f, v, path).value;
              !l.root.AllocRoot? && (l.root.UnknownRoot? ==> l == UNKNOWN) && (l != UNKNOWN ==> l.path == path)
  {
    hide IndexIn;
  }

  function Defs(f: Function): map<ValueId, Op> {
    DefsOf(f, |f.blocks|)
  }

  /** A short enough derivation is what the walk finds. */
  lemma {:induction false} WalkFinds(f: Function, n: nat, v: ValueId, r: Root, inner: seq<nat>, path: seq<nat>,
                                     hops: nat)
    requires PartOf(f, n, v, r, inner) && |inner + path| <= MAX_LOC_DEPTH && hops + n <= MAX_LOC_HOPS
    ensures ResolveFrom(f, Defs(f), v, path, hops) == Loc(r, inner + path)
    decreases n
  {
    hide Origin, StepUp, RootAt, LastDef, GivenKind, DefsOf;
    GivenEnds(f, v, path);
    if n == 0 {
      assert inner + path == path;
      OriginFinds(f, v, r, path, hops);
    } else {
      var from: ValueId, fields: seq<nat>, rest: seq<nat> :|
        StepUp(f, v, from, fields) && PartOf(f, n - 1, from, r, rest) && inner == rest + fields;
      assert rest + (fields + path) == inner + path;
      WalkFinds(f, n - 1, from, r, rest, fields + path, hops + 1);
      StepWalks(f, v, from, fields, path, hops);
    }
  }

  lemma OriginFinds(f: Function, v: ValueId, r: Root, path: seq<nat>, hops: nat)
    requires Origin(f, v, r) && |path| <= MAX_LOC_DEPTH && hops <= MAX_LOC_HOPS
    ensures ResolveFrom(f, Defs(f), v, path, hops) == Loc(r, path)
  {
    hide RootAt, DefsOf, GivenKind;
    GivenEnds(f, v, path);
    if r.AllocRoot? {
      var s: Site :| LastDef(f, s, v) && (OpAt(f, s).Alloc? || OpAt(f, s).Make?);
      DefIs(f, v, s);
    } else {
      RootExact(f, v, r, path);
    }
  }

  /** The definition that counts is the one in the map. */
  lemma DefIs(f: Function, v: ValueId, s: Site)
    requires LastDef(f, s, v)
    ensures v in Defs(f) && Defs(f)[v] == OpAt(f, s) && OpDst(OpAt(f, s)) == Some(v)
  {
    hide DefsOf;
    var s' := DefMapExact(f, v);
    if v in Defs(f) {
      LastDefUnique(f, v, s, s');
    }
  }

  lemma StepWalks(f: Function, v: ValueId, from: ValueId, fields: seq<nat>, path: seq<nat>, hops: nat)
    requires StepUp(f, v, from, fields) && |path| <= MAX_LOC_DEPTH && hops <= MAX_LOC_HOPS
    ensures ResolveFrom(f, Defs(f), v, path, hops) == ResolveFrom(f, Defs(f), from, fields + path, hops + 1)
  {
    hide RootAt, DefsOf, GivenKind;
    GivenEnds(f, v, path);
    var s: Site :| LastDef(f, s, v) && ReachedFrom(OpAt(f, s), from, fields);
    DefIs(f, v, s);
    assert [] + path == path;
  }

  /** A walk that finds something ends here or takes one step. */
  lemma WalkGoes(f: Function, v: ValueId, path: seq<nat>, hops: nat)
    requires ResolveFrom(f, Defs(f), v, path, hops) != UNKNOWN
    ensures |path| <= MAX_LOC_DEPTH && hops <= MAX_LOC_HOPS
    ensures var l := ResolveFrom(f, Defs(f), v, path, hops);
            || (Origin(f, v, l.root) && l.path == path)
            || exists from: ValueId, fields: seq<nat> :: StepUp(f, v, from, fields)
  {
    hide RootAt, DefsOf, Origin, StepUp, GivenKind;
    var l := ResolveFrom(f, Defs(f), v, path, hops);
    GivenEnds(f, v, path);
    if RootAt(f, v, path).Some? {
      RootExact(f, v, l.root, path);
    } else {
      var s := DefMapExact(f, v);
      var op := OpAt(f, s);
      if op.Alloc? || op.Make? {
        MadeHere(f, v, s);
      } else if op.FieldAddr? {
        StepsHere(f, v, s, op.base, [op.field]);
      } else {
        StepsHere(f, v, s, if op.Load? then op.addr else op.src, []);
      }
    }
  }

  /** What the walk finds has a short enough derivation. */
  lemma {:induction false} WalkDerives(f: Function, v: ValueId, path: seq<nat>, hops: nat)
      returns (n: nat, inner: seq<nat>)
    requires ResolveFrom(f, Defs(f), v, path, hops) != UNKNOWN
    ensures var l := ResolveFrom(f, Defs(f), v, path, hops);
            && hops + n <= MAX_LOC_HOPS && PartOf(f, n, v, l.root, inner)
            && l.path == inner + path && |l.path| <= MAX_LOC_DEPTH
    decreases MAX_LOC_HOPS + 1 - hops
  {
    hide ResolveFrom, DefsOf, Origin, StepUp;
    var l := ResolveFrom(f, Defs(f), v, path, hops);
    WalkGoes(f, v, path, hops);
    if Origin(f, v, l.root) && l.path == path {
      n, inner := 0, [];
      assert [] + path == path;
    } else {
      var from: ValueId, fields: seq<nat> :| StepUp(f, v, from, fields);
      StepWalks(f, v, from, fields, path, hops);
      var m, rest := WalkDerives(f, from, fields + path, hops + 1);
      n, inner := m + 1, rest + fields;
      assert rest + (fields + path) == inner + path;
    }
  }

  lemma MadeHere(f: Function, v: ValueId, s: Site)
    requires LastDef(f, s, v) && (OpAt(f, s).Alloc? || OpAt(f, s).Make?) && !GivenKind(f, v)
    ensures Origin(f, v, AllocRoot(v)) && OpAt(f, s).dst == v
  {
  }

  lemma StepsHere(f: Function, v: ValueId, s: Site, from: ValueId, fields: seq<nat>)
    requires LastDef(f, s, v) && ReachedFrom(OpAt(f, s), from, fields) && !GivenKind(f, v)
    ensures StepUp(f, v, from, fields)
  {
    hide LastDef, GivenKind;
  }

  /**
    A register is located at a part of a root exactly when at most 32 steps up its definitions say so and
    the path is at most two fields long; otherwise its location is unknown.
   */
  lemma LocExact(f: Function, v: ValueId, r: Root, path: seq<nat>)
    requires r != UnknownRoot
    ensures LocOf(f, v) == Loc(r, path) <==>
              |path| <= MAX_LOC_DEPTH && exists n: nat :: n <= MAX_LOC_HOPS && PartOf(f, n, v, r, path)
    ensures LocOf(f, v).root == UnknownRoot ==> LocOf(f, v) == UNKNOWN
  {
    hide ResolveFrom, PartOf;
    if LocOf(f, v) != UNKNOWN {
      var n, inner := WalkDerives(f, v, [], 0);
      assert inner + [] == inner;
      PartKnown(f, n, v, LocOf(f, v).root, inner);
    }
    if |path| <= MAX_LOC_DEPTH && exists n: nat :: n <= MAX_LOC_HOPS && PartOf(f, n, v, r, path) {
      var n: nat :| n <= MAX_LOC_HOPS && PartOf(f, n, v, r, path);
      assert path + [] == path;
      WalkFinds(f, n, v, r, path, [], 0);
    }
  }

  lemma {:induction false} PartKnown(f: Function, n: nat, v: ValueId, r: Root, path: seq<nat>)
    requires PartOf(f, n, v, r, path)
    ensures r != UnknownRoot
    decreases n
  {
    hide StepUp;
    if n > 0 {
      var from: ValueId, fields: seq<nat>, inner: seq<nat> :|
        StepUp(f, v, from, fields) && PartOf(f, n - 1, from, r, inner) && path == inner + fields;
      PartKnown(f, n - 1, from, r, inner);
    }
  }

  // ---- what locations denote ----

  /** Where parameters, captures, globals and allocations are, and where their fields are. */
  datatype Places<!P> = Places(param: nat -> P, capture: nat -> P, global: string -> P, alloc: ValueId -> P,
    field: (P, nat) -> P)

  function Follow<P>(field: (P, nat) -> P, start: P, path: seq<nat>): P {
    if path == [] then start else field(Follow(field, start, path[..|path| - 1]), path[|path| - 1])
  }

  lemma {:induction false} FollowOn<P>(field: (P, nat) -> P, start: P, a: seq<nat>, b: seq<nat>)
    ensures Follow(field, start, a + b) == Follow(field, Follow(field, start, a), b)
  {
    if b == [] {
      assert a + b == a;
    } else {
      assert (a + b)[..|a + b| - 1] == a + b[..|b| - 1];
      FollowOn(field, start, a, b[..|b| - 1]);
    }
  }

  function PlaceAt<P>(w: Places<P>, l: Loc): P
    requires l.root != UnknownRoot
  {
    var start := match l.root
                 case ParamRoot(i) => w.param(i)
                 case FreeVarRoot(i) => w.capture(i)
                 case GlobalRoot(name) => w.global(name)
                 case AllocRoot(d) => w.alloc(d);
    Follow(w.field, start, l.path)
  }

  /** The callee's parameters are the arguments, its captures the bindings, and globals are shared. */
  ghost predicate Entered<P>(caller: Places<P>, callee: Places<P>, arg: Frame, fv: Frame) {
    && caller.global == callee.global && caller.field == callee.field
    && (forall i: nat :: arg(i).root != UnknownRoot ==> callee.param(i) == PlaceAt(caller, arg(i)))
    && (forall i: nat :: fv(i).root != UnknownRoot ==> callee.capture(i) == PlaceAt(caller, fv(i)))
  }

  /** A location re-rooted at a call denotes the caller's name for the very place the callee means. */
  lemma RebaseMeans<P>(caller: Places<P>, callee: Places<P>, arg: Frame, fv: Frame, l: Loc)
    requires Entered(caller, callee, arg, fv) && l.root != UnknownRoot && RebaseLoc(l, arg, fv) != UNKNOWN
    ensures RebaseLoc(l, arg, fv).root != UnknownRoot
    ensures PlaceAt(caller, RebaseLoc(l, arg, fv)) == PlaceAt(callee, l)
  {
    hide Follow;
    match l.root
    case ParamRoot(i) => AppendedPlace(caller, arg(i), l.path);
    case FreeVarRoot(i) => AppendedPlace(caller, fv(i), l.path);
    case _ =>
  }

  lemma AppendedPlace<P>(w: Places<P>, base: Loc, path: seq<nat>)
    requires base.root != UnknownRoot
    ensures PlaceAt(w, Loc(base.root, base.path + path)) == Follow(w.field, PlaceAt(w, base), path)
  {
    hide Follow;
    match base.root
    case ParamRoot(i) => FollowOn(w.field, w.param(i), base.path, path);
    case FreeVarRoot(i) => FollowOn(w.field, w.capture(i), base.path, path);
    case GlobalRoot(name) => FollowOn(w.field, w.global(name), base.path, path);
    case AllocRoot(d) => FollowOn(w.field, w.alloc(d), base.path, path);
  }

  /** The caller has a name for it unless the callee made it, the caller does not know, or the path is too long. */
  lemma RebaseKnown(l: Loc, arg: Frame, fv: Frame)
    ensures l.root.AllocRoot? || l.root.UnknownRoot? ==> RebaseLoc(l, arg, fv) == UNKNOWN
    ensures l.root.GlobalRoot? ==> RebaseLoc(l, arg, fv) == l
    ensures l.root.ParamRoot? && arg(l.root.index).root != UnknownRoot ==>
              (RebaseLoc(l, arg, fv) == UNKNOWN <==> |arg(l.root.index).path| + |l.path| > MAX_LOC_DEPTH)
    ensures l.root.FreeVarRoot? && fv(l.root.index).root != UnknownRoot ==>
              (RebaseLoc(l, arg, fv) == UNKNOWN <==> |fv(l.root.index).path| + |l.path| > MAX_LOC_DEPTH)
  {
  }
}
