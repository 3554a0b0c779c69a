/**
  Where an effect happens: an access path from a parameter, a captured variable, a global or a local
  allocation, or the one unknown location that stands for all others. Crossing a call re-roots it.
 */
module Locations {
  import opened Wrappers
  import opened Ir

  datatype Root =
    ParamRoot(index: nat) | GlobalRoot(name: string) | AllocRoot(site: ValueId) | FreeVarRoot(index: nat) | UnknownRoot

  datatype Loc = Loc(root: Root, path: seq<nat>)

  const MAX_LOC_DEPTH: nat := 2
  const MAX_LOC_HOPS: nat := 32

  const UNKNOWN := Loc(UnknownRoot, [])

  /** Too deep a path loses its root altogether. */
  function Capped(l: Loc): Loc {
    if |l.path| > MAX_LOC_DEPTH || l.root == UnknownRoot then UNKNOWN else l
  }

  // ---- resolving a value ----

  function DefsIn(instrs: seq<Op>): map<ValueId, Op> {
    if instrs == [] then map[]
    else
      var op := instrs[|instrs| - 1];
      var before := DefsIn(instrs[..|instrs| - 1]);
      match OpDst(op)
      case None => before
      case Some(d) => before[d := op]
  }

  /** The defining instruction of each value; a later definition replaces an earlier one. */
  function DefsOf(f: Function, n: nat): map<ValueId, Op>
    requires n <= |f.blocks|
  {
    if n == 0 then map[] else DefsOf(f, n - 1) + DefsIn(f.blocks[n - 1].instrs)
  }

  method DefMap(f: Function) returns (defs: map<ValueId, Op>)
    ensures defs == DefsOf(f, |f.blocks|)
  {
    hide OpDst;
    defs := map[];
    for b := 0 to |f.blocks|
      invariant defs == DefsOf(f, b)
    {
      var instrs := f.blocks[b].instrs;
      for i := 0 to |instrs|
        invariant defs == DefsOf(f, b) + DefsIn(instrs[..i])
      {
        assert instrs[..i + 1][..i] == instrs[..i];
        match OpDst(instrs[i])
        case None =>
        case Some(d) => defs := defs[d := instrs[i]];
      }
      assert instrs[..|instrs|] == instrs;
    }
  }

  function RootAt(f: Function, v: ValueId, path: seq<nat>): Option<Loc> {
    match ValueOf(f, v).kind
    case ParamKind =>
      (match IndexIn(f.params, v)
       case Some(i) => Some(Loc(ParamRoot(i), path))
       case None => Some(UNKNOWN))
    case FreeVarKind =>
      (match IndexIn(f.freeVars, v)
       case Some(i) => Some(Loc(FreeVarRoot(i), path))
       case None => Some(UNKNOWN))
    case GlobalKind(name) => Some(Loc(GlobalRoot(name), path))
    case _ => None
  }

  /** The walk up the definitions: field steps lengthen the path, loads and copies are transparent. */
  function ResolveFrom(f: Function, defs: map<ValueId, Op>, cur: ValueId, path: seq<nat>, hops: nat): Loc
    decreases MAX_LOC_HOPS + 1 - hops
  {
    if |path| > MAX_LOC_DEPTH || hops > MAX_LOC_HOPS then UNKNOWN
    else if RootAt(f, cur, path).Some? then RootAt(f, cur, path).value
    else if cur !in defs then UNKNOWN
    else match defs[cur]
         case FieldAddr(_, base, field) => ResolveFrom(f, defs, base, [field] + path, hops + 1)
         case Alloc(d) => Loc(AllocRoot(d), path)
         case Make(d, _, _) => Loc(AllocRoot(d), path)
         case Load(_, addr) => ResolveFrom(f, defs, addr, path, hops + 1)
         case Assign(_, src) => ResolveFrom(f, defs, src, path, hops + 1)
         case _ => UNKNOWN
  }

  function LocOf(f: Function, v: ValueId): Loc {
    ResolveFrom(f, DefsOf(f, |f.blocks|), v, [], 0)
  }

  method ResolveLoc(f: Function, v: ValueId) returns (l: Loc)
    ensures l == LocOf(f, v)
  {
    hide DefsOf, IndexIn;
    var defs := DefMap(f);
    var cur, path: seq<nat>, hops: nat := v, [], 0;
    while true
      invariant ResolveFrom(f, defs, cur, path, hops) == LocOf(f, v)
      decreases MAX_LOC_HOPS + 2 - hops
    {
      if |path| > MAX_LOC_DEPTH || hops > MAX_LOC_HOPS {
        return UNKNOWN;
      }
      hops := hops + 1;
      match RootAt(f, cur, path) {
        case Some(found) => return found;
        case None =>
      }
      if cur !in defs {
        return UNKNOWN;
      }
      match defs[cur] {
        case FieldAddr(_, base, field) => path, cur := [field] + path, base;
        case Alloc(d) => return Loc(AllocRoot(d), path);
        case Make(d, _, _) => return Loc(AllocRoot(d), path);
        case Load(_, addr) => cur := addr;
        case Assign(_, src) => cur := src;
        case _ => return UNKNOWN;
      }
    }
  }

  // ---- re-rooting ----

  type Frame = nat -> Loc

  /** A location of the callee seen from the caller: its arguments for parameters, its bindings for captures. */
  function RebaseLoc(l: Loc, arg: Frame, fv: Frame): Loc {
    match l.root
    case ParamRoot(i) => Capped(Loc(arg(i).root, arg(i).path + l.path))
    case FreeVarRoot(i) => Capped(Loc(fv(i).root, fv(i).path + l.path))
    case GlobalRoot(_) => l
    case AllocRoot(_) => UNKNOWN
    case UnknownRoot => UNKNOWN
  }

  /** Two call sites in a row: the callee's parameters through the first, and what that gives through the second. */
  function Through(first: Frame, arg: Frame, fv: Frame): Frame {
    (i: nat) => RebaseLoc(first(i), arg, fv)
  }

  lemma Associates(a: seq<nat>, b: seq<nat>, c: seq<nat>)
    ensures (a + b) + c == a + (b + c)
  {
  }

  lemma ExtendRebased(c: Loc, path: seq<nat>, arg: Frame, fv: Frame)
    ensures RebaseLoc(Capped(Loc(c.root, c.path + path)), arg, fv) ==
            Capped(Loc(RebaseLoc(c, arg, fv).root, RebaseLoc(c, arg, fv).path + path))
  {
    match c.root
    case ParamRoot(j) => Associates(arg(j).path, c.path, path);
    case FreeVarRoot(j) => Associates(fv(j).path, c.path, path);
    case _ =>
  }

  /** Re-rooting through two call sites is re-rooting once through the composed one. */
  lemma RebaseTwice(l: Loc, arg1: Frame, fv1: Frame, arg2: Frame, fv2: Frame)
    ensures RebaseLoc(RebaseLoc(l, arg1, fv1), arg2, fv2)
        == RebaseLoc(l, Through(arg1, arg2, fv2), Through(fv1, arg2, fv2))
  {
    match l.root
    case ParamRoot(i) => ExtendRebased(arg1(i), l.path, arg2, fv2);
    case FreeVarRoot(i) => ExtendRebased(fv1(i), l.path, arg2, fv2);
    case _ =>
  }

  /** The second frame tells no more than the first: each slot is the same or unknown. */
  ghost predicate Degrades(better: Frame, worse: Frame) {
    forall i: nat :: worse(i) == better(i) || worse(i).root == UnknownRoot
  }

  lemma RebaseDegrades(l: Loc, arg: Frame, fv: Frame, arg': Frame, fv': Frame)
    requires Degrades(arg, arg') && Degrades(fv, fv')
    ensures RebaseLoc(l, arg', fv') == RebaseLoc(l, arg, fv) || RebaseLoc(l, arg', fv') == UNKNOWN
  {
    match l.root
    case ParamRoot(i) => assert arg'(i) == arg(i) || arg'(i).root == UnknownRoot;
    case FreeVarRoot(i) => assert fv'(i) == fv(i) || fv'(i).root == UnknownRoot;
    case _ =>
  }
}
