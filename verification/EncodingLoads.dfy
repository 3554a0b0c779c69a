/**
  Loads under an assignment that satisfies an encoding: two loads of one place with no write between
  them have one value. What counts as one place is read off the definitions of the addresses.
 */
module EncodingLoads {
  import opened Wrappers
  import opened Graphs
  import opened CutDag
  import opened Terms
  import opened Ir
  import opened Encoding
  import opened Runs
  import opened RunModel
  import opened RunSettled
  import opened RunLoads
  import opened RunTheorem
  import opened EncodingMeaning

  // ---- one place ----

  /** The address or value an address instruction starts from. */
  function BaseOf(op: Op): ValueId
    requires op.FieldAddr? || op.IndexAddr? || op.Assign?
  {
    match op
    case FieldAddr(_, b, _) => b
    case IndexAddr(_, b, _) => b
    case Assign(_, x) => x
  }

  /** At most n steps lead to the register from one that no address instruction defines. */
  ghost predicate Shallow(f: Function, n: nat, v: ValueId)
    decreases n
  {
    forall s: Site :: IsSite(f, s) && MakesKey(OpAt(f, s), v) ==> n > 0 && Shallow(f, n - 1, BaseOf(OpAt(f, s)))
  }

  /** Some instruction computes the register as the address of a field or an element. */
  ghost predicate IsPlace(f: Function, v: ValueId) {
    exists s: Site :: IsSite(f, s) && OpDst(OpAt(f, s)) == Some(v) && (OpAt(f, s).FieldAddr? || OpAt(f, s).IndexAddr?)
  }

  /** The same field, or the element at the same index, of their bases. */
  ghost predicate SameStep(op: Op, a: ValueId, op': Op, b: ValueId) {
    || (op.FieldAddr? && op'.FieldAddr? && op.dst == a && op'.dst == b && op.field == op'.field)
    || (op.IndexAddr? && op'.IndexAddr? && op.dst == a && op'.dst == b && op.index == op'.index)
  }

  ghost predicate CopyOf(f: Function, s: Site, a: ValueId) {
    IsSite(f, s) && OpAt(f, s).Assign? && OpAt(f, s).dst == a && IsPlace(f, OpAt(f, s).src)
  }

  ghost predicate StepsAlike(f: Function, n: nat, s: Site, t: Site, a: ValueId, b: ValueId)
    requires n > 0
    decreases n, 0
  {
    && IsSite(f, s) && IsSite(f, t) && SameStep(OpAt(f, s), a, OpAt(f, t), b)
    && SamePlace(f, n - 1, OpAt(f, s).base, OpAt(f, t).base)
    && Shallow(f, MAX_ADDR_KEY_DEPTH - 1, OpAt(f, s).base) && Shallow(f, MAX_ADDR_KEY_DEPTH - 1, OpAt(f, t).base)
  }

  /** The registers address one place: the same register, the same part of one place, or a copy. */
  ghost predicate SamePlace(f: Function, n: nat, a: ValueId, b: ValueId)
    decreases n, 1
  {
    || a == b
    || (n > 0 && exists s: Site, t: Site :: StepsAlike(f, n, s, t, a, b))
    || (n > 0 && exists s: Site :: CopyOf(f, s, a) && SamePlace(f, n - 1, OpAt(f, s).src, b))
    || (n > 0 && exists s: Site :: CopyOf(f, s, b) && SamePlace(f, n - 1, a, OpAt(f, s).src))
  }

  // ---- definitions are walked before uses ----

  lemma DefWalked(c: Setting, q: nat, r: nat, v: ValueId)
    requires Ready(c) && q < |Walk(c.f, c.order)| && r < |Walk(c.f, c.order)|
    requires IsSite(c.f, Walk(c.f, c.order)[q]) && IsSite(c.f, Walk(c.f, c.order)[r])
    requires DefinesAt(c.f, Walk(c.f, c.order)[q], v)
    requires v in OpReads(OpAt(c.f, Walk(c.f, c.order)[r])) && !OpAt(c.f, Walk(c.f, c.order)[r]).Phi?
    ensures q < r
  {
    hide Walk, ContractsTrue, WellTyped, WellShaped, AllReachable, CutsBackEdges, IsRun, OpReads;
    var d, s := Walk(c.f, c.order)[q], Walk(c.f, c.order)[r];
    assert Precedes(c.f, d, s);
    WalkPrecedes(c, q, r);
  }

  lemma WalkPrecedes(c: Setting, q: nat, r: nat)
    requires Ready(c) && q < |Walk(c.f, c.order)| && r < |Walk(c.f, c.order)|
    requires Precedes(c.f, Walk(c.f, c.order)[q], Walk(c.f, c.order)[r])
    ensures q < r
  {
    hide Walk, ContractsTrue, WellFormed, CutsBackEdges, IsRun;
    var d, s := Walk(c.f, c.order)[q], Walk(c.f, c.order)[r];
    var i, j := WalkFrom(c.f, c.order, r);
    var i', j' := WalkFrom(c.f, c.order, q);
    if d.0 != s.0 {
      var i'' := DominatorEarlier(c, d.0, s.0, i);
      assert i'' == i';
      OffsetsGrow(c.f, c.order, i', i);
    } else {
      assert i == i';
    }
  }

  /** Whatever gives the register a key has been walked. */
  ghost predicate Keyed(c: Setting, v: ValueId, r: nat)
    requires Ready(c)
  {
    forall q: nat :: q < |Walk(c.f, c.order)| && MakesKey(OpAt(c.f, Walk(c.f, c.order)[q]), v) ==> q < r
  }

  // ---- keys are final once their registers are defined ----

  lemma OthersKeepKeys(st: Forwarding, op: Op, v: ValueId)
    requires !MakesKey(op, v)
    ensures KeyOf(ForwardStep(st, op).keys, v) == KeyOf(st.keys, v)
    ensures DepthOf(ForwardStep(st, op).depths, v) == DepthOf(st.depths, v)
    ensures v in ForwardStep(st, op).keys <==> v in st.keys
  {
  }

  lemma {:induction false} KeyStays(c: Setting, v: ValueId, r: nat, r': nat)
    requires Ready(c) && Keyed(c, v, r) && r <= r' <= |Walk(c.f, c.order)|
    ensures KeyOf(StateAt(c, r').keys, v) == KeyOf(StateAt(c, r).keys, v)
  {
    hide Walk, ContractsTrue, WellFormed, CutsBackEdges, IsRun, ForwardStep, StateAt, KeyOf, MakesKey;
    if r < r' {
      KeyStays(c, v, r, r' - 1);
      StateStep(c, r' - 1);
      OthersKeepKeys(StateAt(c, r' - 1), OpAt(c.f, Walk(c.f, c.order)[r' - 1]), v);
    }
  }

  lemma {:induction false} DepthBound(c: Setting, n: nat, v: ValueId, r: nat)
    requires Ready(c) && Shallow(c.f, n, v) && r <= |Walk(c.f, c.order)|
    ensures DepthOf(StateAt(c, r).depths, v) <= n
    decreases r
  {
    hide Walk, ContractsTrue, WellFormed, CutsBackEdges, IsRun, Forward, ListsReachable;
    if r > 0 {
      StateStep(c, r - 1);
      var op := OpAt(c.f, Walk(c.f, c.order)[r - 1]);
      DepthBound(c, n, v, r - 1);
      if MakesKey(op, v) {
        DepthBound(c, n - 1, BaseOf(op), r - 1);
      } else {
        OthersKeepKeys(StateAt(c, r - 1), op, v);
      }
    }
  }

  ghost function FinalKey(c: Setting, v: ValueId): AddrKey
    requires Ready(c)
  {
    KeyOf(StateAt(c, |Walk(c.f, c.order)|).keys, v)
  }

  /** A definition of a register is the only one, and comes before its uses. */
  lemma KeyedAfter(c: Setting, q: nat, v: ValueId)
    requires Ready(c) && q < |Walk(c.f, c.order)| && DefinesAt(c.f, Walk(c.f, c.order)[q], v)
    ensures Keyed(c, v, q + 1)
  {
    hide Walk, ContractsTrue, WellTyped, WellShaped, AllReachable, CutsBackEdges, IsRun, OpDst;
    forall q': nat | q' < |Walk(c.f, c.order)| && MakesKey(OpAt(c.f, Walk(c.f, c.order)[q']), v)
      ensures q' < q + 1
    {
      assert Walk(c.f, c.order)[q'] in Walk(c.f, c.order);
      assert DefinesAt(c.f, Walk(c.f, c.order)[q'], v);
      WalkOnce(c, q, q');
    }
  }

  lemma KeyedAtUse(c: Setting, r: nat, v: ValueId)
    requires Ready(c) && r < |Walk(c.f, c.order)|
    requires v in OpReads(OpAt(c.f, Walk(c.f, c.order)[r])) && !OpAt(c.f, Walk(c.f, c.order)[r]).Phi?
    ensures Keyed(c, v, r)
  {
    hide Walk, ContractsTrue, WellFormed, CutsBackEdges, IsRun, OpReads;
    assert Walk(c.f, c.order)[r] in Walk(c.f, c.order);
    forall q: nat | q < |Walk(c.f, c.order)| && MakesKey(OpAt(c.f, Walk(c.f, c.order)[q]), v)
      ensures q < r
    {
      assert Walk(c.f, c.order)[q] in Walk(c.f, c.order);
      DefWalked(c, q, r, v);
    }
  }

  lemma KeyAtUse(c: Setting, r: nat, v: ValueId)
    requires Ready(c) && r < |Walk(c.f, c.order)|
    requires v in OpReads(OpAt(c.f, Walk(c.f, c.order)[r])) && !OpAt(c.f, Walk(c.f, c.order)[r]).Phi?
    ensures KeyOf(StateAt(c, r).keys, v) == FinalKey(c, v)
  {
    hide Walk, ContractsTrue, WellFormed, CutsBackEdges, IsRun, OpReads, StateAt, KeyOf, Keyed;
    KeyedAtUse(c, r, v);
    KeyStays(c, v, r, |Walk(c.f, c.order)|);
  }

  // ---- one place has one key ----

  function StepKey(op: Op, base: AddrKey): AddrKey
    requires op.FieldAddr? || op.IndexAddr?
  {
    match op
    case FieldAddr(_, _, field) => FieldOf(base, field)
    case IndexAddr(_, _, index) => IndexOf(base, index)
  }

  lemma AddressKey(c: Setting, s: Site, a: ValueId)
    requires Ready(c) && IsSite(c.f, s) && (OpAt(c.f, s).FieldAddr? || OpAt(c.f, s).IndexAddr?) && OpAt(c.f, s).dst == a
    requires Shallow(c.f, MAX_ADDR_KEY_DEPTH - 1, OpAt(c.f, s).base)
    ensures FinalKey(c, a) == StepKey(OpAt(c.f, s), FinalKey(c, OpAt(c.f, s).base))
  {
    hide Walk, ContractsTrue, WellFormed, CutsBackEdges, IsRun, StateAt, Keyed, Shallow, Forward, ListsReachable;
    var op := OpAt(c.f, s);
    var q := WalkHas(c, s);
    StateStep(c, q);
    BaseRead(op);
    KeyAtUse(c, q, op.base);
    DepthBound(c, MAX_ADDR_KEY_DEPTH - 1, op.base, q);
    assert DefinesAt(c.f, s, a);
    KeyedAfter(c, q, a);
    KeyStays(c, a, q + 1, |Walk(c.f, c.order)|);
  }

  lemma BaseRead(op: Op)
    requires op.FieldAddr? || op.IndexAddr? || op.Assign?
    ensures BaseOf(op) in OpReads(op)
  {
    assert OpReads(op)[0] == BaseOf(op);
  }

  lemma CopyKey(c: Setting, s: Site, a: ValueId)
    requires Ready(c) && CopyOf(c.f, s, a)
    ensures FinalKey(c, a) == FinalKey(c, OpAt(c.f, s).src)
  {
    hide Walk, ContractsTrue, WellFormed, CutsBackEdges, IsRun, StateAt, Keyed, Forward, ListsReachable;
    var op := OpAt(c.f, s);
    var q := WalkHas(c, s);
    StateStep(c, q);
    BaseRead(op);
    KeyAtUse(c, q, op.src);
    PlaceKeyed(c, q, op.src);
    assert DefinesAt(c.f, s, a);
    KeyedAfter(c, q, a);
    KeyStays(c, a, q + 1, |Walk(c.f, c.order)|);
  }

  /** The address of a field or an element has a recorded key wherever it is used. */
  lemma PlaceKeyed(c: Setting, r: nat, v: ValueId)
    requires Ready(c) && r < |Walk(c.f, c.order)| && IsPlace(c.f, v)
    requires v in OpReads(OpAt(c.f, Walk(c.f, c.order)[r])) && !OpAt(c.f, Walk(c.f, c.order)[r]).Phi?
    ensures v in StateAt(c, r).keys
  {
    hide Walk, ContractsTrue, WellFormed, CutsBackEdges, IsRun, StateAt, OpReads, OpDst;
    var d: Site :| IsSite(c.f, d) && OpDst(OpAt(c.f, d)) == Some(v)
      && (OpAt(c.f, d).FieldAddr? || OpAt(c.f, d).IndexAddr?);
    assert Walk(c.f, c.order)[r] in Walk(c.f, c.order);
    var q := WalkHas(c, d);
    assert DefinesAt(c.f, d, v);
    DefWalked(c, q, r, v);
    KeyRecorded(c, q, v);
    RecordsStay(c, v, q + 1, r);
  }

  lemma KeyRecorded(c: Setting, q: nat, v: ValueId)
    requires Ready(c) && q < |Walk(c.f, c.order)| && OpDst(OpAt(c.f, Walk(c.f, c.order)[q])) == Some(v)
    requires OpAt(c.f, Walk(c.f, c.order)[q]).FieldAddr? || OpAt(c.f, Walk(c.f, c.order)[q]).IndexAddr?
    ensures v in StateAt(c, q + 1).keys
  {
    hide Walk, ContractsTrue, WellFormed, CutsBackEdges, IsRun, StateAt;
    StateStep(c, q);
  }

  lemma {:induction false} RecordsStay(c: Setting, v: ValueId, q: nat, r: nat)
    requires Ready(c) && q <= r <= |Walk(c.f, c.order)| && v in StateAt(c, q).keys
    ensures v in StateAt(c, r).keys
  {
    hide Walk, ContractsTrue, WellFormed, CutsBackEdges, IsRun, StateAt;
    if q < r {
      RecordsStay(c, v, q, r - 1);
      StateStep(c, r - 1);
    }
  }

  lemma {:induction false} SameKey(c: Setting, n: nat, a: ValueId, b: ValueId)
    requires Ready(c) && SamePlace(c.f, n, a, b)
    ensures FinalKey(c, a) == FinalKey(c, b)
    decreases n
  {
    hide Ready, FinalKey, Shallow;
    if a != b {
      if s: Site, t: Site :| StepsAlike(c.f, n, s, t, a, b) {
        SameKey(c, n - 1, OpAt(c.f, s).base, OpAt(c.f, t).base);
        AddressKey(c, s, a);
        AddressKey(c, t, b);
      } else if s: Site :| CopyOf(c.f, s, a) && SamePlace(c.f, n - 1, OpAt(c.f, s).src, b) {
        CopyKey(c, s, a);
        SameKey(c, n - 1, OpAt(c.f, s).src, b);
      } else {
        var s: Site :| CopyOf(c.f, s, b) && SamePlace(c.f, n - 1, a, OpAt(c.f, s).src);
        CopyKey(c, s, b);
        SameKey(c, n - 1, a, OpAt(c.f, s).src);
      }
    }
  }

  // ---- loads ----

  ghost predicate LoadAt(c: Setting, r: nat)
    requires Ready(c)
  {
    r < |Walk(c.f, c.order)| && OpAt(c.f, Walk(c.f, c.order)[r]).Load?
  }

  /** Nothing that may write memory is walked strictly between. */
  ghost predicate QuietWalk(c: Setting, r0: nat, r: nat)
    requires Ready(c) && r <= |Walk(c.f, c.order)|
  {
    forall q: nat :: r0 < q < r ==> !WritesMemory(OpAt(c.f, Walk(c.f, c.order)[q]))
  }

  /** Loads of what counts as the place of the load at r have the sort of that load. */
  ghost predicate OneSort(c: Setting, r: nat)
    requires Ready(c) && LoadAt(c, r)
  {
    var w := Walk(c.f, c.order);
    forall q: nat :: LoadAt(c, q) && FinalKey(c, OpAt(c.f, w[q]).addr) == FinalKey(c, OpAt(c.f, w[r]).addr) ==>
      SortOfValue(c.f, OpAt(c.f, w[q]).dst) == SortOfValue(c.f, OpAt(c.f, w[r]).dst)
  }

  ghost function LoadKey(c: Setting, r: nat): AddrKey
    requires Ready(c) && LoadAt(c, r)
  {
    KeyOf(StateAt(c, r).keys, OpAt(c.f, Walk(c.f, c.order)[r]).addr)
  }

  lemma LoadKeyFinal(c: Setting, r: nat)
    requires Ready(c) && LoadAt(c, r)
    ensures LoadKey(c, r) == FinalKey(c, OpAt(c.f, Walk(c.f, c.order)[r]).addr)
  {
    hide IsRun, ContractsTrue, WellFormed, CutsBackEdges, ListsReachable, Forward, Walk, FinalKey, KeyOf, StateAt;
    assert Walk(c.f, c.order)[r] in Walk(c.f, c.order);
    var op := OpAt(c.f, Walk(c.f, c.order)[r]);
    assert OpReads(op)[0] == op.addr;
    KeyAtUse(c, r, op.addr);
  }

  /** The load that leads the loads of a place from r on. */
  ghost function LeaderAt(c: Setting, r: nat): ValueId
    requires Ready(c) && LoadAt(c, r)
  {
    var seen := StateAt(c, r).seen;
    if LoadKey(c, r) in seen then seen[LoadKey(c, r)] else OpAt(c.f, Walk(c.f, c.order)[r]).dst
  }

  lemma LeaderSeen(c: Setting, r0: nat, r: nat)
    requires Ready(c) && LoadAt(c, r0) && r0 < r <= |Walk(c.f, c.order)| && QuietWalk(c, r0, r)
    ensures LoadKey(c, r0) in StateAt(c, r).seen && StateAt(c, r).seen[LoadKey(c, r0)] == LeaderAt(c, r0)
    decreases r
  {
    hide Walk, ContractsTrue, WellFormed, CutsBackEdges, IsRun, StateAt, KeyOf, Forward, ListsReachable;
    StateStep(c, r - 1);
    if r0 < r - 1 {
      LeaderSeen(c, r0, r - 1);
    }
  }

  /** A load has the value of the load that leads it. */
  lemma LedBy(c: Setting, m: Model, r: nat)
    requires Ready(c) && LoadAt(c, r) && OneSort(c, r) && SortOfValue(c.f, OpAt(c.f, Walk(c.f, c.order)[r]).dst).Some?
    requires Models(m, Query(Declared(c.f), Encoded(c)))
    ensures SortOfValue(c.f, LeaderAt(c, r)).Some?
    ensures TermOf(c.f, LeaderAt(c, r)).Some? && TermOf(c.f, OpAt(c.f, Walk(c.f, c.order)[r]).dst).Some?
    ensures Eval(TermOf(c.f, OpAt(c.f, Walk(c.f, c.order)[r]).dst).value, m)
         == Eval(TermOf(c.f, LeaderAt(c, r)).value, m)
  {
    hide IsRun, ContractsTrue, WellFormed, CutsBackEdges, ListsReachable, Forward, Walk, KeyOf, StateAt, FinalKey,
      Eval, Declared, Encoded;
    var w, st := Walk(c.f, c.order), StateAt(c, r);
    assert w[r] in w;
    var op := OpAt(c.f, w[r]);
    if LoadKey(c, r) in st.seen {
      LeaderIsLoad(c, r);
      LeaderEquation(c, r);
      EquationHolds(TermOf(c.f, op.dst).value, TermOf(c.f, LeaderAt(c, r)).value, m);
    }
  }

  lemma LeaderIsLoad(c: Setting, r: nat)
    requires Ready(c) && LoadAt(c, r) && OneSort(c, r) && LoadKey(c, r) in StateAt(c, r).seen
    ensures SortOfValue(c.f, LeaderAt(c, r)) == SortOfValue(c.f, OpAt(c.f, Walk(c.f, c.order)[r]).dst)
  {
    hide Ready, Walk, KeyOf, StateAt, FinalKey, Forwarded;
    var r0 := SeenPending(c, r, LoadKey(c, r));
    LoadKeyFinal(c, r);
    LoadKeyFinal(c, r0);
  }

  lemma LeaderEquation(c: Setting, r: nat)
    requires Ready(c) && LoadAt(c, r) && LoadKey(c, r) in StateAt(c, r).seen
    requires SortOfValue(c.f, OpAt(c.f, Walk(c.f, c.order)[r]).dst).Some?
    requires SortOfValue(c.f, LeaderAt(c, r)) == SortOfValue(c.f, OpAt(c.f, Walk(c.f, c.order)[r]).dst)
    ensures TermOf(c.f, LeaderAt(c, r)).Some? && TermOf(c.f, OpAt(c.f, Walk(c.f, c.order)[r]).dst).Some?
    ensures Eq(TermOf(c.f, OpAt(c.f, Walk(c.f, c.order)[r]).dst).value, TermOf(c.f, LeaderAt(c, r)).value) in Encoded(c)
  {
    hide IsRun, ContractsTrue, WellFormed, CutsBackEdges, Walk, KeyOf, DeclarationAsserts, GuardAsserts, AllOpAsserts,
      AllCallAsserts, Forward, ListsReachable;
    var w := Walk(c.f, c.order);
    ForwardHas(c.f, w, r);
    var op := OpAt(c.f, w[r]);
    var t := Eq(TermOf(c.f, op.dst).value, TermOf(c.f, LeaderAt(c, r)).value);
    assert t in ForwardAssert(c.f, Forwarded(c.f, w[..r]), op);
  }

  lemma {:induction false} ForwardHas(f: Function, sites: seq<Site>, r: nat)
    requires (forall s :: s in sites ==> IsSite(f, s)) && r < |sites|
    ensures forall t :: t in ForwardAssert(f, Forwarded(f, sites[..r]), OpAt(f, sites[r])) ==>
              t in ForwardAsserts(f, sites)
  {
    hide ForwardAssert, Forwarded;
    if r < |sites| - 1 {
      var before := sites[..|sites| - 1];
      assert before[..r] == sites[..r];
      ForwardHas(f, before, r);
    }
  }

  /**
    Two loads of one place, with nothing walked between them that may write memory, have one value under
    every assignment that satisfies the encoding.
   */
  lemma LoadsAgree(c: Setting, m: Model, n: nat, r0: nat, r: nat)
    requires Ready(c) && LoadAt(c, r0) && LoadAt(c, r) && r0 < r && QuietWalk(c, r0, r)
    requires SamePlace(c.f, n, OpAt(c.f, Walk(c.f, c.order)[r0]).addr, OpAt(c.f, Walk(c.f, c.order)[r]).addr)
    requires OneSort(c, r) && SortOfValue(c.f, OpAt(c.f, Walk(c.f, c.order)[r]).dst).Some?
    requires Models(m, Query(Declared(c.f), Encoded(c)))
    ensures ValueIn(c.f, m, OpAt(c.f, Walk(c.f, c.order)[r0]).dst).Some?
    ensures ValueIn(c.f, m, OpAt(c.f, Walk(c.f, c.order)[r0]).dst)
         == ValueIn(c.f, m, OpAt(c.f, Walk(c.f, c.order)[r]).dst)
  {
    hide IsRun, ContractsTrue, WellFormed, CutsBackEdges, ListsReachable, Forward, Walk, KeyOf, StateAt, FinalKey,
      Eval, Declared, Encoded, SamePlace;
    var w := Walk(c.f, c.order);
    assert w[r0] in w && w[r] in w;
    var d0, d := OpAt(c.f, w[r0]).dst, OpAt(c.f, w[r]).dst;
    SameKey(c, n, OpAt(c.f, w[r0]).addr, OpAt(c.f, w[r]).addr);
    LoadKeyFinal(c, r0);
    LoadKeyFinal(c, r);
    LeaderSeen(c, r0, r);
    LedBy(c, m, r0);
    LedBy(c, m, r);
    LoadIn(c, m, r0);
    LoadIn(c, m, r);
    ValueEval(c.f, m, d0);
    ValueEval(c.f, m, d);
  }

  lemma LoadIn(c: Setting, m: Model, r: nat)
    requires Ready(c) && LoadAt(c, r) && Models(m, Query(Declared(c.f), Encoded(c)))
    requires SortOfValue(c.f, OpAt(c.f, Walk(c.f, c.order)[r]).dst).Some?
    ensures ValueIn(c.f, m, OpAt(c.f, Walk(c.f, c.order)[r]).dst).Some?
  {
    hide Walk, Declared, Encoded, IsRun, ContractsTrue, WellFormed, CutsBackEdges, Forward, ListsReachable;
    var s := Walk(c.f, c.order)[r];
    assert s in Walk(c.f, c.order);
    Mentioned(c.f, s, OpAt(c.f, s).dst);
  }
}
