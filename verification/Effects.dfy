/**
  Concurrency effects: which channel and lock operations a function may perform, at which
  locations, and whether it spawns. The lattice, its re-rooting at call sites, and what a set of
  effects says about a blocked operation.
 */
module Effects {
  import opened Wrappers
  import opened Ir
  import opened Locations

  datatype ChanOp = MakeOp | SendOp | RecvOp | CloseOp | SelectOp
  datatype LockOp = LockedOp | UnlockedOp | RLockedOp | RUnlockedOp | DeferredUnlockOp | DeferredRUnlockOp

  datatype Spawns = NoSpawns | Bounded | Unbounded {
    function Rank(): nat {
      match this
      case NoSpawns => 0
      case Bounded => 1
      case Unbounded => 2
    }

    function Max(other: Spawns): Spawns {
      if Rank() >= other.Rank() then this else other
    }
  }

  type Table<T> = map<Loc, set<T>>

  datatype Effects = Effects(spawns: Spawns, chanOps: Table<ChanOp>, lockOps: Table<LockOp>)

  const EMPTY := Effects(NoSpawns, map[], map[])

  const TOP := Effects(Unbounded,
                       map[UNKNOWN := {MakeOp, SendOp, RecvOp, CloseOp, SelectOp}],
                       map[UNKNOWN := {LockedOp, UnlockedOp, RLockedOp, RUnlockedOp, DeferredUnlockOp,
                         DeferredRUnlockOp}])

  // ---- the lattice ----

  function At<T>(m: Table<T>, l: Loc): set<T> {
    if l in m then m[l] else {}
  }

  function Merged<T>(a: Table<T>, b: Table<T>): Table<T> {
    map l | l in a.Keys + b.Keys :: At(a, l) + At(b, l)
  }

  function Joined(a: Effects, b: Effects): Effects {
    Effects(a.spawns.Max(b.spawns), Merged(a.chanOps, b.chanOps), Merged(a.lockOps, b.lockOps))
  }

  predicate Within<T>(a: Table<T>, b: Table<T>) {
    forall l :: l in a ==> l in b && a[l] <= b[l]
  }

  predicate Leq(a: Effects, b: Effects) {
    a.spawns.Rank() <= b.spawns.Rank() && Within(a.chanOps, b.chanOps) && Within(a.lockOps, b.lockOps)
  }

  lemma MergedHas<T>(a: Table<T>, b: Table<T>, l: Loc)
    ensures l in Merged(a, b) <==> l in a || l in b
    ensures l in Merged(a, b) ==> Merged(a, b)[l] == At(a, l) + At(b, l)
  {
  }

  lemma MergedBounds<T>(a: Table<T>, b: Table<T>, c: Table<T>)
    ensures Within(a, Merged(a, b)) && Within(b, Merged(a, b))
    ensures Within(a, c) && Within(b, c) ==> Within(Merged(a, b), c)
  {
    hide Merged;
    forall l: Loc
      ensures l in Merged(a, b) <==> l in a || l in b
      ensures l in Merged(a, b) ==> Merged(a, b)[l] == At(a, l) + At(b, l)
    {
      MergedHas(a, b, l);
    }
  }

  lemma MergedSame<T>(a: Table<T>, b: Table<T>, r: Table<T>)
    requires forall l :: l in r <==> l in a || l in b
    requires forall l :: l in r ==> r[l] == At(a, l) + At(b, l)
    ensures r == Merged(a, b)
  {
  }

  lemma MergedLeast<T>(a: Table<T>, b: Table<T>, c: Table<T>)
    ensures Within(a, Merged(a, b)) && Within(b, Merged(a, b))
    ensures Within(a, c) && Within(b, c) ==> Within(Merged(a, b), c)
    ensures Merged(a, b) == Merged(b, a) && Merged(a, a) == a
  {
    hide Merged;
    MergedBounds(a, b, c);
    forall l: Loc
      ensures l in Merged(a, b) <==> l in a || l in b
      ensures l in Merged(a, b) ==> Merged(a, b)[l] == At(b, l) + At(a, l)
    {
      MergedHas(a, b, l);
    }
    MergedSame(b, a, Merged(a, b));
    MergedSame(a, a, a);
  }

  lemma MergedAssociates<T>(a: Table<T>, b: Table<T>, c: Table<T>)
    ensures Merged(Merged(a, b), c) == Merged(a, Merged(b, c))
  {
    hide Merged;
    forall l: Loc
      ensures l in Merged(Merged(a, b), c) <==> l in Merged(a, Merged(b, c))
      ensures l in Merged(Merged(a, b), c) ==> Merged(Merged(a, b), c)[l] == Merged(a, Merged(b, c))[l]
    {
      MergedHas(a, b, l);
      MergedHas(b, c, l);
      MergedHas(Merged(a, b), c, l);
      MergedHas(a, Merged(b, c), l);
    }
  }

  /** Joining is the least upper bound, in any order and grouping. */
  lemma JoinIsLeast(a: Effects, b: Effects, c: Effects)
    ensures Leq(a, Joined(a, b)) && Leq(b, Joined(a, b))
    ensures Leq(a, c) && Leq(b, c) ==> Leq(Joined(a, b), c)
    ensures Joined(a, b) == Joined(b, a) && Joined(a, a) == a
    ensures Joined(Joined(a, b), c) == Joined(a, Joined(b, c))
  {
    hide Merged, Within;
    MergedLeast(a.chanOps, b.chanOps, c.chanOps);
    MergedLeast(a.lockOps, b.lockOps, c.lockOps);
    MergedAssociates(a.chanOps, b.chanOps, c.chanOps);
    MergedAssociates(a.lockOps, b.lockOps, c.lockOps);
  }

  lemma LeqOrder(a: Effects, b: Effects, c: Effects)
    ensures Leq(a, a) && Leq(EMPTY, a)
    ensures Leq(a, b) && Leq(b, c) ==> Leq(a, c)
    ensures Leq(a, b) && Leq(b, a) ==> a == b
  {
    if Leq(a, b) && Leq(b, a) {
      SameTable(a.chanOps, b.chanOps);
      SameTable(a.lockOps, b.lockOps);
    }
  }

  lemma SameTable<T>(a: Table<T>, b: Table<T>)
    requires Within(a, b) && Within(b, a)
    ensures a == b
  {
    assert a.Keys == b.Keys;
    assert forall l :: l in a ==> a[l] == b[l];
  }

  lemma JoinMonotone(a: Effects, b: Effects, a': Effects, b': Effects)
    requires Leq(a, a') && Leq(b, b')
    ensures Leq(Joined(a, b), Joined(a', b'))
  {
    JoinIsLeast(a', b', Joined(a', b'));
    LeqOrder(a, a', Joined(a', b'));
    LeqOrder(b, b', Joined(a', b'));
    JoinIsLeast(a, b, Joined(a', b'));
  }

  // ---- re-rooting ----

  /** Every operation of a location is an operation of its image. */
  ghost predicate ImagesIn<T>(m: Table<T>, arg: Frame, fv: Frame, r: Table<T>) {
    forall l :: l in m ==> RebaseLoc(l, arg, fv) in r && m[l] <= r[RebaseLoc(l, arg, fv)]
  }

  /** Every operation comes from a location whose image carries it. */
  ghost predicate OpsFrom<T>(m: Table<T>, arg: Frame, fv: Frame, r: Table<T>) {
    forall l, o :: l in r && o in r[l] ==> exists l' :: l' in m && RebaseLoc(l', arg, fv) == l && o in m[l']
  }

  ghost predicate KeysFrom<T>(m: Table<T>, arg: Frame, fv: Frame, r: Table<T>) {
    forall l :: l in r ==> exists l' :: l' in m && RebaseLoc(l', arg, fv) == l
  }

  /** The table has the images as keys and each image's operations, and nothing else. */
  ghost predicate Rebased<T>(m: Table<T>, arg: Frame, fv: Frame, r: Table<T>) {
    ImagesIn(m, arg, fv, r) && OpsFrom(m, arg, fv, r) && KeysFrom(m, arg, fv, r)
  }

  function RebaseTable<T>(m: Table<T>, arg: Frame, fv: Frame): (r: Table<T>)
    ensures Rebased(m, arg, fv, r)
  {
    map l | l in Images(m, arg, fv) :: (set l', o | l' in m && RebaseLoc(l', arg, fv) == l && o in m[l'] :: o)
  }

  function Images<T>(m: Table<T>, arg: Frame, fv: Frame): set<Loc> {
    set l | l in m :: RebaseLoc(l, arg, fv)
  }

  function Rebase(e: Effects, arg: Frame, fv: Frame): Effects {
    Effects(e.spawns, RebaseTable(e.chanOps, arg, fv), RebaseTable(e.lockOps, arg, fv))
  }

  /** Only one table is the re-rooting. */
  lemma RebaseTableIs<T>(m: Table<T>, arg: Frame, fv: Frame, r: Table<T>)
    requires Rebased(m, arg, fv, r)
    ensures r == RebaseTable(m, arg, fv)
  {
    hide RebaseLoc, RebaseTable, ImagesIn, OpsFrom;
    var s := RebaseTable(m, arg, fv);
    forall l
      ensures l in r <==> l in s
    {
      KeysAlike(m, arg, fv, r, s, l);
      KeysAlike(m, arg, fv, s, r, l);
    }
    forall l | l in r && l in s
      ensures r[l] == s[l]
    {
      OpsAlike(m, arg, fv, r, s, l);
      OpsAlike(m, arg, fv, s, r, l);
    }
  }

  lemma KeysAlike<T>(m: Table<T>, arg: Frame, fv: Frame, r: Table<T>, s: Table<T>, l: Loc)
    requires KeysFrom(m, arg, fv, r) && ImagesIn(m, arg, fv, s)
    ensures l in r ==> l in s
  {
    hide RebaseLoc;
  }

  lemma OpsAlike<T>(m: Table<T>, arg: Frame, fv: Frame, r: Table<T>, s: Table<T>, l: Loc)
    requires OpsFrom(m, arg, fv, r) && ImagesIn(m, arg, fv, s) && l in r && l in s
    ensures r[l] <= s[l]
  {
    hide RebaseLoc;
    forall o | o in r[l]
      ensures o in s[l]
    {
      var l' :| l' in m && RebaseLoc(l', arg, fv) == l && o in m[l'];
      assert m[l'] <= s[l];
    }
  }

  /** Re-rooting through one pair of frames and then another is re-rooting through a third. */
  ghost predicate Composes(arg1: Frame, fv1: Frame, arg2: Frame, fv2: Frame, arg: Frame, fv: Frame) {
    forall l :: RebaseLoc(RebaseLoc(l, arg1, fv1), arg2, fv2) == RebaseLoc(l, arg, fv)
  }

  lemma ThroughComposes(arg1: Frame, fv1: Frame, arg2: Frame, fv2: Frame)
    ensures Composes(arg1, fv1, arg2, fv2, Through(arg1, arg2, fv2), Through(fv1, arg2, fv2))
  {
    hide RebaseLoc, Through;
    forall l
      ensures RebaseLoc(RebaseLoc(l, arg1, fv1), arg2, fv2)
           == RebaseLoc(l, Through(arg1, arg2, fv2), Through(fv1, arg2, fv2))
    {
      RebaseTwice(l, arg1, fv1, arg2, fv2);
    }
  }

  lemma ImagesTwice<T>(m: Table<T>, arg1: Frame, fv1: Frame, mid: Table<T>, arg2: Frame, fv2: Frame, r: Table<T>,
                       arg: Frame, fv: Frame)
    requires Composes(arg1, fv1, arg2, fv2, arg, fv)
    requires ImagesIn(m, arg1, fv1, mid) && ImagesIn(mid, arg2, fv2, r)
    ensures ImagesIn(m, arg, fv, r)
  {
    hide RebaseLoc;
    forall l | l in m
      ensures RebaseLoc(l, arg, fv) in r && m[l] <= r[RebaseLoc(l, arg, fv)]
    {
      var k := RebaseLoc(l, arg1, fv1);
      assert k in mid && m[l] <= mid[k];
      assert RebaseLoc(k, arg2, fv2) == RebaseLoc(l, arg, fv);
    }
  }

  lemma OpsTwice<T>(m: Table<T>, arg1: Frame, fv1: Frame, mid: Table<T>, arg2: Frame, fv2: Frame, r: Table<T>,
                    arg: Frame, fv: Frame)
    requires Composes(arg1, fv1, arg2, fv2, arg, fv)
    requires OpsFrom(m, arg1, fv1, mid) && OpsFrom(mid, arg2, fv2, r)
    ensures OpsFrom(m, arg, fv, r)
  {
    hide RebaseLoc;
    forall l, o | l in r && o in r[l]
      ensures exists l' :: l' in m && RebaseLoc(l', arg, fv) == l && o in m[l']
    {
      var k :| k in mid && RebaseLoc(k, arg2, fv2) == l && o in mid[k];
      var l' :| l' in m && RebaseLoc(l', arg1, fv1) == k && o in m[l'];
      assert RebaseLoc(RebaseLoc(l', arg1, fv1), arg2, fv2) == RebaseLoc(l', arg, fv);
    }
  }

  lemma KeysTwice<T>(m: Table<T>, arg1: Frame, fv1: Frame, mid: Table<T>, arg2: Frame, fv2: Frame, r: Table<T>,
                     arg: Frame, fv: Frame)
    requires Composes(arg1, fv1, arg2, fv2, arg, fv)
    requires KeysFrom(m, arg1, fv1, mid) && KeysFrom(mid, arg2, fv2, r)
    ensures KeysFrom(m, arg, fv, r)
  {
    hide RebaseLoc;
    forall l | l in r
      ensures exists l' :: l' in m && RebaseLoc(l', arg, fv) == l
    {
      var k :| k in mid && RebaseLoc(k, arg2, fv2) == l;
      var l' :| l' in m && RebaseLoc(l', arg1, fv1) == k;
      assert RebaseLoc(RebaseLoc(l', arg1, fv1), arg2, fv2) == RebaseLoc(l', arg, fv);
    }
  }

  lemma RebaseTableTwice<T>(m: Table<T>, arg1: Frame, fv1: Frame, arg2: Frame, fv2: Frame)
    ensures RebaseTable(RebaseTable(m, arg1, fv1), arg2, fv2)
        == RebaseTable(m, Through(arg1, arg2, fv2), Through(fv1, arg2, fv2))
  {
    hide RebaseLoc, Through, RebaseTable, Composes, ImagesIn, OpsFrom, KeysFrom;
    var mid := RebaseTable(m, arg1, fv1);
    var r := RebaseTable(mid, arg2, fv2);
    var arg, fv := Through(arg1, arg2, fv2), Through(fv1, arg2, fv2);
    ThroughComposes(arg1, fv1, arg2, fv2);
    ImagesTwice(m, arg1, fv1, mid, arg2, fv2, r, arg, fv);
    OpsTwice(m, arg1, fv1, mid, arg2, fv2, r, arg, fv);
    KeysTwice(m, arg1, fv1, mid, arg2, fv2, r, arg, fv);
    RebaseTableIs(m, arg, fv, r);
  }

  /** Re-rooting effects through two call sites is re-rooting through the composed one. */
  lemma RebaseComposes(e: Effects, arg1: Frame, fv1: Frame, arg2: Frame, fv2: Frame)
    ensures Rebase(Rebase(e, arg1, fv1), arg2, fv2) == Rebase(e, Through(arg1, arg2, fv2), Through(fv1, arg2, fv2))
  {
    RebaseTableTwice(e.chanOps, arg1, fv1, arg2, fv2);
    RebaseTableTwice(e.lockOps, arg1, fv1, arg2, fv2);
  }

  lemma ImagesJoin<T>(a: Table<T>, b: Table<T>, arg: Frame, fv: Frame, ra: Table<T>, rb: Table<T>)
    requires ImagesIn(a, arg, fv, ra) && ImagesIn(b, arg, fv, rb)
    ensures ImagesIn(Merged(a, b), arg, fv, Merged(ra, rb))
  {
    hide RebaseLoc, Merged;
    forall l | l in Merged(a, b)
      ensures RebaseLoc(l, arg, fv) in Merged(ra, rb) && Merged(a, b)[l] <= Merged(ra, rb)[RebaseLoc(l, arg, fv)]
    {
      MergedHas(a, b, l);
      MergedHas(ra, rb, RebaseLoc(l, arg, fv));
    }
  }

  /** What comes from one table comes from any larger one. */
  lemma OpFromLarger<T>(a: Table<T>, m: Table<T>, arg: Frame, fv: Frame, r: Table<T>, l: Loc, o: T)
    requires Within(a, m) && OpsFrom(a, arg, fv, r) && l in r && o in r[l]
    ensures exists l' :: l' in m && RebaseLoc(l', arg, fv) == l && o in m[l']
  {
    hide RebaseLoc;
    var l' :| l' in a && RebaseLoc(l', arg, fv) == l && o in a[l'];
    assert l' in m;
  }

  lemma OpsJoin<T>(a: Table<T>, b: Table<T>, arg: Frame, fv: Frame, ra: Table<T>, rb: Table<T>)
    requires OpsFrom(a, arg, fv, ra) && OpsFrom(b, arg, fv, rb)
    ensures OpsFrom(Merged(a, b), arg, fv, Merged(ra, rb))
  {
    hide RebaseLoc, Merged, Within;
    MergedBounds(a, b, Merged(a, b));
    forall l, o | l in Merged(ra, rb) && o in Merged(ra, rb)[l]
      ensures exists l' :: l' in Merged(a, b) && RebaseLoc(l', arg, fv) == l && o in Merged(a, b)[l']
    {
      MergedHas(ra, rb, l);
      if o in At(ra, l) {
        OpFromLarger(a, Merged(a, b), arg, fv, ra, l, o);
      } else {
        OpFromLarger(b, Merged(a, b), arg, fv, rb, l, o);
      }
    }
  }

  lemma KeysJoin<T>(a: Table<T>, b: Table<T>, arg: Frame, fv: Frame, ra: Table<T>, rb: Table<T>)
    requires KeysFrom(a, arg, fv, ra) && KeysFrom(b, arg, fv, rb)
    ensures KeysFrom(Merged(a, b), arg, fv, Merged(ra, rb))
  {
    hide RebaseLoc, Merged;
    forall l | l in Merged(ra, rb)
      ensures exists l' :: l' in Merged(a, b) && RebaseLoc(l', arg, fv) == l
    {
      MergedHas(ra, rb, l);
      var side := if l in ra then a else b;
      var l' :| l' in side && RebaseLoc(l', arg, fv) == l;
      MergedHas(a, b, l');
    }
  }

  lemma RebaseTableJoin<T>(a: Table<T>, b: Table<T>, arg: Frame, fv: Frame)
    ensures RebaseTable(Merged(a, b), arg, fv) == Merged(RebaseTable(a, arg, fv), RebaseTable(b, arg, fv))
  {
    hide RebaseLoc, Merged, RebaseTable, ImagesIn, OpsFrom, KeysFrom;
    var ra, rb := RebaseTable(a, arg, fv), RebaseTable(b, arg, fv);
    ImagesJoin(a, b, arg, fv, ra, rb);
    OpsJoin(a, b, arg, fv, ra, rb);
    KeysJoin(a, b, arg, fv, ra, rb);
    RebaseTableIs(Merged(a, b), arg, fv, Merged(ra, rb));
  }

  /** Re-rooting distributes over join. */
  lemma RebaseJoin(a: Effects, b: Effects, arg: Frame, fv: Frame)
    ensures Rebase(Joined(a, b), arg, fv) == Joined(Rebase(a, arg, fv), Rebase(b, arg, fv))
  {
    RebaseTableJoin(a.chanOps, b.chanOps, arg, fv);
    RebaseTableJoin(a.lockOps, b.lockOps, arg, fv);
  }

  lemma RebaseMonotone(a: Effects, b: Effects, arg: Frame, fv: Frame)
    requires Leq(a, b)
    ensures Leq(Rebase(a, arg, fv), Rebase(b, arg, fv))
  {
    hide RebaseTable;
    JoinIsLeast(a, b, b);
    LeqOrder(b, b, b);
    LeqOrder(Joined(a, b), b, b);
    RebaseJoin(a, b, arg, fv);
    JoinIsLeast(Rebase(a, arg, fv), Rebase(b, arg, fv), Rebase(b, arg, fv));
  }

  // ---- counterparts of a blocked operation ----

  datatype CandKind = SendCand | RecvCand | SelectCand

  /** The operations able to unblock a blocked send or receive. */
  function Unblockers(kind: CandKind): set<ChanOp> {
    match kind
    case SendCand => {RecvOp, SelectOp, CloseOp}
    case RecvCand => {SendOp, SelectOp, CloseOp}
    case SelectCand => {}
  }

  predicate AnyAt(env: Effects, l: Loc, ops: set<ChanOp>) {
    l in env.chanOps && exists o :: o in ops && o in env.chanOps[l]
  }

  predicate HasCounterpart(env: Effects, l: Loc, kind: CandKind) {
    kind == SelectCand || AnyAt(env, l, Unblockers(kind)) || AnyAt(env, UNKNOWN, Unblockers(kind))
  }

  /** One arm of a blocking select; its own select does not count at the arm's location. */
  predicate ArmHasCounterpart(env: Effects, l: Loc, dir: nat) {
    if dir == 1 then AnyAt(env, l, {RecvOp, CloseOp}) || AnyAt(env, UNKNOWN, {RecvOp, SelectOp, CloseOp})
    else AnyAt(env, l, {SendOp, CloseOp}) || AnyAt(env, UNKNOWN, {SendOp, SelectOp, CloseOp})
  }

  /** Whatever the smaller effects do somewhere, the larger do there or at the unknown location. */
  predicate TableCovers<T>(big: Table<T>, small: Table<T>) {
    forall l, o :: l in small && o in small[l] ==> o in At(big, l) || o in At(big, UNKNOWN)
  }

  predicate Covers(big: Effects, small: Effects) {
    small.spawns.Rank() <= big.spawns.Rank() && TableCovers(big.chanOps, small.chanOps)
      && TableCovers(big.lockOps, small.lockOps)
  }

  lemma CoveredOp(big: Effects, small: Effects, l: Loc, ops: set<ChanOp>, more: set<ChanOp>)
    requires Covers(big, small) && AnyAt(small, l, ops) && ops <= more
    ensures AnyAt(big, l, ops) || AnyAt(big, UNKNOWN, more)
  {
    var o :| o in ops && o in small.chanOps[l];
    assert o in At(big.chanOps, l) || o in At(big.chanOps, UNKNOWN);
  }

  /** Knowing less about locations never loses a reason to stay silent. */
  lemma CoveringKeepsSilence(big: Effects, small: Effects, l: Loc, kind: CandKind, dir: nat)
    requires Covers(big, small)
    ensures HasCounterpart(small, l, kind) ==> HasCounterpart(big, l, kind)
    ensures ArmHasCounterpart(small, l, dir) ==> ArmHasCounterpart(big, l, dir)
  {
    if AnyAt(small, l, Unblockers(kind)) {
      CoveredOp(big, small, l, Unblockers(kind), Unblockers(kind));
    }
    if AnyAt(small, UNKNOWN, Unblockers(kind)) {
      CoveredOp(big, small, UNKNOWN, Unblockers(kind), Unblockers(kind));
    }
    var near := if dir == 1 then {RecvOp, CloseOp} else {SendOp, CloseOp};
    var far := if dir == 1 then {RecvOp, SelectOp, CloseOp} else {SendOp, SelectOp, CloseOp};
    if AnyAt(small, l, near) {
      CoveredOp(big, small, l, near, far);
    }
    if AnyAt(small, UNKNOWN, far) {
      CoveredOp(big, small, UNKNOWN, far, far);
    }
  }

  lemma CoversOrder(a: Effects, b: Effects, c: Effects)
    ensures Leq(a, b) ==> Covers(b, a)
    ensures Covers(a, b) && Covers(b, c) ==> Covers(a, c)
    ensures Covers(TOP, a)
  {
    EveryOp();
    if Covers(a, b) && Covers(b, c) {
      TableCoversTrans(a.chanOps, b.chanOps, c.chanOps);
      TableCoversTrans(a.lockOps, b.lockOps, c.lockOps);
    }
  }

  lemma EveryOp()
    ensures forall o :: o in At(TOP.chanOps, UNKNOWN)
    ensures forall o :: o in At(TOP.lockOps, UNKNOWN)
  {
    assert UNKNOWN in TOP.chanOps && UNKNOWN in TOP.lockOps;
    forall o: ChanOp
      ensures o in TOP.chanOps[UNKNOWN]
    {
      match o
      case MakeOp =>
      case SendOp =>
      case RecvOp =>
      case CloseOp =>
      case SelectOp =>
    }
    forall o: LockOp
      ensures o in TOP.lockOps[UNKNOWN]
    {
      match o
      case LockedOp =>
      case UnlockedOp =>
      case RLockedOp =>
      case RUnlockedOp =>
      case DeferredUnlockOp =>
      case DeferredRUnlockOp =>
    }
  }

  lemma TableCoversTrans<T>(a: Table<T>, b: Table<T>, c: Table<T>)
    requires TableCovers(a, b) && TableCovers(b, c)
    ensures TableCovers(a, c)
  {
    forall l, o | l in c && o in c[l]
      ensures o in At(a, l) || o in At(a, UNKNOWN)
    {
      assert o in At(b, l) || o in At(b, UNKNOWN);
    }
  }

  /** Covering survives re-rooting, also when the covering side's frame knows less. */
  lemma RebaseCovers(big: Effects, small: Effects, arg: Frame, fv: Frame, arg': Frame, fv': Frame)
    requires Covers(big, small) && Degrades(arg, arg') && Degrades(fv, fv')
    ensures Covers(Rebase(big, arg', fv'), Rebase(small, arg, fv))
  {
    RebaseTableCovers(big.chanOps, small.chanOps, arg, fv, arg', fv');
    RebaseTableCovers(big.lockOps, small.lockOps, arg, fv, arg', fv');
  }

  lemma RebaseTableCovers<T>(big: Table<T>, small: Table<T>, arg: Frame, fv: Frame, arg': Frame, fv': Frame)
    requires TableCovers(big, small) && Degrades(arg, arg') && Degrades(fv, fv')
    ensures TableCovers(RebaseTable(big, arg', fv'), RebaseTable(small, arg, fv))
  {
    hide RebaseLoc;
    var rb, rs := RebaseTable(big, arg', fv'), RebaseTable(small, arg, fv);
    assert RebaseLoc(UNKNOWN, arg', fv') == UNKNOWN by { UnknownStays(arg', fv'); }
    forall l, o | l in rs && o in rs[l]
      ensures o in At(rb, l) || o in At(rb, UNKNOWN)
    {
      var k :| k in small && RebaseLoc(k, arg, fv) == l && o in small[k];
      RebaseDegrades(k, arg, fv, arg', fv');
      if o in At(big, k) {
        assert big[k] <= rb[RebaseLoc(k, arg', fv')];
      } else {
        assert o in At(big, UNKNOWN);
        assert big[UNKNOWN] <= rb[RebaseLoc(UNKNOWN, arg', fv')];
      }
    }
  }

  lemma UnknownStays(arg: Frame, fv: Frame)
    ensures RebaseLoc(UNKNOWN, arg, fv) == UNKNOWN
  {
  }
}
