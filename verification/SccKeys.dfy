/**
  Keys of the per-group cache: a hash of the members' contents and of the callee groups' keys, both
  sorted. With a hash that never collides, two groups, of the same or of different programs, have
  one key exactly when their unfolded call structures match; numbering plays no part.
 */
module SccKeys {
  import opened Ir

  type Digest = nat

  /** What is fed to the hash: the salt, the members' content hashes and the callees' keys. */
  datatype Preimage = Preimage(salt: Digest, members: seq<Digest>, callees: seq<Digest>)

  type Hash = Preimage -> Digest

  ghost predicate Injective(h: Hash) {
    forall a, b :: h(a) == h(b) ==> a == b
  }

  // ---- sorting ----

  function Insert(x: nat, s: seq<nat>): (r: seq<nat>)
    ensures multiset(r) == multiset(s) + multiset{x}
  {
    if s == [] then [x]
    else if x <= s[0] then [x] + s
    else
      var r := [s[0]] + Insert(x, s[1..]);
      assert s == [s[0]] + s[1..];
      r
  }

  function Sorted(s: seq<nat>): (r: seq<nat>)
    ensures multiset(r) == multiset(s)
  {
    if s == [] then []
    else
      var r := Insert(s[0], Sorted(s[1..]));
      assert s == [s[0]] + s[1..];
      r
  }

  predicate Ascending(s: seq<nat>) {
    forall i, j :: 0 <= i < j < |s| ==> s[i] <= s[j]
  }

  lemma {:induction false} InsertAscends(x: nat, s: seq<nat>)
    requires Ascending(s)
    ensures Ascending(Insert(x, s))
  {
    if s != [] && x > s[0] {
      InsertAscends(x, s[1..]);
      var rest := Insert(x, s[1..]);
      forall i | 0 <= i < |rest|
        ensures s[0] <= rest[i]
      {
        assert rest[i] in multiset(rest);
        assert rest[i] in multiset(s[1..]) + multiset{x};
        if rest[i] != x {
          assert rest[i] in s[1..];
        }
      }
    }
  }

  lemma {:induction false} SortedAscends(s: seq<nat>)
    ensures Ascending(Sorted(s))
  {
    if s != [] {
      SortedAscends(s[1..]);
      InsertAscends(s[0], Sorted(s[1..]));
    }
  }

  /** The list without position m. */
  function Dropped(b: seq<nat>, m: nat): (r: seq<nat>)
    requires m < |b|
    ensures |r| == |b| - 1 && forall k :: 0 <= k < |r| ==> r[k] == if k < m then b[k] else b[k + 1]
    ensures multiset(b) == multiset(r) + multiset{b[m]}
  {
    assert b == b[..m] + [b[m]] + b[m + 1..];
    b[..m] + b[m + 1..]
  }

  lemma CancelOne(a: multiset<nat>, b: multiset<nat>, x: nat)
    requires a + multiset{x} == b + multiset{x}
    ensures a == b
  {
    assert a == (a + multiset{x}) - multiset{x} && b == (b + multiset{x}) - multiset{x};
  }

  lemma SameFirst(a: seq<nat>, b: seq<nat>)
    requires |a| > 0 && |b| > 0 && Ascending(a) && Ascending(b) && multiset(a) == multiset(b)
    ensures a[0] == b[0]
  {
    assert a[0] in multiset(a) && b[0] in multiset(b);
    assert a[0] in b && b[0] in a;
  }

  lemma HeadRest(a: seq<nat>)
    requires |a| > 0
    ensures multiset(a) == multiset(a[1..]) + multiset{a[0]}
  {
    assert a == [a[0]] + a[1..];
  }

  lemma SameRest(a: seq<nat>, b: seq<nat>)
    requires |a| > 0 && |b| > 0 && a[0] == b[0] && multiset(a) == multiset(b)
    ensures multiset(a[1..]) == multiset(b[1..])
  {
    HeadRest(a);
    HeadRest(b);
    CancelOne(multiset(a[1..]), multiset(b[1..]), a[0]);
  }

  /** An ascending list is determined by its elements. */
  lemma {:induction false} AscendingUnique(a: seq<nat>, b: seq<nat>)
    requires Ascending(a) && Ascending(b) && multiset(a) == multiset(b)
    ensures a == b
  {
    SameSize(a, b);
    if a != [] {
      SameFirst(a, b);
      SameRest(a, b);
      AscendingUnique(a[1..], b[1..]);
      assert a == [a[0]] + a[1..] && b == [b[0]] + b[1..];
    }
  }

  lemma SameSize<T>(a: seq<T>, b: seq<T>)
    requires multiset(a) == multiset(b)
    ensures |a| == |b|
  {
    assert |multiset(a)| == |a| && |multiset(b)| == |b|;
  }

  lemma SortedSame(a: seq<nat>, b: seq<nat>)
    ensures Sorted(a) == Sorted(b) <==> multiset(a) == multiset(b)
  {
    if multiset(a) == multiset(b) {
      SortedAscends(a);
      SortedAscends(b);
      AscendingUnique(Sorted(a), Sorted(b));
    }
  }

  // ---- programs ----

  /** Groups of functions with the groups they call, callees first, and a content hash per function. */
  datatype CallStructure = CallStructure(groups: seq<seq<FuncId>>, calleeGroups: seq<seq<nat>>,
    contents: FuncId -> Digest)

  predicate Scheduled(p: CallStructure) {
    |p.calleeGroups| == |p.groups|
    && forall i, k :: 0 <= i < |p.groups| && 0 <= k < |p.calleeGroups[i]| ==> p.calleeGroups[i][k] < i
  }

  function MemberHashes(p: CallStructure, i: nat): seq<Digest>
    requires i < |p.groups|
  {
    seq(|p.groups[i]|, k requires 0 <= k < |p.groups[i]| => p.contents(p.groups[i][k]))
  }

  function KeyOf(h: Hash, salt: Digest, p: CallStructure, i: nat): Digest
    requires Scheduled(p) && i < |p.groups|
    decreases i, 1
  {
    h(Preimage(salt, Sorted(MemberHashes(p, i)), Sorted(CalleeKeys(h, salt, p, i))))
  }

  function CalleeKeys(h: Hash, salt: Digest, p: CallStructure, i: nat): (keys: seq<Digest>)
    requires Scheduled(p) && i < |p.groups|
    ensures |keys| == |p.calleeGroups[i]|
    decreases i, 0
  {
    seq(|p.calleeGroups[i]|, k requires 0 <= k < |p.calleeGroups[i]| => KeyOf(h, salt, p, p.calleeGroups[i][k]))
  }

  /** Keys in schedule order; each callee's is there when it is needed. */
  method Keys(h: Hash, salt: Digest, p: CallStructure) returns (keys: seq<Digest>)
    requires Scheduled(p)
    ensures |keys| == |p.groups| && forall i: nat :: i < |keys| ==> keys[i] == KeyOf(h, salt, p, i)
  {
    hide Sorted;
    keys := [];
    for i := 0 to |p.groups|
      invariant |keys| == i && forall j: nat :: j < i ==> keys[j] == KeyOf(h, salt, p, j)
    {
      var members := MemberHashes(p, i);
      var callees := seq(|p.calleeGroups[i]|, k requires 0 <= k < |p.calleeGroups[i]| => keys[p.calleeGroups[i][k]]);
      assert callees == CalleeKeys(h, salt, p, i);
      keys := keys + [h(Preimage(salt, Sorted(members), Sorted(callees)))];
    }
  }

  // ---- unfolded structure ----

  /** A one-to-one pairing of two lists' positions. */
  ghost predicate Pairing(pairs: seq<nat>, n: nat) {
    |pairs| == n && (forall k :: 0 <= k < n ==> pairs[k] < n) && forall k, l :: 0 <= k < l < n ==> pairs[k] != pairs[l]
  }

  /** The same contents, calling groups that pairwise match all the way down. */
  ghost predicate Matches(p: CallStructure, i: nat, q: CallStructure, j: nat)
    requires Scheduled(p) && Scheduled(q) && i < |p.groups| && j < |q.groups|
    decreases i, 1
  {
    && multiset(MemberHashes(p, i)) == multiset(MemberHashes(q, j))
    && |p.calleeGroups[i]| == |q.calleeGroups[j]|
    && exists pairs :: Pairing(pairs, |p.calleeGroups[i]|) && PairsMatch(p, i, q, j, pairs)
  }

  ghost predicate PairsMatch(p: CallStructure, i: nat, q: CallStructure, j: nat, pairs: seq<nat>)
    requires Scheduled(p) && Scheduled(q) && i < |p.groups| && j < |q.groups|
    decreases i, 0
  {
    |pairs| == |p.calleeGroups[i]| == |q.calleeGroups[j]|
    && forall k :: 0 <= k < |pairs| ==>
         pairs[k] < |pairs| && Matches(p, p.calleeGroups[i][k], q, q.calleeGroups[j][pairs[k]])
  }

  ghost predicate PairsEqual(a: seq<nat>, b: seq<nat>, pairs: seq<nat>) {
    |a| == |b| == |pairs| && forall k :: 0 <= k < |a| ==> pairs[k] < |b| && a[k] == b[pairs[k]]
  }

  function Shifted(pairs: seq<nat>, m: nat): (r: seq<nat>)
    ensures |r| == |pairs| && forall k :: 0 <= k < |pairs| ==> r[k] == if pairs[k] < m then pairs[k] else pairs[k] + 1
  {
    seq(|pairs|, k requires 0 <= k < |pairs| => if pairs[k] < m then pairs[k] else pairs[k] + 1)
  }

  lemma ShiftedPairing(before: seq<nat>, m: nat, n: nat)
    requires Pairing(before, n) && m <= n
    ensures Pairing([m] + Shifted(before, m), n + 1)
  {
    var pairs := [m] + Shifted(before, m);
    forall k, l | 0 <= k < l < n + 1
      ensures pairs[k] != pairs[l]
    {
      if k > 0 {
        assert before[k - 1] != before[l - 1];
      }
    }
  }

  lemma PairFirst(a: seq<nat>, b: seq<nat>, m: nat, before: seq<nat>)
    requires |a| == |b| > 0 && m < |b| && a[0] == b[m]
    requires Pairing(before, |a| - 1) && PairsEqual(Dropped(a, 0), Dropped(b, m), before)
    ensures Pairing([m] + Shifted(before, m), |a|) && PairsEqual(a, b, [m] + Shifted(before, m))
  {
    hide Pairing;
    ShiftedPairing(before, m, |a| - 1);
    var pairs := [m] + Shifted(before, m);
    forall k | 0 <= k < |a|
      ensures pairs[k] < |b| && a[k] == b[pairs[k]]
    {
      if k > 0 {
        assert Dropped(a, 0)[k - 1] == Dropped(b, m)[before[k - 1]];
      }
    }
  }

  /** Lists with the same elements can be paired off. */
  lemma {:induction false} PairOff(a: seq<nat>, b: seq<nat>) returns (pairs: seq<nat>)
    requires multiset(a) == multiset(b)
    ensures Pairing(pairs, |a|) && PairsEqual(a, b, pairs)
  {
    SameSize(a, b);
    if a == [] {
      pairs := [];
    } else {
      assert a[0] in multiset(a);
      assert a[0] in b;
      var m :| 0 <= m < |b| && b[m] == a[0];
      CancelOne(multiset(Dropped(a, 0)), multiset(Dropped(b, m)), a[0]);
      var before := PairOff(Dropped(a, 0), Dropped(b, m));
      PairFirst(a, b, m, before);
      pairs := [m] + Shifted(before, m);
    }
  }

  lemma PairRest(a: seq<nat>, b: seq<nat>, pairs: seq<nat>)
    requires |a| > 0 && Pairing(pairs, |a|) && PairsEqual(a, b, pairs)
    ensures var pairs' := Closed(pairs[1..], pairs[0]);
            Pairing(pairs', |a| - 1) && PairsEqual(Dropped(a, 0), Dropped(b, pairs[0]), pairs')
  {
    var m := pairs[0];
    var pairs' := Closed(pairs[1..], m);
    forall k | 0 <= k < |pairs'|
      ensures pairs'[k] < |b| - 1 && Dropped(a, 0)[k] == Dropped(b, m)[pairs'[k]]
    {
      assert pairs[1..][k] == pairs[k + 1] != pairs[0];
      assert a[k + 1] == b[pairs[k + 1]];
    }
    forall k, l | 0 <= k < l < |pairs'|
      ensures pairs'[k] != pairs'[l]
    {
      assert pairs[1..][k] == pairs[k + 1] && pairs[1..][l] == pairs[l + 1];
      assert pairs[k + 1] != pairs[l + 1] && pairs[k + 1] != m && pairs[l + 1] != m;
    }
  }

  /** Paired lists have the same elements. */
  lemma {:induction false} PairedSame(a: seq<nat>, b: seq<nat>, pairs: seq<nat>)
    requires Pairing(pairs, |a|) && PairsEqual(a, b, pairs)
    ensures multiset(a) == multiset(b)
  {
    if a != [] {
      var m := FirstPair(a, b, pairs);
      PairRest(a, b, pairs);
      PairedSame(Dropped(a, 0), Dropped(b, m), Closed(pairs[1..], m));
      var rest := multiset(Dropped(a, 0));
      assert multiset(a) == rest + multiset{a[0]} && multiset(b) == rest + multiset{b[m]};
    }
  }

  lemma FirstPair(a: seq<nat>, b: seq<nat>, pairs: seq<nat>) returns (m: nat)
    requires |a| > 0 && Pairing(pairs, |a|) && PairsEqual(a, b, pairs)
    ensures m == pairs[0] < |b| && a[0] == b[m]
  {
    m := pairs[0];
  }

  function Closed(pairs: seq<nat>, m: nat): (r: seq<nat>)
    ensures |r| == |pairs| && forall k :: 0 <= k < |pairs| ==> r[k] == if pairs[k] > m then pairs[k] - 1 else pairs[k]
  {
    seq(|pairs|, k requires 0 <= k < |pairs| => if pairs[k] > m then pairs[k] - 1 else pairs[k])
  }

  /**
    Keys are equal exactly when the unfolded structures match: renumbering functions or groups
    changes no key, and a change anywhere below changes it.
   */
  lemma {:induction false} KeyIffMatch(h: Hash, salt: Digest, p: CallStructure, i: nat, q: CallStructure, j: nat)
    requires Injective(h) && Scheduled(p) && Scheduled(q) && i < |p.groups| && j < |q.groups|
    ensures KeyOf(h, salt, p, i) == KeyOf(h, salt, q, j) <==> Matches(p, i, q, j)
    decreases i
  {
    hide Sorted, Pairing, PairsEqual;
    var a, b := CalleeKeys(h, salt, p, i), CalleeKeys(h, salt, q, j);
    SortedSame(MemberHashes(p, i), MemberHashes(q, j));
    SortedSame(a, b);
    if KeyOf(h, salt, p, i) == KeyOf(h, salt, q, j) {
      SameSize(a, b);
      var pairs := PairOff(a, b);
      PairsKeys(h, salt, p, i, q, j, pairs);
      assert PairsMatch(p, i, q, j, pairs);
    }
    if Matches(p, i, q, j) {
      var pairs :| Pairing(pairs, |p.calleeGroups[i]|) && PairsMatch(p, i, q, j, pairs);
      PairsKeys(h, salt, p, i, q, j, pairs);
      PairedSame(a, b, pairs);
    }
  }

  lemma {:induction false} PairsKeys(h: Hash, salt: Digest, p: CallStructure, i: nat, q: CallStructure, j: nat,
                                     pairs: seq<nat>)
    requires Injective(h) && Scheduled(p) && Scheduled(q) && i < |p.groups| && j < |q.groups|
    ensures PairsEqual(CalleeKeys(h, salt, p, i), CalleeKeys(h, salt, q, j), pairs) <==> PairsMatch(p, i, q, j, pairs)
    decreases i, 0
  {
    hide Sorted, Matches, KeyOf;
    var a, b := CalleeKeys(h, salt, p, i), CalleeKeys(h, salt, q, j);
    if |pairs| == |a| == |b| {
      forall k | 0 <= k < |pairs| && pairs[k] < |pairs|
        ensures a[k] == b[pairs[k]] <==> Matches(p, p.calleeGroups[i][k], q, q.calleeGroups[j][pairs[k]])
      {
        KeyIffMatch(h, salt, p, p.calleeGroups[i][k], q, q.calleeGroups[j][pairs[k]]);
      }
    }
  }

  /** Another salt gives every group another key: runs of different configuration share nothing. */
  lemma SaltIffMatch(h: Hash, salt: Digest, p: CallStructure, i: nat, salt': Digest, q: CallStructure, j: nat)
    requires Injective(h) && Scheduled(p) && Scheduled(q) && i < |p.groups| && j < |q.groups|
    ensures KeyOf(h, salt, p, i) == KeyOf(h, salt', q, j) <==> salt == salt' && Matches(p, i, q, j)
  {
    hide Sorted, Matches;
    if KeyOf(h, salt, p, i) == KeyOf(h, salt', q, j) {
      var a := Preimage(salt, Sorted(MemberHashes(p, i)), Sorted(CalleeKeys(h, salt, p, i)));
      var b := Preimage(salt', Sorted(MemberHashes(q, j)), Sorted(CalleeKeys(h, salt', q, j)));
      assert h(a) == h(b);
    }
    KeyIffMatch(h, salt, p, i, q, j);
  }
}
