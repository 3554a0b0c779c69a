/**
  A run over a partial cache: groups found under their key are replayed, the others analyzed and
  stored. When one group's analysis goes by what is hashed and by what there is below the group, the
  run gives exactly what an uncached run gives, and what it stores is again genuine.
 */
module CacheRuns {
  import opened Wrappers
  import opened Ir
  import opened Fixpoint
  import opened Entries
  import opened SccKeys

  type Result = (Summary, Option<string>)

  type Results = map<FuncId, Result>

  type Report = (seq<Finding>, seq<string>)

  /**
    A program and how it is analyzed: a group's summaries given those of earlier groups, and a
    function's findings given all summaries.
   */
  datatype Program = Program(structure: CallStructure, funcs: nat, names: FuncId -> string,
                             solve: (nat, Results) -> Results, find: (FuncId, Results) -> Report)

  ghost predicate Fits(p: Program) {
    && Scheduled(p.structure)
    && (forall i, j, f :: 0 <= i < j < |p.structure.groups| && f in p.structure.groups[i] ==>
      f !in p.structure.groups[j])
    && (forall i: nat, r: Results, f: FuncId :: i < |p.structure.groups| ==>
      (f in p.solve(i, r) <==> f in p.structure.groups[i]))
  }

  function Members(p: Program, i: nat): seq<FuncId>
    requires i < |p.structure.groups|
  {
    p.structure.groups[i]
  }

  function MemberNames(p: Program, i: nat): seq<string>
    requires i < |p.structure.groups|
  {
    seq(|Members(p, i)|, k requires 0 <= k < |Members(p, i)| => p.names(Members(p, i)[k]))
  }

  // ---- the uncached run ----

  function ResultsAfter(p: Program, n: nat): Results
    requires n <= |p.structure.groups|
  {
    if n == 0 then map[]
    else
      var before := ResultsAfter(p, n - 1);
      before + p.solve(n - 1, before)
  }

  function AllResults(p: Program): Results {
    ResultsAfter(p, |p.structure.groups|)
  }

  function FindingsOf(p: Program, n: nat): seq<Finding> {
    if n == 0 then [] else FindingsOf(p, n - 1) + p.find(n - 1, AllResults(p)).0
  }

  function FindingsDiagsOf(p: Program, n: nat): seq<string> {
    if n == 0 then [] else FindingsDiagsOf(p, n - 1) + p.find(n - 1, AllResults(p)).1
  }

  /** Each function's diagnostic has its turn. */
  lemma {:induction false} DiagsInTurn(p: Program, n: nat, f: nat) returns (later: seq<string>)
    requires f < n && f in AllResults(p)
    ensures AnalysisDiagsOf(p, n) ==
            AnalysisDiagsOf(p, f) + (match AllResults(p)[f].1 case Some(d) => [d] case None => []) + later
  {
    hide AllResults;
    later := [];
    if f < n - 1 {
      later := DiagsInTurn(p, n - 1, f);
      later := later + DiagOf(AllResults(p), n - 1);
    }
  }

  /** Each function has its turn: after those of lower number, before those of higher. */
  lemma {:induction false} FindingsInTurn(p: Program, n: nat, f: nat)
      returns (later: seq<Finding>, laterDiags: seq<string>)
    requires f < n
    ensures FindingsOf(p, n) == FindingsOf(p, f) + p.find(f, AllResults(p)).0 + later
    ensures FindingsDiagsOf(p, n) == FindingsDiagsOf(p, f) + p.find(f, AllResults(p)).1 + laterDiags
  {
    hide AllResults;
    later, laterDiags := [], [];
    if f < n - 1 {
      later, laterDiags := FindingsInTurn(p, n - 1, f);
      later, laterDiags := later + p.find(n - 1, AllResults(p)).0, laterDiags + p.find(n - 1, AllResults(p)).1;
    }
  }

  function DiagOf(r: Results, f: FuncId): seq<string> {
    if f in r && r[f].1.Some? then [r[f].1.value] else []
  }

  function AnalysisDiagsOf(p: Program, n: nat): seq<string> {
    if n == 0 then [] else AnalysisDiagsOf(p, n - 1) + DiagOf(AllResults(p), n - 1)
  }

  lemma GroupsApart(p: Program, i: nat, j: nat, f: FuncId)
    requires Fits(p) && i < j < |p.structure.groups| && f in p.structure.groups[i]
    ensures f !in p.structure.groups[j]
  {
  }

  lemma FitsScheduled(p: Program)
    requires Fits(p)
    ensures Scheduled(p.structure)
  {
  }

  lemma SolveKeys(p: Program, i: nat, r: Results)
    requires Fits(p) && i < |p.structure.groups|
    ensures forall f: FuncId :: f in p.solve(i, r) <==> f in p.structure.groups[i]
  {
  }

  lemma {:induction false} ResultsKeys(p: Program, n: nat, f: FuncId)
    requires Fits(p) && n <= |p.structure.groups|
    ensures f in ResultsAfter(p, n) <==> exists i: nat :: i < n && f in p.structure.groups[i]
  {
    hide Fits;
    if n > 0 {
      ResultsKeys(p, n - 1, f);
      SolveKeys(p, n - 1, ResultsAfter(p, n - 1));
      assert f in p.structure.groups[n - 1] ==> f in ResultsAfter(p, n);
    }
  }

  lemma {:induction false} ResultsStable(p: Program, n: nat, n': nat, f: FuncId)
    requires Fits(p) && n <= n' <= |p.structure.groups| && f in ResultsAfter(p, n)
    ensures f in ResultsAfter(p, n') && ResultsAfter(p, n')[f] == ResultsAfter(p, n)[f]
  {
    hide Fits;
    if n < n' {
      ResultsStable(p, n, n' - 1, f);
      ResultsKeys(p, n, f);
      var i: nat :| i < n && f in p.structure.groups[i];
      GroupsApart(p, i, n' - 1, f);
      SolveKeys(p, n' - 1, ResultsAfter(p, n' - 1));
    }
  }

  /** A member's final result is the one its own group gave it. */
  lemma MemberResult(p: Program, i: nat, f: FuncId)
    requires Fits(p) && i < |p.structure.groups| && f in Members(p, i)
    ensures f in AllResults(p) && f in ResultsAfter(p, i + 1) && ResultsAfter(p, i + 1)[f] == AllResults(p)[f]
  {
    SolveKeys(p, i, ResultsAfter(p, i));
    ResultsStable(p, i + 1, |p.structure.groups|, f);
  }

  function MemberOf(p: Program, f: FuncId): Member
    requires f in AllResults(p)
  {
    var r, report := AllResults(p)[f], p.find(f, AllResults(p));
    Member(p.names(f), r.0, r.1, report.0, report.1)
  }

  /** What the uncached run has to store for a group. */
  ghost function TrueEntry(p: Program, i: nat): SccEntry
    requires Fits(p) && i < |p.structure.groups|
  {
    SccEntry(seq(|Members(p, i)|, k requires 0 <= k < |Members(p, i)| =>
      (MemberResult(p, i, Members(p, i)[k]); MemberOf(p, Members(p, i)[k]))))
  }

  // ---- analysis is local ----

  ghost predicate SameFunction(p: Program, f: FuncId, q: Program, g: FuncId) {
    p.names(f) == q.names(g) && p.structure.contents(f) == q.structure.contents(g)
  }

  /** Each member of one group has its like in the other, in whatever order. */
  ghost predicate SameMembers(p: Program, i: nat, q: Program, j: nat)
    requires i < |p.structure.groups| && j < |q.structure.groups|
  {
    && (forall f :: f in Members(p, i) ==> exists g :: g in Members(q, j) && SameFunction(p, f, q, g))
    && (forall g :: g in Members(q, j) ==> exists f :: f in Members(p, i) && SameFunction(p, f, q, g))
  }

  /** Members of one name have one result. */
  ghost predicate SameAnswers(p: Program, i: nat, rp: Results, q: Program, j: nat, rq: Results)
    requires i < |p.structure.groups| && j < |q.structure.groups|
  {
    forall f, g :: f in Members(p, i) && g in Members(q, j) && p.names(f) == q.names(g) ==>
      f in rp && g in rq && rp[f] == rq[g]
  }

  /** The groups are alike, contents and results, and so is everything they call, all the way down. */
  ghost predicate AlikeBelow(p: Program, i: nat, rp: Results, q: Program, j: nat, rq: Results)
    requires Scheduled(p.structure) && Scheduled(q.structure)
    requires i < |p.structure.groups| && j < |q.structure.groups|
    decreases i, 2
  {
    SameMembers(p, i, q, j) && SameAnswers(p, i, rp, q, j, rq) && AlikeCallees(p, i, rp, q, j, rq)
  }

  ghost predicate AlikeCallees(p: Program, i: nat, rp: Results, q: Program, j: nat, rq: Results)
    requires Scheduled(p.structure) && Scheduled(q.structure)
    requires i < |p.structure.groups| && j < |q.structure.groups|
    decreases i, 1
  {
    && |p.structure.calleeGroups[i]| == |q.structure.calleeGroups[j]|
    && exists pairs :: Pairing(pairs, |p.structure.calleeGroups[i]|) && PairsAlike(p, i, rp, q, j, rq, pairs)
  }

  ghost predicate PairsAlike(p: Program, i: nat, rp: Results, q: Program, j: nat, rq: Results, pairs: seq<nat>)
    requires Scheduled(p.structure) && Scheduled(q.structure)
    requires i < |p.structure.groups| && j < |q.structure.groups|
    decreases i, 0
  {
    && |pairs| == |p.structure.calleeGroups[i]| == |q.structure.calleeGroups[j]|
    && forall k :: 0 <= k < |pairs| ==>
         && pairs[k] < |pairs|
         && AlikeBelow(p, p.structure.calleeGroups[i][k], rp, q, q.structure.calleeGroups[j][pairs[k]], rq)
  }

  /** One group's analysis goes by its members and by what there is below it. */
  ghost predicate SolvesLocally(family: Program -> bool) {
    forall p: Program, i: nat, rp: Results, q: Program, j: nat, rq: Results ::
      && family(p) && family(q) && Fits(p) && Fits(q) && i < |p.structure.groups| && j < |q.structure.groups|
      && SameMembers(p, i, q, j) && AlikeCallees(p, i, rp, q, j, rq)
      ==> SameAnswers(p, i, p.solve(i, rp), q, j, q.solve(j, rq))
  }

  /** A function's findings go by its group and by what there is below it. */
  ghost predicate FindsLocally(family: Program -> bool) {
    forall p: Program, i: nat, rp: Results, q: Program, j: nat, rq: Results ::
      && family(p) && family(q) && Fits(p) && Fits(q) && i < |p.structure.groups| && j < |q.structure.groups|
      && AlikeBelow(p, i, rp, q, j, rq)
      ==> SameFindings(p, i, rp, q, j, rq)
  }

  ghost predicate SameFindings(p: Program, i: nat, rp: Results, q: Program, j: nat, rq: Results)
    requires i < |p.structure.groups| && j < |q.structure.groups|
  {
    forall f, g :: f in Members(p, i) && g in Members(q, j) && p.names(f) == q.names(g) ==>
      p.find(f, rp) == q.find(g, rq)
  }

  /** What is hashed of a function includes its name. */
  ghost predicate ContentsName(family: Program -> bool) {
    forall p: Program, q: Program, f: FuncId, g: FuncId ::
      family(p) && family(q) && p.structure.contents(f) == q.structure.contents(g) ==> p.names(f) == q.names(g)
  }

  /** The programs in question: what one analysis looks at is part of what is hashed. */
  ghost predicate Local(family: Program -> bool) {
    ContentsName(family) && SolvesLocally(family) && FindsLocally(family)
  }

  lemma LocalContents(family: Program -> bool)
    requires Local(family)
    ensures ContentsName(family)
  {
  }

  lemma MatchingMembers(family: Program -> bool, p: Program, i: nat, q: Program, j: nat)
    requires ContentsName(family) && family(p) && family(q)
    requires i < |p.structure.groups| && j < |q.structure.groups|
    requires multiset(MemberHashes(p.structure, i)) == multiset(MemberHashes(q.structure, j))
    ensures SameMembers(p, i, q, j)
  {
    forall f | f in Members(p, i)
      ensures exists g :: g in Members(q, j) && SameFunction(p, f, q, g)
    {
      var g := LikeMember(family, p, i, q, j, f);
    }
    forall g | g in Members(q, j)
      ensures exists f :: f in Members(p, i) && SameFunction(p, f, q, g)
    {
      var f := LikeMember(family, q, j, p, i, g);
      assert SameFunction(p, f, q, g);
    }
  }

  lemma LikeMember(family: Program -> bool, p: Program, i: nat, q: Program, j: nat, f: FuncId) returns (g: FuncId)
    requires ContentsName(family) && family(p) && family(q)
    requires i < |p.structure.groups| && j < |q.structure.groups| && f in Members(p, i)
    requires multiset(MemberHashes(p.structure, i)) == multiset(MemberHashes(q.structure, j))
    ensures g in Members(q, j) && SameFunction(p, f, q, g)
  {
    var a, b := MemberHashes(p.structure, i), MemberHashes(q.structure, j);
    var k :| 0 <= k < |Members(p, i)| && Members(p, i)[k] == f;
    assert a[k] in multiset(b);
    var l :| 0 <= l < |b| && b[l] == a[k];
    g := Members(q, j)[l];
  }

  /** A member's result is the one its own group gave it, from then on. */
  lemma GroupAnswer(p: Program, i: nat, n: nat, f: FuncId)
    requires Fits(p) && i < n <= |p.structure.groups| && f in Members(p, i)
    ensures f in ResultsAfter(p, n) && f in p.solve(i, ResultsAfter(p, i))
    ensures ResultsAfter(p, n)[f] == p.solve(i, ResultsAfter(p, i))[f]
  {
    hide Fits;
    SolveKeys(p, i, ResultsAfter(p, i));
    ResultsStable(p, i + 1, n, f);
  }

  lemma AnswersStay(p: Program, i: nat, n: nat, q: Program, j: nat, n': nat)
    requires Fits(p) && Fits(q) && i < n <= |p.structure.groups| && j < n' <= |q.structure.groups|
    requires SameAnswers(p, i, p.solve(i, ResultsAfter(p, i)), q, j, q.solve(j, ResultsAfter(q, j)))
    ensures SameAnswers(p, i, ResultsAfter(p, n), q, j, ResultsAfter(q, n'))
  {
    hide Fits, ResultsAfter;
    forall f, g | f in Members(p, i) && g in Members(q, j) && p.names(f) == q.names(g)
      ensures f in ResultsAfter(p, n) && g in ResultsAfter(q, n') && ResultsAfter(p, n)[f] == ResultsAfter(q, n')[g]
    {
      GroupAnswer(p, i, n, f);
      GroupAnswer(q, j, n', g);
    }
  }

  /** By induction down the call structure: matching groups are alike, results and all, at every later stage. */
  lemma {:induction false} MatchingAlike(family: Program -> bool, p: Program, i: nat, n: nat,
                                         q: Program, j: nat, n': nat)
    requires Local(family) && family(p) && family(q) && Fits(p) && Fits(q)
    requires i < n <= |p.structure.groups| && j < n' <= |q.structure.groups|
    requires Matches(p.structure, i, q.structure, j)
    ensures AlikeBelow(p, i, ResultsAfter(p, n), q, j, ResultsAfter(q, n'))
    decreases i
  {
    hide Fits, ResultsAfter, SameMembers, SameAnswers, Pairing, FindsLocally, ContentsName;
    FitsScheduled(p);
    FitsScheduled(q);
    var pairs :| Pairing(pairs, |p.structure.calleeGroups[i]|) && PairsMatch(p.structure, i, q.structure, j, pairs);
    MatchingMembers(family, p, i, q, j);
    CalleesAlike(family, p, i, i, q, j, j, pairs);
    AnswersStay(p, i, n, q, j, n');
    CalleesAlike(family, p, i, n, q, j, n', pairs);
  }

  lemma {:induction false} CalleesAlike(family: Program -> bool, p: Program, i: nat, n: nat,
                                        q: Program, j: nat, n': nat, pairs: seq<nat>)
    requires Local(family) && family(p) && family(q) && Fits(p) && Fits(q)
    requires i < |p.structure.groups| && i <= n <= |p.structure.groups|
    requires j < |q.structure.groups| && j <= n' <= |q.structure.groups|
    requires Pairing(pairs, |p.structure.calleeGroups[i]|) && PairsMatch(p.structure, i, q.structure, j, pairs)
    ensures AlikeCallees(p, i, ResultsAfter(p, n), q, j, ResultsAfter(q, n'))
    decreases i, 0
  {
    hide Fits, Local, ResultsAfter, AlikeBelow, Matches, Pairing;
    FitsScheduled(p);
    FitsScheduled(q);
    forall k | 0 <= k < |pairs|
      ensures AlikeBelow(p, p.structure.calleeGroups[i][k], ResultsAfter(p, n),
                         q, q.structure.calleeGroups[j][pairs[k]], ResultsAfter(q, n'))
    {
      MatchingAlike(family, p, p.structure.calleeGroups[i][k], n, q, q.structure.calleeGroups[j][pairs[k]], n');
    }
    assert PairsAlike(p, i, ResultsAfter(p, n), q, j, ResultsAfter(q, n'), pairs);
  }

  /** If analysis is local, matching structure and equal member names mean equal entries. */
  lemma MatchingEntries(family: Program -> bool, p: Program, i: nat, q: Program, j: nat)
    requires Local(family) && family(p) && family(q) && Fits(p) && Fits(q)
    requires i < |p.structure.groups| && j < |q.structure.groups| && Matches(p.structure, i, q.structure, j)
    requires MemberNames(p, i) == MemberNames(q, j)
    ensures TrueEntry(p, i) == TrueEntry(q, j)
  {
    hide Fits, ResultsAfter, Matches, SolvesLocally, ContentsName, AlikeCallees, SameMembers;
    MatchingAlike(family, p, i, |p.structure.groups|, q, j, |q.structure.groups|);
    forall k | 0 <= k < |Members(p, i)|
      ensures |Members(p, i)| == |Members(q, j)|
      ensures TrueEntry(p, i).members[k] == TrueEntry(q, j).members[k]
    {
      assert MemberNames(p, i)[k] == MemberNames(q, j)[k];
      MemberResult(p, i, Members(p, i)[k]);
      MemberResult(q, j, Members(q, j)[k]);
    }
    assert |MemberNames(p, i)| == |MemberNames(q, j)|;
  }

  // ---- the cache ----

  class SccCache {
    const hash: Hash
    const salt: Digest
    var store: map<Digest, SccEntry>

    constructor (hash: Hash, salt: Digest, store: map<Digest, SccEntry>)
      ensures this.hash == hash && this.salt == salt && this.store == store
    {
      this.hash, this.salt, this.store := hash, salt, store;
    }

    /** Every entry was stored by some run of some program of the family. */
    ghost predicate Genuine(family: Program -> bool)
      reads this
    {
      forall k: Digest :: k in store ==> GenuineEntry(hash, salt, family, k, store[k])
    }

    function Get(key: Digest): Option<SccEntry>
      reads this
    {
      if key in store then Some(store[key]) else None
    }

    method Put(key: Digest, e: SccEntry)
      modifies this`store
      ensures store == old(store)[key := e]
    {
      store := store[key := e];
    }
  }

  ghost predicate GenuineEntry(hash: Hash, salt: Digest, family: Program -> bool, k: Digest, e: SccEntry) {
    exists q: Program, j: nat :: StoredBy(hash, salt, family, k, e, q, j)
  }

  ghost predicate StoredBy(hash: Hash, salt: Digest, family: Program -> bool, k: Digest, e: SccEntry, q: Program,
                           j: nat) {
    family(q) && Fits(q) && j < |q.structure.groups| && KeyOf(hash, salt, q.structure, j) == k && e == TrueEntry(q, j)
  }

  /** The entry's members are the group's, name for name. */
  predicate EntryMatches(p: Program, i: nat, e: SccEntry)
    requires i < |p.structure.groups|
  {
    |e.members| == |Members(p, i)| && forall k :: 0 <= k < |e.members| ==>
      e.members[k].func == p.names(Members(p, i)[k])
  }

  /** The store has an entry under the group's key, and it names the group's members. */
  predicate Hit(p: Program, i: nat, key: Digest, store: map<Digest, SccEntry>)
    requires i < |p.structure.groups|
  {
    key in store && EntryMatches(p, i, store[key])
  }

  /** A genuine entry under the group's key that names its members is the group's own. */
  lemma HitIsTrue(hash: Hash, salt: Digest, family: Program -> bool, p: Program, i: nat, e: SccEntry)
    requires Injective(hash) && Local(family) && family(p) && Fits(p) && i < |p.structure.groups|
    requires GenuineEntry(hash, salt, family, KeyOf(hash, salt, p.structure, i), e) && EntryMatches(p, i, e)
    ensures e == TrueEntry(p, i)
  {
    hide KeyOf, Matches, AllResults, Fits, Injective;
    FitsScheduled(p);
    var q: Program, j: nat :| StoredBy(hash, salt, family, KeyOf(hash, salt, p.structure, i), e, q, j);
    FitsScheduled(q);
    KeyIffMatch(hash, salt, p.structure, i, q.structure, j);
    assert MemberNames(p, i) == MemberNames(q, j) by {
      NamesOfEntry(q, j);
      assert forall k :: 0 <= k < |e.members| ==> MemberNames(p, i)[k] == MemberNames(q, j)[k];
    }
    MatchingEntries(family, p, i, q, j);
  }

  lemma NamesOfEntry(q: Program, j: nat)
    requires Fits(q) && j < |q.structure.groups|
    ensures |TrueEntry(q, j).members| == |MemberNames(q, j)|
    ensures forall k :: 0 <= k < |MemberNames(q, j)| ==> TrueEntry(q, j).members[k].func == MemberNames(q, j)[k]
  {
    forall k | 0 <= k < |MemberNames(q, j)|
      ensures TrueEntry(q, j).members[k].func == MemberNames(q, j)[k]
    {
      MemberResult(q, j, Members(q, j)[k]);
    }
  }

  // ---- the cached run ----

  type Replays = map<FuncId, Report>

  /** Installs an entry: summaries and diagnostics at once, findings for later. */
  method Install(p: Program, i: nat, e: SccEntry, before: Results, replaysBefore: Replays)
      returns (results: Results, replays: Replays)
    requires Fits(p) && i < |p.structure.groups| && e == TrueEntry(p, i)
    requires forall f :: f in replaysBefore ==> replaysBefore[f] == p.find(f, AllResults(p))
    requires before == ResultsAfter(p, i)
    ensures results == ResultsAfter(p, i + 1)
    ensures forall f :: f in replays ==> replays[f] == p.find(f, AllResults(p))
    ensures forall f :: f in replays <==> f in replaysBefore || f in Members(p, i)
  {
    hide AllResults, Fits, ResultsAfter, TrueEntry, FinalFor;
    EntrySize(p, i);
    NothingFinal(p);
    results, replays := before, replaysBefore;
    var members := Members(p, i);
    assert members[..0] == [];
    for k := 0 to |members|
      invariant results == before + FinalFor(p, members[..k])
      invariant forall f :: f in replays <==> f in replaysBefore || f in members[..k]
      invariant forall f :: f in replays ==> replays[f] == p.find(f, AllResults(p))
    {
      EntryMember(p, i, k);
      var m, me := members[k], e.members[k];
      FinalForMore(p, members, k);
      results := results[m := (me.summary, me.diag)];
      replays := replays[m := (me.findings, me.findingsDiags)];
    }
    assert members[..|members|] == members;
    GroupInstalled(p, i);
  }

  lemma EntrySize(p: Program, i: nat)
    requires Fits(p) && i < |p.structure.groups|
    ensures |TrueEntry(p, i).members| == |Members(p, i)|
  {
  }

  lemma NothingFinal(p: Program)
    ensures FinalFor(p, []) == map[]
  {
  }

  /** What the stored member says is what the uncached run finds. */
  lemma EntryMember(p: Program, i: nat, k: nat)
    requires Fits(p) && i < |p.structure.groups| && k < |Members(p, i)|
    ensures |TrueEntry(p, i).members| == |Members(p, i)|
    ensures var m, me := Members(p, i)[k], TrueEntry(p, i).members[k];
            && m in AllResults(p) && (me.summary, me.diag) == AllResults(p)[m]
            && (me.findings, me.findingsDiags) == p.find(m, AllResults(p))
  {
    hide AllResults, Fits;
    MemberResult(p, i, Members(p, i)[k]);
  }

  /** The final results of the listed functions. */
  function FinalFor(p: Program, fs: seq<FuncId>): Results {
    map f | f in fs && f in AllResults(p) :: AllResults(p)[f]
  }

  lemma FinalForMore(p: Program, fs: seq<FuncId>, k: nat)
    requires k < |fs| && fs[k] in AllResults(p)
    ensures FinalFor(p, fs[..k + 1]) == FinalFor(p, fs[..k])[fs[k] := AllResults(p)[fs[k]]]
  {
    hide AllResults;
    assert fs[..k + 1] == fs[..k] + [fs[k]];
  }

  lemma GroupInstalled(p: Program, i: nat)
    requires Fits(p) && i < |p.structure.groups|
    ensures ResultsAfter(p, i + 1) == ResultsAfter(p, i) + FinalFor(p, Members(p, i))
  {
    hide Fits, AllResults;
    var before, members := ResultsAfter(p, i), Members(p, i);
    var mine := p.solve(i, before);
    SolveKeys(p, i, before);
    forall f | f in members
      ensures f in AllResults(p) && f in mine && mine[f] == AllResults(p)[f]
    {
      MemberResult(p, i, f);
    }
    assert mine == FinalFor(p, members);
  }

  /** A member of one of the first n groups whose entries were found. */
  ghost predicate Replayed(p: Program, keys: seq<Digest>, store: map<Digest, SccEntry>, n: nat, f: FuncId)
    requires n <= |keys| == |p.structure.groups|
  {
    exists i: nat :: i < n && Hit(p, i, keys[i], store) && f in Members(p, i)
  }

  lemma NothingReplayed(p: Program, keys: seq<Digest>, store: map<Digest, SccEntry>)
    requires |keys| == |p.structure.groups|
    ensures forall f :: !Replayed(p, keys, store, 0, f)
    ensures ResultsAfter(p, 0) == map[]
  {
  }

  lemma Analyzed(p: Program, i: nat)
    requires i < |p.structure.groups|
    ensures ResultsAfter(p, i + 1) == ResultsAfter(p, i) + p.solve(i, ResultsAfter(p, i))
  {
  }

  lemma ReplayedMore(p: Program, keys: seq<Digest>, store: map<Digest, SccEntry>, n: nat)
    requires n < |keys| == |p.structure.groups|
    ensures forall f :: Replayed(p, keys, store, n + 1, f) <==>
                          Replayed(p, keys, store, n, f) || (Hit(p, n, keys[n], store) && f in Members(p, n))
  {
    hide Hit;
  }

  /** Analysis phase: replay what is cached and matches, analyze the rest. */
  method AnalyzeGroups(p: Program, cache: SccCache, keys: seq<Digest>, ghost family: Program -> bool)
      returns (results: Results, replays: Replays, missed: seq<nat>)
    requires Fits(p) && family(p) && Injective(cache.hash) && Local(family) && cache.Genuine(family)
    requires |keys| == |p.structure.groups| && forall i: nat :: i < |keys| ==>
        keys[i] == KeyOf(cache.hash, cache.salt, p.structure, i)
    ensures results == AllResults(p)
    ensures forall f :: f in replays ==> replays[f] == p.find(f, AllResults(p))
    ensures forall f :: f in replays <==> Replayed(p, keys, cache.store, |keys|, f)
    ensures forall i: nat :: i in missed <==> i < |p.structure.groups| && !Hit(p, i, keys[i], cache.store)
  {
    hide KeyOf, Fits, Injective, Local, ResultsAfter, Replayed, GenuineEntry, EntryMatches, TrueEntry;
    NothingReplayed(p, keys, cache.store);
    results, replays, missed := map[], map[], [];
    for i := 0 to |p.structure.groups|
      invariant results == ResultsAfter(p, i)
      invariant forall f :: f in replays ==> replays[f] == p.find(f, AllResults(p))
      invariant forall f :: f in replays <==> Replayed(p, keys, cache.store, i, f)
      invariant forall j: nat :: j in missed <==> j < i && !Hit(p, j, keys[j], cache.store)
    {
      ReplayedMore(p, keys, cache.store, i);
      var found := cache.Get(keys[i]);
      if found.Some? && EntryMatches(p, i, found.value) {
        assert Hit(p, i, keys[i], cache.store);
        assert GenuineEntry(cache.hash, cache.salt, family, keys[i], found.value);
        HitIsTrue(cache.hash, cache.salt, family, p, i, found.value);
        results, replays := Install(p, i, found.value, results, replays);
      } else {
        Analyzed(p, i);
        missed := missed + [i];
        results := results + p.solve(i, results);
      }
    }
  }

  /** Findings phase: ascending over all functions, replayed or computed. */
  method CollectFindings(p: Program, results: Results, replays: Replays)
      returns (findings: seq<Finding>, diags: seq<string>)
    requires results == AllResults(p) && forall f :: f in replays ==> replays[f] == p.find(f, AllResults(p))
    ensures findings == FindingsOf(p, p.funcs) && diags == FindingsDiagsOf(p, p.funcs)
  {
    hide AllResults;
    findings, diags := [], [];
    for f := 0 to p.funcs
      invariant findings == FindingsOf(p, f) && diags == FindingsDiagsOf(p, f)
    {
      var report := if f in replays then replays[f] else p.find(f, results);
      findings := findings + report.0;
      diags := diags + report.1;
    }
  }

  /** Under the key is what the uncached run stores for one of the listed groups with that key. */
  ghost predicate HoldsOneOf(p: Program, keys: seq<Digest>, groups: seq<nat>, k: Digest, store: map<Digest, SccEntry>)
    requires Fits(p) && |keys| == |p.structure.groups| && forall i :: i in groups ==> i < |keys|
  {
    k in store && exists i :: i in groups && keys[i] == k && store[k] == TrueEntry(p, i)
  }

  predicate IsKeyOf(keys: seq<Digest>, groups: seq<nat>, k: Digest)
    requires forall i :: i in groups ==> i < |keys|
  {
    exists i | i in groups :: keys[i] == k
  }

  predicate Unchanged(before: map<Digest, SccEntry>, after: map<Digest, SccEntry>, k: Digest) {
    (k in before <==> k in after) && (k in before ==> after[k] == before[k])
  }

  /** Storing the true entry of listed group n under its key. */
  lemma StoredNext(p: Program, keys: seq<Digest>, missed: seq<nat>, n: nat, before: map<Digest, SccEntry>,
                   store: map<Digest, SccEntry>)
    requires Fits(p) && |keys| == |p.structure.groups| && (forall i :: i in missed ==> i < |keys|) && n < |missed|
    requires forall m :: 0 <= m < n && missed[m] in missed ==> HoldsOneOf(p, keys, missed, keys[missed[m]], store)
    requires forall k :: !IsKeyOf(keys, missed, k) ==> Unchanged(before, store, k)
    ensures missed[n] in missed
    ensures var after := store[keys[missed[n]] := TrueEntry(p, missed[n])];
            && (forall m :: 0 <= m < n + 1 && missed[m] in missed ==>
                  HoldsOneOf(p, keys, missed, keys[missed[m]], after))
            && forall k :: !IsKeyOf(keys, missed, k) ==> Unchanged(before, after, k)
  {
    hide Fits, TrueEntry;
    assert missed[n] in missed;
  }

  lemma SameUnchanged(store: map<Digest, SccEntry>)
    ensures forall k :: Unchanged(store, store, k)
  {
  }

  lemma MadeEntry(p: Program, i: nat, e: SccEntry)
    requires Fits(p) && i < |p.structure.groups| && |e.members| == |Members(p, i)|
    requires forall k :: 0 <= k < |e.members| && Members(p, i)[k] in AllResults(p) ==>
        e.members[k] == MadeMember(p, AllResults(p), Members(p, i)[k])
    ensures e == TrueEntry(p, i)
  {
    hide Fits, AllResults;
    forall k | 0 <= k < |e.members|
      ensures e.members[k] == TrueEntry(p, i).members[k]
    {
      MemberResult(p, i, Members(p, i)[k]);
    }
  }

  /** Stores every analyzed group, and changes nothing else. */
  method PutMissed(p: Program, cache: SccCache, keys: seq<Digest>, results: Results, missed: seq<nat>,
                   ghost family: Program -> bool)
    requires Fits(p) && family(p) && cache.Genuine(family) && results == AllResults(p)
    requires |keys| == |p.structure.groups| && forall i: nat :: i < |keys| ==>
        keys[i] == KeyOf(cache.hash, cache.salt, p.structure, i)
    requires forall i :: i in missed ==> i < |p.structure.groups|
    modifies cache
    ensures cache.Genuine(family)
    ensures forall i :: i in missed ==> HoldsOneOf(p, keys, missed, keys[i], cache.store)
    ensures forall k :: !IsKeyOf(keys, missed, k) ==> Unchanged(old(cache.store), cache.store, k)
  {
    hide KeyOf, Fits, AllResults, TrueEntry, HoldsOneOf, IsKeyOf, Unchanged, MadeMember;
    assert forall k :: Unchanged(cache.store, cache.store, k) by { SameUnchanged(cache.store); }
    for n := 0 to |missed|
      invariant cache.Genuine(family)
      invariant forall m :: 0 <= m < n && missed[m] in missed ==>
          HoldsOneOf(p, keys, missed, keys[missed[m]], cache.store)
      invariant forall k :: !IsKeyOf(keys, missed, k) ==> Unchanged(old(cache.store), cache.store, k)
    {
      var i := missed[n];
      assert i in missed;
      var members := Members(p, i);
      forall k | 0 <= k < |members|
        ensures members[k] in results
      {
        MemberResult(p, i, members[k]);
      }
      var e := SccEntry(seq(|members|, k requires 0 <= k < |members|
        && members[k] in results => MadeMember(p, results, members[k])));
      MadeEntry(p, i, e);
      StoredNext(p, keys, missed, n, old(cache.store), cache.store);
      assert StoredBy(cache.hash, cache.salt, family, keys[i], e, p, i);
      cache.Put(keys[i], e);
    }
  }

  function MadeMember(p: Program, results: Results, f: FuncId): Member
    requires f in results
  {
    var report := p.find(f, results);
    Member(p.names(f), results[f].0, results[f].1, report.0, report.1)
  }

  method AnalysisDiags(p: Program, results: Results) returns (diags: seq<string>)
    requires results == AllResults(p)
    ensures diags == AnalysisDiagsOf(p, p.funcs)
  {
    hide AllResults;
    diags := [];
    for f := 0 to p.funcs
      invariant diags == AnalysisDiagsOf(p, f)
    {
      diags := diags + DiagOf(results, f);
    }
  }

  // ---- a second run ----

  /** No two functions of the program have one name, and no group is empty. */
  ghost predicate NamesApart(p: Program) {
    && (forall i: nat :: i < |p.structure.groups| ==> |Members(p, i)| > 0)
    && forall i: nat, j: nat, f, g :: i < j < |p.structure.groups| && f in Members(p, i) && g in Members(p, j) ==>
         p.names(f) != p.names(g)
  }

  /** Named apart, keyed apart. */
  lemma NamesKeyApart(family: Program -> bool, hash: Hash, salt: Digest, p: Program, i: nat, j: nat)
    requires Injective(hash) && ContentsName(family) && family(p) && Fits(p) && NamesApart(p)
    requires i < j < |p.structure.groups|
    ensures KeyOf(hash, salt, p.structure, i) != KeyOf(hash, salt, p.structure, j)
  {
    hide KeyOf, Injective, ContentsName;
    KeyIffMatch(hash, salt, p.structure, i, p.structure, j);
    if multiset(MemberHashes(p.structure, i)) == multiset(MemberHashes(p.structure, j)) {
      var g := LikeMember(family, p, i, p, j, Members(p, i)[0]);
      assert false;
    }
  }

  /** Found before or stored since: the key has an entry, and with names apart it is the group's own. */
  lemma HeldAfter(family: Program -> bool, hash: Hash, salt: Digest, p: Program, keys: seq<Digest>, missed: seq<nat>,
                  before: map<Digest, SccEntry>, after: map<Digest, SccEntry>, i: nat)
    requires Injective(hash) && ContentsName(family) && family(p) && Fits(p)
    requires |keys| == |p.structure.groups| && i < |keys|
    requires forall i: nat :: i < |keys| ==> keys[i] == KeyOf(hash, salt, p.structure, i)
    requires forall i: nat :: i in missed <==> i < |p.structure.groups| && !Hit(p, i, keys[i], before)
    requires forall i :: i in missed ==> HoldsOneOf(p, keys, missed, keys[i], after)
    requires forall k :: !IsKeyOf(keys, missed, k) ==> Unchanged(before, after, k)
    ensures keys[i] in after && (NamesApart(p) ==> Hit(p, i, keys[i], after))
  {
    hide KeyOf, Injective, ContentsName, Fits, NamesApart;
    if IsKeyOf(keys, missed, keys[i]) {
      var m :| m in missed && keys[m] == keys[i];
      assert HoldsOneOf(p, keys, missed, keys[m], after);
      var j :| j in missed && keys[j] == keys[m] && after[keys[m]] == TrueEntry(p, j);
      if NamesApart(p) {
        if j < i {
          NamesKeyApart(family, hash, salt, p, j, i);
        } else if i < j {
          NamesKeyApart(family, hash, salt, p, i, j);
        }
        NamesOfEntry(p, i);
      }
    } else {
      assert i !in missed;
      assert Unchanged(before, after, keys[i]);
    }
  }

  /**
    The cached run: whatever the store holds, as long as it is genuine, the output is that of the
    uncached run, and the store stays genuine.
   */
  method CachedRun(p: Program, cache: SccCache, ghost family: Program -> bool)
      returns (results: Results, findings: seq<Finding>, diagnostics: seq<string>)
    requires Fits(p) && family(p) && Injective(cache.hash) && Local(family) && cache.Genuine(family)
    modifies cache
    ensures results == AllResults(p)
    ensures findings == FindingsOf(p, p.funcs)
    ensures diagnostics == AnalysisDiagsOf(p, p.funcs) + FindingsDiagsOf(p, p.funcs)
    ensures cache.Genuine(family)
    ensures forall i: nat :: i < |p.structure.groups| ==> KeyOf(cache.hash, cache.salt, p.structure, i) in cache.store
    ensures NamesApart(p) ==> forall i: nat :: i < |p.structure.groups| ==>
        Hit(p, i, KeyOf(cache.hash, cache.salt, p.structure, i), cache.store)
    ensures forall k: Digest :: (forall i: nat :: i < |p.structure.groups| ==>
        KeyOf(cache.hash, cache.salt, p.structure, i) != k) ==> Unchanged(old(cache.store), cache.store, k)
  {
    hide KeyOf, AllResults, FindingsOf, FindingsDiagsOf, AnalysisDiagsOf, Injective, Local;
    var keys := Keys(cache.hash, cache.salt, p.structure);
    var replays, missed;
    results, replays, missed := AnalyzeGroups(p, cache, keys, family);
    diagnostics := AnalysisDiags(p, results);
    var more;
    findings, more := CollectFindings(p, results, replays);
    diagnostics := diagnostics + more;
    ghost var before := cache.store;
    LocalContents(family);
    PutMissed(p, cache, keys, results, missed, family);
    forall i: nat | i < |keys|
      ensures keys[i] in cache.store && (NamesApart(p) ==> Hit(p, i, keys[i], cache.store))
    {
      HeldAfter(family, cache.hash, cache.salt, p, keys, missed, before, cache.store, i);
    }
    forall k: Digest | forall i: nat :: i < |p.structure.groups| ==> KeyOf(cache.hash, cache.salt, p.structure, i) != k
      ensures Unchanged(before, cache.store, k)
    {
      assert forall i :: i in missed ==> keys[i] == KeyOf(cache.hash, cache.salt, p.structure, i);
    }
  }
}
