/**
  Keys of the extraction cache: one hash per package over its files and the keys of what it imports.
  A memo table and a stack of packages being visited keep the recursion finite. What comes out is
  what the plain recursion without a memo gives, error for error, and it comes out exactly when the
  imports below every listed package are listed, free of cycles and readable.
 */
module PackageKeys {
  import opened Wrappers
  import opened SccKeys

  datatype Pkg = Pkg(importPath: string, deps: seq<string>, files: seq<string>)

  datatype Failure = ImportCycle(path: string) | MissingDep(path: string) | Unreadable(file: string)

  datatype PkgPreimage = PkgPreimage(toolchain: string, path: string, files: seq<Digest>, deps: seq<Digest>)

  /** One extraction: the toolchain's key, the listed packages by path, what each file hashes to if it can be read. */
  datatype Build = Build(toolchain: string, byPath: map<string, Pkg>, fileHash: string -> Option<Digest>,
    hash: PkgPreimage -> Digest)

  /** Of two packages with one path, the later one stays. */
  function ByPath(pkgs: seq<Pkg>): (m: map<string, Pkg>) {
    if pkgs == [] then map[]
    else
      var last := pkgs[|pkgs| - 1];
      ByPath(pkgs[..|pkgs| - 1])[last.importPath := last]
  }

  predicate Listed(pkgs: seq<Pkg>, p: string) {
    exists i :: 0 <= i < |pkgs| && pkgs[i].importPath == p
  }

  /** The last package listed with the path. */
  predicate LastListed(pkgs: seq<Pkg>, i: nat, p: string) {
    i < |pkgs| && pkgs[i].importPath == p && forall j :: i < j < |pkgs| ==> pkgs[j].importPath != p
  }

  lemma {:induction false} LastStays(pkgs: seq<Pkg>, i: nat, p: string)
    requires LastListed(pkgs, i, p)
    ensures p in ByPath(pkgs) && ByPath(pkgs)[p] == pkgs[i]
  {
    var before := pkgs[..|pkgs| - 1];
    if i < |before| {
      assert LastListed(before, i, p);
      LastStays(before, i, p);
    }
  }

  lemma {:induction false} ByPathIsListed(pkgs: seq<Pkg>, p: string)
    ensures p in ByPath(pkgs) <==> Listed(pkgs, p)
  {
    if pkgs != [] {
      var before := pkgs[..|pkgs| - 1];
      ByPathIsListed(before, p);
      if Listed(before, p) {
        var i :| 0 <= i < |before| && before[i].importPath == p;
        assert pkgs[i].importPath == p;
      }
    }
  }

  // ---- the recursion without a memo ----

  function FileHashes(b: Build, files: seq<string>): Result<seq<Digest>, Failure> {
    if files == [] then Ok([])
    else
      var before :- FileHashes(b, files[..|files| - 1]);
      match b.fileHash(files[|files| - 1])
      case None => Err(Unreadable(files[|files| - 1]))
      case Some(h) => Ok(before + [h])
  }

  function Key(b: Build, p: string, files: seq<Digest>, deps: seq<Digest>): Digest {
    b.hash(PkgPreimage(b.toolchain, p, files, Sorted(deps)))
  }

  /** The key of p while the packages in `above` are being worked on. */
  function Merkle(b: Build, p: string, above: set<string>): Result<Digest, Failure>
    decreases |b.byPath.Keys - above|, 0
  {
    if p in above then Err(ImportCycle(p))
    else if p !in b.byPath then Err(MissingDep(p))
    else
      assert |b.byPath.Keys - (above + {p})| < |b.byPath.Keys - above| by { Shrinks(b.byPath.Keys, above, p); }
      var deps :- DepKeys(b, b.byPath[p].deps, above + {p});
      var files :- FileHashes(b, b.byPath[p].files);
      Ok(Key(b, p, files, deps))
  }

  function DepKeys(b: Build, deps: seq<string>, above: set<string>): Result<seq<Digest>, Failure>
    decreases |b.byPath.Keys - above|, |deps|
  {
    if deps == [] then Ok([])
    else
      var before :- DepKeys(b, deps[..|deps| - 1], above);
      var k :- Merkle(b, deps[|deps| - 1], above);
      Ok(before + [k])
  }

  lemma Shrinks(all: set<string>, above: set<string>, p: string)
    requires p in all && p !in above
    ensures |all - (above + {p})| < |all - above|
  {
    assert all - above == (all - (above + {p})) + {p};
  }

  lemma {:induction false} FileHashesExact(b: Build, files: seq<string>)
    ensures FileHashes(b, files).Ok? <==> forall i :: 0 <= i < |files| ==> b.fileHash(files[i]).Some?
  {
    if files != [] {
      FileHashesExact(b, files[..|files| - 1]);
    }
  }

  predicate AllOk(b: Build, deps: seq<string>, above: set<string>) {
    forall i :: 0 <= i < |deps| ==> Merkle(b, deps[i], above).Ok?
  }

  lemma {:induction false} DepKeysExact(b: Build, deps: seq<string>, above: set<string>)
    ensures DepKeys(b, deps, above).Ok? <==> AllOk(b, deps, above)
    ensures DepKeys(b, deps, above).Ok? ==>
              var ks := DepKeys(b, deps, above).value;
              |ks| == |deps| && forall i :: 0 <= i < |ks| ==> Merkle(b, deps[i], above) == Ok(ks[i])
  {
    hide Merkle;
    if deps != [] {
      DepKeysExact(b, deps[..|deps| - 1], above);
    }
  }

  lemma {:induction false} DepKeysSame(b: Build, deps: seq<string>, above: set<string>, above': set<string>)
    requires forall i :: 0 <= i < |deps| ==> Merkle(b, deps[i], above) == Merkle(b, deps[i], above')
    ensures DepKeys(b, deps, above) == DepKeys(b, deps, above')
  {
    hide Merkle;
    if deps != [] {
      DepKeysSame(b, deps[..|deps| - 1], above, above');
    }
  }

  /** A key that comes out does not depend on what was being worked on. */
  lemma {:induction false} MerkleSettled(b: Build, p: string, above: set<string>, fewer: set<string>)
    requires Merkle(b, p, above).Ok? && fewer <= above
    ensures Merkle(b, p, fewer) == Merkle(b, p, above)
    decreases |b.byPath.Keys - above|
  {
    hide FileHashes, DepKeys, Key;
    Shrinks(b.byPath.Keys, above, p);
    var deps := b.byPath[p].deps;
    DepKeysExact(b, deps, above + {p});
    forall i | 0 <= i < |deps|
      ensures Merkle(b, deps[i], above + {p}) == Merkle(b, deps[i], fewer + {p})
    {
      MerkleSettled(b, deps[i], above + {p}, fewer + {p});
    }
    DepKeysSame(b, deps, above + {p}, fewer + {p});
  }

  ghost predicate ImportsWithin(b: Build, s: set<string>) {
    forall p :: p in s && p in b.byPath ==> forall i :: 0 <= i < |b.byPath[p].deps| ==> b.byPath[p].deps[i] in s
  }

  /** Packages that p does not lead to make no difference to its key. */
  lemma {:induction false} MerkleAside(b: Build, p: string, above: set<string>, aside: set<string>, s: set<string>)
    requires ImportsWithin(b, s) && p in s && s !! aside && Merkle(b, p, above).Ok?
    ensures Merkle(b, p, above + aside) == Merkle(b, p, above)
    decreases |b.byPath.Keys - above|
  {
    hide FileHashes, DepKeys, Key;
    Shrinks(b.byPath.Keys, above, p);
    var deps := b.byPath[p].deps;
    DepKeysExact(b, deps, above + {p});
    assert above + aside + {p} == above + {p} + aside;
    forall i | 0 <= i < |deps|
      ensures Merkle(b, deps[i], above + {p}) == Merkle(b, deps[i], above + aside + {p})
    {
      MerkleAside(b, deps[i], above + {p}, aside, s);
    }
    DepKeysSame(b, deps, above + {p}, above + aside + {p});
  }

  // ---- when there is a key ----

  predicate Imports(b: Build, p: string, q: string) {
    p in b.byPath && q in b.byPath[p].deps
  }

  ghost predicate Trail(b: Build, ps: seq<string>, p: string) {
    && |ps| > 0 && ps[0] == p
    && forall i, j :: 0 <= i < j < |ps| && j == i + 1 ==> Imports(b, ps[i], ps[j])
  }

  predicate Readable(b: Build, p: string) {
    p in b.byPath && forall i :: 0 <= i < |b.byPath[p].files| ==> b.fileHash(b.byPath[p].files[i]).Some?
  }

  /** Comes nowhere twice, stays clear of `above`, and ends at a listed package whose files can be read. */
  ghost predicate Fine(b: Build, ps: seq<string>, above: set<string>) {
    && (forall i, j :: 0 <= i < j < |ps| ==> ps[i] != ps[j])
    && (forall i :: 0 <= i < |ps| ==> ps[i] !in above)
    && forall i :: 0 <= i < |ps| ==> Readable(b, ps[i])
  }

  /** Everything imported below p is listed and readable, and no chain of imports comes back to where it was. */
  ghost predicate Sound(b: Build, p: string, above: set<string>) {
    forall ps :: Trail(b, ps, p) ==> Fine(b, ps, above)
  }

  lemma {:induction false} KeyedTrail(b: Build, p: string, above: set<string>, ps: seq<string>)
    requires Merkle(b, p, above).Ok? && Trail(b, ps, p)
    ensures Fine(b, ps, above)
    decreases |ps|
  {
    hide FileHashes, DepKeys, Key;
    DepKeysExact(b, b.byPath[p].deps, above + {p});
    FileHashesExact(b, b.byPath[p].files);
    if |ps| > 1 {
      var rest := ps[1..];
      assert Imports(b, ps[0], ps[1]);
      var i :| 0 <= i < |b.byPath[p].deps| && b.byPath[p].deps[i] == ps[1];
      KeyedTrail(b, ps[1], above + {p}, rest);
      assert forall k :: 0 < k < |ps| ==> ps[k] == rest[k - 1];
    }
  }

  lemma LongerTrail(b: Build, p: string, d: string, above: set<string>, ps: seq<string>)
    requires Sound(b, p, above) && p in b.byPath && d in b.byPath[p].deps && Trail(b, ps, d)
    ensures Fine(b, ps, above + {p})
  {
    hide Readable;
    var longer := [p] + ps;
    forall i, j | 0 <= i < j < |longer| && j == i + 1
      ensures Imports(b, longer[i], longer[j])
    {
      if i > 0 {
        assert Imports(b, ps[i - 1], ps[i - 1 + 1]);
      }
    }
    assert Trail(b, longer, p);
    assert Fine(b, longer, above);
    assert forall k :: 0 <= k < |ps| ==> ps[k] == longer[k + 1];
  }

  lemma {:induction false} SoundKeyed(b: Build, p: string, above: set<string>)
    requires Sound(b, p, above)
    ensures Merkle(b, p, above).Ok?
    decreases |b.byPath.Keys - above|
  {
    hide FileHashes, DepKeys, Key;
    assert Trail(b, [p], p);
    assert Fine(b, [p], above);
    assert [p][0] == p;
    Shrinks(b.byPath.Keys, above, p);
    var deps := b.byPath[p].deps;
    forall i | 0 <= i < |deps|
      ensures Merkle(b, deps[i], above + {p}).Ok?
    {
      forall ps | Trail(b, ps, deps[i])
        ensures Fine(b, ps, above + {p})
      {
        LongerTrail(b, p, deps[i], above, ps);
      }
      SoundKeyed(b, deps[i], above + {p});
    }
    DepKeysExact(b, deps, above + {p});
    FileHashesExact(b, b.byPath[p].files);
  }

  /** There is a key exactly when everything below is listed, readable and free of cycles. */
  lemma KeyedIffSound(b: Build, p: string)
    ensures Merkle(b, p, {}).Ok? <==> Sound(b, p, {})
  {
    hide Merkle;
    if Merkle(b, p, {}).Ok? {
      forall ps | Trail(b, ps, p)
        ensures Fine(b, ps, {})
      {
        KeyedTrail(b, p, {}, ps);
      }
    } else if Sound(b, p, {}) {
      SoundKeyed(b, p, {});
    }
  }

  function ImportKeys(b: Build, deps: seq<string>): seq<Digest>
    requires AllOk(b, deps, {})
  {
    seq(|deps|, i requires 0 <= i < |deps| => Merkle(b, deps[i], {}).value)
  }

  /** A key is the hash of the files' hashes and the imports' own keys. */
  lemma KeyFromImports(b: Build, p: string)
    requires Merkle(b, p, {}).Ok?
    ensures p in b.byPath && FileHashes(b, b.byPath[p].files).Ok? && AllOk(b, b.byPath[p].deps, {})
    ensures var pkg := b.byPath[p];
            Merkle(b, p, {}).value == Key(b, p, FileHashes(b, pkg.files).value, ImportKeys(b, pkg.deps))
  {
    hide FileHashes, DepKeys, Key;
    var deps := b.byPath[p].deps;
    assert {} + {p} == {p};
    DepKeysExact(b, deps, {p});
    forall i | 0 <= i < |deps|
      ensures Merkle(b, deps[i], {}) == Merkle(b, deps[i], {p})
    {
      MerkleSettled(b, deps[i], {p}, {});
    }
    var ks := DepKeys(b, deps, {p}).value;
    assert Merkle(b, p, {}).value == Key(b, p, FileHashes(b, b.byPath[p].files).value, ks);
    assert ks == ImportKeys(b, deps);
  }

  /** Equal keys mean the same toolchain, path and file hashes and, however listed, the same keys of imports. */
  lemma KeyTells(b: Build, p: string, b': Build, q: string)
    requires b.hash == b'.hash && forall x, y :: b.hash(x) == b.hash(y) ==> x == y
    requires Merkle(b, p, {}).Ok? && Merkle(b', q, {}).Ok?
    ensures p in b.byPath && q in b'.byPath
    ensures FileHashes(b, b.byPath[p].files).Ok? && FileHashes(b', b'.byPath[q].files).Ok?
    ensures AllOk(b, b.byPath[p].deps, {}) && AllOk(b', b'.byPath[q].deps, {})
    ensures Merkle(b, p, {}) == Merkle(b', q, {}) <==>
              && b.toolchain == b'.toolchain && p == q
              && FileHashes(b, b.byPath[p].files) == FileHashes(b', b'.byPath[q].files)
              && multiset(ImportKeys(b, b.byPath[p].deps)) == multiset(ImportKeys(b', b'.byPath[q].deps))
  {
    hide FileHashes, Merkle, Sorted;
    KeyFromImports(b, p);
    KeyFromImports(b', q);
    SortedSame(ImportKeys(b, b.byPath[p].deps), ImportKeys(b', b'.byPath[q].deps));
  }

  // ---- the recursion with a memo ----

  method HashFiles(b: Build, files: seq<string>) returns (r: Result<seq<Digest>, Failure>)
    ensures r == FileHashes(b, files)
  {
    var hashes := [];
    for i := 0 to |files|
      invariant FileHashes(b, files[..i]) == Ok(hashes)
      invariant forall j :: 0 <= j < i ==> b.fileHash(files[j]).Some?
    {
      assert files[..i + 1][..i] == files[..i];
      var h := b.fileHash(files[i]);
      if h.None? {
        FirstUnreadable(b, files, i);
        return Err(Unreadable(files[i]));
      }
      hashes := hashes + [h.value];
    }
    assert files[..|files|] == files;
    r := Ok(hashes);
  }

  lemma {:induction false} FirstUnreadable(b: Build, files: seq<string>, i: nat)
    requires i < |files| && b.fileHash(files[i]).None? && forall j :: 0 <= j < i ==> b.fileHash(files[j]).Some?
    ensures FileHashes(b, files) == Err(Unreadable(files[i]))
  {
    if i < |files| - 1 {
      FirstUnreadable(b, files[..|files| - 1], i);
    } else {
      FileHashesExact(b, files[..i]);
    }
  }

  lemma {:induction false} FirstFailing(b: Build, deps: seq<string>, i: nat, above: set<string>)
    requires i < |deps| && Merkle(b, deps[i], above).Err? && DepKeys(b, deps[..i], above).Ok?
    ensures DepKeys(b, deps, above) == Err(Merkle(b, deps[i], above).error)
  {
    hide Merkle;
    if i < |deps| - 1 {
      assert deps[..|deps| - 1][..i] == deps[..i];
      FirstFailing(b, deps[..|deps| - 1], i, above);
    }
  }

  ghost predicate Memo(b: Build, keys: map<string, Digest>) {
    && (forall p :: p in keys ==> Merkle(b, p, {}) == Ok(keys[p]))
    && ImportsWithin(b, keys.Keys)
  }

  lemma MemoGrows(b: Build, keys: map<string, Digest>, p: string, k: Digest, above: set<string>)
    requires Memo(b, keys) && Merkle(b, p, above) == Ok(k)
    requires p in b.byPath && forall i :: 0 <= i < |b.byPath[p].deps| ==> b.byPath[p].deps[i] in keys
    ensures Memo(b, keys[p := k])
  {
    hide Merkle;
    MerkleSettled(b, p, above, {});
  }

  class KeyTable {
    const build: Build
    var keys: map<string, Digest>
    var visiting: seq<string>

    constructor (b: Build)
      ensures build == b && keys == map[] && visiting == [] && Valid()
    {
      build, keys, visiting := b, map[], [];
    }

    function Above(): set<string>
      reads this
    {
      set p | p in visiting
    }

    /** The memo holds finished keys of a set of packages closed under imports, none of them being visited. */
    ghost predicate Valid()
      reads this
    {
      Memo(build, keys) && keys.Keys !! Above()
    }

    /** The memo never changes an answer: the result is that of the plain recursion, errors included. */
    method KeyOf(p: string) returns (r: Result<Digest, Failure>)
      requires Valid()
      modifies this
      ensures Valid() && old(keys.Keys) <= keys.Keys
      ensures r == Merkle(build, p, old(Above()))
      ensures r.Ok? ==> visiting == old(visiting) && p in keys
      decreases |build.byPath.Keys - Above()|, 1
    {
      hide Merkle, Memo;
      if p in keys {
        Remembered(build, p, keys, Above());
        return Ok(keys[p]);
      }
      if p in visiting {
        NoKey(build, p, Above());
        return Err(ImportCycle(p));
      }
      if p !in build.byPath {
        NoKey(build, p, Above());
        return Err(MissingDep(p));
      }
      r := Visit(p);
    }

    method Visit(p: string) returns (r: Result<Digest, Failure>)
      requires Valid() && p in build.byPath && p !in keys && p !in visiting
      modifies this
      ensures Valid() && old(keys.Keys) <= keys.Keys
      ensures r == Merkle(build, p, old(Above()))
      ensures r.Ok? ==> visiting == old(visiting) && p in keys
      decreases |build.byPath.Keys - Above()|, 0
    {
      hide Merkle, DepKeys, FileHashes, Key, Memo;
      ghost var above := Above();
      Shrinks(build.byPath.Keys, above, p);
      visiting := visiting + [p];
      assert Above() == above + {p};
      var deps := KeysOfDeps(build.byPath[p].deps);
      if deps.Err? {
        NoDeps(build, p, above);
        return Err(deps.error);
      }
      visiting := visiting[..|visiting| - 1];
      assert visiting == old(visiting);
      assert Above() == above;
      var files := HashFiles(build, build.byPath[p].files);
      Finished(build, p, above);
      if files.Err? {
        return Err(files.error);
      }
      r := Ok(Key(build, p, files.value, deps.value));
      MemoGrows(build, keys, p, r.value, above);
      keys := keys[p := r.value];
    }

    method KeysOfDeps(deps: seq<string>) returns (r: Result<seq<Digest>, Failure>)
      requires Valid()
      modifies this
      ensures Valid() && old(keys.Keys) <= keys.Keys
      ensures r == DepKeys(build, deps, old(Above()))
      ensures r.Ok? ==> visiting == old(visiting) && forall i :: 0 <= i < |deps| ==> deps[i] in keys
      decreases |build.byPath.Keys - Above()|, 2
    {
      hide Merkle, Memo;
      var ks := [];
      for i := 0 to |deps|
        invariant Valid() && old(keys.Keys) <= keys.Keys && visiting == old(visiting)
        invariant DepKeys(build, deps[..i], Above()) == Ok(ks)
        invariant forall j :: 0 <= j < i ==> deps[j] in keys
      {
        assert deps[..i + 1][..i] == deps[..i];
        var k := KeyOf(deps[i]);
        if k.Err? {
          FirstFailing(build, deps, i, old(Above()));
          return Err(k.error);
        }
        ks := ks + [k.value];
      }
      assert deps[..|deps|] == deps;
      r := Ok(ks);
    }
  }

  lemma Remembered(b: Build, p: string, keys: map<string, Digest>, above: set<string>)
    requires Memo(b, keys) && keys.Keys !! above && p in keys
    ensures Merkle(b, p, above) == Ok(keys[p])
  {
    hide Merkle;
    MerkleAside(b, p, {}, above, keys.Keys);
    assert {} + above == above;
  }

  lemma NoKey(b: Build, p: string, above: set<string>)
    requires p in above || p !in b.byPath
    ensures Merkle(b, p, above) == Err(if p in above then ImportCycle(p) else MissingDep(p))
  {
  }

  lemma NoDeps(b: Build, p: string, above: set<string>)
    requires p in b.byPath && p !in above && DepKeys(b, b.byPath[p].deps, above + {p}).Err?
    ensures Merkle(b, p, above) == Err(DepKeys(b, b.byPath[p].deps, above + {p}).error)
  {
  }

  lemma Finished(b: Build, p: string, above: set<string>)
    requires p in b.byPath && p !in above && DepKeys(b, b.byPath[p].deps, above + {p}).Ok?
    ensures var files := FileHashes(b, b.byPath[p].files);
            var deps := DepKeys(b, b.byPath[p].deps, above + {p}).value;
            Merkle(b, p, above) == if files.Err? then Err(files.error) else Ok(Key(b, p, files.value, deps))
  {
    hide DepKeys, FileHashes, Key;
  }

  /** Every listed package has its key. */
  ghost predicate Complete(b: Build, keys: map<string, Digest>) {
    keys.Keys == b.byPath.Keys && forall p :: p in keys ==> Merkle(b, p, {}) == Ok(keys[p])
  }

  /** Package i is the first of the list without a key, for this reason. */
  ghost predicate FirstFailure(b: Build, pkgs: seq<Pkg>, i: nat, e: Failure) {
    && i < |pkgs| && Merkle(b, pkgs[i].importPath, {}) == Err(e)
    && forall j :: 0 <= j < i ==> Merkle(b, pkgs[j].importPath, {}).Ok?
  }

  /**
    All keys, or the first error. Keys come out exactly when all below the listed packages is listed,
    readable and free of cycles; they are then the plain recursion's, whatever the order of the list.
   */
  method AllKeys(toolchain: string, pkgs: seq<Pkg>, fileHash: string -> Option<Digest>, hash: PkgPreimage -> Digest)
    returns (r: Result<map<string, Digest>, Failure>)
    ensures var b := Build(toolchain, ByPath(pkgs), fileHash, hash);
            && (r.Ok? <==> AllSound(b))
            && (r.Ok? ==> Complete(b, r.value))
            && (r.Err? ==> exists i: nat :: FirstFailure(b, pkgs, i, r.error))
  {
    hide Merkle, Sound, ByPath, Memo, AllSound, Complete;
    var b := Build(toolchain, ByPath(pkgs), fileHash, hash);
    var table := new KeyTable(b);
    for i := 0 to |pkgs|
      invariant fresh(table) && table.build == b && table.Valid() && table.visiting == []
      invariant forall j :: 0 <= j < i ==> pkgs[j].importPath in table.keys
      invariant forall j :: 0 <= j < i ==> Merkle(b, pkgs[j].importPath, {}).Ok?
    {
      assert table.Above() == {};
      var k := table.KeyOf(pkgs[i].importPath);
      if k.Err? {
        Unsound(b, pkgs, i);
        assert FirstFailure(b, pkgs, i, k.error);
        return Err(k.error);
      }
    }
    AllSettled(b, pkgs, table.keys);
    r := Ok(table.keys);
  }

  ghost predicate AllSound(b: Build) {
    forall p :: p in b.byPath ==> Sound(b, p, {})
  }

  lemma Unsound(b: Build, pkgs: seq<Pkg>, i: nat)
    requires b.byPath == ByPath(pkgs) && i < |pkgs| && Merkle(b, pkgs[i].importPath, {}).Err?
    ensures !AllSound(b)
  {
    hide Merkle, Sound, ByPath;
    KeyedIffSound(b, pkgs[i].importPath);
    ByPathIsListed(pkgs, pkgs[i].importPath);
  }

  lemma AllSettled(b: Build, pkgs: seq<Pkg>, keys: map<string, Digest>)
    requires b.byPath == ByPath(pkgs) && forall j :: 0 <= j < |pkgs| ==> pkgs[j].importPath in keys
    requires Memo(b, keys)
    ensures AllSound(b) && Complete(b, keys)
  {
    hide Merkle, Sound, ByPath;
    forall p
      ensures p in b.byPath <==> p in keys
    {
      ByPathIsListed(pkgs, p);
      if p in keys && p !in b.byPath {
        NoKey(b, p, {});
      }
    }
    forall p | p in b.byPath
      ensures Sound(b, p, {})
    {
      KeyedIffSound(b, p);
    }
  }

  // ---- the order of the list ----

  lemma {:induction false} TheListedOne(pkgs: seq<Pkg>, i: nat)
    requires i < |pkgs| && forall j, k :: 0 <= j < k < |pkgs| ==> pkgs[j].importPath != pkgs[k].importPath
    ensures pkgs[i].importPath in ByPath(pkgs) && ByPath(pkgs)[pkgs[i].importPath] == pkgs[i]
  {
    if i < |pkgs| - 1 {
      TheListedOne(pkgs[..|pkgs| - 1], i);
    }
  }

  /** With each path listed once, another order of the list gives the same keys, or an error again. */
  lemma OrderOfList(pkgs: seq<Pkg>, pkgs': seq<Pkg>)
    requires multiset(pkgs) == multiset(pkgs')
    requires forall j, k :: 0 <= j < k < |pkgs| ==> pkgs[j].importPath != pkgs[k].importPath
    requires forall j, k :: 0 <= j < k < |pkgs'| ==> pkgs'[j].importPath != pkgs'[k].importPath
    ensures ByPath(pkgs) == ByPath(pkgs')
  {
    hide ByPath;
    SameListed(pkgs, pkgs');
    SameListed(pkgs', pkgs);
  }

  lemma SameListed(pkgs: seq<Pkg>, pkgs': seq<Pkg>)
    requires multiset(pkgs) == multiset(pkgs')
    requires forall j, k :: 0 <= j < k < |pkgs| ==> pkgs[j].importPath != pkgs[k].importPath
    requires forall j, k :: 0 <= j < k < |pkgs'| ==> pkgs'[j].importPath != pkgs'[k].importPath
    ensures forall p :: p in ByPath(pkgs) ==> p in ByPath(pkgs') && ByPath(pkgs')[p] == ByPath(pkgs)[p]
  {
    hide ByPath;
    forall p | p in ByPath(pkgs)
      ensures p in ByPath(pkgs') && ByPath(pkgs')[p] == ByPath(pkgs)[p]
    {
      ByPathIsListed(pkgs, p);
      var i :| 0 <= i < |pkgs| && pkgs[i].importPath == p;
      assert pkgs[i] in multiset(pkgs);
      assert pkgs[i] in pkgs';
      var k :| 0 <= k < |pkgs'| && pkgs'[k] == pkgs[i];
      TheListedOne(pkgs, i);
      TheListedOne(pkgs', k);
    }
  }
}
