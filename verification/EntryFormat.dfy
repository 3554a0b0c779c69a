/**
  The stored form of a group's entry: length-prefixed fields, every count checked against what is
  left to read. Decoding an encoding gives the entry back whatever follows it, and no shorter or
  longer byte string passes for one.
 */
module EntryFormat {
  import opened Wrappers
  import opened Ir
  import opened Terms
  import opened Summaries
  import opened Locations
  import opened Effects
  import opened Fixpoint
  import opened Entries

  type Byte = x: int | 0 <= x < 256

  type Bytes = seq<Byte>

  const U32_LIMIT: nat := 0x1_0000_0000

  const SCC_ENTRY_FORMAT: Byte := 2

  type Decoded<T> = Option<(T, Bytes)>

  /** What the format builds on: text as UTF-8, the term codec, and the order in which maps are walked. */
  datatype Tools = Tools(
    toUtf8: string -> Bytes,
    fromUtf8: Bytes -> Option<string>,
    encodeTerm: Term -> Bytes,
    decodeTerm: Bytes -> Decoded<Term>,
    chanEntries: Table<ChanOp> -> seq<(Loc, seq<ChanOp>)>,
    lockEntries: Table<LockOp> -> seq<(Loc, seq<LockOp>)>)

  /** The decoder reads the same from a longer string, and leaves the rest. */
  ghost predicate Extends<T>(short: Decoded<T>, long: Decoded<T>, q: Bytes) {
    short.Some? ==> long == Some((short.value.0, short.value.1 + q))
  }

  /** Text and terms round-trip, the term codec does not look past the term, and walking a map misses nothing. */
  ghost predicate Faithful(t: Tools) {
    && (forall s :: t.fromUtf8(t.toUtf8(s)) == Some(s))
    && (forall x, q :: t.decodeTerm(t.encodeTerm(x) + q) == Some((x, q)))
    && (forall b, q :: Extends(t.decodeTerm(b), t.decodeTerm(b + q), q))
    && (forall m :: TableFrom(t.chanEntries(m)) == m)
    && (forall m :: TableFrom(t.lockEntries(m)) == m)
  }

  /** Entries inserted one after the other, the last one for a location staying. */
  function TableFrom<T>(entries: seq<(Loc, seq<T>)>): Table<T> {
    if entries == [] then map[]
    else
      var e := entries[|entries| - 1];
      TableFrom(entries[..|entries| - 1])[e.0 := set o | o in e.1]
  }

  // ---- numbers ----

  function EncU8(v: Byte): (b: Bytes)
    ensures |b| == 1
  {
    [v]
  }

  function DecU8(b: Bytes): Decoded<Byte> {
    if |b| == 0 then None else Some((b[0], b[1..]))
  }

  function Low(v: nat, k: nat): Byte
    requires k > 0
  {
    (v / k) % 256
  }

  /** Little-endian. */
  function EncU32(v: nat): (b: Bytes)
    ensures |b| == 4
  {
    [Low(v, 1), Low(v, 0x100), Low(v, 0x1_0000), Low(v, 0x100_0000)]
  }

  function FromLe(b: Bytes): nat
    requires |b| >= 4
  {
    var b0: nat, b1: nat, b2: nat, b3: nat := b[0], b[1], b[2], b[3];
    b0 + 0x100 * b1 + 0x1_0000 * b2 + 0x100_0000 * b3
  }

  function DecU32(b: Bytes): Decoded<nat> {
    if |b| < 4 then None else Some((FromLe(b), b[4..]))
  }

  lemma U32RoundTrip(v: nat, q: Bytes)
    requires v < U32_LIMIT
    ensures DecU32(EncU32(v) + q) == Some((v, q))
  {
    hide Low;
    var b := EncU32(v) + q;
    assert b[4..] == q;
    DigitsSum(v);
  }

  lemma DigitsSum(v: nat)
    requires v < U32_LIMIT
    ensures Low(v, 1) + 0x100 * Low(v, 0x100) + 0x1_0000 * Low(v, 0x1_0000) + 0x100_0000 * Low(v, 0x100_0000) == v
  {
    var v1, v2, v3 := v / 0x100, v / 0x100 / 0x100, v / 0x100 / 0x100 / 0x100;
    ShiftedTwice(v);
    assert v == 0x100 * v1 + v % 0x100;
    assert v1 == 0x100 * v2 + v1 % 0x100;
    assert v2 == 0x100 * v3 + v2 % 0x100;
    assert v3 < 0x100;
  }

  lemma ShiftedTwice(v: nat)
    ensures v / 0x1_0000 == v / 0x100 / 0x100 && v / 0x100_0000 == v / 0x100 / 0x100 / 0x100
  {
  }

  lemma U32Extends(b: Bytes, q: Bytes)
    ensures Extends(DecU32(b), DecU32(b + q), q)
  {
    if |b| >= 4 {
      assert (b + q)[4..] == b[4..] + q;
    }
  }

  lemma U8Extends(b: Bytes, q: Bytes)
    ensures Extends(DecU8(b), DecU8(b + q), q)
  {
    if |b| > 0 {
      assert (b + q)[1..] == b[1..] + q;
    }
  }

  lemma U8RoundTrip(v: Byte, q: Bytes)
    ensures DecU8(EncU8(v) + q) == Some((v, q))
  {
    assert (EncU8(v) + q)[1..] == q;
  }

  // ---- text ----

  function EncStr(t: Tools, s: string): Bytes {
    EncU32(|t.toUtf8(s)|) + t.toUtf8(s)
  }

  function DecStr(t: Tools, b: Bytes): Decoded<string> {
    var n :- DecU32(b);
    if |n.1| < n.0 then None
    else
      var s :- t.fromUtf8(n.1[..n.0]);
      Some((s, n.1[n.0..]))
  }

  predicate StrFits(t: Tools, s: string) {
    |t.toUtf8(s)| < U32_LIMIT
  }

  lemma StrRoundTrip(t: Tools, s: string, q: Bytes)
    requires Faithful(t) && StrFits(t, s)
    ensures DecStr(t, EncStr(t, s) + q) == Some((s, q)) && |EncStr(t, s)| > 0
  {
    hide DecU32, EncU32;
    var u := t.toUtf8(s);
    assert EncStr(t, s) + q == EncU32(|u|) + (u + q);
    U32RoundTrip(|u|, u + q);
    assert (u + q)[..|u|] == u && (u + q)[|u|..] == q;
  }

  lemma StrExtends(t: Tools, b: Bytes, q: Bytes)
    ensures Extends(DecStr(t, b), DecStr(t, b + q), q)
  {
    hide DecU32;
    U32Extends(b, q);
    if DecStr(t, b).Some? {
      var n := DecU32(b).value;
      assert (n.1 + q)[..n.0] == n.1[..n.0] && (n.1 + q)[n.0..] == n.1[n.0..] + q;
    }
  }

  // ---- lists ----

  /** A count is believed only if that many bytes are left. */
  function TakeCount(b: Bytes): Decoded<nat> {
    var n :- DecU32(b);
    if n.0 > |n.1| then None else Some(n)
  }

  function EncMany<T>(enc: T -> Bytes, xs: seq<T>): Bytes {
    if xs == [] then [] else enc(xs[0]) + EncMany(enc, xs[1..])
  }

  function DecMany<T>(dec: Bytes -> Decoded<T>, n: nat, b: Bytes): Decoded<seq<T>> {
    if n == 0 then Some(([], b))
    else
      var x :- dec(b);
      var rest :- DecMany(dec, n - 1, x.1);
      Some(([x.0] + rest.0, rest.1))
  }

  function EncList<T>(enc: T -> Bytes, xs: seq<T>): Bytes {
    EncU32(|xs|) + EncMany(enc, xs)
  }

  function DecList<T>(dec: Bytes -> Decoded<T>, b: Bytes): Decoded<seq<T>> {
    var n :- TakeCount(b);
    DecMany(dec, n.0, n.1)
  }

  /** Decoding undoes encoding for this element, whatever follows. */
  ghost predicate GoesRound<T(!new)>(enc: T -> Bytes, dec: Bytes -> Decoded<T>, x: T) {
    |enc(x)| > 0 && forall q :: dec(enc(x) + q) == Some((x, q))
  }

  ghost predicate AlwaysExtends<T(!new)>(dec: Bytes -> Decoded<T>) {
    forall b, q :: Extends(dec(b), dec(b + q), q)
  }

  lemma {:induction false} ManyRoundTrip<T(!new)>(enc: T -> Bytes, dec: Bytes -> Decoded<T>, xs: seq<T>, q: Bytes)
    requires forall x :: x in xs ==> GoesRound(enc, dec, x)
    ensures DecMany(dec, |xs|, EncMany(enc, xs) + q) == Some((xs, q)) && |xs| <= |EncMany(enc, xs)|
  {
    if xs != [] {
      ManyRoundTrip(enc, dec, xs[1..], q);
      var rest := EncMany(enc, xs[1..]) + q;
      assert EncMany(enc, xs) + q == enc(xs[0]) + rest;
      assert GoesRound(enc, dec, xs[0]);
      assert dec(enc(xs[0]) + rest) == Some((xs[0], rest));
      assert [xs[0]] + xs[1..] == xs;
    } else {
      assert EncMany(enc, xs) + q == q;
    }
  }

  lemma {:induction false} ManyExtends<T(!new)>(dec: Bytes -> Decoded<T>, n: nat, b: Bytes, q: Bytes)
    requires AlwaysExtends(dec)
    ensures Extends(DecMany(dec, n, b), DecMany(dec, n, b + q), q)
  {
    if n > 0 && dec(b).Some? {
      assert Extends(dec(b), dec(b + q), q);
      ManyExtends(dec, n - 1, dec(b).value.1, q);
    }
  }

  lemma CountExtends(b: Bytes, q: Bytes)
    ensures Extends(TakeCount(b), TakeCount(b + q), q)
  {
    hide DecU32;
    U32Extends(b, q);
  }

  /** The bound on counts never turns down an honest list. */
  lemma ListRoundTrip<T(!new)>(enc: T -> Bytes, dec: Bytes -> Decoded<T>, xs: seq<T>, q: Bytes)
    requires |xs| < U32_LIMIT && forall x :: x in xs ==> GoesRound(enc, dec, x)
    ensures DecList(dec, EncList(enc, xs) + q) == Some((xs, q)) && |EncList(enc, xs)| > 0
  {
    hide DecU32, EncU32, EncMany, DecMany;
    ManyRoundTrip(enc, dec, xs, q);
    assert EncList(enc, xs) + q == EncU32(|xs|) + (EncMany(enc, xs) + q);
    U32RoundTrip(|xs|, EncMany(enc, xs) + q);
  }

  lemma ListExtends<T(!new)>(dec: Bytes -> Decoded<T>, b: Bytes, q: Bytes)
    requires AlwaysExtends(dec)
    ensures Extends(DecList(dec, b), DecList(dec, b + q), q)
  {
    hide DecU32, DecMany;
    CountExtends(b, q);
    if TakeCount(b).Some? {
      ManyExtends(dec, TakeCount(b).value.0, TakeCount(b).value.1, q);
    }
  }

  // ---- one-byte codes ----

  function ProvenanceCode(x: Provenance): Byte {
    match x
    case Inferred => 0
    case Havocked => 1
    case Annotated => 2
  }

  function EncProvenance(x: Provenance): Bytes {
    EncU8(ProvenanceCode(x))
  }

  function DecProvenance(b: Bytes): Decoded<Provenance> {
    var c :- DecU8(b);
    if c.0 == 0 then Some((Inferred, c.1)) else if c.0 == 1 then Some((Havocked, c.1))
      else if c.0 == 2 then Some((Annotated, c.1)) else None
  }

  lemma ProvenanceRoundTrip(x: Provenance, q: Bytes)
    ensures DecProvenance(EncProvenance(x) + q) == Some((x, q))
  {
    hide DecU8, EncU8;
    U8RoundTrip(ProvenanceCode(x), q);
  }

  lemma ProvenanceExtends(b: Bytes, q: Bytes)
    ensures Extends(DecProvenance(b), DecProvenance(b + q), q)
  {
    hide DecU8;
    U8Extends(b, q);
  }

  function SpawnsCode(x: Spawns): Byte {
    match x
    case NoSpawns => 0
    case Bounded => 1
    case Unbounded => 2
  }

  function EncSpawns(x: Spawns): Bytes {
    EncU8(SpawnsCode(x))
  }

  function DecSpawns(b: Bytes): Decoded<Spawns> {
    var c :- DecU8(b);
    if c.0 == 0 then Some((NoSpawns, c.1)) else if c.0 == 1 then Some((Bounded, c.1))
      else if c.0 == 2 then Some((Unbounded, c.1)) else None
  }

  lemma SpawnsRoundTrip(x: Spawns, q: Bytes)
    ensures DecSpawns(EncSpawns(x) + q) == Some((x, q))
  {
    hide DecU8, EncU8;
    U8RoundTrip(SpawnsCode(x), q);
  }

  lemma SpawnsExtends(b: Bytes, q: Bytes)
    ensures Extends(DecSpawns(b), DecSpawns(b + q), q)
  {
    hide DecU8;
    U8Extends(b, q);
  }

  function ChanOpCode(x: ChanOp): Byte {
    match x
    case MakeOp => 0
    case SendOp => 1
    case RecvOp => 2
    case CloseOp => 3
    case SelectOp => 4
  }

  function EncChanOp(x: ChanOp): Bytes {
    EncU8(ChanOpCode(x))
  }

  function DecChanOp(b: Bytes): Decoded<ChanOp> {
    var c :- DecU8(b);
    if c.0 == 0 then Some((MakeOp, c.1)) else if c.0 == 1 then Some((SendOp, c.1))
      else if c.0 == 2 then Some((RecvOp, c.1)) else if c.0 == 3 then Some((CloseOp, c.1))
      else if c.0 == 4 then Some((SelectOp, c.1)) else None
  }

  lemma ChanOpRoundTrip(x: ChanOp, q: Bytes)
    ensures DecChanOp(EncChanOp(x) + q) == Some((x, q))
  {
    hide DecU8, EncU8;
    U8RoundTrip(ChanOpCode(x), q);
  }

  lemma ChanOpExtends(b: Bytes, q: Bytes)
    ensures Extends(DecChanOp(b), DecChanOp(b + q), q)
  {
    hide DecU8;
    U8Extends(b, q);
  }

  function LockOpCode(x: LockOp): Byte {
    match x
    case LockedOp => 0
    case UnlockedOp => 1
    case RLockedOp => 2
    case RUnlockedOp => 3
    case DeferredUnlockOp => 4
    case DeferredRUnlockOp => 5
  }

  function EncLockOp(x: LockOp): Bytes {
    EncU8(LockOpCode(x))
  }

  function DecLockOp(b: Bytes): Decoded<LockOp> {
    var c :- DecU8(b);
    if c.0 == 0 then Some((LockedOp, c.1)) else if c.0 == 1 then Some((UnlockedOp, c.1))
      else if c.0 == 2 then Some((RLockedOp, c.1)) else if c.0 == 3 then Some((RUnlockedOp, c.1))
      else if c.0 == 4 then Some((DeferredUnlockOp, c.1)) else if c.0 == 5 then Some((DeferredRUnlockOp, c.1)) else None
  }

  lemma LockOpRoundTrip(x: LockOp, q: Bytes)
    ensures DecLockOp(EncLockOp(x) + q) == Some((x, q))
  {
    hide DecU8, EncU8;
    U8RoundTrip(LockOpCode(x), q);
  }

  lemma LockOpExtends(b: Bytes, q: Bytes)
    ensures Extends(DecLockOp(b), DecLockOp(b + q), q)
  {
    hide DecU8;
    U8Extends(b, q);
  }

  function SeverityCode(x: Severity): Byte {
    match x
    case ErrorSeverity => 0
    case WarningSeverity => 1
  }

  function EncSeverity(x: Severity): Bytes {
    EncU8(SeverityCode(x))
  }

  function DecSeverity(b: Bytes): Decoded<Severity> {
    var c :- DecU8(b);
    if c.0 == 0 then Some((ErrorSeverity, c.1)) else if c.0 == 1 then Some((WarningSeverity, c.1)) else None
  }

  lemma SeverityRoundTrip(x: Severity, q: Bytes)
    ensures DecSeverity(EncSeverity(x) + q) == Some((x, q))
  {
    hide DecU8, EncU8;
    U8RoundTrip(SeverityCode(x), q);
  }

  lemma SeverityExtends(b: Bytes, q: Bytes)
    ensures Extends(DecSeverity(b), DecSeverity(b + q), q)
  {
    hide DecU8;
    U8Extends(b, q);
  }

  lemma U8Exact(b: Bytes, v: Byte, q: Bytes)
    ensures DecU8(b) == Some((v, q)) <==> b == EncU8(v) + q
  {
    if DecU8(b) == Some((v, q)) {
      assert b == [b[0]] + b[1..];
    }
    U8RoundTrip(v, q);
  }

  /** Four bytes are read as a number exactly if they are how it is written. */
  lemma U32Exact(b: Bytes, v: nat, q: Bytes)
    requires v < U32_LIMIT
    ensures DecU32(b) == Some((v, q)) <==> b == EncU32(v) + q
  {
    if DecU32(b) == Some((v, q)) {
      DigitsOf(b[0], b[1], b[2], b[3]);
      assert b == b[..4] + b[4..];
      assert b[..4] == EncU32(v);
    }
    U32RoundTrip(v, q);
  }

  lemma DigitsOf(b0: Byte, b1: Byte, b2: Byte, b3: Byte)
    ensures var v: nat := b0 + 0x100 * b1 + 0x1_0000 * b2 + 0x100_0000 * b3;
            Low(v, 1) == b0 && Low(v, 0x100) == b1 && Low(v, 0x1_0000) == b2 && Low(v, 0x100_0000) == b3
  {
    var b3': nat := b3;
    var v2: nat := b2 + 0x100 * b3';
    var v1: nat := b1 + 0x100 * v2;
    var v: nat := b0 + 0x100 * v1;
    LastDigit(b0, v1);
    LastDigit(b1, v2);
    LastDigit(b2, b3');
    ShiftedTwice(v);
  }

  lemma LastDigit(d: Byte, rest: nat)
    ensures (d + 0x100 * rest) / 0x100 == rest && (d + 0x100 * rest) % 0x100 == d
  {
  }

  /** No other byte passes for a code. */
  lemma CodesExact(b: Bytes, q: Bytes, p: Provenance, s: Spawns, w: Severity)
    ensures DecProvenance(b) == Some((p, q)) <==> b == EncProvenance(p) + q
    ensures DecSpawns(b) == Some((s, q)) <==> b == EncSpawns(s) + q
    ensures DecSeverity(b) == Some((w, q)) <==> b == EncSeverity(w) + q
  {
    hide DecU8, EncU8;
    U8Exact(b, ProvenanceCode(p), q);
    U8Exact(b, SpawnsCode(s), q);
    U8Exact(b, SeverityCode(w), q);
  }

  lemma OpCodesExact(b: Bytes, q: Bytes, c: ChanOp, l: LockOp)
    ensures DecChanOp(b) == Some((c, q)) <==> b == EncChanOp(c) + q
    ensures DecLockOp(b) == Some((l, q)) <==> b == EncLockOp(l) + q
  {
    hide DecU8, EncU8;
    U8Exact(b, ChanOpCode(c), q);
    U8Exact(b, LockOpCode(l), q);
  }

  // ---- clauses ----

  function EncClause(t: Tools, c: Clause): Bytes {
    EncStr(t, c.tag) + (t.encodeTerm(c.term) + EncProvenance(c.provenance))
  }

  function DecClause(t: Tools, b: Bytes): Decoded<Clause> {
    var tag :- DecStr(t, b);
    var term :- t.decodeTerm(tag.1);
    var p :- DecProvenance(term.1);
    Some((Clause(tag.0, term.0, p.0), p.1))
  }

  predicate ClauseFits(t: Tools, c: Clause) {
    StrFits(t, c.tag)
  }

  lemma ClauseRoundTrip(t: Tools, c: Clause, q: Bytes)
    requires Faithful(t) && ClauseFits(t, c)
    ensures DecClause(t, EncClause(t, c) + q) == Some((c, q)) && |EncClause(t, c)| > 0
  {
    hide EncStr, DecStr, EncProvenance, DecProvenance;
    var p := EncProvenance(c.provenance) + q;
    var rest := t.encodeTerm(c.term) + p;
    assert EncClause(t, c) + q == EncStr(t, c.tag) + rest;
    StrRoundTrip(t, c.tag, rest);
    assert t.decodeTerm(t.encodeTerm(c.term) + p) == Some((c.term, p));
    ProvenanceRoundTrip(c.provenance, q);
  }

  lemma ClauseExtends(t: Tools, b: Bytes, q: Bytes)
    requires Faithful(t)
    ensures Extends(DecClause(t, b), DecClause(t, b + q), q)
  {
    hide DecStr, DecProvenance;
    StrExtends(t, b, q);
    if DecClause(t, b).Some? {
      var tag := DecStr(t, b).value;
      assert Extends(t.decodeTerm(tag.1), t.decodeTerm(tag.1 + q), q);
      ProvenanceExtends(t.decodeTerm(tag.1).value.1, q);
    }
  }

  // ---- locations ----

  function RootCode(r: Root): Byte {
    match r
    case ParamRoot(_) => 0
    case GlobalRoot(_) => 1
    case AllocRoot(_) => 2
    case UnknownRoot => 3
    case FreeVarRoot(_) => 4
  }

  function RootPayload(t: Tools, r: Root): Bytes {
    match r
    case ParamRoot(i) => EncU32(i)
    case GlobalRoot(name) => EncStr(t, name)
    case AllocRoot(i) => EncU32(i)
    case UnknownRoot => []
    case FreeVarRoot(i) => EncU32(i)
  }

  function EncRoot(t: Tools, r: Root): Bytes {
    EncU8(RootCode(r)) + RootPayload(t, r)
  }

  function DecRootPayload(t: Tools, code: Byte, b: Bytes): Decoded<Root> {
    if code == 0 then
      var i :- DecU32(b);
      Some((ParamRoot(i.0), i.1))
    else if code == 1 then
      var s :- DecStr(t, b);
      Some((GlobalRoot(s.0), s.1))
    else if code == 2 then
      var i :- DecU32(b);
      Some((AllocRoot(i.0), i.1))
    else if code == 3 then Some((UnknownRoot, b))
    else if code == 4 then
      var i :- DecU32(b);
      Some((FreeVarRoot(i.0), i.1))
    else None
  }

  function DecRoot(t: Tools, b: Bytes): Decoded<Root> {
    var c :- DecU8(b);
    DecRootPayload(t, c.0, c.1)
  }

  predicate RootFits(t: Tools, r: Root) {
    match r
    case ParamRoot(i) => i < U32_LIMIT
    case GlobalRoot(name) => StrFits(t, name)
    case AllocRoot(i) => i < U32_LIMIT
    case UnknownRoot => true
    case FreeVarRoot(i) => i < U32_LIMIT
  }

  lemma RootRoundTrip(t: Tools, r: Root, q: Bytes)
    requires Faithful(t) && RootFits(t, r)
    ensures DecRoot(t, EncRoot(t, r) + q) == Some((r, q))
  {
    hide EncU8, DecU8, EncU32, DecU32, EncStr, DecStr;
    assert EncRoot(t, r) + q == EncU8(RootCode(r)) + (RootPayload(t, r) + q);
    U8RoundTrip(RootCode(r), RootPayload(t, r) + q);
    match r
    case ParamRoot(i) => U32RoundTrip(i, q);
    case GlobalRoot(name) => StrRoundTrip(t, name, q);
    case AllocRoot(i) => U32RoundTrip(i, q);
    case UnknownRoot => assert [] + q == q;
    case FreeVarRoot(i) => U32RoundTrip(i, q);
  }

  lemma RootExtends(t: Tools, b: Bytes, q: Bytes)
    ensures Extends(DecRoot(t, b), DecRoot(t, b + q), q)
  {
    hide DecU8, DecU32, DecStr;
    U8Extends(b, q);
    if DecU8(b).Some? {
      U32Extends(DecU8(b).value.1, q);
      StrExtends(t, DecU8(b).value.1, q);
    }
  }

  function U32Enc(): nat -> Bytes {
    (v: nat) => EncU32(v)
  }

  function U32Dec(): Bytes -> Decoded<nat> {
    (b: Bytes) => DecU32(b)
  }

  lemma U32GoesRound(v: nat)
    requires v < U32_LIMIT
    ensures GoesRound(U32Enc(), U32Dec(), v)
  {
    hide EncU32, DecU32;
    forall q: Bytes
      ensures U32Dec()(U32Enc()(v) + q) == Some((v, q))
    {
      U32RoundTrip(v, q);
    }
  }

  lemma U32AlwaysExtends()
    ensures AlwaysExtends(U32Dec())
  {
    hide DecU32;
    forall b: Bytes, q: Bytes
      ensures Extends(U32Dec()(b), U32Dec()(b + q), q)
    {
      U32Extends(b, q);
    }
  }

  function EncLoc(t: Tools, l: Loc): Bytes {
    EncRoot(t, l.root) + EncList(U32Enc(), l.path)
  }

  function DecLoc(t: Tools, b: Bytes): Decoded<Loc> {
    var root :- DecRoot(t, b);
    var path :- DecList(U32Dec(), root.1);
    Some((Loc(root.0, path.0), path.1))
  }

  predicate LocFits(t: Tools, l: Loc) {
    RootFits(t, l.root) && |l.path| < U32_LIMIT && forall i :: 0 <= i < |l.path| ==> l.path[i] < U32_LIMIT
  }

  lemma LocRoundTrip(t: Tools, l: Loc, q: Bytes)
    requires Faithful(t) && LocFits(t, l)
    ensures DecLoc(t, EncLoc(t, l) + q) == Some((l, q)) && |EncLoc(t, l)| > 0
  {
    hide EncRoot, DecRoot, EncList, DecList, GoesRound;
    forall x | x in l.path
      ensures GoesRound(U32Enc(), U32Dec(), x)
    {
      U32GoesRound(x);
    }
    ListRoundTrip(U32Enc(), U32Dec(), l.path, q);
    assert EncLoc(t, l) + q == EncRoot(t, l.root) + (EncList(U32Enc(), l.path) + q);
    RootRoundTrip(t, l.root, EncList(U32Enc(), l.path) + q);
  }

  lemma LocExtends(t: Tools, b: Bytes, q: Bytes)
    ensures Extends(DecLoc(t, b), DecLoc(t, b + q), q)
  {
    hide DecRoot, DecList;
    RootExtends(t, b, q);
    U32AlwaysExtends();
    if DecRoot(t, b).Some? {
      ListExtends(U32Dec(), DecRoot(t, b).value.1, q);
    }
  }

  // ---- effects ----

  /** How the operations of one kind are coded. */
  datatype OpCodec<!T> = OpCodec(enc: T -> Bytes, dec: Bytes -> Decoded<T>)

  const CHAN_CODEC: OpCodec<ChanOp> := OpCodec((x: ChanOp) => EncChanOp(x), (b: Bytes) => DecChanOp(b))
  const LOCK_CODEC: OpCodec<LockOp> := OpCodec((x: LockOp) => EncLockOp(x), (b: Bytes) => DecLockOp(b))

  ghost predicate GoodCodec<T(!new)>(c: OpCodec<T>) {
    (forall x :: GoesRound(c.enc, c.dec, x)) && AlwaysExtends(c.dec)
  }

  lemma OpCodecs()
    ensures GoodCodec(CHAN_CODEC) && GoodCodec(LOCK_CODEC)
  {
    hide DecChanOp, DecLockOp, Extends;
    forall x: ChanOp
      ensures GoesRound(CHAN_CODEC.enc, CHAN_CODEC.dec, x)
    {
      forall q: Bytes
        ensures CHAN_CODEC.dec(CHAN_CODEC.enc(x) + q) == Some((x, q))
      {
        ChanOpRoundTrip(x, q);
      }
    }
    forall x: LockOp
      ensures GoesRound(LOCK_CODEC.enc, LOCK_CODEC.dec, x)
    {
      forall q: Bytes
        ensures LOCK_CODEC.dec(LOCK_CODEC.enc(x) + q) == Some((x, q))
      {
        LockOpRoundTrip(x, q);
      }
    }
    forall b: Bytes, q: Bytes
      ensures Extends(CHAN_CODEC.dec(b), CHAN_CODEC.dec(b + q), q)
          && Extends(LOCK_CODEC.dec(b), LOCK_CODEC.dec(b + q), q)
    {
      ChanOpExtends(b, q);
      LockOpExtends(b, q);
    }
  }

  type TableEntry<T> = (Loc, seq<T>)

  function EncTableEntry<T>(t: Tools, c: OpCodec<T>, e: TableEntry<T>): Bytes {
    EncLoc(t, e.0) + EncList(c.enc, e.1)
  }

  function DecTableEntry<T>(t: Tools, c: OpCodec<T>, b: Bytes): Decoded<TableEntry<T>> {
    var l :- DecLoc(t, b);
    var ops :- DecList(c.dec, l.1);
    Some(((l.0, ops.0), ops.1))
  }

  predicate TableEntryFits<T>(t: Tools, e: TableEntry<T>) {
    LocFits(t, e.0) && |e.1| < U32_LIMIT
  }

  function TableEnc<T>(t: Tools, c: OpCodec<T>): TableEntry<T> -> Bytes {
    (e: TableEntry<T>) => EncTableEntry(t, c, e)
  }

  function TableDec<T>(t: Tools, c: OpCodec<T>): Bytes -> Decoded<TableEntry<T>> {
    (b: Bytes) => DecTableEntry(t, c, b)
  }

  lemma TableEntryGoesRound<T(!new)>(t: Tools, c: OpCodec<T>, e: TableEntry<T>)
    requires Faithful(t) && GoodCodec(c) && TableEntryFits(t, e)
    ensures GoesRound(TableEnc(t, c), TableDec(t, c), e)
  {
    hide EncLoc, DecLoc, EncList, DecList, GoesRound, AlwaysExtends, LocFits;
    LocRoundTrip(t, e.0, []);
    forall q: Bytes
      ensures TableDec(t, c)(TableEnc(t, c)(e) + q) == Some((e, q))
    {
      ListRoundTrip(c.enc, c.dec, e.1, q);
      assert EncTableEntry(t, c, e) + q == EncLoc(t, e.0) + (EncList(c.enc, e.1) + q);
      LocRoundTrip(t, e.0, EncList(c.enc, e.1) + q);
    }
    RoundIs(TableEnc(t, c), TableDec(t, c), e);
  }

  lemma RoundIs<T(!new)>(enc: T -> Bytes, dec: Bytes -> Decoded<T>, x: T)
    requires |enc(x)| > 0 && forall q :: dec(enc(x) + q) == Some((x, q))
    ensures GoesRound(enc, dec, x)
  {
  }

  lemma TableAlwaysExtends<T(!new)>(t: Tools, c: OpCodec<T>)
    requires GoodCodec(c)
    ensures AlwaysExtends(TableDec(t, c))
  {
    hide DecLoc, DecList, GoesRound;
    forall b: Bytes, q: Bytes
      ensures Extends(TableDec(t, c)(b), TableDec(t, c)(b + q), q)
    {
      LocExtends(t, b, q);
      if DecLoc(t, b).Some? {
        ListExtends(c.dec, DecLoc(t, b).value.1, q);
      }
    }
  }

  function EncEffects(t: Tools, e: Effects): Bytes {
    EncSpawns(e.spawns) + (EncList(TableEnc(t, CHAN_CODEC), t.chanEntries(e.chanOps))
      + EncList(TableEnc(t, LOCK_CODEC), t.lockEntries(e.lockOps)))
  }

  function DecEffects(t: Tools, b: Bytes): Decoded<Effects> {
    var s :- DecSpawns(b);
    var chan :- DecList(TableDec(t, CHAN_CODEC), s.1);
    var lock :- DecList(TableDec(t, LOCK_CODEC), chan.1);
    Some((Effects(s.0, TableFrom(chan.0), TableFrom(lock.0)), lock.1))
  }

  predicate TableFits<T>(t: Tools, entries: seq<TableEntry<T>>) {
    |entries| < U32_LIMIT && forall i :: 0 <= i < |entries| ==> TableEntryFits(t, entries[i])
  }

  predicate EffectsFit(t: Tools, e: Effects) {
    TableFits(t, t.chanEntries(e.chanOps)) && TableFits(t, t.lockEntries(e.lockOps))
  }

  lemma TableRoundTrip<T(!new)>(t: Tools, c: OpCodec<T>, entries: seq<TableEntry<T>>, q: Bytes)
    requires Faithful(t) && GoodCodec(c) && TableFits(t, entries)
    ensures DecList(TableDec(t, c), EncList(TableEnc(t, c), entries) + q) == Some((entries, q))
  {
    hide EncList, DecList, GoesRound, GoodCodec, TableEntryFits;
    forall e | e in entries
      ensures GoesRound(TableEnc(t, c), TableDec(t, c), e)
    {
      TableEntryGoesRound(t, c, e);
    }
    ListRoundTrip(TableEnc(t, c), TableDec(t, c), entries, q);
  }

  lemma EffectsRoundTrip(t: Tools, e: Effects, q: Bytes)
    requires Faithful(t) && EffectsFit(t, e)
    ensures DecEffects(t, EncEffects(t, e) + q) == Some((e, q))
  {
    hide EncSpawns, DecSpawns, EncList, DecList, TableFits, TableFrom, GoodCodec;
    OpCodecs();
    var lock := EncList(TableEnc(t, LOCK_CODEC), t.lockEntries(e.lockOps)) + q;
    var chan := EncList(TableEnc(t, CHAN_CODEC), t.chanEntries(e.chanOps)) + lock;
    assert EncEffects(t, e) + q == EncSpawns(e.spawns) + chan;
    SpawnsRoundTrip(e.spawns, chan);
    TableRoundTrip(t, CHAN_CODEC, t.chanEntries(e.chanOps), lock);
    TableRoundTrip(t, LOCK_CODEC, t.lockEntries(e.lockOps), q);
  }

  lemma EffectsExtends(t: Tools, b: Bytes, q: Bytes)
    ensures Extends(DecEffects(t, b), DecEffects(t, b + q), q)
  {
    hide DecSpawns, DecList, TableFrom, GoodCodec, AlwaysExtends;
    OpCodecs();
    TableAlwaysExtends(t, CHAN_CODEC);
    TableAlwaysExtends(t, LOCK_CODEC);
    SpawnsExtends(b, q);
    if DecSpawns(b).Some? {
      var b1 := DecSpawns(b).value.1;
      ListExtends(TableDec(t, CHAN_CODEC), b1, q);
      if DecList(TableDec(t, CHAN_CODEC), b1).Some? {
        ListExtends(TableDec(t, LOCK_CODEC), DecList(TableDec(t, CHAN_CODEC), b1).value.1, q);
      }
    }
  }
}
