/**
  The codec as the cache runs it: a writer that appends to its buffer and a reader that moves a
  cursor, field by field and loop by loop. Both do exactly what the format's equations say, so the
  format's theorems are theorems about them.
 */
module EntryCodec {
  import opened Wrappers
  import opened Ir
  import opened Summaries
  import opened Locations
  import opened Effects
  import opened Fixpoint
  import opened Entries
  import opened EntryFormat
  import opened EntryRecords

  lemma {:induction false} ManyAppend<T>(enc: T -> Bytes, xs: seq<T>, x: T)
    ensures EncMany(enc, xs + [x]) == EncMany(enc, xs) + enc(x)
  {
    if xs == [] {
      assert [x][1..] == [];
    } else {
      assert (xs + [x])[1..] == xs[1..] + [x];
      ManyAppend(enc, xs[1..], x);
    }
  }

  lemma ManyMore<T>(enc: T -> Bytes, xs: seq<T>, i: nat, before: Bytes)
    requires i < |xs|
    ensures before + EncMany(enc, xs[..i]) + enc(xs[i]) == before + EncMany(enc, xs[..i + 1])
  {
    hide EncMany;
    assert xs[..i + 1] == xs[..i] + [xs[i]];
    ManyAppend(enc, xs[..i], xs[i]);
  }

  lemma NoneWritten<T>(enc: T -> Bytes, xs: seq<T>, before: Bytes)
    ensures before + EncMany(enc, xs[..0]) == before
  {
  }

  /** What was read, put after what had been read before. */
  function After<T>(xs: seq<T>, d: Decoded<seq<T>>): Decoded<seq<T>> {
    match d
    case None => None
    case Some(rest) => Some((xs + rest.0, rest.1))
  }

  lemma OneMore<T>(dec: Bytes -> Decoded<T>, xs: seq<T>, k: nat, b: Bytes)
    requires k > 0
    ensures After(xs, DecMany(dec, k, b)) ==
              match dec(b)
              case None => None
              case Some(x) => After(xs + [x.0], DecMany(dec, k - 1, x.1))
  {
    if dec(b).Some? && DecMany(dec, k - 1, dec(b).value.1).Some? {
      var x, rest := dec(b).value.0, DecMany(dec, k - 1, dec(b).value.1).value.0;
      assert xs + ([x] + rest) == xs + [x] + rest;
    }
  }

  lemma NoMore<T>(dec: Bytes -> Decoded<T>, xs: seq<T>, b: Bytes)
    ensures After(xs, DecMany(dec, 0, b)) == Some((xs, b))
  {
    assert xs + [] == xs;
  }

  lemma NoneYet<T>(d: Decoded<seq<T>>)
    ensures After([], d) == d
  {
    if d.Some? {
      assert [] + d.value.0 == d.value.0;
    }
  }

  /** The reader answers what the format says, and stands where it says. After a failure it may stand anywhere. */
  ghost predicate Took<T>(d: Decoded<T>, r: Option<T>, rest: Bytes) {
    match d
    case None => r.None?
    case Some(p) => r == Some(p.0) && rest == p.1
  }

  class Writer {
    const tools: Tools
    var out: Bytes

    constructor (t: Tools)
      ensures tools == t && out == []
    {
      tools, out := t, [];
    }

    method PutU8(v: Byte)
      modifies this
      ensures out == old(out) + EncU8(v)
    {
      out := out + [v];
    }

    method PutU32(v: nat)
      modifies this
      ensures out == old(out) + EncU32(v)
    {
      out := out + EncU32(v);
    }

    method PutStr(s: string)
      modifies this
      ensures out == old(out) + EncStr(tools, s)
    {
      PutU32(|tools.toUtf8(s)|);
      out := out + tools.toUtf8(s);
    }

    method PutClause(c: Clause)
      modifies this
      ensures out == old(out) + EncClause(tools, c)
    {
      hide EncStr;
      PutStr(c.tag);
      out := out + tools.encodeTerm(c.term);
      PutU8(ProvenanceCode(c.provenance));
    }

    method PutClauses(xs: seq<Clause>)
      modifies this
      ensures out == old(out) + EncList(ClauseEnc(tools), xs)
    {
      hide EncU32, EncMany, EncClause;
      PutU32(|xs|);
      ghost var before := out;
      NoneWritten(ClauseEnc(tools), xs, before);
      for i := 0 to |xs|
        invariant out == before + EncMany(ClauseEnc(tools), xs[..i])
      {
        PutClause(xs[i]);
        ManyMore(ClauseEnc(tools), xs, i, before);
      }
      assert xs[..|xs|] == xs;
    }

    method PutRoot(r: Root)
      modifies this
      ensures out == old(out) + EncRoot(tools, r)
    {
      hide EncStr, EncU32;
      PutU8(RootCode(r));
      match r
      case ParamRoot(i) => PutU32(i);
      case GlobalRoot(name) => PutStr(name);
      case AllocRoot(i) => PutU32(i);
      case UnknownRoot =>
      case FreeVarRoot(i) => PutU32(i);
    }

    method PutLoc(l: Loc)
      modifies this
      ensures out == old(out) + EncLoc(tools, l)
    {
      hide EncRoot, EncList;
      PutRoot(l.root);
      PutPath(l.path);
    }

    method PutPath(xs: seq<nat>)
      modifies this
      ensures out == old(out) + EncList(U32Enc(), xs)
    {
      hide EncU32, EncMany;
      PutU32(|xs|);
      ghost var before := out;
      NoneWritten(U32Enc(), xs, before);
      for i := 0 to |xs|
        invariant out == before + EncMany(U32Enc(), xs[..i])
      {
        PutU32(xs[i]);
        ManyMore(U32Enc(), xs, i, before);
      }
      assert xs[..|xs|] == xs;
    }

    method PutChanOps(xs: seq<ChanOp>)
      modifies this
      ensures out == old(out) + EncList(CHAN_CODEC.enc, xs)
    {
      hide EncU32, EncMany;
      PutU32(|xs|);
      ghost var before := out;
      NoneWritten(CHAN_CODEC.enc, xs, before);
      for i := 0 to |xs|
        invariant out == before + EncMany(CHAN_CODEC.enc, xs[..i])
      {
        PutU8(ChanOpCode(xs[i]));
        ManyMore(CHAN_CODEC.enc, xs, i, before);
      }
      assert xs[..|xs|] == xs;
    }

    method PutLockOps(xs: seq<LockOp>)
      modifies this
      ensures out == old(out) + EncList(LOCK_CODEC.enc, xs)
    {
      hide EncU32, EncMany;
      PutU32(|xs|);
      ghost var before := out;
      NoneWritten(LOCK_CODEC.enc, xs, before);
      for i := 0 to |xs|
        invariant out == before + EncMany(LOCK_CODEC.enc, xs[..i])
      {
        PutU8(LockOpCode(xs[i]));
        ManyMore(LOCK_CODEC.enc, xs, i, before);
      }
      assert xs[..|xs|] == xs;
    }

    method PutChanEntry(e: TableEntry<ChanOp>)
      modifies this
      ensures out == old(out) + EncTableEntry(tools, CHAN_CODEC, e)
    {
      hide EncLoc, EncList;
      PutLoc(e.0);
      PutChanOps(e.1);
    }

    method PutChanTable(xs: seq<TableEntry<ChanOp>>)
      modifies this
      ensures out == old(out) + EncList(TableEnc(tools, CHAN_CODEC), xs)
    {
      hide EncU32, EncMany, EncTableEntry;
      PutU32(|xs|);
      ghost var before := out;
      NoneWritten(TableEnc(tools, CHAN_CODEC), xs, before);
      for i := 0 to |xs|
        invariant out == before + EncMany(TableEnc(tools, CHAN_CODEC), xs[..i])
      {
        PutChanEntry(xs[i]);
        ManyMore(TableEnc(tools, CHAN_CODEC), xs, i, before);
      }
      assert xs[..|xs|] == xs;
    }

    method PutLockEntry(e: TableEntry<LockOp>)
      modifies this
      ensures out == old(out) + EncTableEntry(tools, LOCK_CODEC, e)
    {
      hide EncLoc, EncList;
      PutLoc(e.0);
      PutLockOps(e.1);
    }

    method PutLockTable(xs: seq<TableEntry<LockOp>>)
      modifies this
      ensures out == old(out) + EncList(TableEnc(tools, LOCK_CODEC), xs)
    {
      hide EncU32, EncMany, EncTableEntry;
      PutU32(|xs|);
      ghost var before := out;
      NoneWritten(TableEnc(tools, LOCK_CODEC), xs, before);
      for i := 0 to |xs|
        invariant out == before + EncMany(TableEnc(tools, LOCK_CODEC), xs[..i])
      {
        PutLockEntry(xs[i]);
        ManyMore(TableEnc(tools, LOCK_CODEC), xs, i, before);
      }
      assert xs[..|xs|] == xs;
    }

    method PutEffects(e: Effects)
      modifies this
      ensures out == old(out) + EncEffects(tools, e)
    {
      hide EncList;
      PutU8(SpawnsCode(e.spawns));
      PutChanTable(tools.chanEntries(e.chanOps));
      PutLockTable(tools.lockEntries(e.lockOps));
    }

    method PutSummary(s: Summary)
      modifies this
      ensures out == old(out) + EncSummary(tools, s)
    {
      hide EncList, EncEffects;
      PutClauses(s.contract.requires_);
      PutClauses(s.contract.ensures_);
      PutEffects(s.effects);
      PutU8(ProvenanceCode(s.contract.provenance));
    }

    method PutOptPos(p: Option<Pos>)
      modifies this
      ensures out == old(out) + EncOpt(PosEnc(tools), p)
    {
      hide EncStr, EncU32;
      match p
      case None => PutU8(0);
      case Some(pos) =>
        PutU8(1);
        PutStr(pos.file);
        PutU32(pos.line);
        PutU32(pos.col);
    }

    method PutTraceStep(s: TraceStep)
      modifies this
      ensures out == old(out) + EncTraceStep(tools, s)
    {
      hide EncOpt, EncU32;
      PutU32(s.block);
      PutOptPos(s.pos);
    }

    method PutTrace(xs: seq<TraceStep>)
      modifies this
      ensures out == old(out) + EncList(TraceEnc(tools), xs)
    {
      hide EncU32, EncMany, EncTraceStep;
      PutU32(|xs|);
      ghost var before := out;
      NoneWritten(TraceEnc(tools), xs, before);
      for i := 0 to |xs|
        invariant out == before + EncMany(TraceEnc(tools), xs[..i])
      {
        PutTraceStep(xs[i]);
        ManyMore(TraceEnc(tools), xs, i, before);
      }
      assert xs[..|xs|] == xs;
    }

    method PutModel(xs: seq<(string, string)>)
      modifies this
      ensures out == old(out) + EncList(BindingEnc(tools), xs)
    {
      hide EncU32, EncMany, EncStr;
      PutU32(|xs|);
      ghost var before := out;
      NoneWritten(BindingEnc(tools), xs, before);
      for i := 0 to |xs|
        invariant out == before + EncMany(BindingEnc(tools), xs[..i])
      {
        PutBinding(xs[i]);
        ManyMore(BindingEnc(tools), xs, i, before);
      }
      assert xs[..|xs|] == xs;
    }

    method PutBinding(kv: (string, string))
      modifies this
      ensures out == old(out) + BindingEnc(tools)(kv)
    {
      hide EncStr;
      PutStr(kv.0);
      PutStr(kv.1);
    }

    method PutFinding(f: Finding)
      modifies this
      ensures out == old(out) + EncFinding(tools, f)
    {
      hide EncStr, EncOpt, EncList;
      PutStr(f.checker);
      PutStr(f.tag);
      PutStr(f.func);
      ghost var before := out;
      PutOptPos(f.pos);
      PutStr(f.message);
      PutU8(SeverityCode(f.severity));
      PutTrace(f.trace);
      PutModel(f.model);
      assert out == before + EncReport(tools, f);
    }

    method PutFindings(xs: seq<Finding>)
      modifies this
      ensures out == old(out) + EncList(FindingEnc(tools), xs)
    {
      hide EncU32, EncMany, EncFinding;
      PutU32(|xs|);
      ghost var before := out;
      NoneWritten(FindingEnc(tools), xs, before);
      for i := 0 to |xs|
        invariant out == before + EncMany(FindingEnc(tools), xs[..i])
      {
        PutFinding(xs[i]);
        ManyMore(FindingEnc(tools), xs, i, before);
      }
      assert xs[..|xs|] == xs;
    }

    method PutStrs(xs: seq<string>)
      modifies this
      ensures out == old(out) + EncList(StrEnc(tools), xs)
    {
      hide EncU32, EncMany, EncStr;
      PutU32(|xs|);
      ghost var before := out;
      NoneWritten(StrEnc(tools), xs, before);
      for i := 0 to |xs|
        invariant out == before + EncMany(StrEnc(tools), xs[..i])
      {
        PutStr(xs[i]);
        ManyMore(StrEnc(tools), xs, i, before);
      }
      assert xs[..|xs|] == xs;
    }

    method PutOptStr(s: Option<string>)
      modifies this
      ensures out == old(out) + EncOpt(StrEnc(tools), s)
    {
      hide EncStr;
      match s
      case None => PutU8(0);
      case Some(d) =>
        PutU8(1);
        PutStr(d);
    }

    method PutMember(m: Member)
      modifies this
      ensures out == old(out) + EncMember(tools, m)
    {
      hide EncStr, EncSummary, EncOpt, EncList;
      PutStr(m.func);
      PutSummary(m.summary);
      PutOptStr(m.diag);
      PutFindings(m.findings);
      PutStrs(m.findingsDiags);
    }

    method PutMembers(xs: seq<Member>)
      modifies this
      ensures out == old(out) + EncList(MemberEnc(tools), xs)
    {
      hide EncU32, EncMany, EncMember;
      PutU32(|xs|);
      ghost var before := out;
      NoneWritten(MemberEnc(tools), xs, before);
      for i := 0 to |xs|
        invariant out == before + EncMany(MemberEnc(tools), xs[..i])
      {
        PutMember(xs[i]);
        ManyMore(MemberEnc(tools), xs, i, before);
      }
      assert xs[..|xs|] == xs;
    }
  }

  class Reader {
    const tools: Tools
    var input: Bytes

    constructor (t: Tools, bytes: Bytes)
      ensures tools == t && input == bytes
    {
      tools, input := t, bytes;
    }

    method TakeU8() returns (r: Option<Byte>)
      modifies this
      ensures Took(DecU8(old(input)), r, input)
    {
      if |input| == 0 {
        return None;
      }
      r := Some(input[0]);
      input := input[1..];
    }

    method TakeU32() returns (r: Option<nat>)
      modifies this
      ensures Took(DecU32(old(input)), r, input)
    {
      if |input| < 4 {
        return None;
      }
      r := Some(FromLe(input));
      input := input[4..];
    }

    method TakeStr() returns (r: Option<string>)
      modifies this
      ensures Took(DecStr(tools, old(input)), r, input)
    {
      hide DecU32;
      var n :- TakeU32();
      if |input| < n {
        return None;
      }
      r := tools.fromUtf8(input[..n]);
      input := input[n..];
    }

    /** A count larger than what is left is refused before anything is read for it. */
    method TakeLength() returns (r: Option<nat>)
      modifies this
      ensures Took(TakeCount(old(input)), r, input)
    {
      hide DecU32;
      r := TakeU32();
      if r.Some? && r.value > |input| {
        return None;
      }
    }

    method TakeProvenance() returns (r: Option<Provenance>)
      modifies this
      ensures Took(DecProvenance(old(input)), r, input)
    {
      var c :- TakeU8();
      match c
      case 0 => r := Some(Inferred);
      case 1 => r := Some(Havocked);
      case 2 => r := Some(Annotated);
      case _ => r := None;
    }

    method TakeClause() returns (r: Option<Clause>)
      modifies this
      ensures Took(DecClause(tools, old(input)), r, input)
    {
      hide DecStr, DecProvenance;
      var tag :- TakeStr();
      var term :- tools.decodeTerm(input);
      input := term.1;
      var p :- TakeProvenance();
      r := Some(Clause(tag, term.0, p));
    }

    method TakeClauses() returns (r: Option<seq<Clause>>)
      modifies this
      ensures Took(DecList(ClauseDec(tools), old(input)), r, input)
    {
      hide DecMany, TakeCount, DecClause;
      var n :- TakeLength();
      ghost var start := input;
      var xs := [];
      NoneYet(DecMany(ClauseDec(tools), n, input));
      for i := 0 to n
        invariant DecMany(ClauseDec(tools), n, start) == After(xs, DecMany(ClauseDec(tools), n - i, input))
      {
        OneMore(ClauseDec(tools), xs, n - i, input);
        var x :- TakeClause();
        xs := xs + [x];
      }
      NoMore(ClauseDec(tools), xs, input);
      r := Some(xs);
    }

    method TakeSpawns() returns (r: Option<Spawns>)
      modifies this
      ensures Took(DecSpawns(old(input)), r, input)
    {
      var c :- TakeU8();
      match c
      case 0 => r := Some(NoSpawns);
      case 1 => r := Some(Bounded);
      case 2 => r := Some(Unbounded);
      case _ => r := None;
    }

    method TakeChanOp() returns (r: Option<ChanOp>)
      modifies this
      ensures Took(DecChanOp(old(input)), r, input)
    {
      var c :- TakeU8();
      match c
      case 0 => r := Some(MakeOp);
      case 1 => r := Some(SendOp);
      case 2 => r := Some(RecvOp);
      case 3 => r := Some(CloseOp);
      case 4 => r := Some(SelectOp);
      case _ => r := None;
    }

    method TakeLockOp() returns (r: Option<LockOp>)
      modifies this
      ensures Took(DecLockOp(old(input)), r, input)
    {
      var c :- TakeU8();
      match c
      case 0 => r := Some(LockedOp);
      case 1 => r := Some(UnlockedOp);
      case 2 => r := Some(RLockedOp);
      case 3 => r := Some(RUnlockedOp);
      case 4 => r := Some(DeferredUnlockOp);
      case 5 => r := Some(DeferredRUnlockOp);
      case _ => r := None;
    }

    method TakeSeverity() returns (r: Option<Severity>)
      modifies this
      ensures Took(DecSeverity(old(input)), r, input)
    {
      var c :- TakeU8();
      match c
      case 0 => r := Some(ErrorSeverity);
      case 1 => r := Some(WarningSeverity);
      case _ => r := None;
    }

    method TakeRoot() returns (r: Option<Root>)
      modifies this
      ensures Took(DecRoot(tools, old(input)), r, input)
    {
      hide DecU8, DecU32, DecStr;
      var c :- TakeU8();
      if c == 1 {
        var name :- TakeStr();
        r := Some(GlobalRoot(name));
      } else if c == 3 {
        r := Some(UnknownRoot);
      } else if c < 5 {
        var i :- TakeU32();
        r := Some(if c == 0 then ParamRoot(i) else if c == 2 then AllocRoot(i) else FreeVarRoot(i));
      } else {
        r := None;
      }
    }

    method TakeLoc() returns (r: Option<Loc>)
      modifies this
      ensures Took(DecLoc(tools, old(input)), r, input)
    {
      hide DecRoot, DecList;
      var root :- TakeRoot();
      var path :- TakePath();
      r := Some(Loc(root, path));
    }

    method TakePath() returns (r: Option<seq<nat>>)
      modifies this
      ensures Took(DecList(U32Dec(), old(input)), r, input)
    {
      hide DecMany, TakeCount, DecU32;
      var n :- TakeLength();
      ghost var start := input;
      var xs := [];
      NoneYet(DecMany(U32Dec(), n, input));
      for i := 0 to n
        invariant DecMany(U32Dec(), n, start) == After(xs, DecMany(U32Dec(), n - i, input))
      {
        OneMore(U32Dec(), xs, n - i, input);
        var x :- TakeU32();
        xs := xs + [x];
      }
      NoMore(U32Dec(), xs, input);
      r := Some(xs);
    }

    method TakeChanOps() returns (r: Option<set<ChanOp>>, ghost read: seq<ChanOp>)
      modifies this
      ensures Took(DecList(CHAN_CODEC.dec, old(input)), if r.None? then None else Some(read), input)
      ensures r.Some? ==> r.value == set o | o in read
    {
      hide DecMany, TakeCount, DecChanOp;
      read := [];
      var n :- TakeLength();
      ghost var start := input;
      var ops := {};
      NoneYet(DecMany(CHAN_CODEC.dec, n, input));
      for i := 0 to n
        invariant DecMany(CHAN_CODEC.dec, n, start) == After(read, DecMany(CHAN_CODEC.dec, n - i, input))
        invariant ops == set o | o in read
      {
        OneMore(CHAN_CODEC.dec, read, n - i, input);
        var x :- TakeChanOp();
        ops, read := ops + {x}, read + [x];
      }
      NoMore(CHAN_CODEC.dec, read, input);
      r := Some(ops);
    }

    method TakeChanEntry() returns (r: Option<(Loc, set<ChanOp>)>, ghost read: TableEntry<ChanOp>)
      modifies this
      ensures Took(DecTableEntry(tools, CHAN_CODEC, old(input)), if r.None? then None else Some(read), input)
      ensures r.Some? ==> r.value == (read.0, set o | o in read.1)
    {
      hide DecLoc, DecList;
      read := (Loc(UnknownRoot, []), []);
      var l :- TakeLoc();
      var ops, seen :- TakeChanOps();
      r, read := Some((l, ops)), (l, seen);
    }

    /** Inserted one after the other; a location that comes again replaces what was there. */
    method TakeChanTable() returns (r: Option<Table<ChanOp>>, ghost read: seq<TableEntry<ChanOp>>)
      modifies this
      ensures Took(DecList(TableDec(tools, CHAN_CODEC), old(input)), if r.None? then None else Some(read), input)
      ensures r.Some? ==> r.value == TableFrom(read)
    {
      hide DecMany, TakeCount, DecTableEntry;
      read := [];
      var n :- TakeLength();
      ghost var start := input;
      var m: Table<ChanOp> := map[];
      NoneYet(DecMany(TableDec(tools, CHAN_CODEC), n, input));
      for i := 0 to n
        invariant DecMany(TableDec(tools, CHAN_CODEC), n, start)
               == After(read, DecMany(TableDec(tools, CHAN_CODEC), n - i, input))
        invariant m == TableFrom(read)
      {
        OneMore(TableDec(tools, CHAN_CODEC), read, n - i, input);
        var e, seen :- TakeChanEntry();
        assert (read + [seen])[..|read|] == read;
        m, read := m[e.0 := e.1], read + [seen];
      }
      NoMore(TableDec(tools, CHAN_CODEC), read, input);
      r := Some(m);
    }

    method TakeLockOps() returns (r: Option<set<LockOp>>, ghost read: seq<LockOp>)
      modifies this
      ensures Took(DecList(LOCK_CODEC.dec, old(input)), if r.None? then None else Some(read), input)
      ensures r.Some? ==> r.value == set o | o in read
    {
      hide DecMany, TakeCount, DecLockOp;
      read := [];
      var n :- TakeLength();
      ghost var start := input;
      var ops := {};
      NoneYet(DecMany(LOCK_CODEC.dec, n, input));
      for i := 0 to n
        invariant DecMany(LOCK_CODEC.dec, n, start) == After(read, DecMany(LOCK_CODEC.dec, n - i, input))
        invariant ops == set o | o in read
      {
        OneMore(LOCK_CODEC.dec, read, n - i, input);
        var x :- TakeLockOp();
        ops, read := ops + {x}, read + [x];
      }
      NoMore(LOCK_CODEC.dec, read, input);
      r := Some(ops);
    }

    method TakeLockEntry() returns (r: Option<(Loc, set<LockOp>)>, ghost read: TableEntry<LockOp>)
      modifies this
      ensures Took(DecTableEntry(tools, LOCK_CODEC, old(input)), if r.None? then None else Some(read), input)
      ensures r.Some? ==> r.value == (read.0, set o | o in read.1)
    {
      hide DecLoc, DecList;
      read := (Loc(UnknownRoot, []), []);
      var l :- TakeLoc();
      var ops, seen :- TakeLockOps();
      r, read := Some((l, ops)), (l, seen);
    }

    /** Inserted one after the other; a location that comes again replaces what was there. */
    method TakeLockTable() returns (r: Option<Table<LockOp>>, ghost read: seq<TableEntry<LockOp>>)
      modifies this
      ensures Took(DecList(TableDec(tools, LOCK_CODEC), old(input)), if r.None? then None else Some(read), input)
      ensures r.Some? ==> r.value == TableFrom(read)
    {
      hide DecMany, TakeCount, DecTableEntry;
      read := [];
      var n :- TakeLength();
      ghost var start := input;
      var m: Table<LockOp> := map[];
      NoneYet(DecMany(TableDec(tools, LOCK_CODEC), n, input));
      for i := 0 to n
        invariant DecMany(TableDec(tools, LOCK_CODEC), n, start)
               == After(read, DecMany(TableDec(tools, LOCK_CODEC), n - i, input))
        invariant m == TableFrom(read)
      {
        OneMore(TableDec(tools, LOCK_CODEC), read, n - i, input);
        var e, seen :- TakeLockEntry();
        assert (read + [seen])[..|read|] == read;
        m, read := m[e.0 := e.1], read + [seen];
      }
      NoMore(TableDec(tools, LOCK_CODEC), read, input);
      r := Some(m);
    }

    method TakeEffects() returns (r: Option<Effects>)
      modifies this
      ensures Took(DecEffects(tools, old(input)), r, input)
    {
      hide DecSpawns, DecList, TableFrom;
      var spawns :- TakeSpawns();
      var chanOps, chanRead :- TakeChanTable();
      var lockOps, lockRead :- TakeLockTable();
      r := Some(Effects(spawns, chanOps, lockOps));
    }

    method TakeSummary() returns (r: Option<Summary>)
      modifies this
      ensures Took(DecSummary(tools, old(input)), r, input)
    {
      hide DecList, DecEffects, DecProvenance;
      var reqs :- TakeClauses();
      var enss :- TakeClauses();
      var effects :- TakeEffects();
      var p :- TakeProvenance();
      r := Some(Summary(Contract(reqs, enss, p), effects));
    }

    method TakePos() returns (r: Option<Pos>)
      modifies this
      ensures Took(DecPos(tools, old(input)), r, input)
    {
      hide DecStr, DecU32;
      var file :- TakeStr();
      var line :- TakeU32();
      var col :- TakeU32();
      r := Some(Pos(file, line, col));
    }

    method TakeOptPos() returns (r: Option<Option<Pos>>)
      modifies this
      ensures Took(DecOpt(PosDec(tools), old(input)), r, input)
    {
      hide DecU8, DecPos;
      var c :- TakeU8();
      if c == 0 {
        r := Some(None);
      } else if c == 1 {
        var x :- TakePos();
        r := Some(Some(x));
      } else {
        r := None;
      }
    }

    method TakeTraceStep() returns (r: Option<TraceStep>)
      modifies this
      ensures Took(DecTraceStep(tools, old(input)), r, input)
    {
      hide DecU32, DecOpt;
      var block :- TakeU32();
      var pos :- TakeOptPos();
      r := Some(TraceStep(block, pos));
    }

    method TakeTrace() returns (r: Option<seq<TraceStep>>)
      modifies this
      ensures Took(DecList(TraceDec(tools), old(input)), r, input)
    {
      hide DecMany, TakeCount, DecTraceStep;
      var n :- TakeLength();
      ghost var start := input;
      var xs := [];
      NoneYet(DecMany(TraceDec(tools), n, input));
      for i := 0 to n
        invariant DecMany(TraceDec(tools), n, start) == After(xs, DecMany(TraceDec(tools), n - i, input))
      {
        OneMore(TraceDec(tools), xs, n - i, input);
        var x :- TakeTraceStep();
        xs := xs + [x];
      }
      NoMore(TraceDec(tools), xs, input);
      r := Some(xs);
    }

    method TakeBinding() returns (r: Option<(string, string)>)
      modifies this
      ensures Took(DecBinding(tools, old(input)), r, input)
    {
      hide DecStr;
      var k :- TakeStr();
      var v :- TakeStr();
      r := Some((k, v));
    }

    method TakeModel() returns (r: Option<seq<(string, string)>>)
      modifies this
      ensures Took(DecList(BindingDec(tools), old(input)), r, input)
    {
      hide DecMany, TakeCount, DecBinding;
      var n :- TakeLength();
      ghost var start := input;
      var xs := [];
      NoneYet(DecMany(BindingDec(tools), n, input));
      for i := 0 to n
        invariant DecMany(BindingDec(tools), n, start) == After(xs, DecMany(BindingDec(tools), n - i, input))
      {
        OneMore(BindingDec(tools), xs, n - i, input);
        var x :- TakeBinding();
        xs := xs + [x];
      }
      NoMore(BindingDec(tools), xs, input);
      r := Some(xs);
    }

    method TakeFinding() returns (r: Option<Finding>)
      modifies this
      ensures Took(DecFinding(tools, old(input)), r, input)
    {
      hide DecStr, DecReport;
      var checker :- TakeStr();
      var tag :- TakeStr();
      var func :- TakeStr();
      r := TakeReport(checker, tag, func);
    }

    method TakeReport(checker: string, tag: string, func: string) returns (r: Option<Finding>)
      modifies this
      ensures Took(DecReport(tools, checker, tag, func, old(input)), r, input)
    {
      hide DecStr, DecOpt, DecSeverity, DecList;
      var pos :- TakeOptPos();
      var message :- TakeStr();
      var severity :- TakeSeverity();
      var trace :- TakeTrace();
      var model :- TakeModel();
      r := Some(Finding(checker, tag, func, pos, message, severity, trace, model));
    }

    method TakeFindings() returns (r: Option<seq<Finding>>)
      modifies this
      ensures Took(DecList(FindingDec(tools), old(input)), r, input)
    {
      hide DecMany, TakeCount, DecFinding;
      var n :- TakeLength();
      ghost var start := input;
      var xs := [];
      NoneYet(DecMany(FindingDec(tools), n, input));
      for i := 0 to n
        invariant DecMany(FindingDec(tools), n, start) == After(xs, DecMany(FindingDec(tools), n - i, input))
      {
        OneMore(FindingDec(tools), xs, n - i, input);
        var x :- TakeFinding();
        xs := xs + [x];
      }
      NoMore(FindingDec(tools), xs, input);
      r := Some(xs);
    }

    method TakeStrs() returns (r: Option<seq<string>>)
      modifies this
      ensures Took(DecList(StrDec(tools), old(input)), r, input)
    {
      hide DecMany, TakeCount, DecStr;
      var n :- TakeLength();
      ghost var start := input;
      var xs := [];
      NoneYet(DecMany(StrDec(tools), n, input));
      for i := 0 to n
        invariant DecMany(StrDec(tools), n, start) == After(xs, DecMany(StrDec(tools), n - i, input))
      {
        OneMore(StrDec(tools), xs, n - i, input);
        var x :- TakeStr();
        xs := xs + [x];
      }
      NoMore(StrDec(tools), xs, input);
      r := Some(xs);
    }

    method TakeOptStr() returns (r: Option<Option<string>>)
      modifies this
      ensures Took(DecOpt(StrDec(tools), old(input)), r, input)
    {
      hide DecU8, DecStr;
      var c :- TakeU8();
      if c == 0 {
        r := Some(None);
      } else if c == 1 {
        var x :- TakeStr();
        r := Some(Some(x));
      } else {
        r := None;
      }
    }

    method TakeMember() returns (r: Option<Member>)
      modifies this
      ensures Took(DecMember(tools, old(input)), r, input)
    {
      hide DecStr, DecSummary, DecOpt, DecList;
      var func :- TakeStr();
      var summary :- TakeSummary();
      var diag :- TakeOptStr();
      var findings :- TakeFindings();
      var diags :- TakeStrs();
      r := Some(Member(func, summary, diag, findings, diags));
    }

    method TakeMembers() returns (r: Option<seq<Member>>)
      modifies this
      ensures Took(DecList(MemberDec(tools), old(input)), r, input)
    {
      hide DecMany, TakeCount, DecMember;
      var n :- TakeLength();
      ghost var start := input;
      var xs := [];
      NoneYet(DecMany(MemberDec(tools), n, input));
      for i := 0 to n
        invariant DecMany(MemberDec(tools), n, start) == After(xs, DecMany(MemberDec(tools), n - i, input))
      {
        OneMore(MemberDec(tools), xs, n - i, input);
        var x :- TakeMember();
        xs := xs + [x];
      }
      NoMore(MemberDec(tools), xs, input);
      r := Some(xs);
    }
  }

  method EncodeEntry(t: Tools, e: SccEntry) returns (bytes: Bytes)
    ensures bytes == EncEntry(t, e)
  {
    hide EncList;
    var w := new Writer(t);
    w.PutU8(SCC_ENTRY_FORMAT);
    w.PutMembers(e.members);
    bytes := w.out;
  }

  /** Never fails to answer; what is left over after the entry turns it down. */
  method DecodeEntryBytes(t: Tools, bytes: Bytes) returns (r: Option<SccEntry>)
    ensures r == DecEntry(t, bytes)
  {
    hide DecList;
    var reader := new Reader(t, bytes);
    var format :- reader.TakeU8();
    if format != SCC_ENTRY_FORMAT {
      return None;
    }
    var members :- reader.TakeMembers();
    r := if reader.input == [] then Some(SccEntry(members)) else None;
  }

  /** Writing an entry and reading it back gives it back. */
  method StoreAndLoad(t: Tools, e: SccEntry) returns (r: Option<SccEntry>)
    requires Faithful(t) && EntryFits(t, e)
    ensures r == Some(e)
  {
    hide EncEntry, DecEntry, Faithful, EntryFits;
    var bytes := EncodeEntry(t, e);
    EntryRoundTrip(t, e);
    r := DecodeEntryBytes(t, bytes);
  }
}
