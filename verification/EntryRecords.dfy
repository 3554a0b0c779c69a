/** The records of an entry, field by field, and what decoding whole byte strings accepts. */
module EntryRecords {
  import opened Wrappers
  import opened Summaries
  import opened Fixpoint
  import opened Entries
  import opened EntryFormat

  // ---- summaries ----

  function ClauseEnc(t: Tools): Clause -> Bytes {
    (c: Clause) => EncClause(t, c)
  }

  function ClauseDec(t: Tools): Bytes -> Decoded<Clause> {
    (b: Bytes) => DecClause(t, b)
  }

  predicate ClausesFit(t: Tools, cs: seq<Clause>) {
    |cs| < U32_LIMIT && forall i :: 0 <= i < |cs| ==> ClauseFits(t, cs[i])
  }

  lemma ClausesRoundTrip(t: Tools, cs: seq<Clause>, q: Bytes)
    requires Faithful(t) && ClausesFit(t, cs)
    ensures DecList(ClauseDec(t), EncList(ClauseEnc(t), cs) + q) == Some((cs, q)) && |EncList(ClauseEnc(t), cs)| > 0
  {
    hide EncClause, DecClause, EncList, DecList, Faithful;
    forall c | c in cs
      ensures GoesRound(ClauseEnc(t), ClauseDec(t), c)
    {
      ClauseRoundTrip(t, c, []);
      forall q: Bytes
        ensures ClauseDec(t)(ClauseEnc(t)(c) + q) == Some((c, q))
      {
        ClauseRoundTrip(t, c, q);
      }
    }
    ListRoundTrip(ClauseEnc(t), ClauseDec(t), cs, q);
  }

  lemma ClausesExtend(t: Tools, b: Bytes, q: Bytes)
    requires Faithful(t)
    ensures Extends(DecList(ClauseDec(t), b), DecList(ClauseDec(t), b + q), q)
  {
    hide DecClause, DecList, Faithful;
    forall b: Bytes, q: Bytes
      ensures Extends(ClauseDec(t)(b), ClauseDec(t)(b + q), q)
    {
      ClauseExtends(t, b, q);
    }
    ListExtends(ClauseDec(t), b, q);
  }

  function EncSummary(t: Tools, s: Summary): Bytes {
    EncList(ClauseEnc(t), s.contract.requires_)
    + (EncList(ClauseEnc(t), s.contract.ensures_) + (EncEffects(t, s.effects) + EncProvenance(s.contract.provenance)))
  }

  function DecSummary(t: Tools, b: Bytes): Decoded<Summary> {
    var r :- DecList(ClauseDec(t), b);
    var e :- DecList(ClauseDec(t), r.1);
    var f :- DecEffects(t, e.1);
    var p :- DecProvenance(f.1);
    Some((Summary(Contract(r.0, e.0, p.0), f.0), p.1))
  }

  predicate SummaryFits(t: Tools, s: Summary) {
    ClausesFit(t, s.contract.requires_) && ClausesFit(t, s.contract.ensures_) && EffectsFit(t, s.effects)
  }

  lemma SummaryRoundTrip(t: Tools, s: Summary, q: Bytes)
    requires Faithful(t) && SummaryFits(t, s)
    ensures DecSummary(t, EncSummary(t, s) + q) == Some((s, q))
  {
    hide EncList, DecList, EncEffects, DecEffects, EncProvenance, DecProvenance, Faithful, ClausesFit, EffectsFit;
    var p := EncProvenance(s.contract.provenance) + q;
    var f := EncEffects(t, s.effects) + p;
    var e := EncList(ClauseEnc(t), s.contract.ensures_) + f;
    assert EncSummary(t, s) + q == EncList(ClauseEnc(t), s.contract.requires_) + e;
    ClausesRoundTrip(t, s.contract.requires_, e);
    ClausesRoundTrip(t, s.contract.ensures_, f);
    EffectsRoundTrip(t, s.effects, p);
    ProvenanceRoundTrip(s.contract.provenance, q);
  }

  lemma SummaryExtends(t: Tools, b: Bytes, q: Bytes)
    requires Faithful(t)
    ensures Extends(DecSummary(t, b), DecSummary(t, b + q), q)
  {
    hide DecList, DecEffects, DecProvenance, Faithful;
    ClausesExtend(t, b, q);
    if DecSummary(t, b).Some? {
      var r := DecList(ClauseDec(t), b).value;
      ClausesExtend(t, r.1, q);
      var e := DecList(ClauseDec(t), r.1).value;
      EffectsExtends(t, e.1, q);
      ProvenanceExtends(DecEffects(t, e.1).value.1, q);
    }
  }

  // ---- optional fields ----

  /** A tag byte, and the value if there is one. */
  function EncOpt<T>(enc: T -> Bytes, x: Option<T>): Bytes {
    match x
    case None => EncU8(0)
    case Some(v) => EncU8(1) + enc(v)
  }

  function DecOpt<T>(dec: Bytes -> Decoded<T>, b: Bytes): Decoded<Option<T>> {
    var c :- DecU8(b);
    if c.0 == 0 then Some((None, c.1))
    else if c.0 == 1 then
      var x :- dec(c.1);
      Some((Some(x.0), x.1))
    else None
  }

  lemma OptRoundTrip<T(!new)>(enc: T -> Bytes, dec: Bytes -> Decoded<T>, x: Option<T>, q: Bytes)
    requires x.Some? ==> GoesRound(enc, dec, x.value)
    ensures DecOpt(dec, EncOpt(enc, x) + q) == Some((x, q)) && |EncOpt(enc, x)| > 0
  {
    hide EncU8, DecU8;
    match x
    case None => U8RoundTrip(0, q);
    case Some(v) =>
      assert EncOpt(enc, x) + q == EncU8(1) + (enc(v) + q);
      U8RoundTrip(1, enc(v) + q);
  }

  lemma OptExtends<T(!new)>(dec: Bytes -> Decoded<T>, b: Bytes, q: Bytes)
    requires AlwaysExtends(dec)
    ensures Extends(DecOpt(dec, b), DecOpt(dec, b + q), q)
  {
    hide DecU8;
    U8Extends(b, q);
    if DecU8(b).Some? {
      assert Extends(dec(DecU8(b).value.1), dec(DecU8(b).value.1 + q), q);
    }
  }

  function StrEnc(t: Tools): string -> Bytes {
    (s: string) => EncStr(t, s)
  }

  function StrDec(t: Tools): Bytes -> Decoded<string> {
    (b: Bytes) => DecStr(t, b)
  }

  lemma StrGoesRound(t: Tools, s: string)
    requires Faithful(t) && StrFits(t, s)
    ensures GoesRound(StrEnc(t), StrDec(t), s)
  {
    hide EncStr, DecStr, Faithful;
    StrRoundTrip(t, s, []);
    forall q: Bytes
      ensures StrDec(t)(StrEnc(t)(s) + q) == Some((s, q))
    {
      StrRoundTrip(t, s, q);
    }
  }

  lemma StrAlwaysExtends(t: Tools)
    ensures AlwaysExtends(StrDec(t))
  {
    hide DecStr;
    forall b: Bytes, q: Bytes
      ensures Extends(StrDec(t)(b), StrDec(t)(b + q), q)
    {
      StrExtends(t, b, q);
    }
  }

  // ---- positions and traces ----

  function EncPos(t: Tools, p: Pos): Bytes {
    EncStr(t, p.file) + (EncU32(p.line) + EncU32(p.col))
  }

  function DecPos(t: Tools, b: Bytes): Decoded<Pos> {
    var file :- DecStr(t, b);
    var line :- DecU32(file.1);
    var col :- DecU32(line.1);
    Some((Pos(file.0, line.0, col.0), col.1))
  }

  predicate PosFits(t: Tools, p: Pos) {
    StrFits(t, p.file) && p.line < U32_LIMIT && p.col < U32_LIMIT
  }

  function PosEnc(t: Tools): Pos -> Bytes {
    (p: Pos) => EncPos(t, p)
  }

  function PosDec(t: Tools): Bytes -> Decoded<Pos> {
    (b: Bytes) => DecPos(t, b)
  }

  lemma PosGoesRound(t: Tools, p: Pos)
    requires Faithful(t) && PosFits(t, p)
    ensures GoesRound(PosEnc(t), PosDec(t), p)
  {
    hide EncStr, DecStr, EncU32, DecU32, Faithful;
    StrRoundTrip(t, p.file, []);
    forall q: Bytes
      ensures PosDec(t)(PosEnc(t)(p) + q) == Some((p, q))
    {
      assert EncPos(t, p) + q == EncStr(t, p.file) + (EncU32(p.line) + (EncU32(p.col) + q));
      StrRoundTrip(t, p.file, EncU32(p.line) + (EncU32(p.col) + q));
      U32RoundTrip(p.line, EncU32(p.col) + q);
      U32RoundTrip(p.col, q);
    }
  }

  lemma PosAlwaysExtends(t: Tools)
    ensures AlwaysExtends(PosDec(t))
  {
    hide DecStr, DecU32;
    forall b: Bytes, q: Bytes
      ensures Extends(PosDec(t)(b), PosDec(t)(b + q), q)
    {
      StrExtends(t, b, q);
      if DecPos(t, b).Some? {
        var file := DecStr(t, b).value;
        U32Extends(file.1, q);
        U32Extends(DecU32(file.1).value.1, q);
      }
    }
  }

  predicate OptPosFits(t: Tools, p: Option<Pos>) {
    p.Some? ==> PosFits(t, p.value)
  }

  lemma OptPosRoundTrip(t: Tools, p: Option<Pos>, q: Bytes)
    requires Faithful(t) && OptPosFits(t, p)
    ensures DecOpt(PosDec(t), EncOpt(PosEnc(t), p) + q) == Some((p, q)) && |EncOpt(PosEnc(t), p)| > 0
  {
    hide EncOpt, DecOpt, Faithful, GoesRound, EncPos, DecPos;
    if p.Some? {
      PosGoesRound(t, p.value);
    }
    OptRoundTrip(PosEnc(t), PosDec(t), p, q);
  }

  function EncTraceStep(t: Tools, s: TraceStep): Bytes {
    EncU32(s.block) + EncOpt(PosEnc(t), s.pos)
  }

  function DecTraceStep(t: Tools, b: Bytes): Decoded<TraceStep> {
    var block :- DecU32(b);
    var pos :- DecOpt(PosDec(t), block.1);
    Some((TraceStep(block.0, pos.0), pos.1))
  }

  predicate TraceStepFits(t: Tools, s: TraceStep) {
    s.block < U32_LIMIT && OptPosFits(t, s.pos)
  }

  function TraceEnc(t: Tools): TraceStep -> Bytes {
    (s: TraceStep) => EncTraceStep(t, s)
  }

  function TraceDec(t: Tools): Bytes -> Decoded<TraceStep> {
    (b: Bytes) => DecTraceStep(t, b)
  }

  lemma TraceGoesRound(t: Tools, s: TraceStep)
    requires Faithful(t) && TraceStepFits(t, s)
    ensures GoesRound(TraceEnc(t), TraceDec(t), s)
  {
    hide EncU32, DecU32, EncOpt, DecOpt, Faithful;
    forall q: Bytes
      ensures TraceDec(t)(TraceEnc(t)(s) + q) == Some((s, q))
    {
      assert EncTraceStep(t, s) + q == EncU32(s.block) + (EncOpt(PosEnc(t), s.pos) + q);
      U32RoundTrip(s.block, EncOpt(PosEnc(t), s.pos) + q);
      OptPosRoundTrip(t, s.pos, q);
    }
    OptPosRoundTrip(t, s.pos, []);
  }

  lemma TraceAlwaysExtends(t: Tools)
    ensures AlwaysExtends(TraceDec(t))
  {
    hide DecU32, DecOpt;
    PosAlwaysExtends(t);
    forall b: Bytes, q: Bytes
      ensures Extends(TraceDec(t)(b), TraceDec(t)(b + q), q)
    {
      U32Extends(b, q);
      if DecU32(b).Some? {
        OptExtends(PosDec(t), DecU32(b).value.1, q);
      }
    }
  }

  // ---- findings ----

  function BindingEnc(t: Tools): ((string, string)) -> Bytes {
    (kv: (string, string)) => EncStr(t, kv.0) + EncStr(t, kv.1)
  }

  function DecBinding(t: Tools, b: Bytes): Decoded<(string, string)> {
    var k :- DecStr(t, b);
    var v :- DecStr(t, k.1);
    Some(((k.0, v.0), v.1))
  }

  function BindingDec(t: Tools): Bytes -> Decoded<(string, string)> {
    (b: Bytes) => DecBinding(t, b)
  }

  lemma BindingGoesRound(t: Tools, kv: (string, string))
    requires Faithful(t) && StrFits(t, kv.0) && StrFits(t, kv.1)
    ensures GoesRound(BindingEnc(t), BindingDec(t), kv)
  {
    hide EncStr, DecStr, Faithful;
    StrRoundTrip(t, kv.0, []);
    forall q: Bytes
      ensures BindingDec(t)(BindingEnc(t)(kv) + q) == Some((kv, q))
    {
      assert BindingEnc(t)(kv) + q == EncStr(t, kv.0) + (EncStr(t, kv.1) + q);
      StrRoundTrip(t, kv.0, EncStr(t, kv.1) + q);
      StrRoundTrip(t, kv.1, q);
    }
  }

  lemma BindingAlwaysExtends(t: Tools)
    ensures AlwaysExtends(BindingDec(t))
  {
    hide DecStr;
    forall b: Bytes, q: Bytes
      ensures Extends(BindingDec(t)(b), BindingDec(t)(b + q), q)
    {
      StrExtends(t, b, q);
      if DecStr(t, b).Some? {
        StrExtends(t, DecStr(t, b).value.1, q);
      }
    }
  }

  /** Checker, tag and function; position, message and severity; trace and model. */
  function EncFinding(t: Tools, f: Finding): Bytes {
    EncStr(t, f.checker) + (EncStr(t, f.tag) + (EncStr(t, f.func) + EncReport(t, f)))
  }

  function EncReport(t: Tools, f: Finding): Bytes {
    EncOpt(PosEnc(t), f.pos) + (EncStr(t, f.message)
      + (EncSeverity(f.severity) + (EncList(TraceEnc(t), f.trace) + EncList(BindingEnc(t), f.model))))
  }

  function DecFinding(t: Tools, b: Bytes): Decoded<Finding> {
    var checker :- DecStr(t, b);
    var tag :- DecStr(t, checker.1);
    var func :- DecStr(t, tag.1);
    DecReport(t, checker.0, tag.0, func.0, func.1)
  }

  function DecReport(t: Tools, checker: string, tag: string, func: string, b: Bytes): Decoded<Finding> {
    var pos :- DecOpt(PosDec(t), b);
    var message :- DecStr(t, pos.1);
    var severity :- DecSeverity(message.1);
    var trace :- DecList(TraceDec(t), severity.1);
    var model :- DecList(BindingDec(t), trace.1);
    Some((Finding(checker, tag, func, pos.0, message.0, severity.0, trace.0, model.0), model.1))
  }

  predicate FindingFits(t: Tools, f: Finding) {
    && StrFits(t, f.checker) && StrFits(t, f.tag) && StrFits(t, f.func) && OptPosFits(t, f.pos) && StrFits(t, f.message)
    && |f.trace| < U32_LIMIT && (forall i :: 0 <= i < |f.trace| ==> TraceStepFits(t, f.trace[i]))
    && |f.model| < U32_LIMIT && (forall i :: 0 <= i < |f.model| ==>
      StrFits(t, f.model[i].0) && StrFits(t, f.model[i].1))
  }

  lemma ReportRoundTrip(t: Tools, f: Finding, q: Bytes)
    requires Faithful(t) && FindingFits(t, f)
    ensures DecReport(t, f.checker, f.tag, f.func, EncReport(t, f) + q) == Some((f, q))
  {
    hide EncStr, DecStr, EncOpt, DecOpt, EncSeverity, DecSeverity, EncList, DecList, Faithful, TraceStepFits,
      OptPosFits, GoesRound;
    var model := EncList(BindingEnc(t), f.model) + q;
    var trace := EncList(TraceEnc(t), f.trace) + model;
    var severity := EncSeverity(f.severity) + trace;
    var message := EncStr(t, f.message) + severity;
    assert EncReport(t, f) + q == EncOpt(PosEnc(t), f.pos) + message;
    OptPosRoundTrip(t, f.pos, message);
    StrRoundTrip(t, f.message, severity);
    SeverityRoundTrip(f.severity, trace);
    TracesRoundTrip(t, f.trace, model);
    BindingsRoundTrip(t, f.model, q);
  }

  lemma TracesRoundTrip(t: Tools, ss: seq<TraceStep>, q: Bytes)
    requires Faithful(t) && |ss| < U32_LIMIT && forall i :: 0 <= i < |ss| ==> TraceStepFits(t, ss[i])
    ensures DecList(TraceDec(t), EncList(TraceEnc(t), ss) + q) == Some((ss, q))
  {
    hide EncList, DecList, Faithful, TraceStepFits, GoesRound;
    forall s | s in ss
      ensures GoesRound(TraceEnc(t), TraceDec(t), s)
    {
      TraceGoesRound(t, s);
    }
    ListRoundTrip(TraceEnc(t), TraceDec(t), ss, q);
  }

  lemma BindingsRoundTrip(t: Tools, kvs: seq<(string, string)>, q: Bytes)
    requires Faithful(t) && |kvs| < U32_LIMIT && forall i :: 0 <= i < |kvs| ==>
        StrFits(t, kvs[i].0) && StrFits(t, kvs[i].1)
    ensures DecList(BindingDec(t), EncList(BindingEnc(t), kvs) + q) == Some((kvs, q))
  {
    hide EncList, DecList, Faithful, StrFits, GoesRound;
    forall kv | kv in kvs
      ensures GoesRound(BindingEnc(t), BindingDec(t), kv)
    {
      BindingGoesRound(t, kv);
    }
    ListRoundTrip(BindingEnc(t), BindingDec(t), kvs, q);
  }

  lemma ReportExtends(t: Tools, checker: string, tag: string, func: string, b: Bytes, q: Bytes)
    ensures Extends(DecReport(t, checker, tag, func, b), DecReport(t, checker, tag, func, b + q), q)
  {
    hide DecStr, DecOpt, DecSeverity, DecList, AlwaysExtends;
    PosAlwaysExtends(t);
    TraceAlwaysExtends(t);
    BindingAlwaysExtends(t);
    OptExtends(PosDec(t), b, q);
    if DecReport(t, checker, tag, func, b).Some? {
      var pos := DecOpt(PosDec(t), b).value;
      StrExtends(t, pos.1, q);
      var message := DecStr(t, pos.1).value;
      SeverityExtends(message.1, q);
      var severity := DecSeverity(message.1).value;
      ListExtends(TraceDec(t), severity.1, q);
      ListExtends(BindingDec(t), DecList(TraceDec(t), severity.1).value.1, q);
    }
  }

  function FindingEnc(t: Tools): Finding -> Bytes {
    (f: Finding) => EncFinding(t, f)
  }

  function FindingDec(t: Tools): Bytes -> Decoded<Finding> {
    (b: Bytes) => DecFinding(t, b)
  }

  lemma FindingGoesRound(t: Tools, f: Finding)
    requires Faithful(t) && FindingFits(t, f)
    ensures GoesRound(FindingEnc(t), FindingDec(t), f)
  {
    hide EncStr, DecStr, EncReport, DecReport, Faithful;
    StrRoundTrip(t, f.checker, []);
    forall q: Bytes
      ensures FindingDec(t)(FindingEnc(t)(f) + q) == Some((f, q))
    {
      var report := EncReport(t, f) + q;
      assert EncFinding(t, f) + q == EncStr(t, f.checker) + (EncStr(t, f.tag) + (EncStr(t, f.func) + report));
      StrRoundTrip(t, f.checker, EncStr(t, f.tag) + (EncStr(t, f.func) + report));
      StrRoundTrip(t, f.tag, EncStr(t, f.func) + report);
      StrRoundTrip(t, f.func, report);
      ReportRoundTrip(t, f, q);
    }
  }

  lemma FindingAlwaysExtends(t: Tools)
    ensures AlwaysExtends(FindingDec(t))
  {
    hide DecStr, DecReport;
    forall b: Bytes, q: Bytes
      ensures Extends(FindingDec(t)(b), FindingDec(t)(b + q), q)
    {
      StrExtends(t, b, q);
      if DecFinding(t, b).Some? {
        var checker := DecStr(t, b).value;
        StrExtends(t, checker.1, q);
        var tag := DecStr(t, checker.1).value;
        StrExtends(t, tag.1, q);
        var func := DecStr(t, tag.1).value;
        ReportExtends(t, checker.0, tag.0, func.0, func.1, q);
      }
    }
  }

  // ---- members ----

  function EncMember(t: Tools, m: Member): Bytes {
    EncStr(t, m.func) + (EncSummary(t, m.summary)
      + (EncOpt(StrEnc(t), m.diag) + (EncList(FindingEnc(t), m.findings) + EncList(StrEnc(t), m.findingsDiags))))
  }

  function DecMember(t: Tools, b: Bytes): Decoded<Member> {
    var func :- DecStr(t, b);
    var summary :- DecSummary(t, func.1);
    var diag :- DecOpt(StrDec(t), summary.1);
    var findings :- DecList(FindingDec(t), diag.1);
    var diags :- DecList(StrDec(t), findings.1);
    Some((Member(func.0, summary.0, diag.0, findings.0, diags.0), diags.1))
  }

  predicate MemberFits(t: Tools, m: Member) {
    && StrFits(t, m.func) && SummaryFits(t, m.summary) && (m.diag.Some? ==> StrFits(t, m.diag.value))
    && |m.findings| < U32_LIMIT && (forall i :: 0 <= i < |m.findings| ==> FindingFits(t, m.findings[i]))
    && |m.findingsDiags| < U32_LIMIT && (forall i :: 0 <= i < |m.findingsDiags| ==> StrFits(t, m.findingsDiags[i]))
  }

  lemma FindingsRoundTrip(t: Tools, fs: seq<Finding>, q: Bytes)
    requires Faithful(t) && |fs| < U32_LIMIT && forall i :: 0 <= i < |fs| ==> FindingFits(t, fs[i])
    ensures DecList(FindingDec(t), EncList(FindingEnc(t), fs) + q) == Some((fs, q))
  {
    hide EncList, DecList, Faithful, FindingFits, GoesRound;
    forall f | f in fs
      ensures GoesRound(FindingEnc(t), FindingDec(t), f)
    {
      FindingGoesRound(t, f);
    }
    ListRoundTrip(FindingEnc(t), FindingDec(t), fs, q);
  }

  lemma StrsRoundTrip(t: Tools, ss: seq<string>, q: Bytes)
    requires Faithful(t) && |ss| < U32_LIMIT && forall i :: 0 <= i < |ss| ==> StrFits(t, ss[i])
    ensures DecList(StrDec(t), EncList(StrEnc(t), ss) + q) == Some((ss, q))
  {
    hide EncList, DecList, Faithful, StrFits, GoesRound;
    forall s | s in ss
      ensures GoesRound(StrEnc(t), StrDec(t), s)
    {
      StrGoesRound(t, s);
    }
    ListRoundTrip(StrEnc(t), StrDec(t), ss, q);
  }

  function MemberEnc(t: Tools): Member -> Bytes {
    (m: Member) => EncMember(t, m)
  }

  function MemberDec(t: Tools): Bytes -> Decoded<Member> {
    (b: Bytes) => DecMember(t, b)
  }

  lemma MemberRoundTrip(t: Tools, m: Member, q: Bytes)
    requires Faithful(t) && MemberFits(t, m)
    ensures DecMember(t, EncMember(t, m) + q) == Some((m, q)) && |EncMember(t, m)| > 0
  {
    hide EncStr, DecStr, EncSummary, DecSummary, EncOpt, DecOpt, EncList, DecList, Faithful, SummaryFits, FindingFits,
      StrFits, GoesRound;
    var diags := EncList(StrEnc(t), m.findingsDiags) + q;
    var findings := EncList(FindingEnc(t), m.findings) + diags;
    var diag := EncOpt(StrEnc(t), m.diag) + findings;
    var summary := EncSummary(t, m.summary) + diag;
    assert EncMember(t, m) + q == EncStr(t, m.func) + summary;
    StrRoundTrip(t, m.func, summary);
    SummaryRoundTrip(t, m.summary, diag);
    if m.diag.Some? {
      StrGoesRound(t, m.diag.value);
    }
    OptRoundTrip(StrEnc(t), StrDec(t), m.diag, findings);
    FindingsRoundTrip(t, m.findings, diags);
    StrsRoundTrip(t, m.findingsDiags, q);
  }

  lemma MemberGoesRound(t: Tools, m: Member)
    requires Faithful(t) && MemberFits(t, m)
    ensures GoesRound(MemberEnc(t), MemberDec(t), m)
  {
    hide EncMember, DecMember, Faithful, MemberFits;
    MemberRoundTrip(t, m, []);
    forall q: Bytes
      ensures MemberDec(t)(MemberEnc(t)(m) + q) == Some((m, q))
    {
      MemberRoundTrip(t, m, q);
    }
  }

  lemma MemberAlwaysExtends(t: Tools)
    requires Faithful(t)
    ensures AlwaysExtends(MemberDec(t))
  {
    hide DecStr, DecSummary, DecOpt, DecList, Faithful;
    FindingAlwaysExtends(t);
    StrAlwaysExtends(t);
    forall b: Bytes, q: Bytes
      ensures Extends(MemberDec(t)(b), MemberDec(t)(b + q), q)
    {
      StrExtends(t, b, q);
      if DecMember(t, b).Some? {
        var func := DecStr(t, b).value;
        SummaryExtends(t, func.1, q);
        var summary := DecSummary(t, func.1).value;
        OptExtends(StrDec(t), summary.1, q);
        var diag := DecOpt(StrDec(t), summary.1).value;
        ListExtends(FindingDec(t), diag.1, q);
        ListExtends(StrDec(t), DecList(FindingDec(t), diag.1).value.1, q);
      }
    }
  }

  // ---- entries ----

  function EncEntry(t: Tools, e: SccEntry): Bytes {
    EncU8(SCC_ENTRY_FORMAT) + EncList(MemberEnc(t), e.members)
  }

  /** Reads one entry and leaves the rest. */
  function DecEntryPrefix(t: Tools, b: Bytes): Decoded<SccEntry> {
    var v :- DecU8(b);
    if v.0 != SCC_ENTRY_FORMAT then None
    else
      var ms :- DecList(MemberDec(t), v.1);
      Some((SccEntry(ms.0), ms.1))
  }

  /** The whole string must be one entry. Defined on every byte string. */
  function DecEntry(t: Tools, b: Bytes): Option<SccEntry> {
    var e :- DecEntryPrefix(t, b);
    if e.1 == [] then Some(e.0) else None
  }

  /** Another format's entries, and text that says nothing, are not entries. */
  lemma OtherFormatRefused(t: Tools, b: Bytes)
    ensures DecEntry(t, b).Some? ==> |b| > 0 && b[0] == SCC_ENTRY_FORMAT
  {
    hide DecList;
  }

  predicate EntryFits(t: Tools, e: SccEntry) {
    |e.members| < U32_LIMIT && forall i :: 0 <= i < |e.members| ==> MemberFits(t, e.members[i])
  }

  lemma EntryPrefixRoundTrip(t: Tools, e: SccEntry, q: Bytes)
    requires Faithful(t) && EntryFits(t, e)
    ensures DecEntryPrefix(t, EncEntry(t, e) + q) == Some((e, q))
  {
    hide EncU8, DecU8, EncList, DecList, Faithful, MemberFits, GoesRound;
    forall m | m in e.members
      ensures GoesRound(MemberEnc(t), MemberDec(t), m)
    {
      MemberGoesRound(t, m);
    }
    ListRoundTrip(MemberEnc(t), MemberDec(t), e.members, q);
    assert EncEntry(t, e) + q == EncU8(SCC_ENTRY_FORMAT) + (EncList(MemberEnc(t), e.members) + q);
    U8RoundTrip(SCC_ENTRY_FORMAT, EncList(MemberEnc(t), e.members) + q);
  }

  lemma EntryPrefixExtends(t: Tools, b: Bytes, q: Bytes)
    requires Faithful(t)
    ensures Extends(DecEntryPrefix(t, b), DecEntryPrefix(t, b + q), q)
  {
    hide DecU8, DecList, Faithful, AlwaysExtends;
    MemberAlwaysExtends(t);
    U8Extends(b, q);
    if DecU8(b).Some? {
      ListExtends(MemberDec(t), DecU8(b).value.1, q);
    }
  }

  /** Decoding an encoding gives the entry back. */
  lemma EntryRoundTrip(t: Tools, e: SccEntry)
    requires Faithful(t) && EntryFits(t, e)
    ensures DecEntry(t, EncEntry(t, e)) == Some(e)
  {
    hide DecEntryPrefix, EncEntry, EntryFits, Faithful;
    EntryPrefixRoundTrip(t, e, []);
    assert EncEntry(t, e) + [] == EncEntry(t, e);
  }

  /** Neither a string cut short nor one with something appended decodes. */
  lemma OnlyWholeEncodings(t: Tools, e: SccEntry, b: Bytes, q: Bytes)
    requires Faithful(t) && EntryFits(t, e) && q != []
    ensures b + q == EncEntry(t, e) ==> DecEntry(t, b) == None
    ensures DecEntry(t, EncEntry(t, e) + q) == None
  {
    hide DecEntryPrefix, EncEntry, EntryFits, Faithful;
    EntryPrefixRoundTrip(t, e, q);
    if b + q == EncEntry(t, e) {
      EntryPrefixRoundTrip(t, e, []);
      assert EncEntry(t, e) + [] == EncEntry(t, e);
      EntryPrefixExtends(t, b, q);
    }
  }

  /** Different entries have different encodings. */
  lemma EncodingsDiffer(t: Tools, e: SccEntry, e': SccEntry)
    requires Faithful(t) && EntryFits(t, e) && EntryFits(t, e') && EncEntry(t, e) == EncEntry(t, e')
    ensures e == e'
  {
    hide DecEntry, EncEntry, EntryFits, Faithful;
    EntryRoundTrip(t, e);
    EntryRoundTrip(t, e');
  }
}
