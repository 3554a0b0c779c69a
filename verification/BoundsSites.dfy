/**
  The sites the bounds checker collects from a body, and what their violations say of a run: that
  a conversion changed its integer, that a division is about to panic, that a quotient was wrapped.
 */
module BoundsSites {
  import opened Wrappers
  import opened MachineInts
  import opened Terms
  import opened Ir
  import opened Encoding
  import opened IntOps
  import opened CutDag
  import opened Runs
  import opened RunFacts
  import opened RunModel
  import opened RunSettled
  import opened RunAgrees
  import opened RunDefs
  import opened Violations

  // ---- the violation of an instruction ----

  /** The violation of a conversion, for checked pairs of integer types. */
  function ConvertSite(f: Function, op: Op): Option<Term> {
    if !op.Convert? then None
    else
      var from, to := TypeOf(f, op.src), TypeOf(f, op.dst);
      if !from.IntTy? || !to.IntTy? || to.width == 0 || !Gated(from.width, from.signed, to.width, to.signed) then None
      else
        var x :- TermOf(f, op.src);
        ConvertViolation(from.width, from.signed, to.width, to.signed, x)
  }

  function DivZeroSite(f: Function, op: Op): Option<Term> {
    if !op.BinOp? || (op.kind != DivOp && op.kind != RemOp) || !TypeOf(f, op.lhs).IntTy?
      || TypeOf(f, op.lhs).width == 0 then None
    else
      var l :- TermOf(f, op.lhs);
      var r :- TermOf(f, op.rhs);
      DivZeroViolation(TypeOf(f, op.lhs).width, r)
  }

  function DivOverflowSite(f: Function, op: Op): Option<Term> {
    if !op.BinOp? || op.kind != DivOp || !TypeOf(f, op.lhs).IntTy? || TypeOf(f, op.lhs).width == 0
      || !TypeOf(f, op.lhs).signed then None
    else
      var l :- TermOf(f, op.lhs);
      var r :- TermOf(f, op.rhs);
      DivOverflowViolation(TypeOf(f, op.lhs).width, l, r)
  }

  // ---- collecting ----

  datatype SiteTag = DivZeroTag | OverflowTag

  datatype ViolationSite = ViolationSite(block: nat, tag: SiteTag, violation: Term, values: seq<ValueId>)

  type Finder = (Function, nat, Op) -> seq<ViolationSite>

  function ConvertAt(f: Function, b: nat, op: Op): seq<ViolationSite> {
    if !op.Convert? || ConvertSite(f, op).None? then []
    else [ViolationSite(b, OverflowTag, ConvertSite(f, op).value, [op.src])]
  }

  /** A zero divisor first, then the overflow of a signed division. */
  function DivRemAt(f: Function, b: nat, op: Op): seq<ViolationSite> {
    if !op.BinOp? then []
    else
      (match DivZeroSite(f, op)
       case None => []
       case Some(v) => [ViolationSite(b, DivZeroTag, v, [op.rhs])])
      + match DivOverflowSite(f, op)
        case None => []
        case Some(v) => [ViolationSite(b, OverflowTag, v, [op.lhs, op.rhs])]
  }

  function SitesIn(f: Function, find: Finder, b: nat, instrs: seq<Op>): seq<ViolationSite> {
    if instrs == [] then []
    else SitesIn(f, find, b, instrs[..|instrs| - 1]) + find(f, b, instrs[|instrs| - 1])
  }

  /** What is found in the first n blocks, in program order. */
  function SitesUpTo(f: Function, find: Finder, n: nat): seq<ViolationSite>
    requires n <= |f.blocks|
  {
    if n == 0 then [] else SitesUpTo(f, find, n - 1) + SitesIn(f, find, n - 1, f.blocks[n - 1].instrs)
  }

  lemma {:induction false} SitesInExact(f: Function, find: Finder, b: nat, instrs: seq<Op>, site: ViolationSite)
    ensures site in SitesIn(f, find, b, instrs) <==> exists i :: 0 <= i < |instrs| && site in find(f, b, instrs[i])
  {
    if instrs != [] {
      var n := |instrs| - 1;
      SitesInExact(f, find, b, instrs[..n], site);
      if i :| 0 <= i < |instrs| && site in find(f, b, instrs[i]) {
        if i < n {
          assert instrs[..n][i] == instrs[i];
        }
      }
    }
  }

  ghost predicate FoundBefore(f: Function, find: Finder, n: nat, site: ViolationSite) {
    exists s: Site :: IsSite(f, s) && s.0 < n && site in find(f, s.0, OpAt(f, s))
  }

  /** The list has exactly the sites of the instructions. */
  lemma {:induction false} SitesExact(f: Function, find: Finder, n: nat, site: ViolationSite)
    requires n <= |f.blocks|
    ensures site in SitesUpTo(f, find, n) <==> FoundBefore(f, find, n, site)
  {
    if n > 0 {
      var b, instrs := n - 1, f.blocks[n - 1].instrs;
      SitesExact(f, find, b, site);
      SitesInExact(f, find, b, instrs, site);
      if i :| 0 <= i < |instrs| && site in find(f, b, instrs[i]) {
        var s: Site := (b, i);
        assert IsSite(f, s) && OpAt(f, s) == instrs[i];
      }
      if s: Site :| IsSite(f, s) && s.0 < n && site in find(f, s.0, OpAt(f, s)) {
        if s.0 == b {
          assert site in find(f, b, instrs[s.1]);
        }
      }
    }
  }

  /** The divisions and remainders of a body that may trap or overflow. */
  method DivRemSites(f: Function) returns (out: seq<ViolationSite>)
    ensures out == SitesUpTo(f, DivRemAt, |f.blocks|)
    ensures forall site :: site in out <==> FoundBefore(f, DivRemAt, |f.blocks|, site)
  {
    hide DivRemAt, FoundBefore;
    out := [];
    for b := 0 to |f.blocks|
      invariant out == SitesUpTo(f, DivRemAt, b)
    {
      var instrs := f.blocks[b].instrs;
      ghost var before := out;
      for i := 0 to |instrs|
        invariant out == before + SitesIn(f, DivRemAt, b, instrs[..i])
      {
        assert instrs[..i + 1][..i] == instrs[..i];
        var here := DivRemHere(f, b, instrs[i]);
        out := out + here;
      }
      assert instrs[..|instrs|] == instrs;
    }
    forall site
      ensures site in out <==> FoundBefore(f, DivRemAt, |f.blocks|, site)
    {
      SitesExact(f, DivRemAt, |f.blocks|, site);
    }
  }

  /** One instruction's part of the scan. */
  method DivRemHere(f: Function, b: nat, op: Op) returns (out: seq<ViolationSite>)
    ensures out == DivRemAt(f, b, op)
  {
    hide TermOf, MkEq, MkAnd, Pow2;
    out := [];
    if !op.BinOp? || (op.kind != DivOp && op.kind != RemOp) {
      return;
    }
    var ty := TypeOf(f, op.lhs);
    if !ty.IntTy? || ty.width == 0 || TermOf(f, op.lhs).None? || TermOf(f, op.rhs).None? {
      return;
    }
    var l, r := TermOf(f, op.lhs).value, TermOf(f, op.rhs).value;
    match MkEq(r, BvLit(ty.width, 0)) {
      case None =>
      case Some(zero) => out := out + [ViolationSite(b, DivZeroTag, zero, [op.rhs])];
    }
    if ty.signed && op.kind == DivOp {
      var isMin, isNegOne := MkEq(l, BvLit(ty.width, Pow2(ty.width - 1))), MkEq(r, BvLit(ty.width, Pow2(ty.width) - 1));
      if isMin.Some? && isNegOne.Some? {
        match MkAnd([isMin.value, isNegOne.value]) {
          case None =>
          case Some(both) => out := out + [ViolationSite(b, OverflowTag, both, [op.lhs, op.rhs])];
        }
      }
    }
  }

  /** The conversions of a body that may change their integer. */
  method ConvertSites(f: Function) returns (out: seq<ViolationSite>)
    ensures out == SitesUpTo(f, ConvertAt, |f.blocks|)
    ensures forall site :: site in out <==> FoundBefore(f, ConvertAt, |f.blocks|, site)
  {
    hide ConvertSite, FoundBefore;
    out := [];
    for b := 0 to |f.blocks|
      invariant out == SitesUpTo(f, ConvertAt, b)
    {
      var instrs := f.blocks[b].instrs;
      ghost var before := out;
      for i := 0 to |instrs|
        invariant out == before + SitesIn(f, ConvertAt, b, instrs[..i])
      {
        assert instrs[..i + 1][..i] == instrs[..i];
        var op := instrs[i];
        if op.Convert? {
          match ConvertSite(f, op) {
            case None =>
            case Some(v) => out := out + [ViolationSite(b, OverflowTag, v, [op.src])];
          }
        }
      }
      assert instrs[..|instrs|] == instrs;
    }
    forall site
      ensures site in out <==> FoundBefore(f, ConvertAt, |f.blocks|, site)
    {
      SitesExact(f, ConvertAt, |f.blocks|, site);
    }
  }

  // ---- in a run ----

  ghost function IntegerOf(ty: Ty, r: RVal): int
    requires ty.IntTy?
  {
    if r.Plain? && r.v.BvVal? then Reading(ty.width, ty.signed, r.v.n) else 0
  }

  /** An executed conversion changed its integer exactly when its violation holds of the run. */
  lemma ConversionInRun(c: Setting, k: nat, s: Site, violation: Term)
    requires Ready(c) && Ran(c, k, s) && OpAt(c.f, s).Convert? && ConvertSite(c.f, OpAt(c.f, s)) == Some(violation)
    ensures OpAt(c.f, s).src in Final(c) && OpAt(c.f, s).dst in Final(c)
    ensures var from, to := TypeOf(c.f, OpAt(c.f, s).src), TypeOf(c.f, OpAt(c.f, s).dst);
            Holds(violation, FullModel(c)) <==>
            IntegerOf(to, Final(c)[OpAt(c.f, s).dst]) != IntegerOf(from, Final(c)[OpAt(c.f, s).src])
  {
    hide IsRun, ContractsTrue, WellFormed, CutsBackEdges, ListsReachable, Forward, ConvertViolation, Gated, Walk,
      Items, ModelAfter, Reading, Wrap;
    var x, v := OpAt(c.f, s).src, OpAt(c.f, s).dst;
    var from, to := TypeOf(c.f, x), TypeOf(c.f, v);
    RanProduces(c, k, s, v);
    assert x in OpReads(OpAt(c.f, s));
    OperandValue(c, k, s, x);
    var n := Final(c)[x].v.n;
    IntWidths(c, x);
    ConvertExact(from.width, from.signed, to.width, to.signed, TermOf(c.f, x).value, FullModel(c), n);
  }

  lemma IntWidths(c: Setting, x: ValueId)
    requires Ready(c)
    ensures TypeOf(c.f, x).IntTy? ==> TypeOf(c.f, x).width > 0
  {
    hide IsRun, ContractsTrue, WellShaped, StrictSsa, CutsBackEdges;
  }

  // ---- divisions in a run ----

  /** A register of an integer type whose value the run knows: its pattern is the value of its term. */
  lemma KnownPattern(c: Setting, s: Site, x: ValueId)
    requires Ready(c) && IsSite(c.f, s) && x in OpValues(OpAt(c.f, s)) && x in Final(c)
    requires TermOf(c.f, x).Some? && SortOf(TermOf(c.f, x).value).BvSort?
    ensures Final(c)[x].Plain? && Final(c)[x].v.BvVal?
    ensures IsPattern(TermOf(c.f, x).value, FullModel(c), SortOf(TermOf(c.f, x).value).width, Final(c)[x].v.n)
  {
    hide IsRun, ContractsTrue, WellFormed, CutsBackEdges, ListsReachable, Forward, Walk, Items, ModelAfter;
    RunTerm(c, s, x);
    FinalTyped(c, x);
  }

  lemma OperandShape(f: Function, op: Op)
    requires DivZeroSite(f, op).Some?
    ensures op.BinOp? && (op.kind == DivOp || op.kind == RemOp) && op.lhs in OpValues(op) && op.rhs in OpValues(op)
    ensures TypeOf(f, op.lhs).IntTy? && TypeOf(f, op.rhs).IntTy?
    ensures TypeOf(f, op.rhs).width == TypeOf(f, op.lhs).width > 0
    ensures TermOf(f, op.lhs).Some? && SortOf(TermOf(f, op.lhs).value) == BvSort(TypeOf(f, op.lhs).width)
    ensures TermOf(f, op.rhs).Some? && SortOf(TermOf(f, op.rhs).value) == BvSort(TypeOf(f, op.lhs).width)
    ensures DivZeroSite(f, op) == DivZeroViolation(TypeOf(f, op.lhs).width, TermOf(f, op.rhs).value)
    ensures TypeOf(f, op.lhs).signed && op.kind == DivOp ==>
              DivOverflowSite(f, op)
                == DivOverflowViolation(TypeOf(f, op.lhs).width, TermOf(f, op.lhs).value, TermOf(f, op.rhs).value)
  {
    assert OpReads(op)[0] == op.lhs && OpReads(op)[1] == op.rhs;
  }

  /**
    Where a run knows both operands, the zero violation holds of it exactly when the operation
    panics; of a run that got past the operation it never holds.
   */
  lemma ZeroInRun(c: Setting, s: Site, violation: Term)
    requires Ready(c) && IsSite(c.f, s) && OpAt(c.f, s).BinOp? && DivZeroSite(c.f, OpAt(c.f, s)) == Some(violation)
    requires OpAt(c.f, s).lhs in Final(c) && OpAt(c.f, s).rhs in Final(c)
    ensures var op, x, y := OpAt(c.f, s), Final(c)[OpAt(c.f, s).lhs], Final(c)[OpAt(c.f, s).rhs];
            var lt, rt := TypeOf(c.f, op.lhs), TypeOf(c.f, op.rhs);
            && x.Plain? && x.v.BvVal? && y.Plain? && y.v.BvVal? && rt.IntTy?
            && (Holds(violation, FullModel(c))
                <==> IntResult(op.kind, lt.width, lt.signed, x.v.n, y.v.n, rt.signed) == None)
    ensures OpAt(c.f, s).dst in Final(c) ==> !Holds(violation, FullModel(c))
  {
    hide IsRun, ContractsTrue, WellFormed, CutsBackEdges, ListsReachable, Forward, Walk, Items, ModelAfter,
      DivZeroSite, DivOverflowSite, Pow2, Reading, Eval, Left, TermOf;
    var op := OpAt(c.f, s);
    OperandShape(c.f, op);
    var w, r := TypeOf(c.f, op.lhs).width, TermOf(c.f, op.rhs).value;
    KnownPattern(c, s, op.lhs);
    KnownPattern(c, s, op.rhs);
    EqLiteral(r, FullModel(c), w, Final(c)[op.rhs].v.n, 0);
    ZeroReading(w, TypeOf(c.f, op.lhs).signed, Final(c)[op.rhs].v.n);
    if op.dst in Final(c) {
      FinalIffExecuted(c, s, op.dst);
      var k := SiteRan(c, s);
      RanProduces(c, k, s, op.dst);
    }
  }

  /** An executed signed division had to wrap its quotient exactly when the overflow violation holds of the run. */
  lemma OverflowInRun(c: Setting, k: nat, s: Site, violation: Term)
    requires Ready(c) && Ran(c, k, s) && OpAt(c.f, s).BinOp? && DivOverflowSite(c.f, OpAt(c.f, s)) == Some(violation)
    ensures OpAt(c.f, s).lhs in Final(c) && OpAt(c.f, s).rhs in Final(c) && OpAt(c.f, s).dst in Final(c)
    ensures var op, ty := OpAt(c.f, s), TypeOf(c.f, OpAt(c.f, s).lhs);
            var a, b := IntegerOf(ty, Final(c)[op.lhs]), IntegerOf(ty, Final(c)[op.rhs]);
            b != 0 && (Holds(violation, FullModel(c)) <==> IntegerOf(ty, Final(c)[op.dst]) != TruncDiv(a, b))
  {
    hide IsRun, ContractsTrue, WellFormed, CutsBackEdges, ListsReachable, Forward, Walk, Items, ModelAfter,
      DivZeroSite, Pow2, Reading, Wrap, TruncDiv, Eval, Left, TermOf, DivOverflowViolation;
    var op := OpAt(c.f, s);
    var ty, l, r := TypeOf(c.f, op.lhs), TermOf(c.f, op.lhs).value, TermOf(c.f, op.rhs).value;
    OverflowShape(c.f, op);
    OperandShape(c.f, op);
    RanProduces(c, k, s, op.dst);
    assert op.lhs in OpReads(op) && op.rhs in OpReads(op);
    OperandValue(c, k, s, op.lhs);
    OperandValue(c, k, s, op.rhs);
    var x, y := Final(c)[op.lhs].v.n, Final(c)[op.rhs].v.n;
    DivisionExact(ty.width, true, l, r, FullModel(c), x, y);
    ChangesUnlessFits(ty.width, true, TruncDiv(Reading(ty.width, true, x), Reading(ty.width, true, y)));
  }

  lemma OverflowShape(f: Function, op: Op)
    requires DivOverflowSite(f, op).Some?
    ensures DivZeroSite(f, op).Some? && op.BinOp? && op.kind == DivOp && TypeOf(f, op.lhs).IntTy?
    ensures TypeOf(f, op.lhs).signed
  {
  }

  // ---- nothing is missed ----

  /** The scan lists a site of that block and kind whose violation holds. */
  ghost predicate Listed(f: Function, find: Finder, b: nat, tag: SiteTag, m: Model) {
    exists site ::
      site in SitesUpTo(f, find, |f.blocks|) && site.block == b && site.tag == tag && Holds(site.violation, m)
  }

  lemma ListedBy(f: Function, find: Finder, s: Site, site: ViolationSite, m: Model)
    requires IsSite(f, s) && site in find(f, s.0, OpAt(f, s)) && site.block == s.0 && Holds(site.violation, m)
    ensures Listed(f, find, s.0, site.tag, m)
  {
    hide Holds;
    assert FoundBefore(f, find, |f.blocks|, site);
    SitesExact(f, find, |f.blocks|, site);
  }

  /** A division or remainder of integers of one type. */
  predicate Divides(f: Function, op: Op) {
    && op.BinOp? && (op.kind == DivOp || op.kind == RemOp)
    && TypeOf(f, op.lhs).IntTy? && TypeOf(f, op.rhs).IntTy? && TypeOf(f, op.rhs).width == TypeOf(f, op.lhs).width
  }

  /** The run knows both operands, and Go's operation on them panics. */
  ghost predicate Panics(c: Setting, s: Site)
    requires Ready(c) && IsSite(c.f, s) && Divides(c.f, OpAt(c.f, s))
  {
    var op := OpAt(c.f, s);
    var lt, rt := TypeOf(c.f, op.lhs), TypeOf(c.f, op.rhs);
    && op.lhs in Final(c) && op.rhs in Final(c)
    && match (Final(c)[op.lhs], Final(c)[op.rhs])
       case (Plain(BvVal(_, x)), Plain(BvVal(_, y))) => IntResult(op.kind, lt.width, lt.signed, x, y, rt.signed) == None
       case _ => false
  }

  lemma DivideSites(f: Function, b: nat, op: Op)
    requires Divides(f, op) && TypeOf(f, op.lhs).width > 0
    ensures DivZeroSite(f, op).Some?
    ensures ViolationSite(b, DivZeroTag, DivZeroSite(f, op).value, [op.rhs]) in DivRemAt(f, b, op)
    ensures TypeOf(f, op.lhs).signed && op.kind == DivOp ==>
              && DivOverflowSite(f, op).Some?
              && ViolationSite(b, OverflowTag, DivOverflowSite(f, op).value, [op.lhs, op.rhs]) in DivRemAt(f, b, op)
  {
    hide Pow2;
  }

  /** Whatever division or remainder panics in a run is on the list, with a violation that holds. */
  lemma PanicListed(c: Setting, s: Site)
    requires Ready(c) && IsSite(c.f, s) && Divides(c.f, OpAt(c.f, s)) && Panics(c, s)
    ensures Listed(c.f, DivRemAt, s.0, DivZeroTag, FullModel(c))
  {
    hide IsRun, ContractsTrue, WellFormed, CutsBackEdges, ListsReachable, Forward, Walk, Items, ModelAfter,
      DivZeroSite, DivOverflowSite, DivRemAt, Listed, Pow2, IntResult, TermOf;
    var op := OpAt(c.f, s);
    IntWidths(c, op.lhs);
    DivideSites(c.f, s.0, op);
    var violation := DivZeroSite(c.f, op).value;
    ZeroInRun(c, s, violation);
    ListedBy(c.f, DivRemAt, s, ViolationSite(s.0, DivZeroTag, violation, [op.rhs]), FullModel(c));
  }

  /** So is every signed division whose quotient was wrapped. */
  lemma WrapListed(c: Setting, k: nat, s: Site)
    requires Ready(c) && Ran(c, k, s) && Divides(c.f, OpAt(c.f, s)) && OpAt(c.f, s).kind == DivOp
    requires TypeOf(c.f, OpAt(c.f, s).lhs).signed
    ensures OpAt(c.f, s).lhs in Final(c) && OpAt(c.f, s).rhs in Final(c) && OpAt(c.f, s).dst in Final(c)
    ensures var op, ty := OpAt(c.f, s), TypeOf(c.f, OpAt(c.f, s).lhs);
            var a, b := IntegerOf(ty, Final(c)[op.lhs]), IntegerOf(ty, Final(c)[op.rhs]);
            b != 0 && (IntegerOf(ty, Final(c)[op.dst]) != TruncDiv(a, b) ==>
                         Listed(c.f, DivRemAt, s.0, OverflowTag, FullModel(c)))
  {
    hide IsRun, ContractsTrue, WellFormed, CutsBackEdges, ListsReachable, Forward, Walk, Items, ModelAfter,
      DivZeroSite, DivOverflowSite, DivRemAt, Listed, Pow2, IntegerOf, TruncDiv, TermOf;
    var op := OpAt(c.f, s);
    IntWidths(c, op.lhs);
    DivideSites(c.f, s.0, op);
    var violation := DivOverflowSite(c.f, op).value;
    OverflowInRun(c, k, s, violation);
    if Holds(violation, FullModel(c)) {
      ListedBy(c.f, DivRemAt, s, ViolationSite(s.0, OverflowTag, violation, [op.lhs, op.rhs]), FullModel(c));
    }
  }

  lemma ConvertListed(f: Function, b: nat, op: Op)
    requires op.Convert? && TypeOf(f, op.src).IntTy? && TypeOf(f, op.dst).IntTy?
    requires TypeOf(f, op.src).width > 0 && TypeOf(f, op.dst).width > 0
    requires Gated(TypeOf(f, op.src).width, TypeOf(f, op.src).signed, TypeOf(f, op.dst).width, TypeOf(f, op.dst).signed)
    ensures ConvertSite(f, op).Some?
    ensures ViolationSite(b, OverflowTag, ConvertSite(f, op).value, [op.src]) in ConvertAt(f, b, op)
  {
    hide ConvertViolation;
    var from, to, x := TypeOf(f, op.src), TypeOf(f, op.dst), TermOf(f, op.src).value;
    var m: Model := map[NameOf(f, op.src) := BvVal(from.width, 0)];
    assert Eval(x, m) == BvVal(from.width, 0);
    ConvertExact(from.width, from.signed, to.width, to.signed, x, m, 0);
  }

  /** A conversion that changed its integer is on the list, unless it gave an unsigned type a negative one. */
  lemma ChangeListed(c: Setting, k: nat, s: Site)
    requires Ready(c) && Ran(c, k, s) && OpAt(c.f, s).Convert?
    requires TypeOf(c.f, OpAt(c.f, s).src).IntTy? && TypeOf(c.f, OpAt(c.f, s).dst).IntTy?
    ensures OpAt(c.f, s).src in Final(c) && OpAt(c.f, s).dst in Final(c)
    ensures var from, to := TypeOf(c.f, OpAt(c.f, s).src), TypeOf(c.f, OpAt(c.f, s).dst);
            var i, j := IntegerOf(from, Final(c)[OpAt(c.f, s).src]), IntegerOf(to, Final(c)[OpAt(c.f, s).dst]);
            j != i ==>
              || Listed(c.f, ConvertAt, s.0, OverflowTag, FullModel(c))
              || (!Gated(from.width, from.signed, to.width, to.signed) && from.signed && !to.signed && i < 0)
  {
    hide IsRun, ContractsTrue, WellFormed, CutsBackEdges, ListsReachable, Forward, Walk, Items, ModelAfter,
      ConvertSite, ConvertAt, Listed, Pow2, Gated, Reading, Wrap;
    var op := OpAt(c.f, s);
    var from, to := TypeOf(c.f, op.src), TypeOf(c.f, op.dst);
    IntWidths(c, op.src);
    IntWidths(c, op.dst);
    RanProduces(c, k, s, op.dst);
    assert op.src in OpReads(op);
    OperandValue(c, k, s, op.src);
    if Gated(from.width, from.signed, to.width, to.signed) {
      ConvertListed(c.f, s.0, op);
      var violation := ConvertSite(c.f, op).value;
      ConversionInRun(c, k, s, violation);
      if Holds(violation, FullModel(c)) {
        ListedBy(c.f, ConvertAt, s, ViolationSite(s.0, OverflowTag, violation, [op.src]), FullModel(c));
      }
    } else {
      UngatedChanges(from.width, from.signed, to.width, to.signed, Final(c)[op.src].v.n);
    }
  }
}
