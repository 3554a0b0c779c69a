/**
  What the bounds checker calls a violation, against the language: conversions that change an
  integer, divisions that trap or overflow, index and slice expressions that are out of bounds.
 */
module Violations {
  import opened Wrappers
  import opened MachineInts
  import opened Terms
  import opened Ir
  import opened Encoding
  import opened GuardTerms
  import opened IntOps
  import opened CutDag
  import opened Runs
  import opened RunModel
  import opened RunSettled
  import opened RunDefs

  // ---- conversions ----

  /** The literal a source-width term is compared with: the value's two's-complement pattern. */
  function LitSext(ws: nat, value: int): Term {
    BvLit(ws, Wrap(ws, value))
  }

  /** The violation of converting x from (ws, ss) to (wd, sd). */
  function ConvertViolation(ws: nat, ss: bool, wd: nat, sd: bool, x: Term): Option<Term>
    requires wd > 0
  {
    var minD, maxSigned, maxUnsigned := 0 - Pow2(wd - 1), Pow2(wd - 1) - 1, Pow2(wd) - 1;
    if ss && sd then
      var lo :- MkCmp(Slt, x, LitSext(ws, minD));
      var hi :- MkCmp(Slt, LitSext(ws, maxSigned), x);
      MkOr([lo, hi])
    else if !ss && !sd then MkCmp(Ult, LitSext(ws, maxUnsigned), x)
    else if ss then
      var neg :- MkCmp(Slt, x, BvLit(ws, 0));
      if wd < ws then
        var hi :- MkCmp(Slt, LitSext(ws, maxUnsigned), x);
        MkOr([neg, hi])
      else Some(neg)
    else MkCmp(Ult, LitSext(ws, maxSigned), x)
  }

  /** Narrowing, or changing sign at the same width: the pairs that are checked. */
  predicate Gated(ws: nat, ss: bool, wd: nat, sd: bool) {
    wd < ws || (wd == ws && sd != ss)
  }

  /** The integer a conversion yields is another one than it was given. */
  predicate ChangesValue(wd: nat, sd: bool, i: int) {
    Reading(wd, sd, Wrap(wd, i)) != i
  }

  lemma ChangesUnlessFits(wd: nat, sd: bool, i: int)
    requires wd > 0
    ensures ChangesValue(wd, sd, i) <==> !Fits(wd, sd, i)
  {
    if Fits(wd, sd, i) {
      ReadingWrap(wd, sd, i);
    }
    ReadingFits(wd, sd, Wrap(wd, i));
  }

  /** Comparing with a literal that fits compares the integers. */
  lemma BelowLiteral(w: nat, signed: bool, n: nat, v: int, x: Term, m: Model)
    requires w > 0 && IsPattern(x, m, w, n) && Fits(w, signed, v)
    ensures var cmp := if signed then Slt else Ult;
            && (Holds(BvCmp(cmp, x, LitSext(w, v)), m) <==> Reading(w, signed, n) < v)
            && (Holds(BvCmp(cmp, LitSext(w, v), x), m) <==> v < Reading(w, signed, n))
  {
    hide Wrap, Pow2, Eval, IsPattern;
    var cmp := if signed then Slt else Ult;
    ReadingWrap(w, signed, v);
    LiteralPattern(w, Wrap(w, v), m);
    CmpMeans(cmp, w, x, LitSext(w, v), m, n, Wrap(w, v));
    CmpMeans(cmp, w, LitSext(w, v), x, m, Wrap(w, v), n);
  }

  lemma BoundsFit(ws: nat, wd: nat)
    requires 0 < wd <= ws
    ensures Fits(ws, true, 0 - Pow2(wd - 1)) && Fits(ws, true, Pow2(wd - 1) - 1) && Fits(ws, false, Pow2(wd - 1) - 1)
    ensures Fits(ws, false, Pow2(wd) - 1) && (wd < ws ==> Fits(ws, true, Pow2(wd) - 1)) && Fits(ws, true, 0)
    ensures Pow2(wd) == 2 * Pow2(wd - 1)
  {
    Pow2Monotone(wd, ws);
  }

  /** The shape of the violation: at most two comparisons with literals. */
  lemma ViolationForm(ws: nat, ss: bool, wd: nat, sd: bool, x: Term)
    requires 0 < wd && SortOf(x) == BvSort(ws)
    ensures ConvertViolation(ws, ss, wd, sd, x) ==
              if ss && sd then Some(Or([BvCmp(Slt, x, LitSext(ws, 0 - Pow2(wd - 1))),
                BvCmp(Slt, LitSext(ws, Pow2(wd - 1) - 1), x)]))
              else if !ss && !sd then Some(BvCmp(Ult, LitSext(ws, Pow2(wd) - 1), x))
              else if !ss then Some(BvCmp(Ult, LitSext(ws, Pow2(wd - 1) - 1), x))
              else if wd < ws then Some(Or([BvCmp(Slt, x, BvLit(ws, 0)), BvCmp(Slt, LitSext(ws, Pow2(wd) - 1), x)]))
              else Some(BvCmp(Slt, x, BvLit(ws, 0)))
  {
    hide Pow2, Wrap;
  }

  /** For every checked pair of types the violation holds exactly when the conversion changes the integer. */
  lemma ConvertExact(ws: nat, ss: bool, wd: nat, sd: bool, x: Term, m: Model, n: nat)
    requires 0 < wd && 0 < ws && Gated(ws, ss, wd, sd) && SortOf(x) == BvSort(ws) && IsPattern(x, m, ws, n)
    ensures ConvertViolation(ws, ss, wd, sd, x).Some?
    ensures Holds(ConvertViolation(ws, ss, wd, sd, x).value, m) <==> ChangesValue(wd, sd, Reading(ws, ss, n))
  {
    hide Eval, ConvertViolation, Signed, Wrap, ChangesValue, Pow2, Reading, LitSext, Holds;
    var i := Reading(ws, ss, n);
    ChangesUnlessFits(wd, sd, i);
    ViolationForm(ws, ss, wd, sd, x);
    BoundsFit(ws, wd);
    ReadingFits(ws, ss, n);
    if ss && sd {
      BelowLiteral(ws, true, n, 0 - Pow2(wd - 1), x, m);
      BelowLiteral(ws, true, n, Pow2(wd - 1) - 1, x, m);
      PairMeaning(BvCmp(Slt, x, LitSext(ws, 0 - Pow2(wd - 1))), BvCmp(Slt, LitSext(ws, Pow2(wd - 1) - 1), x), m);
    } else if !ss && !sd {
      BelowLiteral(ws, false, n, Pow2(wd) - 1, x, m);
    } else if !ss {
      BelowLiteral(ws, false, n, Pow2(wd - 1) - 1, x, m);
    } else {
      ZeroLiteral(ws);
      BelowLiteral(ws, true, n, 0, x, m);
      if wd < ws {
        BelowLiteral(ws, true, n, Pow2(wd) - 1, x, m);
        PairMeaning(BvCmp(Slt, x, BvLit(ws, 0)), BvCmp(Slt, LitSext(ws, Pow2(wd) - 1), x), m);
      }
    }
  }

  lemma ZeroLiteral(w: nat)
    ensures LitSext(w, 0) == BvLit(w, 0)
  {
    WrapSmall(w, 0);
  }

  /**
    The pairs that are not checked are not all safe: such a conversion changes the integer exactly
    when a negative number is widened to an unsigned type.
   */
  lemma UngatedChanges(ws: nat, ss: bool, wd: nat, sd: bool, n: nat)
    requires 0 < wd && 0 < ws && !Gated(ws, ss, wd, sd) && n < Pow2(ws)
    ensures ChangesValue(wd, sd, Reading(ws, ss, n)) <==> ss && !sd && Reading(ws, ss, n) < 0
  {
    ChangesUnlessFits(wd, sd, Reading(ws, ss, n));
    ReadingFits(ws, ss, n);
    Pow2Monotone(ws, wd);
  }

  lemma Pow2Squared(n: nat, p: nat)
    requires Pow2(n) == p
    ensures Pow2(2 * n) == p * p
  {
    Pow2Sum(n, n);
  }

  lemma Pow2Of32()
    ensures Pow2(32) == 0x1_0000_0000
  {
    assert Pow2(4) == 16;
    Pow2Squared(4, 16);
    Pow2Squared(8, 0x100);
    Pow2Squared(16, 0x1_0000);
  }

  /** int32(-1) becomes 2^64 - 1 as a uint64, and is not checked. */
  lemma UncheckedConversion()
    ensures !Gated(32, true, 64, false) && 0xFFFF_FFFF < Pow2(32)
    ensures Reading(32, true, 0xFFFF_FFFF) == -1 && ChangesValue(64, false, -1)
  {
    hide Pow2, Wrap;
    Pow2Of32();
  }

  // ---- division ----

  function DivZeroViolation(w: nat, r: Term): Option<Term> {
    MkEq(r, BvLit(w, 0))
  }

  /** Checked for signed division only. */
  function DivOverflowViolation(w: nat, l: Term, r: Term): Option<Term>
    requires w > 0
  {
    var min :- MkEq(l, BvLit(w, Pow2(w - 1)));
    var negOne :- MkEq(r, BvLit(w, Pow2(w) - 1));
    MkAnd([min, negOne])
  }

  lemma QuotientBound(a: nat, b: nat)
    requires b >= 1
    ensures a / b <= a && (b >= 2 ==> 2 * (a / b) <= a)
  {
    QuotientSmall(a, b);
    if b >= 2 {
      assert a == (a / b) * b + a % b;
      MulNonNegative(a / b, b - 2);
      assert (a / b) * b == (a / b) * 2 + (a / b) * (b - 2);
    }
  }

  /** Truncated division of representable integers is representable but for the one exception; remainders always are. */
  lemma DivisionFits(w: nat, s: bool, a: int, b: int)
    requires w > 0 && b != 0 && Fits(w, s, a) && Fits(w, s, b)
    ensures Fits(w, s, TruncDiv(a, b)) <==> !(s && 2 * a == 0 - Pow2(w) && b == -1)
    ensures Fits(w, s, TruncRem(a, b))
  {
    QuotientBound(Abs(a), Abs(b));
    TruncDefined(a, b);
  }

  lemma EqLiteral(t: Term, m: Model, w: nat, x: nat, c: nat)
    requires IsPattern(t, m, w, x)
    ensures Holds(Eq(t, BvLit(w, c)), m) <==> x == c
  {
    assert Eval(BvLit(w, c), m) == BvVal(w, c);
    assert Eval(Eq(t, BvLit(w, c)), m) == BoolVal(x == c);
  }

  lemma ZeroReading(w: nat, s: bool, y: nat)
    requires w > 0 && y < Pow2(w)
    ensures Reading(w, s, y) == 0 <==> y == 0
  {
    hide Pow2;
  }

  /** The patterns of the least integer and of minus one. */
  lemma ExtremeReadings(w: nat, x: nat)
    requires w > 0 && x < Pow2(w)
    ensures 2 * Reading(w, true, x) == 0 - Pow2(w) <==> x == Pow2(w - 1)
    ensures Reading(w, true, x) == -1 <==> x == Pow2(w) - 1
  {
    assert Pow2(w) == 2 * Pow2(w - 1);
  }

  /** The violations are exactly the language's two failures of integer division. */
  lemma DivisionExact(w: nat, s: bool, l: Term, r: Term, m: Model, x: nat, y: nat)
    requires w > 0 && SortOf(l) == SortOf(r) == BvSort(w) && IsPattern(l, m, w, x) && IsPattern(r, m, w, y)
    ensures DivZeroViolation(w, r).Some? && (Holds(DivZeroViolation(w, r).value, m) <==> Reading(w, s, y) == 0)
    ensures DivOverflowViolation(w, l, r).Some?
    ensures Reading(w, true, y) != 0 ==>
              (Holds(DivOverflowViolation(w, l, r).value, m) <==>
               !Fits(w, true, TruncDiv(Reading(w, true, x), Reading(w, true, y))))
    ensures Reading(w, s, y) != 0 ==> Fits(w, s, TruncRem(Reading(w, s, x), Reading(w, s, y)))
  {
    hide TruncDiv, TruncRem, Pow2, Reading, Fits, Eval, Holds;
    EqLiteral(r, m, w, y, 0);
    ZeroReading(w, s, y);
    OverflowMeaning(w, l, r, m, x, y);
    ReadingFits(w, s, x);
    ReadingFits(w, s, y);
    ReadingFits(w, true, x);
    ReadingFits(w, true, y);
    if Reading(w, true, y) != 0 {
      DivisionFits(w, true, Reading(w, true, x), Reading(w, true, y));
    }
    if Reading(w, s, y) != 0 {
      DivisionFits(w, s, Reading(w, s, x), Reading(w, s, y));
    }
  }

  lemma OverflowMeaning(w: nat, l: Term, r: Term, m: Model, x: nat, y: nat)
    requires w > 0 && SortOf(l) == SortOf(r) == BvSort(w) && IsPattern(l, m, w, x) && IsPattern(r, m, w, y)
    ensures DivOverflowViolation(w, l, r).Some?
    ensures Holds(DivOverflowViolation(w, l, r).value, m)
        <==> 2 * Reading(w, true, x) == 0 - Pow2(w) && Reading(w, true, y) == -1
  {
    hide Pow2, Reading, Eval, Holds;
    var min, negOne := Eq(l, BvLit(w, Pow2(w - 1))), Eq(r, BvLit(w, Pow2(w) - 1));
    PairMeaning(min, negOne, m);
    EqLiteral(l, m, w, x, Pow2(w - 1));
    EqLiteral(r, m, w, y, Pow2(w) - 1);
    ExtremeReadings(w, x);
    ExtremeReadings(w, y);
  }

  // ---- index and slice expressions ----

  function IndexViolation(i: Term, len: Term): Option<Term> {
    var neg :- MkCmp(Slt, i, BvLit(64, 0));
    var over :- MkCmp(Sle, len, i);
    MkOr([neg, over])
  }

  function SliceViolation(low: Term, high: Term, cap: Term, max: Option<Term>): Option<Term> {
    var negLow :- MkCmp(Slt, low, BvLit(64, 0));
    var highLtLow :- MkCmp(Slt, high, low);
    var highOverCap :- MkCmp(Slt, cap, high);
    match max
    case None => MkOr([negLow, highLtLow, highOverCap])
    case Some(mx) =>
      var maxOverCap :- MkCmp(Slt, cap, mx);
      MkOr([negLow, highLtLow, highOverCap, maxOverCap])
  }

  ghost predicate Is64(t: Term, m: Model, n: nat) {
    SortOf(t) == BvSort(64) && IsPattern(t, m, 64, n)
  }

  lemma Compared(cmp: CmpOp, a: Term, b: Term, m: Model, x: nat, y: nat)
    requires (cmp == Slt || cmp == Sle) && Is64(a, m, x) && Is64(b, m, y)
    ensures MkCmp(cmp, a, b) == Some(BvCmp(cmp, a, b))
    ensures Holds(BvCmp(cmp, a, b), m) <==> if cmp == Slt then Signed(64, x) < Signed(64, y)
        else Signed(64, x) <= Signed(64, y)
  {
    CmpMeans(cmp, 64, a, b, m, x, y);
  }

  lemma ZeroIs64(m: Model)
    ensures Is64(BvLit(64, 0), m, 0) && Signed(64, 0) == 0
  {
  }

  /** Out of bounds, as signed integers. */
  lemma IndexExact(i: Term, len: Term, m: Model, x: nat, n: nat)
    requires Is64(i, m, x) && Is64(len, m, n)
    ensures IndexViolation(i, len).Some?
    ensures Holds(IndexViolation(i, len).value, m) <==> !(0 <= Signed(64, x) < Signed(64, n))
  {
    hide Pow2, Signed, Eval, IsPattern;
    ZeroIs64(m);
    Compared(Slt, i, BvLit(64, 0), m, x, 0);
    Compared(Sle, len, i, m, n, x);
    PairMeaning(BvCmp(Slt, i, BvLit(64, 0)), BvCmp(Sle, len, i), m);
  }

  lemma AnyMeaning(ts: seq<Term>, m: Model)
    ensures Holds(Or(ts), m) <==> exists k :: 0 <= k < |ts| && Holds(ts[k], m)
  {
    if k :| 0 <= k < |ts| && Holds(ts[k], m) {
      assert ts[k] in ts;
    }
  }

  /** Exactly the language's condition for s[low:high]: 0 <= low <= high <= cap fails. */
  lemma SliceExact(low: Term, high: Term, cap: Term, m: Model, l: nat, h: nat, c: nat)
    requires Is64(low, m, l) && Is64(high, m, h) && Is64(cap, m, c)
    ensures SliceViolation(low, high, cap, None).Some?
    ensures Holds(SliceViolation(low, high, cap, None).value, m)
        <==> !(0 <= Signed(64, l) <= Signed(64, h) <= Signed(64, c))
  {
    hide Pow2, Signed, Eval, IsPattern;
    ZeroIs64(m);
    Compared(Slt, low, BvLit(64, 0), m, l, 0);
    Compared(Slt, high, low, m, h, l);
    Compared(Slt, cap, high, m, c, h);
    var ts := [BvCmp(Slt, low, BvLit(64, 0)), BvCmp(Slt, high, low), BvCmp(Slt, cap, high)];
    assert SliceViolation(low, high, cap, None) == Some(Or(ts));
    AnyMeaning(ts, m);
    assert ts[0] in ts && ts[1] in ts && ts[2] in ts;
  }

  /** The slice value the encoder gives s[low:high(:max)], and its length invariant. */
  function SliceValue(low: Term, high: Term, cap: Term): Term {
    MkSeq(BvBin(Sub, high, low), BvBin(Sub, cap, low))
  }

  lemma SubIs(a: Term, b: Term, m: Model, x: nat, y: nat)
    requires Is64(a, m, x) && Is64(b, m, y)
    ensures Eval(BvBin(Sub, a, b), m) == BvVal(64, Wrap(64, Signed(64, x) - Signed(64, y)))
  {
    hide Pow2, Signed, Wrap, Eval;
    BinMeans(Sub, 64, a, b, m, x, y);
    AddAgrees(64, true, x, y);
  }

  /** The invariant of the sliced value compares the two differences as unsigned numbers. */
  lemma InvariantIs(low: Term, high: Term, cap: Term, m: Model, l: nat, h: nat, c: nat)
    requires Is64(low, m, l) && Is64(high, m, h) && Is64(cap, m, c)
    ensures Holds(SeqInvariant(SliceValue(low, high, cap)), m)
       <==> Wrap(64, Signed(64, h) - Signed(64, l)) <= Wrap(64, Signed(64, c) - Signed(64, l))
  {
    hide Pow2, Signed, Wrap, IsPattern;
    SubIs(high, low, m, h, l);
    SubIs(cap, low, m, c, l);
    var t := SliceValue(low, high, cap);
    assert Eval(t, m).SeqVal?;
    assert Eval(SeqLen(t), m) == Eval(BvBin(Sub, high, low), m) && Eval(SeqCap(t), m) == Eval(BvBin(Sub, cap, low), m);
  }

  lemma Range64(t: Term, m: Model, n: nat)
    requires Is64(t, m, n)
    ensures 0 - Pow2(64) <= 2 * Signed(64, n) < Pow2(64)
  {
    ReadingFits(64, true, n);
  }

  /** A slice expression that is not a violation yields a value with len <= cap, and the length asked for. */
  lemma SliceKeepsInvariant(low: Term, high: Term, cap: Term, m: Model, l: nat, h: nat, c: nat)
    requires Is64(low, m, l) && Is64(high, m, h) && Is64(cap, m, c)
    requires SliceViolation(low, high, cap, None).Some? && !Holds(SliceViolation(low, high, cap, None).value, m)
    ensures Holds(SeqInvariant(SliceValue(low, high, cap)), m)
    ensures 0 <= Signed(64, h) - Signed(64, l)
    ensures Eval(SeqLen(SliceValue(low, high, cap)), m) == BvVal(64, Signed(64, h) - Signed(64, l))
  {
    hide Eval, SliceViolation, IsPattern, Signed, Pow2, Wrap, SliceValue;
    SliceExact(low, high, cap, m, l, h, c);
    InvariantIs(low, high, cap, m, l, h, c);
    Range64(high, m, h);
    Range64(cap, m, c);
    WrapSmall(64, Signed(64, h) - Signed(64, l));
    WrapSmall(64, Signed(64, c) - Signed(64, l));
    SubIs(cap, low, m, c, l);
    SliceLength(low, high, cap, m, l, h);
  }

  /**
    With a third index the checked condition leaves out high <= max: the sliced value then keeps
    len <= cap exactly when high is at most max, or max is below low and the capacity wraps.
   */
  lemma ThreeIndexSlice(low: Term, high: Term, cap: Term, max: Term, m: Model, l: nat, h: nat, c: nat, x: nat)
    requires Is64(low, m, l) && Is64(high, m, h) && Is64(cap, m, c) && Is64(max, m, x)
    requires 0 <= Signed(64, l) <= Signed(64, h) <= Signed(64, c) && Signed(64, x) <= Signed(64, c)
    ensures Holds(SeqInvariant(SliceValue(low, high, max)), m)
        <==> Signed(64, h) <= Signed(64, x) || Signed(64, x) < Signed(64, l)
  {
    hide Eval, IsPattern, Signed, Pow2, Wrap, SliceValue;
    InvariantIs(low, high, max, m, l, h, x);
    Range64(high, m, h);
    Range64(max, m, x);
    Range64(low, m, l);
    WrapSmall(64, Signed(64, h) - Signed(64, l));
    if Signed(64, x) >= Signed(64, l) {
      WrapSmall(64, Signed(64, x) - Signed(64, l));
    } else {
      WrapShift(64, Signed(64, x) - Signed(64, l), 1);
      assert Signed(64, x) - Signed(64, l) + 1 * Pow2(64) == Signed(64, x) - Signed(64, l) + Pow2(64);
      WrapSmall(64, Signed(64, x) - Signed(64, l) + Pow2(64));
    }
  }

  /** s[0:2:1] of a slice with capacity 4 is no violation, and yields length 2 with capacity 1. */
  lemma ThreeIndexGap(m: Model)
    ensures var v := SliceViolation(BvLit(64, 0), BvLit(64, 2), BvLit(64, 4), Some(BvLit(64, 1)));
            v.Some? && !Holds(v.value, m)
    ensures !Holds(SeqInvariant(SliceValue(BvLit(64, 0), BvLit(64, 2), BvLit(64, 1))), m)
  {
    hide Eval, Pow2;
    Small64(0);
    Small64(1);
    Small64(2);
    Small64(4);
    LiteralIs64(0, m);
    LiteralIs64(1, m);
    LiteralIs64(2, m);
    LiteralIs64(4, m);
    ThreeIndexSlice(BvLit(64, 0), BvLit(64, 2), BvLit(64, 4), BvLit(64, 1), m, 0, 2, 4, 1);
    var zero, one, two, four := BvLit(64, 0), BvLit(64, 1), BvLit(64, 2), BvLit(64, 4);
    var ts := [BvCmp(Slt, zero, zero), BvCmp(Slt, two, zero), BvCmp(Slt, four, two), BvCmp(Slt, four, one)];
    assert SliceViolation(zero, two, four, Some(one)) == Some(Or(ts));
    Compared(Slt, zero, zero, m, 0, 0);
    Compared(Slt, two, zero, m, 2, 0);
    Compared(Slt, four, two, m, 4, 2);
    Compared(Slt, four, one, m, 4, 1);
    AnyMeaning(ts, m);
  }

  lemma Small64(n: nat)
    requires n < 8
    ensures n < Pow2(64) && Signed(64, n) == n
  {
    Pow2Monotone(4, 64);
    assert Pow2(4) == 16;
  }

  lemma LiteralIs64(n: nat, m: Model)
    requires n < Pow2(64)
    ensures Is64(BvLit(64, n), m, n)
  {
    LiteralPattern(64, n, m);
  }

  lemma SliceLength(low: Term, high: Term, cap: Term, m: Model, l: nat, h: nat)
    requires Is64(low, m, l) && Is64(high, m, h) && Eval(BvBin(Sub, cap, low), m).BvVal?
    ensures Eval(SeqLen(SliceValue(low, high, cap)), m) == BvVal(64, Wrap(64, Signed(64, h) - Signed(64, l)))
  {
    hide Wrap, Signed, Pow2;
    SubIs(high, low, m, h, l);
    var t := SliceValue(low, high, cap);
    assert Eval(t, m).SeqVal?;
  }
}
