/** The terms the encoder builds for integer operations compute exactly what Go computes. */
module IntOps {
  import opened Wrappers
  import opened MachineInts
  import opened Terms
  import opened Ir
  import opened Encoding
  import opened GuardTerms
  import opened Runs

  ghost predicate IsPattern(t: Term, m: Model, w: nat, x: nat) {
    Eval(t, m) == BvVal(w, x) && x < Pow2(w)
  }

  /** Every modelled operation that does not panic has the value Go gives it, at any width and signedness. */
  lemma IntOpExact(k: BinOpKind, w: nat, s: bool, l: Term, r: Term, m: Model, x: nat, y: nat, countSigned: bool)
    requires w > 0 && IsPattern(l, m, w, x) && IsPattern(r, m, w, y)
    requires IntOpTerm(k, w, s, l, r).Some? && IntResult(k, w, s, x, y, countSigned).Some?
    ensures Eval(IntOpTerm(k, w, s, l, r).value, m) == IntResult(k, w, s, x, y, countSigned).value
  {
    if k == AndNotK {
      AndNotExact(w, s, l, r, m, x, y);
    } else {
      IntOpMeans(k, w, s, l, r, m, x, y);
      PatternExact(k, w, s, x, y, countSigned);
    }
  }

  /** The value of the term over the operands' patterns. */
  function PatternOp(k: BinOpKind, w: nat, s: bool, x: nat, y: nat): Val {
    match k
    case AddOp => BvVal(w, Wrap(w, x + y))
    case SubOp => BvVal(w, Wrap(w, x - y))
    case MulOp => BvVal(w, Wrap(w, x * y))
    case DivOp => BvVal(w, if s then Sdiv(w, x, y) else Udiv(w, x, y))
    case RemOp => BvVal(w, if s then Srem(w, x, y) else Urem(x, y))
    case AndK => BvVal(w, Bitwise(AndBits, w, x, y))
    case OrK => BvVal(w, Bitwise(OrBits, w, x, y))
    case XorK => BvVal(w, Bitwise(XorBits, w, x, y))
    case ShlK => BvVal(w, Shl(w, x, y))
    case ShrK => BvVal(w, if s then Ashr(w, x, y) else Lshr(w, x, y))
    case LtK => BoolVal(Reading(w, s, x) < Reading(w, s, y))
    case LeqK => BoolVal(Reading(w, s, x) <= Reading(w, s, y))
    case GtK => BoolVal(Reading(w, s, y) < Reading(w, s, x))
    case GeqK => BoolVal(Reading(w, s, y) <= Reading(w, s, x))
    case _ => BoolVal(false)
  }

  lemma IntOpMeans(k: BinOpKind, w: nat, s: bool, l: Term, r: Term, m: Model, x: nat, y: nat)
    requires IsPattern(l, m, w, x) && IsPattern(r, m, w, y) && k != AndNotK && IntOpTerm(k, w, s, l, r).Some?
    ensures Eval(IntOpTerm(k, w, s, l, r).value, m) == PatternOp(k, w, s, x, y)
  {
    hide Eval;
    if k == LtK {
      CmpMeans(if s then Slt else Ult, w, l, r, m, x, y);
    } else if k == LeqK {
      CmpMeans(if s then Sle else Ule, w, l, r, m, x, y);
    } else if k == GtK {
      CmpMeans(if s then Slt else Ult, w, r, l, m, y, x);
    } else if k == GeqK {
      CmpMeans(if s then Sle else Ule, w, r, l, m, y, x);
    } else {
      BinMeans(BinOpOf(k, s), w, l, r, m, x, y);
      IntOpShape(k, w, s, l, r);
      BinOpMeans(k, w, s, x, y);
    }
  }

  lemma IntOpShape(k: BinOpKind, w: nat, s: bool, l: Term, r: Term)
    requires k !in {AndNotK, LtK, LeqK, GtK, GeqK} && IntOpTerm(k, w, s, l, r).Some?
    ensures IntOpTerm(k, w, s, l, r).value == BvBin(BinOpOf(k, s), l, r) && k != EqK && k != NeqK
  {
  }

  lemma BinMeans(op: Terms.BinOp, w: nat, l: Term, r: Term, m: Model, x: nat, y: nat)
    requires IsPattern(l, m, w, x) && IsPattern(r, m, w, y)
    ensures Eval(BvBin(op, l, r), m) == BvVal(w, BinVal(op, w, x, y))
  {
  }

  function BinOpOf(k: BinOpKind, s: bool): Terms.BinOp {
    match k
    case AddOp => Add
    case SubOp => Sub
    case MulOp => Mul
    case DivOp => if s then SdivOp else UdivOp
    case RemOp => if s then SremOp else UremOp
    case AndK => AndOp
    case OrK => OrOp
    case XorK => XorOp
    case ShlK => ShlOp
    case _ => if s then AshrOp else LshrOp
  }

  lemma BinOpMeans(k: BinOpKind, w: nat, s: bool, x: nat, y: nat)
    requires k !in {AndNotK, LtK, LeqK, GtK, GeqK, EqK, NeqK}
    ensures PatternOp(k, w, s, x, y) == BvVal(w, BinVal(BinOpOf(k, s), w, x, y))
  {
  }

  lemma CmpMeans(op: CmpOp, w: nat, l: Term, r: Term, m: Model, x: nat, y: nat)
    requires IsPattern(l, m, w, x) && IsPattern(r, m, w, y)
    ensures Eval(BvCmp(op, l, r), m) == BoolVal(CmpVal(op, w, x, y))
  {
  }

  lemma PatternExact(k: BinOpKind, w: nat, s: bool, x: nat, y: nat, countSigned: bool)
    requires w > 0 && x < Pow2(w) && y < Pow2(w) && k != AndNotK && k != EqK && k != NeqK
    requires IntResult(k, w, s, x, y, countSigned).Some?
    ensures PatternOp(k, w, s, x, y) == IntResult(k, w, s, x, y, countSigned).value
  {
    match k
    case AddOp => AddAgrees(w, s, x, y);
    case SubOp => AddAgrees(w, s, x, y);
    case MulOp => MulAgrees(w, s, x, y);
    case DivOp => DivExact(w, s, x, y);
    case RemOp => DivExact(w, s, x, y);
    case ShlK => ShlAgrees(w, s, x, y);
    case ShrK => ShrAgrees(w, s, x, y);
    case _ =>
  }

  lemma AndNotExact(w: nat, s: bool, l: Term, r: Term, m: Model, x: nat, y: nat)
    requires IsPattern(l, m, w, x) && IsPattern(r, m, w, y) && IntOpTerm(AndNotK, w, s, l, r).Some?
    ensures Eval(IntOpTerm(AndNotK, w, s, l, r).value, m)
        == BvVal(w, Bitwise(AndBits, w, x, Wrap(w, 0 - Reading(w, s, y) - 1)))
  {
    hide Pow2;
    ComplementAgrees(w, s, y);
    var nr := BvBin(XorOp, r, BvLit(w, Pow2(w) - 1));
    assert Eval(nr, m) == BvVal(w, Bitwise(XorBits, w, y, Pow2(w) - 1));
  }

  lemma DivExact(w: nat, s: bool, x: nat, y: nat)
    requires w > 0 && x < Pow2(w) && y < Pow2(w) && Reading(w, s, y) != 0
    ensures (if s then Sdiv(w, x, y) else Udiv(w, x, y)) == Wrap(w, TruncDiv(Reading(w, s, x), Reading(w, s, y)))
    ensures (if s then Srem(w, x, y) else Urem(x, y)) == Wrap(w, TruncRem(Reading(w, s, x), Reading(w, s, y)))
  {
    if s {
      SdivAgrees(w, x, y);
      SremAgrees(w, x, y);
    } else {
      WrapSmall(w, Quotient(x, y));
      TruncDefined(x, y);
      WrapSmall(w, x % y);
    }
  }

  lemma UnOpExact(k: UnOpKind, ty: Ty, o: Term, m: Model, x: Val)
    requires Eval(o, m) == x && UnOpTerm(k, ty, o).Some? && UnResult(k, ty, x).Some?
    requires ty.IntTy? ==> HasSort(x, BvSort(ty.width))
    ensures Eval(UnOpTerm(k, ty, o).value, m) == UnResult(k, ty, x).value
  {
    hide Pow2;
    if k != NotK {
      ComplementAgrees(ty.width, ty.signed, x.n);
    }
  }

  /** The bounds asserted for a widening conversion are exactly the image of sign or zero extension. */
  lemma WideningExact(ws: nat, s: bool, wd: nat, n: nat, d: Term, m: Model)
    requires 0 < ws < wd && IsPattern(d, m, wd, n) && SortOf(d) == BvSort(wd)
    ensures WideningRange(IntTy(ws, s), IntTy(wd, true), d).Some?
    ensures Holds(WideningRange(IntTy(ws, s), IntTy(wd, true), d).value, m)
       <==> exists x :: 0 <= x < Pow2(ws) && n == Wrap(wd, Reading(ws, s, x))
  {
    if s {
      SignedRange(ws, wd, n, d, m);
    } else {
      UnsignedRange(ws, wd, n, d, m);
    }
    ExtensionImage(ws, s, wd, n);
  }

  /** A pattern is an extension of a narrower one exactly when its value fits the narrower type. */
  lemma ExtensionImage(ws: nat, s: bool, wd: nat, n: nat)
    requires 0 < ws < wd && n < Pow2(wd)
    ensures Fits(ws, s, Reading(wd, s, n)) <==> exists x :: 0 <= x < Pow2(ws) && n == Wrap(wd, Reading(ws, s, x))
  {
    Pow2Monotone(ws, wd);
    var i := Reading(wd, s, n);
    if Fits(ws, s, i) {
      ReadingWrap(ws, s, i);
      WrapReading(wd, s, n);
      assert n == Wrap(wd, Reading(ws, s, Wrap(ws, i)));
    }
    if x :| 0 <= x < Pow2(ws) && n == Wrap(wd, Reading(ws, s, x)) {
      ReadingFits(ws, s, x);
      ReadingWrap(wd, s, Reading(ws, s, x));
    }
  }

  lemma SignedRange(ws: nat, wd: nat, n: nat, d: Term, m: Model)
    requires 0 < ws < wd && IsPattern(d, m, wd, n) && SortOf(d) == BvSort(wd)
    ensures WideningRange(IntTy(ws, true), IntTy(wd, true), d).Some?
    ensures Holds(WideningRange(IntTy(ws, true), IntTy(wd, true), d).value, m) <==> Fits(ws, true, Signed(wd, n))
  {
    hide Signed, Wrap, Eval, IsPattern, WideningRange;
    SignedBounds(ws, wd);
    var min, max := Wrap(wd, Pow2(wd) - Pow2(ws - 1)), Wrap(wd, Pow2(ws - 1) - 1);
    SignedRangeForm(ws, wd, d);
    LiteralPattern(wd, min, m);
    LiteralPattern(wd, max, m);
    CmpMeans(Sle, wd, BvLit(wd, min), d, m, min, n);
    CmpMeans(Sle, wd, d, BvLit(wd, max), m, n, max);
    PairMeaning(BvCmp(Sle, BvLit(wd, min), d), BvCmp(Sle, d, BvLit(wd, max)), m);
  }

  lemma LiteralPattern(w: nat, n: nat, m: Model)
    requires n < Pow2(w)
    ensures IsPattern(BvLit(w, n), m, w, n)
  {
  }

  lemma SignedRangeForm(ws: nat, wd: nat, d: Term)
    requires 0 < ws < wd && SortOf(d) == BvSort(wd)
    ensures WideningRange(IntTy(ws, true), IntTy(wd, true), d) ==
              Some(And([BvCmp(Sle, BvLit(wd, Wrap(wd, Pow2(wd) - Pow2(ws - 1))), d),
                BvCmp(Sle, d, BvLit(wd, Wrap(wd, Pow2(ws - 1) - 1)))]))
  {
  }

  lemma UnsignedRange(ws: nat, wd: nat, n: nat, d: Term, m: Model)
    requires 0 < ws < wd && IsPattern(d, m, wd, n) && SortOf(d) == BvSort(wd)
    ensures WideningRange(IntTy(ws, false), IntTy(wd, true), d).Some?
    ensures Holds(WideningRange(IntTy(ws, false), IntTy(wd, true), d).value, m) <==> Fits(ws, false, n)
  {
    Pow2Monotone(ws, wd);
    WrapSmall(wd, Pow2(ws) - 1);
    var lit := BvLit(wd, Pow2(ws) - 1);
    assert WideningRange(IntTy(ws, false), IntTy(wd, true), d) == Some(BvCmp(Ule, d, lit));
    CmpMeans(Ule, wd, d, lit, m, n, Pow2(ws) - 1);
  }

  lemma SignedBounds(ws: nat, wd: nat)
    requires 0 < ws < wd
    ensures Signed(wd, Wrap(wd, Pow2(wd) - Pow2(ws - 1))) == 0 - Pow2(ws - 1)
    ensures Signed(wd, Wrap(wd, Pow2(ws - 1) - 1)) == Pow2(ws - 1) - 1
  {
    Pow2Monotone(ws, wd);
    WrapSmall(wd, Pow2(wd) - Pow2(ws - 1));
    WrapSmall(wd, Pow2(ws - 1) - 1);
  }

  lemma WideningIgnoresTarget(from: Ty, to: Ty, d: Term)
    requires from.IntTy? && to.IntTy?
    ensures WideningRange(from, to, d) == WideningRange(from, IntTy(to.width, true), d)
  {
  }
}
