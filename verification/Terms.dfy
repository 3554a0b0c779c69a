/**
  First-order terms over the sorts the encoder uses, with their sort-checking constructors, their
  value under an assignment, and substitution. Constant names are a datatype here; Frames shows
  that the strings they stand for are distinct.
 */
module Terms {
  import opened Wrappers
  import opened MachineInts

  datatype Sort = BoolSort | BvSort(width: nat) | PtrSort | SeqSort

  datatype Val =
    | BoolVal(b: bool)
    | BvVal(width: nat, n: nat)
    | NilPtr
    | AddrPtr(addr: nat)
    | SeqVal(len: nat, cap: nat)

  predicate HasSort(v: Val, s: Sort) {
    match s
    case BoolSort => v.BoolVal?
    case BvSort(w) => v.BvVal? && v.width == w && v.n < Pow2(w)
    case PtrSort => v.NilPtr? || (v.AddrPtr? && v.addr < Pow2(64))
    case SeqSort => v.SeqVal? && v.len < Pow2(64) && v.cap < Pow2(64)
  }

  function DefaultOf(s: Sort): (v: Val)
    ensures HasSort(v, s)
  {
    match s
    case BoolSort => BoolVal(false)
    case BvSort(w) => BvVal(w, 0)
    case PtrSort => NilPtr
    case SeqSort => SeqVal(0, 0)
  }

  /** g<b>, hc<b>, p<i>, r<i>, v<n>, and any of these renamed apart with a prefix. */
  datatype Name =
    | Guard(block: nat)
    | HavocCond(block: nat)
    | Param(index: nat)
    | Result(index: nat)
    | Register(id: nat)
    | Framed(prefix: string, name: Name)

  datatype BinOp = Add | Sub | Mul | UdivOp | SdivOp | UremOp | SremOp | AndOp | OrOp | XorOp | ShlOp | LshrOp | AshrOp
  datatype CmpOp = Ult | Ule | Slt | Sle

  datatype Term =
    | BoolLit(b: bool)
    | BvLit(width: nat, value: nat)
    | Var(name: Name, sort: Sort)
    | Not(t: Term)
    | And(ts: seq<Term>)
    | Or(ts: seq<Term>)
    | Eq(l: Term, r: Term)
    | Ite(c: Term, t: Term, e: Term)
    | BvBin(bin: BinOp, l: Term, r: Term)
    | BvCmp(cmp: CmpOp, l: Term, r: Term)
    | NilLit
    | IsNil(t: Term)
    | MkSeq(len: Term, cap: Term)
    | SeqLen(t: Term)
    | SeqCap(t: Term)

  function SortOf(t: Term): Sort {
    match t
    case BvLit(w, _) => BvSort(w)
    case Var(_, s) => s
    case Ite(_, a, _) => SortOf(a)
    case BvBin(_, l, _) => SortOf(l)
    case NilLit => PtrSort
    case MkSeq(_, _) => SeqSort
    case SeqLen(_) => BvSort(64)
    case SeqCap(_) => BvSort(64)
    case _ => BoolSort
  }

  /** Ill-sorted terms cannot be built; this is what the constructors guarantee. */
  predicate WellSorted(t: Term) {
    match t
    case BoolLit(_) => true
    case BvLit(w, n) => n < Pow2(w)
    case Var(_, _) => true
    case Not(a) => WellSorted(a) && SortOf(a) == BoolSort
    case And(ts) => |ts| > 0 && forall a | a in ts :: WellSorted(a) && SortOf(a) == BoolSort
    case Or(ts) => |ts| > 0 && forall a | a in ts :: WellSorted(a) && SortOf(a) == BoolSort
    case Eq(a, b) => WellSorted(a) && WellSorted(b) && SortOf(a) == SortOf(b)
    case Ite(c, a, b) => WellSorted(c) && WellSorted(a) && WellSorted(b) && SortOf(c) == BoolSort
      && SortOf(a) == SortOf(b)
    case BvBin(_, a, b) => WellSorted(a) && WellSorted(b) && SortOf(a).BvSort? && SortOf(a) == SortOf(b)
    case BvCmp(_, a, b) => WellSorted(a) && WellSorted(b) && SortOf(a).BvSort? && SortOf(a) == SortOf(b)
    case NilLit => true
    case IsNil(a) => WellSorted(a) && SortOf(a) == PtrSort
    case MkSeq(a, b) => WellSorted(a) && WellSorted(b) && SortOf(a) == SortOf(b) == BvSort(64)
    case SeqLen(a) => WellSorted(a) && SortOf(a) == SeqSort
    case SeqCap(a) => WellSorted(a) && SortOf(a) == SeqSort
  }

  // ---- checked constructors: None stands for a sort error ----

  function MkNot(t: Term): Option<Term> {
    if SortOf(t) == BoolSort then Some(Not(t)) else None
  }

  function MkAnd(ts: seq<Term>): Option<Term> {
    if |ts| > 0 && forall a | a in ts :: SortOf(a) == BoolSort then Some(And(ts)) else None
  }

  function MkOr(ts: seq<Term>): Option<Term> {
    if |ts| > 0 && forall a | a in ts :: SortOf(a) == BoolSort then Some(Or(ts)) else None
  }

  function MkEq(a: Term, b: Term): Option<Term> {
    if SortOf(a) == SortOf(b) then Some(Eq(a, b)) else None
  }

  function MkIte(c: Term, a: Term, b: Term): Option<Term> {
    if SortOf(c) == BoolSort && SortOf(a) == SortOf(b) then Some(Ite(c, a, b)) else None
  }

  function MkBin(op: BinOp, a: Term, b: Term): Option<Term> {
    if SortOf(a).BvSort? && SortOf(a) == SortOf(b) then Some(BvBin(op, a, b)) else None
  }

  function MkCmp(op: CmpOp, a: Term, b: Term): Option<Term> {
    if SortOf(a).BvSort? && SortOf(a) == SortOf(b) then Some(BvCmp(op, a, b)) else None
  }

  function MkIsNil(t: Term): Option<Term> {
    if SortOf(t) == PtrSort then Some(IsNil(t)) else None
  }

  function MkNonNil(t: Term): Option<Term> {
    var n :- MkIsNil(t);
    MkNot(n)
  }

  // ---- meaning ----

  type Model = map<Name, Val>

  function BinVal(op: BinOp, w: nat, x: nat, y: nat): (r: nat) {
    match op
    case Add => Wrap(w, x + y)
    case Sub => Wrap(w, x - y)
    case Mul => Wrap(w, x * y)
    case UdivOp => Udiv(w, x, y)
    case UremOp => Urem(x, y)
    case SdivOp => Sdiv(w, x, y)
    case SremOp => Srem(w, x, y)
    case AndOp => Bitwise(AndBits, w, x, y)
    case OrOp => Bitwise(OrBits, w, x, y)
    case XorOp => Bitwise(XorBits, w, x, y)
    case ShlOp => Shl(w, x, y)
    case LshrOp => Lshr(w, x, y)
    case AshrOp => Ashr(w, x, y)
  }

  predicate CmpVal(op: CmpOp, w: nat, x: nat, y: nat) {
    match op
    case Ult => x < y
    case Ule => x <= y
    case Slt => Signed(w, x) < Signed(w, y)
    case Sle => Signed(w, x) <= Signed(w, y)
  }

  /** The value of a term; total, an operand of the wrong sort counting as that sort's default. */
  function Eval(t: Term, m: Model): Val {
    match t
    case BoolLit(b) => BoolVal(b)
    case BvLit(w, n) => BvVal(w, n)
    case Var(x, s) => if x in m then m[x] else DefaultOf(s)
    case Not(a) => BoolVal(Eval(a, m) != BoolVal(true))
    case And(ts) => BoolVal(forall a | a in ts :: Eval(a, m) == BoolVal(true))
    case Or(ts) => BoolVal(exists a | a in ts :: Eval(a, m) == BoolVal(true))
    case Eq(a, b) => BoolVal(Eval(a, m) == Eval(b, m))
    case Ite(c, a, b) => if Eval(c, m) == BoolVal(true) then Eval(a, m) else Eval(b, m)
    case BvBin(op, a, b) =>
      var x, y := Eval(a, m), Eval(b, m);
      if x.BvVal? && y.BvVal? then BvVal(x.width, BinVal(op, x.width, x.n, y.n)) else DefaultOf(SortOf(a))
    case BvCmp(op, a, b) =>
      var x, y := Eval(a, m), Eval(b, m);
      BoolVal(x.BvVal? && y.BvVal? && CmpVal(op, x.width, x.n, y.n))
    case NilLit => NilPtr
    case IsNil(a) => BoolVal(Eval(a, m) == NilPtr)
    case MkSeq(a, b) =>
      var x, y := Eval(a, m), Eval(b, m);
      if x.BvVal? && y.BvVal? then SeqVal(x.n, y.n) else SeqVal(0, 0)
    case SeqLen(a) =>
      var x := Eval(a, m);
      BvVal(64, if x.SeqVal? then x.len else 0)
    case SeqCap(a) =>
      var x := Eval(a, m);
      BvVal(64, if x.SeqVal? then x.cap else 0)
  }

  predicate Holds(t: Term, m: Model) {
    Eval(t, m) == BoolVal(true)
  }

  // ---- sorts are respected ----

  ghost predicate Sorted(t: Term, m: Model) {
    forall x, s :: (x, s) in FreeVars(t) && x in m ==> HasSort(m[x], s)
  }

  function FreeVars(t: Term): set<(Name, Sort)> {
    match t
    case Var(x, s) => {(x, s)}
    case Not(a) => FreeVars(a)
    case And(ts) => set a, v | a in ts && v in FreeVars(a) :: v
    case Or(ts) => set a, v | a in ts && v in FreeVars(a) :: v
    case Eq(a, b) => FreeVars(a) + FreeVars(b)
    case Ite(c, a, b) => FreeVars(c) + FreeVars(a) + FreeVars(b)
    case BvBin(_, a, b) => FreeVars(a) + FreeVars(b)
    case BvCmp(_, a, b) => FreeVars(a) + FreeVars(b)
    case IsNil(a) => FreeVars(a)
    case MkSeq(a, b) => FreeVars(a) + FreeVars(b)
    case SeqLen(a) => FreeVars(a)
    case SeqCap(a) => FreeVars(a)
    case _ => {}
  }

  lemma BinInRange(op: BinOp, w: nat, x: nat, y: nat)
    requires x < Pow2(w) && y < Pow2(w)
    ensures BinVal(op, w, x, y) < Pow2(w)
  {
    match op
    case UremOp =>
    case SremOp =>
      MagnitudeIsAbs(w, x);
      MagnitudeIsAbs(w, y);
    case SdivOp =>
      MagnitudeIsAbs(w, x);
    case _ =>
  }

  lemma {:induction false} EvalSorted(t: Term, m: Model)
    requires WellSorted(t) && Sorted(t, m)
    ensures HasSort(Eval(t, m), SortOf(t))
  {
    hide BinVal, CmpVal, Pow2;
    match t
    case Var(x, s) =>
      assert (x, s) in FreeVars(t);
    case Ite(c, a, b) =>
      EvalSorted(a, m);
      EvalSorted(b, m);
    case BvBin(op, a, b) =>
      EvalSorted(a, m);
      EvalSorted(b, m);
      BinInRange(op, SortOf(a).width, Eval(a, m).n, Eval(b, m).n);
    case MkSeq(a, b) =>
      EvalSorted(a, m);
      EvalSorted(b, m);
    case SeqLen(a) =>
      EvalSorted(a, m);
    case SeqCap(a) =>
      EvalSorted(a, m);
    case _ =>
  }

  // ---- structure ----

  function Children(t: Term): seq<Term> {
    match t
    case Not(a) => [a]
    case And(ts) => ts
    case Or(ts) => ts
    case Eq(a, b) => [a, b]
    case Ite(c, a, b) => [c, a, b]
    case BvBin(_, a, b) => [a, b]
    case BvCmp(_, a, b) => [a, b]
    case IsNil(a) => [a]
    case MkSeq(a, b) => [a, b]
    case SeqLen(a) => [a]
    case SeqCap(a) => [a]
    case _ => []
  }

  lemma ChildrenSmaller(t: Term)
    ensures forall a :: a in Children(t) ==> a < t && FreeVars(a) <= FreeVars(t)
  {
  }

  lemma ChildrenCover(t: Term, v: (Name, Sort))
    requires v in FreeVars(t) && !t.Var?
    ensures exists a :: a in Children(t) && v in FreeVars(a)
  {
    if t.And? || t.Or? {
      var a :| a in t.ts && v in FreeVars(a);
      assert a in Children(t);
    } else {
      assert |Children(t)| > 0 && Children(t)[0] in Children(t);
      assert |Children(t)| > 1 ==> Children(t)[1] in Children(t);
      assert |Children(t)| > 2 ==> Children(t)[2] in Children(t);
    }
  }

  ghost predicate SameValue(a: Term, m: Model, a': Term, m': Model) {
    Eval(a, m) == Eval(a', m')
  }

  /** The value of a compound term is determined by its children's. */
  lemma EvalFromChildren(t: Term, m: Model, m': Model)
    requires !t.Var? && forall a :: a in Children(t) ==> SameValue(a, m, a, m')
    ensures Eval(t, m) == Eval(t, m')
  {
    hide BinVal, CmpVal, SortOf;
    var cs := Children(t);
    assert |cs| > 0 ==> SameValue(cs[0], m, cs[0], m');
    assert |cs| > 1 ==> SameValue(cs[1], m, cs[1], m');
    assert |cs| > 2 ==> SameValue(cs[2], m, cs[2], m');
  }

  /** The value depends only on the free variables. */
  lemma {:induction false} EvalAgrees(t: Term, m: Model, m': Model)
    requires forall v :: v in FreeVars(t) ==> (v.0 in m <==> v.0 in m') && (v.0 in m ==> m[v.0] == m'[v.0])
    ensures Eval(t, m) == Eval(t, m')
  {
    if t.Var? {
      assert (t.name, t.sort) in FreeVars(t);
    } else {
      ChildrenSmaller(t);
      forall a | a in Children(t)
        ensures SameValue(a, m, a, m')
      {
        EvalAgrees(a, m, m');
      }
      EvalFromChildren(t, m, m');
    }
  }

  // ---- substitution ----

  type Subst = map<Name, Term>

  /** Simultaneous sort-checked substitution; None when a replacement has another sort. */
  function Substitute(t: Term, m: Subst): Option<Term> {
    match t
    case Var(x, s) =>
      if x !in m then Some(t) else if SortOf(m[x]) == s then Some(m[x]) else None
    case Not(a) =>
      var a' :- Substitute(a, m);
      Some(Not(a'))
    case And(ts) =>
      if forall a | a in ts :: Substitute(a, m).Some?
      then Some(And(seq(|ts|, i requires 0 <= i < |ts| => Substitute(ts[i], m).value)))
      else None
    case Or(ts) =>
      if forall a | a in ts :: Substitute(a, m).Some?
      then Some(Or(seq(|ts|, i requires 0 <= i < |ts| => Substitute(ts[i], m).value)))
      else None
    case Eq(a, b) =>
      var a' :- Substitute(a, m);
      var b' :- Substitute(b, m);
      Some(Eq(a', b'))
    case Ite(c, a, b) =>
      var c' :- Substitute(c, m);
      var a' :- Substitute(a, m);
      var b' :- Substitute(b, m);
      Some(Ite(c', a', b'))
    case BvBin(op, a, b) =>
      var a' :- Substitute(a, m);
      var b' :- Substitute(b, m);
      Some(BvBin(op, a', b'))
    case BvCmp(op, a, b) =>
      var a' :- Substitute(a, m);
      var b' :- Substitute(b, m);
      Some(BvCmp(op, a', b'))
    case IsNil(a) =>
      var a' :- Substitute(a, m);
      Some(IsNil(a'))
    case MkSeq(a, b) =>
      var a' :- Substitute(a, m);
      var b' :- Substitute(b, m);
      Some(MkSeq(a', b'))
    case SeqLen(a) =>
      var a' :- Substitute(a, m);
      Some(SeqLen(a'))
    case SeqCap(a) =>
      var a' :- Substitute(a, m);
      Some(SeqCap(a'))
    case _ => Some(t)
  }

  lemma {:induction false} SubstituteSort(t: Term, s: Subst)
    requires Substitute(t, s).Some?
    ensures SortOf(Substitute(t, s).value) == SortOf(t)
  {
    match t
    case Ite(_, a, _) => SubstituteSort(a, s);
    case BvBin(_, a, _) => SubstituteSort(a, s);
    case _ =>
  }

  lemma ChildrenSubstituted(t: Term, s: Subst, a: Term)
    requires Substitute(t, s).Some? && a in Children(t)
    ensures Substitute(a, s).Some?
  {
  }

  /** Substituting terms of the variables' sorts always succeeds. */
  lemma {:induction false} SubstituteSucceeds(t: Term, s: Subst)
    requires forall v :: v in FreeVars(t) && v.0 in s ==> SortOf(s[v.0]) == v.1
    ensures Substitute(t, s).Some?
  {
    if t.Var? {
      assert (t.name, t.sort) in FreeVars(t);
    } else {
      ChildrenSmaller(t);
      forall a | a in Children(t)
        ensures Substitute(a, s).Some?
      {
        SubstituteSucceeds(a, s);
      }
      ChildrenSucceed(t, s);
    }
  }

  lemma ChildrenSucceed(t: Term, s: Subst)
    requires !t.Var? && forall a :: a in Children(t) ==> Substitute(a, s).Some?
    ensures Substitute(t, s).Some?
  {
    var cs := Children(t);
    assert |cs| > 0 ==> cs[0] in cs;
    assert |cs| > 1 ==> cs[1] in cs;
    assert |cs| > 2 ==> cs[2] in cs;
  }

  /** Substitution succeeds only when every replacement has its variable's sort. */
  lemma {:induction false} SubstituteSorts(t: Term, s: Subst, v: (Name, Sort))
    requires Substitute(t, s).Some? && v in FreeVars(t) && v.0 in s
    ensures SortOf(s[v.0]) == v.1
  {
    if !t.Var? {
      ChildrenCover(t, v);
      ChildrenSmaller(t);
      var a :| a in Children(t) && v in FreeVars(a);
      ChildrenSubstituted(t, s, a);
      SubstituteSorts(a, s, v);
    }
  }

  /** A variable left after substituting all of a term's variables comes from some replacement. */
  lemma {:induction false} SubstituteVars(t: Term, s: Subst, x: (Name, Sort)) returns (y: (Name, Sort))
    requires Substitute(t, s).Some? && x in FreeVars(Substitute(t, s).value)
    requires forall v :: v in FreeVars(t) ==> v.0 in s
    ensures y in FreeVars(t) && x in FreeVars(s[y.0])
  {
    if t.Var? {
      y := (t.name, t.sort);
    } else {
      var a := SubstituteChild(t, s, x);
      ChildrenSmaller(t);
      y := SubstituteVars(a, s, x);
    }
  }

  lemma SubstituteChild(t: Term, s: Subst, x: (Name, Sort)) returns (a: Term)
    requires !t.Var? && Substitute(t, s).Some? && x in FreeVars(Substitute(t, s).value)
    ensures a in Children(t) && Substitute(a, s).Some? && x in FreeVars(Substitute(a, s).value)
  {
    if t.And? || t.Or? {
      var us := Substitute(t, s).value.ts;
      var u :| u in us && x in FreeVars(u);
      var i :| 0 <= i < |us| && us[i] == u;
      a := t.ts[i];
    } else {
      var cs := Children(t);
      assert |cs| > 0;
      a := cs[0];
      if |cs| > 1 && x !in FreeVars(Substitute(a, s).value) {
        a := cs[1];
      }
      if |cs| > 2 && x !in FreeVars(Substitute(a, s).value) {
        a := cs[2];
      }
    }
  }

  /** The value of every replaced variable is the value of its replacement. */
  ghost predicate Substituted(t: Term, s: Subst, m: Model, inner: Model) {
    forall v :: v in FreeVars(t) ==> Eval(Var(v.0, v.1), inner) == Eval(if v.0 in s then s[v.0] else Var(v.0, v.1), m)
  }

  /** Evaluating after substitution is evaluating where each variable has its replacement's value. */
  lemma {:induction false} SubstituteEval(t: Term, s: Subst, m: Model, inner: Model)
    requires Substitute(t, s).Some? && Substituted(t, s, m, inner)
    ensures Eval(Substitute(t, s).value, m) == Eval(t, inner)
  {
    if t.Var? {
      assert (t.name, t.sort) in FreeVars(t);
    } else {
      ChildrenSmaller(t);
      forall a | a in Children(t)
        ensures Substitute(a, s).Some? && SameValue(Substitute(a, s).value, m, a, inner)
      {
        ChildrenSubstituted(t, s, a);
        SubstituteEval(a, s, m, inner);
      }
      SubstituteFromChildren(t, s, m, inner);
    }
  }

  lemma SubstituteFromChildren(t: Term, s: Subst, m: Model, inner: Model)
    requires !t.Var? && Substitute(t, s).Some?
    requires forall a :: a in Children(t) ==> Substitute(a, s).Some? && SameValue(Substitute(a, s).value, m, a, inner)
    ensures Eval(Substitute(t, s).value, m) == Eval(t, inner)
  {
    hide BinVal, CmpVal;
    var cs := Children(t);
    assert |cs| > 0 ==> SameValue(Substitute(cs[0], s).value, m, cs[0], inner);
    assert |cs| > 1 ==> SameValue(Substitute(cs[1], s).value, m, cs[1], inner);
    assert |cs| > 2 ==> SameValue(Substitute(cs[2], s).value, m, cs[2], inner);
    if t.And? || t.Or? {
      SubstituteEvalAll(t, s, m, inner);
    } else if t.BvBin? {
      SubstituteSort(t.l, s);
    }
  }

  lemma SubstituteEvalAll(t: Term, s: Subst, m: Model, inner: Model)
    requires (t.And? || t.Or?) && Substitute(t, s).Some?
    requires forall a :: a in t.ts ==> Substitute(a, s).Some? && SameValue(Substitute(a, s).value, m, a, inner)
    ensures Eval(Substitute(t, s).value, m) == Eval(t, inner)
  {
    hide Eval;
    var us := seq(|t.ts|, i requires 0 <= i < |t.ts| => Substitute(t.ts[i], s).value);
    assert Substitute(t, s).value == if t.And? then And(us) else Or(us);
    forall i | 0 <= i < |us|
      ensures SameValue(us[i], m, t.ts[i], inner)
    {
      assert t.ts[i] in t.ts;
    }
    ListsAgree(us, t.ts, m, inner);
  }

  lemma ListsAgree(us: seq<Term>, ts: seq<Term>, m: Model, inner: Model)
    requires |us| == |ts| && forall i :: 0 <= i < |us| ==> SameValue(us[i], m, ts[i], inner)
    ensures Eval(And(us), m) == Eval(And(ts), inner) && Eval(Or(us), m) == Eval(Or(ts), inner)
  {
    hide Eval;
    JunctionMeaning(us, m);
    JunctionMeaning(ts, inner);
    forall i | 0 <= i < |us|
      ensures Eval(us[i], m) == Eval(ts[i], inner)
    {
      assert SameValue(us[i], m, ts[i], inner);
    }
  }

  /** Conjunction and disjunction, position by position. */
  lemma JunctionMeaning(ts: seq<Term>, m: Model)
    ensures Eval(And(ts), m) == BoolVal(forall i :: 0 <= i < |ts| ==> Eval(ts[i], m) == BoolVal(true))
    ensures Eval(Or(ts), m) == BoolVal(exists i :: 0 <= i < |ts| && Eval(ts[i], m) == BoolVal(true))
  {
    hide BinVal, CmpVal, SortOf;
    if i :| 0 <= i < |ts| && Eval(ts[i], m) == BoolVal(true) {
      assert ts[i] in ts;
    }
    assert forall a :: a in ts ==> exists i :: 0 <= i < |ts| && ts[i] == a;
  }

  // ---- queries ----

  /** A solver query: what is declared and what is asserted. */
  datatype Query = Query(consts: set<(Name, Sort)>, asserts: seq<Term>)

  ghost predicate Models(m: Model, q: Query) {
    && (forall c :: c in q.consts ==> c.0 in m && HasSort(m[c.0], c.1))
    && forall t :: t in q.asserts ==> Holds(t, m)
  }

  ghost predicate Satisfiable(q: Query) {
    exists m :: Models(m, q)
  }
}
