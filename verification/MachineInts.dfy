/**
  Fixed-width integers as bit patterns: the operations the solver's bit-vector theory performs,
  next to what the Go language defines on integer values, and the proofs that they agree.
 */
module MachineInts {
  function Pow2(n: nat): (p: nat)
    ensures p > 0
  {
    if n == 0 then 1 else 2 * Pow2(n - 1)
  }

  /** The two's-complement reading of a pattern. */
  function Signed(w: nat, x: nat): int {
    if 2 * x < Pow2(w) then x else x - Pow2(w)
  }

  /** The pattern of an integer at width w. */
  function Wrap(w: nat, i: int): (x: nat)
    ensures x < Pow2(w)
  {
    i % Pow2(w)
  }

  /** The integer a pattern stands for, given the signedness of its type. */
  function Reading(w: nat, signed: bool, x: nat): int {
    if signed then Signed(w, x) else x
  }

  // ---- modular arithmetic ----

  lemma ModUnique(a: int, m: int, q: int, r: int)
    requires m > 0 && a == q * m + r && 0 <= r < m
    ensures a % m == r && a / m == q
  {
    var q', r' := a / m, a % m;
    assert a == q' * m + r';
    assert (q - q') * m == r' - r;
    if q > q' {
      MulAtLeast(q - q', m);
    } else if q < q' {
      assert (q' - q) * m == r - r';
      MulAtLeast(q' - q, m);
    }
  }

  lemma MulAtLeast(k: int, m: int)
    requires k >= 1 && m > 0
    ensures k * m >= m
  {
    assert k * m == (k - 1) * m + m;
    MulNonNegative(k - 1, m);
  }

  lemma MulNonNegative(a: int, b: int)
    requires a >= 0 && b >= 0
    ensures a * b >= 0
  {
  }

  lemma ModShift(a: int, k: int, m: int)
    requires m > 0
    ensures (a + k * m) % m == a % m
  {
    var q, r := a / m, a % m;
    assert a + k * m == (q + k) * m + r;
    ModUnique(a + k * m, m, q + k, r);
  }

  lemma WrapShift(w: nat, a: int, k: int)
    ensures Wrap(w, a + k * Pow2(w)) == Wrap(w, a)
  {
    ModShift(a, k, Pow2(w));
  }

  lemma WrapSmall(w: nat, a: int)
    requires 0 <= a < Pow2(w)
    ensures Wrap(w, a) == a
  {
    ModUnique(a, Pow2(w), 0, a);
  }

  /** How many times the modulus a reading adds to its pattern. */
  function Turns(w: nat, signed: bool, x: nat): int {
    if signed && 2 * x >= Pow2(w) then -1 else 0
  }

  lemma WrapReading(w: nat, signed: bool, x: nat)
    requires x < Pow2(w)
    ensures Reading(w, signed, x) == x + Turns(w, signed, x) * Pow2(w)
    ensures Wrap(w, Reading(w, signed, x)) == x
  {
    WrapSmall(w, x);
    WrapShift(w, x, Turns(w, signed, x));
  }

  /** A pattern read back from an integer that fits is that integer. */
  lemma ReadingWrap(w: nat, signed: bool, i: int)
    requires w > 0 && Fits(w, signed, i)
    ensures Reading(w, signed, Wrap(w, i)) == i
  {
    if i >= 0 {
      WrapSmall(w, i);
    } else {
      WrapShift(w, i, 1);
      assert i + 1 * Pow2(w) == i + Pow2(w);
      WrapSmall(w, i + Pow2(w));
    }
  }

  /** The value range of an integer type. */
  predicate Fits(w: nat, signed: bool, i: int) {
    if signed then 0 - Pow2(w) <= 2 * i < Pow2(w) else 0 <= i < Pow2(w)
  }

  lemma ReadingFits(w: nat, signed: bool, x: nat)
    requires w > 0 && x < Pow2(w)
    ensures Fits(w, signed, Reading(w, signed, x))
  {
  }

  lemma Pow2Monotone(a: nat, b: nat)
    requires a <= b
    ensures Pow2(a) <= Pow2(b)
    ensures a < b ==> 2 * Pow2(a) <= Pow2(b)
  {
    if a < b {
      Pow2Monotone(a, b - 1);
    }
  }

  lemma Pow2Sum(a: nat, b: nat)
    ensures Pow2(a + b) == Pow2(a) * Pow2(b)
  {
    if b > 0 {
      Pow2Sum(a, b - 1);
      assert Pow2(a + b) == 2 * Pow2(a + (b - 1));
    }
  }

  // ---- bit-vector operations, as SMT-LIB defines them ----

  datatype BitKind = AndBits | OrBits | XorBits

  function BitOf(k: BitKind, a: nat, b: nat): (r: nat)
    requires a < 2 && b < 2
    ensures r < 2
  {
    match k
    case AndBits => if a == 1 && b == 1 then 1 else 0
    case OrBits => if a == 1 || b == 1 then 1 else 0
    case XorBits => if a != b then 1 else 0
  }

  function Bitwise(k: BitKind, w: nat, x: nat, y: nat): (r: nat)
    ensures r < Pow2(w)
  {
    if w == 0 then 0
    else 2 * Bitwise(k, w - 1, x / 2, y / 2) + BitOf(k, x % 2, y % 2)
  }

  function Negate(w: nat, x: nat): nat {
    Wrap(w, 0 - x)
  }

  function Quotient(a: nat, b: nat): (q: nat)
    requires b > 0
    ensures q <= a
  {
    QuotientSmall(a, b);
    a / b
  }

  /** Division rounding toward minus infinity, which is what shifting a signed value right does. */
  function Floor(a: int, b: nat): int
    requires b > 0
  {
    a / b
  }

  function Udiv(w: nat, x: nat, y: nat): nat {
    if y == 0 then Pow2(w) - 1 else Quotient(x, y)
  }

  function Urem(x: nat, y: nat): nat {
    if y == 0 then x else x % y
  }

  predicate Negative(w: nat, x: nat) {
    2 * x >= Pow2(w)
  }

  function Magnitude(w: nat, x: nat): nat {
    if Negative(w, x) then Negate(w, x) else x
  }

  function Sdiv(w: nat, x: nat, y: nat): nat {
    var q := Udiv(w, Magnitude(w, x), Magnitude(w, y));
    if Negative(w, x) == Negative(w, y) then q else Negate(w, q)
  }

  function Srem(w: nat, x: nat, y: nat): nat {
    var r := Urem(Magnitude(w, x), Magnitude(w, y));
    if Negative(w, x) then Negate(w, r) else r
  }

  function Shl(w: nat, x: nat, y: nat): nat {
    if y >= w then 0 else Wrap(w, x * Pow2(y))
  }

  function Lshr(w: nat, x: nat, y: nat): nat {
    if y >= w then 0 else Quotient(x, Pow2(y))
  }

  function Ashr(w: nat, x: nat, y: nat): nat {
    if y >= w then (if Negative(w, x) then Pow2(w) - 1 else 0)
    else Wrap(w, Floor(Signed(w, x), Pow2(y)))
  }

  // ---- what Go defines ----

  function Abs(a: int): nat {
    if a < 0 then -a else a
  }

  /** Integer division truncated toward zero. */
  function TruncDiv(a: int, b: int): int
    requires b != 0
  {
    var q := Quotient(Abs(a), Abs(b));
    if (a < 0) == (b < 0) then q else 0 - q
  }

  function TruncRem(a: int, b: int): int
    requires b != 0
  {
    a - TruncDiv(a, b) * b
  }

  /** The two defining properties of the language: x = q*y + r with r smaller than y and signed like x. */
  lemma TruncDefined(a: int, b: int)
    requires b != 0
    ensures a == TruncDiv(a, b) * b + TruncRem(a, b)
    ensures Abs(TruncRem(a, b)) < Abs(b)
    ensures TruncRem(a, b) != 0 ==> (TruncRem(a, b) < 0) == (a < 0)
    ensures TruncRem(a, b) == if a < 0 then -(Abs(a) % Abs(b)) else Abs(a) % Abs(b)
  {
    var q := Quotient(Abs(a), Abs(b));
    assert Abs(a) == q * Abs(b) + Abs(a) % Abs(b);
    SignedProduct(q, b);
  }

  lemma SignedProduct(q: int, b: int)
    ensures q * b == if b < 0 then -(q * Abs(b)) else q * Abs(b)
    ensures (0 - q) * b == -(q * b)
  {
  }

  // ---- agreement ----

  lemma AddAgrees(w: nat, s: bool, x: nat, y: nat)
    requires x < Pow2(w) && y < Pow2(w)
    ensures Wrap(w, x + y) == Wrap(w, Reading(w, s, x) + Reading(w, s, y))
    ensures Wrap(w, x - y) == Wrap(w, Reading(w, s, x) - Reading(w, s, y))
  {
    hide Pow2, Reading, Wrap, Turns;
    WrapReading(w, s, x);
    WrapReading(w, s, y);
    var k, l := Turns(w, s, x), Turns(w, s, y);
    WrapShift(w, x + y, k + l);
    WrapShift(w, x - y, k - l);
    assert x + y + (k + l) * Pow2(w) == Reading(w, s, x) + Reading(w, s, y);
    assert x - y + (k - l) * Pow2(w) == Reading(w, s, x) - Reading(w, s, y);
  }

  lemma MulAgrees(w: nat, s: bool, x: nat, y: nat)
    requires x < Pow2(w) && y < Pow2(w)
    ensures Wrap(w, x * y) == Wrap(w, Reading(w, s, x) * Reading(w, s, y))
  {
    hide Pow2, Reading, Wrap, Turns;
    WrapReading(w, s, x);
    WrapReading(w, s, y);
    var k, l := Turns(w, s, x), Turns(w, s, y);
    MulShift(x, k, y, l, Pow2(w));
    WrapShift(w, x * y, MulTurns(x, k, y, l, Pow2(w)));
  }

  /** How many times the modulus the product of two shifted numbers adds to their product. */
  function MulTurns(x: int, k: int, y: int, l: int, m: int): int {
    (x + k * m) * l + k * y
  }

  lemma MulShift(x: int, k: int, y: int, l: int, m: int)
    ensures (x + k * m) * (y + l * m) == x * y + MulTurns(x, k, y, l, m) * m
  {
    var a := x + k * m;
    Distribute(a, y, l, m);
    Distribute(y, x, k, m);
    assert (a * l + k * y) * m == (a * l) * m + (k * y) * m;
  }

  lemma Distribute(a: int, y: int, l: int, m: int)
    ensures a * (y + l * m) == a * y + (a * l) * m
  {
    assert a * (l * m) == (a * l) * m;
  }

  lemma MagnitudeIsAbs(w: nat, x: nat)
    requires x < Pow2(w)
    ensures Magnitude(w, x) == Abs(Signed(w, x)) && (Negative(w, x) <==> Signed(w, x) < 0)
  {
    if Negative(w, x) {
      WrapShift(w, 0 - x, 1);
      assert 0 - x + 1 * Pow2(w) == Pow2(w) - x;
      WrapSmall(w, Pow2(w) - x);
    }
  }

  lemma QuotientSmall(a: nat, b: nat)
    requires b > 0
    ensures a / b <= a
  {
    assert a == (a / b) * b + a % b;
    if a / b > a {
      MulAtLeast(b, a / b);
    }
  }

  lemma SdivAgrees(w: nat, x: nat, y: nat)
    requires x < Pow2(w) && 0 < y < Pow2(w)
    ensures Signed(w, y) != 0 && Sdiv(w, x, y) == Wrap(w, TruncDiv(Signed(w, x), Signed(w, y)))
  {
    MagnitudeIsAbs(w, x);
    MagnitudeIsAbs(w, y);
    WrapSmall(w, Quotient(Magnitude(w, x), Magnitude(w, y)));
  }

  lemma SremAgrees(w: nat, x: nat, y: nat)
    requires x < Pow2(w) && 0 < y < Pow2(w)
    ensures Signed(w, y) != 0 && Srem(w, x, y) == Wrap(w, TruncRem(Signed(w, x), Signed(w, y)))
  {
    MagnitudeIsAbs(w, x);
    MagnitudeIsAbs(w, y);
    TruncDefined(Signed(w, x), Signed(w, y));
    var r := Abs(Signed(w, x)) % Abs(Signed(w, y));
    assert r < Abs(Signed(w, y)) <= Pow2(w);
    WrapSmall(w, r);
  }

  lemma Regroup(x: int, a: int, b: int)
    ensures x * (a * b) == (x * b) * a && (x * a) * b == (x * b) * a
  {
  }

  lemma ShlAgrees(w: nat, s: bool, x: nat, y: nat)
    requires x < Pow2(w)
    ensures Shl(w, x, y) == Wrap(w, Reading(w, s, x) * Pow2(y))
  {
    hide Reading, Wrap, Turns;
    WrapReading(w, s, x);
    var k := Turns(w, s, x);
    ShiftedReading(x, k, Pow2(w), Pow2(y));
    WrapShift(w, x * Pow2(y), k * Pow2(y));
    if y >= w {
      ShiftedOut(w, x, y);
    }
  }

  lemma ShiftedReading(x: int, k: int, m: int, p: int)
    ensures (x + k * m) * p == x * p + (k * p) * m
  {
    Regroup(k, m, p);
  }

  lemma ShiftedOut(w: nat, x: nat, y: nat)
    requires y >= w
    ensures Wrap(w, x * Pow2(y)) == 0
  {
    Pow2Sum(w, y - w);
    Regroup(x, Pow2(w), Pow2(y - w));
    WrapShift(w, 0, x * Pow2(y - w));
    WrapSmall(w, 0);
  }

  lemma ShrAgrees(w: nat, s: bool, x: nat, y: nat)
    requires w > 0 && x < Pow2(w)
    ensures (if s then Ashr(w, x, y) else Lshr(w, x, y)) == Wrap(w, Floor(Reading(w, s, x), Pow2(y)))
  {
    Pow2Monotone(if y >= w then w else 0, y);
    if y >= w {
      if s && Negative(w, x) {
        ModUnique(Signed(w, x), Pow2(y), -1, Signed(w, x) + Pow2(y));
        ModUnique(-1, Pow2(w), -1, Pow2(w) - 1);
      } else {
        ModUnique(x, Pow2(y), 0, x);
        WrapSmall(w, 0);
      }
    } else if !s {
      WrapSmall(w, Quotient(x, Pow2(y)));
    }
  }

  /** Complementing is xor with all ones. */
  lemma {:induction false} XorOnes(w: nat, x: nat)
    requires x < Pow2(w)
    ensures Bitwise(XorBits, w, x, Pow2(w) - 1) == Pow2(w) - 1 - x
  {
    if w > 0 {
      XorOnes(w - 1, x / 2);
      assert (Pow2(w) - 1) / 2 == Pow2(w - 1) - 1 && (Pow2(w) - 1) % 2 == 1;
    }
  }

  lemma ComplementAgrees(w: nat, s: bool, x: nat)
    requires x < Pow2(w)
    ensures Bitwise(XorBits, w, x, Pow2(w) - 1) == Wrap(w, -Reading(w, s, x) - 1)
    ensures Wrap(w, 0 - x) == Wrap(w, -Reading(w, s, x))
  {
    hide Reading, Wrap, Turns, Pow2;
    XorOnes(w, x);
    WrapReading(w, s, x);
    NegatedReading(x, Turns(w, s, x), Pow2(w));
    WrapShift(w, Pow2(w) - 1 - x, -Turns(w, s, x) - 1);
    WrapSmall(w, Pow2(w) - 1 - x);
    WrapShift(w, 0 - x, -Turns(w, s, x));
  }

  lemma NegatedReading(x: int, k: int, m: int)
    ensures -(x + k * m) == (0 - x) + (-k) * m
    ensures -(x + k * m) - 1 == (m - 1 - x) + (-k - 1) * m
  {
  }
}
