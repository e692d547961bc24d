/**
 * The C `int` of the interpreter: 32-bit two's complement, with the
 * division and remainder operators of C99, which truncate toward zero
 * (Dafny's own `/` and `%` are Euclidean).
 */
module CInt {

  const INT_MIN: int := -0x8000_0000
  const INT_MAX: int := 0x7FFF_FFFF

  type Int32 = x: int | -0x8000_0000 <= x <= 0x7FFF_FFFF

  predicate InInt32(x: int) {
    INT_MIN <= x <= INT_MAX
  }

  /** C's `abs` on an argument whose magnitude is representable. */
  function Abs(x: int): (r: nat)
    ensures r == x || r == -x
  {
    if x < 0 then -x else x
  }

  /** C99 `a / b`: the algebraic quotient with any fractional part discarded. */
  function Div(a: int, b: int): (q: int)
    requires b != 0
    ensures Abs(q) == Abs(a) / Abs(b)
    ensures (a < 0) == (b < 0) ==> q >= 0
    ensures (a < 0) != (b < 0) ==> q <= 0
  {
    var aa: nat, bb: nat := Abs(a), Abs(b);
    Euclid(aa, bb);
    if (a < 0) == (b < 0) then aa / bb else -(aa / bb)
  }

  /**
   * C99 `a % b`, defined so that `(a / b) * b + a % b == a`: the remainder of
   * the magnitudes, carrying the sign of the dividend.
   */
  function Rem(a: int, b: int): (m: int)
    requires b != 0
    ensures Div(a, b) * b + m == a
    ensures m == if a >= 0 then Abs(a) % Abs(b) else -(Abs(a) % Abs(b))
  {
    TruncatedRemainder(a, b);
    a - Div(a, b) * b
  }

  /**
   * The truncating quotient is the one whose remainder is smaller than the
   * divisor in magnitude and carries the sign of the dividend.
   */
  lemma DivRem(a: int, b: int)
    requires b != 0
    ensures Div(a, b) * b + Rem(a, b) == a
    ensures Abs(Rem(a, b)) < Abs(b)
    ensures a >= 0 ==> Rem(a, b) >= 0
    ensures a <= 0 ==> Rem(a, b) <= 0
    ensures Abs(Div(a, b)) * Abs(b) <= Abs(a)
  {
    Euclid(Abs(a), Abs(b));
  }

  /** Dafny's division on naturals, which the truncating one is built from. */
  lemma Euclid(aa: nat, bb: nat)
    requires bb > 0
    ensures aa == (aa / bb) * bb + aa % bb
    ensures 0 <= aa % bb < bb && 0 <= aa / bb
    ensures (aa / bb) * bb <= aa
  {
  }

  /** What is left of the dividend after the truncating quotient is taken out. */
  lemma TruncatedRemainder(a: int, b: int)
    requires b != 0
    ensures a - Div(a, b) * b == if a >= 0 then Abs(a) % Abs(b) else -(Abs(a) % Abs(b))
  {
    var aa: int, bb: int := Abs(a), Abs(b);
    var q: int, m: int := aa / bb, aa % bb;
    var d: int := Div(a, b);
    assert aa == q * bb + m;
    if a >= 0 && b > 0 {
      assert d * b == q * bb;
    } else if a >= 0 {
      assert d == -q && b == -bb;
      NegateBoth(q, bb);
    } else if b > 0 {
      assert d == -q && b == bb;
      NegateOne(q, bb);
    } else {
      assert d == q && b == -bb;
      NegateOne(bb, q);
    }
  }

  lemma NegateBoth(x: int, y: int)
    ensures (-x) * (-y) == x * y
  {
  }

  lemma NegateOne(x: int, y: int)
    ensures (-x) * y == -(x * y) && y * (-x) == -(x * y)
  {
  }

  /** The only int quotient that overflows is INT_MIN / -1. */
  lemma DivInRange(a: Int32, b: Int32)
    requires b != 0
    ensures InInt32(Div(a, b)) <==> !(a == INT_MIN && b == -1)
  {
    var aa: nat, bb: nat := Abs(a), Abs(b);
    var q: nat := aa / bb;
    assert Abs(Div(a, b)) == q;
    if bb == 1 {
      assert q == aa by { Euclid(aa, bb); }
      assert Div(a, b) == if b == 1 then a as int else -(a as int);
    } else {
      assert q * bb <= aa by { Euclid(aa, bb); }
      assert 2 * q <= q * bb by { MulMono(q, 2, bb); }
      assert q <= 0x4000_0000;
    }
  }

  lemma MulMono(x: nat, y: nat, z: nat)
    requires y <= z
    ensures y * x <= x * z
  {
  }
}
