/**
 * Java's 32-bit `int` arithmetic (JLS 15.17, 15.18, 15.19, 15.22), written out
 * over Dafny's unbounded integers: every result wraps to 32 bits, division
 * truncates toward zero, the remainder takes the sign of the dividend, and a
 * shift uses only the low five bits of its distance.
 */
module JavaInt {

  const TWO_32: int := 0x1_0000_0000
  const MIN_INT: int := -0x8000_0000
  const MAX_INT: int := 0x7fff_ffff

  type Int32 = x: int | -0x8000_0000 <= x < 0x8000_0000

  /** Two's-complement wrap-around: the unique Int32 congruent to x modulo 2^32. */
  function Wrap(x: int): (r: Int32)
    ensures (r - x) % TWO_32 == 0
    ensures MIN_INT <= x <= MAX_INT ==> r == x
  {
    var m := x % TWO_32;
    if m < 0x8000_0000 then m else m - TWO_32
  }

  function Add(a: Int32, b: Int32): Int32 { Wrap(a + b) }
  function Sub(a: Int32, b: Int32): Int32 { Wrap(a - b) }
  function Mul(a: Int32, b: Int32): Int32 { Wrap(a * b) }

  function Abs(x: int): nat { if x < 0 then -x else x }

  /** The mathematical quotient rounded toward zero (before wrapping). */
  function TruncQuot(a: int, b: int): int
    requires b != 0
  {
    if (a < 0) == (b < 0) then Abs(a) / Abs(b) else -(Abs(a) / Abs(b))
  }

  /** `a / b` on int; MIN_INT / -1 overflows back to MIN_INT. */
  function Div(a: Int32, b: Int32): Int32
    requires b != 0
  {
    Wrap(TruncQuot(a, b))
  }

  /** `a % b` on int: the magnitude is |a| mod |b|, the sign is the dividend's. */
  function Rem(a: Int32, b: Int32): Int32
    requires b != 0
  {
    assert Abs(a) % Abs(b) < Abs(b) <= 0x8000_0000;
    if a < 0 then -(Abs(a) % Abs(b)) else Abs(a) % Abs(b)
  }

  function Pow2(n: nat): (r: nat)
    ensures r > 0
  {
    if n == 0 then 1 else 2 * Pow2(n - 1)
  }

  /** The shift distance: the low five bits of the right operand. */
  function Distance(s: Int32): nat
    ensures Distance(s) < 32
  {
    s % 32
  }

  function Shl(a: Int32, s: Int32): Int32 { Wrap(a * Pow2(Distance(s))) }

  /** Arithmetic shift right: floor division by a power of two. */
  function Shr(a: Int32, s: Int32): Int32
  {
    ShrBound(a, Distance(s));
    a / Pow2(Distance(s))
  }

  /** The unsigned reading of the 32 bits of a. */
  function Unsigned(a: Int32): (u: nat)
    ensures u < TWO_32
  {
    a % TWO_32
  }

  /** Logical shift right: zeros come in from the left. */
  function Ushr(a: Int32, s: Int32): Int32 { Wrap(Unsigned(a) / Pow2(Distance(s))) }

  /** Bitwise AND, OR and XOR of two naturals, one binary digit at a time. */
  function AndNat(x: nat, y: nat): nat
  {
    if x == 0 || y == 0 then 0
    else 2 * AndNat(x / 2, y / 2) + (if x % 2 == 1 && y % 2 == 1 then 1 else 0)
  }

  function OrNat(x: nat, y: nat): nat
    decreases x + y
  {
    if x == 0 then y
    else if y == 0 then x
    else 2 * OrNat(x / 2, y / 2) + (if x % 2 == 1 || y % 2 == 1 then 1 else 0)
  }

  function XorNat(x: nat, y: nat): nat
    decreases x + y
  {
    if x == 0 then y
    else if y == 0 then x
    else 2 * XorNat(x / 2, y / 2) + (if x % 2 != y % 2 then 1 else 0)
  }

  /** The bitwise operators work on the two's-complement bits of both operands. */
  function And(a: Int32, b: Int32): Int32 { Wrap(AndNat(Unsigned(a), Unsigned(b))) }
  function Or(a: Int32, b: Int32): Int32 { Wrap(OrNat(Unsigned(a), Unsigned(b))) }
  function Xor(a: Int32, b: Int32): Int32 { Wrap(XorNat(Unsigned(a), Unsigned(b))) }

  lemma ShrBound(a: Int32, k: nat)
    ensures MIN_INT <= a / Pow2(k) <= MAX_INT
  {
    DivByPositive(a, Pow2(k));
  }

  /** Dividing by a positive number moves a value toward zero without passing it. */
  lemma DivByPositive(a: int, p: int)
    requires p >= 1
    ensures a >= 0 ==> 0 <= a / p <= a
    ensures a < 0 ==> a <= a / p < 0
  {
    QuotientBounds(a, p, a / p, a % p);
  }

  lemma QuotientBounds(a: int, p: int, q: int, r: int)
    requires p >= 1 && a == q * p + r && 0 <= r < p
    ensures a >= 0 ==> 0 <= q <= a
    ensures a < 0 ==> a <= q < 0
  {
    MulSplit(q, p);
    if q >= 0 {
      MulSign(q, p - 1);
    } else {
      MulSign(-q, p - 1);
      MulSign(-q - 1, p);
      assert (-q - 1) * p == -q * p - p;
    }
  }

  lemma MulSplit(q: int, p: int)
    ensures q * p == q * (p - 1) + q
  {
  }

  lemma MulSign(x: int, y: int)
    requires x >= 0 && y >= 0
    ensures x * y >= 0
  {
  }

  /** Two integers congruent modulo 2^32 wrap to the same int. */
  lemma {:induction false} WrapCongruent(x: int, y: int)
    requires (x - y) % TWO_32 == 0
    ensures Wrap(x) == Wrap(y)
  {
    var k := (x - y) / TWO_32;
    assert x == y + k * TWO_32;
    ModShift(y, k);
  }

  lemma ModShift(y: int, k: int)
    ensures (y + k * TWO_32) % TWO_32 == y % TWO_32
  {
  }

  /** Overflow wraps around: MAX_INT + 1 == MIN_INT (JLS 15.18.2). */
  lemma AddOverflowWraps()
    ensures Add(MAX_INT, 1) == MIN_INT
    ensures Sub(MIN_INT, 1) == MAX_INT
  {
  }

  /** JLS 15.18.2: a sum beyond the int range is off by exactly 2^32, in the direction that brings it back. */
  lemma AddWraps(a: Int32, b: Int32)
    ensures a + b > MAX_INT ==> Add(a, b) == a + b - TWO_32
    ensures a + b < MIN_INT ==> Add(a, b) == a + b + TWO_32
    ensures MIN_INT <= a + b <= MAX_INT ==> Add(a, b) == a + b
  {
  }

  /**
   * JLS 15.17.3: (a / b) * b + (a % b) == a for every int a and non-zero int b,
   * the overflow case MIN_INT / -1 included.
   */
  lemma {:induction false} DivRemIdentity(a: Int32, b: Int32)
    requires b != 0
    ensures Add(Mul(Div(a, b), b), Rem(a, b)) == a
  {
    var q := TruncQuot(a, b);
    var r := Rem(a, b);
    TruncQuotIdentity(a, b);
    var w := Div(a, b);
    MulCongruent(w, q, b);
    WrapCongruent(Wrap(w * b) + r, q * b + r);
  }

  /** Before wrapping, the truncated quotient and the remainder recombine to the dividend. */
  lemma TruncQuotIdentity(a: int, b: int)
    requires b != 0
    ensures TruncQuot(a, b) * b + (if a < 0 then -(Abs(a) % Abs(b)) else Abs(a) % Abs(b)) == a
  {
    var n: int, d: int := Abs(a), Abs(b);
    var q0: int, r0: int := n / d, n % d;
    assert n == q0 * d + r0;
    Recombine(q0, d, r0, n);
  }

  /** The four sign combinations of dividend and divisor. */
  lemma Recombine(q0: int, d: int, r0: int, n: int)
    requires n == q0 * d + r0
    ensures (-q0) * (-d) + r0 == n
    ensures (-q0) * d + (-r0) == -n
    ensures q0 * (-d) + (-r0) == -n
  {
    NegMul(q0, d);
    NegMul(-q0, d);
  }

  lemma NegMul(x: int, y: int)
    ensures (-x) * y == -(x * y) && x * (-y) == -(x * y)
  {
  }

  lemma MulCongruent(w: int, q: int, b: int)
    requires (w - q) % TWO_32 == 0
    ensures (Wrap(w * b) - q * b) % TWO_32 == 0
  {
    var k := (w - q) / TWO_32;
    var r := Wrap(w * b);
    assert w - q == k * TWO_32;
    SubMul(w, q, b, k);
    assert r - q * b == (r - w * b) + (k * b) * TWO_32;
    ModShift(r - w * b, k * b);
  }

  lemma SubMul(w: int, q: int, b: int, k: int)
    requires w - q == k * TWO_32
    ensures w * b - q * b == (k * b) * TWO_32
  {
    assert w * b - q * b == (w - q) * b;
  }

  /** JLS 15.17.3: a non-zero remainder has the sign of the dividend and is smaller than the divisor. */
  lemma RemainderSign(a: Int32, b: Int32)
    requires b != 0
    ensures Rem(a, b) != 0 ==> (Rem(a, b) < 0 <==> a < 0)
    ensures Abs(Rem(a, b)) < Abs(b)
  {
  }

  /** JLS 15.17.2: the quotient is rounded toward zero, so -7 / 2 == -3 and -7 % 2 == -1. */
  lemma DivisionTruncates()
    ensures Div(-7, 2) == -3 && Rem(-7, 2) == -1
    ensures Div(7, -2) == -3 && Rem(7, -2) == 1
    ensures Div(MIN_INT, -1) == MIN_INT && Rem(MIN_INT, -1) == 0
  {
  }

  /**
   * JLS 15.17.2 for every int dividend and non-zero divisor: apart from the
   * one overflow MIN_INT / -1, the magnitude of the quotient is |a| / |b|
   * rounded down, and a non-zero quotient is negative exactly when the
   * operands' signs differ.
   */
  lemma DivRoundsTowardZero(a: Int32, b: Int32)
    requires b != 0
    ensures a == MIN_INT && b == -1 ==> Div(a, b) == MIN_INT
    ensures !(a == MIN_INT && b == -1) ==> Abs(Div(a, b)) == Abs(a) / Abs(b)
    ensures !(a == MIN_INT && b == -1) && Div(a, b) != 0 ==> (Div(a, b) < 0 <==> (a < 0) != (b < 0))
  {
    var n, d := Abs(a), Abs(b);
    DivByPositive(n, d);
    if d == 1 {
      assert n / d == n;
    } else {
      HalfBound(n, d);
    }
  }

  lemma HalfBound(n: nat, d: nat)
    requires d >= 2
    ensures n / d <= n / 2
  {
    var q := n / d;
    assert q * d <= n;
    MulSign(q, d - 2);
    assert q * 2 <= q * d;
  }

  /** JLS 15.19: only the low five bits of the distance count, so shifting by 32 is shifting by 0. */
  lemma ShiftDistanceMasked(a: Int32, s: Int32)
    requires s <= MAX_INT - 32
    ensures Shl(a, s + 32) == Shl(a, s)
    ensures Shr(a, s + 32) == Shr(a, s)
    ensures Ushr(a, s + 32) == Ushr(a, s)
    ensures Shl(a, 32) == a && Shr(a, 32) == a && Ushr(a, 32) == a
  {
    assert Distance(s + 32) == Distance(s) by {
      assert s + 32 == s + 1 * 32;
    }
    assert Distance(32) == 0 && Pow2(0) == 1;
    assert a * 1 == a && a / 1 == a && Unsigned(a) / 1 == Unsigned(a);
    assert Wrap(Unsigned(a)) == a;
  }

  /** On a non-negative int, >> and >>> agree; on -1, >> keeps -1 for every distance. */
  lemma ShiftsOnSign(a: Int32, s: Int32)
    ensures a >= 0 ==> Shr(a, s) == Ushr(a, s)
    ensures Shr(-1, s) == -1
  {
    var p: int := Pow2(Distance(s));
    DivByPositive(a, p);
    DivByPositive(-1, p);
    if a >= 0 {
      assert Unsigned(a) == a;
    }
  }

  /** Bitwise operators on small values. */
  lemma BitwiseExamples()
    ensures And(12, 10) == 8 && Or(12, 10) == 14 && Xor(12, 10) == 6
  {
    assert AndNat(3, 2) == 2 * AndNat(1, 1) + 0;
    assert AndNat(1, 1) == 1;
    assert OrNat(3, 2) == 2 * OrNat(1, 1) + 1;
    assert XorNat(3, 2) == 2 * XorNat(1, 1) + 1;
  }

  /** Bit k of a natural number, the least significant bit being bit 0. */
  predicate Bit(x: nat, k: nat)
  {
    if k == 0 then x % 2 == 1 else Bit(x / 2, k - 1)
  }

  /**
   * JLS 15.22.1: each bit of `a & b`, `a | b` and `a ^ b` is the AND, OR and
   * XOR of the same bit of the two operands, for all ints.
   */
  lemma BitwiseByBits(a: Int32, b: Int32, k: nat)
    ensures Bit(Unsigned(And(a, b)), k) == (Bit(Unsigned(a), k) && Bit(Unsigned(b), k))
    ensures Bit(Unsigned(Or(a, b)), k) == (Bit(Unsigned(a), k) || Bit(Unsigned(b), k))
    ensures Bit(Unsigned(Xor(a, b)), k) == (Bit(Unsigned(a), k) != Bit(Unsigned(b), k))
  {
    var x, y := Unsigned(a), Unsigned(b);
    Pow2Of32();
    BitwiseBounds(x, y, 32);
    UnsignedWrap(AndNat(x, y));
    UnsignedWrap(OrNat(x, y));
    UnsignedWrap(XorNat(x, y));
    AndBits(x, y, k);
    OrBits(x, y, k);
    XorBits(x, y, k);
  }

  lemma {:induction false} Pow2Add(m: nat, n: nat)
    ensures Pow2(m + n) == Pow2(m) * Pow2(n)
    decreases m
  {
    if m > 0 {
      Pow2Add(m - 1, n);
    }
  }

  lemma Pow2Of32()
    ensures Pow2(32) == TWO_32
  {
    assert Pow2(4) == 16 by {
      assert Pow2(1) == 2 && Pow2(2) == 4 && Pow2(3) == 8;
    }
    Pow2Add(4, 4);
    Pow2Add(8, 8);
    Pow2Add(16, 16);
  }

  /** Reading the bits of a wrapped 32-bit pattern gives the pattern back. */
  lemma UnsignedWrap(z: nat)
    requires z < TWO_32
    ensures Unsigned(Wrap(z)) == z
  {
  }

  lemma {:induction false} BitwiseBounds(x: nat, y: nat, n: nat)
    requires x < Pow2(n) && y < Pow2(n)
    ensures AndNat(x, y) < Pow2(n) && OrNat(x, y) < Pow2(n) && XorNat(x, y) < Pow2(n)
  {
    if n > 0 && x != 0 && y != 0 {
      BitwiseBounds(x / 2, y / 2, n - 1);
    }
  }

  lemma ZeroBit(k: nat)
    ensures !Bit(0, k)
  {
    if k > 0 {
      ZeroBit(k - 1);
    }
  }

  /** Splitting 2 * q + b, with b a binary digit, gives back q and b. */
  lemma Digit(q: nat, b: nat)
    requires b < 2
    ensures (2 * q + b) / 2 == q && (2 * q + b) % 2 == b
  {
  }

  lemma {:induction false} AndBits(x: nat, y: nat, k: nat)
    ensures Bit(AndNat(x, y), k) == (Bit(x, k) && Bit(y, k))
    decreases k
  {
    ZeroBit(k);
    if x != 0 && y != 0 {
      Digit(AndNat(x / 2, y / 2), if x % 2 == 1 && y % 2 == 1 then 1 else 0);
      if k > 0 {
        AndBits(x / 2, y / 2, k - 1);
      }
    }
  }

  lemma {:induction false} OrBits(x: nat, y: nat, k: nat)
    ensures Bit(OrNat(x, y), k) == (Bit(x, k) || Bit(y, k))
    decreases k
  {
    ZeroBit(k);
    if x != 0 && y != 0 {
      Digit(OrNat(x / 2, y / 2), if x % 2 == 1 || y % 2 == 1 then 1 else 0);
      if k > 0 {
        OrBits(x / 2, y / 2, k - 1);
      }
    }
  }

  lemma {:induction false} XorBits(x: nat, y: nat, k: nat)
    ensures Bit(XorNat(x, y), k) == (Bit(x, k) != Bit(y, k))
    decreases k
  {
    ZeroBit(k);
    if x != 0 && y != 0 {
      Digit(XorNat(x / 2, y / 2), if x % 2 != y % 2 then 1 else 0);
      if k > 0 {
        XorBits(x / 2, y / 2, k - 1);
      }
    }
  }

  lemma {:induction false} AndCommutes(x: nat, y: nat)
    ensures AndNat(x, y) == AndNat(y, x)
  {
    if x != 0 && y != 0 {
      AndCommutes(x / 2, y / 2);
    }
  }

  lemma {:induction false} XorSelf(x: nat)
    ensures XorNat(x, x) == 0
  {
    if x != 0 {
      XorSelf(x / 2);
    }
  }
}
