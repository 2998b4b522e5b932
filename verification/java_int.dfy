/** Java's 32-bit `int` and 8-bit `byte` arithmetic, written out over
    unbounded integers: two's-complement wrap-around, shifts, and the
    bitwise `&` and `|` computed bit by bit. Also the exception outcomes
    the legacy world layer can raise, as a `Result`. */
module JavaInt {

  const INT_MIN: int := -0x8000_0000
  const INT_MAX: int := 0x7fff_ffff
  const TWO_32: int := 0x1_0000_0000

  /** A Java `int`. */
  type Int32 = x: int | -0x8000_0000 <= x < 0x8000_0000

  /** A Java `byte` (signed). */
  type Byte = b: int | -128 <= b < 128

  /** The Java exceptions the modelled code can throw. */
  datatype JavaError =
    | IndexOutOfBounds   // ArrayIndexOutOfBoundsException
    | NegativeArraySize  // NegativeArraySizeException
    | NullPointer        // NullPointerException
    | NumberFormat       // NumberFormatException
    | IllegalArgument    // IllegalArgumentException
    | IOFailure          // IOException

  datatype Result<+T> = Ok(value: T) | Err(error: JavaError)

  datatype Option<+T> = None | Some(value: T)

  function Pow2(n: nat): (r: nat)
    ensures r >= 1
  {
    if n == 0 then 1 else 2 * Pow2(n - 1)
  }

  /** Two's-complement truncation to 32 bits, as every Java `int` operation does. */
  function Wrap(x: int): (r: Int32)
    ensures (r - x) % TWO_32 == 0
    ensures INT_MIN <= x <= INT_MAX ==> r == x
  {
    var u := x % TWO_32;
    if u <= INT_MAX then u else u - TWO_32
  }

  /** The narrowing cast `(byte) x`: keeps the low 8 bits, read as signed. */
  function ToByte(x: int): (r: Byte)
    ensures (r - x) % 256 == 0
    ensures -128 <= x < 128 ==> r == x
  {
    var u := x % 256;
    if u < 128 then u else u - 256
  }

  /** `x << n`: Java uses only the low five bits of the distance. */
  function Shl(x: Int32, n: Int32): Int32
  {
    Wrap(x * Pow2(n % 32))
  }

  /** `x >> n` for a constant distance below 32: arithmetic shift, that is
      division rounding toward negative infinity (Dafny's `/` with a
      positive divisor). */
  function Shr(x: Int32, n: nat): (r: Int32)
    requires n < 32
    ensures r == x / Pow2(n)
  {
    DivBounds(x, Pow2(n));
    x / Pow2(n)
  }

  /** `a % b` for a positive divisor: Java's remainder truncates toward
      zero, so it takes the sign of `a`. */
  function Rem(a: Int32, b: Int32): (r: Int32)
    requires b > 0
    ensures -b < r < b
    ensures a >= 0 ==> 0 <= r
    ensures a <= 0 ==> r <= 0
    ensures (a - r) % b == 0
  {
    if a >= 0 then
      ModFacts(a, b);
      a % b
    else
      ModFacts(-(a as int), b);
      NegateMultiple(-(a as int) - (-(a as int)) % b, b);
      -((-(a as int)) % b)
  }

  lemma ModFacts(a: int, b: int)
    requires b > 0
    ensures 0 <= a % b < b && (a - a % b) % b == 0
  {
    DivModUnique(a - a % b, b, a / b, 0);
  }

  lemma NegateMultiple(a: int, b: int)
    requires b > 0 && a % b == 0
    ensures (-a) % b == 0
  {
    DivModUnique(-a, b, -(a / b), 0);
  }

  lemma DivBounds(x: int, d: int)
    requires d >= 1
    ensures x >= 0 ==> 0 <= x / d <= x
    ensures x < 0 ==> x <= x / d < 0
  {
    var q, r := x / d, x % d;
    assert x == d * q + r && 0 <= r < d;
    if x >= 0 {
      if q < 0 {
        MulAtLeast(d, -q);
        assert false;
      }
      if q > x {
        MulAtLeast(q, d);
        assert false;
      }
    } else {
      if q >= 0 {
        MulNonNeg(d, q);
        assert false;
      }
      if q < x {
        MulAtLeast(-(q + 1), d);
        assert false;
      }
    }
  }

  lemma {:induction false} MulAtLeast(a: int, e: int)
    requires a >= 0 && e >= 1
    ensures a * e >= a
    decreases e
  {
    if e > 1 {
      MulAtLeast(a, e - 1);
      assert a * e == a * (e - 1) + a;
    }
  }

  lemma MulNonNeg(a: int, b: int)
    requires a >= 0 && b >= 0
    ensures a * b >= 0
  {
    if b > 0 {
      MulAtLeast(a, b);
    }
  }

  /** A multiple of `d` strictly between `-d` and `d` is zero. */
  lemma MulSmall(d: int, e: int)
    requires d > 0 && -d < d * e < d
    ensures e == 0
  {
    if e >= 1 {
      MulAtLeast(d, e);
      assert false;
    } else if e <= -1 {
      MulAtLeast(d, -e);
      assert false;
    }
  }

  /** The low 32 bits of a Java `int`, read as an unsigned number. */
  function Unsigned(a: Int32): (u: nat)
    ensures u < TWO_32
    ensures a >= 0 ==> u == a
  {
    if a < 0 then a + TWO_32 else a
  }

  /** Reads 32 bits as a signed `int`. */
  function FromBits(u: nat): (r: Int32)
    requires u < TWO_32
    ensures u <= INT_MAX ==> r == u
  {
    if u <= INT_MAX then u else u - TWO_32
  }

  /** Bitwise AND of two naturals, one binary digit at a time (0 when
      either operand is not positive). */
  function AndNat(a: int, b: int): (r: nat)
    ensures a >= 0 ==> r <= a
    ensures b >= 0 ==> r <= b
    decreases a
  {
    if a <= 0 || b <= 0 then 0
    else (if a % 2 == 1 && b % 2 == 1 then 1 else 0) + 2 * AndNat(a / 2, b / 2)
  }

  /** Bitwise OR of two naturals, one binary digit at a time. */
  function OrNat(a: nat, b: nat): (r: nat)
    decreases a + b
  {
    if a == 0 then b
    else if b == 0 then a
    else (if a % 2 == 1 || b % 2 == 1 then 1 else 0) + 2 * OrNat(a / 2, b / 2)
  }

  /** Java's `a & b` on `int`. */
  function And(a: Int32, b: Int32): Int32
  {
    FromBits(AndNat(Unsigned(a), Unsigned(b)))
  }

  /** Java's `a | b` on `int`. */
  function Or(a: Int32, b: Int32): Int32
  {
    Pow2Width();
    OrNatBelow(Unsigned(a), Unsigned(b), 32);
    FromBits(OrNat(Unsigned(a), Unsigned(b)))
  }

  // ---------------------------------------------------------------------
  // Division facts used by the bit-level proofs.

  lemma DivModUnique(a: int, d: int, q: int, r: int)
    requires d > 0 && 0 <= r < d && a == d * q + r
    ensures a / d == q && a % d == r
  {
    var q', r' := a / d, a % d;
    assert d * (q' - q) == r - r';
    MulSmall(d, q' - q);
  }

  /** Splitting off the lowest bit: `a mod 2p` is bit 0 plus twice `(a/2) mod p`. */
  lemma ModSplit(a: int, p: int, d: int)
    requires p >= 1 && d == 2 * p
    ensures a % d == a % 2 + 2 * ((a / 2) % p)
    ensures a / d == (a / 2) / p
  {
    var q := a / 2;
    var r := a % 2;
    var q2 := q / p;
    var r2 := q % p;
    assert q == p * q2 + r2;
    assert a == 2 * q + r;
    assert a == (2 * p) * q2 + (2 * r2 + r) by {
      assert 2 * (p * q2) == (2 * p) * q2;
    }
    DivModUnique(a, 2 * p, q2, 2 * r2 + r);
  }

  lemma MulTwice(p: int, t: int)
    ensures 2 * (p * t) == (2 * p) * t
  {
  }

  // ---------------------------------------------------------------------
  // Bit-level facts on naturals.

  /** OR of two numbers below `2^n` stays below `2^n`. */
  lemma {:induction false} OrNatBelow(a: nat, b: nat, n: nat)
    requires a < Pow2(n) && b < Pow2(n)
    ensures OrNat(a, b) < Pow2(n)
    decreases n
  {
    if a != 0 && b != 0 {
      OrNatBelow(a / 2, b / 2, n - 1);
    }
  }

  /** AND with `2^k - 1` keeps the low `k` bits; `d` names `2^k`. */
  lemma {:induction false} AndNatLowMask(x: int, k: nat, d: int)
    requires x >= 0 && d == Pow2(k)
    ensures AndNat(x, d - 1) == x % d
    decreases k
  {
    if k == 0 || x == 0 {
      AndNatLowBase(x, k, d);
    } else {
      var p := Pow2(k - 1);
      AndNatLowMask(x / 2, k - 1, p);
      AndNatLowStep(x, p, d);
    }
  }

  lemma AndNatLowBase(x: int, k: nat, d: int)
    requires x >= 0 && d == Pow2(k) && (k == 0 || x == 0)
    ensures AndNat(x, d - 1) == x % d
  {
    if k == 0 {
      DivModUnique(x, 1, x, 0);
    } else {
      DivModUnique(0, d, 0, 0);
    }
  }

  /** The inductive step of `AndNatLowMask`, from `x / 2` and `p` to `x` and `2p`. */
  lemma AndNatLowStep(x: int, p: int, d: int)
    requires x > 0 && p >= 1 && d == 2 * p
    requires AndNat(x / 2, p - 1) == (x / 2) % p
    ensures AndNat(x, d - 1) == x % d
  {
    AndNatOddStep(x, p, d);
    ModSplit(x, p, d);
  }

  /** One unfolding of `AndNat` against an all-ones mask `d - 1`. */
  lemma AndNatOddStep(x: int, p: int, d: int)
    requires x > 0 && p >= 1 && d == 2 * p
    ensures AndNat(x, d - 1) == x % 2 + 2 * AndNat(x / 2, p - 1)
  {
    DivModUnique(d - 1, 2, p - 1, 1);
  }

  /** `AndNatLowMask` with the mask named too, so that callers can pass it
      as a literal. */
  lemma AndNatLow(x: int, k: nat, d: int, m: int)
    requires x >= 0 && d == Pow2(k) && m == d - 1
    ensures AndNat(x, m) == x % d
  {
    AndNatLowMask(x, k, d);
  }

  /** AND with a mask shifted left by `k` is the shifted AND of `x >> k`. */
  lemma {:induction false} AndNatShifted(x: int, c: int, k: nat)
    requires x >= 0 && c >= 0
    ensures AndNat(x, c * Pow2(k)) == Pow2(k) * AndNat(x / Pow2(k), c)
    decreases k
  {
    if k == 0 || x == 0 || c == 0 {
      AndNatShiftedBase(x, c, k);
    } else {
      var p, d := Pow2(k - 1), Pow2(k);
      AndNatShifted(x / 2, c, k - 1);
      AndNatShiftedStep(x, c, p, d, c * p, c * d);
    }
  }

  lemma AndNatShiftedBase(x: int, c: int, k: nat)
    requires x >= 0 && c >= 0 && (k == 0 || x == 0 || c == 0)
    ensures AndNat(x, c * Pow2(k)) == Pow2(k) * AndNat(x / Pow2(k), c)
  {
    if k == 0 {
      DivModUnique(x, 1, x, 0);
    } else if x == 0 {
      DivModUnique(0, Pow2(k), 0, 0);
    }
  }

  /** The inductive step of `AndNatShifted`, from `x / 2` and `p` to `x` and `2p`. */
  lemma AndNatShiftedStep(x: int, c: int, p: int, d: int, cp: int, cd: int)
    requires x > 0 && c > 0 && p >= 1 && d == 2 * p && cp == c * p && cd == c * d
    requires AndNat(x / 2, cp) == p * AndNat(x / 2 / p, c)
    ensures AndNat(x, cd) == d * AndNat(x / d, c)
  {
    MulTwice(p, c);
    AndNatEvenStep(x, c, p, cp);
    DivTwice(x, p, d);
    DoubleProduct(p, d, AndNat(x / d, c));
  }

  lemma DivTwice(x: int, p: int, d: int)
    requires p >= 1 && d == 2 * p
    ensures x / 2 / p == x / d
  {
    ModSplit(x, p, d);
  }

  lemma DoubleProduct(p: int, d: int, n: int)
    requires d == 2 * p
    ensures 2 * (p * n) == d * n
  {
    MulTwice(p, n);
  }

  /** One unfolding of `AndNat` against an even mask `2 * cp`. */
  lemma AndNatEvenStep(x: int, c: int, p: int, cp: int)
    requires x > 0 && c > 0 && p >= 1 && cp == c * p
    ensures AndNat(x, 2 * cp) == 2 * AndNat(x / 2, cp)
  {
    assert cp > 0 by { MulAtLeast(c, p); }
    DivModUnique(2 * cp, 2, cp, 0);
  }

  /** OR of a multiple of `2^k` with a number below `2^k` is their sum. */
  lemma {:induction false} OrNatDisjoint(m: nat, b: nat, k: nat)
    requires b < Pow2(k)
    ensures OrNat(m * Pow2(k), b) == m * Pow2(k) + b
    decreases k
  {
    if k > 0 && m != 0 && b != 0 {
      var p := Pow2(k - 1);
      var a := m * Pow2(k);
      assert a == 2 * (m * p) by { MulTwice(p, m); }
      assert m * p > 0 by { MulAtLeast(m, p); }
      DivModUnique(a, 2, m * p, 0);
      OrNatDisjoint(m, b / 2, k - 1);
      assert OrNat(a, b) == b % 2 + 2 * OrNat(m * p, b / 2);
    }
  }

  lemma {:induction false} OrNatCommute(a: nat, b: nat)
    ensures OrNat(a, b) == OrNat(b, a)
    decreases a + b
  {
    if a != 0 && b != 0 {
      OrNatCommute(a / 2, b / 2);
    }
  }

  // ---------------------------------------------------------------------
  // The masks and shifts the legacy code uses.

  /** `a & m` for `m == 2^k - 1` is `a mod 2^k`, read through the unsigned view. */
  lemma AndLowBits(a: Int32, k: nat, d: int, m: Int32)
    requires d == Pow2(k) && m == d - 1
    ensures And(a, m) == Unsigned(a) % d
  {
    AndNatLow(Unsigned(a), k, d, m);
  }

  /** Reducing modulo a divisor of `2^32` does not see the unsigned view. */
  lemma UnsignedMod(a: Int32, d: int, q: int)
    requires d > 0 && d * q == TWO_32
    ensures Unsigned(a) % d == a % d
  {
    if a < 0 {
      DivModUnique(a + TWO_32, d, a / d + q, a % d);
    }
  }

  /** `a & 1` is the lowest bit. */
  lemma Mask1(a: Int32)
    ensures And(a, 1) == a % 2
  {
    AndLowBits(a, 1, 2, 1);
    UnsignedMod(a, 2, 0x8000_0000);
  }

  /** `a & 3` keeps the low two bits. */
  lemma Mask3(a: Int32)
    ensures And(a, 3) == a % 4
  {
    AndLowBits(a, 2, 4, 3);
    UnsignedMod(a, 4, 0x4000_0000);
  }

  /** `a & 15` (`0xF`) keeps the low nibble. */
  lemma Mask15(a: Int32)
    ensures And(a, 15) == a % 16
  {
    AndLowBits(a, 4, 16, 15);
    UnsignedMod(a, 16, 0x1000_0000);
  }

  /** `a & 127` keeps the low seven bits. */
  lemma Mask127(a: Int32)
    ensures And(a, 127) == a % 128
  {
    AndLowBits(a, 7, 128, 127);
    UnsignedMod(a, 128, 0x200_0000);
  }

  /** `a & 0xFF` reads a byte as unsigned. */
  lemma Mask255(a: Int32)
    ensures And(a, 255) == a % 256
  {
    AndLowBits(a, 8, 256, 255);
    UnsignedMod(a, 256, 0x100_0000);
  }

  /** `a & m` for `m == c << k` is `(a >> k & c) << k`, on the unsigned view. */
  lemma AndShiftedBits(a: Int32, c: int, k: nat, d: int, m: Int32)
    requires c >= 0 && d == Pow2(k) && m == c * d
    ensures And(a, m) == d * AndNat(Unsigned(a) / d, c)
  {
    var u := Unsigned(a);
    assert m >= 0 by { MulNonNeg(c, d); }
    var n := AndNat(u, m);
    assert n == d * AndNat(u / d, c) by { AndNatShifted(u, c, k); }
    assert And(a, m) == FromBits(n);
  }

  /** `a & 240` (`0xF0`) keeps bits 4..7 in place. */
  lemma AndHighNibbleMask(a: Int32)
    ensures And(a, 240) == 16 * ((a / 16) % 16)
  {
    var u := Unsigned(a);
    var n := AndNat(u / 16, 15);
    assert And(a, 240) == 16 * n by { AndShiftedBits(a, 15, 4, 16, 240); }
    assert n == u / 16 % 16 by { AndNatLow(u / 16, 4, 16, 15); }
    assert u / 16 % 16 == a / 16 % 16 by { UnsignedNibble(a); }
  }

  /** `a & 8` keeps bit 3 alone: it is 0 or 8. */
  lemma AndBit3Mask(a: Int32)
    ensures And(a, 8) == 8 * ((a / 8) % 2)
  {
    var u := Unsigned(a);
    var n := AndNat(u / 8, 1);
    assert And(a, 8) == 8 * n by { AndShiftedBits(a, 1, 3, 8, 8); }
    assert n == u / 8 % 2 by { AndNatLow(u / 8, 1, 2, 1); }
    assert u / 8 % 2 == a / 8 % 2 by { UnsignedBit3(a); }
  }

  lemma UnsignedBit3(a: Int32)
    ensures Unsigned(a) / 8 % 2 == a / 8 % 2
  {
    if a < 0 {
      DivModUnique(Unsigned(a), 8, a / 8 + 0x2000_0000, a % 8);
      DivModUnique(a / 8 + 0x2000_0000, 2, a / 8 / 2 + 0x1000_0000, a / 8 % 2);
    }
  }

  lemma UnsignedNibble(a: Int32)
    ensures Unsigned(a) / 16 % 16 == a / 16 % 16
  {
    if a < 0 {
      DivModUnique(Unsigned(a), 16, a / 16 + 0x1000_0000, a % 16);
      DivModUnique(a / 16 + 0x1000_0000, 16, a / 16 / 16 + 0x100_0000, a / 16 % 16);
    }
  }

  /** `|` does not depend on the order of its operands. */
  lemma OrCommutes(a: Int32, b: Int32)
    ensures Or(a, b) == Or(b, a)
  {
    OrNatCommute(Unsigned(a), Unsigned(b));
  }

  /** `a | b` on non-negative `int`s whose set bits do not overlap is `a + b`:
      here `a` has its low `k` bits clear and `b` lies below `2^k`. */
  lemma OrDisjoint(a: Int32, b: Int32, k: nat)
    requires 0 <= a && 0 <= b < Pow2(k) && a % Pow2(k) == 0
    requires a + b <= INT_MAX
    ensures Or(a, b) == a + b
  {
    var m := ExactQuotient(a, Pow2(k));
    OrNatDisjoint(m, b, k);
  }

  lemma ExactQuotient(a: int, d: int) returns (m: nat)
    requires d > 0 && a >= 0 && a % d == 0
    ensures a == m * d
  {
    m := a / d;
    DivBounds(a, d);
  }

  /** A left shift that does not overflow is a multiplication. */
  lemma ShlSmall(x: Int32, n: nat)
    requires n < 32 && 0 <= x * Pow2(n) <= INT_MAX
    ensures Shl(x, n) == x * Pow2(n)
  {
  }

  lemma Pow2Width()
    ensures Pow2(32) == TWO_32
  {
    assert Pow2(8) == 0x100;
    assert Pow2(16) == 0x1_0000;
    assert Pow2(24) == 0x100_0000;
  }

  lemma Pow2Facts()
    ensures Pow2(1) == 2 && Pow2(3) == 8 && Pow2(4) == 16
    ensures Pow2(7) == 128 && Pow2(11) == 2048
  {
  }
}
