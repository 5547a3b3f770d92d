/**
 * The integer side of JavaScript's number semantics that the decoder relies on:
 * the ToInt32/ToUint32 coercions, the shift operators, the 32-bit bitwise
 * operators and the coercing stores of typed arrays, all stated on unbounded
 * integers.  Bitwise operators are defined on n-bit naturals, least significant
 * bit first, and lifted to the 32-bit operators.
 */
module JsInt {

  const TWO_31: int := 0x8000_0000
  const TWO_32: int := 0x1_0000_0000

  /** Element types of Uint8Array, Int8Array, Int32Array and Uint16Array. */
  type byte = x: int | 0 <= x < 0x100
  type int8 = x: int | -0x80 <= x < 0x80
  type int32 = x: int | -0x8000_0000 <= x < 0x8000_0000
  type uint16 = x: int | 0 <= x < 0x1_0000

  /** `Math.min` on two integers: the smaller of the two. */
  function Min(a: int, b: int): (r: int)
    ensures r <= a && r <= b && (r == a || r == b)
  {
    if a < b then a else b
  }

  /** `Math.max` on two integers: the larger of the two. */
  function Max(a: int, b: int): (r: int)
    ensures r >= a && r >= b && (r == a || r == b)
  {
    if a < b then b else a
  }

  function Pow2(n: nat): (r: nat)
    ensures r >= 1
  {
    if n == 0 then 1 else 2 * Pow2(n - 1)
  }

  lemma {:induction false} Pow2Add(a: nat, b: nat)
    ensures Pow2(a + b) == Pow2(a) * Pow2(b)
  {
    if b > 0 {
      Pow2Add(a, b - 1);
      assert Pow2(a + b) == 2 * Pow2(a + b - 1);
    }
  }

  /** The powers of two that bound bytes, half-words and words, at a symbolic exponent. */
  lemma Pow2Word(n: nat)
    ensures n == 8 ==> Pow2(n) == 0x100
    ensures n == 16 ==> Pow2(n) == 0x1_0000
    ensures n == 31 ==> Pow2(n) == TWO_31
    ensures n == 32 ==> Pow2(n) == TWO_32
  {
    Pow2Of32();
  }

  lemma {:induction false} Pow2Monotone(a: nat, b: nat)
    requires a <= b
    ensures Pow2(a) <= Pow2(b)
  {
    if a < b {
      Pow2Monotone(a, b - 1);
    }
  }

  lemma Pow2Of32()
    ensures Pow2(8) == 0x100 && Pow2(16) == 0x1_0000 && Pow2(31) == TWO_31 && Pow2(32) == TWO_32
  {
    assert Pow2(2) == 4;
    Pow2Add(2, 2);
    Pow2Add(4, 4);
    Pow2Add(8, 8);
    Pow2Add(16, 16);
    assert Pow2(32) == 2 * Pow2(31);
  }

  lemma MulAssoc(a: int, b: int, c: int)
    ensures a * (b * c) == (a * c) * b == (a * b) * c
  {
  }

  lemma MulDist(a: int, b: int, c: int)
    ensures (a + b) * c == a * c + b * c && (a - b) * c == a * c - b * c && (-a) * c == -(a * c)
  {
  }

  lemma MulLeft(a: int, b: int, c: int)
    requires a <= b && c >= 0
    ensures a * c <= b * c
  {
    assert b * c - a * c == (b - a) * c;
  }

  /** Euclidean division is determined by its quotient and remainder. */
  lemma DivModUnique(x: int, c: int, q: int, r: int)
    requires c > 0 && 0 <= r < c && x == q * c + r
    ensures x / c == q && x % c == r
  {
    var q', r' := x / c, x % c;
    assert x == q' * c + r';
    assert (q + 1) * c == q * c + c && (q' + 1) * c == q' * c + c;
    if q' > q {
      MulLeft(q + 1, q', c);
    } else if q' < q {
      MulLeft(q' + 1, q, c);
    }
  }

  /** Halving and then dividing by p is dividing by 2p; the low bit survives taking x modulo 2p. */
  lemma DivHalf(x: int, p: int)
    requires p > 0
    ensures x / 2 / p == x / (2 * p)
    ensures (x / 2) % p == (x % (2 * p)) / 2
    ensures (x % (2 * p)) % 2 == x % 2
  {
    var q, r := x / 2, x % 2;
    var q2, r2 := q / p, q % p;
    assert q == q2 * p + r2 && 0 <= r2 < p;
    assert x == q2 * (2 * p) + (2 * r2 + r) by {
      assert q2 * (2 * p) == 2 * (q2 * p);
    }
    DivModUnique(x, 2 * p, q2, 2 * r2 + r);
    MulAddDivMod(r2, r, 2);
  }

  /** Dividing a*c + b by c recovers a and b. */
  lemma MulAddDivMod(a: int, b: int, c: int)
    requires c > 0 && 0 <= b < c
    ensures (a * c + b) / c == a && (a * c + b) % c == b
  {
    DivModUnique(a * c + b, c, a, b);
  }

  lemma DivPow2Bound(x: int, lo: int, hi: int, s: nat)
    requires lo * Pow2(s) <= x < hi * Pow2(s)
    ensures lo <= x / Pow2(s) < hi
  {
    var p := Pow2(s);
    var q := x / p;
    assert x == q * p + x % p;
    assert (q + 1) * p == q * p + p;
    if q < lo {
      MulLeft(q + 1, lo, p);
    }
    if q >= hi {
      MulLeft(hi, q, p);
    }
  }

  /** ToUint32 and ToInt32 of an integral number. */
  function ToUint32(x: int): (r: int)
    ensures 0 <= r < TWO_32
    ensures (0 <= x < TWO_32) ==> r == x
  {
    x % TWO_32
  }

  function ToInt32(x: int): (r: int32)
    ensures -TWO_31 <= x < TWO_31 ==> r == x
    ensures ToUint32(r) == ToUint32(x)
  {
    var u := x % TWO_32;
    if u < TWO_31 then u else u - TWO_32
  }

  /** Storing an integral number into an Int8Array or Uint16Array. */
  function ToInt8(x: int): (r: int8)
    ensures -0x80 <= x < 0x80 ==> r == x
    ensures (r - x) % 0x100 == 0
  {
    var u := x % 0x100;
    if u < 0x80 then u else u - 0x100
  }

  function ToUint16(x: int): (r: uint16)
    ensures 0 <= x < 0x1_0000 ==> r == x
    ensures (r - x) % 0x1_0000 == 0
  {
    x % 0x1_0000
  }

  /** `x << n`, `x >> n` and `x >>> n`: the count is taken modulo 32. */
  function Shl(x: int, n: int): int32
  {
    ToInt32(ToUint32(x) * Pow2(n % 32))
  }

  function Sar(x: int, n: int): int32
  {
    DivPow2Bound(ToInt32(x), -TWO_31, TWO_31, n % 32);
    ToInt32(x) / Pow2(n % 32)
  }

  function Shr(x: int, n: int): (r: int)
    ensures 0 <= r < TWO_32
  {
    DivPow2Bound(ToUint32(x), 0, TWO_32, n % 32);
    ToUint32(x) / Pow2(n % 32)
  }

  /** Bitwise operators on the low n bits of two naturals. */
  function BitAnd(a: nat, b: nat, n: nat): (r: nat)
    ensures r < Pow2(n)
  {
    if n == 0 then 0 else 2 * BitAnd(a / 2, b / 2, n - 1) + (a % 2) * (b % 2)
  }

  function BitOr(a: nat, b: nat, n: nat): (r: nat)
    ensures r < Pow2(n)
  {
    if n == 0 then 0 else 2 * BitOr(a / 2, b / 2, n - 1) + (if a % 2 == 1 || b % 2 == 1 then 1 else 0)
  }

  function BitXor(a: nat, b: nat, n: nat): (r: nat)
    ensures r < Pow2(n)
  {
    if n == 0 then 0 else 2 * BitXor(a / 2, b / 2, n - 1) + (if a % 2 != b % 2 then 1 else 0)
  }

  /** `x & y`, `x | y` and `x ^ y` on numbers coerced to 32 bits. */
  function And(x: int, y: int): int32
  {
    ToInt32(BitAnd(ToUint32(x), ToUint32(y), 32))
  }

  function Or(x: int, y: int): int32
  {
    ToInt32(BitOr(ToUint32(x), ToUint32(y), 32))
  }

  function Xor(x: int, y: int): int32
  {
    ToInt32(BitXor(ToUint32(x), ToUint32(y), 32))
  }

  /** Bit j of a natural. */
  function BitAt(x: nat, j: nat): (r: nat)
    ensures r < 2
  {
    if j == 0 then x % 2 else BitAt(x / 2, j - 1)
  }

  // ---------------------------------------------------------------------------
  // Arithmetic readings of the operators on the values the decoder feeds them.

  lemma {:induction false} BitAndLowMask(a: nat, k: nat, n: nat)
    requires k <= n
    ensures BitAnd(a, Pow2(k) - 1, n) == a % Pow2(k)
  {
    if k > 0 {
      BitAndLowMask(a / 2, k - 1, n - 1);
    }
    BitAndLowMaskStep(a, k, n);
  }

  /** The step of `BitAndLowMask`: from the n - 1 bits above the lowest, to all n bits. */
  lemma BitAndLowMaskStep(a: nat, k: nat, n: nat)
    requires k <= n
    requires k > 0 ==> BitAnd(a / 2, Pow2(k - 1) - 1, n - 1) == (a / 2) % Pow2(k - 1)
    ensures BitAnd(a, Pow2(k) - 1, n) == a % Pow2(k)
  {
    if k == 0 {
      BitAndZero(a, n);
      DivModUnique(a, Pow2(k), a, 0);
    } else {
      LowMaskStep(a, Pow2(k - 1), Pow2(k) - 1);
    }
  }

  /** The low bit and the remaining bits of the mask 2p - 1, and of a modulo 2p. */
  lemma LowMaskStep(a: nat, p: nat, m: int)
    requires p >= 1 && m == 2 * p - 1
    ensures m % 2 == 1 && m / 2 == p - 1 && (a % 2) * (m % 2) == a % 2
    ensures a % (2 * p) == 2 * ((a / 2) % p) + a % 2
  {
    MulAddDivMod(p - 1, 1, 2);
    DivHalf(a, p);
    var y := a % (2 * p);
    assert y == 2 * (y / 2) + y % 2;
  }

  /** `&` never exceeds either operand; here, the second. */
  lemma {:induction false} BitAndBelow(a: nat, b: nat, n: nat)
    ensures BitAnd(a, b, n) <= b
  {
    if n > 0 {
      BitAndBelow(a / 2, b / 2, n - 1);
      assert (a % 2) * (b % 2) <= b % 2;
    }
  }

  /** Masking with a non-negative 32-bit mask keeps the result between 0 and the mask. */
  lemma AndBelow(x: int, m: int)
    requires 0 <= m < TWO_31
    ensures 0 <= And(x, m) <= m
  {
    BitAndBelow(ToUint32(x), ToUint32(m), 32);
  }

  lemma {:induction false} BitAndZero(a: nat, n: nat)
    ensures BitAnd(a, 0, n) == 0
  {
    if n > 0 {
      BitAndZero(a / 2, n - 1);
    }
  }

  /** Or-ing a value into the free low bits of another is addition. */
  lemma {:induction false} BitOrDisjoint(a: nat, b: nat, k: nat, n: nat)
    requires k <= n && a % Pow2(k) == 0 && b < Pow2(k) && a < Pow2(n)
    ensures BitOr(a, b, n) == a + b
  {
    if k == 0 {
      BitOrZero(a, n);
    } else {
      DivHalf(a, Pow2(k - 1));
      assert a % 2 == 0;
      assert (a / 2) % Pow2(k - 1) == 0;
      assert a / 2 < Pow2(n - 1);
      BitOrDisjoint(a / 2, b / 2, k - 1, n - 1);
    }
  }

  lemma {:induction false} BitOrZero(a: nat, n: nat)
    requires a < Pow2(n)
    ensures BitOr(a, 0, n) == a
  {
    if n > 0 {
      BitOrZero(a / 2, n - 1);
    }
  }

  lemma ToUint32OfInt32(x: int32)
    ensures ToUint32(x) == (if x < 0 then x + TWO_32 else x)
  {
  }

  lemma ShlNonNegative(x: nat, n: nat)
    requires n < 32 && x * Pow2(n) < TWO_31
    ensures Shl(x, n) == x * Pow2(n)
  {
    var p := Pow2(n);
    assert Pow2(n % 32) == p by {
      assert n % 32 == n;
    }
    assert x <= x * p by {
      MulLeft(1, p, x);
    }
    assert ToUint32(x) == x;
    var y := x * p;
    assert Shl(x, n) == ToInt32(y);
    assert -TWO_31 <= y < TWO_31;
  }

  /** `1 << n` for a count that keeps the result positive. */
  lemma ShlOne(n: nat)
    requires n <= 30
    ensures Shl(1, n) == Pow2(n) && Pow2(n) < TWO_31
  {
    Pow2BelowWord(n);
    ShlNonNegative(1, n);
  }

  lemma Pow2BelowWord(n: nat)
    requires n <= 30
    ensures Pow2(n) < TWO_31
  {
    Pow2Monotone(n, 30);
    Pow2Word(31);
    assert Pow2(31) == 2 * Pow2(30);
  }

  lemma SarNonNegative(x: nat, n: nat)
    requires x < TWO_31 && n < 32
    ensures Sar(x, n) == x / Pow2(n)
  {
    assert n % 32 == n;
  }

  lemma AndLowMask(x: int, k: nat)
    requires 0 <= x < TWO_31 && k <= 31
    ensures And(x, Pow2(k) - 1) == x % Pow2(k)
  {
    LowMaskBelow(k);
    AndValue(x, Pow2(k) - 1);
    BitAndLowMask(x, k, 32);
    ModBelow(x, Pow2(k));
  }

  lemma LowMaskBelow(k: nat)
    requires k <= 31
    ensures Pow2(k) - 1 < TWO_31
  {
    Pow2Monotone(k, 31);
    Pow2Word(31);
  }

  /** `&` on two operands that are already unsigned 32-bit values. */
  lemma AndValue(x: int, y: int)
    requires 0 <= x < TWO_32 && 0 <= y < TWO_32
    ensures And(x, y) == ToInt32(BitAnd(x, y, 32))
  {
  }

  lemma ModBelow(x: int, p: int)
    requires 0 <= x && p > 0
    ensures 0 <= x % p <= x
  {
    assert x == (x / p) * p + x % p;
    MulLeft(0, x / p, p);
  }

  lemma AndAllOnes(x: int)
    ensures And(x, -1) == ToInt32(x)
  {
    var n, u := 32, ToUint32(x);
    Pow2Word(n);
    BitAndLowMask(u, n, n);
    assert ToUint32(-1) == Pow2(n) - 1;
    DivModUnique(u, Pow2(n), 0, u);
    assert ToInt32(u) == ToInt32(x) by {
      assert u % TWO_32 == x % TWO_32;
    }
  }

  lemma OrDisjoint(a: int, b: int, k: nat, sum: int)
    requires k <= 32 && 0 <= a < TWO_32 && a % Pow2(k) == 0 && 0 <= b < Pow2(k) && sum == a + b
    ensures Or(a, b) == ToInt32(sum)
  {
    Pow2Of32();
    Pow2Monotone(k, 32);
    BitOrDisjoint(a, b, k, 32);
  }

  // ---------------------------------------------------------------------------
  // Bit-level readings of the operators.

  lemma BitAtStep(x: nat, j: nat)
    requires j > 0
    ensures BitAt(x, j) == BitAt(x / 2, j - 1)
  {
  }

  lemma BitAtZero(x: nat)
    ensures BitAt(x, 0) == x % 2
  {
  }

  lemma {:induction false} BitAtHigh(x: nat, n: nat, j: nat)
    requires x < Pow2(n) && j >= n
    ensures BitAt(x, j) == 0
  {
    if n == 0 {
      BitAtOfZero(j);
    } else {
      DivPow2Bound(x, 0, Pow2(n - 1), 1);
      BitAtHigh(x / 2, n - 1, j - 1);
    }
  }

  lemma {:induction false} BitAtOfZero(j: nat)
    ensures BitAt(0, j) == 0
  {
    if j > 0 {
      BitAtOfZero(j - 1);
    }
  }

  lemma {:induction false} BitAtAnd(a: nat, b: nat, n: nat, j: nat)
    requires j < n
    ensures BitAt(BitAnd(a, b, n), j) == BitAt(a, j) * BitAt(b, j)
  {
    var r := BitAnd(a, b, n);
    MulAddDivMod(BitAnd(a / 2, b / 2, n - 1), (a % 2) * (b % 2), 2);
    if j > 0 {
      BitAtStep(r, j);
      BitAtStep(a, j);
      BitAtStep(b, j);
      BitAtAnd(a / 2, b / 2, n - 1, j - 1);
    }
  }

  lemma {:induction false} BitAtOr(a: nat, b: nat, n: nat, j: nat)
    requires j < n
    ensures BitAt(BitOr(a, b, n), j) == (if BitAt(a, j) == 1 || BitAt(b, j) == 1 then 1 else 0)
  {
    var r := BitOr(a, b, n);
    MulAddDivMod(BitOr(a / 2, b / 2, n - 1), (if a % 2 == 1 || b % 2 == 1 then 1 else 0), 2);
    if j > 0 {
      BitAtStep(r, j);
      BitAtStep(a, j);
      BitAtStep(b, j);
      BitAtOr(a / 2, b / 2, n - 1, j - 1);
    }
  }

  lemma {:induction false} BitAtXor(a: nat, b: nat, n: nat, j: nat)
    requires j < n
    ensures BitAt(BitXor(a, b, n), j) == (if BitAt(a, j) != BitAt(b, j) then 1 else 0)
  {
    var r := BitXor(a, b, n);
    MulAddDivMod(BitXor(a / 2, b / 2, n - 1), (if a % 2 != b % 2 then 1 else 0), 2);
    if j > 0 {
      BitAtStep(r, j);
      BitAtStep(a, j);
      BitAtStep(b, j);
      BitAtXor(a / 2, b / 2, n - 1, j - 1);
    }
  }

  lemma {:induction false} BitAtDiv(x: nat, s: nat, j: nat)
    ensures x / Pow2(s) >= 0
    ensures BitAt(x / Pow2(s), j) == BitAt(x, j + s)
  {
    DivNonNegative(x, Pow2(s));
    if s > 0 {
      DivHalf(x, Pow2(s - 1));
      BitAtDiv(x / 2, s - 1, j);
    }
  }

  lemma DivNonNegative(x: nat, p: int)
    requires p >= 1
    ensures x / p >= 0
  {
  }

  lemma {:induction false} BitAtMod(y: nat, n: nat, j: nat)
    requires j < n
    ensures BitAt(y % Pow2(n), j) == BitAt(y, j)
  {
    DivHalf(y, Pow2(n - 1));
    if j > 0 {
      BitAtMod(y / 2, n - 1, j - 1);
    }
  }

  lemma {:induction false} BitAtMul(x: nat, s: nat, j: nat)
    ensures BitAt(x * Pow2(s), j) == if j >= s then BitAt(x, j - s) else 0
  {
    if s > 0 {
      var y := x * Pow2(s - 1);
      assert x * Pow2(s) == 2 * y;
      MulAddDivMod(y, 0, 2);
      if j > 0 {
        BitAtMul(x, s - 1, j - 1);
      }
    }
  }

  lemma BitAtShiftLeft(x: nat, s: nat, n: nat, j: nat)
    requires s <= n && j < n
    ensures BitAt((x * Pow2(s)) % Pow2(n), j) == if j >= s then BitAt(x, j - s) else 0
  {
    BitAtMod(x * Pow2(s), n, j);
    BitAtMul(x, s, j);
  }

  /** Two n-bit naturals with the same bits are equal. */
  lemma {:induction false} BitsEqual(a: nat, b: nat, n: nat)
    requires a < Pow2(n) && b < Pow2(n)
    requires forall j :: 0 <= j < n ==> BitAt(a, j) == BitAt(b, j)
    ensures a == b
  {
    if n > 0 {
      forall j | 0 <= j < n - 1
        ensures BitAt(a / 2, j) == BitAt(b / 2, j)
      {
        BitAtStep(a, j + 1);
        BitAtStep(b, j + 1);
      }
      DivPow2Bound(a, 0, Pow2(n - 1), 1);
      DivPow2Bound(b, 0, Pow2(n - 1), 1);
      BitsEqual(a / 2, b / 2, n - 1);
      BitAtZero(a);
      BitAtZero(b);
    }
  }
}
