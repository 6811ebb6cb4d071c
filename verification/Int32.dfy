/** The 32-bit integer operators of ECMAScript that the polyline decoder uses, on mathematical integers.
    A JavaScript bit operation first maps its operands with ToInt32 (section 7.1.6 of ECMA-262). */
module Int32 {
  const TWO_31: int := 0x8000_0000
  const TWO_32: int := 0x1_0000_0000

  function Pow2(n: nat): (p: nat)
    ensures p >= 1
  {
    if n == 0 then 1 else 2 * Pow2(n - 1)
  }

  /** The bit pattern of x, read as an unsigned number. */
  function ToUint32(x: int): (u: nat)
    ensures u < TWO_32
  {
    x % TWO_32
  }

  /** The bit pattern of x, read as a two's complement number. */
  function ToInt32(x: int): (r: int)
    ensures -TWO_31 <= r < TWO_31
    ensures -TWO_31 <= x < TWO_31 ==> r == x
  {
    var u := ToUint32(x);
    if u < TWO_31 then u else u - TWO_32
  }

  /** Bitwise or of two bit patterns, one bit at a time. */
  function BitOr(a: nat, b: nat): nat
    decreases a + b
  {
    if a == 0 then b
    else if b == 0 then a
    else (if a % 2 == 1 || b % 2 == 1 then 1 else 0) + 2 * BitOr(a / 2, b / 2)
  }

  function Or(x: int, y: int): int {
    ToInt32(BitOr(ToUint32(x), ToUint32(y)))
  }

  /** x << count: the count is taken modulo 32. */
  function ShiftLeft(x: int, count: nat): int {
    ToInt32(x * Pow2(count % 32))
  }

  /** x >> 1 keeps the sign, so it rounds towards minus infinity. */
  function HalfSigned(x: int): int {
    ToInt32(x) / 2
  }

  function Not(x: int): int {
    -ToInt32(x) - 1
  }

  /** Patterns with no common bit are joined by addition. */
  lemma {:induction false} BitOrDisjoint(a: nat, high: nat, m: nat)
    requires a < Pow2(m)
    ensures BitOr(a, high * Pow2(m)) == a + high * Pow2(m)
    decreases m
  {
    if m > 0 && a > 0 && high > 0 {
      var half := high * Pow2(m - 1);
      assert high * Pow2(m) == 2 * half;
      BitOrDisjoint(a / 2, high, m - 1);
    }
  }

  /** While the value stays below 2^31, or-ing a shifted group into the accumulator is plain addition. */
  lemma OrShiftIsAddition(acc: nat, group: nat, shift: nat)
    requires shift < 32 && acc < Pow2(shift)
    requires acc + group * Pow2(shift) < TWO_31
    ensures Or(acc, ShiftLeft(group, shift)) == acc + group * Pow2(shift)
  {
    hide Pow2, BitOr;
    assert shift % 32 == shift;
    BitOrDisjoint(acc, group, shift);
    OrBelow(acc, group * Pow2(shift));
  }

  /** On small numbers the 32-bit operator is that on bit patterns. */
  lemma OrBelow(a: nat, b: nat)
    requires a < TWO_31 && b < TWO_31
    ensures ToInt32(b) == b && Or(a, b) == ToInt32(BitOr(a, b))
  {
    hide BitOr;
  }

  lemma {:induction false} Pow2Monotonic(m: nat, n: nat)
    requires m <= n
    ensures Pow2(m) <= Pow2(n)
  {
    if m < n { Pow2Monotonic(m, n - 1); }
  }

  lemma FiveDoublings(n: nat)
    ensures Pow2(n + 5) == 32 * Pow2(n)
  {
    assert Pow2(n + 1) == 2 * Pow2(n);
    assert Pow2(n + 2) == 2 * Pow2(n + 1);
    assert Pow2(n + 3) == 2 * Pow2(n + 2);
    assert Pow2(n + 4) == 2 * Pow2(n + 3);
  }

  lemma TwoTo26()
    ensures Pow2(25) == 0x200_0000 && Pow2(26) == 0x400_0000
  {
    FiveDoublings(0);
    FiveDoublings(5);
    FiveDoublings(10);
    FiveDoublings(15);
    FiveDoublings(20);
    assert Pow2(26) == 2 * Pow2(25);
  }

  /** Five more bits fit under 2^31 only below shift 30. */
  lemma FiveMoreBits(shift: nat)
    requires 32 * Pow2(shift) < TWO_31
    ensures shift < 26
  {
    if shift >= 26 {
      Pow2Monotonic(26, shift);
      TwoTo26();
    }
  }

  /** A number times p, split into its base-32 digit and the rest. */
  lemma SplitDigit(u: nat, p: nat)
    ensures u * p == (u / 32) * (32 * p) + (u % 32) * p
    ensures u >= 32 ==> 32 * p <= (u / 32) * (32 * p)
    ensures (u % 32) * p <= 31 * p
  {
    var digit, rest := u % 32, u / 32;
    assert u == 32 * rest + digit;
    assert (32 * rest + digit) * p == rest * (32 * p) + digit * p;
    if u >= 32 {
      assert rest >= 1;
      MultiplyMonotonic(1, rest, 32 * p);
    }
    MultiplyMonotonic(digit, 31, p);
  }

  lemma MultiplyMonotonic(a: nat, b: nat, p: nat)
    requires a <= b
    ensures a * p <= b * p
  {
    assert b * p - a * p == (b - a) * p;
  }
}
