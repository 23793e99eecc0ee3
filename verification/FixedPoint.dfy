// Fixed-point arithmetic shared by the contracts: 18 decimals in an i128, with
// overflow checks switched on, so that a value out of range aborts the call.
module FixedPoint {

  const ONE: int := 1_000_000_000_000_000_000

  const I128_MAX: int := 0x7FFF_FFFF_FFFF_FFFF_FFFF_FFFF_FFFF_FFFF
  const I128_MIN: int := -I128_MAX - 1

  predicate InI128(x: int) {
    I128_MIN <= x <= I128_MAX
  }

  const TWO_TO_THE_64: int := 0x1_0000_0000_0000_0000

  type U64 = x: int | 0 <= x < TWO_TO_THE_64

  // Rust's `/` truncates towards zero, Dafny's does not.
  function TruncDiv(a: int, b: int): int
    requires b != 0
  {
    var q := (if a < 0 then -a else a) / (if b < 0 then -b else b);
    if (a < 0) == (b < 0) then q else -q
  }

  // A zero factor short-circuits the division. A zero divisor is a panic, which
  // `MulDivFits` reports; the value given for it here is never used.
  function MulDiv(a: int, b: int, c: int): int {
    if a == 0 || b == 0 || c == 0 then 0 else TruncDiv(a * b, c)
  }

  // The calls of `MulDiv` that return instead of panicking.
  predicate MulDivFits(a: int, b: int, c: int) {
    a == 0 || b == 0 || (c != 0 && InI128(a * b) && InI128(MulDiv(a, b, c)))
  }

  function PercentOf(value: int, percent: int): int {
    MulDiv(value, percent, ONE)
  }

  predicate PercentOfFits(value: int, percent: int) {
    MulDivFits(value, percent, ONE)
  }

  function AbsDiff(a: int, b: int): int {
    if a > b then a - b else b - a
  }

  function Abs(x: int): nat {
    if x < 0 then -x else x
  }

  // Truncation: what is left over is smaller than the divisor and has the dividend's sign.
  lemma TruncDivMeaning(a: int, b: int)
    requires b != 0
    ensures var r := a - TruncDiv(a, b) * b; Abs(r) < Abs(b) && (r > 0 ==> a > 0) && (r < 0 ==> a < 0)
  {
  }

  lemma TruncDivInRange(a: int, b: int)
    requires b != 0 && InI128(a)
    ensures InI128(TruncDiv(a, b)) <==> !(b == -1 && a == I128_MIN)
  {
    if b != 1 && b != -1 {
      var x, y := Abs(a), Abs(b);
      DivFloor(x, y);
      MulKeepsOrder(2, y, x / y);
    }
  }

  // `q` is the exact quotient of `a` by `c`, rounded towards zero.
  predicate IsTruncated(q: int, a: int, c: int) {
    Abs(a - q * c) < Abs(c) && (a - q * c > 0 ==> a > 0) && (a - q * c < 0 ==> a < 0)
  }

  lemma TruncatedUnique(q: int, q': int, a: int, c: int)
    requires c > 0 && IsTruncated(q, a, c) && IsTruncated(q', a, c)
    ensures q == q'
  {
    var r, r' := a - q * c, a - q' * c;
    assert (q - q') * c == r' - r;
    assert -c < r' - r < c;
    if q > q' {
      MulKeepsOrder(1, q - q', c);
    } else if q < q' {
      MulKeepsOrder(q - q', -1, c);
    }
  }

  // For operands of any sign `mul_div` truncates the exact quotient, and it panics if and
  // only if a nonzero product is out of range or divided by zero (or negated out of range).
  lemma MulDivMeaning(a: int, b: int, c: int)
    ensures c != 0 ==> IsTruncated(MulDiv(a, b, c), a * b, c)
    ensures c != 0 ==> (MulDivFits(a, b, c) <==> InI128(a * b) && !(c == -1 && a * b == I128_MIN))
    ensures c == 0 ==> (MulDivFits(a, b, c) <==> a * b == 0)
  {
    if a == 0 || b == 0 {
      assert a * b == 0;
    } else {
      assert a * b != 0;
      if c != 0 {
        TruncDivMeaning(a * b, c);
        if InI128(a * b) {
          TruncDivInRange(a * b, c);
        }
      }
    }
  }

  // ---- What MulDiv means on nonnegative operands: the floor of the exact quotient

  lemma MulNonNegative(a: int, b: int)
    requires a >= 0 && b >= 0
    ensures a * b >= 0
  {
  }

  lemma MulMonotone(a: int, b: int, a': int, b': int)
    requires 0 <= a <= a' && 0 <= b <= b'
    ensures 0 <= a * b <= a' * b'
  {
  }

  lemma MulOrder(a: int, b: int, c: int)
    requires c > 0
    ensures a * c < b * c <==> a < b
    ensures a * c <= b * c <==> a <= b
  {
  }

  lemma DivFloor(x: int, c: int)
    requires x >= 0 && c > 0
    ensures x / c >= 0
    ensures (x / c) * c <= x < (x / c) * c + c
  {
  }

  lemma MulDivFloor(a: int, b: int, c: int)
    requires a >= 0 && b >= 0 && c > 0
    ensures MulDiv(a, b, c) >= 0
    ensures MulDiv(a, b, c) * c <= a * b < MulDiv(a, b, c) * c + c
  {
    MulNonNegative(a, b);
    DivFloor(a * b, c);
    if a == 0 || b == 0 {
      assert a * b == 0;
    }
  }

  // The floor is the greatest integer that does not exceed the quotient.
  lemma FloorGreatest(a: int, b: int, c: int, k: int)
    requires a >= 0 && b >= 0 && c > 0
    ensures k * c <= a * b <==> k <= MulDiv(a, b, c)
  {
    var q := MulDiv(a, b, c);
    MulDivFloor(a, b, c);
    assert (q + 1) * c == q * c + c;
    MulOrder(k, q, c);
    MulOrder(k, q + 1, c);
  }

  // `q` is the exact quotient of `a` by `c`, rounded down.
  predicate IsFloor(q: int, a: int, c: int) {
    q * c <= a < q * c + c
  }

  lemma FloorUnique(q: int, q': int, a: int, c: int)
    requires c > 0 && IsFloor(q, a, c) && IsFloor(q', a, c)
    ensures q == q'
  {
    assert (q + 1) * c == q * c + c && (q' + 1) * c == q' * c + c;
    MulOrder(q, q' + 1, c);
    MulOrder(q', q + 1, c);
  }

  lemma IsFloorIff(q: int, a: int, b: int, c: int)
    requires a >= 0 && b >= 0 && c > 0
    ensures IsFloor(q, a * b, c) <==> q == MulDiv(a, b, c)
  {
    MulDivFloor(a, b, c);
    FloorGreatest(a, b, c, q);
    FloorGreatest(a, b, c, q + 1);
    assert (q + 1) * c == q * c + c;
  }

  lemma FloorIsQuotient(a: int, b: int, c: int)
    requires a >= 0 && b >= 0 && c > 0
    ensures MulDiv(a, b, c) == a * b / c >= 0
  {
    MulNonNegative(a, b);
    DivFloor(a * b, c);
    IsFloorIff(a * b / c, a, b, c);
  }

  lemma MulDivMonotone(a: int, b: int, a': int, b': int, c: int)
    requires 0 <= a <= a' && 0 <= b <= b' && c > 0
    ensures 0 <= MulDiv(a, b, c) <= MulDiv(a', b', c)
  {
    MulDivFloor(a, b, c);
    MulMonotone(a, b, a', b');
    FloorGreatest(a', b', c, MulDiv(a, b, c));
  }

  // A factor at most the divisor shrinks the other one.
  lemma MulDivShrinks(a: int, b: int, c: int)
    requires 0 <= a && 0 <= b <= c && c > 0
    ensures 0 <= MulDiv(a, b, c) <= a
  {
    assert a * b <= a * c;
    assert (a + 1) * c == a * c + c;
    FloorGreatest(a, b, c, a + 1);
    MulDivFloor(a, b, c);
  }

  // A factor at least the divisor grows the other one.
  lemma MulDivGrows(a: int, b: int, c: int)
    requires 0 <= a && b >= c > 0
    ensures MulDiv(a, b, c) >= a
  {
    assert a * c <= a * b;
    FloorGreatest(a, b, c, a);
  }

  lemma MulDivCommutes(a: int, b: int, c: int)
    ensures MulDiv(a, b, c) == MulDiv(b, a, c)
  {
  }

  // On nonnegative operands only a product out of range panics.
  lemma ProductFitsIff(a: int, b: int, c: int)
    requires a >= 0 && b >= 0 && c > 0
    ensures MulDivFits(a, b, c) <==> a * b <= I128_MAX
    ensures 0 <= MulDiv(a, b, c) <= a * b
  {
    MulNonNegative(a, b);
    MulDivMeaning(a, b, c);
    MulDivFloor(a, b, c);
    MulKeepsOrder(1, c, MulDiv(a, b, c));
    assert 1 * MulDiv(a, b, c) <= c * MulDiv(a, b, c);
    assert c * MulDiv(a, b, c) == MulDiv(a, b, c) * c;
  }

  // A sum of floors is at most the floor of the sum, and short of it by at most one.
  lemma FloorsOfSum(a: int, a': int, b: int, c: int)
    requires a >= 0 && a' >= 0 && b >= 0 && c > 0
    ensures MulDiv(a, b, c) + MulDiv(a', b, c) <= MulDiv(a + a', b, c)
    ensures MulDiv(a + a', b, c) <= MulDiv(a, b, c) + MulDiv(a', b, c) + 1
  {
    var q, q' := MulDiv(a, b, c), MulDiv(a', b, c);
    MulDivFloor(a, b, c);
    MulDivFloor(a', b, c);
    assert (a + a') * b == a * b + a' * b;
    assert (q + q') * c == q * c + q' * c;
    assert (q + q' + 2) * c == q * c + q' * c + 2 * c;
    FloorGreatest(a + a', b, c, q + q');
    FloorGreatest(a + a', b, c, q + q' + 2);
  }

  // ---- Chaining two bounds on quotients

  lemma MulKeepsOrder(a: int, b: int, c: int)
    requires a <= b && c >= 0
    ensures a * c <= b * c
  {
  }

  // From p/p0 <= y/x and p'/p <= rate/one follows p'/p0 <= (rate*y)/(one*x).
  lemma ChainAtMost(p0: int, p: int, p': int, x: int, one: int, y: int, rate: int)
    requires x >= 0 && rate >= 0
    requires p * x <= p0 * y && p' * one <= p * rate
    ensures p' * (one * x) <= p0 * (rate * y)
  {
  }

  lemma ChainAtLeast(p0: int, p: int, p': int, x: int, one: int, y: int, rate: int)
    requires x >= 0 && rate >= 0
    requires p * x >= p0 * y && p' * one >= p * rate
    ensures p' * (one * x) >= p0 * (rate * y)
  {
  }

  // ---- Powers

  function Pow(b: int, n: nat): int {
    if n == 0 then 1 else b * Pow(b, n - 1)
  }

  lemma {:induction false} PowPositive(b: int, n: nat)
    requires b > 0
    ensures Pow(b, n) > 0
  {
    if n > 0 {
      PowPositive(b, n - 1);
      assert b * Pow(b, n - 1) >= Pow(b, n - 1);
    }
  }

  lemma {:induction false} PowMonotone(b: int, b': int, n: nat)
    requires 0 <= b <= b'
    ensures 0 <= Pow(b, n) <= Pow(b', n)
  {
    if n > 0 {
      PowMonotone(b, b', n - 1);
      MulMonotone(b, Pow(b, n - 1), b', Pow(b', n - 1));
    }
  }
}
