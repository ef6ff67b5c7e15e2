/**
 * Exact decimal amounts and the two-decimal rounding applied to every balance.
 *
 * An amount is what a `BigDecimal` holds: an unscaled integer and a scale,
 * standing for unscaled * 10^-scale. Balances are whole cents (scale 2).
 * Rounding to cents breaks ties towards the even neighbour (banker's rounding).
 */
module Decimals {

  /** The exact number unscaled * 10^-scale. */
  datatype Decimal = Decimal(unscaled: int, scale: nat)

  function Pow10(k: nat): (r: nat)
    ensures r >= 1
  {
    if k == 0 then 1 else 10 * Pow10(k - 1)
  }

  lemma {:induction false} Pow10Add(i: nat, j: nat)
    ensures Pow10(i + j) == Pow10(i) * Pow10(j)
  {
    if i > 0 {
      Pow10Add(i - 1, j);
      calc {
        Pow10(i + j);
        10 * Pow10(i - 1 + j);
        10 * (Pow10(i - 1) * Pow10(j));
        (10 * Pow10(i - 1)) * Pow10(j);
      }
    }
  }

  function Max(a: nat, b: nat): nat
  {
    if a < b then b else a
  }

  function Abs(x: int): nat
  {
    if x < 0 then -x else x
  }

  /** The unscaled value of `d` when written with `s` fractional digits. */
  function ScaledAt(d: Decimal, s: nat): int
    requires d.scale <= s
  {
    d.unscaled * Pow10(s - d.scale)
  }

  /** Writing a decimal with more fractional digits does not change the number it stands for. */
  lemma ScaledAtRefines(d: Decimal, s: nat, t: nat)
    requires d.scale <= s <= t
    ensures ScaledAt(d, t) == ScaledAt(d, s) * Pow10(t - s)
  {
    Pow10Add(s - d.scale, t - s);
    assert t - d.scale == (s - d.scale) + (t - s);
    calc {
      ScaledAt(d, t);
      d.unscaled * (Pow10(s - d.scale) * Pow10(t - s));
      (d.unscaled * Pow10(s - d.scale)) * Pow10(t - s);
    }
  }

  /** A balance of `c` cents as a decimal. */
  function FromCents(c: int): Decimal
  {
    Decimal(c, 2)
  }

  /** The cents an amount with at most two fractional digits stands for. */
  function CentsOf(d: Decimal): int
    requires d.scale <= 2
  {
    ScaledAt(d, 2)
  }

  predicate IsNegative(d: Decimal)
  {
    d.unscaled < 0
  }

  /** `a` stands for a strictly larger number than `b`. */
  predicate Exceeds(a: Decimal, b: Decimal)
  {
    var s := Max(a.scale, b.scale);
    ScaledAt(a, s) > ScaledAt(b, s)
  }

  /** `a` and `b` stand for the same number, whatever their scales. */
  predicate SameValue(a: Decimal, b: Decimal)
  {
    var s := Max(a.scale, b.scale);
    ScaledAt(a, s) == ScaledAt(b, s)
  }

  /** Exact sum; like BigDecimal.add, the result has the larger of the two scales. */
  function Add(a: Decimal, b: Decimal): Decimal
  {
    var s := Max(a.scale, b.scale);
    Decimal(ScaledAt(a, s) + ScaledAt(b, s), s)
  }

  /** Exact difference; like BigDecimal.subtract, the result has the larger of the two scales. */
  function Sub(a: Decimal, b: Decimal): Decimal
  {
    var s := Max(a.scale, b.scale);
    Decimal(ScaledAt(a, s) - ScaledAt(b, s), s)
  }

  /** Add loses nothing: at every scale it can be written at, the sum is the sum of the operands. */
  lemma AddIsExact(a: Decimal, b: Decimal, t: nat)
    requires Max(a.scale, b.scale) <= t
    ensures Add(a, b).scale == Max(a.scale, b.scale)
    ensures ScaledAt(Add(a, b), t) == ScaledAt(a, t) + ScaledAt(b, t)
  {
    var s := Max(a.scale, b.scale);
    ScaledAtRefines(a, s, t);
    ScaledAtRefines(b, s, t);
    ScaledAtRefines(Add(a, b), s, t);
    assert ScaledAt(Add(a, b), s) == ScaledAt(a, s) + ScaledAt(b, s);
    assert (ScaledAt(a, s) + ScaledAt(b, s)) * Pow10(t - s)
        == ScaledAt(a, s) * Pow10(t - s) + ScaledAt(b, s) * Pow10(t - s);
  }

  /** Sub loses nothing: at every scale it can be written at, the difference is that of the operands. */
  lemma SubIsExact(a: Decimal, b: Decimal, t: nat)
    requires Max(a.scale, b.scale) <= t
    ensures Sub(a, b).scale == Max(a.scale, b.scale)
    ensures ScaledAt(Sub(a, b), t) == ScaledAt(a, t) - ScaledAt(b, t)
  {
    var s := Max(a.scale, b.scale);
    ScaledAtRefines(a, s, t);
    ScaledAtRefines(b, s, t);
    ScaledAtRefines(Sub(a, b), s, t);
    assert ScaledAt(Sub(a, b), s) == ScaledAt(a, s) - ScaledAt(b, s);
    assert (ScaledAt(a, s) - ScaledAt(b, s)) * Pow10(t - s)
        == ScaledAt(a, s) * Pow10(t - s) - ScaledAt(b, s) * Pow10(t - s);
  }

  // ---------------------------------------------------------------------------
  // Rounding to cents, ties to even
  // ---------------------------------------------------------------------------

  /**
   * `q` is an integer nearest to n / m, and when n / m lies exactly halfway
   * between two integers, `q` is the even one.
   */
  predicate IsNearestHalfEven(n: int, m: int, q: int)
    requires m >= 1
  {
    var e := n - q * m;
    2 * Abs(e) < m || (2 * Abs(e) == m && q % 2 == 0)
  }

  /** Integer division of n by m, rounded half-even. */
  function DivHalfEven(n: int, m: int): (q: int)
    requires m >= 1
    ensures IsNearestHalfEven(n, m, q)
  {
    var f := n / m;
    var rem := n % m;
    assert n - f * m == rem;
    assert n - (f + 1) * m == rem - m;
    if 2 * rem < m then f
    else if 2 * rem > m then f + 1
    else if f % 2 == 0 then f
    else f + 1
  }

  /** The scale at which a decimal is compared with whole cents: at least two digits. */
  function CentScale(d: Decimal): nat
  {
    Max(d.scale, 2)
  }

  /** `c` cents is `d` rounded to two decimals, ties to even. */
  predicate RoundsTo(d: Decimal, c: int)
  {
    IsNearestHalfEven(ScaledAt(d, CentScale(d)), Pow10(CentScale(d) - 2), c)
  }

  /** Rounds `d` to whole cents, half-even; exact when `d` has at most two decimals. */
  function Round2(d: Decimal): (c: int)
    ensures RoundsTo(d, c)
  {
    if d.scale <= 2 then ScaledAt(d, 2)
    else DivHalfEven(d.unscaled, Pow10(d.scale - 2))
  }

  lemma MulAtLeastTwice(k: int, m: int)
    requires k >= 2 && m >= 1
    ensures k * m >= 2 * m
  {
    assert k * m == 2 * m + (k - 2) * m;
  }

  lemma MulAtLeastOnce(k: int, m: int)
    requires k >= 1 && m >= 1
    ensures k * m >= m
  {
    assert k * m == m + (k - 1) * m;
  }

  /** A multiple of m no larger than m in size is at most one m. */
  lemma SmallMultiple(k: int, m: int)
    requires m >= 1 && Abs(k * m) <= m
    ensures Abs(k) <= 1
  {
    assert Abs(k * m) == Abs(k) * m;
    if Abs(k) >= 2 {
      MulAtLeastTwice(Abs(k), m);
    }
  }

  /** There is only one half-even nearest quotient. */
  lemma NearestHalfEvenUnique(n: int, m: int, q1: int, q2: int)
    requires m >= 1
    requires IsNearestHalfEven(n, m, q1) && IsNearestHalfEven(n, m, q2)
    ensures q1 == q2
  {
    var e1 := n - q1 * m;
    var e2 := n - q2 * m;
    var k := q2 - q1;
    assert e1 - e2 == k * m;
    SmallMultiple(k, m);
    // Neighbouring quotients are both nearest only at a tie, and then both would be even.
    assert Abs(k) == 1 ==> 2 * Abs(e1) == m && 2 * Abs(e2) == m;
  }

  /** There is only one way to round a decimal to cents. */
  lemma RoundsToUnique(d: Decimal, c1: int, c2: int)
    requires RoundsTo(d, c1) && RoundsTo(d, c2)
    ensures c1 == c2
  {
    NearestHalfEvenUnique(ScaledAt(d, CentScale(d)), Pow10(CentScale(d) - 2), c1, c2);
  }

  /** Rounding is bounded by any whole number the exact quotient is bounded by. */
  lemma NearestBounds(n: int, m: int, q: int, c: int)
    requires m >= 1 && IsNearestHalfEven(n, m, q)
    ensures n >= c * m ==> q >= c
    ensures n <= c * m ==> q <= c
  {
    assert n - q * m == (n - c * m) + (c - q) * m;
    if n >= c * m && q < c {
      MulAtLeastOnce(c - q, m);
    }
    if n <= c * m && q > c {
      MulAtLeastOnce(q - c, m);
    }
  }

  /**
   * Rounding two quotients over the same divisor separately moves their sum
   * by at most one, when the exact sum is a whole number.
   */
  lemma NearestSumWithinOne(n1: int, n2: int, m: int, q1: int, q2: int, c: int)
    requires m >= 1 && IsNearestHalfEven(n1, m, q1) && IsNearestHalfEven(n2, m, q2)
    requires n1 + n2 == c * m
    ensures Abs(q1 + q2 - c) <= 1
  {
    var k := q1 + q2 - c;
    assert k * m == q1 * m + q2 * m - c * m;
    assert k * m == (q1 * m - n1) + (q2 * m - n2);
    SmallMultiple(k, m);
  }

  /**
   * Taking an amount off one balance and adding it to another, each result
   * rounded to cents, changes the sum of the two balances by at most a cent.
   */
  lemma MovedWithinOneCent(from: int, to: int, amount: Decimal, newFrom: int, newTo: int)
    requires RoundsTo(Sub(FromCents(from), amount), newFrom)
    requires RoundsTo(Add(FromCents(to), amount), newTo)
    ensures Abs(newFrom + newTo - (from + to)) <= 1
  {
    var s := Max(amount.scale, 2);
    var m := Pow10(s - 2);
    SubIsExact(FromCents(from), amount, s);
    AddIsExact(FromCents(to), amount, s);
    assert (from + to) * m == from * m + to * m;
    NearestSumWithinOne(ScaledAt(Sub(FromCents(from), amount), s), ScaledAt(Add(FromCents(to), amount), s),
                        m, newFrom, newTo, from + to);
  }

  /** A quotient that lands on a whole number is that number. */
  lemma NearestOfExact(m: int, c: int, q: int)
    requires m >= 1 && IsNearestHalfEven(c * m, m, q)
    ensures q == c
  {
    assert IsNearestHalfEven(c * m, m, c);
    NearestHalfEvenUnique(c * m, m, q, c);
  }
}
