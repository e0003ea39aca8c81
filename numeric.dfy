/**
 * The numeric conventions of the source, written out over exact `real`s:
 * Python's int() truncation, float floor division, round(x, -3) and
 * round(x, 4), and the powers and discount sums of annuity arithmetic.
 */
module Numeric {

  /** Python's `int(x)` on a float: truncation toward zero. */
  function Trunc(x: real): (r: int)
    ensures x >= 0.0 ==> r as real <= x < r as real + 1.0
    ensures x < 0.0 ==> r as real - 1.0 < x <= r as real
    ensures x >= 0.0 ==> r >= 0
  {
    if x >= 0.0 then x.Floor else -((-x).Floor)
  }

  /** Python's `x // 10 * 10` on a float: floor to a multiple of 10. */
  function Floor10(x: real): (r: int)
    ensures r % 10 == 0
    ensures r as real <= x < r as real + 10.0
  {
    (x / 10.0).Floor * 10
  }

  /** Truncation toward zero of a value that is already a floor to 10 stays that value. */
  lemma TruncOfFloor10(x: real)
    ensures Trunc(Floor10(x) as real) == Floor10(x)
  {
  }

  /**
   * round(x, -3): a multiple of 1000 nearest to x. Ties are resolved upwards;
   * Python resolves them to the even multiple, which the contract leaves open.
   */
  function Round1000(x: real): (r: int)
    ensures r % 1000 == 0
    ensures x - 500.0 < r as real <= x + 500.0
  {
    ((x + 500.0) / 1000.0).Floor * 1000
  }

  /** Rounding to 1000 never reverses the order of two amounts. */
  lemma Round1000Monotone(x: real, y: real)
    requires x <= y
    ensures Round1000(x) <= Round1000(y)
  {
    assert (x + 500.0) / 1000.0 <= (y + 500.0) / 1000.0;
  }

  /** A multiple of 1000 is its own rounding. */
  lemma Round1000OfMultiple(k: int)
    ensures Round1000((k * 1000) as real) == k * 1000
  {
    var x := (k * 1000) as real;
    assert (x + 500.0) / 1000.0 == k as real + 0.5;
  }

  /** A real that has at most four decimal places. */
  predicate FourPlaces(x: real) {
    (x * 10000.0).Floor as real == x * 10000.0
  }

  /** round(x, 4), with ties resolved upwards (Python resolves them to even). */
  function Round4(x: real): (r: real)
    ensures FourPlaces(r)
    ensures x - 0.00005 < r <= x + 0.00005
  {
    var k := (x * 10000.0 + 0.5).Floor;
    assert (k as real / 10000.0) * 10000.0 == k as real;
    k as real / 10000.0
  }

  /** round(x, 4) never reverses the order of two rates. */
  lemma Round4Monotone(x: real, y: real)
    requires x <= y
    ensures Round4(x) <= Round4(y)
  {
    var kx := (x * 10000.0 + 0.5).Floor;
    var ky := (y * 10000.0 + 0.5).Floor;
    assert x * 10000.0 <= y * 10000.0;
    assert kx <= ky;
  }

  /** A rate with four decimal places is its own rounding. */
  lemma Round4OfFourPlaces(x: real)
    requires FourPlaces(x)
    ensures Round4(x) == x
  {
    var k := (x * 10000.0).Floor;
    assert (x * 10000.0 + 0.5).Floor == k;
    assert k as real / 10000.0 == x;
  }

  /** Rounding to four places keeps a rate inside any interval whose ends have four places. */
  lemma Round4Within(x: real, lo: real, hi: real)
    requires FourPlaces(lo) && FourPlaces(hi)
    requires lo <= x <= hi
    ensures lo <= Round4(x) <= hi
  {
    Round4Monotone(lo, x);
    Round4Monotone(x, hi);
    Round4OfFourPlaces(lo);
    Round4OfFourPlaces(hi);
  }

  /** x to the natural power n. */
  function Pow(x: real, n: nat): real {
    if n == 0 then 1.0 else x * Pow(x, n - 1)
  }

  /** A positive base has a positive power. */
  lemma {:induction false} PowPositive(x: real, n: nat)
    requires x > 0.0
    ensures Pow(x, n) > 0.0
  {
    if n > 0 {
      PowPositive(x, n - 1);
    }
  }

  /** A base above 1 has a power of at least the base itself, for n >= 1. */
  lemma {:induction false} PowAboveOne(x: real, n: nat)
    requires x > 1.0 && n >= 1
    ensures Pow(x, n) > 1.0
  {
    if n > 1 {
      PowAboveOne(x, n - 1);
    }
  }

  /** The discount factor (1 + r)^-n of n periods at a positive rate r. */
  function Discount(r: real, n: nat): (v: real)
    requires r > 0.0
    ensures 0.0 < v <= 1.0
    ensures n >= 1 ==> v < 1.0
    ensures v * Pow(1.0 + r, n) == 1.0
  {
    PowPositive(1.0 + r, n);
    var v := 1.0 / Pow(1.0 + r, n);
    if n >= 1 then PowAboveOne(1.0 + r, n); v else v
  }

  /**
   * The sum of discount factors 1/g^1 + ... + 1/g^n: the present value of n
   * unit payments at the end of each period.
   */
  function DiscountSum(g: real, n: nat): real
    requires g > 0.0
  {
    PowPositive(g, n);
    if n == 0 then 0.0 else DiscountSum(g, n - 1) + 1.0 / Pow(g, n)
  }

  /** The closed form (1 - v) / r of a discount sum whose last discount factor is v. */
  function ClosedSum(r: real, v: real): real
    requires r != 0.0
  {
    (1.0 - v) / r
  }

  /** One more period deflates a discount factor by 1 + r. */
  function Deflate(v: real, r: real): real
    requires r > 0.0
  {
    v / (1.0 + r)
  }

  /** The discount sum in closed form (1 - (1 + r)^-n) / r, over the discount factor. */
  lemma {:induction false} DiscountSumClosedForm(r: real, n: nat)
    requires r > 0.0
    ensures DiscountSum(1.0 + r, n) == ClosedSum(r, Discount(r, n))
  {
    if n == 0 {
      assert Discount(r, 0) == 1.0;
    } else {
      DiscountSumClosedForm(r, n - 1);
      DiscountNext(r, n);
      ClosedStep(r, Discount(r, n - 1));
    }
  }

  /** The n-th discount factor is the previous one deflated, and it is the n-th term of the sum. */
  lemma DiscountNext(r: real, n: nat)
    requires r > 0.0 && n >= 1
    ensures Discount(r, n) == Deflate(Discount(r, n - 1), r)
    ensures DiscountSum(1.0 + r, n) == DiscountSum(1.0 + r, n - 1) + Discount(r, n)
  {
    PowPositive(1.0 + r, n - 1);
    InverseOfProduct(1.0 + r, Pow(1.0 + r, n - 1));
  }

  /** Algebra: 1 / (g a) == (1 / a) / g. */
  lemma InverseOfProduct(g: real, a: real)
    requires g > 0.0 && a > 0.0
    ensures 1.0 / (g * a) == (1.0 / a) / g
  {
  }

  /** Algebra: the closed form grows by exactly the next deflated factor. */
  lemma ClosedStep(r: real, a: real)
    requires r > 0.0
    ensures ClosedSum(r, a) + Deflate(a, r) == ClosedSum(r, Deflate(a, r))
  {
    var b := a / (1.0 + r);
    assert b * (1.0 + r) == a;
    assert (1.0 - a) / r + b == (1.0 - a + r * b) / r;
    assert 1.0 - a + r * b == 1.0 - b;
  }

  /** The level payment (p - f v) r / (1 - v) that repays p down to f over a discount factor v. */
  function BalloonFormula(p: real, f: real, r: real, v: real): real
    requires v != 1.0
  {
    (p - f * v) * r / (1.0 - v)
  }

  /**
   * The level payment that, paid at the end of each of n periods at rate r,
   * repays p less a final balloon of f: (p - f v) r / (1 - v) with v = (1 + r)^-n.
   */
  function BalloonPayment(p: real, f: real, r: real, n: nat): real
    requires r > 0.0 && n >= 1
  {
    BalloonFormula(p, f, r, Discount(r, n))
  }

  /** The value m sum + f v of level payments m and a balloon f, given the discount sum and factor. */
  function Level(m: real, f: real, sum: real, v: real): real {
    m * sum + f * v
  }

  /** The present value of n end-of-period payments m and a final balloon f, at rate r. */
  function PresentValue(m: real, f: real, r: real, n: nat): real
    requires r > 0.0
  {
    Level(m, f, DiscountSum(1.0 + r, n), Discount(r, n))
  }

  /** The discount sum of at least one period is positive. */
  lemma {:induction false} DiscountSumPositive(g: real, n: nat)
    requires g > 0.0 && n >= 1
    ensures DiscountSum(g, n) > 0.0
  {
    PowPositive(g, n);
    if n > 1 {
      DiscountSumPositive(g, n - 1);
    }
  }

  /** The balloon payment repays p exactly, and it is the only level payment that does. */
  lemma BalloonRepays(p: real, f: real, r: real, n: nat, m: real)
    requires r > 0.0 && n >= 1
    ensures PresentValue(BalloonPayment(p, f, r, n), f, r, n) == p
    ensures PresentValue(m, f, r, n) == p <==> m == BalloonPayment(p, f, r, n)
  {
    DiscountSumClosedForm(r, n);
    RepayAlgebra(p, f, r, Discount(r, n), DiscountSum(1.0 + r, n));
    DiscountSumPositive(1.0 + r, n);
    LevelUnique(m, BalloonPayment(p, f, r, n), f, DiscountSum(1.0 + r, n), Discount(r, n));
  }

  /** Algebra: the balloon formula, valued with the closed-form discount sum, is worth p. */
  lemma RepayAlgebra(p: real, f: real, r: real, v: real, sum: real)
    requires v < 1.0 && r > 0.0 && sum == ClosedSum(r, v)
    ensures Level(BalloonFormula(p, f, r, v), f, sum, v) == p
  {
    var d := 1.0 - v;
    assert (r / d) * (d / r) == 1.0;
    assert (p - f * v) * r / d * sum == (p - f * v) * ((r / d) * (d / r));
  }

  /** Level payments with the same positive discount sum and balloon are worth the same only if equal. */
  lemma LevelUnique(m: real, b: real, f: real, sum: real, v: real)
    requires sum > 0.0
    ensures Level(m, f, sum, v) == Level(b, f, sum, v) <==> m == b
  {
    if Level(m, f, sum, v) == Level(b, f, sum, v) {
      assert (m - b) * sum == 0.0;
    }
  }
}
