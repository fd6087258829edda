/** Exact decimal rounding in place of `Number.prototype.toFixed(2)`. */
module Money {
  import opened Common
  import opened Constants

  /** n / d rounded to the nearest integer, halves away from zero: this is
      what `toFixed` does with a value that is exactly representable. */
  function RoundHalfUp(n: int, d: int): (q: int)
    requires d > 0
    ensures n >= 0 ==> q >= 0 && 2 * n - d < 2 * d * q <= 2 * n + d
    ensures n < 0 ==> q <= 0 && 2 * n - d <= 2 * d * q < 2 * n + d
  {
    if n >= 0 then NearestUp(n, d) else 0 - NearestUp(-n, d) as int
  }

  /** Nearest integer to n / d for n >= 0, ties upwards. */
  function NearestUp(n: nat, d: int): (q: nat)
    requires d > 0
    ensures 2 * n - d < 2 * d * q <= 2 * n + d
  {
    var q := (2 * n + d) / (2 * d);
    DivBounds(2 * n + d, 2 * d);
    q
  }

  lemma DivBounds(x: nat, m: int)
    requires m > 0
    ensures m * (x / m) <= x < m * (x / m) + m
  {
  }

  /** Exactly one integer q satisfies the rounding bounds, so the bounds
      define the rounding. */
  lemma {:induction false} NearestIsUnique(n: nat, d: int, q: int, q': int)
    requires d > 0
    requires 2 * n - d < 2 * d * q <= 2 * n + d
    requires 2 * n - d < 2 * d * q' <= 2 * n + d
    ensures q == q'
  {
    MulMonotone(2 * d, q + 1, q');
    MulMonotone(2 * d, q' + 1, q);
  }

  lemma MulMonotone(m: nat, a: int, b: int)
    ensures a <= b ==> m * a <= m * b
  {
  }

  /** Rounding is symmetric about zero: a negative value rounds to the
      negation of its magnitude's rounding. */
  lemma RoundHalfUpOdd(n: int, d: int)
    requires d > 0
    ensures RoundHalfUp(-n, d) == -RoundHalfUp(n, d)
  {
  }

  /** The platform's share of a payment: `amount * COMMISSION_RATE` to the
      cent. A negative amount (nothing in the handlers refuses one) gives a
      share between it and zero. */
  function Commission(amount: Cents): (c: Cents)
    ensures amount >= 0 ==> 0 <= c <= amount
    ensures amount < 0 ==> amount <= c <= 0
    ensures amount >= 0 ==> 2 * CommissionPercent * amount - 100 < 200 * c <= 2 * CommissionPercent * amount + 100
    ensures amount < 0 ==> 2 * CommissionPercent * amount - 100 <= 200 * c < 2 * CommissionPercent * amount + 100
  {
    RoundHalfUp(amount * CommissionPercent, 100)
  }

  /** The worker's share: the amount less the unrounded commission, to the
      cent; between the amount and zero whatever its sign. */
  function Payout(amount: Cents): (p: Cents)
    ensures amount >= 0 ==> 0 <= p <= amount
    ensures amount < 0 ==> amount <= p <= 0
    ensures amount >= 0 ==> 2 * (100 - CommissionPercent) * amount - 100 < 200 * p <= 2 * (100 - CommissionPercent) * amount + 100
    ensures amount < 0 ==> 2 * (100 - CommissionPercent) * amount - 100 <= 200 * p < 2 * (100 - CommissionPercent) * amount + 100
  {
    RoundHalfUp(amount * (100 - CommissionPercent), 100)
  }

  /** Because both shares are rounded independently, they add up to the
      amount except when the commission falls on exactly half a cent
      (amount = 10 mod 20 cents). There both shares round away from zero:
      the sum is one cent over for a positive amount and one cent short for
      a negative one. */
  lemma {:induction false} SplitSum(amount: Cents)
    ensures Commission(amount) + Payout(amount) ==
      amount + (if amount % 20 != 10 then 0 else if amount >= 0 then 1 else -1)
  {
    if amount < 0 {
      var m: nat := -amount;
      SplitSumOfNonNegative(m);
      assert Commission(amount) == -Commission(m) by {
        RoundHalfUpOdd(m * CommissionPercent, 100);
      }
      assert Payout(amount) == -Payout(m) by {
        RoundHalfUpOdd(m * (100 - CommissionPercent), 100);
      }
      HalfCentOfNegation(m);
    } else {
      SplitSumOfNonNegative(amount);
    }
  }

  /** m and -m fall on the half-cent case together. */
  lemma HalfCentOfNegation(m: int)
    ensures (-m) % 20 == 10 <==> m % 20 == 10
  {
    var q, q' := m / 20, (-m) / 20;
    assert m == 20 * q + m % 20;
    assert -m == 20 * q' + (-m) % 20;
    if m % 20 == 10 {
      assert -m == 20 * (-q - 1) + 10;
    }
    if (-m) % 20 == 10 {
      assert m == 20 * (-q' - 1) + 10;
    }
  }

  lemma {:induction false} SplitSumOfNonNegative(amount: nat)
    ensures Commission(amount) + Payout(amount) == amount + (if amount % 20 == 10 then 1 else 0)
  {
    var k, r := amount / 20, amount % 20;
    assert amount == 20 * k + r;
    var cr, pr := (30 * r + 100) / 200, (170 * r + 100) / 200;
    ShareOfBlock(k, r, 3, cr);
    ShareOfBlock(k, r, 17, pr);
    RemainderShares(r);
  }

  /** Rounding 5·fifth percent of 20k + r cents: each whole block of 20 cents
      contributes exactly `fifth` cents, the remainder its own rounded share. */
  lemma ShareOfBlock(k: nat, r: nat, fifth: nat, q: int)
    requires r < 20
    requires q == (10 * fifth * r + 100) / 200
    ensures RoundHalfUp((20 * k + r) * (5 * fifth), 100) == fifth * k + q
  {
    var n := (20 * k + r) * (5 * fifth);
    var blocks, rest := fifth * k, 5 * fifth * r;
    assert n == 100 * blocks + rest by {
      BlockProduct(k, r, fifth);
    }
    DivBounds(10 * fifth * r + 100, 200);
    assert 2 * rest == 10 * fifth * r;
    assert 2 * n - 100 < 200 * (blocks + q) <= 2 * n + 100;
    NearestIsUnique(n, 100, RoundHalfUp(n, 100), blocks + q);
  }

  lemma BlockProduct(k: nat, r: nat, fifth: nat)
    ensures (20 * k + r) * (5 * fifth) == 100 * (fifth * k) + 5 * fifth * r
  {
    calc {
      (20 * k + r) * (5 * fifth);
      20 * k * (5 * fifth) + r * (5 * fifth);
      100 * (k * fifth) + 5 * fifth * r;
    }
  }

  /** The rounded shares of the remainder add up to it, except at 10 cents. */
  lemma RemainderShares(r: nat)
    requires r < 20
    ensures (30 * r + 100) / 200 + (170 * r + 100) / 200 == r + (if r == 10 then 1 else 0)
  {
    if r < 4 {
    } else if r < 8 {
    } else if r < 12 {
    } else if r < 16 {
    } else {
    }
  }

  /** `calculatePayment(100)`: 15.00 commission and 85.00 payout. */
  lemma HundredSplits()
    ensures Commission(10000) == 1500 && Payout(10000) == 8500
  {
  }
}
