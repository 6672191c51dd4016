/** The spaced-repetition rule of services/utils.py: the next review date of a word from its
    success and attempt counts. Floats are modelled as reals and dates as day numbers; `today`
    is a parameter in place of `date.today()`. */
module Scheduler {

  const BaseInterval: real := 1.0
  const GrowthFactor: real := 1.7
  /** The accuracy at which the interval is neither stretched nor shrunk. */
  const NeutralRate: real := 0.75

  /** calculate_success_rate: the share of successful attempts, 0 when there were none. */
  function SuccessRate(success: int, total: int): (rate: real)
    ensures total == 0 ==> rate == 0.0
    ensures total != 0 ==> rate * total as real == success as real
    ensures 0 <= success <= total ==> 0.0 <= rate <= 1.0
  {
    if total == 0 then 0.0
    else
      var rate := success as real / total as real;
      assert 0 <= success <= total ==> rate <= 1.0 by {
        if 0 <= success <= total {
          assert rate * total as real == success as real;
          assert success as real <= total as real;
        }
      }
      rate
  }

  /** `b ** n` for a natural exponent. */
  function Pow(b: real, n: nat): (r: real)
    ensures b > 0.0 ==> r > 0.0
  {
    if n == 0 then 1.0 else b * Pow(b, n - 1)
  }

  /** For a base above 1, the power grows strictly with the exponent. */
  lemma {:induction false} PowStrictlyIncreasing(b: real, m: nat, n: nat)
    requires b > 1.0 && m < n
    ensures Pow(b, m) < Pow(b, n)
  {
    var p := Pow(b, n - 1);
    assert Pow(b, n) - p == (b - 1.0) * p;
    PositiveProduct(b - 1.0, p);
    if n - 1 > m {
      PowStrictlyIncreasing(b, m, n - 1);
    }
  }

  lemma PositiveProduct(x: real, y: real)
    requires x > 0.0 && y > 0.0
    ensures x * y > 0.0
  {
  }

  /** A positive factor keeps the sign of the other one. */
  lemma ProductSign(p: real, f: real)
    requires p > 0.0
    ensures p * f > 0.0 <==> f > 0.0
    ensures p * f < 0.0 <==> f < 0.0
  {
    if f > 0.0 {
      PositiveProduct(p, f);
    } else if f < 0.0 {
      PositiveProduct(p, -f);
    }
  }

  /** The accuracy adjustment: above the neutral rate it stretches the interval, below it
      shrinks it. Its two branches meet at the neutral rate: it is the line 2·rate − 0.5. */
  function AdjustmentFactor(rate: real): (f: real)
    ensures f == 2.0 * rate - 0.5
    ensures rate == NeutralRate ==> f == 1.0
    ensures rate == 1.0 ==> f == 1.5
    ensures rate == 0.25 ==> f == 0.0
    ensures rate < 0.25 ==> f < 0.0
  {
    if rate >= NeutralRate then 1.0 + (rate - NeutralRate) * 2.0
    else 1.0 - (NeutralRate - rate) * 2.0
  }

  /** calculate_next_interval: 1.7^success days scaled by the adjustment; never clamped here. */
  function NextInterval(success: nat, rate: real): (days: real)
    ensures rate == NeutralRate ==> days == Pow(GrowthFactor, success)
    ensures days > 0.0 <==> rate > 0.25
    ensures days < 0.0 <==> rate < 0.25
  {
    var p := Pow(GrowthFactor, success);
    var f := AdjustmentFactor(rate);
    ProductSign(p, f);
    BaseInterval * p * f
  }

  /** The bare interval can be zero or negative: with no success and no accuracy it is −0.5. */
  lemma NextIntervalCanBeNegative()
    ensures NextInterval(0, 0.0) == -0.5
  {
  }

  /** For a fixed success count, a better accuracy never gives a shorter interval, and a
      strictly better one gives a strictly longer interval. */
  lemma NextIntervalMonotoneInRate(success: nat, r1: real, r2: real)
    requires r1 <= r2
    ensures NextInterval(success, r1) <= NextInterval(success, r2)
    ensures r1 < r2 ==> NextInterval(success, r1) < NextInterval(success, r2)
  {
    var p := Pow(GrowthFactor, success);
    assert p > 0.0;
    assert NextInterval(success, r1) == p * AdjustmentFactor(r1);
    assert NextInterval(success, r2) == p * AdjustmentFactor(r2);
    assert NextInterval(success, r2) - NextInterval(success, r1) == p * (2.0 * (r2 - r1));
    if r1 < r2 {
      PositiveProduct(p, 2.0 * (r2 - r1));
    }
  }

  /** For a fixed accuracy with a positive adjustment, more successes give a longer interval. */
  lemma NextIntervalIncreasingInSuccess(s1: nat, s2: nat, rate: real)
    requires s1 < s2 && AdjustmentFactor(rate) > 0.0
    ensures NextInterval(s1, rate) < NextInterval(s2, rate)
  {
    PowStrictlyIncreasing(GrowthFactor, s1, s2);
    var f := AdjustmentFactor(rate);
    assert NextInterval(s1, rate) == Pow(GrowthFactor, s1) * f;
    assert NextInterval(s2, rate) == Pow(GrowthFactor, s2) * f;
    var d := Pow(GrowthFactor, s2) - Pow(GrowthFactor, s1);
    assert NextInterval(s2, rate) - NextInterval(s1, rate) == d * f;
    PositiveProduct(d, f);
    assert d * f > 0.0;
  }

  /** calculate_next_review_date: today plus the whole days of the interval, pushed to tomorrow
      when that is not in the future. `timedelta(days=x)` is taken to keep floor(x) days;
      its rounding of x to whole microseconds first is not modelled. */
  function NextReviewDate(success: nat, total: nat, today: int): (day: int)
    ensures day > today
    ensures var x := NextInterval(success, SuccessRate(success, total));
      if x >= 1.0 then (day - today) as real <= x < (day - today + 1) as real
      else day == today + 1
  {
    var x := NextInterval(success, SuccessRate(success, total));
    var candidate := today + x.Floor;
    if candidate <= today then today + 1 else candidate
  }

  /** Four successes out of five attempts: 1.7^4 · 1.1 ≈ 9.19 days, so the word comes back in
      nine days. */
  lemma NextReviewDateExample(today: int)
    ensures NextReviewDate(4, 5, today) == today + 9
  {
    assert SuccessRate(4, 5) == 0.8;
    assert Pow(GrowthFactor, 4) == 8.3521;
    assert NextInterval(4, 0.8) == 9.18731;
  }
}
