/**
 Rate-limit policies: which limits are accepted, and the replenishment interval they stand for
 (ratelimit/limit.go and emissionInterval of ratelimit/memory/store.go).

 Go's int, int64 and time.Duration are 64-bit here. Every operation that could leave that range goes
 through Norm, so that overflow is a result of the model and not an omission from it.
 */
module Limits {
  const MAX_INT64: int := 0x7fff_ffff_ffff_ffff
  const MIN_INT64: int := -0x8000_0000_0000_0000
  const MICROSECOND: int := 1000

  predicate InInt64(x: int) {
    MIN_INT64 <= x <= MAX_INT64
  }

  /** Two's-complement wrap-around of a 64-bit signed result. */
  function Wrap64(x: int): (r: int)
    ensures InInt64(r)
    ensures InInt64(x) ==> r == x
  {
    (x - MIN_INT64) % 0x1_0000_0000_0000_0000 + MIN_INT64
  }

  /** Machine is what the Go code computes; Exact is the same formula over the integers. */
  datatype Arith = Machine | Exact

  function Norm(arith: Arith, x: int): int {
    if arith == Machine then Wrap64(x) else x
  }

  /** period is in nanoseconds. */
  datatype Limit = Limit(rate: int, period: int, burst: int)

  datatype LimitCheck =
    | Accepted
    | RateNotPositive
    | PeriodNotPositive
    | BurstNotPositive
    | IntervalTooShort
    | BurstDurationOverflows

  function DivideRoundUp(value: int, divisor: int): (r: int)
    requires value >= 0 && divisor > 0
    ensures (r - 1) * divisor < value <= r * divisor
  {
    value / divisor + (if value % divisor != 0 then 1 else 0)
  }

  /** Limits whose fields fit Go's types; anything else cannot be written down in the source. */
  predicate Representable(limit: Limit) {
    InInt64(limit.rate) && InInt64(limit.period) && InInt64(limit.burst)
  }

  function ValidateLimit(limit: Limit): LimitCheck {
    if limit.rate <= 0 then RateNotPositive
    else if limit.period <= 0 then PeriodNotPositive
    else if limit.burst <= 0 then BurstNotPositive
    else if limit.rate > limit.period / MICROSECOND then IntervalTooShort
    else
      var interval := DivideRoundUp(DivideRoundUp(limit.period, limit.rate), MICROSECOND);
      if limit.burst > MAX_INT64 / interval || Wrap64(interval * limit.burst) > MAX_INT64 / MICROSECOND
      then BurstDurationOverflows
      else Accepted
  }

  predicate Valid(limit: Limit) {
    Representable(limit) && ValidateLimit(limit) == Accepted
  }

  /** The replenishment interval in whole microseconds, computed in two rounded-up stages. */
  function EmissionInterval(limit: Limit): int
    requires limit.rate > 0 && limit.period >= 0
  {
    var interval := limit.period / limit.rate + (if limit.period % limit.rate != 0 then 1 else 0);
    interval / MICROSECOND + (if interval % MICROSECOND != 0 then 1 else 0)
  }

  /** r is the least integer whose product with divisor reaches value: the ceiling of value / divisor. */
  ghost predicate IsCeiling(r: int, value: int, divisor: int) {
    (r - 1) * divisor < value <= r * divisor
  }

  /** Rounding up twice is rounding up once by the product. */
  lemma CeilingOfCeiling(q: int, r: int, value: int, d: int, e: int)
    requires d > 0 && e > 0
    requires IsCeiling(q, value, d) && IsCeiling(r, q, e)
    ensures IsCeiling(r, value, d * e)
  {
    assert value <= q * d <= (r * e) * d;
    assert (r * e) * d == r * (d * e);
    assert (r - 1) * e <= q - 1;
    assert ((r - 1) * e) * d <= (q - 1) * d < value;
    assert ((r - 1) * e) * d == (r - 1) * (d * e);
  }

  /**
   The two-stage interval is the exact ceiling of period / (rate microseconds), and a full rate of
   intervals covers the period, so the limiter never replenishes faster than its policy.
   */
  lemma IntervalIsExactCeiling(limit: Limit)
    requires limit.rate > 0 && limit.period >= 0
    ensures IsCeiling(EmissionInterval(limit), limit.period, limit.rate * MICROSECOND)
    ensures limit.rate * (EmissionInterval(limit) * MICROSECOND) >= limit.period
  {
    var q := DivideRoundUp(limit.period, limit.rate);
    CeilingOfCeiling(q, EmissionInterval(limit), limit.period, limit.rate, MICROSECOND);
    var i := EmissionInterval(limit);
    assert i * (limit.rate * MICROSECOND) == limit.rate * (i * MICROSECOND);
  }

  /** What ValidateLimit accepts, said without its intermediate divisions. */
  ghost predicate Admissible(limit: Limit) {
    && limit.rate > 0 && limit.period > 0 && limit.burst > 0
    && limit.rate * MICROSECOND <= limit.period
    && EmissionInterval(limit) * limit.burst * MICROSECOND <= MAX_INT64
  }

  lemma RateFitsPeriod(limit: Limit)
    requires limit.rate > 0 && limit.period > 0
    ensures limit.rate > limit.period / MICROSECOND <==> limit.rate * MICROSECOND > limit.period
  {
  }

  lemma QuotientBound(x: int, y: int, bound: int)
    requires x > 0 && y > 0 && bound >= 0
    ensures y > bound / x <==> x * y > bound
  {
    var q := bound / x;
    assert q * x <= bound < (q + 1) * x;
    if y > q {
      assert (q + 1) * x <= y * x;
    } else {
      assert y * x <= q * x;
    }
  }

  lemma FactorPositive(x: int, y: int)
    requires y > 0 && x * y > 0
    ensures x > 0
  {
  }

  lemma IntervalPositive(limit: Limit)
    requires limit.rate > 0 && limit.period > 0
    ensures EmissionInterval(limit) >= 1
  {
    IntervalIsExactCeiling(limit);
    FactorPositive(EmissionInterval(limit), limit.rate * MICROSECOND);
  }

  /**
   ValidateLimit accepts exactly the admissible limits, and the interval it checks is the one
   EmissionInterval later uses. The product it tests is computed in 64 bits; that test is right because
   the division guarding it has already excluded every product that would wrap.
   */
  lemma ValidateLimitExact(limit: Limit)
    requires Representable(limit)
    ensures ValidateLimit(limit) == Accepted <==> Admissible(limit)
    ensures limit.rate > 0 && limit.period > 0 ==>
              EmissionInterval(limit) == DivideRoundUp(DivideRoundUp(limit.period, limit.rate), MICROSECOND)
  {
    if limit.rate > 0 && limit.period > 0 && limit.burst > 0 {
      RateFitsPeriod(limit);
      IntervalPositive(limit);
      var interval := EmissionInterval(limit);
      QuotientBound(interval, limit.burst, MAX_INT64);
      var product := interval * limit.burst;
      if product <= MAX_INT64 {
        assert product > 0;
        assert Wrap64(product) == product;
        QuotientBound(MICROSECOND, product, MAX_INT64);
      }
    }
  }

  lemma ProductAtLeastOne(x: int, y: int)
    requires x >= 1 && y >= 1
    ensures x * y >= 1
  {
  }

  /** Every limit accepted has an interval of at least a microsecond and a burst duration that fits time.Duration. */
  lemma ValidLimitBounds(limit: Limit)
    requires Valid(limit)
    ensures EmissionInterval(limit) >= 1 && limit.burst >= 1
    ensures 1 <= EmissionInterval(limit) * limit.burst
    ensures EmissionInterval(limit) * limit.burst * MICROSECOND <= MAX_INT64
  {
    ValidateLimitExact(limit);
    IntervalPositive(limit);
    ProductAtLeastOne(EmissionInterval(limit), limit.burst);
  }
}
