/**
 The decision taken by Store.Take (ratelimit/memory/store.go): the virtual-scheduling form of the
 Generic Cell Rate Algorithm, one theoretical arrival time (tat) per key.
 Times are microseconds, durations in a Decision are nanoseconds.
 */
module Gcra {
  import opened Options
  import opened Limits

  datatype Decision = Decision(limit: Limit, allowed: bool, remaining: int, retryAfter: int, resetAfter: int)

  /** A decision and the tat to store with it; None leaves the stored state alone. */
  datatype Outcome = Outcome(store: Option<int>, decision: Decision)

  function Remaining(arith: Arith, now: int, tat: int, interval: int, burstOffset: int): int
    requires interval > 0
  {
    var available := Norm(arith, Norm(arith, now + burstOffset) - tat);
    if available <= 0 then 0 else available / interval
  }

  function Microseconds(arith: Arith, value: int): int {
    if value <= 0 then 0 else Norm(arith, value * MICROSECOND)
  }

  /** The schedule the next take is measured against: never in the past. */
  function StartingTat(stored: Option<int>, now: int): int {
    if stored.Some? && stored.value > now then stored.value else now
  }

  /** The decision itself, once the interval and the two products of it are known. */
  function Schedule(arith: Arith, tat: int, limit: Limit, interval: int, burstOffset: int, increment: int, now: int)
      : Outcome
    requires interval > 0
  {
    var newTat := Norm(arith, tat + increment);
    if newTat > Norm(arith, now + burstOffset) then
      Outcome(None,
              Decision(limit, false,
                       Remaining(arith, now, tat, interval, burstOffset),
                       Microseconds(arith, Norm(arith, Norm(arith, newTat - burstOffset) - now)),
                       Microseconds(arith, Norm(arith, tat - now))))
    else
      Outcome(Some(newTat),
              Decision(limit, true,
                       Remaining(arith, now, newTat, interval, burstOffset),
                       0,
                       Microseconds(arith, Norm(arith, newTat - now))))
  }

  function Decide(arith: Arith, stored: Option<int>, limit: Limit, cost: int, now: int): Outcome
    requires Valid(limit)
  {
    ValidLimitBounds(limit);
    var interval := EmissionInterval(limit);
    var burstOffset := Norm(arith, interval * limit.burst);
    var increment := Norm(arith, interval * cost);
    Schedule(arith, StartingTat(stored, now), limit, interval, burstOffset, increment, now)
  }

  function After(stored: Option<int>, outcome: Outcome): Option<int> {
    if outcome.store.Some? then outcome.store else stored
  }

  /** Length in microseconds of a full burst. */
  function BurstSpan(limit: Limit): int
    requires limit.rate > 0 && limit.period >= 0
  {
    EmissionInterval(limit) * limit.burst
  }

  ghost predicate Allows(stored: Option<int>, limit: Limit, cost: int, now: int)
    requires Valid(limit)
  {
    Decide(Exact, stored, limit, cost, now).decision.allowed
  }

  lemma MulMonotone(x: int, y: int, z: int)
    requires x <= y && z >= 0
    ensures z * x <= z * y
  {
  }

  lemma AtMostQuotient(c: int, interval: int, available: int)
    requires interval > 0 && available >= 0
    ensures interval * c <= available <==> c <= available / interval
  {
    var q := available / interval;
    assert q * interval <= available < (q + 1) * interval;
    if c <= q {
      MulMonotone(c, q, interval);
    } else {
      MulMonotone(q + 1, c, interval);
    }
  }

  lemma QuotientWithin(interval: int, burst: int, available: int)
    requires interval > 0 && 0 <= available <= interval * burst
    ensures 0 <= available / interval <= burst
  {
    AtMostQuotient(burst, interval, interval * burst);
    AtMostQuotient(burst + 1, interval, available);
    assert interval * (burst + 1) == interval * burst + interval;
  }

  /** Capacity left under a schedule, counted in whole intervals. */
  lemma RemainingCounts(now: int, tat: int, interval: int, burst: int, next: int)
    requires interval > 0 && next >= 1 && burst >= 1 && now <= tat
    ensures var remaining := Remaining(Exact, now, tat, interval, interval * burst);
            && (tat + interval * next <= now + interval * burst <==> next <= remaining)
            && 0 <= remaining <= burst
  {
    var span := interval * burst;
    var available := now + span - tat;
    MulMonotone(1, next, interval);
    if available > 0 {
      AtMostQuotient(next, interval, available);
      QuotientWithin(interval, burst, available);
    }
  }

  /**
   Remaining is exact: straight after any decision, a further cost is allowed if and only if it does not
   exceed the Remaining reported, which never exceeds the burst.
   */
  lemma RemainingIsExact(stored: Option<int>, limit: Limit, cost: int, now: int, next: int)
    requires Valid(limit) && cost >= 1 && next >= 1
    ensures var outcome := Decide(Exact, stored, limit, cost, now);
            && (Allows(After(stored, outcome), limit, next, now) <==> next <= outcome.decision.remaining)
            && 0 <= outcome.decision.remaining <= limit.burst
  {
    hide EmissionInterval;
    ValidLimitBounds(limit);
    var interval := EmissionInterval(limit);
    var outcome := Decide(Exact, stored, limit, cost, now);
    MulMonotone(1, cost, interval);
    RemainingCounts(now, StartingTat(After(stored, outcome), now), interval, limit.burst, next);
  }

  /**
   RetryAfter is exact: a rejected cost stays rejected at every microsecond before it and is allowed at
   every microsecond from it on, as long as nothing else takes from the key.
   */
  lemma RetryAfterIsExact(stored: Option<int>, limit: Limit, cost: int, now: int, later: int)
    requires Valid(limit) && 1 <= cost <= limit.burst && now <= later
    requires !Allows(stored, limit, cost, now)
    ensures var retryAfter := Decide(Exact, stored, limit, cost, now).decision.retryAfter;
            && retryAfter > 0
            && (Allows(stored, limit, cost, later) <==> (later - now) * MICROSECOND >= retryAfter)
  {
    ValidLimitBounds(limit);
    MulMonotone(cost, limit.burst, EmissionInterval(limit));
  }

  /** ResetAfter is exact: a full burst is first allowed precisely when it has elapsed. */
  lemma ResetAfterIsExact(stored: Option<int>, limit: Limit, cost: int, now: int, later: int)
    requires Valid(limit) && 1 <= cost && now <= later
    ensures var outcome := Decide(Exact, stored, limit, cost, now);
            Allows(After(stored, outcome), limit, limit.burst, later) <==>
            (later - now) * MICROSECOND >= outcome.decision.resetAfter
  {
    ValidLimitBounds(limit);
    MulMonotone(1, cost, EmissionInterval(limit));
  }

  /** A clock reading at least two burst spans away from either end of the 64-bit range. */
  ghost predicate ClockInRange(limit: Limit, now: int)
    requires limit.rate > 0 && limit.period >= 0
  {
    MIN_INT64 + 2 * BurstSpan(limit) <= now <= MAX_INT64 - 2 * BurstSpan(limit)
  }

  /** What one policy per key guarantees of a stored tat: at most a burst ahead of the clock. */
  ghost predicate WithinBurst(stored: Option<int>, limit: Limit, now: int)
    requires limit.rate > 0 && limit.period >= 0
  {
    stored.Some? ==> stored.value <= now + BurstSpan(limit)
  }

  /** Every intermediate value that a decision computes, on either branch, fits 64 bits. */
  ghost predicate OperationsFit(tat: int, span: int, increment: int, now: int) {
    var newTat := tat + increment;
    && InInt64(span) && InInt64(increment) && InInt64(newTat) && InInt64(now + span)
    && InInt64(now + span - tat) && InInt64(newTat - span) && InInt64(newTat - span - now)
    && InInt64(tat - now)
    && InInt64((tat - now) * MICROSECOND) && InInt64((newTat - span - now) * MICROSECOND)
    && (newTat <= now + span ==>
          InInt64(now + span - newTat) && InInt64(newTat - now) && InInt64((newTat - now) * MICROSECOND))
  }

  lemma InRangeFits(tat: int, span: int, increment: int, now: int)
    requires 1 <= increment <= span && span * MICROSECOND <= MAX_INT64
    requires MIN_INT64 + 2 * span <= now <= MAX_INT64 - 2 * span && now <= tat <= now + span
    ensures OperationsFit(tat, span, increment, now)
  {
  }

  lemma FittingOperationsAreExact(tat: int, limit: Limit, interval: int, span: int, increment: int, now: int)
    requires interval > 0 && OperationsFit(tat, span, increment, now)
    ensures Schedule(Machine, tat, limit, interval, span, increment, now)
         == Schedule(Exact, tat, limit, interval, span, increment, now)
  {
  }

  /**
   No operation of Take overflows while the clock stays two burst spans inside the 64-bit range and each
   key keeps one policy; the machine then computes the exact decision, every duration is non-negative,
   and the tat it stores is again within a burst of the clock.
   */
  lemma TakeDoesNotOverflow(stored: Option<int>, limit: Limit, cost: int, now: int)
    requires Valid(limit) && 1 <= cost <= limit.burst
    requires ClockInRange(limit, now) && WithinBurst(stored, limit, now)
    ensures OperationsFit(StartingTat(stored, now), BurstSpan(limit), EmissionInterval(limit) * cost, now)
    ensures var outcome := Decide(Exact, stored, limit, cost, now);
            && Decide(Machine, stored, limit, cost, now) == outcome
            && WithinBurst(After(stored, outcome), limit, now)
            && outcome.decision.retryAfter >= 0 && outcome.decision.resetAfter >= 0
  {
    hide EmissionInterval, OperationsFit;
    ValidLimitBounds(limit);
    var interval, span := EmissionInterval(limit), BurstSpan(limit);
    var increment := interval * cost;
    MulMonotone(cost, limit.burst, interval);
    MulMonotone(1, cost, interval);
    InRangeFits(StartingTat(stored, now), span, increment, now);
    FittingOperationsAreExact(StartingTat(stored, now), limit, interval, span, increment, now);
  }
}
