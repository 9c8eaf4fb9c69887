/**
 Whole runs of the rate-limit store: any sequence of Take and Reset over any keys, each at a clock
 reading that never goes back. The lazily cleaned store is compared with a plain map that never
 forgets a tat, keys are shown independent, and the rate promised by a policy is proved over every
 window of every run.
 */
module RateRuns {
  import opened Options
  import opened Limits
  import opened Gcra

  type Tats = map<string, int>

  datatype Op =
    | Take(key: string, limit: Limit, cost: int)
    | Reset(key: string)

  datatype Event = Event(op: Op, now: int)

  datatype Answer = Decided(decision: Decision) | Removed

  datatype Stepped = Stepped(tats: Tats, answer: Answer)

  /** What Store.Take asks of its callers. */
  predicate Callable(op: Op) {
    op.Take? ==> Valid(op.limit) && 1 <= op.cost <= op.limit.burst
  }

  function Lookup(tats: Tats, key: string): Option<int> {
    if key in tats then Some(tats[key]) else None
  }

  function Update(tats: Tats, key: string, tat: Option<int>): Tats {
    if tat.Some? then tats[key := tat.value] else tats
  }

  /** One operation on a plain map that never drops a tat by itself. */
  function PlainStep(arith: Arith, tats: Tats, op: Op, now: int): Stepped
    requires Callable(op)
  {
    match op
    case Take(key, limit, cost) =>
      var outcome := Decide(arith, Lookup(tats, key), limit, cost, now);
      Stepped(Update(tats, key, outcome.store), Decided(outcome.decision))
    case Reset(key) => Stepped(tats - {key}, Removed)
  }

  /** The keys whose tat lies ahead of the clock. */
  function Ahead(tats: Tats, now: int): Tats {
    map key | key in tats && tats[key] > now :: tats[key]
  }

  /** One operation of the real store: drop what has expired, then act on the rest. */
  function StoreStep(arith: Arith, tats: Tats, op: Op, now: int): Stepped
    requires Callable(op)
  {
    PlainStep(arith, Ahead(tats, now), op, now)
  }

  datatype Run = Run(tats: Tats, answers: seq<Answer>)

  predicate CallableRun(events: seq<Event>) {
    forall i :: 0 <= i < |events| ==> Callable(events[i].op)
  }

  predicate ClockMovesForward(events: seq<Event>) {
    forall i, j :: 0 <= i <= j < |events| ==> events[i].now <= events[j].now
  }

  function PlainRun(arith: Arith, events: seq<Event>): (run: Run)
    requires CallableRun(events)
    ensures |run.answers| == |events|
  {
    if events == [] then Run(map[], []) else
      var last := |events| - 1;
      var before := PlainRun(arith, events[..last]);
      var step := PlainStep(arith, before.tats, events[last].op, events[last].now);
      Run(step.tats, before.answers + [step.answer])
  }

  function StoreRun(arith: Arith, events: seq<Event>): (run: Run)
    requires CallableRun(events)
    ensures |run.answers| == |events|
  {
    if events == [] then Run(map[], []) else
      var last := |events| - 1;
      var before := StoreRun(arith, events[..last]);
      var step := StoreStep(arith, before.tats, events[last].op, events[last].now);
      Run(step.tats, before.answers + [step.answer])
  }

  // ----- refinement: forgetting expired tats changes no answer -----

  /** The store holds a part of the plain map, and what it lacks is no later than now. */
  ghost predicate Forgets(store: Tats, plain: Tats, now: int) {
    && (forall key :: key in store ==> key in plain && plain[key] == store[key])
    && (forall key :: key in plain && key !in store ==> plain[key] <= now)
  }

  lemma ForgettingStep(arith: Arith, store: Tats, plain: Tats, op: Op, now: int)
    requires Callable(op) && Forgets(store, plain, now)
    ensures StoreStep(arith, store, op, now).answer == PlainStep(arith, plain, op, now).answer
    ensures Forgets(StoreStep(arith, store, op, now).tats, PlainStep(arith, plain, op, now).tats, now)
  {
    var kept := Ahead(store, now);
    assert StartingTat(Lookup(kept, op.key), now) == StartingTat(Lookup(plain, op.key), now);
  }

  /**
   For a clock that never goes back, every run of the lazily cleaned store answers exactly like the map
   that never forgets. This holds in 64-bit arithmetic too, overflow included.
   */
  lemma {:induction false} StoreRefinesPlainMap(arith: Arith, events: seq<Event>)
    requires CallableRun(events) && ClockMovesForward(events)
    ensures StoreRun(arith, events).answers == PlainRun(arith, events).answers
    ensures events != [] ==>
              Forgets(StoreRun(arith, events).tats, PlainRun(arith, events).tats, events[|events| - 1].now)
  {
    if events != [] {
      var last := |events| - 1;
      var before := events[..last];
      StoreRefinesPlainMap(arith, before);
      var store, plain := StoreRun(arith, before).tats, PlainRun(arith, before).tats;
      if before != [] {
        assert before[last - 1].now <= events[last].now;
      }
      assert Forgets(store, plain, events[last].now);
      ForgettingStep(arith, store, plain, events[last].op, events[last].now);
    }
  }

  // ----- keys are independent -----

  /** The events of a run that concern one key. */
  function Only(events: seq<Event>, key: string): (own: seq<Event>)
    ensures CallableRun(events) ==> CallableRun(own)
  {
    if events == [] then [] else
      var last := |events| - 1;
      Only(events[..last], key) + (if events[last].op.key == key then [events[last]] else [])
  }

  /** The answers a run gave to the events of one key. */
  function AnswersTo(events: seq<Event>, answers: seq<Answer>, key: string): seq<Answer>
    requires |events| == |answers|
  {
    if events == [] then [] else
      var last := |events| - 1;
      AnswersTo(events[..last], answers[..last], key) + (if events[last].op.key == key then [answers[last]] else [])
  }

  lemma {:induction false} PlainKeysIndependent(arith: Arith, events: seq<Event>, key: string)
    requires CallableRun(events)
    ensures AnswersTo(events, PlainRun(arith, events).answers, key) == PlainRun(arith, Only(events, key)).answers
    ensures Lookup(PlainRun(arith, events).tats, key) == Lookup(PlainRun(arith, Only(events, key)).tats, key)
  {
    if events != [] {
      var last := |events| - 1;
      PlainKeysIndependent(arith, events[..last], key);
      var own := Only(events[..last], key);
      assert PlainRun(arith, events).answers[..last] == PlainRun(arith, events[..last]).answers;
      if events[last].op.key == key {
        assert Only(events, key)[..|own|] == own;
      } else {
        assert Only(events, key) == own;
      }
    }
  }

  lemma {:induction false} OnlyKeepsClock(events: seq<Event>, key: string)
    requires ClockMovesForward(events)
    ensures ClockMovesForward(Only(events, key))
    ensures forall i :: 0 <= i < |Only(events, key)| ==> Only(events, key)[i] in events
  {
    if events != [] {
      var last := |events| - 1;
      OnlyKeepsClock(events[..last], key);
      var own := Only(events[..last], key);
      forall i | 0 <= i < |own|
        ensures own[i].now <= events[last].now
      {
        assert own[i] in events[..last];
      }
    }
  }

  /** What a run answers to one key is what a store serving that key alone would answer. */
  lemma KeysAreIndependent(arith: Arith, events: seq<Event>, key: string)
    requires CallableRun(events) && ClockMovesForward(events)
    ensures AnswersTo(events, StoreRun(arith, events).answers, key) == StoreRun(arith, Only(events, key)).answers
  {
    StoreRefinesPlainMap(arith, events);
    PlainKeysIndependent(arith, events, key);
    OnlyKeepsClock(events, key);
    StoreRefinesPlainMap(arith, Only(events, key));
  }

  // ----- what Reset does -----

  /** Nothing has been taken from key since the run began or, if from > 0, since the Reset before index from. */
  ghost predicate UntakenSince(events: seq<Event>, key: string, from: nat) {
    && from <= |events| && (from > 0 ==> events[from - 1].op == Reset(key))
    && forall i :: from <= i < |events| ==> events[i].op.key != key
  }

  /** A Reset forgets the key's tat, and leaves every other key's alone. */
  lemma ResetForgets(arith: Arith, events: seq<Event>, key: string, now: int, other: string)
    requires CallableRun(events)
    ensures var after := events + [Event(Reset(key), now)];
            && CallableRun(after)
            && Lookup(PlainRun(arith, after).tats, key) == None
            && (other != key ==>
                  Lookup(PlainRun(arith, after).tats, other) == Lookup(PlainRun(arith, events).tats, other))
  {
    var after := events + [Event(Reset(key), now)];
    assert after[..|events|] == events;
  }

  lemma {:induction false} UntakenIsForgotten(arith: Arith, events: seq<Event>, key: string, from: nat)
    requires CallableRun(events) && UntakenSince(events, key, from)
    ensures Lookup(PlainRun(arith, events).tats, key) == None
  {
    if events != [] {
      var last := |events| - 1;
      var before := events[..last];
      if from == |events| {
        assert events == before + [Event(Reset(key), events[last].now)];
        ResetForgets(arith, before, key, events[last].now, key);
      } else {
        UntakenIsForgotten(arith, before, key, from);
      }
    }
  }

  lemma RemainingAfterFirst(limit: Limit, cost: int, now: int)
    requires Valid(limit) && 1 <= cost <= limit.burst
    ensures EmissionInterval(limit) > 0
    ensures Remaining(Exact, now, now + EmissionInterval(limit) * cost, EmissionInterval(limit), BurstSpan(limit))
            == limit.burst - cost
  {
    hide EmissionInterval, Remaining;
    ValidLimitBounds(limit);
    var interval, left := EmissionInterval(limit), limit.burst - cost;
    var tat := now + interval * cost;
    MulMonotone(1, cost, interval);
    Distributes(interval, cost, left);
    Distributes(interval, cost, left + 1);
    Distributes(interval, left, 1);
    if left >= 1 {
      RemainingCounts(now, tat, interval, limit.burst, left);
    }
    RemainingCounts(now, tat, interval, limit.burst, left + 1);
  }

  lemma FreshTakeExact(limit: Limit, cost: int, now: int)
    requires Valid(limit) && 1 <= cost <= limit.burst
    ensures var decision := Decide(Exact, None, limit, cost, now).decision;
            decision.allowed && decision.remaining == limit.burst - cost
  {
    hide EmissionInterval, Remaining;
    RemainingAfterFirst(limit, cost, now);
    MulMonotone(cost, limit.burst, EmissionInterval(limit));
  }

  lemma FreshTake(limit: Limit, cost: int, now: int)
    requires Valid(limit) && 1 <= cost <= limit.burst && ClockInRange(limit, now)
    ensures var decision := Decide(Machine, None, limit, cost, now).decision;
            decision.allowed && decision.remaining == limit.burst - cost
  {
    hide EmissionInterval, Decide;
    TakeDoesNotOverflow(None, limit, cost, now);
    FreshTakeExact(limit, cost, now);
  }

  /**
   A key that was never used, or was reset and not used since, has its whole burst: its next take is
   allowed, and what remains is exactly the burst less the cost. This is so in every run of the store.
   */
  lemma ResetRestoresBurst(events: seq<Event>, key: string, limit: Limit, cost: int, now: int, from: nat)
    requires CallableRun(events) && UntakenSince(events, key, from)
    requires Valid(limit) && 1 <= cost <= limit.burst && ClockInRange(limit, now)
    requires ClockMovesForward(events + [Event(Take(key, limit, cost), now)])
    ensures var all := events + [Event(Take(key, limit, cost), now)];
            && CallableRun(all)
            && var answer := StoreRun(Machine, all).answers[|events|];
               answer.Decided? && answer.decision.allowed && answer.decision.remaining == limit.burst - cost
  {
    hide Decide, EmissionInterval;
    var all := events + [Event(Take(key, limit, cost), now)];
    assert all[..|events|] == events;
    StoreRefinesPlainMap(Machine, all);
    UntakenIsForgotten(Machine, events, key, from);
    FreshTake(limit, cost, now);
  }

  // ----- the machine computes the exact run -----

  /** Every take of a key uses that key's one policy, at a clock reading the policy can represent. */
  ghost predicate OnePolicyPerKey(policy: map<string, Limit>, events: seq<Event>) {
    forall i :: 0 <= i < |events| && events[i].op.Take? ==>
      && events[i].op.key in policy && events[i].op.limit == policy[events[i].op.key]
      && Valid(events[i].op.limit) && ClockInRange(events[i].op.limit, events[i].now)
  }

  ghost predicate AllWithinBurst(policy: map<string, Limit>, tats: Tats, now: int) {
    forall key :: key in tats ==>
      key in policy && Valid(policy[key]) && WithinBurst(Some(tats[key]), policy[key], now)
  }

  lemma {:induction false} MachineRunIsExact(policy: map<string, Limit>, events: seq<Event>)
    requires CallableRun(events) && ClockMovesForward(events) && OnePolicyPerKey(policy, events)
    ensures PlainRun(Machine, events) == PlainRun(Exact, events)
    ensures events != [] ==> AllWithinBurst(policy, PlainRun(Exact, events).tats, events[|events| - 1].now)
  {
    if events != [] {
      var last := |events| - 1;
      var before := events[..last];
      assert OnePolicyPerKey(policy, before);
      MachineRunIsExact(policy, before);
      var tats := PlainRun(Exact, before).tats;
      var op, now := events[last].op, events[last].now;
      if before != [] {
        assert before[last - 1].now <= now;
      }
      assert AllWithinBurst(policy, tats, now);
      if op.Take? {
        TakeDoesNotOverflow(Lookup(tats, op.key), op.limit, op.cost, now);
      }
    }
  }

  // ----- the rate bound -----

  /** Every take of key is under limit. */
  ghost predicate OnPolicy(events: seq<Event>, key: string, limit: Limit) {
    forall i :: 0 <= i < |events| && events[i].op.key == key && events[i].op.Take? ==> events[i].op.limit == limit
  }

  /** From index `from` on no Reset hands key its burst back. */
  ghost predicate NoResetSince(events: seq<Event>, key: string, from: nat) {
    forall i :: from <= i < |events| && events[i].op.key == key ==> events[i].op.Take?
  }

  predicate AllowedTake(event: Event, answer: Answer, key: string) {
    event.op.key == key && event.op.Take? && answer.Decided? && answer.decision.allowed
  }

  /** Units of key granted by the events from index `from` on. */
  function Granted(events: seq<Event>, answers: seq<Answer>, key: string, from: nat): int
    requires |events| == |answers|
  {
    if |events| <= from then 0 else
      var last := |events| - 1;
      Granted(events[..last], answers[..last], key, from)
      + (if AllowedTake(events[last], answers[last], key) then events[last].op.cost else 0)
  }

  /** Each unit granted since `from` has pushed the tat a full interval past the clock of that moment. */
  ghost predicate TatCarries(limit: Limit, tats: Tats, key: string, granted: int, since: int, now: int)
    requires limit.rate > 0 && limit.period >= 0
  {
    granted == 0 ||
    (key in tats && since + EmissionInterval(limit) * granted <= tats[key] <= now + BurstSpan(limit))
  }

  lemma TatCarriesStep(limit: Limit, tats: Tats, key: string, granted: int, since: int, op: Op, now: int)
    requires Callable(op) && Valid(limit) && granted >= 0 && since <= now
    requires op.key == key ==> op.Take? && op.limit == limit
    requires TatCarries(limit, tats, key, granted, since, now)
    ensures var step := PlainStep(Exact, tats, op, now);
            var more := if AllowedTake(Event(op, now), step.answer, key) then op.cost else 0;
            TatCarries(limit, step.tats, key, granted + more, since, now)
  {
    if op.key == key {
      ValidLimitBounds(limit);
      AllowedTakeMovesTat(limit, Lookup(tats, key), op.cost, now);
      Distributes(EmissionInterval(limit), granted, op.cost);
    }
  }

  lemma Distributes(x: int, y: int, z: int)
    ensures x * (y + z) == x * y + x * z
  {
  }

  lemma AllowedTakeMovesTat(limit: Limit, stored: Option<int>, cost: int, now: int)
    requires Valid(limit)
    ensures var outcome := Decide(Exact, stored, limit, cost, now);
            && outcome.store.Some? == outcome.decision.allowed
            && (outcome.decision.allowed ==>
                  StartingTat(stored, now) + EmissionInterval(limit) * cost == outcome.store.value
                  <= now + BurstSpan(limit))
  {
  }

  lemma {:induction false} TatCarriesRun(events: seq<Event>, key: string, limit: Limit, from: nat)
    requires CallableRun(events) && ClockMovesForward(events) && OnPolicy(events, key, limit) && Valid(limit)
    requires from < |events| && NoResetSince(events, key, from)
    ensures var run := PlainRun(Exact, events);
            && Granted(events, run.answers, key, from) >= 0
            && TatCarries(limit, run.tats, key, Granted(events, run.answers, key, from),
                          events[from].now, events[|events| - 1].now)
  {
    hide PlainStep, EmissionInterval;
    var last := |events| - 1;
    var before, op, now := events[..last], events[last].op, events[last].now;
    var answers, tats := PlainRun(Exact, before).answers, PlainRun(Exact, before).tats;
    var granted := Granted(before, answers, key, from);
    assert granted >= 0 && TatCarries(limit, tats, key, granted, events[from].now, now) by {
      if from < last {
        TatCarriesRun(before, key, limit, from);
        assert before[last - 1].now <= now;
      }
    }
    TatCarriesStep(limit, tats, key, granted, events[from].now, op, now);
    assert events[last] == Event(op, now);
    assert PlainRun(Exact, events).answers[..last] == answers;
  }

  /** The clock readings at which key is taken are representable for its policy. */
  ghost predicate ClockFits(events: seq<Event>, key: string, limit: Limit)
    requires Valid(limit)
  {
    forall i :: 0 <= i < |events| && events[i].op.key == key && events[i].op.Take? ==>
      ClockInRange(limit, events[i].now)
  }

  /** For this one key the machine computes the exact schedule, whatever happens to the other keys. */
  lemma {:induction false} MachineIsExactOnKey(events: seq<Event>, key: string, limit: Limit, from: nat)
    requires CallableRun(events) && ClockMovesForward(events) && OnPolicy(events, key, limit)
    requires Valid(limit) && ClockFits(events, key, limit)
    ensures var machine, exact := PlainRun(Machine, events), PlainRun(Exact, events);
            && Lookup(machine.tats, key) == Lookup(exact.tats, key)
            && Granted(events, machine.answers, key, from) == Granted(events, exact.answers, key, from)
    ensures events != [] ==> WithinBurst(Lookup(PlainRun(Exact, events).tats, key), limit, events[|events| - 1].now)
  {
    hide Decide, EmissionInterval;
    if events != [] {
      var last := |events| - 1;
      var before, op, now := events[..last], events[last].op, events[last].now;
      MachineIsExactOnKey(before, key, limit, from);
      var tats := PlainRun(Exact, before).tats;
      assert WithinBurst(Lookup(tats, key), limit, now) by {
        if before != [] {
          assert before[last - 1].now <= now;
        }
      }
      assert PlainRun(Machine, events).answers[..last] == PlainRun(Machine, before).answers;
      assert PlainRun(Exact, events).answers[..last] == PlainRun(Exact, before).answers;
      if op.key == key && op.Take? {
        TakeDoesNotOverflow(Lookup(tats, key), limit, op.cost, now);
      }
    }
  }

  /**
   The rate bound, for any store run with any other keys in it: from any event to the end of any run,
   the units granted to a key cost at most a burst of intervals plus the time elapsed. A run may stop at
   any event, so this covers every window.
   */
  lemma GrantedWithinBudget(events: seq<Event>, key: string, limit: Limit, from: nat)
    requires CallableRun(events) && ClockMovesForward(events)
    requires OnPolicy(events, key, limit) && Valid(limit) && ClockFits(events, key, limit)
    requires from < |events| && NoResetSince(events, key, from)
    ensures var granted := Granted(events, StoreRun(Machine, events).answers, key, from);
            EmissionInterval(limit) * granted
              <= BurstSpan(limit) + (events[|events| - 1].now - events[from].now)
  {
    StoreRefinesPlainMap(Machine, events);
    MachineIsExactOnKey(events, key, limit, from);
    TatCarriesRun(events, key, limit, from);
    BudgetFromTat(limit, PlainRun(Exact, events).tats, key,
                  Granted(events, StoreRun(Machine, events).answers, key, from),
                  events[from].now, events[|events| - 1].now);
  }

  lemma BudgetFromTat(limit: Limit, tats: Tats, key: string, granted: int, since: int, now: int)
    requires Valid(limit) && since <= now && TatCarries(limit, tats, key, granted, since, now)
    ensures EmissionInterval(limit) * granted <= BurstSpan(limit) + (now - since)
  {
    ValidLimitBounds(limit);
  }

  lemma ExcessWithinRate(interval: int, rate: int, period: int, burst: int, granted: int, elapsed: int)
    requires interval >= 1 && rate >= 1 && period >= 1 && elapsed >= 0
    requires rate * (interval * MICROSECOND) >= period
    requires interval * granted <= interval * burst + elapsed
    ensures granted * period <= burst * period + rate * (elapsed * MICROSECOND)
  {
    var excess := granted - burst;
    assert interval * excess <= elapsed;
    if excess > 0 {
      calc {
        excess * period;
      <= { MulMonotone(period, rate * (interval * MICROSECOND), excess); }
        excess * (rate * (interval * MICROSECOND));
      ==
        rate * ((interval * excess) * MICROSECOND);
      <= { MulMonotone((interval * excess) * MICROSECOND, elapsed * MICROSECOND, rate); }
        rate * (elapsed * MICROSECOND);
      }
    } else {
      MulMonotone(excess, 0, period);
      MulMonotone(0, elapsed * MICROSECOND, rate);
    }
    assert granted * period == burst * period + excess * period;
  }

  /** In the policy's own terms: never more than Burst + Rate * elapsed / Period units (multiplied out by Period). */
  lemma GrantedWithinPolicy(events: seq<Event>, key: string, limit: Limit, from: nat)
    requires CallableRun(events) && ClockMovesForward(events)
    requires OnPolicy(events, key, limit) && Valid(limit) && ClockFits(events, key, limit)
    requires from < |events| && NoResetSince(events, key, from)
    ensures var granted := Granted(events, StoreRun(Machine, events).answers, key, from);
            var elapsedNanos := (events[|events| - 1].now - events[from].now) * MICROSECOND;
            granted * limit.period <= limit.burst * limit.period + limit.rate * elapsedNanos
  {
    hide EmissionInterval, PlainRun, StoreRun, Granted;
    GrantedWithinBudget(events, key, limit, from);
    ValidLimitBounds(limit);
    IntervalIsExactCeiling(limit);
    assert events[from].now <= events[|events| - 1].now;
    ExcessWithinRate(EmissionInterval(limit), limit.rate, limit.period, limit.burst,
                     Granted(events, StoreRun(Machine, events).answers, key, from),
                     events[|events| - 1].now - events[from].now);
  }

  // ----- the rate bound is attained -----

  /** A full burst at start, then one unit at every interval. */
  function SteadyDemand(key: string, limit: Limit, start: int, n: nat): (events: seq<Event>)
    requires Valid(limit)
    ensures |events| == n + 1 && events[0].now == start
    ensures forall i :: 0 <= i <= n ==>
              && events[i].op == Take(key, limit, if i == 0 then limit.burst else 1)
              && events[i].now == start + EmissionInterval(limit) * i
  {
    if n == 0 then [Event(Take(key, limit, limit.burst), start)]
    else SteadyDemand(key, limit, start, n - 1)
         + [Event(Take(key, limit, 1), start + EmissionInterval(limit) * n)]
  }

  lemma SteadyDemandIsProper(key: string, limit: Limit, start: int, n: nat)
    requires Valid(limit)
    ensures var events := SteadyDemand(key, limit, start, n);
            && CallableRun(events) && ClockMovesForward(events)
            && OnPolicy(events, key, limit) && NoResetSince(events, key, 0)
  {
    hide EmissionInterval;
    ValidLimitBounds(limit);
    var events := SteadyDemand(key, limit, start, n);
    forall i, j | 0 <= i <= j < |events| ensures events[i].now <= events[j].now {
      MulMonotone(i, j, EmissionInterval(limit));
    }
  }

  /** A take that ends exactly a burst ahead of the clock is allowed and stored. */
  lemma FillsToTheBrim(limit: Limit, stored: Option<int>, cost: int, now: int)
    requires Valid(limit) && StartingTat(stored, now) + EmissionInterval(limit) * cost == now + BurstSpan(limit)
    ensures var outcome := Decide(Exact, stored, limit, cost, now);
            outcome.decision.allowed && outcome.store == Some(now + BurstSpan(limit))
  {
    hide EmissionInterval, Remaining;
  }

  lemma OneMoreEvent(before: seq<Event>, event: Event, key: string)
    requires CallableRun(before) && Callable(event.op)
    ensures var run := PlainRun(Exact, before);
            var step := PlainStep(Exact, run.tats, event.op, event.now);
            && CallableRun(before + [event])
            && PlainRun(Exact, before + [event]).tats == step.tats
            && Granted(before + [event], PlainRun(Exact, before + [event]).answers, key, 0)
               == Granted(before, run.answers, key, 0)
                  + (if AllowedTake(event, step.answer, key) then event.op.cost else 0)
  {
    hide PlainStep, Callable;
    var events := before + [event];
    assert events[..|before|] == before;
    assert PlainRun(Exact, events).answers[..|before|] == PlainRun(Exact, before).answers;
  }

  lemma BrimTakeIsGranted(before: seq<Event>, key: string, limit: Limit, cost: int, now: int)
    requires CallableRun(before) && Valid(limit) && 1 <= cost <= limit.burst
    requires StartingTat(Lookup(PlainRun(Exact, before).tats, key), now) + EmissionInterval(limit) * cost
             == now + BurstSpan(limit)
    ensures var events := before + [Event(Take(key, limit, cost), now)];
            && CallableRun(events)
            && Granted(events, PlainRun(Exact, events).answers, key, 0)
               == Granted(before, PlainRun(Exact, before).answers, key, 0) + cost
            && Lookup(PlainRun(Exact, events).tats, key) == Some(now + BurstSpan(limit))
  {
    hide EmissionInterval, Decide, PlainRun, Granted, StartingTat;
    FillsToTheBrim(limit, Lookup(PlainRun(Exact, before).tats, key), cost, now);
    OneMoreEvent(before, Event(Take(key, limit, cost), now), key);
  }

  lemma NothingGrantedYet(key: string)
    ensures Granted([], PlainRun(Exact, []).answers, key, 0) == 0 && Lookup(PlainRun(Exact, []).tats, key) == None
  {
  }

  /** Steady demand is granted in full: every take fills the burst exactly to its brim. */
  lemma {:induction false} SteadyDemandIsGranted(key: string, limit: Limit, start: int, n: nat)
    requires Valid(limit)
    ensures var events := SteadyDemand(key, limit, start, n);
            && CallableRun(events)
            && Granted(events, PlainRun(Exact, events).answers, key, 0) == limit.burst + n
            && Lookup(PlainRun(Exact, events).tats, key) == Some(start + EmissionInterval(limit) * n + BurstSpan(limit))
  {
    hide EmissionInterval, PlainRun, Granted, StartingTat, BurstSpan, Lookup;
    ValidLimitBounds(limit);
    if n == 0 {
      NothingGrantedYet(key);
      NextFits(limit, None, start, n);
      BrimTakeIsGranted([], key, limit, limit.burst, start);
      assert SteadyDemand(key, limit, start, 0) == [] + [Event(Take(key, limit, limit.burst), start)];
    } else {
      var before := SteadyDemand(key, limit, start, n - 1);
      SteadyDemandIsGranted(key, limit, start, n - 1);
      NextFits(limit, Lookup(PlainRun(Exact, before).tats, key), start, n);
      BrimTakeIsGranted(before, key, limit, 1, start + EmissionInterval(limit) * n);
    }
  }

  lemma NextFits(limit: Limit, stored: Option<int>, start: int, n: nat)
    requires Valid(limit)
    requires stored == if n == 0 then None else Some(start + EmissionInterval(limit) * (n - 1) + BurstSpan(limit))
    ensures var now := start + EmissionInterval(limit) * n;
            StartingTat(stored, now) + EmissionInterval(limit) * (if n == 0 then limit.burst else 1)
            == now + BurstSpan(limit)
  {
    hide EmissionInterval;
    ValidLimitBounds(limit);
    Distributes(EmissionInterval(limit), n - 1, 1);
    MulMonotone(1, limit.burst, EmissionInterval(limit));
  }

  lemma SteadyClockFits(key: string, limit: Limit, start: int, n: nat)
    requires Valid(limit) && ClockInRange(limit, start) && ClockInRange(limit, start + EmissionInterval(limit) * n)
    ensures ClockFits(SteadyDemand(key, limit, start, n), key, limit)
  {
    hide EmissionInterval, BurstSpan;
    ValidLimitBounds(limit);
    var events := SteadyDemand(key, limit, start, n);
    forall i | 0 <= i < |events| ensures ClockInRange(limit, events[i].now) {
      MulMonotone(i, n, EmissionInterval(limit));
      MulMonotone(0, i, EmissionInterval(limit));
    }
  }

  /**
   The rate bound cannot be lowered: for every policy and every number of intervals there is a run whose
   grants meet it with equality, in machine arithmetic too.
   */
  lemma BoundIsAttained(key: string, limit: Limit, start: int, n: nat)
    requires Valid(limit) && ClockInRange(limit, start) && ClockInRange(limit, start + EmissionInterval(limit) * n)
    ensures var events := SteadyDemand(key, limit, start, n);
            && CallableRun(events)
            && EmissionInterval(limit) * Granted(events, StoreRun(Machine, events).answers, key, 0)
               == BurstSpan(limit) + (events[n].now - events[0].now)
  {
    hide EmissionInterval, SteadyDemand, PlainRun, StoreRun, Granted;
    SteadyDemandIsProper(key, limit, start, n);
    SteadyDemandIsGranted(key, limit, start, n);
    SteadyClockFits(key, limit, start, n);
    var events := SteadyDemand(key, limit, start, n);
    StoreRefinesPlainMap(Machine, events);
    MachineIsExactOnKey(events, key, limit, 0);
    Distributes(EmissionInterval(limit), limit.burst, n);
  }
}
