/**
 Executor.Do (idempotency/executor.go) as any number of concurrent calls over one store. Each step is
 one store operation or one handler return; steps of different calls interleave freely. The store is
 the ledger of IdempotencyLedger, so its state is a function of the log of operations.
 */
module IdempotencyExecutor {
  import opened IdempotencyLedger
  import opened IdempotencyClaims

  /** One Do call: the key, token and result TTL it uses, and where it has got to. */
  datatype Call = Call(key: string, token: string, resultTtl: int, beganAt: nat, phase: Phase)

  datatype Phase =
    | Handling                      // the claim is held and the handler is running
    | Completing(data: seq<bv8>)    // the handler succeeded with this result
    | Aborting                      // the handler failed, or the context ended after the claim was acquired
    | Returned(outcome: Outcome)

  datatype Outcome =
    | Succeeded(at: nat)            // handler ran and its completion was recorded by this log entry
    | Replayed(data: seq<bv8>)      // already completed: that result, without running the handler
    | Busy                          // ErrInProgress
    | Conflict                      // ErrKeyConflict
    | Lost                          // the handler ran but Complete returned ErrClaimLost
    | Failed                        // handler or context error, claim aborted as far as possible
    | Unfinalized                   // the finalization context ended before the store was reached

  datatype State = State(log: seq<Event>, calls: map<nat, Call>)

  datatype Action =
    | Start(id: nat, op: Op, resultTtl: int, canceled: bool, now: int)
    | HandlerReturns(id: nat, ok: bool, data: seq<bv8>)
    | Finalize(id: nat, now: int)
    | FinalizeTimesOut(id: nat)

  const INITIAL := State([], map[])

  predicate Later(log: seq<Event>, now: int) {
    log == [] || log[|log| - 1].now <= now
  }

  predicate Finalizing(phase: Phase) {
    phase.Completing? || phase.Aborting?
  }

  ghost predicate Enabled(s: State, a: Action) {
    match a
    case Start(id, op, _, _, now) =>
      && id !in s.calls && op.Begin? && Later(s.log, now)
      && forall i :: 0 <= i < |s.log| ==> s.log[i].op.token != op.token
    case HandlerReturns(id, _, _) => id in s.calls && s.calls[id].phase == Handling
    case Finalize(id, now) => id in s.calls && Finalizing(s.calls[id].phase) && Later(s.log, now)
    case FinalizeTimesOut(id) => id in s.calls && Finalizing(s.calls[id].phase)
  }

  /** The reply the store gives to the next operation. */
  function Reply(log: seq<Event>, event: Event): Reply {
    LedgerRun(log + [event]).replies[|log|]
  }

  function PhaseAfterBegin(reply: Reply, canceled: bool): Phase {
    match reply
    case Acquired => if canceled then Aborting else Handling
    case KeyConflict => Returned(Conflict)
    case Found(status, data) =>
      if canceled then Returned(Failed)
      else if status == InProgress then Returned(Busy)
      else Returned(Replayed(data))
    case _ => Returned(Failed)
  }

  function FinalOp(call: Call): Op {
    if call.phase.Completing? then Complete(call.key, call.token, call.phase.data, call.resultTtl)
    else Abort(call.key, call.token)
  }

  function Step(s: State, a: Action): State
    requires a.Start? || a.id in s.calls
  {
    match a
    case Start(id, op, resultTtl, canceled, now) =>
      var event := Event(op, now);
      var call := Call(op.key, op.token, resultTtl, |s.log|, PhaseAfterBegin(Reply(s.log, event), canceled));
      State(s.log + [event], s.calls[id := call])
    case HandlerReturns(id, ok, data) =>
      s.(calls := s.calls[id := s.calls[id].(phase := if ok then Completing(data) else Aborting)])
    case Finalize(id, now) =>
      var call := s.calls[id];
      var event := Event(FinalOp(call), now);
      var outcome :=
        if !call.phase.Completing? then Failed
        else if Reply(s.log, event) == Done then Succeeded(|s.log|)
        else Lost;
      State(s.log + [event], s.calls[id := call.(phase := Returned(outcome))])
    case FinalizeTimesOut(id) =>
      s.(calls := s.calls[id := s.calls[id].(phase := Returned(Unfinalized))])
  }

  ghost predicate IsRun(states: seq<State>, actions: seq<Action>) {
    && |states| == |actions| + 1 && states[0] == INITIAL
    && forall i :: 0 <= i < |actions| ==> Enabled(states[i], actions[i]) && states[i + 1] == Step(states[i], actions[i])
  }

  // ----- invariant -----

  predicate Holds(phase: Phase) {
    phase.Handling? || phase.Completing? || phase.Aborting? || (phase.Returned? && phase.outcome.Succeeded?)
  }

  ghost predicate Success(call: Call) {
    call.phase.Returned? && call.phase.outcome.Succeeded?
  }

  /** What the log says about a call. */
  ghost predicate Recorded(log: seq<Event>, call: Call) {
    && call.beganAt < |log|
    && log[call.beganAt].op.Begin? && log[call.beganAt].op.key == call.key && log[call.beganAt].op.token == call.token
    && (Holds(call.phase) ==> AcquiredAt(log, call.key, call.beganAt))
    && (call.phase.Returned? && call.phase.outcome.Replayed? ==>
          LedgerRun(log).replies[call.beganAt] == Found(Completed, call.phase.outcome.data))
    && (call.phase == Returned(Busy) ==>
          LedgerRun(log).replies[call.beganAt].Found? && LedgerRun(log).replies[call.beganAt].status == InProgress)
    && (call.phase == Returned(Conflict) <==> LedgerRun(log).replies[call.beganAt] == KeyConflict)
    && (Success(call) ==>
          var at := call.phase.outcome.at;
          && call.beganAt < at < |log| && CompletedAt(log, call.key, at)
          && log[at].op.token == call.token && log[at].op.ttl == call.resultTtl)
  }

  /** Every completion in the log was made by a call that succeeded. */
  ghost predicate CompletionsAccounted(s: State) {
    forall j :: 0 <= j < |s.log| && s.log[j].op.Complete? && LedgerRun(s.log).replies[j] == Done ==>
      exists id :: id in s.calls && s.calls[id].phase == Returned(Succeeded(j))
  }

  ghost predicate CallsRecorded(s: State) {
    && (forall id :: id in s.calls ==> Recorded(s.log, s.calls[id]))
    && (forall p, q :: p in s.calls && q in s.calls && p != q ==> s.calls[p].token != s.calls[q].token)
  }

  /** The call has acquired its claim and has not gone back to the store yet. */
  predicate Active(phase: Phase) {
    phase.Handling? || phase.Completing? || phase.Aborting?
  }

  /** Nothing in the log settles with the token. */
  ghost predicate Untouched(log: seq<Event>, token: string) {
    forall m :: 0 <= m < |log| && !log[m].op.Begin? ==> log[m].op.token != token
  }

  ghost predicate ActiveUntouched(s: State) {
    forall id :: id in s.calls && Active(s.calls[id].phase) ==> Untouched(s.log, s.calls[id].token)
  }

  ghost predicate Inv(s: State) {
    && ClockMovesForward(s.log) && FreshTokens(s.log) && CallsRecorded(s) && CompletionsAccounted(s)
    && ActiveUntouched(s)
  }

  lemma UntouchedCarries(log: seq<Event>, event: Event, token: string)
    requires Untouched(log, token) && (event.op.Begin? || event.op.token != token)
    ensures Untouched(log + [event], token)
  {
  }

  lemma StepKeepsActiveUntouched(s: State, a: Action)
    requires Enabled(s, a) && CallsRecorded(s) && ActiveUntouched(s)
    ensures ActiveUntouched(Step(s, a))
  {
    hide Recorded, LedgerRun, Untouched;
    var t := Step(s, a);
    forall id | id in t.calls && Active(t.calls[id].phase)
      ensures Untouched(t.log, t.calls[id].token)
    {
      if a.Start? && id == a.id {
        FreshIsUntouched(s.log, Event(a.op, a.now));
      } else if a.Start? {
        UntouchedCarries(s.log, Event(a.op, a.now), s.calls[id].token);
      } else if a.Finalize? {
        UntouchedCarries(s.log, Event(FinalOp(s.calls[a.id]), a.now), s.calls[id].token);
      }
    }
  }

  lemma FreshIsUntouched(log: seq<Event>, event: Event)
    requires event.op.Begin? && forall i :: 0 <= i < |log| ==> log[i].op.token != event.op.token
    ensures Untouched(log + [event], event.op.token)
  {
  }

  lemma RecordedCarries(log: seq<Event>, event: Event, call: Call)
    requires Recorded(log, call)
    ensures Recorded(log + [event], call)
  {
    PrefixReplies(log + [event], |log|);
    assert (log + [event])[..|log|] == log;
  }

  lemma LogGrows(log: seq<Event>, event: Event)
    requires ClockMovesForward(log) && FreshTokens(log) && Later(log, event.now)
    requires event.op.Begin? ==> forall i :: 0 <= i < |log| ==> log[i].op.token != event.op.token
    ensures ClockMovesForward(log + [event]) && FreshTokens(log + [event])
  {
  }

  /** No step takes back a success. */
  ghost predicate KeepsSuccesses(calls: map<nat, Call>, next: map<nat, Call>) {
    forall id :: id in calls && Success(calls[id]) ==> id in next && next[id] == calls[id]
  }

  lemma AccountedCarries(s: State, event: Event, calls: map<nat, Call>, owner: nat)
    requires CompletionsAccounted(s) && KeepsSuccesses(s.calls, calls)
    requires event.op.Complete? && Reply(s.log, event) == Done ==>
               owner in calls && calls[owner].phase == Returned(Succeeded(|s.log|))
    ensures CompletionsAccounted(State(s.log + [event], calls))
  {
    PrefixReplies(s.log + [event], |s.log|);
    assert (s.log + [event])[..|s.log|] == s.log;
    forall j | 0 <= j <= |s.log| && (s.log + [event])[j].op.Complete? && LedgerRun(s.log + [event]).replies[j] == Done
      ensures exists id :: id in calls && calls[id].phase == Returned(Succeeded(j))
    {
      if j < |s.log| {
        var id :| id in s.calls && s.calls[id].phase == Returned(Succeeded(j));
        assert Success(s.calls[id]);
      }
    }
  }

  lemma StartKeepsInv(s: State, a: Action)
    requires Inv(s) && Enabled(s, a) && a.Start?
    ensures Inv(Step(s, a))
  {
    hide ClockMovesForward, FreshTokens, CompletionsAccounted, LedgerRun, Untouched;
    var event := Event(a.op, a.now);
    var t := Step(s, a);
    StepKeepsActiveUntouched(s, a);
    LogGrows(s.log, event);
    forall id | id in s.calls
      ensures Recorded(t.log, t.calls[id]) && s.calls[id].token != a.op.token
    {
      RecordedCarries(s.log, event, s.calls[id]);
      assert s.log[s.calls[id].beganAt].op.token == s.calls[id].token;
    }
    StartRecorded(s, a);
    AccountedCarries(s, event, t.calls, a.id);
  }

  lemma StartRecorded(s: State, a: Action)
    requires Enabled(s, a) && a.Start?
    ensures Recorded(Step(s, a).log, Step(s, a).calls[a.id])
  {
  }

  lemma FinalizeRecorded(s: State, a: Action)
    requires Enabled(s, a) && a.Finalize? && Recorded(s.log, s.calls[a.id])
    ensures Recorded(Step(s, a).log, Step(s, a).calls[a.id])
  {
    RecordedCarries(s.log, Event(FinalOp(s.calls[a.id]), a.now), s.calls[a.id]);
  }

  lemma FinalizeKeepsInv(s: State, a: Action)
    requires Inv(s) && Enabled(s, a) && a.Finalize?
    ensures Inv(Step(s, a))
  {
    hide ClockMovesForward, FreshTokens, CompletionsAccounted, LedgerRun, Untouched, Recorded;
    var event := Event(FinalOp(s.calls[a.id]), a.now);
    var t := Step(s, a);
    StepKeepsActiveUntouched(s, a);
    LogGrows(s.log, event);
    FinalizeRecorded(s, a);
    forall id | id in s.calls && id != a.id
      ensures Recorded(t.log, t.calls[id])
    {
      RecordedCarries(s.log, event, s.calls[id]);
    }
    AccountedCarries(s, event, t.calls, a.id);
  }

  lemma LocalStepRecorded(log: seq<Event>, call: Call, phase: Phase)
    requires Recorded(log, call) && Active(call.phase) && (Active(phase) || phase == Returned(Unfinalized))
    ensures Recorded(log, call.(phase := phase))
  {
  }

  lemma LocalStepKeepsInv(s: State, a: Action)
    requires Inv(s) && Enabled(s, a) && (a.HandlerReturns? || a.FinalizeTimesOut?)
    ensures Inv(Step(s, a))
  {
    hide ClockMovesForward, FreshTokens, LedgerRun, Untouched, Recorded;
    var t := Step(s, a);
    StepKeepsActiveUntouched(s, a);
    LocalStepRecorded(s.log, s.calls[a.id], t.calls[a.id].phase);
    forall j | 0 <= j < |t.log| && t.log[j].op.Complete? && LedgerRun(t.log).replies[j] == Done
      ensures exists id :: id in t.calls && t.calls[id].phase == Returned(Succeeded(j))
    {
      var id :| id in s.calls && s.calls[id].phase == Returned(Succeeded(j));
      assert t.calls[id].phase == Returned(Succeeded(j));
    }
  }

  lemma {:induction false} RunKeepsInv(states: seq<State>, actions: seq<Action>, n: nat)
    requires IsRun(states, actions) && n < |states|
    ensures Inv(states[n])
  {
    if n > 0 {
      RunKeepsInv(states, actions, n - 1);
      var s, a := states[n - 1], actions[n - 1];
      assert Enabled(s, a) && states[n] == Step(s, a);
      match a
      case Start(_, _, _, _, _) => StartKeepsInv(s, a);
      case Finalize(_, _) => FinalizeKeepsInv(s, a);
      case _ => LocalStepKeepsInv(s, a);
    }
  }

  // ----- what callers are promised -----

  /**
   In every interleaving, two Do calls on one key that both ran their handler and returned nil recorded
   their completions at least the earlier one's result TTL apart, and the later one acquired its claim
   only after that TTL had passed.
   */
  lemma SuccessesAreSeparated(states: seq<State>, actions: seq<Action>, n: nat, p: nat, q: nat)
    requires IsRun(states, actions) && n < |states| && p != q
    requires p in states[n].calls && q in states[n].calls
    requires Success(states[n].calls[p]) && Success(states[n].calls[q])
    requires states[n].calls[p].key == states[n].calls[q].key
    requires states[n].calls[p].phase.outcome.at <= states[n].calls[q].phase.outcome.at
    ensures var log, first, second := states[n].log, states[n].calls[p], states[n].calls[q];
            && first.phase.outcome.at < second.beganAt < second.phase.outcome.at < |log|
            && log[second.beganAt].now >= log[first.phase.outcome.at].now + first.resultTtl
            && log[second.phase.outcome.at].now >= log[first.phase.outcome.at].now + first.resultTtl
  {
    RunKeepsInv(states, actions, n);
    var log, first, second := states[n].log, states[n].calls[p], states[n].calls[q];
    var firstAt, secondAt := first.phase.outcome.at, second.phase.outcome.at;
    assert Recorded(log, first) && Recorded(log, second);
    assert first.token != second.token;
    var origin := ClaimOrigin(log, second.key, secondAt);
    assert origin == second.beganAt;
    assert !SettledAt(log, second.key, firstAt) || firstAt <= origin || firstAt >= secondAt;
    ResultTtlSeparates(log, first.key, firstAt, second.beganAt);
    ResultTtlSeparates(log, first.key, firstAt, secondAt);
  }

  /**
   Mutual exclusion: two Do calls on one key that both hold a claim, a running handler among them, began
   at least the earlier one's execution TTL apart.
   */
  lemma HandlersOverlapOnlyAfterTtl(states: seq<State>, actions: seq<Action>, n: nat, p: nat, q: nat)
    requires IsRun(states, actions) && n < |states| && p != q
    requires p in states[n].calls && q in states[n].calls && states[n].calls[p].key == states[n].calls[q].key
    requires Active(states[n].calls[p].phase) && Active(states[n].calls[q].phase)
    requires states[n].calls[p].beganAt <= states[n].calls[q].beganAt
    ensures var log, first, second := states[n].log, states[n].calls[p], states[n].calls[q];
            && first.beganAt < second.beganAt < |log| && log[first.beganAt].op.Begin?
            && log[second.beganAt].now >= log[first.beganAt].now + log[first.beganAt].op.ttl
  {
    RunKeepsInv(states, actions, n);
    var log, first, second := states[n].log, states[n].calls[p], states[n].calls[q];
    assert Recorded(log, first) && Recorded(log, second);
    assert first.token != second.token && Untouched(log, first.token);
    ClaimTtlExcludes(log, first.key, first.beganAt, second.beganAt);
  }

  /** A Do that succeeded was never overtaken: nobody acquired its key between its claim and its completion. */
  lemma SuccessWasNotOvertaken(states: seq<State>, actions: seq<Action>, n: nat, p: nat, m: nat)
    requires IsRun(states, actions) && n < |states| && p in states[n].calls && Success(states[n].calls[p])
    requires states[n].calls[p].beganAt < m < states[n].calls[p].phase.outcome.at < |states[n].log|
    ensures !AcquiredAt(states[n].log, states[n].calls[p].key, m)
  {
    RunKeepsInv(states, actions, n);
    var call := states[n].calls[p];
    assert Recorded(states[n].log, call);
    var origin := ClaimOrigin(states[n].log, call.key, call.phase.outcome.at);
    assert origin == call.beganAt;
  }

  /** Call p replayed the living result of call q. */
  ghost predicate ReplayOf(s: State, p: nat, q: nat) {
    && p in s.calls && s.calls[p].phase.Returned? && s.calls[p].phase.outcome.Replayed?
    && q in s.calls && Success(s.calls[q]) && s.calls[q].key == s.calls[p].key
    && s.calls[q].phase.outcome.at < s.calls[p].beganAt < |s.log|
    && s.log[s.calls[p].beganAt].now < s.log[s.calls[q].phase.outcome.at].now + s.calls[q].resultTtl
    && s.log[s.calls[q].phase.outcome.at].op.Complete?
    && s.calls[p].phase.outcome.data == s.log[s.calls[q].phase.outcome.at].op.result
  }

  /**
   A Do that returns without running its handler does so on the living result of a Do that succeeded, and
   returns that very result.
   */
  lemma ReplayHasSource(states: seq<State>, actions: seq<Action>, n: nat, p: nat)
    requires IsRun(states, actions) && n < |states|
    requires p in states[n].calls && states[n].calls[p].phase.Returned? && states[n].calls[p].phase.outcome.Replayed?
    ensures exists q :: ReplayOf(states[n], p, q)
  {
    RunKeepsInv(states, actions, n);
    var log, replay := states[n].log, states[n].calls[p];
    assert Recorded(log, replay);
    var j := RecordedOrigin(log, replay.beganAt);
    var q :| q in states[n].calls && states[n].calls[q].phase == Returned(Succeeded(j));
    assert Recorded(log, states[n].calls[q]);
    assert ReplayOf(states[n], p, q);
  }

  /** A Do is refused as in progress only while another Do's claim on the key is neither settled nor expired. */
  lemma BusyHasHolder(states: seq<State>, actions: seq<Action>, n: nat, p: nat)
    requires IsRun(states, actions) && n < |states|
    requires p in states[n].calls && states[n].calls[p].phase == Returned(Busy)
    ensures states[n].calls[p].beganAt < |states[n].log|
    ensures exists i :: Blocks(states[n].log, states[n].calls[p].key, i, states[n].calls[p].beganAt)
  {
    RunKeepsInv(states, actions, n);
    assert Recorded(states[n].log, states[n].calls[p]);
    BusyHasOwner(states[n].log, states[n].calls[p].beganAt);
  }

  /** A Do returns a key conflict exactly when its fingerprint differs from that of the key's latest claim. */
  lemma ConflictHasCause(states: seq<State>, actions: seq<Action>, n: nat, p: nat)
    requires IsRun(states, actions) && n < |states| && p in states[n].calls
    ensures var log, call := states[n].log, states[n].calls[p];
            && call.beganAt < |log| && log[call.beganAt].op.Begin? && log[call.beganAt].op.key == call.key
            && (call.phase == Returned(Conflict) ==> exists i ::
                  && LatestAcquisition(log, call.key, i, call.beganAt)
                  && log[call.beganAt].op.fingerprint !in {"", log[i].op.fingerprint})
            && (!AcquiredAt(log, call.key, call.beganAt) && call.phase != Returned(Conflict) ==> exists i ::
                  && LatestAcquisition(log, call.key, i, call.beganAt)
                  && log[call.beganAt].op.fingerprint in {"", log[i].op.fingerprint})
  {
    hide CompletionsAccounted, ActiveUntouched;
    RunKeepsInv(states, actions, n);
    var log, call := states[n].log, states[n].calls[p];
    assert Recorded(log, call);
    if !AcquiredAt(log, call.key, call.beganAt) {
      FingerprintDecides(log, call.beganAt);
      var i :| DecidedBy(log, call.beganAt, i);
      assert LatestAcquisition(log, call.key, i, call.beganAt);
    }
  }

  // ----- the handler decides -----

  datatype HandlerResult = NotRun | Ran(ok: bool, data: seq<bv8>)

  /** What the handler of call id returned in the first n steps. */
  ghost function HandlerOf(actions: seq<Action>, n: nat, id: nat): HandlerResult
    requires n <= |actions|
  {
    if n == 0 then NotRun
    else if actions[n - 1].HandlerReturns? && actions[n - 1].id == id then Ran(actions[n - 1].ok, actions[n - 1].data)
    else HandlerOf(actions, n - 1, id)
  }

  /** Where a call may be, given what its handler returned. */
  ghost predicate Follows(log: seq<Event>, phase: Phase, r: HandlerResult) {
    if r.NotRun? then
      || phase.Handling? || phase.Aborting?
      || (phase.Returned? && !phase.outcome.Succeeded? && !phase.outcome.Lost?)
    else if r.ok then
      || phase == Completing(r.data) || phase == Returned(Lost) || phase == Returned(Unfinalized)
      || (phase.Returned? && phase.outcome.Succeeded? && phase.outcome.at < |log|
          && log[phase.outcome.at].op.Complete? && log[phase.outcome.at].op.result == r.data)
    else phase == Aborting || phase == Returned(Failed) || phase == Returned(Unfinalized)
  }

  lemma StepFollows(s: State, a: Action, id: nat, before: HandlerResult, after: HandlerResult)
    requires Enabled(s, a) && id in Step(s, a).calls
    requires id in s.calls ==> Follows(s.log, s.calls[id].phase, before)
    requires id !in s.calls ==> before == NotRun
    requires after == if a.HandlerReturns? && a.id == id then Ran(a.ok, a.data) else before
    ensures Follows(Step(s, a).log, Step(s, a).calls[id].phase, after)
  {
    hide LedgerRun;
  }

  /** Calls stay on record, and only calls on record run a handler. */
  lemma StepKeepsCalls(s: State, a: Action, id: nat)
    requires Enabled(s, a) && id !in Step(s, a).calls
    ensures id !in s.calls && a.id != id
  {
    hide LedgerRun;
  }

  lemma {:induction false} NoCallNoHandler(states: seq<State>, actions: seq<Action>, n: nat, id: nat)
    requires IsRun(states, actions) && n < |states| && id !in states[n].calls
    ensures HandlerOf(actions, n, id) == NotRun
  {
    hide Step;
    if n > 0 {
      assert Enabled(states[n - 1], actions[n - 1]) && states[n] == Step(states[n - 1], actions[n - 1]);
      StepKeepsCalls(states[n - 1], actions[n - 1], id);
      NoCallNoHandler(states, actions, n - 1, id);
    }
  }

  /**
   The handler's result decides the call's: one that succeeded is completed with its own result, recorded
   or found lost, and one that failed is aborted and never completed. A call that did not run its handler
   never succeeds.
   */
  lemma {:induction false} HandlerDecides(states: seq<State>, actions: seq<Action>, n: nat, id: nat)
    requires IsRun(states, actions) && n < |states| && id in states[n].calls
    ensures Follows(states[n].log, states[n].calls[id].phase, HandlerOf(actions, n, id))
  {
    hide Step, Follows;
    if n > 0 {
      var s, a := states[n - 1], actions[n - 1];
      assert Enabled(s, a) && states[n] == Step(s, a);
      if id in s.calls {
        HandlerDecides(states, actions, n - 1, id);
      } else {
        NoCallNoHandler(states, actions, n - 1, id);
      }
      StepFollows(s, a, id, HandlerOf(actions, n - 1, id), HandlerOf(actions, n, id));
    }
  }

  /** Event m of the log completes call id with what its handler returned. */
  ghost predicate CompletesFor(s: State, actions: seq<Action>, n: nat, m: nat, id: nat)
    requires n <= |actions| && m < |s.log|
  {
    && id in s.calls && s.log[m].op.Complete? && s.log[m].op.token == s.calls[id].token
    && HandlerOf(actions, n, id) == Ran(true, s.log[m].op.result)
  }

  /** Nothing is ever offered to the store as a result but what a handler returned with success. */
  lemma {:induction false} OnlySuccessIsCompleted(states: seq<State>, actions: seq<Action>, n: nat, m: nat)
    requires IsRun(states, actions) && n < |states| && m < |states[n].log| && states[n].log[m].op.Complete?
    ensures exists id :: CompletesFor(states[n], actions, n, m, id)
  {
    hide LedgerRun;
    var s, a := states[n - 1], actions[n - 1];
    assert Enabled(s, a) && states[n] == Step(s, a);
    if m < |s.log| {
      OnlySuccessIsCompleted(states, actions, n - 1, m);
      var id :| CompletesFor(s, actions, n - 1, m, id);
      HandlerDecides(states, actions, n - 1, id);
      assert CompletesFor(states[n], actions, n, m, id);
    } else {
      HandlerDecides(states, actions, n - 1, a.id);
      assert CompletesFor(states[n], actions, n, m, a.id);
    }
  }

  /**
   How a Do begins: on a free key it holds the claim and runs its handler, or gives the claim back if its
   context has ended; on a living result it replays that result, unless it names another fingerprint.
   */
  lemma StartAnswers(states: seq<State>, actions: seq<Action>, n: nat)
    requires IsRun(states, actions) && n < |actions| && actions[n].Start?
    ensures var a, log := actions[n], states[n + 1].log;
            var m := |states[n].log|;
            && log == states[n].log + [Event(a.op, a.now)] && a.id in states[n + 1].calls && a.op.Begin?
            && var call := states[n + 1].calls[a.id];
               var phase := call.phase;
               && call.key == a.op.key && call.token == a.op.token && call.resultTtl == a.resultTtl && call.beganAt == m
               && ((forall i :: !Blocks(log, a.op.key, i, m)) && (forall j :: !LiveResult(log, a.op.key, j, m)) ==>
                     phase == if a.canceled then Aborting else Handling)
               && (forall j :: LiveResult(log, a.op.key, j, m) && !a.canceled ==>
                     phase == Returned(Conflict) || phase == Returned(Replayed(log[j].op.result)))
               && (forall i :: Blocks(log, a.op.key, i, m) && !a.canceled ==>
                     phase == Returned(Conflict) || phase == Returned(Busy))
  {
    hide Recorded, CompletionsAccounted, ActiveUntouched, LedgerRun;
    RunKeepsInv(states, actions, n + 1);
    var a, log, m := actions[n], states[n + 1].log, |states[n].log|;
    assert Enabled(states[n], a) && states[n + 1] == Step(states[n], a);
    AcquiresWhenFree(log, m);
    forall j | LiveResult(log, a.op.key, j, m)
      ensures Reply(states[n].log, Event(a.op, a.now)) in {KeyConflict, Found(Completed, log[j].op.result)}
    {
      LiveResultIsFound(log, j, m);
    }
    forall i | Blocks(log, a.op.key, i, m)
      ensures var reply := Reply(states[n].log, Event(a.op, a.now));
              reply == KeyConflict || (reply.Found? && reply.status == InProgress)
    {
      LiveClaimIsFound(log, i, m);
    }
  }

  /**
   A Do that gets back to the store within its execution TTL is never refused there: a handler that
   succeeded makes the Do succeed, and one that failed gives the claim back.
   */
  lemma InTimeIsAccepted(states: seq<State>, actions: seq<Action>, n: nat)
    requires IsRun(states, actions) && n < |actions| && actions[n].Finalize? && actions[n].id in states[n].calls
    ensures var s, t, call, m := states[n], states[n + 1], states[n].calls[actions[n].id], |states[n].log|;
            && call.beganAt < m && s.log[call.beganAt].op.Begin? && |t.log| == m + 1 && actions[n].id in t.calls
            && !t.log[m].op.Begin? && t.log[m].op.key == call.key && t.log[m].op.token == call.token
            && (t.log[m].op.Complete? <==> call.phase.Completing?)
            && (actions[n].now < s.log[call.beganAt].now + s.log[call.beganAt].op.ttl ==>
                  SettledAt(t.log, call.key, m)
                  && (call.phase.Completing? ==> t.calls[actions[n].id].phase == Returned(Succeeded(m))))
  {
    hide CompletionsAccounted;
    RunKeepsInv(states, actions, n);
    var s, a, t := states[n], actions[n], states[n + 1];
    assert Enabled(s, a) && t == Step(s, a);
    var call, m := s.calls[a.id], |s.log|;
    assert Recorded(s.log, call) && Untouched(s.log, call.token);
    assert t.log[..m] == s.log;
    if a.now < s.log[call.beganAt].now + s.log[call.beganAt].op.ttl {
      UnsettledClaimStands(s.log, call.key, call.beganAt);
      assert s.log[m - 1].now <= a.now;
      OwnerIsAccepted(LedgerRun(s.log).records, FinalOp(call), a.now);
    }
  }
}
