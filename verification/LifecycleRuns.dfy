/**
 Every interleaving of Bootstrap and Shutdown callers on one runner (lifecycle/runner.go). Mutex sections
 and provider calls are single steps; a provider is its position in the runner's list.
 */
module LifecycleRuns {
  datatype RunnerState = New | Starting | Started | Stopping | Stopped

  /** A caller's goroutine. left counts the providers still to shut down. */
  datatype Thread =
    | Booting(next: nat)
    | RollingBack(left: nat, failed: bool)
    | Bootstrapped(ok: bool)
    | AlreadyStarted
    | Looking                            // at the top of Shutdown's loop
    | WaitingForStart
    | WaitingForStop
    | ShuttingDown(left: nat, failed: bool)
    | ShutDown(failed: bool, early: bool)  // early: called before Bootstrap

  /** startCloses and stopCloses count how often the two done channels were closed. */
  datatype State = State(
    providers: nat,
    state: RunnerState,
    started: nat,
    startCloses: nat,
    stopCloses: nat,
    shutdownFailed: bool,
    threads: map<nat, Thread>,
    owner: nat,                          // the last caller to start or stop the providers
    boots: seq<nat>,                     // providers bootstrapped successfully, in order
    shuts: seq<nat>,                     // shutdown calls made, in order
    failures: nat)                       // shutdown calls that failed

  datatype Action =
    | CallBootstrap(id: nat)
    | CallShutdown(id: nat)
    | BootProvider(id: nat, ok: bool)
    | FinishBoot(id: nat)
    | StopProvider(id: nat, ok: bool)      // in a rollback or in a shutdown
    | FinishRollback(id: nat)
    | FinishShutdown(id: nat)
    | Look(id: nat)
    | Wake(id: nat)

  function Init(providers: nat): State {
    State(providers, New, 0, 0, 0, false, map[], 0, [], [], 0)
  }

  predicate Stops(t: Thread) {
    t.RollingBack? || t.ShuttingDown?
  }

  predicate Enabled(s: State, a: Action) {
    if a.CallBootstrap? || a.CallShutdown? then a.id !in s.threads
    else
      && a.id in s.threads
      && var t := s.threads[a.id];
         match a
         case BootProvider(_, _) => t.Booting? && t.next < s.providers
         case FinishBoot(_) => t.Booting? && t.next >= s.providers
         case StopProvider(_, _) => Stops(t) && t.left > 0
         case FinishRollback(_) => t.RollingBack? && t.left == 0
         case FinishShutdown(_) => t.ShuttingDown? && t.left == 0
         case Look(_) => t.Looking?
         case _ => (t.WaitingForStart? && s.startCloses > 0) || (t.WaitingForStop? && s.stopCloses > 0)
  }

  function At(s: State, id: nat, t: Thread): State {
    s.(threads := s.threads[id := t])
  }

  function Step(s: State, a: Action): State
    requires Enabled(s, a)
  {
    match a
    case CallBootstrap(id) =>
      if s.state != New then At(s, id, AlreadyStarted) else At(s, id, Booting(0)).(state := Starting, owner := id)
    case CallShutdown(id) => At(s, id, Looking)
    case BootProvider(id, ok) =>
      var i := s.threads[id].next;
      if ok then At(s, id, Booting(i + 1)).(boots := s.boots + [i]) else At(s, id, RollingBack(i, false))
    case FinishBoot(id) =>
      At(s, id, Bootstrapped(true)).(started := s.threads[id].next, state := Started, startCloses := s.startCloses + 1)
    case StopProvider(id, ok) =>
      var t := s.threads[id];
      var left, failed := t.left - 1, t.failed || !ok;
      At(s, id, if t.RollingBack? then RollingBack(left, failed) else ShuttingDown(left, failed)).(
        shuts := s.shuts + [left], failures := if ok then s.failures else s.failures + 1)
    case FinishRollback(id) =>
      At(s, id, Bootstrapped(false)).(
        state := Stopped, shutdownFailed := s.threads[id].failed, startCloses := s.startCloses + 1)
    case FinishShutdown(id) =>
      var failed := s.threads[id].failed;
      At(s, id, ShutDown(failed, false)).(
        started := 0, shutdownFailed := failed, state := Stopped, stopCloses := s.stopCloses + 1)
    case Look(id) =>
      (match s.state
       case New => At(s, id, ShutDown(false, true))
       case Starting => At(s, id, WaitingForStart)
       case Started => At(s, id, ShuttingDown(s.started, false)).(state := Stopping, owner := id)
       case Stopping => At(s, id, WaitingForStop)
       case Stopped => At(s, id, ShutDown(s.shutdownFailed, false)))
    case Wake(id) => At(s, id, Looking)
  }

  ghost predicate IsRun(states: seq<State>, actions: seq<Action>) {
    && |states| == |actions| + 1 && states[0] == Init(states[0].providers)
    && forall i :: 0 <= i < |actions| ==> Enabled(states[i], actions[i]) && states[i + 1] == Step(states[i], actions[i])
  }

  // ----- the invariant -----

  /** Providers start in list order, and are shut down in reverse, each once. */
  ghost predicate CallsFit(providers: nat, boots: seq<nat>, shuts: seq<nat>) {
    && |shuts| <= |boots| <= providers
    && (forall j :: 0 <= j < |boots| ==> boots[j] == j)
    && (forall j :: 0 <= j < |shuts| ==> shuts[j] == |boots| - 1 - j)
  }

  predicate Acts(t: Thread) {
    t.Booting? || Stops(t)
  }

  /** The one caller at work while the runner is starting or stopping. */
  ghost predicate OwnerFits(s: State, t: Thread) {
    match t
    case Booting(next) => s.state == Starting && |s.boots| == next && s.shuts == [] && s.failures == 0
    case RollingBack(left, failed) =>
      && s.state == Starting && |s.boots| == left + |s.shuts| && (failed <==> s.failures > 0)
      && |s.boots| < s.providers
    case ShuttingDown(left, failed) =>
      s.state == Stopping && |s.boots| == left + |s.shuts| && (failed <==> s.failures > 0)
    case _ => false
  }

  ghost predicate StateFits(s: State) {
    && (s.state == New ==> s.boots == [] && s.failures == 0)
    && (s.state == Started ==> |s.boots| == s.started && s.shuts == [] && s.failures == 0)
    && (s.state == Stopped ==> |s.shuts| == |s.boots| && (s.shutdownFailed <==> s.failures > 0))
    && s.startCloses == (if s.state == New || s.state == Starting then 0 else 1)
    && s.stopCloses <= (if s.state == Stopped then 1 else 0)
  }

  ghost predicate ThreadFits(s: State, id: nat, t: Thread) {
    && (Acts(t) ==> id == s.owner && OwnerFits(s, t))
    && (t.WaitingForStart? || t.AlreadyStarted? ==> s.state != New)
    && (t.Bootstrapped? ==> s.state != New && s.state != Starting && (t.ok <==> |s.boots| == s.providers))
    && (t.Bootstrapped? && !t.ok ==> s.state == Stopped)
    && (t.WaitingForStop? ==> s.state == Stopping || (s.state == Stopped && s.stopCloses == 1))
    && (t.ShutDown? ==> if t.early then !t.failed else s.state == Stopped && t.failed == s.shutdownFailed)
  }

  ghost predicate Inv(s: State) {
    && CallsFit(s.providers, s.boots, s.shuts) && StateFits(s)
    && (forall id :: id in s.threads ==> ThreadFits(s, id, s.threads[id]))
    && (s.state == Starting || s.state == Stopping ==> s.owner in s.threads && Acts(s.threads[s.owner]))
  }

  lemma ThreadCarries(s: State, t: State, id: nat, thread: Thread)
    requires ThreadFits(s, id, thread) && !Acts(thread)
    requires s.state == t.state || Advances(s, t)
    requires s.state == t.state ==> t.stopCloses == s.stopCloses && t.shutdownFailed == s.shutdownFailed
    requires s.state != New && s.state != Starting ==> t.boots == s.boots && t.providers == s.providers
    ensures ThreadFits(t, id, thread)
  {
  }

  /** The legal changes of the runner's state. */
  ghost predicate Advances(s: State, t: State) {
    || (s.state == New && t.state == Starting)
    || (s.state == Starting && (t.state == Started || t.state == Stopped))
    || (s.state == Started && t.state == Stopping)
    || (s.state == Stopping && t.state == Stopped && t.stopCloses == 1)
  }

  lemma StepShape(s: State, a: Action)
    requires Inv(s) && Enabled(s, a)
    ensures var t := Step(s, a);
            && (s.state == t.state || Advances(s, t))
            && (s.state == t.state ==> t.stopCloses == s.stopCloses && t.shutdownFailed == s.shutdownFailed)
            && (s.state != New && s.state != Starting ==> t.boots == s.boots && t.providers == s.providers)
            && CallsFit(t.providers, t.boots, t.shuts) && StateFits(t)
  {
    assert a.id in s.threads ==> ThreadFits(s, a.id, s.threads[a.id]);
  }

  lemma StepActor(s: State, a: Action)
    requires Inv(s) && Enabled(s, a)
    ensures var t := Step(s, a);
            && ThreadFits(t, a.id, t.threads[a.id])
            && (t.state == Starting || t.state == Stopping ==> t.owner in t.threads && Acts(t.threads[t.owner]))
  {
    assert a.id in s.threads ==> ThreadFits(s, a.id, s.threads[a.id]);
  }

  lemma OtherActors(s: State, a: Action, id: nat)
    requires Inv(s) && Enabled(s, a) && id in s.threads && id != a.id
    ensures ThreadFits(Step(s, a), id, s.threads[id])
  {
    assert ThreadFits(s, id, s.threads[id]);
    assert a.id in s.threads ==> ThreadFits(s, a.id, s.threads[a.id]);
    if !Acts(s.threads[id]) {
      StepShape(s, a);
      ThreadCarries(s, Step(s, a), id, s.threads[id]);
    }
  }

  lemma StepKeepsInv(s: State, a: Action)
    requires Inv(s) && Enabled(s, a)
    ensures Inv(Step(s, a))
  {
    var t := Step(s, a);
    StepShape(s, a);
    StepActor(s, a);
    forall id | id in t.threads
      ensures ThreadFits(t, id, t.threads[id])
    {
      if id != a.id {
        OtherActors(s, a, id);
      }
    }
  }

  lemma {:induction false} RunKeepsInv(states: seq<State>, actions: seq<Action>, n: nat)
    requires IsRun(states, actions) && n < |states|
    ensures Inv(states[n])
  {
    if n > 0 {
      RunKeepsInv(states, actions, n - 1);
      StepKeepsInv(states[n - 1], actions[n - 1]);
    }
  }

  // ----- what holds in every interleaving -----

  /**
   The shutdown calls made so far are the reverse of the successfully bootstrapped prefix, from its end;
   no provider is bootstrapped or shut down twice, and none that failed to start is shut down. Once the
   runner is stopped, by rollback or by Shutdown, none is missing. Each done channel is closed at most once.
   */
  lemma ShutdownReversesBootstrap(states: seq<State>, actions: seq<Action>, n: nat)
    requires IsRun(states, actions) && n < |states|
    ensures var s := states[n];
            && CallsFit(s.providers, s.boots, s.shuts)
            && (s.state == Stopped ==> |s.shuts| == |s.boots|)
            && s.startCloses <= 1 && s.stopCloses <= 1
  {
    RunKeepsInv(states, actions, n);
  }

  /** At any time at most one caller is starting or stopping providers. */
  lemma OneActor(states: seq<State>, actions: seq<Action>, n: nat, p: nat, q: nat)
    requires IsRun(states, actions) && n < |states| && p in states[n].threads && q in states[n].threads
    requires Acts(states[n].threads[p]) && Acts(states[n].threads[q])
    ensures p == q
  {
    RunKeepsInv(states, actions, n);
    assert ThreadFits(states[n], p, states[n].threads[p]) && ThreadFits(states[n], q, states[n].threads[q]);
  }

  /** Every Shutdown that did not come before Bootstrap returns once all is stopped, with one shared result. */
  lemma ShutdownsAgree(states: seq<State>, actions: seq<Action>, n: nat, id: nat)
    requires IsRun(states, actions) && n < |states| && id in states[n].threads
    requires states[n].threads[id].ShutDown? && !states[n].threads[id].early
    ensures states[n].state == Stopped && |states[n].shuts| == |states[n].boots|
    ensures states[n].threads[id].failed == states[n].shutdownFailed
  {
    RunKeepsInv(states, actions, n);
    assert ThreadFits(states[n], id, states[n].threads[id]);
  }

  /**
   The results are true. A stopped runner's shared result is a failure exactly when a shutdown call
   failed, in a rollback as in a shutdown. Bootstrap succeeded exactly when every provider started, and
   one that failed has stopped the runner again; only a later caller is told it was already started.
   */
  lemma ResultsAreTrue(states: seq<State>, actions: seq<Action>, n: nat, id: nat)
    requires IsRun(states, actions) && n < |states| && id in states[n].threads
    ensures var s, t := states[n], states[n].threads[id];
            && (s.state == Stopped ==> (s.shutdownFailed <==> s.failures > 0))
            && (t.Bootstrapped? ==> (t.ok <==> |s.boots| == s.providers))
            && (t.Bootstrapped? && !t.ok ==> s.state == Stopped && |s.shuts| == |s.boots| < s.providers)
            && (t.AlreadyStarted? ==> s.state != New)
  {
    RunKeepsInv(states, actions, n);
    assert ThreadFits(states[n], id, states[n].threads[id]);
  }

  /** A runner is new exactly until Bootstrap is first called, and never again. */
  lemma {:induction false} NewUntilBootstrap(states: seq<State>, actions: seq<Action>, n: nat)
    requires IsRun(states, actions) && n < |states|
    ensures states[n].state == New <==> forall k :: 0 <= k < n ==> !actions[k].CallBootstrap?
  {
    hide Step, Inv;
    if n > 0 {
      NewUntilBootstrap(states, actions, n - 1);
      RunKeepsInv(states, actions, n - 1);
      assert Enabled(states[n - 1], actions[n - 1]) && states[n] == Step(states[n - 1], actions[n - 1]);
      StepLeavesNew(states[n - 1], actions[n - 1]);
    }
  }

  lemma StepLeavesNew(s: State, a: Action)
    requires Inv(s) && Enabled(s, a)
    ensures Step(s, a).state == New <==> s.state == New && !a.CallBootstrap?
  {
    assert a.id in s.threads ==> ThreadFits(s, a.id, s.threads[a.id]);
  }

  /** A caller's thread changes only by its own steps, and is told it came early only by finding the runner new. */
  lemma StepEarly(s: State, a: Action, id: nat)
    requires Enabled(s, a) && (id in s.threads || id == a.id)
    ensures id in Step(s, a).threads && (id != a.id ==> Step(s, a).threads[id] == s.threads[id])
    ensures var t := Step(s, a).threads[id];
            t.ShutDown? && t.early && id == a.id ==> a == Look(id) && s.state == New
  {
  }

  /** The Shutdown call with this id was made at step k. */
  ghost predicate CalledAt(actions: seq<Action>, id: nat, k: nat) {
    k < |actions| && actions[k] == CallShutdown(id)
  }

  lemma {:induction false} LateIsNotEarly(states: seq<State>, actions: seq<Action>, n: nat, id: nat, k: nat)
    requires IsRun(states, actions) && k < n < |states| && CalledAt(actions, id, k) && states[k].state != New
    ensures id in states[n].threads && states[n].state != New
    ensures states[n].threads[id].ShutDown? ==> !states[n].threads[id].early
  {
    hide Inv, Step;
    var s, a := states[n - 1], actions[n - 1];
    assert Enabled(s, a) && states[n] == Step(s, a);
    RunKeepsInv(states, actions, n - 1);
    StepLeavesNew(s, a);
    if n - 1 > k {
      LateIsNotEarly(states, actions, n - 1, id, k);
    }
    StepEarly(s, a, id);
  }

  /**
   Shutdown shuts down: once Bootstrap has been called, a Shutdown called after it returns only when the
   runner is stopped and every provider that started has been shut down.
   */
  lemma ShutdownStops(states: seq<State>, actions: seq<Action>, n: nat, id: nat, k: nat, boot: nat)
    requires IsRun(states, actions) && boot < k < n < |states|
    requires actions[boot].CallBootstrap? && CalledAt(actions, id, k)
    ensures id in states[n].threads
    ensures states[n].threads[id].ShutDown? ==> states[n].state == Stopped && |states[n].shuts| == |states[n].boots|
  {
    NewUntilBootstrap(states, actions, k);
    LateIsNotEarly(states, actions, n, id, k);
    if states[n].threads[id].ShutDown? {
      ShutdownsAgree(states, actions, n, id);
    }
  }

  predicate Returned(t: Thread) {
    t.Bootstrapped? || t.AlreadyStarted? || t.ShutDown?
  }

  ghost predicate CanStep(s: State) {
    exists a: Action :: !IsCall(a) && Enabled(s, a)
  }

  /** No deadlock: while any caller has not returned, some caller can take a step. */
  lemma NeverStuck(states: seq<State>, actions: seq<Action>, n: nat, id: nat)
    requires IsRun(states, actions) && n < |states| && id in states[n].threads && !Returned(states[n].threads[id])
    ensures CanStep(states[n])
  {
    RunKeepsInv(states, actions, n);
    var s := states[n];
    assert ThreadFits(s, id, s.threads[id]);
    if Acts(s.threads[id]) {
      ActorSteps(s, id);
    } else if s.threads[id].Looking? {
      assert Enabled(s, Look(id));
    } else if s.state == Starting || s.state == Stopping {
      ActorSteps(s, s.owner);
    } else {
      assert Enabled(s, Wake(id));
    }
  }

  lemma ActorSteps(s: State, id: nat)
    requires id in s.threads && Acts(s.threads[id])
    ensures CanStep(s)
  {
    var t := s.threads[id];
    var a :=
      if t.Booting? then (if t.next < s.providers then BootProvider(id, true) else FinishBoot(id))
      else if t.left > 0 then StopProvider(id, true)
      else if t.RollingBack? then FinishRollback(id)
      else FinishShutdown(id);
    assert Enabled(s, a);
  }

  /** How far a caller still has to go, given the runner's state. */
  function Rank(state: RunnerState, providers: nat, t: Thread): nat {
    match t
    case Booting(next) => if next <= providers then 2 * providers + 3 - next else 1
    case RollingBack(left, _) => left + 1
    case ShuttingDown(left, _) => left + 1
    case WaitingForStart => providers + 5
    case WaitingForStop => 2
    case Looking =>
      if state == Stopped then 1 else if state == Started || state == Stopping then providers + 4 else providers + 6
    case _ => 0
  }

  /** The sum over the callers with an id below n. */
  function Total(s: State, n: nat): nat {
    if n == 0 then 0 else
      Total(s, n - 1) + (if n - 1 in s.threads then Rank(s.state, s.providers, s.threads[n - 1]) else 0)
  }

  predicate IsCall(a: Action) {
    a.CallBootstrap? || a.CallShutdown?
  }

  /** A step brings its own caller nearer to its return ... */
  lemma StepLowersRank(s: State, a: Action)
    requires Inv(s) && Enabled(s, a) && !IsCall(a)
    ensures a.id in s.threads && a.id in Step(s, a).threads
    ensures Rank(Step(s, a).state, s.providers, Step(s, a).threads[a.id]) < Rank(s.state, s.providers, s.threads[a.id])
    ensures Step(s, a).threads == s.threads[a.id := Step(s, a).threads[a.id]]
    ensures Step(s, a).providers == s.providers
  {
    assert ThreadFits(s, a.id, s.threads[a.id]);
  }

  /** ... and sets nobody else back. */
  lemma StepKeepsRanks(s: State, a: Action, t: Thread)
    requires Inv(s) && Enabled(s, a)
    ensures Rank(Step(s, a).state, s.providers, t) <= Rank(s.state, s.providers, t)
  {
    hide Inv, Step;
    StepShape(s, a);
  }

  lemma {:induction false} StepLowersTotal(s: State, a: Action, n: nat)
    requires Inv(s) && Enabled(s, a) && !IsCall(a)
    ensures Total(Step(s, a), n) <= Total(s, n) - (if a.id < n then 1 else 0)
  {
    hide Inv, Step, Rank;
    if n > 0 {
      StepLowersTotal(s, a, n - 1);
      StepLowersRank(s, a);
      if n - 1 in s.threads {
        StepKeepsRanks(s, a, s.threads[n - 1]);
      }
    }
  }

  /** With no new calls every step lowers a measure, whatever bound n on the callers is taken ... */
  lemma CallersProgress(states: seq<State>, actions: seq<Action>, i: nat, n: nat)
    requires IsRun(states, actions) && i < |actions| && !IsCall(actions[i])
    requires forall id :: id in states[i].threads ==> id < n
    ensures states[i + 1].threads.Keys == states[i].threads.Keys
    ensures Total(states[i + 1], n) < Total(states[i], n)
  {
    hide Inv, Total, Rank, Step;
    RunKeepsInv(states, actions, i);
    assert Enabled(states[i], actions[i]) && states[i + 1] == Step(states[i], actions[i]);
    StepLowersRank(states[i], actions[i]);
    StepLowersTotal(states[i], actions[i], n);
  }

  /** ... and it is zero exactly when all have returned, so with NeverStuck every caller returns. */
  lemma {:induction false} ZeroMeansReturned(s: State, n: nat)
    ensures Total(s, n) == 0 <==> forall id :: id in s.threads && id < n ==> Returned(s.threads[id])
  {
    if n > 0 {
      ZeroMeansReturned(s, n - 1);
    }
  }

  // ----- the mutex sections as methods on fields -----

  /** What one turn of Shutdown's loop does with the state it finds. */
  datatype Turn = ReturnEarly | WaitStart | WaitStop | StopThese(count: nat) | ReturnShared(failed: bool)

  class Runner {
    var state: RunnerState
    var started: nat
    var startCloses: nat
    var stopCloses: nat
    var shutdownFailed: bool

    /** The fields agree with those of a state of the transition system. */
    ghost predicate Shows(s: State)
      reads this
    {
      && state == s.state && started == s.started && startCloses == s.startCloses
      && stopCloses == s.stopCloses && shutdownFailed == s.shutdownFailed
    }

    constructor ()
      ensures forall n :: Shows(Init(n))
    {
      state, started, startCloses, stopCloses, shutdownFailed := New, 0, 0, 0, false;
    }

    method BeginBootstrap(ghost s: State, ghost id: nat) returns (ok: bool)
      requires Shows(s) && id !in s.threads
      modifies this
      ensures Shows(Step(s, CallBootstrap(id)))
      ensures Step(s, CallBootstrap(id)).threads[id] == if ok then Booting(0) else AlreadyStarted
    {
      if state != New {
        return false;
      }
      state := Starting;
      return true;
    }

    /** The section that ends Bootstrap, after all providers are up or the rollback is over. */
    method EndBootstrap(up: nat, ok: bool, rollbackFailed: bool, ghost s: State, ghost id: nat)
      requires Shows(s) && Enabled(s, if ok then FinishBoot(id) else FinishRollback(id))
      requires if ok then up == s.threads[id].next else rollbackFailed == s.threads[id].failed
      modifies this
      ensures Shows(Step(s, if ok then FinishBoot(id) else FinishRollback(id)))
    {
      if !ok {
        state := Stopped;
        shutdownFailed := rollbackFailed;
        startCloses := startCloses + 1;
        return;
      }
      started := up;
      state := Started;
      startCloses := startCloses + 1;
    }

    method LookAtState(ghost s: State, ghost id: nat) returns (turn: Turn)
      requires Shows(s) && Enabled(s, Look(id))
      modifies this
      ensures Shows(Step(s, Look(id)))
      ensures var thread := Step(s, Look(id)).threads[id];
              match turn
              case ReturnEarly => thread == ShutDown(false, true)
              case WaitStart => thread == WaitingForStart
              case WaitStop => thread == WaitingForStop
              case StopThese(count) => thread == ShuttingDown(count, false)
              case ReturnShared(failed) => thread == ShutDown(failed, false)
    {
      match state
      case New => return ReturnEarly;
      case Starting => return WaitStart;
      case Started =>
        state := Stopping;
        return StopThese(started);
      case Stopping => return WaitStop;
      case Stopped => return ReturnShared(shutdownFailed);
    }

    method EndShutdown(failed: bool, ghost s: State, ghost id: nat)
      requires Shows(s) && Enabled(s, FinishShutdown(id)) && failed == s.threads[id].failed
      modifies this
      ensures Shows(Step(s, FinishShutdown(id)))
    {
      started := 0;
      shutdownFailed := failed;
      state := Stopped;
      stopCloses := stopCloses + 1;
    }
  }
}
