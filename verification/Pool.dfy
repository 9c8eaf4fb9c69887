/**
 Every interleaving of Submit, TrySubmit, Shutdown and a fixed number of workers (parallel/pool.go): the
 admission protocol feeding several workers. A future is known by the position of its task among the
 accepted ones.
 */
module Pool {
  import opened Options
  import A = Admission

  type Err = string

  /** closes counts how often the future's done channel was closed, runs how often the task was called. */
  datatype Future = Future(closes: nat, err: Option<Err>, runs: nat)

  datatype Worker = Idle | Busy(pos: nat) | Exited

  /** What execute was told about a task: the cause its context ended with, if any, and what the task returns. */
  datatype Told = Told(cause: Option<Err>, result: Option<Err>)

  /** told records what was told about each task so far; doneCloses counts closes of the pool's done channel. */
  datatype State<T> = State(
    gate: A.Gate<T>,
    workers: seq<Worker>,
    futures: seq<Future>,
    told: map<nat, Told>,
    doneCloses: nat)

  datatype Action<T> =
    | Admit(step: A.Step<T>, worker: nat)     // worker is the receiver, if the step delivers
    | Execute(worker: nat, cause: Option<Err>, result: Option<Err>)
    | Exit(worker: nat)                       // the range over the closed, empty channel ends
    | CloseDone                               // stop's goroutine, after workers.Wait

  function Init<T>(workers: nat, capacity: nat): State<T> {
    State(A.Open(capacity), seq(workers, i => Idle), [], map[], 0)
  }

  predicate IsIdle(workers: seq<Worker>, w: nat) {
    w < |workers| && workers[w].Idle?
  }

  predicate Enabled<T>(s: State<T>, a: Action<T>) {
    match a
    case Admit(step, w) => A.Enabled(s.gate, step, IsIdle(s.workers, w))
    case Execute(w, _, _) => w < |s.workers| && s.workers[w].Busy? && s.workers[w].pos < |s.futures|
    case Exit(w) => IsIdle(s.workers, w) && s.gate.queueClosed && s.gate.queue == []
    case CloseDone =>
      s.gate.queueClosed && s.doneCloses == 0 && forall w :: 0 <= w < |s.workers| ==> s.workers[w].Exited?
  }

  /** execute: a task whose context has ended completes with the cause without being called. */
  function Executed(f: Future, cause: Option<Err>, result: Option<Err>): Future {
    if cause.Some? then Future(f.closes + 1, cause, f.runs)
    else Future(f.closes + 1, result, f.runs + 1)
  }

  function Step<T>(s: State<T>, a: Action<T>): State<T>
    requires Enabled(s, a)
  {
    match a
    case Admit(step, w) =>
      var g := A.Next(s.gate, step, IsIdle(s.workers, w));
      s.(gate := g,
         futures := if |g.accepted| > |s.gate.accepted| then s.futures + [Future(0, None, 0)] else s.futures,
         workers := if A.Delivers(step) then s.workers[w := Busy(s.gate.taken)] else s.workers)
    case Execute(w, cause, result) =>
      var p := s.workers[w].pos;
      s.(workers := s.workers[w := Idle],
         futures := s.futures[p := Executed(s.futures[p], cause, result)],
         told := s.told[p := Told(cause, result)])
    case Exit(w) => s.(workers := s.workers[w := Exited])
    case CloseDone => s.(doneCloses := s.doneCloses + 1)
  }

  ghost predicate IsRun<T>(states: seq<State<T>>, actions: seq<Action<T>>) {
    && |states| == |actions| + 1
    && |states[0].workers| >= 1 && states[0] == Init(|states[0].workers|, states[0].gate.capacity)
    && forall i :: 0 <= i < |actions| ==> Enabled(states[i], actions[i]) && states[i + 1] == Step(states[i], actions[i])
  }

  // ----- the invariant -----

  predicate Untouched(f: Future) {
    f.closes == 0 && f.runs == 0
  }

  predicate Complete(f: Future) {
    f.closes == 1 && f.runs <= 1
  }

  predicate Held(workers: seq<Worker>, p: nat) {
    exists w :: 0 <= w < |workers| && workers[w] == Busy(p)
  }

  /** Each task received is complete or in exactly one worker's hands; the others are untouched. */
  ghost predicate Assigned(workers: seq<Worker>, futures: seq<Future>, taken: nat) {
    && taken <= |futures|
    && (forall p :: taken <= p < |futures| ==> Untouched(futures[p]))
    && (forall p :: 0 <= p < taken ==> Complete(futures[p]) || (Untouched(futures[p]) && Held(workers, p)))
    && (forall w :: 0 <= w < |workers| && workers[w].Busy? ==>
          workers[w].pos < taken && Untouched(futures[workers[w].pos]))
    && (forall w, v :: 0 <= w < v < |workers| && workers[w].Busy? && workers[v].Busy? ==>
          workers[w].pos != workers[v].pos)
  }

  ghost predicate ExitsFit<T>(s: State<T>) {
    && |s.workers| >= 1
    && (forall w :: 0 <= w < |s.workers| && s.workers[w].Exited? ==> s.gate.queueClosed && s.gate.queue == [])
    && s.doneCloses <= 1
    && (s.doneCloses == 1 ==> s.gate.queueClosed && forall w :: 0 <= w < |s.workers| ==> s.workers[w].Exited?)
  }

  /** The future is complete, with the cause and without a call, or with what its own task returned. */
  predicate Answers(f: Future, t: Told) {
    && f.closes == 1
    && (if t.cause.Some? then f.err == t.cause && f.runs == 0 else f.err == t.result && f.runs == 1)
  }

  ghost predicate Answered(futures: seq<Future>, told: map<nat, Told>) {
    && (forall p :: p in told ==> p < |futures| && Answers(futures[p], told[p]))
    && (forall p :: 0 <= p < |futures| && p !in told ==> Untouched(futures[p]))
  }

  ghost predicate Inv<T>(s: State<T>) {
    && A.Inv(s.gate) && |s.futures| == |s.gate.accepted|
    && Assigned(s.workers, s.futures, s.gate.taken) && ExitsFit(s) && Answered(s.futures, s.told)
  }

  lemma ExecuteAnswers(futures: seq<Future>, told: map<nat, Told>, p: nat, t: Told)
    requires Answered(futures, told) && p < |futures| && Untouched(futures[p])
    ensures Answered(futures[p := Executed(futures[p], t.cause, t.result)], told[p := t])
  {
  }

  lemma NewFutureUnanswered(futures: seq<Future>, told: map<nat, Told>)
    requires Answered(futures, told)
    ensures Answered(futures + [Future(0, None, 0)], told)
  {
  }

  lemma BusyIsUntouched(workers: seq<Worker>, futures: seq<Future>, taken: nat, w: nat)
    requires Assigned(workers, futures, taken) && w < |workers| && workers[w].Busy?
    ensures workers[w].pos < |futures| && Untouched(futures[workers[w].pos])
  {
  }

  lemma DeliverAssigns(workers: seq<Worker>, futures: seq<Future>, taken: nat, w: nat)
    requires Assigned(workers, futures, taken) && taken < |futures| && IsIdle(workers, w)
    ensures Assigned(workers[w := Busy(taken)], futures, taken + 1)
  {
    var next := workers[w := Busy(taken)];
    assert next[w] == Busy(taken);
    forall p | 0 <= p < taken && !Complete(futures[p])
      ensures Held(next, p)
    {
      var v :| 0 <= v < |workers| && workers[v] == Busy(p);
      assert next[v] == Busy(p);
    }
  }

  lemma NewFutureAssigned(workers: seq<Worker>, futures: seq<Future>, taken: nat)
    requires Assigned(workers, futures, taken)
    ensures Assigned(workers, futures + [Future(0, None, 0)], taken)
  {
  }

  lemma ExecuteAssigned(workers: seq<Worker>, futures: seq<Future>, taken: nat, w: nat,
      cause: Option<Err>, result: Option<Err>)
    requires Assigned(workers, futures, taken) && w < |workers| && workers[w].Busy?
    ensures var p := workers[w].pos;
            Assigned(workers[w := Idle], futures[p := Executed(futures[p], cause, result)], taken)
  {
    var p := workers[w].pos;
    var next := workers[w := Idle];
    forall q | 0 <= q < taken && q != p && !Complete(futures[q])
      ensures Held(next, q)
    {
      var v :| 0 <= v < |workers| && workers[v] == Busy(q);
      assert next[v] == Busy(q);
    }
  }

  lemma ExitAssigned(workers: seq<Worker>, futures: seq<Future>, taken: nat, w: nat)
    requires Assigned(workers, futures, taken) && IsIdle(workers, w)
    ensures Assigned(workers[w := Exited], futures, taken)
  {
    var next := workers[w := Exited];
    forall q | 0 <= q < taken && !Complete(futures[q])
      ensures Held(next, q)
    {
      var v :| 0 <= v < |workers| && workers[v] == Busy(q);
      assert next[v] == Busy(q);
    }
  }

  lemma AdmitExits<T>(s: State<T>, a: Action<T>)
    requires A.Inv(s.gate) && ExitsFit(s) && Enabled(s, a) && a.Admit?
    ensures ExitsFit(Step(s, a))
  {
  }

  /** A step accepts at most one request, and delivers only one that has been accepted. */
  lemma AcceptsOne<T>(g: A.Gate<T>, step: A.Step<T>, waiting: bool)
    requires A.Inv(g) && A.Enabled(g, step, waiting)
    ensures var h := A.Next(g, step, waiting);
            && |g.accepted| <= |h.accepted| <= |g.accepted| + 1
            && h.taken == g.taken + (if A.Delivers(step) then 1 else 0) <= |h.accepted|
  {
    A.StepIsFifo(g, step, waiting);
    A.StepKeepsInv(g, step, waiting);
  }

  lemma AdmitKeepsInv<T>(s: State<T>, a: Action<T>)
    requires Inv(s) && Enabled(s, a) && a.Admit?
    ensures Inv(Step(s, a))
  {
    hide A.Inv, Assigned, ExitsFit, A.Next, Answered;
    var waiting := IsIdle(s.workers, a.worker);
    A.StepKeepsInv(s.gate, a.step, waiting);
    AcceptsOne(s.gate, a.step, waiting);
    AdmitExits(s, a);
    NewFutureAssigned(s.workers, s.futures, s.gate.taken);
    NewFutureUnanswered(s.futures, s.told);
    if A.Delivers(a.step) {
      DeliverAssigns(s.workers, Step(s, a).futures, s.gate.taken, a.worker);
    }
  }

  lemma WorkerExits<T>(s: State<T>, a: Action<T>)
    requires ExitsFit(s) && Enabled(s, a) && !a.Admit?
    ensures ExitsFit(Step(s, a))
  {
  }

  lemma WorkerKeepsInv<T>(s: State<T>, a: Action<T>)
    requires Inv(s) && Enabled(s, a) && !a.Admit?
    ensures Inv(Step(s, a))
  {
    hide A.Inv, Assigned, ExitsFit, Answered;
    WorkerExits(s, a);
    match a
    case Execute(w, cause, result) =>
      ExecuteAssigned(s.workers, s.futures, s.gate.taken, w, cause, result);
      BusyIsUntouched(s.workers, s.futures, s.gate.taken, w);
      ExecuteAnswers(s.futures, s.told, s.workers[w].pos, Told(cause, result));
    case Exit(w) => ExitAssigned(s.workers, s.futures, s.gate.taken, w);
    case CloseDone =>
  }

  lemma {:induction false} RunKeepsInv<T>(states: seq<State<T>>, actions: seq<Action<T>>, n: nat)
    requires IsRun(states, actions) && n < |states|
    ensures Inv(states[n])
  {
    if n > 0 {
      RunKeepsInv(states, actions, n - 1);
      assert Enabled(states[n - 1], actions[n - 1]);
      if actions[n - 1].Admit? {
        AdmitKeepsInv(states[n - 1], actions[n - 1]);
      } else {
        WorkerKeepsInv(states[n - 1], actions[n - 1]);
      }
    }
  }

  // ----- what holds in every interleaving -----

  /** No send reaches a closed channel, no channel or future is closed twice, no task is called twice. */
  lemma NeverFaults<T>(states: seq<State<T>>, actions: seq<Action<T>>, n: nat)
    requires IsRun(states, actions) && n < |states|
    ensures !states[n].gate.fault && states[n].doneCloses <= 1
    ensures forall p :: 0 <= p < |states[n].futures| ==> states[n].futures[p].runs <= states[n].futures[p].closes <= 1
  {
    RunKeepsInv(states, actions, n);
    var s := states[n];
    forall p | 0 <= p < |s.futures|
      ensures s.futures[p].runs <= s.futures[p].closes <= 1
    {
      assert p < s.gate.taken ==> Complete(s.futures[p]) || Untouched(s.futures[p]);
    }
  }

  /** The tasks whose submitters have been told they were accepted, in the order of the answers. */
  ghost function AllTold<T>(states: seq<State<T>>, actions: seq<Action<T>>, n: nat): seq<T>
    requires |states| == |actions| + 1 && n < |states|
  {
    if n == 0 then [] else
      AllTold(states, actions, n - 1)
      + (if actions[n - 1].Admit? then A.Told(states[n - 1].gate, actions[n - 1].step, states[n].gate) else [])
  }

  /** Every Submit and TrySubmit that is given a future has its task accepted, at its own position, and no other. */
  lemma {:induction false} ToldIsAccepted<T>(states: seq<State<T>>, actions: seq<Action<T>>, n: nat)
    requires IsRun(states, actions) && n < |states|
    ensures states[n].gate.accepted == AllTold(states, actions, n)
    ensures |states[n].futures| == |AllTold(states, actions, n)|
  {
    hide A.Next, A.Inv, Assigned, ExitsFit, Answered;
    RunKeepsInv(states, actions, n);
    if n > 0 {
      ToldIsAccepted(states, actions, n - 1);
      RunKeepsInv(states, actions, n - 1);
      var s, a := states[n - 1], actions[n - 1];
      assert Enabled(s, a) && states[n] == Step(s, a);
      if a.Admit? {
        A.AnswersAreTrue(s.gate, a.step, IsIdle(s.workers, a.worker));
      }
    }
  }

  /** Tasks are started in acceptance order: the next one a worker receives is the oldest not yet received. */
  lemma StartsInOrder<T>(states: seq<State<T>>, actions: seq<Action<T>>, n: nat)
    requires IsRun(states, actions) && n < |actions| && actions[n].Admit? && A.Delivers(actions[n].step)
    ensures var s, a := states[n], actions[n];
            && a.worker < |states[n + 1].workers| && states[n + 1].workers[a.worker] == Busy(s.gate.taken)
            && s.gate.taken < |states[n + 1].gate.accepted|
            && A.Enabled(s.gate, a.step, IsIdle(s.workers, a.worker))
            && A.Received(s.gate, a.step, IsIdle(s.workers, a.worker)) == states[n + 1].gate.accepted[s.gate.taken]
  {
    RunKeepsInv(states, actions, n);
    assert Enabled(states[n], actions[n]) && states[n + 1] == Step(states[n], actions[n]);
    A.StepIsFifo(states[n].gate, actions[n].step, IsIdle(states[n].workers, actions[n].worker));
  }

  /**
   A future is complete exactly when a worker has executed its task, and holds that task's own outcome:
   the cause its context ended with, and then the task was never called, or what the one call returned.
   */
  lemma FutureHoldsItsOutcome<T>(states: seq<State<T>>, actions: seq<Action<T>>, n: nat, p: nat)
    requires IsRun(states, actions) && n < |states| && p < |states[n].futures|
    ensures var s := states[n];
            var f := s.futures[p];
            && (f.closes == 1 <==> p in s.told)
            && (p in s.told && s.told[p].cause.Some? ==> f.err == s.told[p].cause && f.runs == 0)
            && (p in s.told && s.told[p].cause.None? ==> f.err == s.told[p].result && f.runs == 1)
  {
    RunKeepsInv(states, actions, n);
  }

  lemma StepKeepsCompleted<T>(s: State<T>, a: Action<T>, p: nat)
    requires Assigned(s.workers, s.futures, s.gate.taken) && Enabled(s, a)
    requires p < |s.futures| && s.futures[p].closes == 1
    ensures p < |Step(s, a).futures| && Step(s, a).futures[p] == s.futures[p]
  {
    hide Assigned, A.Next;
    if a.Execute? {
      BusyIsUntouched(s.workers, s.futures, s.gate.taken, a.worker);
    }
  }

  /** A completed future never changes, so every Wait on it gives the same answer. */
  lemma {:induction false} CompletedIsFinal<T>(states: seq<State<T>>, actions: seq<Action<T>>, n: nat, m: nat, p: nat)
    requires IsRun(states, actions) && n <= m < |states| && p < |states[n].futures| && states[n].futures[p].closes == 1
    ensures p < |states[m].futures| && states[m].futures[p] == states[n].futures[p]
  {
    hide Step, Enabled, Assigned, Answered, ExitsFit, A.Inv;
    if n < m {
      CompletedIsFinal(states, actions, n, m - 1, p);
      RunKeepsInv(states, actions, m - 1);
      assert Enabled(states[m - 1], actions[m - 1]) && states[m] == Step(states[m - 1], actions[m - 1]);
      StepKeepsCompleted(states[m - 1], actions[m - 1], p);
    }
  }

  /** The pool's done signal means every accepted task has been processed and its future completed, exactly once. */
  lemma DoneMeansDrained<T>(states: seq<State<T>>, actions: seq<Action<T>>, n: nat)
    requires IsRun(states, actions) && n < |states| && states[n].doneCloses == 1
    ensures var s := states[n];
            && |s.futures| == |s.gate.accepted| && s.gate.queue == [] && s.gate.submitters == map[]
            && forall p :: 0 <= p < |s.futures| ==> s.futures[p].closes == 1
  {
    RunKeepsInv(states, actions, n);
    var s := states[n];
    assert s.workers[0].Exited?;
    assert s.gate.taken == |s.gate.accepted|;
    forall p | 0 <= p < |s.futures|
      ensures s.futures[p].closes == 1
    {
      assert !Held(s.workers, p);
    }
  }

  // ----- shutdown terminates -----

  function WorkerLoad(workers: seq<Worker>): nat {
    if workers == [] then 0 else
      WorkerLoad(workers[1..]) + (match workers[0] case Idle => 1 case Busy(_) => 2 case Exited => 0)
  }

  lemma {:induction false} WorkerLoadUpdate(workers: seq<Worker>, w: nat, next: Worker)
    requires w < |workers|
    ensures WorkerLoad(workers[w := next]) == WorkerLoad(workers) - WorkerLoad([workers[w]]) + WorkerLoad([next])
  {
    var changed := workers[w := next];
    if w == 0 {
      assert changed[1..] == workers[1..];
    } else {
      assert changed[1..] == workers[1..][w - 1 := next];
      WorkerLoadUpdate(workers[1..], w - 1, next);
    }
  }

  function Remaining<T>(s: State<T>): int {
    A.Load(s.gate) + WorkerLoad(s.workers) + (1 - s.doneCloses)
  }

  /** After Shutdown every step of anyone brings the drain strictly closer to its end ... */
  lemma DrainProgresses<T>(states: seq<State<T>>, actions: seq<Action<T>>, n: nat)
    requires IsRun(states, actions) && n < |actions| && states[n].gate.closed
    ensures states[n + 1].gate.closed && 0 <= Remaining(states[n + 1]) < Remaining(states[n])
  {
    hide Assigned, Answered, A.Inv, A.Next, A.Load;
    RunKeepsInv(states, actions, n);
    RunKeepsInv(states, actions, n + 1);
    var s, a := states[n], actions[n];
    assert Enabled(s, a) && states[n + 1] == Step(s, a);
    match a
    case Admit(step, w) =>
      A.LoadDecreases(s.gate, step, IsIdle(s.workers, w));
      if A.Delivers(step) {
        WorkerLoadUpdate(s.workers, w, Busy(s.gate.taken));
      }
    case Execute(w, _, _) => WorkerLoadUpdate(s.workers, w, Idle);
    case Exit(w) => WorkerLoadUpdate(s.workers, w, Exited);
    case CloseDone =>
  }

  ghost predicate CanStep<T(!new)>(s: State<T>) {
    exists a: Action<T> :: Enabled(s, a)
  }

  /** ... and no schedule stops short of the done signal. */
  lemma DrainNeverStuck<T(!new)>(states: seq<State<T>>, actions: seq<Action<T>>, n: nat)
    requires IsRun(states, actions) && n < |states| && states[n].gate.closed
    ensures CanStep(states[n]) <==> states[n].doneCloses == 0
  {
    RunKeepsInv(states, actions, n);
    if states[n].doneCloses == 0 {
      SomeStep(states[n]);
    } else {
      NoStep(states[n]);
    }
  }

  lemma SomeStep<T(!new)>(s: State<T>)
    requires Inv(s) && s.gate.closed && s.doneCloses == 0
    ensures CanStep(s)
  {
    if w :| 0 <= w < |s.workers| && s.workers[w].Busy? {
      assert Enabled(s, Execute(w, None, None));
    } else if w :| 0 <= w < |s.workers| && s.workers[w].Idle? {
      if s.gate.queueClosed && s.gate.queue == [] {
        assert Enabled(s, Exit(w));
      } else {
        var step := A.ClosedGateMoves(s.gate);
        assert Enabled(s, Admit(step, w));
      }
    } else {
      assert s.workers[0].Exited?;
      assert Enabled(s, CloseDone);
    }
  }

  lemma NoStep<T(!new)>(s: State<T>)
    requires Inv(s) && s.doneCloses == 1
    ensures !CanStep(s)
  {
    forall a: Action<T>
      ensures !Enabled(s, a)
    {
    }
  }
}
