/**
 Every interleaving of Add, TryAdd, Flush, Shutdown and the worker (batcher/batcher.go,
 batcher/worker.go): the admission protocol feeding one batch worker.
 */
module BatcherRuns {
  import opened Options
  import A = Admission
  import W = BatchWorker

  /** What the worker goroutine has in hand between leaving its select and returning to it. */
  datatype Phase<T> =
    | AtSelect
    | Busy(request: W.Request<T>, at: int)   // received at that time
    | Ticked
    | Draining                          // the request channel was found closed and empty
    | Finished(err: Option<W.Err>)      // finished.complete was called with this error

  datatype State<T> = State(
    size: nat,
    interval: int,
    now: int,
    gate: A.Gate<W.Request<T>>,
    worker: W.State<T>,
    phase: Phase<T>)

  datatype Action<T> =
    | Advance(to: int)
    | Admit(step: A.Step<W.Request<T>>)
    | TimerFires
    | SeeClosedQueue
    | HandlerReturns(err: Option<W.Err>)   // the worker finishes what it has in hand; err is the handler's answer

  function Init<T>(size: nat, interval: int, now: int, capacity: nat): State<T> {
    State(size, interval, now, A.Open(capacity), W.Start(), AtSelect)
  }

  /** TryAdd submits items only; Flush stamps its barrier with what has been accepted so far. */
  predicate Proper<T>(g: A.Gate<W.Request<T>>, step: A.Step<W.Request<T>>) {
    && (step.TrySend? || step.TryHandOff? ==> step.request.Item?)
    && (step.Register? && step.request.Barrier? ==> step.request.mark == |g.accepted|)
  }

  predicate Enabled<T>(s: State<T>, a: Action<T>) {
    match a
    case Advance(to) => s.now <= to
    case Admit(step) => Proper(s.gate, step) && A.Enabled(s.gate, step, s.phase.AtSelect?)
    case TimerFires => s.phase.AtSelect? && s.worker.timer.Armed? && s.worker.timer.fireAt <= s.now
    case SeeClosedQueue => s.phase.AtSelect? && s.gate.queueClosed && s.gate.queue == []
    case HandlerReturns(_) => s.phase.Busy? || s.phase.Ticked? || s.phase.Draining?
  }

  function Step<T>(s: State<T>, a: Action<T>): State<T>
    requires Enabled(s, a)
  {
    match a
    case Advance(to) => s.(now := to)
    case Admit(step) =>
      s.(gate := A.Next(s.gate, step, s.phase.AtSelect?),
         phase := if A.Delivers(step) then Busy(A.Received(s.gate, step, s.phase.AtSelect?), s.now) else s.phase)
    case TimerFires => s.(phase := Ticked)
    case SeeClosedQueue => s.(phase := Draining)
    case HandlerReturns(err) =>
      match s.phase
      case Busy(request, at) =>
        s.(worker := W.Processed(s.worker, s.size, request, err, W.Timing(s.interval, at, s.now)), phase := AtSelect)
      case Ticked => s.(worker := W.Flushed(s.worker, err), phase := AtSelect)
      case _ =>
        var w := W.Flushed(s.worker, err);
        s.(worker := w, phase := Finished(w.firstErr))
  }

  ghost predicate IsRun<T>(states: seq<State<T>>, actions: seq<Action<T>>) {
    && |states| == |actions| + 1
    && states[0].size >= 1
    && states[0] == Init(states[0].size, states[0].interval, states[0].now, states[0].gate.capacity)
    && forall i :: 0 <= i < |actions| ==> Enabled(states[i], actions[i]) && states[i + 1] == Step(states[i], actions[i])
  }

  // ----- the invariant -----

  /** The requests received: those the worker has processed, then the one in hand. */
  function InHand<T>(phase: Phase<T>): seq<W.Request<T>> {
    if phase.Busy? then [phase.request] else []
  }

  ghost predicate Linked<T>(g: A.Gate<W.Request<T>>, seen: seq<W.Request<T>>, phase: Phase<T>) {
    && g.taken <= |g.accepted| && g.accepted[..g.taken] == seen + InHand(phase)
    && (phase.Draining? || phase.Finished? ==> g.queueClosed && g.queue == [])
  }

  ghost predicate MarksFit<T>(g: A.Gate<W.Request<T>>) {
    && (forall p :: 0 <= p < |g.accepted| && g.accepted[p].Barrier? ==> g.accepted[p].mark <= p)
    && (forall id :: id in g.submitters && g.submitters[id].Selecting? && g.submitters[id].request.Barrier? ==>
          g.submitters[id].request.mark <= |g.accepted|)
  }

  /** The timer and the request in hand agree with the clock. */
  ghost predicate ClockFits<T>(s: State<T>) {
    && W.TimerFits(s.worker, s.interval, s.now)
    && (s.phase.Busy? ==> s.phase.at <= s.now)
    && (s.phase.Busy? ==> forall i :: 0 <= i < |s.worker.times| ==> s.worker.times[i].received <= s.phase.at)
  }

  ghost predicate Inv<T>(s: State<T>) {
    && s.size >= 1 && A.Inv(s.gate) && W.Fits(s.worker, s.size)
    && Linked(s.gate, s.worker.seen, s.phase) && MarksFit(s.gate) && ClockFits(s)
    && (s.phase.Finished? ==> s.worker.batch == [] && s.phase.err == s.worker.firstErr)
  }

  lemma AdmitLinked<T>(s: State<T>, a: Action<T>)
    requires A.Inv(s.gate) && Linked(s.gate, s.worker.seen, s.phase) && Enabled(s, a) && a.Admit?
    ensures var t := Step(s, a);
            Linked(t.gate, t.worker.seen, t.phase)
  {
    var waiting := s.phase.AtSelect?;
    A.StepIsFifo(s.gate, a.step, waiting);
    var g, h := s.gate, Step(s, a).gate;
    assert h.accepted[..g.taken] == g.accepted[..g.taken];
    if A.Delivers(a.step) {
      assert h.accepted[..g.taken + 1] == h.accepted[..g.taken] + [h.accepted[g.taken]];
      assert s.worker.seen + [] == s.worker.seen;
    }
  }

  lemma AdmitMarks<T>(g: A.Gate<W.Request<T>>, step: A.Step<W.Request<T>>, waiting: bool)
    requires MarksFit(g) && Proper(g, step) && A.Enabled(g, step, waiting)
    ensures MarksFit(A.Next(g, step, waiting))
  {
  }

  lemma StepClock<T>(s: State<T>, a: Action<T>)
    requires ClockFits(s) && Enabled(s, a) && W.Fits(s.worker, s.size)
    ensures ClockFits(Step(s, a))
  {
    if a.HandlerReturns? && s.phase.Busy? {
      W.ProcessedTimer(s.worker, s.size, s.phase.request, a.err, W.Timing(s.interval, s.phase.at, s.now));
    }
  }

  lemma AdmitKeepsInv<T>(s: State<T>, a: Action<T>)
    requires Inv(s) && Enabled(s, a) && a.Admit?
    ensures Inv(Step(s, a))
  {
    hide A.Inv, W.Fits, Linked, MarksFit, ClockFits;
    StepClock(s, a);
    A.StepKeepsInv(s.gate, a.step, s.phase.AtSelect?);
    AdmitLinked(s, a);
    AdmitMarks(s.gate, a.step, s.phase.AtSelect?);
  }

  /** Processing what is in hand makes it seen. */
  lemma SeenLinked<T>(g: A.Gate<W.Request<T>>, seen: seq<W.Request<T>>, request: W.Request<T>, at: int)
    requires Linked(g, seen, Busy(request, at))
    ensures Linked(g, seen + [request], AtSelect)
  {
    assert seen + [request] + [] == seen + [request];
  }

  lemma FlushKeepsFits<T>(w: W.State<T>, size: nat, err: Option<W.Err>)
    requires size >= 1 && W.Fits(w, size)
    ensures W.Fits(W.Flushed(w, err), size) && W.Flushed(w, err).seen == w.seen && W.Flushed(w, err).batch == []
  {
    W.FlushFits(w, size, err);
  }

  lemma WorkerKeepsInv<T>(s: State<T>, a: Action<T>)
    requires Inv(s) && Enabled(s, a) && !a.Admit?
    ensures Inv(Step(s, a))
  {
    hide A.Inv, W.Fits, MarksFit, W.Processed, W.Flushed, ClockFits;
    StepClock(s, a);
    if a.HandlerReturns? {
      if s.phase.Busy? {
        W.ProcessedFits(s.worker, s.size, s.phase.request, a.err, W.Timing(s.interval, s.phase.at, s.now));
        SeenLinked(s.gate, s.worker.seen, s.phase.request, s.phase.at);
      } else {
        FlushKeepsFits(s.worker, s.size, a.err);
      }
    }
  }

  lemma {:induction false} RunKeepsInv<T>(states: seq<State<T>>, actions: seq<Action<T>>, n: nat)
    requires IsRun(states, actions) && n < |states|
    ensures Inv(states[n])
  {
    if n == 0 {
      W.StartFits<T>(states[0].size);
    } else {
      RunKeepsInv(states, actions, n - 1);
      assert Enabled(states[n - 1], actions[n - 1]);
      if actions[n - 1].Admit? {
        AdmitKeepsInv(states[n - 1], actions[n - 1]);
      } else {
        WorkerKeepsInv(states[n - 1], actions[n - 1]);
      }
    }
  }

  // ----- what holds in every interleaving -----

  /** No send reaches a closed channel, no channel is closed twice, and no one registers after the wait began. */
  lemma NeverFaults<T>(states: seq<State<T>>, actions: seq<Action<T>>, n: nat)
    requires IsRun(states, actions) && n < |states|
    ensures !states[n].gate.fault && |states[n].gate.queue| <= states[n].gate.capacity
    ensures states[n].gate.queueClosed ==> states[n].gate.submitters == map[]
  {
    RunKeepsInv(states, actions, n);
  }

  /** The requests whose callers have been told they were accepted, in the order of the answers. */
  ghost function AllTold<T>(states: seq<State<T>>, actions: seq<Action<T>>, n: nat): seq<W.Request<T>>
    requires |states| == |actions| + 1 && n < |states|
  {
    if n == 0 then [] else
      AllTold(states, actions, n - 1)
      + (if actions[n - 1].Admit? then A.Told(states[n - 1].gate, actions[n - 1].step, states[n].gate) else [])
  }

  /**
   Every Add, TryAdd and Flush that is told it was accepted has its request on record, at its own
   position; one that is told otherwise has none.
   */
  lemma {:induction false} ToldIsAccepted<T>(states: seq<State<T>>, actions: seq<Action<T>>, n: nat)
    requires IsRun(states, actions) && n < |states|
    ensures states[n].gate.accepted == AllTold(states, actions, n)
  {
    hide A.Next, A.Inv, W.Fits, Linked, MarksFit, ClockFits, W.Processed, W.Flushed;
    if n > 0 {
      ToldIsAccepted(states, actions, n - 1);
      RunKeepsInv(states, actions, n - 1);
      var s, a := states[n - 1], actions[n - 1];
      assert Enabled(s, a) && states[n] == Step(s, a);
      if a.Admit? {
        A.AnswersAreTrue(s.gate, a.step, s.phase.AtSelect?);
      }
    }
  }

  /** The handler's answers for the batches it was given, in order. */
  ghost function Answers<T>(states: seq<State<T>>, actions: seq<Action<T>>, n: nat): seq<Option<W.Err>>
    requires |states| == |actions| + 1 && n < |states|
  {
    if n == 0 then [] else
      Answers(states, actions, n - 1)
      + (if actions[n - 1].HandlerReturns? && |states[n].worker.handled| > |states[n - 1].worker.handled|
         then [actions[n - 1].err] else [])
  }

  function Errors<T>(batches: seq<W.Batch<T>>): seq<Option<W.Err>> {
    seq(|batches|, i requires 0 <= i < |batches| => batches[i].err)
  }

  lemma StepAnswers<T>(s: State<T>, a: Action<T>)
    requires Enabled(s, a)
    ensures var t := Step(s, a);
            || t.worker.handled == s.worker.handled
            || (a.HandlerReturns? && exists items :: t.worker.handled == s.worker.handled + [W.Batch(items, a.err)])
  {
    var t := Step(s, a);
    if t.worker.handled != s.worker.handled {
      assert t.worker.handled == s.worker.handled + [W.Batch(t.worker.handled[|s.worker.handled|].items, a.err)];
    }
  }

  /** Every batch is on record with the error the handler returned for it. */
  lemma {:induction false} BatchesKeepTheirErrors<T>(states: seq<State<T>>, actions: seq<Action<T>>, n: nat)
    requires IsRun(states, actions) && n < |states|
    ensures Errors(states[n].worker.handled) == Answers(states, actions, n)
  {
    hide Step, Enabled;
    if n > 0 {
      BatchesKeepTheirErrors(states, actions, n - 1);
      assert Enabled(states[n - 1], actions[n - 1]) && states[n] == Step(states[n - 1], actions[n - 1]);
      StepAnswers(states[n - 1], actions[n - 1]);
    }
  }

  lemma {:induction false} ItemsConcat<T>(a: seq<W.Request<T>>, b: seq<W.Request<T>>)
    ensures W.Items(a + b) == W.Items(a) + W.Items(b)
  {
    if b == [] {
      assert a + b == a;
    } else {
      var last := |b| - 1;
      assert a + b == (a + b[..last]) + [b[last]] && b == b[..last] + [b[last]];
      ItemsConcat(a, b[..last]);
      W.ItemsAppend(a + b[..last], b[last]);
      W.ItemsAppend(b[..last], b[last]);
    }
  }

  /**
   Handled batches, then the current batch, then what is in hand, then the queue, are the accepted items
   in order; every batch has between one and size items.
   */
  lemma ItemsConserved<T>(states: seq<State<T>>, actions: seq<Action<T>>, n: nat)
    requires IsRun(states, actions) && n < |states|
    ensures var s := states[n];
            && W.Flat(s.worker.handled) + s.worker.batch + W.Items(InHand(s.phase)) + W.Items(s.gate.queue)
               == W.Items(s.gate.accepted)
            && W.WellSized(s.worker.handled, s.size) && |s.worker.batch| < s.size
  {
    RunKeepsInv(states, actions, n);
    var s := states[n];
    var g := s.gate;
    assert g.accepted == g.accepted[..g.taken] + g.queue;
    ItemsConcat(g.accepted[..g.taken], g.queue);
    ItemsConcat(s.worker.seen, InHand(s.phase));
  }

  /** Items are stamped with the clock: when they are received, and when they are taken into the batch. */
  lemma StepStamps<T>(s: State<T>, a: Action<T>)
    requires Enabled(s, a)
    ensures var t := Step(s, a);
            && (t.phase.Busy? ==> t.phase == s.phase || t.phase.at == s.now)
            && (|t.worker.batch| > |s.worker.batch| ==>
                  s.phase.Busy? && t.worker.times == s.worker.times + [W.Stamp(s.phase.at, s.now)])
            && (t.worker.batch == s.worker.batch != [] ==> t.worker.times == s.worker.times)
  {
  }

  /**
   How long a partial batch may accumulate: while the worker is at its select, the timer can fire exactly
   once a full interval has passed since the batch's first item was taken into it. No item of the batch
   has then waited longer than the interval and the time from receiving the first item to taking it.
   */
  lemma PartialBatchTimesOut<T>(states: seq<State<T>>, actions: seq<Action<T>>, n: nat, i: nat)
    requires IsRun(states, actions) && n < |states| && i < |states[n].worker.batch|
    ensures var s := states[n];
            var w := s.worker;
            && |w.times| == |w.batch| && w.times[0].received <= w.times[0].taken <= s.now
            && (s.phase.AtSelect? ==> (Enabled(s, TimerFires) <==> w.times[0].taken + s.interval <= s.now))
            && (s.phase.AtSelect?
                && w.times[i].received + (w.times[0].taken - w.times[0].received) + s.interval <= s.now ==>
                  Enabled(s, TimerFires))
  {
    RunKeepsInv(states, actions, n);
  }

  /**
   When a flush barrier has completed, the batches handled by then hold exactly the items accepted before
   the barrier, which include everything accepted before Flush was called; its error is the first handler
   error among those batches.
   */
  lemma BarrierGuarantee<T>(states: seq<State<T>>, actions: seq<Action<T>>, n: nat, k: nat)
    requires IsRun(states, actions) && n < |states| && k < |states[n].worker.completions|
    ensures var s := states[n];
            var c := s.worker.completions[k];
            && c.pos < |s.gate.accepted| && s.gate.accepted[c.pos].Barrier?
            && s.gate.accepted[c.pos].mark <= c.pos && c.batches <= |s.worker.handled|
            && W.Flat(s.worker.handled[..c.batches]) == W.Items(s.gate.accepted[..c.pos])
            && c.err == W.FirstError(s.worker.handled[..c.batches])
  {
    RunKeepsInv(states, actions, n);
    var s := states[n];
    var c, seen := s.worker.completions[k], s.worker.seen;
    assert W.Served(seen, s.worker.handled, c);
    assert s.gate.accepted[..s.gate.taken][..|seen|] == seen;
    assert s.gate.accepted[..c.pos] == seen[..c.pos];
  }

  /** Barriers complete at most once each: no two completions are for the same barrier. */
  lemma BarriersCompleteOnce<T>(states: seq<State<T>>, actions: seq<Action<T>>, n: nat, j: nat, k: nat)
    requires IsRun(states, actions) && n < |states| && j < k < |states[n].worker.completions|
    ensures states[n].worker.completions[j].pos < states[n].worker.completions[k].pos
  {
    RunKeepsInv(states, actions, n);
    PositionsIncrease(states[n].worker.seen, j, k);
  }

  lemma {:induction false} PositionsIncrease<T>(requests: seq<W.Request<T>>, j: nat, k: nat)
    requires j < k < |W.BarrierPositions(requests)|
    ensures W.BarrierPositions(requests)[j] < W.BarrierPositions(requests)[k] < |requests|
  {
    var last := |requests| - 1;
    var before := W.BarrierPositions(requests[..last]);
    PositionsBounded(requests[..last], j);
    if k < |before| {
      PositionsIncrease(requests[..last], j, k);
    }
  }

  lemma {:induction false} PositionsBounded<T>(requests: seq<W.Request<T>>, j: nat)
    ensures j < |W.BarrierPositions(requests)| ==> W.BarrierPositions(requests)[j] < |requests|
  {
    if requests != [] {
      PositionsBounded(requests[..|requests| - 1], j);
    }
  }

  lemma {:induction false} EveryBarrierListed<T>(requests: seq<W.Request<T>>, p: nat) returns (k: nat)
    requires p < |requests| && requests[p].Barrier?
    ensures k < |W.BarrierPositions(requests)| && W.BarrierPositions(requests)[k] == p
  {
    var last := |requests| - 1;
    if p == last {
      k := |W.BarrierPositions(requests[..last])|;
    } else {
      k := EveryBarrierListed(requests[..last], p);
    }
  }

  ghost predicate CompletedBarrier<T>(completions: seq<W.Completion>, p: nat) {
    exists k :: 0 <= k < |completions| && completions[k].pos == p
  }

  /**
   The finished signal means the drain is complete: every accepted item has been handled, every accepted
   barrier completed, and the error reported is the first handler error of the whole run.
   */
  lemma FinishedMeansDrained<T>(states: seq<State<T>>, actions: seq<Action<T>>, n: nat)
    requires IsRun(states, actions) && n < |states| && states[n].phase.Finished?
    ensures var s := states[n];
            && W.Flat(s.worker.handled) == W.Items(s.gate.accepted)
            && s.phase.err == W.FirstError(s.worker.handled)
            && s.gate.queue == [] && s.gate.queueClosed
            && forall p :: 0 <= p < |s.gate.accepted| && s.gate.accepted[p].Barrier? ==>
                 CompletedBarrier<T>(s.worker.completions, p)
  {
    RunKeepsInv(states, actions, n);
    ItemsConserved(states, actions, n);
    var s := states[n];
    var g := s.gate;
    assert g.accepted[..g.taken] == g.accepted;
    assert s.worker.seen + [] == s.worker.seen;
    forall p | 0 <= p < |g.accepted| && g.accepted[p].Barrier?
      ensures CompletedBarrier<T>(s.worker.completions, p)
    {
      var k := EveryBarrierListed(s.worker.seen, p);
      assert s.worker.completions[k].pos == p;
    }
  }

  /** And it is final: no step of any caller or of the worker is possible after it; only time goes on. */
  lemma FinishedIsFinal<T>(states: seq<State<T>>, actions: seq<Action<T>>, n: nat, a: Action<T>)
    requires IsRun(states, actions) && n < |states| && states[n].phase.Finished?
    ensures Enabled(states[n], a) ==> a.Advance?
  {
    RunKeepsInv(states, actions, n);
  }

  // ----- shutdown terminates -----

  /** What is left to do once admission has closed. */
  function Remaining<T>(s: State<T>): nat {
    A.Load(s.gate) +
    match s.phase
    case AtSelect => if s.worker.timer.Armed? then 4 else 2
    case Busy(_, _) => 5
    case Ticked => 3
    case Draining => 1
    case Finished(_) => 0
  }

  /**
   After Shutdown every schedule ends: each step of anyone brings the drain strictly closer to its end,
   and the passing of time does not take it back ...
   */
  lemma DrainProgresses<T>(states: seq<State<T>>, actions: seq<Action<T>>, n: nat)
    requires IsRun(states, actions) && n < |actions| && states[n].gate.closed
    ensures states[n + 1].gate.closed
    ensures if actions[n].Advance? then Remaining(states[n + 1]) == Remaining(states[n])
            else Remaining(states[n + 1]) < Remaining(states[n])
  {
    RunKeepsInv(states, actions, n);
    var s, a := states[n], actions[n];
    assert Enabled(s, a) && states[n + 1] == Step(s, a);
    if a.Admit? {
      A.LoadDecreases(s.gate, a.step, s.phase.AtSelect?);
    } else if !a.Advance? {
      WorkerWindsDown(s, a);
    }
  }

  lemma WorkerWindsDown<T>(s: State<T>, a: Action<T>)
    requires Enabled(s, a) && !a.Admit? && !a.Advance? && W.Fits(s.worker, s.size)
    ensures Step(s, a).gate == s.gate && Remaining(Step(s, a)) < Remaining(s)
  {
  }

  ghost predicate CanStep<T(!new)>(s: State<T>) {
    exists a: Action<T> :: !a.Advance? && Enabled(s, a)
  }

  /** ... and no schedule stops short of the finished signal. */
  lemma DrainNeverStuck<T(!new)>(states: seq<State<T>>, actions: seq<Action<T>>, n: nat)
    requires IsRun(states, actions) && n < |states| && states[n].gate.closed
    ensures CanStep(states[n]) <==> !states[n].phase.Finished?
  {
    RunKeepsInv(states, actions, n);
    var s := states[n];
    match s.phase
    case Finished(_) =>
      forall a: Action<T>
        ensures Enabled(s, a) ==> a.Advance?
      {
        FinishedIsFinal(states, actions, n, a);
      }
    case AtSelect =>
      if s.gate.queueClosed && s.gate.queue == [] {
        assert Enabled(s, SeeClosedQueue);
      } else {
        var step := A.ClosedGateMoves(s.gate);
        assert Enabled(s, Admit(step));
      }
    case _ =>
      assert Enabled(s, HandlerReturns(None));
  }
}
