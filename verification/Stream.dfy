/**
 Every interleaving of a stream's workers, its consumer, its producer and cancellation
 (parallel/stream.go). Channel operations and context checks are single steps; the callback is an
 oracle. The model records what was received, what each callback returned and what was delivered, and
 for every received input what became of it.
 */
module Stream {
  import opened Options

  /** A worker goroutine. slot is the true receive position of its input, index the number it was given. */
  datatype Worker<R> =
    | AtReceive                                  // about to enter the gate
    | AtGate                                     // in the gate, context not checked yet
    | InGate                                     // in the gate, about to receive
    | Got(slot: nat)                             // received, still in the gate, no index yet
    | Fetched(slot: nat, index: nat)             // receive returned
    | Calling(slot: nat, index: nat)             // the callback is running
    | Delivering(slot: nat, index: nat, result: R)
    | Exited

  datatype Fate = HeldBy(worker: nat) | Delivered | Dropped

  datatype Result<R> = Result(index: nat, value: R)

  datatype Closer = WaitingForWorkers | ErrSet | ResultsClosed | DoneClosed

  datatype State<T, R> = State(
    workers: seq<Worker<R>>,
    gate: Option<nat>,                // the worker in the gate
    next: nat,
    canceled: Option<string>,         // the stream context's cause
    inputClosed: bool,
    received: seq<T>,
    fates: seq<Fate>,
    inHand: map<nat, T>,              // each worker's local value
    called: map<nat, T>,              // what callbacks were given, by true position
    returned: map<nat, R>,            // callback results by true position
    results: seq<Result<R>>,          // what the consumer got
    closer: Closer,
    err: Option<string>,
    fault: bool)                      // a send on the closed result channel

  datatype Action<T, R> =
    | Cancel(cause: string)
    | CloseInput
    | EnterGate(w: nat)
    | AbandonGate(w: nat)             // context done while waiting for the gate
    | CheckContext(w: nat)
    | ReceiveInput(w: nat, value: T)
    | ReceiveClosed(w: nat)
    | ReceiveCanceled(w: nat)
    | AssignIndex(w: nat)             // index := next; next++; leave the gate
    | Begin(w: nat)                   // call the callback, or return if the context has ended
    | Return(w: nat, result: R)
    | Deliver(w: nat)
    | AbandonResult(w: nat)           // context done while delivering
    | SetErr
    | CloseResults
    | CloseDone

  function Init<T, R>(limit: nat): State<T, R> {
    State(seq(limit, i => AtReceive), None, 0, None, false, [], [], map[], map[], map[], [],
          WaitingForWorkers, None, false)
  }

  predicate In<T, R>(s: State<T, R>, w: nat) {
    w < |s.workers|
  }

  predicate AllExited<R>(workers: seq<Worker<R>>) {
    forall w :: 0 <= w < |workers| ==> workers[w].Exited?
  }

  predicate Enabled<T, R>(s: State<T, R>, a: Action<T, R>) {
    match a
    case Cancel(_) => s.canceled.None?
    case CloseInput => !s.inputClosed
    case EnterGate(w) => In(s, w) && s.workers[w].AtReceive? && s.gate.None?
    case AbandonGate(w) => In(s, w) && s.workers[w].AtReceive? && s.canceled.Some?
    case CheckContext(w) => In(s, w) && s.workers[w].AtGate?
    case ReceiveInput(w, _) => In(s, w) && s.workers[w].InGate? && !s.inputClosed
    case ReceiveClosed(w) => In(s, w) && s.workers[w].InGate? && s.inputClosed
    case ReceiveCanceled(w) => In(s, w) && s.workers[w].InGate? && s.canceled.Some?
    case AssignIndex(w) => In(s, w) && s.workers[w].Got?
    case Begin(w) => In(s, w) && s.workers[w].Fetched? && s.workers[w].slot < |s.fates|
    case Return(w, _) => In(s, w) && s.workers[w].Calling?
    case Deliver(w) => In(s, w) && s.workers[w].Delivering? && s.workers[w].slot < |s.fates|
    case AbandonResult(w) => In(s, w) && s.workers[w].Delivering? && s.canceled.Some? && s.workers[w].slot < |s.fates|
    case SetErr => s.closer.WaitingForWorkers? && AllExited(s.workers)
    case CloseResults => s.closer.ErrSet?
    case CloseDone => s.closer.ResultsClosed?
  }

  /** The steps of the stream itself and of its context move no worker. */
  predicate Moves<T, R>(a: Action<T, R>) {
    !(a.Cancel? || a.CloseInput? || a.SetErr? || a.CloseResults? || a.CloseDone?)
  }

  // What a step makes of each part of the state.

  function WorkerAfter<T, R>(s: State<T, R>, a: Action<T, R>): Worker<R>
    requires Enabled(s, a) && Moves(a)
  {
    var worker := s.workers[a.w];
    match a
    case EnterGate(_) => AtGate
    case AbandonGate(_) => Exited
    case CheckContext(_) => if s.canceled.Some? then Exited else InGate
    case ReceiveInput(_, _) => Got(|s.received|)
    case ReceiveClosed(_) => Exited
    case ReceiveCanceled(_) => Exited
    case AssignIndex(_) => Fetched(worker.slot, s.next)
    case Begin(_) => if s.canceled.Some? then Exited else Calling(worker.slot, worker.index)
    case Return(_, result) => Delivering(worker.slot, worker.index, result)
    case Deliver(_) => AtReceive
    case AbandonResult(_) => Exited
  }

  function WorkersAfter<T, R>(s: State<T, R>, a: Action<T, R>): seq<Worker<R>>
    requires Enabled(s, a)
  {
    if Moves(a) then s.workers[a.w := WorkerAfter(s, a)] else s.workers
  }

  /** The gate is free again once its worker has an index or has given up. */
  function GateAfter<T, R>(s: State<T, R>, a: Action<T, R>): Option<nat> {
    if a.EnterGate? then Some(a.w)
    else if a.ReceiveClosed? || a.ReceiveCanceled? || a.AssignIndex? || (a.CheckContext? && s.canceled.Some?) then None
    else s.gate
  }

  function FatesAfter<T, R>(s: State<T, R>, a: Action<T, R>): seq<Fate>
    requires Enabled(s, a)
  {
    if a.ReceiveInput? then s.fates + [HeldBy(a.w)]
    else if a.Deliver? then s.fates[s.workers[a.w].slot := Delivered]
    else if a.AbandonResult? || (a.Begin? && s.canceled.Some?) then s.fates[s.workers[a.w].slot := Dropped]
    else s.fates
  }

  function CalledAfter<T, R>(s: State<T, R>, a: Action<T, R>): map<nat, T>
    requires Enabled(s, a)
  {
    if a.Begin? && s.canceled.None? && a.w in s.inHand then s.called[s.workers[a.w].slot := s.inHand[a.w]] else s.called
  }

  function ReturnedAfter<T, R>(s: State<T, R>, a: Action<T, R>): map<nat, R>
    requires Enabled(s, a)
  {
    if a.Return? then s.returned[s.workers[a.w].slot := a.result] else s.returned
  }

  function ResultsAfter<T, R>(s: State<T, R>, a: Action<T, R>): seq<Result<R>>
    requires Enabled(s, a)
  {
    if a.Deliver? then s.results + [Result(s.workers[a.w].index, s.workers[a.w].result)] else s.results
  }

  /** The terminal error is the cause at the time; then the closer cancels the stream itself. */
  function CanceledAfter<T, R>(s: State<T, R>, a: Action<T, R>): Option<string> {
    if a.Cancel? then Some(a.cause)
    else if a.SetErr? && s.canceled.None? then Some("context canceled")
    else s.canceled
  }

  function CloserAfter<T, R>(s: State<T, R>, a: Action<T, R>): Closer {
    if a.SetErr? then ErrSet
    else if a.CloseResults? then ResultsClosed
    else if a.CloseDone? then DoneClosed
    else s.closer
  }

  function Step<T, R>(s: State<T, R>, a: Action<T, R>): State<T, R>
    requires Enabled(s, a)
  {
    State(
      WorkersAfter(s, a),
      GateAfter(s, a),
      if a.AssignIndex? then s.next + 1 else s.next,
      CanceledAfter(s, a),
      s.inputClosed || a.CloseInput?,
      if a.ReceiveInput? then s.received + [a.value] else s.received,
      FatesAfter(s, a),
      if a.ReceiveInput? then s.inHand[a.w := a.value] else s.inHand,
      CalledAfter(s, a),
      ReturnedAfter(s, a),
      ResultsAfter(s, a),
      CloserAfter(s, a),
      if a.SetErr? then s.canceled else s.err,
      s.fault || (a.Deliver? && (s.closer.ResultsClosed? || s.closer.DoneClosed?)))
  }

  ghost predicate IsRun<T, R>(states: seq<State<T, R>>, actions: seq<Action<T, R>>) {
    && |states| == |actions| + 1 && states[0] == Init(|states[0].workers|)
    && forall i :: 0 <= i < |actions| ==> Enabled(states[i], actions[i]) && states[i + 1] == Step(states[i], actions[i])
  }

  // ----- the invariant -----

  predicate InsideGate<R>(worker: Worker<R>) {
    worker.AtGate? || worker.InGate? || worker.Got?
  }

  predicate Holds<R>(worker: Worker<R>) {
    worker.Got? || worker.Fetched? || worker.Calling? || worker.Delivering?
  }

  /** The gate lets one worker in at a time, and an input received in it is the next to be numbered. */
  ghost predicate GateFits<R>(workers: seq<Worker<R>>, gate: Option<nat>, next: nat, received: nat) {
    && (forall w :: 0 <= w < |workers| && InsideGate(workers[w]) ==> gate == Some(w))
    && (forall w :: 0 <= w < |workers| && workers[w].Got? ==> workers[w].slot == next && received == next + 1)
    && (gate.Some? ==> gate.value < |workers| && InsideGate(workers[gate.value]))
    && (gate.None? || !workers[gate.value].Got? ==> received == next)
  }

  /** Every input a worker holds is marked as its own, and carries its true position as index. */
  ghost predicate HoldersFit<R>(workers: seq<Worker<R>>, fates: seq<Fate>) {
    && (forall w :: 0 <= w < |workers| && Holds(workers[w]) ==>
          workers[w].slot < |fates| && fates[workers[w].slot] == HeldBy(w))
    && (forall w :: 0 <= w < |workers| && Holds(workers[w]) && !workers[w].Got? ==> workers[w].index == workers[w].slot)
    && (forall i :: 0 <= i < |fates| && fates[i].HeldBy? ==>
          fates[i].worker < |workers| && Holds(workers[fates[i].worker]) && workers[fates[i].worker].slot == i)
  }

  predicate Has<R>(results: seq<Result<R>>, i: nat) {
    exists k :: 0 <= k < |results| && results[k].index == i
  }

  /** Delivered inputs are exactly the results, each once and with its own callback's value. */
  ghost predicate ResultsFit<R>(fates: seq<Fate>, returned: map<nat, R>, results: seq<Result<R>>) {
    && (forall k :: 0 <= k < |results| ==>
          && results[k].index < |fates| && fates[results[k].index] == Delivered
          && results[k].index in returned && results[k].value == returned[results[k].index])
    && (forall k, l :: 0 <= k < l < |results| ==> results[k].index != results[l].index)
    && (forall i :: 0 <= i < |fates| && fates[i] == Delivered ==> Has(results, i))
  }

  ghost predicate PendingResults<R>(workers: seq<Worker<R>>, returned: map<nat, R>) {
    forall w :: 0 <= w < |workers| && workers[w].Delivering? ==>
      workers[w].slot in returned && returned[workers[w].slot] == workers[w].result
  }

  ghost predicate EndingFits<T, R>(s: State<T, R>) {
    && (!s.closer.WaitingForWorkers? ==> AllExited(s.workers) && s.canceled.Some?)
    && (forall i :: 0 <= i < |s.fates| && s.fates[i] == Dropped ==> s.canceled.Some?)
    && (!s.closer.WaitingForWorkers? && s.err.None? ==> forall i :: 0 <= i < |s.fates| ==> s.fates[i] == Delivered)
    && !s.fault
  }

  ghost predicate Inv<T, R>(s: State<T, R>) {
    && |s.fates| == |s.received|
    && GateFits(s.workers, s.gate, s.next, |s.received|) && HoldersFit(s.workers, s.fates)
    && ResultsFit(s.fates, s.returned, s.results) && PendingResults(s.workers, s.returned)
    && EndingFits(s)
  }

  /** A worker outside the gate moves about outside it. */
  lemma OutsideMoves<R>(workers: seq<Worker<R>>, gate: Option<nat>, next: nat, received: nat, w: nat, to: Worker<R>)
    requires GateFits(workers, gate, next, received) && w < |workers| && !InsideGate(workers[w]) && !InsideGate(to)
    ensures GateFits(workers[w := to], gate, next, received)
  {
  }

  /** The worker in the gate leaves it; if it had received an input, that input gets its number. */
  lemma GateLeft<R>(workers: seq<Worker<R>>, gate: Option<nat>, next: nat, received: nat, w: nat, to: Worker<R>)
    requires GateFits(workers, gate, next, received) && w < |workers| && InsideGate(workers[w]) && !InsideGate(to)
    ensures GateFits(workers[w := to], None, received, received)
    ensures received == if workers[w].Got? then next + 1 else next
  {
  }

  lemma GateEntered<R>(workers: seq<Worker<R>>, next: nat, received: nat, w: nat)
    requires GateFits(workers, None, next, received) && w < |workers|
    ensures GateFits(workers[w := AtGate], Some(w), next, received)
  {
  }

  lemma GatePassed<R>(workers: seq<Worker<R>>, gate: Option<nat>, next: nat, received: nat, w: nat)
    requires GateFits(workers, gate, next, received) && w < |workers| && workers[w].AtGate?
    ensures GateFits(workers[w := InGate], gate, next, received)
  {
  }

  lemma GateReceives<R>(workers: seq<Worker<R>>, gate: Option<nat>, next: nat, received: nat, w: nat)
    requires GateFits(workers, gate, next, received) && w < |workers| && workers[w].InGate?
    ensures GateFits(workers[w := Got(received)], gate, next, received + 1)
  {
  }

  lemma StepGate<T, R>(s: State<T, R>, a: Action<T, R>)
    requires Enabled(s, a) && GateFits(s.workers, s.gate, s.next, |s.received|)
    ensures var t := Step(s, a);
            GateFits(t.workers, t.gate, t.next, |t.received|)
  {
    hide GateFits, FatesAfter, CalledAfter, ReturnedAfter, ResultsAfter, CanceledAfter, CloserAfter;
    var received := |s.received|;
    if a.EnterGate? {
      GateEntered(s.workers, s.next, received, a.w);
    } else if a.CheckContext? && s.canceled.None? {
      GatePassed(s.workers, s.gate, s.next, received, a.w);
    } else if a.ReceiveInput? {
      GateReceives(s.workers, s.gate, s.next, received, a.w);
    } else if a.CheckContext? || a.ReceiveClosed? || a.ReceiveCanceled? || a.AssignIndex? {
      GateLeft(s.workers, s.gate, s.next, received, a.w, Step(s, a).workers[a.w]);
    } else if Moves(a) {
      OutsideMoves(s.workers, s.gate, s.next, received, a.w, Step(s, a).workers[a.w]);
    }
  }

  /** A worker moves on without receiving or giving up an input. */
  lemma HolderMoves<R>(workers: seq<Worker<R>>, fates: seq<Fate>, w: nat, to: Worker<R>)
    requires HoldersFit(workers, fates) && w < |workers| && (Holds(workers[w]) <==> Holds(to))
    requires Holds(to) ==> to.slot == workers[w].slot && !to.Got? && to.index == to.slot
    ensures HoldersFit(workers[w := to], fates)
  {
  }

  lemma HolderReleases<R>(workers: seq<Worker<R>>, fates: seq<Fate>, w: nat, to: Worker<R>, fate: Fate)
    requires HoldersFit(workers, fates) && w < |workers| && Holds(workers[w]) && !Holds(to) && !fate.HeldBy?
    ensures HoldersFit(workers[w := to], fates[workers[w].slot := fate])
  {
  }

  lemma HolderReceives<R>(workers: seq<Worker<R>>, fates: seq<Fate>, w: nat)
    requires HoldersFit(workers, fates) && w < |workers| && !Holds(workers[w])
    ensures HoldersFit(workers[w := Got(|fates|)], fates + [HeldBy(w)])
  {
  }

  /** The worker gives up its input. */
  predicate Releases<T, R>(s: State<T, R>, a: Action<T, R>) {
    a.Deliver? || a.AbandonResult? || (a.Begin? && s.canceled.Some?)
  }

  lemma ReleaseEndsHold<T, R>(s: State<T, R>, a: Action<T, R>)
    requires Enabled(s, a) && Releases(s, a)
    ensures Holds(s.workers[a.w]) && !Holds(WorkerAfter(s, a))
  {
  }

  lemma MoveKeepsHold<T, R>(s: State<T, R>, a: Action<T, R>)
    requires Enabled(s, a) && Moves(a) && !a.ReceiveInput? && !Releases(s, a)
    requires a.AssignIndex? ==> s.workers[a.w].slot == s.next
    requires a.Begin? || a.Return? ==> s.workers[a.w].index == s.workers[a.w].slot
    ensures var from, to := s.workers[a.w], WorkerAfter(s, a);
            && (Holds(from) <==> Holds(to))
            && (Holds(to) ==> to.slot == from.slot && !to.Got? && to.index == to.slot)
  {
  }

  lemma StepHolders<T, R>(s: State<T, R>, a: Action<T, R>)
    requires Enabled(s, a) && |s.fates| == |s.received|
    requires GateFits(s.workers, s.gate, s.next, |s.received|) && HoldersFit(s.workers, s.fates)
    ensures HoldersFit(Step(s, a).workers, Step(s, a).fates) && |Step(s, a).fates| == |Step(s, a).received|
  {
    hide HoldersFit, GateFits, GateAfter, CalledAfter, ReturnedAfter, ResultsAfter, CanceledAfter, CloserAfter;
    HeldIndex(s, a);
    if a.ReceiveInput? {
      HolderReceives(s.workers, s.fates, a.w);
    } else if Releases(s, a) {
      ReleaseEndsHold(s, a);
      hide WorkerAfter, Holds;
      HolderReleases(s.workers, s.fates, a.w, WorkerAfter(s, a), if a.Deliver? then Delivered else Dropped);
    } else if Moves(a) {
      MoveKeepsHold(s, a);
      hide WorkerAfter, Holds;
      HolderMoves(s.workers, s.fates, a.w, WorkerAfter(s, a));
    }
  }

  /** The index a worker carries, or is about to be given, is the true position of its input. */
  lemma HeldIndex<T, R>(s: State<T, R>, a: Action<T, R>)
    requires Enabled(s, a) && GateFits(s.workers, s.gate, s.next, |s.received|) && HoldersFit(s.workers, s.fates)
    ensures a.AssignIndex? ==> s.workers[a.w].slot == s.next
    ensures a.Begin? || a.Return? || a.Deliver? ==> s.workers[a.w].index == s.workers[a.w].slot
  {
  }

  lemma ResultDelivered<R>(fates: seq<Fate>, returned: map<nat, R>, results: seq<Result<R>>, r: Result<R>)
    requires ResultsFit(fates, returned, results) && r.index < |fates| && fates[r.index] != Delivered
    requires r.index in returned && returned[r.index] == r.value
    ensures ResultsFit(fates[r.index := Delivered], returned, results + [r])
  {
    var after, more := fates[r.index := Delivered], results + [r];
    forall i | 0 <= i < |after| && after[i] == Delivered
      ensures Has(more, i)
    {
      if i == r.index {
        assert more[|results|].index == i;
      } else {
        var k :| 0 <= k < |results| && results[k].index == i;
        assert more[k].index == i;
      }
    }
  }

  /** Callback results and fates of inputs not delivered do not touch the results. */
  lemma ResultsKept<R>(fates: seq<Fate>, returned: map<nat, R>, results: seq<Result<R>>,
      fates': seq<Fate>, returned': map<nat, R>)
    requires ResultsFit(fates, returned, results) && |fates| <= |fates'|
    requires forall i :: 0 <= i < |fates| ==> (fates[i] == Delivered <==> fates'[i] == Delivered)
    requires forall i :: |fates| <= i < |fates'| ==> fates'[i] != Delivered
    requires forall i :: i in returned && i < |fates| && fates[i] == Delivered ==>
      i in returned' && returned'[i] == returned[i]
    ensures ResultsFit(fates', returned', results)
  {
  }

  lemma StepResults<T, R>(s: State<T, R>, a: Action<T, R>)
    requires Enabled(s, a) && |s.fates| == |s.received|
    requires HoldersFit(s.workers, s.fates) && ResultsFit(s.fates, s.returned, s.results)
    requires PendingResults(s.workers, s.returned)
    ensures ResultsFit(Step(s, a).fates, Step(s, a).returned, Step(s, a).results)
  {
    hide ResultsFit;
    if a.Deliver? {
      var worker := s.workers[a.w];
      ResultDelivered(s.fates, s.returned, s.results, Result(worker.index, worker.result));
    } else {
      ResultsKept(s.fates, s.returned, s.results, Step(s, a).fates, Step(s, a).returned);
    }
  }

  lemma PendingMoves<R>(workers: seq<Worker<R>>, returned: map<nat, R>, w: nat, to: Worker<R>)
    requires PendingResults(workers, returned) && w < |workers| && !to.Delivering?
    ensures PendingResults(workers[w := to], returned)
  {
  }

  lemma PendingReturns<R>(workers: seq<Worker<R>>, fates: seq<Fate>, returned: map<nat, R>, w: nat, result: R)
    requires HoldersFit(workers, fates) && PendingResults(workers, returned) && w < |workers| && workers[w].Calling?
    ensures var worker := workers[w];
            PendingResults(workers[w := Delivering(worker.slot, worker.index, result)], returned[worker.slot := result])
  {
  }

  lemma StepPending<T, R>(s: State<T, R>, a: Action<T, R>)
    requires Enabled(s, a) && HoldersFit(s.workers, s.fates) && PendingResults(s.workers, s.returned)
    ensures PendingResults(Step(s, a).workers, Step(s, a).returned)
  {
    hide HoldersFit, PendingResults;
    if a.Return? {
      PendingReturns(s.workers, s.fates, s.returned, a.w, a.result);
    } else if Moves(a) {
      PendingMoves(s.workers, s.returned, a.w, Step(s, a).workers[a.w]);
    }
  }

  lemma StepEnding<T, R>(s: State<T, R>, a: Action<T, R>)
    requires Enabled(s, a) && HoldersFit(s.workers, s.fates) && EndingFits(s)
    ensures EndingFits(Step(s, a))
  {
  }

  lemma StepKeepsInv<T, R>(s: State<T, R>, a: Action<T, R>)
    requires Inv(s) && Enabled(s, a)
    ensures Inv(Step(s, a))
  {
    hide GateFits, HoldersFit, ResultsFit, PendingResults, EndingFits, Step;
    StepGate(s, a);
    StepHolders(s, a);
    StepResults(s, a);
    StepPending(s, a);
    StepEnding(s, a);
  }

  lemma {:induction false} RunKeepsInv<T, R>(states: seq<State<T, R>>, actions: seq<Action<T, R>>, n: nat)
    requires IsRun(states, actions) && n < |states|
    ensures Inv(states[n])
  {
    if n > 0 {
      RunKeepsInv(states, actions, n - 1);
      assert Enabled(states[n - 1], actions[n - 1]);
      StepKeepsInv(states[n - 1], actions[n - 1]);
    }
  }

  // ----- what holds in every interleaving -----

  /** Inputs received and neither delivered nor dropped yet. */
  function InFlight(fates: seq<Fate>, workers: nat): set<nat> {
    set i | 0 <= i < |fates| && fates[i].HeldBy? && fates[i].worker < workers
  }

  lemma {:induction false} HeldAtMost<R>(workers: seq<Worker<R>>, fates: seq<Fate>, n: nat)
    requires HoldersFit(workers, fates) && n <= |workers|
    ensures |InFlight(fates, n)| <= n
  {
    if n == 0 {
      assert InFlight(fates, 0) == {};
    } else {
      HeldAtMost(workers, fates, n - 1);
      var w := n - 1;
      var own := if Holds(workers[w]) then {workers[w].slot} else {};
      assert InFlight(fates, n) <= InFlight(fates, n - 1) + own;
      CardinalityBound(InFlight(fates, n), InFlight(fates, n - 1) + own);
    }
  }

  lemma {:induction false} CardinalityBound(a: set<nat>, b: set<nat>)
    requires a <= b
    ensures |a| <= |b|
  {
    assert b == a + (b - a);
  }

  /**
   The value a callback is given and the index of its result are those of one input: the i-th value
   received carries index i. At most limit inputs are in flight, and no result is sent once the result
   channel is closed.
   */
  lemma StreamSafety<T, R>(states: seq<State<T, R>>, actions: seq<Action<T, R>>, n: nat)
    requires IsRun(states, actions) && n < |states|
    ensures var s := states[n];
            && (forall w :: 0 <= w < |s.workers| && Holds(s.workers[w]) && !s.workers[w].Got? ==>
                  s.workers[w].index == s.workers[w].slot < |s.received|)
            && |InFlight(s.fates, |s.workers|)| <= |s.workers|
            && !s.fault
  {
    RunKeepsInv(states, actions, n);
    HeldAtMost(states[n].workers, states[n].fates, |states[n].workers|);
  }

  /** No input is delivered twice, and every result carries the value its own input's callback returned. */
  lemma ResultsAreOwn<T, R>(states: seq<State<T, R>>, actions: seq<Action<T, R>>, n: nat, k: nat)
    requires IsRun(states, actions) && n < |states| && k < |states[n].results|
    ensures var s := states[n];
            && s.results[k].index < |s.received|
            && (forall l :: 0 <= l < |s.results| && l != k ==> s.results[l].index != s.results[k].index)
            && s.results[k].index in s.returned && s.results[k].value == s.returned[s.results[k].index]
  {
    RunKeepsInv(states, actions, n);
  }

  /** Every worker that holds an input has its value in hand. */
  ghost predicate HandsFit<T, R>(workers: seq<Worker<R>>, received: seq<T>, inHand: map<nat, T>) {
    forall w :: 0 <= w < |workers| && Holds(workers[w]) ==>
      workers[w].slot < |received| && w in inHand && inHand[w] == received[workers[w].slot]
  }

  /** Callbacks were given the values of their own inputs, and only those called can return. */
  ghost predicate CallsFit<T, R>(workers: seq<Worker<R>>, received: seq<T>, called: map<nat, T>,
      returned: map<nat, R>)
  {
    && (forall w :: 0 <= w < |workers| && (workers[w].Calling? || workers[w].Delivering?) ==> workers[w].slot in called)
    && (forall i :: i in called ==> i < |received| && called[i] == received[i])
    && (forall i :: i in returned ==> i in called)
  }

  lemma StepHands<T, R>(s: State<T, R>, a: Action<T, R>)
    requires Enabled(s, a) && HandsFit(s.workers, s.received, s.inHand)
    ensures HandsFit(Step(s, a).workers, Step(s, a).received, Step(s, a).inHand)
  {
    hide HandsFit, GateAfter, FatesAfter, CalledAfter, ReturnedAfter, ResultsAfter, CanceledAfter, CloserAfter;
    if a.ReceiveInput? {
      HandReceives(s.workers, s.received, s.inHand, a.w, a.value);
    } else if Moves(a) {
      HandMoves(s.workers, s.received, s.inHand, a.w, Step(s, a).workers[a.w]);
    }
  }

  lemma HandReceives<T, R>(workers: seq<Worker<R>>, received: seq<T>, inHand: map<nat, T>, w: nat, value: T)
    requires HandsFit(workers, received, inHand) && w < |workers|
    ensures HandsFit(workers[w := Got(|received|)], received + [value], inHand[w := value])
  {
  }

  lemma HandMoves<T, R>(workers: seq<Worker<R>>, received: seq<T>, inHand: map<nat, T>, w: nat, to: Worker<R>)
    requires HandsFit(workers, received, inHand) && w < |workers|
    requires Holds(to) ==> Holds(workers[w]) && to.slot == workers[w].slot
    ensures HandsFit(workers[w := to], received, inHand)
  {
  }

  lemma StepCalls<T, R>(s: State<T, R>, a: Action<T, R>)
    requires Enabled(s, a) && HandsFit(s.workers, s.received, s.inHand)
    requires CallsFit(s.workers, s.received, s.called, s.returned)
    ensures CallsFit(Step(s, a).workers, Step(s, a).received, Step(s, a).called, Step(s, a).returned)
  {
    assert a.Begin? ==> a.w in s.inHand && s.workers[a.w].slot < |s.received|
                        && s.inHand[a.w] == s.received[s.workers[a.w].slot];
    hide HandsFit, CallsFit, GateAfter, FatesAfter, ResultsAfter, CanceledAfter, CloserAfter;
    if a.Begin? && s.canceled.None? {
      CallBegins(s.workers, s.received, s.called, s.returned, a.w);
    } else if a.Return? {
      CallReturns(s.workers, s.received, s.called, s.returned, a.w, a.result);
    } else if a.ReceiveInput? {
      CallsAfterInput(s.workers, s.received, s.called, s.returned, a.w, a.value);
    } else if Moves(a) {
      CallsMove(s.workers, s.received, s.called, s.returned, a.w, Step(s, a).workers[a.w]);
    }
  }

  lemma CallBegins<T, R>(workers: seq<Worker<R>>, received: seq<T>, called: map<nat, T>, returned: map<nat, R>, w: nat)
    requires CallsFit(workers, received, called, returned) && w < |workers| && workers[w].Fetched?
    requires workers[w].slot < |received|
    ensures var slot := workers[w].slot;
            CallsFit(workers[w := Calling(slot, workers[w].index)], received, called[slot := received[slot]], returned)
  {
  }

  lemma CallReturns<T, R>(workers: seq<Worker<R>>, received: seq<T>, called: map<nat, T>, returned: map<nat, R>,
      w: nat, result: R)
    requires CallsFit(workers, received, called, returned) && w < |workers| && workers[w].Calling?
    ensures var slot := workers[w].slot;
            var to := Delivering(slot, workers[w].index, result);
            CallsFit(workers[w := to], received, called, returned[slot := result])
  {
  }

  lemma CallsAfterInput<T, R>(workers: seq<Worker<R>>, received: seq<T>, called: map<nat, T>, returned: map<nat, R>,
      w: nat, value: T)
    requires CallsFit(workers, received, called, returned) && w < |workers|
    ensures CallsFit(workers[w := Got(|received|)], received + [value], called, returned)
  {
  }

  lemma CallsMove<T, R>(workers: seq<Worker<R>>, received: seq<T>, called: map<nat, T>, returned: map<nat, R>,
      w: nat, to: Worker<R>)
    requires CallsFit(workers, received, called, returned) && w < |workers| && !to.Calling? && !to.Delivering?
    ensures CallsFit(workers[w := to], received, called, returned)
  {
  }

  /** The values taken from the input channel in the first n steps, in order. */
  ghost function Taken<T, R>(actions: seq<Action<T, R>>, n: nat): seq<T>
    requires n <= |actions|
  {
    if n == 0 then []
    else Taken(actions, n - 1) + (if actions[n - 1].ReceiveInput? then [actions[n - 1].value] else [])
  }

  /**
   The inputs on record are the values taken from the channel, in order, and every callback was given the
   value of the input whose index its result carries. No callback returns that was not called.
   */
  lemma {:induction false} CallbacksGetTheirInputs<T, R>(states: seq<State<T, R>>, actions: seq<Action<T, R>>, n: nat)
    requires IsRun(states, actions) && n < |states|
    ensures states[n].received == Taken(actions, n) && HandsFit(states[n].workers, states[n].received, states[n].inHand)
    ensures CallsFit(states[n].workers, states[n].received, states[n].called, states[n].returned)
  {
    if n > 0 {
      hide HandsFit, CallsFit;
      CallbacksGetTheirInputs(states, actions, n - 1);
      var s, a := states[n - 1], actions[n - 1];
      assert Enabled(s, a) && states[n] == Step(s, a);
      StepHands(s, a);
      StepCalls(s, a);
      StepReceives(s, a);
      hide Step;
    }
  }

  lemma StepReceives<T, R>(s: State<T, R>, a: Action<T, R>)
    requires Enabled(s, a)
    ensures Step(s, a).received == s.received + (if a.ReceiveInput? then [a.value] else [])
  {
  }

  /** Inputs are lost only to cancellation. */
  lemma OnlyCancellationDrops<T, R>(states: seq<State<T, R>>, actions: seq<Action<T, R>>, n: nat, i: nat)
    requires IsRun(states, actions) && n < |states| && i < |states[n].received| && states[n].canceled.None?
    ensures i < |states[n].fates|
    ensures if Has(states[n].results, i) then states[n].fates[i] == Delivered else states[n].fates[i].HeldBy?
  {
    RunKeepsInv(states, actions, n);
  }

  /** A nil terminal error means every received input was delivered, exactly once, with its own index and result. */
  lemma NilMeansAllDelivered<T, R>(states: seq<State<T, R>>, actions: seq<Action<T, R>>, n: nat, i: nat)
    requires IsRun(states, actions) && n < |states| && i < |states[n].received|
    requires !states[n].closer.WaitingForWorkers? && states[n].err.None?
    ensures var s := states[n];
            && i in s.returned
            && (exists k :: 0 <= k < |s.results| && s.results[k] == Result(i, s.returned[i]))
            && (forall k, l :: 0 <= k < l < |s.results| ==> s.results[k].index != s.results[l].index)
  {
    RunKeepsInv(states, actions, n);
    var s := states[n];
    assert s.fates[i] == Delivered;
    var k :| 0 <= k < |s.results| && s.results[k].index == i;
    assert s.results[k] == Result(i, s.returned[i]);
  }

  ghost predicate CanceledWith<T, R>(actions: seq<Action<T, R>>, n: nat, cause: string) {
    exists k :: 0 <= k < n && k < |actions| && actions[k] == Cancel(cause)
  }

  /** A terminal error is the cause the stream was canceled with before its workers had all returned. */
  lemma {:induction false} TerminalErrorIsCause<T, R>(states: seq<State<T, R>>, actions: seq<Action<T, R>>, n: nat)
    requires IsRun(states, actions) && n < |states|
    ensures var s := states[n];
            && (s.err.Some? ==> s.canceled == s.err && CanceledWith(actions, n, s.err.value))
            && (s.closer.WaitingForWorkers? ==> s.err.None?)
            && (s.closer.WaitingForWorkers? && s.canceled.Some? ==> CanceledWith(actions, n, s.canceled.value))
  {
    hide WorkersAfter, GateAfter, FatesAfter, CalledAfter, ReturnedAfter, ResultsAfter;
    if n > 0 {
      TerminalErrorIsCause(states, actions, n - 1);
      assert Enabled(states[n - 1], actions[n - 1]) && states[n] == Step(states[n - 1], actions[n - 1]);
      if states[n].canceled.Some? && states[n - 1].canceled.None? && actions[n - 1].Cancel? {
        assert actions[n - 1] == Cancel(states[n].canceled.value);
      }
    }
  }

  lemma StepStays<T, R>(s: State<T, R>, a: Action<T, R>, w: nat)
    requires Enabled(s, a) && w < |s.workers|
    ensures w < |Step(s, a).workers|
    ensures Step(s, a).workers[w].Exited? ==> s.workers[w].Exited? || s.inputClosed || s.canceled.Some?
    ensures s.inputClosed ==> Step(s, a).inputClosed
    ensures s.canceled.Some? ==> Step(s, a).canceled.Some?
  {
    hide GateAfter, FatesAfter, CalledAfter, ReturnedAfter, ResultsAfter, CloserAfter;
  }

  /** A worker returns only once the input is closed or the stream is canceled. */
  lemma {:induction false} WorkersStay<T, R>(states: seq<State<T, R>>, actions: seq<Action<T, R>>, n: nat, w: nat)
    requires IsRun(states, actions) && n < |states| && w < |states[0].workers|
    ensures w < |states[n].workers|
    ensures states[n].workers[w].Exited? ==> states[n].inputClosed || states[n].canceled.Some?
  {
    hide Step, Enabled;
    if n > 0 {
      WorkersStay(states, actions, n - 1, w);
      assert Enabled(states[n - 1], actions[n - 1]) && states[n] == Step(states[n - 1], actions[n - 1]);
      StepStays(states[n - 1], actions[n - 1], w);
    }
  }

  // ----- Close terminates -----

  function Rank<R>(worker: Worker<R>): nat {
    match worker
    case Calling(_, _) => 7
    case Delivering(_, _, _) => 6
    case AtReceive => 5
    case AtGate => 4
    case InGate => 4
    case Got(_) => 3
    case Fetched(_, _) => 2
    case Exited => 0
  }

  function Ranks<R>(workers: seq<Worker<R>>): nat {
    if workers == [] then 0 else Rank(workers[0]) + Ranks(workers[1..])
  }

  lemma {:induction false} RanksUpdate<R>(workers: seq<Worker<R>>, w: nat, to: Worker<R>)
    requires w < |workers|
    ensures Ranks(workers[w := to]) == Ranks(workers) - Rank(workers[w]) + Rank(to)
  {
    if w == 0 {
      assert workers[w := to][1..] == workers[1..];
    } else {
      assert workers[w := to][1..] == workers[1..][w - 1 := to];
      RanksUpdate(workers[1..], w - 1, to);
    }
  }

  function Remaining<T, R>(s: State<T, R>): nat {
    Ranks(s.workers)
    + (match s.closer case WaitingForWorkers => 3 case ErrSet => 2 case ResultsClosed => 1 case DoneClosed => 0)
    + (if s.inputClosed then 0 else 1)
  }

  /** Once the stream is canceled, every step brings it strictly closer to its end ... */
  lemma CancellationProgresses<T, R>(s: State<T, R>, a: Action<T, R>)
    requires Enabled(s, a) && s.canceled.Some?
    ensures Step(s, a).canceled.Some? && Remaining(Step(s, a)) < Remaining(s)
  {
    hide WorkerAfter, Rank, Ranks, GateAfter, FatesAfter, CalledAfter, ReturnedAfter, ResultsAfter;
    if Moves(a) {
      RankFalls(s, a);
      RanksUpdate(s.workers, a.w, WorkerAfter(s, a));
    }
  }

  lemma RankFalls<T, R>(s: State<T, R>, a: Action<T, R>)
    requires Enabled(s, a) && s.canceled.Some? && Moves(a)
    ensures Rank(WorkerAfter(s, a)) < Rank(s.workers[a.w])
  {
  }

  /** A step of the stream itself, not of its producer or its consumer's caller. */
  predicate Internal<T, R>(a: Action<T, R>) {
    !a.Cancel? && !a.CloseInput? && !a.Deliver? && !a.ReceiveInput?
  }

  ghost predicate CanStep<T(!new), R(!new)>(s: State<T, R>) {
    exists a: Action<T, R> :: Internal(a) && Enabled(s, a)
  }

  /**
   ... and until the done channel is closed some step of the stream itself is possible, with no help from
   the producer or the consumer: Close always ends once running callbacks return.
   */
  lemma CanceledNeverStuck<T(!new), R(!new)>(states: seq<State<T, R>>, actions: seq<Action<T, R>>, n: nat, r: R)
    requires IsRun(states, actions) && n < |states| && states[n].canceled.Some?
    ensures CanStep(states[n]) <==> !states[n].closer.DoneClosed?
  {
    RunKeepsInv(states, actions, n);
    var s := states[n];
    if w :| 0 <= w < |s.workers| && !s.workers[w].Exited? {
      var a: Action<T, R> :=
        match s.workers[w]
        case AtReceive => AbandonGate(w)
        case AtGate => CheckContext(w)
        case InGate => ReceiveCanceled(w)
        case Got(_) => AssignIndex(w)
        case Fetched(_, _) => Begin(w)
        case Calling(_, _) => Return(w, r)
        case Delivering(_, _, _) => AbandonResult(w)
        case Exited => SetErr;
      assert Internal(a) && Enabled(s, a);
    } else {
      var a: Action<T, R> :=
        match s.closer
        case WaitingForWorkers => SetErr
        case ErrSet => CloseResults
        case _ => CloseDone;
      assert s.closer.DoneClosed? || (Internal(a) && Enabled(s, a));
    }
  }
}
