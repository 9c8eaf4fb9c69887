/**
 Every interleaving of triggers, flushes, closure, cancellation and the worker goroutine. A mutex
 section is one step; between sections the worker and the flush callers carry only the locals they
 have in Go. Time advances by steps of its own.
 */
module DebounceRuns {
  import opened Options
  import opened DebounceSections

  /** Where the worker goroutine stands. at is when next answered, lag the time from then to arming the timer. */
  datatype Worker =
    | AtNext                                  // about to call next
    | Chosen(inv: nat)                        // next returned inv; the handler has not been called yet
    | Handling(inv: nat)                      // the handler, then the error callback, is running
    | ToPark(due: Option<int>, delay: int, at: int)     // next returned nothing; the timer is not armed yet
    | Parked(due: Option<int>, fireAt: int, lag: int)   // in the select, timer armed if due is present
    | AtStop                                  // woken by the processing context
    | Leaving                                 // run has returned; stop is still to be called
    | Gone(done: bool)                        // stop was called; done is the debouncer's done channel

  datatype FlushResult = Idle | Of(inv: nat) | Closed | Canceled

  /** mark is the number of triggers accepted when Flush was called. */
  datatype Flush =
    | Selecting(mark: nat)
    | Waiting(mark: nat, inv: nat, retry: bool)
    | Returned(mark: nat, result: FlushResult)

  /** A handler call: the invocation, the value the handler read, and when. */
  datatype Call = Call(inv: nat, value: Value, at: int)

  /** returned records what the handler returned for each invocation. */
  datatype State = State(
    delay: int,
    d: Shared,
    now: int,
    worker: Worker,
    calls: seq<Call>,
    flushes: map<nat, Flush>,
    returned: map<nat, Option<string>>)

  datatype Action =
    | Advance(to: int)
    | TriggerBy(value: Value)
    | CancelContext
    | StopBy                       // Close, or the cancellation callback
    | FlushCalled(id: nat)
    | FlushSelects(id: nat)
    | FlushWakes(id: nat)
    | FlushGivesUp(id: nat)
    | WorkerNext
    | WorkerCalls
    | WorkerFinishes(err: Option<string>)
    | WorkerParks
    | WorkerTakesToken
    | WorkerTimerFires
    | WorkerSeesContext
    | WorkerStops
    | WorkerClosesDone

  function Init(delay: int, now: int): State {
    State(delay, NEW, now, AtNext, [], map[], map[])
  }

  predicate Enabled(s: State, a: Action) {
    && SlotsExist(s.d.core)
    && match a
       case Advance(to) => s.now <= to
       case FlushCalled(id) => id !in s.flushes
       case FlushSelects(id) => id in s.flushes && s.flushes[id].Selecting?
       case FlushWakes(id) =>
         && id in s.flushes && s.flushes[id].Waiting? && s.flushes[id].inv < |s.d.core.invs|
         && s.d.core.invs[s.flushes[id].inv].closes > 0
       case FlushGivesUp(id) => id in s.flushes && !s.flushes[id].Returned?
       case WorkerNext => s.worker.AtNext?
       case WorkerCalls => s.worker.Chosen? && s.worker.inv < |s.d.core.invs|
       case WorkerFinishes(_) => s.worker.Handling?
       case WorkerParks => s.worker.ToPark?
       case WorkerTakesToken => s.worker.Parked? && s.d.wake
       case WorkerTimerFires => s.worker.Parked? && s.worker.due.Some? && s.worker.fireAt <= s.now
       case WorkerSeesContext => s.worker.Parked? && s.d.canceled
       case WorkerStops => s.worker.AtStop? || s.worker.Leaving?
       case WorkerClosesDone => s.worker == Gone(false)
       case _ => true
  }

  function WorkerAfterNext(next: Next, now: int): Worker {
    match next
    case Exit => Leaving
    case Run(inv) => Chosen(inv)
    case Wait(due, delay) => ToPark(due, delay, now)
  }

  function FlushAfterSelect(mark: nat, selection: Selection): Flush {
    match selection
    case SelectedClosed => Returned(mark, Closed)
    case SelectedIdle => Returned(mark, Idle)
    case Selected(inv, retry) => Waiting(mark, inv, retry)
  }

  function Step(s: State, a: Action): State
    requires Enabled(s, a)
  {
    match a
    case Advance(to) => s.(now := to)
    case TriggerBy(value) => s.(d := Trigger(s.d, s.delay, value, s.now))
    case CancelContext => s.(d := s.d.(canceled := true))
    case StopBy => s.(d := Stop(s.d))
    case FlushCalled(id) => s.(flushes := s.flushes[id := Selecting(|s.d.core.accepted|)])
    case FlushSelects(id) =>
      s.(d := Freeze(s.d), flushes := s.flushes[id := FlushAfterSelect(s.flushes[id].mark, Select(s.d))])
    case FlushWakes(id) =>
      var f := s.flushes[id];
      s.(flushes := s.flushes[id := if f.retry then Selecting(f.mark) else Returned(f.mark, Of(f.inv))])
    case FlushGivesUp(id) => s.(flushes := s.flushes[id := Returned(s.flushes[id].mark, Canceled)])
    case WorkerNext => s.(d := TakeNext(s.d, s.now), worker := WorkerAfterNext(NextResult(s.d, s.now), s.now))
    case WorkerCalls =>
      var inv := s.worker.inv;
      s.(worker := Handling(inv), calls := s.calls + [Call(inv, s.d.core.invs[inv].value, s.now)])
    case WorkerFinishes(err) =>
      s.(d := s.d.(core := Finish(s.d.core, err)), worker := AtNext, returned := s.returned[s.worker.inv := err])
    case WorkerParks => s.(worker := Parked(s.worker.due, s.now + s.worker.delay, s.now - s.worker.at))
    case WorkerTakesToken => s.(d := s.d.(wake := false), worker := AtNext)
    case WorkerTimerFires => s.(worker := AtNext)
    case WorkerSeesContext => s.(worker := AtStop)
    case WorkerStops => s.(d := Stop(s.d), worker := if s.worker.AtStop? then AtNext else Gone(false))
    case WorkerClosesDone => s.(worker := Gone(true))
  }

  ghost predicate IsRun(states: seq<State>, actions: seq<Action>) {
    && |states| == |actions| + 1
    && states[0] == Init(states[0].delay, states[0].now)
    && forall i :: 0 <= i < |actions| ==> Enabled(states[i], actions[i]) && states[i + 1] == Step(states[i], actions[i])
  }

  // ----- the invariant -----

  function One(slot: Option<nat>): nat {
    if slot.Some? then 1 else 0
  }

  predicate Undone(inv: Invocation) {
    inv.outcome == Open && inv.closes == 0
  }

  predicate Done(inv: Invocation) {
    inv.outcome.Handled? && inv.closes == 1
  }

  predicate Dropped(inv: Invocation) {
    inv.outcome == Discarded && inv.closes == 1
  }

  /**
   The first h invocations are handled; the rest occupy the running, the frozen and the pending slot in
   that order, or were discarded by closure.
   */
  ghost predicate Lined(c: Core, h: nat) {
    var r := h + One(c.running);
    var q := r + One(c.ready);
    && r <= |c.invs|
    && (forall i :: 0 <= i < h ==> Done(c.invs[i]))
    && (c.running.Some? ==> c.running.value == h && Undone(c.invs[h]))
    && (c.ready.Some? ==> c.ready.value == r < |c.invs| && c.invs[r].frozen)
    && (c.pending.Some? ==> c.pending.value == q < |c.invs| && !c.invs[q].frozen)
    && (c.closed ==> c.ready.None? && c.pending.None? && forall i :: r <= i < |c.invs| ==> Dropped(c.invs[i]))
    && (!c.closed ==> |c.invs| == q + One(c.pending) && forall i :: r <= i < |c.invs| ==> Undone(c.invs[i]))
  }

  /** Every invocation ends in its latest trigger, and every trigger precedes the latest of its invocation. */
  ghost predicate Runs(invs: seq<Invocation>, accepted: seq<Accepted>) {
    && (forall i :: 0 <= i < |invs| ==> invs[i].latest < |accepted| && accepted[invs[i].latest].inv == i)
    && (forall j :: 0 <= j < |accepted| ==> accepted[j].inv < |invs| && j <= invs[accepted[j].inv].latest)
  }

  /** Triggers went into invocations in order, so each invocation stands for a consecutive run of triggers. */
  ghost predicate InOrder(accepted: seq<Accepted>) {
    forall j, k :: 0 <= j <= k < |accepted| ==> accepted[j].inv <= accepted[k].inv
  }

  /** An unfinished invocation holds the value of its latest trigger, due a full delay after it. */
  ghost predicate Latest(invs: seq<Invocation>, accepted: seq<Accepted>, delay: int) {
    forall i :: 0 <= i < |invs| && Undone(invs[i]) && invs[i].latest < |accepted| ==>
      && invs[i].value == accepted[invs[i].latest].value
      && invs[i].due == accepted[invs[i].latest].at + delay
  }

  function HandledCount(calls: seq<Call>, worker: Worker): int {
    |calls| - (if worker.Handling? then 1 else 0)
  }

  /** The worker and the running slot agree. */
  ghost predicate WorkerFits(running: Option<nat>, closed: bool, worker: Worker) {
    && (worker.Chosen? || worker.Handling? ==> running == Some(worker.inv))
    && (running.Some? ==> worker.Chosen? || worker.Handling?)
    && (worker.Gone? ==> closed)
  }

  /** What the worker has chosen was frozen by a flush or is due. */
  ghost predicate ChoiceDue(invs: seq<Invocation>, worker: Worker, now: int) {
    worker.Chosen? && worker.inv < |invs| && !invs[worker.inv].frozen ==> invs[worker.inv].due <= now
  }

  /** The k-th handler call is for the k-th invocation, with the last value of its run, and not early. */
  ghost predicate CallsFit(invs: seq<Invocation>, accepted: seq<Accepted>, delay: int, calls: seq<Call>) {
    && |calls| <= |invs|
    && forall k :: 0 <= k < |calls| ==>
         && calls[k].inv == k && invs[k].latest < |accepted|
         && calls[k].value == accepted[invs[k].latest].value
         && (!invs[k].frozen ==> accepted[invs[k].latest].at + delay <= calls[k].at)
  }

  function PendingDue(c: Core): Option<int> {
    if c.pending.Some? && c.pending.value < |c.invs| then Some(c.invs[c.pending.value].due) else None
  }

  predicate Parking(worker: Worker) {
    worker.ToPark? || worker.Parked?
  }

  /** No wake-up can be lost: while the worker parks, whatever awaits it has a token or an armed timer. */
  ghost predicate Wakeable(c: Core, wake: bool, worker: Worker) {
    Parking(worker) ==>
      && (c.ready.Some? || c.closed ==> wake)
      && (c.pending.Some? ==> wake || worker.due == PendingDue(c))
  }

  /** The timer fires at the due time, late only by what the worker took from next to arming it. */
  ghost predicate TimerFits(worker: Worker, now: int) {
    && (worker.ToPark? ==> worker.at <= now && (worker.due.Some? ==> worker.due.value == worker.at + worker.delay))
    && (worker.Parked? ==> worker.lag >= 0 && (worker.due.Some? ==> worker.fireAt == worker.due.value + worker.lag))
  }

  /** Every trigger before mark went into an invocation that has been handled. */
  ghost predicate Settled(c: Core, mark: nat)
    requires mark <= |c.accepted|
  {
    forall j :: 0 <= j < mark ==> c.accepted[j].inv < |c.invs| && Done(c.invs[c.accepted[j].inv])
  }

  ghost predicate FlushFits(c: Core, f: Flush) {
    && f.mark <= |c.accepted|
    && (f.Waiting? ==>
          f.inv < |c.invs| && c.pending != Some(f.inv) && (!f.retry ==> f.mark <= c.invs[f.inv].latest + 1))
    && (f.Returned? && f.result.Of? ==>
          f.result.inv < |c.invs| && f.mark <= c.invs[f.result.inv].latest + 1 && c.pending != Some(f.result.inv)
          && c.invs[f.result.inv].closes > 0)
    && (f.Returned? && f.result.Idle? ==> Settled(c, f.mark))
  }

  ghost predicate FlushesFit(c: Core, flushes: map<nat, Flush>) {
    forall id :: id in flushes ==> FlushFits(c, flushes[id])
  }

  ghost predicate CoreInv(c: Core, delay: int, h: nat) {
    Lined(c, h) && Runs(c.invs, c.accepted) && InOrder(c.accepted) && Latest(c.invs, c.accepted, delay)
  }

  ghost predicate Inv(s: State) {
    && 0 <= Handled(s) && CoreInv(s.d.core, s.delay, Handled(s)) && WorkerInv(s)
    && CallsFit(s.d.core.invs, s.d.core.accepted, s.delay, s.calls) && FlushesFit(s.d.core, s.flushes)
  }

  lemma InitInv(delay: int, now: int)
    ensures Inv(Init(delay, now))
  {
    InitCore(delay);
    hide CoreInv;
  }

  lemma InitCore(delay: int)
    ensures CoreInv(NEW.core, delay, 0)
  {
  }

  // ----- each section, on the core alone -----

  /** What no section takes back: runs other than the pending one are fixed, and finished stays finished. */
  ghost predicate Extends(c: Core, e: Core) {
    && c.accepted <= e.accepted && |c.invs| <= |e.invs|
    && (forall i :: 0 <= i < |c.invs| ==>
          && (c.pending != Some(i) ==> Fixed(c.invs[i], e.invs[i]) && e.pending != Some(i))
          && (Done(c.invs[i]) ==> Done(e.invs[i])) && c.invs[i].closes <= e.invs[i].closes)
  }

  predicate Fixed(a: Invocation, b: Invocation) {
    a.latest == b.latest && a.frozen == b.frozen
  }

  lemma AcceptLined(c: Core, h: nat, value: Value, due: int, now: int)
    requires Lined(c, h) && !c.closed
    ensures Lined(Accept(c, value, due, now), h) && Extends(c, Accept(c, value, due, now))
  {
  }

  lemma AcceptRuns(c: Core, h: nat, value: Value, due: int, now: int)
    requires Lined(c, h) && !c.closed && Runs(c.invs, c.accepted)
    ensures var e := Accept(c, value, due, now);
            Runs(e.invs, e.accepted)
  {
  }

  lemma AcceptInOrder(c: Core, h: nat, value: Value, due: int, now: int)
    requires Lined(c, h) && !c.closed && Runs(c.invs, c.accepted) && InOrder(c.accepted)
    ensures InOrder(Accept(c, value, due, now).accepted)
  {
    var e := Accept(c, value, due, now);
    forall j, k | 0 <= j <= k < |e.accepted|
      ensures e.accepted[j].inv <= e.accepted[k].inv
    {
      assert j < |c.accepted| ==> c.accepted[j].inv < |c.invs|;
    }
  }

  lemma AcceptLatest(c: Core, h: nat, delay: int, value: Value, now: int)
    requires CoreInv(c, delay, h) && !c.closed
    ensures var e := Accept(c, value, now + delay, now);
            Latest(e.invs, e.accepted, delay)
  {
    var e := Accept(c, value, now + delay, now);
    forall i | 0 <= i < |e.invs| && Undone(e.invs[i]) && e.invs[i].latest < |e.accepted|
      ensures && e.invs[i].value == e.accepted[e.invs[i].latest].value
              && e.invs[i].due == e.accepted[e.invs[i].latest].at + delay
    {
      if e.pending != Some(i) {
        assert e.invs[i] == c.invs[i];
      }
    }
  }

  lemma CloseLined(c: Core, h: nat)
    requires Lined(c, h) && !c.closed
    ensures Lined(CloseCore(c), h) && Extends(c, CloseCore(c))
  {
  }

  lemma FreezeLined(c: Core, h: nat)
    requires Lined(c, h) && c.pending.Some? && c.ready.None?
    ensures Lined(FreezePending(c), h) && Extends(c, FreezePending(c))
  {
  }

  lemma PromoteLined(c: Core, h: nat)
    requires Lined(c, h) && c.running.None? && !c.closed
    ensures Lined(Promote(c), h) && Extends(c, Promote(c))
  {
  }

  lemma FinishLined(c: Core, h: nat, err: Option<string>)
    requires Lined(c, h) && c.running.Some?
    ensures Lined(Finish(c, err), h + 1) && Extends(c, Finish(c, err))
  {
  }

  /** Sections other than Trigger move slots and finish invocations; the runs stay as they are. */
  lemma RunsCarry(invs: seq<Invocation>, next: seq<Invocation>, accepted: seq<Accepted>, delay: int)
    requires Runs(invs, accepted) && Latest(invs, accepted, delay)
    requires |next| == |invs|
    requires forall i :: 0 <= i < |invs| ==>
      next[i].latest == invs[i].latest &&
      (Undone(next[i]) ==> Undone(invs[i]) && next[i].value == invs[i].value && next[i].due == invs[i].due)
    ensures Runs(next, accepted) && Latest(next, accepted, delay)
  {
  }

  lemma CloseRuns(c: Core, h: nat, delay: int)
    requires Lined(c, h) && !c.closed && Runs(c.invs, c.accepted) && Latest(c.invs, c.accepted, delay)
    ensures Runs(CloseCore(c).invs, c.accepted) && Latest(CloseCore(c).invs, c.accepted, delay)
  {
    hide Runs, Latest;
    RunsCarry(c.invs, CloseCore(c).invs, c.accepted, delay);
  }

  lemma FreezeRuns(c: Core, delay: int)
    requires SlotsExist(c) && c.pending.Some? && Runs(c.invs, c.accepted) && Latest(c.invs, c.accepted, delay)
    ensures Runs(FreezePending(c).invs, c.accepted) && Latest(FreezePending(c).invs, c.accepted, delay)
  {
    hide Runs, Latest;
    RunsCarry(c.invs, FreezePending(c).invs, c.accepted, delay);
  }

  lemma FinishRuns(c: Core, delay: int, err: Option<string>)
    requires SlotsExist(c) && Runs(c.invs, c.accepted) && Latest(c.invs, c.accepted, delay)
    ensures Runs(Finish(c, err).invs, c.accepted) && Latest(Finish(c, err).invs, c.accepted, delay)
  {
    hide Runs, Latest;
    RunsCarry(c.invs, Finish(c, err).invs, c.accepted, delay);
  }

  lemma ExtendsItself(c: Core)
    ensures Extends(c, c)
  {
  }

  lemma TriggerCore(d: Shared, delay: int, h: nat, value: Value, now: int)
    requires SlotsExist(d.core) && CoreInv(d.core, delay, h)
    ensures CoreInv(Trigger(d, delay, value, now).core, delay, h)
    ensures Extends(d.core, Trigger(d, delay, value, now).core)
  {
    hide Lined, Runs, InOrder, Latest, Extends, Accept;
    var c := d.core;
    ExtendsItself(c);
    if !Refuses(d) {
      AcceptLined(c, h, value, now + delay, now);
      AcceptRuns(c, h, value, now + delay, now);
      AcceptInOrder(c, h, value, now + delay, now);
      AcceptLatest(c, h, delay, value, now);
    }
  }

  lemma StopCore(d: Shared, delay: int, h: nat)
    requires SlotsExist(d.core) && CoreInv(d.core, delay, h)
    ensures CoreInv(Stop(d).core, delay, h) && Extends(d.core, Stop(d).core)
  {
    hide Lined, Runs, InOrder, Latest, Extends, Complete;
    ExtendsItself(d.core);
    if !d.core.closed {
      CloseLined(d.core, h);
      CloseRuns(d.core, h, delay);
    }
  }

  lemma FreezeCore(d: Shared, delay: int, h: nat)
    requires SlotsExist(d.core) && CoreInv(d.core, delay, h)
    ensures CoreInv(Freeze(d).core, delay, h) && Extends(d.core, Freeze(d).core)
  {
    hide Lined, Runs, InOrder, Latest, Extends;
    ExtendsItself(d.core);
    if Freezes(d) {
      FreezeLined(d.core, h);
      FreezeRuns(d.core, delay);
    }
  }

  lemma NextCore(d: Shared, delay: int, h: nat, now: int)
    requires SlotsExist(d.core) && CoreInv(d.core, delay, h) && d.core.running.None?
    ensures CoreInv(TakeNext(d, now).core, delay, h) && Extends(d.core, TakeNext(d, now).core)
  {
    hide Lined, Runs, InOrder, Latest, Extends;
    ExtendsItself(d.core);
    if NextResult(d, now).Run? {
      PromoteLined(d.core, h);
    }
  }

  lemma FinishCore(c: Core, delay: int, h: nat, err: Option<string>)
    requires SlotsExist(c) && CoreInv(c, delay, h) && c.running.Some?
    ensures CoreInv(Finish(c, err), delay, h + 1) && Extends(c, Finish(c, err))
  {
    hide Lined, Runs, InOrder, Latest, Extends, Complete;
    FinishLined(c, h, err);
    FinishRuns(c, delay, err);
  }

  // ----- what calls and flushes carry over a section -----

  lemma CallsCarry(c: Core, e: Core, delay: int, calls: seq<Call>)
    requires CallsFit(c.invs, c.accepted, delay, calls) && Extends(c, e)
    requires c.pending.Some? ==> |calls| <= c.pending.value
    ensures CallsFit(e.invs, e.accepted, delay, calls)
  {
    forall k | 0 <= k < |calls|
      ensures && calls[k].inv == k && e.invs[k].latest < |e.accepted|
              && calls[k].value == e.accepted[e.invs[k].latest].value
              && (!e.invs[k].frozen ==> e.accepted[e.invs[k].latest].at + delay <= calls[k].at)
    {
      assert Fixed(c.invs[k], e.invs[k]);
    }
  }

  lemma FlushCarries(c: Core, e: Core, f: Flush)
    requires Extends(c, e) && FlushFits(c, f)
    ensures FlushFits(e, f)
  {
  }

  lemma FlushesCarry(c: Core, e: Core, flushes: map<nat, Flush>)
    requires Extends(c, e) && FlushesFit(c, flushes)
    ensures FlushesFit(e, flushes)
  {
    forall id | id in flushes
      ensures FlushFits(e, flushes[id])
    {
      FlushCarries(c, e, flushes[id]);
    }
  }

  // ----- each step keeps the invariant -----

  /** The worker's part of the invariant. */
  ghost predicate WorkerInv(s: State) {
    && WorkerFits(s.d.core.running, s.d.core.closed, s.worker) && ChoiceDue(s.d.core.invs, s.worker, s.now)
    && Wakeable(s.d.core, s.d.wake, s.worker) && TimerFits(s.worker, s.now)
  }

  function Handled(s: State): int {
    HandledCount(s.calls, s.worker)
  }

  /** Handler calls are for invocations that have left the pending slot. */
  lemma CallsPrecedePending(s: State)
    requires 0 <= Handled(s) && Lined(s.d.core, Handled(s)) && WorkerInv(s)
    ensures s.d.core.pending.Some? ==> |s.calls| <= s.d.core.pending.value
  {
  }

  /** Calls and flushes survive any section that extends the core. */
  lemma SectionCarries(s: State, t: State)
    requires Inv(s)
    requires Extends(s.d.core, t.d.core) && t.calls == s.calls && t.delay == s.delay
    ensures CallsFit(t.d.core.invs, t.d.core.accepted, t.delay, t.calls)
    ensures FlushesFit(t.d.core, s.flushes)
  {
    CallsPrecedePending(s);
    CallsCarry(s.d.core, t.d.core, s.delay, s.calls);
    FlushesCarry(s.d.core, t.d.core, s.flushes);
  }

  lemma TriggerWorker(s: State, value: Value)
    requires Enabled(s, TriggerBy(value)) && 0 <= Handled(s) && CoreInv(s.d.core, s.delay, Handled(s)) && WorkerInv(s)
    ensures WorkerInv(Step(s, TriggerBy(value)))
  {
  }

  lemma StopWorker(s: State, a: Action)
    requires Enabled(s, a) && (a.StopBy? || a.WorkerStops?)
    requires 0 <= Handled(s) && CoreInv(s.d.core, s.delay, Handled(s)) && WorkerInv(s)
    ensures WorkerInv(Step(s, a))
  {
  }

  /** The last trigger went into the last invocation. */
  lemma LastTriggerInLast(invs: seq<Invocation>, accepted: seq<Accepted>)
    requires Runs(invs, accepted) && InOrder(accepted) && accepted != []
    ensures invs != [] && invs[|invs| - 1].latest == |accepted| - 1
  {
    var i := accepted[|accepted| - 1].inv;
    assert accepted[invs[|invs| - 1].latest].inv == |invs| - 1;
    assert i == |invs| - 1;
  }

  /** An idle debouncer has handled everything. */
  lemma IdleIsSettled(c: Core, h: nat, mark: nat)
    requires Lined(c, h) && Runs(c.invs, c.accepted) && mark <= |c.accepted|
    requires !c.closed && c.pending.None? && c.ready.None? && c.running.None?
    ensures Settled(c, mark)
  {
  }

  /** What a flush is told to wait for covers everything accepted so far, unless it must come back. */
  lemma SelectionFits(d: Shared, h: nat, mark: nat)
    requires Lined(d.core, h) && Runs(d.core.invs, d.core.accepted) && InOrder(d.core.accepted)
    requires SlotsExist(d.core) && mark <= |d.core.accepted|
    ensures FlushFits(Freeze(d).core, FlushAfterSelect(mark, Select(d)))
  {
    hide Runs, InOrder, Settled;
    if d.core.accepted != [] {
      LastTriggerInLast(d.core.invs, d.core.accepted);
    }
    if Select(d).SelectedIdle? {
      IdleIsSettled(d.core, h, mark);
    }
  }

  lemma SelectWorker(s: State, a: Action)
    requires Enabled(s, a) && a.FlushSelects?
    requires 0 <= Handled(s) && CoreInv(s.d.core, s.delay, Handled(s)) && WorkerInv(s)
    ensures WorkerInv(Step(s, a))
  {
  }

  lemma SelectFlushes(s: State, a: Action)
    requires Enabled(s, a) && a.FlushSelects? && Inv(s)
    requires FlushesFit(Step(s, a).d.core, s.flushes)
    ensures FlushesFit(Step(s, a).d.core, Step(s, a).flushes)
  {
    assert FlushFits(s.d.core, s.flushes[a.id]);
    hide Lined, Runs, InOrder, Latest, CallsFit, WorkerInv, FlushFits;
    SelectionFits(s.d, Handled(s), s.flushes[a.id].mark);
  }

  lemma NextWorker(s: State)
    requires Enabled(s, WorkerNext) && 0 <= Handled(s) && CoreInv(s.d.core, s.delay, Handled(s)) && WorkerInv(s)
    ensures WorkerInv(Step(s, WorkerNext))
  {
    hide Runs, InOrder, Latest;
    NextFrozenOrDue(s.d, Handled(s), s.now);
    hide Lined;
  }

  /** What next selects was frozen by a flush, or is due. */
  lemma NextFrozenOrDue(d: Shared, h: nat, now: int)
    requires SlotsExist(d.core) && Lined(d.core, h)
    ensures var next := NextResult(d, now);
            next.Run? ==> next.inv < |d.core.invs| && (d.core.invs[next.inv].frozen || d.core.invs[next.inv].due <= now)
  {
  }

  lemma FinishWorker(s: State, err: Option<string>)
    requires Enabled(s, WorkerFinishes(err)) && WorkerInv(s)
    ensures WorkerInv(Step(s, WorkerFinishes(err)))
  {
  }

  lemma TriggerKeepsInv(s: State, value: Value)
    requires Inv(s) && Enabled(s, TriggerBy(value))
    ensures Inv(Step(s, TriggerBy(value)))
  {
    hide CoreInv, WorkerInv, CallsFit, FlushesFit, Extends, Trigger, Stop, Freeze, TakeNext, Finish, NextResult, Select;
    SlotFits(s);
    var t := Step(s, TriggerBy(value));
    TriggerCore(s.d, s.delay, Handled(s), value, s.now);
    TriggerWorker(s, value);
    SectionCarries(s, t);
  }

  lemma StopKeepsInv(s: State, a: Action)
    requires Inv(s) && Enabled(s, a) && (a.StopBy? || a.WorkerStops?)
    ensures Inv(Step(s, a))
  {
    hide CoreInv, WorkerInv, CallsFit, FlushesFit, Extends, Trigger, Stop, Freeze, TakeNext, Finish, NextResult, Select;
    SlotFits(s);
    var t := Step(s, a);
    StopCore(s.d, s.delay, Handled(s));
    StopWorker(s, a);
    SectionCarries(s, t);
  }

  lemma SelectKeepsInv(s: State, a: Action)
    requires Inv(s) && Enabled(s, a) && a.FlushSelects?
    ensures Inv(Step(s, a))
  {
    hide CoreInv, WorkerInv, CallsFit, FlushesFit, Extends, Trigger, Stop, Freeze, TakeNext, Finish, NextResult, Select;
    SlotFits(s);
    var t := Step(s, a);
    FreezeCore(s.d, s.delay, Handled(s));
    SelectWorker(s, a);
    SectionCarries(s, t);
    SelectFlushes(s, a);
  }

  lemma NextKeepsInv(s: State)
    requires Inv(s) && Enabled(s, WorkerNext)
    ensures Inv(Step(s, WorkerNext))
  {
    hide CoreInv, WorkerInv, CallsFit, FlushesFit, Extends, Trigger, Stop, Freeze, TakeNext, Finish, NextResult, Select;
    SlotFits(s);
    var t := Step(s, WorkerNext);
    NextCore(s.d, s.delay, Handled(s), s.now);
    NextWorker(s);
    SectionCarries(s, t);
  }

  lemma FinishKeepsInv(s: State, err: Option<string>)
    requires Inv(s) && Enabled(s, WorkerFinishes(err))
    ensures Inv(Step(s, WorkerFinishes(err)))
  {
    hide CoreInv, WorkerInv, CallsFit, FlushesFit, Extends, Trigger, Stop, Freeze, TakeNext, Finish, NextResult, Select;
    SlotFits(s);
    var t := Step(s, WorkerFinishes(err));
    FinishCore(s.d.core, s.delay, Handled(s), err);
    FinishWorker(s, err);
    SectionCarries(s, t);
  }

  lemma SlotFits(s: State)
    requires WorkerInv(s)
    ensures s.worker.AtNext? ==> s.d.core.running.None?
    ensures s.worker.Handling? ==> s.d.core.running.Some?
  {
  }

  lemma CallKeepsInv(s: State)
    requires Inv(s) && Enabled(s, WorkerCalls)
    ensures Inv(Step(s, WorkerCalls))
  {
  }

  lemma WorkerStepKeepsInv(s: State, a: Action)
    requires Inv(s) && Enabled(s, a)
    requires a.WorkerParks? || a.WorkerTakesToken? || a.WorkerTimerFires? || a.WorkerSeesContext? || a.WorkerClosesDone?
    ensures Inv(Step(s, a))
  {
    hide CoreInv, CallsFit;
  }

  lemma OutsideStepKeepsInv(s: State, a: Action)
    requires Inv(s) && Enabled(s, a)
    requires a.Advance? || a.CancelContext? || a.FlushCalled? || a.FlushWakes? || a.FlushGivesUp?
    ensures Inv(Step(s, a))
  {
    hide CoreInv, CallsFit;
  }

  lemma StepKeepsInv(s: State, a: Action)
    requires Inv(s) && Enabled(s, a)
    ensures Inv(Step(s, a))
  {
    hide Inv;
    match a
    case WorkerCalls => CallKeepsInv(s);
    case Advance(_) => OutsideStepKeepsInv(s, a);
    case CancelContext => OutsideStepKeepsInv(s, a);
    case FlushCalled(_) => OutsideStepKeepsInv(s, a);
    case FlushWakes(_) => OutsideStepKeepsInv(s, a);
    case FlushGivesUp(_) => OutsideStepKeepsInv(s, a);
    case WorkerParks => WorkerStepKeepsInv(s, a);
    case WorkerTakesToken => WorkerStepKeepsInv(s, a);
    case WorkerTimerFires => WorkerStepKeepsInv(s, a);
    case WorkerSeesContext => WorkerStepKeepsInv(s, a);
    case WorkerClosesDone => WorkerStepKeepsInv(s, a);
    case TriggerBy(value) => TriggerKeepsInv(s, value);
    case StopBy => StopKeepsInv(s, a);
    case WorkerStops => StopKeepsInv(s, a);
    case FlushSelects(_) => SelectKeepsInv(s, a);
    case WorkerNext => NextKeepsInv(s);
    case WorkerFinishes(err) => FinishKeepsInv(s, err);
  }

  lemma {:induction false} RunKeepsInv(states: seq<State>, actions: seq<Action>, n: nat)
    requires IsRun(states, actions) && n < |states|
    ensures Inv(states[n])
  {
    hide Inv, Init;
    if n == 0 {
      InitInv(states[0].delay, states[0].now);
    } else {
      RunKeepsInv(states, actions, n - 1);
      assert Enabled(states[n - 1], actions[n - 1]);
      StepKeepsInv(states[n - 1], actions[n - 1]);
    }
  }

  // ----- what holds in every interleaving -----

  /** Something awaits the worker. */
  predicate Awaited(c: Core) {
    c.ready.Some? || c.closed || c.pending.Some?
  }

  /**
   No lost wake-up: while the worker is about to park or parked, a frozen value or closure has a token in
   the wake channel, and a pending value has a token or the timer set for its current due time: it fires
   then, late only by the time the worker took from next to arming it. So a parked worker can always be
   woken: now, or by the clock reaching the armed timer.
   */
  lemma NoLostWakeup(states: seq<State>, actions: seq<Action>, n: nat)
    requires IsRun(states, actions) && n < |states| && Parking(states[n].worker)
    ensures var s := states[n];
            && (s.d.core.ready.Some? || s.d.core.closed ==> s.d.wake)
            && (s.d.core.pending.Some? ==>
                  s.d.wake || (s.worker.due == PendingDue(s.d.core) && s.worker.due.Some?))
            && (s.worker.Parked? && s.worker.due.Some? ==>
                  s.worker.lag >= 0 && s.worker.fireAt == s.worker.due.value + s.worker.lag)
            && (s.worker.Parked? && Awaited(s.d.core) ==>
                  Enabled(s, WorkerTakesToken)
                  || Enabled(s.(now := if s.now < s.worker.fireAt then s.worker.fireAt else s.now), WorkerTimerFires))
  {
    RunKeepsInv(states, actions, n);
  }

  /** The Trigger calls of the first n steps that found the debouncer open, with their values and times. */
  ghost function Submitted(states: seq<State>, actions: seq<Action>, n: nat): seq<(Value, int)>
    requires |states| == |actions| + 1 && n < |states|
  {
    if n == 0 then [] else
      var s, a := states[n - 1], actions[n - 1];
      Submitted(states, actions, n - 1)
      + (if a.TriggerBy? && !s.d.core.closed && !s.d.canceled then [(a.value, s.now)] else [])
  }

  function Recorded(accepted: seq<Accepted>): seq<(Value, int)> {
    seq(|accepted|, i requires 0 <= i < |accepted| => (accepted[i].value, accepted[i].at))
  }

  /**
   A Trigger that finds the debouncer open is recorded, in the invocation that is pending afterwards; one
   that finds it closed or canceled changes nothing. No other step records a trigger.
   */
  lemma StepRecords(s: State, a: Action)
    requires Enabled(s, a)
    ensures var t := Step(s, a);
            if a.TriggerBy? && !s.d.core.closed && !s.d.canceled then
              && t.d.core.pending.Some? && t.d.wake
              && t.d.core.accepted == s.d.core.accepted + [Accepted(a.value, s.now, t.d.core.pending.value)]
            else
              t.d.core.accepted == s.d.core.accepted && (a.TriggerBy? ==> t == s)
  {
  }

  /** The triggers on record are exactly the Trigger calls that found the debouncer open, in order. */
  lemma {:induction false} TriggersAreRecorded(states: seq<State>, actions: seq<Action>, n: nat)
    requires IsRun(states, actions) && n < |states|
    ensures Recorded(states[n].d.core.accepted) == Submitted(states, actions, n)
  {
    hide Step, Enabled;
    if n > 0 {
      TriggersAreRecorded(states, actions, n - 1);
      assert Enabled(states[n - 1], actions[n - 1]) && states[n] == Step(states[n - 1], actions[n - 1]);
      StepRecords(states[n - 1], actions[n - 1]);
    }
  }

  predicate Stops(a: Action) {
    a.StopBy? || a.WorkerStops?
  }

  /** Only Close and the worker's own stop close the debouncer, and only they and the context cancel it. */
  lemma {:induction false} OpenUntilStopped(states: seq<State>, actions: seq<Action>, n: nat)
    requires IsRun(states, actions) && n < |states|
    ensures states[n].d.core.closed <==> exists k :: 0 <= k < n && Stops(actions[k])
    ensures states[n].d.canceled <==> exists k :: 0 <= k < n && (Stops(actions[k]) || actions[k].CancelContext?)
  {
    hide Step, Enabled;
    if n > 0 {
      OpenUntilStopped(states, actions, n - 1);
      assert Enabled(states[n - 1], actions[n - 1]) && states[n] == Step(states[n - 1], actions[n - 1]);
      StepOpens(states[n - 1], actions[n - 1]);
    }
  }

  lemma StepOpens(s: State, a: Action)
    requires Enabled(s, a)
    ensures Step(s, a).d.core.closed <==> s.d.core.closed || Stops(a)
    ensures s.d.canceled || a.CancelContext? ==> Step(s, a).d.canceled
    ensures Step(s, a).d.canceled ==> s.d.canceled || Stops(a) || a.CancelContext?
    ensures Stops(a) && !s.d.core.closed ==> Step(s, a).d.canceled
  {
  }

  /** Triggers split into consecutive runs, one per invocation, each ending in that invocation's latest trigger. */
  lemma TriggersFormRuns(states: seq<State>, actions: seq<Action>, n: nat, j: nat, k: nat)
    requires IsRun(states, actions) && n < |states|
    requires j <= k < |states[n].d.core.accepted|
    ensures var c := states[n].d.core;
            && c.accepted[j].inv <= c.accepted[k].inv < |c.invs|
            && j <= c.invs[c.accepted[j].inv].latest < |c.accepted|
            && (c.accepted[j].inv < c.accepted[k].inv ==> c.invs[c.accepted[j].inv].latest < k)
  {
    RunKeepsInv(states, actions, n);
    var c := states[n].d.core;
    var latest := c.invs[c.accepted[j].inv].latest;
    assert c.accepted[latest].inv == c.accepted[j].inv;
    assert k <= latest ==> c.accepted[k].inv <= c.accepted[latest].inv;
  }

  /**
   The k-th handler call is for the k-th invocation and reads the last value of its run; unless a flush
   froze it, it comes no sooner than a full delay after the latest trigger of that run.
   */
  lemma HandlerCallsFollowRuns(states: seq<State>, actions: seq<Action>, n: nat, k: nat)
    requires IsRun(states, actions) && n < |states| && k < |states[n].calls|
    ensures var s := states[n];
            var c := s.d.core;
            && s.calls[k].inv == k < |c.invs| && c.invs[k].latest < |c.accepted|
            && c.accepted[c.invs[k].latest].inv == k
            && s.calls[k].value == c.accepted[c.invs[k].latest].value
            && (!c.invs[k].frozen ==> c.accepted[c.invs[k].latest].at + s.delay <= s.calls[k].at)
  {
    RunKeepsInv(states, actions, n);
  }

  /** j is the last trigger of run k. */
  ghost predicate EndsRun(accepted: seq<Accepted>, j: nat, k: nat) {
    && j < |accepted| && accepted[j].inv == k
    && forall i :: j < i < |accepted| ==> accepted[i].inv != k
  }

  /**
   In the callers' terms: the k-th handler call gets the value of the last Trigger call of the k-th run,
   and unless a flush froze that run it comes no sooner than a full delay after that call.
   */
  lemma HandlerGetsLastTrigger(states: seq<State>, actions: seq<Action>, n: nat, k: nat)
    requires IsRun(states, actions) && n < |states| && k < |states[n].calls|
    ensures exists j: nat :: EndsRun(states[n].d.core.accepted, j, k) && j < |Submitted(states, actions, n)|
              && states[n].calls[k].value == Submitted(states, actions, n)[j].0
              && (k < |states[n].d.core.invs| && !states[n].d.core.invs[k].frozen ==>
                    Submitted(states, actions, n)[j].1 + states[n].delay <= states[n].calls[k].at)
  {
    RunKeepsInv(states, actions, n);
    TriggersAreRecorded(states, actions, n);
    var c := states[n].d.core;
    var j := c.invs[k].latest;
    assert Recorded(c.accepted)[j] == (c.accepted[j].value, c.accepted[j].at);
    assert EndsRun(c.accepted, j, k);
  }

  /** The worker is prompt: asked for work, it takes what a flush froze, else a pending value that is due. */
  lemma NextIsPrompt(s: State)
    requires Enabled(s, WorkerNext)
    ensures var c, w := s.d.core, Step(s, WorkerNext).worker;
            && (c.closed || s.d.canceled ==> w == Leaving)
            && (!c.closed && !s.d.canceled && c.ready.Some? ==> w == Chosen(c.ready.value))
            && (!c.closed && !s.d.canceled && c.ready.None? && c.pending.Some? ==>
                  if c.invs[c.pending.value].due <= s.now then w == Chosen(c.pending.value) else w.ToPark?)
  {
  }

  /**
   No invocation is completed twice, and none is left open once the debouncer's done channel is closed.
   A discarded invocation never reached the handler; every other completed one did.
   */
  lemma CompletedExactlyOnce(states: seq<State>, actions: seq<Action>, n: nat, i: nat)
    requires IsRun(states, actions) && n < |states| && i < |states[n].d.core.invs|
    ensures var s := states[n];
            var inv := s.d.core.invs[i];
            && inv.closes <= 1 && (inv.closes == 1 <==> inv.outcome != Open)
            && (s.worker.Gone? ==> inv.closes == 1 && s.d.core.running.None?)
            && (inv.outcome.Discarded? ==> s.d.core.closed && |s.calls| <= i)
            && (inv.outcome.Handled? ==> i < |s.calls|)
  {
    RunKeepsInv(states, actions, n);
  }

  /** Only closure discards, and only what was pending or frozen at that moment. */
  lemma OnlyClosureDiscards(states: seq<State>, actions: seq<Action>, n: nat, i: nat)
    requires IsRun(states, actions) && n < |actions| && i < |states[n + 1].d.core.invs|
    requires states[n + 1].d.core.invs[i].outcome.Discarded?
    ensures var s, t := states[n], states[n + 1];
            || (i < |s.d.core.invs| && s.d.core.invs[i].outcome.Discarded?)
            || (!s.d.core.closed && t.d.core.closed && (s.d.core.pending == Some(i) || s.d.core.ready == Some(i)))
  {
    assert Enabled(states[n], actions[n]) && states[n + 1] == Step(states[n], actions[n]);
  }

  /** A flush that returned an invocation's result, or nil for an idle debouncer. */
  ghost predicate Served(s: State, f: Flush) {
    && f.Returned?
    && (f.result.Idle? ||
        (f.result.Of? && f.result.inv < |s.d.core.invs| && !s.d.core.invs[f.result.inv].outcome.Discarded?))
  }

  /** Trigger j was handled, or replaced by a later trigger m whose value was handled. */
  ghost predicate HandledOrReplaced(s: State, j: nat, m: nat, k: nat) {
    var c := s.d.core;
    && j <= m < |c.accepted| && c.accepted[m].inv == c.accepted[j].inv == k
    && k < |s.calls| && s.calls[k].inv == k && s.calls[k].value == c.accepted[m].value
    && k < |c.invs| && Done(c.invs[k])
  }

  lemma HandledPrefix(c: Core, h: nat, i: nat, k: nat)
    requires Lined(c, h) && k <= i < |c.invs| && c.invs[i].closes > 0 && !c.invs[i].outcome.Discarded?
    ensures i < h && Done(c.invs[k])
  {
  }

  /**
   What Flush guarantees, along its retry loop included: when it returns the outcome of an invocation
   that was not discarded, or nil because the debouncer was idle, every value accepted before the call
   has been handled or replaced by a later value that was handled.
   */
  lemma FlushGuarantee(states: seq<State>, actions: seq<Action>, n: nat, id: nat, j: nat)
    requires IsRun(states, actions) && n < |states| && id in states[n].flushes
    requires Served(states[n], states[n].flushes[id]) && j < states[n].flushes[id].mark
    ensures exists m, k :: HandledOrReplaced(states[n], j, m, k)
  {
    RunKeepsInv(states, actions, n);
    var s := states[n];
    var c, f := s.d.core, s.flushes[id];
    assert FlushFits(c, f);
    var k := c.accepted[j].inv;
    var m := c.invs[k].latest;
    assert c.accepted[m].inv == k;
    if f.result.Of? {
      var i := f.result.inv;
      assert c.accepted[c.invs[i].latest].inv == i;
      assert c.accepted[j].inv <= c.accepted[c.invs[i].latest].inv;
      HandledPrefix(c, Handled(s), i, k);
    }
    HandledWasCalled(c, Handled(s), k);
    assert HandledOrReplaced(s, j, m, k);
  }

  lemma HandledWasCalled(c: Core, h: nat, k: nat)
    requires Lined(c, h) && k < |c.invs| && Done(c.invs[k])
    ensures k < h
  {
  }

  ghost predicate OutcomesFit(invs: seq<Invocation>, returned: map<nat, Option<string>>) {
    forall i :: 0 <= i < |invs| && invs[i].outcome.Handled? ==> i in returned && invs[i].outcome.err == returned[i]
  }

  ghost predicate RefusalsFit(d: Shared, flushes: map<nat, Flush>) {
    forall id :: id in flushes && flushes[id].Returned? && flushes[id].result.Closed? ==> Refuses(d)
  }

  lemma StepOutcomes(s: State, a: Action)
    requires Enabled(s, a) && WorkerFits(s.d.core.running, s.d.core.closed, s.worker)
    requires OutcomesFit(s.d.core.invs, s.returned)
    ensures OutcomesFit(Step(s, a).d.core.invs, Step(s, a).returned)
  {
  }

  lemma StepRefusals(s: State, a: Action)
    requires Enabled(s, a) && RefusalsFit(s.d, s.flushes)
    ensures RefusalsFit(Step(s, a).d, Step(s, a).flushes)
  {
  }

  /** A completed invocation keeps no value. */
  ghost predicate Released(invs: seq<Invocation>) {
    forall i :: 0 <= i < |invs| && invs[i].outcome != Open ==> invs[i].value == ZERO
  }

  lemma StepReleases(s: State, a: Action, h: nat)
    requires Enabled(s, a) && Lined(s.d.core, h) && Released(s.d.core.invs)
    ensures Released(Step(s, a).d.core.invs)
  {
  }

  lemma {:induction false} CompletedKeepNoValue(states: seq<State>, actions: seq<Action>, n: nat)
    requires IsRun(states, actions) && n < |states|
    ensures Released(states[n].d.core.invs)
  {
    hide Step, Runs, InOrder, Latest, CallsFit, FlushesFit, WorkerInv, Lined;
    if n > 0 {
      CompletedKeepNoValue(states, actions, n - 1);
      RunKeepsInv(states, actions, n - 1);
      assert Enabled(states[n - 1], actions[n - 1]) && states[n] == Step(states[n - 1], actions[n - 1]);
      StepReleases(states[n - 1], actions[n - 1], Handled(states[n - 1]));
    }
  }

  /** What Flush is told by selectFlush: closed, nothing to wait for, or what to wait for. */
  lemma SelectAnswers(s: State, id: nat)
    requires Enabled(s, FlushSelects(id))
    ensures var c, f, mark := s.d.core, Step(s, FlushSelects(id)).flushes[id], s.flushes[id].mark;
            && (f == Returned(mark, Closed) <==> c.closed || s.d.canceled)
            && (f == Returned(mark, Idle) <==>
                  !c.closed && !s.d.canceled && c.ready.None? && c.pending.None? && c.running.None?)
            && (f.Returned? || f.Waiting?)
  {
  }

  /** A step that puts a token into the wake channel, if it is empty. */
  predicate Notifies(s: State, a: Action) {
    || (a.TriggerBy? && !s.d.core.closed && !s.d.canceled)
    || (a.FlushSelects? && !s.d.core.closed && !s.d.canceled && s.d.core.ready.None? && s.d.core.pending.Some?)
    || (Stops(a) && !s.d.core.closed)
  }

  ghost function Notified(states: seq<State>, actions: seq<Action>, n: nat): nat
    requires |states| == |actions| + 1 && n < |states|
  {
    if n == 0 then 0
    else Notified(states, actions, n - 1) + (if Notifies(states[n - 1], actions[n - 1]) then 1 else 0)
  }

  ghost function Woken(actions: seq<Action>, n: nat): nat
    requires n <= |actions|
  {
    if n == 0 then 0 else Woken(actions, n - 1) + (if actions[n - 1].WorkerTakesToken? then 1 else 0)
  }

  lemma StepToken(s: State, a: Action)
    requires Enabled(s, a)
    ensures Step(s, a).d.wake <==> if a.WorkerTakesToken? then false else s.d.wake || Notifies(s, a)
    ensures a.WorkerTakesToken? ==> s.d.wake && !Notifies(s, a)
  {
  }

  /** No idle spinning: the worker is woken by the channel no more often than it was notified. */
  lemma {:induction false} TokensAreSpent(states: seq<State>, actions: seq<Action>, n: nat)
    requires IsRun(states, actions) && n < |states|
    ensures Woken(actions, n) + (if states[n].d.wake then 1 else 0) <= Notified(states, actions, n)
  {
    hide Step, Enabled, Notifies;
    if n > 0 {
      TokensAreSpent(states, actions, n - 1);
      assert Enabled(states[n - 1], actions[n - 1]) && states[n] == Step(states[n - 1], actions[n - 1]);
      StepToken(states[n - 1], actions[n - 1]);
    }
  }

  lemma {:induction false} RunKeepsAnswers(states: seq<State>, actions: seq<Action>, n: nat)
    requires IsRun(states, actions) && n < |states|
    ensures OutcomesFit(states[n].d.core.invs, states[n].returned) && RefusalsFit(states[n].d, states[n].flushes)
  {
    hide Step, OutcomesFit, RefusalsFit, CoreInv, CallsFit, FlushesFit, Wakeable, TimerFits, ChoiceDue;
    if n == 0 {
      InitAnswers(states[0]);
    } else {
      RunKeepsAnswers(states, actions, n - 1);
      RunKeepsInv(states, actions, n - 1);
      assert Enabled(states[n - 1], actions[n - 1]) && states[n] == Step(states[n - 1], actions[n - 1]);
      StepOutcomes(states[n - 1], actions[n - 1]);
      StepRefusals(states[n - 1], actions[n - 1]);
    }
  }

  lemma InitAnswers(s: State)
    requires s == Init(s.delay, s.now)
    ensures OutcomesFit(s.d.core.invs, s.returned) && RefusalsFit(s.d, s.flushes)
  {
  }

  /**
   Flush tells the truth: the outcome it returns is what the handler returned for that invocation, unless
   closure discarded it, and it answers closed only when the debouncer is closed or canceled.
   */
  lemma FlushAnswers(states: seq<State>, actions: seq<Action>, n: nat, id: nat)
    requires IsRun(states, actions) && n < |states| && id in states[n].flushes && states[n].flushes[id].Returned?
    ensures var s, result := states[n], states[n].flushes[id].result;
            && (result.Closed? ==> Refuses(s.d))
            && (result.Of? ==>
                  && result.inv < |s.d.core.invs|
                  && var outcome := s.d.core.invs[result.inv].outcome;
                     || outcome == Outcome.Discarded
                     || (result.inv in s.returned && outcome == Outcome.Handled(s.returned[result.inv])))
  {
    RunKeepsAnswers(states, actions, n);
    RunKeepsInv(states, actions, n);
    hide CoreInv, WorkerInv, CallsFit;
    assert FlushFits(states[n].d.core, states[n].flushes[id]);
    if states[n].flushes[id].result.Of? {
      CompletedExactlyOnce(states, actions, n, states[n].flushes[id].result.inv);
    }
  }

  /** The mark of a flush is the number of triggers accepted before it was called, and never moves. */
  lemma FlushMarkIsCallTime(s: State, a: Action, id: nat)
    requires Enabled(s, a)
    ensures id !in s.flushes && id in Step(s, a).flushes ==>
              a == FlushCalled(id) && Step(s, a).flushes[id].mark == |s.d.core.accepted|
    ensures id in s.flushes ==> id in Step(s, a).flushes && Step(s, a).flushes[id].mark == s.flushes[id].mark
  {
  }

  // ----- draining -----

  /** Steps taken by neither the worker nor a flush that is under way. */
  predicate Outside(a: Action) {
    a.Advance? || a.TriggerBy? || a.CancelContext? || a.StopBy? || a.FlushCalled?
  }

  /** How far a worker that finds the debouncer closed still has to go. */
  function WorkerRank(worker: Worker): nat {
    match worker
    case Chosen(_) => 8
    case Handling(_) => 7
    case ToPark(_, _, _) => 6
    case Parked(_, _, _) => 5
    case AtStop => 4
    case AtNext => 3
    case Leaving => 2
    case Gone(done) => if done then 0 else 1
  }

  function FlushRank(f: Flush): nat {
    match f
    case Waiting(_, _, _) => 2
    case Selecting(_) => 1
    case Returned(_, _) => 0
  }

  /** The sum over the flushes with an id below n. */
  function FlushRanks(flushes: map<nat, Flush>, n: nat): nat {
    if n == 0 then 0 else
      FlushRanks(flushes, n - 1) + (if n - 1 in flushes then FlushRank(flushes[n - 1]) else 0)
  }

  function Remaining(s: State, n: nat): nat {
    WorkerRank(s.worker) + FlushRanks(s.flushes, n)
  }

  lemma {:induction false} FlushRanksUpdate(flushes: map<nat, Flush>, id: nat, f: Flush, n: nat)
    requires id in flushes
    ensures FlushRanks(flushes[id := f], n)
         == FlushRanks(flushes, n) + (if id < n then FlushRank(f) - FlushRank(flushes[id]) else 0)
  {
    if n > 0 {
      FlushRanksUpdate(flushes, id, f, n - 1);
    }
  }

  /**
   Once closed, the debouncer stays closed, and every step of the worker or of a flush lowers a measure,
   whatever bound n on the flushes is taken; the other steps leave the worker and all flushes alone.
   */
  lemma CloseProgresses(s: State, a: Action, n: nat)
    requires Enabled(s, a) && s.d.core.closed && forall id :: id in s.flushes ==> id < n
    ensures var t := Step(s, a);
            && t.d.core.closed
            && (Outside(a) ==> t.worker == s.worker && forall id :: id in s.flushes ==>
                  id in t.flushes && t.flushes[id] == s.flushes[id])
            && (!Outside(a) ==> Remaining(t, n) < Remaining(s, n) && t.flushes.Keys == s.flushes.Keys)
  {
    var t := Step(s, a);
    if a.FlushSelects? || a.FlushWakes? || a.FlushGivesUp? {
      FlushRanksUpdate(s.flushes, a.id, t.flushes[a.id], n);
    }
  }

  /** The worker, or a flush without giving up, can take a step. */
  ghost predicate CanStep(s: State) {
    exists a: Action :: !Outside(a) && !a.FlushGivesUp? && Enabled(s, a)
  }

  predicate AllAnswered(s: State) {
    s.worker == Gone(true) && forall id :: id in s.flushes ==> s.flushes[id].Returned?
  }

  lemma WorkerMoves(s: State)
    requires Inv(s) && s.d.core.closed && s.worker != Gone(true)
    ensures CanStep(s)
  {
    hide CallsFit, FlushesFit;
    var a :=
      match s.worker
      case AtNext => WorkerNext
      case Chosen(_) => WorkerCalls
      case Handling(_) => WorkerFinishes(None)
      case ToPark(_, _, _) => WorkerParks
      case Parked(_, _, _) => WorkerTakesToken
      case Gone(_) => WorkerClosesDone
      case _ => WorkerStops;
    assert Enabled(s, a);
  }

  lemma FlushMoves(s: State, id: nat)
    requires Inv(s) && s.worker == Gone(true) && id in s.flushes && !s.flushes[id].Returned?
    ensures CanStep(s)
  {
    hide CallsFit;
    assert FlushFits(s.d.core, s.flushes[id]);
    assert Enabled(s, if s.flushes[id].Selecting? then FlushSelects(id) else FlushWakes(id));
  }

  /**
   Once closed, some step is possible exactly until the done channel is closed and every flush has
   returned. With the measure: Close always ends, provided handlers return, and leaves no flush waiting.
   */
  lemma CloseNeverStuck(states: seq<State>, actions: seq<Action>, n: nat)
    requires IsRun(states, actions) && n < |states| && states[n].d.core.closed
    ensures CanStep(states[n]) <==> !AllAnswered(states[n])
  {
    hide Inv;
    RunKeepsInv(states, actions, n);
    var s := states[n];
    if s.worker != Gone(true) {
      WorkerMoves(s);
    } else if id :| id in s.flushes && !s.flushes[id].Returned? {
      FlushMoves(s, id);
    }
  }
}
