/**
 Every interleaving of producers and a worker's processing loops over one named in-memory queue
 (queue/worker.go, queue/adapter/memory/queue.go). Handlers are oracles that leave the task's envelope
 alone; a settlement may fail because its context has ended.
 */
module QueueRuns {
  import opened Options
  import opened TaskQueue
  import opened QueueWorker

  /**
   One processing loop. It reads the clock, and only then takes the lock and scans the queue. A scan that
   found nothing leaves the loop with a notify channel and a wait.
   */
  datatype Loop =
    | Receiving
    | Scanning(at: int)                                    // at: the clock reading the scan will use
    | ToPark(notify: nat, wait: int, at: int)
    | Parked(notify: nat, fireAt: Option<int>, lag: int)   // lag: from the clock reading to the timer's start
    | Processing(task: Task)
    | Stopped

  datatype Fate = Queued | InDelivery(loop: nat) | Acked | Dead | Lost

  /**
   What is recorded of each enqueued task: the task as it was enqueued, where it is, its deliveries so far,
   and the time before which it was last asked not to be delivered.
   */
  datatype Entry = Entry(task: Task, fate: Fate, deliveries: nat, notBefore: int) {
    /** The attempt the task was enqueued with. */
    const start: int := task.attempt
  }

  datatype State = State(
    config: Config,
    now: int,
    queue: seq<Task>,
    notify: nat,
    loops: seq<Loop>,
    entries: seq<Entry>,
    dead: seq<Task>)

  /** A settlement uses a clock reading `at` taken before the lock, for the due time of a retry. */
  datatype Action =
    | Advance(to: int)
    | Produce(task: Task)
    | ProduceElsewhere(task: Task)   // into another named queue; the notify channel is shared
    | ReadClock(l: nat)
    | Scan(l: nat)
    | Park(l: nat)
    | WakeByNotify(l: nat)
    | WakeByTimer(l: nat)
    | StopLoop(l: nat)
    | SettleDelivery(l: nat, err: Option<HandlerError>, advice: Advice, at: int, ok: bool)

  function Init(config: Config, loops: nat, now: int): State {
    State(config, now, [], 0, seq(loops, i => Receiving), [], [])
  }

  predicate Enabled(s: State, a: Action) {
    match a
    case Advance(to) => s.now <= to
    case Produce(task) => task.id == |s.entries|
    case ProduceElsewhere(_) => true
    case ReadClock(l) => l < |s.loops| && s.loops[l].Receiving?
    case Scan(l) =>
      l < |s.loops| && s.loops[l].Scanning? && forall k :: 0 <= k < |s.queue| ==> s.queue[k].id < |s.entries|
    case Park(l) => l < |s.loops| && s.loops[l].ToPark?
    case WakeByNotify(l) => l < |s.loops| && s.loops[l].Parked? && s.loops[l].notify < s.notify
    case WakeByTimer(l) =>
      l < |s.loops| && s.loops[l].Parked? && s.loops[l].fireAt.Some? && s.loops[l].fireAt.value <= s.now
    case StopLoop(l) => l < |s.loops| && (s.loops[l].Receiving? || s.loops[l].Parked?)
    case SettleDelivery(l, _, _, at, _) =>
      l < |s.loops| && s.loops[l].Processing? && s.loops[l].task.id < |s.entries| && at <= s.now
  }

  function At(s: State, l: nat, loop: Loop): State
    requires l < |s.loops|
  {
    s.(loops := s.loops[l := loop])
  }

  function Marked(s: State, id: nat, fate: Fate): State
    requires id < |s.entries|
  {
    s.(entries := s.entries[id := s.entries[id].(fate := fate)])
  }

  function Settled(s: State, l: nat, task: Task, settlement: Settlement, at: int): State
    requires l < |s.loops| && task.id < |s.entries|
  {
    match settlement
    case Ack => Marked(At(s, l, Receiving), task.id, Acked)
    case DeadLetter(reason) =>
      Marked(At(s, l, Receiving), task.id, Dead).(
        dead := s.dead + [Buried(task, reason)])
    case Retry(delay) =>
      var t := At(s, l, Receiving);
      t.(queue := s.queue + [Again(task, at, delay)],
         notify := s.notify + 1,
         entries := s.entries[task.id := s.entries[task.id].(fate := Queued, notBefore := at + delay)])
  }

  function Step(s: State, a: Action): State
    requires Enabled(s, a)
  {
    match a
    case Advance(to) => s.(now := to)
    case Produce(task) =>
      s.(queue := s.queue + [task],
         notify := s.notify + 1,
         entries := s.entries + [Entry(task, Queued, 0, task.availableAt)])
    case ProduceElsewhere(_) => s.(notify := s.notify + 1)
    case ReadClock(l) => At(s, l, Scanning(s.now))
    case Scan(l) =>
      var at := s.loops[l].at;
      var i := FirstDue(s.queue, at);
      if i < |s.queue| then Delivered(s, l, i)
      else At(s, l, ToPark(s.notify, LeastWait(s.queue, at), at))
    case Park(l) =>
      var p := s.loops[l];
      At(s, l, Parked(p.notify, if p.wait > 0 then Some(s.now + p.wait) else None, s.now - p.at))
    case WakeByNotify(l) => At(s, l, Receiving)
    case WakeByTimer(l) => At(s, l, Receiving)
    case StopLoop(l) => At(s, l, Stopped)
    case SettleDelivery(l, err, advice, at, ok) =>
      var task := s.loops[l].task;
      if ok then Settled(s, l, task, Settle(s.config, task, err, advice), at)
      else Marked(At(s, l, Stopped), task.id, Lost)
  }

  /** The i-th queued task is delivered to loop l. */
  function Delivered(s: State, l: nat, i: nat): State
    requires l < |s.loops| && i < |s.queue| && s.queue[i].id < |s.entries|
  {
    var task := Received(s.queue[i]);
    var e := s.entries[task.id];
    At(s, l, Processing(task)).(
      queue := Without(s.queue, i),
      entries := s.entries[task.id := e.(fate := InDelivery(l), deliveries := e.deliveries + 1)])
  }

  ghost predicate IsRun(states: seq<State>, actions: seq<Action>) {
    && |states| == |actions| + 1 && states[0].config.maxAttempts >= 1
    && states[0] == Init(states[0].config, |states[0].loops|, states[0].now)
    && forall i :: 0 <= i < |actions| ==> Enabled(states[i], actions[i]) && states[i + 1] == Step(states[i], actions[i])
  }

  // ----- the invariant -----

  /** The task is the one enqueued but for attempt and due time; a dead letter also carries its reason. */
  predicate SameTask(enqueued: Task, task: Task, dead: bool) {
    && task.id == enqueued.id && task.kind == enqueued.kind && task.queue == enqueued.queue
    && (if dead then REASON in task.meta && task.meta == enqueued.meta[REASON := task.meta[REASON]]
        else task.meta == enqueued.meta)
  }

  predicate Carries(entries: seq<Entry>, task: Task, fate: Fate) {
    && task.id < |entries| && entries[task.id].fate == fate
    && task.attempt == entries[task.id].start + entries[task.id].deliveries
    && task.availableAt == entries[task.id].notBefore
    && SameTask(entries[task.id].task, task, fate.Dead?)
  }

  ghost predicate Has(tasks: seq<Task>, id: nat) {
    exists k :: 0 <= k < |tasks| && tasks[k].id == id
  }

  ghost predicate Distinct(tasks: seq<Task>) {
    forall j, k :: 0 <= j < k < |tasks| ==> tasks[j].id != tasks[k].id
  }

  /** tasks is a list of exactly the tasks with that fate, each once, with its attempt counted right. */
  ghost predicate Lists(tasks: seq<Task>, entries: seq<Entry>, fate: Fate) {
    && (forall k :: 0 <= k < |tasks| ==> Carries(entries, tasks[k], fate))
    && Distinct(tasks)
    && (forall id :: 0 <= id < |entries| && entries[id].fate == fate ==> Has(tasks, id))
  }

  ghost predicate LoopsFit(loops: seq<Loop>, entries: seq<Entry>) {
    && (forall l :: 0 <= l < |loops| && loops[l].Processing? ==> Carries(entries, loops[l].task, InDelivery(l)))
    && (forall id :: 0 <= id < |entries| && entries[id].fate.InDelivery? ==>
          var l := entries[id].fate.loop;
          l < |loops| && loops[l].Processing? && loops[l].task.id == id)
  }

  /** How often a task enqueued with this attempt may be delivered. */
  function Allowed(maxAttempts: int, start: int): int {
    if maxAttempts - start > 1 then maxAttempts - start else 1
  }

  ghost predicate Bounded(entries: seq<Entry>, maxAttempts: int) {
    forall id :: 0 <= id < |entries| ==>
      && entries[id].deliveries <= Allowed(maxAttempts, entries[id].start)
      && (entries[id].fate == Queued && entries[id].deliveries > 0 ==>
            entries[id].start + entries[id].deliveries < maxAttempts)
  }

  ghost predicate NotBefore(queue: seq<Task>, time: int) {
    forall k :: 0 <= k < |queue| ==> time <= queue[k].availableAt
  }

  /** A loop waiting on the current notify channel has seen every queued task, and timed the earliest. */
  ghost predicate WaitFits(loop: Loop, queue: seq<Task>, notify: nat, now: int) {
    match loop
    case ToPark(seen, wait, at) =>
      seen <= notify && at <= now && (seen == notify && queue != [] ==> wait > 0 && NotBefore(queue, at + wait))
    case Parked(seen, fireAt, lag) =>
      && seen <= notify && lag >= 0
      && (seen == notify && queue != [] ==> fireAt.Some? && NotBefore(queue, fireAt.value - lag))
    case Scanning(at) => at <= now
    case _ => true
  }

  ghost predicate WaitsFit(loops: seq<Loop>, queue: seq<Task>, notify: nat, now: int) {
    forall l :: 0 <= l < |loops| ==> WaitFits(loops[l], queue, notify, now)
  }

  ghost predicate Inv(s: State) {
    && s.config.maxAttempts >= 1
    && Lists(s.queue, s.entries, Queued) && LoopsFit(s.loops, s.entries) && Lists(s.dead, s.entries, Dead)
    && Bounded(s.entries, s.config.maxAttempts) && WaitsFit(s.loops, s.queue, s.notify, s.now)
  }

  // ----- lists under the steps -----

  lemma ListsAppend(tasks: seq<Task>, entries: seq<Entry>, fate: Fate, task: Task, entries': seq<Entry>)
    requires Lists(tasks, entries, fate) && Carries(entries', task, fate)
    requires |entries| <= |entries'| && (task.id < |entries| ==> entries[task.id].fate != fate)
    requires forall id :: 0 <= id < |entries'| && id != task.id ==> id < |entries| && entries'[id] == entries[id]
    ensures Lists(tasks + [task], entries', fate)
  {
    var more := tasks + [task];
    forall id | 0 <= id < |entries'| && entries'[id].fate == fate
      ensures Has(more, id)
    {
      if id == task.id {
        assert more[|tasks|].id == id;
      } else {
        var k :| 0 <= k < |tasks| && tasks[k].id == id;
        assert more[k].id == id;
      }
    }
  }

  lemma HasRemove(tasks: seq<Task>, i: nat, id: nat)
    requires i < |tasks| && id != tasks[i].id && Has(tasks, id)
    ensures Has(Without(tasks, i), id)
  {
    var k :| 0 <= k < |tasks| && tasks[k].id == id;
    assert Without(tasks, i)[if k < i then k else k - 1] == tasks[k];
  }

  lemma ListsRemove(tasks: seq<Task>, entries: seq<Entry>, fate: Fate, i: nat, entry: Entry)
    requires Lists(tasks, entries, fate) && i < |tasks| && entry.fate != fate
    ensures tasks[i].id < |entries| && Lists(Without(tasks, i), entries[tasks[i].id := entry], fate)
  {
    hide Has;
    var less, id' := Without(tasks, i), tasks[i].id;
    assert Carries(entries, tasks[i], fate);
    assert forall k :: 0 <= k < |less| ==> less[k] == tasks[if k < i then k else k + 1];
    forall id | 0 <= id < |entries| && id != id' && entries[id].fate == fate
      ensures Has(less, id)
    {
      HasRemove(tasks, i, id);
    }
  }

  /** A task of another fate changes; the list is as before. */
  lemma ListsKept(tasks: seq<Task>, entries: seq<Entry>, fate: Fate, entries': seq<Entry>)
    requires Lists(tasks, entries, fate) && |entries| <= |entries'|
    requires forall id :: 0 <= id < |entries| && entries[id].fate == fate ==> entries'[id] == entries[id]
    requires forall id :: 0 <= id < |entries'| && entries'[id].fate == fate ==>
      id < |entries| && entries[id].fate == fate
    ensures Lists(tasks, entries', fate)
  {
  }

  /** Fewer tasks to wait for, and a later clock, never spoil a wait. */
  lemma WaitCarries(loop: Loop, queue: seq<Task>, notify: nat, now: int, queue': seq<Task>, now': int)
    requires WaitFits(loop, queue, notify, now) && now <= now'
    requires forall t :: t in queue' ==> t in queue
    ensures WaitFits(loop, queue', notify, now')
  {
    if queue' != [] {
      assert queue'[0] in queue;
    }
    forall k, time | 0 <= k < |queue'| && NotBefore(queue, time)
      ensures time <= queue'[k].availableAt
    {
      assert queue'[k] in queue;
    }
  }

  /** A new task comes with a new notify channel, so no waiting loop is on the current one. */
  lemma SignalCarries(loop: Loop, queue: seq<Task>, notify: nat, now: int, queue': seq<Task>)
    requires WaitFits(loop, queue, notify, now)
    ensures WaitFits(loop, queue', notify + 1, now)
  {
  }

  /** The scan goes by its own clock reading; a task that has come due since then counts as still to come. */
  lemma ScanWaits(queue: seq<Task>, notify: nat, at: int, now: int)
    requires FirstDue(queue, at) == |queue| && at <= now
    ensures WaitFits(ToPark(notify, LeastWait(queue, at), at), queue, notify, now)
  {
    LeastWaitIsLeast(queue, at);
  }

  lemma ScanningFits(loop: Loop, queue: seq<Task>, notify: nat, now: int)
    requires loop.Scanning?
    ensures WaitFits(loop, queue, notify, now) <==> loop.at <= now
  {
  }

  // ----- each step keeps the invariant -----

  lemma ProduceKeepsInv(s: State, task: Task)
    requires Inv(s) && Enabled(s, Produce(task))
    ensures Inv(Step(s, Produce(task)))
  {
    hide Lists, WaitFits;
    var t := Step(s, Produce(task));
    ListsAppend(s.queue, s.entries, Queued, task, t.entries);
    ListsKept(s.dead, s.entries, Dead, t.entries);
    forall l | 0 <= l < |t.loops|
      ensures WaitFits(t.loops[l], t.queue, t.notify, t.now)
    {
      SignalCarries(s.loops[l], s.queue, s.notify, s.now, t.queue);
    }
  }

  lemma SignalKeepsInv(s: State, task: Task)
    requires Inv(s)
    ensures Inv(Step(s, ProduceElsewhere(task)))
  {
    hide Lists, LoopsFit, Bounded, WaitFits;
    forall l | 0 <= l < |s.loops|
      ensures WaitFits(s.loops[l], s.queue, s.notify + 1, s.now)
    {
      SignalCarries(s.loops[l], s.queue, s.notify, s.now, s.queue);
    }
  }

  lemma DeliveryFacts(s: State, i: nat)
    requires Inv(s) && i < |s.queue|
    ensures var task := s.queue[i];
            && task.id < |s.entries| && s.entries[task.id].fate == Queued
            && task.attempt == s.entries[task.id].start + s.entries[task.id].deliveries
            && task.availableAt == s.entries[task.id].notBefore && SameTask(s.entries[task.id].task, task, false)
            && s.entries[task.id].deliveries + 1 <= Allowed(s.config.maxAttempts, s.entries[task.id].start)
  {
    assert Carries(s.entries, s.queue[i], Queued);
  }

  lemma DeliverKeepsInv(s: State, l: nat, i: nat)
    requires Inv(s) && l < |s.loops| && s.loops[l].Scanning? && i < |s.queue| && s.queue[i].id < |s.entries|
    ensures Inv(Delivered(s, l, i))
  {
    hide Lists, WaitFits;
    DeliveryFacts(s, i);
    var t, id := Delivered(s, l, i), s.queue[i].id;
    ListsRemove(s.queue, s.entries, Queued, i, t.entries[id]);
    ListsKept(s.dead, s.entries, Dead, t.entries);
    WithoutIsSubset(s.queue, i);
    ProcessingFits(t.loops[l], t.queue, t.notify, t.now);
    forall m | 0 <= m < |t.loops| && m != l
      ensures WaitFits(t.loops[m], t.queue, t.notify, t.now)
    {
      WaitCarries(s.loops[m], s.queue, s.notify, s.now, t.queue, s.now);
    }
  }

  lemma WithoutIsSubset(queue: seq<Task>, i: nat)
    requires i < |queue|
    ensures forall t :: t in Without(queue, i) ==> t in queue
  {
  }

  lemma ProcessingFits(loop: Loop, queue: seq<Task>, notify: nat, now: int)
    requires loop.Processing? || loop.Receiving? || loop.Stopped?
    ensures WaitFits(loop, queue, notify, now)
  {
  }

  lemma SettleFacts(s: State, l: nat)
    requires Inv(s) && l < |s.loops| && s.loops[l].Processing?
    ensures Carries(s.entries, s.loops[l].task, InDelivery(l))
    ensures var e := s.entries[s.loops[l].task.id];
            e.deliveries <= Allowed(s.config.maxAttempts, e.start)
  {
  }

  /** Ending a delivery in any way but a retry. */
  lemma EndKeepsInv(s: State, l: nat, fate: Fate, to: Loop)
    requires Inv(s) && l < |s.loops| && s.loops[l].Processing? && s.loops[l].task.id < |s.entries|
    requires (to.Receiving? || to.Stopped?) && (fate.Acked? || fate.Lost?)
    ensures Inv(Marked(At(s, l, to), s.loops[l].task.id, fate))
  {
    hide Lists, WaitFits;
    SettleFacts(s, l);
    var t := Marked(At(s, l, to), s.loops[l].task.id, fate);
    ListsKept(s.queue, s.entries, Queued, t.entries);
    ListsKept(s.dead, s.entries, Dead, t.entries);
    ProcessingFits(to, t.queue, t.notify, t.now);
  }

  lemma RetryKeepsInv(s: State, l: nat, delay: int, at: int)
    requires Inv(s) && l < |s.loops| && s.loops[l].Processing? && s.loops[l].task.id < |s.entries|
    requires s.loops[l].task.attempt < s.config.maxAttempts
    ensures Inv(Settled(s, l, s.loops[l].task, Retry(delay), at))
  {
    hide Lists, WaitFits;
    SettleFacts(s, l);
    var task := s.loops[l].task;
    var t := Settled(s, l, task, Retry(delay), at);
    ListsAppend(s.queue, s.entries, Queued, Again(task, at, delay), t.entries);
    ListsKept(s.dead, s.entries, Dead, t.entries);
    forall m | 0 <= m < |t.loops|
      ensures WaitFits(t.loops[m], t.queue, t.notify, t.now)
    {
      if m == l {
        ProcessingFits(t.loops[m], t.queue, t.notify, t.now);
      } else {
        SignalCarries(s.loops[m], s.queue, s.notify, s.now, t.queue);
      }
    }
  }

  lemma DeadLetterKeepsInv(s: State, l: nat, reason: string, at: int)
    requires Inv(s) && l < |s.loops| && s.loops[l].Processing? && s.loops[l].task.id < |s.entries|
    ensures Inv(Settled(s, l, s.loops[l].task, DeadLetter(reason), at))
  {
    hide Lists, WaitFits;
    SettleFacts(s, l);
    var task := s.loops[l].task;
    var t := Settled(s, l, task, DeadLetter(reason), at);
    ListsKept(s.queue, s.entries, Queued, t.entries);
    ListsAppend(s.dead, s.entries, Dead, t.dead[|s.dead|], t.entries);
    ProcessingFits(t.loops[l], t.queue, t.notify, t.now);
  }

  lemma SettleKeepsInv(s: State, a: Action)
    requires Inv(s) && Enabled(s, a) && a.SettleDelivery?
    ensures Inv(Step(s, a))
  {
    hide Inv;
    var task := s.loops[a.l].task;
    RetryHasAttemptsLeft(s.config, task, a.err, a.advice);
    if !a.ok {
      EndKeepsInv(s, a.l, Lost, Stopped);
    } else {
      match Settle(s.config, task, a.err, a.advice)
      case Ack => EndKeepsInv(s, a.l, Acked, Receiving);
      case Retry(delay) => RetryKeepsInv(s, a.l, delay, a.at);
      case DeadLetter(reason) => DeadLetterKeepsInv(s, a.l, reason, a.at);
    }
  }

  lemma MoveKeepsLoops(loops: seq<Loop>, entries: seq<Entry>, l: nat, to: Loop)
    requires LoopsFit(loops, entries) && l < |loops| && !loops[l].Processing? && !to.Processing?
    ensures LoopsFit(loops[l := to], entries)
  {
  }

  lemma ParkFits(loop: Loop, queue: seq<Task>, notify: nat, now: int)
    requires loop.ToPark? && WaitFits(loop, queue, notify, now)
    ensures var fireAt := if loop.wait > 0 then Some(now + loop.wait) else None;
            WaitFits(Parked(loop.notify, fireAt, now - loop.at), queue, notify, now)
  {
  }

  lemma IdleStepKeepsInv(s: State, a: Action)
    requires Inv(s) && Enabled(s, a)
    requires || a.ReadClock? || a.Park? || a.WakeByNotify? || a.WakeByTimer? || a.StopLoop?
             || (a.Scan? && FirstDue(s.queue, s.loops[a.l].at) == |s.queue|)
    ensures Inv(Step(s, a))
  {
    hide Lists, LoopsFit, Bounded, WaitFits;
    var to := Step(s, a).loops[a.l];
    MoveKeepsLoops(s.loops, s.entries, a.l, to);
    if a.Scan? {
      ScanningFits(s.loops[a.l], s.queue, s.notify, s.now);
      ScanWaits(s.queue, s.notify, s.loops[a.l].at, s.now);
    } else if a.ReadClock? {
      ScanningFits(to, s.queue, s.notify, s.now);
    } else if a.Park? {
      ParkFits(s.loops[a.l], s.queue, s.notify, s.now);
    } else {
      ProcessingFits(to, s.queue, s.notify, s.now);
    }
  }

  lemma AdvanceKeepsInv(s: State, to: int)
    requires Inv(s) && s.now <= to
    ensures Inv(s.(now := to))
  {
    hide Lists, LoopsFit, Bounded, WaitFits;
    forall l | 0 <= l < |s.loops|
      ensures WaitFits(s.loops[l], s.queue, s.notify, to)
    {
      WaitCarries(s.loops[l], s.queue, s.notify, s.now, s.queue, to);
    }
  }

  lemma {:induction false} RunKeepsInv(states: seq<State>, actions: seq<Action>, n: nat)
    requires IsRun(states, actions) && n < |states|
    ensures Inv(states[n])
  {
    if n > 0 {
      RunKeepsInv(states, actions, n - 1);
      StepKeepsInv(states[n - 1], actions[n - 1]);
    }
  }

  lemma StepKeepsInv(s: State, a: Action)
    requires Inv(s) && Enabled(s, a)
    ensures Inv(Step(s, a))
  {
    hide Inv;
    match a
    case Advance(to) => AdvanceKeepsInv(s, to);
    case Produce(task) => ProduceKeepsInv(s, task);
    case ProduceElsewhere(task) => SignalKeepsInv(s, task);
    case SettleDelivery(_, _, _, _, _) => SettleKeepsInv(s, a);
    case Scan(l) =>
      var i := FirstDue(s.queue, s.loops[l].at);
      if i < |s.queue| {
        DeliverKeepsInv(s, l, i);
      } else {
        IdleStepKeepsInv(s, a);
      }
    case _ => IdleStepKeepsInv(s, a);
  }

  // ----- what holds in every interleaving -----

  ghost predicate InHandOf(loops: seq<Loop>, id: nat, l: nat) {
    l < |loops| && loops[l].Processing? && loops[l].task.id == id
  }

  /**
   Every enqueued task is in exactly one place: queued, in delivery, acknowledged, dead-lettered, or lost
   to a failed settlement. The queue, the loops and the dead letters hold precisely the tasks so marked,
   no task twice.
   */
  lemma TasksConserved(states: seq<State>, actions: seq<Action>, n: nat, id: nat)
    requires IsRun(states, actions) && n < |states| && id < |states[n].entries|
    ensures var s := states[n];
            var fate := s.entries[id].fate;
            && (fate.Queued? <==> Has(s.queue, id)) && Distinct(s.queue)
            && (fate.Dead? <==> Has(s.dead, id)) && Distinct(s.dead)
            && (forall l :: InHandOf(s.loops, id, l) <==> fate == InDelivery(l))
  {
    RunKeepsInv(states, actions, n);
    var s := states[n];
    forall l: nat
      ensures InHandOf(s.loops, id, l) <==> s.entries[id].fate == InDelivery(l)
    {
      if InHandOf(s.loops, id, l) {
        assert Carries(s.entries, s.loops[l].task, InDelivery(l));
      }
    }
  }

  /**
   Tasks are kept whole: a queued task and one handed to a handler are the task that was enqueued, but for
   attempt and due time, and a dead letter is that task with its reason added.
   */
  lemma TasksKeptWhole(states: seq<State>, actions: seq<Action>, n: nat)
    requires IsRun(states, actions) && n < |states|
    ensures var s := states[n];
            && (forall k :: 0 <= k < |s.queue| ==>
                  s.queue[k].id < |s.entries| && SameTask(s.entries[s.queue[k].id].task, s.queue[k], false))
            && (forall l :: 0 <= l < |s.loops| && s.loops[l].Processing? ==>
                  var task := s.loops[l].task;
                  task.id < |s.entries| && SameTask(s.entries[task.id].task, task, false))
            && (forall k :: 0 <= k < |s.dead| ==>
                  s.dead[k].id < |s.entries| && SameTask(s.entries[s.dead[k].id].task, s.dead[k], true))
  {
    RunKeepsInv(states, actions, n);
    var s := states[n];
    forall k | 0 <= k < |s.queue|
      ensures s.queue[k].id < |s.entries| && SameTask(s.entries[s.queue[k].id].task, s.queue[k], false)
    {
      assert Carries(s.entries, s.queue[k], Queued);
    }
    forall k | 0 <= k < |s.dead|
      ensures s.dead[k].id < |s.entries| && SameTask(s.entries[s.dead[k].id].task, s.dead[k], true)
    {
      assert Carries(s.entries, s.dead[k], Dead);
    }
  }

  /** The tasks enqueued in the first n steps, in order. */
  ghost function Produced(actions: seq<Action>, n: nat): seq<Task>
    requires n <= |actions|
  {
    if n == 0 then []
    else Produced(actions, n - 1) + (if actions[n - 1].Produce? then [actions[n - 1].task] else [])
  }

  function Enqueued(entries: seq<Entry>): seq<Task> {
    seq(|entries|, i requires 0 <= i < |entries| => entries[i].task)
  }

  lemma StepEnqueues(s: State, a: Action)
    requires Enabled(s, a)
    ensures Enqueued(Step(s, a).entries) == Enqueued(s.entries) + (if a.Produce? then [a.task] else [])
  {
    hide Settle;
  }

  /** The tasks on record are exactly those producers enqueued. */
  lemma {:induction false} ProducedAreRecorded(states: seq<State>, actions: seq<Action>, n: nat)
    requires IsRun(states, actions) && n < |states|
    ensures Enqueued(states[n].entries) == Produced(actions, n)
  {
    hide Step, Enabled, Enqueued;
    if n > 0 {
      ProducedAreRecorded(states, actions, n - 1);
      assert Enabled(states[n - 1], actions[n - 1]) && states[n] == Step(states[n - 1], actions[n - 1]);
      StepEnqueues(states[n - 1], actions[n - 1]);
    } else {
      NothingEnqueued(states[0]);
    }
  }

  lemma NothingEnqueued(s: State)
    requires s.entries == []
    ensures Enqueued(s.entries) == []
  {
  }

  /**
   What becomes of a delivery, in the handler's terms. A settlement that goes through acknowledges a task
   whose handler succeeded or discarded it, and dead-letters one whose handler asked for that, with the
   reason given; a settlement that fails loses the task and stops the loop.
   */
  lemma SettledAsReturned(states: seq<State>, actions: seq<Action>, n: nat)
    requires IsRun(states, actions) && n < |actions| && actions[n].SettleDelivery?
    requires actions[n].l < |states[n].loops| && states[n].loops[actions[n].l].Processing?
    ensures var s, t, a, task := states[n], states[n + 1], actions[n], states[n].loops[actions[n].l].task;
            && task.id < |s.entries| == |t.entries| && |t.loops| == |s.loops|
            && var fate := t.entries[task.id].fate;
               && (if a.ok then t.loops[a.l] == Receiving else t.loops[a.l] == Stopped && fate == Lost)
               && (a.ok && task.kind !in s.config.handlers ==> fate == Dead)
               && (a.ok && task.kind in s.config.handlers && (a.err.None? || a.err.value.discard) ==> fate == Acked)
               && (a.ok && task.kind in s.config.handlers && a.err.Some? && !a.err.value.discard
                   && a.err.value.deadLetter.Some? ==>
                     fate == Dead && t.dead == s.dead + [Buried(task, a.err.value.deadLetter.value)])
               && (fate == Queued ==> |t.queue| == |s.queue| + 1 && t.notify == s.notify + 1)
  {
    hide Lists, WaitsFit, Bounded, Settle;
    RunKeepsInv(states, actions, n);
    var s, a := states[n], actions[n];
    assert Enabled(s, a) && states[n + 1] == Step(s, a);
    SettleFacts(s, a.l);
    SettlementExact(s.config, s.loops[a.l].task, a.err, a.advice);
  }

  ghost predicate ToldToStop(actions: seq<Action>, n: nat, l: nat) {
    exists k :: 0 <= k < n && k < |actions|
      && (actions[k] == StopLoop(l) || (actions[k].SettleDelivery? && actions[k].l == l && !actions[k].ok))
  }

  lemma StepStopsLoop(s: State, a: Action, l: nat)
    requires Enabled(s, a) && l < |s.loops|
    ensures l < |Step(s, a).loops|
    ensures Step(s, a).loops[l].Stopped? <==>
              s.loops[l].Stopped? || a == StopLoop(l) || (a.SettleDelivery? && a.l == l && !a.ok)
  {
    hide Settle;
  }

  /** A loop stops exactly when its context ends or a settlement of its own fails, and for good. */
  lemma {:induction false} LoopsKeepGoing(states: seq<State>, actions: seq<Action>, n: nat, l: nat)
    requires IsRun(states, actions) && n < |states| && l < |states[0].loops|
    ensures l < |states[n].loops| && (states[n].loops[l].Stopped? <==> ToldToStop(actions, n, l))
  {
    hide Step, Enabled;
    if n > 0 {
      LoopsKeepGoing(states, actions, n - 1, l);
      assert Enabled(states[n - 1], actions[n - 1]) && states[n] == Step(states[n - 1], actions[n - 1]);
      StepStopsLoop(states[n - 1], actions[n - 1], l);
    }
  }

  /** A task's attempt counts its deliveries, on top of what it was enqueued with. */
  lemma AttemptCountsDeliveries(states: seq<State>, actions: seq<Action>, n: nat)
    requires IsRun(states, actions) && n < |states|
    ensures var s := states[n];
            && (forall k :: 0 <= k < |s.queue| ==> Carries(s.entries, s.queue[k], Queued))
            && (forall l :: 0 <= l < |s.loops| && s.loops[l].Processing? ==>
                  Carries(s.entries, s.loops[l].task, InDelivery(l)))
            && (forall k :: 0 <= k < |s.dead| ==> Carries(s.entries, s.dead[k], Dead))
  {
    RunKeepsInv(states, actions, n);
  }

  /** A task enqueued with attempt zero is delivered at most maxAttempts times, whatever its handlers return. */
  lemma DeliveriesBounded(states: seq<State>, actions: seq<Action>, n: nat, id: nat)
    requires IsRun(states, actions) && n < |states| && id < |states[n].entries|
    ensures states[n].entries[id].deliveries <= Allowed(states[n].config.maxAttempts, states[n].entries[id].start)
    ensures states[n].entries[id].start == 0 ==> states[n].entries[id].deliveries <= states[n].config.maxAttempts
  {
    RunKeepsInv(states, actions, n);
  }

  /**
   No lost wake-up: whatever is queued, a parked loop can be woken by its notify channel, or its timer is
   set to fire no later after the task's due time than the loop took from reading the clock to starting
   the timer. A task that came due after the clock reading and before the scan is no exception.
   */
  lemma NoLostWakeup(states: seq<State>, actions: seq<Action>, n: nat, l: nat, k: nat)
    requires IsRun(states, actions) && n < |states|
    requires l < |states[n].loops| && states[n].loops[l].Parked? && k < |states[n].queue|
    ensures var s := states[n];
            || Enabled(s, WakeByNotify(l))
            || (s.loops[l].fireAt.Some? && s.loops[l].fireAt.value <= s.queue[k].availableAt + s.loops[l].lag)
  {
    RunKeepsInv(states, actions, n);
    assert WaitFits(states[n].loops[l], states[n].queue, states[n].notify, states[n].now);
  }

  /** The lag is counted from a true clock reading: a scan's time is the clock at the step that read it. */
  lemma StepReadsClock(s: State, a: Action, l: nat)
    requires Enabled(s, a) && l < |s.loops|
    ensures var from, to := s.loops[l], Step(s, a).loops[l];
            && (to.Scanning? ==> to == from || (a == ReadClock(l) && to.at == s.now))
            && (to.ToPark? ==> to == from || (a == Scan(l) && from.Scanning? && to.at == from.at))
            && (to.Parked? ==> to == from || (a == Park(l) && from.ToPark? && to.lag == s.now - from.at))
  {
    hide Settle;
  }

  /**
   A retryable failure that handler or policy want retried sends the task back until its attempts are
   used up, and then, and only then, to the dead letters. So a task enqueued with attempt zero that is given
   up this way has been delivered exactly maxAttempts times.
   */
  lemma GivenUpOnlyWhenExhausted(states: seq<State>, actions: seq<Action>, n: nat)
    requires IsRun(states, actions) && n < |actions| && actions[n].SettleDelivery? && actions[n].ok
    requires actions[n].l < |states[n].loops| && states[n].loops[actions[n].l].Processing?
    requires Retryable(states[n].config, states[n].loops[actions[n].l].task, actions[n].err)
    requires actions[n].err.value.retryAfter.Some? || actions[n].advice.retry
    ensures var s, t, task := states[n], states[n + 1], states[n].loops[actions[n].l].task;
            && task.id < |s.entries| == |t.entries|
            && var e := t.entries[task.id];
               && (e.fate == Queued <==> e.start + e.deliveries < s.config.maxAttempts)
               && (e.fate == Dead <==> e.start + e.deliveries >= s.config.maxAttempts)
               && (e.fate == Dead && e.start == 0 ==> e.deliveries == s.config.maxAttempts)
  {
    hide Lists, WaitsFit, Settle;
    RunKeepsInv(states, actions, n);
    var s, a := states[n], actions[n];
    assert Enabled(s, a) && states[n + 1] == Step(s, a);
    SettleFacts(s, a.l);
    SettlementExact(s.config, s.loops[a.l].task, a.err, a.advice);
  }

  // ----- when tasks are delivered -----

  predicate Delivers(s: State, a: Action, id: nat) {
    && a.Scan? && a.l < |s.loops| && s.loops[a.l].Scanning?
    && var i := FirstDue(s.queue, s.loops[a.l].at);
       i < |s.queue| && s.queue[i].id == id
  }

  /** Action a sends the delivered task with this id back, to be tried again after the delay. */
  predicate Retries(s: State, a: Action, id: nat, delay: int) {
    && a.SettleDelivery? && a.ok && a.l < |s.loops| && s.loops[a.l].Processing?
    && s.loops[a.l].task.id == id && Settle(s.config, s.loops[a.l].task, a.err, a.advice) == Retry(delay)
  }

  lemma DeliveryWasDue(s: State, a: Action, id: nat)
    requires Inv(s) && Enabled(s, a) && Delivers(s, a, id)
    ensures id < |s.entries| && s.entries[id].fate == Queued
    ensures s.entries[id].notBefore <= s.loops[a.l].at <= s.now
  {
    assert WaitFits(s.loops[a.l], s.queue, s.notify, s.now);
    hide Lists, LoopsFit, Bounded;
    DeliveryFacts(s, FirstDue(s.queue, s.loops[a.l].at));
  }

  /** No delivery comes before the time its task was enqueued or last retried for. */
  lemma DeliveredWhenDue(states: seq<State>, actions: seq<Action>, n: nat, id: nat)
    requires IsRun(states, actions) && n < |actions| && Delivers(states[n], actions[n], id)
    ensures id < |states[n].entries| && states[n].entries[id].notBefore <= states[n].now
  {
    hide Inv;
    RunKeepsInv(states, actions, n);
    DeliveryWasDue(states[n], actions[n], id);
  }

  /** Only a delivery moves a queued task. */
  lemma QueuedStays(s: State, a: Action, id: nat)
    requires Inv(s) && Enabled(s, a) && id < |s.entries| && s.entries[id].fate == Queued
    ensures s.now <= Step(s, a).now && id < |Step(s, a).entries|
    ensures Step(s, a).entries[id] == s.entries[id] || Delivers(s, a, id)
  {
    hide Lists, WaitsFit, Settle;
    if a.SettleDelivery? {
      SettleFacts(s, a.l);
    }
  }

  ghost predicate Held(s: State, id: nat, until: int) {
    s.now >= until || (id < |s.entries| && s.entries[id].fate == Queued && s.entries[id].notBefore == until)
  }

  lemma RetryHolds(s: State, a: Action, id: nat, delay: int)
    requires Enabled(s, a) && Retries(s, a, id, delay)
    ensures Held(Step(s, a), id, a.at + delay)
  {
  }

  lemma StepHolds(s: State, a: Action, id: nat, until: int)
    requires Inv(s) && Enabled(s, a) && Held(s, id, until)
    ensures Held(Step(s, a), id, until)
  {
    hide Inv, Delivers, Settle;
    if s.now < until {
      QueuedStays(s, a, id);
      if Delivers(s, a, id) {
        DeliveryWasDue(s, a, id);
        assert false;
      }
    }
  }

  lemma {:induction false} RetryHoldsOn(states: seq<State>, actions: seq<Action>, n: nat, m: nat, id: nat, delay: int)
    requires IsRun(states, actions) && n < m < |states| && Retries(states[n], actions[n], id, delay)
    ensures Held(states[m], id, actions[n].at + delay)
  {
    hide Inv, Step, Settle, Held;
    assert Enabled(states[m - 1], actions[m - 1]) && states[m] == Step(states[m - 1], actions[m - 1]);
    if m == n + 1 {
      RetryHolds(states[n], actions[n], id, delay);
    } else {
      RetryHoldsOn(states, actions, n, m - 1, id, delay);
      RunKeepsInv(states, actions, m - 1);
      StepHolds(states[m - 1], actions[m - 1], id, actions[n].at + delay);
    }
  }

  /** A retried task comes back no sooner than its delay after the retry's clock reading. */
  lemma RetriedNoSooner(states: seq<State>, actions: seq<Action>, n: nat, m: nat, id: nat, delay: int)
    requires IsRun(states, actions) && n < m < |actions|
    requires Retries(states[n], actions[n], id, delay) && Delivers(states[m], actions[m], id)
    ensures actions[n].at + delay <= states[m].now
  {
    hide Inv, Step, Retries, Delivers;
    RetryHoldsOn(states, actions, n, m, id, delay);
    DeliveredWhenDue(states, actions, m, id);
  }

  // ----- draining -----

  /** Deliveries and settlements a task can still go through. */
  function Potential(e: Entry, maxAttempts: int): nat {
    var attempt := e.start + e.deliveries;
    match e.fate
    case Queued => if attempt < maxAttempts then 2 * (maxAttempts - attempt) else 2
    case InDelivery(_) => (if attempt < maxAttempts then 2 * (maxAttempts - attempt) else 0) + 1
    case _ => 0
  }

  function Total(entries: seq<Entry>, maxAttempts: int): nat {
    if entries == [] then 0 else Potential(entries[0], maxAttempts) + Total(entries[1..], maxAttempts)
  }

  lemma {:induction false} TotalUpdate(entries: seq<Entry>, maxAttempts: int, id: nat, e: Entry)
    requires id < |entries|
    ensures Total(entries[id := e], maxAttempts)
         == Total(entries, maxAttempts) - Potential(entries[id], maxAttempts) + Potential(e, maxAttempts)
  {
    if id == 0 {
      assert entries[id := e][1..] == entries[1..];
    } else {
      assert entries[id := e][1..] == entries[1..][id - 1 := e];
      TotalUpdate(entries[1..], maxAttempts, id - 1, e);
    }
  }

  /**
   The queue drains: with no new tasks, every delivery and every settlement uses up potential, and no
   other step adds any. The total is zero exactly when every task has reached its end.
   */
  lemma DrainProgresses(states: seq<State>, actions: seq<Action>, n: nat)
    requires IsRun(states, actions) && n < |actions| && !actions[n].Produce?
    ensures var s, t := states[n], states[n + 1];
            var maxAttempts := s.config.maxAttempts;
            && t.config == s.config && |t.entries| == |s.entries|
            && (if t.entries == s.entries then !actions[n].SettleDelivery?
                else Total(t.entries, maxAttempts) < Total(s.entries, maxAttempts))
  {
    RunKeepsInv(states, actions, n);
    var s, a := states[n], actions[n];
    assert Enabled(s, a) && states[n + 1] == Step(s, a);
    match a
    case SettleDelivery(_, _, _, _, _) => SettlementProgresses(s, a);
    case Scan(l) =>
      var i := FirstDue(s.queue, s.loops[l].at);
      if i < |s.queue| {
        DeliveryProgresses(s, l, i);
      }
    case _ =>
  }

  lemma DeliveryProgresses(s: State, l: nat, i: nat)
    requires Inv(s) && l < |s.loops| && i < |s.queue| && s.queue[i].id < |s.entries|
    ensures Total(Delivered(s, l, i).entries, s.config.maxAttempts) < Total(s.entries, s.config.maxAttempts)
  {
    DeliveryFacts(s, i);
    var id := s.queue[i].id;
    TotalUpdate(s.entries, s.config.maxAttempts, id, Delivered(s, l, i).entries[id]);
  }

  lemma SettlementProgresses(s: State, a: Action)
    requires Inv(s) && Enabled(s, a) && a.SettleDelivery?
    ensures Total(Step(s, a).entries, s.config.maxAttempts) < Total(s.entries, s.config.maxAttempts)
    ensures |Step(s, a).entries| == |s.entries|
  {
    SettleFacts(s, a.l);
    var task := s.loops[a.l].task;
    RetryHasAttemptsLeft(s.config, task, a.err, a.advice);
    TotalUpdate(s.entries, s.config.maxAttempts, task.id, Step(s, a).entries[task.id]);
  }

  predicate Terminal(fate: Fate) {
    fate.Acked? || fate.Dead? || fate.Lost?
  }

  lemma {:induction false} ZeroMeansTerminal(entries: seq<Entry>, maxAttempts: int)
    ensures Total(entries, maxAttempts) == 0 <==> forall id :: 0 <= id < |entries| ==> Terminal(entries[id].fate)
  {
    if entries != [] {
      ZeroMeansTerminal(entries[1..], maxAttempts);
      if forall id :: 0 <= id < |entries| ==> Terminal(entries[id].fate) {
        assert forall id :: 0 <= id < |entries[1..]| ==> Terminal(entries[1..][id].fate);
      }
      if Total(entries, maxAttempts) == 0 {
        forall id | 0 <= id < |entries|
          ensures Terminal(entries[id].fate)
        {
          if id > 0 {
            assert Terminal(entries[1..][id - 1].fate);
          }
        }
      }
    }
  }
}

/** The queue object under the transition system: every run can be played on one object that keeps up with it. */
module QueueClient {
  import opened Options
  import opened TaskQueue
  import opened QueueWorker
  import opened QueueRuns

  /** The object's queue and dead letters of that name, and its notify channel, are those of the state. */
  ghost predicate Shows(q: Queue, name: string, s: State)
    reads q
  {
    && q.Valid() && q.Notify() == s.notify
    && TasksOf(q.queues, name) == s.queue && TasksOf(q.deadLetter, name) == s.dead
  }

  ghost predicate Named(s: State, name: string) {
    && (forall k :: 0 <= k < |s.queue| ==> s.queue[k].queue == name)
    && (forall l :: 0 <= l < |s.loops| && s.loops[l].Processing? ==> s.loops[l].task.queue == name)
  }

  ghost predicate Addressed(a: Action, name: string) {
    && (a.Produce? ==> a.task.queue == name)
    && (a.ProduceElsewhere? ==> Normalized(a.task).queue != name)
  }

  lemma StepNamed(s: State, a: Action, name: string)
    requires Enabled(s, a) && Named(s, name) && Addressed(a, name)
    ensures Named(Step(s, a), name)
  {
  }

  /** What a scan leaves the loop with, told from the object's answer alone. */
  function AfterScan(scan: Scan, seenNotify: nat, at: int): Loop {
    match scan
    case Found(task) => Processing(task)
    case Nothing(wait) => ToPark(seenNotify, wait, at)
  }

  method Settling(q: Queue, name: string, s: State, a: Action)
    requires name != "" && Enabled(s, a) && a.SettleDelivery? && Shows(q, name, s) && Named(s, name)
    modifies q
    ensures Shows(q, name, Step(s, a))
  {
    var task := s.loops[a.l].task;
    match Settle(s.config, task, a.err, a.advice)
    case Ack =>
    case Retry(delay) =>
      var _ := q.Retry(!a.ok, task, delay, a.at);
    case DeadLetter(reason) =>
      var _ := q.DeadLetter(!a.ok, task, reason);
  }

  /** One step of the run, done by the object. A scan gives the loop the answer the run says it gets. */
  method Perform(q: Queue, name: string, s: State, a: Action) returns (loop: Option<Loop>)
    requires name != "" && Enabled(s, a) && Addressed(a, name) && Shows(q, name, s) && Named(s, name)
    modifies q
    ensures Shows(q, name, Step(s, a)) && Named(Step(s, a), name)
    ensures a.Scan? ==> loop == Some(Step(s, a).loops[a.l])
  {
    StepNamed(s, a, name);
    loop := None;
    match a
    case Produce(task) =>
      var _ := q.Enqueue(false, Some(task));
    case ProduceElsewhere(task) =>
      var _ := q.Enqueue(false, Some(task));
    case Scan(l) =>
      var scan, seenNotify := q.Next(name, s.loops[l].at);
      loop := Some(AfterScan(scan, seenNotify, s.loops[l].at));
    case SettleDelivery(_, _, _, _, _) => Settling(q, name, s, a);
    case _ =>
  }

  /** A whole run, played on one new object: at its end the object shows the run's last state. */
  method Play(name: string, states: seq<State>, actions: seq<Action>) returns (q: Queue)
    requires name != "" && IsRun(states, actions)
    requires forall i :: 0 <= i < |actions| ==> Addressed(actions[i], name)
    ensures fresh(q) && Shows(q, name, states[|actions|])
  {
    q := new Queue();
    for i := 0 to |actions|
      invariant fresh(q) && Shows(q, name, states[i]) && Named(states[i], name)
    {
      assert Enabled(states[i], actions[i]) && states[i + 1] == Step(states[i], actions[i]);
      var _ := Perform(q, name, states[i], actions[i]);
    }
  }
}
