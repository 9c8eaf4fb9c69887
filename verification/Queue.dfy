/** The in-memory task queue (queue/adapter/memory/queue.go). */
module TaskQueue {
  import opened Options

  const DEFAULT_QUEUE := "default"

  const REASON := "queue.dead_letter.reason"

  /** id is the model's name for the task; meta stands for payload, type and metadata. */
  datatype Task = Task(id: nat, kind: string, queue: string, attempt: int, availableAt: int, meta: map<string, string>)

  predicate Due(t: Task, now: int) {
    !(t.availableAt > now)
  }

  /** The position of the oldest due task, or the length if none is due. */
  function FirstDue(tasks: seq<Task>, now: int): (i: nat)
    ensures i <= |tasks|
    ensures forall j :: 0 <= j < i ==> !Due(tasks[j], now)
    ensures i < |tasks| ==> Due(tasks[i], now)
  {
    if tasks == [] then 0 else if Due(tasks[0], now) then 0 else 1 + FirstDue(tasks[1..], now)
  }

  function Without(tasks: seq<Task>, i: nat): seq<Task>
    requires i < |tasks|
  {
    tasks[..i] + tasks[i + 1..]
  }

  /** wait is the time to the earliest task, or zero if there is none. */
  ghost predicate IsLeastWait(tasks: seq<Task>, now: int, wait: int) {
    && (tasks == [] <==> wait == 0)
    && (forall i :: 0 <= i < |tasks| ==> wait <= tasks[i].availableAt - now)
    && (tasks != [] ==> wait > 0 && exists i :: 0 <= i < |tasks| && tasks[i].availableAt - now == wait)
  }

  /** The wait the scan computes when it passes over tasks that are not due. */
  function LeastWait(tasks: seq<Task>, now: int): int {
    if tasks == [] then 0 else
      var wait := LeastWait(tasks[..|tasks| - 1], now);
      var delay := tasks[|tasks| - 1].availableAt - now;
      if wait == 0 || delay < wait then delay else wait
  }

  lemma {:induction false} LeastWaitIsLeast(tasks: seq<Task>, now: int)
    requires forall j :: 0 <= j < |tasks| ==> !Due(tasks[j], now)
    ensures IsLeastWait(tasks, now, LeastWait(tasks, now))
  {
    if tasks != [] {
      var last := |tasks| - 1;
      LeastWaitIsLeast(tasks[..last], now);
      var wait := LeastWait(tasks, now);
      if wait == tasks[last].availableAt - now {
      } else {
        var k :| 0 <= k < last && tasks[..last][k].availableAt - now == wait;
        assert tasks[k].availableAt - now == wait;
      }
    }
  }

  type Queues = map<string, seq<Task>>

  function TasksOf(queues: Queues, name: string): seq<Task> {
    if name in queues then queues[name] else []
  }

  /** Task.Clone copies the envelope; Enqueue gives a nameless task the default queue. */
  function Normalized(t: Task): Task {
    if t.queue == "" then t.(queue := DEFAULT_QUEUE) else t
  }

  function Enqueued(queues: Queues, t: Task): Queues {
    var n := Normalized(t);
    queues[n.queue := TasksOf(queues, n.queue) + [n]]
  }

  /** A task joins the end of its queue, a nameless one that of the default queue; the other queues stay. */
  lemma EnqueuedAt(queues: Queues, t: Task, name: string)
    ensures TasksOf(Enqueued(queues, t), name) == TasksOf(queues, name)
              + (if name == (if t.queue == "" then "default" else t.queue) then [t.(queue := name)] else [])
  {
  }

  /** What a delivery, a retry and a dead letter make of a task. */
  function Received(t: Task): Task {
    t.(attempt := t.attempt + 1)
  }

  function Again(t: Task, at: int, delay: int): Task {
    t.(availableAt := at + delay)
  }

  function Buried(t: Task, reason: string): Task {
    t.(meta := t.meta[REASON := reason])
  }

  datatype Scan = Found(task: Task) | Nothing(wait: int)

  class Queue {
    var queues: Queues
    var deadLetter: Queues
    /** The notify channels made so far, true where closed; waiters get the last. */
    var channels: seq<bool>

    /** Every channel but the current one is closed, so nobody waits on a channel that was passed over. */
    ghost predicate Valid()
      reads `channels
    {
      channels != [] && forall c :: 0 <= c < |channels| ==> (channels[c] <==> c < |channels| - 1)
    }

    /** The number of the current channel. */
    function Notify(): nat
      requires channels != []
      reads `channels
    {
      |channels| - 1
    }

    constructor ()
      ensures Valid() && queues == map[] && deadLetter == map[] && Notify() == 0
    {
      queues, deadLetter, channels := map[], map[], [false];
    }

    /**
     Whoever holds a channel handed out before is woken, and whoever asks from now on waits for the next
     signal. The channel closed was open: closing one twice would panic.
     */
    method Signal()
      requires Valid()
      modifies `channels
      ensures Valid() && Notify() == old(Notify()) + 1
      ensures forall c :: 0 <= c <= old(Notify()) ==> channels[c]
      ensures !channels[Notify()]
    {
      var current := |channels| - 1;
      assert !channels[current];
      channels := channels[current := true];
      channels := channels + [false];
    }

    /** canceled is ctx.Err() != nil. */
    method Enqueue(canceled: bool, task: Option<Task>) returns (ok: bool)
      requires Valid()
      modifies this
      ensures Valid()
      ensures ok == !canceled && deadLetter == old(deadLetter)
      ensures if canceled || task.None? then queues == old(queues) && channels == old(channels)
              else queues == Enqueued(old(queues), task.value) && Notify() == old(Notify()) + 1
    {
      if canceled {
        return false;
      }
      if task.None? {
        return true;
      }
      var t := task.value;
      if t.queue == "" {
        t := t.(queue := DEFAULT_QUEUE);
      }
      queues := queues[t.queue := TasksOf(queues, t.queue) + [t]];
      Signal();
      return true;
    }

    /** The oldest due task leaves the queue with its attempt counted; the others keep their order. */
    method Next(name: string, now: int) returns (scan: Scan, seenNotify: nat)
      requires Valid()
      modifies `queues
      ensures seenNotify == Notify() && !channels[seenNotify]
      ensures var tasks := TasksOf(old(queues), name);
              var i := FirstDue(tasks, now);
              if i < |tasks| then
                && scan == Found(Received(tasks[i]))
                && queues == old(queues)[name := Without(tasks, i)]
              else
                scan == Nothing(LeastWait(tasks, now)) && IsLeastWait(tasks, now, scan.wait) && queues == old(queues)
    {
      var wait := 0;
      var tasks := TasksOf(queues, name);
      for i := 0 to |tasks|
        invariant queues == old(queues)
        invariant forall j :: 0 <= j < i ==> !Due(tasks[j], now)
        invariant wait == LeastWait(tasks[..i], now)
      {
        var task := tasks[i];
        assert tasks[..i + 1][..i] == tasks[..i];
        if task.availableAt > now {
          var delay := task.availableAt - now;
          if wait == 0 || delay < wait {
            wait := delay;
          }
          continue;
        }
        FirstDueIs(tasks, now, i);
        queues := queues[name := tasks[..i] + tasks[i + 1..]];
        return Found(task.(attempt := task.attempt + 1)), |channels| - 1;
      }
      assert tasks[..|tasks|] == tasks;
      LeastWaitIsLeast(tasks, now);
      return Nothing(wait), |channels| - 1;
    }

    /** Retry of a delivery: the task goes back with a new due time. */
    method Retry(canceled: bool, task: Task, delay: int, now: int) returns (ok: bool)
      requires Valid()
      modifies this
      ensures Valid()
      ensures ok == !canceled && deadLetter == old(deadLetter)
      ensures if canceled then queues == old(queues) && channels == old(channels)
              else queues == Enqueued(old(queues), Again(task, now, delay)) && Notify() == old(Notify()) + 1
    {
      if canceled {
        return false;
      }
      ok := Enqueue(canceled, Some(task.(availableAt := now + delay)));
    }

    method DeadLetter(canceled: bool, task: Task, reason: string) returns (ok: bool)
      modifies `deadLetter
      ensures ok == !canceled
      ensures deadLetter == if canceled then old(deadLetter) else
                old(deadLetter)[task.queue := TasksOf(old(deadLetter), task.queue) + [Buried(task, reason)]]
    {
      if canceled {
        return false;
      }
      var t := task.(meta := task.meta[REASON := reason]);
      deadLetter := deadLetter[t.queue := TasksOf(deadLetter, t.queue) + [t]];
      return true;
    }
  }

  lemma {:induction false} FirstDueIs(tasks: seq<Task>, now: int, i: nat)
    requires i < |tasks| && Due(tasks[i], now) && forall j :: 0 <= j < i ==> !Due(tasks[j], now)
    ensures FirstDue(tasks, now) == i
  {
    var f := FirstDue(tasks, now);
    assert f < |tasks| ==> Due(tasks[f], now);
  }
}

/** The worker's decision about one delivery (queue/worker.go). */
module QueueWorker {
  import opened Options
  import opened TaskQueue

  /** What errors.Is and errors.As find in a handler's error. */
  datatype HandlerError = HandlerError(text: string, discard: bool, deadLetter: Option<string>, retryAfter: Option<nat>)

  datatype Config = Config(maxAttempts: int, handlers: set<string>)

  /** What the retry predicate and the backoff say when asked; neither need be a function of the task. */
  datatype Advice = Advice(retry: bool, backoff: int)

  datatype Settlement = Ack | Retry(delay: int) | DeadLetter(reason: string)

  /** process: which settlement a delivery gets, given what its handler returned. */
  function Settle(c: Config, task: Task, err: Option<HandlerError>, advice: Advice): Settlement {
    if task.kind !in c.handlers then DeadLetter("queue: handler not found")
    else if err.None? then Ack
    else if err.value.discard then Ack
    else if err.value.deadLetter.Some? then DeadLetter(err.value.deadLetter.value)
    else if task.attempt >= c.maxAttempts then DeadLetter("queue: retry exhausted: " + err.value.text)
    else if err.value.retryAfter.Some? then Retry(err.value.retryAfter.value)
    else if !advice.retry then DeadLetter(err.value.text)
    else Retry(if advice.backoff > 0 then advice.backoff else 0)
  }

  /** A retry is chosen only while attempts are left, and never with a negative delay. */
  lemma RetryHasAttemptsLeft(c: Config, task: Task, err: Option<HandlerError>, advice: Advice)
    ensures var s := Settle(c, task, err, advice);
            s.Retry? ==> task.attempt < c.maxAttempts && s.delay >= 0
  {
  }

  /** The handler exists and returned an error that neither discards nor dead-letters the task. */
  predicate Retryable(c: Config, task: Task, err: Option<HandlerError>) {
    task.kind in c.handlers && err.Some? && !err.value.discard && err.value.deadLetter.None?
  }

  /**
   A task is acknowledged when its handler succeeded or asked to discard it; it is retried when attempts
   are left and the handler named a delay, which overrides predicate and backoff, or the predicate
   agrees; in every other case it is dead-lettered.
   */
  lemma SettlementExact(c: Config, task: Task, err: Option<HandlerError>, advice: Advice)
    ensures var s := Settle(c, task, err, advice);
            && (s.Ack? <==> task.kind in c.handlers && (err.None? || err.value.discard))
            && (s.Retry? <==>
                  && Retryable(c, task, err) && task.attempt < c.maxAttempts
                  && (err.value.retryAfter.Some? || advice.retry))
            && (s.Retry? && err.value.retryAfter.Some? ==> s.delay == err.value.retryAfter.value)
            && (s.Retry? && err.value.retryAfter.None? ==>
                  0 <= s.delay && advice.backoff <= s.delay && s.delay in {0, advice.backoff})
            && (task.kind !in c.handlers ==> s == DeadLetter("queue: handler not found"))
            && (task.kind in c.handlers && err.Some? && !err.value.discard && err.value.deadLetter.Some? ==>
                  s == DeadLetter(err.value.deadLetter.value))
            && (Retryable(c, task, err) && task.attempt >= c.maxAttempts ==>
                  s == DeadLetter("queue: retry exhausted: " + err.value.text))
            && (Retryable(c, task, err) && task.attempt < c.maxAttempts && s.DeadLetter? ==>
                  s.reason == err.value.text)
  {
  }
}
