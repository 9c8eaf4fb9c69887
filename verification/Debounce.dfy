/**
 The debouncer's mutex-guarded sections (debounce/debouncer.go, debounce/worker.go), each as a function
 on the shared state. Invocations live in an arena in the order they were created, so a Go pointer is
 an index. Beside the source's fields the model records the triggers accepted so far and which
 invocation each of them went into.
 */
module DebounceSections {
  import opened Options

  type Value = int

  const ZERO: Value := 0

  /** An accepted trigger, and the invocation it went into. */
  datatype Accepted = Accepted(value: Value, at: int, inv: nat)

  /** What complete left in an invocation: nothing yet, the handler's result, or ErrClosed. */
  datatype Outcome = Open | Handled(err: Option<string>) | Discarded

  /**
   closes counts how often the done channel has been closed; a second close would panic. latest is the
   index of the last trigger that went into the invocation, frozen whether a flush selected it.
   */
  datatype Invocation = Invocation(value: Value, due: int, outcome: Outcome, closes: nat, frozen: bool, latest: nat)

  /** The slots, the invocations and the triggers. */
  datatype Core = Core(
    closed: bool,
    pending: Option<nat>,
    ready: Option<nat>,
    running: Option<nat>,
    invs: seq<Invocation>,
    accepted: seq<Accepted>)

  /** The mutex-guarded state, with the processing context and the one-token wake channel. */
  datatype Shared = Shared(core: Core, canceled: bool, wake: bool)

  predicate SlotsExist(c: Core) {
    && (c.pending.Some? ==> c.pending.value < |c.invs|)
    && (c.ready.Some? ==> c.ready.value < |c.invs|)
    && (c.running.Some? ==> c.running.value < |c.invs|)
  }

  const NEW := Shared(Core(false, None, None, None, [], []), false, false)

  predicate Refuses(d: Shared) {
    d.core.closed || d.canceled
  }

  /** Trigger: replaces the pending value, or starts a pending invocation, and restarts its delay. */
  function Accept(c: Core, value: Value, due: int, now: int): Core
    requires SlotsExist(c)
  {
    var n := |c.accepted|;
    if c.pending.None? then
      c.(pending := Some(|c.invs|),
         invs := c.invs + [Invocation(value, due, Open, 0, false, n)],
         accepted := c.accepted + [Accepted(value, now, |c.invs|)])
    else
      var p := c.pending.value;
      c.(invs := c.invs[p := c.invs[p].(value := value, due := due, latest := n)],
         accepted := c.accepted + [Accepted(value, now, p)])
  }

  function Trigger(d: Shared, delay: int, value: Value, now: int): Shared
    requires SlotsExist(d.core)
  {
    if Refuses(d) then d else d.(core := Accept(d.core, value, now + delay, now), wake := true)
  }

  datatype Selection = SelectedClosed | SelectedIdle | Selected(inv: nat, retry: bool)

  predicate Freezes(d: Shared) {
    !Refuses(d) && d.core.ready.None? && d.core.pending.Some?
  }

  function FreezePending(c: Core): Core
    requires SlotsExist(c) && c.pending.Some?
  {
    var p := c.pending.value;
    c.(ready := c.pending, pending := None, invs := c.invs[p := c.invs[p].(frozen := true)])
  }

  /** selectFlush freezes the pending invocation if the frozen slot is free ... */
  function Freeze(d: Shared): Shared
    requires SlotsExist(d.core)
  {
    if Freezes(d) then d.(core := FreezePending(d.core), wake := true) else d
  }

  /** ... and answers with the invocation the flush is to wait for. */
  function Select(d: Shared): Selection {
    var c := d.core;
    if Refuses(d) then SelectedClosed
    else if c.ready.Some? then Selected(c.ready.value, c.pending.Some?)
    else if c.pending.Some? then Selected(c.pending.value, false)
    else if c.running.Some? then Selected(c.running.value, false)
    else SelectedIdle
  }

  /** complete: clears the value, stores the outcome and closes the done channel. */
  function Complete(invs: seq<Invocation>, slot: Option<nat>, outcome: Outcome): (r: seq<Invocation>)
    requires slot.Some? ==> slot.value < |invs|
    ensures |r| == |invs|
  {
    if slot.None? then invs else
      var inv := invs[slot.value];
      invs[slot.value := inv.(value := ZERO, outcome := outcome, closes := inv.closes + 1)]
  }

  /** stop: discards the pending and the frozen invocation. */
  function CloseCore(c: Core): Core
    requires SlotsExist(c)
  {
    var invs := Complete(Complete(c.invs, c.pending, Discarded), c.ready, Discarded);
    c.(closed := true, pending := None, ready := None, invs := invs)
  }

  function Stop(d: Shared): Shared
    requires SlotsExist(d.core)
  {
    if d.core.closed then d else Shared(CloseCore(d.core), true, true)
  }

  /** What next tells the worker; a wait carries the due time it was computed from. */
  datatype Next = Exit | Run(inv: nat) | Wait(due: Option<int>, delay: int)

  function NextResult(d: Shared, now: int): Next
    requires SlotsExist(d.core)
  {
    var c := d.core;
    if Refuses(d) then Exit
    else if c.ready.Some? then Run(c.ready.value)
    else if c.pending.None? then Wait(None, 0)
    else
      var due := c.invs[c.pending.value].due;
      if due - now > 0 then Wait(Some(due), due - now) else Run(c.pending.value)
  }

  /** next moves the frozen or else the pending invocation into the running slot. */
  function Promote(c: Core): Core {
    if c.ready.Some? then c.(running := c.ready, ready := None)
    else c.(running := c.pending, pending := None)
  }

  function TakeNext(d: Shared, now: int): Shared
    requires SlotsExist(d.core)
  {
    if NextResult(d, now).Run? then d.(core := Promote(d.core)) else d
  }

  /** The end of execute: the running invocation is completed with the handler's result. */
  function Finish(c: Core, err: Option<string>): Core
    requires SlotsExist(c)
  {
    c.(running := None, invs := Complete(c.invs, c.running, Handled(err)))
  }

  /** The debouncer's fields, with one method per mutex section. */
  class Debouncer {
    const delay: int
    var closed: bool
    var canceled: bool
    var wake: bool
    var pending: Option<nat>
    var ready: Option<nat>
    var running: Option<nat>
    var invs: seq<Invocation>
    var accepted: seq<Accepted>  // history

    ghost function Snapshot(): Shared
      reads this
    {
      Shared(Core(closed, pending, ready, running, invs, accepted), canceled, wake)
    }

    constructor (delay: int)
      ensures Snapshot() == NEW && this.delay == delay
    {
      this.delay := delay;
      closed, canceled, wake := false, false, false;
      pending, ready, running := None, None, None;
      invs, accepted := [], [];
    }

    /** The wake channel holds one token; a full channel drops the send. */
    method NotifyWorker()
      modifies `wake
      ensures wake
    {
      if !wake {
        wake := true;
      }
    }

    method TriggerValue(value: Value, now: int) returns (ok: bool)
      requires SlotsExist(Snapshot().core)
      modifies this
      ensures Snapshot() == Trigger(old(Snapshot()), delay, value, now) && ok == !old(Refuses(Snapshot()))
    {
      if closed || canceled {
        return false;
      }
      var n := |accepted|;
      if pending.None? {
        pending := Some(|invs|);
        invs := invs + [Invocation(ZERO, 0, Open, 0, false, n)];
      }
      var p := pending.value;
      invs := invs[p := invs[p].(value := value, due := now + delay, latest := n)];
      accepted := accepted + [Accepted(value, now, p)];
      NotifyWorker();
      return true;
    }

    method SelectFlush() returns (selection: Selection)
      requires SlotsExist(Snapshot().core)
      modifies this
      ensures Snapshot() == Freeze(old(Snapshot())) && selection == Select(old(Snapshot()))
    {
      if closed || canceled {
        return SelectedClosed;
      }
      if ready.Some? {
        return Selected(ready.value, pending.Some?);
      }
      if pending.Some? {
        ready, pending := pending, None;
        invs := invs[ready.value := invs[ready.value].(frozen := true)];
        NotifyWorker();
        return Selected(ready.value, false);
      }
      return if running.Some? then Selected(running.value, false) else SelectedIdle;
    }

    method CompleteSlot(slot: nat, outcome: Outcome)
      requires slot < |invs|
      modifies `invs
      ensures invs == Complete(old(invs), Some(slot), outcome)
    {
      invs := invs[slot := invs[slot].(value := ZERO, outcome := outcome, closes := invs[slot].closes + 1)];
    }

    method StopOnce()
      requires SlotsExist(Snapshot().core)
      modifies this
      ensures Snapshot() == Stop(old(Snapshot()))
    {
      if closed {
        return;
      }
      closed := true;
      canceled := true;
      if pending.Some? {
        CompleteSlot(pending.value, Discarded);
        pending := None;
      }
      if ready.Some? {
        CompleteSlot(ready.value, Discarded);
        ready := None;
      }
      NotifyWorker();
    }

    method NextCall(now: int) returns (next: Next)
      requires SlotsExist(Snapshot().core)
      modifies this
      ensures Snapshot() == TakeNext(old(Snapshot()), now) && next == NextResult(old(Snapshot()), now)
    {
      if closed || canceled {
        return Exit;
      }
      if ready.Some? {
        running, ready := ready, None;
        return Run(running.value);
      }
      if pending.None? {
        return Wait(None, 0);
      }
      var due := invs[pending.value].due;
      if due - now > 0 {
        return Wait(Some(due), due - now);
      }
      running, pending := pending, None;
      return Run(running.value);
    }

    method FinishRunning(err: Option<string>)
      requires SlotsExist(Snapshot().core) && running.Some?
      modifies this
      ensures Snapshot() == old(Snapshot()).(core := Finish(old(Snapshot()).core, err))
    {
      CompleteSlot(running.value, Handled(err));
      running := None;
    }
  }
}
