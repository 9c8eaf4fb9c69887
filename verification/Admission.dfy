/**
 The admission protocol shared by the batcher and the worker pool (batcher/batcher.go, parallel/pool.go):
 a bounded channel, a closed flag under a mutex, a count of registered submitters, and a closer that
 waits for that count before closing the channel. Every mutex section, channel operation and
 wait-group operation is one step. What Go would punish with a panic is recorded as a fault.
 */
module Admission {
  /** A Submit call between registering and its deferred Done: in its select, or leaving with its answer. */
  datatype Submitter<T> = Selecting(request: T) | Leaving(accepted: bool)

  /** The goroutine started by stop. */
  datatype Closer = NotStarted | WaitingForSubmitters | ChannelClosed

  datatype Gate<T> = Gate(
    capacity: nat,
    closed: bool,                        // the flag, and with it the closing channel
    submitters: map<nat, Submitter<T>>,
    count: int,                          // the wait group's counter
    closer: Closer,
    queue: seq<T>,
    queueClosed: bool,
    accepted: seq<T>,                    // every request accepted, in order
    taken: nat,                          // how many of them have been received
    fault: bool)

  function Open<T>(capacity: nat): Gate<T> {
    Gate(capacity, false, map[], 0, NotStarted, [], false, [], 0, false)
  }

  datatype Step<T> =
    | Register(id: nat, request: T)      // the mutex section of Submit; refused once closed
    | Send(id: nat)                      // the select chose the send, into the buffer
    | HandOff(id: nat)                   // the select chose the send, straight to a waiting receiver
    | GiveUp(id: nat)                    // the select chose the context
    | SeeClosing(id: nat)                // the select chose the closing channel
    | Leave(id: nat)                     // the deferred Done
    | TrySend(request: T)                // TrySubmit or TryAdd, under the mutex
    | TryHandOff(request: T)             // the same, straight to a waiting receiver
    | Stop                               // the once-guarded section of stop
    | CloseQueue                         // the closer, once the count is zero
    | Receive                            // a worker takes the oldest request

  predicate Enabled<T>(g: Gate<T>, s: Step<T>, receiverWaiting: bool) {
    match s
    case Register(id, _) => id !in g.submitters && !g.closed
    case Send(id) => id in g.submitters && g.submitters[id].Selecting? && |g.queue| < g.capacity
    case HandOff(id) => id in g.submitters && g.submitters[id].Selecting? && g.queue == [] && receiverWaiting
    case GiveUp(id) => id in g.submitters && g.submitters[id].Selecting?
    case SeeClosing(id) => id in g.submitters && g.submitters[id].Selecting? && g.closed
    case Leave(id) => id in g.submitters && g.submitters[id].Leaving?
    case TrySend(_) => !g.closed && |g.queue| < g.capacity
    case TryHandOff(_) => !g.closed && g.queue == [] && receiverWaiting
    case Stop => g.closer == NotStarted
    case CloseQueue => g.closer == WaitingForSubmitters && g.count == 0
    case Receive => g.queue != [] && receiverWaiting
  }

  /** A send: accepted into the buffer, or received on the spot. Sending on a closed channel panics. */
  function Accept<T>(g: Gate<T>, request: T, handOff: bool): Gate<T> {
    if g.queueClosed then g.(fault := true)
    else if handOff then g.(accepted := g.accepted + [request], taken := g.taken + 1)
    else g.(accepted := g.accepted + [request], queue := g.queue + [request])
  }

  function Next<T>(g: Gate<T>, s: Step<T>, receiverWaiting: bool): Gate<T>
    requires Enabled(g, s, receiverWaiting)
  {
    match s
    case Register(id, request) =>
      // registering while the closer waits would race with its Wait
      g.(submitters := g.submitters[id := Selecting(request)], count := g.count + 1,
         fault := g.fault || g.closer != NotStarted)
    case Send(id) => Accept(g, g.submitters[id].request, false).(submitters := g.submitters[id := Leaving(true)])
    case HandOff(id) => Accept(g, g.submitters[id].request, true).(submitters := g.submitters[id := Leaving(true)])
    case GiveUp(id) => g.(submitters := g.submitters[id := Leaving(false)])
    case SeeClosing(id) => g.(submitters := g.submitters[id := Leaving(false)])
    case Leave(id) =>
      g.(submitters := g.submitters - {id}, count := g.count - 1, fault := g.fault || g.count <= 0)
    case TrySend(request) => Accept(g, request, false)
    case TryHandOff(request) => Accept(g, request, true)
    case Stop => g.(closed := true, closer := WaitingForSubmitters, fault := g.fault || g.closed)
    case CloseQueue => g.(closer := ChannelClosed, queueClosed := true, fault := g.fault || g.queueClosed)
    case Receive => g.(queue := g.queue[1..], taken := g.taken + 1)
  }

  /** The request a step hands to a worker. */
  function Received<T>(g: Gate<T>, s: Step<T>, receiverWaiting: bool): (r: T)
    requires Enabled(g, s, receiverWaiting) && Delivers(s)
  {
    match s
    case Receive => g.queue[0]
    case HandOff(id) => g.submitters[id].request
    case TryHandOff(request) => request
  }

  predicate Delivers<T>(s: Step<T>) {
    s.Receive? || s.HandOff? || s.TryHandOff?
  }

  /** The wait group counts the submitters. */
  ghost predicate Counted<T>(g: Gate<T>) {
    g.count == |g.submitters|
  }

  ghost predicate Inv<T>(g: Gate<T>) {
    && Counted(g)
    && (g.closed <==> g.closer != NotStarted)
    && (g.queueClosed <==> g.closer == ChannelClosed)
    && (g.queueClosed ==> g.submitters == map[])
    && |g.queue| <= g.capacity
    && g.taken <= |g.accepted| && g.queue == g.accepted[g.taken..]
    && !g.fault
  }

  lemma RemoveCounts<T>(m: map<nat, T>, id: nat)
    requires id in m
    ensures |m - {id}| == |m| - 1
  {
    assert (m - {id}).Keys == m.Keys - {id};
    assert |(m - {id}).Keys| == |m - {id}|;
    assert |m.Keys| == |m|;
  }

  lemma AddCounts<T>(m: map<nat, T>, id: nat, v: T)
    ensures |m[id := v]| == |m| + (if id in m then 0 else 1)
  {
    assert m[id := v].Keys == m.Keys + {id};
    assert |m[id := v].Keys| == |m[id := v]| && |m.Keys| == |m|;
  }

  lemma StepKeepsCount<T>(g: Gate<T>, s: Step<T>, receiverWaiting: bool)
    requires Counted(g) && Enabled(g, s, receiverWaiting)
    ensures Counted(Next(g, s, receiverWaiting))
  {
    match s
    case Register(id, request) => AddCounts(g.submitters, id, Selecting(request));
    case Send(id) => AddCounts(g.submitters, id, Leaving(true));
    case HandOff(id) => AddCounts(g.submitters, id, Leaving(true));
    case GiveUp(id) => AddCounts(g.submitters, id, Leaving(false));
    case SeeClosing(id) => AddCounts(g.submitters, id, Leaving(false));
    case Leave(id) => RemoveCounts(g.submitters, id);
    case _ =>
  }

  lemma CountMeansSubmitters<T>(g: Gate<T>)
    requires Counted(g)
    ensures g.count == 0 <==> g.submitters == map[]
    ensures g.count >= 0
  {
  }

  /**
   Every step keeps the protocol sound: no send reaches a closed channel, the channel is closed once and
   only with no submitter left, and no submitter registers once the wait has begun.
   */
  lemma StepKeepsInv<T>(g: Gate<T>, s: Step<T>, receiverWaiting: bool)
    requires Inv(g) && Enabled(g, s, receiverWaiting)
    ensures Inv(Next(g, s, receiverWaiting))
  {
    hide Counted;
    StepKeepsCount(g, s, receiverWaiting);
    CountMeansSubmitters(g);
    if s.Leave? {
      assert s.id in g.submitters;
    }
  }

  /**
   What a step answers: the request its caller is told was accepted, if any. TrySubmit answers on the
   spot; a submitter learns its answer as it leaves its select.
   */
  function Told<T>(g: Gate<T>, s: Step<T>, h: Gate<T>): seq<T> {
    if s.TrySend? || s.TryHandOff? then [s.request]
    else if (s.Send? || s.HandOff? || s.GiveUp? || s.SeeClosing?)
            && s.id in g.submitters && g.submitters[s.id].Selecting? && s.id in h.submitters
            && h.submitters[s.id] == Leaving(true) then [g.submitters[s.id].request]
    else []
  }

  /** A submitter keeps its request until it is answered, and its answer until it has left. */
  ghost predicate KeepsOthers<T>(g: Gate<T>, h: Gate<T>, id: nat) {
    && (forall i :: i != id ==> (i in g.submitters <==> i in h.submitters))
    && (forall i :: i != id && i in g.submitters && i in h.submitters ==> h.submitters[i] == g.submitters[i])
  }

  /**
   The answers are true: exactly the requests whose callers are told so are accepted. A submitter that
   leaves its select is answered, one that registers waits with its own request, and no step touches
   another submitter.
   */
  lemma AnswersAreTrue<T>(g: Gate<T>, s: Step<T>, receiverWaiting: bool)
    requires Inv(g) && Enabled(g, s, receiverWaiting)
    ensures var h := Next(g, s, receiverWaiting);
            && h.accepted == g.accepted + Told(g, s, h)
            && (s.Register? ==> s.id in h.submitters && h.submitters[s.id] == Selecting(s.request))
            && (s.Send? || s.HandOff? ==> s.id in h.submitters && h.submitters[s.id] == Leaving(true))
            && (s.GiveUp? || s.SeeClosing? ==> s.id in h.submitters && h.submitters[s.id] == Leaving(false))
            && (s.Register? || s.Send? || s.HandOff? || s.GiveUp? || s.SeeClosing? || s.Leave? ==>
                  KeepsOthers(g, h, s.id))
            && (s.TrySend? || s.TryHandOff? || s.Stop? || s.CloseQueue? || s.Receive? ==> h.submitters == g.submitters)
            && (h.closed <==> g.closed || s.Stop?)
  {
  }

  /** Requests are received in acceptance order, and nothing accepted is forgotten or altered. */
  lemma StepIsFifo<T>(g: Gate<T>, s: Step<T>, receiverWaiting: bool)
    requires Inv(g) && Enabled(g, s, receiverWaiting)
    ensures var h := Next(g, s, receiverWaiting);
            && g.accepted <= h.accepted
            && h.taken == g.taken + (if Delivers(s) then 1 else 0)
            && (Delivers(s) ==> h.taken <= |h.accepted| && Received(g, s, receiverWaiting) == h.accepted[g.taken])
  {
  }

  /** Once the channel is closed only receiving is left. */
  lemma ClosedAcceptsNothing<T>(g: Gate<T>, s: Step<T>, receiverWaiting: bool)
    requires Inv(g) && Enabled(g, s, receiverWaiting) && g.queueClosed
    ensures s.Receive?
  {
  }

  // ----- draining -----

  function SelectingIds<T>(m: map<nat, Submitter<T>>): set<nat> {
    set id | id in m && m[id].Selecting?
  }

  function LeavingIds<T>(m: map<nat, Submitter<T>>): set<nat> {
    set id | id in m && m[id].Leaving?
  }

  /** What is left to do at the gate once it is closed. */
  function Load<T>(g: Gate<T>): nat {
    8 * |SelectingIds(g.submitters)| + |LeavingIds(g.submitters)| + 5 * |g.queue|
    + (if g.closer == WaitingForSubmitters then 1 else 0)
  }

  lemma AnsweredMoves<T>(m: map<nat, Submitter<T>>, id: nat, accepted: bool)
    requires id in m && m[id].Selecting?
    ensures |SelectingIds(m[id := Leaving(accepted)])| == |SelectingIds(m)| - 1
    ensures |LeavingIds(m[id := Leaving(accepted)])| == |LeavingIds(m)| + 1
  {
    var n := m[id := Leaving(accepted)];
    assert SelectingIds(n) == SelectingIds(m) - {id};
    assert LeavingIds(n) == LeavingIds(m) + {id};
  }

  lemma LeaverGoes<T>(m: map<nat, Submitter<T>>, id: nat)
    requires id in m && m[id].Leaving?
    ensures SelectingIds(m - {id}) == SelectingIds(m)
    ensures |LeavingIds(m - {id})| == |LeavingIds(m)| - 1
  {
    assert LeavingIds(m - {id}) == LeavingIds(m) - {id};
  }

  /** After stop every step brings the drain closer to its end. */
  lemma LoadDecreases<T>(g: Gate<T>, s: Step<T>, receiverWaiting: bool)
    requires Inv(g) && Enabled(g, s, receiverWaiting) && g.closed
    ensures Next(g, s, receiverWaiting).closed
    ensures Load(Next(g, s, receiverWaiting)) <= Load(g) - (if Delivers(s) then 5 else 1)
  {
    match s
    case Send(id) => AnsweredMoves(g.submitters, id, true);
    case HandOff(id) => AnsweredMoves(g.submitters, id, true);
    case GiveUp(id) => AnsweredMoves(g.submitters, id, false);
    case SeeClosing(id) => AnsweredMoves(g.submitters, id, false);
    case Leave(id) => LeaverGoes(g.submitters, id);
    case CloseQueue =>
    case Receive =>
  }

  /** A closed gate is never stuck: some step is possible until the channel is closed and empty. */
  lemma ClosedGateMoves<T>(g: Gate<T>) returns (s: Step<T>)
    requires Inv(g) && g.closed && !(g.queueClosed && g.queue == [])
    ensures Enabled(g, s, true)
    ensures s.Receive? <==> g.queue != []
  {
    if g.queue != [] {
      return Receive;
    }
    if id :| id in g.submitters {
      return if g.submitters[id].Selecting? then SeeClosing(id) else Leave(id);
    }
    CountMeansSubmitters(g);
    assert g.submitters == map[];
    return CloseQueue;
  }

  // ----- the same sections as methods on fields -----

  datatype Answer = Accepted | ErrClosed | ErrFull

  class Admitter<T> {
    const capacity: nat
    var closed: bool
    var submitters: map<nat, Submitter<T>>
    var count: int
    var closer: Closer
    var queue: seq<T>
    var queueClosed: bool
    var accepted: seq<T>
    var taken: nat

    ghost function Snapshot(): Gate<T>
      reads this
    {
      Gate(capacity, closed, submitters, count, closer, queue, queueClosed, accepted, taken, false)
    }

    ghost predicate Valid()
      reads this
    {
      Inv(Snapshot())
    }

    constructor (capacity: nat)
      ensures Valid() && Snapshot() == Open(capacity)
    {
      this.capacity := capacity;
      closed, queueClosed, closer := false, false, NotStarted;
      submitters, count := map[], 0;
      queue, accepted, taken := [], [], 0;
    }

    /** The mutex section of Submit. */
    method RegisterSubmitter(id: nat, request: T) returns (ok: bool)
      requires Valid() && id !in submitters
      modifies this
      ensures Valid() && ok == !old(closed)
      ensures Snapshot() == if ok then Next(old(Snapshot()), Register(id, request), false) else old(Snapshot())
    {
      if closed {
        return false;
      }
      StepKeepsInv(Snapshot(), Register(id, request), false);
      count := count + 1;
      submitters := submitters[id := Selecting(request)];
      return true;
    }

    /** TrySubmit and TryAdd: never waits, and says why when it refuses. */
    method TrySubmit(request: T, receiverWaiting: bool) returns (answer: Answer)
      requires Valid()
      modifies this
      ensures Valid()
      ensures answer == if old(closed) then ErrClosed
                        else if |old(queue)| < capacity || (old(queue) == [] && receiverWaiting) then Accepted
                        else ErrFull
      ensures if answer != Accepted then Snapshot() == old(Snapshot())
              else if old(queue) == [] && receiverWaiting then
                Snapshot() == Next(old(Snapshot()), TryHandOff(request), true)
              else Snapshot() == Next(old(Snapshot()), TrySend(request), false)
    {
      if closed {
        return ErrClosed;
      }
      if queue == [] && receiverWaiting {
        StepKeepsInv(Snapshot(), TryHandOff(request), true);
        accepted, taken := accepted + [request], taken + 1;
        return Accepted;
      }
      if |queue| < capacity {
        StepKeepsInv(Snapshot(), TrySend(request), false);
        accepted, queue := accepted + [request], queue + [request];
        return Accepted;
      }
      return ErrFull;
    }

    /** stop: the first call closes admission, later ones change nothing. */
    method StopOnce()
      requires Valid()
      modifies this
      ensures Valid() && closed
      ensures Snapshot() == if old(closer) == NotStarted then Next(old(Snapshot()), Stop, false) else old(Snapshot())
    {
      if closer != NotStarted {
        return;
      }
      StepKeepsInv(Snapshot(), Stop, false);
      closed := true;
      closer := WaitingForSubmitters;
    }
  }
}
