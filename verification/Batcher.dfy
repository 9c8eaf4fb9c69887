/**
 The batcher's worker (batcher/worker.go): what it does with the requests it receives. An item request
 joins the current batch; a flush request is a barrier that closes it. The handler is an oracle: each
 call's error is a parameter of the step that makes it.
 */
module BatchWorker {
  import opened Options

  type Err = string

  /** mark is the number of requests accepted when Flush was called. */
  datatype Request<T> = Item(item: T) | Barrier(mark: nat)

  datatype Batch<T> = Batch(items: seq<T>, err: Option<Err>)

  /** A completed barrier: its position among the requests, and how many batches had been handled. */
  datatype Completion = Completion(pos: nat, batches: nat, err: Option<Err>)

  /** The flush timer: while armed, when it was started and when it fires. */
  datatype Timer = Off | Armed(at: int, fireAt: int)

  /** When the worker received an item and when it took it into the batch. */
  datatype Stamp = Stamp(received: int, taken: int)

  /** The flush interval, when the worker received the request at hand, and the clock while it accepts it. */
  datatype Timing = Timing(interval: int, received: int, now: int)

  /**
   The worker's fields, with the requests seen, batches handled and barriers completed so far, and the
   times of each item of the current batch.
   */
  datatype State<T> = State(
    batch: seq<T>,
    times: seq<Stamp>,
    timer: Timer,
    firstErr: Option<Err>,
    seen: seq<Request<T>>,
    handled: seq<Batch<T>>,
    completions: seq<Completion>)

  function Start<T>(): State<T> {
    State([], [], Off, None, [], [], [])
  }

  /** flush: hands a non-empty batch to the handler and remembers the first error. */
  function Flushed<T>(w: State<T>, err: Option<Err>): State<T> {
    if w.batch == [] then w else
      w.(batch := [], times := [], timer := Off, handled := w.handled + [Batch(w.batch, err)],
         firstErr := if w.firstErr.None? then err else w.firstErr)
  }

  /** The first item of a batch starts the timer. */
  function Grown<T>(w: State<T>, item: T, t: Timing): State<T> {
    w.(batch := w.batch + [item],
       times := w.times + [Stamp(t.received, t.now)],
       timer := if w.batch == [] then Armed(t.now, t.now + t.interval) else w.timer,
       seen := w.seen + [Item(item)])
  }

  /** accept. */
  function Processed<T>(w: State<T>, size: nat, request: Request<T>, err: Option<Err>, t: Timing): State<T> {
    match request
    case Barrier(_) =>
      var f := Flushed(w, err);
      f.(seen := w.seen + [request],
         completions := w.completions + [Completion(|w.seen|, |f.handled|, f.firstErr)])
    case Item(item) =>
      var grown := Grown(w, item, t);
      if |grown.batch| == size then Flushed(grown, err) else grown
  }

  function Items<T>(requests: seq<Request<T>>): seq<T> {
    if requests == [] then [] else
      var last := requests[|requests| - 1];
      Items(requests[..|requests| - 1]) + (if last.Item? then [last.item] else [])
  }

  function Flat<T>(batches: seq<Batch<T>>): seq<T> {
    if batches == [] then [] else Flat(batches[..|batches| - 1]) + batches[|batches| - 1].items
  }

  /** The error of the earliest batch that failed. */
  function FirstError<T>(batches: seq<Batch<T>>): Option<Err> {
    if batches == [] then None
    else if batches[0].err.Some? then batches[0].err
    else FirstError(batches[1..])
  }

  function BarrierPositions<T>(requests: seq<Request<T>>): seq<nat> {
    if requests == [] then [] else
      var last := |requests| - 1;
      BarrierPositions(requests[..last]) + (if requests[last].Barrier? then [last] else [])
  }

  /** When the barrier completed, exactly the items before it had been handled, with that first error. */
  ghost predicate Served<T>(seen: seq<Request<T>>, handled: seq<Batch<T>>, c: Completion) {
    && c.pos < |seen| && seen[c.pos].Barrier?
    && c.batches <= |handled|
    && Flat(handled[..c.batches]) == Items(seen[..c.pos])
    && c.err == FirstError(handled[..c.batches])
  }

  /** Every barrier seen has been completed, once, in order. */
  ghost predicate BarriersServed<T>(w: State<T>) {
    && |w.completions| == |BarrierPositions(w.seen)|
    && forall k :: 0 <= k < |w.completions| ==>
         w.completions[k].pos == BarrierPositions(w.seen)[k] && Served(w.seen, w.handled, w.completions[k])
  }

  ghost predicate WellSized<T>(batches: seq<Batch<T>>, size: nat) {
    forall i :: 0 <= i < |batches| ==> 1 <= |batches[i].items| <= size
  }

  /** The worker's invariant: nothing lost, nothing reordered, nothing handled twice. */
  ghost predicate Fits<T>(w: State<T>, size: nat) {
    && Flat(w.handled) + w.batch == Items(w.seen)
    && WellSized(w.handled, size) && |w.batch| < size
    && (w.timer.Armed? <==> w.batch != []) && |w.times| == |w.batch|
    && w.firstErr == FirstError(w.handled)
    && BarriersServed(w)
  }

  lemma FlatAppend<T>(batches: seq<Batch<T>>, b: Batch<T>)
    ensures Flat(batches + [b]) == Flat(batches) + b.items
  {
    assert (batches + [b])[..|batches|] == batches;
  }

  lemma ItemsAppend<T>(requests: seq<Request<T>>, r: Request<T>)
    ensures Items(requests + [r]) == Items(requests) + (if r.Item? then [r.item] else [])
    ensures BarrierPositions(requests + [r]) == BarrierPositions(requests) + (if r.Barrier? then [|requests|] else [])
  {
    assert (requests + [r])[..|requests|] == requests;
  }

  lemma {:induction false} FirstErrorAppend<T>(batches: seq<Batch<T>>, b: Batch<T>)
    ensures FirstError(batches + [b]) == if FirstError(batches).None? then b.err else FirstError(batches)
  {
    if batches != [] {
      assert (batches + [b])[1..] == batches[1..] + [b];
      FirstErrorAppend(batches[1..], b);
    } else {
      assert ([b])[1..] == [];
    }
  }

  /** Later requests and batches do not disturb a barrier already served. */
  lemma ServedCarries<T>(seen: seq<Request<T>>, handled: seq<Batch<T>>, more: seq<Request<T>>, later: seq<Batch<T>>,
      c: Completion)
    requires Served(seen, handled, c)
    ensures Served(seen + more, handled + later, c)
  {
    assert (seen + more)[..c.pos] == seen[..c.pos];
    assert (handled + later)[..c.batches] == handled[..c.batches];
  }

  lemma BarriersCarry<T>(w: State<T>, later: seq<Batch<T>>)
    requires BarriersServed(w)
    ensures BarriersServed(w.(handled := w.handled + later))
  {
    forall k | 0 <= k < |w.completions|
      ensures Served(w.seen, w.handled + later, w.completions[k])
    {
      ServedCarries(w.seen, w.handled, [], later, w.completions[k]);
      assert w.seen + [] == w.seen;
    }
  }

  lemma ItemCarriesBarriers<T>(w: State<T>, item: T)
    requires BarriersServed(w)
    ensures BarriersServed(w.(seen := w.seen + [Item(item)]))
  {
    ItemsAppend(w.seen, Item(item));
    forall k | 0 <= k < |w.completions|
      ensures Served(w.seen + [Item(item)], w.handled, w.completions[k])
    {
      ServedCarries(w.seen, w.handled, [Item(item)], [], w.completions[k]);
      assert w.handled + [] == w.handled;
    }
  }

  lemma BarrierServesItself<T>(w: State<T>, mark: nat)
    requires BarriersServed(w) && Flat(w.handled) == Items(w.seen) && w.firstErr == FirstError(w.handled)
    ensures BarriersServed(w.(seen := w.seen + [Barrier(mark)],
                              completions := w.completions + [Completion(|w.seen|, |w.handled|, w.firstErr)]))
  {
    var seen := w.seen + [Barrier(mark)];
    ItemsAppend(w.seen, Barrier(mark));
    forall k | 0 <= k < |w.completions|
      ensures Served(seen, w.handled, w.completions[k])
    {
      ServedCarries(w.seen, w.handled, [Barrier(mark)], [], w.completions[k]);
      assert w.handled + [] == w.handled;
    }
    assert seen[..|w.seen|] == w.seen && w.handled[..|w.handled|] == w.handled;
  }

  /** A flush keeps everything but the bound on the batch, which may be full beforehand. */
  lemma FlushFits<T>(w: State<T>, size: nat, err: Option<Err>)
    requires size >= 1 && Flat(w.handled) + w.batch == Items(w.seen) && WellSized(w.handled, size) && |w.batch| <= size
    requires (w.timer.Armed? <==> w.batch != []) && |w.times| == |w.batch|
    requires w.firstErr == FirstError(w.handled) && BarriersServed(w)
    ensures Fits(Flushed(w, err), size) && Flushed(w, err).batch == []
    ensures Flushed(w, err).seen == w.seen && Flushed(w, err).completions == w.completions
  {
    hide BarriersServed;
    if w.batch != [] {
      var b := Batch(w.batch, err);
      FlatAppend(w.handled, b);
      FirstErrorAppend(w.handled, b);
      BarriersCarry(w, [b]);
      BarriersIgnore(w.(handled := w.handled + [b]), Flushed(w, err));
    }
  }

  /** Only the requests, the batches and the completions matter to the barriers. */
  lemma BarriersIgnore<T>(w: State<T>, v: State<T>)
    requires BarriersServed(w) && v.seen == w.seen && v.handled == w.handled && v.completions == w.completions
    ensures BarriersServed(v)
  {
  }

  lemma BarrierFits<T>(w: State<T>, size: nat, mark: nat, err: Option<Err>, t: Timing)
    requires size >= 1 && Fits(w, size)
    ensures Fits(Processed(w, size, Barrier(mark), err, t), size)
  {
    hide BarriersServed;
    FlushFits(w, size, err);
    var f, p := Flushed(w, err), Processed(w, size, Barrier(mark), err, t);
    assert Flat(f.handled) + [] == Flat(f.handled);
    BarrierServesItself(f, mark);
    BarriersIgnore(f.(seen := f.seen + [Barrier(mark)],
                      completions := f.completions + [Completion(|f.seen|, |f.handled|, f.firstErr)]), p);
    ItemsAppend(w.seen, Barrier(mark));
    assert Items(p.seen) == Items(w.seen);
  }

  lemma ItemFits<T>(w: State<T>, size: nat, item: T, err: Option<Err>, t: Timing)
    requires size >= 1 && Fits(w, size)
    ensures Fits(Processed(w, size, Item(item), err, t), size)
  {
    hide BarriersServed;
    var grown := Grown(w, item, t);
    ItemsAppend(w.seen, Item(item));
    ItemCarriesBarriers(w, item);
    BarriersIgnore(w.(seen := w.seen + [Item(item)]), grown);
    assert Flat(w.handled) + (w.batch + [item]) == (Flat(w.handled) + w.batch) + [item];
    if |grown.batch| == size {
      FlushFits(grown, size, err);
    }
  }

  /** Handling any request keeps the worker's invariant. */
  lemma ProcessedFits<T>(w: State<T>, size: nat, request: Request<T>, err: Option<Err>, t: Timing)
    requires size >= 1 && Fits(w, size)
    ensures Fits(Processed(w, size, request, err, t), size)
    ensures Processed(w, size, request, err, t).seen == w.seen + [request]
  {
    hide Fits;
    match request
    case Item(item) => ItemFits(w, size, item, err, t);
    case Barrier(mark) => BarrierFits(w, size, mark, err, t);
  }

  /** Items are received and taken in order of time. */
  ghost predicate InTime(times: seq<Stamp>, now: int) {
    && (forall i :: 0 <= i < |times| ==> times[i].received <= times[i].taken <= now)
    && (forall i, j :: 0 <= i <= j < |times| ==> times[i].received <= times[j].received)
  }

  /** The timer runs for exactly an interval from when the first item was taken into the batch. */
  ghost predicate TimerFits<T>(w: State<T>, interval: int, now: int) {
    && InTime(w.times, now)
    && (w.timer.Armed? && w.times != [] ==> w.timer.at == w.times[0].taken && w.timer.fireAt == w.timer.at + interval)
  }

  /** Receiving no earlier than the items before, and accepting no earlier than receiving, keeps it so. */
  lemma ProcessedTimer<T>(w: State<T>, size: nat, request: Request<T>, err: Option<Err>, t: Timing)
    requires Fits(w, size) && TimerFits(w, t.interval, t.now) && t.received <= t.now
    requires forall i :: 0 <= i < |w.times| ==> w.times[i].received <= t.received
    ensures TimerFits(Processed(w, size, request, err, t), t.interval, t.now)
  {
  }

  /** What the select in run chose: a request or a tick of the flush timer. */
  datatype Event<T> =
    | Got(request: Request<T>, err: Option<Err>, received: int, now: int)
    | Tick(err: Option<Err>, now: int)

  /** The requests of a script, in order. */
  function Requests<T>(script: seq<Event<T>>): seq<Request<T>> {
    if script == [] then [] else
      var last := script[|script| - 1];
      Requests(script[..|script| - 1]) + (if last.Got? then [last.request] else [])
  }

  class Worker<T> {
    const size: nat
    const interval: int
    var batch: seq<T>
    var times: seq<Stamp>  // history
    var timer: Timer
    var firstErr: Option<Err>
    var seen: seq<Request<T>>
    var handled: seq<Batch<T>>
    var completions: seq<Completion>

    function Snapshot(): State<T>
      reads this
    {
      State(batch, times, timer, firstErr, seen, handled, completions)
    }

    constructor (size: nat, interval: int)
      ensures Snapshot() == Start() && this.size == size && this.interval == interval
    {
      this.size, this.interval := size, interval;
      batch, times, timer, firstErr := [], [], Off, None;
      seen, handled, completions := [], [], [];
    }

    method Flush(err: Option<Err>)
      modifies this
      ensures Snapshot() == Flushed(old(Snapshot()), err)
    {
      if |batch| == 0 {
        return;
      }
      timer := Off;
      var taken := batch;
      batch, times := [], [];
      handled := handled + [Batch(taken, err)];
      if err.Some? && firstErr.None? {
        firstErr := err;
      }
    }

    method Accept(request: Request<T>, err: Option<Err>, received: int, now: int)
      modifies this
      ensures Snapshot() == Processed(old(Snapshot()), size, request, err, Timing(interval, received, now))
    {
      if request.Barrier? {
        Flush(err);
        completions := completions + [Completion(|seen|, |handled|, firstErr)];
        seen := seen + [request];
        return;
      }
      if |batch| == 0 {
        timer := Armed(now, now + interval);
      }
      batch := batch + [request.item];
      times := times + [Stamp(received, now)];
      seen := seen + [request];
      if |batch| == size {
        Flush(err);
      }
    }

    /** run over any schedule of requests and ticks, until the channel is closed and drained. */
    method Run(script: seq<Event<T>>, last: Option<Err>) returns (result: Option<Err>)
      requires size >= 1 && Snapshot() == Start()
      modifies this
      ensures Fits(Snapshot(), size) && batch == [] && Flat(handled) == Items(seen) && seen == Requests(script)
      ensures result == FirstError(handled)
    {
      StartFits<T>(size);
      for i := 0 to |script|
        invariant Fits(Snapshot(), size) && seen == Requests(script[..i])
      {
        assert script[..i + 1][..i] == script[..i];
        match script[i]
        case Got(request, err, received, now) =>
          ProcessedFits(Snapshot(), size, request, err, Timing(interval, received, now));
          Accept(request, err, received, now);
        case Tick(err, now) =>
          if timer.Armed? && timer.fireAt <= now {
            FlushFits(Snapshot(), size, err);
            Flush(err);
          }
      }
      assert script[..|script|] == script;
      FlushFits(Snapshot(), size, last);
      Flush(last);
      assert Flat(handled) + [] == Flat(handled);
      return firstErr;
    }
  }

  lemma StartFits<T>(size: nat)
    requires size >= 1
    ensures Fits(Start<T>(), size)
  {
  }
}
