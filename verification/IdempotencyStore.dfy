/**
 The token-fenced claim protocol of the in-memory idempotency store (idempotency/memory/store.go),
 first as operations on a ledger that never cleans up, then as the real store with its single
 nextCleanup watermark.
 */
module IdempotencyLedger {
  import opened Options

  datatype Status = InProgress | Completed

  datatype Record = Record(status: Status, token: string, fingerprint: string, data: seq<bv8>, expiresAt: int)

  type Records = map<string, Record>

  datatype Op =
    | Begin(key: string, token: string, fingerprint: string, ttl: int)
    | Complete(key: string, token: string, result: seq<bv8>, ttl: int)
    | Abort(key: string, token: string)

  datatype Reply =
    | Acquired
    | Found(status: Status, data: seq<bv8>)
    | KeyConflict
    | Done
    | ClaimLost

  datatype Write = Keep | Put(record: Record) | Delete

  datatype Ruling = Ruling(write: Write, reply: Reply)

  /** What an operation does, given the unexpired record of its key, if there is one. */
  function Rule(current: Option<Record>, op: Op, now: int): Ruling {
    match op
    case Begin(_, token, fingerprint, ttl) =>
      if current.None? then
        Ruling(Put(Record(InProgress, token, fingerprint, [], now + ttl)), Acquired)
      else if fingerprint != "" && fingerprint != current.value.fingerprint then
        Ruling(Keep, KeyConflict)
      else
        Ruling(Keep, Found(current.value.status, current.value.data))
    case Complete(_, token, result, ttl) =>
      if Owns(current, token) then
        Ruling(Put(current.value.(status := Completed, token := "", data := result, expiresAt := now + ttl)), Done)
      else
        Ruling(Keep, ClaimLost)
    case Abort(_, token) =>
      if Owns(current, token) then Ruling(Delete, Done) else Ruling(Keep, ClaimLost)
  }

  predicate Owns(current: Option<Record>, token: string) {
    current.Some? && current.value.status == InProgress && current.value.token == token
  }

  function Apply(records: Records, key: string, write: Write): Records {
    match write
    case Keep => records
    case Put(record) => records[key := record]
    case Delete => records - {key}
  }

  /** The record of key unless it has expired. */
  function Unexpired(records: Records, key: string, now: int): Option<Record> {
    if key in records && now < records[key].expiresAt then Some(records[key]) else None
  }

  datatype Event = Event(op: Op, now: int)

  datatype Run = Run(records: Records, replies: seq<Reply>)

  predicate ClockMovesForward(events: seq<Event>) {
    forall i, j :: 0 <= i <= j < |events| ==> events[i].now <= events[j].now
  }

  /** The reference: nothing is ever cleaned up, a record simply stops counting at its expiry. */
  function LedgerRun(events: seq<Event>): (run: Run)
    ensures |run.replies| == |events|
  {
    if events == [] then Run(map[], []) else
      var last := |events| - 1;
      var before := LedgerRun(events[..last]);
      var op, now := events[last].op, events[last].now;
      var ruling := Rule(Unexpired(before.records, op.key, now), op, now);
      Run(Apply(before.records, op.key, ruling.write), before.replies + [ruling.reply])
  }

  /** The records that have not expired. */
  function Live(records: Records, now: int): Records {
    map key | key in records && now < records[key].expiresAt :: records[key]
  }

  function Lookup(records: Records, key: string): Option<Record> {
    if key in records then Some(records[key]) else None
  }

  /** A store that drops expired records before each operation. */
  function EagerRun(events: seq<Event>): (run: Run)
    ensures |run.replies| == |events|
  {
    if events == [] then Run(map[], []) else
      var last := |events| - 1;
      var before := EagerRun(events[..last]);
      var op, now := events[last].op, events[last].now;
      var live := Live(before.records, now);
      var ruling := Rule(Lookup(live, op.key), op, now);
      Run(Apply(live, op.key, ruling.write), before.replies + [ruling.reply])
  }

  /** The eager store holds a part of the ledger, and what it lacks has expired. */
  ghost predicate Dropped(store: Records, ledger: Records, now: int) {
    && (forall key :: key in store ==> key in ledger && ledger[key] == store[key])
    && (forall key :: key in ledger && key !in store ==> ledger[key].expiresAt <= now)
  }

  lemma {:induction false} EagerAnswersLikeLedger(events: seq<Event>)
    requires ClockMovesForward(events)
    ensures EagerRun(events).replies == LedgerRun(events).replies
    ensures events != [] ==> Dropped(EagerRun(events).records, LedgerRun(events).records, events[|events| - 1].now)
  {
    if events != [] {
      var last := |events| - 1;
      var before := events[..last];
      EagerAnswersLikeLedger(before);
      var store, ledger := EagerRun(before).records, LedgerRun(before).records;
      var op, now := events[last].op, events[last].now;
      if before != [] {
        assert before[last - 1].now <= now;
      }
      assert Dropped(store, ledger, now);
      assert Lookup(Live(store, now), op.key) == Unexpired(ledger, op.key, now);
    }
  }
}

/** The store itself. */
module IdempotencyStore {
  import opened Options
  import opened IdempotencyLedger

  datatype StoreError = InvalidContext | Canceled(cause: string)

  datatype Context = NilContext | Context(cause: Option<string>) {
    function Error(): Option<StoreError> {
      if NilContext? then Some(InvalidContext)
      else if cause.Some? then Some(Canceled(cause.value))
      else None
    }
  }

  class Store {
    var records: Records
    var nextCleanup: Option<int>

    /** The watermark is set while any record is held and is no later than any expiry. */
    ghost predicate Valid()
      reads this
    {
      if nextCleanup.None? then records == map[]
      else forall key :: key in records ==> nextCleanup.value <= records[key].expiresAt
    }

    constructor ()
      ensures Valid() && records == map[]
    {
      records := map[];
      nextCleanup := None;
    }

    method ScheduleCleanup(expiresAt: int)
      modifies `nextCleanup
      ensures nextCleanup == Some(if old(nextCleanup).None? || expiresAt < old(nextCleanup).value
                                  then expiresAt else old(nextCleanup).value)
    {
      if nextCleanup.None? || expiresAt < nextCleanup.value {
        nextCleanup := Some(expiresAt);
      }
    }

    /**
     Skipping the scan below the watermark, and rebuilding the watermark while scanning, both leave exactly
     the live records.
     */
    method Cleanup(now: int)
      requires Valid()
      modifies this
      ensures Valid() && records == Live(old(records), now)
    {
      if nextCleanup.None? || now < nextCleanup.value {
        return;
      }
      nextCleanup := None;
      var pending := records.Keys;
      while pending != {}
        invariant pending <= records.Keys <= old(records).Keys
        invariant forall key :: key in records ==> records[key] == old(records)[key]
        invariant forall key :: key in records && key !in pending ==>
          now < records[key].expiresAt && nextCleanup.Some? && nextCleanup.value <= records[key].expiresAt
        invariant forall key :: key in old(records) && now < old(records)[key].expiresAt ==> key in records
        decreases |pending|
      {
        var key :| key in pending;
        pending := pending - {key};
        if !(now < records[key].expiresAt) {
          records := records - {key};
        } else {
          ScheduleCleanup(records[key].expiresAt);
        }
      }
    }

    /** Begin, Complete and Abort, each under the lock at clock reading now. */
    method Perform(ctx: Context, op: Op, now: int) returns (result: Result<Reply, StoreError>)
      requires Valid()
      modifies this
      ensures Valid()
      ensures ctx.Error().Some? ==> result == Err(ctx.Error().value) && records == old(records)
      ensures ctx.Error().None? ==>
                var live := Live(old(records), now);
                var ruling := Rule(Lookup(live, op.key), op, now);
                result == Ok(ruling.reply) && records == Apply(live, op.key, ruling.write)
    {
      if ctx.Error().Some? {
        return Err(ctx.Error().value);
      }
      var reply;
      match op {
        case Begin(key, token, fingerprint, ttl) =>
          reply := BeginClaim(key, token, fingerprint, ttl, now);
        case Complete(key, token, data, ttl) =>
          reply := CompleteClaim(key, token, data, ttl, now);
        case Abort(key, token) =>
          reply := AbortClaim(key, token, now);
      }
      return Ok(reply);
    }

    method BeginClaim(key: string, token: string, fingerprint: string, ttl: int, now: int) returns (reply: Reply)
      requires Valid()
      modifies this
      ensures Valid()
      ensures var live := Live(old(records), now);
              var ruling := Rule(Lookup(live, key), Begin(key, token, fingerprint, ttl), now);
              reply == ruling.reply && records == Apply(live, key, ruling.write)
    {
      Cleanup(now);
      if key !in records {
        var expiresAt := now + ttl;
        records := records[key := Record(InProgress, token, fingerprint, [], expiresAt)];
        ScheduleCleanup(expiresAt);
        return Acquired;
      }
      var current := records[key];
      if fingerprint != "" && fingerprint != current.fingerprint {
        return KeyConflict;
      }
      return Found(current.status, current.data);
    }

    method CompleteClaim(key: string, token: string, data: seq<bv8>, ttl: int, now: int) returns (reply: Reply)
      requires Valid()
      modifies this
      ensures Valid()
      ensures var live := Live(old(records), now);
              var ruling := Rule(Lookup(live, key), Complete(key, token, data, ttl), now);
              reply == ruling.reply && records == Apply(live, key, ruling.write)
    {
      Cleanup(now);
      if key !in records || records[key].status != InProgress || records[key].token != token {
        return ClaimLost;
      }
      var expiresAt := now + ttl;
      records := records[key := records[key].(status := Completed, token := "", data := data, expiresAt := expiresAt)];
      ScheduleCleanup(expiresAt);
      return Done;
    }

    method AbortClaim(key: string, token: string, now: int) returns (reply: Reply)
      requires Valid()
      modifies this
      ensures Valid()
      ensures var live := Live(old(records), now);
              var ruling := Rule(Lookup(live, key), Abort(key, token), now);
              reply == ruling.reply && records == Apply(live, key, ruling.write)
    {
      Cleanup(now);
      if key !in records || records[key].status != InProgress || records[key].token != token {
        return ClaimLost;
      }
      records := records - {key};
      return Done;
    }
  }

  /** A client that puts any list of operations to one store: it answers like the ledger that never cleans up. */
  method Serve(events: seq<Event>) returns (replies: seq<Reply>)
    requires ClockMovesForward(events)
    ensures replies == LedgerRun(events).replies
  {
    var store := new Store();
    replies := [];
    for i := 0 to |events|
      invariant store.Valid() && fresh(store)
      invariant EagerRun(events[..i]) == Run(store.records, replies)
    {
      assert events[..i + 1][..i] == events[..i];
      var result := store.Perform(Context(None), events[i].op, events[i].now);
      replies := replies + [result.value];
    }
    assert events[..|events|] == events;
    EagerAnswersLikeLedger(events);
  }
}
