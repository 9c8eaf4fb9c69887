/**
 What the claim protocol guarantees over every run of the store, whoever calls it and in whatever
 order: the clock moves forward and every Begin carries a token of its own.
 */
module IdempotencyClaims {
  import opened IdempotencyLedger

  ghost predicate FreshTokens(events: seq<Event>) {
    forall i, j :: 0 <= i < j < |events| && events[i].op.Begin? && events[j].op.Begin? ==>
      events[i].op.token != events[j].op.token
  }

  predicate AcquiredAt(events: seq<Event>, key: string, i: int)
    requires 0 <= i < |events|
  {
    events[i].op.Begin? && events[i].op.key == key && LedgerRun(events).replies[i] == Acquired
  }

  /** A Complete or an Abort that was accepted. */
  predicate SettledAt(events: seq<Event>, key: string, i: int)
    requires 0 <= i < |events|
  {
    !events[i].op.Begin? && events[i].op.key == key && LedgerRun(events).replies[i] == Done
  }

  predicate CompletedAt(events: seq<Event>, key: string, i: int)
    requires 0 <= i < |events|
  {
    events[i].op.Complete? && SettledAt(events, key, i)
  }

  lemma {:induction false} PrefixReplies(events: seq<Event>, n: nat)
    requires n <= |events|
    ensures LedgerRun(events[..n]).replies == LedgerRun(events).replies[..n]
    decreases |events|
  {
    var last := |events| - 1;
    if n == |events| {
      assert events[..n] == events;
    } else {
      PrefixReplies(events[..last], n);
      assert events[..last][..n] == events[..n];
    }
  }

  /** The event at i created the claim now held on key, and nothing has taken or settled it since. */
  ghost predicate Origin(events: seq<Event>, key: string, token: string, i: int) {
    && 0 <= i < |events| && AcquiredAt(events, key, i) && events[i].op.token == token
    && forall m :: i < m < |events| ==> !AcquiredAt(events, key, m) && !SettledAt(events, key, m)
  }

  lemma OriginCarries(events: seq<Event>, key: string, token: string, i: int)
    requires events != [] && Origin(events[..|events| - 1], key, token, i)
    requires !AcquiredAt(events, key, |events| - 1) && !SettledAt(events, key, |events| - 1)
    ensures Origin(events, key, token, i)
  {
    var last := |events| - 1;
    PrefixReplies(events, last);
    forall m | i < m < last
      ensures !AcquiredAt(events, key, m) && !SettledAt(events, key, m)
    {
      assert !AcquiredAt(events[..last], key, m) && !SettledAt(events[..last], key, m);
    }
    assert AcquiredAt(events[..last], key, i);
  }

  /** Every active claim on the ledger stems from the last acquisition of its key. */
  lemma {:induction false} ActiveClaimHasOrigin(events: seq<Event>, key: string) returns (i: int)
    requires key in LedgerRun(events).records && LedgerRun(events).records[key].status == InProgress
    ensures Origin(events, key, LedgerRun(events).records[key].token, i)
    ensures LedgerRun(events).records[key].expiresAt == events[i].now + events[i].op.ttl
  {
    var last := |events| - 1;
    var before := events[..last];
    var op, now := events[last].op, events[last].now;
    if AcquiredAt(events, key, last) {
      i := last;
    } else {
      i := ActiveClaimHasOrigin(before, key);
      OriginCarries(events, key, LedgerRun(events).records[key].token, i);
    }
  }

  /** The Begin behind an accepted Complete or Abort. */
  lemma ClaimOrigin(events: seq<Event>, key: string, j: int) returns (i: int)
    requires 0 <= j < |events| && SettledAt(events, key, j)
    ensures 0 <= i < j && AcquiredAt(events, key, i) && events[i].op.token == events[j].op.token
    ensures forall m :: i < m < j ==> !AcquiredAt(events, key, m) && !SettledAt(events, key, m)
  {
    var upTo, before := events[..j + 1], events[..j];
    PrefixReplies(events, j + 1);
    PrefixReplies(events, j);
    assert upTo[..j] == before;
    assert LedgerRun(upTo).replies[j] == Done;
    i := ActiveClaimHasOrigin(before, key);
    assert AcquiredAt(before, key, i);
    forall m | i < m < j
      ensures !AcquiredAt(events, key, m) && !SettledAt(events, key, m)
    {
      assert !AcquiredAt(before, key, m) && !SettledAt(before, key, m);
    }
  }

  /** Event j settles the claim that event i acquired, and no one acquired or settled the key in between. */
  ghost predicate Settles(events: seq<Event>, key: string, i: int, j: int)
    requires 0 <= j < |events|
  {
    && 0 <= i < j && AcquiredAt(events, key, i) && events[i].op.token == events[j].op.token
    && forall m :: i < m < j ==> !AcquiredAt(events, key, m) && !SettledAt(events, key, m)
  }

  /**
   A Complete or Abort is accepted only for the claim that is still the key's latest acquisition: its
   own Begin acquired the key, and no one acquired or settled the key in between.
   */
  lemma SettlingOwnsTheClaim(events: seq<Event>, key: string, j: int)
    requires 0 <= j < |events| && SettledAt(events, key, j)
    ensures exists i :: Settles(events, key, i, j)
  {
    var i := ClaimOrigin(events, key, j);
    assert Settles(events, key, i, j);
  }

  /** An overtaken claim can never record its result, nor remove its successor. */
  lemma OvertakenClaimIsLost(events: seq<Event>, key: string, i: int, j: int, m: int)
    requires FreshTokens(events) && 0 <= i < j < m < |events|
    requires AcquiredAt(events, key, i) && AcquiredAt(events, key, j)
    requires !events[m].op.Begin? && events[m].op.key == key && events[m].op.token == events[i].op.token
    ensures LedgerRun(events).replies[m] == ClaimLost
  {
    ReplyShapes(events, m);
    if SettledAt(events, key, m) {
      var origin := ClaimOrigin(events, key, m);
      assert false;
    }
  }

  lemma {:induction false} ReplyShapes(events: seq<Event>, m: int)
    requires 0 <= m < |events| && !events[m].op.Begin?
    ensures LedgerRun(events).replies[m] in {Done, ClaimLost}
  {
    PrefixReplies(events, m + 1);
    assert events[..m + 1][..m] == events[..m];
  }

  /** After a completion with result TTL, the key holds that result until the clock reaches its expiry. */
  ghost predicate ResultStands(events: seq<Event>, key: string, expiry: int, data: seq<bv8>) {
    var records := LedgerRun(events).records;
    || (events != [] && events[|events| - 1].now >= expiry)
    || (key in records && records[key].status == Completed && records[key].expiresAt == expiry
        && records[key].data == data)
  }

  /** No operation touches a completed record before its expiry. */
  lemma UnexpiredResultIsKept(records: Records, key: string, op: Op, now: int)
    requires key in records && records[key].status == Completed && now < records[key].expiresAt
    ensures var after := Apply(records, op.key, Rule(Unexpired(records, op.key, now), op, now).write);
            key in after && after[key] == records[key]
  {
  }

  lemma {:induction false} CompletedResultStands(events: seq<Event>, key: string, j: int)
    requires ClockMovesForward(events) && 0 <= j < |events| && CompletedAt(events, key, j)
    ensures ResultStands(events, key, events[j].now + events[j].op.ttl, events[j].op.result)
    decreases |events|
  {
    var last := |events| - 1;
    var before := events[..last];
    PrefixReplies(events, last);
    if j < last {
      assert CompletedAt(before, key, j);
      CompletedResultStands(before, key, j);
      assert before[last - 1].now <= events[last].now;
      var expiry := events[j].now + events[j].op.ttl;
      if events[last].now < expiry {
        UnexpiredResultIsKept(LedgerRun(before).records, key, events[last].op, events[last].now);
      }
    }
  }

  /**
   While a completed result lives, the key is neither acquired nor completed again: the next acquisition,
   and with it any next completion, comes no sooner than the first result's TTL.
   */
  lemma ResultTtlSeparates(events: seq<Event>, key: string, j: int, m: int)
    requires ClockMovesForward(events) && 0 <= j < m < |events|
    requires CompletedAt(events, key, j)
    requires AcquiredAt(events, key, m) || SettledAt(events, key, m)
    ensures events[m].now >= events[j].now + events[j].op.ttl
  {
    var upTo, before := events[..m + 1], events[..m];
    PrefixReplies(events, m + 1);
    PrefixReplies(events, m);
    assert upTo[..m] == before;
    assert CompletedAt(before, key, j);
    CompletedResultStands(before, key, j);
    assert before[m - 1].now <= events[m].now;
  }

  /** After an acquisition with a TTL, the key holds that claim until the clock reaches its expiry. */
  ghost predicate ClaimStands(events: seq<Event>, key: string, token: string, expiry: int) {
    var records := LedgerRun(events).records;
    || (events != [] && events[|events| - 1].now >= expiry)
    || (key in records && records[key].status == InProgress && records[key].token == token
        && records[key].expiresAt == expiry)
  }

  /** No operation but its owner's touches an active claim before its expiry. */
  lemma UnexpiredClaimIsKept(records: Records, key: string, op: Op, now: int)
    requires key in records && records[key].status == InProgress && now < records[key].expiresAt
    requires op.Begin? || op.key != key || op.token != records[key].token
    ensures var after := Apply(records, op.key, Rule(Unexpired(records, op.key, now), op, now).write);
            key in after && after[key] == records[key]
  {
  }

  /** The owner of an active claim that has not expired is never refused. */
  lemma OwnerIsAccepted(records: Records, op: Op, now: int)
    requires op.key in records && records[op.key].status == InProgress && now < records[op.key].expiresAt
    requires !op.Begin? && op.token == records[op.key].token
    ensures Rule(Unexpired(records, op.key, now), op, now).reply == Done
  {
  }

  /** The claim acquired at i was not settled by its owner up to event m. */
  ghost predicate Unsettled(events: seq<Event>, key: string, i: int, m: int)
    requires 0 <= i < |events| && m <= |events|
  {
    forall k :: i < k < m && SettledAt(events, key, k) ==> events[k].op.token != events[i].op.token
  }

  lemma {:induction false} UnsettledClaimStands(events: seq<Event>, key: string, i: int)
    requires ClockMovesForward(events) && 0 <= i < |events| && AcquiredAt(events, key, i)
    requires Unsettled(events, key, i, |events|)
    ensures ClaimStands(events, key, events[i].op.token, events[i].now + events[i].op.ttl)
    decreases |events|
  {
    var last := |events| - 1;
    var before := events[..last];
    PrefixReplies(events, last);
    if i < last {
      assert AcquiredAt(before, key, i);
      assert Unsettled(before, key, i, last) by {
        forall k | i < k < last && SettledAt(before, key, k)
          ensures before[k].op.token != before[i].op.token
        {
          assert SettledAt(events, key, k);
        }
      }
      UnsettledClaimStands(before, key, i);
      assert before[last - 1].now <= events[last].now;
      var records, op, now := LedgerRun(before).records, events[last].op, events[last].now;
      if now < events[i].now + events[i].op.ttl {
        if !op.Begin? && op.key == key && op.token == events[i].op.token {
          OwnerIsAccepted(records, op, now);
          assert SettledAt(events, key, last);
          assert false;
        } else {
          UnexpiredClaimIsKept(records, key, op, now);
        }
      }
    }
  }

  /**
   Mutual exclusion: once a key is acquired, nobody else acquires it before the claim's TTL has passed,
   unless its owner completed or aborted it.
   */
  lemma ClaimTtlExcludes(events: seq<Event>, key: string, i: int, m: int)
    requires ClockMovesForward(events) && 0 <= i < m < |events|
    requires AcquiredAt(events, key, i) && AcquiredAt(events, key, m) && Unsettled(events, key, i, m)
    ensures events[m].now >= events[i].now + events[i].op.ttl
  {
    var upTo, before := events[..m + 1], events[..m];
    PrefixReplies(events, m + 1);
    PrefixReplies(events, m);
    assert upTo[..m] == before;
    assert AcquiredAt(before, key, i);
    assert Unsettled(before, key, i, m) by {
      forall k | i < k < m && SettledAt(before, key, k)
        ensures before[k].op.token != before[i].op.token
      {
        assert SettledAt(events, key, k);
      }
    }
    UnsettledClaimStands(before, key, i);
    assert before[m - 1].now <= events[m].now;
  }

  /** The completion behind a replayed result. */
  lemma RecordedOrigin(events: seq<Event>, m: int) returns (j: int)
    requires ClockMovesForward(events) && 0 <= m < |events| && events[m].op.Begin?
    requires LedgerRun(events).replies[m].Found? && LedgerRun(events).replies[m].status == Completed
    ensures 0 <= j < m && CompletedAt(events, events[m].op.key, j)
    ensures LedgerRun(events).replies[m].data == events[j].op.result
    ensures events[m].now < events[j].now + events[j].op.ttl
  {
    var before := events[..m];
    PrefixReplies(events, m + 1);
    PrefixReplies(events, m);
    assert events[..m + 1][..m] == before;
    j := CompletedRecordHasOrigin(before, events[m].op.key);
    assert CompletedAt(before, events[m].op.key, j);
  }

  lemma {:induction false} CompletedRecordHasOrigin(events: seq<Event>, key: string) returns (j: int)
    requires key in LedgerRun(events).records && LedgerRun(events).records[key].status == Completed
    ensures 0 <= j < |events| && CompletedAt(events, key, j)
    ensures var record := LedgerRun(events).records[key];
            record.data == events[j].op.result && record.expiresAt == events[j].now + events[j].op.ttl
  {
    var last := |events| - 1;
    if CompletedAt(events, key, last) {
      j := last;
    } else {
      j := CompletedRecordHasOrigin(events[..last], key);
      PrefixReplies(events, last);
      assert CompletedAt(events[..last], key, j);
    }
  }

  /** Event m replays the result that event j recorded, before it expires. */
  ghost predicate Replays(events: seq<Event>, j: int, m: int)
    requires 0 <= m < |events|
  {
    && 0 <= j < m && events[m].op.Begin? && LedgerRun(events).replies[m].Found?
    && CompletedAt(events, events[m].op.key, j)
    && LedgerRun(events).replies[m].data == events[j].op.result
    && events[m].now < events[j].now + events[j].op.ttl
  }

  /** A Begin is told Completed only while an earlier completion's result is alive, and is given that result. */
  lemma ReplayedResultWasRecorded(events: seq<Event>, m: int)
    requires ClockMovesForward(events) && 0 <= m < |events| && events[m].op.Begin?
    requires LedgerRun(events).replies[m].Found? && LedgerRun(events).replies[m].status == Completed
    ensures exists j :: Replays(events, j, m)
  {
    var j := RecordedOrigin(events, m);
    assert Replays(events, j, m);
  }

  /** Event i acquired the claim that bars the key at event m: not settled since, and not expired yet. */
  ghost predicate Blocks(events: seq<Event>, key: string, i: int, m: int)
    requires 0 <= m < |events|
  {
    && 0 <= i < m && AcquiredAt(events, key, i) && events[m].now < events[i].now + events[i].op.ttl
    && forall k :: i < k < m ==> !AcquiredAt(events, key, k) && !SettledAt(events, key, k)
  }

  /** A Begin is told InProgress only while a claim acquired before is neither settled nor expired. */
  lemma {:induction false} BusyHasOwner(events: seq<Event>, m: int)
    requires 0 <= m < |events| && events[m].op.Begin?
    requires LedgerRun(events).replies[m].Found? && LedgerRun(events).replies[m].status == InProgress
    ensures exists i :: Blocks(events, events[m].op.key, i, m)
  {
    var before, key := events[..m], events[m].op.key;
    PrefixReplies(events, m + 1);
    PrefixReplies(events, m);
    assert events[..m + 1][..m] == before;
    var i := ActiveClaimHasOrigin(before, key);
    assert AcquiredAt(before, key, i);
    forall k | i < k < m
      ensures !AcquiredAt(events, key, k) && !SettledAt(events, key, k)
    {
      assert !AcquiredAt(before, key, k) && !SettledAt(before, key, k);
    }
    assert Blocks(events, key, i, m);
  }

  /** The latest acquisition of key before event m. */
  ghost predicate LatestAcquisition(events: seq<Event>, key: string, i: int, m: int)
    requires m <= |events|
  {
    0 <= i < m && AcquiredAt(events, key, i) && forall k :: i < k < m ==> !AcquiredAt(events, key, k)
  }

  /** Every record keeps the fingerprint of the acquisition behind it, through its completion. */
  lemma {:induction false} RecordHasFingerprint(events: seq<Event>, key: string) returns (i: int)
    requires key in LedgerRun(events).records
    ensures LatestAcquisition(events, key, i, |events|)
    ensures LedgerRun(events).records[key].fingerprint == events[i].op.fingerprint
  {
    var last := |events| - 1;
    if AcquiredAt(events, key, last) {
      i := last;
    } else {
      i := RecordHasFingerprint(events[..last], key);
      PrefixReplies(events, last);
      assert AcquiredAt(events[..last], key, i);
      forall k | i < k < last
        ensures !AcquiredAt(events, key, k)
      {
        assert !AcquiredAt(events[..last], key, k);
      }
    }
  }

  ghost predicate DecidedBy(events: seq<Event>, m: int, i: int)
    requires 0 <= m < |events| && events[m].op.Begin?
  {
    && LatestAcquisition(events, events[m].op.key, i, m)
    && (LedgerRun(events).replies[m] == KeyConflict <==>
          events[m].op.fingerprint != "" && events[m].op.fingerprint != events[i].op.fingerprint)
  }

  /**
   A Begin that does not acquire the key is told of a conflict exactly when it names a fingerprint other
   than that of the key's latest acquisition, whether that one is still running or completed.
   */
  lemma {:induction false} FingerprintDecides(events: seq<Event>, m: int)
    requires 0 <= m < |events| && events[m].op.Begin? && !AcquiredAt(events, events[m].op.key, m)
    ensures exists i :: DecidedBy(events, m, i)
  {
    var before, key := events[..m], events[m].op.key;
    PrefixReplies(events, m + 1);
    PrefixReplies(events, m);
    assert events[..m + 1][..m] == before;
    var i := RecordHasFingerprint(before, key);
    assert AcquiredAt(before, key, i);
    forall k | i < k < m
      ensures !AcquiredAt(events, key, k)
    {
      assert !AcquiredAt(before, key, k);
    }
    assert DecidedBy(events, m, i);
  }

  /** Event j recorded the result that is still alive at event m. */
  ghost predicate LiveResult(events: seq<Event>, key: string, j: int, m: int)
    requires 0 <= m < |events|
  {
    0 <= j < m && CompletedAt(events, key, j) && events[m].now < events[j].now + events[j].op.ttl
  }

  /** What the ledger holds when event m arrives decides the reply. */
  lemma {:induction false} ReplyFromLedger(events: seq<Event>, m: int)
    requires 0 <= m < |events|
    ensures var before, op, now := LedgerRun(events[..m]).records, events[m].op, events[m].now;
            LedgerRun(events).replies[m] == Rule(Unexpired(before, op.key, now), op, now).reply
  {
    PrefixReplies(events, m + 1);
    assert events[..m + 1][..m] == events[..m];
  }

  /** While a result lives, a Begin is given it, or told of a conflict if it names another fingerprint. */
  lemma {:induction false} LiveResultIsFound(events: seq<Event>, j: int, m: int)
    requires ClockMovesForward(events) && 0 <= m < |events| && events[m].op.Begin?
    requires LiveResult(events, events[m].op.key, j, m)
    ensures LedgerRun(events).replies[m] in {KeyConflict, Found(Completed, events[j].op.result)}
  {
    var before, key := events[..m], events[m].op.key;
    PrefixReplies(events, m);
    assert CompletedAt(before, key, j);
    CompletedResultStands(before, key, j);
    assert before[m - 1].now <= events[m].now;
    ReplyFromLedger(events, m);
  }

  /** While a claim is neither settled nor expired, a Begin is told so, or of a conflict. */
  lemma {:induction false} LiveClaimIsFound(events: seq<Event>, i: int, m: int)
    requires ClockMovesForward(events) && 0 <= m < |events| && events[m].op.Begin?
    requires Blocks(events, events[m].op.key, i, m)
    ensures LedgerRun(events).replies[m] == KeyConflict
         || (LedgerRun(events).replies[m].Found? && LedgerRun(events).replies[m].status == InProgress)
  {
    var before, key := events[..m], events[m].op.key;
    PrefixReplies(events, m);
    assert AcquiredAt(before, key, i);
    forall k | i < k < m
      ensures !SettledAt(before, key, k)
    {
      assert !SettledAt(events, key, k);
    }
    UnsettledClaimStands(before, key, i);
    assert before[m - 1].now <= events[m].now;
    ReplyFromLedger(events, m);
  }

  /** A Begin that does not acquire the key finds a living claim or a living result. */
  lemma {:induction false} RefusalHasCause(events: seq<Event>, m: int)
    requires 0 <= m < |events| && events[m].op.Begin? && !AcquiredAt(events, events[m].op.key, m)
    ensures var key := events[m].op.key;
            (exists i :: Blocks(events, key, i, m)) || (exists j :: LiveResult(events, key, j, m))
  {
    var before, key := events[..m], events[m].op.key;
    ReplyFromLedger(events, m);
    PrefixReplies(events, m);
    if LedgerRun(before).records[key].status == InProgress {
      var i := ActiveClaimHasOrigin(before, key);
      assert AcquiredAt(before, key, i);
      forall k | i < k < m
        ensures !AcquiredAt(events, key, k) && !SettledAt(events, key, k)
      {
        assert !AcquiredAt(before, key, k) && !SettledAt(before, key, k);
      }
      assert Blocks(events, key, i, m);
    } else {
      var j := CompletedRecordHasOrigin(before, key);
      assert CompletedAt(before, key, j);
      assert LiveResult(events, key, j, m);
    }
  }

  /** A Begin acquires its key exactly when no claim on it is unsettled and unexpired and no result is alive. */
  lemma {:induction false} AcquiresWhenFree(events: seq<Event>, m: int)
    requires ClockMovesForward(events) && 0 <= m < |events| && events[m].op.Begin?
    ensures var key := events[m].op.key;
            AcquiredAt(events, key, m) <==>
            !(exists i :: Blocks(events, key, i, m)) && !(exists j :: LiveResult(events, key, j, m))
  {
    var key := events[m].op.key;
    if !AcquiredAt(events, key, m) {
      RefusalHasCause(events, m);
    } else if i :| Blocks(events, key, i, m) {
      LiveClaimIsFound(events, i, m);
    } else if j :| LiveResult(events, key, j, m) {
      LiveResultIsFound(events, j, m);
    }
  }
}
