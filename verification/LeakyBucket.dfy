/**
 An independent reading of the same algorithm. The Generic Cell Rate Algorithm has two forms: the virtual
 scheduling the store uses (ratelimit/memory/store.go), and a bucket that fills by an interval per unit
 taken and leaks one microsecond of content per microsecond. Here the second decides exactly like the
 first, over every sequence of takes.
 */
module LeakyBucket {
  import opened Options
  import opened Limits
  import opened Gcra

  /** level is the content after the last allowed take, at the time of that take. */
  datatype Bucket = Untouched | Bucket(level: int, at: int)

  function Content(b: Bucket, now: int): int {
    if b.Untouched? || b.level - (now - b.at) < 0 then 0 else b.level - (now - b.at)
  }

  datatype Poured = Poured(bucket: Bucket, allowed: bool)

  /** A take pours its cost in if it fits the burst, and otherwise leaves the bucket alone. */
  function Pour(b: Bucket, limit: Limit, cost: int, now: int): Poured
    requires limit.rate > 0 && limit.period >= 0
  {
    var full := Content(b, now) + EmissionInterval(limit) * cost;
    if full <= BurstSpan(limit) then Poured(Bucket(full, now), true) else Poured(b, false)
  }

  datatype Take = Take(cost: int, now: int)

  predicate Proper(takes: seq<Take>, limit: Limit) {
    && (forall i :: 0 <= i < |takes| ==> 1 <= takes[i].cost <= limit.burst)
    && (forall i, j :: 0 <= i <= j < |takes| ==> takes[i].now <= takes[j].now)
  }

  datatype BucketRun = BucketRun(bucket: Bucket, allowed: seq<bool>)

  function Pours(takes: seq<Take>, limit: Limit): BucketRun
    requires limit.rate > 0 && limit.period >= 0
  {
    if takes == [] then BucketRun(Untouched, []) else
      var last := takes[|takes| - 1];
      var before := Pours(takes[..|takes| - 1], limit);
      var p := Pour(before.bucket, limit, last.cost, last.now);
      BucketRun(p.bucket, before.allowed + [p.allowed])
  }

  datatype ScheduleRun = ScheduleRun(tat: Option<int>, decisions: seq<Decision>)

  function Decides(takes: seq<Take>, limit: Limit): ScheduleRun
    requires Valid(limit)
  {
    if takes == [] then ScheduleRun(None, []) else
      var last := takes[|takes| - 1];
      var before := Decides(takes[..|takes| - 1], limit);
      var outcome := Decide(Exact, before.tat, limit, last.cost, last.now);
      ScheduleRun(After(before.tat, outcome), before.decisions + [outcome.decision])
  }

  /** The bucket runs empty at the theoretical arrival time. */
  ghost predicate EmptiesAt(b: Bucket, tat: Option<int>) {
    if b.Untouched? then tat.None? else tat == Some(b.at + b.level)
  }

  /** One take: the same verdict, and the decision's figures are the bucket's content and free room. */
  lemma PourDecides(b: Bucket, tat: Option<int>, limit: Limit, cost: int, now: int)
    requires Valid(limit) && 1 <= cost <= limit.burst && EmptiesAt(b, tat) && (b.Bucket? ==> b.at <= now)
    ensures var outcome, p := Decide(Exact, tat, limit, cost, now), Pour(b, limit, cost, now);
            && outcome.decision.allowed == p.allowed
            && EmptiesAt(p.bucket, After(tat, outcome))
            && outcome.decision.resetAfter == Content(p.bucket, now) * MICROSECOND
            && (p.allowed ==> outcome.decision.retryAfter == 0)
            && (!p.allowed ==> outcome.decision.retryAfter
                               == (Content(b, now) + EmissionInterval(limit) * cost - BurstSpan(limit)) * MICROSECOND)
  {
    hide EmissionInterval, Remaining;
    ValidLimitBounds(limit);
    MulMonotone(1, cost, EmissionInterval(limit));
  }

  /** Over every sequence of takes the schedule and the bucket allow the same ones. */
  lemma {:induction false} BucketAllowsTheSame(takes: seq<Take>, limit: Limit)
    requires Valid(limit) && Proper(takes, limit)
    ensures var b, s := Pours(takes, limit), Decides(takes, limit);
            && |b.allowed| == |s.decisions| == |takes|
            && (forall i :: 0 <= i < |takes| ==> s.decisions[i].allowed == b.allowed[i])
            && EmptiesAt(b.bucket, s.tat)
            && (b.bucket.Bucket? ==> takes != [] && b.bucket.at <= takes[|takes| - 1].now)
  {
    hide Decide, Pour;
    if takes != [] {
      var n := |takes| - 1;
      var before := takes[..n];
      BucketAllowsTheSame(before, limit);
      assert before != [] ==> before[n - 1].now <= takes[n].now;
      var b, s := Pours(before, limit), Decides(before, limit);
      PourDecides(b.bucket, s.tat, limit, takes[n].cost, takes[n].now);
      PourStamps(b.bucket, limit, takes[n].cost, takes[n].now);
    }
  }

  lemma PourStamps(b: Bucket, limit: Limit, cost: int, now: int)
    requires limit.rate > 0 && limit.period >= 0 && (b.Bucket? ==> b.at <= now)
    ensures Pour(b, limit, cost, now).bucket.Bucket? ==> Pour(b, limit, cost, now).bucket.at <= now
  {
  }

  /** A key never used before has its whole burst at once. */
  lemma FreshKeyHasItsBurst(limit: Limit, cost: int, now: int)
    requires Valid(limit) && 1 <= cost
    ensures Allows(None, limit, cost, now) <==> cost <= limit.burst
  {
    hide EmissionInterval, Remaining;
    ValidLimitBounds(limit);
    if cost > limit.burst {
      MulMonotone(limit.burst + 1, cost, EmissionInterval(limit));
    } else {
      MulMonotone(cost, limit.burst, EmissionInterval(limit));
    }
  }
}
