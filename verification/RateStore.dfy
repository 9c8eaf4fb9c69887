/**
 The in-memory rate-limit store (ratelimit/memory/store.go): a map of records and, over the same
 records, an intrusive binary min-heap ordered by tat that drives lazy expiry. The heap operations of
 Go's container/heap are written out and proved.
 */
module RateStore {
  import opened Options
  import opened Limits
  import Gcra
  import opened HeapOrder
  import opened RateRuns

  datatype ContextError = InvalidContext | Canceled(cause: string)

  /** A caller's context as the store sees it: on entry, and again once it holds the lock. */
  datatype Context = NilContext | Context(onEntry: Option<string>, underLock: Option<string>) {
    function Error(): Option<ContextError> {
      if NilContext? then Some(InvalidContext)
      else if onEntry.Some? then Some(Canceled(onEntry.value))
      else if underLock.Some? then Some(Canceled(underLock.value))
      else None
    }
  }

  class Record {
    const key: string
    var tat: int
    var index: int

    constructor (key: string, tat: int)
      ensures this.key == key && this.tat == tat
    {
      this.key := key;
      this.tat := tat;
      this.index := 0;
    }
  }

  /** Every record knows its slot; in particular no record occupies two. */
  ghost predicate Indexed(h: seq<Record>)
    reads h
  {
    forall i :: 0 <= i < |h| ==> h[i].index == i
  }

  /** The tats of the heap, slot by slot. */
  ghost function Order(h: seq<Record>): (t: seq<int>)
    reads h
    ensures |t| == |h| && forall i :: 0 <= i < |h| ==> t[i] == h[i].tat
  {
    seq(|h|, i requires 0 <= i < |h| reads h => h[i].tat)
  }

  ghost predicate SameRecords(h: seq<Record>, g: seq<Record>) {
    |h| == |g| && (forall r :: r in h ==> r in g) && (forall r :: r in g ==> r in h)
  }

  /** h holds the records of g but for r. */
  ghost predicate Without(h: seq<Record>, g: seq<Record>, r: Record) {
    && |h| + 1 == |g| && r in g
    && (forall q :: q in g ==> q in h || q == r)
    && (forall q :: q in h ==> q in g && q != r)
  }

  lemma LastGone(h: seq<Record>, all: seq<Record>, g: seq<Record>, r: Record)
    requires SameRecords(all, g) && all == h + [r] && r !in h
    ensures Without(h, g, r)
  {
  }

  /** The map and the heap hold the same records, each under its own key. */
  ghost predicate Matched(records: map<string, Record>, h: seq<Record>) {
    && (forall key :: key in records ==> records[key] in h && records[key].key == key)
    && (forall r :: r in h ==> r.key in records && records[r.key] == r)
  }

  lemma OthersDiffer(records: map<string, Record>, h: seq<Record>, key: string)
    requires Matched(records, h) && key in records
    ensures forall k :: k in records && k != key ==> records[k] != records[key]
  {
  }

  lemma MatchedSame(records: map<string, Record>, h: seq<Record>, g: seq<Record>)
    requires Matched(records, h) && SameRecords(g, h)
    ensures Matched(records, g)
  {
  }

  lemma MatchedWithout(records: map<string, Record>, h: seq<Record>, g: seq<Record>, r: Record)
    requires Matched(records, h) && Without(g, h, r)
    ensures Matched(records - {r.key}, g)
  {
  }

  lemma MatchedWith(records: map<string, Record>, h: seq<Record>, g: seq<Record>, r: Record)
    requires Matched(records, h) && Without(h, g, r) && r.key !in records
    ensures Matched(records[r.key := r], g)
  {
  }

  ghost predicate Ordered(h: seq<Record>)
    reads h
  {
    Indexed(h) && Heap(Order(h), |h|)
  }

  /** tats lists the records' arrival times by key. */
  ghost predicate Scheduled(records: map<string, Record>, h: seq<Record>, tats: Tats)
    requires Matched(records, h)
    reads h
  {
    tats.Keys == records.Keys && forall key :: key in records ==> records[key].tat == tats[key]
  }

  class Store {
    var records: map<string, Record>
    var expirations: seq<Record>

    /** The abstract value of the store: the tat of every key it holds. */
    ghost var tats: Tats

    /** Map and heap hold the same records, each record's index is its slot, and the heap is ordered. */
    ghost predicate Valid()
      reads this, expirations
    {
      && Matched(records, expirations) && Ordered(expirations) && Scheduled(records, expirations, tats)
    }

    constructor ()
      ensures Valid() && tats == map[]
      ensures expirations == []
    {
      records := map[];
      expirations := [];
      tats := map[];
    }

    // ----- container/heap over expirations -----

    method Swap(i: int, j: int)
      requires Indexed(expirations)
      requires 0 <= i < |expirations| && 0 <= j < |expirations|
      modifies this`expirations, (set r | r in expirations)`index
      ensures Indexed(expirations)
      ensures expirations == Swapped(old(expirations), i, j)
      ensures SameRecords(expirations, old(expirations))
      ensures Order(expirations) == Swapped(old(Order(expirations)), i, j)
    {
      ghost var before := expirations;
      expirations := expirations[i := expirations[j]][j := expirations[i]];
      expirations[i].index := i;
      expirations[j].index := j;
      assert forall k :: 0 <= k < |before| ==> before[k] == expirations[if k == i then j else if k == j then i else k];
    }

    method Up(start: int, ghost n: nat)
      requires Indexed(expirations)
      requires 0 <= start < n <= |expirations| && HeapBelow(Order(expirations), n, start)
      modifies this`expirations, (set r | r in expirations)`index
      ensures Indexed(expirations) && n <= |expirations| && Heap(Order(expirations), n)
      ensures SameRecords(expirations, old(expirations))
      ensures n <= |expirations| && expirations[n..] == old(expirations[n..])
    {
      hide Heap, HeapBelow;
      var j := start;
      while true
        invariant 0 <= j < n <= |expirations|
        invariant Indexed(expirations)
        invariant SameRecords(expirations, old(expirations))
        invariant n <= |expirations| && expirations[n..] == old(expirations[n..])
        invariant HeapBelow(Order(expirations), n, j)
        decreases j
      {
        var i := if j == 0 then 0 else (j - 1) / 2;
        if i == j || !(expirations[j].tat < expirations[i].tat) {
          HeapWhenSettled(Order(expirations), n, j);
          break;
        }
        SwapWithParent(Order(expirations), n, j);
        Swap(i, j);
        j := i;
      }
    }

    /** The smaller child of slot i among the first n slots. */
    method LeastChild(i: int, n: nat) returns (j: int)
      requires 0 <= i && 2 * i + 1 < n <= |expirations|
      ensures 1 <= i + 1 <= j < n && Parent(j) == i
      ensures forall c :: 1 <= c < n && Parent(c) == i ==> Order(expirations)[j] <= Order(expirations)[c]
    {
      j := 2 * i + 1;
      if j + 1 < n && expirations[j + 1].tat < expirations[j].tat {
        j := j + 1;
      }
      forall c | 1 <= c < n && Parent(c) == i
        ensures Order(expirations)[j] <= Order(expirations)[c]
      {
        ChildrenOf(i, c);
      }
    }

    method Down(start: int, n: nat) returns (moved: bool)
      requires Indexed(expirations)
      requires 0 <= start < n <= |expirations| && HeapAround(Order(expirations), n, start)
      modifies this`expirations, (set r | r in expirations)`index
      ensures Indexed(expirations)
      ensures SameRecords(expirations, old(expirations))
      ensures n <= |expirations| && expirations[n..] == old(expirations[n..])
      ensures if moved then Heap(Order(expirations), n) else HeapBelow(Order(expirations), n, start)
    {
      hide Heap, HeapAround, HeapAbove, HeapBelow;
      var i := start;
      while 2 * i + 1 < n
        invariant start <= i < n <= |expirations|
        invariant Indexed(expirations)
        invariant SameRecords(expirations, old(expirations))
        invariant n <= |expirations| && expirations[n..] == old(expirations[n..])
        invariant HeapAround(Order(expirations), n, i)
        invariant i != start ==> HeapAbove(Order(expirations), n, i)
      {
        var j := LeastChild(i, n);
        if !(expirations[j].tat < expirations[i].tat) {
          break;
        }
        ghost var t := Order(expirations);
        SwapWithLeastChild(t, n, i, j);
        Swap(i, j);
        AboveIsAround(Order(expirations), n, j);
        i := j;
      }
      DownSettles(Order(expirations), n, i);
      moved := i > start;
    }

    method Fix(i: int)
      requires Indexed(expirations)
      requires 0 <= i < |expirations| && HeapAround(Order(expirations), |expirations|, i)
      modifies this`expirations, (set r | r in expirations)`index
      ensures Indexed(expirations) && Heap(Order(expirations), |expirations|)
      ensures SameRecords(expirations, old(expirations))
    {
      var moved := Down(i, |expirations|);
      if !moved {
        Up(i, |expirations|);
      }
    }

    method Push(r: Record)
      requires Indexed(expirations) && Heap(Order(expirations), |expirations|) && r !in expirations
      modifies this`expirations, (set r | r in expirations)`index, r`index
      ensures Indexed(expirations) && Heap(Order(expirations), |expirations|)
      ensures Without(old(expirations), expirations, r)
    {
      HeapBelowAppended(Order(expirations), r.tat);
      ghost var before := expirations;
      r.index := |expirations|;
      expirations := expirations + [r];
      assert Order(expirations) == old(Order(expirations)) + [r.tat];
      Up(|expirations| - 1, |expirations|);
    }

    /** Drops the last slot, as expirationHeap.Pop does. */
    method DropLast() returns (r: Record)
      requires Indexed(expirations) && expirations != []
      requires Heap(Order(expirations), |expirations| - 1)
      modifies this`expirations, (set r | r in expirations)`index
      ensures Indexed(expirations) && Heap(Order(expirations), |expirations|)
      ensures r == old(expirations[|expirations| - 1]) && r.index == -1
      ensures expirations == old(expirations)[..|old(expirations)| - 1] && r !in expirations
    {
      var last := |expirations| - 1;
      r := expirations[last];
      HeapDropLast(Order(expirations), last);
      ghost var order := Order(expirations)[..last];
      r.index := -1;
      expirations := expirations[..last];
      assert Order(expirations) == order;
    }

    method RemoveAt(i: int) returns (r: Record)
      requires Indexed(expirations) && Heap(Order(expirations), |expirations|)
      requires 0 <= i < |expirations|
      modifies this`expirations, (set r | r in expirations)`index
      ensures Indexed(expirations) && Heap(Order(expirations), |expirations|)
      ensures r == old(expirations[i]) && Without(expirations, old(expirations), r)
    {
      var n := |expirations| - 1;
      HeapPrefix(Order(expirations), n, n + 1);
      if n != i {
        ghost var before := Order(expirations);
        Swap(i, n);
        HeapAroundReplaced(before, Order(expirations), n, i);
        var moved := Down(i, n);
        if !moved {
          Up(i, n);
        }
      }
      ghost var all := expirations;
      r := DropLast();
      LastGone(expirations, all, old(expirations), r);
    }

    /** The record with the least tat leaves the heap. */
    method Pop() returns (r: Record)
      requires Indexed(expirations) && Heap(Order(expirations), |expirations|) && expirations != []
      modifies this`expirations, (set r | r in expirations)`index
      ensures Indexed(expirations) && Heap(Order(expirations), |expirations|)
      ensures r == old(expirations[0]) && Without(expirations, old(expirations), r)
    {
      var n := |expirations| - 1;
      ghost var before := Order(expirations);
      HeapPrefix(before, n, n + 1);
      Swap(0, n);
      if n > 0 {
        HeapAroundReplaced(before, Order(expirations), n, 0);
        var moved := Down(0, n);
        assert HeapBelow(Order(expirations), n, 0) ==> Heap(Order(expirations), n);
      }
      ghost var all := expirations;
      r := DropLast();
      LastGone(expirations, all, old(expirations), r);
    }

    // ----- map and heap together -----

    /** Deletes from the map the record that has just left the heap. */
    method Forget(r: Record, ghost before: seq<Record>)
      requires Matched(records, before) && Scheduled(records, before, tats)
      requires Without(expirations, before, r) && Ordered(expirations)
      modifies this`records, this`tats
      ensures Valid() && tats == old(tats) - {r.key}
    {
      MatchedWithout(records, before, expirations, r);
      records := records - {r.key};
      tats := tats - {r.key};
    }

    /** Deletes a key from both. */
    method Remove(key: string)
      requires Valid() && key in records
      modifies this, (set r | r in expirations)`index
      ensures Valid() && tats == old(tats) - {key}
      ensures forall r :: r in expirations ==> r in old(expirations)
    {
      ghost var before, target := expirations, records[key];
      assert target.key == key && before[target.index] == target;
      var r := RemoveAt(records[key].index);
      Forget(r, before);
    }

    /** Deletes the key with the least tat from both. */
    method Evict()
      requires Valid() && expirations != []
      modifies this, (set r | r in expirations)`index
      ensures Valid() && tats == old(tats) - {old(expirations[0].key)}
      ensures |expirations| < |old(expirations)|
      ensures forall r :: r in expirations ==> r in old(expirations)
    {
      ghost var before := expirations;
      var r := Pop();
      Forget(r, before);
    }

    /** Changes one tat in place; the heap may then be out of order around its slot. */
    method SetTat(key: string, tat: int)
      requires Valid() && key in records
      modifies this`tats, (set r | r in expirations)`tat
      ensures tats == old(tats)[key := tat] && Matched(records, expirations) && Indexed(expirations)
      ensures Scheduled(records, expirations, tats)
      ensures 0 <= records[key].index < |expirations|
      ensures HeapAround(Order(expirations), |expirations|, records[key].index)
    {
      var current := records[key];
      ghost var order := Order(expirations);
      OthersDiffer(records, expirations, key);
      current.tat := tat;
      tats := tats[key := tat];
      HeapAroundReplaced(order, Order(expirations), |expirations|, current.index);
    }

    method Reschedule(key: string, tat: int)
      requires Valid() && key in records
      modifies this, expirations
      ensures fresh(set r | r in expirations && r !in old(expirations))
      ensures Valid() && tats == old(tats)[key := tat]
    {
      ghost var before := expirations;
      SetTat(key, tat);
      Fix(records[key].index);
      MatchedSame(records, before, expirations);
    }

    /** Adds to the map the record that has just joined the heap. */
    method Remember(r: Record, ghost before: seq<Record>)
      requires Matched(records, before) && Scheduled(records, before, tats) && r.key !in records
      requires Without(before, expirations, r) && Ordered(expirations)
      modifies this`records, this`tats
      ensures Valid() && tats == old(tats)[r.key := r.tat]
    {
      MatchedWith(records, before, expirations, r);
      records := records[r.key := r];
      tats := tats[r.key := r.tat];
    }

    method Insert(key: string, tat: int)
      requires Valid() && key !in records
      modifies this, expirations
      ensures fresh(set r | r in expirations && r !in old(expirations))
      ensures Valid() && tats == old(tats)[key := tat]
    {
      ghost var before := expirations;
      var current := new Record(key, tat);
      assert current !in before;
      Push(current);
      Remember(current, before);
    }

    method Write(key: string, tat: int)
      requires Valid()
      modifies this, expirations
      ensures fresh(set r | r in expirations && r !in old(expirations))
      ensures Valid() && tats == old(tats)[key := tat]
    {
      if key in records {
        Reschedule(key, tat);
      } else {
        Insert(key, tat);
      }
    }

    // ----- the store's operations -----

    method Cleanup(now: int)
      requires Valid()
      modifies this, (set r | r in expirations)`index
      ensures Valid() && tats == Ahead(old(tats), now)
      ensures forall r :: r in expirations ==> r in old(expirations)
    {
      while |expirations| > 0 && expirations[0].tat <= now
        invariant Valid()
        invariant forall r :: r in expirations ==> r in old(expirations)
        invariant tats.Keys <= old(tats).Keys && forall key :: key in tats ==> tats[key] == old(tats)[key]
        invariant forall key :: key in old(tats) && old(tats)[key] > now ==> key in tats
        decreases |expirations|
      {
        Evict();
      }
      forall key | key in records
        ensures tats[key] > now
      {
        RootIsLeast(Order(expirations), records[key].index);
      }
    }

    /** Take at clock reading now; a context error leaves the store untouched. */
    method Take(ctx: Context, key: string, limit: Limit, cost: int, now: int)
      returns (result: Result<Gcra.Decision, ContextError>)
      requires Valid() && Callable(RateRuns.Take(key, limit, cost))
      modifies this, expirations
      ensures fresh(set r | r in expirations && r !in old(expirations))
      ensures Valid()
      ensures ctx.Error().Some? ==> result == Err(ctx.Error().value) && tats == old(tats)
      ensures ctx.Error().None? ==>
                var step := StoreStep(Machine, old(tats), RateRuns.Take(key, limit, cost), now);
                tats == step.tats && result.Ok? && Decided(result.value) == step.answer
    {
      if ctx.Error().Some? {
        return Err(ctx.Error().value);
      }
      Cleanup(now);
      var stored := if key in records then Some(records[key].tat) else None;
      assert stored == Lookup(tats, key);
      var outcome := Gcra.Decide(Machine, stored, limit, cost, now);
      if outcome.store.Some? {
        Write(key, outcome.store.value);
      }
      return Ok(outcome.decision);
    }

    method Reset(ctx: Context, key: string, now: int) returns (result: Result<(), ContextError>)
      requires Valid()
      modifies this, expirations
      ensures fresh(set r | r in expirations && r !in old(expirations))
      ensures Valid()
      ensures ctx.Error().Some? ==> result == Err(ctx.Error().value) && tats == old(tats)
      ensures ctx.Error().None? ==>
                result.Ok? && tats == StoreStep(Machine, old(tats), RateRuns.Reset(key), now).tats
    {
      if ctx.Error().Some? {
        return Err(ctx.Error().value);
      }
      Cleanup(now);
      if key in records {
        Remove(key);
      }
      return Ok(());
    }
  }
}

/** A client that puts any list of operations to one store: the answers are those of the map that never forgets. */
module RateClient {
  import opened Options
  import opened Limits
  import opened RateRuns
  import RateStore

  method Serve(events: seq<Event>) returns (answers: seq<Answer>)
    requires CallableRun(events) && ClockMovesForward(events)
    ensures answers == PlainRun(Machine, events).answers
  {
    var store := new RateStore.Store();
    var live := RateStore.Context(None, None);
    answers := [];
    for i := 0 to |events|
      invariant store.Valid() && fresh(store) && fresh(store.expirations)
      invariant StoreRun(Machine, events[..i]) == Run(store.tats, answers)
    {
      assert events[..i + 1][..i] == events[..i];
      match events[i].op
      case Take(key, limit, cost) =>
        var result := store.Take(live, key, limit, cost, events[i].now);
        answers := answers + [Decided(result.value)];
      case Reset(key) =>
        var result := store.Reset(live, key, events[i].now);
        answers := answers + [Removed];
    }
    assert events[..|events|] == events;
    StoreRefinesPlainMap(Machine, events);
  }
}
