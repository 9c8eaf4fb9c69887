/**
 Half-open time intervals (time/period/period.go, time/period/set.go). Time points are integers
 (nanoseconds); a Period is what period.New lets through.
 */
module Periods {
  import opened Options

  datatype Interval = Interval(start: int, end: int)

  type Period = p: Interval | p.start <= p.end witness Interval(0, 0)

  predicate IsEmpty(p: Period) {
    p.start == p.end
  }

  predicate Contains(p: Period, t: int) {
    !(t < p.start) && t < p.end
  }

  predicate Equal(p: Period, other: Period) {
    (IsEmpty(p) && IsEmpty(other)) || (p.start == other.start && p.end == other.end)
  }

  predicate ContainsPeriod(p: Period, other: Period) {
    IsEmpty(other) || (!IsEmpty(p) && !(other.start < p.start) && !(other.end > p.end))
  }

  predicate Overlaps(p: Period, other: Period) {
    !IsEmpty(p) && !IsEmpty(other) && p.start < other.end && other.start < p.end
  }

  predicate Adjacent(p: Period, other: Period) {
    !IsEmpty(p) && !IsEmpty(other) && (p.end == other.start || other.end == p.start)
  }

  function Intersect(p: Period, other: Period): Option<Period> {
    if !Overlaps(p, other) then None else
      Some(Interval(if other.start > p.start then other.start else p.start,
                    if other.end < p.end then other.end else p.end))
  }

  // ----- the point-set meaning of the predicates -----

  lemma EqualMeansSamePoints(p: Period, other: Period)
    ensures Equal(p, other) <==> forall t :: Contains(p, t) <==> Contains(other, t)
  {
    if forall t :: Contains(p, t) <==> Contains(other, t) {
      assert !IsEmpty(p) ==> Contains(other, p.start) && Contains(other, p.end - 1) && !Contains(other, p.end) by {
        if !IsEmpty(p) {
          assert Contains(p, p.start) && Contains(p, p.end - 1) && !Contains(p, p.end);
        }
      }
      assert !IsEmpty(other) ==> Contains(p, other.start) && Contains(p, other.end - 1) by {
        if !IsEmpty(other) {
          assert Contains(other, other.start) && Contains(other, other.end - 1);
        }
      }
    }
  }

  lemma ContainsPeriodMeansSubset(p: Period, other: Period)
    ensures ContainsPeriod(p, other) <==> forall t :: Contains(other, t) ==> Contains(p, t)
  {
    if !IsEmpty(other) && forall t :: Contains(other, t) ==> Contains(p, t) {
      assert Contains(other, other.start) && Contains(other, other.end - 1);
      assert Contains(p, other.start) && Contains(p, other.end - 1);
    }
  }

  lemma OverlapsMeansSharedPoint(p: Period, other: Period)
    ensures Overlaps(p, other) <==> exists t :: Contains(p, t) && Contains(other, t)
  {
    if Overlaps(p, other) {
      var t := if other.start > p.start then other.start else p.start;
      assert Contains(p, t) && Contains(other, t);
    }
  }

  /** Intersect returns the shared points, and nothing exactly when there are none. */
  lemma IntersectMeansSharedPoints(p: Period, other: Period)
    ensures Intersect(p, other).Some? <==> exists t :: Contains(p, t) && Contains(other, t)
    ensures Intersect(p, other).Some? ==>
              && !IsEmpty(Intersect(p, other).value)
              && forall t :: Contains(Intersect(p, other).value, t) <==> Contains(p, t) && Contains(other, t)
  {
    OverlapsMeansSharedPoint(p, other);
  }

  /** Two non-empty intervals are adjacent exactly when they share no point, yet their union is one interval. */
  lemma AdjacentMeansTouching(p: Period, other: Period)
    ensures Adjacent(p, other) <==>
              && !IsEmpty(p) && !IsEmpty(other)
              && (forall t :: !(Contains(p, t) && Contains(other, t)))
              && exists union :: JoinsInto(p, other, union)
  {
    OverlapsMeansSharedPoint(p, other);
    var lo := if p.start < other.start then p.start else other.start;
    var hi := if p.end > other.end then p.end else other.end;
    if Adjacent(p, other) {
      assert JoinsInto(p, other, Interval(lo, hi));
    } else if !IsEmpty(p) && !IsEmpty(other) && !Overlaps(p, other) {
      forall union | JoinsInto(p, other, union) ensures false {
        var gap := if p.end < other.start then p.end else other.end;
        assert Contains(p, p.start) && Contains(other, other.start);
        assert Contains(union, gap);
      }
    }
  }

  ghost predicate JoinsInto(p: Period, other: Period, union: Period) {
    forall t :: Contains(union, t) <==> Contains(p, t) || Contains(other, t)
  }

  // ----- canonical lists -----

  ghost predicate Covers(ps: seq<Period>, t: int) {
    exists i :: 0 <= i < |ps| && Contains(ps[i], t)
  }

  /** Non-empty intervals in ascending order that neither overlap nor touch. */
  ghost predicate Canonical(ps: seq<Period>) {
    && (forall i :: 0 <= i < |ps| ==> ps[i].start < ps[i].end)
    && (forall i, j :: 0 <= i < j < |ps| ==> ps[i].end < ps[j].start)
  }

  /** One point of each list in the other, and the point just past an end in neither: the heads agree. */
  lemma HeadsAgree(ps: seq<Period>, qs: seq<Period>)
    requires Canonical(ps) && Canonical(qs) && (forall t :: Covers(ps, t) <==> Covers(qs, t))
    requires ps != []
    ensures qs != [] && ps[0] == qs[0]
  {
    assert Contains(ps[0], ps[0].start);
    assert Covers(ps, ps[0].start);
    var i :| 0 <= i < |qs| && Contains(qs[i], ps[0].start);
    assert Contains(qs[0], qs[0].start);
    assert Covers(qs, qs[0].start);
    var j :| 0 <= j < |ps| && Contains(ps[j], qs[0].start);
    assert qs[0].start == ps[0].start;
    HeadEndsNoLater(ps, qs);
    HeadEndsNoLater(qs, ps);
  }

  lemma HeadEndsNoLater(ps: seq<Period>, qs: seq<Period>)
    requires Canonical(ps) && Canonical(qs) && (forall t :: Covers(ps, t) <==> Covers(qs, t))
    requires ps != [] && qs != [] && ps[0].start == qs[0].start
    ensures ps[0].end <= qs[0].end
  {
    var past := qs[0].end;
    assert !Covers(qs, past);
    assert !Covers(ps, past);
    assert !Contains(ps[0], past);
  }

  lemma TailsAgree(ps: seq<Period>, qs: seq<Period>)
    requires Canonical(ps) && Canonical(qs) && (forall t :: Covers(ps, t) <==> Covers(qs, t))
    requires ps != [] && qs != [] && ps[0] == qs[0]
    ensures forall t :: Covers(ps[1..], t) ==> Covers(qs[1..], t)
  {
    forall t | Covers(ps[1..], t)
      ensures Covers(qs[1..], t)
    {
      var i :| 0 <= i < |ps[1..]| && Contains(ps[1..][i], t);
      assert ps[i + 1] == ps[1..][i];
      assert Covers(ps, t);
      var j :| 0 <= j < |qs| && Contains(qs[j], t);
      assert ps[0].end < ps[i + 1].start;
      assert qs[1..][j - 1] == qs[j];
    }
  }

  /** A set of points has at most one canonical list. */
  lemma {:induction false} CanonicalUnique(ps: seq<Period>, qs: seq<Period>)
    requires Canonical(ps) && Canonical(qs) && (forall t :: Covers(ps, t) <==> Covers(qs, t))
    ensures ps == qs
  {
    if ps == [] {
      if qs != [] {
        HeadsAgree(qs, ps);
      }
    } else {
      HeadsAgree(ps, qs);
      TailsAgree(ps, qs);
      TailsAgree(qs, ps);
      CanonicalUnique(ps[1..], qs[1..]);
      assert ps == [ps[0]] + ps[1..] && qs == [qs[0]] + qs[1..];
    }
  }

  // ----- sorting, as slices.SortFunc does it for this comparison -----

  predicate Before(a: Period, b: Period) {
    a.start < b.start || (a.start == b.start && a.end <= b.end)
  }

  predicate Sorted(ps: seq<Period>) {
    forall i, j :: 0 <= i < j < |ps| ==> Before(ps[i], ps[j])
  }

  function Insert(p: Period, ps: seq<Period>): (r: seq<Period>)
    ensures multiset(r) == multiset{p} + multiset(ps)
  {
    if ps == [] then [p]
    else if Before(p, ps[0]) then [p] + ps
    else
      assert ps == [ps[0]] + ps[1..];
      [ps[0]] + Insert(p, ps[1..])
  }

  lemma TailSorted(ps: seq<Period>)
    requires Sorted(ps) && ps != []
    ensures Sorted(ps[1..]) && forall p :: p in ps[1..] ==> Before(ps[0], p)
  {
  }

  lemma PrependSorted(p: Period, ps: seq<Period>)
    requires Sorted(ps) && forall q :: q in ps ==> Before(p, q)
    ensures Sorted([p] + ps)
  {
  }

  /** What comes before the first comes before all. */
  lemma LeastFirst(p: Period, ps: seq<Period>)
    requires Sorted(ps) && ps != [] && Before(p, ps[0])
    ensures forall q :: q in ps ==> Before(p, q)
  {
  }

  lemma {:induction false} InsertSorted(p: Period, ps: seq<Period>)
    requires Sorted(ps)
    ensures Sorted(Insert(p, ps))
  {
    hide Sorted;
    if ps == [] {
      PrependSorted(p, []);
      assert [p] + [] == [p];
    } else if Before(p, ps[0]) {
      LeastFirst(p, ps);
      PrependSorted(p, ps);
    } else {
      TailSorted(ps);
      InsertSorted(p, ps[1..]);
      var rest := Insert(p, ps[1..]);
      forall q | q in rest
        ensures Before(ps[0], q)
      {
        assert q in multiset(rest);
        assert q == p || q in ps[1..];
      }
      PrependSorted(ps[0], rest);
    }
  }

  /** The sorted permutation of ps; equal keys are equal periods, so any sorting algorithm yields this list. */
  function Sort(ps: seq<Period>): (r: seq<Period>)
    ensures Sorted(r) && multiset(r) == multiset(ps)
  {
    if ps == [] then [] else
      assert ps == [ps[0]] + ps[1..];
      InsertSorted(ps[0], Sort(ps[1..]));
      Insert(ps[0], Sort(ps[1..]))
  }

  lemma SamePointsAsMultiset(ps: seq<Period>, qs: seq<Period>, t: int)
    requires multiset(ps) == multiset(qs) && Covers(ps, t)
    ensures Covers(qs, t)
  {
    var i :| 0 <= i < |ps| && Contains(ps[i], t);
    assert ps[i] in multiset(qs);
    var j :| 0 <= j < |qs| && qs[j] == ps[i];
  }

  // ----- Merge -----

  /** The merged prefix: canonical, ending where the sweep has got to, with the same points as the input read so far. */
  ghost predicate Swept(merged: seq<Period>, read: seq<Period>) {
    && Canonical(merged) && merged != []
    && (forall t :: Covers(merged, t) <==> Covers(read, t))
    && (forall i :: 0 <= i < |read| ==> read[i].end <= merged[|merged| - 1].end)
  }

  lemma CoversAppend(ps: seq<Period>, p: Period, t: int)
    ensures Covers(ps + [p], t) <==> Covers(ps, t) || Contains(p, t)
  {
    if Covers(ps, t) {
      var i :| 0 <= i < |ps| && Contains(ps[i], t);
      assert (ps + [p])[i] == ps[i];
    }
    if Contains(p, t) {
      assert (ps + [p])[|ps|] == p;
    }
  }

  /** Sweeping over one more period: it starts a new interval, extends the last one, or is absorbed by it. */
  function Absorb(merged: seq<Period>, p: Period): seq<Period>
    requires merged != []
  {
    var last := merged[|merged| - 1];
    if p.start > last.end then merged + [p]
    else if p.end > last.end then merged[..|merged| - 1] + [Interval(last.start, p.end)]
    else merged
  }

  lemma AbsorbKeepsSwept(merged: seq<Period>, read: seq<Period>, p: Period)
    requires Swept(merged, read) && p.start < p.end
    requires merged[|merged| - 1].start <= p.start
    ensures Swept(Absorb(merged, p), read + [p])
    ensures Absorb(merged, p)[|Absorb(merged, p)| - 1].start <= p.start
  {
    var n := |merged| - 1;
    var last, front := merged[n], merged[..n];
    assert merged == front + [last];
    forall t
      ensures Covers(Absorb(merged, p), t) <==> Covers(read + [p], t)
    {
      CoversAppend(read, p, t);
      CoversAppend(front, last, t);
      CoversAppend(merged, p, t);
      if !(p.start > last.end) && p.end > last.end {
        CoversAppend(front, Interval(last.start, p.end), t);
      }
    }
  }

  /** r is what Merge promises for ps. */
  ghost predicate IsMerge(ps: seq<Period>, r: seq<Period>) {
    Canonical(r) && forall t :: Covers(r, t) <==> Covers(ps, t)
  }

  method NonEmpty(periods: seq<Period>) returns (kept: seq<Period>)
    ensures forall i :: 0 <= i < |kept| ==> kept[i].start < kept[i].end
    ensures forall t :: Covers(kept, t) <==> Covers(periods, t)
  {
    kept := [];
    for i := 0 to |periods|
      invariant forall j :: 0 <= j < |kept| ==> kept[j].start < kept[j].end
      invariant forall t :: Covers(kept, t) <==> Covers(periods[..i], t)
    {
      assert periods[..i + 1] == periods[..i] + [periods[i]];
      forall t
        ensures Covers(kept + [periods[i]], t) <==> Covers(periods[..i + 1], t)
      {
        CoversAppend(kept, periods[i], t);
        CoversAppend(periods[..i], periods[i], t);
      }
      if !IsEmpty(periods[i]) {
        kept := kept + [periods[i]];
      } else {
        forall t
          ensures Covers(kept, t) <==> Covers(periods[..i + 1], t)
        {
          CoversAppend(kept, periods[i], t);
        }
      }
    }
    assert periods[..|periods|] == periods;
  }

  lemma FirstIsSwept(p: Period)
    requires p.start < p.end
    ensures Swept([p], [p])
  {
  }

  lemma SweptIsMerge(merged: seq<Period>, read: seq<Period>)
    requires Swept(merged, read)
    ensures IsMerge(read, merged)
  {
  }

  /** One turn of the compaction: the period at slot k is absorbed by the merged list in slots 0 to last. */
  method AbsorbSlot(buffer: array<Period>, last: nat, k: nat) returns (next: nat)
    requires last < k < buffer.Length
    modifies buffer
    ensures last <= next <= k
    ensures buffer[..next + 1] == Absorb(old(buffer[..last + 1]), old(buffer[k]))
    ensures buffer[k + 1..] == old(buffer[k + 1..])
  {
    var p := buffer[k];
    next := last;
    if p.start > buffer[last].end {
      next := last + 1;
      buffer[next] := p;
    } else if p.end > buffer[last].end {
      buffer[last] := Interval(buffer[last].start, p.end);
    }
  }

  /** Compacts a sorted buffer of non-empty periods in place; the first n slots then hold the merged list. */
  method Compact(buffer: array<Period>) returns (n: nat)
    requires buffer.Length > 0 && Sorted(buffer[..])
    requires forall i :: 0 <= i < buffer.Length ==> buffer[i].start < buffer[i].end
    modifies buffer
    ensures 0 < n <= buffer.Length && IsMerge(old(buffer[..]), buffer[..n])
  {
    hide Swept, IsMerge;
    ghost var sorted := buffer[..];
    var last := 0;
    FirstIsSwept(buffer[0]);
    assert buffer[..1] == sorted[..1] == [buffer[0]];
    for k := 1 to buffer.Length
      invariant 0 <= last < k
      invariant buffer[k..] == sorted[k..]
      invariant Swept(buffer[..last + 1], sorted[..k])
      invariant buffer[..last + 1][last].start <= sorted[k - 1].start
    {
      ghost var merged := buffer[..last + 1];
      assert buffer[k] == buffer[k..][0] == sorted[k];
      assert Before(sorted[k - 1], sorted[k]);
      assert sorted[..k + 1] == sorted[..k] + [sorted[k]];
      AbsorbKeepsSwept(merged, sorted[..k], sorted[k]);
      assert buffer[k + 1..] == buffer[k..][1..];
      last := AbsorbSlot(buffer, last, k);
    }
    assert sorted[..buffer.Length] == sorted;
    n := last + 1;
    SweptIsMerge(buffer[..n], sorted);
    ClearFrom(buffer, n);
  }

  method ClearFrom(buffer: array<Period>, n: nat)
    requires n <= buffer.Length
    modifies buffer
    ensures buffer[..n] == old(buffer[..n])
    ensures forall i :: n <= i < buffer.Length ==> buffer[i] == Interval(0, 0)
  {
    for i := n to buffer.Length
      invariant buffer[..n] == old(buffer[..n])
      invariant forall j :: n <= j < i ==> buffer[j] == Interval(0, 0)
    {
      buffer[i] := Interval(0, 0);
    }
  }

  method Merge(periods: seq<Period>) returns (result: seq<Period>)
    ensures IsMerge(periods, result)
  {
    var kept := NonEmpty(periods);
    if |kept| == 0 {
      return [];
    }
    var sorted := Sort(kept);
    forall t
      ensures Covers(sorted, t) <==> Covers(kept, t)
    {
      if Covers(sorted, t) { SamePointsAsMultiset(sorted, kept, t); }
      if Covers(kept, t) { SamePointsAsMultiset(kept, sorted, t); }
    }
    assert |sorted| == |multiset(sorted)| == |multiset(kept)| == |kept|;
    var buffer := new Period[|sorted|](i requires 0 <= i < |sorted| => sorted[i]);
    assert buffer[..] == sorted;
    forall i | 0 <= i < |sorted|
      ensures sorted[i].start < sorted[i].end
    {
      assert sorted[i] in multiset(kept);
    }
    var n := Compact(buffer);
    result := buffer[..n];
  }

  /** Merging twice changes nothing. */
  lemma MergeIdempotent(ps: seq<Period>, r: seq<Period>, again: seq<Period>)
    requires IsMerge(ps, r) && IsMerge(r, again)
    ensures again == r
  {
    CanonicalUnique(again, r);
  }

  /** The order and the repetition of the inputs do not matter, only the points they cover. */
  lemma MergeDependsOnPointsOnly(ps: seq<Period>, qs: seq<Period>, r: seq<Period>, r': seq<Period>)
    requires (forall p :: p in ps <==> p in qs) && IsMerge(ps, r) && IsMerge(qs, r')
    ensures r == r'
  {
    forall t
      ensures Covers(ps, t) <==> Covers(qs, t)
    {
      if Covers(ps, t) {
        var i :| 0 <= i < |ps| && Contains(ps[i], t);
        assert ps[i] in qs;
      }
      if Covers(qs, t) {
        var i :| 0 <= i < |qs| && Contains(qs[i], t);
        assert qs[i] in ps;
      }
    }
    CanonicalUnique(r, r');
  }

  // ----- Gaps -----

  /** t lies between two covered points. */
  ghost predicate Within(ps: seq<Period>, t: int) {
    exists a, b :: a <= t <= b && Covers(ps, a) && Covers(ps, b)
  }

  ghost predicate IsGaps(merged: seq<Period>, gaps: seq<Period>) {
    && Canonical(merged)
    && |gaps| == (if merged == [] then 0 else |merged| - 1)
    && forall i :: 0 <= i < |gaps| ==> gaps[i] == Interval(merged[i].end, merged[i + 1].start)
  }

  function TotalLength(ps: seq<Period>): int {
    if ps == [] then 0 else TotalLength(ps[..|ps| - 1]) + (ps[|ps| - 1].end - ps[|ps| - 1].start)
  }

  lemma GapsCanonical(merged: seq<Period>, gaps: seq<Period>)
    requires IsGaps(merged, gaps)
    ensures Canonical(gaps)
  {
    forall i | 0 <= i < |gaps|
      ensures gaps[i].start < gaps[i].end
    {
      assert merged[i].end < merged[i + 1].start;
    }
    forall i, j | 0 <= i < j < |gaps|
      ensures gaps[i].end < gaps[j].start
    {
      assert merged[i + 1].start < merged[i + 1].end && merged[j].start < merged[j].end;
      assert i + 1 == j || merged[i + 1].end < merged[j].start;
      assert gaps[i] == Interval(merged[i].end, merged[i + 1].start);
      assert gaps[j] == Interval(merged[j].end, merged[j + 1].start);
    }
  }

  lemma GapPointIsUncovered(merged: seq<Period>, gaps: seq<Period>, t: int)
    requires IsGaps(merged, gaps) && Covers(gaps, t)
    ensures Within(merged, t) && !Covers(merged, t)
  {
    var i :| 0 <= i < |gaps| && Contains(gaps[i], t);
    assert gaps[i] == Interval(merged[i].end, merged[i + 1].start);
    assert Contains(merged[i], merged[i].end - 1) && Contains(merged[i + 1], merged[i + 1].start);
    assert Covers(merged, merged[i].end - 1) && Covers(merged, merged[i + 1].start);
    forall j | 0 <= j < |merged|
      ensures !Contains(merged[j], t)
    {
      assert j < i ==> merged[j].end < merged[i].start;
      assert i + 1 < j ==> merged[i + 1].end < merged[j].start;
    }
  }

  /** The gaps cover exactly what lies within the extent of the inputs and outside them. */
  lemma GapsAreTheUncoveredPart(merged: seq<Period>, gaps: seq<Period>, t: int)
    requires IsGaps(merged, gaps)
    ensures Covers(gaps, t) <==> Within(merged, t) && !Covers(merged, t)
  {
    if Covers(gaps, t) {
      GapPointIsUncovered(merged, gaps, t);
    } else if Within(merged, t) && !Covers(merged, t) {
      var a, b :| a <= t <= b && Covers(merged, a) && Covers(merged, b);
      var i :| 0 <= i < |merged| && Contains(merged[i], a);
      var j :| 0 <= j < |merged| && Contains(merged[j], b);
      GapAround(merged, gaps, i, j, t);
      assert false;
    }
  }

  /** Walking from an interval that ends before t to one that starts after it, some gap holds t. */
  lemma {:induction false} GapAround(merged: seq<Period>, gaps: seq<Period>, i: nat, j: nat, t: int)
    requires IsGaps(merged, gaps) && i < |merged| && j < |merged|
    requires merged[i].start <= t && t < merged[j].end && !Covers(merged, t)
    ensures Covers(gaps, t)
    decreases j - i
  {
    assert !Contains(merged[i], t) && !Contains(merged[j], t);
    assert i < j;
    if t < merged[i + 1].start {
      assert Contains(gaps[i], t);
    } else {
      GapAround(merged, gaps, i + 1, j, t);
    }
  }

  /** Merged time and gap time together make up the extent. */
  lemma {:induction false} GapsCompleteTheExtent(merged: seq<Period>, gaps: seq<Period>)
    requires IsGaps(merged, gaps) && merged != []
    ensures TotalLength(merged) + TotalLength(gaps) == merged[|merged| - 1].end - merged[0].start
  {
    if |merged| > 1 {
      GapsCompleteTheExtent(merged[..|merged| - 1], gaps[..|gaps| - 1]);
    } else {
      assert merged[..0] == [];
    }
  }

  lemma WithinSamePoints(ps: seq<Period>, qs: seq<Period>, t: int)
    requires (forall x :: Covers(ps, x) <==> Covers(qs, x)) && Within(ps, t)
    ensures Within(qs, t)
  {
    var a, b :| a <= t <= b && Covers(ps, a) && Covers(ps, b);
    assert Covers(qs, a) && Covers(qs, b);
  }

  method Gaps(periods: seq<Period>) returns (result: seq<Period>, ghost merged: seq<Period>)
    ensures IsMerge(periods, merged) && IsGaps(merged, result)
    ensures Canonical(result) && forall t :: Covers(result, t) <==> Within(periods, t) && !Covers(periods, t)
    ensures merged != [] ==> TotalLength(merged) + TotalLength(result) == merged[|merged| - 1].end - merged[0].start
  {
    var m := Merge(periods);
    merged := m;
    result := [];
    if |m| >= 2 {
      for i := 1 to |m|
        invariant |result| == i - 1
        invariant forall j :: 0 <= j < i - 1 ==> result[j] == Interval(m[j].end, m[j + 1].start)
      {
        result := result + [Interval(m[i - 1].end, m[i].start)];
      }
    }
    if merged != [] {
      GapsCompleteTheExtent(merged, result);
    }
    GapsCanonical(merged, result);
    forall t
      ensures Covers(result, t) <==> Within(periods, t) && !Covers(periods, t)
    {
      GapsAreTheUncoveredPart(merged, result, t);
      if Within(periods, t) { WithinSamePoints(periods, merged, t); }
      if Within(merged, t) { WithinSamePoints(merged, periods, t); }
    }
  }

  // ----- Subtract -----

  /** What has been kept of p up to cursor. */
  ghost predicate KeptUpTo(result: seq<Period>, p: Period, cuts: seq<Period>, cursor: int) {
    && Canonical(result)
    && (result != [] ==> result[|result| - 1].end < cursor)
    && forall t :: Covers(result, t) <==> p.start <= t < cursor && !Covers(cuts, t)
  }

  /** No cut reaches into the stretch from cursor to stop. */
  lemma KeepStretch(result: seq<Period>, p: Period, cuts: seq<Period>, cursor: int, stop: int)
    requires KeptUpTo(result, p, cuts, cursor) && p.start <= cursor < stop
    requires forall t :: cursor <= t < stop ==> !Covers(cuts, t)
    ensures Canonical(result + [Interval(cursor, stop)])
    ensures forall t :: Covers(result + [Interval(cursor, stop)], t) <==> p.start <= t < stop && !Covers(cuts, t)
  {
    forall t
      ensures Covers(result + [Interval(cursor, stop)], t) <==> p.start <= t < stop && !Covers(cuts, t)
    {
      CoversAppend(result, Interval(cursor, stop), t);
    }
  }

  method Subtract(p: Period, others: seq<Period>) returns (result: seq<Period>)
    ensures Canonical(result)
    ensures forall t :: Covers(result, t) <==> Contains(p, t) && !Covers(others, t)
  {
    result := [];
    if IsEmpty(p) {
      return;
    }
    var cursor := p.start;
    var cuts := Merge(others);
    for k := 0 to |cuts|
      invariant p.start <= cursor < p.end
      invariant KeptUpTo(result, p, cuts, cursor)
      invariant forall i :: 0 <= i < k ==> cuts[i].end <= cursor
    {
      var cut := cuts[k];
      if !(cut.end > cursor) {
        continue;
      }
      if !(cut.start < p.end) {
        ClearUpTo(cuts, k, cursor, p.end);
        KeepStretch(result, p, cuts, cursor, p.end);
        result := result + [Interval(cursor, p.end)];
        return;
      }
      ghost var before := result;
      if cut.start > cursor {
        ClearUpTo(cuts, k, cursor, cut.start);
        KeepStretch(result, p, cuts, cursor, cut.start);
        result := result + [Interval(cursor, cut.start)];
      }
      forall t | cut.start <= t < cut.end
        ensures Covers(cuts, t)
      {
        assert Contains(cuts[k], t);
      }
      cursor := cut.end;
      if !(cursor < p.end) {
        return;
      }
    }
    ClearUpTo(cuts, |cuts|, cursor, p.end);
    KeepStretch(result, p, cuts, cursor, p.end);
    result := result + [Interval(cursor, p.end)];
  }

  /** Cuts before k end by cursor and cuts from k on start at stop or later, so none lies between. */
  lemma ClearUpTo(cuts: seq<Period>, k: nat, cursor: int, stop: int)
    requires Canonical(cuts) && k <= |cuts|
    requires forall i :: 0 <= i < k ==> cuts[i].end <= cursor
    requires k < |cuts| ==> stop <= cuts[k].start
    ensures forall t :: cursor <= t < stop ==> !Covers(cuts, t)
  {
  }
}
