/**
 The wildcard matcher strings.Is (strings/strings.go). Go strings are byte sequences, and the matcher
 compares bytes.
 */
module Wildcard {
  type Bytes = seq<bv8>

  const STAR: bv8 := 42

  /** The meaning of a pattern: a star stands for any byte sequence, any other byte for itself. */
  ghost predicate Matches(pattern: Bytes, value: Bytes) {
    if pattern == [] then value == []
    else if pattern[0] == STAR then exists k :: 0 <= k <= |value| && Matches(pattern[1..], value[k..])
    else value != [] && pattern[0] == value[0] && Matches(pattern[1..], value[1..])
  }

  /** pattern matches some suffix of value that starts at or after `from`. */
  ghost predicate MatchesFrom(pattern: Bytes, value: Bytes, from: nat) {
    exists k :: from <= k <= |value| && Matches(pattern, value[k..])
  }

  /** segment has no star and value reads it at position `at`. */
  ghost predicate Reads(segment: Bytes, value: Bytes, at: nat) {
    at + |segment| <= |value| && value[at..at + |segment|] == segment && STAR !in segment
  }

  lemma {:induction false} LiteralSplit(segment: Bytes, rest: Bytes, value: Bytes)
    requires STAR !in segment
    ensures Matches(segment + rest, value) <==>
            |segment| <= |value| && value[..|segment|] == segment && Matches(rest, value[|segment|..])
  {
    if segment == [] {
      assert segment + rest == rest;
      assert value[0..] == value;
    } else {
      var pattern := segment + rest;
      assert pattern[0] == segment[0] && pattern[1..] == segment[1..] + rest;
      assert segment[0] in segment;
      if value != [] && segment[0] == value[0] {
        LiteralSplit(segment[1..], rest, value[1..]);
        if |segment| <= |value| {
          assert value[1..][|segment| - 1..] == value[|segment|..];
          assert value[..|segment|] == [value[0]] + value[1..][..|segment| - 1];
        }
      } else if |segment| <= |value| && value != [] {
        assert value[..|segment|][0] == value[0];
      }
    }
  }

  lemma {:induction false} MatchesItself(pattern: Bytes)
    ensures Matches(pattern, pattern)
  {
    if pattern != [] {
      MatchesItself(pattern[1..]);
    }
  }

  lemma StarMatchesFrom(pattern: Bytes, value: Bytes, at: nat)
    requires pattern != [] && pattern[0] == STAR && at <= |value|
    ensures Matches(pattern, value[at..]) <==> MatchesFrom(pattern[1..], value, at)
  {
    if Matches(pattern, value[at..]) {
      var k :| 0 <= k <= |value[at..]| && Matches(pattern[1..], value[at..][k..]);
      assert value[at..][k..] == value[at + k..];
    }
    if MatchesFrom(pattern[1..], value, at) {
      var k :| at <= k <= |value| && Matches(pattern[1..], value[k..]);
      assert value[at..][k - at..] == value[k..];
    }
  }

  /**
   Remembering only the last star is enough: once a literal segment has been read and another star
   follows, the earlier star need never move again.
   */
  lemma LaterStarSuffices(segment: Bytes, rest: Bytes, value: Bytes, from: nat)
    requires Reads(segment, value, from) && rest != [] && rest[0] == STAR
    ensures MatchesFrom(segment + rest, value, from) <==> MatchesFrom(rest[1..], value, from + |segment|)
  {
    var end := from + |segment|;
    if MatchesFrom(segment + rest, value, from) {
      var k :| from <= k <= |value| && Matches(segment + rest, value[k..]);
      LiteralSplit(segment, rest, value[k..]);
      assert value[k..][|segment|..] == value[k + |segment|..];
      StarMatchesFrom(rest, value, k + |segment|);
      var m :| k + |segment| <= m <= |value| && Matches(rest[1..], value[m..]);
      assert end <= m;
    }
    if MatchesFrom(rest[1..], value, end) {
      StarMatchesFrom(rest, value, end);
      LiteralSplit(segment, rest, value[from..]);
      assert value[from..][|segment|..] == value[end..];
      assert value[from..][..|segment|] == value[from..end];
      assert Matches(segment + rest, value[from..]);
    }
  }

  /** A failed attempt at matchIndex leaves only later starting points. */
  lemma FailedAttempt(segment: Bytes, rest: Bytes, value: Bytes, from: nat)
    requires Reads(segment, value, from) && !Matches(rest, value[from + |segment|..])
    ensures MatchesFrom(segment + rest, value, from) <==> MatchesFrom(segment + rest, value, from + 1)
  {
    LiteralSplit(segment, rest, value[from..]);
    assert value[from..][|segment|..] == value[from + |segment|..];
  }

  /** With the value used up, only the attempt under way can still succeed, on an empty remainder. */
  lemma LastAttempt(segment: Bytes, rest: Bytes, value: Bytes, from: nat)
    requires Reads(segment, value, from) && from + |segment| == |value|
    ensures MatchesFrom(segment + rest, value, from) <==> Matches(rest, [])
    ensures Matches(segment + rest, value[from..]) <==> Matches(rest, [])
  {
    LiteralSplit(segment, rest, value[from..]);
    assert value[from..][|segment|..] == [];
    assert value[from..][..|segment|] == value[from..from + |segment|];
    if MatchesFrom(segment + rest, value, from) {
      var k :| from <= k <= |value| && Matches(segment + rest, value[k..]);
      LiteralSplit(segment, rest, value[k..]);
      assert k == from;
    }
  }

  lemma {:induction false} OnlyStarsMatchEmpty(pattern: Bytes)
    ensures Matches(pattern, []) <==> forall i :: 0 <= i < |pattern| ==> pattern[i] == STAR
  {
    if pattern != [] {
      OnlyStarsMatchEmpty(pattern[1..]);
      var empty: Bytes := [];
      assert empty[0..] == empty;
      if Matches(pattern, []) {
        forall i | 0 <= i < |pattern|
          ensures pattern[i] == STAR
        {
          if i > 0 {
            assert pattern[1..][i - 1] == STAR;
          }
        }
      }
    }
  }

  /**
   The state of the search: the literal segment after the last star has been read at matchIndex, and the
   answer is whether that star can stand for matchIndex bytes or more. Before any star, starIndex is -1.
   */
  ghost predicate Searching(pattern: Bytes, value: Bytes, starIndex: int, matchIndex: nat, patternIndex: nat) {
    && -1 <= starIndex < patternIndex <= |pattern|
    && Reads(pattern[starIndex + 1..patternIndex], value, matchIndex)
    && if starIndex == -1 then matchIndex == 0
       else Matches(pattern, value) <==> MatchesFrom(pattern[starIndex + 1..], value, matchIndex)
  }

  function ValueIndex(starIndex: int, matchIndex: int, patternIndex: int): int {
    matchIndex + (patternIndex - starIndex - 1)
  }

  lemma TakeStar(pattern: Bytes, value: Bytes, starIndex: int, matchIndex: nat, patternIndex: nat)
    requires Searching(pattern, value, starIndex, matchIndex, patternIndex)
    requires patternIndex < |pattern| && pattern[patternIndex] == STAR
    ensures Searching(pattern, value, patternIndex, ValueIndex(starIndex, matchIndex, patternIndex), patternIndex + 1)
  {
    var segment, rest := pattern[starIndex + 1..patternIndex], pattern[patternIndex..];
    assert pattern[starIndex + 1..] == segment + rest;
    assert rest[1..] == pattern[patternIndex + 1..];
    if starIndex == -1 {
      LiteralSplit(segment, rest, value);
      assert pattern == segment + rest && value[..|segment|] == value[0..|segment|];
      StarMatchesFrom(rest, value, patternIndex);
    } else {
      LaterStarSuffices(segment, rest, value, matchIndex);
    }
  }

  lemma TakeByte(pattern: Bytes, value: Bytes, starIndex: int, matchIndex: nat, patternIndex: nat)
    requires Searching(pattern, value, starIndex, matchIndex, patternIndex)
    requires patternIndex < |pattern| && pattern[patternIndex] != STAR
    requires ValueIndex(starIndex, matchIndex, patternIndex) < |value|
    requires pattern[patternIndex] == value[ValueIndex(starIndex, matchIndex, patternIndex)]
    ensures Searching(pattern, value, starIndex, matchIndex, patternIndex + 1)
  {
    var segment := pattern[starIndex + 1..patternIndex];
    var longer := pattern[starIndex + 1..patternIndex + 1];
    var at := ValueIndex(starIndex, matchIndex, patternIndex);
    assert longer == segment + [pattern[patternIndex]];
    assert value[matchIndex..matchIndex + |longer|] == value[matchIndex..at] + [value[at]];
  }

  /** Neither a star nor the right byte comes next: the attempt fails. */
  ghost predicate Stuck(pattern: Bytes, value: Bytes, starIndex: int, matchIndex: nat, patternIndex: nat) {
    && -1 <= starIndex < patternIndex <= |pattern| && ValueIndex(starIndex, matchIndex, patternIndex) < |value|
    && (patternIndex < |pattern| ==>
          && pattern[patternIndex] != STAR
          && pattern[patternIndex] != value[ValueIndex(starIndex, matchIndex, patternIndex)])
  }

  lemma StuckAttemptFails(pattern: Bytes, value: Bytes, starIndex: int, matchIndex: nat, patternIndex: nat)
    requires Searching(pattern, value, starIndex, matchIndex, patternIndex)
    requires Stuck(pattern, value, starIndex, matchIndex, patternIndex)
    ensures if starIndex == -1 then !Matches(pattern, value)
            else Searching(pattern, value, starIndex, matchIndex + 1, starIndex + 1)
  {
    var segment, rest := pattern[starIndex + 1..patternIndex], pattern[patternIndex..];
    assert pattern[starIndex + 1..] == segment + rest;
    var at := ValueIndex(starIndex, matchIndex, patternIndex);
    assert !Matches(rest, value[at..]);
    if starIndex == -1 {
      assert pattern == segment + rest;
      LiteralSplit(segment, rest, value);
    } else {
      FailedAttempt(segment, rest, value, matchIndex);
    }
  }

  lemma ValueUsedUp(pattern: Bytes, value: Bytes, starIndex: int, matchIndex: nat, patternIndex: nat)
    requires Searching(pattern, value, starIndex, matchIndex, patternIndex)
    requires ValueIndex(starIndex, matchIndex, patternIndex) == |value|
    ensures Matches(pattern, value) <==> forall i :: patternIndex <= i < |pattern| ==> pattern[i] == STAR
  {
    var segment, rest := pattern[starIndex + 1..patternIndex], pattern[patternIndex..];
    assert pattern[starIndex + 1..] == segment + rest;
    assert pattern[0..] == pattern && value[0..] == value;
    LastAttempt(segment, rest, value, matchIndex);
    OnlyStarsMatchEmpty(rest);
    assert forall i :: patternIndex <= i < |pattern| ==> pattern[i] == rest[i - patternIndex];
    assert forall i :: 0 <= i < |rest| ==> rest[i] == pattern[patternIndex + i];
  }

  method Is(pattern: Bytes, value: Bytes) returns (matched: bool)
    ensures matched <==> Matches(pattern, value)
  {
    if pattern == value {
      MatchesItself(pattern);
      return true;
    }
    var patternIndex, valueIndex := 0, 0;
    var starIndex, matchIndex := -1, 0;
    while valueIndex < |value|
      invariant 0 <= matchIndex && 0 <= patternIndex
      invariant Searching(pattern, value, starIndex, matchIndex, patternIndex)
      invariant valueIndex == ValueIndex(starIndex, matchIndex, patternIndex) <= |value|
      decreases |pattern| - starIndex, |value| - matchIndex, |pattern| - patternIndex
    {
      if patternIndex < |pattern| && pattern[patternIndex] == STAR {
        TakeStar(pattern, value, starIndex, matchIndex, patternIndex);
        starIndex := patternIndex;
        matchIndex := valueIndex;
        patternIndex := patternIndex + 1;
        continue;
      }
      if patternIndex < |pattern| && pattern[patternIndex] == value[valueIndex] {
        TakeByte(pattern, value, starIndex, matchIndex, patternIndex);
        patternIndex := patternIndex + 1;
        valueIndex := valueIndex + 1;
        continue;
      }
      StuckAttemptFails(pattern, value, starIndex, matchIndex, patternIndex);
      if starIndex == -1 {
        return false;
      }
      patternIndex := starIndex + 1;
      matchIndex := matchIndex + 1;
      valueIndex := matchIndex;
    }
    ValueUsedUp(pattern, value, starIndex, matchIndex, patternIndex);
    while patternIndex < |pattern| && pattern[patternIndex] == STAR
      invariant 0 <= patternIndex <= |pattern|
      invariant Matches(pattern, value) <==> forall i :: patternIndex <= i < |pattern| ==> pattern[i] == STAR
    {
      patternIndex := patternIndex + 1;
    }
    matched := patternIndex == |pattern|;
  }
}
