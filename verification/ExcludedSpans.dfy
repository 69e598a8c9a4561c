/** Byte ranges kept out of the pattern passes, merged for lookup by bisection. */
module ExcludedSpans {
  import opened LineIndices

  /** From `start` up to but not including `end`; malformed, and so empty, if `end` comes first. */
  datatype Range = Range(start: nat, end: nat)

  predicate Holds(r: Range, offset: nat) {
    r.start <= offset < r.end
  }

  ghost predicate Covers(ranges: seq<Range>, offset: nat) {
    exists i :: 0 <= i < |ranges| && Holds(ranges[i], offset)
  }

  ghost predicate SortedByStart(ranges: seq<Range>) {
    forall i, j :: 0 <= i <= j < |ranges| ==> ranges[i].start <= ranges[j].start
  }

  /** Sorted, and each range starts beyond where the one before it ends. */
  ghost predicate Gapped(ranges: seq<Range>) {
    SortedByStart(ranges) && forall i :: 0 <= i < |ranges| - 1 ==> ranges[i].end < ranges[i + 1].start
  }

  /** Enter `r` after every range that does not start later, keeping the order of equals. */
  function InsertSorted(ranges: seq<Range>, r: Range): seq<Range> {
    if ranges == [] || ranges[|ranges| - 1].start <= r.start then ranges + [r]
    else InsertSorted(ranges[..|ranges| - 1], r) + [ranges[|ranges| - 1]]
  }

  /** Stable sort by start. */
  function SortByStart(ranges: seq<Range>): seq<Range> {
    if ranges == [] then [] else InsertSorted(SortByStart(ranges[..|ranges| - 1]), ranges[|ranges| - 1])
  }

  /** Merge `rest` into `current`: a range that starts no later than `current` ends is absorbed. */
  function MergeInto(current: Range, rest: seq<Range>): seq<Range>
    decreases |rest|
  {
    if rest == [] then [current]
    else if rest[0].start <= current.end then
      MergeInto(Range(current.start, if rest[0].end > current.end then rest[0].end else current.end), rest[1..])
    else [current] + MergeInto(rest[0], rest[1..])
  }

  function Optimized(ranges: seq<Range>): seq<Range> {
    var sorted := SortByStart(ranges);
    if sorted == [] then [] else MergeInto(sorted[0], sorted[1..])
  }

  class ExcludedRanges {
    var ranges: seq<Range>
    /** Everything ever added. */
    ghost var added: seq<Range>

    /** The stored ranges cover what the added ranges cover. */
    ghost predicate Valid()
      reads this
    {
      forall offset: nat :: Covers(ranges, offset) <==> Covers(added, offset)
    }

    constructor ()
      ensures Valid() && ranges == [] && added == []
    {
      ranges, added := [], [];
    }

    method Add(range: Range)
      requires Valid()
      modifies this
      ensures Valid() && ranges == old(ranges) + [range] && added == old(added) + [range]
    {
      CoversAdd(ranges, range);
      CoversAdd(added, range);
      ranges, added := ranges + [range], added + [range];
    }

    /** Sort, then merge ranges that overlap or touch. */
    method Optimize()
      requires Valid()
      modifies `ranges
      ensures Valid() && Gapped(ranges) && ranges == Optimized(old(ranges))
      ensures old(Gapped(ranges)) ==> ranges == old(ranges)
    {
      hide Covers, Gapped, SortByStart;
      SortKeeps(ranges);
      OptimizedIsGapped(ranges);
      OptimizedCovers(ranges);
      if Gapped(ranges) {
        OptimizedTwice(ranges);
      }
      if ranges == [] {
        return;
      }
      ranges := MergeSorted(SortByStart(ranges));
    }

    /** One pass over sorted ranges, keeping the one that still grows apart. */
    static method MergeSorted(sorted: seq<Range>) returns (merged: seq<Range>)
      requires sorted != []
      ensures merged == MergeInto(sorted[0], sorted[1..])
    {
      var current := sorted[0];
      merged := [];
      var i := 1;
      while i < |sorted|
        invariant 1 <= i <= |sorted|
        invariant merged + MergeInto(current, sorted[i..]) == MergeInto(sorted[0], sorted[1..])
      {
        assert sorted[i..][1..] == sorted[i + 1..];
        if sorted[i].start <= current.end {
          current := Range(current.start, if sorted[i].end > current.end then sorted[i].end else current.end);
        } else {
          assert merged + ([current] + MergeInto(sorted[i], sorted[i + 1..]))
              == (merged + [current]) + MergeInto(sorted[i], sorted[i + 1..]);
          merged := merged + [current];
          current := sorted[i];
        }
        i := i + 1;
      }
      merged := merged + [current];
    }

    /** Whether some added range holds the offset, by looking at one range alone. */
    function Contains(offset: nat): (found: bool)
      requires Valid() && Gapped(ranges)
      reads this
      ensures found <==> Covers(added, offset)
      ensures found <==> exists i :: 0 <= i < |added| && added[i].start <= offset && offset < added[i].end
    {
      assert Covers(ranges, offset) <==> Covers(added, offset);
      if ranges == [] then false
      else
        var idx := PartitionPoint(StartsOf(ranges), offset, 0, |ranges|);
        OnlyCandidate(ranges, offset, idx);
        if idx == 0 then false else offset < ranges[idx - 1].end
    }
  }

  function StartsOf(ranges: seq<Range>): (starts: seq<nat>)
    ensures |starts| == |ranges| && forall i :: 0 <= i < |ranges| ==> starts[i] == ranges[i].start
  {
    seq<nat>(|ranges|, i requires 0 <= i < |ranges| => ranges[i].start)
  }

  /** With gaps between ranges, only the last one that starts in time can hold the offset. */
  lemma OnlyCandidate(ranges: seq<Range>, offset: nat, idx: nat)
    requires Gapped(ranges) && idx <= |ranges|
    requires forall j :: 0 <= j < idx ==> ranges[j].start <= offset
    requires forall j :: idx <= j < |ranges| ==> ranges[j].start > offset
    ensures Covers(ranges, offset) <==> idx > 0 && offset < ranges[idx - 1].end
  {
    forall i | 0 <= i < idx - 1 ensures ranges[i].end <= offset {
      assert ranges[i].end < ranges[i + 1].start;
    }
    if idx > 0 && offset < ranges[idx - 1].end {
      assert Holds(ranges[idx - 1], offset);
    }
  }

  lemma CoversAdd(ranges: seq<Range>, r: Range)
    ensures forall offset: nat :: Covers(ranges + [r], offset) <==> Covers(ranges, offset) || Holds(r, offset)
  {
    CoversConcat(ranges, [r]);
    forall offset: nat ensures Covers([r], offset) <==> Holds(r, offset) {
      assert Holds(r, offset) ==> Holds([r][0], offset);
    }
  }

  lemma CoversConcat(a: seq<Range>, b: seq<Range>)
    ensures forall offset: nat :: Covers(a + b, offset) <==> Covers(a, offset) || Covers(b, offset)
  {
    forall offset: nat ensures Covers(a + b, offset) <==> Covers(a, offset) || Covers(b, offset) {
      if i :| 0 <= i < |a| && Holds(a[i], offset) {
        assert Holds((a + b)[i], offset);
      }
      if i :| 0 <= i < |b| && Holds(b[i], offset) {
        assert Holds((a + b)[|a| + i], offset);
      }
      if i :| 0 <= i < |a + b| && Holds((a + b)[i], offset) {
        assert i < |a| ==> Holds(a[i], offset);
        assert i >= |a| ==> Holds(b[i - |a|], offset);
      }
    }
  }

  lemma AppendSorted(init: seq<Range>, last: Range)
    requires SortedByStart(init) && forall x :: x in init ==> x.start <= last.start
    ensures SortedByStart(init + [last])
  {
  }

  lemma {:induction false} InsertKeeps(ranges: seq<Range>, r: Range)
    requires SortedByStart(ranges)
    ensures SortedByStart(InsertSorted(ranges, r))
    ensures multiset(InsertSorted(ranges, r)) == multiset(ranges) + multiset{r}
    ensures forall x :: x in InsertSorted(ranges, r) ==> x in ranges || x == r
  {
    if ranges == [] || ranges[|ranges| - 1].start <= r.start {
      AppendSorted(ranges, r);
    } else {
      var init, last := ranges[..|ranges| - 1], ranges[|ranges| - 1];
      InsertKeeps(init, r);
      forall x | x in InsertSorted(init, r) ensures x.start <= last.start {
      }
      AppendSorted(InsertSorted(init, r), last);
      assert ranges == init + [last];
      assert multiset(ranges) == multiset(init) + multiset{last};
    }
  }

  lemma {:induction false} SortKeeps(ranges: seq<Range>)
    ensures SortedByStart(SortByStart(ranges)) && multiset(SortByStart(ranges)) == multiset(ranges)
    ensures |SortByStart(ranges)| == |ranges|
  {
    if ranges != [] {
      var init := ranges[..|ranges| - 1];
      SortKeeps(init);
      InsertKeeps(SortByStart(init), ranges[|ranges| - 1]);
      assert ranges == init + [ranges[|ranges| - 1]];
    }
    assert |multiset(SortByStart(ranges))| == |multiset(ranges)|;
  }

  lemma {:induction false} SortOfSorted(ranges: seq<Range>)
    requires SortedByStart(ranges)
    ensures SortByStart(ranges) == ranges
  {
    if ranges != [] {
      var init, last := ranges[..|ranges| - 1], ranges[|ranges| - 1];
      SortOfSorted(init);
      assert InsertSorted(init, last) == init + [last];
    }
  }

  lemma SameMembersCoverSame(a: seq<Range>, b: seq<Range>)
    requires multiset(a) == multiset(b)
    ensures forall offset: nat :: Covers(a, offset) <==> Covers(b, offset)
  {
    forall offset: nat ensures Covers(a, offset) <==> Covers(b, offset) {
      if i :| 0 <= i < |a| && Holds(a[i], offset) {
        assert a[i] in multiset(b);
      }
      if i :| 0 <= i < |b| && Holds(b[i], offset) {
        assert b[i] in multiset(a);
      }
    }
  }

  /** The merged list starts where `current` does, has gaps throughout, and covers what went in. */
  lemma {:induction false} MergeKeeps(current: Range, rest: seq<Range>)
    requires SortedByStart([current] + rest)
    ensures var merged := MergeInto(current, rest);
            && merged != [] && merged[0].start == current.start && Gapped(merged)
            && forall offset: nat :: Covers(merged, offset) <==> Covers([current] + rest, offset)
    decreases |rest|
  {
    if rest == [] {
      assert [current] + rest == [current];
    } else {
      var first, others := rest[0], rest[1..];
      assert rest == [first] + others;
      var all := [current] + rest;
      assert all[0].start <= all[1].start;
      if first.start <= current.end {
        var grown := Range(current.start, if first.end > current.end then first.end else current.end);
        assert forall i :: 1 <= i < |[grown] + others| ==> ([grown] + others)[i] == all[i + 1];
        MergeKeeps(grown, others);
        MergedPairCovers(current, first, grown, others);
      } else {
        assert forall i :: 0 <= i < |[first] + others| ==> ([first] + others)[i] == all[i + 1];
        MergeKeeps(first, others);
        var merged := MergeInto(first, others);
        CoversConcat([current], merged);
        CoversConcat([current], [first] + others);
        assert [current] + ([first] + others) == [current] + rest;
      }
    }
  }

  lemma MergedPairCovers(current: Range, first: Range, grown: Range, others: seq<Range>)
    requires current.start <= first.start <= current.end
    requires grown == Range(current.start, if first.end > current.end then first.end else current.end)
    ensures forall offset: nat :: Covers([grown] + others, offset) <==> Covers([current] + ([first] + others), offset)
  {
    CoversConcat([grown], others);
    CoversConcat([first], others);
    CoversConcat([current], [first] + others);
    CoversAdd([], grown);
    CoversAdd([], current);
    CoversAdd([], first);
    assert [] + [grown] == [grown] && [] + [current] == [current] && [] + [first] == [first];
  }

  lemma OptimizedIsGapped(ranges: seq<Range>)
    ensures Gapped(Optimized(ranges))
  {
    SortKeeps(ranges);
    var sorted := SortByStart(ranges);
    if sorted != [] {
      assert [sorted[0]] + sorted[1..] == sorted;
      MergeKeeps(sorted[0], sorted[1..]);
    }
  }

  /** Merging changes nothing about which offsets are excluded, malformed ranges included. */
  lemma OptimizedCovers(ranges: seq<Range>)
    ensures forall offset: nat :: Covers(Optimized(ranges), offset) <==> Covers(ranges, offset)
  {
    SortKeeps(ranges);
    var sorted := SortByStart(ranges);
    SameMembersCoverSame(sorted, ranges);
    if sorted != [] {
      assert [sorted[0]] + sorted[1..] == sorted;
      MergeKeeps(sorted[0], sorted[1..]);
    }
  }

  lemma {:induction false} MergeOfGapped(current: Range, rest: seq<Range>)
    requires Gapped([current] + rest)
    ensures MergeInto(current, rest) == [current] + rest
    decreases |rest|
  {
    if rest != [] {
      var all := [current] + rest;
      assert all[0].end < all[1].start;
      assert [rest[0]] + rest[1..] == rest && rest == all[1..];
      forall i | 0 <= i < |rest| ensures rest[i] == all[i + 1] {
      }
      MergeOfGapped(rest[0], rest[1..]);
    }
  }

  /** Optimizing a list that already has its gaps does nothing. */
  lemma OptimizedTwice(ranges: seq<Range>)
    requires Gapped(ranges)
    ensures Optimized(ranges) == ranges
  {
    hide SortByStart, MergeInto;
    SortOfSorted(ranges);
    if ranges != [] {
      assert [ranges[0]] + ranges[1..] == ranges;
      MergeOfGapped(ranges[0], ranges[1..]);
    }
  }

  lemma OptimizedIsIdempotent(ranges: seq<Range>)
    ensures Optimized(Optimized(ranges)) == Optimized(ranges)
  {
    OptimizedIsGapped(ranges);
    OptimizedTwice(Optimized(ranges));
  }
}
