/**
 The interval-set algebra of the ledger tracker (backend/src/indexer/ledgerTracker.ts).

 A list of closed ranges stands for the set of ledgers it covers.  `Canonical` lists are the
 compact form that the range table stores; a set of ledgers has exactly one of them.
 */
module LedgerRanges {
  import opened Common

  datatype LedgerRange = LedgerRange(start: int, end: int)

  predicate Contains(r: LedgerRange, ledger: int) {
    r.start <= ledger <= r.end
  }

  ghost predicate Covers(ranges: seq<LedgerRange>, ledger: int) {
    exists r :: r in ranges && Contains(r, ledger)
  }

  ghost predicate SameCoverage(a: seq<LedgerRange>, b: seq<LedgerRange>) {
    forall ledger :: Covers(a, ledger) <==> Covers(b, ledger)
  }

  predicate WellFormed(ranges: seq<LedgerRange>) {
    forall r :: r in ranges ==> r.start <= r.end
  }

  /** Sorted, non-empty, disjoint and non-adjacent. */
  predicate Canonical(ranges: seq<LedgerRange>) {
    && WellFormed(ranges)
    && forall i, j :: 0 <= i < j < |ranges| ==> ranges[i].end + 1 < ranges[j].start
  }

  // ----- Coverage of pieces of a list -----

  lemma CoversConcat(a: seq<LedgerRange>, b: seq<LedgerRange>, ledger: int)
    ensures Covers(a + b, ledger) <==> Covers(a, ledger) || Covers(b, ledger)
  {
    if Covers(a, ledger) {
      var r :| r in a && Contains(r, ledger);
      assert r in a + b;
    }
    if Covers(b, ledger) {
      var r :| r in b && Contains(r, ledger);
      assert r in a + b;
    }
  }

  lemma CoversSingle(r: LedgerRange, ledger: int)
    ensures Covers([r], ledger) <==> Contains(r, ledger)
  {
    if Contains(r, ledger) {
      assert r in [r];
    }
  }

  lemma CoversHeadTail(ranges: seq<LedgerRange>, ledger: int)
    requires ranges != []
    ensures Covers(ranges, ledger) <==> Contains(ranges[0], ledger) || Covers(ranges[1..], ledger)
  {
    assert ranges == [ranges[0]] + ranges[1..];
    CoversConcat([ranges[0]], ranges[1..], ledger);
    CoversSingle(ranges[0], ledger);
  }

  // ----- The canonical form -----

  lemma CanonicalTail(ranges: seq<LedgerRange>)
    requires Canonical(ranges) && ranges != []
    ensures Canonical(ranges[1..])
  {}

  /** Beyond the first range of a canonical list there is a gap of at least one ledger. */
  lemma CanonicalGapAfterHead(ranges: seq<LedgerRange>, r: LedgerRange)
    requires Canonical(ranges) && ranges != [] && r in ranges[1..]
    ensures ranges[0].end + 1 < r.start
  {
    var k :| 0 <= k < |ranges| - 1 && ranges[1..][k] == r;
    assert ranges[k + 1] == r;
  }

  lemma CanonicalHeadBounds(ranges: seq<LedgerRange>, ledger: int)
    requires Canonical(ranges) && ranges != [] && Covers(ranges, ledger)
    ensures ranges[0].start <= ledger
    ensures Contains(ranges[0], ledger) || ranges[0].end + 1 < ledger
  {
    var r :| r in ranges && Contains(r, ledger);
    assert ranges[0] in ranges;
    if r != ranges[0] {
      assert r in ranges[1..];
      CanonicalGapAfterHead(ranges, r);
    }
  }

  lemma CanonicalHeadCovered(ranges: seq<LedgerRange>)
    requires Canonical(ranges) && ranges != []
    ensures Covers(ranges, ranges[0].start)
    ensures Covers(ranges, ranges[0].end)
    ensures !Covers(ranges, ranges[0].end + 1)
  {
    assert ranges[0] in ranges && Contains(ranges[0], ranges[0].start) && Contains(ranges[0], ranges[0].end);
    if Covers(ranges, ranges[0].end + 1) {
      CanonicalHeadBounds(ranges, ranges[0].end + 1);
    }
  }

  lemma EmptyCoverage(ranges: seq<LedgerRange>)
    requires Canonical(ranges)
    ensures ranges == [] <==> forall ledger :: !Covers(ranges, ledger)
  {
    if ranges != [] {
      CanonicalHeadCovered(ranges);
    }
  }

  /** Two canonical lists that cover the same ledgers are the same list. */
  lemma {:induction false} CanonicalUnique(a: seq<LedgerRange>, b: seq<LedgerRange>)
    requires Canonical(a) && Canonical(b) && SameCoverage(a, b)
    ensures a == b
  {
    if a == [] || b == [] {
      EmptyCoverage(a);
      EmptyCoverage(b);
    } else {
      SameHead(a, b);
      CanonicalTail(a);
      CanonicalTail(b);
      forall ledger ensures Covers(a[1..], ledger) <==> Covers(b[1..], ledger) {
        TailCoverage(a, ledger);
        TailCoverage(b, ledger);
        assert Covers(a, ledger) <==> Covers(b, ledger);
      }
      CanonicalUnique(a[1..], b[1..]);
      assert a == [a[0]] + a[1..] && b == [b[0]] + b[1..];
    }
  }

  lemma SameHead(a: seq<LedgerRange>, b: seq<LedgerRange>)
    requires Canonical(a) && Canonical(b) && SameCoverage(a, b) && a != [] && b != []
    ensures a[0] == b[0]
  {
    CanonicalHeadCovered(a);
    CanonicalHeadCovered(b);
    CanonicalHeadBounds(a, b[0].start);
    CanonicalHeadBounds(b, a[0].start);
    assert a[0].start == b[0].start;
    CanonicalHeadBounds(a, b[0].end);
    CanonicalHeadBounds(b, a[0].end);
    assert !Covers(b, a[0].end + 1) && !Covers(a, b[0].end + 1);
    assert a[0] in a && b[0] in b;
    assert !Contains(a[0], b[0].end + 1) && !Contains(b[0], a[0].end + 1);
  }

  lemma TailCoverage(ranges: seq<LedgerRange>, ledger: int)
    requires Canonical(ranges) && ranges != []
    ensures Covers(ranges[1..], ledger) <==> Covers(ranges, ledger) && !Contains(ranges[0], ledger)
  {
    CoversHeadTail(ranges, ledger);
    if Covers(ranges[1..], ledger) {
      var r :| r in ranges[1..] && Contains(r, ledger);
      CanonicalGapAfterHead(ranges, r);
    }
  }

  // ----- Reference definition: insert the ranges one at a time -----

  function Insert(ranges: seq<LedgerRange>, r: LedgerRange): seq<LedgerRange> {
    if ranges == [] then [r]
    else if r.end + 1 < ranges[0].start then [r] + ranges
    else if ranges[0].end + 1 < r.start then [ranges[0]] + Insert(ranges[1..], r)
    else Insert(ranges[1..], LedgerRange(Min(r.start, ranges[0].start), Max(r.end, ranges[0].end)))
  }

  /** The compact list of a list of ranges, defined by recording them one by one. */
  function Coalesce(ranges: seq<LedgerRange>): seq<LedgerRange> {
    if ranges == [] then [] else Insert(Coalesce(ranges[..|ranges| - 1]), ranges[|ranges| - 1])
  }

  lemma {:induction false} InsertCoverage(ranges: seq<LedgerRange>, r: LedgerRange, ledger: int)
    requires Canonical(ranges) && r.start <= r.end
    ensures Covers(Insert(ranges, r), ledger) <==> Covers(ranges, ledger) || Contains(r, ledger)
  {
    if ranges == [] {
      CoversSingle(r, ledger);
    } else {
      CanonicalTail(ranges);
      CoversHeadTail(ranges, ledger);
      assert ranges[0] in ranges;
      if r.end + 1 < ranges[0].start {
        CoversConcat([r], ranges, ledger);
        CoversSingle(r, ledger);
      } else if ranges[0].end + 1 < r.start {
        InsertCoverage(ranges[1..], r, ledger);
        CoversConcat([ranges[0]], Insert(ranges[1..], r), ledger);
        CoversSingle(ranges[0], ledger);
      } else {
        InsertCoverage(ranges[1..], LedgerRange(Min(r.start, ranges[0].start), Max(r.end, ranges[0].end)), ledger);
      }
    }
  }

  /** Inserting keeps the list canonical, and no range of the result starts below both arguments. */
  lemma {:induction false} InsertCanonical(ranges: seq<LedgerRange>, r: LedgerRange)
    requires Canonical(ranges) && r.start <= r.end
    ensures Canonical(Insert(ranges, r)) && Insert(ranges, r) != []
    ensures forall x :: x in Insert(ranges, r) ==> x.start >= r.start || exists y :: y in ranges && x.start >= y.start
  {
    if ranges != [] {
      CanonicalTail(ranges);
      assert ranges[0] in ranges;
      if ranges[0].end + 1 < r.start {
        InsertCanonical(ranges[1..], r);
        var rest := Insert(ranges[1..], r);
        forall x | x in rest ensures ranges[0].end + 1 < x.start {
          if x.start < r.start {
            var y :| y in ranges[1..] && x.start >= y.start;
            CanonicalGapAfterHead(ranges, y);
          }
        }
      } else if r.end + 1 >= ranges[0].start {
        InsertCanonical(ranges[1..], LedgerRange(Min(r.start, ranges[0].start), Max(r.end, ranges[0].end)));
      }
    }
  }

  lemma {:induction false} CoalesceCanonical(ranges: seq<LedgerRange>)
    requires WellFormed(ranges)
    ensures Canonical(Coalesce(ranges))
    ensures SameCoverage(Coalesce(ranges), ranges)
  {
    if ranges != [] {
      var init, last := ranges[..|ranges| - 1], ranges[|ranges| - 1];
      CoalesceCanonical(init);
      InsertCanonical(Coalesce(init), last);
      forall ledger ensures Covers(Coalesce(ranges), ledger) <==> Covers(ranges, ledger) {
        InsertCoverage(Coalesce(init), last, ledger);
        assert ranges == init + [last];
        CoversConcat(init, [last], ledger);
        CoversSingle(last, ledger);
        assert Covers(Coalesce(init), ledger) <==> Covers(init, ledger);
      }
    }
  }

  /** The compact list is the only canonical list with the coverage of the input. */
  lemma CoalesceUnique(ranges: seq<LedgerRange>, compact: seq<LedgerRange>)
    requires WellFormed(ranges) && Canonical(compact) && SameCoverage(compact, ranges)
    ensures compact == Coalesce(ranges)
  {
    CoalesceCanonical(ranges);
    forall ledger ensures Covers(compact, ledger) <==> Covers(Coalesce(ranges), ledger) {
      assert Covers(compact, ledger) <==> Covers(ranges, ledger);
      assert Covers(Coalesce(ranges), ledger) <==> Covers(ranges, ledger);
    }
    CanonicalUnique(compact, Coalesce(ranges));
  }

  lemma CoalesceIdempotent(ranges: seq<LedgerRange>)
    requires WellFormed(ranges)
    ensures Coalesce(Coalesce(ranges)) == Coalesce(ranges)
  {
    CoalesceCanonical(ranges);
    CoalesceUnique(Coalesce(ranges), Coalesce(ranges));
  }

  /** Order and repetition of the input do not matter: only the set of ranges does. */
  lemma CoalesceIgnoresOrderAndDuplicates(a: seq<LedgerRange>, b: seq<LedgerRange>)
    requires WellFormed(a) && WellFormed(b)
    requires forall r :: r in a <==> r in b
    ensures Coalesce(a) == Coalesce(b)
  {
    CoalesceCanonical(b);
    forall ledger ensures Covers(Coalesce(b), ledger) <==> Covers(a, ledger) {
      assert Covers(Coalesce(b), ledger) <==> Covers(b, ledger);
      if Covers(a, ledger) {
        var r :| r in a && Contains(r, ledger);
        assert r in b;
      }
      if Covers(b, ledger) {
        var r :| r in b && Contains(r, ledger);
        assert r in a;
      }
    }
    CoalesceUnique(a, Coalesce(b));
  }

  /** Recording a second batch into the compact form of the first equals coalescing both at once. */
  lemma CoalesceIncremental(a: seq<LedgerRange>, b: seq<LedgerRange>)
    requires WellFormed(a) && WellFormed(b)
    ensures Coalesce(Coalesce(a) + b) == Coalesce(a + b)
  {
    CoalesceCanonical(a);
    CoalesceCanonical(Coalesce(a) + b);
    forall ledger ensures Covers(Coalesce(Coalesce(a) + b), ledger) <==> Covers(a + b, ledger) {
      assert Covers(Coalesce(Coalesce(a) + b), ledger) <==> Covers(Coalesce(a) + b, ledger);
      CoversConcat(Coalesce(a), b, ledger);
      CoversConcat(a, b, ledger);
      assert Covers(Coalesce(a), ledger) <==> Covers(a, ledger);
    }
    CoalesceUnique(a + b, Coalesce(Coalesce(a) + b));
  }

  // ----- coalesceRanges -----

  predicate SortedByStart(ranges: seq<LedgerRange>) {
    forall i, j :: 0 <= i < j < |ranges| ==> ranges[i].start <= ranges[j].start
  }

  /** The library sort that `coalesceRanges` calls: stable, by start. */
  function SortByStart(ranges: seq<LedgerRange>): seq<LedgerRange> {
    if ranges == [] then []
    else InsertSorted(SortByStart(ranges[..|ranges| - 1]), ranges[|ranges| - 1])
  }

  function InsertSorted(sorted: seq<LedgerRange>, r: LedgerRange): seq<LedgerRange> {
    if sorted == [] then [r]
    else if r.start < sorted[0].start then [r] + sorted
    else [sorted[0]] + InsertSorted(sorted[1..], r)
  }

  lemma {:induction false} InsertSortedSorts(sorted: seq<LedgerRange>, r: LedgerRange)
    requires SortedByStart(sorted)
    ensures SortedByStart(InsertSorted(sorted, r))
    ensures |InsertSorted(sorted, r)| == |sorted| + 1
    ensures forall x :: x in InsertSorted(sorted, r) <==> x in sorted || x == r
  {
    if sorted != [] && r.start >= sorted[0].start {
      InsertSortedSorts(sorted[1..], r);
      var rest := InsertSorted(sorted[1..], r);
      forall x ensures x in [sorted[0]] + rest <==> x in sorted || x == r {
        assert x in sorted <==> x == sorted[0] || x in sorted[1..];
      }
      forall x | x in rest ensures sorted[0].start <= x.start {
        if x != r {
          var k :| 0 <= k < |sorted| - 1 && sorted[1..][k] == x;
          assert sorted[k + 1] == x;
        }
      }
    }
  }

  lemma {:induction false} SortByStartSorts(ranges: seq<LedgerRange>)
    ensures SortedByStart(SortByStart(ranges))
    ensures |SortByStart(ranges)| == |ranges|
    ensures forall r :: r in SortByStart(ranges) <==> r in ranges
  {
    if ranges != [] {
      var init, last := ranges[..|ranges| - 1], ranges[|ranges| - 1];
      SortByStartSorts(init);
      InsertSortedSorts(SortByStart(init), last);
      assert ranges == init + [last];
    }
  }

  /**
   Merges overlapping and adjacent ranges.  The coverage is kept whatever the input; for
   well-formed ranges the result is the canonical list, which is unique.
   */
  method CoalesceRanges(ranges: seq<LedgerRange>) returns (merged: seq<LedgerRange>)
    ensures SameCoverage(merged, ranges)
    ensures WellFormed(ranges) ==> merged == Coalesce(ranges) && Canonical(merged)
  {
    if |ranges| == 0 {
      return [];
    }
    hide Canonical, SameCoverage, SortedByStart;
    var sorted := SortByStart(ranges);
    SortByStartSorts(ranges);
    merged := [LedgerRange(sorted[0].start, sorted[0].end)];
    var i := 1;
    FirstMerged(sorted);
    while i < |sorted|
      invariant 1 <= i <= |sorted|
      invariant Merging(merged, sorted, i)
    {
      var current := sorted[i];
      var last := merged[|merged| - 1];
      ghost var before := merged;
      if current.start <= last.end + 1 {
        if current.end > last.end {
          merged := merged[|merged| - 1 := LedgerRange(last.start, current.end)];
        }
      } else {
        merged := merged + [LedgerRange(current.start, current.end)];
      }
      MergeStep(before, merged, sorted, i);
      i := i + 1;
    }
    AllMerged(merged, sorted, ranges);
  }

  /** The first i ranges, in order of start, are merged. */
  ghost predicate Merging(merged: seq<LedgerRange>, sorted: seq<LedgerRange>, i: nat) {
    && 1 <= i <= |sorted|
    && merged != []
    && merged[|merged| - 1].start <= sorted[i - 1].start
    && SameCoverage(merged, sorted[..i])
    && (WellFormed(sorted) ==> Canonical(merged))
  }

  lemma FirstMerged(sorted: seq<LedgerRange>)
    requires sorted != []
    ensures Merging([LedgerRange(sorted[0].start, sorted[0].end)], sorted, 1)
  {
    assert sorted[..1] == [sorted[0]];
  }

  lemma AllMerged(merged: seq<LedgerRange>, sorted: seq<LedgerRange>, ranges: seq<LedgerRange>)
    requires Merging(merged, sorted, |sorted|)
    requires forall r :: r in sorted <==> r in ranges
    ensures SameCoverage(merged, ranges)
    ensures WellFormed(ranges) ==> merged == Coalesce(ranges) && Canonical(merged)
  {
    assert sorted[..|sorted|] == sorted;
    SameMembersSameCoverage(sorted, ranges);
    SameCoverageTransitive(merged, sorted, ranges);
    if WellFormed(ranges) {
      CoalesceUnique(ranges, merged);
    }
  }

  lemma SameMembersSameCoverage(a: seq<LedgerRange>, b: seq<LedgerRange>)
    requires forall r :: r in a <==> r in b
    ensures SameCoverage(a, b)
  {}

  lemma SameCoverageTransitive(a: seq<LedgerRange>, b: seq<LedgerRange>, c: seq<LedgerRange>)
    requires SameCoverage(a, b) && SameCoverage(b, c)
    ensures SameCoverage(a, c)
  {}

  /** What one turn of the merge loop does to the list being built. */
  predicate MergedInto(before: seq<LedgerRange>, current: LedgerRange, after: seq<LedgerRange>)
    requires before != []
  {
    var last := before[|before| - 1];
    after == if current.start > last.end + 1 then before + [current]
             else if current.end > last.end then before[|before| - 1 := LedgerRange(last.start, current.end)]
             else before
  }

  lemma MergeStep(before: seq<LedgerRange>, after: seq<LedgerRange>, sorted: seq<LedgerRange>, i: nat)
    requires i < |sorted| && SortedByStart(sorted) && Merging(before, sorted, i)
    requires MergedInto(before, sorted[i], after)
    ensures Merging(after, sorted, i + 1)
  {
    assert sorted[i - 1].start <= sorted[i].start;
    MergeStepSeen(before, after, sorted, i);
    if WellFormed(sorted) {
      assert sorted[i] in sorted;
      MergeStepCanonical(before, sorted[i], after);
    }
  }

  lemma MergeStepSeen(before: seq<LedgerRange>, after: seq<LedgerRange>, sorted: seq<LedgerRange>, i: nat)
    requires i < |sorted| && before != [] && before[|before| - 1].start <= sorted[i].start
    requires SameCoverage(before, sorted[..i]) && MergedInto(before, sorted[i], after)
    ensures SameCoverage(after, sorted[..i + 1])
  {
    assert sorted[..i + 1] == sorted[..i] + [sorted[i]];
    forall ledger ensures Covers(after, ledger) <==> Covers(sorted[..i + 1], ledger) {
      MergeStepCoverage(before, sorted[i], after, ledger);
      CoversConcat(sorted[..i], [sorted[i]], ledger);
      CoversSingle(sorted[i], ledger);
      assert Covers(before, ledger) <==> Covers(sorted[..i], ledger);
    }
  }

  lemma MergeStepCanonical(before: seq<LedgerRange>, current: LedgerRange, after: seq<LedgerRange>)
    requires before != [] && Canonical(before) && current.start <= current.end
    requires MergedInto(before, current, after)
    ensures Canonical(after)
  {
    assert before[|before| - 1] in before;
    forall r | r in after ensures r.start <= r.end {
      assert r in before || r == current || r == LedgerRange(before[|before| - 1].start, current.end);
    }
  }

  /** One turn of the merge loop adds the current range to the coverage. */
  lemma MergeStepCoverage(before: seq<LedgerRange>, current: LedgerRange, after: seq<LedgerRange>, ledger: int)
    requires before != [] && before[|before| - 1].start <= current.start
    requires MergedInto(before, current, after)
    ensures Covers(after, ledger) <==> Covers(before, ledger) || Contains(current, ledger)
  {
    var last := before[|before| - 1];
    var init := before[..|before| - 1];
    assert before == init + [last];
    CoversConcat(init, [last], ledger);
    CoversSingle(last, ledger);
    if current.start > last.end + 1 {
      CoversConcat(before, [current], ledger);
      CoversSingle(current, ledger);
    } else if current.end > last.end {
      var wide := LedgerRange(last.start, current.end);
      assert after == init + [wide];
      CoversConcat(init, [wide], ledger);
      CoversSingle(wide, ledger);
    }
  }

  // ----- findMissingRanges -----

  /** `missing` is the compact list of the ledgers of the closed interval that `ranges` leaves out. */
  ghost predicate IsMissing(missing: seq<LedgerRange>, from: int, latest: int, ranges: seq<LedgerRange>) {
    && Canonical(missing)
    && forall ledger :: Covers(missing, ledger) <==> from <= ledger <= latest && !Covers(ranges, ledger)
  }

  lemma MissingUnique(a: seq<LedgerRange>, b: seq<LedgerRange>, from: int, latest: int, ranges: seq<LedgerRange>)
    requires IsMissing(a, from, latest, ranges) && IsMissing(b, from, latest, ranges)
    ensures a == b
  {
    CanonicalUnique(a, b);
  }

  /** The filter and map that cut the ranges down to the interval. */
  function Clip(from: int, latest: int, ranges: seq<LedgerRange>): seq<LedgerRange> {
    if ranges == [] then []
    else
      var r := ranges[0];
      (if r.end >= from && r.start <= latest then [LedgerRange(Max(r.start, from), Min(r.end, latest))] else [])
      + Clip(from, latest, ranges[1..])
  }

  lemma {:induction false} ClipCoverage(from: int, latest: int, ranges: seq<LedgerRange>, ledger: int)
    ensures Covers(Clip(from, latest, ranges), ledger) <==> from <= ledger <= latest && Covers(ranges, ledger)
  {
    if ranges != [] {
      var r := ranges[0];
      ClipCoverage(from, latest, ranges[1..], ledger);
      CoversHeadTail(ranges, ledger);
      if r.end >= from && r.start <= latest {
        var cut := LedgerRange(Max(r.start, from), Min(r.end, latest));
        CoversConcat([cut], Clip(from, latest, ranges[1..]), ledger);
        CoversSingle(cut, ledger);
      } else {
        assert Clip(from, latest, ranges) == Clip(from, latest, ranges[1..]);
      }
    }
  }

  lemma {:induction false} ClipWellFormed(from: int, latest: int, ranges: seq<LedgerRange>)
    requires from <= latest && WellFormed(ranges)
    ensures WellFormed(Clip(from, latest, ranges))
    ensures forall r :: r in Clip(from, latest, ranges) ==> from <= r.start && r.end <= latest
  {
    if ranges != [] {
      assert ranges[0] in ranges;
      ClipWellFormed(from, latest, ranges[1..]);
    }
  }

  /** The gaps of a closed interval, given its ranges: cut to the interval, merged, and scanned. */
  method FindMissingRanges(from: int, latest: int, ranges: seq<LedgerRange>) returns (missing: seq<LedgerRange>)
    requires WellFormed(ranges)
    ensures IsMissing(missing, from, latest, ranges)
  {
    if latest < from {
      return [];
    }
    var clipped := Clip(from, latest, ranges);
    ClipWellFormed(from, latest, ranges);
    var covered := CoalesceRanges(clipped);
    CoveredWithin(covered, clipped, from, latest);
    missing := ScanGaps(from, latest, covered);
    MissingOfClipped(missing, covered, from, latest, ranges);
  }

  /** The scan: one pass over the covered ranges, with `cursor` at the first ledger not yet looked at. */
  method ScanGaps(from: int, latest: int, covered: seq<LedgerRange>) returns (missing: seq<LedgerRange>)
    requires from <= latest && Canonical(covered)
    requires forall r :: r in covered ==> from <= r.start && r.end <= latest
    ensures IsMissing(missing, from, latest, covered)
  {
    ScannedStart(covered, from);
    hide Canonical, Covers, IsMissing, Scanned;
    missing := [];
    var cursor := from;
    var i := 0;
    while i < |covered|
      invariant 0 <= i <= |covered|
      invariant Scanned(missing, covered, i, from, cursor)
      invariant cursor <= latest + 1
    {
      var r := covered[i];
      ghost var before, at := missing, cursor;
      assert r in covered;
      if r.start > cursor {
        missing := missing + [LedgerRange(cursor, r.start - 1)];
      }
      cursor := Max(cursor, r.end + 1);
      GapStep(before, missing, covered, i, from, at);
      i := i + 1;
      if cursor > latest {
        break;
      }
    }
    ghost var before := missing;
    if cursor <= latest {
      missing := missing + [LedgerRange(cursor, latest)];
    }
    LastGap(before, missing, covered, i, from, cursor, latest);
  }

  lemma ScannedStart(covered: seq<LedgerRange>, from: int)
    ensures Scanned([], covered, 0, from, from)
  {}

  lemma MissingOfClipped(missing: seq<LedgerRange>, covered: seq<LedgerRange>, from: int, latest: int,
                         ranges: seq<LedgerRange>)
    requires SameCoverage(covered, Clip(from, latest, ranges)) && IsMissing(missing, from, latest, covered)
    ensures IsMissing(missing, from, latest, ranges)
  {
    forall ledger ensures Covers(missing, ledger) <==> from <= ledger <= latest && !Covers(ranges, ledger) {
      ClipCoverage(from, latest, ranges, ledger);
      assert Covers(covered, ledger) <==> Covers(Clip(from, latest, ranges), ledger);
    }
  }

  /** The gaps below `cursor` are found and `cursor` is the first ledger after the i-th covered range. */
  ghost predicate Scanned(missing: seq<LedgerRange>, covered: seq<LedgerRange>, i: nat, from: int, cursor: int)
    requires i <= |covered|
  {
    && Canonical(missing)
    && (missing != [] ==> missing[|missing| - 1].end < cursor)
    && (i > 0 ==> cursor == covered[i - 1].end + 1 && (missing != [] ==> missing[|missing| - 1].end + 1 < cursor))
    && (i == 0 ==> cursor == from && missing == [])
    && from <= cursor
    && forall ledger :: Covers(missing, ledger) <==> from <= ledger < cursor && !Covers(covered[..i], ledger)
  }

  lemma CoveredWithin(covered: seq<LedgerRange>, clipped: seq<LedgerRange>, from: int, latest: int)
    requires Canonical(covered) && SameCoverage(covered, clipped)
    requires forall r :: r in clipped ==> from <= r.start && r.end <= latest
    ensures forall r :: r in covered ==> from <= r.start && r.end <= latest
  {
    forall r | r in covered ensures from <= r.start && r.end <= latest {
      assert Contains(r, r.start) && Contains(r, r.end);
      assert Covers(clipped, r.start) && Covers(clipped, r.end);
    }
  }

  lemma GapStep(before: seq<LedgerRange>, after: seq<LedgerRange>, covered: seq<LedgerRange>, i: nat,
                from: int, cursor: int)
    requires i < |covered| && Canonical(covered)
    requires forall r :: r in covered ==> from <= r.start
    requires Scanned(before, covered, i, from, cursor)
    requires after == if covered[i].start > cursor then before + [LedgerRange(cursor, covered[i].start - 1)] else before
    ensures Scanned(after, covered, i + 1, from, Max(cursor, covered[i].end + 1))
    ensures cursor <= covered[i].start
  {
    var r := covered[i];
    assert r in covered;
    if i > 0 {
      assert covered[i - 1].end + 1 < covered[i].start;
    }
    assert cursor <= r.start;
    assert covered[..i + 1] == covered[..i] + [r];
    forall ledger ensures Covers(after, ledger) <==> from <= ledger < r.end + 1 && !Covers(covered[..i + 1], ledger) {
      CoversConcat(covered[..i], [r], ledger);
      CoversSingle(r, ledger);
      PrefixEnds(covered, i, ledger);
      if r.start > cursor {
        var gap := LedgerRange(cursor, r.start - 1);
        CoversConcat(before, [gap], ledger);
        CoversSingle(gap, ledger);
      }
    }
    CanonicalAppend(before, cursor, r.start - 1);
  }

  lemma CanonicalAppend(ranges: seq<LedgerRange>, start: int, end: int)
    requires Canonical(ranges) && (ranges != [] ==> ranges[|ranges| - 1].end + 1 < start)
    ensures start <= end ==> Canonical(ranges + [LedgerRange(start, end)])
  {}

  /** The first i ranges of a canonical list end where the i-th last does. */
  lemma {:induction false} PrefixEnds(covered: seq<LedgerRange>, i: nat, ledger: int)
    requires i <= |covered| && Canonical(covered)
    ensures Covers(covered[..i], ledger) ==> i > 0 && ledger <= covered[i - 1].end
  {
    if i > 0 {
      PrefixEnds(covered, i - 1, ledger);
      assert covered[..i] == covered[..i - 1] + [covered[i - 1]];
      CoversConcat(covered[..i - 1], [covered[i - 1]], ledger);
      CoversSingle(covered[i - 1], ledger);
      if i > 1 {
        assert covered[i - 2].end + 1 < covered[i - 1].start;
      }
      assert covered[i - 1] in covered;
    }
  }

  lemma LastGap(before: seq<LedgerRange>, after: seq<LedgerRange>, covered: seq<LedgerRange>, i: nat,
                from: int, cursor: int, latest: int)
    requires i <= |covered| && Canonical(covered)
    requires forall r :: r in covered ==> from <= r.start && r.end <= latest
    requires Scanned(before, covered, i, from, cursor)
    requires cursor <= latest + 1 && (i < |covered| ==> i > 0 && cursor == latest + 1)
    requires after == if cursor <= latest then before + [LedgerRange(cursor, latest)] else before
    ensures IsMissing(after, from, latest, covered)
  {
    NothingBeyond(covered, i, latest);
    assert covered[..i] == covered;
    forall ledger ensures Covers(after, ledger) <==> from <= ledger <= latest && !Covers(covered, ledger) {
      PrefixEnds(covered, i, ledger);
      if cursor <= latest {
        var gap := LedgerRange(cursor, latest);
        CoversConcat(before, [gap], ledger);
        CoversSingle(gap, ledger);
      }
    }
    CanonicalAppend(before, cursor, latest);
  }

  lemma NothingBeyond(covered: seq<LedgerRange>, i: nat, latest: int)
    requires i <= |covered| && Canonical(covered)
    requires forall r :: r in covered ==> r.end <= latest
    requires i < |covered| ==> i > 0 && covered[i - 1].end == latest
    ensures i == |covered|
  {
    if i < |covered| {
      EndsIncrease(covered, i);
    }
  }

  lemma EndsIncrease(covered: seq<LedgerRange>, i: nat)
    requires 0 < i < |covered| && Canonical(covered)
    ensures covered[i] in covered && covered[i - 1].end < covered[i].end
  {}

  /** Filling the gaps that were found leaves none. */
  lemma FillingGapsLeavesNone(from: int, latest: int, ranges: seq<LedgerRange>, missing: seq<LedgerRange>)
    requires WellFormed(ranges) && IsMissing(missing, from, latest, ranges)
    ensures IsMissing([], from, latest, Coalesce(ranges + missing))
  {
    CoalesceCanonical(ranges + missing);
    forall ledger | from <= ledger <= latest ensures Covers(Coalesce(ranges + missing), ledger) {
      CoversConcat(ranges, missing, ledger);
      assert Covers(missing, ledger) <==> !Covers(ranges, ledger);
      assert Covers(ranges + missing, ledger);
    }
  }
}
