/** Splitting a closed ledger interval into consecutive batches, as backfill and resync do. */
module Batching {
  import opened Common
  import opened LedgerRanges

  function Batches(first: int, last: int, size: int): seq<LedgerRange>
    requires size > 0
    decreases last - first + 1
  {
    if last < first then []
    else [LedgerRange(first, Min(first + size - 1, last))] + Batches(first + size, last, size)
  }

  /** The ledgers of a closed interval in order. */
  function Interval(first: int, last: int): seq<int>
    decreases last - first + 1
  {
    if last < first then [] else Interval(first, last - 1) + [last]
  }

  lemma {:induction false} IntervalMembers(first: int, last: int, ledger: int)
    ensures ledger in Interval(first, last) <==> first <= ledger <= last
    decreases last - first + 1
  {
    if first <= last {
      IntervalMembers(first, last - 1, ledger);
    }
  }

  lemma {:induction false} IntervalJoin(first: int, mid: int, last: int)
    requires first <= mid + 1 && mid <= last
    ensures Interval(first, mid) + Interval(mid + 1, last) == Interval(first, last)
    decreases last - mid
  {
    if mid < last {
      IntervalJoin(first, mid, last - 1);
      assert Interval(first, mid) + (Interval(mid + 1, last - 1) + [last]) == Interval(first, last - 1) + [last];
    }
  }

  /** The ledgers of a list of ranges, range after range. */
  function Ledgers(ranges: seq<LedgerRange>): seq<int> {
    if ranges == [] then [] else Interval(ranges[0].start, ranges[0].end) + Ledgers(ranges[1..])
  }

  /**
   The batches partition the interval: read one after the other they list each of its ledgers once,
   in order; each is non-empty and no longer than `size`, and only the last one may be shorter.
   */
  lemma {:induction false} BatchesPartition(first: int, last: int, size: int)
    requires size > 0
    ensures Ledgers(Batches(first, last, size)) == Interval(first, last)
    ensures forall i :: 0 <= i < |Batches(first, last, size)| ==>
              var b := Batches(first, last, size)[i];
              && b.start <= b.end
              && b.end - b.start + 1 <= size
              && (i + 1 < |Batches(first, last, size)| ==> b.end - b.start + 1 == size)
    ensures forall i :: 0 <= i < |Batches(first, last, size)| - 1 ==>
              Batches(first, last, size)[i].end + 1 == Batches(first, last, size)[i + 1].start
    ensures first <= last ==> Batches(first, last, size) != [] && Batches(first, last, size)[0].start == first
    decreases last - first + 1
  {
    if first <= last {
      var end := Min(first + size - 1, last);
      var rest := Batches(first + size, last, size);
      var all := Batches(first, last, size);
      BatchesPartition(first + size, last, size);
      assert all[0] == LedgerRange(first, end) && all[1..] == rest;
      if rest == [] {
        assert end == last;
        assert Ledgers(all) == Interval(first, last) + [];
      } else {
        assert end == first + size - 1;
        IntervalJoin(first, end, last);
      }
      assert forall i :: 0 < i < |all| ==> all[i] == rest[i - 1];
    }
  }

  lemma {:induction false} BatchesCoverage(first: int, last: int, size: int, ledger: int)
    requires size > 0
    ensures Covers(Batches(first, last, size), ledger) <==> first <= ledger <= last
    ensures WellFormed(Batches(first, last, size))
    decreases last - first + 1
  {
    if first <= last {
      var head := LedgerRange(first, Min(first + size - 1, last));
      BatchesCoverage(first + size, last, size, ledger);
      CoversConcat([head], Batches(first + size, last, size), ledger);
      CoversSingle(head, ledger);
    }
  }
}
