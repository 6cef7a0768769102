/**
 The persisted tracker of processed ledgers (backend/src/indexer/ledgerTracker.ts) as a protocol.

 A committed `recordProcessedRange` is one atomic step, because the advisory lock and the
 SERIALIZABLE transaction serialise the writers.  The Redis writes that follow a commit, or a cache
 miss, are separate steps: they may arrive late, in any order, or never.
 */
module LedgerTracker {
  import opened Common
  import opened LedgerRanges

  /** A Redis SET that has been issued and not yet taken effect. */
  datatype CacheWrite = WriteRanges(list: seq<LedgerRange>) | WriteLast(ledger: int)

  datatype Tracker = Tracker(
    table: seq<LedgerRange>,               // indexer_ledger_ranges, ordered by start
    checkpoint: Option<int>,               // indexer_checkpoints, row 1
    committed: seq<LedgerRange>,           // history: every range ever committed
    inFlight: seq<CacheWrite>,
    cachedRanges: Option<seq<LedgerRange>>,
    cachedLast: Option<int>)

  datatype Step =
    | Commit(start: int, end: int)         // recordProcessedRange, up to COMMIT
    | IssueRanges                          // getProcessedRanges missed the cache and read the table
    | IssueLast(genesis: int)              // getLastProcessedLedger missed the cache
    | Deliver(write: nat)                  // a Redis write takes effect
    | Lose(write: nat)                     // a Redis write fails
    | Expire                               // the range list reaches its time to live

  const EMPTY: Tracker := Tracker([], None, [], [], None, None)

  function LastEnd(table: seq<LedgerRange>): int
    requires table != []
  {
    table[|table| - 1].end
  }

  function MaxEnd(merged: seq<LedgerRange>, end: int): int {
    if merged == [] then end else LastEnd(merged)
  }

  function Greatest(checkpoint: Option<int>, ledger: int): Option<int> {
    match checkpoint
    case None => Some(ledger)
    case Some(c) => Some(Max(c, ledger))
  }

  function Without(writes: seq<CacheWrite>, i: nat): seq<CacheWrite>
    requires i < |writes|
  {
    writes[..i] + writes[i + 1..]
  }

  function ApplyCommit(t: Tracker, start: int, end: int): Tracker {
    if end < start then t
    else
      var merged := Coalesce(t.table + [LedgerRange(start, end)]);
      var maxEnd := MaxEnd(merged, end);
      t.(table := merged,
         checkpoint := Greatest(t.checkpoint, maxEnd),
         committed := t.committed + [LedgerRange(start, end)],
         inFlight := t.inFlight + [WriteRanges(merged), WriteLast(maxEnd)])
  }

  function ApplyWrite(t: Tracker, w: CacheWrite): Tracker {
    match w
    case WriteRanges(list) => t.(cachedRanges := Some(list))
    case WriteLast(ledger) => t.(cachedLast := Some(ledger))
  }

  function Apply(t: Tracker, step: Step): Tracker {
    match step
    case Commit(start, end) => ApplyCommit(t, start, end)
    case IssueRanges => t.(inFlight := t.inFlight + [WriteRanges(t.table)])
    case IssueLast(genesis) =>
      t.(inFlight := t.inFlight + [WriteLast(match t.checkpoint case Some(c) => c case None => genesis)])
    case Deliver(i) =>
      if i < |t.inFlight| then ApplyWrite(t, t.inFlight[i]).(inFlight := Without(t.inFlight, i)) else t
    case Lose(i) => if i < |t.inFlight| then t.(inFlight := Without(t.inFlight, i)) else t
    case Expire => t.(cachedRanges := None)
  }

  function Run(t: Tracker, steps: seq<Step>): Tracker
    decreases |steps|
  {
    if steps == [] then t else Run(Apply(t, steps[0]), steps[1..])
  }

  // ----- Facts about the recorded table -----

  lemma TableBound(table: seq<LedgerRange>, ledger: int)
    requires Canonical(table) && table != []
    ensures Covers(table, LastEnd(table))
    ensures Covers(table, ledger) ==> ledger <= LastEnd(table)
  {
    assert table[|table| - 1] in table && Contains(table[|table| - 1], LastEnd(table));
    assert table[..|table|] == table;
    PrefixEnds(table, |table|, ledger);
  }

  lemma RecordCoverage(table: seq<LedgerRange>, r: LedgerRange)
    requires Canonical(table) && r.start <= r.end
    ensures Canonical(Coalesce(table + [r]))
    ensures forall ledger :: Covers(Coalesce(table + [r]), ledger) <==> Covers(table, ledger) || Contains(r, ledger)
  {
    CoalesceCanonical(table + [r]);
    hide Canonical, Coalesce, Covers;
    forall ledger
      ensures Covers(Coalesce(table + [r]), ledger) <==> Covers(table, ledger) || Contains(r, ledger)
    {
      assert Covers(Coalesce(table + [r]), ledger) <==> Covers(table + [r], ledger);
      CoversConcat(table, [r], ledger);
      CoversSingle(r, ledger);
    }
  }

  /** What recording one range does to the table. */
  lemma RecordOne(table: seq<LedgerRange>, r: LedgerRange)
    requires Canonical(table) && r.start <= r.end
    ensures
      var t := Coalesce(table + [r]);
      && Canonical(t) && t != []
      && (LastEnd(t) == r.end || (table != [] && LastEnd(t) == LastEnd(table)))
      && forall ledger :: Covers(t, ledger) <==> Covers(table, ledger) || Contains(r, ledger)
  {
    var t := Coalesce(table + [r]);
    RecordCoverage(table, r);
    EmptyCoverage(t);
    EmptyCoverage(table);
    assert Covers(t, r.end);
    hide Canonical, Coalesce, Covers;
    TableBound(t, r.end);
    if table != [] {
      TableBound(table, LastEnd(t));
      TableBound(table, LastEnd(table));
      TableBound(t, LastEnd(table));
    }
  }

  // ----- What every run keeps -----

  /** Some range ends at the ledger, and none beyond it. */
  ghost predicate HighestEnd(ranges: seq<LedgerRange>, ledger: int) {
    && (exists r :: r in ranges && r.end == ledger)
    && (forall r :: r in ranges ==> r.end <= ledger)
  }

  /** The checkpoint is the highest end of what was committed. */
  ghost predicate CheckpointOk(t: Tracker) {
    if t.committed == [] then t.checkpoint.None?
    else t.checkpoint.Some? && HighestEnd(t.committed, t.checkpoint.value)
  }

  /** A list that a reader may be given: compact, and never more than the table holds. */
  ghost predicate Sound(list: seq<LedgerRange>, table: seq<LedgerRange>) {
    && Canonical(list)
    && forall ledger :: Covers(list, ledger) ==> Covers(table, ledger)
  }

  ghost predicate Inv(t: Tracker) {
    && WellFormed(t.committed)
    && Canonical(t.table)
    && t.table == Coalesce(t.committed)
    && CheckpointOk(t)
    && (t.cachedRanges.Some? ==> Sound(t.cachedRanges.value, t.table))
    && forall w :: w in t.inFlight && w.WriteRanges? ==> Sound(w.list, t.table)
  }

  lemma CommitGrowsTable(t: Tracker, start: int, end: int)
    requires Inv(t) && start <= end
    ensures
      var t' := ApplyCommit(t, start, end);
      && Canonical(t'.table) && t'.table != []
      && t'.table == Coalesce(t'.committed)
      && forall ledger :: Covers(t'.table, ledger) <==> Covers(t.table, ledger) || start <= ledger <= end
  {
    var r := LedgerRange(start, end);
    var merged := Coalesce(t.table + [r]);
    CoalesceCanonical(t.table + [r]);
    CoalesceIncremental(t.committed, [r]);
    forall ledger ensures Covers(merged, ledger) <==> Covers(t.table, ledger) || start <= ledger <= end {
      assert Covers(merged, ledger) <==> Covers(t.table + [r], ledger);
      CoversConcat(t.table, [r], ledger);
      CoversSingle(r, ledger);
    }
    assert Covers(merged, start);
  }

  /** The last range of the compact list ends where the highest of the ranges does. */
  lemma {:induction false} LastEndIsHighest(ranges: seq<LedgerRange>)
    requires WellFormed(ranges) && ranges != []
    ensures Coalesce(ranges) != [] && HighestEnd(ranges, LastEnd(Coalesce(ranges)))
  {
    var table := Coalesce(ranges);
    CoalesceCanonical(ranges);
    var first := ranges[0];
    assert first in ranges && Contains(first, first.end);
    assert Covers(ranges, first.end);
    EmptyCoverage(table);
    TableBound(table, first.end);
    var r :| r in ranges && Contains(r, LastEnd(table));
    forall x | x in ranges ensures x.end <= LastEnd(table) {
      assert Contains(x, x.end);
      TableBound(table, x.end);
    }
  }

  lemma {:induction false} CommitKeepsCheckpoint(t: Tracker, start: int, end: int)
    requires Inv(t) && start <= end
    ensures
      var t' := ApplyCommit(t, start, end);
      && CheckpointOk(t') && t'.checkpoint.Some?
      && t'.inFlight == t.inFlight + [WriteRanges(t'.table), WriteLast(t'.checkpoint.value)]
  {
    CommitIsHighest(t, start, end);
    hide Inv, Coalesce, Canonical, Covers, HighestEnd, WellFormed;
  }

  lemma {:induction false} CommitIsHighest(t: Tracker, start: int, end: int)
    requires Inv(t) && start <= end
    ensures
      var merged := Coalesce(t.table + [LedgerRange(start, end)]);
      && merged != [] && HighestEnd(t.committed + [LedgerRange(start, end)], LastEnd(merged))
      && Greatest(t.checkpoint, LastEnd(merged)) == Some(LastEnd(merged))
  {
    var all := t.committed + [LedgerRange(start, end)];
    CoalesceIncremental(t.committed, [LedgerRange(start, end)]);
    LastEndIsHighest(all);
    CheckpointGrows(t.committed, t.checkpoint, all, LastEnd(Coalesce(all)));
  }

  lemma {:induction false} CheckpointGrows(some: seq<LedgerRange>, checkpoint: Option<int>,
                                            more: seq<LedgerRange>, d: int)
    requires if some == [] then checkpoint.None? else checkpoint.Some? && HighestEnd(some, checkpoint.value)
    requires HighestEnd(more, d) && some <= more
    ensures Greatest(checkpoint, d) == Some(d)
  {
    if some != [] {
      HighestEndGrows(some, checkpoint.value, more, d);
    }
  }

  lemma {:induction false} HighestEndGrows(some: seq<LedgerRange>, c: int, more: seq<LedgerRange>, d: int)
    requires HighestEnd(some, c) && HighestEnd(more, d) && some <= more
    ensures c <= d
  {
    var r :| r in some && r.end == c;
    assert r in more;
  }

  lemma SoundMonotone(list: seq<LedgerRange>, small: seq<LedgerRange>, big: seq<LedgerRange>)
    requires Sound(list, small)
    requires forall ledger :: Covers(small, ledger) ==> Covers(big, ledger)
    ensures Sound(list, big)
  {}

  lemma CommitKeepsInv(t: Tracker, start: int, end: int)
    requires Inv(t) && start <= end
    ensures Inv(ApplyCommit(t, start, end))
    ensures forall ledger :: Covers(t.table, ledger) ==> Covers(ApplyCommit(t, start, end).table, ledger)
  {
    CommitGrowsTable(t, start, end);
    CommitKeepsCheckpoint(t, start, end);
    hide Canonical, Coalesce, Covers, CheckpointOk;
    var t' := ApplyCommit(t, start, end);
    assert Sound(t'.table, t'.table);
    forall w | w in t'.inFlight && w.WriteRanges? ensures Sound(w.list, t'.table) {
      if w in t.inFlight {
        SoundMonotone(w.list, t.table, t'.table);
      }
    }
    if t.cachedRanges.Some? {
      SoundMonotone(t.cachedRanges.value, t.table, t'.table);
    }
  }

  lemma StepKeepsInv(t: Tracker, step: Step)
    requires Inv(t)
    ensures Inv(Apply(t, step))
    ensures forall ledger :: Covers(t.table, ledger) ==> Covers(Apply(t, step).table, ledger)
  {
    hide Canonical, Coalesce, Covers, HighestEnd;
    if step.Commit? && step.start <= step.end {
      CommitKeepsInv(t, step.start, step.end);
    } else {
      assert Sound(t.table, t.table);
    }
  }

  /**
   In every interleaving of recorders, readers and delayed, reordered or lost Redis writes the range
   table is the compact list of exactly what was committed, and no list that is cached or still on
   its way covers a ledger that the table does not.  The table never forgets a ledger.
   */
  lemma {:induction false} RunKeepsInv(t: Tracker, steps: seq<Step>)
    requires Inv(t)
    ensures Inv(Run(t, steps))
    ensures forall ledger :: Covers(t.table, ledger) ==> Covers(Run(t, steps).table, ledger)
    decreases |steps|
  {
    if steps != [] {
      StepKeepsInv(t, steps[0]);
      RunKeepsInv(Apply(t, steps[0]), steps[1..]);
    }
  }

  /** The coverage of the table, spelled out: a ledger is in it when some committed range holds it. */
  lemma TableIsUnionOfCommits(steps: seq<Step>, ledger: int)
    ensures
      var t := Run(EMPTY, steps);
      Covers(t.table, ledger) <==> exists r :: r in t.committed && Contains(r, ledger)
  {
    RunKeepsInv(EMPTY, steps);
    CoalesceCanonical(Run(EMPTY, steps).committed);
    assert Covers(Run(EMPTY, steps).table, ledger) <==> Covers(Run(EMPTY, steps).committed, ledger);
  }

  /**
   On every run the checkpoint is empty exactly as long as nothing was committed; after that some
   committed range ends at it, and none beyond it.
   */
  lemma {:induction false} CheckpointIsHighestCommit(steps: seq<Step>)
    ensures
      var t := Run(EMPTY, steps);
      && (t.checkpoint.None? <==> t.committed == [])
      && (t.checkpoint.Some? ==>
            && (exists r :: r in t.committed && r.end == t.checkpoint.value)
            && (forall r :: r in t.committed ==> r.end <= t.checkpoint.value))
  {
    RunKeepsInv(EMPTY, steps);
  }

  /** What is committed on a run: the ranges of its commits that are not inverted, in their order. */
  function Commits(steps: seq<Step>): seq<LedgerRange> {
    if steps == [] then []
    else
      match steps[0]
      case Commit(start, end) => (if start <= end then [LedgerRange(start, end)] else []) + Commits(steps[1..])
      case _ => Commits(steps[1..])
  }

  lemma {:induction false} CommittedAreCommits(t: Tracker, steps: seq<Step>)
    ensures Run(t, steps).committed == t.committed + Commits(steps)
    decreases |steps|
  {
    if steps != [] {
      CommittedAreCommits(Apply(t, steps[0]), steps[1..]);
    }
  }

  /** The value of the last-ledger key, cached or on its way, is `genesis` or the end of a committed range. */
  ghost predicate KnownLast(t: Tracker, genesis: int, ledger: int) {
    ledger == genesis || exists r :: r in t.committed && r.end == ledger
  }

  ghost predicate LastsKnown(t: Tracker, genesis: int) {
    && (t.cachedLast.Some? ==> KnownLast(t, genesis, t.cachedLast.value))
    && (forall w :: w in t.inFlight && w.WriteLast? ==> KnownLast(t, genesis, w.ledger))
  }

  lemma {:induction false} StepKeepsLastsKnown(t: Tracker, step: Step, genesis: int)
    requires Inv(t) && LastsKnown(t, genesis) && (step.IssueLast? ==> step.genesis == genesis)
    ensures LastsKnown(Apply(t, step), genesis)
  {
    var t' := Apply(t, step);
    if step.Commit? && step.start <= step.end {
      CommitKeepsCheckpoint(t, step.start, step.end);
    }
    hide Canonical, Coalesce, Covers;
    assert forall r :: r in t.committed ==> r in t'.committed;
    forall w | w in t'.inFlight && w.WriteLast? ensures KnownLast(t', genesis, w.ledger) {
      if w in t.inFlight {
        assert KnownLast(t, genesis, w.ledger);
      }
    }
  }

  /** However the writes of the last-ledger key are delayed, reordered or lost, it never names another ledger. */
  lemma {:induction false} LastKeyIsKnown(t: Tracker, steps: seq<Step>, genesis: int)
    requires Inv(t) && LastsKnown(t, genesis)
    requires forall i :: 0 <= i < |steps| && steps[i].IssueLast? ==> steps[i].genesis == genesis
    ensures LastsKnown(Run(t, steps), genesis)
    decreases |steps|
  {
    hide Inv, LastsKnown;
    if steps != [] {
      StepKeepsInv(t, steps[0]);
      StepKeepsLastsKnown(t, steps[0], genesis);
      LastKeyIsKnown(Apply(t, steps[0]), steps[1..], genesis);
    }
  }

  /** The list `getProcessedRanges` hands to its caller. */
  function ReadRanges(t: Tracker): seq<LedgerRange> {
    match t.cachedRanges
    case Some(list) => list
    case None => t.table
  }

  /**
   A reader takes a list, other pollers go on for any number of steps, and only then are the gaps
   computed: every ledger that is truly missing by then is among them.
   */
  lemma StaleListMissesNothing(before: seq<Step>, after: seq<Step>, from: int, latest: int,
                               found: seq<LedgerRange>, truth: seq<LedgerRange>, ledger: int)
    requires
      var t := Run(EMPTY, before);
      && IsMissing(found, from, latest, ReadRanges(t))
      && IsMissing(truth, from, latest, Run(t, after).table)
    ensures Covers(truth, ledger) ==> Covers(found, ledger)
  {
    RunKeepsInv(EMPTY, before);
    var t := Run(EMPTY, before);
    RunKeepsInv(t, after);
    if Covers(truth, ledger) {
      assert !Covers(Run(t, after).table, ledger);
      assert !Covers(t.table, ledger);
      assert !Covers(ReadRanges(t), ledger);
    }
  }

  // ----- The "last processed" key -----

  /**
   After a commit the key is set to the end of the last range.  That is the highest consecutively
   processed ledger above `genesis`, as the reader's comment has it, exactly when the last range
   reaches down to `genesis + 1`.
   */
  lemma LastKeyIsConsecutive(table: seq<LedgerRange>, genesis: int)
    requires Canonical(table) && table != []
    ensures (forall ledger :: genesis < ledger <= LastEnd(table) ==> Covers(table, ledger))
            <==> (LastEnd(table) <= genesis || table[|table| - 1].start <= genesis + 1)
  {
    var last := table[|table| - 1];
    assert last in table;
    forall ledger | last.start <= ledger <= last.end ensures Covers(table, ledger) {
      assert Contains(last, ledger);
    }
    BelowLastIsUncovered(table);
  }

  lemma {:induction false} BelowLastIsUncovered(table: seq<LedgerRange>)
    requires Canonical(table) && table != []
    ensures !Covers(table, table[|table| - 1].start - 1)
  {
    var last := table[|table| - 1];
    var gap := last.start - 1;
    if |table| > 1 {
      CoversHeadTail(table, gap);
      CanonicalTail(table);
      BelowLastIsUncovered(table[1..]);
      assert last in table[1..];
      CanonicalGapAfterHead(table, last);
    } else {
      assert table == [last];
      CoversSingle(last, gap);
    }
  }

  /** Recording a range ahead of the others makes the key claim ledgers nobody processed. */
  lemma {:induction false} LastKeyCanOverstate()
    ensures
      var t := Run(EMPTY, [Commit(1, 5), Commit(8, 9), Deliver(3)]);
      t.cachedLast == Some(9) && !Covers(t.table, 6)
  {
    SixIsUncovered();
    hide Covers, Coalesce, Canonical, Run, ApplyCommit;
    var t2 := ApplyCommit(ApplyCommit(EMPTY, 1, 5), 8, 9);
    TwoCommits();
    RunThree(EMPTY, Commit(1, 5), Commit(8, 9), Deliver(3));
    assert Apply(t2, Deliver(3)).table == t2.table;
  }

  lemma {:induction false} TwoCommits()
    ensures
      var t2 := ApplyCommit(ApplyCommit(EMPTY, 1, 5), 8, 9);
      t2.table == [LedgerRange(1, 5), LedgerRange(8, 9)] && |t2.inFlight| == 4 && t2.inFlight[3] == WriteLast(9)
  {
    CommitAhead(EMPTY, 1, 5);
    CommitAhead(ApplyCommit(EMPTY, 1, 5), 8, 9);
    hide Coalesce, Canonical, ApplyCommit;
  }

  /** A range beyond the others is appended to the table, and its end becomes the last-ledger key. */
  lemma {:induction false} CommitAhead(t: Tracker, start: int, end: int)
    requires Canonical(t.table) && start <= end && (t.table != [] ==> LastEnd(t.table) + 1 < start)
    ensures
      var t' := ApplyCommit(t, start, end);
      && t'.table == t.table + [LedgerRange(start, end)] && Canonical(t'.table)
      && t'.inFlight == t.inFlight + [WriteRanges(t'.table), WriteLast(end)]
  {
    CanonicalAppend(t.table, start, end);
    CoalesceOfCanonical(t.table + [LedgerRange(start, end)]);
    hide Coalesce, Canonical;
  }

  lemma {:induction false} SixIsUncovered()
    ensures !Covers([LedgerRange(1, 5), LedgerRange(8, 9)], 6)
  {}

  lemma {:induction false} CoalesceOfCanonical(ranges: seq<LedgerRange>)
    requires Canonical(ranges)
    ensures Coalesce(ranges) == ranges
  {
    CoalesceUnique(ranges, ranges);
  }

  lemma RunThree(t: Tracker, a: Step, b: Step, c: Step)
    ensures Run(t, [a, b, c]) == Apply(Apply(Apply(t, a), b), c)
  {
    assert [a, b, c][1..] == [b, c];
    RunTwo(Apply(t, a), b, c);
  }

  // ----- One process's view: the store with its methods -----

  /** What the cache GET of the range list answered: no answer, nothing stored, or unreadable text. */
  datatype CacheRead = Unavailable | Missing | Garbage | Hit

  class TrackerStore {
    var table: seq<LedgerRange>
    var checkpoint: Option<int>
    ghost var committed: seq<LedgerRange>
    ghost var inFlight: seq<CacheWrite>
    var cachedRanges: Option<seq<LedgerRange>>
    var cachedLast: Option<int>

    ghost function State(): Tracker
      reads this
    {
      Tracker(table, checkpoint, committed, inFlight, cachedRanges, cachedLast)
    }

    constructor ()
      ensures State() == EMPTY
    {
      table, checkpoint, committed, inFlight, cachedRanges, cachedLast := [], None, [], [], None, None;
    }

    /** Reads the list, preferring the cache; a miss reads the table and writes it back if Redis lets it. */
    method GetProcessedRanges(read: CacheRead, setOk: bool) returns (ranges: seq<LedgerRange>)
      requires Inv(State())
      modifies this
      ensures Inv(State()) && Sound(ranges, table)
      ensures read.Hit? && old(cachedRanges).Some? ==> ranges == old(cachedRanges).value && State() == old(State())
      ensures !(read.Hit? && old(cachedRanges).Some?) ==>
                && ranges == old(table)
                && State() == old(State()).(cachedRanges := if setOk then Some(ranges) else old(cachedRanges))
                && State() == Run(old(State()),
                                  [IssueRanges, if setOk then Deliver(|old(inFlight)|) else Lose(|old(inFlight)|)])
    {
      if read.Hit? && cachedRanges.Some? {
        return cachedRanges.value;
      }
      ranges := table;
      ghost var n := |inFlight|;
      ghost var answer := if setOk then Deliver(n) else Lose(n);
      ghost var before := State();
      if setOk {
        cachedRanges := Some(ranges);
      }
      RunTwo(before, IssueRanges, answer);
      assert Without(before.inFlight + [WriteRanges(ranges)], n) == before.inFlight;
      assert Sound(table, table);
    }

    /**
     Reads the last-ledger key, preferring the cache; a miss reads the checkpoint, or takes the
     configured genesis ledger, and writes it back if Redis lets it.  A value that is no number counts as a miss.
     */
    method GetLastProcessedLedger(read: CacheRead, setOk: bool, genesis: int) returns (last: int)
      requires Inv(State())
      modifies this
      ensures Inv(State())
      ensures read.Hit? && old(cachedLast).Some? ==> last == old(cachedLast).value && State() == old(State())
      ensures !(read.Hit? && old(cachedLast).Some?) ==>
                && (if committed == [] then last == genesis else HighestEnd(committed, last))
                && State() == old(State()).(cachedLast := if setOk then Some(last) else old(cachedLast))
                && State() == Run(old(State()),
                                  [IssueLast(genesis),
                                   if setOk then Deliver(|old(inFlight)|) else Lose(|old(inFlight)|)])
    {
      if read.Hit? && cachedLast.Some? {
        return cachedLast.value;
      }
      last := if checkpoint.Some? then checkpoint.value else genesis;
      ghost var n := |inFlight|;
      ghost var answer := if setOk then Deliver(n) else Lose(n);
      ghost var before := State();
      if setOk {
        cachedLast := Some(last);
      }
      RunTwo(before, IssueLast(genesis), answer);
      assert Without(before.inFlight + [WriteLast(last)], n) == before.inFlight;
    }

    /**
     Records [start, end]: one transaction, then the two cache writes, each of which may fail.
     `RecordSteps` relates the outcome to the steps of the protocol.
     */
    method RecordProcessedRange(start: int, end: int, rangesOk: bool, lastOk: bool)
      requires Inv(State())
      modifies this
      ensures Inv(State())
      ensures end < start ==> State() == old(State())
      ensures start <= end ==> State() == AfterRecord(old(State()), start, end, rangesOk, lastOk)
      ensures start <= end ==> Recorded(old(State()), State(), start, end, rangesOk, lastOk)
    {
      if end < start {
        return;
      }
      ghost var before := State();
      RecordKeepsInv(before, start, end, rangesOk, lastOk);
      RecordedMeaning(before, start, end, rangesOk, lastOk);
      hide Recorded, Inv, Canonical, Coalesce, Covers, Run, SameCoverage, WellFormed, AfterRecord;
      var merged := CoalesceRanges(table + [LedgerRange(start, end)]);
      var maxEnd := MaxEnd(merged, end);
      hide MaxEnd, Greatest;
      table := merged;
      checkpoint := Greatest(checkpoint, maxEnd);
      committed := committed + [LedgerRange(start, end)];
      cachedRanges := if rangesOk then Some(merged) else cachedRanges;
      cachedLast := if lastOk then Some(maxEnd) else cachedLast;
      RecordedFields(before, start, end, rangesOk, lastOk, State());
    }
  }

  lemma RecordKeepsInv(t: Tracker, start: int, end: int, rangesOk: bool, lastOk: bool)
    requires Inv(t) && start <= end
    ensures WellFormed(t.table + [LedgerRange(start, end)])
    ensures Inv(AfterRecord(t, start, end, rangesOk, lastOk))
  {
    RecordSteps(t, start, end, rangesOk, lastOk);
  }

  /**
   What a recording means: the range is committed, the checkpoint is the highest end committed so
   far, and each cached key that could be written says what the database says.
   */
  ghost predicate Recorded(t: Tracker, t': Tracker, start: int, end: int, rangesOk: bool, lastOk: bool) {
    && t'.committed == t.committed + [LedgerRange(start, end)]
    && t'.checkpoint.Some? && HighestEnd(t'.committed, t'.checkpoint.value)
    && t'.cachedRanges == (if rangesOk then Some(t'.table) else t.cachedRanges)
    && t'.cachedLast == (if lastOk then t'.checkpoint else t.cachedLast)
  }

  lemma {:induction false} RecordedMeaning(t: Tracker, start: int, end: int, rangesOk: bool, lastOk: bool)
    requires Inv(t) && start <= end
    ensures Recorded(t, AfterRecord(t, start, end, rangesOk, lastOk), start, end, rangesOk, lastOk)
  {
    CommitKeepsCheckpoint(t, start, end);
    hide HighestEnd, Coalesce, Canonical, Covers;
    var c := ApplyCommit(t, start, end);
    assert c.inFlight[|t.inFlight| + 1] == WriteLast(c.checkpoint.value);
  }

  lemma RecordedFields(t: Tracker, start: int, end: int, rangesOk: bool, lastOk: bool, t': Tracker)
    requires start <= end
    requires t'.table == Coalesce(t.table + [LedgerRange(start, end)])
    requires t'.checkpoint == Greatest(t.checkpoint, MaxEnd(t'.table, end))
    requires t'.committed == t.committed + [LedgerRange(start, end)] && t'.inFlight == t.inFlight
    requires t'.cachedRanges == if rangesOk then Some(t'.table) else t.cachedRanges
    requires t'.cachedLast == if lastOk then Some(MaxEnd(t'.table, end)) else t.cachedLast
    ensures t' == AfterRecord(t, start, end, rangesOk, lastOk)
  {}

  lemma RunTwo(t: Tracker, a: Step, b: Step)
    ensures Run(t, [a, b]) == Apply(Apply(t, a), b)
  {
    assert [a, b][1..] == [b];
    var s := Apply(t, a);
    assert [b][1..] == [];
    assert Run(s, [b]) == Apply(s, b);
  }

  /** A write that is in flight is answered: it takes effect or is lost. */
  lemma AnswerWrite(t: Tracker, before: seq<CacheWrite>, w: CacheWrite, after: seq<CacheWrite>, ok: bool)
    requires t.inFlight == before + [w] + after
    ensures Apply(t, if ok then Deliver(|before|) else Lose(|before|))
            == (if ok then ApplyWrite(t, w) else t).(inFlight := before + after)
  {
    assert t.inFlight[|before|] == w;
    assert Without(t.inFlight, |before|) == before + after;
  }

  /** The store after a recording whose two cache writes have been answered. */
  function AfterRecord(t: Tracker, start: int, end: int, rangesOk: bool, lastOk: bool): Tracker
    requires start <= end
  {
    var c := ApplyCommit(t, start, end);
    c.(inFlight := t.inFlight,
       cachedRanges := if rangesOk then Some(c.table) else t.cachedRanges,
       cachedLast := if lastOk then Some(MaxEnd(c.table, end)) else t.cachedLast)
  }

  /** A recording is one commit step followed by the answers to its two cache writes. */
  lemma RecordSteps(t: Tracker, start: int, end: int, rangesOk: bool, lastOk: bool)
    requires Inv(t) && start <= end
    ensures WellFormed(t.table + [LedgerRange(start, end)])
    ensures
      var n := |t.inFlight|;
      AfterRecord(t, start, end, rangesOk, lastOk)
      == Run(t, [Commit(start, end), if rangesOk then Deliver(n) else Lose(n), if lastOk then Deliver(n) else Lose(n)])
    ensures Inv(AfterRecord(t, start, end, rangesOk, lastOk))
    ensures forall ledger :: Covers(AfterRecord(t, start, end, rangesOk, lastOk).table, ledger)
                             <==> Covers(t.table, ledger) || start <= ledger <= end
  {
    CommitGrowsTable(t, start, end);
    var n := |t.inFlight|;
    var a := if rangesOk then Deliver(n) else Lose(n);
    var b := if lastOk then Deliver(n) else Lose(n);
    RunKeepsInv(t, [Commit(start, end), a, b]);
    RunThree(t, Commit(start, end), a, b);
    AnswersOfRecord(t, start, end, rangesOk, lastOk);
    hide Run, Coalesce, Canonical, Covers, Inv;
  }

  lemma AnswersOfRecord(t: Tracker, start: int, end: int, rangesOk: bool, lastOk: bool)
    requires start <= end
    ensures
      var n := |t.inFlight|;
      AfterRecord(t, start, end, rangesOk, lastOk)
      == Apply(Apply(ApplyCommit(t, start, end), if rangesOk then Deliver(n) else Lose(n)),
               if lastOk then Deliver(n) else Lose(n))
  {
    hide Coalesce;
    var c := ApplyCommit(t, start, end);
    var wr, wl := WriteRanges(c.table), WriteLast(MaxEnd(c.table, end));
    assert c.inFlight == t.inFlight + [wr] + [wl];
    AnswerWrite(c, t.inFlight, wr, [wl], rangesOk);
    var d := (if rangesOk then ApplyWrite(c, wr) else c).(inFlight := t.inFlight + [wl]);
    assert d.inFlight == t.inFlight + [wl] + [];
    AnswerWrite(d, t.inFlight, wl, [], lastOk);
    assert t.inFlight + [] == t.inFlight;
  }
}
