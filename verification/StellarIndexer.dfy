/**
 The driver of the ledger tracker (backend/src/indexer/StellarIndexer.ts): `pollOnce`, the batched
 backfill it calls, and the loop of `startIndexer`.

 Every call into the RPC server or the database may fail; which ones do is left open, so what is
 proved holds for every pattern of failures.
 */
module StellarIndexer {
  import opened Common
  import opened LedgerRanges
  import opened LedgerTracker
  import opened Batching

  const BACKFILL_BATCH_SIZE := 100

  /** How one `processLedger` call ended: done, ledger pruned or out of range, or any other error. */
  datatype Fate = Processed | Unavailable | Failed

  /** What the two reads at the start of a poll returned. */
  datatype View = View(last: int, ranges: seq<LedgerRange>)

  ghost predicate AllSettled(genesis: int, upTo: int, settled: set<int>) {
    forall ledger :: genesis < ledger <= upTo ==> ledger in settled
  }

  ghost predicate OnlySettled(ranges: seq<LedgerRange>, settled: set<int>) {
    forall ledger :: Covers(ranges, ledger) ==> ledger in settled
  }

  /** Where the per-ledger loop resumes after the first `completed` gaps were backfilled. */
  function ResumeAfter(lastProcessed: int, missing: seq<LedgerRange>, completed: nat): int
    requires completed <= |missing|
  {
    if completed == 0 then lastProcessed else Max(lastProcessed, missing[completed - 1].end)
  }

  // ----- Facts about recording several ranges -----

  lemma Recordable(table: seq<LedgerRange>, r: LedgerRange)
    requires Canonical(table) && r.start <= r.end
    ensures WellFormed(table + [r]) && Canonical(Coalesce(table + [r])) && Coalesce(table + [r]) != []
  {
    RecordOne(table, r);
  }

  lemma RecordAppend(table: seq<LedgerRange>, done: seq<LedgerRange>, r: LedgerRange)
    requires Canonical(table) && WellFormed(done) && r.start <= r.end
    ensures Coalesce(Coalesce(table + done) + [r]) == Coalesce(table + (done + [r]))
  {
    CoalesceIncremental(table + done, [r]);
    assert table + done + [r] == table + (done + [r]);
  }

  lemma RecordNothing(table: seq<LedgerRange>)
    requires Canonical(table)
    ensures Coalesce(table + []) == table
  {
    assert table + [] == table;
    CoalesceUnique(table, table);
  }

  // ----- Consistency: nothing that a reader can see claims a ledger that was not settled -----

  /** The values a (possibly stale) read may return, and the table behind them. */
  datatype Visible = Visible(table: seq<LedgerRange>, lists: set<seq<LedgerRange>>, lasts: set<int>)

  ghost predicate Truthful(v: Visible, genesis: int, settled: set<int>) {
    && v.table in v.lists
    && (forall list :: list in v.lists ==> Canonical(list) && OnlySettled(list, settled))
    && (forall last :: last in v.lasts ==> AllSettled(genesis, last, settled))
    && (v.table != [] ==> AllSettled(genesis, LastEnd(v.table), settled))
  }

  lemma TruthfulGrows(v: Visible, genesis: int, settled: set<int>, more: set<int>)
    requires Truthful(v, genesis, settled) && settled <= more
    ensures Truthful(v, genesis, more)
  {
    forall list | list in v.lists ensures OnlySettled(list, more) {
      assert OnlySettled(list, settled);
    }
    forall last | last in v.lasts ensures AllSettled(genesis, last, more) {
      assert AllSettled(genesis, last, settled);
    }
  }

  lemma TruthfulSave(v: Visible, genesis: int, settled: set<int>, last: int)
    requires Truthful(v, genesis, settled) && AllSettled(genesis, last, settled)
    ensures Truthful(v.(lasts := v.lasts + {last}), genesis, settled)
  {}

  lemma AllSettledGrows(genesis: int, last: int, settled: set<int>, more: set<int>, next: int)
    requires AllSettled(genesis, last, settled) && settled <= more
    requires forall ledger :: last < ledger <= next ==> ledger in more
    ensures AllSettled(genesis, next, more)
  {}

  lemma TruthfulRecord(v: Visible, genesis: int, settled: set<int>, r: LedgerRange, t: seq<LedgerRange>)
    requires Truthful(v, genesis, settled)
    requires r.start <= r.end && AllSettled(genesis, r.end, settled)
    requires forall ledger :: Contains(r, ledger) ==> ledger in settled
    requires t == Coalesce(v.table + [r]) && t != []
    ensures Truthful(Visible(t, v.lists + {t}, v.lasts + {LastEnd(t)}), genesis, settled)
  {
    RecordOne(v.table, r);
    assert OnlySettled(v.table, settled);
    assert OnlySettled(t, settled);
  }

  // ----- The indexer -----

  /** The table, the ranges recorded, the ledgers handed out and those of them settled, at one moment. */
  datatype Trail = Trail(table: seq<LedgerRange>, log: seq<LedgerRange>, calls: seq<int>, settled: set<int>)

  class Indexer {
    var table: seq<LedgerRange>               // indexer_ledger_ranges
    var checkpoint: Option<int>               // indexer_checkpoints, row 1
    var visibleLists: set<seq<LedgerRange>>   // every list a (possibly stale) read may return
    var visibleLasts: set<int>                // every "last processed" value a read may return
    ghost var calls: seq<int>                 // the ledgers handed to processLedger, in order
    ghost var settled: set<int>               // those of them processed, or reported unavailable
    ghost var log: seq<LedgerRange>           // the ranges recorded, in order
    ghost var throws: nat                     // how many calls have thrown, swallowed or not

    ghost predicate Consistent(genesis: int)
      reads this
    {
      && Truthful(Visible(table, visibleLists, visibleLasts), genesis, settled)
      && (checkpoint.Some? ==> checkpoint.value in visibleLasts)
    }

    /** What has been done so far. */
    ghost function Now(): Trail
      reads this
    {
      Trail(table, log, calls, settled)
    }

    constructor (genesis: int)
      ensures Canonical(table) && Consistent(genesis)
      ensures calls == [] && settled == {} && log == [] && table == [] && checkpoint == None && throws == 0
      ensures visibleLists == {[]} && visibleLasts == {genesis}
    {
      table, checkpoint := [], None;
      visibleLists, visibleLasts := {[]}, {genesis};
      calls, settled, log, throws := [], {}, [], 0;
    }

    method ProcessLedger(ledger: int) returns (fate: Fate)
      modifies this`calls, this`settled, this`throws
      ensures calls == old(calls) + [ledger]
      ensures throws == old(throws) + Thrown(!fate.Failed?)
      ensures settled == if fate.Failed? then old(settled) else old(settled) + {ledger}
    {
      fate := *;
      calls := calls + [ledger];
      if !fate.Failed? {
        settled := settled + {ledger};
      } else {
        throws := throws + 1;
      }
    }

    /** Where a starting process resumes: the checkpoint, read from the database itself. */
    method GetLastProcessedLedger(genesis: int) returns (last: int)
      ensures last == if checkpoint.Some? then checkpoint.value else genesis
      ensures Consistent(genesis) ==> AllSettled(genesis, last, settled)
    {
      last := if checkpoint.Some? then checkpoint.value else genesis;
    }

    method SaveCheckpoint(ledger: int) returns (ok: bool)
      modifies this`checkpoint, this`visibleLasts, this`throws
      ensures throws == old(throws) + Thrown(ok)
      ensures !ok ==> checkpoint == old(checkpoint) && visibleLasts == old(visibleLasts)
      ensures ok ==> checkpoint == Some(ledger) && visibleLasts == old(visibleLasts) + {ledger}
    {
      ok := *;
      if ok {
        checkpoint := Some(ledger);
        visibleLasts := visibleLasts + {ledger};
      } else {
        throws := throws + 1;
      }
    }

    method RecordProcessedRange(start: int, end: int) returns (ok: bool)
      requires Canonical(table)
      modifies this`table, this`checkpoint, this`visibleLists, this`visibleLasts, this`log,
               this`throws
      ensures Canonical(table)
      ensures throws == old(throws) + Thrown(ok)
      ensures !ok || end < start ==>
                && table == old(table) && checkpoint == old(checkpoint) && log == old(log)
                && visibleLists == old(visibleLists) && visibleLasts == old(visibleLasts)
      ensures ok && start <= end ==>
                && table == Coalesce(old(table) + [LedgerRange(start, end)]) && table != []
                && checkpoint == (if old(checkpoint).Some? && old(checkpoint).value > table[|table| - 1].end
                                  then old(checkpoint)
                                  else Some(table[|table| - 1].end))
                && visibleLists == old(visibleLists) + {table}
                && visibleLasts == old(visibleLasts) + {LastEnd(table)}
                && log == old(log) + [LedgerRange(start, end)]
    {
      if end < start {
        return true;
      }
      ok := *;
      if ok {
        hide Canonical, Coalesce, Covers, WellFormed, SameCoverage;
        Recordable(table, LedgerRange(start, end));
        table := CoalesceRanges(table + [LedgerRange(start, end)]);
        checkpoint := Greatest(checkpoint, LastEnd(table));
        visibleLists := visibleLists + {table};
        visibleLasts := visibleLasts + {LastEnd(table)};
        log := log + [LedgerRange(start, end)];
      } else {
        throws := throws + 1;
      }
    }

    /** The innermost loop of a backfill: every ledger of one batch, in order, until an error. */
    method ProcessBatch(batchStart: int, batchEnd: int) returns (ok: bool, ghost handed: nat)
      requires batchStart <= batchEnd
      modifies this`calls, this`settled, this`throws
      ensures throws == old(throws) + Thrown(ok)
      ensures handed <= batchEnd - batchStart + 1
      ensures calls == old(calls) + Interval(batchStart, batchStart + handed - 1)
      ensures old(settled) <= settled
      ensures ok ==> handed == batchEnd - batchStart + 1
      ensures ok ==> forall ledger :: batchStart <= ledger <= batchEnd ==> ledger in settled
    {
      var ledger := batchStart;
      handed := 0;
      while ledger <= batchEnd
        invariant batchStart <= ledger <= batchEnd + 1
        invariant handed == ledger - batchStart
        invariant calls == old(calls) + Interval(batchStart, ledger - 1)
        invariant throws == old(throws)
        invariant old(settled) <= settled
        invariant forall l :: batchStart <= l < ledger ==> l in settled
      {
        var fate := ProcessLedger(ledger);
        handed := handed + 1;
        assert Interval(batchStart, ledger) == Interval(batchStart, ledger - 1) + [ledger];
        if fate.Failed? {
          return false, handed;
        }
        ledger := ledger + 1;
      }
      ok := true;
    }

    /** One turn of the backfill loop: process the batch, record it, save the checkpoint. */
    method BackfillBatch(batchStart: int, batchEnd: int, ghost genesis: int)
      returns (ok: bool, ghost handed: nat, ghost recorded: bool)
      requires batchStart <= batchEnd && Canonical(table)
      modifies this
      ensures Canonical(table)
      ensures throws == old(throws) + Thrown(ok)
      ensures handed <= batchEnd - batchStart + 1
      ensures calls == old(calls) + Interval(batchStart, batchStart + handed - 1)
      ensures old(settled) <= settled
      ensures ok ==> recorded && checkpoint == Some(batchEnd)
      ensures recorded ==>
                && handed == batchEnd - batchStart + 1
                && (forall ledger :: batchStart <= ledger <= batchEnd ==> ledger in settled)
                && table == Coalesce(old(table) + [LedgerRange(batchStart, batchEnd)])
                && log == old(log) + [LedgerRange(batchStart, batchEnd)]
      ensures !recorded ==> table == old(table) && log == old(log)
      ensures old(Consistent(genesis)) && AllSettled(genesis, batchStart - 1, old(settled)) ==> Consistent(genesis)
    {
      hide Truthful, AllSettled, Canonical, Coalesce;
      recorded := false;
      ghost var start := old(Consistent(genesis)) && AllSettled(genesis, batchStart - 1, old(settled));
      ok, handed := ProcessBatch(batchStart, batchEnd);
      ghost var v := Visible(table, visibleLists, visibleLasts);
      if start {
        TruthfulGrows(v, genesis, old(settled), settled);
      }
      if !ok {
        return;
      }
      ok := RecordProcessedRange(batchStart, batchEnd);
      if !ok {
        return;
      }
      recorded := true;
      if start {
        AllSettledGrows(genesis, batchStart - 1, old(settled), settled, batchEnd);
        TruthfulRecord(v, genesis, settled, LedgerRange(batchStart, batchEnd), table);
        TruthfulSave(Visible(table, visibleLists, visibleLasts), genesis, settled, batchEnd);
      }
      ok := SaveCheckpoint(batchEnd);
    }

    /**
     Backfills [first, last] batch by batch.  `done` are the batches recorded by this call and
     `handed` the number of ledgers given to processLedger; `ok` is false when the call threw.
     */
    method BackfillMissingLedgers(first: int, last: int, batchSize: int, ghost genesis: int)
      returns (ok: bool, totalProcessed: nat, ghost done: seq<LedgerRange>, ghost handed: nat)
      requires batchSize > 0 && Canonical(table)
      modifies this
      ensures Canonical(table)
      ensures throws == old(throws) + Thrown(ok)
      ensures done <= Batches(first, last, batchSize)
      ensures log == old(log) + done && table == Coalesce(old(table) + done)
      ensures handed <= Max(0, last - first + 1)
      ensures calls == old(calls) + Interval(first, first + handed - 1)
      ensures forall ledger :: Covers(done, ledger) ==> first <= ledger < first + handed && ledger in settled
      ensures forall ledger :: first <= ledger < first + handed - batchSize ==> Covers(done, ledger)
      ensures old(settled) <= settled
      ensures ok ==> done == Batches(first, last, batchSize) && totalProcessed == handed == Max(0, last - first + 1)
      ensures ok && first <= last ==> checkpoint == Some(last)
      ensures ok ==> forall ledger :: first <= ledger <= last ==> ledger in settled
      ensures old(Consistent(genesis)) && AllSettled(genesis, first - 1, old(settled)) ==> Consistent(genesis)
    {
      hide Canonical, Truthful, Coalesce, AllSettled, Covers, WellFormed, Indexer.Consistent, Progress, Batches,
           Interval;
      totalProcessed := 0;
      done := [];
      handed := 0;
      var batchStart := first;
      RecordNothing(table);
      ProgressStart(first, last, batchSize, settled);
      NoneHanded(calls, first);
      ghost var start := old(Consistent(genesis)) && AllSettled(genesis, first - 1, old(settled));
      while batchStart <= last
        invariant first <= batchStart
        invariant Progress(done, handed, first, last, batchStart, batchSize, settled)
        invariant totalProcessed == handed
        invariant Canonical(table)
        invariant log == old(log) + done && table == Coalesce(old(table) + done)
        invariant calls == old(calls) + Interval(first, first + handed - 1)
        invariant old(settled) <= settled && throws == old(throws)
        invariant first < batchStart && last < batchStart ==> checkpoint == Some(last)
        invariant start ==> Consistent(genesis)
        decreases last - batchStart
      {
        var batchEnd := Min(batchStart + batchSize - 1, last);
        ghost var inBatch, recorded;
        ghost var before, was := done, settled;
        ProgressCount(done, handed, first, last, batchStart, batchSize, settled);
        SettledUpTo(genesis, first, old(settled), batchStart, settled);
        ok, inBatch, recorded := BackfillBatch(batchStart, batchEnd, genesis);
        HandMore(old(calls), first, handed, inBatch);
        if recorded {
          done := done + [LedgerRange(batchStart, batchEnd)];
          ProgressStep(before, handed, first, last, batchStart, batchSize, was, settled);
          RecordAppend(old(table), before, LedgerRange(batchStart, batchEnd));
          ProgressOutcome(done, handed + inBatch, first, last, batchStart + batchSize, batchSize, settled, settled,
                          handed + inBatch);
        } else {
          ProgressOutcome(done, handed, first, last, batchStart, batchSize, was, settled, handed + inBatch);
        }
        handed := handed + inBatch;
        if !ok {
          return;
        }
        var count := batchEnd - batchStart + 1;
        totalProcessed := totalProcessed + count;
        batchStart := batchStart + batchSize;
      }
      ok := true;
      ProgressDone(done, handed, first, last, batchStart, batchSize, settled);
    }

    /** One turn of the recovery loop: backfill the next gap. */
    method RecoverGap(gaps: seq<LedgerRange>, i: nat, ghost handed: seq<int>, ghost genesis: int)
      returns (ok: bool, ghost more: seq<int>)
      requires Canonical(table) && Canonical(gaps) && i < |gaps| && Recovered(gaps, i, handed, settled)
      modifies this
      ensures throws == old(throws) + Thrown(ok)
      ensures GapTurn(gaps, i, handed, more, ok, old(Now()), Now())
      ensures old(Consistent(genesis)) && AllSettled(genesis, gaps[i].start - 1, old(settled)) ==> Consistent(genesis)
    {
      hide Coalesce, Covers, AllSettled, Indexer.Consistent, Recovered, Batches, Interval;
      var gap := gaps[i];
      assert gap in gaps && gap.start <= gap.end;
      assert Canonical(gaps) && Canonical(table);
      hide Canonical;
      var total;
      ghost var done, n;
      ok, total, done, n := BackfillMissingLedgers(gap.start, gap.end, BACKFILL_BATCH_SIZE, genesis);
      more := Interval(gap.start, gap.start + n - 1);
      RecoverStep(gaps, i, handed, old(settled), n, settled);
    }

    /**
     The guarded block at the start of a poll: find the gaps above the tracker's last ledger and
     backfill them in order.  An error ends the block and is swallowed; `completed` gaps were
     backfilled in full by then, which is all of them unless something threw.  `view` is None when one
     of the reads threw.
     */
    method RecoverGaps(lastProcessed: int, latest: int, view: Option<View>, ghost genesis: int)
      returns (resume: int, ghost missing: seq<LedgerRange>, ghost completed: nat, ghost handed: seq<int>)
      requires Canonical(table) && (view.Some? ==> Canonical(view.value.ranges))
      modifies this
      ensures view.None? ==> missing == []
      ensures view.Some? ==> IsMissing(missing, view.value.last + 1, latest, view.value.ranges)
      ensures completed <= |missing|
      ensures throws == old(throws) + Thrown(completed == |missing|)
      ensures GapsRun(lastProcessed, missing, completed, handed, resume, old(Now()), Now())
      ensures completed == |missing| ==> GapsDone(missing, completed, handed, old(Now()), Now())
      ensures old(Consistent(genesis)) && TruthfulView(view, genesis, old(settled)) ==> Consistent(genesis)
      ensures TruthfulView(view, genesis, old(settled)) && AllSettled(genesis, lastProcessed, old(settled)) ==>
                AllSettled(genesis, resume, settled)
    {
      resume, missing, completed, handed := lastProcessed, [], 0, [];
      if view.None? {
        NoGapDone(lastProcessed, missing, Now());
        return;
      }
      var gaps := FindMissingRanges(view.value.last + 1, latest, view.value.ranges);
      missing := gaps;
      resume, completed, handed := RecoverEach(lastProcessed, latest, view.value, gaps, genesis);
    }

    /** The loop over the gaps, up to the first error. */
    method RecoverEach(lastProcessed: int, latest: int, ghost view: View, gaps: seq<LedgerRange>, ghost genesis: int)
      returns (resume: int, ghost completed: nat, ghost handed: seq<int>)
      requires Canonical(table) && Canonical(gaps) && IsMissing(gaps, view.last + 1, latest, view.ranges)
      modifies this
      ensures completed <= |gaps|
      ensures throws == old(throws) + Thrown(completed == |gaps|)
      ensures GapsRun(lastProcessed, gaps, completed, handed, resume, old(Now()), Now())
      ensures completed == |gaps| ==> GapsDone(gaps, completed, handed, old(Now()), Now())
      ensures old(Consistent(genesis)) && TruthfulView(Some(view), genesis, old(settled)) ==> Consistent(genesis)
      ensures TruthfulView(Some(view), genesis, old(settled)) && AllSettled(genesis, lastProcessed, old(settled)) ==>
                AllSettled(genesis, resume, settled)
    {
      hide Canonical, AllSettled, IsMissing, Indexer.Consistent, TruthfulView, GapsRun, GapsDone, GapTurn, Recovered,
           Covers, Coalesce, ResumeAfter, WellFormed;
      ghost var was := Now();
      ghost var start := Consistent(genesis) && TruthfulView(Some(view), genesis, settled);
      resume, completed, handed := lastProcessed, 0, [];
      NoGapDone(lastProcessed, gaps, was);
      var i := 0;
      while i < |gaps|
        invariant 0 <= i <= |gaps| && completed == i
        invariant GapsRun(lastProcessed, gaps, i, handed, resume, was, Now())
        invariant GapsDone(gaps, i, handed, was, Now())
        invariant start ==> Consistent(genesis)
        invariant throws == old(throws)
      {
        ghost var before, sofar := Now(), handed;
        BeforeGap(view, latest, genesis, lastProcessed, gaps, i, handed, resume, was, before);
        var ok;
        ghost var more;
        ok, more := RecoverGap(gaps, i, handed, genesis);
        handed := handed + more;
        NextGap(view, latest, lastProcessed, gaps, i, sofar, more, resume, ok, was, before, Now());
        if !ok {
          break;
        }
        resume := Max(resume, gaps[i].end);
        i := i + 1;
        completed := i;
      }
      AfterGaps(view, latest, genesis, lastProcessed, gaps, completed, handed, resume, was, Now());
    }

    /** The per-ledger loop: process, save the checkpoint, advance; a throw loses only this call's result. */
    method CatchUp(resume: int, latest: int, ghost genesis: int)
      returns (ok: bool, lastProcessed: int, ghost handed: nat)
      modifies this`calls, this`settled, this`checkpoint, this`visibleLasts, this`throws
      ensures throws == old(throws) + Thrown(ok)
      ensures handed <= Max(0, latest - resume)
      ensures calls == old(calls) + Interval(resume + 1, resume + handed)
      ensures ok ==> handed == Max(0, latest - resume) && lastProcessed == Max(resume, latest)
      ensures handed - Thrown(ok) <= lastProcessed - resume <= handed
      ensures checkpoint == if lastProcessed > resume then Some(lastProcessed) else old(checkpoint)
      ensures forall l :: resume < l <= lastProcessed ==> l in settled
      ensures old(settled) <= settled
      ensures old(Consistent(genesis)) && AllSettled(genesis, resume, old(settled)) ==>
                Consistent(genesis) && (ok ==> AllSettled(genesis, lastProcessed, settled))
    {
      hide Truthful, AllSettled;
      lastProcessed, handed := resume, 0;
      ghost var start := old(Consistent(genesis)) && AllSettled(genesis, resume, old(settled));
      var ledger := lastProcessed + 1;
      while ledger <= latest
        invariant resume < ledger && lastProcessed == ledger - 1 && throws == old(throws)
        invariant ledger <= Max(latest, resume) + 1
        invariant handed == ledger - 1 - resume
        invariant calls == old(calls) + Interval(resume + 1, resume + handed)
        invariant old(settled) <= settled
        invariant checkpoint == if resume + 1 < ledger then Some(ledger - 1) else old(checkpoint)
        invariant forall l :: resume < l < ledger ==> l in settled
        invariant start ==> Consistent(genesis) && AllSettled(genesis, lastProcessed, settled)
      {
        ghost var was := settled;
        var fate := ProcessLedger(ledger);
        if start {
          TruthfulGrows(Visible(table, visibleLists, visibleLasts), genesis, was, settled);
        }
        handed := handed + 1;
        assert Interval(resume + 1, ledger) == Interval(resume + 1, ledger - 1) + [ledger];
        if fate.Failed? {
          return false, lastProcessed, handed;
        }
        if start {
          AllSettledGrows(genesis, ledger - 1, was, settled, ledger);
          TruthfulSave(Visible(table, visibleLists, visibleLasts), genesis, settled, ledger);
        }
        var saved := SaveCheckpoint(ledger);
        if !saved {
          return false, lastProcessed, handed;
        }
        lastProcessed := ledger;
        ledger := ledger + 1;
      }
      ok := true;
    }

    /**
     One poll.  None means that it threw.  `handed` lists the ledgers given to processLedger by this
     call, `missing` the gaps found at its start and `completed` how many of them were backfilled.

     Unless the network head is behind, a poll that returns has reached `latest`, and of the ledgers
     above `lastProcessed` that the range list did not hold it has handed out exactly those that are
     not both below the tracker's own last ledger and behind a completed gap.
     */
    method PollOnce(lastProcessed: int, latest: int, view: Option<View>, ghost genesis: int)
      returns (result: Option<int>, ghost missing: seq<LedgerRange>, ghost completed: nat, ghost handed: seq<int>)
      requires Canonical(table) && (view.Some? ==> Canonical(view.value.ranges))
      modifies this
      ensures Canonical(table) && old(settled) <= settled
      ensures calls == old(calls) + handed
      ensures latest < lastProcessed && result.Some? ==>
                result == Some(latest) && handed == [] && checkpoint == Some(latest) && table == old(table)
      ensures latest >= lastProcessed && result.Some? ==> result == Some(latest)
      ensures completed <= |missing| && (view.None? ==> missing == [])
      ensures throws == old(throws) + Thrown(completed == |missing|) + Thrown(result.Some?)
      ensures latest >= lastProcessed && view.Some? ==>
                IsMissing(missing, view.value.last + 1, latest, view.value.ranges)
      ensures latest >= lastProcessed && completed == |missing| ==>
                log == old(log) + InBatches(missing, 100) && table == Coalesce(old(table) + InBatches(missing, 100))
      ensures latest >= lastProcessed && completed == |missing| && view.Some? ==>
                GapsFilled(view.value, latest, old(table), table)
      ensures latest >= lastProcessed && throws == old(throws) ==>
                HandedAll(lastProcessed, latest, missing, handed, settled)
      ensures latest >= lastProcessed && result.Some? ==> HandedIff(lastProcessed, latest, view, completed, handed)
      ensures latest >= lastProcessed && result.Some? && (view.Some? ==> view.value.last <= lastProcessed) ==>
                SkipsNothing(lastProcessed, latest, RangesRead(view), handed)
      ensures old(Consistent(genesis)) && TruthfulView(view, genesis, old(settled)) &&
              AllSettled(genesis, lastProcessed, old(settled)) ==>
                Consistent(genesis) && (result.Some? ==> AllSettled(genesis, result.value, settled))
    {
      missing, completed, handed := [], 0, [];
      if latest < lastProcessed {
        var saved := SaveCheckpoint(latest);
        result := if saved then Some(latest) else None;
        return;
      }
      hide Canonical, Covers, AllSettled, IsMissing, Indexer.Consistent, TruthfulView, GapsRun, GapsDone, HandedAll,
           GapsFilled, InBatches, Coalesce, Interval, HandedIff, SkipsNothing, RangesRead;
      var resume, ok, end;
      ghost var n, recovered;
      resume, missing, completed, recovered := RecoverGaps(lastProcessed, latest, view, genesis);
      ghost var before := Now();
      ok, end, n := CatchUp(resume, latest, genesis);
      handed := recovered + Interval(resume + 1, resume + n);
      result := if ok then Some(end) else None;
      PollEnds(lastProcessed, latest, view, missing, completed, recovered, resume, n, ok, end,
               old(Now()), before, Now());
    }
  }

  /** One throw, unless the call went well. */
  function Thrown(ok: bool): nat {
    if ok then 0 else 1
  }

  /** The batches in which gaps are recorded, one gap after the other. */
  function InBatches(gaps: seq<LedgerRange>, size: int): seq<LedgerRange>
    requires size > 0
  {
    if gaps == [] then []
    else InBatches(gaps[..|gaps| - 1], size) + Batches(gaps[|gaps| - 1].start, gaps[|gaps| - 1].end, size)
  }

  /** The first `i` gaps were handed out in order and recorded in batches of 100, and nothing else was. */
  ghost predicate GapsDone(gaps: seq<LedgerRange>, i: nat, handed: seq<int>, was: Trail, now: Trail)
    requires i <= |gaps|
  {
    && handed == Ledgers(gaps[..i])
    && now.log == was.log + InBatches(gaps[..i], 100)
    && now.table == Coalesce(was.table + InBatches(gaps[..i], 100))
  }

  /** What holds after `i` gaps were completed, and maybe a part of the next one. */
  ghost predicate GapsRun(lastProcessed: int, gaps: seq<LedgerRange>, i: nat, handed: seq<int>, resume: int,
                          was: Trail, now: Trail)
    requires i <= |gaps|
  {
    && Canonical(was.table) && Canonical(now.table)
    && was.settled <= now.settled && now.calls == was.calls + handed
    && resume == ResumeAfter(lastProcessed, gaps, i)
    && Recovered(gaps, i, handed, now.settled)
  }

  /** One turn: it hands out `more`, and if it goes well, exactly the gap, recorded in batches of 100. */
  ghost predicate GapTurn(gaps: seq<LedgerRange>, i: nat, handed: seq<int>, more: seq<int>, ok: bool,
                          was: Trail, now: Trail)
    requires i < |gaps|
  {
    && Canonical(now.table) && was.settled <= now.settled && now.calls == was.calls + more
    && Recovered(gaps, i, handed + more, now.settled)
    && (ok ==>
          && Recovered(gaps, i + 1, handed + more, now.settled)
          && more == Interval(gaps[i].start, gaps[i].end)
          && now.log == was.log + Batches(gaps[i].start, gaps[i].end, 100)
          && now.table == Coalesce(was.table + Batches(gaps[i].start, gaps[i].end, 100)))
  }

  lemma {:induction false} NoGapDone(lastProcessed: int, gaps: seq<LedgerRange>, now: Trail)
    requires Canonical(now.table)
    ensures GapsDone(gaps, 0, [], now, now) && GapsRun(lastProcessed, gaps, 0, [], lastProcessed, now, now)
  {
    assert gaps[..0] == [] && now.log + [] == now.log && now.calls + [] == now.calls;
    RecordNothing(now.table);
    NothingRecovered(gaps, now.settled);
  }

  lemma GapsRunMeans(lastProcessed: int, gaps: seq<LedgerRange>, i: nat, handed: seq<int>, resume: int,
                     was: Trail, now: Trail)
    requires i <= |gaps| && GapsRun(lastProcessed, gaps, i, handed, resume, was, now)
    ensures Canonical(now.table) && was.settled <= now.settled && now.calls == was.calls + handed
    ensures resume == ResumeAfter(lastProcessed, gaps, i) && Recovered(gaps, i, handed, now.settled)
  {}

  lemma BeforeGap(view: View, latest: int, genesis: int, lastProcessed: int, gaps: seq<LedgerRange>, i: nat,
                  handed: seq<int>, resume: int, was: Trail, now: Trail)
    requires IsMissing(gaps, view.last + 1, latest, view.ranges) && i < |gaps|
    requires GapsRun(lastProcessed, gaps, i, handed, resume, was, now)
    ensures Canonical(now.table) && Recovered(gaps, i, handed, now.settled)
    ensures TruthfulView(Some(view), genesis, was.settled) ==> AllSettled(genesis, gaps[i].start - 1, now.settled)
  {
    GapReached(view, latest, genesis, gaps, i, was.settled, now.settled, handed);
  }

  lemma AfterGaps(view: View, latest: int, genesis: int, lastProcessed: int, gaps: seq<LedgerRange>, completed: nat,
                  handed: seq<int>, resume: int, was: Trail, now: Trail)
    requires IsMissing(gaps, view.last + 1, latest, view.ranges) && completed <= |gaps|
    requires GapsRun(lastProcessed, gaps, completed, handed, resume, was, now)
    ensures TruthfulView(Some(view), genesis, was.settled) && AllSettled(genesis, lastProcessed, was.settled) ==>
              AllSettled(genesis, resume, now.settled)
  {
    ResumeSettled(lastProcessed, Some(view), latest, genesis, gaps, completed, handed, was.settled, now.settled);
  }

  lemma {:induction false} NextGap(view: View, latest: int, lastProcessed: int, gaps: seq<LedgerRange>, i: nat,
                                   handed: seq<int>, more: seq<int>, resume: int, ok: bool,
                                   was: Trail, mid: Trail, now: Trail)
    requires IsMissing(gaps, view.last + 1, latest, view.ranges) && i < |gaps|
    requires GapsRun(lastProcessed, gaps, i, handed, resume, was, mid)
    requires GapTurn(gaps, i, handed, more, ok, mid, now)
    ensures !ok ==> GapsRun(lastProcessed, gaps, i, handed + more, resume, was, now)
    ensures ok ==> GapsRun(lastProcessed, gaps, i + 1, handed + more, Max(resume, gaps[i].end), was, now)
    ensures ok && GapsDone(gaps, i, handed, was, mid) ==> GapsDone(gaps, i + 1, handed + more, was, now)
  {
    ResumeStep(lastProcessed, view, latest, gaps, i);
    hide Recovered, ResumeAfter, IsMissing, Coalesce, Canonical, InBatches, Ledgers, Interval, Batches, GapsDone;
    assert was.calls + (handed + more) == was.calls + handed + more;
    if ok && GapsDone(gaps, i, handed, was, mid) {
      NextGapDone(gaps, i, handed, more, was, mid, now);
    }
  }

  lemma {:induction false} NextGapDone(gaps: seq<LedgerRange>, i: nat, handed: seq<int>, more: seq<int>,
                                       was: Trail, mid: Trail, now: Trail)
    requires i < |gaps| && Canonical(was.table) && GapsDone(gaps, i, handed, was, mid)
    requires GapTurn(gaps, i, handed, more, true, mid, now)
    ensures GapsDone(gaps, i + 1, handed + more, was, now)
  {
    hide Recovered, Coalesce, Canonical, InBatches, Ledgers, Interval, Batches;
    GapDone(gaps, i, was.table);
    LogDone(was.log, mid.log, now.log, InBatches(gaps[..i], 100), Batches(gaps[i].start, gaps[i].end, 100));
  }

  lemma LogDone(log: seq<LedgerRange>, mid: seq<LedgerRange>, now: seq<LedgerRange>, done: seq<LedgerRange>,
                batches: seq<LedgerRange>)
    requires mid == log + done && now == mid + batches
    ensures now == log + (done + batches)
  {}

  lemma {:induction false} LedgersSnoc(gaps: seq<LedgerRange>, r: LedgerRange)
    ensures Ledgers(gaps + [r]) == Ledgers(gaps) + Interval(r.start, r.end)
  {
    if gaps == [] {
      assert [] + [r] == [r] && [r][1..] == [];
      assert Ledgers([r]) == Interval(r.start, r.end) + [];
    } else {
      assert (gaps + [r])[0] == gaps[0] && (gaps + [r])[1..] == gaps[1..] + [r];
      LedgersSnoc(gaps[1..], r);
    }
  }

  lemma {:induction false} InBatchesWellFormed(gaps: seq<LedgerRange>)
    ensures WellFormed(InBatches(gaps, 100))
    ensures forall ledger :: Covers(InBatches(gaps, 100), ledger) <==> Covers(gaps, ledger)
  {
    if gaps != [] {
      var init, last := gaps[..|gaps| - 1], gaps[|gaps| - 1];
      InBatchesWellFormed(init);
      assert gaps == init + [last];
      BatchesCoverage(last.start, last.end, 100, 0);
      assert forall r :: r in InBatches(gaps, 100) ==>
          r in InBatches(init, 100) || r in Batches(last.start, last.end, 100);
      forall ledger ensures Covers(InBatches(gaps, 100), ledger) <==> Covers(gaps, ledger) {
        BatchesCoverage(last.start, last.end, 100, ledger);
        CoversConcat(InBatches(init, 100), Batches(last.start, last.end, 100), ledger);
        CoversConcat(init, [last], ledger);
        CoversSingle(last, ledger);
      }
    }
  }

  lemma {:induction false} GapDone(gaps: seq<LedgerRange>, i: nat, table: seq<LedgerRange>)
    requires i < |gaps| && Canonical(table)
    ensures
      var done, batches := InBatches(gaps[..i], 100), Batches(gaps[i].start, gaps[i].end, 100);
      && Ledgers(gaps[..i + 1]) == Ledgers(gaps[..i]) + Interval(gaps[i].start, gaps[i].end)
      && InBatches(gaps[..i + 1], 100) == done + batches
      && Coalesce(Coalesce(table + done) + batches) == Coalesce(table + (done + batches))
  {
    assert gaps[..i + 1] == gaps[..i] + [gaps[i]] && gaps[..i + 1][..i] == gaps[..i];
    InBatchesSnoc(gaps[..i], gaps[i]);
    LedgersSnoc(gaps[..i], gaps[i]);
    InBatchesWellFormed(gaps[..i]);
    RecordBatches(table, InBatches(gaps[..i], 100), gaps[i]);
    hide Coalesce, Canonical, InBatches, Ledgers, Interval, Batches, WellFormed, Covers;
  }

  lemma {:induction false} InBatchesSnoc(gaps: seq<LedgerRange>, r: LedgerRange)
    ensures InBatches(gaps + [r], 100) == InBatches(gaps, 100) + Batches(r.start, r.end, 100)
  {
    assert (gaps + [r])[..|gaps|] == gaps;
  }

  lemma {:induction false} RecordBatches(table: seq<LedgerRange>, done: seq<LedgerRange>, gap: LedgerRange)
    requires Canonical(table)
    ensures
      var batches := Batches(gap.start, gap.end, 100);
      WellFormed(done) ==> Coalesce(Coalesce(table + done) + batches) == Coalesce(table + (done + batches))
  {
    var batches := Batches(gap.start, gap.end, 100);
    BatchesCoverage(gap.start, gap.end, 100, 0);
    assert WellFormed(done) ==> WellFormed(table + done);
    hide Canonical, Coalesce, Covers, WellFormed, Batches;
    assert table + done + batches == table + (done + batches);
    if WellFormed(done) {
      CoalesceIncremental(table + done, batches);
    }
  }

  /** A poll without a throw: the gaps are handed out first, then the rest in order, and all of it is settled. */
  ghost predicate HandedAll(lastProcessed: int, latest: int, missing: seq<LedgerRange>, handed: seq<int>,
                            settled: set<int>)
  {
    && handed == Ledgers(missing) + Interval(ResumeAfter(lastProcessed, missing, |missing|) + 1, latest)
    && (forall ledger :: Covers(missing, ledger) ==> ledger in handed)
    && (forall ledger :: ledger in handed ==> ledger in settled)
  }

  /** The table has grown by exactly the ledgers above the tracker's last one that the range list lacked. */
  ghost predicate GapsFilled(view: View, latest: int, before: seq<LedgerRange>, after: seq<LedgerRange>) {
    forall ledger :: Covers(after, ledger) <==>
      Covers(before, ledger) || (view.last < ledger <= latest && !Covers(view.ranges, ledger))
  }

  function RangesRead(view: Option<View>): seq<LedgerRange> {
    if view.Some? then view.value.ranges else []
  }

  /** Of the ledgers above `lastProcessed` that the range list lacks, which ones a poll that returned handed out. */
  ghost predicate HandedIff(lastProcessed: int, latest: int, view: Option<View>, completed: nat, handed: seq<int>) {
    forall ledger :: lastProcessed < ledger <= latest && !Covers(RangesRead(view), ledger) ==>
      (ledger in handed <==> !(view.Some? && completed > 0 && ledger <= view.value.last))
  }

  /** How a poll ends, from what its two parts have done. */
  lemma {:induction false} PollEnds(lastProcessed: int, latest: int, view: Option<View>, missing: seq<LedgerRange>,
                                    completed: nat, recovered: seq<int>, resume: int, n: nat, ok: bool, end: int,
                                    was: Trail, mid: Trail, now: Trail)
    requires lastProcessed <= latest && completed <= |missing| && (view.None? ==> missing == [])
    requires view.Some? ==> IsMissing(missing, view.value.last + 1, latest, view.value.ranges)
    requires GapsRun(lastProcessed, missing, completed, recovered, resume, was, mid)
    requires completed == |missing| ==> GapsDone(missing, completed, recovered, was, mid)
    requires now.table == mid.table && now.log == mid.log && mid.settled <= now.settled
    requires now.calls == mid.calls + Interval(resume + 1, resume + n)
    requires ok ==> n == Max(0, latest - resume) && end == Max(resume, latest)
    requires ok ==> forall l :: resume < l <= latest ==> l in now.settled
    ensures Canonical(now.table) && was.settled <= now.settled
    ensures now.calls == was.calls + (recovered + Interval(resume + 1, resume + n))
    ensures ok ==> end == latest
    ensures completed == |missing| ==>
              now.log == was.log + InBatches(missing, 100) && now.table == Coalesce(was.table + InBatches(missing, 100))
    ensures completed == |missing| && view.Some? ==> GapsFilled(view.value, latest, was.table, now.table)
    ensures completed == |missing| && ok ==>
              HandedAll(lastProcessed, latest, missing, recovered + Interval(resume + 1, resume + n), now.settled)
    ensures ok ==> HandedIff(lastProcessed, latest, view, completed, recovered + Interval(resume + 1, resume + n))
    ensures ok && (view.Some? ==> view.value.last <= lastProcessed) ==>
              SkipsNothing(lastProcessed, latest, RangesRead(view), recovered + Interval(resume + 1, resume + n))
  {
    GapsRunMeans(lastProcessed, missing, completed, recovered, resume, was, mid);
    if view.None? {
      NoneRecovered(recovered, mid.settled);
    }
    ResumeWithin(lastProcessed, latest, view, missing, completed);
    assert was.calls + recovered + Interval(resume + 1, resume + n)
        == was.calls + (recovered + Interval(resume + 1, resume + n));
    if completed == |missing| {
      assert missing[..completed] == missing;
      if view.Some? {
        BatchesFillGaps(was.table, view.value, latest, missing);
      }
    }
    hide Canonical, InBatches, Coalesce, GapsDone, GapsRun, IsMissing, GapsFilled, Covers;
    if ok {
      HandedExactly(lastProcessed, latest, view, missing, completed, recovered,
                    recovered + Interval(resume + 1, resume + n), mid.settled);
      if completed == |missing| {
        SettledAll(lastProcessed, latest, missing, recovered, resume, mid.settled, now.settled);
      }
    }
  }

  lemma NoneRecovered(recovered: seq<int>, settled: set<int>)
    requires Recovered([], 0, recovered, settled)
    ensures recovered == []
  {
    assert recovered != [] ==> Covers([], recovered[0]);
  }

  lemma {:induction false} SettledAll(lastProcessed: int, latest: int, missing: seq<LedgerRange>, recovered: seq<int>,
                                      resume: int, settled: set<int>, more: set<int>)
    requires Recovered(missing, |missing|, recovered, settled) && settled <= more
    requires recovered == Ledgers(missing) && resume == ResumeAfter(lastProcessed, missing, |missing|)
    requires forall l :: resume < l <= latest ==> l in more
    ensures HandedAll(lastProcessed, latest, missing, recovered + Interval(resume + 1, latest), more)
  {
    assert missing[..|missing|] == missing;
    forall ledger | ledger in recovered + Interval(resume + 1, latest) ensures ledger in more {
      IntervalMembers(resume + 1, latest, ledger);
    }
  }

  /** Once every gap is recorded, the table covers what it did and all ledgers that were missing. */
  lemma {:induction false} BatchesFillGaps(table: seq<LedgerRange>, view: View, latest: int, missing: seq<LedgerRange>)
    requires Canonical(table) && IsMissing(missing, view.last + 1, latest, view.ranges)
    ensures GapsFilled(view, latest, table, Coalesce(table + InBatches(missing, 100)))
  {
    var batches := InBatches(missing, 100);
    InBatchesWellFormed(missing);
    CoalesceCanonical(table + batches);
    hide Canonical, Coalesce, Covers, WellFormed, InBatches;
    forall ledger
      ensures Covers(Coalesce(table + batches), ledger) <==>
              Covers(table, ledger) || (view.last < ledger <= latest && !Covers(view.ranges, ledger))
    {
      assert Covers(Coalesce(table + batches), ledger) <==> Covers(table + batches, ledger);
      CoversConcat(table, batches, ledger);
    }
  }

  /** What a poll was told is true: every ledger it claims was settled. */
  ghost predicate TruthfulView(view: Option<View>, genesis: int, settled: set<int>) {
    view.Some? ==> AllSettled(genesis, view.value.last, settled) && OnlySettled(view.value.ranges, settled)
  }

  /** The first `i` gaps have been handed out and settled, and only gaps have been handed out. */
  ghost predicate Recovered(gaps: seq<LedgerRange>, i: nat, handed: seq<int>, settled: set<int>)
    requires i <= |gaps|
  {
    && (forall ledger :: ledger in handed ==> Covers(gaps, ledger))
    && (forall ledger :: Covers(gaps[..i], ledger) ==> ledger in handed && ledger in settled)
  }

  lemma NothingRecovered(gaps: seq<LedgerRange>, settled: set<int>)
    ensures Recovered(gaps, 0, [], settled)
  {
    assert gaps[..0] == [];
  }

  /** Handing out the first `n` ledgers of the next gap; the gap counts once all of it is settled. */
  lemma RecoverStep(gaps: seq<LedgerRange>, i: nat, handed: seq<int>, settled: set<int>, n: nat, more: set<int>)
    requires i < |gaps| && Canonical(gaps) && Recovered(gaps, i, handed, settled) && settled <= more
    requires n <= Max(0, gaps[i].end - gaps[i].start + 1)
    ensures
      var after := handed + Interval(gaps[i].start, gaps[i].start + n - 1);
      && Recovered(gaps, i, after, more)
      && (n == gaps[i].end - gaps[i].start + 1 && (forall ledger :: Contains(gaps[i], ledger) ==> ledger in more) ==>
            Recovered(gaps, i + 1, after, more))
  {
    var gap := gaps[i];
    assert gap in gaps;
    var news := Interval(gap.start, gap.start + n - 1);
    forall ledger | ledger in news ensures Contains(gap, ledger) && Covers(gaps, ledger) {
      IntervalMembers(gap.start, gap.start + n - 1, ledger);
    }
    assert gaps[..i + 1] == gaps[..i] + [gap];
    forall ledger | Covers(gaps[..i + 1], ledger) && n == gap.end - gap.start + 1
      ensures ledger in handed + news
    {
      CoversConcat(gaps[..i], [gap], ledger);
      CoversSingle(gap, ledger);
      IntervalMembers(gap.start, gap.start + n - 1, ledger);
    }
    forall ledger | Covers(gaps[..i + 1], ledger)
      ensures ledger in settled || Contains(gap, ledger)
    {
      CoversConcat(gaps[..i], [gap], ledger);
      CoversSingle(gap, ledger);
    }
  }

  /** When a gap is reached, every ledger below it is settled if the view was truthful. */
  lemma GapReached(view: View, latest: int, genesis: int, gaps: seq<LedgerRange>, i: nat,
                   settled: set<int>, more: set<int>, handed: seq<int>)
    requires IsMissing(gaps, view.last + 1, latest, view.ranges) && i < |gaps|
    requires settled <= more && Recovered(gaps, i, handed, more)
    ensures TruthfulView(Some(view), genesis, settled) ==> AllSettled(genesis, gaps[i].start - 1, more)
  {
    assert gaps[i] in gaps && Covers(gaps, gaps[i].end) by {
      assert Contains(gaps[i], gaps[i].end);
    }
    if TruthfulView(Some(view), genesis, settled) {
      forall ledger | genesis < ledger < gaps[i].start ensures ledger in more {
        if view.last < ledger && !Covers(view.ranges, ledger) {
          assert Covers(gaps, ledger);
          var r :| r in gaps && Contains(r, ledger);
          var k :| 0 <= k < |gaps| && gaps[k] == r;
          assert k < i;
          assert r == gaps[..i][k];
          assert Covers(gaps[..i], ledger);
        }
      }
    }
  }

  lemma ResumeAtStart(lastProcessed: int, gaps: seq<LedgerRange>)
    ensures ResumeAfter(lastProcessed, gaps, 0) == lastProcessed
  {}

  lemma ResumeStep(lastProcessed: int, view: View, latest: int, gaps: seq<LedgerRange>, i: nat)
    requires IsMissing(gaps, view.last + 1, latest, view.ranges) && i < |gaps|
    ensures Max(ResumeAfter(lastProcessed, gaps, i), gaps[i].end) == ResumeAfter(lastProcessed, gaps, i + 1)
  {
    assert gaps[i] in gaps;
  }

  lemma ResumeSettled(lastProcessed: int, view: Option<View>, latest: int, genesis: int, gaps: seq<LedgerRange>,
                      completed: nat, handed: seq<int>, settled: set<int>, more: set<int>)
    requires view.Some? && IsMissing(gaps, view.value.last + 1, latest, view.value.ranges) && completed <= |gaps|
    requires settled <= more && Recovered(gaps, completed, handed, more)
    ensures TruthfulView(view, genesis, settled) && AllSettled(genesis, lastProcessed, settled) ==>
              AllSettled(genesis, ResumeAfter(lastProcessed, gaps, completed), more)
  {
    if TruthfulView(view, genesis, settled) && AllSettled(genesis, lastProcessed, settled) && completed > 0 {
      var gap := gaps[completed - 1];
      GapPrefix(gaps, completed, handed, more);
      GapReached(view.value, latest, genesis, gaps, completed - 1, settled, more, handed);
      forall ledger | genesis < ledger <= gap.end ensures ledger in more {
        if gap.start <= ledger {
          assert gap in gaps[..completed] && Contains(gap, ledger);
        }
      }
    }
  }

  lemma GapPrefix(gaps: seq<LedgerRange>, i: nat, handed: seq<int>, settled: set<int>)
    requires 0 < i <= |gaps| && Recovered(gaps, i, handed, settled)
    ensures Recovered(gaps, i - 1, handed, settled)
  {
    assert gaps[..i] == gaps[..i - 1] + [gaps[i - 1]];
    forall ledger | Covers(gaps[..i - 1], ledger) ensures Covers(gaps[..i], ledger) {
      CoversConcat(gaps[..i - 1], [gaps[i - 1]], ledger);
    }
  }

  lemma ResumeWithin(lastProcessed: int, latest: int, view: Option<View>, missing: seq<LedgerRange>, completed: nat)
    requires lastProcessed <= latest && completed <= |missing|
    requires view.None? ==> missing == []
    requires view.Some? ==> IsMissing(missing, view.value.last + 1, latest, view.value.ranges)
    ensures lastProcessed <= ResumeAfter(lastProcessed, missing, completed) <= latest
    ensures completed > 0 ==> view.Some? && view.value.last < missing[completed - 1].end
  {
    if completed > 0 {
      var gap := missing[completed - 1];
      assert gap in missing && Contains(gap, gap.end);
      assert Covers(missing, gap.end);
    }
  }

  /** Which ledgers one poll hands out: the statement about skipped ledgers, both ways. */
  lemma HandedExactly(lastProcessed: int, latest: int, view: Option<View>, missing: seq<LedgerRange>, completed: nat,
                      recovered: seq<int>, handed: seq<int>, settled: set<int>)
    requires lastProcessed <= latest && completed <= |missing|
    requires view.None? ==> missing == [] && recovered == []
    requires view.Some? ==> IsMissing(missing, view.value.last + 1, latest, view.value.ranges)
    requires Recovered(missing, completed, recovered, settled)
    requires handed == recovered + Interval(ResumeAfter(lastProcessed, missing, completed) + 1, latest)
    ensures HandedIff(lastProcessed, latest, view, completed, handed)
  {
    var resume := ResumeAfter(lastProcessed, missing, completed);
    ResumeWithin(lastProcessed, latest, view, missing, completed);
    forall ledger | lastProcessed < ledger <= latest && !(view.Some? && Covers(view.value.ranges, ledger))
      ensures ledger in handed <==> !(view.Some? && completed > 0 && ledger <= view.value.last)
    {
      IntervalMembers(resume + 1, latest, ledger);
      if completed > 0 && ledger <= resume && view.value.last < ledger {
        assert Covers(missing, ledger);
        CompletedBelow(missing, completed, ledger);
      }
    }
  }

  /**
   When no gap was completed the poll skips nothing.  Otherwise it skips nothing exactly when the
   range list holds every ledger between the caller's position and the tracker's last ledger; that
   is always so when the tracker is not ahead of the caller.
   */
  lemma NothingSkippedIff(lastProcessed: int, latest: int, view: Option<View>, missing: seq<LedgerRange>,
                          completed: nat, recovered: seq<int>, handed: seq<int>, settled: set<int>)
    requires lastProcessed <= latest && completed <= |missing|
    requires view.None? ==> missing == [] && recovered == []
    requires view.Some? ==> IsMissing(missing, view.value.last + 1, latest, view.value.ranges)
    requires Recovered(missing, completed, recovered, settled)
    requires handed == recovered + Interval(ResumeAfter(lastProcessed, missing, completed) + 1, latest)
    ensures (forall ledger :: lastProcessed < ledger <= latest && !(view.Some? && Covers(view.value.ranges, ledger)) ==>
               ledger in handed)
            <==> (completed > 0 ==>
                    forall ledger :: lastProcessed < ledger <= view.value.last ==> Covers(view.value.ranges, ledger))
  {
    HandedExactly(lastProcessed, latest, view, missing, completed, recovered, handed, settled);
    ResumeWithin(lastProcessed, latest, view, missing, completed);
    if completed > 0 {
      forall ledger | lastProcessed < ledger <= view.value.last && !Covers(view.value.ranges, ledger)
        ensures ledger <= latest && ledger !in handed
      {}
    }
  }

  /** How a poll that returned may have gone: `completed` gaps backfilled, then the loop from there. */
  ghost predicate PollOutcome(lastProcessed: int, latest: int, missing: seq<LedgerRange>,
                              completed: nat, recovered: seq<int>, handed: seq<int>, settled: set<int>)
  {
    && completed <= |missing|
    && Recovered(missing, completed, recovered, settled)
    && handed == recovered + Interval(ResumeAfter(lastProcessed, missing, completed) + 1, latest)
  }

  ghost predicate SkipsNothing(lastProcessed: int, latest: int, ranges: seq<LedgerRange>, handed: seq<int>) {
    forall ledger :: lastProcessed < ledger <= latest && !Covers(ranges, ledger) ==> ledger in handed
  }

  lemma {:induction false} FirstGapCompleted(lastProcessed: int, latest: int, missing: seq<LedgerRange>)
    returns (recovered: seq<int>, handed: seq<int>, settled: set<int>)
    requires Canonical(missing) && missing != []
    ensures PollOutcome(lastProcessed, latest, missing, 1, recovered, handed, settled)
  {
    var gap := missing[0];
    recovered := Interval(gap.start, gap.end);
    settled := set ledger | ledger in recovered;
    handed := recovered + Interval(ResumeAfter(lastProcessed, missing, 1) + 1, latest);
    assert gap in missing;
    assert missing[..1] == [gap];
    forall ledger ensures ledger in recovered <==> Covers(missing[..1], ledger) {
      IntervalMembers(gap.start, gap.end, ledger);
      CoversSingle(gap, ledger);
    }
    forall ledger | ledger in recovered ensures Covers(missing, ledger) {
      IntervalMembers(gap.start, gap.end, ledger);
    }
  }

  /**
   What a caller can tell beforehand: no pattern of failures makes the poll skip a ledger exactly
   when there is no gap to backfill, or the ranges read hold every ledger between the caller's
   position and the tracker's last ledger.
   */
  lemma {:induction false} NeverSkipsIff(lastProcessed: int, latest: int, view: View, missing: seq<LedgerRange>)
    requires lastProcessed <= latest && IsMissing(missing, view.last + 1, latest, view.ranges)
    ensures (forall completed, recovered, handed, settled ::
               PollOutcome(lastProcessed, latest, missing, completed, recovered, handed, settled) ==>
                 SkipsNothing(lastProcessed, latest, view.ranges, handed))
            <==>
            (missing == [] || forall ledger :: lastProcessed < ledger <= view.last ==> Covers(view.ranges, ledger))
  {
    forall completed, recovered, handed, settled |
      PollOutcome(lastProcessed, latest, missing, completed, recovered, handed, settled)
      ensures SkipsNothing(lastProcessed, latest, view.ranges, handed) <==>
              (completed > 0 ==> forall ledger :: lastProcessed < ledger <= view.last ==> Covers(view.ranges, ledger))
    {
      NothingSkippedIff(lastProcessed, latest, Some(view), missing, completed, recovered, handed, settled);
    }
    if missing != [] {
      var recovered, handed, settled := FirstGapCompleted(lastProcessed, latest, missing);
      assert PollOutcome(lastProcessed, latest, missing, 1, recovered, handed, settled);
    }
  }

  /** A tracker ahead of the caller: ledgers 6 and 7 are neither recorded nor a gap, and the poll resumes after 10. */
  lemma TrackerAheadSkips()
    ensures
      var view := View(9, [LedgerRange(8, 9)]);
      var missing := [LedgerRange(10, 10)];
      && IsMissing(missing, view.last + 1, 10, view.ranges)
      && ResumeAfter(5, missing, 1) == 10
      && !Covers(view.ranges, 6) && !Covers(missing, 6)
  {
    forall ledger ensures Covers([LedgerRange(10, 10)], ledger) <==> ledger == 10 {
      CoversSingle(LedgerRange(10, 10), ledger);
    }
    forall ledger ensures Covers([LedgerRange(8, 9)], ledger) <==> 8 <= ledger <= 9 {
      CoversSingle(LedgerRange(8, 9), ledger);
    }
  }

  lemma CompletedBelow(missing: seq<LedgerRange>, completed: nat, ledger: int)
    requires Canonical(missing) && 0 < completed <= |missing|
    requires Covers(missing, ledger) && ledger <= missing[completed - 1].end
    ensures Covers(missing[..completed], ledger)
  {
    var r :| r in missing && Contains(r, ledger);
    var k :| 0 <= k < |missing| && missing[k] == r;
    assert k < completed;
    assert missing[..completed][k] == r;
  }

  lemma SettledUpTo(genesis: int, first: int, settled: set<int>, next: int, more: set<int>)
    requires settled <= more
    requires forall ledger :: first <= ledger < next ==> ledger in more
    ensures AllSettled(genesis, first - 1, settled) ==> AllSettled(genesis, next - 1, more)
  {}

  lemma NoneHanded(calls: seq<int>, first: int)
    ensures calls + Interval(first, first - 1) == calls
  {}

  lemma HandMore(calls: seq<int>, first: int, handed: nat, more: nat)
    ensures calls + Interval(first, first + handed - 1) + Interval(first + handed, first + handed + more - 1)
            == calls + Interval(first, first + handed + more - 1)
  {
    IntervalJoin(first, first + handed - 1, first + handed + more - 1);
    assert calls + (Interval(first, first + handed - 1) + Interval(first + handed, first + handed + more - 1))
           == calls + Interval(first, first + handed + more - 1);
  }

  /** The batches before `batchStart` are done, and they cover exactly the ledgers handed so far. */
  ghost predicate Progress(done: seq<LedgerRange>, handed: nat, first: int, last: int, batchStart: int, batchSize: int,
                           settled: set<int>)
    requires batchSize > 0
  {
    && done + Batches(batchStart, last, batchSize) == Batches(first, last, batchSize)
    && WellFormed(done)
    && handed == Min(batchStart, Max(last + 1, first)) - first
    && (forall ledger :: Covers(done, ledger) <==> first <= ledger < first + handed)
    && (forall ledger :: first <= ledger < first + handed ==> ledger in settled)
  }

  lemma ProgressCount(done: seq<LedgerRange>, handed: nat, first: int, last: int, batchStart: int, batchSize: int,
                      settled: set<int>)
    requires batchSize > 0 && batchStart <= last
    requires Progress(done, handed, first, last, batchStart, batchSize, settled)
    ensures batchStart == first + handed && WellFormed(done)
    ensures forall ledger :: first <= ledger < batchStart ==> ledger in settled
  {}

  lemma ProgressOutcome(done: seq<LedgerRange>, handed: nat, first: int, last: int, batchStart: int, batchSize: int,
                        settled: set<int>, more: set<int>, inAll: nat)
    requires batchSize > 0 && settled <= more && handed <= inAll
    requires Progress(done, handed, first, last, batchStart, batchSize, settled)
    ensures done <= Batches(first, last, batchSize)
    ensures forall ledger :: Covers(done, ledger) ==> first <= ledger < first + inAll && ledger in more
    ensures forall ledger :: first <= ledger < first + handed ==> Covers(done, ledger)
  {}

  lemma ProgressDone(done: seq<LedgerRange>, handed: nat, first: int, last: int, batchStart: int, batchSize: int,
                     settled: set<int>)
    requires batchSize > 0 && first <= batchStart && last < batchStart
    requires Progress(done, handed, first, last, batchStart, batchSize, settled)
    ensures done == Batches(first, last, batchSize) && handed == Max(0, last - first + 1)
    ensures forall ledger :: Covers(done, ledger) ==> first <= ledger < first + handed && ledger in settled
    ensures forall ledger :: first <= ledger <= last ==> ledger in settled
    ensures forall ledger :: first <= ledger <= last ==> Covers(done, ledger)
  {
    assert done + Batches(batchStart, last, batchSize) == done;
  }

  lemma ProgressStart(first: int, last: int, batchSize: int, settled: set<int>)
    requires batchSize > 0
    ensures Progress([], 0, first, last, first, batchSize, settled)
  {
    assert [] + Batches(first, last, batchSize) == Batches(first, last, batchSize);
  }

  lemma ProgressStep(done: seq<LedgerRange>, handed: nat, first: int, last: int, batchStart: int, batchSize: int,
                     settled: set<int>, more: set<int>)
    requires batchSize > 0 && first <= batchStart <= last
    requires Progress(done, handed, first, last, batchStart, batchSize, settled) && settled <= more
    requires forall ledger :: batchStart <= ledger <= Min(batchStart + batchSize - 1, last) ==> ledger in more
    ensures
      var batchEnd := Min(batchStart + batchSize - 1, last);
      Progress(done + [LedgerRange(batchStart, batchEnd)], handed + (batchEnd - batchStart + 1), first, last,
               batchStart + batchSize, batchSize, more)
  {
    var r := LedgerRange(batchStart, Min(batchStart + batchSize - 1, last));
    ProgressStepBatches(done, first, last, batchStart, batchSize);
    ProgressStepCoverage(done, handed, first, r);
  }

  lemma ProgressStepBatches(done: seq<LedgerRange>, first: int, last: int, batchStart: int, batchSize: int)
    requires batchSize > 0 && first <= batchStart <= last
    requires done + Batches(batchStart, last, batchSize) == Batches(first, last, batchSize)
    ensures done + [LedgerRange(batchStart, Min(batchStart + batchSize - 1, last))]
            + Batches(batchStart + batchSize, last, batchSize) == Batches(first, last, batchSize)
  {
    var r := LedgerRange(batchStart, Min(batchStart + batchSize - 1, last));
    assert done + [r] + Batches(batchStart + batchSize, last, batchSize)
           == done + ([r] + Batches(batchStart + batchSize, last, batchSize));
  }

  lemma ProgressStepCoverage(done: seq<LedgerRange>, handed: nat, first: int, r: LedgerRange)
    requires forall ledger :: Covers(done, ledger) <==> first <= ledger < first + handed
    requires r.start == first + handed && r.start <= r.end
    ensures forall ledger :: Covers(done + [r], ledger) <==> first <= ledger < r.end + 1
  {
    forall ledger ensures Covers(done + [r], ledger) <==> first <= ledger < r.end + 1 {
      CoversConcat(done, [r], ledger);
      CoversSingle(r, ledger);
    }
  }

  // ----- The indexer's whole life -----

  /** A read may return any of the values that were ever there to be read. */
  method AnyOf<T(==)>(values: set<T>) returns (value: T)
    requires values != {}
    ensures value in values
  {
    value :| value in values;
  }

  /** One turn of the loop: whether the process was restarted before it, the network's head, and whether reads work. */
  datatype Round = Round(restarted: bool, latest: int, readable: bool)

  /**
   One round: it starts where the process stands, or at the stored checkpoint after a restart, and
   polls with whatever a stale read returns.  It ends at the network's head unless something threw,
   and then stands where it started.
   */
  method PlayRound(indexer: Indexer, genesis: int, lastProcessed: int, round: Round)
    returns (next: int, ghost start: int, ghost view: Option<View>, ghost handed: seq<int>)
    requires Canonical(indexer.table) && indexer.Consistent(genesis)
    requires AllSettled(genesis, lastProcessed, indexer.settled)
    modifies indexer
    ensures Canonical(indexer.table) && indexer.Consistent(genesis)
    ensures AllSettled(genesis, next, indexer.settled) && old(indexer.settled) <= indexer.settled
    ensures start == if !round.restarted then lastProcessed
                     else if old(indexer.checkpoint).Some? then old(indexer.checkpoint).value else genesis
    ensures view.Some? ==>
              view.value.last in old(indexer.visibleLasts) && view.value.ranges in old(indexer.visibleLists)
    ensures round.readable && old(indexer.visibleLasts) != {} && old(indexer.visibleLists) != {} ==> view.Some?
    ensures indexer.calls == old(indexer.calls) + handed && indexer.throws >= old(indexer.throws)
    ensures next == round.latest || (next == start && indexer.throws > old(indexer.throws))
    ensures indexer.throws == old(indexer.throws) && start <= round.latest &&
            (view.Some? ==> view.value.last <= start) ==>
              SkipsNothing(start, round.latest, RangesRead(view), handed)
    ensures indexer.throws == old(indexer.throws) && start <= round.latest && view.Some? ==>
              GapsFilled(view.value, round.latest, old(indexer.table), indexer.table)
  {
    hide GapsFilled, SkipsNothing, RangesRead, HandedIff, HandedAll, IsMissing, InBatches, Coalesce;
    var position := lastProcessed;
    if round.restarted {
      position := indexer.GetLastProcessedLedger(genesis);
    }
    start := position;
    var read := None;
    var lasts, lists := indexer.visibleLasts, indexer.visibleLists;
    if round.readable && lasts != {} && lists != {} {
      var seen := AnyOf(lasts);
      var list := AnyOf(lists);
      read := Some(View(seen, list));
    }
    view := read;
    var result;
    ghost var missing, completed;
    result, missing, completed, handed := indexer.PollOnce(position, round.latest, read, genesis);
    next := if result.Some? then result.value else position;
  }

  /**
   The loop of `startIndexer`, for any rounds.  Between rounds the process may be stopped, after a
   poll or, as a poll that throws, in the middle of one; it then starts again from the stored
   checkpoint.  No ledger from `genesis` up to where the loop stands is ever skipped, across any
   number of restarts, and unless something throws the loop stands at the network's head.
   */
  method StartIndexer(genesis: int, rounds: seq<Round>) returns (indexer: Indexer, lastProcessed: int)
    ensures fresh(indexer) && indexer.Consistent(genesis)
    ensures AllSettled(genesis, lastProcessed, indexer.settled)
    ensures indexer.throws == 0 ==> lastProcessed == if rounds == [] then genesis else rounds[|rounds| - 1].latest
  {
    indexer := new Indexer(genesis);
    lastProcessed := genesis;
    for i := 0 to |rounds|
      invariant fresh(indexer)
      invariant Canonical(indexer.table) && indexer.Consistent(genesis)
      invariant AllSettled(genesis, lastProcessed, indexer.settled)
      invariant indexer.throws == 0 ==> lastProcessed == if i == 0 then genesis else rounds[i - 1].latest
    {
      ghost var start, view, handed;
      lastProcessed, start, view, handed := PlayRound(indexer, genesis, lastProcessed, rounds[i]);
    }
  }
}
