/**
 Re-org and gap detection of the standalone indexer (indexer/src/ledgerContinuity.ts): what is
 reported for a stream of event ledgers, the maintenance windows that turn an alert into a queued
 backfill, and the batches of a resync.
 */
module LedgerContinuity {
  import opened Common
  import opened LedgerRanges
  import opened Batching

  const REORG_REWIND_LEDGERS := 5
  const GAP_WARNING_THRESHOLD := 1
  const DEFAULT_TTL_SECONDS := 3600

  // ----- What one event ledger means after the last processed one -----

  datatype Verdict = Continuous | Reorg(fromLedger: int, toLedger: int) | Missing(gap: LedgerRange)

  function Classify(eventLedger: int, last: Option<int>): Verdict {
    if last.None? then Continuous
    else if eventLedger < last.value then Reorg(last.value, eventLedger)
    else if eventLedger - last.value - 1 > GAP_WARNING_THRESHOLD then
      Missing(LedgerRange(last.value + 1, eventLedger - 1))
    else Continuous
  }

  // ----- What is reported over a whole stream -----

  /** The events that are accepted, each of which becomes the last processed ledger. */
  function Accepted(last: int, events: seq<int>): seq<int>
    decreases |events|
  {
    if events == [] then []
    else if Classify(events[0], Some(last)).Reorg? then Accepted(last, events[1..])
    else [events[0]] + Accepted(events[0], events[1..])
  }

  /** The gaps reported on the way. */
  function Reported(last: int, events: seq<int>): seq<LedgerRange>
    decreases |events|
  {
    if events == [] then []
    else
      match Classify(events[0], Some(last))
      case Reorg(_, _) => Reported(last, events[1..])
      case Missing(gap) => [gap] + Reported(events[0], events[1..])
      case Continuous => Reported(events[0], events[1..])
  }

  function FinalLedger(last: int, events: seq<int>): int
    decreases |events|
  {
    if events == [] then last
    else if Classify(events[0], Some(last)).Reorg? then FinalLedger(last, events[1..])
    else FinalLedger(events[0], events[1..])
  }

  /** A ledger that was skipped on its own: both its neighbours were seen. */
  ghost predicate SkippedAlone(last: int, accepted: seq<int>, ledger: int) {
    && ledger !in accepted
    && (ledger - 1 == last || ledger - 1 in accepted)
    && ledger + 1 in accepted
  }

  lemma {:induction false} AcceptedBounds(last: int, events: seq<int>)
    ensures last <= FinalLedger(last, events)
    ensures forall e :: e in Accepted(last, events) ==> last <= e <= FinalLedger(last, events) && e in events
    ensures FinalLedger(last, events) == last || FinalLedger(last, events) in Accepted(last, events)
    decreases |events|
  {
    if events != [] {
      if events[0] < last {
        AcceptedBounds(last, events[1..]);
      } else {
        AcceptedBounds(events[0], events[1..]);
      }
    }
  }

  /**
   Exactly which skipped ledgers the detector reports: all of them, except those skipped alone.
   The threshold compares with `>`, so a gap of one ledger passes as continuous.
   */
  lemma {:induction false} ReportedIff(last: int, events: seq<int>, ledger: int)
    ensures Covers(Reported(last, events), ledger) <==>
            && last < ledger < FinalLedger(last, events)
            && ledger !in Accepted(last, events)
            && !SkippedAlone(last, Accepted(last, events), ledger)
    decreases |events|
  {
    if events != [] {
      var e := events[0];
      if e < last {
        ReportedIff(last, events[1..], ledger);
      } else {
        ReportedIff(e, events[1..], ledger);
        AcceptedBounds(e, events[1..]);
        if e - last - 1 > GAP_WARNING_THRESHOLD {
          CoversHeadTail(Reported(last, events), ledger);
          assert Reported(last, events)[1..] == Reported(e, events[1..]);
        }
      }
    }
  }

  /** The reports are in the compact form of the range table: sorted, disjoint, never adjacent. */
  lemma {:induction false} ReportedCanonical(last: int, events: seq<int>)
    ensures Canonical(Reported(last, events))
    ensures forall r :: r in Reported(last, events) ==> last < r.start
    decreases |events|
  {
    if events != [] {
      var e := events[0];
      if e < last {
        ReportedCanonical(last, events[1..]);
      } else {
        ReportedCanonical(e, events[1..]);
        var rest := Reported(e, events[1..]);
        if e - last - 1 > GAP_WARNING_THRESHOLD {
          var all := Reported(last, events);
          assert all == [LedgerRange(last + 1, e - 1)] + rest;
          forall i, j | 0 <= i < j < |all| ensures all[i].end + 1 < all[j].start {
            assert all[j] == rest[j - 1] && rest[j - 1] in rest;
            assert i > 0 ==> all[i] == rest[i - 1];
          }
        }
      }
    }
  }

  /** The doc comment promises "one or more" skipped ledgers; one skipped ledger is not reported. */
  lemma OneSkippedLedgerIsSilent(last: int)
    ensures Reported(last, [last + 2]) == []
    ensures last + 1 !in Accepted(last, [last + 2]) && last < last + 1 < FinalLedger(last, [last + 2])
  {
    assert [last + 2][1..] == [];
    assert Accepted(last, [last + 2]) == [last + 2] + Accepted(last + 2, []);
  }

  // ----- Resync -----

  function ResyncStart(last: int): int {
    Max(1, last - REORG_REWIND_LEDGERS)
  }

  /** The batches of a resync are the partition of the ledgers after the last processed one. */
  method ComputeResyncRange(last: int, current: int, batchSize: int)
    returns (startLedger: int, endLedger: int, totalGaps: nat, batches: seq<LedgerRange>)
    requires batchSize > 0
    ensures startLedger == last + 1 && endLedger == current
    ensures totalGaps == |Interval(last + 1, current)|
    ensures Ledgers(batches) == Interval(last + 1, current)
    ensures forall b :: b in batches ==> b.start <= b.end < b.start + batchSize
    ensures batches == Batches(last + 1, current, batchSize)
  {
    startLedger, endLedger := last + 1, current;
    totalGaps := Max(0, endLedger - startLedger + 1);
    batches := [];
    var start := startLedger;
    while start <= endLedger
      invariant batches + Batches(start, endLedger, batchSize) == Batches(startLedger, endLedger, batchSize)
      decreases endLedger - start + 1
    {
      var end := Min(start + batchSize - 1, endLedger);
      batches := batches + [LedgerRange(start, end)];
      start := start + batchSize;
    }
    assert batches + [] == batches;
    BatchesPartition(startLedger, endLedger, batchSize);
    IntervalLength(startLedger, endLedger);
  }

  lemma {:induction false} IntervalLength(first: int, last: int)
    ensures |Interval(first, last)| == Max(0, last - first + 1)
    decreases last - first + 1
  {
    if first <= last {
      IntervalLength(first, last - 1);
    }
  }

  // ----- Maintenance windows -----

  datatype Window = Window(
    id: string,
    startLedger: Option<int>,
    endLedger: Option<int>,
    startTime: Option<int>,
    endTime: Option<int>,
    createdAt: int,
    ttlSeconds: int,
    backfillRequired: bool)

  /** The optional fields of a scheduling request. */
  datatype Request = Request(
    startLedger: Option<int>,
    endLedger: Option<int>,
    startTime: Option<int>,
    endTime: Option<int>,
    ttlSeconds: Option<int>,
    backfillRequired: Option<bool>)

  function OrElse<T>(x: Option<T>, default: T): T {
    if x.Some? then x.value else default
  }

  function Scheduled(id: string, request: Request, now: int): Window {
    Window(id, request.startLedger, request.endLedger,
           Some(OrElse(request.startTime, now)),
           if request.endTime.Some? then request.endTime
           else if request.ttlSeconds.Some? && request.ttlSeconds.value != 0 then
             Some(now + request.ttlSeconds.value * 1000)
           else None,
           now,
           OrElse(request.ttlSeconds, DEFAULT_TTL_SECONDS),
           OrElse(request.backfillRequired, true))
  }

  predicate Expired(w: Window, now: int) {
    || (w.ttlSeconds > 0 && now - w.createdAt > w.ttlSeconds * 1000)
    || (w.endTime.Some? && now > w.endTime.value)
  }

  function Active(windows: seq<Window>, now: int): seq<Window> {
    if windows == [] then []
    else (if Expired(windows[0], now) then [] else [windows[0]]) + Active(windows[1..], now)
  }

  predicate WithinLedgers(w: Window, gap: LedgerRange) {
    w.startLedger.Some? && w.endLedger.Some? && w.startLedger.value <= gap.start && gap.end <= w.endLedger.value
  }

  predicate Matches(w: Window, gap: LedgerRange, now: int) {
    if WithinLedgers(w, gap) then true
    else if w.startTime.Some? && w.endTime.Some? then w.startTime.value <= now <= w.endTime.value
    else w.startTime.Some? && w.startTime.value <= now
  }

  /**
   When an unexpired window claims a gap.  Scheduling always fills in a start time, so the ledger
   bounds of a window never exclude a gap once that time has come; they only add gaps before it.
   */
  lemma ActiveWindowMatchesIff(id: string, request: Request, scheduledAt: int, gap: LedgerRange, now: int)
    requires !Expired(Scheduled(id, request, scheduledAt), now)
    ensures Matches(Scheduled(id, request, scheduledAt), gap, now) <==>
            || now >= (if request.startTime.Some? then request.startTime.value else scheduledAt)
            || (&& request.startLedger.Some? && request.endLedger.Some?
                && request.startLedger.value <= gap.start && gap.end <= request.endLedger.value)
  {}

  /** What a window takes over from its request; it asks for a backfill unless told otherwise. */
  lemma ScheduledAs(id: string, request: Request, now: int)
    ensures
      var w := Scheduled(id, request, now);
      && w.id == id && w.createdAt == now
      && w.startLedger == request.startLedger && w.endLedger == request.endLedger
      && w.startTime == Some(if request.startTime.Some? then request.startTime.value else now)
      && w.backfillRequired == (if request.backfillRequired.Some? then request.backfillRequired.value else true)
  {}

  /**
   When a scheduled window is over: past its own end time, or past its time to live, an hour unless
   given.  With a time to live of zero and no end time it never is; with a negative one and no end
   time it is over from the start.
   */
  lemma WindowLifetime(id: string, request: Request, scheduledAt: int, now: int)
    ensures
      var ttl := OrElse(request.ttlSeconds, 3600);
      Expired(Scheduled(id, request, scheduledAt), now) <==>
      || (request.endTime.Some? && now > request.endTime.value)
      || ((ttl > 0 || (ttl < 0 && request.endTime.None?)) && now > scheduledAt + ttl * 1000)
  {}

  /** A window for ledgers 100 to 500 claims the gap 51 to 79 as well, from the moment it is scheduled. */
  lemma LedgerBoundsDoNotExclude(now: int)
    ensures var w := Scheduled("w", Request(Some(100), Some(500), None, None, Some(3600), Some(true)), now);
            Active([w], now) == [w] && Matches(w, LedgerRange(51, 79), now) && !WithinLedgers(w, LedgerRange(51, 79))
  {
    var w := Scheduled("w", Request(Some(100), Some(500), None, None, Some(3600), Some(true)), now);
    assert Active([w], now) == [w] + Active([], now);
  }

  lemma {:induction false} ActiveMembers(windows: seq<Window>, now: int)
    ensures forall w :: w in Active(windows, now) <==> w in windows && !Expired(w, now)
    ensures |Active(windows, now)| <= |windows|
  {
    if windows != [] {
      ActiveMembers(windows[1..], now);
      assert forall w :: w in windows <==> w == windows[0] || w in windows[1..];
    }
  }

  lemma {:induction false} ActiveAppend(windows: seq<Window>, w: Window, now: int)
    ensures Active(windows + [w], now) == Active(windows, now) + (if Expired(w, now) then [] else [w])
  {
    if windows == [] {
      assert windows + [w] == [w];
    } else {
      assert (windows + [w])[1..] == windows[1..] + [w];
      ActiveAppend(windows[1..], w, now);
    }
  }

  ghost predicate UniqueIds(windows: seq<Window>) {
    forall i, j :: 0 <= i < j < |windows| ==> windows[i].id != windows[j].id
  }

  lemma {:induction false} ActiveUnique(windows: seq<Window>, now: int)
    requires UniqueIds(windows)
    ensures UniqueIds(Active(windows, now))
  {
    if windows != [] {
      ActiveUnique(windows[1..], now);
      ActiveMembers(windows[1..], now);
      var rest, all := Active(windows[1..], now), Active(windows, now);
      if !Expired(windows[0], now) {
        forall j | 0 <= j < |rest| ensures rest[j].id != windows[0].id {
          assert rest[j] in windows[1..];
        }
        assert all == [windows[0]] + rest;
      } else {
        assert all == rest;
      }
    }
  }

  /** The position of the first window that claims the gap, or the number of windows. */
  function FirstMatch(windows: seq<Window>, gap: LedgerRange, now: int): (i: nat)
    ensures i <= |windows|
    ensures i < |windows| ==> Matches(windows[i], gap, now)
    ensures forall j :: 0 <= j < i ==> !Matches(windows[j], gap, now)
  {
    if windows == [] then 0
    else if Matches(windows[0], gap, now) then 0
    else 1 + FirstMatch(windows[1..], gap, now)
  }

  // ----- Backfill queue -----

  datatype BackfillStatus = Pending | InProgress | Completed

  /** The id string `bf_<from>_<to>_<ms>` is kept as its three numbers. */
  datatype BackfillId = BackfillId(fromLedger: int, toLedger: int, createdAt: int)

  datatype Backfill = Backfill(id: BackfillId, windowId: string, range: LedgerRange, status: BackfillStatus)

  function QueuedFor(windowId: string, gap: LedgerRange, now: int): Backfill {
    Backfill(BackfillId(gap.start, gap.end, now), windowId, gap, Pending)
  }

  function PendingOf(queue: seq<Backfill>): seq<Backfill> {
    if queue == [] then []
    else (if queue[0].status == Pending then [queue[0]] else []) + PendingOf(queue[1..])
  }

  /** The pending list keeps the order of the queue. */
  lemma {:induction false} PendingAppend(queue: seq<Backfill>, b: Backfill)
    ensures PendingOf(queue + [b]) == PendingOf(queue) + (if b.status == Pending then [b] else [])
  {
    if queue == [] {
      assert queue + [b] == [b] && [b][1..] == [];
    } else {
      assert (queue + [b])[0] == queue[0] && (queue + [b])[1..] == queue[1..] + [b];
      PendingAppend(queue[1..], b);
    }
  }

  ghost predicate IsPending(queue: seq<Backfill>, id: BackfillId) {
    exists b :: b in PendingOf(queue) && b.id == id
  }

  lemma {:induction false} PendingMembers(queue: seq<Backfill>, b: Backfill)
    ensures b in PendingOf(queue) <==> b in queue && b.status == Pending
  {
    if queue != [] {
      PendingMembers(queue[1..], b);
      assert b in queue <==> b == queue[0] || b in queue[1..];
    }
  }

  /** The first entry with that id. */
  function FirstWithId(queue: seq<Backfill>, id: BackfillId): (i: nat)
    ensures i <= |queue|
    ensures i < |queue| ==> queue[i].id == id
    ensures forall j :: 0 <= j < i ==> queue[j].id != id
  {
    if queue == [] || queue[0].id == id then 0 else 1 + FirstWithId(queue[1..], id)
  }

  /** `find` returns the stored object, so its status is changed in the queue. */
  function Complete(queue: seq<Backfill>, id: BackfillId): seq<Backfill> {
    var i := FirstWithId(queue, id);
    if i < |queue| then queue[i := queue[i].(status := Completed)] else queue
  }

  /**
   A backfill is off the pending list after completion exactly when no later entry with the same
   id is pending: the same gap queued twice within a millisecond shares an id, and completing
   always marks the first of the two.
   */
  lemma CompletedIsNotPendingIff(queue: seq<Backfill>, id: BackfillId)
    ensures !IsPending(Complete(queue, id), id) <==>
            (forall j :: FirstWithId(queue, id) < j < |queue| && queue[j].id == id ==> queue[j].status != Pending)
  {
    var done, first := Complete(queue, id), FirstWithId(queue, id);
    if IsPending(done, id) {
      var b :| b in PendingOf(done) && b.id == id;
      PendingMembers(done, b);
      var j :| 0 <= j < |done| && done[j] == b;
      assert first < j && queue[j] == b;
    }
    forall j | first < j < |queue| && queue[j].id == id && queue[j].status == Pending ensures IsPending(done, id) {
      assert done[j] == queue[j];
      PendingMembers(done, queue[j]);
    }
  }

  // ----- The module's state -----

  datatype Anomaly =
    | NoAnomaly
    | ReorgSeen(fromLedger: int, toLedger: int)
    | Gap(range: LedgerRange, missingCount: int)
    | MaintenanceGap(range: LedgerRange, missingCount: int, windowId: string, backfillPending: bool)

  class MaintenanceStore {
    var windows: seq<Window>      // in insertion order, as a JavaScript Map iterates
    var queue: seq<Backfill>

    ghost predicate Valid()
      reads this
    {
      && UniqueIds(windows)
      && forall w :: w in windows ==> w.startTime.Some?
    }

    constructor ()
      ensures Valid() && windows == [] && queue == []
    {
      windows, queue := [], [];
    }

    /** A known id keeps its place, a new one goes to the end; no other window is touched. */
    method Schedule(id: string, request: Request, now: int) returns (w: Window)
      requires Valid()
      modifies this`windows
      ensures Valid() && w == Scheduled(id, request, now)
      ensures |windows| == |old(windows)| + if exists o :: o in old(windows) && o.id == id then 0 else 1
      ensures w in windows
      ensures forall i :: 0 <= i < |old(windows)| ==>
                windows[i] == (if old(windows)[i].id == id then w else old(windows)[i])
    {
      w := Scheduled(id, request, now);
      ghost var before := windows;
      var i := 0;
      while i < |windows| && windows[i].id != id
        invariant 0 <= i <= |windows| && windows == before
        invariant forall j :: 0 <= j < i ==> windows[j].id != id
      {
        i := i + 1;
      }
      if i < |windows| {
        windows := windows[i := w];
        assert before[i] in before && windows[i] == w;
      } else {
        windows := windows + [w];
        assert windows[i] == w;
      }
    }

    /** The unexpired windows in insertion order; the expired ones are dropped from the store. */
    method GetActive(now: int) returns (active: seq<Window>)
      requires Valid()
      modifies this`windows
      ensures Valid()
      ensures active == windows == Active(old(windows), now)
    {
      active := [];
      var i := 0;
      while i < |windows|
        invariant 0 <= i <= |windows| && windows == old(windows)
        invariant active == Active(windows[..i], now)
      {
        ActiveAppend(windows[..i], windows[i], now);
        assert windows[..i + 1] == windows[..i] + [windows[i]];
        if !Expired(windows[i], now) {
          active := active + [windows[i]];
        }
        i := i + 1;
      }
      assert windows[..i] == windows;
      ActiveUnique(windows, now);
      ActiveMembers(windows, now);
      windows := active;
    }

    method FindMatching(gap: LedgerRange, now: int) returns (found: Option<Window>)
      requires Valid()
      modifies this`windows
      ensures Valid() && windows == Active(old(windows), now)
      ensures found == var i := FirstMatch(windows, gap, now); if i < |windows| then Some(windows[i]) else None
    {
      var active := GetActive(now);
      var i := 0;
      while i < |active|
        invariant 0 <= i <= |active| && active == windows
        invariant forall j :: 0 <= j < i ==> !Matches(active[j], gap, now)
      {
        if Matches(active[i], gap, now) {
          return Some(active[i]);
        }
        i := i + 1;
      }
      found := None;
    }

    /**
     The verdict on an event ledger.  A gap is an alert exactly when no active window claims it;
     otherwise the whole gap, and nothing else, is queued if that window asks for a backfill.
     */
    method DetectAnomaly(eventLedger: int, last: Option<int>, now: int) returns (anomaly: Anomaly)
      requires Valid()
      modifies this
      ensures Valid()
      ensures anomaly.NoAnomaly? <==> last.None? || last.value <= eventLedger <= last.value + 2
      ensures anomaly.ReorgSeen? <==> last.Some? && eventLedger < last.value
      ensures anomaly.ReorgSeen? ==> anomaly == ReorgSeen(last.value, eventLedger)
      ensures Classify(eventLedger, last).Missing? ==>
                var gap := Classify(eventLedger, last).gap;
                var active := Active(old(windows), now);
                var i := FirstMatch(active, gap, now);
                && gap == LedgerRange(last.value + 1, eventLedger - 1)
                && windows == active
                && anomaly ==
                   (if i == |active| then Gap(gap, |Interval(gap.start, gap.end)|)
                    else MaintenanceGap(gap, |Interval(gap.start, gap.end)|, active[i].id, active[i].backfillRequired))
                && queue == old(queue) +
                            if i < |active| && active[i].backfillRequired then
                              [Backfill(BackfillId(last.value + 1, eventLedger - 1, now), active[i].id, gap, Pending)]
                            else []
      ensures !Classify(eventLedger, last).Missing? ==> windows == old(windows) && queue == old(queue)
    {
      if last.None? {
        return NoAnomaly;
      }
      if eventLedger < last.value {
        return ReorgSeen(last.value, eventLedger);
      }
      var missingCount := eventLedger - last.value - 1;
      if missingCount > GAP_WARNING_THRESHOLD {
        var gap := LedgerRange(last.value + 1, eventLedger - 1);
        IntervalLength(gap.start, gap.end);
        var found := FindMatching(gap, now);
        if found.Some? {
          if found.value.backfillRequired {
            queue := queue + [QueuedFor(found.value.id, gap, now)];
          }
          return MaintenanceGap(gap, missingCount, found.value.id, found.value.backfillRequired);
        }
        return Gap(gap, missingCount);
      }
      anomaly := NoAnomaly;
    }

    method GetPendingBackfills() returns (pending: seq<Backfill>)
      ensures pending == PendingOf(queue)
    {
      pending := PendingOf(queue);
    }

    method CompleteBackfill(id: BackfillId)
      requires Valid()
      modifies this`queue
      ensures Valid() && queue == Complete(old(queue), id)
      ensures |queue| == |old(queue)|
      ensures forall i :: 0 <= i < |queue| ==>
                queue[i] == (if old(queue)[i].id == id && (forall j :: 0 <= j < i ==> old(queue)[j].id != id)
                             then old(queue)[i].(status := Completed)
                             else old(queue)[i])
    {
      var i := FirstWithId(queue, id);
      if i < |queue| {
        queue := queue[i := queue[i].(status := Completed)];
      }
    }
  }
}
