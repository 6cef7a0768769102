/**
 The webhook delivery queue (backend/src/cron/webhookDelivery.cron.ts and the requeue route of
 backend/src/routes/admin.routes.ts) as a protocol between workers that share one table.

 A worker claims due rows under a one-minute lease, delivers, and records the result with an
 UPDATE that looks at the row id alone.  Cron ticks overlap and workers crash.  What keeps two
 workers off one row is a timing assumption, stated here as `Timely`: a live worker records its
 result no later than one minute after its claim.
 */
module WebhookDelivery {
  import opened Common

  const RETRY_DELAYS_MS: seq<nat> := [60_000, 300_000, 900_000, 3_600_000, 21_600_000]
  const DELIVERY_BATCH_SIZE := 25
  const LEASE_MS := 60_000

  datatype Status = Pending | Retrying | Success | Failed

  /** One row of webhook_deliveries; times are in milliseconds. */
  datatype Row = Row(status: Status, attemptCount: nat, retryCount: nat, nextAttemptAt: int, lockedAt: Option<int>)

  /** What a live worker holds: the row it claimed, the retry count it read then, and when. */
  datatype Lease = Lease(delivery: nat, retryCount: nat, claimedAt: int)

  datatype Queue = Queue(now: int, rows: map<nat, Row>, live: map<nat, Lease>, nextToken: nat)

  datatype Step =
    | Enqueue(id: nat)
    | Tick(ms: nat)
    | Claim(skipped: set<nat>, ids: seq<nat>)   // `skipped`: rows locked by other open transactions
    | Record(token: nat, id: nat, ok: bool)     // deliver() reaches its UPDATE
    | Crash(token: nat)                         // the worker dies, or its UPDATE fails
    | AdminRetry(id: nat)

  const EMPTY: Queue := Queue(0, map[], map[], 0)

  // ----- What the steps do -----

  predicate Due(q: Queue, id: nat) {
    && id in q.rows
    && q.rows[id].status in {Pending, Retrying}
    && q.rows[id].nextAttemptAt <= q.now
    && (q.rows[id].lockedAt.None? || q.rows[id].lockedAt.value < q.now - LEASE_MS)
  }

  /** ORDER BY next_attempt_at, id. */
  predicate Before(q: Queue, a: nat, b: nat)
    requires a in q.rows && b in q.rows
  {
    q.rows[a].nextAttemptAt < q.rows[b].nextAttemptAt
    || (q.rows[a].nextAttemptAt == q.rows[b].nextAttemptAt && a < b)
  }

  /** The answer of the claiming SELECT: the first due rows that no other transaction has locked. */
  ghost predicate IsClaimBatch(q: Queue, skipped: set<nat>, ids: seq<nat>) {
    && |ids| <= DELIVERY_BATCH_SIZE
    && (forall i :: 0 <= i < |ids| ==> Due(q, ids[i]) && ids[i] !in skipped)
    && (forall i, j :: 0 <= i < j < |ids| ==> Before(q, ids[i], ids[j]))
    && (forall id :: id in q.rows && Due(q, id) && id !in skipped && id !in ids ==>
          |ids| == DELIVERY_BATCH_SIZE && Before(q, ids[|ids| - 1], id))
  }

  lemma {:induction false} SameClaimPrefix(q: Queue, skipped: set<nat>, a: seq<nat>, b: seq<nat>, k: nat)
    requires IsClaimBatch(q, skipped, a) && IsClaimBatch(q, skipped, b) && k <= |a|
    ensures k <= |b| && a[..k] == b[..k]
  {
    if k > 0 {
      SameClaimPrefix(q, skipped, a, b, k - 1);
      ClaimNotBefore(q, skipped, a, b, k - 1);
      ClaimNotBefore(q, skipped, b, a, k - 1);
    }
  }

  /** Up to a common prefix, no batch passes over a row that the other one takes. */
  lemma ClaimNotBefore(q: Queue, skipped: set<nat>, a: seq<nat>, b: seq<nat>, k: nat)
    requires IsClaimBatch(q, skipped, a) && IsClaimBatch(q, skipped, b)
    requires k < |a| && k <= |b| && a[..k] == b[..k]
    ensures k < |b| && a[k] in q.rows && b[k] in q.rows && !Before(q, a[k], b[k])
  {
    assert forall i :: 0 <= i < k ==> a[i] == b[i];
    assert Due(q, a[k]);
    forall i | 0 <= i < |b| && (i < k || Before(q, a[k], b[k])) ensures b[i] != a[k] {
      assert Due(q, b[i]);
      assert i > k ==> Before(q, b[k], b[i]);
      assert i < k ==> Before(q, a[i], a[k]);
    }
    if k < |b| {
      assert Due(q, b[k]) && Due(q, b[|b| - 1]);
      assert k < |b| - 1 ==> Before(q, b[k], b[|b| - 1]);
    }
  }

  /** Which rows a claim takes, and in which order, is settled by the rows that others have locked. */
  lemma ClaimIsDetermined(q: Queue, skipped: set<nat>, a: seq<nat>, b: seq<nat>)
    requires IsClaimBatch(q, skipped, a) && IsClaimBatch(q, skipped, b)
    ensures a == b
  {
    SameClaimPrefix(q, skipped, a, b, |a|);
    SameClaimPrefix(q, skipped, b, a, |b|);
  }

  /** The row was due before the other one, or at the same time and has the smaller id. */
  ghost predicate DueEarlier(rows: map<nat, Row>, a: nat, b: nat) {
    && a in rows && b in rows
    && (rows[a].nextAttemptAt < rows[b].nextAttemptAt || (rows[a].nextAttemptAt == rows[b].nextAttemptAt && a < b))
  }

  /**
   What a claim takes: pending or retrying rows that are due and whose lock, if any, is more than a
   minute old, none of them locked by others and no more than 25, the ones due longest first; a row
   that qualifies is passed over only by 25 rows that were due earlier.
   */
  lemma {:induction false} ClaimTakesOldest(q: Queue, skipped: set<nat>, ids: seq<nat>)
    requires IsClaimBatch(q, skipped, ids)
    ensures |ids| <= 25
    ensures forall id :: id in ids ==>
              && id in q.rows && id !in skipped && q.rows[id].status in {Pending, Retrying}
              && q.rows[id].nextAttemptAt <= q.now
              && (q.rows[id].lockedAt.Some? ==> q.now - q.rows[id].lockedAt.value > 60_000)
    ensures forall i, j :: 0 <= i < j < |ids| ==> DueEarlier(q.rows, ids[i], ids[j])
    ensures forall id :: id in q.rows && id !in skipped && id !in ids && q.rows[id].status in {Pending, Retrying} &&
                         q.rows[id].nextAttemptAt <= q.now &&
                         (q.rows[id].lockedAt.Some? ==> q.now - q.rows[id].lockedAt.value > 60_000) ==>
              |ids| == 25 && forall i :: 0 <= i < 25 ==> DueEarlier(q.rows, ids[i], id)
  {
    forall i, j | 0 <= i < j < |ids| ensures DueEarlier(q.rows, ids[i], ids[j]) {
      assert Before(q, ids[i], ids[j]);
    }
    forall id | id in q.rows && Due(q, id) && id !in skipped && id !in ids
      ensures |ids| == 25 && forall i :: 0 <= i < 25 ==> DueEarlier(q.rows, ids[i], id)
    {
      assert Before(q, ids[24], id);
      forall i | 0 <= i < 25 ensures DueEarlier(q.rows, ids[i], id) {
        assert i < 24 ==> Before(q, ids[i], ids[24]);
      }
    }
  }

  lemma {:induction false} EarliestExists(q: Queue, ids: set<nat>) returns (first: nat)
    requires ids != {} && forall id :: id in ids ==> id in q.rows
    ensures first in ids && forall id :: id in ids && id != first ==> Before(q, first, id)
    decreases |ids|
  {
    first :| first in ids;
    var some, rest := first, ids - {first};
    assert forall id :: id in ids <==> id == some || id in rest;
    if rest != {} {
      var other := EarliestExists(q, rest);
      if Before(q, other, first) {
        first := other;
      }
    }
  }

  /** The first `n` of some rows in the order of the query. */
  ghost predicate Firsts(q: Queue, ids: set<nat>, n: nat, taken: seq<nat>)
    requires forall id :: id in ids ==> id in q.rows
  {
    && |taken| <= n
    && (forall i :: 0 <= i < |taken| ==> taken[i] in ids)
    && (forall i, j :: 0 <= i < j < |taken| ==> Before(q, taken[i], taken[j]))
    && (forall id :: id in ids && id !in taken ==> |taken| == n && forall i :: 0 <= i < n ==> Before(q, taken[i], id))
  }

  lemma {:induction false} FirstsExist(q: Queue, ids: set<nat>, n: nat) returns (taken: seq<nat>)
    requires forall id :: id in ids ==> id in q.rows
    ensures Firsts(q, ids, n, taken)
  {
    taken := [];
    if n > 0 && ids != {} {
      var first := EarliestExists(q, ids);
      var rest := FirstsExist(q, ids - {first}, n - 1);
      taken := [first] + rest;
      assert forall i :: 1 <= i < |taken| ==> taken[i] == rest[i - 1];
      forall i | 0 <= i < |taken| ensures taken[i] in ids {
        assert i > 0 ==> rest[i - 1] in ids - {first};
      }
      forall i, j | 0 <= i < j < |taken| ensures Before(q, taken[i], taken[j]) {
        assert rest[j - 1] in ids - {first};
      }
      forall id | id in ids && id !in taken
        ensures |taken| == n && forall i :: 0 <= i < n ==> Before(q, taken[i], id)
      {
        assert id != first && id !in rest by {
          assert taken[0] == first;
          assert id in rest ==> id in taken;
        }
        assert id in ids - {first};
      }
    }
  }

  /** Whatever the others have locked, there is a batch that the SELECT can answer with. */
  lemma {:induction false} ClaimExists(q: Queue, skipped: set<nat>)
    ensures exists ids :: IsClaimBatch(q, skipped, ids)
  {
    var due := set id | id in q.rows && Due(q, id) && id !in skipped;
    var ids := FirstsExist(q, due, DELIVERY_BATCH_SIZE);
    assert IsClaimBatch(q, skipped, ids);
  }

  function Claimed(row: Row, now: int): Row {
    row.(status := Retrying, lockedAt := Some(now))
  }

  function Delivered(row: Row): Row {
    row.(status := Success, attemptCount := row.attemptCount + 1, lockedAt := None)
  }

  /** A failed attempt; `retriesUsed` is the count the worker read when it claimed the row. */
  function Undelivered(row: Row, retriesUsed: nat, now: int): Row {
    if retriesUsed < |RETRY_DELAYS_MS| then
      Row(Retrying, row.attemptCount + 1, row.retryCount + 1, now + RETRY_DELAYS_MS[retriesUsed], None)
    else
      row.(status := Failed, attemptCount := row.attemptCount + 1, lockedAt := None)
  }

  predicate IsNewToken(token: nat, nextToken: nat, claims: nat) {
    nextToken <= token < nextToken + claims
  }

  /** The claiming UPDATE. */
  function LockRows(rows: map<nat, Row>, ids: seq<nat>, now: int): map<nat, Row> {
    map id | id in rows :: if id in ids then Claimed(rows[id], now) else rows[id]
  }

  /** The deliveries that start with the rows it returned. */
  function StartWorkers(live: map<nat, Lease>, rows: map<nat, Row>, ids: seq<nat>, now: int, nextToken: nat)
    : map<nat, Lease>
    requires forall id :: id in ids ==> id in rows
  {
    var tokens := set t: nat | nextToken <= t < nextToken + |ids| && IsNewToken(t, nextToken, |ids|);
    map t | t in live.Keys + tokens ::
      if t in tokens then Lease(ids[t - nextToken], rows[ids[t - nextToken]].retryCount, now) else live[t]
  }

  function ClaimRows(q: Queue, ids: seq<nat>): Queue
    requires forall id :: id in ids ==> id in q.rows
  {
    Queue(q.now,
          LockRows(q.rows, ids, q.now),
          StartWorkers(q.live, q.rows, ids, q.now, q.nextToken),
          q.nextToken + |ids|)
  }

  ghost predicate Enabled(q: Queue, step: Step) {
    match step
    case Enqueue(id) => id !in q.rows
    case Tick(_) => true
    case Claim(skipped, ids) => IsClaimBatch(q, skipped, ids)
    case Record(token, id, _) => token in q.live && q.live[token].delivery == id && id in q.rows
    case Crash(token) => token in q.live
    case AdminRetry(id) => id in q.rows && q.rows[id].status == Failed
  }

  function Apply(q: Queue, step: Step): Queue
    requires Enabled(q, step)
  {
    match step
    case Enqueue(id) => q.(rows := q.rows[id := Row(Pending, 0, 0, q.now, None)])
    case Tick(ms) => q.(now := q.now + ms)
    case Claim(_, ids) =>
      assert forall i :: 0 <= i < |ids| ==> Due(q, ids[i]);
      ClaimRows(q, ids)
    case Record(token, id, ok) =>
      var row := q.rows[id];
      q.(rows := q.rows[id := if ok then Delivered(row) else Undelivered(row, q.live[token].retryCount, q.now)],
         live := q.live - {token})
    case Crash(token) => q.(live := q.live - {token})
    case AdminRetry(id) =>
      var row := q.rows[id];
      q.(rows := q.rows[id := Row(Pending, row.attemptCount, 0, q.now, None)])
  }

  /** A claim locks exactly the rows it took and makes them retrying; otherwise all rows are as they were. */
  lemma {:induction false} ClaimLocks(q: Queue, skipped: set<nat>, ids: seq<nat>)
    requires IsClaimBatch(q, skipped, ids)
    ensures
      var q' := Apply(q, Claim(skipped, ids));
      && q'.now == q.now && q'.rows.Keys == q.rows.Keys
      && forall id :: id in q.rows ==>
           var row := q.rows[id];
           q'.rows[id] ==
           if id in ids then Row(Retrying, row.attemptCount, row.retryCount, row.nextAttemptAt, Some(q.now)) else row
  {
    hide IsClaimBatch, StartWorkers, Due;
    ClaimedWereDue(q, skipped, ids);
  }

  /** Each row taken is in the hands of one new worker that knows its retry count; the other workers go on. */
  lemma {:induction false} ClaimStarts(q: Queue, skipped: set<nat>, ids: seq<nat>)
    requires IsClaimBatch(q, skipped, ids)
    ensures forall id :: id in ids ==> id in q.rows
    ensures
      var live, next := Apply(q, Claim(skipped, ids)).live, q.nextToken;
      && Apply(q, Claim(skipped, ids)).nextToken == next + |ids|
      && (forall t: nat :: next <= t < next + |ids| ==>
            t in live && live[t] == Lease(ids[t - next], q.rows[ids[t - next]].retryCount, q.now))
      && (forall t: nat :: !(next <= t < next + |ids|) ==>
            (t in live <==> t in q.live) && (t in live ==> live[t] == q.live[t]))
  {
    ClaimedWereDue(q, skipped, ids);
    assert forall id :: id in ids ==> Due(q, id);
    assert Apply(q, Claim(skipped, ids)) == ClaimRows(q, ids);
    hide IsClaimBatch, LockRows, Due, Apply;
    WorkersStarted(q.live, q.rows, ids, q.now, q.nextToken);
  }

  lemma {:induction false} WorkersStarted(live: map<nat, Lease>, rows: map<nat, Row>, ids: seq<nat>, now: int,
                                          next: nat)
    requires forall id :: id in ids ==> id in rows
    ensures
      var more := StartWorkers(live, rows, ids, now, next);
      && (forall t: nat :: next <= t < next + |ids| ==>
            t in more && more[t] == Lease(ids[t - next], rows[ids[t - next]].retryCount, now))
      && (forall t: nat :: !(next <= t < next + |ids|) ==>
            (t in more <==> t in live) && (t in more ==> more[t] == live[t]))
  {
    forall t: nat ensures next <= t < next + |ids| <==> IsNewToken(t, next, |ids|) {}
  }

  /** How a result, a new delivery and a requeue leave their row; nothing else changes but the recorder's lease. */
  lemma {:induction false} RowsWritten(q: Queue, token: nat, id: nat)
    ensures Enabled(q, Record(token, id, true)) ==>
              var row := q.rows[id];
              Apply(q, Record(token, id, true)) ==
              q.(rows := q.rows[id := Row(Success, row.attemptCount + 1, row.retryCount, row.nextAttemptAt, None)],
                 live := q.live - {token})
    ensures Enabled(q, Record(token, id, false)) && q.live[token].retryCount >= 5 ==>
              var row := q.rows[id];
              Apply(q, Record(token, id, false)) ==
              q.(rows := q.rows[id := Row(Failed, row.attemptCount + 1, row.retryCount, row.nextAttemptAt, None)],
                 live := q.live - {token})
    ensures Enabled(q, Record(token, id, false)) && q.live[token].retryCount < 5 ==>
              var q', row := Apply(q, Record(token, id, false)), q.rows[id];
              && q' == q.(rows := q.rows[id := q'.rows[id]], live := q.live - {token})
              && q'.rows[id] == Row(Retrying, row.attemptCount + 1, row.retryCount + 1, q'.rows[id].nextAttemptAt, None)
    ensures id !in q.rows ==> Apply(q, Enqueue(id)) == q.(rows := q.rows[id := Row(Pending, 0, 0, q.now, None)])
    ensures id in q.rows && q.rows[id].status == Failed ==>
              Apply(q, AdminRetry(id)) ==
              q.(rows := q.rows[id := Row(Pending, q.rows[id].attemptCount, 0, q.now, None)])
  {}

  /** The timing assumption: time does not pass a live worker's lease. */
  predicate Timely(q: Queue, step: Step) {
    step.Tick? ==> forall t :: t in q.live ==> q.now + step.ms - q.live[t].claimedAt <= LEASE_MS
  }

  /** Runs whose every step is enabled and, when `timely`, meets the timing assumption. */
  ghost predicate Legal(q: Queue, steps: seq<Step>, timely: bool)
    decreases |steps|
  {
    steps == [] ||
    (&& Enabled(q, steps[0])
     && (timely ==> Timely(q, steps[0]))
     && Legal(Apply(q, steps[0]), steps[1..], timely))
  }

  ghost function Run(q: Queue, steps: seq<Step>, timely: bool): Queue
    requires Legal(q, steps, timely)
    decreases |steps|
  {
    if steps == [] then q else Run(Apply(q, steps[0]), steps[1..], timely)
  }

  // ----- The invariant -----

  predicate RowOk(row: Row) {
    && row.retryCount <= |RETRY_DELAYS_MS|
    && (row.status == Failed ==> row.retryCount == |RETRY_DELAYS_MS|)
    && (row.status == Pending ==> row.retryCount == 0)
    && (row.lockedAt.Some? ==> row.status == Retrying && row.nextAttemptAt <= row.lockedAt.value)
  }

  /** The lease and the row it is on agree. */
  predicate LeaseOk(q: Queue, lease: Lease) {
    && lease.delivery in q.rows
    && q.rows[lease.delivery].status == Retrying
    && q.rows[lease.delivery].lockedAt == Some(lease.claimedAt)
    && q.rows[lease.delivery].retryCount == lease.retryCount
    && lease.claimedAt <= q.now
  }

  ghost predicate Exclusive(q: Queue) {
    forall t, u :: t in q.live && u in q.live && t != u ==> q.live[t].delivery != q.live[u].delivery
  }

  ghost predicate Base(q: Queue) {
    && (forall id :: id in q.rows ==> RowOk(q.rows[id]))
    && (forall t :: t in q.live ==> LeaseOk(q, q.live[t]) && t < q.nextToken)
    && Exclusive(q)
  }

  ghost predicate Inv(q: Queue) {
    && Base(q)
    && forall t :: t in q.live ==> q.now - q.live[t].claimedAt <= LEASE_MS
  }

  /** Some live worker holds the row. */
  ghost predicate Held(q: Queue, id: nat) {
    exists t :: t in q.live && q.live[t].delivery == id
  }

  /**
   The lease is exactly what protects a held row: another worker can claim it if and only if the
   holder is alive more than one minute after its claim.
   */
  lemma HeldRowIsDueIffLeaseExpired(q: Queue, token: nat)
    requires Base(q) && token in q.live
    ensures Due(q, q.live[token].delivery) <==> q.now - q.live[token].claimedAt > 60_000
  {
    var lease := q.live[token];
    assert LeaseOk(q, lease) && RowOk(q.rows[lease.delivery]);
  }

  lemma ClaimKeepsInv(q: Queue, skipped: set<nat>, ids: seq<nat>)
    requires Inv(q) && IsClaimBatch(q, skipped, ids)
    ensures Inv(Apply(q, Claim(skipped, ids)))
  {
    var q' := Apply(q, Claim(skipped, ids));
    forall id | id in ids ensures id in q.rows && !Held(q, id) {
      var i :| 0 <= i < |ids| && ids[i] == id;
      assert Due(q, ids[i]);
      if Held(q, id) {
        var t :| t in q.live && q.live[t].delivery == id;
        HeldRowIsDueIffLeaseExpired(q, t);
      }
    }
    forall id | id in q'.rows ensures RowOk(q'.rows[id]) {
      assert RowOk(q.rows[id]);
      if id in ids {
        assert Due(q, id);
      }
    }
    forall t | t in q'.live
      ensures LeaseOk(q', q'.live[t]) && t < q'.nextToken && q'.now - q'.live[t].claimedAt <= LEASE_MS
    {
      if t < q.nextToken {
        assert LeaseOk(q, q.live[t]) && Held(q, q.live[t].delivery);
      }
    }
    forall t, u | t in q'.live && u in q'.live && t != u ensures q'.live[t].delivery != q'.live[u].delivery {
      ClaimDistinct(q, ids, t, u);
    }
  }

  lemma ClaimDistinct(q: Queue, ids: seq<nat>, t: nat, u: nat)
    requires Base(q) && (forall id :: id in ids ==> id in q.rows && !Held(q, id))
    requires forall i, j :: 0 <= i < j < |ids| ==> Before(q, ids[i], ids[j])
    requires t in ClaimRows(q, ids).live && u in ClaimRows(q, ids).live && t != u
    ensures ClaimRows(q, ids).live[t].delivery != ClaimRows(q, ids).live[u].delivery
  {
    if t in q.live && u in q.live {
    } else if t in q.live {
      assert Held(q, q.live[t].delivery);
      assert ids[u - q.nextToken] in ids;
    } else if u in q.live {
      assert Held(q, q.live[u].delivery);
      assert ids[t - q.nextToken] in ids;
    } else if t < u {
      assert Before(q, ids[t - q.nextToken], ids[u - q.nextToken]);
    } else {
      assert Before(q, ids[u - q.nextToken], ids[t - q.nextToken]);
    }
  }

  lemma RecordKeepsInv(q: Queue, token: nat, id: nat, ok: bool)
    requires Inv(q) && Enabled(q, Record(token, id, ok))
    ensures Inv(Apply(q, Record(token, id, ok)))
    ensures !Held(Apply(q, Record(token, id, ok)), id)
  {
    var q' := Apply(q, Record(token, id, ok));
    assert LeaseOk(q, q.live[token]) && RowOk(q.rows[id]);
    forall t | t in q'.live ensures q'.live[t].delivery != id && LeaseOk(q', q'.live[t]) {
      assert LeaseOk(q, q.live[t]);
    }
  }

  lemma StepKeepsInv(q: Queue, step: Step)
    requires Inv(q) && Enabled(q, step) && Timely(q, step)
    ensures Inv(Apply(q, step))
  {
    match step
    case Claim(skipped, ids) => ClaimKeepsInv(q, skipped, ids);
    case Record(token, id, ok) => RecordKeepsInv(q, token, id, ok);
    case _ =>
      var q' := Apply(q, step);
      forall t | t in q'.live ensures LeaseOk(q', q'.live[t]) {
        assert LeaseOk(q, q.live[t]);
      }
      forall id | id in q'.rows ensures RowOk(q'.rows[id]) {
        if id in q.rows {
          assert RowOk(q.rows[id]);
        }
      }
  }

  /** On every timely run, whatever overlaps and crashes, no two live workers hold the same row. */
  lemma {:induction false} RunKeepsInv(q: Queue, steps: seq<Step>)
    requires Inv(q) && Legal(q, steps, true)
    ensures Inv(Run(q, steps, true))
    decreases |steps|
  {
    if steps != [] {
      StepKeepsInv(q, steps[0]);
      RunKeepsInv(Apply(q, steps[0]), steps[1..]);
    }
  }

  // ----- Success is final; untouched rows stay as they are -----

  /** The step neither claims nor requeues the row. */
  predicate Leaves(step: Step, id: nat) {
    match step
    case Claim(_, ids) => id !in ids
    case AdminRetry(other) => other != id
    case _ => true
  }

  lemma StepFrame(q: Queue, step: Step, id: nat)
    requires Inv(q) && Enabled(q, step) && id in q.rows
    requires (!Held(q, id) && Leaves(step, id)) || q.rows[id].status == Success
    ensures id in Apply(q, step).rows && Apply(q, step).rows[id] == q.rows[id]
    ensures !Held(q, id) && Leaves(step, id) ==> !Held(Apply(q, step), id)
  {
    if step.Record? {
      assert Held(q, step.id);
      assert LeaseOk(q, q.live[step.token]);
    }
    if step.Claim? {
      ClaimedWereDue(q, step.skipped, step.ids);
      ClaimFrame(q, step.ids, id);
    }
    if !Held(q, id) && !step.Claim? {
      forall t | t in Apply(q, step).live ensures Apply(q, step).live[t].delivery != id {
        assert t in q.live && q.live[t] == Apply(q, step).live[t];
      }
    }
  }

  lemma ClaimedWereDue(q: Queue, skipped: set<nat>, ids: seq<nat>)
    requires IsClaimBatch(q, skipped, ids)
    ensures forall id :: id in ids ==> Due(q, id)
  {}

  lemma ClaimNothing(q: Queue)
    ensures ClaimRows(q, []) == q
  {
    assert LockRows(q.rows, [], q.now) == q.rows;
    assert StartWorkers(q.live, q.rows, [], q.now, q.nextToken) == q.live;
  }

  lemma ClaimFrame(q: Queue, ids: seq<nat>, id: nat)
    requires forall i :: i in ids ==> i in q.rows
    ensures !Held(q, id) && id !in ids ==> !Held(ClaimRows(q, ids), id)
  {
    var q' := ClaimRows(q, ids);
    if !Held(q, id) && id !in ids {
      forall t | t in q'.live ensures q'.live[t].delivery != id {
        if !(q.nextToken <= t < q.nextToken + |ids|) {
          assert t in q.live;
        }
      }
    }
  }

  /** A delivered row is never changed again. */
  lemma {:induction false} SuccessIsFinal(q: Queue, steps: seq<Step>, id: nat)
    requires Inv(q) && Legal(q, steps, true) && id in q.rows && q.rows[id].status == Success
    ensures id in Run(q, steps, true).rows && Run(q, steps, true).rows[id] == q.rows[id]
    decreases |steps|
  {
    if steps != [] {
      StepFrame(q, steps[0], id);
      StepKeepsInv(q, steps[0]);
      SuccessIsFinal(Apply(q, steps[0]), steps[1..], id);
    }
  }

  /** A row nobody holds changes only when it is claimed or requeued. */
  lemma {:induction false} UnheldRowIsUntouched(q: Queue, steps: seq<Step>, id: nat)
    requires Inv(q) && Legal(q, steps, true) && id in q.rows && !Held(q, id)
    requires forall i :: 0 <= i < |steps| ==> Leaves(steps[i], id)
    ensures id in Run(q, steps, true).rows && Run(q, steps, true).rows[id] == q.rows[id]
    ensures !Held(Run(q, steps, true), id)
    decreases |steps|
  {
    if steps != [] {
      StepFrame(q, steps[0], id);
      StepKeepsInv(q, steps[0]);
      UnheldRowIsUntouched(Apply(q, steps[0]), steps[1..], id);
    }
  }

  /**
   A worker crashes; until the next claim of its row nothing about the row changes, and as soon as
   the lease has run out the row is claimable again with the retry count it had.
   */
  lemma CrashedRowIsClaimableAgain(q: Queue, token: nat, steps: seq<Step>)
    requires Inv(q) && token in q.live
    requires Legal(Apply(q, Crash(token)), steps, true)
    requires forall i :: 0 <= i < |steps| ==> Leaves(steps[i], q.live[token].delivery)
    ensures
      var lease := q.live[token];
      var end := Run(Apply(q, Crash(token)), steps, true);
      && lease.delivery in end.rows
      && end.rows[lease.delivery] == q.rows[lease.delivery]
      && end.rows[lease.delivery].retryCount == lease.retryCount
      && (Due(end, lease.delivery) <==> end.now > lease.claimedAt + 60_000)
  {
    var id := q.live[token].delivery;
    var crashed := Apply(q, Crash(token));
    assert LeaseOk(q, q.live[token]) && RowOk(q.rows[id]);
    StepKeepsInv(q, Crash(token));
    forall t | t in crashed.live ensures crashed.live[t].delivery != id {
      assert t in q.live && t != token;
    }
    UnheldRowIsUntouched(crashed, steps, id);
  }

  /** After a failed attempt, and until the next claim, the row is due exactly from its scheduled delay on. */
  lemma RetryIsDueOnSchedule(q: Queue, token: nat, id: nat, steps: seq<Step>)
    requires Inv(q) && Enabled(q, Record(token, id, false)) && q.rows[id].retryCount < |RETRY_DELAYS_MS|
    requires Legal(Apply(q, Record(token, id, false)), steps, true)
    requires forall i :: 0 <= i < |steps| ==> Leaves(steps[i], id)
    ensures
      var end := Run(Apply(q, Record(token, id, false)), steps, true);
      Due(end, id) <==> end.now >= q.now + RETRY_DELAYS_MS[q.rows[id].retryCount]
  {
    assert LeaseOk(q, q.live[token]);
    RecordKeepsInv(q, token, id, false);
    UnheldRowIsUntouched(Apply(q, Record(token, id, false)), steps, id);
  }

  /** The delays one by one: a minute, five, a quarter of an hour, an hour and six hours. */
  lemma {:induction false} RetrySchedule(q: Queue, token: nat, id: nat, steps: seq<Step>)
    requires Inv(q) && Enabled(q, Record(token, id, false)) && q.rows[id].retryCount < 5
    requires Legal(Apply(q, Record(token, id, false)), steps, true)
    requires forall i :: 0 <= i < |steps| ==> Leaves(steps[i], id)
    ensures
      var end := Run(Apply(q, Record(token, id, false)), steps, true);
      var waited := end.now - q.now;
      && id in end.rows && end.rows[id].status == Retrying && end.rows[id].retryCount == q.rows[id].retryCount + 1
      && (q.rows[id].retryCount == 0 ==> (Due(end, id) <==> waited >= 60_000))
      && (q.rows[id].retryCount == 1 ==> (Due(end, id) <==> waited >= 300_000))
      && (q.rows[id].retryCount == 2 ==> (Due(end, id) <==> waited >= 900_000))
      && (q.rows[id].retryCount == 3 ==> (Due(end, id) <==> waited >= 3_600_000))
      && (q.rows[id].retryCount == 4 ==> (Due(end, id) <==> waited >= 21_600_000))
  {
    assert LeaseOk(q, q.live[token]);
    RetryIsDueOnSchedule(q, token, id, steps);
    RecordKeepsInv(q, token, id, false);
    UnheldRowIsUntouched(Apply(q, Record(token, id, false)), steps, id);
  }

  /** Hence no retry is claimed before its scheduled delay. */
  lemma RetryIsNotEarly(q: Queue, token: nat, id: nat, steps: seq<Step>, skipped: set<nat>, ids: seq<nat>)
    requires Inv(q) && Enabled(q, Record(token, id, false)) && q.rows[id].retryCount < |RETRY_DELAYS_MS|
    requires Legal(Apply(q, Record(token, id, false)), steps, true)
    requires forall i :: 0 <= i < |steps| ==> Leaves(steps[i], id)
    requires IsClaimBatch(Run(Apply(q, Record(token, id, false)), steps, true), skipped, ids) && id in ids
    ensures Run(Apply(q, Record(token, id, false)), steps, true).now >= q.now + RETRY_DELAYS_MS[q.rows[id].retryCount]
  {
    RetryIsDueOnSchedule(q, token, id, steps);
    ClaimedWereDue(Run(Apply(q, Record(token, id, false)), steps, true), skipped, ids);
  }

  lemma {:induction false} TimeMovesOn(q: Queue, steps: seq<Step>)
    requires Legal(q, steps, true)
    ensures Run(q, steps, true).now >= q.now
    decreases |steps|
  {
    hide Enabled, Timely;
    if steps != [] {
      StepMovesTime(q, steps[0]);
      TimeMovesOn(Apply(q, steps[0]), steps[1..]);
    }
  }

  lemma StepMovesTime(q: Queue, step: Step)
    requires Enabled(q, step)
    ensures Apply(q, step).now >= q.now
  {}

  /** A failed row stays as it is until an admin requeues it; from then on it is due, with all retries to go. */
  lemma RequeuedRowStaysDue(q: Queue, id: nat, steps: seq<Step>)
    requires Inv(q) && Enabled(q, AdminRetry(id)) && Legal(Apply(q, AdminRetry(id)), steps, true)
    requires forall i :: 0 <= i < |steps| ==> Leaves(steps[i], id)
    ensures !Due(q, id)
    ensures
      var end := Run(Apply(q, AdminRetry(id)), steps, true);
      && Due(end, id)
      && end.rows[id].retryCount == 0 && end.rows[id].attemptCount == q.rows[id].attemptCount
  {
    var requeued := Apply(q, AdminRetry(id));
    StepKeepsInv(q, AdminRetry(id));
    assert !Held(requeued, id);
    UnheldRowIsUntouched(requeued, steps, id);
    TimeMovesOn(requeued, steps);
  }

  // ----- Counting -----

  function Recorded(steps: seq<Step>, id: nat): nat {
    if steps == [] then 0
    else (if steps[0].Record? && steps[0].id == id then 1 else 0) + Recorded(steps[1..], id)
  }

  function Delivers(steps: seq<Step>, id: nat): nat {
    if steps == [] then 0
    else (if steps[0].Record? && steps[0].id == id && steps[0].ok then 1 else 0) + Delivers(steps[1..], id)
  }

  function Requeues(steps: seq<Step>, id: nat): nat {
    if steps == [] then 0
    else (if steps[0] == AdminRetry(id) then 1 else 0) + Requeues(steps[1..], id)
  }

  function Attempts(q: Queue, id: nat): nat {
    if id in q.rows then q.rows[id].attemptCount else 0
  }

  function SuccessCount(q: Queue, id: nat): nat {
    if id in q.rows && q.rows[id].status == Success then 1 else 0
  }

  /** Attempts not yet accounted for by retries, by an end state, or by an earlier requeue. */
  function Balance(q: Queue, id: nat): int {
    if id !in q.rows then 0
    else q.rows[id].attemptCount - q.rows[id].retryCount
         - (if q.rows[id].status == Success || q.rows[id].status == Failed then 1 else 0)
  }

  lemma StepCounts(q: Queue, step: Step, id: nat)
    requires Inv(q) && Enabled(q, step)
    ensures
      var q' := Apply(q, step);
      && Attempts(q', id) == Attempts(q, id) + Recorded([step], id)
      && SuccessCount(q', id) == SuccessCount(q, id) + Delivers([step], id)
      && Balance(q', id) == Balance(q, id) + 6 * Requeues([step], id)
  {
    if step.Record? {
      assert LeaseOk(q, q.live[step.token]) && RowOk(q.rows[step.id]);
    } else if step.AdminRetry? {
      assert RowOk(q.rows[step.id]);
    } else if step.Claim? {
      ClaimedWereDue(q, step.skipped, step.ids);
    }
  }

  lemma {:induction false} RunCounts(q: Queue, steps: seq<Step>, id: nat)
    requires Inv(q) && Legal(q, steps, true)
    ensures
      var end := Run(q, steps, true);
      && Attempts(end, id) == Attempts(q, id) + Recorded(steps, id)
      && SuccessCount(end, id) == SuccessCount(q, id) + Delivers(steps, id)
      && Balance(end, id) == Balance(q, id) + 6 * Requeues(steps, id)
    decreases |steps|
  {
    if steps != [] {
      StepCounts(q, steps[0], id);
      assert [steps[0]][1..] == [];
      StepKeepsInv(q, steps[0]);
      RunCounts(Apply(q, steps[0]), steps[1..], id);
    }
  }

  /**
   The books of a row on every timely run: the attempt count is the number of results recorded for
   it, and equals the retries of the current round, plus one for an end state, plus six for each
   time an operator requeued it.  At most one of the results was a success.
   */
  lemma AttemptsAddUp(steps: seq<Step>, id: nat)
    requires Legal(EMPTY, steps, true) && id in Run(EMPTY, steps, true).rows
    ensures
      var row := Run(EMPTY, steps, true).rows[id];
      && row.retryCount <= 5
      && (row.status == Failed ==> row.retryCount == 5)
      && row.attemptCount == Recorded(steps, id)
      && row.attemptCount == row.retryCount + (if row.status == Success || row.status == Failed then 1 else 0)
                             + 6 * Requeues(steps, id)
      && Delivers(steps, id) == (if row.status == Success then 1 else 0)
  {
    RunKeepsInv(EMPTY, steps);
    RunCounts(EMPTY, steps, id);
    assert RowOk(Run(EMPTY, steps, true).rows[id]);
  }

  /** Without successes and requeues a row gets at most six recorded attempts, and fails on the sixth. */
  lemma AlwaysFailingStopsAtSix(steps: seq<Step>, id: nat)
    requires Legal(EMPTY, steps, true) && id in Run(EMPTY, steps, true).rows
    requires Delivers(steps, id) == 0 && Requeues(steps, id) == 0
    ensures Recorded(steps, id) <= 6
    ensures Recorded(steps, id) == 6 <==> Run(EMPTY, steps, true).rows[id].status == Failed
  {
    AttemptsAddUp(steps, id);
  }

  // ----- Without the timing assumption -----

  /** A worker that outlives its lease: two workers hold row 1, and the second undoes a success. */
  lemma SlowWorkerUndoesSuccess()
    ensures
      var steps := [Enqueue(1), Claim({}, [1]), Tick(60_001), Claim({}, [1]), Record(0, 1, true), Record(1, 1, false)];
      && Legal(EMPTY, steps, false)
      && Run(EMPTY, steps, false).rows[1].status == Retrying
      && Delivers(steps, 1) == 1
  {
    var q1 := Apply(EMPTY, Enqueue(1));
    assert IsClaimBatch(q1, {}, [1]) by {
      assert Due(q1, 1);
    }
    var q2 := Apply(q1, Claim({}, [1]));
    assert q2.live[0] == Lease(1, 0, 0) && q2.rows[1] == Row(Retrying, 0, 0, 0, Some(0));
    var q3 := Apply(q2, Tick(60_001));
    assert IsClaimBatch(q3, {}, [1]) by {
      assert Due(q3, 1);
      assert q3.rows.Keys == {1};
    }
    var q4 := Apply(q3, Claim({}, [1]));
    assert q4.live[0] == Lease(1, 0, 0) && q4.live[1] == Lease(1, 0, 60_001);
    var q5 := Apply(q4, Record(0, 1, true));
    var q6 := Apply(q5, Record(1, 1, false));
    assert q6.rows[1].status == Retrying;
    UnrollSlowRun(q1, q2, q3, q4, q5, q6);
  }

  lemma UnrollSlowRun(q1: Queue, q2: Queue, q3: Queue, q4: Queue, q5: Queue, q6: Queue)
    requires Enabled(EMPTY, Enqueue(1)) && q1 == Apply(EMPTY, Enqueue(1))
    requires Enabled(q1, Claim({}, [1])) && q2 == Apply(q1, Claim({}, [1]))
    requires Enabled(q2, Tick(60_001)) && q3 == Apply(q2, Tick(60_001))
    requires Enabled(q3, Claim({}, [1])) && q4 == Apply(q3, Claim({}, [1]))
    requires Enabled(q4, Record(0, 1, true)) && q5 == Apply(q4, Record(0, 1, true))
    requires Enabled(q5, Record(1, 1, false)) && q6 == Apply(q5, Record(1, 1, false))
    ensures
      var steps := [Enqueue(1), Claim({}, [1]), Tick(60_001), Claim({}, [1]), Record(0, 1, true), Record(1, 1, false)];
      Legal(EMPTY, steps, false) && Run(EMPTY, steps, false) == q6 && Delivers(steps, 1) == 1
  {
    hide Enabled, Apply;
    var s6 := [Record(1, 1, false)];
    var s5 := [Record(0, 1, true)] + s6;
    var s4 := [Claim({}, [1])] + s5;
    var s3 := [Tick(60_001)] + s4;
    var s2 := [Claim({}, [1])] + s3;
    var s1 := [Enqueue(1)] + s2;
    assert s6[1..] == [] && s5[1..] == s6 && s4[1..] == s5 && s3[1..] == s4 && s2[1..] == s3 && s1[1..] == s2;
    assert Legal(q5, s6, false) && Run(q5, s6, false) == q6;
    assert Legal(q4, s5, false) && Run(q4, s5, false) == q6;
    assert Legal(q3, s4, false) && Run(q3, s4, false) == q6;
    assert Legal(q2, s3, false) && Run(q2, s3, false) == q6;
    assert Legal(q1, s2, false) && Run(q1, s2, false) == q6;
    assert s1 == [Enqueue(1), Claim({}, [1]), Tick(60_001), Claim({}, [1]), Record(0, 1, true), Record(1, 1, false)];
    assert Delivers(s6, 1) == 0 && Delivers(s5, 1) == 1 && Delivers(s4, 1) == 1 && Delivers(s3, 1) == 1;
  }

  /** All that is left to rely on: workers hold rows that exist, and tokens are not used again. */
  ghost predicate TokensOk(q: Queue) {
    forall t :: t in q.live ==> q.live[t].delivery in q.rows && t < q.nextToken
  }

  lemma {:induction false} StepKeepsTokens(q: Queue, step: Step)
    requires TokensOk(q) && Enabled(q, step)
    ensures TokensOk(Apply(q, step))
  {
    if step.Claim? {
      ClaimedWereDue(q, step.skipped, step.ids);
      var q' := Apply(q, step);
      forall t | t in q'.live ensures q'.live[t].delivery in q'.rows && t < q'.nextToken {
        if q.nextToken <= t < q.nextToken + |step.ids| {
          assert step.ids[t - q.nextToken] in step.ids;
        }
      }
    }
  }

  lemma {:induction false} RunKeepsTokens(q: Queue, steps: seq<Step>)
    requires TokensOk(q) && Legal(q, steps, false)
    ensures TokensOk(Run(q, steps, false))
    decreases |steps|
  {
    hide Enabled, TokensOk;
    if steps != [] {
      StepKeepsTokens(q, steps[0]);
      RunKeepsTokens(Apply(q, steps[0]), steps[1..]);
    }
  }

  lemma {:induction false} DeliveredStepFrame(q: Queue, step: Step, id: nat)
    requires Enabled(q, step) && id in q.rows && q.rows[id].status == Success && !Held(q, id)
    ensures id in Apply(q, step).rows && Apply(q, step).rows[id] == q.rows[id] && !Held(Apply(q, step), id)
  {
    var q' := Apply(q, step);
    if step.Claim? {
      ClaimedWereDue(q, step.skipped, step.ids);
      ClaimFrame(q, step.ids, id);
    } else {
      assert step.Record? ==> Held(q, step.id);
      forall t | t in q'.live ensures q'.live[t].delivery != id {
        assert t in q.live && q.live[t] == q'.live[t];
      }
    }
  }

  lemma {:induction false} DeliveredStays(q: Queue, steps: seq<Step>, id: nat)
    requires id in q.rows && q.rows[id].status == Success && !Held(q, id) && Legal(q, steps, false)
    ensures id in Run(q, steps, false).rows && Run(q, steps, false).rows[id] == q.rows[id]
    decreases |steps|
  {
    hide Enabled, Held;
    if steps != [] {
      DeliveredStepFrame(q, steps[0], id);
      DeliveredStays(Apply(q, steps[0]), steps[1..], id);
    }
  }

  /** Some run, with no regard to time, leads there. */
  ghost predicate Reaches(q: Queue, end: Queue) {
    exists steps :: Legal(q, steps, false) && Run(q, steps, false) == end
  }

  lemma {:induction false} ReachesByStep(q: Queue, step: Step)
    requires Enabled(q, step)
    ensures Reaches(q, Apply(q, step))
  {
    hide Enabled;
    assert [step][1..] == [];
    assert Legal(Apply(q, step), [], false) && Run(Apply(q, step), [], false) == Apply(q, step);
    assert Legal(q, [step], false) && Run(q, [step], false) == Apply(q, step);
  }

  lemma {:induction false} RunJoin(q: Queue, a: seq<Step>, b: seq<Step>)
    requires Legal(q, a, false) && Legal(Run(q, a, false), b, false)
    ensures Legal(q, a + b, false) && Run(q, a + b, false) == Run(Run(q, a, false), b, false)
    decreases |a|
  {
    hide Enabled;
    if a == [] {
      assert a + b == b;
    } else {
      assert (a + b)[0] == a[0] && (a + b)[1..] == a[1..] + b;
      RunJoin(Apply(q, a[0]), a[1..], b);
    }
  }

  lemma {:induction false} ReachesOn(a: Queue, b: Queue, c: Queue)
    requires Reaches(a, b) && Reaches(b, c)
    ensures Reaches(a, c)
  {
    var first :| Legal(a, first, false) && Run(a, first, false) == b;
    var second :| Legal(b, second, false) && Run(b, second, false) == c;
    RunJoin(a, first, second);
  }

  /** The row is as it was on every run from here, however slow the workers. */
  ghost predicate NeverChanges(q: Queue, id: nat)
    requires id in q.rows
  {
    forall end :: Reaches(q, end) ==> id in end.rows && end.rows[id] == q.rows[id]
  }

  /** Its status is `success` on every run from here. */
  ghost predicate StaysDelivered(q: Queue, id: nat) {
    forall end :: Reaches(q, end) ==> id in end.rows && end.rows[id].status == Success
  }

  /**
   Without any timing assumption, a delivered row is final exactly when no worker holds it any more:
   then no run changes it, and otherwise a run can take its status back.
   */
  lemma {:induction false} DeliveredIsFinalIff(q: Queue, id: nat)
    requires TokensOk(q) && id in q.rows && q.rows[id].status == Success
    ensures NeverChanges(q, id) <==> !Held(q, id)
    ensures StaysDelivered(q, id) <==> !Held(q, id)
  {
    if Held(q, id) {
      var t :| t in q.live && q.live[t].delivery == id;
      ReachesByStep(q, Record(t, id, false));
    } else {
      forall end | Reaches(q, end) ensures id in end.rows && end.rows[id] == q.rows[id] {
        var steps :| Legal(q, steps, false) && Run(q, steps, false) == end;
        DeliveredStays(q, steps, id);
      }
    }
  }

  // ----- The retry bound without the timing assumption -----

  ghost predicate Bounded(q: Queue) {
    forall id :: id in q.rows ==> q.rows[id].retryCount <= |RETRY_DELAYS_MS|
  }

  /** No failed attempt is recorded from a snapshot below five once the count has reached five. */
  predicate NotStale(q: Queue, step: Step)
    requires Enabled(q, step)
  {
    step.Record? && !step.ok && q.live[step.token].retryCount < |RETRY_DELAYS_MS| ==>
      q.rows[step.id].retryCount < |RETRY_DELAYS_MS|
  }

  ghost predicate NoneStale(q: Queue, steps: seq<Step>)
    requires Legal(q, steps, false)
    decreases |steps|
  {
    steps == [] || (NotStale(q, steps[0]) && NoneStale(Apply(q, steps[0]), steps[1..]))
  }

  /** The bound holds at every moment of the run. */
  ghost predicate BoundedThroughout(q: Queue, steps: seq<Step>)
    requires Legal(q, steps, false)
    decreases |steps|
  {
    Bounded(q) && (steps == [] || BoundedThroughout(Apply(q, steps[0]), steps[1..]))
  }

  lemma {:induction false} StepKeepsBoundIff(q: Queue, step: Step)
    requires Bounded(q) && Enabled(q, step)
    ensures Bounded(Apply(q, step)) <==> NotStale(q, step)
  {
    var q' := Apply(q, step);
    if step.Claim? {
      ClaimedWereDue(q, step.skipped, step.ids);
    } else if step.Record? {
      assert q'.rows[step.id].retryCount <= |RETRY_DELAYS_MS| <==> NotStale(q, step);
    }
  }

  /** On any run, timely or not, retry_count stays within five exactly as long as no stale failure is recorded. */
  lemma {:induction false} BoundHoldsIff(q: Queue, steps: seq<Step>)
    requires Bounded(q) && Legal(q, steps, false)
    ensures BoundedThroughout(q, steps) <==> NoneStale(q, steps)
    decreases |steps|
  {
    hide Enabled, NotStale, Bounded;
    if steps != [] {
      StepKeepsBoundIff(q, steps[0]);
      if NotStale(q, steps[0]) {
        BoundHoldsIff(Apply(q, steps[0]), steps[1..]);
      } else {
        assert !BoundedThroughout(Apply(q, steps[0]), steps[1..]);
      }
    }
  }

  /** A worker holds the row on each of the tokens, with the same snapshot. */
  ghost predicate Crowd(q: Queue, id: nat, first: nat, n: nat, snapshot: nat) {
    && id in q.rows
    && forall t :: first <= t < first + n ==>
         t in q.live && q.live[t].delivery == id && q.live[t].retryCount == snapshot
  }

  /** Once enough time has passed, a row that is pending or retrying can be claimed, whoever holds it. */
  lemma {:induction false} ClaimAlone(q: Queue, id: nat) returns (end: Queue)
    requires TokensOk(q) && id in q.rows && q.rows[id].status in {Pending, Retrying}
    ensures Reaches(q, end) && TokensOk(end) && end.nextToken == q.nextToken + 1
    ensures id in end.rows && end.rows[id].status == Retrying && end.rows[id].retryCount == q.rows[id].retryCount
    ensures q.nextToken in end.live && end.live[q.nextToken].delivery == id
    ensures end.live[q.nextToken].retryCount == q.rows[id].retryCount
    ensures forall t :: t in q.live ==> t in end.live && end.live[t] == q.live[t]
  {
    var row := q.rows[id];
    var due := Max(row.nextAttemptAt, if row.lockedAt.Some? then row.lockedAt.value + LEASE_MS + 1 else q.now);
    var wait := Tick(Max(0, due - q.now));
    var later := Apply(q, wait);
    var claim := Claim(later.rows.Keys - {id}, [id]);
    assert Due(later, id);
    assert IsClaimBatch(later, later.rows.Keys - {id}, [id]);
    end := Apply(later, claim);
    ReachesByStep(q, wait);
    ReachesByStep(later, claim);
    ReachesOn(q, later, end);
    StepKeepsTokens(q, wait);
    StepKeepsTokens(later, claim);
  }

  lemma {:induction false} CrowdGathers(q: Queue, id: nat, n: nat) returns (end: Queue)
    requires TokensOk(q) && id in q.rows && q.rows[id].status in {Pending, Retrying}
    ensures Reaches(q, end) && TokensOk(end) && end.nextToken == q.nextToken + n
    ensures Crowd(end, id, q.nextToken, n, q.rows[id].retryCount)
    ensures end.rows[id].status in {Pending, Retrying} && end.rows[id].retryCount == q.rows[id].retryCount
  {
    if n == 0 {
      end := q;
      assert Legal(q, [], false) && Run(q, [], false) == q;
    } else {
      var before := CrowdGathers(q, id, n - 1);
      end := ClaimAlone(before, id);
      ReachesOn(q, before, end);
    }
  }

  lemma {:induction false} CrowdFails(q: Queue, id: nat, first: nat, n: nat, snapshot: nat) returns (end: Queue)
    requires Crowd(q, id, first, n, snapshot) && snapshot < |RETRY_DELAYS_MS|
    ensures Reaches(q, end) && id in end.rows && end.rows[id].retryCount == q.rows[id].retryCount + n
    decreases n
  {
    if n == 0 {
      end := q;
      assert Legal(q, [], false) && Run(q, [], false) == q;
    } else {
      var step := Record(first + n - 1, id, false);
      ReachesByStep(q, step);
      end := CrowdFails(Apply(q, step), id, first, n - 1, snapshot);
      ReachesOn(q, Apply(q, step), end);
    }
  }

  ghost predicate BoundCanBreak(q: Queue, id: nat) {
    exists end :: Reaches(q, end) && id in end.rows && end.rows[id].retryCount > |RETRY_DELAYS_MS|
  }

  lemma {:induction false} BreaksFrom(q: Queue, next: Queue, id: nat)
    requires Reaches(q, next) && BoundCanBreak(next, id)
    ensures BoundCanBreak(q, id)
  {
    var end :| Reaches(next, end) && id in end.rows && end.rows[id].retryCount > |RETRY_DELAYS_MS|;
    ReachesOn(q, next, end);
  }

  lemma {:induction false} RetryingBreaks(q: Queue, id: nat)
    requires TokensOk(q) && id in q.rows && q.rows[id].status in {Pending, Retrying}
    requires q.rows[id].retryCount < |RETRY_DELAYS_MS|
    ensures BoundCanBreak(q, id)
  {
    var crowded := CrowdGathers(q, id, 6);
    var end := CrowdFails(crowded, id, q.nextToken, 6, q.rows[id].retryCount);
    ReachesOn(q, crowded, end);
  }

  lemma {:induction false} FailedBreaks(q: Queue, id: nat)
    requires TokensOk(q) && id in q.rows && q.rows[id].status == Failed
    ensures BoundCanBreak(q, id)
  {
    var requeue := AdminRetry(id);
    ReachesByStep(q, requeue);
    StepKeepsTokens(q, requeue);
    RetryingBreaks(Apply(q, requeue), id);
    BreaksFrom(q, Apply(q, requeue), id);
  }

  lemma {:induction false} HeldBreaks(q: Queue, t: nat, id: nat)
    requires TokensOk(q) && id in q.rows && t in q.live && q.live[t].delivery == id
    requires q.rows[id].retryCount <= |RETRY_DELAYS_MS|
    ensures BoundCanBreak(q, id)
  {
    var step := Record(t, id, false);
    var next := Apply(q, step);
    ReachesByStep(q, step);
    StepKeepsTokens(q, step);
    if next.rows[id].status == Failed {
      FailedBreaks(next, id);
      BreaksFrom(q, next, id);
    } else if next.rows[id].retryCount < |RETRY_DELAYS_MS| {
      RetryingBreaks(next, id);
      BreaksFrom(q, next, id);
    } else if next.rows[id].retryCount == |RETRY_DELAYS_MS| {
      FullBreaks(next, id);
      BreaksFrom(q, next, id);
    }
  }

  /** Five retries used: one more claim fails the row for good, and a requeue starts over. */
  lemma {:induction false} FullBreaks(q: Queue, id: nat)
    requires TokensOk(q) && id in q.rows && q.rows[id].status in {Pending, Retrying}
    requires q.rows[id].retryCount == |RETRY_DELAYS_MS|
    ensures BoundCanBreak(q, id)
  {
    var claimed := ClaimAlone(q, id);
    var step := Record(q.nextToken, id, false);
    ReachesByStep(claimed, step);
    StepKeepsTokens(claimed, step);
    FailedBreaks(Apply(claimed, step), id);
    BreaksFrom(claimed, Apply(claimed, step), id);
    BreaksFrom(q, claimed, id);
  }

  /**
   The bound needs the timing assumption for every row that is not final: some run with slow workers
   takes retry_count past five, unless the row is delivered and no worker holds it any more.
   */
  lemma {:induction false} BoundCanBreakIff(q: Queue, id: nat)
    requires TokensOk(q) && id in q.rows && q.rows[id].retryCount <= |RETRY_DELAYS_MS|
    ensures BoundCanBreak(q, id) <==> !(q.rows[id].status == Success && !Held(q, id))
  {
    if q.rows[id].status == Success && !Held(q, id) {
      DeliveredIsFinalIff(q, id);
    } else if q.rows[id].status == Success {
      var t :| t in q.live && q.live[t].delivery == id;
      HeldBreaks(q, t, id);
    } else if q.rows[id].status == Failed {
      FailedBreaks(q, id);
    } else if q.rows[id].retryCount < |RETRY_DELAYS_MS| {
      RetryingBreaks(q, id);
    } else {
      FullBreaks(q, id);
    }
  }

  // ----- The queue with its operations -----

  class DeliveryQueue {
    var now: int
    var rows: map<nat, Row>
    var live: map<nat, Lease>
    var nextToken: nat

    ghost function State(): Queue
      reads this
    {
      Queue(now, rows, live, nextToken)
    }

    constructor ()
      ensures State() == EMPTY && Inv(State())
    {
      now, rows, live, nextToken := 0, map[], map[], 0;
    }

    /** The claiming transaction; `ids` and `skipped` are what its SELECT ... SKIP LOCKED answered and skipped. */
    method ClaimDueDeliveries(ids: seq<nat>, ghost skipped: set<nat>)
      requires Inv(State()) && IsClaimBatch(State(), skipped, ids)
      modifies this
      ensures State() == Apply(old(State()), Claim(skipped, ids)) && Inv(State())
    {
      ClaimKeepsInv(State(), skipped, ids);
      ClaimedWereDue(State(), skipped, ids);
      if |ids| == 0 {
        ClaimNothing(State());
        return;
      }
      live := StartWorkers(live, rows, ids, now, nextToken);
      rows := LockRows(rows, ids, now);
      nextToken := nextToken + |ids|;
    }

    /** Delivers one claimed row and records the outcome. */
    method Deliver(token: nat, id: nat, ok: bool)
      requires Inv(State()) && Enabled(State(), Record(token, id, ok))
      modifies this
      ensures State() == Apply(old(State()), Record(token, id, ok)) && Inv(State())
    {
      RecordKeepsInv(State(), token, id, ok);
      var row := rows[id];
      if ok {
        rows := rows[id := row.(status := Success, attemptCount := row.attemptCount + 1, lockedAt := None)];
      } else {
        var retriesUsed := live[token].retryCount;
        var hasRetriesRemaining := retriesUsed < |RETRY_DELAYS_MS|;
        var status := if hasRetriesRemaining then Retrying else Failed;
        rows := rows[id := Row(status,
                               row.attemptCount + 1,
                               row.retryCount + (if status == Retrying then 1 else 0),
                               if status == Retrying then now + RETRY_DELAYS_MS[retriesUsed] else row.nextAttemptAt,
                               None)];
      }
      live := live - {token};
    }

    /** The operator's requeue of a failed delivery; any other row answers "not found". */
    method Requeue(id: nat) returns (found: bool)
      requires Inv(State())
      modifies this`rows
      ensures found <==> id in old(rows) && old(rows)[id].status == Failed
      ensures found ==> State() == Apply(old(State()), AdminRetry(id))
      ensures !found ==> State() == old(State())
      ensures Inv(State())
    {
      found := id in rows && rows[id].status == Failed;
      if found {
        StepKeepsInv(State(), AdminRetry(id));
        var row := rows[id];
        rows := rows[id := row.(status := Pending, retryCount := 0, nextAttemptAt := now, lockedAt := None)];
      }
    }
  }
}
