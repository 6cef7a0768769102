/**
 The fault-tolerant poller of the standalone indexer (indexer/src/faultTolerantPoller.ts): which
 ledgers it takes for missing, how it recovers them, and what its retry loop guarantees.
 */
module FaultTolerantPoller {
  import opened Common
  import opened Batching

  // ----- Which ledgers are missing -----

  ghost predicate Descending(ledgers: seq<int>) {
    forall i, j :: 0 <= i < j < |ledgers| ==> ledgers[i] > ledgers[j]
  }

  ghost predicate NoDuplicates(ledgers: seq<int>) {
    forall i, j :: 0 <= i < j < |ledgers| ==> ledgers[i] != ledgers[j]
  }

  /** Those of the last `depth` ledgers up to `current` that answer, newest first. */
  function Answering(current: int, depth: nat, answers: set<int>): seq<int> {
    if depth == 0 then []
    else
      var ledger := current - (depth - 1);
      Answering(current, depth - 1, answers) + if ledger in answers then [ledger] else []
  }

  lemma {:induction false} AnsweringSpec(current: int, depth: nat, answers: set<int>)
    ensures Descending(Answering(current, depth, answers))
    ensures forall x :: x in Answering(current, depth, answers) <==> current - depth < x <= current && x in answers
  {
    if depth > 0 {
      AnsweringSpec(current, depth - 1, answers);
      var init := Answering(current, depth - 1, answers);
      forall i | 0 <= i < |init| ensures init[i] > current - (depth - 1) {
        assert init[i] in init;
      }
    }
  }

  /** The ledgers between neighbours, gap by gap. */
  function Holes(valid: seq<int>): seq<int> {
    if |valid| <= 1 then [] else Interval(valid[1] + 1, valid[0] - 1) + Holes(valid[1..])
  }

  ghost predicate Between(valid: seq<int>, x: int) {
    x !in valid && exists lo, hi :: lo in valid && hi in valid && lo < x < hi
  }

  lemma {:induction false} IntervalDistinct(first: int, last: int)
    ensures NoDuplicates(Interval(first, last))
    decreases last - first + 1
  {
    if first <= last {
      var init := Interval(first, last - 1);
      IntervalDistinct(first, last - 1);
      IntervalMembers(first, last - 1, last);
      assert forall i :: 0 <= i < |init| ==> init[i] in init;
    }
  }

  lemma BetweenStep(valid: seq<int>, x: int)
    requires Descending(valid) && |valid| > 1
    ensures Between(valid, x) <==> valid[1] < x < valid[0] || Between(valid[1..], x)
  {
    assert valid[0] in valid && valid[1] in valid;
    assert forall y :: y in valid <==> y == valid[0] || y in valid[1..];
    assert valid[1] in valid[1..];
    assert forall y :: y in valid[1..] ==> y <= valid[1];
  }

  lemma {:induction false} HolesMembers(valid: seq<int>, x: int)
    requires Descending(valid)
    ensures x in Holes(valid) <==> Between(valid, x)
  {
    if |valid| > 1 {
      HolesMembers(valid[1..], x);
      BetweenStep(valid, x);
      IntervalMembers(valid[1] + 1, valid[0] - 1, x);
    }
  }

  lemma {:induction false} HolesDistinct(valid: seq<int>)
    requires Descending(valid)
    ensures NoDuplicates(Holes(valid))
  {
    if |valid| > 1 {
      var first, rest := Interval(valid[1] + 1, valid[0] - 1), Holes(valid[1..]);
      HolesDistinct(valid[1..]);
      IntervalDistinct(valid[1] + 1, valid[0] - 1);
      forall i, j | 0 <= i < |first| && 0 <= j < |rest| ensures first[i] != rest[j] {
        IntervalMembers(valid[1] + 1, valid[0] - 1, first[i]);
        assert rest[j] in rest;
        HolesMembers(valid[1..], rest[j]);
        assert forall y :: y in valid[1..] ==> y <= valid[1];
      }
    }
  }

  /** A ledger of the window that stays silent between two that answer. */
  ghost predicate IsMissing(current: int, depth: nat, answers: set<int>, x: int) {
    && x !in answers
    && exists lo, hi :: lo in answers && hi in answers && current - depth < lo < x < hi <= current
  }

  /** `None` stands for a lookup that throws as a whole. */
  function MissingSequences(current: int, depth: nat, answers: Option<set<int>>): seq<int> {
    if answers.None? then [] else Holes(Answering(current, depth, answers.value))
  }

  lemma MissingMembers(current: int, depth: nat, answers: set<int>, x: int)
    ensures x in MissingSequences(current, depth, Some(answers)) <==> IsMissing(current, depth, answers, x)
  {
    AnsweringSpec(current, depth, answers);
    HolesMembers(Answering(current, depth, answers), x);
  }

  lemma MissingInWindow(current: int, depth: nat, answers: Option<set<int>>)
    ensures NoDuplicates(MissingSequences(current, depth, answers))
    ensures forall x :: x in MissingSequences(current, depth, answers) ==> current - depth < x < current
  {
    if answers.Some? {
      AnsweringSpec(current, depth, answers.value);
      HolesDistinct(Answering(current, depth, answers.value));
      forall x | x in MissingSequences(current, depth, answers) ensures current - depth < x < current {
        MissingMembers(current, depth, answers.value, x);
      }
    }
  }

  /** Reports, without duplicates, exactly the silent ledgers between the lowest and highest answering ones. */
  method DetectReorg(current: int, depth: nat, answers: Option<set<int>>) returns (detected: bool, missing: seq<int>)
    ensures NoDuplicates(missing)
    ensures forall x :: x in missing <==> answers.Some? && IsMissing(current, depth, answers.value, x)
    ensures detected <==> missing != []
    ensures missing == MissingSequences(current, depth, answers)
  {
    hide Holes, IsMissing, Answering;
    if answers.None? {
      return false, [];
    }
    var valid := LookUp(current, depth, answers.value);
    missing := FindHoles(valid);
    detected := missing != [];
    MissingInWindow(current, depth, answers);
    forall x ensures x in missing <==> IsMissing(current, depth, answers.value, x) {
      MissingMembers(current, depth, answers.value, x);
    }
  }

  method LookUp(current: int, depth: nat, answers: set<int>) returns (valid: seq<int>)
    ensures Descending(valid)
    ensures forall x :: x in valid <==> current - depth < x <= current && x in answers
    ensures valid == Answering(current, depth, answers)
  {
    valid := [];
    for k := 0 to depth
      invariant valid == Answering(current, k, answers)
    {
      if current - k in answers {
        valid := valid + [current - k];
      }
    }
    AnsweringSpec(current, depth, answers);
  }

  lemma HolesStep(valid: seq<int>, i: nat)
    requires i < |valid| - 1
    ensures Holes(valid[i..]) == Interval(valid[i + 1] + 1, valid[i] - 1) + Holes(valid[i + 1..])
  {
    assert valid[i..][1..] == valid[i + 1..];
  }

  method FindHoles(valid: seq<int>) returns (missing: seq<int>)
    requires Descending(valid)
    ensures missing == Holes(valid)
  {
    hide Holes, Interval;
    missing := [];
    if |valid| <= 1 {
      NoHoles(valid);
      return;
    }
    var i := 0;
    assert valid[0..] == valid;
    while i < |valid| - 1
      invariant 0 <= i < |valid|
      invariant missing + Holes(valid[i..]) == Holes(valid)
    {
      HolesStep(valid, i);
      missing := PushGap(missing, valid[i + 1], valid[i]);
      i := i + 1;
    }
    NoHoles(valid[i..]);
    assert missing + [] == missing;
  }

  lemma NoHoles(valid: seq<int>)
    requires |valid| <= 1
    ensures Holes(valid) == []
  {}

  method PushGap(missing: seq<int>, previous: int, newer: int) returns (extended: seq<int>)
    requires previous < newer
    ensures extended == missing + Interval(previous + 1, newer - 1)
  {
    extended := missing;
    if newer - previous > 1 {
      var ledger := previous + 1;
      while ledger < newer
        invariant previous < ledger <= newer
        invariant extended == missing + Interval(previous + 1, ledger - 1)
      {
        extended := extended + [ledger];
        ledger := ledger + 1;
      }
    }
  }

  // ----- One attempt -----

  /** The two effects of a ledger: its events go through the handlers, then the cursor is saved. */
  datatype Action = Handled(ledger: int, events: seq<nat>) | Saved(ledger: int)

  /**
   The outside world during one attempt: which ledgers answer, what the event queries return (a
   query that fails has no entry), after how many actions something throws, and whether what it
   throws is taken for an RPC error.
   */
  datatype World = World(answers: Option<set<int>>, fetched: map<int, seq<nat>>, steps: nat, rpcError: bool)

  function EventsOf(w: World, ledger: int): seq<nat> {
    if ledger in w.fetched then w.fetched[ledger] else []
  }

  function ActionsFor(ledgers: seq<int>, w: World): seq<Action> {
    if ledgers == [] then []
    else [Handled(ledgers[0], EventsOf(w, ledgers[0])), Saved(ledgers[0])] + ActionsFor(ledgers[1..], w)
  }

  /** Everything an attempt has to do: the missing ledgers, then the current one. */
  function Plan(current: int, depth: nat, w: World): seq<Action> {
    ActionsFor(MissingSequences(current, depth, w.answers) + [current], w)
  }

  predicate Succeeds(current: int, depth: nat, w: World) {
    w.steps >= |Plan(current, depth, w)|
  }

  function Performed(current: int, depth: nat, w: World): seq<Action> {
    if Succeeds(current, depth, w) then Plan(current, depth, w) else Plan(current, depth, w)[..w.steps]
  }

  // ----- The retry loop -----

  datatype Outcome = Advanced(next: int) | Rethrown | RetriesExceeded

  /** The first attempt that is not followed by another one, or `max`. */
  function LastAttempt(current: int, depth: nat, max: nat, worlds: nat -> World, attempt: nat): (k: nat)
    requires attempt <= max
    ensures attempt <= k <= max
    ensures k < max ==> Succeeds(current, depth, worlds(k)) || !worlds(k).rpcError
    ensures forall i :: attempt <= i < k ==> !Succeeds(current, depth, worlds(i)) && worlds(i).rpcError
    decreases max - attempt
  {
    if attempt == max || Succeeds(current, depth, worlds(attempt)) || !worlds(attempt).rpcError then attempt
    else LastAttempt(current, depth, max, worlds, attempt + 1)
  }

  /** All that the attempts before `n` did. */
  function Done(current: int, depth: nat, worlds: nat -> World, n: nat): seq<Action> {
    if n == 0 then [] else Done(current, depth, worlds, n - 1) + Performed(current, depth, worlds(n - 1))
  }

  /** The cursor that a log of actions leaves. */
  function CursorAfter(cursor: Option<int>, log: seq<Action>): Option<int> {
    if log == [] then cursor
    else if log[|log| - 1].Saved? then Some(log[|log| - 1].ledger)
    else CursorAfter(cursor, log[..|log| - 1])
  }

  lemma {:induction false} PlanConcat(a: seq<int>, b: seq<int>, w: World)
    ensures ActionsFor(a + b, w) == ActionsFor(a, w) + ActionsFor(b, w)
  {
    if a == [] {
      assert a + b == b;
    } else {
      assert (a + b)[1..] == a[1..] + b;
      PlanConcat(a[1..], b, w);
    }
  }

  /** A plan handles and then saves each of its ledgers once, in order. */
  lemma {:induction false} PlanSpec(ledgers: seq<int>, w: World)
    ensures |ActionsFor(ledgers, w)| == 2 * |ledgers|
    ensures forall k :: 0 <= k < |ActionsFor(ledgers, w)| ==>
              ActionsFor(ledgers, w)[k] ==
              if k % 2 == 0 then Handled(ledgers[k / 2], EventsOf(w, ledgers[k / 2])) else Saved(ledgers[k / 2])
  {
    if ledgers != [] {
      var plan, rest := ActionsFor(ledgers, w), ActionsFor(ledgers[1..], w);
      PlanSpec(ledgers[1..], w);
      forall k | 2 <= k < |plan|
        ensures plan[k] ==
                if k % 2 == 0 then Handled(ledgers[k / 2], EventsOf(w, ledgers[k / 2])) else Saved(ledgers[k / 2])
      {
        assert plan[k] == rest[k - 2] && (k - 2) / 2 == k / 2 - 1 && (k - 2) % 2 == k % 2;
        assert ledgers[1..][k / 2 - 1] == ledgers[k / 2];
      }
    }
  }

  lemma PlanAt(ledgers: seq<int>, w: World, i: nat)
    requires i < |ledgers|
    ensures |ActionsFor(ledgers, w)| == 2 * |ledgers|
    ensures ActionsFor(ledgers, w)[2 * i] == Handled(ledgers[i], EventsOf(w, ledgers[i]))
    ensures ActionsFor(ledgers, w)[2 * i + 1] == Saved(ledgers[i])
  {
    PlanSpec(ledgers, w);
    assert (2 * i) / 2 == i && (2 * i + 1) / 2 == i;
  }

  lemma {:induction false} CursorOfPrefix(cursor: Option<int>, ledgers: seq<int>, w: World, m: nat)
    requires m <= 2 * |ledgers| == |ActionsFor(ledgers, w)|
    ensures CursorAfter(cursor, ActionsFor(ledgers, w)[..m]) == if m < 2 then cursor else Some(ledgers[m / 2 - 1])
  {
    hide ActionsFor;
    var plan := ActionsFor(ledgers, w);
    if m > 0 {
      CursorOfPrefix(cursor, ledgers, w, m - 1);
      PrefixGrows(cursor, plan, m - 1);
      var i := (m - 1) / 2;
      PlanAt(ledgers, w, i);
      assert m - 1 == 2 * i || m - 1 == 2 * i + 1;
    }
  }

  lemma {:induction false} CursorConcat(cursor: Option<int>, a: seq<Action>, b: seq<Action>)
    ensures CursorAfter(cursor, a + b) == CursorAfter(CursorAfter(cursor, a), b)
    decreases |b|
  {
    if b == [] {
      assert a + b == a;
    } else {
      assert (a + b)[..|a + b| - 1] == a + b[..|b| - 1];
      CursorConcat(cursor, a, b[..|b| - 1]);
    }
  }

  /**
   Where one attempt leaves the cursor: at the last ledger it finished, which is the current one
   exactly when the attempt succeeds, and otherwise a missing one or none at all.
   */
  lemma AttemptCursor(current: int, depth: nat, w: World, cursor: Option<int>)
    ensures var ledgers := MissingSequences(current, depth, w.answers) + [current];
            var finished := Min(w.steps / 2, |ledgers|);
            && (Succeeds(current, depth, w) <==> finished == |ledgers|)
            && CursorAfter(cursor, Performed(current, depth, w)) ==
                 if finished == 0 then cursor else Some(ledgers[finished - 1])
  {
    var ledgers := MissingSequences(current, depth, w.answers) + [current];
    var plan := ActionsFor(ledgers, w);
    PlanSpec(ledgers, w);
    assert plan[..|plan|] == plan;
    CursorOfPrefix(cursor, ledgers, w, Min(w.steps, |plan|));
  }

  ghost predicate InWindow(current: int, depth: nat, before: Option<int>, after: Option<int>) {
    after == before || after == Some(current) || (after.Some? && current - depth < after.value < current)
  }

  lemma SuccessCursor(current: int, depth: nat, w: World, cursor: Option<int>)
    ensures Succeeds(current, depth, w) ==> CursorAfter(cursor, Performed(current, depth, w)) == Some(current)
  {
    AttemptCursor(current, depth, w, cursor);
  }

  /** A failed attempt can lower the cursor, but never leaves it beyond the current ledger or below the window. */
  lemma AttemptCursorInWindow(current: int, depth: nat, w: World, cursor: Option<int>)
    ensures InWindow(current, depth, cursor, CursorAfter(cursor, Performed(current, depth, w)))
  {
    var missing := MissingSequences(current, depth, w.answers);
    var ledgers := missing + [current];
    AttemptCursor(current, depth, w, cursor);
    MissingInWindow(current, depth, w.answers);
    assert forall i :: 0 <= i < |missing| ==> ledgers[i] == missing[i] && missing[i] in missing;
  }

  /** The ledgers whose cursor was saved, in order. */
  function SavedLedgers(log: seq<Action>): seq<int> {
    if log == [] then []
    else (if log[0].Saved? then [log[0].ledger] else []) + SavedLedgers(log[1..])
  }

  lemma {:induction false} SavedMembers(log: seq<Action>, ledger: int)
    ensures ledger in SavedLedgers(log) <==> Saved(ledger) in log
  {
    if log != [] {
      SavedMembers(log[1..], ledger);
    }
  }

  lemma {:induction false} SavedByPlan(ledgers: seq<int>, w: World)
    ensures SavedLedgers(ActionsFor(ledgers, w)) == ledgers
  {
    if ledgers != [] {
      var plan := ActionsFor(ledgers, w);
      assert plan[1..][1..] == ActionsFor(ledgers[1..], w);
      SavedByPlan(ledgers[1..], w);
    }
  }

  /** A successful attempt saves each missing ledger once, in the order of the report, and then the current one. */
  lemma SuccessRecoversEachOnce(current: int, depth: nat, w: World)
    requires Succeeds(current, depth, w)
    ensures SavedLedgers(Performed(current, depth, w)) == MissingSequences(current, depth, w.answers) + [current]
    ensures NoDuplicates(MissingSequences(current, depth, w.answers) + [current])
    ensures w.answers.Some? ==>
              forall x :: Saved(x) in Performed(current, depth, w) <==>
                          x == current || IsMissing(current, depth, w.answers.value, x)
  {
    var missing := MissingSequences(current, depth, w.answers);
    forall x ensures x in SavedLedgers(Performed(current, depth, w)) <==> Saved(x) in Performed(current, depth, w) {
      SavedMembers(Performed(current, depth, w), x);
    }
    SavedByPlan(missing + [current], w);
    MissingInWindow(current, depth, w.answers);
    assert forall i :: 0 <= i < |missing| ==> missing[i] in missing;
    if w.answers.Some? {
      forall x ensures x in missing <==> IsMissing(current, depth, w.answers.value, x) {
        MissingMembers(current, depth, w.answers.value, x);
      }
    }
  }

  lemma {:induction false} DeafPlan(ledgers: seq<int>, w: World)
    ensures forall a :: a in ActionsFor(ledgers, w.(fetched := map[])) && a.Handled? ==> a.events == []
  {
    if ledgers != [] {
      DeafPlan(ledgers[1..], w);
    }
  }

  /** One query asks for no more events of a ledger than this. */
  const EVENT_QUERY_LIMIT := 100

  /** The queries that answer tell the truth, as far as one query goes. */
  ghost predicate Honest(w: World, truth: int -> seq<nat>) {
    forall l :: l in w.fetched ==> w.fetched[l] == truth(l)[..Min(EVENT_QUERY_LIMIT, |truth(l)|)]
  }

  /** The query got all events of the ledger, or there was nothing to get. */
  predicate GotAll(w: World, truth: int -> seq<nat>, ledger: int) {
    truth(ledger) == [] || (ledger in w.fetched && |truth(ledger)| <= EVENT_QUERY_LIMIT)
  }

  lemma {:induction false} HandledInFullIff(ledgers: seq<int>, w: World, truth: int -> seq<nat>, ledger: int)
    requires Honest(w, truth) && ledger in ledgers
    ensures Handled(ledger, truth(ledger)) in ActionsFor(ledgers, w) <==> GotAll(w, truth, ledger)
  {
    var plan := ActionsFor(ledgers, w);
    var handled := Handled(ledger, EventsOf(w, ledger));
    assert EventsOf(w, ledger) == truth(ledger) <==> GotAll(w, truth, ledger);
    var k :| 0 <= k < |ledgers| && ledgers[k] == ledger;
    PlanAt(ledgers, w, k);
    assert handled in plan;
    OneHandling(ledgers, w, Handled(ledger, truth(ledger)));
  }

  lemma {:induction false} OneHandling(ledgers: seq<int>, w: World, action: Action)
    requires action.Handled?
    ensures action in ActionsFor(ledgers, w) ==> action.events == EventsOf(w, action.ledger)
  {
    if ledgers != [] {
      OneHandling(ledgers[1..], w, action);
    }
  }

  /**
   A successful attempt has handled all events of all ledgers it saved exactly when every one of
   them got all its events from its query, or had none.  A failed query, and the events of a
   ledger beyond the limit of one query, are passed over: the cursor is saved all the same.
   */
  lemma {:induction false} NothingPassedOverIff(current: int, depth: nat, w: World, truth: int -> seq<nat>)
    requires Succeeds(current, depth, w) && Honest(w, truth)
    ensures var saved, log := SavedLedgers(Performed(current, depth, w)), Performed(current, depth, w);
            (forall l :: l in saved ==> Handled(l, truth(l)) in log) <==>
            (forall l :: l in saved ==> truth(l) == [] || (l in w.fetched && |truth(l)| <= 100))
  {
    var ledgers := MissingSequences(current, depth, w.answers) + [current];
    SavedByPlan(ledgers, w);
    hide ActionsFor, SavedLedgers, MissingSequences;
    forall l | l in ledgers
      ensures Handled(l, truth(l)) in Performed(current, depth, w) <==> GotAll(w, truth, l)
    {
      HandledInFullIff(ledgers, w, truth, l);
    }
  }

  /**
   Whether an attempt succeeds, and which ledgers it saves, does not depend on the event queries:
   a query that fails counts as an empty ledger.
   */
  lemma FailedQueriesGoUnnoticed(current: int, depth: nat, w: World)
    ensures var deaf := w.(fetched := map[]);
            && (Succeeds(current, depth, w) <==> Succeeds(current, depth, deaf))
            && (Succeeds(current, depth, w) ==>
                  && SavedLedgers(Performed(current, depth, deaf)) == SavedLedgers(Performed(current, depth, w))
                  && forall a :: a in Performed(current, depth, deaf) && a.Handled? ==> a.events == [])
  {
    var deaf := w.(fetched := map[]);
    var ledgers := MissingSequences(current, depth, w.answers) + [current];
    PlanSpec(ledgers, w);
    PlanSpec(ledgers, deaf);
    SavedByPlan(ledgers, w);
    SavedByPlan(ledgers, deaf);
    DeafPlan(ledgers, w);
  }

  /** The two phases of an attempt: first the missing ledgers, then the current one. */
  lemma SplitAttempt(current: int, depth: nat, w: World, missing: seq<int>, cursor: Option<int>)
    requires missing == MissingSequences(current, depth, w.answers)
    ensures var first, second := ActionsFor(missing, w), ActionsFor([current], w);
            && first[..|first|] == first && (missing == [] ==> first == [])
            && CursorAfter(cursor, []) == cursor
            && if w.steps < |first| then
                 !Succeeds(current, depth, w) && Performed(current, depth, w) == first[..w.steps]
               else
                 var rest := second[..Min(w.steps - |first|, |second|)];
                 && (Succeeds(current, depth, w) <==> |second| <= w.steps - |first|)
                 && Performed(current, depth, w) == first + rest
                 && CursorAfter(cursor, first + rest) == CursorAfter(CursorAfter(cursor, first), rest)
  {
    hide CursorAfter;
    PlanConcat(missing, [current], w);
    PlanLength(missing, w);
    CursorOfPrefix(cursor, [], w, 0);
    var first, second := ActionsFor(missing, w), ActionsFor([current], w);
    if |first| <= w.steps {
      CursorConcat(cursor, first, second[..Min(w.steps - |first|, |second|)]);
    }
  }

  lemma LastAttemptStep(current: int, depth: nat, max: nat, worlds: nat -> World, attempt: nat)
    requires attempt < max
    ensures LastAttempt(current, depth, max, worlds, attempt) ==
            if Succeeds(current, depth, worlds(attempt)) || !worlds(attempt).rpcError then attempt
            else LastAttempt(current, depth, max, worlds, attempt + 1)
  {}

  lemma DoneStep(current: int, depth: nat, worlds: nat -> World, n: nat)
    ensures Done(current, depth, worlds, 0) == []
    ensures Done(current, depth, worlds, n + 1) ==
            Done(current, depth, worlds, n) + Performed(current, depth, worlds(n))
  {}

  // ----- The poller -----

  class Poller {
    var cursor: Option<int>
    ghost var log: seq<Action>

    constructor (cursor: Option<int>)
      ensures this.cursor == cursor && log == []
    {
      this.cursor, log := cursor, [];
    }

    /** Handles the ledgers one after the other until the world throws; `used` counts its steps. */
    method Recover(ledgers: seq<int>, w: World, used: nat) returns (threw: bool, steps: nat)
      requires used <= w.steps
      modifies this
      ensures threw <==> w.steps - used < |ActionsFor(ledgers, w)|
      ensures steps == Min(w.steps, used + |ActionsFor(ledgers, w)|)
      ensures log == old(log) + ActionsFor(ledgers, w)[..steps - used]
      ensures cursor == CursorAfter(old(cursor), ActionsFor(ledgers, w)[..steps - used])
    {
      hide ActionsFor, CursorAfter;
      var plan := ActionsFor(ledgers, w);
      PlanLength(ledgers, w);
      CursorOfPrefix(cursor, ledgers, w, 0);
      var i := 0;
      steps := used;
      while i < |ledgers|
        invariant 0 <= i <= |ledgers| && steps == used + 2 * i <= w.steps
        invariant log == old(log) + plan[..2 * i]
        invariant cursor == CursorAfter(old(cursor), plan[..2 * i])
      {
        PlanAt(ledgers, w, i);
        PrefixGrows(old(cursor), plan, 2 * i);
        PrefixGrows(old(cursor), plan, 2 * i + 1);
        if steps == w.steps {
          return true, steps;
        }
        log := log + [Handled(ledgers[i], EventsOf(w, ledgers[i]))];
        steps := steps + 1;
        if steps == w.steps {
          return true, steps;
        }
        log := log + [Saved(ledgers[i])];
        cursor := Some(ledgers[i]);
        steps := steps + 1;
        i := i + 1;
      }
      threw := false;
    }

    /** One pass through the body of the retry loop; it throws exactly when the attempt does not succeed. */
    method Attempt(current: int, depth: nat, w: World) returns (threw: bool)
      modifies this
      ensures threw <==> !Succeeds(current, depth, w)
      ensures log == old(log) + Performed(current, depth, w)
      ensures cursor == CursorAfter(old(cursor), Performed(current, depth, w))
    {
      hide CursorAfter, MissingSequences, ActionsFor, Succeeds, Performed, IsMissing;
      var detected, missing := DetectReorg(current, depth, w.answers);
      var steps := 0;
      threw := false;
      SplitAttempt(current, depth, w, missing, cursor);
      if detected {
        threw, steps := Recover(missing, w, 0);
      }
      if !threw {
        threw, steps := Recover([current], w, steps);
      }
    }

    /**
     At most `max` attempts; another one is made exactly after an RPC error.  On success the cursor
     is the current ledger and the next one is returned.
     */
    method PollWithFaultTolerance(current: int, depth: nat, max: nat, worlds: nat -> World) returns (outcome: Outcome)
      modifies this
      ensures var k := LastAttempt(current, depth, max, worlds, 0);
              && outcome == (if k == max then RetriesExceeded
                             else if Succeeds(current, depth, worlds(k)) then Advanced(current + 1)
                             else Rethrown)
              && log == old(log) + Done(current, depth, worlds, Min(k + 1, max))
      ensures outcome.Advanced? ==> cursor == Some(current)
      ensures InWindow(current, depth, old(cursor), cursor)
    {
      hide Succeeds, Performed, CursorAfter, LastAttempt, Done;
      var attempt := 0;
      DoneStep(current, depth, worlds, 0);
      assert log + [] == log;
      while attempt < max
        invariant attempt <= max
        invariant LastAttempt(current, depth, max, worlds, attempt) == LastAttempt(current, depth, max, worlds, 0)
        invariant log == old(log) + Done(current, depth, worlds, attempt)
        invariant InWindow(current, depth, old(cursor), cursor)
      {
        var w := worlds(attempt);
        AttemptCursorInWindow(current, depth, w, cursor);
        SuccessCursor(current, depth, w, cursor);
        LastAttemptStep(current, depth, max, worlds, attempt);
        DoneStep(current, depth, worlds, attempt);
        var threw := Attempt(current, depth, w);
        attempt := attempt + 1;
        if !threw {
          return Advanced(current + 1);
        }
        if !w.rpcError {
          return Rethrown;
        }
      }
      outcome := RetriesExceeded;
    }
  }

  lemma PlanLength(ledgers: seq<int>, w: World)
    ensures |ActionsFor(ledgers, w)| == 2 * |ledgers|
  {
    PlanSpec(ledgers, w);
  }

  lemma PrefixGrows(cursor: Option<int>, plan: seq<Action>, n: nat)
    requires n < |plan|
    ensures plan[..n + 1] == plan[..n] + [plan[n]]
    ensures CursorAfter(cursor, plan[..n + 1]) ==
            if plan[n].Saved? then Some(plan[n].ledger) else CursorAfter(cursor, plan[..n])
  {
    assert plan[..n + 1][..n] == plan[..n];
  }
}
