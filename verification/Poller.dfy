/**
 The poll loop of the standalone indexer (indexer/src/poller.ts).

 A round is played against a script of RPC responses: rate limits are waited out and the same page
 asked for again, any other failure ends the round, and a script that runs out is a process that
 was stopped at that point, after which it may be restarted.  Nothing is assumed about what the
 responses contain.
 */
module Poller {
  import opened Common
  import opened LedgerContinuity

  /** An event without a ledger has ledger 0. */
  datatype Event = Event(id: nat, ledger: nat)

  /** An absent token or cursor is the empty string. */
  datatype Response =
    | RateLimited
    | Failure
    | Page(events: seq<Event>, pagingToken: string, cursor: string)

  datatype Request = AfterCursor(cursor: string) | SinceLedger(ledger: int) | Unbounded

  /** A saved cursor, the ledger saved with it, and how many events had been processed by then. */
  datatype Save = Save(cursor: string, ledger: Option<int>, processed: nat)

  /** What one store holds: the SQLite row or the file.  A store without a cursor counts as empty. */
  datatype Slot = Slot(cursor: string, ledger: Option<int>)

  datatype Stores = Stores(sqlite: Slot, file: Slot)

  /** Which of the two writes of a save succeed.  A failed SQLite write is swallowed, a failed file write thrown. */
  datatype Disk = Disk(sqliteOk: bool, fileOk: bool)

  datatype PollState = PollState(
    stores: Stores,
    cursor: string,
    last: Option<int>,
    pendingResync: Option<int>,
    processed: seq<Event>,
    saves: seq<Save>,
    requests: seq<Request>)

  datatype Ending = Finished | Reorged | Failed | Interrupted

  /** One call of the loop: the lock was taken by another process, or the round was played. */
  datatype Round = Contended | Played(latest: int, script: seq<Response>, disk: Disk)

  // ----- Grouping a page by ledger -----

  datatype Group = Group(ledger: nat, events: seq<Event>)

  function AddToGroup(groups: seq<Group>, e: Event): seq<Group> {
    if groups == [] then [Group(e.ledger, [e])]
    else if groups[0].ledger == e.ledger then [Group(e.ledger, groups[0].events + [e])] + groups[1..]
    else [groups[0]] + AddToGroup(groups[1..], e)
  }

  /** The groups in the order in which their ledgers first appear. */
  function GroupByLedger(events: seq<Event>): seq<Group> {
    if events == [] then []
    else AddToGroup(GroupByLedger(events[..|events| - 1]), events[|events| - 1])
  }

  function Flatten(groups: seq<Group>): seq<Event> {
    if groups == [] then [] else groups[0].events + Flatten(groups[1..])
  }

  /** Each group is not empty and holds events of its own ledger only. */
  ghost predicate Homogeneous(groups: seq<Group>) {
    forall g :: g in groups ==> g.events != [] && forall e :: e in g.events ==> e.ledger == g.ledger
  }

  lemma {:induction false} AddToGroupSpec(groups: seq<Group>, e: Event)
    requires Homogeneous(groups)
    ensures Homogeneous(AddToGroup(groups, e))
    ensures multiset(Flatten(AddToGroup(groups, e))) == multiset(Flatten(groups)) + multiset{e}
  {
    if groups != [] {
      assert Homogeneous(groups[1..]);
      if groups[0].ledger == e.ledger {
        var g := Group(e.ledger, groups[0].events + [e]);
        assert AddToGroup(groups, e)[1..] == groups[1..];
        assert forall x :: x in g.events ==> x in groups[0].events || x == e;
      } else {
        AddToGroupSpec(groups[1..], e);
        assert AddToGroup(groups, e)[1..] == AddToGroup(groups[1..], e);
      }
    }
  }

  lemma EmptyIsHomogeneous()
    ensures Homogeneous([]) && Flatten([]) == []
  {}

  /** Grouping loses no event of the page and invents none. */
  lemma {:induction false} GroupingKeepsEvents(events: seq<Event>)
    ensures Homogeneous(GroupByLedger(events))
    ensures multiset(Flatten(GroupByLedger(events))) == multiset(events)
  {
    hide AddToGroup, Homogeneous;
    if events == [] {
      EmptyIsHomogeneous();
    } else {
      var init, e := events[..|events| - 1], events[|events| - 1];
      GroupingKeepsEvents(init);
      AddToGroupSpec(GroupByLedger(init), e);
      assert events == init + [e];
    }
  }

  /** The events of one ledger, in their order on the page. */
  function OfLedger(events: seq<Event>, ledger: nat): seq<Event> {
    if events == [] then []
    else
      OfLedger(events[..|events| - 1], ledger)
      + if events[|events| - 1].ledger == ledger then [events[|events| - 1]] else []
  }

  /** The ledgers of a page, each once, in the order in which they first appear. */
  function LedgersSeen(events: seq<Event>): seq<nat> {
    if events == [] then []
    else
      var seen, last := LedgersSeen(events[..|events| - 1]), events[|events| - 1].ledger;
      if last in seen then seen else seen + [last]
  }

  lemma {:induction false} AddToGroupIs(groups: seq<Group>, e: Event)
    requires forall i, j :: 0 <= i < j < |groups| ==> groups[i].ledger != groups[j].ledger
    ensures
      var added := AddToGroup(groups, e);
      if exists i :: 0 <= i < |groups| && groups[i].ledger == e.ledger then
        && |added| == |groups|
        && forall i :: 0 <= i < |groups| ==>
             added[i] == if groups[i].ledger == e.ledger then Group(e.ledger, groups[i].events + [e]) else groups[i]
      else added == groups + [Group(e.ledger, [e])]
  {
    if groups != [] && groups[0].ledger != e.ledger {
      var rest := groups[1..];
      assert forall i :: 1 <= i < |groups| ==> groups[i] == rest[i - 1];
      AddToGroupIs(rest, e);
      assert AddToGroup(groups, e) == [groups[0]] + AddToGroup(rest, e);
      if i :| 0 <= i < |groups| && groups[i].ledger == e.ledger {
        assert rest[i - 1].ledger == e.ledger;
      }
    }
  }

  /** One group for each ledger of the list, in that order, holding all its events in their order. */
  ghost predicate GroupsFit(events: seq<Event>, groups: seq<Group>, seen: seq<nat>) {
    && |groups| == |seen|
    && (forall i :: 0 <= i < |seen| ==> groups[i].ledger == seen[i] && groups[i].events == OfLedger(events, seen[i]))
    && (forall i, j :: 0 <= i < j < |seen| ==> seen[i] != seen[j])
    && (forall e :: e in events ==> e.ledger in seen)
  }

  /** A page is grouped into one group for each of its ledgers, in the order in which they first appear. */
  lemma {:induction false} GroupsAre(events: seq<Event>)
    ensures GroupsFit(events, GroupByLedger(events), LedgersSeen(events))
  {
    if events != [] {
      var init, e := events[..|events| - 1], events[|events| - 1];
      GroupsAre(init);
      assert events == init + [e];
      if e.ledger in LedgersSeen(init) {
        KnownLedger(init, e, GroupByLedger(init), LedgersSeen(init));
      } else {
        NewLedger(init, e, GroupByLedger(init), LedgersSeen(init));
      }
    }
  }

  lemma OfLedgerSnoc(events: seq<Event>, e: Event, ledger: nat)
    ensures OfLedger(events + [e], ledger) == OfLedger(events, ledger) + if e.ledger == ledger then [e] else []
  {
    assert (events + [e])[..|events|] == events;
  }

  lemma {:induction false} KnownLedger(events: seq<Event>, e: Event, groups: seq<Group>, seen: seq<nat>)
    requires GroupsFit(events, groups, seen) && e.ledger in seen
    ensures GroupsFit(events + [e], AddToGroup(groups, e), seen)
  {
    AddToGroupIs(groups, e);
    var k :| 0 <= k < |seen| && seen[k] == e.ledger;
    assert groups[k].ledger == e.ledger;
    hide AddToGroup, OfLedger;
    var added := AddToGroup(groups, e);
    forall i | 0 <= i < |seen|
      ensures added[i].ledger == seen[i] && added[i].events == OfLedger(events + [e], seen[i])
    {
      OfLedgerSnoc(events, e, seen[i]);
    }
  }

  lemma {:induction false} NewLedger(events: seq<Event>, e: Event, groups: seq<Group>, seen: seq<nat>)
    requires GroupsFit(events, groups, seen) && e.ledger !in seen
    ensures GroupsFit(events + [e], AddToGroup(groups, e), seen + [e.ledger])
  {
    NewGroup(groups, seen, e);
    NoneOfLedger(events, e.ledger);
    hide AddToGroup, OfLedger;
    var added, more, all := groups + [Group(e.ledger, [e])], seen + [e.ledger], events + [e];
    forall i | 0 <= i < |more| ensures added[i].ledger == more[i] && added[i].events == OfLedger(all, more[i]) {
      OfLedgerSnoc(events, e, more[i]);
    }
    forall x | x in all ensures x.ledger in more {
      assert x in events || x == e;
    }
  }

  lemma {:induction false} NewGroup(groups: seq<Group>, seen: seq<nat>, e: Event)
    requires |groups| == |seen| && e.ledger !in seen
    requires forall i :: 0 <= i < |seen| ==> groups[i].ledger == seen[i]
    requires forall i, j :: 0 <= i < j < |seen| ==> seen[i] != seen[j]
    ensures AddToGroup(groups, e) == groups + [Group(e.ledger, [e])]
  {
    AddToGroupIs(groups, e);
    forall i | 0 <= i < |groups| ensures groups[i].ledger != e.ledger {
      assert seen[i] in seen;
    }
  }

  lemma {:induction false} NoneOfLedger(events: seq<Event>, ledger: nat)
    requires forall e :: e in events ==> e.ledger != ledger
    ensures OfLedger(events, ledger) == []
  {
    if events != [] {
      NoneOfLedger(events[..|events| - 1], ledger);
    }
  }

  predicate SortedByLedger(events: seq<Event>) {
    forall i, j :: 0 <= i < j < |events| ==> events[i].ledger <= events[j].ledger
  }

  ghost predicate GroupsAscend(groups: seq<Group>) {
    forall i, j :: 0 <= i < j < |groups| ==> groups[i].ledger < groups[j].ledger
  }

  lemma {:induction false} AddMissing(groups: seq<Group>, e: Event)
    requires forall g :: g in groups ==> g.ledger != e.ledger
    ensures AddToGroup(groups, e) == groups + [Group(e.ledger, [e])]
  {
    if groups != [] {
      assert groups[0] in groups;
      AddMissing(groups[1..], e);
    }
  }

  lemma {:induction false} AddToLast(front: seq<Group>, g: Group, e: Event)
    requires forall f :: f in front ==> f.ledger != e.ledger
    requires g.ledger == e.ledger
    ensures AddToGroup(front + [g], e) == front + [Group(e.ledger, g.events + [e])]
  {
    if front != [] {
      assert front[0] in front;
      assert (front + [g])[1..] == front[1..] + [g];
      AddToLast(front[1..], g, e);
    }
  }

  lemma {:induction false} FlattenConcat(a: seq<Group>, b: seq<Group>)
    ensures Flatten(a + b) == Flatten(a) + Flatten(b)
  {
    if a == [] {
      assert a + b == b;
    } else {
      assert (a + b)[1..] == a[1..] + b;
      FlattenConcat(a[1..], b);
    }
  }

  lemma FlattenOne(g: Group)
    ensures Flatten([g]) == g.events
  {
    assert Flatten([g]) == g.events + Flatten([]);
  }

  lemma AddAtEnd(groups: seq<Group>, e: Event)
    requires GroupsAscend(groups) && (groups != [] ==> groups[|groups| - 1].ledger <= e.ledger)
    ensures GroupsAscend(AddToGroup(groups, e))
    ensures AddToGroup(groups, e) != [] && AddToGroup(groups, e)[|AddToGroup(groups, e)| - 1].ledger == e.ledger
    ensures Flatten(AddToGroup(groups, e)) == Flatten(groups) + [e]
  {
    hide AddToGroup, Flatten;
    if groups != [] && groups[|groups| - 1].ledger == e.ledger {
      var front, g := groups[..|groups| - 1], groups[|groups| - 1];
      assert groups == front + [g];
      AddToLast(front, g, e);
      FlattenConcat(front, [g]);
      FlattenConcat(front, [Group(e.ledger, g.events + [e])]);
      FlattenOne(g);
      FlattenOne(Group(e.ledger, g.events + [e]));
    } else {
      AddMissing(groups, e);
      FlattenConcat(groups, [Group(e.ledger, [e])]);
      FlattenOne(Group(e.ledger, [e]));
    }
  }

  /** A page in ledger order is processed in exactly its own order. */
  lemma {:induction false} SortedPageKeepsOrder(events: seq<Event>)
    requires SortedByLedger(events)
    ensures Flatten(GroupByLedger(events)) == events
    ensures GroupsAscend(GroupByLedger(events))
    ensures events != [] ==>
              var groups := GroupByLedger(events);
              groups != [] && groups[|groups| - 1].ledger == events[|events| - 1].ledger
  {
    hide AddToGroup;
    if events != [] {
      var init, e := events[..|events| - 1], events[|events| - 1];
      SortedPageKeepsOrder(init);
      AddAtEnd(GroupByLedger(init), e);
      assert events == init + [e];
    }
  }

  // ----- One page -----

  datatype PageResult = PageResult(state: PollState, reorg: bool)

  predicate MovesBack(last: Option<int>, ledger: nat) {
    ledger > 0 && Classify(ledger, last).Reorg?
  }

  function ProcessGroup(s: PollState, g: Group): PollState {
    s.(processed := s.processed + g.events, last := if g.ledger > 0 then Some(g.ledger) else s.last)
  }

  function ProcessGroups(s: PollState, groups: seq<Group>): PageResult
    decreases |groups|
  {
    if groups == [] then PageResult(s, false)
    else if MovesBack(s.last, groups[0].ledger) then
      PageResult(s.(pendingResync := Some(ResyncStart(s.last.value))), true)
    else ProcessGroups(ProcessGroup(s, groups[0]), groups[1..])
  }

  // ----- One round -----

  datatype RoundResult = RoundResult(state: PollState, ending: Ending)

  function NextRequest(token: string, startLedger: int): Request {
    if token != "" then AfterCursor(token) else if startLedger != 0 then SinceLedger(startLedger) else Unbounded
  }

  /**
   The slot that a reader gets: the SQLite row unless it has no cursor, else the file.  The reader of
   the stored ledger, `getLastKnownLedger`, is defined nowhere in the repository; the ledger is taken
   from the slot that the cursor is read from.
   */
  function Loaded(stores: Stores): Slot {
    if stores.sqlite.cursor != "" then stores.sqlite else stores.file
  }

  /** A save without a ledger writes the stored one again. */
  function SaveCursor(stores: Stores, cursor: string, ledger: Option<int>, disk: Disk): Stores {
    var slot := Slot(cursor, if ledger.Some? then ledger else Loaded(stores).ledger);
    Stores(if disk.sqliteOk then slot else stores.sqlite, if disk.fileOk then slot else stores.file)
  }

  function Finish(s: PollState, cursor: string, disk: Disk): RoundResult {
    var moved := s.(cursor := cursor, stores := SaveCursor(s.stores, cursor, s.last, disk));
    if disk.fileOk then RoundResult(moved.(saves := s.saves + [Save(cursor, s.last, |s.processed|)]), Finished)
    else RoundResult(moved, Failed)
  }

  function PlayPages(s: PollState, token: string, startLedger: int, script: seq<Response>, disk: Disk): RoundResult
    decreases |script|
  {
    if script == [] then RoundResult(s, Interrupted)
    else
      var asked := s.(requests := s.requests + [NextRequest(token, startLedger)]);
      match script[0]
      case RateLimited => PlayPages(asked, token, startLedger, script[1..], disk)
      case Failure => RoundResult(asked, Failed)
      case Page(events, pagingToken, cursor) =>
        var page := ProcessGroups(asked, GroupByLedger(events));
        if page.reorg then RoundResult(page.state, Reorged)
        else if pagingToken != "" && events != [] then
          PlayPages(page.state, pagingToken, startLedger, script[1..], disk)
        else Finish(page.state, if cursor != "" then cursor else pagingToken, disk)
  }

  function BeginRound(s: PollState): PollState {
    if s.pendingResync.Some? then s.(pendingResync := None, cursor := "") else s
  }

  function PlayRound(s: PollState, latest: int, script: seq<Response>, disk: Disk): RoundResult {
    var begun := BeginRound(s);
    PlayPages(begun, begun.cursor, if s.pendingResync.Some? then s.pendingResync.value else latest, script, disk)
  }

  // ----- What a round is measured by -----

  /** The higher of `last` and the positive ledgers of the events. */
  function Highest(last: Option<int>, events: seq<Event>): Option<int>
    decreases |events|
  {
    if events == [] then last
    else if events[0].ledger == 0 then Highest(last, events[1..])
    else if last.Some? && events[0].ledger < last.value then Highest(last, events[1..])
    else Highest(Some(events[0].ledger), events[1..])
  }

  /** No event with a ledger comes before one with a higher ledger, nor lies below `last`. */
  ghost predicate Ascending(last: Option<int>, events: seq<Event>) {
    && (forall i :: 0 <= i < |events| && events[i].ledger > 0 && last.Some? ==> last.value <= events[i].ledger)
    && forall i, j :: 0 <= i < j < |events| && events[i].ledger > 0 && events[j].ledger > 0 ==>
                        events[i].ledger <= events[j].ledger
  }

  /** Every event of every page up to and including the last page of the round, ledger by ledger. */
  function Delivered(script: seq<Response>): seq<Event>
    decreases |script|
  {
    if script == [] then []
    else
      match script[0]
      case RateLimited => Delivered(script[1..])
      case Failure => []
      case Page(events, pagingToken, _) =>
        Flatten(GroupByLedger(events)) +
        if pagingToken != "" && events != [] then Delivered(script[1..]) else []
  }

  /** The same events page by page, as they arrived. */
  function Received(script: seq<Response>): seq<Event>
    decreases |script|
  {
    if script == [] then []
    else
      match script[0]
      case RateLimited => Received(script[1..])
      case Failure => []
      case Page(events, pagingToken, _) =>
        events + if pagingToken != "" && events != [] then Received(script[1..]) else []
  }

  /** The script reaches the last page of the round. */
  predicate Completes(script: seq<Response>)
    decreases |script|
  {
    script != [] &&
    match script[0]
    case RateLimited => Completes(script[1..])
    case Failure => false
    case Page(events, pagingToken, _) => if pagingToken != "" && events != [] then Completes(script[1..]) else true
  }

  /** The cursor that the last page leaves behind. */
  function FinalCursor(script: seq<Response>): string
    requires Completes(script)
    decreases |script|
  {
    match script[0]
    case RateLimited => FinalCursor(script[1..])
    case Page(events, pagingToken, cursor) =>
      if pagingToken != "" && events != [] then FinalCursor(script[1..])
      else if cursor != "" then cursor
      else pagingToken
  }

  lemma {:induction false} DeliveredIsReceived(script: seq<Response>)
    ensures multiset(Delivered(script)) == multiset(Received(script))
    decreases |script|
  {
    if script != [] {
      DeliveredIsReceived(script[1..]);
      if script[0].Page? {
        GroupingKeepsEvents(script[0].events);
      }
    }
  }

  lemma {:induction false} HighestIsMaximum(last: Option<int>, events: seq<Event>)
    ensures last.Some? ==> Highest(last, events).Some? && last.value <= Highest(last, events).value
    ensures forall e :: e in events && e.ledger > 0 ==>
              Highest(last, events).Some? && e.ledger <= Highest(last, events).value
    ensures Highest(last, events) == last ||
            exists e :: e in events && e.ledger > 0 && Highest(last, events) == Some(e.ledger)
    decreases |events|
  {
    if events != [] {
      var e := events[0];
      var raised := if e.ledger == 0 || (last.Some? && e.ledger < last.value) then last else Some(e.ledger);
      HighestIsMaximum(raised, events[1..]);
      assert Highest(last, events) == Highest(raised, events[1..]);
      assert forall x :: x in events <==> x == e || x in events[1..];
    }
  }

  lemma {:induction false} HighestConcat(last: Option<int>, a: seq<Event>, b: seq<Event>)
    ensures Highest(last, a + b) == Highest(Highest(last, a), b)
    decreases |a|
  {
    if a == [] {
      assert a + b == b;
    } else {
      assert (a + b)[0] == a[0] && (a + b)[1..] == a[1..] + b;
      var raised := if a[0].ledger == 0 || (last.Some? && a[0].ledger < last.value) then last else Some(a[0].ledger);
      HighestConcat(raised, a[1..], b);
    }
  }

  lemma AscendingSplit(last: Option<int>, a: seq<Event>, b: seq<Event>)
    requires Ascending(last, a + b)
    ensures Ascending(last, a) && Ascending(Highest(last, a), b)
  {
    HighestIsMaximum(last, a);
    var ab := a + b;
    assert forall i :: 0 <= i < |a| ==> ab[i] == a[i];
    forall j | 0 <= j < |b| && b[j].ledger > 0 && Highest(last, a).Some? ensures Highest(last, a).value <= b[j].ledger {
      assert ab[|a| + j] == b[j];
      if Highest(last, a) != last {
        var e :| e in a && e.ledger > 0 && Highest(last, a) == Some(e.ledger);
        var i :| 0 <= i < |a| && a[i] == e;
        assert ab[i].ledger <= ab[|a| + j].ledger;
      }
    }
    forall i, j | 0 <= i < j < |b| && b[i].ledger > 0 && b[j].ledger > 0 ensures b[i].ledger <= b[j].ledger {
      assert ab[|a| + i].ledger <= ab[|a| + j].ledger;
    }
  }

  lemma AscendingJoin(last: Option<int>, a: seq<Event>, b: seq<Event>)
    requires Ascending(last, a) && Ascending(Highest(last, a), b)
    ensures Ascending(last, a + b)
  {
    HighestIsMaximum(last, a);
    var ab := a + b;
    assert forall i :: 0 <= i < |ab| ==> ab[i] == if i < |a| then a[i] else b[i - |a|];
    forall i, j | 0 <= i < j < |ab| && ab[i].ledger > 0 && ab[j].ledger > 0 ensures ab[i].ledger <= ab[j].ledger {
      assert i < |a| ==> a[i] in a;
    }
  }

  lemma AscendingConcat(last: Option<int>, a: seq<Event>, b: seq<Event>)
    ensures Ascending(last, a + b) <==> Ascending(last, a) && Ascending(Highest(last, a), b)
  {
    if Ascending(last, a + b) {
      AscendingSplit(last, a, b);
    }
    if Ascending(last, a) && Ascending(Highest(last, a), b) {
      AscendingJoin(last, a, b);
    }
  }

  lemma {:induction false} GroupAscends(last: Option<int>, g: Group)
    requires Homogeneous([g])
    ensures Ascending(last, g.events) <==> !MovesBack(last, g.ledger)
    ensures !MovesBack(last, g.ledger) ==> Highest(last, g.events) == if g.ledger > 0 then Some(g.ledger) else last
  {
    assert g in [g];
    assert g.events[0] in g.events;
    HighestIsMaximum(last, g.events);
    assert forall i :: 0 <= i < |g.events| ==> g.events[i] in g.events;
  }

  // ----- What a round does -----

  /** From `before` to `after` the round processed `events`, in ascending order, and moved `last` to the highest. */
  ghost predicate Progress(before: PollState, after: PollState, events: seq<Event>) {
    && after.processed == before.processed + events
    && Ascending(before.last, events)
    && after.last == Highest(before.last, events)
  }

  /** The round stopped in front of an event that lies behind the last processed ledger. */
  ghost predicate StoppedBefore(after: PollState, events: seq<Event>, all: seq<Event>) {
    && |events| < |all| && events == all[..|events|]
    && after.last.Some? && 0 < all[|events|].ledger < after.last.value
    && after.pendingResync == Some(ResyncStart(after.last.value))
  }

  ghost predicate PageOutcome(s: PollState, r: PageResult, all: seq<Event>, done: seq<Event>) {
    && Progress(s, r.state, done)
    && r.state.saves == s.saves && r.state.cursor == s.cursor && r.state.stores == s.stores
    && (r.reorg <==> !Ascending(s.last, all))
    && (r.reorg ==> StoppedBefore(r.state, done, all))
    && (!r.reorg ==> done == all && r.state.pendingResync == s.pendingResync)
  }

  lemma ProgressJoin(a: PollState, b: PollState, c: PollState, first: seq<Event>, second: seq<Event>)
    requires Progress(a, b, first) && Progress(b, c, second)
    ensures Progress(a, c, first + second)
  {
    HighestConcat(a.last, first, second);
    AscendingConcat(a.last, first, second);
    assert a.processed + (first + second) == a.processed + first + second;
  }

  lemma StoppedJoin(after: PollState, first: seq<Event>, second: seq<Event>, all: seq<Event>)
    requires StoppedBefore(after, second, all)
    ensures StoppedBefore(after, first + second, first + all)
  {
    assert (first + all)[|first + second|] == all[|second|];
    assert (first + all)[..|first + second|] == first + all[..|second|];
  }

  lemma {:induction false} PageProgress(s: PollState, groups: seq<Group>) returns (done: seq<Event>)
    requires Homogeneous(groups)
    ensures PageOutcome(s, ProcessGroups(s, groups), Flatten(groups), done)
    decreases |groups|
  {
    done := [];
    if groups == [] {
      assert s.processed + [] == s.processed;
    } else {
      var g := groups[0];
      var next := ProcessGroup(s, g);
      assert Homogeneous([g]) && Homogeneous(groups[1..]);
      GroupAscends(s.last, g);
      AscendingConcat(s.last, g.events, Flatten(groups[1..]));
      if MovesBack(s.last, g.ledger) {
        assert g.events[0] in g.events;
        assert Flatten(groups)[0] == g.events[0];
      } else {
        var rest := PageProgress(next, groups[1..]);
        done := g.events + rest;
        assert Progress(s, next, g.events);
        var r := ProcessGroups(next, groups[1..]);
        ProgressJoin(s, next, r.state, g.events, rest);
        if r.reorg {
          StoppedJoin(r.state, g.events, rest, Flatten(groups[1..]));
        }
      }
    }
  }

  /**
   What one round does, whatever the responses are.  It processes a prefix of what was delivered,
   stops exactly when that is not in ascending order, and moves and saves the cursor exactly when
   the last page was reached and everything delivered was processed.
   */
  ghost predicate RoundOutcome(s: PollState, r: RoundResult, script: seq<Response>, disk: Disk, done: seq<Event>) {
    && Progress(s, r.state, done)
    && (r.ending.Reorged? <==> !Ascending(s.last, Delivered(script)))
    && (r.ending.Reorged? ==> StoppedBefore(r.state, done, Delivered(script)))
    && (!r.ending.Reorged? ==> done == Delivered(script) && r.state.pendingResync == s.pendingResync)
    && (r.ending.Finished? <==> !r.ending.Reorged? && Completes(script) && disk.fileOk)
    && (!r.ending.Reorged? && Completes(script) ==> r.state.cursor == FinalCursor(script))
    && (r.ending.Reorged? || !Completes(script) ==> r.state.cursor == s.cursor)
    && r.state.stores ==
         (if r.ending.Reorged? || !Completes(script) then s.stores
          else SaveCursor(s.stores, r.state.cursor, r.state.last, disk))
    && r.state.saves ==
         s.saves + (if r.ending.Finished? then [Save(r.state.cursor, r.state.last, |r.state.processed|)] else [])
  }

  lemma LaterPages(s: PollState, mid: PollState, r: RoundResult, page: seq<Event>, script: seq<Response>, disk: Disk,
                   rest: seq<Event>)
    requires Progress(s, mid, page) && mid.saves == s.saves && mid.pendingResync == s.pendingResync
    requires mid.cursor == s.cursor && mid.stores == s.stores
    requires script != [] && RoundOutcome(mid, r, script[1..], disk, rest)
    requires Delivered(script) == page + Delivered(script[1..]) && SameEnd(script, script[1..])
    ensures RoundOutcome(s, r, script, disk, page + rest)
  {
    hide Ascending, Delivered, Highest, Completes, FinalCursor;
    ProgressJoin(s, mid, r.state, page, rest);
    AscendingConcat(s.last, page, Delivered(script[1..]));
    if r.ending.Reorged? {
      StoppedJoin(r.state, page, rest, Delivered(script[1..]));
    }
  }

  ghost predicate SameEnd(a: seq<Response>, b: seq<Response>) {
    && (Completes(a) <==> Completes(b))
    && (Completes(a) ==> FinalCursor(a) == FinalCursor(b))
  }

  /** The round ends on this page, because a re-org stops it or because it is the last one. */
  lemma PageEndsRound(s: PollState, r: RoundResult, page: PageResult, flat: seq<Event>, script: seq<Response>,
                      disk: Disk, done: seq<Event>, later: seq<Event>)
    requires PageOutcome(s, page, flat, done) && Delivered(script) == flat + later
    requires if page.reorg then r == RoundResult(page.state, Reorged)
             else later == [] && Completes(script) && r == Finish(page.state, FinalCursor(script), disk)
    ensures RoundOutcome(s, r, script, disk, done)
  {
    hide Ascending, Delivered, Highest, Completes, FinalCursor;
    AscendingConcat(s.last, flat, later);
    assert later == [] ==> flat + later == flat;
    assert s.saves + [] == s.saves;
    if page.reorg {
      assert (flat + later)[..|done|] == flat[..|done|];
      assert (flat + later)[|done|] == flat[|done|];
    }
  }

  lemma NothingDelivered(s: PollState, r: RoundResult, script: seq<Response>, disk: Disk)
    requires Delivered(script) == [] && !Completes(script)
    requires r.state.(requests := s.requests) == s && (r.ending.Failed? || r.ending.Interrupted?)
    ensures RoundOutcome(s, r, script, disk, [])
  {
    assert s.processed + [] == s.processed && s.saves + [] == s.saves;
  }

  lemma AskingChangesNothing(s: PollState, request: Request, r: RoundResult, script: seq<Response>, disk: Disk,
                             done: seq<Event>)
    requires script != [] && Delivered(script) == Delivered(script[1..]) && SameEnd(script, script[1..])
    requires RoundOutcome(s.(requests := s.requests + [request]), r, script[1..], disk, done)
    ensures RoundOutcome(s, r, script, disk, done)
  {}

  lemma {:induction false} PagesProgress(s: PollState, token: string, startLedger: int, script: seq<Response>,
                                         disk: Disk)
    returns (done: seq<Event>)
    ensures RoundOutcome(s, PlayPages(s, token, startLedger, script, disk), script, disk, done)
    decreases |script|
  {
    hide RoundOutcome, PageOutcome, Finish;
    done := [];
    var result := PlayPages(s, token, startLedger, script, disk);
    if script == [] || script[0].Failure? {
      NothingDelivered(s, result, script, disk);
    } else {
      var asked := s.(requests := s.requests + [NextRequest(token, startLedger)]);
      match script[0]
      case RateLimited =>
        done := PagesProgress(asked, token, startLedger, script[1..], disk);
        AskingChangesNothing(s, NextRequest(token, startLedger), result, script, disk, done);
      case Page(events, pagingToken, cursor) =>
        done := PlayedPage(asked, events);
        var page := ProcessGroups(asked, GroupByLedger(events));
        var flat := Flatten(GroupByLedger(events));
        OutcomeWithout(s, asked, page, flat, done);
        if !page.reorg && pagingToken != "" && events != [] {
          var rest := PagesProgress(page.state, pagingToken, startLedger, script[1..], disk);
          PassedPage(s, page, flat, done);
          LaterPages(s, page.state, result, flat, script, disk, rest);
          done := flat + rest;
        } else {
          var later := if pagingToken != "" && events != [] then Delivered(script[1..]) else [];
          PageEndsRound(s, result, page, flat, script, disk, done, later);
        }
    }
  }

  lemma PlayedPage(s: PollState, events: seq<Event>) returns (done: seq<Event>)
    ensures PageOutcome(s, ProcessGroups(s, GroupByLedger(events)), Flatten(GroupByLedger(events)), done)
  {
    GroupingKeepsEvents(events);
    done := PageProgress(s, GroupByLedger(events));
  }

  lemma OutcomeWithout(s: PollState, asked: PollState, page: PageResult, flat: seq<Event>, done: seq<Event>)
    requires PageOutcome(asked, page, flat, done) && asked == s.(requests := asked.requests)
    ensures PageOutcome(s, page, flat, done)
  {}

  lemma PassedPage(s: PollState, page: PageResult, flat: seq<Event>, done: seq<Event>)
    requires PageOutcome(s, page, flat, done) && !page.reorg
    ensures Progress(s, page.state, flat) && page.state.saves == s.saves
    ensures page.state.pendingResync == s.pendingResync && page.state.cursor == s.cursor
    ensures page.state.stores == s.stores
  {}

  // ----- Main statements about one round -----

  /** The events that a later state has processed beyond an earlier one. */
  function Since(s: PollState, t: PollState): seq<Event> {
    if |s.processed| <= |t.processed| then t.processed[|s.processed|..] else []
  }

  lemma RoundSpec(s: PollState, latest: int, script: seq<Response>, disk: Disk)
    ensures var r := PlayRound(s, latest, script, disk);
            RoundOutcome(BeginRound(s), r, script, disk, Since(s, r.state))
  {
    hide RoundOutcome;
    var r := PlayRound(s, latest, script, disk);
    var done := PagesProgress(BeginRound(s), BeginRound(s).cursor,
                              if s.pendingResync.Some? then s.pendingResync.value else latest, script, disk);
    OutcomeIsProgress(BeginRound(s), r, script, disk, done);
    assert r.state.processed[|s.processed|..] == done;
  }

  lemma OutcomeIsProgress(s: PollState, r: RoundResult, script: seq<Response>, disk: Disk, done: seq<Event>)
    requires RoundOutcome(s, r, script, disk, done)
    ensures r.state.processed == s.processed + done
  {}

  /**
   A cursor is saved exactly in a round that reached its last page, found every event in ascending
   order, and so processed each event of every page; the ledger saved is the highest seen.
   */
  lemma SavesOnlyCompleteRounds(s: PollState, latest: int, script: seq<Response>, disk: Disk)
    ensures var t := PlayRound(s, latest, script, disk).state;
            if disk.fileOk && Completes(script) && Ascending(s.last, Delivered(script)) then
              && multiset(Since(s, t)) == multiset(Received(script))
              && t.saves == s.saves + [Save(FinalCursor(script), Highest(s.last, Since(s, t)), |t.processed|)]
            else t.saves == s.saves
  {
    hide Highest, Ascending, PlayRound, Delivered, Received, Completes, FinalCursor;
    RoundSpec(s, latest, script, disk);
    DeliveredIsReceived(script);
    assert s.saves + [] == s.saves;
  }

  /** The resync point lies at most five ledgers back and never before ledger 1. */
  lemma ReorgRewinds(s: PollState, latest: int, script: seq<Response>, disk: Disk)
    ensures var r := PlayRound(s, latest, script, disk);
            && (r.ending.Reorged? <==> r.state.pendingResync.Some?)
            && (r.ending.Reorged? ==>
                  && r.state.saves == s.saves
                  && r.state.last.Some?
                  && r.state.pendingResync.value == (if r.state.last.value > 6 then r.state.last.value - 5 else 1)
                  && 1 <= r.state.pendingResync.value < r.state.last.value)
  {
    RoundSpec(s, latest, script, disk);
    assert s.saves + [] == s.saves;
  }

  lemma {:induction false} RequestsKept(s: PollState, groups: seq<Group>)
    ensures ProcessGroups(s, groups).state.requests == s.requests
    decreases |groups|
  {
    if groups != [] && !MovesBack(s.last, groups[0].ledger) {
      RequestsKept(ProcessGroup(s, groups[0]), groups[1..]);
    }
  }

  /** Each request after the first repeats a rate-limited one or follows the token of the page before it. */
  ghost predicate Follows(asked: seq<Request>, script: seq<Response>) {
    && |asked| <= |script|
    && forall i :: 0 <= i < |asked| - 1 ==>
         && !script[i].Failure?
         && asked[i + 1] == (if script[i].RateLimited? then asked[i] else AfterCursor(script[i].pagingToken))
  }

  lemma FollowsCons(first: Request, rest: seq<Request>, script: seq<Response>)
    requires script != [] && Follows(rest, script[1..])
    requires rest != [] ==> !script[0].Failure?
    requires rest != [] ==> rest[0] == (if script[0].RateLimited? then first else AfterCursor(script[0].pagingToken))
    ensures Follows([first] + rest, script)
  {
    var asked := [first] + rest;
    forall i | 0 <= i < |asked| - 1
      ensures !script[i].Failure?
      ensures asked[i + 1] == (if script[i].RateLimited? then asked[i] else AfterCursor(script[i].pagingToken))
    {
      if i > 0 {
        assert asked[i] == rest[i - 1] && asked[i + 1] == rest[i] && script[i] == script[1..][i - 1];
      }
    }
  }

  /** No page is skipped: the requests of a round form one chain of paging tokens. */
  lemma {:induction false} RequestsChain(s: PollState, token: string, startLedger: int, script: seq<Response>,
                                         disk: Disk)
    returns (asked: seq<Request>)
    ensures PlayPages(s, token, startLedger, script, disk).state.requests == s.requests + asked
    ensures Follows(asked, script)
    ensures script != [] ==> asked != [] && asked[0] == NextRequest(token, startLedger)
    decreases |script|
  {
    asked := [];
    if script != [] {
      var first := NextRequest(token, startLedger);
      var next := s.(requests := s.requests + [first]);
      var rest: seq<Request> := [];
      match script[0] {
        case RateLimited =>
          rest := RequestsChain(next, token, startLedger, script[1..], disk);
        case Failure =>
        case Page(events, pagingToken, _) =>
          RequestsKept(next, GroupByLedger(events));
          var page := ProcessGroups(next, GroupByLedger(events));
          if !page.reorg && pagingToken != "" && events != [] {
            rest := RequestsChain(page.state, pagingToken, startLedger, script[1..], disk);
          }
      }
      FollowsCons(first, rest, script);
      asked := [first] + rest;
    }
  }

  /** Where a round starts: a pending resync comes before the cursor, the cursor before the network's latest ledger. */
  lemma FirstRequest(s: PollState, latest: int, script: seq<Response>, disk: Disk)
    requires script != [] && latest > 0 && (s.pendingResync.Some? ==> s.pendingResync.value >= 1)
    ensures var requests := PlayRound(s, latest, script, disk).state.requests;
            && |s.requests| < |requests|
            && Follows(requests[|s.requests|..], script)
            && requests[|s.requests|] ==
                 (if s.pendingResync.Some? then SinceLedger(s.pendingResync.value)
                  else if s.cursor != "" then AfterCursor(s.cursor)
                  else SinceLedger(latest))
  {
    var begun := BeginRound(s);
    var start := if s.pendingResync.Some? then s.pendingResync.value else latest;
    var asked := RequestsChain(begun, begun.cursor, start, script, disk);
    assert (s.requests + asked)[|s.requests|..] == asked;
  }

  /**
   When a resync is forgotten: the round that takes it up clears both the resync point and the
   cursor, so if it then fails (or its last page carries no cursor) the next round starts from the
   network's latest ledger, and nothing remembers where to resume.
   */
  lemma ResyncForgottenIff(s: PollState, latest: int, script: seq<Response>, disk: Disk)
    requires s.pendingResync.Some?
    ensures var t := PlayRound(s, latest, script, disk).state;
            t.pendingResync.None? && t.cursor == "" <==>
            && Ascending(s.last, Delivered(script))
            && (Completes(script) ==> FinalCursor(script) == "")
  {
    RoundSpec(s, latest, script, disk);
  }

  // ----- Whole runs -----

  function Step(s: PollState, round: Round): PollState {
    match round
    case Contended => s
    case Played(latest, script, disk) => PlayRound(s, latest, script, disk).state
  }

  function Run(s: PollState, rounds: seq<Round>): PollState
    decreases |rounds|
  {
    if rounds == [] then s else Run(Step(s, rounds[0]), rounds[1..])
  }

  /** A save made after `s` names the highest ledger processed by then. */
  ghost predicate SaveIsSound(s: PollState, t: PollState, save: Save) {
    && |s.processed| <= save.processed <= |t.processed|
    && save.ledger == Highest(s.last, t.processed[|s.processed|..save.processed])
  }

  ghost predicate SafeFrom(s: PollState, t: PollState) {
    && s.processed <= t.processed
    && Progress(s, t, t.processed[|s.processed|..])
    && s.saves <= t.saves
    && (forall i :: |s.saves| <= i < |t.saves| ==> SaveIsSound(s, t, t.saves[i]))
    && (forall i, j :: |s.saves| <= i < j < |t.saves| ==> t.saves[i].processed <= t.saves[j].processed)
  }

  lemma RoundIsSafe(s: PollState, round: Round)
    ensures SafeFrom(s, Step(s, round))
  {
    hide Highest, Ascending, PlayRound, Delivered, Completes, FinalCursor;
    var t := Step(s, round);
    if round.Contended? {
      NothingHappened(s);
    } else {
      RoundSpec(s, round.latest, round.script, round.disk);
      assert t.processed[|s.processed|..|t.processed|] == t.processed[|s.processed|..];
    }
  }

  lemma LaterSaveIsSound(s: PollState, mid: PollState, t: PollState, save: Save)
    requires SafeFrom(s, mid) && SafeFrom(mid, t) && SaveIsSound(mid, t, save)
    ensures SaveIsSound(s, t, save)
  {
    hide Highest, Ascending;
    var first, second := mid.processed[|s.processed|..], t.processed[|mid.processed|..save.processed];
    HighestConcat(s.last, first, second);
    assert t.processed[|s.processed|..save.processed] == first + second;
  }

  lemma EarlierSaveIsSound(s: PollState, mid: PollState, t: PollState, save: Save)
    requires mid.processed <= t.processed && SaveIsSound(s, mid, save)
    ensures SaveIsSound(s, t, save)
  {
    assert t.processed[|s.processed|..save.processed] == mid.processed[|s.processed|..save.processed];
  }

  lemma SafeTransitive(s: PollState, mid: PollState, t: PollState)
    requires SafeFrom(s, mid) && SafeFrom(mid, t)
    ensures SafeFrom(s, t)
  {
    hide SaveIsSound, Progress, Highest;
    var first, second := mid.processed[|s.processed|..], t.processed[|mid.processed|..];
    ProgressJoin(s, mid, t, first, second);
    assert t.processed[|s.processed|..] == first + second;
    forall i | |s.saves| <= i < |t.saves| ensures SaveIsSound(s, t, t.saves[i]) {
      if i < |mid.saves| {
        assert t.saves[i] == mid.saves[i];
        EarlierSaveIsSound(s, mid, t, t.saves[i]);
      } else {
        LaterSaveIsSound(s, mid, t, t.saves[i]);
      }
    }
    SavesStayOrdered(s, mid, t);
  }

  lemma SavesStayOrdered(s: PollState, mid: PollState, t: PollState)
    requires SafeFrom(s, mid) && SafeFrom(mid, t)
    ensures forall i, j :: |s.saves| <= i < j < |t.saves| ==> t.saves[i].processed <= t.saves[j].processed
  {
    hide Progress, Highest;
    forall i, j | |s.saves| <= i < j < |t.saves| ensures t.saves[i].processed <= t.saves[j].processed {
      assert i < |mid.saves| ==> t.saves[i] == mid.saves[i] && SaveIsSound(s, mid, mid.saves[i]);
      assert j < |mid.saves| ==> t.saves[j] == mid.saves[j];
      assert j >= |mid.saves| ==> SaveIsSound(mid, t, t.saves[j]);
    }
  }

  /**
   Safety over every run, across re-orgs, failed pages, rate limits, retries, failed saves and
   lock contention: the ledgers processed never go back, `last` is always the highest of them, and
   every saved ledger is the highest processed when it was saved.
   */
  lemma {:induction false} RunIsSafe(s: PollState, rounds: seq<Round>)
    ensures SafeFrom(s, Run(s, rounds))
    decreases |rounds|
  {
    hide SafeFrom;
    if rounds == [] {
      NothingHappened(s);
    } else {
      RoundIsSafe(s, rounds[0]);
      RunIsSafe(Step(s, rounds[0]), rounds[1..]);
      SafeTransitive(s, Step(s, rounds[0]), Run(s, rounds));
    }
  }

  lemma NothingHappened(s: PollState)
    ensures SafeFrom(s, s)
  {
    assert s.processed[|s.processed|..] == [];
  }

  predicate AtLeast(a: Option<int>, b: Option<int>) {
    b.Some? ==> a.Some? && b.value <= a.value
  }

  lemma HighestOfPrefix(last: Option<int>, events: seq<Event>, m: nat, n: nat)
    requires m <= n <= |events|
    ensures AtLeast(Highest(last, events[..n]), Highest(last, events[..m]))
  {
    assert events[..n] == events[..m] + events[m..n];
    HighestConcat(last, events[..m], events[m..n]);
    HighestIsMaximum(Highest(last, events[..m]), events[m..n]);
  }

  lemma LastNeverDecreases(s: PollState, rounds: seq<Round>)
    ensures AtLeast(Run(s, rounds).last, s.last)
  {
    RunIsSafe(s, rounds);
    HighestIsMaximum(s.last, Run(s, rounds).processed[|s.processed|..]);
  }

  lemma SavedLedgersNeverDecrease(s: PollState, rounds: seq<Round>, i: nat, j: nat)
    requires |s.saves| <= i < j < |Run(s, rounds).saves|
    ensures AtLeast(Run(s, rounds).saves[j].ledger, Run(s, rounds).saves[i].ledger)
  {
    hide Highest, Run, Progress;
    RunIsSafe(s, rounds);
    var t := Run(s, rounds);
    var events := t.processed[|s.processed|..];
    var n := |s.processed|;
    assert SaveIsSound(s, t, t.saves[i]) && SaveIsSound(s, t, t.saves[j]);
    assert events[..t.saves[i].processed - n] == t.processed[n..t.saves[i].processed];
    assert events[..t.saves[j].processed - n] == t.processed[n..t.saves[j].processed];
    HighestOfPrefix(s.last, events, t.saves[i].processed - n, t.saves[j].processed - n);
  }

  // ----- Across restarts -----

  /** A round, a process that is told to stop and saves its cursor first, or a process that starts. */
  datatype LifeStep = Go(round: Round) | ShutDown(disk: Disk) | Start

  /** A process starts from what is stored; a pending resync is not. */
  function Restart(s: PollState): PollState {
    s.(cursor := Loaded(s.stores).cursor, last := Loaded(s.stores).ledger, pendingResync := None)
  }

  function Shut(s: PollState, disk: Disk): PollState {
    s.(stores := SaveCursor(s.stores, s.cursor, None, disk))
  }

  function LiveStep(s: PollState, step: LifeStep): PollState {
    match step
    case Go(round) => Step(s, round)
    case ShutDown(disk) => Shut(s, disk)
    case Start => Restart(s)
  }

  function Live(s: PollState, steps: seq<LifeStep>): PollState
    decreases |steps|
  {
    if steps == [] then s else Live(LiveStep(s, steps[0]), steps[1..])
  }

  /** The slot that readers get is not behind the file, which holds what the last resolved save wrote. */
  predicate Current(stores: Stores) {
    AtLeast(Loaded(stores).ledger, stores.file.ledger)
  }

  /** The process is behind neither the file nor what readers get. */
  predicate Started(s: PollState) {
    AtLeast(s.last, s.stores.file.ledger) && AtLeast(s.last, Loaded(s.stores).ledger)
  }

  /** The ledger in the file only rises, and so do the ledgers of the saves made on the way. */
  ghost predicate SavesRise(s: PollState, t: PollState) {
    && AtLeast(t.stores.file.ledger, s.stores.file.ledger)
    && s.saves <= t.saves
    && (forall i :: |s.saves| <= i < |t.saves| ==>
          AtLeast(t.saves[i].ledger, s.stores.file.ledger) && AtLeast(t.stores.file.ledger, t.saves[i].ledger))
    && (forall i, j :: |s.saves| <= i < j < |t.saves| ==> AtLeast(t.saves[j].ledger, t.saves[i].ledger))
  }

  /** Either nothing was written, or the cursor and the highest ledger were, to the stores that took them. */
  ghost predicate WroteOnce(s: PollState, t: PollState, disk: Disk) {
    && AtLeast(t.last, s.last)
    && (|| (t.saves == s.saves && t.stores == s.stores)
        || (&& t.stores == SaveCursor(s.stores, t.cursor, t.last, disk)
            && t.saves == s.saves + if disk.fileOk then [Save(t.cursor, t.last, |t.processed|)] else []))
  }

  lemma {:induction false} RoundWritesOnce(s: PollState, round: Round)
    requires round.Played?
    ensures WroteOnce(s, Step(s, round), round.disk)
  {
    hide Ascending, Highest, PlayRound, Delivered, Completes, FinalCursor, StoppedBefore, SaveCursor;
    RoundSpec(s, round.latest, round.script, round.disk);
    HighestIsMaximum(s.last, Since(s, Step(s, round)));
    assert s.saves + [] == s.saves;
  }

  lemma {:induction false} RoundRaises(s: PollState, round: Round)
    requires Started(s)
    ensures Started(Step(s, round)) && SavesRise(s, Step(s, round))
  {
    if round.Played? {
      RoundWritesOnce(s, round);
      hide Step;
    } else {
      SameFile(s, s);
    }
  }

  lemma {:induction false} RisesTransitive(s: PollState, mid: PollState, t: PollState)
    requires SavesRise(s, mid) && SavesRise(mid, t)
    ensures SavesRise(s, t)
  {
    forall i | |s.saves| <= i < |t.saves|
      ensures AtLeast(t.saves[i].ledger, s.stores.file.ledger) && AtLeast(t.stores.file.ledger, t.saves[i].ledger)
    {
      assert i < |mid.saves| ==> t.saves[i] == mid.saves[i];
    }
    forall i, j | |s.saves| <= i < j < |t.saves| ensures AtLeast(t.saves[j].ledger, t.saves[i].ledger) {
      assert i < |mid.saves| ==> t.saves[i] == mid.saves[i];
      assert j < |mid.saves| ==> t.saves[j] == mid.saves[j];
    }
  }

  lemma SameFile(s: PollState, t: PollState)
    requires t.saves == s.saves && AtLeast(t.stores.file.ledger, s.stores.file.ledger)
    ensures SavesRise(s, t)
  {}

  /** Every start and every shutdown finds the stores current. */
  ghost predicate AlwaysCurrent(s: PollState, steps: seq<LifeStep>)
    decreases |steps|
  {
    steps == [] ||
    ((!steps[0].Go? ==> Current(s.stores)) && AlwaysCurrent(LiveStep(s, steps[0]), steps[1..]))
  }

  lemma {:induction false} StepRaises(s: PollState, step: LifeStep)
    requires Started(s) && (!step.Go? ==> Current(s.stores))
    ensures Started(LiveStep(s, step)) && SavesRise(s, LiveStep(s, step))
  {
    if step.Go? {
      RoundRaises(s, step.round);
    } else {
      SameFile(s, LiveStep(s, step));
    }
  }

  /**
   Over the whole life of the indexer, with processes that die or are stopped after any round or in
   the middle of one (a script that runs out): a restarted process may process ledgers again, but
   as long as each start and shutdown finds the stores current, neither the ledger in the file nor
   the ledgers of the saves ever decrease.
   */
  lemma {:induction false} SavesRiseAcrossRestarts(s: PollState, steps: seq<LifeStep>)
    requires Started(s) && AlwaysCurrent(s, steps)
    ensures Started(Live(s, steps)) && SavesRise(s, Live(s, steps))
    decreases |steps|
  {
    hide SavesRise, LiveStep, Started, Current;
    if steps == [] {
      SameFile(s, s);
    } else {
      StepRaises(s, steps[0]);
      SavesRiseAcrossRestarts(LiveStep(s, steps[0]), steps[1..]);
      RisesTransitive(s, LiveStep(s, steps[0]), Live(s, steps));
    }
  }

  /** No save reaches the file without reaching SQLite. */
  predicate NoSilentLoss(step: LifeStep) {
    match step
    case Go(Played(_, _, disk)) => disk.fileOk ==> disk.sqliteOk
    case ShutDown(disk) => disk.fileOk ==> disk.sqliteOk
    case _ => true
  }

  lemma {:induction false} StepKeepsUpToDate(s: PollState, step: LifeStep)
    requires Started(s) && AtLeast(s.stores.sqlite.ledger, s.stores.file.ledger) && NoSilentLoss(step)
    ensures var t := LiveStep(s, step);
            Started(t) && AtLeast(t.stores.sqlite.ledger, t.stores.file.ledger)
  {
    StepRaises(s, step);
    if step.Go? && step.round.Played? {
      RoundWritesOnce(s, step.round);
      hide Step;
    }
  }

  /** As long as no failure of SQLite goes unnoticed, the stores are current at every start and shutdown. */
  lemma {:induction false} NoSilentLossKeepsCurrent(s: PollState, steps: seq<LifeStep>)
    requires Started(s) && AtLeast(s.stores.sqlite.ledger, s.stores.file.ledger)
    requires forall step :: step in steps ==> NoSilentLoss(step)
    ensures AlwaysCurrent(s, steps)
    decreases |steps|
  {
    hide LiveStep, Started, NoSilentLoss;
    if steps != [] {
      assert steps[0] in steps;
      StepKeepsUpToDate(s, steps[0]);
      NoSilentLossKeepsCurrent(LiveStep(s, steps[0]), steps[1..]);
    }
  }

  /** However a restarted process goes on, the ledger in the file does not fall below what it was. */
  ghost predicate NeverFalls(s: PollState) {
    forall rounds :: AtLeast(Run(Restart(s), rounds).stores.file.ledger, s.stores.file.ledger)
  }

  lemma {:induction false} RunRaises(s: PollState, rounds: seq<Round>)
    requires Started(s)
    ensures AtLeast(Run(s, rounds).stores.file.ledger, s.stores.file.ledger)
    decreases |rounds|
  {
    if rounds != [] {
      RoundRaises(s, rounds[0]);
      hide Step;
      RunRaises(Step(s, rounds[0]), rounds[1..]);
    }
  }

  /** A round whose one page is empty, as seen by a process that has just started. */
  lemma {:induction false} EmptyRound(s: PollState, cursor: string, disk: Disk)
    requires cursor != "" && disk.fileOk && s.pendingResync.None?
    ensures Step(s, Played(1, [Page([], "", cursor)], disk)).stores == SaveCursor(s.stores, cursor, s.last, disk)
  {
    var script := [Page([], "", cursor)];
    assert Flatten(GroupByLedger([])) == [];
    assert Delivered(script) == [];
    RoundSpec(s, 1, script, disk);
    assert Since(s, PlayRound(s, 1, script, disk).state) == [];
  }

  /**
   When a restart is safe: the ledger in the file cannot fall afterwards exactly if the stores are
   current, that is, if the SQLite row has no cursor or is not behind the file.
   */
  lemma {:induction false} RestartIsSafeIff(s: PollState)
    ensures NeverFalls(s) <==> Current(s.stores)
    ensures Current(s.stores) <==>
            s.stores.sqlite.cursor == "" || AtLeast(s.stores.sqlite.ledger, s.stores.file.ledger)
  {
    var start := Restart(s);
    if Current(s.stores) {
      forall rounds ensures AtLeast(Run(start, rounds).stores.file.ledger, s.stores.file.ledger) {
        RunRaises(start, rounds);
      }
    } else {
      var round := Played(1, [Page([], "", "c")], Disk(true, true));
      EmptyRound(start, "c", Disk(true, true));
      hide Step;
      assert [round][1..] == [];
      assert Run(start, [round]) == Step(start, round);
    }
  }

  /** A shutdown writes the stored ledger again: the one in the file falls exactly if the stores are not current. */
  lemma {:induction false} ShutdownIsSafeIff(s: PollState, disk: Disk)
    ensures AtLeast(Shut(s, disk).stores.file.ledger, s.stores.file.ledger) <==> !disk.fileOk || Current(s.stores)
  {}

  /** One event on one page, saved. */
  lemma {:induction false} OneEventRound(s: PollState, e: Event, cursor: string, disk: Disk)
    requires cursor != "" && disk.fileOk && s.pendingResync.None? && e.ledger > 0
    requires s.last.Some? ==> s.last.value <= e.ledger
    ensures
      var t := Step(s, Played(1, [Page([e], "", cursor)], disk));
      && t.last == Some(e.ledger) && t.pendingResync.None?
      && t.stores == SaveCursor(s.stores, cursor, Some(e.ledger), disk)
      && t.saves == s.saves + [Save(cursor, Some(e.ledger), |t.processed|)]
  {
    var script := [Page([e], "", cursor)];
    assert [e][..0] == [];
    assert GroupByLedger([]) == [];
    assert GroupByLedger([e]) == [Group(e.ledger, [e])];
    FlattenOne(Group(e.ledger, [e]));
    assert Delivered(script) == [e] + [];
    RoundSpec(s, 1, script, disk);
    assert Highest(s.last, [e]) == Highest(Some(e.ledger), []);
    assert Since(s, PlayRound(s, 1, script, disk).state) == [e];
  }

  /**
   Ledger 10 is saved in both stores, ledger 20 with SQLite failing unnoticed; the process is killed
   and starts again at 10, and saves 12: what is stored has fallen from 20 to 12.
   */
  lemma {:induction false} SilentLossLowersLedger()
    ensures
      var empty := Stores(Slot("", None), Slot("", None));
      var s0 := PollState(empty, "", None, None, [], [], []);
      var s1 := Step(s0, Played(1, [Page([Event(1, 10)], "", "a")], Disk(true, true)));
      var s2 := Step(s1, Played(1, [Page([Event(2, 20)], "", "b")], Disk(false, true)));
      var s3 := Step(Restart(s2), Played(1, [Page([Event(3, 12)], "", "c")], Disk(true, true)));
      && s2.stores == Stores(Slot("a", Some(10)), Slot("b", Some(20))) && !Current(s2.stores)
      && s3.stores == Stores(Slot("c", Some(12)), Slot("c", Some(12)))
  {
    hide Step;
    var s0 := PollState(Stores(Slot("", None), Slot("", None)), "", None, None, [], [], []);
    OneEventRound(s0, Event(1, 10), "a", Disk(true, true));
    var s1 := Step(s0, Played(1, [Page([Event(1, 10)], "", "a")], Disk(true, true)));
    OneEventRound(s1, Event(2, 20), "b", Disk(false, true));
    var s2 := Step(s1, Played(1, [Page([Event(2, 20)], "", "b")], Disk(false, true)));
    OneEventRound(Restart(s2), Event(3, 12), "c", Disk(true, true));
  }

  // ----- What the loop does not achieve -----

  ghost predicate StartsBelow(round: Round, last: int) {
    match round
    case Contended => true
    case Played(_, script, _) =>
      && script != [] && script[0].Page? && script[0].events != []
      && 0 < script[0].events[0].ledger < last
  }

  lemma {:induction false} FirstGroup(events: seq<Event>)
    requires events != []
    ensures GroupByLedger(events) != [] && GroupByLedger(events)[0].ledger == events[0].ledger
  {
    if |events| > 1 {
      FirstGroup(events[..|events| - 1]);
    }
  }

  /**
   `last` is not taken back by a re-org, so re-fetched ledgers below it count as a re-org again: as
   long as the pages start below `last`, no round processes or saves anything.
   */
  lemma {:induction false} StuckWhileBehind(s: PollState, rounds: seq<Round>)
    requires s.last.Some? && forall round :: round in rounds ==> StartsBelow(round, s.last.value)
    ensures Run(s, rounds).last == s.last
    ensures Run(s, rounds).processed == s.processed && Run(s, rounds).saves == s.saves
    decreases |rounds|
  {
    if rounds != [] {
      var next := Step(s, rounds[0]);
      assert StartsBelow(rounds[0], s.last.value);
      if rounds[0].Played? {
        FirstGroup(rounds[0].script[0].events);
      }
      StuckWhileBehind(next, rounds[1..]);
    }
  }

  ghost predicate SpansTwoLedgers(events: seq<Event>) {
    exists i, j :: 0 <= i < |events| && 0 <= j < |events| && 0 < events[i].ledger < events[j].ledger
  }

  lemma BehindIff(last: Option<int>, events: seq<Event>)
    requires Ascending(last, events)
    ensures !Ascending(Highest(last, events), events) <==> SpansTwoLedgers(events)
  {
    hide Highest;
    HighestIsMaximum(last, events);
    var highest := Highest(last, events);
    if !Ascending(highest, events) {
      var i :| 0 <= i < |events| && 0 < events[i].ledger && highest.Some? && events[i].ledger < highest.value;
      assert highest != last;
      var f :| f in events && f.ledger > 0 && highest == Some(f.ledger);
      var j :| 0 <= j < |events| && events[j] == f;
      assert 0 < events[i].ledger < events[j].ledger;
    }
    if SpansTwoLedgers(events) {
      var i, j :| 0 <= i < |events| && 0 <= j < |events| && 0 < events[i].ledger < events[j].ledger;
      assert events[j] in events;
    }
  }

  /**
   A round that fails on a later page is retried from the old cursor with `last` already moved on.
   When the same pages come back, that looks like a re-org exactly if they span two ledgers.
   */
  lemma RetryLooksLikeReorgIff(s: PollState, latest: int, script: seq<Response>, again: seq<Response>, disk: Disk)
    requires Ascending(s.last, Delivered(script)) && Delivered(again) == Delivered(script)
    ensures var t := PlayRound(s, latest, script, disk).state;
            PlayRound(t, latest, again, disk).ending.Reorged? <==> SpansTwoLedgers(Delivered(script))
  {
    hide Ascending, Highest, PlayRound, Delivered, Completes, FinalCursor, SpansTwoLedgers;
    RoundSpec(s, latest, script, disk);
    RoundSpec(PlayRound(s, latest, script, disk).state, latest, again, disk);
    BehindIff(s.last, Delivered(script));
  }

  // ----- The loop -----

  class PollLoop {
    var cursor: string
    var last: Option<int>
    var pendingResync: Option<int>
    ghost var processed: seq<Event>
    ghost var saves: seq<Save>
    ghost var requests: seq<Request>
    var stores: Stores

    ghost function View(): PollState
      reads this
    {
      PollState(stores, cursor, last, pendingResync, processed, saves, requests)
    }

    /** A process starts from the stored cursor and ledger. */
    constructor (stores: Stores)
      ensures View() == PollState(stores, Loaded(stores).cursor, Loaded(stores).ledger, None, [], [], [])
      ensures Current(stores) ==> Started(View())
    {
      this.stores, cursor, last, pendingResync := stores, Loaded(stores).cursor, Loaded(stores).ledger, None;
      processed, saves, requests := [], [], [];
    }

    /** One round: `View` moves as `PlayRound` says, about which the lemmas above are. */
    method PollRound(latest: int, script: seq<Response>, disk: Disk) returns (ending: Ending)
      modifies this
      ensures RoundResult(View(), ending) == PlayRound(old(View()), latest, script, disk)
    {
      var startLedger := latest;
      if pendingResync.Some? {
        startLedger := pendingResync.value;
        cursor := "";
      }
      pendingResync := None;
      var token, hasMore, i := cursor, true, 0;
      ending := Interrupted;
      ghost var result := PlayRound(old(View()), latest, script, disk);
      while hasMore && i < |script|
        invariant 0 <= i <= |script|
        invariant hasMore ==> PlayPages(View(), token, startLedger, script[i..], disk) == result && ending.Interrupted?
        invariant !hasMore ==> RoundResult(View(), ending) == result
      {
        var response := script[i];
        requests := requests + [NextRequest(token, startLedger)];
        i := i + 1;
        match response
        case RateLimited =>
        case Failure =>
          hasMore, ending := false, Failed;
        case Page(events, pagingToken, nextCursor) =>
          var reorg := ProcessPage(events);
          if reorg {
            hasMore, ending := false, Reorged;
          } else if pagingToken != "" && events != [] {
            token := pagingToken;
          } else {
            hasMore := false;
            cursor := if nextCursor != "" then nextCursor else pagingToken;
            var saved := SaveCursorTo(cursor, last, disk);
            ending := if saved then Finished else Failed;
            if saved {
              saves := saves + [Save(cursor, last, |processed|)];
            }
          }
      }
    }

    /** Writes SQLite first, where a failure goes unnoticed, and then the file, where it is thrown. */
    method SaveCursorTo(cursor: string, ledger: Option<int>, disk: Disk) returns (saved: bool)
      modifies this`stores
      ensures stores == SaveCursor(old(stores), cursor, ledger, disk) && saved == disk.fileOk
    {
      var slot := Slot(cursor, if ledger.Some? then ledger else Loaded(stores).ledger);
      if disk.sqliteOk {
        stores := stores.(sqlite := slot);
      }
      saved := disk.fileOk;
      if saved {
        stores := stores.(file := slot);
      }
    }

    method ProcessPage(events: seq<Event>) returns (reorg: bool)
      modifies this
      ensures PageResult(View(), reorg) == ProcessGroups(old(View()), GroupByLedger(events))
    {
      var groups := [];
      for k := 0 to |events|
        invariant groups == GroupByLedger(events[..k])
        invariant View() == old(View())
      {
        groups := AddToGroup(groups, events[k]);
        assert events[..k + 1][..k] == events[..k];
      }
      assert events[..|events|] == events;
      reorg := false;
      var k := 0;
      while k < |groups|
        invariant 0 <= k <= |groups|
        invariant ProcessGroups(View(), groups[k..]) == ProcessGroups(old(View()), groups)
      {
        var g := groups[k];
        if g.ledger > 0 && Classify(g.ledger, last).Reorg? {
          pendingResync := Some(ResyncStart(last.value));
          return true;
        }
        ghost var before := View();
        for e := 0 to |g.events|
          invariant View() == before.(processed := before.processed + g.events[..e])
        {
          processed := processed + [g.events[e]];
        }
        assert g.events[..|g.events|] == g.events;
        if g.ledger > 0 {
          last := Some(g.ledger);
        }
        k := k + 1;
      }
    }
  }
}
