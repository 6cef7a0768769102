/**
 The projection of contract events into markets and bets (backend/src/indexer/EventProcessor.ts).

 A log entry carries an event and whether the database did its part; a failed handler rolls back
 and the error is swallowed by `process`, so the entry then has no effect at all.
 */
module EventProcessor {
  import opened Common

  const DEFAULT_FEE_BPS := 200

  datatype Side = FighterA | FighterB | Draw

  datatype MarketStatus = Open | Locked | Resolved | Cancelled

  /** The three columns that a resolution writes beside the status. */
  datatype Resolution = Resolution(outcome: Option<string>, resolvedAt: string, oracle: Option<string>)

  datatype Market = Market(
    status: MarketStatus,
    resolution: Option<Resolution>,
    poolA: int,
    poolB: int,
    poolDraw: int,
    totalPool: int,
    feeBps: int)
  {
    function Pool(side: Side): int {
      match side
      case FighterA => poolA
      case FighterB => poolB
      case Draw => poolDraw
    }
  }

  datatype Bet = Bet(market: string, bettor: string, side: Side, amount: int, txHash: string)

  datatype Event =
    | MarketCreated(market: string, feeBps: Option<int>)
    | BetPlaced(bet: Bet)
    | MarketLocked(market: string)
    | MarketResolved(market: string, resolution: Resolution)
    | MarketCancelled(market: string)
    | Unrelated                                   // claims, refunds and unknown event types

  datatype Entry = Entry(event: Event, ok: bool)

  /** The two tables: markets by market_id, bets in order of insertion. */
  datatype Db = Db(markets: map<string, Market>, bets: seq<Bet>)

  const EMPTY: Db := Db(map[], [])

  predicate HasTx(bets: seq<Bet>, txHash: string) {
    exists i :: 0 <= i < |bets| && bets[i].txHash == txHash
  }

  function AddToPool(m: Market, side: Side, amount: int): Market {
    match side
    case FighterA => m.(poolA := m.poolA + amount, totalPool := m.totalPool + amount)
    case FighterB => m.(poolB := m.poolB + amount, totalPool := m.totalPool + amount)
    case Draw => m.(poolDraw := m.poolDraw + amount, totalPool := m.totalPool + amount)
  }

  function NewMarket(feeBps: Option<int>): Market {
    Market(Open, None, 0, 0, 0, 0, if feeBps.Some? then feeBps.value else DEFAULT_FEE_BPS)
  }

  /** The row is inserted unless its tx_hash is known; a bet on an unknown market breaks the foreign key. */
  function PlaceBet(db: Db, bet: Bet): Db {
    if HasTx(db.bets, bet.txHash) || bet.market !in db.markets then db
    else Db(db.markets[bet.market := AddToPool(db.markets[bet.market], bet.side, bet.amount)], db.bets + [bet])
  }

  predicate IsStatusEvent(event: Event) {
    event.MarketLocked? || event.MarketResolved? || event.MarketCancelled?
  }

  function StatusOf(event: Event): MarketStatus
    requires IsStatusEvent(event)
  {
    match event
    case MarketLocked(_) => Locked
    case MarketResolved(_, _) => Resolved
    case MarketCancelled(_) => Cancelled
  }

  /** The UPDATE of a status event; it finds no row for an unknown market. */
  function UpdateMarket(db: Db, id: string, event: Event): Db
    requires IsStatusEvent(event)
  {
    if id !in db.markets then db
    else
      var market := db.markets[id].(status := StatusOf(event));
      var updated := if event.MarketResolved? then market.(resolution := Some(event.resolution)) else market;
      db.(markets := db.markets[id := updated])
  }

  function Process(db: Db, entry: Entry): Db {
    if !entry.ok then db
    else
      match entry.event
      case MarketCreated(id, feeBps) =>
        if id in db.markets then db else db.(markets := db.markets[id := NewMarket(feeBps)])
      case BetPlaced(bet) => PlaceBet(db, bet)
      case MarketLocked(id) => UpdateMarket(db, id, entry.event)
      case MarketResolved(id, _) => UpdateMarket(db, id, entry.event)
      case MarketCancelled(id) => UpdateMarket(db, id, entry.event)
      case Unrelated => db
  }

  function Run(db: Db, log: seq<Entry>): Db
    decreases |log|
  {
    if log == [] then db else Run(Process(db, log[0]), log[1..])
  }

  // ----- The books: pools are the sums of the recorded bets -----

  function SideSum(bets: seq<Bet>, market: string, side: Side): int {
    if bets == [] then 0
    else
      var last := bets[|bets| - 1];
      SideSum(bets[..|bets| - 1], market, side)
      + (if last.market == market && last.side == side then last.amount else 0)
  }

  ghost predicate PoolsMatch(m: Market, bets: seq<Bet>, id: string) {
    && m.poolA == SideSum(bets, id, FighterA)
    && m.poolB == SideSum(bets, id, FighterB)
    && m.poolDraw == SideSum(bets, id, Draw)
    && m.totalPool == m.poolA + m.poolB + m.poolDraw
  }

  ghost predicate Booked(db: Db) {
    && (forall i, j :: 0 <= i < j < |db.bets| ==> db.bets[i].txHash != db.bets[j].txHash)
    && (forall i :: 0 <= i < |db.bets| ==> db.bets[i].market in db.markets)
    && (forall id :: id in db.markets ==> PoolsMatch(db.markets[id], db.bets, id))
  }

  lemma {:induction false} NoBetsNoSum(bets: seq<Bet>, market: string, side: Side)
    requires forall i :: 0 <= i < |bets| ==> bets[i].market != market
    ensures SideSum(bets, market, side) == 0
  {
    if bets != [] {
      NoBetsNoSum(bets[..|bets| - 1], market, side);
    }
  }

  lemma SideSumAppend(bets: seq<Bet>, bet: Bet, market: string, side: Side)
    ensures SideSum(bets + [bet], market, side)
            == SideSum(bets, market, side) + (if bet.market == market && bet.side == side then bet.amount else 0)
  {
    assert (bets + [bet])[..|bets|] == bets;
  }

  lemma PlaceBetMatches(db: Db, bet: Bet, id: string)
    requires Booked(db) && bet.market in db.markets && id in db.markets && !HasTx(db.bets, bet.txHash)
    ensures PoolsMatch(PlaceBet(db, bet).markets[id], db.bets + [bet], id)
  {
    assert PoolsMatch(db.markets[id], db.bets, id);
    SideSumAppend(db.bets, bet, id, FighterA);
    SideSumAppend(db.bets, bet, id, FighterB);
    SideSumAppend(db.bets, bet, id, Draw);
  }

  lemma PlaceBetKeepsBooks(db: Db, bet: Bet)
    requires Booked(db)
    ensures Booked(PlaceBet(db, bet))
  {
    if !HasTx(db.bets, bet.txHash) && bet.market in db.markets {
      forall id | id in db.markets ensures PoolsMatch(PlaceBet(db, bet).markets[id], db.bets + [bet], id) {
        PlaceBetMatches(db, bet, id);
      }
    }
  }

  lemma NewMarketMatches(db: Db, id: string, feeBps: Option<int>)
    requires Booked(db) && id !in db.markets
    ensures PoolsMatch(NewMarket(feeBps), db.bets, id)
  {
    NoBetsNoSum(db.bets, id, FighterA);
    NoBetsNoSum(db.bets, id, FighterB);
    NoBetsNoSum(db.bets, id, Draw);
  }

  lemma ProcessKeepsBooks(db: Db, entry: Entry)
    requires Booked(db)
    ensures Booked(Process(db, entry))
  {
    match entry.event
    case MarketCreated(id, feeBps) =>
      if id !in db.markets {
        NewMarketMatches(db, id, feeBps);
      }
    case BetPlaced(bet) => PlaceBetKeepsBooks(db, bet);
    case _ =>
  }

  /**
   After any log, with duplicates, replays and failures, each market's three pools are the sums of
   its distinct recorded bets by side, and they add up to its total.
   */
  lemma {:induction false} RunKeepsBooks(db: Db, log: seq<Entry>)
    requires Booked(db)
    ensures Booked(Run(db, log))
    decreases |log|
  {
    if log != [] {
      ProcessKeepsBooks(db, log[0]);
      RunKeepsBooks(Process(db, log[0]), log[1..]);
    }
  }

  // ----- Replay -----

  /** Same bets, same markets, same pools; only a status and what a resolution writes may differ. */
  ghost predicate SameBooks(a: Db, b: Db) {
    && a.bets == b.bets
    && a.markets.Keys == b.markets.Keys
    && forall id :: id in a.markets ==>
         a.markets[id] == b.markets[id].(status := a.markets[id].status, resolution := a.markets[id].resolution)
  }

  /** The event has nothing left to add. */
  predicate Absorbed(db: Db, event: Event) {
    match event
    case MarketCreated(id, _) => id in db.markets
    case BetPlaced(bet) => HasTx(db.bets, bet.txHash) || bet.market !in db.markets
    case _ => true
  }

  lemma ProcessOnlyGrows(db: Db, entry: Entry)
    ensures db.markets.Keys <= Process(db, entry).markets.Keys
    ensures db.bets <= Process(db, entry).bets
  {}

  lemma {:induction false} RunOnlyGrows(db: Db, log: seq<Entry>)
    ensures db.markets.Keys <= Run(db, log).markets.Keys
    ensures db.bets <= Run(db, log).bets
    decreases |log|
  {
    if log != [] {
      ProcessOnlyGrows(db, log[0]);
      RunOnlyGrows(Process(db, log[0]), log[1..]);
    }
  }

  /**
   Replaying entries leaves bets and pools alone exactly when each of them that reaches the
   database has nothing left to add: its market exists, or its transaction is recorded, or it is a
   bet on a market that is still unknown.
   */
  lemma {:induction false} ReplayKeepsBooksIff(db: Db, replay: seq<Entry>)
    ensures SameBooks(db, Run(db, replay))
            <==> forall i :: 0 <= i < |replay| && replay[i].ok ==> Absorbed(db, replay[i].event)
    decreases |replay|
  {
    if replay != [] {
      var db1 := Process(db, replay[0]);
      var rest := replay[1..];
      ReplayKeepsBooksIff(db1, rest);
      RunOnlyGrows(db1, rest);
      assert forall i :: 0 < i < |replay| ==> replay[i] == rest[i - 1];
      ProcessOnlyGrows(db, replay[0]);
      FirstOfReplay(db, replay[0]);
      hide Process, Absorbed, SameBooks;
      if replay[0].ok && !Absorbed(db, replay[0].event) {
        GrownIsNotSame(db, db1, Run(db, replay));
      } else {
        SameBooksChain(db, db1, Run(db, replay));
      }
    }
  }

  lemma FirstOfReplay(db: Db, entry: Entry)
    ensures
      var next := Process(db, entry);
      if entry.ok && !Absorbed(db, entry.event) then
        next.markets.Keys != db.markets.Keys || |next.bets| > |db.bets|
      else
        SameBooks(db, next) && forall event :: Absorbed(db, event) <==> Absorbed(next, event)
  {}

  lemma GrownIsNotSame(db: Db, next: Db, end: Db)
    requires next.markets.Keys != db.markets.Keys || |next.bets| > |db.bets|
    requires db.markets.Keys <= next.markets.Keys <= end.markets.Keys && next.bets <= end.bets
    ensures !SameBooks(db, end)
  {}

  lemma SameBooksChain(a: Db, b: Db, c: Db)
    requires SameBooks(a, b)
    ensures SameBooks(a, c) <==> SameBooks(b, c)
  {}

  /** A market is known after a log exactly when some creation of it reached the database. */
  lemma {:induction false} KnownIff(log: seq<Entry>, db: Db, id: string)
    ensures id in Run(db, log).markets <==>
            id in db.markets
            || exists j :: 0 <= j < |log| && log[j].ok && log[j].event.MarketCreated? && log[j].event.market == id
    decreases |log|
  {
    if log != [] {
      KnownIff(log[1..], Process(db, log[0]), id);
      assert forall j :: 0 < j < |log| ==> log[j] == log[1..][j - 1];
    }
  }

  /** Entry i is a bet with this transaction that reached the database after its market was created. */
  ghost predicate RecordsTx(log: seq<Entry>, db: Db, i: nat, txHash: string)
    requires i < |log|
  {
    && log[i].ok && log[i].event.BetPlaced? && log[i].event.bet.txHash == txHash
    && log[i].event.bet.market in Run(db, log[..i]).markets
  }

  lemma {:induction false} RunSplit(db: Db, a: seq<Entry>, b: seq<Entry>)
    ensures Run(db, a + b) == Run(Run(db, a), b)
    decreases |a|
  {
    if a == [] {
      assert a + b == b;
    } else {
      assert (a + b)[0] == a[0] && (a + b)[1..] == a[1..] + b;
      RunSplit(Process(db, a[0]), a[1..], b);
    }
  }

  /** Which transactions a log records: those with an entry that came after its market. */
  lemma {:induction false} RecordedIff(log: seq<Entry>, db: Db, txHash: string)
    ensures HasTx(Run(db, log).bets, txHash) <==>
            HasTx(db.bets, txHash) || exists i :: 0 <= i < |log| && RecordsTx(log, db, i, txHash)
    decreases |log|
  {
    if log != [] {
      var n := |log| - 1;
      var init, last := log[..n], log[n];
      assert log == init + [last];
      RunSplit(db, init, [last]);
      RunOne(Run(db, init), last);
      RecordedIff(init, db, txHash);
      var before := Run(db, init);
      assert HasTx(Run(db, log).bets, txHash) <==> HasTx(before.bets, txHash) || RecordsTx(log, db, n, txHash) by {
        AppendTx(before, last, txHash);
      }
      forall i | 0 <= i < n ensures RecordsTx(log, db, i, txHash) <==> RecordsTx(init, db, i, txHash) {
        assert log[..i] == init[..i];
      }
    }
  }

  lemma RunOne(db: Db, entry: Entry)
    ensures Run(db, [entry]) == Process(db, entry)
  {
    assert [entry][1..] == [];
    assert Run(Process(db, entry), []) == Process(db, entry);
  }

  lemma AppendTx(db: Db, entry: Entry, txHash: string)
    ensures HasTx(Process(db, entry).bets, txHash) <==>
            HasTx(db.bets, txHash)
            || (&& entry.ok && entry.event.BetPlaced?
                && entry.event.bet.txHash == txHash && entry.event.bet.market in db.markets)
  {
    var after := Process(db, entry).bets;
    if HasTx(db.bets, txHash) {
      var i :| 0 <= i < |db.bets| && db.bets[i].txHash == txHash;
      assert after[i].txHash == txHash;
    } else if after != db.bets {
      assert after == db.bets + [entry.event.bet];
      assert after[|after| - 1] == entry.event.bet;
    }
  }

  ghost predicate CreatedBefore(log: seq<Entry>, i: nat, id: string) {
    exists j :: 0 <= j < |log| && j < i && log[j].event.MarketCreated? && log[j].event.market == id
  }

  /** A log in which every bet follows the creation of its market, and nothing fails. */
  ghost predicate CreatedFirst(log: seq<Entry>) {
    forall i :: 0 <= i < |log| ==>
      && log[i].ok
      && (log[i].event.BetPlaced? ==> CreatedBefore(log, i, log[i].event.bet.market))
  }

  /** Replaying any prefix of such a log after the whole of it changes no bet and no pool. */
  lemma ReplayOfPrefixKeepsBooks(log: seq<Entry>, n: nat)
    requires CreatedFirst(log) && n <= |log|
    ensures SameBooks(Run(EMPTY, log), Run(Run(EMPTY, log), log[..n]))
  {
    var db := Run(EMPTY, log);
    forall i | 0 <= i < n ensures Absorbed(db, log[..n][i].event) {
      var event := log[i].event;
      if event.MarketCreated? {
        KnownIff(log, EMPTY, event.market);
      } else if event.BetPlaced? {
        KnownIff(log[..i], EMPTY, event.bet.market);
        var j :| 0 <= j < |log| && j < i && log[j].event.MarketCreated? && log[j].event.market == event.bet.market;
        assert log[..i][j] == log[j];
        assert RecordsTx(log, EMPTY, i, event.bet.txHash);
        RecordedIff(log, EMPTY, event.bet.txHash);
      }
    }
    ReplayKeepsBooksIff(db, log[..n]);
  }

  /** A bet that arrives before its market is lost, and a replay of the log then records it after all. */
  lemma EarlyBetIsRecordedByReplay(bet: Bet, feeBps: Option<int>)
    ensures
      var log := [Entry(BetPlaced(bet), true), Entry(MarketCreated(bet.market, feeBps), true)];
      var db := Run(EMPTY, log);
      && db.bets == []
      && Run(db, log[..1]).bets == [bet]
  {
    var e0, e1 := Entry(BetPlaced(bet), true), Entry(MarketCreated(bet.market, feeBps), true);
    var log := [e0, e1];
    assert log == [e0] + [e1] && log[..1] == [e0];
    RunSplit(EMPTY, [e0], [e1]);
    RunOne(EMPTY, e0);
    RunOne(EMPTY, e1);
    assert Process(EMPTY, e0) == EMPTY;
    RunOne(Run(EMPTY, log), e0);
  }

  // ----- Statuses and resolutions -----

  /** What status events write: every one a status, a resolution also its own columns. */
  datatype Column = StatusColumn | ResolutionColumn

  /** The entry writes the column of the market, if the market exists by then. */
  predicate Writes(entry: Entry, id: string, column: Column) {
    && entry.ok && IsStatusEvent(entry.event) && entry.event.market == id
    && (column.ResolutionColumn? ==> entry.event.MarketResolved?)
  }

  /** The last event of the log that asks for a value of the column. */
  function LastWriter(log: seq<Entry>, id: string, column: Column): (event: Option<Event>)
    ensures event.Some? ==> Writes(Entry(event.value, true), id, column)
  {
    if log == [] then None
    else
      var last := log[|log| - 1];
      if Writes(last, id, column) then Some(last.event) else LastWriter(log[..|log| - 1], id, column)
  }

  /** The last event of the log that writes the column: one of an unknown market updates no row. */
  function LastAccepted(db: Db, log: seq<Entry>, id: string, column: Column): (event: Option<Event>)
    ensures event.Some? ==> Writes(Entry(event.value, true), id, column)
  {
    if log == [] then None
    else
      var init, last := log[..|log| - 1], log[|log| - 1];
      if Writes(last, id, column) && id in Run(db, init).markets then Some(last.event)
      else LastAccepted(db, init, id, column)
  }

  function LastStatus(log: seq<Entry>, id: string): Option<MarketStatus> {
    var last := LastWriter(log, id, StatusColumn);
    if last.Some? then Some(StatusOf(last.value)) else None
  }

  function LastResolution(log: seq<Entry>, id: string): Option<Resolution> {
    var last := LastWriter(log, id, ResolutionColumn);
    if last.Some? then Some(last.value.resolution) else None
  }

  /** The status that a log leaves: the last accepted one, else the old one, else that of a new market. */
  function StatusAfter(db: Db, log: seq<Entry>, id: string): MarketStatus {
    var accepted := LastAccepted(db, log, id, StatusColumn);
    if accepted.Some? then StatusOf(accepted.value) else if id in db.markets then db.markets[id].status else Open
  }

  /** The resolution that a log leaves; locks and cancellations leave it alone. */
  function ResolutionAfter(db: Db, log: seq<Entry>, id: string): Option<Resolution> {
    var accepted := LastAccepted(db, log, id, ResolutionColumn);
    if accepted.Some? then Some(accepted.value.resolution)
    else if id in db.markets then db.markets[id].resolution
    else None
  }

  lemma RunSnoc(db: Db, log: seq<Entry>)
    requires log != []
    ensures Run(db, log) == Process(Run(db, log[..|log| - 1]), log[|log| - 1])
  {
    var init, last := log[..|log| - 1], log[|log| - 1];
    assert log == init + [last];
    RunSplit(db, init, [last]);
    RunOne(Run(db, init), last);
  }

  /** Every status and every resolution of every reachable database. */
  lemma {:induction false} ColumnsAreLastAccepted(db: Db, log: seq<Entry>, id: string)
    requires id in Run(db, log).markets
    ensures Run(db, log).markets[id].status == StatusAfter(db, log, id)
    ensures Run(db, log).markets[id].resolution == ResolutionAfter(db, log, id)
  {
    if log != [] {
      var init := log[..|log| - 1];
      RunSnoc(db, log);
      RunOnlyGrows(db, init);
      if id in Run(db, init).markets {
        ColumnsAreLastAccepted(db, init, id);
      } else {
        NoneAccepted(db, init, id, StatusColumn);
        NoneAccepted(db, init, id, ResolutionColumn);
      }
    }
  }

  lemma {:induction false} NoneAccepted(db: Db, log: seq<Entry>, id: string, column: Column)
    requires id !in Run(db, log).markets
    ensures LastAccepted(db, log, id, column).None? && id !in db.markets
  {
    if log != [] {
      RunSnoc(db, log);
      ProcessOnlyGrows(Run(db, log[..|log| - 1]), log[|log| - 1]);
      NoneAccepted(db, log[..|log| - 1], id, column);
    }
  }

  /** For a market that exists beforehand, every status event is accepted. */
  lemma {:induction false} KnownMarketAcceptsAll(db: Db, log: seq<Entry>, id: string, column: Column)
    requires id in db.markets
    ensures LastAccepted(db, log, id, column) == LastWriter(log, id, column)
  {
    if log != [] {
      RunOnlyGrows(db, log[..|log| - 1]);
      KnownMarketAcceptsAll(db, log[..|log| - 1], id, column);
    }
  }

  /** The last status the log asks for, if any, is this one, and likewise the last resolution. */
  predicate EndsAt(log: seq<Entry>, id: string, status: MarketStatus, resolution: Option<Resolution>) {
    && (LastStatus(log, id).Some? ==> LastStatus(log, id).value == status)
    && (LastResolution(log, id).Some? ==> LastResolution(log, id) == resolution)
  }

  ghost predicate SameColumns(a: Db, b: Db, id: string)
    requires id in a.markets && id in b.markets
  {
    a.markets[id].status == b.markets[id].status && a.markets[id].resolution == b.markets[id].resolution
  }

  /** A market's status and resolution survive a replay exactly when the last ones it asks for are those. */
  lemma {:induction false} ColumnsSurviveIff(db: Db, replay: seq<Entry>, id: string)
    requires id in db.markets
    ensures id in Run(db, replay).markets
    ensures SameColumns(Run(db, replay), db, id) <==>
            EndsAt(replay, id, db.markets[id].status, db.markets[id].resolution)
  {
    RunOnlyGrows(db, replay);
    ColumnsAreLastAccepted(db, replay, id);
    KnownMarketAcceptsAll(db, replay, id, StatusColumn);
    KnownMarketAcceptsAll(db, replay, id, ResolutionColumn);
  }

  /**
   Replaying a prefix of any log, failures and early events included, keeps all statuses and
   resolutions exactly when each market's last ones in the prefix are its last accepted ones in the
   whole log.
   */
  lemma {:induction false} PrefixKeepsColumnsIff(log: seq<Entry>, n: nat)
    requires n <= |log|
    ensures
      var db := Run(EMPTY, log);
      var after := Run(db, log[..n]);
      && db.markets.Keys <= after.markets.Keys
      && ((forall id :: id in db.markets ==> SameColumns(after, db, id)) <==>
          (forall id :: id in db.markets ==>
             EndsAt(log[..n], id, StatusAfter(EMPTY, log, id), ResolutionAfter(EMPTY, log, id))))
  {
    hide Run, EndsAt, StatusAfter, ResolutionAfter, SameColumns;
    var db := Run(EMPTY, log);
    RunOnlyGrows(db, log[..n]);
    forall id | id in db.markets
      ensures db.markets[id].status == StatusAfter(EMPTY, log, id)
      ensures db.markets[id].resolution == ResolutionAfter(EMPTY, log, id)
      ensures id in Run(db, log[..n]).markets
      ensures SameColumns(Run(db, log[..n]), db, id) <==>
              EndsAt(log[..n], id, StatusAfter(EMPTY, log, id), ResolutionAfter(EMPTY, log, id))
    {
      ColumnsAreLastAccepted(EMPTY, log, id);
      ColumnsSurviveIff(db, log[..n], id);
    }
  }

  /**
   A replay leaves markets and bets as they are, statuses and resolutions included, exactly when
   each of its events is absorbed and the last status and the last resolution it asks for in each
   market are those the market has.
   */
  lemma {:induction false} ReplayLeavesTablesIff(db: Db, replay: seq<Entry>)
    ensures Run(db, replay) == db <==>
            && (forall i :: 0 <= i < |replay| && replay[i].ok ==> Absorbed(db, replay[i].event))
            && (forall id :: id in db.markets ==> EndsAt(replay, id, db.markets[id].status, db.markets[id].resolution))
  {
    hide Run, Absorbed, EndsAt;
    var after := Run(db, replay);
    ReplayKeepsBooksIff(db, replay);
    RunOnlyGrows(db, replay);
    forall id | id in db.markets
      ensures id in after.markets
      ensures SameColumns(after, db, id) <==> EndsAt(replay, id, db.markets[id].status, db.markets[id].resolution)
    {
      ColumnsSurviveIff(db, replay, id);
    }
    if SameBooks(db, after) && forall id :: id in db.markets ==> SameColumns(after, db, id) {
      assert after.markets == db.markets;
    }
  }

  /** Every status event follows the creation of its market. */
  ghost predicate StatusAfterCreation(log: seq<Entry>) {
    forall i :: 0 <= i < |log| && IsStatusEvent(log[i].event) ==> CreatedBefore(log, i, log[i].event.market)
  }

  lemma {:induction false} OrderedPrefix(log: seq<Entry>, n: nat)
    requires CreatedFirst(log) && StatusAfterCreation(log) && n <= |log|
    ensures CreatedFirst(log[..n]) && StatusAfterCreation(log[..n])
  {
    forall i: nat, id | i < n ensures CreatedBefore(log, i, id) ==> CreatedBefore(log[..n], i, id) {
      if CreatedBefore(log, i, id) {
        var j :| 0 <= j < |log| && j < i && log[j].event.MarketCreated? && log[j].event.market == id;
        assert log[..n][j] == log[j];
      }
    }
  }

  /** On such a log no status event is lost, so the last one asked for is the last one accepted. */
  lemma {:induction false} OrderedLogAcceptsAll(log: seq<Entry>, id: string, column: Column)
    requires CreatedFirst(log) && StatusAfterCreation(log)
    ensures LastAccepted(EMPTY, log, id, column) == LastWriter(log, id, column)
  {
    if log != [] {
      var n := |log| - 1;
      OrderedPrefix(log, n);
      OrderedLogAcceptsAll(log[..n], id, column);
      if Writes(log[n], id, column) {
        var j :| 0 <= j < |log| && j < n && log[j].event.MarketCreated? && log[j].event.market == id;
        assert log[..n][j] == log[j] && log[j].ok;
        KnownIff(log[..n], EMPTY, id);
      }
    }
  }

  /** The prefix asks last for the status and the resolution that the whole log asks for last. */
  ghost predicate SameEnding(prefix: seq<Entry>, log: seq<Entry>, id: string) {
    && (LastStatus(prefix, id).Some? ==> LastStatus(prefix, id) == LastStatus(log, id))
    && (LastResolution(prefix, id).Some? ==> LastResolution(prefix, id) == LastResolution(log, id))
  }

  /**
   Replaying a prefix of a log after the whole of it restores markets and bets exactly, statuses and
   resolutions included, exactly when no market's last status or last resolution in the prefix
   differs from its last one in the whole log.
   */
  lemma {:induction false} ReplayOfPrefixRestoresIff(log: seq<Entry>, n: nat)
    requires CreatedFirst(log) && StatusAfterCreation(log) && n <= |log|
    ensures Run(Run(EMPTY, log), log[..n]) == Run(EMPTY, log) <==> forall id :: SameEnding(log[..n], log, id)
  {
    hide Run, Absorbed, CreatedFirst, StatusAfterCreation, SameBooks, EndsAt, SameEnding;
    var db, prefix := Run(EMPTY, log), log[..n];
    ReplayOfPrefixKeepsBooks(log, n);
    ReplayKeepsBooksIff(db, prefix);
    ReplayLeavesTablesIff(db, prefix);
    if id :| !SameEnding(prefix, log, id) {
      PrefixEndsAtIff(log, n, id);
      assert id in db.markets && !EndsAt(prefix, id, db.markets[id].status, db.markets[id].resolution);
    }
    if id :| id in db.markets && !EndsAt(prefix, id, db.markets[id].status, db.markets[id].resolution) {
      PrefixEndsAtIff(log, n, id);
    }
  }

  lemma {:induction false} PrefixEndsAtIff(log: seq<Entry>, n: nat, id: string)
    requires CreatedFirst(log) && StatusAfterCreation(log) && n <= |log|
    ensures
      var db := Run(EMPTY, log);
      (id in db.markets ==> EndsAt(log[..n], id, db.markets[id].status, db.markets[id].resolution)) <==>
      SameEnding(log[..n], log, id)
  {
    hide Run, LastWriter, LastAccepted, CreatedFirst, StatusAfterCreation;
    PrefixWriterIsKnown(log, n, id, StatusColumn);
    PrefixWriterIsKnown(log, n, id, ResolutionColumn);
    if id in Run(EMPTY, log).markets {
      ColumnsAreLastAccepted(EMPTY, log, id);
      OrderedLogAcceptsAll(log, id, StatusColumn);
      OrderedLogAcceptsAll(log, id, ResolutionColumn);
    }
  }

  lemma {:induction false} PrefixWriterIsKnown(log: seq<Entry>, n: nat, id: string, column: Column)
    requires CreatedFirst(log) && StatusAfterCreation(log) && n <= |log|
    ensures LastWriter(log[..n], id, column).Some? ==>
              id in Run(EMPTY, log).markets && LastWriter(log, id, column).Some?
  {
    if LastWriter(log[..n], id, column).Some? {
      var i := LastWriterWrites(log[..n], id, column);
      assert log[i] == log[..n][i];
      WriterIsFound(log, i, id, column);
      var j :| 0 <= j < |log| && j < i && log[j].event.MarketCreated? && log[j].event.market == id;
      KnownIff(log, EMPTY, id);
    }
  }

  lemma {:induction false} LastWriterWrites(log: seq<Entry>, id: string, column: Column) returns (i: nat)
    requires LastWriter(log, id, column).Some?
    ensures i < |log| && Writes(log[i], id, column)
  {
    if Writes(log[|log| - 1], id, column) {
      i := |log| - 1;
    } else {
      i := LastWriterWrites(log[..|log| - 1], id, column);
    }
  }

  lemma {:induction false} WriterIsFound(log: seq<Entry>, i: nat, id: string, column: Column)
    requires i < |log| && Writes(log[i], id, column)
    ensures LastWriter(log, id, column).Some?
  {
    if i < |log| - 1 {
      WriterIsFound(log[..|log| - 1], i, id, column);
    }
  }

  /** A replay does not keep statuses: it takes a resolved market back to locked. */
  lemma ReplayReopensResolvedMarket(id: string, feeBps: Option<int>, resolution: Resolution)
    ensures
      var log := [Entry(MarketCreated(id, feeBps), true), Entry(MarketLocked(id), true),
                  Entry(MarketResolved(id, resolution), true)];
      var db := Run(EMPTY, log);
      && id in db.markets && db.markets[id].status == Resolved
      && id in Run(db, log[..2]).markets && Run(db, log[..2]).markets[id].status == Locked
  {
    var e0 := Entry(MarketCreated(id, feeBps), true);
    var e1 := Entry(MarketLocked(id), true);
    var e2 := Entry(MarketResolved(id, resolution), true);
    var log := [e0, e1, e2];
    assert log[..2] == [e0, e1] == [e0] + [e1] && log == [e0, e1] + [e2];
    RunSplit(EMPTY, [e0], [e1]);
    RunSplit(EMPTY, [e0, e1], [e2]);
    RunOne(EMPTY, e0);
    RunOne(Process(EMPTY, e0), e1);
    RunOne(Run(EMPTY, [e0, e1]), e2);
    var db := Run(EMPTY, log);
    RunSplit(db, [e0], [e1]);
    RunOne(db, e0);
    RunOne(Process(db, e0), e1);
  }

  // ----- What each event writes -----

  /** The three status events, each with the status it sets; only a resolution writes the resolution. */
  lemma {:induction false} StatusEventsSet(db: Db, id: string, resolution: Resolution)
    requires id in db.markets
    ensures
      var m := db.markets[id];
      && Process(db, Entry(MarketLocked(id), true)) == Db(db.markets[id := m.(status := Locked)], db.bets)
      && Process(db, Entry(MarketCancelled(id), true)) == Db(db.markets[id := m.(status := Cancelled)], db.bets)
      && Process(db, Entry(MarketResolved(id, resolution), true)) ==
           Db(db.markets[id := m.(status := Resolved, resolution := Some(resolution))], db.bets)
  {}

  /** A status event for an unknown market changes nothing. */
  lemma {:induction false} UnknownMarketStays(db: Db, id: string, resolution: Resolution)
    requires id !in db.markets
    ensures Process(db, Entry(MarketLocked(id), true)) == db
    ensures Process(db, Entry(MarketCancelled(id), true)) == db
    ensures Process(db, Entry(MarketResolved(id, resolution), true)) == db
  {}

  /** The entry creates the market: it succeeds, and none before it did. */
  ghost predicate Creates(log: seq<Entry>, j: nat, id: string) {
    && j < |log| && log[j].ok && log[j].event.MarketCreated? && log[j].event.market == id
    && forall k :: 0 <= k < j && log[k].ok && log[k].event.MarketCreated? ==> log[k].event.market != id
  }

  /** A market has the fee that its first successful creation names, or 200 basis points. */
  lemma {:induction false} FeeIsFromCreation(log: seq<Entry>, id: string) returns (j: nat)
    requires id in Run(EMPTY, log).markets
    ensures Creates(log, j, id)
    ensures Run(EMPTY, log).markets[id].feeBps ==
            (if log[j].event.feeBps.Some? then log[j].event.feeBps.value else 200)
  {
    var n := |log| - 1;
    RunSnoc(EMPTY, log);
    if id in Run(EMPTY, log[..n]).markets {
      j := FeeIsFromCreation(log[..n], id);
      assert forall k :: 0 <= k <= j ==> log[..n][k] == log[k];
    } else {
      j := n;
      forall k | 0 <= k < n && log[k].ok && log[k].event.MarketCreated? ensures log[k].event.market != id {
        KnownIff(log[..n], EMPTY, id);
        assert log[..n][k] == log[k];
      }
    }
  }

  /** The first entry that records the transaction. */
  ghost predicate FirstRecords(log: seq<Entry>, i: nat, txHash: string) {
    && i < |log| && RecordsTx(log, EMPTY, i, txHash)
    && forall k :: 0 <= k < i ==> !RecordsTx(log, EMPTY, k, txHash)
  }

  /** The recorded bets are those of the first recording entry of each transaction, as the event has them. */
  lemma {:induction false} RecordedBetsAre(log: seq<Entry>, bet: Bet)
    ensures bet in Run(EMPTY, log).bets <==>
            exists i :: 0 <= i < |log| && FirstRecords(log, i, bet.txHash) && log[i].event == BetPlaced(bet)
    decreases |log|
  {
    if log != [] {
      var n := |log| - 1;
      var init := log[..n];
      RunSnoc(EMPTY, log);
      RecordedBetsAre(init, bet);
      RecordedIff(init, EMPTY, bet.txHash);
      forall i: nat | i < n
        ensures RecordsTx(log, EMPTY, i, bet.txHash) <==> RecordsTx(init, EMPTY, i, bet.txHash)
        ensures init[i] == log[i]
      {
        assert log[..i] == init[..i];
      }
      forall i: nat | i < n ensures FirstRecords(log, i, bet.txHash) <==> FirstRecords(init, i, bet.txHash) {}
      hide RecordsTx;
      LastRecords(log, bet);
    }
  }

  /** What the last entry adds. */
  lemma {:induction false} LastRecords(log: seq<Entry>, bet: Bet)
    requires log != []
    ensures
      var n := |log| - 1;
      var before := Run(EMPTY, log[..n]);
      bet in Process(before, log[n]).bets <==>
      bet in before.bets ||
      (log[n].event == BetPlaced(bet) && RecordsTx(log, EMPTY, n, bet.txHash) && !HasTx(before.bets, bet.txHash))
  {}

  // ----- Order of distinct bets -----

  /** Same markets and the same bets, in whatever order they were inserted. */
  ghost predicate Equivalent(a: Db, b: Db) {
    a.markets == b.markets && multiset(a.bets) == multiset(b.bets)
  }

  /** Two bet events that are either for different transactions or copies of each other. */
  predicate Compatible(a: Entry, b: Entry) {
    && a.event.BetPlaced? && b.event.BetPlaced?
    && (a.event.bet.txHash != b.event.bet.txHash || a.event == b.event)
  }

  lemma TxOfMultiset(a: seq<Bet>, b: seq<Bet>, txHash: string)
    requires multiset(a) == multiset(b)
    ensures HasTx(a, txHash) ==> HasTx(b, txHash)
  {
    if HasTx(a, txHash) {
      var i :| 0 <= i < |a| && a[i].txHash == txHash;
      assert a[i] in multiset(b);
      var j :| 0 <= j < |b| && b[j] == a[i];
    }
  }

  lemma ProcessRespectsEquivalence(a: Db, b: Db, entry: Entry)
    requires Equivalent(a, b) && entry.event.BetPlaced?
    ensures Equivalent(Process(a, entry), Process(b, entry))
  {
    TxOfMultiset(a.bets, b.bets, entry.event.bet.txHash);
    TxOfMultiset(b.bets, a.bets, entry.event.bet.txHash);
  }

  lemma TxAfterPlaceBet(db: Db, bet: Bet, txHash: string)
    requires txHash != bet.txHash
    ensures HasTx(PlaceBet(db, bet).bets, txHash) <==> HasTx(db.bets, txHash)
  {
    AppendTx(db, Entry(BetPlaced(bet), true), txHash);
  }

  lemma PoolAdditionsCommute(m: Market, x: Bet, y: Bet)
    ensures AddToPool(AddToPool(m, x.side, x.amount), y.side, y.amount)
            == AddToPool(AddToPool(m, y.side, y.amount), x.side, x.amount)
  {}

  lemma AcceptedBetsCommute(db: Db, x: Bet, y: Bet)
    requires x.txHash != y.txHash && x.market in db.markets && y.market in db.markets
    requires !HasTx(db.bets, x.txHash) && !HasTx(db.bets, y.txHash)
    ensures Equivalent(PlaceBet(PlaceBet(db, x), y), PlaceBet(PlaceBet(db, y), x))
  {
    TxAfterPlaceBet(db, x, y.txHash);
    TxAfterPlaceBet(db, y, x.txHash);
    hide HasTx, AddToPool;
    var m, mx, my := db.markets, PlaceBet(db, x).markets, PlaceBet(db, y).markets;
    PoolAdditionsCommute(m[x.market], x, y);
    assert PlaceBet(PlaceBet(db, x), y).bets == db.bets + [x] + [y];
    assert PlaceBet(PlaceBet(db, y), x).bets == db.bets + [y] + [x];
    assert PlaceBet(PlaceBet(db, x), y).markets == mx[y.market := AddToPool(mx[y.market], y.side, y.amount)];
    assert PlaceBet(PlaceBet(db, y), x).markets == my[x.market := AddToPool(my[x.market], x.side, x.amount)];
    assert mx[y.market := AddToPool(mx[y.market], y.side, y.amount)]
           == my[x.market := AddToPool(my[x.market], x.side, x.amount)];
  }

  lemma DistinctBetsCommute(db: Db, x: Bet, y: Bet)
    requires x.txHash != y.txHash
    ensures Equivalent(PlaceBet(PlaceBet(db, x), y), PlaceBet(PlaceBet(db, y), x))
  {
    if x.market in db.markets && y.market in db.markets && !HasTx(db.bets, x.txHash) && !HasTx(db.bets, y.txHash) {
      AcceptedBetsCommute(db, x, y);
    } else {
      TxAfterPlaceBet(db, x, y.txHash);
      TxAfterPlaceBet(db, y, x.txHash);
    }
  }

  lemma BetsCommute(db: Db, x: Entry, y: Entry)
    requires Compatible(x, y)
    ensures Equivalent(Process(Process(db, x), y), Process(Process(db, y), x))
  {
    if x.ok && y.ok && x.event != y.event {
      DistinctBetsCommute(db, x.event.bet, y.event.bet);
    }
  }

  lemma {:induction false} RunRespectsEquivalence(a: Db, b: Db, log: seq<Entry>)
    requires Equivalent(a, b)
    requires forall i :: 0 <= i < |log| ==> log[i].event.BetPlaced?
    ensures Equivalent(Run(a, log), Run(b, log))
    decreases |log|
  {
    if log != [] {
      ProcessRespectsEquivalence(a, b, log[0]);
      RunRespectsEquivalence(Process(a, log[0]), Process(b, log[0]), log[1..]);
    }
  }

  /** A bet may be moved to the front of the bets before it. */
  lemma {:induction false} MoveToFront(db: Db, before: seq<Entry>, x: Entry)
    requires forall i :: 0 <= i < |before| ==> Compatible(before[i], x)
    ensures Equivalent(Process(Run(db, before), x), Run(Process(db, x), before))
    decreases |before|
  {
    if before != [] {
      var y, rest := before[0], before[1..];
      MoveToFront(Process(db, y), rest, x);
      BetsCommute(db, y, x);
      RunRespectsEquivalence(Process(Process(db, y), x), Process(Process(db, x), y), rest);
    }
  }

  lemma WithoutOne(log: seq<Entry>, k: nat)
    requires k < |log|
    ensures log == log[..k] + [log[k]] + log[k + 1..]
    ensures multiset(log[..k] + log[k + 1..]) == multiset(log) - multiset{log[k]}
  {
    assert log == log[..k] + [log[k]] + log[k + 1..];
    assert multiset(log) == multiset(log[..k]) + multiset{log[k]} + multiset(log[k + 1..]);
  }

  lemma {:induction false} MatchingPosition(a: seq<Entry>, b: seq<Entry>) returns (k: nat)
    requires a != [] && multiset(a) == multiset(b)
    ensures k < |b| && b[k] == a[0]
    ensures b == b[..k] + [a[0]] + b[k + 1..]
    ensures multiset(a[1..]) == multiset(b[..k] + b[k + 1..])
    ensures forall i :: 0 <= i < |b| ==> b[i] in a
  {
    assert a[0] in multiset(b);
    k :| 0 <= k < |b| && b[k] == a[0];
    WithoutOne(a, 0);
    WithoutOne(b, k);
    assert a[..0] + a[1..] == a[1..];
    forall i | 0 <= i < |b| ensures b[i] in a {
      assert b[i] in multiset(b);
    }
  }

  /** The order in which distinct bets (and copies of them) arrive does not change any pool. */
  lemma {:induction false} OrderDoesNotMatter(db: Db, a: seq<Entry>, b: seq<Entry>)
    requires multiset(a) == multiset(b)
    requires forall x, y :: x in a && y in a ==> Compatible(x, y)
    ensures Equivalent(Run(db, a), Run(db, b))
    decreases |a|
  {
    if a == [] {
      assert |multiset(b)| == 0;
    } else {
      var x, rest := a[0], a[1..];
      var k := MatchingPosition(a, b);
      var pre, post := b[..k], b[k + 1..];
      forall i | 0 <= i < |pre| ensures Compatible(pre[i], x) {
        assert pre[i] == b[i];
      }
      forall i | 0 <= i < |post| ensures post[i].event.BetPlaced? {
        assert post[i] == b[k + 1 + i];
        assert Compatible(post[i], x);
      }
      OrderDoesNotMatter(Process(db, x), rest, pre + post);
      BringForward(db, pre, x, post);
      assert b == pre + [x] + post;
    }
  }

  lemma BringForward(db: Db, pre: seq<Entry>, x: Entry, post: seq<Entry>)
    requires forall i :: 0 <= i < |pre| ==> Compatible(pre[i], x)
    requires forall i :: 0 <= i < |post| ==> post[i].event.BetPlaced?
    ensures Equivalent(Run(Process(db, x), pre + post), Run(db, pre + [x] + post))
  {
    MoveToFront(db, pre, x);
    RunSplit(Process(db, x), pre, post);
    RunSplit(db, pre + [x], post);
    RunSplit(db, pre, [x]);
    RunOne(Run(db, pre), x);
    RunRespectsEquivalence(Process(Run(db, pre), x), Run(Process(db, x), pre), post);
  }

  // ----- The processor with its handlers -----

  class StellarEventProcessor {
    var markets: map<string, Market>
    var bets: seq<Bet>

    ghost function State(): Db
      reads this
    {
      Db(markets, bets)
    }

    constructor ()
      ensures State() == EMPTY && Booked(State())
    {
      markets, bets := map[], [];
    }

    method HandleMarketCreated(id: string, feeBps: Option<int>)
      requires Booked(State())
      modifies this`markets
      ensures Booked(State())
      ensures State() == Process(old(State()), Entry(MarketCreated(id, feeBps), true))
    {
      ProcessKeepsBooks(State(), Entry(MarketCreated(id, feeBps), true));
      if id !in markets {
        markets := markets[id := NewMarket(feeBps)];
      }
    }

    /** One transaction: insert the bet, then add it to its pool if a row was inserted; None rolls back. */
    method HandleBetPlaced(bet: Bet) returns (committed: bool)
      requires Booked(State())
      modifies this
      ensures Booked(State())
      ensures State() == Process(old(State()), Entry(BetPlaced(bet), true))
      ensures committed <==> HasTx(old(bets), bet.txHash) || bet.market in old(markets)
      ensures State() != old(State()) <==> !HasTx(old(bets), bet.txHash) && bet.market in old(markets)
    {
      ProcessKeepsBooks(State(), Entry(BetPlaced(bet), true));
      hide Booked, HasTx;
      var inserted := !HasTx(bets, bet.txHash);
      if inserted {
        if bet.market !in markets {
          return false;
        }
        markets := markets[bet.market := AddToPool(markets[bet.market], bet.side, bet.amount)];
        bets := bets + [bet];
      }
      committed := true;
    }

    method HandleMarketLocked(id: string)
      requires Booked(State())
      modifies this`markets
      ensures Booked(State())
      ensures State() == Process(old(State()), Entry(MarketLocked(id), true))
    {
      ProcessKeepsBooks(State(), Entry(MarketLocked(id), true));
      if id in markets {
        markets := markets[id := markets[id].(status := Locked)];
      }
    }

    method HandleMarketResolved(id: string, resolution: Resolution)
      requires Booked(State())
      modifies this`markets
      ensures Booked(State())
      ensures State() == Process(old(State()), Entry(MarketResolved(id, resolution), true))
    {
      ProcessKeepsBooks(State(), Entry(MarketResolved(id, resolution), true));
      if id in markets {
        markets := markets[id := markets[id].(status := Resolved, resolution := Some(resolution))];
      }
    }

    method HandleMarketCancelled(id: string)
      requires Booked(State())
      modifies this`markets
      ensures Booked(State())
      ensures State() == Process(old(State()), Entry(MarketCancelled(id), true))
    {
      ProcessKeepsBooks(State(), Entry(MarketCancelled(id), true));
      if id in markets {
        markets := markets[id := markets[id].(status := Cancelled)];
      }
    }

    /** Dispatches an event; a handler that fails has rolled back and its error goes no further. */
    method ProcessEvent(entry: Entry)
      requires Booked(State())
      modifies this
      ensures Booked(State())
      ensures State() == Process(old(State()), entry)
    {
      if !entry.ok {
        return;
      }
      match entry.event
      case MarketCreated(id, feeBps) => HandleMarketCreated(id, feeBps);
      case BetPlaced(bet) => var _ := HandleBetPlaced(bet);
      case MarketLocked(id) => HandleMarketLocked(id);
      case MarketResolved(id, resolution) => HandleMarketResolved(id, resolution);
      case MarketCancelled(id) => HandleMarketCancelled(id);
      case Unrelated =>
    }
  }
}
