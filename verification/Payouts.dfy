/**
 Parimutuel payouts: `calculateProjectedPayout` of backend/src/services/BetService.ts and the
 quotes of backend/src/routes/betGroup4.routes.ts, over the tables that EventProcessor keeps.
 All of it is exact integer arithmetic.
 */
module Payouts {
  import opened Common
  import opened EventProcessor

  const BPS := 10000

  datatype PayoutError = InvalidAddress | MarketNotFound(market: string)

  /** BigInt division: the quotient is truncated toward zero. */
  function BigDiv(n: int, d: int): int
    requires d != 0
  {
    var q := Abs(n) / Abs(d);
    if (n < 0) != (d < 0) then -q else q
  }

  function Abs(n: int): nat {
    if n < 0 then -n else n
  }

  function Fee(totalPool: int, feeBps: int): int {
    BigDiv(totalPool * feeBps, BPS)
  }

  /** What one bet of `amount` on `side` pays when that side wins. */
  function BetPayout(market: Market, side: Side, amount: int): int {
    var pool := market.Pool(side);
    if pool == 0 then 0
    else BigDiv(amount * (market.totalPool - Fee(market.totalPool, market.feeBps)), pool)
  }

  /** The first row of the bettor's bets in the market; the query does not order them. */
  predicate IsFirstRow(db: Db, id: string, bettor: string, row: Option<Bet>) {
    match row
    case None => forall i :: 0 <= i < |db.bets| ==> !(db.bets[i].market == id && db.bets[i].bettor == bettor)
    case Some(bet) => bet in db.bets && bet.market == id && bet.bettor == bettor
  }

  function ProjectedPayout(db: Db, id: string, bettor: string, row: Option<Bet>, outcome: Option<Side>)
    : Result<int, PayoutError>
  {
    if !IsStellarAddress(bettor) then Err(InvalidAddress)
    else if id !in db.markets then Err(MarketNotFound(id))
    else if db.markets[id].status == Cancelled then Ok(0)
    else if row.None? then Ok(0)
    else if outcome.None? || row.value.side != outcome.value then Ok(0)
    else Ok(BetPayout(db.markets[id], outcome.value, row.value.amount))
  }

  /** The errors: an address that is no public key, and then a market that is unknown. */
  lemma {:induction false} ProjectionErrors(db: Db, id: string, bettor: string, row: Option<Bet>, outcome: Option<Side>)
    ensures
      var answer := ProjectedPayout(db, id, bettor, row, outcome);
      && (answer == Err(InvalidAddress) <==>
            || |bettor| != 56 || bettor[0] != 'G'
            || exists i :: 1 <= i < 56 && !('A' <= bettor[i] <= 'Z' || '2' <= bettor[i] <= '7'))
      && (answer.Err? ==> answer == Err(InvalidAddress) || answer == Err(MarketNotFound(id)))
      && (answer == Err(MarketNotFound(id)) ==> id !in db.markets)
      && (answer.Ok? ==> id in db.markets)
  {}

  // ----- Reachable markets -----

  /** Amounts are positive and fees between 0 and 100 %, as the request schemas and the contract have it. */
  ghost predicate Sane(db: Db) {
    && (forall i :: 0 <= i < |db.bets| ==> db.bets[i].amount > 0)
    && (forall id :: id in db.markets ==> 0 <= db.markets[id].feeBps <= BPS)
  }

  predicate SaneEvent(event: Event) {
    match event
    case MarketCreated(_, feeBps) => feeBps.Some? ==> 0 <= feeBps.value <= BPS
    case BetPlaced(bet) => bet.amount > 0
    case _ => true
  }

  lemma {:induction false} RunKeepsSane(db: Db, log: seq<Entry>)
    requires Sane(db) && forall i :: 0 <= i < |log| ==> SaneEvent(log[i].event)
    ensures Sane(Run(db, log))
    decreases |log|
  {
    if log != [] {
      assert SaneEvent(log[0].event);
      assert Sane(Process(db, log[0]));
      RunKeepsSane(Process(db, log[0]), log[1..]);
    }
  }

  lemma {:induction false} SideSumNonNegative(bets: seq<Bet>, id: string, side: Side)
    requires forall i :: 0 <= i < |bets| ==> bets[i].amount > 0
    ensures SideSum(bets, id, side) >= 0
  {
    if bets != [] {
      SideSumNonNegative(bets[..|bets| - 1], id, side);
    }
  }

  lemma PoolsNonNegative(db: Db, id: string)
    requires Booked(db) && Sane(db) && id in db.markets
    ensures forall side :: 0 <= db.markets[id].Pool(side) <= db.markets[id].totalPool
  {
    assert PoolsMatch(db.markets[id], db.bets, id);
    SideSumNonNegative(db.bets, id, FighterA);
    SideSumNonNegative(db.bets, id, FighterB);
    SideSumNonNegative(db.bets, id, Draw);
  }

  lemma FeeWithin(total: int, feeBps: int)
    requires 0 <= total && 0 <= feeBps <= BPS
    ensures Fee(total, feeBps) == total * feeBps / BPS
    ensures 0 <= Fee(total, feeBps) <= total
  {
    MulMono(0, feeBps, total);
    MulMono(feeBps, BPS, total);
    FloorDivMono(0, total * feeBps, BPS);
    FloorDivMono(total * feeBps, total * BPS, BPS);
    FloorDivUnique(total * BPS, BPS, total);
  }

  /** The fee in basis points of ten thousand, rounded down, and the share of what is left, rounded down. */
  lemma {:induction false} PayoutFormula(market: Market, side: Side, amount: int)
    requires amount >= 0 && market.Pool(side) > 0 && market.totalPool >= 0 && 0 <= market.feeBps <= 10000
    ensures
      var fee := market.totalPool * market.feeBps / 10000;
      && Fee(market.totalPool, market.feeBps) == fee
      && (side == FighterA ==> BetPayout(market, side, amount) == amount * (market.totalPool - fee) / market.poolA)
      && (side == FighterB ==> BetPayout(market, side, amount) == amount * (market.totalPool - fee) / market.poolB)
      && (side == Draw ==> BetPayout(market, side, amount) == amount * (market.totalPool - fee) / market.poolDraw)
  {
    FeeWithin(market.totalPool, market.feeBps);
    MulMono(0, amount, market.totalPool - Fee(market.totalPool, market.feeBps));
  }

  // ----- Solvency -----

  function WinningPayouts(bets: seq<Bet>, market: Market, id: string, side: Side): int {
    if bets == [] then 0
    else
      var last := bets[|bets| - 1];
      WinningPayouts(bets[..|bets| - 1], market, id, side)
      + (if last.market == id && last.side == side then BetPayout(market, side, last.amount) else 0)
  }

  function WinningBets(bets: seq<Bet>, id: string, side: Side): nat {
    if bets == [] then 0
    else
      var last := bets[|bets| - 1];
      WinningBets(bets[..|bets| - 1], id, side) + (if last.market == id && last.side == side then 1 else 0)
  }

  /** The positions of the winning bets. */
  ghost function Winners(bets: seq<Bet>, id: string, side: Side): set<nat> {
    set i: nat | i < |bets| && bets[i].market == id && bets[i].side == side
  }

  lemma {:induction false} WinnersGrow(bets: seq<Bet>, last: Bet, id: string, side: Side)
    ensures Winners(bets + [last], id, side) ==
            Winners(bets, id, side) + (if last.market == id && last.side == side then {|bets|} else {})
  {
    var all := bets + [last];
    forall i: nat | i <= |bets| ensures all[i] == if i < |bets| then bets[i] else last {}
  }

  lemma {:induction false} WinningBetsCounted(bets: seq<Bet>, id: string, side: Side)
    ensures WinningBets(bets, id, side) == |Winners(bets, id, side)|
  {
    hide Winners;
    if bets != [] {
      var init, last := bets[..|bets| - 1], bets[|bets| - 1];
      WinningBetsCounted(init, id, side);
      WinnersGrow(init, last, id, side);
      WinnersBelow(init, id, side);
      assert init + [last] == bets;
    } else {
      WinnersBelow(bets, id, side);
      assert Winners(bets, id, side) == {};
    }
  }

  lemma WinnersBelow(bets: seq<Bet>, id: string, side: Side)
    ensures forall i :: i in Winners(bets, id, side) ==> i < |bets|
  {}

  /** One payout is the floor of the bet's share of the pool after the fee. */
  lemma PayoutIsShare(market: Market, side: Side, amount: int)
    requires amount >= 0 && market.Pool(side) > 0 && market.totalPool >= 0 && 0 <= market.feeBps <= BPS
    ensures
      var distributable := market.totalPool - Fee(market.totalPool, market.feeBps);
      var payout := BetPayout(market, side, amount);
      && payout >= 0
      && payout * market.Pool(side) <= amount * distributable <= (payout + 1) * market.Pool(side) - 1
  {
    FeeWithin(market.totalPool, market.feeBps);
    var distributable := market.totalPool - Fee(market.totalPool, market.feeBps);
    MulMono(0, amount, distributable);
    FloorDiv(amount * distributable, market.Pool(side));
    FloorDivMono(0, amount * distributable, market.Pool(side));
  }

  lemma {:induction false} PayoutsBracketShare(bets: seq<Bet>, market: Market, id: string, side: Side)
    requires forall i :: 0 <= i < |bets| ==> bets[i].amount > 0
    requires market.Pool(side) > 0 && market.totalPool >= 0 && 0 <= market.feeBps <= BPS
    ensures
      var distributable := market.totalPool - Fee(market.totalPool, market.feeBps);
      var paid, pool, n := WinningPayouts(bets, market, id, side), market.Pool(side), WinningBets(bets, id, side);
      paid * pool <= SideSum(bets, id, side) * distributable <= paid * pool + n * pool - n
  {
    if bets != [] {
      var init, last := bets[..|bets| - 1], bets[|bets| - 1];
      PayoutsBracketShare(init, market, id, side);
      if last.market == id && last.side == side {
        PayoutIsShare(market, side, last.amount);
        var distributable := market.totalPool - Fee(market.totalPool, market.feeBps);
        var paid, pool, n := WinningPayouts(init, market, id, side), market.Pool(side), WinningBets(init, id, side);
        var p := BetPayout(market, side, last.amount);
        AddShares(paid, p, pool, n, SideSum(init, id, side), last.amount, distributable);
      }
    }
  }

  lemma AddShares(paid: int, p: int, pool: int, n: int, sum: int, amount: int, distributable: int)
    requires paid * pool <= sum * distributable <= paid * pool + n * pool - n
    requires p * pool <= amount * distributable <= (p + 1) * pool - 1
    ensures (paid + p) * pool <= (sum + amount) * distributable <= (paid + p) * pool + (n + 1) * pool - (n + 1)
  {
    assert (paid + p) * pool == paid * pool + p * pool;
    assert (sum + amount) * distributable == sum * distributable + amount * distributable;
    assert (n + 1) * pool == n * pool + pool;
    assert (p + 1) * pool == p * pool + pool;
  }

  /**
   Solvency of every reachable market, for every outcome somebody backed: the floor payouts of all
   winning bets together never exceed the pool after the fee, and what rounding leaves over is
   strictly less than the number of winning bets.
   */
  lemma Solvency(log: seq<Entry>, id: string, side: Side)
    requires forall i :: 0 <= i < |log| ==> SaneEvent(log[i].event)
    requires id in Run(EMPTY, log).markets && Run(EMPTY, log).markets[id].Pool(side) != 0
    ensures
      var db := Run(EMPTY, log);
      var market := db.markets[id];
      var left := market.totalPool - Fee(market.totalPool, market.feeBps) - WinningPayouts(db.bets, market, id, side);
      0 <= left < WinningBets(db.bets, id, side)
  {
    RunKeepsBooks(EMPTY, log);
    RunKeepsSane(EMPTY, log);
    var db := Run(EMPTY, log);
    var market := db.markets[id];
    PoolsNonNegative(db, id);
    PayoutsBracketShare(db.bets, market, id, side);
    assert PoolsMatch(market, db.bets, id) && SideSum(db.bets, id, side) == market.Pool(side);
    var distributable := market.totalPool - Fee(market.totalPool, market.feeBps);
    var paid, pool, n := WinningPayouts(db.bets, market, id, side), market.Pool(side), WinningBets(db.bets, id, side);
    if n == 0 {
      NoWinnersNoPool(db.bets, id, side);
    }
    DivideBracket(paid, pool, n, distributable);
  }

  lemma {:induction false} NoWinnersNoPool(bets: seq<Bet>, id: string, side: Side)
    ensures WinningBets(bets, id, side) == 0 ==> SideSum(bets, id, side) == 0
  {
    if bets != [] {
      NoWinnersNoPool(bets[..|bets| - 1], id, side);
    }
  }

  lemma DivideBracket(paid: int, pool: int, n: int, distributable: int)
    requires pool > 0 && n > 0
    requires paid * pool <= pool * distributable <= paid * pool + n * pool - n
    ensures 0 <= distributable - paid < n
  {
    assert pool * distributable == distributable * pool;
    MulCancel(paid, distributable, pool);
    assert (paid + n - 1) * pool == paid * pool + n * pool - pool;
    assert distributable * pool < (paid + n - 1) * pool + pool;
    MulCancel(distributable, paid + n - 1, pool);
  }

  // ----- What the projections promise together -----

  /** What `calculateProjectedPayout` answers when this row of the market is read; an error promises nothing. */
  function Promise(db: Db, id: string, row: Bet, side: Side): int {
    if row.market != id then 0
    else
      match ProjectedPayout(db, id, row.bettor, Some(row), Some(side))
      case Ok(payout) => payout
      case Err(_) => 0
  }

  function Promised(db: Db, id: string, rows: seq<Bet>, side: Side): int {
    if rows == [] then 0
    else Promised(db, id, rows[..|rows| - 1], side) + Promise(db, id, rows[|rows| - 1], side)
  }

  lemma {:induction false} PromisedIsPaid(db: Db, id: string, rows: seq<Bet>, side: Side)
    requires id in db.markets && db.markets[id].status != Cancelled
    requires forall i :: 0 <= i < |rows| && rows[i].market == id ==> IsStellarAddress(rows[i].bettor)
    ensures Promised(db, id, rows, side) == WinningPayouts(rows, db.markets[id], id, side)
  {
    if rows != [] {
      PromisedIsPaid(db, id, rows[..|rows| - 1], side);
    }
  }

  /**
   Solvency as the bettors see it: while a market is not cancelled, the payouts projected for all
   its bets exceed neither the pool after the fee nor fall short of it by a unit per winning bet.
   */
  lemma {:induction false} ProjectionsAreSolvent(log: seq<Entry>, id: string, side: Side)
    requires forall i :: 0 <= i < |log| ==> SaneEvent(log[i].event)
    requires id in Run(EMPTY, log).markets && Run(EMPTY, log).markets[id].Pool(side) != 0
    requires Run(EMPTY, log).markets[id].status != Cancelled
    requires forall b :: b in Run(EMPTY, log).bets && b.market == id ==> IsStellarAddress(b.bettor)
    ensures
      var db := Run(EMPTY, log);
      var market := db.markets[id];
      var left := market.totalPool - Fee(market.totalPool, market.feeBps) - Promised(db, id, db.bets, side);
      0 <= left < WinningBets(db.bets, id, side)
  {
    Solvency(log, id, side);
    PromisedIsPaid(Run(EMPTY, log), id, Run(EMPTY, log).bets, side);
  }

  lemma {:induction false} PayoutsConcat(a: seq<Bet>, b: seq<Bet>, market: Market, id: string, side: Side)
    ensures WinningPayouts(a + b, market, id, side)
            == WinningPayouts(a, market, id, side) + WinningPayouts(b, market, id, side)
    decreases |b|
  {
    if b == [] {
      assert a + b == a;
    } else {
      assert (a + b)[..|a + b| - 1] == a + b[..|b| - 1];
      PayoutsConcat(a, b[..|b| - 1], market, id, side);
    }
  }

  /** Different bets out of a list. */
  ghost predicate DrawnFrom(rows: seq<Bet>, bets: seq<Bet>) {
    && (forall i, j :: 0 <= i < j < |rows| ==> rows[i] != rows[j])
    && (forall i :: 0 <= i < |rows| ==> rows[i] in bets)
  }

  function Without(bets: seq<Bet>, k: nat): seq<Bet>
    requires k < |bets|
  {
    bets[..k] + bets[k + 1..]
  }

  lemma WithoutMembers(bets: seq<Bet>, k: nat, b: Bet)
    requires k < |bets|
    ensures b in Without(bets, k) ==> b in bets
    ensures b in bets && b != bets[k] ==> b in Without(bets, k)
  {
    if b in bets && b != bets[k] {
      var i :| 0 <= i < |bets| && bets[i] == b;
      assert Without(bets, k)[if i < k then i else i - 1] == b;
    }
  }

  lemma DrawWithoutLast(rows: seq<Bet>, bets: seq<Bet>, k: nat)
    requires DrawnFrom(rows, bets) && rows != [] && k < |bets| && bets[k] == rows[|rows| - 1]
    ensures DrawnFrom(rows[..|rows| - 1], Without(bets, k))
  {
    forall i | 0 <= i < |rows| - 1 ensures rows[i] in Without(bets, k) {
      WithoutMembers(bets, k, rows[i]);
    }
  }

  lemma {:induction false} TakeOut(bets: seq<Bet>, k: nat, market: Market, id: string, side: Side)
    requires k < |bets|
    ensures WinningPayouts(bets, market, id, side) ==
            WinningPayouts(Without(bets, k), market, id, side) + WinningPayouts([bets[k]], market, id, side)
  {
    var front, back := bets[..k], bets[k + 1..];
    assert bets == front + ([bets[k]] + back);
    PayoutsConcat(front, [bets[k]] + back, market, id, side);
    PayoutsConcat([bets[k]], back, market, id, side);
    PayoutsConcat(front, back, market, id, side);
  }

  lemma {:induction false} PayoutsNonNegative(bets: seq<Bet>, market: Market, id: string, side: Side)
    requires forall b :: b in bets ==> b.amount > 0
    requires market.Pool(side) > 0 && market.totalPool >= 0 && 0 <= market.feeBps <= BPS
    ensures WinningPayouts(bets, market, id, side) >= 0
  {
    if bets != [] {
      PayoutsNonNegative(bets[..|bets| - 1], market, id, side);
      PayoutIsShare(market, side, bets[|bets| - 1].amount);
    }
  }

  /** Some of the bets win no more than all of them. */
  lemma {:induction false} SomePayLess(rows: seq<Bet>, bets: seq<Bet>, market: Market, id: string, side: Side)
    requires DrawnFrom(rows, bets) && forall b :: b in bets ==> b.amount > 0
    requires market.Pool(side) > 0 && market.totalPool >= 0 && 0 <= market.feeBps <= BPS
    ensures 0 <= WinningPayouts(rows, market, id, side) <= WinningPayouts(bets, market, id, side)
    decreases |rows|
  {
    if rows == [] {
      PayoutsNonNegative(bets, market, id, side);
    } else {
      var last := rows[|rows| - 1];
      var k :| 0 <= k < |bets| && bets[k] == last;
      DrawWithoutLast(rows, bets, k);
      forall b | b in Without(bets, k) ensures b.amount > 0 {
        WithoutMembers(bets, k, b);
      }
      PayoutIsShare(market, side, last.amount);
      OnePayout(last, market, id, side);
      TakeOut(bets, k, market, id, side);
      hide DrawnFrom, BetPayout, Without;
      SomePayLess(rows[..|rows| - 1], Without(bets, k), market, id, side);
    }
  }

  lemma OnePayout(bet: Bet, market: Market, id: string, side: Side)
    ensures WinningPayouts([bet], market, id, side) ==
            if bet.market == id && bet.side == side then BetPayout(market, side, bet.amount) else 0
  {
    assert [bet][..0] == [];
    assert WinningPayouts([], market, id, side) == 0;
  }

  lemma {:induction false} PromisedAtMostPaid(db: Db, id: string, rows: seq<Bet>, side: Side)
    requires Booked(db) && Sane(db) && id in db.markets && db.markets[id].Pool(side) > 0
    requires forall i :: 0 <= i < |rows| ==> rows[i] in db.bets
    ensures 0 <= Promised(db, id, rows, side) <= WinningPayouts(rows, db.markets[id], id, side)
  {
    if rows != [] {
      PromisedAtMostPaid(db, id, rows[..|rows| - 1], side);
      PoolsNonNegative(db, id);
      PayoutIsShare(db.markets[id], side, rows[|rows| - 1].amount);
    }
  }

  /**
   On every reachable market, cancelled or not, and for every outcome: whichever of their rows are
   read for however many bettors, what is promised to them together is covered by the pool after the fee.
   */
  lemma {:induction false} PromisesAreCovered(log: seq<Entry>, id: string, side: Side, rows: seq<Bet>)
    requires forall i :: 0 <= i < |log| ==> SaneEvent(log[i].event)
    requires id in Run(EMPTY, log).markets
    requires forall i :: 0 <= i < |rows| ==> rows[i] in Run(EMPTY, log).bets
    requires forall i, j :: 0 <= i < j < |rows| ==> rows[i].bettor != rows[j].bettor
    ensures
      var db := Run(EMPTY, log);
      var market := db.markets[id];
      0 <= Promised(db, id, rows, side) <= market.totalPool - Fee(market.totalPool, market.feeBps)
  {
    var db := Run(EMPTY, log);
    var market := db.markets[id];
    RunKeepsBooks(EMPTY, log);
    RunKeepsSane(EMPTY, log);
    PoolsNonNegative(db, id);
    FeeWithin(market.totalPool, market.feeBps);
    if market.Pool(side) > 0 {
      PromisedAtMostPaid(db, id, rows, side);
      SomePayLess(rows, db.bets, market, id, side);
      Solvency(log, id, side);
    } else {
      EmptyPoolPromisesNothing(db, id, rows, side);
    }
  }

  /**
   The two queries of a projection may see different states: the market as it was, and a row that
   was recorded since.  What is promised for such a row is covered by the pool after the fee exactly
   when its amount is below that bound; an amount up to the side's pool, as recorded bets have, is.
   */
  lemma {:induction false} LateRowIsCoveredIff(market: Market, side: Side, amount: int)
    requires amount >= 0 && market.Pool(side) > 0 && market.totalPool >= 0 && 0 <= market.feeBps <= BPS
    ensures
      var distributable := market.totalPool - Fee(market.totalPool, market.feeBps);
      && (BetPayout(market, side, amount) <= distributable <==>
          amount * distributable < (distributable + 1) * market.Pool(side))
      && (amount <= market.Pool(side) ==> BetPayout(market, side, amount) <= distributable)
  {
    var d, pool := market.totalPool - Fee(market.totalPool, market.feeBps), market.Pool(side);
    FeeWithin(market.totalPool, market.feeBps);
    PayoutIsShare(market, side, amount);
    QuotientAtMost(BetPayout(market, side, amount), d, pool, amount * d);
    hide BetPayout, Fee;
    if amount <= pool {
      MulMono(amount, pool, d);
    }
  }

  lemma QuotientAtMost(quotient: int, bound: int, divisor: int, n: int)
    requires divisor > 0 && quotient * divisor <= n <= (quotient + 1) * divisor - 1
    ensures quotient <= bound <==> n < (bound + 1) * divisor
  {
    if quotient <= bound {
      MulMono(quotient + 1, bound + 1, divisor);
    } else {
      MulMono(bound + 1, quotient, divisor);
    }
  }

  /** Pools of 1 and 1 read before a bet of 1000 on one side, the row after it: 2000 is promised. */
  lemma LateRowIsOverpromised(id: string, bettor: string, txHash: string)
    requires IsStellarAddress(bettor)
    ensures
      var market := Market(Open, None, 1, 1, 0, 2, 0);
      var bet := Bet(id, bettor, FighterA, 1000, txHash);
      ProjectedPayout(Db(map[id := market], []), id, bettor, Some(bet), Some(FighterA)) == Ok(2000)
  {}

  lemma {:induction false} EmptyPoolPromisesNothing(db: Db, id: string, rows: seq<Bet>, side: Side)
    requires id in db.markets && db.markets[id].Pool(side) == 0
    ensures Promised(db, id, rows, side) == 0
  {
    if rows != [] {
      EmptyPoolPromisesNothing(db, id, rows[..|rows| - 1], side);
    }
  }

  // ----- Quotes -----

  datatype Quote = Quote(projectedPayout: int, feeAmount: int)

  /** The quote for a bet not yet placed. */
  function QuoteBet(market: Market, amount: int, side: Side): Quote
    requires market.Pool(side) + amount != 0
  {
    var netTotalPool := market.totalPool + amount;
    var netSidePool := market.Pool(side) + amount;
    var feeAmount := BigDiv(netTotalPool * market.feeBps, BPS);
    var distributablePool := netTotalPool - feeAmount;
    Quote(BigDiv(amount * distributablePool, netSidePool), feeAmount)
  }

  /**
   The payout quoted before a bet is the one projected for it after it is recorded, for a bettor
   with no other bet in the market and no bet in between.  The quote does not look at the market's
   status, so on a cancelled market the two agree only when the quote is zero.
   */
  lemma QuoteAgrees(db: Db, bet: Bet, row: Option<Bet>)
    requires Booked(db) && Sane(db) && bet.market in db.markets && bet.amount > 0
    requires !HasTx(db.bets, bet.txHash) && IsStellarAddress(bet.bettor)
    requires forall i :: 0 <= i < |db.bets| ==> !(db.bets[i].market == bet.market && db.bets[i].bettor == bet.bettor)
    requires IsFirstRow(Process(db, Entry(BetPlaced(bet), true)), bet.market, bet.bettor, row)
    ensures db.markets[bet.market].Pool(bet.side) + bet.amount != 0
    ensures
      var quote := QuoteBet(db.markets[bet.market], bet.amount, bet.side).projectedPayout;
      var after := Process(db, Entry(BetPlaced(bet), true));
      ProjectedPayout(after, bet.market, bet.bettor, row, Some(bet.side)) == Ok(quote)
      <==> (db.markets[bet.market].status != Cancelled || quote == 0)
  {
    PoolsNonNegative(db, bet.market);
    var after := Process(db, Entry(BetPlaced(bet), true));
    assert after.bets == db.bets + [bet];
    assert row == Some(bet) by {
      assert after.bets[|db.bets|] == bet;
    }
    assert after.markets[bet.market].Pool(bet.side) == db.markets[bet.market].Pool(bet.side) + bet.amount;
  }

  /** The quote in full: fee and payout of the market with the bet added. */
  lemma {:induction false} QuoteFormula(market: Market, amount: int, side: Side)
    requires amount > 0 && market.Pool(side) >= 0 && market.totalPool >= 0 && 0 <= market.feeBps <= 10000
    ensures
      var quote := QuoteBet(market, amount, side);
      var fee := (market.totalPool + amount) * market.feeBps / 10000;
      && quote.feeAmount == fee
      && quote.projectedPayout == amount * (market.totalPool + amount - fee) / (market.Pool(side) + amount)
  {
    FeeWithin(market.totalPool + amount, market.feeBps);
    MulMono(0, amount, market.totalPool + amount - Fee(market.totalPool + amount, market.feeBps));
  }

  /** No event of the log that succeeds is a status event of the market. */
  predicate NoStatusEvent(log: seq<Entry>, id: string) {
    forall i :: 0 <= i < |log| ==>
      !(log[i].ok && (log[i].event.MarketLocked? || log[i].event.MarketResolved? || log[i].event.MarketCancelled?) &&
        log[i].event.market == id)
  }

  lemma {:induction false} StatusStays(db: Db, log: seq<Entry>, id: string)
    requires id in db.markets && NoStatusEvent(log, id)
    ensures id in Run(db, log).markets && Run(db, log).markets[id].status == db.markets[id].status
    decreases |log|
  {
    if log != [] {
      assert forall i :: 0 <= i < |log| - 1 ==> log[1..][i] == log[i + 1];
      assert Process(db, log[0]).markets[id].status == db.markets[id].status;
      StatusStays(Process(db, log[0]), log[1..], id);
    }
  }

  /** From its cancellation until its next status event a market pays nothing, whoever asks about whatever outcome. */
  lemma {:induction false} CancelledPaysNothing(db: Db, log: seq<Entry>, id: string, bettor: string, row: Option<Bet>,
                                                outcome: Option<Side>)
    requires id in db.markets && NoStatusEvent(log, id) && IsStellarAddress(bettor)
    ensures ProjectedPayout(Run(Process(db, Entry(MarketCancelled(id), true)), log), id, bettor, row, outcome) == Ok(0)
  {
    StatusStays(Process(db, Entry(MarketCancelled(id), true)), log, id);
  }

  lemma {:induction false} BetWithinSum(bets: seq<Bet>, bet: Bet)
    requires bet in bets && forall i :: 0 <= i < |bets| ==> bets[i].amount > 0
    ensures SideSum(bets, bet.market, bet.side) >= bet.amount
  {
    var init, last := bets[..|bets| - 1], bets[|bets| - 1];
    assert bets == init + [last];
    SideSumNonNegative(init, bet.market, bet.side);
    if last != bet {
      BetWithinSum(init, bet);
    }
  }

  /**
   When a projected payout is zero: on a cancelled market, without a bet, for another outcome, when
   nobody had backed the side, or when the bettor's share is worth less than one unit.  The row is
   read by a second query, so it may stem from a later state than the market; when it does not, the
   side's pool is not empty.
   */
  lemma PayoutIsZeroIff(db: Db, id: string, bettor: string, row: Option<Bet>, outcome: Option<Side>)
    requires Booked(db) && Sane(db) && id in db.markets && IsStellarAddress(bettor)
    requires row.Some? ==> row.value.amount > 0 && row.value.market == id
    ensures row.Some? && row.value in db.bets ==> db.markets[id].Pool(row.value.side) > 0
    ensures
      var market := db.markets[id];
      ProjectedPayout(db, id, bettor, row, outcome) == Ok(0) <==>
      || market.status == Cancelled
      || row.None?
      || outcome != Some(row.value.side)
      || market.Pool(row.value.side) == 0
      || row.value.amount * (market.totalPool - Fee(market.totalPool, market.feeBps)) < market.Pool(row.value.side)
  {
    PoolsNonNegative(db, id);
    assert PoolsMatch(db.markets[id], db.bets, id);
    if row.Some? && row.value in db.bets {
      BetWithinSum(db.bets, row.value);
    }
    if row.Some? && db.markets[id].Pool(row.value.side) > 0 {
      var market, side := db.markets[id], row.value.side;
      PayoutIsShare(market, side, row.value.amount);
      SmallQuotient(BetPayout(market, side, row.value.amount), market.Pool(side),
                    row.value.amount * (market.totalPool - Fee(market.totalPool, market.feeBps)));
    }
  }

  lemma SmallQuotient(payout: int, pool: int, n: int)
    requires payout >= 0 && pool > 0 && payout * pool <= n <= (payout + 1) * pool - 1
    ensures payout == 0 <==> n < pool
  {
    if payout > 0 {
      MulMono(1, payout, pool);
    }
  }

  /** Not a new bet on this side of this market; failed entries and replays of recorded bets qualify. */
  predicate Elsewhere(db: Db, entry: Entry, id: string, side: Side) {
    entry.ok && entry.event.BetPlaced? && entry.event.bet.market == id && entry.event.bet.side == side ==>
      HasTx(db.bets, entry.event.bet.txHash)
  }

  lemma PayoutGrowsWithTotal(market: Market, more: Market, side: Side, amount: int)
    requires amount >= 0 && 0 < market.Pool(side) == more.Pool(side) && 0 <= market.feeBps == more.feeBps <= BPS
    requires 0 <= market.totalPool <= more.totalPool
    ensures BetPayout(market, side, amount) <= BetPayout(more, side, amount)
  {
    FeeWithin(market.totalPool, market.feeBps);
    FeeWithin(more.totalPool, market.feeBps);
    DistributableGrows(market.totalPool, more.totalPool, market.feeBps);
    var d := market.totalPool - Fee(market.totalPool, market.feeBps);
    var d' := more.totalPool - Fee(more.totalPool, more.feeBps);
    MulMono(d, d', amount);
    MulMono(0, d, amount);
    MulMono(0, d', amount);
    FloorDivMono(amount * d, amount * d', market.Pool(side));
  }

  lemma DistributableGrows(total: int, more: int, feeBps: int)
    requires 0 <= total <= more && 0 <= feeBps <= BPS
    ensures total - total * feeBps / BPS <= more - more * feeBps / BPS
  {
    var grow := more - total;
    MulMono(feeBps, BPS, grow);
    assert more * feeBps == total * feeBps + grow * feeBps;
    FloorDiv(total * feeBps, BPS);
    FloorDivMono(more * feeBps, total * feeBps + grow * BPS, BPS);
    FloorDivUnique(total * feeBps + grow * BPS, BPS, total * feeBps / BPS + grow);
  }

  lemma StepElsewhere(db: Db, entry: Entry, id: string, side: Side, amount: int)
    requires Booked(db) && Sane(db) && id in db.markets && db.markets[id].Pool(side) > 0 && amount >= 0
    requires SaneEvent(entry.event) && Elsewhere(db, entry, id, side)
    ensures
      var db' := Process(db, entry);
      && Sane(db') && id in db'.markets && db'.markets[id].Pool(side) == db.markets[id].Pool(side)
      && BetPayout(db.markets[id], side, amount) <= BetPayout(db'.markets[id], side, amount)
  {
    var m := db.markets[id];
    PoolsNonNegative(db, id);
    assert id in Process(db, entry).markets;
    var m' := Process(db, entry).markets[id];
    assert m'.Pool(side) == m.Pool(side) && m'.feeBps == m.feeBps && m'.totalPool >= m.totalPool;
    PayoutGrowsWithTotal(m, m', side, amount);
  }

  /** When its turn comes, no event of the log is a new bet on this side of this market. */
  ghost predicate AllElsewhere(db: Db, log: seq<Entry>, id: string, side: Side)
    decreases |log|
  {
    log == [] || (Elsewhere(db, log[0], id, side) && AllElsewhere(Process(db, log[0]), log[1..], id, side))
  }

  /** The payout formula alone: bets elsewhere, and anything else that happens, never lower its value. */
  lemma {:induction false} FormulaElsewhereNeverLower(db: Db, log: seq<Entry>, id: string, side: Side, amount: int)
    requires Booked(db) && Sane(db) && id in db.markets && db.markets[id].Pool(side) > 0 && amount >= 0
    requires AllElsewhere(db, log, id, side) && forall i :: 0 <= i < |log| ==> SaneEvent(log[i].event)
    ensures id in Run(db, log).markets && Run(db, log).markets[id].Pool(side) == db.markets[id].Pool(side)
    ensures BetPayout(db.markets[id], side, amount) <= BetPayout(Run(db, log).markets[id], side, amount)
    decreases |log|
  {
    if log != [] {
      ProcessKeepsBooks(db, log[0]);
      StepElsewhere(db, log[0], id, side, amount);
      hide Booked, Sane, BetPayout, Process, Elsewhere;
      FormulaElsewhereNeverLower(Process(db, log[0]), log[1..], id, side, amount);
    }
  }

  lemma {:induction false} NoNewOnSide(db: Db, log: seq<Entry>, id: string, side: Side)
    requires AllElsewhere(db, log, id, side)
    ensures forall b :: b in Run(db, log).bets && b.market == id && b.side == side ==> b in db.bets
    decreases |log|
  {
    if log != [] {
      NoNewOnSide(Process(db, log[0]), log[1..], id, side);
    }
  }

  /** With the pool fixed, the formula grows with the amount. */
  lemma PayoutGrowsWithAmount(market: Market, side: Side, amount: int, more: int)
    requires 0 <= amount <= more && market.Pool(side) > 0 && market.totalPool >= 0 && 0 <= market.feeBps <= BPS
    ensures BetPayout(market, side, amount) <= BetPayout(market, side, more)
  {
    FeeWithin(market.totalPool, market.feeBps);
    var d := market.totalPool - Fee(market.totalPool, market.feeBps);
    MulMono(amount, more, d);
    MulMono(0, amount, d);
    MulMono(0, more, d);
    FloorDivMono(amount * d, more * d, market.Pool(side));
  }

  // ----- A projected payout over time -----

  /** The bettor has this bet in the market, and no other. */
  ghost predicate OnlyBet(db: Db, bet: Bet) {
    bet in db.bets && forall b :: b in db.bets && b.market == bet.market && b.bettor == bet.bettor ==> b == bet
  }

  /** Not a new bet of this bettor in this market. */
  predicate ByOthers(db: Db, entry: Entry, id: string, bettor: string) {
    entry.ok && entry.event.BetPlaced? && entry.event.bet.market == id && entry.event.bet.bettor == bettor ==>
      HasTx(db.bets, entry.event.bet.txHash)
  }

  /** When its turn comes, no event of the log is a new bet of this bettor in this market. */
  ghost predicate AllByOthers(db: Db, log: seq<Entry>, id: string, bettor: string)
    decreases |log|
  {
    log == [] || (ByOthers(db, log[0], id, bettor) && AllByOthers(Process(db, log[0]), log[1..], id, bettor))
  }

  /** The bet stays the bettor's only one in the market exactly when the log records no new one. */
  lemma {:induction false} StaysOnlyBetIff(db: Db, log: seq<Entry>, bet: Bet)
    requires OnlyBet(db, bet) && bet.market in db.markets
    ensures OnlyBet(Run(db, log), bet) <==> AllByOthers(db, log, bet.market, bet.bettor)
    decreases |log|
  {
    if log != [] {
      var next := Process(db, log[0]);
      if ByOthers(db, log[0], bet.market, bet.bettor) {
        StaysOnlyBetIff(next, log[1..], bet);
      } else {
        var own := log[0].event.bet;
        assert own in next.bets && own != bet by {
          assert next.bets[|db.bets|] == own;
          var i :| 0 <= i < |db.bets| && db.bets[i] == bet;
        }
        RunOnlyGrows(next, log[1..]);
        assert own in Run(db, log).bets;
      }
    }
  }

  /** What `calculateProjectedPayout` says to a bettor whose row is read; the row and the market exist. */
  function Projected(db: Db, row: Bet, side: Side): (payout: int)
    requires row.market in db.markets && IsStellarAddress(row.bettor)
    ensures ProjectedPayout(db, row.market, row.bettor, Some(row), Some(side)) == Ok(payout)
  {
    ProjectedPayout(db, row.market, row.bettor, Some(row), Some(side)).value
  }

  lemma ProjectedIs(db: Db, row: Bet, side: Side)
    requires row.market in db.markets && IsStellarAddress(row.bettor)
    ensures Projected(db, row, side) ==
            if db.markets[row.market].status == Cancelled || row.side != side then 0
            else BetPayout(db.markets[row.market], side, row.amount)
  {}

  /**
   When a projected payout falls while the later bets are on other sides.  `row` is the row read
   now, `later` the one read after the log, which may be another bet of the same bettor: the query
   has no order.  The payout does not fall exactly if it was zero, or the market is not cancelled
   at the end and the row read then is on the same side and worth as much.  The status and the side
   can be checked beforehand; that the row is worth as much is the comparison itself, without the
   floor, and can be checked only in the case of the last clause, an amount no smaller.
   */
  lemma {:induction false} ProjectionElsewhereIff(db: Db, log: seq<Entry>, row: Bet, later: Bet)
    requires Booked(db) && Sane(db) && row in db.bets && IsStellarAddress(row.bettor)
    requires AllElsewhere(db, log, row.market, row.side) && forall i :: 0 <= i < |log| ==> SaneEvent(log[i].event)
    requires later in Run(db, log).bets && later.market == row.market && later.bettor == row.bettor
    ensures row.market in db.markets && row.market in Run(db, log).markets
    ensures
      var after := Run(db, log);
      var market := after.markets[row.market];
      var now := Projected(db, row, row.side);
      && (now <= Projected(after, later, row.side) <==>
          now == 0 ||
          (&& market.status != Cancelled
           && later.side == row.side
           && now * market.Pool(row.side) <= later.amount * (market.totalPool - Fee(market.totalPool, market.feeBps))))
      && (later.amount >= row.amount ==>
           now * market.Pool(row.side) <= later.amount * (market.totalPool - Fee(market.totalPool, market.feeBps)))
  {
    hide Booked, Sane, Run, Elsewhere, SaneEvent, BetPayout, Fee, Projected;
    var after := Run(db, log);
    MarketsElsewhere(db, log, row, later);
    ProjectedIs(db, row, row.side);
    ProjectedIs(after, later, row.side);
    var now, market := Projected(db, row, row.side), after.markets[row.market];
    CompareWithFormula(market, row.side, now, later.amount);
    if later.amount >= row.amount {
      PayoutGrowsWithAmount(market, row.side, row.amount, later.amount);
    }
  }

  /** The two states of the market that the two projections look at. */
  lemma {:induction false} MarketsElsewhere(db: Db, log: seq<Entry>, row: Bet, later: Bet)
    requires Booked(db) && Sane(db) && row in db.bets
    requires AllElsewhere(db, log, row.market, row.side) && forall i :: 0 <= i < |log| ==> SaneEvent(log[i].event)
    requires later in Run(db, log).bets
    ensures row.market in db.markets && row.market in Run(db, log).markets && row.amount > 0 && later.amount > 0
    ensures
      var m, m' := db.markets[row.market], Run(db, log).markets[row.market];
      && m.Pool(row.side) == m'.Pool(row.side) > 0 && m'.totalPool >= 0 && 0 <= m'.feeBps <= BPS
      && 0 <= BetPayout(m, row.side, row.amount) <= BetPayout(m', row.side, row.amount)
      && 0 <= BetPayout(m', row.side, later.amount)
  {
    BackedSide(db, row);
    PoolsNonNegative(db, row.market);
    FormulaElsewhereNeverLower(db, log, row.market, row.side, row.amount);
    PayoutIsShare(db.markets[row.market], row.side, row.amount);
    RunKeepsBooks(db, log);
    RunKeepsSane(db, log);
    PoolsNonNegative(Run(db, log), row.market);
    PayoutIsShare(Run(db, log).markets[row.market], row.side, later.amount);
  }

  lemma BackedSide(db: Db, row: Bet)
    requires Booked(db) && Sane(db) && row in db.bets
    ensures row.market in db.markets && db.markets[row.market].Pool(row.side) >= row.amount > 0
  {
    BetWithinSum(db.bets, row);
    assert PoolsMatch(db.markets[row.market], db.bets, row.market);
  }

  /** A floor compares with an integer as the exact quotient does. */
  lemma CompareWithFormula(market: Market, side: Side, payout: int, amount: int)
    requires amount >= 0 && market.Pool(side) > 0 && market.totalPool >= 0 && 0 <= market.feeBps <= BPS
    ensures payout <= BetPayout(market, side, amount) <==>
            payout * market.Pool(side) <= amount * (market.totalPool - Fee(market.totalPool, market.feeBps))
  {
    PayoutIsShare(market, side, amount);
    var pool, share := market.Pool(side), BetPayout(market, side, amount);
    if payout <= share {
      MulMono(payout, share, pool);
    } else {
      MulMono(share + 1, payout, pool);
    }
  }

  /** Whatever own row is read later, the projected payout has not fallen. */
  ghost predicate NeverLower(db: Db, after: Db, bet: Bet)
    requires bet.market in db.markets && bet.market in after.markets && IsStellarAddress(bet.bettor)
  {
    forall row :: row in after.bets && row.market == bet.market && row.bettor == bet.bettor ==>
                    Projected(db, bet, bet.side) <= Projected(after, row, bet.side)
  }

  /**
   After later bets on other sides, by anyone, and whatever else happens, the payout projected for
   a bettor's only bet has not fallen exactly if it was zero already, or the last status the log
   sets is not `cancelled` and the log records no further bet of the bettor in the market.
   */
  lemma {:induction false} LaterBetsElsewhereNeverLower(db: Db, log: seq<Entry>, bet: Bet)
    requires Booked(db) && Sane(db) && OnlyBet(db, bet) && IsStellarAddress(bet.bettor)
    requires AllElsewhere(db, log, bet.market, bet.side) && forall i :: 0 <= i < |log| ==> SaneEvent(log[i].event)
    ensures bet.market in db.markets && bet.market in Run(db, log).markets
    ensures NeverLower(db, Run(db, log), bet) <==>
            || Projected(db, bet, bet.side) == 0
            || (LastStatus(log, bet.market) != Some(Cancelled) && AllByOthers(db, log, bet.market, bet.bettor))
  {
    var after := Run(db, log);
    RunOnlyGrows(db, log);
    ProjectionElsewhereIff(db, log, bet, bet);
    StaysOnlyBetIff(db, log, bet);
    ColumnsAreLastAccepted(db, log, bet.market);
    KnownMarketAcceptsAll(db, log, bet.market, StatusColumn);
    NoNewOnSide(db, log, bet.market, bet.side);
    hide AllElsewhere, AllByOthers;
    forall row | row in after.bets && row.market == bet.market && row.bettor == bet.bettor && row != bet
      ensures row.side != bet.side
      ensures Projected(db, bet, bet.side) <= Projected(after, row, bet.side) <==> Projected(db, bet, bet.side) == 0
    {
      ProjectionElsewhereIff(db, log, bet, row);
    }
  }

  // ----- The batch route -----

  datatype Simulation = Simulation(market: string, amount: int, side: Side)

  /** What the batch route answers for one simulation. */
  function Simulate(markets: map<string, Market>, sim: Simulation): Option<int>
    requires sim.market in markets ==> markets[sim.market].Pool(sim.side) + sim.amount != 0
  {
    if sim.market !in markets then None
    else Some(QuoteBet(markets[sim.market], sim.amount, sim.side).projectedPayout)
  }

  /** One result per simulation, in order; an unknown market yields an error entry and the loop goes on. */
  method BatchPayout(markets: map<string, Market>, simulations: seq<Simulation>) returns (results: seq<Option<int>>)
    requires forall i :: 0 <= i < |simulations| && simulations[i].market in markets ==>
               markets[simulations[i].market].Pool(simulations[i].side) + simulations[i].amount != 0
    ensures |results| == |simulations|
    ensures forall i :: 0 <= i < |simulations| ==> results[i] == Simulate(markets, simulations[i])
  {
    results := [];
    for i := 0 to |simulations|
      invariant |results| == i
      invariant forall j :: 0 <= j < i ==> results[j] == Simulate(markets, simulations[j])
    {
      var sim := simulations[i];
      if sim.market !in markets {
        results := results + [None];
        continue;
      }
      var market := markets[sim.market];
      var netTotalPool := market.totalPool + sim.amount;
      var netSidePool := market.Pool(sim.side) + sim.amount;
      var feeAmount := BigDiv(netTotalPool * market.feeBps, BPS);
      var distributablePool := netTotalPool - feeAmount;
      results := results + [Some(BigDiv(sim.amount * distributablePool, netSidePool))];
    }
  }
}
