/**
 The liquidity routes of backend/src/routes/liquidityGroup17.routes.ts: LP tokens minted as the
 floor of a geometric mean, reserves paid out as the floor of a proportional share, and a
 withdrawal lock.  Arithmetic is exact and each request is one atomic step.
 */
module LiquidityPool {
  import opened Common

  const DEFAULT_LOCK_PERIOD_SECONDS := 86400

  datatype Pool = Pool(reserveA: int, reserveB: int, totalLp: int)

  datatype Refusal = PoolNotFound | SlippageLimit | WithdrawalLocked(unlockTime: int) | BurnTooLarge | BadLockPeriod

  datatype Receipt = Receipt(lpTokens: int, amountA: int, amountB: int)

  /** Pools by market, and the two in-memory maps behind the lock. */
  datatype State = State(pools: map<string, Pool>, lockPeriods: map<string, int>, deposits: map<string, int>)

  /** The integer square root: Math.floor(Math.sqrt(n)) in exact arithmetic. */
  function ISqrt(n: nat): (r: nat)
    ensures r * r <= n < (r + 1) * (r + 1)
  {
    if n == 0 then 0
    else
      var r := ISqrt(n - 1);
      assert (r + 2) * (r + 2) == (r + 1) * (r + 1) + 2 * r + 3;
      if (r + 1) * (r + 1) <= n then r + 1 else r
  }

  // ----- Requests on one pool -----

  function Minted(a: int, b: int): nat
    requires a > 0 && b > 0
  {
    MulMono(0, a, b);
    ISqrt(a * b)
  }

  function AddToPool(pool: Pool, a: int, b: int): Pool
    requires a > 0 && b > 0
  {
    Pool(pool.reserveA + a, pool.reserveB + b, pool.totalLp + Minted(a, b))
  }

  function Share(reserve: int, burn: int, totalLp: int): int
    requires totalLp > 0
  {
    reserve * burn / totalLp
  }

  function RemoveFromPool(pool: Pool, burn: int): Pool
    requires pool.totalLp > 0
  {
    Pool(pool.reserveA - Share(pool.reserveA, burn, pool.totalLp),
         pool.reserveB - Share(pool.reserveB, burn, pool.totalLp),
         pool.totalLp - burn)
  }

  // ----- The handlers -----

  function DepositKey(market: string, provider: string): string {
    market + ":" + provider
  }

  /** Provider addresses all have one length, so the key determines market and provider. */
  lemma DepositKeyInjective(m1: string, p1: string, m2: string, p2: string)
    requires |p1| == |p2|
    ensures DepositKey(m1, p1) == DepositKey(m2, p2) <==> m1 == m2 && p1 == p2
  {
    var k1, k2 := DepositKey(m1, p1), DepositKey(m2, p2);
    if k1 == k2 {
      assert |m1| == |m2|;
      assert k1[..|m1|] == m1 && k2[..|m1|] == m2;
      assert k1[|m1| + 1..] == p1 && k2[|m1| + 1..] == p2;
    }
  }

  function LockPeriod(s: State, market: string): int {
    if market in s.lockPeriods then s.lockPeriods[market] else DEFAULT_LOCK_PERIOD_SECONDS
  }

  datatype Request =
    | Add(market: string, provider: string, a: int, b: int, minLp: int, now: int)
    | Remove(market: string, provider: string, burn: int, minA: int, minB: int, now: int)
    | SetLock(market: string, seconds: int)

  /** What the request schemas let through. */
  predicate Valid(r: Request) {
    match r
    case Add(_, _, a, b, minLp, _) => a > 0 && b > 0 && minLp >= 0
    case Remove(_, _, burn, minA, minB, _) => burn > 0 && minA >= 0 && minB >= 0
    case SetLock(_, _) => true
  }

  function HandleAdd(s: State, market: string, provider: string, a: int, b: int, minLp: int, now: int)
    : (State, Result<Receipt, Refusal>)
    requires a > 0 && b > 0
  {
    if market !in s.pools then (s, Err(PoolNotFound))
    else if Minted(a, b) < minLp then (s, Err(SlippageLimit))
    else (s.(pools := s.pools[market := AddToPool(s.pools[market], a, b)],
             deposits := s.deposits[DepositKey(market, provider) := now]),
          Ok(Receipt(Minted(a, b), a, b)))
  }

  function HandleRemove(s: State, market: string, provider: string, burn: int, minA: int, minB: int, now: int)
    : (State, Result<Receipt, Refusal>)
  {
    var key := DepositKey(market, provider);
    if key in s.deposits && now < s.deposits[key] + LockPeriod(s, market) then
      (s, Err(WithdrawalLocked(s.deposits[key] + LockPeriod(s, market))))
    else if market !in s.pools then (s, Err(PoolNotFound))
    else
      var pool := s.pools[market];
      if pool.totalLp <= 0 || burn > pool.totalLp then (s, Err(BurnTooLarge))
      else
        var outA, outB := Share(pool.reserveA, burn, pool.totalLp), Share(pool.reserveB, burn, pool.totalLp);
        if outA < minA || outB < minB then (s, Err(SlippageLimit))
        else (s.(pools := s.pools[market := RemoveFromPool(pool, burn)]), Ok(Receipt(burn, outA, outB)))
  }

  function Handle(s: State, r: Request): (State, Result<Receipt, Refusal>)
    requires Valid(r)
  {
    match r
    case Add(market, provider, a, b, minLp, now) => HandleAdd(s, market, provider, a, b, minLp, now)
    case Remove(market, provider, burn, minA, minB, now) => HandleRemove(s, market, provider, burn, minA, minB, now)
    case SetLock(market, seconds) =>
      if seconds < 0 then (s, Err(BadLockPeriod))
      else (s.(lockPeriods := s.lockPeriods[market := seconds]), Ok(Receipt(0, 0, 0)))
  }

  function Run(s: State, requests: seq<Request>): State
    requires forall i :: 0 <= i < |requests| ==> Valid(requests[i])
    decreases |requests|
  {
    if requests == [] then s
    else
      assert Valid(requests[0]);
      Run(Handle(s, requests[0]).0, requests[1..])
  }

  // ----- LP supply is backed by the reserves -----

  /** The square of the LP supply never exceeds the product of the reserves. */
  predicate Backed(pool: Pool) {
    && pool.reserveA >= 0 && pool.reserveB >= 0 && pool.totalLp >= 0
    && pool.totalLp * pool.totalLp <= pool.reserveA * pool.reserveB
  }

  /** x*x <= y*y orders non-negative numbers. */
  lemma SquareOrder(x: int, y: int)
    requires 0 <= y && x * x <= y * y
    ensures x <= y
  {
    if y < x {
      ExpandSquare(y, 1);
      MulMonoPair(y + 1, x, y + 1, x);
    }
  }

  /** The Cauchy-Schwarz step: the cross terms of the new product outweigh twice the product of the supplies. */
  lemma CrossTerms(bigA: int, bigB: int, supply: int, a: int, b: int, minted: int)
    requires bigA >= 0 && bigB >= 0 && supply >= 0 && a >= 0 && b >= 0 && minted >= 0
    requires supply * supply <= bigA * bigB && minted * minted <= a * b
    ensures 2 * (supply * minted) <= bigA * b + bigB * a
  {
    var u, v := bigA * b, bigB * a;
    var w := supply * minted;
    MulMono(0, supply, supply);
    MulMono(0, minted, minted);
    MulMono(0, bigA, b);
    MulMono(0, bigB, a);
    MulMono(0, supply, minted);
    MulMonoPair(supply * supply, bigA * bigB, minted * minted, a * b);
    SquareOfProduct(supply, minted);
    RearrangeProducts(bigA, bigB, a, b);
    assert w * w <= u * v;
    MeanInequality(u, v, w);
  }

  lemma SquareOfProduct(x: int, y: int)
    ensures (x * y) * (x * y) == (x * x) * (y * y)
  {
    calc {
      (x * y) * (x * y);
      x * (y * (x * y));
      x * (x * (y * y));
      (x * x) * (y * y);
    }
  }

  lemma RearrangeProducts(bigA: int, bigB: int, a: int, b: int)
    ensures (bigA * bigB) * (a * b) == (bigA * b) * (bigB * a)
  {
    calc {
      (bigA * bigB) * (a * b);
      bigA * (bigB * (a * b));
      { assert bigB * (a * b) == (bigB * a) * b; }
      bigA * ((bigB * a) * b);
      { assert (bigB * a) * b == b * (bigB * a); }
      bigA * (b * (bigB * a));
      (bigA * b) * (bigB * a);
    }
  }

  /** The geometric mean does not exceed the arithmetic one. */
  lemma MeanInequality(u: int, v: int, w: int)
    requires u >= 0 && v >= 0 && w >= 0 && w * w <= u * v
    ensures 2 * w <= u + v
  {
    var d := u - v;
    assert (u + v) * (u + v) == d * d + 4 * (u * v);
    assert d * d >= 0;
    assert (2 * w) * (2 * w) == 4 * (w * w);
    SquareOrder(2 * w, u + v);
  }

  lemma AddKeepsBacked(pool: Pool, a: int, b: int)
    requires Backed(pool) && a > 0 && b > 0
    ensures Backed(AddToPool(pool, a, b))
  {
    MulMono(0, a, b);
    var m := Minted(a, b);
    CrossTerms(pool.reserveA, pool.reserveB, pool.totalLp, a, b, m);
    ExpandSquare(pool.totalLp, m);
    ExpandProduct(pool.reserveA, a, pool.reserveB, b);
  }

  lemma ExpandSquare(x: int, y: int)
    ensures (x + y) * (x + y) == x * x + 2 * (x * y) + y * y
  {}

  lemma ExpandProduct(bigA: int, a: int, bigB: int, b: int)
    ensures (bigA + a) * (bigB + b) == bigA * bigB + bigA * b + bigB * a + a * b
  {}

  /** A share: at most the reserve, proportional up to rounding down, all of it for the whole supply. */
  lemma ShareBounds(reserve: int, burn: int, totalLp: int)
    requires reserve >= 0 && 0 <= burn <= totalLp && totalLp > 0
    ensures
      var out := Share(reserve, burn, totalLp);
      && 0 <= out <= reserve
      && out * totalLp <= reserve * burn < (out + 1) * totalLp
      && reserve * (totalLp - burn) <= (reserve - out) * totalLp
      && (burn == totalLp ==> out == reserve)
  {
    MulMono(0, burn, reserve);
    MulMono(burn, totalLp, reserve);
    FloorDiv(reserve * burn, totalLp);
    FloorDivMono(0, reserve * burn, totalLp);
    FloorDivMono(reserve * burn, reserve * totalLp, totalLp);
    FloorDivUnique(reserve * totalLp, totalLp, reserve);
    var out := Share(reserve, burn, totalLp);
    assert reserve * (totalLp - burn) == reserve * totalLp - reserve * burn;
    assert (reserve - out) * totalLp == reserve * totalLp - out * totalLp;
  }

  /**
   A removal pays at most the reserves and never lowers the reserve per LP token on either side
   (cross-multiplied); burning the whole supply empties the pool.
   */
  lemma RemovalIsFair(pool: Pool, burn: int)
    requires Backed(pool) && pool.totalLp > 0 && 0 <= burn <= pool.totalLp
    ensures
      var after := RemoveFromPool(pool, burn);
      && 0 <= after.reserveA <= pool.reserveA
      && 0 <= after.reserveB <= pool.reserveB
      && pool.reserveA * after.totalLp <= after.reserveA * pool.totalLp
      && pool.reserveB * after.totalLp <= after.reserveB * pool.totalLp
      && (burn == pool.totalLp ==> after == Pool(0, 0, 0))
  {
    ShareBounds(pool.reserveA, burn, pool.totalLp);
    ShareBounds(pool.reserveB, burn, pool.totalLp);
  }

  lemma RemoveKeepsBacked(pool: Pool, burn: int)
    requires Backed(pool) && pool.totalLp > 0 && 0 <= burn <= pool.totalLp
    ensures Backed(RemoveFromPool(pool, burn))
  {
    RemovalIsFair(pool, burn);
    var after := RemoveFromPool(pool, burn);
    ScaleBacked(pool.reserveA, pool.reserveB, pool.totalLp, after.reserveA, after.reserveB, after.totalLp);
  }

  /** If both reserves shrink by no more than the supply does, in proportion, the pool stays backed. */
  lemma ScaleBacked(bigA: int, bigB: int, supply: int, a: int, b: int, left: int)
    requires bigA >= 0 && bigB >= 0 && supply > 0 && a >= 0 && b >= 0 && left >= 0
    requires supply * supply <= bigA * bigB
    requires bigA * left <= a * supply && bigB * left <= b * supply
    ensures left * left <= a * b
  {
    var square := supply * supply;
    MulMono(0, supply, supply);
    MulMono(1, supply, supply);
    MulMono(0, bigA, left);
    MulMono(0, bigB, left);
    MulMono(0, left, left);
    MulMonoPair(bigA * left, a * supply, bigB * left, b * supply);
    RearrangeProducts(bigA, left, bigB, left);
    RearrangeScale(bigA, bigB, left);
    RearrangeScale(a, b, supply);
    MulMono(square, bigA * bigB, left * left);
    assert square * (left * left) <= (a * b) * square;
    assert square * (left * left) == (left * left) * square;
    MulCancel(left * left, a * b, square);
  }

  lemma RearrangeScale(x: int, y: int, z: int)
    ensures (x * z) * (y * z) == (x * y) * (z * z)
  {
    calc {
      (x * z) * (y * z);
      x * (z * (y * z));
      { assert z * (y * z) == y * (z * z); }
      x * (y * (z * z));
      (x * y) * (z * z);
    }
  }

  predicate AllBacked(s: State) {
    forall market :: market in s.pools ==> Backed(s.pools[market])
  }

  // ----- A deposit and its withdrawal -----

  /** What a deposit gets back when the tokens it minted are burnt at once. */
  function RoundTripA(pool: Pool, a: int, b: int): int
    requires a > 0 && b > 0 && pool.totalLp >= 0 && pool.totalLp + Minted(a, b) > 0
  {
    Share(AddToPool(pool, a, b).reserveA, Minted(a, b), AddToPool(pool, a, b).totalLp)
  }

  function RoundTripB(pool: Pool, a: int, b: int): int
    requires a > 0 && b > 0 && pool.totalLp >= 0 && pool.totalLp + Minted(a, b) > 0
  {
    Share(AddToPool(pool, a, b).reserveB, Minted(a, b), AddToPool(pool, a, b).totalLp)
  }

  lemma ShareAtMostIff(reserve: int, amount: int, minted: int, totalLp: int)
    requires totalLp + minted > 0
    ensures Share(reserve + amount, minted, totalLp + minted) <= amount <==>
            reserve * minted < amount * totalLp + totalLp + minted
  {
    var n, d := (reserve + amount) * minted, totalLp + minted;
    FloorDiv(n, d);
    assert (amount + 1) * d == amount * totalLp + amount * minted + totalLp + minted;
    assert n == reserve * minted + amount * minted;
    if n / d <= amount {
      MulMono(n / d + 1, amount + 1, d);
    } else {
      MulMono(amount + 1, n / d, d);
    }
  }

  /**
   A deposit burnt at once returns no more than was put in, on each side, exactly when the reserve
   times the tokens minted stays below the bound; the mint does not look at the reserves, so
   nothing else ensures it.
   */
  lemma RoundTripIsFairIff(pool: Pool, a: int, b: int)
    requires a > 0 && b > 0 && pool.totalLp >= 0 && pool.totalLp + Minted(a, b) > 0
    ensures
      var m := Minted(a, b);
      && (RoundTripA(pool, a, b) <= a <==> pool.reserveA * m < a * pool.totalLp + pool.totalLp + m)
      && (RoundTripB(pool, a, b) <= b <==> pool.reserveB * m < b * pool.totalLp + pool.totalLp + m)
  {
    ShareAtMostIff(pool.reserveA, a, Minted(a, b), pool.totalLp);
    ShareAtMostIff(pool.reserveB, b, Minted(a, b), pool.totalLp);
  }

  lemma MintedIs(a: int, b: int, root: nat)
    requires a > 0 && b > 0 && root * root == a * b
    ensures Minted(a, b) == root
  {
    MulMono(0, a, b);
    var m := Minted(a, b);
    if m < root {
      MulMonoPair(m + 1, root, m + 1, root);
    } else if root < m {
      MulMonoPair(root + 1, m, root + 1, m);
    }
  }

  /** After two lopsided deposits into an empty pool, a balanced one returns nearly twice its amount. */
  lemma LopsidedDepositsDilute()
    ensures
      var pool := AddToPool(AddToPool(Pool(0, 0, 0), 1, 1_000_000), 1_000_000, 1);
      && pool == Pool(1_000_001, 1_000_001, 2_000)
      && Minted(1_000_000, 1_000_000) == 1_000_000
      && RoundTripA(pool, 1_000_000, 1_000_000) == 1_996_008
      && RoundTripB(pool, 1_000_000, 1_000_000) == 1_996_008
  {
    MintedIs(1, 1_000_000, 1_000);
    MintedIs(1_000_000, 1, 1_000);
    MintedIs(1_000_000, 1_000_000, 1_000_000);
    hide Minted;
    FloorDivUnique(2_000_001 * 1_000_000, 1_002_000, 1_996_008);
  }

  lemma HandleKeepsBacked(s: State, r: Request)
    requires AllBacked(s) && Valid(r)
    ensures AllBacked(Handle(s, r).0)
  {
    hide Backed;
    match r
    case Add(market, provider, a, b, minLp, now) =>
      if market in s.pools {
        AddKeepsBacked(s.pools[market], a, b);
      }
    case Remove(market, provider, burn, minA, minB, now) =>
      if market in s.pools && s.pools[market].totalLp > 0 && burn <= s.pools[market].totalLp {
        RemoveKeepsBacked(s.pools[market], burn);
      }
    case SetLock(_, _) =>
  }

  /** On every sequence of requests, from pools that are empty or backed, LP supply squared stays within A * B. */
  lemma {:induction false} RunKeepsBacked(s: State, requests: seq<Request>)
    requires AllBacked(s) && forall i :: 0 <= i < |requests| ==> Valid(requests[i])
    ensures AllBacked(Run(s, requests))
    decreases |requests|
  {
    if requests != [] {
      assert Valid(requests[0]);
      HandleKeepsBacked(s, requests[0]);
      RunKeepsBacked(Handle(s, requests[0]).0, requests[1..]);
    }
  }

  // ----- The answers in full -----

  lemma SqrtIs(n: nat, root: nat)
    requires root * root <= n < (root + 1) * (root + 1)
    ensures ISqrt(n) == root
  {
    var r := ISqrt(n);
    if r < root {
      MulMonoPair(r + 1, root, r + 1, root);
    } else if root < r {
      MulMonoPair(root + 1, r, root + 1, r);
    }
  }

  /**
   A deposit: with the floor `root` of the geometric mean, it is refused for an unknown pool or when
   less than `minLp` would be minted, and otherwise adds exactly the amounts and `root` LP tokens and
   notes the time.
   */
  lemma {:induction false} AddSpec(s: State, market: string, provider: string, a: int, b: int, minLp: int, now: int,
                                   root: nat)
    requires a > 0 && b > 0 && minLp >= 0 && root * root <= a * b < (root + 1) * (root + 1)
    ensures
      var (after, answer) := Handle(s, Add(market, provider, a, b, minLp, now));
      if market !in s.pools then after == s && answer == Err(PoolNotFound)
      else if root < minLp then after == s && answer == Err(SlippageLimit)
      else
        && answer == Ok(Receipt(root, a, b)) && root >= minLp
        && after.pools[market].reserveA == s.pools[market].reserveA + a
        && after.pools[market].reserveB == s.pools[market].reserveB + b
        && after.pools[market].totalLp == s.pools[market].totalLp + root
        && after == State(s.pools[market := after.pools[market]], s.lockPeriods,
                          s.deposits[market + ":" + provider := now])
  {
    MulMono(0, a, b);
    SqrtIs(a * b, root);
  }

  /**
   A withdrawal: refused while the provider's last deposit is younger than the lock period, for an
   unknown pool, for more tokens than there are, or when a share falls short of its minimum;
   otherwise it takes the shares and the tokens out of the pool and touches nothing else.
   */
  lemma {:induction false} RemoveSpec(s: State, market: string, provider: string, burn: int, minA: int, minB: int,
                                      now: int)
    requires burn > 0 && minA >= 0 && minB >= 0
    ensures
      var (after, answer) := Handle(s, Remove(market, provider, burn, minA, minB, now));
      var key := market + ":" + provider;
      var period := if market in s.lockPeriods then s.lockPeriods[market] else 86400;
      if key in s.deposits && now < s.deposits[key] + period then
        after == s && answer == Err(WithdrawalLocked(s.deposits[key] + period))
      else if market !in s.pools then after == s && answer == Err(PoolNotFound)
      else
        var pool := s.pools[market];
        if pool.totalLp <= 0 || burn > pool.totalLp then after == s && answer == Err(BurnTooLarge)
        else
          var outA, outB := pool.reserveA * burn / pool.totalLp, pool.reserveB * burn / pool.totalLp;
          if outA < minA || outB < minB then after == s && answer == Err(SlippageLimit)
          else
            && answer == Ok(Receipt(burn, outA, outB))
            && after == s.(pools := s.pools[market := Pool(pool.reserveA - outA, pool.reserveB - outB,
                                                           pool.totalLp - burn)])
  {}

  // ----- The withdrawal lock -----

  /** The last lock period that the requests set for the market; a negative one is refused. */
  function LastLockSet(requests: seq<Request>, market: string): Option<int> {
    if requests == [] then None
    else
      var last := requests[|requests| - 1];
      if last.SetLock? && last.market == market && last.seconds >= 0 then Some(last.seconds)
      else LastLockSet(requests[..|requests| - 1], market)
  }

  lemma {:induction false} RunSnoc(s: State, requests: seq<Request>)
    requires requests != [] && forall i :: 0 <= i < |requests| ==> Valid(requests[i])
    ensures Run(s, requests) == Handle(Run(s, requests[..|requests| - 1]), requests[|requests| - 1]).0
    decreases |requests|
  {
    var init, last := requests[..|requests| - 1], requests[|requests| - 1];
    if |requests| > 1 {
      assert requests[1..][..|requests| - 2] == init[1..];
      RunSnoc(Handle(s, requests[0]).0, requests[1..]);
    } else {
      assert requests == [last];
    }
  }

  /** The lock period of a market is the last one set for it, else what it was, else a day. */
  lemma {:induction false} LockPeriodIsLastSet(s: State, requests: seq<Request>, market: string)
    requires forall i :: 0 <= i < |requests| ==> Valid(requests[i])
    ensures
      var chosen := LastLockSet(requests, market);
      LockPeriod(Run(s, requests), market) ==
      (if chosen.Some? then chosen.value
       else if market in s.lockPeriods then s.lockPeriods[market]
       else 86400)
    decreases |requests|
  {
    if requests != [] {
      RunSnoc(s, requests);
      LockPeriodIsLastSet(s, requests[..|requests| - 1], market);
    }
  }

  predicate NotBefore(r: Request, t: int) {
    r.SetLock? || r.now >= t
  }

  lemma {:induction false} DepositTimeKept(s: State, requests: seq<Request>, key: string, t: int)
    requires forall i :: 0 <= i < |requests| ==> Valid(requests[i]) && NotBefore(requests[i], t)
    requires key in s.deposits && s.deposits[key] >= t
    ensures key in Run(s, requests).deposits && Run(s, requests).deposits[key] >= t
    decreases |requests|
  {
    if requests != [] {
      assert Valid(requests[0]) && NotBefore(requests[0], t);
      DepositTimeKept(Handle(s, requests[0]).0, requests[1..], key, t);
    }
  }

  /**
   After an accepted deposit at time t, and whatever other requests come next, no withdrawal by the
   same provider from the same market is accepted before t plus the lock period in force by then.
   */
  lemma NoWithdrawalWhileLocked(s: State, deposit: Request, requests: seq<Request>, withdrawal: Request)
    requires Valid(deposit) && deposit.Add? && Handle(s, deposit).1.Ok?
    requires forall i :: 0 <= i < |requests| ==> Valid(requests[i]) && NotBefore(requests[i], deposit.now)
    requires Valid(withdrawal) && withdrawal.Remove?
    requires withdrawal.market == deposit.market && withdrawal.provider == deposit.provider
    requires Handle(Run(Handle(s, deposit).0, requests), withdrawal).1.Ok?
    ensures
      var chosen := LastLockSet(requests, deposit.market);
      withdrawal.now >= deposit.now + (if chosen.Some? then chosen.value
                                       else if deposit.market in s.lockPeriods then s.lockPeriods[deposit.market]
                                       else 86400)
  {
    DepositTimeKept(Handle(s, deposit).0, requests, DepositKey(deposit.market, deposit.provider), deposit.now);
    LockPeriodIsLastSet(Handle(s, deposit).0, requests, deposit.market);
  }

  // ----- The routes with their state -----

  class LiquidityRoutes {
    var pools: map<string, Pool>
    var marketLockPeriods: map<string, int>
    var depositTimestamps: map<string, int>

    ghost function Contents(): State
      reads this
    {
      State(pools, marketLockPeriods, depositTimestamps)
    }

    constructor (markets: set<string>)
      ensures Contents() == State(map m | m in markets :: Pool(0, 0, 0), map[], map[])
      ensures AllBacked(Contents())
    {
      pools := map m | m in markets :: Pool(0, 0, 0);
      marketLockPeriods, depositTimestamps := map[], map[];
    }

    method AddLiquidity(market: string, provider: string, a: int, b: int, minLp: int, now: int)
      returns (response: Result<Receipt, Refusal>)
      requires AllBacked(Contents()) && a > 0 && b > 0 && minLp >= 0
      modifies this
      ensures AllBacked(Contents())
      ensures (Contents(), response) == Handle(old(Contents()), Add(market, provider, a, b, minLp, now))
      ensures response.Ok? ==>
                && response.value.lpTokens * response.value.lpTokens <= a * b
                && a * b < (response.value.lpTokens + 1) * (response.value.lpTokens + 1)
    {
      HandleKeepsBacked(Contents(), Add(market, provider, a, b, minLp, now));
      hide AllBacked;
      if market !in pools {
        return Err(PoolNotFound);
      }
      var mintedLpTokens := Minted(a, b);
      if mintedLpTokens < minLp {
        return Err(SlippageLimit);
      }
      var pool := pools[market];
      pools := pools[market := Pool(pool.reserveA + a, pool.reserveB + b, pool.totalLp + mintedLpTokens)];
      depositTimestamps := depositTimestamps[DepositKey(market, provider) := now];
      response := Ok(Receipt(mintedLpTokens, a, b));
    }

    method RemoveLiquidity(market: string, provider: string, burn: int, minA: int, minB: int, now: int)
      returns (response: Result<Receipt, Refusal>)
      requires AllBacked(Contents()) && burn > 0 && minA >= 0 && minB >= 0
      modifies this`pools
      ensures AllBacked(Contents())
      ensures (Contents(), response) == Handle(old(Contents()), Remove(market, provider, burn, minA, minB, now))
      ensures response.Ok? ==>
                && market in old(pools)
                && minA <= response.value.amountA <= old(pools)[market].reserveA
                && minB <= response.value.amountB <= old(pools)[market].reserveB
    {
      HandleKeepsBacked(Contents(), Remove(market, provider, burn, minA, minB, now));
      var lockPeriod := LockPeriod(State(pools, marketLockPeriods, depositTimestamps), market);
      var key := DepositKey(market, provider);
      if key in depositTimestamps && now < depositTimestamps[key] + lockPeriod {
        return Err(WithdrawalLocked(depositTimestamps[key] + lockPeriod));
      }
      if market !in pools {
        return Err(PoolNotFound);
      }
      var pool := pools[market];
      if pool.totalLp <= 0 || burn > pool.totalLp {
        return Err(BurnTooLarge);
      }
      RemovalIsFair(pool, burn);
      hide AllBacked;
      var amountA := Share(pool.reserveA, burn, pool.totalLp);
      var amountB := Share(pool.reserveB, burn, pool.totalLp);
      if amountA < minA || amountB < minB {
        return Err(SlippageLimit);
      }
      pools := pools[market := Pool(pool.reserveA - amountA, pool.reserveB - amountB, pool.totalLp - burn)];
      response := Ok(Receipt(burn, amountA, amountB));
    }

    method SetMarketLockPeriod(market: string, seconds: int) returns (response: Result<Receipt, Refusal>)
      modifies this`marketLockPeriods
      ensures (Contents(), response) == Handle(old(Contents()), SetLock(market, seconds))
    {
      if seconds < 0 {
        return Err(BadLockPeriod);
      }
      marketLockPeriods := marketLockPeriods[market := seconds];
      response := Ok(Receipt(0, 0, 0));
    }
  }
}
