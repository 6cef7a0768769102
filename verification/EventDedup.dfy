/**
 The duplicate-event cache of the standalone indexer: `EventDedupCache` and `recordProcessedEvent`
 of indexer/src/poller.ts.  A JavaScript Map keeps insertion order, so the cache is the sequence of
 its keys, oldest first.
 */
module EventDedup {
  import opened Common

  // ----- Recency: the reference the cache is compared with -----

  function Without(keys: seq<string>, key: string): seq<string> {
    if keys == [] then []
    else if keys[0] == key then Without(keys[1..], key)
    else [keys[0]] + Without(keys[1..], key)
  }

  /** The distinct keys of a history, ordered by their last occurrence. */
  function Recency(history: seq<string>): seq<string> {
    if history == [] then []
    else
      var key := history[|history| - 1];
      Without(Recency(history[..|history| - 1]), key) + [key]
  }

  function LastN(keys: seq<string>, n: nat): seq<string> {
    if |keys| <= n then keys else keys[|keys| - n..]
  }

  function LastIndex(history: seq<string>, key: string): (i: nat)
    requires key in history
    ensures i < |history| && history[i] == key
    ensures forall j :: i < j < |history| ==> history[j] != key
  {
    if history[|history| - 1] == key then |history| - 1
    else
      assert history == history[..|history| - 1] + [history[|history| - 1]];
      LastIndex(history[..|history| - 1], key)
  }

  ghost predicate Distinct(keys: seq<string>) {
    forall i, j :: 0 <= i < j < |keys| ==> keys[i] != keys[j]
  }

  lemma DistinctCons(first: string, rest: seq<string>)
    ensures Distinct([first] + rest) <==> Distinct(rest) && first !in rest
  {
    var all := [first] + rest;
    assert forall m :: 1 <= m < |all| ==> all[m] == rest[m - 1];
    if Distinct(all) {
      forall m | 0 <= m < |rest| ensures rest[m] != first {
        assert all[m + 1] == rest[m] && all[0] == first;
      }
      assert all[1..] == rest;
    }
    if Distinct(rest) && first !in rest {
      forall i, j | 0 <= i < j < |all| ensures all[i] != all[j] {
        assert all[j] == rest[j - 1];
        assert i > 0 ==> all[i] == rest[i - 1];
      }
    }
  }

  lemma {:induction false} WithoutSpec(keys: seq<string>, key: string)
    requires Distinct(keys)
    ensures Distinct(Without(keys, key))
    ensures forall k :: k in Without(keys, key) <==> k in keys && k != key
    ensures |Without(keys, key)| == if key in keys then |keys| - 1 else |keys|
    ensures key !in keys ==> Without(keys, key) == keys
  {
    if keys != [] {
      hide Distinct;
      assert keys == [keys[0]] + keys[1..];
      DistinctCons(keys[0], keys[1..]);
      WithoutSpec(keys[1..], key);
      DistinctCons(keys[0], Without(keys[1..], key));
    } else {
      assert Without(keys, key) == [];
    }
  }

  lemma {:induction false} WithoutConcat(a: seq<string>, b: seq<string>, key: string)
    ensures Without(a + b, key) == Without(a, key) + Without(b, key)
  {
    if a == [] {
      assert a + b == b;
    } else {
      assert (a + b)[0] == a[0] && (a + b)[1..] == a[1..] + b;
      WithoutConcat(a[1..], b, key);
    }
  }

  /** What `Recency` lists: each key of the history once. */
  lemma {:induction false} RecencyMembers(history: seq<string>)
    ensures Distinct(Recency(history))
    ensures forall key :: key in Recency(history) <==> key in history
  {
    if history != [] {
      var init, key := history[..|history| - 1], history[|history| - 1];
      RecencyMembers(init);
      WithoutSpec(Recency(init), key);
      assert forall k :: k in history <==> k in init || k == key;
    }
  }

  ghost predicate Earlier(history: seq<string>, a: string, b: string) {
    a in history && b in history && LastIndex(history, a) < LastIndex(history, b)
  }

  ghost predicate ByLastIndex(history: seq<string>, keys: seq<string>) {
    && (forall k :: k in keys ==> k in history)
    && forall i, j :: 0 <= i < j < |keys| ==> Earlier(history, keys[i], keys[j])
  }

  lemma LastIndexAppend(init: seq<string>, key: string, k: string)
    ensures k in init && k != key ==> LastIndex(init + [key], k) == LastIndex(init, k)
    ensures LastIndex(init + [key], key) == |init|
  {
    assert (init + [key])[..|init|] == init;
  }

  lemma PrependKeepsOrder(history: seq<string>, first: string, rest: seq<string>)
    requires ByLastIndex(history, rest) && first in history
    requires forall k :: k in rest ==> Earlier(history, first, k)
    ensures ByLastIndex(history, [first] + rest)
  {
    hide Earlier;
    var all := [first] + rest;
    forall i, j | 0 <= i < j < |all| ensures Earlier(history, all[i], all[j]) {
      assert all[j] == rest[j - 1] && rest[j - 1] in rest;
      assert i > 0 ==> all[i] == rest[i - 1];
    }
  }

  lemma SplitOrder(history: seq<string>, keys: seq<string>)
    requires ByLastIndex(history, keys) && keys != []
    ensures keys[0] in history && ByLastIndex(history, keys[1..])
    ensures forall k :: k in keys[1..] ==> Earlier(history, keys[0], k)
  {
    hide Earlier;
    assert forall m :: 0 <= m < |keys| - 1 ==> keys[1..][m] == keys[m + 1];
  }

  lemma {:induction false} WithoutKeepsOrder(history: seq<string>, keys: seq<string>, key: string)
    requires ByLastIndex(history, keys)
    ensures ByLastIndex(history, Without(keys, key))
    ensures forall k :: k in Without(keys, key) ==> k in keys && k != key
  {
    hide Earlier, ByLastIndex;
    if keys != [] {
      SplitOrder(history, keys);
      WithoutKeepsOrder(history, keys[1..], key);
      if keys[0] != key {
        PrependKeepsOrder(history, keys[0], Without(keys[1..], key));
      }
    }
  }

  lemma EarlierAppend(init: seq<string>, key: string, a: string, b: string)
    requires Earlier(init, a, b) && a != key
    ensures Earlier(init + [key], a, b)
  {
    LastIndexAppend(init, key, a);
    LastIndexAppend(init, key, b);
  }

  /** ... in the order of last occurrence. */
  lemma {:induction false} RecencyOrder(history: seq<string>)
    ensures ByLastIndex(history, Recency(history))
  {
    hide Earlier;
    if history != [] {
      var init, key := history[..|history| - 1], history[|history| - 1];
      assert history == init + [key];
      RecencyOrder(init);
      WithoutKeepsOrder(init, Recency(init), key);
      var rest := Without(Recency(init), key);
      var all := rest + [key];
      forall i, j | 0 <= i < j < |all| ensures Earlier(history, all[i], all[j]) {
        assert all[i] == rest[i] && rest[i] in rest;
        if j < |rest| {
          assert all[j] == rest[j] && rest[j] in rest;
          EarlierAppend(init, key, rest[i], rest[j]);
        } else {
          LastIsLatest(init, key, rest[i]);
        }
      }
    }
  }

  lemma LastIsLatest(init: seq<string>, key: string, a: string)
    requires a in init && a != key
    ensures Earlier(init + [key], a, key)
  {
    LastIndexAppend(init, key, a);
  }

  // ----- One add -----

  /** What `add` does to the keys of the Map. */
  function AddKey(keys: seq<string>, key: string, maxSize: int): seq<string> {
    if key in keys then Without(keys, key) + [key]
    else if |keys| >= maxSize && keys != [] then keys[1..] + [key]
    else keys + [key]
  }

  /** A Map that is full at size 0 or below still takes one key. */
  function Capacity(maxSize: int): nat {
    Max(1, maxSize)
  }

  /** Adding to the last `capacity` keys by recency yields the last `capacity` keys by recency. */
  lemma AddKeepsRecent(history: seq<string>, key: string, maxSize: int)
    ensures AddKey(LastN(Recency(history), Capacity(maxSize)), key, maxSize)
            == LastN(Recency(history + [key]), Capacity(maxSize))
  {
    var all := Recency(history);
    var cap := Capacity(maxSize);
    var keys := LastN(all, cap);
    var evicted := all[..|all| - |keys|];
    assert (history + [key])[..|history|] == history;
    assert Recency(history + [key]) == Without(all, key) + [key];
    assert all == evicted + keys;
    RecencyMembers(history);
    WithoutConcat(evicted, keys, key);
    assert Distinct(evicted) && Distinct(keys);
    WithoutSpec(evicted, key);
    WithoutSpec(keys, key);
    RecentStep(evicted, keys, key, maxSize);
  }

  lemma LastNOfConcat(front: seq<string>, back: seq<string>, n: nat)
    requires |back| <= n && (front != [] ==> |back| == n)
    ensures LastN(front + back, n) == back
  {
    if front == [] {
      assert front + back == back;
    }
  }

  lemma NotInFront(front: seq<string>, back: seq<string>, key: string)
    requires Distinct(front + back) && key in back
    ensures key !in front
  {
    var j :| 0 <= j < |back| && back[j] == key;
    assert (front + back)[|front| + j] == key;
    assert forall i :: 0 <= i < |front| ==> front[i] == (front + back)[i];
  }

  lemma RecentStep(evicted: seq<string>, keys: seq<string>, key: string, maxSize: int)
    requires Distinct(evicted + keys) && Distinct(evicted) && Distinct(keys)
    requires |keys| <= Capacity(maxSize) && (evicted != [] ==> |keys| == Capacity(maxSize))
    ensures AddKey(keys, key, maxSize) == LastN(Without(evicted, key) + Without(keys, key) + [key], Capacity(maxSize))
  {
    hide Distinct, Without, LastN;
    WithoutSpec(evicted, key);
    WithoutSpec(keys, key);
    var out, kept, cap := Without(evicted, key), Without(keys, key), Capacity(maxSize);
    if key in keys {
      NotInFront(evicted, keys, key);
      assert out + kept + [key] == out + (kept + [key]);
      LastNOfConcat(out, kept + [key], cap);
    } else if |keys| < cap {
      assert out == [];
      assert out + kept + [key] == keys + [key];
      assert [] + (keys + [key]) == keys + [key];
      LastNOfConcat([], keys + [key], cap);
    } else {
      assert out + kept + [key] == out + [keys[0]] + (keys[1..] + [key]);
      LastNOfConcat(out + [keys[0]], keys[1..] + [key], cap);
    }
  }

  // ----- Eviction -----

  /** The distinct keys added after the last occurrence of `key`. */
  function SinceLast(history: seq<string>, key: string): set<string>
    requires key in history
  {
    KeySet(history[LastIndex(history, key) + 1..])
  }

  function KeySet(keys: seq<string>): set<string> {
    set k | k in keys
  }

  lemma {:induction false} DistinctCardinality(keys: seq<string>)
    requires Distinct(keys)
    ensures |KeySet(keys)| == |keys|
  {
    if keys != [] {
      var init, last := keys[..|keys| - 1], keys[|keys| - 1];
      DistinctCardinality(init);
      assert keys == init + [last];
      assert KeySet(keys) == KeySet(init) + {last};
      assert last !in KeySet(init);
    }
  }

  lemma NotEarlierBoth(history: seq<string>, a: string, b: string)
    requires a in history && b in history && LastIndex(history, a) < LastIndex(history, b)
    ensures !Earlier(history, b, a) && a != b
  {
  }

  /** A key stands in `Recency` before exactly the distinct keys added since its last occurrence. */
  lemma RankIsOthersSince(history: seq<string>, i: nat)
    requires i < |Recency(history)| && Recency(history)[i] in history
    ensures |SinceLast(history, Recency(history)[i])| == |Recency(history)| - 1 - i
    ensures Recency(history)[i] !in SinceLast(history, Recency(history)[i])
  {
    hide Recency, LastIndex;
    var all := Recency(history);
    var at := LastIndex(history, all[i]);
    var since := history[at + 1..];
    RecencyMembers(history);
    RecencyOrder(history);
    forall k ensures k in since <==> k in all[i + 1..] {
      if k in since {
        LaterThan(history, at, k);
        var j :| 0 <= j < |all| && all[j] == k;
        NotEarlierBoth(history, all[i], k);
        assert j > i;
        assert all[i + 1..][j - i - 1] == k;
      }
      if k in all[i + 1..] {
        var j :| 0 <= j < |all| - i - 1 && all[i + 1..][j] == k;
        assert all[i + 1 + j] == k && Earlier(history, all[i], k);
        assert since[LastIndex(history, k) - at - 1] == k;
      }
    }
    DistinctCardinality(all[i + 1..]);
    assert KeySet(since) == KeySet(all[i + 1..]);
  }

  lemma LaterThan(history: seq<string>, at: nat, k: string)
    requires at < |history| && k in history[at + 1..]
    ensures k in history && LastIndex(history, k) > at
  {
    var j :| 0 <= j < |history| - at - 1 && history[at + 1..][j] == k;
    assert history[at + 1 + j] == k;
  }

  /** A key once added is forgotten exactly when at least `capacity` other keys have been added since. */
  lemma ForgottenIff(history: seq<string>, key: string, capacity: nat)
    requires key in history
    ensures key !in LastN(Recency(history), capacity) <==> |SinceLast(history, key)| >= capacity
    ensures key !in SinceLast(history, key)
  {
    var all := Recency(history);
    var keys := LastN(all, capacity);
    RecencyMembers(history);
    var i :| 0 <= i < |all| && all[i] == key;
    RankIsOthersSince(history, i);
    var n := |all| - |keys|;
    assert forall j :: 0 <= j < |keys| ==> keys[j] == all[n + j];
    assert i >= n ==> keys[i - n] == key;
  }

  // ----- Event keys -----

  function Digits(n: nat): string {
    if n < 10 then [Digit(n)] else Digits(n / 10) + [Digit(n % 10)]
  }

  function Digit(d: nat): char
    requires d < 10
  {
    "0123456789"[d]
  }

  function EventKey(txHash: string, eventIndex: nat): string {
    txHash + ":" + Digits(eventIndex)
  }

  lemma {:induction false} DigitsInjective(m: nat, n: nat)
    ensures Digits(m) == Digits(n) ==> m == n
  {
    DigitsNoColon(m);
    DigitsNoColon(n);
    if Digits(m) == Digits(n) && m >= 10 && n >= 10 {
      var dm, dn := Digits(m), Digits(n);
      assert dm[..|dm| - 1] == Digits(m / 10) && dn[..|dn| - 1] == Digits(n / 10);
      assert dm[|dm| - 1] == Digit(m % 10) && dn[|dn| - 1] == Digit(n % 10);
      DigitsInjective(m / 10, n / 10);
    }
  }

  lemma {:induction false} DigitsNoColon(n: nat)
    ensures ':' !in Digits(n) && |Digits(n)| >= 1
    ensures n >= 10 ==> |Digits(n)| >= 2
  {
    if n >= 10 {
      DigitsNoColon(n / 10);
    }
  }

  /** The last colon of a string is determined by the string. */
  lemma SplitAtLastColon(a: string, x: string, b: string, y: string)
    requires a + ":" + x == b + ":" + y && ':' !in x && ':' !in y
    ensures a == b && x == y
  {
    var s := a + ":" + x;
    assert s[|a|] == ':' && s[|b|] == ':';
    assert forall i :: |a| < i < |s| ==> s[i] == x[i - |a| - 1];
    assert forall i :: |b| < i < |s| ==> s[i] == y[i - |b| - 1];
    assert |a| == |b|;
    assert a == s[..|a|] && b == s[..|b|];
    assert x == s[|a| + 1..] && y == s[|b| + 1..];
  }

  /** Two events share a key only when they are the same event of the same transaction. */
  lemma EventKeyInjective(tx1: string, i1: nat, tx2: string, i2: nat)
    ensures EventKey(tx1, i1) == EventKey(tx2, i2) <==> tx1 == tx2 && i1 == i2
  {
    DigitsNoColon(i1);
    DigitsNoColon(i2);
    if EventKey(tx1, i1) == EventKey(tx2, i2) {
      SplitAtLastColon(tx1, Digits(i1), tx2, Digits(i2));
      DigitsInjective(i1, i2);
    }
  }

  // ----- The cache -----

  class EventDedupCache {
    var keys: seq<string>
    const maxSize: int
    ghost var history: seq<string>     // every key added since the last clear

    /** The cache holds the most recently added distinct keys, as many as fit, in order of recency. */
    ghost predicate Valid()
      reads this
    {
      keys == LastN(Recency(history), Capacity(maxSize))
    }

    constructor (maxSize: int)
      ensures Valid() && history == [] && this.maxSize == maxSize
    {
      this.maxSize := maxSize;
      keys, history := [], [];
    }

    method Has(key: string) returns (found: bool)
      ensures found <==> key in keys
    {
      found := key in keys;
    }

    method Add(key: string)
      requires Valid()
      modifies this
      ensures Valid() && history == old(history) + [key]
    {
      AddKeepsRecent(history, key, maxSize);
      if key in keys {
        keys := Without(keys, key);
      } else if |keys| >= maxSize {
        if keys != [] {
          keys := keys[1..];
        }
      }
      keys := keys + [key];
      history := history + [key];
    }

    method Size() returns (size: nat)
      requires Valid()
      ensures size == Min(Capacity(maxSize), |Recency(history)|)
    {
      size := |keys|;
    }

    method Clear()
      modifies this
      ensures Valid() && history == []
    {
      keys, history := [], [];
    }

    /** An event is refused exactly when it was accepted before and fewer than `Capacity` others since. */
    method RecordProcessedEvent(txHash: string, eventIndex: nat) returns (accepted: bool)
      requires Valid()
      modifies this
      ensures Valid()
      ensures history == if accepted then old(history) + [EventKey(txHash, eventIndex)] else old(history)
      ensures !accepted <==>
                && EventKey(txHash, eventIndex) in old(history)
                && |SinceLast(old(history), EventKey(txHash, eventIndex))| < Capacity(maxSize)
    {
      var key := EventKey(txHash, eventIndex);
      RecencyMembers(history);
      if key in history {
        ForgottenIff(history, key, Capacity(maxSize));
      }
      if key in keys {
        return false;
      }
      Add(key);
      accepted := true;
    }
  }
}
