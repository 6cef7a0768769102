/**
 Keyset pagination of a bettor's bets: `fetchBetsByAddress` and `encodeBetCursor` of
 backend/src/services/BetService.ts.

 The cursor form is compared with the OFFSET form it stands beside.  Times are in microseconds, as
 the database keeps them; a cursor keeps whole milliseconds only.
 */
module BetPagination {
  import opened Common

  datatype Bet = Bet(id: int, placedAt: int, bettor: string)

  /** A position in the order (placed_at, id). */
  datatype Key = Key(placedAt: int, id: int)

  function KeyOf(bet: Bet): Key {
    Key(bet.placedAt, bet.id)
  }

  predicate Less(a: Key, b: Key) {
    a.placedAt < b.placedAt || (a.placedAt == b.placedAt && a.id < b.id)
  }

  // ----- The query -----

  predicate Matches(bet: Bet, bettor: string, below: Option<Key>) {
    bet.bettor == bettor && (below.Some? ==> Less(KeyOf(bet), below.value))
  }

  /** WHERE bettor_address = $1 [AND (placed_at, id) < cursor]. */
  function Select(table: seq<Bet>, bettor: string, below: Option<Key>): seq<Bet> {
    if table == [] then []
    else (if Matches(table[0], bettor, below) then [table[0]] else []) + Select(table[1..], bettor, below)
  }

  function InsertDesc(bet: Bet, rows: seq<Bet>): seq<Bet> {
    if rows == [] || Less(KeyOf(rows[0]), KeyOf(bet)) then [bet] + rows
    else [rows[0]] + InsertDesc(bet, rows[1..])
  }

  /** ORDER BY placed_at DESC, id DESC. */
  function OrderDesc(rows: seq<Bet>): seq<Bet> {
    if rows == [] then [] else InsertDesc(rows[0], OrderDesc(rows[1..]))
  }

  function Query(table: seq<Bet>, bettor: string, below: Option<Key>): seq<Bet> {
    OrderDesc(Select(table, bettor, below))
  }

  function Limit(rows: seq<Bet>, n: nat): seq<Bet> {
    if |rows| <= n then rows else rows[..n]
  }

  function Offset(rows: seq<Bet>, n: nat): seq<Bet> {
    if |rows| <= n then [] else rows[n..]
  }

  // ----- fetchBetsByAddress -----

  /** The cursor argument: absent, empty, undecodable, or a decoded position. */
  datatype Cursor = NoCursor | Start | Undecodable | After(key: Key)

  datatype Page = Page(bets: seq<Bet>, next: Option<Key>)

  datatype Response = Response(page: Page, total: Option<nat>)

  datatype BadRequest = BadAddress | BadPage | BadLimit | BadCursor | BadOffset

  /** The cursor of a bet: its time cut to whole milliseconds, and its id. */
  function EncodeCursor(bet: Bet): Key {
    Key(bet.placedAt / 1000 * 1000, bet.id)
  }

  /** One row more than the limit is fetched to learn whether there is a further page. */
  function CutPage(rows: seq<Bet>, limit: nat): Page
    requires limit > 0
  {
    var bets := Limit(rows, limit);
    Page(bets, if |rows| > limit then Some(EncodeCursor(bets[|bets| - 1])) else None)
  }

  /** The OFFSET form counts with a query of its own, which may see the table at another moment: `counted`. */
  function FetchBets(table: seq<Bet>, counted: seq<Bet>, bettor: string, page: int, limit: int, cursor: Cursor,
                     legacyOffset: Option<int>): Result<Response, BadRequest>
  {
    if !IsStellarAddress(bettor) then Err(BadAddress)
    else if page < 1 then Err(BadPage)
    else if limit < 1 || limit > 100 then Err(BadLimit)
    else
      match cursor
      case Undecodable => Err(BadCursor)
      case After(key) =>
        if key.id < 1 then Err(BadCursor)
        else Ok(Response(CutPage(Limit(Query(table, bettor, Some(key)), limit + 1), limit), None))
      case Start => Ok(Response(CutPage(Limit(Query(table, bettor, None), limit + 1), limit), None))
      case NoCursor =>
        if legacyOffset.Some? && legacyOffset.value < 0 then Err(BadOffset)
        else
          MulMono(0, page - 1, limit);
          var offset := if legacyOffset.Some? then legacyOffset.value else (page - 1) * limit;
          Ok(Response(CutPage(Limit(Offset(Query(table, bettor, None), offset), limit + 1), limit),
                      Some(|Select(counted, bettor, None)|)))
  }

  /** The page a request sees: the rows below the cursor, cut at the limit. */
  function CursorPage(table: seq<Bet>, bettor: string, limit: nat, below: Option<Key>): Page
    requires limit > 0
  {
    CutPage(Limit(Query(table, bettor, below), limit + 1), limit)
  }

  // ----- The query, specified -----

  predicate Descending(rows: seq<Bet>) {
    forall i, j :: 0 <= i < j < |rows| ==> Less(KeyOf(rows[j]), KeyOf(rows[i]))
  }

  /** The table's primary key, with positive ids. */
  predicate ValidTable(table: seq<Bet>) {
    && (forall i, j :: 0 <= i < j < |table| ==> table[i].id != table[j].id)
    && (forall i :: 0 <= i < |table| ==> table[i].id >= 1)
  }

  lemma {:induction false} SelectMembers(table: seq<Bet>, bettor: string, below: Option<Key>, bet: Bet)
    ensures bet in Select(table, bettor, below) <==> bet in table && Matches(bet, bettor, below)
  {
    if table != [] {
      SelectMembers(table[1..], bettor, below, bet);
    }
  }

  lemma {:induction false} SelectValid(table: seq<Bet>, bettor: string, below: Option<Key>)
    requires ValidTable(table)
    ensures ValidTable(Select(table, bettor, below))
  {
    if table != [] {
      var rest := Select(table[1..], bettor, below);
      SelectValid(table[1..], bettor, below);
      forall i | 0 <= i < |rest| ensures rest[i].id != table[0].id {
        SelectMembers(table[1..], bettor, below, rest[i]);
        var k :| 0 <= k < |table| - 1 && table[1..][k] == rest[i];
        assert table[k + 1] == rest[i];
      }
    }
  }

  lemma {:induction false} InsertDescSorts(bet: Bet, rows: seq<Bet>)
    requires Descending(rows) && forall i :: 0 <= i < |rows| ==> rows[i].id != bet.id
    ensures Descending(InsertDesc(bet, rows))
    ensures forall x :: x in InsertDesc(bet, rows) <==> x == bet || x in rows
  {
    if rows != [] && !Less(KeyOf(rows[0]), KeyOf(bet)) {
      InsertDescSorts(bet, rows[1..]);
      var rest := InsertDesc(bet, rows[1..]);
      forall x ensures x in [rows[0]] + rest <==> x == bet || x in rows {
        assert x in rows <==> x == rows[0] || x in rows[1..];
      }
      forall x | x in rest ensures Less(KeyOf(x), KeyOf(rows[0])) {
        if x != bet {
          var k :| 0 <= k < |rows| - 1 && rows[1..][k] == x;
          assert rows[k + 1] == x;
        }
      }
    }
  }

  lemma {:induction false} OrderDescSorts(rows: seq<Bet>)
    requires ValidTable(rows)
    ensures Descending(OrderDesc(rows))
    ensures forall x :: x in OrderDesc(rows) <==> x in rows
  {
    if rows != [] {
      OrderDescSorts(rows[1..]);
      var rest := OrderDesc(rows[1..]);
      forall i | 0 <= i < |rest| ensures rest[i].id != rows[0].id {
        assert rest[i] in rows[1..];
      }
      InsertDescSorts(rows[0], rest);
    }
  }

  /** The query answers the matching bets, each once, latest first. */
  lemma QuerySpec(table: seq<Bet>, bettor: string, below: Option<Key>)
    requires ValidTable(table)
    ensures Descending(Query(table, bettor, below))
    ensures forall bet :: bet in Query(table, bettor, below) <==> bet in table && Matches(bet, bettor, below)
  {
    SelectValid(table, bettor, below);
    OrderDescSorts(Select(table, bettor, below));
    forall bet ensures bet in Query(table, bettor, below) <==> bet in table && Matches(bet, bettor, below) {
      SelectMembers(table, bettor, below, bet);
    }
  }

  /** A descending list is determined by its members. */
  lemma {:induction false} DescendingUnique(a: seq<Bet>, b: seq<Bet>)
    requires Descending(a) && Descending(b) && forall x :: x in a <==> x in b
    ensures a == b
  {
    assert a != [] ==> a[0] in b;
    assert b != [] ==> b[0] in a;
    if a != [] && b != [] {
      assert a[0] in b;
      assert b[0] in a;
      assert a[0] == b[0];
      forall x ensures x in a[1..] <==> x in b[1..] {
        DescendingTail(a, x);
        DescendingTail(b, x);
      }
      DescendingUnique(a[1..], b[1..]);
    }
  }

  lemma DescendingTail(rows: seq<Bet>, x: Bet)
    requires rows != [] && Descending(rows)
    ensures x in rows[1..] <==> x in rows && x != rows[0]
  {
    if x in rows[1..] {
      var k :| 0 <= k < |rows| - 1 && rows[1..][k] == x;
      assert rows[k + 1] == x && Less(KeyOf(rows[k + 1]), KeyOf(rows[0]));
    }
  }

  // ----- Whole milliseconds, and what a cursor loses without them -----

  predicate WholeMilliseconds(table: seq<Bet>) {
    forall i :: 0 <= i < |table| ==> table[i].placedAt % 1000 == 0
  }

  lemma CursorKeepsKey(bet: Bet)
    ensures EncodeCursor(bet) == KeyOf(bet) <==> bet.placedAt % 1000 == 0
    ensures !Less(KeyOf(bet), EncodeCursor(bet))
  {}

  /**
   Continuing from a bet's cursor yields what continues from the bet itself exactly when none of the
   bettor's bets lies between the two positions.  When all times are whole milliseconds none does.
   */
  lemma CursorSkipsNothingIff(table: seq<Bet>, bettor: string, last: Bet)
    requires ValidTable(table)
    ensures Query(table, bettor, Some(EncodeCursor(last))) == Query(table, bettor, Some(KeyOf(last)))
            <==> forall bet :: bet in table && bet.bettor == bettor && Less(KeyOf(bet), KeyOf(last)) ==>
                   Less(KeyOf(bet), EncodeCursor(last))
  {
    var cut, exact := Query(table, bettor, Some(EncodeCursor(last))), Query(table, bettor, Some(KeyOf(last)));
    QuerySpec(table, bettor, Some(EncodeCursor(last)));
    QuerySpec(table, bettor, Some(KeyOf(last)));
    if forall bet :: bet in table && bet.bettor == bettor && Less(KeyOf(bet), KeyOf(last)) ==>
         Less(KeyOf(bet), EncodeCursor(last)) {
      forall x ensures x in cut <==> x in exact {
        assert Matches(x, bettor, Some(EncodeCursor(last))) ==> Matches(x, bettor, Some(KeyOf(last)));
      }
      DescendingUnique(cut, exact);
    } else {
      var bet :| bet in table && bet.bettor == bettor && Less(KeyOf(bet), KeyOf(last))
                 && !Less(KeyOf(bet), EncodeCursor(last));
      assert bet in exact && bet !in cut;
    }
  }

  lemma BeyondPrefix(rows: seq<Bet>, limit: nat, bet: Bet)
    requires Descending(rows) && 0 < limit <= |rows| && bet in rows && bet !in rows[..limit]
    ensures Less(KeyOf(bet), KeyOf(rows[limit - 1]))
  {
    forall k | 0 <= k < limit ensures rows[k] in rows[..limit] {
      assert rows[..limit][k] == rows[k];
    }
    var k :| 0 <= k < |rows| && rows[k] == bet;
  }

  lemma CutSpec(rows: seq<Bet>, limit: nat)
    requires Descending(rows) && limit > 0
    ensures
      var page := CutPage(Limit(rows, limit + 1), limit);
      && Descending(page.bets)
      && page.bets == Limit(rows, limit)
      && (|rows| <= limit ==> page.next.None?)
      && (|rows| > limit ==>
            && page.next == Some(EncodeCursor(rows[limit - 1]))
            && forall bet :: bet in rows ==> bet in page.bets || Less(KeyOf(bet), KeyOf(rows[limit - 1])))
  {
    if |rows| > limit {
      assert rows[..limit + 1][..limit] == rows[..limit];
      forall bet | bet in rows && bet !in rows[..limit] ensures Less(KeyOf(bet), KeyOf(rows[limit - 1])) {
        BeyondPrefix(rows, limit, bet);
      }
    }
  }

  /** Two bets in one millisecond: the page after the later one comes back empty, the earlier is lost. */
  lemma SameMillisecondIsLost(earlier: Bet, later: Bet, table: seq<Bet>)
    requires table == [earlier, later] && ValidTable(table) && earlier.bettor == later.bettor
    requires later.placedAt / 1000 * 1000 < earlier.placedAt < later.placedAt
    ensures CursorPage(table, later.bettor, 1, None) == Page([later], Some(EncodeCursor(later)))
    ensures CursorPage(table, later.bettor, 1, Some(EncodeCursor(later))) == Page([], None)
  {
    var rows := [later, earlier];
    QueryIs(table, later.bettor, None, rows);
    QueryIs(table, later.bettor, Some(EncodeCursor(later)), []);
    hide Query, ValidTable, Matches, EncodeCursor;
    CutSpec(rows, 1);
    CutSpec([], 1);
    assert Limit(rows, 1) == [later];
  }

  lemma QueryIs(table: seq<Bet>, bettor: string, below: Option<Key>, rows: seq<Bet>)
    requires ValidTable(table) && Descending(rows)
    requires forall i :: 0 <= i < |rows| ==> rows[i] in table && Matches(rows[i], bettor, below)
    requires forall i :: 0 <= i < |table| && Matches(table[i], bettor, below) ==> table[i] in rows
    ensures Query(table, bettor, below) == rows
  {
    QuerySpec(table, bettor, below);
    hide Query, Matches;
    DescendingUnique(Query(table, bettor, below), rows);
  }

  // ----- Walking the pages while the table changes -----

  /** What a client reads that follows the cursor; `tables[i]` is the table at its i-th request. */
  function Walk(tables: seq<seq<Bet>>, bettor: string, limit: nat, below: Option<Key>): seq<Bet>
    requires limit > 0
  {
    if tables == [] then []
    else
      var page := CursorPage(tables[0], bettor, limit, below);
      page.bets + (if page.next.None? then [] else Walk(tables[1..], bettor, limit, page.next))
  }

  /** The client has met a page without a further cursor. */
  predicate Finished(tables: seq<seq<Bet>>, bettor: string, limit: nat, below: Option<Key>)
    requires limit > 0
  {
    tables != [] &&
    var page := CursorPage(tables[0], bettor, limit, below);
    page.next.None? || Finished(tables[1..], bettor, limit, page.next)
  }

  predicate ValidTables(tables: seq<seq<Bet>>) {
    forall i :: 0 <= i < |tables| ==> ValidTable(tables[i])
  }

  /**
   The bet stands behind the last bet of some page but not behind the cursor made from it, which
   has lost the microseconds.
   */
  predicate CutOff(tables: seq<seq<Bet>>, bettor: string, limit: nat, below: Option<Key>, bet: Bet)
    requires limit > 0
  {
    tables != [] &&
    var page := CursorPage(tables[0], bettor, limit, below);
    && page.next.Some? && page.bets != []
    && (|| (Less(KeyOf(bet), KeyOf(page.bets[|page.bets| - 1])) && !Less(KeyOf(bet), page.next.value))
        || CutOff(tables[1..], bettor, limit, page.next, bet))
  }

  lemma PageSpec(table: seq<Bet>, bettor: string, limit: nat, below: Option<Key>)
    requires limit > 0 && ValidTable(table)
    ensures
      var page := CursorPage(table, bettor, limit, below);
      && Descending(page.bets)
      && (forall bet :: bet in page.bets ==> bet in table && Matches(bet, bettor, below))
      && (page.next.None? ==> forall bet :: bet in table && Matches(bet, bettor, below) ==> bet in page.bets)
      && (page.next.Some? ==>
            && |page.bets| == limit && page.next.value == EncodeCursor(page.bets[limit - 1])
            && forall bet :: bet in table && Matches(bet, bettor, below) ==>
                 bet in page.bets || Less(KeyOf(bet), KeyOf(page.bets[limit - 1])))
  {
    QuerySpec(table, bettor, below);
    CutSpec(Query(table, bettor, below), limit);
    hide Query, ValidTable, Matches, Less, Descending, CutPage, EncodeCursor;
  }

  /** A page and the rest of a walk that starts below it, joined. */
  lemma JoinDescending(page: seq<Bet>, rest: seq<Bet>)
    requires Descending(page) && Descending(rest) && page != []
    requires forall bet :: bet in rest ==> Less(KeyOf(bet), KeyOf(page[|page| - 1]))
    ensures Descending(page + rest)
  {
    var all := page + rest;
    forall i, j | 0 <= i < j < |all| ensures Less(KeyOf(all[j]), KeyOf(all[i])) {
      if i < |page| <= j {
        assert all[j] in rest;
      }
    }
  }

  /** What lies below the cursor of a bet lies below the bet. */
  lemma MatchesBelow(bet: Bet, last: Bet, bettor: string, below: Option<Key>)
    requires Matches(bet, bettor, Some(EncodeCursor(last))) && Matches(last, bettor, below)
    ensures Less(KeyOf(bet), KeyOf(last)) && Matches(bet, bettor, below)
  {}

  ghost predicate InSome(tables: seq<seq<Bet>>, bet: Bet) {
    exists i :: 0 <= i < |tables| && bet in tables[i]
  }

  lemma InFirstOrLater(tables: seq<seq<Bet>>, bet: Bet)
    requires tables != []
    ensures InSome(tables, bet) <==> bet in tables[0] || InSome(tables[1..], bet)
  {
    if i :| 0 < i < |tables| && bet in tables[i] {
      assert tables[1..][i - 1] == tables[i];
    }
    if InSome(tables[1..], bet) {
      var i :| 0 <= i < |tables| - 1 && bet in tables[1..][i];
      assert bet in tables[i + 1];
    }
  }

  /** Descending rows of the bettor below the position, each taken from one of the tables. */
  ghost predicate Lists(rows: seq<Bet>, tables: seq<seq<Bet>>, bettor: string, below: Option<Key>) {
    && Descending(rows)
    && forall bet :: bet in rows ==> Matches(bet, bettor, below) && InSome(tables, bet)
  }

  lemma PageThenRest(page: seq<Bet>, rest: seq<Bet>, tables: seq<seq<Bet>>, bettor: string, below: Option<Key>)
    requires page != [] && tables != [] && Lists(page, tables, bettor, below)
    requires Lists(rest, tables[1..], bettor, Some(EncodeCursor(page[|page| - 1])))
    ensures Lists(page + rest, tables, bettor, below)
  {
    hide Descending, Matches, InSome, Less, EncodeCursor;
    var last := page[|page| - 1];
    assert last in page;
    forall bet | bet in rest
      ensures Less(KeyOf(bet), KeyOf(last)) && Matches(bet, bettor, below) && InSome(tables, bet)
    {
      MatchesBelow(bet, last, bettor, below);
      InFirstOrLater(tables, bet);
    }
    JoinDescending(page, rest);
  }

  lemma PageLists(tables: seq<seq<Bet>>, bettor: string, limit: nat, below: Option<Key>)
    requires limit > 0 && ValidTables(tables) && tables != []
    ensures
      var page := CursorPage(tables[0], bettor, limit, below);
      && Lists(page.bets, tables, bettor, below)
      && (page.next.Some? ==> page.bets != [] && page.next.value == EncodeCursor(page.bets[|page.bets| - 1]))
  {
    assert ValidTable(tables[0]);
    PageSpec(tables[0], bettor, limit, below);
    hide CursorPage, ValidTable, Descending, Matches, Less, InSome, EncodeCursor;
    forall bet | bet in CursorPage(tables[0], bettor, limit, below).bets ensures InSome(tables, bet) {
      InFirstOrLater(tables, bet);
    }
  }

  lemma {:induction false} WalkDescends(tables: seq<seq<Bet>>, bettor: string, limit: nat, below: Option<Key>)
    requires limit > 0 && ValidTables(tables)
    ensures Lists(Walk(tables, bettor, limit, below), tables, bettor, below)
  {
    WalkUnfolds(tables, bettor, limit, below);
    if tables != [] {
      PageLists(tables, bettor, limit, below);
      assert ValidTables(tables[1..]);
      hide CursorPage, Lists, ValidTables, Walk;
      var page := CursorPage(tables[0], bettor, limit, below);
      if page.next.Some? {
        WalkDescends(tables[1..], bettor, limit, page.next);
        PageThenRest(page.bets, Walk(tables[1..], bettor, limit, page.next), tables, bettor, below);
      }
    }
  }

  lemma WalkUnfolds(tables: seq<seq<Bet>>, bettor: string, limit: nat, below: Option<Key>)
    requires limit > 0
    ensures Walk(tables, bettor, limit, below) ==
            if tables == [] then []
            else
              var page := CursorPage(tables[0], bettor, limit, below);
              if page.next.None? then page.bets else page.bets + Walk(tables[1..], bettor, limit, page.next)
  {
    hide CursorPage;
    assert tables != [] ==> CursorPage(tables[0], bettor, limit, below).bets + [] ==
                            CursorPage(tables[0], bettor, limit, below).bets;
  }

  /** A bet that is not below the position is cut off no more. */
  lemma {:induction false} PassedIsNotCutOff(tables: seq<seq<Bet>>, bettor: string, limit: nat, below: Option<Key>,
                                             bet: Bet)
    requires limit > 0 && ValidTables(tables) && below.Some? && !Less(KeyOf(bet), below.value)
    ensures !CutOff(tables, bettor, limit, below, bet)
  {
    if tables != [] {
      assert ValidTable(tables[0]);
      PageSpec(tables[0], bettor, limit, below);
      hide CursorPage, ValidTable, Descending;
      var page := CursorPage(tables[0], bettor, limit, below);
      if page.next.Some? {
        assert page.bets[limit - 1] in page.bets;
        PassedIsNotCutOff(tables[1..], bettor, limit, page.next, bet);
      }
    }
  }

  /** A bet of the table below the position is on the page exactly if it does not lie below its last bet. */
  lemma {:induction false} OnPageIff(table: seq<Bet>, bettor: string, limit: nat, below: Option<Key>, bet: Bet)
    requires limit > 0 && ValidTable(table) && bet in table && Matches(bet, bettor, below)
    ensures
      var page := CursorPage(table, bettor, limit, below);
      if page.next.None? then bet in page.bets
      else
        && page.bets != []
        && (bet in page.bets <==> !Less(KeyOf(bet), KeyOf(page.bets[|page.bets| - 1])))
        && (bet in page.bets ==> !Less(KeyOf(bet), page.next.value))
  {
    PageSpec(table, bettor, limit, below);
    hide CursorPage, ValidTable;
    var page := CursorPage(table, bettor, limit, below);
    if page.next.Some? && bet in page.bets {
      InPageNotBelowLast(page.bets, bet);
    }
  }

  /** A finished walk has returned a bet that was there all along exactly if no cursor cut it off. */
  lemma {:induction false} WalkIsCompleteIff(tables: seq<seq<Bet>>, bettor: string, limit: nat, below: Option<Key>,
                                             bet: Bet)
    requires limit > 0 && ValidTables(tables) && Finished(tables, bettor, limit, below)
    requires Matches(bet, bettor, below) && forall i :: 0 <= i < |tables| ==> bet in tables[i]
    ensures bet in Walk(tables, bettor, limit, below) <==> !CutOff(tables, bettor, limit, below, bet)
  {
    assert ValidTable(tables[0]) && bet in tables[0];
    OnPageIff(tables[0], bettor, limit, below, bet);
    var page, later := CursorPage(tables[0], bettor, limit, below), tables[1..];
    assert forall i :: 0 <= i < |later| ==> later[i] == tables[i + 1];
    hide CursorPage, ValidTable, Less, Lists;
    if page.next.Some? {
      if bet in page.bets {
        PassedIsNotCutOff(later, bettor, limit, page.next, bet);
      } else if Less(KeyOf(bet), page.next.value) {
        WalkIsCompleteIff(later, bettor, limit, page.next, bet);
      } else {
        NotBelowIsNotInWalk(later, bettor, limit, page.next.value, bet);
      }
    }
  }

  lemma {:induction false} NotBelowIsNotInWalk(tables: seq<seq<Bet>>, bettor: string, limit: nat, key: Key, bet: Bet)
    requires limit > 0 && ValidTables(tables) && !Less(KeyOf(bet), key)
    ensures bet !in Walk(tables, bettor, limit, Some(key))
  {
    WalkDescends(tables, bettor, limit, Some(key));
    hide Walk;
  }

  lemma InPageNotBelowLast(bets: seq<Bet>, bet: Bet)
    requires Descending(bets) && bet in bets
    ensures !Less(KeyOf(bet), KeyOf(bets[|bets| - 1])) && !Less(KeyOf(bet), EncodeCursor(bets[|bets| - 1]))
  {
    var k :| 0 <= k < |bets| && bets[k] == bet;
    assert k < |bets| - 1 ==> Less(KeyOf(bets[|bets| - 1]), KeyOf(bets[k]));
  }

  /** Whole milliseconds are kept by the cursor, and nothing is cut off. */
  lemma {:induction false} WholeMillisecondsCutNothing(tables: seq<seq<Bet>>, bettor: string, limit: nat,
                                                       below: Option<Key>, bet: Bet)
    requires limit > 0 && ValidTables(tables) && forall i :: 0 <= i < |tables| ==> WholeMilliseconds(tables[i])
    ensures !CutOff(tables, bettor, limit, below, bet)
  {
    if tables != [] {
      assert ValidTable(tables[0]) && WholeMilliseconds(tables[0]);
      WholeCursor(tables[0], bettor, limit, below);
      hide CursorPage, ValidTable, WholeMilliseconds;
      var page := CursorPage(tables[0], bettor, limit, below);
      if page.next.Some? {
        WholeMillisecondsCutNothing(tables[1..], bettor, limit, page.next, bet);
      }
    }
  }

  lemma {:induction false} WholeCursor(table: seq<Bet>, bettor: string, limit: nat, below: Option<Key>)
    requires limit > 0 && ValidTable(table) && WholeMilliseconds(table)
    ensures
      var page := CursorPage(table, bettor, limit, below);
      page.next.Some? ==> page.bets != [] && page.next.value == KeyOf(page.bets[|page.bets| - 1])
  {
    PageSpec(table, bettor, limit, below);
    hide CursorPage, Descending, Matches, Less;
    var page := CursorPage(table, bettor, limit, below);
    if page.next.Some? {
      assert page.bets[limit - 1] in page.bets;
    }
  }

  /**
   Following the cursor, whatever is inserted or removed between the requests and whatever the
   times are: the bets come in strictly descending order, so none comes twice, and each was in the
   table of some request.  Once the cursor is null, every bet of the bettor that was there all along
   has come, except exactly those that a cursor cut off; with whole milliseconds there are none.
   */
  lemma WalkReturnsEachOnce(tables: seq<seq<Bet>>, bettor: string, limit: nat)
    requires limit > 0 && ValidTables(tables)
    ensures
      var walk := Walk(tables, bettor, limit, None);
      && Descending(walk)
      && (forall bet: Bet :: bet in walk ==> bet.bettor == bettor && exists i :: 0 <= i < |tables| && bet in tables[i])
      && (Finished(tables, bettor, limit, None) ==>
            forall bet: Bet :: bet.bettor == bettor && (forall i :: 0 <= i < |tables| ==> bet in tables[i]) ==>
              && (bet in walk <==> !CutOff(tables, bettor, limit, None, bet))
              && ((forall i :: 0 <= i < |tables| ==> WholeMilliseconds(tables[i])) ==> bet in walk))
  {
    WalkDescends(tables, bettor, limit, None);
    hide Walk, CutOff, WholeMilliseconds, Descending, ValidTables, Finished;
    if Finished(tables, bettor, limit, None) {
      forall bet: Bet | bet.bettor == bettor && (forall i :: 0 <= i < |tables| ==> bet in tables[i])
        ensures bet in Walk(tables, bettor, limit, None) <==> !CutOff(tables, bettor, limit, None, bet)
        ensures (forall i :: 0 <= i < |tables| ==> WholeMilliseconds(tables[i])) ==>
                  bet in Walk(tables, bettor, limit, None)
      {
        WalkIsCompleteIff(tables, bettor, limit, None, bet);
        if forall i :: 0 <= i < |tables| ==> WholeMilliseconds(tables[i]) {
          WholeMillisecondsCutNothing(tables, bettor, limit, None, bet);
        }
      }
    }
  }

  lemma {:induction false} UnfinishedPagesAreFull(tables: seq<seq<Bet>>, bettor: string, limit: nat, below: Option<Key>)
    requires limit > 0 && ValidTables(tables)
    ensures !Finished(tables, bettor, limit, below) ==> |Walk(tables, bettor, limit, below)| >= |tables|
  {
    if tables != [] {
      assert ValidTable(tables[0]);
      PageSpec(tables[0], bettor, limit, below);
      var page := CursorPage(tables[0], bettor, limit, below);
      if page.next.Some? {
        UnfinishedPagesAreFull(tables[1..], bettor, limit, page.next);
      }
    }
  }

  lemma {:induction false} DescendingFits(rows: seq<Bet>, pool: set<Bet>)
    requires Descending(rows) && forall i :: 0 <= i < |rows| ==> rows[i] in pool
    ensures |rows| <= |pool|
  {
    if rows != [] {
      forall i | 0 <= i < |rows| - 1 ensures rows[1..][i] in pool - {rows[0]} {
        assert Less(KeyOf(rows[i + 1]), KeyOf(rows[0]));
      }
      DescendingFits(rows[1..], pool - {rows[0]});
      assert |pool - {rows[0]}| == |pool| - 1;
    }
  }

  /** The walk ends: it takes at most one request more than there are bets to see along the way. */
  lemma WalkTerminates(tables: seq<seq<Bet>>, bettor: string, limit: nat, pool: set<Bet>)
    requires limit > 0 && ValidTables(tables)
    requires forall i, bet :: 0 <= i < |tables| && bet in tables[i] ==> bet in pool
    requires |tables| > |pool|
    ensures Finished(tables, bettor, limit, None)
  {
    WalkDescends(tables, bettor, limit, None);
    UnfinishedPagesAreFull(tables, bettor, limit, None);
    var rows := Walk(tables, bettor, limit, None);
    forall i | 0 <= i < |rows| ensures rows[i] in pool {
      assert rows[i] in rows;
    }
    DescendingFits(rows, pool);
  }

  // ----- On a table that does not change, cursor pages are OFFSET pages -----

  /** The k-th page reached by following the cursor, if the client gets that far. */
  function NthCursorPage(table: seq<Bet>, bettor: string, limit: nat, k: nat): Option<Page>
    requires limit > 0
  {
    if k == 0 then Some(CursorPage(table, bettor, limit, None))
    else
      var previous := NthCursorPage(table, bettor, limit, k - 1);
      if previous.None? || previous.value.next.None? then None
      else Some(CursorPage(table, bettor, limit, previous.value.next))
  }

  function OffsetPage(table: seq<Bet>, bettor: string, limit: nat, offset: nat): Page
    requires limit > 0
  {
    CutPage(Limit(Offset(Query(table, bettor, None), offset), limit + 1), limit)
  }

  lemma BelowIsAfter(rows: seq<Bet>, p: nat, x: Bet)
    requires Descending(rows) && 0 < p <= |rows| && x in rows
    ensures x in rows[p..] <==> Less(KeyOf(x), KeyOf(rows[p - 1]))
  {
    var k :| 0 <= k < |rows| && rows[k] == x;
    if p <= k {
      assert rows[p..][k - p] == x;
    } else {
      forall j | p <= j < |rows| ensures rows[j] != x {
        assert Less(KeyOf(rows[j]), KeyOf(rows[k]));
      }
      assert k < p - 1 ==> Less(KeyOf(rows[p - 1]), KeyOf(rows[k]));
    }
  }

  /** The rows below the p-th row are the rows after it. */
  lemma QueryBelowIsSuffix(table: seq<Bet>, bettor: string, p: nat)
    requires ValidTable(table) && 0 < p <= |Query(table, bettor, None)|
    ensures Query(table, bettor, Some(KeyOf(Query(table, bettor, None)[p - 1]))) == Query(table, bettor, None)[p..]
  {
    var rows := Query(table, bettor, None);
    var key := KeyOf(rows[p - 1]);
    QuerySpec(table, bettor, None);
    QuerySpec(table, bettor, Some(key));
    forall x ensures x in Query(table, bettor, Some(key)) <==> x in rows[p..] {
      assert x in rows[p..] ==> x in rows;
      if x in rows {
        BelowIsAfter(rows, p, x);
      }
    }
    DescendingUnique(Query(table, bettor, Some(key)), rows[p..]);
  }

  /** A page that starts at `offset` and is not the last ends `limit` rows further on. */
  lemma CutAt(rows: seq<Bet>, offset: nat, limit: nat)
    requires limit > 0
    ensures
      var page := CutPage(Limit(Offset(rows, offset), limit + 1), limit);
      page.next == if offset + limit < |rows| then Some(EncodeCursor(rows[offset + limit - 1])) else None
  {
    if offset + limit < |rows| {
      assert Offset(rows, offset) == rows[offset..];
      assert rows[offset..][..limit + 1][..limit][limit - 1] == rows[offset + limit - 1];
    }
  }

  /** The cursor of an OFFSET page leads to the next OFFSET page. */
  lemma NextCursorPage(table: seq<Bet>, bettor: string, limit: nat, offset: nat)
    requires limit > 0 && ValidTable(table) && WholeMilliseconds(table)
    ensures
      var page := OffsetPage(table, bettor, limit, offset);
      && (page.next.Some? <==> offset + limit < |Query(table, bettor, None)|)
      && (page.next.Some? ==>
            && page.next.value.id >= 1
            && CursorPage(table, bettor, limit, page.next) == OffsetPage(table, bettor, limit, offset + limit))
  {
    hide Query, Descending, Less, CutPage, Limit;
    var rows := Query(table, bettor, None);
    CutAt(rows, offset, limit);
    if offset + limit < |rows| {
      var p := offset + limit;
      QuerySpec(table, bettor, None);
      assert rows[p - 1] in table;
      CursorKeepsKey(rows[p - 1]);
      QueryBelowIsSuffix(table, bettor, p);
    }
  }

  /** The k-th cursor page exists exactly when OFFSET page k starts inside the result, and they are equal. */
  lemma {:induction false} CursorPageIsOffsetPage(table: seq<Bet>, bettor: string, limit: nat, k: nat)
    requires limit > 0 && ValidTable(table) && WholeMilliseconds(table)
    ensures k * limit >= 0
    ensures NthCursorPage(table, bettor, limit, k).Some? <==> k == 0 || k * limit < |Query(table, bettor, None)|
    ensures NthCursorPage(table, bettor, limit, k).Some? ==>
              NthCursorPage(table, bettor, limit, k).value == OffsetPage(table, bettor, limit, k * limit)
  {
    hide Query, OffsetPage, CursorPage, ValidTable, WholeMilliseconds;
    MulMono(0, k, limit);
    if k > 0 {
      CursorPageIsOffsetPage(table, bettor, limit, k - 1);
      assert k * limit == (k - 1) * limit + limit;
      NextCursorPage(table, bettor, limit, (k - 1) * limit);
    } else {
      FirstPageIsOffsetZero(table, bettor, limit);
    }
  }

  lemma FirstPageIsOffsetZero(table: seq<Bet>, bettor: string, limit: nat)
    requires limit > 0
    ensures CursorPage(table, bettor, limit, None) == OffsetPage(table, bettor, limit, 0)
  {
    assert Offset(Query(table, bettor, None), 0) == Query(table, bettor, None);
  }

  lemma CursorRequest(table: seq<Bet>, counted: seq<Bet>, bettor: string, limit: int, below: Option<Key>)
    requires IsStellarAddress(bettor) && 1 <= limit <= 100 && (below.Some? ==> below.value.id >= 1)
    ensures FetchBets(table, counted, bettor, 1, limit, if below.None? then Start else After(below.value), None)
            == Ok(Response(CursorPage(table, bettor, limit, below), None))
  {}

  lemma OffsetRequest(table: seq<Bet>, counted: seq<Bet>, bettor: string, limit: int, page: int)
    requires IsStellarAddress(bettor) && 1 <= limit <= 100 && page >= 1
    ensures (page - 1) * limit >= 0
    ensures FetchBets(table, counted, bettor, page, limit, NoCursor, None)
            == Ok(Response(OffsetPage(table, bettor, limit, (page - 1) * limit), Some(|Select(counted, bettor, None)|)))
  {
    MulMono(0, page - 1, limit);
  }

  lemma {:induction false} InsertLength(bet: Bet, rows: seq<Bet>)
    ensures |InsertDesc(bet, rows)| == |rows| + 1
  {
    if rows != [] && !Less(KeyOf(rows[0]), KeyOf(bet)) {
      InsertLength(bet, rows[1..]);
    }
  }

  lemma {:induction false} OrderLength(rows: seq<Bet>)
    ensures |OrderDesc(rows)| == |rows|
  {
    if rows != [] {
      OrderLength(rows[1..]);
      InsertLength(rows[0], OrderDesc(rows[1..]));
    }
  }

  /**
   What the total says about an OFFSET page.  It would tell that page p has bets exactly if
   (p - 1) * limit is below it, and a next page exactly if p * limit is.  Count and page are read by
   two queries, so bets may come or go in between; each answer is right exactly unless its bound
   falls between the two numbers of bets, in particular always when they are the same.
   */
  lemma TotalTellsPagesIff(table: seq<Bet>, counted: seq<Bet>, bettor: string, limit: int, page: int)
    requires ValidTable(table) && IsStellarAddress(bettor) && 1 <= limit <= 100 && page >= 1
    ensures
      var response := FetchBets(table, counted, bettor, page, limit, NoCursor, None);
      var listed, total := |Select(table, bettor, None)|, |Select(counted, bettor, None)|;
      && response.Ok? && response.value.total == Some(total)
      && ((response.value.page.bets != [] <==> (page - 1) * limit < total) <==>
          !(Min(listed, total) <= (page - 1) * limit < Max(listed, total)))
      && ((response.value.page.next.Some? <==> page * limit < total) <==>
          !(Min(listed, total) <= page * limit < Max(listed, total)))
  {
    OffsetRequest(table, counted, bettor, limit, page);
    OrderLength(Select(table, bettor, None));
    CutAt(Query(table, bettor, None), (page - 1) * limit, limit);
    assert (page - 1) * limit + limit == page * limit;
  }

  /** The same for the requests themselves: the two forms of the function answer with the same page. */
  lemma RequestsAgree(table: seq<Bet>, counted: seq<Bet>, bettor: string, limit: nat, k: nat)
    requires ValidTable(table) && WholeMilliseconds(table) && IsStellarAddress(bettor) && 1 <= limit <= 100
    requires NthCursorPage(table, bettor, limit, k).Some?
    ensures
      var cursor := if k == 0 then Start else After(NthCursorPage(table, bettor, limit, k - 1).value.next.value);
      var byCursor := FetchBets(table, counted, bettor, 1, limit, cursor, None);
      var byOffset := FetchBets(table, counted, bettor, k + 1, limit, NoCursor, None);
      byCursor.Ok? && byOffset.Ok? && byCursor.value.page == byOffset.value.page
  {
    CursorPageIsOffsetPage(table, bettor, limit, k);
    OffsetRequest(table, counted, bettor, limit, k + 1);
    hide FetchBets, CursorPage, OffsetPage, Query, IsStellarAddress, ValidTable, WholeMilliseconds;
    if k == 0 {
      CursorRequest(table, counted, bettor, limit, None);
    } else {
      PreviousCursor(table, bettor, limit, k);
      CursorRequest(table, counted, bettor, limit, NthCursorPage(table, bettor, limit, k - 1).value.next);
    }
  }

  lemma PreviousCursor(table: seq<Bet>, bettor: string, limit: nat, k: nat)
    requires limit > 0 && ValidTable(table) && WholeMilliseconds(table)
    requires k > 0 && NthCursorPage(table, bettor, limit, k).Some?
    ensures
      var previous := NthCursorPage(table, bettor, limit, k - 1);
      && previous.Some? && previous.value.next.Some? && previous.value.next.value.id >= 1
      && NthCursorPage(table, bettor, limit, k).value == CursorPage(table, bettor, limit, previous.value.next)
  {
    hide Query, OffsetPage, CursorPage, ValidTable, WholeMilliseconds;
    CursorPageIsOffsetPage(table, bettor, limit, k - 1);
    NextCursorPage(table, bettor, limit, (k - 1) * limit);
  }

  // ----- Every request, by what it answers -----

  /** The bettor's bets in the table, and with a cursor only those below it. */
  ghost function Wanted(table: seq<Bet>, bettor: string, cursor: Cursor): set<Bet> {
    set bet | bet in table && bet.bettor == bettor &&
              (cursor.After? ==>
                 bet.placedAt < cursor.key.placedAt || (bet.placedAt == cursor.key.placedAt && bet.id < cursor.key.id))
  }

  /** Those of the bets that were placed later, or at the same time with a higher id. */
  ghost function Ahead(bets: set<Bet>, bet: Bet): set<Bet> {
    set x | x in bets && (x.placedAt > bet.placedAt || (x.placedAt == bet.placedAt && x.id > bet.id))
  }

  /** How many bets come before the page: by the offset if there is one, else by the page number; none with a cursor. */
  function Skipped(page: int, limit: int, cursor: Cursor, legacyOffset: Option<int>): int {
    if !cursor.NoCursor? then 0
    else if legacyOffset.Some? then legacyOffset.value
    else (page - 1) * limit
  }

  /** A Stellar public key: G and 55 characters of base 32. */
  ghost predicate IsKey(bettor: string) {
    && |bettor| == 56 && bettor[0] == 'G'
    && forall i :: 1 <= i < 56 ==> 'A' <= bettor[i] <= 'Z' || '2' <= bettor[i] <= '7'
  }

  ghost predicate Refused(bettor: string, page: int, limit: int, cursor: Cursor, legacyOffset: Option<int>) {
    || !IsKey(bettor) || page < 1 || limit < 1 || limit > 100
    || cursor.Undecodable? || (cursor.After? && cursor.key.id < 1)
    || (cursor.NoCursor? && legacyOffset.Some? && legacyOffset.value < 0)
  }

  /** The error names the first thing that is wrong: address, page, limit, cursor, offset. */
  ghost predicate IsReason(error: BadRequest, bettor: string, page: int, limit: int, cursor: Cursor) {
    && (error == BadAddress <==> !IsKey(bettor))
    && (error == BadPage <==> IsKey(bettor) && page < 1)
    && (error == BadLimit <==> IsKey(bettor) && page >= 1 && !(1 <= limit <= 100))
    && (error == BadOffset ==> cursor.NoCursor?) && (error == BadCursor ==> !cursor.NoCursor?)
  }

  ghost function Elements(rows: seq<Bet>): set<Bet> {
    set x | x in rows
  }

  lemma {:induction false} DistinctCount(rows: seq<Bet>)
    requires forall i, j :: 0 <= i < j < |rows| ==> rows[i] != rows[j]
    ensures |Elements(rows)| == |rows|
  {
    if rows != [] {
      var init, last := rows[..|rows| - 1], rows[|rows| - 1];
      DistinctCount(init);
      assert rows == init + [last];
      assert Elements(rows) == Elements(init) + {last};
    }
  }

  /** In descending rows the earlier one has the greater key. */
  lemma GreaterIsEarlier(rows: seq<Bet>, i: nat, k: nat)
    requires Descending(rows) && i < |rows| && k < |rows|
    ensures Less(KeyOf(rows[k]), KeyOf(rows[i])) <==> i < k
  {}

  lemma {:induction false} PrefixCount(rows: seq<Bet>, k: nat)
    requires Descending(rows) && k <= |rows|
    ensures |Elements(rows[..k])| == k
  {
    forall i, j | 0 <= i < j < k ensures rows[..k][i] != rows[..k][j] {
      GreaterIsEarlier(rows, i, j);
    }
    DistinctCount(rows[..k]);
  }

  lemma {:induction false} RankInRows(rows: seq<Bet>, bets: set<Bet>, k: nat)
    requires Descending(rows) && k < |rows| && forall x :: x in bets <==> x in rows
    ensures |Ahead(bets, rows[k])| == k
  {
    PrefixCount(rows, k);
    forall x ensures x in Ahead(bets, rows[k]) <==> x in rows[..k] {
      if x in rows {
        var i :| 0 <= i < |rows| && rows[i] == x;
        GreaterIsEarlier(rows, i, k);
        assert i < k ==> rows[..k][i] == x;
        if x in rows[..k] {
          var j :| 0 <= j < k && rows[..k][j] == x;
          GreaterIsEarlier(rows, j, k);
        }
      }
    }
    assert Ahead(bets, rows[k]) == Elements(rows[..k]);
  }

  /** The page cut from the rows after the first `offset`, by rank. */
  lemma {:induction false} PageByRank(rows: seq<Bet>, bets: set<Bet>, offset: nat, limit: nat, bet: Bet)
    requires Descending(rows) && limit > 0 && forall x :: x in bets <==> x in rows
    ensures
      var page := CutPage(Limit(Offset(rows, offset), limit + 1), limit);
      && (bet in page.bets <==> bet in bets && offset <= |Ahead(bets, bet)| < offset + limit)
      && (page.next.Some? <==> offset + limit < |bets|)
  {
    var page := CutPage(Limit(Offset(rows, offset), limit + 1), limit);
    CutAt(rows, offset, limit);
    PageRows(rows, offset, limit);
    PrefixCount(rows, |rows|);
    assert rows[..|rows|] == rows;
    assert bets == Elements(rows);
    hide CutPage, Limit, Offset;
    if bet in page.bets {
      var i :| 0 <= i < |page.bets| && page.bets[i] == bet;
      RankInRows(rows, bets, offset + i);
    }
    if bet in bets && offset <= |Ahead(bets, bet)| < offset + limit {
      var k :| 0 <= k < |rows| && rows[k] == bet;
      RankInRows(rows, bets, k);
      assert page.bets[k - offset] == bet;
    }
  }

  lemma PageRows(rows: seq<Bet>, offset: nat, limit: nat)
    requires limit > 0
    ensures
      var bets := CutPage(Limit(Offset(rows, offset), limit + 1), limit).bets;
      && |bets| == Max(0, Min(limit, |rows| - offset))
      && forall i :: 0 <= i < |bets| ==> bets[i] == rows[offset + i]
  {}

  /**
   The page of the wanted bets after the first `skip`: a bet is on it exactly if as many wanted bets
   stand ahead of it as are skipped, or up to `limit` - 1 more; it is in descending order of time and
   id; and there is a next cursor, the last bet's id and its time cut to milliseconds, exactly if
   wanted bets are left.
   */
  ghost predicate IsPage(page: Page, wanted: set<Bet>, skip: int, limit: int) {
    && (forall bet :: bet in page.bets <==> bet in wanted && skip <= |Ahead(wanted, bet)| < skip + limit)
    && (forall i, j :: 0 <= i < j < |page.bets| ==>
          page.bets[j] !in Ahead(wanted, page.bets[i]) && page.bets[i] != page.bets[j])
    && (page.next.Some? <==> skip + limit < |wanted|)
    && (page.next.Some? ==>
          && |page.bets| == limit > 0
          && page.next.value.placedAt == page.bets[limit - 1].placedAt / 1000 * 1000
          && page.next.value.id == page.bets[limit - 1].id)
  }

  /**
   What a request answers, in any of its three forms.  It is refused exactly for the listed reasons.
   Otherwise it answers with the page of the wanted bets after those it skips, and without a cursor,
   only then, with the number of the bettor's bets.
   */
  lemma {:induction false} FetchBetsSpec(table: seq<Bet>, counted: seq<Bet>, bettor: string, page: int, limit: int,
                                         cursor: Cursor, legacyOffset: Option<int>)
    requires ValidTable(table) && ValidTable(counted)
    ensures
      var answer := FetchBets(table, counted, bettor, page, limit, cursor, legacyOffset);
      && (answer.Err? <==> Refused(bettor, page, limit, cursor, legacyOffset))
      && (answer.Err? ==> IsReason(answer.error, bettor, page, limit, cursor))
      && (answer.Ok? ==>
            && IsPage(answer.value.page, Wanted(table, bettor, cursor),
                      Skipped(page, limit, cursor, legacyOffset), limit)
            && answer.value.total == (if cursor.NoCursor? then Some(|Wanted(counted, bettor, NoCursor)|) else None))
  {
    RefusedExactly(table, counted, bettor, page, limit, cursor, legacyOffset);
    if !Refused(bettor, page, limit, cursor, legacyOffset) {
      WantedRows(table, bettor, cursor);
      WantedRows(counted, bettor, NoCursor);
      OrderLength(Select(counted, bettor, None));
      AnswerIsCut(table, counted, bettor, page, limit, cursor, legacyOffset);
      assert limit > 0;
      hide FetchBets, Select, CutPage, Limit, Offset, Refused, Wanted, IsPage, Descending, Skipped;
      PageIs(Query(table, bettor, if cursor.After? then Some(cursor.key) else None), Wanted(table, bettor, cursor),
             Skipped(page, limit, cursor, legacyOffset), limit);
    }
  }

  lemma {:induction false} RefusedExactly(table: seq<Bet>, counted: seq<Bet>, bettor: string, page: int, limit: int,
                                          cursor: Cursor, legacyOffset: Option<int>)
    ensures FetchBets(table, counted, bettor, page, limit, cursor, legacyOffset).Err? <==>
            Refused(bettor, page, limit, cursor, legacyOffset)
    ensures
      var answer := FetchBets(table, counted, bettor, page, limit, cursor, legacyOffset);
      answer.Err? ==> IsReason(answer.error, bettor, page, limit, cursor)
  {
    hide Query, Select, CutPage, Limit, Offset;
  }

  lemma {:induction false} WantedRows(table: seq<Bet>, bettor: string, cursor: Cursor)
    requires ValidTable(table)
    ensures
      var rows := Query(table, bettor, if cursor.After? then Some(cursor.key) else None);
      && Descending(rows)
      && (forall x :: x in Wanted(table, bettor, cursor) <==> x in rows)
      && |Wanted(table, bettor, cursor)| == |rows|
  {
    var rows := Query(table, bettor, if cursor.After? then Some(cursor.key) else None);
    QuerySpec(table, bettor, if cursor.After? then Some(cursor.key) else None);
    PrefixCount(rows, |rows|);
    assert rows[..|rows|] == rows;
    assert Wanted(table, bettor, cursor) == Elements(rows);
  }

  lemma {:induction false} PageIs(rows: seq<Bet>, wanted: set<Bet>, skip: nat, limit: nat)
    requires Descending(rows) && limit > 0 && forall x :: x in wanted <==> x in rows
    ensures IsPage(CutPage(Limit(Offset(rows, skip), limit + 1), limit), wanted, skip, limit)
  {
    PageMembers(rows, wanted, skip, limit);
    PageOrdered(rows, wanted, skip, limit);
    PageNext(rows, wanted, skip, limit);
    hide CutPage, Limit, Offset, Ahead, Descending, Less;
  }

  lemma {:induction false} PageMembers(rows: seq<Bet>, wanted: set<Bet>, skip: nat, limit: nat)
    requires Descending(rows) && limit > 0 && forall x :: x in wanted <==> x in rows
    ensures
      var page := CutPage(Limit(Offset(rows, skip), limit + 1), limit);
      forall bet :: bet in page.bets <==> bet in wanted && skip <= |Ahead(wanted, bet)| < skip + limit
  {
    hide CutPage, Limit, Offset, Ahead, Descending;
    var page := CutPage(Limit(Offset(rows, skip), limit + 1), limit);
    forall bet ensures bet in page.bets <==> bet in wanted && skip <= |Ahead(wanted, bet)| < skip + limit {
      PageByRank(rows, wanted, skip, limit, bet);
    }
  }

  lemma {:induction false} PageOrdered(rows: seq<Bet>, wanted: set<Bet>, skip: nat, limit: nat)
    requires Descending(rows) && limit > 0
    ensures
      var page := CutPage(Limit(Offset(rows, skip), limit + 1), limit);
      forall i, j :: 0 <= i < j < |page.bets| ==>
        page.bets[j] !in Ahead(wanted, page.bets[i]) && page.bets[i] != page.bets[j]
  {
    PageRows(rows, skip, limit);
    hide CutPage, Limit, Offset, Ahead, Descending;
    var page := CutPage(Limit(Offset(rows, skip), limit + 1), limit);
    forall i, j | 0 <= i < j < |page.bets|
      ensures page.bets[j] !in Ahead(wanted, page.bets[i]) && page.bets[i] != page.bets[j]
    {
      LaterIsNotAhead(rows, wanted, skip + i, skip + j);
    }
  }

  lemma {:induction false} PageNext(rows: seq<Bet>, wanted: set<Bet>, skip: nat, limit: nat)
    requires Descending(rows) && limit > 0 && forall x :: x in wanted <==> x in rows
    ensures
      var page := CutPage(Limit(Offset(rows, skip), limit + 1), limit);
      && (page.next.Some? <==> skip + limit < |wanted|)
      && (page.next.Some? ==>
            && |page.bets| == limit > 0
            && page.next.value.placedAt == page.bets[limit - 1].placedAt / 1000 * 1000
            && page.next.value.id == page.bets[limit - 1].id)
  {
    CutAt(rows, skip, limit);
    PageRows(rows, skip, limit);
    PrefixCount(rows, |rows|);
    assert rows[..|rows|] == rows;
    assert wanted == Elements(rows);
    hide CutPage, Limit, Offset;
  }

  lemma LaterIsNotAhead(rows: seq<Bet>, bets: set<Bet>, i: nat, k: nat)
    requires Descending(rows) && i < k < |rows|
    ensures rows[k] !in Ahead(bets, rows[i]) && rows[i] != rows[k]
  {
    GreaterIsEarlier(rows, i, k);
    GreaterIsEarlier(rows, k, i);
  }

  /** All three forms cut their page in the same way. */
  lemma {:induction false} AnswerIsCut(table: seq<Bet>, counted: seq<Bet>, bettor: string, page: int, limit: int,
                                       cursor: Cursor, legacyOffset: Option<int>)
    requires !Refused(bettor, page, limit, cursor, legacyOffset)
    ensures Skipped(page, limit, cursor, legacyOffset) >= 0
    ensures
      var rows := Query(table, bettor, if cursor.After? then Some(cursor.key) else None);
      FetchBets(table, counted, bettor, page, limit, cursor, legacyOffset) ==
      Ok(Response(CutPage(Limit(Offset(rows, Skipped(page, limit, cursor, legacyOffset)), limit + 1), limit),
                  if cursor.NoCursor? then Some(|Select(counted, bettor, None)|) else None))
  {
    RefusedExactly(table, counted, bettor, page, limit, cursor, legacyOffset);
    MulMono(0, page - 1, limit);
    hide Query, Select, Refused;
    assert Offset(Query(table, bettor, None), 0) == Query(table, bettor, None);
    assert cursor.After? ==>
             Offset(Query(table, bettor, Some(cursor.key)), 0) == Query(table, bettor, Some(cursor.key));
  }
}
