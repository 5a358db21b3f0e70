/** `Application.get_cards` of steampak/webapi/resources/apps.py: one card
    per market listing row, ordered by title and keyed by market hash, and a
    booster card when there is at least one card. It needs the card class,
    which needs the application class, so it sits in a module of its own.
    The listing answer is an input: each row as the texts of its
    `.market_listing_item_name` elements. */
module WebApiAppCards {
  import opened Wrappers
  import opened PyStrings
  import opened PyCollections
  import opened WebApiSettings
  import opened WebApiApps
  import opened WebApiMarket

  /** The texts of one row's item-name elements, in document order. */
  type Row = seq<string>

  /** The listing JSON: its `results_html`, already split into rows. */
  datatype CardsResponse = CardsResponse(resultsHtml: Option<seq<Row>>)

  /** No card sorts before an earlier one. */
  predicate TitlesSorted(cs: seq<Item>) {
    forall i, j :: 0 <= i < j < |cs| ==> !LexLess(cs[j].title, cs[i].title)
  }

  /** Inserts `x` before the first card whose title is not below its own. */
  function InsertByTitle(x: Item, cs: seq<Item>): (r: seq<Item>)
    requires TitlesSorted(cs)
    ensures TitlesSorted(r)
    ensures multiset(r) == multiset(cs) + multiset{x}
  {
    if cs == [] then [x]
    else if !LexLess(cs[0].title, x.title) then
      LexLessNotBelow(x, cs);
      [x] + cs
    else
      var rest := InsertByTitle(x, cs[1..]);
      InsertedStaysSorted(x, cs, rest);
      assert cs == [cs[0]] + cs[1..];
      [cs[0]] + rest
  }

  lemma LexLessNotBelow(x: Item, cs: seq<Item>)
    requires TitlesSorted(cs) && cs != [] && !LexLess(cs[0].title, x.title)
    ensures TitlesSorted([x] + cs)
  {
    var r := [x] + cs;
    forall i, j | 0 <= i < j < |r|
      ensures !LexLess(r[j].title, r[i].title)
    {
      if i == 0 {
        if j == 1 {
          LexLessIrreflexive(cs[0].title);
        }
        LexNotLessTransitive(x.title, cs[0].title, cs[j - 1].title);
      } else {
        assert r[i] == cs[i - 1] && r[j] == cs[j - 1];
      }
    }
  }

  lemma InsertedStaysSorted(x: Item, cs: seq<Item>, rest: seq<Item>)
    requires TitlesSorted(cs) && cs != [] && LexLess(cs[0].title, x.title)
    requires TitlesSorted(rest) && multiset(rest) == multiset(cs[1..]) + multiset{x}
    ensures TitlesSorted([cs[0]] + rest)
  {
    var r := [cs[0]] + rest;
    forall i, j | 0 <= i < j < |r|
      ensures !LexLess(r[j].title, r[i].title)
    {
      if i == 0 {
        var y := rest[j - 1];
        assert y in multiset(rest);
        if y == x {
          LexLessAsymmetric(cs[0].title, x.title);
        } else {
          assert y in multiset(cs[1..]);
          var m :| 0 <= m < |cs[1..]| && cs[1..][m] == y;
          assert cs[m + 1] == y;
        }
      }
    }
  }

  /** `sorted(cards, key=attrgetter('title'))`: ascending titles, same cards. */
  function SortByTitle(cs: seq<Item>): (r: seq<Item>)
    ensures TitlesSorted(r)
    ensures multiset(r) == multiset(cs)
  {
    if cs == [] then []
    else
      assert cs == [cs[0]] + cs[1..];
      InsertByTitle(cs[0], SortByTitle(cs[1..]))
  }

  /** `[(card.market_hash, card) for card in cs]`. */
  function HashPairs(cs: seq<Item>): (r: seq<(string, Item)>)
    ensures |r| == |cs| && forall i :: 0 <= i < |cs| ==> r[i] == (cs[i].MarketHashName(), cs[i])
  {
    seq(|cs|, i requires 0 <= i < |cs| => (cs[i].MarketHashName(), cs[i]))
  }

  /** The card table of a list of cards of one application. */
  function CardTable(cs: seq<Item>): ODict<Item> {
    ODictFrom(HashPairs(SortByTitle(cs)))
  }

  lemma SortedMembers(cs: seq<Item>, appid: string)
    requires forall i :: 0 <= i < |cs| ==> cs[i].app.appid == appid
    ensures forall i :: 0 <= i < |SortByTitle(cs)| ==> SortByTitle(cs)[i] in cs
    ensures forall i :: 0 <= i < |SortByTitle(cs)| ==> SortByTitle(cs)[i].app.appid == appid
    ensures forall c :: c in cs ==> c in SortByTitle(cs)
  {
    var sorted := SortByTitle(cs);
    forall i | 0 <= i < |sorted|
      ensures sorted[i] in cs
    {
      assert sorted[i] in multiset(cs);
    }
    forall c | c in cs
      ensures c in sorted
    {
      assert c in multiset(sorted);
    }
  }

  lemma HashPairsSorted(sorted: seq<Item>, appid: string)
    requires TitlesSorted(sorted)
    requires forall i :: 0 <= i < |sorted| ==> sorted[i].app.appid == appid
    ensures forall i, j :: 0 <= i < j < |HashPairs(sorted)| ==> !LexLess(HashPairs(sorted)[j].0, HashPairs(sorted)[i].0)
  {
    var pairs := HashPairs(sorted);
    forall i, j | 0 <= i < j < |pairs|
      ensures !LexLess(pairs[j].0, pairs[i].0)
    {
      MarketHashOrder(appid, sorted[j].title, sorted[i].title);
    }
  }

  /** The table's keys are in strictly ascending order, so ascending by title. */
  lemma CardTableOrdered(cs: seq<Item>, appid: string)
    requires forall i :: 0 <= i < |cs| ==> cs[i].app.appid == appid
    ensures forall i, j :: 0 <= i < j < |CardTable(cs).keys| ==> LexLess(CardTable(cs).keys[i], CardTable(cs).keys[j])
  {
    SortedMembers(cs, appid);
    HashPairsSorted(SortByTitle(cs), appid);
    ODictSortedKeys(HashPairs(SortByTitle(cs)));
  }

  /** Every entry of the table is one of the cards, stored under its own hash. */
  lemma CardTableEntries(cs: seq<Item>, appid: string)
    requires forall i :: 0 <= i < |cs| ==> cs[i].app.appid == appid
    ensures forall k :: k in CardTable(cs).entries ==> CardTable(cs).entries[k] in cs && CardTable(cs).entries[k].MarketHashName() == k
  {
    var sorted := SortByTitle(cs);
    var pairs := HashPairs(sorted);
    SortedMembers(cs, appid);
    forall k | k in CardTable(cs).entries
      ensures CardTable(cs).entries[k] in cs && CardTable(cs).entries[k].MarketHashName() == k
    {
      var m :| 0 <= m < |pairs| && pairs[m].0 == k;
      var last := LastWithKey(pairs, m);
      ODictLastWins(pairs, last);
    }
  }

  /** The table's keys are the hashes of the cards' titles. */
  lemma CardTableKeys(cs: seq<Item>, appid: string)
    requires forall i :: 0 <= i < |cs| ==> cs[i].app.appid == appid
    ensures forall k :: k in CardTable(cs).entries <==> exists i :: 0 <= i < |cs| && k == MarketHash(appid, cs[i].title)
  {
    var sorted := SortByTitle(cs);
    var pairs := HashPairs(sorted);
    SortedMembers(cs, appid);
    forall k | k in CardTable(cs).entries
      ensures exists i :: 0 <= i < |cs| && k == MarketHash(appid, cs[i].title)
    {
      var m :| 0 <= m < |pairs| && pairs[m].0 == k;
      var i :| 0 <= i < |cs| && cs[i] == sorted[m];
    }
    forall i | 0 <= i < |cs|
      ensures MarketHash(appid, cs[i].title) in CardTable(cs).entries
    {
      assert cs[i] in cs;
      assert cs[i] in sorted;
      var m :| 0 <= m < |sorted| && sorted[m] == cs[i];
      assert pairs[m].0 == MarketHash(appid, cs[i].title);
    }
  }

  /** The last pair with the same key as pair `m`. */
  lemma LastWithKey(pairs: seq<(string, Item)>, m: nat) returns (last: nat)
    requires m < |pairs|
    ensures m <= last < |pairs| && pairs[last].0 == pairs[m].0
    ensures forall j :: last < j < |pairs| ==> pairs[j].0 != pairs[m].0
    decreases |pairs| - m
  {
    last := m;
    var j := m + 1;
    while j < |pairs|
      invariant m <= last < j <= |pairs| && pairs[last].0 == pairs[m].0
      invariant forall q :: last < q < j ==> pairs[q].0 != pairs[m].0
    {
      if pairs[j].0 == pairs[m].0 {
        last := j;
      }
      j := j + 1;
    }
  }

  /** The set of titles in the table is the set of the cards' titles. */
  lemma CardTableTitles(cs: seq<Item>, appid: string)
    requires forall i :: 0 <= i < |cs| ==> cs[i].app.appid == appid
    ensures (set k | k in CardTable(cs).entries :: CardTable(cs).entries[k].title) == (set i | 0 <= i < |cs| :: cs[i].title)
  {
    TableTitlesFromCards(cs, appid);
    CardTitlesInTable(cs, appid);
  }

  lemma TableTitlesFromCards(cs: seq<Item>, appid: string)
    requires forall i :: 0 <= i < |cs| ==> cs[i].app.appid == appid
    ensures (set k | k in CardTable(cs).entries :: CardTable(cs).entries[k].title) <= (set i | 0 <= i < |cs| :: cs[i].title)
  {
    CardTableEntries(cs, appid);
    var t := CardTable(cs);
    forall k | k in t.entries
      ensures t.entries[k].title in (set i | 0 <= i < |cs| :: cs[i].title)
    {
      var c := t.entries[k];
      var i :| 0 <= i < |cs| && cs[i] == c;
    }
  }

  lemma CardTitlesInTable(cs: seq<Item>, appid: string)
    requires forall i :: 0 <= i < |cs| ==> cs[i].app.appid == appid
    ensures (set i | 0 <= i < |cs| :: cs[i].title) <= (set k | k in CardTable(cs).entries :: CardTable(cs).entries[k].title)
  {
    CardTableKeys(cs, appid);
    CardTableEntries(cs, appid);
    var t := CardTable(cs);
    forall i | 0 <= i < |cs|
      ensures cs[i].title in (set k | k in t.entries :: t.entries[k].title)
    {
      var k := MarketHash(appid, cs[i].title);
      assert k in t.entries;
      MarketHashInjective(appid, t.entries[k].title, cs[i].title);
    }
  }

  /** The table is empty exactly when there are no cards. */
  lemma CardTableEmpty(cs: seq<Item>)
    ensures CardTable(cs).keys == [] <==> cs == []
  {
    if cs != [] {
      var sorted := SortByTitle(cs);
      assert cs[0] in multiset(sorted);
      assert HashPairs(sorted)[0].0 in CardTable(cs).entries;
    }
  }

  /** The cards made from the rows, one per row and named from it. */
  predicate CardsOfRows(cards: seq<Item>, rows: seq<Row>, app: Application) {
    && |cards| == |rows|
    && forall j :: 0 <= j < |rows| ==> rows[j] != [] && cards[j].app == app && cards[j].title == rows[j][0]
  }

  /** A card table built from listing rows: keys strictly ascending, one key
      per distinct row name (its market hash), each under a card with that hash. */
  ghost predicate TableOfRowsShape(table: ODict<Item>, rows: seq<Row>, appid: string)
    requires forall i :: 0 <= i < |rows| ==> rows[i] != []
  {
    && (forall i, j :: 0 <= i < j < |table.keys| ==> LexLess(table.keys[i], table.keys[j]))
    && (forall k :: k in table.entries <==> exists i :: 0 <= i < |rows| && k == MarketHash(appid, rows[i][0]))
    && (forall k :: k in table.entries ==> table.entries[k].MarketHashName() == k)
    && (table.keys == [] <==> rows == [])
  }

  /** The card table of the rows' cards, stated in terms of the rows. */
  lemma TableOfRows(cards: seq<Item>, rows: seq<Row>, app: Application)
    requires CardsOfRows(cards, rows, app)
    ensures TableOfRowsShape(CardTable(cards), rows, app.appid)
    ensures forall k :: k in CardTable(cards).entries ==> CardTable(cards).entries[k] in cards
  {
    CardTableOrdered(cards, app.appid);
    CardTableKeys(cards, app.appid);
    CardTableEntries(cards, app.appid);
    CardTableEmpty(cards);
    var t := CardTable(cards);
    forall k | k in t.entries
      ensures exists j :: 0 <= j < |rows| && k == MarketHash(app.appid, rows[j][0])
    {
      var j :| 0 <= j < |cards| && k == MarketHash(app.appid, cards[j].title);
    }
    forall j | 0 <= j < |rows|
      ensures MarketHash(app.appid, rows[j][0]) in t.entries
    {
      assert MarketHash(app.appid, cards[j].title) in t.entries;
    }
  }

  /** The loop of `get_cards`: a new card per row, named from the row's
      first item-name text; a row without one raises `IndexError`. */
  method MakeCards(app: Application, rows: seq<Row>) returns (r: Result<seq<Item>>)
    ensures r.Err? <==> exists i :: 0 <= i < |rows| && rows[i] == []
    ensures r.Err? ==> r.error == IndexError
    ensures r.Ok? ==> CardsOfRows(r.value, rows, app)
    ensures r.Ok? ==> forall j :: 0 <= j < |r.value| ==> fresh(r.value[j]) && r.value[j].priceData == None
  {
    var cards: seq<Item> := [];
    var i := 0;
    while i < |rows|
      invariant 0 <= i <= |rows| && |cards| == i
      invariant forall j :: 0 <= j < i ==> rows[j] != [] && cards[j].app == app && cards[j].title == rows[j][0]
      invariant forall j :: 0 <= j < i ==> fresh(cards[j]) && cards[j].priceData == None
    {
      if rows[i] == [] {
        return Err(IndexError);
      }
      var card := new Item(AppObj(app), rows[i][0]);
      cards := cards + [card];
      i := i + 1;
    }
    r := Ok(cards);
  }

  /** The cards of the rows, sorted by title and keyed by market hash. */
  method BuildTable(app: Application, rows: seq<Row>) returns (r: Result<ODict<Item>>)
    ensures r.Err? <==> exists i :: 0 <= i < |rows| && rows[i] == []
    ensures r.Err? ==> r.error == IndexError
    ensures r.Ok? ==> TableOfRowsShape(r.value, rows, app.appid)
    ensures r.Ok? ==> forall k :: k in r.value.entries ==>
      fresh(r.value.entries[k]) && r.value.entries[k].app == app && r.value.entries[k].priceData == None
  {
    var made := MakeCards(app, rows);
    if made.Err? {
      return Err(IndexError);
    }
    var cards := made.value;
    TableOfRows(cards, rows, app);
    r := Ok(CardTable(cards));
  }

  /** The answer has rows, each with a name, so `get_cards` goes on to
      build the booster and reads the application's title. */
  predicate BuildsBooster(data: CardsResponse) {
    && data.resultsHtml.Some? && data.resultsHtml.value != []
    && forall i :: 0 <= i < |data.resultsHtml.value| ==> data.resultsHtml.value[i] != []
  }

  /** `get_cards`: a card per row, named from the row's first item-name text;
      a row without one raises `IndexError`. The cards are sorted by title and
      keyed by market hash; the booster is built only when a card was found. */
  method GetCards(s: Settings, app: Application, data: CardsResponse, store: StoreResponse)
    returns (r: Result<(ODict<Item>, Option<Item>)>)
    modifies app
    ensures data.resultsHtml.None? ==> r == Err(KeyError("results_html")) && app.dataRaw == old(app.dataRaw)
    ensures data.resultsHtml.Some? && (exists i :: 0 <= i < |data.resultsHtml.value| && data.resultsHtml.value[i] == []) ==>
      r == Err(IndexError) && app.dataRaw == old(app.dataRaw)
    ensures data.resultsHtml.Some? && data.resultsHtml.value == [] ==>
      r == Ok((ODict([], map[]), None)) && app.dataRaw == old(app.dataRaw)
    ensures r.Ok? ==>
      && data.resultsHtml.Some?
      && (forall i :: 0 <= i < |data.resultsHtml.value| ==> data.resultsHtml.value[i] != [])
      && TableOfRowsShape(r.value.0, data.resultsHtml.value, app.appid)
      && (forall k :: k in r.value.0.entries ==>
            fresh(r.value.0.entries[k]) && r.value.0.entries[k].app == app && r.value.0.entries[k].priceData == None)
      && (r.value.1.Some? <==> data.resultsHtml.value != [])
    ensures r.Ok? && r.value.1.Some? ==>
      && CachedDetails(old(app.dataRaw), app.appid, store).Ok?
      && fresh(r.value.1.value) && r.value.1.value.app == app
      && r.value.1.value.title == BoosterTitle(TitleOf(CachedDetails(old(app.dataRaw), app.appid, store).value, app.appid))
    ensures r.Err? && data.resultsHtml.Some? && (forall i :: 0 <= i < |data.resultsHtml.value| ==> data.resultsHtml.value[i] != []) ==>
      data.resultsHtml.value != [] && CachedDetails(old(app.dataRaw), app.appid, store) == Err(r.error)
    ensures app.fetched == old(app.fetched) +
      (if BuildsBooster(data) && old(app.dataRaw).IsEmpty() then [AppDetailsUrl(s, app.appid)] else [])
    ensures app.dataRaw ==
      if BuildsBooster(data) && CachedDetails(old(app.dataRaw), app.appid, store).Ok?
      then CachedDetails(old(app.dataRaw), app.appid, store).value else old(app.dataRaw)
  {
    if data.resultsHtml.None? {
      return Err(KeyError("results_html"));
    }
    var built := BuildTable(app, data.resultsHtml.value);
    if built.Err? {
      return Err(IndexError);
    }
    var table := built.value;
    if table.keys == [] {
      return Ok((table, None));
    }
    var booster := GetBooster(s, AppObj(app), store);
    if booster.Err? {
      return Err(booster.error);
    }
    r := Ok((table, Some(booster.value)));
  }
}
