/** steampak/webapi/resources/user.py: a community user's gem total, read
    from the public inventory JSON, and the games they own, read from the
    games XML. The fetched documents are inputs: the inventory as its
    `success`, `Error` and `rgInventory` entries, the XML as a tree. */
module WebApiUser {
  import opened Wrappers
  import opened PyStrings
  import opened WebApiUtils
  import opened WebApiSettings

  const INV_CLASSID_GEM := "667924416"

  function UserBaseTemplate(s: Settings): string { s.communityBase + "/id/$username" }
  function InventoryPublicBaseTemplate(s: Settings): string { UserBaseTemplate(s) + "/inventory/json/" }
  function InventoryAppTemplate(s: Settings): string { InventoryPublicBaseTemplate(s) + "$appid/6" }
  /** URL_USER_INVENTORY_PUBLIC_STEAM: the appid is filled in at import time. */
  function InventorySteamTemplate(s: Settings): string { StrSub(InventoryAppTemplate(s), map["appid" := s.appidSteam]) }

  /** One `rgInventory` entry: its `classid` and its `amount` literal. */
  datatype InventoryItem = InventoryItem(classid: string, amount: string)

  /** The inventory JSON; a missing entry is `None`. */
  datatype InventoryResponse = InventoryResponse(
    success: Option<bool>, error: Option<string>, rgInventory: Option<seq<InventoryItem>>)

  /** An XML element: its tag, its text (absent for an empty element) and children. */
  datatype XmlElement = XmlElement(tag: string, text: Option<string>, children: seq<XmlElement>)

  /** A game record: a dictionary with at most the keys `appid` and `title`. */
  type GameProps = map<string, Option<string>>
  /** The owned games, keyed by the record's `appid`. */
  type Games = map<Option<string>, GameProps>

  // ---------------------------------------------------------------------
  // Gems

  /** The entries whose `classid` is the gem class, in order. */
  function GemItems(items: seq<InventoryItem>): (r: seq<InventoryItem>)
    ensures forall x :: x in r <==> x in items && x.classid == INV_CLASSID_GEM
  {
    if items == [] then []
    else (if items[0].classid == INV_CLASSID_GEM then [items[0]] else []) + GemItems(items[1..])
  }

  /** `int(item['amount'])` for each item, the first malformed one raising. */
  function Amounts(items: seq<InventoryItem>): (r: Result<seq<int>>)
    ensures r.Ok? ==> |r.value| == |items|
    ensures r.Err? ==> r == Err(ValueError)
  {
    if items == [] then Ok([])
    else
      var v := ParseInt(items[0].amount);
      var rest := Amounts(items[1..]);
      if v.None? || rest.Err? then Err(ValueError) else Ok([v.value] + rest.value)
  }

  function Sum(xs: seq<int>): int {
    if xs == [] then 0 else xs[0] + Sum(xs[1..])
  }

  /** The `gems_total` comprehension: only gem entries are converted and summed. */
  function GemsTotalOf(items: seq<InventoryItem>): (r: Result<int>)
    ensures r.Err? ==> r == Err(ValueError)
  {
    TotalOf(Amounts(GemItems(items)))
  }

  /** `sum(...)` over the converted amounts, a failed conversion passed on. */
  function TotalOf(amounts: Result<seq<int>>): Result<int> {
    if amounts.Ok? then Ok(Sum(amounts.value)) else Err(ValueError)
  }

  /** Adds two partial totals; a failure on either side is the `ValueError`. */
  function AddTotals(a: Result<int>, b: Result<int>): Result<int> {
    if a.Ok? && b.Ok? then Ok(a.value + b.value) else Err(ValueError)
  }

  lemma {:induction false} GemItemsAppend(a: seq<InventoryItem>, b: seq<InventoryItem>)
    ensures GemItems(a + b) == GemItems(a) + GemItems(b)
    decreases |a|
  {
    if a != [] {
      assert (a + b)[0] == a[0];
      assert (a + b)[1..] == a[1..] + b;
      GemItemsAppend(a[1..], b);
    } else {
      assert a + b == b;
    }
  }

  lemma {:induction false} AmountsAppend(a: seq<InventoryItem>, b: seq<InventoryItem>)
    ensures Amounts(a + b).Ok? <==> Amounts(a).Ok? && Amounts(b).Ok?
    ensures Amounts(a + b).Ok? ==> Amounts(a + b).value == Amounts(a).value + Amounts(b).value
    decreases |a|
  {
    if a == [] {
      assert a + b == b;
    } else {
      assert (a + b)[0] == a[0];
      assert (a + b)[1..] == a[1..] + b;
      AmountsAppend(a[1..], b);
    }
  }

  lemma {:induction false} SumAppend(a: seq<int>, b: seq<int>)
    ensures Sum(a + b) == Sum(a) + Sum(b)
    decreases |a|
  {
    if a != [] {
      assert (a + b)[0] == a[0];
      assert (a + b)[1..] == a[1..] + b;
      SumAppend(a[1..], b);
    } else {
      assert a + b == b;
    }
  }

  /** The total of two concatenated inventories is the sum of their totals. */
  lemma GemsTotalAppend(a: seq<InventoryItem>, b: seq<InventoryItem>)
    ensures GemsTotalOf(a + b) == AddTotals(GemsTotalOf(a), GemsTotalOf(b))
  {
    var ga, gb := GemItems(a), GemItems(b);
    GemItemsAppend(a, b);
    AmountsAppend(ga, gb);
    TotalsCombine(Amounts(ga), Amounts(gb), Amounts(ga + gb));
  }

  lemma TotalsCombine(xa: Result<seq<int>>, xb: Result<seq<int>>, xab: Result<seq<int>>)
    requires xab.Ok? <==> xa.Ok? && xb.Ok?
    requires xab.Ok? ==> xab.value == xa.value + xb.value
    ensures TotalOf(xab) == AddTotals(TotalOf(xa), TotalOf(xb))
  {
    if xab.Ok? {
      SumAppend(xa.value, xb.value);
    }
  }

  /** Only gem entries count: an entry of any other class never changes the total. */
  lemma GemsTotalIgnoresOtherItems(a: seq<InventoryItem>, x: InventoryItem, b: seq<InventoryItem>)
    requires x.classid != INV_CLASSID_GEM
    ensures GemsTotalOf(a + [x] + b) == GemsTotalOf(a + b)
  {
    GemsTotalAppend(a + [x], b);
    GemsTotalAppend(a, [x]);
    GemsTotalAppend(a, b);
    assert GemItems([x]) == [];
  }

  /** An inventory without gem entries totals 0, whatever the other amounts hold. */
  lemma GemsTotalNoGems(items: seq<InventoryItem>)
    requires forall i :: 0 <= i < |items| ==> items[i].classid != INV_CLASSID_GEM
    ensures GemsTotalOf(items) == Ok(0)
  {
    GemItemsNone(items);
  }

  lemma {:induction false} GemItemsNone(items: seq<InventoryItem>)
    requires forall i :: 0 <= i < |items| ==> items[i].classid != INV_CLASSID_GEM
    ensures GemItems(items) == []
    decreases |items|
  {
    if items != [] {
      assert forall i :: 0 <= i < |items[1..]| ==> items[1..][i] == items[i + 1];
      GemItemsNone(items[1..]);
    }
  }

  /** The total fails exactly when some gem entry's amount is not an integer literal. */
  lemma {:induction false} GemsTotalFails(items: seq<InventoryItem>)
    ensures GemsTotalOf(items).Err? <==>
      exists x :: x in items && x.classid == INV_CLASSID_GEM && !IsIntLiteral(x.amount)
    ensures GemsTotalOf(items).Err? ==> GemsTotalOf(items).error == ValueError
    decreases |items|
  {
    if items != [] {
      GemsTotalAppend([items[0]], items[1..]);
      assert [items[0]] + items[1..] == items;
      GemsTotalFails(items[1..]);
      assert GemItems([items[0]]) == if items[0].classid == INV_CLASSID_GEM then [items[0]] else [];
      if items[0].classid == INV_CLASSID_GEM {
        assert [items[0]][1..] == [];
      }
      assert forall x :: x in items <==> x == items[0] || x in items[1..];
    }
  }

  lemma RemoveAtMultiset(b: seq<InventoryItem>, i: nat)
    requires i < |b|
    ensures multiset(b[..i] + b[i + 1..]) == multiset(b) - multiset{b[i]}
  {
    assert b == b[..i] + [b[i]] + b[i + 1..];
  }

  lemma RemoveAt(b: seq<InventoryItem>, i: nat)
    requires i < |b|
    ensures GemsTotalOf(b) == AddTotals(GemsTotalOf([b[i]]), GemsTotalOf(b[..i] + b[i + 1..]))
  {
    var l, x, r := b[..i], [b[i]], b[i + 1..];
    assert b == (l + x) + r;
    assert b[..i] + b[i + 1..] == l + r;
    GemsTotalAppend(l + x, r);
    GemsTotalAppend(l, x);
    GemsTotalAppend(l, r);
    AddTotalsShuffle(GemsTotalOf(l), GemsTotalOf(x), GemsTotalOf(r));
  }

  lemma AddTotalsShuffle(a: Result<int>, x: Result<int>, r: Result<int>)
    ensures AddTotals(AddTotals(a, x), r) == AddTotals(x, AddTotals(a, r))
  {
  }

  lemma PermutationTail(a: seq<InventoryItem>, b: seq<InventoryItem>, i: nat)
    requires multiset(a) == multiset(b) && a != [] && i < |b| && b[i] == a[0]
    ensures multiset(a[1..]) == multiset(b[..i] + b[i + 1..])
  {
    RemoveAtMultiset(b, i);
    assert a == [a[0]] + a[1..];
    assert multiset(a) == multiset{a[0]} + multiset(a[1..]);
  }

  /** The dictionary order of `rgInventory` does not matter: any permutation
      of the entries gives the same total. */
  lemma {:induction false} GemsTotalPermutation(a: seq<InventoryItem>, b: seq<InventoryItem>)
    requires multiset(a) == multiset(b)
    ensures GemsTotalOf(a) == GemsTotalOf(b)
    decreases |a|
  {
    if a == [] {
      assert |b| == |multiset(b)| == 0;
    } else {
      var x := a[0];
      assert x in multiset(b);
      var i :| 0 <= i < |b| && b[i] == x;
      var rb := b[..i] + b[i + 1..];
      PermutationTail(a, b, i);
      GemsTotalPermutation(a[1..], rb);
      RemoveAt(b, i);
      assert [b[i]] == [x];
      GemsTotalCons(a);
    }
  }

  lemma GemsTotalCons(a: seq<InventoryItem>)
    requires a != []
    ensures GemsTotalOf(a) == AddTotals(GemsTotalOf([a[0]]), GemsTotalOf(a[1..]))
  {
    assert a == [a[0]] + a[1..];
    GemsTotalAppend([a[0]], a[1..]);
  }

  // ---------------------------------------------------------------------
  // Owned games

  /** The props loop over one `<game>` element's children: `appID` fills
      `appid`, `name` fills `title`, later children overwrite earlier ones,
      every other tag is ignored. */
  function PropsOf(children: seq<XmlElement>): GameProps
    decreases |children|
  {
    if children == [] then map[]
    else
      var p := PropsOf(children[..|children| - 1]);
      var c := children[|children| - 1];
      if c.tag == "appID" then p["appid" := c.text]
      else if c.tag == "name" then p["title" := c.text]
      else p
  }

  /** The innermost loop of `get_games_owned`, over one game's children. */
  method ReadGameProps(game: XmlElement) returns (props: GameProps)
    ensures props == PropsOf(game.children)
  {
    props := map[];
    var k := 0;
    while k < |game.children|
      invariant 0 <= k <= |game.children|
      invariant props == PropsOf(game.children[..k])
    {
      var prop := game.children[k];
      if prop.tag == "appID" {
        props := props["appid" := prop.text];
      } else if prop.tag == "name" {
        props := props["title" := prop.text];
      }
      assert game.children[..k + 1][..k] == game.children[..k];
      k := k + 1;
    }
    assert game.children[..k] == game.children;
  }

  /** The key a game is stored under, `None` when it has no `appid`. */
  function GameKey(game: XmlElement): Option<Option<string>> {
    var p := PropsOf(game.children);
    if "appid" in p then Some(p["appid"]) else None
  }

  /** The inner loop over one `<games>` element: each game is stored under
      its `appid`, replacing an earlier game with the same one; a game
      without `appid` aborts with `KeyError('appid')`. */
  function AddGames(games: Games, gameEls: seq<XmlElement>): (r: Result<Games>)
    ensures r.Err? ==> r == Err(KeyError("appid"))
    decreases |gameEls|
  {
    if gameEls == [] then Ok(games)
    else
      var g :- AddGames(games, gameEls[..|gameEls| - 1]);
      var p := PropsOf(gameEls[|gameEls| - 1].children);
      if "appid" in p then Ok(g[p["appid"] := p]) else Err(KeyError("appid"))
  }

  /** The outer loop over the root's children: only `<games>` elements are read. */
  function CollectGames(els: seq<XmlElement>): (r: Result<Games>)
    ensures r.Err? ==> r == Err(KeyError("appid"))
    decreases |els|
  {
    if els == [] then Ok(map[])
    else
      var g :- CollectGames(els[..|els| - 1]);
      var last := els[|els| - 1];
      if last.tag == "games" then AddGames(g, last.children) else Ok(g)
  }

  /** The game elements of all top-level `<games>` elements, in document order. */
  function GameElements(els: seq<XmlElement>): seq<XmlElement>
    decreases |els|
  {
    if els == [] then []
    else
      var last := els[|els| - 1];
      GameElements(els[..|els| - 1]) + (if last.tag == "games" then last.children else [])
  }

  lemma {:induction false} AddGamesAppend(g: Games, a: seq<XmlElement>, b: seq<XmlElement>)
    ensures AddGames(g, a + b) == if AddGames(g, a).Err? then AddGames(g, a) else AddGames(AddGames(g, a).value, b)
    decreases |b|
  {
    if b == [] {
      assert a + b == a;
    } else {
      assert (a + b)[..|a + b| - 1] == a + b[..|b| - 1];
      assert (a + b)[|a + b| - 1] == b[|b| - 1];
      AddGamesAppend(g, a, b[..|b| - 1]);
    }
  }

  /** Reading the document is adding, from an empty table, the children of
      the top-level `<games>` elements and nothing else. */
  lemma {:induction false} CollectGamesReadsGamesOnly(els: seq<XmlElement>)
    ensures CollectGames(els) == AddGames(map[], GameElements(els))
    decreases |els|
  {
    if els != [] {
      var init := els[..|els| - 1];
      var last := els[|els| - 1];
      CollectGamesReadsGamesOnly(init);
      AddGamesAppend(map[], GameElements(init), if last.tag == "games" then last.children else []);
      if last.tag != "games" {
        assert GameElements(els) == GameElements(init) + [];
      }
    }
  }

  /** The props of a game hold only `appid` and `title`. */
  lemma {:induction false} PropsOfKeys(children: seq<XmlElement>)
    ensures PropsOf(children).Keys <= {"appid", "title"}
    decreases |children|
  {
    if children != [] {
      PropsOfKeys(children[..|children| - 1]);
    }
  }

  /** `appid` is in a game's props exactly when some child is tagged
      `appID`, and then it is the text of the last such child; likewise
      `title` and `name`. */
  lemma {:induction false} PropsOfField(children: seq<XmlElement>, key: string, tag: string)
    requires (key, tag) == ("appid", "appID") || (key, tag) == ("title", "name")
    ensures key in PropsOf(children) <==> exists i :: 0 <= i < |children| && children[i].tag == tag
    ensures key in PropsOf(children) ==>
      exists i :: 0 <= i < |children| && children[i].tag == tag && PropsOf(children)[key] == children[i].text &&
        forall j :: i < j < |children| ==> children[j].tag != tag
    decreases |children|
  {
    if children != [] {
      var init := children[..|children| - 1];
      var n := |children| - 1;
      PropsOfField(init, key, tag);
      assert forall i :: 0 <= i < n ==> children[i] == init[i];
      var c, p := children[n], PropsOf(init);
      if c.tag == tag {
        assert PropsOf(children) == p[key := c.text];
      } else {
        assert key in PropsOf(children) <==> key in p;
        assert key in p ==> PropsOf(children)[key] == p[key];
        if key in p {
          var i :| 0 <= i < |init| && init[i].tag == tag && p[key] == init[i].text &&
            forall j :: i < j < |init| ==> init[j].tag != tag;
          assert children[i].tag == tag && PropsOf(children)[key] == children[i].text;
        }
      }
    }
  }

  lemma {:induction false} AddGamesErrPersists(g: Games, gs: seq<XmlElement>, j: nat)
    requires j <= |gs| && AddGames(g, gs[..j]).Err?
    ensures AddGames(g, gs) == AddGames(g, gs[..j])
  {
    AddGamesAppend(g, gs[..j], gs[j..]);
    assert gs[..j] + gs[j..] == gs;
  }

  lemma {:induction false} CollectGamesErrPersists(els: seq<XmlElement>, i: nat)
    requires i <= |els| && CollectGames(els[..i]).Err?
    ensures CollectGames(els) == CollectGames(els[..i])
    decreases |els| - i
  {
    if i < |els| {
      var next := els[..i + 1];
      assert next[..|next| - 1] == els[..i];
      CollectGamesErrPersists(els, i + 1);
    } else {
      assert els[..i] == els;
    }
  }

  /** Adding games fails, with `KeyError('appid')`, exactly when some game has no `appID` child. */
  lemma {:induction false} AddGamesFails(g: Games, gs: seq<XmlElement>)
    ensures AddGames(g, gs).Err? <==> exists i :: 0 <= i < |gs| && GameKey(gs[i]).None?
    ensures AddGames(g, gs).Err? ==> AddGames(g, gs).error == KeyError("appid")
    decreases |gs|
  {
    if gs != [] {
      var init := gs[..|gs| - 1];
      AddGamesFails(g, init);
      assert forall i :: 0 <= i < |init| ==> gs[i] == init[i];
    }
  }

  /** A successful table holds the initial keys plus one key per game. */
  lemma {:induction false} AddGamesKeys(g: Games, gs: seq<XmlElement>, r: Games)
    requires AddGames(g, gs) == Ok(r)
    ensures forall i :: 0 <= i < |gs| ==> GameKey(gs[i]).Some?
    ensures forall k :: k in r <==> k in g || exists i :: 0 <= i < |gs| && GameKey(gs[i]) == Some(k)
    decreases |gs|
  {
    AddGamesFails(g, gs);
    if gs != [] {
      var n := |gs| - 1;
      var init := gs[..n];
      var r0 := AddGames(g, init).value;
      AddGamesKeys(g, init, r0);
      assert forall i :: 0 <= i < n ==> gs[i] == init[i];
      var key := GameKey(gs[n]).value;
      assert r == r0[key := PropsOf(gs[n].children)];
      forall k ensures k in r <==> k in g || exists i :: 0 <= i < |gs| && GameKey(gs[i]) == Some(k) {
        if k != key && exists i :: 0 <= i < |gs| && GameKey(gs[i]) == Some(k) {
          var i :| 0 <= i < |gs| && GameKey(gs[i]) == Some(k);
          assert GameKey(gs[n]) == Some(key);
          assert i != n;
          assert gs[i] == init[i];
        }
      }
    }
  }

  /** The last game with a given `appid` is the one stored under it. */
  lemma {:induction false} AddGamesLastWins(g: Games, gs: seq<XmlElement>, r: Games, i: nat)
    requires AddGames(g, gs) == Ok(r)
    requires i < |gs| && forall j :: i < j < |gs| ==> GameKey(gs[j]) != GameKey(gs[i])
    ensures GameKey(gs[i]).Some?
    ensures GameKey(gs[i]).value in r && r[GameKey(gs[i]).value] == PropsOf(gs[i].children)
    decreases |gs|
  {
    AddGamesFails(g, gs);
    var n := |gs| - 1;
    var init := gs[..n];
    var r0 := AddGames(g, init).value;
    assert r == r0[GameKey(gs[n]).value := PropsOf(gs[n].children)];
    if i < n {
      assert forall j :: i < j < n ==> gs[j] == init[j];
      AddGamesLastWins(g, init, r0, i);
    }
  }

  /** Initial entries that no game names are kept. */
  lemma {:induction false} AddGamesKeepsOthers(g: Games, gs: seq<XmlElement>, r: Games, k: Option<string>)
    requires AddGames(g, gs) == Ok(r)
    requires k in g && forall i :: 0 <= i < |gs| ==> GameKey(gs[i]) != Some(k)
    ensures k in r && r[k] == g[k]
    decreases |gs|
  {
    AddGamesFails(g, gs);
    if gs != [] {
      var n := |gs| - 1;
      var init := gs[..n];
      var r0 := AddGames(g, init).value;
      assert forall i :: 0 <= i < n ==> gs[i] == init[i];
      AddGamesKeepsOthers(g, init, r0, k);
      assert r == r0[GameKey(gs[n]).value := PropsOf(gs[n].children)];
    }
  }

  datatype User = User(username: string) {

    /** The inventory URL, after both template stages. */
    function InventoryUrl(s: Settings): string {
      StrSub(InventorySteamTemplate(s), map["username" := username])
    }

    /** `_get_inventory_raw`: a response without `success` raises
        `KeyError('success')`; an unsuccessful one raises `ResponseError` with
        the response's `Error` text and the URL. */
    function GetInventoryRaw(s: Settings, response: InventoryResponse): (r: Result<InventoryResponse>)
      ensures response.success.None? ==> r == Err(KeyError("success"))
      ensures response.success == Some(true) <==> r == Ok(response)
      ensures response.success == Some(false) && response.error.Some? ==>
        r == Err(ResponseError(response.error.value, InventoryUrl(s)))
      ensures response.success == Some(false) && response.error.None? ==> r == Err(KeyError("Error"))
    {
      if response.success.None? then Err(KeyError("success"))
      else if response.success.value then Ok(response)
      else if response.error.Some? then Err(ResponseError(response.error.value, InventoryUrl(s)))
      else Err(KeyError("Error"))
    }

    /** `gems_total`: the error of `_get_inventory_raw`, `KeyError('rgInventory')`
        for a successful answer without the inventory, otherwise its gem total. */
    function GemsTotal(s: Settings, response: InventoryResponse): (r: Result<int>)
      ensures response.success != Some(true) ==> r == Err(GetInventoryRaw(s, response).error)
      ensures response.success == Some(true) && response.rgInventory.None? ==> r == Err(KeyError("rgInventory"))
      ensures response.success == Some(true) && response.rgInventory.Some? ==> r == GemsTotalOf(response.rgInventory.value)
    {
      var inv :- GetInventoryRaw(s, response);
      if inv.rgInventory.None? then Err(KeyError("rgInventory"))
      else GemsTotalOf(inv.rgInventory.value)
    }

    /** `get_games_owned`: the nested loops over the games document. */
    method GetGamesOwned(xml: XmlElement) returns (r: Result<Games>)
      ensures r == CollectGames(xml.children)
    {
      var els := xml.children;
      var games: Games := map[];
      var i := 0;
      while i < |els|
        invariant 0 <= i <= |els|
        invariant CollectGames(els[..i]) == Ok(games)
      {
        var el := els[i];
        assert els[..i + 1][..i] == els[..i];
        if el.tag == "games" {
          var g0 := games;
          var j := 0;
          while j < |el.children|
            invariant 0 <= j <= |el.children|
            invariant AddGames(g0, el.children[..j]) == Ok(games)
          {
            var game := el.children[j];
            var props := ReadGameProps(game);
            assert el.children[..j + 1][..j] == el.children[..j];
            if "appid" !in props {
              assert AddGames(g0, el.children[..j + 1]) == Err(KeyError("appid"));
              AddGamesErrPersists(g0, el.children, j + 1);
              assert el.children[..|el.children|] == el.children;
              assert CollectGames(els[..i + 1]) == Err(KeyError("appid"));
              CollectGamesErrPersists(els, i + 1);
              return Err(KeyError("appid"));
            }
            games := games[props["appid"] := props];
            j := j + 1;
          }
          assert el.children[..j] == el.children;
        }
        i := i + 1;
      }
      assert els[..i] == els;
      r := Ok(games);
    }
  }

  lemma InventoryTemplateValue(s: Settings)
    requires NoDollar(s.communityBase) && NoDollar(s.appidSteam)
    ensures InventorySteamTemplate(s)
         == s.communityBase + "/id/" + "$" + "username" + "/inventory/json/" + s.appidSteam + "/6"
  {
    InventoryTemplateSteps(s, "/inventory/json/", "/6");
  }

  /** The literal parts come in as parameters, so that the verifier reasons
      about the substitution symbolically instead of evaluating it. */
  lemma InventoryTemplateSteps(s: Settings, p2: string, p3: string)
    requires NoDollar(s.communityBase) && NoDollar(s.appidSteam)
    requires p2 == "/inventory/json/" && p3 == "/6"
    ensures InventorySteamTemplate(s) == s.communityBase + "/id/" + "$" + "username" + p2 + s.appidSteam + p3
  {
    var m1 := map["appid" := s.appidSteam];
    var p1 := s.communityBase + "/id/";
    var post := p2 + "$" + "appid" + p3;
    InventoryAppTemplateShape(s, p2, p3);
    InventoryTemplatePieces(s, p2, p3);
    SubstitutePrefix(p1, "username", post, m1);
    SubstituteOne(p2, "appid", p3, m1);
    assert "username" !in m1;
    assert Filled("username", m1) == "$" + "username";
    assert Filled("appid", m1) == s.appidSteam;
    var t := InventoryAppTemplate(s);
    assert StrSub(t, m1) == Substitute(t, m1);
    assert Substitute(t, m1) == p1 + ("$" + "username") + (p2 + s.appidSteam + p3);
  }

  lemma InventoryAppTemplateShape(s: Settings, p2: string, p3: string)
    requires NoDollar(s.communityBase)
    requires p2 == "/inventory/json/" && p3 == "/6"
    ensures InventoryAppTemplate(s) == (s.communityBase + "/id/") + "$" + "username" + (p2 + "$" + "appid" + p3)
  {
  }

  lemma InventoryTemplatePieces(s: Settings, p2: string, p3: string)
    requires NoDollar(s.communityBase)
    requires p2 == "/inventory/json/" && p3 == "/6"
    ensures IsIdentifier("username") && IsIdentifier("appid")
    ensures NoDollar(s.communityBase + "/id/") && NoDollar(p2) && NoDollar(p3)
    ensures (p2 + "$" + "appid" + p3)[0] == '/' && !IsIdChar('/')
  {
  }

  /** The inventory URL is the community base, `/id/`, the username,
      `/inventory/json/`, the Steam appid and `/6`, whatever the username
      holds, provided the base and the appid hold no `$`. */
  lemma InventoryUrlValue(s: Settings, username: string)
    requires NoDollar(s.communityBase) && NoDollar(s.appidSteam)
    ensures User(username).InventoryUrl(s)
         == s.communityBase + "/id/" + username + "/inventory/json/" + s.appidSteam + "/6"
  {
    InventoryTemplateValue(s);
    var pre := s.communityBase + "/id/";
    var tail := "/inventory/json/" + s.appidSteam + "/6";
    assert InventorySteamTemplate(s) == pre + "$" + "username" + tail;
    assert IsIdentifier("username");
    assert NoDollar(pre) && NoDollar(tail);
    SubstituteOne(pre, "username", tail, map["username" := username]);
  }
}
