/** steampak/webapi/resources/market.py: market items (cards) of a store
    application, their market hash, and their price overview, fetched
    through the request limiter with limits (20, 60) and cached on the item.
    `Card` adds only `get_booster` to `Item`, so both are the class `Item`. */
module WebApiMarket {
  import opened Wrappers
  import opened PyStrings
  import opened WebApiUtils
  import opened WebApiSettings
  import opened WebApiApps

  /** The `fetch_limits` of the price request: at most 20 requests, then a 60 second wait. */
  const PRICE_LIMITS := Limits(20, 60)

  function PriceOverviewUrl(s: Settings): string { s.communityBase + "/market/priceoverview/" }

  /** `get_market_hash`: `'%s-%s' % (appid, title)`. */
  function MarketHash(appid: string, title: string): (r: string)
    ensures |r| == |appid| + 1 + |title|
    ensures r[..|appid|] == appid && r[|appid|] == '-' && r[|appid| + 1..] == title
  {
    appid + "-" + title
  }

  /** For one application the hash tells titles apart. */
  lemma MarketHashInjective(appid: string, t1: string, t2: string)
    requires MarketHash(appid, t1) == MarketHash(appid, t2)
    ensures t1 == t2
  {
    assert t1 == MarketHash(appid, t1)[|appid| + 1..];
  }

  /** Hashes of one application sort as their titles do. */
  lemma MarketHashOrder(appid: string, t1: string, t2: string)
    ensures LexLess(MarketHash(appid, t1), MarketHash(appid, t2)) == LexLess(t1, t2)
  {
    assert MarketHash(appid, t1) == (appid + "-") + t1;
    assert MarketHash(appid, t2) == (appid + "-") + t2;
    LexLessCommonPrefix(appid + "-", t1, t2);
  }

  /** An appid without `-` is recovered as the hash's text before the first `-`. */
  lemma MarketHashAppid(appid: string, title: string)
    requires Free(appid, '-')
    ensures Split(MarketHash(appid, title), '-')[0] == appid
  {
    var h := MarketHash(appid, title);
    SplitFirst(h, '-');
    FirstIndexAt(h, '-', |appid|);
    assert h[..|appid|] == appid;
  }

  /** `format_money` without the final `Decimal(...)`: the text before the
      first space, with every `,` turned into `.`. */
  function FormatMoney(val: string): (r: string)
    ensures |r| == FirstIndex(val, ' ')
    ensures forall i :: 0 <= i < |r| ==> r[i] == if val[i] == ',' then '.' else val[i]
    ensures Free(r, ' ') && Free(r, ',')
  {
    SplitFirst(val, ' ');
    ReplaceChar(Split(val, ' ')[0], ',', '.')
  }

  /** Normalised money text is left as it is by a second normalisation. */
  lemma FormatMoneyIdempotent(val: string)
    ensures FormatMoney(FormatMoney(val)) == FormatMoney(val)
  {
    var r := FormatMoney(val);
    NoSpaceFirstIndex(r);
  }

  lemma NoSpaceFirstIndex(r: string)
    requires Free(r, ' ')
    ensures FirstIndex(r, ' ') == |r|
  {
  }

  /** The price overview JSON; a missing entry is `None`. */
  datatype PriceResponse = PriceResponse(
    success: Option<bool>, lowestPrice: Option<string>, medianPrice: Option<string>, volume: Option<string>)

  /** The converted overview: prices normalised, volume an int, currency the display sign. */
  datatype PriceData = PriceData(lowestPrice: string, medianPrice: string, volume: int, currency: string)

  function PriceParams(s: Settings, currency: string, marketHash: string): map<string, string> {
    map["appid" := s.appidCards, "currency" := currency, "market_hash_name" := marketHash]
  }

  /** What `get_price_data` makes of an answer: `None` when unsuccessful,
      otherwise the converted entries, the first missing or malformed one raising. */
  function PriceDataOf(s: Settings, json: PriceResponse, currency: string): (r: Result<Option<PriceData>>)
    ensures r == Ok(None) <==> json.success == Some(false)
    ensures (r.Ok? && r.value.Some?) <==>
      json.success == Some(true) && json.lowestPrice.Some? && json.medianPrice.Some? &&
      json.volume.Some? && IsIntLiteral(json.volume.value) && currency in s.currencies
    ensures r.Ok? && r.value.Some? ==>
      r.value.value == PriceData(FormatMoney(json.lowestPrice.value), FormatMoney(json.medianPrice.value),
                                 ParseInt(json.volume.value).value, s.currencies[currency])
    ensures (json.success == Some(true) && json.lowestPrice.Some? && json.medianPrice.Some? &&
             json.volume.Some? && !IsIntLiteral(json.volume.value)) ==> r == Err(ValueError)
    ensures json.success.None? ==> r == Err(KeyError("success"))
    ensures json.success == Some(true) && json.lowestPrice.None? ==> r == Err(KeyError("lowest_price"))
    ensures json.success == Some(true) && json.lowestPrice.Some? && json.medianPrice.None? ==>
      r == Err(KeyError("median_price"))
    ensures json.success == Some(true) && json.lowestPrice.Some? && json.medianPrice.Some? && json.volume.None? ==>
      r == Err(KeyError("volume"))
    ensures (json.success == Some(true) && json.lowestPrice.Some? && json.medianPrice.Some? &&
             json.volume.Some? && IsIntLiteral(json.volume.value) && currency !in s.currencies) ==>
      r == Err(KeyError(currency))
  {
    if json.success.None? then Err(KeyError("success"))
    else if !json.success.value then Ok(None)
    else if json.lowestPrice.None? then Err(KeyError("lowest_price"))
    else
      var lowest := FormatMoney(json.lowestPrice.value);
      if json.medianPrice.None? then Err(KeyError("median_price"))
      else
        var median := FormatMoney(json.medianPrice.value);
        if json.volume.None? then Err(KeyError("volume"))
        else match ParseInt(json.volume.value)
          case None => Err(ValueError)
          case Some(volume) =>
            if currency !in s.currencies then Err(KeyError(currency))
            else Ok(Some(PriceData(lowest, median, volume, s.currencies[currency])))
  }

  /** The price cache after `not self._price_data and self.get_price_data()`. */
  function CachedPrice(cache: Option<PriceData>, s: Settings, json: PriceResponse): (r: Result<Option<PriceData>>)
    ensures cache.Some? ==> r == Ok(cache)
    ensures cache.None? ==> r == PriceDataOf(s, json, s.currencyRub)
  {
    if cache.Some? then Ok(cache) else PriceDataOf(s, json, s.currencyRub)
  }

  /** The entry a price property reads. */
  datatype PriceField = LowestPrice | MedianPrice | Currency

  function Pick(p: PriceData, f: PriceField): string {
    match f
    case LowestPrice => p.lowestPrice
    case MedianPrice => p.medianPrice
    case Currency => p.currency
  }

  /** A price property read from the cache: `None` is not subscriptable. */
  function PriceRead(c: Result<Option<PriceData>>, f: PriceField): (r: Result<string>)
    ensures c.Ok? && c.value.None? ==> r == Err(TypeError)
    ensures c.Err? ==> r == Err(c.error)
    ensures c.Ok? && c.value.Some? ==> r == Ok(Pick(c.value.value, f))
  {
    match c
    case Err(e) => Err(e)
    case Ok(None) => Err(TypeError)
    case Ok(Some(p)) => Ok(Pick(p, f))
  }

  /** The item constructor's `app` argument: an application or a bare appid. */
  datatype AppArg = AppObj(obj: Application) | AppId(id: string)

  class Item {
    const app: Application
    const title: string
    /** `_price_data`. */
    var priceData: Option<PriceData>

    /** A bare appid is wrapped in a new `Application`; an application is kept as is. */
    constructor (arg: AppArg, title: string)
      ensures this.title == title && priceData == None
      ensures arg.AppObj? ==> app == arg.obj
      ensures arg.AppId? ==> fresh(app) && app.appid == arg.id && app.dataRaw == NoDetails && app.fetched == []
    {
      this.title := title;
      if arg.AppObj? {
        this.app := arg.obj;
      } else {
        var a := new Application(arg.id);
        this.app := a;
      }
      priceData := None;
    }

    /** `market_hash`: the hash of the item's application's appid and its title. */
    function MarketHashName(): (r: string)
      ensures r == MarketHash(app.appid, title)
    {
      MarketHash(app.appid, title)
    }

    /** `get_price_data`: one limited request, then the cache is set to the
        converted answer (or `None`); a raising conversion leaves it alone. */
    method GetPriceData(s: Settings, reg: FetchLimitRegistry, json: PriceResponse, currency: string)
      returns (r: Result<Option<PriceData>>)
      requires reg.Valid()
      modifies this, reg
      ensures reg.Valid()
      ensures reg.requests == old(reg.requests) + [Request(PriceOverviewUrl(s), PriceParams(s, currency, MarketHashName()))]
      ensures reg.counters == old(reg.counters)[PRICE_LIMITS := NextCounter(CounterOf(old(reg.counters), PRICE_LIMITS), PRICE_LIMITS)]
      ensures reg.waits == old(reg.waits) + (if MustWait(CounterOf(old(reg.counters), PRICE_LIMITS), PRICE_LIMITS) then [60] else [])
      ensures r == PriceDataOf(s, json, currency)
      ensures priceData == if r.Ok? then r.value else old(priceData)
    {
      reg.FetchData(DataFetcher(PriceOverviewUrl(s), PriceParams(s, currency, MarketHashName()), Some(PRICE_LIMITS)));
      r := PriceDataOf(s, json, currency);
      if r.Ok? {
        priceData := r.value;
      }
    }

    /** The shared lazy fill of the price properties, with the default currency. */
    method EnsurePrice(s: Settings, reg: FetchLimitRegistry, json: PriceResponse) returns (r: Result<Option<PriceData>>)
      requires reg.Valid()
      modifies this, reg
      ensures reg.Valid()
      ensures old(priceData).Some? ==> reg.requests == old(reg.requests) && reg.counters == old(reg.counters) && reg.waits == old(reg.waits)
      ensures old(priceData).None? ==> |reg.requests| == |old(reg.requests)| + 1
      ensures r == CachedPrice(old(priceData), s, json)
      ensures r.Ok? ==> priceData == r.value
      ensures r.Err? ==> priceData == old(priceData)
    {
      if priceData.None? {
        var got := GetPriceData(s, reg, json, s.currencyRub);
        if got.Err? {
          return Err(got.error);
        }
      }
      r := Ok(priceData);
    }

    /** `price_lowest`. */
    method PriceLowest(s: Settings, reg: FetchLimitRegistry, json: PriceResponse) returns (r: Result<string>)
      requires reg.Valid()
      modifies this, reg
      ensures reg.Valid()
      ensures old(priceData).Some? ==>
        reg.requests == old(reg.requests) && reg.counters == old(reg.counters) && reg.waits == old(reg.waits) &&
        priceData == old(priceData)
      ensures old(priceData).None? ==> |reg.requests| == |old(reg.requests)| + 1
      ensures r == PriceRead(CachedPrice(old(priceData), s, json), LowestPrice)
    {
      var c := EnsurePrice(s, reg, json);
      r := PriceRead(c, LowestPrice);
    }

    /** `price_median`. */
    method PriceMedian(s: Settings, reg: FetchLimitRegistry, json: PriceResponse) returns (r: Result<string>)
      requires reg.Valid()
      modifies this, reg
      ensures reg.Valid()
      ensures old(priceData).Some? ==>
        reg.requests == old(reg.requests) && reg.counters == old(reg.counters) && reg.waits == old(reg.waits) &&
        priceData == old(priceData)
      ensures old(priceData).None? ==> |reg.requests| == |old(reg.requests)| + 1
      ensures r == PriceRead(CachedPrice(old(priceData), s, json), MedianPrice)
    {
      var c := EnsurePrice(s, reg, json);
      r := PriceRead(c, MedianPrice);
    }

    /** `price_currency`. */
    method PriceCurrency(s: Settings, reg: FetchLimitRegistry, json: PriceResponse) returns (r: Result<string>)
      requires reg.Valid()
      modifies this, reg
      ensures reg.Valid()
      ensures old(priceData).Some? ==>
        reg.requests == old(reg.requests) && reg.counters == old(reg.counters) && reg.waits == old(reg.waits) &&
        priceData == old(priceData)
      ensures old(priceData).None? ==> |reg.requests| == |old(reg.requests)| + 1
      ensures r == PriceRead(CachedPrice(old(priceData), s, json), Currency)
    {
      var c := EnsurePrice(s, reg, json);
      r := PriceRead(c, Currency);
    }
  }

  /** A successful read of an empty cache leaves the converted answer behind,
      and any later read returns it again whatever a new answer would say. */
  lemma PriceCacheIsSticky(s: Settings, j1: PriceResponse, j2: PriceResponse)
    requires CachedPrice(None, s, j1).Ok? && CachedPrice(None, s, j1).value.Some?
    ensures CachedPrice(CachedPrice(None, s, j1).value, s, j2) == CachedPrice(None, s, j1)
  {
  }

  /** The booster card's title: the application's title and ` Booster Pack`. */
  function BoosterTitle(appTitle: string): (r: string)
    ensures |r| == |appTitle| + 13 && r[..|appTitle|] == appTitle && r[|appTitle|..] == " Booster Pack"
  {
    appTitle + " Booster Pack"
  }

  /** `Card.get_booster`: a new card of the same application, titled after it;
      reading the application's title may fetch its details, and may raise. */
  method GetBooster(s: Settings, arg: AppArg, response: StoreResponse) returns (r: Result<Item>)
    modifies if arg.AppObj? then {arg.obj} else {}
    ensures arg.AppObj? ==> (r.Err? <==> CachedDetails(old(arg.obj.dataRaw), arg.obj.appid, response).Err?)
    ensures arg.AppObj? && r.Err? ==> r.error == CachedDetails(old(arg.obj.dataRaw), arg.obj.appid, response).error
    ensures arg.AppId? ==> (r.Err? <==> CachedDetails(NoDetails, arg.id, response).Err?)
    ensures arg.AppId? && r.Err? ==> r.error == CachedDetails(NoDetails, arg.id, response).error
    ensures r.Ok? ==> fresh(r.value) && r.value.priceData == None
    ensures arg.AppObj? ==>
      arg.obj.fetched == old(arg.obj.fetched) + (if old(arg.obj.dataRaw).IsEmpty() then [AppDetailsUrl(s, arg.obj.appid)] else [])
    ensures arg.AppObj? && CachedDetails(old(arg.obj.dataRaw), arg.obj.appid, response).Ok? ==>
      arg.obj.dataRaw == CachedDetails(old(arg.obj.dataRaw), arg.obj.appid, response).value
    ensures arg.AppObj? && CachedDetails(old(arg.obj.dataRaw), arg.obj.appid, response).Err? ==>
      arg.obj.dataRaw == old(arg.obj.dataRaw)
    ensures r.Ok? && arg.AppId? ==>
      && r.value.app.fetched == [AppDetailsUrl(s, arg.id)]
      && r.value.app.dataRaw == CachedDetails(NoDetails, arg.id, response).value
    ensures r.Ok? && arg.AppObj? ==>
      && r.value.app == arg.obj
      && CachedDetails(old(arg.obj.dataRaw), arg.obj.appid, response).Ok?
      && r.value.title == BoosterTitle(TitleOf(CachedDetails(old(arg.obj.dataRaw), arg.obj.appid, response).value, arg.obj.appid))
    ensures r.Ok? && arg.AppId? ==>
      && fresh(r.value.app) && r.value.app.appid == arg.id
      && CachedDetails(NoDetails, arg.id, response).Ok?
      && r.value.title == BoosterTitle(TitleOf(CachedDetails(NoDetails, arg.id, response).value, arg.id))
  {
    var app: Application;
    if arg.AppObj? {
      app := arg.obj;
    } else {
      app := new Application(arg.id);
    }
    var t := app.Title(s, response);
    if t.Err? {
      return Err(t.error);
    }
    var card := new Item(AppObj(app), BoosterTitle(t.value));
    r := Ok(card);
  }
}
