/** steampak/webapi/resources/apps.py: a store application whose details
    are fetched lazily and cached. The store's JSON answer is an input; the
    class keeps a ghost log of the URLs it fetched, so that the contracts
    can say when a fetch happens. `get_cards` is in WebApiAppCards. */
module WebApiApps {
  import opened Wrappers
  import opened WebApiUtils
  import opened WebApiSettings

  /** One store category; `id` is absent when the JSON entry has none. */
  datatype Category = Category(id: Option<int>)

  /** The `data` payload: `name`, `categories`, and the names of all other entries. */
  datatype AppDetails = AppDetails(name: Option<string>, categories: Option<seq<Category>>, others: set<string>) {
    /** The dictionary is empty, and so falsy. */
    predicate IsEmpty() { name.None? && categories.None? && others == {} }
  }

  const NoDetails := AppDetails(None, None, {})

  /** The entry of one appid in the store answer. */
  datatype StoreEntry = StoreEntry(success: Option<bool>, data: Option<AppDetails>)

  /** The store answer: appid to entry. */
  type StoreResponse = map<string, StoreEntry>

  function AppDetailsTemplate(s: Settings): string { s.storeApiBase + "/appdetails?appids=$appid" }

  function AppDetailsUrl(s: Settings, appid: string): string {
    StrSub(AppDetailsTemplate(s), map["appid" := appid])
  }

  /** The details URL is the store base, `/appdetails?appids=` and the appid. */
  lemma AppDetailsUrlValue(s: Settings, appid: string)
    requires NoDollar(s.storeApiBase)
    ensures AppDetailsUrl(s, appid) == s.storeApiBase + "/appdetails?appids=" + appid
  {
    AppDetailsUrlSteps(s, appid, "/appdetails?appids=");
  }

  lemma AppDetailsUrlSteps(s: Settings, appid: string, pre: string)
    requires NoDollar(s.storeApiBase) && pre == "/appdetails?appids="
    ensures AppDetailsUrl(s, appid) == s.storeApiBase + pre + appid
  {
    assert AppDetailsTemplate(s) == (s.storeApiBase + pre) + "$" + "appid" + [];
    assert IsIdentifier("appid") && NoDollar(s.storeApiBase + pre);
    SubstituteOne(s.storeApiBase + pre, "appid", [], map["appid" := appid]);
  }

  /** What one store answer yields for `appid`: an error, `None` for an
      unsuccessful answer (`{}` is returned and nothing is cached), or the
      `data` payload to cache. */
  function StoreOutcome(appid: string, response: StoreResponse): (r: Result<Option<AppDetails>>)
    ensures appid !in response ==> r == Err(KeyError(appid))
    ensures r == Ok(None) <==> appid in response && response[appid].success == Some(false)
    ensures (exists d :: r == Ok(Some(d))) <==>
      appid in response && response[appid].success == Some(true) && response[appid].data.Some?
    ensures r.Ok? && r.value.Some? ==> r.value.value == response[appid].data.value
    ensures appid in response && response[appid].success.None? ==> r == Err(KeyError("success"))
    ensures appid in response && response[appid].success == Some(true) && response[appid].data.None? ==>
      r == Err(KeyError("data"))
  {
    if appid !in response then Err(KeyError(appid))
    else
      var entry := response[appid];
      if entry.success.None? then Err(KeyError("success"))
      else if !entry.success.value then Ok(None)
      else if entry.data.None? then Err(KeyError("data"))
      else Ok(Some(entry.data.value))
  }

  /** The cached details after `not self._data_raw and self._get_data_raw()`:
      a non-empty cache is kept, an empty one is refilled from the answer. */
  function CachedDetails(cache: AppDetails, appid: string, response: StoreResponse): (r: Result<AppDetails>)
    ensures !cache.IsEmpty() ==> r == Ok(cache)
    ensures r.Err? ==> cache.IsEmpty() && StoreOutcome(appid, response).Err?
  {
    if !cache.IsEmpty() then Ok(cache)
    else match StoreOutcome(appid, response)
      case Err(e) => Err(e)
      case Ok(None) => Ok(cache)
      case Ok(Some(d)) => Ok(d)
  }

  /** The `has_cards` search: the first category with the cards id gives
      true; a category without `id` met before it raises `KeyError('id')`. */
  function ScanCategories(cats: seq<Category>, target: int): (r: Result<bool>)
    ensures r.Err? ==> r == Err(KeyError("id"))
  {
    if cats == [] then Ok(false)
    else if cats[0].id.None? then Err(KeyError("id"))
    else if cats[0].id.value == target then Ok(true)
    else ScanCategories(cats[1..], target)
  }

  /** `has_cards` on loaded details: `KeyError('categories')` without them. */
  function HasCardsOf(d: AppDetails, target: int): (r: Result<bool>)
    ensures d.categories.None? <==> r == Err(KeyError("categories"))
    ensures r.Err? ==> r == Err(KeyError("categories")) || r == Err(KeyError("id"))
  {
    if d.categories.None? then Err(KeyError("categories")) else ScanCategories(d.categories.value, target)
  }

  /** `self._data_raw.get('name', '<unresolved %s>' % self.appid)`. */
  function TitleOf(d: AppDetails, appid: string): string {
    if d.name.Some? then d.name.value else "<unresolved " + appid + ">"
  }

  /** The search finds the cards category exactly when some category has
      that id and every category before it has an id; it answers false
      exactly when every category has an id and none is the cards id. */
  lemma {:induction false} ScanCategoriesMeaning(cats: seq<Category>, target: int)
    ensures ScanCategories(cats, target) == Ok(true) <==>
      exists i :: 0 <= i < |cats| && cats[i].id == Some(target) && forall j :: 0 <= j < i ==> cats[j].id.Some?
    ensures ScanCategories(cats, target) == Ok(false) <==>
      forall i :: 0 <= i < |cats| ==> cats[i].id.Some? && cats[i].id.value != target
    ensures ScanCategories(cats, target).Err? ==> ScanCategories(cats, target) == Err(KeyError("id"))
    decreases |cats|
  {
    if cats != [] {
      ScanCategoriesMeaning(cats[1..], target);
      assert forall i :: 1 <= i < |cats| ==> cats[i] == cats[1..][i - 1];
      if ScanCategories(cats, target) == Ok(true) && cats[0].id != Some(target) {
        var i :| 0 <= i < |cats[1..]| && cats[1..][i].id == Some(target) &&
          forall j :: 0 <= j < i ==> cats[1..][j].id.Some?;
        assert cats[i + 1].id == Some(target);
      }
    }
  }

  /** When every category has an id, `has_cards` holds exactly when one of them is the cards id. */
  lemma HasCardsIff(d: AppDetails, target: int)
    requires d.categories.Some?
    requires forall i :: 0 <= i < |d.categories.value| ==> d.categories.value[i].id.Some?
    ensures HasCardsOf(d, target) == Ok(true) <==>
      exists i :: 0 <= i < |d.categories.value| && d.categories.value[i].id == Some(target)
    ensures HasCardsOf(d, target).Ok?
  {
    ScanCategoriesMeaning(d.categories.value, target);
  }

  /** Once the cache holds non-empty details, later reads use it whatever
      the store would answer, so they never fetch again. */
  lemma CacheIsSticky(cache: AppDetails, appid: string, r1: StoreResponse, r2: StoreResponse)
    requires CachedDetails(cache, appid, r1).Ok?
    requires !CachedDetails(cache, appid, r1).value.IsEmpty()
    ensures CachedDetails(CachedDetails(cache, appid, r1).value, appid, r2) == CachedDetails(cache, appid, r1)
  {
  }

  /** An unsuccessful answer leaves an empty cache empty, so the next read fetches again. */
  lemma UnsuccessfulKeepsEmpty(cache: AppDetails, appid: string, response: StoreResponse)
    requires cache.IsEmpty() && appid in response && response[appid].success == Some(false)
    ensures CachedDetails(cache, appid, response) == Ok(cache)
    ensures TitleOf(cache, appid) == "<unresolved " + appid + ">"
  {
  }

  class Application {
    const appid: string
    /** `_data_raw`. */
    var dataRaw: AppDetails
    /** The URLs fetched so far, in order. */
    ghost var fetched: seq<string>

    constructor (appid: string)
      ensures this.appid == appid && dataRaw == NoDetails && fetched == []
    {
      this.appid := appid;
      dataRaw := NoDetails;
      fetched := [];
    }

    /** `_get_data_raw`: fetches the details; an unsuccessful answer returns
        `{}` and leaves the cache alone, a successful one caches its payload. */
    method GetDataRaw(s: Settings, response: StoreResponse) returns (r: Result<AppDetails>)
      modifies this
      ensures fetched == old(fetched) + [AppDetailsUrl(s, appid)]
      ensures r == match StoreOutcome(appid, response)
                   case Err(e) => Err(e)
                   case Ok(None) => Ok(NoDetails)
                   case Ok(Some(d)) => Ok(d)
      ensures dataRaw == if StoreOutcome(appid, response).Ok? && StoreOutcome(appid, response).value.Some?
                         then StoreOutcome(appid, response).value.value else old(dataRaw)
    {
      var url := StrSub(AppDetailsTemplate(s), map["appid" := appid]);
      fetched := fetched + [url];
      if appid !in response {
        return Err(KeyError(appid));
      }
      var data := response[appid];
      if data.success.None? {
        return Err(KeyError("success"));
      }
      if !data.success.value {
        return Ok(NoDetails);
      }
      if data.data.None? {
        return Err(KeyError("data"));
      }
      dataRaw := data.data.value;
      r := Ok(dataRaw);
    }

    /** The cache fill shared by both properties. */
    method EnsureData(s: Settings, response: StoreResponse) returns (r: Result<AppDetails>)
      modifies this
      ensures fetched == old(fetched) + (if old(dataRaw).IsEmpty() then [AppDetailsUrl(s, appid)] else [])
      ensures r == CachedDetails(old(dataRaw), appid, response)
      ensures r.Ok? ==> dataRaw == r.value
      ensures r.Err? ==> dataRaw == old(dataRaw)
    {
      if dataRaw.IsEmpty() {
        var got := GetDataRaw(s, response);
        if got.Err? {
          return Err(got.error);
        }
      }
      r := Ok(dataRaw);
    }

    /** `has_cards`: fetches only when the cache is empty, then searches the categories. */
    method HasCards(s: Settings, response: StoreResponse) returns (r: Result<bool>)
      modifies this
      ensures fetched == old(fetched) + (if old(dataRaw).IsEmpty() then [AppDetailsUrl(s, appid)] else [])
      ensures r == match CachedDetails(old(dataRaw), appid, response)
                   case Err(e) => Err(e)
                   case Ok(d) => HasCardsOf(d, s.appCategoryCards)
      ensures CachedDetails(old(dataRaw), appid, response).Ok? ==> dataRaw == CachedDetails(old(dataRaw), appid, response).value
      ensures CachedDetails(old(dataRaw), appid, response).Err? ==> dataRaw == old(dataRaw)
    {
      var got := EnsureData(s, response);
      if got.Err? {
        return Err(got.error);
      }
      if dataRaw.categories.None? {
        return Err(KeyError("categories"));
      }
      var cats := dataRaw.categories.value;
      var i := 0;
      while i < |cats|
        invariant 0 <= i <= |cats|
        invariant ScanCategories(cats[i..], s.appCategoryCards) == ScanCategories(cats, s.appCategoryCards)
      {
        assert cats[i..][1..] == cats[i + 1..];
        if cats[i].id.None? {
          return Err(KeyError("id"));
        }
        if cats[i].id.value == s.appCategoryCards {
          return Ok(true);
        }
        i := i + 1;
      }
      r := Ok(false);
    }

    /** `title`: fetches only when the cache is empty, then reads `name`. */
    method Title(s: Settings, response: StoreResponse) returns (r: Result<string>)
      modifies this
      ensures fetched == old(fetched) + (if old(dataRaw).IsEmpty() then [AppDetailsUrl(s, appid)] else [])
      ensures r == match CachedDetails(old(dataRaw), appid, response)
                   case Err(e) => Err(e)
                   case Ok(d) => Ok(TitleOf(d, appid))
      ensures CachedDetails(old(dataRaw), appid, response).Ok? ==> dataRaw == CachedDetails(old(dataRaw), appid, response).value
      ensures CachedDetails(old(dataRaw), appid, response).Err? ==> dataRaw == old(dataRaw)
    {
      var got := EnsureData(s, response);
      if got.Err? {
        return Err(got.error);
      }
      r := Ok(if dataRaw.name.Some? then dataRaw.name.value else "<unresolved " + appid + ">");
    }
  }
}
