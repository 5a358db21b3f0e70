# steampak, modelled in Dafny

steampak is a Python package with two halves:

- a web client for the Steam community and store sites (`steampak/webapi`);
- a wrapper around the native Steam client library (`steampak/libsteam`).

This project models the deterministic logic both halves put above their I/O, and proves properties of it:

- **Web client.**
  - `$name` templating of URLs and the per-limits request counter that decides when a fetch must wait.
  - A user's gem total and owned-games table.
  - A store application's lazily cached details, its `has_cards` search and title.
  - Market item hashes, money normalisation and lazily cached price data.
  - The card table of an application: cards sorted by title and keyed by market hash.
  - The booster pack card.
- **Native wrapper.**
  - Enumeration aliases and the resource base class that contributes its interface and client to other resources.
  - The friend filter bit flags.
  - Overlay routing, achievement queries and updates, user states, the user name history loop and overlay dialog helpers.
  - Application install directories, installed applications and DLC listings, and the current application's language list.

Every HTTP answer, parsed document and native call result is an input. Parsed JSON, XML and HTML arrive as record datatypes. A native call is an argument holding the value it returned, or a function from the call's arguments to that value.

Each Python source file has one Dafny module:

| module | file |
|---|---|
| `Wrappers` | Option, Result and the Python exceptions raised (`KeyError`, `IndexError`, `TypeError`, `ValueError`, `AttributeError`, `ResponseError`) |
| `PyStrings` | the `str` operations the code relies on: `in`, `split`, `replace`, `<`, `int()`, `str()` |
| `PyCollections` | `collections.OrderedDict` built from pairs |
| `WebApiSettings` | the settings constants, as one `Settings` value |
| `WebApiUtils` | `steampak/webapi/utils.py` |
| `WebApiUser` | `steampak/webapi/resources/user.py` |
| `WebApiApps` | `steampak/webapi/resources/apps.py`, except `get_cards` |
| `WebApiMarket` | `steampak/webapi/resources/market.py` |
| `WebApiAppCards` | `Application.get_cards` of `steampak/webapi/resources/apps.py`; it needs both apps and market, which import each other |
| `LibsteamBase` | `steampak/libsteam/resources/base.py` |
| `LibsteamOverlay` | `steampak/libsteam/resources/overlay.py` |
| `LibsteamStats` | `steampak/libsteam/resources/stats.py` |
| `LibsteamUser` | `steampak/libsteam/resources/user.py` |
| `LibsteamApps` | `steampak/libsteam/resources/apps.py` |

The model follows the form of the source:

- The pure computations are functions, with lemmas about them.
- Objects whose fields the code updates are classes with `modifies` clauses. These are the module-level fetch-limits table, the application details cache, the item price cache and the resource base class.
- The native applications and DLCs are classes too. Their fields are set when they are built, and none of their modelled methods changes them.
- Loops in the source are methods with loop invariants. These are the games document walk, `has_cards`, the card loop of `get_cards`, the achievement, installed-application and DLC generators, and `name_history`.

## Model

| member | source | states |
|---|---|---|
| `WebApiUtils.Substitute` | steampak/webapi/utils.py:16-18 | the `safe_substitute` scan itself; its meaning is stated by the `Substitute…` lemmas below |
| `WebApiUtils.StrSub` | steampak/webapi/utils.py:16-18 | `str_sub` is `safe_substitute` with the keyword arguments as the map |
| `WebApiUtils.SubstituteLiteral` | steampak/webapi/utils.py:16-18 | text without `$` passes through `safe_substitute` unchanged, whatever follows it |
| `WebApiUtils.SubstitutePlaceholder` | steampak/webapi/utils.py:16-18 | `$name` not followed by an identifier character becomes its value, or stays as it is when no value is supplied |
| `WebApiUtils.SubstituteBraced` | steampak/webapi/utils.py:16-18 | `${name}` becomes its value, or stays as `${name}` when no value is supplied, and the rest is substituted on its own |
| `WebApiUtils.BracedLikeNamed` | steampak/webapi/utils.py:16-18 | for a supplied name not followed by an identifier character, `${name}` and `$name` give the same result |
| `WebApiUtils.SubstituteNamed` | steampak/webapi/utils.py:16-18 | a `$` followed by a name takes the longest identifier run as the name |
| `WebApiUtils.SubstituteInvalid` | steampak/webapi/utils.py:16-18 | a `$` not starting a placeholder or escape is kept, and substitution never raises |
| `WebApiUtils.SubstituteOne` | steampak/webapi/utils.py:16-18 | a template with one placeholder is its literal parts around the filled placeholder |
| `WebApiUtils.SubstitutePrefix` | steampak/webapi/utils.py:16-18 | a leading literal and placeholder are filled, and the rest is substituted on its own |
| `WebApiUtils.TwoStageSubstitution` | steampak/webapi/utils.py:16-18 | filling a template in two stages (`$appid` first, then `$username`) equals filling it once with both maps, the first stage winning |
| `WebApiUtils.SubstituteNothing` | steampak/webapi/utils.py:16-18 | with no values supplied, a template without `$$` comes back unchanged |
| `WebApiUtils.NextCounter` | steampak/webapi/utils.py:37-46 | the counter is reset and then counts 1 after a wait, otherwise it goes up by one; it stays within 1..req_max |
| `WebApiUtils.FetchesOnFreshKey` | steampak/webapi/utils.py:37-46 | after n fetches with fresh limits the counter is `(n-1) % req_max + 1`, with `(n-1) / req_max` waits |
| `WebApiUtils.ZeroMaxWaitsOnce` | steampak/webapi/utils.py:37-46 | with `req_max == 0` only the first fetch waits and the counter then grows without bound |
| `WebApiUtils.FetchLimitRegistry.constructor` | steampak/webapi/utils.py:21 | `_FETCHER_LIMITS` starts empty, with no wait and no request |
| `WebApiUtils.FetchLimitRegistry.FetchData` | steampak/webapi/utils.py:31-51 | every fetch issues one GET with its URL and parameters; without limits the table is untouched; with limits the key's counter becomes `NextCounter` and a `req_timeout` wait is recorded exactly when the counter had reached `req_max`; the counters of all other keys are unchanged; counters stay within 1..req_max |
| `WebApiUser.Amounts` | steampak/webapi/resources/user.py:32 | `int(item['amount'])` per item: one amount per item, or `ValueError` |
| `WebApiUser.GemsTotalOf` | steampak/webapi/resources/user.py:32 | the gem sum of an inventory's entries; its only error is `ValueError` |
| `WebApiUser.GemItems` | steampak/webapi/resources/user.py:30-32 | an entry is kept exactly when its class id is the gem class `667924416` |
| `WebApiUser.GemsTotalAppend` | steampak/webapi/resources/user.py:31-32 | the total of two inventories combined is the sum of their totals, and fails if either fails |
| `WebApiUser.GemsTotalIgnoresOtherItems` | steampak/webapi/resources/user.py:32 | inserting an entry of another class never changes the total, even when its amount is malformed |
| `WebApiUser.GemsTotalNoGems` | steampak/webapi/resources/user.py:32 | an inventory without gem entries totals 0 |
| `WebApiUser.GemsTotalFails` | steampak/webapi/resources/user.py:32 | the total fails with `ValueError` exactly when some gem entry's amount is not an integer literal |
| `WebApiUser.GemsTotalPermutation` | steampak/webapi/resources/user.py:31-32 | the dictionary order of `rgInventory` does not matter: permuted inventories have the same total |
| `WebApiUser.PropsOf` | steampak/webapi/resources/user.py:42-49 | the props loop over one game's children; stated by `PropsOfKeys` and `PropsOfField` |
| `WebApiUser.AddGames` | steampak/webapi/resources/user.py:41-51 | the loop over one `<games>` element; its only error is `KeyError('appid')` |
| `WebApiUser.CollectGames` | steampak/webapi/resources/user.py:39-51 | the walk over the document's children; its only error is `KeyError('appid')` |
| `WebApiUser.PropsOfKeys` | steampak/webapi/resources/user.py:42-49 | a game's props hold at most `appid` and `title` |
| `WebApiUser.PropsOfField` | steampak/webapi/resources/user.py:44-49 | `appid` (`title`) is present exactly when some child is tagged `appID` (`name`), with the text of the last such child |
| `WebApiUser.AddGamesAppend` | steampak/webapi/resources/user.py:41-51 | the inner loop over two runs of games is the loop over the first and then over the second |
| `WebApiUser.AddGamesErrPersists` | steampak/webapi/resources/user.py:41-51 | once a game raises, the loop's result is that error |
| `WebApiUser.CollectGamesErrPersists` | steampak/webapi/resources/user.py:39-51 | once a `<games>` element raises, the walk's result is that error |
| `WebApiUser.CollectGamesReadsGamesOnly` | steampak/webapi/resources/user.py:38-53 | the walk equals adding, from an empty table, the children of all top-level `<games>` elements in order; other elements are ignored |
| `WebApiUser.AddGamesFails` | steampak/webapi/resources/user.py:51 | the walk raises `KeyError('appid')` exactly when some game has no `appID` child |
| `WebApiUser.AddGamesKeys` | steampak/webapi/resources/user.py:41-51 | a successful table holds the initial keys plus one key per game |
| `WebApiUser.AddGamesLastWins` | steampak/webapi/resources/user.py:51 | the last game with a given appid is the one stored |
| `WebApiUser.AddGamesKeepsOthers` | steampak/webapi/resources/user.py:38-51 | entries no game names are kept |
| `WebApiUser.User.GetInventoryRaw` | steampak/webapi/resources/user.py:20-27 | a missing `success` raises `KeyError('success')`; a successful response is returned as is, and only then; otherwise `ResponseError(response['Error'], url)`, or `KeyError('Error')` when that entry is missing |
| `WebApiUser.User.GemsTotal` | steampak/webapi/resources/user.py:29-32 | the error of `_get_inventory_raw` when it fails; `KeyError('rgInventory')` when that entry is missing; otherwise the gem sum of the inventory's entries |
| `WebApiUser.ReadGameProps` | steampak/webapi/resources/user.py:42-49 | the innermost loop over one game's children computes exactly `PropsOf` of those children |
| `WebApiUser.User.GetGamesOwned` | steampak/webapi/resources/user.py:34-53 | the nested loops compute exactly the walk `CollectGames` of the document's children |
| `WebApiUser.InventoryTemplateValue` | steampak/webapi/resources/user.py:6-9 | the Steam inventory template is the community base, `/id/$username/inventory/json/`, the Steam appid and `/6` |
| `WebApiUser.InventoryTemplateSteps` | steampak/webapi/resources/user.py:6-9 | the same, with the literal parts as parameters |
| `WebApiUser.InventoryUrlValue` | steampak/webapi/resources/user.py:6-21 | the inventory URL is the base, `/id/`, the username, `/inventory/json/`, the Steam appid and `/6` |
| `WebApiApps.AppDetailsUrlValue` | steampak/webapi/resources/apps.py:17-27 | the details URL is the store base, `/appdetails?appids=` and the appid |
| `WebApiApps.StoreOutcome` | steampak/webapi/resources/apps.py:28-36 | a missing appid raises `KeyError(appid)`; a missing `success` raises `KeyError('success')`; `success` false gives no details; `success` true with `data` gives that data, and without it raises `KeyError('data')` |
| `WebApiApps.CachedDetails` | steampak/webapi/resources/apps.py:26-48 | non-empty cached details are used without a fetch; an error can only come from fetching with an empty cache |
| `WebApiApps.ScanCategories` | steampak/webapi/resources/apps.py:41-44 | the category search loop; its only error is `KeyError('id')` |
| `WebApiApps.HasCardsOf` | steampak/webapi/resources/apps.py:38-44 | `KeyError('categories')` exactly when there are no categories; otherwise the search, whose only other error is `KeyError('id')` |
| `WebApiApps.TitleOf` | steampak/webapi/resources/apps.py:46-49 | the name, `<unresolved appid>` without one; stated by `UnsuccessfulKeepsEmpty` and `Application.Title` |
| `WebApiApps.ScanCategoriesMeaning` | steampak/webapi/resources/apps.py:41-44 | the search answers true exactly when a category before the first id-less one has the cards id, false exactly when every category has an id and none is the cards id, and otherwise raises `KeyError('id')` |
| `WebApiApps.HasCardsIff` | steampak/webapi/resources/apps.py:38-44 | when every category has an id, `has_cards` holds exactly when one of them is the cards category |
| `WebApiApps.CacheIsSticky` | steampak/webapi/resources/apps.py:40-48 | once the cache holds non-empty details, later reads return them whatever the store answers |
| `WebApiApps.UnsuccessfulKeepsEmpty` | steampak/webapi/resources/apps.py:31-49 | an unsuccessful answer leaves the cache empty and the title `<unresolved appid>` |
| `WebApiApps.Application.constructor` | steampak/webapi/resources/apps.py:22-24 | a new application has empty details and has fetched nothing |
| `WebApiApps.Application.GetDataRaw` | steampak/webapi/resources/apps.py:26-36 | fetches the details URL once; the cache is set only from a successful answer; the result follows `StoreOutcome` |
| `WebApiApps.Application.EnsureData` | steampak/webapi/resources/apps.py:40-48 | fetches only when the cache is empty; the result and new cache follow `CachedDetails` |
| `WebApiApps.Application.HasCards` | steampak/webapi/resources/apps.py:38-44 | fetches only when the cache is empty, then the search loop's answer is `HasCardsOf` of the details, and `KeyError('categories')` when there are none |
| `WebApiApps.Application.Title` | steampak/webapi/resources/apps.py:46-49 | fetches only when the cache is empty, then the name or `<unresolved appid>` |
| `WebApiMarket.MarketHash` | steampak/webapi/resources/market.py:73-75 | the hash is the appid, `-` and the title |
| `WebApiMarket.MarketHashInjective` | steampak/webapi/resources/market.py:73-75 | for one application, different titles give different hashes |
| `WebApiMarket.MarketHashOrder` | steampak/webapi/resources/market.py:73-75 | hashes of one application sort as their titles do |
| `WebApiMarket.MarketHashAppid` | steampak/webapi/resources/market.py:73-75 | an appid without `-` is the hash's text before the first `-` |
| `WebApiMarket.FormatMoney` | steampak/webapi/resources/market.py:37-39 | the text before the first space, with every `,` turned into `.`; the result holds neither |
| `WebApiMarket.FormatMoneyIdempotent` | steampak/webapi/resources/market.py:37-39 | normalising twice is normalising once |
| `WebApiMarket.PriceDataOf` | steampak/webapi/resources/market.py:41-52 | `success` false gives `None`; success with all three entries and an integer volume gives normalised prices, that volume and `CURRENCIES[currency]`; a malformed volume raises `ValueError`; a missing `success`, `lowest_price`, `median_price` or `volume` raises `KeyError` with that name, checked in that order, and an unknown currency raises `KeyError(currency)` |
| `WebApiMarket.CachedPrice` | steampak/webapi/resources/market.py:56-66 | cached price data is used as is; an empty cache is filled from the answer, in the default currency |
| `WebApiMarket.PriceRead` | steampak/webapi/resources/market.py:57-67 | reading a property after an unsuccessful answer raises `TypeError` (the cache is `None`); errors propagate |
| `WebApiMarket.PriceCacheIsSticky` | steampak/webapi/resources/market.py:56 | once filled, the price cache is not refetched |
| `WebApiMarket.Item.constructor` | steampak/webapi/resources/market.py:17-26 | an application is kept; a bare appid is wrapped in a new `Application`; no price data yet |
| `WebApiMarket.Item.MarketHashName` | steampak/webapi/resources/market.py:69-71 | the item's hash is the hash of its application's appid and its title |
| `WebApiMarket.Item.GetPriceData` | steampak/webapi/resources/market.py:28-52 | one GET of the price overview with appid, currency and hash, counted under the limits (20, 60); the cache becomes the converted answer |
| `WebApiMarket.Item.EnsurePrice` | steampak/webapi/resources/market.py:56-66 | no request when the cache is set; otherwise one request; the result follows `CachedPrice` |
| `WebApiMarket.Item.PriceLowest` | steampak/webapi/resources/market.py:54-57 | the lowest price read from the lazily filled cache; with the cache set, no request, wait or counter change and the cache is kept; otherwise one request |
| `WebApiMarket.Item.PriceMedian` | steampak/webapi/resources/market.py:59-62 | the median price read from the lazily filled cache; with the cache set, no request, wait or counter change and the cache is kept; otherwise one request |
| `WebApiMarket.Item.PriceCurrency` | steampak/webapi/resources/market.py:64-67 | the currency sign read from the lazily filled cache; with the cache set, no request, wait or counter change and the cache is kept; otherwise one request |
| `WebApiMarket.BoosterTitle` | steampak/webapi/resources/market.py:87 | the application's title followed by exactly ` Booster Pack`, 13 characters longer |
| `WebApiMarket.GetBooster` | steampak/webapi/resources/market.py:80-89 | a new card of the same application (wrapping a bare appid), titled after the application; it fails exactly when reading the title fails, with the same error; the details URL is fetched only when the cache was empty, and the cache becomes the loaded details, or stays as it was on failure |
| `PyCollections.ODictFrom` | steampak/webapi/resources/apps.py:65-66 | the keys are exactly the pairs' keys, each once |
| `PyCollections.ODictLastWins` | steampak/webapi/resources/apps.py:65-66 | a key's value is the one of its last pair |
| `PyCollections.ODictSortedKeys` | steampak/webapi/resources/apps.py:65-66 | pairs whose keys never go down give strictly ascending keys |
| `PyStrings.Contains` | steampak/libsteam/resources/overlay.py:40 | `sub in s` holds exactly when `sub` occurs at some index |
| `PyStrings.FirstIndex` | steampak/webapi/resources/market.py:38 | the first index of a character, or the length when there is none |
| `PyStrings.SplitFirst` | steampak/webapi/resources/market.py:38 | the first piece of `split(sep)` is the text before the first separator |
| `PyStrings.ReplaceChar` | steampak/webapi/resources/market.py:38 | `replace` changes exactly the occurrences of the character |
| `PyStrings.SplitPiecesFree` | steampak/libsteam/resources/apps.py:365 | no piece of a split holds the separator |
| `PyStrings.JoinSplit` | steampak/libsteam/resources/apps.py:365 | joining the pieces of a split gives back the string |
| `PyStrings.SplitJoin` | steampak/libsteam/resources/apps.py:365 | splitting the join of separator-free pieces gives back the pieces |
| `PyStrings.LexLessTransitive` | steampak/webapi/resources/apps.py:66 | string `<` is transitive |
| `PyStrings.LexLessTotal` | steampak/webapi/resources/apps.py:66 | two different strings are ordered one way or the other |
| `PyStrings.LexLessIrreflexive` | steampak/webapi/resources/apps.py:66 | no string sorts below itself |
| `PyStrings.ParseInt` | steampak/webapi/resources/user.py:32 | `int()` succeeds exactly on a sign and digits |
| `PyStrings.ParseIntToString` | steampak/webapi/resources/user.py:32 | a check on the `int()` model used there: it parses back what `str()` prints, `int(str(n)) == n` |
| `WebApiAppCards.InsertByTitle` | steampak/webapi/resources/apps.py:66 | inserting into sorted cards keeps them sorted and adds exactly the card |
| `WebApiAppCards.SortByTitle` | steampak/webapi/resources/apps.py:66 | `sorted(cards, key=title)` is sorted by title and a permutation of the cards |
| `WebApiAppCards.HashPairs` | steampak/webapi/resources/apps.py:65-66 | one `(market_hash, card)` pair per card, in order |
| `WebApiAppCards.CardTable` | steampak/webapi/resources/apps.py:65-66 | `OrderedDict` of the cards sorted by title, keyed by hash; stated by the `CardTable…` lemmas |
| `WebApiAppCards.CardTableOrdered` | steampak/webapi/resources/apps.py:65-66 | the table's keys are strictly ascending |
| `WebApiAppCards.CardTableEntries` | steampak/webapi/resources/apps.py:65-66 | each entry is one of the cards, stored under its own hash |
| `WebApiAppCards.CardTableKeys` | steampak/webapi/resources/apps.py:65-66 | the keys are exactly the hashes of the cards' titles |
| `WebApiAppCards.CardTableTitles` | steampak/webapi/resources/apps.py:65-66 | the table's titles are exactly the cards' titles |
| `WebApiAppCards.CardTableEmpty` | steampak/webapi/resources/apps.py:65-68 | the table is empty exactly when there are no cards |
| `WebApiAppCards.TableOfRows` | steampak/webapi/resources/apps.py:58-66 | the table of the rows' cards has ascending keys, one per row name, each entry under its own hash |
| `WebApiAppCards.MakeCards` | steampak/webapi/resources/apps.py:59-63 | one new card per row, named from its first item-name text; `IndexError` exactly when a row has none |
| `WebApiAppCards.BuildTable` | steampak/webapi/resources/apps.py:58-66 | the cards of the rows, sorted and keyed by hash, or `IndexError` |
| `WebApiAppCards.GetCards` | steampak/webapi/resources/apps.py:51-70 | `KeyError('results_html')` without listing; `IndexError` for a row without a name; no rows give an empty table and no booster; otherwise the card table and the booster of the application; the application's details are fetched, and its cache filled, only when a booster is built from an empty cache |
| `LibsteamBase.GetAlias` | steampak/libsteam/resources/base.py:16-23 | the mapped alias for a known id, `None` otherwise |
| `LibsteamBase.OrElse` | steampak/libsteam/resources/base.py:39-40 | `x or y`: the first when truthy, the second otherwise |
| `LibsteamBase.ApiResource.constructor` | steampak/libsteam/resources/base.py:32-36 | without a callback iface and client stay `None`; with one the source contributes its internals to the new object |
| `LibsteamBase.ApiResource.ContributeInternals` | steampak/libsteam/resources/base.py:38-40 | the target takes the given iface and client, falling back to the source's own when missing or falsy |
| `LibsteamBase.NamedFiltersAreBits` | steampak/libsteam/resources/base.py:48-61 | the thirteen named filters are single bits, pairwise disjoint, within `ALL` |
| `LibsteamBase.NoneAndAll` | steampak/libsteam/resources/base.py:48-62 | `NONE` is 0; combining with `NONE` changes nothing and with `ALL` gives `ALL` |
| `LibsteamBase.CombineWithinAll` | steampak/libsteam/resources/base.py:43-62 | a `|`-combination of filters within `ALL` stays within `ALL` |
| `LibsteamBase.CombineHolds` | steampak/libsteam/resources/base.py:43-61 | a combination of named filters holds a named filter exactly when it was combined in |
| `LibsteamOverlay.Activate` | steampak/libsteam/resources/overlay.py:31-44 | `None` or `''` opens the game overlay with `''`; a page holding `://` opens the URL overlay unchanged; any other page opens the game overlay unchanged |
| `LibsteamOverlay.ActivateKeepsPage` | steampak/libsteam/resources/overlay.py:40-44 | exactly one of the two calls is issued, with the page unchanged |
| `LibsteamOverlay.NamedPagesGoToGame` | steampak/libsteam/resources/overlay.py:4-44 | the named overlay pages go to the game overlay |
| `LibsteamOverlay.NoColonNoUrl` | steampak/libsteam/resources/overlay.py:40 | a page without `:` never goes to the URL overlay |
| `LibsteamStats.Hidden` | steampak/libsteam/resources/stats.py:69-75 | true exactly when the `hidden` attribute is `'1'` |
| `LibsteamStats.Unlocked` | steampak/libsteam/resources/stats.py:77-89 | `False` when the native call fails, otherwise its output flag |
| `LibsteamStats.StoreAfter` | steampak/libsteam/resources/stats.py:100-109 | the store call follows exactly when the result is truthy and `store` is set |
| `LibsteamStats.Unlock` | steampak/libsteam/resources/stats.py:91-101 | returns the native result; the unlock call is followed by a store call exactly when the result and `store` are true |
| `LibsteamStats.Clear` | steampak/libsteam/resources/stats.py:103-110 | the same for the lock call |
| `LibsteamStats.UnlockClearAgree` | steampak/libsteam/resources/stats.py:99-110 | unlocking and clearing differ only in their first call |
| `LibsteamStats.GetUnlockInfo` | steampak/libsteam/resources/stats.py:123-154 | `(None, None)` exactly when the native call fails; otherwise the flag, and a time only when unlocked with a non-zero timestamp |
| `LibsteamStats.UnlockInfoAgreesWithUnlocked` | steampak/libsteam/resources/stats.py:83-154 | the unlock flag and `unlocked` agree; a time implies unlocked |
| `LibsteamStats.Achievements` | steampak/libsteam/resources/stats.py:173-187 | `(name, Achievement(name))` for each index below the count, in order; `ValueError` for a negative count |
| `LibsteamUser.UserStateAliasesDistinct` | steampak/libsteam/resources/user.py:4-23 | ids 0..6 are the known states and have seven different aliases |
| `LibsteamUser.GetState` | steampak/libsteam/resources/user.py:76-88 | the raw id, or with `as_str` its alias, `None` for an unknown id |
| `LibsteamUser.StateOf` | steampak/libsteam/resources/user.py:90-96 | `state` is `get_state(as_str=True)` |
| `LibsteamUser.StateAliasRoundTrip` | steampak/libsteam/resources/user.py:15-23 | a known state's alias names that state only |
| `LibsteamUser.NameHistory` | steampak/libsteam/resources/user.py:52-66 | the names at indices 0, 1, 2, … up to the first empty one, which is left out; none is empty |
| `LibsteamUser.NameHistoryIsUnique` | steampak/libsteam/resources/user.py:58-66 | only one list meets that contract: the run of non-empty names from index 0 |
| `LibsteamUser.ShowProfile` | steampak/libsteam/resources/user.py:114-116 | one `ActivateGameOverlayToUser` call with `steamid` and the user id |
| `LibsteamUser.ShowStats` | steampak/libsteam/resources/user.py:118-120 | the same with `stats` |
| `LibsteamUser.ShowAchievements` | steampak/libsteam/resources/user.py:122-124 | the same with `achievements` |
| `LibsteamUser.AddToFriends` | steampak/libsteam/resources/user.py:126-128 | the same with `friendadd` |
| `LibsteamUser.RemoveFromFriends` | steampak/libsteam/resources/user.py:130-132 | the same with `friendremove` |
| `LibsteamUser.AcceptFriendInvite` | steampak/libsteam/resources/user.py:134-136 | the same with `friendrequestaccept` |
| `LibsteamUser.IgnoreFriendInvite` | steampak/libsteam/resources/user.py:138-140 | the same with `friendrequestignore` |
| `LibsteamUser.OpenChat` | steampak/libsteam/resources/user.py:142-144 | the same with `chat` |
| `LibsteamUser.OverlayHelpersDistinct` | steampak/libsteam/resources/user.py:114-144 | the eight helpers open eight different dialogs |
| `LibsteamApps.Application.constructor` | steampak/libsteam/resources/apps.py:23-35 | interfaces from the client; `app_id` assigned only when it is not `None` |
| `LibsteamApps.Application.Name` | steampak/libsteam/resources/apps.py:60-70 | the app-list name of `app_id`, `AttributeError` when it was never assigned |
| `LibsteamApps.Application.InstallDir` | steampak/libsteam/resources/apps.py:72-90 | the apps interface is queried first; the restricted app-list interface only when that gave `''`, and then its answer is the directory |
| `LibsteamApps.Installed` | steampak/libsteam/resources/apps.py:130-150 | exactly `len` pairs, one per array slot in order, whatever total the native call returned, each with a new `Application` of that id |
| `LibsteamApps.FillIds` | steampak/libsteam/resources/apps.py:145-147 | the id array holds what the native call wrote, zero elsewhere |
| `LibsteamApps.Dlc.constructor` | steampak/libsteam/resources/apps.py:173-177 | no name and no availability yet |
| `LibsteamApps.Dlc.Name` | steampak/libsteam/resources/apps.py:212-219 | the populated name when non-empty, otherwise the application's name |
| `LibsteamApps.Dlc.GetDownloadProgress` | steampak/libsteam/resources/apps.py:195-210 | `(0, 0)` when the native call fails, otherwise the two output values |
| `LibsteamApps.SuccessfulIndices` | steampak/libsteam/resources/apps.py:256-263 | only indices below the count whose lookup succeeded |
| `LibsteamApps.SuccessfulIndicesComplete` | steampak/libsteam/resources/apps.py:256-263 | every successful index is listed, in increasing order |
| `LibsteamApps.Dlcs` | steampak/libsteam/resources/apps.py:240-272 | one `(app_id, dlc)` pair per successful lookup, in index order, the DLC carrying the looked-up id, name and availability; `ValueError` for a negative count |
| `LibsteamApps.LanguageAvailable` | steampak/libsteam/resources/apps.py:357-365 | the comma-free pieces whose comma-join is the languages string |
| `LibsteamApps.LanguagesRoundTrip` | steampak/libsteam/resources/apps.py:357-365 | a list of comma-free language names comes back from its joined form |

## Left out

- Native binding layer: symbol resolution is not part of this model. This covers the `SteamAPI_` name prefixing, argument and output-parameter marshalling, interface handle caching, and the `_call`, `_get_str`, `_get_bool`, `_ihandle` and `self.get_client()` helpers. The resources call these helpers on themselves, but no file of this revision defines them: `_ApiResourceBase` (`steampak/libsteam/resources/base.py:26-40`) inherits from nothing and defines none of them, `steampak/libsteam/resources/_wrapper.py:355` has only a module-level `get_client(version)`, and the `_set_client` that `steampak/libsteam/resources/main.py:4` imports is missing from `base.py` too. As written, each resource constructor would raise `AttributeError` at `self.get_client()`; the model assumes a working binding in their place. Each native call is a parameter or an oracle function. An interface is an opaque `Handle`, with `0` standing for a falsy (null) one.
- HTTP, HTML, XML and JSON: `requests.get`, BeautifulSoup, ElementTree and `.json()` are not modelled. Their parsed results are record inputs. `sleep` is a recorded wait. The lists of requests, waits and fetched URLs stand for the I/O.
- `steampak/webapi/settings.py` is not part of this model. Its constants are one `Settings` value passed to every operation, so each property holds whatever they are.
- `get_cards` search URL: `URL_GAMECARDS` is not modelled. It needs `TAG_ITEM_CLASS_CARD` and `TAG_CARDBORDER_NORMAL`, which `steampak/webapi/resources/apps.py:7` imports but which `steampak/webapi/resources/market.py` does not define. `GetCards` takes the listing answer directly and issues no request.
- Logging is not modelled.
- Floats, `Decimal` and `datetime`:
  - money stays the normalised text `FormatMoney` returns, without `Decimal(...)`;
  - `global_unlock_percent` is not modelled;
  - unlock and purchase times stay integer timestamps, so `purchase_time` is not modelled.
- `PyStrings.ParseInt`: accepts only an optional sign and ASCII digits. The surrounding whitespace, underscores and non-ASCII digits that Python's `int()` also accepts are not modelled.
- `WebApiAppCards.CardTable`: it is not stated which of two cards with the same title the table keeps. Both have the same hash, and `sorted` is stable, so the later of the two is kept. All the lemmas hold for either choice.
- `WebApiMarket.PriceDataOf`: the converted overview carries only the four entries the properties read. The other entries of the JSON dictionary, which Python keeps, are dropped.
- `WebApiMarket.PriceDataOf`: `Decimal(...)` of the normalised prices (`steampak/webapi/resources/market.py:39`) is not modelled, so its `InvalidOperation` error for a price that is not a number is not modelled either.
- `WebApiUser.GemsTotalOf`: an inventory entry without `classid`, or a gem entry without `amount`, raises `KeyError` in Python. The model gives every entry both fields, so that error is not modelled.
- The owned-games URL (`steampak/webapi/resources/user.py:10`, `:35`) is not modelled: `GetGamesOwned` takes the parsed XML document as its input and issues no request.
- `WebApiMarket.Item.EnsurePrice`, `PriceLowest`, `PriceMedian`, `PriceCurrency`: for an empty cache these state only that one request is added. The request itself is stated by `GetPriceData`.
- `LibsteamUser.NameHistory`: requires that some index has an empty name. The loop ends only because the native side eventually returns one.
- Inheritance: not modelled, since the model uses no traits.
  - `Card` is `Item`.
  - `Dlc` is its own class with the `Application` fields.
  - `CurrentApplication`, `Applications`, `InstalledApplications` and `CurrentApplicationDlcs` hold no logic beyond their members modelled here.
- Constructor keyword arguments: the `_contribute` callback is modelled only on `ApiResource`. The libsteam resource constructors that forward it are modelled without it.
- `LibsteamBase.ApiResource.constructor`: `steampak/libsteam/resources/base.py:36` calls whatever callable `_contribute` is with the new object. The model assumes it is `_contribute_internals` of a source resource with `iface` and `client` bound, as its name suggests; no file of this revision builds one. The effect of any other callable is not modelled, and the constructor's `iface` and `client` clauses hold only for that assumed shape.
- The native `__len__` methods return any integer. `len()` of a negative one raising `ValueError` is modelled; a non-integer is not.
- Pass-through members are not modelled: each is a single native call with no branching. This covers the `owned`, `installed`, `build_id`, `title` and `description` properties and the `friends.py`, `groups.py`, `utils.py` and `screenshots.py` resources.
- `steampak/libsteam/resources/main.py` is not modelled: it is environment set-up and library start-up.
- `steampak/cli.py`, the demo, `setup.py` and the manual tests are not modelled: they are presentation and packaging.
