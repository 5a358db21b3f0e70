/** steampak/libsteam/resources/apps.py: applications, installed
    applications, DLCs and the current application's languages. The native
    interfaces are handles taken from a client; every native result is a
    parameter or an oracle function of the arguments it was queried with. */
module LibsteamApps {
  import opened Wrappers
  import opened PyStrings
  import opened LibsteamBase

  /** The native interfaces `get_client()` hands out. */
  datatype Client = Client(apps: Handle, appList: Handle)

  /** A native string query the install-directory lookup issues. */
  datatype DirQuery = AppsInstallDir(appId: int) | AppListInstallDir(appId: int)

  /** What `install_dir` found and the native queries it issued, in order. */
  datatype DirLookup = DirLookup(directory: string, queries: seq<DirQuery>)

  class Application {
    var iface: Handle
    var ifaceList: Handle
    /** `app_id`; `None` when the attribute was never assigned. */
    var appId: Option<int>

    /** `Application(app_id)`: `app_id` is assigned only when it is not `None`. */
    constructor (client: Client, appId: Option<int>)
      ensures iface == client.apps && ifaceList == client.appList
      ensures appId.Some? ==> this.appId == appId
      ensures appId.None? ==> this.appId.None?
    {
      iface := client.apps;
      ifaceList := client.appList;
      if appId.Some? {
        this.appId := appId;
      } else {
        this.appId := None;
      }
    }

    /** `name`: the restricted app-list name of `app_id`. */
    function Name(listName: int -> string): (r: Result<string>)
      reads this
      ensures appId.None? <==> r == Err(AttributeError("app_id"))
      ensures appId.Some? ==> r == Ok(listName(appId.value))
    {
      if appId.None? then Err(AttributeError("app_id")) else Ok(listName(appId.value))
    }

    /** `install_dir`: the apps interface first, the restricted app-list
        interface only when that gave an empty string. */
    function InstallDir(appsDir: int -> string, listDir: int -> string): (r: Result<DirLookup>)
      reads this
      ensures appId.None? <==> r == Err(AttributeError("app_id"))
      ensures appId.Some? ==> r.Ok? && |r.value.queries| >= 1 && r.value.queries[0] == AppsInstallDir(appId.value)
      ensures r.Ok? ==> (AppListInstallDir(appId.value) in r.value.queries <==> appsDir(appId.value) == "")
      ensures r.Ok? && appsDir(appId.value) != "" ==> r.value == DirLookup(appsDir(appId.value), [AppsInstallDir(appId.value)])
      ensures r.Ok? && appsDir(appId.value) == "" ==> r.value.directory == listDir(appId.value)
    {
      if appId.None? then Err(AttributeError("app_id"))
      else
        var id := appId.value;
        var first := appsDir(id);
        if first != "" then Ok(DirLookup(first, [AppsInstallDir(id)]))
        else Ok(DirLookup(listDir(id), [AppsInstallDir(id), AppListInstallDir(id)]))
    }
  }

  /** The id `InstalledApplications.__call__` reads from array slot `i`: the
      native call writes the first slots, the rest stay zero. */
  function InstalledSlot(written: seq<int>, i: nat): int
  {
    if i < |written| then written[i] else 0
  }

  /** `InstalledApplications.__call__`: an array of `len(self)` ids (`count`
      being what `get_installed_count()` returned) is filled by
      `get_installed`, which writes `written` into its first slots and
      returns `total`; then every slot yields `(id, Application(id))`,
      whatever `total` says. */
  method Installed(client: Client, count: int, written: seq<int>, total: int)
    returns (r: Result<seq<(int, Application)>>)
    ensures count < 0 <==> r == Err(ValueError)
    ensures r.Ok? ==> |r.value| == count
    ensures r.Ok? ==> forall i :: 0 <= i < |r.value| ==>
      r.value[i].0 == InstalledSlot(written, i) && r.value[i].1.appId == Some(r.value[i].0)
    ensures r.Ok? ==> forall i :: 0 <= i < |r.value| ==> fresh(r.value[i].1)
  {
    if count < 0 {
      return Err(ValueError);
    }
    var ids := FillIds(count, written);
    var pairs: seq<(int, Application)> := [];
    var k := 0;
    while k < ids.Length
      invariant 0 <= k <= ids.Length && |pairs| == k
      invariant forall i :: 0 <= i < ids.Length ==> ids[i] == InstalledSlot(written, i)
      invariant forall i :: 0 <= i < k ==>
        pairs[i].0 == InstalledSlot(written, i) && pairs[i].1.appId == Some(pairs[i].0) && fresh(pairs[i].1)
    {
      var app := new Application(client, Some(ids[k]));
      pairs := pairs + [(ids[k], app)];
      k := k + 1;
    }
    return Ok(pairs);
  }

  /** `CRef.carray(int, size=count)` after the native call wrote `written`
      into it. */
  method FillIds(count: nat, written: seq<int>) returns (ids: array<int>)
    ensures fresh(ids) && ids.Length == count
    ensures forall i :: 0 <= i < count ==> ids[i] == InstalledSlot(written, i)
  {
    ids := new int[count](_ => 0);
    var i := 0;
    while i < count && i < |written|
      invariant 0 <= i <= count && i <= |written|
      invariant forall j :: 0 <= j < i ==> ids[j] == written[j]
      invariant forall j :: i <= j < count ==> ids[j] == 0
    {
      ids[i] := written[i];
      i := i + 1;
    }
  }

  class Dlc {
    var iface: Handle
    var ifaceList: Handle
    var appId: Option<int>
    /** `_name` and `_available`, `None` until the DLC listing fills them. */
    var name: Option<string>
    var available: Option<bool>

    /** `Dlc(app_id)`: the application part, then no name and no availability. */
    constructor (client: Client, appId: Option<int>)
      ensures iface == client.apps && ifaceList == client.appList
      ensures this.appId == appId && name.None? && available.None?
    {
      iface := client.apps;
      ifaceList := client.appList;
      this.appId := appId;
      name := None;
      available := None;
    }

    /** `name`: the listed name when it is a non-empty string, otherwise the
        application's restricted app-list name. */
    function Name(listName: int -> string): (r: Result<string>)
      reads this
      ensures name.Some? && name.value != "" ==> r == Ok(name.value)
      ensures (name.None? || name.value == "") && appId.Some? ==> r == Ok(listName(appId.value))
      ensures (name.None? || name.value == "") && appId.None? ==> r == Err(AttributeError("app_id"))
    {
      if name.Some? && name.value != "" then Ok(name.value)
      else if appId.None? then Err(AttributeError("app_id"))
      else Ok(listName(appId.value))
    }

    /** `get_download_progress()`, given the native success flag and its two
        output values: `(0, 0)` when the call fails. */
    function GetDownloadProgress(callOk: bool, downloaded: int, total: int): (r: Result<(int, int)>)
      reads this
      ensures appId.None? <==> r == Err(AttributeError("app_id"))
      ensures appId.Some? && !callOk ==> r == Ok((0, 0))
      ensures appId.Some? && callOk ==> r == Ok((downloaded, total))
    {
      if appId.None? then Err(AttributeError("app_id"))
      else if !callOk then Ok((0, 0))
      else Ok((downloaded, total))
    }
  }

  /** What `get_dlc_by_index(idx, …)` returned: its success flag and outputs. */
  datatype DlcLookup = DlcLookup(ok: bool, appId: int, available: bool, name: string)

  /** The indices below `n` whose lookup succeeds, in increasing order. */
  function SuccessfulIndices(n: nat, lookup: nat -> DlcLookup): (r: seq<nat>)
    ensures forall k :: 0 <= k < |r| ==> r[k] < n && lookup(r[k]).ok
    decreases n
  {
    if n == 0 then []
    else SuccessfulIndices(n - 1, lookup) + (if lookup(n - 1).ok then [n - 1] else [])
  }

  /** Every successful index below `n` is listed, and the list is
      strictly increasing. */
  lemma {:induction false} SuccessfulIndicesComplete(n: nat, lookup: nat -> DlcLookup)
    ensures forall i :: 0 <= i < n && lookup(i).ok ==> i in SuccessfulIndices(n, lookup)
    ensures forall j, k :: 0 <= j < k < |SuccessfulIndices(n, lookup)| ==>
      SuccessfulIndices(n, lookup)[j] < SuccessfulIndices(n, lookup)[k]
  {
    if n > 0 {
      SuccessfulIndicesComplete(n - 1, lookup);
      var prev := SuccessfulIndices(n - 1, lookup);
      var r := SuccessfulIndices(n, lookup);
      assert r[..|prev|] == prev;
      forall i | 0 <= i < n && lookup(i).ok ensures i in r {
        if i < n - 1 {
          assert i in prev;
        } else {
          assert r[|prev|] == n - 1;
        }
      }
    }
  }

  /** `CurrentApplicationDlcs.__call__`: for each index below `len(self)`
      (`count` being what `get_dlc_count()` returned) in order, a failed
      lookup is skipped and a successful one yields `(app_id, dlc)` with the
      looked-up name and availability filled in. */
  method Dlcs(client: Client, count: int, lookup: nat -> DlcLookup) returns (r: Result<seq<(int, Dlc)>>)
    ensures count < 0 <==> r == Err(ValueError)
    ensures r.Ok? ==> |r.value| == |SuccessfulIndices(count, lookup)|
    ensures r.Ok? ==> forall k :: 0 <= k < |r.value| ==>
      var l := lookup(SuccessfulIndices(count, lookup)[k]);
      && r.value[k].0 == l.appId
      && r.value[k].1.appId == Some(l.appId)
      && r.value[k].1.name == Some(l.name)
      && r.value[k].1.available == Some(l.available)
    ensures r.Ok? ==> forall k :: 0 <= k < |r.value| ==> fresh(r.value[k].1)
  {
    if count < 0 {
      return Err(ValueError);
    }
    var pairs: seq<(int, Dlc)> := [];
    var idx := 0;
    while idx < count
      invariant 0 <= idx <= count
      invariant |pairs| == |SuccessfulIndices(idx, lookup)|
      invariant forall k :: 0 <= k < |pairs| ==>
        var l := lookup(SuccessfulIndices(idx, lookup)[k]);
        && pairs[k].0 == l.appId
        && pairs[k].1.appId == Some(l.appId)
        && pairs[k].1.name == Some(l.name)
        && pairs[k].1.available == Some(l.available)
        && fresh(pairs[k].1)
    {
      var found := lookup(idx);
      if found.ok {
        var dlc := new Dlc(client, Some(found.appId));
        dlc.name := Some(found.name);
        dlc.available := Some(found.available);
        pairs := pairs + [(found.appId, dlc)];
      }
      idx := idx + 1;
    }
    return Ok(pairs);
  }

  /** `language_available`: the comma-separated list `get_available_languages()`
      returned, split at every comma. */
  function LanguageAvailable(languages: string): (r: seq<string>)
    ensures |r| >= 1
    ensures Join(r, ',') == languages
    ensures forall k :: 0 <= k < |r| ==> Free(r[k], ',')
  {
    JoinSplit(languages, ',');
    SplitPiecesFree(languages, ',');
    Split(languages, ',')
  }

  /** A list of comma-free language names comes back from its joined form. */
  lemma LanguagesRoundTrip(names: seq<string>)
    requires |names| >= 1 && forall k :: 0 <= k < |names| ==> Free(names[k], ',')
    ensures LanguageAvailable(Join(names, ',')) == names
  {
    SplitJoin(names, ',');
  }
}
