/** steampak/libsteam/resources/user.py: user states and their aliases, the
    name-history loop and the overlay dialog helpers. Native results are
    parameters or oracle functions. */
module LibsteamUser {
  import opened Wrappers
  import LibsteamBase

  const OFFLINE: int := 0
  const ONLINE: int := 1
  const BUSY: int := 2
  const AWAY: int := 3
  const SNOOZE: int := 4
  const READY_TO_TRADE: int := 5
  const READY_TO_PLAY: int := 6

  /** `UserState.aliases`. */
  const USER_STATE_ALIASES: map<int, string> := map[
    OFFLINE := "offline", ONLINE := "online", BUSY := "busy", AWAY := "away",
    SNOOZE := "snooze", READY_TO_TRADE := "trade", READY_TO_PLAY := "play"]

  /** The ids 0..6 are exactly the known states, and no two share an alias. */
  lemma UserStateAliasesDistinct()
    ensures forall id :: id in USER_STATE_ALIASES <==> 0 <= id <= 6
    ensures forall i, j :: i in USER_STATE_ALIASES && j in USER_STATE_ALIASES && i != j ==>
      USER_STATE_ALIASES[i] != USER_STATE_ALIASES[j]
  {
  }

  /** A user, known by id; the native handle is not modelled. */
  datatype User = User(userId: int)

  /** What `get_state` returns: the raw id, or its alias (`None` when unknown). */
  datatype State = Raw(id: int) | Alias(alias: Option<string>)

  /** `get_state(as_str)`, given what `GetFriendPersonaState` returned. */
  function GetState(asStr: bool, nativeState: int): (r: State)
    ensures !asStr ==> r == Raw(nativeState)
    ensures asStr ==> r.Alias? && (r.alias.Some? <==> 0 <= nativeState <= 6)
    ensures asStr && r.alias.Some? ==> r.alias.value == USER_STATE_ALIASES[nativeState]
  {
    if asStr then Alias(LibsteamBase.GetAlias(USER_STATE_ALIASES, nativeState)) else Raw(nativeState)
  }

  /** The `state` property. */
  function StateOf(nativeState: int): (r: State)
    ensures r == GetState(true, nativeState)
  {
    GetState(true, nativeState)
  }

  /** The alias of a raw state turns back into that state. */
  lemma StateAliasRoundTrip(nativeState: int)
    requires 0 <= nativeState <= 6
    ensures var a := GetState(true, nativeState).alias.value;
      forall id :: id in USER_STATE_ALIASES && USER_STATE_ALIASES[id] == a ==> id == GetState(false, nativeState).id
  {
    UserStateAliasesDistinct();
  }

  /** `name_history`, querying `GetFriendPersonaNameHistory` for indices
      0, 1, 2, … through `historyName` until a name comes back empty. The
      loop ends only because the native side returns an empty name, which
      the precondition states. */
  method NameHistory(historyName: nat -> string) returns (history: seq<string>)
    requires exists n: nat :: historyName(n) == ""
    ensures forall i :: 0 <= i < |history| ==> history[i] == historyName(i) && history[i] != ""
    ensures historyName(|history|) == ""
  {
    ghost var bound: nat :| historyName(bound) == "";
    ghost var end := FirstEmpty(historyName, bound);
    history := [];
    var idx: nat := 0;
    while true
      invariant idx == |history| && idx <= end
      invariant forall i :: 0 <= i < idx ==> history[i] == historyName(i) && history[i] != ""
      decreases end - idx
    {
      var name := historyName(idx);
      if name == "" {
        break;
      }
      idx := idx + 1;
      history := history + [name];
    }
  }

  /** The first index at or below `bound` whose name is empty. */
  ghost function FirstEmpty(historyName: nat -> string, bound: nat): (r: nat)
    requires historyName(bound) == ""
    ensures r <= bound && historyName(r) == ""
    ensures forall i :: 0 <= i < r ==> historyName(i) != ""
  {
    if bound == 0 || FirstEmptyBelow(historyName, bound) == bound then bound
    else FirstEmptyBelow(historyName, bound)
  }

  ghost function FirstEmptyBelow(historyName: nat -> string, bound: nat): (r: nat)
    ensures r <= bound
    ensures r < bound ==> historyName(r) == ""
    ensures forall i :: 0 <= i < r ==> historyName(i) != ""
    decreases bound
  {
    if bound == 0 then 0
    else
      var k := FirstEmptyBelow(historyName, bound - 1);
      if k < bound - 1 then k else if historyName(bound - 1) == "" then bound - 1 else bound
  }

  /** The history is the exact run of names before the first empty one. */
  lemma NameHistoryIsUnique(historyName: nat -> string, h1: seq<string>, h2: seq<string>)
    requires forall i :: 0 <= i < |h1| ==> h1[i] == historyName(i) && h1[i] != ""
    requires historyName(|h1|) == ""
    requires forall i :: 0 <= i < |h2| ==> h2[i] == historyName(i) && h2[i] != ""
    requires historyName(|h2|) == ""
    ensures h1 == h2
  {
  }

  /** The `ActivateGameOverlayToUser` call the helpers issue. */
  datatype OverlayToUser = ActivateGameOverlayToUser(dialog: string, userId: int)

  function ShowProfile(u: User): (r: OverlayToUser)
    ensures r.dialog == "steamid" && r.userId == u.userId
  { ActivateGameOverlayToUser("steamid", u.userId) }

  function ShowStats(u: User): (r: OverlayToUser)
    ensures r.dialog == "stats" && r.userId == u.userId
  { ActivateGameOverlayToUser("stats", u.userId) }

  function ShowAchievements(u: User): (r: OverlayToUser)
    ensures r.dialog == "achievements" && r.userId == u.userId
  { ActivateGameOverlayToUser("achievements", u.userId) }

  function AddToFriends(u: User): (r: OverlayToUser)
    ensures r.dialog == "friendadd" && r.userId == u.userId
  { ActivateGameOverlayToUser("friendadd", u.userId) }

  function RemoveFromFriends(u: User): (r: OverlayToUser)
    ensures r.dialog == "friendremove" && r.userId == u.userId
  { ActivateGameOverlayToUser("friendremove", u.userId) }

  function AcceptFriendInvite(u: User): (r: OverlayToUser)
    ensures r.dialog == "friendrequestaccept" && r.userId == u.userId
  { ActivateGameOverlayToUser("friendrequestaccept", u.userId) }

  function IgnoreFriendInvite(u: User): (r: OverlayToUser)
    ensures r.dialog == "friendrequestignore" && r.userId == u.userId
  { ActivateGameOverlayToUser("friendrequestignore", u.userId) }

  function OpenChat(u: User): (r: OverlayToUser)
    ensures r.dialog == "chat" && r.userId == u.userId
  { ActivateGameOverlayToUser("chat", u.userId) }

  /** The eight helpers open eight different dialogs. */
  lemma OverlayHelpersDistinct(u: User)
    ensures var calls := [ShowProfile(u), ShowStats(u), ShowAchievements(u), AddToFriends(u),
                          RemoveFromFriends(u), AcceptFriendInvite(u), IgnoreFriendInvite(u), OpenChat(u)];
      forall i, j :: 0 <= i < j < |calls| ==> calls[i].dialog != calls[j].dialog
  {
  }
}
