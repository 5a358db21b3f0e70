/** steampak/libsteam/resources/stats.py: achievement queries and updates
    over the native user-stats interface. Every native call is an input:
    the value it returned is a parameter, and the calls a member issues are
    returned as a trace. */
module LibsteamStats {
  import opened Wrappers

  /** `Achievement(name)`. */
  datatype Achievement = Achievement(name: string)

  /** The native user-stats calls that change state. */
  datatype StatsCall =
    | AchUnlock(name: string)
    | AchLock(name: string)
    | StoreStats

  /** `hidden`, given what `get_ach_attrib(name, 'hidden')` returned. */
  function Hidden(hiddenAttr: string): (r: bool)
    ensures r <==> hiddenAttr == "1"
  {
    hiddenAttr == "1"
  }

  /** `unlocked`, given the success flag of `get_ach` and its output flag. */
  function Unlocked(callOk: bool, achieved: bool): (r: bool)
    ensures !callOk ==> !r
    ensures callOk ==> r == achieved
  {
    if !callOk then false else achieved
  }

  /** What `unlock`/`clear` return and the native calls they issue. */
  datatype Outcome = Outcome(result: bool, calls: seq<StatsCall>)

  /** `result and store and self._store()`: the store call follows only a
      truthy result with `store` set. */
  function StoreAfter(first: StatsCall, result: bool, store: bool): (r: Outcome)
    ensures r.result == result
    ensures |r.calls| >= 1 && r.calls[0] == first
    ensures r.calls == [first] || r.calls == [first, StoreStats]
    ensures StoreStats in r.calls[1..] <==> result && store
  {
    Outcome(result, if result && store then [first, StoreStats] else [first])
  }

  /** `unlock(store)`, given what `ach_unlock(name)` returned. */
  function Unlock(a: Achievement, store: bool, nativeResult: bool): (r: Outcome)
    ensures r.result == nativeResult
    ensures r.calls == (if nativeResult && store then [AchUnlock(a.name), StoreStats] else [AchUnlock(a.name)])
  {
    StoreAfter(AchUnlock(a.name), nativeResult, store)
  }

  /** `clear(store)`, given what `ach_lock(name)` returned. */
  function Clear(a: Achievement, store: bool, nativeResult: bool): (r: Outcome)
    ensures r.result == nativeResult
    ensures r.calls == (if nativeResult && store then [AchLock(a.name), StoreStats] else [AchLock(a.name)])
  {
    StoreAfter(AchLock(a.name), nativeResult, store)
  }

  /** Unlocking and clearing differ only in the first native call. */
  lemma UnlockClearAgree(a: Achievement, store: bool, nativeResult: bool)
    ensures Unlock(a, store, nativeResult).calls[1..] == Clear(a, store, nativeResult).calls[1..]
    ensures Unlock(a, store, nativeResult).result == Clear(a, store, nativeResult).result
  {
  }

  /** `(is_unlocked, unlocked_at)`; the time stays the raw timestamp. */
  datatype UnlockInfo = UnlockInfo(unlocked: Option<bool>, unlockedAt: Option<int>)

  /** `get_unlock_info()`, given the native success flag and the two output values. */
  function GetUnlockInfo(callOk: bool, unlocked: bool, unlockedAt: int): (r: UnlockInfo)
    ensures !callOk <==> r == UnlockInfo(None, None)
    ensures callOk ==> r.unlocked == Some(unlocked)
    ensures callOk ==> (r.unlockedAt.Some? <==> unlocked && unlockedAt != 0)
    ensures r.unlockedAt.Some? ==> r.unlockedAt.value == unlockedAt
  {
    if !callOk then UnlockInfo(None, None)
    else if unlocked && unlockedAt != 0 then UnlockInfo(Some(true), Some(unlockedAt))
    else UnlockInfo(Some(unlocked), None)
  }

  /** The unlock information agrees with `unlocked` whenever the native calls succeed alike. */
  lemma UnlockInfoAgreesWithUnlocked(callOk: bool, achieved: bool, at: int)
    ensures callOk ==> GetUnlockInfo(callOk, achieved, at).unlocked == Some(Unlocked(callOk, achieved))
    ensures GetUnlockInfo(callOk, achieved, at).unlockedAt.Some? ==> Unlocked(callOk, achieved)
  {
  }

  /** `CurrentApplicationAchievements.__call__`: one `(name, Achievement(name))`
      pair for each index below `len(self)`, in order; `count` is what
      `get_ach_count()` returned, and `len` refuses a negative one. */
  method Achievements(count: int, achName: nat -> string) returns (r: Result<seq<(string, Achievement)>>)
    ensures count < 0 <==> r == Err(ValueError)
    ensures r.Ok? ==> |r.value| == count
    ensures r.Ok? ==> forall i :: 0 <= i < |r.value| ==> r.value[i] == (achName(i), Achievement(achName(i)))
  {
    if count < 0 {
      return Err(ValueError);
    }
    var pairs: seq<(string, Achievement)> := [];
    var idx := 0;
    while idx < count
      invariant 0 <= idx <= count
      invariant |pairs| == idx
      invariant forall i :: 0 <= i < idx ==> pairs[i] == (achName(i), Achievement(achName(i)))
    {
      var name := achName(idx);
      pairs := pairs + [(name, Achievement(name))];
      idx := idx + 1;
    }
    return Ok(pairs);
  }
}
