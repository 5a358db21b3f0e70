/** steampak/libsteam/resources/base.py: enumeration alias lookup, the
    resource base class that hands its native interface and client on to
    other resources, and the friend filter bit flags. Native interfaces and
    clients are opaque handles. */
module LibsteamBase {
  import opened Wrappers

  /** An opaque native interface or client object; `0` is a null handle. */
  type Handle = nat

  /** `_EnumBase.get_alias`: `aliases.get(item_id)`. */
  function GetAlias(aliases: map<int, string>, itemId: int): (r: Option<string>)
    ensures itemId in aliases <==> r.Some?
    ensures r.Some? ==> r.value == aliases[itemId]
  {
    if itemId in aliases then Some(aliases[itemId]) else None
  }

  /** Python truthiness of an optional handle: `None` and a null handle are falsy. */
  predicate Truthy(x: Option<Handle>) { x.Some? && x.value != 0 }

  /** `x or y`. */
  function OrElse(x: Option<Handle>, y: Option<Handle>): (r: Option<Handle>)
    ensures Truthy(x) ==> r == x
    ensures !Truthy(x) ==> r == y
    ensures Truthy(r) <==> Truthy(x) || Truthy(y)
  {
    if Truthy(x) then x else y
  }

  /** A contribute callback: `partial(source._contribute_internals, iface=…, client=…)`. */
  datatype Contribution = Contribution(source: ApiResource, iface: Option<Handle>, client: Option<Handle>)

  class ApiResource {
    /** `_iface` and `_client`, `None` until set. */
    var iface: Option<Handle>
    var client: Option<Handle>

    /** `__init__`: runs the contribute callback on the new object, when one is given. */
    constructor (contribute: Option<Contribution>)
      ensures contribute.None? ==> iface == None && client == None
      ensures contribute.Some? ==>
        && iface == OrElse(contribute.value.iface, old(contribute.value.source.iface))
        && client == OrElse(contribute.value.client, old(contribute.value.source.client))
    {
      iface := None;
      client := None;
      new;
      if contribute.Some? {
        contribute.value.source.ContributeInternals(this, contribute.value.iface, contribute.value.client);
      }
    }

    /** `_contribute_internals`: the target takes the given iface and client,
        or this resource's own where a value is missing. */
    method ContributeInternals(to: ApiResource, iface: Option<Handle>, client: Option<Handle>)
      modifies to
      ensures to.iface == OrElse(iface, old(this.iface))
      ensures to.client == OrElse(client, old(this.client))
      ensures to != this ==> this.iface == old(this.iface) && this.client == old(this.client)
    {
      var ownIface, ownClient := this.iface, this.client;
      to.iface := OrElse(iface, ownIface);
      to.client := OrElse(client, ownClient);
    }
  }

  // ---------------------------------------------------------------------
  // Friend filters

  const NONE: bv32 := 0x00
  const BLOCKED: bv32 := 0x01
  const FRIENDSHIP_REQUESTED: bv32 := 0x02
  const IMMEDIATE: bv32 := 0x04
  const CLAN_MEMBER: bv32 := 0x08
  const ON_GAME_SERVER: bv32 := 0x10
  const HAS_PLAYED_WITH: bv32 := 0x20
  const FRIEND_OF_FRIEND: bv32 := 0x40
  const REQUESTING_FRIENDSHIP: bv32 := 0x80
  const REQUESTING_INFO: bv32 := 0x100
  const IGNORED: bv32 := 0x200
  const IGNORED_FRIEND: bv32 := 0x400
  const SUGGESTED: bv32 := 0x800
  const CHAT_MEMBER: bv32 := 0x1000
  const ALL: bv32 := 0xFFFF

  /** The named filters other than `NONE` and `ALL`. */
  const NAMED_FILTERS: seq<bv32> := [
    BLOCKED, FRIENDSHIP_REQUESTED, IMMEDIATE, CLAN_MEMBER, ON_GAME_SERVER, HAS_PLAYED_WITH,
    FRIEND_OF_FRIEND, REQUESTING_FRIENDSHIP, REQUESTING_INFO, IGNORED, IGNORED_FRIEND,
    SUGGESTED, CHAT_MEMBER]

  predicate SingleBit(f: bv32) { f != 0 && f & (f - 1) == 0 }

  predicate WithinAll(f: bv32) { f & ALL == f }

  /** `f1 | f2 | …`. */
  function Combine(fs: seq<bv32>): bv32
  {
    if fs == [] then NONE else fs[0] | Combine(fs[1..])
  }

  /** Each named filter is a single bit, they are pairwise different (so
      share no bit), and each lies within `ALL`. */
  lemma NamedFiltersAreBits()
    ensures |NAMED_FILTERS| == 13
    ensures forall i :: 0 <= i < |NAMED_FILTERS| ==> SingleBit(NAMED_FILTERS[i]) && WithinAll(NAMED_FILTERS[i])
    ensures forall i, j :: 0 <= i < j < |NAMED_FILTERS| ==> NAMED_FILTERS[i] & NAMED_FILTERS[j] == 0
  {
  }

  /** `NONE` combines with nothing and `ALL` only with itself. */
  lemma NoneAndAll()
    ensures NONE == 0 && WithinAll(NONE) && WithinAll(ALL)
    ensures forall f: bv32 :: WithinAll(f) ==> f | NONE == f && f | ALL == ALL
  {
  }

  /** Any `|`-combination of filters within `ALL` stays within `ALL`. */
  lemma {:induction false} CombineWithinAll(fs: seq<bv32>)
    requires forall i :: 0 <= i < |fs| ==> WithinAll(fs[i])
    ensures WithinAll(Combine(fs))
    decreases |fs|
  {
    if fs != [] {
      CombineWithinAll(fs[1..]);
      OrWithinAll(fs[0], Combine(fs[1..]));
    }
  }

  lemma OrWithinAll(a: bv32, b: bv32)
    requires WithinAll(a) && WithinAll(b)
    ensures WithinAll(a | b)
  {
  }

  /** A combination of named filters holds a named filter exactly when that
      filter is one of those combined. */
  lemma {:induction false} CombineHolds(fs: seq<bv32>, f: bv32)
    requires forall i :: 0 <= i < |fs| ==> fs[i] in NAMED_FILTERS
    requires f in NAMED_FILTERS
    ensures Combine(fs) & f != 0 <==> f in fs
    decreases |fs|
  {
    if fs != [] {
      CombineHolds(fs[1..], f);
      NamedFiltersAreBits();
      DistinctNamedShareNoBit(fs[0], f);
      AndOverOr(fs[0], Combine(fs[1..]), f);
      assert f in fs <==> f == fs[0] || f in fs[1..];
    }
  }

  lemma DistinctNamedShareNoBit(a: bv32, b: bv32)
    requires a in NAMED_FILTERS && b in NAMED_FILTERS
    ensures a & b == 0 <==> a != b
  {
    NamedFiltersAreBits();
    var i :| 0 <= i < |NAMED_FILTERS| && NAMED_FILTERS[i] == a;
    var j :| 0 <= j < |NAMED_FILTERS| && NAMED_FILTERS[j] == b;
    if i < j {
      assert a & b == 0;
    } else if j < i {
      assert b & a == 0;
    }
  }

  lemma AndOverOr(a: bv32, b: bv32, f: bv32)
    ensures (a | b) & f != 0 <==> a & f != 0 || b & f != 0
  {
  }
}
