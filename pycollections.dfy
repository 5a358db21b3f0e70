/** `collections.OrderedDict` built from a list of pairs: a key keeps the
    position of its first pair and takes the value of its last. */
module PyCollections {
  import opened PyStrings

  datatype ODict<V> = ODict(keys: seq<string>, entries: map<string, V>)

  predicate HasKey<V>(pairs: seq<(string, V)>, k: string) {
    exists i :: 0 <= i < |pairs| && pairs[i].0 == k
  }

  predicate KeysDistinct(keys: seq<string>) {
    forall i, j :: 0 <= i < j < |keys| ==> keys[i] != keys[j]
  }

  /** `OrderedDict(pairs)`. */
  function ODictFrom<V>(pairs: seq<(string, V)>): (d: ODict<V>)
    ensures forall k :: k in d.entries <==> HasKey(pairs, k)
    ensures forall k :: k in d.keys <==> k in d.entries
    ensures KeysDistinct(d.keys)
    decreases |pairs|
  {
    if pairs == [] then ODict([], map[])
    else
      var init := pairs[..|pairs| - 1];
      var d := ODictFrom(init);
      var k := pairs[|pairs| - 1].0;
      var v := pairs[|pairs| - 1].1;
      HasKeyPrefix(pairs);
      ODict(if k in d.entries then d.keys else d.keys + [k], d.entries[k := v])
  }

  lemma HasKeyPrefix<V>(pairs: seq<(string, V)>)
    requires pairs != []
    ensures forall k :: HasKey(pairs, k) <==> HasKey(pairs[..|pairs| - 1], k) || pairs[|pairs| - 1].0 == k
  {
    var init := pairs[..|pairs| - 1];
    forall k | HasKey(pairs, k)
      ensures HasKey(init, k) || pairs[|pairs| - 1].0 == k
    {
      var i :| 0 <= i < |pairs| && pairs[i].0 == k;
      if i < |init| {
        assert init[i] == pairs[i];
      }
    }
    forall k | HasKey(init, k)
      ensures HasKey(pairs, k)
    {
      var i :| 0 <= i < |init| && init[i].0 == k;
      assert pairs[i] == init[i];
    }
  }

  /** The value of a key is the one of its last pair. */
  lemma {:induction false} ODictLastWins<V>(pairs: seq<(string, V)>, i: nat)
    requires i < |pairs| && forall j :: i < j < |pairs| ==> pairs[j].0 != pairs[i].0
    ensures pairs[i].0 in ODictFrom(pairs).entries && ODictFrom(pairs).entries[pairs[i].0] == pairs[i].1
    decreases |pairs|
  {
    var n := |pairs| - 1;
    var init := pairs[..n];
    assert ODictFrom(pairs).entries == ODictFrom(init).entries[pairs[n].0 := pairs[n].1];
    if i < n {
      assert init[i] == pairs[i];
      assert forall j :: i < j < n ==> init[j] == pairs[j];
      ODictLastWins(init, i);
    }
  }

  /** Pairs whose keys never go down give keys in strictly ascending order. */
  lemma {:induction false} ODictSortedKeys<V>(pairs: seq<(string, V)>)
    requires forall i, j :: 0 <= i < j < |pairs| ==> !LexLess(pairs[j].0, pairs[i].0)
    ensures forall i, j :: 0 <= i < j < |ODictFrom(pairs).keys| ==>
      LexLess(ODictFrom(pairs).keys[i], ODictFrom(pairs).keys[j])
    decreases |pairs|
  {
    if pairs != [] {
      var n := |pairs| - 1;
      var init := pairs[..n];
      assert forall i :: 0 <= i < n ==> init[i] == pairs[i];
      ODictSortedKeys(init);
      var d := ODictFrom(init);
      var k := pairs[n].0;
      if k !in d.entries {
        forall i | 0 <= i < |d.keys|
          ensures LexLess(d.keys[i], k)
        {
          assert d.keys[i] in d.entries;
          var m :| 0 <= m < |init| && init[m].0 == d.keys[i];
          assert !LexLess(k, init[m].0);
          LexLessTotal(d.keys[i], k);
        }
      }
    }
  }
}
