/**
 * Python's `dict` as the readers use it: keys remember the order of their
 * first insertion, and assigning to a key that is already present replaces
 * its value without moving it.
 */
module OrderedMaps {

  datatype OMap<K, V> = OMap(keys: seq<K>, entries: map<K, V>)

  ghost predicate Valid<K, V>(m: OMap<K, V>)
  {
    && (forall i, j :: 0 <= i < j < |m.keys| ==> m.keys[i] != m.keys[j])
    && m.entries.Keys == set i | 0 <= i < |m.keys| :: m.keys[i]
  }

  function Empty<K, V>(): (m: OMap<K, V>)
    ensures Valid(m) && m.keys == [] && m.entries == map[]
  {
    OMap([], map[])
  }

  /** `d[k] = v`. */
  function Insert<K, V>(m: OMap<K, V>, k: K, v: V): (r: OMap<K, V>)
    requires Valid(m)
    ensures Valid(r)
    ensures r.entries == m.entries[k := v]
    ensures r.keys == if k in m.entries then m.keys else m.keys + [k]
  {
    if k in m.entries then OMap(m.keys, m.entries[k := v])
    else
      KeySetAppend(m.keys, k);
      OMap(m.keys + [k], m.entries[k := v])
  }

  lemma KeySetAppend<K>(keys: seq<K>, k: K)
    ensures (set i | 0 <= i < |keys + [k]| :: (keys + [k])[i]) == (set i | 0 <= i < |keys| :: keys[i]) + {k}
  {
    var ks := keys + [k];
    forall i | 0 <= i < |keys| ensures keys[i] in (set j | 0 <= j < |ks| :: ks[j]) {
      assert ks[i] == keys[i];
    }
    assert ks[|keys|] == k;
  }

  /** `list(d.values())`. */
  function Values<K, V>(m: OMap<K, V>): (vs: seq<V>)
    requires Valid(m)
    ensures |vs| == |m.keys|
    ensures forall i :: 0 <= i < |vs| ==> m.keys[i] in m.entries && vs[i] == m.entries[m.keys[i]]
  {
    assert forall i :: 0 <= i < |m.keys| ==> m.keys[i] in m.entries.Keys;
    seq(|m.keys|, i requires 0 <= i < |m.keys| => m.entries[m.keys[i]])
  }

  /** The dict that storing every record under `key(record)`, in order, builds. */
  function FromRecords<K, V>(rs: seq<V>, key: V -> K): (m: OMap<K, V>)
    ensures Valid(m)
  {
    if |rs| == 0 then Empty()
    else Insert(FromRecords(rs[..|rs| - 1], key), key(rs[|rs| - 1]), rs[|rs| - 1])
  }

  /** Storing one more record is one more `d[k] = v`. */
  lemma FromRecordsSnoc<K, V>(rs: seq<V>, key: V -> K, v: V)
    ensures FromRecords(rs + [v], key) == Insert(FromRecords(rs, key), key(v), v)
  {
    assert (rs + [v])[..|rs|] == rs;
  }

  /** One key per distinct record key, never more keys than records. */
  lemma {:induction false} FromRecordsKeys<K, V>(rs: seq<V>, key: V -> K)
    ensures |FromRecords(rs, key).keys| <= |rs|
    ensures forall k :: k in FromRecords(rs, key).entries <==> exists i :: 0 <= i < |rs| && key(rs[i]) == k
  {
    if |rs| > 0 {
      var init := rs[..|rs| - 1];
      FromRecordsKeys(init, key);
      assert FromRecords(rs, key) == Insert(FromRecords(init, key), key(rs[|rs| - 1]), rs[|rs| - 1]);
      forall k | k in FromRecords(rs, key).entries
        ensures exists i :: 0 <= i < |rs| && key(rs[i]) == k
      {
        if k != key(rs[|rs| - 1]) {
          assert k in FromRecords(init, key).entries;
          var i :| 0 <= i < |init| && key(init[i]) == k;
          assert key(rs[i]) == k;
        }
      }
      forall k | exists i :: 0 <= i < |rs| && key(rs[i]) == k
        ensures k in FromRecords(rs, key).entries
      {
        var i :| 0 <= i < |rs| && key(rs[i]) == k;
        if i < |init| { assert key(init[i]) == k; }
      }
    }
  }

  /** Every value the dict holds is one of the records, stored under its own key. */
  lemma {:induction false} FromRecordsValues<K, V>(rs: seq<V>, key: V -> K)
    ensures forall k :: k in FromRecords(rs, key).entries ==>
      FromRecords(rs, key).entries[k] in rs && key(FromRecords(rs, key).entries[k]) == k
  {
    if |rs| > 0 {
      var init := rs[..|rs| - 1];
      FromRecordsValues(init, key);
      assert forall v :: v in init ==> v in rs;
    }
  }

  /** A later record with a repeated key overwrites the earlier one. */
  lemma {:induction false} FromRecordsLastWins<K, V>(rs: seq<V>, key: V -> K, i: nat)
    requires i < |rs|
    requires forall j :: i < j < |rs| ==> key(rs[j]) != key(rs[i])
    ensures key(rs[i]) in FromRecords(rs, key).entries
    ensures FromRecords(rs, key).entries[key(rs[i])] == rs[i]
  {
    if i < |rs| - 1 {
      var init := rs[..|rs| - 1];
      FromRecordsLastWins(init, key, i);
    }
  }

  /** The first key in dict order is the key of the first record. */
  lemma {:induction false} FromRecordsFirstKey<K, V>(rs: seq<V>, key: V -> K)
    requires |rs| > 0
    ensures |FromRecords(rs, key).keys| > 0 && FromRecords(rs, key).keys[0] == key(rs[0])
  {
    if |rs| > 1 {
      FromRecordsFirstKey(rs[..|rs| - 1], key);
    }
  }
}
