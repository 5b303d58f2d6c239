/** A JavaScript `Map`: iteration follows the order in which keys were first set. */
module OrderedMaps {
  import opened Graphs

  datatype OrderedMap<K, V> = OrderedMap(keys: seq<K>, entries: map<K, V>)

  function Empty<K, V>(): OrderedMap<K, V> {
    OrderedMap([], map[])
  }

  ghost predicate Unique<K(!new)>(s: seq<K>) {
    s == [] || (s[|s| - 1] !in s[..|s| - 1] && Unique(s[..|s| - 1]))
  }

  ghost predicate Valid<K(!new), V>(m: OrderedMap<K, V>) {
    Unique(m.keys) && forall k :: k in m.keys <==> k in m.entries
  }

  function Set<K(==), V>(m: OrderedMap<K, V>, k: K, v: V): OrderedMap<K, V> {
    OrderedMap(if k in m.entries then m.keys else m.keys + [k], m.entries[k := v])
  }

  lemma SetKeepsValid<K(!new), V>(m: OrderedMap<K, V>, k: K, v: V)
    requires Valid(m)
    ensures Valid(Set(m, k, v)) && Set(m, k, v).entries == m.entries[k := v]
  {
    if k !in m.entries {
      assert (m.keys + [k])[..|m.keys|] == m.keys;
    }
  }

  lemma {:induction false} UniqueIsDistinct<K(!new)>(s: seq<K>)
    requires Unique(s)
    ensures Distinct(s)
  {
    if s != [] {
      var front := s[..|s| - 1];
      UniqueIsDistinct(front);
      forall i, j | 0 <= i < j < |s| ensures s[i] != s[j] {
        assert j < |s| - 1 ==> front[i] != front[j];
        assert front[i] in front;
      }
    }
  }
}
