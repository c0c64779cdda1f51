/** How many keys of a map refer to a value. */
module Counting {
  ghost function Refs<K, V>(m: map<K, V>, v: V): nat {
    |set k | k in m && m[k] == v|
  }

  lemma RefsInsert<K, V>(m: map<K, V>, k: K, w: V, v: V)
    requires k !in m
    ensures Refs(m[k := w], v) == Refs(m, v) + (if w == v then 1 else 0)
  {
    var before := set x | x in m && m[x] == v;
    var m' := m[k := w];
    var after := set x | x in m' && m'[x] == v;
    assert after == if w == v then before + {k} else before;
  }

  lemma RefsRemove<K, V>(m: map<K, V>, k: K, v: V)
    requires k in m
    ensures Refs(m - {k}, v) == Refs(m, v) - (if m[k] == v then 1 else 0)
  {
    var before := set x | x in m && m[x] == v;
    var m' := m - {k};
    var after := set x | x in m' && m'[x] == v;
    assert after == before - {k};
  }

  lemma RefsPositive<K, V>(m: map<K, V>, v: V)
    ensures Refs(m, v) > 0 <==> v in m.Values
  {
    var keys := set x | x in m && m[x] == v;
    if v in m.Values {
      var k :| k in m && m[k] == v;
      assert k in keys;
    } else {
      assert keys == {};
    }
  }
}
