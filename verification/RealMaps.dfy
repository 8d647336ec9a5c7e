/** Maps to real numbers, and the sum of their values. */
module RealMaps {

  /** Conversion to an integer drops the fraction. */
  function ToInt(x: real): int {
    if x >= 0.0 then x.Floor else -(-x).Floor
  }

  function Get<K>(m: map<K, real>, key: K): real {
    if key in m then m[key] else 0.0
  }

  ghost function Total<K(!new)>(m: map<K, real>): real {
    if m == map[] then 0.0 else var k :| k in m; m[k] + Total(m - {k})
  }

  lemma {:induction false} TotalRemove<K(!new)>(m: map<K, real>, key: K)
    requires key in m
    ensures Total(m) == m[key] + Total(m - {key})
    decreases |m|
  {
    var k :| k in m && Total(m) == m[k] + Total(m - {k});
    if k != key {
      TotalRemove(m - {k}, key);
      TotalRemove(m - {key}, k);
      assert m - {k} - {key} == m - {key} - {k};
    }
  }

  lemma TotalAdd<K(!new)>(m: map<K, real>, key: K, x: real)
    ensures Total(m[key := Get(m, key) + x]) == Total(m) + x
  {
    var m' := m[key := Get(m, key) + x];
    TotalRemove(m', key);
    assert m' - {key} == m - {key};
    if key in m {
      TotalRemove(m, key);
    } else {
      assert m - {key} == m;
    }
  }

  lemma {:induction false} TotalUnion<K(!new)>(a: map<K, real>, b: map<K, real>)
    requires a.Keys !! b.Keys
    ensures Total(a + b) == Total(a) + Total(b)
    decreases |b|
  {
    if b == map[] {
      assert a + b == a;
    } else {
      var k :| k in b;
      hide Total;
      assert (a + b) - {k} == a + (b - {k});
      TotalUnion(a, b - {k});
      TotalRemove(a + b, k);
      TotalRemove(b, k);
    }
  }

  /** Some member of a set that has one. */
  lemma HasMember<K(!new)>(s: set<K>) returns (member: K)
    requires |s| > 0
    ensures member in s
  {
    member :| member in s;
  }
}
