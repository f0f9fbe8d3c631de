/** A JavaScript Map from key(v) to v, as the sequence of its values in iteration order:
    setting an existing key keeps its place, a new key goes to the end. */
module InsertionMap {
  import opened Wrappers

  /** map.set(key(v), v) */
  function Put<K(==), V>(key: V -> K, m: seq<V>, v: V): seq<V> {
    if m == [] then [v]
    else if key(m[0]) == key(v) then [v] + m[1..]
    else [m[0]] + Put(key, m[1..], v)
  }

  function PutAll<K(==), V>(key: V -> K, m: seq<V>, vs: seq<V>): seq<V>
    decreases vs
  {
    if vs == [] then m else PutAll(key, Put(key, m, vs[0]), vs[1..])
  }

  /** map.get(k) */
  function Get<K(==), V>(key: V -> K, m: seq<V>, k: K): Option<V> {
    if m == [] then None else if key(m[0]) == k then Some(m[0]) else Get(key, m[1..], k)
  }

  /** The last value in a list that has the key. */
  function Last<K(==), V>(key: V -> K, vs: seq<V>, k: K): Option<V> {
    if vs == [] then None
    else if key(vs[|vs| - 1]) == k then Some(vs[|vs| - 1])
    else Last(key, vs[..|vs| - 1], k)
  }

  predicate DistinctKeys<K(==), V>(key: V -> K, m: seq<V>) {
    forall i, j :: 0 <= i < j < |m| ==> key(m[i]) != key(m[j])
  }

  lemma {:induction false} GetPut<K, V>(key: V -> K, m: seq<V>, v: V, k: K)
    ensures Get(key, Put(key, m, v), k) == if k == key(v) then Some(v) else Get(key, m, k)
  {
    if m == [] {
    } else {
      GetPut(key, m[1..], v, k);
      assert Put(key, m, v)[1..] == if key(m[0]) == key(v) then m[1..] else Put(key, m[1..], v);
    }
  }

  /** Filling a map from a list: the last occurrence of a key wins. */
  lemma {:induction false} GetPutAll<K, V>(key: V -> K, m: seq<V>, vs: seq<V>, k: K)
    ensures Get(key, PutAll(key, m, vs), k) == if Last(key, vs, k).Some? then Last(key, vs, k) else Get(key, m, k)
    decreases vs
  {
    if vs == [] {
    } else {
      GetPutAll(key, Put(key, m, vs[0]), vs[1..], k);
      GetPut(key, m, vs[0], k);
      LastOfCons(key, vs, k);
    }
  }

  lemma {:induction false} LastOfCons<K, V>(key: V -> K, vs: seq<V>, k: K)
    requires vs != []
    ensures Last(key, vs, k) == if Last(key, vs[1..], k).Some? then Last(key, vs[1..], k)
                                else if key(vs[0]) == k then Some(vs[0]) else None
  {
    var n := |vs| - 1;
    if n > 0 && key(vs[n]) != k {
      LastOfCons(key, vs[..n], k);
      assert vs[..n][1..] == vs[1..][..n - 1];
    }
  }

  lemma {:induction false} GetNone<K, V>(key: V -> K, m: seq<V>, k: K)
    ensures Get(key, m, k).None? <==> forall i :: 0 <= i < |m| ==> key(m[i]) != k
  {
    if m == [] {
    } else {
      GetNone(key, m[1..], k);
      assert forall i :: 1 <= i < |m| ==> m[i] == m[1..][i - 1];
      assert forall i :: 0 <= i < |m| - 1 ==> m[1..][i] == m[i + 1];
    }
  }

  lemma {:induction false} PutKeepsDistinct<K, V>(key: V -> K, m: seq<V>, v: V)
    requires DistinctKeys(key, m)
    ensures DistinctKeys(key, Put(key, m, v))
  {
    if m != [] && key(m[0]) != key(v) {
      PutKeepsDistinct(key, m[1..], v);
      GetNone(key, m[1..], key(m[0]));
      GetPut(key, m[1..], v, key(m[0]));
      GetNone(key, Put(key, m[1..], v), key(m[0]));
    }
  }

  lemma {:induction false} PutAllKeepsDistinct<K, V>(key: V -> K, m: seq<V>, vs: seq<V>)
    requires DistinctKeys(key, m)
    ensures DistinctKeys(key, PutAll(key, m, vs))
    decreases vs
  {
    if vs == [] {
    } else {
      PutKeepsDistinct(key, m, vs[0]);
      PutAllKeepsDistinct(key, Put(key, m, vs[0]), vs[1..]);
    }
  }

  lemma {:induction false} PutNewKeyAppends<K, V>(key: V -> K, m: seq<V>, v: V)
    requires forall i :: 0 <= i < |m| ==> key(m[i]) != key(v)
    ensures Put(key, m, v) == m + [v]
  {
    if m == [] {
    } else {
      PutNewKeyAppends(key, m[1..], v);
    }
  }

  /** When no key repeats, filling a map from a list appends the list. */
  lemma {:induction false} PutAllDistinctAppends<K, V>(key: V -> K, m: seq<V>, vs: seq<V>)
    requires DistinctKeys(key, m + vs)
    ensures PutAll(key, m, vs) == m + vs
    decreases vs
  {
    if vs == [] {
      assert m + vs == m;
    } else {
      forall i | 0 <= i < |m| ensures key(m[i]) != key(vs[0]) {
        assert (m + vs)[i] == m[i] && (m + vs)[|m|] == vs[0];
      }
      PutNewKeyAppends(key, m, vs[0]);
      assert m + [vs[0]] + vs[1..] == m + vs;
      PutAllDistinctAppends(key, m + [vs[0]], vs[1..]);
    }
  }
}
