/** A map and its inverse kept in step. */
module TwoWayIndex {

  ghost predicate Inverse<K, V>(m: map<K, V>, r: map<V, K>)
  {
    && (forall k :: k in m ==> m[k] in r && r[m[k]] == k)
    && (forall v :: v in r ==> r[v] in m && m[r[v]] == v)
  }

  function Release<K, V>(m: map<K, V>, r: map<V, K>, key: K): map<V, K>
  {
    if key in m then r - {m[key]} else r
  }

  lemma Unique<K, V>(m: map<K, V>, a: map<V, K>, b: map<V, K>)
    requires Inverse(m, a) && Inverse(m, b)
    ensures a == b
  {
    assert forall v :: v in a ==> m[a[v]] == v;
    assert forall v :: v in b ==> m[b[v]] == v;
    assert a.Keys == b.Keys;
  }

  lemma SetKeeps<K, V>(m: map<K, V>, r: map<V, K>, key: K, v: V)
    requires Inverse(m, r) && (v in r ==> r[v] == key)
    ensures Inverse(m[key := v], Release(m, r, key)[v := key])
  {
  }

  lemma RemoveKeeps<K, V>(m: map<K, V>, r: map<V, K>, key: K)
    requires Inverse(m, r)
    ensures Inverse(m - {key}, Release(m, r, key))
  {
  }

  ghost predicate Injective<K, V>(m: map<K, V>)
  {
    forall j, k :: j in m && k in m && m[j] == m[k] ==> j == k
  }

  /** The inverse that a scan in this order builds; the first key of a value wins. */
  function Scan<K, V>(m: map<K, V>, order: seq<K>): map<V, K>
    requires forall k :: k in order ==> k in m
  {
    if order == [] then map[]
    else
      var done, key := Scan(m, order[..|order| - 1]), order[|order| - 1];
      if m[key] in done then done else done[m[key] := key]
  }

  ghost predicate PartInverse<K, V>(m: map<K, V>, order: seq<K>, r: map<V, K>)
  {
    && (forall k :: k in order ==> k in m && m[k] in r && r[m[k]] == k)
    && (forall v :: v in r ==> r[v] in order && r[v] in m && m[r[v]] == v)
  }

  lemma {:induction false} ScanInverts<K, V>(m: map<K, V>, order: seq<K>)
    requires Injective(m) && forall k :: k in order ==> k in m
    ensures PartInverse(m, order, Scan(m, order))
  {
    if order != [] {
      ScanInverts(m, order[..|order| - 1]);
      ScanOne(m, order[..|order| - 1], order[|order| - 1], Scan(m, order[..|order| - 1]));
      assert order == order[..|order| - 1] + [order[|order| - 1]];
    }
  }

  lemma ScanOne<K, V>(m: map<K, V>, front: seq<K>, last: K, done: map<V, K>)
    requires Injective(m) && last in m && PartInverse(m, front, done)
    ensures PartInverse(m, front + [last], if m[last] in done then done else done[m[last] := last])
  {
  }

  lemma InverseInjective<K, V>(m: map<K, V>, r: map<V, K>)
    requires Inverse(m, r)
    ensures Injective(m)
  {
  }

  lemma InjectiveBelow<K, V>(m: map<K, V>, dead: set<K>)
    requires Injective(m)
    ensures Injective(m - dead)
  {
  }

  /** Scanning all keys, in any order, gives the one inverse. */
  lemma ScanIsInverse<K, V>(m: map<K, V>, order: seq<K>)
    requires Injective(m) && forall k :: k in m <==> k in order
    ensures Inverse(m, Scan(m, order))
  {
    ScanInverts(m, order);
  }
}
