// Insertion-ordered dictionaries, as the gateway's language has them: updating a
// present key keeps its place, a new key goes last, and a search by value returns
// the first key that holds it.
module PyDict {
  import opened Options

  type Dict<K, V> = seq<(K, V)>

  function Keys<K, V>(d: Dict<K, V>): (ks: seq<K>)
    ensures |ks| == |d|
    ensures forall i | 0 <= i < |d| :: ks[i] == d[i].0
  {
    if d == [] then [] else Keys(d[..|d| - 1]) + [d[|d| - 1].0]
  }

  predicate Unique<K(==), V>(d: Dict<K, V>) {
    d == [] || (d[|d| - 1].0 !in Keys(d[..|d| - 1]) && Unique(d[..|d| - 1]))
  }

  function Get<K(==), V>(d: Dict<K, V>, k: K): (r: Option<V>)
    ensures r.Some? <==> k in Keys(d)
  {
    if d == [] then None
    else if d[|d| - 1].0 == k then Some(d[|d| - 1].1)
    else Get(d[..|d| - 1], k)
  }

  function Replace<K(==), V>(d: Dict<K, V>, k: K, v: V): (r: Dict<K, V>)
    ensures Keys(r) == Keys(d)
  {
    if d == [] then []
    else if d[|d| - 1].0 == k then d[..|d| - 1] + [(k, v)]
    else Replace(d[..|d| - 1], k, v) + [d[|d| - 1]]
  }

  function Put<K(==), V>(d: Dict<K, V>, k: K, v: V): Dict<K, V> {
    if k in Keys(d) then Replace(d, k, v) else d + [(k, v)]
  }

  function Remove<K(==), V>(d: Dict<K, V>, k: K): Dict<K, V> {
    if d == [] then []
    else if d[|d| - 1].0 == k then Remove(d[..|d| - 1], k)
    else Remove(d[..|d| - 1], k) + [d[|d| - 1]]
  }

  // dictionary.update(other)
  function Update<K(==), V>(d: Dict<K, V>, other: Dict<K, V>): Dict<K, V> {
    if other == [] then d
    else Put(Update(d, other[..|other| - 1]), other[|other| - 1].0, other[|other| - 1].1)
  }

  // The first key whose value is v.
  function KeyByValue<K, V(==)>(d: Dict<K, V>, v: V): Option<K> {
    if d == [] then None
    else if KeyByValue(d[..|d| - 1], v).Some? then KeyByValue(d[..|d| - 1], v)
    else if d[|d| - 1].1 == v then Some(d[|d| - 1].0)
    else None
  }

  // The value left by a write `a` followed by a write `b`, None meaning no write.
  function Over<T>(a: Option<T>, b: Option<T>): Option<T> {
    if b.Some? then b else a
  }

  lemma GetSnoc<K, V>(d: Dict<K, V>, k: K, v: V, x: K)
    ensures Get(d + [(k, v)], x) == if x == k then Some(v) else Get(d, x)
  {
    assert (d + [(k, v)])[..|d|] == d;
  }

  lemma KeysSnoc<K, V>(d: Dict<K, V>, p: (K, V))
    ensures Keys(d + [p]) == Keys(d) + [p.0]
  {
    assert (d + [p])[..|d|] == d;
  }

  lemma {:induction false} ReplaceGet<K, V>(d: Dict<K, V>, k: K, v: V, x: K)
    ensures Get(Replace(d, k, v), x) == if x == k && k in Keys(d) then Some(v) else Get(d, x)
  {
    if d != [] {
      var n := |d| - 1;
      ReplaceGet(d[..n], k, v, x);
      KeysSnoc(d[..n], d[n]);
      assert d == d[..n] + [d[n]];
      if d[n].0 == k {
        GetSnoc(d[..n], k, v, x);
      } else {
        GetSnoc(Replace(d[..n], k, v), d[n].0, d[n].1, x);
      }
    }
  }

  // Where a key occurs last is where it is looked up and replaced.
  lemma {:induction false} GetAt<K, V>(d: Dict<K, V>, k: K, at: nat)
    requires at < |d| && d[at].0 == k && forall m | at < m < |d| :: d[m].0 != k
    ensures Get(d, k) == Some(d[at].1)
  {
    if at < |d| - 1 { GetAt(d[..|d| - 1], k, at); }
  }

  lemma {:induction false} ReplaceAt<K, V>(d: Dict<K, V>, k: K, v: V, at: nat)
    requires at < |d| && d[at].0 == k && forall m | at < m < |d| :: d[m].0 != k
    ensures Replace(d, k, v) == d[at := (k, v)]
  {
    hide Keys, Get;
    var n := |d| - 1;
    if at < n {
      ReplaceAt(d[..n], k, v, at);
      UpdateSnoc(d, at, (k, v));
    } else {
      assert d[..n] + [(k, v)] == d[at := (k, v)];
    }
  }

  lemma UpdateSnoc<T>(s: seq<T>, at: nat, x: T)
    requires at < |s| - 1
    ensures s[..|s| - 1][at := x] + [s[|s| - 1]] == s[at := x]
  {}

  lemma PutGet<K, V>(d: Dict<K, V>, k: K, v: V, x: K)
    ensures Get(Put(d, k, v), x) == if x == k then Some(v) else Get(d, x)
  {
    ReplaceGet(d, k, v, x);
    GetSnoc(d, k, v, x);
  }

  lemma PutKeys<K, V>(d: Dict<K, V>, k: K, v: V)
    ensures Keys(Put(d, k, v)) == if k in Keys(d) then Keys(d) else Keys(d) + [k]
  {
    KeysSnoc(d, (k, v));
  }

  lemma {:induction false} UpdateGet<K, V>(d: Dict<K, V>, other: Dict<K, V>, x: K)
    ensures Get(Update(d, other), x) == Over(Get(d, x), Get(other, x))
  {
    if other != [] {
      var n := |other| - 1;
      UpdateGet(d, other[..n], x);
      PutGet(Update(d, other[..n]), other[n].0, other[n].1, x);
    }
  }

  lemma {:induction false} UniqueByKeys<K, V>(a: Dict<K, V>, b: Dict<K, V>)
    requires Keys(a) == Keys(b)
    ensures Unique(a) == Unique(b)
  {
    if a != [] {
      assert Keys(a[..|a| - 1]) == Keys(a)[..|a| - 1] == Keys(b[..|b| - 1]);
      UniqueByKeys(a[..|a| - 1], b[..|b| - 1]);
    }
  }

  lemma PutKeepsUnique<K, V>(d: Dict<K, V>, k: K, v: V)
    requires Unique(d)
    ensures Unique(Put(d, k, v))
  {
    UniqueByKeys(Replace(d, k, v), d);
    assert (d + [(k, v)])[..|d|] == d;
  }

  lemma {:induction false} RemoveGet<K, V>(d: Dict<K, V>, k: K, x: K)
    ensures Get(Remove(d, k), x) == if x == k then None else Get(d, x)
  {
    if d != [] {
      var n := |d| - 1;
      RemoveGet(d[..n], k, x);
      GetSnoc(Remove(d[..n], k), d[n].0, d[n].1, x);
    }
  }

  lemma {:induction false} RemoveKeepsUnique<K, V>(d: Dict<K, V>, k: K)
    requires Unique(d)
    ensures Unique(Remove(d, k))
  {
    if d != [] {
      var n := |d| - 1;
      RemoveKeepsUnique(d[..n], k);
      RemoveGet(d[..n], k, d[n].0);
      assert (Remove(d[..n], k) + [d[n]])[..|Remove(d[..n], k)|] == Remove(d[..n], k);
    }
  }

  lemma {:induction false} KeyByValueFinds<K, V>(d: Dict<K, V>, v: V)
    requires Unique(d)
    ensures KeyByValue(d, v).Some? ==> Get(d, KeyByValue(d, v).value) == Some(v)
  {
    if d != [] {
      KeyByValueFinds(d[..|d| - 1], v);
    }
  }

  lemma {:induction false} KeyByValueMisses<K, V>(d: Dict<K, V>, v: V, x: K)
    requires Get(d, x) == Some(v)
    ensures KeyByValue(d, v).Some?
  {
    if d[|d| - 1].0 != x { KeyByValueMisses(d[..|d| - 1], v, x); }
  }

  // The search by value finds the first key that holds it.
  lemma {:induction false} KeyByValueIsFirst<K, V>(d: Dict<K, V>, v: V, at: nat)
    requires at < |d| && d[at].1 == v && forall m | 0 <= m < at :: d[m].1 != v
    ensures KeyByValue(d, v) == Some(d[at].0)
  {
    var n := |d| - 1;
    if at < n { KeyByValueIsFirst(d[..n], v, at); } else { NoKey(d[..n], v); }
  }

  lemma {:induction false} NoKey<K, V>(d: Dict<K, V>, v: V)
    requires forall m | 0 <= m < |d| :: d[m].1 != v
    ensures KeyByValue(d, v) == None
  {
    if d != [] { NoKey(d[..|d| - 1], v); }
  }
}
