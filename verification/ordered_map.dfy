/**
 * A JavaScript `Map`: keys in insertion order. `Put` on a known key keeps its place; a new key goes last.
 */
module OrderedMap {
  import opened Common

  type Pairs<K, V> = seq<(K, V)>

  function Get<K(==), V>(m: Pairs<K, V>, k: K): Option<V> {
    if m == [] then None else if m[0].0 == k then Some(m[0].1) else Get(m[1..], k)
  }

  predicate Has<K(==), V>(m: Pairs<K, V>, k: K) {
    Get(m, k).Some?
  }

  function Put<K(==), V>(m: Pairs<K, V>, k: K, v: V): Pairs<K, V> {
    if m == [] then [(k, v)]
    else if m[0].0 == k then [(k, v)] + m[1..]
    else [m[0]] + Put(m[1..], k, v)
  }

  function Delete<K(==), V>(m: Pairs<K, V>, k: K): Pairs<K, V> {
    if m == [] then [] else if m[0].0 == k then m[1..] else [m[0]] + Delete(m[1..], k)
  }

  /** No key occurs twice. */
  ghost predicate Unique<K, V>(m: Pairs<K, V>) {
    m == [] || (!Has(m[1..], m[0].0) && Unique(m[1..]))
  }

  lemma {:induction false} GetPut<K, V>(m: Pairs<K, V>, k: K, v: V, x: K)
    ensures Get(Put(m, k, v), x) == if x == k then Some(v) else Get(m, x)
  {
    if m != [] && m[0].0 != k {
      GetPut(m[1..], k, v, x);
    }
  }

  lemma {:induction false} PutUnique<K, V>(m: Pairs<K, V>, k: K, v: V)
    requires Unique(m)
    ensures Unique(Put(m, k, v))
  {
    if m != [] && m[0].0 != k {
      PutUnique(m[1..], k, v);
      GetPut(m[1..], k, v, m[0].0);
    }
  }

  lemma {:induction false} GetDelete<K, V>(m: Pairs<K, V>, k: K, x: K)
    requires Unique(m)
    ensures Get(Delete(m, k), x) == if x == k then None else Get(m, x)
  {
    if m != [] && m[0].0 != k {
      GetDelete(m[1..], k, x);
    }
  }

  lemma {:induction false} DeleteUnique<K, V>(m: Pairs<K, V>, k: K)
    requires Unique(m)
    ensures Unique(Delete(m, k))
  {
    if m != [] && m[0].0 != k {
      DeleteUnique(m[1..], k);
      GetDelete(m[1..], k, m[0].0);
    }
  }

  lemma {:induction false} GetAppend<K, V>(a: Pairs<K, V>, b: Pairs<K, V>, x: K)
    ensures Get(a + b, x) == if Has(a, x) then Get(a, x) else Get(b, x)
  {
    if a == [] {
      assert a + b == b;
    } else {
      assert (a + b)[1..] == a[1..] + b;
      GetAppend(a[1..], b, x);
    }
  }

  lemma {:induction false} AppendUnique<K, V>(m: Pairs<K, V>, k: K, v: V)
    requires Unique(m) && !Has(m, k)
    ensures Unique(m + [(k, v)])
  {
    if m != [] {
      assert (m + [(k, v)])[1..] == m[1..] + [(k, v)];
      AppendUnique(m[1..], k, v);
      GetAppend(m[1..], [(k, v)], m[0].0);
    }
  }

  lemma {:induction false} PutNew<K, V>(m: Pairs<K, V>, k: K, v: V)
    requires !Has(m, k)
    ensures Put(m, k, v) == m + [(k, v)]
  {
    if m != [] {
      PutNew(m[1..], k, v);
    }
  }

  lemma {:induction false} GetAt<K, V>(m: Pairs<K, V>, i: nat)
    requires Unique(m) && i < |m|
    ensures Get(m, m[i].0) == Some(m[i].1)
  {
    if i > 0 {
      GetAt(m[1..], i - 1);
    }
  }

  lemma {:induction false} FindGet<K, V>(m: Pairs<K, V>, k: K) returns (i: nat)
    requires Has(m, k)
    ensures i < |m| && m[i].0 == k && Get(m, k) == Some(m[i].1)
  {
    if m[0].0 == k {
      i := 0;
    } else {
      i := FindGet(m[1..], k);
      i := i + 1;
    }
  }

  lemma {:induction false} PutAt<K, V>(m: Pairs<K, V>, i: nat, v: V)
    requires Unique(m) && i < |m|
    ensures Put(m, m[i].0, v) == m[..i] + [(m[i].0, v)] + m[i + 1..]
  {
    if i > 0 {
      GetAt(m[1..], i - 1);
      PutAt(m[1..], i - 1, v);
      assert m[..i] == [m[0]] + m[1..][..i - 1];
    }
  }

  lemma {:induction false} DeleteAt<K, V>(m: Pairs<K, V>, i: nat)
    requires Unique(m) && i < |m|
    ensures Delete(m, m[i].0) == m[..i] + m[i + 1..]
  {
    if i > 0 {
      GetAt(m[1..], i - 1);
      DeleteAt(m[1..], i - 1);
      assert m[..i] == [m[0]] + m[1..][..i - 1];
    }
  }

  /** The pairs that satisfy the predicate, in their order. */
  function Where<K, V>(m: Pairs<K, V>, p: (K, V) -> bool): Pairs<K, V> {
    if m == [] then [] else (if p(m[0].0, m[0].1) then [m[0]] else []) + Where(m[1..], p)
  }

  lemma {:induction false} GetWhere<K, V>(m: Pairs<K, V>, p: (K, V) -> bool, k: K)
    requires Unique(m)
    ensures Get(Where(m, p), k) ==
            match Get(m, k) case Some(v) => if p(k, v) then Some(v) else None case None => None
  {
    if m != [] {
      var rest := Where(m[1..], p);
      assert ([m[0]] + rest)[1..] == rest && [] + rest == rest;
      GetWhere(m[1..], p, k);
    }
  }

  lemma {:induction false} WhereUnique<K, V>(m: Pairs<K, V>, p: (K, V) -> bool)
    requires Unique(m)
    ensures Unique(Where(m, p))
  {
    if m != [] {
      var rest := Where(m[1..], p);
      assert ([m[0]] + rest)[1..] == rest && [] + rest == rest;
      WhereUnique(m[1..], p);
      GetWhere(m[1..], p, m[0].0);
    }
  }
}
