/** Insertion-ordered maps (JavaScript's `Map`, and the option list of the gate's parser): a key set
    again keeps its place, a new key goes to the end, a deleted key loses its place. */
module Assoc {
  import opened Wrappers

  type Assoc<K, V> = seq<(K, V)>

  function Keys<K, V>(m: Assoc<K, V>): seq<K> {
    if m == [] then [] else [m[0].0] + Keys(m[1..])
  }

  function Get<K(==), V>(m: Assoc<K, V>, k: K): Option<V> {
    if m == [] then None
    else if m[0].0 == k then Some(m[0].1)
    else Get(m[1..], k)
  }

  predicate Has<K(==), V>(m: Assoc<K, V>, k: K) {
    Get(m, k).Some?
  }

  function Put<K(==), V>(m: Assoc<K, V>, k: K, v: V): Assoc<K, V> {
    if m == [] then [(k, v)]
    else if m[0].0 == k then [(k, v)] + m[1..]
    else [m[0]] + Put(m[1..], k, v)
  }

  function Delete<K(==), V>(m: Assoc<K, V>, k: K): Assoc<K, V> {
    if m == [] then []
    else if m[0].0 == k then Delete(m[1..], k)
    else [m[0]] + Delete(m[1..], k)
  }

  /** No key twice: what every sequence of puts and deletes keeps. */
  ghost predicate Distinct<K, V>(m: Assoc<K, V>) {
    m != [] ==> !Has(m[1..], m[0].0) && Distinct(m[1..])
  }

  lemma {:induction false} GetPut<K, V>(m: Assoc<K, V>, k: K, v: V, other: K)
    ensures Get(Put(m, k, v), other) == if other == k then Some(v) else Get(m, other)
  {
    if m != [] && m[0].0 != k {
      GetPut(m[1..], k, v, other);
    }
  }

  lemma {:induction false} GetDelete<K, V>(m: Assoc<K, V>, k: K, other: K)
    ensures Get(Delete(m, k), other) == if other == k then None else Get(m, other)
  {
    if m != [] {
      GetDelete(m[1..], k, other);
    }
  }

  lemma {:induction false} HasIffListed<K, V>(m: Assoc<K, V>, k: K)
    ensures Has(m, k) <==> k in Keys(m)
    ensures Has(m, k) ==> (k, Get(m, k).value) in m
  {
    if m != [] {
      HasIffListed(m[1..], k);
    }
  }

  lemma {:induction false} GetListed<K, V>(m: Assoc<K, V>, i: nat)
    requires Distinct(m) && i < |m|
    ensures Get(m, m[i].0) == Some(m[i].1)
  {
    if i > 0 {
      GetListed(m[1..], i - 1);
    }
  }

  lemma {:induction false} PutKeys<K, V>(m: Assoc<K, V>, k: K, v: V)
    ensures Keys(Put(m, k, v)) == if Has(m, k) then Keys(m) else Keys(m) + [k]
  {
    if m != [] {
      if m[0].0 != k {
        PutKeys(m[1..], k, v);
      }
    }
  }

  lemma {:induction false} PutDistinct<K, V>(m: Assoc<K, V>, k: K, v: V)
    requires Distinct(m)
    ensures Distinct(Put(m, k, v))
  {
    if m != [] && m[0].0 != k {
      PutDistinct(m[1..], k, v);
      GetPut(m[1..], k, v, m[0].0);
    }
  }

  lemma {:induction false} DeleteDistinct<K, V>(m: Assoc<K, V>, k: K)
    requires Distinct(m)
    ensures Distinct(Delete(m, k))
  {
    if m != [] {
      DeleteDistinct(m[1..], k);
      GetDelete(m[1..], k, m[0].0);
    }
  }

  lemma {:induction false} PutTwice<K, V>(m: Assoc<K, V>, k: K, v: V, w: V)
    ensures Put(Put(m, k, v), k, w) == Put(m, k, w)
  {
    if m != [] && m[0].0 != k {
      PutTwice(m[1..], k, v, w);
    }
  }

  lemma {:induction false} PutSame<K, V>(m: Assoc<K, V>, k: K)
    requires Has(m, k)
    ensures Put(m, k, Get(m, k).value) == m
  {
    if m[0].0 != k {
      PutSame(m[1..], k);
    }
  }

  /** Setting a key that is already there does not care what other keys are set around it. */
  lemma {:induction false} PutCommutes<K, V>(m: Assoc<K, V>, k: K, v: V, l: K, w: V)
    requires k != l && Has(m, k)
    ensures Put(Put(m, l, w), k, v) == Put(Put(m, k, v), l, w)
  {
    if m[0].0 != k && m[0].0 != l {
      PutCommutes(m[1..], k, v, l, w);
    }
  }

  lemma {:induction false} DeleteNone<K, V>(m: Assoc<K, V>, k: K)
    requires !Has(m, k)
    ensures Delete(m, k) == m
  {
    if m != [] {
      DeleteNone(m[1..], k);
    }
  }

  /** With no key twice, deleting a key cuts out its one entry. */
  lemma {:induction false} DeleteAt<K, V>(m: Assoc<K, V>, i: nat)
    requires Distinct(m) && i < |m|
    ensures Delete(m, m[i].0) == m[..i] + m[i + 1..]
  {
    if i == 0 {
      DeleteNone(m[1..], m[0].0);
    } else {
      DeleteAt(m[1..], i - 1);
      GetListed(m[1..], i - 1);
      assert m[1..][..i - 1] == m[1..i];
      assert m[..i] == [m[0]] + m[1..i];
    }
  }
}
