/** Bytes that a thread has taken out under one lock and not yet delivered under the next. */
module Hands {
  datatype Held<+T> = Nothing | Just(value: T)

  ghost predicate AtMostOne<K(!new), V>(m: map<K, V>)
  {
    forall j, k :: j in m && k in m ==> j == k
  }

  /** What is in hand when at most one thread holds anything. */
  ghost function Only<K(!new), V>(m: map<K, V>): Held<V>
  {
    if m == map[] then Nothing else var k :| k in m; Just(m[k])
  }

  lemma OnlyIs<K(!new), V>(m: map<K, V>, k: K)
    requires AtMostOne(m) && k in m
    ensures Only(m) == Just(m[k])
  {
  }

  lemma OnlyNone<K(!new), V>(m: map<K, V>)
    requires forall k :: k !in m
    ensures Only(m) == Nothing
  {
    assert m.Keys == {};
  }

  /** The thread that holds something is the only one, so without it nobody does. */
  lemma WithoutHolder<K(!new), V>(m: map<K, V>, k: K)
    requires AtMostOne(m) && k in m
    ensures m - {k} == map[]
  {
  }

  lemma FirstHolder<K(!new), V>(m: map<K, V>, k: K, v: V)
    requires AtMostOne(m[k := v]) && k !in m
    ensures m == map[] && Only(m[k := v]) == Just(v)
  {
    forall j ensures j !in m {
      assert j in m ==> j in m[k := v] && k in m[k := v];
    }
    OnlyNone(m);
    OnlyIs(m[k := v], k);
  }
}
