/** JavaScript's `Map` as the aggregations use it: entries in insertion order, `get` and `set`,
    where `set` of a present key replaces its value in place and a new key goes to the end. */
module JsMap {
  import opened Wrappers
  import opened Sums

  datatype Entry<K, V> = Entry(key: K, value: V)

  function Keys<K, V>(m: seq<Entry<K, V>>): (ks: seq<K>)
    ensures |ks| == |m| && forall i :: 0 <= i < |m| ==> ks[i] == m[i].key
  {
    if m == [] then [] else [m[0].key] + Keys(m[1..])
  }

  /** No key occurs twice. */
  predicate DistinctKeys<K(==), V>(m: seq<Entry<K, V>>) {
    forall i, j :: 0 <= i < j < |m| ==> m[i].key != m[j].key
  }

  /** `map.get(k)`: the value stored for `k`, or none. */
  function Get<K(==), V>(m: seq<Entry<K, V>>, k: K): Option<V> {
    if m == [] then None
    else if m[0].key == k then Some(m[0].value)
    else Get(m[1..], k)
  }

  /** `get(k)` finds something exactly when `k` is a key, and what it finds is stored under `k`. */
  lemma {:induction false} GetFinds<K, V>(m: seq<Entry<K, V>>, k: K)
    ensures Get(m, k).None? <==> k !in Keys(m)
    ensures Get(m, k).Some? ==> exists i :: 0 <= i < |m| && m[i] == Entry(k, Get(m, k).value)
  {
    if m != [] {
      GetFinds(m[1..], k);
      assert Keys(m) == [m[0].key] + Keys(m[1..]);
      if m[0].key != k && Get(m, k).Some? {
        var i :| 0 <= i < |m[1..]| && m[1..][i] == Entry(k, Get(m, k).value);
        assert m[i + 1] == m[1..][i];
      }
    }
  }

  /** `map.set(k, v)`. */
  function Set<K(==), V>(m: seq<Entry<K, V>>, k: K, v: V): seq<Entry<K, V>> {
    if m == [] then [Entry(k, v)]
    else if m[0].key == k then [Entry(k, v)] + m[1..]
    else [m[0]] + Set(m[1..], k, v)
  }

  /** `set` keeps the keys and their order, and appends a key it did not have. */
  lemma {:induction false} SetKeys<K, V>(m: seq<Entry<K, V>>, k: K, v: V)
    ensures Keys(Set(m, k, v)) == if k in Keys(m) then Keys(m) else Keys(m) + [k]
  {
    if m != [] {
      assert Keys(m) == [m[0].key] + Keys(m[1..]);
      if m[0].key != k {
        SetKeys(m[1..], k, v);
        assert Keys(Set(m, k, v)) == [m[0].key] + Keys(Set(m[1..], k, v));
      } else {
        assert Keys(Set(m, k, v)) == [k] + Keys(m[1..]);
      }
    }
  }

  lemma {:induction false} SetKeepsKeysDistinct<K, V>(m: seq<Entry<K, V>>, k: K, v: V)
    requires DistinctKeys(m)
    ensures DistinctKeys(Set(m, k, v))
  {
    if m != [] {
      var r, tail := Set(m, k, v), m[1..];
      assert forall i :: 0 <= i < |tail| ==> tail[i] == m[i + 1];
      if m[0].key == k {
        assert r == [Entry(k, v)] + tail;
        forall i, j | 0 <= i < j < |r| ensures r[i].key != r[j].key {
          assert r[i].key == m[i].key && r[j].key == m[j].key;
        }
      } else {
        var rest := Set(tail, k, v);
        SetKeepsKeysDistinct(tail, k, v);
        SetKeys(tail, k, v);
        assert r == [m[0]] + rest;
        assert m[0].key !in Keys(tail);
        forall i, j | 0 <= i < j < |r| ensures r[i].key != r[j].key {
          assert r[j] == rest[j - 1] && Keys(rest)[j - 1] == rest[j - 1].key;
          if i > 0 {
            assert r[i] == rest[i - 1];
          }
        }
      }
    }
  }

  /** After `set(k, v)`, `get(k)` is `v` and every other key reads as before. */
  lemma {:induction false} GetAfterSet<K, V>(m: seq<Entry<K, V>>, k: K, v: V, k': K)
    ensures Get(Set(m, k, v), k') == if k' == k then Some(v) else Get(m, k')
  {
    if m != [] && m[0].key != k {
      GetAfterSet(m[1..], k, v, k');
    }
  }

  /** With distinct keys, every entry is what `get` reads for its key. */
  lemma {:induction false} GetEntry<K, V>(m: seq<Entry<K, V>>, i: nat)
    requires DistinctKeys(m) && i < |m|
    ensures Get(m, m[i].key) == Some(m[i].value)
  {
    if i > 0 {
      assert m[1..][i - 1] == m[i];
      GetEntry(m[1..], i - 1);
    }
  }

  /** `set(k, v)` changes a sum over the entries by the difference between the new entry and the one it replaces. */
  lemma {:induction false} SumAfterSet<K, V>(m: seq<Entry<K, V>>, k: K, v: V, w: Entry<K, V> -> real)
    requires DistinctKeys(m)
    ensures SumOf(Set(m, k, v), w)
      == SumOf(m, w) - (match Get(m, k) case Some(prev) => w(Entry(k, prev)) case None => 0.0) + w(Entry(k, v))
  {
    if m == [] {
    } else if m[0].key == k {
      assert ([Entry(k, v)] + m[1..])[1..] == m[1..];
    } else {
      SumAfterSet(m[1..], k, v, w);
      assert ([m[0]] + Set(m[1..], k, v))[1..] == Set(m[1..], k, v);
    }
  }

  lemma {:induction false} CountAfterSet<K, V>(m: seq<Entry<K, V>>, k: K, v: V, w: Entry<K, V> -> int)
    requires DistinctKeys(m)
    ensures SumInt(Set(m, k, v), w)
      == SumInt(m, w) - (match Get(m, k) case Some(prev) => w(Entry(k, prev)) case None => 0) + w(Entry(k, v))
  {
    if m == [] {
    } else if m[0].key == k {
      assert ([Entry(k, v)] + m[1..])[1..] == m[1..];
    } else {
      CountAfterSet(m[1..], k, v, w);
      assert ([m[0]] + Set(m[1..], k, v))[1..] == Set(m[1..], k, v);
    }
  }
}
