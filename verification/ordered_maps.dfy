/** Insertion-ordered maps, the model of a JavaScript `Map` and of a plain
    object used as a dictionary: `set` on a present key keeps its position,
    `set` on a new key appends it, `delete` removes it, and iteration
    (`Object.keys`, `Map.keys`) follows insertion order. */
module OrderedMaps {
  import opened Wrappers

  /** Entries in iteration order. */
  type OrderedMap<K, V> = seq<(K, V)>

  /** A well-formed map holds each key at most once. */
  predicate Wf<K(==), V>(m: OrderedMap<K, V>) {
    forall i, j :: 0 <= i < j < |m| ==> m[i].0 != m[j].0
  }

  /** The keys in iteration order (`Object.keys`, `Map.keys`). */
  function Keys<K, V>(m: OrderedMap<K, V>): (ks: seq<K>)
    ensures |ks| == |m|
    ensures forall i :: 0 <= i < |m| ==> ks[i] == m[i].0
  {
    if |m| == 0 then [] else [m[0].0] + Keys(m[1..])
  }

  /** The value stored under `k`, if any. */
  function Get<K(==), V>(m: OrderedMap<K, V>, k: K): (r: Option<V>)
    ensures r.Some? <==> k in Keys(m)
  {
    if |m| == 0 then None
    else if m[0].0 == k then Some(m[0].1)
    else Get(m[1..], k)
  }

  /** `map.set(k, v)`: overwrites in place, or appends a new key. */
  function Put<K(==), V>(m: OrderedMap<K, V>, k: K, v: V): OrderedMap<K, V>
  {
    if |m| == 0 then [(k, v)]
    else if m[0].0 == k then [(k, v)] + m[1..]
    else [m[0]] + Put(m[1..], k, v)
  }

  /** `delete map[k]`: drops the key, keeping the order of the others. */
  function Remove<K(==), V>(m: OrderedMap<K, V>, k: K): OrderedMap<K, V>
  {
    if |m| == 0 then []
    else if m[0].0 == k then Remove(m[1..], k)
    else [m[0]] + Remove(m[1..], k)
  }

  /** Keys of a prepended entry. */
  lemma KeysCons<K, V>(e: (K, V), m: OrderedMap<K, V>)
    ensures Keys([e] + m) == [e.0] + Keys(m)
  {
    assert ([e] + m)[1..] == m;
  }

  /** Setting a key keeps the key order, appending the key when it is new. */
  lemma {:induction false} PutKeys<K, V>(m: OrderedMap<K, V>, k: K, v: V)
    ensures Keys(Put(m, k, v)) == if k in Keys(m) then Keys(m) else Keys(m) + [k]
  {
    if |m| > 0 {
      KeysCons(m[0], m[1..]);
      if m[0].0 == k {
        KeysCons((k, v), m[1..]);
      } else {
        PutKeys(m[1..], k, v);
        KeysCons(m[0], Put(m[1..], k, v));
      }
    }
  }

  /** After setting `k` to `v`, `k` reads `v` and every other key reads as before. */
  lemma {:induction false} PutGet<K, V>(m: OrderedMap<K, V>, k: K, v: V, x: K)
    ensures Get(Put(m, k, v), x) == if x == k then Some(v) else Get(m, x)
  {
    if |m| > 0 && m[0].0 != k {
      PutGet(m[1..], k, v, x);
      assert (([m[0]] + Put(m[1..], k, v))[1..]) == Put(m[1..], k, v);
    } else if |m| > 0 {
      assert ([(k, v)] + m[1..])[1..] == m[1..];
    }
  }

  /** Well-formedness in terms of the key list. */
  lemma WfKeys<K, V>(m: OrderedMap<K, V>, m': OrderedMap<K, V>)
    requires Wf(m)
    requires Keys(m') == Keys(m)
    ensures Wf(m')
  {
    forall i, j | 0 <= i < j < |m'|
      ensures m'[i].0 != m'[j].0
    {
      assert m'[i].0 == Keys(m)[i] && m'[j].0 == Keys(m)[j];
    }
  }

  /** Setting a key never duplicates it. */
  lemma PutWf<K, V>(m: OrderedMap<K, V>, k: K, v: V)
    requires Wf(m)
    ensures Wf(Put(m, k, v))
  {
    var r := Put(m, k, v);
    PutKeys(m, k, v);
    if k in Keys(m) {
      WfKeys(m, r);
    } else {
      forall i, j | 0 <= i < j < |r|
        ensures r[i].0 != r[j].0
      {
        assert r[i].0 == Keys(r)[i] && r[j].0 == Keys(r)[j];
        if j < |m| {
          assert Keys(r)[i] == m[i].0 && Keys(r)[j] == m[j].0;
        } else {
          assert Keys(r)[j] == k && Keys(r)[i] == Keys(m)[i];
        }
      }
    }
  }

  /** A new key goes to the end. */
  lemma {:induction false} PutAppends<K, V>(m: OrderedMap<K, V>, k: K, v: V)
    requires k !in Keys(m)
    ensures Put(m, k, v) == m + [(k, v)]
  {
    if |m| > 0 {
      KeysCons(m[0], m[1..]);
      assert m == [m[0]] + m[1..];
      PutAppends(m[1..], k, v);
    }
  }

  /** A present key keeps its position and only its value changes. */
  lemma {:induction false} PutReplaces<K, V>(m: OrderedMap<K, V>, k: K, v: V, g: nat)
    requires g < |m| && Wf(m) && m[g].0 == k
    ensures Put(m, k, v) == m[g := (k, v)]
  {
    if g > 0 {
      PutReplaces(m[1..], k, v, g - 1);
      assert m[g := (k, v)] == [m[0]] + m[1..][g - 1 := (k, v)];
    }
  }

  /** In a well-formed map the entry at a position is what `Get` finds. */
  lemma {:induction false} GetAt<K, V>(m: OrderedMap<K, V>, g: nat)
    requires g < |m| && Wf(m)
    ensures Get(m, m[g].0) == Some(m[g].1)
  {
    if g > 0 {
      GetAt(m[1..], g - 1);
    }
  }

  /** What `Get` finds is an entry of the map. */
  lemma {:induction false} GetSome<K, V>(m: OrderedMap<K, V>, k: K)
    requires Get(m, k).Some?
    ensures exists i :: 0 <= i < |m| && m[i] == (k, Get(m, k).value)
  {
    if m[0].0 != k {
      GetSome(m[1..], k);
      var i :| 0 <= i < |m| - 1 && m[1..][i] == (k, Get(m, k).value);
      assert m[i + 1] == m[1..][i];
    }
  }

  /** Every entry after a `Put` is the new one or an old one. */
  lemma {:induction false} PutEntries<K, V>(m: OrderedMap<K, V>, k: K, v: V)
    ensures forall e :: e in Put(m, k, v) ==> e == (k, v) || e in m
  {
    if |m| > 0 && m[0].0 != k {
      PutEntries(m[1..], k, v);
    }
  }

  /** After deleting `k`, `k` is absent and every other key reads as before. */
  lemma {:induction false} RemoveGet<K, V>(m: OrderedMap<K, V>, k: K, x: K)
    ensures Get(Remove(m, k), x) == if x == k then None else Get(m, x)
  {
    if |m| > 0 {
      RemoveGet(m[1..], k, x);
      if m[0].0 != k {
        assert ([m[0]] + Remove(m[1..], k))[1..] == Remove(m[1..], k);
      }
    }
  }

  /** Deleting keeps the remaining keys in their order: it is a filter on the key list. */
  lemma {:induction false} RemoveKeys<K(!new), V>(m: OrderedMap<K, V>, k: K)
    ensures Keys(Remove(m, k)) == Without(Keys(m), k)
  {
    if |m| > 0 {
      RemoveKeys(m[1..], k);
      assert Keys(m)[1..] == Keys(m[1..]);
      if m[0].0 != k {
        KeysCons(m[0], Remove(m[1..], k));
      }
    }
  }

  /** The list `s` with every occurrence of `x` dropped. */
  function Without<T(==,!new)>(s: seq<T>, x: T): (r: seq<T>)
    ensures forall y :: y in r <==> y in s && y != x
  {
    if |s| == 0 then [] else (if s[0] == x then [] else [s[0]]) + Without(s[1..], x)
  }

  /** Deleting a key never duplicates another. */
  lemma {:induction false} RemoveWf<K(!new), V>(m: OrderedMap<K, V>, k: K)
    requires Wf(m)
    ensures Wf(Remove(m, k))
  {
    if |m| > 0 {
      RemoveWf(m[1..], k);
      if m[0].0 != k {
        var rest := Remove(m[1..], k);
        RemoveKeys(m[1..], k);
        assert m[0].0 !in Keys(m[1..]);
        assert m[0].0 !in Keys(rest);
        var r := [m[0]] + rest;
        KeysCons(m[0], rest);
        forall i, j | 0 <= i < j < |r|
          ensures r[i].0 != r[j].0
        {
          if i == 0 {
            assert r[j].0 == Keys(rest)[j - 1];
          } else {
            assert r[i] == rest[i - 1] && r[j] == rest[j - 1];
          }
        }
      }
    }
  }

  /** The dictionary a well-formed ordered map denotes. */
  function AsMap<K(==), V>(m: OrderedMap<K, V>): (r: map<K, V>)
    ensures r.Keys == set k | k in Keys(m)
  {
    map k | k in Keys(m) :: Get(m, k).value
  }

  /** Writing a key is a dictionary update. */
  lemma PutIsUpdate<K, V>(m: OrderedMap<K, V>, k: K, v: V)
    ensures AsMap(Put(m, k, v)) == AsMap(m)[k := v]
  {
    var l, r := AsMap(Put(m, k, v)), AsMap(m)[k := v];
    PutKeys(m, k, v);
    assert l.Keys == r.Keys;
    forall x | x in l
      ensures l[x] == r[x]
    {
      PutGet(m, k, v, x);
    }
  }

  /** Deleting a key is a dictionary removal. */
  lemma RemoveIsRemoval<K(!new), V>(m: OrderedMap<K, V>, k: K)
    ensures AsMap(Remove(m, k)) == AsMap(m) - {k}
  {
    var l, r := AsMap(Remove(m, k)), AsMap(m) - {k};
    RemoveKeys(m, k);
    assert l.Keys == r.Keys;
    forall x | x in l
      ensures l[x] == r[x]
    {
      RemoveGet(m, k, x);
    }
  }

  /** `Object.fromEntries(entries)`: the last entry for a key wins. */
  function FromEntries<K(==), V>(entries: seq<(K, V)>): map<K, V>
  {
    if |entries| == 0 then map[]
    else
      var rest := FromEntries(entries[1..]);
      if entries[0].0 in rest then rest else rest[entries[0].0 := entries[0].1]
  }

  /** `Object.fromEntries` has exactly the keys of its entries. */
  lemma {:induction false} FromEntriesKeys<K, V>(entries: seq<(K, V)>)
    ensures FromEntries(entries).Keys == set k | k in Keys(entries)
  {
    if |entries| > 0 {
      FromEntriesKeys(entries[1..]);
      KeysCons(entries[0], entries[1..]);
      assert entries == [entries[0]] + entries[1..];
    }
  }

  /** The value of a key is that of its last entry. */
  lemma {:induction false} FromEntriesLast<K, V>(entries: seq<(K, V)>, i: nat)
    requires i < |entries|
    requires forall j :: i < j < |entries| ==> entries[j].0 != entries[i].0
    ensures entries[i].0 in FromEntries(entries)
    ensures FromEntries(entries)[entries[i].0] == entries[i].1
  {
    FromEntriesKeys(entries[1..]);
    if i == 0 {
      assert entries[0].0 !in Keys(entries[1..]);
    } else {
      FromEntriesLast(entries[1..], i - 1);
    }
  }
}
