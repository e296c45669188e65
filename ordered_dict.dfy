/**
 * Python dictionaries and JavaScript objects as the model sees them: a list of
 * (key, value) entries in insertion order. `Object.entries` and `dict.items()`
 * walk the entries in that order; assigning to an existing key keeps its place.
 */
module OrderedDict {

  type Dict<V> = seq<(string, V)>

  function Keys<V>(d: Dict<V>): (ks: seq<string>)
    ensures |ks| == |d|
    ensures forall i :: 0 <= i < |d| ==> ks[i] == d[i].0
  {
    if d == [] then [] else [d[0].0] + Keys(d[1..])
  }

  function Values<V>(d: Dict<V>): (vs: seq<V>)
    ensures |vs| == |d|
    ensures forall i :: 0 <= i < |d| ==> vs[i] == d[i].1
  {
    if d == [] then [] else [d[0].1] + Values(d[1..])
  }

  predicate DistinctKeys<V>(d: Dict<V>) {
    forall i, j :: 0 <= i < j < |d| ==> d[i].0 != d[j].0
  }

  /** `d[k]` for a key that is present. */
  function Get<V>(d: Dict<V>, k: string): (v: V)
    requires k in Keys(d)
    ensures exists i :: 0 <= i < |d| && d[i] == (k, v)
  {
    if d[0].0 == k then d[0].1 else Get(d[1..], k)
  }

  /** `d[k] = v`: replaces the value in place when `k` is present, appends the entry otherwise. */
  function Put<V>(d: Dict<V>, k: string, v: V): Dict<V>
  {
    if d == [] then [(k, v)]
    else if d[0].0 == k then [(k, v)] + d[1..]
    else [d[0]] + Put(d[1..], k, v)
  }

  /** The keys after `d[k] = v`: unchanged when `k` was there, `k` appended otherwise. */
  lemma {:induction false} PutKeys<V>(d: Dict<V>, k: string, v: V)
    ensures Keys(Put(d, k, v)) == if k in Keys(d) then Keys(d) else Keys(d) + [k]
  {
    if d != [] {
      assert Keys(d) == [d[0].0] + Keys(d[1..]);
      if d[0].0 != k {
        PutKeys(d[1..], k, v);
        assert Keys(Put(d, k, v)) == [d[0].0] + Keys(Put(d[1..], k, v));
        assert k in Keys(d) <==> k in Keys(d[1..]);
      }
    }
  }

  /** `d[k]` reads `v` after `d[k] = v`, and every other key what it read before. */
  lemma {:induction false} PutReads<V>(d: Dict<V>, k: string, v: V, k': string)
    requires k' == k || k' in Keys(d)
    ensures k' in Keys(Put(d, k, v))
    ensures Get(Put(d, k, v), k') == if k' == k then v else Get(d, k')
  {
    PutKeys(d, k, v);
    if d != [] && d[0].0 != k {
      assert Keys(d) == [d[0].0] + Keys(d[1..]);
      if k' != d[0].0 {
        PutReads(d[1..], k, v, k');
      }
    }
  }

  /** After `d[k] = v` the key order is unchanged or `k` is appended, `d[k]` reads `v`, and
      every other key reads what it read before. */
  lemma {:induction false} PutSpec<V>(d: Dict<V>, k: string, v: V)
    ensures var r := Put(d, k, v);
      && Keys(r) == (if k in Keys(d) then Keys(d) else Keys(d) + [k])
      && k in Keys(r) && Get(r, k) == v
      && forall k' :: k' in Keys(d) && k' != k ==> Get(r, k') == Get(d, k')
  {
    PutKeys(d, k, v);
    PutReads(d, k, v, k);
    forall k' | k' in Keys(d) && k' != k ensures Get(Put(d, k, v), k') == Get(d, k') {
      PutReads(d, k, v, k');
    }
  }

  lemma {:induction false} PutKeepsDistinct<V>(d: Dict<V>, k: string, v: V)
    requires DistinctKeys(d)
    ensures DistinctKeys(Put(d, k, v))
  {
    var r := Put(d, k, v);
    PutKeys(d, k, v);
    forall i, j | 0 <= i < j < |r| ensures r[i].0 != r[j].0 {
      assert Keys(r)[i] == r[i].0 && Keys(r)[j] == r[j].0;
      if j < |d| {
        assert Keys(d)[i] == d[i].0 && Keys(d)[j] == d[j].0;
      } else {
        assert Keys(r)[i] == Keys(d)[i] && Keys(r)[j] == k;
      }
    }
  }

  /** The entries written one after the other, as a loop of `d[k] = v` statements does. */
  function PutAll<V>(d: Dict<V>, entries: Dict<V>): Dict<V>
  {
    if entries == [] then d
    else
      var last := entries[|entries| - 1];
      Put(PutAll(d, entries[..|entries| - 1]), last.0, last.1)
  }

  /** Writing two batches is writing their concatenation. */
  lemma {:induction false} PutAllAppend<V>(d: Dict<V>, a: Dict<V>, b: Dict<V>)
    ensures PutAll(d, a + b) == PutAll(PutAll(d, a), b)
  {
    if b == [] {
      assert a + b == a;
    } else {
      assert (a + b)[..|a + b| - 1] == a + b[..|b| - 1];
      assert (a + b)[|a + b| - 1] == b[|b| - 1];
      PutAllAppend(d, a, b[..|b| - 1]);
    }
  }

  /** A key the batch does not write keeps its presence and its value. */
  lemma {:induction false} PutAllOutside<V>(d: Dict<V>, entries: Dict<V>, k: string)
    requires k !in Keys(entries)
    ensures k in Keys(PutAll(d, entries)) <==> k in Keys(d)
    ensures k in Keys(d) ==> Get(PutAll(d, entries), k) == Get(d, k)
  {
    if entries != [] {
      var front := entries[..|entries| - 1];
      var last := entries[|entries| - 1];
      assert Keys(front) == Keys(entries)[..|entries| - 1];
      assert Keys(entries)[|entries| - 1] == last.0 != k;
      PutAllOutside(d, front, k);
      PutSpec(PutAll(d, front), last.0, last.1);
    }
  }

  lemma {:induction false} DistinctKeysPrefix<V>(d: Dict<V>, n: nat)
    requires DistinctKeys(d) && n <= |d|
    ensures DistinctKeys(d[..n])
  {
    forall a, b | 0 <= a < b < n ensures d[..n][a].0 != d[..n][b].0 {
      assert d[..n][a] == d[a] && d[..n][b] == d[b];
    }
  }

  /** Writing one key leaves another present key as it was. */
  lemma {:induction false} PutOther<V>(d: Dict<V>, k: string, v: V, k': string)
    requires k' in Keys(d) && k' != k
    ensures k' in Keys(Put(d, k, v)) && Get(Put(d, k, v), k') == Get(d, k')
  {
    PutSpec(d, k, v);
  }

  /** Every key of a batch with distinct keys ends up holding the value the batch gives it. */
  lemma {:induction false} PutAllInside<V>(d: Dict<V>, entries: Dict<V>, i: nat)
    requires DistinctKeys(entries) && i < |entries|
    ensures entries[i].0 in Keys(PutAll(d, entries))
    ensures Get(PutAll(d, entries), entries[i].0) == entries[i].1
  {
    var n := |entries|;
    if i < n - 1 {
      var front := entries[..n - 1];
      DistinctKeysPrefix(entries, n - 1);
      PutAllInside(d, front, i);
      PutAllFront(d, entries, i);
    } else {
      PutSpec(PutAll(d, entries[..n - 1]), entries[i].0, entries[i].1);
    }
  }

  lemma {:induction false} PutAllFront<V>(d: Dict<V>, entries: Dict<V>, i: nat)
    requires DistinctKeys(entries) && i + 1 < |entries|
    requires var front := PutAll(d, entries[..|entries| - 1]);
      entries[i].0 in Keys(front) && Get(front, entries[i].0) == entries[i].1
    ensures entries[i].0 in Keys(PutAll(d, entries))
    ensures Get(PutAll(d, entries), entries[i].0) == entries[i].1
  {
    var last := entries[|entries| - 1];
    PutOther(PutAll(d, entries[..|entries| - 1]), last.0, last.1, entries[i].0);
  }

  lemma {:induction false} PutAllSnoc<V>(d: Dict<V>, es: Dict<V>, k: string, v: V)
    ensures PutAll(d, es + [(k, v)]) == Put(PutAll(d, es), k, v)
  {
    assert (es + [(k, v)])[..|es|] == es;
  }

  /** Four writes in a row. */
  lemma {:induction false} PutAllFour<V>(d: Dict<V>, es: Dict<V>)
    requires |es| == 4
    ensures PutAll(d, es) == Put(Put(Put(Put(d, es[0].0, es[0].1), es[1].0, es[1].1), es[2].0, es[2].1), es[3].0, es[3].1)
  {
    PutAllSnoc(d, [], es[0].0, es[0].1);
    assert [] + [es[0]] == es[..1];
    PutAllSnoc(d, es[..1], es[1].0, es[1].1);
    assert es[..1] + [es[1]] == es[..2];
    PutAllSnoc(d, es[..2], es[2].0, es[2].1);
    assert es[..2] + [es[2]] == es[..3];
    PutAllSnoc(d, es[..3], es[3].0, es[3].1);
    assert es[..3] + [es[3]] == es;
  }

  /** Writing a key twice keeps the second value at the first position. */
  lemma {:induction false} PutPut<V>(d: Dict<V>, k: string, v: V, w: V)
    ensures Put(Put(d, k, v), k, w) == Put(d, k, w)
  {
    if d != [] && d[0].0 != k {
      PutPut(d[1..], k, v, w);
    }
  }

  /** Right after `d[k] = v`, `d[k]` reads `v`. */
  lemma {:induction false} PutGet<V>(d: Dict<V>, k: string, v: V)
    ensures k in Keys(Put(d, k, v)) && Get(Put(d, k, v), k) == v
  {
    PutSpec(d, k, v);
  }

  /** Writing a key that is not there yet appends it. */
  lemma {:induction false} PutFresh<V>(d: Dict<V>, k: string, v: V)
    requires k !in Keys(d)
    ensures Put(d, k, v) == d + [(k, v)]
  {
    if d != [] {
      assert Keys(d) == [d[0].0] + Keys(d[1..]);
      PutFresh(d[1..], k, v);
    }
  }

  /** A key is present after `d[key] = v` when it was before or is `key`. */
  lemma {:induction false} PutHas<V>(d: Dict<V>, key: string, v: V, k: string)
    ensures k in Keys(Put(d, key, v)) <==> k in Keys(d) || k == key
  {
    PutKeys(d, key, v);
    assert k in Keys(d) + [key] <==> k in Keys(d) || k == key;
  }

  /** A key of `d + [e]` is a key of `d` or `e`'s. */
  lemma {:induction false} SnocHas<V>(d: Dict<V>, e: (string, V), k: string)
    ensures k in Keys(d + [e]) <==> k in Keys(d) || k == e.0
  {
    KeysAppend(d, [e]);
    assert Keys([e]) == [e.0];
    assert k in Keys(d) + [e.0] <==> k in Keys(d) || k == e.0;
  }

  /** After a batch of writes, the keys present are the old ones and the batch's. */
  lemma {:induction false} PutAllKeys<V>(d: Dict<V>, entries: Dict<V>, k: string)
    ensures k in Keys(PutAll(d, entries)) <==> k in Keys(d) || k in Keys(entries)
  {
    if entries != [] {
      var front := entries[..|entries| - 1];
      var last := entries[|entries| - 1];
      PutAllKeys(d, front, k);
      PutHas(PutAll(d, front), last.0, last.1, k);
      assert entries == front + [last];
      SnocHas(front, last, k);
    }
  }

  /** Distinct keys after one more entry: distinct before, and the new key is fresh. */
  lemma {:induction false} DistinctSnoc<V>(d: Dict<V>, k: string, v: V)
    ensures DistinctKeys(d + [(k, v)]) <==> DistinctKeys(d) && k !in Keys(d)
  {
    var r := d + [(k, v)];
    if DistinctKeys(r) {
      forall i, j | 0 <= i < j < |d| ensures d[i].0 != d[j].0 {
        assert r[i] == d[i] && r[j] == d[j];
      }
      forall i | 0 <= i < |d| ensures Keys(d)[i] != k {
        assert r[i] == d[i] && r[|d|].0 == k;
      }
    }
  }

  /** A batch with distinct keys, written into an empty dictionary, is the dictionary itself. */
  lemma {:induction false} PutAllDistinct<V>(entries: Dict<V>)
    requires DistinctKeys(entries)
    ensures PutAll([], entries) == entries
  {
    if entries != [] {
      var front := entries[..|entries| - 1];
      var last := entries[|entries| - 1];
      assert entries == front + [last];
      DistinctSnoc(front, last.0, last.1);
      PutAllDistinct(front);
      PutFresh(front, last.0, last.1);
    }
  }

  /** Reading a dictionary that has one more entry at its end. */
  lemma {:induction false} GetSnoc<V>(d: Dict<V>, k: string, v: V, key: string)
    requires key in Keys(d) || key == k
    ensures key in Keys(d + [(k, v)])
    ensures Get(d + [(k, v)], key) == if key in Keys(d) then Get(d, key) else v
  {
    var r := d + [(k, v)];
    assert Keys(r)[|d|] == k;
    if key in Keys(d) {
      var i :| 0 <= i < |d| && Keys(d)[i] == key;
      assert Keys(r)[i] == key;
    }
    if d != [] && d[0].0 != key {
      assert Keys(d) == [d[0].0] + Keys(d[1..]);
      assert r[1..] == d[1..] + [(k, v)];
      GetSnoc(d[1..], k, v, key);
    }
  }

  lemma {:induction false} KeysAppend<V>(a: Dict<V>, b: Dict<V>)
    ensures Keys(a + b) == Keys(a) + Keys(b)
  {
    assert |Keys(a + b)| == |Keys(a) + Keys(b)|;
    forall i | 0 <= i < |a + b| ensures Keys(a + b)[i] == (Keys(a) + Keys(b))[i] {
      if i < |a| {
        assert (a + b)[i] == a[i];
      } else {
        assert (a + b)[i] == b[i - |a|];
      }
    }
  }

  /** The keys of a non-empty dictionary: those before its last entry, then the last key. */
  lemma {:induction false} KeysLast<V>(d: Dict<V>)
    requires d != []
    ensures Keys(d) == Keys(d[..|d| - 1]) + [d[|d| - 1].0]
  {
    assert d == d[..|d| - 1] + [d[|d| - 1]];
    KeysAppend(d[..|d| - 1], [d[|d| - 1]]);
  }

  /** Distinct keys, split at the last entry. */
  lemma {:induction false} DistinctLast<V>(d: Dict<V>)
    requires d != []
    ensures DistinctKeys(d) <==> DistinctKeys(d[..|d| - 1]) && d[|d| - 1].0 !in Keys(d[..|d| - 1])
  {
    assert d == d[..|d| - 1] + [(d[|d| - 1].0, d[|d| - 1].1)];
    DistinctSnoc(d[..|d| - 1], d[|d| - 1].0, d[|d| - 1].1);
  }

  /** The first entry under a key decides what `Get` reads. */
  lemma {:induction false} GetFirst<V>(a: Dict<V>, k: string, v: V, b: Dict<V>)
    requires k !in Keys(a)
    ensures k in Keys(a + [(k, v)] + b) && Get(a + [(k, v)] + b, k) == v
  {
    var d := a + [(k, v)] + b;
    assert k in Keys(d) by {
      assert d[|a|] == (k, v);
      assert Keys(d)[|a|] == k;
    }
    if a != [] {
      assert d[0] == a[0] && a[0].0 != k by {
        assert Keys(a)[0] == a[0].0;
      }
      assert k !in Keys(a[1..]) by {
        assert Keys(a) == [a[0].0] + Keys(a[1..]);
      }
      assert d[1..] == a[1..] + [(k, v)] + b;
      GetFirst(a[1..], k, v, b);
    }
  }

  /** An entry whose key no earlier entry has is what `Get` reads under that key. */
  lemma {:induction false} GetIndex<V>(d: Dict<V>, i: nat)
    requires i < |d| && d[i].0 !in Keys(d[..i])
    ensures d[i].0 in Keys(d) && Get(d, d[i].0) == d[i].1
  {
    assert d == d[..i] + [d[i]] + d[i + 1..];
    GetFirst(d[..i], d[i].0, d[i].1, d[i + 1..]);
  }
}
