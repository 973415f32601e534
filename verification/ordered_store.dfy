/**
 * One sub-region of the service's Hyperbee (`cores` or `types`): an ordered
 * key-value store whose keys are kept sorted in byte order and iterated in that
 * order by createReadStream. Keys here are hex strings, so byte order is the
 * character order below.
 */
module OrderedStore {
  import opened Wrappers

  /** Strict lexicographic order on keys. */
  predicate Below(a: string, b: string)
    decreases |a|
  {
    if a == [] then b != []
    else if b == [] then false
    else a[0] < b[0] || (a[0] == b[0] && Below(a[1..], b[1..]))
  }

  lemma {:induction false} BelowIrreflexive(a: string)
    ensures !Below(a, a)
    decreases |a|
  {
    if a != [] {
      BelowIrreflexive(a[1..]);
    }
  }

  lemma {:induction false} BelowTransitive(a: string, b: string, c: string)
    requires Below(a, b) && Below(b, c)
    ensures Below(a, c)
    decreases |a|
  {
    if a != [] && a[0] == b[0] && b[0] == c[0] {
      BelowTransitive(a[1..], b[1..], c[1..]);
    }
  }

  lemma {:induction false} BelowTotal(a: string, b: string)
    requires a != b
    ensures Below(a, b) || Below(b, a)
    decreases |a|
  {
    if a != [] && b != [] && a[0] == b[0] {
      assert a == [a[0]] + a[1..] && b == [b[0]] + b[1..];
      BelowTotal(a[1..], b[1..]);
    }
  }

  datatype Entry<V> = Entry(key: string, value: V)

  /** Every key is strictly below every later key: sorted and free of duplicates. */
  predicate Sorted<V>(es: seq<Entry<V>>) {
    forall i, j :: 0 <= i < j < |es| ==> Below(es[i].key, es[j].key)
  }

  /** The entries of a store region, in iteration order. */
  type Store<V> = es: seq<Entry<V>> | Sorted(es) witness []

  function KeysOf<V>(es: seq<Entry<V>>): set<string> {
    if es == [] then {} else {es[0].key} + KeysOf(es[1..])
  }

  /** get(key): the value stored under `key`, if any. */
  function Lookup<V>(es: seq<Entry<V>>, k: string): Option<V> {
    if es == [] then None
    else if es[0].key == k then Some(es[0].value)
    else Lookup(es[1..], k)
  }

  lemma {:induction false} LookupPresent<V>(es: seq<Entry<V>>, k: string)
    ensures Lookup(es, k).Some? <==> k in KeysOf(es)
  {
    if es != [] {
      LookupPresent(es[1..], k);
    }
  }

  lemma {:induction false} KeysOfIndex<V>(es: seq<Entry<V>>, k: string)
    ensures k in KeysOf(es) <==> exists i :: 0 <= i < |es| && es[i].key == k
  {
    if es != [] {
      KeysOfIndex(es[1..], k);
      if k in KeysOf(es[1..]) {
        var i :| 0 <= i < |es[1..]| && es[1..][i].key == k;
        assert es[i + 1].key == k;
      }
      forall i | 1 <= i < |es| && es[i].key == k ensures k in KeysOf(es[1..]) {
        assert es[1..][i - 1].key == k;
      }
    }
  }

  /** In a sorted region the first key is below every key that follows it. */
  lemma HeadBelowRest<V>(es: Store<V>, k: string)
    requires es != [] && k in KeysOf(es[1..])
    ensures Below(es[0].key, k)
  {
    KeysOfIndex(es[1..], k);
    var i :| 0 <= i < |es[1..]| && es[1..][i].key == k;
    assert es[i + 1].key == k;
  }

  /** A key below the first key of a sorted region is below all of its keys. */
  lemma BelowAll<V>(k: string, es: Store<V>)
    requires es != [] && Below(k, es[0].key)
    ensures forall x :: x in KeysOf(es) ==> Below(k, x)
  {
    forall x | x in KeysOf(es) ensures Below(k, x) {
      if x != es[0].key {
        HeadBelowRest(es, x);
        BelowTransitive(k, es[0].key, x);
      }
    }
  }

  lemma PrependSorted<V>(e: Entry<V>, es: Store<V>)
    requires forall x :: x in KeysOf(es) ==> Below(e.key, x)
    ensures Sorted([e] + es)
  {
    forall i, j | 0 <= i < j < |[e] + es| ensures Below(([e] + es)[i].key, ([e] + es)[j].key) {
      if i == 0 {
        KeysOfIndex(es, es[j - 1].key);
      }
    }
  }

  lemma TailSorted<V>(es: Store<V>)
    requires es != []
    ensures Sorted(es[1..])
  {
    forall i, j | 0 <= i < j < |es[1..]| ensures Below(es[1..][i].key, es[1..][j].key) {
      assert es[1..][i] == es[i + 1] && es[1..][j] == es[j + 1];
    }
  }

  /** put(key, value): insert at the sorted position, or overwrite an existing key. */
  function Insert<V>(es: Store<V>, k: string, v: V): (r: Store<V>)
    ensures KeysOf(r) == KeysOf(es) + {k}
    ensures forall k' :: Lookup(r, k') == if k' == k then Some(v) else Lookup(es, k')
    decreases |es|
  {
    if es == [] then [Entry(k, v)]
    else if es[0].key == k then
      TailSorted(es);
      assert forall x :: x in KeysOf(es[1..]) ==> Below(k, x) by {
        forall x | x in KeysOf(es[1..]) ensures Below(k, x) { HeadBelowRest(es, x); }
      }
      PrependSorted(Entry(k, v), es[1..]);
      [Entry(k, v)] + es[1..]
    else if Below(k, es[0].key) then
      BelowAll(k, es);
      PrependSorted(Entry(k, v), es);
      [Entry(k, v)] + es
    else
      TailSorted(es);
      var rest := Insert(es[1..], k, v);
      assert forall x :: x in KeysOf(rest) ==> Below(es[0].key, x) by {
        forall x | x in KeysOf(rest) ensures Below(es[0].key, x) {
          if x == k { BelowTotal(k, es[0].key); } else { HeadBelowRest(es, x); }
        }
      }
      PrependSorted(es[0], rest);
      [es[0]] + rest
  }

  /** del(key): remove the entry for `key`; a missing key leaves the region as it was. */
  function Remove<V>(es: Store<V>, k: string): (r: Store<V>)
    ensures KeysOf(r) == KeysOf(es) - {k}
    ensures forall k' :: Lookup(r, k') == if k' == k then None else Lookup(es, k')
    decreases |es|
  {
    if es == [] then []
    else
      TailSorted(es);
      assert forall x :: x in KeysOf(es[1..]) ==> Below(es[0].key, x) by {
        forall x | x in KeysOf(es[1..]) ensures Below(es[0].key, x) { HeadBelowRest(es, x); }
      }
      if es[0].key == k then
        assert k !in KeysOf(es[1..]) by {
          if k in KeysOf(es[1..]) { BelowIrreflexive(k); }
        }
        LookupPresent(es[1..], k);
        es[1..]
      else
        var rest := Remove(es[1..], k);
        PrependSorted(es[0], rest);
        [es[0]] + rest
  }

  /** The entry at position i is what get returns for its key. */
  lemma LookupAt<V>(es: Store<V>, i: nat)
    requires i < |es|
    ensures Lookup(es, es[i].key) == Some(es[i].value)
    decreases i
  {
    if i > 0 {
      assert es[0].key != es[i].key by { BelowIrreflexive(es[0].key); }
      TailSorted(es);
      assert es[1..][i - 1] == es[i];
      LookupAt(es[1..], i - 1);
    }
  }

  /** Re-putting the value a key already holds leaves the region unchanged. */
  lemma {:induction false} InsertExisting<V>(es: Store<V>, k: string, v: V)
    requires Lookup(es, k) == Some(v)
    ensures Insert(es, k, v) == es
    decreases |es|
  {
    if es[0].key != k {
      LookupPresent(es, k);
      HeadBelowRest(es, k);
      assert !Below(k, es[0].key) by {
        BelowIrreflexive(k);
        if Below(k, es[0].key) {
          BelowTransitive(k, es[0].key, k);
        }
      }
      TailSorted(es);
      InsertExisting(es[1..], k, v);
    }
  }

  /** Deleting a key that was just put into a region where it was absent restores the region. */
  lemma {:induction false} RemoveInsert<V>(es: Store<V>, k: string, v: V)
    requires k !in KeysOf(es)
    ensures Remove(Insert(es, k, v), k) == es
    decreases |es|
  {
    if es != [] && !Below(k, es[0].key) {
      TailSorted(es);
      RemoveInsert(es[1..], k, v);
    }
  }

  /** Deleting a key the region does not hold leaves the region unchanged. */
  lemma {:induction false} RemoveAbsent<V>(es: Store<V>, k: string)
    requires k !in KeysOf(es)
    ensures Remove(es, k) == es
    decreases |es|
  {
    if es != [] {
      TailSorted(es);
      RemoveAbsent(es[1..], k);
    }
  }

  lemma InsertIntoEmpty<V>(k: string, v: V)
    ensures Insert([], k, v) == [Entry(k, v)]
  {
  }
}
