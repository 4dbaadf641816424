/** Insertion-ordered dictionaries with string keys, as Python's dict keeps them. */
module Dict {
  import opened Wrappers

  datatype Item<+V> = Item(key: string, value: V)

  type Dict<+V> = seq<Item<V>>

  predicate Has<V>(d: Dict<V>, k: string) {
    exists i :: 0 <= i < |d| && d[i].key == k
  }

  function Keys<V>(d: Dict<V>): set<string> {
    set i | 0 <= i < |d| :: d[i].key
  }

  function Lookup<V>(d: Dict<V>, k: string): (r: Option<V>)
    ensures r.Some? <==> Has(d, k)
    ensures r.Some? <==> k in Keys(d)
  {
    if d == [] then None
    else if d[0].key == k then Some(d[0].value)
    else
      assert Has(d[1..], k) ==> Has(d, k);
      assert forall i :: 1 <= i < |d| ==> d[1..][i - 1] == d[i];
      Lookup(d[1..], k)
  }

  function Without<V>(d: Dict<V>, k: string): Dict<V> {
    if d == [] then []
    else if d[0].key == k then Without(d[1..], k)
    else [d[0]] + Without(d[1..], k)
  }

  lemma {:induction false} LookupAppend<V>(d: Dict<V>, e: Dict<V>, k: string)
    ensures Lookup(d + e, k) == if Has(d, k) then Lookup(d, k) else Lookup(e, k)
    ensures Has(d + e, k) <==> Has(d, k) || Has(e, k)
  {
    if d == [] {
      assert d + e == e;
    } else {
      LookupAppend(d[1..], e, k);
      assert (d + e)[1..] == d[1..] + e;
      assert Has(d, k) <==> Lookup(d, k).Some?;
    }
  }

  lemma {:induction false} WithoutAppend<V>(d: Dict<V>, e: Dict<V>, k: string)
    ensures Without(d + e, k) == Without(d, k) + Without(e, k)
  {
    if d == [] {
      assert d + e == e;
    } else {
      WithoutAppend(d[1..], e, k);
      assert (d + e)[1..] == d[1..] + e;
    }
  }

  lemma {:induction false} WithoutAbsent<V>(d: Dict<V>, k: string)
    requires !Has(d, k)
    ensures Without(d, k) == d
  {
    if d != [] {
      assert d[0].key != k;
      assert forall i :: 0 <= i < |d[1..]| ==> d[1..][i] == d[i + 1];
      WithoutAbsent(d[1..], k);
    }
  }

  /** Removal hits its key and no other, and leaves the other values alone. */
  lemma {:induction false} WithoutLookup<V>(d: Dict<V>, k: string, j: string)
    ensures Lookup(Without(d, k), j) == if j == k then None else Lookup(d, j)
  {
    if d != [] {
      WithoutLookup(d[1..], k, j);
      var rest := Without(d[1..], k);
      if d[0].key != k {
        assert ([d[0]] + rest)[1..] == rest;
      }
    }
  }

  /** Dropping a key held by one item only. */
  lemma WithoutMiddle<V>(front: Dict<V>, item: Item<V>, back: Dict<V>)
    requires !Has(front, item.key) && !Has(back, item.key)
    ensures Without(front + [item] + back, item.key) == front + back
    ensures Has(front + [item] + back, item.key)
  {
    WithoutAppend(front + [item], back, item.key);
    WithoutAppend(front, [item], item.key);
    WithoutAbsent(front, item.key);
    WithoutAbsent(back, item.key);
    assert Without([item], item.key) == [];
    assert front + [] == front;
    assert (front + [item] + back)[|front|] == item;
  }

  lemma KeysAppend<V>(d: Dict<V>, e: Dict<V>)
    ensures Keys(d + e) == Keys(d) + Keys(e)
  {
    forall k
      ensures k in Keys(d + e) <==> k in Keys(d) || k in Keys(e)
    {
      LookupAppend(d, e, k);
      assert Lookup(d + e, k).Some? <==> Lookup(d, k).Some? || Lookup(e, k).Some?;
    }
  }

  lemma {:induction false} KeysCount<V>(d: Dict<V>)
    requires forall i, j :: 0 <= i < j < |d| ==> d[i].key != d[j].key
    ensures |Keys(d)| == |d|
  {
    if d != [] {
      var front, last := d[..|d| - 1], d[|d| - 1];
      assert d == front + [last];
      KeysCount(front);
      KeysAppend(front, [last]);
      assert Keys([last]) == {last.key};
    }
  }
}
