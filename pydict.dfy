/** Python's `dict` as the program uses it: an ordered association with distinct keys.
    Iteration (`list(d)`) follows the order in which keys were first inserted, and writing
    an existing key (`d[k] = v`) replaces its value without moving it. `dict(zip(ks, vs))`
    and the dict comprehension `{k: v for ...}` both insert the pairs from first to last,
    so the LAST pair with a given key decides its value. */
module PyDict {
  import opened Options

  /** The items of a dict, in iteration order. */
  type Dict<K, V> = seq<(K, V)>

  function Keys<K(==), V>(d: Dict<K, V>): seq<K>
  {
    seq(|d|, i requires 0 <= i < |d| => d[i].0)
  }

  function KeySet<K(==), V>(d: Dict<K, V>): set<K>
  {
    if |d| == 0 then {} else {d[0].0} + KeySet(d[1..])
  }

  lemma {:induction false} KeySetMember<K, V>(d: Dict<K, V>, x: K)
    ensures x in KeySet(d) <==> exists i :: 0 <= i < |d| && d[i].0 == x
  {
    if |d| > 0 {
      KeySetMember(d[1..], x);
      if x in KeySet(d[1..]) {
        var i :| 0 <= i < |d[1..]| && d[1..][i].0 == x;
        assert d[i + 1].0 == x;
      }
      forall i | 0 < i < |d| ensures d[i] == d[1..][i - 1] { }
    }
  }

  lemma {:induction false} KeySetAppend<K, V>(d: Dict<K, V>, p: (K, V))
    ensures KeySet(d + [p]) == KeySet(d) + {p.0}
  {
    if |d| > 0 {
      assert (d + [p])[1..] == d[1..] + [p];
      KeySetAppend(d[1..], p);
    }
  }

  predicate DistinctKeys<K(==), V>(d: Dict<K, V>)
  {
    forall i, j :: 0 <= i < j < |d| ==> d[i].0 != d[j].0
  }

  /** `d.get(k)`: the value stored under `k`, if any. */
  function Get<K(==), V>(d: Dict<K, V>, k: K): (r: Option<V>)
    ensures r.None? <==> k !in KeySet(d)
  {
    if |d| == 0 then None
    else if d[0].0 == k then Some(d[0].1)
    else Get(d[1..], k)
  }

  /** `d[k] = v`: overwrites the value of a present key in place, otherwise appends. */
  function Insert<K(==,!new), V>(d: Dict<K, V>, k: K, v: V): (r: Dict<K, V>)
    requires DistinctKeys(d)
    ensures DistinctKeys(r)
    ensures KeySet(r) == KeySet(d) + {k}
    ensures Get(r, k) == Some(v)
    ensures forall k' :: k' != k ==> Get(r, k') == Get(d, k')
    ensures |r| == if k in KeySet(d) then |d| else |d| + 1
    ensures |d| > 0 ==> r[0].0 == d[0].0
  {
    if |d| == 0 then [(k, v)]
    else if d[0].0 == k then
      var r := [(k, v)] + d[1..];
      assert r[1..] == d[1..];
      assert KeySet(d[1..]) == KeySet(r[1..]);
      assert forall k' :: k' != k ==> Get(r, k') == Get(d[1..], k') by {
        assert r[1..] == d[1..];
      }
      r
    else
      var rest := Insert(d[1..], k, v);
      var r := [d[0]] + rest;
      assert r[1..] == rest;
      assert d[0].0 !in KeySet(d[1..]) by {
        KeySetMember(d[1..], d[0].0);
        assert forall i :: 0 <= i < |d[1..]| ==> d[1..][i] == d[i + 1];
      }
      assert DistinctKeys(r) by {
        forall i, j | 0 <= i < j < |r| ensures r[i].0 != r[j].0 {
          if i == 0 {
            KeySetMember(rest, r[j].0);
            assert rest[j - 1] == r[j];
          }
        }
      }
      r
  }

  /** Inserts the pairs from first to last: `{k: v for (k, v) in items}`. */
  function FromItems<K(==,!new), V>(items: seq<(K, V)>): Dict<K, V>
  {
    if |items| == 0 then []
    else
      var last := items[|items| - 1];
      var prev := FromItems(items[..|items| - 1]);
      if DistinctKeys(prev) then Insert(prev, last.0, last.1) else prev
  }

  /** Python's `zip`: pairs up to the shorter of the two sequences. */
  function Zip<K(==), V>(ks: seq<K>, vs: seq<V>): (r: seq<(K, V)>)
    ensures |r| == if |ks| <= |vs| then |ks| else |vs|
    ensures forall i :: 0 <= i < |r| ==> r[i] == (ks[i], vs[i])
  {
    var n := if |ks| <= |vs| then |ks| else |vs|;
    seq(n, i requires 0 <= i < n => (ks[i], vs[i]))
  }

  /** `dict(zip(ks, vs))`. */
  function FromZip<K(==,!new), V>(ks: seq<K>, vs: seq<V>): Dict<K, V>
  {
    FromItems(Zip(ks, vs))
  }

  /** Reference meaning of "the last pair with key `k` wins": scan from the end. */
  function LastValue<K(==), V>(items: seq<(K, V)>, k: K): (r: Option<V>)
    ensures r.Some? ==> exists i :: 0 <= i < |items| && items[i] == (k, r.value) &&
                          forall j :: i < j < |items| ==> items[j].0 != k
    ensures r.None? ==> forall j :: 0 <= j < |items| ==> items[j].0 != k
  {
    if |items| == 0 then None
    else if items[|items| - 1].0 == k then Some(items[|items| - 1].1)
    else
      var r := LastValue(items[..|items| - 1], k);
      assert forall j :: 0 <= j < |items| - 1 ==> items[..|items| - 1][j] == items[j];
      r
  }

  /** The dict built from `items` has distinct keys, exactly the keys of `items`, at most
      as many entries as there are items, and iterates first over the key of the first pair. */
  lemma {:induction false} FromItemsShape<K(!new), V>(items: seq<(K, V)>)
    ensures DistinctKeys(FromItems(items))
    ensures KeySet(FromItems(items)) == KeySet(items)
    ensures |FromItems(items)| <= |items|
    ensures |items| > 0 ==> FromItems(items)[0].0 == items[0].0
  {
    if |items| > 0 {
      var init := items[..|items| - 1];
      var last := items[|items| - 1];
      FromItemsShape(init);
      assert items == init + [last];
      KeySetAppend(init, last);
      if |init| > 0 {
        assert init[0] == items[0];
      }
    }
  }

  /** For every key, the dict stores the value of the LAST pair with that key. */
  lemma {:induction false} FromItemsLastWins<K(!new), V>(items: seq<(K, V)>, k: K)
    ensures Get(FromItems(items), k) == LastValue(items, k)
  {
    if |items| > 0 {
      var init := items[..|items| - 1];
      var last := items[|items| - 1];
      FromItemsShape(init);
      if k != last.0 {
        FromItemsLastWins(init, k);
      }
    }
  }

  /** The dict as a plain map, for lookups. */
  function ToMap<K(==), V>(d: Dict<K, V>): (m: map<K, V>)
    ensures m.Keys == KeySet(d)
    ensures forall k :: k in m ==> Get(d, k) == Some(m[k])
  {
    map k | k in KeySet(d) :: Get(d, k).value
  }
}
