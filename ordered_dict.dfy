/** Python's `dict`: a finite map whose keys keep the order in which they were first inserted. */
module OrderedDict {
  import opened Seqs

  datatype Dict<K, V> = Dict(keys: seq<K>, entries: map<K, V>)

  /** The key order lists every key of the map exactly once. */
  ghost predicate Valid<K(!new), V>(d: Dict<K, V>)
  {
    && Distinct(d.keys)
    && (forall k :: k in d.entries <==> k in d.keys)
  }

  /** `{}` */
  function Empty<K(!new), V>(): (d: Dict<K, V>)
    ensures Valid(d) && d.keys == [] && d.entries == map[]
  {
    Dict([], map[])
  }

  /** `d[k] = v`: a new key goes to the end, an existing key keeps its place and gets the new value. */
  function Put<K(!new), V>(d: Dict<K, V>, k: K, v: V): (r: Dict<K, V>)
    requires Valid(d)
    ensures Valid(r)
    ensures r.entries == d.entries[k := v]
    ensures r.keys == if k in d.entries then d.keys else d.keys + [k]
  {
    Dict(if k in d.entries then d.keys else d.keys + [k], d.entries[k := v])
  }

  /** `list(d.values())` */
  function Values<K(!new), V>(d: Dict<K, V>): (r: seq<V>)
    requires Valid(d)
    ensures |r| == |d.keys|
    ensures forall i :: 0 <= i < |r| ==> r[i] == d.entries[d.keys[i]]
  {
    seq(|d.keys|, i requires 0 <= i < |d.keys| => d.entries[d.keys[i]])
  }

  /** `list(d.items())` */
  function Items<K(!new), V>(d: Dict<K, V>): (r: seq<(K, V)>)
    requires Valid(d)
    ensures |r| == |d.keys|
    ensures forall i :: 0 <= i < |r| ==> r[i] == (d.keys[i], d.entries[d.keys[i]])
  {
    seq(|d.keys|, i requires 0 <= i < |d.keys| => (d.keys[i], d.entries[d.keys[i]]))
  }

  /** `{key: value for key, value in items}`: later items override earlier ones. */
  function FromItems<K(!new), V>(items: seq<(K, V)>): (r: Dict<K, V>)
    ensures Valid(r)
  {
    if items == [] then Empty()
    else Put(FromItems(items[..|items| - 1]), items[|items| - 1].0, items[|items| - 1].1)
  }

  /** Building a dict from two item lists one after the other is the map union in which the
      second list wins. */
  lemma {:induction false} FromItemsConcat<K(!new), V>(xs: seq<(K, V)>, ys: seq<(K, V)>)
    ensures FromItems(xs + ys).entries == FromItems(xs).entries + FromItems(ys).entries
    decreases |ys|
  {
    if ys == [] {
      assert xs + ys == xs;
    } else {
      var ys' := ys[..|ys| - 1];
      var y := ys[|ys| - 1];
      assert (xs + ys)[..|xs + ys| - 1] == xs + ys';
      assert (xs + ys)[|xs + ys| - 1] == y;
      FromItemsConcat(xs, ys');
      var a, b := FromItems(xs).entries, FromItems(ys').entries;
      assert FromItems(xs + ys) == Put(FromItems(xs + ys'), y.0, y.1);
      assert FromItems(ys) == Put(FromItems(ys'), y.0, y.1);
      MergeUpdate(a, b, y.0, y.1);
    }
  }

  lemma MergeUpdate<K, V>(a: map<K, V>, b: map<K, V>, k: K, v: V)
    ensures (a + b)[k := v] == a + b[k := v]
  {
    var l, r := (a + b)[k := v], a + b[k := v];
    assert l.Keys == r.Keys;
    forall x | x in l
      ensures l[x] == r[x]
    {
    }
  }

  /** The entries of the first `n` keys. */
  function FirstEntries<K(!new), V>(d: Dict<K, V>, n: nat): (r: map<K, V>)
    requires Valid(d) && n <= |d.keys|
    ensures forall k :: k in r <==> k in d.keys[..n]
    ensures forall k :: k in r ==> r[k] == d.entries[k]
  {
    map k | k in d.keys[..n] :: d.entries[k]
  }

  /** One more key adds its entry. */
  lemma FirstEntriesStep<K(!new), V>(d: Dict<K, V>, n: nat)
    requires Valid(d) && n < |d.keys|
    ensures FirstEntries(d, n + 1) == FirstEntries(d, n)[d.keys[n] := d.entries[d.keys[n]]]
  {
    assert d.keys[..n + 1] == d.keys[..n] + [d.keys[n]];
    var l, r := FirstEntries(d, n + 1), FirstEntries(d, n)[d.keys[n] := d.entries[d.keys[n]]];
    assert l.Keys == r.Keys;
  }

  /** Rebuilding from the first `n` items gives the entries of the first `n` keys. */
  lemma {:induction false} FromItemsOfPrefix<K(!new), V>(d: Dict<K, V>, n: nat)
    requires Valid(d) && n <= |d.keys|
    ensures FromItems(Items(d)[..n]).entries == FirstEntries(d, n)
    decreases n
  {
    if n > 0 {
      var items := Items(d)[..n];
      var k := d.keys[n - 1];
      assert items[n - 1] == (k, d.entries[k]);
      assert items[..n - 1] == Items(d)[..n - 1];
      FromItemsOfPrefix(d, n - 1);
      FirstEntriesStep(d, n - 1);
      assert FromItems(items).entries == FromItems(items[..n - 1]).entries[k := d.entries[k]];
    }
  }

  /** Rebuilding a dict from its own items gives back its map. */
  lemma FromItemsOfItems<K(!new), V>(d: Dict<K, V>)
    requires Valid(d)
    ensures FromItems(Items(d)).entries == d.entries
  {
    var n := |d.keys|;
    assert Items(d)[..n] == Items(d);
    FromItemsOfPrefix(d, n);
    assert d.keys[..n] == d.keys;
    var m := FirstEntries(d, n);
    assert m.Keys == d.entries.Keys;
    assert forall k :: k in m ==> m[k] == d.entries[k];
  }
}
