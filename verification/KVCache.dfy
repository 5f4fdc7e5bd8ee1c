/** The in-memory write cache with tombstones, and iteration over a sorted snapshot of its keys. */
module KVCaches {
  import opened Sorting
  import opened Bytes
  import opened KeyDomain
  import opened MultiIterators

  datatype ValueInfo = ValueInfo(value: Slice, deleted: bool)

  type Cache = map<Bytes, ValueInfo>

  function InfoOf(cache: Cache, key: Bytes): ValueInfo {
    if key in cache then cache[key] else ValueInfo(Nil, false)
  }

  function Values(cache: Cache): (m: map<Bytes, Slice>)
    ensures m.Keys == cache.Keys
  {
    map k | k in cache :: cache[k].value
  }

  /** The pairs of `m` at the given keys. */
  function Items(m: map<Bytes, Slice>, keys: seq<Bytes>): (r: seq<KV>)
    requires forall k :: k in keys ==> k in m
    ensures |r| == |keys| && forall i :: 0 <= i < |keys| ==> r[i] == KV(keys[i], m[keys[i]])
  {
    seq(|keys|, i requires 0 <= i < |keys| => KV(keys[i], m[keys[i]]))
  }

  /** What iterating over `m` between two endpoints yields. */
  function Range(m: map<Bytes, Slice>, start: Slice, end: Slice): seq<KV> {
    var keys := SortedWithin(m.Keys, start, end);
    assert forall k :: k in keys ==> k in Elements(keys);
    Items(m, keys)
  }

  lemma {:induction false} RangeSorted(m: map<Bytes, Slice>, start: Slice, end: Slice, reverse: bool)
    requires CompareKeys(start, end) == 0 || CompareKeys(start, end) == LessComp(reverse)
    ensures SortedKeys(reverse, Range(m, start, end))
  {
    var keys := SortedWithin(m.Keys, start, end);
    if CompareKeys(start, end) == 0 {
      EmptyDomain(m.Keys, start, end);
    } else {
      forall i, j | 0 <= i < j < |keys| ensures Compare(keys[i], keys[j]) == LessComp(reverse) {
        CompareEqual(keys[i], keys[j]);
      }
    }
  }

  lemma {:induction false} RangeEmpty(m: map<Bytes, Slice>, start: Slice, end: Slice)
    ensures Range(m, start, end) == [] <==> forall k :: k in m ==> !InDomain(k, start, end)
  {
    hide Range, InDomain;
    if Range(m, start, end) != [] {
      RangeMember(m, start, end, Range(m, start, end)[0]);
    }
    forall k | k in m && InDomain(k, start, end) ensures Range(m, start, end) != [] {
      RangeMember(m, start, end, KV(k, m[k]));
    }
  }

  lemma {:induction false} RangeMember(m: map<Bytes, Slice>, start: Slice, end: Slice, kv: KV)
    ensures kv in Range(m, start, end) <==> kv.key in m && InDomain(kv.key, start, end) && kv.value == m[kv.key]
  {
    hide Sort;
    var keys := SortedWithin(m.Keys, start, end);
    if kv in Range(m, start, end) {
      var i :| 0 <= i < |keys| && Range(m, start, end)[i] == kv;
      assert keys[i] in Elements(keys);
    } else if kv.key in m && InDomain(kv.key, start, end) {
      assert kv.key in Elements(keys);
      var i :| 0 <= i < |keys| && keys[i] == kv.key;
      assert Range(m, start, end)[i] == KV(kv.key, m[kv.key]);
    }
  }

  ghost predicate InKeyOrder(down: bool, s: seq<KV>) {
    forall i, j :: 0 <= i < j < |s| ==> if down then Compare(s[i].key, s[j].key) > 0 else Compare(s[i].key, s[j].key) < 0
  }

  /** The pairs of `m` that the bounds select, each once, in the direction the bounds point in. */
  ghost predicate Lists(m: map<Bytes, Slice>, start: Slice, end: Slice, reverse: bool, s: seq<KV>) {
    && InKeyOrder(Downwards(start, end, reverse), s)
    && forall kv :: kv in s <==> kv.key in m && m[kv.key] == kv.value && Selected(kv.key, start, end, reverse)
  }

  lemma {:induction false} RangeLists(m: map<Bytes, Slice>, start: Slice, end: Slice, reverse: bool)
    ensures var (s, e) := NormaliseDomain(start, end, reverse); Lists(m, start, end, reverse, Range(m, s, e))
  {
    hide Range, InDomain, Selected, NormaliseDomain, CompareKeys;
    var (s, e) := NormaliseDomain(start, end, reverse);
    NormalisedDomain(start, end, reverse, []);
    RangeSorted(m, s, e, Downwards(start, end, reverse));
    forall kv ensures kv in Range(m, s, e) <==>
                      kv.key in m && m[kv.key] == kv.value && Selected(kv.key, start, end, reverse) {
      RangeMember(m, s, e, kv);
      NormalisedDomain(start, end, reverse, kv.key);
    }
  }

  class KVCacheIterator {
    var items: map<Bytes, Slice>
    var keys: seq<Bytes>
    var index: nat

    predicate Valid()
      reads this
    {
      index <= |keys| && forall k :: k in keys ==> k in items
    }

    /** The pairs still to come. */
    function Remaining(): seq<KV>
      requires Valid()
      reads this
    {
      Items(items, keys[index..])
    }

    constructor (items: map<Bytes, Slice>, keys: seq<Bytes>)
      requires forall k :: k in keys ==> k in items
      ensures Valid() && Remaining() == Items(items, keys)
    {
      this.items, this.keys, index := items, keys, 0;
    }

    method HasCurrent() returns (b: bool)
      requires Valid()
      ensures b <==> Remaining() != []
    {
      b := index < |keys|;
    }

    method Current() returns (kv: KV)
      requires Valid() && Remaining() != []
      ensures kv == Remaining()[0]
    {
      kv := KV(keys[index], items[keys[index]]);
    }

    method Next()
      requires Valid() && Remaining() != []
      modifies this`index
      ensures Valid() && Remaining() == old(Remaining())[1..]
    {
      index := index + 1;
    }
  }

  method SortKeys(keys: set<Bytes>, reverse: bool) returns (sorted: seq<Bytes>)
    ensures StrictlySorted(sorted, Order(reverse)) && Elements(sorted) == keys
  {
    BytesOrdered();
    sorted := Sort(keys, Order(reverse));
  }

  /** Seek to the first key of the domain in sorted order, then cut at its end. */
  method SortedKeysInDomain(keys: set<Bytes>, start: Slice, end: Slice) returns (r: seq<Bytes>)
    ensures r == SortedWithin(keys, start, end)
  {
    hide Sort;
    var comp := CompareKeys(start, end);
    if comp == 0 {
      EmptyDomain(keys, start, end);
      return [];
    }
    var sorted := SortKeys(keys, comp == 1);
    var i := 0;
    while i < |sorted| && CompareKeys(Of(sorted[i]), start) == comp
      invariant 0 <= i <= |sorted|
      invariant forall k :: 0 <= k < i ==> CompareKeys(Of(sorted[k]), start) == comp
    {
      i := i + 1;
    }
    var j := i;
    while j < |sorted| && CompareKeys(Of(sorted[j]), end) == comp
      invariant i <= j <= |sorted|
      invariant forall k :: i <= k < j ==> CompareKeys(Of(sorted[k]), end) == comp
    {
      j := j + 1;
    }
    SliceIsDomain(sorted, start, end, i, j);
    r := sorted[i..j];
  }

  lemma {:induction false} EmptyDomain(keys: set<Bytes>, start: Slice, end: Slice)
    requires CompareKeys(start, end) == 0
    ensures SortedWithin(keys, start, end) == []
  {
    NoElements(SortedWithin(keys, start, end));
    assert KeysWithin(keys, start, end) == {};
  }

  /** Iterator and ReverseIterator of any map kept in memory. */
  method IterateMap(items: map<Bytes, Slice>, start: Slice, end: Slice, reverse: bool) returns (it: KVCacheIterator)
    ensures fresh(it) && it.Valid()
    ensures Lists(items, start, end, reverse, it.Remaining())
    ensures var (s, e) := NormaliseDomain(start, end, reverse); it.Remaining() == Range(items, s, e)
  {
    hide Sort, Lists;
    RangeLists(items, start, end, reverse);
    var (s, e) := NormaliseDomain(start, end, reverse);
    var keys := SortedKeysInDomain(items.Keys, s, e);
    assert forall k :: k in keys ==> k in Elements(keys);
    it := new KVCacheIterator(items, keys);
  }

  class KVCache {
    var cache: Cache

    constructor ()
      ensures cache == map[]
    {
      cache := map[];
    }

    method Info(key: Bytes) returns (value: Slice, deleted: bool)
      ensures ValueInfo(value, deleted) == InfoOf(cache, key)
    {
      if key in cache {
        return cache[key].value, cache[key].deleted;
      }
      return Nil, false;
    }

    method Set(key: Bytes, value: Slice)
      modifies this
      ensures cache == old(cache)[key := ValueInfo(value, false)]
    {
      cache := cache[key := ValueInfo(value, false)];
    }

    method Delete(key: Bytes)
      modifies this
      ensures cache == old(cache)[key := ValueInfo(Nil, true)]
    {
      cache := cache[key := ValueInfo(Nil, true)];
    }

    method Reset()
      modifies this
      ensures cache == map[]
    {
      cache := map[];
    }
  }
}
