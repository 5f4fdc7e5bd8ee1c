/** The cached store, its cache and its backend as objects. */
module CacheDBs {
  import opened Sorting
  import opened Bytes
  import opened KeyDomain
  import opened MultiIterators
  import opened UniqueIterators
  import opened KVCaches
  import opened CacheModel

  /** A backing store that keeps its keys sorted. */
  class Store {
    var items: map<Bytes, Slice>

    constructor ()
      ensures items == map[]
    {
      items := map[];
    }

    method Set(key: Bytes, value: Slice)
      modifies this
      ensures items == old(items)[key := value]
    {
      items := items[key := value];
    }

    method Delete(key: Bytes)
      modifies this
      ensures items == old(items) - {key}
    {
      items := items - {key};
    }
  }

  lemma {:induction false} FlushStep(cache: Cache, key: Bytes, info: ValueInfo, backend: map<Bytes, Slice>)
    requires key !in cache
    ensures var sofar := Flushed(cache, backend);
            Flushed(cache[key := info], backend) == if info.deleted then sofar - {key} else sofar[key := info.value]
  {
  }

  /** Write every cached change out, in whatever order the map is walked. */
  method WriteTo(cache: Cache, writer: Store)
    modifies writer
    ensures writer.items == Flushed(cache, old(writer.items))
  {
    var todo := cache.Keys;
    ghost var done: Cache := map[];
    assert Flushed(done, writer.items) == writer.items;
    while todo != {}
      invariant todo <= cache.Keys
      invariant done == map k | k in cache && k !in todo :: cache[k]
      invariant writer.items == Flushed(done, old(writer.items))
    {
      var k :| k in todo;
      FlushStep(done, k, cache[k], old(writer.items));
      if cache[k].deleted {
        writer.Delete(k);
      } else {
        writer.Set(k, cache[k].value);
      }
      todo := todo - {k};
      done := done[k := cache[k]];
    }
    assert done == cache;
  }

  class CacheDB {
    const cache: KVCache
    const backend: Store

    ghost function View(): DB
      reads cache, backend
    {
      DB(cache.cache, backend.items)
    }

    constructor (backend: Store)
      ensures this.backend == backend && fresh(cache)
      ensures View() == DB(map[], backend.items)
    {
      this.backend := backend;
      cache := new KVCache();
    }

    method Get(key: Bytes) returns (value: Slice)
      ensures value == CacheModel.Get(View(), key)
    {
      var v, deleted := cache.Info(key);
      if deleted {
        return Nil;
      }
      if v != Nil {
        return v;
      }
      value := if key in backend.items then backend.items[key] else Nil;
    }

    method Has(key: Bytes) returns (b: bool)
      ensures b <==> CacheModel.Has(View(), key)
    {
      var v, deleted := cache.Info(key);
      b := !deleted && (v != Nil || key in backend.items);
    }

    method Set(key: Bytes, value: Slice)
      modifies cache
      ensures View() == Apply(old(View()), SetOp(key, value))
    {
      cache.Set(key, value);
    }

    method Delete(key: Bytes)
      modifies cache
      ensures View() == Apply(old(View()), DeleteOp(key))
    {
      cache.Delete(key);
    }

    /** Write the cache out to any writer, the backend as a rule, and start with an empty one. */
    method Commit(writer: Store)
      modifies cache, writer
      ensures cache.cache == map[] && writer.items == Flushed(old(cache.cache), old(writer.items))
      ensures writer == backend ==> View() == Apply(old(View()), CommitOp)
    {
      WriteTo(cache.cache, writer);
      cache.Reset();
    }

    /** Write out a batch: its changes go to this store's own cache. */
    method WriteBatch(batch: Cache)
      requires forall k :: k in batch && batch[k].deleted ==> batch[k].value.Nil?
      modifies cache
      ensures View() == old(View()).(cache := old(cache.cache) + batch)
    {
      var todo := batch.Keys;
      while todo != {}
        invariant todo <= batch.Keys
        invariant cache.cache == old(cache.cache) + (map k | k in batch && k !in todo :: batch[k])
      {
        var k :| k in todo;
        if batch[k].deleted {
          cache.Delete(k);
        } else {
          cache.Set(k, batch[k].value);
        }
        todo := todo - {k};
      }
    }

    /**
      Iterator, and ReverseIterator when `reverse` is set. Endpoints against that direction still
      select keys, which cache and backend then serve one after the other, walking the other way.
     */
    method Iterate(start: Slice, end: Slice, reverse: bool) returns (it: UniqueIterator)
      ensures fresh(it) && fresh(it.source) && it.source.Valid()
      ensures it.Contents() == [] <==>
              forall k :: k in cache.cache || k in backend.items ==> !Selected(k, start, end, reverse)
      ensures ProperBounds(start, end, reverse) ==>
                Lists(Overlaid(cache.cache, backend.items), start, end, reverse, KVs(it.Contents()))
      ensures !ProperBounds(start, end, reverse) ==>
                exists a, b ::
                  && Lists(Values(cache.cache), start, end, reverse, a) && Lists(backend.items, start, end, reverse, b)
                  && KVs(it.Contents()) == OneAfterOther(reverse, a, b)
      ensures var (s, e) := NormaliseDomain(start, end, reverse);
              KVs(it.Contents()) ==
              if CompareKeys(s, e) == 0 || CompareKeys(s, e) == LessComp(reverse) then
                Range(Overlaid(cache.cache, backend.items), s, e)
              else
                OneAfterOther(reverse, Range(Values(cache.cache), s, e), Range(backend.items, s, e))
    {
      hide Range, Dedup, Sort, Served, OneAfterOther, Lists, InDomain, Selected;
      var (s, e) := NormaliseDomain(start, end, reverse);
      var fromCache := IterateMap(Values(cache.cache), start, end, reverse);
      var fromBackend := IterateMap(backend.items, start, end, reverse);
      var merged := new MultiIterator(reverse, [fromCache.Remaining(), fromBackend.Remaining()]);
      MergedRange(reverse, Values(cache.cache), backend.items, s, e);
      MergedEmpty(reverse, Values(cache.cache), backend.items, s, e);
      forall k ensures InDomain(k, s, e) <==> Selected(k, start, end, reverse) {
        NormalisedDomain(start, end, reverse, k);
      }
      NormalisedDomain(start, end, reverse, []);
      RangeLists(Overlaid(cache.cache, backend.items), start, end, reverse);
      it := new UniqueIterator(merged);
    }
  }
}
