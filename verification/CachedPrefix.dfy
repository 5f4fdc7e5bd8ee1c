/** Iterating over the keys of a format in a cached store. */
module CachedPrefixes {
  import opened Options
  import opened Bytes
  import opened KeyDomain
  import opened MultiIterators
  import opened KVCaches
  import opened CacheModel
  import opened CacheDBs
  import opened KeyFormats
  import opened Prefixes

  /** The underlying endpoints run along the iteration exactly when the bounds do. */
  lemma {:induction false} DomainDirection(p: Bytes, start: Slice, end: Slice, reverse: bool)
    ensures var (s, e) := Domain(p, start, end, reverse);
            if ProperBounds(start, end, reverse) then CompareKeys(s, e) == 0 || CompareKeys(s, e) == LessComp(reverse)
            else CompareKeys(s, e) == LessComp(!reverse)
  {
    hide SourceBounds;
    if !ProperBounds(start, end, reverse) {
      AgainstDomain(p, start, end, reverse, []);
    } else if p == [] {
      WholeDomain(start, end, reverse, []);
    } else if reverse {
      ReverseProper(p, start, end);
    } else {
      ForwardBounds(p, start, end, []);
    }
  }

  /** The pairs of the store that its iterator hands to a prefix iterator. */
  function MergedPairs(db: DB, p: Bytes, start: Slice, end: Slice, reverse: bool): seq<KV> {
    var (s, e) := Domain(p, start, end, reverse);
    if ProperBounds(start, end, reverse) then Range(Overlaid(db.cache, db.backend), s, e)
    else OneAfterOther(reverse, Range(Values(db.cache), s, e), Range(db.backend, s, e))
  }

  /** Whether a stored pair belongs into an iteration over the suffixes of `p`. */
  ghost predicate Listed(m: map<Bytes, Slice>, p: Bytes, start: Slice, end: Slice, reverse: bool, kv: KV) {
    && p + kv.key in m && m[p + kv.key] == kv.value
    && InBounds(kv.key, start, end, reverse) && !Missed(p, kv.key, reverse)
  }

  ghost predicate ListsInOrder(m: map<Bytes, Slice>, p: Bytes, start: Slice, end: Slice, reverse: bool, out: seq<KV>) {
    SortedKeys(reverse, out) && forall kv :: kv in out <==> Listed(m, p, start, end, reverse, kv)
  }

  lemma {:induction false} MergedLists(db: DB, p: Bytes, start: Slice, end: Slice, reverse: bool)
    requires ProperBounds(start, end, reverse)
    ensures ListsInOrder(Overlaid(db.cache, db.backend), p, start, end, reverse,
                         Suffixes(p, Skipped(p, MergedPairs(db, p, start, end, reverse), reverse)))
  {
    hide Range, Suffixes, SourceBounds, OneAfterOther, InBounds, SortedKeys, Skipped, NormaliseDomain, Missed, Overlaid;
    PrefixIteration(Overlaid(db.cache, db.backend), p, start, end, reverse);
  }

  /**
    The prefix iterators over a cached store: along their direction they list, in strict order,
    exactly the suffixes in bounds of the backend overlaid with the cache.
   */
  method IterateCached(db: CacheDB, p: Bytes, start: Slice, end: Slice, reverse: bool) returns (it: PrefixIterator)
    ensures fresh(it) && fresh(it.source.Footprint()) && it.Valid()
    ensures it.Contents() == Suffixes(p, Skipped(p, MergedPairs(db.View(), p, start, end, reverse), reverse))
    ensures ProperBounds(start, end, reverse) ==>
              ListsInOrder(Overlaid(db.cache.cache, db.backend.items), p, start, end, reverse, it.Contents())
  {
    hide Range, Suffixes, SourceBounds, OneAfterOther, ProperBounds, ListsInOrder, Skipped, Lists, Selected, NormaliseDomain,
         Overlaid, Values, CompareKeys, KVs, Downwards, Successor;
    var s, e := SourceEnds(p, start, end, reverse);
    DomainDirection(p, start, end, reverse);
    var merged := db.Iterate(s, e, reverse);
    it := new PrefixIterator(p, OverStore(merged), reverse);
    if ProperBounds(start, end, reverse) {
      MergedLists(db.View(), p, start, end, reverse);
    }
  }

  // ---- Tuples of 64-bit words -----------------------------------------------------------

  /** What a key holds behind its prefix. */
  function TupleKey(vs: seq<int>): Bytes
    requires Words(vs)
  {
    Concat(FormatAll(vs))
  }

  predicate WordBound(x: Option<seq<int>>) {
    x.Some? ==> Words(x.value)
  }

  function TupleBound(x: Option<seq<int>>): Slice
    requires WordBound(x)
  {
    if x.None? then Nil else Of(TupleKey(x.value))
  }

  /** Going down if asked to, unless the bounds run the other way. */
  predicate TuplesDown(x: Option<seq<int>>, y: Option<seq<int>>, reverse: bool) {
    if x.Some? && y.Some? && CompareTuples(x.value, y.value) == LessComp(!reverse) then !reverse else reverse
  }

  /** From `x` on, up to but not including `y`. */
  predicate TupleWithin(a: seq<int>, x: Option<seq<int>>, y: Option<seq<int>>, down: bool) {
    if down then (x.None? || CompareTuples(a, x.value) <= 0) && (y.None? || CompareTuples(a, y.value) > 0)
    else (x.None? || CompareTuples(a, x.value) >= 0) && (y.None? || CompareTuples(a, y.value) < 0)
  }

  predicate WordFormat(kf: KeyFormat) {
    forall i :: 0 <= i < |kf.layout| ==> kf.layout[i] == 8
  }

  /** What KeyFormat.Iterator lists of the map `m` between two tuples. */
  function TuplesOf(m: map<Bytes, Slice>, kf: KeyFormat, x: Option<seq<int>>, y: Option<seq<int>>, reverse: bool): seq<KV>
    requires WordBound(x) && WordBound(y)
  {
    Suffixes(kf.prefix, SourcePairs(m, kf.prefix, TupleBound(x), TupleBound(y), reverse))
  }

  lemma {:induction false} TupleBounds(a: seq<int>, x: Option<seq<int>>, y: Option<seq<int>>, reverse: bool)
    requires Words(a) && WordBound(x) && WordBound(y)
    ensures Downwards(TupleBound(x), TupleBound(y), reverse) == TuplesDown(x, y, reverse)
    ensures InBounds(TupleKey(a), TupleBound(x), TupleBound(y), reverse) <==> TupleWithin(a, x, y, reverse)
  {
    hide CompareTuples;
    if x.Some? { ConcatOrder(a, x.value); }
    if y.Some? { ConcatOrder(a, y.value); }
    if x.Some? && y.Some? { ConcatOrder(x.value, y.value); }
  }

  /** The iterators of a format of words list exactly the stored tuples between their bounds. */
  lemma {:induction false} TuplesListed(m: map<Bytes, Slice>, kf: KeyFormat, x: Option<seq<int>>, y: Option<seq<int>>,
                                        reverse: bool, a: seq<int>, v: Slice)
    requires WordFormat(kf) && WordBound(x) && WordBound(y) && Words(a) && |a| <= |kf.layout|
    ensures var key := Key(kf, FormatAll(a));
            && key.Ok?
            && (KV(TupleKey(a), v) in TuplesOf(m, kf, x, y, reverse) <==>
                && key.value in m && m[key.value] == v
                && TupleWithin(a, x, y, TuplesDown(x, y, reverse)) && !(reverse && kf.prefix == [] && a == []))
  {
    hide Suffixes, SourcePairs, InBounds, TupleWithin, TuplesDown, Downwards, CompareTuples;
    PrefixIteration(m, kf.prefix, TupleBound(x), TupleBound(y), reverse);
    TupleBounds(a, x, y, reverse);
    TupleBounds(a, x, y, TuplesDown(x, y, reverse));
    assert TupleKey(a) == [] <==> a == [];
  }

  /** They come in the order of the tuples. */
  lemma {:induction false} TuplesInOrder(m: map<Bytes, Slice>, kf: KeyFormat, x: Option<seq<int>>, y: Option<seq<int>>,
                                         reverse: bool, i: nat, j: nat, a: seq<int>, b: seq<int>)
    requires WordBound(x) && WordBound(y) && Words(a) && Words(b)
    requires i < j < |TuplesOf(m, kf, x, y, reverse)|
    requires TuplesOf(m, kf, x, y, reverse)[i].key == TupleKey(a) && TuplesOf(m, kf, x, y, reverse)[j].key == TupleKey(b)
    ensures CompareTuples(a, b) == LessComp(TuplesDown(x, y, reverse))
  {
    hide Suffixes, SourcePairs, InBounds, CompareTuples, Concat;
    PrefixIteration(m, kf.prefix, TupleBound(x), TupleBound(y), reverse);
    TupleBounds(a, x, y, reverse);
    ConcatOrder(a, b);
  }
}
