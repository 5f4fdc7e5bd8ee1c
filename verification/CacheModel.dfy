/** A store with a write cache in front of it, as a value: tombstones, merged iteration and commit. */
module CacheModel {
  import opened Sorting
  import opened Bytes
  import opened KeyDomain
  import opened MultiIterators
  import opened UniqueIterators
  import opened KVCaches

  // ---- The pair of cache and backend as a value -----------------------------------------

  datatype DB = DB(cache: Cache, backend: map<Bytes, Slice>)

  function Get(db: DB, key: Bytes): Slice {
    var info := InfoOf(db.cache, key);
    if info.deleted then Nil
    else if info.value != Nil then info.value
    else if key in db.backend then db.backend[key] else Nil
  }

  predicate Has(db: DB, key: Bytes) {
    var info := InfoOf(db.cache, key);
    !info.deleted && (info.value != Nil || key in db.backend)
  }

  /** The backend after the cache is written to it. */
  function Flushed(cache: Cache, backend: map<Bytes, Slice>): map<Bytes, Slice> {
    map k | k in backend.Keys + cache.Keys && !(k in cache && cache[k].deleted) ::
      if k in cache then cache[k].value else backend[k]
  }

  /** Cache over backend, tombstones included: what the iterators walk. */
  function Overlaid(cache: Cache, backend: map<Bytes, Slice>): (m: map<Bytes, Slice>)
    ensures m.Keys == backend.Keys + cache.Keys
  {
    backend + Values(cache)
  }

  datatype Op = SetOp(key: Bytes, value: Slice) | DeleteOp(key: Bytes) | CommitOp

  function Apply(db: DB, op: Op): DB {
    match op
    case SetOp(k, v) => db.(cache := db.cache[k := ValueInfo(v, false)])
    case DeleteOp(k) => db.(cache := db.cache[k := ValueInfo(Nil, true)])
    case CommitOp => DB(map[], Flushed(db.cache, db.backend))
  }

  function Run(db: DB, ops: seq<Op>): DB {
    if ops == [] then db else Apply(Run(db, ops[..|ops| - 1]), ops[|ops| - 1])
  }

  // ---- The plain map it stands for ------------------------------------------------------

  function Plain(db: DB): map<Bytes, Bytes> {
    map k | k in db.backend.Keys + db.cache.Keys && Get(db, k) != Nil :: Get(db, k).bytes
  }

  function PlainApply(m: map<Bytes, Bytes>, op: Op): map<Bytes, Bytes> {
    match op
    case SetOp(k, v) => if v.Nil? then m else m[k := v.bytes]
    case DeleteOp(k) => m - {k}
    case CommitOp => m
  }

  function PlainRun(m: map<Bytes, Bytes>, ops: seq<Op>): map<Bytes, Bytes> {
    if ops == [] then m else PlainApply(PlainRun(m, ops[..|ops| - 1]), ops[|ops| - 1])
  }

  predicate NonNil(op: Op) {
    op.SetOp? ==> op.value.Of?
  }

  /** No nil value was ever stored: an entry without a value is a tombstone. */
  ghost predicate Sound(db: DB) {
    && (forall k :: k in db.backend ==> db.backend[k].Of?)
    && (forall k :: k in db.cache ==> (db.cache[k].deleted <==> db.cache[k].value.Nil?))
  }

  /** Only the key written changes; a commit changes nothing that can be read. */
  function GetAfter(db: DB, op: Op, key: Bytes): Slice {
    match op
    case SetOp(k, v) => if k == key then v else Get(db, key)
    case DeleteOp(k) => if k == key then Nil else Get(db, key)
    case CommitOp => Get(db, key)
  }

  lemma {:induction false} ApplyGet(db: DB, op: Op, key: Bytes)
    requires Sound(db) && NonNil(op)
    ensures Get(Apply(db, op), key) == GetAfter(db, op, key)
  {
  }

  lemma {:induction false} ApplySound(db: DB, op: Op)
    requires Sound(db) && NonNil(op)
    ensures Sound(Apply(db, op))
  {
  }

  lemma {:induction false} PlainIsGet(db: DB, key: Bytes)
    ensures key in Plain(db) <==> Get(db, key) != Nil
    ensures key in Plain(db) ==> Of(Plain(db)[key]) == Get(db, key)
  {
  }

  lemma {:induction false} ApplyRefines(db: DB, op: Op)
    requires Sound(db) && NonNil(op)
    ensures Plain(Apply(db, op)) == PlainApply(Plain(db), op)
  {
    hide Apply, Plain, Get, Sound;
    var after, expected := Plain(Apply(db, op)), PlainApply(Plain(db), op);
    forall k ensures k in after <==> k in expected
             ensures k in after ==> after[k] == expected[k] {
      ApplyGet(db, op, k);
      PlainIsGet(db, k);
      PlainIsGet(Apply(db, op), k);
    }
  }

  /** Under every run of writes, deletes and commits the cached store stands for a plain map. */
  lemma {:induction false} RunPlain(db: DB, ops: seq<Op>)
    requires Sound(db) && forall op :: op in ops ==> NonNil(op)
    ensures Sound(Run(db, ops)) && Plain(Run(db, ops)) == PlainRun(Plain(db), ops)
  {
    if ops != [] {
      RunPlain(db, ops[..|ops| - 1]);
      ApplySound(Run(db, ops[..|ops| - 1]), ops[|ops| - 1]);
      ApplyRefines(Run(db, ops[..|ops| - 1]), ops[|ops| - 1]);
    }
  }

  lemma {:induction false} ReadsPlain(db: DB, key: Bytes)
    requires Sound(db)
    ensures Get(db, key) == if key in Plain(db) then Of(Plain(db)[key]) else Nil
    ensures Has(db, key) <==> key in Plain(db)
  {
  }

  /** After every run Get and Has answer as the plain map does after the same run. */
  lemma {:induction false} RunRefines(db: DB, ops: seq<Op>, key: Bytes)
    requires Sound(db) && forall op :: op in ops ==> NonNil(op)
    ensures var after := PlainRun(Plain(db), ops);
            && Get(Run(db, ops), key) == (if key in after then Of(after[key]) else Nil)
            && (Has(Run(db, ops), key) <==> key in after)
  {
    hide Run, PlainRun, Plain, Get, Has;
    RunPlain(db, ops);
    ReadsPlain(Run(db, ops), key);
  }

  /** Since the last commit the key was last deleted. */
  predicate Buried(ops: seq<Op>, key: Bytes) {
    ops != [] &&
    var n := |ops| - 1;
    match ops[n]
    case SetOp(k, _) => k != key && Buried(ops[..n], key)
    case DeleteOp(k) => k == key || Buried(ops[..n], key)
    case CommitOp => false
  }

  lemma {:induction false} BuriedExactly(backend: map<Bytes, Slice>, ops: seq<Op>, key: Bytes)
    requires Sound(DB(map[], backend)) && forall op :: op in ops ==> NonNil(op)
    ensures var db := Run(DB(map[], backend), ops); key in db.cache && db.cache[key].deleted <==> Buried(ops, key)
  {
    if ops != [] {
      BuriedExactly(backend, ops[..|ops| - 1], key);
    }
  }

  lemma {:induction false} OverlaidReads(db: DB, key: Bytes)
    requires Sound(db)
    ensures var m := Overlaid(db.cache, db.backend);
            && (key in m && m[key].Of? <==> key in Plain(db)) && (key in Plain(db) ==> m[key] == Of(Plain(db)[key]))
            && (key in m && m[key].Nil? <==> key in db.cache && db.cache[key].deleted)
  {
  }

  /**
    What an iteration lists after any run: the entries of the plain map after the same run that are
    in bounds, and with a nil value the keys deleted since the last commit.
   */
  lemma {:induction false} IterationAfterRun(backend: map<Bytes, Slice>, ops: seq<Op>, start: Slice, end: Slice, reverse: bool,
                                             s: seq<KV>, key: Bytes)
    requires Sound(DB(map[], backend)) && forall op :: op in ops ==> NonNil(op)
    requires var db := Run(DB(map[], backend), ops); Lists(Overlaid(db.cache, db.backend), start, end, reverse, s)
    ensures var plain := PlainRun(Plain(DB(map[], backend)), ops);
            forall v :: KV(key, Of(v)) in s <==> Selected(key, start, end, reverse) && key in plain && plain[key] == v
    ensures KV(key, Nil) in s <==> Selected(key, start, end, reverse) && Buried(ops, key)
  {
    hide Run, PlainRun, Plain, Buried, Overlaid, Sound, Selected, NonNil;
    var db := Run(DB(map[], backend), ops);
    RunPlain(DB(map[], backend), ops);
    OverlaidReads(db, key);
    BuriedExactly(backend, ops, key);
  }

  // ---- Batches --------------------------------------------------------------------------

  /** A batch gathers writes in a cache of its own. */
  function Gather(ops: seq<Op>): Cache {
    Run(DB(map[], map[]), ops).cache
  }

  /** Writing a batch to the cached store does at once what its operations do one by one. */
  lemma {:induction false} BatchIsRun(db: DB, ops: seq<Op>)
    requires forall op :: op in ops ==> !op.CommitOp?
    ensures db.(cache := db.cache + Gather(ops)) == Run(db, ops)
  {
    hide Apply;
    if ops == [] {
      assert db.cache + map[] == db.cache;
    } else {
      BatchIsRun(db, ops[..|ops| - 1]);
      assert ops[|ops| - 1] in ops;
      BatchStep(db, Run(DB(map[], map[]), ops[..|ops| - 1]), ops[|ops| - 1]);
    }
  }

  lemma {:induction false} BatchStep(db: DB, batch: DB, op: Op)
    requires !op.CommitOp?
    ensures db.(cache := db.cache + Apply(batch, op).cache) == Apply(db.(cache := db.cache + batch.cache), op)
  {
    var k, v := op.key, if op.SetOp? then ValueInfo(op.value, false) else ValueInfo(Nil, true);
    assert db.cache + batch.cache[k := v] == (db.cache + batch.cache)[k := v];
  }

  /** Writing nil is lost: the key reads back as nil exactly when the backend does not hold it. */
  lemma {:induction false} NilWriteLost(db: DB, key: Bytes)
    requires Sound(db)
    ensures Get(Apply(db, SetOp(key, Nil)), key) == Nil <==> key !in db.backend
    ensures Has(Apply(db, SetOp(key, Nil)), key) <==> key in db.backend
  {
  }

  /** The iterators serve each key in its domain with the value Get returns for it. */
  lemma {:induction false} RangeReadsGet(db: DB, start: Slice, end: Slice, i: nat)
    requires Sound(db) && i < |Range(Overlaid(db.cache, db.backend), start, end)|
    ensures var kv := Range(Overlaid(db.cache, db.backend), start, end)[i]; kv.value == Get(db, kv.key)
  {
    hide Sort, SortedWithin;
    var keys := SortedWithin(Overlaid(db.cache, db.backend).Keys, start, end);
    assert keys[i] in Elements(keys);
  }

  // ---- Merging the two iterations -------------------------------------------------------

  function KVs(s: seq<Entry>): (r: seq<KV>)
    ensures |r| == |s| && forall i :: 0 <= i < |s| ==> r[i] == s[i].kv
  {
    seq(|s|, i requires 0 <= i < |s| => s[i].kv)
  }

  /** The pairs of both, ordered by key and the cache's first. */
  ghost predicate MergeOf(reverse: bool, s: seq<Entry>, a: seq<KV>, b: seq<KV>) {
    Ordered(reverse, s) && Elements(s) == Pairs([a, b])
  }

  lemma {:induction false} MergeEntry(reverse: bool, s: seq<Entry>, a: seq<KV>, b: seq<KV>, i: nat)
    requires MergeOf(reverse, s, a, b) && i < |s|
    ensures (s[i].order == 0 && s[i].kv in a) || (s[i].order == 1 && s[i].kv in b)
  {
    assert s[i] in Elements(s);
  }

  lemma {:induction false} MergeHas(reverse: bool, s: seq<Entry>, a: seq<KV>, b: seq<KV>, o: nat, kv: KV) returns (i: nat)
    requires MergeOf(reverse, s, a, b)
    requires o < 2 && kv in [a, b][o]
    ensures i < |s| && s[i] == Entry(o, kv)
  {
    var j :| 0 <= j < |[a, b][o]| && [a, b][o][j] == kv;
    assert Entry(o, [a, b][o][j]) in Pairs([a, b]);
    assert Entry(o, kv) in Elements(s);
    i :| 0 <= i < |s| && s[i] == Entry(o, kv);
  }

  /** The pair kept for a key is the cache's if the cache has one, the backend's otherwise. */
  lemma {:induction false} MergeValue(reverse: bool, s: seq<Entry>, top: map<Bytes, Slice>, bottom: map<Bytes, Slice>,
                                      start: Slice, end: Slice, i: nat)
    requires MergeOf(reverse, s, Range(top, start, end), Range(bottom, start, end)) && i < |Dedup(s)|
    ensures var kv := Dedup(s)[i].kv;
            InDomain(kv.key, start, end) && kv.key in bottom + top && kv.value == (bottom + top)[kv.key]
  {
    hide Range, Dedup, Before;
    var e := Dedup(s)[i];
    var a, b := Range(top, start, end), Range(bottom, start, end);
    var j := DedupMember(s, i);
    MergeEntry(reverse, s, a, b, j);
    RangeMember(top, start, end, e.kv);
    RangeMember(bottom, start, end, e.kv);
    if e.order == 1 && e.kv.key in top {
      var kv := KV(e.kv.key, top[e.kv.key]);
      RangeMember(top, start, end, kv);
      var k := MergeHas(reverse, s, a, b, 0, kv);
      var i' := DedupKeeps(reverse, s, k);
      SameKeySameIndex(reverse, s, i, i');
      NotBefore(reverse, e, s[k]);
    }
  }

  lemma {:induction false} SameKeySameIndex(reverse: bool, s: seq<Entry>, i: nat, j: nat)
    requires Ordered(reverse, s) && i < |Dedup(s)| && j < |Dedup(s)|
    requires Dedup(s)[i].kv.key == Dedup(s)[j].kv.key
    ensures i == j
  {
    hide Dedup;
    CompareEqual(Dedup(s)[i].kv.key, Dedup(s)[j].kv.key);
    if i < j { DedupSorted(reverse, s, i, j); }
    if j < i { DedupSorted(reverse, s, j, i); }
  }

  lemma {:induction false} NotBefore(reverse: bool, a: Entry, b: Entry)
    requires a.kv.key == b.kv.key && a.order > b.order
    ensures !Before(reverse, a, b)
  {
    CompareEqual(a.kv.key, b.kv.key);
  }

  lemma {:induction false} MergeKeys(reverse: bool, s: seq<Entry>, top: map<Bytes, Slice>, bottom: map<Bytes, Slice>,
                                     start: Slice, end: Slice)
    requires MergeOf(reverse, s, Range(top, start, end), Range(bottom, start, end))
    ensures Elements(KeysOf(Dedup(s))) == KeysWithin((bottom + top).Keys, start, end)
  {
    hide Range, Dedup, Before, InDomain;
    var keys := KeysOf(Dedup(s));
    var within := KeysWithin((bottom + top).Keys, start, end);
    forall k ensures k in Elements(keys) <==> k in within {
      if k in Elements(keys) {
        var i :| 0 <= i < |keys| && keys[i] == k;
        MergeValue(reverse, s, top, bottom, start, end, i);
      }
      if k in within {
        var o := if k in top then 0 else 1;
        var kv := KV(k, if k in top then top[k] else bottom[k]);
        RangeMember(top, start, end, kv);
        RangeMember(bottom, start, end, kv);
        var j := MergeHas(reverse, s, Range(top, start, end), Range(bottom, start, end), o, kv);
        var i := DedupKeeps(reverse, s, j);
        assert keys[i] == k;
      }
    }
  }

  /** Merging two iterations with the cache first and dropping repeats iterates over the overlay. */
  lemma {:induction false} MergeIsRange(reverse: bool, s: seq<Entry>, top: map<Bytes, Slice>, bottom: map<Bytes, Slice>,
                                        start: Slice, end: Slice)
    requires CompareKeys(start, end) == 0 || CompareKeys(start, end) == LessComp(reverse)
    requires MergeOf(reverse, s, Range(top, start, end), Range(bottom, start, end))
    ensures KVs(Dedup(s)) == Range(bottom + top, start, end)
  {
    hide Dedup, Before, InDomain, Sort;
    var keys := KeysOf(Dedup(s));
    MergeKeys(reverse, s, top, bottom, start, end);
    if CompareKeys(start, end) == 0 {
      EmptyDomain((bottom + top).Keys, start, end);
      NoElements(keys);
      NoElements(SortedWithin((bottom + top).Keys, start, end));
    } else {
      forall i, j | 0 <= i < j < |keys| ensures Order(reverse)(keys[i], keys[j]) && keys[i] != keys[j] {
        DedupSorted(reverse, s, i, j);
        CompareEqual(keys[i], keys[j]);
      }
      BytesOrdered();
      SortedUnique(keys, SortedWithin((bottom + top).Keys, start, end), Order(reverse));
    }
    forall i | 0 <= i < |keys| ensures KVs(Dedup(s))[i] == Range(bottom + top, start, end)[i] {
      MergeValue(reverse, s, top, bottom, start, end, i);
    }
  }

  // ---- Bounds against the direction -----------------------------------------------------

  /** One iteration after the other; a single cached pair hides the backend's pair right behind it. */
  function OneAfterOther(reverse: bool, a: seq<KV>, b: seq<KV>): seq<KV> {
    if a != [] && b != [] && Compare(b[0].key, a[0].key) == LessComp(reverse) then b + a
    else if |a| == 1 && b != [] && a[0].key == b[0].key then a + b[1..]
    else a + b
  }

  lemma {:induction false} NeighboursDiffer(down: bool, s: seq<KV>, i: nat)
    requires SortedKeys(down, s) && 0 < i < |s|
    ensures s[i - 1].key != s[i].key
  {
    CompareEqual(s[i - 1].key, s[i].key);
  }

  /** Two iterations against the merge, where the last key of one is not the first of the other. */
  lemma {:induction false} KeptBoth(down: bool, o: nat, a: seq<KV>, p: nat, b: seq<KV>)
    requires SortedKeys(down, a) && SortedKeys(down, b)
    requires a != [] && b != [] ==> a[|a| - 1].key != b[0].key
    ensures KVs(Dedup(From(o, a) + From(p, b))) == a + b
  {
    hide Dedup;
    var s := From(o, a) + From(p, b);
    forall i | 0 < i < |s| ensures s[i - 1].kv.key != s[i].kv.key {
      if i < |a| {
        NeighboursDiffer(down, a, i);
      } else if i > |a| {
        NeighboursDiffer(down, b, i - |a|);
      }
    }
    DedupNothing(s);
  }

  /** Going on against the merge leads further away from a key already passed. */
  lemma {:induction false} LastDiffers(reverse: bool, a: seq<KV>, b: KV)
    requires SortedKeys(!reverse, a) && a != []
    requires Compare(a[0].key, b.key) == LessComp(reverse) || (|a| > 1 && a[0].key == b.key)
    ensures a[|a| - 1].key != b.key
  {
    var last := a[|a| - 1];
    CompareEqual(a[0].key, b.key);
    if |a| > 1 {
      CompareFlip(a[0].key, last.key);
      CompareEqual(last.key, b.key);
      CompareFlip(a[0].key, b.key);
    }
  }

  /** A single cached pair and the backend's pairs from the same key on. */
  lemma {:induction false} KeptOnce(down: bool, a: KV, b: seq<KV>)
    requires SortedKeys(down, b) && b != [] && a.key == b[0].key
    ensures KVs(Dedup(From(0, [a]) + From(1, b))) == [a] + b[1..]
  {
    hide Dedup;
    var s := From(0, [a]) + From(1, b);
    if |b| > 1 { NeighboursDiffer(down, b, 1); }
    DedupPair(s);
    KeptBoth(down, 0, [], 1, b[1..]);
    assert s[2..] == From(0, []) + From(1, b[1..]);
  }

  /** Against its direction a merge of cache and backend serves one after the other, repeating common keys. */
  lemma {:induction false} AgainstMerge(reverse: bool, a: seq<KV>, b: seq<KV>)
    requires SortedKeys(!reverse, a) && SortedKeys(!reverse, b)
    ensures KVs(Dedup(Served(reverse, [a, b]))) == OneAfterOther(reverse, a, b)
  {
    hide Dedup, Served;
    if a == [] || b == [] {
      ServedAlone(reverse, a, b);
      KeptBoth(!reverse, 0, a, 1, b);
    } else {
      CompareFlip(a[0].key, b[0].key);
      CompareEqual(a[0].key, b[0].key);
      if Compare(b[0].key, a[0].key) == LessComp(reverse) {
        SecondThenFirst(reverse, a, b);
        LastDiffers(reverse, b, a[0]);
        KeptBoth(!reverse, 1, b, 0, a);
      } else {
        FirstThenSecond(reverse, a, b);
        if |a| == 1 && a[0].key == b[0].key {
          assert a == [a[0]];
          KeptOnce(!reverse, a[0], b);
        } else {
          LastDiffers(reverse, a, b[0]);
          KeptBoth(!reverse, 0, a, 1, b);
        }
      }
    }
  }

  /** What the de-duplicated merge of cache and backend serves, whichever way the bounds run. */
  lemma {:induction false} MergedRange(reverse: bool, top: map<Bytes, Slice>, bottom: map<Bytes, Slice>, start: Slice, end: Slice)
    ensures var a, b := Range(top, start, end), Range(bottom, start, end);
            KVs(Dedup(Served(reverse, [a, b]))) ==
            if CompareKeys(start, end) == 0 || CompareKeys(start, end) == LessComp(reverse) then Range(bottom + top, start, end)
            else OneAfterOther(reverse, a, b)
  {
    hide Range, Dedup, Served, OneAfterOther, Pairs, Ordered;
    var a, b := Range(top, start, end), Range(bottom, start, end);
    if CompareKeys(start, end) == 0 || CompareKeys(start, end) == LessComp(reverse) {
      RangeSorted(top, start, end, reverse);
      RangeSorted(bottom, start, end, reverse);
      ServedSorted(reverse, [a, b]);
      MergeIsRange(reverse, Served(reverse, [a, b]), top, bottom, start, end);
    } else {
      RangeSorted(top, start, end, !reverse);
      RangeSorted(bottom, start, end, !reverse);
      AgainstMerge(reverse, a, b);
    }
  }

  lemma {:induction false} MergedEmpty(reverse: bool, top: map<Bytes, Slice>, bottom: map<Bytes, Slice>, start: Slice, end: Slice)
    ensures Dedup(Served(reverse, [Range(top, start, end), Range(bottom, start, end)])) == []
            <==> forall k :: k in top || k in bottom ==> !InDomain(k, start, end)
  {
    hide Range, Dedup, Served, InDomain;
    MergedRange(reverse, top, bottom, start, end);
    RangeEmpty(top, start, end);
    RangeEmpty(bottom, start, end);
    RangeEmpty(bottom + top, start, end);
  }

  // ---- Full iterations in both directions -----------------------------------------------

  function Reversed(s: seq<Bytes>): (r: seq<Bytes>)
    ensures |r| == |s| && forall i :: 0 <= i < |s| ==> r[i] == s[|s| - 1 - i]
  {
    seq(|s|, i requires 0 <= i < |s| => s[|s| - 1 - i])
  }

  lemma {:induction false} ReversedSorted(up: seq<Bytes>)
    requires StrictlySorted(up, Below)
    ensures StrictlySorted(Reversed(up), Above) && Elements(Reversed(up)) == Elements(up)
  {
    var back := Reversed(up);
    forall x ensures x in Elements(back) <==> x in Elements(up) {
      if x in Elements(up) {
        var i :| 0 <= i < |up| && up[i] == x;
        assert back[|up| - 1 - i] == x;
      }
    }
    forall i, j | 0 <= i < j < |back| ensures Above(back[i], back[j]) && back[i] != back[j] {
      CompareFlip(back[i], back[j]);
      assert Below(up[|up| - 1 - j], up[|up| - 1 - i]);
    }
  }

  lemma {:induction false} FullDomains(keys: set<Bytes>)
    ensures KeysWithin(keys, Of([]), Nil) == keys
    ensures KeysWithin(keys, Nil, Of([])) == keys - {[]}
  {
    forall k: Bytes ensures InDomain(k, Of([]), Nil) && (InDomain(k, Nil, Of([])) <==> k != []) {
    }
  }

  /**
    Iterating backwards over everything is the forward iteration reversed exactly when the
    empty key is absent: as the exclusive end of the reverse domain it is never served.
   */
  lemma {:induction false} ReverseMissesEmptyKey(keys: set<Bytes>)
    ensures var (fs, fe) := NormaliseDomain(Nil, Nil, false);
            var (rs, re) := NormaliseDomain(Nil, Nil, true);
            SortedWithin(keys, rs, re) == Reversed(SortedWithin(keys, fs, fe)) <==> [] !in keys
  {
    hide Sort, KeysWithin;
    var up, down := SortedWithin(keys, Of([]), Nil), SortedWithin(keys, Nil, Of([]));
    FullDomains(keys);
    ReversedSorted(up);
    if [] !in keys {
      BytesOrdered();
      SortedUnique(Reversed(up), down, Above);
    } else {
      assert [] in Elements(Reversed(up)) && [] !in Elements(down);
    }
  }
}
