/** Skipping pairs that repeat the key just served. */
module UniqueIterators {
  import opened Bytes
  import opened MultiIterators

  /** How many pairs at the front have the given key. */
  function RunLength(s: seq<Entry>, key: Bytes): (n: nat)
    ensures n <= |s|
    ensures forall i :: 0 <= i < n ==> s[i].kv.key == key
    ensures n < |s| ==> s[n].kv.key != key
    ensures s != [] && s[0].kv.key == key ==> n > 0
  {
    if s == [] || s[0].kv.key != key then 0 else 1 + RunLength(s[1..], key)
  }

  function SkipKey(s: seq<Entry>, key: Bytes): seq<Entry> {
    s[RunLength(s, key)..]
  }

  /** The first pair of every run of equal keys. */
  function Dedup(s: seq<Entry>): seq<Entry> {
    if s == [] then [] else [s[0]] + Dedup(SkipKey(s, s[0].kv.key))
  }

  function KeysOf(s: seq<Entry>): (r: seq<Bytes>)
    ensures |r| == |s| && forall i :: 0 <= i < |s| ==> r[i] == s[i].kv.key
  {
    seq(|s|, i requires 0 <= i < |s| => s[i].kv.key)
  }

  /** What follows the first run has keys strictly later than the first. */
  lemma {:induction false} SkipSorted(reverse: bool, s: seq<Entry>, i: nat)
    requires Ordered(reverse, s) && s != []
    requires RunLength(s, s[0].kv.key) <= i < |s|
    ensures Compare(s[0].kv.key, s[i].kv.key) == LessComp(reverse)
  {
    hide RunLength;
    var d := RunLength(s, s[0].kv.key);
    CompareEqual(s[0].kv.key, s[d].kv.key);
    if i > d {
      BeforeTotal(reverse, s[0], s[d]);
      BeforeTotal(reverse, s[d], s[i]);
      BeforeTransitive(reverse, s[0], s[d], s[i]);
      CompareEqual(s[0].kv.key, s[i].kv.key);
      CompareFlip(s[0].kv.key, s[d].kv.key);
    }
  }

  lemma {:induction false} DedupMember(s: seq<Entry>, i: nat) returns (j: nat)
    requires i < |Dedup(s)|
    ensures j < |s| && s[j] == Dedup(s)[i]
    decreases |s|
  {
    hide RunLength;
    if i == 0 {
      j := 0;
    } else {
      j := DedupMember(SkipKey(s, s[0].kv.key), i - 1);
      j := j + RunLength(s, s[0].kv.key);
    }
  }

  /** De-duplicating a merge leaves the keys in strict order. */
  lemma {:induction false} DedupSorted(reverse: bool, s: seq<Entry>, i: nat, j: nat)
    requires Ordered(reverse, s) && i < j < |Dedup(s)|
    ensures Compare(Dedup(s)[i].kv.key, Dedup(s)[j].kv.key) == LessComp(reverse)
    decreases |s|
  {
    hide RunLength, Before;
    var rest := SkipKey(s, s[0].kv.key);
    if i == 0 {
      var k := DedupMember(rest, j - 1);
      SkipSorted(reverse, s, k + RunLength(s, s[0].kv.key));
    } else {
      DedupSorted(reverse, rest, i - 1, j - 1);
    }
  }

  /** Every key is kept, with the first pair that had it. */
  lemma {:induction false} DedupKeeps(reverse: bool, s: seq<Entry>, k: nat) returns (i: nat)
    requires Ordered(reverse, s) && k < |s|
    ensures i < |Dedup(s)| && Dedup(s)[i].kv.key == s[k].kv.key
    ensures Dedup(s)[i] == s[k] || Before(reverse, Dedup(s)[i], s[k])
    decreases |s|
  {
    hide RunLength, Before;
    var d := RunLength(s, s[0].kv.key);
    if k < d {
      i := 0;
    } else {
      i := DedupKeeps(reverse, SkipKey(s, s[0].kv.key), k - d);
      i := i + 1;
    }
  }

  /** Nothing is dropped where no two neighbours have the same key. */
  lemma {:induction false} DedupNothing(s: seq<Entry>)
    requires forall i :: 0 < i < |s| ==> s[i - 1].kv.key != s[i].kv.key
    ensures Dedup(s) == s
  {
    if s != [] {
      assert |s| > 1 ==> s[0].kv.key != s[1].kv.key;
      assert RunLength(s, s[0].kv.key) == 1;
      DedupNothing(s[1..]);
    }
  }

  lemma {:induction false} DedupPair(s: seq<Entry>)
    requires |s| > 1 && s[0].kv.key == s[1].kv.key && (|s| > 2 ==> s[2].kv.key != s[0].kv.key)
    ensures Dedup(s) == [s[0]] + Dedup(s[2..])
  {
    assert RunLength(s, s[0].kv.key) == 2;
  }

  class UniqueIterator {
    const source: MultiIterator
    var prevKey: Slice

    /** Everything still to come. */
    ghost function Contents(): seq<Entry>
      reads this, source
    {
      Dedup(source.Remaining())
    }

    constructor (source: MultiIterator)
      ensures this.source == source && prevKey == Nil
    {
      this.source, prevKey := source, Nil;
    }

    method HasCurrent() returns (b: bool)
      requires source.Valid()
      ensures b <==> Contents() != []
    {
      b := source.HasCurrent();
    }

    method Current() returns (kv: KV)
      requires source.Valid() && Contents() != []
      ensures kv == Contents()[0].kv
    {
      kv := source.Current();
    }

    method Next()
      requires source.Valid() && Contents() != []
      modifies this, source`iterators, source`sources
      ensures source.Valid()
      ensures Contents() == old(Contents())[1..]
    {
      hide Heap, NonEmpty, Opened, Served;
      var kv := source.Current();
      prevKey := Of(kv.key);
      source.Next();
      var more := source.HasCurrent();
      ghost var n := 1;
      while more
        invariant source.Valid() && prevKey == Of(kv.key)
        invariant more <==> source.Remaining() != []
        invariant 1 <= n <= |old(source.Remaining())| && source.Remaining() == old(source.Remaining())[n..]
        invariant forall i :: 0 <= i < n ==> old(source.Remaining())[i].kv.key == kv.key
        decreases |source.Remaining()|
      {
        var next := source.Current();
        if next.key != prevKey.bytes {
          break;
        }
        source.Next();
        more := source.HasCurrent();
        n := n + 1;
      }
      assert RunLength(old(source.Remaining()), kv.key) == n;
    }
  }
}
