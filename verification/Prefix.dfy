/** Key prefixes: their neighbours in byte order, and iteration over the keys that start with one. */
module Prefixes {
  import opened Bytes
  import opened KeyDomain
  import opened MultiIterators
  import opened UniqueIterators
  import opened KVCaches
  import opened CacheModel

  // ---- Neighbours -----------------------------------------------------------------------

  /** The least byte string above every key with prefix `p`; nil if there is none. */
  function Successor(p: Bytes): Slice {
    if p == [] then Nil
    else if p[|p| - 1] < 255 then Of(p[..|p| - 1] + [p[|p| - 1] + 1])
    else Successor(p[..|p| - 1])
  }

  /** A byte string below `p`, found by decrementing; nil if `p` is all zero. */
  function Predecessor(p: Bytes): Slice {
    if p == [] then Nil
    else if p[|p| - 1] > 0 then Of(p[..|p| - 1] + [p[|p| - 1] - 1])
    else Predecessor(p[..|p| - 1])
  }

  method AboveOf(p: Bytes) returns (r: Slice)
    ensures r == Successor(p)
  {
    var i := |p|;
    assert p[..i] == p;
    while i > 0
      invariant 0 <= i <= |p| && Successor(p[..i]) == Successor(p)
    {
      i := i - 1;
      assert p[..i + 1][..i] == p[..i];
      if p[i] < 255 {
        return Of(p[..i] + [p[i] + 1]);
      }
    }
    return Nil;
  }

  method BelowOf(p: Bytes) returns (r: Slice)
    ensures r == Predecessor(p)
  {
    var i := |p|;
    assert p[..i] == p;
    while i > 0
      invariant 0 <= i <= |p| && Predecessor(p[..i]) == Predecessor(p)
    {
      i := i - 1;
      assert p[..i + 1][..i] == p[..i];
      if p[i] > 0 {
        return Of(p[..i] + [p[i] - 1]);
      }
    }
    return Nil;
  }

  /** The successor computed from the front instead of from the back. */
  lemma {:induction false} SuccessorFront(a: Byte, p: Bytes)
    ensures Successor([a] + p) ==
            match Successor(p)
            case Of(x) => Of([a] + x)
            case Nil => if a < 255 then Of([a + 1]) else Nil
  {
    if p == [] {
      assert [a] + p == [a];
    } else {
      var n := |p| - 1;
      assert ([a] + p)[..n + 1] == [a] + p[..n];
      if p[n] < 255 {
        assert [a] + p[..n] + [p[n] + 1] == [a] + (p[..n] + [p[n] + 1]);
      } else {
        SuccessorFront(a, p[..n]);
      }
    }
  }

  predicate BelowSlice(k: Bytes, bound: Slice) {
    bound.Nil? || Compare(k, bound.bytes) < 0
  }

  /** Keys with a prefix are an interval: from the prefix up to its successor. */
  lemma {:induction false} PrefixInterval(p: Bytes, k: Bytes)
    ensures HasPrefix(k, p) <==> Compare(p, k) <= 0 && BelowSlice(k, Successor(p))
  {
    if p != [] {
      SuccessorFront(p[0], p[1..]);
      assert p == [p[0]] + p[1..];
      match Successor(p[1..]) {
        case Of(x) => assert Successor(p).bytes == [p[0]] + x && ([p[0]] + x)[1..] == x;
        case Nil => if p[0] < 255 { assert [p[0] + 1][1..] == []; }
      }
      if k != [] && k[0] == p[0] {
        PrefixInterval(p[1..], k[1..]);
        assert HasPrefix(k, p) <==> HasPrefix(k[1..], p[1..]) by {
          assert k == [k[0]] + k[1..];
        }
      } else if k != [] && k[0] > p[0] {
        assert k[0] as int <= 255;
        assert p[0] < 255;
        assert Successor(p).Of? && Successor(p).bytes != [] && Successor(p).bytes[0] <= k[0];
        assert Compare(k, Successor(p).bytes) >= 0;
      }
    }
  }

  lemma {:induction false} PredecessorBelow(p: Bytes)
    ensures Predecessor(p).Of? ==> Compare(Predecessor(p).bytes, p) < 0
  {
    if p != [] {
      var n := |p| - 1;
      assert p == p[..n] + [p[n]];
      if p[n] > 0 {
        CompareAppend(p[..n], [p[n] - 1], [p[n]]);
      } else {
        PredecessorBelow(p[..n]);
        if Predecessor(p[..n]).Of? {
          var b := Predecessor(p[..n]).bytes;
          CompareAppend(p[..n], [], [p[n]]);
          assert p[..n] + [] == p[..n];
          StrictlyBelowTransitive(b, p[..n], p);
        }
      }
    }
  }

  /** Below is the number before, less trailing zeros: Above leads back, and only zeros have nothing below. */
  lemma {:induction false} PredecessorInverts(p: Bytes) returns (n: nat)
    ensures n <= |p| && (forall i :: n <= i < |p| ==> p[i] == 0) && (Predecessor(p).Nil? <==> n == 0)
    ensures n > 0 ==> |Predecessor(p).bytes| == n && Successor(Predecessor(p).bytes) == Of(p[..n])
  {
    n := |p|;
    if p != [] && p[|p| - 1] == 0 {
      n := PredecessorInverts(p[..|p| - 1]);
      assert n > 0 ==> p[..|p| - 1][..n] == p[..n];
      assert forall i :: n <= i < |p| - 1 ==> p[..|p| - 1][i] == p[i];
    } else if p != [] {
      var q := Predecessor(p).bytes;
      assert q[..|q| - 1] == p[..|p| - 1];
      assert p[..n] == p == p[..|p| - 1] + [p[|p| - 1]];
    }
  }

  lemma {:induction false} StrictlyBelowTransitive(a: Bytes, b: Bytes, c: Bytes)
    requires Compare(a, b) <= 0 && Compare(b, c) <= 0 && (Compare(a, b) < 0 || Compare(b, c) < 0)
    ensures Compare(a, c) < 0
  {
    CompareTransitive(a, b, c);
    CompareEqual(a, c);
    CompareEqual(a, b);
    CompareEqual(b, c);
    CompareFlip(a, b);
  }

  // ---- Iterating over the keys with a prefix --------------------------------------------

  /** The endpoints passed to the underlying store. */
  function SourceBounds(p: Bytes, start: Slice, end: Slice, reverse: bool): (Slice, Slice) {
    if reverse then
      (if start.Nil? then Successor(p) else Of(p + start.bytes), if end.Nil? then Predecessor(p) else Of(p + end.bytes))
    else
      (Of(p + Raw(start)), if end.Nil? then Successor(p) else Of(p + end.bytes))
  }

  /** The endpoints as the underlying store takes them. */
  function Domain(p: Bytes, start: Slice, end: Slice, reverse: bool): (Slice, Slice) {
    var (s, e) := SourceBounds(p, start, end, reverse);
    NormaliseDomain(s, e, reverse)
  }

  /** What the underlying iteration yields, without the successor itself when going backwards. */
  function SourcePairs(m: map<Bytes, Slice>, p: Bytes, start: Slice, end: Slice, reverse: bool): seq<KV> {
    var (s, e) := Domain(p, start, end, reverse);
    Skipped(p, Range(m, s, e), reverse)
  }

  function Skipped(p: Bytes, pairs: seq<KV>, reverse: bool): seq<KV> {
    if reverse then SkipOne(pairs, Successor(p)) else pairs
  }

  /** bytes.Equal does not tell nil from empty. */
  function SkipOne(pairs: seq<KV>, key: Slice): seq<KV> {
    if pairs != [] && pairs[0].key == Raw(key) then pairs[1..] else pairs
  }

  /** The pairs up to the first key without the prefix, with the prefix cut off. */
  function Suffixes(p: Bytes, pairs: seq<KV>): seq<KV> {
    if pairs == [] || !HasPrefix(pairs[0].key, p) then []
    else [KV(pairs[0].key[|p|..], pairs[0].value)] + Suffixes(p, pairs[1..])
  }

  lemma {:induction false} OwnInterval(p: Bytes, k: Bytes)
    ensures Compare(p, p + k) <= 0 && BelowSlice(p + k, Successor(p))
  {
    PrefixInterval(p, p + k);
  }

  lemma {:induction false} ForwardBounds(p: Bytes, start: Slice, end: Slice, k: Bytes)
    requires p != [] && ProperBounds(start, end, false)
    ensures var (s, e) := SourceBounds(p, start, end, false);
            && NormaliseDomain(s, e, false) == (s, e)
            && CompareKeys(s, e) <= 0
            && (InDomain(p + k, s, e) <==> InBounds(k, start, end, false))
  {
    var (s, e) := SourceBounds(p, start, end, false);
    OwnInterval(p, Raw(start));
    OwnInterval(p, k);
    CompareKeysMeaning(s, e);
    CompareAppend(p, k, Raw(start));
    if end.Of? {
      CompareAppend(p, Raw(start), end.bytes);
      CompareAppend(p, k, end.bytes);
      CompareEqual(Raw(start), end.bytes);
      CompareFlip(k, Raw(start));
    }
  }

  lemma {:induction false} WitnessBetween(x: Bytes, s: Slice, e: Slice)
    requires AtOrBelow(x, s) && !AtOrBelow(x, e)
    ensures CompareKeys(s, e) == 1
  {
    CompareKeysMeaning(s, e);
    if s.Of? {
      CompareFlip(x, e.bytes);
      StrictlyBelowTransitive(e.bytes, x, s.bytes);
      CompareFlip(s.bytes, e.bytes);
    }
  }

  lemma {:induction false} ReverseProper(p: Bytes, start: Slice, end: Slice)
    requires p != [] && ProperBounds(start, end, true)
    ensures var (s, e) := SourceBounds(p, start, end, true);
            var (ns, ne) := NormaliseDomain(s, e, true);
            CompareKeys(ns, ne) == if start.Of? && end.Of? then Compare(start.bytes, end.bytes) else 1
  {
    var (s, e) := SourceBounds(p, start, end, true);
    var (ns, ne) := NormaliseDomain(s, e, true);
    if end.Nil? {
      UpperBound(p, start, Raw(start));
      LowerBound(p, end, Raw(start));
      CompareEqual(Raw(start), Raw(start));
      WitnessBetween(p + Raw(start), ns, ne);
    } else {
      CompareKeysMeaning(ns, ne);
      if start.Of? {
        CompareAppend(p, start.bytes, end.bytes);
      } else {
        OwnInterval(p, end.bytes);
        if ns.Of? { CompareFlip(p + end.bytes, ns.bytes); }
      }
    }
  }

  lemma {:induction false} ReverseBounds(p: Bytes, start: Slice, end: Slice, k: Bytes)
    requires p != [] && ProperBounds(start, end, true)
    ensures var (s, e) := SourceBounds(p, start, end, true);
            var (ns, ne) := NormaliseDomain(s, e, true);
            InDomain(p + k, ns, ne) <==> InBounds(k, start, end, true)
  {
    ReverseProper(p, start, end);
    UpperBound(p, start, k);
    LowerBound(p, end, k);
    if start.Of? && end.Of? {
      CompareEqual(start.bytes, end.bytes);
    }
  }

  lemma {:induction false} UpperBound(p: Bytes, start: Slice, k: Bytes)
    ensures var s := if start.Nil? then Successor(p) else Of(p + start.bytes);
            && (AtOrBelow(p + k, s) <==> start.Nil? || Compare(k, start.bytes) <= 0)
            && (start.Nil? && s.Of? ==> Compare(p + k, s.bytes) < 0)
  {
    OwnInterval(p, k);
    if start.Of? { CompareAppend(p, k, start.bytes); }
  }

  lemma {:induction false} LowerBound(p: Bytes, end: Slice, k: Bytes)
    requires p != []
    ensures var e := if end.Nil? then Predecessor(p) else Of(p + end.bytes);
            var ne := if IsEmpty(e) then Of([]) else e;
            && ne.Of? && (AtOrBelow(p + k, ne) <==> end.Of? && Compare(k, end.bytes) <= 0)
  {
    OwnInterval(p, k);
    if end.Of? {
      CompareAppend(p, k, end.bytes);
    } else if Predecessor(p).Of? {
      PredecessorBelow(p);
      StrictlyBelowTransitive(Predecessor(p).bytes, p, p + k);
      CompareFlip(p + k, Predecessor(p).bytes);
    }
  }

  lemma {:induction false} SuffixesAt(p: Bytes, pairs: seq<KV>, i: nat)
    requires i < |Suffixes(p, pairs)|
    ensures i < |pairs| && HasPrefix(pairs[i].key, p)
    ensures Suffixes(p, pairs)[i] == KV(pairs[i].key[|p|..], pairs[i].value)
  {
    if i > 0 {
      SuffixesAt(p, pairs[1..], i - 1);
    }
  }

  lemma {:induction false} SuffixesReach(p: Bytes, pairs: seq<KV>, i: nat)
    requires i < |pairs| && forall j :: 0 <= j <= i ==> HasPrefix(pairs[j].key, p)
    ensures i < |Suffixes(p, pairs)|
  {
    if i > 0 {
      SuffixesReach(p, pairs[1..], i - 1);
    }
  }

  lemma {:induction false} SourceSorted(m: map<Bytes, Slice>, p: Bytes, start: Slice, end: Slice, reverse: bool)
    requires p != [] && ProperBounds(start, end, reverse)
    ensures SortedKeys(reverse, SourcePairs(m, p, start, end, reverse))
  {
    hide Range;
    var (s, e) := SourceBounds(p, start, end, reverse);
    var (ns, ne) := NormaliseDomain(s, e, reverse);
    if reverse { ReverseProper(p, start, end); } else { ForwardBounds(p, start, end, []); }
    RangeSorted(m, ns, ne, reverse);
  }

  /** The underlying pairs with the prefix are exactly those whose suffix is in bounds. */
  lemma {:induction false} SourceMember(m: map<Bytes, Slice>, p: Bytes, start: Slice, end: Slice, reverse: bool,
                                        k: Bytes, v: Slice)
    requires p != [] && ProperBounds(start, end, reverse)
    ensures KV(p + k, v) in SourcePairs(m, p, start, end, reverse)
            <==> p + k in m && m[p + k] == v && InBounds(k, start, end, reverse)
  {
    hide Range, InBounds, InDomain;
    var (s, e) := SourceBounds(p, start, end, reverse);
    var (ns, ne) := NormaliseDomain(s, e, reverse);
    RangeMember(m, ns, ne, KV(p + k, v));
    if reverse {
      ReverseBounds(p, start, end, k);
      SkipMember(Range(m, ns, ne), Successor(p), KV(p + k, v), p, k);
    } else {
      ForwardBounds(p, start, end, k);
    }
  }

  lemma {:induction false} SkipMember(pairs: seq<KV>, key: Slice, kv: KV, p: Bytes, k: Bytes)
    requires p != [] && key == Successor(p) && kv.key == p + k
    ensures kv in SkipOne(pairs, key) <==> kv in pairs
  {
    OwnInterval(p, k);
    if key.Of? { CompareEqual(p + k, key.bytes); }
    assert pairs != [] ==> pairs == [pairs[0]] + pairs[1..];
  }

  /** No underlying pair comes before a pair with the prefix without having it too. */
  lemma {:induction false} SourceConvex(m: map<Bytes, Slice>, p: Bytes, start: Slice, end: Slice, reverse: bool, i: nat, j: nat)
    requires p != [] && ProperBounds(start, end, reverse)
    requires i < j < |SourcePairs(m, p, start, end, reverse)|
    requires HasPrefix(SourcePairs(m, p, start, end, reverse)[j].key, p)
    ensures HasPrefix(SourcePairs(m, p, start, end, reverse)[i].key, p)
  {
    hide SourcePairs, HasPrefix;
    var pairs := SourcePairs(m, p, start, end, reverse);
    SourceSorted(m, p, start, end, reverse);
    SourceBelowSuccessor(m, p, start, end, reverse, i);
    PrefixInterval(p, pairs[i].key);
    PrefixInterval(p, pairs[j].key);
    CompareFlip(pairs[i].key, pairs[j].key);
    if reverse {
      CompareTransitive(p, pairs[j].key, pairs[i].key);
    } else {
      SourceAbovePrefix(m, p, start, end, i);
    }
  }

  lemma {:induction false} SourceAbovePrefix(m: map<Bytes, Slice>, p: Bytes, start: Slice, end: Slice, i: nat)
    requires p != [] && ProperBounds(start, end, false) && i < |SourcePairs(m, p, start, end, false)|
    ensures Compare(p, SourcePairs(m, p, start, end, false)[i].key) <= 0
  {
    hide Range;
    var (s, e) := SourceBounds(p, start, end, false);
    var kv := SourcePairs(m, p, start, end, false)[i];
    ForwardBounds(p, start, end, []);
    RangeMember(m, s, e, kv);
    OwnInterval(p, Raw(start));
    CompareFlip(kv.key, p + Raw(start));
    CompareTransitive(p, p + Raw(start), kv.key);
  }

  lemma {:induction false} SourceBelowSuccessor(m: map<Bytes, Slice>, p: Bytes, start: Slice, end: Slice, reverse: bool, i: nat)
    requires p != [] && ProperBounds(start, end, reverse) && i < |SourcePairs(m, p, start, end, reverse)|
    ensures BelowSlice(SourcePairs(m, p, start, end, reverse)[i].key, Successor(p))
  {
    hide Range;
    var (s, e) := SourceBounds(p, start, end, reverse);
    var (ns, ne) := NormaliseDomain(s, e, reverse);
    var kv := SourcePairs(m, p, start, end, reverse)[i];
    RangeMember(m, ns, ne, kv);
    if reverse {
      ReverseProper(p, start, end);
      if start.Of? {
        OwnInterval(p, start.bytes);
      } else if Successor(p).Of? {
        CompareEqual(kv.key, Successor(p).bytes);
        RangeSorted(m, ns, ne, true);
        RangeMember(m, ns, ne, Range(m, ns, ne)[0]);
        SkippedNotFirst(Range(m, ns, ne), Successor(p), i);
      }
    } else {
      ForwardBounds(p, start, end, []);
      if end.Of? { OwnInterval(p, end.bytes); }
    }
    if Successor(p).Of? && (if reverse then start.Of? else end.Of?) {
      var bound := p + (if reverse then start.bytes else end.bytes);
      assert Compare(kv.key, bound) <= 0;
      StrictlyBelowTransitive(kv.key, bound, Successor(p).bytes);
    }
  }

  lemma {:induction false} SkippedNotFirst(pairs: seq<KV>, key: Slice, i: nat)
    requires SortedKeys(true, pairs) && key.Of? && i < |SkipOne(pairs, key)|
    requires Compare(pairs[0].key, key.bytes) <= 0
    ensures SkipOne(pairs, key)[i].key != key.bytes
  {
    CompareEqual(key.bytes, key.bytes);
    CompareFlip(pairs[0].key, key.bytes);
  }

  lemma {:induction false} PrefixMember(m: map<Bytes, Slice>, p: Bytes, start: Slice, end: Slice, reverse: bool, kv: KV)
    requires p != [] && ProperBounds(start, end, reverse)
    ensures kv in Suffixes(p, SourcePairs(m, p, start, end, reverse))
            <==> p + kv.key in m && m[p + kv.key] == kv.value && InBounds(kv.key, start, end, reverse)
  {
    hide SourcePairs, InBounds, Suffixes;
    var pairs := SourcePairs(m, p, start, end, reverse);
    SourceMember(m, p, start, end, reverse, kv.key, kv.value);
    if kv in Suffixes(p, pairs) {
      var i :| 0 <= i < |Suffixes(p, pairs)| && Suffixes(p, pairs)[i] == kv;
      SuffixesAt(p, pairs, i);
      assert pairs[i].key == p + kv.key;
      assert pairs[i] == KV(p + kv.key, kv.value);
    }
    if KV(p + kv.key, kv.value) in pairs {
      var i :| 0 <= i < |pairs| && pairs[i] == KV(p + kv.key, kv.value);
      forall j | 0 <= j <= i ensures HasPrefix(pairs[j].key, p) {
        if j < i { SourceConvex(m, p, start, end, reverse, j, i); }
      }
      SuffixesReach(p, pairs, i);
      SuffixesAt(p, pairs, i);
      assert Suffixes(p, pairs)[i] == kv;
    }
  }

  lemma {:induction false} CutSorted(down: bool, p: Bytes, pairs: seq<KV>)
    requires SortedKeys(down, pairs)
    ensures SortedKeys(down, Suffixes(p, pairs))
  {
    hide Suffixes;
    var out := Suffixes(p, pairs);
    forall i, j | 0 <= i < j < |out| ensures Compare(out[i].key, out[j].key) == LessComp(down) {
      SuffixesAt(p, pairs, i);
      SuffixesAt(p, pairs, j);
      CompareAppend(p, out[i].key, out[j].key);
      assert p + out[i].key == pairs[i].key && p + out[j].key == pairs[j].key;
    }
  }

  lemma {:induction false} CutMember(p: Bytes, pairs: seq<KV>, kv: KV)
    requires forall i :: 0 <= i < |pairs| ==> HasPrefix(pairs[i].key, p)
    ensures kv in Suffixes(p, pairs) <==> KV(p + kv.key, kv.value) in pairs
  {
    hide Suffixes;
    if kv in Suffixes(p, pairs) {
      var i :| 0 <= i < |Suffixes(p, pairs)| && Suffixes(p, pairs)[i] == kv;
      SuffixesAt(p, pairs, i);
      assert pairs[i].key == p + kv.key;
      assert pairs[i] == KV(p + kv.key, kv.value);
    }
    if KV(p + kv.key, kv.value) in pairs {
      var i :| 0 <= i < |pairs| && pairs[i] == KV(p + kv.key, kv.value);
      SuffixesReach(p, pairs, i);
      SuffixesAt(p, pairs, i);
      assert Suffixes(p, pairs)[i] == kv;
    }
  }

  /** The empty key that no reverse iteration over the empty prefix serves. */
  predicate Missed(p: Bytes, k: Bytes, reverse: bool) {
    reverse && p == [] && k == []
  }

  /** Against the direction the underlying domain is that of the bounds the other way round. */
  lemma {:induction false} AgainstDomain(p: Bytes, start: Slice, end: Slice, reverse: bool, k: Bytes)
    requires !ProperBounds(start, end, reverse)
    ensures start.Of? && end.Of? && Domain(p, start, end, reverse) == (Of(p + start.bytes), Of(p + end.bytes))
    ensures CompareKeys(Of(p + start.bytes), Of(p + end.bytes)) == LessComp(!reverse)
    ensures InDomain(p + k, Of(p + start.bytes), Of(p + end.bytes)) <==> InBounds(k, start, end, !reverse)
  {
    CompareKeysMeaning(Of(p + start.bytes), Of(p + end.bytes));
    CompareAppend(p, start.bytes, end.bytes);
    CompareAppend(p, k, start.bytes);
    CompareAppend(p, k, end.bytes);
  }

  /** Without a prefix the underlying domain is that of the bounds, less the empty key going down. */
  lemma {:induction false} WholeDomain(start: Slice, end: Slice, reverse: bool, k: Bytes)
    requires ProperBounds(start, end, reverse)
    ensures var (s, e) := Domain([], start, end, reverse);
            && (CompareKeys(s, e) == 0 || CompareKeys(s, e) == LessComp(reverse))
            && (InDomain(k, s, e) <==> InBounds(k, start, end, reverse) && !Missed([], k, reverse))
  {
    var (s, e) := Domain([], start, end, reverse);
    assert [] + Raw(start) == Raw(start) && [] + Raw(end) == Raw(end);
    CompareKeysMeaning(s, e);
    if start.Of? && end.Of? { CompareEqual(start.bytes, end.bytes); }
  }

  /** Keys between two keys with the prefix have it too. */
  lemma {:induction false} Between(p: Bytes, low: Bytes, high: Bytes, x: Bytes)
    requires Compare(p + low, x) <= 0 && Compare(x, p + high) <= 0
    ensures HasPrefix(x, p)
  {
    OwnInterval(p, low);
    OwnInterval(p, high);
    CompareTransitive(p, p + low, x);
    if Successor(p).Of? {
      StrictlyBelowTransitive(x, p + high, Successor(p).bytes);
    }
    PrefixInterval(p, x);
  }

  lemma {:induction false} SkipEmpty(pairs: seq<KV>, kv: KV)
    requires SortedKeys(false, pairs)
    ensures kv in SkipOne(pairs, Nil) <==> kv in pairs && kv.key != []
  {
    assert forall i :: 0 < i < |pairs| ==> Compare(pairs[0].key, pairs[i].key) == -1;
    assert pairs != [] ==> pairs == [pairs[0]] + pairs[1..];
  }

  /** Against the direction every key the underlying store yields has the prefix. */
  lemma {:induction false} AgainstPrefixed(m: map<Bytes, Slice>, p: Bytes, start: Slice, end: Slice, reverse: bool, i: nat)
    requires !ProperBounds(start, end, reverse) && i < |SourcePairs(m, p, start, end, reverse)|
    ensures HasPrefix(SourcePairs(m, p, start, end, reverse)[i].key, p)
  {
    hide Range, HasPrefix, SourceBounds;
    AgainstDomain(p, start, end, reverse, []);
    var (s, e) := Domain(p, start, end, reverse);
    var kv := SourcePairs(m, p, start, end, reverse)[i];
    RangeMember(m, s, e, kv);
    CompareFlip(kv.key, s.bytes);
    CompareFlip(kv.key, e.bytes);
    if reverse {
      Between(p, start.bytes, end.bytes, kv.key);
    } else {
      Between(p, end.bytes, start.bytes, kv.key);
    }
  }

  lemma {:induction false} AgainstMember(m: map<Bytes, Slice>, p: Bytes, start: Slice, end: Slice, reverse: bool,
                                         k: Bytes, v: Slice)
    requires !ProperBounds(start, end, reverse)
    ensures SortedKeys(!reverse, SourcePairs(m, p, start, end, reverse))
    ensures KV(p + k, v) in SourcePairs(m, p, start, end, reverse)
            <==> p + k in m && m[p + k] == v && InBounds(k, start, end, !reverse) && !Missed(p, k, reverse)
  {
    hide Range, InBounds, InDomain, SourceBounds;
    AgainstDomain(p, start, end, reverse, k);
    var (s, e) := Domain(p, start, end, reverse);
    RangeSorted(m, s, e, !reverse);
    RangeMember(m, s, e, KV(p + k, v));
    if reverse {
      if p == [] {
        SkipEmpty(Range(m, s, e), KV(p + k, v));
      } else {
        SkipMember(Range(m, s, e), Successor(p), KV(p + k, v), p, k);
      }
    }
  }

  lemma {:induction false} WholeMember(m: map<Bytes, Slice>, start: Slice, end: Slice, reverse: bool, k: Bytes, v: Slice)
    requires ProperBounds(start, end, reverse)
    ensures SortedKeys(reverse, SourcePairs(m, [], start, end, reverse))
    ensures KV(k, v) in SourcePairs(m, [], start, end, reverse)
            <==> k in m && m[k] == v && InBounds(k, start, end, reverse) && !Missed([], k, reverse)
  {
    hide Range, InBounds, InDomain, SourceBounds;
    WholeDomain(start, end, reverse, k);
    var (s, e) := Domain([], start, end, reverse);
    RangeSorted(m, s, e, reverse);
    RangeMember(m, s, e, KV(k, v));
    if reverse && Range(m, s, e) != [] {
      var first := Range(m, s, e)[0];
      RangeMember(m, s, e, first);
      WholeDomain(start, end, reverse, first.key);
    }
  }

  /**
    Iterating over a prefix lists, in strict order, exactly the stored suffixes within bounds. Bounds
    against the direction are walked the other way, and going down without a prefix misses the empty key.
   */
  lemma {:induction false} PrefixIteration(m: map<Bytes, Slice>, p: Bytes, start: Slice, end: Slice, reverse: bool)
    ensures var out := Suffixes(p, SourcePairs(m, p, start, end, reverse));
            var down := Downwards(start, end, reverse);
            && SortedKeys(down, out)
            && forall kv :: kv in out <==>
                 && p + kv.key in m && m[p + kv.key] == kv.value
                 && InBounds(kv.key, start, end, down) && !Missed(p, kv.key, reverse)
  {
    hide SourcePairs, InBounds, Suffixes;
    var pairs := SourcePairs(m, p, start, end, reverse);
    var down := Downwards(start, end, reverse);
    assert SortedKeys(down, pairs) by {
      if !ProperBounds(start, end, reverse) {
        AgainstMember(m, p, start, end, reverse, [], Nil);
      } else if p == [] {
        WholeMember(m, start, end, reverse, [], Nil);
      } else {
        SourceSorted(m, p, start, end, reverse);
      }
    }
    CutSorted(down, p, pairs);
    forall kv ensures kv in Suffixes(p, pairs) <==>
                        && p + kv.key in m && m[p + kv.key] == kv.value
                        && InBounds(kv.key, start, end, down) && !Missed(p, kv.key, reverse)
    {
      if p != [] && ProperBounds(start, end, reverse) {
        PrefixMember(m, p, start, end, reverse, kv);
      } else {
        TurnedMember(m, p, start, end, reverse, kv);
      }
    }
  }

  lemma {:induction false} TurnedMember(m: map<Bytes, Slice>, p: Bytes, start: Slice, end: Slice, reverse: bool, kv: KV)
    requires p == [] || !ProperBounds(start, end, reverse)
    ensures kv in Suffixes(p, SourcePairs(m, p, start, end, reverse)) <==>
              && p + kv.key in m && m[p + kv.key] == kv.value
              && InBounds(kv.key, start, end, Downwards(start, end, reverse)) && !Missed(p, kv.key, reverse)
  {
    hide SourcePairs, InBounds, Suffixes;
    var pairs := SourcePairs(m, p, start, end, reverse);
    if !ProperBounds(start, end, reverse) {
      forall i | 0 <= i < |pairs| ensures HasPrefix(pairs[i].key, p) {
        AgainstPrefixed(m, p, start, end, reverse, i);
      }
      AgainstMember(m, p, start, end, reverse, kv.key, kv.value);
    } else {
      WholeMember(m, start, end, reverse, kv.key, kv.value);
      assert p + kv.key == kv.key;
    }
    CutMember(p, pairs, kv);
  }

  /** What a prefix iterator may stand on: an iterator over one map, or over a cached store. */
  datatype Source = OverMap(pairs: KVCacheIterator) | OverStore(merged: UniqueIterator) {
    ghost function Footprint(): set<object> {
      match this
      case OverMap(pairs) => {pairs}
      case OverStore(merged) => {merged, merged.source}
    }

    ghost predicate Valid()
      reads Footprint()
    {
      match this
      case OverMap(pairs) => pairs.Valid()
      case OverStore(merged) => merged.source.Valid()
    }

    /** The pairs still to come. */
    ghost function Remaining(): seq<KV>
      reads Footprint()
    {
      match this
      case OverMap(pairs) => if pairs.Valid() then pairs.Remaining() else []
      case OverStore(merged) => KVs(merged.Contents())
    }

    method HasCurrent() returns (b: bool)
      requires Valid()
      ensures b <==> Remaining() != []
    {
      hide Served, Dedup;
      match this
      case OverMap(pairs) => b := pairs.HasCurrent();
      case OverStore(merged) => b := merged.HasCurrent();
    }

    method Current() returns (kv: KV)
      requires Valid() && Remaining() != []
      ensures [kv] <= Remaining()
    {
      hide Served, Dedup;
      match this
      case OverMap(pairs) => kv := pairs.Current();
      case OverStore(merged) => kv := merged.Current();
    }

    method Next()
      requires Valid() && Remaining() != []
      modifies Footprint()
      ensures Valid() && Remaining() == old(Remaining())[1..]
    {
      hide Served, Dedup;
      match this
      case OverMap(pairs) => pairs.Next();
      case OverStore(merged) => merged.Next();
    }
  }

  lemma {:induction false} NoSuffixes(p: Bytes, pairs: seq<KV>)
    ensures Suffixes(p, pairs) == [] <==> pairs == [] || !HasPrefix(pairs[0].key, p)
  {
  }

  /** The endpoints both prefix iterators ask their source for. */
  method SourceEnds(p: Bytes, start: Slice, end: Slice, reverse: bool) returns (s: Slice, e: Slice)
    ensures (s, e) == SourceBounds(p, start, end, reverse)
  {
    var above := AboveOf(p);
    if reverse {
      s := if start.Nil? then above else Of(p + start.bytes);
      if end.Nil? {
        e := BelowOf(p);
      } else {
        e := Of(p + end.bytes);
      }
    } else {
      s := Of(p + Raw(start));
      e := if end.Nil? then above else Of(p + end.bytes);
    }
  }

  class PrefixIterator {
    const prefix: Bytes
    const source: Source
    var invalid: bool

    ghost predicate Valid()
      reads this, source.Footprint()
    {
      this !in source.Footprint() && source.Valid() && (invalid ==> Suffixes(prefix, source.Remaining()) == [])
    }

    /** The suffixes still to come. */
    ghost function Contents(): seq<KV>
      reads this, source.Footprint()
    {
      Suffixes(prefix, source.Remaining())
    }

    /** Iterate over an opened source; going backwards, the key above the prefix is skipped. */
    constructor (prefix: Bytes, source: Source, reverse: bool)
      requires source.Valid()
      modifies source.Footprint()
      ensures Valid() && this.source == source && this.prefix == prefix
      ensures Contents() == Suffixes(prefix, Skipped(prefix, old(source.Remaining()), reverse))
    {
      hide Suffixes, Source.Valid, Source.Remaining;
      this.prefix, this.source, invalid := prefix, source, false;
      new;
      if reverse {
        var above := AboveOf(prefix);
        var more := source.HasCurrent();
        if more {
          var kv := source.Current();
          if kv.key == Raw(above) {
            source.Next();
          }
        }
      }
    }

    method Validate()
      requires Valid()
      modifies this`invalid
      ensures Valid() && (invalid <==> Contents() == [])
    {
      hide Suffixes, Source.Valid, Source.Remaining;
      NoSuffixes(prefix, source.Remaining());
      if !invalid {
        var more := source.HasCurrent();
        if more {
          var kv := source.Current();
          invalid := !HasPrefix(kv.key, prefix);
        } else {
          invalid := true;
        }
      }
    }

    method HasCurrent() returns (b: bool)
      requires Valid()
      modifies this`invalid
      ensures Valid() && (b <==> Contents() != [])
    {
      hide Suffixes, Source.Valid, Source.Remaining;
      Validate();
      var more := source.HasCurrent();
      NoSuffixes(prefix, source.Remaining());
      b := !invalid && more;
    }

    method Current() returns (kv: KV)
      requires Valid() && Contents() != []
      ensures [kv] <= Contents()
    {
      hide Served, Dedup;
      var full := source.Current();
      kv := KV(full.key[|prefix|..], full.value);
    }

    method Next()
      requires Valid() && Contents() != []
      modifies this`invalid, source.Footprint()
      ensures Valid() && Contents() == old(Contents())[1..]
    {
      hide Served, Dedup;
      source.Next();
      Validate();
    }
  }

  /** Iterator, and ReverseIterator when `reverse` is set, over one map. */
  method IteratePrefix(items: map<Bytes, Slice>, p: Bytes, start: Slice, end: Slice, reverse: bool)
    returns (it: PrefixIterator)
    ensures fresh(it) && fresh(it.source.Footprint()) && it.Valid()
    ensures it.Contents() == Suffixes(p, SourcePairs(items, p, start, end, reverse))
  {
    hide Range, Suffixes, SourceBounds;
    var s, e := SourceEnds(p, start, end, reverse);
    var pairs := IterateMap(items, s, e, reverse);
    it := new PrefixIterator(p, OverMap(pairs), reverse);
  }
}
