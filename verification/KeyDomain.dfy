/** The endpoint conventions of key iteration: an empty start is the least key, nil is above every key. */
module KeyDomain {
  import opened Sorting
  import opened Bytes

  predicate IsEmpty(k: Slice) {
    k.Nil? || k.bytes == []
  }

  function NormaliseDomain(start: Slice, end: Slice, reverse: bool): (Slice, Slice) {
    if reverse then (start, if IsEmpty(end) then Of([]) else end)
    else (if IsEmpty(start) then Of([]) else start, end)
  }

  function KeyOrder(k: Slice): int {
    if k.Nil? then 1 else if k.bytes == [] then -1 else 0
  }

  function CompareKeys(k1: Slice, k2: Slice): (c: int)
    ensures -1 <= c <= 1
  {
    if KeyOrder(k1) < KeyOrder(k2) then -1
    else if KeyOrder(k1) > KeyOrder(k2) then 1
    else if k1.Nil? then 0
    else Compare(k1.bytes, k2.bytes)
  }

  /** CompareKeys orders keys as bytes and puts nil above all of them. */
  lemma {:induction false} CompareKeysMeaning(k1: Slice, k2: Slice)
    ensures CompareKeys(k1, k2) ==
              match (k1, k2)
              case (Nil, Nil) => 0
              case (Nil, Of(_)) => 1
              case (Of(_), Nil) => -1
              case (Of(a), Of(b)) => Compare(a, b)
  {
  }

  predicate AtOrAbove(k: Bytes, bound: Slice) {
    bound.Of? && Compare(k, bound.bytes) >= 0
  }

  predicate AtOrBelow(k: Bytes, bound: Slice) {
    bound.Nil? || Compare(k, bound.bytes) <= 0
  }

  /** Start is inclusive, end exclusive; the direction is the one the endpoints point in. */
  predicate InDomain(k: Bytes, start: Slice, end: Slice) {
    match CompareKeys(start, end)
    case -1 => AtOrAbove(k, start) && !AtOrAbove(k, end)
    case 1 => AtOrBelow(k, start) && !AtOrBelow(k, end)
    case _ => false
  }

  // ---- What a caller's bounds ask for ---------------------------------------------------

  /** A nil start in the forward direction is the empty key. */
  function Raw(k: Slice): Bytes {
    if k.Nil? then [] else k.bytes
  }

  /** The endpoints point in the direction of the iteration. */
  predicate ProperBounds(start: Slice, end: Slice, reverse: bool) {
    if reverse then start.Nil? || end.Nil? || Compare(start.bytes, end.bytes) >= 0
    else end.Nil? || Compare(Raw(start), end.bytes) <= 0
  }

  /** Start inclusive, end exclusive, nil unbounded. */
  predicate InBounds(k: Bytes, start: Slice, end: Slice, reverse: bool) {
    if reverse then (start.Nil? || Compare(k, start.bytes) <= 0) && (end.Nil? || Compare(k, end.bytes) > 0)
    else Compare(k, Raw(start)) >= 0 && (end.Nil? || Compare(k, end.bytes) < 0)
  }

  /** The direction the keys come in: bounds against the direction turn it round. */
  predicate Downwards(start: Slice, end: Slice, reverse: bool) {
    if ProperBounds(start, end, reverse) then reverse else !reverse
  }

  /** The keys an iteration selects; going down, an end left open still shuts out the empty key. */
  predicate Selected(k: Bytes, start: Slice, end: Slice, reverse: bool) {
    InBounds(k, start, end, Downwards(start, end, reverse)) && !(reverse && k == [] && end.Nil?)
  }

  /** The endpoints an iteration works with select just those keys, in the direction the bounds point in. */
  lemma {:induction false} NormalisedDomain(start: Slice, end: Slice, reverse: bool, k: Bytes)
    ensures var (s, e) := NormaliseDomain(start, end, reverse);
            && (InDomain(k, s, e) <==> Selected(k, start, end, reverse))
            && (ProperBounds(start, end, reverse) ==> CompareKeys(s, e) == 0 || CompareKeys(s, e) == if reverse then 1 else -1)
            && (!ProperBounds(start, end, reverse) ==> CompareKeys(s, e) == if reverse then -1 else 1)
  {
    var (s, e) := NormaliseDomain(start, end, reverse);
    CompareKeysMeaning(s, e);
    if start.Of? && end.Of? { CompareEqual(start.bytes, end.bytes); }
  }

  function Order(reverse: bool): (Bytes, Bytes) -> bool {
    if reverse then Above else Below
  }

  function KeysWithin(keys: set<Bytes>, start: Slice, end: Slice): set<Bytes> {
    set k | k in keys && InDomain(k, start, end)
  }

  /** The keys of the domain in the order its endpoints ask for. */
  function SortedWithin(keys: set<Bytes>, start: Slice, end: Slice): (r: seq<Bytes>)
    ensures StrictlySorted(r, Order(CompareKeys(start, end) == 1))
    ensures Elements(r) == KeysWithin(keys, start, end)
  {
    BytesOrdered();
    Sort(KeysWithin(keys, start, end), Order(CompareKeys(start, end) == 1))
  }

  /** Seeking past `start` and cutting at `end` in a sorted list leaves exactly the domain. */
  lemma {:induction false} SliceIsDomain(sorted: seq<Bytes>, start: Slice, end: Slice, i: nat, j: nat)
    requires CompareKeys(start, end) != 0
    requires StrictlySorted(sorted, Order(CompareKeys(start, end) == 1))
    requires i <= j <= |sorted|
    requires forall k :: 0 <= k < i ==> CompareKeys(Of(sorted[k]), start) == CompareKeys(start, end)
    requires i < |sorted| ==> CompareKeys(Of(sorted[i]), start) != CompareKeys(start, end)
    requires forall k :: i <= k < j ==> CompareKeys(Of(sorted[k]), end) == CompareKeys(start, end)
    requires j < |sorted| ==> CompareKeys(Of(sorted[j]), end) != CompareKeys(start, end)
    ensures sorted[i..j] == SortedWithin(Elements(sorted), start, end)
  {
    var comp := CompareKeys(start, end);
    forall k | 0 <= k < |sorted| ensures InDomain(sorted[k], start, end) <==> i <= k < j {
      DomainAt(sorted, start, end, i, j, k);
    }
    var within := KeysWithin(Elements(sorted), start, end);
    forall x ensures x in Elements(sorted[i..j]) <==> x in within {
      if x in within {
        var k :| 0 <= k < |sorted| && sorted[k] == x;
        assert sorted[i..j][k - i] == x;
      }
    }
    BytesOrdered();
    SortIs(sorted[i..j], within, Order(comp == 1));
  }

  lemma {:induction false} DomainAt(sorted: seq<Bytes>, start: Slice, end: Slice, i: nat, j: nat, k: nat)
    requires CompareKeys(start, end) != 0
    requires StrictlySorted(sorted, Order(CompareKeys(start, end) == 1))
    requires i <= j <= |sorted| && k < |sorted|
    requires forall k :: 0 <= k < i ==> CompareKeys(Of(sorted[k]), start) == CompareKeys(start, end)
    requires i < |sorted| ==> CompareKeys(Of(sorted[i]), start) != CompareKeys(start, end)
    requires forall k :: i <= k < j ==> CompareKeys(Of(sorted[k]), end) == CompareKeys(start, end)
    requires j < |sorted| ==> CompareKeys(Of(sorted[j]), end) != CompareKeys(start, end)
    ensures InDomain(sorted[k], start, end) <==> i <= k < j
  {
    CompareKeysMeaning(Of(sorted[k]), start);
    CompareKeysMeaning(Of(sorted[k]), end);
    if i <= k {
      CompareKeysMeaning(Of(sorted[i]), start);
      if i < k { Carry(sorted[i], sorted[k], start); }
    }
    if j <= k {
      CompareKeysMeaning(Of(sorted[j]), end);
      if j < k { Carry(sorted[j], sorted[k], end); }
    }
  }

  /** A bound that is passed stays passed. */
  lemma {:induction false} Carry(a: Bytes, b: Bytes, bound: Slice)
    ensures Below(a, b) && AtOrAbove(a, bound) ==> AtOrAbove(b, bound)
    ensures Above(a, b) && AtOrBelow(a, bound) ==> AtOrBelow(b, bound)
  {
    if bound.Of? {
      CompareFlip(a, b);
      CompareFlip(a, bound.bytes);
      CompareFlip(b, bound.bytes);
      if Below(a, b) && AtOrAbove(a, bound) { CompareTransitive(bound.bytes, a, b); }
      if Above(a, b) && AtOrBelow(a, bound) { CompareTransitive(b, a, bound.bytes); }
    }
  }
}
