/** Byte strings in lexicographic order, with Go's distinction between nil and empty slices. */
module Bytes {
  import opened Sorting

  newtype Byte = x: int | 0 <= x < 256
  type Bytes = seq<Byte>

  /** A byte slice that may be nil. */
  datatype Slice = Nil | Of(bytes: Bytes)

  /** bytes.Compare */
  function Compare(a: Bytes, b: Bytes): (c: int)
    ensures -1 <= c <= 1
  {
    if a == [] then (if b == [] then 0 else -1)
    else if b == [] then 1
    else if a[0] < b[0] then -1
    else if a[0] > b[0] then 1
    else Compare(a[1..], b[1..])
  }

  predicate Below(a: Bytes, b: Bytes) {
    Compare(a, b) <= 0
  }

  predicate Above(a: Bytes, b: Bytes) {
    Compare(a, b) >= 0
  }

  lemma {:induction false} CompareEqual(a: Bytes, b: Bytes)
    ensures Compare(a, b) == 0 <==> a == b
  {
    if a != [] && b != [] && a[0] == b[0] {
      CompareEqual(a[1..], b[1..]);
      assert a == [a[0]] + a[1..] && b == [b[0]] + b[1..];
    }
  }

  lemma {:induction false} CompareFlip(a: Bytes, b: Bytes)
    ensures Compare(a, b) == -Compare(b, a)
  {
    if a != [] && b != [] && a[0] == b[0] {
      CompareFlip(a[1..], b[1..]);
    }
  }

  lemma {:induction false} CompareTransitive(a: Bytes, b: Bytes, c: Bytes)
    requires Below(a, b) && Below(b, c)
    ensures Below(a, c)
  {
    if a != [] && b != [] && c != [] && a[0] == b[0] == c[0] {
      CompareTransitive(a[1..], b[1..], c[1..]);
    }
  }

  lemma {:induction false} BytesOrdered()
    ensures TotalOrder(Below) && TotalOrder(Above)
  {
    forall a: Bytes, b: Bytes
      ensures Below(a, a) && (Below(a, b) || Below(b, a)) && (Below(a, b) && Below(b, a) ==> a == b)
      ensures Above(a, b) <==> Below(b, a)
    {
      CompareEqual(a, b);
      CompareEqual(a, a);
      CompareFlip(a, b);
    }
    forall a: Bytes, b: Bytes, c: Bytes | Below(a, b) && Below(b, c) ensures Below(a, c) {
      CompareTransitive(a, b, c);
    }
  }

  predicate HasPrefix(s: Bytes, p: Bytes) {
    p <= s
  }

  /** A common prefix does not affect the comparison. */
  lemma {:induction false} CompareAppend(p: Bytes, a: Bytes, b: Bytes)
    ensures Compare(p + a, p + b) == Compare(a, b)
  {
    if p == [] {
      assert p + a == a && p + b == b;
    } else {
      assert (p + a)[1..] == p[1..] + a && (p + b)[1..] == p[1..] + b;
      CompareAppend(p[1..], a, b);
    }
  }
}
