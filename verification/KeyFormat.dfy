/** Fixed-width key formats: building keys from segments, reading segments back, and key order. */
module KeyFormats {
  import opened WordSizes
  import opened Bytes

  datatype Result<T> = Ok(value: T) | Err | Panic

  /** A zero in the layout stands for a segment of any length. */
  datatype KeyFormat = KeyFormat(prefix: Bytes, layout: seq<nat>)

  predicate Legal(layout: seq<nat>) {
    forall i :: 0 <= i < |layout| && layout[i] == 0 ==> i == |layout| - 1
  }

  function Sum(layout: seq<nat>): nat {
    if layout == [] then 0 else Sum(layout[..|layout| - 1]) + layout[|layout| - 1]
  }

  function Length(kf: KeyFormat): nat {
    |kf.prefix| + Sum(kf.layout)
  }

  method NewKeyFormat(prefix: Bytes, layout: seq<int>) returns (r: Result<KeyFormat>)
    ensures r.Ok? <==> (forall i :: 0 <= i < |layout| ==> layout[i] > 0 || (layout[i] == 0 && i == |layout| - 1))
    ensures r.Ok? ==> r.value.prefix == prefix && |r.value.layout| == |layout|
                      && (forall i :: 0 <= i < |layout| ==> r.value.layout[i] == layout[i])
                      && Legal(r.value.layout)
    ensures r.Panic? <==> exists i :: 0 <= i < |layout| && layout[i] < 0 && forall j :: 0 <= j < i ==> layout[j] > 0
  {
    var copied: seq<nat> := [];
    for i := 0 to |layout|
      invariant |copied| == i
      invariant forall j :: 0 <= j < i ==> copied[j] == layout[j] && (layout[j] > 0 || (layout[j] == 0 && j == |layout| - 1))
    {
      if layout[i] < 0 {
        return Panic;
      }
      if layout[i] == 0 && i != |layout| - 1 {
        return Err;
      }
      copied := copied + [layout[i]];
    }
    r := Ok(KeyFormat(prefix, copied));
  }

  // ---- Building keys --------------------------------------------------------------------

  function Concat(segments: seq<Bytes>): Bytes {
    if segments == [] then [] else segments[0] + Concat(segments[1..])
  }

  /** Each segment has the width the layout asks for. */
  predicate Fits(layout: seq<nat>, segments: seq<Bytes>) {
    |segments| <= |layout| && forall i :: 0 <= i < |segments| ==> layout[i] == 0 || |segments[i]| == layout[i]
  }

  function KeyOf(kf: KeyFormat, segments: seq<Bytes>): Result<Bytes> {
    if Fits(kf.layout, segments) then Ok(kf.prefix + Concat(segments)) else Err
  }

  lemma {:induction false} SumMonotone(layout: seq<nat>, i: nat)
    requires i <= |layout|
    ensures Sum(layout[..i]) <= Sum(layout)
    ensures i < |layout| ==> Sum(layout[..i + 1]) == Sum(layout[..i]) + layout[i]
    decreases |layout| - i
  {
    if i == |layout| {
      assert layout[..i] == layout;
    } else {
      SumMonotone(layout, i + 1);
      assert layout[..i + 1][..i] == layout[..i];
    }
  }

  method CopyInto(a: array<Byte>, at: nat, s: Bytes)
    requires at + |s| <= a.Length
    modifies a
    ensures a[..at + |s|] == old(a[..at]) + s
    ensures a[at + |s|..] == old(a[at + |s|..])
  {
    for i := 0 to |s|
      invariant a[..at + i] == old(a[..at]) + s[..i]
      invariant a[at + i..] == old(a[at + i..])
    {
      a[at + i] := s[i];
    }
  }

  lemma {:induction false} ConcatGrows(segments: seq<Bytes>, i: nat)
    requires i < |segments|
    ensures Concat(segments[..i + 1]) == Concat(segments[..i]) + segments[i]
  {
    assert segments[..i + 1] == segments[..i] + [segments[i]];
    ConcatSplit(segments[..i], [segments[i]]);
  }

  lemma {:induction false} ConcatSplit(a: seq<Bytes>, b: seq<Bytes>)
    ensures Concat(a + b) == Concat(a) + Concat(b)
  {
    if a == [] {
      assert a + b == b;
    } else {
      assert (a + b)[1..] == a[1..] + b;
      ConcatSplit(a[1..], b);
    }
  }

  /** Fill a buffer of the full key length segment by segment; a variadic segment is appended, one too many panics. */
  method KeyBytes(kf: KeyFormat, segments: seq<Bytes>) returns (r: Result<Bytes>)
    requires Legal(kf.layout)
    ensures |segments| <= |kf.layout| ==> r == KeyOf(kf, segments)
    ensures |segments| > |kf.layout| ==> r == if Fits(kf.layout, segments[..|kf.layout|]) then Panic else Err
  {
    hide Sum, Concat, Fits, KeyOf, Legal;
    var key := new Byte[Length(kf)](_ => 0);
    CopyInto(key, 0, kf.prefix);
    var n := |kf.prefix|;
    var i := 0;
    var given := if |segments| <= |kf.layout| then segments else segments[..|kf.layout|];
    SumMonotone(kf.layout, 0);
    EmptySums(kf.layout, given);
    while i < |given| && kf.layout[i] != 0
      invariant 0 <= i <= |given| && n == |kf.prefix| + Sum(kf.layout[..i]) <= key.Length
      invariant forall j :: 0 <= j < i ==> |given[j]| == kf.layout[j]
      invariant key[..n] == kf.prefix + Concat(given[..i])
    {
      var l := kf.layout[i];
      if |given[i]| != l {
        Misfit(kf, given, i);
        return Err;
      }
      SumMonotone(kf.layout, i);
      SumMonotone(kf.layout, i + 1);
      KeyGrows(kf.prefix, given, i);
      CopyInto(key, n, given[i]);
      n := n + l;
      i := i + 1;
    }
    KeyDone(kf, given, i);
    if |given| < |segments| {
      return Panic;
    }
    if i < |given| {
      SumMonotone(kf.layout, i);
      assert kf.layout[..i + 1] == kf.layout;
      assert key[..] == key[..n];
      return Ok(key[..] + given[i]);
    }
    return Ok(key[..n]);
  }

  lemma {:induction false} Misfit(kf: KeyFormat, segments: seq<Bytes>, i: nat)
    requires i < |segments| <= |kf.layout| && kf.layout[i] != 0 && |segments[i]| != kf.layout[i]
    ensures KeyOf(kf, segments) == Err && !Fits(kf.layout, segments)
  {
    assert !Fits(kf.layout, segments);
  }

  lemma {:induction false} KeyGrows(prefix: Bytes, segments: seq<Bytes>, i: nat)
    requires i < |segments|
    ensures prefix + Concat(segments[..i + 1]) == prefix + Concat(segments[..i]) + segments[i]
  {
    ConcatGrows(segments, i);
    assert prefix + Concat(segments[..i]) + segments[i] == prefix + (Concat(segments[..i]) + segments[i]);
  }

  /** What the key is once `i` fixed segments are in place. */
  lemma {:induction false} KeyDone(kf: KeyFormat, segments: seq<Bytes>, i: nat)
    requires Legal(kf.layout) && i <= |segments| <= |kf.layout| && (i < |segments| ==> kf.layout[i] == 0)
    requires forall j :: 0 <= j < i ==> |segments[j]| == kf.layout[j]
    ensures (i < |segments| ==> i + 1 == |kf.layout|) && Fits(kf.layout, segments)
    ensures KeyOf(kf, segments) ==
            Ok(if i < |segments| then kf.prefix + Concat(segments[..i]) + segments[i] else kf.prefix + Concat(segments[..i]))
  {
    hide Concat;
    if i < |segments| {
      KeyGrows(kf.prefix, segments, i);
      assert segments[..i + 1] == segments;
    } else {
      assert segments[..i] == segments;
    }
  }

  lemma {:induction false} EmptySums(layout: seq<nat>, segments: seq<Bytes>)
    ensures Sum(layout[..0]) == 0 && Concat(segments[..0]) == []
  {
  }

  // ---- Reading segments back ------------------------------------------------------------

  /** The segments of `key` from position `n`; a key too short for a segment ends the list. */
  function ScanFrom(layout: seq<nat>, key: Bytes, n: nat): Result<seq<Bytes>> {
    if layout == [] then Ok([])
    else if layout[0] == 0 then (if n <= |key| then Ok([key[n..]]) else Panic)
    else if n + layout[0] > |key| then Ok([])
    else Prepend([key[n..n + layout[0]]], ScanFrom(layout[1..], key, n + layout[0]))
  }

  function Scan(kf: KeyFormat, key: Bytes): Result<seq<Bytes>> {
    ScanFrom(kf.layout, key, |kf.prefix|)
  }

  function Prepend(done: seq<Bytes>, r: Result<seq<Bytes>>): Result<seq<Bytes>> {
    match r
    case Ok(rest) => Ok(done + rest)
    case other => other
  }

  lemma {:induction false} PrependNone(r: Result<seq<Bytes>>)
    ensures Prepend([], r) == r
  {
    if r.Ok? { assert [] + r.value == r.value; }
  }

  lemma {:induction false} PrependMore(done: seq<Bytes>, segment: Bytes, r: Result<seq<Bytes>>)
    ensures Prepend(done, Prepend([segment], r)) == Prepend(done + [segment], r)
  {
    if r.Ok? { assert done + ([segment] + r.value) == done + [segment] + r.value; }
  }

  method ScanBytes(kf: KeyFormat, key: Bytes) returns (r: Result<seq<Bytes>>)
    requires Legal(kf.layout)
    ensures r == Scan(kf, key)
  {
    var segments: seq<Bytes> := [];
    var n: nat := |kf.prefix|;
    assert kf.layout[0..] == kf.layout;
    PrependNone(Scan(kf, key));
    for i := 0 to |kf.layout|
      invariant |segments| == i
      invariant Scan(kf, key) == Prepend(segments, ScanFrom(kf.layout[i..], key, n))
    {
      var l := kf.layout[i];
      assert kf.layout[i..][1..] == kf.layout[i + 1..];
      if l == 0 {
        if n > |key| {
          return Panic;
        }
        return Ok(segments + [key[n..]]);
      }
      n := n + l;
      if n > |key| {
        assert segments + [] == segments;
        return Ok(segments);
      }
      PrependMore(segments, key[n - l..n], ScanFrom(kf.layout[i + 1..], key, n));
      segments := segments + [key[n - l..n]];
    }
    assert segments + [] == segments;
    return Ok(segments);
  }

  /** Left-out segments are not read back, except that a left-out variadic one reads as empty. */
  function Trailing(layout: seq<nat>, given: nat): seq<Bytes> {
    if given < |layout| && layout[given] == 0 then [[]] else []
  }

  lemma {:induction false} FitsRest(layout: seq<nat>, segments: seq<Bytes>)
    requires Legal(layout) && Fits(layout, segments) && segments != []
    ensures Legal(layout[1..]) && Fits(layout[1..], segments[1..])
    ensures Trailing(layout[1..], |segments| - 1) == Trailing(layout, |segments|)
    ensures layout[0] == 0 ==> |segments| == 1 && Trailing(layout, |segments|) == []
  {
  }

  lemma {:induction false} ScanConcat(layout: seq<nat>, segments: seq<Bytes>, before: Bytes)
    requires Legal(layout) && Fits(layout, segments)
    ensures ScanFrom(layout, before + Concat(segments), |before|) == Ok(segments + Trailing(layout, |segments|))
  {
    var key := before + Concat(segments);
    if segments != [] {
      FitsRest(layout, segments);
      assert key == before + segments[0] + Concat(segments[1..]);
      if layout[0] == 0 {
        assert Concat(segments[1..]) == [] && key[|before|..] == segments[0];
        assert segments == [segments[0]] && segments + [] == segments;
      } else {
        ScanConcat(layout[1..], segments[1..], before + segments[0]);
        assert key[|before|..|before| + layout[0]] == segments[0];
        assert [segments[0]] + (segments[1..] + Trailing(layout, |segments|)) == segments + Trailing(layout, |segments|);
      }
    } else if layout != [] && layout[0] == 0 {
      assert key[|before|..] == [];
      assert segments + Trailing(layout, 0) == [[]];
    }
  }

  /** Scanning inverts key building. */
  lemma {:induction false} ScanInvertsKey(kf: KeyFormat, segments: seq<Bytes>)
    requires Legal(kf.layout) && Fits(kf.layout, segments)
    ensures Scan(kf, KeyOf(kf, segments).value) == Ok(segments + Trailing(kf.layout, |segments|))
    ensures |segments| == |kf.layout| ==> Scan(kf, KeyOf(kf, segments).value) == Ok(segments)
  {
    ScanConcat(kf.layout, segments, kf.prefix);
    assert segments + [] == segments;
  }

  /** A key of the format: the prefix followed by the full width, with an open end if variadic. */
  predicate Formed(kf: KeyFormat, key: Bytes) {
    && HasPrefix(key, kf.prefix)
    && (|key| == Length(kf) || (|key| > Length(kf) && kf.layout != [] && kf.layout[|kf.layout| - 1] == 0))
  }

  lemma {:induction false} SumFront(layout: seq<nat>)
    requires layout != []
    ensures Sum(layout) == layout[0] + Sum(layout[1..])
  {
    if |layout| > 1 {
      var n := |layout| - 1;
      SumFront(layout[..n]);
      assert layout[..n][1..] == layout[1..][..n - 1];
    }
  }

  lemma {:induction false} ScanRebuilds(layout: seq<nat>, key: Bytes, n: nat)
    requires Legal(layout) && n <= |key|
    requires |key| == n + Sum(layout) || (|key| > n + Sum(layout) && layout != [] && layout[|layout| - 1] == 0)
    ensures var r := ScanFrom(layout, key, n);
            r.Ok? && |r.value| == |layout| && Fits(layout, r.value) && Concat(r.value) == key[n..]
  {
    if layout != [] {
      SumFront(layout);
      if layout[0] == 0 {
        assert Concat([key[n..]]) == key[n..];
      } else {
        ScanRebuilds(layout[1..], key, n + layout[0]);
        var rest := ScanFrom(layout[1..], key, n + layout[0]).value;
        assert ([key[n..n + layout[0]]] + rest)[1..] == rest;
        assert key[n..] == key[n..n + layout[0]] + key[n + layout[0]..];
      }
    }
  }

  /** And key building inverts scanning, on every key of the format. */
  lemma {:induction false} KeyInvertsScan(kf: KeyFormat, key: Bytes)
    requires Legal(kf.layout) && Formed(kf, key)
    ensures Scan(kf, key).Ok? && KeyOf(kf, Scan(kf, key).value) == Ok(key)
  {
    ScanRebuilds(kf.layout, key, |kf.prefix|);
    assert key == kf.prefix + key[|kf.prefix|..];
  }

  /** The keys of a format are exactly those built from a full list of segments. */
  lemma {:induction false} FormedExactly(kf: KeyFormat, key: Bytes)
    requires Legal(kf.layout)
    ensures Formed(kf, key) <==> exists segments :: |segments| == |kf.layout| && KeyOf(kf, segments) == Ok(key)
  {
    hide Formed, Fits, Concat;
    if Formed(kf, key) {
      KeyInvertsScan(kf, key);
      ScanFull(kf, key);
      var segments := Scan(kf, key).value;
      assert |segments| == |kf.layout| && KeyOf(kf, segments) == Ok(key);
    }
    if segments :| |segments| == |kf.layout| && KeyOf(kf, segments) == Ok(key) {
      KeyFormed(kf, segments);
    }
  }

  lemma {:induction false} ScanFull(kf: KeyFormat, key: Bytes)
    requires Legal(kf.layout) && Formed(kf, key)
    ensures Scan(kf, key).Ok? && |Scan(kf, key).value| == |kf.layout|
  {
    ScanRebuilds(kf.layout, key, |kf.prefix|);
  }

  lemma {:induction false} KeyFormed(kf: KeyFormat, segments: seq<Bytes>)
    requires Legal(kf.layout) && |segments| == |kf.layout| && Fits(kf.layout, segments)
    ensures Formed(kf, KeyOf(kf, segments).value)
  {
    hide Concat, Sum;
    ConcatWidth(kf.layout, segments);
  }

  lemma {:induction false} ConcatWidth(layout: seq<nat>, segments: seq<Bytes>)
    requires Legal(layout) && |segments| == |layout| && Fits(layout, segments)
    ensures |Concat(segments)| == Sum(layout) || (|Concat(segments)| > Sum(layout) && layout != [] && layout[|layout| - 1] == 0)
  {
    if layout != [] {
      SumFront(layout);
      FitsRest(layout, segments);
      ConcatWidth(layout[1..], segments[1..]);
    }
  }

  // ---- Fixing leading segments ----------------------------------------------------------

  /** Key: too many arguments are an error rather than a panic. */
  function Key(kf: KeyFormat, segments: seq<Bytes>): Result<Bytes> {
    if |segments| > |kf.layout| then Err else KeyOf(kf, segments)
  }

  function Fix(kf: KeyFormat, segments: seq<Bytes>): Result<KeyFormat> {
    match Key(kf, segments)
    case Ok(key) => Ok(KeyFormat(key, kf.layout[|segments|..]))
    case Err => Err
    case Panic => Panic
  }

  /** Fixing some segments and giving the rest later builds the same key, or fails alike. */
  lemma {:induction false} FixThenKey(kf: KeyFormat, a: seq<Bytes>, b: seq<Bytes>)
    requires Legal(kf.layout) && Fix(kf, a).Ok?
    ensures Legal(Fix(kf, a).value.layout)
    ensures Key(Fix(kf, a).value, b) == Key(kf, a + b)
  {
    ConcatSplit(a, b);
    assert kf.prefix + Concat(a) + Concat(b) == kf.prefix + (Concat(a) + Concat(b));
    var rest := kf.layout[|a|..];
    if Fits(rest, b) {
      forall i | 0 <= i < |a + b| ensures kf.layout[i] == 0 || |(a + b)[i]| == kf.layout[i] {
        if i >= |a| { assert rest[i - |a|] == kf.layout[i]; }
      }
    }
    if Fits(kf.layout, a + b) {
      forall i | 0 <= i < |b| ensures rest[i] == 0 || |b[i]| == rest[i] {
        assert (a + b)[|a| + i] == b[i];
      }
    }
  }

  // ---- Numbers as segments, and the order of keys ---------------------------------------

  /** The `n` low bytes of `v`, most significant first. */
  function BigEndian(v: nat, n: nat): (b: Bytes)
    ensures |b| == n
  {
    if n == 0 then [] else BigEndian(v / 256, n - 1) + [(v % 256) as Byte]
  }

  function FromBigEndian(b: Bytes): nat {
    if b == [] then 0 else FromBigEndian(b[..|b| - 1]) * 256 + b[|b| - 1] as nat
  }

  function Pow256(n: nat): nat {
    if n == 0 then 1 else 256 * Pow256(n - 1)
  }

  lemma {:induction false} BigEndianRoundTrip(v: nat, n: nat)
    requires v < Pow256(n)
    ensures FromBigEndian(BigEndian(v, n)) == v
  {
    if n > 0 {
      BigEndianRoundTrip(v / 256, n - 1);
      assert BigEndian(v, n)[..n - 1] == BigEndian(v / 256, n - 1);
    }
  }

  function Sign(x: int): int {
    if x < 0 then -1 else if x > 0 then 1 else 0
  }

  /** The first differing part of equally long heads decides. */
  lemma {:induction false} CompareSplit(x: Bytes, y: Bytes, u: Bytes, v: Bytes)
    requires |x| == |y|
    ensures Compare(x + u, y + v) == if x == y then Compare(u, v) else Compare(x, y)
  {
    if x == [] {
      assert x + u == u && y + v == v;
    } else {
      assert (x + u)[1..] == x[1..] + u && (y + v)[1..] == y[1..] + v;
      assert x == y <==> x[0] == y[0] && x[1..] == y[1..] by {
        assert x == [x[0]] + x[1..] && y == [y[0]] + y[1..];
      }
      CompareSplit(x[1..], y[1..], u, v);
    }
  }

  /** Equally long big-endian numbers compare as numbers. */
  lemma {:induction false} BigEndianOrder(a: nat, b: nat, n: nat)
    requires a < Pow256(n) && b < Pow256(n)
    ensures Compare(BigEndian(a, n), BigEndian(b, n)) == Sign(a - b)
  {
    if n > 0 {
      var x, y := BigEndian(a / 256, n - 1), BigEndian(b / 256, n - 1);
      BigEndianOrder(a / 256, b / 256, n - 1);
      CompareSplit(x, y, [(a % 256) as Byte], [(b % 256) as Byte]);
      CompareEqual(x, y);
    }
  }

  function FormatUint64(v: int): Bytes
    requires 0 <= v < UINT64_LIMIT
  {
    BigEndian(v, 8)
  }

  lemma {:induction false} EightBytes()
    ensures Pow256(8) == UINT64_LIMIT
  {
    assert Pow256(4) == 0x1_0000_0000;
    assert Pow256(8) == 256 * (256 * (256 * (256 * Pow256(4))));
  }

  predicate Words(vs: seq<int>) {
    forall i :: 0 <= i < |vs| ==> 0 <= vs[i] < UINT64_LIMIT
  }

  function FormatAll(vs: seq<int>): (segments: seq<Bytes>)
    requires Words(vs)
    ensures |segments| == |vs| && forall i :: 0 <= i < |vs| ==> segments[i] == FormatUint64(vs[i])
  {
    seq(|vs|, i requires 0 <= i < |vs| => FormatUint64(vs[i]))
  }

  /** Tuples of numbers compare at the first difference; a proper beginning comes first. */
  function CompareTuples(a: seq<int>, b: seq<int>): int {
    if a == [] then (if b == [] then 0 else -1)
    else if b == [] then 1
    else if a[0] != b[0] then Sign(a[0] - b[0])
    else CompareTuples(a[1..], b[1..])
  }

  lemma {:induction false} ConcatOrder(a: seq<int>, b: seq<int>)
    requires Words(a) && Words(b)
    ensures Compare(Concat(FormatAll(a)), Concat(FormatAll(b))) == CompareTuples(a, b)
  {
    if a != [] { assert FormatAll(a)[1..] == FormatAll(a[1..]); }
    if b != [] { assert FormatAll(b)[1..] == FormatAll(b[1..]); }
    if a != [] && b != [] {
      ConcatOrder(a[1..], b[1..]);
      EightBytes();
      BigEndianOrder(a[0], b[0], 8);
      CompareSplit(FormatUint64(a[0]), FormatUint64(b[0]), Concat(FormatAll(a[1..])), Concat(FormatAll(b[1..])));
      CompareEqual(FormatUint64(a[0]), FormatUint64(b[0]));
    }
  }

  /** For layouts of 64-bit words the byte order of keys is the order of the tuples they hold. */
  lemma {:induction false} WordKeysSorted(kf: KeyFormat, a: seq<int>, b: seq<int>)
    requires forall i :: 0 <= i < |kf.layout| ==> kf.layout[i] == 8
    requires Words(a) && Words(b) && |a| <= |kf.layout| && |b| <= |kf.layout|
    ensures Key(kf, FormatAll(a)).Ok? && Key(kf, FormatAll(b)).Ok?
    ensures Compare(Key(kf, FormatAll(a)).value, Key(kf, FormatAll(b)).value) == CompareTuples(a, b)
  {
    ConcatOrder(a, b);
    CompareAppend(kf.prefix, Concat(FormatAll(a)), Concat(FormatAll(b)));
  }

  /** int64 arguments are converted to uint64, two's complement. */
  function FormatInt64(v: int): Bytes
    requires Signed(v)
  {
    FormatUint64(if v < 0 then v + UINT64_LIMIT else v)
  }

  predicate Signed(v: int) {
    -(UINT64_LIMIT / 2) <= v < UINT64_LIMIT / 2
  }

  lemma {:induction false} SignedOrder(a: int, b: int)
    requires Signed(a) && Signed(b)
    ensures Compare(FormatInt64(a), FormatInt64(b)) == Sign(a - b) <==> (a < 0 <==> b < 0)
  {
    EightBytes();
    BigEndianOrder(if a < 0 then a + UINT64_LIMIT else a, if b < 0 then b + UINT64_LIMIT else b, 8);
  }

  /** Keys of signed numbers keep their order exactly when the numbers have the same sign. */
  lemma {:induction false} SignedKeysSorted(kf: KeyFormat, a: int, b: int)
    requires Signed(a) && Signed(b) && kf.layout != [] && kf.layout[0] == 8
    ensures Key(kf, [FormatInt64(a)]).Ok? && Key(kf, [FormatInt64(b)]).Ok?
    ensures Compare(Key(kf, [FormatInt64(a)]).value, Key(kf, [FormatInt64(b)]).value) == Sign(a - b)
            <==> (a < 0 <==> b < 0)
  {
    hide BigEndian;
    SignedOrder(a, b);
    CompareAppend(kf.prefix, FormatInt64(a), FormatInt64(b));
    OneSegment(FormatInt64(a));
    OneSegment(FormatInt64(b));
  }

  lemma {:induction false} OneSegment(s: Bytes)
    ensures Concat([s]) == s
  {
  }
}
