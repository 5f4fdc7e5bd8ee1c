/** Base 128 varints: seven bits a byte, least significant group first, high bit set on all but the last. */
module Varints {
  import opened WordSizes
  import opened Bytes
  import opened Powers
  import Integers

  function Encode(v: nat): (r: Bytes)
    ensures |r| >= 1
  {
    if v < 128 then [v as Byte] else [(v % 128 + 128) as Byte] + Encode(v / 128)
  }

  datatype Read =
    | Read(value: nat, rest: Bytes)
    | Overflow
    | EndOfInput

  /** What one more byte adds to a 64-bit accumulator: its low seven bits, shifted, the excess lost. */
  function Group(b: Byte, shift: nat): (g: nat)
    ensures g < UINT64_LIMIT
  {
    (b as int % 128) * Pow2(shift) % UINT64_LIMIT
  }

  function ReadFrom(data: Bytes, shift: nat, acc: nat): Read
    decreases |data|
  {
    if shift >= 64 then Overflow
    else if data == [] then EndOfInput
    else
      var v := acc + Group(data[0], shift);
      if data[0] < 128 then Read(v, data[1..]) else ReadFrom(data[1..], shift + 7, v)
  }

  function Decode(data: Bytes): Read {
    ReadFrom(data, 0, 0)
  }

  // ---- Round trip ------------------------------------------------------------------------

  lemma {:induction false} Pow2Seven(n: nat)
    ensures Pow2(n + 7) == 128 * Pow2(n)
  {
    assert Pow2(n + 7) == 2 * Pow2(n + 6) == 4 * Pow2(n + 5) == 8 * Pow2(n + 4);
    assert Pow2(n + 4) == 2 * Pow2(n + 3) == 4 * Pow2(n + 2) == 8 * Pow2(n + 1) == 16 * Pow2(n);
  }

  lemma {:induction false} Pow2At64()
    ensures Pow2(64) == UINT64_LIMIT && Pow2(64) == 2 * Pow2(63)
  {
    var n := 8;
    assert Pow2(n) == 256;
    Pow2Sum(n, n);
    Pow2Sum(2 * n, 2 * n);
    Pow2Sum(4 * n, 4 * n);
    assert Pow2(8 * n) == 2 * Pow2(8 * n - 1);
  }

  lemma {:induction false} ShiftSplit(v: nat, p: nat)
    ensures v * p == v % 128 * p + v / 128 * (128 * p)
    ensures v % 128 * p <= v * p && v / 128 * (128 * p) <= v * p
  {
    assert v == v % 128 + 128 * (v / 128);
    assert (128 * (v / 128)) * p == v / 128 * (128 * p);
    assert v * p == (v % 128 + 128 * (v / 128)) * p == v % 128 * p + (128 * (v / 128)) * p;
  }

  lemma {:induction false} RoomForMore(k: nat, shift: nat)
    requires k >= 1 && k * Pow2(shift + 7) < UINT64_LIMIT
    ensures shift + 7 < 64
  {
    Times(1, k, Pow2(shift + 7));
    Pow2At64();
    if shift + 7 >= 64 {
      Pow2Monotone(64, shift + 7);
    }
  }

  lemma {:induction false} ReadEncoded(v: nat, rest: Bytes, shift: nat, acc: nat)
    requires shift < 64 && v * Pow2(shift) < UINT64_LIMIT
    ensures ReadFrom(Encode(v) + rest, shift, acc) == Read(acc + v * Pow2(shift), rest)
    decreases v
  {
    hide Pow2, Group;
    var p := Pow2(shift);
    var data := Encode(v) + rest;
    ShiftSplit(v, p);
    GroupExact(v % 128, data[0], shift);
    if v < 128 {
      assert data[1..] == rest;
    } else {
      assert data[1..] == Encode(v / 128) + rest;
      Pow2Seven(shift);
      RoomForMore(v / 128, shift);
      ReadEncoded(v / 128, rest, shift + 7, acc + v % 128 * p);
    }
  }

  lemma {:induction false} GroupExact(low: nat, b: Byte, shift: nat)
    requires b as int % 128 == low && low * Pow2(shift) < UINT64_LIMIT
    ensures Group(b, shift) == low * Pow2(shift)
  {
  }

  /** A number below a power of two and a multiple of it share no bits. */
  lemma {:induction false} OrIsSum(acc: int, k: nat, shift: nat)
    requires 0 <= acc < Pow2(shift)
    ensures Integers.Or(acc, k * Pow2(shift)) == acc + k * Pow2(shift)
    decreases shift
  {
    if shift == 0 {
      ZeroOr(k);
    } else if k > 0 {
      var p := Pow2(shift - 1);
      assert k * Pow2(shift) == 2 * (k * p);
      Times(1, k, p);
      Integers.HalfOf(k * p, 0);
      OrIsSum(acc / 2, k, shift - 1);
    }
  }

  lemma {:induction false} ZeroOr(m: nat)
    ensures Integers.Or(0, m) == m
  {
    if m > 0 {
      ZeroOr(m / 2);
    }
  }

  /** What a byte adds is a multiple of the power of two it is shifted by. */
  lemma {:induction false} GroupMultiple(b: Byte, shift: nat) returns (k: nat)
    requires shift % 7 == 0 && shift < 64
    ensures Group(b, shift) == k * Pow2(shift)
  {
    hide Pow2, Group;
    Pow2At64();
    if shift == 63 {
      LastGroup(b);
      k := b as int % 2;
    } else {
      k := b as int % 128;
      Pow2Seven(shift);
      Pow2Monotone(shift + 7, 63);
      Times(k, 127, Pow2(shift));
      GroupExact(k, b, shift);
    }
  }

  /** The source's bitwise or is an addition, since the accumulator stays below the shift. */
  lemma {:induction false} OrIsAdd(b: Byte, shift: nat, acc: nat)
    requires shift % 7 == 0 && shift < 64 && acc < Pow2(shift)
    ensures Integers.Or(acc, Group(b, shift)) == acc + Group(b, shift)
  {
    hide Pow2, Group;
    var k := GroupMultiple(b, shift);
    OrIsSum(acc, k, shift);
  }

  /** Whatever the input, the accumulator stays below the next shift and the result fits 64 bits. */
  lemma {:induction false} ReadFits(data: Bytes, shift: nat, acc: nat)
    requires shift % 7 == 0 && shift <= 70 && acc < UINT64_LIMIT && (shift < 64 ==> acc < Pow2(shift))
    ensures var r := ReadFrom(data, shift, acc); r.Read? ==> r.value < UINT64_LIMIT
    decreases |data|
  {
    hide Pow2;
    if shift < 64 && data != [] {
      GroupBelow(data[0], shift, acc);
      ReadFits(data[1..], shift + 7, acc + Group(data[0], shift));
    }
  }

  lemma {:induction false} GroupBelow(b: Byte, shift: nat, acc: nat)
    requires shift % 7 == 0 && shift < 64 && acc < Pow2(shift)
    ensures acc + Group(b, shift) < UINT64_LIMIT && (shift + 7 < 64 ==> acc + Group(b, shift) < Pow2(shift + 7))
  {
    hide Pow2, Group;
    Pow2At64();
    var low := b as int % 128;
    if shift == 63 {
      LastGroup(b);
    } else {
      Pow2Seven(shift);
      Pow2Monotone(shift + 7, 63);
      assert low * Pow2(shift) <= 127 * Pow2(shift) by { Times(low, 127, Pow2(shift)); }
      GroupExact(low, b, shift);
    }
  }

  /** Of the tenth group only the lowest bit is left. */
  lemma {:induction false} LastGroup(b: Byte)
    ensures Group(b, 63) == (b as int % 2) * INT64_LIMIT
  {
    Pow2At64();
    var low := b as int % 128;
    assert low * INT64_LIMIT == low / 2 * UINT64_LIMIT + low % 2 * INT64_LIMIT;
  }

  lemma {:induction false} Times(a: nat, b: nat, p: nat)
    requires a <= b
    ensures a * p <= b * p
  {
    assert b * p == a * p + (b - a) * p;
  }

  /** Decoding inverts encoding for every 64-bit value and leaves the bytes after it. */
  lemma {:induction false} DecodeInverts(v: nat, rest: Bytes)
    requires v < UINT64_LIMIT
    ensures Decode(Encode(v) + rest) == Read(v, rest)
  {
    assert v * Pow2(0) == v;
    ReadEncoded(v, rest, 0, 0);
  }

  // ---- Bytes and values ----------------------------------------------------------------------

  /** The low seven bits of the bytes, the first least significant. */
  function Weigh(s: Bytes): nat {
    if s == [] then 0 else s[0] as nat % 128 + 128 * Weigh(s[1..])
  }

  /** All bytes but the last have their high bit set. */
  predicate Terminated(s: Bytes) {
    s != [] && s[|s| - 1] < 128 && forall i :: 0 <= i < |s| - 1 ==> s[i] >= 128
  }

  /** The encoding of a number is the one terminated string of that weight without an idle byte at its end. */
  lemma {:induction false} EncodeExactly(v: nat, s: Bytes)
    ensures s == Encode(v) <==> Terminated(s) && Weigh(s) == v && (|s| > 1 ==> s[|s| - 1] != 0)
  {
    hide Encode, Weigh, Terminated;
    EncodeShape(v);
    if Terminated(s) && Weigh(s) == v && (|s| > 1 ==> s[|s| - 1] != 0) {
      WeightEncodes(s);
    }
  }

  lemma {:induction false} EncodeShape(v: nat)
    ensures var s := Encode(v); Terminated(s) && Weigh(s) == v && (|s| > 1 ==> s[|s| - 1] != 0)
  {
    var s := Encode(v);
    if v < 128 {
      assert Weigh(s[1..]) == 0;
    } else {
      EncodeShape(v / 128);
      assert s[1..] == Encode(v / 128);
      assert |s[1..]| == 1 ==> s[1] as nat == v / 128 by {
        if |s[1..]| == 1 { assert s[1..][1..] == []; }
      }
      TerminatedTail(s);
    }
  }

  lemma {:induction false} WeightEncodes(s: Bytes)
    requires Terminated(s) && (|s| > 1 ==> s[|s| - 1] != 0)
    ensures Encode(Weigh(s)) == s
  {
    assert s == [s[0]] + s[1..];
    if |s| == 1 {
      assert Weigh(s[1..]) == 0;
    } else {
      TerminatedTail(s);
      hide Terminated;
      WeighPositive(s[1..]);
      WeightEncodes(s[1..]);
      Grouped(s[0] as nat % 128, Weigh(s[1..]));
    }
  }

  lemma {:induction false} Grouped(low: nat, high: nat)
    requires low < 128
    ensures (low + 128 * high) % 128 == low && (low + 128 * high) / 128 == high
  {
  }

  lemma {:induction false} TerminatedTail(s: Bytes)
    requires |s| > 1
    ensures Terminated(s) <==> s[0] >= 128 && Terminated(s[1..])
  {
    var rest := s[1..];
    assert forall i :: 0 <= i < |rest| ==> rest[i] == s[i + 1];
    if s[0] >= 128 && Terminated(rest) {
      forall i | 0 <= i < |s| - 1 ensures s[i] >= 128 {
        assert i > 0 ==> rest[i - 1] == s[i];
      }
    }
  }

  lemma {:induction false} WeighPositive(s: Bytes)
    requires Terminated(s) && s[|s| - 1] != 0
    ensures Weigh(s) > 0
  {
    if |s| > 1 {
      TerminatedTail(s);
      WeighPositive(s[1..]);
    }
  }

  lemma {:induction false} ReadTerminated(s: Bytes, rest: Bytes, shift: nat, acc: nat)
    requires Terminated(s) && shift + 7 * (|s| - 1) < 64
    ensures var r := ReadFrom(s + rest, shift, acc);
            r.Read? && r.rest == rest && r.value % UINT64_LIMIT == (acc + Weigh(s) * Pow2(shift)) % UINT64_LIMIT
    decreases |s|
  {
    hide Pow2, Group, Terminated;
    assert s != [] && (|s| == 1 ==> s[0] < 128) by { NotEmpty(s); }
    var data := s + rest;
    var p, low, w := Pow2(shift), s[0] as nat % 128, Weigh(s[1..]);
    assert Group(s[0], shift) == low * p % UINT64_LIMIT by { GroupIs(s[0], shift); }
    Regroup(acc, low, w, p);
    if |s| == 1 {
      assert data[1..] == rest && w == 0;
    } else {
      assert data[1..] == s[1..] + rest;
      TerminatedTail(s);
      Pow2Seven(shift);
      ReadTerminated(s[1..], rest, shift + 7, acc + Group(s[0], shift));
    }
  }

  lemma {:induction false} NotEmpty(s: Bytes)
    requires Terminated(s)
    ensures s != [] && (|s| == 1 ==> s[0] < 128)
  {
  }

  lemma {:induction false} GroupIs(b: Byte, shift: nat)
    ensures Group(b, shift) == (b as nat % 128) * Pow2(shift) % UINT64_LIMIT
  {
  }

  lemma {:induction false} Regroup(acc: nat, low: nat, w: nat, p: nat)
    ensures (acc + low * p % UINT64_LIMIT + w * (128 * p)) % UINT64_LIMIT == (acc + (low + 128 * w) * p) % UINT64_LIMIT
  {
    assert w * (128 * p) == 128 * w * p;
    assert (low + 128 * w) * p == low * p + 128 * w * p;
    Congruent(acc, low * p, w * (128 * p));
  }

  lemma {:induction false} Congruent(a: nat, b: nat, c: nat)
    ensures (a + b % UINT64_LIMIT + c) % UINT64_LIMIT == (a + b + c) % UINT64_LIMIT
  {
    assert b == b % UINT64_LIMIT + UINT64_LIMIT * (b / UINT64_LIMIT);
  }

  /** At most ten bytes, the last without its high bit, read as their weight, of which 64 bits are kept. */
  lemma {:induction false} DecodeExactly(s: Bytes, rest: Bytes)
    requires Terminated(s) && |s| <= 10
    ensures Decode(s + rest) == Read(Weigh(s) % 0x1_0000_0000_0000_0000, rest)
  {
    hide ReadFrom, Weigh;
    ReadTerminated(s, rest, 0, 0);
    ReadFits(s + rest, 0, 0);
  }

  /** Input that ends too soon is an end of input, and ten bytes with their high bit set are an overflow. */
  lemma {:induction false} DecodeRefuses(data: Bytes)
    requires forall i :: 0 <= i < |data| && i < 10 ==> data[i] >= 128
    ensures Decode(data) == if |data| < 10 then EndOfInput else Overflow
  {
    ReadRefuses(data, 0, 0);
  }

  lemma {:induction false} ReadRefuses(data: Bytes, k: nat, acc: nat)
    requires k <= 10 && forall i :: 0 <= i < |data| && k + i < 10 ==> data[i] >= 128
    ensures ReadFrom(data, 7 * k, acc) == if k + |data| < 10 then EndOfInput else Overflow
    decreases |data|
  {
    if k < 10 && data != [] {
      ReadRefuses(data[1..], k + 1, acc + Group(data[0], 7 * k));
    }
  }

  // ---- The loops ---------------------------------------------------------------------------

  method Sov(x: nat) returns (n: nat)
    ensures n == |Encode(x)|
  {
    n := 1;
    var y: nat := x / 128;
    while y != 0
      invariant n + (if y == 0 then 0 else |Encode(y)|) == |Encode(x)|
    {
      n, y := n + 1, y / 128;
    }
  }

  /** `data` with `bytes` written from `offset` on. */
  function Written(data: Bytes, offset: nat, bytes: Bytes): (r: Bytes)
    requires offset + |bytes| <= |data|
    ensures |r| == |data|
  {
    data[..offset] + bytes + data[offset + |bytes|..]
  }

  lemma {:induction false} WrittenTwice(data: Bytes, offset: nat, first: Bytes, second: Bytes)
    requires offset + |first| + |second| <= |data|
    ensures Written(Written(data, offset, first), offset + |first|, second) == Written(data, offset, first + second)
  {
  }

  lemma {:induction false} WrittenStep(data: Bytes, at: nat, b: Byte, bytes: Bytes)
    requires at + 1 + |bytes| <= |data|
    ensures Written(data[at := b], at + 1, bytes) == Written(data, at, [b] + bytes)
  {
  }

  method EncodeTo(data: array<Byte>, offset: nat, v: nat) returns (end: nat)
    requires offset + |Encode(v)| <= data.Length
    modifies data
    ensures end == offset + |Encode(v)| && data[..] == Written(old(data[..]), offset, Encode(v))
  {
    hide Written;
    var rest := v;
    end := offset;
    while rest >= 128
      invariant offset <= end && end + |Encode(rest)| == offset + |Encode(v)|
      invariant Written(data[..], end, Encode(rest)) == Written(old(data[..]), offset, Encode(v))
    {
      ghost var b := (rest % 128 + 128) as Byte;
      WrittenStep(data[..], end, b, Encode(rest / 128));
      ghost var next := data[..][end := b];
      data[end] := (rest % 128 + 128) as Byte;
      assert data[..] == next;
      rest, end := rest / 128, end + 1;
    }
    LastByte(data[..], end, rest as Byte);
    ghost var next := data[..][end := rest as Byte];
    data[end] := rest as Byte;
    assert data[..] == next;
    end := end + 1;
  }

  lemma {:induction false} LastByte(data: Bytes, at: nat, b: Byte)
    requires at < |data|
    ensures Written(data, at, [b]) == data[at := b]
  {
  }

  lemma {:induction false} PowerOfZero()
    ensures Pow2(0) == 1
  {
  }

  method DecodeAt(data: Bytes, start: nat) returns (r: Read, i: nat)
    requires start <= |data|
    ensures r == Decode(data[start..])
    ensures r.Read? ==> start < i <= |data| && r.rest == data[i..]
  {
    hide Pow2, Group;
    assert Pow2(0) == 1 by { PowerOfZero(); }
    var shift, v: nat := 0, 0;
    i := start;
    while true
      invariant start <= i <= |data| && (shift > 0 ==> start < i)
      invariant shift % 7 == 0 && (shift < 64 ==> v < Pow2(shift))
      invariant ReadFrom(data[i..], shift, v) == Decode(data[start..])
      decreases |data| - i, shift < 64
    {
      if shift >= 64 {
        return Overflow, i;
      }
      if i >= |data| {
        return EndOfInput, i;
      }
      var b := data[i];
      assert data[i..][1..] == data[i + 1..];
      i := i + 1;
      OrIsAdd(b, shift, v);
      GroupBelow(b, shift, v);
      v := Integers.Or(v, Group(b, shift));
      if b < 128 {
        return Read(v, data[i..]), i;
      }
      shift := shift + 7;
    }
  }
}
