/** Fields of a message nobody asked for: skipping them, and what can be skipped. */
module WireFormat {
  import opened WordSizes
  import opened Bytes
  import opened Varints

  datatype Error =
    | IntOverflow
    | UnexpectedEOF
    | InvalidLength
    | EndGroup
    | IllegalTag
    | WrongWireType
    | IllegalWireType
    /** A position wraps around to before the beginning and slicing or indexing panics. */
    | Panic

  datatype Result<T> = Ok(value: T) | Err(error: Error)

  function CheckRead(r: Read): Result<(nat, Bytes)> {
    match r
    case Read(v, rest) => Ok((v, rest))
    case Overflow => Err(IntOverflow)
    case EndOfInput => Err(UnexpectedEOF)
  }

  lemma {:induction false} DecodeShorter(data: Bytes)
    ensures var r := Decode(data); r.Read? ==> |r.rest| < |data| && r.value < UINT64_LIMIT
  {
    ReadShorter(data, 0, 0);
    ReadFits(data, 0, 0);
  }

  lemma {:induction false} ReadShorter(data: Bytes, shift: nat, acc: nat)
    ensures var r := ReadFrom(data, shift, acc); r.Read? ==> |r.rest| < |data|
    decreases |data|
  {
    if shift < 64 && data != [] {
      ReadShorter(data[1..], shift + 7, acc + Group(data[0], shift));
    }
  }

  // ---- Skipping ------------------------------------------------------------------------------

  /** How many bytes the field at the beginning takes; past 63 bits the source's count is negative. */
  function Skip(data: Bytes): (r: Result<nat>)
    ensures r.Ok? ==> r.value >= 1
    decreases |data|, 1, 0
  {
    match CheckRead(Decode(data))
    case Err(e) => Err(e)
    case Ok((head, rest)) =>
      DecodeShorter(data);
      var k := |data| - |rest|;
      match head % 8
      case 0 =>
        (match CheckRead(Decode(rest))
         case Err(e) => Err(e)
         case Ok((_, after)) => DecodeShorter(rest); Ok(|data| - |after|))
      case 1 => Ok(k + 8)
      case 2 =>
        (match CheckRead(Decode(rest))
         case Err(e) => Err(e)
         case Ok((length, after)) =>
           DecodeShorter(rest);
           if length >= INT64_LIMIT then Err(InvalidLength) else Ok(|data| - |after| + length))
      case 3 => SkipGroup(data, k)
      case 4 => Ok(k)
      case 5 => Ok(k + 4)
      case _ => Err(IllegalWireType)
  }

  /** The same for a group whose next field begins at `i`. */
  function SkipGroup(data: Bytes, i: nat): (r: Result<nat>)
    requires i >= 1
    ensures r.Ok? ==> r.value >= 1
    decreases |data|, 0, |data| - i
  {
    if i >= INT64_LIMIT then Err(Panic)
    else if i >= |data| then Err(UnexpectedEOF)
    else
      match CheckRead(Decode(data[i..]))
      case Err(e) => Err(e)
      case Ok((head, rest)) =>
        DecodeShorter(data[i..]);
        if head % 8 == 4 then Ok(|data| - |rest|)
        else
          match Skip(data[i..])
          case Err(e) => Err(e)
          case Ok(n) => SkipGroup(data, i + n)
  }

  // ---- What can be skipped -------------------------------------------------------------------

  /** A field with its tag: a number, eight bytes, a counted string, a group with its end, or four bytes. */
  datatype Item =
    | Numeric(tag: Bytes, number: Bytes)
    | Eight(tag: Bytes, bytes: Bytes)
    | Counted(tag: Bytes, length: Bytes, bytes: Bytes)
    | Nested(tag: Bytes, items: seq<Item>, end: Bytes)
    | Ended(tag: Bytes)
    | Four(tag: Bytes, bytes: Bytes)

  function Lay(x: Item): Bytes
    decreases x, 0
  {
    match x
    case Numeric(tag, number) => tag + number
    case Eight(tag, bytes) => tag + bytes
    case Counted(tag, length, bytes) => tag + length + bytes
    case Nested(tag, items, end) => tag + LayAll(items) + end
    case Ended(tag) => tag
    case Four(tag, bytes) => tag + bytes
  }

  function LayAll(items: seq<Item>): Bytes
    decreases items, 1
  {
    if items == [] then [] else Lay(items[0]) + LayAll(items[1..])
  }

  predicate IsVarint(s: Bytes) {
    Terminated(s) && |s| <= 10
  }

  /** What a varint is read as. */
  function Number(s: Bytes): nat {
    Weigh(s) % 0x1_0000_0000_0000_0000
  }

  ghost predicate Formed(x: Item)
    decreases x
  {
    IsVarint(x.tag) &&
    match x
    case Numeric(tag, number) => Number(tag) % 8 == 0 && IsVarint(number)
    case Eight(tag, bytes) => Number(tag) % 8 == 1 && |bytes| == 8
    case Counted(tag, length, bytes) => Number(tag) % 8 == 2 && IsVarint(length) && |bytes| == Number(length)
    case Nested(tag, items, end) =>
      && Number(tag) % 8 == 3 && IsVarint(end) && Number(end) % 8 == 4
      && forall i :: 0 <= i < |items| ==> Formed(items[i]) && !items[i].Ended?
    case Ended(tag) => Number(tag) % 8 == 4
    case Four(tag, bytes) => Number(tag) % 8 == 5 && |bytes| == 4
  }

  lemma {:induction false} ReadTag(s: Bytes, rest: Bytes)
    requires IsVarint(s)
    ensures CheckRead(Decode(s + rest)) == Ok((Number(s), rest)) && |s| >= 1
  {
    hide Decode, Weigh;
    DecodeExactly(s, rest);
  }

  lemma {:induction false} NumericLaid(tag: Bytes, number: Bytes, rest: Bytes)
    requires IsVarint(tag) && Number(tag) % 8 == 0 && IsVarint(number)
    ensures Skip(tag + number + rest) == Ok(|tag + number|)
  {
    hide Decode, Number, IsVarint, SkipGroup;
    assert tag + number + rest == tag + (number + rest);
    ReadTag(tag, number + rest);
    ReadTag(number, rest);
  }

  lemma {:induction false} FixedLaid(tag: Bytes, rest: Bytes)
    requires IsVarint(tag)
    ensures Number(tag) % 8 == 1 ==> Skip(tag + rest) == Ok(|tag| + 8)
    ensures Number(tag) % 8 == 4 ==> Skip(tag + rest) == Ok(|tag|)
    ensures Number(tag) % 8 == 5 ==> Skip(tag + rest) == Ok(|tag| + 4)
    ensures Number(tag) % 8 == 3 ==> |tag| >= 1 && Skip(tag + rest) == SkipGroup(tag + rest, |tag|)
  {
    hide Decode, Number, IsVarint, SkipGroup;
    ReadTag(tag, rest);
  }

  lemma {:induction false} CountedLaid(tag: Bytes, length: Bytes, bytes: Bytes, rest: Bytes)
    requires IsVarint(tag) && Number(tag) % 8 == 2 && IsVarint(length) && |bytes| == Number(length) < INT64_LIMIT
    ensures Skip(tag + length + bytes + rest) == Ok(|tag + length + bytes|)
  {
    hide Decode, Number, IsVarint, SkipGroup;
    assert tag + length + bytes + rest == tag + (length + (bytes + rest));
    ReadTag(tag, length + (bytes + rest));
    ReadTag(length, bytes + rest);
  }

  /** A field in front of anything else is skipped whole. */
  lemma {:induction false} SkipLaid(x: Item, rest: Bytes)
    requires Formed(x) && |Lay(x) + rest| < INT64_LIMIT
    ensures Skip(Lay(x) + rest) == Ok(|Lay(x)|)
    decreases x, 0
  {
    hide Skip, SkipGroup, Number, IsVarint, LayAll;
    match x {
      case Numeric(tag, number) => NumericLaid(tag, number, rest);
      case Counted(tag, length, bytes) => CountedLaid(tag, length, bytes, rest);
      case Nested(tag, items, end) =>
        assert Lay(x) + rest == tag + (LayAll(items) + end + rest) == tag + LayAll(items) + end + rest;
        FixedLaid(tag, LayAll(items) + end + rest);
        GroupLaid(tag, items, end, rest);
      case Eight(tag, bytes) =>
        assert Lay(x) + rest == tag + (bytes + rest);
        FixedLaid(tag, bytes + rest);
      case Four(tag, bytes) =>
        assert Lay(x) + rest == tag + (bytes + rest);
        FixedLaid(tag, bytes + rest);
      case Ended(tag) => FixedLaid(tag, rest);
    }
  }

  lemma {:induction false} GroupLaid(front: Bytes, items: seq<Item>, end: Bytes, rest: Bytes)
    requires |front| >= 1 && IsVarint(end) && Number(end) % 8 == 4
    requires forall i :: 0 <= i < |items| ==> Formed(items[i]) && !items[i].Ended?
    requires |front + LayAll(items) + end + rest| < INT64_LIMIT
    ensures SkipGroup(front + LayAll(items) + end + rest, |front|) == Ok(|front + LayAll(items) + end|)
    decreases items, 1
  {
    hide Decode, Number, IsVarint, Skip, Formed, Lay;
    var data := front + LayAll(items) + end + rest;
    if items == [] {
      assert data[|front|..] == end + rest;
      ReadTag(end, rest);
    } else {
      var x, tail := items[0], LayAll(items[1..]) + end + rest;
      assert data[|front|..] == Lay(x) + tail;
      SkipLaid(x, tail);
      OpensField(x, tail);
      var next := front + Lay(x);
      assert data == next + LayAll(items[1..]) + end + rest;
      GroupLaid(next, items[1..], end, rest);
    }
  }

  /** No field but an end opens with the tag of an end. */
  lemma {:induction false} OpensField(x: Item, rest: Bytes)
    requires Formed(x)
    ensures var r := CheckRead(Decode(Lay(x) + rest));
            r.Ok? && r.value.0 == Number(x.tag) && (r.value.0 % 8 == 4 <==> x.Ended?)
    ensures |Lay(x)| >= 1
  {
    hide Decode, Number, IsVarint, LayAll;
    var tail := Lay(x)[|x.tag|..];
    assert Lay(x) == x.tag + tail;
    assert Lay(x) + rest == x.tag + (tail + rest);
    ReadTag(x.tag, tail + rest);
  }

  // ---- Nothing else can be -------------------------------------------------------------------

  lemma {:induction false} LowByte(data: Bytes, k: nat) returns (n: nat)
    requires k <= |data| && k <= 10 && forall i :: 0 <= i < k ==> data[i] >= 128
    ensures n <= 10 && n <= |data| && (forall i :: 0 <= i < n ==> data[i] >= 128)
    ensures n == 10 || n == |data| || data[n] < 128
    decreases 10 - k
  {
    n := k;
    if k < 10 && k < |data| && data[k] >= 128 {
      n := LowByte(data, k + 1);
    }
  }

  /** What is read as a number begins with a varint. */
  lemma {:induction false} ReadVarint(data: Bytes) returns (s: Bytes)
    requires Decode(data).Read?
    ensures IsVarint(s) && data == s + Decode(data).rest && Decode(data).value == Number(s)
  {
    hide Decode, Weigh;
    var n := LowByte(data, 0);
    if n < 10 && n < |data| {
      s := data[..n + 1];
      assert data == s + data[n + 1..];
      DecodeExactly(s, data[n + 1..]);
    } else {
      DecodeRefuses(data);
      assert false;
    }
  }

  /** What is skipped is a field. */
  lemma {:induction false} SkipFinds(data: Bytes, n: nat) returns (x: Item)
    requires Skip(data) == Ok(n) && n <= |data|
    ensures Formed(x) && Lay(x) == data[..n]
    decreases |data|, 1, 0
  {
    hide Decode, Number, IsVarint, SkipGroup;
    var tag := ReadVarint(data);
    var rest := Decode(data).rest;
    var k := |tag|;
    var wire := Number(tag) % 8;
    if wire == 0 {
      var number := ReadVarint(rest);
      x := Numeric(tag, number);
    } else if wire == 1 {
      x := Eight(tag, data[k..n]);
    } else if wire == 2 {
      var length := ReadVarint(rest);
      x := Counted(tag, length, data[k + |length|..n]);
    } else if wire == 3 {
      DecodeShorter(data);
      var items, end := GroupFinds(data, k, n);
      x := Nested(tag, items, end);
    } else if wire == 4 {
      x := Ended(tag);
    } else {
      x := Four(tag, data[k..n]);
    }
  }

  lemma {:induction false} LaidNothing()
    ensures LayAll([]) == []
  {
  }

  lemma {:induction false} LaidFirst(x: Item, rest: seq<Item>)
    ensures LayAll([x] + rest) == Lay(x) + LayAll(rest)
  {
    assert ([x] + rest)[1..] == rest;
  }

  /** One step through a group. */
  lemma {:induction false} GroupStep(data: Bytes, i: nat)
    requires i >= 1 && SkipGroup(data, i).Ok?
    ensures i < |data| && Decode(data[i..]).Read?
    ensures var r := Decode(data[i..]);
            if r.value % 8 == 4 then SkipGroup(data, i) == Ok(|data| - |r.rest|)
            else Skip(data[i..]).Ok? && SkipGroup(data, i) == SkipGroup(data, i + Skip(data[i..]).value)
  {
    hide Decode, Skip;
  }

  lemma {:induction false} Spliced(data: Bytes, i: nat, m: nat, n: nat, x: Item, rest: seq<Item>, end: Bytes)
    requires i + m <= n <= |data| && Lay(x) == data[i..][..m] && data[i + m..n] == LayAll(rest) + end
    ensures data[i..n] == LayAll([x] + rest) + end
  {
    hide Lay, LayAll;
    LaidFirst(x, rest);
    assert data[i..n] == data[i..][..m] + data[i + m..n];
  }

  lemma {:induction false} GroupFinds(data: Bytes, i: nat, n: nat) returns (items: seq<Item>, end: Bytes)
    requires i >= 1 && SkipGroup(data, i) == Ok(n) && n <= |data|
    ensures i <= n && data[i..n] == LayAll(items) + end && IsVarint(end) && Number(end) % 8 == 4
    ensures forall j :: 0 <= j < |items| ==> Formed(items[j]) && !items[j].Ended?
    decreases |data|, 0, |data| - i
  {
    hide Decode, Number, IsVarint, Skip, SkipGroup, Formed, Lay, LayAll;
    GroupStep(data, i);
    var here := data[i..];
    var tag := ReadVarint(here);
    if Number(tag) % 8 == 4 {
      items, end := [], tag;
      LaidNothing();
      assert data[i..n] == tag;
    } else {
      var m := Skip(here).value;
      var rest;
      rest, end := GroupFinds(data, i + m, n);
      var x := SkipFinds(here, m);
      items := [x] + rest;
      assert here == Lay(x) + here[m..];
      OpensField(x, here[m..]);
      Spliced(data, i, m, n, x, rest, end);
    }
  }
}
