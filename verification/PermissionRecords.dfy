/** The records themselves, marshalled into a byte buffer and unmarshalled field by field. */
module PermissionRecords {
  import opened WordSizes
  import opened Bytes
  import opened Varints
  import opened WireFormat
  import opened Permissions

  /** An error, or none. */
  datatype Status = Fine | Bad(error: Error)

  // ---- Reading a field -----------------------------------------------------------------------

  /** The varint at `start`, or the error it is. */
  method ReadNumber(data: Bytes, start: nat) returns (r: Result<nat>, i: nat)
    requires start <= |data|
    ensures match CheckRead(Decode(data[start..]))
            case Err(e) => r == Err(e)
            case Ok((v, rest)) =>
              r == Ok(v) && v < UINT64_LIMIT && start < i <= |data| && rest == data[i..] && |rest| == |data| - i
  {
    hide Decode;
    var read;
    read, i := DecodeAt(data, start);
    DecodeShorter(data[start..]);
    match read {
      case Read(v, _) => r := Ok(v);
      case Overflow => r := Err(IntOverflow);
      case EndOfInput => r := Err(UnexpectedEOF);
    }
  }

  /** How many bytes the field at the beginning takes. */
  method SkipField(data: Bytes) returns (r: Result<nat>)
    ensures r == Skip(data)
    decreases |data|
  {
    hide Decode, SkipGroup;
    assert data[0..] == data;
    var tag, i := ReadNumber(data, 0);
    if tag.Err? {
      return Err(tag.error);
    }
    match tag.value % 8 {
      case 0 =>
        var number;
        number, i := ReadNumber(data, i);
        return if number.Err? then Err(number.error) else Ok(i);
      case 1 => return Ok(i + 8);
      case 2 =>
        var length;
        length, i := ReadNumber(data, i);
        if length.Err? {
          return Err(length.error);
        }
        return if length.value >= INT64_LIMIT then Err(InvalidLength) else Ok(i + length.value);
      case 3 => r := SkipNested(data, i);
      case 4 => return Ok(i);
      case 5 => return Ok(i + 4);
      case _ => return Err(IllegalWireType);
    }
  }

  /** The fields of a group from `start` on, up to its end. */
  method SkipNested(data: Bytes, start: nat) returns (r: Result<nat>)
    requires 1 <= start <= |data|
    ensures r == SkipGroup(data, start)
    decreases |data|, 0
  {
    hide Decode, Skip;
    var i := start;
    while true
      invariant i >= 1 && SkipGroup(data, i) == SkipGroup(data, start)
      decreases |data| - i
    {
      if i >= INT64_LIMIT {
        return Err(Panic);
      }
      if i >= |data| {
        return Err(UnexpectedEOF);
      }
      var tag, after := ReadNumber(data, i);
      if tag.Err? {
        return Err(tag.error);
      }
      if tag.value % 8 == 4 {
        return Ok(after);
      }
      var n := SkipField(data[i..]);
      if n.Err? {
        return n;
      }
      i := i + n.value;
    }
  }

  /** The field at `start`, and where the rest begins. */
  method ReadHead(data: Bytes, start: nat, wire: int) returns (r: Result<Field<nat>>, i: nat)
    requires start <= |data|
    ensures r == NextHead(data[start..], wire, |data|)
    ensures r.Ok? ==> start < i <= |data| && r.value.rest == data[i..]
  {
    hide Decode, Skip;
    var tag;
    tag, i := ReadNumber(data, start);
    if tag.Err? {
      return Err(tag.error), i;
    }
    var fieldNum := Int32(tag.value / 8);
    var wireType := tag.value % 8;
    if wireType == 4 {
      return Err(EndGroup), i;
    }
    if fieldNum <= 0 {
      return Err(IllegalTag), i;
    }
    if fieldNum != 1 && fieldNum != 2 {
      r, i := ReadForeign(data, start);
      return;
    }
    if wireType != wire {
      return Err(WrongWireType), i;
    }
    var v;
    v, i := ReadNumber(data, i);
    if v.Err? {
      return Err(v.error), i;
    }
    r := Ok(Field(fieldNum, v.value, data[i..]));
  }

  method ReadForeign(data: Bytes, start: nat) returns (r: Result<Field<nat>>, i: nat)
    requires start <= |data|
    ensures r == NextForeign(data[start..], |data|)
    ensures r.Ok? ==> start < i <= |data| && r.value.rest == data[i..]
  {
    hide Skip;
    i := start;
    var n := SkipField(data[start..]);
    if n.Err? {
      return Err(n.error), i;
    }
    if n.value >= INT64_LIMIT {
      return Err(InvalidLength), i;
    }
    if start + n.value >= INT64_LIMIT {
      return Err(Panic), i;
    }
    if start + n.value > |data| {
      return Err(UnexpectedEOF), i;
    }
    i := start + n.value;
    assert data[start..][..n.value] == data[start..i] && data[start..][n.value..] == data[i..];
    r := Ok(Foreign(data[start..i], data[i..]));
  }

  // ---- Writing -------------------------------------------------------------------------------

  method Put(data: array<Byte>, i: nat, b: Byte) returns (end: nat)
    requires i < data.Length
    modifies data
    ensures end == i + 1 && data[..] == Written(old(data[..]), i, [b])
  {
    LastByte(data[..], i, b);
    ghost var next := data[..][i := b];
    data[i] := b;
    assert data[..] == next;
    end := i + 1;
  }

  method Copy(data: array<Byte>, i: nat, bytes: Bytes) returns (end: nat)
    requires i + |bytes| <= data.Length
    modifies data
    ensures end == i + |bytes| && data[..] == Written(old(data[..]), i, bytes)
  {
    var k := 0;
    while k < |bytes|
      invariant k <= |bytes| && data[..] == Written(old(data[..]), i, bytes[..k])
    {
      data[i + k] := bytes[k];
      k := k + 1;
    }
    assert bytes[..k] == bytes;
    end := i + |bytes|;
  }

  lemma {:induction false} WrittenNothing(data: Bytes, at: nat)
    requires at <= |data|
    ensures Written(data, at, []) == data
  {
  }

  /** Two writes in a row are one write. */
  lemma {:induction false} Append(before: Bytes, start: nat, first: Bytes, second: Bytes, after: Bytes)
    requires start + |first| + |second| <= |before|
    requires after == Written(Written(before, start, first), start + |first|, second)
    ensures after == Written(before, start, first + second)
  {
    WrittenTwice(before, start, first, second);
  }

  class BasePermissions {
    var perms: PermFlag
    var setBit: PermFlag
    var unrecognized: Bytes

    ghost function Value(): Base
      reads this
    {
      Base(perms, setBit, unrecognized)
    }

    constructor ()
      ensures Value() == NO_BASE
    {
      perms, setBit, unrecognized := 0, 0, [];
    }

    method Size() returns (n: nat)
      ensures n == |EncodeBase(Value())|
    {
      var p := Sov(perms as nat);
      var s := Sov(setBit as nat);
      n := 1 + p + (1 + s) + |unrecognized|;
    }

    /** Writes `[tag]` and a number. */
    static method WriteNumber(data: array<Byte>, start: nat, tag: Byte, v: nat) returns (i: nat)
      requires start + 1 + |Encode(v)| <= data.Length
      modifies data
      ensures i == start + 1 + |Encode(v)| && data[..] == Written(old(data[..]), start, [tag] + Encode(v))
    {
      hide Encode, Written;
      i := Put(data, start, tag);
      i := EncodeTo(data, i, v);
      Append(old(data[..]), start, [tag], Encode(v), data[..]);
    }

    method MarshalTo(data: array<Byte>, start: nat) returns (n: nat)
      requires start + |EncodeBase(Value())| <= data.Length
      modifies data
      ensures n == |EncodeBase(Value())| && data[..] == Written(old(data[..]), start, EncodeBase(Value()))
    {
      hide Encode, Written;
      var i := WriteNumber(data, start, 0x8, perms as nat);
      i := WriteNumber(data, i, 0x10, setBit as nat);
      ghost var both := [0x8] + Encode(perms as nat) + ([0x10] + Encode(setBit as nat));
      Append(old(data[..]), start, [0x8] + Encode(perms as nat), [0x10] + Encode(setBit as nat), data[..]);
      i := Copy(data, i, unrecognized);
      Append(old(data[..]), start, both, unrecognized, data[..]);
      n := i - start;
    }

    method Unmarshal(data: Bytes) returns (status: Status)
      modifies this
      ensures match DecodeBase(data, |data|, old(Value()))
              case Ok(m) => status == Fine && Value() == m
              case Err(e) => status == Bad(e)
    {
      hide NextHead;
      var i := 0;
      assert data[0..] == data;
      while i < |data|
        invariant i <= |data| && DecodeBase(data[i..], |data|, Value()) == DecodeBase(data, |data|, old(Value()))
      {
        var field;
        field, i := ReadHead(data, i, 0);
        if field.Err? {
          return Bad(field.error);
        }
        match field.value {
          case Foreign(bytes, _) => unrecognized := unrecognized + bytes;
          case Field(number, v, _) =>
            if number == 1 {
              perms := v as PermFlag;
            } else {
              setBit := v as PermFlag;
            }
        }
      }
      status := Fine;
    }
  }

  class AccountPermissions {
    const base: BasePermissions
    var roles: seq<Bytes>
    var unrecognized: Bytes

    ghost function Value(): Account
      reads this, base
    {
      Account(base.Value(), roles, unrecognized)
    }

    constructor ()
      ensures fresh(base) && Value() == NO_ACCOUNT
    {
      base := new BasePermissions();
      roles, unrecognized := [], [];
    }

    method Size() returns (n: nat)
      ensures n == |EncodeAccount(Value())|
    {
      var l := base.Size();
      var s := Sov(l);
      n := 1 + l + s;
      var k := 0;
      while k < |roles|
        invariant k <= |roles| && n + |EncodeRoles(roles[k..])| + |unrecognized| == |EncodeAccount(Value())|
      {
        l := |roles[k]|;
        s := Sov(l);
        n := n + 1 + l + s;
        assert roles[k..][1..] == roles[k + 1..];
        k := k + 1;
      }
      n := n + |unrecognized|;
    }

    static method WriteRole(data: array<Byte>, start: nat, role: Bytes) returns (i: nat)
      requires start + |EncodeRole(role)| <= data.Length
      modifies data
      ensures i == start + |EncodeRole(role)| && data[..] == Written(old(data[..]), start, EncodeRole(role))
    {
      hide Encode, Written;
      i := BasePermissions.WriteNumber(data, start, 0x12, |role|);
      i := Copy(data, i, role);
      Append(old(data[..]), start, [0x12] + Encode(|role|), role, data[..]);
    }

    method WriteBase(data: array<Byte>, start: nat) returns (i: nat)
      requires start + |EncodeHead(base.Value())| <= data.Length
      modifies data
      ensures i == start + |EncodeHead(base.Value())|
      ensures data[..] == Written(old(data[..]), start, EncodeHead(base.Value()))
    {
      hide Encode, EncodeBase, Written;
      var size := base.Size();
      i := BasePermissions.WriteNumber(data, start, 0xa, size);
      var n := base.MarshalTo(data, i);
      i := i + n;
      Append(old(data[..]), start, [0xa] + Encode(size), EncodeBase(base.Value()), data[..]);
    }

    method WriteRoles(data: array<Byte>, start: nat) returns (i: nat)
      requires start + |EncodeRoles(roles)| <= data.Length
      modifies data
      ensures i == start + |EncodeRoles(roles)| && data[..] == Written(old(data[..]), start, EncodeRoles(roles))
    {
      hide EncodeRole, Written;
      i := start;
      ghost var done: Bytes := [];
      var k := 0;
      assert roles[0..] == roles;
      WrittenNothing(data[..], start);
      while k < |roles|
        invariant k <= |roles| && i == start + |done| && done + EncodeRoles(roles[k..]) == EncodeRoles(roles)
        invariant data[..] == Written(old(data[..]), start, done)
      {
        assert roles[k..][1..] == roles[k + 1..];
        i := WriteRole(data, i, roles[k]);
        Append(old(data[..]), start, done, EncodeRole(roles[k]), data[..]);
        done := done + EncodeRole(roles[k]);
        assert done + EncodeRoles(roles[k + 1..]) == EncodeRoles(roles);
        k := k + 1;
      }
      assert done == EncodeRoles(roles);
    }

    method MarshalTo(data: array<Byte>, start: nat) returns (n: nat)
      requires start + |EncodeAccount(Value())| <= data.Length
      modifies data
      ensures n == |EncodeAccount(Value())| && data[..] == Written(old(data[..]), start, EncodeAccount(Value()))
    {
      hide EncodeHead, EncodeRoles, Written;
      ghost var head, tail := EncodeHead(base.Value()), EncodeRoles(roles);
      var i := WriteBase(data, start);
      i := WriteRoles(data, i);
      Append(old(data[..]), start, head, tail, data[..]);
      i := Copy(data, i, unrecognized);
      Append(old(data[..]), start, head + tail, unrecognized, data[..]);
      n := i - start;
    }

    method Marshal() returns (data: array<Byte>)
      ensures fresh(data) && data[..] == EncodeAccount(Value())
    {
      hide EncodeAccount;
      var size := Size();
      data := new Byte[size];
      var n := MarshalTo(data, 0);
    }

    method Unmarshal(data: Bytes) returns (status: Status)
      modifies this, base
      ensures match DecodeAccount(data, |data|, old(Value()))
              case Ok(m) => status == Fine && Value() == m
              case Err(e) => status == Bad(e)
    {
      hide NextHead, DecodeBase;
      var i := 0;
      assert data[0..] == data;
      while i < |data|
        invariant i <= |data| && DecodeAccount(data[i..], |data|, Value()) == DecodeAccount(data, |data|, old(Value()))
      {
        ghost var left := data[i..];
        var field;
        field, i := ReadHead(data, i, 2);
        if field.Err? {
          return Bad(field.error);
        }
        match field.value {
          case Foreign(bytes, _) =>
            unrecognized := unrecognized + bytes;
          case Field(number, length, _) =>
            if length >= INT64_LIMIT {
              return Bad(InvalidLength);
            }
            if i + length >= INT64_LIMIT {
              return Bad(Panic);
            }
            if i + length > |data| {
              return Bad(UnexpectedEOF);
            }
            var chunk := data[i..i + length];
            assert data[i..][..length] == chunk && data[i..][length..] == data[i + length..];
            assert NextChunk(left, |data|) == Ok(Field(number, chunk, data[i + length..]));
            if number == 1 {
              status := base.Unmarshal(chunk);
              if status.Bad? {
                return;
              }
            } else {
              roles := roles + [chunk];
            }
            i := i + length;
        }
      }
      status := Fine;
    }
  }

  /** A record sent over the wire arrives as it was if and only if what it carries along is made of foreign fields. */
  method Transfer(m: AccountPermissions) returns (copy: AccountPermissions, status: Status)
    requires |EncodeAccount(m.Value())| < INT64_LIMIT
    ensures fresh(copy)
    ensures status == Fine && copy.Value() == m.Value() <==> Extras(m.Value().extra) && Extras(m.Value().base.extra)
  {
    hide EncodeAccount, DecodeAccount, Extras;
    var data := m.Marshal();
    copy := new AccountPermissions();
    RoundTrip(m.Value());
    status := copy.Unmarshal(data[..]);
  }
}
