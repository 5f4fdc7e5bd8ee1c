/** The wire form of account permissions: two nested messages of tagged, length-prefixed fields. */
module Permissions {
  import opened WordSizes
  import opened Bytes
  import opened Varints
  import opened WireFormat

  newtype PermFlag = x: int | 0 <= x < 0x1_0000_0000_0000_0000

  /** `extra`: the fields of other numbers, as they came. */
  datatype Base = Base(perms: PermFlag, setBit: PermFlag, extra: Bytes)
  datatype Account = Account(base: Base, roles: seq<Bytes>, extra: Bytes)

  const NO_BASE := Base(0, 0, [])
  const NO_ACCOUNT := Account(NO_BASE, [], [])

  // ---- Encoding --------------------------------------------------------------------------

  function EncodeBase(m: Base): Bytes {
    [0x8] + Encode(m.perms as nat) + ([0x10] + Encode(m.setBit as nat)) + m.extra
  }

  function EncodeRole(role: Bytes): Bytes {
    [0x12] + Encode(|role|) + role
  }

  function EncodeRoles(roles: seq<Bytes>): Bytes {
    if roles == [] then [] else EncodeRole(roles[0]) + EncodeRoles(roles[1..])
  }

  function EncodeHead(m: Base): Bytes {
    [0xa] + Encode(|EncodeBase(m)|) + EncodeBase(m)
  }

  function EncodeAccount(m: Account): Bytes {
    EncodeHead(m.base) + EncodeRoles(m.roles) + m.extra
  }

  // ---- Decoding --------------------------------------------------------------------------

  /** A field's tag: its number and how its value is laid out. */
  datatype Tag = Tag(field: int, wire: int)

  /** The low 32 bits, as a signed number. */
  function Int32(x: nat): int {
    var low := x % 0x1_0000_0000;
    if low < 0x8000_0000 then low else low - 0x1_0000_0000
  }

  function CheckTag(wire: nat): Result<Tag> {
    var tag := Tag(Int32(wire / 8), wire % 8);
    if tag.wire == 4 then Err(EndGroup) else if tag.field <= 0 then Err(IllegalTag) else Ok(tag)
  }

  /** Whether `n` more bytes can be cut from `left` bytes, of `total`. */
  function CheckLength(n: nat, left: nat, total: nat): (r: Result<nat>)
    requires left <= total
    ensures r.Ok? ==> r.value == n <= left
  {
    if n >= INT64_LIMIT then Err(InvalidLength)
    else if total - left + n >= INT64_LIMIT then Err(Panic)
    else if n > left then Err(UnexpectedEOF)
    else Ok(n)
  }

  /** A field number, with the value that follows its tag and what is left after it; or a field of another number. */
  datatype Field<T> =
    | Field(number: int, value: T, rest: Bytes)
    | Foreign(bytes: Bytes, rest: Bytes)

  /** A field passed over: whatever it is, its bytes are kept. */
  function NextForeign<T>(data: Bytes, total: nat): (r: Result<Field<T>>)
    requires |data| <= total
    ensures r.Ok? ==> r.value.Foreign? && |r.value.rest| < |data|
  {
    match Skip(data)
    case Err(e) => Err(e)
    case Ok(length) =>
      match CheckLength(length, |data|, total)
      case Err(e) => Err(e)
      case Ok(n) => Ok(Foreign(data[..n], data[n..]))
  }

  /** The head of a field of a message whose fields are 1 and 2, both laid out as `wire` says. */
  function NextHead(data: Bytes, wire: int, total: nat): (r: Result<Field<nat>>)
    requires |data| <= total
    ensures r.Ok? ==> |r.value.rest| < |data|
    ensures r.Ok? && r.value.Field? ==> r.value.value < UINT64_LIMIT && (r.value.number == 1 || r.value.number == 2)
  {
    match CheckRead(Decode(data))
    case Err(e) => Err(e)
    case Ok((head, rest)) =>
      match CheckTag(head)
      case Err(e) => Err(e)
      case Ok(tag) =>
        if tag.field != 1 && tag.field != 2 then NextForeign(data, total)
        else if tag.wire != wire then Err(WrongWireType)
        else
          match CheckRead(Decode(rest))
          case Err(e) => Err(e)
          case Ok((v, rest')) =>
            DecodeShorter(data);
            DecodeShorter(rest);
            Ok(Field(tag.field, v, rest'))
  }

  /** `total` is the length of the whole message, of which `data` is left. */
  function DecodeBase(data: Bytes, total: nat, m: Base): Result<Base>
    requires |data| <= total
    decreases |data|
  {
    if data == [] then Ok(m) else
    match NextHead(data, 0, total)
    case Err(e) => Err(e)
    case Ok(Field(number, v, rest)) =>
      DecodeBase(rest, total, if number == 1 then m.(perms := v as PermFlag) else m.(setBit := v as PermFlag))
    case Ok(Foreign(bytes, rest)) => DecodeBase(rest, total, m.(extra := m.extra + bytes))
  }

  /** A length-prefixed field. */
  function NextChunk(data: Bytes, total: nat): (r: Result<Field<Bytes>>)
    requires |data| <= total
    ensures r.Ok? ==> |r.value.rest| < |data|
  {
    match NextHead(data, 2, total)
    case Err(e) => Err(e)
    case Ok(Foreign(bytes, rest)) => Ok(Foreign(bytes, rest))
    case Ok(Field(number, length, rest)) =>
      match CheckLength(length, |rest|, total)
      case Err(e) => Err(e)
      case Ok(n) => Ok(Field(number, rest[..n], rest[n..]))
  }

  function DecodeAccount(data: Bytes, total: nat, m: Account): Result<Account>
    requires |data| <= total
    decreases |data|
  {
    if data == [] then Ok(m) else
    match NextChunk(data, total)
    case Err(e) => Err(e)
    case Ok(Foreign(bytes, rest)) => DecodeAccount(rest, total, m.(extra := m.extra + bytes))
    case Ok(Field(number, chunk, rest)) =>
      if number == 2 then
        DecodeAccount(rest, total, m.(roles := m.roles + [chunk]))
      else
        match DecodeBase(chunk, |chunk|, m.base)
        case Err(e) => Err(e)
        case Ok(base) => DecodeAccount(rest, total, m.(base := base))
  }

  // ---- Fields of other numbers ---------------------------------------------------------------

  /** The number in a tag, before it is read as a signed one. */
  function FieldNumber(tag: Bytes): nat {
    Number(tag) / 8 % 0x1_0000_0000
  }

  /** A field whose number is legal and not one of the two. */
  ghost predicate IsForeign(x: Item) {
    Formed(x) && !x.Ended? && 2 < FieldNumber(x.tag) < 0x8000_0000
  }

  ghost predicate AllForeign(items: seq<Item>) {
    forall i :: 0 <= i < |items| ==> IsForeign(items[i])
  }

  /** Nothing but such fields, one after the other. */
  ghost predicate Extras(s: Bytes) {
    exists items :: AllForeign(items) && LayAll(items) == s
  }

  lemma {:induction false} ForeignHead(x: Item, rest: Bytes, wire: int, total: nat)
    requires IsForeign(x) && |Lay(x) + rest| <= total < INT64_LIMIT
    ensures NextHead(Lay(x) + rest, wire, total) == Ok(Foreign(Lay(x), rest)) && Lay(x) != []
  {
    hide Decode, Skip, Formed, Lay, Number;
    var data := Lay(x) + rest;
    OpensField(x, rest);
    SkipLaid(x, rest);
    assert data[..|Lay(x)|] == Lay(x) && data[|Lay(x)|..] == rest;
  }

  lemma {:induction false} ForeignFinds(data: Bytes, wire: int, total: nat) returns (x: Item)
    requires |data| <= total && NextHead(data, wire, total).Ok? && NextHead(data, wire, total).value.Foreign?
    ensures IsForeign(x) && data == Lay(x) + NextHead(data, wire, total).value.rest
    ensures NextHead(data, wire, total).value.bytes == Lay(x)
  {
    hide Decode, Skip, Formed, Lay, Number;
    var n := Skip(data).value;
    x := SkipFinds(data, n);
    assert data == Lay(x) + data[n..];
    OpensField(x, data[n..]);
  }

  lemma {:induction false} BaseKeeps(items: seq<Item>, rest: Bytes, total: nat, m: Base)
    requires AllForeign(items) && |LayAll(items) + rest| <= total < INT64_LIMIT
    ensures DecodeBase(LayAll(items) + rest, total, m) == DecodeBase(rest, total, m.(extra := m.extra + LayAll(items)))
  {
    hide NextHead, IsForeign, Lay;
    if items == [] {
      assert LayAll(items) + rest == rest && m.extra + [] == m.extra;
    } else {
      var tail := LayAll(items[1..]) + rest;
      assert LayAll(items) + rest == Lay(items[0]) + tail;
      ForeignHead(items[0], tail, 0, total);
      var m' := m.(extra := m.extra + Lay(items[0]));
      BaseKeeps(items[1..], rest, total, m');
      assert m.extra + Lay(items[0]) + LayAll(items[1..]) == m.extra + LayAll(items);
    }
  }

  lemma {:induction false} AccountKeeps(items: seq<Item>, rest: Bytes, total: nat, m: Account)
    requires AllForeign(items) && |LayAll(items) + rest| <= total < INT64_LIMIT
    ensures DecodeAccount(LayAll(items) + rest, total, m) == DecodeAccount(rest, total, m.(extra := m.extra + LayAll(items)))
  {
    hide NextHead, IsForeign, Lay, DecodeBase;
    if items == [] {
      assert LayAll(items) + rest == rest && m.extra + [] == m.extra;
    } else {
      var tail := LayAll(items[1..]) + rest;
      assert LayAll(items) + rest == Lay(items[0]) + tail;
      ForeignHead(items[0], tail, 2, total);
      var m' := m.(extra := m.extra + Lay(items[0]));
      AccountKeeps(items[1..], rest, total, m');
      assert m.extra + Lay(items[0]) + LayAll(items[1..]) == m.extra + LayAll(items);
    }
  }

  lemma {:induction false} MoreExtras(x: Item, s: Bytes)
    requires IsForeign(x) && Extras(s)
    ensures Extras(Lay(x) + s)
  {
    hide IsForeign, Lay;
    var items :| AllForeign(items) && LayAll(items) == s;
    var all := [x] + items;
    assert all[1..] == items;
    assert AllForeign(all) && LayAll(all) == Lay(x) + s;
  }

  lemma {:induction false} NoExtras()
    ensures Extras([])
  {
    assert AllForeign([]) && LayAll([]) == [];
  }

  /** Decoding keeps exactly the bytes of the foreign fields: all bytes, if and only if they are nothing else. */
  lemma {:induction false} BaseKept(data: Bytes, total: nat, m: Base) returns (kept: Bytes)
    requires |data| <= total && DecodeBase(data, total, m).Ok?
    ensures DecodeBase(data, total, m).value.extra == m.extra + kept && Extras(kept)
    ensures |kept| <= |data| && (|kept| == |data| ==> Extras(data))
    decreases |data|
  {
    hide NextHead, IsForeign, Lay, Extras;
    if data == [] {
      kept := [];
      NoExtras();
    } else {
      var field := NextHead(data, 0, total).value;
      if field.Foreign? {
        var x := ForeignFinds(data, 0, total);
        var more := BaseKept(field.rest, total, m.(extra := m.extra + Lay(x)));
        kept := Lay(x) + more;
        MoreExtras(x, more);
        if |kept| == |data| { MoreExtras(x, field.rest); }
      } else {
        var m' := if field.number == 1 then m.(perms := field.value as PermFlag) else m.(setBit := field.value as PermFlag);
        kept := BaseKept(field.rest, total, m');
      }
    }
  }

  lemma {:induction false} AccountKept(data: Bytes, total: nat, m: Account) returns (kept: Bytes)
    requires |data| <= total && DecodeAccount(data, total, m).Ok?
    ensures DecodeAccount(data, total, m).value.extra == m.extra + kept && Extras(kept)
    ensures |kept| <= |data| && (|kept| == |data| ==> Extras(data))
    decreases |data|
  {
    hide NextHead, IsForeign, Lay, Extras, DecodeBase;
    if data == [] {
      kept := [];
      NoExtras();
    } else {
      var field := NextChunk(data, total).value;
      if field.Foreign? {
        var x := ForeignFinds(data, 2, total);
        var more := AccountKept(field.rest, total, m.(extra := m.extra + Lay(x)));
        kept := Lay(x) + more;
        MoreExtras(x, more);
        if |kept| == |data| { MoreExtras(x, field.rest); }
      } else if field.number == 2 {
        kept := AccountKept(field.rest, total, m.(roles := m.roles + [field.value]));
      } else {
        var base := DecodeBase(field.value, |field.value|, m.base).value;
        kept := AccountKept(field.rest, total, m.(base := base));
      }
    }
  }

  // ---- Round trip ------------------------------------------------------------------------

  lemma {:induction false} OneByte(b: Byte, rest: Bytes)
    requires b < 128
    ensures Decode([b] + rest) == Read(b as nat, rest)
  {
    DecodeInverts(b as nat, rest);
    assert Encode(b as nat) == [b];
  }

  lemma {:induction false} HeadInverts(tag: Byte, v: nat, rest: Bytes, total: nat)
    requires tag in {0x8, 0x10, 0xa, 0x12} && v < UINT64_LIMIT && |[tag] + Encode(v) + rest| <= total
    ensures NextHead([tag] + Encode(v) + rest, tag as int % 8, total) == Ok(Field(tag as int / 8, v, rest))
  {
    hide Decode, Encode, Skip;
    var data := [tag] + Encode(v) + rest;
    assert data == [tag] + (Encode(v) + rest);
    OneByte(tag, Encode(v) + rest);
    DecodeInverts(v, rest);
    assert CheckTag(tag as int) == Ok(Tag(tag as int / 8, tag as int % 8));
  }

  /** One decoding step over an encoded number. */
  lemma {:induction false} BaseField(tag: Byte, v: PermFlag, rest: Bytes, total: nat, m: Base)
    requires (tag == 0x8 || tag == 0x10) && |[tag] + Encode(v as nat) + rest| <= total
    ensures DecodeBase([tag] + Encode(v as nat) + rest, total, m)
            == DecodeBase(rest, total, if tag == 0x8 then m.(perms := v) else m.(setBit := v))
  {
    hide NextHead, Encode;
    HeadInverts(tag, v as nat, rest, total);
  }

  /** An encoded base is decoded to its two numbers, and then come its extra fields. */
  lemma {:induction false} BaseOpens(m: Base, total: nat, into: Base)
    requires |EncodeBase(m)| <= total
    ensures DecodeBase(EncodeBase(m), total, into) == DecodeBase(m.extra, total, Base(m.perms, m.setBit, into.extra))
  {
    hide Encode, DecodeBase;
    var second := [0x10] + Encode(m.setBit as nat) + m.extra;
    assert EncodeBase(m) == [0x8] + Encode(m.perms as nat) + second;
    BaseField(0x8, m.perms, second, total, into);
    BaseField(0x10, m.setBit, m.extra, total, into.(perms := m.perms));
  }

  /** One base laid over another: its numbers stand, and extra fields are added. */
  function Over(into: Base, m: Base): Base {
    Base(m.perms, m.setBit, into.extra + m.extra)
  }

  lemma {:induction false} BaseInverts(m: Base, total: nat, into: Base)
    requires |EncodeBase(m)| <= total < INT64_LIMIT && Extras(m.extra)
    ensures DecodeBase(EncodeBase(m), total, into) == Ok(Over(into, m))
  {
    hide Encode;
    BaseOpens(m, total, into);
    var items :| AllForeign(items) && LayAll(items) == m.extra;
    assert m.extra == LayAll(items) + [];
    BaseKeeps(items, [], total, Base(m.perms, m.setBit, into.extra));
  }

  lemma {:induction false} ChunkInverts(tag: Byte, chunk: Bytes, rest: Bytes, total: nat)
    requires tag == 0xa || tag == 0x12
    requires |[tag] + Encode(|chunk|) + chunk + rest| <= total < INT64_LIMIT
    ensures NextChunk([tag] + Encode(|chunk|) + chunk + rest, total) == Ok(Field(tag as int / 8, chunk, rest))
  {
    hide NextHead, Encode;
    var tail := chunk + rest;
    assert [tag] + Encode(|chunk|) + chunk + rest == [tag] + Encode(|chunk|) + tail;
    HeadInverts(tag, |chunk|, tail, total);
    assert tail[..|chunk|] == chunk && tail[|chunk|..] == rest;
  }

  lemma {:induction false} RoleField(role: Bytes, rest: Bytes, total: nat, m: Account)
    requires |EncodeRole(role) + rest| <= total < INT64_LIMIT
    ensures DecodeAccount(EncodeRole(role) + rest, total, m) == DecodeAccount(rest, total, m.(roles := m.roles + [role]))
  {
    hide NextChunk, Encode, DecodeBase;
    ChunkInverts(0x12, role, rest, total);
  }

  lemma {:induction false} HeadField(base: Base, rest: Bytes, total: nat, m: Account)
    requires |EncodeHead(base) + rest| <= total < INT64_LIMIT
    ensures DecodeAccount(EncodeHead(base) + rest, total, m) ==
            match DecodeBase(EncodeBase(base), |EncodeBase(base)|, m.base)
            case Err(e) => Err(e)
            case Ok(b) => DecodeAccount(rest, total, m.(base := b))
  {
    hide NextChunk, Encode, EncodeBase, DecodeBase;
    ChunkInverts(0xa, EncodeBase(base), rest, total);
  }

  lemma {:induction false} RolesDecode(roles: seq<Bytes>, rest: Bytes, total: nat, m: Account)
    requires |EncodeRoles(roles) + rest| <= total < INT64_LIMIT
    ensures DecodeAccount(EncodeRoles(roles) + rest, total, m) == DecodeAccount(rest, total, m.(roles := m.roles + roles))
  {
    hide DecodeAccount, EncodeRole;
    if roles == [] {
      assert EncodeRoles(roles) + rest == rest && m.roles + roles == m.roles;
    } else {
      var tail := EncodeRoles(roles[1..]) + rest;
      assert EncodeRoles(roles) + rest == EncodeRole(roles[0]) + tail;
      RoleField(roles[0], tail, total, m);
      var m' := m.(roles := m.roles + [roles[0]]);
      RolesDecode(roles[1..], rest, total, m');
      assert m.roles + [roles[0]] + roles[1..] == m.roles + roles;
    }
  }

  /** An encoded record is decoded to its base and roles, and then come its extra fields and the rest. */
  lemma {:induction false} AccountOpens(m: Account, rest: Bytes, total: nat, into: Account)
    requires |EncodeAccount(m) + rest| <= total < INT64_LIMIT
    ensures DecodeAccount(EncodeAccount(m) + rest, total, into) ==
            match DecodeBase(EncodeBase(m.base), |EncodeBase(m.base)|, into.base)
            case Err(e) => Err(e)
            case Ok(b) => DecodeAccount(m.extra + rest, total, Account(b, into.roles + m.roles, into.extra))
  {
    hide DecodeAccount, DecodeBase, EncodeBase, EncodeHead, EncodeRoles;
    var roles := EncodeRoles(m.roles) + (m.extra + rest);
    assert EncodeAccount(m) + rest == EncodeHead(m.base) + roles;
    HeadField(m.base, roles, total, into);
    var b := DecodeBase(EncodeBase(m.base), |EncodeBase(m.base)|, into.base);
    if b.Ok? {
      RolesDecode(m.roles, m.extra + rest, total, into.(base := b.value));
    }
  }

  function Merge(into: Account, m: Account): Account {
    Account(Over(into.base, m.base), into.roles + m.roles, into.extra + m.extra)
  }

  lemma {:induction false} HeadFits(m: Account)
    ensures |m.base.extra| <= |EncodeBase(m.base)| <= |EncodeAccount(m)|
  {
    hide Encode, EncodeRoles;
  }

  /** Decoding an encoded message followed by `rest` merges it and goes on with `rest`. */
  lemma {:induction false} DecodeMerges(m: Account, rest: Bytes, total: nat, into: Account)
    requires |EncodeAccount(m) + rest| <= total < INT64_LIMIT && Extras(m.extra) && Extras(m.base.extra)
    ensures DecodeAccount(EncodeAccount(m) + rest, total, into) == DecodeAccount(rest, total, Merge(into, m))
  {
    hide DecodeAccount, DecodeBase, EncodeBase, EncodeAccount;
    AccountOpens(m, rest, total, into);
    HeadFits(m);
    BaseInverts(m.base, |EncodeBase(m.base)|, into.base);
    var items :| AllForeign(items) && LayAll(items) == m.extra;
    EncodeLonger(m);
    AccountKeeps(items, rest, total, Account(Over(into.base, m.base), into.roles + m.roles, into.extra));
  }

  lemma {:induction false} EncodeLonger(m: Account)
    ensures |m.extra| <= |EncodeAccount(m)|
  {
  }

  /** The wire form is read back exactly if and only if what a record carries along is made of foreign fields. */
  lemma {:induction false} RoundTrip(m: Account)
    requires |EncodeAccount(m)| < INT64_LIMIT
    ensures DecodeAccount(EncodeAccount(m), |EncodeAccount(m)|, NO_ACCOUNT) == Ok(m)
            <==> Extras(m.extra) && Extras(m.base.extra)
  {
    hide EncodeAccount, EncodeBase, DecodeAccount, DecodeBase, Extras;
    var data := EncodeAccount(m);
    assert data + [] == data && m.extra + [] == m.extra;
    if Extras(m.extra) && Extras(m.base.extra) {
      DecodeMerges(m, [], |data|, NO_ACCOUNT);
      MergedNothing(m, |data|);
    }
    if DecodeAccount(data, |data|, NO_ACCOUNT) == Ok(m) {
      AccountOpens(m, [], |data|, NO_ACCOUNT);
      EncodeLonger(m);
      HeadFits(m);
      BaseOpens(m.base, |EncodeBase(m.base)|, NO_BASE);
      assert [] + m.roles == m.roles;
      OnlyExtras(m, |data|);
    }
  }

  lemma {:induction false} MergedNothing(m: Account, total: nat)
    ensures DecodeAccount([], total, Merge(NO_ACCOUNT, m)) == Ok(m)
  {
    assert NO_ACCOUNT.roles + m.roles == m.roles && NO_ACCOUNT.extra + m.extra == m.extra;
    assert NO_BASE.extra + m.base.extra == m.base.extra;
  }

  lemma {:induction false} OnlyExtras(m: Account, total: nat)
    requires |m.extra| <= total < INT64_LIMIT && |m.base.extra| <= |EncodeBase(m.base)|
    requires var b := DecodeBase(m.base.extra, |EncodeBase(m.base)|, Base(m.base.perms, m.base.setBit, []));
             b.Ok? && DecodeAccount(m.extra, total, Account(b.value, m.roles, [])) == Ok(m)
    ensures Extras(m.extra) && Extras(m.base.extra)
  {
    hide DecodeAccount, DecodeBase, EncodeBase, AllForeign;
    var size := |EncodeBase(m.base)|;
    var start := Base(m.base.perms, m.base.setBit, []);
    var b := DecodeBase(m.base.extra, size, start).value;
    var from := Account(b, m.roles, []);
    var kept := AccountKept(m.extra, total, from);
    assert [] + kept == kept;
    var items :| AllForeign(items) && LayAll(items) == m.extra;
    assert LayAll(items) + [] == m.extra;
    AccountKeeps(items, [], total, from);
    assert DecodeAccount([], total, from.(extra := from.extra + m.extra)) == Ok(from.(extra := from.extra + m.extra)) by {
      DecodeNothing(total, from.(extra := from.extra + m.extra));
    }
    assert b == m.base;
    var keptBelow := BaseKept(m.base.extra, size, start);
    assert [] + keptBelow == keptBelow;
  }

  lemma {:induction false} DecodeNothing(total: nat, m: Account)
    ensures DecodeAccount([], total, m) == Ok(m)
  {
  }

  lemma {:induction false} LaidTogether(a: seq<Item>, b: seq<Item>)
    ensures LayAll(a + b) == LayAll(a) + LayAll(b)
  {
    hide Lay;
    if a == [] {
      assert a + b == b;
    } else {
      assert (a + b)[1..] == a[1..] + b;
      LaidTogether(a[1..], b);
    }
  }

  lemma {:induction false} ExtrasTogether(a: Bytes, b: Bytes)
    requires Extras(a) && Extras(b)
    ensures Extras(a + b)
  {
    hide IsForeign;
    var xs :| AllForeign(xs) && LayAll(xs) == a;
    var ys :| AllForeign(ys) && LayAll(ys) == b;
    LaidTogether(xs, ys);
    assert AllForeign(xs + ys) && LayAll(xs + ys) == a + b;
  }

  lemma {:induction false} DecodedBase(data: Bytes, total: nat, m: Account)
    requires |data| <= total && DecodeAccount(data, total, m).Ok? && Extras(m.base.extra)
    ensures Extras(DecodeAccount(data, total, m).value.base.extra)
    decreases |data|
  {
    hide NextChunk, Extras, DecodeBase;
    if data != [] {
      var field := NextChunk(data, total).value;
      if field.Foreign? {
        DecodedBase(field.rest, total, m.(extra := m.extra + field.bytes));
      } else if field.number == 2 {
        DecodedBase(field.rest, total, m.(roles := m.roles + [field.value]));
      } else {
        var base := DecodeBase(field.value, |field.value|, m.base).value;
        var kept := BaseKept(field.value, |field.value|, m.base);
        ExtrasTogether(m.base.extra, kept);
        DecodedBase(field.rest, total, m.(base := base));
      }
    }
  }

  /** Whatever was decoded can be passed on: it is encoded to bytes that decode to the same record. */
  lemma {:induction false} Relayed(data: Bytes)
    requires var r := DecodeAccount(data, |data|, NO_ACCOUNT); r.Ok? && |EncodeAccount(r.value)| < INT64_LIMIT
    ensures var m := DecodeAccount(data, |data|, NO_ACCOUNT).value;
            DecodeAccount(EncodeAccount(m), |EncodeAccount(m)|, NO_ACCOUNT) == Ok(m)
  {
    hide DecodeAccount, EncodeAccount, Extras;
    var m := DecodeAccount(data, |data|, NO_ACCOUNT).value;
    var kept := AccountKept(data, |data|, NO_ACCOUNT);
    assert NO_ACCOUNT.extra + kept == kept;
    NoExtras();
    DecodedBase(data, |data|, NO_ACCOUNT);
    RoundTrip(m);
  }

  /** Two messages one after the other read as the second laid over the first. */
  lemma {:induction false} ConcatenationMerges(a: Account, b: Account)
    requires |EncodeAccount(a) + EncodeAccount(b)| < INT64_LIMIT
    requires Extras(a.extra) && Extras(a.base.extra) && Extras(b.extra) && Extras(b.base.extra)
    ensures var data := EncodeAccount(a) + EncodeAccount(b);
            var base := Base(b.base.perms, b.base.setBit, a.base.extra + b.base.extra);
            DecodeAccount(data, |data|, NO_ACCOUNT) == Ok(Account(base, a.roles + b.roles, a.extra + b.extra))
  {
    hide EncodeAccount, Extras, DecodeAccount;
    var data := EncodeAccount(a) + EncodeAccount(b);
    DecodeMerges(a, EncodeAccount(b), |data|, NO_ACCOUNT);
    assert EncodeAccount(b) + [] == EncodeAccount(b);
    var first := Merge(NO_ACCOUNT, a);
    DecodeMerges(b, [], |data|, first);
    DecodeNothing(|data|, Merge(first, b));
    assert [] + a.roles == a.roles && [] + a.extra == a.extra && [] + a.base.extra == a.base.extra;
  }

  // ---- Bytes ---------------------------------------------------------------------------------

  /** What the head of a known field is read as; its number is a signed 32-bit one. */
  lemma {:induction false} HeadExactly(tag: Bytes, value: Bytes, rest: Bytes, wire: int, total: nat)
    requires IsVarint(tag) && IsVarint(value) && |tag + value + rest| <= total
    ensures var number := FieldNumber(tag);
            var r := NextHead(tag + value + rest, wire, total);
            if Number(tag) % 8 == 4 then r == Err(EndGroup)
            else if number == 0 || number >= 0x8000_0000 then r == Err(IllegalTag)
            else if number > 2 then r == NextForeign(tag + value + rest, total)
            else if Number(tag) % 8 != wire then r == Err(WrongWireType)
            else r == Ok(Field(number, Number(value), rest))
  {
    hide Decode, IsVarint, Number, NextForeign;
    assert tag + value + rest == tag + (value + rest);
    ReadTag(tag, value + rest);
    ReadTag(value, rest);
  }

  /** A head that breaks off in its tag or in its value. */
  lemma {:induction false} HeadRefuses(tag: Bytes, rest: Bytes, wire: int, total: nat)
    requires (forall i :: 0 <= i < |rest| && i < 10 ==> rest[i] >= 128) && |tag + rest| <= total
    ensures NextHead(rest, wire, total) == Err(if |rest| < 10 then UnexpectedEOF else IntOverflow)
    ensures IsVarint(tag) && (Number(tag) == 8 + wire || Number(tag) == 16 + wire) && 0 <= wire < 8 && wire != 4 ==>
              NextHead(tag + rest, wire, total) == Err(if |rest| < 10 then UnexpectedEOF else IntOverflow)
  {
    hide Decode, IsVarint, Number, NextForeign;
    DecodeRefuses(rest);
    if IsVarint(tag) {
      ReadTag(tag, rest);
    }
  }

  /** The bytes of a permission record. */
  lemma {:induction false} WireExample()
    ensures EncodeAccount(Account(Base(2, 0x3FFF, []), [[97, 98]], [])) ==
            [0x0A, 0x05, 0x08, 0x02, 0x10, 0xFF, 0x7F, 0x12, 0x02, 97, 98]
  {
    var role: Bytes := [97, 98];
    var base := Base(2, 0x3FFF, []);
    assert Encode(0x3FFF) == [0xFF, 0x7F];
    assert EncodeBase(base) == [0x08, 0x02, 0x10, 0xFF, 0x7F];
    assert EncodeHead(base) == [0x0A, 0x05, 0x08, 0x02, 0x10, 0xFF, 0x7F];
    assert EncodeRole(role) == [0x12, 0x02, 97, 98];
    assert [role][1..] == [];
    assert EncodeRoles([role]) == EncodeRole(role) + EncodeRoles([]);
  }
}
