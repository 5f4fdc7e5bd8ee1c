/** Text as code points and as the bytes that encode it; a byte string has one character below 256 a byte. */
module Utf8 {

  predicate Ascii(s: string) {
    forall i :: 0 <= i < |s| ==> s[i] as int < 128
  }

  function Byte(n: nat): char
    requires n < 256
  {
    n as char
  }

  function EncodeChar(c: char): (r: string)
    ensures if c as int < 128 then r == [c] else |r| >= 2 && r[0] as int >= 128
  {
    var n := c as int;
    if n < 0x80 then [c]
    else if n < 0x800 then [Byte(0xC0 + n / 64), Byte(0x80 + n % 64)]
    else if n < 0x10000 then [Byte(0xE0 + n / 4096), Byte(0x80 + n / 64 % 64), Byte(0x80 + n % 64)]
    else [Byte(0xF0 + n / 262144), Byte(0x80 + n / 4096 % 64), Byte(0x80 + n / 64 % 64), Byte(0x80 + n % 64)]
  }

  function Encode(s: string): string {
    if s == "" then "" else EncodeChar(s[0]) + Encode(s[1..])
  }

  lemma {:induction false} EncodeAppend(a: string, b: string)
    ensures Encode(a + b) == Encode(a) + Encode(b)
    decreases |a|
  {
    hide EncodeChar;
    if a == "" {
      assert a + b == b;
    } else {
      assert (a + b)[1..] == a[1..] + b;
      EncodeAppend(a[1..], b);
    }
  }

  /** Encoding never shortens a text, and keeps its length exactly when it is ASCII, which it then leaves alone. */
  lemma {:induction false} EncodeLength(s: string)
    ensures |Encode(s)| >= |s|
    ensures |Encode(s)| == |s| <==> Ascii(s)
    ensures Ascii(s) ==> Encode(s) == s
    decreases |s|
  {
    if s != "" {
      EncodeLength(s[1..]);
      assert s == [s[0]] + s[1..];
      assert Ascii(s) <==> s[0] as int < 128 && Ascii(s[1..]);
    }
  }

  /** Behind an ASCII beginning bytes and code points have the same positions. */
  lemma {:induction false} EncodeFrom(s: string, n: nat)
    requires n <= |s| && Ascii(s[..n])
    ensures Encode(s) == s[..n] + Encode(s[n..])
  {
    assert s == s[..n] + s[n..];
    EncodeAppend(s[..n], s[n..]);
    EncodeLength(s[..n]);
  }

  /** The payload of a continuation byte. */
  function Tail(b: char): int {
    b as int - 0x80
  }

  predicate Continues(b: char) {
    0x80 <= b as int < 0xC0
  }

  /** The first byte says how many there are, the others continue it, and together they carry the code point. */
  ghost predicate Carries(r: string, n: int) {
    || (|r| == 1 && r[0] as int == n < 0x80)
    || (|r| == 2 && 0xC0 <= r[0] as int < 0xE0 && Continues(r[1]) && 0x80 <= n == (r[0] as int - 0xC0) * 64 + Tail(r[1]))
    || (|r| == 3 && 0xE0 <= r[0] as int < 0xF0 && Continues(r[1]) && Continues(r[2])
        && 0x800 <= n == ((r[0] as int - 0xE0) * 64 + Tail(r[1])) * 64 + Tail(r[2]))
    || (|r| == 4 && 0xF0 <= r[0] as int < 0xF8 && Continues(r[1]) && Continues(r[2]) && Continues(r[3])
        && 0x1_0000 <= n == (((r[0] as int - 0xF0) * 64 + Tail(r[1])) * 64 + Tail(r[2])) * 64 + Tail(r[3]))
  }

  lemma {:induction false} EncodeCharExactly(c: char)
    ensures Carries(EncodeChar(c), c as int)
  {
    var n := c as int;
    assert n / 4096 == n / 64 / 64 && n / 262144 == n / 64 / 64 / 64;
  }

  /** No encoding of a character is the beginning of another's. */
  lemma {:induction false} CarriesOnce(r: string, n: int, s: string, m: int, x: string, y: string)
    requires Carries(r, n) && Carries(s, m) && r + x == s + y
    ensures n == m && r == s && x == y
  {
    var all := r + x;
    assert all[0] == r[0] && all[0] == s[0];
    assert |r| == |s|;
    assert r == all[..|r|] && s == (s + y)[..|s|];
    assert x == all[|r|..] && y == (s + y)[|s|..];
  }

  /** Texts with the same bytes are the same. */
  lemma {:induction false} EncodeInjective(a: string, b: string)
    requires Encode(a) == Encode(b)
    ensures a == b
    decreases |a|
  {
    hide EncodeChar, Carries;
    if a != "" && b != "" {
      EncodeCharExactly(a[0]);
      EncodeCharExactly(b[0]);
      CarriesOnce(EncodeChar(a[0]), a[0] as int, EncodeChar(b[0]), b[0] as int, Encode(a[1..]), Encode(b[1..]));
      EncodeInjective(a[1..], b[1..]);
      assert a == [a[0]] + a[1..] && b == [b[0]] + b[1..];
    } else {
      EncodeLength(a);
      EncodeLength(b);
    }
  }
}
