/** UTF-8 (RFC 3629) for Unicode scalar values, and its injectivity. */
module Utf8 {
  import opened Text

  type Byte = n: nat | n < 256

  function EncodeChar(c: char): (bs: seq<Byte>)
    ensures bs != []
  {
    var n := c as int;
    if n < 0x80 then [n]
    else if n < 0x800 then [0xC0 + n / 64, 0x80 + n % 64]
    else if n < 0x10000 then [0xE0 + n / 4096, 0x80 + n / 64 % 64, 0x80 + n % 64]
    else [0xF0 + n / 262144, 0x80 + n / 4096 % 64, 0x80 + n / 64 % 64, 0x80 + n % 64]
  }

  function Encode(s: string): seq<Byte> {
    if s == "" then [] else EncodeChar(s[0]) + Encode(s[1..])
  }

  lemma {:induction false} EncodeConcat(a: string, b: string)
    ensures Encode(a + b) == Encode(a) + Encode(b)
  {
    if a == "" {
      assert a + b == b;
    } else {
      assert (a + b)[1..] == a[1..] + b;
      EncodeConcat(a[1..], b);
      Assoc(EncodeChar(a[0]), Encode(a[1..]), Encode(b));
    }
  }

  /** The first byte tells how many bytes the character takes. */
  function Width(first: Byte): nat {
    if first < 0x80 then 1 else if first < 0xE0 then 2 else if first < 0xF0 then 3 else 4
  }

  /** The code point of one encoded character: its payload bits, marker bits taken away. */
  function CodeOf(bs: seq<Byte>): int {
    match |bs|
    case 1 => bs[0] as int
    case 2 => bs[0] as int * 64 + bs[1] as int - 12416
    case 3 => bs[0] as int * 4096 + bs[1] as int * 64 + bs[2] as int - 925824
    case 4 => bs[0] as int * 262144 + bs[1] as int * 4096 + bs[2] as int * 64 + bs[3] as int - 63447168
    case _ => 0
  }

  lemma CharReads(c: char)
    ensures |EncodeChar(c)| == Width(EncodeChar(c)[0])
    ensures CodeOf(EncodeChar(c)) == c as int
  {
    var n := c as int;
    assert n / 4096 == n / 64 / 64 && n / 262144 == n / 4096 / 64;
  }

  lemma {:induction false} EncodeInjective(a: string, b: string)
    requires Encode(a) == Encode(b)
    ensures a == b
  {
    if a != "" && b != "" {
      var e, f := EncodeChar(a[0]), EncodeChar(b[0]);
      CharReads(a[0]);
      CharReads(b[0]);
      assert e[0] == Encode(a)[0] && f[0] == Encode(b)[0];
      Split(e, Encode(a[1..]), f, Encode(b[1..]));
      assert a[0] as int == b[0] as int;
      EncodeInjective(a[1..], b[1..]);
      assert a == [a[0]] + a[1..] && b == [b[0]] + b[1..];
    }
  }
}
