/** Base58 text and the Base58Check addresses built and validated with it. */
module Addresses {
  import opened Wrappers
  import opened Radix
  import opened Utf8

  const ALPHABET := "123456789" + "ABCDEFGH" + "JKLMN" + "PQRSTUVWXYZ" + "abcdefghijk" + "mnopqrstuvwxyz"

  function Letter(d: nat): char
    requires d < 58
  {
    if d < 9 then '1' + d as char
    else if d < 17 then 'A' + (d - 9) as char
    else if d < 22 then 'J' + (d - 17) as char
    else if d < 33 then 'P' + (d - 22) as char
    else if d < 44 then 'a' + (d - 33) as char
    else 'm' + (d - 44) as char
  }

  lemma LettersSpellAlphabet(d: nat)
    requires d < 58
    ensures |ALPHABET| == 58 && ALPHABET[d] == Letter(d)
  {
    forall k: nat | k < 9 ensures "123456789"[k] == '1' + k as char {}
    forall k: nat | k < 8 ensures "ABCDEFGH"[k] == 'A' + k as char {}
    forall k: nat | k < 5 ensures "JKLMN"[k] == 'J' + k as char {}
    forall k: nat | k < 11 ensures "PQRSTUVWXYZ"[k] == 'P' + k as char {}
    forall k: nat | k < 11 ensures "abcdefghijk"[k] == 'a' + k as char {}
    forall k: nat | k < 14 ensures "mnopqrstuvwxyz"[k] == 'm' + k as char {}
  }

  /** [a-km-zA-HJ-NP-Z1-9]: the character class of the address patterns, and the letters of the alphabet. */
  predicate InClass(c: char) {
    'a' <= c <= 'k' || 'm' <= c <= 'z' || 'A' <= c <= 'H' || 'J' <= c <= 'N' || 'P' <= c <= 'Z' || '1' <= c <= '9'
  }

  /** ALPH.index of a letter of the alphabet. */
  function Index(c: char): (d: nat)
    requires InClass(c)
    ensures d < 58 && Letter(d) == c
    ensures forall e: nat :: e < 58 && Letter(e) == c ==> e == d
  {
    if '1' <= c <= '9' then c as int - '1' as int
    else if 'A' <= c <= 'H' then 9 + c as int - 'A' as int
    else if 'J' <= c <= 'N' then 17 + c as int - 'J' as int
    else if 'P' <= c <= 'Z' then 22 + c as int - 'P' as int
    else if 'a' <= c <= 'k' then 33 + c as int - 'a' as int
    else 44 + c as int - 'm' as int
  }

  type Digest32 = s: seq<Byte> | |s| == 32 witness [0, 0, 0, 0, 0, 0, 0, 0, 0, 0, 0, 0, 0, 0, 0, 0, 0, 0, 0, 0, 0, 0, 0, 0, 0, 0, 0, 0, 0, 0, 0, 0]

  /** Double SHA-256. */
  type Sha256d = seq<Byte> -> Digest32

  function Letters(ds: seq<nat>): (s: string)
    requires Below(ds, 58)
    ensures |s| == |ds| && forall i :: 0 <= i < |s| ==> s[i] == Letter(ds[i])
  {
    seq(|ds|, i requires 0 <= i < |ds| => Letter(ds[i]))
  }

  function Ones(k: nat): (s: string)
    ensures |s| == k && forall i :: 0 <= i < k ==> s[i] == '1'
  {
    if k == 0 then "" else Ones(k - 1) + "1"
  }

  /** How many items equal to x stand at the front. */
  function Leading<T(==)>(s: seq<T>, x: T): (k: nat)
    ensures k <= |s| && (forall i :: 0 <= i < k ==> s[i] == x) && (k < |s| ==> s[k] != x)
  {
    if s == [] || s[0] != x then 0 else 1 + Leading(s[1..], x)
  }

  function Base58(b: seq<Byte>): string {
    Ones(Leading(b, 0)) + Letters(Digits(Value(b, 256), 58))
  }

  method ToBase58(b: seq<Byte>) returns (s: string)
    ensures s == Base58(b)
  {
    hide Value, Leading, Ones, Letter;
    var n := Value(b, 256);
    s := "";
    while n > 0
      invariant Letters(Digits(n, 58)) + s == Letters(Digits(Value(b, 256), 58))
      decreases n
    {
      DivShrinks(n, 58);
      var q, r := n / 58, n % 58;
      assert Letters(Digits(n, 58)) == Letters(Digits(q, 58)) + [Letter(r)];
      n := q;
      s := [Letter(r)] + s;
    }
    s := Ones(Leading(b, 0)) + s;
  }

  predicate AllLetters(s: string) {
    forall i :: 0 <= i < |s| ==> InClass(s[i])
  }

  function Indices(s: string): (ds: seq<nat>)
    requires AllLetters(s)
    ensures |ds| == |s| && Below(ds, 58)
    ensures forall i :: 0 <= i < |s| ==> ds[i] == Index(s[i])
  {
    seq(|s|, i requires 0 <= i < |s| => Index(s[i]))
  }

  /** The bytes the validator reads out of an address body. */
  function Decode(body: string): Option<seq<Byte>> {
    if AllLetters(body) then Some(Zeros(Leading(body, '1')) + Digits(Value(Indices(body), 58), 256)) else None
  }

  /** raw[:-4] and raw[-4:]. */
  function Payload(raw: seq<Byte>): seq<Byte> { if |raw| >= 4 then raw[..|raw| - 4] else [] }
  function Checksum(raw: seq<Byte>): seq<Byte> { if |raw| >= 4 then raw[|raw| - 4..] else raw }

  predicate Accepts(hash: Sha256d, addr: string) {
    |addr| >= 4 && addr[..4] == "b'/t" && |addr[4..]| >= 20
    && Decode(addr[4..]).Some?
    && hash(Payload(Decode(addr[4..]).value))[..4] == Checksum(Decode(addr[4..]).value)
  }

  lemma OneMoreLetter(body: string, k: nat)
    requires k < |body| && AllLetters(body[..k]) && InClass(body[k])
    ensures AllLetters(body[..k + 1])
    ensures Value(Indices(body[..k + 1]), 58) == Value(Indices(body[..k]), 58) * 58 + Index(body[k])
  {
    hide Index, Value;
    assert Indices(body[..k + 1]) == Indices(body[..k]) + [Index(body[k])];
    ValueAppend(Indices(body[..k]), Index(body[k]), 58);
  }

  method FaucetValidateAddr(hash: Sha256d, addr: string) returns (ok: bool)
    ensures ok <==> Accepts(hash, addr)
  {
    assert Value([], 58) == 0;
    hide Value, Digits, Zeros, Leading, Index, InClass, Payload, Checksum;
    if |addr| < 4 || addr[..4] != "b'/t" {
      return false;
    }
    var body := addr[4..];
    if |body| < 20 {
      return false;
    }
    var n := 0;
    for k := 0 to |body|
      invariant AllLetters(body[..k])
      invariant n == Value(Indices(body[..k]), 58)
    {
      if !InClass(body[k]) {
        return false;
      }
      var i := Index(body[k]);
      OneMoreLetter(body, k);
      n := n * 58 + i;
    }
    assert body[..|body|] == body;
    var raw: seq<Byte> := Zeros(Leading(body, '1')) + Digits(n, 256);
    ok := hash(Payload(raw))[..4] == Checksum(raw);
  }

  /** to_bytes is asked for (bit_length + 7) // 8 bytes: just as many as the digits in base 256. */
  lemma {:induction false} ByteLength(n: nat)
    ensures |Digits(n, 256)| == (|Digits(n, 2)| + 7) / 8
    decreases n
  {
    if n > 0 {
      var q := n / 256;
      ByteLength(q);
      assert |Digits(n, 256)| == |Digits(q, 256)| + 1;
      if q == 0 {
        BitsOfByte(n);
      } else {
        EightBits(n);
      }
    }
  }

  lemma {:induction false} DigitsAtMost(n: nat, b: nat, k: nat)
    requires b >= 2 && n < Pow(b, k)
    ensures |Digits(n, b)| <= k
    decreases k
  {
    if n > 0 {
      DivShrinks(n, b);
      if n / b >= Pow(b, k - 1) { MulMono(Pow(b, k - 1), n / b, b); }
      DigitsAtMost(n / b, b, k - 1);
    }
  }

  lemma BitsOfByte(n: nat)
    requires 0 < n < 256
    ensures 1 <= |Digits(n, 2)| <= 8
  {
    assert Pow(2, 8) == 256;
    DigitsAtMost(n, 2, 8);
  }

  lemma EightBits(n: nat)
    requires n >= 256
    ensures |Digits(n, 2)| == |Digits(n / 256, 2)| + 8
  {
    var n1 := n / 2;
    var n2 := n1 / 2;
    var n3 := n2 / 2;
    var n4 := n3 / 2;
    var n5 := n4 / 2;
    var n6 := n5 / 2;
    var n7 := n6 / 2;
    assert n7 / 2 == n / 256;
    assert |Digits(n6, 2)| == |Digits(n7, 2)| + 1 == |Digits(n / 256, 2)| + 2;
    assert |Digits(n4, 2)| == |Digits(n5, 2)| + 1 == |Digits(n6, 2)| + 2;
    assert |Digits(n2, 2)| == |Digits(n3, 2)| + 1 == |Digits(n4, 2)| + 2;
    assert |Digits(n, 2)| == |Digits(n1, 2)| + 1 == |Digits(n2, 2)| + 2;
  }

  // ---- the two directions ----

  lemma IndicesOfLetters(ds: seq<nat>)
    requires Below(ds, 58)
    ensures AllLetters(Letters(ds)) && Indices(Letters(ds)) == ds
  {
  }

  lemma LettersOfIndices(s: string)
    requires AllLetters(s)
    ensures Letters(Indices(s)) == s
  {
  }

  lemma OnesAreZeros(k: nat)
    ensures Letters(Zeros(k)) == Ones(k)
  {
  }

  lemma LettersConcat(a: seq<nat>, c: seq<nat>)
    requires Below(a, 58) && Below(c, 58)
    ensures Letters(a + c) == Letters(a) + Letters(c)
  {
  }

  /** Digits with their leading zeros split off stand for the same number and come back. */
  lemma SplitLeading(ds: seq<nat>, b: nat)
    requires b >= 2 && Below(ds, b)
    ensures ds == Zeros(Leading(ds, 0)) + Digits(Value(ds, b), b)
  {
    var k := Leading(ds, 0);
    assert ds == Zeros(k) + ds[k..];
    LeadingZeros(k, ds[k..], b);
    DigitsOfValue(ds[k..], b);
  }

  lemma {:induction false} LeadingAfter<T>(s: seq<T>, x: T, t: seq<T>)
    requires forall i :: 0 <= i < |s| ==> s[i] == x
    requires t == [] || t[0] != x
    ensures Leading(s + t, x) == |s|
  {
    if s == [] {
      assert s + t == t;
    } else {
      assert (s + t)[1..] == s[1..] + t;
      LeadingAfter(s[1..], x, t);
    }
  }

  /** Letters and digits lead with the same number of ones and zeros. */
  lemma LeadingLetters(ds: seq<nat>)
    requires Below(ds, 58)
    ensures Leading(Letters(ds), '1') == Leading(ds, 0)
  {
  }

  /** Decoding the text of any byte string gives that byte string back, leading zeros included. */
  lemma DecodeBase58(b: seq<Byte>)
    ensures Decode(Base58(b)) == Some(b)
  {
    hide Value, Digits, Leading, Letters, Ones, Zeros;
    var k, n := Leading(b, 0), Value(b, 256);
    var ds := Zeros(k) + Digits(n, 58);
    OnesAreZeros(k);
    LettersConcat(Zeros(k), Digits(n, 58));
    IndicesOfLetters(ds);
    LeadingLetters(ds);
    LeadingAfter(Zeros(k), 0, Digits(n, 58));
    LeadingZeros(k, Digits(n, 58), 58);
    ValueOfDigits(n, 58);
    SplitLeading(b, 256);
  }

  /** Encoding the decoded bytes of any text over the alphabet gives that text back. */
  lemma Base58Decode(s: string)
    requires AllLetters(s)
    ensures Decode(s).Some? && Base58(Decode(s).value) == s
  {
    hide Value, Digits, Leading, Letters, Ones, Zeros, Index;
    var ds := Indices(s);
    LettersOfIndices(s);
    LeadingLetters(ds);
    var k, n := Leading(ds, 0), Value(ds, 58);
    LeadingAfter(Zeros(k), 0, Digits(n, 256));
    LeadingZeros(k, Digits(n, 256), 256);
    ValueOfDigits(n, 256);
    SplitLeading(ds, 58);
    OnesAreZeros(k);
    LettersConcat(Zeros(k), Digits(n, 58));
  }

  // ---- addresses ----

  function AddressOf(hash: Sha256d, payload: seq<Byte>): string {
    "b'/t" + Base58(payload + hash(payload)[..4])
  }

  /** What _bait_address does with the 20-byte hash of a public key. */
  function BaitAddress(hash: Sha256d, h: seq<Byte>): string {
    AddressOf(hash, [0x42, 0x54] + h)
  }

  /** The validator accepts exactly the Base58Check texts with at least 20 characters after the prefix. */
  lemma AcceptsExactly(hash: Sha256d, addr: string)
    ensures Accepts(hash, addr) <==> |addr| >= 24 && exists payload :: addr == AddressOf(hash, payload)
  {
    hide Value, Digits, Leading, Letters, Ones, Zeros, Index, Base58;
    if Accepts(hash, addr) {
      var raw := Decode(addr[4..]).value;
      Base58Decode(addr[4..]);
      assert raw == Payload(raw) + Checksum(raw);
      assert addr == AddressOf(hash, Payload(raw));
    }
    if |addr| >= 24 && exists payload :: addr == AddressOf(hash, payload) {
      var payload :| addr == AddressOf(hash, payload);
      var raw := payload + hash(payload)[..4];
      DecodeBase58(raw);
      assert addr[4..] == Base58(raw);
      assert Payload(raw) == payload && Checksum(raw) == hash(payload)[..4];
    }
  }

  ghost predicate ClassText(s: string) {
    20 <= |s| <= 40 && forall i :: 0 <= i < |s| ==> InClass(s[i])
  }

  /** re.match of ^b'/t[a-km-zA-HJ-NP-Z1-9]{20,40}$, whose $ also allows one final newline. */
  ghost predicate MatchesPattern(addr: string) {
    |addr| >= 4 && addr[..4] == "b'/t"
    && (ClassText(addr[4..]) || (addr[|addr| - 1] == '\n' && |addr| >= 5 && ClassText(addr[4..|addr| - 1])))
  }

  lemma InAlphabet(c: char)
    ensures InClass(c) <==> c in ALPHABET
  {
    if InClass(c) {
      LettersSpellAlphabet(Index(c));
    } else if c in ALPHABET {
      var d :| 0 <= d < |ALPHABET| && ALPHABET[d] == c;
      LettersSpellAlphabet(0);
      LettersSpellAlphabet(d);
    }
  }

  /** 20 to 40 letters of the alphabet. */
  ghost predicate Body(s: string) {
    20 <= |s| <= 40 && forall c :: c in s ==> c in ALPHABET
  }

  /** The pattern describes exactly the prefix with such a body, one newline at the end let through. */
  lemma PatternExactly(addr: string)
    ensures MatchesPattern(addr) <==> exists body :: Body(body) && (addr == "b'/t" + body || addr == "b'/t" + body + ['\n'])
  {
    hide InClass;
    forall s: string ensures ClassText(s) <==> Body(s) {
      forall i | 0 <= i < |s| ensures s[i] in s && (InClass(s[i]) <==> s[i] in ALPHABET) { InAlphabet(s[i]); }
    }
    hide ClassText, Body;
    if MatchesPattern(addr) {
      if ClassText(addr[4..]) {
        assert addr == "b'/t" + addr[4..];
      } else {
        assert addr == "b'/t" + addr[4..|addr| - 1] + ['\n'];
      }
    }
    if body :| Body(body) && (addr == "b'/t" + body || addr == "b'/t" + body + ['\n']) {
      if addr == "b'/t" + body { assert addr[4..] == body; } else { assert addr[4..|addr| - 1] == body; }
    }
  }

  /** An accepted address matches the onboarding and transfer patterns exactly up to 40 body characters. */
  lemma AcceptedMatchesIff(hash: Sha256d, addr: string)
    requires Accepts(hash, addr)
    ensures MatchesPattern(addr) <==> |addr| <= 44
  {
    hide Base58, Letters;
  }

  /** ... and there are longer ones. */
  lemma LongAddressAccepted(hash: Sha256d)
    ensures exists addr :: Accepts(hash, addr) && !MatchesPattern(addr)
  {
    var payload: seq<Byte> := Zeros(41);
    var addr := AddressOf(hash, payload);
    var raw := payload + hash(payload)[..4];
    assert forall i :: 0 <= i < 41 ==> raw[i] == 0;
    assert Leading(raw, 0) >= 41;
    AcceptsExactly(hash, addr);
    AcceptedMatchesIff(hash, addr);
  }

  lemma {:induction false} ValueConcat(a: seq<nat>, c: seq<nat>, b: nat)
    requires b >= 2 && Below(c, b)
    ensures Value(a + c, b) == Value(a, b) * Pow(b, |c|) + Value(c, b)
    ensures Value(c, b) < Pow(b, |c|)
    decreases |c|
  {
    if c == [] {
      assert a + c == a;
    } else {
      var front, d := c[..|c| - 1], c[|c| - 1];
      ValueConcat(a, front, b);
      assert a + c == (a + front) + [d];
      assert c == front + [d];
      ValueAppend(a + front, d, b);
      ValueAppend(front, d, b);
      Shift(Value(a, b), Pow(b, |front|), Value(front, b), d, b);
    }
  }

  lemma Shift(v: nat, p: nat, w: nat, d: nat, b: nat)
    requires w < p && d < b
    ensures (v * p + w) * b + d == v * (b * p) + (w * b + d)
    ensures w * b + d < b * p
  {
    assert (v * p + w) * b == v * (b * p) + w * b;
    MulMono(w + 1, p, b);
  }

  lemma AddressBounds()
    ensures Pow(58, 35) <= 0x4254 * Pow(256, 24) && 0x4255 * Pow(256, 24) <= Pow(58, 36)
  {
    PowAdd(58, 12, 12);
    PowAdd(58, 24, 11);
    PowAdd(58, 24, 12);
    PowAdd(256, 12, 12);
    assert Pow(58, 12) == 1449225352009601191936;
    assert Pow(58, 11) == 24986644000165537792;
    assert Pow(256, 12) == 79228162514264337593543950336;
  }

  /** Every address _bait_address makes is accepted, has a body of exactly 36 characters, and matches. */
  lemma BaitAddressValid(hash: Sha256d, h: seq<Byte>)
    requires |h| == 20
    ensures var a := BaitAddress(hash, h);
            |a| == 40 && Accepts(hash, a) && MatchesPattern(a)
  {
    var payload: seq<Byte> := [0x42, 0x54] + h;
    var tail: seq<Byte> := h + hash(payload)[..4];
    var raw := payload + hash(payload)[..4];
    assert raw == [0x42, 0x54] + tail;
    PrefixValue();
    ValueConcat([0x42, 0x54], tail, 256);
    AddressBounds();
    var n := Value(raw, 256);
    assert Pow(58, 35) <= n < Pow(58, 36);
    DigitCount(n, 58, 35);
    assert Leading(raw, 0) == 0;
    AcceptsExactly(hash, BaitAddress(hash, h));
    AcceptedMatchesIff(hash, BaitAddress(hash, h));
  }

  lemma PrefixValue()
    ensures Value([0x42, 0x54], 256) == 0x4254
  {
  }
}
