/** Decimal numerals, and what can be read back off a concatenation that starts with one. */
module Text {
  import opened Radix

  const DIGIT_CHARS := "0123456789"

  predicate IsDigit(c: char) { '0' <= c <= '9' }

  function DigitText(ds: seq<nat>): (s: string)
    requires Below(ds, 10)
    ensures |s| == |ds|
    ensures forall i :: 0 <= i < |s| ==> s[i] == DIGIT_CHARS[ds[i]]
  {
    seq(|ds|, i requires 0 <= i < |ds| => DIGIT_CHARS[ds[i]])
  }

  function Decimal(n: nat): string {
    if n == 0 then "0" else DigitText(Digits(n, 10))
  }

  /** Python's str() of an int. */
  function DecimalInt(i: int): string {
    if i < 0 then "-" + Decimal(-i) else Decimal(i)
  }

  /** x cannot lengthen a numeral written before it. */
  ghost predicate EndsNumeral(x: string) {
    x == "" || !IsDigit(x[0])
  }

  lemma DecimalShape(n: nat)
    ensures Decimal(n) != "" && forall i :: 0 <= i < |Decimal(n)| ==> IsDigit(Decimal(n)[i])
  {
  }

  function DigitOf(c: char): nat {
    if IsDigit(c) then c as int - '0' as int else 0
  }

  function DigitsOf(s: string): (ds: seq<nat>) {
    seq(|s|, i requires 0 <= i < |s| => DigitOf(s[i]))
  }

  /** The number a decimal numeral stands for. */
  function Read(s: string): nat {
    Value(DigitsOf(s), 10)
  }

  lemma DigitTextReads(ds: seq<nat>)
    requires Below(ds, 10)
    ensures DigitsOf(DigitText(ds)) == ds
  {
  }

  lemma ReadDecimal(n: nat)
    ensures Read(Decimal(n)) == n
  {
    if n == 0 {
      assert DigitsOf("0") == [] + [0];
      ValueAppend([], 0, 10);
    } else {
      DigitTextReads(Digits(n, 10));
      ValueOfDigits(n, 10);
    }
  }

  /** A signed numeral followed by text that does not extend it can be read back in one way. */
  lemma DecimalIntPrefix(a: int, x: string, b: int, y: string)
    requires DecimalInt(a) + x == DecimalInt(b) + y
    requires EndsNumeral(x) && EndsNumeral(y)
    ensures a == b && x == y
  {
    DecimalIntShape(a);
    DecimalIntShape(b);
    var s, t := DecimalInt(a), DecimalInt(b);
    assert (s + x)[0] == s[0] && (t + y)[0] == t[0];
    SameLength(s, x, t, y);
    Split(s, x, t, y);
    ReadDecimalInt(a);
    ReadDecimalInt(b);
  }

  function Abs(i: int): nat { if i < 0 then -i else i }

  lemma DecimalIntShape(i: int)
    ensures DecimalInt(i) != ""
    ensures (DecimalInt(i)[0] == '-' <==> i < 0) && (i >= 0 ==> IsDigit(DecimalInt(i)[0]))
    ensures forall k :: 1 <= k < |DecimalInt(i)| ==> IsDigit(DecimalInt(i)[k])
  {
    DecimalShape(Abs(i));
  }

  lemma ReadDecimalInt(i: int)
    ensures i >= 0 ==> Read(DecimalInt(i)) == i
    ensures i < 0 ==> DecimalInt(i) != "" && 0 - Read(DecimalInt(i)[1..]) == i
  {
    ReadDecimal(Abs(i));
    if i < 0 { assert DecimalInt(i)[1..] == Decimal(-i); }
  }

  lemma SameLength(s: string, x: string, t: string, y: string)
    requires s + x == t + y && EndsNumeral(x) && EndsNumeral(y)
    requires s != "" && (forall i :: 1 <= i < |s| ==> IsDigit(s[i]))
    requires t != "" && (forall i :: 1 <= i < |t| ==> IsDigit(t[i]))
    ensures |s| == |t|
  {
    var all := s + x;
    forall i | 1 <= i < |s| ensures IsDigit(all[i]) {}
    forall i | 1 <= i < |t| ensures IsDigit(all[i]) {
      assert all[i] == (t + y)[i];
    }
    assert |s| < |all| ==> all[|s|] == x[0];
    assert |t| < |all| ==> all[|t|] == (t + y)[|t|] == y[0];
  }

  /** Equal concatenations whose heads have equal length agree piece by piece. */
  lemma Split<T>(a: seq<T>, x: seq<T>, b: seq<T>, y: seq<T>)
    requires a + x == b + y && |a| == |b|
    ensures a == b && x == y
  {
    assert a == (a + x)[..|a|] && b == (b + y)[..|b|];
    assert x == (a + x)[|a|..] && y == (b + y)[|b|..];
  }

  lemma Assoc<T>(a: seq<T>, b: seq<T>, c: seq<T>)
    ensures a + b + c == a + (b + c)
  {
  }
}
