/** Positional numerals, most significant digit first, in any base of at least two. */
module Radix {

  /** The number the digits stand for. */
  function Value(ds: seq<nat>, b: nat): nat
  {
    if ds == [] then 0 else Value(ds[..|ds| - 1], b) * b + ds[|ds| - 1]
  }

  /** The shortest digits of n: none for zero, and never a leading zero. */
  function Digits(n: nat, b: nat): (ds: seq<nat>)
    requires b >= 2
    ensures Below(ds, b)
    ensures ds != [] ==> ds[0] != 0
    ensures ds == [] <==> n == 0
    decreases n
  {
    if n == 0 then [] else
      DivShrinks(n, b);
      Digits(n / b, b) + [n % b]
  }

  ghost predicate Below(ds: seq<nat>, b: nat) {
    forall i :: 0 <= i < |ds| ==> ds[i] < b
  }

  function Pow(b: nat, k: nat): nat {
    if k == 0 then 1 else b * Pow(b, k - 1)
  }

  lemma DivShrinks(n: nat, b: nat)
    requires n > 0 && b >= 2
    ensures 0 <= n / b < n && 0 <= n % b < b
    ensures n / b * b + n % b == n
  {
  }

  lemma MulMono(x: nat, y: nat, z: nat)
    requires x <= y
    ensures x * z <= y * z
  {
  }

  /** Division undoes one digit appended. */
  lemma SplitLast(v: nat, d: nat, b: nat)
    requires d < b
    ensures (v * b + d) / b == v && (v * b + d) % b == d
  {
    var n := v * b + d;
    var q, r := n / b, n % b;
    assert n == b * q + r;
    if q > v {
      assert (q - v) * b == d - r;
      MulMono(1, q - v, b);
    } else if q < v {
      assert (v - q) * b == r - d;
      MulMono(1, v - q, b);
    }
  }

  lemma ValueAppend(ds: seq<nat>, d: nat, b: nat)
    ensures Value(ds + [d], b) == Value(ds, b) * b + d
  {
  }

  lemma {:induction false} ValueOfDigits(n: nat, b: nat)
    requires b >= 2
    ensures Value(Digits(n, b), b) == n
    decreases n
  {
    if n != 0 {
      DivShrinks(n, b);
      ValueOfDigits(n / b, b);
      ValueAppend(Digits(n / b, b), n % b, b);
    }
  }

  lemma {:induction false} DigitsOfValue(ds: seq<nat>, b: nat)
    requires b >= 2 && Below(ds, b)
    requires ds != [] ==> ds[0] != 0
    ensures Digits(Value(ds, b), b) == ds
  {
    if ds != [] {
      var front, d := ds[..|ds| - 1], ds[|ds| - 1];
      DigitsOfValue(front, b);
      SplitLast(Value(front, b), d, b);
      assert ds == front + [d];
      if front == [] {
        assert Value(ds, b) == d;
      } else {
        assert Digits(Value(front, b), b) != [];
        assert Value(front, b) > 0;
        MulMono(1, Value(front, b), b);
      }
    }
  }

  function Zeros(k: nat): (z: seq<nat>)
    ensures |z| == k
    ensures forall i :: 0 <= i < k ==> z[i] == 0
  {
    if k == 0 then [] else Zeros(k - 1) + [0]
  }

  lemma {:induction false} LeadingZeros(k: nat, ds: seq<nat>, b: nat)
    ensures Value(Zeros(k) + ds, b) == Value(ds, b)
    decreases |ds|, k
  {
    var all := Zeros(k) + ds;
    if ds != [] {
      assert all[..|all| - 1] == Zeros(k) + ds[..|ds| - 1];
      LeadingZeros(k, ds[..|ds| - 1], b);
    } else if k > 0 {
      assert all[..|all| - 1] == Zeros(k - 1) + [];
      LeadingZeros(k - 1, [], b);
    }
  }

  lemma QuotientBounds(b: nat, q: nat, r: nat, low: nat, high: nat)
    requires r < b && low * b <= q * b + r < high * b
    ensures low <= q < high
  {
    if q < low {
      MulMono(q + 1, low, b);
    } else if q >= high {
      MulMono(high, q, b);
    }
  }

  /** A number between two successive powers has exactly that many digits. */
  lemma {:induction false} DigitCount(n: nat, b: nat, k: nat)
    requires b >= 2
    requires Pow(b, k) <= n < Pow(b, k + 1)
    ensures |Digits(n, b)| == k + 1
    decreases k
  {
    PowPositive(b, k);
    DivShrinks(n, b);
    if k == 0 {
      SplitLast(0, n, b);
      assert Digits(n / b, b) == [];
    } else {
      QuotientBounds(b, n / b, n % b, Pow(b, k - 1), Pow(b, k));
      DigitCount(n / b, b, k - 1);
    }
  }

  lemma {:induction false} PowPositive(b: nat, k: nat)
    requires b > 0
    ensures Pow(b, k) > 0
  {
    if k > 0 {
      PowPositive(b, k - 1);
      MulMono(1, b, Pow(b, k - 1));
    }
  }

  lemma MulAssoc(x: nat, y: nat, z: nat)
    ensures x * (y * z) == x * y * z
  {
  }

  lemma {:induction false} PowAdd(b: nat, j: nat, k: nat)
    ensures Pow(b, j + k) == Pow(b, j) * Pow(b, k)
  {
    if j > 0 {
      PowAdd(b, j - 1, k);
      MulAssoc(b, Pow(b, j - 1), Pow(b, k));
    }
  }
}
