/** Positional numerals in base ten and sixteen: the reference that printing and parsing are
    compared with. */
module Numerals {
  import Bits

  datatype Base = Ten | Sixteen

  /** Quotient and remainder under names, for proofs to which their arithmetic does not matter. */
  function Div(v: nat, d: nat): nat
    requires d > 0
  {
    v / d
  }

  function Mod(v: nat, d: nat): (r: nat)
    requires d > 0
    ensures r < d
  {
    v % d
  }

  function Radix(b: Base): nat { if b.Ten? then 10 else 16 }

  function Times(v: nat, b: Base): nat { if b.Ten? then v * 10 else v * 16 }

  function Over(v: nat, b: Base): nat { if b.Ten? then v / 10 else v / 16 }

  function Rest(v: nat, b: Base): (r: nat)
    ensures r < Radix(b)
  {
    if b.Ten? then v % 10 else v % 16
  }

  function Pow(b: Base, k: nat): (r: nat)
    ensures r > 0
  {
    if k == 0 then 1 else Times(Pow(b, k - 1), b)
  }

  /** v without its k lowest digits. */
  function Shifted(v: nat, b: Base, k: nat): nat {
    if k == 0 then v else Shifted(Over(v, b), b, k - 1)
  }

  function DigitChar(d: nat, upper: bool): char
    requires d < 16
  {
    if d < 10 then '0' + d as char else if upper then 'A' + (d - 10) as char else 'a' + (d - 10) as char
  }

  predicate IsDigit(c: char, b: Base) {
    '0' <= c <= '9' || (b.Sixteen? && ('a' <= c <= 'f' || 'A' <= c <= 'F'))
  }

  function DigitValue(c: char): nat {
    if '0' <= c <= '9' then c as int - '0' as int
    else if 'a' <= c <= 'f' then c as int - 'a' as int + 10
    else if 'A' <= c <= 'F' then c as int - 'A' as int + 10
    else 0
  }

  predicate AllDigits(s: seq<char>, b: Base) {
    forall i :: 0 <= i < |s| ==> IsDigit(s[i], b)
  }

  /** What a string of digits stands for. */
  function Value(s: seq<char>, b: Base): nat {
    if s == [] then 0 else Times(Value(s[..|s| - 1], b), b) + DigitValue(s[|s| - 1])
  }

  /** The numeral of v, without leading zeros. */
  function Digits(v: nat, b: Base, upper: bool): seq<char> {
    (if v < Radix(b) then [] else Digits(Over(v, b), b, upper)) + [DigitChar(Rest(v, b), upper)]
  }

  /** The n lowest digits of v. */
  function Low(v: nat, n: nat, b: Base, upper: bool): (s: seq<char>)
    ensures |s| == n
  {
    if n == 0 then [] else Low(Over(v, b), n - 1, b, upper) + [DigitChar(Rest(v, b), upper)]
  }

  function Repeat(c: char, n: nat): (s: seq<char>)
    ensures |s| == n && forall i :: 0 <= i < n ==> s[i] == c
  {
    if n == 0 then [] else Repeat(c, n - 1) + [c]
  }

  lemma ValueOfMore(s: seq<char>, d: nat, b: Base, upper: bool)
    requires d < Radix(b) && AllDigits(s, b)
    ensures AllDigits(s + [DigitChar(d, upper)], b)
    ensures Value(s + [DigitChar(d, upper)], b) == Times(Value(s, b), b) + d
  {
    var t := s + [DigitChar(d, upper)];
    assert t[..|t| - 1] == s;
  }

  /** Parsing a numeral gives its number back. */
  lemma {:induction false} ValueOfDigits(v: nat, b: Base, upper: bool)
    ensures AllDigits(Digits(v, b, upper), b) && Value(Digits(v, b, upper), b) == v
    ensures |Digits(v, b, upper)| >= 1
  {
    if v < Radix(b) {
      ValueOfMore([], Rest(v, b), b, upper);
    } else {
      ValueOfDigits(Over(v, b), b, upper);
      ValueOfMore(Digits(Over(v, b), b, upper), Rest(v, b), b, upper);
    }
  }

  lemma {:induction false} ValueOfZeros(n: nat, s: seq<char>, b: Base)
    ensures Value(Repeat('0', n) + s, b) == Value(s, b)
    decreases n + |s|
  {
    var t := Repeat('0', n) + s;
    if s == [] {
      if n > 0 {
        assert t[..|t| - 1] == Repeat('0', n - 1) + [];
        ValueOfZeros(n - 1, [], b);
      }
    } else {
      assert t[..|t| - 1] == Repeat('0', n) + s[..|s| - 1];
      ValueOfZeros(n, s[..|s| - 1], b);
    }
  }

  /** The numeral has n digits exactly when its number is below the n-th power and not below the
      one before. */
  lemma {:induction false} DigitCount(v: nat, n: nat, b: Base, upper: bool)
    requires n >= 1
    ensures |Digits(v, b, upper)| == n <==> v < Pow(b, n) && (n == 1 || v >= Pow(b, n - 1))
    decreases n
  {
    if v < Radix(b) {
      PowGrows(b, 1, n - 1);
      PowGrows(b, 1, n);
      assert Pow(b, 1) == Radix(b);
    } else if n == 1 {
      assert Pow(b, 1) == Radix(b);
      ValueOfDigits(Over(v, b), b, upper);
    } else {
      DigitCount(Over(v, b), n - 1, b, upper);
      if n == 2 {
        assert Pow(b, 1) == Radix(b) && Pow(b, 0) == 1;
      }
    }
  }

  lemma {:induction false} PowGrows(b: Base, j: nat, k: nat)
    ensures j <= k ==> Pow(b, j) <= Pow(b, k)
    ensures j < k ==> Pow(b, j) < Pow(b, k)
  {
    if j < k {
      PowGrows(b, j, k - 1);
    }
  }

  /** A number's numeral is its lowest digits, if there are exactly as many as it needs. */
  lemma {:induction false} LowIsDigits(v: nat, n: nat, b: Base, upper: bool)
    requires |Digits(v, b, upper)| == n
    ensures Low(v, n, b, upper) == Digits(v, b, upper)
  {
    if n > 1 {
      LowIsDigits(Over(v, b), n - 1, b, upper);
    }
  }

  /** Digit i from the left. */
  lemma {:induction false} LowAt(v: nat, n: nat, b: Base, upper: bool, i: nat)
    requires i < n
    ensures Low(v, n, b, upper)[i] == DigitChar(Rest(Shifted(v, b, n - 1 - i), b), upper)
  {
    if i < n - 1 {
      LowAt(Over(v, b), n - 1, b, upper, i);
    }
  }

  lemma {:induction false} ShiftedIs(v: nat, b: Base, k: nat)
    ensures Div(v, Pow(b, k)) == Shifted(v, b, k)
  {
    if k > 0 {
      ShiftedIs(Over(v, b), b, k - 1);
      Bits.DivDiv(v, Radix(b), Pow(b, k - 1));
    }
  }

  /** Lowest digits from the left: the first of n + 1, and the others. */
  lemma {:induction false} LowFirst(v: nat, n: nat, b: Base, upper: bool)
    ensures Low(v, n + 1, b, upper) == [DigitChar(Rest(Shifted(v, b, n), b), upper)] + Low(v, n, b, upper)
  {
    if n > 0 {
      LowFirst(Over(v, b), n - 1, b, upper);
    }
  }

  /** What remains of v after division by a power has the same lowest digits. */
  lemma {:induction false} LowOfMod(v: nat, n: nat, k: nat, b: Base, upper: bool)
    requires k <= n
    ensures Low(Mod(v, Pow(b, n)), k, b, upper) == Low(v, k, b, upper)
    decreases k
  {
    if k > 0 {
      var d := Pow(b, n - 1);
      ModMod(v, Radix(b), d);
      assert Pow(b, n) == Radix(b) * d;
      var m := v % Pow(b, n);
      assert Over(m, b) == Over(v, b) % d && Rest(m, b) == Rest(v, b);
      LowOfMod(Over(v, b), n - 1, k - 1, b, upper);
    }
  }

  lemma Split(v: nat, d: nat)
    requires d > 0
    ensures v / d >= 0 && 0 <= v % d < d && v == v / d * d + v % d
  {}

  lemma ModModOf(v: nat, d: nat, b: nat, k: nat, m: nat, r: nat)
    requires d > 0 && m < b && r < d && v == (k * b + m) * d + r
    ensures d * b > 0 && v % (d * b) == m * d + r && (m * d + r) / d == m && (m * d + r) % d == r
  {
    ThreeParts(k, m, b, d);
    Bits.DivIs(v, d * b, k, m * d + r);
    Bits.DivIs(m * d + r, d, m, r);
  }

  lemma ThreeParts(k: nat, m: nat, b: nat, d: nat)
    requires m < b && d > 0
    ensures (k * b + m) * d == k * (d * b) + m * d && m * d + d <= d * b && d * b > 0
  {
    assert (k * b + m) * d == k * b * d + m * d;
    assert k * b * d == k * (d * b);
    Bits.ScaleAtLeast(b - 1 - m, d);
    assert (b - 1 - m) * d == b * d - d - m * d;
  }

  lemma ModMod(v: nat, d: nat, b: nat)
    requires d > 0 && b > 0
    ensures d * b > 0 && v % (d * b) / d == v / d % b && v % (d * b) % d == v % d
  {
    var q, r := v / d, v % d;
    Split(v, d);
    Split(q, b);
    ModModOf(v, d, b, q / b, q % b, r);
  }
}
