/** lib/stringlib/strtol.c: strtoll, which walks forward over the digits and back again. */
module Strtol {
  import opened CTypes
  import opened Numerals
  import opened Bits

  /** Memory from the string on; behind its end there is nothing but NUL. */
  function At(s: seq<char>, i: nat): char { if i < |s| then s[i] else '\0' }

  predicate IsSpace(c: char) { c == ' ' || 9 <= c as int <= 13 }

  predicate IsDigitOf(c: char, basis: int) {
    if basis == 2 then c == '0' || c == '1'
    else if basis == 10 then IsDigit(c, Ten)
    else basis == 16 && IsDigit(c, Sixteen)
  }

  /** A 64-bit word as a signed number. */
  function Wrapped(x: int): int {
    var w := x % TWO64;
    if w < TWO63 then w else w - TWO64
  }

  function SpacesEnd(s: seq<char>, i: nat): nat
    decreases |s| - i
  {
    if i < |s| && IsSpace(s[i]) then SpacesEnd(s, i + 1) else i
  }

  function DigitsEnd(s: seq<char>, i: nat, basis: int): (r: nat)
    ensures r >= i && (i <= |s| ==> r <= |s|)
    decreases |s| - i
  {
    if i < |s| && IsDigitOf(s[i], basis) then DigitsEnd(s, i + 1, basis) else i
  }

  /** `1 << order` on a 32-bit int, the count taken modulo 32 as the shift instruction does. */
  function OneShifted(order: nat): int {
    if order % 32 == 31 then -0x8000_0000 else Pow2(order % 32)
  }

  /** The sum that the binary branch forms. */
  function Binary(s: seq<char>): int {
    if s == [] then 0 else (if s[0] == '1' then OneShifted(|s| - 1) else 0) + Binary(s[1..])
  }

  function RunValue(s: seq<char>, basis: int): int {
    if basis == 2 then Binary(s) else if basis == 10 then Value(s, Ten) else Value(s, Sixteen)
  }

  function Detected(s: seq<char>, at: nat, basis: int): int {
    if basis != 0 then basis
    else if At(s, at) != '0' then 10
    else if At(s, at + 1) == 'x' || At(s, at + 1) == 'X' then 16
    else 2
  }

  predicate HasPrefix(s: seq<char>, at: nat) {
    At(s, at) == '0' && (At(s, at + 1) == 'x' || At(s, at + 1) == 'X')
  }

  /** The value and the end of the number that starts at `at`, behind spaces and signs. */
  function ParseAt(s: seq<char>, at: nat, basis0: int): (int, nat) {
    var basis := Detected(s, at, basis0);
    if basis == 16 && !HasPrefix(s, at) then (0, 0)
    else if basis !in {2, 10, 16} then (0, 0)
    else
      var start := if basis == 16 then at + 2 else at;
      var end := DigitsEnd(s, start, basis);
      (Wrapped(RunValue(if end <= |s| then s[start..end] else [], basis)), end)
  }

  function AfterPlus(s: seq<char>, at: nat): nat { if At(s, at) == '+' then at + 1 else at }

  /** What strtoll gives: the number and how far it read. */
  function Parse(s: seq<char>, basis: int): (int, nat) {
    var at := AfterPlus(s, SpacesEnd(s, 0));
    var negative := At(s, at) == '-';
    var (value, end) := ParseAt(s, if negative then at + 1 else at, basis);
    (if negative then Wrapped(-value) else value, end)
  }

  // ----- positional values ------------------------------------------------------------------

  /** The leftmost digit of a numeral counts for its power. */
  lemma {:induction false} ValueOfFirst(s: seq<char>, b: Base)
    requires s != []
    ensures Value(s, b) == Product(Pow(b, |s| - 1), DigitValue(s[0])) + Value(s[1..], b)
    decreases |s|
  {
    hide DigitValue;
    var front := s[..|s| - 1];
    if |s| == 1 {
      assert s[..0] == [] && s[1..] == [];
    } else {
      ValueOfFirst(front, b);
      assert s[1..][..|s| - 2] == front[1..];
      TimesSum(DigitValue(s[0]), Pow(b, |s| - 2), Value(front[1..], b), b);
    }
  }

  /** What a string of bits stands for. */
  function BitValue(s: seq<char>): nat {
    if s == [] then 0 else BitValue(s[..|s| - 1]) * 2 + (if s[|s| - 1] == '1' then 1 else 0)
  }

  lemma {:induction false} BitValueOfFirst(s: seq<char>)
    requires s != []
    ensures BitValue(s) == (if s[0] == '1' then Pow2(|s| - 1) else 0) + BitValue(s[1..])
    decreases |s|
  {
    if |s| == 1 {
      assert s[..0] == [] && s[1..] == [];
    } else {
      var front := s[..|s| - 1];
      BitValueOfFirst(front);
      assert s[1..][..|s| - 2] == front[1..];
    }
  }

  lemma {:induction false} Pow2Grows(j: nat, k: nat)
    requires j <= k
    ensures Pow2(j) <= Pow2(k)
  {
    if j < k {
      Pow2Grows(j, k - 1);
    }
  }

  lemma Pow2Of31()
    ensures Pow2(30) == 0x4000_0000 && Pow2(31) == 0x8000_0000
  {
    assert Pow2(10) == 1024;
    Pow2Adds(10, 10);
    Pow2Adds(20, 10);
  }

  /** The 32-bit shift is the power up to 2^30, and too small from 2^31 on. */
  lemma OneShiftedIs(k: nat)
    ensures k < 31 ==> OneShifted(k) == Pow2(k)
    ensures k >= 31 ==> OneShifted(k) <= 0x4000_0000 < 0x8000_0000 <= Pow2(k)
    ensures OneShifted(k) >= -0x8000_0000
  {
    hide Pow2;
    Pow2Of31();
    var r := k % 32;
    if k >= 31 {
      Pow2Grows(31, k);
    }
    if r < 31 {
      Pow2Grows(r, 30);
    }
  }

  lemma {:induction false} BitValueBound(s: seq<char>)
    ensures BitValue(s) < Pow2(|s|)
    decreases |s|
  {
    if s != [] {
      BitValueBound(s[..|s| - 1]);
    }
  }

  /** The binary branch forms the positional value of its bits exactly when that is below 2^31, with any
      number of leading zeros; otherwise its sum is too small. */
  lemma {:induction false} BinaryExact(s: seq<char>)
    ensures BitValue(s) < 0x8000_0000 ==> Binary(s) == BitValue(s)
    ensures BitValue(s) >= 0x8000_0000 ==> Binary(s) < BitValue(s)
    ensures -0x8000_0000 * |s| <= Binary(s)
    decreases |s|
  {
    if s != [] {
      BitValueOfFirst(s);
      OneShiftedIs(|s| - 1);
      BitValueBound(s);
      Pow2Of31();
      if |s| <= 31 {
        Pow2Grows(|s|, 31);
      }
      hide OneShifted, Pow2, BitValue;
      BinaryExact(s[1..]);
    }
  }

  /** The same for the result, of up to 63 bits. */
  lemma BinaryResultExact(s: seq<char>)
    requires |s| <= 63 && BitValue(s) < TWO63
    ensures Wrapped(Binary(s)) == BitValue(s) <==> BitValue(s) < 0x8000_0000
  {
    BinaryExact(s);
    hide Binary, BitValue;
    WrappedNear(Binary(s));
  }

  lemma WrappedNear(x: int)
    requires -(TWO63 as int) <= x < TWO63
    ensures Wrapped(x) == x
  {
    DivIs(x, TWO64, if x < 0 then -1 else 0, if x < 0 then x + TWO64 else x);
  }

  lemma TimesSum(d: nat, p: nat, v: nat, b: Base)
    ensures Times(Product(p, d) + v, b) == Product(Times(p, b), d) + Times(v, b)
  {}

  // ----- the code ---------------------------------------------------------------------------

  /** The backward walk over the digits s[start..end] of base ten or sixteen. */
  method SumDigits(s: seq<char>, start: nat, end: nat, b: Base) returns (result: nat)
    requires start <= end <= |s| && AllDigits(s[start..end], b)
    ensures result == Wrap(Value(s[start..end], b))
  {
    var order: nat := 1;
    result := 0;
    var bptr: int := end - 1;
    assert s[end..end] == [];
    while bptr >= start
      invariant start - 1 <= bptr < end
      invariant order == Wrap(Pow(b, end - 1 - bptr))
      invariant result == Wrap(Value(s[bptr + 1..end], b))
    {
      hide Wrap, Value, Pow, Times;
      assert s[start..end][bptr - start] == s[bptr];
      var digit := DigitOf(s[bptr], b);
      DigitStep(s[bptr..end], b, order, result, digit);
      assert s[bptr..end][1..] == s[bptr + 1..end];
      result := Wrap(result + Product(order, digit));
      order := Wrap(Times(order, b));
      bptr := bptr - 1;
    }
  }

  lemma DigitStep(t: seq<char>, b: Base, order: nat, result: nat, digit: nat)
    requires t != [] && digit == DigitValue(t[0])
    requires order == Wrap(Pow(b, |t| - 1)) && result == Wrap(Value(t[1..], b))
    ensures Wrap(result + Product(order, digit)) == Wrap(Value(t, b))
    ensures Wrap(Times(order, b)) == Wrap(Pow(b, |t|))
  {
    hide Wrap, Value, DigitValue, Product;
    ValueOfFirst(t, b);
    var p := Pow(b, |t| - 1);
    WrapProduct(p, digit);
    WrapTimes(p, b);
    WrapSum(Value(t[1..], b), Product(order, digit));
    WrapSum(Value(t[1..], b), Product(p, digit));
  }

  lemma WrapTimes(p: nat, b: Base)
    ensures Wrap(Times(Wrap(p), b)) == Wrap(Times(p, b))
  {
    WrapProduct(p, Radix(b));
  }

  /** The value of one digit, by the comparisons of strtoll. */
  method DigitOf(c0: char, b: Base) returns (digit: nat)
    requires IsDigit(c0, b)
    ensures digit == DigitValue(c0)
  {
    var c := c0 as int;
    if b.Sixteen? && c >= 'a' as int {
      c := c - ('a' as int - 'A' as int);
    }
    if c - '0' as int <= 9 {
      digit := c - '0' as int;
    } else {
      digit := 10 + c - 'A' as int;
    }
  }

  /** The backward walk of the binary branch. */
  method SumBits(s: seq<char>, start: nat, end: nat) returns (result: int)
    requires start <= end <= |s|
    ensures result == Wrapped(Binary(s[start..end]))
  {
    var order := 0;
    result := 0;
    var bptr: int := end - 1;
    ghost var sum := 0;
    assert s[end..end] == [];
    while bptr >= start
      invariant start - 1 <= bptr < end && order == end - 1 - bptr
      invariant sum == Binary(s[bptr + 1..end]) && result == Wrapped(sum)
    {
      assert s[bptr..end][1..] == s[bptr + 1..end];
      if s[bptr] == '1' {
        WrappedSum(sum, OneShifted(order));
        result := Wrapped(result + OneShifted(order));
        sum := OneShifted(order) + sum;
      }
      order := order + 1;
      bptr := bptr - 1;
    }
  }

  lemma WrappedSum(a: int, b: int)
    ensures Wrapped(Wrapped(a) + b) == Wrapped(b + a)
  {
    DivIs(a % TWO64 + b, TWO64, (a % TWO64 + b) / TWO64, (a % TWO64 + b) % TWO64);
    assert a == a / TWO64 * TWO64 + a % TWO64;
    WrappedShift(a % TWO64 + b, a / TWO64);
    WrappedShift(a % TWO64 + b, -1);
  }

  lemma WrappedShift(a: int, k: int)
    ensures Wrapped(a + k * TWO64) == Wrapped(a)
  {
    DivIs(a + k * TWO64, TWO64, a / TWO64 + k, a % TWO64);
  }

  /** strtoll. */
  method Strtoll(s: seq<char>, basis0: int) returns (result: int, end: nat)
    ensures (result, end) == Parse(s, basis0)
  {
    var ptr := 0;
    var basis := basis0;
    end, result := 0, 0;
    var negative := false;
    while ptr < |s| && IsSpace(s[ptr])
      invariant 0 <= ptr <= |s| && SpacesEnd(s, 0) == SpacesEnd(s, ptr)
    {
      ptr := ptr + 1;
    }
    if At(s, ptr) == '+' {
      ptr := ptr + 1;
    }
    if At(s, ptr) == '-' {
      negative := true;
      ptr := ptr + 1;
    }
    result, end := Number(s, ptr, basis);
    if negative {
      result := Wrapped(-result);
    }
  }

  /** strtoll behind the sign. */
  method Number(s: seq<char>, ptr0: nat, basis0: int) returns (result: int, end: nat)
    requires ptr0 <= |s|
    ensures (result, end) == ParseAt(s, ptr0, basis0)
  {
    hide Wrapped, RunValue, DigitsEnd;
    var ptr, basis := ptr0, basis0;
    if basis == 0 {
      if At(s, ptr) == '0' {
        basis := if At(s, ptr + 1) == 'x' || At(s, ptr + 1) == 'X' then 16 else 2;
      } else {
        basis := 10;
      }
    }
    if basis == 16 {
      if At(s, ptr) == '0' && (At(s, ptr + 1) == 'x' || At(s, ptr + 1) == 'X') {
        ptr := ptr + 2;
      } else {
        return 0, 0;
      }
    }
    if basis != 2 && basis != 10 && basis != 16 {
      return 0, 0;
    }
    result, end := ReadRun(s, ptr, basis);
  }

  /** The forward walk over the digits, and the backward walk of the base. */
  method ReadRun(s: seq<char>, start: nat, basis: int) returns (result: int, end: nat)
    requires start <= |s| && (basis == 2 || basis == 10 || basis == 16)
    ensures start <= end <= |s| && end == DigitsEnd(s, start, basis)
    ensures result == Wrapped(RunValue(s[start..end], basis))
  {
    hide Wrapped, Binary, Value;
    end := start;
    while end < |s| && IsDigitOf(s[end], basis)
      invariant start <= end <= |s| && DigitsEnd(s, start, basis) == DigitsEnd(s, end, basis)
      invariant forall k :: start <= k < end ==> IsDigitOf(s[k], basis)
    {
      end := end + 1;
    }
    if basis == 2 {
      result := SumBits(s, start, end);
    } else {
      var b := if basis == 10 then Ten else Sixteen;
      var sum := SumDigits(s, start, end, b);
      WrappedWrap(Value(s[start..end], b));
      result := Wrapped(sum);
    }
  }

  lemma WrappedWrap(v: nat)
    ensures Wrapped(Wrap(v)) == Wrapped(v)
  {}
}
