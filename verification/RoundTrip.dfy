/** Printing against parsing, and the ways of printing against each other. */
module RoundTrip {
  import opened CTypes
  import opened Numerals
  import opened Printf
  import Strtol
  import Bits

  // ----- the division loop ------------------------------------------------------------------

  lemma PrintedDigit(arg: u64, p: nat)
    requires arg < TWO63 && 0 < p < TWO63 && Div(arg, p) <= 9
    ensures SentDigit(arg, p) == DigitChar(Div(arg, p), false)
  {
    hide Div;
  }

  /** Below 2^63 signed division does no harm: the loop prints the lowest digits. */
  lemma {:induction false} DivTextIsLow(arg: u64, n: nat)
    requires arg < TWO63 && arg < Pow(Ten, n) && n <= 19
    ensures DivText(arg, n) == Low(arg, n, Ten, false)
  {
    if n > 0 {
      hide Low, SentDigit, Pow, Mod, Div;
      var p := Pow(Ten, n - 1);
      PowerFits(n - 1);
      FirstDigit(arg, n);
      PrintedDigit(arg, p);
      ModBound(arg, p);
      DivTextIsLow(Mod(arg, p), n - 1);
    }
  }

  lemma PowerFits(k: nat)
    requires k <= 18
    ensures Pow(Ten, k) < TWO63
  {
    PowGrows(Ten, k, 18);
    DecimalTableIs(18);
  }

  lemma FirstFromTwo63(arg: u64)
    requires TWO63 <= arg < TEN19
    ensures SentDigit(arg, 1_000_000_000_000_000_000) in {'\'', '('}
  {
    var m := TWO64 - arg;
    assert 8 <= m / 1_000_000_000_000_000_000 <= 9;
  }

  lemma LongNumbers(arg: u64)
    requires TWO63 <= arg < TEN19
    ensures WordLen(arg) == 19 && DivText(arg, WordLen(arg))[0] in {'\'', '('}
  {
    hide SentDigit, WordLen;
    DecimalTableIs(18);
    DecimalTableIs(19);
    assert Pow(Ten, 18) == 1_000_000_000_000_000_000;
    WordLenIs(arg, 19);
    FirstFromTwo63(arg);
  }

  lemma WordLenFits(arg: u64)
    requires arg < TEN19
    ensures 1 <= WordLen(arg) <= 19 && arg < Pow(Ten, WordLen(arg))
    ensures Low(arg, WordLen(arg), Ten, false) == Digits(arg, Ten, false)
    ensures IsDigit(Digits(arg, Ten, false)[0], Ten)
  {
    hide Low, Digits, Value;
    ValueOfDigits(arg, Ten, false);
    DigitCount(arg, WordLen(arg), Ten, false);
    LowIsDigits(arg, WordLen(arg), Ten, false);
    DecimalTableIs(19);
    if WordLen(arg) > 19 {
      PowGrows(Ten, 19, WordLen(arg) - 1);
    }
  }

  /** Of the magnitudes the power table covers, the division loop prints exactly those below 2^63
      as their numerals; from 2^63 on its first character is no digit. */
  lemma DivisionLoopExact(arg: u64)
    requires arg < TEN19
    ensures DivText(arg, WordLen(arg)) == Digits(arg, Ten, false) <==> arg < TWO63
    ensures arg >= TWO63 ==> WordLen(arg) > 0 && DivText(arg, WordLen(arg))[0] in {'\'', '('}
  {
    hide Low, Digits, DivText, WordLen;
    WordLenFits(arg);
    if arg < TWO63 {
      DivTextIsLow(arg, WordLen(arg));
    } else {
      LongNumbers(arg);
    }
  }

  /** The subtract-only loop and the division loop send the same characters. */
  lemma LoopsAgree(arg: u64)
    requires arg < TWO63
    ensures DivText(arg, WordLen(arg)) == Low(arg, WordLen(arg), Ten, false)
    ensures WordLen(arg) <= 19 && arg < Pow(Ten, WordLen(arg))
  {
    hide Low, DivText, WordLen, Pow;
    WordLenFits(arg);
    DivTextIsLow(arg, WordLen(arg));
  }

  /** The two ways to measure a number: the binary search gives one less than the division loop. */
  method MeasuresAgree(val: u64) returns (fast: nat, slow: nat)
    requires val < TEN19
    ensures fast == slow - 1
  {
    fast := ClosestRoundBase10Nodiv(val);
    slow := ClosestRoundBase10Div(val);
    DecimalTableIs(19);
    DigitCount(val, fast + 1, Ten, false);
  }

  // ----- parsing what was printed -----------------------------------------------------------

  lemma {:induction false} SpacesSkipped(s: seq<char>, i: nat, j: nat)
    requires i <= j <= |s| && (forall k :: i <= k < j ==> Strtol.IsSpace(s[k]))
    requires j < |s| ==> !Strtol.IsSpace(s[j])
    ensures Strtol.SpacesEnd(s, i) == j
    decreases j - i
  {
    if i < j {
      SpacesSkipped(s, i + 1, j);
    }
  }

  lemma {:induction false} DigitsRead(s: seq<char>, i: nat, j: nat, basis: int)
    requires i <= j <= |s| && (forall k :: i <= k < j ==> Strtol.IsDigitOf(s[k], basis))
    requires j < |s| ==> !Strtol.IsDigitOf(s[j], basis)
    ensures Strtol.DigitsEnd(s, i, basis) == j
    decreases j - i
  {
    if i < j {
      DigitsRead(s, i + 1, j, basis);
    }
  }

  /** A run of digits up to a NUL is read to its end. */
  lemma RunRead(s: seq<char>, at: nat, run: seq<char>, rest: seq<char>, basis: int)
    requires basis == 2 || basis == 10 || basis == 16
    requires at <= |s| && s[at..] == run + ['\0'] + rest
    requires forall k :: 0 <= k < |run| ==> Strtol.IsDigitOf(run[k], basis)
    ensures at + |run| <= |s| && s[at..at + |run|] == run
    ensures Strtol.DigitsEnd(s, at, basis) == at + |run|
  {
    var end := at + |run|;
    forall k | at <= k < end ensures s[k] == run[k - at] {
      assert s[at..][k - at] == (run + ['\0'] + rest)[k - at];
    }
    assert s[at..][|run|] == '\0';
    DigitsRead(s, at, end, basis);
  }

  function ZeroPadded(zeros: nat, v: nat, b: Base, upper: bool): seq<char> {
    Repeat('0', zeros) + Digits(v, b, upper)
  }

  lemma PaddedRun(zeros: nat, v: nat, b: Base, upper: bool)
    ensures AllDigits(ZeroPadded(zeros, v, b, upper), b) && Value(ZeroPadded(zeros, v, b, upper), b) == v
    ensures |ZeroPadded(zeros, v, b, upper)| > 0
  {
    ValueOfDigits(v, b, upper);
    ValueOfZeros(zeros, Digits(v, b, upper), b);
  }

  lemma TenRead(s: seq<char>, at: nat, zeros: nat, v: nat, rest: seq<char>)
    requires at <= |s| && s[at..] == ZeroPadded(zeros, v, Ten, false) + ['\0'] + rest
    ensures Strtol.ParseAt(s, at, 10) == (Strtol.Wrapped(v), at + |ZeroPadded(zeros, v, Ten, false)|)
  {
    PaddedRun(zeros, v, Ten, false);
    RunRead(s, at, ZeroPadded(zeros, v, Ten, false), rest, 10);
  }

  lemma SixteenRead(s: seq<char>, at: nat, zeros: nat, v: nat, upper: bool, rest: seq<char>)
    requires at <= |s| && s[at..] == "0x" + ZeroPadded(zeros, v, Sixteen, upper) + ['\0'] + rest
    ensures Strtol.ParseAt(s, at, 16)
         == (Strtol.Wrapped(v), at + 2 + |ZeroPadded(zeros, v, Sixteen, upper)|)
  {
    var run := ZeroPadded(zeros, v, Sixteen, upper);
    PaddedRun(zeros, v, Sixteen, upper);
    assert s[at] == s[at..][0] && s[at + 1] == s[at..][1];
    assert s[at + 2..] == s[at..][2..];
    assert ("0x" + run + ['\0'] + rest)[2..] == run + ['\0'] + rest;
    RunRead(s, at + 2, run, rest, 16);
  }

  /** Spaces, then a text that does not begin with one. */
  lemma SpacesRead(s: seq<char>, spaces: nat, text: seq<char>)
    requires s == Repeat(' ', spaces) + text && text != [] && !Strtol.IsSpace(text[0])
    ensures Strtol.SpacesEnd(s, 0) == spaces && s[spaces..] == text
  {
    SpacesSkipped(s, 0, spaces);
  }

  lemma DropTwo(a: seq<char>, b: seq<char>, c: seq<char>)
    ensures (a + (b + c))[|a| + |b|..] == c
  {
    assert (a + (b + c))[|a|..] == b + c;
  }

  lemma SignAt(s: seq<char>, spaces: nat, sign: seq<char>, tail: seq<char>)
    requires sign == [] || sign == ['-'] || sign == ['+']
    requires s == Repeat(' ', spaces) + (sign + tail) && tail != [] && IsDigit(tail[0], Ten)
    ensures Strtol.SpacesEnd(s, 0) == spaces
    ensures Strtol.AfterPlus(s, spaces) == spaces + (if sign == ['+'] then 1 else 0)
    ensures Strtol.At(s, Strtol.AfterPlus(s, spaces)) == '-' <==> sign == ['-']
    ensures s[spaces + |sign|..] == tail
  {
    var signed := sign + tail;
    DropTwo(Repeat(' ', spaces), sign, tail);
    assert signed[|sign|] == tail[0];
    SpacesSkipped(s, 0, spaces);
    assert s[spaces] == signed[0];
    if sign == ['+'] {
      assert s[spaces + 1] == signed[1];
    }
  }

  /** A sign or none, zeros and digits behind spaces, read back. */
  lemma SignRead(s: seq<char>, spaces: nat, sign: seq<char>, zeros: nat, v: nat, rest: seq<char>)
    requires sign == [] || sign == ['-'] || sign == ['+']
    requires s == Repeat(' ', spaces) + (sign + (ZeroPadded(zeros, v, Ten, false) + ['\0'] + rest))
    ensures Strtol.Parse(s, 10)
         == (SignedValue(sign, v), spaces + |sign| + |ZeroPadded(zeros, v, Ten, false)|)
  {
    hide Strtol.Parse, Strtol.ParseAt;
    var tail := ZeroPadded(zeros, v, Ten, false) + ['\0'] + rest;
    PaddedRun(zeros, v, Ten, false);
    assert tail[0] == ZeroPadded(zeros, v, Ten, false)[0];
    SignAt(s, spaces, sign, tail);
    TenRead(s, spaces + |sign|, zeros, v, rest);
    ParseIs(s, spaces, if sign == ['+'] then 1 else 0, sign == ['-'], 10);
  }

  /** strtoll on a string whose spaces and signs are known. */
  lemma ParseIs(s: seq<char>, spaces: nat, plus: nat, negative: bool, basis: int)
    requires Strtol.SpacesEnd(s, 0) == spaces && Strtol.AfterPlus(s, spaces) == spaces + plus
    requires Strtol.At(s, spaces + plus) == '-' <==> negative
    ensures Strtol.Parse(s, basis) == (
      var (value, end) := Strtol.ParseAt(s, spaces + plus + (if negative then 1 else 0), basis);
      (if negative then Strtol.Wrapped(-value) else value, end))
  {}

  function SignedValue(sign: seq<char>, v: nat): int {
    if sign == ['-'] then Strtol.Wrapped(-Strtol.Wrapped(v)) else Strtol.Wrapped(v)
  }

  lemma SpaceMore(spaces: nat, tail: seq<char>)
    ensures Repeat(' ', spaces) + [' '] + tail == Repeat(' ', spaces + 1) + ([] + tail)
  {}

  function SignedRun(sign: seq<char>, value: int): int {
    if sign == ['-'] then Strtol.Wrapped(-Strtol.Wrapped(value)) else Strtol.Wrapped(value)
  }

  /** Behind spaces and a sign strtoll reads the number that stands there. */
  lemma BehindSign(spaces: nat, sign: seq<char>, tail: seq<char>, basis: int)
    requires sign == [] || sign == ['-'] || sign == ['+']
    requires tail != [] && IsDigit(tail[0], Ten)
    ensures var s, at := Repeat(' ', spaces) + (sign + tail), spaces + |sign|;
      && at <= |s| && s[at..] == tail
      && Strtol.Parse(s, basis).1 == Strtol.ParseAt(s, at, basis).1
      && Strtol.Parse(s, basis).0 == (if sign == ['-'] then Strtol.Wrapped(-Strtol.ParseAt(s, at, basis).0)
                                      else Strtol.ParseAt(s, at, basis).0)
  {
    var s := Repeat(' ', spaces) + (sign + tail);
    hide Strtol.Parse, Strtol.ParseAt, Strtol.Wrapped, IsDigit, Repeat;
    hide Strtol.At, Strtol.AfterPlus, Strtol.SpacesEnd;
    SignAt(s, spaces, sign, tail);
    ParseIs(s, spaces, if sign == ['+'] then 1 else 0, sign == ['-'], basis);
  }

  /** A text in memory: its head, a run of digits, the NUL and what is behind it. */
  function Body(head: seq<char>, run: seq<char>, rest: seq<char>): seq<char> {
    head + (run + ['\0'] + rest)
  }

  /** The head and the first digit ask for the base. */
  predicate AsksFor(head: seq<char>, run: seq<char>, basis: int) {
    && (forall k :: 0 <= k < |run| ==> Strtol.IsDigitOf(run[k], basis))
    && (|| (basis == 16 && (head == "0x" || head == "0X"))
        || (basis == 10 && head == [] && run != [] && run[0] != '0')
        || (basis == 2 && head == [] && run != [] && run[0] == '0'))
  }

  lemma BodyBegins(head: seq<char>, run: seq<char>, basis: int, rest: seq<char>)
    requires AsksFor(head, run, basis)
    ensures Body(head, run, rest) != [] && IsDigit(Body(head, run, rest)[0], Ten)
  {}

  lemma DetectedAt(s: seq<char>, at: nat, head: seq<char>, run: seq<char>, basis: int, rest: seq<char>)
    requires at <= |s| && s[at..] == Body(head, run, rest) && AsksFor(head, run, basis)
    ensures Strtol.ParseAt(s, at, 0) == (Strtol.Wrapped(Strtol.RunValue(run, basis)), at + |head| + |run|)
  {
    hide Strtol.Wrapped, Strtol.RunValue;
    var tail := Body(head, run, rest);
    assert s[at] == tail[0] && s[at + 1] == tail[1];
    assert s[at + |head|..] == tail[|head|..] == run + ['\0'] + rest;
    RunRead(s, at + |head|, run, rest, basis);
  }

  /** A run of digits of the base that its first characters ask for, behind spaces and a sign. */
  lemma DetectedRead(spaces: nat, sign: seq<char>, head: seq<char>, run: seq<char>, basis: int, rest: seq<char>)
    requires sign == [] || sign == ['-'] || sign == ['+']
    requires AsksFor(head, run, basis)
    ensures Strtol.Parse(Repeat(' ', spaces) + (sign + Body(head, run, rest)), 0)
         == (SignedRun(sign, Strtol.RunValue(run, basis)), spaces + |sign| + |head| + |run|)
  {
    hide Strtol.Parse, Strtol.ParseAt, Strtol.RunValue, Repeat, Strtol.Wrapped, IsDigit, Body, AsksFor;
    BodyBegins(head, run, basis, rest);
    BehindSign(spaces, sign, Body(head, run, rest), 0);
    DetectedAt(Repeat(' ', spaces) + (sign + Body(head, run, rest)), spaces + |sign|, head, run, basis, rest);
  }

  /** strtoll with base 0 reads a text that begins with 0x or 0X in base sixteen, */
  lemma HexDetected(spaces: nat, sign: seq<char>, head: seq<char>, run: seq<char>, rest: seq<char>)
    requires sign == [] || sign == ['-'] || sign == ['+']
    requires (head == "0x" || head == "0X") && AllDigits(run, Sixteen)
    ensures Strtol.Parse(Repeat(' ', spaces) + (sign + Body(head, run, rest)), 0)
         == (SignedRun(sign, Value(run, Sixteen)), spaces + |sign| + 2 + |run|)
  {
    hide Strtol.Parse, SignedRun, Body, Repeat;
    DetectedRead(spaces, sign, head, run, 16, rest);
  }

  /** one that begins with another digit than 0 in base ten, */
  lemma DecimalDetected(spaces: nat, sign: seq<char>, run: seq<char>, rest: seq<char>)
    requires sign == [] || sign == ['-'] || sign == ['+']
    requires run != [] && run[0] != '0' && AllDigits(run, Ten)
    ensures Strtol.Parse(Repeat(' ', spaces) + (sign + Body([], run, rest)), 0)
         == (SignedRun(sign, Value(run, Ten)), spaces + |sign| + |run|)
  {
    hide Strtol.Parse, SignedRun, Body, Repeat;
    DetectedRead(spaces, sign, [], run, 10, rest);
  }

  /** and one that begins with 0 in base two: bits of value below 2^31 are read as that. */
  lemma BinaryDetected(spaces: nat, sign: seq<char>, run: seq<char>, rest: seq<char>)
    requires sign == [] || sign == ['-'] || sign == ['+']
    requires run != [] && run[0] == '0' && (forall k :: 0 <= k < |run| ==> run[k] == '0' || run[k] == '1')
    requires Strtol.BitValue(run) < 0x8000_0000
    ensures Strtol.Parse(Repeat(' ', spaces) + (sign + Body([], run, rest)), 0)
         == (SignedBits(sign, run), spaces + |sign| + |run|)
  {
    hide Strtol.Parse, SignedRun, Strtol.BitValue, Strtol.Binary, Body, Repeat;
    DetectedRead(spaces, sign, [], run, 2, rest);
    Strtol.BinaryExact(run);
    SmallSignedRun(sign, Strtol.BitValue(run));
  }

  function SignedBits(sign: seq<char>, run: seq<char>): int {
    if sign == ['-'] then 0 - Strtol.BitValue(run) else Strtol.BitValue(run)
  }

  lemma SmallSignedRun(sign: seq<char>, v: nat)
    requires v < 0x8000_0000
    ensures SignedRun(sign, v) == if sign == ['-'] then 0 - v else v
  {
    hide Strtol.Wrapped;
    Strtol.WrappedNear(v);
    Strtol.WrappedNear(0 - v);
  }

  /** The layout of a decimal number, read back: a space for the sign is one space more. */
  lemma LayoutRead(spaces: nat, sign: seq<char>, zeros: nat, v: nat, rest: seq<char>)
    requires sign == [] || sign == ['-'] || sign == ['+'] || sign == [' ']
    ensures Strtol.Parse(Repeat(' ', spaces) + sign + (ZeroPadded(zeros, v, Ten, false) + ['\0'] + rest), 10)
         == (SignedValue(sign, v), spaces + |sign| + |ZeroPadded(zeros, v, Ten, false)|)
  {
    hide Strtol.Parse;
    var tail := ZeroPadded(zeros, v, Ten, false) + ['\0'] + rest;
    if sign == [' '] {
      SpaceMore(spaces, tail);
      SignRead(Repeat(' ', spaces + 1) + ([] + tail), spaces + 1, [], zeros, v, rest);
    } else {
      Append(Repeat(' ', spaces), sign, tail);
      SignRead(Repeat(' ', spaces) + (sign + tail), spaces, sign, zeros, v, rest);
    }
  }

  /** The argument is n, in the 32 or 64 bits that its size has; of 64 bits the least is left out. */
  predicate InWidth(c: Conv, n: int) {
    if c.size in {LLONG, LONG, INT64}
    then -0x8000_0000_0000_0000 < n < 0x8000_0000_0000_0000 && c.arg == n % 0x1_0000_0000_0000_0000
    else -0x8000_0000 <= n < 0x8000_0000 && c.arg % 0x1_0000_0000 == n % 0x1_0000_0000
  }

  /** Printing a signed number with any flags, width and precision, and parsing the result as it
      stands in memory, gives the number back and reads all of it; the text has the width, or
      what the number and its sign need. */
  lemma DecimalRoundTrip(c: Conv, n: int, rest: seq<char>)
    requires InWidth(c, n)
    ensures SignedArg(c) == (n < 0, Magnitude(n))
    ensures Strtol.Parse(Number10(c, n < 0, Magnitude(n)) + ['\0'] + rest, 10)
         == (n, |Number10(c, n < 0, Magnitude(n))|)
    ensures |Number10(c, n < 0, Magnitude(n))| == Max(c.width, WordLen(Magnitude(n)) + |SignOf(c, n < 0)|)
  {
    hide Strtol.Parse, Number10, SignedArg, WordLen;
    SignedArgIs(c, n);
    TextRead(c, n < 0, Magnitude(n), rest);
    WrappedMagnitude(n);
  }

  /** What the decimal printer sends for a magnitude below 2^63, read back. */
  lemma TextRead(c: Conv, negative: bool, v: u64, rest: seq<char>)
    requires v < TWO63
    ensures Strtol.Parse(Number10(c, negative, v) + ['\0'] + rest, 10)
         == (SignedValue(if negative then ['-'] else [], v), |Number10(c, negative, v)|)
    ensures |Number10(c, negative, v)| == Max(c.width, WordLen(v) + |SignOf(c, negative)|)
  {
    hide Strtol.Parse, Number10, WordLen;
    var l := LayoutOf(c, negative, WordLen(v));
    var run := ZeroPadded(l.zeros, v, Ten, false);
    LayoutRead(l.spaces, l.sign, l.zeros, v, rest);
    Number10Is(c, negative, v);
    Tail(Repeat(' ', l.spaces) + l.sign, run, rest);
    RunLength(l.zeros, v);
  }

  lemma RunLength(zeros: nat, v: nat)
    ensures |ZeroPadded(zeros, v, Ten, false)| == zeros + WordLen(v)
  {}

  /** Where the flags put spaces and zeros: a zero flag without precision fills with zeros behind the sign,
      nothing or a short precision fills with spaces before it, and a longer precision asks for zeros, which
      the width limits. */
  lemma FlagsLayout(c: Conv, negative: bool, v: u64)
    requires v < TWO63
    ensures (
      var text, digits := Number10(c, negative, v), Digits(v, Ten, false);
      var sign := if negative then "-" else if c.plus then "+" else if c.space then " " else "";
      var len := |sign| + |digits|;
      && (c.width <= len ==> text == sign + digits)
      && (c.width > len && c.zero && c.precision == -1 ==> text == sign + Repeat('0', c.width - len) + digits)
      && (c.width > len && !(c.zero && c.precision == -1) && c.precision <= len ==>
            text == Repeat(' ', c.width - len) + sign + digits)
      && (len < c.precision < c.width ==>
            text == Repeat(' ', c.width - c.precision) + sign + Repeat('0', c.precision - len) + digits)
      && (len < c.width <= c.precision ==> text == sign + Repeat('0', c.width - len) + digits))
  {
    hide Number10, Digits;
    Number10Is(c, negative, v);
    var l := LayoutOf(c, negative, WordLen(v));
    var sign, digits := SignOf(c, negative), Digits(v, Ten, false);
    assert l.spaces == 0 ==> Repeat(' ', l.spaces) + l.sign == sign;
    assert l.zeros == 0 ==> ZeroPadded(l.zeros, v, Ten, false) == digits;
    Regrouped(Repeat(' ', l.spaces) + l.sign, Repeat('0', l.zeros), digits);
  }

  lemma Regrouped(a: seq<char>, b: seq<char>, d: seq<char>)
    ensures a + (b + d) == a + b + d
  {}

  /** The unsigned argument is n: of an int the low 32 bits, of every other size the whole word. */
  predicate UnsignedIn(c: Conv, n: nat) {
    if c.size == NO then n < 0x1_0000_0000 && c.arg % 0x1_0000_0000 == n
    else n < 0x8000_0000_0000_0000 && c.arg == n
  }

  /** The same for an unsigned number below 2^63, through the buffer: %u with any flags, width and
      precision can be printed, strtoll reads the number back from what vsnprintf left, if all of it
      fit, and the text has the width, or what the number and its sign need. */
  lemma UnsignedRoundTrip(before: seq<char>, size: nat, c: Conv, n: nat)
    requires UnsignedIn(c, n) && Lower(c.ty) == 'u'
    ensures ItemsOk([Convert(c)], false)
    ensures |FullText([Convert(c)], false)| == Max(c.width, |Digits(n, Ten, false)| + |SignOf(c, false)|)
    ensures |FullText([Convert(c)], false)| < size <= |before| ==>
      Strtol.Parse(Terminated(before, size, FullText([Convert(c)], false)), 10)
        == (n, |FullText([Convert(c)], false)|)
  {
    hide Strtol.Parse, Number10, Digits;
    var items := [Convert(c)];
    assert UnsignedArg(c) == n;
    var text := Number10(c, false, n);
    assert items[1..] == [] && FullText([], PrefixAfter(items[0], false)) == [];
    assert FullText(items, false) == text + [] == text;
    WrappedMagnitude(n);
    TextRead(c, false, n, []);
    if |text| < size <= |before| {
      TextRead(c, false, n, before[|text| + 1..]);
      assert text[..|text|] == text;
    }
  }

  lemma Tail(a: seq<char>, run: seq<char>, rest: seq<char>)
    ensures a + run + ['\0'] + rest == a + (run + ['\0'] + rest)
  {}

  lemma Number10Is(c: Conv, negative: bool, v: u64)
    requires v < TWO63
    ensures (
      var l := LayoutOf(c, negative, WordLen(v));
      Number10(c, negative, v) == Repeat(' ', l.spaces) + l.sign + ZeroPadded(l.zeros, v, Ten, false))
  {
    DivisionLoopExact(v);
    var l := LayoutOf(c, negative, WordLen(v));
    Append(Repeat(' ', l.spaces) + l.sign, Repeat('0', l.zeros), Digits(v, Ten, false));
  }

  /** The same through the buffer: strtoll reads back what vsnprintf left there, if all of it fit. */
  lemma BufferRoundTrip(before: seq<char>, size: nat, c: Conv, n: int)
    requires InWidth(c, n) && Lower(c.ty) in {'d', 'i'} && ItemsOk([Convert(c)], false)
    requires |FullText([Convert(c)], false)| < size <= |before|
    ensures Strtol.Parse(Terminated(before, size, FullText([Convert(c)], false)), 10)
         == (n, |FullText([Convert(c)], false)|)
  {
    hide Strtol.Parse, Number10, SignedArg;
    var text := Number10(c, n < 0, Magnitude(n));
    var items := [Convert(c)];
    SignedArgIs(c, n);
    assert items[1..] == [] && FullText([], PrefixAfter(items[0], false)) == [];
    assert FullText(items, false) == text + [] == text;
    DecimalRoundTrip(c, n, before[|text| + 1..]);
    assert text[..|text|] == text;
  }

  function Magnitude(n: int): nat { if n < 0 then -n else n }

  lemma WrappedMagnitude(n: int)
    requires -(TWO63 as int) < n < TWO63
    ensures n == SignedValue(if n < 0 then ['-'] else [], Magnitude(n))
  {
    Bits.DivIs(Magnitude(n), TWO64, 0, Magnitude(n));
    if n < 0 {
      Bits.DivIs(n, TWO64, -1, n + TWO64);
    }
  }

  lemma SignedArgIs(c: Conv, n: int)
    requires InWidth(c, n)
    ensures SignedArg(c) == (n < 0, if n < 0 then -n else n)
  {
    var modulus := Power2(Bits10(c));
    if n < 0 {
      Bits.DivIs(n, modulus, -1, n + modulus);
      Bits.DivIs(-n, modulus, 0, -n);
    } else {
      Bits.DivIs(n, modulus, 0, n);
    }
  }

  // ----- hexadecimal ------------------------------------------------------------------------

  lemma {:induction false} NibbleCount(v: nat)
    ensures |Digits(v, Sixteen, false)| == if v == 0 then 1 else (BitLen(v) - 1) / 4 + 1
    ensures v > 0 ==> BitLen(v) >= 1
  {
    if v >= 16 {
      NibbleCount(v / 16);
      assert BitLen(v) == 1 + BitLen(v / 2);
      assert BitLen(v / 2) == 1 + BitLen(v / 2 / 2);
      assert BitLen(v / 2 / 2) == 1 + BitLen(v / 2 / 2 / 2);
      assert v / 2 / 2 / 2 / 2 == v / 16;
    } else if v > 0 {
      BitLenSmall(v);
    }
  }

  lemma BitLenSmall(v: nat)
    requires 0 < v < 16
    ensures 1 <= BitLen(v) <= 4
  {
    assert BitLen(v) == 1 + BitLen(v / 2);
    assert v / 2 > 0 ==> BitLen(v / 2) == 1 + BitLen(v / 4);
    assert v / 4 > 0 ==> BitLen(v / 4) == 1 + BitLen(v / 8);
    assert v / 8 > 0 ==> BitLen(v / 8) == 1 + BitLen(v / 16);
  }

  lemma {:induction false} UpperLength(v: nat, upper: bool)
    ensures |Digits(v, Sixteen, upper)| == |Digits(v, Sixteen, false)|
  {
    if v >= 16 {
      UpperLength(v / 16, upper);
    }
  }

  /** The number of a hex conversion: the whole word, or the low 32 bits of an int. */
  predicate HexIn(c: Conv, n: nat) {
    && c.size in {LLONG, LONG, NO}
    && n == if c.size == NO then c.arg % 0x1_0000_0000 else c.arg
  }

  /** The loop prints as many nibbles as the number has, and they are its numeral. */
  lemma HexDigits(c: Conv, n: nat)
    requires HexIn(c, n)
    ensures TopNibble(c) + 1 == |Digits(n, Sixteen, c.ty < 'a')|
    ensures Low(c.arg, TopNibble(c) + 1, Sixteen, c.ty < 'a') == Digits(n, Sixteen, c.ty < 'a')
  {
    hide Low, Digits;
    NibbleCount(n);
    UpperLength(n, c.ty < 'a');
    LowIsDigits(n, TopNibble(c) + 1, Sixteen, c.ty < 'a');
    if c.size == NO {
      EightNibbles(c.arg, c.ty < 'a', TopNibble(c) + 1);
    }
  }

  lemma EightNibbles(arg: u64, upper: bool, k: nat)
    requires |Digits(arg % 0x1_0000_0000, Sixteen, upper)| == k
    ensures Low(arg, k, Sixteen, upper) == Low(arg % 0x1_0000_0000, k, Sixteen, upper)
  {
    hide Low, Digits;
    assert Pow(Sixteen, 8) == 0x1_0000_0000 by { assert Pow(Sixteen, 4) == 0x1_0000; }
    ValueOfDigits(arg % 0x1_0000_0000, Sixteen, upper);
    DigitCount(arg % 0x1_0000_0000, k, Sixteen, upper);
    if k > 8 {
      PowGrows(Sixteen, 8, k - 1);
    }
    LowOfMod(arg, 8, k, Sixteen, upper);
  }

  /** The text of a hex number with its prefix is spaces, 0x, zeros and the numeral. */
  lemma HexText(c: Conv, n: nat)
    requires HexIn(c, n) && Padding16Ok(c, true)
    ensures Number16(c, true) == Repeat(' ', Padding16(c, true).0) + "0x"
      + ZeroPadded(Padding16(c, true).1 - Padding16(c, true).0, n, Sixteen, c.ty < 'a')
    ensures TopNibble(c) + 1 == |Digits(n, Sixteen, c.ty < 'a')|
  {
    hide Low, Digits, TopNibble, Padding16;
    HexDigits(c, n);
  }

  lemma PrefixRead(s: seq<char>, spaces: nat, zeros: nat, v: nat, upper: bool, rest: seq<char>)
    requires s == Repeat(' ', spaces) + ("0x" + ZeroPadded(zeros, v, Sixteen, upper) + ['\0'] + rest)
    ensures Strtol.Parse(s, 16)
         == (Strtol.Wrapped(v), spaces + 2 + |ZeroPadded(zeros, v, Sixteen, upper)|)
  {
    var tail := "0x" + ZeroPadded(zeros, v, Sixteen, upper) + ['\0'] + rest;
    SpacesRead(s, spaces, tail);
    assert s[spaces] == tail[0];
    SixteenRead(s, spaces, zeros, v, upper, rest);
    ParseIs(s, spaces, 0, false, 16);
  }

  /** Parsing a prefixed hex number as it stands in memory gives the number back, a 64-bit one as a
      signed word. */
  lemma HexRoundTrip(c: Conv, n: nat, rest: seq<char>)
    requires HexIn(c, n) && Padding16Ok(c, true)
    ensures Strtol.Parse(Number16(c, true) + ['\0'] + rest, 16) == (Strtol.Wrapped(n), |Number16(c, true)|)
    ensures n < 0x8000_0000_0000_0000 ==> Strtol.Wrapped(n) == n
  {
    hide Strtol.Parse, Number16;
    var upper := c.ty < 'a';
    var spaces, zeros := Padding16(c, true).0, Padding16(c, true).1 - Padding16(c, true).0;
    var run := ZeroPadded(zeros, n, Sixteen, upper);
    var s := Number16(c, true) + ['\0'] + rest;
    HexText(c, n);
    Prefixed(Repeat(' ', spaces), run, rest);
    PrefixRead(s, spaces, zeros, n, upper, rest);
    WrappedSmall(n);
  }

  lemma Prefixed(spaces: seq<char>, run: seq<char>, rest: seq<char>)
    ensures spaces + "0x" + run + ['\0'] + rest == spaces + ("0x" + run + ['\0'] + rest)
  {}

  lemma WrappedSmall(v: nat)
    requires v < TWO64
    ensures v < TWO63 ==> Strtol.Wrapped(v) == v
  {
    Bits.DivIs(v, TWO64, 0, v);
  }

  /** Without a precision the text has the width, or what prefix and numeral need. */
  lemma HexLength(c: Conv, n: nat)
    requires HexIn(c, n) && c.precision == -1
    ensures Padding16Ok(c, true)
    ensures |Number16(c, true)| == Max(c.width, 2 + |Digits(n, Sixteen, c.ty < 'a')|)
  {
    hide Digits, TopNibble, Number16, Low, Repeat;
    HexText(c, n);
    ValueOfDigits(n, Sixteen, c.ty < 'a');
  }

  /** When a hex conversion asks memset for a negative count of spaces. */
  lemma HexPaddingExact(c: Conv, prefix: bool)
    ensures Padding16Ok(c, prefix) <==>
      !(prefix && c.precision > TopNibble(c) + 1 && c.width < c.precision + 2)
  {}

  // ----- the return value -------------------------------------------------------------------

  /** The length that __vsnprintf returns is that of the full text exactly when no %c was printed
      and no text between conversions was cut. */
  lemma {:induction false} ReturnExact(items: seq<Item>, prefix: bool, n: nat, sent: nat)
    requires ItemsOk(items, prefix)
    ensures AllNotCounted(items, prefix, n, sent) == 0 <==> AllCounted(items, prefix, n, sent)
  {
    if items != [] {
      ReturnExact(items[1..], PrefixAfter(items[0], prefix), n, sent + |ItemText(items[0], prefix)|);
    }
  }

  /** No item is a %c, and every text ends inside the buffer or is empty. */
  predicate AllCounted(items: seq<Item>, prefix: bool, n: nat, sent: nat)
    requires ItemsOk(items, prefix)
  {
    items != [] ==>
      && (match items[0]
          case Text(text) => text == [] || sent + |text| <= n
          case Convert(c) => Lower(c.ty) != 'c')
      && AllCounted(items[1..], PrefixAfter(items[0], prefix), n, sent + |ItemText(items[0], prefix)|)
  }
}
