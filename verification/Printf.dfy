/** lib/stringlib/sprintf.c: the bounded output context, the printers of numbers, strings and
    characters, and the end of __vsnprintf. The items stand for a format that was parsed. */
module Printf {
  import opened Bits
  import opened CTypes
  import opened Numerals

  const TEN19: nat := 10_000_000_000_000_000_000

  datatype Size = NO | LONG | LLONG | INTMAX | SIZE_T | T | INT64 | HALF | HHALF | PTRDIFF

  /** One conversion, its argument fetched; `str` is what a pointer argument points at. */
  datatype Conv = Conv(plus: bool, space: bool, zero: bool, width: int, precision: int, size: Size,
                       ty: char, arg: u64, str: seq<char>)

  /** A format is text between conversions. */
  datatype Item = Text(text: seq<char>) | Convert(conv: Conv)

  // ----- what a printer sends to a buffer without end ---------------------------------------

  function Max(a: int, b: int): int { if a < b then b else a }

  function Min(a: int, b: int): int { if a < b then a else b }

  /** The value of a 64-bit word read as a signed number. */
  function Signed(v: nat): int { if v < TWO63 then v else v - TWO64 }

  function Abs(a: int): nat { if a < 0 then -a else a }

  /** C's division, with the 0 that AArch64 gives for a divisor of 0. */
  function Quotient(a: int, d: int): int {
    if d == 0 then 0
    else if (a < 0) == (d < 0) then Div(Abs(a), Abs(d)) else 0 - Div(Abs(a), Abs(d))
  }

  function ToChar10(i: int): char {
    if i >= 10 then '#' else ((i + '0' as int) % 256) as char
  }

  /** The character that the division loop sends for one digit. */
  function SentDigit(arg: u64, divider: nat): char { ToChar10(Quotient(Signed(arg), Signed(divider))) }

  lemma ModBound(v: nat, d: nat)
    requires d > 0
    ensures Mod(v, d) <= v
  {
    if v < d {
      DivIs(v, d, 0, v);
    }
  }

  function Remainder(v: u64, d: nat): u64 {
    if d == 0 then v
    else
      ModBound(v, d);
      Mod(v, d)
  }

  /** The division loop: n digits of arg from the left, by signed division. */
  function DivText(arg: u64, n: nat): seq<char>
    decreases n
  {
    if n == 0 then []
    else [SentDigit(arg, Pow(Ten, n - 1))] + DivText(Remainder(arg, Pow(Ten, n - 1)), n - 1)
  }

  function WordLen(v: nat): nat { |Digits(v, Ten, false)| }

  /** The sign, spaces and zeros around a number of `digits` characters, as __print_fn_prep_spec
      and __print_fn_number_10 lay them out. */
  datatype Layout = Layout(spaces: nat, sign: seq<char>, zeros: nat)

  function SignOf(c: Conv, negative: bool): seq<char> {
    if negative then "-" else if c.plus then "+" else if c.space then " " else ""
  }

  function LayoutOf(c: Conv, negative: bool, digits: nat): Layout {
    var sign := SignOf(c, negative);
    var wordlen := digits + |sign|;
    var padding := Max(c.width - wordlen, 0);
    var spaces := if c.zero && c.precision == -1 then 0 else Max(padding - Max(Max(c.precision, 0) - wordlen, 0), 0);
    Layout(spaces, sign, padding - spaces)
  }

  function Number10(c: Conv, negative: bool, arg: u64): seq<char> {
    var l := LayoutOf(c, negative, WordLen(arg));
    Repeat(' ', l.spaces) + l.sign + Repeat('0', l.zeros) + DivText(arg, WordLen(arg))
  }

  function Bits10(c: Conv): nat {
    if c.size in {LLONG, LONG, INT64} then 64 else 32
  }

  function Power2(bits: nat): nat { if bits == 64 then TWO64 else 0x1_0000_0000 }

  /** The sign and the magnitude that __print_fn_number_10_d takes from its argument. */
  function SignedArg(c: Conv): (bool, u64) {
    var modulus := Power2(Bits10(c));
    var a := c.arg % modulus;
    if a >= modulus / 2 then (true, (modulus - a) % modulus) else (false, a)
  }

  function UnsignedArg(c: Conv): u64 {
    if c.size == NO then c.arg % 0x1_0000_0000 else c.arg
  }

  function BitLen(v: nat): nat { if v == 0 then 0 else 1 + BitLen(v / 2) }

  /** The width of the operand of the leading-zero count, 0 where the size has none. */
  function Bits16(size: Size): nat {
    match size case LLONG => 64 case LONG => 64 case NO => 32 case _ => 0
  }

  /** The position of the leftmost printed nibble: (maxbits - leading_zeroes - 1) / 4 in C. */
  function TopNibble(c: Conv): nat {
    var bits := Bits16(c.size);
    if bits == 0 then 0
    else
      var len := BitLen(if bits == 64 then c.arg else c.arg % 0x1_0000_0000);
      if len == 0 then 0 else (len - 1) / 4
  }

  /** The two paddings of __print_fn_number_16: spaces, and all. */
  function Padding16(c: Conv, prefix: bool): (int, nat) {
    var digits := TopNibble(c) + 1;
    var p := Max(Max(c.width, c.precision) - digits, 0);
    var padding: nat := if prefix then Max(p - 2, 0) else p;
    var spaces :=
      if c.precision != -1 then padding - Max(c.precision - digits, 0)
      else if c.zero then 0 else padding;
    (spaces, padding)
  }

  /** The layout above has no negative count of spaces, which memset would take for a huge one. */
  predicate Padding16Ok(c: Conv, prefix: bool) { Padding16(c, prefix).0 >= 0 }

  function NoBits(c: Conv): seq<char> { if Bits16(c.size) == 0 then "<>" else "" }

  function PrefixText(prefix: bool): seq<char> { if prefix then "0x" else "" }

  function Number16(c: Conv, prefix: bool): seq<char>
    requires Padding16Ok(c, prefix)
  {
    NoBits(c)
    + Repeat(' ', Padding16(c, prefix).0)
    + PrefixText(prefix)
    + Repeat('0', Padding16(c, prefix).1 - Padding16(c, prefix).0)
    + Low(c.arg, TopNibble(c) + 1, Sixteen, c.ty < 'a')
  }

  predicate IsPrint(c: char) { ' ' <= c < 127 as char || c == '\n' }

  function CharText(c: Conv): char {
    var ch := (c.arg % 256) as char;
    if IsPrint(ch) then ch else '.'
  }

  /** 'A' to 'Z' become 'a' to 'z'; other characters below 'a' stay out of the table either way. */
  function Lower(c: char): char {
    if 'A' <= c <= 'Z' then (c as int + 32) as char else c
  }

  /** The hex prefix flag is never cleared: a %p sets it for all later conversions. */
  function PrefixAfter(item: Item, prefix: bool): bool {
    prefix || (item.Convert? && Lower(item.conv.ty) == 'p')
  }

  /** What the source asks of a format: a decimal magnitude that its power table covers, and no
      negative hex padding. */
  predicate ItemOk(item: Item, prefix: bool) {
    item.Convert? ==>
      var c := item.conv;
      match Lower(c.ty)
      case 'u' => UnsignedArg(c) < TEN19
      case 'x' => Padding16Ok(c, prefix)
      case 'p' => Padding16Ok(c, true)
      case _ => true
  }

  function ItemText(item: Item, prefix: bool): seq<char>
    requires ItemOk(item, prefix)
  {
    match item
    case Text(text) => text
    case Convert(c) =>
      match Lower(c.ty)
      case 'd' => Number10(c, SignedArg(c).0, SignedArg(c).1)
      case 'i' => Number10(c, SignedArg(c).0, SignedArg(c).1)
      case 'u' => Number10(c, false, UnsignedArg(c))
      case 'x' => Number16(c, prefix)
      case 'p' => Number16(c, true)
      case 's' => c.str
      case 'c' => [CharText(c)]
      case _ => []
  }

  predicate ItemsOk(items: seq<Item>, prefix: bool) {
    items == [] || (ItemOk(items[0], prefix) && ItemsOk(items[1..], PrefixAfter(items[0], prefix)))
  }

  /** All characters of a format. */
  function FullText(items: seq<Item>, prefix: bool): seq<char>
    requires ItemsOk(items, prefix)
  {
    if items == [] then []
    else ItemText(items[0], prefix) + FullText(items[1..], PrefixAfter(items[0], prefix))
  }

  /** How many characters of a text do not fit when `sent` went before, in a buffer of n. */
  function CutOff(n: nat, sent: nat, len: nat): nat {
    len - Min(len, n - Min(sent, n))
  }

  /** The characters of an item that the return value does not count: text between conversions is
      counted as far as it fits, and %c not at all. */
  function NotCounted(item: Item, prefix: bool, n: nat, sent: nat): nat {
    match item
    case Text(text) => CutOff(n, sent, |text|)
    case Convert(c) => if Lower(c.ty) == 'c' then 1 else 0
  }

  function AllNotCounted(items: seq<Item>, prefix: bool, n: nat, sent: nat): nat
    requires ItemsOk(items, prefix)
  {
    if items == [] then 0
    else
      NotCounted(items[0], prefix, n, sent)
      + AllNotCounted(items[1..], PrefixAfter(items[0], prefix), n, sent + |ItemText(items[0], prefix)|)
  }

  // ----- the context ------------------------------------------------------------------------

  /** struct printf_ctx. `full` is what a buffer without end would have received and `missed` how
      much of it is not counted in `virt`; `before` is the memory of dst at the start. */
  class PrintfCtx {
    const dst: array<char>
    const n: nat
    ghost const before: seq<char>
    var pos: nat
    var virt: int
    var prefix: bool
    ghost var full: seq<char>
    ghost var missed: nat

    ghost predicate Valid()
      reads this, dst
    {
      && n <= dst.Length == |before| && n < 0x8000_0000
      && pos == Min(|full|, n)
      && dst[..pos] == full[..pos]
      && dst[pos..] == before[pos..]
      && virt == |full| - missed
    }

    constructor (dst: array<char>, n: nat)
      requires n <= dst.Length && n < 0x8000_0000
      ensures Valid() && this.dst == dst && this.n == n && before == dst[..] && full == [] && missed == 0 && !prefix
    {
      this.dst, this.n, before := dst, n, dst[..];
      pos, virt, prefix, full, missed := 0, 0, false, [], 0;
    }

    /** DST_APPEND_C. */
    method AppendC(ch: char)
      requires Valid()
      modifies this`pos, this`virt, this`full, dst
      ensures Valid() && full == old(full) + [ch]
    {
      if pos < n {
        dst[pos] := ch;
        pos := pos + 1;
      }
      virt := virt + 1;
      full := full + [ch];
    }

    /** DST_APPEND_S. */
    method AppendS(s: seq<char>)
      requires Valid()
      modifies this`pos, this`virt, this`full, dst
      ensures Valid() && full == old(full) + s
    {
      for i := 0 to |s|
        invariant Valid() && full == old(full) + s[..i]
      {
        AppendC(s[i]);
        assert s[..i + 1] == s[..i] + [s[i]];
      }
      assert s[..|s|] == s;
    }

    /** memcpy or memset of `opLen` bytes at the end of what is written. */
    method Copy(s: seq<char>, opLen: nat)
      requires Valid() && opLen == Min(|s|, n - pos)
      modifies this`pos, dst
      ensures pos == Min(|full + s|, n) && dst[..pos] == (full + s)[..pos] && dst[pos..] == before[pos..]
    {
      ghost var memory := dst[..];
      assert dst[..pos] == memory[..pos] && dst[pos..] == memory[pos..];
      forall i | 0 <= i < opLen {
        dst[pos + i] := s[i];
      }
      CopyAt(memory, dst[..], before, n, full, s);
      pos := pos + opLen;
      assert dst[..pos] == dst[..][..pos] && dst[pos..] == dst[..][pos..];
    }

    /** DST_MEMCPY: a text, as far as it fits. */
    method Memcpy(s: seq<char>)
      requires Valid()
      modifies this`pos, this`virt, this`full, this`missed, dst
      ensures Valid() && full == old(full) + s && missed == old(missed) + CutOff(n, |old(full)|, |s|)
    {
      var opLen := Min(|s|, n - pos);
      Copy(s, opLen);
      missed := missed + CutOff(n, |full|, |s|);
      full := full + s;
      virt := virt + opLen;
    }

    /** DST_MEMSET. It goes wrong with a negative length, which memset takes for a huge one. */
    method Memset(ch: char, len: int) returns (ok: bool)
      requires Valid()
      modifies this`pos, this`virt, this`full, dst
      ensures Valid() && (ok <==> len >= 0)
      ensures full == if ok then old(full) + Repeat(ch, len) else old(full)
    {
      if len < 0 {
        return false;
      }
      Copy(Repeat(ch, len), Min(len, n - pos));
      full := full + Repeat(ch, len);
      virt := virt + len;
      ok := true;
    }

    /** __print_fn_number_10_div. It goes wrong beyond the end of the power table. */
    method Number10Div(arg0: u64, wordlen: nat) returns (ok: bool)
      requires Valid() && wordlen >= 1
      modifies this`pos, this`virt, this`full, dst
      ensures Valid() && (ok <==> wordlen <= 20)
      ensures full == if ok then old(full) + DivText(arg0, wordlen) else old(full)
    {
      if wordlen > 20 {
        return false;
      }
      hide SentDigit, Remainder;
      var arg := arg0;
      var divider := DecimalTable(wordlen - 1);
      ghost var left: nat := wordlen;
      while divider > 0
        invariant Valid() && left <= wordlen
        invariant divider == if left == 0 then 0 else Pow(Ten, left - 1)
        invariant old(full) + DivText(arg0, wordlen) == full + DivText(arg, left)
        decreases left
      {
        var tmp := SentDigit(arg, divider);
        Front(full, tmp, DivText(Remainder(arg, divider), left - 1));
        AppendC(tmp);
        arg := Remainder(arg, divider);
        divider := divider / 10;
        left := left - 1;
      }
      ok := true;
    }

    /** __print_fn_number_10_nodiv. */
    method Number10Nodiv(arg: u64, wordlen: nat)
      requires Valid() && wordlen <= 19 && arg < Pow(Ten, wordlen)
      modifies this`pos, this`virt, this`full, dst
      ensures Valid() && full == old(full) + Low(arg, wordlen, Ten, false)
    {
      var tmpArg: u64 := arg;
      var left: nat := wordlen;
      while left > 0
        invariant Valid() && left <= wordlen && tmpArg < Pow(Ten, left)
        invariant old(full) + Low(arg, wordlen, Ten, false) == full + Low(tmpArg, left, Ten, false)
      {
        tmpArg := NodivDigit(tmpArg, left);
        left := left - 1;
      }
    }

    /** One round of __print_fn_number_10_nodiv. */
    method NodivDigit(arg: u64, left: nat) returns (rest: u64)
      requires Valid() && 1 <= left <= 19 && arg < Pow(Ten, left)
      modifies this`pos, this`virt, this`full, dst
      ensures Valid() && rest < Pow(Ten, left - 1)
      ensures old(full) + Low(arg, left, Ten, false) == full + Low(rest, left - 1, Ten, false)
    {
      hide Low, Pow, Div, Mod;
      var power := DecimalTable(left - 1);
      FirstDigit(arg, left);
      var num, round := GetDigit(arg, power);
      rest := arg - round;
      ModBound(arg, power);
      Front(full, DigitChar(num, false), Low(rest, left - 1, Ten, false));
      AppendC(ToChar10(num));
    }

    /** __print_fn_number_10, after __print_fn_prep_spec. */
    method PrintNumber10(c: Conv, negative: bool, arg: u64) returns (ok: bool)
      requires Valid()
      modifies this`pos, this`virt, this`full, dst
      ensures Valid() && (ok <==> arg < TEN19)
      ensures ok ==> full == old(full) + Number10(c, negative, arg)
    {
      hide LayoutOf, DivText, WordLen;
      var wordlen, padding, spacePadding := PrepSpec(c, negative, arg);
      ghost var f0, sign := full, SignOf(c, negative);
      ghost var spaces, zeros, digits :=
        Repeat(' ', spacePadding), Repeat('0', padding - spacePadding), DivText(arg, WordLen(arg));
      assert arg < TEN19 ==> Number10(c, negative, arg) == spaces + sign + zeros + digits;
      ok := Memset(' ', spacePadding);
      padding := padding - spacePadding;
      wordlen := PrintSign(c, negative, wordlen);
      ok := Memset('0', padding);
      Join(f0, spaces, sign, zeros, digits);
      ok := Number10Div(arg, wordlen);
    }

    /** The sign of __print_fn_number_10. */
    method PrintSign(c: Conv, negative: bool, wordlen0: nat) returns (wordlen: nat)
      requires Valid() && wordlen0 >= 1
      modifies this`pos, this`virt, this`full, dst
      ensures Valid() && full == old(full) + SignOf(c, negative)
      ensures wordlen == wordlen0 - |SignOf(c, negative)|
    {
      wordlen := wordlen0;
      if negative {
        AppendC('-');
        wordlen := wordlen - 1;
      } else if c.plus {
        AppendC('+');
        wordlen := wordlen - 1;
      } else if c.space {
        AppendC(' ');
        wordlen := wordlen - 1;
      }
    }

    /** __print_fn_number_10_d. */
    method PrintNumber10D(c: Conv)
      requires Valid()
      modifies this`pos, this`virt, this`full, dst
      ensures Valid() && full == old(full) + Number10(c, SignedArg(c).0, SignedArg(c).1)
    {
      hide Number10;
      SignedArgFits(c);
      var (negative, arg) := SignedArg(c);
      var ok := PrintNumber10(c, negative, arg);
    }

    /** __print_fn_number_10_u. */
    method PrintNumber10U(c: Conv) returns (ok: bool)
      requires Valid()
      modifies this`pos, this`virt, this`full, dst
      ensures Valid() && (ok <==> UnsignedArg(c) < TEN19)
      ensures ok ==> full == old(full) + Number10(c, false, UnsignedArg(c))
    {
      ok := PrintNumber10(c, false, UnsignedArg(c));
    }

    /** __print_fn_number_16. */
    method PrintNumber16(c: Conv) returns (ok: bool)
      requires Valid()
      modifies this`pos, this`virt, this`full, dst
      ensures Valid() && (ok <==> Padding16Ok(c, prefix))
      ensures ok ==> full == old(full) + Number16(c, prefix)
    {
      hide Padding16, TopNibble, Low, Number16, NoBits, PrefixText, Repeat;
      ghost var f0 := full;
      PrintNoBits(c);
      var rightmost, spacePadding, padding := Prep16(c, prefix);
      ok := Memset(' ', spacePadding);
      if ok {
        ghost var spaces, zeros, digits := Parts16(c, prefix, rightmost, spacePadding, padding);
        PrintPrefix();
        var zerosOk := Memset('0', padding - spacePadding);
        Join5(f0, NoBits(c), spaces, PrefixText(prefix), zeros, digits);
        Nibbles(c.arg, rightmost, c.ty < 'a');
      }
    }

    /** What __print_fn_number_16 prints for an argument of another size. */
    method PrintNoBits(c: Conv)
      requires Valid()
      modifies this`pos, this`virt, this`full, dst
      ensures Valid() && full == old(full) + NoBits(c)
    {
      if Bits16(c.size) == 0 {
        AppendS("<>");
      }
    }

    /** The prefix of __print_fn_number_16. */
    method PrintPrefix()
      requires Valid()
      modifies this`pos, this`virt, this`full, dst
      ensures Valid() && full == old(full) + PrefixText(prefix)
    {
      if prefix {
        AppendC('0');
        AppendC('x');
      }
    }

    /** The loop of __print_fn_number_16. */
    method Nibbles(arg: u64, top: nat, upper: bool)
      requires Valid()
      modifies this`pos, this`virt, this`full, dst
      ensures Valid() && full == old(full) + Low(arg, top + 1, Sixteen, upper)
    {
      ghost var digits := Low(arg, top + 1, Sixteen, upper);
      var rightmost: int := top;
      while rightmost >= 0
        invariant Valid() && -1 <= rightmost <= top
        invariant full == old(full) + digits[..top - rightmost]
      {
        var nibble := Shifted(arg, Sixteen, rightmost) % 16;
        LowAt(arg, top + 1, Sixteen, upper, top - rightmost);
        AppendC(DigitChar(nibble, upper));
        rightmost := rightmost - 1;
      }
      assert digits[..top + 1] == digits;
    }

    /** __print_fn_string: __printf_strlcpy and the count. */
    method PrintString(src: seq<char>)
      requires Valid()
      modifies this`pos, this`virt, this`full, dst
      ensures Valid() && full == old(full) + src
    {
      var room := n - pos;
      var i := 0;
      while i < |src| && i < room
        invariant 0 <= i <= |src| && i <= room && pos == old(pos) + i && virt == old(virt) && full == old(full)
        invariant dst[..pos] == old(dst[..pos]) + src[..i]
        invariant dst[pos..] == before[pos..]
      {
        assert before[pos..][1..] == before[pos + 1..];
        dst[pos] := src[i];
        assert dst[pos + 1..] == dst[pos..][1..];
        pos := pos + 1;
        i := i + 1;
      }
      virt := virt + |src|;
      full := full + src;
    }

    /** __print_fn_char: it does not count what it prints. */
    method PrintChar(c: Conv)
      requires Valid()
      modifies this`pos, this`full, this`missed, dst
      ensures Valid() && full == old(full) + [CharText(c)] && missed == old(missed) + 1
    {
      var ch := (c.arg % 256) as char;
      if !IsPrint(ch) {
        ch := '.';
      }
      if pos < n {
        dst[pos] := ch;
        pos := pos + 1;
      }
      full := full + [ch];
      missed := missed + 1;
    }

    /** The loop of __vsnprintf, up to an item that goes wrong. */
    method PrintItems(items: seq<Item>) returns (ok: bool)
      requires Valid()
      modifies this, dst
      ensures Valid() && (ok <==> ItemsOk(items, old(prefix)))
      ensures ok ==> full == old(full) + FullText(items, old(prefix))
      ensures ok ==> missed == old(missed) + AllNotCounted(items, old(prefix), n, |old(full)|)
    {
      hide ItemOk, ItemText, NotCounted;
      ghost var prefix0, f0, missed0 := prefix, full, missed;
      for i := 0 to |items|
        invariant Valid() && (ItemsOk(items, prefix0) <==> ItemsOk(items[i..], prefix))
        invariant ItemsOk(items, prefix0) ==> f0 + FullText(items, prefix0) == full + FullText(items[i..], prefix)
        invariant ItemsOk(items, prefix0) ==>
          missed0 + AllNotCounted(items, prefix0, n, |f0|) == missed + AllNotCounted(items[i..], prefix, n, |full|)
      {
        assert items[i..][0] == items[i] && items[i..][1..] == items[i + 1..];
        ghost var after := PrefixAfter(items[i], prefix);
        if ItemOk(items[i], prefix) && ItemsOk(items[i + 1..], after) {
          Append(full, ItemText(items[i], prefix), FullText(items[i + 1..], after));
        }
        ok := PrintItem(items[i]);
        if !ok {
          return;
        }
      }
      ok := true;
    }

    /** The end of __vsnprintf. */
    method Terminate()
      requires Valid()
      modifies dst
      ensures dst[..] == if n == 0 then before else Terminated(before, n, full)
    {
      ghost var memory := dst[..];
      assert dst[..pos] == memory[..pos] && dst[pos..] == memory[pos..];
      if n > 0 {
        NulAt(memory, before, n, full);
        if pos == n {
          dst[pos - 1] := '\0';
          assert dst[..] == memory[pos - 1 := '\0'];
        } else {
          dst[pos] := '\0';
          assert dst[..] == memory[pos := '\0'];
        }
      }
    }

    /** fmt_print_type, or the text before a conversion. */
    method PrintItem(item: Item) returns (ok: bool)
      requires Valid()
      modifies this, dst
      ensures Valid() && (ok <==> ItemOk(item, old(prefix)))
      ensures ok ==> prefix == PrefixAfter(item, old(prefix)) && full == old(full) + ItemText(item, old(prefix))
      ensures ok ==> missed == old(missed) + NotCounted(item, old(prefix), n, |old(full)|)
    {
      hide Number10, Number16, SignedArg, UnsignedArg, Padding16Ok, CutOff, CharText;
      ok := true;
      match item {
        case Text(text) => Memcpy(text);
        case Convert(c) =>
          match Lower(c.ty) {
            case 'd' => PrintNumber10D(c);
            case 'i' => PrintNumber10D(c);
            case 'u' => ok := PrintNumber10U(c);
            case 'x' => ok := PrintNumber16(c);
            case 'p' =>
              prefix := true;
              ok := PrintNumber16(c);
            case 's' => PrintString(c.str);
            case 'c' => PrintChar(c);
            case _ =>
          }
      }
    }
  }

  lemma SignedArgFits(c: Conv)
    ensures SignedArg(c).1 < TEN19
  {}

  lemma Parts16(c: Conv, prefix: bool, rightmost: nat, spaces: nat, padding: nat)
    returns (a: seq<char>, b: seq<char>, d: seq<char>)
    requires rightmost == TopNibble(c) && Padding16(c, prefix) == (spaces, padding) && spaces <= padding
    ensures a == Repeat(' ', spaces) && b == Repeat('0', padding - spaces)
    ensures d == Low(c.arg, rightmost + 1, Sixteen, c.ty < 'a')
    ensures Padding16Ok(c, prefix) && Number16(c, prefix) == NoBits(c) + a + PrefixText(prefix) + b + d
  {
    hide Padding16, TopNibble, Low, Repeat;
    a, b, d := Repeat(' ', spaces), Repeat('0', padding - spaces), Low(c.arg, rightmost + 1, Sixteen, c.ty < 'a');
  }

  /** __print_fn_prep_spec. */
  method PrepSpec(c: Conv, negative: bool, arg: u64) returns (wordlen: nat, padding: nat, spacePadding: nat)
    ensures spacePadding <= padding && wordlen > |SignOf(c, negative)|
    ensures arg < TEN19 ==> wordlen - |SignOf(c, negative)| == WordLen(arg) <= 19
    ensures arg < TEN19 ==>
      LayoutOf(c, negative, WordLen(arg)) == Layout(spacePadding, SignOf(c, negative), padding - spacePadding)
    ensures arg >= TEN19 ==> wordlen - |SignOf(c, negative)| > 20
  {
    hide WordLen;
    wordlen := ClosestRoundBase10Div(arg);
    wordlen := wordlen + if negative || c.plus || c.space then 1 else 0;
    padding := Max(c.width - wordlen, 0);
    spacePadding := Max(padding - Max(Max(c.precision, 0) - wordlen, 0), 0);
    if c.zero && c.precision == -1 {
      spacePadding := 0;
    }
  }

  /** The paddings that __print_fn_number_16 computes. */
  method Prep16(c: Conv, prefix: bool) returns (rightmost: nat, spacePadding: int, padding: nat)
    ensures rightmost == TopNibble(c) && Padding16(c, prefix) == (spacePadding, padding) && spacePadding <= padding
  {
    hide TopNibble;
    rightmost := TopNibble(c);
    padding := Max(Max(c.width, c.precision) - (rightmost + 1), 0);
    if prefix {
      padding := Max(padding - 2, 0);
    }
    spacePadding := padding;
    if c.precision != -1 {
      spacePadding := padding - Max(c.precision - (rightmost + 1), 0);
    } else if c.zero {
      spacePadding := 0;
    }
  }

  const DECIMAL_TABLE: seq<u64> := [
    1, 10, 100, 1000, 10000, 100000, 1000000, 10000000, 100000000, 1000000000,
    10000000000, 100000000000, 1000000000000, 10000000000000, 100000000000000,
    1000000000000000, 10000000000000000, 100000000000000000, 1000000000000000000,
    10000000000000000000
  ]

  lemma DecimalTableIs(i: nat)
    requires i < 20
    ensures |DECIMAL_TABLE| == 20 && DECIMAL_TABLE[i] == Pow(Ten, i)
  {
    if i > 0 {
      DecimalTableIs(i - 1);
    }
  }

  /** The first of n decimal digits, and the others. */
  lemma FirstDigit(v: nat, n: nat)
    requires n >= 1 && v < Pow(Ten, n)
    ensures Div(v, Pow(Ten, n - 1)) <= 9 && v < 10 * Pow(Ten, n - 1)
    ensures Low(v, n, Ten, false)
         == [DigitChar(Div(v, Pow(Ten, n - 1)), false)] + Low(Mod(v, Pow(Ten, n - 1)), n - 1, Ten, false)
  {
    hide Div, Mod;
    var q := Shifted(v, Ten, n - 1);
    LessThanTenth(v, Pow(Ten, n - 1));
    ShiftedIs(v, Ten, n - 1);
    assert Rest(q, Ten) == q;
    LowFirst(v, n - 1, Ten, false);
    LowOfMod(v, n - 1, n - 1, Ten, false);
  }

  lemma Front(f: seq<char>, c: char, s: seq<char>)
    ensures f + ([c] + s) == f + [c] + s
  {}

  lemma Append(f: seq<char>, a: seq<char>, b: seq<char>)
    ensures f + (a + b) == f + a + b
  {}

  lemma Join(f: seq<char>, a: seq<char>, b: seq<char>, c: seq<char>, d: seq<char>)
    ensures f + a + b + c + d == f + (a + b + c + d)
  {}

  lemma Join5(f: seq<char>, a: seq<char>, b: seq<char>, c: seq<char>, d: seq<char>, e: seq<char>)
    ensures f + a + b + c + d + e == f + (a + b + c + d + e)
  {}

  lemma LessThanTenth(v: nat, p: nat)
    requires p > 0 && v < p * 10
    ensures Div(v, p) <= 9
  {
    var q := v / p;
    assert v == q * p + v % p;
    ScaleAtLeast(q - 9, p);
    assert (q - 9) * p == q * p - 9 * p;
  }

  lemma PositiveQuotient(v: nat, d: nat)
    requires d > 0
    ensures Div(v, d) > 0 <==> v >= d
  {
    assert v == v / d * d + v % d;
    ScaleAtLeast(v / d, d);
  }

  /** The powers of ten in 64 bits: the 20th comes out below the 19th, and the 64th is 0. */
  lemma WrappedPowers()
    ensures Pow(Ten, 19) == TEN19 && Wrap(Pow(Ten, 20)) == 7766279631452241920 && Wrap(Pow(Ten, 64)) == 0
  {
    DecimalTableIs(19);
    assert Pow(Ten, 20) == 100000000000000000000;
    assert Pow(Ten, 30) == 1000000000000000000000000000000;
    assert Pow(Ten, 40) == 10000000000000000000000000000000000000000;
    assert Pow(Ten, 50) == 100000000000000000000000000000000000000000000000000;
    assert Pow(Ten, 60) == 1000000000000000000000000000000000000000000000000000000000000;
    assert Pow(Ten, 64) == 10000000000000000000000000000000000000000000000000000000000000000;
  }

  /** C's `val / divider` as a condition; a division by 0 gives 0. */
  predicate Divides(val: u64, divider: nat) { divider > 0 && Div(val, divider) > 0 }

  lemma DividesIs(val: u64, divider: nat)
    ensures Divides(val, divider) <==> divider > 0 && val >= divider
  {
    if divider > 0 {
      PositiveQuotient(val, divider);
    }
  }

  /** closest_round_base10_div. From 10^19 on the powers wrap, and the result is beyond the table. */
  method ClosestRoundBase10Div(val: u64) returns (wordlen: nat)
    ensures val < TEN19 ==> wordlen == WordLen(val) && 1 <= wordlen <= 19
    ensures val >= TEN19 ==> wordlen > 20
  {
    hide Divides, Wrap, Pow, WordLen;
    wordlen := 1;
    var divider: nat := 10;
    WrappedPowers();
    SmallPower(1);
    DividesIs(val, divider);
    while Divides(val, divider)
      invariant Divides(val, divider) <==> divider > 0 && val >= divider
      invariant 1 <= wordlen <= 64 && divider == Wrap(Pow(Ten, wordlen))
      invariant val < TEN19 ==> wordlen <= 19
      invariant val < TEN19 && wordlen > 1 ==> val >= Pow(Ten, wordlen - 1)
      decreases 64 - wordlen
    {
      SmallPower(wordlen);
      NextPower(wordlen);
      divider := Wrap(divider * 10);
      wordlen := wordlen + 1;
      DividesIs(val, divider);
    }
    SmallPower(wordlen);
    if val < TEN19 {
      WordLenIs(val, wordlen);
    }
  }

  lemma SmallPower(k: nat)
    ensures k <= 19 ==> Pow(Ten, k) <= TEN19 && Wrap(Pow(Ten, k)) == Pow(Ten, k)
    ensures k == 1 ==> Pow(Ten, k) == 10
  {
    hide Wrap;
    WrappedPowers();
    PowGrows(Ten, k, 19);
    WrapIs(Pow(Ten, k));
    assert Pow(Ten, 1) == 10;
  }

  lemma NextPower(k: nat)
    ensures Wrap(Wrap(Pow(Ten, k)) * 10) == Wrap(Pow(Ten, k + 1))
  {
    hide Wrap;
    WrapIs(Pow(Ten, k));
  }

  lemma WordLenIs(val: nat, n: nat)
    requires n >= 1 && val < Pow(Ten, n) && (n == 1 || val >= Pow(Ten, n - 1))
    ensures WordLen(val) == n
  {
    DigitCount(val, n, Ten, false);
  }

  /** i times p, by addition. */
  function Multiple(p: nat, i: nat): nat { if i == 0 then 0 else Multiple(p, i - 1) + p }

  lemma {:induction false} MultipleIs(p: nat, i: nat)
    ensures Multiple(p, i) == i * p && (i <= 10 ==> Multiple(p, i) <= 10 * p)
  {
    if i > 0 {
      MultipleIs(p, i - 1);
    }
  }

  /** get_digit: the digit found by repeated addition, and the part of num it stands for. With 10^19
      the addition wraps, and it finds the digit exactly if that is 0. */
  method GetDigit(num: u64, poweredBase: u64) returns (digit: nat, round: nat)
    requires poweredBase > 0
    ensures 10 * poweredBase < TWO64 && num < 10 * poweredBase ==>
      digit == Div(num, poweredBase) <= 9 && round == num - Mod(num, poweredBase)
    ensures 10 * poweredBase < TWO64 && num >= 10 * poweredBase ==> digit == 0 && round == 0
    ensures poweredBase == TEN19 ==> (digit == Div(num, TEN19) <==> num < TEN19)
  {
    hide Wrap, Div, Mod, Multiple;
    var cmp := poweredBase;
    MultipleStep(poweredBase, 0);
    MultipleStep(poweredBase, 1);
    TopDigit(num);
    for i := 1 to 11
      invariant cmp == Wrap(Multiple(poweredBase, i))
      invariant 10 * poweredBase < TWO64 ==> num >= Multiple(poweredBase, i - 1)
      invariant poweredBase == TEN19 && i > 1 ==> num >= TEN19
    {
      MultipleStep(poweredBase, i - 1);
      MultipleStep(poweredBase, i);
      if num < cmp {
        if 10 * poweredBase < TWO64 {
          DigitFound(num, poweredBase, i - 1);
        }
        return i - 1, if cmp >= poweredBase then cmp - poweredBase else cmp + TWO64 - poweredBase;
      }
      WrapSum(Multiple(poweredBase, i), poweredBase);
      cmp := Wrap(cmp + poweredBase);
    }
    MultipleStep(poweredBase, 10);
    return 0, 0;
  }

  /** A multiple by addition, below 2^64 where the tenfold is. */
  lemma MultipleStep(p: u64, i: nat)
    ensures Multiple(p, i + 1) == Multiple(p, i) + p && Multiple(p, 0) == 0
    ensures 10 * p < TWO64 && i <= 10 ==> Wrap(Multiple(p, i)) == Multiple(p, i) <= 10 * p
    ensures p == TEN19 && i == 2 ==> Wrap(Multiple(p, i)) < TEN19
    ensures i == 1 ==> Wrap(Multiple(p, i)) == p
    ensures i == 10 ==> Multiple(p, i) == 10 * p
  {
    hide Wrap;
    MultipleIs(p, i);
    WrapIs(Multiple(p, i));
    assert Multiple(p, 1) == p;
    WrapTwice();
  }

  lemma WrapTwice()
    ensures Wrap(2 * TEN19) < TEN19
  {}

  lemma DigitFound(num: nat, p: nat, i: nat)
    requires p > 0 && i <= 9 && Multiple(p, i) <= num < Multiple(p, i) + p
    ensures Div(num, p) == i && num - Mod(num, p) == Multiple(p, i)
  {
    MultipleIs(p, i);
    DivIs(num, p, i, num - Multiple(p, i));
  }

  lemma TopDigit(num: u64)
    ensures Div(num, TEN19) == if num < TEN19 then 0 else 1
  {}

  /** The loop of closest_round_base10_nodiv: a binary search whose halving leaves out 4, 9, 14
      and 19. */
  method SearchTable(val: u64) returns (pivot: nat)
    ensures pivot < 20 && (pivot == 0 || Pow(Ten, pivot) <= val)
    ensures val < Pow(Ten, pivot + 1) || (pivot > 0 && (pivot >= 18 || val < Pow(Ten, pivot + 2)))
  {
    var base: nat, delta: nat := 0, 10;
    pivot := 0;
    ghost var hi: nat := 20;
    while true
      invariant 0 <= base < hi <= 20 && SpanOk(delta, hi - base)
      invariant base == 0 || Pow(Ten, base) <= val
      invariant hi == 20 || val < Pow(Ten, hi)
      decreases delta
    {
      hide Pow;
      pivot := base + delta;
      delta := delta / 2;
      var power := DecimalTable(pivot);
      if val >= power {
        base := pivot;
      } else if pivot > base {
        hi := pivot;
      }
      if base == pivot && delta == 0 {
        break;
      }
    }
  }

  /** closest_round_base10_nodiv, with the test that makes the search good. */
  method ClosestRoundBase10Nodiv(val: u64) returns (r: nat)
    ensures r < 20 && (r == 0 || Pow(Ten, r) <= val) && (r == 19 || val < Pow(Ten, r + 1))
  {
    var pivot := SearchTable(val);
    if pivot == 0 {
      return 0;
    }
    var power := DecimalTable(pivot);
    if val >= power {
      if pivot <= 18 {
        var next := DecimalTable(pivot + 1);
        if val >= next {
          return pivot + 1;
        }
      }
      return pivot;
    }
    assert false;
    r := pivot;
  }

  /** An entry of the power table. */
  method DecimalTable(i: nat) returns (power: u64)
    requires i < 20
    ensures power == Pow(Ten, i) && (i <= 18 ==> 10 * power < TWO64)
  {
    DecimalTableIs(i);
    DecimalTableIs(18);
    PowGrows(Ten, i, 18);
    power := DECIMAL_TABLE[i];
  }

  /** The step width of the search, and how many powers it still has to tell apart. */
  predicate SpanOk(delta: nat, width: nat) {
    || (delta == 10 && width == 20) || (delta == 5 && width == 10) || (delta == 2 && width == 5)
    || (delta == 1 && 2 <= width <= 3) || (delta == 0 && width == 1)
  }

  /** __vsnprintf, for a format that was parsed into items. It goes wrong exactly with an item that is
      not ItemOk. Otherwise a buffer of n > 0 bytes receives the first characters of the full text and
      a NUL, all else in dst stays, n == 0 writes nothing; the result is the length of the full text
      but for the characters that are not counted. */
  method Vsnprintf(dst: array<char>, n: nat, items: seq<Item>) returns (ok: bool, r: int)
    requires n <= dst.Length && n < 0x8000_0000
    modifies dst
    ensures ok <==> ItemsOk(items, false)
    ensures ok && n == 0 ==> dst[..] == old(dst[..])
    ensures ok && n > 0 ==> dst[..] == Terminated(old(dst[..]), n, FullText(items, false))
    ensures ok ==> r == |FullText(items, false)| - AllNotCounted(items, false, n, 0)
    ensures dst[n..] == old(dst[n..])
  {
    hide Terminated, AllNotCounted, FullText;
    var c := new PrintfCtx(dst, n);
    ok := c.PrintItems(items);
    r := c.virt;
    assert c.before[c.pos..][n - c.pos..] == c.before[n..] && dst[c.pos..][n - c.pos..] == dst[n..];
    if !ok {
      return;
    }
    ghost var text := FullText(items, false);
    assert [] + text == text;
    assert c.full == text && c.before == old(dst[..]);
    c.Terminate();
    TerminatedTail(c.before, n, text);
  }

  /** Nothing behind the first n bytes is touched. */
  lemma TerminatedTail(before: seq<char>, n: nat, text: seq<char>)
    requires n <= |before|
    ensures n > 0 ==> Terminated(before, n, text)[n..] == before[n..]
  {}

  lemma CopyAt(memory: seq<char>, after: seq<char>, before: seq<char>, n: nat, text: seq<char>, s: seq<char>)
    requires n <= |before| == |memory| == |after|
    requires memory[..Min(|text|, n)] == text[..Min(|text|, n)]
    requires memory[Min(|text|, n)..] == before[Min(|text|, n)..]
    requires forall i :: 0 <= i < |memory| ==>
      after[i] == if Min(|text|, n) <= i < Min(|text + s|, n) then s[i - |text|] else memory[i]
    ensures after[..Min(|text + s|, n)] == (text + s)[..Min(|text + s|, n)]
    ensures after[Min(|text + s|, n)..] == before[Min(|text + s|, n)..]
  {
    var pos, end := Min(|text|, n), Min(|text + s|, n);
    forall i | 0 <= i < end ensures after[i] == (text + s)[i] {
      if i < pos {
        assert memory[..pos][i] == text[..pos][i];
      }
    }
    forall i | end <= i < |memory| ensures after[i] == before[i] {
      assert memory[pos..][i - pos] == before[pos..][i - pos];
    }
  }

  lemma NulAt(memory: seq<char>, before: seq<char>, n: nat, text: seq<char>)
    requires 0 < n <= |before| == |memory|
    requires memory[..Min(|text|, n)] == text[..Min(|text|, n)]
    requires memory[Min(|text|, n)..] == before[Min(|text|, n)..]
    ensures memory[Min(|text|, n - 1) := '\0'] == Terminated(before, n, text)
  {
    var pos, k := Min(|text|, n), Min(|text|, n - 1);
    forall i | 0 <= i < |memory| ensures memory[k := '\0'][i] == Terminated(before, n, text)[i] {
      if i < k {
        assert memory[..pos][i] == text[..pos][i];
      } else if i > k {
        assert memory[pos..][i - pos] == before[pos..][i - pos];
      }
    }
  }

  /** The memory `before` after the first min(|text|, n - 1) characters of the text and a NUL were
      put at its start. */
  function Terminated(before: seq<char>, n: nat, text: seq<char>): seq<char>
    requires 0 < n <= |before|
  {
    var k := Min(|text|, n - 1);
    text[..k] + ['\0'] + before[k + 1..]
  }
}
