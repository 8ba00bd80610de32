/** binblock.c and cpuctx_generic.c, which send crash data as hex text, and parse_uart_capture.py,
    which reads it back. */
module Binblock {
  import opened CTypes
  import Bits

  const CHUNK: nat := 128
  const NAME_LEN: nat := 8
  const MAX_REGS: nat := 40
  const REG_BYTES: nat := 16
  const HEX_U64: nat := 16

  /** A register as the enumeration of the context gives it: its name up to the NUL. */
  datatype Reg = Reg(name: seq<byte>, value: u64)

  datatype Exception = Exception(typ: u64, esr: u64, spsr: u64, far: u64, regs: seq<Reg>)

  datatype Block = StackBlock(values: seq<nat>) | ExceptionBlock(e: Exception)

  function Ascii(s: string): (r: seq<byte>)
    ensures |r| == |s|
  {
    seq(|s|, i requires 0 <= i < |s| => s[i] as int % 256)
  }

  // ----- numbers and hex text ---------------------------------------------------------------

  /** The n bytes of v, the lowest first. */
  function Le(v: nat, n: nat): (r: seq<byte>)
    ensures |r| == n
  {
    if n == 0 then [] else [v % 256] + Le(v / 256, n - 1)
  }

  function FromLe(s: seq<byte>): nat {
    if s == [] then 0 else s[0] + 256 * FromLe(s[1..])
  }

  function Power256(n: nat): nat { if n == 0 then 1 else 256 * Power256(n - 1) }

  lemma {:induction false} FromLeOfLe(v: nat, n: nat)
    requires v < Power256(n)
    ensures FromLe(Le(v, n)) == v
  {
    if n > 0 {
      FromLeOfLe(v / 256, n - 1);
      assert Le(v, n)[1..] == Le(v / 256, n - 1);
    }
  }

  lemma {:induction false} FromLeBound(s: seq<byte>)
    ensures FromLe(s) < Power256(|s|)
  {
    if s != [] {
      FromLeBound(s[1..]);
    }
  }

  function HexDigit(n: nat): byte
    requires n < 16
  {
    if n < 10 then '0' as int + n else 'a' as int - 10 + n
  }

  function DigitValue(c: byte): Option<nat> {
    if '0' as int <= c <= '9' as int then Some(c - '0' as int)
    else if 'a' as int <= c <= 'f' as int then Some(c - 'a' as int + 10)
    else if 'A' as int <= c <= 'F' as int then Some(c - 'A' as int + 10)
    else None
  }

  function Hex(s: seq<byte>): (r: seq<byte>)
    ensures |r| == 2 * |s|
  {
    if s == [] then [] else [HexDigit(s[0] / 16), HexDigit(s[0] % 16)] + Hex(s[1..])
  }

  /** binascii.unhexlify. */
  function Unhex(s: seq<byte>): Option<seq<byte>> {
    if s == [] then Some([])
    else if |s| == 1 then None
    else
      match (DigitValue(s[0]), DigitValue(s[1]), Unhex(s[2..]))
      case (Some(h), Some(l), Some(t)) => Some([h * 16 + l] + t)
      case _ => None
  }

  lemma {:induction false} UnhexOfHex(s: seq<byte>)
    ensures Unhex(Hex(s)) == Some(s)
  {
    if s != [] {
      UnhexOfHex(s[1..]);
      assert Hex(s)[2..] == Hex(s[1..]);
      assert s == [s[0]] + s[1..];
    }
  }

  lemma {:induction false} HexOfSum(a: seq<byte>, b: seq<byte>)
    ensures Hex(a + b) == Hex(a) + Hex(b)
    decreases |a|
  {
    if a == [] {
      assert a + b == b;
    } else {
      var s := a + b;
      HexOfSum(a[1..], b);
      assert s[0] == a[0] && s[1..] == a[1..] + b;
      assert Hex(s) == [HexDigit(a[0] / 16), HexDigit(a[0] % 16)] + (Hex(a[1..]) + Hex(b));
    }
  }

  // ----- the sender -------------------------------------------------------------------------

  /** checksum_basic. */
  function Checksum(s: seq<byte>): nat {
    if s == [] then 0 else (Checksum(s[..|s| - 1]) + s[|s| - 1]) % 0x1_0000_0000
  }

  function Magic(): (r: seq<byte>)
    ensures |r| == 8 && IsAscii(r)
  {
    Ascii("BINBLOCK")
  }

  /** What binblock_send sends. */
  function Frame(id: seq<byte>, data: seq<byte>): seq<byte> {
    Magic() + (id + (Hex(Le(Checksum(data), 4)) + (Hex(Le(|data|, 8)) + Hex(data))))
  }

  method ChecksumBasic(buf: seq<byte>) returns (result: nat)
    ensures result == Checksum(buf)
  {
    result := 0;
    for i := 0 to |buf|
      invariant result == Checksum(buf[..i])
    {
      assert buf[..i + 1][..i] == buf[..i];
      result := (result + buf[i]) % 0x1_0000_0000;
    }
    assert buf[..|buf|] == buf;
  }

  /** The sum of the bytes, from the front and without a bound. */
  function ByteSum(s: seq<byte>): nat {
    if s == [] then 0 else s[0] + ByteSum(s[1..])
  }

  lemma {:induction false} ByteSumSnoc(s: seq<byte>)
    requires s != []
    ensures ByteSum(s) == ByteSum(s[..|s| - 1]) + s[|s| - 1]
  {
    if |s| > 1 {
      ByteSumSnoc(s[1..]);
      assert s[1..][..|s| - 2] == s[..|s| - 1][1..];
    }
  }

  lemma SumModulo(a: nat, b: nat)
    ensures (a % 0x1_0000_0000 + b) % 0x1_0000_0000 == (a + b) % 0x1_0000_0000
  {
    var r := a % 0x1_0000_0000 + b;
    Bits.DivIs(a + b, 0x1_0000_0000, a / 0x1_0000_0000 + r / 0x1_0000_0000, r % 0x1_0000_0000);
  }

  /** The checksum is the sum of the bytes modulo 2^32. */
  lemma {:induction false} ChecksumIsSum(s: seq<byte>)
    ensures Checksum(s) == ByteSum(s) % 0x1_0000_0000
  {
    if s != [] {
      hide ByteSum;
      ChecksumIsSum(s[..|s| - 1]);
      ByteSumSnoc(s);
      SumModulo(ByteSum(s[..|s| - 1]), s[|s| - 1]);
    } else {
      Bits.DivIs(0, 0x1_0000_0000, 0, 0);
    }
  }

  /** B, I, N, B, L, O, C, K */
  lemma MagicBytes()
    ensures Magic() == [66, 73, 78, 66, 76, 79, 67, 75]
  {}

  lemma HexDigitIs(n: nat)
    requires n < 16
    ensures HexDigit(n) == "0123456789abcdef"[n] as int
  {}

  /** The text of a byte is its high digit and its low digit, in lower case. */
  lemma {:induction false} HexAt(s: seq<byte>, k: nat)
    requires k < |s|
    ensures Hex(s)[2 * k] == "0123456789abcdef"[s[k] / 16] as int
    ensures Hex(s)[2 * k + 1] == "0123456789abcdef"[s[k] % 16] as int
    decreases k
  {
    HexDigitIs(s[0] / 16);
    HexDigitIs(s[0] % 16);
    hide HexDigit;
    if k > 0 {
      HexAt(s[1..], k - 1);
    }
  }

  /** bin_to_ascii_hex: as many bytes as the destination holds. */
  method BinToAsciiHex(dst: array<byte>, src: seq<byte>) returns (written: nat)
    modifies dst
    ensures written == 2 * (if |src| < dst.Length / 2 then |src| else dst.Length / 2)
    ensures dst[..written] == Hex(src[..written / 2])
  {
    var s, d := 0, 0;
    while s != |src| && d + 2 <= dst.Length
      invariant 0 <= s <= |src| && d == 2 * s <= dst.Length
      invariant dst[..d] == Hex(src[..s])
    {
      HexNext(src, s);
      hide Hex, HexDigit;
      dst[d] := HexDigit(src[s] / 16);
      dst[d + 1] := HexDigit(src[s] % 16);
      assert dst[..d + 2] == dst[..d] + [dst[d], dst[d + 1]];
      s := s + 1;
      d := d + 2;
    }
    written := s * 2;
  }

  lemma HexNext(src: seq<byte>, s: nat)
    requires s < |src|
    ensures Hex(src[..s + 1]) == Hex(src[..s]) + [HexDigit(src[s] / 16), HexDigit(src[s] % 16)]
  {
    HexOfSum(src[..s], [src[s]]);
    assert src[..s + 1] == src[..s] + [src[s]];
    assert Hex([src[s]]) == [HexDigit(src[s] / 16), HexDigit(src[s] % 16)] + Hex([]);
  }

  /** The line everything is sent over. A sender may take less than it is given; `short` says
      whether it ever did. */
  class Line {
    var sent: seq<byte>
    ghost var short: bool

    constructor ()
      ensures sent == [] && !short
    {
      sent := [];
      short := false;
    }

    method Send(buf: seq<byte>) returns (n: nat)
      modifies this
      ensures n <= |buf| && sent == old(sent) + buf[..n] && short == (old(short) || n < |buf|)
    {
      n := *;
      if n > |buf| || n < 0 {
        n := |buf|;
      }
      sent := sent + buf[..n];
      short := short || n < |buf|;
    }

    /** binblock_send_ascii_bin: the chunks of 64 bytes do not show in what is sent. What the sender
        takes of a chunk is not looked at. */
    method SendAsciiBin(bytes: seq<byte>) returns (bytesSent: nat)
      modifies this
      ensures bytesSent == |bytes| && (old(short) ==> short) && old(sent) <= sent
      ensures !short ==> sent == old(sent) + Hex(bytes)
    {
      hide Hex;
      assert Hex(bytes[..0]) == [];
      var buf := new byte[CHUNK];
      bytesSent := 0;
      while bytesSent < |bytes|
        invariant bytesSent <= |bytes| && fresh(buf) && (old(short) ==> short) && old(sent) <= sent
        invariant !short ==> sent == old(sent) + Hex(bytes[..bytesSent])
      {
        var sz := BinToAsciiHex(buf, bytes[bytesSent..]);
        var n := Send(buf[..sz]);
        ChunkSent(bytes, bytesSent, sz / 2);
        bytesSent := bytesSent + sz / 2;
      }
      assert bytes[..bytesSent] == bytes;
    }

    /** binblock_send. It fails exactly when the magic or the id was not taken whole; short hex text is
        not noticed. */
    method BinblockSend(data: seq<byte>, id: seq<byte>) returns (r: int)
      requires |id| == 8
      modifies this
      ensures r == 0 || r == -1
      ensures r == -1 ==> short && sent < old(sent) + (Magic() + id)
      ensures r == 0 ==> old(sent) + (Magic() + id) <= sent
      ensures !short ==> r == 0 && sent == old(sent) + Frame(id, data)
    {
      hide Hex, Le, Checksum, Magic;
      var checksum := ChecksumBasic(data);
      var n := Send(Magic());
      if n != 8 {
        return -1;
      }
      n := Send(id);
      if n != 8 {
        return -1;
      }
      n := SendAsciiBin(Le(checksum, 4));
      if n != 4 {
        return -1;
      }
      n := SendAsciiBin(Le(|data|, 8));
      if n != 8 {
        return -1;
      }
      n := SendAsciiBin(data);
      if n != |data| {
        return -1;
      }
      r := 0;
      Joined(old(sent), Magic(), id, Hex(Le(checksum, 4)), Hex(Le(|data|, 8)), Hex(data));
    }
  }

  lemma ChunkSent(bytes: seq<byte>, at: nat, n: nat)
    requires at + n <= |bytes|
    ensures Hex(bytes[..at + n]) == Hex(bytes[..at]) + Hex(bytes[at..][..n])
  {
    HexOfSum(bytes[..at], bytes[at..][..n]);
    assert bytes[..at + n] == bytes[..at] + bytes[at..][..n];
  }

  lemma Joined(f: seq<byte>, a: seq<byte>, b: seq<byte>, c: seq<byte>, d: seq<byte>, e: seq<byte>)
    ensures f + a + b + c + d + e == f + (a + (b + (c + (d + e))))
  {}

  /** The stored name: at most seven characters and zeros behind them. */
  function StoredName(name: seq<byte>): (r: seq<byte>)
    ensures |r| == NAME_LEN
  {
    var n := if |name| < NAME_LEN - 1 then |name| else NAME_LEN - 1;
    name[..n] + seq(NAME_LEN - n, i => 0)
  }

  function StoredReg(r: Reg): (s: seq<byte>)
    ensures |s| == REG_BYTES
  {
    StoredName(r.name) + Le(r.value, 8)
  }

  function StoredRegs(regs: seq<Reg>): (s: seq<byte>)
    ensures |s| == REG_BYTES * |regs|
  {
    if regs == [] then [] else StoredReg(regs[0]) + StoredRegs(regs[1..])
  }

  function Zeros(n: nat): (s: seq<byte>)
    ensures |s| == n
  {
    seq(n, i => 0)
  }

  /** The structure that binblock_fill_exception fills: at most 40 registers, then zeros. */
  function StoredException(e: Exception): (r: seq<byte>)
    ensures |r| == 672
  {
    var n := if |e.regs| < MAX_REGS then |e.regs| else MAX_REGS;
    Le(e.typ, 8) + (Le(e.esr, 8) + (Le(e.spsr, 8) + (Le(e.far, 8)
      + (StoredRegs(e.regs[..n]) + Zeros(REG_BYTES * (MAX_REGS - n))))))
  }

  /** Bytes are stored from `at` on. */
  method Store(buf: array<byte>, at: nat, s: seq<byte>)
    requires at + |s| <= buf.Length
    modifies buf
    ensures buf[..] == old(buf[..at]) + s + old(buf[at + |s|..])
  {
    forall i | 0 <= i < |s| {
      buf[at + i] := s[i];
    }
  }

  /** strncpy of a register's name, with the zeros that memset put there before. */
  method CopyName(name: seq<byte>) returns (stored: seq<byte>)
    ensures stored == StoredName(name)
  {
    stored := [];
    while |stored| < NAME_LEN - 1
      invariant |stored| < NAME_LEN && stored == StoredName(name)[..|stored|]
    {
      stored := stored + [if |stored| < |name| then name[|stored|] else 0];
    }
    stored := stored + [0];
  }

  lemma {:induction false} StoredRegsSnoc(regs: seq<Reg>, n: nat)
    requires n < |regs|
    ensures StoredRegs(regs[..n + 1]) == StoredRegs(regs[..n]) + StoredReg(regs[n])
    decreases n
  {
    if n == 0 {
      assert regs[..1] == [regs[0]] && regs[..0] == [] && regs[..1][1..] == [];
    } else {
      StoredRegsSnoc(regs[1..], n - 1);
      assert regs[..n + 1][1..] == regs[1..][..n] && regs[..n][1..] == regs[1..][..n - 1];
    }
  }

  /** cpuctx_binblock_fill_regs: it takes registers until the table is full. */
  method FillRegs(regs: seq<Reg>) returns (n: nat, table: seq<byte>)
    ensures n == (if |regs| < 40 then |regs| else 40) && table == StoredRegs(regs[..n])
  {
    n, table := 0, [];
    while n < |regs|
      invariant n <= |regs| && n <= MAX_REGS && table == StoredRegs(regs[..n])
    {
      if n >= MAX_REGS {
        break;
      }
      var name := CopyName(regs[n].name);
      StoredRegsSnoc(regs, n);
      table := table + (name + Le(regs[n].value, 8));
      n := n + 1;
    }
  }

  /** binblock_fill_exception. */
  method FillException(buf: array<byte>, e: Exception) returns (r: int)
    modifies buf
    ensures buf.Length < |StoredException(e)| ==> r == -1 && buf[..] == old(buf[..])
    ensures buf.Length >= |StoredException(e)| ==>
      r == |StoredException(e)| && buf[..] == StoredException(e) + old(buf[|StoredException(e)|..])
  {
    if buf.Length < 32 + REG_BYTES * MAX_REGS {
      return -1;
    }
    var n, table := FillRegs(e.regs);
    var ex := Le(e.typ, 8) + (Le(e.esr, 8) + (Le(e.spsr, 8) + (Le(e.far, 8)
      + (table + Zeros(REG_BYTES * (MAX_REGS - n))))));
    Store(buf, 0, ex);
    r := |ex|;
  }

  // ----- the parser -------------------------------------------------------------------------

  function Field(buf: seq<byte>, offset: nat, n: nat): Option<seq<byte>> {
    if offset + n <= |buf| then Some(buf[offset..offset + n]) else None
  }

  /** unpack_be32 and ascii_unpack_be64: 2n hex digits of n bytes, the lowest byte first. */
  function UnpackNumber(buf: seq<byte>, offset: nat, n: nat): Option<nat> {
    match Field(buf, offset, 2 * n)
    case None => None
    case Some(s) =>
      match Unhex(s)
      case None => None
      case Some(b) => Some(FromLe(b))
  }

  function UpToZero(s: seq<byte>): seq<byte> {
    if s == [] || s[0] == 0 then [] else [s[0]] + UpToZero(s[1..])
  }

  predicate IsAscii(s: seq<byte>) { forall i :: 0 <= i < |s| ==> s[i] < 128 }

  /** ascii_unpack_string for names of 8 bytes. */
  function UnpackName(buf: seq<byte>, offset: nat): Option<seq<byte>> {
    match Field(buf, offset, 2 * NAME_LEN)
    case None => None
    case Some(s) =>
      match Unhex(s)
      case None => None
      case Some(b) => if IsAscii(UpToZero(b)) then Some(UpToZero(b)) else None
  }

  function ParseReg(buf: seq<byte>, offset: nat): Option<Reg> {
    match (UnpackName(buf, offset), UnpackNumber(buf, offset + HEX_U64, 8))
    case (Some(name), Some(value)) => if value < 0x1_0000_0000_0000_0000 then Some(Reg(name, value)) else None
    case _ => None
  }

  /** parse_regs: registers up to one without a name. */
  function ParseRegs(buf: seq<byte>, offset: nat): Option<(nat, seq<Reg>)>
    decreases |buf| - offset
  {
    match ParseReg(buf, offset)
    case None => None
    case Some(reg) =>
      if reg.name == [] then Some((offset + 32, []))
      else
        match ParseRegs(buf, offset + 32)
        case None => None
        case Some((end, regs)) => Some((end, [reg] + regs))
  }

  /** parse_binblock_stack. */
  function ParseStack(buf: seq<byte>, offset: nat, size: nat): Option<(nat, seq<nat>)>
    decreases size
  {
    if size % 8 != 0 then None
    else if size == 0 then Some((offset, []))
    else
      match (UnpackNumber(buf, offset, 8), ParseStack(buf, offset + HEX_U64, size - 8))
      case (Some(v), Some((end, values))) => Some((end, [v] + values))
      case _ => None
  }

  /** The loop of parse_binblock_stack. */
  method StackLoop(buf: seq<byte>, offset0: nat, size0: nat) returns (r: Option<(nat, seq<nat>)>)
    ensures r == ParseStack(buf, offset0, size0)
  {
    if size0 % 8 != 0 {
      return None;
    }
    var offset, size, values := offset0, size0, [];
    BeforeSteps(values, 0, ParseStack(buf, offset, size), 0);
    while size > 0
      invariant 0 <= size <= size0 && size % 8 == 0 && offset >= 0
      invariant ParseStack(buf, offset0, size0) == Before(values, ParseStack(buf, offset, size))
    {
      var value := UnpackNumber(buf, offset, 8);
      if value == None {
        return None;
      }
      BeforeSteps(values, value.value, ParseStack(buf, offset + 16, size - 8), 0);
      offset, size, values := offset + 16, size - 8, values + [value.value];
    }
    BeforeSteps(values, 0, None, offset);
    r := Some((offset, values));
  }

  /** What was read before is put in front. */
  function Before<T>(first: seq<T>, r: Option<(nat, seq<T>)>): Option<(nat, seq<T>)> {
    match r case None => None case Some((end, rest)) => Some((end, first + rest))
  }

  lemma BeforeSteps<T>(first: seq<T>, x: T, r: Option<(nat, seq<T>)>, end: nat)
    ensures Before([], r) == r
    ensures Before(first, Before([x], r)) == Before(first + [x], r)
    ensures Before(first, Some((end, []))) == Some((end, first))
  {
    if r.Some? {
      assert [] + r.value.1 == r.value.1;
      assert first + ([x] + r.value.1) == first + [x] + r.value.1;
    }
    assert first + [] == first;
  }

  /** The loop of parse_regs. */
  method RegsLoop(buf: seq<byte>, offset0: nat) returns (r: Option<(nat, seq<Reg>)>)
    ensures r == ParseRegs(buf, offset0)
  {
    var offset, regs := offset0, [];
    BeforeSteps(regs, Reg([], 0), ParseRegs(buf, offset), 0);
    while true
      invariant offset >= 0 && ParseRegs(buf, offset0) == Before(regs, ParseRegs(buf, offset))
      decreases |buf| - offset
    {
      var reg := ParseReg(buf, offset);
      if reg == None {
        return None;
      }
      BeforeSteps(regs, reg.value, ParseRegs(buf, offset + 32), offset + 32);
      if reg.value.name == [] {
        return Some((offset + 32, regs));
      }
      offset, regs := offset + 32, regs + [reg.value];
    }
  }

  /** parse_binblock_exception. */
  function ParseException(buf: seq<byte>, offset: nat): Option<(nat, Block)> {
    match (UnpackNumber(buf, offset, 8), UnpackNumber(buf, offset + 16, 8),
           UnpackNumber(buf, offset + 32, 8), UnpackNumber(buf, offset + 48, 8), ParseRegs(buf, offset + 64))
    case (Some(typ), Some(esr), Some(spsr), Some(far), Some((end, regs))) =>
      if typ < 0x1_0000_0000_0000_0000 && esr < 0x1_0000_0000_0000_0000
         && spsr < 0x1_0000_0000_0000_0000 && far < 0x1_0000_0000_0000_0000
      then Some((end, ExceptionBlock(Exception(typ, esr, spsr, far, regs)))) else None
    case _ => None
  }

  datatype Header = Header(magic: seq<byte>, id: seq<byte>, checksum: nat, len: nat)

  function ParseHeader(buf: seq<byte>, offset: nat): Option<Header> {
    match (Field(buf, offset, 8), Field(buf, offset + 8, 8),
           UnpackNumber(buf, offset + 16, 4), UnpackNumber(buf, offset + 24, 8))
    case (Some(magic), Some(id), Some(checksum), Some(len)) =>
      if IsAscii(magic) && IsAscii(id) then Some(Header(magic, id, checksum, len)) else None
    case _ => None
  }

  /** parse_binblock: the end of the block, its id and what is in it. */
  function ParseBinblock(buf: seq<byte>, offset: nat): Option<(nat, seq<byte>, Block)> {
    match ParseHeader(buf, offset)
    case None => None
    case Some(h) =>
      if h.id == Ascii("___STACK") then
        match ParseStack(buf, offset + 40, h.len)
        case None => None
        case Some((end, values)) => Some((end, h.id, StackBlock(values)))
      else if h.id == Ascii("__EXCPTN") then
        match ParseException(buf, offset + 40)
        case None => None
        case Some((end, block)) => Some((end, h.id, block))
      else None
  }

  // ----- parsing what was sent --------------------------------------------------------------

  /** The text stands in the buffer at the offset. */
  predicate Stands(buf: seq<byte>, offset: nat, s: seq<byte>) {
    offset + |s| <= |buf| && buf[offset..offset + |s|] == s
  }

  lemma StandsSum(buf: seq<byte>, offset: nat, a: seq<byte>, b: seq<byte>)
    requires Stands(buf, offset, a + b)
    ensures Stands(buf, offset, a) && Stands(buf, offset + |a|, b)
  {
    var s := buf[offset..offset + |a + b|];
    assert s[..|a|] == (a + b)[..|a|] == a && s[|a|..] == (a + b)[|a|..] == b;
    assert buf[offset..offset + |a|] == s[..|a|];
    assert buf[offset + |a|..offset + |a + b|] == s[|a|..];
  }

  lemma FieldStands(buf: seq<byte>, offset: nat, s: seq<byte>, n: nat)
    requires Stands(buf, offset, s) && n == |s|
    ensures Field(buf, offset, n) == Some(s)
  {}

  /** Hex text that stands in the buffer is read back. */
  lemma HexStands(buf: seq<byte>, offset: nat, s: seq<byte>, n: nat)
    requires Stands(buf, offset, Hex(s)) && n == |s|
    ensures Field(buf, offset, 2 * n) == Some(Hex(s)) && Unhex(Hex(s)) == Some(s)
  {
    hide Hex, Unhex, Field, Stands;
    UnhexOfHex(s);
    FieldStands(buf, offset, Hex(s), 2 * n);
  }

  lemma NumberStands(buf: seq<byte>, offset: nat, s: seq<byte>, n: nat)
    requires Stands(buf, offset, Hex(s)) && n == |s|
    ensures UnpackNumber(buf, offset, n) == Some(FromLe(s))
  {
    hide Hex, Unhex, FromLe, Field, Stands;
    HexStands(buf, offset, s, n);
  }

  lemma Power256Is()
    ensures Power256(4) == 0x1_0000_0000 && Power256(8) == 0x1_0000_0000_0000_0000
  {
    assert Power256(2) == 0x1_0000;
    assert Power256(4) == 0x1_0000 * Power256(2);
    assert Power256(8) == 0x1_0000 * (0x1_0000 * Power256(4)) by {
      assert Power256(6) == 0x1_0000 * Power256(4);
    }
  }

  lemma WordStands(buf: seq<byte>, offset: nat, v: u64)
    requires Stands(buf, offset, Hex(Le(v, 8)))
    ensures UnpackNumber(buf, offset, 8) == Some(v)
  {
    NumberStands(buf, offset, Le(v, 8), 8);
    Power256Is();
    FromLeOfLe(v, 8);
  }

  lemma ChecksumBound(s: seq<byte>)
    ensures Checksum(s) < 0x1_0000_0000
  {}

  /** Parts of known lengths stand one behind the other. */
  lemma FiveStand(buf: seq<byte>, offset: nat, a: seq<byte>, b: seq<byte>, c: seq<byte>, d: seq<byte>, e: seq<byte>)
    requires Stands(buf, offset, a + (b + (c + (d + e)))) && |a| == 8 && |b| == 8 && |c| == 8 && |d| == 16
    ensures Stands(buf, offset, a) && Stands(buf, offset + 8, b) && Stands(buf, offset + 16, c)
    ensures Stands(buf, offset + 24, d) && Stands(buf, offset + 40, e)
  {
    hide Stands;
    StandsSum(buf, offset, a, b + (c + (d + e)));
    StandsSum(buf, offset + 8, b, c + (d + e));
    StandsSum(buf, offset + 16, c, d + e);
    StandsSum(buf, offset + 24, d, e);
  }

  lemma FrameParts(id: seq<byte>, data: seq<byte>, checksum: seq<byte>, len: seq<byte>)
    requires checksum == Hex(Le(Checksum(data), 4)) && len == Hex(Le(|data|, 8))
    ensures Frame(id, data) == Magic() + (id + (checksum + (len + Hex(data))))
    ensures |checksum| == 8 && |len| == 16
  {}

  /** The five parts of a frame stand one behind the other. */
  lemma PartsStand(buf: seq<byte>, offset: nat, id: seq<byte>, data: seq<byte>)
    requires Stands(buf, offset, Frame(id, data)) && |id| == 8
    ensures Stands(buf, offset, Magic()) && Stands(buf, offset + 8, id)
    ensures Stands(buf, offset + 16, Hex(Le(Checksum(data), 4))) && Stands(buf, offset + 24, Hex(Le(|data|, 8)))
    ensures Stands(buf, offset + 40, Hex(data))
  {
    hide Hex, Checksum, Le, Stands, Magic, Frame;
    var checksum, len := Hex(Le(Checksum(data), 4)), Hex(Le(|data|, 8));
    FrameParts(id, data, checksum, len);
    FiveStand(buf, offset, Magic(), id, checksum, len, Hex(data));
  }

  lemma ChecksumStands(buf: seq<byte>, offset: nat, data: seq<byte>)
    requires Stands(buf, offset, Hex(Le(Checksum(data), 4)))
    ensures UnpackNumber(buf, offset, 4) == Some(Checksum(data))
  {
    hide Hex, Le, Stands;
    NumberStands(buf, offset, Le(Checksum(data), 4), 4);
    ChecksumBound(data);
    Power256Is();
    FromLeOfLe(Checksum(data), 4);
  }

  /** The header of a frame is recovered, and its payload stands behind it. */
  lemma HeaderParsed(buf: seq<byte>, offset: nat, id: seq<byte>, data: seq<byte>)
    requires Stands(buf, offset, Frame(id, data)) && |id| == 8 && IsAscii(id) && |data| < 0x1_0000_0000_0000_0000
    ensures ParseHeader(buf, offset)
         == Some(Header([66, 73, 78, 66, 76, 79, 67, 75], id, ByteSum(data) % 0x1_0000_0000, |data|))
    ensures Stands(buf, offset + 40, Hex(data))
  {
    hide Hex, Checksum, Le, UnpackNumber, Field, Stands, Frame, IsAscii, Magic;
    PartsStand(buf, offset, id, data);
    ChecksumIsSum(data);
    MagicBytes();
    FieldStands(buf, offset, Magic(), 8);
    FieldStands(buf, offset + 8, id, 8);
    ChecksumStands(buf, offset + 16, data);
    WordStands(buf, offset + 24, |data|);
  }

  /** The words of a stack dump. */
  function Words(data: seq<byte>): seq<nat> {
    if |data| < 8 then [] else [FromLe(data[..8])] + Words(data[8..])
  }

  /** The bytes of words. */
  function BytesOf(words: seq<nat>): seq<byte> {
    if words == [] then [] else Le(words[0], 8) + BytesOf(words[1..])
  }

  lemma {:induction false} LeOfFromLe(s: seq<byte>)
    ensures Le(FromLe(s), |s|) == s
  {
    if s != [] {
      LeOfFromLe(s[1..]);
      assert (s[0] + 256 * FromLe(s[1..])) / 256 == FromLe(s[1..]);
      assert s == [s[0]] + s[1..];
    }
  }

  /** The words of a dump determine its bytes. */
  lemma {:induction false} WordsKeepBytes(data: seq<byte>)
    requires |data| % 8 == 0
    ensures BytesOf(Words(data)) == data
    decreases |data|
  {
    if data != [] {
      LeOfFromLe(data[..8]);
      WordsKeepBytes(data[8..]);
      assert Words(data)[1..] == Words(data[8..]);
      assert data == data[..8] + data[8..];
    }
  }

  lemma {:induction false} StackParsed(buf: seq<byte>, offset: nat, data: seq<byte>)
    requires Stands(buf, offset, Hex(data)) && |data| % 8 == 0
    ensures ParseStack(buf, offset, |data|) == Some((offset + 2 * |data|, Words(data)))
    decreases |data|
  {
    if data != [] {
      HexOfSum(data[..8], data[8..]);
      assert data == data[..8] + data[8..];
      StandsSum(buf, offset, Hex(data[..8]), Hex(data[8..]));
      NumberStands(buf, offset, data[..8], 8);
      StackParsed(buf, offset + 16, data[8..]);
    }
  }

  /** A stack block of a multiple of eight bytes comes back as its words, to the last character. */
  lemma StackRoundTrip(buf: seq<byte>, offset: nat, data: seq<byte>)
    requires Stands(buf, offset, Frame(Ascii("___STACK"), data))
    requires |data| % 8 == 0 && |data| < 0x1_0000_0000_0000_0000
    ensures ParseBinblock(buf, offset)
         == Some((offset + |Frame(Ascii("___STACK"), data)|, Ascii("___STACK"), StackBlock(Words(data))))
    ensures BytesOf(Words(data)) == data
  {
    hide Hex, Words, ParseStack, ParseHeader, Checksum, Stands, BytesOf;
    WordsKeepBytes(data);
    HeaderParsed(buf, offset, Ascii("___STACK"), data);
    StackParsed(buf, offset + 40, data);
  }

  // ----- exception blocks -------------------------------------------------------------------

  /** A name that a stored register keeps: not empty, without NUL, of seven ASCII characters at most. */
  predicate NameOk(name: seq<byte>) {
    0 < |name| < 8 && forall i :: 0 <= i < |name| ==> 0 < name[i] < 128
  }

  lemma {:induction false} UpToZeroOf(name: seq<byte>, rest: seq<byte>)
    requires (forall i :: 0 <= i < |name| ==> name[i] != 0) && rest != [] && rest[0] == 0
    ensures UpToZero(name + rest) == name
  {
    if name != [] {
      UpToZeroOf(name[1..], rest);
      assert (name + rest)[1..] == name[1..] + rest;
      assert name == [name[0]] + name[1..];
    } else {
      assert name + rest == rest;
    }
  }

  lemma NameStands(buf: seq<byte>, offset: nat, stored: seq<byte>, name: seq<byte>)
    requires |stored| == NAME_LEN && Stands(buf, offset, Hex(stored)) && UpToZero(stored) == name && IsAscii(name)
    ensures UnpackName(buf, offset) == Some(name)
  {
    hide Hex, Unhex, Field, Stands;
    HexStands(buf, offset, stored, NAME_LEN);
  }

  lemma RegStands(buf: seq<byte>, offset: nat, stored: seq<byte>, r: Reg)
    requires |stored| == NAME_LEN && UpToZero(stored) == r.name && IsAscii(r.name)
    requires Stands(buf, offset, Hex(stored + Le(r.value, 8)))
    ensures ParseReg(buf, offset) == Some(r)
  {
    hide Hex, UnpackName, UnpackNumber, Le, UpToZero, Stands;
    HexOfSum(stored, Le(r.value, 8));
    StandsSum(buf, offset, Hex(stored), Hex(Le(r.value, 8)));
    NameStands(buf, offset, stored, r.name);
    WordStands(buf, offset + 16, r.value);
  }

  lemma {:induction false} RegsParsed(buf: seq<byte>, offset: nat, regs: seq<Reg>, zeros: nat)
    requires (forall i :: 0 <= i < |regs| ==> NameOk(regs[i].name)) && zeros >= REG_BYTES
    requires Stands(buf, offset, Hex(StoredRegs(regs) + Zeros(zeros)))
    ensures ParseRegs(buf, offset) == Some((offset + 32 * (|regs| + 1), regs))
    decreases |regs|
  {
    hide Hex, Stands, ParseReg, Le, UpToZero;
    if regs == [] {
      EmptyRegParsed(buf, offset, zeros);
    } else {
      var stored, rest := StoredReg(regs[0]), StoredRegs(regs[1..]) + Zeros(zeros);
      assert StoredRegs(regs) + Zeros(zeros) == stored + rest;
      HexOfSum(stored, rest);
      StandsSum(buf, offset, Hex(stored), Hex(rest));
      assert NameOk(regs[0].name);
      NameStored(regs[0].name);
      RegStands(buf, offset, StoredName(regs[0].name), regs[0]);
      RegsParsed(buf, offset + 32, regs[1..], zeros);
      assert regs == [regs[0]] + regs[1..];
    }
  }

  lemma NameStored(name: seq<byte>)
    requires NameOk(name)
    ensures UpToZero(StoredName(name)) == name && IsAscii(name)
  {
    var tail := seq(NAME_LEN - |name|, i => 0 as byte);
    assert StoredName(name) == name + tail;
    UpToZeroOf(name, tail);
  }

  /** Behind the registers the structure is zero: a register without a name. */
  lemma EmptyRegParsed(buf: seq<byte>, offset: nat, zeros: nat)
    requires zeros >= REG_BYTES && Stands(buf, offset, Hex([] + Zeros(zeros)))
    ensures ParseReg(buf, offset) == Some(Reg([], 0)) && offset + 32 <= |buf|
  {
    hide Hex, Stands, ParseReg, UpToZero;
    var name, value, rest := Zeros(NAME_LEN), Le(0, 8), Zeros(zeros - REG_BYTES);
    ZerosAreLe(8);
    assert [] + Zeros(zeros) == (name + value) + rest;
    HexOfSum(name + value, rest);
    StandsSum(buf, offset, Hex(name + value), Hex(rest));
    NoName();
    RegStands(buf, offset, name, Reg([], 0));
    StandsFits(buf, offset, Hex(name + value));
  }

  lemma NoName()
    ensures UpToZero(Zeros(NAME_LEN)) == []
  {}

  lemma StandsFits(buf: seq<byte>, offset: nat, s: seq<byte>)
    requires Stands(buf, offset, s)
    ensures offset + |s| <= |buf|
  {}

  lemma {:induction false} ZerosAreLe(n: nat)
    ensures Le(0, n) == Zeros(n)
  {
    if n > 0 {
      ZerosAreLe(n - 1);
    }
  }

  /** An exception block comes back whole, if it has fewer than 40 registers. */
  lemma ExceptionRoundTrip(buf: seq<byte>, offset: nat, e: Exception)
    requires Stands(buf, offset, Frame(Ascii("__EXCPTN"), StoredException(e)))
    requires |e.regs| < 40 && forall i :: 0 <= i < |e.regs| ==> NameOk(e.regs[i].name)
    ensures ParseBinblock(buf, offset).Some?
    ensures ParseBinblock(buf, offset).value.1 == Ascii("__EXCPTN")
    ensures ParseBinblock(buf, offset).value.2 == ExceptionBlock(e)
  {
    hide Hex, ParseException, ParseHeader, Checksum, StoredException, Stands;
    var data := StoredException(e);
    HeaderParsed(buf, offset, Ascii("__EXCPTN"), data);
    ExceptionParsed(buf, offset + 40, e);
    assert Ascii("__EXCPTN")[0] == Ascii("___STACK")[0];
    assert Ascii("__EXCPTN")[2] != Ascii("___STACK")[2];
  }

  lemma ExceptionParsed(buf: seq<byte>, at: nat, e: Exception)
    requires Stands(buf, at, Hex(StoredException(e)))
    requires |e.regs| < 40 && forall i :: 0 <= i < |e.regs| ==> NameOk(e.regs[i].name)
    ensures ParseException(buf, at) == Some((at + 64 + 32 * (|e.regs| + 1), ExceptionBlock(e)))
  {
    hide Hex, Le, UnpackNumber, ParseRegs, StoredRegs, NameOk, Stands;
    var zeros := REG_BYTES * (MAX_REGS - |e.regs|);
    assert e.regs[..|e.regs|] == e.regs;
    var regs := StoredRegs(e.regs) + Zeros(zeros);
    HexOfSum(Le(e.typ, 8), Le(e.esr, 8) + (Le(e.spsr, 8) + (Le(e.far, 8) + regs)));
    HexOfSum(Le(e.esr, 8), Le(e.spsr, 8) + (Le(e.far, 8) + regs));
    HexOfSum(Le(e.spsr, 8), Le(e.far, 8) + regs);
    HexOfSum(Le(e.far, 8), regs);
    StandsSum(buf, at, Hex(Le(e.typ, 8)), Hex(Le(e.esr, 8) + (Le(e.spsr, 8) + (Le(e.far, 8) + regs))));
    StandsSum(buf, at + 16, Hex(Le(e.esr, 8)), Hex(Le(e.spsr, 8) + (Le(e.far, 8) + regs)));
    StandsSum(buf, at + 32, Hex(Le(e.spsr, 8)), Hex(Le(e.far, 8) + regs));
    StandsSum(buf, at + 48, Hex(Le(e.far, 8)), Hex(regs));
    WordStands(buf, at, e.typ);
    WordStands(buf, at + 16, e.esr);
    WordStands(buf, at + 32, e.spsr);
    WordStands(buf, at + 48, e.far);
    RegsParsed(buf, at + 64, e.regs, zeros);
  }
}
