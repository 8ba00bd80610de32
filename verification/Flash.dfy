/** drivers/atmega8a/atmega8a.c: programming and reading the flash of an AVR over SPI. */
module Flash {
  import Bits

  const PAGES: nat := 128
  const PAGE_BYTES: nat := 64
  const FLASH_BYTES: nat := 8192

  const ERR_OK: int := 0
  const ERR_INVAL_ARG: int := -1
  const ERR_FATAL: int := -4

  // ----- the chip ---------------------------------------------------------------------------

  /** Flash and page buffer of the chip, and how many commands it is still busy for after a page
      write. Flash already has the new page then, but nothing can be read. */
  datatype Chip = Chip(flash: seq<bv8>, buffer: seq<bv8>, busy: nat)

  /** The four bytes of a serial programming command. */
  datatype Cmd = Cmd(b0: nat, b1: nat, b2: nat, data: bv8)

  predicate ChipOk(c: Chip) { |c.flash| == FLASH_BYTES && |c.buffer| == PAGE_BYTES }

  /** Programming clears bits; it does not set them. */
  function Programmed(flash: seq<bv8>, base: nat, data: seq<bv8>): (r: seq<bv8>)
    ensures |r| == |flash|
  {
    seq(|flash|, i requires 0 <= i < |flash| =>
      if base <= i < base + |data| then flash[i] & data[i - base] else flash[i])
  }

  function Blank(): (r: seq<bv8>)
    ensures |r| == PAGE_BYTES
  {
    seq(PAGE_BYTES, i => 0xff)
  }

  /** The command that reads the low or high byte of a word. */
  function ReadCmd(word: nat, high: nat): Cmd { Cmd(0x20 + high * 8, word / 256 % 16, word % 256, 0) }

  /** Addresses wrap around at the end of the flash. */
  function Cyclic(at: nat): (r: nat)
    ensures r < FLASH_BYTES
  {
    at % FLASH_BYTES
  }

  /** The high byte of a word is addressed by bit 3 of the command. */
  function HighBit(c: Cmd): nat { c.b0 / 8 % 2 }

  function LoadAddress(c: Cmd): nat { c.b2 % 32 * 2 + HighBit(c) }

  function ReadAddress(c: Cmd): nat { (c.b1 % 16 * 256 + c.b2 % 256) * 2 + HighBit(c) }

  function WritePage(c: Cmd): nat { c.b1 % 16 * 8 + c.b2 % 256 / 32 }

  /** One command: the chip after it and the fourth byte of the answer. A busy chip answers 0xff
      and does nothing; `delay` is how long a page write keeps it busy. */
  function Exec(c: Chip, cmd: Cmd, delay: nat): (Chip, bv8)
    requires ChipOk(c)
  {
    if c.busy > 0 then (c.(busy := c.busy - 1), 0xff)
    else if cmd.b0 == 0x40 || cmd.b0 == 0x48 then (c.(buffer := c.buffer[LoadAddress(cmd) := cmd.data]), 0)
    else if cmd.b0 == 0x20 || cmd.b0 == 0x28 then (c, c.flash[ReadAddress(cmd)])
    else if cmd.b0 == 0x4c then
      (Chip(Programmed(c.flash, WritePage(cmd) * PAGE_BYTES, c.buffer), Blank(), delay), 0)
    else (c, 0)
  }

  predicate Executed(c: Chip, cmd: Cmd, delay: nat, after: Chip, answer: bv8)
    requires ChipOk(c)
  {
    (after, answer) == Exec(c, cmd, delay)
  }

  // ----- the programmer ---------------------------------------------------------------------

  /** `lost` says that some transfer has failed, `slow` that the chip was once busy for more than the 63
      commands that the wait of a page write can spend on it. */
  class Programmer {
    var chip: Chip
    ghost var lost: bool
    ghost var slow: bool

    constructor (chip: Chip)
      ensures this.chip == chip && !lost && slow == (chip.busy > 63)
    {
      this.chip := chip;
      lost, slow := false, chip.busy > 63;
    }

    /** atmega8a_cmd: a transfer may fail, and then the chip saw nothing. */
    method Command(cmd: Cmd) returns (err: int, answer: bv8)
      requires ChipOk(chip)
      modifies this
      ensures ChipOk(chip) && (err != ERR_OK ==> chip == old(chip))
      ensures lost == (old(lost) || err != ERR_OK) && slow == (old(slow) || chip.busy > 63)
      ensures err == ERR_OK ==> exists delay: nat :: Executed(old(chip), cmd, delay, chip, answer)
    {
      var time: int := *;
      var delay: nat := if time < 0 then 0 else time;
      var sent: bool := *;
      if !sent {
        lost, slow := true, slow || chip.busy > 63;
        return ERR_FATAL, 0;
      }
      ghost var before := chip;
      var (next, a) := Exec(chip, cmd, delay);
      chip := next;
      slow := slow || chip.busy > 63;
      assert Executed(before, cmd, delay, chip, a);
      return ERR_OK, a;
    }

    /** atmega8a_flash_page_fill. */
    method PageFill(src: seq<bv8>) returns (err: int)
      requires ChipOk(chip) && chip.busy == 0 && |src| == PAGE_BYTES
      modifies this
      ensures err == ERR_OK || err == ERR_FATAL
      ensures ChipOk(chip) && chip.busy == 0 && chip.flash == old(chip.flash)
      ensures err == ERR_OK ==> chip.buffer == src
      ensures slow == old(slow) && lost == (old(lost) || err != ERR_OK)
    {
      for wordaddr := 0 to 32
        invariant slow == old(slow) && lost == old(lost)
        invariant ChipOk(chip) && chip.busy == 0 && chip.flash == old(chip.flash)
        invariant chip.buffer[..2 * wordaddr] == src[..2 * wordaddr]
      {
        var e := LoadByte(0x40, wordaddr, src[2 * wordaddr]);
        if e != ERR_OK {
          return ERR_FATAL;
        }
        e := LoadByte(0x48, wordaddr, src[2 * wordaddr + 1]);
        if e != ERR_OK {
          return ERR_FATAL;
        }
        PrefixGrows(chip.buffer, src, 2 * wordaddr);
      }
      assert chip.buffer == chip.buffer[..64] && src == src[..64];
      err := ERR_OK;
    }

    /** The command that loads the low (0x40) or high (0x48) byte of a word of the page buffer. */
    method LoadByte(command: nat, wordaddr: nat, data: bv8) returns (err: int)
      requires ChipOk(chip) && chip.busy == 0 && wordaddr < 32 && (command == 0x40 || command == 0x48)
      modifies this
      ensures ChipOk(chip) && chip.busy == 0 && chip.flash == old(chip.flash)
      ensures slow == old(slow) && lost == (old(lost) || err != ERR_OK)
      ensures err != ERR_OK ==> chip == old(chip)
      ensures err == ERR_OK ==>
        chip.buffer == old(chip.buffer)[2 * wordaddr + (if command == 0x48 then 1 else 0) := data]
    {
      hide Executed, LoadAddress;
      var answer;
      var cmd := Cmd(command, 0x00, wordaddr % 32, data);
      err, answer := Command(cmd);
      if err == ERR_OK {
        LoadIs(old(chip), cmd, chip, answer);
        LoadAddressIs(command, wordaddr, data);
      }
    }

    /** atmega8a_flash_page_write: the page is sent, and then, unless the byte to check is 0xff, it is
        read until it shows, which the answer of a busy chip cannot be mistaken for. */
    method PageWrite(page: nat, checkValue: bv8, checkAddr: nat) returns (err: int)
      requires ChipOk(chip) && chip.busy == 0
      modifies this
      ensures ChipOk(chip) && (err == ERR_OK || err == ERR_INVAL_ARG || err == ERR_FATAL)
      ensures err == ERR_INVAL_ARG <==> page >= PAGES
      ensures page >= PAGES || (checkValue != 0xff && checkAddr > FLASH_BYTES) ==> err != ERR_OK && chip == old(chip)
      ensures err == ERR_OK ==> chip.flash == Programmed(old(chip.flash), page * PAGE_BYTES, old(chip.buffer))
      ensures err == ERR_OK && checkValue != 0xff ==>
        chip.busy == 0 && chip.flash[Cyclic(page * PAGE_BYTES + checkAddr)] == checkValue
      ensures err == ERR_FATAL ==>
        chip.flash == old(chip.flash)
        || chip.flash == Programmed(old(chip.flash), page * PAGE_BYTES, old(chip.buffer))
      ensures (old(lost) ==> lost) && (old(slow) ==> slow)
      ensures page < PAGES && checkValue != 0xff && checkAddr <= FLASH_BYTES && !old(lost) && !old(slow) ==>
        var programmed := Programmed(old(chip.flash), page * PAGE_BYTES, old(chip.buffer));
        err == ERR_OK <==> !lost && !slow && programmed[Cyclic(page * PAGE_BYTES + checkAddr)] == checkValue
      ensures page < PAGES && checkValue == 0xff && !old(lost) ==> (err == ERR_OK <==> !lost)
    {
      if page >= PAGES {
        return ERR_INVAL_ARG;
      }
      if checkValue != 0xff && checkAddr > FLASH_BYTES {
        return ERR_FATAL;
      }
      var e := SendPage(page);
      if e != ERR_OK {
        return ERR_FATAL;
      }
      err := ERR_OK;
      if checkValue != 0xff {
        err := AwaitByte(page * PAGE_BYTES + checkAddr, checkValue);
      }
    }

    /** The write command of a page. */
    method SendPage(page: nat) returns (err: int)
      requires ChipOk(chip) && chip.busy == 0 && page < PAGES
      modifies this
      ensures ChipOk(chip) && (err != ERR_OK ==> chip == old(chip))
      ensures lost == (old(lost) || err != ERR_OK) && slow == (old(slow) || chip.busy > 63)
      ensures err == ERR_OK ==> chip.flash == Programmed(old(chip.flash), page * PAGE_BYTES, old(chip.buffer))
    {
      hide Programmed, WritePage;
      var write := Cmd(0x4c, page / 8 % 16, page % 8 * 32, 0);
      WritePageIs(page);
      var answer;
      err, answer := Command(write);
    }

    /** Up to 64 reads of a byte, until it has the value. */
    method AwaitByte(at: nat, value: bv8) returns (err: int)
      requires ChipOk(chip) && value != 0xff && at < 2 * FLASH_BYTES && (chip.busy > 63 ==> slow)
      modifies this
      ensures ChipOk(chip) && chip.flash == old(chip.flash) && (err == ERR_OK || err == ERR_FATAL)
      ensures err == ERR_OK ==> chip.busy == 0 && chip.flash[Cyclic(at)] == value
      ensures slow == old(slow) && (old(lost) ==> lost)
      ensures !old(lost) ==> (err == ERR_OK <==> !lost && old(chip.busy) < 64 && old(chip.flash)[Cyclic(at)] == value)
    {
      var word := at / 2;
      var read := ReadCmd(word, at % 2);
      ReadAddressIs(word, at % 2);
      assert 2 * word + at % 2 == at;
      for i := 0 to 64
        invariant ChipOk(chip) && chip.flash == old(chip.flash) && lost == old(lost) && slow == old(slow)
        invariant chip.busy == (if i < old(chip.busy) then old(chip.busy) - i else 0)
        invariant i > old(chip.busy) ==> chip.flash[Cyclic(at)] != value
      {
        var e, answer := Command(read);
        if e != ERR_OK {
          return ERR_FATAL;
        }
        if answer == value {
          return ERR_OK;
        }
      }
      err := ERR_FATAL;
    }

    /** The body of the loop of atmega8a_write_flash. */
    method WriteOnePage(data: seq<bv8>, page: nat) returns (err: int)
      requires ChipOk(chip) && chip.busy == 0 && page < PAGES && |data| == PAGE_BYTES
      modifies this
      ensures ChipOk(chip) && (err == ERR_OK || err == ERR_FATAL) && (err == ERR_OK ==> chip.busy == 0)
      ensures err == ERR_OK ==> chip.flash == Programmed(old(chip.flash), page * PAGE_BYTES, data)
      ensures err == ERR_FATAL ==>
        chip.flash == old(chip.flash) || chip.flash == Programmed(old(chip.flash), page * PAGE_BYTES, data)
      ensures (old(lost) ==> lost) && (old(slow) ==> slow)
      ensures !old(lost) && !old(slow) ==>
        (err == ERR_OK <==> !lost && !slow && Shows(old(chip.flash), page * PAGE_BYTES, data))
    {
      hide Programmed, Shows, Cyclic;
      err := ERR_OK;
      var checkAddr := FindFirstNot(data, 0xff);
      if checkAddr != -1 {
        FirstShows(chip.flash, page, data, checkAddr);
        err := PageFill(data);
        if err != ERR_OK {
          return ERR_FATAL;
        }
        err := PageWrite(page, data[checkAddr], checkAddr);
        if err != ERR_OK {
          return ERR_FATAL;
        }
      } else {
        BlankShows(chip.flash, page * PAGE_BYTES, data);
        ProgrammedBlank(chip.flash, page * PAGE_BYTES, data);
      }
    }

    /** atmega8a_write_flash. */
    method WriteFlash(buf: seq<bv8>, fromPage: nat) returns (err: int)
      requires ChipOk(chip) && chip.busy == 0
      modifies this
      ensures ChipOk(chip) && (err == ERR_OK || err == ERR_INVAL_ARG || err == ERR_FATAL)
      ensures err == ERR_INVAL_ARG <==> !Accepted(fromPage, |buf|)
      ensures err == ERR_INVAL_ARG ==> chip == old(chip)
      ensures err == ERR_OK ==> chip.busy == 0 && chip.flash == Programmed(old(chip.flash), fromPage * PAGE_BYTES, buf)
      ensures err == ERR_FATAL ==>
        exists n: nat :: PartOf(buf, n, old(chip.flash), fromPage * PAGE_BYTES, chip.flash)
      ensures !old(lost) && !old(slow) ==>
        (err == ERR_OK <==>
          Accepted(fromPage, |buf|) && !lost && !slow && AllShow(old(chip.flash), fromPage * PAGE_BYTES, buf))
    {
      hide Programmed, PartOf, Shows;
      var numPages := |buf| / PAGE_BYTES;
      var endPage := fromPage + numPages;
      if fromPage >= PAGES || endPage >= PAGES || |buf| % PAGE_BYTES != 0 {
        return ERR_INVAL_ARG;
      }
      var page, src := fromPage, 0;
      ProgrammedNone(chip.flash, fromPage * PAGE_BYTES);
      assert buf[..0] == [];
      while page < endPage
        invariant fromPage <= page <= endPage && src == (page - fromPage) * PAGE_BYTES
        invariant ChipOk(chip) && chip.busy == 0
        invariant chip.flash == Programmed(old(chip.flash), fromPage * PAGE_BYTES, buf[..src])
        invariant (old(lost) ==> lost) && (old(slow) ==> slow)
        invariant !old(lost) && !old(slow) ==> !lost && !slow
        invariant !old(lost) && !old(slow) ==> ShowUpTo(old(chip.flash), fromPage * PAGE_BYTES, buf, page - fromPage)
      {
        var data := buf[src..src + PAGE_BYTES];
        ProgrammedMore(old(chip.flash), fromPage * PAGE_BYTES, buf, src, PAGE_BYTES);
        StillShows(old(chip.flash), fromPage * PAGE_BYTES, buf, src, data);
        OnePageOf(buf, page - fromPage);
        var e := WriteOnePage(data, page);
        if e != ERR_OK {
          PartWritten(buf, src, old(chip.flash), fromPage * PAGE_BYTES, chip.flash);
          return ERR_FATAL;
        }
        page := page + 1;
        src := src + PAGE_BYTES;
      }
      assert buf[..src] == buf;
      err := ERR_OK;
    }

    /** atmega8a_read_flash_memory. */
    method ReadFlash(sz: nat, byteAddr: nat) returns (err: int, buf: seq<bv8>)
      requires ChipOk(chip) && chip.busy == 0
      modifies this
      ensures chip == old(chip) && (err == ERR_OK || err == ERR_FATAL)
      ensures lost == (old(lost) || err != ERR_OK)
      ensures err == ERR_OK ==>
        |buf| == sz && forall k :: 0 <= k < sz ==> buf[k] == chip.flash[Cyclic(byteAddr + k)]
    {
      hide Cyclic, ReadAddress, ReadCmd;
      buf := [];
      var wordaddr := byteAddr / 2 % 0x1_0000;
      var high := byteAddr % 2;
      StartAddress(byteAddr);
      while |buf| < sz
        invariant chip == old(chip) && lost == old(lost) && |buf| <= sz && 0 <= wordaddr < 0x1_0000 && 0 <= high < 2
        invariant Cyclic(2 * wordaddr + high) == Cyclic(byteAddr + |buf|)
        invariant forall k :: 0 <= k < |buf| ==> buf[k] == chip.flash[Cyclic(byteAddr + k)]
      {
        var read := ReadCmd(wordaddr, high);
        ReadAddressIs(wordaddr, high);
        AddressSteps(wordaddr, high, byteAddr + |buf|);
        var e, answer := Command(read);
        if e != ERR_OK {
          return ERR_FATAL, buf;
        }
        buf := buf + [answer];
        wordaddr := (wordaddr + high) % 0x1_0000;
        high := 1 - high;
      }
      err := ERR_OK;
    }
  }

  /** mem_find_first_not. */
  method FindFirstNot(buf: seq<bv8>, fill: bv8) returns (r: int)
    ensures -1 <= r < |buf|
    ensures r >= 0 ==> buf[r] != fill && forall k :: 0 <= k < r ==> buf[k] == fill
    ensures r == -1 ==> forall k :: 0 <= k < |buf| ==> buf[k] == fill
  {
    for i := 0 to |buf|
      invariant forall k :: 0 <= k < i ==> buf[k] == fill
    {
      if buf[i] != fill {
        return i;
      }
    }
    r := -1;
  }

  // ----- what programming comes to ----------------------------------------------------------

  /** atmega8a_write_flash_check. */
  predicate Accepted(fromPage: nat, size: nat) {
    fromPage < PAGES && fromPage + size / PAGE_BYTES < PAGES && size % PAGE_BYTES == 0
  }

  /** Of the writes of whole pages that fit into the flash, exactly those that end in its last page
      are refused. */
  lemma AcceptedExact(fromPage: nat, size: nat)
    requires size % PAGE_BYTES == 0 && fromPage < PAGES && fromPage * PAGE_BYTES + size <= FLASH_BYTES
    ensures Accepted(fromPage, size) <==> fromPage * PAGE_BYTES + size < FLASH_BYTES
  {}

  /** The first byte of a page that is not 0xff, if there is one, can be read back after programming: the
      flash has every bit of it set. This is the byte that the code waits for. */
  predicate Shows(flash: seq<bv8>, base: nat, data: seq<bv8>) {
    forall i :: 0 <= i < |data| && base + i < |flash|
                && data[i] != 0xff && (forall k :: 0 <= k < i ==> data[k] == 0xff) ==>
      flash[base + i] & data[i] == data[i]
  }

  /** So do the first n pages. */
  predicate ShowUpTo(flash: seq<bv8>, base: nat, buf: seq<bv8>, n: nat) {
    forall p {:trigger PageOf(buf, p)} :: 0 <= p < n ==> Shows(flash, base + p * PAGE_BYTES, PageOf(buf, p))
  }

  predicate AllShow(flash: seq<bv8>, base: nat, buf: seq<bv8>) {
    ShowUpTo(flash, base, buf, |buf| / PAGE_BYTES)
  }

  function PageOf(buf: seq<bv8>, p: nat): seq<bv8> {
    if (p + 1) * PAGE_BYTES <= |buf| then buf[p * PAGE_BYTES..(p + 1) * PAGE_BYTES] else []
  }

  /** A load command changes one byte of the page buffer. */
  lemma LoadIs(c: Chip, cmd: Cmd, after: Chip, answer: bv8)
    requires ChipOk(c) && c.busy == 0 && (cmd.b0 == 0x40 || cmd.b0 == 0x48)
    requires exists delay: nat :: Executed(c, cmd, delay, after, answer)
    ensures LoadAddress(cmd) < PAGE_BYTES && after == c.(buffer := c.buffer[LoadAddress(cmd) := cmd.data])
  {
    hide Programmed, WritePage, ReadAddress;
  }

  lemma LoadAddressIs(command: nat, wordaddr: nat, data: bv8)
    requires wordaddr < 32 && (command == 0x40 || command == 0x48)
    ensures LoadAddress(Cmd(command, 0x00, wordaddr % 32, data)) == 2 * wordaddr + (if command == 0x48 then 1 else 0)
  {}

  lemma ShowsIs(flash: seq<bv8>, base: nat, data: seq<bv8>, at: nat)
    requires at < |data| && base + at < |flash|
    requires data[at] != 0xff && forall k :: 0 <= k < at ==> data[k] == 0xff
    ensures Shows(flash, base, data) <==> flash[base + at] & data[at] == data[at]
  {
    forall i | 0 <= i < |data| && data[i] != 0xff && forall k :: 0 <= k < i ==> data[k] == 0xff
      ensures i == at
    {}
  }

  /** The byte that is read back shows exactly when the page can show it. */
  lemma FirstShows(flash: seq<bv8>, page: nat, data: seq<bv8>, at: nat)
    requires |flash| == FLASH_BYTES && page < PAGES && |data| == PAGE_BYTES && at < PAGE_BYTES
    requires data[at] != 0xff && forall k :: 0 <= k < at ==> data[k] == 0xff
    ensures Programmed(flash, page * PAGE_BYTES, data)[Cyclic(page * PAGE_BYTES + at)] == data[at]
      <==> Shows(flash, page * PAGE_BYTES, data)
  {
    hide Shows;
    Bits.DivIs(page * PAGE_BYTES + at, FLASH_BYTES, 0, page * PAGE_BYTES + at);
    ShowsIs(flash, page * PAGE_BYTES, data, at);
  }

  lemma BlankShows(flash: seq<bv8>, base: nat, data: seq<bv8>)
    requires forall k :: 0 <= k < |data| ==> data[k] == 0xff
    ensures Shows(flash, base, data)
  {}

  /** Erased flash shows everything: there a write whose transfers are all sent, to a chip that is never busy
      for more than 63 commands, succeeds. */
  lemma ErasedShows(flash: seq<bv8>, base: nat, buf: seq<bv8>)
    requires forall i :: base <= i < base + |buf| && i < |flash| ==> flash[i] == 0xff
    ensures AllShow(flash, base, buf)
  {
    forall p | 0 <= p < |buf| / PAGE_BYTES
      ensures Shows(flash, base + p * PAGE_BYTES, PageOf(buf, p))
    {
      var data := PageOf(buf, p);
      forall i | 0 <= i < |data| && base + p * PAGE_BYTES + i < |flash|
        ensures flash[base + p * PAGE_BYTES + i] & data[i] == data[i]
      {
        AndFf(data[i]);
      }
    }
  }

  lemma OnePageOf(buf: seq<bv8>, p: nat)
    requires (p + 1) * PAGE_BYTES <= |buf|
    ensures PageOf(buf, p) == buf[p * PAGE_BYTES..p * PAGE_BYTES + PAGE_BYTES] && p < |buf| / PAGE_BYTES
  {}

  /** Programming the pages before does not change what a page can show. */
  lemma StillShows(flash: seq<bv8>, base: nat, buf: seq<bv8>, src: nat, data: seq<bv8>)
    requires src <= |buf|
    ensures Shows(Programmed(flash, base, buf[..src]), base + src, data) == Shows(flash, base + src, data)
  {
    var after := Programmed(flash, base, buf[..src]);
    assert forall i :: base + src <= i < |flash| ==> after[i] == flash[i];
  }

  lemma PartWritten(buf: seq<bv8>, src: nat, before: seq<bv8>, base: nat, after: seq<bv8>)
    requires src + PAGE_BYTES <= |buf|
    requires after == Programmed(before, base, buf[..src]) || after == Programmed(before, base, buf[..src + PAGE_BYTES])
    ensures exists n: nat :: PartOf(buf, n, before, base, after)
  {
    assert PartOf(buf, src, before, base, after) || PartOf(buf, src + PAGE_BYTES, before, base, after);
  }

  lemma PrefixGrows(a: seq<bv8>, b: seq<bv8>, n: nat)
    requires n + 2 <= |a| && n + 2 <= |b| && a[..n] == b[..n] && a[n] == b[n] && a[n + 1] == b[n + 1]
    ensures a[..n + 2] == b[..n + 2]
  {
    assert a[..n + 2] == a[..n] + [a[n], a[n + 1]] && b[..n + 2] == b[..n] + [b[n], b[n + 1]];
  }

  /** A word address cut to 12 bits reads the flash modulo its size. */
  lemma ReadAddressIs(word: nat, high: nat)
    requires word < 0x1_0000 && high < 2
    ensures ReadAddress(ReadCmd(word, high)) == Cyclic(2 * word + high)
    ensures ReadCmd(word, high).b0 == 0x20 || ReadCmd(word, high).b0 == 0x28
  {
    var page, rest := word / 256, word % 256;
    Bits.DivIs(2 * word + high, FLASH_BYTES, page / 16, page % 16 * 512 + rest * 2 + high);
  }

  lemma WritePageIs(page: nat)
    requires page < PAGES
    ensures WritePage(Cmd(0x4c, page / 8 % 16, page % 8 * 32, 0)) == page
  {}

  /** The next byte is one further, in the 16-bit word address too. */
  lemma AddressSteps(word: nat, high: nat, at: nat)
    requires word < 0x1_0000 && high < 2 && Cyclic(2 * word + high) == Cyclic(at)
    ensures Cyclic(2 * ((word + high) % 0x1_0000) + (1 - high)) == Cyclic(at + 1)
  {
    NextModulo(2 * word + high, at);
    if word + high == 0x1_0000 {
      Bits.DivIs(2 * word + high + 1, FLASH_BYTES, 16, 0);
    } else {
      assert (word + high) % 0x1_0000 == word + high;
    }
  }

  /** The word address of the start, cut to 16 bits. */
  lemma StartAddress(at: nat)
    ensures 0 <= at / 2 % 0x1_0000 < 0x1_0000 && Cyclic(2 * (at / 2 % 0x1_0000) + at % 2) == Cyclic(at)
  {
    var k, w := at / 2 / 0x1_0000, at / 2 % 0x1_0000;
    assert at == 2 * (0x1_0000 * k + w) + at % 2;
    var r := (2 * w + at % 2) % FLASH_BYTES;
    Bits.DivIs(at, FLASH_BYTES, 16 * k + (2 * w + at % 2) / FLASH_BYTES, r);
  }

  lemma NextModulo(a: nat, b: nat)
    requires a % FLASH_BYTES == b % FLASH_BYTES
    ensures (a + 1) % FLASH_BYTES == (b + 1) % FLASH_BYTES
  {
    var r := a % FLASH_BYTES;
    if r + 1 == FLASH_BYTES {
      Bits.DivIs(a + 1, FLASH_BYTES, a / FLASH_BYTES + 1, 0);
      Bits.DivIs(b + 1, FLASH_BYTES, b / FLASH_BYTES + 1, 0);
    } else {
      Bits.DivIs(a + 1, FLASH_BYTES, a / FLASH_BYTES, r + 1);
      Bits.DivIs(b + 1, FLASH_BYTES, b / FLASH_BYTES, r + 1);
    }
  }

  /** The first n bytes have been programmed. */
  predicate PartOf(buf: seq<bv8>, n: nat, before: seq<bv8>, base: nat, after: seq<bv8>) {
    n <= |buf| && after == Programmed(before, base, buf[..n])
  }

  lemma ProgrammedNone(flash: seq<bv8>, base: nat)
    ensures Programmed(flash, base, []) == flash
  {}

  /** Programming 0xff changes nothing, which is why such a page may be skipped. */
  lemma ProgrammedBlank(flash: seq<bv8>, base: nat, data: seq<bv8>)
    requires forall k :: 0 <= k < |data| ==> data[k] == 0xff
    ensures Programmed(flash, base, data) == flash
  {
    forall i | 0 <= i < |flash| ensures Programmed(flash, base, data)[i] == flash[i] {
      if base <= i < base + |data| {
        assert data[i - base] == 0xff;
        AndFf(flash[i]);
      }
    }
  }

  lemma AndFf(x: bv8)
    ensures x & 0xff == x && 0xff & x == x
  {}

  /** Programming page by page is programming the whole. */
  lemma ProgrammedMore(flash: seq<bv8>, base: nat, buf: seq<bv8>, src: nat, n: nat)
    requires src + n <= |buf|
    ensures Programmed(Programmed(flash, base, buf[..src]), base + src, buf[src..src + n])
         == Programmed(flash, base, buf[..src + n])
  {}

  /** On erased flash the buffer is there afterwards, and all else is as before. */
  lemma ErasedHoldsBuffer(flash: seq<bv8>, base: nat, data: seq<bv8>)
    requires base + |data| <= |flash|
    requires forall i :: base <= i < base + |data| ==> flash[i] == 0xff
    ensures Programmed(flash, base, data) == flash[..base] + data + flash[base + |data|..]
  {
    var r := flash[..base] + data + flash[base + |data|..];
    forall i | 0 <= i < |flash| ensures Programmed(flash, base, data)[i] == r[i] {
      if base <= i < base + |data| {
        AndFf(data[i - base]);
      }
    }
  }
}
