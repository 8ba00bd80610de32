/** What the two DMA channels, the SPI port and the CPU do with the program that tft_lcd_print_data
    builds: a small-step semantics of control blocks, and every interleaving of it. */
module DmaRun {
  import opened DmaProgram

  // ----- the machine ------------------------------------------------------------------------

  /** A channel: idle, with the address that starting it would load, or inside a block. */
  datatype Channel = Idle(conblk: Addr) | Run(cb: nat, pos: nat)

  /** The SPI port: TA, DMAEN and the control bits below TA (chip select, polarity, phase), DLEN, the
      bytes shifted since TA was set, the levels of both FIFOs. */
  datatype Spi = Spi(ta: bool, dmaen: bool, mode: nat, dlen: nat, shifted: nat, tx: nat, rx: nat)

  /** A write to the SPI FIFO: where it was read from, and whether TA was set. */
  datatype Push = Push(src: Addr, ta: bool)

  /** A word that a channel copied to memory: word `srcWord` behind src to word `dstWord` behind dst. */
  datatype Store = Store(dst: Addr, dstWord: nat, src: Addr, srcWord: nat)

  /** saved0 and saved1 are the copies to memory made by the two channels. */
  datatype Machine = Machine(
    started: nat, c0: Channel, c1: Channel, spi: Spi, log: seq<Push>,
    saved0: seq<Store>, saved1: seq<Store>, fault: bool)

  // How a channel reads a transfer information word (BCM2835 ARM Peripherals, page 50).
  predicate WaitsForWrite(ti: nat) { ti / 8 % 2 == 1 }
  predicate DstInc(ti: nat) { ti / 0x10 % 2 == 1 }
  predicate DstDreq(ti: nat) { ti / 0x40 % 2 == 1 }
  predicate DstIgnore(ti: nat) { ti / 0x80 % 2 == 1 }
  predicate SrcInc(ti: nat) { ti / 0x100 % 2 == 1 }
  predicate SrcDreq(ti: nat) { ti / 0x400 % 2 == 1 }
  predicate SrcIgnore(ti: nat) { ti / 0x800 % 2 == 1 }
  function Peripheral(ti: nat): nat { ti / 0x1_0000 % 32 }

  /** Who paces a block: nobody, room in the transmit FIFO (peripheral 6 gates the writes), data in the
      receive FIFO (peripheral 7 gates the reads), or something the port does not drive. */
  datatype Pace = Free | OnRoom | OnData | OnOther

  function PaceOf(ti: nat): Pace {
    if !DstDreq(ti) && !SrcDreq(ti) then Free
    else if DstDreq(ti) && !SrcDreq(ti) && Peripheral(ti) == 6 then OnRoom
    else if SrcDreq(ti) && !DstDreq(ti) && Peripheral(ti) == 7 then OnData
    else OnOther
  }

  /** The block reads and writes, and each write lands before the next block begins; a write that is not
      waited for has no place in this machine. */
  predicate ReadsAndWrites(ti: nat) { !SrcIgnore(ti) && !DstIgnore(ti) && WaitsForWrite(ti) }

  /** A block that addresses the FIFO stays on it: transfers are 32-bit words, and an incrementing address
      leaves it with the second word. */
  predicate StaysOnFifo(inc: bool, pos: nat) { !inc || pos < 4 }

  /** The byte of the frame that is read `pos` bytes into a block that begins at `offset`; without
      increment the first word is read again and again. */
  function ByteRead(ti: nat, offset: nat, pos: nat): nat {
    if SrcInc(ti) then offset + pos else offset + pos % 4
  }

  /** The words a block copies to memory. */
  function Copied(b: ControlBlock): seq<Store> {
    seq(b.len / 4, k requires 0 <= k =>
      Store(b.dst, if DstInc(b.ti) then k else 0, b.src, if SrcInc(b.ti) then k else 0))
  }

  /** Who moves: the CPU (writing ACTIVE to the channels in turn), a channel, or the serial line. */
  datatype Who = Cpu | Ch0 | Ch1 | Wire

  function Advance(p: Program, cb: nat): Channel {
    if cb < |p.cbs| && p.cbs[cb].next.Cb? then Run(p.cbs[cb].next.index, 0) else Idle(Null)
  }

  function Started(c: Channel): Channel {
    if c.Idle? && c.conblk.Cb? then Run(c.conblk.index, 0) else c
  }

  /** Channel 0 or 1 has done `amount` more bytes of its block. */
  function Moved(p: Program, c: Channel, amount: nat): Channel
    requires c.Run?
  {
    if c.cb < |p.cbs| && c.pos + amount < p.cbs[c.cb].len then Run(c.cb, c.pos + amount) else Advance(p, c.cb)
  }

  /** A paced write of channel 0 to the FIFO register. With TA clear the port takes the word as
      length and control bits; with TA set it takes a data byte. Anything else is a fault. */
  function PushFifo(p: Program, m: Machine, cb: nat, pos: nat): Machine
    requires m.c0 == Run(cb, pos) && cb < |p.cbs|
  {
    var b := p.cbs[cb];
    if !ReadsAndWrites(b.ti) || b.dst != SpiFifo || !StaysOnFifo(DstInc(b.ti), pos) then m.(fault := true)
    else
      match b.src
      case Header(i) =>
        if m.spi.ta || |p.headers| <= i || b.len != 4 then m.(fault := true)
        else
          var w := p.headers[i];
          m.(c0 := Moved(p, m.c0, 4),
             spi := m.spi.(ta := w / 0x80 % 2 == 1, mode := w % 0x80, dlen := w / 0x1_0000, shifted := 0),
             log := m.log + [Push(Header(i), false)])
      case Frame(offset) =>
        if !m.spi.ta then m.(fault := true)
        else m.(c0 := Moved(p, m.c0, 1), spi := m.spi.(tx := m.spi.tx + 1),
                log := m.log + [Push(Frame(ByteRead(b.ti, offset, pos)), true)])
      case _ => m.(fault := true)
  }

  /** A paced read of channel 1 from the FIFO register; the byte is dropped. */
  function PopFifo(p: Program, m: Machine, cb: nat, pos: nat): Machine
    requires m.c1 == Run(cb, pos) && cb < |p.cbs| && m.spi.rx > 0
  {
    var b := p.cbs[cb];
    if b.src == SpiFifo && !SrcIgnore(b.ti) && StaysOnFifo(SrcInc(b.ti), pos) && DstIgnore(b.ti)
    then m.(c1 := Moved(p, m.c1, 1), spi := m.spi.(rx := m.spi.rx - 1))
    else m.(fault := true)
  }

  /** An unpaced copy of channel 0. The program only lets it save its own state. */
  function Copy0(p: Program, m: Machine, cb: nat): Machine
    requires cb < |p.cbs|
  {
    var b := p.cbs[cb];
    if ReadsAndWrites(b.ti) && b.src == DmaCs0 && b.dst.TxEndmark?
    then m.(c0 := Advance(p, cb), saved0 := m.saved0 + Copied(b))
    else m.(fault := true)
  }

  /** An unpaced copy of channel 1: one word to a register, or its own state to memory. The control
      block address of channel 0 may only be written while that channel is idle. */
  function Copy1(p: Program, m: Machine, cb: nat): Machine
    requires cb < |p.cbs|
  {
    var b, next := p.cbs[cb], m.(c1 := Advance(p, cb));
    if !ReadsAndWrites(b.ti) || (b.len != 4 && !b.dst.RxEndmark?) then m.(fault := true)
    else
      match b.dst
      case DmaConblkAd0 =>
        if m.c0.Idle? && b.src.NextTx? && b.src.task < |p.nextTx|
        then next.(c0 := Idle(p.nextTx[b.src.task])) else m.(fault := true)
      case SpiCs =>
        if b.src == SpiStopWord
        then next.(spi := m.spi.(ta := SPI_STOP / 0x80 % 2 == 1, dmaen := SPI_STOP / 0x100 % 2 == 1,
                                 mode := SPI_STOP % 0x80))
        else m.(fault := true)
      case DmaCs0 =>
        if b.src == CsStartWord then (if DMA_CS_START % 2 == 1 then next.(c0 := Started(m.c0)) else next)
        else m.(fault := true)
      case RxEndmark(_) =>
        if b.src == DmaCs1 then next.(saved1 := m.saved1 + Copied(b)) else m.(fault := true)
      case _ => m.(fault := true)
  }

  /** What a paced block waits for. The port raises its requests only with DMAEN set. */
  predicate Ready(ti: nat, cap: nat, spi: Spi) {
    match PaceOf(ti)
    case Free => true
    case OnRoom => spi.dmaen && spi.tx < cap
    case OnData => spi.dmaen && spi.rx > 0
    case OnOther => false
  }

  /** May `who` move? Paced transfers wait for FIFO space or data; the line stalls on a full
      receive FIFO; channels stop at a block outside the table. */
  predicate Enabled(p: Program, cap: nat, m: Machine, who: Who) {
    && !m.fault
    && match who
       case Cpu => m.started < 2
       case Ch0 => m.c0.Run? && m.c0.cb < |p.cbs| && Ready(p.cbs[m.c0.cb].ti, cap, m.spi)
       case Ch1 => m.c1.Run? && m.c1.cb < |p.cbs| && Ready(p.cbs[m.c1.cb].ti, cap, m.spi)
       case Wire => m.spi.ta && m.spi.shifted < m.spi.dlen && m.spi.tx > 0 && m.spi.rx < cap
  }

  function Step(p: Program, cap: nat, m: Machine, who: Who): Machine
    requires Enabled(p, cap, m, who)
  {
    match who
    case Cpu =>
      if m.started == 0 then m.(started := 1, c0 := Started(m.c0)) else m.(started := 2, c1 := Started(m.c1))
    case Ch0 =>
      (match PaceOf(p.cbs[m.c0.cb].ti)
       case Free => Copy0(p, m, m.c0.cb)
       case OnRoom => PushFifo(p, m, m.c0.cb, m.c0.pos)
       case _ => m.(fault := true))
    case Ch1 =>
      (match PaceOf(p.cbs[m.c1.cb].ti)
       case Free => Copy1(p, m, m.c1.cb)
       case OnData => PopFifo(p, m, m.c1.cb, m.c1.pos)
       case _ => m.(fault := true))
    case Wire =>
      m.(spi := m.spi.(shifted := m.spi.shifted + 1, tx := m.spi.tx - 1, rx := m.spi.rx + 1))
  }

  /** Channel 1 is about to re-point channel 0 while that is still active: its end-mark copy has
      not ended. Nothing in the program orders the two. */
  predicate Race(p: Program, m: Machine, who: Who) {
    && who.Ch1? && m.c1.Run? && m.c1.cb < |p.cbs| && p.cbs[m.c1.cb].dst == DmaConblkAd0
    && m.c0.Run?
  }

  /** Both channels hold the first blocks the program names for them; nothing is active, and the port
      has been set up with DMAEN alone (line 427). */
  function Boot(): Machine {
    Machine(0, Idle(Cb(0)), Idle(Cb(1)), Spi(false, true, 0, 0, 0, 0, 0), [], [], [], false)
  }

  // ----- what has to come out ---------------------------------------------------------------

  function FramePushes(from: nat, count: nat): seq<Push> {
    seq(count, k requires 0 <= k => Push(Frame(from + k), true))
  }

  /** Everything tasks before i push: each header with TA clear, then that task's bytes. */
  function LogTo(size: nat, i: nat): seq<Push> {
    if i == 0 then []
    else LogTo(size, i - 1) + [Push(Header(i - 1), false)] + FramePushes(Offset(i - 1), TaskLen(size, i - 1))
  }

  /** The frame bytes in a log, in order. */
  function Bytes(log: seq<Push>): seq<nat> {
    if log == [] then []
    else
      var last := log[|log| - 1];
      Bytes(log[..|log| - 1]) + (if last.src.Frame? then [last.src.offset] else [])
  }

  function CountFrom(from: nat, count: nat): (s: seq<nat>)
    ensures |s| == count && forall k :: 0 <= k < count ==> s[k] == from + k
  {
    seq(count, k requires 0 <= k => from + k)
  }

  lemma BytesOfPush(log: seq<Push>, push: Push)
    ensures Bytes(log + [push]) == Bytes(log) + (if push.src.Frame? then [push.src.offset] else [])
  {
    assert (log + [push])[..|log|] == log;
  }

  lemma OneMore(from: nat, count: nat)
    requires count > 0
    ensures FramePushes(from, count) == FramePushes(from, count - 1) + [Push(Frame(from + (count - 1)), true)]
    ensures CountFrom(from, count) == CountFrom(from, count - 1) + [from + (count - 1)]
  {}

  lemma {:induction false} BytesOfFrame(log: seq<Push>, from: nat, count: nat)
    ensures Bytes(log + FramePushes(from, count)) == Bytes(log) + CountFrom(from, count)
  {
    if count == 0 {
      assert log + FramePushes(from, 0) == log && CountFrom(from, 0) == [];
    } else {
      hide Bytes, FramePushes, CountFrom;
      var push := Push(Frame(from + (count - 1)), true);
      var shorter := FramePushes(from, count - 1);
      BytesOfFrame(log, from, count - 1);
      BytesOfPush(log + shorter, push);
      OneMore(from, count);
      assert log + (shorter + [push]) == log + shorter + [push];
      Regroup(Bytes(log), CountFrom(from, count - 1), [from + (count - 1)]);
    }
  }

  lemma Regroup(a: seq<nat>, b: seq<nat>, c: seq<nat>)
    ensures a + (b + c) == a + b + c
  {}

  /** The payload segments tile the buffer: the bytes pushed are 0, 1, 2, ... in order. */
  lemma {:induction false} SegmentsTile(size: nat, i: nat)
    requires i <= TaskCount(size)
    ensures Bytes(LogTo(size, i)) == CountFrom(0, if Offset(i) < size then Offset(i) else size)
  {
    if i > 0 {
      SegmentsTile(size, i - 1);
      var before, header := LogTo(size, i - 1), Push(Header(i - 1), false);
      BytesOfPush(before, header);
      BytesOfFrame(before + [header], Offset(i - 1), TaskLen(size, i - 1));
    }
  }

  /** The end marks of the first n tasks: channel 0 has saved its own first two registers to each. */
  function TxMarks(n: nat): seq<Store> {
    if n == 0 then []
    else TxMarks(n - 1) + [Store(TxEndmark(n - 1), 0, DmaCs0, 0), Store(TxEndmark(n - 1), 1, DmaCs0, 1)]
  }

  function RxMarks(n: nat): seq<Store> {
    if n == 0 then []
    else RxMarks(n - 1) + [Store(RxEndmark(n - 1), 0, DmaCs1, 0), Store(RxEndmark(n - 1), 1, DmaCs1, 1)]
  }

  // ----- where a run stands -----------------------------------------------------------------

  datatype TxPos = THold | THeader | TPayload(pos: nat) | TEndmark | TIdle
  datatype RxPos = RHold | RTake(pos: nat) | RSetNext | RSpiStop | REndmark | RStartNext | RIdle

  /** Task i, the place of channel 0 in it and the place of channel 1 in it or in the link to it. */
  datatype Place = Place(i: nat, t: TxPos, r: RxPos)

  function TxChannel(a: Place): Channel {
    match a.t
    case THold => Idle(Cb(HeaderAt(a.i)))
    case THeader => Run(HeaderAt(a.i), 0)
    case TPayload(pos) => Run(PayloadAt(a.i), pos)
    case TEndmark => Run(EndmarkAt(a.i), 0)
    case TIdle => Idle(Null)
  }

  function RxChannel(a: Place): Channel {
    match a.r
    case RHold => Idle(Cb(RxAt(a.i)))
    case RTake(pos) => Run(RxAt(a.i), pos)
    case RSetNext => Run(SetNextAt(a.i + 1), 0)
    case RSpiStop => Run(SpiStopAt(a.i), 0)
    case REndmark => Run(RxEndmarkAt(a.i), 0)
    case RStartNext => Run(StartNextAt(a.i), 0)
    case RIdle => Idle(Null)
  }

  /** Bytes of the task that were pushed, and bytes of it that were taken out again. */
  function Pushed(t: TxPos, len: nat): nat {
    match t case THold => 0 case THeader => 0 case TPayload(pos) => pos case TEndmark => len case TIdle => len
  }

  function Taken(r: RxPos, len: nat): nat {
    match r case RTake(pos) => pos case RSetNext => len case RIdle => len case _ => 0
  }

  predicate Over(t: TxPos) { t.TEndmark? || t.TIdle? }

  predicate Opening(t: TxPos) { t.THold? || t.THeader? }

  /** Which places go together, and the counter that says how far the CPU is. */
  predicate PlaceOk(a: Place, n: nat, len: nat, started: nat) {
    && a.i < n
    && (a.t.TPayload? ==> a.t.pos < len)
    && (a.r.RTake? ==> a.r.pos < len)
    && started == (if a.r.RHold? then (if a.t.THold? then 0 else 1) else 2)
    && (a.r.RHold? ==> a.i == 0)
    && (a.r.RTake? ==> !a.t.THold?)
    && (a.r.RSetNext? ==> a.i + 1 < n && Over(a.t))
    && (a.r.RSpiStop? || a.r.REndmark? || a.r.RStartNext? ==> a.i > 0 && a.t.THold?)
    && (a.r.RIdle? ==> a.i + 1 == n && Over(a.t))
  }

  /** What has been pushed up to a place. */
  function LogAt(size: nat, a: Place): seq<Push> {
    if Opening(a.t) then LogTo(size, a.i)
    else LogTo(size, a.i) + [Push(Header(a.i), false)]
         + FramePushes(Offset(a.i), Pushed(a.t, TaskLen(size, a.i)))
  }

  /** TA is set exactly from a task's header to the link's stop word; the bytes pushed are those
      shifted and those still in the transmit FIFO, the bytes shifted are those taken and those
      still in the receive FIFO. */
  predicate SpiOk(s: Spi, a: Place, len: nat) {
    && s.dmaen && s.mode == 0
    && s.ta == (!Opening(a.t) || a.r.RSpiStop?)
    && Pushed(a.t, len) == Taken(a.r, len) + s.rx + s.tx
    && (!Opening(a.t) ==> s.dlen == len && s.shifted == Taken(a.r, len) + s.rx)
  }

  /** How many end marks each channel has saved at a place. */
  function TxSaved(a: Place): nat { if a.t.TIdle? then a.i + 1 else a.i }

  function RxSaved(a: Place): nat {
    if (a.r.RSpiStop? || a.r.REndmark?) && a.i > 0 then a.i - 1 else a.i
  }

  ghost predicate At(m: Machine, size: nat, a: Place) {
    && PlaceOk(a, TaskCount(size), TaskLen(size, a.i), m.started)
    && m.c0 == TxChannel(a) && m.c1 == RxChannel(a)
    && SpiOk(m.spi, a, TaskLen(size, a.i))
    && m.log == LogAt(size, a)
    && m.saved0 == TxMarks(TxSaved(a)) && m.saved1 == RxMarks(RxSaved(a))
    && !m.fault
  }

  /** The program for a frame of `size` bytes is in memory. */
  ghost predicate Loaded(p: Program, size: nat) {
    && 0 < size <= 8 * 65464
    && Chained(p, size, TaskCount(size))
  }

  /** Steps a task needs when nothing of it is done, with the tasks behind it. */
  function Ahead(size: nat, i: nat): int {
    3 * (size - Offset(i)) + 6 * (TaskCount(size) - i) - 4
  }

  function TxDone(t: TxPos, len: nat): nat {
    match t
    case THold => 0
    case THeader => 0
    case TPayload(pos) => 1 + pos
    case TEndmark => 1 + len
    case TIdle => 2 + len
  }

  /** Steps still to take from a place. */
  function Left(size: nat, a: Place, tx: nat): int {
    var len := TaskLen(size, a.i);
    Ahead(size, a.i) - TxDone(a.t, len) - (Pushed(a.t, len) - tx) - Taken(a.r, len)
    + match a.r
      case RHold => (if a.t.THold? then 2 else 1)
      case RSpiStop => 3
      case REndmark => 2
      case RStartNext => 1
      case _ => 0
  }

  /** All steps of a run. */
  function Total(size: nat): int { 3 * size + 6 * TaskCount(size) - 2 }

  const FIRST: Place := Place(0, THold, RHold)

  /** How the channels read the three words of the program. */
  lemma WordsRead()
    ensures PaceOf(TX_WORD) == OnRoom && ReadsAndWrites(TX_WORD) && SrcInc(TX_WORD) && !DstInc(TX_WORD)
    ensures PaceOf(RX_WORD) == OnData && !SrcIgnore(RX_WORD) && !SrcInc(RX_WORD) && DstIgnore(RX_WORD)
    ensures PaceOf(MM_WORD) == Free && ReadsAndWrites(MM_WORD) && SrcInc(MM_WORD) && DstInc(MM_WORD)
  {}

  lemma WordsReady(cap: nat, spi: Spi)
    ensures Ready(TX_WORD, cap, spi) <==> spi.dmaen && spi.tx < cap
    ensures Ready(RX_WORD, cap, spi) <==> spi.dmaen && spi.rx > 0
    ensures Ready(MM_WORD, cap, spi)
  {
    WordsRead();
    hide PaceOf, ReadsAndWrites, SrcIgnore, SrcInc, DstInc, DstIgnore;
  }

  /** An end-mark block saves two words. */
  lemma MarkCopied(b: ControlBlock)
    requires b.ti == MM_WORD && b.len == 8
    ensures Copied(b) == [Store(b.dst, 0, b.src, 0), Store(b.dst, 1, b.src, 1)]
  {
    WordsRead();
    hide PaceOf, ReadsAndWrites, SrcIgnore, SrcInc, DstInc, DstIgnore;
  }

  // ----- what the step of each block does ---------------------------------------------------

  lemma HeaderDoes(p: Program, size: nat, i: nat, after: Addr, cap: nat, m: Machine)
    requires TaskBlocks(p, size, i, after) && m.c0 == Run(HeaderAt(i), 0) && !m.spi.ta
    requires Enabled(p, cap, m, Ch0)
    ensures Step(p, cap, m, Ch0) ==
      m.(c0 := Run(PayloadAt(i), 0),
         spi := m.spi.(ta := true, mode := 0, dlen := TaskLen(size, i), shifted := 0),
         log := m.log + [Push(Header(i), false)])
  {
    WordsRead();
    TaskLenBound(size, i);
    HeaderWordFacts(TaskLen(size, i));
    hide PaceOf, ReadsAndWrites, SrcIgnore, SrcInc, DstInc, DstIgnore, HeaderWord, TaskLen;
  }

  lemma PayloadDoes(p: Program, size: nat, i: nat, after: Addr, cap: nat, m: Machine, pos: nat)
    requires TaskBlocks(p, size, i, after) && m.c0 == Run(PayloadAt(i), pos) && m.spi.ta
    requires Enabled(p, cap, m, Ch0)
    ensures Step(p, cap, m, Ch0) ==
      m.(c0 := if pos + 1 < TaskLen(size, i) then Run(PayloadAt(i), pos + 1) else Run(EndmarkAt(i), 0),
         spi := m.spi.(tx := m.spi.tx + 1),
         log := m.log + [Push(Frame(Offset(i) + pos), true)])
  {
    WordsRead();
    hide PaceOf, ReadsAndWrites, SrcIgnore, SrcInc, DstInc, DstIgnore, HeaderWord, TaskLen, Offset;
  }

  lemma TxMarkDoes(p: Program, size: nat, i: nat, after: Addr, cap: nat, m: Machine)
    requires TaskBlocks(p, size, i, after) && m.c0 == Run(EndmarkAt(i), 0)
    requires Enabled(p, cap, m, Ch0)
    ensures Step(p, cap, m, Ch0) ==
      m.(c0 := Idle(Null),
         saved0 := m.saved0 + [Store(TxEndmark(i), 0, DmaCs0, 0), Store(TxEndmark(i), 1, DmaCs0, 1)])
  {
    WordsRead();
    MarkCopied(p.cbs[EndmarkAt(i)]);
    hide PaceOf, ReadsAndWrites, SrcIgnore, SrcInc, DstInc, DstIgnore, Copied, HeaderWord, TaskLen, Offset;
  }

  lemma TakeDoes(p: Program, size: nat, i: nat, after: Addr, cap: nat, m: Machine, pos: nat)
    requires TaskBlocks(p, size, i, after) && m.c1 == Run(RxAt(i), pos)
    requires Enabled(p, cap, m, Ch1)
    ensures m.spi.rx > 0
    ensures Step(p, cap, m, Ch1) ==
      m.(c1 := if pos + 1 < TaskLen(size, i) then Run(RxAt(i), pos + 1)
               else if after.Cb? then Run(after.index, 0) else Idle(Null),
         spi := m.spi.(rx := m.spi.rx - 1))
  {
    WordsRead();
    hide PaceOf, ReadsAndWrites, SrcIgnore, SrcInc, DstInc, DstIgnore, HeaderWord, TaskLen, Offset;
  }

  lemma SetNextDoes(p: Program, i: nat, cap: nat, m: Machine)
    requires LinkBlocks(p, i) && m.c0.Idle? && m.c1 == Run(SetNextAt(i + 1), 0) && Enabled(p, cap, m, Ch1)
    ensures Step(p, cap, m, Ch1) == m.(c0 := Idle(Cb(HeaderAt(i + 1))), c1 := Run(SpiStopAt(i + 1), 0))
  {
    WordsRead();
    hide PaceOf, ReadsAndWrites, SrcIgnore, SrcInc, DstInc, DstIgnore;
  }

  lemma SpiStopDoes(p: Program, i: nat, cap: nat, m: Machine)
    requires LinkBlocks(p, i) && m.c1 == Run(SpiStopAt(i + 1), 0) && Enabled(p, cap, m, Ch1)
    ensures Step(p, cap, m, Ch1) ==
      m.(c1 := Run(RxEndmarkAt(i + 1), 0), spi := m.spi.(ta := false, dmaen := true, mode := 0))
  {
    WordsRead();
    hide PaceOf, ReadsAndWrites, SrcIgnore, SrcInc, DstInc, DstIgnore;
  }

  lemma RxMarkDoes(p: Program, i: nat, cap: nat, m: Machine)
    requires LinkBlocks(p, i) && m.c1 == Run(RxEndmarkAt(i + 1), 0) && Enabled(p, cap, m, Ch1)
    ensures Step(p, cap, m, Ch1) ==
      m.(c1 := Run(StartNextAt(i + 1), 0),
         saved1 := m.saved1 + [Store(RxEndmark(i), 0, DmaCs1, 0), Store(RxEndmark(i), 1, DmaCs1, 1)])
  {
    WordsRead();
    MarkCopied(p.cbs[RxEndmarkAt(i + 1)]);
    hide PaceOf, ReadsAndWrites, SrcIgnore, SrcInc, DstInc, DstIgnore, Copied;
  }

  lemma StartNextDoes(p: Program, i: nat, cap: nat, m: Machine)
    requires LinkBlocks(p, i) && m.c1 == Run(StartNextAt(i + 1), 0) && Enabled(p, cap, m, Ch1)
    ensures Step(p, cap, m, Ch1) == m.(c0 := Started(m.c0), c1 := Run(RxAt(i + 1), 0))
  {
    WordsRead();
    hide PaceOf, ReadsAndWrites, SrcIgnore, SrcInc, DstInc, DstIgnore;
  }

  // ----- one step ---------------------------------------------------------------------------

  lemma TaskFacts(size: nat, i: nat)
    requires i < TaskCount(size)
    ensures 0 < TaskLen(size, i) <= MAX_TASK_SIZE
    ensures i + 1 < TaskCount(size) ==> TaskLen(size, i) == MAX_TASK_SIZE
    ensures i + 1 == TaskCount(size) ==> Offset(i) + TaskLen(size, i) == size
  {}

  /** Where channel 0 is after its next step. */
  function TxNext(t: TxPos, len: nat): TxPos {
    match t
    case THeader => TPayload(0)
    case TPayload(pos) => if pos + 1 < len then TPayload(pos + 1) else TEndmark
    case _ => TIdle
  }

  function NextPlace(a: Place, n: nat, len: nat, who: Who): Place {
    match who
    case Cpu => if a.t.THold? then a.(t := THeader) else a.(r := RTake(0))
    case Ch0 => a.(t := TxNext(a.t, len))
    case Ch1 =>
      (match a.r
       case RTake(pos) =>
         a.(r := if pos + 1 < len then RTake(pos + 1) else if a.i + 1 < n then RSetNext else RIdle)
       case RSetNext => Place(a.i + 1, THold, RSpiStop)
       case RSpiStop => a.(r := REndmark)
       case REndmark => a.(r := RStartNext)
       case _ => Place(a.i, THeader, RTake(0)))
    case Wire => a
  }

  lemma StepCpu(p: Program, size: nat, cap: nat, m: Machine, a: Place)
    requires Loaded(p, size) && At(m, size, a) && Enabled(p, cap, m, Cpu)
    ensures At(Step(p, cap, m, Cpu), size, NextPlace(a, TaskCount(size), TaskLen(size, a.i), Cpu))
  {
    TaskFacts(size, a.i);
  }

  lemma StepWire(p: Program, size: nat, cap: nat, m: Machine, a: Place)
    requires Loaded(p, size) && At(m, size, a) && Enabled(p, cap, m, Wire)
    ensures At(Step(p, cap, m, Wire), size, NextPlace(a, TaskCount(size), TaskLen(size, a.i), Wire))
  {}

  lemma StepHeader(p: Program, size: nat, cap: nat, m: Machine, a: Place)
    requires Loaded(p, size) && At(m, size, a) && a.t.THeader? && Enabled(p, cap, m, Ch0)
    ensures At(Step(p, cap, m, Ch0), size, NextPlace(a, TaskCount(size), TaskLen(size, a.i), Ch0))
  {
    TaskFacts(size, a.i);
    assert TaskBlocks(p, size, a.i, AfterRx(a.i, TaskCount(size)));
    HeaderDoes(p, size, a.i, AfterRx(a.i, TaskCount(size)), cap, m);
    hide Step, Enabled, TaskBlocks, Chained;
    assert FramePushes(Offset(a.i), 0) == [];
  }

  lemma AtPayload(m: Machine, size: nat, a: Place)
    requires At(m, size, a) && a.t.TPayload?
    ensures var len, pos := TaskLen(size, a.i), a.t.pos;
      At(m.(c0 := if pos + 1 < len then Run(PayloadAt(a.i), pos + 1) else Run(EndmarkAt(a.i), 0),
            spi := m.spi.(tx := m.spi.tx + 1),
            log := m.log + [Push(Frame(Offset(a.i) + pos), true)]),
         size, a.(t := TxNext(a.t, len)))
  {
    hide TaskLen, TaskCount, LogTo, TxMarks, RxMarks, HeaderAt, PayloadAt, EndmarkAt, Offset;
    assert FramePushes(Offset(a.i), a.t.pos + 1)
      == FramePushes(Offset(a.i), a.t.pos) + [Push(Frame(Offset(a.i) + a.t.pos), true)];
  }

  lemma StepPayload(p: Program, size: nat, cap: nat, m: Machine, a: Place)
    requires Loaded(p, size) && At(m, size, a) && a.t.TPayload? && Enabled(p, cap, m, Ch0)
    ensures At(Step(p, cap, m, Ch0), size, NextPlace(a, TaskCount(size), TaskLen(size, a.i), Ch0))
  {
    assert TaskBlocks(p, size, a.i, AfterRx(a.i, TaskCount(size)));
    assert m.c0 == Run(PayloadAt(a.i), a.t.pos) && m.spi.ta;
    hide Step, Enabled, TaskBlocks, Chained, At;
    PayloadDoes(p, size, a.i, AfterRx(a.i, TaskCount(size)), cap, m, a.t.pos);
    AtPayload(m, size, a);
  }

  lemma AtTxMark(m: Machine, size: nat, a: Place)
    requires At(m, size, a) && a.t.TEndmark?
    ensures At(m.(c0 := Idle(Null),
                  saved0 := m.saved0 + [Store(TxEndmark(a.i), 0, DmaCs0, 0), Store(TxEndmark(a.i), 1, DmaCs0, 1)]),
               size, a.(t := TIdle))
  {
    hide TaskLen, TaskCount, LogTo, FramePushes, RxMarks, HeaderAt, Offset;
  }

  lemma StepTxMark(p: Program, size: nat, cap: nat, m: Machine, a: Place)
    requires Loaded(p, size) && At(m, size, a) && a.t.TEndmark? && Enabled(p, cap, m, Ch0)
    ensures At(Step(p, cap, m, Ch0), size, NextPlace(a, TaskCount(size), TaskLen(size, a.i), Ch0))
  {
    assert TaskBlocks(p, size, a.i, AfterRx(a.i, TaskCount(size)));
    assert m.c0 == Run(EndmarkAt(a.i), 0);
    hide Step, Enabled, TaskBlocks, Chained, At, TaskCount, TaskLen, EndmarkAt;
    TxMarkDoes(p, size, a.i, AfterRx(a.i, TaskCount(size)), cap, m);
    AtTxMark(m, size, a);
  }

  lemma StepCh0(p: Program, size: nat, cap: nat, m: Machine, a: Place)
    requires Loaded(p, size) && At(m, size, a) && Enabled(p, cap, m, Ch0)
    ensures At(Step(p, cap, m, Ch0), size, NextPlace(a, TaskCount(size), TaskLen(size, a.i), Ch0))
  {
    assert m.c0.Run?;
    hide Step, Enabled, Loaded;
    if a.t.THeader? {
      StepHeader(p, size, cap, m, a);
    } else if a.t.TPayload? {
      StepPayload(p, size, cap, m, a);
    } else {
      StepTxMark(p, size, cap, m, a);
    }
  }

  lemma AtTake(m: Machine, size: nat, a: Place)
    requires At(m, size, a) && a.r.RTake? && m.spi.rx > 0
    ensures var len, n, pos := TaskLen(size, a.i), TaskCount(size), a.r.pos;
      At(m.(c1 := if pos + 1 < len then Run(RxAt(a.i), pos + 1)
                  else if a.i + 1 < n then Run(SetNextAt(a.i + 1), 0) else Idle(Null),
            spi := m.spi.(rx := m.spi.rx - 1)),
         size, NextPlace(a, n, len, Ch1))
  {
    hide TaskLen, TaskCount, LogTo, FramePushes, TxMarks, RxMarks, RxAt, SetNextAt, HeaderAt, Offset;
  }

  lemma StepTake(p: Program, size: nat, cap: nat, m: Machine, a: Place)
    requires Loaded(p, size) && At(m, size, a) && a.r.RTake? && Enabled(p, cap, m, Ch1)
    ensures At(Step(p, cap, m, Ch1), size, NextPlace(a, TaskCount(size), TaskLen(size, a.i), Ch1))
  {
    assert TaskBlocks(p, size, a.i, AfterRx(a.i, TaskCount(size)));
    assert m.c1 == Run(RxAt(a.i), a.r.pos);
    hide Step, Enabled, TaskBlocks, Chained, At, TaskCount, TaskLen, NextPlace;
    TakeDoes(p, size, a.i, AfterRx(a.i, TaskCount(size)), cap, m, a.r.pos);
    AtTake(m, size, a);
  }

  lemma SetNextAtLink(m: Machine, size: nat, a: Place)
    requires At(m, size, a) && a.r.RSetNext? && a.t.TIdle?
    ensures At(m.(c0 := Idle(Cb(HeaderAt(a.i + 1))), c1 := Run(SpiStopAt(a.i + 1), 0)), size,
               Place(a.i + 1, THold, RSpiStop))
  {
    assert LogTo(size, a.i + 1) == LogAt(size, a);
  }

  /** With channel 0 still active the copy is a race. */
  lemma SetNextIdle(p: Program, size: nat, m: Machine, a: Place)
    requires LinkBlocks(p, a.i) && At(m, size, a) && a.r.RSetNext?
    ensures Race(p, m, Ch1) <==> a.t.TEndmark?
    ensures !Race(p, m, Ch1) ==> a.t.TIdle?
  {}

  lemma StepSetNext(p: Program, size: nat, cap: nat, m: Machine, a: Place)
    requires LinkBlocks(p, a.i) && At(m, size, a) && a.r.RSetNext? && a.t.TIdle? && Enabled(p, cap, m, Ch1)
    ensures At(Step(p, cap, m, Ch1), size, Place(a.i + 1, THold, RSpiStop))
  {
    SetNextDoes(p, a.i, cap, m);
    SetNextAtLink(m, size, a);
  }

  lemma StepSetNextIdle(p: Program, size: nat, cap: nat, m: Machine, a: Place)
    requires Loaded(p, size) && At(m, size, a) && a.r.RSetNext? && Enabled(p, cap, m, Ch1) && !Race(p, m, Ch1)
    ensures At(Step(p, cap, m, Ch1), size, Place(a.i + 1, THold, RSpiStop))
  {
    assert LinkBlocks(p, a.i);
    SetNextIdle(p, size, m, a);
    StepSetNext(p, size, cap, m, a);
  }

  lemma AtSpiStop(m: Machine, size: nat, a: Place)
    requires At(m, size, a) && a.r.RSpiStop?
    ensures At(m.(c1 := Run(RxEndmarkAt(a.i), 0), spi := m.spi.(ta := false, dmaen := true, mode := 0)), size,
               a.(r := REndmark))
  {
    hide TaskLen, TaskCount, LogTo, FramePushes, TxMarks, RxMarks, HeaderAt, RxEndmarkAt;
  }

  lemma StepSpiStop(p: Program, size: nat, cap: nat, m: Machine, a: Place)
    requires At(m, size, a) && Enabled(p, cap, m, Ch1) && a.r.RSpiStop? && a.i > 0 && LinkBlocks(p, a.i - 1)
    ensures At(Step(p, cap, m, Ch1), size, NextPlace(a, TaskCount(size), TaskLen(size, a.i), Ch1))
  {
    assert m.c1 == Run(SpiStopAt(a.i - 1 + 1), 0);
    hide At, Step, Enabled, LinkBlocks, TaskLen, TaskCount, SpiStopAt, RxEndmarkAt;
    SpiStopDoes(p, a.i - 1, cap, m);
    AtSpiStop(m, size, a);
  }

  lemma AtRxMark(m: Machine, size: nat, a: Place)
    requires At(m, size, a) && a.r.REndmark?
    ensures var mark := RxEndmark(a.i - 1);
      At(m.(c1 := Run(StartNextAt(a.i), 0),
            saved1 := m.saved1 + [Store(mark, 0, DmaCs1, 0), Store(mark, 1, DmaCs1, 1)]),
         size, a.(r := RStartNext))
  {
    hide TaskLen, TaskCount, LogTo, FramePushes, TxMarks, HeaderAt, StartNextAt;
  }

  lemma StepRxMark(p: Program, size: nat, cap: nat, m: Machine, a: Place)
    requires At(m, size, a) && Enabled(p, cap, m, Ch1) && a.r.REndmark? && a.i > 0 && LinkBlocks(p, a.i - 1)
    ensures At(Step(p, cap, m, Ch1), size, NextPlace(a, TaskCount(size), TaskLen(size, a.i), Ch1))
  {
    assert m.c1 == Run(RxEndmarkAt(a.i - 1 + 1), 0);
    hide At, Step, Enabled, LinkBlocks, TaskLen, TaskCount, RxEndmarkAt, StartNextAt;
    RxMarkDoes(p, a.i - 1, cap, m);
    AtRxMark(m, size, a);
  }

  lemma StepStartNext(p: Program, size: nat, cap: nat, m: Machine, a: Place)
    requires At(m, size, a) && Enabled(p, cap, m, Ch1) && a.r.RStartNext? && LinkBlocks(p, a.i - 1)
    ensures At(Step(p, cap, m, Ch1), size, NextPlace(a, TaskCount(size), TaskLen(size, a.i), Ch1))
  {
    TaskFacts(size, a.i);
    StartNextDoes(p, a.i - 1, cap, m);
    hide Step, Enabled, LinkBlocks, TaskLen, TaskCount, LogTo, FramePushes, TxMarks;
    hide HeaderAt, RxAt, SpiStopAt, RxEndmarkAt, StartNextAt;
  }

  /** Where channel 1 is inside a block. */
  lemma Ch1Place(p: Program, size: nat, cap: nat, m: Machine, a: Place)
    requires Loaded(p, size) && At(m, size, a) && Enabled(p, cap, m, Ch1)
    ensures !a.r.RHold? && !a.r.RIdle?
    ensures !a.r.RTake? && !a.r.RSetNext? ==> a.i > 0 && LinkBlocks(p, a.i - 1)
  {
    if a.i > 0 {
      assert a.i - 1 + 1 < TaskCount(size);
      assert LinkBlocks(p, a.i - 1);
    }
  }

  lemma StepCh1(p: Program, size: nat, cap: nat, m: Machine, a: Place)
    requires Loaded(p, size) && At(m, size, a) && Enabled(p, cap, m, Ch1) && !Race(p, m, Ch1)
    ensures At(Step(p, cap, m, Ch1), size, NextPlace(a, TaskCount(size), TaskLen(size, a.i), Ch1))
  {
    hide At, Step, Loaded, Enabled, Race, LinkBlocks, TaskCount, TaskLen;
    Ch1Place(p, size, cap, m, a);
    match a.r {
      case RTake(_) => StepTake(p, size, cap, m, a);
      case RSetNext => StepSetNextIdle(p, size, cap, m, a);
      case RSpiStop => StepSpiStop(p, size, cap, m, a);
      case REndmark => StepRxMark(p, size, cap, m, a);
      case RStartNext => StepStartNext(p, size, cap, m, a);
    }
  }

  /** Every step that is no race leads to the next place, and leaves one step less to take. */
  lemma StepAt(p: Program, size: nat, cap: nat, m: Machine, a: Place, who: Who) returns (b: Place)
    requires Loaded(p, size) && At(m, size, a) && Enabled(p, cap, m, who) && !Race(p, m, who)
    ensures At(Step(p, cap, m, who), size, b)
    ensures b == NextPlace(a, TaskCount(size), TaskLen(size, a.i), who)
    ensures Left(size, b, Step(p, cap, m, who).spi.tx) == Left(size, a, m.spi.tx) - 1
  {
    b := NextPlace(a, TaskCount(size), TaskLen(size, a.i), who);
    match who {
      case Cpu => StepCpu(p, size, cap, m, a);
      case Ch0 => StepCh0(p, size, cap, m, a);
      case Ch1 => StepCh1(p, size, cap, m, a);
      case Wire => StepWire(p, size, cap, m, a);
    }
    TxLevel(p, size, cap, m, a, who);
    if who.Ch1? && a.r.RSetNext? {
      assert LinkBlocks(p, a.i);
      SetNextIdle(p, size, m, a);
    }
    LeftFalls(size, m, Step(p, cap, m, who), a, who);
  }

  /** Only a payload byte and the line change the level of the transmit FIFO. */
  lemma TxLevel(p: Program, size: nat, cap: nat, m: Machine, a: Place, who: Who)
    requires Loaded(p, size) && At(m, size, a) && Enabled(p, cap, m, who)
    ensures Step(p, cap, m, who).spi.tx
         == m.spi.tx + (if who.Ch0? && a.t.TPayload? then 1 else 0) - (if who.Wire? then 1 else 0)
  {
    var after := AfterRx(a.i, TaskCount(size));
    assert TaskBlocks(p, size, a.i, after);
    if who.Ch0? {
      if a.t.THeader? {
        HeaderDoes(p, size, a.i, after, cap, m);
      } else if a.t.TPayload? {
        PayloadDoes(p, size, a.i, after, cap, m, a.t.pos);
      } else {
        TxMarkDoes(p, size, a.i, after, cap, m);
      }
    }
    hide PaceOf, Ready, TaskBlocks, Chained, ReadsAndWrites, Moved, Advance, PushFifo, Copy0;
  }

  lemma LeftFalls(size: nat, m: Machine, m': Machine, a: Place, who: Who)
    requires At(m, size, a)
    requires who.Cpu? ==> m.started < 2
    requires who.Ch0? ==> m.c0.Run?
    requires who.Ch1? ==> m.c1.Run? && (a.r.RSetNext? ==> a.t.TIdle?)
    requires m'.spi.tx
          == m.spi.tx + (if who.Ch0? && a.t.TPayload? then 1 else 0) - (if who.Wire? then 1 else 0)
    ensures Left(size, NextPlace(a, TaskCount(size), TaskLen(size, a.i), who), m'.spi.tx)
         == Left(size, a, m.spi.tx) - 1
  {
    TaskFacts(size, a.i);
    if who.Ch1? && a.r.RTake? {
      assert TaskCount(size) > 0;
    }
  }

  lemma LeftIsPositive(m: Machine, size: nat, a: Place)
    requires At(m, size, a) && 0 < size
    ensures Left(size, a, m.spi.tx) >= 0
    ensures Left(size, a, m.spi.tx) == 0 <==> a.r.RIdle? && a.t.TIdle?
  {
    TaskFacts(size, a.i);
  }

  /** Channel 0 can go on inside a task as soon as the transmit FIFO has room, channel 1 as soon as the
      receive FIFO has data, and neither waits for anything at a copy. */
  lemma Ch0Goes(p: Program, size: nat, cap: nat, m: Machine, a: Place)
    requires Loaded(p, size) && At(m, size, a) && m.c0.Run? && m.spi.tx < cap
    ensures Enabled(p, cap, m, Ch0)
  {
    assert TaskBlocks(p, size, a.i, AfterRx(a.i, TaskCount(size)));
    WordsReady(cap, m.spi);
    hide Ready, Chained;
  }

  lemma Ch1Takes(p: Program, size: nat, cap: nat, m: Machine, a: Place)
    requires Loaded(p, size) && At(m, size, a) && a.r.RTake? && m.spi.rx > 0
    ensures Enabled(p, cap, m, Ch1)
  {
    assert TaskBlocks(p, size, a.i, AfterRx(a.i, TaskCount(size)));
    WordsReady(cap, m.spi);
    hide Ready, Chained;
  }

  lemma LinkGoes(p: Program, i: nat, cap: nat, m: Machine)
    requires LinkBlocks(p, i) && !m.fault
    requires m.c1 == Run(SetNextAt(i + 1), 0) || m.c1 == Run(SpiStopAt(i + 1), 0)
             || m.c1 == Run(RxEndmarkAt(i + 1), 0) || m.c1 == Run(StartNextAt(i + 1), 0)
    ensures Enabled(p, cap, m, Ch1)
    ensures Race(p, m, Ch1) ==> m.c0.Run?
  {
    WordsReady(cap, m.spi);
    hide Ready;
  }

  lemma Ch1Links(p: Program, size: nat, cap: nat, m: Machine, a: Place)
    requires Loaded(p, size) && At(m, size, a) && (a.t.THold? || (a.r.RSetNext? && a.t.TIdle?)) && m.started == 2
    ensures Enabled(p, cap, m, Ch1) && !Race(p, m, Ch1)
  {
    var i := if a.t.THold? then a.i - 1 else a.i;
    assert LinkBlocks(p, i);
    assert m.c0.Idle? && !m.fault;
    hide Loaded, Enabled, Race, LinkBlocks, SpiOk, LogAt;
    LinkGoes(p, i, cap, m);
  }

  lemma Ch1TakeIsNoRace(p: Program, size: nat, m: Machine, a: Place)
    requires Loaded(p, size) && At(m, size, a) && a.r.RTake?
    ensures !Race(p, m, Ch1)
  {
    assert TaskBlocks(p, size, a.i, AfterRx(a.i, TaskCount(size)));
    hide Chained;
  }

  /** Nothing deadlocks: before the end some step is possible that is no race. */
  lemma SomeStep(p: Program, size: nat, cap: nat, m: Machine, a: Place) returns (who: Who)
    requires Loaded(p, size) && At(m, size, a) && cap > 0 && !(a.r.RIdle? && a.t.TIdle?)
    ensures Enabled(p, cap, m, who) && !Race(p, m, who)
    ensures a.t.TEndmark? && !a.r.RIdle? && !a.r.RSetNext? ==> !who.Ch0?
  {
    hide Ready, Loaded, LogAt, TxMarks, RxMarks;
    if m.started < 2 {
      who := Cpu;
    } else if m.spi.rx > 0 && a.r.RTake? {
      who := Ch1;
      Ch1Takes(p, size, cap, m, a);
      Ch1TakeIsNoRace(p, size, m, a);
    } else if m.spi.ta && m.spi.tx > 0 {
      who := Wire;
    } else if a.t.THold? || (a.r.RSetNext? && a.t.TIdle?) {
      who := Ch1;
      Ch1Links(p, size, cap, m, a);
    } else {
      who := Ch0;
      Ch0Goes(p, size, cap, m, a);
    }
  }

  // ----- whole runs -------------------------------------------------------------------------

  function Front(run: seq<Who>): seq<Who>
    requires run != []
  {
    run[..|run| - 1]
  }

  /** The run can happen from the start, each of its steps being possible when it is taken. */
  predicate CanRun(p: Program, cap: nat, run: seq<Who>)
    decreases |run|, 0
  {
    run == [] || (CanRun(p, cap, Front(run)) && Enabled(p, cap, After(p, cap, Front(run)), run[|run| - 1]))
  }

  function After(p: Program, cap: nat, run: seq<Who>): Machine
    requires CanRun(p, cap, run)
    decreases |run|, 1
  {
    if run == [] then Boot() else Step(p, cap, After(p, cap, Front(run)), run[|run| - 1])
  }

  /** The last step of the run re-points channel 0 while that is active. */
  predicate EndsInRace(p: Program, cap: nat, run: seq<Who>)
    requires CanRun(p, cap, run)
  {
    run != [] && Race(p, After(p, cap, Front(run)), run[|run| - 1])
  }

  lemma BootAt(size: nat)
    requires 0 < size
    ensures At(Boot(), size, FIRST) && Left(size, FIRST, 0) == Total(size)
  {}

  /** A run either stands at a place of the program, one step nearer to the end with every step,
      or its last step was a race: then, and only then, it has gone wrong. */
  lemma {:induction false} RunStands(p: Program, size: nat, cap: nat, run: seq<Who>) returns (a: Place)
    requires Loaded(p, size) && CanRun(p, cap, run)
    ensures After(p, cap, run).fault <==> EndsInRace(p, cap, run)
    ensures !EndsInRace(p, cap, run) ==> At(After(p, cap, run), size, a)
    ensures !EndsInRace(p, cap, run) ==> Left(size, a, After(p, cap, run).spi.tx) + |run| == Total(size)
    decreases |run|
  {
    if run == [] {
      BootAt(size);
      a := FIRST;
    } else {
      a := RunStands(p, size, cap, Front(run));
      var m, who := After(p, cap, Front(run)), run[|run| - 1];
      if Race(p, m, who) {
        RaceFaults(p, size, cap, m, a);
      } else {
        a := StepAt(p, size, cap, m, a, who);
      }
    }
  }

  /** A race goes wrong at once; it takes channel 1 at the end of a task that has a successor. */
  lemma RaceFaults(p: Program, size: nat, cap: nat, m: Machine, a: Place)
    requires Loaded(p, size) && At(m, size, a) && Enabled(p, cap, m, Ch1) && Race(p, m, Ch1)
    ensures a.r.RSetNext? && a.t.TEndmark?
    ensures Step(p, cap, m, Ch1).fault
  {
    assert TaskBlocks(p, size, a.i, AfterRx(a.i, TaskCount(size)));
    if a.r.RSetNext? {
      assert LinkBlocks(p, a.i);
    }
  }

  lemma AtTheEnd(m: Machine, size: nat, a: Place)
    requires At(m, size, a) && a.r.RIdle? && a.t.TIdle?
    ensures m.c0 == Idle(Null) && m.c1 == Idle(Null) && m.spi.tx == 0 && m.spi.rx == 0
    ensures m.log == LogTo(size, TaskCount(size))
    ensures Bytes(m.log) == CountFrom(0, size)
    ensures TaskCount(size) > 0
    ensures m.saved0 == TxMarks(TaskCount(size)) && m.saved1 == RxMarks(TaskCount(size) - 1)
  {
    TaskFacts(size, a.i);
    SegmentsTile(size, TaskCount(size));
    assert m.log == LogTo(size, a.i + 1);
  }

  /** With races left out, a run has at most Total(size) steps; one that cannot go on has exactly
      so many, both channels are idle, the FIFOs are empty, and the port has been given header 0,
      payload 0, header 1, payload 1, ..., the bytes of the frame in order. */
  lemma RunsComplete(p: Program, size: nat, cap: nat, run: seq<Who>)
    requires Loaded(p, size) && cap > 0 && CanRun(p, cap, run) && !EndsInRace(p, cap, run)
    ensures |run| <= Total(size)
    ensures (
      var m := After(p, cap, run);
      (forall who :: Enabled(p, cap, m, who) ==> Race(p, m, who)) ==>
        && |run| == Total(size)
        && m.c0 == Idle(Null) && m.c1 == Idle(Null) && m.spi.tx == 0 && m.spi.rx == 0
        && m.log == LogTo(size, TaskCount(size))
        && Bytes(m.log) == CountFrom(0, size)
        && m.saved0 == TxMarks(TaskCount(size)) && m.saved1 == RxMarks(TaskCount(size) - 1))
  {
    var m := After(p, cap, run);
    var a := RunStands(p, size, cap, run);
    LeftIsPositive(m, size, a);
    if a.r.RIdle? && a.t.TIdle? {
      AtTheEnd(m, size, a);
    } else {
      var who := SomeStep(p, size, cap, m, a);
    }
  }

  lemma {:induction false} LogToGrows(size: nat, i: nat, j: nat)
    requires i <= j
    ensures LogTo(size, i) <= LogTo(size, j)
  {
    if i < j {
      LogToGrows(size, i, j - 1);
    }
  }

  lemma {:induction false} HeadersAreAlone(size: nat, i: nat, k: nat)
    requires k < |LogTo(size, i)|
    ensures LogTo(size, i)[k].ta <==> LogTo(size, i)[k].src.Frame?
  {
    if i > 0 && k < |LogTo(size, i - 1)| {
      HeadersAreAlone(size, i - 1, k);
    }
  }

  lemma LogAtPrefix(size: nat, a: Place)
    requires Pushed(a.t, TaskLen(size, a.i)) <= TaskLen(size, a.i)
    ensures LogAt(size, a) <= LogTo(size, a.i + 1)
  {
    var done, len := Pushed(a.t, TaskLen(size, a.i)), TaskLen(size, a.i);
    var before := LogTo(size, a.i);
    assert before <= LogTo(size, a.i + 1);
    if !Opening(a.t) {
      assert FramePushes(Offset(a.i), done) <= FramePushes(Offset(a.i), len);
      var head := before + [Push(Header(a.i), false)];
      assert head + FramePushes(Offset(a.i), done) <= head + FramePushes(Offset(a.i), len);
    }
  }

  lemma LogAtHeaders(size: nat, a: Place, n: nat)
    requires Pushed(a.t, TaskLen(size, a.i)) <= TaskLen(size, a.i) && a.i < n
    ensures LogAt(size, a) <= LogTo(size, n)
    ensures forall k :: 0 <= k < |LogAt(size, a)| ==> (LogAt(size, a)[k].ta <==> LogAt(size, a)[k].src.Frame?)
  {
    var log, all := LogAt(size, a), LogTo(size, n);
    LogAtPrefix(size, a);
    LogToGrows(size, a.i + 1, n);
    forall k | 0 <= k < |log| ensures log[k].ta <==> log[k].src.Frame? {
      assert log[k] == all[k];
      HeadersAreAlone(size, n, k);
    }
  }

  /** At every moment the port has been given the beginning of that log, and a header word never
      reached it while TA was set. */
  lemma LogIsPrefix(p: Program, size: nat, cap: nat, run: seq<Who>)
    requires Loaded(p, size) && CanRun(p, cap, run) && !EndsInRace(p, cap, run)
    ensures After(p, cap, run).log <= LogTo(size, TaskCount(size))
    ensures forall k :: 0 <= k < |After(p, cap, run).log| ==>
      (After(p, cap, run).log[k].ta <==> After(p, cap, run).log[k].src.Frame?)
  {
    var a := RunStands(p, size, cap, run);
    LogAtHeaders(size, a, TaskCount(size));
  }

  /** The program itself does not exclude the race: with two tasks or more some run ends in it,
      channel 0 having been slow to copy its end mark. */
  lemma RaceIsPossible(p: Program, size: nat, cap: nat) returns (run: seq<Who>)
    requires Loaded(p, size) && cap > 0 && TaskCount(size) > 1
    ensures CanRun(p, cap, run) && EndsInRace(p, cap, run) && After(p, cap, run).fault
  {
    BootAt(size);
    run := Delay(p, size, cap, [], FIRST);
  }

  /** What a caller can check: no run can go wrong exactly when the frame is a single task. */
  lemma RaceExact(p: Program, size: nat, cap: nat)
    requires Loaded(p, size) && cap > 0
    ensures (forall run :: !GoesWrong(p, cap, run)) <==> size <= 65464
  {
    if size <= 65464 {
      forall run ensures !GoesWrong(p, cap, run) {
        if GoesWrong(p, cap, run) {
          var a := RunStands(p, size, cap, run);
          var b := RunStands(p, size, cap, Front(run));
          RaceFaults(p, size, cap, After(p, cap, Front(run)), b);
        }
      }
    } else {
      var run := RaceIsPossible(p, size, cap);
      assert GoesWrong(p, cap, run);
    }
  }

  ghost predicate GoesWrong(p: Program, cap: nat, run: seq<Who>) {
    CanRun(p, cap, run) && After(p, cap, run).fault
  }

  /** A step that keeps channel 0 from ending the first task. */
  lemma DelayStep(p: Program, size: nat, cap: nat, m: Machine, a: Place) returns (who: Who, b: Place)
    requires Loaded(p, size) && cap > 0 && TaskCount(size) > 1
    requires At(m, size, a) && a.i == 0 && !a.t.TIdle? && !a.r.RSetNext?
    ensures Enabled(p, cap, m, who) && At(Step(p, cap, m, who), size, b) && b.i == 0 && !b.t.TIdle?
    ensures Left(size, b, Step(p, cap, m, who).spi.tx) == Left(size, a, m.spi.tx) - 1 >= 0
  {
    who := SomeStep(p, size, cap, m, a);
    b := StepAt(p, size, cap, m, a, who);
    LeftIsPositive(Step(p, cap, m, who), size, b);
    hide Step, Enabled, Loaded, Race, Left, LogAt, TaskCount, TaskLen, SpiOk, TxMarks, RxMarks;
  }

  lemma {:induction false} Delay(p: Program, size: nat, cap: nat, run: seq<Who>, a: Place) returns (more: seq<Who>)
    requires Loaded(p, size) && cap > 0 && TaskCount(size) > 1
    requires CanRun(p, cap, run) && At(After(p, cap, run), size, a) && a.i == 0 && !a.t.TIdle?
    ensures CanRun(p, cap, more) && EndsInRace(p, cap, more) && After(p, cap, more).fault
    decreases Total(size) + 1 + Left(size, a, After(p, cap, run).spi.tx)
  {
    var m := After(p, cap, run);
    if a.r.RSetNext? {
      more := run + [Ch1];
      assert Front(more) == run;
      RaceThere(p, size, cap, m, a);
    } else {
      hide At, Left, Loaded, Step, Enabled, TaskCount;
      var who, b := DelayStep(p, size, cap, m, a);
      assert Front(run + [who]) == run;
      more := Delay(p, size, cap, run + [who], b);
    }
  }

  lemma RaceThere(p: Program, size: nat, cap: nat, m: Machine, a: Place)
    requires Loaded(p, size) && At(m, size, a) && a.r.RSetNext? && !a.t.TIdle?
    ensures Enabled(p, cap, m, Ch1) && Race(p, m, Ch1) && Step(p, cap, m, Ch1).fault
  {
    assert LinkBlocks(p, a.i);
    WordsReady(cap, m.spi);
    assert Enabled(p, cap, m, Ch1) by { hide Ready; }
    RaceFaults(p, size, cap, m, a);
  }
}
