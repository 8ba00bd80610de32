/** tft_lcd_print_data: the compiler from a frame buffer to two chains of DMA control blocks that
    program each other, and what the two channels do when they run its output (BCM2835 ARM
    Peripherals, chapter 4 and section 10.6.3). */
module DmaProgram {
  import opened Bits

  // ----- control blocks ---------------------------------------------------------------------

  /** Bus addresses the program mentions. Cb(k) is the k-th control block of the allocated table. */
  datatype Addr =
    | Null
    | Header(task: nat) | Frame(offset: nat) | NextTx(task: nat)
    | TxEndmark(task: nat) | RxEndmark(task: nat) | SpiStopWord | CsStartWord
    | SpiFifo | SpiCs | DmaCs0 | DmaCs1 | DmaConblkAd0
    | Cb(index: nat)

  datatype AddrType = INC_Y | INC_N | IGNOR
  datatype Dreq = NONE | SPI_TX | SPI_RX
  datatype DreqSide = SIDE_NONE | SRC | DST

  datatype Ti = Ti(srcType: AddrType, dstType: AddrType, dreq: Dreq, dreqType: DreqSide, wait: bool)

  const TI_TX_PIPE: Ti := Ti(INC_Y, INC_N, SPI_TX, DST, true)
  const TI_RX_PIPE: Ti := Ti(INC_N, IGNOR, SPI_RX, SRC, false)
  const TI_MM_PIPE: Ti := Ti(INC_Y, INC_Y, NONE, SIDE_NONE, true)

  /** dma_make_ti_value (include/dma_regs.h:81-115): the transfer information word of a block. */
  function MakeTiValue(ti: Ti): nat {
    var src := match ti.srcType case IGNOR => 0x800 case INC_Y => 0x100 case INC_N => 0;
    var dst := match ti.dstType case IGNOR => 0x80 case INC_Y => 0x10 case INC_N => 0;
    var side := match ti.dreqType case SRC => 0x400 case DST => 0x40 case SIDE_NONE => 0;
    var dreq := match ti.dreq case SPI_TX => 6 case SPI_RX => 7 case NONE => 0;
    var value := Or(Or(src, dst), side);
    Or(Or(Or(value, BitsAtPos(dreq, 5, 16)), 0x400_0000), if ti.wait then 8 else 0)
  }

  // The three words the program uses.
  const TX_WORD: nat := 0x406_0148
  const RX_WORD: nat := 0x407_0480
  const MM_WORD: nat := 0x400_0118

  lemma Powers()
    ensures Pow2(4) == 16 && Pow2(5) == 32 && Pow2(7) == 0x80 && Pow2(10) == 0x400
    ensures Pow2(16) == 0x1_0000 && Pow2(19) == 0x8_0000
  {
    Pow2Adds(7, 9);
    Pow2Adds(16, 3);
  }

  lemma TxWordIs()
    ensures MakeTiValue(TI_TX_PIPE) == TX_WORD
  {
    Powers();
    hide Or, Pow2;
    OrDisjoint(2, 0x40, 7);
    OrZero(0x100);
    OrDisjoint(6, 0x140, 16);
    OrDisjoint(0x80, 0x6_0140, 19);
    OrDisjoint(0x40_6014, 8, 4);
  }

  lemma RxWordIs()
    ensures MakeTiValue(TI_RX_PIPE) == RX_WORD
  {
    Powers();
    hide Or, Pow2;
    OrZero(0x80);
    OrDisjoint(1, 0x80, 10);
    OrDisjoint(7, 0x480, 16);
    OrDisjoint(0x80, 0x7_0480, 19);
    OrZero(0x407_0480);
  }

  lemma MmWordIs()
    ensures MakeTiValue(TI_MM_PIPE) == MM_WORD
  {
    Powers();
    hide Or, Pow2;
    OrDisjoint(2, 0x10, 7);
    OrZero(0x110);
    OrDisjoint(0x80, 0x110, 19);
    OrDisjoint(0x40_0011, 8, 4);
  }

  /** The words of the three pipes. */
  lemma TiWords()
    ensures MakeTiValue(TI_TX_PIPE) == TX_WORD
    ensures MakeTiValue(TI_RX_PIPE) == RX_WORD
    ensures MakeTiValue(TI_MM_PIPE) == MM_WORD
  {
    TxWordIs();
    RxWordIs();
    MmWordIs();
  }

  datatype ControlBlock = ControlBlock(ti: nat, src: Addr, dst: Addr, len: nat, next: Addr)

  const MAX_TASK_SIZE: nat := 65464
  const MAX_TASKS: nat := 8
  const SPI_CS_TA: nat := 0x80
  const SPI_CS_DMAEN: nat := 0x100
  const SPI_STOP: nat := SPI_CS_DMAEN
  const DMA_CS_ACTIVE: nat := 1
  const DMA_CS_END: nat := 2
  const DMA_CS_START: nat := DMA_CS_ACTIVE + DMA_CS_END
  const TABLE_SIZE: nat := 64

  /** The header word of a task: its length above bit 16, and TA. */
  function HeaderWord(len: nat): nat { len * 0x10000 + SPI_CS_TA }

  // ----- what the table has to hold ---------------------------------------------------------

  function Offset(i: nat): nat { i * MAX_TASK_SIZE }

  function TaskCount(size: nat): nat { (size + MAX_TASK_SIZE - 1) / MAX_TASK_SIZE }

  function TaskLen(size: nat, i: nat): nat {
    if size < Offset(i) then 0
    else if size - Offset(i) < MAX_TASK_SIZE then size - Offset(i) else MAX_TASK_SIZE
  }

  /** Where the eight blocks of a task stand; the first task has only the first four. */
  function HeaderAt(i: nat): nat { if i == 0 then 0 else 8 * i - 4 }
  function RxAt(i: nat): nat { HeaderAt(i) + 1 }
  function PayloadAt(i: nat): nat { HeaderAt(i) + 2 }
  function EndmarkAt(i: nat): nat { HeaderAt(i) + 3 }
  function SetNextAt(i: nat): nat { HeaderAt(i) + 4 }
  function SpiStopAt(i: nat): nat { HeaderAt(i) + 5 }
  function StartNextAt(i: nat): nat { HeaderAt(i) + 6 }
  function RxEndmarkAt(i: nat): nat { HeaderAt(i) + 7 }

  datatype Program = Program(cbs: seq<ControlBlock>, headers: seq<nat>, nextTx: seq<Addr>)

  /** The blocks of task i, with `after` next to its receive block. */
  ghost predicate TaskBlocks(p: Program, size: nat, i: nat, after: Addr) {
    && EndmarkAt(i) < |p.cbs| && i < |p.headers|
    && p.headers[i] == HeaderWord(TaskLen(size, i))
    && p.cbs[HeaderAt(i)] == ControlBlock(TX_WORD, Header(i), SpiFifo, 4, Cb(PayloadAt(i)))
    && p.cbs[PayloadAt(i)]
         == ControlBlock(TX_WORD, Frame(Offset(i)), SpiFifo, TaskLen(size, i), Cb(EndmarkAt(i)))
    && p.cbs[EndmarkAt(i)] == ControlBlock(MM_WORD, DmaCs0, TxEndmark(i), 8, Null)
    && p.cbs[RxAt(i)] == ControlBlock(RX_WORD, SpiFifo, Null, TaskLen(size, i), after)
  }

  /** The blocks that channel 1 runs between task i and task i + 1. */
  ghost predicate LinkBlocks(p: Program, i: nat) {
    && RxEndmarkAt(i + 1) < |p.cbs| && i + 1 < |p.nextTx|
    && p.nextTx[i + 1] == Cb(HeaderAt(i + 1))
    && p.cbs[SetNextAt(i + 1)]
         == ControlBlock(MM_WORD, NextTx(i + 1), DmaConblkAd0, 4, Cb(SpiStopAt(i + 1)))
    && p.cbs[SpiStopAt(i + 1)]
         == ControlBlock(MM_WORD, SpiStopWord, SpiCs, 4, Cb(RxEndmarkAt(i + 1)))
    && p.cbs[RxEndmarkAt(i + 1)]
         == ControlBlock(MM_WORD, DmaCs1, RxEndmark(i), 8, Cb(StartNextAt(i + 1)))
    && p.cbs[StartNextAt(i + 1)]
         == ControlBlock(MM_WORD, CsStartWord, DmaCs0, 4, Cb(RxAt(i + 1)))
  }

  /** What follows the receive block of task i when there are n tasks. */
  function AfterRx(i: nat, n: nat): Addr {
    if i + 1 < n then Cb(SetNextAt(i + 1)) else Null
  }

  /** The first n tasks are in the table and chained to each other. */
  ghost predicate Chained(p: Program, size: nat, n: nat) {
    && (forall i {:trigger TaskBlocks(p, size, i, AfterRx(i, n))} ::
          0 <= i < n ==> TaskBlocks(p, size, i, AfterRx(i, n)))
    && (forall i {:trigger LinkBlocks(p, i)} :: 0 <= i && i + 1 < n ==> LinkBlocks(p, i))
  }

  // ----- the generator ----------------------------------------------------------------------

  /** dma_program_cb. */
  method DmaProgramCb(cbs: array<ControlBlock>, cb: nat, src: Addr, dst: Addr, len: nat, ti: Ti, next: Addr)
    requires cb < cbs.Length
    modifies cbs
    ensures cbs[..] == old(cbs[..])[cb := ControlBlock(MakeTiValue(ti), src, dst, len, next)]
  {
    cbs[cb] := ControlBlock(MakeTiValue(ti), src, dst, len, next);
  }

  lemma TaskCountStep(size: nat, k: nat)
    requires Offset(k) < size
    ensures k < TaskCount(size)
    ensures size <= Offset(k + 1) ==> TaskCount(size) == k + 1
  {}

  /** The first loop of tft_lcd_print_data: one header word per task. */
  method FillHeaders(headers: array<nat>, size: nat) returns (numTasks: nat)
    requires TaskCount(size) <= headers.Length
    modifies headers
    ensures numTasks == TaskCount(size)
    ensures forall i :: 0 <= i < numTasks ==> headers[i] == HeaderWord(TaskLen(size, i))
  {
    numTasks := 0;
    var transferLen: nat := size;
    while transferLen != 0
      invariant transferLen > 0 ==> transferLen + Offset(numTasks) == size
      invariant transferLen == 0 ==> numTasks == TaskCount(size)
      invariant numTasks <= TaskCount(size)
      invariant forall i :: 0 <= i < numTasks ==> headers[i] == HeaderWord(TaskLen(size, i))
    {
      TaskCountStep(size, numTasks);
      var len := if transferLen < MAX_TASK_SIZE then transferLen else MAX_TASK_SIZE;
      headers[numTasks] := HeaderWord(len);
      numTasks := numTasks + 1;
      transferLen := transferLen - len;
    }
  }

  /** The four blocks every task has, from slot cb on. */
  method ProgramTaskBlocks(cbs: array<ControlBlock>, i: nat, cb: nat, src: nat, len: nat)
    requires cb + 4 <= cbs.Length
    modifies cbs
    ensures cbs[cb] == ControlBlock(TX_WORD, Header(i), SpiFifo, 4, Cb(cb + 2))
    ensures cbs[cb + 1] == ControlBlock(RX_WORD, SpiFifo, Null, len, Null)
    ensures cbs[cb + 2] == ControlBlock(TX_WORD, Frame(src), SpiFifo, len, Cb(cb + 3))
    ensures cbs[cb + 3] == ControlBlock(MM_WORD, DmaCs0, TxEndmark(i), 8, Null)
    ensures cbs[..cb] == old(cbs[..cb])
  {
    TiWords();
    hide MakeTiValue;
    DmaProgramCb(cbs, cb, Header(i), SpiFifo, 4, TI_TX_PIPE, Cb(cb + 2));
    DmaProgramCb(cbs, cb + 2, Frame(src), SpiFifo, len, TI_TX_PIPE, Cb(cb + 3));
    DmaProgramCb(cbs, cb + 3, DmaCs0, TxEndmark(i), 8, TI_MM_PIPE, Null);
    DmaProgramCb(cbs, cb + 1, SpiFifo, Null, len, TI_RX_PIPE, Null);
    var t := cbs[..];
    assert cbs[cb] == t[cb] && cbs[cb + 1] == t[cb + 1] && cbs[cb + 2] == t[cb + 2] && cbs[cb + 3] == t[cb + 3];
    assert cbs[..cb] == t[..cb];
  }

  /** The four blocks from slot cb on that link the receive block prevRx to task i. */
  method ProgramLinkBlocks(cbs: array<ControlBlock>, i: nat, cb: nat, rx: nat, prevRx: nat)
    requires 0 < i && prevRx < rx < cb && cb + 4 <= cbs.Length
    modifies cbs
    ensures cbs[cb] == ControlBlock(MM_WORD, NextTx(i), DmaConblkAd0, 4, Cb(cb + 1))
    ensures cbs[cb + 1] == ControlBlock(MM_WORD, SpiStopWord, SpiCs, 4, Cb(cb + 3))
    ensures cbs[cb + 2] == ControlBlock(MM_WORD, CsStartWord, DmaCs0, 4, Cb(rx))
    ensures cbs[cb + 3] == ControlBlock(MM_WORD, DmaCs1, RxEndmark(i - 1), 8, Cb(cb + 2))
    ensures cbs[..cb] == old(cbs[..cb])[prevRx := old(cbs[prevRx]).(next := Cb(cb))]
  {
    TiWords();
    hide MakeTiValue;
    cbs[prevRx] := cbs[prevRx].(next := Cb(cb));
    DmaProgramCb(cbs, cb, NextTx(i), DmaConblkAd0, 4, TI_MM_PIPE, Cb(cb + 1));
    DmaProgramCb(cbs, cb + 1, SpiStopWord, SpiCs, 4, TI_MM_PIPE, Cb(cb + 3));
    DmaProgramCb(cbs, cb + 3, DmaCs1, RxEndmark(i - 1), 8, TI_MM_PIPE, Cb(cb + 2));
    DmaProgramCb(cbs, cb + 2, CsStartWord, DmaCs0, 4, TI_MM_PIPE, Cb(rx));
    var t := cbs[..];
    assert cbs[cb] == t[cb] && cbs[cb + 1] == t[cb + 1] && cbs[cb + 2] == t[cb + 2] && cbs[cb + 3] == t[cb + 3];
    assert cbs[..cb] == t[..cb];
  }

  /** The table so far, with the last receive block linked to task i. */
  function Relinked(cbs: seq<ControlBlock>, i: nat): seq<ControlBlock> {
    if i > 0 && RxAt(i - 1) < |cbs| then cbs[RxAt(i - 1) := cbs[RxAt(i - 1)].(next := Cb(SetNextAt(i)))] else cbs
  }

  /** Tasks already in the table stay when only the receive block of the last one is re-linked. */
  lemma ChainedGrows(p: Program, q: Program, size: nat, i: nat)
    requires Chained(p, size, i) && SameBefore(p, q, i)
    requires TaskBlocks(q, size, i, Null)
    requires i > 0 ==> LinkBlocks(q, i - 1)
    ensures Chained(q, size, i + 1)
  {
    hide TaskBlocks, LinkBlocks, SameBefore;
    forall j {:trigger TaskBlocks(q, size, j, AfterRx(j, i + 1))} | 0 <= j < i + 1
      ensures TaskBlocks(q, size, j, AfterRx(j, i + 1))
    {
      if j < i {
        assert TaskBlocks(p, size, j, AfterRx(j, i));
        TaskStays(p, q, size, i, j);
      }
    }
    forall j {:trigger LinkBlocks(q, j)} | 0 <= j && j + 1 < i + 1
      ensures LinkBlocks(q, j)
    {
      if j + 1 < i {
        assert LinkBlocks(p, j);
        LinkStays(p, q, i, j);
      }
    }
  }

  /** Before task i only its link was added. */
  ghost predicate SameBefore(p: Program, q: Program, i: nat) {
    && HeaderAt(i) <= |p.cbs| && HeaderAt(i) <= |q.cbs| && i <= |p.nextTx| <= |q.nextTx|
    && p.headers == q.headers
    && q.nextTx[..i] == p.nextTx[..i]
    && q.cbs[..HeaderAt(i)] == Relinked(p.cbs[..HeaderAt(i)], i)
  }

  lemma TaskStays(p: Program, q: Program, size: nat, i: nat, j: nat)
    requires SameBefore(p, q, i) && j < i && TaskBlocks(p, size, j, AfterRx(j, i))
    ensures TaskBlocks(q, size, j, AfterRx(j, i + 1))
  {
    assert forall k :: 0 <= k < HeaderAt(i) ==>
      q.cbs[k] == q.cbs[..HeaderAt(i)][k] && p.cbs[k] == p.cbs[..HeaderAt(i)][k];
  }

  lemma LinkStays(p: Program, q: Program, i: nat, j: nat)
    requires SameBefore(p, q, i) && j + 1 < i && LinkBlocks(p, j)
    ensures LinkBlocks(q, j)
  {
    assert q.nextTx[j + 1] == q.nextTx[..i][j + 1] == p.nextTx[j + 1];
    assert forall k :: 0 <= k < HeaderAt(i) ==>
      q.cbs[k] == q.cbs[..HeaderAt(i)][k] && p.cbs[k] == p.cbs[..HeaderAt(i)][k];
  }

  lemma HeaderWordFacts(len: nat)
    requires len <= MAX_TASK_SIZE
    ensures HeaderWord(len) / 0x10000 == len
    ensures HeaderWord(len) / 0x10000 % 0x10000 == len
    ensures HeaderWord(len) / 0x80 % 2 == 1 && HeaderWord(len) % 0x80 == 0
  {
    var w := HeaderWord(len);
    assert w == 128 * (512 * len + 1);
    assert w / 128 == 512 * len + 1;
    assert 512 * len + 1 == 2 * (256 * len) + 1;
    assert (2 * (256 * len) + 1) % 2 == 1;
  }

  lemma TaskLenBound(size: nat, i: nat)
    ensures TaskLen(size, i) <= MAX_TASK_SIZE
  {}

  /** The second loop, for one task: its control blocks, and the link from the task before. */
  method ProgramTask(cbs: array<ControlBlock>, headers: array<nat>, nextTx: array<Addr>,
                     i: nat, cb0: nat, src: nat, prevRx: nat, ghost size: nat)
    returns (cb: nat, len: nat, rx: nat)
    requires cbs.Length == TABLE_SIZE && headers.Length == 64 && nextTx.Length == 64
    requires i < MAX_TASKS && cb0 == HeaderAt(i) && src == Offset(i)
    requires i > 0 ==> prevRx == RxAt(i - 1)
    requires headers[i] == HeaderWord(TaskLen(size, i))
    requires Chained(Program(cbs[..], headers[..], nextTx[..]), size, i)
    modifies cbs, nextTx
    ensures cb == HeaderAt(i + 1) && len == TaskLen(size, i) && rx == RxAt(i)
    ensures Chained(Program(cbs[..], headers[..], nextTx[..]), size, i + 1)
  {
    ghost var p := Program(cbs[..], headers[..], nextTx[..]);
    len := headers[i] / 0x10000 % 0x10000;
    hide HeaderWord, TaskLen, Chained;
    TaskLenBound(size, i);
    HeaderWordFacts(TaskLen(size, i));
    assert len == TaskLen(size, i);
    rx := cb0 + 1;
    ProgramTaskBlocks(cbs, i, cb0, src, len);
    cb := cb0 + 4;
    if i > 0 {
      ghost var mid := cbs[..];
      assert mid[..cb0] == p.cbs[..cb0];
      ProgramLinkBlocks(cbs, i, cb, rx, prevRx);
      assert cbs[..cb0] == cbs[..cb][..cb0];
      nextTx[i] := Cb(cb0);
      cb := cb + 4;
    }
    ghost var q := Program(cbs[..], headers[..], nextTx[..]);
    TaskBlocksAre(q, size, i, cb0, src, len);
    if i > 0 {
      LinkBlocksAre(q, i, cb0 + 4, cb0);
    }
    hide TaskBlocks, LinkBlocks;
    assert q.cbs[..cb0] == Relinked(p.cbs[..cb0], i);
    ChainedGrows(p, q, size, i);
  }

  lemma TaskBlocksAre(p: Program, size: nat, i: nat, cb: nat, src: nat, len: nat)
    requires cb == HeaderAt(i) && src == Offset(i) && len == TaskLen(size, i)
    requires cb + 4 <= |p.cbs| && i < |p.headers| && p.headers[i] == HeaderWord(len)
    requires p.cbs[cb] == ControlBlock(TX_WORD, Header(i), SpiFifo, 4, Cb(cb + 2))
    requires p.cbs[cb + 1] == ControlBlock(RX_WORD, SpiFifo, Null, len, Null)
    requires p.cbs[cb + 2] == ControlBlock(TX_WORD, Frame(src), SpiFifo, len, Cb(cb + 3))
    requires p.cbs[cb + 3] == ControlBlock(MM_WORD, DmaCs0, TxEndmark(i), 8, Null)
    ensures TaskBlocks(p, size, i, Null)
  {}

  lemma LinkBlocksAre(p: Program, i: nat, cb: nat, header: nat)
    requires i > 0 && header == HeaderAt(i) && cb == SetNextAt(i) && cb + 4 <= |p.cbs|
    requires i < |p.nextTx| && p.nextTx[i] == Cb(header)
    requires p.cbs[cb] == ControlBlock(MM_WORD, NextTx(i), DmaConblkAd0, 4, Cb(cb + 1))
    requires p.cbs[cb + 1] == ControlBlock(MM_WORD, SpiStopWord, SpiCs, 4, Cb(cb + 3))
    requires p.cbs[cb + 2] == ControlBlock(MM_WORD, CsStartWord, DmaCs0, 4, Cb(header + 1))
    requires p.cbs[cb + 3] == ControlBlock(MM_WORD, DmaCs1, RxEndmark(i - 1), 8, Cb(cb + 2))
    ensures LinkBlocks(p, i - 1)
  {}

  /** tft_lcd_print_data up to the start of the channels: the program for a frame of `size` bytes. */
  method PrintData(cbs: array<ControlBlock>, headers: array<nat>, nextTx: array<Addr>, size: nat)
    returns (numTasks: nat, used: nat)
    requires cbs.Length == TABLE_SIZE && headers.Length == 64 && nextTx.Length == 64
    requires 0 < size <= 8 * 65464
    modifies cbs, headers, nextTx
    ensures numTasks == TaskCount(size) && 1 <= numTasks <= MAX_TASKS
    ensures used == HeaderAt(numTasks) <= 60
    ensures Chained(Program(cbs[..], headers[..], nextTx[..]), size, numTasks)
  {
    numTasks := FillHeaders(headers, size);
    var cb, src, prevRx := 0, 0, 0;
    for i := 0 to numTasks
      invariant cb == HeaderAt(i) && (i < numTasks ==> src == Offset(i)) && (i > 0 ==> prevRx == RxAt(i - 1))
      invariant forall k :: 0 <= k < numTasks ==> headers[k] == HeaderWord(TaskLen(size, k))
      invariant Chained(Program(cbs[..], headers[..], nextTx[..]), size, i)
    {
      var len;
      cb, len, prevRx := ProgramTask(cbs, headers, nextTx, i, cb, src, prevRx, size);
      src := src + len / 4 * 4;
    }
    used := cb;
  }
}
