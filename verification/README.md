# Verification model of the Raspberry Pi 3 kernel

A Dafny model of the parts of the kernel in which the difficulty lies, with proofs about them.
`dafny verify dfyconfig.toml` checks everything.

| module | file | what it models |
|---|---|---|
| `CTypes`, `Bits` | CTypes.dfy, Bits.dfy | C integers, masks and 64-bit arithmetic on natural numbers |
| `Mmu` | Mmu.dfy | the page-table builder, and the hardware walk of section D5.3 of ARM DDI 0487 |
| `Lists` | Lists.dfy | intrusive circular lists on the heap |
| `SchedModel`, `SchedOrder`, `SchedSystem`, `SchedRuns` | SchedModel.dfy, SchedOrder.dfy, SchedSystem.dfy, SchedRuns.dfy | the scheduler on values, the order of its queues, its steps interleaved with interrupts, and whole runs |
| `Scheduling` | Sched.dfy | the scheduler as it is coded, over linked lists, proved to compute `SchedModel` |
| `SchedHeap` | SchedHeap.dfy | the steps and runs of `SchedSystem` carried out on the heap by `Scheduling` |
| `DmaProgram`, `DmaRun` | DmaProgram.dfy, DmaRun.dfy | the generator of the two DMA chains of the display, and a small-step semantics of both channels, the SPI port and the CPU |
| `Fat32`, `Fat32Image`, `Fat32Table` | Fat32.dfy, Fat32Image.dfy, Fat32Table.dfy | following a cluster chain while writing to the same disk, and what that comes to in bytes of the table and of the disk |
| `Numerals`, `Printf`, `Strtol`, `RoundTrip` | Numerals.dfy, Printf.dfy, Strtol.dfy, RoundTrip.dfy | bounded printing, number parsing, and the two against each other |
| `Spi` | Spi.dfy | the bit-banged SPI master and the sampling slave |
| `Flash` | Flash.dfy | AVR flash programming against a chip that can be busy |
| `RingBuf`, `Pipe` | RingBuf.dfy, Pipe.dfy | the ring buffer and the pipe over it |
| `Binblock` | Binblock.dfy | the crash-dump frame and its parser |
| `Rect` | Rect.dfy | the rectangle split |

Code that changes state is modelled by methods over arrays and classes, each proved equal to a
function on values; the lemmas are about those functions, runs of them, and independent references
(the hardware walk, the positional numeral, the wave on the wires, the channel semantics).

## Where the code does less than it is meant to

Each of these is modelled as it is, with the exact condition under which it works.

- `wait_on_waitflag` stores 0 after a successful compare-and-swap (sched.c:256): a wakeup in between
  is lost, and only then (`SchedRuns.LostExactlyInWindow`, `SchedRuns.LostWakeupRun`).
- The counter `waitflag_is_set` goes up with every wakeup and down when a queued waiter is woken. The
  check of sched.c:338 fires when more than 2^64 - 2^16 of them have not been delivered
  (`SchedRuns.WakeTooMany`), and in no run that stays below (`SchedRuns.FewWakes`,
  `SchedRuns.BootSafety`).
- Nothing in the DMA program orders the end-mark copy of channel 0 before channel 1 re-points it
  (`DmaRun.RaceIsPossible`), so the program is safe exactly for frames of one task
  (`DmaRun.RaceExact`); every run without that race is right (`DmaRun.RunsComplete`).
- The sum in fs/fat32/fat32.c:435 wraps for files within one sector of 4 GiB, and then nothing is
  visited (`Fat32Image.SizeSectorsExact`). An image longer than the file is cut without an error.
- The division loop prints magnitudes from 2^63 on with a first character that is no digit
  (`RoundTrip.DivisionLoopExact`); from 10^19 on it reads beyond its table
  (`Printf.ClosestRoundBase10Div`); a prefixed hex number with a precision can ask memset for a
  negative length (`RoundTrip.HexPaddingExact`); the returned length leaves out `%c` and cut text
  (`RoundTrip.ReturnExact`); the prefix flag of `%p` stays set for later conversions; a decimal precision
  pads with zeros only up to the width (`RoundTrip.FlagsLayout`).
- strtoll with base 0 reads a text that begins with 0 in base two, not eight (`RoundTrip.BinaryDetected`),
  and binary values from 2^31 on come out too small (`Strtol.BinaryResultExact`).
- The ticks of a slice that a task ends by waiting are charged to nobody (`SchedRuns.TicksCharged`,
  `SchedRuns.WaitDropsTick`).
- A flash write that ends in the last page is refused (`Flash.AcceptedExact`).
- `ringbuf_write` does not move its pointer in the wrapped state (ringbuf.c:89-92,
  `RingBuf.FifoExact`, `RingBuf.LossHappens`). With that repaired, the BUG of `pipe_pop` still fires when the capacity is
  less than two more than the pushes that can be in progress (`Pipe.BugExact`).

## Model

| member | source | states |
|---|---|---|
| `Mmu.MakePagePteValue` | arch/armv8/mmu.c:123-135 | the or of shifted fields is their sum: a page entry is 3 + 4 attr + 0x20 NS bit + 0x100 shareability + 0x400 AF + the page times 4096, for any page below 2^36 |
| `Mmu.MakeTablePteValue` | arch/armv8/mmu.c:137-142 | a table entry with zero attribute bits is 3 + the page times 4096 |
| `Mmu.PagePteDecodes` | arch/armv8/mmu.c:119-135 | the page macros on all their arguments: the hardware reads back every field as it was put in, cut to its width, whatever the others are |
| `Mmu.TablePteDecodes` | arch/armv8/mmu.c:137-142 | the table macro on all its arguments: the hardware reads back a table descriptor of the page, which limits the rights of the pages below by exactly the NS, AP, XN and PXN bits given |
| `Mmu.PageEntryFields` | arch/armv8/mmu.c:123-135 | reading a built page entry as the hardware does gives valid, page, access flag, the attribute index, shareability and page that were put in, and the rights NS 1, AP 0, nG 0, contiguous 0, PXN 0, UXN 0; no bit above 47 is set |
| `Mmu.TableEntryFields` | arch/armv8/mmu.c:137-142 | reading a built table entry as the hardware does gives a valid table descriptor of the given page, with no bit above 47 set |
| `Mmu.TableEntryLimits` | arch/armv8/mmu.c:290-301 | its NSTable, APTable, UXNTable and PXNTable bits take nothing from the rights of any page below it |
| `Mmu.LayoutIsPaged` | arch/armv8/mmu.c:317-333 | the four level areas begin at page boundaries behind one another, each as long as its level needs, and end with the block |
| `Mmu.NoOverflow` | arch/armv8/mmu.c:317-333 | no sum of the level arithmetic leaves a C int for exactly the page counts up to 0x7ffffe00, which is the bound the other results have |
| `Mmu.TablePte` | arch/armv8/mmu.c:137-142 | the method computes that table entry as a 64-bit word |
| `Mmu.PagePte` | arch/armv8/mmu.c:263-283 | the method computes that page entry as a 64-bit word |
| `Mmu.MapPagePtes` | arch/armv8/mmu.c:263-288 | exactly num_pages entries are stored, the i-th for physical page start + i with the attributes given; all other memory is as before |
| `Mmu.MapTablePtes` | arch/armv8/mmu.c:290-301 | exactly pte_count entries are stored, the i-th pointing at the i-th page of the next level area; all other memory is as before |
| `Mmu.MapTables` | arch/armv8/mmu.c:345-358 | after the three table loops (in the order 0, 2, 1) every table entry of every level is laid, nothing outside the areas is touched |
| `Mmu.MapRanges` | arch/armv8/mmu.c:360-366 | after the range loop each level 3 entry is that of the last range covering its page, and is unchanged if no range does |
| `Mmu.MapLinearRange` | arch/armv8/mmu.c:303-367 | for any supported page count, base and list of ranges: it panics exactly when pa_end is not page-aligned, and otherwise leaves laid tables, storing nothing outside the block |
| `Mmu.EntryDecodes` | arch/armv8/mmu.c:263-288 | decoding a level 3 entry, its permission bits included, gives the translation of its page by the list of ranges, or a fault when no range covers it |
| `Mmu.WalkTranslates` | arch/armv8/mmu.c:303-367 | main result: the four-level hardware walk of laid tables, with the limits that table entries set, gives for every virtual address exactly the translation that the ranges say (page, low 12 bits, attribute index, shareability, and the rights non-secure, AP 0, global, PXN 0, UXN 0; the last range wins), and faults everywhere else below 2^48 |
| `Mmu.MmuInit` | arch/armv8/mmu.c:441-475 | for all DMA bounds below the peripherals the shipped configuration leaves tables whose walk is the identity on [0, 0x40002000) with the attributes and rights of InitMap and faults above |
| `Mmu.InitTiles` | arch/armv8/mmu.c:447-475 | the five ranges cover every page below the end exactly once and no page above it |
| `Mmu.InitTranslate` | arch/armv8/mmu.c:447-475 | the five ranges translate every address to itself, with the attribute index of its part of memory and the rights above |
| `Mmu.InitMapAttributes` | arch/armv8/mmu.c:447-487 | for page-aligned DMA bounds: below 0x40002000 every address is itself, outer shareable, writable and executable at EL1, without EL0 data access, and has the attribute byte 0x04 exactly on the DMA pages and the peripherals, 0xff elsewhere; above it faults |
| `Lists.InitListHead` | include/list.h:20-24 | a node alone is a circle of one |
| `Lists.ListEmpty` | include/list.h:26-30 | answers whether the circle has only its head |
| `Lists.AddBetween` | include/list.h:44-57 | a node put between two neighbours of a circle makes a circle with it at that place |
| `Lists.AddTail` | include/list.h:74-75 | the node is last in the circle; no other node changes |
| `Lists.Del` | include/list.h:110-116 | the circle without the node is a circle, and the node points nowhere |
| `Lists.DelInit` | include/list.h:123-128 | the circle without the node is a circle, and the node is one of its own |
| `Lists.MoveTail` | include/list.h:44-57 | del_init and add_tail among several disjoint circles (a node of one may go to another): all stay circles, disjoint, and the node has moved |
| `SchedModel.TimerPassKeeps` | sched.c:308-318 | the timer loop over any list of waiting tasks keeps every task on exactly one queue, the one its state names |
| `SchedModel.TimerPassTask` | sched.c:308-318 | a visited task leaves the timer queue exactly when its deadline has passed, and then it is runnable; all others stay |
| `SchedModel.FlagPassKeeps` | sched.c:320-352 | the flag loop keeps the queues in order and the counter at least the number of set flags, so its decrement never wraps |
| `SchedModel.FlagPassTask` | sched.c:320-352 | a visited task is woken only if its flag was set, the flag is clear afterwards, and a task that was not woken stays with its flag |
| `SchedModel.FlagPassFlag` | sched.c:320-352 | a flag the loop clears has woken a task that waited for it; others are untouched |
| `SchedModel.ScheduleKeeps` | sched.c:359-407 | one call keeps the whole invariant, finds a task on the running list, and starts its head with ten ticks |
| `SchedModel.ScheduleTask` | sched.c:359-407 | what one call does to any one task: which queue it is on before decides, with deadline and flag, which it is on after |
| `SchedModel.ScheduleTotals` | sched.c:371-387 | one call charges the ticks of the slice to the task that leaves, unless that waits, and nobody else with anything |
| `SchedModel.ScheduleFlag` | sched.c:359-407 | what one call does to any one flag |
| `SchedModel.ScheduleWakes` | sched.c:339-350 | a task alone in waiting for a set flag is runnable after the next call |
| `SchedOrder.TimerPassOrder` | sched.c:308-318 | the timer loop moves exactly the expired tasks behind the running list, in the order of the queue |
| `SchedOrder.FlagPassOrder` | sched.c:339-350 | the flag loop moves the first waiter of each set flag behind the running list, in the order of the queue, and clears exactly their flags |
| `SchedOrder.ScheduleOrder` | sched.c:359-407 | one call, queue by queue: behind the ready tasks come the current one, if it can run, the tasks whose deadline has passed in the order in which they were queued, and the first waiter of each set flag in that order; the others stay in their order |
| `SchedSystem.BootInv` | sched.c:484-516 | the state that scheduler_init leaves meets the invariant |
| `SchedSystem.StepInv` | sched.c:239-407 | every step of every task and interrupt, in any state that meets the invariant, keeps it, and the underflow BUG does not fire |
| `SchedSystem.ScheduleInv` | sched.c:359-407 | schedule called from a tick or a yield keeps the invariant with all program counters |
| `SchedRuns.RunInv` | sched.c:98-463 | safety over every run, however ticks, wakeups, yields and waiting calls interleave |
| `SchedRuns.BootSafety` | sched.c:98-516 | from boot: in every reachable state every task is on exactly the queue its state names, none is lost, the counter is at least the number of set flags, and no BUG has fired |
| `SchedRuns.StepTask` | sched.c:239-407 | what any step does to any one task |
| `SchedRuns.PendingStep` | sched.c:251-278 | a waiting task whose flag is set stays so until the first schedule after it queued itself, which makes it runnable |
| `SchedRuns.NoLostWakeup` | sched.c:251-278 | once the compare-and-swap has failed, a wakeup at any later point, before or after the task is queued, has it on the running list at the first schedule that finds it queued (one waiter per flag) |
| `SchedRuns.NoLostWakeupFromSwap` | sched.c:251-278 | the same from the failing compare-and-swap on: anything may happen before the wakeup, and between it and that schedule |
| `SchedRuns.WaitingStep` | sched.c:251-265 | until its flag is set a waiting task stays so, whatever is done |
| `SchedRuns.SetFlagSchedules` | sched.c:409-417 | a set flag makes the next tick call schedule |
| `SchedRuns.TickDelivers` | sched.c:320-352 | so the next tick at the latest makes the queued waiter of a set flag runnable |
| `SchedRuns.FlagCleared` | sched.c:251-278 | the three ways in which a set flag is ever cleared |
| `SchedRuns.LostExactlyInWindow` | sched.c:255-258 | a set flag is wiped by the plain store of line 256, rather than taken or delivered, if and only if the task stood between its successful compare-and-swap and that store when the flag was set |
| `SchedRuns.LostWakeupRun` | sched.c:255-258 | a concrete run from boot in which two wakeups give only one return of the wait |
| `SchedRuns.WakeTooMany` | sched.c:338-338 | with the counter at the bound of the check, one more wakeup and the next tick panic; below it no run does (BootSafety) |
| `SchedRuns.TimerNotEarly` | sched.c:239-249 | a timer waiter stays on its list in every run without a schedule at or after the deadline in its record |
| `SchedRuns.TimerOnTime` | sched.c:308-318 | it is on the running list after the first schedule at or after its deadline |
| `SchedRuns.TimerWait` | sched.c:239-249 | a wait of msec milliseconds that begins at count n of a clock of freq counts per second: however it is interleaved, the task is inside the call until it is queued, then stays queued in every run without a schedule at or after (n + freq / 1000 * msec) mod 2^64, and is runnable after the first schedule that is |
| `SchedRuns.ReadyStep` | sched.c:359-407 | a step without schedule only appends to the ready tasks, schedule takes their head |
| `SchedRuns.RoundRobin` | sched.c:280-292 | the k-th ready task is dispatched by exactly the (k + 1)-th next call of schedule |
| `SchedRuns.ReadyMovesUp` | sched.c:359-407 | until then it moves up by one place at each call |
| `SchedRuns.TicksBound` | sched.c:409-463 | over any run the ticks are at most ten for each call of schedule, up to what is left of the current slice |
| `SchedRuns.DispatchedWithin` | sched.c:359-463 | a run with more than k calls of schedule has a state in which the k-th ready task is current |
| `SchedRuns.WaitBound` | sched.c:409-463 | the k-th ready task waits for at most 10 (k + 1) ticks |
| `SchedRuns.ScheduleSettles` | sched.c:359-407 | the first call of schedule makes the current task the head of the running list |
| `SchedRuns.RoundRobinFromBoot` | sched.c:359-516 | from boot, in every state after the first call of schedule: the k-th ready task is dispatched by the (k + 1)-th next call |
| `SchedRuns.WaitBoundFromBoot` | sched.c:359-516 | and within 10 (k + 1) ticks |
| `SchedRuns.TicksCharged` | sched.c:359-463 | conservation: over every run a task is charged (ticks_total, and the running slice) with exactly the ticks that arrived while it was current, but for the slices it ended by waiting |
| `SchedRuns.TicksChargedFromBoot` | sched.c:359-516 | the same from boot, where nobody has been charged with anything |
| `SchedRuns.WaitDropsTick` | sched.c:371-387 | a run from boot in which a task uses one tick and waits, and nobody is charged with it |
| `SchedHeap.Cpu.TakeStep` | sched.c:98-463 | every step of the interleaved system, carried out on the linked lists by the code, leaves circles that hold exactly the queues of the next state |
| `SchedHeap.Cpu.TakeSteps` | sched.c:98-463 | the same for every run of every interleaving |
| `SchedHeap.RunFromInit` | sched.c:98-516 | whole-run heap invariant: from scheduler_init on, after any run that can happen, the three lists are circles, apart from each other, and hold the state of the run |
| `Scheduling.Scheduler.QueueRunnable` | sched.c:98-103 | on the heap lists: the abstract state changes exactly as the model operation, all three lists stay circles |
| `Scheduling.Scheduler.QueueTimewait` | sched.c:105-110 | the same for the timer list |
| `Scheduling.Scheduler.QueueFlagwait` | sched.c:112-118 | the same for the flag list |
| `Scheduling.Scheduler.HandleTimerWaiting` | sched.c:308-318 | the safe loop over the linked list, moving nodes away as it goes, is the model pass over the original elements: each is visited exactly once |
| `Scheduling.Scheduler.HandleFlagWaiting` | sched.c:320-352 | the same for the flag loop, with the check of line 338 |
| `Scheduling.Scheduler.RequeueCurrent` | sched.c:366-387 | the accounting and requeueing of the task that leaves, by its state |
| `Scheduling.Scheduler.SchedulerPickNextTask` | sched.c:280-292 | the owner of the first node, with a full slice |
| `Scheduling.Scheduler.Schedule` | sched.c:359-407 | the imperative schedule over linked lists computes the model function, or panics exactly when the counter check says so |
| `Scheduling.Scheduler.ScheduleFromIrq` | sched.c:442-463 | the tick: one tick less, and schedule exactly when needed |
| `Scheduling.Scheduler.WakeupWaitflag` | sched.c:267-278 | flag set and counter one up |
| `Scheduling.Scheduler.WaitOnTimerMs` | sched.c:239-249 | deadline modulo 2^64, queueing and yield in sequence |
| `Scheduling.Scheduler.StoreUntil` | sched.c:245-245 | the deadline of the current task, nothing else |
| `Scheduling.Scheduler.WaitOnWaitflag` | sched.c:251-265 | compare-and-swap, then store and return, or queueing and yield |
| `Scheduling.Scheduler.StartTask` | sched.c:194-230 | a new task is put at the end of the running list |
| `Scheduling.Scheduler.SchedulerInit` | sched.c:484-516 | builds the three lists with idle and init, the boot state of the model |
| `DmaProgram.FillHeaders` | drivers/tft_lcd/tft_lcd.c:434-441 | exactly ceil(size / 65464) header words, each with the length of its task and TA |
| `DmaProgram.TiWords` | include/dma_regs.h:81-115 | the or of the transfer information bits of the three pipes is 0x04060148, 0x04070480 and 0x04000118 |
| `DmaProgram.ProgramTaskBlocks` | drivers/tft_lcd/tft_lcd.c:443-457 | the four blocks of a task, with those words and their links |
| `DmaProgram.ProgramLinkBlocks` | drivers/tft_lcd/tft_lcd.c:459-472 | the four blocks between two tasks; the receive block before is re-linked and nothing else of the table changes |
| `DmaProgram.ProgramTask` | drivers/tft_lcd/tft_lcd.c:443-475 | one round of the loop extends a well-chained table by a task |
| `DmaProgram.PrintData` | drivers/tft_lcd/tft_lcd.c:434-475 | for every size 1..523712: at most 60 of the 64 blocks are used, and the table holds all tasks, chained |
| `DmaRun.WordsRead` | drivers/tft_lcd/tft_lcd.c:361-366 | what a channel reads from the three words: who paces it (peripheral 6 on writes, 7 on reads, or nobody), which address moves, which side is ignored, and that writes are waited for |
| `DmaRun.StepAt` | drivers/tft_lcd/tft_lcd.c:434-485 | every step of a channel, the CPU or the serial line, if it is no race, leads from a place of the program to the next, keeping TA, DMAEN, mode, length, FIFO conservation, log and end marks, and leaves exactly one step less to take |
| `DmaRun.SomeStep` | drivers/tft_lcd/tft_lcd.c:434-485 | no deadlock: before the end some step is possible that is no race, for any FIFO depth |
| `DmaRun.RunStands` | drivers/tft_lcd/tft_lcd.c:434-485 | every run stands at a place of the program, or its last step was a race; it has gone wrong if and only if that is so |
| `DmaRun.RunsComplete` | drivers/tft_lcd/tft_lcd.c:434-485 | main result, with the addresses computed from the transfer information words: every race-free interleaving has at most 3 size + 6 n - 2 steps; one that cannot go on has exactly so many, both channels idle, FIFOs empty, has pushed header 0, payload 0, header 1, payload 1, ..., the frame bytes 0, 1, 2, ... in order, and each channel has saved both words of every end mark |
| `DmaRun.LogIsPrefix` | drivers/tft_lcd/tft_lcd.c:434-485 | at every moment the port has been given a beginning of that log, and never a header while TA was set |
| `DmaRun.SegmentsTile` | drivers/tft_lcd/tft_lcd.c:443-475 | the payload segments of the tasks tile the buffer in order |
| `DmaRun.RaceFaults` | drivers/tft_lcd/tft_lcd.c:466-466 | a race takes channel 1 re-pointing channel 0 while the end-mark copy of channel 0 has not ended, and goes wrong |
| `DmaRun.RaceIsPossible` | drivers/tft_lcd/tft_lcd.c:455-469 | for every frame of two tasks or more such a run exists: nothing in the program orders the two |
| `DmaRun.RaceExact` | drivers/tft_lcd/tft_lcd.c:395-490 | what a caller can check: no run goes wrong if and only if the frame is at most 65464 bytes |
| `Fat32.Session.GetNextClusterNum` | fs/fat32/fat32.c:14-41 | the table word of the cluster, the end mark beyond the table, or the error word of a failed read |
| `Fat32.Session.WriteImagePerSector` | fs/fs.c:192-211 | one piece written and the source advanced, or stop with or without an error, with the whole new state |
| `Fat32.Session.IterateClusterSectors` | fs/fat32/fat32.c:432-436 | the inner loop is the recursive visit of the cluster sectors until the callback stops |
| `Fat32.Session.IterateFileSectors` | fs/fat32/fat32.c:417-449 | the two loops terminate on every table, cyclic ones included, and compute the recursive iteration |
| `Fat32.Session.WriteImageToSd` | fs/fs.c:213-238 | the outcome from a fresh context, and what it returns |
| `Fat32.ClusterIt.Next` | fs/fat32/fat32.c:196-202 | the next cluster, valid unless it is one of the two end marks |
| `Fat32.ClSectorIter.constructor` | fs/fat32/fat32.c:221-236 | the first sector of a cluster with the 32-bit product of the code, and the end of the range |
| `Fat32.WritesDoNotMoveTheFile` | fs/fat32/fat32.c:417-449 | main result: on any table whatever, reading it between the writes visits the sectors that the table of the original disk gives, and nothing in front of the data area changes |
| `Fat32Image.SizeSectorsExact` | fs/fat32/fat32.c:435-435 | the sector count is ceil(size / sector size) if and only if size + sector size is at most 2^32; otherwise it is zero |
| `Fat32Image.EndedChainIsAcyclic` | fs/fat32/fat32.c:196-202 | a chain that comes to an accepted end mark has no cluster twice |
| `Fat32Image.VisitCount` | fs/fat32/fat32.c:417-449 | as many visits as sectors if the chain is long enough, else just those of its clusters |
| `Fat32Image.VisitAt` | fs/fat32/fat32.c:217-246 | the k-th visit is to sector k mod spc of cluster k / spc of the chain |
| `Fat32Image.FirstSectorIs` | fs/fat32/fat32.c:221-236 | for a cluster in range the wrapped product is data start + (cluster - 2) * spc |
| `Fat32Image.SectorsApart` | fs/fat32/fat32.c:221-236 | different clusters have no sector in common |
| `Fat32Image.FoldPlaces` | fs/fs.c:192-211 | writing over any list of different sectors puts piece k on the k-th and leaves every other sector as it was |
| `Fat32Image.FoldEnds` | fs/fs.c:192-211 | error, source position, calls and stop at the end of that |
| `Fat32Image.ImageWritten` | fs/fs.c:213-241 | main result: after write_image_to_sd each written piece is on the sector of the file with its number, all else on the disk is unchanged, the file still has its sectors, and no error is reported exactly when all pieces that image and file have in common were written |
| `Fat32Image.ImageInPlace` | fs/fs.c:213-241 | for a chain that covers the file with accessible sectors: no error, and piece k of the image is on sector k mod spc of cluster k / spc for every k below both counts |
| `Fat32Image.ImageReadBack` | fs/fs.c:213-241 | iterating over the file again reads the written part of the image back |
| `Fat32Image.PrintedSectors` | fs/fat32/fat32.c:411-449 | with the printing callback the iteration lists the sectors and changes nothing |
| `Fat32Image.FileVisits` | fs/fat32/fat32.c:417-449 | a file has exactly ceil(size / sector size) visits, on the sectors of its chain, unless the chain ends first, and then just those of its clusters |
| `Fat32Image.CalledBack` | fs/fat32/fat32.c:417-449 | any callback is called on those visits in order, and on all of them unless it stops |
| `Fat32Table.EntryIsRead` | fs/fat32/fat32.c:14-41 | four bytes, lowest first, at 4 * (c mod (sectorSize / 4)) of sector reserved + c / (sectorSize / 4) are the successor of cluster c |
| `Fat32Table.ChainIsList` | fs/fat32/fat32.c:196-202 | following the table gives the list it holds, and then its end mark |
| `Fat32Table.ListIsAcyclic` | fs/fat32/fat32.c:196-202 | a list that a table holds has no cluster twice |
| `Fat32Table.TableVisits` | fs/fat32/fat32.c:417-449 | the iteration over such a file visits ceil(size / sectorSize) sectors, the k-th at that place |
| `Fat32Table.ImageOnTable` | fs/fs.c:213-241 | main result in bytes: on a disk whose table holds the chain of the file, all its sectors being accessible, write_image_to_sd gives no error, puts the k-th 512 bytes of the image on sector reserved + fats * sectorsPerFat + (list[k / spc] - 2) * spc + k mod spc of the partition for every k that image and file both have, and changes no other sector |
| `Printf.PrintfCtx.Memcpy` | lib/stringlib/sprintf.c:95-101 | what fits of a text is put behind what is there; what is cut is not counted |
| `Printf.PrintfCtx.Memset` | lib/stringlib/sprintf.c:103-109 | the same for a repeated character, counted in full; it goes wrong exactly with a negative length |
| `Printf.PrintfCtx.AppendC` | lib/stringlib/sprintf.c:78-83 | the same for one character |
| `Printf.PrintfCtx.Number10Div` | lib/stringlib/sprintf.c:391-401 | the division loop sends the characters that signed 64-bit division gives, and goes wrong exactly beyond the 20 entries of the table |
| `Printf.PrintfCtx.Number10Nodiv` | lib/stringlib/sprintf.c:403-416 | the subtracting loop sends the decimal digits |
| `Printf.PrintfCtx.PrintNumber10` | lib/stringlib/sprintf.c:377-442 | spaces, sign, zeros and digits in the layout of the flags, for exactly the magnitudes below 10^19 |
| `Printf.PrintfCtx.PrintNumber10D` | lib/stringlib/sprintf.c:457-489 | sign and magnitude are taken from 32 or 64 bits |
| `Printf.PrintfCtx.PrintNumber10U` | lib/stringlib/sprintf.c:444-455 | the unsigned conversion, right for exactly the values below 10^19 |
| `Printf.PrintfCtx.PrintNumber16` | lib/stringlib/sprintf.c:491-534 | spaces, prefix, zeros and the nibbles from the highest; wrong exactly with a negative count of spaces |
| `Printf.PrintfCtx.PrintString` | lib/stringlib/sprintf.c:536-553 | a string as far as it fits, counted in full |
| `Printf.PrintfCtx.PrintChar` | lib/stringlib/sprintf.c:555-562 | a character or a dot, not counted |
| `Printf.PrintfCtx.PrintItem` | lib/stringlib/sprintf.c:608-617 | the dispatch by conversion character, with the prefix flag that is never cleared, and which items go wrong |
| `Printf.Vsnprintf` | lib/stringlib/sprintf.c:673-710 | truncation law: for every list of items and every n it goes wrong exactly with one of the items above, and otherwise a buffer of n > 0 bytes ends as the first min(full, n - 1) characters, a NUL, and otherwise its old contents; n = 0 writes nothing; and the exact return value |
| `Printf.ClosestRoundBase10Div` | lib/stringlib/sprintf.c:286-295 | the number of decimal digits for exactly the values below 10^19; from there on the wrapped powers give more than the table has |
| `Printf.SearchTable` | lib/stringlib/sprintf.c:297-311 | the binary search ends at the right power or one below it |
| `Printf.ClosestRoundBase10Nodiv` | lib/stringlib/sprintf.c:297-321 | for every 64-bit value the greatest power of ten not above it |
| `Printf.GetDigit` | lib/stringlib/sprintf.c:361-374 | quotient and the part it stands for, by repeated addition; for 10^19, where that wraps, right exactly if the digit is 0 |
| `RoundTrip.DivTextIsLow` | lib/stringlib/sprintf.c:391-401 | below 2^63 the division loop sends the decimal digits |
| `RoundTrip.DivisionLoopExact` | lib/stringlib/sprintf.c:391-401 | of the magnitudes below 10^19 it prints exactly those below 2^63 as their numerals; from there on the first character is no digit |
| `RoundTrip.LoopsAgree` | lib/stringlib/sprintf.c:391-416 | below 2^63 the two digit loops send the same characters |
| `RoundTrip.MeasuresAgree` | lib/stringlib/sprintf.c:286-321 | the two ways to count digits agree up to the one by which their conventions differ |
| `RoundTrip.DecimalRoundTrip` | lib/stringlib/sprintf.c:377-489 | for every number (64 bits above the least, or 32 bits), any flags, width and precision: strtoll of the text in memory is the number, reads all of it, and the length is max(width, sign + digits) |
| `RoundTrip.FlagsLayout` | lib/stringlib/sprintf.c:377-442 | where spaces and zeros go for every width, precision and zero flag; a precision fills with zeros up to the width only |
| `RoundTrip.BufferRoundTrip` | lib/stringlib/sprintf.c:673-710 | the same through vsnprintf and the memory it leaves |
| `RoundTrip.UnsignedRoundTrip` | lib/stringlib/sprintf.c:444-455 | the same for every unsigned number below 2^63 (the low 32 bits of an int, else the whole word): it can be printed, is read back from the memory vsnprintf leaves, and the length is max(width, sign + digits) |
| `RoundTrip.HexRoundTrip` | lib/stringlib/sprintf.c:491-534 | strtoll base 16 of the prefixed text of any 64-bit word, or of the low 32 bits for an int, is that number, read as a signed word |
| `RoundTrip.HexLength` | lib/stringlib/sprintf.c:507-518 | without a precision the text has max(width, prefix + digits) characters |
| `RoundTrip.HexPaddingExact` | lib/stringlib/sprintf.c:508-518 | memset is asked for a negative count exactly with a prefix, a precision above the digit count and a width below precision + 2 |
| `RoundTrip.ReturnExact` | lib/stringlib/sprintf.c:95-101 | the returned length is that of the full text exactly when no %c was printed and no text between conversions was cut |
| `RoundTrip.NibbleCount` | lib/stringlib/sprintf.c:501-508 | the leading-zero arithmetic gives the number of hex digits, 1 for zero |
| `Strtol.SumDigits` | lib/stringlib/strtol.c:78-81 | the backward walk computes the value of the digits modulo 2^64 |
| `Strtol.DigitOf` | lib/stringlib/strtol.c:97-108 | the comparisons of the code give the digit value |
| `Strtol.SumBits` | lib/stringlib/strtol.c:62-66 | the backward walk of the binary branch, with 32-bit shifts |
| `Strtol.BinaryExact` | lib/stringlib/strtol.c:53-66 | the sum is the positional value of the bits if that is below 2^31, with any leading zeros, and too small otherwise |
| `Strtol.BinaryResultExact` | lib/stringlib/strtol.c:53-66 | the same for the result, for up to 63 bits |
| `Strtol.Number` | lib/stringlib/strtol.c:30-113 | base detection, prefix, forward and backward walk behind the sign |
| `Strtol.Strtoll` | lib/stringlib/strtol.c:3-121 | for every string and base: spaces, plus and minus, number, wrapped to 64 bits, and where reading ended |
| `RoundTrip.HexDetected` | lib/stringlib/strtol.c:30-49 | with base 0, a text that begins with 0x or 0X behind spaces and a sign is read in base sixteen, to the end of its digits |
| `RoundTrip.DecimalDetected` | lib/stringlib/strtol.c:30-40 | one that begins with another digit in base ten |
| `RoundTrip.BinaryDetected` | lib/stringlib/strtol.c:30-67 | a text that begins with 0 without x is read in base two: bits of value below 2^31, behind spaces and a sign, give that value and are all read |
| `Strtol.ValueOfFirst` | lib/stringlib/strtol.c:78-81 | summing from the right is positional value |
| `Numerals.ValueOfDigits` | lib/stringlib/strtol.c:68-82 | the value of a numeral is its number |
| `Numerals.LowFirst` | lib/stringlib/sprintf.c:403-416 | the lowest digits of a number from the left |
| `Spi.Master.XmitBit` | spi/spi_emulated.c:98-128 | the three pin writes of a bit |
| `Spi.Master.Xmit` | spi/spi_emulated.c:308-341 | the pin trace of a whole string is the wave: CE0 falls, three levels for each bit, CE0 rises |
| `Spi.HighestFirst` | spi/spi_emulated.c:308-341 | at the rising edge of bit t the data pin is bytes[t / 8] / 2^(7 - t mod 8) mod 2: of each byte the highest bit first |
| `Spi.SlaveXmitByte` | spi/spi_emulated.c:212-270 | the polling loop computes the sample automaton |
| `Spi.CallReads` | spi/spi_emulated.c:225-270 | one call started anywhere in the phase before reads exactly the byte that is sent |
| `Spi.TransfersArrive` | spi/spi_emulated.c:212-341 | main result: for any number of transfers, any samples of CE0 high before and between them, and any sampling of each wave that hits each clock phase, with any stuttering, the calls return exactly the strings sent |
| `Spi.TransferArrives` | spi/spi_emulated.c:212-341 | the same for one transfer |
| `Spi.CallHasEdges` | spi/spi_emulated.c:230-265 | of any samples whatever: a returned byte comes from eight rising edges in order, its bits are those sampled there, and CE0 was not sampled high from the first to the last |
| `Flash.Programmer.PageFill` | drivers/atmega8a/atmega8a.c:251-277 | the page buffer of the chip is the source page exactly when every transfer was sent; the flash is untouched |
| `Flash.Programmer.PageWrite` | drivers/atmega8a/atmega8a.c:279-332 | for all arguments: which are refused; success means the page was programmed and, unless the byte to check is 0xff, the chip is ready again and shows it; it succeeds exactly when all transfers were sent, the chip was never busy for more than 63 commands and the programmed flash has that byte |
| `Flash.Programmer.AwaitByte` | drivers/atmega8a/atmega8a.c:304-327 | up to 64 reads find the byte exactly when all are sent, the chip is busy for at most 63 of them and has the byte |
| `Flash.Programmer.WriteOnePage` | drivers/atmega8a/atmega8a.c:378-395 | one page, or its skipping when it is all 0xff; it succeeds exactly when transfers and delays allow and the first byte that is not 0xff can be shown |
| `Flash.Programmer.WriteFlash` | drivers/atmega8a/atmega8a.c:363-403 | it succeeds exactly when the arguments are accepted, all transfers were sent, the chip was never busy for more than 63 commands, and every page can show its first byte that is not 0xff; then the flash is the old one programmed with the buffer at those pages; on a failure with a part of it; refused arguments change nothing |
| `Flash.Programmer.ReadFlash` | drivers/atmega8a/atmega8a.c:405-429 | it succeeds exactly when all transfers were sent; for every start, odd ones included, byte k read is flash byte (start + k) mod 8192 |
| `Flash.FindFirstNot` | drivers/atmega8a/atmega8a.c:334-341 | the first byte that differs, or -1 if none does |
| `Flash.AcceptedExact` | drivers/atmega8a/atmega8a.c:343-361 | of the page-wise writes that fit, exactly those that end in the last page are refused |
| `Flash.ProgrammedBlank` | drivers/atmega8a/atmega8a.c:394-395 | programming 0xff is no change, so such pages may be skipped |
| `Flash.ErasedShows` | drivers/atmega8a/atmega8a.c:363-403 | erased flash shows every page, so there only transfers and delays decide |
| `Flash.ErasedHoldsBuffer` | drivers/atmega8a/atmega8a.c:363-403 | on erased flash the buffer is there afterwards and all other bytes are as before |
| `RingBuf.RingBuffer.Read` | ringbuf.c:51-82 | returns the first min(size, content) bytes and leaves the others, in both states |
| `RingBuf.RingBuffer.Write` | ringbuf.c:84-110 | as written: in the wrapped state bytes are reported and not kept; otherwise accepted bytes are appended |
| `RingBuf.RingBuffer.WriteRepaired` | ringbuf.c:84-110 | with the pointer moved at line 91, accepted bytes are always appended |
| `RingBuf.WriteKeeps` | ringbuf.c:84-110 | a write appends what it accepted if and only if it is not one with room in the wrapped state |
| `RingBuf.FifoExact` | ringbuf.c:51-110 | over every run: accepted bytes are returned bytes followed by the content if and only if no write was made in the wrapped state with room left |
| `RingBuf.LossHappens` | ringbuf.c:89-92 | five operations on a ring of two bytes after which one of four accepted bytes is lost |
| `RingBuf.RepairedIsFifo` | ringbuf.c:51-110 | with the pointer moved this holds over every run |
| `Pipe.PipeBuffer.Push` | pipe.c:3-10 | write and wakeup in sequence are the two steps of the model, on the repaired ring |
| `Pipe.PipeBuffer.TakeFlag` | sched.c:255-258 | taking a set flag is the swap and the store |
| `Pipe.PipeBuffer.PopRead` | pipe.c:12-18 | behind the wait the oldest byte is popped, or the BUG condition holds |
| `Pipe.StepKeeps` | pipe.c:3-18 | every set flag, unfinished push and consumer behind its wait has its byte, unless the ring is full |
| `Pipe.BugExact` | pipe.c:3-18 | for the repaired ring: no run fires the BUG of pipe_pop if and only if the capacity is at least two more than the pushes that may be between write and wakeup while the consumer moves |
| `Pipe.PipeIsFifo` | pipe.c:3-18 | in every run bytes come out in the order in which they went in |
| `Binblock.BinToAsciiHex` | binblock.c:7-23 | as many bytes as fit are written as two digits each |
| `Binblock.Line.SendAsciiBin` | binblock.c:25-40 | what is sent is the hex text of all bytes, whatever the chunk size, unless the sender took less than it was given |
| `Binblock.Line.BinblockSend` | binblock.c:42-56 | the frame of magic, id, checksum, length and data; -1 exactly when magic or id were not taken whole, while short hex text is not noticed |
| `Binblock.ChecksumBasic` | lib/checksum.c:3-10 | the loop is the recursive checksum |
| `Binblock.ChecksumIsSum` | lib/checksum.c:3-10 | the checksum is the sum of the bytes modulo 2^32 |
| `Binblock.MagicBytes` | binblock.c:45-46 | the magic is the bytes 66, 73, 78, 66, 76, 79, 67, 75 |
| `Binblock.HexAt` | binblock.c:7-23 | the two characters of byte k are 0123456789abcdef at its high and its low four bits |
| `Binblock.FillRegs` | cpuctx_generic.c:12-38 | at most 40 registers, names cut to seven characters and zero-filled |
| `Binblock.FillException` | binblock.c:58-71 | the structure, or -1 and no change when the buffer is too small |
| `Binblock.StackLoop` | parse_uart_capture.py:201-208 | the loop is the recursive parse |
| `Binblock.RegsLoop` | parse_uart_capture.py:180-189 | the loop is the recursive parse; it terminates because every register moves on in the buffer |
| `Binblock.UnhexOfHex` | parse_uart_capture.py:133-146 | unhexlify of the hex text is the bytes |
| `Binblock.FromLeOfLe` | parse_uart_capture.py:133-146 | unpacking the little-endian bytes of a number gives the number |
| `Binblock.HeaderParsed` | parse_uart_capture.py:219-235 | of every frame anywhere in a buffer the magic, id, byte sum modulo 2^32 and length come back, and the payload stands behind |
| `Binblock.StackRoundTrip` | parse_uart_capture.py:201-235 | every stack block of a multiple of eight bytes comes back as its words, from which its bytes follow |
| `Binblock.ExceptionRoundTrip` | parse_uart_capture.py:173-235 | every exception block with fewer than 40 named registers comes back whole |
| `Rect.GetIntersectionRegions` | rectangle.c:68-176 | 0 and no change exactly when the rectangles do not meet; otherwise the nine regions: the middle is the common part, the others lie in r0 and outside r1, together they are r0 |
| `Rect.NineSplit` | rectangle.c:85-173 | the regions split r0, point by point |
| `Rect.MeetExact` | rectangle.c:81-83 | the four comparisons decide whether there is a common point |

## Left out

Assumptions and parts of a modelled operation:

- Mmu.MapLinearRange: pa_start is 0, the base is page-aligned, page counts are at most 0x7ffffe00, so that their rounding fits a C int, and output pages below 2^36, at most 512 level 0 entries; caches, barriers and the system registers are not modelled; SCTLR_EL1.WXN is taken as clear.
- SchedSystem.StepInv: one CPU; time slices of other CPUs and wakeups across CPUs are not modelled; the idle task makes no waiting call; the cycle counter does not wrap; at most 40 tasks, none of which ends.
- SchedRuns.NoLostWakeup: one waiter per flag, as the kernel uses flags.
- SchedRuns.RoundRobin: from the first call of schedule on, because scheduler_init starts the second task of the list.
- Scheduling.Scheduler.Schedule: the context switch itself is not modelled, only which task becomes current.
- DmaProgram.PrintData: it ends where the channels are started; caches, dma_alloc and the wait at line 488, which does not wait, are not modelled. Control blocks are values with symbolic bus addresses.
- DmaRun.RunsComplete: payload moves byte by byte; both FIFOs have any depth of at least one; a block with an effect that the program never asks for, and a write that the channel does not wait for, is a fault.
- Fat32Image.ImageWritten: sectors per cluster is at least 1, logical sectors have 4 to 512 bytes, and there are reserved sectors and a table in front of the data; the chain must have its clusters in range and different, which a chain with an accepted end mark does by itself. The file is given by its first cluster and size: directory lookup is left out.
- Fat32Table.ImageOnTable: the other end marks from 0x0ffffff8 on are not taken as such by the code, so a chain that ends in one of them is not covered.
- Fat32.Session.WriteImageToSd: set-up of the card, the partition table and opening the file system are not modelled; a bad sector always fails.
- Printf.Vsnprintf: the format-string parser is not modelled; a format is a list of texts and conversions with their arguments. The size is below 2^31, because the limit of __printf_strlcpy is an int. When it goes wrong, nothing is said about the first n bytes or the result.
- Printf.PrintfCtx.Number10Nodiv: it is called with the length of its argument, and that is at most 19; the source does not compile it in.
- RoundTrip.DecimalRoundTrip: the least 64-bit number is left out; its magnitude is 2^63, which `RoundTrip.DivisionLoopExact` shows to print wrongly.
- Strtol.SumBits: signed overflow and shifts beyond 31 are given the behaviour of the AArch64 instructions.
- Spi.Master.Xmit: MISO, the verbose output, unconnected pins and delays are left out; SCLK rests low.
- Spi.SlaveXmitByte: it ends without a byte when the given samples run out, where the code goes on polling.
- Flash.Programmer.WriteFlash: page numbers and sizes are not negative; fuses, EEPROM, signature and reset are left out.
- RingBuf.RingBuffer.Write: sizes are not negative; a read and a write do not overlap in time.
- Pipe.BugExact: one consumer; the scheduler's handling of the wait flag is one step.
- Binblock.Line.BinblockSend: the return value of a sender is a count, not an error; data is shorter than 2^31 bytes where checksum_basic takes an int.
- Binblock.ExceptionRoundTrip: names have one to seven ASCII characters; with 40 registers the structure has no terminator and the parser reads beyond it.
- Rect.GetIntersectionRegions: sums of offsets and sizes stay within an int; pairwise disjointness of the side strips does not hold and is not claimed.

Parts of the repository that are not modelled:

- gpio_set.c: only its table invariant would be of interest, and it is an easy one.
- kmalloc.c, dma_memory.c, include/bitmap.h, include/bitword.h: the index arithmetic is wrong in several places, so a model would be of another allocator.
- semaphore.c, mutex.c: waiters are never unlinked and mutexes are stubs.
- FAT32 directory iteration and lookup, which reads past the sector and does not enter sub-directories.
- clip_segment of rectangle.c, the `pipe_debug`, `ringbuf_debug` and printing functions.
- Register access, assembly, caches, spinlocks across cores, USB, eMMC, UART, mailbox, camera, other displays, consoles and the command runner.
