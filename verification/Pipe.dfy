/** pipe.c: a ring buffer with a wait flag, many producers that may interrupt one another, and one
    consumer. The ring is the one of ringbuf.c with its write pointer moved as it is meant. */
module Pipe {
  import opened CTypes
  import opened RingBuf

  /** Where the consumer stands: before its wait, between the compare-and-swap and the plain store
      of wait_on_waitflag, or behind the wait. */
  datatype Consumer = Outside | Swapped | Waited

  /** The ring, the wait flag, the pushes that have written and not yet woken, the consumer, and
      whether the BUG of pipe_pop fired; all bytes pushed into the ring and all popped. */
  datatype Pipe = Pipe(ring: Ring, flag: bool, pending: nat, consumer: Consumer, bug: bool,
                       pushed: seq<byte>, popped: seq<byte>)

  datatype Step =
    | PushWrite(c: byte) // ringbuf_write under the lock
    | PushWake           // wakeup_waitflag
    | Swap               // the compare-and-swap finds the flag set
    | Store              // the store behind it
    | Woken              // the scheduler finds the flag of the queued consumer set, and clears it
    | PopRead            // ringbuf_read

  function Empty(cap: nat): Pipe { Pipe(Ring(cap, 0, 0, false, []), false, 0, Outside, false, [], []) }

  predicate Enabled(p: Pipe, step: Step) {
    && !p.bug && RingOk(p.ring)
    && match step
       case PushWrite(_) => true
       case PushWake => p.pending > 0
       case Swap => p.consumer.Outside? && p.flag
       case Store => p.consumer.Swapped?
       case Woken => p.consumer.Outside? && p.flag
       case PopRead => p.consumer.Waited?
  }

  function Next(p: Pipe, step: Step): Pipe
    requires Enabled(p, step)
  {
    match step
    case PushWrite(c) =>
      p.(ring := AfterWrite(p.ring, [c], true), pending := p.pending + 1,
         pushed := if Free(p.ring) > 0 then p.pushed + [c] else p.pushed)
    case PushWake => p.(flag := true, pending := p.pending - 1)
    case Swap => p.(flag := false, consumer := Swapped)
    case Store => p.(flag := false, consumer := Waited)
    case Woken => p.(flag := false, consumer := Waited)
    case PopRead =>
      if p.ring.content == [] then p.(bug := true)
      else p.(ring := AfterRead(p.ring, 1), consumer := Outside, popped := p.popped + [p.ring.content[0]])
  }

  // ----- the code, uninterrupted ------------------------------------------------------------

  /** struct pipe, with the state it is in. */
  class PipeBuffer {
    const ring: RingBuffer
    var waitflag: bool
    ghost var state: Pipe

    ghost predicate Valid()
      reads this, ring, ring.buf
    {
      ring.Valid() && state.ring == ring.Value() && state.flag == waitflag && !state.bug
    }

    /** pipe_init. */
    constructor (buf: array<byte>)
      ensures Valid() && state == Empty(buf.Length) && fresh(ring) && ring.buf == buf
    {
      ring := new RingBuffer(buf);
      waitflag := false;
      state := Empty(buf.Length);
    }

    /** pipe_push: the write under the lock and the wakeup behind it. */
    method Push(c: byte)
      requires Valid()
      modifies this, ring, ring.buf
      ensures Valid() && Enabled(old(state), PushWrite(c))
      ensures state == Next(Next(old(state), PushWrite(c)), PushWake)
    {
      WriteKeeps(state.ring, [c], true);
      ghost var written := Next(state, PushWrite(c));
      var n := ring.WriteRepaired([c]);
      waitflag := true;
      state := Next(written, PushWake);
    }

    /** The part of wait_on_waitflag that does not block. */
    method TakeFlag() returns (taken: bool)
      requires Valid() && state.consumer.Outside?
      modifies this
      ensures Valid() && taken == old(waitflag)
      ensures state == if taken then Next(Next(old(state), Swap), Store) else old(state)
    {
      taken := waitflag;
      if taken {
        state := Next(Next(state, Swap), Store);
        waitflag := false;
      }
    }

    /** pipe_pop behind its wait; `bug` is the BUG condition. */
    method PopRead(dst: array<byte>) returns (bug: bool, c: byte)
      requires Valid() && state.consumer.Waited? && dst != ring.buf && dst.Length == 1
      modifies this, ring, dst
      ensures Enabled(old(state), Step.PopRead) && state == Next(old(state), Step.PopRead)
      ensures bug == state.bug && (!bug ==> Valid() && state.popped == old(state).popped + [c])
    {
      ghost var content := state.ring.content;
      state := Next(state, Step.PopRead);
      var n := ring.Read(dst, 1);
      bug := n != 1;
      c := dst[0];
      assert content != [] ==> dst[..1] == content[..1] && dst[..1][0] == content[0];
    }
  }

  // ----- runs -------------------------------------------------------------------------------

  predicate ByConsumer(step: Step) { step.Swap? || step.Store? || step.Woken? || step.PopRead? }

  /** At most k pushes stand between their write and their wakeup when the consumer moves; k is 0
      when pushes are not interrupted by it. */
  predicate Allowed(p: Pipe, k: nat, step: Step) {
    Enabled(p, step) && (ByConsumer(step) ==> p.pending <= k)
  }

  predicate Runs(p: Pipe, k: nat, steps: seq<Step>)
    decreases |steps|
  {
    steps == [] || (Allowed(p, k, steps[0]) && Runs(Next(p, steps[0]), k, steps[1..]))
  }

  function After(p: Pipe, steps: seq<Step>): Pipe
    decreases |steps|
  {
    if steps == [] || !Enabled(p, steps[0]) then p else After(Next(p, steps[0]), steps[1..])
  }

  // ----- when the BUG cannot fire -----------------------------------------------------------

  /** Bytes that are promised: to a set flag, a push that will set it, a consumer let through. */
  function Promised(p: Pipe): nat {
    (if p.flag then 1 else 0) + p.pending + (if p.consumer.Outside? then 0 else 1)
  }

  /** Unless the ring is full, every promise has its byte. */
  predicate PipeOk(p: Pipe, cap: nat) {
    && RingOk(p.ring) && p.ring.cap == cap && !p.bug
    && (Promised(p) <= |p.ring.content| || |p.ring.content| == cap)
  }

  lemma StepKeeps(p: Pipe, cap: nat, k: nat, step: Step)
    requires PipeOk(p, cap) && Allowed(p, k, step) && k + 2 <= cap
    ensures PipeOk(Next(p, step), cap)
  {
    match step {
      case PushWrite(c) => WriteKeeps(p.ring, [c], true);
      case PopRead => ReadKeeps(p.ring, 1);
      case _ =>
    }
  }

  lemma {:induction false} RunKeeps(p: Pipe, cap: nat, k: nat, steps: seq<Step>)
    requires PipeOk(p, cap) && Runs(p, k, steps) && k + 2 <= cap
    ensures PipeOk(After(p, steps), cap)
    decreases |steps|
  {
    if steps != [] {
      StepKeeps(p, cap, k, steps[0]);
      RunKeeps(Next(p, steps[0]), cap, k, steps[1..]);
    }
  }

  // ----- when it can ------------------------------------------------------------------------

  /** A state with u bytes in the ring. */
  predicate Stands(p: Pipe, cap: nat, u: nat, flag: bool, pending: nat, consumer: Consumer) {
    && RingOk(p.ring) && p.ring.cap == cap && |p.ring.content| == u && !p.bug
    && p.flag == flag && p.pending == pending && p.consumer == consumer
  }

  /** From p the steps lead to the BUG. */
  predicate LeadsToBug(p: Pipe, k: nat, steps: seq<Step>) {
    Runs(p, k, steps) && After(p, steps).bug
  }

  lemma First(p: Pipe, k: nat, step: Step, rest: seq<Step>)
    requires Allowed(p, k, step) && LeadsToBug(Next(p, step), k, rest)
    ensures LeadsToBug(p, k, [step] + rest)
  {
    assert ([step] + rest)[1..] == rest;
  }

  lemma PushStands(p: Pipe, cap: nat, u: nat, flag: bool, pending: nat, consumer: Consumer)
    requires Stands(p, cap, u, flag, pending, consumer)
    ensures Enabled(p, PushWrite(0))
    ensures Stands(Next(p, PushWrite(0)), cap, if u < cap then u + 1 else u, flag, pending + 1, consumer)
  {
    WriteKeeps(p.ring, [0], true);
  }

  /** As many pushes as bytes will still wake the consumer, and the flag is set: one byte short. */
  lemma {:induction false} DrainToBug(p: Pipe, cap: nat, k: nat, u: nat) returns (steps: seq<Step>)
    requires Stands(p, cap, u, true, u, Outside) && u <= k
    ensures LeadsToBug(p, k, steps)
    decreases u
  {
    var p1 := Next(p, Swap);
    var p2 := Next(p1, Store);
    var p3 := Next(p2, PopRead);
    if u == 0 {
      assert LeadsToBug(p3, k, []);
      steps := [];
    } else {
      ReadKeeps(p2.ring, 1);
      assert Stands(p3, cap, u - 1, false, u, Outside);
      steps := DrainToBug(Next(p3, PushWake), cap, k, u - 1);
      First(p3, k, PushWake, steps);
      steps := [PushWake] + steps;
    }
    First(p2, k, PopRead, steps);
    First(p1, k, Store, [PopRead] + steps);
    First(p, k, Swap, [Store] + ([PopRead] + steps));
    steps := [Swap] + ([Store] + ([PopRead] + steps));
  }

  /** The ring is full, the flag is set, the consumer is behind its wait: pushes fail, to wake it
      later. */
  lemma {:induction false} BlockedToBug(p: Pipe, cap: nat, k: nat, pending: nat) returns (steps: seq<Step>)
    requires Stands(p, cap, cap, true, pending, Waited) && pending < cap && cap - 1 <= k
    ensures LeadsToBug(p, k, steps)
    decreases cap - pending
  {
    if pending == cap - 1 {
      ReadKeeps(p.ring, 1);
      var p1 := Next(p, PopRead);
      steps := DrainToBug(p1, cap, k, cap - 1);
      First(p, k, PopRead, steps);
      steps := [PopRead] + steps;
    } else {
      PushStands(p, cap, cap, true, pending, Waited);
      steps := BlockedToBug(Next(p, PushWrite(0)), cap, k, pending + 1);
      First(p, k, PushWrite(0), steps);
      steps := [PushWrite(0)] + steps;
    }
  }

  lemma {:induction false} FullToBug(p: Pipe, cap: nat, k: nat) returns (steps: seq<Step>)
    requires Stands(p, cap, cap, true, 0, Outside) && 0 < cap <= k + 1
    ensures LeadsToBug(p, k, steps)
  {
    var p1 := Next(p, Swap);
    var p2 := Next(p1, Store);
    PushStands(p2, cap, cap, false, 0, Waited);
    var p3 := Next(p2, PushWrite(0));
    var p4 := Next(p3, PushWake);
    steps := BlockedToBug(p4, cap, k, 0);
    First(p3, k, PushWake, steps);
    First(p2, k, PushWrite(0), [PushWake] + steps);
    First(p1, k, Store, [PushWrite(0)] + ([PushWake] + steps));
    First(p, k, Swap, [Store] + ([PushWrite(0)] + ([PushWake] + steps)));
    steps := [Swap] + ([Store] + ([PushWrite(0)] + ([PushWake] + steps)));
  }

  lemma {:induction false} FillToBug(p: Pipe, cap: nat, k: nat, u: nat, flag: bool) returns (steps: seq<Step>)
    requires Stands(p, cap, u, flag, 0, Outside) && u <= cap && 0 < cap <= k + 1 && (u == cap ==> flag)
    ensures LeadsToBug(p, k, steps)
    decreases cap - u
  {
    if u == cap {
      steps := FullToBug(p, cap, k);
    } else {
      PushStands(p, cap, u, flag, 0, Outside);
      var p1 := Next(p, PushWrite(0));
      steps := FillToBug(Next(p1, PushWake), cap, k, u + 1, true);
      First(p1, k, PushWake, steps);
      First(p, k, PushWrite(0), [PushWake] + steps);
      steps := [PushWrite(0)] + ([PushWake] + steps);
    }
  }

  /** No run of a pipe of `cap` bytes can fire the BUG exactly when the capacity is at least two
      more than the pushes that may be in progress while the consumer moves. */
  lemma BugExact(cap: nat, k: nat)
    requires cap > 0
    ensures (forall steps :: !LeadsToBug(Empty(cap), k, steps)) <==> k + 2 <= cap
  {
    if k + 2 <= cap {
      forall steps ensures !LeadsToBug(Empty(cap), k, steps) {
        if Runs(Empty(cap), k, steps) {
          RunKeeps(Empty(cap), cap, k, steps);
        }
      }
    } else {
      var steps := FillToBug(Empty(cap), cap, k, 0, false);
      assert LeadsToBug(Empty(cap), k, steps);
    }
  }

  /** What was pushed is what was popped and what is in the ring. */
  predicate Fifo(p: Pipe) { RingOk(p.ring) && p.pushed == p.popped + p.ring.content }

  lemma PushOne(r: Ring, c: byte)
    requires RingOk(r)
    ensures RingOk(AfterWrite(r, [c], true))
    ensures AfterWrite(r, [c], true).content == if Free(r) > 0 then r.content + [c] else r.content
  {
    WriteKeeps(r, [c], true);
    assert [c][..1] == [c] && [c][..0] == [];
  }

  lemma PopOne(r: Ring)
    requires RingOk(r) && r.content != []
    ensures RingOk(AfterRead(r, 1))
    ensures r.content == [r.content[0]] + AfterRead(r, 1).content
  {
    ReadKeeps(r, 1);
  }

  lemma FifoStep(p: Pipe, step: Step)
    requires Fifo(p) && Enabled(p, step)
    ensures Fifo(Next(p, step))
  {
    hide AfterWrite, AfterRead, RingOk;
    match step {
      case PushWrite(c) => PushOne(p.ring, c);
      case PopRead =>
        if p.ring.content != [] {
          PopOne(p.ring);
        }
      case _ =>
    }
  }

  lemma {:induction false} FifoRun(p: Pipe, k: nat, steps: seq<Step>)
    requires Fifo(p) && Runs(p, k, steps)
    ensures Fifo(After(p, steps))
    decreases |steps|
  {
    if steps != [] {
      FifoStep(p, steps[0]);
      FifoRun(Next(p, steps[0]), k, steps[1..]);
    }
  }

  /** In every run the bytes come out in the order in which they went in. */
  lemma PipeIsFifo(cap: nat, k: nat, steps: seq<Step>)
    requires Runs(Empty(cap), k, steps)
    ensures After(Empty(cap), steps).popped <= After(Empty(cap), steps).pushed
  {
    FifoRun(Empty(cap), k, steps);
  }
}
