/** The scheduler's heap over whole runs: every step of the system in SchedSystem, carried out on
    the linked lists by the code of Sched.dfy, and every interleaving of such steps. */
module SchedHeap {
  import opened CTypes
  import opened SchedModel
  import opened SchedSystem
  import opened SchedRuns
  import opened Lists
  import opened Scheduling

  /** One CPU: the scheduler, where each task is, and the cycle counter. */
  class Cpu {
    const h: Scheduler
    var pc: seq<Pc>
    var now: nat
    /** Everything that steps may write. */
    ghost var repr: set<object>

    constructor (h: Scheduler, pc: seq<Pc>)
      requires h.Valid() && Inv(Sys(h.abs, pc, 0, false))
      ensures Valid() && fresh(repr - {h, h.flags} - h.nodes - h.Records())
      ensures this.h == h && this.pc == pc && now == 0
    {
      this.h, this.pc, now := h, pc, 0;
      repr := {h, h.flags} + h.nodes + h.Records();
      new;
      repr := repr + {this};
    }

    ghost function Value(): Sys
      reads this, h
    {
      Sys(h.abs, pc, now, false)
    }

    /** The lists are circles that hold the queues, and the records and flags are those of a state
        that meets the invariant. */
    ghost predicate Valid()
      reads this, repr
    {
      && this in repr && h in repr && h.flags in repr && h.nodes <= repr
      && (forall k :: 0 <= k < |h.tasks| ==> h.tasks[k] in repr)
      && h.Valid() && Inv(Value())
    }

    /** What the steps need of the invariant. */
    lemma Facts()
      requires Valid()
      ensures SchedOk(h.abs, WAITFLAG_PANIC) && h.abs.isSet <= WAITFLAG_PANIC && Sized(Value())
      ensures h.current.pid == h.abs.current && h.place[h.abs.current] < 3
    {
      assert StateOk(h.abs, h.abs.current);
      h.PlaceOf(h.abs.current);
    }

    /** A timer interrupt. */
    method TakeTick()
      requires Valid() && Enabled(Value(), Tick)
      modifies this`pc, h`abs, h`circles, h`place, h`waitflagIsSet, h`current, h.tasks, h.flags, h.nodes
      ensures h.Valid() && Value() == Next(old(Value()), Tick)
    {
      Facts();
      hide Inv, SchedOk, SchedModel.Schedule;
      var panicked := h.ScheduleFromIrq(now, WAITFLAG_PANIC);
    }

    /** The call of schedule that yield makes. */
    method TakeYield()
      requires Valid() && Enabled(Value(), Yield)
      modifies this`pc, h`abs, h`circles, h`place, h`waitflagIsSet, h`current, h.tasks, h.flags, h.nodes
      ensures h.Valid() && Value() == Next(old(Value()), Yield)
    {
      Facts();
      hide Inv, SchedOk, SchedModel.Schedule;
      pc := pc[h.current.pid := User];
      var panicked := h.Schedule(now, WAITFLAG_PANIC);
    }

    /** The steps of wait_on_timer_ms. */
    method TakeTimerStep(a: Step)
      requires Valid() && Enabled(Value(), a) && (a.ReadTimer? || a.StoreUntil? || a.QueueTimer?)
      modifies this`pc, h`abs, h`circles, h`place, h.tasks, h.nodes
      ensures h.Valid() && Value() == Next(old(Value()), a)
    {
      Facts();
      hide Inv, SchedOk;
      match a {
        case ReadTimer(msec, freq) =>
          pc := pc[h.current.pid := TimerRead((now + freq / 1000 * msec) % TWO64)];
        case StoreUntil =>
          h.StoreUntil(pc[h.current.pid].deadline, WAITFLAG_PANIC);
          pc := pc[h.current.pid := TimerStored];
        case QueueTimer =>
          h.QueueTimewait(h.current);
          pc := pc[h.current.pid := TimerQueued];
      }
    }

    /** The compare-and-swap of wait_on_waitflag, and the store behind it. */
    method TakeSwapStep(a: Step)
      requires Valid() && Enabled(Value(), a) && (a.Cas? || a.ClearTaken?)
      modifies this`pc, h`abs, h.flags
      ensures h.Valid() && Value() == Next(old(Value()), a)
    {
      Facts();
      hide Inv, SchedOk;
      match a {
        case Cas(flag) =>
          var seen := h.CmpAndSwap(flag, 1, 0);
          pc := pc[h.current.pid := if seen == 1 then FlagTook(flag) else FlagMissed(flag)];
        case ClearTaken =>
          h.StoreFlagCell(pc[h.current.pid].flag, 0);
          pc := pc[h.current.pid := User];
      }
    }

    /** Its other branch, up to the yield. */
    method TakeBlockStep(a: Step)
      requires Valid() && Enabled(Value(), a) && (a.StoreFlag? || a.QueueFlag?)
      modifies this`pc, h`abs, h`circles, h`place, h.tasks, h.nodes
      ensures h.Valid() && Value() == Next(old(Value()), a)
    {
      Facts();
      StaysWhere(Value(), h.abs.current);
      assert OnQueueOfState(h.abs, h.abs.current);
      hide Inv, SchedOk;
      var flag := pc[h.current.pid].flag;
      if a.StoreFlag? {
        h.StoreWaitflag(flag, WAITFLAG_PANIC);
        pc := pc[h.current.pid := FlagStored(flag)];
      } else {
        h.QueueFlagwait(h.current);
        pc := pc[h.current.pid := FlagQueued(flag)];
      }
    }

    /** A new task. */
    method TakeSpawn()
      requires Valid() && Enabled(Value(), Spawn)
      modifies this, h, h.nodes
      ensures h.Valid() && Value() == Next(old(Value()), Spawn) && h.nodes <= repr
      ensures fresh(repr - old(repr)) && old(repr) <= repr
      ensures forall k :: 0 <= k < |h.tasks| ==> h.tasks[k] in repr
    {
      var t := h.StartTask();
      pc := pc + [User];
      repr := repr + {t} + h.nodes;
    }

    /** The clock goes on, or a flag is set. */
    method TakeOutsideStep(a: Step)
      requires Valid() && Enabled(Value(), a) && (a.Elapse? || a.Wake?)
      modifies this`now, h`abs, h`waitflagIsSet, h.flags
      ensures h.Valid() && Value() == Next(old(Value()), a)
    {
      hide Inv;
      match a {
        case Elapse(delta) => now := now + delta;
        case Wake(flag) => h.WakeupWaitflag(flag);
      }
    }

    /** A step of one of the waiting calls. */
    method TakeWaitingStep(a: Step)
      requires Valid() && Enabled(Value(), a) && !a.Elapse? && !a.Wake? && !a.Tick? && !a.Yield? && !a.Spawn?
      modifies this`pc, h`abs, h`circles, h`place, h.tasks, h.flags, h.nodes
      ensures h.Valid() && Value() == Next(old(Value()), a)
    {
      hide Inv, Next, Enabled;
      if a.ReadTimer? || a.StoreUntil? || a.QueueTimer? {
        TakeTimerStep(a);
      } else if a.Cas? || a.ClearTaken? {
        TakeSwapStep(a);
      } else {
        TakeBlockStep(a);
      }
    }

    /** A step that makes no new task. */
    method TakeFixedStep(a: Step)
      requires Valid() && Enabled(Value(), a) && !a.Spawn?
      modifies this`pc, this`now, h`abs, h`circles, h`place, h`waitflagIsSet, h`current, h.tasks, h.flags, h.nodes
      ensures h.Valid() && Value() == Next(old(Value()), a)
      ensures h.nodes <= repr && forall k :: 0 <= k < |h.tasks| ==> h.tasks[k] in repr
    {
      hide Inv, Next, Enabled;
      if a.Tick? {
        TakeTick();
      } else if a.Yield? {
        TakeYield();
      } else if a.Elapse? || a.Wake? {
        TakeOutsideStep(a);
      } else {
        TakeWaitingStep(a);
      }
    }

    /** Any step of the system, on the heap. */
    method TakeStep(a: Step)
      requires Valid() && Enabled(Value(), a) && CounterFits(Value(), a)
      modifies repr
      ensures Valid() && Value() == Next(old(Value()), a) && fresh(repr - old(repr))
    {
      StepInv(Value(), a);
      hide Inv, Next, Enabled;
      if a.Spawn? {
        TakeSpawn();
      } else {
        TakeFixedStep(a);
        assert repr == old(repr) && repr - old(repr) == {};
      }
    }

    /** Any run: after every step of every interleaving the heap holds the state of the run. */
    method TakeSteps(steps: seq<Step>)
      requires Valid() && CanRun(Value(), steps) && FewWakes(Value(), steps)
      modifies repr
      ensures Valid() && Value() == After(old(Value()), steps) && fresh(repr - old(repr))
    {
      var i := 0;
      while i < |steps|
        invariant 0 <= i <= |steps| && Valid() && fresh(repr - old(repr))
        invariant CanRun(Value(), steps[i..]) && FewWakes(Value(), steps[i..])
        invariant After(old(Value()), steps) == After(Value(), steps[i..])
      {
        assert steps[i..][0] == steps[i] && steps[i..][1..] == steps[i + 1..];
        TakeStep(steps[i]);
        i := i + 1;
      }
    }
  }

  /** From scheduler_init on: every run that can happen happens on the heap, and leaves the three lists
      circles that hold exactly the queues of the run. */
  method RunFromInit(numFlags: nat, steps: seq<Step>) returns (cpu: Cpu)
    requires CanRun(Boot(numFlags), steps) && FewWakes(Boot(numFlags), steps)
    ensures cpu.Valid() && cpu.Value() == After(Boot(numFlags), steps)
    ensures Matches(cpu.h.circles, cpu.h.abs, cpu.h.tasks, cpu.h.place) && RingsIn(cpu.h.circles, cpu.h.nodes)
  {
    var h := Scheduler.SchedulerInit(numFlags);
    BootInv(numFlags);
    cpu := new Cpu(h, [User, User]);
    cpu.TakeSteps(steps);
  }
}
