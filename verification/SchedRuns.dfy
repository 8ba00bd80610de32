/** What holds over every run of the scheduler: safety, no lost wakeup, timer deadlines and the
    round-robin bound. */
module SchedRuns {
  import opened CTypes
  import opened SchedModel
  import opened SchedSystem

  predicate CanRun(y: Sys, steps: seq<Step>)
    decreases |steps|
  {
    steps == []
    || (Sized(y) && Enabled(y, steps[0]) && CanRun(Next(y, steps[0]), steps[1..]))
  }

  function After(y: Sys, steps: seq<Step>): Sys
    requires CanRun(y, steps)
    decreases |steps|
  {
    if steps == [] then y else After(Next(y, steps[0]), steps[1..])
  }

  /** No wakeup of the run takes the counter of wakeups that are not yet delivered beyond the bound of
      line 338. */
  predicate FewWakes(y: Sys, steps: seq<Step>)
    requires CanRun(y, steps)
    decreases |steps|
  {
    steps == [] || (CounterFits(y, steps[0]) && FewWakes(Next(y, steps[0]), steps[1..]))
  }

  /** One step of a run. */
  lemma RunStep(y: Sys, steps: seq<Step>)
    requires Inv(y) && steps != [] && CanRun(y, steps) && FewWakes(y, steps)
    ensures var z := Next(y, steps[0]);
      && Inv(z) && !z.panicked && CanRun(z, steps[1..]) && FewWakes(z, steps[1..])
      && CounterFits(y, steps[0])
  {
    StepInv(y, steps[0]);
  }

  /** Safety over whole runs: in every reachable state the queues are in order, every task is on
      exactly the queue its state names, and no panic has happened. */
  lemma {:induction false} RunInv(y: Sys, steps: seq<Step>)
    requires Inv(y) && CanRun(y, steps) && FewWakes(y, steps) && !y.panicked
    ensures Inv(After(y, steps)) && !After(y, steps).panicked
    decreases |steps|
  {
    if steps != [] {
      RunStep(y, steps);
      RunInv(Next(y, steps[0]), steps[1..]);
    }
  }

  lemma BootSafety(numFlags: nat, steps: seq<Step>)
    requires CanRun(Boot(numFlags), steps) && FewWakes(Boot(numFlags), steps)
    ensures var z := After(Boot(numFlags), steps);
      && Inv(z) && !z.panicked
      && (forall t :: 0 <= t < |z.s.tasks| ==> OnQueueOfState(z.s, t) && z.s.tasks[t].state != STOPPED)
      && SetCount(z.s.flags) <= z.s.isSet
  {
    BootInv(numFlags);
    RunInv(Boot(numFlags), steps);
    var z := After(Boot(numFlags), steps);
    forall t | 0 <= t < |z.s.tasks|
      ensures OnQueueOfState(z.s, t) && z.s.tasks[t].state != STOPPED
    {
      assert StateOk(z.s, t);
    }
  }

  // ----- a step seen from one task ----------------------------------------------------------

  /** The state schedule starts from. */
  function Before(y: Sys, a: Step): Sched
    requires Sized(y)
  {
    if a.Tick? then CountDown(y.s) else y.s
  }

  lemma ScheduleStep(y: Sys, a: Step)
    requires Inv(y) && Enabled(y, a) && Schedules(y, a)
    ensures SchedOk(Before(y, a), WAITFLAG_PANIC) && Next(y, a).s == Schedule(Before(y, a), y.now)
  {
    CountDownKeeps(y.s, WAITFLAG_PANIC);
  }

  /** Every way one step can move a task between queues or change what it waits for. */
  ghost predicate TaskStep(y: Sys, a: Step, z: Sys, x: nat)
    requires Sized(y) && Sized(z)
  {
    var c := y.s.current;
    && x < |z.pc| && x < |y.pc|
    && (x != c ==> z.pc[x] == y.pc[x])
    && (x in z.s.timerWaiting <==>
          (x in y.s.timerWaiting && !(Schedules(y, a) && Expired(y.s, x, y.now)))
          || (a.QueueTimer? && x == c))
    && (x in y.s.timerWaiting && Schedules(y, a) && Expired(y.s, x, y.now) ==> x in z.s.running)
    && (x in z.s.flagWaiting ==> x in y.s.flagWaiting || (a.QueueFlag? && x == c))
    && (x in y.s.flagWaiting && x !in z.s.flagWaiting ==> Schedules(y, a) && x in z.s.running)
    && (x in z.s.flagWaiting ==> z.s.tasks[x].waitflag == y.s.tasks[x].waitflag)
    && (!a.StoreUntil? || x != c ==> z.s.tasks[x].until == y.s.tasks[x].until)
  }

  lemma StepTask(y: Sys, a: Step, x: nat)
    requires Inv(y) && Enabled(y, a) && CounterFits(y, a) && x < |y.pc|
    ensures Sized(Next(y, a)) && TaskStep(y, a, Next(y, a), x)
  {
    StepInv(y, a);
    if Schedules(y, a) {
      ScheduleStepTask(y, a, x);
    } else if a.QueueTimer? || a.QueueFlag? {
      QueueStepTask(y, a, x);
    } else if a.Spawn? {
      SpawnStepTask(y, x);
    } else {
      OneQueue(y.s, x);
      StaysWhere(y, y.s.current);
    }
  }

  lemma ScheduleStepTask(y: Sys, a: Step, x: nat)
    requires Inv(y) && Enabled(y, a) && Schedules(y, a)
    requires x < |y.pc| && Inv(Next(y, a))
    ensures TaskStep(y, a, Next(y, a), x)
  {
    var z := Next(y, a);
    OneQueue(y.s, x);
    OneQueue(z.s, x);
    ScheduleStep(y, a);
    ScheduleTask(Before(y, a), y.now, WAITFLAG_PANIC, x);
    assert StateOk(z.s, x) && OnQueueOfState(z.s, x);
    assert Expired(Before(y, a), x, y.now) == Expired(y.s, x, y.now);
  }

  lemma QueueStepTask(y: Sys, a: Step, x: nat)
    requires Inv(y) && Enabled(y, a) && (a.QueueTimer? || a.QueueFlag?)
    requires x < |y.pc| && Sized(Next(y, a))
    ensures TaskStep(y, a, Next(y, a), x)
  {
    StaysWhere(y, y.s.current);
    UnlinkQueues(y.s, y.s.current);
  }

  lemma SpawnStepTask(y: Sys, x: nat)
    requires Inv(y) && Enabled(y, Spawn) && x < |y.pc| && Sized(Next(y, Spawn))
    ensures TaskStep(y, Spawn, Next(y, Spawn), x)
  {
    UnlinkQueues(y.s.(tasks := y.s.tasks + [NewTask()]), |y.s.tasks|);
  }

  // ----- no lost wakeup ---------------------------------------------------------------------

  /** Task t has found flag f clear and has not been woken since. */
  predicate Waiting(y: Sys, t: nat, f: nat) {
    && t < |y.pc|
    && (y.pc[t] == FlagMissed(f) || y.pc[t] == FlagStored(f)
        || (t in y.s.flagWaiting && FlagOf(y.s, t, f)))
  }

  /** One waiter per flag: no task but t is in the middle of using f. */
  ghost predicate SoleUser(y: Sys, t: nat, f: nat) {
    forall x :: 0 <= x < |y.pc| && x != t ==> y.pc[x] != FlagTook(f) && !Waiting(y, x, f)
  }

  /** No other task starts to wait for f. */
  predicate OnlyUsedBy(y: Sys, a: Step, t: nat, f: nat) {
    a == Cas(f) ==> y.s.current == t
  }

  lemma StrangerStep(y: Sys, a: Step, x: nat, f: nat)
    requires Inv(y) && Enabled(y, a) && CounterFits(y, a)
    requires x < |y.pc| && y.pc[x] != FlagTook(f) && !Waiting(y, x, f)
    requires a == Cas(f) ==> y.s.current != x
    ensures x < |Next(y, a).pc| && Next(y, a).pc[x] != FlagTook(f) && !Waiting(Next(y, a), x, f)
  {
    StepTask(y, a, x);
    assert PcOk(y, x);
    StaysWhere(y, x);
  }

  lemma SoleUserStep(y: Sys, a: Step, t: nat, f: nat)
    requires Inv(y) && Enabled(y, a) && CounterFits(y, a)
    requires SoleUser(y, t, f) && OnlyUsedBy(y, a, t, f)
    ensures SoleUser(Next(y, a), t, f)
  {
    var z := Next(y, a);
    StepInv(y, a);
    forall x | 0 <= x < |z.pc| && x != t
      ensures z.pc[x] != FlagTook(f) && !Waiting(z, x, f)
    {
      if x < |y.pc| {
        assert !Waiting(y, x, f);
        StrangerStep(y, a, x, f);
      } else {
        NewcomerStep(y, a, x);
      }
    }
  }

  lemma NewcomerStep(y: Sys, a: Step, x: nat)
    requires Inv(y) && Enabled(y, a) && |y.pc| <= x < |Next(y, a).pc|
    ensures Next(y, a).pc[x] == User && x !in Next(y, a).s.flagWaiting
  {
    MembersInRange(y.s.flagWaiting, |y.s.tasks|);
    UnlinkQueues(y.s.(tasks := y.s.tasks + [NewTask()]), |y.s.tasks|);
  }

  /** A waiting task whose flag is set stays so until the first schedule after it has queued
      itself, which makes it runnable. */
  lemma PendingStep(y: Sys, a: Step, t: nat, f: nat)
    requires Inv(y) && Enabled(y, a) && CounterFits(y, a)
    requires SoleUser(y, t, f) && OnlyUsedBy(y, a, t, f)
    requires Waiting(y, t, f) && f < |y.s.flags| && y.s.flags[f] == 1
    ensures var z := Next(y, a);
      if Schedules(y, a) && t in y.s.flagWaiting then t in z.s.running
      else Waiting(z, t, f) && f < |z.s.flags| && z.s.flags[f] == 1
  {
    var z := Next(y, a);
    StepTask(y, a, t);
    assert PcOk(y, t);
    StaysWhere(y, t);
    if Schedules(y, a) {
      ScheduleStep(y, a);
      var s := Before(y, a);
      if t in y.s.flagWaiting {
        forall x | x in s.flagWaiting && FlagOf(s, x, f)
          ensures x == t
        {
          assert x != t ==> !Waiting(y, x, f);
        }
        ScheduleWakes(s, y.now, WAITFLAG_PANIC, t, f);
      } else {
        ScheduleFlag(s, y.now, WAITFLAG_PANIC, f);
        forall x | x in s.flagWaiting && FlagOf(s, x, f)
          ensures false
        {
          assert Waiting(y, x, f);
        }
      }
    }
  }

  /** No step of the run makes another task use f. */
  predicate NobodyElseUses(y: Sys, steps: seq<Step>, t: nat, f: nat)
    requires CanRun(y, steps)
    decreases |steps|
  {
    steps == []
    || (OnlyUsedBy(y, steps[0], t, f)
        && NobodyElseUses(Next(y, steps[0]), steps[1..], t, f))
  }

  /** The last step of the run is the first call of schedule that finds t on the flag list. */
  predicate EndsAtFirstSchedule(y: Sys, steps: seq<Step>, t: nat)
    requires CanRun(y, steps)
    decreases |steps|
  {
    && steps != []
    && var found := Schedules(y, steps[0]) && t in y.s.flagWaiting;
       if |steps| == 1 then found
       else !found && EndsAtFirstSchedule(Next(y, steps[0]), steps[1..], t)
  }

  lemma {:induction false} PendingRun(y: Sys, steps: seq<Step>, t: nat, f: nat)
    requires Inv(y) && CanRun(y, steps) && FewWakes(y, steps)
    requires SoleUser(y, t, f) && NobodyElseUses(y, steps, t, f)
    requires Waiting(y, t, f) && f < |y.s.flags| && y.s.flags[f] == 1
    requires EndsAtFirstSchedule(y, steps, t)
    ensures t in After(y, steps).s.running
    decreases |steps|
  {
    RunStep(y, steps);
    PendingStep(y, steps[0], t, f);
    SoleUserStep(y, steps[0], t, f);
    if |steps| > 1 {
      PendingRun(Next(y, steps[0]), steps[1..], t, f);
    }
  }

  /** No lost wakeup: once the compare-and-swap of t has failed, a wakeup of its flag, made before
      or after t has queued itself, has t on the running list at the first call of schedule
      that finds it on the flag list. */
  lemma NoLostWakeup(y: Sys, steps: seq<Step>, t: nat, f: nat)
    requires Inv(y) && Waiting(y, t, f) && SoleUser(y, t, f)
    requires CanRun(y, [Wake(f)] + steps) && FewWakes(y, [Wake(f)] + steps)
    requires NobodyElseUses(y, [Wake(f)] + steps, t, f)
    requires EndsAtFirstSchedule(Next(y, Wake(f)), steps, t)
    ensures t in After(y, [Wake(f)] + steps).s.running
  {
    var all := [Wake(f)] + steps;
    assert all[1..] == steps;
    RunStep(y, all);
    SoleUserStep(y, Wake(f), t, f);
    StepTask(y, Wake(f), t);
    PendingRun(Next(y, Wake(f)), steps, t, f);
  }

  /** Until its flag is set, a waiting task stays so, whatever is done. */
  lemma WaitingStep(y: Sys, a: Step, t: nat, f: nat)
    requires Inv(y) && Enabled(y, a) && CounterFits(y, a) && a != Wake(f)
    requires Waiting(y, t, f) && f < |y.s.flags| && y.s.flags[f] == 0
    ensures var z := Next(y, a);
      Waiting(z, t, f) && f < |z.s.flags| && z.s.flags[f] == 0
  {
    StepTask(y, a, t);
    assert PcOk(y, t);
    StaysWhere(y, t);
    if Schedules(y, a) {
      ScheduleStep(y, a);
      ScheduleFlag(Before(y, a), y.now, WAITFLAG_PANIC, f);
      ScheduleTask(Before(y, a), y.now, WAITFLAG_PANIC, t);
    }
  }

  lemma {:induction false} WaitingRun(y: Sys, steps: seq<Step>, t: nat, f: nat)
    requires Inv(y) && CanRun(y, steps) && FewWakes(y, steps) && Wake(f) !in steps
    requires SoleUser(y, t, f) && NobodyElseUses(y, steps, t, f)
    requires Waiting(y, t, f) && f < |y.s.flags| && y.s.flags[f] == 0
    ensures var z := After(y, steps);
      Inv(z) && SoleUser(z, t, f) && Waiting(z, t, f) && f < |z.s.flags| && z.s.flags[f] == 0
    decreases |steps|
  {
    if steps != [] {
      RunStep(y, steps);
      WaitingStep(y, steps[0], t, f);
      SoleUserStep(y, steps[0], t, f);
      WaitingRun(Next(y, steps[0]), steps[1..], t, f);
    }
  }

  /** The same from the compare-and-swap on: it fails, anything happens until the next wakeup of the
      flag, and the first schedule that then finds the task queued makes it runnable. */
  lemma NoLostWakeupFromSwap(y: Sys, before: seq<Step>, steps: seq<Step>, f: nat)
    requires Inv(y) && Enabled(y, Cas(f)) && y.s.flags[f] == 0 && SoleUser(y, y.s.current, f)
    requires var z := Next(y, Cas(f));
      && CanRun(z, before) && FewWakes(z, before) && Wake(f) !in before
      && NobodyElseUses(z, before, y.s.current, f)
    requires var z := After(Next(y, Cas(f)), before);
      && CanRun(z, [Wake(f)] + steps) && FewWakes(z, [Wake(f)] + steps)
      && NobodyElseUses(z, [Wake(f)] + steps, y.s.current, f)
      && EndsAtFirstSchedule(Next(z, Wake(f)), steps, y.s.current)
    ensures y.s.current in After(After(Next(y, Cas(f)), before), [Wake(f)] + steps).s.running
  {
    var t, z := y.s.current, Next(y, Cas(f));
    StepInv(y, Cas(f));
    SoleUserStep(y, Cas(f), t, f);
    WaitingRun(z, before, t, f);
    NoLostWakeup(After(z, before), steps, t, f);
  }

  /** A set flag makes the next tick call schedule, so that delivery waits for no time slice. */
  lemma SetFlagSchedules(y: Sys, f: nat)
    requires Inv(y) && f < |y.s.flags| && y.s.flags[f] != 0
    ensures Schedules(y, Tick)
  {
    SetCountAtLeast(y.s.flags);
  }

  /** The next tick delivers the wakeup of a task that has queued itself. */
  lemma TickDelivers(y: Sys, t: nat, f: nat)
    requires Inv(y) && Enabled(y, Tick) && SoleUser(y, t, f)
    requires t in y.s.flagWaiting && FlagOf(y.s, t, f) && y.s.flags[f] == 1
    ensures t in Next(y, Tick).s.running
  {
    SetFlagSchedules(y, f);
    MembersInRange(y.s.flagWaiting, |y.s.tasks|);
    PendingStep(y, Tick, t, f);
  }

  // ----- where a wakeup does get lost -------------------------------------------------------

  /** A set flag is cleared in one of three ways: a task's compare-and-swap takes it, schedule
      wakes a waiter of it, or the second store of wait_on_waitflag (line 256) wipes it. */
  lemma FlagCleared(y: Sys, a: Step, f: nat)
    requires Inv(y) && Enabled(y, a) && CounterFits(y, a)
    requires f < |y.s.flags| && y.s.flags[f] == 1 && f < |Next(y, a).s.flags|
    requires Next(y, a).s.flags[f] == 0
    ensures || a == Cas(f)
            || (a == ClearTaken && Here(y) == FlagTook(f))
            || (Schedules(y, a)
                && exists x :: x in y.s.flagWaiting && FlagOf(y.s, x, f) && x in Next(y, a).s.running)
  {
    if Schedules(y, a) {
      ScheduleStep(y, a);
      ScheduleFlag(Before(y, a), y.now, WAITFLAG_PANIC, f);
      var x :| x in Before(y, a).flagWaiting && FlagOf(Before(y, a), x, f)
               && x in Next(y, a).s.running;
      assert x in y.s.flagWaiting && FlagOf(y.s, x, f);
    }
  }

  /** The last step is the first one that clears f. */
  predicate EndsAtFirstClear(y: Sys, steps: seq<Step>, f: nat)
    requires CanRun(y, steps)
    decreases |steps|
  {
    && steps != []
    && var z := Next(y, steps[0]);
       var cleared := f < |z.s.flags| && z.s.flags[f] == 0;
       if |steps| == 1 then cleared else !cleared && EndsAtFirstClear(z, steps[1..], f)
  }

  /** When a wakeup is lost, exactly: with t the only user of f, a set flag is wiped by the second
      store rather than taken or delivered if and only if t stood between its successful
      compare-and-swap and that store when the flag was set. */
  lemma {:induction false} LostExactlyInWindow(y: Sys, steps: seq<Step>, t: nat, f: nat)
    requires Inv(y) && CanRun(y, steps) && FewWakes(y, steps)
    requires SoleUser(y, t, f) && NobodyElseUses(y, steps, t, f)
    requires t < |y.pc| && f < |y.s.flags| && y.s.flags[f] == 1
    requires EndsAtFirstClear(y, steps, f)
    ensures steps[|steps| - 1] == ClearTaken <==> y.pc[t] == FlagTook(f)
    decreases |steps|
  {
    var a, z := steps[0], Next(y, steps[0]);
    RunStep(y, steps);
    WindowStep(y, a, t, f);
    if |steps| > 1 {
      SoleUserStep(y, a, t, f);
      FlagRange(z, f);
      LostExactlyInWindow(z, steps[1..], t, f);
    }
  }

  lemma WindowStep(y: Sys, a: Step, t: nat, f: nat)
    requires Inv(y) && Enabled(y, a) && CounterFits(y, a)
    requires SoleUser(y, t, f) && OnlyUsedBy(y, a, t, f)
    requires t < |y.pc| && f < |y.s.flags| && y.s.flags[f] == 1
    ensures var z := Next(y, a);
      && |z.s.flags| == |y.s.flags| && t < |z.pc|
      && if z.s.flags[f] == 0 then a == ClearTaken <==> y.pc[t] == FlagTook(f)
         else z.pc[t] == FlagTook(f) <==> y.pc[t] == FlagTook(f)
  {
    var z := Next(y, a);
    StepFlags(y, a);
    StepTask(y, a, t);
    assert PcOk(y, t);
    StaysWhere(y, t);
    if z.s.flags[f] == 0 {
      FlagCleared(y, a, f);
      if Schedules(y, a) {
        var x :| x in y.s.flagWaiting && FlagOf(y.s, x, f) && x in z.s.running;
        assert x != t ==> !Waiting(y, x, f);
      }
    }
  }

  lemma StepFlags(y: Sys, a: Step)
    requires Inv(y) && Enabled(y, a) && CounterFits(y, a)
    ensures |Next(y, a).s.flags| == |y.s.flags|
  {
    if Schedules(y, a) {
      ScheduleStep(y, a);
      ScheduleKeeps(Before(y, a), y.now, WAITFLAG_PANIC);
    }
  }

  lemma FlagRange(y: Sys, f: nat)
    requires Inv(y) && f < |y.s.flags|
    ensures y.s.flags[f] == 0 || y.s.flags[f] == 1
  {
  }

  /** A run that loses one: init takes a first wakeup, a second one arrives before the store of
      line 256, and the next wait finds the flag clear although it was set twice. */
  lemma LostWakeupRun()
    ensures var steps := [Wake(0), Cas(0), Wake(0), ClearTaken, Cas(0)];
      && CanRun(Boot(1), steps)
      && var z := After(Boot(1), steps);
         z.s.flags[0] == 0 && Here(z) == FlagMissed(0)
  {
    var y0 := Boot(1);
    var y1 := Next(y0, Wake(0));
    var y2 := Next(y1, Cas(0));
    var y3 := Next(y2, Wake(0));
    var y4 := Next(y3, ClearTaken);
    var y5 := Next(y4, Cas(0));
    var steps := [Wake(0), Cas(0), Wake(0), ClearTaken, Cas(0)];
    assert steps[1..] == [Cas(0), Wake(0), ClearTaken, Cas(0)];
    assert steps[1..][1..] == [Wake(0), ClearTaken, Cas(0)];
    assert steps[1..][1..][1..] == [ClearTaken, Cas(0)];
    assert steps[1..][1..][1..][1..] == [Cas(0)];
    assert CanRun(y4, [Cas(0)]) && After(y4, [Cas(0)]) == y5;
    assert CanRun(y3, [ClearTaken, Cas(0)]) && After(y3, [ClearTaken, Cas(0)]) == y5;
    assert CanRun(y2, steps[1..][1..]) && After(y2, steps[1..][1..]) == y5;
    assert CanRun(y1, steps[1..]) && After(y1, steps[1..]) == y5;
  }

  // ----- timers -----------------------------------------------------------------------------

  /** The last step is the first call of schedule at or after the deadline. */
  predicate EndsAtDeadline(y: Sys, steps: seq<Step>, deadline: nat)
    requires CanRun(y, steps)
    decreases |steps|
  {
    && steps != []
    && var due := Schedules(y, steps[0]) && deadline <= y.now;
       if |steps| == 1 then due else !due && EndsAtDeadline(Next(y, steps[0]), steps[1..], deadline)
  }

  /** No call of schedule happens at or after the deadline. */
  predicate BeforeDeadline(y: Sys, steps: seq<Step>, deadline: nat)
    requires CanRun(y, steps)
    decreases |steps|
  {
    steps == []
    || (!(Schedules(y, steps[0]) && deadline <= y.now)
        && BeforeDeadline(Next(y, steps[0]), steps[1..], deadline))
  }

  lemma TimerStep(y: Sys, a: Step, t: nat)
    requires Inv(y) && Enabled(y, a) && CounterFits(y, a)
    requires t in y.s.timerWaiting
    ensures var z := Next(y, a);
      if Schedules(y, a) && y.s.tasks[t].until <= y.now then t in z.s.running
      else t in z.s.timerWaiting && t < |z.s.tasks| && z.s.tasks[t].until == y.s.tasks[t].until
  {
    OneQueue(y.s, t);
    assert PcOk(y, t);
    StepTask(y, a, t);
  }

  /** A timer waiter never leaves its list before its deadline. */
  lemma {:induction false} TimerNotEarly(y: Sys, steps: seq<Step>, t: nat)
    requires Inv(y) && CanRun(y, steps) && FewWakes(y, steps)
    requires t in y.s.timerWaiting && BeforeDeadline(y, steps, y.s.tasks[t].until)
    ensures t in After(y, steps).s.timerWaiting
    decreases |steps|
  {
    if steps != [] {
      RunStep(y, steps);
      TimerStep(y, steps[0], t);
      TimerNotEarly(Next(y, steps[0]), steps[1..], t);
    }
  }

  /** A timer waiter is runnable after the first call of schedule at or after its deadline. */
  lemma {:induction false} TimerOnTime(y: Sys, steps: seq<Step>, t: nat)
    requires Inv(y) && CanRun(y, steps) && FewWakes(y, steps)
    requires t in y.s.timerWaiting && EndsAtDeadline(y, steps, y.s.tasks[t].until)
    ensures t in After(y, steps).s.running
    decreases |steps|
  {
    RunStep(y, steps);
    TimerStep(y, steps[0], t);
    if |steps| > 1 {
      TimerOnTime(Next(y, steps[0]), steps[1..], t);
    }
  }

  /** Task t is inside a call of wait_on_timer_ms whose deadline is `deadline`. */
  predicate Sleeping(y: Sys, t: nat, deadline: nat) {
    && t < |y.pc| && t < |y.s.tasks|
    && (|| y.pc[t] == TimerRead(deadline)
        || (y.pc[t].TimerStored? && y.s.tasks[t].until == deadline)
        || (t in y.s.timerWaiting && y.s.tasks[t].until == deadline))
  }

  /** No call of schedule at or after the deadline finds t on the timer list. */
  predicate NeverDue(y: Sys, steps: seq<Step>, t: nat, deadline: nat)
    requires CanRun(y, steps)
    decreases |steps|
  {
    steps == []
    || (!(Schedules(y, steps[0]) && t in y.s.timerWaiting && deadline <= y.now)
        && NeverDue(Next(y, steps[0]), steps[1..], t, deadline))
  }

  lemma SleepStep(y: Sys, a: Step, t: nat, deadline: nat)
    requires Inv(y) && Enabled(y, a) && CounterFits(y, a) && Sleeping(y, t, deadline)
    requires !(Schedules(y, a) && t in y.s.timerWaiting && deadline <= y.now)
    ensures Sleeping(Next(y, a), t, deadline)
  {
    StepTask(y, a, t);
    assert PcOk(y, t);
    if t in y.s.timerWaiting {
      TimerStep(y, a, t);
    } else {
      StaysWhere(y, t);
    }
  }

  lemma {:induction false} SleepRun(y: Sys, steps: seq<Step>, t: nat, deadline: nat)
    requires Inv(y) && CanRun(y, steps) && FewWakes(y, steps)
    requires Sleeping(y, t, deadline) && NeverDue(y, steps, t, deadline)
    ensures Inv(After(y, steps)) && Sleeping(After(y, steps), t, deadline)
    decreases |steps|
  {
    if steps != [] {
      RunStep(y, steps);
      SleepStep(y, steps[0], t, deadline);
      SleepRun(Next(y, steps[0]), steps[1..], t, deadline);
    }
  }

  /** A wait of msec milliseconds that begins at count n, by a clock of freq counts per second: the
      task does not leave the call before it is queued, and from then on, whatever is interleaved,
      it stays queued as long as no schedule happens at or after the count
      n + freq / 1000 * msec (modulo 2^64), and the first schedule that does makes it runnable. */
  lemma TimerWait(y: Sys, msec: nat, freq: nat, before: seq<Step>, steps: seq<Step>)
    requires Inv(y) && Enabled(y, ReadTimer(msec, freq))
    requires var z := Next(y, ReadTimer(msec, freq));
      && CanRun(z, before) && FewWakes(z, before)
      && NeverDue(z, before, y.s.current, (y.now + freq / 1000 * msec) % 0x1_0000_0000_0000_0000)
    requires var z := After(Next(y, ReadTimer(msec, freq)), before);
      CanRun(z, steps) && FewWakes(z, steps)
    ensures var t, deadline := y.s.current, (y.now + freq / 1000 * msec) % 0x1_0000_0000_0000_0000;
      var z := After(Next(y, ReadTimer(msec, freq)), before);
      && t < |z.pc|
      && (t in z.s.timerWaiting || z.pc[t].TimerRead? || z.pc[t].TimerStored?)
      && (t in z.s.timerWaiting && BeforeDeadline(z, steps, deadline) ==>
            t in After(z, steps).s.timerWaiting)
      && (t in z.s.timerWaiting && EndsAtDeadline(z, steps, deadline) ==>
            t in After(z, steps).s.running)
  {
    var t, deadline := y.s.current, (y.now + freq / 1000 * msec) % 0x1_0000_0000_0000_0000;
    var y0 := Next(y, ReadTimer(msec, freq));
    StepInv(y, ReadTimer(msec, freq));
    SleepRun(y0, before, t, deadline);
    var z := After(y0, before);
    if t in z.s.timerWaiting {
      assert PcOk(z, t);
      OneQueue(z.s, t);
      if BeforeDeadline(z, steps, deadline) {
        TimerNotEarly(z, steps, t);
      }
      if EndsAtDeadline(z, steps, deadline) {
        TimerOnTime(z, steps, t);
      }
    }
  }

  // ----- round robin ------------------------------------------------------------------------

  /** After the first call of schedule, a runnable current task is the head of the running list. */
  predicate Settled(y: Sys) {
    y.s.current in y.s.running ==> y.s.running[0] == y.s.current
  }

  /** The tasks waiting for the processor, in order. */
  function Ready(y: Sys): seq<nat> {
    if y.s.running != [] && y.s.running[0] == y.s.current then y.s.running[1..]
    else y.s.running
  }

  lemma RequeueReady(s: Sched, y: Sys)
    requires Inv(y) && Settled(y) && SchedOk(s, WAITFLAG_PANIC)
    requires s.running == y.s.running && s.current == y.s.current
    ensures Ready(y) <= Requeue(s).running
  {
    var c := s.current;
    RequeueKeeps(s, WAITFLAG_PANIC);
    if c in s.running {
      HeadOnce(s.running, c);
      WithoutHead(s.running, c);
    }
  }

  lemma HeadOnce(q: seq<nat>, c: nat)
    requires NoDup(q) && q != [] && q[0] == c
    ensures c !in q[1..]
  {
  }

  /** A step without schedule only appends to the ready tasks; schedule takes their head. */
  lemma ReadyStep(y: Sys, a: Step)
    requires Inv(y) && Settled(y) && Enabled(y, a) && CounterFits(y, a)
    ensures var z := Next(y, a);
      && Settled(z)
      && (!Schedules(y, a) ==> Ready(y) <= Ready(z))
      && (Schedules(y, a) && Ready(y) != [] ==>
            z.s.current == Ready(y)[0] && Ready(y)[1..] <= Ready(z))
  {
    var z, c := Next(y, a), y.s.current;
    StepInv(y, a);
    if Schedules(y, a) {
      ScheduleStep(y, a);
      RequeueReady(Before(y, a), y);
      ScheduleKeeps(Before(y, a), y.now, WAITFLAG_PANIC);
      assert z.s.running[0] in z.s.running;
      if Ready(y) != [] {
        assert Ready(y) <= z.s.running;
        PrefixTail(Ready(y), z.s.running);
      }
    } else if a.QueueTimer? || a.QueueFlag? {
      UnlinkQueues(y.s, c);
      StaysWhere(y, c);
      HeadOnce(y.s.running, c);
      WithoutHead(y.s.running, c);
    } else if a.Spawn? {
      SpawnReady(y);
    }
  }

  /** The same, seen from the k-th ready task. */
  lemma ReadyStepAt(y: Sys, a: Step, k: nat)
    requires Inv(y) && Settled(y) && Enabled(y, a) && CounterFits(y, a)
    requires k < |Ready(y)|
    ensures Settled(Next(y, a))
    ensures var r := Ready(Next(y, a));
      if !Schedules(y, a) then k < |r| && r[k] == Ready(y)[k]
      else if k == 0 then Next(y, a).s.current == Ready(y)[0]
      else k - 1 < |r| && r[k - 1] == Ready(y)[k]
  {
    ReadyStep(y, a);
    if Schedules(y, a) && k > 0 {
      assert Ready(y)[1..][k - 1] == Ready(y)[k];
    }
  }

  lemma PrefixTail(p: seq<nat>, q: seq<nat>)
    requires p != [] && p <= q
    ensures p[0] == q[0] && p[1..] <= q[1..]
  {
  }

  lemma SpawnReady(y: Sys)
    requires Inv(y) && Settled(y) && Enabled(y, Spawn)
    ensures Settled(Next(y, Spawn)) && Ready(y) <= Ready(Next(y, Spawn))
  {
    var n := |y.s.tasks|;
    MembersInRange(y.s.running, n);
    UnlinkQueues(y.s.(tasks := y.s.tasks + [NewTask()]), n);
    assert Next(y, Spawn).s.running == y.s.running + [n];
  }

  /** The first call of schedule settles the system. */
  lemma ScheduleSettles(y: Sys, a: Step)
    requires Inv(y) && Enabled(y, a) && Schedules(y, a)
    ensures Settled(Next(y, a))
  {
    ScheduleStep(y, a);
    ScheduleKeeps(Before(y, a), y.now, WAITFLAG_PANIC);
  }

  /** Once settled, always settled. */
  lemma {:induction false} SettledRun(y: Sys, steps: seq<Step>)
    requires Inv(y) && CanRun(y, steps) && FewWakes(y, steps)
    requires Settled(y) || ScheduleCount(y, steps) > 0
    ensures Inv(After(y, steps)) && Settled(After(y, steps))
    decreases |steps|
  {
    if steps != [] {
      RunStep(y, steps);
      if Schedules(y, steps[0]) {
        ScheduleSettles(y, steps[0]);
      } else if Settled(y) {
        ReadyStep(y, steps[0]);
      }
      SettledRun(Next(y, steps[0]), steps[1..]);
    }
  }

  function Calls(y: Sys, a: Step): nat
    requires Sized(y)
  {
    if Schedules(y, a) then 1 else 0
  }

  /** How many calls of schedule a run makes. */
  function ScheduleCount(y: Sys, steps: seq<Step>): nat
    requires CanRun(y, steps)
    decreases |steps|
  {
    if steps == [] then 0
    else Calls(y, steps[0]) + ScheduleCount(Next(y, steps[0]), steps[1..])
  }

  function TickCount(steps: seq<Step>): nat {
    if steps == [] then 0 else (if steps[0].Tick? then 1 else 0) + TickCount(steps[1..])
  }

  /** The last step of the run is its n-th call of schedule. */
  predicate EndsAtSchedule(y: Sys, steps: seq<Step>, n: nat)
    requires CanRun(y, steps)
    decreases |steps|
  {
    && steps != []
    && var z := Next(y, steps[0]);
       if |steps| == 1 then Schedules(y, steps[0]) && n == 1
       else if Schedules(y, steps[0]) then n > 1 && EndsAtSchedule(z, steps[1..], n - 1)
       else EndsAtSchedule(z, steps[1..], n)
  }

  /** Round robin: the k-th ready task (counted from 0) is dispatched by exactly the (k + 1)-th
      next call of schedule. */
  lemma {:induction false} RoundRobin(y: Sys, steps: seq<Step>, k: nat)
    requires Inv(y) && Settled(y) && CanRun(y, steps) && FewWakes(y, steps)
    requires k < |Ready(y)| && EndsAtSchedule(y, steps, k + 1)
    ensures After(y, steps).s.current == Ready(y)[k]
    decreases |steps|
  {
    hide Inv, Next, Enabled, Ready, Settled, CounterFits;
    RunStep(y, steps);
    ReadyStepAt(y, steps[0], k);
    if |steps| > 1 {
      RoundRobin(Next(y, steps[0]), steps[1..], if Schedules(y, steps[0]) then k - 1 else k);
    }
  }

  lemma ReadyStepBy(y: Sys, a: Step, m: nat, t: nat)
    requires Inv(y) && Settled(y) && Enabled(y, a) && CounterFits(y, a)
    requires IsReadyAt(y, m + Calls(y, a), t)
    ensures Settled(Next(y, a)) && IsReadyAt(Next(y, a), m, t)
  {
    hide Next, Enabled, Ready, Settled, CounterFits;
    ReadyStepAt(y, a, m + Calls(y, a));
  }

  /** Until then it moves up by one place at each call. */
  lemma {:induction false} ReadyMovesUp(y: Sys, steps: seq<Step>, i: nat, t: nat)
    requires Inv(y) && Settled(y) && CanRun(y, steps) && FewWakes(y, steps)
    requires IsReadyAt(y, i + ScheduleCount(y, steps), t)
    ensures IsReadyAt(After(y, steps), i, t)
    decreases |steps|
  {
    if steps != [] {
      RunStep(y, steps);
      ReadyStepBy(y, steps[0], i + ScheduleCount(Next(y, steps[0]), steps[1..]), t);
      ReadyMovesUp(Next(y, steps[0]), steps[1..], i, t);
    }
  }

  predicate IsReadyAt(y: Sys, i: nat, t: nat) {
    i < |Ready(y)| && Ready(y)[i] == t
  }

  lemma TickStep(y: Sys, a: Step)
    requires Inv(y) && Enabled(y, a) && CounterFits(y, a)
    ensures var z := Next(y, a);
      && Inv(z)
      && z.s.tasks[z.s.current].ticksLeft
           == (if Schedules(y, a) then PREEMPT_TICKS
               else y.s.tasks[y.s.current].ticksLeft - (if a.Tick? then 1 else 0))
  {
    StepInv(y, a);
    if Schedules(y, a) {
      ScheduleStep(y, a);
      ScheduleKeeps(Before(y, a), y.now, WAITFLAG_PANIC);
    }
  }

  /** No task keeps the processor for more than ten ticks: n calls of schedule cover at least
      all but nine of the ticks of a run. */
  lemma {:induction false} TicksBound(y: Sys, steps: seq<Step>)
    requires Inv(y) && CanRun(y, steps) && FewWakes(y, steps)
    ensures var z := After(y, steps);
      && Inv(z)
      && TickCount(steps) <= 10 * ScheduleCount(y, steps)
                             + y.s.tasks[y.s.current].ticksLeft - z.s.tasks[z.s.current].ticksLeft
    decreases |steps|
  {
    if steps != [] {
      RunStep(y, steps);
      TickStep(y, steps[0]);
      TicksBound(Next(y, steps[0]), steps[1..]);
    }
  }

  /** In a run with enough calls of schedule, some state has the k-th ready task current. */
  lemma {:induction false} DispatchedWithin(y: Sys, steps: seq<Step>, k: nat) returns (n: nat)
    requires Inv(y) && Settled(y) && CanRun(y, steps) && FewWakes(y, steps)
    requires k < |Ready(y)| && ScheduleCount(y, steps) > k
    ensures n <= |steps| && CanRun(y, steps[..n]) && After(y, steps[..n]).s.current == Ready(y)[k]
    decreases |steps|
  {
    var z := Next(y, steps[0]);
    RunStep(y, steps);
    ReadyStepAt(y, steps[0], k);
    if Schedules(y, steps[0]) && k == 0 {
      assert steps[..1][1..] == [] && CanRun(z, steps[..1][1..]);
      n := 1;
    } else {
      var m := DispatchedWithin(z, steps[1..], if Schedules(y, steps[0]) then k - 1 else k);
      n := m + 1;
      assert steps[..n][1..] == steps[1..][..m];
    }
  }

  /** The wait of the k-th ready task is at most 10 (k + 1) ticks. */
  lemma WaitBound(y: Sys, steps: seq<Step>, k: nat) returns (n: nat)
    requires Inv(y) && Settled(y) && CanRun(y, steps) && FewWakes(y, steps)
    requires k < |Ready(y)| && TickCount(steps) >= 10 * (k + 1)
    ensures n <= |steps| && CanRun(y, steps[..n]) && After(y, steps[..n]).s.current == Ready(y)[k]
  {
    TicksBound(y, steps);
    n := DispatchedWithin(y, steps, k);
  }

  /** From boot: after the first call of schedule both bounds hold of every later state. */
  lemma RoundRobinFromBoot(numFlags: nat, before: seq<Step>, steps: seq<Step>, k: nat)
    requires CanRun(Boot(numFlags), before) && FewWakes(Boot(numFlags), before)
    requires ScheduleCount(Boot(numFlags), before) > 0
    requires var y := After(Boot(numFlags), before);
      && CanRun(y, steps) && FewWakes(y, steps) && k < |Ready(y)| && EndsAtSchedule(y, steps, k + 1)
    ensures var y := After(Boot(numFlags), before);
      After(y, steps).s.current == Ready(y)[k]
  {
    BootInv(numFlags);
    SettledRun(Boot(numFlags), before);
    RoundRobin(After(Boot(numFlags), before), steps, k);
  }

  lemma WaitBoundFromBoot(numFlags: nat, before: seq<Step>, steps: seq<Step>, k: nat) returns (n: nat)
    requires CanRun(Boot(numFlags), before) && FewWakes(Boot(numFlags), before)
    requires ScheduleCount(Boot(numFlags), before) > 0
    requires var y := After(Boot(numFlags), before);
      && CanRun(y, steps) && FewWakes(y, steps) && k < |Ready(y)|
      && TickCount(steps) >= 10 * (k + 1)
    ensures var y := After(Boot(numFlags), before);
      n <= |steps| && CanRun(y, steps[..n]) && After(y, steps[..n]).s.current == Ready(y)[k]
  {
    BootInv(numFlags);
    SettledRun(Boot(numFlags), before);
    n := WaitBound(After(Boot(numFlags), before), steps, k);
  }

  // ----- who is charged for a tick ----------------------------------------------------------

  /** The ticks task t has been charged with, those of a running slice included. */
  function Charged(y: Sys, t: nat): int
    requires Sized(y)
  {
    if t >= |y.s.tasks| then 0
    else y.s.tasks[t].ticksTotal + (if t == y.s.current then 10 - y.s.tasks[t].ticksLeft else 0)
  }

  /** The ticks that arrive while t is the current task. */
  function TicksOf(y: Sys, steps: seq<Step>, t: nat): nat
    requires CanRun(y, steps)
    decreases |steps|
  {
    if steps == [] then 0
    else (if steps[0].Tick? && y.s.current == t then 1 else 0) + TicksOf(Next(y, steps[0]), steps[1..], t)
  }

  /** The ticks of a slice that t ends by waiting: schedule charges nobody with them (lines 371-387). */
  function Dropped(y: Sys, a: Step, t: nat): int
    requires Sized(y)
  {
    if Schedules(y, a) && y.s.current == t && !Runnable(y.s.tasks[t].state)
    then 10 - y.s.tasks[t].ticksLeft + (if a.Tick? then 1 else 0) else 0
  }

  function AllDropped(y: Sys, steps: seq<Step>, t: nat): int
    requires CanRun(y, steps)
    decreases |steps|
  {
    if steps == [] then 0 else Dropped(y, steps[0], t) + AllDropped(Next(y, steps[0]), steps[1..], t)
  }

  lemma ChargedStep(y: Sys, a: Step, t: nat)
    requires Inv(y) && Enabled(y, a) && CounterFits(y, a)
    ensures Sized(Next(y, a))
    ensures Charged(Next(y, a), t) + Dropped(y, a, t)
         == Charged(y, t) + (if a.Tick? && y.s.current == t then 1 else 0)
  {
    StepInv(y, a);
    assert StateOk(y.s, y.s.current);
    if Schedules(y, a) {
      ScheduleStep(y, a);
      ScheduleKeeps(Before(y, a), y.now, WAITFLAG_PANIC);
      if t < |y.s.tasks| {
        ScheduleTotals(Before(y, a), y.now, t);
      }
    }
  }

  /** Over every run a task is charged with exactly the ticks that arrived while it was current, but for the
      slices it ended by waiting. */
  lemma {:induction false} TicksCharged(y: Sys, steps: seq<Step>, t: nat)
    requires Inv(y) && CanRun(y, steps) && FewWakes(y, steps)
    ensures Inv(After(y, steps))
    ensures Charged(After(y, steps), t) + AllDropped(y, steps, t) == Charged(y, t) + TicksOf(y, steps, t)
    decreases |steps|
  {
    if steps != [] {
      RunStep(y, steps);
      ChargedStep(y, steps[0], t);
      TicksCharged(Next(y, steps[0]), steps[1..], t);
    }
  }

  /** From boot, where nobody has been charged with anything. */
  lemma TicksChargedFromBoot(numFlags: nat, steps: seq<Step>, t: nat)
    requires CanRun(Boot(numFlags), steps) && FewWakes(Boot(numFlags), steps)
    ensures Inv(After(Boot(numFlags), steps))
    ensures Charged(After(Boot(numFlags), steps), t) + AllDropped(Boot(numFlags), steps, t)
         == TicksOf(Boot(numFlags), steps, t)
  {
    BootInv(numFlags);
    TicksCharged(Boot(numFlags), steps, t);
  }

  /** A run in which init runs for one tick and waits, and nobody is charged with that tick. */
  lemma WaitDropsTick()
    ensures var steps := [Tick, ReadTimer(1, 1000), StoreUntil, QueueTimer, Yield];
      CanRun(Boot(0), steps) && AllDropped(Boot(0), steps, 1) == 1
  {
    var y0 := Boot(0);
    var y1 := Next(y0, Tick);
    var y2 := Next(y1, ReadTimer(1, 1000));
    var y3 := Next(y2, StoreUntil);
    var y4 := Next(y3, QueueTimer);
    var steps := [Tick, ReadTimer(1, 1000), StoreUntil, QueueTimer, Yield];
    assert y4.s.tasks[1].state == TIMEWAITING && y4.s.tasks[1].ticksLeft == 9 && y4.s.current == 1;
    assert steps[1..] == [ReadTimer(1, 1000), StoreUntil, QueueTimer, Yield];
    assert steps[1..][1..] == [StoreUntil, QueueTimer, Yield];
    assert steps[1..][1..][1..] == [QueueTimer, Yield];
    assert steps[1..][1..][1..][1..] == [Yield];
    hide Schedule;
    assert CanRun(y4, [Yield]) && AllDropped(y4, [Yield], 1) == 1;
    assert CanRun(y3, [QueueTimer, Yield]) && AllDropped(y3, [QueueTimer, Yield], 1) == 1;
    assert CanRun(y2, steps[1..][1..]) && AllDropped(y2, steps[1..][1..], 1) == 1;
    assert CanRun(y1, steps[1..]) && AllDropped(y1, steps[1..], 1) == 1;
  }

  // ----- when the underflow check does fire -------------------------------------------------

  /** A run without a wakeup too many never panics (BootSafety); one wakeup too many, and the next
      tick does. */
  lemma WakeTooMany(y: Sys, f: nat)
    requires Inv(y) && y.s.isSet == 0xffff_ffff_ffff_0000 && Enabled(y, Wake(f))
    ensures CanRun(y, [Wake(f), Tick]) && After(y, [Wake(f), Tick]).panicked
  {
    var z := Next(y, Wake(f));
    assert [Wake(f), Tick][1..] == [Tick] && [Tick][1..] == [];
    assert CanRun(Next(z, Tick), []);
    assert CanRun(z, [Tick]) && After(z, [Tick]) == Next(z, Tick);
  }
}
