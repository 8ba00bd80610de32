/** Runs of the scheduler: tasks and interrupts interleaved step by step. The two waiting calls
    are several steps each, so an interrupt can land between any two of them. */
module SchedSystem {
  import opened CTypes
  import opened SchedModel

  const MAX_TASKS: nat := 40

  /** Where a task is: in its own code, or between two steps of wait_on_timer_ms or
      wait_on_waitflag. */
  datatype Pc =
    | User
    | TimerRead(deadline: nat)
    | TimerStored
    | TimerQueued
    | FlagTook(flag: nat)
    | FlagMissed(flag: nat)
    | FlagStored(flag: nat)
    | FlagQueued(flag: nat)

  datatype Sys = Sys(s: Sched, pc: seq<Pc>, now: nat, panicked: bool)

  datatype Step =
    | Elapse(delta: nat)
    | Tick
    | Yield
    | ReadTimer(msec: nat, freq: nat)
    | StoreUntil
    | QueueTimer
    | Cas(flag: nat)
    | ClearTaken
    | StoreFlag
    | QueueFlag
    | Wake(flag: nat)
    | Spawn

  /** Sched and Sys agree in size, so that the current task has a program counter. */
  predicate Sized(y: Sys) {
    |y.pc| == |y.s.tasks| && y.s.current < |y.s.tasks|
  }

  function Here(y: Sys): Pc
    requires Sized(y)
  {
    y.pc[y.s.current]
  }

  predicate Enabled(y: Sys, a: Step)
    requires Sized(y)
  {
    && !y.panicked
    && match a
       case Elapse(d) => y.now + d < TWO64
       case Tick => true
       case Yield => Here(y).User? || Here(y).TimerQueued? || Here(y).FlagQueued?
       case ReadTimer(_, _) => Here(y).User? && y.s.current != IDLE
       case StoreUntil => Here(y).TimerRead?
       case QueueTimer => Here(y).TimerStored?
       case Cas(f) => Here(y).User? && y.s.current != IDLE && f < |y.s.flags|
       case ClearTaken => Here(y).FlagTook? && Here(y).flag < |y.s.flags|
       case StoreFlag => Here(y).FlagMissed?
       case QueueFlag => Here(y).FlagStored?
       case Wake(f) => f < |y.s.flags|
       case Spawn => |y.s.tasks| < MAX_TASKS
  }

  /** ticks_left of the current task counts down at a timer interrupt. */
  function CountDown(s: Sched): Sched
    requires s.current < |s.tasks|
  {
    var t := s.tasks[s.current];
    s.(tasks := s.tasks[s.current := t.(ticksLeft := t.ticksLeft - 1)])
  }

  predicate NeedsResched(s: Sched)
    requires s.current < |s.tasks|
  {
    s.isSet != 0 || s.tasks[s.current].ticksLeft == 0
  }

  /** A wakeup does not take the counter beyond what the check of line 338 lets pass. */
  predicate CounterFits(y: Sys, a: Step) { a.Wake? ==> y.s.isSet < WAITFLAG_PANIC }

  /** schedule, with the check of line 338. */
  function RunSchedule(y: Sys, s: Sched): Sys
    requires s.current < |s.tasks|
  {
    if s.isSet > WAITFLAG_PANIC then y.(s := s, panicked := true)
    else y.(s := Schedule(s, y.now))
  }

  /** Whether a step calls schedule. */
  predicate Schedules(y: Sys, a: Step)
    requires Sized(y)
  {
    a.Yield? || (a.Tick? && NeedsResched(CountDown(y.s)))
  }

  function NewTask(): Task { Task(STOPPED, PREEMPT_TICKS, 0, 0, None) }

  function Next(y: Sys, a: Step): Sys
    requires Sized(y) && Enabled(y, a)
  {
    var c := y.s.current;
    match a
    case Elapse(d) => y.(now := y.now + d)
    case Tick =>
      var s := CountDown(y.s);
      if NeedsResched(s) then RunSchedule(y, s) else y.(s := s)
    case Yield => RunSchedule(y.(pc := y.pc[c := User]), y.s)
    case ReadTimer(msec, freq) =>
      y.(pc := y.pc[c := TimerRead((y.now + freq / 1000 * msec) % TWO64)])
    case StoreUntil =>
      y.(s := y.s.(tasks := y.s.tasks[c := y.s.tasks[c].(until := Here(y).deadline)]),
         pc := y.pc[c := TimerStored])
    case QueueTimer => y.(s := QueueTimewait(y.s, c), pc := y.pc[c := TimerQueued])
    case Cas(f) =>
      if y.s.flags[f] == 1
      then y.(s := y.s.(flags := y.s.flags[f := 0]), pc := y.pc[c := FlagTook(f)])
      else y.(pc := y.pc[c := FlagMissed(f)])
    case ClearTaken =>
      y.(s := y.s.(flags := y.s.flags[Here(y).flag := 0]), pc := y.pc[c := User])
    case StoreFlag =>
      y.(s := y.s.(tasks := y.s.tasks[c := y.s.tasks[c].(waitflag := Some(Here(y).flag))]),
         pc := y.pc[c := FlagStored(Here(y).flag)])
    case QueueFlag => y.(s := QueueFlagwait(y.s, c), pc := y.pc[c := FlagQueued(Here(y).flag)])
    case Wake(f) =>
      y.(s := y.s.(flags := y.s.flags[f := 1], isSet := Inc(y.s.isSet)))
    case Spawn =>
      var s := y.s.(tasks := y.s.tasks + [NewTask()]);
      y.(s := QueueRunnable(s, |y.s.tasks|), pc := y.pc + [User])
  }

  /** The state scheduler_init leaves: idle and init queued, and init started directly. */
  function Boot(numFlags: nat): Sys {
    var t := Task(SCHEDULED, PREEMPT_TICKS, 0, 0, None);
    Sys(Sched([t, t], [0, 1], [], [], seq(numFlags, i => 0), 0, 1), [User, User], 0, false)
  }

  // ----- the invariant ----------------------------------------------------------------------

  /** What a task's program counter says about its record and queue. */
  ghost predicate PcOk(y: Sys, t: nat)
    requires Sized(y) && t < |y.pc|
  {
    var p, s := y.pc[t], y.s;
    && (t == IDLE ==> p == User)
    && (t in s.timerWaiting ==> p.TimerQueued? || (p.User? && t != s.current))
    && (t in s.flagWaiting ==>
          && HasFlag(s, t)
          && (p == FlagQueued(s.tasks[t].waitflag.value) || (p.User? && t != s.current)))
    && (p.FlagStored? ==> FlagOf(s, t, p.flag))
    && (p.FlagMissed? || p.FlagTook? || p.FlagQueued? ==> p.flag < |s.flags|)
  }

  ghost predicate Inv(y: Sys) {
    && Sized(y) && SchedOk(y.s, WAITFLAG_PANIC)
    && 1 <= y.s.tasks[y.s.current].ticksLeft <= PREEMPT_TICKS
    && (forall f :: 0 <= f < |y.s.flags| ==> y.s.flags[f] <= 1)
    && forall t :: 0 <= t < |y.pc| ==> PcOk(y, t)
  }

  lemma SetCountZeros(flags: seq<nat>)
    requires forall f :: 0 <= f < |flags| ==> flags[f] == 0
    ensures SetCount(flags) == 0
  {
  }

  lemma BootInv(numFlags: nat)
    ensures Inv(Boot(numFlags))
  {
    var y := Boot(numFlags);
    SetCountZeros(y.s.flags);
    forall t | 0 <= t < 2
      ensures OnQueueOfState(y.s, t) && StateOk(y.s, t) && PcOk(y, t)
    {
    }
  }

  /** Changing the current task's record without its state keeps the queues in order. */
  lemma RecordChange(s: Sched, r: Sched, most: nat)
    requires SchedOk(s, most)
    requires |r.tasks| == |s.tasks|
    requires r == s.(tasks := s.tasks[s.current := r.tasks[s.current]])
    requires r.tasks[s.current].state == s.tasks[s.current].state
    requires r.tasks[s.current].waitflag == s.tasks[s.current].waitflag || s.current !in s.flagWaiting
    ensures SchedOk(r, most)
  {
    SameStatesKeep(s, r);
    forall t | 0 <= t < |r.tasks|
      ensures StateOk(r, t)
    {
      assert StateOk(s, t);
    }
    forall i | 0 <= i < |r.flagWaiting|
      ensures HasFlag(r, r.flagWaiting[i])
    {
      assert HasFlag(s, s.flagWaiting[i]);
      assert s.flagWaiting[i] in s.flagWaiting;
    }
  }

  /** After any call of schedule the invariant holds, whatever the current task was doing. */
  lemma ScheduleInv(y: Sys, s: Sched, pc: seq<Pc>)
    requires Sized(y) && SchedOk(s, WAITFLAG_PANIC) && |s.tasks| == |y.pc| && |pc| == |y.pc|
    requires s.flags == y.s.flags && (forall f :: 0 <= f < |s.flags| ==> s.flags[f] <= 1)
    requires forall t :: 0 <= t < |pc| ==> LeavesOk(s, pc[t], t)
    requires s.isSet <= WAITFLAG_PANIC
    ensures Inv(y.(s := Schedule(s, y.now), pc := pc))
  {
    var r := Schedule(s, y.now);
    var z := y.(s := r, pc := pc);
    ScheduleKeeps(s, y.now, WAITFLAG_PANIC);
    forall f | 0 <= f < |r.flags|
      ensures r.flags[f] <= 1
    {
      ScheduleFlag(s, y.now, WAITFLAG_PANIC, f);
    }
    assert r.current in r.running;
    forall t | 0 <= t < |pc|
      ensures PcOk(z, t)
    {
      assert LeavesOk(s, pc[t], t);
      ScheduleTask(s, y.now, WAITFLAG_PANIC, t);
      OneQueue(s, t);
      OneQueue(r, t);
    }
  }

  /** PcOk for a task that is about to stop being the current one. */
  ghost predicate LeavesOk(s: Sched, p: Pc, t: nat)
    requires t < |s.tasks|
  {
    && (t == IDLE ==> p == User)
    && (t in s.timerWaiting ==> p.TimerQueued? || p.User?)
    && (t in s.flagWaiting ==> HasFlag(s, t) && (p == FlagQueued(s.tasks[t].waitflag.value) || p.User?))
    && (p.FlagStored? ==> FlagOf(s, t, p.flag) && t !in s.flagWaiting)
    && (p.FlagMissed? || p.FlagTook? || p.FlagQueued? ==> p.flag < |s.flags|)
  }

  lemma CountDownKeeps(s: Sched, most: nat)
    requires SchedOk(s, most)
    ensures SchedOk(CountDown(s), most)
  {
    RecordChange(s, CountDown(s), most);
  }

  lemma TickInv(y: Sys)
    requires Inv(y) && Enabled(y, Tick)
    ensures Inv(Next(y, Tick)) && !Next(y, Tick).panicked
  {
    var s := CountDown(y.s);
    CountDownKeeps(y.s, WAITFLAG_PANIC);
    forall t | 0 <= t < |y.pc|
      ensures LeavesOk(s, y.pc[t], t) && PcOk(y.(s := s), t)
    {
      assert PcOk(y, t);
      StaysWhere(y, t);
    }
    if NeedsResched(s) {
      ScheduleInv(y, s, y.pc);
    }
  }

  /** A task in the middle of a waiting call is on the running list until it has queued itself. */
  lemma StaysWhere(y: Sys, t: nat)
    requires Inv(y) && t < |y.pc|
    ensures y.pc[t].FlagStored? || y.pc[t].FlagMissed? || y.pc[t].TimerStored? || y.pc[t].TimerRead?
              || y.pc[t].FlagTook? ==>
      t in y.s.running && t !in y.s.flagWaiting && t !in y.s.timerWaiting && t != IDLE
    ensures t == y.s.current && y.pc[t].User? ==>
      t in y.s.running && t !in y.s.flagWaiting && t !in y.s.timerWaiting
  {
    assert PcOk(y, t) && StateOk(y.s, t) && OnQueueOfState(y.s, t);
  }

  lemma YieldInv(y: Sys)
    requires Inv(y) && Enabled(y, Yield)
    ensures Inv(Next(y, Yield)) && !Next(y, Yield).panicked
  {
    var pc := y.pc[y.s.current := User];
    forall t | 0 <= t < |y.pc|
      ensures LeavesOk(y.s, pc[t], t)
    {
      assert PcOk(y, t);
      StaysWhere(y, t);
    }
    ScheduleInv(y, y.s, pc);
  }

  /** Steps that move no task: only the current task's record, its program counter and the flag
      it uses change. */
  lemma LocalInv(y: Sys, z: Sys)
    requires Inv(y) && Sized(z) && SchedOk(z.s, WAITFLAG_PANIC)
    requires z.s == y.s.(tasks := z.s.tasks, flags := z.s.flags, isSet := z.s.isSet)
    requires |z.s.tasks| == |y.s.tasks| && |z.s.flags| == |y.s.flags|
    requires forall t :: 0 <= t < |y.s.tasks| && t != y.s.current ==> z.s.tasks[t] == y.s.tasks[t]
    requires z.s.tasks[y.s.current].ticksLeft == y.s.tasks[y.s.current].ticksLeft
    requires forall t :: 0 <= t < |y.pc| && t != y.s.current ==> z.pc[t] == y.pc[t]
    requires forall f :: 0 <= f < |y.s.flags| ==> z.s.flags[f] <= 1
    requires PcOk(z, y.s.current)
    ensures Inv(z)
  {
    forall t | 0 <= t < |z.pc|
      ensures PcOk(z, t)
    {
      assert PcOk(y, t);
    }
  }

  lemma RecordInv(y: Sys, a: Step)
    requires Inv(y) && Enabled(y, a)
    requires a.ReadTimer? || a.StoreUntil? || a.StoreFlag? || a.Elapse?
    ensures Inv(Next(y, a))
  {
    var c, z := y.s.current, Next(y, a);
    assert PcOk(y, c);
    StaysWhere(y, c);
    assert y.s.tasks == y.s.tasks[c := y.s.tasks[c]];
    RecordChange(y.s, z.s, WAITFLAG_PANIC);
    if a.Elapse? {
      forall t | 0 <= t < |z.pc|
        ensures PcOk(z, t)
      {
        assert PcOk(y, t);
      }
    } else {
      LocalInv(y, z);
    }
  }

  /** Clearing or setting one flag keeps the counter an upper bound of the set flags. */
  lemma FlagWrite(s: Sched, f: nat, v: nat, isSet: nat)
    requires SchedOk(s, WAITFLAG_PANIC) && f < |s.flags|
    requires v == 0 ==> isSet == s.isSet
    requires v == 1 ==> isSet == Inc(s.isSet) && s.isSet < WAITFLAG_PANIC
    requires v <= 1
    ensures SchedOk(s.(flags := s.flags[f := v], isSet := isSet), WAITFLAG_PANIC)
  {
    var r := s.(flags := s.flags[f := v], isSet := isSet);
    SetCountUpdate(s.flags, f, v);
    SameStatesKeep(s, r);
    forall t | 0 <= t < |r.tasks|
      ensures StateOk(r, t)
    {
      assert StateOk(s, t);
    }
    forall i | 0 <= i < |r.flagWaiting|
      ensures HasFlag(r, r.flagWaiting[i])
    {
      assert HasFlag(s, s.flagWaiting[i]);
    }
  }

  lemma FlagInv(y: Sys, a: Step)
    requires Inv(y) && Enabled(y, a) && CounterFits(y, a)
    requires a.Cas? || a.ClearTaken? || a.Wake?
    ensures Inv(Next(y, a))
  {
    var c, z := y.s.current, Next(y, a);
    assert PcOk(y, c);
    StaysWhere(y, c);
    match a
    case Cas(f) =>
      if y.s.flags[f] == 1 {
        FlagWrite(y.s, f, 0, y.s.isSet);
      }
      LocalInv(y, z);
    case ClearTaken =>
      FlagWrite(y.s, Here(y).flag, 0, y.s.isSet);
      LocalInv(y, z);
    case Wake(f) =>
      FlagWrite(y.s, f, 1, Inc(y.s.isSet));
      LocalInv(y, z);
  }

  lemma QueueInv(y: Sys, a: Step)
    requires Inv(y) && Enabled(y, a) && (a.QueueTimer? || a.QueueFlag?)
    ensures Inv(Next(y, a))
  {
    var c, s, z := y.s.current, y.s, Next(y, a);
    StaysWhere(y, c);
    QueueKeeps(s, c);
    UnlinkQueues(s, c);
    forall t | 0 <= t < |z.s.tasks|
      ensures StateOk(z.s, t) && PcOk(z, t)
    {
      assert StateOk(s, t) && PcOk(y, t);
    }
    forall i | 0 <= i < |z.s.flagWaiting|
      ensures HasFlag(z.s, z.s.flagWaiting[i])
    {
      OneQueue(z.s, z.s.flagWaiting[i]);
      assert PcOk(z, z.s.flagWaiting[i]);
    }
  }

  /** A new task is last on the running list; the others are as before. */
  lemma SpawnMoves(s: Sched)
    requires QueuesOk(s)
    ensures var r := QueueRunnable(s.(tasks := s.tasks + [NewTask()]), |s.tasks|);
      && QueuesOk(r) && |r.tasks| == |s.tasks| + 1
      && r == s.(tasks := r.tasks, running := s.running + [|s.tasks|])
      && (forall t :: 0 <= t < |s.tasks| ==> r.tasks[t] == s.tasks[t])
      && r.tasks[|s.tasks|] == NewTask().(state := SCHEDULED)
      && |s.tasks| !in s.timerWaiting && |s.tasks| !in s.flagWaiting
  {
    var n, u := |s.tasks|, s.(tasks := s.tasks + [NewTask()]);
    MembersInRange(s.running, n);
    MembersInRange(s.timerWaiting, n);
    MembersInRange(s.flagWaiting, n);
    forall t | 0 <= t < |u.tasks|
      ensures OnQueueOfState(u, t)
    {
      if t < n {
        assert OnQueueOfState(s, t);
      }
    }
    QueueKeeps(u, n);
    UnlinkQueues(u, n);
  }

  lemma SpawnInv(y: Sys)
    requires Inv(y) && Enabled(y, Spawn)
    ensures Inv(Next(y, Spawn))
  {
    var n, z := |y.s.tasks|, Next(y, Spawn);
    SpawnMoves(y.s);
    hide QueueRunnable, QueuesOk;
    forall t | 0 <= t < |z.s.tasks|
      ensures StateOk(z.s, t) && PcOk(z, t)
    {
      if t < n {
        assert StateOk(y.s, t) && PcOk(y, t);
      }
    }
    forall i | 0 <= i < |z.s.flagWaiting|
      ensures HasFlag(z.s, z.s.flagWaiting[i])
    {
      assert HasFlag(y.s, y.s.flagWaiting[i]);
    }
  }

  /** Every step keeps the invariant, and the underflow check never fires. */
  lemma StepInv(y: Sys, a: Step)
    requires Inv(y) && Enabled(y, a) && CounterFits(y, a)
    ensures Inv(Next(y, a)) && !Next(y, a).panicked
  {
    match a
    case Tick => TickInv(y);
    case Yield => YieldInv(y);
    case ReadTimer(_, _) => RecordInv(y, a);
    case StoreUntil => RecordInv(y, a);
    case StoreFlag => RecordInv(y, a);
    case Elapse(_) => RecordInv(y, a);
    case QueueTimer => QueueInv(y, a);
    case QueueFlag => QueueInv(y, a);
    case Cas(_) => FlagInv(y, a);
    case ClearTaken => FlagInv(y, a);
    case Wake(_) => FlagInv(y, a);
    case Spawn => SpawnInv(y);
  }
}
