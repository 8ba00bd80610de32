/** The scheduler of sched.c on one CPU as a step system: what each operation does to the three
    queues, the task records and the wait flags, and what holds over every run. The class in
    Sched.dfy carries these operations out on linked lists. */
module SchedModel {
  import opened CTypes

  const PREEMPT_TICKS: int := 10
  /** Above this value of waitflag_is_set, schedule_handle_flag_waiting panics. */
  const WAITFLAG_PANIC: nat := 0xffff_ffff_ffff_0000
  /** The idle task is the first one created. */
  const IDLE: nat := 0

  datatype TaskState = STOPPED | SCHEDULED | RUNNING | TIMEWAITING | FLAGWAITING

  datatype Task = Task(
    state: TaskState, ticksLeft: int, ticksTotal: int, until: nat, waitflag: Option<nat>)

  /** Tasks and flags are named by index; a flag holds 0 or 1. */
  datatype Sched = Sched(
    tasks: seq<Task>, running: seq<nat>, timerWaiting: seq<nat>, flagWaiting: seq<nat>,
    flags: seq<nat>, isSet: nat, current: nat)

  // ----- queues -----------------------------------------------------------------------------

  predicate NoDup(q: seq<nat>) {
    forall i, j :: 0 <= i < j < |q| ==> q[i] != q[j]
  }

  predicate InRange(q: seq<nat>, n: nat) {
    forall i :: 0 <= i < |q| ==> q[i] < n
  }

  /** q with task t taken out. */
  function Without(q: seq<nat>, t: nat): seq<nat> {
    if q == [] then []
    else if q[|q| - 1] == t then Without(q[..|q| - 1], t)
    else Without(q[..|q| - 1], t) + [q[|q| - 1]]
  }

  lemma {:induction false} WithoutMembers(q: seq<nat>, t: nat)
    ensures forall x :: x in Without(q, t) <==> x in q && x != t
    ensures NoDup(q) ==> NoDup(Without(q, t))
    ensures t !in q ==> Without(q, t) == q
  {
    if q != [] {
      var p := q[..|q| - 1];
      WithoutMembers(p, t);
      assert q == p + [q[|q| - 1]];
      if NoDup(q) {
        assert NoDup(p);
        assert q[|q| - 1] !in p;
      }
    }
  }

  lemma {:induction false} WithoutHead(q: seq<nat>, t: nat)
    requires q != [] && q[0] == t && t !in q[1..]
    ensures Without(q, t) == q[1..]
  {
    if |q| > 1 {
      var p := q[..|q| - 1];
      assert q[1..] == p[1..] + [q[|q| - 1]];
      WithoutHead(p, t);
    } else {
      assert q[..0] == [];
    }
  }

  // ----- the operations of sched.c ----------------------------------------------------------

  /** list_del_init of the task's node: it leaves whichever queue it is on. */
  function Unlink(s: Sched, t: nat): Sched {
    s.(running := Without(s.running, t), timerWaiting := Without(s.timerWaiting, t),
       flagWaiting := Without(s.flagWaiting, t))
  }

  function SetState(s: Sched, t: nat, st: TaskState): Sched
    requires t < |s.tasks|
  {
    s.(tasks := s.tasks[t := s.tasks[t].(state := st)])
  }

  function QueueRunnable(s: Sched, t: nat): Sched
    requires t < |s.tasks|
  {
    var u := Unlink(s, t);
    SetState(u.(running := u.running + [t]), t, SCHEDULED)
  }

  function QueueTimewait(s: Sched, t: nat): Sched
    requires t < |s.tasks|
  {
    var u := Unlink(s, t);
    SetState(u.(timerWaiting := u.timerWaiting + [t]), t, TIMEWAITING)
  }

  function QueueFlagwait(s: Sched, t: nat): Sched
    requires t < |s.tasks|
  {
    var u := Unlink(s, t);
    SetState(u.(flagWaiting := u.flagWaiting + [t]), t, FLAGWAITING)
  }

  predicate Expired(s: Sched, t: nat, now: nat) {
    t < |s.tasks| && s.tasks[t].until <= now
  }

  /** One visit of the loop in schedule_handle_timer_waiting. */
  function TimerVisit(s: Sched, t: nat, now: nat): Sched {
    if Expired(s, t, now) then QueueRunnable(s, t) else s
  }

  function TimerPass(s: Sched, q: seq<nat>, now: nat): (r: Sched)
    ensures |r.tasks| == |s.tasks| && r.current == s.current
  {
    if q == [] then s
    else TimerVisit(TimerPass(s, q[..|q| - 1], now), q[|q| - 1], now)
  }

  /** atomic_dec on a 64-bit counter. */
  function Dec(n: nat): nat { (n + TWO64 - 1) % TWO64 }

  /** atomic_inc on a 64-bit counter. */
  function Inc(n: nat): nat { (n + 1) % TWO64 }

  predicate FlagOf(s: Sched, t: nat, f: nat) {
    t < |s.tasks| && s.tasks[t].waitflag == Some(f) && f < |s.flags|
  }

  predicate HasFlag(s: Sched, t: nat) {
    t < |s.tasks| && s.tasks[t].waitflag.Some? && s.tasks[t].waitflag.value < |s.flags|
  }

  /** One visit of the loop in schedule_handle_flag_waiting. A queued task without a wait flag is
      the BUG of line 342, which WaitersHaveFlags rules out. */
  function FlagVisit(s: Sched, t: nat): Sched {
    if HasFlag(s, t) && s.flags[s.tasks[t].waitflag.value] != 0 then
      var c := s.(flags := s.flags[s.tasks[t].waitflag.value := 0],
                  tasks := s.tasks[t := s.tasks[t].(waitflag := None)]);
      QueueRunnable(c, t).(isSet := Dec(s.isSet))
    else s
  }

  function FlagPass(s: Sched, q: seq<nat>): (r: Sched)
    ensures |r.tasks| == |s.tasks| && |r.flags| == |s.flags| && r.current == s.current
  {
    if q == [] then s
    else FlagVisit(FlagPass(s, q[..|q| - 1]), q[|q| - 1])
  }

  /** ticks_total += PREEMPT_TICKS - ticks_left, for the current task. */
  function Account(s: Sched): Sched
    requires s.current < |s.tasks|
  {
    var t := s.tasks[s.current];
    s.(tasks := s.tasks[s.current := t.(ticksTotal := t.ticksTotal + PREEMPT_TICKS - t.ticksLeft)])
  }

  /** Lines 371-387: the current task goes to the end of the running list unless it waits. */
  function Requeue(s: Sched): Sched
    requires s.current < |s.tasks|
  {
    var st := s.tasks[s.current].state;
    if st == TIMEWAITING || st == FLAGWAITING then s else QueueRunnable(Account(s), s.current)
  }

  /** The task that scheduler_pick_next_task chooses, else the idle task. */
  function Pick(s: Sched): nat {
    if s.running != [] then s.running[0] else IDLE
  }

  function Dispatch(s: Sched): Sched {
    var n := Pick(s);
    if n < |s.tasks| then
      var t := s.tasks[n];
      var u := if s.running != [] then t.(ticksLeft := PREEMPT_TICKS) else t;
      s.(tasks := s.tasks[n := u.(state := RUNNING)], current := n)
    else s
  }

  function TimerPhase(s: Sched, now: nat): Sched {
    TimerPass(s, s.timerWaiting, now)
  }

  function FlagPhase(s: Sched): Sched {
    if s.isSet != 0 then FlagPass(s, s.flagWaiting) else s
  }

  /** schedule(): the order of its phases is that of lines 371-406. */
  function Schedule(s: Sched, now: nat): Sched
    requires s.current < |s.tasks|
  {
    Dispatch(FlagPhase(TimerPhase(Requeue(s), now)))
  }

  // ----- the queue invariant ----------------------------------------------------------------

  predicate Runnable(st: TaskState) { st == SCHEDULED || st == RUNNING }

  /** Every queue is free of repeats, and a task is on exactly the queue its state names. */
  ghost predicate QueuesOk(s: Sched) {
    && NoDup(s.running) && NoDup(s.timerWaiting) && NoDup(s.flagWaiting)
    && InRange(s.running, |s.tasks|) && InRange(s.timerWaiting, |s.tasks|)
    && InRange(s.flagWaiting, |s.tasks|)
    && forall t :: 0 <= t < |s.tasks| ==> OnQueueOfState(s, t)
  }

  ghost predicate OnQueueOfState(s: Sched, t: nat)
    requires t < |s.tasks|
  {
    && (t in s.running <==> Runnable(s.tasks[t].state))
    && (t in s.timerWaiting <==> s.tasks[t].state == TIMEWAITING)
    && (t in s.flagWaiting <==> s.tasks[t].state == FLAGWAITING)
  }

  lemma UnlinkQueues(s: Sched, t: nat)
    ensures var u := Unlink(s, t);
      && (forall x :: x in u.running <==> x in s.running && x != t)
      && (forall x :: x in u.timerWaiting <==> x in s.timerWaiting && x != t)
      && (forall x :: x in u.flagWaiting <==> x in s.flagWaiting && x != t)
    ensures var u := Unlink(s, t);
      && (NoDup(s.running) ==> NoDup(u.running + [t]))
      && (NoDup(s.timerWaiting) ==> NoDup(u.timerWaiting + [t]))
      && (NoDup(s.flagWaiting) ==> NoDup(u.flagWaiting + [t]))
      && (NoDup(s.running) ==> NoDup(u.running))
      && (NoDup(s.timerWaiting) ==> NoDup(u.timerWaiting))
      && (NoDup(s.flagWaiting) ==> NoDup(u.flagWaiting))
    ensures t !in s.running ==> Unlink(s, t).running == s.running
    ensures t !in s.timerWaiting ==> Unlink(s, t).timerWaiting == s.timerWaiting
    ensures t !in s.flagWaiting ==> Unlink(s, t).flagWaiting == s.flagWaiting
  {
    WithoutMembers(s.running, t);
    WithoutMembers(s.timerWaiting, t);
    WithoutMembers(s.flagWaiting, t);
  }

  lemma MembersInRange(q: seq<nat>, n: nat)
    ensures InRange(q, n) <==> forall t :: t in q ==> t < n
  {
    if forall t :: t in q ==> t < n {
      forall i | 0 <= i < |q|
        ensures q[i] < n
      {
        assert q[i] in q;
      }
    }
  }

  /** Moving one task to the end of a queue keeps every queue and state in agreement. */
  lemma QueueKeeps(s: Sched, t: nat)
    requires QueuesOk(s) && t < |s.tasks|
    ensures QueuesOk(QueueRunnable(s, t))
    ensures QueuesOk(QueueTimewait(s, t))
    ensures QueuesOk(QueueFlagwait(s, t))
  {
    UnlinkQueues(s, t);
    MoveKeeps(s, t, QueueRunnable(s, t));
    MoveKeeps(s, t, QueueTimewait(s, t));
    MoveKeeps(s, t, QueueFlagwait(s, t));
  }

  lemma MoveKeeps(s: Sched, t: nat, r: Sched)
    requires QueuesOk(s) && t < |s.tasks| && |r.tasks| == |s.tasks|
    requires NoDup(r.running) && NoDup(r.timerWaiting) && NoDup(r.flagWaiting)
    requires forall x :: x != t ==>
      && (x in r.running <==> x in s.running)
      && (x in r.timerWaiting <==> x in s.timerWaiting)
      && (x in r.flagWaiting <==> x in s.flagWaiting)
    requires forall x :: 0 <= x < |s.tasks| && x != t ==> r.tasks[x].state == s.tasks[x].state
    requires OnQueueOfState(r, t)
    ensures QueuesOk(r)
  {
    MembersInRange(s.running, |s.tasks|);
    MembersInRange(s.timerWaiting, |s.tasks|);
    MembersInRange(s.flagWaiting, |s.tasks|);
    MembersInRange(r.running, |s.tasks|);
    MembersInRange(r.timerWaiting, |s.tasks|);
    MembersInRange(r.flagWaiting, |s.tasks|);
    forall x | 0 <= x < |r.tasks|
      ensures OnQueueOfState(r, x)
    {
      if x != t {
        assert OnQueueOfState(s, x);
      }
    }
  }

  // ----- the two waiting-list loops ---------------------------------------------------------

  /** What no scheduler pass touches: deadlines, ticks and the current task. */
  ghost predicate SameClocks(s: Sched, r: Sched) {
    && |r.tasks| == |s.tasks| && r.current == s.current && |r.flags| == |s.flags|
    && forall t :: 0 <= t < |s.tasks| ==>
      && r.tasks[t].until == s.tasks[t].until
      && r.tasks[t].ticksLeft == s.tasks[t].ticksLeft
      && r.tasks[t].ticksTotal == s.tasks[t].ticksTotal
  }

  ghost predicate AllIn(q: seq<nat>, p: seq<nat>) {
    forall i :: 0 <= i < |q| ==> q[i] in p
  }

  lemma RunnableMove(s: Sched, t: nat)
    requires QueuesOk(s) && t < |s.tasks| && t !in s.running
    ensures var r := QueueRunnable(s, t);
      && QueuesOk(r) && SameClocks(s, r) && r.running == s.running + [t]
      && r.flags == s.flags && r.isSet == s.isSet
      && (forall x :: x in r.timerWaiting <==> x in s.timerWaiting && x != t)
      && (forall x :: x in r.flagWaiting <==> x in s.flagWaiting && x != t)
      && (t !in s.flagWaiting ==> r.flagWaiting == s.flagWaiting)
      && (t !in s.timerWaiting ==> r.timerWaiting == s.timerWaiting)
      && (forall x :: 0 <= x < |s.tasks| && x != t ==> r.tasks[x] == s.tasks[x])
      && r.tasks[t].waitflag == s.tasks[t].waitflag
  {
    QueueKeeps(s, t);
    UnlinkQueues(s, t);
  }

  lemma OneQueue(s: Sched, x: nat)
    requires QueuesOk(s)
    ensures x in s.flagWaiting ==> x !in s.running && x !in s.timerWaiting && x < |s.tasks|
    ensures x in s.timerWaiting ==> x !in s.running && x !in s.flagWaiting && x < |s.tasks|
    ensures x in s.running ==> x < |s.tasks|
  {
    if x < |s.tasks| {
      assert OnQueueOfState(s, x);
    }
  }

  /** The timer loop keeps every queue in order and only appends to the running list. */
  lemma {:induction false} TimerPassKeeps(s: Sched, q: seq<nat>, now: nat)
    requires QueuesOk(s) && NoDup(q) && AllIn(q, s.timerWaiting) && InRange(q, |s.tasks|)
    ensures var r := TimerPass(s, q, now);
      && QueuesOk(r) && SameClocks(s, r) && s.running <= r.running
      && r.flagWaiting == s.flagWaiting && r.flags == s.flags && r.isSet == s.isSet
      && (forall x :: x in s.timerWaiting && x !in q ==> x in r.timerWaiting)
  {
    if q != [] {
      var p, t := q[..|q| - 1], q[|q| - 1];
      assert q == p + [t];
      TimerPassKeeps(s, p, now);
      var m := TimerPass(s, p, now);
      assert t !in p && t in s.timerWaiting;
      OneQueue(m, t);
      if Expired(s, t, now) {
        RunnableMove(m, t);
      }
    }
  }

  lemma TimerVisitTask(m: Sched, t: nat, now: nat, x: nat)
    requires QueuesOk(m) && t in m.timerWaiting && t < |m.tasks| && x < |m.tasks|
    ensures var r := TimerVisit(m, t, now);
      && (x != t ==> r.tasks[x] == m.tasks[x])
      && r.tasks[x].waitflag == m.tasks[x].waitflag
      && (x in r.timerWaiting <==> x in m.timerWaiting && !(x == t && Expired(m, t, now)))
      && (x in r.running <==> x in m.running || (x == t && Expired(m, t, now)))
      && (Expired(m, t, now) ==> r.tasks[t].state == SCHEDULED)
      && (!Expired(m, t, now) ==> r == m)
  {
    OneQueue(m, t);
    if Expired(m, t, now) {
      RunnableMove(m, t);
    }
  }

  /** What the timer loop does to one task: it moves exactly the expired ones it visits. */
  lemma {:induction false} TimerPassTask(s: Sched, q: seq<nat>, now: nat, x: nat)
    requires QueuesOk(s) && NoDup(q) && AllIn(q, s.timerWaiting) && InRange(q, |s.tasks|)
    requires x < |s.tasks|
    ensures var r := TimerPass(s, q, now);
      && (x in r.timerWaiting <==> x in s.timerWaiting && !(x in q && Expired(s, x, now)))
      && (x in r.running <==> x in s.running || (x in q && Expired(s, x, now)))
      && r.tasks[x].waitflag == s.tasks[x].waitflag
      && (!(x in q && Expired(s, x, now)) ==> r.tasks[x] == s.tasks[x])
      && (x in q && Expired(s, x, now) ==> r.tasks[x].state == SCHEDULED)
  {
    if q != [] {
      var p, t := q[..|q| - 1], q[|q| - 1];
      assert q == p + [t];
      TimerPassKeeps(s, p, now);
      TimerPassTask(s, p, now, x);
      assert t !in p && t in s.timerWaiting;
      TimerVisitTask(TimerPass(s, p, now), t, now, x);
    }
  }

  /** How many flags are set. */
  function SetCount(flags: seq<nat>): nat {
    if flags == [] then 0
    else SetCount(flags[..|flags| - 1]) + (if flags[|flags| - 1] != 0 then 1 else 0)
  }

  lemma {:induction false} SetCountUpdate(flags: seq<nat>, f: nat, v: nat)
    requires f < |flags|
    ensures SetCount(flags[f := v])
         == SetCount(flags) + (if v != 0 then 1 else 0) - (if flags[f] != 0 then 1 else 0)
  {
    var p := flags[..|flags| - 1];
    var g := flags[f := v];
    if f == |flags| - 1 {
      assert g[..|g| - 1] == p;
    } else {
      SetCountUpdate(p, f, v);
      assert g[..|g| - 1] == p[f := v];
    }
  }

  /** waitflag_is_set is at least the number of set flags, and at most `most`. */
  ghost predicate CounterOk(s: Sched, most: nat) {
    SetCount(s.flags) <= s.isSet <= most && s.isSet < TWO64
  }

  /** Every task on the flag list has a flag of its own to wait for. */
  ghost predicate WaitersHaveFlags(s: Sched) {
    forall i :: 0 <= i < |s.flagWaiting| ==> HasFlag(s, s.flagWaiting[i])
  }

  /** The flag loop keeps queues and counter in order: each decrement clears a set flag, so
      the counter never wraps below zero. */
  lemma {:induction false} FlagPassKeeps(s: Sched, q: seq<nat>, most: nat)
    requires QueuesOk(s) && NoDup(q) && AllIn(q, s.flagWaiting) && InRange(q, |s.tasks|)
    requires CounterOk(s, most)
    requires forall i :: 0 <= i < |q| ==> HasFlag(s, q[i])
    ensures var r := FlagPass(s, q);
      && QueuesOk(r) && SameClocks(s, r) && s.running <= r.running
      && r.timerWaiting == s.timerWaiting && CounterOk(r, most)
      && (forall x :: x in s.flagWaiting && x !in q ==> x in r.flagWaiting)
      && (forall x :: 0 <= x < |s.tasks| && x !in q ==> r.tasks[x] == s.tasks[x])
  {
    if q != [] {
      var p, t := q[..|q| - 1], q[|q| - 1];
      assert q == p + [t];
      FlagPassKeeps(s, p, most);
      var m := FlagPass(s, p);
      assert t !in p && t in s.flagWaiting;
      OneQueue(m, t);
      FlagVisitMoves(m, t, most);
    }
  }

  /** What the flag loop does to one visited task: it most it and clears its flag, or leaves it
      waiting, and then its flag is clear. */
  lemma {:induction false} FlagPassTask(s: Sched, q: seq<nat>, most: nat, x: nat, f: nat)
    requires QueuesOk(s) && NoDup(q) && AllIn(q, s.flagWaiting) && InRange(q, |s.tasks|)
    requires CounterOk(s, most)
    requires forall i :: 0 <= i < |q| ==> HasFlag(s, q[i])
    requires x in q && FlagOf(s, x, f)
    ensures var r := FlagPass(s, q);
      && r.flags[f] == 0
      && (x in r.running ==> s.flags[f] != 0)
      && (x !in r.running ==> x in r.flagWaiting && r.tasks[x] == s.tasks[x])
  {
    var p, t := q[..|q| - 1], q[|q| - 1];
    assert q == p + [t];
    FlagPassKeeps(s, p, most);
    var m := FlagPass(s, p);
    assert t !in p && t in m.flagWaiting && m.tasks[t] == s.tasks[t];
    FlagVisitTask(m, t, most, x, f);
    if x == t {
      FlagPassFlag(s, p, most, f);
    } else {
      FlagPassTask(s, p, most, x, f);
    }
  }

  lemma FlagVisitTask(m: Sched, t: nat, most: nat, x: nat, f: nat)
    requires QueuesOk(m) && t < |m.tasks| && t in m.flagWaiting && CounterOk(m, most)
    requires HasFlag(m, t) && x < |m.tasks| && f < |m.flags|
    ensures var r := FlagVisit(m, t);
      && (r.flags[f] == m.flags[f] || (FlagOf(m, t, f) && t in r.running))
      && (m.flags[f] == 0 ==> r.flags[f] == 0)
      && (FlagOf(m, t, f) ==> r.flags[f] == 0 && (t in r.running <==> m.flags[f] != 0))
      && (x != t ==> r.tasks[x] == m.tasks[x])
      && (x != t ==> (x in r.running <==> x in m.running))
      && (x != t ==> (x in r.flagWaiting <==> x in m.flagWaiting))
      && (t !in r.running ==> t in r.flagWaiting && r.tasks[t] == m.tasks[t])
  {
    OneQueue(m, t);
    FlagVisitMoves(m, t, most);
  }

  /** What the flag loop does to one flag: a flag it clears has woken a task that waited for it,
      and a flag nobody visited waits for is untouched. */
  lemma {:induction false} FlagPassFlag(s: Sched, q: seq<nat>, most: nat, f: nat)
    requires QueuesOk(s) && NoDup(q) && AllIn(q, s.flagWaiting) && InRange(q, |s.tasks|)
    requires CounterOk(s, most)
    requires forall i :: 0 <= i < |q| ==> HasFlag(s, q[i])
    requires f < |s.flags|
    ensures var r := FlagPass(s, q);
      || r.flags[f] == s.flags[f]
      || (r.flags[f] == 0
          && exists i :: 0 <= i < |q| && s.tasks[q[i]].waitflag == Some(f) && q[i] in r.running)
  {
    if q != [] {
      var p, t := q[..|q| - 1], q[|q| - 1];
      assert q == p + [t];
      FlagPassKeeps(s, p, most);
      FlagPassFlag(s, p, most, f);
      var m, r := FlagPass(s, p), FlagPass(s, q);
      assert t !in p && t in m.flagWaiting && m.tasks[t] == s.tasks[t];
      if m.flags[f] != s.flags[f] {
        var i :| 0 <= i < |p| && s.tasks[p[i]].waitflag == Some(f) && p[i] in m.running;
        assert p[i] in p && q[i] == p[i];
        FlagVisitTask(m, t, most, p[i], f);
      } else {
        FlagVisitTask(m, t, most, t, f);
        assert q[|p|] == t;
      }
    }
  }

  lemma FlagVisitMoves(s: Sched, t: nat, most: nat)
    requires QueuesOk(s) && t < |s.tasks| && t in s.flagWaiting && t !in s.running
    requires CounterOk(s, most) && HasFlag(s, t)
    ensures var r := FlagVisit(s, t);
      var f := s.tasks[t].waitflag.value;
      && QueuesOk(r) && SameClocks(s, r) && CounterOk(r, most)
      && r.timerWaiting == s.timerWaiting
      && r.flags == s.flags[f := 0]
      && (forall x :: 0 <= x < |s.tasks| && x != t ==> r.tasks[x] == s.tasks[x])
      && (s.flags[f] == 0 ==> r == s)
      && (s.flags[f] != 0 ==>
            && r.running == s.running + [t] && r.isSet == s.isSet - 1
            && (forall x :: x in r.flagWaiting <==> x in s.flagWaiting && x != t))
  {
    var f := s.tasks[t].waitflag.value;
    if s.flags[f] != 0 {
      var c := s.(flags := s.flags[f := 0], tasks := s.tasks[t := s.tasks[t].(waitflag := None)]);
      SetCountUpdate(s.flags, f, 0);
      SameStatesKeep(s, c);
      OneQueue(s, t);
      RunnableMove(c, t);
      var r := QueueRunnable(c, t);
      SameStatesKeep(r, r.(isSet := Dec(s.isSet)));
    } else {
      assert s.flags[f := 0] == s.flags;
    }
  }

  /** Queue order only depends on the queues and the task states. */
  lemma SameStatesKeep(s: Sched, r: Sched)
    requires QueuesOk(s) && |r.tasks| == |s.tasks|
    requires r.running == s.running && r.timerWaiting == s.timerWaiting
    requires r.flagWaiting == s.flagWaiting
    requires forall x :: 0 <= x < |s.tasks| ==> r.tasks[x].state == s.tasks[x].state
    ensures QueuesOk(r)
  {
    forall x | 0 <= x < |r.tasks|
      ensures OnQueueOfState(r, x)
    {
      assert OnQueueOfState(s, x);
    }
  }

  // ----- one call of schedule ---------------------------------------------------------------

  /** What holds of the scheduler between any two steps: every task is on exactly one queue, the
      one its state names; only the current task is RUNNING; the idle task is runnable. */
  ghost predicate SchedOk(s: Sched, most: nat) {
    && QueuesOk(s) && CounterOk(s, most) && WaitersHaveFlags(s)
    && s.current < |s.tasks| && IDLE in s.running
    && forall t :: 0 <= t < |s.tasks| ==> StateOk(s, t)
  }

  predicate StateOk(s: Sched, t: nat)
    requires t < |s.tasks|
  {
    s.tasks[t].state != STOPPED && (s.tasks[t].state == RUNNING ==> t == s.current)
  }

  ghost predicate NobodyRuns(s: Sched) {
    forall t :: 0 <= t < |s.tasks| ==> s.tasks[t].state != RUNNING && s.tasks[t].state != STOPPED
  }

  lemma RequeueMoves(s: Sched)
    requires QueuesOk(s) && s.current < |s.tasks| && Runnable(s.tasks[s.current].state)
    ensures var a := Requeue(s);
      && QueuesOk(a) && a.running == Without(s.running, s.current) + [s.current]
      && a.timerWaiting == s.timerWaiting && a.flagWaiting == s.flagWaiting
  {
    var c, u := s.current, Account(s);
    assert OnQueueOfState(s, c);
    SameStatesKeep(s, u);
    QueueKeeps(u, c);
    UnlinkQueues(u, c);
  }

  lemma RequeueKeeps(s: Sched, most: nat)
    requires SchedOk(s, most)
    ensures var a := Requeue(s);
      && QueuesOk(a) && NobodyRuns(a) && a.current == s.current
      && a.timerWaiting == s.timerWaiting && a.flagWaiting == s.flagWaiting
      && a.flags == s.flags && a.isSet == s.isSet && |a.tasks| == |s.tasks|
      && a.running == (if s.current in s.running
                       then Without(s.running, s.current) + [s.current] else s.running)
      && IDLE in a.running
  {
    var c := s.current;
    assert OnQueueOfState(s, c) && StateOk(s, c);
    WithoutMembers(s.running, c);
    if Runnable(s.tasks[c].state) {
      RequeueMoves(s);
    }
    forall t | 0 <= t < |s.tasks|
      ensures Requeue(s).tasks[t].state != RUNNING && Requeue(s).tasks[t].state != STOPPED
    {
      assert StateOk(s, t);
    }
  }

  lemma RequeueTask(s: Sched, t: nat)
    requires s.current < |s.tasks| && t < |s.tasks|
    ensures var a := Requeue(s);
      && a.tasks[t].until == s.tasks[t].until && a.tasks[t].waitflag == s.tasks[t].waitflag
      && (t != s.current ==> a.tasks[t] == s.tasks[t])
      && (!Runnable(s.tasks[t].state) ==> a.tasks[t] == s.tasks[t] || s.tasks[t].state == STOPPED)
  {
  }

  lemma SelfIn(q: seq<nat>)
    ensures AllIn(q, q)
  {
  }

  /** What holds between the phases of schedule. */
  ghost predicate MidOk(s: Sched, most: nat) {
    && QueuesOk(s) && CounterOk(s, most) && WaitersHaveFlags(s) && NobodyRuns(s)
  }

  lemma TimersKeep(s: Sched, now: nat, most: nat)
    requires SchedOk(s, most)
    ensures var a, b := Requeue(s), TimerPhase(Requeue(s), now);
      && MidOk(b, most) && |b.tasks| == |s.tasks| && b.current == s.current
      && b.flagWaiting == s.flagWaiting && b.flags == s.flags && b.isSet == s.isSet
      && a.running <= b.running && IDLE in b.running
  {
    RequeueKeeps(s, most);
    var a := Requeue(s);
    SelfIn(a.timerWaiting);
    TimerPassKeeps(a, a.timerWaiting, now);
    var b := TimerPhase(a, now);
    forall t | 0 <= t < |b.tasks|
      ensures b.tasks[t].state != RUNNING && b.tasks[t].state != STOPPED
      ensures b.tasks[t].waitflag == s.tasks[t].waitflag
    {
      RequeueTask(s, t);
      TimerPassTask(a, a.timerWaiting, now, t);
    }
    forall i | 0 <= i < |b.flagWaiting|
      ensures HasFlag(b, b.flagWaiting[i])
    {
      assert HasFlag(s, s.flagWaiting[i]);
    }
  }

  /** The first two phases, seen from one task. */
  lemma TimersTask(s: Sched, now: nat, most: nat, x: nat)
    requires SchedOk(s, most) && x < |s.tasks|
    ensures var b := TimerPhase(Requeue(s), now);
      && |b.tasks| == |s.tasks|
      && b.tasks[x].until == s.tasks[x].until && b.tasks[x].waitflag == s.tasks[x].waitflag
      && (x in s.running ==> x in b.running)
      && (x in s.flagWaiting ==> b.tasks[x] == s.tasks[x])
      && (x in b.timerWaiting <==> x in s.timerWaiting && !Expired(s, x, now))
      && (x in s.timerWaiting && Expired(s, x, now) ==> x in b.running)
      && (x in b.timerWaiting ==> b.tasks[x] == s.tasks[x])
  {
    var a := Requeue(s);
    RequeueKeeps(s, most);
    RequeueTask(s, x);
    WithoutMembers(s.running, s.current);
    SelfIn(a.timerWaiting);
    TimerPassTask(a, a.timerWaiting, now, x);
    TimerPassKeeps(a, a.timerWaiting, now);
    assert OnQueueOfState(s, x) && StateOk(s, x);
  }

  /** The flag phase keeps everything in order. */
  lemma FlagsKeep(b: Sched, most: nat)
    requires MidOk(b, most)
    ensures var r := FlagPhase(b);
      && MidOk(r, most) && SameClocks(b, r) && b.running <= r.running
      && r.timerWaiting == b.timerWaiting
  {
    SelfIn(b.flagWaiting);
    if b.isSet != 0 {
      FlagPassKeeps(b, b.flagWaiting, most);
      var r := FlagPhase(b);
      forall t | 0 <= t < |r.tasks|
        ensures r.tasks[t].state != RUNNING && r.tasks[t].state != STOPPED
      {
        FlagsTask(b, most, t);
      }
      forall i | 0 <= i < |r.flagWaiting|
        ensures HasFlag(r, r.flagWaiting[i])
      {
        var t := r.flagWaiting[i];
        OneQueue(r, t);
        FlagsTask(b, most, t);
      }
    }
  }

  /** The flag phase, seen from one task: a waiter whose flag stays set is impossible. */
  lemma FlagsTask(b: Sched, most: nat, x: nat)
    requires MidOk(b, most) && x < |b.tasks|
    ensures var r := FlagPhase(b);
      && |r.tasks| == |b.tasks| && |r.flags| == |b.flags|
      && (x in b.running ==> x in r.running)
      && (x !in b.flagWaiting ==> r.tasks[x] == b.tasks[x] && x !in r.flagWaiting)
      && (x in b.flagWaiting ==>
            && HasFlag(b, x) && r.flags[b.tasks[x].waitflag.value] == 0
            && (x in r.running || (x in r.flagWaiting && r.tasks[x] == b.tasks[x]))
            && (x in r.running ==> b.flags[b.tasks[x].waitflag.value] != 0
                                   && r.tasks[x].state == SCHEDULED))
  {
    var q := b.flagWaiting;
    SelfIn(q);
    OneQueue(b, x);
    SetCountAtLeast(b.flags);
    if b.isSet != 0 {
      FlagPassKeeps(b, q, most);
      var r := FlagPass(b, q);
      assert OnQueueOfState(b, x) && OnQueueOfState(r, x);
      if x in q {
        FlagPassTask(b, q, most, x, b.tasks[x].waitflag.value);
        FlagPassState(b, q, x);
      }
    }
  }

  /** The flag loop never marks a task RUNNING. */
  lemma {:induction false} FlagPassState(s: Sched, q: seq<nat>, x: nat)
    requires x < |s.tasks|
    ensures FlagPass(s, q).tasks[x].state == s.tasks[x].state
         || FlagPass(s, q).tasks[x].state == SCHEDULED
  {
    if q != [] {
      FlagPassState(s, q[..|q| - 1], x);
    }
  }

  lemma {:induction false} SetCountAtLeast(flags: seq<nat>)
    ensures SetCount(flags) == 0 ==> forall f :: 0 <= f < |flags| ==> flags[f] == 0
  {
    if flags != [] {
      SetCountAtLeast(flags[..|flags| - 1]);
    }
  }

  /** One call of schedule keeps every queue in order, finds a task on the running list, and
      starts it with a full time slice. */
  lemma ScheduleKeeps(s: Sched, now: nat, most: nat)
    requires SchedOk(s, most)
    ensures var r := Schedule(s, now);
      && SchedOk(r, most) && |r.tasks| == |s.tasks| && |r.flags| == |s.flags|
      && r.running != [] && r.current == r.running[0]
      && r.tasks[r.current].ticksLeft == PREEMPT_TICKS && r.tasks[r.current].state == RUNNING
      && Requeue(s).running <= r.running
  {
    TimersKeep(s, now, most);
    var b := TimerPhase(Requeue(s), now);
    FlagsKeep(b, most);
    var c, r := FlagPhase(b), Schedule(s, now);
    OneQueue(c, c.running[0]);
    DispatchKeeps(c, most);
  }

  lemma DispatchKeeps(c: Sched, most: nat)
    requires MidOk(c, most) && IDLE in c.running
    ensures var r := Dispatch(c);
      && SchedOk(r, most) && r.running == c.running && r.current == r.running[0]
      && r.timerWaiting == c.timerWaiting && r.flagWaiting == c.flagWaiting
      && r.flags == c.flags && |r.tasks| == |c.tasks|
      && r.tasks[r.current].ticksLeft == PREEMPT_TICKS && r.tasks[r.current].state == RUNNING
      && forall t :: 0 <= t < |c.tasks| ==>
        && r.tasks[t].until == c.tasks[t].until && r.tasks[t].waitflag == c.tasks[t].waitflag
        && (t != r.current ==> r.tasks[t] == c.tasks[t])
  {
    var n, r := c.running[0], Dispatch(c);
    OneQueue(c, n);
    assert OnQueueOfState(c, n);
    forall t | 0 <= t < |r.tasks|
      ensures OnQueueOfState(r, t) && StateOk(r, t)
    {
      assert OnQueueOfState(c, t);
    }
    forall i | 0 <= i < |r.flagWaiting|
      ensures HasFlag(r, r.flagWaiting[i])
    {
      assert HasFlag(c, c.flagWaiting[i]);
    }
  }

  /** One call of schedule, seen from one task. */
  lemma ScheduleTask(s: Sched, now: nat, most: nat, x: nat)
    requires SchedOk(s, most) && x < |s.tasks|
    ensures var r := Schedule(s, now);
      && |r.tasks| == |s.tasks| && |r.flags| == |s.flags|
      && r.tasks[x].until == s.tasks[x].until
      && (x in s.running ==> x in r.running)
      && (x in r.timerWaiting <==> x in s.timerWaiting && !Expired(s, x, now))
      && (x in s.timerWaiting && Expired(s, x, now) ==> x in r.running)
      && (x in r.flagWaiting ==> x in s.flagWaiting)
      && (x in s.flagWaiting ==> HasFlag(s, x) && r.flags[s.tasks[x].waitflag.value] == 0)
      && (x in s.flagWaiting && x in r.running ==> s.flags[s.tasks[x].waitflag.value] != 0)
      && (x !in s.flagWaiting || x !in r.running ==> r.tasks[x].waitflag == s.tasks[x].waitflag)
  {
    TimersKeep(s, now, most);
    TimersTask(s, now, most, x);
    var b := TimerPhase(Requeue(s), now);
    FlagsKeep(b, most);
    FlagsTask(b, most, x);
    var c := FlagPhase(b);
    DispatchKeeps(c, most);
    OneQueue(s, x);
    OneQueue(b, x);
    OneQueue(c, x);
  }

  lemma {:induction false} TimerPassTotals(s: Sched, q: seq<nat>, now: nat, x: nat)
    requires x < |s.tasks|
    ensures TimerPass(s, q, now).tasks[x].ticksTotal == s.tasks[x].ticksTotal
  {
    if q != [] {
      TimerPassTotals(s, q[..|q| - 1], now, x);
    }
  }

  lemma {:induction false} FlagPassTotals(s: Sched, q: seq<nat>, x: nat)
    requires x < |s.tasks|
    ensures FlagPass(s, q).tasks[x].ticksTotal == s.tasks[x].ticksTotal
  {
    if q != [] {
      FlagPassTotals(s, q[..|q| - 1], x);
    }
  }

  /** One call of schedule charges the ticks of the slice to the task that leaves, unless that waits. */
  lemma ScheduleTotals(s: Sched, now: nat, x: nat)
    requires s.current < |s.tasks| && x < |s.tasks|
    ensures var r := Schedule(s, now);
      && |r.tasks| == |s.tasks|
      && r.tasks[x].ticksTotal == s.tasks[x].ticksTotal
           + (if x == s.current && s.tasks[x].state != TIMEWAITING && s.tasks[x].state != FLAGWAITING
              then 10 - s.tasks[x].ticksLeft else 0)
  {
    var a := Requeue(s);
    TimerPassTotals(a, a.timerWaiting, now, x);
    var b := TimerPhase(a, now);
    FlagPassTotals(b, b.flagWaiting, x);
  }

  /** One call of schedule, seen from one flag: a flag it clears has woken a waiter of it. */
  lemma ScheduleFlag(s: Sched, now: nat, most: nat, f: nat)
    requires SchedOk(s, most) && f < |s.flags|
    ensures var r := Schedule(s, now);
      && |r.flags| == |s.flags|
      && (r.flags[f] == s.flags[f]
          || (r.flags[f] == 0
              && exists x :: x in s.flagWaiting && FlagOf(s, x, f) && x in r.running))
  {
    TimersKeep(s, now, most);
    var b := TimerPhase(Requeue(s), now);
    FlagsKeep(b, most);
    var c, r := FlagPhase(b), Schedule(s, now);
    DispatchKeeps(c, most);
    if b.isSet != 0 {
      SelfIn(b.flagWaiting);
      FlagPassFlag(b, b.flagWaiting, most, f);
      if r.flags[f] != s.flags[f] {
        var i :| 0 <= i < |b.flagWaiting| && b.tasks[b.flagWaiting[i]].waitflag == Some(f)
                 && b.flagWaiting[i] in c.running;
        var x := b.flagWaiting[i];
        OneQueue(s, x);
        TimersTask(s, now, most, x);
        assert x in s.flagWaiting && FlagOf(s, x, f) && x in r.running;
      }
    }
  }

  /** A task alone in waiting for a set flag is made runnable by the next call of schedule. */
  lemma ScheduleWakes(s: Sched, now: nat, most: nat, x: nat, f: nat)
    requires SchedOk(s, most) && x in s.flagWaiting && FlagOf(s, x, f) && s.flags[f] != 0
    requires forall y :: y in s.flagWaiting && FlagOf(s, y, f) ==> y == x
    ensures x in Schedule(s, now).running
  {
    ScheduleTask(s, now, most, x);
    ScheduleFlag(s, now, most, f);
  }
}
