/** The order in which one call of schedule leaves the three queues. */
module SchedOrder {
  import opened CTypes
  import opened SchedModel

  /** The tasks of a queue whose deadline has passed, in the order of the queue, and the others. */
  function Due(s: Sched, q: seq<nat>, now: nat): seq<nat> {
    if q == [] then []
    else
      var t := q[|q| - 1];
      Due(s, q[..|q| - 1], now) + (if t < |s.tasks| && s.tasks[t].until <= now then [t] else [])
  }

  function NotDue(s: Sched, q: seq<nat>, now: nat): seq<nat> {
    if q == [] then []
    else
      var t := q[|q| - 1];
      NotDue(s, q[..|q| - 1], now) + (if t < |s.tasks| && s.tasks[t].until <= now then [] else [t])
  }

  /** Some task of the queue waits for flag f. */
  predicate Asked(s: Sched, q: seq<nat>, f: nat) {
    q != []
    && (Asked(s, q[..|q| - 1], f)
        || (q[|q| - 1] < |s.tasks| && s.tasks[q[|q| - 1]].waitflag == Some(f)))
  }

  /** The flag of t is set, and no task of p, which are before t, waits for the same one. */
  predicate FirstFor(s: Sched, p: seq<nat>, t: nat) {
    && t < |s.tasks| && s.tasks[t].waitflag.Some?
    && var f := s.tasks[t].waitflag.value;
       f < |s.flags| && s.flags[f] != 0 && !Asked(s, p, f)
  }

  /** The first waiter of each set flag, in the order of the queue, and the others. */
  function Woken(s: Sched, q: seq<nat>): seq<nat> {
    if q == [] then []
    else
      var p, t := q[..|q| - 1], q[|q| - 1];
      Woken(s, p) + (if FirstFor(s, p, t) then [t] else [])
  }

  function Asleep(s: Sched, q: seq<nat>): seq<nat> {
    if q == [] then []
    else
      var p, t := q[..|q| - 1], q[|q| - 1];
      Asleep(s, p) + (if FirstFor(s, p, t) then [] else [t])
  }

  lemma {:induction false} WithoutMid(a: seq<nat>, t: nat, b: seq<nat>)
    requires NoDup(a + ([t] + b))
    ensures Without(a + ([t] + b), t) == a + b
    decreases |b|
  {
    var q := a + ([t] + b);
    if b == [] {
      assert q[..|q| - 1] == a && q[|a|] == t;
      WithoutMembers(a, t);
      assert t !in a by {
        assert forall i :: 0 <= i < |a| ==> q[i] == a[i];
      }
      assert a + b == a;
    } else {
      var b1, x := b[..|b| - 1], b[|b| - 1];
      assert q[..|q| - 1] == a + ([t] + b1) && q[|q| - 1] == x;
      assert q[|a|] == t;
      WithoutMid(a, t, b1);
      assert a + b == a + b1 + [x];
    }
  }

  lemma TimerVisitOrder(m: Sched, t: nat, now: nat, a: seq<nat>, rest: seq<nat>)
    requires QueuesOk(m) && m.timerWaiting == a + ([t] + rest) && t < |m.tasks|
    ensures var r := TimerVisit(m, t, now);
      if m.tasks[t].until <= now then r.running == m.running + [t] && r.timerWaiting == a + rest else r == m
  {
    assert m.timerWaiting[|a|] == t;
    OneQueue(m, t);
    if Expired(m, t, now) {
      RunnableMove(m, t);
      WithoutMid(a, t, rest);
    }
  }

  lemma FrontOf(q: seq<nat>, rest: seq<nat>)
    requires q != []
    ensures q + rest == q[..|q| - 1] + ([q[|q| - 1]] + rest)
  {
    assert q == q[..|q| - 1] + [q[|q| - 1]];
  }

  lemma Shift(a: seq<nat>, t: nat, b: seq<nat>)
    ensures a + ([t] + b) == a + [t] + b && a + [] == a && [] + b == b
  {}

  lemma SumThree(a: seq<nat>, b: seq<nat>, c: seq<nat>)
    ensures a + b + c == a + (b + c)
  {}

  /** The timer loop over the front q of the timer list. */
  lemma {:induction false} TimerPassOrder(s: Sched, q: seq<nat>, rest: seq<nat>, now: nat)
    requires QueuesOk(s) && NoDup(q) && AllIn(q, s.timerWaiting) && InRange(q, |s.tasks|)
    requires s.timerWaiting == q + rest
    ensures TimerPass(s, q, now).running == s.running + Due(s, q, now)
    ensures TimerPass(s, q, now).timerWaiting == NotDue(s, q, now) + rest
    decreases |q|
  {
    hide QueuesOk, TimerVisit;
    if q != [] {
      var p, t := q[..|q| - 1], q[|q| - 1];
      FrontOf(q, rest);
      TimerPassOrder(s, p, [t] + rest, now);
      TimerPassKeeps(s, p, now);
      var m := TimerPass(s, p, now);
      TimerVisitOrder(m, t, now, NotDue(s, p, now), rest);
      Shift(NotDue(s, p, now), t, rest);
      SumThree(s.running, Due(s, p, now), [t]);
      SumThree(s.running, Due(s, p, now), []);
    } else {
      Shift(s.running, 0, rest);
    }
  }

  lemma FlagVisitOrder(m: Sched, t: nat, most: nat, a: seq<nat>, rest: seq<nat>)
    requires QueuesOk(m) && CounterOk(m, most) && HasFlag(m, t) && m.flagWaiting == a + ([t] + rest)
    ensures var r, f := FlagVisit(m, t), m.tasks[t].waitflag.value;
      && r.flags == m.flags[f := 0]
      && if m.flags[f] != 0 then r.running == m.running + [t] && r.flagWaiting == a + rest else r == m
  {
    assert m.flagWaiting[|a|] == t;
    OneQueue(m, t);
    FlagVisitMoves(m, t, most);
    WithoutMid(a, t, rest);
  }

  /** The flag loop over the front q of the flag list. */
  lemma {:induction false} FlagPassOrder(s: Sched, q: seq<nat>, rest: seq<nat>, most: nat)
    requires QueuesOk(s) && NoDup(q) && AllIn(q, s.flagWaiting) && InRange(q, |s.tasks|) && CounterOk(s, most)
    requires forall i :: 0 <= i < |q| ==> HasFlag(s, q[i])
    requires s.flagWaiting == q + rest
    ensures FlagPass(s, q).running == s.running + Woken(s, q)
    ensures FlagPass(s, q).flagWaiting == Asleep(s, q) + rest
    ensures forall f :: 0 <= f < |s.flags| ==>
      (FlagPass(s, q).flags[f] != 0 <==> s.flags[f] != 0 && !Asked(s, q, f))
    decreases |q|
  {
    hide QueuesOk, FlagVisit, CounterOk;
    if q != [] {
      var p, t := q[..|q| - 1], q[|q| - 1];
      FrontOf(q, rest);
      FlagPassOrder(s, p, [t] + rest, most);
      FlagPassKeeps(s, p, most);
      var m := FlagPass(s, p);
      assert HasFlag(s, q[|p|]) && t !in p;
      assert m.tasks[t] == s.tasks[t];
      FlagVisitOrder(m, t, most, Asleep(s, p), rest);
      Shift(Asleep(s, p), t, rest);
      SumThree(s.running, Woken(s, p), [t]);
      SumThree(s.running, Woken(s, p), []);
    } else {
      Shift(s.running, 0, rest);
    }
  }

  lemma {:induction false} SameDue(s: Sched, r: Sched, q: seq<nat>, now: nat)
    requires |r.tasks| == |s.tasks| && forall t :: 0 <= t < |s.tasks| ==> r.tasks[t].until == s.tasks[t].until
    ensures Due(r, q, now) == Due(s, q, now) && NotDue(r, q, now) == NotDue(s, q, now)
  {
    if q != [] {
      SameDue(s, r, q[..|q| - 1], now);
    }
  }

  ghost predicate SameFlags(s: Sched, r: Sched) {
    && |r.tasks| == |s.tasks| && r.flags == s.flags
    && forall t :: 0 <= t < |s.tasks| ==> r.tasks[t].waitflag == s.tasks[t].waitflag
  }

  lemma {:induction false} SameAsked(s: Sched, r: Sched, q: seq<nat>, f: nat)
    requires SameFlags(s, r)
    ensures Asked(r, q, f) == Asked(s, q, f)
  {
    if q != [] {
      SameAsked(s, r, q[..|q| - 1], f);
    }
  }

  lemma {:induction false} SameWoken(s: Sched, r: Sched, q: seq<nat>)
    requires SameFlags(s, r)
    ensures Woken(r, q) == Woken(s, q) && Asleep(r, q) == Asleep(s, q)
  {
    if q != [] {
      var p, t := q[..|q| - 1], q[|q| - 1];
      SameWoken(s, r, p);
      if t < |s.tasks| && s.tasks[t].waitflag.Some? {
        SameAsked(s, r, p, s.tasks[t].waitflag.value);
      }
    }
  }

  lemma {:induction false} NobodyWoken(s: Sched, q: seq<nat>)
    requires forall f :: 0 <= f < |s.flags| ==> s.flags[f] == 0
    ensures Woken(s, q) == [] && Asleep(s, q) == q
  {
    if q != [] {
      NobodyWoken(s, q[..|q| - 1]);
      assert q == q[..|q| - 1] + [q[|q| - 1]];
    }
  }

  lemma FlagPhaseOrder(b: Sched, most: nat)
    requires MidOk(b, most)
    ensures FlagPhase(b).running == b.running + Woken(b, b.flagWaiting)
    ensures FlagPhase(b).flagWaiting == Asleep(b, b.flagWaiting)
  {
    SelfIn(b.flagWaiting);
    assert b.flagWaiting == b.flagWaiting + [];
    if b.isSet != 0 {
      FlagPassOrder(b, b.flagWaiting, [], most);
    } else {
      SetCountAtLeast(b.flags);
      NobodyWoken(b, b.flagWaiting);
    }
  }

  lemma TimerPhaseOrder(s: Sched, now: nat, most: nat)
    requires SchedOk(s, most)
    ensures var b := TimerPhase(Requeue(s), now);
      && b.running == Requeue(s).running + Due(s, s.timerWaiting, now)
      && b.timerWaiting == NotDue(s, s.timerWaiting, now)
  {
    var a := Requeue(s);
    RequeueKeeps(s, most);
    SelfIn(a.timerWaiting);
    assert a.timerWaiting == a.timerWaiting + [];
    TimerPassOrder(a, a.timerWaiting, [], now);
    SameDue(s, a, s.timerWaiting, now);
  }

  /** One call of schedule, queue by queue: behind the tasks that were ready come the current task, if it can
      still run, then the tasks whose deadline has passed, in the order in which they were queued, then the
      first waiter of each set flag, in that order; the others stay queued in their order. */
  lemma ScheduleOrder(s: Sched, now: nat, most: nat)
    requires SchedOk(s, most)
    ensures var r, c := Schedule(s, now), s.current;
      && r.running == (if c in s.running then Without(s.running, c) + [c] else s.running)
                      + Due(s, s.timerWaiting, now) + Woken(s, s.flagWaiting)
      && r.timerWaiting == NotDue(s, s.timerWaiting, now)
      && r.flagWaiting == Asleep(s, s.flagWaiting)
  {
    var b := TimerPhase(Requeue(s), now);
    RequeueKeeps(s, most);
    TimersKeep(s, now, most);
    TimerPhaseOrder(s, now, most);
    FlagsKeep(b, most);
    FlagPhaseOrder(b, most);
    forall t | 0 <= t < |s.tasks|
      ensures b.tasks[t].waitflag == s.tasks[t].waitflag
    {
      TimersTask(s, now, most, t);
    }
    SameWoken(s, b, s.flagWaiting);
  }
}
