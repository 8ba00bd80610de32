/** sched.c on linked lists: every function relinks task nodes in place, and does to the three
    queues exactly what its counterpart in SchedModel says. */
module Scheduling {
  import opened CTypes
  import opened Lists
  import opened SchedModel
  import opened SchedSystem

  class Task {
    const pid: nat
    const schedlist: ListHead
    var taskState: TaskState
    var ticksLeft: int
    var ticksTotal: int
    var timerWaitUntil: nat
    var waitflag: Option<nat>

    /** task_create, which also links the node to itself. */
    constructor (pid: nat)
      ensures this.pid == pid && schedlist.owner == pid && fresh(schedlist) && Ring([schedlist])
      ensures View() == SchedModel.Task(STOPPED, PREEMPT_TICKS, 0, 0, None)
    {
      this.pid := pid;
      schedlist := new ListHead(pid);
      taskState := STOPPED;
      ticksLeft := PREEMPT_TICKS;
      ticksTotal := 0;
      timerWaitUntil := 0;
      waitflag := None;
    }

    function View(): SchedModel.Task
      reads this
    {
      SchedModel.Task(taskState, ticksLeft, ticksTotal, timerWaitUntil, waitflag)
    }
  }

  /** The three queues by number: 0 is running, 1 is timer_waiting, 2 is flag_waiting. */
  function Queue(s: Sched, k: nat): seq<nat> {
    if k == 0 then s.running else if k == 1 then s.timerWaiting else s.flagWaiting
  }

  /** c lists the head and then the nodes of the tasks on q, all of which stand on queue k. */
  ghost predicate IsCircle(c: seq<ListHead>, ts: seq<Task>, q: seq<nat>, place: seq<nat>, k: nat) {
    && |c| == |q| + 1 && c[0].owner == -1 - k && |place| == |ts|
    && forall i :: 0 <= i < |q| ==>
         q[i] < |ts| && c[i + 1] == ts[q[i]].schedlist && place[q[i]] == k
  }

  ghost predicate OwnNodes(ts: seq<Task>) {
    forall t {:trigger ts[t].schedlist} {:trigger ts[t].pid} ::
      0 <= t < |ts| ==> ts[t].pid == t && ts[t].schedlist.owner == t
  }

  function IndexOf(q: seq<nat>, t: nat): (i: nat)
    requires t in q
    ensures i < |q| && q[i] == t
  {
    if q[0] == t then 0 else 1 + IndexOf(q[1..], t)
  }

  lemma {:induction false} WithoutAt(q: seq<nat>, i: nat)
    requires NoDup(q) && i < |q|
    ensures Without(q, q[i]) == q[..i] + q[i + 1..]
  {
    var p, t := q[..|q| - 1], q[i];
    if i == |q| - 1 {
      WithoutMembers(p, t);
    } else {
      WithoutAt(p, i);
      assert q[i + 1..] == p[i + 1..] + [q[|q| - 1]];
    }
  }

  /** Distinct nodes mean distinct tasks. */
  lemma CircleNoDup(c: seq<ListHead>, ts: seq<Task>, q: seq<nat>, place: seq<nat>, k: nat)
    requires OwnNodes(ts) && IsCircle(c, ts, q, place, k) && Distinct(c)
    ensures NoDup(q)
  {
    forall i, j | 0 <= i < j < |q|
      ensures q[i] != q[j]
    {
      assert c[i + 1] != c[j + 1];
    }
  }

  /** Taking a task's node out of a circle gives the circle of the queue without the task. */
  lemma DropCircle(c: seq<ListHead>, ts: seq<Task>, q: seq<nat>, place: seq<nat>, k: nat, i: nat)
    requires OwnNodes(ts) && IsCircle(c, ts, q, place, k) && Distinct(c) && i < |q|
    ensures IsCircle(Drop(c, i + 1), ts, Without(q, q[i]), place[q[i] := 3], k)
  {
    CircleNoDup(c, ts, q, place, k);
    WithoutAt(q, i);
    hide Without, Distinct;
    var w, d := Without(q, q[i]), Drop(c, i + 1);
    forall j | 0 <= j < |w|
      ensures w[j] < |ts| && d[j + 1] == ts[w[j]].schedlist && place[q[i] := 3][w[j]] == k
    {
      var m := if j < i then j else j + 1;
      assert w[j] == q[m] && d[j + 1] == c[m + 1] && q[m] != q[i];
    }
  }

  /** The circles of two different queues share no node. */
  lemma CirclesApart(ts: seq<Task>, place: seq<nat>, c: seq<ListHead>, q1: seq<nat>, k1: nat,
                     d: seq<ListHead>, q2: seq<nat>, k2: nat)
    requires OwnNodes(ts) && k1 != k2
    requires IsCircle(c, ts, q1, place, k1) && IsCircle(d, ts, q2, place, k2)
    ensures ApartFrom(c, d)
  {
    forall i, j | 0 <= i < |c| && 0 <= j < |d|
      ensures c[i] != d[j]
    {
      CircleOwner(c, ts, q1, place, k1, i);
      CircleOwner(d, ts, q2, place, k2, j);
    }
  }

  lemma CircleOwner(c: seq<ListHead>, ts: seq<Task>, q: seq<nat>, place: seq<nat>, k: nat, i: nat)
    requires OwnNodes(ts) && IsCircle(c, ts, q, place, k) && i < |c|
    ensures var o := c[i].owner;
      (o < 0 && o == -1 - k) || (0 <= o < |ts| && place[o] == k && o == q[i - 1])
  {
    if i > 0 {
      assert c[i] == ts[q[i - 1]].schedlist;
    }
  }

  /** Circle k belongs to queue k of s, and `place` says which queue each task is on (3 for
      none). */
  ghost predicate Matches(cs: seq<seq<ListHead>>, s: Sched, ts: seq<Task>, place: seq<nat>) {
    && |cs| == 3 && |s.tasks| == |ts| == |place| && OwnNodes(ts)
    && (forall k {:trigger IsCircle(cs[k], ts, Queue(s, k), place, k)} ::
          0 <= k < 3 ==> IsCircle(cs[k], ts, Queue(s, k), place, k))
    && forall t :: 0 <= t < |ts| ==> Placed(s, place, t)
  }

  predicate Placed(s: Sched, place: seq<nat>, t: nat)
    requires t < |place|
  {
    place[t] == 3 || (place[t] < 3 && t in Queue(s, place[t]))
  }

  /** A task on a queue has its place. */
  lemma PlaceIs(cs: seq<seq<ListHead>>, s: Sched, ts: seq<Task>, place: seq<nat>, t: nat)
    requires Matches(cs, s, ts, place) && t < |ts|
    ensures t in s.running ==> place[t] == 0
    ensures t in s.timerWaiting ==> place[t] == 1
    ensures t in s.flagWaiting ==> place[t] == 2
  {
    CircleOf(cs, s, ts, place, 0);
    CircleOf(cs, s, ts, place, 1);
    CircleOf(cs, s, ts, place, 2);
  }

  lemma EmptyMatches(cs: seq<seq<ListHead>>, s: Sched, ts: seq<Task>, place: seq<nat>)
    requires |cs| == 3 && |cs[0]| == |cs[1]| == |cs[2]| == 1
    requires cs[0][0].owner == -1 && cs[1][0].owner == -2 && cs[2][0].owner == -3
    requires s.running == s.timerWaiting == s.flagWaiting == [] && |s.tasks| == |ts| == 1
    requires OwnNodes(ts) && place == [3]
    ensures Matches(cs, s, ts, place)
  {
    assert Placed(s, place, 0);
  }

  /** A new task, on no queue, changes none of them. */
  lemma MatchesGrow(cs: seq<seq<ListHead>>, s: Sched, r: Sched, ts: seq<Task>, place: seq<nat>, t: Task)
    requires Matches(cs, s, ts, place) && t.pid == |ts| && t.schedlist.owner == |ts|
    requires |r.tasks| == |s.tasks| + 1
    requires r.running == s.running && r.timerWaiting == s.timerWaiting && r.flagWaiting == s.flagWaiting
    ensures Matches(cs, r, ts + [t], place + [3])
  {
    var us, p := ts + [t], place + [3];
    forall k | 0 <= k < 3
      ensures IsCircle(cs[k], us, Queue(r, k), p, k)
    {
      CircleOf(cs, s, ts, place, k);
    }
    forall x | 0 <= x < |us|
      ensures Placed(r, p, x)
    {
      if x < |ts| {
        assert Placed(s, place, x);
      }
    }
  }

  /** The lists only depend on the queues. */
  lemma SameQueues(cs: seq<seq<ListHead>>, s: Sched, r: Sched, ts: seq<Task>, place: seq<nat>)
    requires Matches(cs, s, ts, place) && |r.tasks| == |s.tasks|
    requires r.running == s.running && r.timerWaiting == s.timerWaiting && r.flagWaiting == s.flagWaiting
    ensures Matches(cs, r, ts, place)
  {
    forall k | 0 <= k < 3
      ensures IsCircle(cs[k], ts, Queue(r, k), place, k)
    {
      CircleOf(cs, s, ts, place, k);
    }
    forall t | 0 <= t < |ts|
      ensures Placed(r, place, t)
    {
      assert Placed(s, place, t);
    }
  }

  lemma MatchesApart(cs: seq<seq<ListHead>>, s: Sched, ts: seq<Task>, place: seq<nat>)
    requires Matches(cs, s, ts, place)
    ensures MutuallyApart(cs)
  {
    forall k, m | 0 <= k < 3 && 0 <= m < 3 && k != m
      ensures ApartFrom(cs[k], cs[m])
    {
      CirclesApart(ts, place, cs[k], Queue(s, k), k, cs[m], Queue(s, m), m);
    }
  }

  /** The position of a task's node on its circle; the head is at 0. */
  function Position(s: Sched, place: seq<nat>, t: nat): (i: nat)
    requires t < |place| && Placed(s, place, t)
    ensures place[t] < 3 ==> 0 < i <= |Queue(s, place[t])| && Queue(s, place[t])[i - 1] == t
  {
    if place[t] < 3 then IndexOf(Queue(s, place[t]), t) + 1 else 0
  }

  lemma CircleOf(cs: seq<seq<ListHead>>, s: Sched, ts: seq<Task>, place: seq<nat>, k: nat)
    requires Matches(cs, s, ts, place)
    ensures k < 3 ==> IsCircle(cs[k], ts, Queue(s, k), place, k)
  {
  }

  lemma NodeStands(cs: seq<seq<ListHead>>, s: Sched, ts: seq<Task>, place: seq<nat>, t: nat)
    requires Matches(cs, s, ts, place) && t < |ts| && Placed(s, place, t)
    ensures StandsAt(ts[t].schedlist, cs, place[t], Position(s, place, t))
  {
    CircleOf(cs, s, ts, place, place[t]);
    forall m, i | 0 <= m < 3 && m != place[t] && 0 <= i < |cs[m]|
      ensures cs[m][i] != ts[t].schedlist
    {
      CircleOwner(cs[m], ts, Queue(s, m), place, m, i);
    }
  }

  /** One circle, when task t leaves its queue. */
  lemma CircleAfter(c: seq<ListHead>, s: Sched, ts: seq<Task>, place: seq<nat>, t: nat, m: nat, i: nat)
    requires OwnNodes(ts) && t < |place| == |ts| && m < 3
    requires IsCircle(c, ts, Queue(s, m), place, m)
    requires place[t] == m ==> Distinct(c) && 0 < i < |c| && Queue(s, m)[i - 1] == t
    ensures IsCircle(if place[t] == m then Drop(c, i) else c,
                     ts, Without(Queue(s, m), t), place[t := 3], m)
  {
    if place[t] == m {
      DropCircle(c, ts, Queue(s, m), place, m, i - 1);
    } else {
      WithoutMembers(Queue(s, m), t);
    }
  }

  /** Queue k of r is queue k of s with task t moved to the end of queue dst. */
  predicate MovesTo(s: Sched, r: Sched, t: nat, dst: nat) {
    && |r.tasks| == |s.tasks|
    && forall m :: 0 <= m < 3 ==>
         Queue(r, m) == (if m == dst then Without(Queue(s, m), t) + [t] else Without(Queue(s, m), t))
  }

  /** Moving the node moves the task: the circles after MoveTail belong to the new queues. */
  lemma MatchesMove(cs: seq<seq<ListHead>>, s: Sched, r: Sched, ts: seq<Task>, place: seq<nat>,
                    t: nat, dst: nat)
    requires Matches(cs, s, ts, place) && t < |ts| && dst < 3 && Placed(s, place, t)
    requires place[t] < 3 ==> Distinct(cs[place[t]])
    requires MovesTo(s, r, t, dst)
    ensures var i := Position(s, place, t);
      && (place[t] < 3 ==> i < |cs[place[t]]|)
      && |cs| == 3
      && Matches(Added(Removed(cs, place[t], i), ts[t].schedlist, dst), r, ts, place[t := dst])
  {
    var i, p := Position(s, place, t), place[t := dst];
    CircleOf(cs, s, ts, place, place[t]);
    var ds := Added(Removed(cs, place[t], i), ts[t].schedlist, dst);
    forall m | 0 <= m < 3
      ensures IsCircle(ds[m], ts, Queue(r, m), p, m)
    {
      CircleOf(cs, s, ts, place, m);
      CircleAfter(cs[m], s, ts, place, t, m, i);
      GrownCircle(Removed(cs, place[t], i)[m], ts, Without(Queue(s, m), t), place[t := 3], m, t, dst);
      assert place[t := 3][t := dst] == p;
    }
    forall x | 0 <= x < |ts|
      ensures Placed(r, p, x)
    {
      assert Placed(s, place, x);
      if x != t && place[x] < 3 {
        WithoutMembers(Queue(s, place[x]), t);
      }
    }
  }

  lemma GrownCircle(c: seq<ListHead>, ts: seq<Task>, q: seq<nat>, place: seq<nat>, m: nat, t: nat, dst: nat)
    requires IsCircle(c, ts, q, place, m) && t < |ts| && place[t] == 3 && m < 3
    ensures IsCircle(if m == dst then c + [ts[t].schedlist] else c,
                     ts, if m == dst then q + [t] else q, place[t := dst], m)
  {
  }

  /** The circles keep their heads. */
  lemma HeadsStay(cs: seq<seq<ListHead>>, k: nat, i: nat, node: ListHead, dst: nat)
    requires |cs| == 3 && dst < 3 && (k < 3 ==> 0 < i < |cs[k]|)
    requires forall m :: 0 <= m < 3 ==> cs[m] != []
    ensures forall m :: 0 <= m < 3 ==>
      Added(Removed(cs, k, i), node, dst)[m] != []
      && Added(Removed(cs, k, i), node, dst)[m][0] == cs[m][0]
  {
  }

  /** r is s with task t at the end of queue dst and in state st. */
  predicate Relinks(s: Sched, r: Sched, t: nat, st: TaskState, dst: nat) {
    && t < |s.tasks| && MovesTo(s, r, t, dst)
    && r.tasks == s.tasks[t := s.tasks[t].(state := st)]
    && r.flags == s.flags && r.isSet == s.isSet && r.current == s.current
  }

  lemma RingsDistinct(cs: seq<seq<ListHead>>, nodes: set<ListHead>)
    requires RingsIn(cs, nodes)
    ensures forall m :: 0 <= m < |cs| ==> Distinct(cs[m])
  {
    forall m | 0 <= m < |cs|
      ensures Distinct(cs[m])
    {
      assert Ring(cs[m]);
    }
  }

  /** The circles after task t has moved to the end of queue dst. */
  ghost function MovedCircles(cs: seq<seq<ListHead>>, s: Sched, ts: seq<Task>, place: seq<nat>,
                              t: nat, dst: nat): seq<seq<ListHead>>
    requires Matches(cs, s, ts, place) && t < |ts| && dst < 3
  {
    assert Placed(s, place, t);
    var i := Position(s, place, t);
    assert place[t] < 3 ==> IsCircle(cs[place[t]], ts, Queue(s, place[t]), place, place[t]);
    Added(Removed(cs, place[t], i), ts[t].schedlist, dst)
  }

  lemma MovedMatches(cs: seq<seq<ListHead>>, s: Sched, r: Sched, ts: seq<Task>, place: seq<nat>,
                     t: nat, dst: nat)
    requires Matches(cs, s, ts, place) && t < |ts| && dst < 3 && MovesTo(s, r, t, dst)
    requires forall m :: 0 <= m < 3 ==> Distinct(cs[m])
    ensures var ds := MovedCircles(cs, s, ts, place, t, dst);
      && Matches(ds, r, ts, place[t := dst])
      && forall m :: 0 <= m < 3 ==> cs[m] != [] && ds[m] != [] && ds[m][0] == cs[m][0]
  {
    assert Placed(s, place, t);
    MatchesMove(cs, s, r, ts, place, t, dst);
    assert place[t] < 3 ==> IsCircle(cs[place[t]], ts, Queue(s, place[t]), place, place[t]);
    assert forall m :: 0 <= m < 3 ==> IsCircle(cs[m], ts, Queue(s, m), place, m);
    HeadsStay(cs, place[t], Position(s, place, t), ts[t].schedlist, dst);
  }

  /** list_del_init and list_add_tail of the node of task t. */
  method MoveNode(ts: seq<Task>, t: nat, head: ListHead, ghost dst: nat, ghost nodes: set<ListHead>,
                  ghost cs: seq<seq<ListHead>>, ghost s: Sched, ghost place: seq<nat>)
    requires Matches(cs, s, ts, place) && RingsIn(cs, nodes)
    requires t < |ts| && ts[t].schedlist in nodes && (place[t] == 3 ==> Ring([ts[t].schedlist]))
    requires dst < 3 && cs[dst] != [] && cs[dst][0] == head
    modifies nodes
    ensures RingsIn(MovedCircles(cs, s, ts, place, t, dst), nodes)
  {
    assert Placed(s, place, t);
    NodeStands(cs, s, ts, place, t);
    MatchesApart(cs, s, ts, place);
    MoveTail(ts[t].schedlist, head, cs, place[t], Position(s, place, t), dst, nodes);
  }

  lemma RingNext(cs: seq<seq<ListHead>>, nodes: set<ListHead>, m: nat, j: nat)
    requires RingsIn(cs, nodes) && m < |cs| && j < |cs[m]|
    ensures Distinct(cs[m]) && cs[m][j].next == NextOn(cs[m], j) && cs[m][0].next == NextOn(cs[m], 0)
  {
    assert Ring(cs[m]);
    assert cs[m][j].next == cs[m][j].next && cs[m][0].next == cs[m][0].next;
  }

  lemma RestRange(p: seq<nat>, q: seq<nat>, n: nat)
    requires forall i :: 0 <= i < |p + q| ==> (p + q)[i] < n
    ensures InRange(q, n)
  {
    forall i | 0 <= i < |q|
      ensures q[i] < n
    {
      assert (p + q)[|p| + i] == q[i];
    }
  }

  class Scheduler {
    const running: ListHead
    const timerWaiting: ListHead
    const flagWaiting: ListHead
    /** The memory cells that tasks wait on. */
    const flags: array<nat>
    var tasks: seq<Task>
    var waitflagIsSet: nat
    var current: Task
    /** The abstract state; the circle of each queue and the queue of each task; every node. */
    ghost var abs: Sched
    ghost var circles: seq<seq<ListHead>>
    ghost var place: seq<nat>
    ghost var nodes: set<ListHead>

    /** A scheduler around three empty lists and the idle task, which is not queued yet. */
    constructor (running: ListHead, timerWaiting: ListHead, flagWaiting: ListHead, idle: Task,
                 flags: array<nat>)
      requires running.owner == -1 && timerWaiting.owner == -2 && flagWaiting.owner == -3
      requires Ring([running]) && Ring([timerWaiting]) && Ring([flagWaiting])
      requires idle.pid == 0 && idle.schedlist.owner == 0 && idle.View() == NewTask()
      requires Ring([idle.schedlist])
      ensures Valid() && tasks == [idle] && place == [3] && this.flags == flags
      ensures Ring([idle.schedlist])
      ensures nodes == {running, timerWaiting, flagWaiting, idle.schedlist}
      ensures abs == Sched([NewTask()], [], [], [], flags[..], 0, IDLE)
    {
      this.running := running;
      this.timerWaiting := timerWaiting;
      this.flagWaiting := flagWaiting;
      this.flags := flags;
      waitflagIsSet := 0;
      tasks := [idle];
      current := idle;
      abs := Sched([NewTask()], [], [], [], flags[..], 0, IDLE);
      circles := [[running], [timerWaiting], [flagWaiting]];
      place := [3];
      nodes := {running, timerWaiting, flagWaiting, idle.schedlist};
      new;
      assert Ring(circles[0]) && Ring(circles[1]) && Ring(circles[2]);
      EmptyMatches(circles, abs, tasks, place);
    }

    /** The abstract state mirrors the fields. */
    ghost predicate Mirror()
      reads this, tasks, flags
    {
      && |abs.tasks| == |tasks|
      && (forall t :: 0 <= t < |tasks| ==> abs.tasks[t] == tasks[t].View())
      && abs.flags == flags[..] && abs.isSet == waitflagIsSet
      && abs.current < |tasks| && tasks[abs.current] == current
    }

    /** The lists hold the queues of s. */
    ghost predicate Linked(s: Sched)
      reads this, nodes
    {
      && Matches(circles, s, tasks, place)
      && circles[0] != [] && circles[1] != [] && circles[2] != []
      && circles[0][0] == running && circles[1][0] == timerWaiting && circles[2][0] == flagWaiting
      && (forall t :: 0 <= t < |tasks| ==> tasks[t].schedlist in nodes)
      && RingsIn(circles, nodes)
    }

    ghost predicate Valid()
      reads this, tasks, flags, nodes
    {
      Mirror() && Linked(abs)
    }

    /** The task records. */
    ghost function Records(): set<object>
      reads this
    {
      set t | t in tasks
    }

    ghost predicate Owns(t: Task)
      reads this
    {
      t.pid < |tasks| && tasks[t.pid] == t
    }

    /** list_del_init and list_add_tail of a task's node. */
    method MoveTask(t: Task, head: ListHead, ghost dst: nat, ghost r: Sched)
      requires Linked(abs) && Owns(t) && dst < 3 && head == circles[dst][0]
      requires place[t.pid] == 3 ==> Ring([t.schedlist])
      requires MovesTo(abs, r, t.pid, dst)
      modifies `circles, `place, nodes
      ensures Linked(r) && place == old(place)[t.pid := dst]
    {
      ghost var cs, pl := circles, place;
      RingsDistinct(cs, nodes);
      MovedMatches(cs, abs, r, tasks, pl, t.pid, dst);
      circles := MovedCircles(cs, abs, tasks, pl, t.pid, dst);
      place := pl[t.pid := dst];
      MoveNode(tasks, t.pid, head, dst, nodes, cs, abs, pl);
    }

    /** The common body of the three sched_queue_*_noirq functions: list_del_init and
        list_add_tail of the task's node, then its new state. */
    method Relink(t: Task, head: ListHead, st: TaskState, ghost dst: nat, ghost r: Sched)
      requires Valid() && Owns(t) && dst < 3 && head == circles[dst][0]
      requires place[t.pid] == 3 ==> Ring([t.schedlist])
      requires Relinks(abs, r, t.pid, st, dst)
      modifies `abs, `circles, `place, t`taskState, nodes
      ensures Valid() && abs == r && place == old(place)[t.pid := dst]
    {
      MoveTask(t, head, dst, r);
      SetState(t, st, r);
    }

    /** The store to task_state that ends each of the queueing functions. */
    method SetState(t: Task, st: TaskState, ghost r: Sched)
      requires Mirror() && Linked(r) && Owns(t) && |r.tasks| == |abs.tasks|
      requires r.tasks == abs.tasks[t.pid := abs.tasks[t.pid].(state := st)]
      requires r.flags == abs.flags && r.isSet == abs.isSet && r.current == abs.current
      modifies `abs, t`taskState
      ensures Mirror() && Linked(r) && abs == r
    {
      t.taskState := st;
      abs := r;
    }

    /** sched_queue_runnable_task_noirq. */
    method QueueRunnable(t: Task)
      requires Valid() && Owns(t) && (place[t.pid] == 3 ==> Ring([t.schedlist]))
      modifies `abs, `circles, `place, t`taskState, nodes
      ensures Valid() && place == old(place)[t.pid := 0]
      ensures abs == SchedModel.QueueRunnable(old(abs), t.pid)
    {
      ghost var r := SchedModel.QueueRunnable(abs, t.pid);
      Relink(t, running, SCHEDULED, 0, r);
    }

    /** sched_queue_timewait_task_noirq. */
    method QueueTimewait(t: Task)
      requires Valid() && Owns(t) && place[t.pid] < 3
      modifies `abs, `circles, `place, t`taskState, nodes
      ensures Valid() && place == old(place)[t.pid := 1]
      ensures abs == SchedModel.QueueTimewait(old(abs), t.pid)
    {
      ghost var r := SchedModel.QueueTimewait(abs, t.pid);
      Relink(t, timerWaiting, TIMEWAITING, 1, r);
    }

    /** sched_queue_flagwait_task_noirq. */
    method QueueFlagwait(t: Task)
      requires Valid() && Owns(t) && place[t.pid] < 3
      modifies `abs, `circles, `place, t`taskState, nodes
      ensures Valid() && place == old(place)[t.pid := 2]
      ensures abs == SchedModel.QueueFlagwait(old(abs), t.pid)
    {
      ghost var r := SchedModel.QueueFlagwait(abs, t.pid);
      Relink(t, flagWaiting, FLAGWAITING, 2, r);
    }
 
    /** The node a list walk stands on when `rest` is what it has still to visit. */
    ghost function Cursor(rest: seq<nat>, head: ListHead): ListHead
      reads this
    {
      if rest != [] && rest[0] < |tasks| then tasks[rest[0]].schedlist else head
    }

    /** The link that a walk follows from the first task of `rest`. */
    ghost predicate Onward(rest: seq<nat>, head: ListHead)
      reads this, Cursor(rest, head)
    {
      Cursor(rest, head).next != null
      && (rest != [] ==>
        && rest[0] < |tasks| && Cursor(rest, head) != head
        && Cursor(rest, head).next == Cursor(rest[1..], head))
    }

    /** What the links say: a walk along queue m goes from each task's node to the next one and
        ends at the head. */
    lemma Follow(m: nat, head: ListHead, kept: seq<nat>, rest: seq<nat>)
      requires Linked(abs) && m < 3 && Queue(abs, m) == kept + rest
      requires circles[m] != [] && circles[m][0] == head
      ensures NoDup(kept + rest) && head.owner == -1 - m && head.next != null
      ensures kept == [] ==> head.next == Cursor(rest, head)
      ensures Onward(rest, head)
      ensures rest != [] ==> place[rest[0]] == m && Cursor(rest, head).owner == rest[0]
    {
      var c, q := circles[m], Queue(abs, m);
      CircleOf(circles, abs, tasks, place, m);
      RingNext(circles, nodes, m, |kept|);
      CircleNoDup(c, tasks, q, place, m);
      RestRange(kept, rest, |tasks|);
      if rest != [] {
        RingNext(circles, nodes, m, |kept| + 1);
        assert c[|kept| + 1] == tasks[q[|kept|]].schedlist && q[|kept|] == rest[0];
        assert |rest| > 1 ==> c[|kept| + 2] == tasks[q[|kept| + 1]].schedlist && q[|kept| + 1] == rest[1];
      }
    }

    /** A task whose state names a queue is on it. */
    lemma PlaceOf(t: nat)
      requires Linked(abs) && QueuesOk(abs) && t < |abs.tasks| && abs.tasks[t].state != STOPPED
      ensures place[t] < 3
    {
      assert OnQueueOfState(abs, t);
      PlaceIs(circles, abs, tasks, place, t);
    }

    /** One pass of the loop body at lines 313-316; `kept` and `rest` are the timer waiters
        already passed over and still to visit, from this one on. */
    method TimerVisitNode(pos: ListHead, now: nat, ghost kept: seq<nat>, ghost rest: seq<nat>)
      returns (ghost kept': seq<nat>)
      requires Valid() && abs.timerWaiting == kept + rest
      requires pos == Cursor(rest, timerWaiting) && rest != []
      modifies `abs, `circles, `place, tasks`taskState, nodes
      ensures Valid() && abs == TimerVisit(old(abs), rest[0], now)
      ensures abs.timerWaiting == kept' + rest[1..] && Onward(rest[1..], timerWaiting)
    {
      Follow(1, timerWaiting, kept, rest);
      Shift(kept, rest);
      var t := tasks[pos.owner];
      kept' := kept + [t.pid];
      if t.timerWaitUntil <= now {
        WithoutMiddle(kept, t.pid, rest[1..]);
        QueueRunnable(t);
        kept' := kept;
      }
      Follow(1, timerWaiting, kept', rest[1..]);
    }

    /** schedule_handle_timer_waiting. */
    method HandleTimerWaiting(now: nat)
      requires Valid()
      modifies `abs, `circles, `place, tasks`taskState, nodes
      ensures Valid() && abs == TimerPhase(old(abs), now)
    {
      ghost var s, visited, kept: seq<nat>, rest := abs, [], [], abs.timerWaiting;
      assert kept + rest == rest;
      Follow(1, timerWaiting, kept, rest);
      var pos: ListHead := timerWaiting.next;
      var tmp: ListHead := pos.next;
      while pos != timerWaiting
        invariant Valid() && visited + rest == s.timerWaiting
        invariant abs == TimerPass(s, visited, now) && abs.timerWaiting == kept + rest
        invariant pos == Cursor(rest, timerWaiting) && (rest != [] ==> tmp == Cursor(rest[1..], timerWaiting))
        invariant Onward(rest, timerWaiting)
        decreases |rest|
      {
        Shift(visited, rest);
        TimerPassNext(s, visited, rest[0], now);
        kept := TimerVisitNode(pos, now, kept, rest);
        visited, rest := visited + [rest[0]], rest[1..];
        pos := tmp;
        tmp := tmp.next;
      }
      assert visited == s.timerWaiting;
    }

    /** One pass of the loop body at lines 342-349. A task without a flag would be the BUG of
        line 342. */
    method FlagVisitNode(pos: ListHead, ghost kept: seq<nat>, ghost rest: seq<nat>)
      returns (ghost kept': seq<nat>)
      requires Valid() && abs.flagWaiting == kept + rest
      requires pos == Cursor(rest, flagWaiting) && rest != [] && HasFlag(abs, rest[0])
      modifies `abs, `circles, `place, `waitflagIsSet, tasks`taskState, tasks`waitflag, nodes, flags
      ensures Valid() && abs == FlagVisit(old(abs), rest[0])
      ensures abs.flagWaiting == kept' + rest[1..] && Onward(rest[1..], flagWaiting)
    {
      Follow(2, flagWaiting, kept, rest);
      Shift(kept, rest);
      var t := tasks[pos.owner];
      if t.waitflag == None {
        assert false;
      }
      kept' := kept + [t.pid];
      if flags[t.waitflag.value] != 0 {
        ClearFlag(t);
        WithoutMiddle(kept, t.pid, rest[1..]);
        QueueRunnable(t);
        DecrementCounter();
        kept' := kept;
      }
      Follow(2, flagWaiting, kept', rest[1..]);
    }

    /** Lines 345-346: the flag is cleared and the task forgets it. */
    method ClearFlag(t: Task)
      requires Valid() && Owns(t) && HasFlag(abs, t.pid)
      modifies `abs, t`waitflag, flags
      ensures Valid()
      ensures abs == old(abs).(flags := old(abs).flags[old(t.waitflag.value) := 0],
                               tasks := old(abs).tasks[t.pid := old(abs).tasks[t.pid].(waitflag := None)])
      ensures old(t.waitflag) == old(abs).tasks[t.pid].waitflag
    {
      flags[t.waitflag.value] := 0;
      ghost var r := abs.(flags := abs.flags[t.waitflag.value := 0],
                          tasks := abs.tasks[t.pid := abs.tasks[t.pid].(waitflag := None)]);
      SameQueues(circles, abs, r, tasks, place);
      t.waitflag := None;
      abs := r;
    }

    /** atomic_dec(&s->waitflag_is_set). */
    method DecrementCounter()
      requires Valid()
      modifies `abs, `waitflagIsSet
      ensures Valid() && abs == old(abs).(isSet := Dec(old(abs).isSet))
    {
      waitflagIsSet := Dec(waitflagIsSet);
      ghost var r := abs.(isSet := waitflagIsSet);
      SameQueues(circles, abs, r, tasks, place);
      abs := r;
    }

    /** schedule_handle_flag_waiting; `panicked` is the BUG of line 338. */
    method HandleFlagWaiting(ghost most: nat) returns (panicked: bool)
      requires Valid() && MidOk(abs, most)
      modifies `abs, `circles, `place, `waitflagIsSet, tasks`taskState, tasks`waitflag, nodes, flags
      ensures panicked <==> old(abs).isSet > WAITFLAG_PANIC
      ensures Valid() && abs == if panicked then old(abs) else FlagPhase(old(abs))
    {
      if waitflagIsSet > WAITFLAG_PANIC {
        return true;
      }
      panicked := false;
      if waitflagIsSet != 0 {
        VisitFlagWaiting(most);
      }
    }

    /** The loop of lines 341-350. */
    method VisitFlagWaiting(ghost most: nat)
      requires Valid() && MidOk(abs, most)
      modifies `abs, `circles, `place, `waitflagIsSet, tasks`taskState, tasks`waitflag, nodes, flags
      ensures Valid() && abs == FlagPass(old(abs), old(abs).flagWaiting)
    {
      ghost var s, visited, kept: seq<nat>, rest := abs, [], [], abs.flagWaiting;
      assert kept + rest == rest;
      Follow(2, flagWaiting, kept, rest);
      var pos: ListHead := flagWaiting.next;
      var tmp: ListHead := pos.next;
      while pos != flagWaiting
        invariant Valid() && visited + rest == s.flagWaiting
        invariant abs == FlagPass(s, visited) && abs.flagWaiting == kept + rest
        invariant pos == Cursor(rest, flagWaiting) && (rest != [] ==> tmp == Cursor(rest[1..], flagWaiting))
        invariant Onward(rest, flagWaiting)
        decreases |rest|
      {
        FlagCursor(s, visited, rest, most);
        kept := FlagVisitNode(pos, kept, rest);
        visited, rest := visited + [rest[0]], rest[1..];
        pos := tmp;
        tmp := tmp.next;
      }
      assert visited == s.flagWaiting;
    }

    /** Lines 371-387. */
    method RequeueCurrent()
      requires Valid()
      modifies `abs, `circles, `place, current, nodes
      requires place[abs.current] < 3
      ensures Valid() && abs == Requeue(old(abs))
    {
      var prev := current;
      if prev.taskState == TIMEWAITING {
      } else if prev.taskState == FLAGWAITING {
      } else {
        ghost var r := Account(abs);
        SameQueues(circles, abs, r, tasks, place);
        prev.ticksTotal := prev.ticksTotal + PREEMPT_TICKS - prev.ticksLeft;
        abs := r;
        QueueRunnable(prev);
      }
    }

    /** scheduler_pick_next_task. */
    method SchedulerPickNextTask() returns (next: Task?)
      requires Valid()
      modifies `abs, tasks`ticksLeft
      ensures Valid()
      ensures old(abs).running == [] ==> next == null && abs == old(abs)
      ensures old(abs).running != [] ==>
        && var n := old(abs).running[0];
           n < |tasks| && next == tasks[n] && n < |old(abs).tasks|
           && abs == old(abs).(tasks := old(abs).tasks[n := old(abs).tasks[n].(ticksLeft := PREEMPT_TICKS)])
    {
      assert [] + abs.running == abs.running;
      Follow(0, running, [], abs.running);
      next := null;
      if running.next != running {
        next := tasks[running.next.owner];
        ghost var n := next.pid;
        ghost var r := abs.(tasks := abs.tasks[n := abs.tasks[n].(ticksLeft := PREEMPT_TICKS)]);
        SameQueues(circles, abs, r, tasks, place);
        next.ticksLeft := PREEMPT_TICKS;
        abs := r;
      }
    }

    /** Lines 403-406. */
    method Start(next: Task)
      requires Valid() && Owns(next)
      modifies `abs, `current, next`taskState
      ensures Valid()
      ensures abs == old(abs).(tasks := old(abs).tasks[next.pid := old(abs).tasks[next.pid].(state := RUNNING)],
                               current := next.pid)
    {
      ghost var n := next.pid;
      ghost var r := abs.(tasks := abs.tasks[n := abs.tasks[n].(state := RUNNING)], current := n);
      SameQueues(circles, abs, r, tasks, place);
      next.taskState := RUNNING;
      current := next;
      abs := r;
    }

    /** Lines 399-406. There is always a task on the running list, so the idle task is never
        the fallback of line 401. */
    method DispatchNext()
      requires Valid() && abs.running != []
      modifies `abs, `current, tasks
      ensures Valid() && abs == Dispatch(old(abs))
    {
      ghost var s := abs;
      var next := SchedulerPickNextTask();
      if next == null {
        assert false;
      }
      Start(next);
    }

    /** schedule(). It panics only in schedule_handle_flag_waiting. */
    method Schedule(now: nat, ghost most: nat) returns (panicked: bool)
      requires Valid() && SchedOk(abs, most)
      modifies `abs, `circles, `place, `waitflagIsSet, `current, nodes, tasks, flags
      ensures panicked <==> old(abs).isSet > WAITFLAG_PANIC
      ensures !panicked ==> Valid() && abs == SchedModel.Schedule(old(abs), now)
    {
      ghost var s := abs;
      TimersKeep(s, now, most);
      assert StateOk(s, s.current);
      PlaceOf(s.current);
      RequeueCurrent();
      HandleTimerWaiting(now);
      panicked := HandleFlagWaiting(most);
      if !panicked {
        FlagsKeep(TimerPhase(Requeue(s), now), most);
        DispatchNext();
      }
    }

    /** schedule_from_irq: the current task loses a tick, and the processor if it must. */
    method ScheduleFromIrq(now: nat, ghost most: nat) returns (panicked: bool)
      requires Valid() && SchedOk(abs, most)
      modifies `abs, `circles, `place, `waitflagIsSet, `current, nodes, tasks, flags
      ensures !panicked ==> Valid()
      ensures var s := CountDown(old(abs));
        if NeedsResched(s) then
          (panicked <==> s.isSet > WAITFLAG_PANIC) && (!panicked ==> abs == SchedModel.Schedule(s, now))
        else !panicked && abs == s
    {
      ghost var r := CountDown(abs);
      SameQueues(circles, abs, r, tasks, place);
      CountDownKeeps(abs, most);
      current.ticksLeft := current.ticksLeft - 1;
      abs := r;
      panicked := false;
      if waitflagIsSet != 0 || current.ticksLeft == 0 {
        panicked := Schedule(now, most);
      }
    }

    /** wakeup_waitflag. */
    method WakeupWaitflag(flag: nat)
      requires Valid() && flag < flags.Length
      modifies `abs, `waitflagIsSet, flags
      ensures Valid()
      ensures abs == old(abs).(flags := old(abs).flags[flag := 1], isSet := Inc(old(abs).isSet))
    {
      ghost var r := abs.(flags := abs.flags[flag := 1], isSet := Inc(abs.isSet));
      SameQueues(circles, abs, r, tasks, place);
      flags[flag] := 1;
      waitflagIsSet := Inc(waitflagIsSet);
      abs := r;
    }

    /** wait_on_timer_ms when nothing interrupts it; `later` is the counter when schedule reads it. */
    method WaitOnTimerMs(msec: nat, now: nat, freq: nat, later: nat, ghost most: nat)
      returns (panicked: bool)
      requires Valid() && SchedOk(abs, most)
      requires abs.current != IDLE && Runnable(abs.tasks[abs.current].state)
      modifies `abs, `circles, `place, `waitflagIsSet, `current, nodes, tasks, flags
      ensures var c := old(abs).current;
        var u := old(abs).(tasks := old(abs).tasks[c :=
          old(abs).tasks[c].(until := (now + freq / 1000 * msec) % TWO64)]);
        && (panicked <==> old(abs).isSet > WAITFLAG_PANIC)
        && (!panicked ==> Valid() && abs == SchedModel.Schedule(SchedModel.QueueTimewait(u, c), later))
    {
      var until := (now + freq / 1000 * msec) % TWO64;
      assert StateOk(abs, abs.current);
      PlaceOf(abs.current);
      StoreUntil(until, most);
      WaitingOk(abs, most);
      QueueTimewait(current);
      panicked := Schedule(later, most);
    }

    /** wait_on_waitflag when nothing interrupts it. */
    method WaitOnWaitflag(flag: nat, now: nat, ghost most: nat) returns (panicked: bool)
      requires Valid() && SchedOk(abs, most) && flag < flags.Length
      requires abs.current != IDLE && Runnable(abs.tasks[abs.current].state)
      modifies `abs, `circles, `place, `waitflagIsSet, `current, nodes, tasks, flags
      ensures old(abs).flags[flag] == 1 ==>
        !panicked && Valid() && abs == old(abs).(flags := old(abs).flags[flag := 0])
      ensures old(abs).flags[flag] != 1 ==>
        var c := old(abs).current;
        var u := old(abs).(tasks := old(abs).tasks[c := old(abs).tasks[c].(waitflag := Some(flag))]);
        && (panicked <==> old(abs).isSet > WAITFLAG_PANIC)
        && (!panicked ==> Valid() && abs == SchedModel.Schedule(SchedModel.QueueFlagwait(u, c), now))
    {
      var taken := CmpAndSwap(flag, 1, 0);
      if taken == 1 {
        StoreFlagCell(flag, 0);
        return false;
      }
      panicked := BlockOnFlag(flag, now, most);
    }

    /** Lines 260-264. */
    method BlockOnFlag(flag: nat, now: nat, ghost most: nat) returns (panicked: bool)
      requires Valid() && SchedOk(abs, most) && flag < flags.Length
      requires abs.current != IDLE && Runnable(abs.tasks[abs.current].state)
      modifies `abs, `circles, `place, `waitflagIsSet, `current, nodes, tasks, flags
      ensures var c := old(abs).current;
        var u := old(abs).(tasks := old(abs).tasks[c := old(abs).tasks[c].(waitflag := Some(flag))]);
        && (panicked <==> old(abs).isSet > WAITFLAG_PANIC)
        && (!panicked ==> Valid() && abs == SchedModel.Schedule(SchedModel.QueueFlagwait(u, c), now))
    {
      assert StateOk(abs, abs.current);
      PlaceOf(abs.current);
      StoreWaitflag(flag, most);
      WaitingOk(abs, most);
      QueueFlagwait(current);
      panicked := Schedule(now, most);
    }

    /** Line 245: the current task's deadline. */
    method StoreUntil(until: nat, ghost most: nat)
      requires Valid() && SchedOk(abs, most)
      modifies `abs, current`timerWaitUntil
      ensures Valid() && SchedOk(abs, most)
      ensures var c := old(abs).current;
        abs == old(abs).(tasks := old(abs).tasks[c := old(abs).tasks[c].(until := until)])
    {
      ghost var c := abs.current;
      ghost var u := abs.(tasks := abs.tasks[c := abs.tasks[c].(until := until)]);
      SameQueues(circles, abs, u, tasks, place);
      RecordChange(abs, u, most);
      current.timerWaitUntil := until;
      abs := u;
    }

    /** Line 261: the current task remembers the flag it waits for. */
    method StoreWaitflag(flag: nat, ghost most: nat)
      requires Valid() && SchedOk(abs, most) && Runnable(abs.tasks[abs.current].state)
      modifies `abs, current`waitflag
      ensures Valid() && SchedOk(abs, most)
      ensures var c := old(abs).current;
        abs == old(abs).(tasks := old(abs).tasks[c := old(abs).tasks[c].(waitflag := Some(flag))])
    {
      ghost var c := abs.current;
      ghost var u := abs.(tasks := abs.tasks[c := abs.tasks[c].(waitflag := Some(flag))]);
      SameQueues(circles, abs, u, tasks, place);
      assert OnQueueOfState(abs, c);
      RecordChange(abs, u, most);
      current.waitflag := Some(flag);
      abs := u;
    }

    /** atomic_cmp_and_swap on a flag. */
    method CmpAndSwap(flag: nat, expected: nat, new_: nat) returns (seen: nat)
      requires Valid() && flag < flags.Length
      modifies `abs, flags
      ensures Valid() && seen == old(abs).flags[flag]
      ensures abs == if seen == expected then old(abs).(flags := old(abs).flags[flag := new_]) else old(abs)
    {
      seen := flags[flag];
      if seen == expected {
        StoreFlagCell(flag, new_);
      }
    }

    method StoreFlagCell(flag: nat, v: nat)
      requires Valid() && flag < flags.Length
      modifies `abs, flags
      ensures Valid() && abs == old(abs).(flags := old(abs).flags[flag := v])
    {
      ghost var r := abs.(flags := abs.flags[flag := v]);
      SameQueues(circles, abs, r, tasks, place);
      flags[flag] := v;
      abs := r;
    }

    /** task_create, then sched_queue_runnable_task. */
    method StartTask() returns (t: Task)
      requires Valid()
      modifies `abs, `circles, `place, `nodes, `tasks, nodes
      ensures Valid() && fresh(t) && Owns(t) && t.pid == |old(tasks)| && fresh(nodes - old(nodes))
      ensures tasks == old(tasks) + [t]
      ensures abs == SchedModel.QueueRunnable(
        old(abs).(tasks := old(abs).tasks + [NewTask()]), |old(tasks)|)
    {
      t := new Task(|tasks|);
      AdoptTask(t);
      QueueRunnable(t);
    }

    /** The new task takes the next place in the task table. */
    method AdoptTask(t: Task)
      requires Valid() && t.pid == |tasks| && t.schedlist.owner == |tasks| && t.View() == NewTask()
      requires Ring([t.schedlist])
      modifies `abs, `place, `nodes, `tasks
      ensures Valid() && tasks == old(tasks) + [t] && place == old(place) + [3]
      ensures nodes == old(nodes) + {t.schedlist}
      ensures abs == old(abs).(tasks := old(abs).tasks + [NewTask()])
    {
      ghost var r := abs.(tasks := abs.tasks + [NewTask()]);
      MatchesGrow(circles, abs, r, tasks, place, t);
      RingsGrow(circles, nodes, t.schedlist);
      tasks := tasks + [t];
      place := place + [3];
      nodes := nodes + {t.schedlist};
      abs := r;
    }

    /** scheduler_init: the idle task and the init task are queued, and init starts running. */
    static method SchedulerInit(numFlags: nat) returns (s: Scheduler)
      ensures fresh(s) && fresh(s.tasks) && fresh(s.nodes) && fresh(s.flags)
      ensures s.Valid() && s.abs == Boot(numFlags).s
    {
      var idle;
      s, idle := NewScheduler(numFlags);
      s.QueueFirstTasks(idle, numFlags);
    }

    /** pcpu_scheduler_init and the idle task. */
    static method NewScheduler(numFlags: nat) returns (s: Scheduler, idle: Task)
      ensures fresh(s) && fresh(idle) && fresh(s.nodes) && fresh(s.flags)
      ensures s.Valid() && s.tasks == [idle] && s.place == [3] && Ring([idle.schedlist])
      ensures s.abs == Sched([NewTask()], [], [], [], seq(numFlags, i => 0), 0, IDLE)
    {
      var running, timerWaiting, flagWaiting := NewLists();
      var flags := NewFlags(numFlags);
      idle := new Task(0);
      s := new Scheduler(running, timerWaiting, flagWaiting, idle, flags);
    }

    /** Three empty lists. */
    static method NewLists() returns (a: ListHead, b: ListHead, c: ListHead)
      ensures fresh(a) && fresh(b) && fresh(c) && Ring([a]) && Ring([b]) && Ring([c])
      ensures a.owner == -1 && b.owner == -2 && c.owner == -3
    {
      a := new ListHead(-1);
      b := new ListHead(-2);
      c := new ListHead(-3);
    }

    static method NewFlags(numFlags: nat) returns (flags: array<nat>)
      ensures fresh(flags) && flags[..] == seq(numFlags, i => 0)
    {
      flags := new nat[numFlags](i => 0);
    }

    method QueueFirstTasks(idle: Task, ghost numFlags: nat)
      requires Valid() && tasks == [idle] && place == [3] && Ring([idle.schedlist])
      requires abs == Sched([NewTask()], [], [], [], seq(numFlags, i => 0), 0, IDLE)
      modifies this, tasks, nodes
      ensures Valid() && abs == Boot(numFlags).s
      ensures fresh(nodes - old(nodes)) && |tasks| == 2 && tasks[0] == idle && fresh(tasks[1])
    {
      QueueRunnable(idle);
      var init := StartTask();
      StartFirst(init);
      BootQueues(numFlags);
    }

    /** start_task_from_ctx: the first task runs without a call of schedule. */
    method StartFirst(t: Task)
      requires Valid() && Owns(t)
      modifies `abs, `current
      ensures Valid() && abs == old(abs).(current := t.pid)
    {
      ghost var r := abs.(current := t.pid);
      SameQueues(circles, abs, r, tasks, place);
      current := t;
      abs := r;
    }
  }

  lemma QueueNew(s: Sched, t: nat)
    requires t < |s.tasks| && t !in s.running && t !in s.timerWaiting && t !in s.flagWaiting
    ensures SchedModel.QueueRunnable(s, t)
         == SchedModel.SetState(s.(running := s.running + [t]), t, SCHEDULED)
  {
    UnlinkQueues(s, t);
  }

  lemma BootQueues(numFlags: nat)
    ensures var s := Sched([NewTask()], [], [], [], seq(numFlags, i => 0), 0, IDLE);
      var i := SchedModel.QueueRunnable(s, 0);
      SchedModel.QueueRunnable(i.(tasks := i.tasks + [NewTask()]), 1).(current := 1) == Boot(numFlags).s
  {
    var s := Sched([NewTask()], [], [], [], seq(numFlags, i => 0), 0, IDLE);
    QueueNew(s, 0);
    var i := SchedModel.QueueRunnable(s, 0);
    assert i.running == [0];
    QueueNew(i.(tasks := i.tasks + [NewTask()]), 1);
  }

  lemma RingsGrow(cs: seq<seq<ListHead>>, nodes: set<ListHead>, node: ListHead)
    requires RingsIn(cs, nodes)
    ensures RingsIn(cs, nodes + {node})
  {
    forall k | 0 <= k < |cs|
      ensures Ring(cs[k])
    {
    }
  }

  /** A runnable current task other than idle may queue itself on either waiting list. */
  lemma WaitingOk(s: Sched, most: nat)
    requires SchedOk(s, most) && s.current != IDLE && Runnable(s.tasks[s.current].state)
    ensures SchedOk(SchedModel.QueueTimewait(s, s.current), most)
    ensures HasFlag(s, s.current) ==> SchedOk(SchedModel.QueueFlagwait(s, s.current), most)
  {
    var c := s.current;
    QueueKeeps(s, c);
    UnlinkQueues(s, c);
    OneQueue(s, c);
    assert OnQueueOfState(s, c);
    WaitingStates(s, SchedModel.QueueTimewait(s, c), most);
    WaitingStates(s, SchedModel.QueueFlagwait(s, c), most);
  }

  lemma WaitingStates(s: Sched, r: Sched, most: nat)
    requires SchedOk(s, most) && |r.tasks| == |s.tasks| && r.current == s.current
    requires forall t :: 0 <= t < |s.tasks| && t != s.current ==> r.tasks[t] == s.tasks[t]
    requires r.tasks[s.current].state == TIMEWAITING || r.tasks[s.current].state == FLAGWAITING
    ensures forall t :: 0 <= t < |r.tasks| ==> StateOk(r, t)
  {
    forall t | 0 <= t < |r.tasks|
      ensures StateOk(r, t)
    {
      assert StateOk(s, t);
    }
  }

  lemma FlagCursor(s: Sched, visited: seq<nat>, rest: seq<nat>, most: nat)
    requires MidOk(s, most) && visited + rest == s.flagWaiting && rest != []
    ensures HasFlag(FlagPass(s, visited), rest[0])
    ensures FlagPass(s, visited + [rest[0]]) == FlagVisit(FlagPass(s, visited), rest[0])
    ensures visited + [rest[0]] + rest[1..] == s.flagWaiting
  {
    UnvisitedHasFlag(s, visited, rest, most);
    FlagPassNext(s, visited, rest[0]);
  }

  lemma UnvisitedHasFlag(s: Sched, visited: seq<nat>, rest: seq<nat>, most: nat)
    requires MidOk(s, most) && visited + rest == s.flagWaiting && rest != []
    ensures HasFlag(FlagPass(s, visited), rest[0])
  {
    var q := s.flagWaiting;
    forall i | 0 <= i < |visited|
      ensures visited[i] == q[i] && visited[i] in q && HasFlag(s, visited[i])
    {
      assert (visited + rest)[i] == visited[i];
    }
    assert rest[0] == q[|visited|] && HasFlag(s, q[|visited|]);
    FlagPassKeeps(s, visited, most);
  }

  lemma Shift(p: seq<nat>, q: seq<nat>)
    requires q != []
    ensures p + [q[0]] + q[1..] == p + q
  {
  }

  lemma TimerPassNext(s: Sched, visited: seq<nat>, t: nat, now: nat)
    ensures TimerPass(s, visited + [t], now) == TimerVisit(TimerPass(s, visited, now), t, now)
  {
    assert (visited + [t])[..|visited|] == visited;
  }

  lemma FlagPassNext(s: Sched, visited: seq<nat>, t: nat)
    ensures FlagPass(s, visited + [t]) == FlagVisit(FlagPass(s, visited), t)
  {
    assert (visited + [t])[..|visited|] == visited;
  }

  lemma WithoutMiddle(p: seq<nat>, t: nat, r: seq<nat>)
    requires NoDup(p + [t] + r)
    ensures Without(p + [t] + r, t) == p + r
  {
    var q := p + [t] + r;
    assert q[|p|] == t;
    WithoutAt(q, |p|);
    assert q[..|p|] == p && q[|p| + 1..] == r;
  }
}
