/**
 The kernel in memory: globals, task control blocks and the objects that hold its lists,
 changed in place by the code's own sequence of checked operations. Every call is proved to
 do what the step function of `KernelModel` says, and every branch that would roll back or
 stop the kernel is proved to be dead.
 */
module KernelObject {
  import opened Config
  import opened Sequences
  import opened KernelModel
  import opened KernelInvariant
  import opened Inheritance
  import opened Blocking
  import opened Waking
  import opened Scheduling
  import opened Exchange
  import opened MutexSteps
  import opened KernelRuns
  import opened TimeoutModel
  import R = ReadySet
  import T = TimeoutList
  import B = RingBuffer
  import D = Deliveries

  // ---------------------------------------------------------------------------
  // What the invariant says about links
  // ---------------------------------------------------------------------------

  /** Whether a task's wait node is linked. */
  predicate WaitLinked(waiters: map<ListId, seq<Tid>>, t: Tid) {
    exists l :: l in waiters && t in waiters[l]
  }

  lemma WaitLinks(k: Kernel, x: set<Tid>, t: Tid)
    requires WaitOk(k, x) && t < |k.tasks|
    ensures WaitLinked(k.waiters, t) <==> t !in x && k.tasks[t].wait.On?
    ensures WaitLinked(k.waiters, t) <==> k.tasks[t].wait.On? && t in WaitersOf(k, k.tasks[t].wait.list)
  {
    if t !in x && k.tasks[t].wait.On? {
      assert t in WaitersOf(k, k.tasks[t].wait.list);
      assert WaitLinked(k.waiters, t);
    }
    if WaitLinked(k.waiters, t) {
      var l :| l in k.waiters && t in k.waiters[l];
      assert t in WaitersOf(k, l);
    }
  }

  lemma ReadyLinks(k: Kernel, r: R.ReadySet, t: Tid)
    requires ReadyOk(k) && t < |k.tasks| && r.Valid() && k.ready == r.queues
    ensures t in r.home <==> Runnable(k.tasks[t])
    ensures t in r.home <==> t in k.ready[k.prio[t].eff]
  {
    if t in r.home {
      assert t in k.ready[r.home[t]];
    }
    if Runnable(k.tasks[t]) {
      assert t in k.ready[k.prio[t].eff];
    }
  }

  /** Whether a node is linked is whether it has a deadline. */
  lemma {:induction false} LiftHas(s: seq<Node>, base: nat, id: nat)
    ensures T.HasNode(s, id) <==> exists e :: e in Lift(s, base) && e.id == id
  {
    if s != [] {
      LiftHas(s[1..], base, id);
      LiftCons(s[0], s[1..], base);
      assert s == [s[0]] + s[1..];
      var first := Entry(s[0].id, base + s[0].wake);
      assert first in Lift(s, base);
      if T.HasNode(s, id) && s[0].id != id {
        var i :| 0 <= i < |s| && s[i].id == id;
        assert s[1..][i - 1].id == id;
      }
      if T.HasNode(s[1..], id) {
        var i :| 0 <= i < |s[1..]| && s[1..][i].id == id;
        assert s[i + 1].id == id;
      }
    }
  }

  lemma DeadlineLinks(d: Dual, now: nat, id: nat)
    ensures T.HasNode(d.current, id) || T.HasNode(d.overflow, id) <==> exists e :: e in Absolute(d, now) && e.id == id
  {
    LiftHas(d.current, TurnStart(now), id);
    LiftHas(d.overflow, TurnStart(now) + TICK_RANGE, id);
  }

  /** Insertion behind every task at least as urgent, by place. */
  lemma {:induction false} InsertPrioAt(prio: seq<Prio>, s: seq<Tid>, t: Tid, i: nat)
    requires i <= |s| && (forall j :: 0 <= j < i ==> Eff(prio, s[j]) <= Eff(prio, t))
    requires i < |s| ==> Eff(prio, t) < Eff(prio, s[i])
    ensures InsertByPrio(prio, s, t) == s[..i] + [t] + s[i..]
  {
    if i > 0 {
      InsertPrioAt(prio, s[1..], t, i - 1);
      assert s[1..][..i - 1] == s[..i][1..];
      assert s[1..][i - 1..] == s[i..];
    }
  }

  /** The scan of a wait list for the place of a new waiter. */
  method InsertByPriority(prio: seq<Prio>, s: seq<Tid>, t: Tid) returns (r: seq<Tid>)
    ensures r == InsertByPrio(prio, s, t)
  {
    var i := 0;
    while i < |s| && Eff(prio, s[i]) <= Eff(prio, t)
      invariant 0 <= i <= |s| && forall j :: 0 <= j < i ==> Eff(prio, s[j]) <= Eff(prio, t)
    {
      i := i + 1;
    }
    InsertPrioAt(prio, s, t, i);
    r := s[..i] + [t] + s[i..];
  }

  /** The running task is linked in the ready set and nowhere else. */
  lemma RunningLinks(k: Kernel, t: Tid)
    requires Inv(k, {}) && t < |k.tasks| && Runnable(k.tasks[t])
    ensures WaitOk(k, {}) && ReadyOk(k) && k.tasks[t].wait == NoWait
    ensures forall e :: e in k.timeouts ==> e.id != t
  {
    hide ReadyOk, WaitOk, OwnOk, EpisodesOk, SemsOk, QueuesOk, Acyclic, Boosted, SortedByDue, DistinctIds;
    assert TaskOk(k.tasks[t]);
  }

  lemma EmptyDual()
    ensures DualOk(Dual([], [], 0), 0) && Absolute(Dual([], [], 0), 0) == []
  {
  }

  /** A ready set that holds the idle task. */
  method IdleReady() returns (r: R.ReadySet)
    ensures fresh(r) && r.Valid() && r.queues == seq(PRIORITY_COUNT, p => if p == IDLE_PRIORITY then [IDLE] else [])
  {
    hide R.ReadySet.Valid;
    r := new R.ReadySet();
    var _ := r.Insert(IDLE, IDLE_PRIORITY);
    assert r.queues[IDLE_PRIORITY] == [IDLE];
    assert r.queues == seq(PRIORITY_COUNT, p => if p == IDLE_PRIORITY then [IDLE] else []);
  }

  /** What a wake does: a mutex wait that times out also recomputes the owner it leaves. */
  ghost function Woken(k: Kernel, t: Tid, result: Status): Kernel
    requires Shape(k) && t < |k.tasks|
  {
    if result == Timeout && k.tasks[t].wait.On? then ExpireOne(k, t) else Wake(k, t, result)
  }

  /** The middle of a wake: the lists have been left, the result is not yet published. */
  ghost function Left(k: Kernel, t: Tid, result: Status): (r: Kernel)
    requires Shape(k) && t < |k.tasks|
    ensures Shape(r) && r.tasks == k.tasks
  {
    var k1 := Detach(k, t);
    match k.tasks[t].wait
    case On(l) =>
      if result == Timeout && l.MutexWaiters? && MutexOf(k1, l.m).owner.Some?
          && MutexOf(k1, l.m).owner.value < |k.tasks|
      then KernelModel.Recompute(k1, MutexOf(k1, l.m).owner.value, 0).0 else k1
    case _ => k1
  }

  lemma WokenIsFinish(k: Kernel, t: Tid, result: Status)
    requires Shape(k) && t < |k.tasks|
    ensures Woken(k, t, result) == Finish(Left(k, t, result), t, result)
  {
    hide KernelModel.Recompute, Detach, Finish;
  }

  class KernelObject {
    const ready: R.ReadySet
    const timeouts: T.TimeoutList
    var tasks: seq<Task>
    var prio: seq<Prio>
    var owned: seq<seq<nat>>
    var waiters: map<ListId, seq<Tid>>
    var mutexes: map<nat, Mutex>
    var sems: map<nat, Semaphore>
    const rings: map<nat, B.RingBuffer>
    var current: Tid
    var tick: Word32
    var reasons: set<Reason>
    var pendsv: bool
    var isrWoken: bool
    var panicked: bool
    ghost var queues: map<nat, Queue>
    ghost var hist: seq<seq<Episode>>
    ghost var now: nat

    ghost function Model(): Kernel
      reads this, ready, timeouts
    {
      Kernel(tasks, prio, owned, hist, ready.queues, waiters, Absolute(timeouts.Model(), now), mutexes, sems, queues,
             current, now, reasons, pendsv, isrWoken)
    }

    /** Each queue buffers its items in a ring of its own. */
    ghost predicate RingsFit()
      reads `queues, rings.Values, set q | q in rings :: rings[q].storage
    {
      && queues.Keys == rings.Keys
      && (forall q, r :: q in rings && r in rings && q != r ==>
            rings[q] != rings[r] && rings[q].storage != rings[r].storage)
      && forall q :: q in rings ==>
           rings[q].Valid() && rings[q].items == queues[q].items && rings[q].capacity == queues[q].capacity
    }

    /** The rings and their storage. */
    ghost function Buffers(): set<object> {
      (set q | q in rings :: rings[q] as object) + (set q | q in rings :: rings[q].storage as object)
    }

    ghost function Sizes(): map<nat, nat> {
      map q | q in rings :: rings[q].size
    }

    /** The parts fit together: the list objects are well formed and the counter is the time. */
    ghost predicate Fits()
      reads this, ready, timeouts, rings.Values, set q | q in rings :: rings[q].storage
    {
      && ready.Valid() && timeouts.Valid() && RingsFit()
      && tick == now % TICK_RANGE && timeouts.last == tick && DualOk(timeouts.Model(), now)
      && Shape(Model())
    }

    /** Initialisation: empty lists and the registered idle task. */
    constructor (mutexes: map<nat, Mutex>, sems: map<nat, Semaphore>, rings: map<nat, B.RingBuffer>)
      requires forall q, r :: q in rings && r in rings && q != r ==>
        rings[q] != rings[r] && rings[q].storage != rings[r].storage
      requires forall q :: q in rings ==> rings[q].Valid() && rings[q].items == []
      ensures fresh(ready) && fresh(timeouts) && this.rings == rings && Fits() && !panicked
      ensures Model() == Initialized(mutexes, sems, map q | q in rings :: Queue(rings[q].capacity, [], [], []))
    {
      hide R.ReadySet.Valid, T.TimeoutList.Valid, DualOk, Absolute;
      EmptyDual();
      var r := IdleReady();
      var t := new T.TimeoutList(0);
      ready, timeouts := r, t;
      tasks := [Task(Ready, Invalid, NoWait, [], Ok, TIME_SLICE_TICKS)];
      prio := [Prio(IDLE_PRIORITY, IDLE_PRIORITY)];
      owned, hist := [[]], [[]];
      waiters := map[];
      this.mutexes, this.sems, this.rings := mutexes, sems, rings;
      queues := map q | q in rings :: Queue(rings[q].capacity, [], [], []);
      current, tick, now := IDLE, 0, 0;
      reasons, pendsv, isrWoken, panicked := {}, false, false, false;
    }

    // -------------------------------------------------------------------------
    // One list or one field at a time
    // -------------------------------------------------------------------------

    /** Unlink a runnable task from the ready set. */
    method Unready(t: Tid) returns (status: Status)
      requires Fits() && t < |tasks| && t in ready.queues[prio[t].eff]
      modifies ready
      ensures Fits() && status == Ok && Model() == old(Model()).(ready := ReadyWithout(old(Model()), t))
        && t !in ready.home
    {
      hide RingsFit, DualOk, Absolute, T.TimeoutList.Valid, Without;
      status := ready.Remove(t, prio[t].eff);
    }

    /** Link a task at the end of its level. */
    method MakeReady(t: Tid) returns (status: Status)
      requires Fits() && t < |tasks| && t !in ready.home
      modifies ready
      ensures Fits() && status == Ok && Model() == old(Model()).(ready := ReadyWith(old(Model()), t))
      ensures ready.home == old(ready.home)[t := prio[t].eff]
    {
      hide RingsFit, DualOk, Absolute, T.TimeoutList.Valid, R.ReadySet.Valid;
      status := ready.Insert(t, prio[t].eff);
    }

    /** Link a task at its place in a wait list; a task that is linked already is refused. */
    method WaitInsert(l: ListId, t: Tid) returns (status: Status)
      requires Fits()
      modifies `waiters
      ensures Fits() && status == if WaitLinked(old(waiters), t) then InvalidState else Ok
      ensures Model() == if status == Ok
        then old(Model()).(waiters := old(waiters)[l := InsertByPrio(prio, WaitersOf(old(Model()), l), t)])
            else old(Model())
    {
      hide RingsFit, DualOk, Absolute, T.TimeoutList.Valid, R.ReadySet.Valid, InsertByPrio;
      if WaitLinked(waiters, t) {
        return InvalidState;
      }
      var s := InsertByPriority(prio, if l in waiters then waiters[l] else [], t);
      waiters := waiters[l := s];
      status := Ok;
    }

    method WaitRemove(l: ListId, t: Tid) returns (status: Status)
      requires Fits()
      modifies `waiters
      ensures Fits()
      ensures status == if t in WaitersOf(old(Model()), l) then Ok else InvalidState
      ensures Model() == if status == Ok
        then old(Model()).(waiters := old(waiters)[l := Without(WaitersOf(old(Model()), l), t)]) else old(Model())
    {
      hide RingsFit, DualOk, Absolute, T.TimeoutList.Valid, R.ReadySet.Valid;
      if l !in waiters || t !in waiters[l] {
        return InvalidState;
      }
      waiters := waiters[l := Without(waiters[l], t)];
      status := Ok;
    }

    /** Start a timeout for a task that has none. */
    method StartTimeout(t: Tid, delay: Word32) returns (status: Status)
      requires Fits() && 0 < delay < WAIT_FOREVER && forall e :: e in Model().timeouts ==> e.id != t
      modifies timeouts
      ensures Fits() && status == Ok
      ensures Model() == old(Model()).(timeouts := InsertByDue(old(Model()).timeouts, Entry(t, now + delay)))
    {
      hide RingsFit, DualOk, Absolute, T.TimeoutList.Valid, R.ReadySet.Valid, InsertByDue, DualInsert, T.HasNode;
      ghost var d := timeouts.Model();
      DeadlineLinks(d, now, t);
      InsertRefines(d, now, t, delay);
      status := timeouts.Insert(t, delay);
      InsertKeepsTick(d, t, delay);
    }

    /** Stop a task's timeout if it has one. */
    method StopTimeout(t: Tid) returns (status: Status)
      requires Fits()
      modifies timeouts
      ensures Fits() && status == Ok
      ensures Model() == old(Model()).(timeouts := WithoutId(old(Model()).timeouts, t))
    {
      hide RingsFit, DualOk, Absolute, T.TimeoutList.Valid, R.ReadySet.Valid, WithoutId, T.HasNode, WithoutNode;
      ghost var d := timeouts.Model();
      DeadlineLinks(d, now, t);
      RemoveRefines(d, now, t);
      if timeouts.Linked(t) {
        status := timeouts.Remove(t);
      } else {
        WithoutIdAbsent(Absolute(d, now), t);
        status := Ok;
      }
    }

    /** Change one task control block, and its history with it. */
    method SetTask(t: Tid, x: Task, ghost h: seq<Episode>)
      requires Fits() && t < |tasks|
      modifies `tasks, `hist
      ensures Fits() && Model() == old(Model()).(tasks := old(tasks)[t := x], hist := old(hist)[t := h])
    {
      hide RingsFit, DualOk, Absolute, T.TimeoutList.Valid, R.ReadySet.Valid;
      tasks := tasks[t := x];
      hist := hist[t := h];
    }

    method MarkReason(reason: Reason)
      requires Fits()
      modifies `reasons
      ensures Fits() && Model() == old(Model()).(reasons := old(reasons) + {reason})
    {
      hide RingsFit, DualOk, Absolute, T.TimeoutList.Valid, R.ReadySet.Valid;
      reasons := reasons + {reason};
    }

    method RequestSwitch(yes: bool)
      requires Fits()
      modifies `pendsv
      ensures Fits() && Model() == old(Model()).(pendsv := old(pendsv) || yes)
    {
      hide RingsFit, DualOk, Absolute, T.TimeoutList.Valid, R.ReadySet.Valid;
      pendsv := pendsv || yes;
    }

    method SetEffective(t: Tid, p: nat)
      requires Fits() && t < |prio| && p < PRIORITY_COUNT
      modifies `prio
      ensures Fits() && Model() == old(Model()).(prio := old(prio)[t := old(prio)[t].(eff := p)])
    {
      hide RingsFit, DualOk, Absolute, T.TimeoutList.Valid, R.ReadySet.Valid;
      prio := prio[t := prio[t].(eff := p)];
    }

    lemma Parts()
      requires Fits()
      ensures Shape(Model()) && ready.Valid() && tick == now % TICK_RANGE
    {
    }

    lemma Fields()
      ensures var k := Model();
        && k.tasks == tasks && k.prio == prio && k.owned == owned && k.hist == hist && k.ready == ready.queues
        && k.waiters == waiters && k.mutexes == mutexes && k.sems == sems && k.queues == queues && k.current == current
        && k.now == now && k.reasons == reasons && k.pendsv == pendsv && k.isrWoken == isrWoken
    {
    }

    // -------------------------------------------------------------------------
    // Blocking
    // -------------------------------------------------------------------------

    /** The task is linked in the ready set only. */
    ghost predicate OnlyReady(t: Tid)
      reads this, ready, timeouts
    {
      && t < |tasks| && t < |prio| && prio[t].eff < |ready.queues| && t in ready.queues[prio[t].eff]
      && !WaitLinked(waiters, t) && forall e :: e in Model().timeouts ==> e.id != t
    }

    lemma RunningOnlyReady(t: Tid)
      requires Fits() && Inv(Model(), {}) && t < |tasks| && Runnable(tasks[t])
      ensures OnlyReady(t) && t in ready.home && !timeouts.Linked(t)
    {
      hide Inv, DualOk, Absolute, ReadyOk, WaitOk, WaitLinked, T.HasNode, R.ReadySet.Valid;
      RunningLinks(Model(), t);
      ReadyLinks(Model(), ready, t);
      WaitLinks(Model(), {}, t);
      DeadlineLinks(timeouts.Model(), now, t);
    }

    /** Move a task from the ready set to a wait list and start its timeout. */
    method MoveToWaiters(c: Tid, l: ListId, timeout: Word32) returns (status: Status)
      requires Fits() && OnlyReady(c) && timeout > 0
      modifies `waiters, ready, timeouts
      ensures Fits() && status == Ok && Shape(old(Model()))
      ensures var k := old(Model());
        Model() == k.(
          ready := ReadyWithout(k, c),
          waiters := k.waiters[l := InsertByPrio(k.prio, WaitersOf(k, l), c)],
          timeouts := if timeout == WAIT_FOREVER then k.timeouts
              else InsertByDue(k.timeouts, Entry(c, k.now + timeout)))
    {
      hide Fits, Model, Shape, InsertByPrio, InsertByDue, WaitLinked, ReadyWithout;
      Parts();
      Fields();
      status := Unready(c);
      if status != Ok {
        assert false;
        return;
      }
      status := WaitInsert(l, c);
      if status != Ok {
        assert false;
        return;
      }
      if timeout != WAIT_FOREVER {
        status := StartTimeout(c, timeout);
      }
    }

    /** The control block of a task that starts to wait. */
    method MarkBlocked(c: Tid, x: Task, ghost e: Episode)
      requires Fits() && c < |tasks| && c < |hist|
      modifies `tasks, `hist, `reasons
      ensures Fits()
      ensures Model() == old(Model()).(tasks := old(tasks)[c := x], hist := old(hist)[c := old(hist)[c] + [e]],
        reasons := old(reasons) + {ByBlock})
    {
      hide RingsFit, DualOk, Absolute, T.TimeoutList.Valid, R.ReadySet.Valid;
      tasks := tasks[c := x];
      hist := hist[c := hist[c] + [e]];
      reasons := reasons + {ByBlock};
    }

    /** The running task leaves the ready set and waits in list `l`, with a deadline unless it waits
        for ever. */
    method BlockCurrent(l: ListId, timeout: Word32, item: Item) returns (status: Status)
      requires Fits() && Inv(Model(), {})
      modifies this, ready, timeouts
      ensures Fits() && panicked == old(panicked)
      ensures status == BlockStatus(old(Model()), timeout)
      ensures Model() == if status == Ok then BlockOn(old(Model()), l, timeout, item) else old(Model())
    {
      hide Inv, Fits, Model, InsertByPrio, InsertByDue, ReadyWithout, OnlyReady, WaitLinked, T.HasNode;
      ghost var k := Model();
      Parts();
      Fields();
      if current == IDLE || timeout == NO_WAIT {
        return InvalidArgument;
      }
      var c := current;
      if tasks[c].state != Running {
        return InvalidState;
      }
      RunningOnlyReady(c);
      if c !in ready.home || timeouts.Linked(c) {
        assert false;
        return InvalidState;
      }
      status := MoveToWaiters(c, l, timeout);
      if status != Ok {
        assert false;
        return;
      }
      MarkBlocked(c, tasks[c].(state := Blocked, wait := On(l), item := item, result := Internal,
          slice := TIME_SLICE_TICKS),
                  Began(On(l), now, DueAt(k, timeout)));
    }

    /** The running task leaves the ready set until a deadline. */
    method DelayCurrent(ticks: Word32) returns (status: Status)
      requires Fits() && Inv(Model(), {})
      modifies this, ready, timeouts
      ensures Fits() && panicked == old(panicked)
      ensures status == DelayStatus(old(Model()), ticks)
      ensures Model() == if status == Ok then DelayFor(old(Model()), ticks) else old(Model())
    {
      hide Inv, Fits, Model, InsertByDue, ReadyWithout, OnlyReady, WaitLinked, T.HasNode;
      Parts();
      Fields();
      if current == IDLE || ticks == 0 || ticks == WAIT_FOREVER || tasks[current].state != Running {
        return InvalidState;
      }
      var c := current;
      RunningOnlyReady(c);
      if c !in ready.home || timeouts.Linked(c) {
        assert false;
        return InvalidState;
      }
      status := MoveToTimeouts(c, ticks);
      if status != Ok {
        assert false;
        return;
      }
      MarkBlocked(c, tasks[c].(state := Blocked, wait := Wait.Delay, result := Ok, slice := TIME_SLICE_TICKS),
                  Began(Wait.Delay, now, Some(now + ticks)));
    }

    method MoveToTimeouts(c: Tid, ticks: Word32) returns (status: Status)
      requires Fits() && OnlyReady(c) && 0 < ticks < WAIT_FOREVER
      modifies ready, timeouts
      ensures Fits() && status == Ok && Shape(old(Model()))
      ensures var k := old(Model());
        Model() == k.(ready := ReadyWithout(k, c), timeouts := InsertByDue(k.timeouts, Entry(c, k.now + ticks)))
    {
      hide Fits, Model, Shape, InsertByDue, WaitLinked, ReadyWithout;
      Parts();
      Fields();
      status := Unready(c);
      if status != Ok {
        assert false;
        return;
      }
      status := StartTimeout(c, ticks);
    }

    // -------------------------------------------------------------------------
    // Priorities
    // -------------------------------------------------------------------------

    /** Take a task out of the lists whose order depends on its priority. */
    method UnlinkOrdered(t: Tid, ghost x: set<Tid>) returns (inReady: bool, inWait: bool)
      requires Fits() && ReadyOk(Model()) && WaitOk(Model(), x) && t < |tasks|
      modifies `waiters, ready
      ensures Fits() && Shape(old(Model()))
      ensures inReady <==> t in old(ready.queues)[prio[t].eff]
      ensures inWait <==> tasks[t].wait.On? && t in WaitersOf(old(Model()), tasks[t].wait.list)
      ensures t !in ready.home && !WaitLinked(waiters, t)
      ensures var k := old(Model());
        Model() == k.(
          ready := if inReady then ReadyWithout(k, t) else k.ready,
          waiters := if inWait then k.waiters[tasks[t].wait.list := Without(WaitersOf(k, tasks[t].wait.list), t)]
              else k.waiters)
    {
      hide Fits, Model, WaitLinked, Without, ReadyOk, WaitOk, R.ReadySet.Valid;
      ghost var k := Model();
      Parts();
      Fields();
      ReadyLinks(k, ready, t);
      WaitLinks(k, x, t);
      inReady := t in ready.home;
      inWait := WaitLinked(waiters, t);
      if inReady {
        var status := Unready(t);
        if status != Ok {
          assert false;
          return;
        }
      }
      if inWait {
        RemovedUnlinked(k, x, t);
        var status := WaitRemove(tasks[t].wait.list, t);
        if status != Ok {
          assert false;
          return;
        }
      }
      Fields();
    }

    method RelinkOrdered(t: Tid, inReady: bool, inWait: bool)
      requires Fits() && t < |tasks| && t !in ready.home && !WaitLinked(waiters, t) && (inWait ==> tasks[t].wait.On?)
      modifies `waiters, ready
      ensures Fits() && Shape(old(Model()))
      ensures var k := old(Model());
        Model() == k.(
          ready := if inReady then ReadyWith(k, t) else k.ready,
          waiters :=
            if inWait then k.waiters[tasks[t].wait.list := InsertByPrio(prio, WaitersOf(k, tasks[t].wait.list), t)]
            else k.waiters)
    {
      hide Fits, Model, WaitLinked, InsertByPrio;
      Parts();
      Fields();
      if inReady {
        var _ := MakeReady(t);
      }
      if inWait {
        var _ := WaitInsert(tasks[t].wait.list, t);
      }
    }

    /** Change an effective priority, requeueing the task wherever it is linked. */
    method SetEffectivePriority(t: Tid, p: nat, ghost x: set<Tid>) returns (status: Status)
      requires Fits() && ReadyOk(Model()) && WaitOk(Model(), x) && t < |tasks|
      modifies `waiters, `prio, ready
      ensures Fits() && Shape(old(Model())) && status == if p >= IDLE_PRIORITY then InvalidArgument else Ok
      ensures Model() == if p < IDLE_PRIORITY then SetEff(old(Model()), t, p) else old(Model())
    {
      hide Fits, Model, WaitLinked, InsertByPrio, Without, ReadyOk, WaitOk, ReadyWith, ReadyWithout, SetEff;
      ghost var k := Model();
      Parts();
      Fields();
      if p >= IDLE_PRIORITY {
        return InvalidArgument;
      }
      SetEffParts(k, t, p);
      if prio[t].eff == p {
        return Ok;
      }
      var inReady, inWait := UnlinkOrdered(t, x);
      Fields();
      SetEffective(t, p);
      Fields();
      RelinkOrdered(t, inReady, inWait);
      status := Ok;
    }

    /** The most urgent of a task's base priority and the first waiters of the mutexes it owns. */
    method RequiredPriority(t: Tid) returns (p: nat)
      requires t < |prio| && t < |owned|
      ensures p == Required(Model(), t)
    {
      hide Absolute;
      p := prio[t].base;
      var ms := owned[t];
      var i := 0;
      while i < |ms|
        invariant 0 <= i <= |ms| && Boost(Model(), ms, prio[t].base) == Boost(Model(), ms[i..], p)
      {
        assert ms[i..][1..] == ms[i + 1..];
        var l := MutexWaiters(ms[i]);
        var w := if l in waiters then waiters[l] else [];
        if w != [] && Eff(prio, w[0]) < p {
          p := Eff(prio, w[0]);
        }
        i := i + 1;
      }
    }

    /** Recompute a task and then, link by link, the owners it waits for. */
    method Recompute(t: Tid, depth: nat, ghost x: set<Tid>) returns (ok: bool)
      requires Fits() && Core(Model(), x) && t < |tasks| && t != IDLE
      modifies `waiters, `prio, ready
      ensures Fits() && Shape(old(Model()))
      ensures (Model(), ok) == KernelModel.Recompute(old(Model()), t, depth)
      decreases MAX_TASKS + 1 - depth
    {
      hide Fits, Model, Core, SetEff, Required, Shape, ReadyOk, WaitOk, OwnOk;
      ghost var k := Model();
      Parts();
      Fields();
      if depth > MAX_TASKS {
        return false;
      }
      CoreParts(k, x);
      var p := RequiredPriority(t);
      var status := SetEffectivePriority(t, p, x);
      Fields();
      if status != Ok {
        return false;
      }
      SetEffCore(k, t, p, x);
      CoreFacts(Model(), t, x);
      if Waiting(tasks[t]) && tasks[t].wait.On? && tasks[t].wait.list.MutexWaiters? {
        var m := tasks[t].wait.list.m;
        if m in mutexes && mutexes[m].owner.Some? && mutexes[m].owner.value < |tasks| {
          var o := mutexes[m].owner.value;
          if o != t {
            ok := Recompute(o, depth + 1, x);
            return;
          }
        }
      }
      ok := true;
    }

    // -------------------------------------------------------------------------
    // Waking
    // -------------------------------------------------------------------------

    /** Leave the wait list and the timeout list. */
    method DetachTask(t: Tid) returns (status: Status)
      requires Fits() && WaitOk(Model(), {}) && t < |tasks|
      modifies `waiters, timeouts
      ensures Fits() && status == Ok && Model() == Detach(old(Model()), t)
    {
      hide Fits, Model, Without, WithoutId, WaitOk;
      ghost var k := Model();
      Fields();
      if tasks[t].wait.On? {
        WaitLinks(k, {}, t);
        status := WaitRemove(tasks[t].wait.list, t);
        if status != Ok {
          assert false;
          return;
        }
      }
      status := StopTimeout(t);
    }

    /** Publish the result and enter the ready set, unless suspended. */
    method FinishTask(t: Tid, result: Status) returns (status: Status)
      requires Fits() && ReadyOk(Model()) && t < |tasks| && Waiting(tasks[t])
      modifies `tasks, `hist, ready
      ensures Fits() && Shape(old(Model())) && status == Ok && Model() == Finish(old(Model()), t, result)
    {
      hide Fits, Model, ReadyOk, R.ReadySet.Valid;
      ghost var k := Model();
      Parts();
      Fields();
      var x := tasks[t].(wait := NoWait, result := result, slice := TIME_SLICE_TICKS);
      if tasks[t].state == Suspended {
        SetTask(t, x.(resume := Ready), hist[t] + [Ended(result, now)]);
        return Ok;
      }
      ReadyLinks(k, ready, t);
      status := MakeReady(t);
      if status != Ok {
        assert false;
        return;
      }
      SetTask(t, x.(state := Ready), hist[t] + [Ended(result, now)]);
    }

    /** Leave the lists; after a mutex timeout also recompute the owner that was waited for. */
    method LeaveLists(t: Tid, result: Status) returns (status: Status)
      requires Fits() && Core(Model(), {}) && Shape(Model()) && t < |tasks|
      requires result == Timeout ==> Acyclic(Model()) && Boosted(Model())
      modifies `waiters, `prio, ready, timeouts
      ensures Fits() && status == Ok && Core(Model(), {t}) && Model() == Left(old(Model()), t, result)
    {
      hide Fits, Model, Core, Acyclic, Boosted, KernelModel.Recompute, Shape, Detach, WaitOk, ReadyOk, OwnOk;
      ghost var k := Model();
      Fields();
      CoreParts(k, {});
      status := DetachTask(t);
      if status != Ok {
        assert false;
        return;
      }
      DetachFrame(k, t);
      DetachCore(k, t);
      Fields();
      if result == Timeout && tasks[t].wait.On? && tasks[t].wait.list.MutexWaiters? {
        var m := tasks[t].wait.list.m;
        WaitedOwner(k, t, m);
        if m in mutexes && mutexes[m].owner.Some? {
          var o := mutexes[m].owner.value;
          ExpireMutexMiddle(k, t, m, o);
          var _ := Recompute(o, 0, {t});
        }
      }
    }

    /** Complete a task's wait. The flag asks for a switch to it. */
    method MakeTaskReady(t: Tid, result: Status) returns (status: Status, woken: bool)
      requires Fits() && Core(Model(), {}) && t < |tasks|
      requires result == Timeout ==> Acyclic(Model()) && Boosted(Model())
      modifies this, ready, timeouts
      ensures Fits() && panicked == old(panicked) && Shape(old(Model()))
      ensures !Waiting(old(tasks)[t]) ==> status == InvalidState && !woken && Model() == old(Model())
      ensures Waiting(old(tasks)[t]) ==>
        status == Ok && Model() == Woken(old(Model()), t, result) && woken == WokenFlag(Model(), t)
    {
      hide Fits, Model, Core, Acyclic, Boosted, Shape, Finish, Left, ReadyOk, WaitOk, OwnOk, Woken;
      ghost var k := Model();
      Parts();
      Fields();
      if !Waiting(tasks[t]) {
        return InvalidState, false;
      }
      WokenIsFinish(k, t, result);
      status := LeaveLists(t, result);
      if status != Ok {
        assert false;
        return status, false;
      }
      CoreParts(Model(), {t});
      Fields();
      status := FinishTask(t, result);
      Fields();
      woken := Preempts(t);
    }

    /** Whether a task that has just become ready calls for a switch. */
    method Preempts(t: Tid) returns (yes: bool)
      ensures yes == WokenFlag(Model(), t)
    {
      yes := t < |tasks| && tasks[t].state == Ready && current < |tasks| && tasks[current].state == Running
          && Eff(prio, t) < Eff(prio, current);
    }

    // -------------------------------------------------------------------------
    // Mutexes
    // -------------------------------------------------------------------------

    method SetMutex(m: nat, x: Mutex)
      requires Fits()
      modifies `mutexes
      ensures Fits() && Model() == old(Model()).(mutexes := old(mutexes)[m := x])
    {
      hide RingsFit, DualOk, Absolute, T.TimeoutList.Valid, R.ReadySet.Valid;
      mutexes := mutexes[m := x];
    }

    /** Record a new owner of a free mutex. */
    method Attach(m: nat, t: Tid) returns (status: Status)
      requires Fits() && OwnOk(Model()) && t < |tasks| && m in mutexes && mutexes[m].owner.None?
      modifies `mutexes, `owned
      ensures Fits() && Shape(old(Model())) && status == Ok && Model() == AttachOwner(old(Model()), m, t)
    {
      hide RingsFit, DualOk, Absolute, T.TimeoutList.Valid, R.ReadySet.Valid, OwnOk;
      owned := owned[t := owned[t] + [m]];
      mutexes := mutexes[m := mutexes[m].(owner := Some(t), count := 1)];
      status := Ok;
    }

    /** Clear the owner of a mutex. */
    method DetachMutex(m: nat) returns (status: Status)
      requires Fits() && OwnOk(Model()) && m in mutexes && mutexes[m].owner.Some?
      modifies `mutexes, `owned
      ensures Fits() && Shape(old(Model())) && status == Ok
      ensures old(mutexes)[m].owner.value < |tasks| && Model() == DetachOwner(old(Model()), m,
        old(mutexes)[m].owner.value)
    {
      hide RingsFit, DualOk, Absolute, T.TimeoutList.Valid, R.ReadySet.Valid, Without;
      assert MutexOf(Model(), m) == mutexes[m];
      var t := mutexes[m].owner.value;
      if t >= |owned| || m !in owned[t] {
        assert false;
        return Internal;
      }
      owned := owned[t := Without(owned[t], m)];
      mutexes := mutexes[m := mutexes[m].(owner := None, count := 0)];
      status := Ok;
    }

    /** Wait behind the owner. If the recomputation meets its depth bound the wait is taken back. */
    method LockWaiting(m: nat, timeout: Word32) returns (o: Outcome)
      requires Fits() && Good(Model()) && m in mutexes && mutexes[m].owner.Some? && mutexes[m].owner.value != current
      requires timeout != NO_WAIT && Shape(Model())
      modifies this, ready, timeouts
      ensures Fits() && panicked == old(panicked)
      ensures (Model(), o) == KernelModel.Lock(old(Model()), m, timeout)
    {
      hide Fits, Model, Inv, Base, Core, KernelModel.Recompute, Shape, BlockOn, Wake, MayBlock, ExpireOne;
      ghost var k := Model();
      Parts();
      Fields();
      var owner := mutexes[m].owner.value;
      LockFacts(k, m);
      var status := BlockCurrent(MutexWaiters(m), timeout, []);
      if status != Ok {
        return Done(status);
      }
      QueuedFacts(k, m, timeout);
      Fields();
      var ok := Recompute(owner, 0, {});
      Fields();
      if !ok {
        var _, _ := MakeTaskReady(current, Internal);
      }
      RequestSwitch(true);
      Fields();
      o := Outcome(Ok, true, []);
    }

    /** Lock a mutex: take it, count a recursive lock, refuse, or wait. */
    method Lock(m: nat, timeout: Word32) returns (o: Outcome)
      requires Fits() && Good(Model()) && Shape(Model())
      modifies this, ready, timeouts
      ensures Fits() && panicked == old(panicked)
      ensures (Model(), o) == KernelModel.Lock(old(Model()), m, timeout)
    {
      hide Fits, Model, Good, LockBlocking, AttachOwner, Shape;
      ghost var k := Model();
      Parts();
      Fields();
      if m !in mutexes {
        return Done(InvalidArgument);
      }
      var mx := mutexes[m];
      if mx.owner.None? {
        GoodOwn(k);
        var status := Attach(m, current);
        Fields();
        return Done(status);
      }
      if mx.owner.value == current {
        if !mx.recursive {
          return Done(MutexBusy);
        }
        if mx.count == UINT32_MAX {
          return Done(Overflow);
        }
        SetMutex(m, mx.(count := mx.count + 1));
        Fields();
        return Done(Ok);
      }
      if timeout == NO_WAIT {
        return Done(MutexBusy);
      }
      o := LockWaiting(m, timeout);
    }

    /** Give a free mutex to its first waiter, wake it, and recompute both parties. */
    method PassOn(m: nat, w: Tid, ghost k: Kernel) returns (woken: bool)
      requires Fits() && Inv(k, {}) && Shape(k) && Model() == DetachOwner(k, m, k.current) && w < |tasks|
      requires w < |k.tasks| && k.current != w && w != IDLE && k.current != IDLE && m in k.mutexes
      requires MutexOf(k, m).owner == Some(k.current) && k.tasks[w].wait == On(MutexWaiters(m)) && Waiting(k.tasks[w])
      modifies this, ready, timeouts
      ensures Fits() && panicked == old(panicked)
      ensures (Model(), woken, true) == HandOver(DetachOwner(k, m, k.current), m, w)
    {
      hide Fits, Model, Inv, Core, KernelModel.Recompute, Shape, Wake, ExpireOne, AttachOwner, DetachOwner, WokenFlag;
      ghost var k1 := Model();
      Parts();
      Fields();
      PassFacts(k, m, w);
      AttachFree(m, w, k);
      Fields();
      Parts();
      var status;
      status, woken := MakeTaskReady(w, Ok);
      Fields();
      var ok := Recompute(current, 0, {});
      if !ok {
        assert false;
        return;
      }
      Fields();
      ok := Recompute(w, 0, {});
      if !ok {
        assert false;
        return;
      }
    }

    /** Attach a waiter to a mutex that has just lost its owner. */
    method AttachFree(m: nat, w: Tid, ghost k: Kernel)
      requires Fits() && Shape(k) && Model() == DetachOwner(k, m, k.current) && w < |tasks| && m in k.mutexes
      modifies `mutexes, `owned
      ensures Fits() && Shape(old(Model())) && Model() == AttachOwner(old(Model()), m, w)
    {
      hide RingsFit, DualOk, Absolute, T.TimeoutList.Valid, R.ReadySet.Valid;
      if m !in mutexes || mutexes[m].owner.Some? {
        assert false;
        return;
      }
      owned := owned[w := owned[w] + [m]];
      mutexes := mutexes[m := mutexes[m].(owner := Some(w), count := 1)];
    }

    /** Whether the running task should give way. */
    method CurrentShouldPreempt() returns (yes: bool)
      requires Fits()
      ensures yes <==> ShouldPreempt'(Model())
    {
      hide DualOk, Absolute, T.TimeoutList.Valid;
      if tasks[current].state != Running {
        return false;
      }
      R.LevelIsBest(ready.queues, 0);
      var best := ready.PeekHighest();
      yes := best.Some? && Eff(prio, best.value) < prio[current].eff;
    }

    /** Release a mutex that has no waiter. */
    method Release(m: nat) returns (o: Outcome)
      requires Fits() && Good(Model()) && Shape(Model()) && m in mutexes && mutexes[m].owner == Some(current)
      requires WaitersOf(Model(), MutexWaiters(m)) == []
      modifies this, ready
      ensures Fits() && panicked == old(panicked) && o == Done(Ok)
      ensures var k2 := KernelModel.Recompute(DetachOwner(old(Model()), m, old(current)), old(current), 0).0;
        Model() == k2.(pendsv := k2.pendsv || ShouldPreempt'(k2))
    {
      hide Fits, Model, Good, Inv, Core, Shape, KernelModel.Recompute, DetachOwner, ShouldPreempt', OwnOk;
      ghost var k := Model();
      Parts();
      Fields();
      GoodOwn(k);
      ReleaseFacts(k, m);
      var status := DetachMutex(m);
      if status != Ok {
        assert false;
        return Done(status);
      }
      Fields();
      var ok := Recompute(current, 0, {});
      if !ok {
        assert false;
        return Done(Internal);
      }
      Fields();
      var yes := CurrentShouldPreempt();
      RequestSwitch(yes);
      Fields();
      o := Done(Ok);
    }

    /** Unlock a mutex: count down, release, or hand it to the first waiter. */
    method Unlock(m: nat) returns (o: Outcome)
      requires Fits() && Good(Model()) && Shape(Model())
      modifies this, ready, timeouts
      ensures Fits() && panicked == old(panicked)
      ensures (Model(), o) == KernelModel.Unlock(old(Model()), m)
    {
      hide Fits, Model, Good, Inv, Core, Shape, KernelModel.Recompute, HandOver, DetachOwner, ShouldPreempt', OwnOk;
      ghost var k := Model();
      Parts();
      Fields();
      GoodOwn(k);
      if m !in mutexes {
        return Done(InvalidArgument);
      }
      var mx := mutexes[m];
      if mx.owner != Some(current) {
        return Done(NotOwner);
      }
      if mx.recursive && mx.count > 1 {
        SetMutex(m, mx.(count := mx.count - 1));
        Fields();
        return Done(Ok);
      }
      var l := MutexWaiters(m);
      if l !in waiters || waiters[l] == [] {
        ReleaseFacts(k, m);
        o := Release(m);
        return;
      }
      var w := waiters[l][0];
      FirstFacts(k, m);
      if w >= |tasks| {
        assert false;
        return Done(Internal);
      }
      HandToWaiter(m, w, k);
      o := Done(Ok);
    }

    /** Hand a mutex with waiters to the first of them. */
    method HandToWaiter(m: nat, w: Tid, ghost k: Kernel)
      requires Fits() && k == Model() && Good(k) && Shape(k) && m in mutexes && mutexes[m].owner == Some(current)
      requires w < |tasks| && w != current && w != IDLE && current != IDLE && Waiting(tasks[w])
        && tasks[w].wait == On(MutexWaiters(m))
      modifies this, ready, timeouts
      ensures Fits() && panicked == old(panicked)
      ensures var (k2, woken, ok) := HandOver(DetachOwner(k, m, k.current), m, w);
        ok && Model() == k2.(pendsv := k2.pendsv || woken || ShouldPreempt'(k2))
    {
      hide Fits, Model, Good, Inv, Core, Shape, HandOver, DetachOwner, ShouldPreempt', OwnOk;
      Fields();
      GoodOwn(k);
      var status := DetachMutex(m);
      if status != Ok {
        assert false;
        return;
      }
      Fields();
      var woken := PassOn(m, w, k);
      Fields();
      var yes := CurrentShouldPreempt();
      RequestSwitch(woken || yes);
    }

    // -------------------------------------------------------------------------
    // Semaphores
    // -------------------------------------------------------------------------

    method SetSem(s: nat, x: Semaphore)
      requires Fits()
      modifies `sems
      ensures Fits() && Model() == old(Model()).(sems := old(sems)[s := x])
    {
      hide RingsFit, DualOk, Absolute, T.TimeoutList.Valid, R.ReadySet.Valid;
      sems := sems[s := x];
    }

    method NoteIsr(yes: bool)
      requires Fits()
      modifies `isrWoken
      ensures Fits() && Model() == old(Model()).(isrWoken := old(isrWoken) || yes)
    {
      hide RingsFit, DualOk, Absolute, T.TimeoutList.Valid, R.ReadySet.Valid;
      isrWoken := isrWoken || yes;
    }

    method SemTake(s: nat, timeout: Word32) returns (o: Outcome)
      requires Fits() && Good(Model()) && Shape(Model())
      modifies this, ready, timeouts
      ensures Fits() && panicked == old(panicked)
      ensures (Model(), o) == KernelModel.SemTake(old(Model()), s, timeout)
    {
      hide Fits, Model, Good, Inv, Core, Shape, BlockOn, OwnOk;
      ghost var k := Model();
      Fields();
      GoodOwn(k);
      if s !in sems {
        return Done(InvalidArgument);
      }
      var x := sems[s];
      if x.count > 0 {
        SetSem(s, x.(count := x.count - 1, taken := x.taken + 1));
        Fields();
        return Done(Ok);
      }
      if timeout == NO_WAIT {
        return Done(SemaphoreEmpty);
      }
      var status := BlockCurrent(SemWaiters(s), timeout, []);
      if status != Ok {
        return Done(status);
      }
      RequestSwitch(true);
      Fields();
      o := Outcome(Ok, true, []);
    }

    /** Hand the token to the first waiter or store it. */
    method SemGiveLocked(s: nat) returns (status: Status, woken: bool)
      requires Fits() && Core(Model(), {}) && Shape(Model())
      modifies this, ready, timeouts
      ensures Fits() && panicked == old(panicked)
      ensures (Model(), status, woken) == KernelModel.SemGiveLocked(old(Model()), s)
    {
      hide Fits, Model, Core, Shape, Wake, WokenFlag;
      ghost var k := Model();
      Fields();
      if s !in sems {
        return InvalidArgument, false;
      }
      var x := sems[s];
      var l := SemWaiters(s);
      if l in waiters && waiters[l] != [] {
        var w := waiters[l][0];
        FirstWaits(k, l);
        if w >= |tasks| {
          assert false;
          return Internal, false;
        }
        SetSem(s, x.(given := x.given + 1, taken := x.taken + 1));
        Fields();
        ContentsCore(k, Model());
        status, woken := MakeTaskReady(w, Ok);
        return;
      }
      if x.count >= x.max {
        return SemaphoreFull, false;
      }
      SetSem(s, x.(count := x.count + 1, given := x.given + 1));
      Fields();
      return Ok, false;
    }

    method SemGive(s: nat) returns (status: Status)
      requires Fits() && Good(Model()) && Shape(Model())
      modifies this, ready, timeouts
      ensures Fits() && panicked == old(panicked)
      ensures (Model(), status) == KernelModel.SemGive(old(Model()), s)
    {
      hide Fits, Model, Good, Inv, Core, Shape, KernelModel.SemGiveLocked, OwnOk;
      GoodOwn(Model());
      var woken;
      status, woken := SemGiveLocked(s);
      Fields();
      RequestSwitch(woken);
    }

    method SemGiveFromIsr(s: nat) returns (status: Status)
      requires Fits() && Good(Model()) && Shape(Model())
      modifies this, ready, timeouts
      ensures Fits() && panicked == old(panicked)
      ensures (Model(), status) == KernelModel.SemGiveFromIsr(old(Model()), s)
    {
      hide Fits, Model, Good, Inv, Core, Shape, KernelModel.SemGiveLocked, OwnOk;
      GoodOwn(Model());
      var woken;
      status, woken := SemGiveLocked(s);
      Fields();
      NoteIsr(woken);
    }

    // -------------------------------------------------------------------------
    // Queues
    // -------------------------------------------------------------------------

    method PushItem(q: nat, item: Item)
      requires RingsFit() && q in rings && rings[q].count < rings[q].capacity && |item| == rings[q].size
      modifies `queues, rings[q], rings[q].storage
      ensures RingsFit() && q in old(queues)
      ensures var x := old(queues)[q]; queues == old(queues)[q := x.(items := x.items + [item],
        accepted := x.accepted + [item])]
    {
      hide B.RingBuffer.Valid;
      rings[q].Push(item);
      queues := queues[q := queues[q].(items := queues[q].items + [item], accepted := queues[q].accepted + [item])];
    }

    method PopItem(q: nat) returns (item: Item)
      requires RingsFit() && q in rings && rings[q].count > 0
      modifies `queues, rings[q]
      ensures RingsFit() && q in old(queues) && old(queues)[q].items != [] && item == old(queues)[q].items[0]
      ensures var x := old(queues)[q]; queues == old(queues)[q := x.(items := x.items[1..],
        received := x.received + [item])]
    {
      hide B.RingBuffer.Valid;
      assert rings[q].items != [] by { RingNotEmpty(rings[q]); }
      item := rings[q].Pop();
      queues := queues[q := queues[q].(items := queues[q].items[1..], received := queues[q].received + [item])];
    }

    /** Copy an item into the ring of a queue with room. */
    method Store(q: nat, item: Item)
      requires Fits() && q in rings && rings[q].count < rings[q].capacity && |item| == rings[q].size
      modifies `queues, rings[q], rings[q].storage
      ensures Fits() && q in old(queues)
      ensures var x := old(queues)[q];
        Model() == old(Model()).(queues := old(queues)[q := x.(items := x.items + [item],
            accepted := x.accepted + [item])])
    {
      hide RingsFit, DualOk, Absolute, T.TimeoutList.Valid, R.ReadySet.Valid;
      PushItem(q, item);
    }

    /** Copy the oldest item out of the ring of a queue that is not empty. */
    method Fetch(q: nat) returns (item: Item)
      requires Fits() && q in rings && rings[q].count > 0
      modifies `queues, rings[q]
      ensures Fits() && q in old(queues) && old(queues)[q].items != [] && item == old(queues)[q].items[0]
      ensures var x := old(queues)[q];
        Model() == old(Model()).(queues := old(queues)[q := x.(items := x.items[1..], received := x.received + [item])])
    {
      hide RingsFit, DualOk, Absolute, T.TimeoutList.Valid, R.ReadySet.Valid;
      item := PopItem(q);
    }

    /** Record an item that passes from a sender to a waiting receiver. */
    ghost method NoteDelivery(q: nat, item: Item)
      requires Fits() && q in queues
      modifies `queues
      ensures Fits()
      ensures var x := old(queues)[q];
        Model() == old(Model()).(queues := old(queues)[q := x.(accepted := x.accepted + [item],
            received := x.received + [item])])
    {
      hide DualOk, Absolute, T.TimeoutList.Valid, R.ReadySet.Valid, B.RingBuffer.Valid;
      queues := queues[q := queues[q].(accepted := queues[q].accepted + [item],
          received := queues[q].received + [item])];
    }

    /** The counters of a ring say how many items are buffered. */
    lemma RingCounts(q: nat)
      requires Fits() && q in rings
      ensures q in queues && rings[q].count == |queues[q].items| && rings[q].capacity == queues[q].capacity
    {
    }

    lemma SameQueues()
      requires Fits()
      ensures queues.Keys == rings.Keys
    {
    }

    /** Copy an item into the first waiting receiver's buffer and wake it. */
    method WakeReceiver(q: nat, item: Item, ghost k: Kernel) returns (status: Status, woken: bool)
      requires Fits() && k == Model() && Inv(k, {}) && Shape(k) && q in queues && WaitersOf(k, RecvWaiters(q)) != []
      modifies this, ready, timeouts
      ensures Fits() && panicked == old(panicked)
      ensures var w := WaitersOf(k, RecvWaiters(q))[0];
        w < |k.tasks| && status == Ok && Model() == Wake(Delivered(k, q, w, item), w, Ok)
            && woken == WokenFlag(Model(), w)
    {
      hide Fits, Model, Inv, Core, Shape, Wake, WokenFlag;
      Fields();
      var w := waiters[RecvWaiters(q)][0];
      DeliverFacts(k, q, item);
      if w >= |tasks| {
        assert false;
        return Internal, false;
      }
      NoteDelivery(q, item);
      Fields();
      assert hist[w := hist[w]] == hist;
      SetTask(w, tasks[w].(item := item), hist[w]);
      Fields();
      status, woken := MakeTaskReady(w, Ok);
    }

    method SendLocked(q: nat, item: Item, timeout: Word32, mayBlock: bool) returns (o: Outcome, woken: bool)
      requires Fits() && Good(Model()) && Shape(Model()) && (q in rings ==> |item| == rings[q].size)
      modifies this, ready, timeouts, Buffers()
      ensures Fits() && panicked == old(panicked)
      ensures (Model(), o, woken) == KernelModel.SendLocked(old(Model()), q, item, timeout, mayBlock)
    {
      hide Fits, Model, Good, Inv, Core, Shape, Wake, WokenFlag, BlockOn, OwnOk;
      ghost var k := Model();
      Fields();
      GoodOwn(k);
      SameQueues();
      if q !in rings {
        return Done(InvalidArgument), false;
      }
      RingCounts(q);
      if RecvWaiters(q) in waiters && waiters[RecvWaiters(q)] != [] {
        var status;
        status, woken := WakeReceiver(q, item, k);
        return Done(status), woken;
      }
      if rings[q].count < rings[q].capacity {
        Store(q, item);
        Fields();
        return Done(Ok), false;
      }
      if timeout == NO_WAIT {
        return Done(QueueFull), false;
      }
      if !mayBlock {
        return Done(InvalidState), false;
      }
      var status := BlockCurrent(SendWaiters(q), timeout, item);
      if status != Ok {
        return Done(status), false;
      }
      return Outcome(Ok, true, []), false;
    }

    /** Move the first waiting sender's item into the slot that has become free, and wake it. */
    method FillFromSender(q: nat) returns (status: Status, woken: bool)
      requires Fits() && Core(Model(), {}) && Shape(Model()) && q in rings && D.ItemsFit(Model(), Sizes())
      modifies this, ready, timeouts, Buffers()
      ensures Fits() && panicked == old(panicked)
      ensures (Model(), status, woken) == KernelModel.FillFromSender(old(Model()), q)
    {
      hide Fits, Model, Core, Shape, Wake, WokenFlag;
      ghost var k := Model();
      Fields();
      var l := SendWaiters(q);
      if l !in waiters || waiters[l] == [] {
        return Ok, false;
      }
      var w := waiters[l][0];
      RingCounts(q);
      FirstWaits(k, l);
      if w >= |tasks| || rings[q].count >= rings[q].capacity {
        return Internal, false;
      }
      Store(q, tasks[w].item);
      Fields();
      ContentsCore(k, Model());
      status, woken := MakeTaskReady(w, Ok);
    }

    method ReceiveLocked(q: nat, timeout: Word32, mayBlock: bool) returns (o: Outcome, woken: bool)
      requires Fits() && Good(Model()) && Shape(Model()) && D.ItemsFit(Model(), Sizes())
      modifies this, ready, timeouts, Buffers()
      ensures Fits() && panicked == old(panicked)
      ensures (Model(), o, woken) == KernelModel.ReceiveLocked(old(Model()), q, timeout, mayBlock)
    {
      hide Fits, Model, Good, Inv, Core, Shape, KernelModel.FillFromSender, BlockOn, OwnOk;
      ghost var k := Model();
      Fields();
      GoodOwn(k);
      SameQueues();
      if q !in rings {
        return Done(InvalidArgument), false;
      }
      RingCounts(q);
      if rings[q].count > 0 {
        var item := Fetch(q);
        Fields();
        ContentsCore(k, Model());
        Parts();
        var status;
        status, woken := FillFromSender(q);
        return Outcome(status, false, item), woken;
      }
      NobodySends(k, q);
      if SendWaiters(q) in waiters && waiters[SendWaiters(q)] != [] {
        assert false;
        return Done(Internal), false;
      }
      if timeout == NO_WAIT {
        return Done(QueueEmpty), false;
      }
      if !mayBlock {
        return Done(InvalidState), false;
      }
      var status := BlockCurrent(RecvWaiters(q), timeout, []);
      if status != Ok {
        return Done(status), false;
      }
      return Outcome(Ok, true, []), false;
    }

    method Send(q: nat, item: Item, timeout: Word32) returns (o: Outcome)
      requires Fits() && Good(Model()) && Shape(Model()) && (q in rings ==> |item| == rings[q].size)
      modifies this, ready, timeouts, Buffers()
      ensures Fits() && panicked == old(panicked)
      ensures (Model(), o) == KernelModel.Send(old(Model()), q, item, timeout)
    {
      hide Fits, Model, Good, Shape, KernelModel.SendLocked;
      var woken;
      o, woken := SendLocked(q, item, timeout, true);
      Fields();
      RequestSwitch(o.blocked || woken);
    }

    method Receive(q: nat, timeout: Word32) returns (o: Outcome)
      requires Fits() && Good(Model()) && Shape(Model()) && D.ItemsFit(Model(), Sizes())
      modifies this, ready, timeouts, Buffers()
      ensures Fits() && panicked == old(panicked)
      ensures (Model(), o) == KernelModel.Receive(old(Model()), q, timeout)
    {
      hide Fits, Model, Good, Shape, KernelModel.ReceiveLocked;
      var woken;
      o, woken := ReceiveLocked(q, timeout, true);
      Fields();
      RequestSwitch(o.blocked || woken);
    }

    method SendFromIsr(q: nat, item: Item) returns (o: Outcome)
      requires Fits() && Good(Model()) && Shape(Model()) && (q in rings ==> |item| == rings[q].size)
      modifies this, ready, timeouts, Buffers()
      ensures Fits() && panicked == old(panicked)
      ensures (Model(), o) == KernelModel.SendFromIsr(old(Model()), q, item)
    {
      hide Fits, Model, Good, Shape, KernelModel.SendLocked;
      var woken;
      o, woken := SendLocked(q, item, NO_WAIT, false);
      Fields();
      NoteIsr(woken);
    }

    method ReceiveFromIsr(q: nat) returns (o: Outcome)
      requires Fits() && Good(Model()) && Shape(Model()) && D.ItemsFit(Model(), Sizes())
      modifies this, ready, timeouts, Buffers()
      ensures Fits() && panicked == old(panicked)
      ensures (Model(), o) == KernelModel.ReceiveFromIsr(old(Model()), q)
    {
      hide Fits, Model, Good, Shape, KernelModel.ReceiveLocked;
      var woken;
      o, woken := ReceiveLocked(q, NO_WAIT, false);
      Fields();
      NoteIsr(woken);
    }

    // -------------------------------------------------------------------------
    // Task calls
    // -------------------------------------------------------------------------

    method Yield()
      requires Fits() && Good(Model()) && Shape(Model())
      modifies this
      ensures Fits() && panicked == old(panicked) && Model() == YieldCall(old(Model()))
    {
      hide Fits, Model, Good, Shape;
      Parts();
      Fields();
      GoodCurrent(Model());
      if tasks[current].state == Running {
        MarkReason(ByYield);
        Fields();
        RequestSwitch(true);
        Fields();
      }
    }

    method Delay(ticks: Word32) returns (o: Outcome)
      requires Fits() && Good(Model()) && Shape(Model())
      modifies this, ready, timeouts
      ensures Fits() && panicked == old(panicked)
      ensures (Model(), o) == DelayCall(old(Model()), ticks)
    {
      hide Fits, Model, Good, Inv, Core, Shape, DelayFor, YieldCall, OwnOk;
      if ticks == 0 {
        Yield();
        return Done(Ok);
      }
      if ticks == WAIT_FOREVER {
        return Done(InvalidArgument);
      }
      GoodOwn(Model());
      var status := DelayCurrent(ticks);
      if status != Ok {
        return Done(status);
      }
      RequestSwitch(true);
      Fields();
      o := Outcome(Ok, true, []);
    }

    /** Delay until the wrapped tick `last + period`, and advance the caller's reference. */
    method DelayUntil(last: Word32, period: Word32) returns (o: Outcome, last': Word32)
      requires Fits() && Good(Model()) && Shape(Model())
      modifies this, ready, timeouts
      ensures Fits() && panicked == old(panicked)
      ensures (Model(), o, last') == DelayUntilCall(old(Model()), last, period)
    {
      hide Fits, Model, Good, Inv, Core, Shape, DelayFor, OwnOk;
      Parts();
      Fields();
      if period == 0 || period > INT32_MAX {
        return Done(InvalidArgument), last;
      }
      var next: Word32 := (last + period) % TICK_RANGE;
      var remaining: Word32 := (next - tick) % TICK_RANGE;
      if remaining == 0 || remaining > INT32_MAX {
        return Done(Ok), next;
      }
      GoodOwn(Model());
      var status := DelayCurrent(remaining);
      if status != Ok {
        return Done(status), last;
      }
      RequestSwitch(true);
      Fields();
      return Outcome(Ok, true, []), next;
    }

    /** Take a task out of scheduling: out of the ready set, or out of the end of its wait. */
    method SuspendTask(t: Tid)
      requires Fits() && Inv(Model(), {}) && Shape(Model()) && t < |tasks| && tasks[t].state != Suspended
      modifies `tasks, `hist, ready
      ensures Fits() && Model() == SuspendedTask(old(Model()), t)
    {
      hide Fits, Model, Inv, Shape, OnlyReady, T.HasNode;
      ghost var k := Model();
      Parts();
      Fields();
      SuspendFacts(k, t);
      var x := tasks[t];
      assert hist[t := hist[t]] == hist;
      if x.state == Blocked {
        SetTask(t, x.(state := Suspended, resume := Blocked), hist[t]);
        return;
      }
      RunningOnlyReady(t);
      Linked(t);
      var status := Unready(t);
      if status != Ok {
        assert false;
        return;
      }
      SetTask(t, x.(state := Suspended, resume := Ready, slice := if x.state == Running then TIME_SLICE_TICKS
          else x.slice), hist[t]);
    }

    lemma Linked(t: Tid)
      requires Fits() && OnlyReady(t)
      ensures t < |tasks| && t < |prio| && prio[t].eff < |ready.queues| && t in ready.queues[prio[t].eff]
    {
    }

    method Suspend(t: Tid) returns (status: Status)
      requires Fits() && Good(Model()) && Shape(Model())
      modifies this, ready
      ensures Fits() && panicked == old(panicked)
      ensures (Model(), status) == SuspendCall(old(Model()), t)
    {
      hide Fits, Model, Good, Inv, Core, Shape, SuspendedTask, OwnOk;
      Fields();
      GoodOwn(Model());
      if t >= |tasks| {
        return InvalidArgument;
      }
      if t == IDLE {
        return InvalidState;
      }
      match tasks[t].state {
        case Ready => SuspendTask(t);
        case Blocked => SuspendTask(t);
        case Running =>
          if t != current {
            return InvalidState;
          }
          SuspendTask(t);
          Fields();
          MarkReason(ByBlock);
          RequestSwitch(true);
          Fields();
        case _ => return InvalidState;
      }
      status := Ok;
    }

    /** Put a suspended task back into the state it was suspended in. */
    method ResumeTask(t: Tid) returns (status: Status)
      requires Fits() && ReadyOk(Model()) && Shape(Model()) && t < |tasks| && tasks[t].state == Suspended
      modifies `tasks, `hist, ready
      ensures Fits() && status == Ok && Model() == Resumed(old(Model()), t)
    {
      hide Fits, Model, ReadyOk, R.ReadySet.Valid;
      ghost var k := Model();
      Parts();
      Fields();
      assert hist[t := hist[t]] == hist;
      if tasks[t].resume == Blocked {
        SetTask(t, tasks[t].(state := Blocked, resume := Invalid), hist[t]);
        return Ok;
      }
      ReadyLinks(k, ready, t);
      status := MakeReady(t);
      if status != Ok {
        assert false;
        return;
      }
      SetTask(t, tasks[t].(state := Ready, resume := Invalid, slice := TIME_SLICE_TICKS), hist[t]);
    }

    method Resume(t: Tid) returns (status: Status)
      requires Fits() && Good(Model()) && Shape(Model())
      modifies this, ready
      ensures Fits() && panicked == old(panicked)
      ensures (Model(), status) == ResumeCall(old(Model()), t)
    {
      hide Fits, Model, Good, Inv, Core, Shape, Resumed, OwnOk, ReadyOk, WaitOk, WokenFlag, ResumeCall;
      Fields();
      GoodOwn(Model());
      CoreParts(Model(), {});
      ResumeCases(Model(), t);
      if t >= |tasks| {
        return InvalidArgument;
      }
      if t == IDLE || tasks[t].state != Suspended {
        return InvalidState;
      }
      if tasks[t].resume != Blocked && tasks[t].resume != Ready {
        return Internal;
      }
      status := ResumeTask(t);
      if status != Ok {
        assert false;
        return;
      }
      var woken := Preempts(t);
      if woken {
        Fields();
        MarkReason(ByPreempt);
        Fields();
        RequestSwitch(true);
      }
    }

    // -------------------------------------------------------------------------
    // The tick
    // -------------------------------------------------------------------------

    /** Move the counter and take the expired nodes out of the timeout list. */
    method AdvanceTime() returns (expired: seq<nat>)
      requires Fits() && Shape(Model())
      modifies `tick, `now, timeouts
      ensures Fits() && Model() == Advanced(old(Model())) && expired == DueIds(old(Model()).timeouts, old(now) + 1)
    {
      hide RingsFit, DualOk, Absolute, T.TimeoutList.Valid, R.ReadySet.Valid, DualAdvance, NotDue, DueIds;
      ghost var d := timeouts.Model();
      AdvanceRefines(d, now);
      AdvanceKeepsTick(d, (now + 1) % TICK_RANGE);
      tick := (tick + 1) % TICK_RANGE;
      now := now + 1;
      expired := timeouts.Advance(tick);
    }

    method WakeOne(t: Tid, result: Status) returns (status: Status)
      requires Fits() && Core(Model(), {}) && t < |tasks| && Waiting(tasks[t])
      requires result == Timeout ==> Acyclic(Model()) && Boosted(Model())
      modifies this, ready, timeouts
      ensures Fits() && panicked == old(panicked) && Shape(old(Model()))
      ensures status == Ok && Model() == Woken(old(Model()), t, result)
    {
      hide Fits, Model, Core, Acyclic, Boosted, Woken;
      var woken;
      status, woken := MakeTaskReady(t, result);
    }

    /** Stop the kernel if a check has failed. */
    method StopUnless(ok: bool)
      requires Fits()
      modifies `panicked
      ensures Fits() && Model() == old(Model()) && panicked == (old(panicked) || !ok)
    {
      panicked := panicked || !ok;
    }

    /** Wake one expired task. All the checks that would stop the kernel are dead. */
    method Expire(t: Tid, ghost y: set<Tid>)
      requires Fits() && Inv(Model(), y) && Shape(Model()) && t in y && t < |tasks| && Waiting(tasks[t])
      modifies this, ready, timeouts
      ensures Fits() && panicked == old(panicked) && Model() == ExpireOne(old(Model()), t)
    {
      hide Fits, Model, Inv, Core, Shape, Wake, ExpireOne, Acyclic, Boosted;
      ghost var k := Model();
      Fields();
      ExpireFacts(k, t, y);
      var status := Internal;
      if tasks[t].wait.Delay? {
        status := WakeOne(t, Ok);
      } else if tasks[t].wait.On? {
        status := WakeOne(t, Timeout);
      }
      StopUnless(status == Ok);
    }

    /** Wake every task whose deadline is the new tick, in order. */
    method ExpireTimeouts()
      requires Fits() && Inv(Model(), {}) && Shape(Model())
      modifies this, ready, timeouts
      ensures Fits() && panicked == old(panicked) && Model() == TickTimeouts(old(Model()))
    {
      hide Fits, Model, Inv, Shape, ExpireOne, DueIds, NotDue;
      ghost var k := Model();
      AdvanceInv(k);
      Fields();
      var expired := AdvanceTime();
      Parts();
      assert expired[0..] == expired;
      var i := 0;
      while i < |expired|
        invariant 0 <= i <= |expired| && Fits() && panicked == old(panicked) && Shape(Model())
        invariant Inv(Model(), Ids(expired[i..])) && AllWaiting(Model(), expired[i..]) && Distinct(expired)
        invariant ExpireAll(Model(), expired[i..]) == TickTimeouts(k)
      {
        ghost var before := Model();
        Fields();
        ExpireStep(before, expired[i..]);
        assert expired[i..][1..] == expired[i + 1..];
        Expire(expired[i], Ids(expired[i..]));
        Parts();
        i := i + 1;
      }
      assert expired[i..] == [];
    }

    method MarkSlice(slice: nat, rs: set<Reason>)
      requires Fits() && current < |tasks|
      modifies `tasks, `reasons
      ensures Fits()
      ensures Model() == old(Model()).(tasks := old(tasks)[current := old(tasks)[current].(slice := slice)],
        reasons := old(reasons) + rs)
    {
      hide RingsFit, DualOk, Absolute, T.TimeoutList.Valid, R.ReadySet.Valid;
      tasks := tasks[current := tasks[current].(slice := slice)];
      reasons := reasons + rs;
    }

    /** Time slicing of the running task, when no switch is due for another reason. */
    method TimeSlice() returns (elapsed: bool)
      requires Fits() && ReadyOk(Model()) && Shape(Model()) && tasks[current].state == Running
      modifies `tasks, `reasons
      ensures Fits() && Model() == Sliced(old(Model())) && elapsed == SliceElapsed(old(Model()))
    {
      hide Fits, Model, ReadyOk, R.ReadySet.Valid;
      ghost var k := Model();
      Parts();
      Fields();
      ReadyLinks(k, ready, current);
      var x := tasks[current];
      var peer := ready.HasEqualPriorityPeer(current, prio[current].eff);
      var slice := TIME_SLICE_TICKS;
      elapsed := false;
      if peer {
        slice := if x.slice > 0 then x.slice - 1 else 0;
        if slice == 0 {
          slice := TIME_SLICE_TICKS;
          elapsed := true;
        }
      }
      MarkSlice(slice, if elapsed then {BySlice} else {});
    }

    /** The end of the tick: preemption, then time slicing. */
    method TickEnd(woken: bool)
      requires Fits() && ReadyOk(Model()) && Shape(Model())
      modifies this
      ensures Fits() && panicked == old(panicked) && Model() == TickTail(old(Model()), woken)
    {
      hide Fits, Model, ReadyOk, Shape, TickTail, ShouldPreempt', Sliced, SliceElapsed;
      ghost var k := Model();
      Fields();
      TailCases(k, woken);
      if tasks[current].state != Running {
        RequestSwitch(woken);
        return;
      }
      var preempt := CurrentShouldPreempt();
      if preempt {
        MarkReason(ByPreempt);
        Fields();
        RequestSwitch(true);
      } else if woken {
        RequestSwitch(true);
      } else {
        var elapsed := TimeSlice();
        Fields();
        RequestSwitch(elapsed);
      }
    }

    /** SysTick. `fired` says whether a software timer expired at this tick. */
    method Tick(fired: bool)
      requires Fits() && Good(Model()) && Shape(Model())
      modifies this, ready, timeouts
      ensures Fits() && panicked == old(panicked) && Model() == KernelModel.Tick(old(Model()), fired)
    {
      hide Fits, Model, Good, Inv, Core, Shape, TickTimeouts, KernelModel.SemGiveLocked, TickTail, OwnOk, ReadyOk,
           WaitOk;
      ghost var k := Model();
      Parts();
      GoodOwn(k);
      TickTimeoutsInv(k);
      ExpireTimeouts();
      Parts();
      InvCore(Model());
      var woken := false;
      if fired {
        GiveLockedInv(Model(), TIMER_SIGNAL);
        var status;
        status, woken := SemGiveLocked(TIMER_SIGNAL);
        Parts();
        InvCore(Model());
      }
      CoreParts(Model(), {});
      TickEnd(woken);
    }

    // -------------------------------------------------------------------------
    // PendSV
    // -------------------------------------------------------------------------

    method TakeReasons() returns (why: set<Reason>)
      requires Fits()
      modifies `reasons, `pendsv
      ensures Fits() && why == old(reasons) && Model() == old(Model()).(reasons := {}, pendsv := false)
    {
      hide RingsFit, DualOk, Absolute, T.TimeoutList.Valid, R.ReadySet.Valid;
      why := reasons;
      reasons := {};
      pendsv := false;
    }

    /** Rotate the level of the running task, which heads the best level. */
    method Rotate() returns (status: Status)
      requires Fits() && ReadyOk(Model()) && BasesOk(Model()) && Highest(Model()) == Some(current)
      modifies ready
      ensures Fits() && Shape(old(Model())) && status == Ok
        && Model() == old(Model()).(ready := RotatedReady(old(Model())))
    {
      hide RingsFit, DualOk, Absolute, T.TimeoutList.Valid, R.ReadySet.Valid, ReadyOk;
      RotateFacts(Model());
      status := ready.YieldCurrent(current);
    }

    /** Acknowledge the request; after a yield or an elapsed slice, rotate first. */
    method Acknowledge() returns (ok: bool)
      requires Fits() && ReadyOk(Model()) && BasesOk(Model()) && Shape(Model())
      modifies this, ready
      ensures Fits() && panicked == old(panicked) && ok && Model() == BeforeChoice(old(Model()))
    {
      hide Fits, Model, ReadyOk, BasesOk, RotatedReady, Highest, BeforeChoice;
      ghost var k := Model();
      Fields();
      HighestIsBest(k);
      BeforeChoiceIs(k);
      var why := TakeReasons();
      Fields();
      AcknowledgeFacts(k, Model());
      if tasks[current].state == Running {
        var selected := BestReady();
        if selected == Some(current) && (ByYield in why || BySlice in why) {
          if ByYield in why {
            MarkSlice(TIME_SLICE_TICKS, {});
            Fields();
            AcknowledgeFacts(k, Model());
          }
          var status := Rotate();
          if status != Ok {
            assert false;
            return false;
          }
        }
      }
      ok := true;
    }

    method BestReady() returns (t: Option<Tid>)
      requires Fits()
      ensures t == Highest(Model())
    {
      t := ready.PeekHighest();
    }

    method SetCurrent(states: seq<Task>, next: Tid)
      requires Fits() && |states| == |tasks| && next < |tasks|
      modifies `tasks, `current
      ensures Fits() && Model() == old(Model()).(tasks := states, current := next)
    {
      hide RingsFit, DualOk, Absolute, T.TimeoutList.Valid, R.ReadySet.Valid;
      tasks := states;
      current := next;
    }

    /** Switch to the oldest task of the best level. */
    method SwitchToBest() returns (ok: bool)
      requires Fits() && ReadyOk(Model()) && BasesOk(Model()) && Shape(Model()) && OnlyCurrentRuns(Model())
      modifies this
      ensures Fits() && panicked == old(panicked) && ok && Model() == Choose(old(Model()))
    {
      hide Fits, Model, ReadyOk, BasesOk, Highest;
      ghost var k := Model();
      Fields();
      HighestIsBest(k);
      var best := BestReady();
      if best == None {
        assert false;
        return false;
      }
      var next := best.value;
      if next >= |tasks| {
        assert false;
        return false;
      }
      var states := tasks;
      if next != current {
        if states[next].state != Ready {
          assert false;
          return false;
        }
        if states[current].state == Running {
          states := states[current := states[current].(state := Ready)];
        }
        states := states[next := states[next].(state := Running)];
      } else if states[current].state == Ready {
        states := states[current := states[current].(state := Running)];
      }
      SetCurrent(states, next);
      ChooseIs(k, states, next);
      ok := true;
    }

    /** Select the next task to run. */
    method SelectNext()
      requires Fits() && Good(Model()) && Shape(Model())
      modifies this, ready
      ensures Fits() && panicked == old(panicked) && Model() == PendSV(old(Model()))
    {
      hide Fits, Model, Good, Inv, Shape, BeforeChoice, Choose, ReadyOk, BasesOk;
      ghost var k := Model();
      Fields();
      SelectFacts(k);
      var ok := Acknowledge();
      Parts();
      SelectFacts(k);
      var chosen := SwitchToBest();
      StopUnless(ok && chosen);
    }

    method ReturnFromIsr()
      requires Fits() && Shape(Model())
      modifies this
      ensures Fits() && panicked == old(panicked) && Model() == Apply(old(Model()), IsrReturn)
    {
      hide RingsFit, DualOk, Absolute, T.TimeoutList.Valid, R.ReadySet.Valid;
      pendsv := pendsv || isrWoken;
      isrWoken := false;
    }

    // -------------------------------------------------------------------------
    // Every call
    // -------------------------------------------------------------------------

    /** Any step of the system: the kernel in memory follows the model and is never stopped. */
    method Perform(step: Step)
      requires Fits() && Good(Model()) && Shape(Model()) && Allowed(Model(), step) && Words(step) && !panicked
      requires D.ItemsFit(Model(), Sizes()) && D.StepFits(step, Sizes())
      modifies this, ready, timeouts, Buffers()
      ensures Fits() && Good(Model()) && D.ItemsFit(Model(), Sizes()) && !panicked
        && Model() == Apply(old(Model()), step)
    {
      hide Fits, Model, Good, Shape, Allowed, YieldCall, DelayCall, DelayUntilCall, SuspendCall, ResumeCall,
           KernelModel.Lock, KernelModel.Unlock,
           KernelModel.SemTake, KernelModel.SemGive, KernelModel.Send, KernelModel.Receive, KernelModel.SemGiveFromIsr,
               KernelModel.SendFromIsr,
           KernelModel.ReceiveFromIsr, KernelModel.Tick, PendSV, D.ItemsFit;
      StepGood(Model(), step);
      D.StepItemsFit(Model(), step, Sizes());
      match step {
        case DoYield => Yield();
        case DoDelay(ticks) => var _ := Delay(ticks);
        case DoDelayUntil(last, period) => var _, _ := DelayUntil(last, period);
        case DoSuspend(t) => var _ := Suspend(t);
        case DoResume(t) => var _ := Resume(t);
        case DoLock(m, timeout) => var _ := Lock(m, timeout);
        case DoUnlock(m) => var _ := Unlock(m);
        case DoTake(s, timeout) => var _ := SemTake(s, timeout);
        case DoGive(s) => var _ := SemGive(s);
        case DoSend(q, item, timeout) => var _ := Send(q, item, timeout);
        case DoReceive(q, timeout) => var _ := Receive(q, timeout);
        case IsrGive(s) => var _ := SemGiveFromIsr(s);
        case IsrSend(q, item) => var _ := SendFromIsr(q, item);
        case IsrReceive(q) => var _ := ReceiveFromIsr(q);
        case IsrReturn => ReturnFromIsr();
        case SysTick(fired) => Tick(fired);
        case ContextSwitch => SelectNext();
      }
    }

    /** Any run: the kernel in memory goes through the states of the model. */
    method PerformAll(steps: seq<Step>)
      requires Fits() && Good(Model()) && Shape(Model()) && Admissible(Model(), steps) && !panicked
      requires D.ItemsFit(Model(), Sizes()) && forall step :: step in steps ==> Words(step) && D.StepFits(step, Sizes())
      modifies this, ready, timeouts, Buffers()
      ensures Fits() && Good(Model()) && !panicked && Model() == Run(old(Model()), steps)
    {
      hide Fits, Model, Good, Shape, Allowed, Apply, D.ItemsFit, D.StepFits, Words;
      ghost var k := Model();
      var i := 0;
      assert steps[0..] == steps;
      while i < |steps|
        invariant 0 <= i <= |steps| && Fits() && Good(Model()) && Shape(Model()) && !panicked
        invariant D.ItemsFit(Model(), Sizes())
        invariant Admissible(Model(), steps[i..]) && Run(Model(), steps[i..]) == Run(k, steps)
      {
        assert steps[i..][0] == steps[i] && steps[i..][1..] == steps[i + 1..];
        Perform(steps[i]);
        Parts();
        i := i + 1;
      }
      assert steps[i..] == [];
    }

    /** The bytes in the ring of a queue are what it accepted and has not delivered, oldest first. */
    lemma RingIsFifo(q: nat)
      requires Fits() && Good(Model()) && q in rings
      ensures q in queues && queues[q].accepted == queues[q].received + rings[q].items
      ensures rings[q].count == |rings[q].items|
      ensures B.RingIs(rings[q].storage[..], rings[q].size, rings[q].capacity, rings[q].head, rings[q].items)
    {
      hide B.RingIs, Core, TimeoutOk, EpisodesOk, SemsOk, Acyclic, Boosted, OnlyCurrentRuns, Prompt, DualOk, Absolute,
           T.TimeoutList.Valid, R.ReadySet.Valid;
      assert QueueOf(Model(), q) == queues[q];
    }

    // -------------------------------------------------------------------------
    // Start-up
    // -------------------------------------------------------------------------

    /** Create and register a task before the kernel starts. */
    method Register(priority: nat) returns (status: Status)
      requires Fits() && Quiet(Model()) && Shape(Model())
      modifies this, ready
      ensures Fits() && panicked == old(panicked) && (Model(), status) == KernelModel.Register(old(Model()), priority)
    {
      hide Fits, Model, Quiet, R.ReadySet.Valid;
      ghost var k := Model();
      Parts();
      Fields();
      if priority >= PRIORITY_COUNT {
        return InvalidArgument;
      }
      if |tasks| >= MAX_TASKS {
        return NoMemory;
      }
      if priority == IDLE_PRIORITY {
        return InvalidArgument;
      }
      RegisterFacts(k, ready);
      status := AddTask(priority);
    }

    /** Append the control block of a new task and make it ready. */
    method AddTask(priority: nat) returns (status: Status)
      requires Fits() && priority < PRIORITY_COUNT && |tasks| !in ready.home
      modifies `tasks, `prio, `owned, `hist, ready
      ensures Fits() && status == Ok
      ensures var k := old(Model());
        && |k.ready| == PRIORITY_COUNT
        && Model() == k.(
             tasks := k.tasks + [Task(Ready, Invalid, NoWait, [], Ok, TIME_SLICE_TICKS)],
                 prio := k.prio + [Prio(priority, priority)],
             owned := k.owned + [[]], hist := k.hist + [[]],
                 ready := k.ready[priority := k.ready[priority] + [|k.tasks|]])
    {
      hide RingsFit, DualOk, Absolute, T.TimeoutList.Valid, R.ReadySet.Valid;
      status := ready.Insert(|tasks|, priority);
      tasks := tasks + [Task(Ready, Invalid, NoWait, [], Ok, TIME_SLICE_TICKS)];
      prio := prio + [Prio(priority, priority)];
      owned := owned + [[]];
      hist := hist + [[]];
    }

    /** Select the first task and start. */
    method Start()
      requires Fits() && Quiet(Model()) && Shape(Model())
      modifies this
      ensures Fits() && panicked == old(panicked) && Good(Model()) && Model() == Choose(old(Model()))
    {
      hide Fits, Model, Quiet, Good, Shape, ReadyOk, BasesOk, Choose;
      ghost var k := Model();
      StartFacts(k);
      var ok := SwitchToBest();
    }
  }

  lemma RingNotEmpty(r: B.RingBuffer)
    requires r.Valid() && r.count > 0
    ensures r.items != []
  {
  }

  /** Times are 32-bit words. */
  predicate Words(step: Step) {
    match step
    case DoDelay(ticks) => ticks < TICK_RANGE
    case DoLock(_, timeout) => timeout < TICK_RANGE
    case DoTake(_, timeout) => timeout < TICK_RANGE
    case DoSend(_, _, timeout) => timeout < TICK_RANGE
    case DoReceive(_, timeout) => timeout < TICK_RANGE
    case _ => true
  }

  lemma NotHome(r: R.ReadySet, t: Tid)
    requires r.Valid() && forall p: nat :: p < |r.queues| ==> t !in r.queues[p]
    ensures t !in r.home
  {
    if t in r.home {
      HomeIsQueue(r, t);
    }
  }

  lemma HomeIsQueue(r: R.ReadySet, t: Tid)
    requires r.Valid() && t in r.home
    ensures exists p: nat :: p < |r.queues| && t in r.queues[p]
  {
    assert t in r.queues[r.home[t]];
  }

  lemma RegisterFacts(k: Kernel, r: R.ReadySet)
    requires Quiet(k) && Shape(k) && r.Valid() && k.ready == r.queues
    ensures |k.tasks| !in r.home
  {
    hide Inv, Exact;
    QuietFacts(k);
    var t: Tid := |k.tasks|;
    forall p: nat | p < |k.ready|
      ensures t !in k.ready[p]
    {
    }
    NotHome(r, t);
  }

  lemma StartFacts(k: Kernel)
    requires Quiet(k) && Shape(k)
    ensures ReadyOk(k) && BasesOk(k) && OnlyCurrentRuns(k) && Good(Choose(k))
  {
    hide Inv, Exact, FreshObjects, Choose, ReadyOk, BasesOk;
    QuietFacts(k);
    ChoiceInv(k);
  }

  lemma SameTask(s: seq<Task>, t: Tid)
    requires t < |s|
    ensures s[t := s[t].(slice := s[t].slice)] == s
  {
  }

  lemma BeforeChoiceIs(k: Kernel)
    requires Shape(k)
    ensures var c := k.current;
      var byYield, bySlice := ByYield in k.reasons, BySlice in k.reasons;
      var k1 := k.(reasons := {}, pendsv := false);
      && k.tasks == k.tasks[c := k.tasks[c].(slice := k.tasks[c].slice)]
      && BeforeChoice(k) ==
           if k.tasks[c].state == Running && Highest(k) == Some(c) && (byYield || bySlice)
           then k1.(tasks := if byYield then k.tasks[c := k.tasks[c].(slice := TIME_SLICE_TICKS)] else k.tasks,
                    ready := RotatedReady(k))
           else k1
  {
    hide RotatedReady, Highest;
    SameTask(k.tasks, k.current);
  }

  /** What the scheduler sees does not change while a request is acknowledged. */
  lemma AcknowledgeFacts(k: Kernel, k': Kernel)
    requires ReadyOk(k) && BasesOk(k) && |k'.tasks| == |k.tasks| && k.current < |k.tasks|
    requires k' == k.(tasks := k.tasks[k.current := k.tasks[k.current].(slice := k'.tasks[k.current].slice)],
      reasons := k'.reasons, pendsv := k'.pendsv)
    ensures ReadyOk(k') && BasesOk(k') && Highest(k') == Highest(k) && RotatedReady(k') == RotatedReady(k)
  {
    hide Distinct;
  }

  lemma RotateFacts(k: Kernel)
    requires ReadyOk(k) && BasesOk(k) && Highest(k) == Some(k.current)
    ensures BestFrom(k.ready, 0) == Some(k.current)
    ensures var p := R.Level(k.ready, 0); p < |k.ready| && RotatedReady(k) == k.ready[p := R.RotatedOnce(k.ready[p])]
  {
    R.LevelIsBest(k.ready, 0);
    var p := R.Level(k.ready, 0);
    assert k.ready[p][0] in k.ready[p];
  }

  lemma ChooseIs(k: Kernel, states: seq<Task>, n: Tid)
    requires Shape(k) && Highest(k) == Some(n) && n < |k.tasks| && Runnable(k.tasks[n]) && OnlyCurrentRuns(k)
    requires var c := k.current;
      states ==
        if n != c then
          (if k.tasks[c].state == Running then k.tasks[c := k.tasks[c].(state := Ready)]
              else k.tasks)[n := k.tasks[n].(state := Running)]
        else if k.tasks[c].state == Ready then k.tasks[c := k.tasks[c].(state := Running)]
        else k.tasks
    ensures Choose(k) == k.(tasks := states, current := n)
  {
    hide Highest;
    assert Choose(k).tasks == states;
  }

  lemma SelectFacts(k: Kernel)
    requires Good(k) && Shape(k)
    ensures ReadyOk(k) && BasesOk(k)
    ensures var k1 := BeforeChoice(k); ReadyOk(k1) && BasesOk(k1) && OnlyCurrentRuns(k1)
  {
    hide ReadyOk, BasesOk, WaitOk, OwnOk, TasksOk, TimeoutOk, EpisodesOk, SemsOk, QueuesOk, Acyclic, Boosted, Prompt,
         BeforeChoice, OnlyCurrentRuns;
    BeforeChoiceInv(k);
  }

  lemma InvCore(k: Kernel)
    requires Inv(k, {})
    ensures Core(k, {})
  {
  }

  ghost predicate SliceElapsed(k: Kernel)
    requires Shape(k)
  {
    |k.ready[k.prio[k.current].eff]| > 1 && k.tasks[k.current].slice <= 1
  }

  /** The running task's slice after a tick that asks for no other switch. */
  ghost function Sliced(k: Kernel): Kernel
    requires Shape(k)
  {
    var x := k.tasks[k.current];
    var peers := |k.ready[k.prio[k.current].eff]| > 1;
    k.(tasks := k.tasks[k.current := x.(slice := if peers && x.slice > 1 then x.slice - 1 else TIME_SLICE_TICKS)],
       reasons := k.reasons + (if SliceElapsed(k) then {BySlice} else {}))
  }

  lemma TailCases(k: Kernel, woken: bool)
    requires Shape(k)
    ensures k.current < |k.tasks|
    ensures k.tasks[k.current].state != Running ==> TickTail(k, woken) == k.(pendsv := k.pendsv || woken)
    ensures k.tasks[k.current].state == Running && ShouldPreempt'(k) ==>
      TickTail(k, woken) == k.(reasons := k.reasons + {ByPreempt}, pendsv := k.pendsv || true)
    ensures k.tasks[k.current].state == Running && !ShouldPreempt'(k) && woken ==>
      TickTail(k, woken) == k.(pendsv := k.pendsv || true)
    ensures k.tasks[k.current].state == Running && !ShouldPreempt'(k) && !woken ==>
      TickTail(k, woken) == Sliced(k).(pendsv := k.pendsv || SliceElapsed(k))
  {
    hide ShouldPreempt;
    var x := k.tasks[k.current];
    assert k.tasks[k.current := x.(slice := x.slice)] == k.tasks;
    assert k.reasons + {} == k.reasons;
  }

  lemma ExpireStep(k: Kernel, ids: seq<nat>)
    requires Inv(k, Ids(ids)) && Shape(k) && AllWaiting(k, ids) && Distinct(ids) && ids != []
    ensures ids[0] in Ids(ids) && ids[0] < |k.tasks| && Waiting(k.tasks[ids[0]])
    ensures var k1 := ExpireOne(k, ids[0]);
      Inv(k1, Ids(ids[1..])) && AllWaiting(k1, ids[1..]) && ExpireAll(k, ids) == ExpireAll(k1, ids[1..])
  {
    hide Inv, ExpireOne;
    var t := ids[0];
    var k1 := ExpireOne(k, t);
    assert t in ids;
    ExpireInv(k, t, Ids(ids));
    forall u | u in ids[1..]
      ensures u < |k1.tasks| && Waiting(k1.tasks[u])
    {
      assert u in ids && u != t;
      ExpireFrame(k, t, u);
    }
    assert Ids(ids) - {t} == Ids(ids[1..]);
  }

  lemma ExpireFacts(k: Kernel, t: Tid, y: set<Tid>)
    requires Inv(k, y) && Shape(k) && t < |k.tasks| && Waiting(k.tasks[t])
    ensures Core(k, {}) && Acyclic(k) && Boosted(k) && !k.tasks[t].wait.NoWait?
    ensures k.tasks[t].wait == Wait.Delay ==> ExpireOne(k, t) == Wake(k, t, Ok)
  {
    hide ReadyOk, WaitOk, OwnOk, BasesOk, TimeoutOk, EpisodesOk, SemsOk, QueuesOk, Acyclic, Boosted, OnlyCurrentRuns,
         Wake, KernelModel.Recompute, Finish, Detach;
    assert TaskOk(k.tasks[t]);
  }

  lemma AdvanceKeepsTick(d: Dual, now: Word32)
    ensures DualAdvance(d, now).0.last == now
  {
  }

  predicate Resumable(k: Kernel, t: Tid) {
    t < |k.tasks| && t != IDLE && k.tasks[t].state == Suspended
  }

  lemma ResumeCases(k: Kernel, t: Tid)
    requires Shape(k)
    ensures t >= |k.tasks| ==> ResumeCall(k, t) == (k, InvalidArgument)
    ensures t < |k.tasks| && (t == IDLE || k.tasks[t].state != Suspended) ==> ResumeCall(k, t) == (k, InvalidState)
    ensures Resumable(k, t) && k.tasks[t].resume != Blocked && k.tasks[t].resume != Ready ==>
      ResumeCall(k, t) == (k, Internal)
    ensures Resumable(k, t) && (k.tasks[t].resume == Blocked || k.tasks[t].resume == Ready) ==>
      var k1 := Resumed(k, t);
      ResumeCall(k, t) ==
        (if WokenFlag(k1, t) then k1.(reasons := k1.reasons + {ByPreempt}, pendsv := k1.pendsv || true) else k1, Ok)
  {
    hide Resumed, WokenFlag;
  }

  lemma SuspendFacts(k: Kernel, t: Tid)
    requires Inv(k, {}) && t < |k.tasks| && k.tasks[t].state != Suspended
    ensures k.tasks[t].state == Blocked || Runnable(k.tasks[t])
    ensures t < |k.hist|
  {
    assert TaskOk(k.tasks[t]);
  }

  lemma NobodySends(k: Kernel, q: nat)
    requires Good(k) && q in k.queues && k.queues[q].items == []
    ensures WaitersOf(k, SendWaiters(q)) == []
  {
    hide Core, TimeoutOk, EpisodesOk, SemsOk, Acyclic, Boosted, OnlyCurrentRuns, Prompt;
    assert QueueOf(k, q) == k.queues[q];
  }

  lemma GoodCurrent(k: Kernel)
    requires Good(k)
    ensures k.current < |k.tasks|
  {
  }

  lemma DeliverFacts(k: Kernel, q: nat, item: Item)
    requires Inv(k, {}) && Shape(k) && q in k.queues && WaitersOf(k, RecvWaiters(q)) != []
    ensures var w := WaitersOf(k, RecvWaiters(q))[0];
      && w < |k.tasks| && Waiting(k.tasks[w]) && w < |k.hist|
      && Core(Delivered(k, q, w, item), {}) && Waiting(Delivered(k, q, w, item).tasks[w])
  {
    hide ReadyOk, WaitOk, OwnOk, TasksOk, TimeoutOk, EpisodesOk, SemsOk, QueuesOk, Acyclic, Boosted, OnlyCurrentRuns;
    FirstWaits(k, RecvWaiters(q));
    DeliveredInv(k, q, WaitersOf(k, RecvWaiters(q))[0], item);
  }

  lemma ReleaseFacts(k: Kernel, m: nat)
    requires Good(k) && Shape(k) && MutexOf(k, m).owner == Some(k.current) && WaitersOf(k, MutexWaiters(m)) == []
    ensures var k1 := DetachOwner(k, m, k.current);
      && k.current != IDLE && Core(k1, {}) && k1.current == k.current && k1.tasks == k.tasks
      && KernelModel.Recompute(k1, k.current, 0).1
  {
    hide Core, TimeoutOk, EpisodesOk, SemsOk, QueuesOk, OnlyCurrentRuns, Acyclic, Boosted, KernelModel.Recompute,
         DetachOwner, Reprioritised, BoostedAt, ExactAt, Prompt;
    OwnerIsTask(k, m, k.current);
    ReleaseInv(k, m, k.current);
    DetachOwnerFrame(k, m, k.current);
    RecomputeInv(DetachOwner(k, m, k.current), k.current, {});
  }

  lemma FirstFacts(k: Kernel, m: nat)
    requires Good(k) && Shape(k) && MutexOf(k, m).owner == Some(k.current) && WaitersOf(k, MutexWaiters(m)) != []
    ensures var w := WaitersOf(k, MutexWaiters(m))[0];
      w < |k.tasks| && w != k.current && w != IDLE && k.current != IDLE && Waiting(k.tasks[w])
          && k.tasks[w].wait == On(MutexWaiters(m))
  {
    hide Core, TimeoutOk, EpisodesOk, SemsOk, QueuesOk, OnlyCurrentRuns, Acyclic, Boosted, Prompt;
    FirstWaits(k, MutexWaiters(m));
    FirstWaiterIsOther(k, m, k.current);
    OwnerIsTask(k, m, k.current);
  }

  lemma GoodOwn(k: Kernel)
    requires Good(k)
    ensures OwnOk(k) && Core(k, {}) && Inv(k, {}) && k.current < |k.tasks|
  {
  }

  /** The three stages of a handover. */
  lemma PassFacts(k: Kernel, m: nat, w: Tid)
    requires Inv(k, {}) && Shape(k) && w < |k.tasks| && k.current != w && w != IDLE && k.current != IDLE
    requires MutexOf(k, m).owner == Some(k.current) && k.tasks[w].wait == On(MutexWaiters(m)) && Waiting(k.tasks[w])
    ensures var k1 := AttachOwner(DetachOwner(k, m, k.current), m, w);
      && Core(k1, {}) && k1.tasks == k.tasks && k1.current == k.current
      && var k2 := Wake(k1, w, Ok);
         && Core(k2, {}) && k2.current == k.current
         && KernelModel.Recompute(k2, k.current, 0).1 && Core(KernelModel.Recompute(k2, k.current, 0).0, {})
         && KernelModel.Recompute(KernelModel.Recompute(k2, k.current, 0).0, w, 0).1
  {
    hide Core, TimeoutOk, EpisodesOk, SemsOk, QueuesOk, OnlyCurrentRuns, Acyclic, Boosted, KernelModel.Recompute, Wake,
         BoostedAt, ExactAt, Reprioritised;
    var c := k.current;
    MovedBase(k, m, c, w);
    HandedInv(k, m, c, w);
    var k2 := Handed(k, m, c, w);
    RecomputeInv(k2, c, {w});
    RecomputeInv(KernelModel.Recompute(k2, c, 0).0, w, {});
    MovedTasks(k, m, c, w);
  }

  lemma MovedTasks(k: Kernel, m: nat, c: Tid, w: Tid)
    requires Shape(k) && c < |k.tasks| && w < |k.tasks|
    ensures Moved(k, m, c, w).tasks == k.tasks && Moved(k, m, c, w).current == k.current
  {
  }

  lemma LockFacts(k: Kernel, m: nat)
    requires Good(k) && Shape(k) && m in k.mutexes && k.mutexes[m].owner.Some?
    ensures MutexOf(k, m) == k.mutexes[m] && k.mutexes[m].owner.value < |k.tasks| && k.mutexes[m].owner.value != IDLE
    ensures Inv(k, {}) && Base(k, {})
  {
    hide ReadyOk, WaitOk, TasksOk, TimeoutOk, EpisodesOk, SemsOk, QueuesOk, Acyclic, Boosted, Prompt, OnlyCurrentRuns;
    assert MutexOf(k, m) == k.mutexes[m];
  }

  /** The state in which the caller has queued up behind the owner, whatever the chain looks like. */
  lemma QueuedFacts(k: Kernel, m: nat, timeout: nat)
    requires Inv(k, {}) && Shape(k) && BlockStatus(k, timeout) == Ok && timeout > 0
    requires MutexOf(k, m).owner.Some? && MutexOf(k, m).owner.value < |k.tasks|
    requires MutexOf(k, m).owner.value != k.current && MutexOf(k, m).owner.value != IDLE
    ensures var k1 := BlockOn(k, MutexWaiters(m), timeout, []);
      var o := MutexOf(k, m).owner.value;
      && Core(k1, {}) && k1.tasks[k.current].state == Blocked && k1.current == k.current
      && Core(KernelModel.Recompute(k1, o, 0).0, {})
  {
    hide Core, TimeoutOk, EpisodesOk, SemsOk, QueuesOk, Acyclic, Boosted, OnlyCurrentRuns, Next, KernelModel.Recompute,
         InsertByPrio, InsertByDue, ReadyWithout;
    var k1 := Queued(k, m, timeout);
    var o := MutexOf(k, m).owner.value;
    QueuedBase(k, m, timeout);
    QueuedNext(k, m, timeout);
    CoreOwn(k);
    AcyclicNoSelfWait(k);
    assert NoSelfWait(k1);
    RecomputeCore(k1, o, 0, {});
  }

  lemma DetachFrame(k: Kernel, t: Tid)
    requires t < |k.tasks|
    ensures Detach(k, t).tasks == k.tasks && Detach(k, t).mutexes == k.mutexes
  {
  }

  lemma CoreParts(k: Kernel, x: set<Tid>)
    requires Core(k, x)
    ensures ReadyOk(k) && WaitOk(k, x) && OwnOk(k)
  {
  }

  /** Requeueing as unlinking, changing and linking again. */
  lemma SetEffParts(k: Kernel, t: Tid, p: nat)
    requires Shape(k) && t < |k.tasks| && p < PRIORITY_COUNT
    ensures k.prio[t].eff == p ==> SetEff(k, t, p) == k
    ensures k.prio[t].eff != p ==>
      var inReady := t in k.ready[k.prio[t].eff];
      var w := k.tasks[t].wait;
      var inWait := w.On? && t in WaitersOf(k, w.list);
      var k1 := k.(ready := if inReady then ReadyWithout(k, t) else k.ready,
                   waiters := if inWait then k.waiters[w.list := Without(WaitersOf(k, w.list), t)] else k.waiters);
      var k2 := k1.(prio := k1.prio[t := k1.prio[t].(eff := p)]);
      SetEff(k, t, p) ==
        k2.(ready := if inReady then ReadyWith(k2, t) else k2.ready,
            waiters := if inWait then k2.waiters[w.list := InsertByPrio(k2.prio, WaitersOf(k2, w.list), t)]
                else k2.waiters)
  {
    hide InsertByPrio, Without;
    var w := k.tasks[t].wait;
    if w.On? {
      var l := w.list;
      var q := Without(WaitersOf(k, l), t);
      assert k.waiters[l := q][l := InsertByPrio(k.prio[t := k.prio[t].(eff := p)], q, t)] ==
        k.waiters[l := InsertByPrio(k.prio[t := k.prio[t].(eff := p)], q, t)];
    }
  }

  lemma RemovedUnlinked(k: Kernel, x: set<Tid>, t: Tid)
    requires WaitOk(k, x) && t < |k.tasks| && k.tasks[t].wait.On?
    ensures var l := k.tasks[t].wait.list; !WaitLinked(k.waiters[l := Without(WaitersOf(k, l), t)], t)
  {
    var l := k.tasks[t].wait.list;
    forall l' | l' in k.waiters && l' != l
      ensures t !in k.waiters[l']
    {
      assert t !in WaitersOf(k, l');
    }
  }

  lemma InsertKeepsTick(d: Dual, id: nat, delay: Word32)
    ensures DualInsert(d, id, delay).last == d.last
  {
  }
}
