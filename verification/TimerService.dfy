/**
 Kernel activity seen from one semaphore and one task that waits for nothing else: every
 step that does not use the semaphore leaves both alone.
 */
module TimerService {
  import opened Config
  import opened Sequences
  import opened KernelModel
  import opened KernelInvariant
  import opened Blocking
  import opened Waking
  import opened Scheduling
  import opened Exchange
  import opened MutexSteps
  import opened KernelRuns
  import opened TaskEffects
  import opened TimerModel

  // ---------------------------------------------------------------------------
  // Kernel activity that does not concern a semaphore
  // ---------------------------------------------------------------------------

  predicate Concerns(step: Step, s: nat) {
    ((step.DoTake? || step.DoGive? || step.IsrGive?) && step.s == s) || step.SysTick?
  }

  /** Task `u` neither waits nor waits for anything but semaphore `s`. */
  predicate WaitsAtMostFor(k: Kernel, s: nat, u: Tid) {
    u < |k.tasks| && (k.tasks[u].wait == NoWait || k.tasks[u].wait == On(SemWaiters(s)))
  }

  /** Semaphore `s` is as before, nobody new waits for it, and the wait of `u` is as before. */
  ghost predicate LeftAlone(k: Kernel, k': Kernel, s: nat, u: Tid, mine: bool) {
    && |k'.tasks| == |k.tasks| && |k'.hist| == |k.hist| && SemOf(k', s) == SemOf(k, s)
    && (forall t: Tid :: t < |k.tasks| && k'.tasks[t].wait == On(SemWaiters(s)) ==>
        k.tasks[t].wait == On(SemWaiters(s)))
    && (!mine && WaitsAtMostFor(k, s, u) ==>
          k'.tasks[u].wait == k.tasks[u].wait && k'.tasks[u].result == k.tasks[u].result
              && (u < |k.hist| ==> k'.hist[u] == k.hist[u]))
  }

  /** A change of one task that does not wait for `s`. */
  lemma OneTask(k: Kernel, k': Kernel, s: nat, u: Tid, mine: bool, t: Tid)
    requires t < |k.tasks| && |k'.tasks| == |k.tasks| && k'.tasks == k.tasks[t := k'.tasks[t]]
      && SemOf(k', s) == SemOf(k, s)
    requires t < |k.hist| && |k'.hist| == |k.hist| && k'.hist == k.hist[t := k'.hist[t]]
    requires k'.tasks[t].wait != On(SemWaiters(s))
    requires t == u && !mine ==> !WaitsAtMostFor(k, s, u)
    ensures LeftAlone(k, k', s, u, mine)
  {
  }

  lemma SameWaits(k: Kernel, k': Kernel, s: nat, u: Tid, mine: bool)
    requires |k'.tasks| == |k.tasks| && SemOf(k', s) == SemOf(k, s) && k'.hist == k.hist
    requires forall t: Tid :: t < |k.tasks| ==>
      k'.tasks[t].wait == k.tasks[t].wait && k'.tasks[t].result == k.tasks[t].result
    ensures LeftAlone(k, k', s, u, mine)
  {
  }

  lemma BlockLeavesAlone(k: Kernel, l: ListId, timeout: nat, item: Item, s: nat, u: Tid)
    requires Shape(k) && l != SemWaiters(s)
    ensures LeftAlone(k, BlockOn(k, l, timeout, item).(pendsv := true), s, u, k.current == u)
    ensures LeftAlone(k, BlockOn(k, l, timeout, item), s, u, k.current == u)
  {
    hide ReadyWithout, InsertByPrio, InsertByDue;
    OneTask(k, BlockOn(k, l, timeout, item), s, u, k.current == u, k.current);
    OneTask(k, BlockOn(k, l, timeout, item).(pendsv := true), s, u, k.current == u, k.current);
  }

  lemma DelayLeavesAlone(k: Kernel, ticks: nat, s: nat, u: Tid)
    requires Shape(k)
    ensures LeftAlone(k, DelayFor(k, ticks).(pendsv := true), s, u, k.current == u)
  {
    hide ReadyWithout, InsertByDue;
    OneTask(k, DelayFor(k, ticks).(pendsv := true), s, u, k.current == u, k.current);
  }

  lemma DelayCallsLeaveAlone(k: Kernel, ticks: nat, last: Word32, period: Word32, s: nat, u: Tid)
    requires Shape(k)
    ensures LeftAlone(k, DelayCall(k, ticks).0, s, u, k.current == u)
    ensures LeftAlone(k, DelayUntilCall(k, last, period).0, s, u, k.current == u)
    ensures LeftAlone(k, YieldCall(k), s, u, k.current == u)
  {
    hide DelayFor, LeftAlone;
    var remaining: Word32 := ((last + period) % TICK_RANGE - k.now % TICK_RANGE) % TICK_RANGE;
    SameWaits(k, k, s, u, k.current == u);
    SameWaits(k, YieldCall(k), s, u, k.current == u);
    DelayLeavesAlone(k, ticks, s, u);
    DelayLeavesAlone(k, remaining, s, u);
  }

  lemma SuspendLeavesAlone(k: Kernel, t: Tid, s: nat, u: Tid, mine: bool)
    requires Shape(k)
    ensures LeftAlone(k, SuspendCall(k, t).0, s, u, mine)
  {
    hide SuspendCall, LeftAlone;
    SuspendFrame(k, t);
    SameWaits(k, SuspendCall(k, t).0, s, u, mine);
  }

  lemma SuspendFrame(k: Kernel, t: Tid)
    requires Shape(k)
    ensures var r := SuspendCall(k, t).0;
      && r.sems == k.sems && r.hist == k.hist && |r.tasks| == |k.tasks|
      && forall u: Tid :: u < |k.tasks| ==> r.tasks[u].wait == k.tasks[u].wait && r.tasks[u].result == k.tasks[u].result
  {
    hide SuspendedTask, SuspendCall;
    SuspendTasks(k, t);
  }

  lemma ResumeLeavesAlone(k: Kernel, t: Tid, s: nat, u: Tid, mine: bool)
    requires Shape(k)
    ensures LeftAlone(k, ResumeCall(k, t).0, s, u, mine)
  {
    hide ResumeCall, LeftAlone;
    ResumeFrame(k, t);
    SameWaits(k, ResumeCall(k, t).0, s, u, mine);
  }

  lemma ResumeFrame(k: Kernel, t: Tid)
    requires Shape(k)
    ensures var r := ResumeCall(k, t).0;
      && r.sems == k.sems && r.hist == k.hist && |r.tasks| == |k.tasks|
      && forall u: Tid :: u < |k.tasks| ==> r.tasks[u].wait == k.tasks[u].wait && r.tasks[u].result == k.tasks[u].result
  {
    hide Resumed, ResumeCall;
    ResumeTasks(k, t);
  }

  lemma SwitchLeavesAlone(k: Kernel, s: nat, u: Tid, mine: bool)
    requires Shape(k)
    ensures LeftAlone(k, PendSV(k), s, u, mine)
  {
    hide Highest, RotatedReady, LeftAlone;
    SameWaits(k, PendSV(k), s, u, mine);
  }

  /** A wake of a task that waits for something else. */
  lemma WakeLeavesAlone(k: Kernel, k0: Kernel, t: Tid, result: Status, s: nat, u: Tid, mine: bool)
    requires Shape(k) && t < |k.tasks| && |k0.tasks| == |k.tasks| && k.tasks == k0.tasks[t := k.tasks[t]]
      && SemOf(k, s) == SemOf(k0, s)
    requires |k0.hist| == |k.hist| && k.hist == k0.hist[t := k.hist[t]]
    requires t == u && !mine ==> !WaitsAtMostFor(k0, s, u)
    ensures LeftAlone(k0, Wake(k, t, result), s, u, mine)
  {
    hide Without, WithoutId, ReadyWith;
    OneTask(k0, Wake(k, t, result), s, u, mine, t);
  }

  lemma FlagsLeaveAlone(k0: Kernel, k: Kernel, k': Kernel, s: nat, u: Tid, mine: bool)
    requires LeftAlone(k0, k, s, u, mine) && k' == k.(pendsv := k'.pendsv, isrWoken := k'.isrWoken)
    ensures LeftAlone(k0, k', s, u, mine)
  {
  }

  // ---------------------------------------------------------------------------
  // Calls on other objects
  // ---------------------------------------------------------------------------

  lemma LockLeavesAlone(k: Kernel, m: nat, timeout: nat, s: nat, u: Tid)
    requires Shape(k)
    ensures LeftAlone(k, Lock(k, m, timeout).0, s, u, k.current == u)
  {
    hide LockBlocking, LeftAlone;
    var mx := MutexOf(k, m);
    var mine := k.current == u;
    if LockQueues(k, m, timeout) {
      LockBlockingLeavesAlone(k, m, mx.owner.value, timeout, s, u);
      FlagsLeaveAlone(k, LockBlocking(k, m, mx.owner.value, timeout).0, Lock(k, m, timeout).0, s, u, mine);
    } else {
      SameWaits(k, Lock(k, m, timeout).0, s, u, mine);
    }
  }

  lemma LockBlockingLeavesAlone(k: Kernel, m: nat, o: Tid, timeout: nat, s: nat, u: Tid)
    requires Shape(k) && o < |k.tasks|
    ensures LeftAlone(k, LockBlocking(k, m, o, timeout).0, s, u, k.current == u)
  {
    hide Recompute, ReadyWithout, InsertByPrio, InsertByDue, LeftAlone, Wake;
    var mine := k.current == u;
    var k1 := BlockOn(k, MutexWaiters(m), timeout, []);
    var (k2, ok) := Recompute(k1, o, 0);
    if ok {
      OneTask(k, k2, s, u, mine, k.current);
    } else {
      WakeLeavesAlone(k2, k, k.current, Internal, s, u, mine);
    }
  }

  lemma UnlockLeavesAlone(k: Kernel, m: nat, s: nat, u: Tid)
    requires Shape(k) && Core(k, {})
    ensures LeftAlone(k, Unlock(k, m).0, s, u, k.current == u)
  {
    hide Recompute, LeftAlone, HandOver, ShouldPreempt', DetachOwner, Core;
    var mine := k.current == u;
    var ws := WaitersOf(k, MutexWaiters(m));
    var k' := Unlock(k, m).0;
    if MutexOf(k, m).owner == Some(k.current) && ws != [] {
      FirstWaits(k, MutexWaiters(m));
      HandOverLeavesAlone(k, m, ws[0], s, u);
      SameWaits(k, k, s, u, mine);
      if !(MutexOf(k, m).recursive && MutexOf(k, m).count > 1) && m in k.mutexes {
        FlagsLeaveAlone(k, HandOver(DetachOwner(k, m, k.current), m, ws[0]).0, k', s, u, mine);
      } else {
        SameWaits(k, k', s, u, mine);
      }
    } else {
      DetachOwnerFrame(k, m, k.current);
      DetachOwnerSems(k, m, k.current);
      SameWaits(k, k', s, u, mine);
    }
  }

  lemma DetachOwnerSems(k: Kernel, m: nat, c: Tid)
    requires Shape(k) && c < |k.tasks|
    ensures DetachOwner(k, m, c).sems == k.sems && DetachOwner(k, m, c).hist == k.hist
  {
  }

  lemma HandOverLeavesAlone(k: Kernel, m: nat, w: Tid, s: nat, u: Tid)
    requires Shape(k) && w < |k.tasks| && k.tasks[w].wait == On(MutexWaiters(m))
    ensures LeftAlone(k, HandOver(DetachOwner(k, m, k.current), m, w).0, s, u, k.current == u)
  {
    hide Recompute, LeftAlone, Wake, WokenFlag;
    var mine := k.current == u;
    var k1 := AttachOwner(DetachOwner(k, m, k.current), m, w);
    WakeLeavesAlone(k1, k, w, Ok, s, u, mine);
    var k2 := Wake(k1, w, Ok);
    var k3 := HandOver(DetachOwner(k, m, k.current), m, w).0;
    SameTasksLeaveAlone(k, k2, k3, s, u, mine);
  }

  lemma SameTasksLeaveAlone(k: Kernel, k2: Kernel, k3: Kernel, s: nat, u: Tid, mine: bool)
    requires LeftAlone(k, k2, s, u, mine) && k3.tasks == k2.tasks && k3.sems == k2.sems && k3.hist == k2.hist
    ensures LeftAlone(k, k3, s, u, mine)
  {
  }

  lemma TakeLeavesAlone(k: Kernel, j: nat, timeout: nat, s: nat, u: Tid)
    requires Shape(k) && j != s
    ensures LeftAlone(k, SemTake(k, j, timeout).0, s, u, k.current == u)
  {
    hide BlockOn, LeftAlone;
    BlockLeavesAlone(k, SemWaiters(j), timeout, [], s, u);
    var mine := k.current == u;
    SameWaits(k, k, s, u, mine);
    if j in k.sems && SemOf(k, j).count > 0 {
      SameWaits(k, SemTake(k, j, timeout).0, s, u, mine);
    }
  }

  lemma GiveLeavesAlone(k: Kernel, j: nat, s: nat, u: Tid, mine: bool)
    requires Shape(k) && Core(k, {}) && j != s
    ensures LeftAlone(k, SemGiveLocked(k, j).0, s, u, mine)
  {
    hide Wake, LeftAlone, Core, WokenFlag;
    var x := SemOf(k, j);
    var ws := WaitersOf(k, SemWaiters(j));
    if j in k.sems && ws != [] {
      FirstWaits(k, SemWaiters(j));
      WakeLeavesAlone(k.(sems := k.sems[j := x.(given := x.given + 1, taken := x.taken + 1)]), k, ws[0], Ok, s, u,
          mine);
    } else {
      SameWaits(k, SemGiveLocked(k, j).0, s, u, mine);
    }
  }

  lemma SendLeavesAlone(k: Kernel, q: nat, item: Item, timeout: nat, mayBlock: bool, s: nat, u: Tid, mine: bool)
    requires Shape(k) && Core(k, {}) && (mayBlock ==> mine == (k.current == u))
    ensures LeftAlone(k, SendLocked(k, q, item, timeout, mayBlock).0, s, u, mine)
  {
    hide Wake, LeftAlone, Core, WokenFlag, BlockOn;
    var rs := WaitersOf(k, RecvWaiters(q));
    if q in k.queues && rs != [] {
      FirstWaits(k, RecvWaiters(q));
      WakeLeavesAlone(Delivered(k, q, rs[0], item), k, rs[0], Ok, s, u, mine);
    } else if mayBlock && SendLocked(k, q, item, timeout, mayBlock).1.blocked {
      BlockLeavesAlone(k, SendWaiters(q), timeout, item, s, u);
    } else {
      SameWaits(k, SendLocked(k, q, item, timeout, mayBlock).0, s, u, mine);
    }
  }

  lemma ReceiveLeavesAlone(k: Kernel, q: nat, timeout: nat, mayBlock: bool, s: nat, u: Tid, mine: bool)
    requires Shape(k) && Core(k, {}) && QueuesOk(k) && (mayBlock ==> mine == (k.current == u))
    ensures LeftAlone(k, ReceiveLocked(k, q, timeout, mayBlock).0, s, u, mine)
  {
    hide Wake, LeftAlone, Core, WokenFlag, BlockOn, FillFromSender, QueuesOk, Refilled;
    var ss := WaitersOf(k, SendWaiters(q));
    if q in k.queues {
      ReceiveCases(k, q, timeout, mayBlock);
      if QueueOf(k, q).items != [] {
        if ss != [] {
          FirstWaits(k, SendWaiters(q));
          WakeLeavesAlone(Refilled(k, q), k, ss[0], Ok, s, u, mine);
        } else {
          SameWaits(k, Refilled(k, q), s, u, mine);
        }
      } else {
        BlockLeavesAlone(k, RecvWaiters(q), timeout, [], s, u);
        SameWaits(k, k, s, u, mine);
      }
    } else {
      SameWaits(k, k, s, u, mine);
    }
  }

  /** Every step that does not concern `s`. */
  lemma StepLeavesAlone(k: Kernel, step: Step, s: nat, u: Tid)
    requires Good(k) && Shape(k) && !Concerns(step, s)
    ensures LeftAlone(k, Apply(k, step), s, u, ByTask(step) && k.current == u)
  {
    hide Core, TimeoutOk, EpisodesOk, SemsOk, QueuesOk, Acyclic, Boosted, OnlyCurrentRuns, Prompt, Lock, Unlock,
         SemTake, SemGiveLocked,
         SendLocked, ReceiveLocked, YieldCall, DelayCall, DelayUntilCall, SuspendCall, ResumeCall, PendSV, LeftAlone;
    var mine := ByTask(step) && k.current == u;
    match step
    case DoYield => DelayCallsLeaveAlone(k, 0, 0, 0, s, u);
    case DoDelay(ticks) => DelayCallsLeaveAlone(k, ticks, 0, 0, s, u);
    case DoDelayUntil(last, period) => DelayCallsLeaveAlone(k, 0, last, period, s, u);
    case DoSuspend(t) => SuspendLeavesAlone(k, t, s, u, mine);
    case DoResume(t) => ResumeLeavesAlone(k, t, s, u, mine);
    case DoLock(m, timeout) => LockLeavesAlone(k, m, timeout, s, u);
    case DoUnlock(m) => UnlockLeavesAlone(k, m, s, u);
    case DoTake(j, timeout) => TakeLeavesAlone(k, j, timeout, s, u);
    case DoGive(j) =>
      GiveLeavesAlone(k, j, s, u, mine);
      FlagsLeaveAlone(k, SemGiveLocked(k, j).0, Apply(k, step), s, u, mine);
    case DoSend(q, item, timeout) =>
      SendLeavesAlone(k, q, item, timeout, true, s, u, mine);
      FlagsLeaveAlone(k, SendLocked(k, q, item, timeout, true).0, Apply(k, step), s, u, mine);
    case DoReceive(q, timeout) =>
      ReceiveLeavesAlone(k, q, timeout, true, s, u, mine);
      FlagsLeaveAlone(k, ReceiveLocked(k, q, timeout, true).0, Apply(k, step), s, u, mine);
    case IsrGive(j) =>
      GiveLeavesAlone(k, j, s, u, mine);
      FlagsLeaveAlone(k, SemGiveLocked(k, j).0, Apply(k, step), s, u, mine);
    case IsrSend(q, item) =>
      SendLeavesAlone(k, q, item, NO_WAIT, false, s, u, mine);
      FlagsLeaveAlone(k, SendLocked(k, q, item, NO_WAIT, false).0, Apply(k, step), s, u, mine);
    case IsrReceive(q) =>
      ReceiveLeavesAlone(k, q, NO_WAIT, false, s, u, mine);
      FlagsLeaveAlone(k, ReceiveLocked(k, q, NO_WAIT, false).0, Apply(k, step), s, u, mine);
    case IsrReturn => SameWaits(k, Apply(k, step), s, u, mine);
    case ContextSwitch => SwitchLeavesAlone(k, s, u, mine);
  }

  // ---------------------------------------------------------------------------
  // The tick
  // ---------------------------------------------------------------------------

  /** A task without a running timeout sleeps through the expiries of a tick. */
  lemma ExpireLeavesAlone(k: Kernel, t: Tid, s: nat, u: Tid)
    requires Shape(k) && t != u
    ensures LeftAlone(k, ExpireOne(k, t), s, u, false)
  {
    hide Recompute, Without, WithoutId, LeftAlone;
    if t < |k.tasks| {
      ExpireSems(k, t);
      ExpireWait(k, t);
      OneTaskOrSame(k, ExpireOne(k, t), s, u, t);
    } else {
      SameWaits(k, k, s, u, false);
    }
  }

  lemma OneTaskOrSame(k: Kernel, k': Kernel, s: nat, u: Tid, t: Tid)
    requires t < |k.tasks| && |k'.tasks| == |k.tasks| && k'.tasks == k.tasks[t := k'.tasks[t]]
      && SemOf(k', s) == SemOf(k, s)
    requires t < |k.hist| && |k'.hist| == |k.hist| && k'.hist == k.hist[t := k'.hist[t]]
    requires k'.tasks[t].wait == NoWait && t != u
    ensures LeftAlone(k, k', s, u, false)
  {
  }

  lemma ExpireSems(k: Kernel, t: Tid)
    requires Shape(k) && t < |k.tasks|
    ensures ExpireOne(k, t).sems == k.sems
  {
    hide Recompute, Detach, Finish;
    DetachSems(k, t);
    if k.tasks[t].wait.On? {
      var l := k.tasks[t].wait.list;
      var k1 := Detach(k, t);
      if l.MutexWaiters? && MutexOf(k1, l.m).owner.Some? && MutexOf(k1, l.m).owner.value < |k.tasks| {
        FinishSems(Recompute(k1, MutexOf(k1, l.m).owner.value, 0).0, t, Timeout);
      } else {
        FinishSems(k1, t, Timeout);
      }
    } else {
      FinishSems(Detach(k, t), t, Ok);
    }
  }

  lemma DetachSems(k: Kernel, t: Tid)
    requires t < |k.tasks|
    ensures Detach(k, t).sems == k.sems
  {
  }

  lemma FinishSems(k: Kernel, t: Tid, result: Status)
    requires Shape(k) && t < |k.tasks|
    ensures Finish(k, t, result).sems == k.sems
  {
  }

  lemma ExpireWait(k: Kernel, t: Tid)
    requires Shape(k) && t < |k.tasks|
    ensures ExpireOne(k, t).tasks[t].wait == NoWait
  {
    hide ExpireOne;
    if k.tasks[t].wait == NoWait {
      ExpireNothing(k, t);
    } else {
      ExpireRecord(k, t);
    }
  }

  lemma ExpireNothing(k: Kernel, t: Tid)
    requires Shape(k) && t < |k.tasks| && k.tasks[t].wait == NoWait
    ensures ExpireOne(k, t) == k
  {
  }

  lemma {:induction false} ExpireAllLeavesAlone(k: Kernel, ids: seq<nat>, s: nat, u: Tid)
    requires Shape(k) && u !in ids
    ensures LeftAlone(k, ExpireAll(k, ids), s, u, false)
    decreases |ids|
  {
    hide ExpireOne, LeftAlone;
    if ids == [] {
      SameWaits(k, k, s, u, false);
    } else {
      ExpireLeavesAlone(k, ids[0], s, u);
      ExpireAllLeavesAlone(ExpireOne(k, ids[0]), ids[1..], s, u);
      LeftAloneTrans(k, ExpireOne(k, ids[0]), ExpireAll(k, ids), s, u, false);
    }
  }

  lemma LeftAloneTrans(k: Kernel, k1: Kernel, k2: Kernel, s: nat, u: Tid, mine: bool)
    requires LeftAlone(k, k1, s, u, mine) && LeftAlone(k1, k2, s, u, mine)
    ensures LeftAlone(k, k2, s, u, mine)
  {
  }

  ghost predicate NoTimeout(k: Kernel, u: Tid) {
    forall e :: e in k.timeouts ==> e.id != u
  }

  lemma TickTimeoutsLeavesAlone(k: Kernel, s: nat, u: Tid)
    requires Shape(k) && Inv(k, {}) && NoTimeout(k, u)
    ensures LeftAlone(k, TickTimeouts(k), s, u, false)
  {
    hide Inv, ExpireAll, DueIds, NotDue, LeftAlone;
    DueIdsBelong(k.timeouts, k.now + 1);
    var k1 := Advanced(k);
    ExpireAllLeavesAlone(k1, DueIds(k.timeouts, k.now + 1), s, u);
    SameWaits(k, k1, s, u, false);
    LeftAloneTrans(k, k1, TickTimeouts(k), s, u, false);
  }
}
