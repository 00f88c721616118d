/** A context switch is requested only for a reason: no step asks for one without need. */
module Requests {
  import opened Config
  import opened Sequences
  import opened KernelModel
  import opened KernelInvariant
  import opened Blocking
  import opened Waking
  import opened Scheduling
  import opened Exchange
  import opened MutexSteps
  import opened KernelRuns
  import opened TaskEffects

  /** Why a step may request a switch: the caller gives way or no longer runs, a ready task is more
      urgent, an interrupt handler returns that woke one, the slice has elapsed, or an unlock handed
      the mutex to a task that was more urgent. */
  ghost predicate Justified(k: Kernel, k': Kernel, step: Step) {
    || step == DoYield || step == DoDelay(0)
    || (k'.current < |k'.tasks| && k'.tasks[k'.current].state != Running)
    || !NoneBetter(k')
    || (step.IsrReturn? && k.isrWoken)
    || (step.SysTick? && BySlice in k'.reasons)
    || (step.DoUnlock? && First(k, MutexWaiters(step.m)).Some?
        && Eff(k.prio, First(k, MutexWaiters(step.m)).value) < Eff(k.prio, k.current))
  }

  /** Nothing requested, and the wake flag only if a more urgent task is ready. */
  ghost predicate FlagsKept(k: Kernel, k': Kernel) {
    k'.pendsv == k.pendsv && k'.isrWoken == k.isrWoken
  }

  lemma FlagIsBetter(k: Kernel, t: Tid)
    requires WokenFlag(k, t)
    ensures !NoneBetter(k)
  {
  }

  lemma NoneBetterFrame(k: Kernel, k': Kernel)
    requires k'.tasks == k.tasks && k'.prio == k.prio && k'.current == k.current
    ensures NoneBetter(k') == NoneBetter(k)
  {
  }

  lemma WakeFlags(k: Kernel, t: Tid, result: Status)
    requires Shape(k) && t < |k.tasks|
    ensures FlagsKept(k, Wake(k, t, result))
  {
    hide Without, WithoutId, ReadyWith;
  }

  lemma BlockFlags(k: Kernel, l: ListId, timeout: nat, item: Item)
    requires Shape(k)
    ensures var k' := BlockOn(k, l, timeout, item);
      FlagsKept(k, k') && k'.tasks[k'.current].state == Blocked
  {
    hide ReadyWithout, InsertByPrio, InsertByDue;
  }

  lemma GiveFlags(k: Kernel, s: nat)
    requires Shape(k)
    ensures var (k', _, woken) := SemGiveLocked(k, s); FlagsKept(k, k') && (woken ==> !NoneBetter(k'))
  {
    hide Wake, WokenFlag, NoneBetter;
    var x := SemOf(k, s);
    var ws := WaitersOf(k, SemWaiters(s));
    if s in k.sems && ws != [] && ws[0] < |k.tasks| {
      var k1 := k.(sems := k.sems[s := x.(given := x.given + 1, taken := x.taken + 1)]);
      WakeFlags(k1, ws[0], Ok);
      if WokenFlag(Wake(k1, ws[0], Ok), ws[0]) {
        FlagIsBetter(Wake(k1, ws[0], Ok), ws[0]);
      }
    }
  }

  lemma SendFlags(k: Kernel, q: nat, item: Item, timeout: nat, mayBlock: bool)
    requires Shape(k)
    ensures var (k', o, woken) := SendLocked(k, q, item, timeout, mayBlock);
      && FlagsKept(k, k') && (woken ==> !NoneBetter(k'))
      && (o.blocked ==> k'.tasks[k'.current].state == Blocked)
  {
    hide Wake, WokenFlag, BlockOn, NoneBetter;
    var rs := WaitersOf(k, RecvWaiters(q));
    if q in k.queues && rs != [] && rs[0] < |k.tasks| {
      var k1 := Delivered(k, q, rs[0], item);
      WakeFlags(k1, rs[0], Ok);
      if WokenFlag(Wake(k1, rs[0], Ok), rs[0]) {
        FlagIsBetter(Wake(k1, rs[0], Ok), rs[0]);
      }
    }
    BlockFlags(k, SendWaiters(q), timeout, item);
  }

  lemma ReceiveFlags(k: Kernel, q: nat, timeout: nat, mayBlock: bool)
    requires Shape(k) && Core(k, {}) && QueuesOk(k)
    ensures var (k', o, woken) := ReceiveLocked(k, q, timeout, mayBlock);
      && FlagsKept(k, k') && (woken ==> !NoneBetter(k'))
      && (o.blocked ==> k'.tasks[k'.current].state == Blocked)
  {
    hide Wake, WokenFlag, BlockOn, NoneBetter, Core, QueuesOk, Refilled, FillFromSender;
    var ss := WaitersOf(k, SendWaiters(q));
    if q in k.queues {
      ReceiveCases(k, q, timeout, mayBlock);
      if QueueOf(k, q).items != [] && ss != [] {
        var k1 := Refilled(k, q);
        WakeFlags(k1, ss[0], Ok);
        if WokenFlag(Wake(k1, ss[0], Ok), ss[0]) {
          FlagIsBetter(Wake(k1, ss[0], Ok), ss[0]);
        }
      }
    }
    BlockFlags(k, RecvWaiters(q), timeout, []);
  }

  lemma LockFlags(k: Kernel, m: nat, timeout: nat)
    requires Shape(k) && Inv(k, {})
    ensures var (k', o) := Lock(k, m, timeout);
      k'.isrWoken == k.isrWoken && (k'.pendsv == k.pendsv || k'.tasks[k'.current].state != Running)
  {
    hide LockBlocking, Inv, WouldDeadlock;
    LockEffect(k, m, timeout, k.current);
    InvCore(k);
    LockWaits(k, m, timeout);
    if LockQueues(k, m, timeout) {
      LockBlockingFlags(k, m, MutexOf(k, m).owner.value, timeout);
    }
  }

  lemma LockBlockingFlags(k: Kernel, m: nat, o: Tid, timeout: nat)
    requires Shape(k) && o < |k.tasks|
    ensures LockBlocking(k, m, o, timeout).0.isrWoken == k.isrWoken
  {
    hide Recompute, BlockOn, Wake;
    BlockFlags(k, MutexWaiters(m), timeout, []);
    var (k2, ok) := Recompute(BlockOn(k, MutexWaiters(m), timeout, []), o, 0);
    WakeFlags(k2, k.current, Internal);
  }

  /** The running task should give way: a ready task is more urgent. */
  lemma PreemptIsBetter(k: Kernel)
    requires ReadyOk(k) && BasesOk(k) && OnlyCurrentRuns(k) && k.tasks[k.current].state == Running && ShouldPreempt(k)
    ensures !NoneBetter(k)
  {
    hide Highest, ReadyOk, BasesOk;
    HighestIsBest(k);
  }

  lemma UnlockFlags(k: Kernel, m: nat)
    requires Good(k) && Shape(k)
    ensures var k' := Unlock(k, m).0;
      k'.isrWoken == k.isrWoken && (k'.pendsv && !k.pendsv ==> Justified(k, k', DoUnlock(m)))
  {
    hide Core, TimeoutOk, EpisodesOk, SemsOk, QueuesOk, Acyclic, Boosted, OnlyCurrentRuns, Prompt, HandOver, Recompute,
         ShouldPreempt', DetachOwner, NoneBetter;
    UnlockGood(k, m);
    var k' := Unlock(k, m).0;
    if ShouldPreempt'(k') {
      UnlockPreempts(k');
    }
    var k1 := DetachOwner(k, m, k.current);
    DetachFlags(k, m, k.current);
    var ws := WaitersOf(k, MutexWaiters(m));
    if Releases(k, m) {
      if ws == [] {
        PreemptFrame(Recompute(k1, k.current, 0).0, k');
      } else {
        FirstWaits(k, MutexWaiters(m));
        HandOverFlags(k1, m, ws[0]);
        PreemptFrame(HandOver(k1, m, ws[0]).0, k');
      }
    }
  }

  lemma PreemptFrame(k: Kernel, k': Kernel)
    requires k' == k.(pendsv := k'.pendsv)
    ensures ShouldPreempt'(k') == ShouldPreempt'(k)
  {
  }

  lemma UnlockPreempts(k: Kernel)
    requires Good(k) && Shape(k) && ShouldPreempt'(k)
    ensures !NoneBetter(k)
  {
    hide WaitOk, OwnOk, TimeoutOk, EpisodesOk, SemsOk, QueuesOk, Acyclic, Boosted, Prompt, ReadyOk, BasesOk, TasksOk,
         ShouldPreempt, NoneBetter, OnlyCurrentRuns;
    PreemptIsBetter(k);
  }

  lemma DetachFlags(k: Kernel, m: nat, c: Tid)
    requires Shape(k) && c < |k.tasks|
    ensures var k' := DetachOwner(k, m, c); FlagsKept(k, k') && k'.prio == k.prio && k'.current == k.current
  {
  }

  lemma HandOverFlags(k: Kernel, m: nat, w: Tid)
    requires Shape(k) && w < |k.tasks|
    ensures var (k', woken, _) := HandOver(k, m, w);
      FlagsKept(k, k') && (woken ==> Eff(k.prio, w) < Eff(k.prio, k.current))
  {
    hide Recompute, Wake;
    var k1 := AttachOwner(k, m, w);
    WakeFlags(k1, w, Ok);
    WakePrio(k1, w, Ok);
  }

  lemma WakePrio(k: Kernel, t: Tid, result: Status)
    requires Shape(k) && t < |k.tasks|
    ensures Wake(k, t, result).prio == k.prio
  {
    hide Without, WithoutId, ReadyWith;
  }

  lemma {:induction false} ExpireAllFlags(k: Kernel, ids: seq<nat>)
    requires Shape(k)
    ensures FlagsKept(k, ExpireAll(k, ids)) && ExpireAll(k, ids).reasons == k.reasons
    decreases |ids|
  {
    hide ExpireOne;
    if ids != [] {
      ExpireFlags(k, ids[0]);
      ExpireAllFlags(ExpireOne(k, ids[0]), ids[1..]);
    }
  }

  lemma ExpireFlags(k: Kernel, u: Tid)
    requires Shape(k)
    ensures FlagsKept(k, ExpireOne(k, u)) && ExpireOne(k, u).reasons == k.reasons
  {
    hide Without, WithoutId, ReadyWith, Recompute;
  }

  lemma TailFlags(k: Kernel, woken: bool)
    requires Inv(k, {}) && Shape(k) && (woken ==> !NoneBetter(k))
    ensures var k' := TickTail(k, woken);
      && k'.isrWoken == k.isrWoken
      && (k'.pendsv && !k.pendsv ==> !NoneBetter(k') || BySlice in k'.reasons || k'.tasks[k'.current].state != Running)
  {
    hide WaitOk, OwnOk, TimeoutOk, EpisodesOk, SemsOk, QueuesOk, Acyclic, Boosted, TasksOk, ReadyOk, BasesOk,
         ShouldPreempt, OnlyCurrentRuns, NoneBetter;
    if k.tasks[k.current].state == Running {
      if ShouldPreempt(k) {
        PreemptIsBetter(k);
      }
      SliceBetter(k, TickTail(k, woken));
    }
  }

  lemma SliceBetter(k: Kernel, k': Kernel)
    requires Shape(k) && |k'.tasks| == |k.tasks| && k'.prio == k.prio && k'.current == k.current
    requires forall t: Tid :: t < |k.tasks| ==> k'.tasks[t].state == k.tasks[t].state
    ensures NoneBetter(k') == NoneBetter(k)
  {
  }

  lemma TickFlags(k: Kernel, fired: bool)
    requires Good(k) && Shape(k)
    ensures var k' := Tick(k, fired);
      k'.isrWoken == k.isrWoken && (k'.pendsv && !k.pendsv ==> Justified(k, k', SysTick(fired)))
  {
    hide Inv, Prompt, TickTimeouts, SemGiveLocked, TickTail, NoneBetter;
    var k1 := TickTimeouts(k);
    TickTimeoutsInv(k);
    TimeoutsFlags(k);
    if fired {
      GiveFlags(k1, TIMER_SIGNAL);
      GiveLockedInv(k1, TIMER_SIGNAL);
      TailFlags(SemGiveLocked(k1, TIMER_SIGNAL).0, SemGiveLocked(k1, TIMER_SIGNAL).2);
    } else {
      TailFlags(k1, false);
    }
  }

  lemma TimeoutsFlags(k: Kernel)
    requires Shape(k)
    ensures FlagsKept(k, TickTimeouts(k))
  {
    hide ExpireAll, DueIds, NotDue;
    ExpireAllFlags(Advanced(k), DueIds(k.timeouts, k.now + 1));
  }

  lemma TaskCallFlags(k: Kernel, step: Step)
    requires Good(k) && Shape(k)
    requires step.DoYield? || step.DoDelay? || step.DoDelayUntil? || step.DoTake? || step.IsrReturn?
      || step.ContextSwitch?
    ensures var k' := Apply(k, step);
      && (k'.isrWoken ==> k.isrWoken)
      && (k'.pendsv && !k.pendsv ==> Justified(k, k', step))
  {
    hide Inv, Prompt, DelayFor, BlockOn, NoneBetter, Highest, RotatedReady;
    match step
    case DoDelay(ticks) => DelayFlags(k, ticks);
    case DoDelayUntil(last, period) => DelayFlags(k, ((last + period) % TICK_RANGE - k.now % TICK_RANGE) % TICK_RANGE);
    case DoTake(s, timeout) => BlockFlags(k, SemWaiters(s), timeout, []);
    case _ =>
  }

  lemma DelayFlags(k: Kernel, ticks: nat)
    requires Shape(k)
    ensures var k' := DelayFor(k, ticks); FlagsKept(k, k') && k'.tasks[k'.current].state == Blocked
  {
    hide ReadyWithout, InsertByDue;
  }

  lemma SuspensionFlags(k: Kernel, step: Step)
    requires Good(k) && Shape(k) && (step.DoSuspend? || step.DoResume?)
    ensures var k' := Apply(k, step);
      k'.isrWoken == k.isrWoken && (k'.pendsv && !k.pendsv ==> Justified(k, k', step))
  {
    hide Inv, Prompt, SuspendedTask, Resumed, NoneBetter, WokenFlag;
    if step.DoResume? && step.t < |k.tasks| {
      var k1 := Resumed(k, step.t);
      if WokenFlag(k1, step.t) {
        FlagIsBetter(k1, step.t);
        NoneBetterFrame(k1, k1.(reasons := k1.reasons + {ByPreempt}, pendsv := true));
      }
    }
  }

  lemma ExchangeFlags(k: Kernel, step: Step)
    requires Good(k) && Shape(k)
    requires step.DoGive? || step.IsrGive? || step.DoSend? || step.IsrSend? || step.DoReceive? || step.IsrReceive?
    ensures var k' := Apply(k, step);
      && (k'.isrWoken && !k.isrWoken ==> !NoneBetter(k'))
      && (k'.pendsv && !k.pendsv ==> Justified(k, k', step))
  {
    hide Core, TimeoutOk, EpisodesOk, SemsOk, QueuesOk, Acyclic, Boosted, OnlyCurrentRuns, Prompt, NoneBetter,
         SemGiveLocked, SendLocked, ReceiveLocked;
    match step
    case DoGive(s) =>
      GiveFlags(k, s);
      NoneBetterFrame(SemGiveLocked(k, s).0, Apply(k, step));
    case IsrGive(s) =>
      GiveFlags(k, s);
      NoneBetterFrame(SemGiveLocked(k, s).0, Apply(k, step));
    case DoSend(q, item, timeout) =>
      SendFlags(k, q, item, timeout, true);
      NoneBetterFrame(SendLocked(k, q, item, timeout, true).0, Apply(k, step));
    case IsrSend(q, item) =>
      SendFlags(k, q, item, NO_WAIT, false);
      NoneBetterFrame(SendLocked(k, q, item, NO_WAIT, false).0, Apply(k, step));
    case DoReceive(q, timeout) =>
      ReceiveFlags(k, q, timeout, true);
      NoneBetterFrame(ReceiveLocked(k, q, timeout, true).0, Apply(k, step));
    case IsrReceive(q) =>
      ReceiveFlags(k, q, NO_WAIT, false);
      NoneBetterFrame(ReceiveLocked(k, q, NO_WAIT, false).0, Apply(k, step));
  }

  /** No step requests a switch without a reason, and an interrupt handler reports a wake only if the
      woken task is more urgent than the running one. */
  lemma SwitchJustified(k: Kernel, step: Step)
    requires Good(k) && Shape(k)
    ensures var k' := Apply(k, step);
      && (k'.pendsv && !k.pendsv ==> Justified(k, k', step))
      && (k'.isrWoken && !k.isrWoken ==> !NoneBetter(k'))
  {
    hide Inv, Prompt, NoneBetter, Justified, YieldCall, DelayCall, DelayUntilCall, SuspendCall, ResumeCall, Lock,
         Unlock,
         SemTake, SemGive, Send, Receive, SemGiveFromIsr, SendFromIsr, ReceiveFromIsr, Tick, PendSV;
    match step
    case DoLock(m, timeout) =>
      LockFlags(k, m, timeout);
      GivesWay(k, Apply(k, step), step);
    case DoUnlock(m) => UnlockFlags(k, m);
    case SysTick(fired) => TickFlags(k, fired);
    case DoSuspend(_) => SuspensionFlags(k, step);
    case DoResume(_) => SuspensionFlags(k, step);
    case DoGive(_) => ExchangeFlags(k, step);
    case IsrGive(_) => ExchangeFlags(k, step);
    case DoSend(_, _, _) => ExchangeFlags(k, step);
    case IsrSend(_, _) => ExchangeFlags(k, step);
    case DoReceive(_, _) => ExchangeFlags(k, step);
    case IsrReceive(_) => ExchangeFlags(k, step);
    case _ => TaskCallFlags(k, step);
  }

  lemma GivesWay(k: Kernel, k': Kernel, step: Step)
    requires k'.current < |k'.tasks|
    ensures k'.tasks[k'.current].state != Running ==> Justified(k, k', step)
  {
  }
}
