/**
 The histories kept in semaphores and queues are what callers observe: tokens are counted by
 successful calls and completed waits, and what a queue has delivered is what receivers got.
 */
module Accounts {
  import opened Config
  import opened Sequences
  import opened KernelModel
  import opened KernelInvariant
  import opened Blocking
  import opened Waking
  import opened Scheduling
  import opened Exchange
  import opened KernelRuns
  import opened KernelTheorems
  import opened TimerService
  import opened TaskEffects

  // ---------------------------------------------------------------------------
  // Semaphores
  // ---------------------------------------------------------------------------

  /** A give in state `k` with the given status counts one token given if it succeeds, and one
      taken if a task was waiting, whose wait then ended with success. */
  ghost predicate GiveCounted(k: Kernel, k': Kernel, s: nat, status: Status) {
    var x, x' := SemOf(k, s), SemOf(k', s);
    var ws := WaitersOf(k, SemWaiters(s));
    && (status == Ok ==> x'.given == x.given + 1 && x'.taken == x.taken + if ws != [] then 1 else 0)
    && (status == Ok && ws != [] ==>
         ws[0] < |k'.tasks| && k'.tasks[ws[0]].wait == NoWait && k'.tasks[ws[0]].result == Ok && x'.count == x.count)
    && (status == Ok && ws == [] ==> x'.count == x.count + 1)
    && (status != Ok ==> x' == x)
    && x'.initial == x.initial && x'.max == x.max
  }

  lemma GiveLockedCounted(k: Kernel, s: nat)
    requires Core(k, {}) && Shape(k)
    ensures GiveCounted(k, SemGiveLocked(k, s).0, s, SemGiveLocked(k, s).1)
    ensures SemGiveLocked(k, s).1 == Ok || SemGiveLocked(k, s).1 == InvalidArgument
      || SemGiveLocked(k, s).1 == SemaphoreFull
  {
    hide Core, Wake, WokenFlag;
    var ws := WaitersOf(k, SemWaiters(s));
    if s in k.sems && ws != [] {
      FirstWaits(k, SemWaiters(s));
      var x := SemOf(k, s);
      var k1 := k.(sems := k.sems[s := x.(given := x.given + 1, taken := x.taken + 1)]);
      WakeResult(k1, ws[0], Ok);
      WakeSems(k1, ws[0], Ok);
    }
  }

  lemma WakeSems(k: Kernel, t: Tid, result: Status)
    requires Shape(k) && t < |k.tasks|
    ensures Wake(k, t, result).sems == k.sems
  {
    hide Without, WithoutId, ReadyWith;
  }

  lemma GiveFlags(k: Kernel, k1: Kernel, k2: Kernel, s: nat, status: Status)
    requires GiveCounted(k, k1, s, status) && k2.tasks == k1.tasks && k2.sems == k1.sems
    ensures GiveCounted(k, k2, s, status)
  {
  }

  /** A take counts one token if it succeeds at once; if it waits, the giver will count it. */
  lemma TakeCounted(k: Kernel, s: nat, timeout: nat)
    requires Shape(k)
    ensures var (k', o) := SemTake(k, s, timeout);
      var x, x' := SemOf(k, s), SemOf(k', s);
      && x'.given == x.given && x'.initial == x.initial && x'.max == x.max
      && (if o == Done(Ok) then x'.taken == x.taken + 1 && x'.count + 1 == x.count
          else x'.taken == x.taken && x'.count == x.count)
  {
    hide BlockOn;
    BlockSems(k, SemWaiters(s), timeout);
  }

  lemma BlockSems(k: Kernel, l: ListId, timeout: nat)
    requires Shape(k)
    ensures BlockOn(k, l, timeout, []).sems == k.sems
  {
    hide ReadyWithout, InsertByPrio, InsertByDue;
  }

  /** Over one step of a run, the account of a semaphore changes exactly by the calls made on it. */
  ghost predicate TokensCounted(k: Kernel, step: Step, s: nat)
    requires Shape(k)
  {
    var k' := Apply(k, step);
    match step
    case DoTake(j, timeout) =>
      if j == s then SemOf(k', s).taken == SemOf(k, s).taken + (if SemTake(k, s, timeout).1 == Done(Ok) then 1 else 0)
          && SemOf(k', s).given == SemOf(k, s).given
      else SemOf(k', s) == SemOf(k, s)
    case DoGive(j) => if j == s then GiveCounted(k, k', s, SemGive(k, s).1) else SemOf(k', s) == SemOf(k, s)
    case IsrGive(j) => if j == s then GiveCounted(k, k', s, SemGiveFromIsr(k, s).1) else SemOf(k', s) == SemOf(k, s)
    case SysTick(fired) =>
      if fired && s == TIMER_SIGNAL then
        var k1 := TickTimeouts(k);
        SemOf(k1, s) == SemOf(k, s) && SemOf(k', s) == SemOf(SemGiveLocked(k1, s).0, s)
            && GiveCounted(k1, SemGiveLocked(k1, s).0, s, SemGiveLocked(k1, s).1)
      else SemOf(k', s) == SemOf(k, s)
    case _ => SemOf(k', s) == SemOf(k, s)
  }

  lemma TailSems(k: Kernel, woken: bool)
    requires Shape(k)
    ensures TickTail(k, woken).sems == k.sems
  {
    hide ShouldPreempt;
  }

  lemma NobodyHasTimeout(k: Kernel)
    requires Inv(k, {})
    ensures NoTimeout(k, |k.tasks|)
  {
    hide Core, EpisodesOk, SemsOk, QueuesOk, Acyclic, Boosted, SortedByDue, DistinctIds, OnlyCurrentRuns;
  }

  lemma TickTokens(k: Kernel, fired: bool, s: nat)
    requires Good(k) && Shape(k)
    ensures TokensCounted(k, SysTick(fired), s)
  {
    hide Inv, Prompt, TickTimeouts, TickTail, SemGiveLocked, LeftAlone, GiveCounted;
    NobodyHasTimeout(k);
    TickTimeoutsInv(k);
    TickTimeoutsLeavesAlone(k, s, |k.tasks|);
    SemKept(k, TickTimeouts(k), s, |k.tasks|);
    var k1 := TickTimeouts(k);
    if fired {
      InvHasCore(k1);
      GiveLockedCounted(k1, TIMER_SIGNAL);
      if s != TIMER_SIGNAL {
        GiveLeavesAlone(k1, TIMER_SIGNAL, s, |k.tasks|, true);
        SemKept(k1, SemGiveLocked(k1, TIMER_SIGNAL).0, s, |k.tasks|);
      }
      TailSems(SemGiveLocked(k1, TIMER_SIGNAL).0, SemGiveLocked(k1, TIMER_SIGNAL).2);
    } else {
      TailSems(k1, false);
    }
  }

  lemma InvHasCore(k: Kernel)
    requires Inv(k, {})
    ensures Core(k, {})
  {
  }

  lemma SemKept(k: Kernel, k': Kernel, s: nat, u: Tid)
    requires LeftAlone(k, k', s, u, false) || LeftAlone(k, k', s, u, true)
    ensures SemOf(k', s) == SemOf(k, s)
  {
  }

  /** Every step keeps the account: what a semaphore has given and taken is exactly the successful
      gives, the takes that succeeded at once, and the waits that a give completed. */
  lemma TokensAccounted(k: Kernel, step: Step, s: nat)
    requires Good(k) && Shape(k)
    ensures TokensCounted(k, step, s)
  {
    hide Inv, Prompt, Apply, LeftAlone, GiveCounted;
    if step.SysTick? {
      TickTokens(k, step.fired, s);
    } else if !Concerns(step, s) {
      StepLeavesAlone(k, step, s, |k.tasks|);
      SemKept(k, Apply(k, step), s, |k.tasks|);
    } else {
      OwnTokens(k, step, s);
    }
  }

  lemma OwnTokens(k: Kernel, step: Step, s: nat)
    requires Good(k) && Shape(k) && Concerns(step, s) && !step.SysTick?
    ensures TokensCounted(k, step, s)
  {
    hide Inv, Prompt, SemTake, SemGiveLocked, GiveCounted;
    InvHasCore(k);
    GiveLockedCounted(k, s);
    match step
    case DoTake(_, timeout) => TakeCounted(k, s, timeout);
    case DoGive(_) => GiveFlags(k, SemGiveLocked(k, s).0, SemGive(k, s).0, s, SemGive(k, s).1);
    case IsrGive(_) => GiveFlags(k, SemGiveLocked(k, s).0, SemGiveFromIsr(k, s).0, s, SemGiveFromIsr(k, s).1);
  }

  // ---------------------------------------------------------------------------
  // Queues
  // ---------------------------------------------------------------------------

  /** What a send returns to its caller. */
  ghost function SendReply(k: Kernel, step: Step): Outcome
    requires Shape(k) && (step.DoSend? || step.IsrSend?)
  {
    if step.DoSend? then Send(k, step.q, step.item, step.timeout).1 else SendFromIsr(k, step.q, step.item).1
  }

  ghost function ReceiveReply(k: Kernel, step: Step): Outcome
    requires Shape(k) && (step.DoReceive? || step.IsrReceive?)
  {
    if step.DoReceive? then Receive(k, step.q, step.timeout).1 else ReceiveFromIsr(k, step.q).1
  }

  /** What a queue accepts in a step: the item of a send that returns success, or the item of the
      waiting sender whose wait a receive ends. */
  ghost function Accepts(k: Kernel, step: Step, q: nat): seq<Item>
    requires Shape(k)
  {
    if Sends(step, q) then if SendReply(k, step) == Done(Ok) then [step.item] else []
    else if Receives(step, q) && Receiver(k, step).Some? && Receiver(k, step).value < |k.tasks|
    then [k.tasks[Receiver(k, step).value].item]
    else []
  }

  /** What a queue delivers in a step: the item a receive returns, or the item of a send that
      ends the wait of a receiver. */
  ghost function Delivers(k: Kernel, step: Step, q: nat): seq<Item>
    requires Shape(k)
  {
    if Receives(step, q) then
      if ReceiveReply(k, step).status == Ok && !ReceiveReply(k, step).blocked then [ReceiveReply(k, step).item] else []
    else if Sends(step, q) && Receiver(k, step).Some? then [step.item]
    else []
  }

  /** Every step changes the account of every queue exactly by what it accepts and delivers. */
  lemma QueueAccounted(k: Kernel, step: Step, q: nat)
    requires Good(k) && Shape(k)
    ensures QueueOf(Apply(k, step), q).accepted == QueueOf(k, q).accepted + Accepts(k, step, q)
    ensures QueueOf(Apply(k, step), q).received == QueueOf(k, q).received + Delivers(k, step, q)
  {
    hide Core, TimeoutOk, EpisodesOk, SemsOk, QueuesOk, Acyclic, Boosted, OnlyCurrentRuns, Prompt, Apply, Accepts,
         Delivers;
    if step.DoSend? || step.IsrSend? {
      SendStepAccounted(k, step, q);
    } else if step.DoReceive? || step.IsrReceive? {
      ReceiveStepAccounted(k, step, q);
    } else {
      OtherStepsAccounted(k, step, q);
    }
  }

  lemma SendStepAccounted(k: Kernel, step: Step, q: nat)
    requires Shape(k) && Core(k, {}) && (step.DoSend? || step.IsrSend?)
    ensures QueueOf(Apply(k, step), q).accepted == QueueOf(k, q).accepted + Accepts(k, step, q)
    ensures QueueOf(Apply(k, step), q).received == QueueOf(k, q).received + Delivers(k, step, q)
  {
    hide Core, SendLocked, First;
    SendAccounted(k, step.q, step.item, if step.DoSend? then step.timeout else NO_WAIT, step.DoSend?, q);
  }

  lemma ReceiveStepAccounted(k: Kernel, step: Step, q: nat)
    requires Shape(k) && Core(k, {}) && QueuesOk(k) && (step.DoReceive? || step.IsrReceive?)
    ensures QueueOf(Apply(k, step), q).accepted == QueueOf(k, q).accepted + Accepts(k, step, q)
    ensures QueueOf(Apply(k, step), q).received == QueueOf(k, q).received + Delivers(k, step, q)
  {
    hide Core, QueuesOk, ReceiveLocked, First;
    ReceiveAccounted(k, step.q, if step.DoReceive? then step.timeout else NO_WAIT, step.DoReceive?, q);
  }

  lemma OtherStepsAccounted(k: Kernel, step: Step, q: nat)
    requires Shape(k) && !step.DoSend? && !step.IsrSend? && !step.DoReceive? && !step.IsrReceive?
    ensures QueueOf(Apply(k, step), q).accepted == QueueOf(k, q).accepted + Accepts(k, step, q)
    ensures QueueOf(Apply(k, step), q).received == QueueOf(k, q).received + Delivers(k, step, q)
  {
    hide Apply;
    OtherStepsLeaveQueues(k, step);
  }

  lemma SendAccounted(k: Kernel, q: nat, item: Item, timeout: nat, mayBlock: bool, j: nat)
    requires Shape(k) && Core(k, {})
    ensures var (k', o, _) := SendLocked(k, q, item, timeout, mayBlock);
      var x, x' := QueueOf(k, j), QueueOf(k', j);
      && x'.accepted == x.accepted + (if j == q && o == Done(Ok) then [item] else [])
      && x'.received == x.received + (if j == q && q in k.queues && First(k, RecvWaiters(q)).Some? then [item] else [])
  {
    hide Wake, BlockOn, WokenFlag, Core;
    if WaitersOf(k, RecvWaiters(q)) != [] {
      FirstWaits(k, RecvWaiters(q));
    }
  }

  lemma RefilledQueues(k: Kernel, q: nat, j: nat)
    requires q in k.queues && QueueOf(k, q).items != []
    ensures var x, x', ss := QueueOf(k, j), QueueOf(Refilled(k, q), j), WaitersOf(k, SendWaiters(q));
      && x'.accepted == x.accepted + (if j == q && ss != [] && ss[0] < |k.tasks| then [k.tasks[ss[0]].item] else [])
      && x'.received == x.received + (if j == q then [x.items[0]] else [])
  {
  }

  /** A receive that finds nothing leaves the queues alone and does not succeed at once. */
  lemma ReceiveEmpty(k: Kernel, q: nat, timeout: nat, mayBlock: bool)
    requires Shape(k) && (q in k.queues ==> QueueOf(k, q).items == [] && WaitersOf(k, SendWaiters(q)) == [])
    ensures var (k', o, _) := ReceiveLocked(k, q, timeout, mayBlock);
      k'.queues == k.queues && (o.status != Ok || o.blocked)
  {
    hide FillFromSender, BlockOn, Wake, WokenFlag;
  }

  lemma ReceiveAccounted(k: Kernel, q: nat, timeout: nat, mayBlock: bool, j: nat)
    requires Shape(k) && Core(k, {}) && QueuesOk(k)
    ensures First(k, SendWaiters(q)).Some? ==> First(k, SendWaiters(q)).value < |k.tasks|
    ensures var (k', o, _) := ReceiveLocked(k, q, timeout, mayBlock);
      var x, x' := QueueOf(k, j), QueueOf(k', j);
      && x'.accepted == x.accepted +
           (if j == q && q in k.queues && First(k, SendWaiters(q)).Some?
               then [k.tasks[First(k, SendWaiters(q)).value].item] else [])
      && x'.received == x.received + (if j == q && o.status == Ok && !o.blocked then [o.item] else [])
  {
    hide Wake, WokenFlag, Core, FillFromSender, ReceiveLocked, QueuesOk, Refilled, BlockOn;
    if WaitersOf(k, SendWaiters(q)) != [] {
      FirstWaits(k, SendWaiters(q));
    }
    if q in k.queues {
      ReceiveCases(k, q, timeout, mayBlock);
      if QueueOf(k, q).items != [] {
        RefilledQueues(k, q, j);
      } else {
        ReceiveEmpty(k, q, timeout, mayBlock);
      }
    } else {
      ReceiveEmpty(k, q, timeout, mayBlock);
    }
  }

  lemma TickLeavesQueues(k: Kernel, fired: bool)
    requires Shape(k)
    ensures Tick(k, fired).queues == k.queues
  {
    hide TickTimeouts, SemGiveLocked, ShouldPreempt;
  }

  lemma LockLeavesQueues(k: Kernel, m: nat, timeout: nat)
    requires Shape(k)
    ensures Lock(k, m, timeout).0.queues == k.queues
  {
    hide LockBlocking;
  }

  lemma UnlockLeavesQueues(k: Kernel, m: nat)
    requires Shape(k)
    ensures Unlock(k, m).0.queues == k.queues
  {
    hide Recompute, HandOver, ShouldPreempt', Without;
  }

  lemma TakeLeavesQueues(k: Kernel, s: nat, timeout: nat)
    requires Shape(k)
    ensures SemTake(k, s, timeout).0.queues == k.queues
  {
    hide BlockOn;
  }

  lemma DelayCallsLeaveQueues(k: Kernel, ticks: nat, last: Word32, period: Word32)
    requires Shape(k)
    ensures YieldCall(k).queues == k.queues && DelayCall(k, ticks).0.queues == k.queues
    ensures DelayUntilCall(k, last, period).0.queues == k.queues
  {
    hide DelayFor;
  }

  lemma TaskCallsLeaveQueues(k: Kernel, t: Tid)
    requires Shape(k)
    ensures SuspendCall(k, t).0.queues == k.queues && ResumeCall(k, t).0.queues == k.queues
  {
    hide WokenFlag, SuspendedTask, Resumed;
  }

  lemma SwitchLeavesQueues(k: Kernel)
    requires Shape(k)
    ensures PendSV(k).queues == k.queues
  {
    hide Highest, RotatedReady;
    assert BeforeChoice(k).queues == k.queues;
  }

  /** The steps that concern no queue. */
  lemma OtherStepsLeaveQueues(k: Kernel, step: Step)
    requires Shape(k) && !step.DoSend? && !step.IsrSend? && !step.DoReceive? && !step.IsrReceive?
    ensures Apply(k, step).queues == k.queues
  {
    hide Lock, Unlock, Tick, SemTake, SemGiveLocked, YieldCall, DelayCall, DelayUntilCall, SuspendCall, ResumeCall,
         PendSV, Shape;
    match step
    case DoLock(m, timeout) => LockLeavesQueues(k, m, timeout);
    case DoUnlock(m) => UnlockLeavesQueues(k, m);
    case DoTake(s, timeout) => TakeLeavesQueues(k, s, timeout);
    case SysTick(fired) => TickLeavesQueues(k, fired);
    case DoSuspend(t) => TaskCallsLeaveQueues(k, t);
    case DoResume(t) => TaskCallsLeaveQueues(k, t);
    case ContextSwitch => SwitchLeavesQueues(k);
    case DoYield => DelayCallsLeaveQueues(k, 0, 0, 0);
    case DoDelay(ticks) => DelayCallsLeaveQueues(k, ticks, 0, 0);
    case DoDelayUntil(last, period) => DelayCallsLeaveQueues(k, 0, last, period);
    case _ =>
  }

  lemma WakeResult(k: Kernel, t: Tid, result: Status)
    requires Shape(k) && t < |k.tasks|
    ensures Wake(k, t, result).tasks[t].wait == NoWait && Wake(k, t, result).tasks[t].result == result
  {
    hide Without, WithoutId, ReadyWith;
  }

  /** A receive that returns an item has taken the oldest one from the queue. */
  lemma ReceiveDelivers(k: Kernel, q: nat, timeout: nat, mayBlock: bool)
    requires Shape(k) && Core(k, {}) && QueuesOk(k) && q in k.queues
    ensures var (k', o, _) := ReceiveLocked(k, q, timeout, mayBlock);
      var x, x' := QueueOf(k, q), QueueOf(k', q);
      if o.status == Ok && !o.blocked then x.items != [] && o.item == x.items[0] && x'.received == x.received + [o.item]
      else x' == x
  {
    hide Wake, WokenFlag, BlockOn, Core, FillFromSender;
    ReceiveCases(k, q, timeout, mayBlock);
  }

  /** A send to a queue with a waiting receiver puts the item into that receiver's buffer and
      completes its wait. */
  lemma SendDelivers(k: Kernel, q: nat, item: Item, timeout: nat, mayBlock: bool)
    requires Shape(k) && Core(k, {}) && q in k.queues && WaitersOf(k, RecvWaiters(q)) != []
    ensures var (k', o, _) := SendLocked(k, q, item, timeout, mayBlock);
      var w := WaitersOf(k, RecvWaiters(q))[0];
      && o == Done(Ok) && w < |k'.tasks| && QueueOf(k', q).received == QueueOf(k, q).received + [item]
      && k'.tasks[w].item == item && k'.tasks[w].wait == NoWait && k'.tasks[w].result == Ok
  {
    hide Core, Wake, WokenFlag;
    FirstWaits(k, RecvWaiters(q));
    var w := WaitersOf(k, RecvWaiters(q))[0];
    WakeResult(Delivered(k, q, w, item), w, Ok);
    WakeItem(Delivered(k, q, w, item), w, Ok);
  }

  lemma WakeItem(k: Kernel, t: Tid, result: Status)
    requires Shape(k) && t < |k.tasks|
    ensures Wake(k, t, result).tasks[t].item == k.tasks[t].item
  {
    hide Without, WithoutId, ReadyWith;
  }
}
