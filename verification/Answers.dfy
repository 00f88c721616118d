/**
 What every call answers, from its arguments and the state before it: exactly when it succeeds,
 waits or refuses, what it changes then, and that a refusal changes nothing.
 */
module Answers {
  import opened Config
  import opened Sequences
  import opened KernelModel
  import opened KernelInvariant
  import opened Blocking
  import opened Waking
  import opened Scheduling
  import opened Exchange
  import opened MutexSteps
  import opened KernelRuns
  import opened TaskEffects

  /** The answer of a call that would wait: it does, if the caller runs and may wait. */
  function WaitAnswer(k: Kernel): Outcome
    requires Shape(k)
  {
    if CallerCanWait(k) then Outcome(Ok, true, [])
    else if k.current == IDLE then Done(InvalidArgument)
    else Done(InvalidState)
  }

  // ---------------------------------------------------------------------------
  // Mutexes
  // ---------------------------------------------------------------------------

  /** A lock succeeds at once exactly on a free mutex or on the caller's own recursive one that can
      still be counted, and then the caller owns it once more. On another task's mutex it waits, or
      is busy if it must not. */
  lemma LockAnswers(k: Kernel, m: nat, timeout: nat)
    requires Good(k) && Shape(k)
    ensures var (k', o) := Lock(k, m, timeout);
      var mx, c := MutexOf(k, m), k.current;
      && (o == Done(Ok) <==>
            m in k.mutexes && (mx.owner == None || (mx.owner == Some(c) && mx.recursive && mx.count < UINT32_MAX)))
      && (o == Done(Ok) ==>
            && k'.mutexes == k.mutexes[m := mx.(owner := Some(c), count := mx.count + 1)]
            && k'.tasks == k.tasks && k'.waiters == k.waiters && k'.ready == k.ready && k'.prio == k.prio)
      && (o.blocked ==> k'.mutexes == k.mutexes && k'.pendsv)
      && (o != Done(Ok) && !o.blocked ==> k' == k)
      && (m !in k.mutexes ==> o == Done(InvalidArgument))
      && (m in k.mutexes && mx.owner == Some(c) && !mx.recursive ==> o == Done(MutexBusy))
      && (m in k.mutexes && mx.owner == Some(c) && mx.recursive && mx.count == UINT32_MAX ==> o == Done(Overflow))
      && (m in k.mutexes && mx.owner != None && mx.owner != Some(c) ==>
            o == if timeout == NO_WAIT then Done(MutexBusy) else WaitAnswer(k))
  {
    hide Core, TimeoutOk, EpisodesOk, SemsOk, QueuesOk, Acyclic, Boosted, OnlyCurrentRuns, Prompt, LockBlocking;
    FreeIsUncounted(k, m);
    if LockQueues(k, m, timeout) {
      LockBlockingObjects(k, m, MutexOf(k, m).owner.value, timeout);
    }
  }

  /** A mutex has an owner exactly if it is counted, and the owner is a task. */
  lemma FreeIsUncounted(k: Kernel, m: nat)
    requires Core(k, {})
    ensures MutexOf(k, m).owner == None <==> MutexOf(k, m).count == 0
    ensures MutexOf(k, m).owner.Some? ==> MutexOf(k, m).owner.value < |k.tasks|
    ensures MutexOf(k, m).count <= if MutexOf(k, m).recursive then UINT32_MAX else 1
  {
    hide ReadyOk, WaitOk;
  }

  lemma LockBlockingObjects(k: Kernel, m: nat, o: Tid, timeout: nat)
    requires Shape(k) && o < |k.tasks|
    ensures var k' := LockBlocking(k, m, o, timeout).0; k'.mutexes == k.mutexes && k'.sems == k.sems
  {
    hide Recompute, Without, WithoutId, ReadyWith, ReadyWithout, InsertByPrio, InsertByDue;
  }

  /** An unlock succeeds exactly for the owner. It lowers the count of a recursive mutex locked more
      than once; otherwise the mutex goes to the first waiter, or becomes free if there is none. */
  lemma UnlockAnswers(k: Kernel, m: nat)
    requires Good(k) && Shape(k)
    ensures var (k', o) := Unlock(k, m);
      var mx := MutexOf(k, m);
      && o == (if m !in k.mutexes then Done(InvalidArgument)
               else if mx.owner != Some(k.current) then Done(NotOwner) else Done(Ok))
      && (o != Done(Ok) ==> k' == k)
      && (o == Done(Ok) ==>
            k'.mutexes == k.mutexes[m :=
              if mx.recursive && mx.count > 1 then mx.(count := mx.count - 1)
              else if First(k, MutexWaiters(m)).Some? then mx.(owner := First(k, MutexWaiters(m)), count := 1)
              else mx.(owner := None, count := 0)])
  {
    hide Core, TimeoutOk, EpisodesOk, SemsOk, QueuesOk, Acyclic, Boosted, OnlyCurrentRuns, Prompt, HandOver, Recompute,
         ShouldPreempt', DetachOwner;
    var ws := WaitersOf(k, MutexWaiters(m));
    UnlockGood(k, m);
    if Releases(k, m) {
      DetachOwnerMutexes(k, m, k.current);
      if ws != [] {
        FirstWaits(k, MutexWaiters(m));
        HandOverMutexes(DetachOwner(k, m, k.current), m, ws[0]);
        HandOverMap(k, m, ws[0]);
      }
    }
  }

  lemma DetachOwnerMutexes(k: Kernel, m: nat, c: Tid)
    requires Shape(k) && c < |k.tasks|
    ensures DetachOwner(k, m, c).mutexes == k.mutexes[m := MutexOf(k, m).(owner := None, count := 0)]
  {
  }

  lemma HandOverMutexes(k: Kernel, m: nat, w: Tid)
    requires Shape(k) && w < |k.tasks|
    ensures HandOver(k, m, w).0.mutexes == k.mutexes[m := MutexOf(k, m).(owner := Some(w), count := 1)]
  {
    hide Recompute, Wake, WokenFlag;
    WakeObjects(AttachOwner(k, m, w), w, Ok);
  }

  lemma HandOverMap(k: Kernel, m: nat, w: Tid)
    requires Shape(k) && w < |k.tasks|
    ensures var mx := MutexOf(k, m);
      k.mutexes[m := mx.(owner := None, count := 0)][m := mx.(owner := Some(w), count := 1)] ==
        k.mutexes[m := mx.(owner := Some(w), count := 1)]
  {
  }

  lemma WakeObjects(k: Kernel, t: Tid, result: Status)
    requires Shape(k) && t < |k.tasks|
    ensures var k' := Wake(k, t, result); k'.mutexes == k.mutexes && k'.sems == k.sems
  {
    hide Without, WithoutId, ReadyWith;
  }

  // ---------------------------------------------------------------------------
  // Semaphores
  // ---------------------------------------------------------------------------

  /** A take succeeds at once exactly if a token is available, which it removes. */
  lemma TakeAnswers(k: Kernel, s: nat, timeout: nat)
    requires Good(k) && Shape(k)
    ensures var (k', o) := SemTake(k, s, timeout);
      var x := SemOf(k, s);
      && (o == Done(Ok) <==> s in k.sems && x.count > 0)
      && (o == Done(Ok) ==> k' == k.(sems := k'.sems) && SemOf(k', s).count == x.count - 1)
      && (o != Done(Ok) && !o.blocked ==> k' == k)
      && (s !in k.sems ==> o == Done(InvalidArgument))
      && (s in k.sems && x.count == 0 ==> o == if timeout == NO_WAIT then Done(SemaphoreEmpty) else WaitAnswer(k))
      && (o.blocked ==> k'.sems == k.sems && k'.pendsv)
  {
    hide Inv, Prompt, BlockOn;
    BlockKeepsObjects(k, SemWaiters(s), timeout, []);
  }

  lemma BlockKeepsObjects(k: Kernel, l: ListId, timeout: nat, item: Item)
    requires Shape(k)
    ensures var k' := BlockOn(k, l, timeout, item);
      k'.sems == k.sems && k'.queues == k.queues && k'.mutexes == k.mutexes
  {
    hide ReadyWithout, InsertByPrio, InsertByDue;
  }

  /** A give succeeds exactly if somebody waits or the semaphore is not full. */
  lemma GiveAnswers(k: Kernel, s: nat)
    requires Good(k) && Shape(k)
    ensures var waits := WaitersOf(k, SemWaiters(s)) != [];
      var x := SemOf(k, s);
      && SemGiveFromIsr(k, s).1 == SemGive(k, s).1
      && SemGive(k, s).1 ==
           (if s !in k.sems then InvalidArgument else if waits || x.count < x.max then Ok else SemaphoreFull)
      && (SemGive(k, s).1 != Ok ==> SemGive(k, s).0 == k && SemGiveFromIsr(k, s).0 == k)
      && (SemGive(k, s).1 == Ok ==>
            && SemOf(SemGive(k, s).0, s).count == x.count + (if waits then 0 else 1)
            && SemOf(SemGiveFromIsr(k, s).0, s).count == x.count + (if waits then 0 else 1))
  {
    hide Core, TimeoutOk, EpisodesOk, SemsOk, QueuesOk, Acyclic, Boosted, OnlyCurrentRuns, Prompt, Wake, WokenFlag;
    var x := SemOf(k, s);
    var ws := WaitersOf(k, SemWaiters(s));
    if ws != [] {
      FirstWaits(k, SemWaiters(s));
      WakeObjects(k.(sems := k.sems[s := x.(given := x.given + 1, taken := x.taken + 1)]), ws[0], Ok);
    }
  }

  // ---------------------------------------------------------------------------
  // Queues
  // ---------------------------------------------------------------------------

  /** A send succeeds at once exactly if a receiver waits or there is room, whatever its timeout and
      whoever makes it; on a full queue it is refused, or waits if it may. */
  lemma SendAnswers(k: Kernel, q: nat, item: Item, timeout: nat)
    requires Good(k) && Shape(k)
    ensures var o := Send(k, q, item, timeout).1;
      var i := SendFromIsr(k, q, item).1;
      var x := QueueOf(k, q);
      var room := WaitersOf(k, RecvWaiters(q)) != [] || |x.items| < x.capacity;
      && (o == Done(Ok) <==> q in k.queues && room) && (i == Done(Ok) <==> q in k.queues && room)
      && (q !in k.queues ==> o == Done(InvalidArgument) && i == Done(InvalidArgument))
      && (q in k.queues && !room ==>
            && i == Done(QueueFull)
            && o == if timeout == NO_WAIT then Done(QueueFull) else WaitAnswer(k))
      && (o != Done(Ok) && !o.blocked ==> Send(k, q, item, timeout).0 == k)
      && (i != Done(Ok) ==> SendFromIsr(k, q, item).0 == k)
  {
    hide Core, TimeoutOk, EpisodesOk, SemsOk, QueuesOk, Acyclic, Boosted, OnlyCurrentRuns, Prompt, Wake, WokenFlag,
         BlockOn;
    if WaitersOf(k, RecvWaiters(q)) != [] {
      FirstWaits(k, RecvWaiters(q));
    }
  }

  /** What is stored: the item goes behind the buffered ones exactly if nobody waits for it. */
  lemma SendStores(k: Kernel, q: nat, item: Item, timeout: nat, mayBlock: bool)
    requires Good(k) && Shape(k) && q in k.queues
    ensures var (k', o, _) := SendLocked(k, q, item, timeout, mayBlock);
      && QueueOf(k', q).items ==
           QueueOf(k, q).items + (if o == Done(Ok) && WaitersOf(k, RecvWaiters(q)) == [] then [item] else [])
      && forall j: nat :: j != q ==> QueueOf(k', j) == QueueOf(k, j)
  {
    hide Core, TimeoutOk, EpisodesOk, SemsOk, QueuesOk, Acyclic, Boosted, OnlyCurrentRuns, Prompt, Wake, WokenFlag,
         BlockOn;
    if WaitersOf(k, RecvWaiters(q)) != [] {
      FirstWaits(k, RecvWaiters(q));
    }
  }

  /** A receive succeeds at once exactly if an item is buffered, and returns the oldest. */
  lemma ReceiveAnswers(k: Kernel, q: nat, timeout: nat)
    requires Good(k) && Shape(k)
    ensures var o := Receive(k, q, timeout).1;
      var i := ReceiveFromIsr(k, q).1;
      var x := QueueOf(k, q);
      && (q !in k.queues ==> o == Done(InvalidArgument) && i == Done(InvalidArgument))
      && (q in k.queues && x.items != [] ==> o == i == Outcome(Ok, false, x.items[0]))
      && (q in k.queues && x.items == [] ==>
            && i == Done(QueueEmpty)
            && o == if timeout == NO_WAIT then Done(QueueEmpty) else WaitAnswer(k))
      && (o.status != Ok ==> Receive(k, q, timeout).0 == k)
      && (i.status != Ok ==> ReceiveFromIsr(k, q).0 == k)
  {
    hide Core, TimeoutOk, EpisodesOk, SemsOk, QueuesOk, Acyclic, Boosted, OnlyCurrentRuns, Prompt, Wake, WokenFlag,
         BlockOn,
         FillFromSender, Refilled;
    if q in k.queues {
      ReceiveCases(k, q, timeout, true);
      ReceiveCases(k, q, NO_WAIT, false);
    }
  }

  // ---------------------------------------------------------------------------
  // Task calls
  // ---------------------------------------------------------------------------

  /** A delay waits for its ticks, yields for zero ticks, and refuses to wait for ever. */
  lemma DelayAnswers(k: Kernel, ticks: nat)
    requires Good(k) && Shape(k)
    ensures var (k', o) := DelayCall(k, ticks);
      && o == (if ticks == 0 then Done(Ok)
               else if ticks == WAIT_FOREVER then Done(InvalidArgument)
               else if CallerCanWait(k) then Outcome(Ok, true, [])
               else Done(InvalidState))
      && (ticks == 0 && k.tasks[k.current].state == Running ==>
            k' == k.(reasons := k.reasons + {ByYield}, pendsv := true))
      && (ticks != 0 && !o.blocked ==> k' == k)
      && (o.blocked ==> k'.pendsv)
  {
    hide Inv, Prompt, DelayFor;
  }

  /** A periodic delay refuses a period outside the half range without moving the reference, returns
      at once if the next point is not ahead, and waits otherwise. */
  lemma DelayUntilAnswers(k: Kernel, last: Word32, period: Word32)
    requires Good(k) && Shape(k)
    ensures var (k', o, last') := DelayUntilCall(k, last, period);
      var ahead := (last + period - k.now % TICK_RANGE) % TICK_RANGE;
      && (o, last') ==
           (if period == 0 || period > INT32_MAX then (Done(InvalidArgument), last)
            else if ahead == 0 || ahead > INT32_MAX then (Done(Ok), (last + period) % TICK_RANGE)
            else if CallerCanWait(k) then (Outcome(Ok, true, []), (last + period) % TICK_RANGE)
            else (Done(InvalidState), last))
      && (!o.blocked ==> k' == k)
      && (o.blocked ==> k'.pendsv)
  {
    hide Inv, Prompt, DelayFor;
    DistanceAgain(last + period, k.now % TICK_RANGE);
  }

  /** A suspension succeeds exactly for a task that is neither the idle task nor suspended already. */
  lemma SuspendAnswers(k: Kernel, t: Tid)
    requires Good(k) && Shape(k)
    ensures var (k', status) := SuspendCall(k, t);
      && status == (if t >= |k.tasks| then InvalidArgument
                    else if t == IDLE || k.tasks[t].state == Suspended then InvalidState else Ok)
      && (status != Ok ==> k' == k)
      && (status == Ok ==>
            && k'.tasks[t].state == Suspended
            && k'.tasks[t].resume == (if k.tasks[t].state == Blocked then Blocked else Ready)
            && (forall p: nat :: p < |k'.ready| ==> t !in k'.ready[p])
            && k'.waiters == k.waiters && k'.timeouts == k.timeouts
            && (t == k.current && k.tasks[t].state == Running ==> k'.pendsv))
  {
    hide TimeoutOk, EpisodesOk, SemsOk, QueuesOk, Acyclic, Boosted, Prompt, WaitOk, OwnOk, BasesOk, ReadyOk,
         SuspendedTask;
    if t < |k.tasks| {
      assert TaskOk(k.tasks[t]);
      if t != IDLE && k.tasks[t].state != Suspended {
        SuspendedRecord(k, t);
        SuspendedLeaves(k, t);
      }
    }
  }

  lemma SuspendedLeaves(k: Kernel, t: Tid)
    requires Shape(k) && ReadyOk(k) && t < |k.tasks| && k.tasks[t].state != Suspended
    ensures var k' := SuspendedTask(k, t); forall p: nat :: p < |k'.ready| ==> t !in k'.ready[p]
  {
  }

  /** A resumption succeeds exactly for a suspended task. */
  lemma ResumeAnswers(k: Kernel, t: Tid)
    requires Good(k) && Shape(k)
    ensures var (k', status) := ResumeCall(k, t);
      && status == (if t >= |k.tasks| then InvalidArgument
                    else if k.tasks[t].state != Suspended then InvalidState else Ok)
      && (status != Ok ==> k' == k)
      && (status == Ok ==>
            && k'.tasks[t].state == (if k.tasks[t].resume == Blocked then Blocked else Ready)
            && k'.waiters == k.waiters && k'.timeouts == k.timeouts
            && k'.ready == (if k.tasks[t].resume == Blocked then k.ready
                            else k.ready[k.prio[t].eff := k.ready[k.prio[t].eff] + [t]]))
  {
    hide TimeoutOk, EpisodesOk, SemsOk, QueuesOk, Acyclic, Boosted, Prompt, WaitOk, OwnOk, ReadyOk, OnlyCurrentRuns,
         WokenFlag;
    if t < |k.tasks| {
      assert TaskOk(k.tasks[t]);
    }
  }

  /** Registration accepts exactly a level above the idle one while there is room, and appends a
      ready task of that priority to the end of its level. */
  lemma RegisterAnswers(k: Kernel, priority: nat)
    requires Shape(k)
    ensures var (k', status) := Register(k, priority);
      && (status == Ok <==> priority < IDLE_PRIORITY && |k.tasks| < MAX_TASKS)
      && (status != Ok ==> k' == k)
      && (status == Ok ==>
            && |k'.tasks| == |k.tasks| + 1 && k'.tasks[|k.tasks|].state == Ready
            && k'.prio == k.prio + [Prio(priority, priority)]
            && k'.ready == k.ready[priority := k.ready[priority] + [|k.tasks|]])
  {
  }
}
