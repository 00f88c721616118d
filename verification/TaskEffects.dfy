/**
 What every step does to every task, exactly: which wait it ends and with which result, which
 wait it begins, and what it leaves as it was.
 */
module TaskEffects {
  import opened Config
  import opened Sequences
  import opened KernelModel
  import opened KernelInvariant
  import opened Blocking
  import opened Waking
  import opened Scheduling
  import opened Exchange
  import opened MutexSteps
  import opened KernelRuns

  datatype Effect =
    | Keeps
    | Begins(wait: Wait, due: Option<nat>)
    | Completes(result: Status)
    | Refused

  function First(k: Kernel, l: ListId): Option<Tid> {
    if WaitersOf(k, l) == [] then None else Some(WaitersOf(k, l)[0])
  }

  predicate Sends(step: Step, q: nat) {
    (step.DoSend? || step.IsrSend?) && step.q == q
  }

  predicate Receives(step: Step, q: nat) {
    (step.DoReceive? || step.IsrReceive?) && step.q == q
  }

  predicate Gives(step: Step, s: nat) {
    ((step.DoGive? || step.IsrGive?) && step.s == s) || (step == SysTick(true) && s == TIMER_SIGNAL)
  }

  /** The unlock that gives the mutex up. */
  predicate Releases(k: Kernel, m: nat) {
    m in k.mutexes && MutexOf(k, m).owner == Some(k.current) && !(MutexOf(k, m).recursive && MutexOf(k, m).count > 1)
  }

  /** The waiting task to which a step hands something over. */
  ghost function Receiver(k: Kernel, step: Step): Option<Tid>
    requires Shape(k)
  {
    match step
    case DoUnlock(m) => if Releases(k, m) then First(k, MutexWaiters(m)) else None
    case DoGive(s) => if s in k.sems then First(k, SemWaiters(s)) else None
    case IsrGive(s) => if s in k.sems then First(k, SemWaiters(s)) else None
    case DoSend(q, _, _) => if q in k.queues then First(k, RecvWaiters(q)) else None
    case IsrSend(q, _) => if q in k.queues then First(k, RecvWaiters(q)) else None
    case DoReceive(q, _) => if q in k.queues then First(k, SendWaiters(q)) else None
    case IsrReceive(q) => if q in k.queues then First(k, SendWaiters(q)) else None
    case SysTick(fired) => if fired && TIMER_SIGNAL in k.sems then First(TickTimeouts(k), SemWaiters(TIMER_SIGNAL))
      else None
    case _ => None
  }

  /** A task runs that may wait. */
  predicate CallerCanWait(k: Kernel)
    requires Shape(k)
  {
    k.current != IDLE && k.tasks[k.current].state == Running
  }

  /** The wait that a call begins, with its deadline, in terms of its arguments and the objects. */
  ghost function NewWait(k: Kernel, step: Step): Option<(Wait, Option<nat>)>
    requires Shape(k)
  {
    if !CallerCanWait(k) then None
    else
      match step
      case DoDelay(ticks) =>
        if 0 < ticks && ticks != WAIT_FOREVER then Some((Delay, Some(k.now + ticks))) else None
      case DoDelayUntil(last, period) =>
        var ahead := (last + period - k.now % TICK_RANGE) % TICK_RANGE;
        if 0 < period <= INT32_MAX && 0 < ahead <= INT32_MAX then Some((Delay, Some(k.now + ahead))) else None
      case DoLock(m, timeout) =>
        if m in k.mutexes && k.mutexes[m].owner.Some? && k.mutexes[m].owner != Some(k.current) && timeout != NO_WAIT
        then Some((On(MutexWaiters(m)), if timeout == WAIT_FOREVER then None else Some(k.now + timeout)))
        else None
      case DoTake(s, timeout) =>
        if s in k.sems && k.sems[s].count == 0 && timeout != NO_WAIT
        then Some((On(SemWaiters(s)), if timeout == WAIT_FOREVER then None else Some(k.now + timeout)))
        else None
      case DoSend(q, _, timeout) =>
        if q in k.queues && WaitersOf(k, RecvWaiters(q)) == [] && |k.queues[q].items| >= k.queues[q].capacity
           && timeout != NO_WAIT
        then Some((On(SendWaiters(q)), if timeout == WAIT_FOREVER then None else Some(k.now + timeout)))
        else None
      case DoReceive(q, timeout) =>
        if q in k.queues && k.queues[q].items == [] && timeout != NO_WAIT
        then Some((On(RecvWaiters(q)), if timeout == WAIT_FOREVER then None else Some(k.now + timeout)))
        else None
      case _ => None
  }

  predicate DueNow(k: Kernel, step: Step, t: Tid) {
    step.SysTick? && Entry(t, k.now + 1) in k.timeouts
  }

  ghost function EffectOn(k: Kernel, step: Step, t: Tid): Effect
    requires Shape(k) && t < |k.tasks|
  {
    if DueNow(k, step, t) then Completes(if k.tasks[t].wait == Delay then Ok else Timeout)
    else if Receiver(k, step) == Some(t) then Completes(Ok)
    else if t == k.current && NewWait(k, step).Some? then
      if step.DoLock? && WouldDeadlock(k, step.m) then Refused
      else Begins(NewWait(k, step).value.0, NewWait(k, step).value.1)
    else Keeps
  }

  /** Without the beginning or the end of a wait, only suspension and resumption move a task in
      or out of its state, apart from the choice among the runnable ones. */
  predicate StateKept(x: Task, x': Task, step: Step, t: Tid) {
    match x.state
    case Suspended =>
      if step == DoResume(t) then x'.state == (if x.resume == Blocked then Blocked else Ready)
      else x'.state == Suspended && x'.resume == x.resume
    case Blocked => if step == DoSuspend(t) then x'.state == Suspended && x'.resume == Blocked else x'.state == Blocked
    case _ =>
      if step == DoSuspend(t) && t != IDLE then x'.state == Suspended && x'.resume == Ready
      else if step == ContextSwitch then Runnable(x')
      else x'.state == x.state
  }

  function ItemAfter(x: Task, step: Step): Item {
    if step.DoSend? || step.IsrSend? then step.item else x.item
  }

  /** Record and history of `t` change from `k` to `k'` as `e` says. */
  ghost predicate Follows(k: Kernel, k': Kernel, step: Step, t: Tid, e: Effect) {
    && t < |k.tasks| && t < |k'.tasks| && t < |k.hist| && t < |k'.hist|
    && var x, x', h, h' := k.tasks[t], k'.tasks[t], k.hist[t], k'.hist[t];
       match e
       case Keeps => h' == h && x'.wait == x.wait && x'.result == x.result && x'.item == x.item
         && StateKept(x, x', step, t)
       case Begins(w, due) =>
         && h' == h + [Began(w, k.now, due)] && x'.wait == w && x'.state == Blocked
         && (w.On? && w.list.SendWaiters? ==> x'.item == ItemAfter(x, step))
       case Completes(r) =>
         && h' == h + [Ended(r, k'.now)] && x'.wait == NoWait && x'.result == r && x'.item == ItemAfter(x, step)
         && (if x.state == Suspended then x'.state == Suspended && x'.resume == Ready else x'.state == Ready)
       case Refused =>
         && step.DoLock?
         && h' == h + [
              Began(On(MutexWaiters(step.m)), k.now,
                    if step.timeout == WAIT_FOREVER then None else Some(k.now + step.timeout)),
              Ended(Internal, k.now)]
         && x'.wait == NoWait && x'.result == Internal && x'.state == Ready
  }

  // ---------------------------------------------------------------------------
  // Records
  // ---------------------------------------------------------------------------

  /** The record of a task whose wait ends. */
  function Woke(x: Task, result: Status): Task {
    var y := x.(wait := NoWait, result := result, slice := TIME_SLICE_TICKS);
    if x.state == Suspended then y.(resume := Ready) else y.(state := Ready)
  }

  lemma FinishRecord(k: Kernel, t: Tid, result: Status)
    requires Shape(k) && t < |k.tasks|
    ensures var k' := Finish(k, t, result);
      k'.tasks == k.tasks[t := Woke(k.tasks[t], result)] && k'.hist == k.hist[t := k.hist[t] + [Ended(result, k.now)]]
  {
    hide ReadyWith;
  }

  lemma DetachRecord(k: Kernel, t: Tid)
    requires t < |k.tasks|
    ensures var k' := Detach(k, t); k'.tasks == k.tasks && k'.hist == k.hist && k'.now == k.now
  {
    hide Without, WithoutId;
  }

  lemma WakeRecord(k: Kernel, t: Tid, result: Status)
    requires Shape(k) && t < |k.tasks|
    ensures var k' := Wake(k, t, result);
      k'.tasks == k.tasks[t := Woke(k.tasks[t], result)] && k'.hist == k.hist[t := k.hist[t] + [Ended(result, k.now)]]
  {
    hide Detach, Finish;
    DetachRecord(k, t);
    FinishRecord(Detach(k, t), t, result);
  }

  lemma BlockRecord(k: Kernel, l: ListId, timeout: nat, item: Item)
    requires Shape(k)
    ensures var k' := BlockOn(k, l, timeout, item);
      var c := k.current;
      && k'.tasks == k.tasks[c := k'.tasks[c]]
      && k'.hist == k.hist[c := k.hist[c] + [Began(On(l), k.now, DueAt(k, timeout))]]
      && k'.tasks[c].state == Blocked && k'.tasks[c].wait == On(l) && k'.tasks[c].item == item
  {
    hide ReadyWithout, InsertByPrio, InsertByDue;
  }

  lemma DelayRecord(k: Kernel, ticks: nat)
    requires Shape(k)
    ensures var k' := DelayFor(k, ticks);
      var c := k.current;
      && k'.tasks == k.tasks[c := k'.tasks[c]]
      && k'.hist == k.hist[c := k.hist[c] + [Began(Delay, k.now, Some(k.now + ticks))]]
      && k'.tasks[c].state == Blocked && k'.tasks[c].wait == Delay
  {
    hide ReadyWithout, InsertByDue;
  }

  // ---------------------------------------------------------------------------
  // From records to effects
  // ---------------------------------------------------------------------------

  lemma Untouched(k: Kernel, k': Kernel, step: Step, t: Tid)
    requires t < |k.tasks| && t < |k'.tasks| && t < |k.hist| && t < |k'.hist| && TaskOk(k.tasks[t])
    requires k'.tasks[t] == k.tasks[t] && k'.hist[t] == k.hist[t] && step != DoResume(t) && step != DoSuspend(t)
    ensures Follows(k, k', step, t, Keeps)
  {
  }

  /** One task is woken and nothing else happens to any task. */
  lemma OneWakes(k: Kernel, k0: Kernel, k': Kernel, step: Step, w: Tid, result: Status, t: Tid)
    requires Shape(k) && TasksOk(k) && w < |k.tasks| && t < |k.tasks| && step != DoResume(t) && step != DoSuspend(t)
    requires k0.tasks == k.tasks[w := k.tasks[w].(item := ItemAfter(k.tasks[w], step))] && k0.hist == k.hist
    requires k'.tasks == k0.tasks[w := Woke(k0.tasks[w], result)]
      && k'.hist == k.hist[w := k.hist[w] + [Ended(result, k'.now)]]
    ensures Follows(k, k', step, t, if t == w then Completes(result) else Keeps)
  {
    if t != w {
      Untouched(k, k', step, t);
    }
  }

  /** Tasks and histories are all as before. */
  lemma NobodyMoves(k: Kernel, k': Kernel, step: Step, t: Tid)
    requires Shape(k) && TasksOk(k) && t < |k.tasks| && step != DoResume(t) && step != DoSuspend(t)
    requires k'.tasks == k.tasks && k'.hist == k.hist
    ensures Follows(k, k', step, t, Keeps)
  {
    Untouched(k, k', step, t);
  }

  /** The caller begins to wait and nothing else happens to any task. */
  lemma CallerBlocks(k: Kernel, k': Kernel, step: Step, w: Wait, due: Option<nat>, t: Tid)
    requires Shape(k) && TasksOk(k) && t < |k.tasks| && step != DoResume(t) && step != DoSuspend(t)
    requires var c := k.current;
      && |k'.tasks| == |k.tasks| && k'.tasks == k.tasks[c := k'.tasks[c]]
          && k'.hist == k.hist[c := k.hist[c] + [Began(w, k.now, due)]]
      && k'.tasks[c].state == Blocked && k'.tasks[c].wait == w
      && (w.On? && w.list.SendWaiters? ==> k'.tasks[c].item == ItemAfter(k.tasks[c], step))
    ensures Follows(k, k', step, t, if t == k.current then Begins(w, due) else Keeps)
  {
    if t != k.current {
      Untouched(k, k', step, t);
    }
  }

  // ---------------------------------------------------------------------------
  // Calls that wait without a wait list
  // ---------------------------------------------------------------------------

  lemma DelayCallEffect(k: Kernel, ticks: nat, t: Tid)
    requires Shape(k) && TasksOk(k) && t < |k.tasks|
    ensures Follows(k, DelayCall(k, ticks).0, DoDelay(ticks), t, EffectOn(k, DoDelay(ticks), t))
  {
    hide DelayFor, Follows;
    var step := DoDelay(ticks);
    DelayRecord(k, ticks);
    if DelayCall(k, ticks).1.blocked {
      CallerBlocks(k, DelayCall(k, ticks).0, step, Delay, Some(k.now + ticks), t);
    } else {
      NobodyMoves(k, DelayCall(k, ticks).0, step, t);
    }
  }

  lemma DelayUntilCallEffect(k: Kernel, last: Word32, period: Word32, t: Tid)
    requires Shape(k) && TasksOk(k) && t < |k.tasks|
    ensures Follows(k, DelayUntilCall(k, last, period).0, DoDelayUntil(last, period), t,
      EffectOn(k, DoDelayUntil(last, period), t))
  {
    hide DelayFor, Follows;
    var step := DoDelayUntil(last, period);
    var remaining: Word32 := ((last + period) % TICK_RANGE - k.now % TICK_RANGE) % TICK_RANGE;
    DistanceAgain(last + period, k.now % TICK_RANGE);
    DelayRecord(k, remaining);
    if DelayUntilCall(k, last, period).1.blocked {
      CallerBlocks(k, DelayUntilCall(k, last, period).0, step, Delay, Some(k.now + remaining), t);
    } else {
      NobodyMoves(k, DelayUntilCall(k, last, period).0, step, t);
    }
  }

  lemma DistanceAgain(x: int, y: int)
    ensures (x % TICK_RANGE - y) % TICK_RANGE == (x - y) % TICK_RANGE
  {
  }

  lemma YieldEffect(k: Kernel, t: Tid)
    requires Shape(k) && TasksOk(k) && t < |k.tasks|
    ensures Follows(k, YieldCall(k), DoYield, t, EffectOn(k, DoYield, t))
  {
    hide Follows;
    NobodyMoves(k, YieldCall(k), DoYield, t);
  }

  // ---------------------------------------------------------------------------
  // Suspension, resumption and the switch
  // ---------------------------------------------------------------------------

  /** Steps that neither begin nor end a wait. */
  lemma PlainStep(k: Kernel, step: Step, t: Tid)
    requires Shape(k) && t < |k.tasks|
    requires step.DoYield? || step.DoSuspend? || step.DoResume? || step.IsrReturn? || step.ContextSwitch?
    ensures EffectOn(k, step, t) == Keeps
  {
  }

  /** A suspension changes the task, or nothing. */
  lemma SuspendTasks(k: Kernel, u: Tid)
    requires Shape(k)
    ensures var r := SuspendCall(k, u).0;
      && r.hist == k.hist && r.sems == k.sems && r.now == k.now
      && (r.tasks == k.tasks ||
          (u < |k.tasks| && u != IDLE && k.tasks[u].state != Suspended && r.tasks == SuspendedTask(k, u).tasks))
  {
    hide SuspendedTask;
  }

  lemma SuspendEffect(k: Kernel, u: Tid, t: Tid)
    requires Shape(k) && TasksOk(k) && BasesOk(k) && OnlyCurrentRuns(k) && t < |k.tasks|
    ensures Follows(k, SuspendCall(k, u).0, DoSuspend(u), t, EffectOn(k, DoSuspend(u), t))
  {
    hide EffectOn, SuspendedTask, SuspendCall, TasksOk, Follows, TaskOk;
    PlainStep(k, DoSuspend(u), t);
    TaskIsOk(k, t);
    SuspendTasks(k, u);
    SuspendsOrNot(k, u, t);
    if u < |k.tasks| {
      SuspendedRecord(k, u);
    }
    SuspendFollows(k, SuspendCall(k, u).0, u, t);
  }

  lemma SuspendFollows(k: Kernel, k': Kernel, u: Tid, t: Tid)
    requires t < |k.tasks| && t < |k'.tasks| && t < |k.hist| && t < |k'.hist| && TaskOk(k.tasks[t])
    requires k'.hist[t] == k.hist[t] && (t == IDLE ==> Runnable(k.tasks[t]))
    requires var x, x' := k.tasks[t], k'.tasks[t];
      if t == u && t != IDLE && x.state != Suspended
      then x'.wait == x.wait && x'.result == x.result && x'.item == x.item
        && x'.state == Suspended && x'.resume == (if x.state == Blocked then Blocked else Ready)
      else x' == x
    ensures Follows(k, k', DoSuspend(u), t, Keeps)
  {
  }

  /** A blocked, ready or running task that is suspended is suspended. */
  lemma SuspendsOrNot(k: Kernel, u: Tid, t: Tid)
    requires Shape(k) && TasksOk(k) && BasesOk(k) && OnlyCurrentRuns(k) && t < |k.tasks|
    ensures t == u && t != IDLE && k.tasks[t].state != Suspended ==>
      SuspendCall(k, u).0.tasks == SuspendedTask(k, u).tasks
  {
    hide SuspendedTask;
    assert TaskOk(k.tasks[t]);
  }

  lemma SuspendedRecord(k: Kernel, t: Tid)
    requires Shape(k) && t < |k.tasks|
    ensures var x, x' := k.tasks[t], SuspendedTask(k, t).tasks[t];
      x'.item == x.item && x'.resume == if x.state == Blocked then Blocked else Ready
  {
    hide ReadyWithout;
  }

  /** A resumption of a suspended task changes it; anything else changes nothing. */
  lemma ResumeTasks(k: Kernel, u: Tid)
    requires Shape(k)
    ensures var r := ResumeCall(k, u).0;
      && r.hist == k.hist && r.sems == k.sems && r.now == k.now
      && r.tasks ==
           if u < |k.tasks| && u != IDLE && k.tasks[u].state == Suspended
              && (k.tasks[u].resume == Blocked || k.tasks[u].resume == Ready)
           then Resumed(k, u).tasks else k.tasks
  {
    hide Resumed, WokenFlag;
  }

  lemma ResumeEffect(k: Kernel, u: Tid, t: Tid)
    requires Shape(k) && TasksOk(k) && BasesOk(k) && t < |k.tasks|
    ensures Follows(k, ResumeCall(k, u).0, DoResume(u), t, EffectOn(k, DoResume(u), t))
  {
    hide EffectOn, Resumed, ResumeCall, TasksOk, Follows;
    PlainStep(k, DoResume(u), t);
    TaskIsOk(k, t);
    ResumeTasks(k, u);
    if u < |k.tasks| {
      ResumedRecord(k, u);
    }
    ResumeFollows(k, ResumeCall(k, u).0, u, t);
  }

  lemma ResumeFollows(k: Kernel, k': Kernel, u: Tid, t: Tid)
    requires t < |k.tasks| && t < |k'.tasks| && t < |k.hist| && t < |k'.hist| && TaskOk(k.tasks[t])
    requires k'.hist[t] == k.hist[t]
    requires var x, x' := k.tasks[t], k'.tasks[t];
      if t == u && x.state == Suspended
      then x'.wait == x.wait && x'.result == x.result && x'.item == x.item
        && x'.state == (if x.resume == Blocked then Blocked else Ready)
      else x' == x
    ensures Follows(k, k', DoResume(u), t, Keeps)
  {
  }

  lemma ResumedRecord(k: Kernel, t: Tid)
    requires Shape(k) && t < |k.tasks|
    ensures var x, x' := k.tasks[t], Resumed(k, t).tasks[t];
      x'.item == x.item && x'.state == if x.resume == Blocked then Blocked else Ready
  {
    hide ReadyWith;
  }

  lemma SwitchEffect(k: Kernel, t: Tid)
    requires Shape(k) && ReadyOk(k) && BasesOk(k) && TasksOk(k) && t < |k.tasks|
    ensures Follows(k, PendSV(k), ContextSwitch, t, EffectOn(k, ContextSwitch, t))
  {
    hide EffectOn, Highest, RotatedReady, ReadyOk;
    PlainStep(k, ContextSwitch, t);
    assert TaskOk(k.tasks[t]);
    RotateReady(k);
    BeforeChoiceReady(k);
    HighestIsBest(BeforeChoice(k));
  }

  lemma IsrReturnEffect(k: Kernel, t: Tid)
    requires Shape(k) && TasksOk(k) && t < |k.tasks|
    ensures Follows(k, Apply(k, IsrReturn), IsrReturn, t, EffectOn(k, IsrReturn, t))
  {
    hide EffectOn, Follows;
    PlainStep(k, IsrReturn, t);
    NobodyMoves(k, Apply(k, IsrReturn), IsrReturn, t);
  }

  // ---------------------------------------------------------------------------
  // Mutexes
  // ---------------------------------------------------------------------------

  /** The locks that queue are those that begin a wait. */
  lemma LockWaits(k: Kernel, m: nat, timeout: nat)
    requires Shape(k) && Core(k, {})
    ensures LockQueues(k, m, timeout) <==> NewWait(k, DoLock(m, timeout)).Some?
  {
    hide ReadyOk, WaitOk;
  }

  lemma LockEffect(k: Kernel, m: nat, timeout: nat, t: Tid)
    requires Shape(k) && Inv(k, {}) && t < |k.tasks|
    ensures Follows(k, Lock(k, m, timeout).0, DoLock(m, timeout), t, EffectOn(k, DoLock(m, timeout), t))
  {
    hide LockBlocking, Follows, Inv, Core, WouldDeadlock;
    var step := DoLock(m, timeout);
    InvCore(k);
    CoreTasks(k);
    LockWaits(k, m, timeout);
    if LockQueues(k, m, timeout) {
      LockRejectedIff(k, m, timeout);
      LockBlockingEffect(k, m, MutexOf(k, m).owner.value, timeout, t);
      FlagsFollow(k, LockBlocking(k, m, MutexOf(k, m).owner.value, timeout).0, Lock(k, m, timeout).0, step, t,
          EffectOn(k, step, t));
    } else {
      NobodyMoves(k, Lock(k, m, timeout).0, step, t);
    }
  }

  lemma FlagsFollow(k: Kernel, k1: Kernel, k2: Kernel, step: Step, t: Tid, e: Effect)
    requires Follows(k, k1, step, t, e) && k2.tasks == k1.tasks && k2.hist == k1.hist && k2.now == k1.now
    ensures Follows(k, k2, step, t, e)
  {
  }

  lemma LockBlockingEffect(k: Kernel, m: nat, o: Tid, timeout: nat, t: Tid)
    requires Shape(k) && TasksOk(k) && o < |k.tasks| && t < |k.tasks|
    ensures var (k', stands) := LockBlocking(k, m, o, timeout);
      Follows(k, k', DoLock(m, timeout), t,
              if t != k.current then Keeps else if stands then Begins(On(MutexWaiters(m)), DueAt(k, timeout))
                  else Refused)
  {
    hide Recompute, BlockOn, Wake;
    var step := DoLock(m, timeout);
    var l := MutexWaiters(m);
    var k1 := BlockOn(k, l, timeout, []);
    BlockRecord(k, l, timeout, []);
    var (k2, ok) := Recompute(k1, o, 0);
    if ok {
      CallerBlocks(k, k2, step, On(l), DueAt(k, timeout), t);
    } else {
      WakeRecord(k2, k.current, Internal);
      if t != k.current {
        Untouched(k, Wake(k2, k.current, Internal), step, t);
      }
    }
  }

  lemma UnlockEffect(k: Kernel, m: nat, t: Tid)
    requires Shape(k) && Core(k, {}) && t < |k.tasks|
    ensures Follows(k, Unlock(k, m).0, DoUnlock(m), t, EffectOn(k, DoUnlock(m), t))
  {
    hide Recompute, Follows, HandOver, ShouldPreempt', DetachOwner, Core;
    var step := DoUnlock(m);
    var k' := Unlock(k, m).0;
    var k1 := DetachOwner(k, m, k.current);
    DetachOwnerRecord(k, m, k.current);
    CoreTasks(k);
    var ws := WaitersOf(k, MutexWaiters(m));
    if Releases(k, m) && ws != [] {
      FirstWaits(k, MutexWaiters(m));
      HandOverEffect(k, k1, m, ws[0], t);
      FlagsFollow(k, HandOver(k1, m, ws[0]).0, k', step, t, EffectOn(k, step, t));
    } else {
      NobodyMoves(k, k', step, t);
    }
  }

  lemma CoreTasks(k: Kernel)
    requires Core(k, {})
    ensures TasksOk(k) && BasesOk(k) && ReadyOk(k)
  {
  }

  lemma DetachOwnerRecord(k: Kernel, m: nat, c: Tid)
    requires Shape(k) && c < |k.tasks|
    ensures var k' := DetachOwner(k, m, c); k'.tasks == k.tasks && k'.hist == k.hist && k'.now == k.now
  {
  }

  lemma HandOverEffect(k: Kernel, k1: Kernel, m: nat, w: Tid, t: Tid)
    requires Shape(k) && TasksOk(k) && Shape(k1) && w < |k.tasks| && t < |k.tasks|
    requires k1.tasks == k.tasks && k1.hist == k.hist && k1.now == k.now
    ensures Follows(k, HandOver(k1, m, w).0, DoUnlock(m), t, if t == w then Completes(Ok) else Keeps)
  {
    hide Recompute, Wake, WokenFlag, Follows;
    var k2 := AttachOwner(k1, m, w);
    WakeRecord(k2, w, Ok);
    OneWakes(k, k, HandOver(k1, m, w).0, DoUnlock(m), w, Ok, t);
  }

  // ---------------------------------------------------------------------------
  // Semaphores and queues
  // ---------------------------------------------------------------------------

  lemma TakeEffect(k: Kernel, s: nat, timeout: nat, t: Tid)
    requires Shape(k) && TasksOk(k) && t < |k.tasks|
    ensures Follows(k, SemTake(k, s, timeout).0, DoTake(s, timeout), t, EffectOn(k, DoTake(s, timeout), t))
  {
    hide BlockOn, Follows;
    var step := DoTake(s, timeout);
    BlockRecord(k, SemWaiters(s), timeout, []);
    if SemTake(k, s, timeout).1.blocked {
      CallerBlocks(k, SemTake(k, s, timeout).0, step, On(SemWaiters(s)), DueAt(k, timeout), t);
    } else {
      NobodyMoves(k, SemTake(k, s, timeout).0, step, t);
    }
  }

  /** A give, by whichever step. */
  lemma GiveLockedEffect(k: Kernel, s: nat, step: Step, t: Tid)
    requires Shape(k) && Core(k, {}) && t < |k.tasks| && (step.DoGive? || step.IsrGive? || step.SysTick?)
    ensures Follows(k, SemGiveLocked(k, s).0, step, t,
                    if s in k.sems && First(k, SemWaiters(s)) == Some(t) then Completes(Ok) else Keeps)
    ensures !(s in k.sems && First(k, SemWaiters(s)) == Some(t)) ==>
      SemGiveLocked(k, s).0.tasks[t] == k.tasks[t] && SemGiveLocked(k, s).0.hist[t] == k.hist[t]
  {
    hide Wake, Follows, Core, WokenFlag;
    CoreTasks(k);
    var x := SemOf(k, s);
    var ws := WaitersOf(k, SemWaiters(s));
    if s in k.sems && ws != [] {
      FirstWaits(k, SemWaiters(s));
      var k1 := k.(sems := k.sems[s := x.(given := x.given + 1, taken := x.taken + 1)]);
      WakeRecord(k1, ws[0], Ok);
      OneWakes(k, k, SemGiveLocked(k, s).0, step, ws[0], Ok, t);
    } else {
      NobodyMoves(k, SemGiveLocked(k, s).0, step, t);
    }
  }

  /** What a send does to the tasks: it delivers and wakes, it blocks the caller, or nothing. */
  lemma SendCases(k: Kernel, q: nat, item: Item, timeout: nat, mayBlock: bool)
    requires Shape(k) && Core(k, {})
    ensures var (k', o, _) := SendLocked(k, q, item, timeout, mayBlock);
      var rs := WaitersOf(k, RecvWaiters(q));
      if q in k.queues && rs != []
      then rs[0] < |k.tasks| && k' == Wake(Delivered(k, q, rs[0], item), rs[0], Ok) && !o.blocked
      else if o.blocked then k' == BlockOn(k, SendWaiters(q), timeout, item)
      else k'.tasks == k.tasks && k'.hist == k.hist
  {
    hide Wake, Core, WokenFlag, BlockOn;
    if WaitersOf(k, RecvWaiters(q)) != [] {
      FirstWaits(k, RecvWaiters(q));
    }
  }

  lemma DeliveredRecord(k: Kernel, q: nat, t: Tid, item: Item)
    requires Shape(k) && t < |k.tasks|
    ensures var k' := Delivered(k, q, t, item);
      k'.tasks == k.tasks[t := k.tasks[t].(item := item)] && k'.hist == k.hist && k'.now == k.now
  {
  }

  lemma SendLockedEffect(k: Kernel, q: nat, item: Item, timeout: nat, mayBlock: bool, step: Step, t: Tid)
    requires Shape(k) && Core(k, {}) && t < |k.tasks| && Sends(step, q) && step.item == item
    ensures var (k', o, _) := SendLocked(k, q, item, timeout, mayBlock);
      Follows(k, k', step, t,
              if q in k.queues && First(k, RecvWaiters(q)) == Some(t) then Completes(Ok)
              else if o.blocked && t == k.current then Begins(On(SendWaiters(q)), DueAt(k, timeout)) else Keeps)
  {
    hide Wake, Follows, Core, BlockOn, SendLocked, Delivered;
    CoreTasks(k);
    var rs := WaitersOf(k, RecvWaiters(q));
    var (k', o, _) := SendLocked(k, q, item, timeout, mayBlock);
    SendCases(k, q, item, timeout, mayBlock);
    if q in k.queues && rs != [] {
      DeliveredRecord(k, q, rs[0], item);
      var k1 := Delivered(k, q, rs[0], item);
      WakeRecord(k1, rs[0], Ok);
      OneWakes(k, k1, k', step, rs[0], Ok, t);
    } else if o.blocked {
      BlockRecord(k, SendWaiters(q), timeout, item);
      CallerBlocks(k, k', step, On(SendWaiters(q)), DueAt(k, timeout), t);
    } else {
      NobodyMoves(k, k', step, t);
    }
  }

  /** What a receive does to the tasks: it refills and wakes, it blocks the caller, or nothing. */
  lemma ReceiveOutcomes(k: Kernel, q: nat, timeout: nat, mayBlock: bool)
    requires Shape(k) && Core(k, {}) && QueuesOk(k)
    ensures var (k', o, _) := ReceiveLocked(k, q, timeout, mayBlock);
      var ss := WaitersOf(k, SendWaiters(q));
      if q in k.queues && ss != []
      then ss[0] < |k.tasks| && QueueOf(k, q).items != [] && k' == Wake(Refilled(k, q), ss[0], Ok) && !o.blocked
      else if o.blocked then q in k.queues && k' == BlockOn(k, RecvWaiters(q), timeout, [])
      else k'.tasks == k.tasks && k'.hist == k.hist
  {
    hide Wake, Core, WokenFlag, BlockOn, FillFromSender, Refilled;
    if q in k.queues {
      ReceiveCases(k, q, timeout, mayBlock);
    }
  }

  lemma ReceiveLockedEffect(k: Kernel, q: nat, timeout: nat, mayBlock: bool, step: Step, t: Tid)
    requires Shape(k) && Core(k, {}) && QueuesOk(k) && t < |k.tasks| && Receives(step, q)
    ensures var (k', o, _) := ReceiveLocked(k, q, timeout, mayBlock);
      Follows(k, k', step, t,
              if q in k.queues && First(k, SendWaiters(q)) == Some(t) then Completes(Ok)
              else if o.blocked && t == k.current then Begins(On(RecvWaiters(q)), DueAt(k, timeout)) else Keeps)
    ensures ReceiveLocked(k, q, timeout, mayBlock).1.blocked ==> First(k, SendWaiters(q)) == None
  {
    hide Wake, Follows, Core, BlockOn, Refilled, QueuesOk, ReceiveLocked;
    CoreTasks(k);
    var ss := WaitersOf(k, SendWaiters(q));
    var (k', o, _) := ReceiveLocked(k, q, timeout, mayBlock);
    ReceiveOutcomes(k, q, timeout, mayBlock);
    if q in k.queues && ss != [] {
      WakeRecord(Refilled(k, q), ss[0], Ok);
      OneWakes(k, k, k', step, ss[0], Ok, t);
    } else if o.blocked {
      BlockRecord(k, RecvWaiters(q), timeout, []);
      CallerBlocks(k, k', step, On(RecvWaiters(q)), DueAt(k, timeout), t);
    } else {
      NobodyMoves(k, k', step, t);
    }
  }

  // ---------------------------------------------------------------------------
  // The tick
  // ---------------------------------------------------------------------------

  /** How a wait ends at its deadline. */
  function Expiry(w: Wait): Status {
    if w == Delay then Ok else Timeout
  }

  lemma ExpireRecord(k: Kernel, u: Tid)
    requires Shape(k) && u < |k.tasks| && k.tasks[u].wait != NoWait
    ensures var k' := ExpireOne(k, u);
      && k'.tasks == k.tasks[u := Woke(k.tasks[u], Expiry(k.tasks[u].wait))]
      && k'.hist == k.hist[u := k.hist[u] + [Ended(Expiry(k.tasks[u].wait), k.now)]]
  {
    hide Detach, Finish, Recompute;
    DetachRecord(k, u);
    var k1 := Detach(k, u);
    match k.tasks[u].wait
    case Delay => FinishRecord(k1, u, Ok);
    case On(l) =>
      if l.MutexWaiters? && MutexOf(k1, l.m).owner.Some? && MutexOf(k1, l.m).owner.value < |k.tasks| {
        FinishRecord(Recompute(k1, MutexOf(k1, l.m).owner.value, 0).0, u, Timeout);
      } else {
        FinishRecord(k1, u, Timeout);
      }
  }

  /** All the tasks named wait. */
  ghost predicate HaveWaits(k: Kernel, ids: seq<nat>) {
    forall u :: u in ids ==> u < |k.tasks| && k.tasks[u].wait != NoWait
  }

  lemma {:induction false} ExpireAllRecord(k: Kernel, ids: seq<nat>, t: Tid)
    requires Shape(k) && Distinct(ids) && HaveWaits(k, ids) && t < |k.tasks|
    ensures var k' := ExpireAll(k, ids);
      if t in ids
      then k'.tasks[t] == Woke(k.tasks[t], Expiry(k.tasks[t].wait))
          && k'.hist[t] == k.hist[t] + [Ended(Expiry(k.tasks[t].wait), k.now)]
      else k'.tasks[t] == k.tasks[t] && k'.hist[t] == k.hist[t]
    decreases |ids|
  {
    hide ExpireOne, Woke;
    if ids != [] {
      var u := ids[0];
      assert u in ids;
      ExpireRecord(k, u);
      var k1 := ExpireOne(k, u);
      assert forall v :: v in ids[1..] ==> v in ids && v != u;
      ExpireAllRecord(k1, ids[1..], t);
      assert t in ids <==> t == u || t in ids[1..];
    }
  }

  lemma DueIsNow(k: Kernel, t: Tid)
    requires TimeoutOk(k, {})
    ensures t in DueIds(k.timeouts, k.now + 1) <==> Entry(t, k.now + 1) in k.timeouts
  {
    DueSplit(k.timeouts, k.now + 1);
  }

  /** Main result on timeouts: one tick ends exactly the waits whose deadline it is, a delay with
      success and any other wait with a timeout, and touches no other task. */
  lemma TickExpires(k: Kernel, t: Tid)
    requires Inv(k, {}) && Shape(k) && t < |k.tasks|
    ensures var k' := TickTimeouts(k);
      if Entry(t, k.now + 1) in k.timeouts
      then k'.tasks[t] == Woke(k.tasks[t], Expiry(k.tasks[t].wait))
          && k'.hist[t] == k.hist[t] + [Ended(Expiry(k.tasks[t].wait), k.now + 1)]
      else k'.tasks[t] == k.tasks[t] && k'.hist[t] == k.hist[t]
    ensures Entry(t, k.now + 1) in k.timeouts ==> k.tasks[t].wait != NoWait
    ensures TickTimeouts(k).now == k.now + 1
  {
    hide Inv, DueIds, NotDue, ExpireAll, Woke, TimeoutOk;
    var ids := DueIds(k.timeouts, k.now + 1);
    InvTimeouts(k);
    AdvanceInv(k);
    DueIsNow(k, t);
    DueHaveWaits(k);
    ExpireAllRecord(Advanced(k), ids, t);
  }

  lemma InvTimeouts(k: Kernel)
    requires Inv(k, {})
    ensures TimeoutOk(k, {}) && TasksOk(k)
  {
  }

  lemma DueHaveWaits(k: Kernel)
    requires TimeoutOk(k, {})
    ensures HaveWaits(k, DueIds(k.timeouts, k.now + 1)) && HaveWaits(Advanced(k), DueIds(k.timeouts, k.now + 1))
  {
    DueSplit(k.timeouts, k.now + 1);
  }

  lemma SliceRecord(k: Kernel, preempt: bool, woken: bool, t: Tid)
    requires Shape(k) && t < |k.tasks|
    ensures var k' := TickSlice(k, preempt, woken);
      && k'.hist == k.hist && k'.now == k.now
      && k'.tasks[t] == k.tasks[t].(slice := k'.tasks[t].slice)
  {
  }

  lemma TailRecord(k: Kernel, woken: bool, t: Tid)
    requires Shape(k) && t < |k.tasks|
    ensures var k' := TickTail(k, woken);
      && k'.hist == k.hist && k'.now == k.now
      && k'.tasks[t] == k.tasks[t].(slice := k'.tasks[t].slice)
  {
    hide ShouldPreempt, TickSlice;
    SliceRecord(k, ShouldPreempt(k), woken, t);
  }

  /** Which task the signal of a tick wakes. */
  ghost predicate Signalled(k: Kernel, fired: bool, t: Tid)
    requires Shape(k)
  {
    fired && TIMER_SIGNAL in k.sems && First(TickTimeouts(k), SemWaiters(TIMER_SIGNAL)) == Some(t)
  }

  lemma TickEffectIs(k: Kernel, fired: bool, t: Tid)
    requires Shape(k) && t < |k.tasks|
    ensures EffectOn(k, SysTick(fired), t) ==
      if Entry(t, k.now + 1) in k.timeouts then Completes(Expiry(k.tasks[t].wait))
      else if Signalled(k, fired, t) then Completes(Ok) else Keeps
  {
    hide TickTimeouts, First;
  }

  /** A tick on one task: expiry, or the signal, and then at most its time slice. */
  lemma TickFollows(k: Kernel, k1: Kernel, k2: Kernel, k': Kernel, fired: bool, t: Tid, due: bool, given: bool)
    requires t < |k.tasks| && t < |k1.tasks| && t < |k2.tasks| && t < |k'.tasks|
    requires t < |k.hist| && t < |k1.hist| && t < |k2.hist| && t < |k'.hist| && TaskOk(k.tasks[t])
    requires if due
             then k1.tasks[t] == Woke(k.tasks[t], Expiry(k.tasks[t].wait))
               && k1.hist[t] == k.hist[t] + [Ended(Expiry(k.tasks[t].wait), k1.now)]
             else k1.tasks[t] == k.tasks[t] && k1.hist[t] == k.hist[t]
    requires !(due && given)
    requires if given then Follows(k1, k2, SysTick(fired), t, Completes(Ok))
             else k2.tasks[t] == k1.tasks[t] && k2.hist[t] == k1.hist[t]
    requires k'.now == k2.now == k1.now && k'.hist == k2.hist
    requires k'.tasks[t] == k2.tasks[t].(slice := k'.tasks[t].slice)
    ensures Follows(k, k', SysTick(fired), t,
                    if due then Completes(Expiry(k.tasks[t].wait)) else if given then Completes(Ok) else Keeps)
  {
  }

  lemma TickEffect(k: Kernel, fired: bool, t: Tid)
    requires Inv(k, {}) && Shape(k) && t < |k.tasks|
    ensures Follows(k, Tick(k, fired), SysTick(fired), t, EffectOn(k, SysTick(fired), t))
  {
    hide Inv, TickTimeouts, SemGiveLocked, TickTail, First, TasksOk, EffectOn, Follows, TaskOk, Woke;
    var k1 := TickTimeouts(k);
    TickExpires(k, t);
    TickEffectIs(k, fired, t);
    TickTimeoutsInv(k);
    TickObjects(k);
    InvTimeouts(k);
    InvCore(k1);
    TaskIsOk(k, t);
    var due := Entry(t, k.now + 1) in k.timeouts;
    if fired {
      var k2 := SemGiveLocked(k1, TIMER_SIGNAL).0;
      GiveLockedEffect(k1, TIMER_SIGNAL, SysTick(fired), t);
      FirstOnList(k1, SemWaiters(TIMER_SIGNAL));
      WokeWaits(k.tasks[t]);
      TailRecord(k2, SemGiveLocked(k1, TIMER_SIGNAL).2, t);
      TickFollows(k, k1, k2, Tick(k, fired), fired, t, due, Signalled(k, fired, t));
    } else {
      TailRecord(k1, false, t);
      TickFollows(k, k1, k1, Tick(k, fired), fired, t, due, false);
    }
  }

  lemma WokeWaits(x: Task)
    ensures forall r :: Woke(x, r).wait == NoWait
  {
  }

  lemma TaskIsOk(k: Kernel, t: Tid)
    requires TasksOk(k) && t < |k.tasks|
    ensures TaskOk(k.tasks[t])
  {
  }

  lemma InvCore(k: Kernel)
    requires Inv(k, {})
    ensures Core(k, {})
  {
  }

  lemma FirstOnList(k: Kernel, l: ListId)
    requires Core(k, {})
    ensures First(k, l).Some? ==> First(k, l).value < |k.tasks| && k.tasks[First(k, l).value].wait == On(l)
  {
    hide Core;
    if WaitersOf(k, l) != [] {
      FirstWaits(k, l);
    }
  }

  lemma TickObjects(k: Kernel)
    requires Shape(k)
    ensures TickTimeouts(k).sems == k.sems && TickTimeouts(k).mutexes == k.mutexes
  {
    hide ExpireAll, DueIds, NotDue;
    ExpireAllObjects(Advanced(k), DueIds(k.timeouts, k.now + 1));
  }

  lemma {:induction false} ExpireAllObjects(k: Kernel, ids: seq<nat>)
    requires Shape(k)
    ensures ExpireAll(k, ids).sems == k.sems && ExpireAll(k, ids).mutexes == k.mutexes
    decreases |ids|
  {
    hide ExpireOne;
    if ids != [] {
      ExpireObjects(k, ids[0]);
      ExpireAllObjects(ExpireOne(k, ids[0]), ids[1..]);
    }
  }

  lemma ExpireObjects(k: Kernel, u: Tid)
    requires Shape(k)
    ensures ExpireOne(k, u).sems == k.sems && ExpireOne(k, u).mutexes == k.mutexes
  {
    hide Without, WithoutId, ReadyWith, Recompute;
  }

  // ---------------------------------------------------------------------------
  // Every step
  // ---------------------------------------------------------------------------

  /** Main result: every step has on every task exactly the effect computed from the state before. */
  lemma StepEffect(k: Kernel, step: Step, t: Tid)
    requires Good(k) && Shape(k) && t < |k.tasks|
    ensures Follows(k, Apply(k, step), step, t, EffectOn(k, step, t))
  {
    hide Core, TimeoutOk, EpisodesOk, SemsOk, QueuesOk, Acyclic, Boosted, OnlyCurrentRuns, Prompt, Follows, YieldCall,
         DelayCall, DelayUntilCall,
         SuspendCall, ResumeCall, Lock, Unlock, SemTake, SemGiveLocked, SendLocked, ReceiveLocked, Tick, PendSV;
    CoreTasks(k);
    match step
    case DoYield => YieldEffect(k, t);
    case DoDelay(ticks) => DelayCallEffect(k, ticks, t);
    case DoDelayUntil(last, period) => DelayUntilCallEffect(k, last, period, t);
    case DoSuspend(u) => SuspendEffect(k, u, t);
    case DoResume(u) => ResumeEffect(k, u, t);
    case DoLock(m, timeout) => LockEffect(k, m, timeout, t);
    case DoUnlock(m) => UnlockEffect(k, m, t);
    case DoTake(s, timeout) => TakeEffect(k, s, timeout, t);
    case DoGive(s) =>
      GiveLockedEffect(k, s, step, t);
      FlagsFollow(k, SemGiveLocked(k, s).0, Apply(k, step), step, t, EffectOn(k, step, t));
    case IsrGive(s) =>
      GiveLockedEffect(k, s, step, t);
      FlagsFollow(k, SemGiveLocked(k, s).0, Apply(k, step), step, t, EffectOn(k, step, t));
    case DoSend(q, item, timeout) => SendEffect(k, q, item, timeout, true, step, t);
    case IsrSend(q, item) => SendEffect(k, q, item, NO_WAIT, false, step, t);
    case DoReceive(q, timeout) => ReceiveEffect(k, q, timeout, true, step, t);
    case IsrReceive(q) => ReceiveEffect(k, q, NO_WAIT, false, step, t);
    case IsrReturn => IsrReturnEffect(k, t);
    case SysTick(fired) => TickEffect(k, fired, t);
    case ContextSwitch => SwitchEffect(k, t);
  }

  lemma SendBlocks(k: Kernel, q: nat, item: Item, timeout: nat, mayBlock: bool)
    requires Shape(k)
    ensures SendLocked(k, q, item, timeout, mayBlock).1.blocked <==>
      mayBlock && NewWait(k, DoSend(q, item, timeout)).Some?
  {
    hide Wake, WokenFlag, BlockOn;
  }

  lemma SendEffect(k: Kernel, q: nat, item: Item, timeout: nat, mayBlock: bool, step: Step, t: Tid)
    requires Shape(k) && Core(k, {}) && t < |k.tasks|
    requires step == if mayBlock then DoSend(q, item, timeout) else IsrSend(q, item)
    requires mayBlock || timeout == NO_WAIT
    ensures Follows(k, Apply(k, step), step, t, EffectOn(k, step, t))
  {
    hide Core, Follows, SendLocked;
    SendLockedEffect(k, q, item, timeout, mayBlock, step, t);
    SendBlocks(k, q, item, timeout, mayBlock);
    FlagsFollow(k, SendLocked(k, q, item, timeout, mayBlock).0, Apply(k, step), step, t, EffectOn(k, step, t));
  }

  lemma ReceiveEffect(k: Kernel, q: nat, timeout: nat, mayBlock: bool, step: Step, t: Tid)
    requires Shape(k) && Core(k, {}) && QueuesOk(k) && t < |k.tasks|
    requires step == if mayBlock then DoReceive(q, timeout) else IsrReceive(q)
    requires mayBlock || timeout == NO_WAIT
    ensures Follows(k, Apply(k, step), step, t, EffectOn(k, step, t))
  {
    hide Core, Follows, QueuesOk, ReceiveLocked;
    ReceiveLockedEffect(k, q, timeout, mayBlock, step, t);
    ReceiveBlocks(k, q, timeout, mayBlock);
    FlagsFollow(k, ReceiveLocked(k, q, timeout, mayBlock).0, Apply(k, step), step, t, EffectOn(k, step, t));
  }

  lemma ReceiveBlocks(k: Kernel, q: nat, timeout: nat, mayBlock: bool)
    requires Shape(k) && Core(k, {}) && QueuesOk(k)
    ensures ReceiveLocked(k, q, timeout, mayBlock).1.blocked <==>
      mayBlock && NewWait(k, DoReceive(q, timeout)).Some?
  {
    hide FillFromSender, Wake, WokenFlag, BlockOn, Core, Refilled;
    if q in k.queues {
      ReceiveCases(k, q, timeout, mayBlock);
    }
  }
}
