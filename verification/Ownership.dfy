/**
 Who holds a mutex, counted from what tasks observe over whole runs: successful locks, waits for
 the mutex that ended with success, and successful unlocks.
 */
module Ownership {
  import opened Config
  import opened KernelModel
  import opened KernelInvariant
  import opened Blocking
  import opened Waking
  import opened Scheduling
  import opened Exchange
  import opened MutexSteps
  import opened KernelRuns
  import opened KernelTheorems
  import opened TaskEffects
  import opened Episodes
  import opened Answers

  // ---------------------------------------------------------------------------
  // Steps that concern no mutex
  // ---------------------------------------------------------------------------

  lemma TickLeavesMutexes(k: Kernel, fired: bool)
    requires Shape(k)
    ensures Tick(k, fired).mutexes == k.mutexes
  {
    hide TickTimeouts, SemGiveLocked, TickTail;
    TickObjects(k);
    var k1 := TickTimeouts(k);
    GiveLeavesMutexes(k1, TIMER_SIGNAL);
    TailLeavesMutexes(k1, false);
    TailLeavesMutexes(SemGiveLocked(k1, TIMER_SIGNAL).0, SemGiveLocked(k1, TIMER_SIGNAL).2);
  }

  lemma TailLeavesMutexes(k: Kernel, woken: bool)
    requires Shape(k)
    ensures TickTail(k, woken).mutexes == k.mutexes
  {
    hide ShouldPreempt;
  }

  lemma GiveLeavesMutexes(k: Kernel, s: nat)
    requires Shape(k)
    ensures SemGiveLocked(k, s).0.mutexes == k.mutexes
  {
    hide Wake, WokenFlag;
    var x := SemOf(k, s);
    var ws := WaitersOf(k, SemWaiters(s));
    if ws != [] && ws[0] < |k.tasks| {
      WakeObjects(k.(sems := k.sems[s := x.(given := x.given + 1, taken := x.taken + 1)]), ws[0], Ok);
    }
  }

  lemma SendLeavesMutexes(k: Kernel, q: nat, item: Item, timeout: nat, mayBlock: bool)
    requires Shape(k)
    ensures SendLocked(k, q, item, timeout, mayBlock).0.mutexes == k.mutexes
  {
    hide Wake, WokenFlag, BlockOn;
    var rs := WaitersOf(k, RecvWaiters(q));
    if rs != [] && rs[0] < |k.tasks| {
      WakeObjects(Delivered(k, q, rs[0], item), rs[0], Ok);
    }
    BlockKeepsObjects(k, SendWaiters(q), timeout, item);
  }

  lemma ReceiveLeavesMutexes(k: Kernel, q: nat, timeout: nat, mayBlock: bool)
    requires Shape(k) && Core(k, {}) && QueuesOk(k)
    ensures ReceiveLocked(k, q, timeout, mayBlock).0.mutexes == k.mutexes
  {
    hide Wake, WokenFlag, BlockOn, Core, FillFromSender, QueuesOk, Refilled;
    if q in k.queues {
      ReceiveCases(k, q, timeout, mayBlock);
      var ss := WaitersOf(k, SendWaiters(q));
      if QueueOf(k, q).items != [] && ss != [] {
        WakeObjects(Refilled(k, q), ss[0], Ok);
      }
    }
    BlockKeepsObjects(k, RecvWaiters(q), timeout, []);
  }

  lemma SuspensionLeavesMutexes(k: Kernel, t: Tid)
    requires Shape(k)
    ensures SuspendCall(k, t).0.mutexes == k.mutexes && ResumeCall(k, t).0.mutexes == k.mutexes
  {
    hide WokenFlag, SuspendedTask, Resumed;
  }

  lemma DelaysLeaveMutexes(k: Kernel, ticks: nat, last: Word32, period: Word32)
    requires Shape(k)
    ensures YieldCall(k).mutexes == k.mutexes && DelayCall(k, ticks).0.mutexes == k.mutexes
    ensures DelayUntilCall(k, last, period).0.mutexes == k.mutexes
  {
    hide DelayFor;
    DelayLeavesMutexes(k, ticks);
    DelayLeavesMutexes(k, ((last + period) % TICK_RANGE - k.now % TICK_RANGE) % TICK_RANGE);
  }

  lemma DelayLeavesMutexes(k: Kernel, ticks: nat)
    requires Shape(k)
    ensures DelayFor(k, ticks).mutexes == k.mutexes
  {
    hide ReadyWithout, InsertByDue;
  }

  lemma SwitchLeavesMutexes(k: Kernel)
    requires Shape(k)
    ensures PendSV(k).mutexes == k.mutexes
  {
    hide Highest, RotatedReady;
    assert BeforeChoice(k).mutexes == k.mutexes;
  }

  lemma OtherStepsLeaveMutexes(k: Kernel, step: Step)
    requires Shape(k) && Core(k, {}) && QueuesOk(k) && !step.DoLock? && !step.DoUnlock?
    ensures Apply(k, step).mutexes == k.mutexes
  {
    hide Core, QueuesOk, Tick, SemTake, SemGiveLocked, SendLocked, ReceiveLocked, YieldCall, DelayCall, DelayUntilCall,
         SuspendCall, ResumeCall, PendSV, Shape;
    match step
    case DoYield => DelaysLeaveMutexes(k, 0, 0, 0);
    case DoDelay(ticks) => DelaysLeaveMutexes(k, ticks, 0, 0);
    case DoDelayUntil(last, period) => DelaysLeaveMutexes(k, 0, last, period);
    case DoSuspend(t) => SuspensionLeavesMutexes(k, t);
    case DoResume(t) => SuspensionLeavesMutexes(k, t);
    case DoTake(s, timeout) => TakeLeavesMutexes(k, s, timeout);
    case DoGive(s) => GiveLeavesMutexes(k, s);
    case IsrGive(s) => GiveLeavesMutexes(k, s);
    case DoSend(q, item, timeout) => SendLeavesMutexes(k, q, item, timeout, true);
    case IsrSend(q, item) => SendLeavesMutexes(k, q, item, NO_WAIT, false);
    case DoReceive(q, timeout) => ReceiveLeavesMutexes(k, q, timeout, true);
    case IsrReceive(q) => ReceiveLeavesMutexes(k, q, NO_WAIT, false);
    case SysTick(fired) => TickLeavesMutexes(k, fired);
    case ContextSwitch => SwitchLeavesMutexes(k);
    case IsrReturn =>
  }

  lemma TakeLeavesMutexes(k: Kernel, s: nat, timeout: nat)
    requires Shape(k)
    ensures SemTake(k, s, timeout).0.mutexes == k.mutexes
  {
    hide BlockOn;
    BlockKeepsObjects(k, SemWaiters(s), timeout, []);
  }

  // ---------------------------------------------------------------------------
  // The account of one task and one mutex
  // ---------------------------------------------------------------------------

  /** How many times `t` holds `m`. */
  function Held(k: Kernel, t: Tid, m: nat): nat {
    if MutexOf(k, m).owner == Some(t) then MutexOf(k, m).count else 0
  }

  /** In this step the wait of `t` for `m` ended with success. */
  ghost predicate Granted(k: Kernel, step: Step, t: Tid, m: nat)
    requires Shape(k) && t < |k.tasks|
  {
    && k.tasks[t].wait == On(MutexWaiters(m))
    && Apply(k, step).tasks[t].wait == NoWait && Apply(k, step).tasks[t].result == Ok
  }

  /** What `t` observes of `m` in a step: a lock or a wait that succeeded, less an unlock. */
  ghost function Observed(k: Kernel, step: Step, t: Tid, m: nat): int
    requires Shape(k) && t < |k.tasks|
  {
    (if step.DoLock? && step.m == m && t == k.current && Lock(k, m, step.timeout).1 == Done(Ok) then 1 else 0)
    + (if Granted(k, step, t, m) then 1 else 0)
    - (if step == DoUnlock(m) && t == k.current && Unlock(k, m).1 == Done(Ok) then 1 else 0)
  }

  /** A wait for a mutex ends with success exactly by the unlock that hands it over. */
  lemma GrantedIff(k: Kernel, step: Step, t: Tid, m: nat)
    requires Good(k) && Shape(k) && t < |k.tasks|
    ensures Granted(k, step, t, m) <==> step == DoUnlock(m) && Releases(k, m) && First(k, MutexWaiters(m)) == Some(t)
  {
    hide Good, Apply, NewWait, WouldDeadlock, First, Releases;
    StepEffect(k, step, t);
    NewWaitWaits(k, step);
    if Receiver(k, step) == Some(t) && !DueNow(k, step, t) {
      ReceiverWaits(k, step, t);
    }
    if step == DoUnlock(m) && Releases(k, m) && First(k, MutexWaiters(m)) == Some(t) {
      ReceiverWaits(k, step, t);
    }
  }

  lemma NewWaitWaits(k: Kernel, step: Step)
    requires Shape(k)
    ensures NewWait(k, step).Some? ==> NewWait(k, step).value.0 != NoWait
  {
  }

  lemma HeldChanges(k: Kernel, step: Step, t: Tid, m: nat)
    requires Good(k) && Shape(k) && t < |k.tasks|
    ensures Held(Apply(k, step), t, m) == Held(k, t, m) + Observed(k, step, t, m)
  {
    hide Good, Lock, Unlock, Granted, WaitAnswer;
    GrantedIff(k, step, t, m);
    GoodCounts(k, m);
    match step
    case DoLock(j, timeout) => LockAnswers(k, j, timeout);
    case DoUnlock(j) => UnlockAnswers(k, j);
    case _ => OthersHeld(k, step, t, m);
  }

  lemma GoodCounts(k: Kernel, m: nat)
    requires Good(k)
    ensures MutexOf(k, m).owner == None <==> MutexOf(k, m).count == 0
    ensures MutexOf(k, m).count <= if MutexOf(k, m).recursive then UINT32_MAX else 1
  {
    hide Core, TimeoutOk, EpisodesOk, SemsOk, QueuesOk, Acyclic, Boosted, Prompt;
    FreeIsUncounted(k, m);
  }

  lemma OthersHeld(k: Kernel, step: Step, t: Tid, m: nat)
    requires Good(k) && Shape(k) && !step.DoLock? && !step.DoUnlock?
    ensures Held(Apply(k, step), t, m) == Held(k, t, m)
  {
    hide Core, TimeoutOk, EpisodesOk, SemsOk, QueuesOk, Acyclic, Boosted, Prompt, Apply;
    OtherStepsLeaveMutexes(k, step);
  }

  // ---------------------------------------------------------------------------
  // Whole runs
  // ---------------------------------------------------------------------------

  ghost function Balance(k: Kernel, steps: seq<Step>, t: Tid, m: nat): int
    requires Shape(k) && t < |k.tasks|
    decreases |steps|
  {
    if steps == [] then 0 else Observed(k, steps[0], t, m) + Balance(Apply(k, steps[0]), steps[1..], t, m)
  }

  lemma {:induction false} RunHeld(k: Kernel, steps: seq<Step>, t: Tid, m: nat)
    requires Good(k) && Shape(k) && Admissible(k, steps) && t < |k.tasks|
    ensures Held(Run(k, steps), t, m) == Held(k, t, m) + Balance(k, steps, t, m)
    decreases |steps|
  {
    hide Good, Apply, Allowed, Observed, Held;
    if steps != [] {
      StepGood(k, steps[0]);
      HeldChanges(k, steps[0], t, m);
      RunHeld(Apply(k, steps[0]), steps[1..], t, m);
    }
  }

  lemma BootHeldNothing(b: Setup, m: nat)
    requires ValidSetup(b)
    ensures MutexOf(Boot(b), m).owner == None
  {
    hide Highest, RegisterAll, Initialized;
    RegisterKeepsMutexes(Initialized(b.mutexes, b.sems, b.queues), b.priorities);
    InitializedMutexes(b);
  }

  lemma InitializedMutexes(b: Setup)
    ensures Initialized(b.mutexes, b.sems, b.queues).mutexes == b.mutexes
  {
  }

  lemma {:induction false} RegisterKeepsMutexes(k: Kernel, priorities: seq<nat>)
    requires Shape(k)
    ensures RegisterAll(k, priorities).mutexes == k.mutexes
    decreases |priorities|
  {
    if priorities != [] {
      RegisterKeepsMutexes(Register(k, priorities[0]).0, priorities[1..]);
    }
  }

  /** Mutual exclusion: after every run the locks and grants of a mutex that a task has seen, less
      its unlocks, are how often it holds the mutex; so they are positive for at most one task, the
      owner, and for a non-recursive mutex at most one. */
  lemma MutualExclusion(b: Setup, steps: seq<Step>, k: Kernel, m: nat, t: Tid, u: Tid)
    requires Reached(b, steps, k) && t < |Boot(b).tasks| && u < |Boot(b).tasks| && t != u
    ensures Balance(Boot(b), steps, t, m) == Held(k, t, m)
    ensures Balance(Boot(b), steps, t, m) > 0 <==> MutexOf(k, m).owner == Some(t)
    ensures !(Balance(Boot(b), steps, t, m) > 0 && Balance(Boot(b), steps, u, m) > 0)
    ensures !MutexOf(k, m).recursive ==> Balance(Boot(b), steps, t, m) <= 1
  {
    hide Good, Boot, ValidSetup, Admissible, Run, Balance;
    BootIsQuiet(b, t);
    BootHeldNothing(b, m);
    RunHeld(Boot(b), steps, t, m);
    RunHeld(Boot(b), steps, u, m);
    ReachedGood(b, steps, k);
    GoodCounts(k, m);
  }
}
