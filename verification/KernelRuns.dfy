/** The invariant holds after start-up and after every run. */
module KernelRuns {
  import opened Config
  import opened Sequences
  import opened KernelModel
  import opened KernelInvariant
  import opened Inheritance
  import opened Blocking
  import opened Waking
  import opened Scheduling
  import opened Exchange
  import opened MutexSteps

  // ---------------------------------------------------------------------------
  // Delays and the tick
  // ---------------------------------------------------------------------------

  lemma DelayGood(k: Kernel, ticks: nat)
    requires Good(k) && MayBlock(k) && ticks > 0
    ensures Good(DelayFor(k, ticks).(pendsv := true))
    ensures Exact(k) ==> Exact(DelayFor(k, ticks).(pendsv := true))
  {
    hide Inv, Exact;
    DelayInv(k, ticks);
    FlagsInv(DelayFor(k, ticks), DelayFor(k, ticks).(pendsv := true), {});
  }

  lemma DelayCallGood(k: Kernel, ticks: nat)
    requires Good(k) && Shape(k)
    ensures Good(DelayCall(k, ticks).0)
    ensures Exact(k) ==> Exact(DelayCall(k, ticks).0)
  {
    hide Inv, Exact, Prompt, DelayFor, YieldCall;
    YieldGood(k);
    if ticks != 0 && ticks != WAIT_FOREVER && DelayStatus(k, ticks) == Ok {
      DelayGood(k, ticks);
    }
  }

  lemma DelayUntilCallGood(k: Kernel, last: Word32, period: Word32)
    requires Good(k) && Shape(k)
    ensures Good(DelayUntilCall(k, last, period).0)
    ensures Exact(k) ==> Exact(DelayUntilCall(k, last, period).0)
  {
    hide Inv, Exact, Prompt, DelayFor;
    var remaining: Word32 := ((last + period) % TICK_RANGE - k.now % TICK_RANGE) % TICK_RANGE;
    if remaining != 0 && DelayStatus(k, remaining) == Ok {
      DelayGood(k, remaining);
    }
  }

  /** Expiry does not stop the running task and does not withdraw a switch request. */
  lemma ExpireKeepsRunning(k: Kernel, t: Tid)
    requires Shape(k) && t < |k.tasks| && Waiting(k.tasks[t])
    ensures ExpireOne(k, t).current == k.current && ExpireOne(k, t).pendsv == k.pendsv
    ensures k.tasks[k.current].state == Running ==> ExpireOne(k, t).tasks[k.current].state == Running
  {
    hide Without, WithoutId, Recompute;
  }

  lemma {:induction false} ExpireAllKeepsRunning(k: Kernel, ids: seq<nat>)
    requires Shape(k) && Distinct(ids) && AllWaiting(k, ids)
    requires k.tasks[k.current].state == Running || k.pendsv
    ensures var r := ExpireAll(k, ids); r.tasks[r.current].state == Running || r.pendsv
    decreases |ids|
  {
    hide ExpireOne;
    if ids != [] {
      assert ids[0] in ids;
      ExpireKeepsRunning(k, ids[0]);
      forall u | u in ids[1..]
        ensures u < |k.tasks| && Waiting(ExpireOne(k, ids[0]).tasks[u])
      {
        assert u in ids && u != ids[0];
        ExpireFrame(k, ids[0], u);
      }
      ExpireAllKeepsRunning(ExpireOne(k, ids[0]), ids[1..]);
    }
  }

  lemma TickTimeoutsRunning(k: Kernel)
    requires Good(k) && Shape(k)
    ensures var r := TickTimeouts(k); r.tasks[r.current].state == Running || r.pendsv
  {
    hide Inv, DueIds, NotDue, ExpireAll, NoneBetter;
    AdvanceInv(k);
    ExpireAllKeepsRunning(Advanced(k), DueIds(k.timeouts, k.now + 1));
  }

  lemma GiveKeepsRunning(k: Kernel, s: nat)
    requires Core(k, {}) && Shape(k)
    requires k.tasks[k.current].state == Running || k.pendsv
    ensures var r := SemGiveLocked(k, s).0; r.tasks[r.current].state == Running || r.pendsv
  {
    var ws := WaitersOf(k, SemWaiters(s));
    if ws != [] {
      FirstWaits(k, SemWaiters(s));
    }
    hide Core, Without, WithoutId;
  }

  /** The whole tick, with or without a software timer expiring. */
  lemma TickGood(k: Kernel, fired: bool)
    requires Good(k) && Shape(k)
    ensures Good(Tick(k, fired))
    ensures Exact(k) ==> Exact(Tick(k, fired))
  {
    hide Core, OnlyCurrentRuns, TimeoutOk, EpisodesOk, SemsOk, QueuesOk, Acyclic, Boosted, Exact, TickTimeouts,
         SemGiveLocked, TickTail;
    TickTimeoutsInv(k);
    TickTimeoutsRunning(k);
    var k1 := TickTimeouts(k);
    if fired {
      GiveLockedInv(k1, TIMER_SIGNAL);
      GiveKeepsRunning(k1, TIMER_SIGNAL);
      var (k2, _, woken) := SemGiveLocked(k1, TIMER_SIGNAL);
      TickTailGood(k2, woken);
    } else {
      TickTailGood(k1, false);
    }
  }

  // ---------------------------------------------------------------------------
  // Every step, every run
  // ---------------------------------------------------------------------------

  /** A lock call that is taken back because it would close a cycle. */
  ghost predicate Rejects(k: Kernel, step: Step)
    requires Shape(k)
  {
    step.DoLock? && LockRejected(k, step.m, step.timeout)
  }

  /** The idle task only waits for interrupts: it makes no kernel calls. */
  predicate Allowed(k: Kernel, step: Step) {
    ByTask(step) ==> k.current != IDLE
  }

  lemma GoodShape(k: Kernel)
    requires Good(k)
    ensures Shape(k)
  {
  }

  /** Every step keeps the invariant, and exact priorities unless it rejects a lock. */
  lemma StepGood(k: Kernel, step: Step)
    requires Good(k) && Shape(k) && Allowed(k, step)
    ensures Good(Apply(k, step))
    ensures Exact(k) && !Rejects(k, step) ==> Exact(Apply(k, step))
  {
    hide Inv, Prompt, Exact, YieldCall, DelayCall, DelayUntilCall, SuspendCall, ResumeCall, Lock, Unlock, SemTake,
         SemGive, Send,
         Receive, SemGiveFromIsr, SendFromIsr, ReceiveFromIsr, Tick, PendSV, LockRejected;
    match step
    case DoYield => YieldGood(k);
    case DoDelay(ticks) => DelayCallGood(k, ticks);
    case DoDelayUntil(last, period) => DelayUntilCallGood(k, last, period);
    case DoSuspend(t) => SuspendGood(k, t);
    case DoResume(t) => ResumeGood(k, t);
    case DoLock(m, timeout) => LockGood(k, m, timeout);
    case DoUnlock(m) => UnlockGood(k, m);
    case DoTake(s, timeout) => TakeGood(k, s, timeout);
    case DoGive(s) => GiveGood(k, s);
    case DoSend(q, item, timeout) => SendGood(k, q, item, timeout);
    case DoReceive(q, timeout) => ReceiveGood(k, q, timeout);
    case IsrGive(s) => GiveGood(k, s);
    case IsrSend(q, item) => SendGood(k, q, item, 0);
    case IsrReceive(q) => ReceiveGood(k, q, 0);
    case IsrReturn => IsrReturnGood(k);
    case SysTick(fired) => TickGood(k, fired);
    case ContextSwitch => SwitchGood(k);
  }

  lemma IsrReturnGood(k: Kernel)
    requires Good(k) && Shape(k)
    ensures Good(Apply(k, IsrReturn))
    ensures Exact(k) ==> Exact(Apply(k, IsrReturn))
  {
    hide Inv, Exact;
    FlagsInv(k, k.(pendsv := k.pendsv || k.isrWoken, isrWoken := false), {});
  }

  /** Every task step of the run is taken by a task other than the idle one. */
  ghost predicate Admissible(k: Kernel, steps: seq<Step>)
    requires Shape(k)
    decreases |steps|
  {
    steps != [] ==> Allowed(k, steps[0]) && Admissible(Apply(k, steps[0]), steps[1..])
  }

  /** No lock of the run is rejected. */
  ghost predicate NeverRejects(k: Kernel, steps: seq<Step>)
    requires Shape(k)
    decreases |steps|
  {
    steps != [] ==> !Rejects(k, steps[0]) && NeverRejects(Apply(k, steps[0]), steps[1..])
  }

  lemma {:induction false} RunGood(k: Kernel, steps: seq<Step>)
    requires Good(k) && Shape(k) && Admissible(k, steps)
    ensures Good(Run(k, steps))
    ensures Exact(k) && NeverRejects(k, steps) ==> Exact(Run(k, steps))
    decreases |steps|
  {
    hide Good, Exact, Apply, Rejects, Allowed;
    if steps != [] {
      StepGood(k, steps[0]);
      RunGood(Apply(k, steps[0]), steps[1..]);
    }
  }

  // ---------------------------------------------------------------------------
  // Start-up
  // ---------------------------------------------------------------------------

  /** Objects as their creation functions leave them. */
  ghost predicate FreshObjects(mutexes: map<nat, Mutex>, sems: map<nat, Semaphore>, queues: map<nat, Queue>) {
    && (forall m :: m in mutexes ==> mutexes[m].owner == None && mutexes[m].count == 0)
    && (forall s :: s in sems ==>
          sems[s].count == sems[s].initial <= sems[s].max && sems[s].given == 0 && sems[s].taken == 0)
    && (forall q :: q in queues ==> queues[q].capacity > 0 && queues[q] == Queue(queues[q].capacity, [], [], []))
  }

  /** Before the start no task waits, owns or runs. */
  ghost predicate Quiet(k: Kernel) {
    && Inv(k, {}) && Exact(k) && Shape(k)
    && k.waiters == map[] && k.timeouts == []
    && FreshObjects(k.mutexes, k.sems, k.queues)
    && forall t: Tid :: t < |k.tasks| ==>
         k.tasks[t].state == Ready && k.owned[t] == [] && k.hist[t] == [] && k.tasks[t].wait == NoWait
  }

  lemma QuietIntro(k: Kernel)
    requires BasesOk(k) && ReadyOk(k)
    requires k.waiters == map[] && k.timeouts == [] && FreshObjects(k.mutexes, k.sems, k.queues)
    requires forall t: Tid :: t < |k.tasks| ==>
      k.tasks[t].state == Ready && k.owned[t] == [] && k.hist[t] == [] && k.tasks[t].wait == NoWait
          && k.prio[t].eff == k.prio[t].base
    ensures Quiet(k)
  {
    assert forall l :: WaitersOf(k, l) == [];
    QuietCore(k);
    QuietRest(k);
    hide Core, ReadyOk, BasesOk, TimeoutOk, EpisodesOk, SemsOk, QueuesOk, Acyclic, Boosted, Exact;
  }

  lemma QuietCore(k: Kernel)
    requires BasesOk(k) && ReadyOk(k)
    requires k.waiters == map[] && FreshObjects(k.mutexes, k.sems, k.queues)
    requires forall t: Tid :: t < |k.tasks| ==>
      k.tasks[t].state == Ready && k.owned[t] == [] && k.tasks[t].wait == NoWait
    ensures Core(k, {})
  {
    hide ReadyOk;
    assert forall l :: WaitersOf(k, l) == [];
    assert forall m: nat :: MutexOf(k, m).owner == None && MutexOf(k, m).count == 0;
  }

  lemma QuietRest(k: Kernel)
    requires Shape(k) && k.waiters == map[] && k.timeouts == [] && FreshObjects(k.mutexes, k.sems, k.queues)
    requires forall t: Tid :: t < |k.tasks| ==>
      k.tasks[t].state == Ready && k.owned[t] == [] && k.hist[t] == [] && k.tasks[t].wait == NoWait
          && k.prio[t].eff == k.prio[t].base
    ensures TimeoutOk(k, {}) && EpisodesOk(k, {}) && SemsOk(k) && QueuesOk(k) && OnlyCurrentRuns(k)
    ensures Acyclic(k) && Boosted(k) && Exact(k)
  {
    assert forall l :: WaitersOf(k, l) == [];
    forall t: Tid | t < |k.tasks|
      ensures ChainEnds(k, t) && EpisodeAt(k, {}, t)
    {
      assert Ends(k, t, 0);
    }
  }

  lemma InitializedQuiet(mutexes: map<nat, Mutex>, sems: map<nat, Semaphore>, queues: map<nat, Queue>)
    requires FreshObjects(mutexes, sems, queues)
    ensures Quiet(Initialized(mutexes, sems, queues))
  {
    QuietIntro(Initialized(mutexes, sems, queues));
  }

  lemma RegisterQuiet(k: Kernel, priority: nat)
    requires Quiet(k)
    ensures Quiet(Register(k, priority).0)
  {
    hide Inv, FreshObjects, Exact, Required;
    QuietFacts(k);
    var k' := Register(k, priority).0;
    if k' != k {
      RegisterReady(k, priority);
      QuietIntro(k');
    }
  }

  lemma QuietFacts(k: Kernel)
    requires Quiet(k)
    ensures BasesOk(k) && ReadyOk(k)
    ensures forall t: Tid :: t < |k.tasks| ==> k.prio[t].eff == k.prio[t].base
  {
    hide OwnOk, WaitOk, TimeoutOk, EpisodesOk, SemsOk, QueuesOk, Acyclic, Boosted;
    forall t: Tid | t < |k.tasks|
      ensures k.prio[t].eff == k.prio[t].base
    {
      assert ExactAt(k, t);
    }
  }

  lemma RegisterReady(k: Kernel, priority: nat)
    requires BasesOk(k) && ReadyOk(k)
    requires priority < IDLE_PRIORITY && |k.tasks| < MAX_TASKS
    ensures ReadyOk(Register(k, priority).0) && BasesOk(Register(k, priority).0)
  {
    var k' := Register(k, priority).0;
    assert |k.tasks| !in k.ready[priority];
    DistinctSnoc(k.ready[priority], |k.tasks|);
    forall p, t: Tid | 0 <= p < |k'.ready|
      ensures t in k'.ready[p] <==>
        t < |k'.tasks| && (k'.tasks[t].state == Ready || k'.tasks[t].state == Running) && k'.prio[t].eff == p
    {
      assert t in k.ready[p] <==>
        t < |k.tasks| && (k.tasks[t].state == Ready || k.tasks[t].state == Running) && k.prio[t].eff == p;
    }
  }

  lemma {:induction false} RegisterAllQuiet(k: Kernel, priorities: seq<nat>)
    requires Quiet(k)
    ensures Quiet(RegisterAll(k, priorities))
    decreases |priorities|
  {
    hide Quiet, Register;
    if priorities != [] {
      QuietShape(k);
      RegisterQuiet(k, priorities[0]);
      RegisterAllQuiet(Register(k, priorities[0]).0, priorities[1..]);
    }
  }

  lemma QuietShape(k: Kernel)
    requires Quiet(k)
    ensures Shape(k)
  {
  }

  /** Starting the kernel establishes the invariant, with exact priorities. */
  lemma StartedGood(priorities: seq<nat>, mutexes: map<nat, Mutex>, sems: map<nat, Semaphore>, queues: map<nat, Queue>)
    requires FreshObjects(mutexes, sems, queues)
    ensures Good(Started(priorities, mutexes, sems, queues))
    ensures Exact(Started(priorities, mutexes, sems, queues))
  {
    hide Inv, FreshObjects, Exact, Choose, RegisterAll, Initialized;
    InitializedQuiet(mutexes, sems, queues);
    RegisterAllQuiet(Initialized(mutexes, sems, queues), priorities);
    ChoiceInv(RegisterAll(Initialized(mutexes, sems, queues), priorities));
  }
}
