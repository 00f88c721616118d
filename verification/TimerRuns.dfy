/**
 The timer service task as part of the whole system. Ticks, timer calls, the service
 loop and every other kernel activity interleave freely; the results hold after every run.
 */
module TimerRuns {
  import opened Config
  import opened Sequences
  import opened KernelModel
  import opened KernelInvariant
  import opened Blocking
  import opened Waking
  import opened Scheduling
  import opened Exchange
  import opened KernelRuns
  import opened TimerModel
  import opened TimerService

  /** Where the service task is in its endless loop: about to take the signal, inside the take,
      draining the pending list, inside a callback, or in the trap after a failed take. */
  datatype Place = AtTake | InTake | Draining | InCallback(timer: nat) | Trapped

  datatype System = System(k: Kernel, ts: Timers, place: Place, svc: Tid)

  datatype Event =
    | Other(step: Step)
    | TimerTick
    | Start(i: nat)
    | Stop(i: nat)
    | Reset(i: nat)
    | NewPeriod(i: nat, period: nat)
    | ServiceTakes
    | ServiceReturns
    | ServiceDrains
    | CallbackReturns

  const SIGNAL := SemWaiters(TIMER_SIGNAL)

  predicate ServiceRuns(x: System) {
    && x.k.current == x.svc && x.svc < |x.k.tasks| && x.k.tasks[x.svc].state == Running
  }

  /** The signal is private to the timers, the idle task makes no calls, and the service task
      makes no calls of its own except from a callback. */
  predicate Enabled(x: System, e: Event) {
    match e
    case Other(step) =>
      && !Concerns(step, TIMER_SIGNAL) && Allowed(x.k, step)
      && (ByTask(step) && x.k.current == x.svc ==> x.place.InCallback?)
    case ServiceTakes => x.place.AtTake? && ServiceRuns(x)
    case ServiceReturns => x.place.InTake? && ServiceRuns(x)
    case ServiceDrains => x.place.Draining? && ServiceRuns(x)
    case CallbackReturns => x.place.InCallback? && ServiceRuns(x)
    case _ => true
  }

  function Takes(x: System): System
    requires Shape(x.k)
  {
    var (k', o) := SemTake(x.k, TIMER_SIGNAL, WAIT_FOREVER);
    x.(k := k', place := if o.blocked then InTake else if o.status == Ok then Draining else Trapped)
  }

  function Drains(x: System): System {
    var (ts', i) := TakePending(x.ts);
    x.(ts := ts', place := if i.None? then AtTake else InCallback(i.value))
  }

  function Happens(x: System, e: Event): (r: System)
    requires Shape(x.k)
    ensures Shape(r.k)
  {
    match e
    case Other(step) => x.(k := Apply(x.k, step))
    case TimerTick =>
      var (ts', fired) := TimersTick(x.ts, x.k.now + 1);
      x.(k := Tick(x.k, fired), ts := ts')
    case Start(i) => x.(ts := StartTimer(x.ts, i, x.k.now).0)
    case Stop(i) => x.(ts := StopTimer(x.ts, i).0)
    case Reset(i) => x.(ts := ResetTimer(x.ts, i, x.k.now).0)
    case NewPeriod(i, period) => x.(ts := ChangePeriod(x.ts, i, period, x.k.now).0)
    case ServiceTakes => Takes(x)
    case ServiceReturns =>
      x.(place := if x.svc < |x.k.tasks| && x.k.tasks[x.svc].result == Ok then Draining else Trapped)
    case ServiceDrains => Drains(x)
    case CallbackReturns =>
      if x.place.InCallback? && x.place.timer < |x.ts.timers|
      then x.(ts := WithTimer(x.ts, x.place.timer, x.ts.timers[x.place.timer].(running := false)), place := Draining)
      else x.(place := Draining)
  }

  // ---------------------------------------------------------------------------
  // Invariant
  // ---------------------------------------------------------------------------

  predicate OnSignal(k: Kernel, u: Tid) {
    u < |k.tasks| && k.tasks[u].wait == On(SIGNAL)
  }

  /** The open episode of `u` has no deadline. */
  predicate Endless(k: Kernel, u: Tid) {
    u < |k.hist| && k.hist[u] != [] && k.hist[u][|k.hist[u]| - 1].Began? && k.hist[u][|k.hist[u]| - 1].due == None
  }

  /** What the service task's place says about its wait. */
  ghost predicate PlaceOk(k: Kernel, place: Place, u: Tid) {
    && 0 < u < |k.tasks| && place != Trapped
    && (OnSignal(k, u) ==> place == InTake && Endless(k, u))
    && (place == InTake && !OnSignal(k, u) ==> k.tasks[u].wait == NoWait && k.tasks[u].result == Ok)
    && (place == AtTake || place == Draining ==> k.tasks[u].wait == NoWait)
  }

  /** The signal is binary and nobody but the service task waits for it. */
  ghost predicate SignalOk(k: Kernel, u: Tid) {
    && TIMER_SIGNAL in k.sems && SemOf(k, TIMER_SIGNAL).max == 1
    && forall t: Tid :: OnSignal(k, t) ==> t == u
  }

  /** Undelivered expirations keep the service task awake, or about to be. */
  ghost predicate NoneLost(x: System) {
    x.ts.queue != [] ==>
      || SemOf(x.k, TIMER_SIGNAL).count == 1
      || x.place.Draining? || x.place.InCallback?
      || (x.place.InTake? && !OnSignal(x.k, x.svc))
  }

  ghost predicate SystemOk(x: System) {
    Good(x.k) && TimersOk(x.ts, x.k.now, {}) && SignalOk(x.k, x.svc) && PlaceOk(x.k, x.place, x.svc) && NoneLost(x)
  }

  // ---------------------------------------------------------------------------
  // Only the tick moves time
  // ---------------------------------------------------------------------------

  lemma MutexCallsKeepTime(k: Kernel, m: nat, timeout: nat)
    requires Shape(k)
    ensures Lock(k, m, timeout).0.now == k.now && Unlock(k, m).0.now == k.now
  {
    hide LockBlocking, Recompute, HandOver, ShouldPreempt', Without;
  }

  lemma TaskCallsKeepTime(k: Kernel, t: Tid, ticks: nat, last: Word32, period: Word32)
    requires Shape(k)
    ensures SuspendCall(k, t).0.now == k.now && ResumeCall(k, t).0.now == k.now
    ensures YieldCall(k).now == k.now && DelayCall(k, ticks).0.now == k.now
      && DelayUntilCall(k, last, period).0.now == k.now
  {
    hide WokenFlag, SuspendedTask, Resumed, DelayFor;
  }

  lemma ExchangeKeepsTime(k: Kernel, s: nat, q: nat, item: Item, timeout: nat, mayBlock: bool)
    requires Shape(k)
    ensures SemTake(k, s, timeout).0.now == k.now
    ensures SendLocked(k, q, item, timeout, mayBlock).0.now == k.now
      && ReceiveLocked(k, q, timeout, mayBlock).0.now == k.now
  {
    hide BlockOn, Wake, WokenFlag;
  }

  lemma SwitchKeepsTime(k: Kernel)
    requires Shape(k)
    ensures PendSV(k).now == k.now
  {
    hide Highest, RotatedReady;
    assert BeforeChoice(k).now == k.now;
  }

  lemma StepKeepsTime(k: Kernel, step: Step)
    requires Shape(k) && !step.SysTick?
    ensures Apply(k, step).now == k.now
  {
    hide Lock, Unlock, SemTake, SemGiveLocked, SendLocked, ReceiveLocked, YieldCall, DelayCall, DelayUntilCall,
         SuspendCall, ResumeCall, PendSV, Shape;
    match step
    case DoLock(m, timeout) => MutexCallsKeepTime(k, m, timeout);
    case DoUnlock(m) => MutexCallsKeepTime(k, m, 0);
    case DoSuspend(t) => TaskCallsKeepTime(k, t, 0, 0, 0);
    case DoResume(t) => TaskCallsKeepTime(k, t, 0, 0, 0);
    case DoYield => TaskCallsKeepTime(k, 0, 0, 0, 0);
    case DoDelay(ticks) => TaskCallsKeepTime(k, 0, ticks, 0, 0);
    case DoDelayUntil(last, period) => TaskCallsKeepTime(k, 0, 0, last, period);
    case DoTake(s, timeout) => ExchangeKeepsTime(k, s, 0, [], timeout, true);
    case DoSend(q, item, timeout) => ExchangeKeepsTime(k, 0, q, item, timeout, true);
    case DoReceive(q, timeout) => ExchangeKeepsTime(k, 0, q, [], timeout, true);
    case IsrSend(q, item) => ExchangeKeepsTime(k, 0, q, item, NO_WAIT, false);
    case IsrReceive(q) => ExchangeKeepsTime(k, 0, q, [], NO_WAIT, false);
    case ContextSwitch => SwitchKeepsTime(k);
    case _ =>
  }

  // ---------------------------------------------------------------------------
  // Other activity and timer calls
  // ---------------------------------------------------------------------------

  lemma AloneSignal(k: Kernel, k': Kernel, u: Tid, mine: bool)
    requires SignalOk(k, u) && SemsOk(k') && LeftAlone(k, k', TIMER_SIGNAL, u, mine)
    ensures SignalOk(k', u)
  {
    assert SemOf(k', TIMER_SIGNAL).max == 1;
    forall t: Tid | OnSignal(k', t)
      ensures t == u
    {
      assert OnSignal(k, t);
    }
  }

  lemma AlonePlace(k: Kernel, k': Kernel, place: Place, u: Tid, mine: bool)
    requires PlaceOk(k, place, u) && LeftAlone(k, k', TIMER_SIGNAL, u, mine) && (mine ==> place.InCallback?)
    requires |k.hist| == |k.tasks|
    ensures PlaceOk(k', place, u)
    ensures OnSignal(k', u) ==> OnSignal(k, u)
  {
    if place.InCallback? {
      assert !OnSignal(k', u);
    } else {
      assert WaitsAtMostFor(k, TIMER_SIGNAL, u);
    }
  }

  lemma OtherOk(x: System, step: Step)
    requires SystemOk(x) && Shape(x.k) && Enabled(x, Other(step))
    ensures SystemOk(Happens(x, Other(step)))
  {
    hide Inv, Prompt, TimersOk, SignalOk, PlaceOk, LeftAlone, Apply, Allowed;
    var k' := Apply(x.k, step);
    var mine := ByTask(step) && x.k.current == x.svc;
    StepGood(x.k, step);
    StepLeavesAlone(x.k, step, TIMER_SIGNAL, x.svc);
    StepKeepsTime(x.k, step);
    GoodSems(k');
    AloneSignal(x.k, k', x.svc, mine);
    AlonePlace(x.k, k', x.place, x.svc, mine);
    AloneCount(x.k, k', x.svc, mine);
  }

  lemma GoodSems(k: Kernel)
    requires Good(k)
    ensures SemsOk(k) && Shape(k) && |k.hist| == |k.tasks|
  {
  }

  lemma AloneCount(k: Kernel, k': Kernel, u: Tid, mine: bool)
    requires LeftAlone(k, k', TIMER_SIGNAL, u, mine)
    ensures SemOf(k', TIMER_SIGNAL) == SemOf(k, TIMER_SIGNAL)
  {
  }

  /** Timer calls queue nothing. */
  lemma CallsQueueNothing(ts: Timers, i: nat, period: nat, now: nat)
    requires ts.queue == []
    ensures StartTimer(ts, i, now).0.queue == [] && StopTimer(ts, i).0.queue == []
    ensures ResetTimer(ts, i, now).0.queue == [] && ChangePeriod(ts, i, period, now).0.queue == []
  {
  }

  lemma CallOk(x: System, e: Event)
    requires SystemOk(x) && Shape(x.k) && (e.Start? || e.Stop? || e.Reset? || e.NewPeriod?)
    ensures SystemOk(Happens(x, e))
  {
    hide Inv, Prompt, TimersOk, SignalOk, PlaceOk, StartTimer, StopTimer, ResetTimer, ChangePeriod;
    var period := if e.NewPeriod? then e.period else 0;
    CallsOk(x.ts, e.i, period, x.k.now);
    if x.ts.queue == [] {
      CallsQueueNothing(x.ts, e.i, period, x.k.now);
    }
  }

  // ---------------------------------------------------------------------------
  // The tick
  // ---------------------------------------------------------------------------

  /** The service task's wait for the signal has no timeout. */
  lemma EndlessNoTimeout(k: Kernel, u: Tid)
    requires Inv(k, {}) && Shape(k) && u < |k.tasks| && (OnSignal(k, u) ==> Endless(k, u))
    requires k.tasks[u].wait == NoWait || OnSignal(k, u)
    ensures NoTimeout(k, u)
  {
    hide Core, SemsOk, QueuesOk, Acyclic, Boosted, SortedByDue, DistinctIds, Alternates, OnlyCurrentRuns;
    assert EpisodeAt(k, {}, u);
    assert forall d: nat :: Entry(u, d) !in k.timeouts;
    forall e | e in k.timeouts
      ensures e.id != u
    {
      assert e == Entry(e.id, e.due);
    }
  }

  lemma NobodyNoTimeout(k: Kernel)
    requires Inv(k, {})
    ensures NoTimeout(k, |k.tasks|)
  {
    hide Core, EpisodesOk, SemsOk, QueuesOk, Acyclic, Boosted, SortedByDue, DistinctIds, OnlyCurrentRuns;
  }

  /** Expiries do not touch the signal or the service task's wait for it. */
  lemma ExpiriesOk(k: Kernel, place: Place, u: Tid)
    requires Inv(k, {}) && Shape(k) && SignalOk(k, u) && PlaceOk(k, place, u)
    ensures var k1 := TickTimeouts(k);
      && SignalOk(k1, u) && PlaceOk(k1, place, u) && SemOf(k1, TIMER_SIGNAL) == SemOf(k, TIMER_SIGNAL)
      && (OnSignal(k1, u) ==> OnSignal(k, u))
  {
    hide Inv, TickTimeouts, SignalOk, LeftAlone;
    var k1 := TickTimeouts(k);
    TickTimeoutsInv(k);
    InvSems(k1);
    if place.InCallback? {
      NobodyNoTimeout(k);
      TickTimeoutsLeavesAlone(k, TIMER_SIGNAL, |k.tasks|);
      NobodyAlone(k, k1, u);
    } else {
      EndlessNoTimeout(k, u);
      TickTimeoutsLeavesAlone(k, TIMER_SIGNAL, u);
    }
    AloneSignal(k, k1, u, place.InCallback?);
    AlonePlace(k, k1, place, u, place.InCallback?);
    AloneCount(k, k1, u, place.InCallback?);
  }

  lemma InvSems(k: Kernel)
    requires Inv(k, {})
    ensures SemsOk(k) && Shape(k)
  {
  }

  lemma NobodyAlone(k: Kernel, k': Kernel, u: Tid)
    requires LeftAlone(k, k', TIMER_SIGNAL, |k.tasks|, false)
    ensures LeftAlone(k, k', TIMER_SIGNAL, u, true)
  {
  }

  /** Giving the signal wakes the service task or leaves one token. */
  lemma SignalGiven(k: Kernel, place: Place, u: Tid)
    requires Inv(k, {}) && Shape(k) && SignalOk(k, u) && PlaceOk(k, place, u)
    ensures var k1 := SemGiveLocked(k, TIMER_SIGNAL).0;
      && SignalOk(k1, u) && PlaceOk(k1, place, u)
      && !(OnSignal(k1, u) && SemOf(k1, TIMER_SIGNAL).count != 1)
      && (SemOf(k1, TIMER_SIGNAL).count == 1 || (place == InTake && !OnSignal(k1, u)))
  {
    hide EpisodesOk, TimeoutOk, QueuesOk, Acyclic, Boosted, OnlyCurrentRuns, Core, Without, WithoutId, ReadyWith,
         WokenFlag;
    var ws := WaitersOf(k, SIGNAL);
    if ws != [] {
      FirstWaits(k, SIGNAL);
      assert OnSignal(k, ws[0]);
      assert ws[0] == u;
      var k1 := SemGiveLocked(k, TIMER_SIGNAL).0;
      forall t: Tid | OnSignal(k1, t)
        ensures t == u
      {
        assert t != u ==> OnSignal(k, t);
      }
    } else {
      NobodyWaits(k, u);
      TokenStored(k, place, u);
    }
  }

  lemma TokenStored(k: Kernel, place: Place, u: Tid)
    requires SemsOk(k) && Shape(k) && SignalOk(k, u) && PlaceOk(k, place, u) && WaitersOf(k, SIGNAL) == []
    ensures var k1 := SemGiveLocked(k, TIMER_SIGNAL).0;
      SignalOk(k1, u) && PlaceOk(k1, place, u) && SemOf(k1, TIMER_SIGNAL).count == 1
          && (OnSignal(k1, u) ==> OnSignal(k, u))
  {
    var k1 := SemGiveLocked(k, TIMER_SIGNAL).0;
    assert SemOf(k, TIMER_SIGNAL).count <= 1;
    assert k1 == k.(sems := k1.sems);
    assert forall t: Tid :: OnSignal(k1, t) == OnSignal(k, t);
  }

  lemma NobodyWaits(k: Kernel, u: Tid)
    requires Core(k, {}) && WaitersOf(k, SIGNAL) == [] && u < |k.tasks|
    ensures !OnSignal(k, u)
  {
    assert u !in WaitersOf(k, SIGNAL);
  }

  lemma TailOk(k: Kernel, woken: bool, place: Place, u: Tid)
    requires Shape(k) && SignalOk(k, u) && PlaceOk(k, place, u)
    ensures var k1 := TickTail(k, woken);
      && SignalOk(k1, u) && PlaceOk(k1, place, u) && SemOf(k1, TIMER_SIGNAL) == SemOf(k, TIMER_SIGNAL)
      && (OnSignal(k1, u) ==> OnSignal(k, u)) && k1.now == k.now
  {
    hide ShouldPreempt;
    var k1 := TickTail(k, woken);
    forall t: Tid | t < |k.tasks|
      ensures k1.tasks[t].wait == k.tasks[t].wait && k1.tasks[t].result == k.tasks[t].result
    {
    }
    assert forall t: Tid :: OnSignal(k1, t) == OnSignal(k, t);
  }

  lemma TickMovesTime(k: Kernel)
    requires Shape(k)
    ensures TickTimeouts(k).now == k.now + 1
  {
    hide DueIds, NotDue;
  }

  /** The queue of undelivered expirations only grows in a tick that gives the signal. */
  lemma QuietTick(ts: Timers, now: nat)
    requires !TimersTick(ts, now).1
    ensures TimersTick(ts, now).0.queue == ts.queue
  {
    hide DueIds, NotDue;
  }

  lemma TickOk(x: System)
    requires SystemOk(x) && Shape(x.k)
    ensures SystemOk(Happens(x, TimerTick))
  {
    hide Inv, Prompt, TimersOk, SignalOk, PlaceOk, TimersTick, TickTimeouts, SemGiveLocked, TickTail, OnSignal;
    var (ts', fired) := TimersTick(x.ts, x.k.now + 1);
    TimersTickOk(x.ts, x.k.now);
    TickGood(x.k, fired);
    TickMovesTime(x.k);
    ExpiriesOk(x.k, x.place, x.svc);
    var k1 := TickTimeouts(x.k);
    if fired {
      TickTimeoutsInv(x.k);
      SignalGiven(k1, x.place, x.svc);
      var (k2, _, woken) := SemGiveLocked(k1, TIMER_SIGNAL);
      TailOk(k2, woken, x.place, x.svc);
    } else {
      QuietTick(x.ts, x.k.now + 1);
      TailOk(k1, false, x.place, x.svc);
    }
  }

  // ---------------------------------------------------------------------------
  // The service loop
  // ---------------------------------------------------------------------------

  lemma TakesOk(x: System)
    requires SystemOk(x) && Shape(x.k) && Enabled(x, ServiceTakes)
    ensures SystemOk(Takes(x))
  {
    hide Inv, Prompt, TimersOk, SignalOk, PlaceOk, SemTake, NoneLost;
    TakeGood(x.k, TIMER_SIGNAL, WAIT_FOREVER);
    TakeEffect(x);
  }

  lemma TakeEffect(x: System)
    requires Shape(x.k) && SignalOk(x.k, x.svc) && PlaceOk(x.k, x.place, x.svc) && NoneLost(x)
      && Enabled(x, ServiceTakes)
    ensures var r := Takes(x);
      SignalOk(r.k, x.svc) && PlaceOk(r.k, r.place, x.svc) && NoneLost(r) && r.k.now == x.k.now && r.ts == x.ts
          && r.svc == x.svc
  {
    hide ReadyWithout, InsertByPrio, InsertByDue;
    var r := Takes(x);
    var k := x.k;
    assert BlockStatus(k, WAIT_FOREVER) == Ok;
    forall t: Tid | OnSignal(r.k, t)
      ensures t == x.svc
    {
      assert t != x.svc ==> OnSignal(k, t);
    }
    if SemOf(k, TIMER_SIGNAL).count > 0 {
      assert r.k == k.(sems := r.k.sems);
    } else {
      assert r.k == BlockOn(k, SIGNAL, WAIT_FOREVER, []).(pendsv := true);
      assert Endless(r.k, x.svc);
    }
  }

  lemma DrainsOk(x: System)
    requires SystemOk(x) && Shape(x.k) && Enabled(x, ServiceDrains)
    ensures SystemOk(Drains(x))
  {
    hide Inv, Prompt, TimersOk, SignalOk;
    TakePendingOk(x.ts, x.k.now);
  }

  lemma CallbackOk(x: System)
    requires SystemOk(x) && Shape(x.k) && Enabled(x, CallbackReturns)
    ensures SystemOk(Happens(x, CallbackReturns))
  {
    hide Inv, Prompt, SignalOk, SortedByDue, DistinctIds, Distinct;
    RunningWaitsForNothing(x.k, x.svc);
    var r := Happens(x, CallbackReturns);
    forall j: nat | j < |r.ts.timers|
      ensures TimerOk(r.ts.timers[j]) && LinksOk(r.ts, r.k.now, {}, j)
    {
      assert TimerOk(x.ts.timers[j]) && LinksOk(x.ts, x.k.now, {}, j);
    }
  }

  lemma RunningWaitsForNothing(k: Kernel, u: Tid)
    requires Good(k) && u < |k.tasks| && k.tasks[u].state == Running
    ensures k.tasks[u].wait == NoWait
  {
    assert TaskOk(k.tasks[u]);
  }

  lemma ReturnsOk(x: System)
    requires SystemOk(x) && Shape(x.k) && Enabled(x, ServiceReturns)
    ensures SystemOk(Happens(x, ServiceReturns))
  {
    hide Inv, Prompt, SignalOk, TimersOk;
    RunningWaitsForNothing(x.k, x.svc);
  }

  // ---------------------------------------------------------------------------
  // Every run
  // ---------------------------------------------------------------------------

  lemma EventOk(x: System, e: Event)
    requires SystemOk(x) && Shape(x.k) && Enabled(x, e)
    ensures SystemOk(Happens(x, e))
  {
    hide SystemOk, Enabled, Happens;
    match e
    case Other(step) => OtherOk(x, step);
    case TimerTick => TickOk(x);
    case ServiceTakes =>
      TakesOk(x);
      HappensTakes(x);
    case ServiceReturns => ReturnsOk(x);
    case ServiceDrains =>
      DrainsOk(x);
      HappensDrains(x);
    case CallbackReturns => CallbackOk(x);
    case _ => CallOk(x, e);
  }

  lemma HappensTakes(x: System)
    requires Shape(x.k)
    ensures Happens(x, ServiceTakes) == Takes(x)
  {
  }

  lemma HappensDrains(x: System)
    requires Shape(x.k)
    ensures Happens(x, ServiceDrains) == Drains(x)
  {
  }

  ghost predicate Possible(x: System, es: seq<Event>)
    requires Shape(x.k)
    decreases |es|
  {
    es != [] ==> Enabled(x, es[0]) && Possible(Happens(x, es[0]), es[1..])
  }

  function History(x: System, es: seq<Event>): (r: System)
    requires Shape(x.k)
    ensures Shape(r.k)
    decreases |es|
  {
    if es == [] then x else History(Happens(x, es[0]), es[1..])
  }

  lemma {:induction false} HistoryOk(x: System, es: seq<Event>)
    requires SystemOk(x) && Shape(x.k) && Possible(x, es)
    ensures SystemOk(History(x, es))
    decreases |es|
  {
    hide SystemOk, Enabled, Happens;
    if es != [] {
      EventOk(x, es[0]);
      HistoryOk(Happens(x, es[0]), es[1..]);
    }
  }

  /** Timers as their creation leaves them. */
  ghost predicate FreshTimers(ts: Timers) {
    && ts.timeouts == [] && ts.queue == []
    && forall i: nat :: i < |ts.timers| ==>
      && 0 < ts.timers[i].period < WAIT_FOREVER
      && ts.timers[i] == Timer(ts.timers[i].period, ts.timers[i].reload, false, 0, false, 0, [], 0, 0, 0, 0)
  }

  /** A started kernel whose signal and timers have just been created. */
  ghost predicate Initial(x: System, priorities: seq<nat>, mutexes: map<nat, Mutex>, sems: map<nat, Semaphore>,
    queues: map<nat, Queue>) {
    && FreshObjects(mutexes, sems, queues) && TIMER_SIGNAL in sems && sems[TIMER_SIGNAL] == Semaphore(0, 1, 0, 0, 0)
    && x.k == Started(priorities, mutexes, sems, queues) && 0 < x.svc < |x.k.tasks|
    && FreshTimers(x.ts) && x.place == AtTake
  }

  lemma InitialOk(x: System, priorities: seq<nat>, mutexes: map<nat, Mutex>, sems: map<nat, Semaphore>,
    queues: map<nat, Queue>)
    requires Initial(x, priorities, mutexes, sems, queues)
    ensures SystemOk(x)
  {
    hide Good, Started, FreshObjects;
    StartedGood(priorities, mutexes, sems, queues);
    StartedQuiet(priorities, mutexes, sems, queues);
    FreshTimersOk(x.ts, x.k.now);
  }

  lemma StartedQuiet(priorities: seq<nat>, mutexes: map<nat, Mutex>, sems: map<nat, Semaphore>, queues: map<nat, Queue>)
    requires FreshObjects(mutexes, sems, queues)
    ensures var k := Started(priorities, mutexes, sems, queues);
      k.sems == sems && forall t: Tid :: t < |k.tasks| ==> k.tasks[t].wait == NoWait
  {
    hide Inv, FreshObjects, Exact, Highest, RegisterAll, Initialized;
    InitializedQuiet(mutexes, sems, queues);
    RegisterAllQuiet(Initialized(mutexes, sems, queues), priorities);
    RegisterKeepsSems(Initialized(mutexes, sems, queues), priorities);
    InitializedSems(mutexes, sems, queues);
  }

  lemma InitializedSems(mutexes: map<nat, Mutex>, sems: map<nat, Semaphore>, queues: map<nat, Queue>)
    ensures Initialized(mutexes, sems, queues).sems == sems
  {
  }

  lemma {:induction false} RegisterKeepsSems(k: Kernel, priorities: seq<nat>)
    requires Shape(k)
    ensures RegisterAll(k, priorities).sems == k.sems
    decreases |priorities|
  {
    if priorities != [] {
      RegisterKeepsSems(Register(k, priorities[0]).0, priorities[1..]);
    }
  }

  lemma FreshTimersOk(ts: Timers, now: nat)
    requires FreshTimers(ts)
    ensures TimersOk(ts, now, {})
  {
    forall i: nat | i < |ts.timers|
      ensures TimerOk(ts.timers[i]) && LinksOk(ts, now, {}, i)
    {
    }
  }

  /** `x` is a state of the whole system after some run. */
  ghost predicate Attained(b: System, priorities: seq<nat>, mutexes: map<nat, Mutex>, sems: map<nat, Semaphore>,
    queues: map<nat, Queue>,
                           es: seq<Event>, x: System) {
    Shape(b.k) && Initial(b, priorities, mutexes, sems, queues) && Possible(b, es) && x == History(b, es)
  }

  lemma AttainedOk(b: System, priorities: seq<nat>, mutexes: map<nat, Mutex>, sems: map<nat, Semaphore>,
    queues: map<nat, Queue>,
                   es: seq<Event>, x: System)
    requires Attained(b, priorities, mutexes, sems, queues, es, x)
    ensures SystemOk(x)
  {
    hide SystemOk, Possible, History, Initial;
    InitialOk(b, priorities, mutexes, sems, queues);
    HistoryOk(b, es);
  }

  /** No lost wakeup: in every run an undelivered expiration implies that the signal is given or
      that the service task is not waiting for it; and the service task never traps. */
  lemma NoLostWakeup(b: System, priorities: seq<nat>, mutexes: map<nat, Mutex>, sems: map<nat, Semaphore>,
    queues: map<nat, Queue>,
                     es: seq<Event>, x: System)
    requires Attained(b, priorities, mutexes, sems, queues, es, x)
    ensures x.ts.queue != [] ==> SemOf(x.k, TIMER_SIGNAL).count == 1 || x.svc !in WaitersOf(x.k, SIGNAL)
    ensures x.place != Trapped
  {
    hide Attained, TimersOk, ReadyOk, OwnOk, BasesOk, TasksOk, TimeoutOk, EpisodesOk, SemsOk, QueuesOk, Acyclic,
         Boosted, Prompt, OnlyCurrentRuns;
    AttainedOk(b, priorities, mutexes, sems, queues, es, x);
    assert x.svc in WaitersOf(x.k, SIGNAL) ==> OnSignal(x.k, x.svc);
  }

  /** In every run each timer's expirations fell exactly on its schedule since it was armed, and
      are all accounted for; its fields agree with the two lists. */
  lemma TimersKept(b: System, priorities: seq<nat>, mutexes: map<nat, Mutex>, sems: map<nat, Semaphore>,
    queues: map<nat, Queue>,
                   es: seq<Event>, x: System, i: nat)
    requires Attained(b, priorities, mutexes, sems, queues, es, x) && i < |x.ts.timers|
    ensures var t := x.ts.timers[i];
      && (forall j: nat :: j < |t.fires| ==> t.fires[j] == t.armedAt + (j + 1) * t.period)
      && t.expired == t.dispatched + t.pending + t.discarded + t.lost
      && (i in x.ts.queue <==> t.pending > 0)
      && (forall d: nat :: Entry(i, d) in x.ts.timeouts <==> t.active && d == t.armedAt + (|t.fires| + 1) * t.period)
      && (t.active ==> x.k.now < t.armedAt + (|t.fires| + 1) * t.period)
  {
    hide Attained, Good, SignalOk, PlaceOk, NoneLost, SortedByDue, DistinctIds, Distinct;
    AttainedOk(b, priorities, mutexes, sems, queues, es, x);
    assert TimerOk(x.ts.timers[i]) && LinksOk(x.ts, x.k.now, {}, i);
    ScheduleExact(x.ts, x.k.now, i);
  }
}
