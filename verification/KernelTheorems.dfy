/** What the invariant means for users of the kernel, over every run. */
module KernelTheorems {
  import opened Config
  import opened Sequences
  import opened KernelModel
  import opened KernelInvariant
  import opened Inheritance
  import opened Blocking
  import opened Waking
  import opened Scheduling
  import opened Exchange
  import opened MutexSteps
  import opened KernelRuns

  /** How a kernel is configured before it starts. */
  datatype Setup = Setup(priorities: seq<nat>, mutexes: map<nat, Mutex>, sems: map<nat, Semaphore>,
      queues: map<nat, Queue>)

  ghost predicate ValidSetup(b: Setup) {
    FreshObjects(b.mutexes, b.sems, b.queues)
  }

  ghost function Boot(b: Setup): (k: Kernel)
    ensures Shape(k)
  {
    Started(b.priorities, b.mutexes, b.sems, b.queues)
  }

  /** `k` is the state after the run `steps` of a kernel set up as `b`. */
  ghost predicate Reached(b: Setup, steps: seq<Step>, k: Kernel) {
    ValidSetup(b) && Admissible(Boot(b), steps) && k == Run(Boot(b), steps)
  }

  lemma ReachedGood(b: Setup, steps: seq<Step>, k: Kernel)
    requires Reached(b, steps, k)
    ensures Good(k)
    ensures NeverRejects(Boot(b), steps) ==> Exact(k)
  {
    hide Good, Exact, Started, Run, Admissible, NeverRejects, FreshObjects;
    StartedGood(b.priorities, b.mutexes, b.sems, b.queues);
    RunGood(Boot(b), steps);
  }

  // ---------------------------------------------------------------------------
  // Priorities
  // ---------------------------------------------------------------------------

  /** In a run without a rejected lock every task runs at exactly its inherited priority. */
  lemma PrioritiesInherited(b: Setup, steps: seq<Step>, k: Kernel, t: Tid)
    requires Reached(b, steps, k) && NeverRejects(Boot(b), steps) && t < |k.tasks|
    ensures t < |k.prio| && IsInherited(k, t, k.prio[t].eff)
  {
    hide Reached, NeverRejects, ReadyOk, TimeoutOk, EpisodesOk, SemsOk, QueuesOk, Acyclic, Boosted, Required,
         IsInherited;
    ReachedGood(b, steps, k);
    assert ExactAt(k, t);
    RequiredIsInherited(k, t);
  }

  /** In every run no task is less urgent than what it inherits. */
  lemma NeverUnderBoosted(b: Setup, steps: seq<Step>, k: Kernel, t: Tid, m: nat, w: Tid)
    requires Reached(b, steps, k) && t < |k.tasks|
    requires MutexOf(k, m).owner == Some(t) && w in WaitersOf(k, MutexWaiters(m))
    ensures t < |k.prio| && w < |k.prio| && k.prio[t].eff <= k.prio[w].eff && k.prio[t].eff <= k.prio[t].base
  {
    hide Reached, NeverRejects, ReadyOk, TimeoutOk, EpisodesOk, SemsOk, QueuesOk, Acyclic, Required;
    ReachedGood(b, steps, k);
    assert BoostedAt(k, t);
    RequiredIsInherited(k, t);
  }

  // ---------------------------------------------------------------------------
  // Deadlock
  // ---------------------------------------------------------------------------

  /** In every run no task waits, directly or through other owners, for itself. */
  lemma NoDeadlock(b: Setup, steps: seq<Step>, k: Kernel, t: Tid, n: nat)
    requires Reached(b, steps, k) && t < |k.tasks| && Next(k, t).Some?
    ensures !Reaches(k, Next(k, t).value, t, n)
  {
    hide Reached, Core, TimeoutOk, EpisodesOk, SemsOk, QueuesOk, Boosted, Next, Ends, Reaches;
    ReachedGood(b, steps, k);
    var o := Next(k, t).value;
    assert ChainEnds(k, t);
    var j: nat :| Ends(k, t, j);
    if Reaches(k, o, t, n) {
      EndsStep(k, t, j);
      LoopNeverEnds(k, o, t, n, j - 1);
    }
  }

  lemma EndsStep(k: Kernel, t: Tid, j: nat)
    requires Ends(k, t, j) && Next(k, t).Some?
    ensures j > 0 && Ends(k, Next(k, t).value, j - 1)
  {
  }

  // ---------------------------------------------------------------------------
  // Scheduling
  // ---------------------------------------------------------------------------

  /** The ready set is never empty, so selection always finds a runnable task. */
  lemma AlwaysRunnable(b: Setup, steps: seq<Step>, k: Kernel)
    requires Reached(b, steps, k)
    ensures Highest(k).Some? && Highest(k).value < |k.tasks| && Runnable(k.tasks[Highest(k).value])
  {
    hide Reached, TimeoutOk, EpisodesOk, SemsOk, QueuesOk, Acyclic, Boosted, WaitOk, OwnOk, TasksOk, Highest;
    ReachedGood(b, steps, k);
    HighestIsBest(k);
  }

  /** After every context switch exactly the current task runs, and none is more urgent. */
  lemma SwitchSelectsBest(b: Setup, steps: seq<Step>, k: Kernel)
    requires Reached(b, steps, k)
    ensures var k' := PendSV(k);
      && k'.current < |k'.tasks| && k'.tasks[k'.current].state == Running && NoneBetter(k')
      && forall t: Tid :: t < |k'.tasks| && k'.tasks[t].state == Running ==> t == k'.current
  {
    hide Reached, Core, TimeoutOk, EpisodesOk, SemsOk, QueuesOk, Acyclic, Boosted, PendSV, NoneBetter;
    ReachedGood(b, steps, k);
    GoodShape(k);
    SwitchGood(k);
  }

  /** Between switches a more urgent ready task is never left without a switch request. */
  lemma SwitchRequested(b: Setup, steps: seq<Step>, k: Kernel, t: Tid)
    requires Reached(b, steps, k) && t < |k.tasks| && k.tasks[t].state == Ready
    requires Eff(k.prio, t) < Eff(k.prio, k.current)
    ensures k.pendsv || k.isrWoken
  {
    hide Reached, Inv;
    ReachedGood(b, steps, k);
  }

  /** One yield followed by the switch it asks for. */
  function YieldAndSwitch(k: Kernel): (r: Kernel)
    requires Shape(k)
    ensures Shape(r)
  {
    PendSV(YieldCall(k))
  }

  function YieldTimes(k: Kernel, i: nat): (r: Kernel)
    requires Shape(k)
    ensures Shape(r)
    decreases i
  {
    if i == 0 then k else YieldAndSwitch(YieldTimes(k, i - 1))
  }

  /** The running task heads the best level. */
  ghost predicate HeadsBest(k: Kernel, p: nat, q: seq<Tid>) {
    && ReadyOk(k) && BasesOk(k) && p < PRIORITY_COUNT && k.ready[p] == q && q != []
    && k.current == q[0] && k.tasks[k.current].state == Running && OnlyCurrentRuns(k)
    && (forall i :: 0 <= i < p ==> k.ready[i] == [])
  }

  lemma HeadsHighest(k: Kernel, p: nat, q: seq<Tid>)
    requires p < |k.ready| && k.ready[p] == q && q != [] && forall i :: 0 <= i < p ==> k.ready[i] == []
    ensures Highest(k) == Some(q[0])
  {
    BestFromIsFirst(k.ready, 0, p);
  }

  lemma YieldRotates(k: Kernel, p: nat, q: seq<Tid>)
    requires HeadsBest(k, p, q)
    ensures YieldAndSwitch(k).ready == k.ready[p := q[1..] + [q[0]]]
    ensures YieldAndSwitch(k).current == (q[1..] + [q[0]])[0]
    ensures HeadsBest(YieldAndSwitch(k), p, q[1..] + [q[0]])
  {
    var c := k.current;
    var q' := q[1..] + [q[0]];
    var k1 := YieldCall(k);
    HeadsHighest(k1, p, q);
    assert c in k.ready[p];
    hide Highest;
    var k2 := BeforeChoice(k1);
    assert k2.ready == k.ready[p := q'];
    HeadsHighest(k2, p, q');
    YieldEffect(k, p, q);
    YieldReady(k, YieldAndSwitch(k), p, q);
  }

  lemma YieldEffect(k: Kernel, p: nat, q: seq<Tid>)
    requires HeadsBest(k, p, q) && Highest(YieldCall(k)) == Some(q[0])
    requires BeforeChoice(YieldCall(k)).ready == k.ready[p := q[1..] + [q[0]]]
    requires Highest(BeforeChoice(YieldCall(k))) == Some((q[1..] + [q[0]])[0])
    ensures var r := YieldAndSwitch(k);
      var n := (q[1..] + [q[0]])[0];
      && n < |k.tasks| && r.ready == k.ready[p := q[1..] + [q[0]]] && r.current == n && r.prio == k.prio
      && |r.tasks| == |k.tasks| && r.owned == k.owned
      && r.tasks[n].state == Running
      && forall t: Tid :: t < |k.tasks| && t != n ==>
        r.tasks[t].state == if k.tasks[t].state == Running then Ready else k.tasks[t].state
  {
    hide Highest, RotatedReady;
    var n := (q[1..] + [q[0]])[0];
    assert n in k.ready[p];
  }

  lemma YieldReady(k: Kernel, r: Kernel, p: nat, q: seq<Tid>)
    requires HeadsBest(k, p, q) && Shape(r) && |r.tasks| == |k.tasks| && r.prio == k.prio && r.owned == k.owned
    requires r.ready == k.ready[p := q[1..] + [q[0]]] && r.current == (q[1..] + [q[0]])[0]
    requires r.tasks[r.current].state == Running
    requires forall t: Tid :: t < |k.tasks| && t != r.current ==>
      r.tasks[t].state == if k.tasks[t].state == Running then Ready else k.tasks[t].state
    ensures HeadsBest(r, p, q[1..] + [q[0]])
  {
    DistinctSnoc(q[1..], q[0]);
    assert forall u: Tid :: u in q[1..] + [q[0]] <==> u in q;
    assert r.current in k.ready[p];
  }

  /** Rotation by `i` places. */
  function Rotated(q: seq<Tid>, i: nat): seq<Tid>
    requires i <= |q|
  {
    q[i..] + q[..i]
  }

  /** Yields among the `|q|` tasks of the best level select them in turn, each once, and
      after `|q|` yields the level and the running task are what they were. */
  lemma {:induction false} RoundRobin(k: Kernel, p: nat, q: seq<Tid>, i: nat)
    requires HeadsBest(k, p, q) && i <= |q|
    ensures HeadsBest(YieldTimes(k, i), p, Rotated(q, i))
    ensures YieldTimes(k, i).ready == k.ready[p := Rotated(q, i)]
    ensures YieldTimes(k, i).current == if i == |q| then q[0] else q[i]
    decreases i
  {
    hide YieldAndSwitch, ReadyOk, OnlyCurrentRuns;
    if i == 0 {
      assert Rotated(q, 0) == q;
      assert k.ready[p := q] == k.ready;
    } else {
      RoundRobin(k, p, q, i - 1);
      var r := Rotated(q, i - 1);
      YieldRotates(YieldTimes(k, i - 1), p, r);
      assert r[1..] + [r[0]] == Rotated(q, i);
    }
  }

  // ---------------------------------------------------------------------------
  // Waits
  // ---------------------------------------------------------------------------

  /** A task that is not waiting is linked in no wait list and has no running timeout. */
  lemma CompletedIsUnlinked(b: Setup, steps: seq<Step>, k: Kernel, t: Tid)
    requires Reached(b, steps, k) && t < |k.tasks| && !Waiting(k.tasks[t])
    ensures forall l :: t !in WaitersOf(k, l)
    ensures forall e :: e in k.timeouts ==> e.id != t
  {
    hide Reached, ReadyOk, OwnOk, BasesOk, SemsOk, QueuesOk, Acyclic, Boosted, Prompt, EpisodesOk;
    ReachedGood(b, steps, k);
    assert TaskOk(k.tasks[t]);
  }

  // ---------------------------------------------------------------------------
  // Queues and semaphores
  // ---------------------------------------------------------------------------

  /** In every run a queue has delivered a prefix of what it accepted, in order, and holds
      the rest; waiting receivers imply an empty queue and waiting senders a full one. */
  lemma QueueIsFifo(b: Setup, steps: seq<Step>, k: Kernel, q: nat)
    requires Reached(b, steps, k)
    ensures var x := QueueOf(k, q);
      && x.accepted == x.received + x.items && |x.items| <= x.capacity
      && (WaitersOf(k, RecvWaiters(q)) != [] ==> x.items == [])
      && (WaitersOf(k, SendWaiters(q)) != [] ==> |x.items| == x.capacity)
      && !(WaitersOf(k, RecvWaiters(q)) != [] && WaitersOf(k, SendWaiters(q)) != [])
  {
    hide Reached, Core, TimeoutOk, EpisodesOk, SemsOk, Acyclic, Boosted, OnlyCurrentRuns;
    ReachedGood(b, steps, k);
  }

  /** In every run the tokens given are the tokens taken plus those still available. */
  lemma TokensConserved(b: Setup, steps: seq<Step>, k: Kernel, s: nat)
    requires Reached(b, steps, k)
    ensures var x := SemOf(k, s);
      && x.initial + x.given == x.taken + x.count && x.count <= x.max
      && (WaitersOf(k, SemWaiters(s)) != [] ==> x.count == 0)
  {
    hide Reached, Core, TimeoutOk, EpisodesOk, QueuesOk, Acyclic, Boosted, OnlyCurrentRuns;
    ReachedGood(b, steps, k);
  }

  // ---------------------------------------------------------------------------
  // Periodic delays
  // ---------------------------------------------------------------------------

  /** If the absolute time `last + period` lies ahead by at most half the counter's range, the
      task is delayed until exactly then, whatever the counter did in between. */
  lemma DelayUntilExact(k: Kernel, last: nat, period: Word32)
    requires Shape(k) && MayBlock(k) && 0 < period <= INT32_MAX
    requires k.now < last + period <= k.now + INT32_MAX
    ensures DelayUntilCall(k, last % TICK_RANGE, period) ==
      (DelayFor(k, last + period - k.now).(pendsv := true), Outcome(Ok, true, []), (last + period) % TICK_RANGE)
  {
    hide DelayFor;
    WrappedDistance(k.now, last, period);
  }

  /** If it lies behind by at most that much, or is now, the call does not wait and moves the
      caller's reference on. */
  lemma DelayUntilLate(k: Kernel, last: nat, period: Word32)
    requires Shape(k) && 0 < period <= INT32_MAX
    requires last + period <= k.now <= last + period + INT32_MAX
    ensures DelayUntilCall(k, last % TICK_RANGE, period) == (k, Done(Ok), (last + period) % TICK_RANGE)
  {
    WrappedDistance(k.now, last, period);
  }

  /** Distances on the wrapping counter. */
  lemma WrappedDistance(now: nat, last: nat, period: nat)
    ensures (last % TICK_RANGE + period) % TICK_RANGE == (last + period) % TICK_RANGE
    ensures now <= last + period < now + TICK_RANGE ==>
      ((last + period) % TICK_RANGE - now % TICK_RANGE) % TICK_RANGE == last + period - now
    ensures last + period < now <= last + period + TICK_RANGE - 1 ==>
      ((last + period) % TICK_RANGE - now % TICK_RANGE) % TICK_RANGE == last + period - now + TICK_RANGE
  {
    var a := last + period;
    assert last == TICK_RANGE * (last / TICK_RANGE) + last % TICK_RANGE;
    ModShift(last % TICK_RANGE + period, last / TICK_RANGE);
    var x := a % TICK_RANGE - now % TICK_RANGE;
    ModShift(x, a / TICK_RANGE - now / TICK_RANGE);
    assert a - now == x + TICK_RANGE * (a / TICK_RANGE - now / TICK_RANGE);
  }

  lemma ModShift(x: int, i: int)
    ensures (x + TICK_RANGE * i) % TICK_RANGE == x % TICK_RANGE
  {
  }
}
