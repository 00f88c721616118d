/**
 A rejected lock can leave a task more urgent than it should be. Two tasks of priority 5 and
 3 lock two mutexes in opposite order; the second is refused its lock and the first keeps
 the priority it was given while the refused lock was queued.
 */
module OverBoost {
  import opened Config
  import opened Sequences
  import opened KernelModel
  import opened KernelInvariant
  import opened Inheritance
  import opened MutexSteps
  import opened KernelRuns
  import opened KernelTheorems

  const IDLE_READY := Task(Ready, Invalid, NoWait, [], Ok, 1)
  const READY := IDLE_READY
  const RUNNING := Task(Running, Invalid, NoWait, [], Ok, 1)
  const DELAYED := Task(Blocked, Invalid, Wait.Delay, [], Ok, 1)
  const QUEUED := Task(Blocked, Invalid, On(MutexWaiters(1)), [], Internal, 1)

  const SLEPT: Episode := Began(Wait.Delay, 0, Some(1))
  const WAITED: Episode := Began(On(MutexWaiters(1)), 0, None)

  const FREE := Mutex(None, 0, false)

  const SETUP := Setup([5, 3], map[0 := FREE, 1 := FREE], map[], map[])

  /** A state of this story: the three tasks, the two owners and what differs besides. */
  ghost function State(tasks: seq<Task>, first: Option<Tid>, second: Option<Tid>, hist: seq<seq<Episode>>,
                       urgent: seq<Tid>, normal: seq<Tid>, waiting: bool, timeouts: seq<Entry>, current: Tid,
                       now: nat, reasons: set<Reason>, pendsv: bool): Kernel {
    Kernel(tasks, [Prio(7, 7), Prio(5, 5), Prio(3, 3)],
           [[], if first == Some(1) then [0] else [], if second == Some(2) then [1] else []],
           hist, [[], [], [], urgent, [], normal, [], [0]],
           if waiting then map[MutexWaiters(1) := [1]] else map[], timeouts,
           map[0 := Mutex(first, if first.Some? then 1 else 0, false),
               1 := Mutex(second, if second.Some? then 1 else 0, false)],
           map[], map[], current, now, reasons, pendsv, false)
  }

  ghost function S0(): Kernel {
    State([READY, READY, RUNNING], None, None, [[], [], []], [2], [1], false, [], 2, 0, {}, false)
  }
  ghost function S1(): Kernel {
    State([READY, READY, RUNNING], None, Some(2), [[], [], []], [2], [1], false, [], 2, 0, {}, false)
  }
  ghost function S2(): Kernel {
    State([READY, READY, DELAYED], None, Some(2), [[], [], [SLEPT]], [], [1], false, [Entry(2, 1)], 2, 0, {ByBlock},
        true)
  }
  ghost function S3(): Kernel {
    State([READY, RUNNING, DELAYED], None, Some(2), [[], [], [SLEPT]], [], [1], false, [Entry(2, 1)], 1, 0, {}, false)
  }
  ghost function S4(): Kernel {
    State([READY, RUNNING, DELAYED], Some(1), Some(2), [[], [], [SLEPT]], [], [1], false, [Entry(2, 1)], 1, 0, {},
        false)
  }
  ghost function S5(): Kernel {
    State([READY, QUEUED, DELAYED], Some(1), Some(2), [[], [WAITED], [SLEPT]], [], [], true, [Entry(2, 1)], 1, 0,
        {ByBlock}, true)
  }
  ghost function S6(): Kernel {
    State([RUNNING, QUEUED, DELAYED], Some(1), Some(2), [[], [WAITED], [SLEPT]], [], [], true, [Entry(2, 1)], 0, 0, {},
        false)
  }
  ghost function S7(): Kernel {
    State([RUNNING, QUEUED, READY], Some(1), Some(2), [[], [WAITED], [SLEPT, Ended(Ok, 1)]], [2], [], true, [], 0, 1,
        {ByPreempt}, true)
  }
  ghost function S8(): Kernel {
    State([READY, QUEUED, RUNNING], Some(1), Some(2), [[], [WAITED], [SLEPT, Ended(Ok, 1)]], [2], [], true, [], 2, 1,
        {}, false)
  }

  lemma Starts()
    ensures Boot(SETUP) == S0()
  {
    var k0 := Initialized(SETUP.mutexes, map[], map[]);
    var k1 := Register(k0, 5).0;
    var k2 := Register(k1, 3).0;
    assert RegisterAll(k0, [5, 3]) == RegisterAll(k1, [3]) == RegisterAll(k2, []) == k2;
    assert k0.ready == [[], [], [], [], [], [], [], [0]];
    assert k1.ready[5] == [1];
    assert k1.ready == [[], [], [], [], [], [1], [], [0]];
    assert k2.ready[3] == [2];
    assert k2.ready == S0().ready;
    assert BestFrom(k2.ready, 2) == BestFrom(k2.ready, 3) == Some(2);
    assert BestFrom(k2.ready, 0) == BestFrom(k2.ready, 1) == BestFrom(k2.ready, 2);
    hide RegisterAll, Register;
    var r := Choose(k2);
    assert r.tasks == S0().tasks;
  }

  lemma SecondLocks()
    ensures Shape(S0()) && Apply(S0(), DoLock(1, 100)) == S1()
  {
    var r := Apply(S0(), DoLock(1, 100));
    assert r.owned[2] == [1];
    assert r.owned == S1().owned;
    assert r.mutexes == S1().mutexes;
  }

  lemma SecondSleeps()
    ensures Shape(S1()) && Apply(S1(), DoDelay(1)) == S2()
  {
    var r := Apply(S1(), DoDelay(1));
    assert r.tasks == S2().tasks;
    assert r.hist[2] == [SLEPT];
    assert r.hist == S2().hist;
    assert r.ready == S2().ready;
    assert r.timeouts == S2().timeouts;
    assert r.reasons == S2().reasons;
  }

  lemma FirstRuns()
    ensures Shape(S2()) && Apply(S2(), ContextSwitch) == S3()
  {
  }

  lemma FirstLocks()
    ensures Shape(S3()) && Apply(S3(), DoLock(0, 100)) == S4()
  {
    var r := Apply(S3(), DoLock(0, 100));
    assert r.owned[1] == [0];
    assert r.owned == S4().owned;
    assert r.mutexes == S4().mutexes;
  }

  lemma FirstWaits()
    ensures Shape(S4()) && Apply(S4(), DoLock(1, WAIT_FOREVER)) == S5()
  {
    var r := Apply(S4(), DoLock(1, WAIT_FOREVER));
    assert r.tasks == S5().tasks;
    assert r.prio == S5().prio;
    assert r.hist[1] == [WAITED];
    assert r.hist == S5().hist;
    assert r.ready == S5().ready;
    assert r.waiters == S5().waiters;
    assert r.reasons == S5().reasons;
  }

  lemma IdleRuns()
    ensures Shape(S5()) && Apply(S5(), ContextSwitch) == S6()
  {
  }

  /** The expiry of the tick. */
  ghost function S6Woken(): Kernel { S7().(reasons := {}, pendsv := false) }

  lemma SecondExpires()
    ensures Shape(S6()) && TickTimeouts(S6()) == S6Woken()
  {
    var k1 := S6().(now := 1, timeouts := []);
    assert DueIds(S6().timeouts, 1) == [2];
    WakeSecond(k1, S6Woken());
    hide ExpireOne;
    assert ExpireAll(k1, [2]) == ExpireAll(ExpireOne(k1, 2), []);
  }

  lemma SecondWakes()
    ensures Shape(S6()) && Apply(S6(), SysTick(false)) == S7()
  {
    hide TickTimeouts;
    SecondExpires();
    var r := TickTail(S6Woken(), false);
    assert r.tasks == S7().tasks;
    assert r.reasons == S7().reasons;
  }

  lemma WakeSecond(k1: Kernel, k2: Kernel)
    requires k1 == S6().(now := 1, timeouts := []) && k2 == S6Woken()
    ensures Shape(k1) && ExpireOne(k1, 2) == k2
  {
    var r := Wake(k1, 2, Ok);
    assert r.tasks == k2.tasks;
    assert r.hist[2] == [SLEPT, Ended(Ok, 1)];
    assert r.hist == k2.hist;
    assert r.ready[3] == [2];
    assert r.ready == k2.ready;
  }

  lemma SecondRuns()
    ensures Shape(S7()) && Apply(S7(), ContextSwitch) == S8()
  {
  }

  ghost function Story(): seq<Step> {
    [DoLock(1, 100), DoDelay(1), ContextSwitch, DoLock(0, 100), DoLock(1, WAIT_FOREVER), ContextSwitch, SysTick(false),
        ContextSwitch]
  }

  /** The run `steps` is possible from `k` and leads to `k'`. */
  ghost predicate Leads(k: Kernel, steps: seq<Step>, k': Kernel) {
    Shape(k) && Admissible(k, steps) && Run(k, steps) == k'
  }

  lemma LeadsBack(i: nat, k: Kernel, k1: Kernel, k': Kernel)
    requires i < |Story()| && Shape(k) && Allowed(k, Story()[i]) && Apply(k, Story()[i]) == k1
      && Leads(k1, Story()[i + 1..], k')
    ensures Leads(k, Story()[i..], k')
  {
    hide Apply, Story;
    assert Story()[i..][1..] == Story()[i + 1..];
  }

  lemma NobodyIdles()
    ensures S0().current != IDLE && S1().current != IDLE && S3().current != IDLE && S4().current != IDLE
      && S8().current != IDLE
    ensures Shape(S8())
  {
  }

  /** The run up to the refused lock. */
  lemma Told()
    ensures Reached(SETUP, Story(), S8())
  {
    hide Apply, S0, S1, S2, S3, S4, S5, S6, S7, S8, Boot, Leads;
    NobodyIdles();
    Nothing(S8());
    assert Story()[8..] == [];
    SecondRuns();
    LeadsBack(7, S7(), S8(), S8());
    SecondWakes();
    LeadsBack(6, S6(), S7(), S8());
    IdleRuns();
    LeadsBack(5, S5(), S6(), S8());
    FirstWaits();
    LeadsBack(4, S4(), S5(), S8());
    FirstLocks();
    LeadsBack(3, S3(), S4(), S8());
    FirstRuns();
    LeadsBack(2, S2(), S3(), S8());
    SecondSleeps();
    LeadsBack(1, S1(), S2(), S8());
    SecondLocks();
    LeadsBack(0, S0(), S1(), S8());
    assert Story()[0..] == Story();
    Starts();
    LeadsReached(Story(), S8());
  }

  lemma Nothing(k: Kernel)
    requires Shape(k)
    ensures Leads(k, [], k)
  {
  }

  lemma LeadsReached(steps: seq<Step>, k: Kernel)
    requires Leads(Boot(SETUP), steps, k)
    ensures Reached(SETUP, steps, k)
  {
  }

  lemma Inherited()
    ensures Exact(S8())
  {
    var k := S8();
    forall t: Tid
      ensures ExactAt(k, t)
    {
      assert WaitersOf(k, MutexWaiters(0)) == [];
      assert WaitersOf(k, MutexWaiters(1)) == [1];
      assert t == 1 ==> Boost(k, [0], 5) == 5;
      assert t == 2 ==> Boost(k, [1], 3) == 3;
    }
  }

  lemma Deadlocked()
    ensures WouldDeadlock(S8(), 0)
  {
    var k := S8();
    assert Next(k, 1) == Some(2);
    assert Reaches(k, 1, 2, 1);
  }

  /** In a reachable state with exactly inherited priorities the refused lock breaks exactness. */
  lemma RefusedLockOverBoosts()
    ensures Reached(SETUP, Story(), S8()) && Exact(S8())
    ensures LockRejected(S8(), 0, WAIT_FOREVER) && !Exact(Lock(S8(), 0, WAIT_FOREVER).0)
  {
    hide Exact, Inv, Prompt, Reached, Lock, WouldDeadlock, LockRejected, LockQueues, S8, Story, Shape;
    Told();
    Inherited();
    Deadlocked();
    Refusable();
    ReachedGood(SETUP, Story(), S8());
    LockRejectedIff(S8(), 0, WAIT_FOREVER);
    LockRejectedExactIff(S8(), 0, WAIT_FOREVER);
  }

  lemma Refusable()
    ensures var k := S8();
      && Shape(k) && LockQueues(k, 0, WAIT_FOREVER) && MutexOf(k, 0).owner == Some(1) && |k.prio| == 3
      && k.current == 2 && k.prio[1].eff != k.prio[2].eff
  {
  }
}
