/**
 The kernel's own validator, and the proof that it accepts every state between a context
 switch and the next block: the agreement it inspects is a consequence of the invariant.
 */
module Validator {
  import opened Config
  import opened Sequences
  import opened KernelModel
  import opened KernelInvariant
  import opened Blocking
  import opened TimeoutModel
  import opened KernelObject
  import R = ReadySet
  import T = TimeoutList

  /** What the validator demands of one task, given where its three nodes are linked. */
  predicate TaskAccepted(x: Task, isCurrent: bool, inReady: bool, inWait: bool, inTimeout: bool) {
    match x.state
    case Ready => inReady && !inWait && !inTimeout && x.wait.NoWait?
    case Running => inReady && !inWait && !inTimeout && x.wait.NoWait? && isCurrent
    case Blocked => !inReady && WaitAccepted(x.wait, inWait, inTimeout)
    case Suspended =>
      && !inReady
      && (if x.resume == Ready then !inWait && !inTimeout && x.wait.NoWait?
          else x.resume == Blocked && WaitAccepted(x.wait, inWait, inTimeout))
    case _ => false
  }

  predicate WaitAccepted(w: Wait, inWait: bool, inTimeout: bool) {
    match w
    case NoWait => false
    case Delay => !inWait && inTimeout
    case On(_) => inWait
  }

  predicate TaskOf(o: KernelObject, t: Tid)
    requires t < |o.tasks|
    reads o, o.ready, o.timeouts
  {
    TaskAccepted(o.tasks[t], t == o.current, t in o.ready.home, WaitLinked(o.waiters, t), o.timeouts.Linked(t))
  }

  /** Number of tasks below `n` in a runnable state, and in the running state. */
  function Runnables(s: seq<Task>, n: nat): nat
    requires n <= |s|
  {
    if n == 0 then 0 else Runnables(s, n - 1) + if s[n - 1].state == Ready || s[n - 1].state == Running then 1 else 0
  }

  function Runnings(s: seq<Task>, n: nat): nat
    requires n <= |s|
  {
    if n == 0 then 0 else Runnings(s, n - 1) + if s[n - 1].state == Running then 1 else 0
  }

  /** The whole inspection of a running kernel. */
  ghost predicate Accepts(o: KernelObject)
    reads o, o.ready, o.timeouts
  {
    && R.Described(o.ready.queues, o.ready.bitmap, o.ready.count)
    && T.SortedByWake(o.timeouts.current) && T.SortedByWake(o.timeouts.overflow)
    && o.timeouts.count == |o.timeouts.current| + |o.timeouts.overflow|
    && (forall t: nat :: t < |o.tasks| ==> TaskOf(o, t))
    && Runnables(o.tasks, |o.tasks|) == o.ready.count && Runnings(o.tasks, |o.tasks|) == 1
  }

  method Validate(o: KernelObject) returns (ok: bool)
    requires |o.ready.queues| == PRIORITY_COUNT
    ensures ok <==> Accepts(o)
  {
    var a := o.ready.Validate();
    var b := o.timeouts.Validate();
    if !a || !b {
      return false;
    }
    var t, runnable, running := 0, 0, 0;
    while t < |o.tasks|
      invariant 0 <= t <= |o.tasks|
      invariant forall u: nat :: u < t ==> TaskOf(o, u)
      invariant runnable == Runnables(o.tasks, t) && running == Runnings(o.tasks, t)
    {
      if !TaskOf(o, t) {
        return false;
      }
      if o.tasks[t].state == Ready || o.tasks[t].state == Running {
        runnable := runnable + 1;
      }
      if o.tasks[t].state == Running {
        running := running + 1;
      }
      t := t + 1;
    }
    ok := runnable == o.ready.count && running == 1;
  }

  // ---------------------------------------------------------------------------
  // Counting linked tasks
  // ---------------------------------------------------------------------------

  ghost predicate InSome(queues: seq<seq<Tid>>, t: Tid) {
    exists p: nat :: p < |queues| && t in queues[p]
  }

  /** Every task is in at most one queue, once, and below `n`. */
  ghost predicate OnceEach(queues: seq<seq<Tid>>, n: nat) {
    && (forall p: nat :: p < |queues| ==> Distinct(queues[p]))
    && (forall p: nat, t: Tid :: p < |queues| && t in queues[p] ==> t < n)
    && (forall p: nat, q: nat, t: Tid :: p < |queues| && q < |queues| && t in queues[p] && t in queues[q] ==> p == q)
  }

  ghost function LinkedBelow(queues: seq<seq<Tid>>, n: nat): nat {
    if n == 0 then 0 else LinkedBelow(queues, n - 1) + if InSome(queues, n - 1) then 1 else 0
  }

  lemma {:induction false} LinkedFrame(a: seq<seq<Tid>>, b: seq<seq<Tid>>, n: nat)
    requires forall t: Tid :: t < n ==> (InSome(a, t) <==> InSome(b, t))
    ensures LinkedBelow(a, n) == LinkedBelow(b, n)
  {
    if n > 0 {
      LinkedFrame(a, b, n - 1);
    }
  }

  lemma {:induction false} TotalIsLinked(queues: seq<seq<Tid>>, n: nat)
    requires OnceEach(queues, n)
    ensures R.Total(queues) == LinkedBelow(queues, n)
    decreases n
  {
    if n == 0 {
      forall p: nat | p < |queues|
        ensures queues[p] == []
      {
        FirstIsMember(queues[p]);
      }
      R.TotalZero(queues);
    } else if InSome(queues, n - 1) {
      var p: nat :| p < |queues| && n - 1 in queues[p];
      WithoutLast(queues, n, p);
    } else {
      assert forall p: nat, t: Tid :: p < |queues| && t in queues[p] ==> t != n - 1;
      TotalIsLinked(queues, n - 1);
    }
  }

  lemma {:induction false} WithoutLast(queues: seq<seq<Tid>>, n: nat, p: nat)
    requires OnceEach(queues, n) && n > 0 && p < |queues| && n - 1 in queues[p]
    ensures R.Total(queues) == LinkedBelow(queues, n)
    decreases n, 0
  {
    var last: Tid := n - 1;
    var q := Without<nat>(queues[p], last);
    var rest := queues[p := q];
    WithoutDistinct<nat>(queues[p], last);
    R.TotalUpdate(queues, p, q);
    assert forall i: nat, t: Tid :: i < |rest| && t in rest[i] ==> t in queues[i] && t != last;
    TotalIsLinked(rest, n - 1);
    forall t: Tid | t < n - 1
      ensures InSome(rest, t) <==> InSome(queues, t)
    {
      if InSome(queues, t) {
        var i: nat :| i < |queues| && t in queues[i];
        assert t in rest[i];
      }
    }
    LinkedFrame(rest, queues, n - 1);
  }

  // ---------------------------------------------------------------------------
  // Acceptance
  // ---------------------------------------------------------------------------

  lemma {:induction false} LiftAt(s: seq<Node>, base: nat)
    ensures |Lift(s, base)| == |s|
    ensures forall i: nat :: i < |s| ==> Lift(s, base)[i] == Entry(s[i].id, base + s[i].wake)
  {
    if s != [] {
      LiftAt(s[1..], base);
      LiftCons(s[0], s[1..], base);
      assert s == [s[0]] + s[1..];
    }
  }

  /** Lists sorted by absolute deadline are sorted by wake tick. */
  lemma DualSorted(d: Dual, now: nat)
    requires DualOk(d, now)
    ensures T.SortedByWake(d.current) && T.SortedByWake(d.overflow)
  {
    var a, b := Lift(d.current, TurnStart(now)), Lift(d.overflow, TurnStart(now) + TICK_RANGE);
    LiftAt(d.current, TurnStart(now));
    LiftAt(d.overflow, TurnStart(now) + TICK_RANGE);
    hide Lift, TurnStart;
    var s := Absolute(d, now);
    forall i, j | 0 <= i < j < |d.current|
      ensures d.current[i].wake <= d.current[j].wake
    {
      assert s[i] == a[i] && s[j] == a[j];
    }
    forall i, j | 0 <= i < j < |d.overflow|
      ensures d.overflow[i].wake <= d.overflow[j].wake
    {
      assert s[|a| + i] == b[i] && s[|a| + j] == b[j];
    }
  }

  /** Which deadline list entries a task can have. */
  lemma DeadlineOfTask(k: Kernel, t: Tid)
    requires Inv(k, {}) && Shape(k) && t < |k.tasks|
    ensures k.tasks[t].wait.NoWait? ==> forall e :: e in k.timeouts ==> e.id != t
    ensures k.tasks[t].wait.Delay? ==> exists e :: e in k.timeouts && e.id == t
  {
    hide Core, SemsOk, QueuesOk, Acyclic, Boosted, SortedByDue, DistinctIds, Alternates, OnlyCurrentRuns;
    assert EpisodeAt(k, {}, t);
    if k.tasks[t].wait.Delay? {
      var b := k.hist[t][|k.hist[t]| - 1];
      assert Entry(t, b.due.value) in k.timeouts;
    }
  }

  lemma TaskIsAccepted(o: KernelObject, t: Tid)
    requires o.Fits() && Inv(o.Model(), {}) && t < |o.tasks|
    ensures TaskOf(o, t)
  {
    hide Inv, DualOk, Absolute, ReadyOk, WaitOk, WaitLinked, T.HasNode, R.ReadySet.Valid;
    var k := o.Model();
    TaskFacts(k, t);
    ReadyLinks(k, o.ready, t);
    WaitLinks(k, {}, t);
    DeadlineLinks(o.timeouts.Model(), o.now, t);
    DeadlineOfTask(k, t);
  }

  lemma TaskFacts(k: Kernel, t: Tid)
    requires Inv(k, {}) && t < |k.tasks|
    ensures TaskOk(k.tasks[t]) && ReadyOk(k) && WaitOk(k, {}) && (k.tasks[t].state == Running ==> t == k.current)
  {
    hide ReadyOk, WaitOk, OwnOk, EpisodesOk, TimeoutOk, SemsOk, QueuesOk, Acyclic, Boosted;
  }

  lemma {:induction false} RunnablesLinked(k: Kernel, n: nat)
    requires ReadyOk(k) && n <= |k.tasks|
    ensures Runnables(k.tasks, n) == LinkedBelow(k.ready, n)
  {
    if n > 0 {
      RunnablesLinked(k, n - 1);
      var t: Tid := n - 1;
      if k.tasks[t].state == Ready || k.tasks[t].state == Running {
        assert t in k.ready[k.prio[t].eff];
      }
      assert InSome(k.ready, t) <==> k.tasks[t].state == Ready || k.tasks[t].state == Running;
    }
  }

  lemma {:induction false} OneRunning(s: seq<Task>, c: Tid, n: nat)
    requires n <= |s| && c < |s| && s[c].state == Running && forall t: Tid :: t < |s| && s[t].state == Running ==>
      t == c
    ensures Runnings(s, n) == if c < n then 1 else 0
  {
    if n > 0 {
      OneRunning(s, c, n - 1);
    }
  }

  lemma CountsAgree(k: Kernel)
    requires Inv(k, {}) && k.current < |k.tasks| && k.tasks[k.current].state == Running
    ensures Runnables(k.tasks, |k.tasks|) == R.Total(k.ready) && Runnings(k.tasks, |k.tasks|) == 1
  {
    hide WaitOk, OwnOk, EpisodesOk, TimeoutOk, SemsOk, QueuesOk, Acyclic, Boosted, TasksOk, Runnables, Runnings,
         LinkedBelow;
    assert OnceEach(k.ready, |k.tasks|);
    TotalIsLinked(k.ready, |k.tasks|);
    RunnablesLinked(k, |k.tasks|);
    OneRunning(k.tasks, k.current, |k.tasks|);
  }

  /** The validator accepts every state that satisfies the invariant and has a running task. */
  lemma InvariantAccepted(o: KernelObject)
    requires o.Fits() && Inv(o.Model(), {}) && o.tasks[o.current].state == Running
    ensures Accepts(o)
  {
    hide Inv, DualOk, Absolute, TaskOf, Runnables, Runnings;
    DualSorted(o.timeouts.Model(), o.now);
    CountsAgree(o.Model());
    forall t: nat | t < |o.tasks|
      ensures TaskOf(o, t)
    {
      TaskIsAccepted(o, t);
    }
  }

  /** Without a running task, between a block and the context switch it asks for, the count of
      running tasks is the one thing the validator rejects. */
  lemma RejectedIff(o: KernelObject)
    requires o.Fits() && Good(o.Model())
    ensures Accepts(o) <==> o.tasks[o.current].state == Running
  {
    hide Inv, DualOk, Absolute, Runnables, TaskOf;
    if o.tasks[o.current].state == Running {
      InvariantAccepted(o);
    } else {
      OnlyCurrent(o.Model());
      NoneRunning(o.tasks, |o.tasks|);
    }
  }

  lemma OnlyCurrent(k: Kernel)
    requires Good(k)
    ensures OnlyCurrentRuns(k)
  {
  }

  lemma {:induction false} NoneRunning(s: seq<Task>, n: nat)
    requires n <= |s| && forall t: Tid :: t < |s| ==> s[t].state != Running
    ensures Runnings(s, n) == 0
  {
    if n > 0 {
      NoneRunning(s, n - 1);
    }
  }
}
