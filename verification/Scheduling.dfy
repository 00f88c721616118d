/** Selection, suspension and the context switch keep the invariant. */
module Scheduling {
  import opened Config
  import opened Sequences
  import opened KernelModel
  import opened KernelInvariant
  import opened Inheritance
  import opened Blocking
  import opened Waking

  // ---------------------------------------------------------------------------
  // Selection
  // ---------------------------------------------------------------------------

  lemma {:induction false} BestFromIsFirst(ready: seq<seq<Tid>>, p: nat, q: nat)
    requires p <= q < |ready| && ready[q] != []
    ensures BestFrom(ready, p).Some?
    ensures exists r: nat :: p <= r <= q && ready[r] != [] && BestFrom(ready, p) == Some(ready[r][0])
                             && forall i :: p <= i < r ==> ready[i] == []
    decreases q - p
  {
    if ready[p] == [] {
      BestFromIsFirst(ready, p + 1, q);
    }
  }

  /** The selected task is the oldest of the most urgent runnable tasks; there always is one. */
  lemma HighestIsBest(k: Kernel)
    requires ReadyOk(k) && BasesOk(k)
    ensures Highest(k).Some?
    ensures var t := Highest(k).value;
      && t < |k.tasks| && Runnable(k.tasks[t])
      && k.ready[k.prio[t].eff] != [] && k.ready[k.prio[t].eff][0] == t
      && forall u: Tid :: u < |k.tasks| && Runnable(k.tasks[u]) ==> k.prio[t].eff <= k.prio[u].eff
  {
    assert IDLE in k.ready[IDLE_PRIORITY];
    BestFromIsFirst(k.ready, 0, IDLE_PRIORITY);
    var r: nat :| r <= IDLE_PRIORITY && k.ready[r] != [] && BestFrom(k.ready, 0) == Some(k.ready[r][0])
                  && forall i :: 0 <= i < r ==> k.ready[i] == [];
    assert k.ready[r][0] in k.ready[r];
    forall u: Tid | u < |k.tasks| && Runnable(k.tasks[u])
      ensures r <= k.prio[u].eff
    {
      assert u in k.ready[k.prio[u].eff];
    }
  }

  /** The preemption test is exact. */
  lemma ShouldPreemptExact(k: Kernel)
    requires ReadyOk(k) && BasesOk(k) && k.tasks[k.current].state == Running
    requires OnlyCurrentRuns(k)
    ensures ShouldPreempt(k) <==> !NoneBetter(k)
  {
    HighestIsBest(k);
  }

  // ---------------------------------------------------------------------------
  // Changing a task's state without touching its wait
  // ---------------------------------------------------------------------------

  /** `k'` differs from `k` in the scheduling state of `t`, the ready set, the current task
      and the switch flags, but in nobody's wait. */
  ghost predicate Rescheduled(k: Kernel, k': Kernel, t: Tid) {
    && Shape(k) && Shape(k') && t < |k.tasks|
    && |k'.tasks| == |k.tasks| && k'.tasks == k.tasks[t := k'.tasks[t]]
    && k'.tasks[t].wait == k.tasks[t].wait && TaskOk(k'.tasks[t])
    && (t == IDLE ==> Runnable(k'.tasks[t]))
    && k' == k.(tasks := k'.tasks, ready := k'.ready, current := k'.current, reasons := k'.reasons,
                pendsv := k'.pendsv, isrWoken := k'.isrWoken)
  }

  lemma RescheduledCore(k: Kernel, k': Kernel, t: Tid)
    requires Rescheduled(k, k', t) && Core(k, {}) && ReadyOk(k')
    ensures Core(k', {})
  {
    hide ReadyOk, WaitOk, OwnOk;
    WaitFrame(k, k', {});
    OwnFrame(k, k');
  }

  lemma RescheduledTimeouts(k: Kernel, k': Kernel, t: Tid, y: set<Tid>)
    requires Rescheduled(k, k', t) && TimeoutOk(k, y)
    ensures TimeoutOk(k', y)
  {
  }

  lemma RescheduledEpisodes(k: Kernel, k': Kernel, t: Tid, y: set<Tid>)
    requires Rescheduled(k, k', t) && EpisodesOk(k, y)
    ensures EpisodesOk(k', y)
  {
    hide Alternates;
    forall u: Tid | u < |k.tasks|
      ensures EpisodeAt(k', y, u)
    {
      assert EpisodeAt(k, y, u);
    }
  }

  lemma RescheduledInv(k: Kernel, k': Kernel, t: Tid, y: set<Tid>)
    requires Inv(k, y) && Rescheduled(k, k', t) && ReadyOk(k') && OnlyCurrentRuns(k')
    ensures Inv(k', y)
    ensures Exact(k) ==> Exact(k')
  {
    hide ReadyOk, WaitOk, OwnOk, BasesOk, Boosted, Exact, Acyclic, EpisodesOk, TimeoutOk, SemsOk, QueuesOk,
         OnlyCurrentRuns;
    RescheduledCore(k, k', t);
    RescheduledTimeouts(k, k', t, y);
    RescheduledEpisodes(k, k', t, y);
    assert TaskOk(k.tasks[t]);
    AcyclicSub(k, k');
    InheritanceFrame(k, k');
    ObjectsFrame(k, k');
  }

  /** A step that only moves the switch flags. */
  lemma FlagsInv(k: Kernel, k': Kernel, y: set<Tid>)
    requires Inv(k, y) && Shape(k)
    requires k' == k.(reasons := k'.reasons, pendsv := k'.pendsv, isrWoken := k'.isrWoken)
    ensures Inv(k', y)
    ensures Exact(k) ==> Exact(k')
  {
    hide WaitOk, OwnOk, BasesOk, Boosted, Exact, Acyclic, EpisodesOk, TimeoutOk, SemsOk, QueuesOk;
    assert k'.tasks == k.tasks[k.current := k'.tasks[k.current]];
    assert TaskOk(k.tasks[k.current]);
    FlagsReady(k, k');
    BasesRunnable(k);
    RescheduledInv(k, k', k.current, y);
  }

  lemma FlagsReady(k: Kernel, k': Kernel)
    requires ReadyOk(k)
    requires k' == k.(reasons := k'.reasons, pendsv := k'.pendsv, isrWoken := k'.isrWoken)
    ensures ReadyOk(k')
  {
  }

  lemma BasesRunnable(k: Kernel)
    requires BasesOk(k)
    ensures IDLE < |k.tasks| && Runnable(k.tasks[IDLE])
  {
  }

  // ---------------------------------------------------------------------------
  // Suspend and resume
  // ---------------------------------------------------------------------------

  lemma SuspendedChanges(k: Kernel, t: Tid)
    requires Shape(k) && 0 < t < |k.tasks| && k.tasks[t].state != Suspended && TaskOk(k.tasks[t])
    ensures var k' := SuspendedTask(k, t);
      && Rescheduled(k, k', t) && TaskChanged(k, k', t)
      && (if Runnable(k.tasks[t]) then k'.ready == ReadyWithout(k, t) else k'.ready == k.ready)
  {
    hide ReadyWithout;
  }

  lemma SuspendedInv(k: Kernel, t: Tid)
    requires Inv(k, {}) && Shape(k) && 0 < t < |k.tasks| && k.tasks[t].state != Suspended
    ensures Inv(SuspendedTask(k, t), {})
    ensures Exact(k) ==> Exact(SuspendedTask(k, t))
  {
    hide WaitOk, OwnOk, BasesOk, Boosted, Exact, Acyclic, EpisodesOk, TimeoutOk, SemsOk, QueuesOk, ReadyOk,
         SuspendedTask, ReadyWithout, OnlyCurrentRuns, Rescheduled, TaskChanged;
    assert TaskOk(k.tasks[t]);
    SuspendedChanges(k, t);
    ChangeRuns(k, SuspendedTask(k, t), t);
    if Runnable(k.tasks[t]) {
      ReadyLeaves(k, SuspendedTask(k, t), t);
    } else {
      ReadyStays(k, SuspendedTask(k, t), t);
    }
    RescheduledInv(k, SuspendedTask(k, t), t, {});
  }

  lemma SuspendInv(k: Kernel, t: Tid)
    requires Inv(k, {}) && Shape(k)
    ensures Inv(SuspendCall(k, t).0, {})
    ensures Exact(k) ==> Exact(SuspendCall(k, t).0)
  {
    hide Inv, Exact, SuspendedTask;
    if t < |k.tasks| && t != IDLE && k.tasks[t].state != Suspended {
      SuspendedInv(k, t);
      FlagsInv(SuspendedTask(k, t), SuspendedTask(k, t).(reasons := SuspendedTask(k, t).reasons + {ByBlock},
          pendsv := true), {});
    }
  }

  lemma SuspendPrompt(k: Kernel, t: Tid)
    requires Prompt(k) && Shape(k)
    ensures Prompt(SuspendCall(k, t).0)
  {
    hide SuspendedTask;
  }

  lemma SuspendGood(k: Kernel, t: Tid)
    requires Good(k) && Shape(k)
    ensures Good(SuspendCall(k, t).0)
    ensures Exact(k) ==> Exact(SuspendCall(k, t).0)
  {
    hide Inv, Prompt, SuspendCall, Exact;
    SuspendInv(k, t);
    SuspendPrompt(k, t);
  }

  lemma ResumedChanges(k: Kernel, t: Tid)
    requires Shape(k) && 0 < t < |k.tasks| && k.tasks[t].state == Suspended && TaskOk(k.tasks[t])
    ensures var k' := Resumed(k, t);
      && Rescheduled(k, k', t) && TaskChanged(k, k', t) && k'.current == k.current && k'.tasks[t].state != Running
      && !Runnable(k.tasks[t])
      && (if k.tasks[t].resume == Ready then Runnable(k'.tasks[t]) && k'.ready == ReadyWith(k, t)
          else !Runnable(k'.tasks[t]) && k'.ready == k.ready)
  {
    hide ReadyWith;
  }

  lemma ChangeRuns(k: Kernel, k': Kernel, t: Tid)
    requires OnlyCurrentRuns(k) && TaskChanged(k, k', t) && k'.current == k.current
    requires k'.tasks[t].state == Running ==> t == k.current
    ensures OnlyCurrentRuns(k')
  {
  }

  lemma ResumeInv(k: Kernel, t: Tid)
    requires Inv(k, {}) && Shape(k)
    ensures Inv(ResumeCall(k, t).0, {})
    ensures Exact(k) ==> Exact(ResumeCall(k, t).0)
  {
    hide WaitOk, OwnOk, BasesOk, Boosted, Exact, Acyclic, EpisodesOk, TimeoutOk, SemsOk, QueuesOk, ReadyOk, Resumed,
         WokenFlag, OnlyCurrentRuns, Rescheduled, TaskChanged;
    if t < |k.tasks| && t != IDLE && k.tasks[t].state == Suspended {
      assert TaskOk(k.tasks[t]);
      ResumedChanges(k, t);
      ChangeRuns(k, Resumed(k, t), t);
      ResumeInvStep(k, Resumed(k, t), t);
      FlagsInv(Resumed(k, t), ResumeCall(k, t).0, {});
    }
  }

  lemma ResumeInvStep(k: Kernel, k': Kernel, t: Tid)
    requires Inv(k, {}) && Shape(k) && Rescheduled(k, k', t) && TaskChanged(k, k', t) && OnlyCurrentRuns(k')
      && !Runnable(k.tasks[t])
    requires if k.tasks[t].resume == Ready then Runnable(k'.tasks[t]) && k'.ready == ReadyWith(k, t)
             else !Runnable(k'.tasks[t]) && k'.ready == k.ready
    ensures Inv(k', {})
    ensures Exact(k) ==> Exact(k')
  {
    hide WaitOk, OwnOk, BasesOk, Boosted, Exact, Acyclic, EpisodesOk, TimeoutOk, SemsOk, QueuesOk, ReadyOk, ReadyWith,
         OnlyCurrentRuns, Rescheduled;
    if k.tasks[t].resume == Ready {
      ReadyEnters(k, k', t);
    } else {
      ReadyStays(k, k', t);
    }
    RescheduledInv(k, k', t, {});
  }

  lemma ResumePrompt(k: Kernel, t: Tid)
    requires Prompt(k) && Shape(k)
    ensures Prompt(ResumeCall(k, t).0)
  {
    hide Resumed;
    if t < |k.tasks| && k.tasks[t].state == Suspended {
      ResumedState(k, t);
    }
  }

  lemma ResumedState(k: Kernel, t: Tid)
    requires Shape(k) && t < |k.tasks|
    ensures Resumed(k, t).tasks[t].state == Ready || Resumed(k, t).tasks[t].state == Blocked
  {
  }

  lemma ResumeGood(k: Kernel, t: Tid)
    requires Good(k) && Shape(k)
    ensures Good(ResumeCall(k, t).0)
    ensures Exact(k) ==> Exact(ResumeCall(k, t).0)
  {
    hide Inv, Prompt, ResumeCall, Exact;
    ResumeInv(k, t);
    ResumePrompt(k, t);
  }

  lemma YieldGood(k: Kernel)
    requires Good(k) && Shape(k)
    ensures Good(YieldCall(k))
    ensures Exact(k) ==> Exact(YieldCall(k))
  {
    hide Inv, Exact;
    FlagsInv(k, YieldCall(k), {});
  }

  // ---------------------------------------------------------------------------
  // The end of the tick
  // ---------------------------------------------------------------------------

  lemma TickTailChanges(k: Kernel, woken: bool)
    requires Shape(k) && TaskOk(k.tasks[k.current]) && (k.current == IDLE ==> Runnable(k.tasks[k.current]))
    ensures var k' := TickTail(k, woken);
      && Rescheduled(k, k', k.current) && TaskChanged(k, k', k.current) && k'.current == k.current
          && k'.ready == k.ready
      && k'.tasks[k.current].state == k.tasks[k.current].state
  {
    hide ShouldPreempt;
    assert k.tasks == k.tasks[k.current := k.tasks[k.current]];
  }

  lemma TickTailInv(k: Kernel, woken: bool)
    requires Inv(k, {}) && Shape(k)
    ensures Inv(TickTail(k, woken), {})
    ensures Exact(k) ==> Exact(TickTail(k, woken))
  {
    hide WaitOk, OwnOk, BasesOk, Boosted, Exact, Acyclic, EpisodesOk, TimeoutOk, SemsOk, QueuesOk, ReadyOk,
         OnlyCurrentRuns, Rescheduled, TaskChanged, TickTail;
    var c := k.current;
    assert TaskOk(k.tasks[c]);
    BasesRunnable(k);
    TickTailChanges(k, woken);
    ReadyStays(k, TickTail(k, woken), c);
    ChangeRuns(k, TickTail(k, woken), c);
    RescheduledInv(k, TickTail(k, woken), c, {});
  }

  /** Whatever happened during the tick, its last check asks for every switch that is due. */
  lemma TickTailPrompt(k: Kernel, woken: bool)
    requires ReadyOk(k) && BasesOk(k) && OnlyCurrentRuns(k)
    requires k.tasks[k.current].state == Running || k.pendsv
    ensures Prompt(TickTail(k, woken))
  {
    if k.tasks[k.current].state == Running {
      ShouldPreemptExact(k);
    }
    hide ReadyOk, BasesOk, ShouldPreempt;
  }

  lemma TickTailGood(k: Kernel, woken: bool)
    requires Inv(k, {}) && Shape(k)
    requires k.tasks[k.current].state == Running || k.pendsv
    ensures Good(TickTail(k, woken))
    ensures Exact(k) ==> Exact(TickTail(k, woken))
  {
    hide WaitOk, OwnOk, Boosted, Exact, Acyclic, EpisodesOk, TimeoutOk, SemsOk, QueuesOk, TasksOk, ReadyOk, BasesOk,
         OnlyCurrentRuns, TickTail, Prompt;
    TickTailInv(k, woken);
    TickTailPrompt(k, woken);
  }

  // ---------------------------------------------------------------------------
  // The context switch
  // ---------------------------------------------------------------------------

  lemma RotateReady(k: Kernel)
    requires ReadyOk(k) && BasesOk(k)
    ensures ReadyOk(k.(ready := RotatedReady(k)))
  {
    HighestIsBest(k);
    var t := Highest(k).value;
    var q := k.ready[k.prio[t].eff];
    DistinctSnoc(q[1..], q[0]);
    assert forall u: Tid :: u in q[1..] + [q[0]] <==> u in q;
  }

  lemma BeforeChoiceInv(k: Kernel)
    requires Inv(k, {}) && Shape(k)
    ensures Inv(BeforeChoice(k), {})
    ensures Exact(k) ==> Exact(BeforeChoice(k))
  {
    hide WaitOk, OwnOk, Boosted, Exact, Acyclic, EpisodesOk, TimeoutOk, SemsOk, QueuesOk, RotatedReady, Highest,
         BasesOk, ReadyOk;
    var k' := BeforeChoice(k);
    var c := k.current;
    assert TaskOk(k.tasks[c]);
    BasesRunnable(k);
    RotateReady(k);
    BeforeChoiceReady(k);
    RescheduledInv(k, k', c, {});
  }

  lemma BeforeChoiceReady(k: Kernel)
    requires Shape(k) && ReadyOk(k) && ReadyOk(k.(ready := RotatedReady(k)))
    ensures ReadyOk(BeforeChoice(k))
  {
    hide RotatedReady, Highest;
  }

  lemma SwitchGood(k: Kernel)
    requires Good(k) && Shape(k)
    ensures Good(PendSV(k))
    ensures Exact(k) ==> Exact(PendSV(k))
    ensures PendSV(k).tasks[PendSV(k).current].state == Running
    ensures NoneBetter(PendSV(k))
  {
    hide Inv, Exact, BeforeChoice, NoneBetter, Choose;
    BeforeChoiceInv(k);
    ChoiceInv(BeforeChoice(k));
  }

  lemma ChooseRescheduled(k: Kernel, n: Tid)
    requires Shape(k) && TasksOk(k) && Highest(k) == Some(n) && n < |k.tasks| && Runnable(k.tasks[n])
    ensures Rescheduled(Stopped(k), Choose(k), n) && TaskChanged(Stopped(k), Choose(k), n)
    ensures Runnable(Stopped(k).tasks[n]) && Choose(k).current == n && Choose(k).tasks[n].state == Running
    ensures Choose(k).ready == Stopped(k).ready && Choose(k).prio == k.prio
  {
    hide Highest;
    assert TaskOk(k.tasks[n]) && TaskOk(k.tasks[k.current]);
  }

  lemma ChooseRuns(k: Kernel, n: Tid)
    requires Shape(k) && Highest(k) == Some(n) && n < |k.tasks| && OnlyCurrentRuns(k)
    requires forall u: Tid :: u < |k.tasks| && Runnable(k.tasks[u]) ==> k.prio[n].eff <= k.prio[u].eff
    ensures OnlyCurrentRuns(Choose(k)) && NoneBetter(Choose(k))
  {
    hide Highest;
  }

  lemma ChoiceInv(k: Kernel)
    requires Inv(k, {}) && Shape(k)
    ensures Inv(Choose(k), {})
    ensures Exact(k) ==> Exact(Choose(k))
    ensures Choose(k).tasks[Choose(k).current].state == Running
    ensures NoneBetter(Choose(k))
  {
    hide WaitOk, OwnOk, Boosted, Exact, Acyclic, EpisodesOk, TimeoutOk, SemsOk, QueuesOk, BasesOk, ReadyOk, Highest,
         Choose, Stopped, Rescheduled, OnlyCurrentRuns, NoneBetter, TaskChanged;
    HighestIsBest(k);
    var n := Highest(k).value;
    StopCurrent(k);
    ChooseRescheduled(k, n);
    ChooseRuns(k, n);
    ReadyStays(Stopped(k), Choose(k), n);
    RescheduledInv(Stopped(k), Choose(k), n, {});
  }

  /** The current task no longer runs. */
  ghost function Stopped(k: Kernel): (r: Kernel)
    requires Shape(k)
    ensures Shape(r) && |r.tasks| == |k.tasks|
  {
    if k.tasks[k.current].state == Running
    then k.(tasks := k.tasks[k.current := k.tasks[k.current].(state := Ready)]) else k
  }

  lemma StopCurrent(k: Kernel)
    requires Inv(k, {}) && Shape(k)
    ensures Inv(Stopped(k), {})
    ensures Exact(k) ==> Exact(Stopped(k))
    ensures forall t: Tid :: t < |k.tasks| ==> Stopped(k).tasks[t].state != Running
  {
    hide WaitOk, OwnOk, Boosted, Exact, Acyclic, EpisodesOk, TimeoutOk, SemsOk, QueuesOk, BasesOk, ReadyOk;
    var c := k.current;
    if k.tasks[c].state == Running {
      assert TaskOk(k.tasks[c]);
      ReadyStays(k, Stopped(k), c);
      RescheduledInv(k, Stopped(k), c, {});
    }
  }

  lemma PromptFrame(k: Kernel, k': Kernel)
    requires Prompt(k) && k'.tasks == k.tasks && k'.prio == k.prio && k'.current == k.current
    requires k'.pendsv == k.pendsv && k'.isrWoken == k.isrWoken
    ensures Prompt(k')
  {
  }
}
