/**
 Blocking episodes over whole runs: every wait ends once, by the one event that may end it, and
 its result is what the task finds; suspension delays nothing but the return to the ready set; a
 queue accepts exactly the successful sends.
 */
module Episodes {
  import opened Config
  import opened Sequences
  import opened KernelModel
  import opened KernelInvariant
  import opened Inheritance
  import opened Blocking
  import opened Waking
  import opened Scheduling
  import opened Exchange
  import opened MutexSteps
  import opened KernelRuns
  import opened KernelTheorems
  import opened TaskEffects
  import opened Accounts

  // ---------------------------------------------------------------------------
  // Handing over
  // ---------------------------------------------------------------------------

  /** Waiting task `t` got from `step` what it waited for: the mutex, a token counted as given and
      taken, room for its item, or an item. */
  ghost predicate HandedOver(k: Kernel, k': Kernel, step: Step, t: Tid)
    requires t < |k.tasks| && t < |k'.tasks|
  {
    && k.tasks[t].wait.On?
    && match k.tasks[t].wait.list
       case MutexWaiters(m) =>
         step == DoUnlock(m) && MutexOf(k, m).owner == Some(k.current) && MutexOf(k', m).owner == Some(t)
             && MutexOf(k', m).count == 1
       case SemWaiters(s) =>
         Gives(step, s) && SemOf(k', s) == SemOf(k, s).(given := SemOf(k, s).given + 1, taken := SemOf(k, s).taken + 1)
       case SendWaiters(q) =>
         Receives(step, q) && QueueOf(k', q).accepted == QueueOf(k, q).accepted + [k.tasks[t].item]
       case RecvWaiters(q) =>
         Sends(step, q) && k'.tasks[t].item == step.item
           && QueueOf(k', q).received == QueueOf(k, q).received + [step.item]
  }

  /** A task that a step selects as receiver waits on the matching list. */
  lemma ReceiverWaits(k: Kernel, step: Step, t: Tid)
    requires Good(k) && Shape(k) && Receiver(k, step) == Some(t) && !DueNow(k, step, t)
    ensures t < |k.tasks| && k.tasks[t].wait.On?
    ensures match k.tasks[t].wait.list
      case MutexWaiters(m) => step == DoUnlock(m) && Releases(k, m)
      case SemWaiters(s) => Gives(step, s) && s in k.sems
      case SendWaiters(q) => Receives(step, q) && q in k.queues
      case RecvWaiters(q) => Sends(step, q) && q in k.queues
  {
    hide Inv, Prompt, First, TickTimeouts, Releases;
    InvCore(k);
    if step.SysTick? {
      TickTimeoutsInv(k);
      InvCore(TickTimeouts(k));
      FirstOnList(TickTimeouts(k), SemWaiters(TIMER_SIGNAL));
      TickExpires(k, t);
    } else {
      match step
      case DoUnlock(m) => FirstOnList(k, MutexWaiters(m));
      case DoGive(s) => FirstOnList(k, SemWaiters(s));
      case IsrGive(s) => FirstOnList(k, SemWaiters(s));
      case DoSend(q, _, _) => FirstOnList(k, RecvWaiters(q));
      case IsrSend(q, _) => FirstOnList(k, RecvWaiters(q));
      case DoReceive(q, _) => FirstOnList(k, SendWaiters(q));
      case IsrReceive(q) => FirstOnList(k, SendWaiters(q));
      case _ =>
    }
  }

  lemma UnlockGives(k: Kernel, m: nat, t: Tid)
    requires Shape(k) && Core(k, {}) && Releases(k, m) && First(k, MutexWaiters(m)) == Some(t)
    ensures MutexOf(Unlock(k, m).0, m).owner == Some(t) && MutexOf(Unlock(k, m).0, m).count == 1
  {
    hide Recompute, Core, ShouldPreempt', WokenFlag, Wake, Without;
    FirstWaits(k, MutexWaiters(m));
    WakeMutexes(AttachOwner(DetachOwner(k, m, k.current), m, t), t, Ok);
  }

  lemma WakeMutexes(k: Kernel, t: Tid, result: Status)
    requires Shape(k) && t < |k.tasks|
    ensures Wake(k, t, result).mutexes == k.mutexes
  {
    hide Without, WithoutId, ReadyWith;
  }

  /** A give to a waiting task counts a token given and taken and leaves the rest as it was. */
  lemma GiveGives(k: Kernel, s: nat, t: Tid)
    requires Shape(k) && Core(k, {}) && s in k.sems && First(k, SemWaiters(s)) == Some(t)
    ensures SemOf(SemGiveLocked(k, s).0, s) == SemOf(k, s).(given := SemOf(k, s).given + 1,
      taken := SemOf(k, s).taken + 1)
  {
    hide Core, Wake, WokenFlag;
    FirstWaits(k, SemWaiters(s));
    var x := SemOf(k, s);
    WakeSems(k.(sems := k.sems[s := x.(given := x.given + 1, taken := x.taken + 1)]), t, Ok);
  }

  lemma TickGives(k: Kernel, t: Tid)
    requires Good(k) && Shape(k) && Receiver(k, SysTick(true)) == Some(t)
    ensures var s := TIMER_SIGNAL;
      SemOf(Tick(k, true), s) == SemOf(k, s).(given := SemOf(k, s).given + 1, taken := SemOf(k, s).taken + 1)
  {
    hide Inv, Prompt, TickTimeouts, TickTail, SemGiveLocked, First;
    var k1 := TickTimeouts(k);
    TickTimeoutsInv(k);
    InvCore(k1);
    TickObjects(k);
    GiveGives(k1, TIMER_SIGNAL, t);
    TailSems(SemGiveLocked(k1, TIMER_SIGNAL).0, SemGiveLocked(k1, TIMER_SIGNAL).2);
  }

  /** Handing over, for every step. */
  lemma HandsOver(k: Kernel, step: Step, t: Tid)
    requires Good(k) && Shape(k) && Receiver(k, step) == Some(t) && !DueNow(k, step, t)
    ensures t < |k.tasks| && HandedOver(k, Apply(k, step), step, t)
  {
    hide Inv, Prompt, First, Unlock, SemGiveLocked, Send, SendFromIsr, Receive, ReceiveFromIsr, Tick, TickTimeouts,
         Follows, EffectOn;
    InvCore(k);
    ReceiverWaits(k, step, t);
    match k.tasks[t].wait.list
    case MutexWaiters(m) => UnlockGives(k, m, t);
    case SemWaiters(s) =>
      if step.SysTick? {
        TickGives(k, t);
      } else {
        GiveGives(k, s, t);
      }
    case SendWaiters(q) => QueueAccounted(k, step, q);
    case RecvWaiters(q) =>
      QueueAccounted(k, step, q);
      StepEffect(k, step, t);
      GetsItem(k, step, t);
  }

  lemma GetsItem(k: Kernel, step: Step, t: Tid)
    requires Shape(k) && t < |k.tasks| && Receiver(k, step) == Some(t) && (step.DoSend? || step.IsrSend?)
    requires Follows(k, Apply(k, step), step, t, EffectOn(k, step, t))
    ensures Apply(k, step).tasks[t].item == step.item
  {
    hide Apply, Receiver;
  }

  // ---------------------------------------------------------------------------
  // The states of a run
  // ---------------------------------------------------------------------------

  /** The state before the `j`-th step. */
  ghost function At(k: Kernel, steps: seq<Step>, j: nat): (r: Kernel)
    requires Shape(k) && j <= |steps|
    ensures Shape(r) && |r.tasks| == |k.tasks|
  {
    Run(k, steps[..j])
  }

  lemma {:induction false} RunSnoc(k: Kernel, steps: seq<Step>, step: Step)
    requires Shape(k)
    ensures Run(k, steps + [step]) == Apply(Run(k, steps), step)
    decreases |steps|
  {
    hide Apply;
    if steps != [] {
      RunSnoc(Apply(k, steps[0]), steps[1..], step);
      assert (steps + [step])[1..] == steps[1..] + [step];
    } else {
      assert [step][1..] == [];
    }
  }

  lemma AtNext(k: Kernel, steps: seq<Step>, j: nat)
    requires Shape(k) && j < |steps|
    ensures At(k, steps, j + 1) == Apply(At(k, steps, j), steps[j])
  {
    hide Apply, Run;
    RunSnoc(k, steps[..j], steps[j]);
    assert steps[..j + 1] == steps[..j] + [steps[j]];
  }

  lemma AtEnd(k: Kernel, steps: seq<Step>)
    requires Shape(k)
    ensures At(k, steps, |steps|) == Run(k, steps)
    ensures At(k, steps, 0) == k
  {
    hide Apply;
    assert steps[..|steps|] == steps;
  }

  lemma {:induction false} AtGood(k: Kernel, steps: seq<Step>, j: nat)
    requires Good(k) && Shape(k) && Admissible(k, steps) && j <= |steps|
    ensures Good(At(k, steps, j))
    decreases |steps|
  {
    hide Good, Apply, Allowed;
    if j == 0 {
      assert steps[..0] == [];
    } else {
      StepGood(k, steps[0]);
      AtGood(Apply(k, steps[0]), steps[1..], j - 1);
      assert steps[..j][1..] == steps[1..][..j - 1] && steps[..j][0] == steps[0];
    }
  }

  /** One step appends to the history of a task, at most an end and a beginning. */
  lemma StepHist(k: Kernel, step: Step, t: Tid)
    requires Good(k) && Shape(k) && t < |k.tasks|
    ensures t < |k.hist| && t < |Apply(k, step).hist| && k.hist[t] <= Apply(k, step).hist[t]
  {
    hide Good, Apply, EffectOn;
    StepEffect(k, step, t);
  }

  lemma {:induction false} RunHist(k: Kernel, steps: seq<Step>, t: Tid)
    requires Good(k) && Shape(k) && Admissible(k, steps) && t < |k.tasks|
    ensures t < |k.hist| && t < |Run(k, steps).hist| && k.hist[t] <= Run(k, steps).hist[t]
    decreases |steps|
  {
    hide Good, Apply, Allowed;
    if steps != [] {
      StepGood(k, steps[0]);
      StepHist(k, steps[0], t);
      RunHist(Apply(k, steps[0]), steps[1..], t);
    }
  }

  // ---------------------------------------------------------------------------
  // What ends an episode
  // ---------------------------------------------------------------------------

  /** In state `k`, `step` appends `e` to the history of `t` as entry `i`, and rightly so: at the
      deadline, by handing over, or because the lock would close a cycle. */
  ghost predicate EndsEpisode(k: Kernel, step: Step, t: Tid, i: nat, e: Episode)
    requires Shape(k) && t < |k.tasks|
  {
    match EffectOn(k, step, t)
    case Completes(r) =>
      && i == |k.hist[t]| && e == Ended(r, Apply(k, step).now)
      && (if DueNow(k, step, t) then r == Expiry(k.tasks[t].wait)
          else r == Ok && HandedOver(k, Apply(k, step), step, t))
    case Refused => i == |k.hist[t]| + 1 && e == Ended(Internal, k.now) && step.DoLock? && WouldDeadlock(k, step.m)
    case _ => false
  }

  lemma StepEnds(k: Kernel, step: Step, t: Tid, i: nat)
    requires Good(k) && Shape(k) && t < |k.tasks| && Shape(Apply(k, step))
    requires |k.hist[t]| <= i < |Apply(k, step).hist[t]| && Apply(k, step).hist[t][i].Ended?
    ensures EndsEpisode(k, step, t, i, Apply(k, step).hist[t][i])
  {
    hide Good, Apply, HandedOver, Receiver, NewWait, WouldDeadlock;
    StepEffect(k, step, t);
    if EffectOn(k, step, t).Completes? && !DueNow(k, step, t) {
      HandsOver(k, step, t);
    }
  }

  ghost predicate HasCause(k: Kernel, steps: seq<Step>, t: Tid, i: nat, e: Episode)
    requires Shape(k) && t < |k.tasks|
  {
    exists j: nat :: j < |steps| && EndsEpisode(At(k, steps, j), steps[j], t, i, e)
  }

  /** Every end in the history of a run was caused by one of its steps. */
  lemma {:induction false} EndsHaveCauses(k: Kernel, steps: seq<Step>, n: nat, t: Tid, i: nat)
    requires Good(k) && Shape(k) && Admissible(k, steps) && t < |k.tasks| && n <= |steps|
    requires |k.hist[t]| <= i < |At(k, steps, n).hist[t]| && At(k, steps, n).hist[t][i].Ended?
    ensures HasCause(k, steps, t, i, At(k, steps, n).hist[t][i])
    decreases n
  {
    hide Good, Apply, Admissible, EndsEpisode, Run, At;
    AtEnd(k, steps);
    if n > 0 {
      AtNext(k, steps, n - 1);
      AtGood(k, steps, n - 1);
      var k1 := At(k, steps, n - 1);
      StepHist(k1, steps[n - 1], t);
      if i < |k1.hist[t]| {
        EndsHaveCauses(k, steps, n - 1, t, i);
      } else {
        StepEnds(k1, steps[n - 1], t, i);
      }
    }
  }

  lemma {:induction false} HistMonotone(k: Kernel, steps: seq<Step>, i: nat, j: nat, t: Tid)
    requires Good(k) && Shape(k) && Admissible(k, steps) && t < |k.tasks| && i <= j <= |steps|
    ensures At(k, steps, i).hist[t] <= At(k, steps, j).hist[t]
    decreases j
  {
    hide Good, Apply, Admissible, Run, At;
    if i < j {
      HistMonotone(k, steps, i, j - 1, t);
      AtNext(k, steps, j - 1);
      AtGood(k, steps, j - 1);
      StepHist(At(k, steps, j - 1), steps[j - 1], t);
    }
  }

  /** No end has two causes. */
  lemma CauseIsUnique(k: Kernel, steps: seq<Step>, t: Tid, i: nat, e: Episode, e': Episode, j: nat, j': nat)
    requires Good(k) && Shape(k) && Admissible(k, steps) && t < |k.tasks| && j < |steps| && j' < |steps|
    requires EndsEpisode(At(k, steps, j), steps[j], t, i, e) && EndsEpisode(At(k, steps, j'), steps[j'], t, i, e')
    ensures j == j'
  {
    hide Good, Apply, Admissible, Run, At, EndsEpisode;
    if j < j' {
      CauseIsPast(k, steps, t, i, e, j, j', e');
    } else if j' < j {
      CauseIsPast(k, steps, t, i, e', j', j, e);
    }
  }

  lemma CauseIsPast(k: Kernel, steps: seq<Step>, t: Tid, i: nat, e: Episode, j: nat, j': nat, e': Episode)
    requires Good(k) && Shape(k) && Admissible(k, steps) && t < |k.tasks| && j < j' < |steps|
    requires EndsEpisode(At(k, steps, j), steps[j], t, i, e)
    ensures !EndsEpisode(At(k, steps, j'), steps[j'], t, i, e')
  {
    hide Good, Apply, Admissible, Run, At, EndsEpisode;
    AtNext(k, steps, j);
    AtGood(k, steps, j);
    AtGood(k, steps, j');
    HistMonotone(k, steps, j + 1, j', t);
    EndIsEntry(At(k, steps, j), steps[j], t, i, e);
    EndIsNew(At(k, steps, j'), steps[j'], t, i, e');
  }

  lemma EndIsEntry(k: Kernel, step: Step, t: Tid, i: nat, e: Episode)
    requires Good(k) && Shape(k) && t < |k.tasks| && EndsEpisode(k, step, t, i, e)
    ensures i < |Apply(k, step).hist[t]|
  {
    hide Good, Apply, HandedOver, EffectOn, WouldDeadlock;
    StepEffect(k, step, t);
  }

  lemma EndIsNew(k: Kernel, step: Step, t: Tid, i: nat, e: Episode)
    requires Shape(k) && t < |k.tasks|
    ensures EndsEpisode(k, step, t, i, e) ==> |k.hist[t]| <= i
  {
    hide Apply, HandedOver, EffectOn, WouldDeadlock;
  }

  // ---------------------------------------------------------------------------
  // Single winner
  // ---------------------------------------------------------------------------

  /** The result field holds the result of the last episode, once that has ended. */
  ghost predicate Published(k: Kernel, t: Tid)
    requires t < |k.tasks| && t < |k.hist|
  {
    var h := k.hist[t];
    h != [] && h[|h| - 1].Ended? ==> k.tasks[t].result == h[|h| - 1].result
  }

  lemma StepPublished(k: Kernel, step: Step, t: Tid)
    requires Good(k) && Shape(k) && t < |k.tasks| && Published(k, t)
    ensures t < |Apply(k, step).hist| && Published(Apply(k, step), t)
  {
    hide Good, Apply, EffectOn;
    StepEffect(k, step, t);
  }

  lemma {:induction false} RunPublished(k: Kernel, steps: seq<Step>, t: Tid)
    requires Good(k) && Shape(k) && Admissible(k, steps) && t < |k.tasks| && Published(k, t)
    ensures t < |Run(k, steps).hist| && Published(Run(k, steps), t)
    decreases |steps|
  {
    hide Good, Apply, Allowed, Published;
    if steps != [] {
      StepGood(k, steps[0]);
      StepPublished(k, steps[0], t);
      RunPublished(Apply(k, steps[0]), steps[1..], t);
    }
  }

  /** A started kernel has no history. */
  lemma BootIsQuiet(b: Setup, t: Tid)
    requires ValidSetup(b) && t < |Boot(b).tasks|
    ensures Good(Boot(b)) && Boot(b).hist[t] == [] && Boot(b).tasks[t].wait == NoWait
  {
    hide Good, FreshObjects, Highest, RegisterAll, Initialized, Inv, Exact;
    StartedGood(b.priorities, b.mutexes, b.sems, b.queues);
    InitializedQuiet(b.mutexes, b.sems, b.queues);
    RegisterAllQuiet(Initialized(b.mutexes, b.sems, b.queues), b.priorities);
  }

  /** Single winner: in every run the history of a task is a sequence of episodes that each end at
      most once before the next begins, by timeout exactly at the deadline and otherwise before
      it; every end was caused by one step, which handed over what the task waited for unless it
      ended the wait at its deadline or refused a lock; the task finds the result of its last
      episode; and no episode is left open past its deadline. */
  lemma SingleWinner(b: Setup, steps: seq<Step>, k: Kernel, t: Tid)
    requires Reached(b, steps, k) && t < |k.tasks|
    ensures t < |k.hist| && t < |Boot(b).tasks|
    ensures forall i: nat :: i < |k.hist[t]| ==> TurnOk(k.hist[t], i)
    ensures forall i: nat :: i < |k.hist[t]| && k.hist[t][i].Ended? ==> HasCause(Boot(b), steps, t, i, k.hist[t][i])
    ensures Published(k, t)
    ensures |k.hist[t]| % 2 == 1 <==> Waiting(k.tasks[t])
    ensures |k.hist[t]| % 2 == 1 ==> var o := k.hist[t][|k.hist[t]| - 1];
      o.Began? && (o.due.Some? ==> k.now < o.due.value)
  {
    hide Core, TimeoutOk, EpisodesOk, SemsOk, QueuesOk, Acyclic, Boosted, Prompt, OnlyCurrentRuns, TurnOk, Boot,
         ValidSetup, Admissible, Run, At,
         HasCause;
    ReachedGood(b, steps, k);
    CoreTask(k, t);
    EpisodeFacts(k, t);
    BootIsQuiet(b, t);
    RunPublished(Boot(b), steps, t);
    AtEnd(Boot(b), steps);
    forall i: nat | i < |k.hist[t]| && k.hist[t][i].Ended?
      ensures HasCause(Boot(b), steps, t, i, k.hist[t][i])
    {
      EndsHaveCauses(Boot(b), steps, |steps|, t, i);
    }
  }

  lemma CoreTask(k: Kernel, t: Tid)
    requires Core(k, {}) && t < |k.tasks|
    ensures TaskOk(k.tasks[t]) && Shape(k)
  {
  }

  lemma EpisodeFacts(k: Kernel, t: Tid)
    requires EpisodesOk(k, {}) && TimeoutOk(k, {}) && t < |k.tasks| && TaskOk(k.tasks[t])
    ensures t < |k.hist|
    ensures forall i: nat :: i < |k.hist[t]| ==> TurnOk(k.hist[t], i)
    ensures |k.hist[t]| % 2 == 1 <==> Waiting(k.tasks[t])
    ensures |k.hist[t]| % 2 == 1 ==> var o := k.hist[t][|k.hist[t]| - 1];
      o.Began? && (o.due.Some? ==> k.now < o.due.value)
  {
    hide SortedByDue, DistinctIds, TurnOk;
    assert EpisodeAt(k, {}, t);
    if |k.hist[t]| % 2 == 1 {
      var o := k.hist[t][|k.hist[t]| - 1];
      if o.due.Some? {
        assert Entry(t, o.due.value) in k.timeouts;
      }
    }
  }

  // ---------------------------------------------------------------------------
  // Suspension
  // ---------------------------------------------------------------------------

  /** Only a running task begins a wait. */
  lemma CallerRuns(k: Kernel, step: Step)
    requires Shape(k) && NewWait(k, step).Some?
    ensures k.tasks[k.current].state == Running
  {
  }

  lemma OutOfReady(k: Kernel, t: Tid)
    requires Good(k) && t < |k.tasks| && k.tasks[t].state == Suspended
    ensures forall p: nat :: p < |k.ready| ==> t !in k.ready[p]
  {
    hide WaitOk, OwnOk, BasesOk, TimeoutOk, EpisodesOk, SemsOk, QueuesOk, Acyclic, Boosted, Prompt;
  }

  /** A suspended task's episode goes on, or has ended once and left its result. */
  ghost predicate Frozen(k: Kernel, k': Kernel, t: Tid)
    requires t < |k.tasks| && t < |k'.tasks| && t < |k.hist| && t < |k'.hist|
  {
    var x, x', h, h' := k.tasks[t], k'.tasks[t], k.hist[t], k'.hist[t];
    || (h' == h && x'.wait == x.wait && x'.result == x.result && x'.resume == x.resume)
    || (|h'| == |h| + 1 && h' == h + [Ended(x'.result, h'[|h|].at)] && h'[|h|].Ended?
        && x.resume == Blocked && x'.wait == NoWait && x'.resume == Ready)
  }

  /** Whatever step is taken, a suspended task stays suspended and out of the ready set unless it
      is resumed; if its wait ends, the result is recorded as for any other task. */
  lemma SuspendedStep(k: Kernel, step: Step, t: Tid)
    requires Good(k) && Shape(k) && Allowed(k, step) && t < |k.tasks| && k.tasks[t].state == Suspended
      && step != DoResume(t)
    ensures var k' := Apply(k, step);
      && k'.tasks[t].state == Suspended && (forall p: nat :: p < |k'.ready| ==> t !in k'.ready[p]) && Frozen(k, k', t)
      && (EffectOn(k, step, t) == Keeps || (EffectOn(k, step, t).Completes?
          && k'.tasks[t].result == EffectOn(k, step, t).result))
  {
    hide Good, Apply, Receiver, NewWait, WouldDeadlock, TaskOk;
    StepEffect(k, step, t);
    StepGood(k, step);
    if NewWait(k, step).Some? {
      CallerRuns(k, step);
    }
    if EffectOn(k, step, t).Completes? {
      CompletesWait(k, step, t);
    }
    OutOfReady(Apply(k, step), t);
  }

  lemma CompletesWait(k: Kernel, step: Step, t: Tid)
    requires Good(k) && Shape(k) && t < |k.tasks| && EffectOn(k, step, t).Completes?
    ensures Waiting(k.tasks[t]) && k.tasks[t].wait != NoWait
  {
    hide Inv, Prompt, Receiver, NewWait, WouldDeadlock;
    if DueNow(k, step, t) {
      TickExpires(k, t);
    } else {
      ReceiverWaits(k, step, t);
    }
    InvTimeouts(k);
    TaskIsOk(k, t);
  }

  /** Over any run in which it is not resumed, a suspended task stays out of the ready set, and at
      most the one wait it was suspended in ends. */
  lemma {:induction false} SuspendedStays(k: Kernel, steps: seq<Step>, t: Tid)
    requires Good(k) && Shape(k) && Admissible(k, steps) && t < |k.tasks| && k.tasks[t].state == Suspended
    requires DoResume(t) !in steps
    ensures var k' := Run(k, steps);
      k'.tasks[t].state == Suspended && (forall p: nat :: p < |k'.ready| ==> t !in k'.ready[p]) && Frozen(k, k', t)
    decreases |steps|
  {
    hide Good, Apply, Allowed, Frozen, EffectOn;
    if steps == [] {
      OutOfReady(k, t);
      FrozenSame(k, t);
    } else {
      assert steps[0] in steps;
      SuspendedStep(k, steps[0], t);
      StepGood(k, steps[0]);
      SuspendedStays(Apply(k, steps[0]), steps[1..], t);
      FrozenTrans(k, Apply(k, steps[0]), Run(k, steps), t);
    }
  }

  lemma FrozenSame(k: Kernel, t: Tid)
    requires t < |k.tasks| && t < |k.hist|
    ensures Frozen(k, k, t)
  {
  }

  lemma FrozenTrans(k: Kernel, k1: Kernel, k2: Kernel, t: Tid)
    requires t < |k.tasks| && t < |k1.tasks| && t < |k2.tasks| && t < |k.hist| && t < |k1.hist| && t < |k2.hist|
    requires Frozen(k, k1, t) && Frozen(k1, k2, t)
    ensures Frozen(k, k2, t)
  {
  }

  /** Resumption alone brings it back, with the result it was left: to its wait, or to the ready
      set at its effective priority. */
  lemma ResumedReturns(k: Kernel, t: Tid)
    requires Good(k) && Shape(k) && Allowed(k, DoResume(t)) && t < |k.tasks| && k.tasks[t].state == Suspended
    ensures var k' := Apply(k, DoResume(t));
      && k'.tasks[t].result == k.tasks[t].result && k'.tasks[t].wait == k.tasks[t].wait && k'.hist[t] == k.hist[t]
      && (if k.tasks[t].resume == Blocked then k'.tasks[t].state == Blocked
          else k'.tasks[t].state == Ready && t in k'.ready[k'.prio[t].eff])
  {
    hide Good, Apply, EffectOn;
    StepEffect(k, DoResume(t), t);
    PlainStep(k, DoResume(t), t);
    StepGood(k, DoResume(t));
    if k.tasks[t].resume != Blocked {
      InReady(Apply(k, DoResume(t)), t);
    }
  }

  lemma InReady(k: Kernel, t: Tid)
    requires Good(k) && Shape(k) && t < |k.tasks| && Runnable(k.tasks[t])
    ensures t in k.ready[k.prio[t].eff]
  {
    hide WaitOk, OwnOk, BasesOk, TimeoutOk, EpisodesOk, SemsOk, QueuesOk, Acyclic, Boosted, Prompt;
  }

  /** Two kernels that differ at most in who is suspended, ready or running. */
  ghost predicate Alike(a: Kernel, b: Kernel) {
    && Shape(a) && Shape(b) && |a.tasks| == |b.tasks|
    && a.prio == b.prio && a.owned == b.owned && a.waiters == b.waiters && a.mutexes == b.mutexes
    && forall u: Tid :: u < |a.tasks| ==>
         a.tasks[u].wait == b.tasks[u].wait && Waiting(a.tasks[u]) == Waiting(b.tasks[u])
  }

  lemma SetEffAlike(a: Kernel, b: Kernel, t: Tid, p: nat)
    requires Alike(a, b) && t < |a.tasks| && p < PRIORITY_COUNT
    ensures Alike(SetEff(a, t, p), SetEff(b, t, p))
  {
    hide Without, InsertByPrio;
  }

  lemma {:induction false} RecomputeAlike(a: Kernel, b: Kernel, t: Tid, depth: nat)
    requires Alike(a, b) && t < |a.tasks|
    ensures Alike(Recompute(a, t, depth).0, Recompute(b, t, depth).0)
    decreases MAX_TASKS + 1 - depth
  {
    hide SetEff, Boost;
    if depth <= MAX_TASKS {
      BoostFrame(b, a, a.owned[t], a.prio[t].base);
      var p := Required(a, t);
      if p < IDLE_PRIORITY {
        SetEffAlike(a, b, t, p);
        var a1, b1 := SetEff(a, t, p), SetEff(b, t, p);
        assert Next(a1, t) == Next(b1, t);
        if Next(a1, t).Some? && Next(a1, t).value != t && Next(a1, t).value < |a1.tasks| {
          RecomputeAlike(a1, b1, Next(a1, t).value, depth + 1);
        }
      }
    }
  }

  lemma DetachAlike(a: Kernel, b: Kernel, t: Tid)
    requires Alike(a, b) && t < |a.tasks|
    ensures Alike(Detach(a, t), Detach(b, t))
  {
    hide Without, WithoutId;
  }

  lemma FinishAlike(a: Kernel, b: Kernel, t: Tid, result: Status)
    requires Alike(a, b) && t < |a.tasks|
    ensures Alike(Finish(a, t, result), Finish(b, t, result))
  {
    hide ReadyWith;
  }

  lemma ExpireAlike(a: Kernel, b: Kernel, t: Tid)
    requires Alike(a, b)
    ensures Alike(ExpireOne(a, t), ExpireOne(b, t))
  {
    hide Alike, Detach, Finish, Recompute;
    AlikeFields(a, b);
    if t < |a.tasks| && a.tasks[t].wait != NoWait {
      DetachAlike(a, b, t);
      var a1, b1 := Detach(a, t), Detach(b, t);
      AlikeFields(a1, b1);
      var w := a.tasks[t].wait;
      if w == Delay {
        FinishAlike(a1, b1, t, Ok);
      } else if w.list.MutexWaiters? && MutexOf(a1, w.list.m).owner.Some?
          && MutexOf(a1, w.list.m).owner.value < |a.tasks| {
        var o := MutexOf(a1, w.list.m).owner.value;
        RecomputeAlike(a1, b1, o, 0);
        FinishAlike(Recompute(a1, o, 0).0, Recompute(b1, o, 0).0, t, Timeout);
      } else {
        FinishAlike(a1, b1, t, Timeout);
      }
    }
  }

  lemma AlikeFields(a: Kernel, b: Kernel)
    requires Alike(a, b)
    ensures Shape(a) && Shape(b) && |a.tasks| == |b.tasks| && a.mutexes == b.mutexes && a.waiters == b.waiters
    ensures forall u: Tid :: u < |a.tasks| ==> a.tasks[u].wait == b.tasks[u].wait
  {
  }

  lemma {:induction false} ExpireAllAlike(a: Kernel, b: Kernel, ids: seq<nat>)
    requires Alike(a, b) && Shape(a) && Shape(b)
    ensures Alike(ExpireAll(a, ids), ExpireAll(b, ids))
    decreases |ids|
  {
    hide Alike, ExpireOne;
    if ids != [] {
      ExpireAlike(a, b, ids[0]);
      ExpireAllAlike(ExpireOne(a, ids[0]), ExpireOne(b, ids[0]), ids[1..]);
    }
  }

  lemma TickAlike(a: Kernel, b: Kernel)
    requires Alike(a, b) && Shape(a) && Shape(b) && a.timeouts == b.timeouts && a.now == b.now
    ensures Alike(TickTimeouts(a), TickTimeouts(b))
  {
    hide ExpireAll, DueIds, NotDue;
    ExpireAllAlike(Advanced(a), Advanced(b), DueIds(a.timeouts, a.now + 1));
  }

  /** Suspending a waiting task changes nothing about when and with which result its wait ends. */
  lemma SuspensionKeepsOutcome(k: Kernel, step: Step, t: Tid)
    requires Good(k) && Shape(k) && t < |k.tasks| && k.tasks[t].state == Blocked
    ensures EffectOn(SuspendedTask(k, t), step, t) == EffectOn(k, step, t)
  {
    hide Good, TickTimeouts, NewWait, WouldDeadlock, First, ReadyWithout;
    var k' := SuspendedTask(k, t);
    assert forall l :: WaitersOf(k', l) == WaitersOf(k, l);
    assert forall l :: First(k', l) == First(k, l) by { SameFirst(k, k'); }
    if NewWait(k, step).Some? {
      CallerRuns(k, step);
    }
    if NewWait(k', step).Some? {
      CallerRuns(k', step);
    }
    if step.SysTick? {
      TickAlike(k, k');
      SameFirst(TickTimeouts(k), TickTimeouts(k'));
    }
  }

  lemma SameFirst(a: Kernel, b: Kernel)
    requires a.waiters == b.waiters
    ensures forall l :: First(a, l) == First(b, l)
  {
  }
}
