/**
 What a queue accepts over a whole run: the items of sends that returned success and of waiting
 sends that ended with success, each once, and nothing else. A send that times out is never
 delivered.
 */
module Deliveries {
  import opened Config
  import opened KernelModel
  import opened KernelInvariant
  import opened Blocking
  import opened Waking
  import opened Exchange
  import opened MutexSteps
  import opened KernelRuns
  import opened KernelTheorems
  import opened TaskEffects
  import opened Accounts
  import opened Episodes

  /** Where an accepted item comes from: a call that returned at once, or the episode of task `t`
      that began as entry `i` of its history. */
  datatype Source = ByCall(item: Item) | ByWait(t: Tid, i: nat, item: Item)

  ghost function StepSources(k: Kernel, step: Step, q: nat): seq<Source>
    requires Shape(k)
  {
    if Sends(step, q) then if SendReply(k, step) == Done(Ok) then [ByCall(step.item)] else []
    else if Receives(step, q) && Receiver(k, step).Some? && Receiver(k, step).value < |k.tasks| then
      var w := Receiver(k, step).value;
      [ByWait(w, if k.hist[w] == [] then 0 else |k.hist[w]| - 1, k.tasks[w].item)]
    else []
  }

  ghost function Sources(k: Kernel, steps: seq<Step>, q: nat): seq<Source>
    requires Shape(k)
    decreases |steps|
  {
    if steps == [] then [] else StepSources(k, steps[0], q) + Sources(Apply(k, steps[0]), steps[1..], q)
  }

  function ItemsOf(ss: seq<Source>): seq<Item> {
    if ss == [] then [] else [ss[0].item] + ItemsOf(ss[1..])
  }

  lemma {:induction false} ItemsOfSum(a: seq<Source>, b: seq<Source>)
    ensures ItemsOf(a + b) == ItemsOf(a) + ItemsOf(b)
  {
    hide ItemsOf;
    ItemsOfFirst(a);
    if a == [] {
      assert a + b == b;
    } else {
      ItemsOfSum(a[1..], b);
      ItemsOfFirst(a + b);
      assert (a + b)[1..] == a[1..] + b && (a + b)[0] == a[0];
    }
  }

  lemma ItemsOfFirst(ss: seq<Source>)
    ensures ItemsOf(ss) == if ss == [] then [] else [ss[0].item] + ItemsOf(ss[1..])
  {
  }

  /** How often the episode that began as entry `i` of `t` appears. */
  function Times(ss: seq<Source>, t: Tid, i: nat): nat {
    if ss == [] then 0 else (if ss[0].ByWait? && ss[0].t == t && ss[0].i == i then 1 else 0) + Times(ss[1..], t, i)
  }

  lemma {:induction false} TimesSum(a: seq<Source>, b: seq<Source>, t: Tid, i: nat)
    ensures Times(a + b, t, i) == Times(a, t, i) + Times(b, t, i)
  {
    if a == [] {
      assert a + b == b;
    } else {
      TimesSum(a[1..], b, t, i);
      assert (a + b)[1..] == a[1..] + b;
    }
  }

  lemma StepItems(k: Kernel, step: Step, q: nat)
    requires Shape(k)
    ensures ItemsOf(StepSources(k, step, q)) == Accepts(k, step, q)
  {
    hide Receiver;
  }

  /** Over every run, what a queue has accepted is the items of its sources, in order. */
  lemma {:induction false} AcceptedIsSources(k: Kernel, steps: seq<Step>, q: nat)
    requires Good(k) && Shape(k) && Admissible(k, steps)
    ensures QueueOf(Run(k, steps), q).accepted == QueueOf(k, q).accepted + ItemsOf(Sources(k, steps, q))
    decreases |steps|
  {
    hide Good, Apply, Allowed, StepSources, QueueOf, Accepts;
    if steps != [] {
      StepGood(k, steps[0]);
      QueueAccounted(k, steps[0], q);
      StepItems(k, steps[0], q);
      AcceptedIsSources(Apply(k, steps[0]), steps[1..], q);
      ItemsOfSum(StepSources(k, steps[0], q), Sources(Apply(k, steps[0]), steps[1..], q));
    }
  }

  /** The history of a task says that it waited to send to `q` from entry `i` on and succeeded,
      not before entry `n`. */
  ghost predicate SentByWaiting(h: seq<Episode>, n: nat, q: nat, i: nat) {
    && n <= i + 1 < |h| && h[i].Began? && h[i].wait == On(SendWaiters(q)) && h[i + 1].Ended? && h[i + 1].result == Ok
  }

  lemma StepTimes(k: Kernel, step: Step, q: nat, t: Tid, i: nat)
    requires Good(k) && Shape(k) && t < |k.tasks|
    ensures t < |Apply(k, step).hist|
    ensures Times(StepSources(k, step, q), t, i) == if SentByWaiting(Apply(k, step).hist[t], |k.hist[t]|, q, i) then 1
      else 0
  {
    hide Good, Apply, Receiver, NewWait, WouldDeadlock, OpenOk, TurnOk, TaskOk;
    StepEffect(k, step, t);
    GoodEpisode(k, t);
    if Receiver(k, step) == Some(t) && !DueNow(k, step, t) {
      ReceiverWaits(k, step, t);
    }
    if EffectOn(k, step, t).Completes? {
      CompletesWait(k, step, t);
    }
  }

  /** A waiting task has an open episode, which says what it waits for. */
  lemma GoodEpisode(k: Kernel, t: Tid)
    requires Good(k) && Shape(k) && t < |k.tasks|
    ensures |k.hist[t]| % 2 == 1 <==> k.tasks[t].wait != NoWait
    ensures k.tasks[t].wait != NoWait ==>
      k.hist[t][|k.hist[t]| - 1].Began? && k.hist[t][|k.hist[t]| - 1].wait == k.tasks[t].wait
  {
    hide Core, TimeoutOk, SemsOk, QueuesOk, Acyclic, Boosted, Prompt, OnlyCurrentRuns, Alternates;
    assert EpisodeAt(k, {}, t);
  }

  /** Over every run, an episode is a source of what `q` accepted exactly once if it was a wait to
      send to `q` that ended with success, and never otherwise. */
  lemma {:induction false} EpisodeIsSource(k: Kernel, steps: seq<Step>, q: nat, t: Tid, i: nat)
    requires Good(k) && Shape(k) && Admissible(k, steps) && t < |k.tasks|
    ensures t < |k.hist| && t < |Run(k, steps).hist|
    ensures Times(Sources(k, steps, q), t, i) == if SentByWaiting(Run(k, steps).hist[t], |k.hist[t]|, q, i) then 1
      else 0
    decreases |steps|
  {
    hide Good, Apply, Allowed, StepSources, Times;
    if steps == [] {
      NoTimes(t, i);
    } else {
      var k1 := Apply(k, steps[0]);
      StepGood(k, steps[0]);
      StepHist(k, steps[0], t);
      StepTimes(k, steps[0], q, t, i);
      EpisodeIsSource(k1, steps[1..], q, t, i);
      TimesSum(StepSources(k, steps[0], q), Sources(k1, steps[1..], q), t, i);
      RunHist(k1, steps[1..], t);
    }
  }

  lemma NoTimes(t: Tid, i: nat)
    ensures Times([], t, i) == 0
  {
  }

  // ---------------------------------------------------------------------------
  // The item of a waiting sender
  // ---------------------------------------------------------------------------

  /** Step `j` was a call of `t` that sent `item` to `q` and began entry `i` of its history. */
  ghost predicate BeganAt(k: Kernel, steps: seq<Step>, j: nat, q: nat, t: Tid, i: nat, item: Item)
    requires Shape(k) && t < |k.tasks| && j < |steps|
  {
    var kj := At(k, steps, j);
    steps[j].DoSend? && steps[j].q == q && steps[j].item == item && kj.current == t && |kj.hist[t]| == i
  }

  ghost predicate SentBy(k: Kernel, steps: seq<Step>, q: nat, t: Tid, i: nat, item: Item)
    requires Shape(k) && t < |k.tasks|
  {
    exists j: nat :: j < |steps| && BeganAt(k, steps, j, q, t, i, item)
  }

  /** A waiting sender still holds the item of the call that began its wait. */
  lemma {:induction false} HeldItem(k: Kernel, steps: seq<Step>, n: nat, q: nat, t: Tid)
    requires Good(k) && Shape(k) && Admissible(k, steps) && t < |k.tasks| && n <= |steps|
    requires k.tasks[t].wait != On(SendWaiters(q)) && At(k, steps, n).tasks[t].wait == On(SendWaiters(q))
    ensures var kn := At(k, steps, n); |kn.hist[t]| > 0 && SentBy(k, steps, q, t, |kn.hist[t]| - 1, kn.tasks[t].item)
    decreases n
  {
    hide Good, Apply, Admissible, Run, At, Receiver, WouldDeadlock, NewWait, TaskOk;
    AtEnd(k, steps);
    if n > 0 {
      var k1, step := At(k, steps, n - 1), steps[n - 1];
      AtNext(k, steps, n - 1);
      AtGood(k, steps, n - 1);
      StepEffect(k1, step, t);
      if k1.tasks[t].wait == On(SendWaiters(q)) && EffectOn(k1, step, t) == Keeps {
        HeldItem(k, steps, n - 1, q, t);
      } else {
        SenderCalls(k1, step, q);
        assert BeganAt(k, steps, n - 1, q, t, |k1.hist[t]|, step.item);
      }
    }
  }

  lemma SenderCalls(k: Kernel, step: Step, q: nat)
    requires Shape(k)
    ensures NewWait(k, step).Some? && NewWait(k, step).value.0 == On(SendWaiters(q)) ==> step.DoSend? && step.q == q
  {
  }

  // ---------------------------------------------------------------------------
  // Whole runs
  // ---------------------------------------------------------------------------

  /** A source of a run belongs to one of its steps. */
  lemma {:induction false} SourceHasStep(k: Kernel, steps: seq<Step>, q: nat, s: Source) returns (n: nat)
    requires Good(k) && Shape(k) && Admissible(k, steps) && s in Sources(k, steps, q)
    ensures n < |steps| && s in StepSources(At(k, steps, n), steps[n], q)
    decreases |steps|
  {
    hide Good, Apply, Allowed, StepSources;
    if s in StepSources(k, steps[0], q) {
      n := 0;
      AtEnd(k, steps);
    } else {
      StepGood(k, steps[0]);
      n := SourceHasStep(Apply(k, steps[0]), steps[1..], q, s);
      assert steps[..n + 1][1..] == steps[1..][..n] && steps[..n + 1][0] == steps[0];
      n := n + 1;
    }
  }

  /** The item of a waiting source is the item of the call that began the wait. */
  lemma SourceItem(k: Kernel, steps: seq<Step>, q: nat, t: Tid, i: nat, item: Item)
    requires Good(k) && Shape(k) && Admissible(k, steps) && ByWait(t, i, item) in Sources(k, steps, q)
    requires forall u: Tid :: u < |k.tasks| ==> k.tasks[u].wait == NoWait
    ensures t < |k.tasks| && SentBy(k, steps, q, t, i, item)
  {
    hide Good, Admissible, Sources, At, Receiver, SentBy, Apply;
    var n := SourceHasStep(k, steps, q, ByWait(t, i, item));
    var kn := At(k, steps, n);
    AtGood(k, steps, n);
    ReceiverWaits(kn, steps[n], t);
    HeldItem(k, steps, n, q, t);
  }

  lemma BootAcceptedNothing(b: Setup, q: nat)
    requires ValidSetup(b)
    ensures QueueOf(Boot(b), q).accepted == []
  {
    hide Highest, RegisterAll, Initialized;
    RegisterKeepsQueues(Initialized(b.mutexes, b.sems, b.queues), b.priorities);
    InitializedQueues(b);
  }

  lemma InitializedQueues(b: Setup)
    ensures Initialized(b.mutexes, b.sems, b.queues).queues == b.queues
  {
  }

  lemma {:induction false} RegisterKeepsQueues(k: Kernel, priorities: seq<nat>)
    requires Shape(k)
    ensures RegisterAll(k, priorities).queues == k.queues
    decreases |priorities|
  {
    if priorities != [] {
      RegisterKeepsQueues(Register(k, priorities[0]).0, priorities[1..]);
    }
  }

  /** In every run a queue has accepted, in order, the items of its sources; a wait of a task is a
      source exactly once if it was a wait to send to this queue that ended with success, with the
      item of the call that began it, and otherwise never. So a send that timed out is not delivered. */
  lemma SendsAccounted(b: Setup, steps: seq<Step>, k: Kernel, q: nat)
    requires Reached(b, steps, k)
    ensures QueueOf(k, q).accepted == ItemsOf(Sources(Boot(b), steps, q))
    ensures forall t: Tid, i: nat :: t < |k.tasks| && t < |k.hist| ==>
      Times(Sources(Boot(b), steps, q), t, i) == if SentByWaiting(k.hist[t], 0, q, i) then 1 else 0
    ensures forall t: Tid, i: nat, item: Item :: ByWait(t, i, item) in Sources(Boot(b), steps, q) ==>
      t < |Boot(b).tasks| && SentBy(Boot(b), steps, q, t, i, item)
  {
    hide Good, Boot, ValidSetup, Admissible, Run, Sources, ItemsOf, Times, SentBy, At, QueueOf;
    var k0 := Boot(b);
    BootGood(b);
    BootAcceptedNothing(b, q);
    AcceptedIsSources(k0, steps, q);
    forall t: Tid, i: nat | t < |k.tasks| && t < |k.hist|
      ensures Times(Sources(k0, steps, q), t, i) == if SentByWaiting(k.hist[t], 0, q, i) then 1 else 0
    {
      BootIsQuiet(b, t);
      EpisodeIsSource(k0, steps, q, t, i);
    }
    forall t: Tid, i: nat, item: Item | ByWait(t, i, item) in Sources(k0, steps, q)
      ensures t < |k0.tasks| && SentBy(k0, steps, q, t, i, item)
    {
      SourceItem(k0, steps, q, t, i, item);
    }
  }

  lemma BootGood(b: Setup)
    requires ValidSetup(b)
    ensures Good(Boot(b)) && forall u: Tid :: u < |Boot(b).tasks| ==> Boot(b).tasks[u].wait == NoWait
  {
    hide Good, Boot, ValidSetup;
    BootStarted(b);
    forall u: Tid | u < |Boot(b).tasks|
      ensures Boot(b).tasks[u].wait == NoWait
    {
      BootIsQuiet(b, u);
    }
  }

  lemma BootStarted(b: Setup)
    requires ValidSetup(b)
    ensures Good(Boot(b))
  {
    hide Good, FreshObjects;
    StartedGood(b.priorities, b.mutexes, b.sems, b.queues);
  }

  /** A send that timed out contributed nothing. */
  lemma TimedOutNeverAccepted(b: Setup, steps: seq<Step>, k: Kernel, q: nat, t: Tid, i: nat, item: Item)
    requires Reached(b, steps, k) && t < |k.tasks| && t < |k.hist| && i + 1 < |k.hist[t]|
    requires k.hist[t][i + 1].Ended? && k.hist[t][i + 1].result == Timeout
    ensures ByWait(t, i, item) !in Sources(Boot(b), steps, q)
  {
    hide Reached, Boot, Sources, Times, ItemsOf, SentBy;
    SendsAccounted(b, steps, k, q);
    TimesIsIn(Sources(Boot(b), steps, q), t, i, item);
  }

  lemma {:induction false} TimesIsIn(ss: seq<Source>, t: Tid, i: nat, item: Item)
    ensures ByWait(t, i, item) in ss ==> Times(ss, t, i) > 0
  {
    if ss != [] {
      TimesIsIn(ss[1..], t, i, item);
    }
  }

  // ---------------------------------------------------------------------------
  // Sizes
  // ---------------------------------------------------------------------------

  /** Every waiting sender holds an item of its queue's size. */
  ghost predicate ItemsFit(k: Kernel, sizes: map<nat, nat>) {
    forall t: Tid, q: nat :: t < |k.tasks| && k.tasks[t].wait == On(SendWaiters(q)) && q in sizes ==>
        |k.tasks[t].item| == sizes[q]
  }

  /** A send carries an item of its queue's size. */
  predicate StepFits(step: Step, sizes: map<nat, nat>) {
    (step.DoSend? || step.IsrSend?) && step.q in sizes ==> |step.item| == sizes[step.q]
  }

  lemma StepItemsFit(k: Kernel, step: Step, sizes: map<nat, nat>)
    requires Good(k) && Shape(k) && ItemsFit(k, sizes) && StepFits(step, sizes)
    ensures ItemsFit(Apply(k, step), sizes)
  {
    hide Good, Apply, Receiver, WouldDeadlock, NewWait;
    forall t: Tid, q: nat | t < |k.tasks| && Apply(k, step).tasks[t].wait == On(SendWaiters(q)) && q in sizes
      ensures |Apply(k, step).tasks[t].item| == sizes[q]
    {
      StepEffect(k, step, t);
      SenderCalls(k, step, q);
    }
  }
}
