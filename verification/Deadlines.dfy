/**
 Timed calls over whole runs: a call with a timeout of `d` ticks that waits from tick T is served
 before T + d or times out at exactly T + d, and a delay of `d` ticks ends at exactly T + d.
 */
module Deadlines {
  import opened Config
  import opened KernelModel
  import opened KernelInvariant
  import opened Blocking
  import opened Waking
  import opened MutexSteps
  import opened KernelRuns
  import opened KernelTheorems
  import opened TaskEffects
  import opened Episodes
  import TR = TimerRuns

  /** The timeout given to a call that can wait for an object. */
  function TimeoutOf(step: Step): Option<nat> {
    match step
    case DoLock(_, timeout) => Some(timeout)
    case DoTake(_, timeout) => Some(timeout)
    case DoSend(_, _, timeout) => Some(timeout)
    case DoReceive(_, timeout) => Some(timeout)
    case _ => None
  }

  /** The list it waits in. */
  function ListOf(step: Step): ListId
    requires TimeoutOf(step).Some?
  {
    match step
    case DoLock(m, _) => MutexWaiters(m)
    case DoTake(s, _) => SemWaiters(s)
    case DoSend(q, _, _) => SendWaiters(q)
    case DoReceive(q, _) => RecvWaiters(q)
  }

  /** The `j`-th step of the run made its caller `t` wait. */
  ghost predicate BeganWaiting(k: Kernel, steps: seq<Step>, j: nat, t: Tid)
    requires Shape(k) && j < |steps| && t < |k.tasks|
  {
    && ByTask(steps[j]) && At(k, steps, j).current == t
    && At(k, steps, j).tasks[t].wait == NoWait && At(k, steps, j + 1).tasks[t].wait != NoWait
  }

  lemma WaitBegins(k: Kernel, steps: seq<Step>, j: nat, t: Tid)
    requires Good(k) && Shape(k) && Admissible(k, steps) && j < |steps| && t < |k.tasks|
    requires BeganWaiting(k, steps, j, t)
    ensures var kj, k' := At(k, steps, j), At(k, steps, j + 1);
      && NewWait(kj, steps[j]).Some? && |kj.hist[t]| % 2 == 0
      && k'.hist[t] == kj.hist[t] + [Began(NewWait(kj, steps[j]).value.0, kj.now, NewWait(kj, steps[j]).value.1)]
  {
    hide Good, Apply, Admissible, At, Receiver, NewWait, WouldDeadlock;
    AtNext(k, steps, j);
    AtGood(k, steps, j);
    StepEffect(At(k, steps, j), steps[j], t);
    OpenWait(At(k, steps, j), t);
  }

  lemma OpenWait(k: Kernel, t: Tid)
    requires Good(k) && Shape(k) && t < |k.tasks|
    ensures |k.hist[t]| % 2 == 1 <==> k.tasks[t].wait != NoWait
    ensures forall i: nat :: i < |k.hist[t]| ==> TurnOk(k.hist[t], i)
    ensures |k.hist[t]| % 2 == 1 ==> var o := k.hist[t][|k.hist[t]| - 1];
      o.Began? && (o.due.Some? ==> k.now < o.due.value)
  {
    hide Core, SemsOk, QueuesOk, Acyclic, Boosted, Prompt, OnlyCurrentRuns, TimeoutOk, EpisodesOk, TurnOk;
    CoreTask(k, t);
    EpisodeFacts(k, t);
  }

  /** Time never goes back, and only a tick moves it, by one. */
  lemma TimePasses(k: Kernel, step: Step)
    requires Shape(k)
    ensures Apply(k, step).now == k.now + if step.SysTick? then 1 else 0
  {
    hide Tick;
    if step.SysTick? {
      TickTime(k, step.fired);
    } else {
      TR.StepKeepsTime(k, step);
    }
  }

  lemma TickTime(k: Kernel, fired: bool)
    requires Shape(k)
    ensures Tick(k, fired).now == k.now + 1
  {
    hide SemGiveLocked, ExpireAll, ShouldPreempt, DueIds, NotDue;
  }

  /** Everything recorded lies in the past. */
  ghost predicate PastOnly(k: Kernel, t: Tid) {
    t < |k.hist| && forall i: nat :: i < |k.hist[t]| ==> k.hist[t][i].at <= k.now
  }

  lemma StepPast(k: Kernel, step: Step, t: Tid)
    requires Good(k) && Shape(k) && t < |k.tasks| && PastOnly(k, t)
    ensures PastOnly(Apply(k, step), t)
  {
    hide Good, Apply, EffectOn;
    StepEffect(k, step, t);
    TimePasses(k, step);
  }

  lemma {:induction false} AtPast(k: Kernel, steps: seq<Step>, n: nat, t: Tid)
    requires Good(k) && Shape(k) && Admissible(k, steps) && n <= |steps| && t < |k.tasks| && PastOnly(k, t)
    ensures PastOnly(At(k, steps, n), t)
    decreases n
  {
    hide Good, Apply, Admissible, Run, At, PastOnly;
    AtEnd(k, steps);
    if n > 0 {
      AtPast(k, steps, n - 1, t);
      AtNext(k, steps, n - 1);
      AtGood(k, steps, n - 1);
      StepPast(At(k, steps, n - 1), steps[n - 1], t);
    }
  }

  /** Entry `i` opened the wait, and it is still open or closed by the next entry. */
  lemma WaitGoesOn(k: Kernel, steps: seq<Step>, j: nat, n: nat, t: Tid)
    requires Good(k) && Shape(k) && Admissible(k, steps) && j < n <= |steps| && t < |k.tasks|
    requires BeganWaiting(k, steps, j, t)
    ensures var h := At(k, steps, n).hist[t];
      var i := |At(k, steps, j).hist[t]|;
      && NewWait(At(k, steps, j), steps[j]).Some? && i < |h|
      && h[i] == Began(NewWait(At(k, steps, j), steps[j]).value.0, At(k, steps, j).now,
                       NewWait(At(k, steps, j), steps[j]).value.1)
      && (|h| == i + 1 && h[i].due.Some? ==> At(k, steps, n).now < h[i].due.value)
      && (|h| > i + 1 ==> Closes(h[i], h[i + 1]))
  {
    hide Good, Admissible, At, NewWait, Closes, BeganWaiting;
    WaitBegins(k, steps, j, t);
    HistMonotone(k, steps, j + 1, n, t);
    AtGood(k, steps, n);
    OpenWait(At(k, steps, n), t);
    var h := At(k, steps, n).hist[t];
    var i := |At(k, steps, j).hist[t]|;
    if |h| > i + 1 {
      assert TurnOk(h, i + 1);
    }
  }

  lemma NewWaitOf(k: Kernel, step: Step)
    requires Shape(k) && TimeoutOf(step).Some? && NewWait(k, step).Some?
    ensures var d := TimeoutOf(step).value;
      NewWait(k, step).value == (On(ListOf(step)), if d == WAIT_FOREVER then None else Some(k.now + d))
  {
  }

  /** A call with a timeout that waits from tick T is, at every later point of the run, still waiting
      before T plus its timeout, or was served before that tick, or timed out at exactly it. */
  lemma TimedWait(k: Kernel, steps: seq<Step>, j: nat, n: nat, t: Tid)
    requires Good(k) && Shape(k) && Admissible(k, steps) && j < n <= |steps| && t < |k.tasks|
    requires BeganWaiting(k, steps, j, t) && TimeoutOf(steps[j]).Some?
    ensures var d := TimeoutOf(steps[j]).value;
      var from := At(k, steps, j).now;
      var h := At(k, steps, n).hist[t];
      var i := |At(k, steps, j).hist[t]|;
      && i < |h| && h[i] == Began(On(ListOf(steps[j])), from, if d == WAIT_FOREVER then None else Some(from + d))
      && (d != WAIT_FOREVER && |h| == i + 1 ==> At(k, steps, n).now < from + d)
      && (|h| > i + 1 ==>
            && h[i + 1].Ended? && HasCause(k, steps, t, i + 1, h[i + 1])
            && (h[i + 1].result == Timeout <==> d != WAIT_FOREVER && h[i + 1].at == from + d)
            && (h[i + 1].result != Timeout ==>
                  (h[i + 1].result == Ok || steps[j].DoLock?) && (d != WAIT_FOREVER ==> h[i + 1].at < from + d)))
  {
    hide Good, Admissible, At, HasCause, BeganWaiting, NewWait, ListOf, TimeoutOf;
    WaitGoesOn(k, steps, j, n, t);
    NewWaitOf(At(k, steps, j), steps[j]);
    OnlyMutexes(steps[j]);
    var h := At(k, steps, n).hist[t];
    var i := |At(k, steps, j).hist[t]|;
    if |h| > i + 1 {
      HistMonotone(k, steps, 0, j, t);
      AtEnd(k, steps);
      EndsHaveCauses(k, steps, n, t, i + 1);
    }
  }

  lemma OnlyMutexes(step: Step)
    requires TimeoutOf(step).Some?
    ensures ListOf(step).MutexWaiters? <==> step.DoLock?
  {
  }

  /** A delay of `d` ticks from tick T ends with success at exactly T + d. */
  lemma DelayedExactly(k: Kernel, steps: seq<Step>, j: nat, n: nat, t: Tid)
    requires Good(k) && Shape(k) && Admissible(k, steps) && j < n <= |steps| && t < |k.tasks|
    requires BeganWaiting(k, steps, j, t) && steps[j].DoDelay? && PastOnly(k, t)
    ensures var until := At(k, steps, j).now + steps[j].ticks;
      var h := At(k, steps, n).hist[t];
      var i := |At(k, steps, j).hist[t]|;
      && i < |h| && h[i] == Began(Delay, At(k, steps, j).now, Some(until))
      && if At(k, steps, n).now < until then |h| == i + 1 else |h| > i + 1 && h[i + 1] == Ended(Ok, until)
  {
    hide Good, Admissible, At, BeganWaiting;
    WaitGoesOn(k, steps, j, n, t);
    AtPast(k, steps, n, t);
  }
}
