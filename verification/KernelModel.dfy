/**
 The kernel as a machine over values: the state that the scheduler, the blocking
 primitives, the synchronisation objects and the tick share, and one function per
 atomic step (a critical section of a task call, an ISR call, SysTick or PendSV).

 Time is the unbounded number of ticks since start; the 32-bit counter of the
 implementation and its two sorted lists are related to it in `TimeoutModel`.
 */
module KernelModel {
  import opened Config
  import opened Sequences

  /** Tasks are numbered in registration order, so the idle task is number 0. */
  type Tid = nat
  const IDLE: Tid := 0

  /** The binary semaphore on which the timer service task waits. */
  const TIMER_SIGNAL: nat := 0

  type Item = seq<int>

  datatype TaskState = Invalid | Created | Ready | Running | Blocked | Suspended

  /** One priority-ordered wait list per synchronisation object and direction. */
  datatype ListId =
    | MutexWaiters(m: nat)
    | SemWaiters(s: nat)
    | SendWaiters(q: nat)
    | RecvWaiters(q: nat)

  /** Wait kind, waiting object and blocked wait list, which always change together. */
  datatype Wait = NoWait | Delay | On(list: ListId)

  /** The scheduling and waiting part of a task control block. */
  datatype Task = Task(state: TaskState, resume: TaskState, wait: Wait, item: Item, result: Status, slice: nat)

  /** The priority part of a task control block. */
  datatype Prio = Prio(base: nat, eff: nat)

  /** A running timeout: its owner and its absolute deadline. */
  datatype Entry = Entry(id: nat, due: nat)

  datatype Mutex = Mutex(owner: Option<Tid>, count: nat, recursive: bool)

  /** `initial`, `given` and `taken` record the history of the tokens. */
  datatype Semaphore = Semaphore(count: nat, max: nat, initial: nat, given: nat, taken: nat)

  /** `items` is the buffered content; `accepted` and `received` record the history. */
  datatype Queue = Queue(capacity: nat, items: seq<Item>, accepted: seq<Item>, received: seq<Item>)

  datatype Reason = ByYield | ByBlock | ByPreempt | BySlice

  /** History of a task's blocking episodes. */
  datatype Episode =
    | Began(wait: Wait, at: nat, due: Option<nat>)
    | Ended(result: Status, at: nat)

  datatype Kernel = Kernel(
    tasks: seq<Task>,
    prio: seq<Prio>,
    owned: seq<seq<nat>>,
    hist: seq<seq<Episode>>,
    ready: seq<seq<Tid>>,
    waiters: map<ListId, seq<Tid>>,
    timeouts: seq<Entry>,
    mutexes: map<nat, Mutex>,
    sems: map<nat, Semaphore>,
    queues: map<nat, Queue>,
    current: Tid,
    now: nat,
    reasons: set<Reason>,
    pendsv: bool,
    isrWoken: bool)

  // ---------------------------------------------------------------------------
  // Reading the state
  // ---------------------------------------------------------------------------

  /** Every per-task table has one row per task and every priority is a valid level. */
  ghost predicate Shape(k: Kernel) {
    && |k.prio| == |k.tasks| && |k.owned| == |k.tasks| && |k.hist| == |k.tasks|
    && |k.ready| == PRIORITY_COUNT
    && k.current < |k.tasks|
    && forall t :: 0 <= t < |k.prio| ==> k.prio[t].eff < PRIORITY_COUNT
  }

  function WaitersOf(k: Kernel, l: ListId): seq<Tid> {
    if l in k.waiters then k.waiters[l] else []
  }

  function MutexOf(k: Kernel, m: nat): Mutex {
    if m in k.mutexes then k.mutexes[m] else Mutex(None, 0, false)
  }

  function SemOf(k: Kernel, s: nat): Semaphore {
    if s in k.sems then k.sems[s] else Semaphore(0, 0, 0, 0, 0)
  }

  function QueueOf(k: Kernel, q: nat): Queue {
    if q in k.queues then k.queues[q] else Queue(0, [], [], [])
  }

  function Eff(prio: seq<Prio>, t: Tid): nat {
    if t < |prio| then prio[t].eff else 0
  }

  /** A task whose wait is not complete, whether or not it is also suspended. */
  predicate Waiting(x: Task) {
    x.state == Blocked || (x.state == Suspended && x.resume == Blocked)
  }

  /** The first task of the first non-empty level at or after `p`. */
  function BestFrom(ready: seq<seq<Tid>>, p: nat): Option<Tid>
    decreases |ready| - p
  {
    if p >= |ready| then None
    else if ready[p] != [] then Some(ready[p][0])
    else BestFrom(ready, p + 1)
  }

  function Highest(k: Kernel): Option<Tid> {
    BestFrom(k.ready, 0)
  }

  predicate ShouldPreempt(k: Kernel) {
    match Highest(k)
    case None => false
    case Some(t) => Eff(k.prio, t) < Eff(k.prio, k.current)
  }

  // ---------------------------------------------------------------------------
  // The three lists a task can be linked in
  // ---------------------------------------------------------------------------

  /** Stable insertion by effective priority: behind every task at least as urgent. */
  function InsertByPrio(prio: seq<Prio>, s: seq<Tid>, t: Tid): (r: seq<Tid>)
    ensures forall x :: x in r <==> x in s || x == t
    ensures |r| == |s| + 1
  {
    if s == [] then [t]
    else if Eff(prio, t) < Eff(prio, s[0]) then [t] + s
    else [s[0]] + InsertByPrio(prio, s[1..], t)
  }

  /** Stable insertion by deadline: behind every timeout due no later. */
  function InsertByDue(s: seq<Entry>, e: Entry): (r: seq<Entry>)
    ensures forall x :: x in r <==> x in s || x == e
    ensures |r| == |s| + 1
  {
    if s == [] then [e]
    else if e.due < s[0].due then [e] + s
    else [s[0]] + InsertByDue(s[1..], e)
  }

  function WithoutId(s: seq<Entry>, id: nat): (r: seq<Entry>)
    ensures forall x :: x in r <==> x in s && x.id != id
  {
    if s == [] then []
    else if s[0].id == id then WithoutId(s[1..], id)
    else [s[0]] + WithoutId(s[1..], id)
  }

  // ---------------------------------------------------------------------------
  // Blocking and waking
  // ---------------------------------------------------------------------------

  function UpdateTask(k: Kernel, t: Tid, x: Task): Kernel
    requires t < |k.tasks|
  {
    k.(tasks := k.tasks[t := x])
  }

  /** Why the current task may not block; `Ok` when it may. */
  function BlockStatus(k: Kernel, timeout: nat): Status
    requires k.current < |k.tasks|
  {
    if k.current == IDLE || timeout == NO_WAIT then InvalidArgument
    else if k.tasks[k.current].state != Running then InvalidState
    else Ok
  }

  /** Deadline of a wait that starts now. */
  function DueAt(k: Kernel, timeout: nat): Option<nat> {
    if timeout == WAIT_FOREVER then None else Some(k.now + timeout)
  }

  function ReadyWithout(k: Kernel, t: Tid): (r: seq<seq<Tid>>)
    requires Shape(k) && t < |k.tasks|
    ensures |r| == |k.ready|
  {
    k.ready[k.prio[t].eff := Without(k.ready[k.prio[t].eff], t)]
  }

  function ReadyWith(k: Kernel, t: Tid): (r: seq<seq<Tid>>)
    requires Shape(k) && t < |k.tasks|
    ensures |r| == |k.ready|
  {
    k.ready[k.prio[t].eff := k.ready[k.prio[t].eff] + [t]]
  }

  /** Move the running task from the ready set to wait list `l`. */
  function BlockOn(k: Kernel, l: ListId, timeout: nat, item: Item): (r: Kernel)
    requires Shape(k)
    ensures Shape(r) && |r.tasks| == |k.tasks|
    ensures r.queues == k.queues && r.current == k.current && r.now == k.now
  {
    var c := k.current;
    var due := DueAt(k, timeout);
    k.(ready := ReadyWithout(k, c),
       waiters := k.waiters[l := InsertByPrio(k.prio, WaitersOf(k, l), c)],
       timeouts := if due.None? then k.timeouts else InsertByDue(k.timeouts, Entry(c, due.value)),
       tasks := k.tasks[c := k.tasks[c].(state := Blocked, wait := On(l), item := item, result := Internal,
           slice := TIME_SLICE_TICKS)],
       hist := k.hist[c := k.hist[c] + [Began(On(l), k.now, due)]],
       reasons := k.reasons + {ByBlock})
  }

  /** Move the running task from the ready set to the timeout list only. */
  function DelayFor(k: Kernel, ticks: nat): (r: Kernel)
    requires Shape(k)
    ensures Shape(r) && |r.tasks| == |k.tasks|
    ensures r.queues == k.queues && r.current == k.current && r.now == k.now
  {
    var c := k.current;
    k.(ready := ReadyWithout(k, c),
       timeouts := InsertByDue(k.timeouts, Entry(c, k.now + ticks)),
       tasks := k.tasks[c := k.tasks[c].(state := Blocked, wait := Delay, result := Ok, slice := TIME_SLICE_TICKS)],
       hist := k.hist[c := k.hist[c] + [Began(Delay, k.now, Some(k.now + ticks))]],
       reasons := k.reasons + {ByBlock})
  }

  /** First half of a wake: leave the wait list and the timeout list. */
  function Detach(k: Kernel, t: Tid): (r: Kernel)
    requires t < |k.tasks|
    ensures Shape(k) ==> Shape(r)
    ensures |r.tasks| == |k.tasks|
    ensures r.queues == k.queues && r.current == k.current && r.now == k.now && r.pendsv == k.pendsv
    ensures t < |k.tasks| ==> r.tasks == k.tasks[t := r.tasks[t]]
    ensures t < |k.hist| ==> |r.hist| == |k.hist| && r.hist == k.hist[t := r.hist[t]]
  {
    k.(waiters :=
         match k.tasks[t].wait
         case On(l) => k.waiters[l := Without(WaitersOf(k, l), t)]
         case _ => k.waiters,
       timeouts := WithoutId(k.timeouts, t))
  }

  /** Second half of a wake: publish the result and enter the ready set, unless suspended. */
  function Finish(k: Kernel, t: Tid, result: Status): (r: Kernel)
    requires Shape(k) && t < |k.tasks|
    ensures Shape(r) && |r.tasks| == |k.tasks|
    ensures r.queues == k.queues && r.current == k.current && r.now == k.now && r.pendsv == k.pendsv
    ensures t < |k.tasks| ==> r.tasks == k.tasks[t := r.tasks[t]]
    ensures t < |k.hist| ==> |r.hist| == |k.hist| && r.hist == k.hist[t := r.hist[t]]
  {
    var suspended := k.tasks[t].state == Suspended;
    var x := k.tasks[t].(wait := NoWait, result := result, slice := TIME_SLICE_TICKS);
    k.(ready := if suspended then k.ready else ReadyWith(k, t),
       tasks := k.tasks[t := if suspended then x.(resume := Ready) else x.(state := Ready)],
       hist := k.hist[t := k.hist[t] + [Ended(result, k.now)]])
  }

  function Wake(k: Kernel, t: Tid, result: Status): (r: Kernel)
    requires Shape(k) && t < |k.tasks|
    ensures Shape(r) && |r.tasks| == |k.tasks|
    ensures r.queues == k.queues && r.current == k.current && r.now == k.now && r.pendsv == k.pendsv
    ensures t < |k.tasks| ==> r.tasks == k.tasks[t := r.tasks[t]]
    ensures t < |k.hist| ==> |r.hist| == |k.hist| && r.hist == k.hist[t := r.hist[t]]
  {
    Finish(Detach(k, t), t, result)
  }

  /** Whether waking `t` calls for a switch. */
  predicate WokenFlag(k: Kernel, t: Tid) {
    && t < |k.tasks| && k.current < |k.tasks|
    && k.tasks[t].state == Ready && k.tasks[k.current].state == Running
    && Eff(k.prio, t) < Eff(k.prio, k.current)
  }

  // ---------------------------------------------------------------------------
  // Priority inheritance
  // ---------------------------------------------------------------------------

  /** The most urgent of `p` and the first waiters of the mutexes `ms`. */
  function Boost(k: Kernel, ms: seq<nat>, p: nat): (r: nat)
    ensures r <= p
  {
    if ms == [] then p
    else
      var w := WaitersOf(k, MutexWaiters(ms[0]));
      Boost(k, ms[1..], if w != [] && Eff(k.prio, w[0]) < p then Eff(k.prio, w[0]) else p)
  }

  function Required(k: Kernel, t: Tid): nat
    requires t < |k.prio| && t < |k.owned|
  {
    Boost(k, k.owned[t], k.prio[t].base)
  }

  /** Change an effective priority, requeueing the task wherever it is linked. */
  function SetEff(k: Kernel, t: Tid, p: nat): (r: Kernel)
    requires Shape(k) && t < |k.tasks| && p < PRIORITY_COUNT
    ensures Shape(r)
    ensures r == k.(prio := k.prio[t := k.prio[t].(eff := p)], ready := r.ready, waiters := r.waiters)
  {
    if k.prio[t].eff == p then k
    else
      var q := k.prio[t].eff;
      var inReady := t in k.ready[q];
      var inWait := k.tasks[t].wait.On? && t in WaitersOf(k, k.tasks[t].wait.list);
      var prio := k.prio[t := k.prio[t].(eff := p)];
      var ready := if inReady then k.ready[q := Without(k.ready[q], t)] else k.ready;
      k.(prio := prio,
         ready := if inReady then ready[p := ready[p] + [t]] else ready,
         waiters :=
           if inWait then
             var l := k.tasks[t].wait.list;
             k.waiters[l := InsertByPrio(prio, Without(WaitersOf(k, l), t), t)]
           else k.waiters)
  }

  /** The owner of the mutex that `t` waits for. */
  function Next(k: Kernel, t: Tid): Option<Tid> {
    if t < |k.tasks| && Waiting(k.tasks[t]) && k.tasks[t].wait.On? && k.tasks[t].wait.list.MutexWaiters?
    then MutexOf(k, k.tasks[t].wait.list.m).owner
    else None
  }

  /** Recompute `t` and then, link by link, the owners it waits for. */
  function Recompute(k: Kernel, t: Tid, depth: nat): (r: (Kernel, bool))
    requires Shape(k) && t < |k.tasks|
    ensures Shape(r.0) && |r.0.tasks| == |k.tasks|
    ensures r.0 == k.(prio := r.0.prio, ready := r.0.ready, waiters := r.0.waiters)
    decreases MAX_TASKS + 1 - depth
  {
    if depth > MAX_TASKS then (k, false)
    else
      var p := Required(k, t);
      if p >= IDLE_PRIORITY then (k, false)
      else
        var k1 := SetEff(k, t, p);
        match Next(k1, t)
        case None => (k1, true)
        case Some(o) =>
          if o == t || o >= |k1.tasks| then (k1, true) else Recompute(k1, o, depth + 1)
  }

  // ---------------------------------------------------------------------------
  // Mutexes
  // ---------------------------------------------------------------------------

  /** What a call returns. A blocked call returns later, with the task's wait result. */
  datatype Outcome = Outcome(status: Status, blocked: bool, item: Item)

  function Done(status: Status): Outcome {
    Outcome(status, false, [])
  }

  function AttachOwner(k: Kernel, m: nat, t: Tid): (r: Kernel)
    requires Shape(k) && t < |k.tasks|
    ensures Shape(r) && |r.tasks| == |k.tasks|
  {
    k.(owned := k.owned[t := k.owned[t] + [m]],
       mutexes := k.mutexes[m := MutexOf(k, m).(owner := Some(t), count := 1)])
  }

  function DetachOwner(k: Kernel, m: nat, t: Tid): (r: Kernel)
    requires Shape(k) && t < |k.tasks|
    ensures Shape(r) && |r.tasks| == |k.tasks|
  {
    k.(owned := k.owned[t := Without(k.owned[t], m)],
       mutexes := k.mutexes[m := MutexOf(k, m).(owner := None, count := 0)])
  }

  function Lock(k: Kernel, m: nat, timeout: nat): (r: (Kernel, Outcome))
    requires Shape(k)
    ensures Shape(r.0) && |r.0.tasks| == |k.tasks|
  {
    var c := k.current;
    var mx := MutexOf(k, m);
    if m !in k.mutexes then (k, Done(InvalidArgument))
    else if mx.owner.None? then (AttachOwner(k, m, c), Done(Ok))
    else if mx.owner.value == c then
      if !mx.recursive then (k, Done(MutexBusy))
      else if mx.count == UINT32_MAX then (k, Done(Overflow))
      else (k.(mutexes := k.mutexes[m := mx.(count := mx.count + 1)]), Done(Ok))
    else if timeout == NO_WAIT then (k, Done(MutexBusy))
    else if BlockStatus(k, timeout) != Ok || mx.owner.value >= |k.tasks| then (k, Done(BlockStatus(k, timeout)))
    else (LockBlocking(k, m, mx.owner.value, timeout).0.(pendsv := true), Outcome(Ok, true, []))
  }

  /** Wait for `m` behind its owner `o`; a failed recomputation takes the wait back.
      The flag tells whether the wait stands. */
  function LockBlocking(k: Kernel, m: nat, o: Tid, timeout: nat): (r: (Kernel, bool))
    requires Shape(k) && o < |k.tasks|
    ensures Shape(r.0) && |r.0.tasks| == |k.tasks|
    ensures r.0.queues == k.queues && r.0.current == k.current && r.0.now == k.now
  {
    var (k2, ok) := Recompute(BlockOn(k, MutexWaiters(m), timeout, []), o, 0);
    (if ok then k2 else Wake(k2, k.current, Internal), ok)
  }

  function Unlock(k: Kernel, m: nat): (r: (Kernel, Outcome))
    requires Shape(k)
    ensures Shape(r.0) && |r.0.tasks| == |k.tasks|
  {
    var c := k.current;
    var mx := MutexOf(k, m);
    if m !in k.mutexes then (k, Done(InvalidArgument))
    else if mx.owner != Some(c) then (k, Done(NotOwner))
    else if mx.recursive && mx.count > 1 then
      (k.(mutexes := k.mutexes[m := mx.(count := mx.count - 1)]), Done(Ok))
    else
      var ws := WaitersOf(k, MutexWaiters(m));
      var k1 := DetachOwner(k, m, c);
      if ws == [] then
        var (k2, ok) := Recompute(k1, c, 0);
        if ok then (k2.(pendsv := k2.pendsv || ShouldPreempt'(k2)), Done(Ok)) else (k2, Done(Internal))
      else if ws[0] >= |k.tasks| then (k, Done(Internal))
      else
        var (k2, woken, ok) := HandOver(k1, m, ws[0]);
        if ok then (k2.(pendsv := k2.pendsv || woken || ShouldPreempt'(k2)), Done(Ok)) else (k2, Done(Internal))
  }

  /** The running task should give way. */
  predicate ShouldPreempt'(k: Kernel) {
    k.current < |k.tasks| && k.tasks[k.current].state == Running && ShouldPreempt(k)
  }

  /** Give the free mutex `m` to its first waiter `w` and recompute both parties. */
  function HandOver(k: Kernel, m: nat, w: Tid): (r: (Kernel, bool, bool))
    requires Shape(k) && w < |k.tasks|
    ensures Shape(r.0) && |r.0.tasks| == |k.tasks|
    ensures r.0.queues == k.queues && r.0.current == k.current && r.0.now == k.now
  {
    var k1 := Wake(AttachOwner(k, m, w), w, Ok);
    var (k2, ok) := Recompute(k1, k.current, 0);
    if ok then
      var (k3, ok') := Recompute(k2, w, 0);
      (k3, WokenFlag(k1, w), ok')
    else (k2, WokenFlag(k1, w), false)
  }

  // ---------------------------------------------------------------------------
  // Task calls
  // ---------------------------------------------------------------------------

  function YieldCall(k: Kernel): (r: Kernel)
    requires Shape(k)
    ensures Shape(r) && |r.tasks| == |k.tasks|
  {
    if k.tasks[k.current].state == Running then k.(reasons := k.reasons + {ByYield}, pendsv := true) else k
  }

  /** Why the current task may not be delayed; `Ok` when it may. */
  function DelayStatus(k: Kernel, ticks: nat): Status
    requires k.current < |k.tasks|
  {
    if k.current == IDLE || ticks == 0 || ticks == WAIT_FOREVER || k.tasks[k.current].state != Running
    then InvalidState else Ok
  }

  function DelayCall(k: Kernel, ticks: nat): (r: (Kernel, Outcome))
    requires Shape(k)
    ensures Shape(r.0) && |r.0.tasks| == |k.tasks|
  {
    if ticks == 0 then (YieldCall(k), Done(Ok))
    else if ticks == WAIT_FOREVER then (k, Done(InvalidArgument))
    else if DelayStatus(k, ticks) != Ok then (k, Done(DelayStatus(k, ticks)))
    else (DelayFor(k, ticks).(pendsv := true), Outcome(Ok, true, []))
  }

  /** Delay until the wrapped tick `last + period`; the third part is the caller's new `last`. */
  function DelayUntilCall(k: Kernel, last: Word32, period: Word32): (r: (Kernel, Outcome, Word32))
    requires Shape(k)
    ensures Shape(r.0) && |r.0.tasks| == |k.tasks|
  {
    var next: Word32 := (last + period) % TICK_RANGE;
    var remaining: Word32 := (next - k.now % TICK_RANGE) % TICK_RANGE;
    if period == 0 || period > INT32_MAX then (k, Done(InvalidArgument), last)
    else if remaining == 0 || remaining > INT32_MAX then (k, Done(Ok), next)
    else if DelayStatus(k, remaining) != Ok then (k, Done(DelayStatus(k, remaining)), last)
    else (DelayFor(k, remaining).(pendsv := true), Outcome(Ok, true, []), next)
  }

  /** A task leaves the ready set, or its wait goes on in suspension. */
  function SuspendedTask(k: Kernel, t: Tid): (r: Kernel)
    requires Shape(k) && t < |k.tasks|
    ensures Shape(r) && |r.tasks| == |k.tasks|
    ensures r == k.(ready := r.ready, tasks := k.tasks[t := r.tasks[t]])
    ensures r.tasks[t].wait == k.tasks[t].wait && r.tasks[t].result == k.tasks[t].result
      && r.tasks[t].state == Suspended
  {
    var x := k.tasks[t];
    if x.state == Blocked then k.(tasks := k.tasks[t := x.(state := Suspended, resume := Blocked)])
    else
      k.(ready := ReadyWithout(k, t),
         tasks := k.tasks[t := x.(state := Suspended, resume := Ready,
                                  slice := if x.state == Running then TIME_SLICE_TICKS else x.slice)])
  }

  function SuspendCall(k: Kernel, t: Tid): (r: (Kernel, Status))
    requires Shape(k)
    ensures Shape(r.0) && |r.0.tasks| == |k.tasks|
  {
    if t >= |k.tasks| then (k, InvalidArgument)
    else if t == IDLE then (k, InvalidState)
    else
      var k1 := SuspendedTask(k, t);
      match k.tasks[t].state
      case Ready => (k1, Ok)
      case Blocked => (k1, Ok)
      case Running =>
        if t != k.current then (k, InvalidState)
        else (k1.(reasons := k1.reasons + {ByBlock}, pendsv := true), Ok)
      case _ => (k, InvalidState)
  }

  /** A suspended task goes back to the state it was suspended in. */
  function Resumed(k: Kernel, t: Tid): (r: Kernel)
    requires Shape(k) && t < |k.tasks|
    ensures Shape(r) && |r.tasks| == |k.tasks|
    ensures r == k.(ready := r.ready, tasks := k.tasks[t := r.tasks[t]])
    ensures r.tasks[t].wait == k.tasks[t].wait && r.tasks[t].result == k.tasks[t].result
  {
    if k.tasks[t].resume == Blocked then k.(tasks := k.tasks[t := k.tasks[t].(state := Blocked, resume := Invalid)])
    else
      k.(ready := ReadyWith(k, t),
         tasks := k.tasks[t := k.tasks[t].(state := Ready, resume := Invalid, slice := TIME_SLICE_TICKS)])
  }

  function ResumeCall(k: Kernel, t: Tid): (r: (Kernel, Status))
    requires Shape(k)
    ensures Shape(r.0) && |r.0.tasks| == |k.tasks|
  {
    if t >= |k.tasks| then (k, InvalidArgument)
    else if t == IDLE || k.tasks[t].state != Suspended then (k, InvalidState)
    else if k.tasks[t].resume != Blocked && k.tasks[t].resume != Ready then (k, Internal)
    else
      var k1 := Resumed(k, t);
      (if WokenFlag(k1, t) then k1.(reasons := k1.reasons + {ByPreempt}, pendsv := true) else k1, Ok)
  }

  // ---------------------------------------------------------------------------
  // Semaphores
  // ---------------------------------------------------------------------------

  function SemTake(k: Kernel, s: nat, timeout: nat): (r: (Kernel, Outcome))
    requires Shape(k)
    ensures Shape(r.0) && |r.0.tasks| == |k.tasks|
  {
    var x := SemOf(k, s);
    if s !in k.sems then (k, Done(InvalidArgument))
    else if x.count > 0 then
      (k.(sems := k.sems[s := x.(count := x.count - 1, taken := x.taken + 1)]), Done(Ok))
    else if timeout == NO_WAIT then (k, Done(SemaphoreEmpty))
    else if BlockStatus(k, timeout) != Ok then (k, Done(BlockStatus(k, timeout)))
    else (BlockOn(k, SemWaiters(s), timeout, []).(pendsv := true), Outcome(Ok, true, []))
  }

  /** Hand the token to the first waiter or store it; the flag asks for a switch. */
  function SemGiveLocked(k: Kernel, s: nat): (r: (Kernel, Status, bool))
    requires Shape(k)
    ensures Shape(r.0) && |r.0.tasks| == |k.tasks|
    ensures r.0.queues == k.queues && r.0.current == k.current && r.0.now == k.now
  {
    var x := SemOf(k, s);
    var ws := WaitersOf(k, SemWaiters(s));
    if s !in k.sems then (k, InvalidArgument, false)
    else if ws != [] then
      if ws[0] >= |k.tasks| then (k, Internal, false)
      else
        var k1 := Wake(k.(sems := k.sems[s := x.(given := x.given + 1, taken := x.taken + 1)]), ws[0], Ok);
        (k1, Ok, WokenFlag(k1, ws[0]))
    else if x.count >= x.max then (k, SemaphoreFull, false)
    else (k.(sems := k.sems[s := x.(count := x.count + 1, given := x.given + 1)]), Ok, false)
  }

  function SemGive(k: Kernel, s: nat): (r: (Kernel, Status))
    requires Shape(k)
    ensures Shape(r.0) && |r.0.tasks| == |k.tasks|
  {
    var (k1, status, woken) := SemGiveLocked(k, s);
    (k1.(pendsv := k1.pendsv || woken), status)
  }

  function SemGiveFromIsr(k: Kernel, s: nat): (r: (Kernel, Status))
    requires Shape(k)
    ensures Shape(r.0) && |r.0.tasks| == |k.tasks|
  {
    var (k1, status, woken) := SemGiveLocked(k, s);
    (k1.(isrWoken := k1.isrWoken || woken), status)
  }

  // ---------------------------------------------------------------------------
  // Queues
  // ---------------------------------------------------------------------------

  /** Deliver to the first waiting receiver, buffer, or block; the flag asks for a switch. */
  function SendLocked(k: Kernel, q: nat, item: Item, timeout: nat, mayBlock: bool): (r: (Kernel, Outcome, bool))
    requires Shape(k)
    ensures Shape(r.0) && |r.0.tasks| == |k.tasks|
  {
    var x := QueueOf(k, q);
    var rs := WaitersOf(k, RecvWaiters(q));
    if q !in k.queues then (k, Done(InvalidArgument), false)
    else if rs != [] then
      if rs[0] >= |k.tasks| then (k, Done(Internal), false)
      else
        var k1 := k.(queues := k.queues[q := x.(accepted := x.accepted + [item], received := x.received + [item])]);
        var k2 := Wake(UpdateTask(k1, rs[0], k1.tasks[rs[0]].(item := item)), rs[0], Ok);
        (k2, Done(Ok), WokenFlag(k2, rs[0]))
    else if |x.items| < x.capacity then
      (k.(queues := k.queues[q := x.(items := x.items + [item], accepted := x.accepted + [item])]), Done(Ok), false)
    else if timeout == NO_WAIT then (k, Done(QueueFull), false)
    else if !mayBlock then (k, Done(InvalidState), false)
    else if BlockStatus(k, timeout) != Ok then (k, Done(BlockStatus(k, timeout)), false)
    else (BlockOn(k, SendWaiters(q), timeout, item), Outcome(Ok, true, []), false)
  }

  /** Refill the freed slot from the first waiting sender. */
  function FillFromSender(k: Kernel, q: nat): (r: (Kernel, Status, bool))
    requires Shape(k)
    ensures Shape(r.0) && |r.0.tasks| == |k.tasks|
  {
    var x := QueueOf(k, q);
    var ss := WaitersOf(k, SendWaiters(q));
    if ss == [] then (k, Ok, false)
    else if ss[0] >= |k.tasks| || |x.items| >= x.capacity then (k, Internal, false)
    else
      var item := k.tasks[ss[0]].item;
      var k1 := Wake(k.(queues := k.queues[q := x.(items := x.items + [item], accepted := x.accepted + [item])]),
          ss[0], Ok);
      (k1, Ok, WokenFlag(k1, ss[0]))
  }

  /** Take from the buffer and refill it, take from a sender, or block. */
  function ReceiveLocked(k: Kernel, q: nat, timeout: nat, mayBlock: bool): (r: (Kernel, Outcome, bool))
    requires Shape(k)
    ensures Shape(r.0) && |r.0.tasks| == |k.tasks|
  {
    var x := QueueOf(k, q);
    var ss := WaitersOf(k, SendWaiters(q));
    if q !in k.queues then (k, Done(InvalidArgument), false)
    else if x.items != [] then
      var k1 := k.(queues := k.queues[q := x.(items := x.items[1..], received := x.received + [x.items[0]])]);
      var (k2, status, woken) := FillFromSender(k1, q);
      (k2, Outcome(status, false, x.items[0]), woken)
    else if ss != [] then
      if ss[0] >= |k.tasks| then (k, Done(Internal), false)
      else
        var item := k.tasks[ss[0]].item;
        var k1 := Wake(k.(queues := k.queues[q := x.(accepted := x.accepted + [item],
            received := x.received + [item])]), ss[0], Ok);
        (k1, Outcome(Ok, false, item), WokenFlag(k1, ss[0]))
    else if timeout == NO_WAIT then (k, Done(QueueEmpty), false)
    else if !mayBlock then (k, Done(InvalidState), false)
    else if BlockStatus(k, timeout) != Ok then (k, Done(BlockStatus(k, timeout)), false)
    else (BlockOn(k, RecvWaiters(q), timeout, []), Outcome(Ok, true, []), false)
  }

  function Send(k: Kernel, q: nat, item: Item, timeout: nat): (r: (Kernel, Outcome))
    requires Shape(k)
    ensures Shape(r.0) && |r.0.tasks| == |k.tasks|
  {
    var (k1, o, woken) := SendLocked(k, q, item, timeout, true);
    (k1.(pendsv := k1.pendsv || o.blocked || woken), o)
  }

  function Receive(k: Kernel, q: nat, timeout: nat): (r: (Kernel, Outcome))
    requires Shape(k)
    ensures Shape(r.0) && |r.0.tasks| == |k.tasks|
  {
    var (k1, o, woken) := ReceiveLocked(k, q, timeout, true);
    (k1.(pendsv := k1.pendsv || o.blocked || woken), o)
  }

  function SendFromIsr(k: Kernel, q: nat, item: Item): (r: (Kernel, Outcome))
    requires Shape(k)
    ensures Shape(r.0) && |r.0.tasks| == |k.tasks|
  {
    var (k1, o, woken) := SendLocked(k, q, item, NO_WAIT, false);
    (k1.(isrWoken := k1.isrWoken || woken), o)
  }

  function ReceiveFromIsr(k: Kernel, q: nat): (r: (Kernel, Outcome))
    requires Shape(k)
    ensures Shape(r.0) && |r.0.tasks| == |k.tasks|
  {
    var (k1, o, woken) := ReceiveLocked(k, q, NO_WAIT, false);
    (k1.(isrWoken := k1.isrWoken || woken), o)
  }

  // ---------------------------------------------------------------------------
  // The tick
  // ---------------------------------------------------------------------------

  /** The owners of the leading timeouts that are due at `now`. */
  function DueIds(s: seq<Entry>, now: nat): seq<nat> {
    if s == [] || s[0].due > now then [] else [s[0].id] + DueIds(s[1..], now)
  }

  function NotDue(s: seq<Entry>, now: nat): seq<Entry> {
    if s == [] || s[0].due > now then s else NotDue(s[1..], now)
  }

  /** Wake one expired task; a mutex wait also recomputes the owner it leaves. */
  function ExpireOne(k: Kernel, t: Tid): (r: Kernel)
    requires Shape(k)
    ensures Shape(r) && |r.tasks| == |k.tasks|
    ensures r.queues == k.queues && r.current == k.current && r.now == k.now && r.pendsv == k.pendsv
    ensures t < |k.tasks| ==> r.tasks == k.tasks[t := r.tasks[t]]
    ensures t < |k.hist| ==> |r.hist| == |k.hist| && r.hist == k.hist[t := r.hist[t]]
  {
    if t >= |k.tasks| then k
    else match k.tasks[t].wait
      case NoWait => k
      case Delay => Wake(k, t, Ok)
      case On(l) =>
        var k1 := Detach(k, t);
        var k2 :=
          if l.MutexWaiters? && MutexOf(k1, l.m).owner.Some? && MutexOf(k1, l.m).owner.value < |k.tasks|
          then Recompute(k1, MutexOf(k1, l.m).owner.value, 0).0 else k1;
        Finish(k2, t, Timeout)
  }

  function ExpireAll(k: Kernel, ids: seq<nat>): (r: Kernel)
    requires Shape(k)
    ensures Shape(r) && |r.tasks| == |k.tasks|
    ensures r.queues == k.queues && r.current == k.current && r.now == k.now && r.pendsv == k.pendsv
    decreases |ids|
  {
    if ids == [] then k else ExpireAll(ExpireOne(k, ids[0]), ids[1..])
  }

  /** Advance time by one tick and wake every task whose timeout is due. */
  function TickTimeouts(k: Kernel): (r: Kernel)
    requires Shape(k)
    ensures Shape(r) && |r.tasks| == |k.tasks|
    ensures r.queues == k.queues && r.current == k.current && r.pendsv == k.pendsv
  {
    var k1 := k.(now := k.now + 1, timeouts := NotDue(k.timeouts, k.now + 1));
    ExpireAll(k1, DueIds(k.timeouts, k.now + 1))
  }

  /** Time slicing of the running task. */
  function TickSlice(k: Kernel, preempt: bool, woken: bool): (r: Kernel)
    requires Shape(k)
    ensures Shape(r) && |r.tasks| == |k.tasks|
  {
    var c := k.current;
    var x := k.tasks[c];
    var peers := |k.ready[k.prio[c].eff]| > 1;
    var elapsed := !preempt && !woken && peers && x.slice <= 1;
    var slice :=
      if preempt || woken then x.slice
      else if peers && x.slice > 1 then x.slice - 1
      else TIME_SLICE_TICKS;
    k.(tasks := k.tasks[c := x.(slice := slice)],
       reasons := k.reasons + (if preempt then {ByPreempt} else if elapsed then {BySlice} else {}),
       pendsv := k.pendsv || preempt || woken || elapsed)
  }

  /** Preemption check and time slicing at the end of the tick. */
  function TickTail(k: Kernel, woken: bool): (r: Kernel)
    requires Shape(k)
    ensures Shape(r) && |r.tasks| == |k.tasks|
  {
    if k.tasks[k.current].state != Running then k.(pendsv := k.pendsv || woken)
    else TickSlice(k, ShouldPreempt(k), woken)
  }

  /** SysTick. `fired` says whether a software timer expired at this tick. */
  function Tick(k: Kernel, fired: bool): (r: Kernel)
    requires Shape(k)
    ensures Shape(r) && |r.tasks| == |k.tasks|
  {
    var k1 := TickTimeouts(k);
    if fired then
      var (k2, _, woken) := SemGiveLocked(k1, TIMER_SIGNAL);
      TickTail(k2, woken)
    else TickTail(k1, false)
  }

  // ---------------------------------------------------------------------------
  // PendSV
  // ---------------------------------------------------------------------------

  /** The ready set with the first task of the best level moved to its end. */
  function RotatedReady(k: Kernel): (r: seq<seq<Tid>>)
    requires Shape(k)
    ensures |r| == |k.ready|
  {
    match Highest(k)
    case None => k.ready
    case Some(t) =>
      if t >= |k.tasks| || k.ready[k.prio[t].eff] == [] then k.ready
      else
        var q := k.ready[k.prio[t].eff];
        k.ready[k.prio[t].eff := q[1..] + [q[0]]]
  }

  /** Acknowledge the switch request; a yield or an elapsed slice of the running task
      rotates its level first. */
  function BeforeChoice(k: Kernel): (r: Kernel)
    requires Shape(k)
    ensures Shape(r) && |r.tasks| == |k.tasks|
  {
    var c := k.current;
    var x := k.tasks[c];
    var rotate := x.state == Running && Highest(k) == Some(c) && (ByYield in k.reasons || BySlice in k.reasons);
    k.(tasks := k.tasks[c := x.(slice := if rotate && ByYield in k.reasons then TIME_SLICE_TICKS else x.slice)],
       ready := if rotate then RotatedReady(k) else k.ready,
       reasons := {},
       pendsv := false)
  }

  /** Make the selected task the running one. */
  function Choose(k: Kernel): (r: Kernel)
    requires Shape(k)
    ensures Shape(r) && |r.tasks| == |k.tasks|
  {
    var c := k.current;
    match Highest(k)
    case None => k
    case Some(n) =>
      if n >= |k.tasks| then k
      else
        var tasks := if k.tasks[c].state == Running then k.tasks[c := k.tasks[c].(state := Ready)] else k.tasks;
        k.(tasks := tasks[n := tasks[n].(state := Running)], current := n)
  }

  function PendSV(k: Kernel): (r: Kernel)
    requires Shape(k)
    ensures Shape(r) && |r.tasks| == |k.tasks|
  {
    Choose(BeforeChoice(k))
  }

  // ---------------------------------------------------------------------------
  // Steps and runs
  // ---------------------------------------------------------------------------

  datatype Step =
    | DoYield
    | DoDelay(ticks: nat)
    | DoDelayUntil(last: Word32, period: Word32)
    | DoSuspend(t: Tid)
    | DoResume(t: Tid)
    | DoLock(m: nat, timeout: nat)
    | DoUnlock(m: nat)
    | DoTake(s: nat, timeout: nat)
    | DoGive(s: nat)
    | DoSend(q: nat, item: Item, timeout: nat)
    | DoReceive(q: nat, timeout: nat)
    | IsrGive(s: nat)
    | IsrSend(q: nat, item: Item)
    | IsrReceive(q: nat)
    | IsrReturn
    | SysTick(fired: bool)
    | ContextSwitch

  /** Steps taken by a task, as opposed to an interrupt handler. */
  predicate ByTask(step: Step) {
    step.DoYield? || step.DoDelay? || step.DoDelayUntil? || step.DoSuspend? || step.DoResume? || step.DoLock? ||
    step.DoUnlock? || step.DoTake? || step.DoGive? || step.DoSend? || step.DoReceive?
  }

  function Apply(k: Kernel, step: Step): (r: Kernel)
    requires Shape(k)
    ensures Shape(r) && |r.tasks| == |k.tasks|
  {
    match step
    case DoYield => YieldCall(k)
    case DoDelay(ticks) => DelayCall(k, ticks).0
    case DoDelayUntil(last, period) => DelayUntilCall(k, last, period).0
    case DoSuspend(t) => SuspendCall(k, t).0
    case DoResume(t) => ResumeCall(k, t).0
    case DoLock(m, timeout) => Lock(k, m, timeout).0
    case DoUnlock(m) => Unlock(k, m).0
    case DoTake(s, timeout) => SemTake(k, s, timeout).0
    case DoGive(s) => SemGive(k, s).0
    case DoSend(q, item, timeout) => Send(k, q, item, timeout).0
    case DoReceive(q, timeout) => Receive(k, q, timeout).0
    case IsrGive(s) => SemGiveFromIsr(k, s).0
    case IsrSend(q, item) => SendFromIsr(k, q, item).0
    case IsrReceive(q) => ReceiveFromIsr(k, q).0
    case IsrReturn => k.(pendsv := k.pendsv || k.isrWoken, isrWoken := false)
    case SysTick(fired) => Tick(k, fired)
    case ContextSwitch => PendSV(k)
  }

  /** The state after a whole run. */
  function Run(k: Kernel, steps: seq<Step>): (r: Kernel)
    requires Shape(k)
    ensures Shape(r) && |r.tasks| == |k.tasks|
    decreases |steps|
  {
    if steps == [] then k else Run(Apply(k, steps[0]), steps[1..])
  }

  // ---------------------------------------------------------------------------
  // Start-up
  // ---------------------------------------------------------------------------

  /** The kernel after initialisation: the idle task is registered, nothing runs yet. */
  function Initialized(mutexes: map<nat, Mutex>, sems: map<nat, Semaphore>, queues: map<nat, Queue>): (r: Kernel)
    ensures Shape(r)
  {
    Kernel(
      [Task(Ready, Invalid, NoWait, [], Ok, TIME_SLICE_TICKS)], [Prio(IDLE_PRIORITY, IDLE_PRIORITY)], [[]], [[]],
      seq(PRIORITY_COUNT, p => if p == IDLE_PRIORITY then [IDLE] else []), map[], [],
      mutexes, sems, queues, IDLE, 0, {}, false, false)
  }

  /** Create and register a task before the kernel starts. */
  function Register(k: Kernel, priority: nat): (r: (Kernel, Status))
    requires Shape(k)
    ensures Shape(r.0)
  {
    if priority >= PRIORITY_COUNT then (k, InvalidArgument)
    else if |k.tasks| >= MAX_TASKS then (k, NoMemory)
    else if priority == IDLE_PRIORITY then (k, InvalidArgument)
    else
      (k.(tasks := k.tasks + [Task(Ready, Invalid, NoWait, [], Ok, TIME_SLICE_TICKS)],
          prio := k.prio + [Prio(priority, priority)],
          owned := k.owned + [[]],
          hist := k.hist + [[]],
          ready := k.ready[priority := k.ready[priority] + [|k.tasks|]]), Ok)
  }

  function RegisterAll(k: Kernel, priorities: seq<nat>): (r: Kernel)
    requires Shape(k)
    ensures Shape(r)
    decreases |priorities|
  {
    if priorities == [] then k else RegisterAll(Register(k, priorities[0]).0, priorities[1..])
  }

  /** The started kernel: the most urgent registered task runs. */
  function Started(priorities: seq<nat>, mutexes: map<nat, Mutex>, sems: map<nat, Semaphore>,
    queues: map<nat, Queue>): (r: Kernel)
    ensures Shape(r)
  {
    Choose(RegisterAll(Initialized(mutexes, sems, queues), priorities))
  }
}
