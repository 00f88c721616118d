/**
 What every step of the kernel keeps. The predicates restate, as one-state
 invariants, the agreement between task states, list membership, wait kinds and
 counts that the kernel's own validator inspects, and add what it leaves implicit:
 list order, mutex ownership and the shape of the wait-for graph.
 */
module KernelInvariant {
  import opened Config
  import opened Sequences
  import opened KernelModel

  /** A registered task's own fields agree with each other. */
  predicate TaskOk(x: Task) {
    && (x.state == Ready || x.state == Running || x.state == Blocked || x.state == Suspended)
    && (x.state == Suspended ==> x.resume == Ready || x.resume == Blocked)
    && (x.wait.NoWait? <==> !Waiting(x))
  }

  ghost predicate TasksOk(k: Kernel) {
    forall t :: 0 <= t < |k.tasks| ==> TaskOk(k.tasks[t])
  }

  /** The idle task is always runnable, alone at its level, and owns nothing. */
  ghost predicate BasesOk(k: Kernel) {
    && Shape(k)
    && 0 < |k.tasks| <= MAX_TASKS
    && (forall t :: 0 <= t < |k.prio| && t != IDLE ==> k.prio[t].base < IDLE_PRIORITY)
    && k.prio[IDLE] == Prio(IDLE_PRIORITY, IDLE_PRIORITY)
    && (k.tasks[IDLE].state == Ready || k.tasks[IDLE].state == Running)
    && k.owned[IDLE] == []
  }

  /** Level `p` of the ready set holds exactly the runnable tasks of priority `p`. */
  ghost predicate ReadyOk(k: Kernel) {
    && Shape(k)
    && (forall p :: 0 <= p < |k.ready| ==> Distinct(k.ready[p]))
    && forall p, t: Tid {:trigger t in k.ready[p]} :: 0 <= p < |k.ready| ==>
      (t in k.ready[p] <==>
        t < |k.tasks| && (k.tasks[t].state == Ready || k.tasks[t].state == Running) && k.prio[t].eff == p)
  }

  predicate SortedByPrio(prio: seq<Prio>, s: seq<Tid>) {
    forall i, j :: 0 <= i < j < |s| ==> Eff(prio, s[i]) <= Eff(prio, s[j])
  }

  /** Each wait list holds exactly its waiting tasks, once, most urgent first;
      the tasks in `x` have been detached but not yet finished. */
  ghost predicate WaitOk(k: Kernel, x: set<Tid>) {
    && (forall l :: Distinct(WaitersOf(k, l)) && SortedByPrio(k.prio, WaitersOf(k, l)))
    && forall l, t: Tid {:trigger t in WaitersOf(k, l)} ::
      t in WaitersOf(k, l) <==> t < |k.tasks| && t !in x && k.tasks[t].wait == On(l)
  }

  /** The owned list of a task and the owner field of a mutex are inverse to each other. */
  ghost predicate OwnOk(k: Kernel) {
    && Shape(k)
    && (forall t :: 0 <= t < |k.owned| ==> Distinct(k.owned[t]))
    && (forall t, m: nat {:trigger m in k.owned[t]} :: 0 <= t < |k.owned| ==>
         (m in k.owned[t] <==> MutexOf(k, m).owner == Some(t)))
    && (forall m: nat :: MutexOf(k, m).owner.Some? ==>
          0 <= MutexOf(k, m).owner.value < |k.tasks| && MutexOf(k, m).owner.value != IDLE)
    && (forall m: nat :: MutexOf(k, m).owner.Some? <==> MutexOf(k, m).count > 0)
    && (forall m: nat :: MutexOf(k, m).count <= if MutexOf(k, m).recursive then UINT32_MAX else 1)
    && (forall m: nat :: WaitersOf(k, MutexWaiters(m)) != [] ==> MutexOf(k, m).owner.Some?)
  }

  // ---------------------------------------------------------------------------
  // The wait-for graph
  // ---------------------------------------------------------------------------

  /** The chain of owners from `t` ends after at most `n` links. */
  ghost predicate Ends(k: Kernel, t: Tid, n: nat)
    decreases n
  {
    match Next(k, t)
    case None => true
    case Some(o) => n > 0 && Ends(k, o, n - 1)
  }

  /** Every chain ends: the wait-for graph has no cycle. */
  ghost predicate Acyclic(k: Kernel) {
    forall t: Tid :: t < |k.tasks| ==> ChainEnds(k, t)
  }

  ghost predicate ChainEnds(k: Kernel, t: Tid) {
    exists n: nat :: Ends(k, t, n)
  }

  /** The chain of owners from `t` meets `c` within `n` links. */
  ghost predicate Reaches(k: Kernel, t: Tid, c: Tid, n: nat)
    decreases n
  {
    t == c ||
    match Next(k, t)
    case None => false
    case Some(o) => n > 0 && Reaches(k, o, c, n - 1)
  }

  /** No task waits for itself. */
  ghost predicate NoSelfWait(k: Kernel) {
    forall t: Tid :: Next(k, t) != Some(t)
  }

  /** The part of the invariant that priority changes rely on. */
  ghost predicate Core(k: Kernel, x: set<Tid>) {
    BasesOk(k) && TasksOk(k) && ReadyOk(k) && WaitOk(k, x) && OwnOk(k)
  }

  // ---------------------------------------------------------------------------
  // Inherited priorities
  // ---------------------------------------------------------------------------

  /** `p` is the minimum of `t`'s base priority and the effective priorities of all
      tasks waiting for a mutex that `t` owns. */
  ghost predicate IsInherited(k: Kernel, t: Tid, p: nat)
    requires t < |k.prio|
  {
    && p <= k.prio[t].base
    && (forall m: nat, w: Tid {:trigger w in WaitersOf(k, MutexWaiters(m))} ::
          MutexOf(k, m).owner == Some(t) && w in WaitersOf(k, MutexWaiters(m)) ==> p <= Eff(k.prio, w))
    && (p == k.prio[t].base ||
        exists m: nat, w: Tid {:trigger w in WaitersOf(k, MutexWaiters(m))} ::
          MutexOf(k, m).owner == Some(t) && w in WaitersOf(k, MutexWaiters(m)) && p == Eff(k.prio, w))
  }

  ghost predicate ExactAt(k: Kernel, t: Tid) {
    t < |k.prio| && t < |k.owned| ==> k.prio[t].eff == Required(k, t)
  }

  /** Every effective priority is the inherited one. */
  ghost predicate Exact(k: Kernel) {
    forall t: Tid :: ExactAt(k, t)
  }

  ghost predicate BoostedAt(k: Kernel, t: Tid) {
    t < |k.prio| && t < |k.owned| ==> k.prio[t].eff <= Required(k, t)
  }

  /** No effective priority is less urgent than the inherited one. */
  ghost predicate Boosted(k: Kernel) {
    forall t: Tid :: BoostedAt(k, t)
  }

  // ---------------------------------------------------------------------------
  // Timeouts and blocking episodes
  // ---------------------------------------------------------------------------

  predicate SortedByDue(s: seq<Entry>) {
    forall i, j :: 0 <= i < j < |s| ==> s[i].due <= s[j].due
  }

  predicate DistinctIds(s: seq<Entry>) {
    forall i, j :: 0 <= i < j < |s| ==> s[i].id != s[j].id
  }

  /** Running timeouts are ordered, lie in the future and belong to waiting tasks;
      the tasks in `y` have just expired and are about to be woken. */
  ghost predicate TimeoutOk(k: Kernel, y: set<Tid>) {
    && SortedByDue(k.timeouts) && DistinctIds(k.timeouts)
    && forall e :: e in k.timeouts ==>
      e.due > k.now && e.id < |k.tasks| && e.id !in y && !k.tasks[e.id].wait.NoWait?
  }

  /** A blocking episode `b` may end in `e`: a delay ends successfully at its deadline; any
      other wait ends in a timeout exactly when it lasts until its deadline, and only a
      mutex wait can end in anything else than success or timeout. */
  predicate Closes(b: Episode, e: Episode) {
    && b.Began? && e.Ended? && b.at <= e.at
    && (b.due.Some? ==> e.at <= b.due.value)
    && match b.wait
       case NoWait => false
       case Delay => e.result == Ok && b.due == Some(e.at)
       case On(l) =>
         && (e.result == Timeout <==> b.due == Some(e.at))
         && (e.result == Ok || e.result == Timeout || (e.result == Internal && l.MutexWaiters?))
  }

  /** Episodes begin and end in turn, and each end closes the episode before it. */
  predicate Alternates(h: seq<Episode>) {
    forall i: nat :: i < |h| ==> TurnOk(h, i)
  }

  predicate TurnOk(h: seq<Episode>, i: nat)
    requires i < |h|
  {
    if i % 2 == 0 then h[i].Began? else Closes(h[i - 1], h[i])
  }

  /** The open episode of a waiting task agrees with its wait and its timeout. */
  ghost predicate OpenOk(k: Kernel, y: set<Tid>, t: Tid, b: Episode)
    requires t < |k.tasks|
  {
    && b.Began? && b.wait == k.tasks[t].wait && b.at <= k.now
    && (b.wait == Delay ==> b.due.Some?)
    && if t in y then b.due == Some(k.now)
       else forall d: nat :: b.due == Some(d) <==> Entry(t, d) in k.timeouts
  }

  ghost predicate EpisodeAt(k: Kernel, y: set<Tid>, t: Tid)
    requires t < |k.tasks| && t < |k.hist|
  {
    && Alternates(k.hist[t])
    && (|k.hist[t]| % 2 == 1 <==> !k.tasks[t].wait.NoWait?)
    && (|k.hist[t]| % 2 == 1 ==> OpenOk(k, y, t, k.hist[t][|k.hist[t]| - 1]))
  }

  ghost predicate EpisodesOk(k: Kernel, y: set<Tid>) {
    Shape(k) && forall t: Tid :: t < |k.tasks| ==> EpisodeAt(k, y, t)
  }

  // ---------------------------------------------------------------------------
  // Semaphores and queues
  // ---------------------------------------------------------------------------

  /** Tokens are neither lost nor made, and nobody waits while one is available. */
  ghost predicate SemsOk(k: Kernel) {
    forall s: nat :: var x := SemOf(k, s);
      && x.count <= x.max
      && x.initial + x.given == x.taken + x.count
      && (WaitersOf(k, SemWaiters(s)) != [] ==> x.count == 0)
  }

  /** A queue delivers what it accepted, in order; receivers wait only on an empty queue
      and senders only on a full one. */
  ghost predicate QueuesOk(k: Kernel) {
    forall q: nat :: var x := QueueOf(k, q);
      && |x.items| <= x.capacity
      && (q in k.queues ==> x.capacity > 0)
      && x.accepted == x.received + x.items
      && (WaitersOf(k, RecvWaiters(q)) != [] ==> q in k.queues && x.items == [])
      && (WaitersOf(k, SendWaiters(q)) != [] ==> q in k.queues && |x.items| == x.capacity)
  }

  // ---------------------------------------------------------------------------
  // The running task
  // ---------------------------------------------------------------------------

  ghost predicate OnlyCurrentRuns(k: Kernel) {
    forall t: Tid :: t < |k.tasks| && k.tasks[t].state == Running ==> t == k.current
  }

  /** Without a running task a switch is pending; with one, a strictly more urgent ready
      task implies a pending switch, or a wake flag not yet acted on by an interrupt handler. */
  ghost predicate Prompt(k: Kernel) {
    && k.current < |k.tasks|
    && if k.tasks[k.current].state == Running
       then k.pendsv || k.isrWoken || NoneBetter(k)
       else k.pendsv
  }

  /** No ready task is strictly more urgent than the current one. */
  ghost predicate NoneBetter(k: Kernel) {
    forall t: Tid :: t < |k.tasks| && k.tasks[t].state == Ready ==> Eff(k.prio, k.current) <= Eff(k.prio, t)
  }

  /** Everything but the wait-for graph and the inherited priorities. */
  ghost predicate Base(k: Kernel, y: set<Tid>) {
    && Core(k, {}) && OnlyCurrentRuns(k)
    && TimeoutOk(k, y) && EpisodesOk(k, y) && SemsOk(k) && QueuesOk(k)
  }

  /** What holds inside a step as well, while the tasks in `y` are being woken. */
  ghost predicate Inv(k: Kernel, y: set<Tid>) {
    Base(k, y) && Acyclic(k) && Boosted(k)
  }

  /** The invariant at step boundaries. */
  ghost predicate Good(k: Kernel) {
    Inv(k, {}) && Prompt(k)
  }
}
