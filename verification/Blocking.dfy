/** Blocking the running task keeps the invariant. */
module Blocking {
  import opened Config
  import opened Sequences
  import opened KernelModel
  import opened KernelInvariant
  import opened Inheritance

  /** What an object must look like for a task to wait on it. */
  ghost predicate MayWaitOn(k: Kernel, l: ListId) {
    match l
    case MutexWaiters(m) => MutexOf(k, m).owner.Some?
    case SemWaiters(s) => SemOf(k, s).count == 0
    case SendWaiters(q) => q in k.queues && |QueueOf(k, q).items| == QueueOf(k, q).capacity
    case RecvWaiters(q) => q in k.queues && QueueOf(k, q).items == []
  }

  /** The running task, allowed to block. */
  ghost predicate MayBlock(k: Kernel) {
    Shape(k) && k.current != IDLE && k.tasks[k.current].state == Running
  }

  // ---------------------------------------------------------------------------
  // Timeout list
  // ---------------------------------------------------------------------------

  lemma {:induction false} InsertDueSorted(s: seq<Entry>, e: Entry)
    requires SortedByDue(s)
    ensures SortedByDue(InsertByDue(s, e))
  {
    if s != [] && e.due >= s[0].due {
      InsertDueSorted(s[1..], e);
      var r := InsertByDue(s[1..], e);
      assert forall x :: x in r ==> s[0].due <= x.due;
    }
  }

  /** A new deadline comes behind every deadline that is not later. */
  lemma {:induction false} InsertDueAt(s: seq<Entry>, e: Entry, i: nat)
    requires i <= |s| && (forall j :: 0 <= j < i ==> s[j].due <= e.due)
    requires i < |s| ==> e.due < s[i].due
    ensures InsertByDue(s, e) == s[..i] + [e] + s[i..]
  {
    if i > 0 {
      InsertDueAt(s[1..], e, i - 1);
      assert s[1..][..i - 1] == s[..i][1..];
      assert s[1..][i - 1..] == s[i..];
    }
  }

  lemma {:induction false} InsertDueDistinct(s: seq<Entry>, e: Entry)
    requires DistinctIds(s) && forall x :: x in s ==> x.id != e.id
    ensures DistinctIds(InsertByDue(s, e))
  {
    if s != [] && e.due >= s[0].due {
      InsertDueDistinct(s[1..], e);
      var r := InsertByDue(s[1..], e);
      assert forall x :: x in r ==> s[0].id != x.id;
    }
  }

  lemma {:induction false} WithoutIdSorted(s: seq<Entry>, id: nat)
    requires SortedByDue(s)
    ensures SortedByDue(WithoutId(s, id))
  {
    if s != [] {
      WithoutIdSorted(s[1..], id);
      assert forall x :: x in s[1..] ==> s[0].due <= x.due;
    }
  }

  lemma {:induction false} WithoutIdDistinct(s: seq<Entry>, id: nat)
    requires DistinctIds(s)
    ensures DistinctIds(WithoutId(s, id))
  {
    if s != [] {
      WithoutIdDistinct(s[1..], id);
      assert forall x :: x in s[1..] ==> s[0].id != x.id;
    }
  }

  lemma {:induction false} WithoutIdAbsent(s: seq<Entry>, id: nat)
    requires forall x :: x in s ==> x.id != id
    ensures WithoutId(s, id) == s
  {
    if s != [] {
      WithoutIdAbsent(s[1..], id);
    }
  }

  // ---------------------------------------------------------------------------
  // What single changes do to the parts of the invariant
  // ---------------------------------------------------------------------------

  predicate Runnable(x: Task) {
    x.state == Ready || x.state == Running
  }

  /** `k'` has a new record for task `t`, the same priorities and a valid shape. */
  ghost predicate TaskChanged(k: Kernel, k': Kernel, t: Tid) {
    && Shape(k) && Shape(k') && t < |k.tasks| && t < |k'.tasks| && k'.prio == k.prio
        && k'.tasks == k.tasks[t := k'.tasks[t]]
  }

  lemma ReadyLeaves(k: Kernel, k': Kernel, t: Tid)
    requires ReadyOk(k) && TaskChanged(k, k', t)
    requires Runnable(k.tasks[t]) && !Runnable(k'.tasks[t]) && k'.ready == ReadyWithout(k, t)
    ensures ReadyOk(k')
  {
    WithoutDistinct(k.ready[k.prio[t].eff], t);
  }

  lemma ReadyEnters(k: Kernel, k': Kernel, t: Tid)
    requires ReadyOk(k) && TaskChanged(k, k', t)
    requires !Runnable(k.tasks[t]) && Runnable(k'.tasks[t]) && k'.ready == ReadyWith(k, t)
    ensures ReadyOk(k')
  {
    DistinctSnoc(k.ready[k.prio[t].eff], t);
  }

  lemma ReadyStays(k: Kernel, k': Kernel, t: Tid)
    requires ReadyOk(k) && TaskChanged(k, k', t)
    requires Runnable(k.tasks[t]) == Runnable(k'.tasks[t]) && k'.ready == k.ready
    ensures ReadyOk(k')
  {
  }

  /** The wait lists only depend on who waits for what. */
  lemma WaitFrame(k: Kernel, k': Kernel, x: set<Tid>)
    requires WaitOk(k, x) && k'.waiters == k.waiters && k'.prio == k.prio && |k'.tasks| == |k.tasks|
    requires forall u: Tid :: u < |k.tasks| ==> k'.tasks[u].wait == k.tasks[u].wait
    ensures WaitOk(k', x)
  {
    assert forall l :: WaitersOf(k', l) == WaitersOf(k, l);
  }

  lemma OwnFrame(k: Kernel, k': Kernel)
    requires OwnOk(k) && Shape(k') && |k'.tasks| == |k.tasks| && k'.owned == k.owned && k'.mutexes == k.mutexes
      && k'.waiters == k.waiters
    ensures OwnOk(k')
  {
    assert forall l :: WaitersOf(k', l) == WaitersOf(k, l);
    assert forall m: nat :: MutexOf(k', m) == MutexOf(k, m);
  }

  lemma ObjectsFrame(k: Kernel, k': Kernel)
    requires SemsOk(k) && QueuesOk(k)
    requires k'.sems == k.sems && k'.queues == k.queues
    requires forall l :: WaitersOf(k, l) == [] ==> WaitersOf(k', l) == []
    ensures SemsOk(k') && QueuesOk(k')
  {
    assert forall s: nat :: SemOf(k', s) == SemOf(k, s);
    assert forall q: nat :: QueueOf(k', q) == QueueOf(k, q);
  }

  /** Fields the core does not look at may change freely. */
  lemma CoreFrame(k: Kernel, k': Kernel, x: set<Tid>)
    requires Core(k, x) && Shape(k') && k'.tasks == k.tasks && k'.prio == k.prio && k'.owned == k.owned
      && k'.ready == k.ready
    requires k'.waiters == k.waiters && k'.mutexes == k.mutexes
    ensures Core(k', x)
  {
    hide WaitOk, OwnOk, ReadyOk;
    WaitFrame(k, k', x);
    OwnFrame(k, k');
    if 0 < |k.tasks| {
      ReadyStays(k, k', 0);
    }
  }

  // ---------------------------------------------------------------------------
  // Blocking on a wait list, one part of the invariant at a time
  // ---------------------------------------------------------------------------

  lemma BlockReady(k: Kernel, l: ListId, timeout: nat, item: Item)
    requires MayBlock(k) && ReadyOk(k)
    ensures ReadyOk(BlockOn(k, l, timeout, item))
  {
    hide ReadyOk, ReadyWithout, InsertByPrio, InsertByDue;
    ReadyLeaves(k, BlockOn(k, l, timeout, item), k.current);
  }

  lemma BlockWait(k: Kernel, l: ListId, timeout: nat, item: Item)
    requires MayBlock(k) && TasksOk(k) && WaitOk(k, {})
    ensures WaitOk(BlockOn(k, l, timeout, item), {})
  {
    var c := k.current;
    assert c !in WaitersOf(k, l);
    InsertSorted(k.prio, WaitersOf(k, l), c);
    InsertDistinct(k.prio, WaitersOf(k, l), c);
    var k' := BlockOn(k, l, timeout, item);
    assert forall j :: WaitersOf(k', j) == if j == l then InsertByPrio(k.prio, WaitersOf(k, l), c) else WaitersOf(k, j);
  }

  lemma BlockOwn(k: Kernel, l: ListId, timeout: nat, item: Item)
    requires MayBlock(k) && OwnOk(k) && MayWaitOn(k, l)
    ensures OwnOk(BlockOn(k, l, timeout, item))
  {
    var k' := BlockOn(k, l, timeout, item);
    assert forall m: nat :: MutexOf(k', m) == MutexOf(k, m);
    assert forall j :: j != l ==> WaitersOf(k', j) == WaitersOf(k, j);
  }

  lemma BlockCore(k: Kernel, l: ListId, timeout: nat, item: Item)
    requires MayBlock(k) && Core(k, {}) && MayWaitOn(k, l)
    ensures Core(BlockOn(k, l, timeout, item), {})
  {
    BlockReady(k, l, timeout, item);
    BlockWait(k, l, timeout, item);
    BlockOwn(k, l, timeout, item);
    hide ReadyOk, WaitOk, OwnOk;
  }

  lemma BlockTimeouts(k: Kernel, l: ListId, timeout: nat, item: Item)
    requires MayBlock(k) && TasksOk(k) && TimeoutOk(k, {}) && timeout > 0
    ensures TimeoutOk(BlockOn(k, l, timeout, item), {})
  {
    hide InsertByPrio, Without, InsertByDue;
    var c := k.current;
    if timeout != WAIT_FOREVER {
      InsertDueSorted(k.timeouts, Entry(c, k.now + timeout));
      InsertDueDistinct(k.timeouts, Entry(c, k.now + timeout));
    }
  }

  lemma AlternatesSnoc(h: seq<Episode>, e: Episode)
    requires Alternates(h)
    requires if |h| % 2 == 0 then e.Began? else Closes(h[|h| - 1], e)
    ensures Alternates(h + [e])
  {
    var r := h + [e];
    forall i: nat | i < |r|
      ensures TurnOk(r, i)
    {
      assert i < |h| ==> TurnOk(h, i) && r[i] == h[i];
      assert 0 < i ==> r[i - 1] == h[i - 1];
    }
  }

  lemma BlockEpisodes(k: Kernel, l: ListId, timeout: nat, item: Item)
    requires MayBlock(k) && TasksOk(k) && TimeoutOk(k, {}) && EpisodesOk(k, {})
    ensures EpisodesOk(BlockOn(k, l, timeout, item), {})
  {
    var c := k.current;
    var k' := BlockOn(k, l, timeout, item);
    forall t: Tid | t < |k.tasks|
      ensures EpisodeAt(k', {}, t)
    {
      assert EpisodeAt(k, {}, t) && EpisodeAt(k, {}, c);
      AlternatesSnoc(k.hist[c], Began(On(l), k.now, DueAt(k, timeout)));
      assert t != c ==> k'.hist[t] == k.hist[t] && k'.tasks[t] == k.tasks[t];
    }
  }

  lemma BlockObjects(k: Kernel, l: ListId, timeout: nat, item: Item)
    requires MayBlock(k) && MayWaitOn(k, l) && SemsOk(k) && QueuesOk(k)
    ensures SemsOk(BlockOn(k, l, timeout, item)) && QueuesOk(BlockOn(k, l, timeout, item))
  {
    var k' := BlockOn(k, l, timeout, item);
    assert forall j :: j != l ==> WaitersOf(k', j) == WaitersOf(k, j);
    assert forall s: nat :: SemOf(k', s) == SemOf(k, s);
    assert forall q: nat :: QueueOf(k', q) == QueueOf(k, q);
  }

  lemma BlockNext(k: Kernel, l: ListId, timeout: nat, item: Item)
    requires MayBlock(k)
    ensures forall u: Tid :: u != k.current ==> Next(BlockOn(k, l, timeout, item), u) == Next(k, u)
    ensures Next(k, k.current) == None
    ensures Next(BlockOn(k, l, timeout, item), k.current) == if l.MutexWaiters? then MutexOf(k, l.m).owner else None
  {
  }

  /** Blocking on anything but a mutex. */
  lemma BlockInv(k: Kernel, l: ListId, timeout: nat, item: Item)
    requires MayBlock(k) && Inv(k, {}) && MayWaitOn(k, l) && !l.MutexWaiters? && timeout > 0
    ensures Inv(BlockOn(k, l, timeout, item), {})
    ensures Exact(k) ==> Exact(BlockOn(k, l, timeout, item))
  {
    hide ReadyOk, WaitOk, OwnOk, Next, SemsOk, QueuesOk, TimeoutOk, EpisodesOk, InsertByPrio, InsertByDue, Boosted,
         Exact, Acyclic;
    var k' := BlockOn(k, l, timeout, item);
    BlockCore(k, l, timeout, item);
    BlockTimeouts(k, l, timeout, item);
    BlockEpisodes(k, l, timeout, item);
    BlockObjects(k, l, timeout, item);
    BlockNext(k, l, timeout, item);
    AcyclicSub(k, k');
    InheritanceFrame(k, k');
  }

  // ---------------------------------------------------------------------------
  // Delaying
  // ---------------------------------------------------------------------------

  lemma DelayCore(k: Kernel, ticks: nat)
    requires MayBlock(k) && Core(k, {})
    ensures Core(DelayFor(k, ticks), {})
  {
    hide ReadyOk, WaitOk, OwnOk, ReadyWithout, InsertByDue;
    var k' := DelayFor(k, ticks);
    ReadyLeaves(k, k', k.current);
    OwnFrame(k, k');
    DelayWait(k, ticks);
  }

  lemma DelayWait(k: Kernel, ticks: nat)
    requires MayBlock(k) && TasksOk(k) && WaitOk(k, {})
    ensures WaitOk(DelayFor(k, ticks), {})
  {
    hide ReadyWithout, InsertByDue;
    assert forall l :: WaitersOf(DelayFor(k, ticks), l) == WaitersOf(k, l);
    assert TaskOk(k.tasks[k.current]);
  }

  lemma DelayNext(k: Kernel, ticks: nat)
    requires MayBlock(k)
    ensures forall u: Tid :: Next(DelayFor(k, ticks), u) == Next(k, u)
  {
    hide ReadyWithout, InsertByDue;
  }

  lemma DelayTimeouts(k: Kernel, ticks: nat)
    requires MayBlock(k) && TasksOk(k) && TimeoutOk(k, {}) && ticks > 0
    ensures TimeoutOk(DelayFor(k, ticks), {})
  {
    InsertDueSorted(k.timeouts, Entry(k.current, k.now + ticks));
    InsertDueDistinct(k.timeouts, Entry(k.current, k.now + ticks));
  }

  lemma DelayEpisodes(k: Kernel, ticks: nat)
    requires MayBlock(k) && TasksOk(k) && TimeoutOk(k, {}) && EpisodesOk(k, {})
    ensures EpisodesOk(DelayFor(k, ticks), {})
  {
    var c := k.current;
    var k' := DelayFor(k, ticks);
    forall t: Tid | t < |k.tasks|
      ensures EpisodeAt(k', {}, t)
    {
      assert EpisodeAt(k, {}, t) && EpisodeAt(k, {}, c);
      AlternatesSnoc(k.hist[c], Began(Delay, k.now, Some(k.now + ticks)));
      assert t != c ==> k'.hist[t] == k.hist[t] && k'.tasks[t] == k.tasks[t];
    }
  }

  lemma DelayInv(k: Kernel, ticks: nat)
    requires MayBlock(k) && Inv(k, {}) && ticks > 0
    ensures Inv(DelayFor(k, ticks), {})
    ensures Exact(k) ==> Exact(DelayFor(k, ticks))
  {
    hide ReadyOk, WaitOk, OwnOk, BasesOk, TimeoutOk, EpisodesOk, SemsOk, QueuesOk, InsertByDue, Boosted, Exact,
         Acyclic, ReadyWithout, Next;
    var k' := DelayFor(k, ticks);
    DelayCore(k, ticks);
    DelayTimeouts(k, ticks);
    DelayEpisodes(k, ticks);
    DelayNext(k, ticks);
    AcyclicSub(k, k');
    InheritanceFrame(k, k');
    ObjectsFrame(k, k');
  }
}
