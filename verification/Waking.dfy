/** Waking a task, by handoff or by timeout, keeps the invariant. */
module Waking {
  import opened Config
  import opened Sequences
  import opened KernelModel
  import opened KernelInvariant
  import opened Inheritance
  import opened Blocking

  // ---------------------------------------------------------------------------
  // The two halves of a wake
  // ---------------------------------------------------------------------------

  lemma DetachWait(k: Kernel, t: Tid)
    requires t < |k.tasks| && WaitOk(k, {})
    ensures WaitOk(Detach(k, t), {t})
    ensures forall l :: WaitersOf(k, l) == [] ==> WaitersOf(Detach(k, t), l) == []
  {
    var k' := Detach(k, t);
    forall l
      ensures Distinct(WaitersOf(k', l)) && SortedByPrio(k'.prio, WaitersOf(k', l))
      ensures forall u: Tid :: u in WaitersOf(k', l) <==> u in WaitersOf(k, l) && u != t
      ensures WaitersOf(k, l) == [] ==> WaitersOf(k', l) == []
    {
      if k.tasks[t].wait == On(l) {
        WithoutDistinct(WaitersOf(k, l), t);
        WithoutSorted(k.prio, WaitersOf(k, l), t);
      } else {
        assert t !in WaitersOf(k, l);
        assert WaitersOf(k', l) == WaitersOf(k, l);
      }
    }
  }

  lemma DetachCore(k: Kernel, t: Tid)
    requires t < |k.tasks| && Core(k, {})
    ensures Core(Detach(k, t), {t})
  {
    var k' := Detach(k, t);
    DetachWait(k, t);
    assert OwnOk(k') by {
      assert forall m: nat :: MutexOf(k', m) == MutexOf(k, m);
      hide WaitOk;
    }
    assert ReadyOk(k');
  }

  lemma FinishReady(k: Kernel, t: Tid, result: Status)
    requires Shape(k) && ReadyOk(k) && t < |k.tasks| && Waiting(k.tasks[t])
    ensures ReadyOk(Finish(k, t, result))
  {
    hide ReadyOk, ReadyWith;
    if k.tasks[t].state == Suspended {
      ReadyStays(k, Finish(k, t, result), t);
    } else {
      ReadyEnters(k, Finish(k, t, result), t);
    }
  }

  lemma FinishWait(k: Kernel, t: Tid, result: Status)
    requires Shape(k) && t < |k.tasks| && WaitOk(k, {t})
    ensures WaitOk(Finish(k, t, result), {})
  {
    hide WaitOk, ReadyWith;
    WaitFinished(k, Finish(k, t, result), t);
  }

  lemma WaitFinished(k: Kernel, k': Kernel, t: Tid)
    requires t < |k.tasks| == |k'.tasks| && WaitOk(k, {t}) && k'.waiters == k.waiters && k'.prio == k.prio
    requires k'.tasks == k.tasks[t := k'.tasks[t]] && k'.tasks[t].wait == NoWait
    ensures WaitOk(k', {})
  {
    hide SortedByPrio, Distinct;
    assert forall l :: WaitersOf(k', l) == WaitersOf(k, l);
  }

  lemma FinishCore(k: Kernel, t: Tid, result: Status)
    requires t < |k.tasks| && Core(k, {t}) && Waiting(k.tasks[t])
    ensures Core(Finish(k, t, result), {})
  {
    hide ReadyOk, WaitOk, OwnOk, ReadyWith;
    FinishReady(k, t, result);
    FinishWait(k, t, result);
    OwnFrame(k, Finish(k, t, result));
  }

  /** The result a wake may publish: a wait still running until its deadline ends by
      handoff, an expired one by its deadline. */
  ghost predicate ResultOk(k: Kernel, t: Tid, result: Status, y: set<Tid>)
    requires t < |k.tasks|
  {
    match k.tasks[t].wait
    case NoWait => false
    case Delay => t in y && result == Ok
    case On(l) => if t in y then result == Timeout else result == Ok || (result == Internal && l.MutexWaiters?)
  }

  /** Between its halves, a wake changes only priorities and wait lists. */
  ghost predicate Detached(k: Kernel, k2: Kernel, t: Tid) {
    && k2.timeouts == WithoutId(k.timeouts, t) && k2.tasks == k.tasks && k2.hist == k.hist && k2.now == k.now
    && Shape(k2)
  }

  lemma FinishTimeouts(k: Kernel, k2: Kernel, t: Tid, result: Status, y: set<Tid>)
    requires t < |k.tasks| && Detached(k, k2, t) && TimeoutOk(k, y)
    ensures TimeoutOk(Finish(k2, t, result), y - {t})
  {
    WithoutIdSorted(k.timeouts, t);
    WithoutIdDistinct(k.timeouts, t);
  }

  lemma FinishCloses(k: Kernel, t: Tid, result: Status, y: set<Tid>)
    requires t < |k.tasks| && TimeoutOk(k, y) && EpisodesOk(k, y) && TasksOk(k) && Waiting(k.tasks[t])
    requires ResultOk(k, t, result, y)
    ensures |k.hist[t]| % 2 == 1 && Closes(k.hist[t][|k.hist[t]| - 1], Ended(result, k.now))
    ensures Alternates(k.hist[t] + [Ended(result, k.now)])
  {
    assert EpisodeAt(k, y, t);
    var b := k.hist[t][|k.hist[t]| - 1];
    if t !in y && b.due.Some? {
      assert Entry(t, b.due.value) in k.timeouts;
    }
    AlternatesSnoc(k.hist[t], Ended(result, k.now));
  }

  lemma FinishEpisodes(k: Kernel, k2: Kernel, t: Tid, result: Status, y: set<Tid>)
    requires t < |k.tasks| && Detached(k, k2, t) && Waiting(k.tasks[t])
    requires TimeoutOk(k, y) && EpisodesOk(k, y) && TasksOk(k) && ResultOk(k, t, result, y)
    ensures EpisodesOk(Finish(k2, t, result), y - {t})
  {
    FinishCloses(k, t, result, y);
    var k' := Finish(k2, t, result);
    forall u: Tid | u < |k'.tasks|
      ensures EpisodeAt(k', y - {t}, u)
    {
      assert EpisodeAt(k, y, u);
      if u != t {
        assert k'.hist[u] == k.hist[u] && k'.tasks[u] == k.tasks[u];
        assert forall d: nat :: Entry(u, d) in k'.timeouts <==> Entry(u, d) in k.timeouts;
      } else {
        hide Alternates;
      }
    }
  }

  // ---------------------------------------------------------------------------
  // A wake that involves no mutex
  // ---------------------------------------------------------------------------

  lemma WakeNext(k: Kernel, t: Tid, result: Status)
    requires Shape(k) && t < |k.tasks| && Waiting(k.tasks[t])
    ensures forall u: Tid :: Next(Wake(k, t, result), u) == if u == t then None else Next(k, u)
  {
  }

  lemma WakeWaiters(k: Kernel, t: Tid, result: Status)
    requires Shape(k) && t < |k.tasks|
    ensures forall l :: WaitersOf(Wake(k, t, result), l) ==
                        (if k.tasks[t].wait == On(l) then Without(WaitersOf(k, l), t) else WaitersOf(k, l))
  {
  }

  lemma WakeBase(k: Kernel, t: Tid, result: Status, y: set<Tid>)
    requires Base(k, y) && Shape(k) && t < |k.tasks| && Waiting(k.tasks[t]) && ResultOk(k, t, result, y)
    ensures Base(Wake(k, t, result), y - {t})
  {
    hide ReadyOk, WaitOk, OwnOk, BasesOk, Next, SemsOk, QueuesOk, TimeoutOk, EpisodesOk, Without, WithoutId;
    var k' := Wake(k, t, result);
    DetachCore(k, t);
    FinishCore(Detach(k, t), t, result);
    FinishTimeouts(k, Detach(k, t), t, result, y);
    FinishEpisodes(k, Detach(k, t), t, result, y);
    WakeWaiters(k, t, result);
    ObjectsFrame(k, k');
  }

  lemma WakeInv(k: Kernel, t: Tid, result: Status, y: set<Tid>)
    requires Inv(k, y) && Shape(k) && t < |k.tasks| && Waiting(k.tasks[t]) && ResultOk(k, t, result, y)
    requires k.tasks[t].wait == Delay || !k.tasks[t].wait.list.MutexWaiters?
    ensures Inv(Wake(k, t, result), y - {t})
    ensures Exact(k) ==> Exact(Wake(k, t, result))
  {
    hide Base, Acyclic, Boosted, Exact, Without, WithoutId, Next;
    var k' := Wake(k, t, result);
    WakeBase(k, t, result, y);
    WakeNext(k, t, result);
    AcyclicSub(k, k');
    WakeWaiters(k, t, result);
    InheritanceFrame(k, k');
  }

  // ---------------------------------------------------------------------------
  // Expiry
  // ---------------------------------------------------------------------------

  /** Leaving the wait list of `m` concerns nobody but the owner of `m`. */
  lemma LeaveMutexRequired(k: Kernel, k': Kernel, m: nat, u: Tid)
    requires OwnOk(k) && u < |k.tasks|
    requires k'.prio == k.prio && k'.owned == k.owned
    requires forall j: nat :: j != m ==> WaitersOf(k', MutexWaiters(j)) == WaitersOf(k, MutexWaiters(j))
    requires MutexOf(k, m).owner != Some(u)
    ensures Required(k', u) == Required(k, u)
  {
    assert m !in k.owned[u];
    BoostFrame(k, k', k.owned[u], k.prio[u].base);
  }

  lemma LeaveMutexOthers(k: Kernel, k': Kernel, m: nat, o: Tid)
    requires OwnOk(k) && MutexOf(k, m).owner == Some(o)
    requires k'.prio == k.prio && k'.owned == k.owned
    requires forall j: nat :: j != m ==> WaitersOf(k', MutexWaiters(j)) == WaitersOf(k, MutexWaiters(j))
    ensures Boosted(k) ==> forall u: Tid :: u != o ==> BoostedAt(k', u)
    ensures Exact(k) ==> forall u: Tid :: u != o ==> ExactAt(k', u)
  {
    forall u: Tid | u != o
      ensures BoostedAt(k, u) ==> BoostedAt(k', u)
      ensures ExactAt(k, u) ==> ExactAt(k', u)
    {
      if u < |k.tasks| {
        LeaveMutexRequired(k, k', m, u);
      }
    }
  }

  /** The waited-for mutex has an owner other than the idle task. */
  lemma WaitedOwner(k: Kernel, t: Tid, m: nat)
    requires Core(k, {}) && t < |k.tasks| && k.tasks[t].wait == On(MutexWaiters(m))
    ensures MutexOf(k, m).owner.Some?
    ensures 0 <= MutexOf(k, m).owner.value < |k.tasks| && MutexOf(k, m).owner.value != IDLE
    ensures OwnOk(k) && |k.tasks| <= MAX_TASKS
  {
    assert t in WaitersOf(k, MutexWaiters(m));
  }

  /** The middle of a mutex timeout: the owner it leaves, and everyone that owner waits
      for, get back their inherited priorities. */
  lemma ExpireMutexMiddle(k: Kernel, t: Tid, m: nat, o: Tid)
    requires Core(k, {}) && Acyclic(k) && Boosted(k) && Shape(k) && t < |k.tasks|
    requires k.tasks[t].wait == On(MutexWaiters(m)) && MutexOf(k, m).owner == Some(o) && o < |k.tasks|
    ensures var k2 := Recompute(Detach(k, t), o, 0).0;
      && Core(k2, {t}) && Boosted(k2) && (Exact(k) ==> Exact(k2))
      && (forall u: Tid :: Next(k2, u) == Next(k, u))
      && k2 == Detach(k, t).(prio := k2.prio, ready := k2.ready, waiters := k2.waiters)
    ensures Recompute(Detach(k, t), o, 0).1
  {
    hide Core, Acyclic, Recompute, Required, Without, WithoutId, BoostedAt, ExactAt;
    var k1 := Detach(k, t);
    WaitedOwner(k, t, m);
    DetachCore(k, t);
    AcyclicSub(k, k1);
    OwnerChain(k1, o, {t});
    RecomputeCore(k1, o, 0, {t});
    assert forall j: nat :: j != m ==> WaitersOf(k1, MutexWaiters(j)) == WaitersOf(k, MutexWaiters(j));
    LeaveMutexOthers(k, k1, m, o);
    RecomputeBoosted(k1, o, 0, {t}, {});
    if Exact(k) {
      RecomputeExact(k1, o, 0, {t}, {});
    }
  }

  /** On an acyclic graph the recursion always has depth enough. */
  lemma OwnerChain(k: Kernel, o: Tid, x: set<Tid>)
    requires Core(k, x) && Acyclic(k) && o < |k.tasks|
    ensures NoSelfWait(k) && Ends(k, o, MAX_TASKS)
  {
    hide ReadyOk, WaitOk, TasksOk, Next;
    AcyclicNoSelfWait(k);
    ChainBounded(k, o);
  }

  lemma ExpireMutex(k: Kernel, t: Tid, m: nat, y: set<Tid>)
    requires Inv(k, y) && Shape(k) && t < |k.tasks| && t in y && Waiting(k.tasks[t])
    requires k.tasks[t].wait == On(MutexWaiters(m))
    ensures Inv(ExpireOne(k, t), y - {t})
    ensures Exact(k) ==> Exact(ExpireOne(k, t))
  {
    hide Core, SemsOk, QueuesOk, TimeoutOk, EpisodesOk, Acyclic, OnlyCurrentRuns, Boosted, Exact, Without, WithoutId,
         Recompute, Next, OwnOk;
    WaitedOwner(k, t, m);
    var o := MutexOf(k, m).owner.value;
    ExpireMutexMiddle(k, t, m, o);
    var k2 := Recompute(Detach(k, t), o, 0).0;
    assert ExpireOne(k, t) == Finish(k2, t, Timeout);
    ExpireMutexEnd(k, k2, t, m, y);
  }

  lemma ExpireMutexEnd(k: Kernel, k2: Kernel, t: Tid, m: nat, y: set<Tid>)
    requires Inv(k, y) && Shape(k) && t < |k.tasks| && t in y && Waiting(k.tasks[t])
    requires k.tasks[t].wait == On(MutexWaiters(m))
    requires Core(k2, {t}) && Boosted(k2) && Shape(k2)
    requires forall u: Tid :: Next(k2, u) == Next(k, u)
    requires k2 == Detach(k, t).(prio := k2.prio, ready := k2.ready, waiters := k2.waiters)
    ensures Inv(Finish(k2, t, Timeout), y - {t})
    ensures Exact(k2) ==> Exact(Finish(k2, t, Timeout))
  {
    hide ReadyOk, WaitOk, OwnOk, BasesOk, SemsOk, QueuesOk, TimeoutOk, EpisodesOk, Boosted, Exact, Acyclic, Without,
         WithoutId;
    var k' := Finish(k2, t, Timeout);
    FinishCore(k2, t, Timeout);
    FinishTimeouts(k, k2, t, Timeout, y);
    FinishEpisodes(k, k2, t, Timeout, y);
    FinishNext(k2, t, Timeout);
    AcyclicSub(k, k');
    InheritanceFrame(k2, k');
    EmptyStaysEmpty(k, k2, t);
    ObjectsFrame(k, k');
  }

  lemma FinishNext(k: Kernel, t: Tid, result: Status)
    requires Shape(k) && t < |k.tasks| && Waiting(k.tasks[t])
    ensures forall u: Tid :: Next(Finish(k, t, result), u) == if u == t then None else Next(k, u)
  {
  }

  lemma EmptyStaysEmpty(k: Kernel, k2: Kernel, t: Tid)
    requires Core(k, {}) && Core(k2, {t}) && k2.tasks == k.tasks
    ensures forall l :: WaitersOf(k, l) == [] ==> WaitersOf(k2, l) == []
  {
    forall l | WaitersOf(k2, l) != []
      ensures WaitersOf(k, l) != []
    {
      var u := WaitersOf(k2, l)[0];
      assert u in WaitersOf(k2, l);
      assert u in WaitersOf(k, l);
    }
  }

  /** Any expired task. */
  lemma ExpireInv(k: Kernel, t: Tid, y: set<Tid>)
    requires Inv(k, y) && Shape(k) && t < |k.tasks| && t in y && Waiting(k.tasks[t])
    ensures Inv(ExpireOne(k, t), y - {t})
    ensures Exact(k) ==> Exact(ExpireOne(k, t))
  {
    hide SemsOk, QueuesOk, TimeoutOk, EpisodesOk, Acyclic, OnlyCurrentRuns, Boosted, Exact, Recompute, Finish, Detach,
         BasesOk, WaitOk, OwnOk, ReadyOk;
    assert TaskOk(k.tasks[t]);
    match k.tasks[t].wait
    case Delay => WakeInv(k, t, Ok, y);
    case On(l) =>
      if l.MutexWaiters? {
        ExpireMutex(k, t, l.m, y);
      } else {
        WakeInv(k, t, Timeout, y);
      }
  }

  lemma ExpireFrame(k: Kernel, t: Tid, u: Tid)
    requires Shape(k) && u < |k.tasks| && u != t
    ensures ExpireOne(k, t).tasks[u] == k.tasks[u]
  {
    if t < |k.tasks| {
      hide ExpireOne;
    }
  }

  function Ids(s: seq<nat>): set<Tid> {
    set t | t in s
  }

  ghost predicate AllWaiting(k: Kernel, ids: seq<nat>) {
    forall t :: t in ids ==> t < |k.tasks| && Waiting(k.tasks[t])
  }

  /** Waking a whole batch of expired tasks. */
  lemma {:induction false} ExpireAllInv(k: Kernel, ids: seq<nat>, y: set<Tid>)
    requires Inv(k, y) && Shape(k)
    requires Distinct(ids) && y == Ids(ids)
    requires AllWaiting(k, ids)
    ensures Inv(ExpireAll(k, ids), {})
    ensures Exact(k) ==> Exact(ExpireAll(k, ids))
    decreases |ids|
  {
    hide Inv, Exact, ExpireOne;
    if ids == [] {
      assert y == {};
    } else {
      var t := ids[0];
      var k1 := ExpireOne(k, t);
      assert t in ids;
      ExpireInv(k, t, y);
      forall u | u in ids[1..]
        ensures u < |k1.tasks| && Waiting(k1.tasks[u])
      {
        assert u in ids && u != t;
        ExpireFrame(k, t, u);
      }
      assert y - {t} == Ids(ids[1..]);
      ExpireAllInv(k1, ids[1..], y - {t});
    }
  }

  // ---------------------------------------------------------------------------
  // One tick of the timeouts
  // ---------------------------------------------------------------------------

  /** Advancing splits an ordered list at `now`. */
  lemma {:induction false} DueSplit(s: seq<Entry>, now: nat)
    requires SortedByDue(s) && DistinctIds(s)
    ensures SortedByDue(NotDue(s, now)) && DistinctIds(NotDue(s, now))
    ensures Distinct(DueIds(s, now))
    ensures forall e :: e in NotDue(s, now) <==> e in s && e.due > now
    ensures forall e :: e in s && e.due <= now ==> e.id in DueIds(s, now)
    ensures forall id :: id in DueIds(s, now) ==> exists e :: e in s && e.due <= now && e.id == id
  {
    if s != [] {
      if s[0].due > now {
        assert forall e :: e in s ==> e.due > now;
      } else {
        DueSplit(s[1..], now);
        DueIdsBelong(s[1..], now);
        assert forall e :: e in s[1..] ==> e.id != s[0].id;
        DistinctCons(s[0].id, DueIds(s[1..], now));
        assert s[0] in s;
      }
    }
  }

  lemma {:induction false} DueIdsBelong(s: seq<Entry>, now: nat)
    ensures forall id :: id in DueIds(s, now) ==> exists e :: e in s && e.id == id
  {
    if s != [] && s[0].due <= now {
      DueIdsBelong(s[1..], now);
      assert s[0] in s;
    }
  }

  /** The state in which the expired tasks have left the timeout list. */
  function Advanced(k: Kernel): (r: Kernel) {
    k.(now := k.now + 1, timeouts := NotDue(k.timeouts, k.now + 1))
  }

  lemma DueEntry(s: seq<Entry>, now: nat, e: Entry)
    requires SortedByDue(s) && DistinctIds(s) && e in s
    ensures e.id in DueIds(s, now) <==> e.due <= now
    ensures e in NotDue(s, now) <==> e.due > now
  {
    DueSplit(s, now);
    if e.id in DueIds(s, now) {
      var e' :| e' in s && e'.due <= now && e'.id == e.id;
      assert e' == e;
    }
  }

  lemma AdvanceTimeouts(k: Kernel)
    requires TimeoutOk(k, {})
    ensures TimeoutOk(Advanced(k), Ids(DueIds(k.timeouts, k.now + 1)))
  {
    var now := k.now + 1;
    DueSplit(k.timeouts, now);
    forall e | e in NotDue(k.timeouts, now)
      ensures e.id !in DueIds(k.timeouts, now)
    {
      DueEntry(k.timeouts, now, e);
    }
  }

  lemma AdvanceOpen(k: Kernel, t: Tid, b: Episode)
    requires TimeoutOk(k, {}) && Shape(k) && t < |k.tasks| && OpenOk(k, {}, t, b)
    ensures OpenOk(Advanced(k), Ids(DueIds(k.timeouts, k.now + 1)), t, b)
  {
    var now := k.now + 1;
    var k' := Advanced(k);
    DueSplit(k.timeouts, now);
    if t in DueIds(k.timeouts, now) {
      var e :| e in k.timeouts && e.due <= now && e.id == t;
      assert e == Entry(t, now);
    } else {
      forall d: nat
        ensures Entry(t, d) in k'.timeouts <==> Entry(t, d) in k.timeouts
      {
        if Entry(t, d) in k.timeouts {
          DueEntry(k.timeouts, now, Entry(t, d));
        }
      }
    }
  }

  lemma AdvanceEpisode(k: Kernel, t: Tid)
    requires TimeoutOk(k, {}) && Shape(k) && t < |k.tasks| && EpisodeAt(k, {}, t)
    ensures EpisodeAt(Advanced(k), Ids(DueIds(k.timeouts, k.now + 1)), t)
  {
    hide Alternates, OpenOk, TimeoutOk;
    if |k.hist[t]| % 2 == 1 {
      AdvanceOpen(k, t, k.hist[t][|k.hist[t]| - 1]);
    }
  }

  lemma DueWaiting(k: Kernel, t: Tid)
    requires TimeoutOk(k, {}) && TasksOk(k) && t in DueIds(k.timeouts, k.now + 1)
    ensures t < |k.tasks| && Waiting(k.tasks[t])
  {
    DueSplit(k.timeouts, k.now + 1);
  }

  lemma AdvanceInv(k: Kernel)
    requires Inv(k, {}) && Shape(k)
    ensures Inv(Advanced(k), Ids(DueIds(k.timeouts, k.now + 1)))
    ensures Exact(k) ==> Exact(Advanced(k))
    ensures AllWaiting(k, DueIds(k.timeouts, k.now + 1))
    ensures Distinct(DueIds(k.timeouts, k.now + 1))
  {
    hide ReadyOk, WaitOk, OwnOk, BasesOk, Boosted, Exact, Acyclic, EpisodeAt, SemsOk, QueuesOk, DueIds, NotDue;
    var k' := Advanced(k);
    AdvanceTimeouts(k);
    var y := Ids(DueIds(k.timeouts, k.now + 1));
    forall t: Tid | t < |k.tasks|
      ensures EpisodeAt(k', y, t)
    {
      AdvanceEpisode(k, t);
    }
    forall t | t in DueIds(k.timeouts, k.now + 1)
      ensures t < |k.tasks| && Waiting(k.tasks[t])
    {
      DueWaiting(k, t);
    }
    DueSplit(k.timeouts, k.now + 1);
    AcyclicSub(k, k');
    InheritanceFrame(k, k');
    ObjectsFrame(k, k');
    AdvanceCore(k);
  }

  lemma AdvanceCore(k: Kernel)
    requires Core(k, {})
    ensures Core(Advanced(k), {})
  {
    hide ReadyOk, WaitOk, OwnOk, NotDue;
    CoreFrame(k, Advanced(k), {});
  }

  /** Waking all tasks whose deadline has come keeps the invariant, also when mutex timeouts lower owners. */
  lemma TickTimeoutsInv(k: Kernel)
    requires Inv(k, {}) && Shape(k)
    ensures Inv(TickTimeouts(k), {})
    ensures Exact(k) ==> Exact(TickTimeouts(k))
  {
    hide Inv, Exact, DueIds, NotDue, ExpireAll;
    var ids := DueIds(k.timeouts, k.now + 1);
    AdvanceInv(k);
    ExpireAllInv(Advanced(k), ids, Ids(ids));
  }
}
