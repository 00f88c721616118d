/**
 Lock and unlock: the wait-for graph stays acyclic, the lock that would close a cycle
 is the one that is refused, and inherited priorities are kept exact until such a
 refusal and never too low after it.
 */
module MutexSteps {
  import opened Config
  import opened Sequences
  import opened KernelModel
  import opened KernelInvariant
  import opened Inheritance
  import opened Blocking
  import opened Waking
  import opened Scheduling
  import opened Exchange

  // ---------------------------------------------------------------------------
  // Ownership records
  // ---------------------------------------------------------------------------

  lemma {:induction false} BoostIgnoresEmpty(k: Kernel, ms: seq<nat>, m: nat, p: nat)
    requires WaitersOf(k, MutexWaiters(m)) == []
    ensures Boost(k, ms + [m], p) == Boost(k, ms, p)
    ensures Boost(k, Without(ms, m), p) == Boost(k, ms, p)
  {
    if ms == [] {
      assert ms + [m] == [m];
    } else {
      var w := WaitersOf(k, MutexWaiters(ms[0]));
      var q := if w != [] && Eff(k.prio, w[0]) < p then Eff(k.prio, w[0]) else p;
      assert (ms + [m])[1..] == ms[1..] + [m];
      BoostIgnoresEmpty(k, ms[1..], m, q);
      if ms[0] != m {
        assert Without(ms, m)[1..] == Without(ms[1..], m);
      }
    }
  }

  lemma BoostSame(k: Kernel, k': Kernel, ms: seq<nat>, p: nat)
    requires k'.prio == k.prio && k'.waiters == k.waiters
    ensures Boost(k', ms, p) == Boost(k, ms, p)
  {
    BoostFrame(k, k', ms, p);
  }

  /** A change of ownership records that no waiter notices. */
  lemma OwnershipInv(k: Kernel, k': Kernel)
    requires Inv(k, {}) && Shape(k)
    requires k' == k.(owned := k'.owned, mutexes := k'.mutexes)
    requires OwnOk(k') && k'.owned[IDLE] == []
    requires forall u: Tid :: Next(k', u) == Next(k, u)
    requires forall u: Tid :: u < |k.tasks| ==> Required(k', u) == Required(k, u)
    ensures Inv(k', {})
    ensures Exact(k) ==> Exact(k')
  {
    hide ReadyOk, WaitOk, OwnOk, TimeoutOk, EpisodesOk, SemsOk, QueuesOk, Acyclic, Next, Required;
    OwnershipCore(k, k');
    OwnershipTime(k, k');
    AcyclicSub(k, k');
    ObjectsFrame(k, k');
    forall u: Tid
      ensures BoostedAt(k', u) && (ExactAt(k, u) ==> ExactAt(k', u))
    {
      assert BoostedAt(k, u);
    }
  }

  lemma OwnershipCore(k: Kernel, k': Kernel)
    requires Core(k, {}) && Shape(k)
    requires k' == k.(owned := k'.owned, mutexes := k'.mutexes)
    requires OwnOk(k') && k'.owned[IDLE] == []
    ensures Core(k', {})
  {
    hide OwnOk;
    assert Shape(k') by {
      OwnShape(k');
    }
    assert forall l :: WaitersOf(k', l) == WaitersOf(k, l);
  }

  lemma OwnShape(k: Kernel)
    requires OwnOk(k)
    ensures Shape(k)
  {
  }

  lemma OwnershipTime(k: Kernel, k': Kernel)
    requires TimeoutOk(k, {}) && EpisodesOk(k, {}) && OwnOk(k')
    requires k' == k.(owned := k'.owned, mutexes := k'.mutexes)
    ensures TimeoutOk(k', {}) && EpisodesOk(k', {})
  {
    hide Alternates;
    forall u: Tid | u < |k.tasks|
      ensures EpisodeAt(k', {}, u)
    {
      assert EpisodeAt(k, {}, u);
    }
  }

  /** Nobody waits for a mutex whose list is empty. */
  lemma NextWithout(k: Kernel, k': Kernel, m: nat)
    requires Core(k, {}) && k' == k.(owned := k'.owned, mutexes := k'.mutexes)
    requires WaitersOf(k, MutexWaiters(m)) == [] || MutexOf(k', m).owner == MutexOf(k, m).owner
    requires forall j: nat :: j != m ==> MutexOf(k', j) == MutexOf(k, j)
    ensures forall u: Tid :: Next(k', u) == Next(k, u)
  {
    forall u: Tid
      ensures Next(k', u) == Next(k, u)
    {
      if u < |k.tasks| && k.tasks[u].wait == On(MutexWaiters(m)) {
        assert u in WaitersOf(k, MutexWaiters(m));
      }
    }
  }

  // ---------------------------------------------------------------------------
  // Locking without waiting
  // ---------------------------------------------------------------------------

  lemma AttachOwn(k: Kernel, m: nat, t: Tid)
    requires OwnOk(k) && t < |k.tasks| && t != IDLE && MutexOf(k, m).owner.None?
    ensures OwnOk(AttachOwner(k, m, t))
  {
    var k' := AttachOwner(k, m, t);
    assert forall j: nat :: MutexOf(k', j) == if j == m then MutexOf(k, m).(owner := Some(t), count := 1)
        else MutexOf(k, j);
    assert m !in k.owned[t];
    DistinctSnoc(k.owned[t], m);
    assert forall l :: WaitersOf(k', l) == WaitersOf(k, l);
  }

  lemma AttachRequired(k: Kernel, m: nat, t: Tid, u: Tid)
    requires OwnOk(k) && t < |k.tasks| && u < |k.tasks| && WaitersOf(k, MutexWaiters(m)) == []
    ensures Required(AttachOwner(k, m, t), u) == Required(k, u)
  {
    var k' := AttachOwner(k, m, t);
    BoostSame(k, k', k'.owned[u], k.prio[u].base);
    BoostIgnoresEmpty(k, k.owned[t], m, k.prio[t].base);
  }

  lemma LockFreeInv(k: Kernel, m: nat)
    requires Inv(k, {}) && Shape(k) && k.current != IDLE && MutexOf(k, m).owner.None?
    ensures Inv(AttachOwner(k, m, k.current), {})
    ensures Exact(k) ==> Exact(AttachOwner(k, m, k.current))
  {
    hide ReadyOk, WaitOk, TasksOk, TimeoutOk, EpisodesOk, SemsOk, QueuesOk, Acyclic, Boosted, Exact, Next, Required,
         OnlyCurrentRuns;
    var c := k.current;
    var k' := AttachOwner(k, m, c);
    AttachOwn(k, m, c);
    assert WaitersOf(k, MutexWaiters(m)) == [];
    NextWithout(k, k', m);
    forall u: Tid | u < |k.tasks|
      ensures Required(k', u) == Required(k, u)
    {
      AttachRequired(k, m, c, u);
    }
    hide OwnOk;
    OwnershipInv(k, k');
  }

  /** Recursive locking and unlocking only count. */
  lemma RecountInv(k: Kernel, m: nat, n: nat)
    requires Inv(k, {}) && Shape(k) && m in k.mutexes && k.mutexes[m].owner.Some?
    requires 0 < n <= UINT32_MAX && k.mutexes[m].recursive
    ensures Inv(k.(mutexes := k.mutexes[m := k.mutexes[m].(count := n)]), {})
    ensures Exact(k) ==> Exact(k.(mutexes := k.mutexes[m := k.mutexes[m].(count := n)]))
  {
    hide ReadyOk, WaitOk, TasksOk, TimeoutOk, EpisodesOk, SemsOk, QueuesOk, Acyclic, Boosted, Exact, Next,
         OnlyCurrentRuns, Boost;
    var k' := k.(mutexes := k.mutexes[m := k.mutexes[m].(count := n)]);
    assert forall j: nat :: MutexOf(k', j) == if j == m then k.mutexes[m].(count := n) else MutexOf(k, j);
    RecountOwn(k, m, n);
    NextWithout(k, k', m);
    forall u: Tid | u < |k.tasks|
      ensures Required(k', u) == Required(k, u)
    {
      BoostSame(k, k', k.owned[u], k.prio[u].base);
    }
    hide OwnOk;
    OwnershipInv(k, k');
  }

  lemma RecountOwn(k: Kernel, m: nat, n: nat)
    requires OwnOk(k) && m in k.mutexes && k.mutexes[m].owner.Some?
    requires 0 < n <= UINT32_MAX && k.mutexes[m].recursive
    ensures OwnOk(k.(mutexes := k.mutexes[m := k.mutexes[m].(count := n)]))
  {
    var k' := k.(mutexes := k.mutexes[m := k.mutexes[m].(count := n)]);
    assert MutexOf(k, m) == k.mutexes[m];
    assert forall j: nat :: MutexOf(k', j) == if j == m then MutexOf(k, m).(count := n) else MutexOf(k, j);
    assert forall l :: WaitersOf(k', l) == WaitersOf(k, l);
  }

  // ---------------------------------------------------------------------------
  // What a recomputation does to the rest of the state
  // ---------------------------------------------------------------------------

  /** `k'` is `k` with other priorities and the list positions they imply. */
  ghost predicate Reprioritised(k: Kernel, k': Kernel) {
    && k' == k.(prio := k'.prio, ready := k'.ready, waiters := k'.waiters)
    && forall u: Tid :: Next(k', u) == Next(k, u)
  }

  lemma ReprioritisedBase(k: Kernel, k': Kernel)
    requires Base(k, {}) && Core(k', {}) && Reprioritised(k, k')
    ensures Base(k', {})
  {
    hide ReadyOk, OwnOk, BasesOk, SemsOk, QueuesOk, Next, WaitOk;
    MembersSame(k, k');
    ObjectsFrame(k, k');
    ReprioritisedTime(k, k');
  }

  lemma MembersSame(k: Kernel, k': Kernel)
    requires WaitOk(k, {}) && WaitOk(k', {}) && k'.tasks == k.tasks
    ensures forall l :: WaitersOf(k, l) == [] ==> WaitersOf(k', l) == []
  {
    forall l | WaitersOf(k', l) != []
      ensures WaitersOf(k, l) != []
    {
      var u := WaitersOf(k', l)[0];
      assert u in WaitersOf(k', l);
      assert u in WaitersOf(k, l);
    }
  }

  lemma ReprioritisedTime(k: Kernel, k': Kernel)
    requires TimeoutOk(k, {}) && EpisodesOk(k, {}) && Core(k', {})
    requires k' == k.(prio := k'.prio, ready := k'.ready, waiters := k'.waiters)
    ensures TimeoutOk(k', {}) && EpisodesOk(k', {})
  {
    hide Alternates, ReadyOk, WaitOk, OwnOk;
    forall u: Tid | u < |k.tasks|
      ensures EpisodeAt(k', {}, u)
    {
      assert EpisodeAt(k, {}, u);
    }
  }

  /** A recomputation on an acyclic graph, with the tasks in `e` not yet settled. */
  lemma RecomputeInv(k: Kernel, t: Tid, e: set<Tid>)
    requires Base(k, {}) && Acyclic(k) && Shape(k) && t < |k.tasks| && t != IDLE
    ensures var k' := Recompute(k, t, 0).0;
      && Base(k', {}) && Acyclic(k') && Reprioritised(k, k')
      && ((forall u: Tid :: u != t && u !in e ==> BoostedAt(k, u)) ==> forall u: Tid :: u !in e ==> BoostedAt(k', u))
      && ((forall u: Tid :: u != t && u !in e ==> ExactAt(k, u)) ==> forall u: Tid :: u !in e ==> ExactAt(k', u))
    ensures Recompute(k, t, 0).1
  {
    hide Core, Acyclic, Recompute, TimeoutOk, EpisodesOk, SemsOk, QueuesOk, OnlyCurrentRuns, BoostedAt, ExactAt, Next,
         Ends;
    OwnerChain(k, t, {});
    RecomputeCore(k, t, 0, {});
    var k' := Recompute(k, t, 0).0;
    ReprioritisedBase(k, k');
    AcyclicSub(k, k');
    if forall u: Tid :: u != t && u !in e ==> BoostedAt(k, u) {
      RecomputeBoosted(k, t, 0, {}, e);
    }
    if forall u: Tid :: u != t && u !in e ==> ExactAt(k, u) {
      RecomputeExact(k, t, 0, {}, e);
    }
  }

  // ---------------------------------------------------------------------------
  // Unlocking
  // ---------------------------------------------------------------------------

  lemma DetachOwn(k: Kernel, m: nat, t: Tid)
    requires OwnOk(k) && t < |k.tasks| && MutexOf(k, m).owner == Some(t)
    requires WaitersOf(k, MutexWaiters(m)) == []
    ensures OwnOk(DetachOwner(k, m, t))
  {
    var k' := DetachOwner(k, m, t);
    assert forall j: nat :: MutexOf(k', j) == if j == m then MutexOf(k, m).(owner := None, count := 0)
        else MutexOf(k, j);
    WithoutDistinct(k.owned[t], m);
    assert forall l :: WaitersOf(k', l) == WaitersOf(k, l);
  }

  lemma DetachRequired(k: Kernel, m: nat, t: Tid, u: Tid)
    requires OwnOk(k) && t < |k.tasks| && u < |k.tasks| && WaitersOf(k, MutexWaiters(m)) == []
    ensures Required(DetachOwner(k, m, t), u) == Required(k, u)
  {
    var k' := DetachOwner(k, m, t);
    BoostSame(k, k', k'.owned[u], k.prio[u].base);
    BoostIgnoresEmpty(k, k.owned[t], m, k.prio[t].base);
  }

  lemma ReleaseInv(k: Kernel, m: nat, t: Tid)
    requires Inv(k, {}) && Shape(k) && t < |k.tasks|
    requires MutexOf(k, m).owner == Some(t) && WaitersOf(k, MutexWaiters(m)) == []
    ensures Inv(DetachOwner(k, m, t), {})
    ensures Exact(k) ==> Exact(DetachOwner(k, m, t))
  {
    hide ReadyOk, WaitOk, TasksOk, TimeoutOk, EpisodesOk, SemsOk, QueuesOk, Acyclic, Boosted, Exact, Next, Required,
         OnlyCurrentRuns;
    var k' := DetachOwner(k, m, t);
    DetachOwn(k, m, t);
    NextWithout(k, k', m);
    forall u: Tid | u < |k.tasks|
      ensures Required(k', u) == Required(k, u)
    {
      DetachRequired(k, m, t, u);
    }
    assert t != IDLE;
    hide OwnOk;
    OwnershipInv(k, k');
  }

  /** Ownership of `m` has moved from `c` to its first waiter `w`, still waiting. */
  ghost function Moved(k: Kernel, m: nat, c: Tid, w: Tid): (r: Kernel)
    requires Shape(k) && c < |k.tasks| && w < |k.tasks|
    ensures Shape(r) && |r.tasks| == |k.tasks|
    ensures r == k.(owned := r.owned, mutexes := r.mutexes)
  {
    AttachOwner(DetachOwner(k, m, c), m, w)
  }

  lemma MovedOwn(k: Kernel, m: nat, c: Tid, w: Tid)
    requires OwnOk(k) && c < |k.tasks| && w < |k.tasks| && c != w && w != IDLE
    requires MutexOf(k, m).owner == Some(c)
    ensures OwnOk(Moved(k, m, c, w))
    ensures Moved(k, m, c, w).owned[IDLE] == k.owned[IDLE]
    ensures forall j: nat :: j != m ==> MutexOf(Moved(k, m, c, w), j) == MutexOf(k, j)
    ensures MutexOf(Moved(k, m, c, w), m).owner == Some(w)
    ensures forall u: Tid :: u < |k.tasks| && u != c && u != w ==> Moved(k, m, c, w).owned[u] == k.owned[u]
  {
    var k' := Moved(k, m, c, w);
    assert forall j: nat :: MutexOf(k', j) == if j == m then MutexOf(k, m).(owner := Some(w), count := 1)
        else MutexOf(k, j);
    WithoutDistinct(k.owned[c], m);
    assert m !in k.owned[w];
    DistinctSnoc(k.owned[w], m);
    assert forall l :: WaitersOf(k', l) == WaitersOf(k, l);
  }

  lemma MovedBase(k: Kernel, m: nat, c: Tid, w: Tid)
    requires Base(k, {}) && Shape(k) && c < |k.tasks| && w < |k.tasks| && c != w && w != IDLE
    requires MutexOf(k, m).owner == Some(c)
    ensures Base(Moved(k, m, c, w), {})
  {
    hide ReadyOk, WaitOk, OwnOk, TasksOk, TimeoutOk, EpisodesOk, SemsOk, QueuesOk, Moved;
    var k' := Moved(k, m, c, w);
    MovedOwn(k, m, c, w);
    OwnershipCore(k, k');
    OwnershipTime(k, k');
    ObjectsFrame(k, k');
  }

  /** The handed-over state, before the two recomputations. */
  ghost function Handed(k: Kernel, m: nat, c: Tid, w: Tid): (r: Kernel)
    requires Shape(k) && c < |k.tasks| && w < |k.tasks|
    ensures Shape(r) && |r.tasks| == |k.tasks|
  {
    Wake(Moved(k, m, c, w), w, Ok)
  }

  lemma HandedNext(k: Kernel, m: nat, c: Tid, w: Tid)
    requires Shape(k) && c < |k.tasks| && w < |k.tasks| && Waiting(k.tasks[w])
    requires Moved(k, m, c, w).tasks == k.tasks
    requires forall j: nat :: j != m ==> MutexOf(Moved(k, m, c, w), j) == MutexOf(k, j)
    requires MutexOf(Moved(k, m, c, w), m).owner == Some(w)
    ensures Next(Handed(k, m, c, w), w) == None
    ensures forall u: Tid :: Next(Handed(k, m, c, w), u) == Next(k, u) || Next(Handed(k, m, c, w), u) == None ||
                             Next(Handed(k, m, c, w), u) == Some(w)
  {
    hide Moved, Wake;
    WakeNext(Moved(k, m, c, w), w, Ok);
  }

  /** Handing over disturbs the requirements of the two owners only. */
  lemma HandedRequired(k: Kernel, m: nat, c: Tid, w: Tid, u: Tid)
    requires Core(k, {}) && c < |k.tasks| && w < |k.tasks| && u < |k.tasks| && c != w && u != c && u != w && w != IDLE
    requires MutexOf(k, m).owner == Some(c) && k.tasks[w].wait == On(MutexWaiters(m))
    ensures Required(Handed(k, m, c, w), u) == Required(k, u)
    ensures Handed(k, m, c, w).prio == k.prio
  {
    hide ReadyOk, TasksOk, WaitOk, Without, WithoutId;
    var k1 := Moved(k, m, c, w);
    var k' := Handed(k, m, c, w);
    MovedOwn(k, m, c, w);
    WakeWaiters(k1, w, Ok);
    assert forall j: nat :: j != m ==> WaitersOf(k', MutexWaiters(j)) == WaitersOf(k, MutexWaiters(j));
    assert m !in k.owned[u];
    BoostFrame(k, k', k.owned[u], k.prio[u].base);
  }

  lemma HandedInv(k: Kernel, m: nat, c: Tid, w: Tid)
    requires Inv(k, {}) && Shape(k) && c < |k.tasks| && w < |k.tasks| && c != w && w != IDLE
    requires MutexOf(k, m).owner == Some(c) && k.tasks[w].wait == On(MutexWaiters(m)) && Waiting(k.tasks[w])
    ensures Base(Handed(k, m, c, w), {}) && Acyclic(Handed(k, m, c, w))
    ensures forall u: Tid :: u != c && u != w ==> BoostedAt(Handed(k, m, c, w), u)
    ensures Exact(k) ==> forall u: Tid :: u != c && u != w ==> ExactAt(Handed(k, m, c, w), u)
  {
    hide ReadyOk, TasksOk, WaitOk, BasesOk, TimeoutOk, EpisodesOk, SemsOk, QueuesOk, OnlyCurrentRuns, Acyclic, Next,
         Required, Wake, Moved;
    var k1 := Moved(k, m, c, w);
    var k' := Handed(k, m, c, w);
    MovedOwn(k, m, c, w);
    MovedBase(k, m, c, w);
    hide OwnOk;
    WakeBase(k1, w, Ok, {});
    assert {} - {w} == {};
    HandedNext(k, m, c, w);
    AcyclicTurned(k, k', w);
    HandedSizes(k, m, c, w);
    forall u: Tid | u != c && u != w
      ensures BoostedAt(k', u) && (ExactAt(k, u) ==> ExactAt(k', u))
    {
      assert BoostedAt(k, u);
      if u < |k.tasks| {
        HandedRequired(k, m, c, w, u);
      }
    }
  }

  lemma HandedSizes(k: Kernel, m: nat, c: Tid, w: Tid)
    requires Shape(k) && c < |k.tasks| && w < |k.tasks|
    ensures Handed(k, m, c, w).prio == k.prio && |Handed(k, m, c, w).owned| == |k.owned|
  {
  }

  /** Both recomputations after a handover succeed, and together they settle everyone. */
  lemma HandOverInv(k: Kernel, m: nat, w: Tid)
    requires Inv(k, {}) && Shape(k) && w < |k.tasks| && k.current != w && w != IDLE && k.current != IDLE
    requires MutexOf(k, m).owner == Some(k.current) && k.tasks[w].wait == On(MutexWaiters(m)) && Waiting(k.tasks[w])
    ensures var (k', woken, ok) := HandOver(DetachOwner(k, m, k.current), m, w);
      && ok && Inv(k', {}) && (Exact(k) ==> Exact(k'))
      && k'.current == k.current && k'.tasks[k.current] == k.tasks[k.current] && k'.pendsv == k.pendsv
  {
    hide Base, Acyclic, Recompute, Handed, BoostedAt, ExactAt, Next, WokenFlag, Reprioritised;
    var c := k.current;
    var k1 := Handed(k, m, c, w);
    HandedInv(k, m, c, w);
    HandedFrame(k, m, c, w);
    RecomputeInv(k1, c, {w});
    var k2 := Recompute(k1, c, 0).0;
    ReprioritisedFrame(k1, k2);
    RecomputeInv(k2, w, {});
    var k3 := Recompute(k2, w, 0).0;
    ReprioritisedFrame(k2, k3);
    HandOverUnfold(k, m, w);
  }

  lemma HandOverUnfold(k: Kernel, m: nat, w: Tid)
    requires Shape(k) && w < |k.tasks|
    ensures var k1 := Handed(k, m, k.current, w);
      && Recompute(k1, k.current, 0).1 ==>
      var k3 := Recompute(Recompute(k1, k.current, 0).0, w, 0);
      HandOver(DetachOwner(k, m, k.current), m, w) == (k3.0, WokenFlag(k1, w), k3.1)
  {
    hide Recompute, Wake, WokenFlag;
  }

  lemma HandedFrame(k: Kernel, m: nat, c: Tid, w: Tid)
    requires Shape(k) && c < |k.tasks| && w < |k.tasks| && c != w
    ensures var r := Handed(k, m, c, w); r.tasks[c] == k.tasks[c] && r.current == k.current && r.pendsv == k.pendsv
  {
  }

  lemma ReprioritisedFrame(k: Kernel, k': Kernel)
    requires Reprioritised(k, k')
    ensures k'.tasks == k.tasks && k'.current == k.current && k'.pendsv == k.pendsv
  {
  }

  /** The last check of an unlock asks for every switch that is due. */
  lemma RequestPrompt(k: Kernel, woken: bool)
    requires Core(k, {}) && OnlyCurrentRuns(k) && Shape(k)
    requires k.tasks[k.current].state == Running || k.pendsv
    ensures Prompt(k.(pendsv := k.pendsv || woken || ShouldPreempt'(k)))
  {
    if k.tasks[k.current].state == Running {
      ShouldPreemptExact(k);
    }
    hide Core, ShouldPreempt;
  }

  lemma RequestGood(k: Kernel, woken: bool)
    requires Inv(k, {}) && Shape(k)
    requires k.tasks[k.current].state == Running || k.pendsv
    ensures Good(k.(pendsv := k.pendsv || woken || ShouldPreempt'(k)))
    ensures Exact(k) ==> Exact(k.(pendsv := k.pendsv || woken || ShouldPreempt'(k)))
  {
    hide Core, TimeoutOk, EpisodesOk, SemsOk, QueuesOk, OnlyCurrentRuns, Acyclic, Boosted, Exact, Prompt,
         ShouldPreempt';
    RequestPrompt(k, woken);
    FlagsInv(k, k.(pendsv := k.pendsv || woken || ShouldPreempt'(k)), {});
  }

  /** The first waiter of an owned mutex is somebody else. */
  lemma FirstWaiterIsOther(k: Kernel, m: nat, c: Tid)
    requires Core(k, {}) && Acyclic(k) && MutexOf(k, m).owner == Some(c) && WaitersOf(k, MutexWaiters(m)) != []
    ensures WaitersOf(k, MutexWaiters(m))[0] != c
  {
    FirstWaits(k, MutexWaiters(m));
    AcyclicNoSelfWait(k);
    hide Core, Acyclic;
  }

  lemma OwnerIsTask(k: Kernel, m: nat, c: Tid)
    requires Core(k, {}) && MutexOf(k, m).owner == Some(c)
    ensures c < |k.tasks| && c != IDLE
    ensures MutexOf(k, m).count <= if MutexOf(k, m).recursive then UINT32_MAX else 1
  {
  }

  lemma UnlockGood(k: Kernel, m: nat)
    requires Good(k) && Shape(k)
    ensures Good(Unlock(k, m).0)
    ensures Exact(k) ==> Exact(Unlock(k, m).0)
    ensures Unlock(k, m).1.status != Internal
  {
    hide Core, TimeoutOk, EpisodesOk, SemsOk, QueuesOk, OnlyCurrentRuns, Acyclic, BoostedAt, ExactAt, Recompute,
         HandOver, ShouldPreempt', DetachOwner, Reprioritised, NoneBetter;
    var c := k.current;
    var mx := MutexOf(k, m);
    if m in k.mutexes && mx.owner == Some(c) {
      OwnerIsTask(k, m, c);
      if mx.recursive && mx.count > 1 {
        RecountInv(k, m, mx.count - 1);
        PromptFrame(k, Unlock(k, m).0);
      } else if WaitersOf(k, MutexWaiters(m)) == [] {
        ReleaseInv(k, m, c);
        var k1 := DetachOwner(k, m, c);
        DetachOwnerFrame(k, m, c);
        RecomputeInv(k1, c, {});
        ReprioritisedFrame(k1, Recompute(k1, c, 0).0);
        RequestGood(Recompute(k1, c, 0).0, false);
      } else {
        FirstWaits(k, MutexWaiters(m));
        FirstWaiterIsOther(k, m, c);
        var w := WaitersOf(k, MutexWaiters(m))[0];
        HandOverInv(k, m, w);
        var (k', woken, ok) := HandOver(DetachOwner(k, m, c), m, w);
        RequestGood(k', woken);
      }
    }
  }

  lemma DetachOwnerFrame(k: Kernel, m: nat, c: Tid)
    requires Shape(k) && c < |k.tasks|
    ensures var r := DetachOwner(k, m, c); r.tasks == k.tasks && r.current == k.current && r.pendsv == k.pendsv
  {
  }

  // ---------------------------------------------------------------------------
  // Locking with a wait
  // ---------------------------------------------------------------------------

  /** Waiting for `m` would make the current task wait, directly or not, for itself. */
  ghost predicate WouldDeadlock(k: Kernel, m: nat) {
    MutexOf(k, m).owner.Some? && exists n: nat :: Reaches(k, MutexOf(k, m).owner.value, k.current, n)
  }

  lemma {:induction false} ReachesWithin(k: Kernel, t: Tid, c: Tid, n: nat, j: nat)
    requires Reaches(k, t, c, n) && Ends(k, t, j)
    ensures Reaches(k, t, c, j)
    decreases n
  {
    if t != c {
      ReachesWithin(k, Next(k, t).value, c, n - 1, j - 1);
    }
  }

  lemma {:induction false} EndsFrom(k: Kernel, t: Tid, c: Tid, n: nat, j: nat)
    requires Reaches(k, t, c, n) && Ends(k, t, j)
    ensures Ends(k, c, j)
    decreases n
  {
    if t != c {
      EndsFrom(k, Next(k, t).value, c, n - 1, j - 1);
      EndsMonotone(k, c, j - 1, j);
    }
  }

  /** A chain that comes back never ends. */
  lemma {:induction false} LoopNeverEnds(k: Kernel, o: Tid, c: Tid, n: nat, j: nat)
    requires Reaches(k, o, c, n) && Next(k, c) == Some(o)
    ensures !Ends(k, o, j)
    decreases j
  {
    if Ends(k, o, j) {
      EndsFrom(k, o, c, n, j);
      LoopNeverEnds(k, o, c, n, j - 1);
    }
  }

  /** The state in which the current task waits for `m` but nothing has been recomputed. */
  ghost function Queued(k: Kernel, m: nat, timeout: nat): (r: Kernel)
    requires Shape(k)
    ensures Shape(r) && |r.tasks| == |k.tasks|
  {
    BlockOn(k, MutexWaiters(m), timeout, [])
  }

  lemma QueuedBase(k: Kernel, m: nat, timeout: nat)
    requires MayBlock(k) && Base(k, {}) && MutexOf(k, m).owner.Some? && timeout > 0
    ensures Base(Queued(k, m, timeout), {})
  {
    hide ReadyOk, WaitOk, OwnOk, SemsOk, QueuesOk, TimeoutOk, EpisodesOk, InsertByPrio, InsertByDue;
    var l := MutexWaiters(m);
    BlockCore(k, l, timeout, []);
    BlockTimeouts(k, l, timeout, []);
    BlockEpisodes(k, l, timeout, []);
    BlockObjects(k, l, timeout, []);
  }

  lemma QueuedOthers(k: Kernel, m: nat, timeout: nat, o: Tid)
    requires Shape(k) && OwnOk(k) && MutexOf(k, m).owner == Some(o)
    ensures Boosted(k) ==> forall u: Tid :: u != o ==> BoostedAt(Queued(k, m, timeout), u)
    ensures Exact(k) ==> forall u: Tid :: u != o ==> ExactAt(Queued(k, m, timeout), u)
  {
    hide OwnOk, Boosted, Exact, BoostedAt, ExactAt;
    LeaveMutexOthers(k, Queued(k, m, timeout), m, o);
  }

  /** The wait stands: the graph stays acyclic and the recursion settles everyone. */
  lemma LockStands(k: Kernel, m: nat, o: Tid, timeout: nat)
    requires Inv(k, {}) && MayBlock(k) && MutexOf(k, m).owner == Some(o) && o < |k.tasks| && timeout > 0
    requires !Reaches(k, o, k.current, MAX_TASKS)
    ensures LockBlocking(k, m, o, timeout).1
    ensures Inv(LockBlocking(k, m, o, timeout).0, {})
    ensures Exact(k) ==> Exact(LockBlocking(k, m, o, timeout).0)
    ensures LockBlocking(k, m, o, timeout).0.tasks == Queued(k, m, timeout).tasks
    ensures LockBlocking(k, m, o, timeout).0.current == k.current
  {
    hide Core, TimeoutOk, EpisodesOk, SemsOk, QueuesOk, OnlyCurrentRuns, Acyclic, BoostedAt, ExactAt, Recompute,
         Reprioritised, Next, Ends, Reaches, Queued, BlockOn;
    var k1 := Queued(k, m, timeout);
    OwnerIsTask(k, m, o);
    OwnerChain(k, o, {});
    QueuedBase(k, m, timeout);
    QueuedNext(k, m, timeout);
    AcyclicAdd(k, k1, k.current, o, MAX_TASKS);
    CoreOwn(k);
    QueuedOthers(k, m, timeout, o);
    RecomputeInv(k1, o, {});
    ReprioritisedFrame(k1, Recompute(k1, o, 0).0);
    LockBlockingUnfold(k, m, o, timeout);
  }

  lemma CoreOwn(k: Kernel)
    requires Core(k, {})
    ensures OwnOk(k) && Shape(k) && |k.tasks| <= MAX_TASKS
  {
  }

  lemma QueuedNext(k: Kernel, m: nat, timeout: nat)
    requires MayBlock(k)
    ensures forall u: Tid :: u != k.current ==> Next(Queued(k, m, timeout), u) == Next(k, u)
    ensures Next(k, k.current) == None
    ensures Next(Queued(k, m, timeout), k.current) == MutexOf(k, m).owner
    ensures Queued(k, m, timeout).current == k.current
    ensures Queued(k, m, timeout).prio == k.prio && Queued(k, m, timeout).owned == k.owned
    ensures Queued(k, m, timeout).pendsv == k.pendsv
  {
    BlockNext(k, MutexWaiters(m), timeout, []);
  }

  lemma LockBlockingUnfold(k: Kernel, m: nat, o: Tid, timeout: nat)
    requires Shape(k) && o < |k.tasks|
    ensures var (k2, ok) := Recompute(Queued(k, m, timeout), o, 0);
      LockBlocking(k, m, o, timeout) == (if ok then k2 else Wake(k2, k.current, Internal), ok)
  {
    hide Recompute, BlockOn, Wake;
  }

  // ---------------------------------------------------------------------------
  // The refused lock
  // ---------------------------------------------------------------------------

  /** The tasks on the chain from `t` to `c`. */
  ghost function PathSet(k: Kernel, t: Tid, c: Tid, n: nat): (z: set<Tid>)
    requires Reaches(k, t, c, n)
    ensures t in z && c in z
    decreases n
  {
    if t == c then {c} else {t} + PathSet(k, Next(k, t).value, c, n - 1)
  }

  /** Towards its end a chain only gets more urgent. */
  lemma {:induction false} PathFacts(k: Kernel, t: Tid, c: Tid, n: nat)
    requires Core(k, {}) && Boosted(k) && Reaches(k, t, c, n)
    requires t < |k.tasks| && t != IDLE && c < |k.tasks|
    ensures forall z :: z in PathSet(k, t, c, n) ==>
      && z < |k.tasks| && z < |k.prio| && z != IDLE && k.prio[c].eff <= k.prio[z].eff && c < |k.prio|
      && (z != c ==> Next(k, z).Some? && Next(k, z).value in PathSet(k, t, c, n))
    decreases n
  {
    CoreOwn(k);
    if t != c {
      var o := Next(k, t).value;
      CoreFacts(k, t, {});
      PathFacts(k, o, c, n - 1);
      WaiterBounds(k, t, o);
      assert BoostedAt(k, o);
      hide Core;
    }
  }

  lemma {:induction false} ReachesAvoiding(k: Kernel, k': Kernel, t: Tid, c: Tid, n: nat)
    requires forall u: Tid :: u != c ==> Next(k', u) == Next(k, u)
    requires Reaches(k, t, c, n)
    ensures Reaches(k', t, c, n)
    decreases n
  {
    if t != c {
      ReachesAvoiding(k, k', Next(k, t).value, c, n - 1);
    }
  }

  /** With the caller queued, its owner's requirement is exactly the caller's priority. */
  lemma QueuedRequired(k: Kernel, m: nat, timeout: nat, o: Tid)
    requires MayBlock(k) && Core(k, {}) && Core(Queued(k, m, timeout), {})
    requires MutexOf(k, m).owner == Some(o) && o < |k.tasks|
    requires k.prio[k.current].eff <= Required(k, o)
    ensures Required(Queued(k, m, timeout), o) == k.prio[k.current].eff
  {
    var c := k.current;
    var e := k.prio[c].eff;
    var k1 := Queued(k, m, timeout);
    QueuedNext(k, m, timeout);
    WaiterBounds(k1, c, o);
    QueuedAbove(k, m, timeout, o, e);
  }

  lemma QueuedAbove(k: Kernel, m: nat, timeout: nat, o: Tid, e: nat)
    requires MayBlock(k) && WaitOk(k, {}) && WaitOk(Queued(k, m, timeout), {})
    requires o < |k.tasks| && e == k.prio[k.current].eff && e <= Required(k, o)
    ensures e <= Required(Queued(k, m, timeout), o)
  {
    var k1 := Queued(k, m, timeout);
    AboveBoost(k, k.owned[o], k.prio[o].base, e);
    AboveBoost(k1, k.owned[o], k.prio[o].base, e);
    forall j: nat, w: Tid | j in k.owned[o] && w in WaitersOf(k1, MutexWaiters(j))
      ensures e <= Eff(k1.prio, w)
    {
      assert w == k.current || w in WaitersOf(k, MutexWaiters(j));
    }
    hide Boost, WaitOk, Queued;
  }

  /** All conditions under which the recursion runs on a loop. */
  lemma QueuedOnLoop(k: Kernel, m: nat, o: Tid, timeout: nat)
    requires Inv(k, {}) && MayBlock(k) && timeout > 0
    requires MutexOf(k, m).owner == Some(o) && o < |k.tasks| && o != k.current && o != IDLE
    requires Reaches(k, o, k.current, MAX_TASKS)
    ensures OnLoop(Queued(k, m, timeout), o, k.current, 0, PathSet(k, o, k.current, MAX_TASKS), k.prio[k.current].eff)
  {
    hide Core, TimeoutOk, EpisodesOk, SemsOk, QueuesOk, OnlyCurrentRuns, Acyclic, Next, Reaches, Queued, Required,
         PathSet, OnLoop, Loop;
    var c := k.current;
    var e := k.prio[c].eff;
    var z := PathSet(k, o, c, MAX_TASKS);
    var k1 := Queued(k, m, timeout);
    QueuedBase(k, m, timeout);
    QueuedNext(k, m, timeout);
    PathFacts(k, o, c, MAX_TASKS);
    ReachesAvoiding(k, k1, o, c, MAX_TASKS);
    CoreOwn(k);
    QueuedOthers(k, m, timeout, o);
    assert BoostedAt(k, o) && o in z;
    QueuedRequired(k, m, timeout, o);
    AcyclicNoSelfWait(k);
    QueuedLoop(k, m, o, timeout, z, e);
    assert NoSelfWait(k1);
    OnLoopIntro(k1, o, c, 0, z, e);
  }

  lemma QueuedLoop(k: Kernel, m: nat, o: Tid, timeout: nat, z: set<Tid>, e: nat)
    requires MayBlock(k) && OwnOk(k) && Boosted(k) && MutexOf(k, m).owner == Some(o) && e == k.prio[k.current].eff
    requires o in z && Required(Queued(k, m, timeout), o) == e
    requires forall u :: u in z ==>
      && u < |k.tasks| && u < |k.prio| && u != IDLE && e <= k.prio[u].eff
      && (u != k.current ==> Next(k, u).Some? && Next(k, u).value in z)
    ensures Loop(Queued(k, m, timeout), z, e)
  {
    hide Next, Queued, Required, OwnOk;
    var k1 := Queued(k, m, timeout);
    QueuedNext(k, m, timeout);
    forall u | u in z
      ensures e <= Required(k1, u)
    {
      assert BoostedAt(k, u);
      if u != o {
        QueuedKeeps(k, m, timeout, o, u);
      }
    }
  }

  lemma QueuedKeeps(k: Kernel, m: nat, timeout: nat, o: Tid, u: Tid)
    requires Shape(k) && OwnOk(k) && MutexOf(k, m).owner == Some(o) && u < |k.tasks| && u != o
    ensures Required(Queued(k, m, timeout), u) == Required(k, u)
  {
    LeaveMutexRequired(k, Queued(k, m, timeout), m, u);
  }

  /** Taking a waiter out lowers nobody's requirement. */
  lemma LeaveBoosted(k: Kernel, k': Kernel, m: nat, c: Tid, o: Tid)
    requires OwnOk(k) && WaitOk(k, {}) && WaitOk(k', {}) && MutexOf(k, m).owner == Some(o)
    requires k'.prio == k.prio && k'.owned == k.owned
    requires forall j: nat :: j != m ==> WaitersOf(k', MutexWaiters(j)) == WaitersOf(k, MutexWaiters(j))
    requires WaitersOf(k', MutexWaiters(m)) == Without(WaitersOf(k, MutexWaiters(m)), c)
    requires Boosted(k)
    ensures Boosted(k')
  {
    LeaveMutexOthers(k, k', m, o);
    var e := k.prio[o].eff;
    assert BoostedAt(k, o);
    AboveBoost(k, k.owned[o], k.prio[o].base, e);
    AboveBoost(k', k.owned[o], k.prio[o].base, e);
    forall j: nat, w: Tid | j in k.owned[o] && w in WaitersOf(k', MutexWaiters(j))
      ensures e <= Eff(k.prio, w)
    {
      assert w in WaitersOf(k, MutexWaiters(j));
    }
    hide Boost, WaitOk, OwnOk;
  }

  /** The refused state before and after the wait is taken back. */
  lemma LockRefusedMiddle(k: Kernel, m: nat, o: Tid, timeout: nat)
    requires Inv(k, {}) && MayBlock(k) && timeout > 0
    requires MutexOf(k, m).owner == Some(o) && o < |k.tasks| && o != k.current && o != IDLE
    requires Reaches(k, o, k.current, MAX_TASKS)
    ensures var k1 := Queued(k, m, timeout);
      var (k2, ok) := Recompute(k1, o, 0);
      && !ok && Base(k2, {}) && Boosted(k2) && Reprioritised(k1, k2) && Core(k2, {})
      && LoopResult(k1, k2, o, PathSet(k, o, k.current, MAX_TASKS), k.prio[k.current].eff)
  {
    hide Core, TimeoutOk, EpisodesOk, SemsOk, QueuesOk, OnlyCurrentRuns, Acyclic, Next, Ends, Reaches, Queued,
         Required, PathSet, OnLoop, Recompute, BoostedAt;
    var c := k.current;
    var k1 := Queued(k, m, timeout);
    QueuedOnLoop(k, m, o, timeout);
    var z := PathSet(k, o, c, MAX_TASKS);
    var e := k.prio[c].eff;
    OnLoopFacts(k1, o, c, 0, z, e);
    LoopRecompute(k1, o, c, 0, z, e);
    RecomputeCore(k1, o, 0, {});
    QueuedNext(k, m, timeout);
    ReachesAvoiding(k, k1, o, c, MAX_TASKS);
    LoopNeverEnds(k1, o, c, MAX_TASKS, MAX_TASKS);
    QueuedBase(k, m, timeout);
    ReprioritisedBase(k1, Recompute(k1, o, 0).0);
  }

  lemma LockRefused(k: Kernel, m: nat, o: Tid, timeout: nat)
    requires Inv(k, {}) && MayBlock(k) && timeout > 0
    requires MutexOf(k, m).owner == Some(o) && o < |k.tasks| && o != k.current && o != IDLE
    requires Reaches(k, o, k.current, MAX_TASKS)
    ensures !LockBlocking(k, m, o, timeout).1
    ensures Inv(LockBlocking(k, m, o, timeout).0, {})
  {
    hide Core, TimeoutOk, EpisodesOk, SemsOk, QueuesOk, OnlyCurrentRuns, Acyclic, Next, Reaches, Queued, PathSet,
         Recompute, Boosted, Wake, LoopResult, Reprioritised;
    var c := k.current;
    var k1 := Queued(k, m, timeout);
    var k2 := Recompute(k1, o, 0).0;
    LockRefusedMiddle(k, m, o, timeout);
    LockBlockingUnfold(k, m, o, timeout);
    QueuedTask(k, k2, m, timeout);
    WakeBase(k2, c, Internal, {});
    assert {} - {c} == {};
    var k3 := Wake(k2, c, Internal);
    RefusedNext(k, k2, m, timeout);
    AcyclicSub(k, k3);
    RefusedBoosted(k2, k3, m, c, o);
  }

  lemma QueuedTask(k: Kernel, k2: Kernel, m: nat, timeout: nat)
    requires MayBlock(k) && Reprioritised(Queued(k, m, timeout), k2)
    ensures |k2.tasks| == |k.tasks| && k2.tasks[k.current].wait == On(MutexWaiters(m)) && Waiting(k2.tasks[k.current])
    ensures k2.tasks[k.current].state == Blocked
    ensures forall j: nat :: MutexOf(k2, j) == MutexOf(k, j)
    ensures k2.current == k.current
  {
  }

  lemma RefusedNext(k: Kernel, k2: Kernel, m: nat, timeout: nat)
    requires MayBlock(k) && Reprioritised(Queued(k, m, timeout), k2) && Shape(k2) && k.current < |k2.tasks|
    requires Waiting(k2.tasks[k.current])
    ensures forall u: Tid :: Next(Wake(k2, k.current, Internal), u) == Next(k, u)
    ensures |Wake(k2, k.current, Internal).tasks| == |k.tasks|
  {
    QueuedNext(k, m, timeout);
    WakeNext(k2, k.current, Internal);
    hide Next, Wake;
  }

  lemma RefusedBoosted(k2: Kernel, k3: Kernel, m: nat, c: Tid, o: Tid)
    requires Core(k2, {}) && Core(k3, {}) && Boosted(k2) && Shape(k2) && c < |k2.tasks|
    requires k3 == Wake(k2, c, Internal) && k2.tasks[c].wait == On(MutexWaiters(m)) && MutexOf(k2, m).owner == Some(o)
    ensures Boosted(k3)
  {
    hide ReadyOk, TasksOk, BasesOk, WaitOk, OwnOk, Boosted, Without, WithoutId;
    WakeWaiters(k2, c, Internal);
    LeaveBoosted(k2, k3, m, c, o);
  }

  // ---------------------------------------------------------------------------
  // The lock call
  // ---------------------------------------------------------------------------

  /** The call gets as far as queueing behind another owner. */
  predicate LockQueues(k: Kernel, m: nat, timeout: nat)
    requires k.current < |k.tasks|
  {
    && m in k.mutexes && MutexOf(k, m).owner.Some? && MutexOf(k, m).owner != Some(k.current)
    && MutexOf(k, m).owner.value < |k.tasks|
    && BlockStatus(k, timeout) == Ok
  }

  /** The call queues and is then taken back. */
  predicate LockRejected(k: Kernel, m: nat, timeout: nat)
    requires Shape(k)
  {
    LockQueues(k, m, timeout) && !LockBlocking(k, m, MutexOf(k, m).owner.value, timeout).1
  }

  lemma DeadlockWithin(k: Kernel, m: nat)
    requires Core(k, {}) && Acyclic(k) && Shape(k) && MutexOf(k, m).owner.Some?
    ensures WouldDeadlock(k, m) <==> Reaches(k, MutexOf(k, m).owner.value, k.current, MAX_TASKS)
  {
    hide Core, Acyclic, Reaches, Ends;
    var o := MutexOf(k, m).owner.value;
    OwnerIsTask(k, m, o);
    OwnerChain(k, o, {});
    forall n: nat | Reaches(k, o, k.current, n)
      ensures Reaches(k, o, k.current, MAX_TASKS)
    {
      ReachesWithin(k, o, k.current, n, MAX_TASKS);
    }
  }

  /** Main result on deadlock: of the locks that would wait, exactly those that would close
      a cycle in the wait-for graph are rejected. */
  lemma LockRejectedIff(k: Kernel, m: nat, timeout: nat)
    requires Inv(k, {}) && Shape(k) && LockQueues(k, m, timeout)
    ensures LockRejected(k, m, timeout) <==> WouldDeadlock(k, m)
  {
    hide Core, TimeoutOk, EpisodesOk, SemsOk, QueuesOk, OnlyCurrentRuns, Acyclic, Reaches, Boosted, LockBlocking,
         WouldDeadlock;
    var o := MutexOf(k, m).owner.value;
    OwnerIsTask(k, m, o);
    DeadlockWithin(k, m);
    if Reaches(k, o, k.current, MAX_TASKS) {
      LockRefused(k, m, o, timeout);
    } else {
      LockStands(k, m, o, timeout);
    }
  }

  lemma LockGood(k: Kernel, m: nat, timeout: nat)
    requires Good(k) && Shape(k) && k.current != IDLE
    ensures Good(Lock(k, m, timeout).0)
    ensures Exact(k) && !LockRejected(k, m, timeout) ==> Exact(Lock(k, m, timeout).0)
  {
    hide Core, TimeoutOk, EpisodesOk, SemsOk, QueuesOk, OnlyCurrentRuns, Acyclic, Reaches, Boosted, Exact,
         LockBlocking, NoneBetter, AttachOwner;
    var mx := MutexOf(k, m);
    if m in k.mutexes {
      if mx.owner.None? {
        LockFreeInv(k, m);
        AttachFrame(k, m, k.current);
        PromptFrame(k, AttachOwner(k, m, k.current));
      } else {
        var o := mx.owner.value;
        OwnerIsTask(k, m, o);
        if o == k.current {
          if mx.recursive && mx.count != UINT32_MAX {
            RecountInv(k, m, mx.count + 1);
            PromptFrame(k, Lock(k, m, timeout).0);
          }
        } else if BlockStatus(k, timeout) == Ok {
          if Reaches(k, o, k.current, MAX_TASKS) {
            LockRefused(k, m, o, timeout);
          } else {
            LockStands(k, m, o, timeout);
          }
          var k' := LockBlocking(k, m, o, timeout).0;
          FlagsInv(k', k'.(pendsv := true), {});
        }
      }
    }
  }

  lemma AttachFrame(k: Kernel, m: nat, t: Tid)
    requires Shape(k) && t < |k.tasks|
    ensures var r := AttachOwner(k, m, t);
      r.tasks == k.tasks && r.prio == k.prio && r.current == k.current && r.pendsv == k.pendsv
          && r.isrWoken == k.isrWoken
  {
  }

  /** A rejected caller gets `Internal`, is linked in no wait list and no timeout, and its
      episode ends where it began. */
  lemma LockRejectedOutcome(k: Kernel, m: nat, timeout: nat)
    requires Inv(k, {}) && Shape(k) && LockRejected(k, m, timeout)
    ensures var k' := Lock(k, m, timeout).0;
      && k'.tasks[k.current].state == Ready && k'.tasks[k.current].wait == NoWait
      && k'.tasks[k.current].result == Internal && k'.pendsv
      && (forall l :: k.current !in WaitersOf(k', l))
      && (forall e :: e in k'.timeouts ==> e.id != k.current)
      && |k'.hist[k.current]| == |k.hist[k.current]| + 2
      && k'.hist[k.current][|k.hist[k.current]| + 1] == Ended(Internal, k.now)
  {
    hide TimeoutOk, EpisodesOk, SemsOk, QueuesOk, OnlyCurrentRuns, Acyclic, Boosted, WaitOk, ReadyOk, OwnOk, BasesOk,
         TasksOk, Reaches, Recompute, Without, InsertByPrio;
    var o := MutexOf(k, m).owner.value;
    OwnerIsTask(k, m, o);
    LockRejectedIff(k, m, timeout);
    DeadlockWithin(k, m);
    LockRefused(k, m, o, timeout);
    LockRefusedMiddle(k, m, o, timeout);
    LockBlockingUnfold(k, m, o, timeout);
    var k2 := Recompute(Queued(k, m, timeout), o, 0).0;
    assert Lock(k, m, timeout).0 == Wake(k2, k.current, Internal).(pendsv := true);
    RefusedLinks(k, k2, m, timeout);
    assert forall l :: WaitersOf(Lock(k, m, timeout).0, l) == WaitersOf(Wake(k2, k.current, Internal), l);
  }

  /** A woken task is in no wait list. */
  lemma WokenIsUnlinked(k: Kernel, t: Tid, result: Status)
    requires Core(k, {}) && Shape(k) && t < |k.tasks|
    ensures forall l :: t !in WaitersOf(Wake(k, t, result), l)
  {
    hide ReadyOk, OwnOk, BasesOk, TasksOk, Wake;
    WakeWaiters(k, t, result);
    forall l
      ensures t !in WaitersOf(Wake(k, t, result), l)
    {
      assert t in WaitersOf(k, l) ==> k.tasks[t].wait == On(l);
    }
  }

  lemma RefusedLinks(k: Kernel, k2: Kernel, m: nat, timeout: nat)
    requires MayBlock(k) && Core(k, {}) && TimeoutOk(k, {}) && Core(k2, {}) && Shape(k2)
    requires k2 == Queued(k, m, timeout).(prio := k2.prio, ready := k2.ready, waiters := k2.waiters)
    ensures var k' := Wake(k2, k.current, Internal);
      && k'.tasks[k.current].state == Ready && k'.tasks[k.current].wait == NoWait
      && k'.tasks[k.current].result == Internal
      && (forall l :: k.current !in WaitersOf(k', l))
      && (forall e :: e in k'.timeouts ==> e.id != k.current)
      && |k'.hist[k.current]| == |k.hist[k.current]| + 2
      && k'.hist[k.current][|k.hist[k.current]| + 1] == Ended(Internal, k.now)
  {
    hide ReadyOk, OwnOk, BasesOk, TasksOk, InsertByPrio, InsertByDue;
    WakeWaiters(k2, k.current, Internal);
    WokenIsUnlinked(k2, k.current, Internal);
  }

  // ---------------------------------------------------------------------------
  // When a rejection costs exactness
  // ---------------------------------------------------------------------------

  lemma {:induction false} WithoutInserted(prio: seq<Prio>, s: seq<Tid>, t: Tid)
    requires t !in s
    ensures Without(InsertByPrio(prio, s, t), t) == s
  {
    if s != [] && Eff(prio, t) >= Eff(prio, s[0]) {
      var r := InsertByPrio(prio, s[1..], t);
      WithoutInserted(prio, s[1..], t);
      assert ([s[0]] + r)[1..] == r;
    } else {
      assert ([t] + s)[1..] == s;
      WithoutAbsent(s, t);
    }
  }

  /** Nobody on the owner's chain waits for the owner. */
  lemma {:induction false} PathIsChain(k: Kernel, o: Tid, t: Tid, c: Tid, i: nat, n: nat, u: Tid)
    requires Reaches(k, o, t, i) && Reaches(k, t, c, n) && u in PathSet(k, t, c, n)
    ensures exists j: nat :: Reaches(k, o, u, j)
    decreases n
  {
    if u != t {
      var v := Next(k, t).value;
      ReachesStep(k, o, t, i);
      PathIsChain(k, o, v, c, i + 1, n - 1, u);
    }
  }

  lemma {:induction false} ReachesStep(k: Kernel, o: Tid, t: Tid, i: nat)
    requires Reaches(k, o, t, i) && Next(k, t).Some?
    ensures Reaches(k, o, Next(k, t).value, i + 1)
    decreases i
  {
    if o != t {
      ReachesStep(k, Next(k, o).value, t, i - 1);
    } else {
      assert Reaches(k, Next(k, t).value, Next(k, t).value, i);
    }
  }

  lemma PathAvoidsOwner(k: Kernel, o: Tid, c: Tid, n: nat, u: Tid)
    requires OwnOk(k) && Acyclic(k) && o < |k.tasks|
    requires Reaches(k, o, c, n) && u in PathSet(k, o, c, n)
    ensures Next(k, u) != Some(o)
  {
    PathIsChain(k, o, o, c, 0, n, u);
    var j: nat :| Reaches(k, o, u, j);
    assert ChainEnds(k, o);
    var i: nat :| Ends(k, o, i);
    if Next(k, u) == Some(o) {
      LoopNeverEnds(k, o, u, j, i);
    }
  }

  /** A task that waits for one of `o`'s mutexes waits for `o`. */
  lemma WaiterOfOwner(k: Kernel, o: Tid, j: nat, w: Tid)
    requires Core(k, {}) && o < |k.tasks| && j in k.owned[o] && w in WaitersOf(k, MutexWaiters(j))
    ensures Next(k, w) == Some(o) && w < |k.tasks|
  {
    assert MutexOf(k, j).owner == Some(o);
    assert TaskOk(k.tasks[w]);
  }

  /** Same waiters, and the same priorities for those that wait for `o`. */
  lemma OwnerRequiredFrame(k: Kernel, k3: Kernel, o: Tid, z: set<Tid>)
    requires Shape(k) && Core(k, {}) && WaitOk(k3, {}) && o < |k.tasks| && k3.owned == k.owned && |k3.prio| == |k.prio|
    requires forall l, w: Tid {:trigger w in WaitersOf(k3, l)} :: w in WaitersOf(k3, l) <==> w in WaitersOf(k, l)
    requires forall u: Tid :: u < |k.prio| && u !in z ==> k3.prio[u] == k.prio[u]
    requires k3.prio[o].base == k.prio[o].base
    requires forall u :: u in z ==> Next(k, u) != Some(o)
    ensures Required(k3, o) == Required(k, o)
  {
    hide ReadyOk, BasesOk, TasksOk, OwnOk, Next, Boost;
    var p := Required(k, o);
    var p3 := Required(k3, o);
    AboveBoost(k, k.owned[o], k.prio[o].base, p);
    AboveBoost(k3, k.owned[o], k.prio[o].base, p);
    AboveBoost(k, k.owned[o], k.prio[o].base, p3);
    AboveBoost(k3, k.owned[o], k.prio[o].base, p3);
    forall j: nat, w: Tid | j in k.owned[o] && w in WaitersOf(k, MutexWaiters(j))
      ensures Eff(k3.prio, w) == Eff(k.prio, w)
    {
      WaiterOfOwner(k, o, j, w);
    }
    AboveFrame(k, k3, k.owned[o], p);
    AboveFrame(k, k3, k.owned[o], p3);
  }

  lemma AboveFrame(k: Kernel, k3: Kernel, ms: seq<nat>, e: nat)
    requires forall l, w: Tid {:trigger w in WaitersOf(k3, l)} :: w in WaitersOf(k3, l) <==> w in WaitersOf(k, l)
    requires forall j: nat, w: Tid :: j in ms && w in WaitersOf(k, MutexWaiters(j)) ==>
      Eff(k3.prio, w) == Eff(k.prio, w)
    ensures Above(k, ms, e) <==> Above(k3, ms, e)
  {
    if Above(k, ms, e) {
      forall j: nat, w: Tid | j in ms && w in WaitersOf(k3, MutexWaiters(j))
        ensures e <= Eff(k3.prio, w)
      {
        assert w in WaitersOf(k, MutexWaiters(j));
      }
    }
    if Above(k3, ms, e) {
      forall j: nat, w: Tid | j in ms && w in WaitersOf(k, MutexWaiters(j))
        ensures e <= Eff(k.prio, w)
      {
        assert w in WaitersOf(k3, MutexWaiters(j));
      }
    }
  }

  /** What a rejected lock leaves behind, compared with the state before the call. */
  ghost predicate RefusedEffect(k: Kernel, k3: Kernel, o: Tid, z: set<Tid>, e: nat) {
    && |k3.prio| == |k.prio| && o < |k.prio| && k3.owned == k.owned
    && (forall u: Tid :: u < |k.prio| ==> k3.prio[u] == k.prio[u] || (u in z && k3.prio[u] == Prio(k.prio[u].base, e)))
    && k3.prio[o].eff == e
    && (forall l, w: Tid {:trigger w in WaitersOf(k3, l)} :: w in WaitersOf(k3, l) <==> w in WaitersOf(k, l))
    && (k.prio[o].eff == e ==> k3.prio == k.prio && forall l :: WaitersOf(k3, l) == WaitersOf(k, l))
  }

  lemma LockRefusedEffect(k: Kernel, m: nat, o: Tid, timeout: nat)
    requires Inv(k, {}) && MayBlock(k) && timeout > 0
    requires MutexOf(k, m).owner == Some(o) && o < |k.tasks| && o != k.current && o != IDLE
    requires Reaches(k, o, k.current, MAX_TASKS)
    ensures RefusedEffect(k, LockBlocking(k, m, o, timeout).0, o, PathSet(k, o, k.current, MAX_TASKS),
      k.prio[k.current].eff)
  {
    hide TimeoutOk, EpisodesOk, SemsOk, QueuesOk, OnlyCurrentRuns, Acyclic, Boosted, ReadyOk, OwnOk, BasesOk, WaitOk,
         TasksOk, Reaches, Recompute, PathSet, BlockOn, Wake, Reprioritised, LoopResult, RefusedEffect;
    LockRefusedMiddle(k, m, o, timeout);
    LockBlockingUnfold(k, m, o, timeout);
    RefusedCompare(k, Recompute(Queued(k, m, timeout), o, 0).0, m, o, timeout, PathSet(k, o, k.current, MAX_TASKS),
        k.prio[k.current].eff);
  }

  lemma RefusedCompare(k: Kernel, k2: Kernel, m: nat, o: Tid, timeout: nat, z: set<Tid>, e: nat)
    requires MayBlock(k) && TasksOk(k) && WaitOk(k, {}) && Shape(k2) && WaitOk(k2, {})
    requires Reprioritised(Queued(k, m, timeout), k2) && LoopResult(Queued(k, m, timeout), k2, o, z, e)
    ensures |k2.tasks| == |k.tasks|
    ensures RefusedEffect(k, Wake(k2, k.current, Internal), o, z, e)
  {
    hide Boosted, Next, WithoutId;
    var c := k.current;
    var k1 := Queued(k, m, timeout);
    var k3 := Wake(k2, c, Internal);
    QueuedWaits(k, m, timeout);
    WakeWaiters(k2, c, Internal);
    forall l, w: Tid
      ensures w in WaitersOf(k3, l) <==> w in WaitersOf(k, l)
    {
      assert w in WaitersOf(k2, l) <==> w < |k.tasks| && k1.tasks[w].wait == On(l);
    }
  }

  lemma QueuedWaits(k: Kernel, m: nat, timeout: nat)
    requires MayBlock(k) && TasksOk(k) && WaitOk(k, {})
    ensures var k1 := Queued(k, m, timeout);
      && k1.tasks[k.current].wait == On(MutexWaiters(m))
      && (forall u: Tid :: u < |k.tasks| && u != k.current ==> k1.tasks[u] == k.tasks[u])
      && (forall l :: (if l == MutexWaiters(m) then Without(WaitersOf(k1, l), k.current)
          else WaitersOf(k1, l)) == WaitersOf(k, l))
      && forall l :: k.current !in WaitersOf(k, l)
  {
    assert forall l :: k.current !in WaitersOf(k, l);
    WithoutInserted(k.prio, WaitersOf(k, MutexWaiters(m)), k.current);
  }

  /** From exactly inherited priorities, a rejected lock leaves them exact if and only if the
      owner it queued behind already had the caller's priority. */
  lemma LockRejectedExactIff(k: Kernel, m: nat, timeout: nat)
    requires Inv(k, {}) && Exact(k) && Shape(k) && LockRejected(k, m, timeout)
    ensures Exact(Lock(k, m, timeout).0) <==> k.prio[MutexOf(k, m).owner.value].eff == k.prio[k.current].eff
  {
    hide Core, TimeoutOk, EpisodesOk, SemsOk, QueuesOk, OnlyCurrentRuns, Acyclic, Reaches, Boosted, LockBlocking,
         WouldDeadlock, PathSet, ExactAt, Next;
    var o := MutexOf(k, m).owner.value;
    var k3 := LockBlocking(k, m, o, timeout).0;
    OwnerIsTask(k, m, o);
    LockRejectedIff(k, m, timeout);
    DeadlockWithin(k, m);
    LockRefused(k, m, o, timeout);
    LockRefusedEffect(k, m, o, timeout);
    CoreOwn(k);
    forall u | u in PathSet(k, o, k.current, MAX_TASKS)
      ensures Next(k, u) != Some(o)
    {
      PathAvoidsOwner(k, o, k.current, MAX_TASKS, u);
    }
    ExactIff(k, k3, o, PathSet(k, o, k.current, MAX_TASKS), k.prio[k.current].eff);
    InheritanceFrame(k3, k3.(pendsv := true));
    InheritanceFrame(k3.(pendsv := true), k3);
  }

  lemma ExactIff(k: Kernel, k3: Kernel, o: Tid, z: set<Tid>, e: nat)
    requires Shape(k) && Core(k, {}) && Core(k3, {}) && Exact(k) && RefusedEffect(k, k3, o, z, e) && o < |k.tasks|
    requires forall u :: u in z ==> Next(k, u) != Some(o)
    ensures Exact(k3) <==> k.prio[o].eff == e
  {
    hide ReadyOk, BasesOk, TasksOk, OwnOk, Next, Required;
    if k.prio[o].eff == e {
      InheritanceFrame(k, k3);
    }
    if Exact(k3) {
      assert ExactAt(k3, o) && ExactAt(k, o);
      OwnerRequiredFrame(k, k3, o, z);
    }
  }
}
