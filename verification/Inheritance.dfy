/**
 Chained priority inheritance: the bounded recursion restores the inherited
 priorities on every acyclic wait-for graph, and fails exactly on a cycle.
 */
module Inheritance {
  import opened Config
  import opened Sequences
  import opened KernelModel
  import opened KernelInvariant

  // ---------------------------------------------------------------------------
  // The computed requirement is the declared minimum
  // ---------------------------------------------------------------------------

  lemma {:induction false} BoostIsMinimum(k: Kernel, ms: seq<nat>, p: nat)
    requires forall l :: SortedByPrio(k.prio, WaitersOf(k, l))
    ensures forall m: nat, w: Tid {:trigger w in WaitersOf(k, MutexWaiters(m))} ::
              m in ms && w in WaitersOf(k, MutexWaiters(m)) ==> Boost(k, ms, p) <= Eff(k.prio, w)
    ensures Boost(k, ms, p) == p || exists m: nat, w: Tid {:trigger w in WaitersOf(k, MutexWaiters(m))} ::
              m in ms && w in WaitersOf(k, MutexWaiters(m)) && Boost(k, ms, p) == Eff(k.prio, w)
  {
    if ms != [] {
      var ws := WaitersOf(k, MutexWaiters(ms[0]));
      var q := if ws != [] && Eff(k.prio, ws[0]) < p then Eff(k.prio, ws[0]) else p;
      BoostIsMinimum(k, ms[1..], q);
      assert forall w: Tid :: w in ws ==> q <= Eff(k.prio, w);
      assert q != p ==> ws[0] in ws && ms[0] in ms;
    }
  }

  lemma RequiredIsInherited(k: Kernel, t: Tid)
    requires OwnOk(k) && t < |k.tasks|
    requires forall l :: SortedByPrio(k.prio, WaitersOf(k, l))
    ensures IsInherited(k, t, Required(k, t))
  {
    BoostIsMinimum(k, k.owned[t], k.prio[t].base);
  }

  /** The computed requirement depends only on the listed mutexes' waiters. */
  lemma {:induction false} BoostFrame(k: Kernel, k': Kernel, ms: seq<nat>, p: nat)
    requires forall m :: m in ms ==> WaitersOf(k', MutexWaiters(m)) == WaitersOf(k, MutexWaiters(m))
    requires forall m: nat, w: Tid {:trigger w in WaitersOf(k, MutexWaiters(m))} ::
               m in ms && w in WaitersOf(k, MutexWaiters(m)) ==> Eff(k'.prio, w) == Eff(k.prio, w)
    ensures Boost(k', ms, p) == Boost(k, ms, p)
  {
    if ms != [] {
      var ws := WaitersOf(k, MutexWaiters(ms[0]));
      assert ms[0] in ms && (ws != [] ==> ws[0] in ws);
      BoostFrame(k, k', ms[1..], if ws != [] && Eff(k.prio, ws[0]) < p then Eff(k.prio, ws[0]) else p);
    }
  }

  // ---------------------------------------------------------------------------
  // Changing one effective priority
  // ---------------------------------------------------------------------------

  lemma {:induction false} InsertSorted(prio: seq<Prio>, s: seq<Tid>, t: Tid)
    requires SortedByPrio(prio, s)
    ensures SortedByPrio(prio, InsertByPrio(prio, s, t))
  {
    if s != [] && Eff(prio, t) >= Eff(prio, s[0]) {
      InsertSorted(prio, s[1..], t);
      var r := InsertByPrio(prio, s[1..], t);
      assert forall x :: x in r ==> Eff(prio, s[0]) <= Eff(prio, x);
    }
  }

  lemma {:induction false} InsertDistinct(prio: seq<Prio>, s: seq<Tid>, t: Tid)
    requires Distinct(s) && t !in s
    ensures Distinct(InsertByPrio(prio, s, t))
  {
    if s != [] && Eff(prio, t) >= Eff(prio, s[0]) {
      InsertDistinct(prio, s[1..], t);
      DistinctCons(s[0], InsertByPrio(prio, s[1..], t));
    }
  }

  lemma {:induction false} WithoutSorted(prio: seq<Prio>, s: seq<Tid>, t: Tid)
    requires SortedByPrio(prio, s)
    ensures SortedByPrio(prio, Without(s, t))
  {
    if s != [] {
      WithoutSorted(prio, s[1..], t);
      assert forall x :: x in s[1..] ==> Eff(prio, s[0]) <= Eff(prio, x);
    }
  }

  /** Sortedness only looks at the priorities of the members. */
  lemma SortedFrame(prio: seq<Prio>, prio': seq<Prio>, s: seq<Tid>)
    requires SortedByPrio(prio, s)
    requires forall x :: x in s ==> Eff(prio', x) == Eff(prio, x)
    ensures SortedByPrio(prio', s)
  {
  }

  lemma SetEffWaitList(k: Kernel, t: Tid, p: nat, x: set<Tid>, l: ListId)
    requires Shape(k) && t < |k.tasks| && p < PRIORITY_COUNT
    requires Distinct(WaitersOf(k, l)) && SortedByPrio(k.prio, WaitersOf(k, l))
    requires t in WaitersOf(k, l) ==> k.tasks[t].wait == On(l)
    ensures Distinct(WaitersOf(SetEff(k, t, p), l))
    ensures SortedByPrio(SetEff(k, t, p).prio, WaitersOf(SetEff(k, t, p), l))
    ensures forall u: Tid :: u in WaitersOf(SetEff(k, t, p), l) <==> u in WaitersOf(k, l)
  {
    var k' := SetEff(k, t, p);
    var s := WaitersOf(k, l);
    if t in s && k.prio[t].eff != p {
      var r := Without(s, t);
      WithoutDistinct(s, t);
      WithoutSorted(k.prio, s, t);
      SortedFrame(k.prio, k'.prio, r);
      InsertDistinct(k'.prio, r, t);
      InsertSorted(k'.prio, r, t);
    } else if t !in s {
      assert WaitersOf(k', l) == s;
      SortedFrame(k.prio, k'.prio, s);
    }
  }

  lemma SetEffWait(k: Kernel, t: Tid, p: nat, x: set<Tid>)
    requires Shape(k) && t < |k.tasks| && p < PRIORITY_COUNT
    requires WaitOk(k, x)
    ensures WaitOk(SetEff(k, t, p), x)
  {
    hide SetEff;
    forall l
      ensures Distinct(WaitersOf(SetEff(k, t, p), l))
      ensures SortedByPrio(SetEff(k, t, p).prio, WaitersOf(SetEff(k, t, p), l))
      ensures forall u: Tid :: u in WaitersOf(SetEff(k, t, p), l) <==> u in WaitersOf(k, l)
    {
      SetEffWaitList(k, t, p, x, l);
    }
  }

  lemma SetEffReady(k: Kernel, t: Tid, p: nat)
    requires Shape(k) && t < |k.tasks| && p < PRIORITY_COUNT
    requires ReadyOk(k)
    ensures ReadyOk(SetEff(k, t, p))
  {
    var q := k.prio[t].eff;
    var r := SetEff(k, t, p).ready;
    if p != q && t in k.ready[q] {
      WithoutDistinct(k.ready[q], t);
      assert t !in k.ready[p];
      DistinctSnoc(k.ready[p], t);
      assert r == k.ready[q := Without(k.ready[q], t)][p := k.ready[p] + [t]];
      hide Distinct, Without, SetEff;
    }
  }

  /** Which requirements a change of `t`'s priority leaves alone. */
  lemma SetEffRequired(k: Kernel, t: Tid, p: nat, x: set<Tid>, u: Tid)
    requires t < |k.tasks| && u < |k.tasks| && p < PRIORITY_COUNT
    requires WaitOk(k, x) && OwnOk(k) && TasksOk(k)
    requires Next(k, t) != Some(u)
    ensures Required(SetEff(k, t, p), u) == Required(k, u)
  {
    var k' := SetEff(k, t, p);
    forall m | m in k.owned[u]
      ensures t !in WaitersOf(k, MutexWaiters(m))
    {
      assert MutexOf(k, m).owner == Some(u);
    }
    BoostFrame(k, k', k.owned[u], k.prio[u].base);
  }

  lemma SetEffOwn(k: Kernel, t: Tid, p: nat, x: set<Tid>)
    requires WaitOk(k, x) && OwnOk(k) && t < |k.tasks| && p < PRIORITY_COUNT
    ensures OwnOk(SetEff(k, t, p))
  {
    SetEffWait(k, t, p, x);
    var k' := SetEff(k, t, p);
    hide SetEff;
    assert Shape(k');
    assert forall m: nat :: MutexOf(k', m) == MutexOf(k, m);
    assert k'.owned == k.owned && |k'.tasks| == |k.tasks|;
    forall m: nat | WaitersOf(k', MutexWaiters(m)) != []
      ensures MutexOf(k', m).owner.Some?
    {
      var u := WaitersOf(k', MutexWaiters(m))[0];
      assert u in WaitersOf(k', MutexWaiters(m));
      assert u in WaitersOf(k, MutexWaiters(m));
    }
  }

  lemma SetEffCore(k: Kernel, t: Tid, p: nat, x: set<Tid>)
    requires Core(k, x) && t < |k.tasks| && t != IDLE && p < PRIORITY_COUNT
    ensures Core(SetEff(k, t, p), x)
    ensures forall u: Tid :: Next(SetEff(k, t, p), u) == Next(k, u)
  {
    SetEffReady(k, t, p);
    SetEffWait(k, t, p, x);
    SetEffOwn(k, t, p, x);
    hide SetEff, ReadyOk, WaitOk, OwnOk;
  }

  // ---------------------------------------------------------------------------
  // Chains
  // ---------------------------------------------------------------------------

  lemma {:induction false} EndsFrame(k: Kernel, k': Kernel, t: Tid, n: nat)
    requires forall u: Tid :: Next(k', u) == Next(k, u)
    ensures Ends(k', t, n) == Ends(k, t, n)
    decreases n
  {
    match Next(k, t)
    case None =>
    case Some(o) =>
      if n > 0 {
        EndsFrame(k, k', o, n - 1);
      }
  }

  lemma {:induction false} EndsMonotone(k: Kernel, t: Tid, n: nat, m: nat)
    requires Ends(k, t, n) && n <= m
    ensures Ends(k, t, m)
    decreases n
  {
    match Next(k, t)
    case None =>
    case Some(o) => EndsMonotone(k, o, n - 1, m - 1);
  }

  /** The tasks on a chain that ends. */
  ghost function Chain(k: Kernel, t: Tid, n: nat): (s: seq<Tid>)
    requires Ends(k, t, n)
    ensures |s| > 0 && s[0] == t
    decreases n
  {
    match Next(k, t)
    case None => [t]
    case Some(o) => [t] + Chain(k, o, n - 1)
  }

  lemma {:induction false} ChainUnique(k: Kernel, t: Tid, n: nat, m: nat)
    requires Ends(k, t, n) && Ends(k, t, m)
    ensures Chain(k, t, n) == Chain(k, t, m)
    decreases n
  {
    match Next(k, t)
    case None =>
    case Some(o) => ChainUnique(k, o, n - 1, m - 1);
  }

  /** Each task on a chain starts a chain no longer than the rest of it. */
  lemma {:induction false} ChainSuffix(k: Kernel, t: Tid, n: nat, u: Tid)
    requires Ends(k, t, n) && u in Chain(k, t, n)
    ensures Ends(k, u, n) && |Chain(k, u, n)| <= |Chain(k, t, n)|
    decreases n
  {
    if u != t {
      var o := Next(k, t).value;
      ChainSuffix(k, o, n - 1, u);
      EndsMonotone(k, u, n - 1, n);
      ChainUnique(k, u, n - 1, n);
    }
  }

  lemma {:induction false} ChainDistinct(k: Kernel, t: Tid, n: nat)
    requires OwnOk(k) && t < |k.tasks|
    requires Ends(k, t, n)
    ensures Distinct(Chain(k, t, n))
    ensures forall u :: u in Chain(k, t, n) ==> u < |k.tasks|
    decreases n
  {
    match Next(k, t)
    case None =>
    case Some(o) =>
      ChainDistinct(k, o, n - 1);
      if t in Chain(k, o, n - 1) {
        ChainSuffix(k, o, n - 1, t);
        ChainUnique(k, t, n - 1, n);
      }
      DistinctCons(t, Chain(k, o, n - 1));
  }

  lemma {:induction false} EndsByLength(k: Kernel, t: Tid, n: nat)
    requires Ends(k, t, n)
    ensures Ends(k, t, |Chain(k, t, n)| - 1)
    decreases n
  {
    match Next(k, t)
    case None =>
    case Some(o) => EndsByLength(k, o, n - 1);
  }

  /** A chain that ends does so within the number of tasks. */
  lemma ChainBounded(k: Kernel, t: Tid)
    requires OwnOk(k) && t < |k.tasks| <= MAX_TASKS
    requires ChainEnds(k, t)
    ensures Ends(k, t, MAX_TASKS)
  {
    var n: nat :| Ends(k, t, n);
    ChainDistinct(k, t, n);
    DistinctBounded(Chain(k, t, n), |k.tasks|);
    EndsByLength(k, t, n);
    EndsMonotone(k, t, |Chain(k, t, n)| - 1, MAX_TASKS);
  }

  lemma AcyclicNoSelfWait(k: Kernel)
    requires OwnOk(k) && Acyclic(k)
    ensures NoSelfWait(k)
  {
    forall t: Tid
      ensures Next(k, t) != Some(t)
    {
      if Next(k, t) == Some(t) {
        assert ChainEnds(k, t);
        var n: nat :| Ends(k, t, n);
        SelfLoopNeverEnds(k, t, n);
      }
    }
  }

  lemma {:induction false} SelfLoopNeverEnds(k: Kernel, t: Tid, n: nat)
    requires Next(k, t) == Some(t)
    ensures !Ends(k, t, n)
    decreases n
  {
    if n > 0 {
      SelfLoopNeverEnds(k, t, n - 1);
    }
  }

  // ---------------------------------------------------------------------------
  // The recursion
  // ---------------------------------------------------------------------------

  /** One link of the recursion. */
  ghost function Relink(k: Kernel, t: Tid): (r: Kernel)
    requires Shape(k) && t < |k.tasks| && Required(k, t) < PRIORITY_COUNT
    ensures Shape(r) && |r.tasks| == |k.tasks|
    ensures r == k.(prio := r.prio, ready := r.ready, waiters := r.waiters)
  {
    SetEff(k, t, Required(k, t))
  }

  lemma RecomputeUnfold(k: Kernel, t: Tid, d: nat)
    requires Shape(k) && t < |k.tasks| && d <= MAX_TASKS && Required(k, t) < IDLE_PRIORITY
    requires Next(k, t).Some? ==> Next(k, t).value != t && Next(k, t).value < |k.tasks|
    ensures Recompute(k, t, d) ==
      if Next(k, t).None? then (Relink(k, t), true) else Recompute(Relink(k, t), Next(k, t).value, d + 1)
  {
    assert Next(Relink(k, t), t) == Next(k, t);
  }

  lemma RecomputeStop(k: Kernel, t: Tid, d: nat)
    requires Shape(k) && t < |k.tasks| && d > MAX_TASKS
    ensures Recompute(k, t, d) == (k, false)
  {
  }

  lemma RelinkCore(k: Kernel, t: Tid, x: set<Tid>)
    requires Core(k, x) && Shape(k) && t < |k.tasks| && t != IDLE && Required(k, t) < PRIORITY_COUNT
    ensures Core(Relink(k, t), x)
    ensures forall u: Tid :: Next(Relink(k, t), u) == Next(k, u)
  {
    hide Core, SetEff, Required, Next;
    SetEffCore(k, t, Required(k, t), x);
  }

  lemma CoreFacts(k: Kernel, t: Tid, x: set<Tid>)
    requires Core(k, x) && t < |k.tasks| && t != IDLE
    ensures Shape(k) && Required(k, t) < IDLE_PRIORITY
    ensures Next(k, t).Some? ==> Next(k, t).value < |k.tasks| && Next(k, t).value != IDLE
  {
  }

  /** The recursion succeeds exactly when the chain ends within the remaining depth,
      and it changes nothing but priorities and the places they determine. */
  lemma {:induction false} RecomputeCore(k: Kernel, t: Tid, d: nat, x: set<Tid>)
    requires Core(k, x) && NoSelfWait(k) && Shape(k) && t < |k.tasks| && t != IDLE
    ensures Core(Recompute(k, t, d).0, x)
    ensures forall u: Tid :: Next(Recompute(k, t, d).0, u) == Next(k, u)
    ensures Recompute(k, t, d).1 <==> d <= MAX_TASKS && Ends(k, t, MAX_TASKS - d)
    ensures var k' := Recompute(k, t, d).0; k' == k.(prio := k'.prio, ready := k'.ready, waiters := k'.waiters)
    decreases MAX_TASKS + 1 - d
  {
    hide Core, SetEff, Required, Next, Recompute, Relink;
    if d <= MAX_TASKS {
      CoreFacts(k, t, x);
      RecomputeUnfold(k, t, d);
      RelinkCore(k, t, x);
      match Next(k, t)
      case None =>
      case Some(o) =>
        RecomputeCore(Relink(k, t), o, d + 1, x);
        if d < MAX_TASKS {
          EndsFrame(k, Relink(k, t), o, MAX_TASKS - d - 1);
        }
    } else {
      RecomputeStop(k, t, d);
    }
  }

  /** After one link, only the next owner's requirement may have moved. */
  lemma RelinkRequired(k: Kernel, t: Tid, x: set<Tid>, u: Tid)
    requires Core(k, x) && t < |k.tasks| && t != IDLE && u < |k.tasks|
    requires Next(k, t) != Some(u)
    ensures Required(k, t) < PRIORITY_COUNT
    ensures Required(Relink(k, t), u) == Required(k, u)
    ensures Relink(k, t).prio[u] == if u == t then Prio(k.prio[t].base, Required(k, t)) else k.prio[u]
  {
    CoreFacts(k, t, x);
    SetEffRequired(k, t, Required(k, t), x, u);
    hide Core;
  }

  lemma RelinkAt(k: Kernel, t: Tid, x: set<Tid>, u: Tid)
    requires Core(k, x) && t < |k.tasks| && t != IDLE
    requires Next(k, t) != Some(u)
    ensures Shape(k) && Required(k, t) < PRIORITY_COUNT
    ensures u == t || ExactAt(k, u) ==> ExactAt(Relink(k, t), u)
    ensures u == t || BoostedAt(k, u) ==> BoostedAt(Relink(k, t), u)
    ensures u < |k.tasks| ==> Relink(k, t).prio[u] == if u == t then Prio(k.prio[t].base, Required(k, t)) else k.prio[u]
  {
    CoreFacts(k, t, x);
    if u < |k.tasks| {
      RelinkRequired(k, t, x, u);
    }
    hide Core, SetEff;
  }

  /** Main result on inheritance: if every other task is exact and the chain from `t`
      ends, the recursion makes every task exact. Tasks in `e` are left for later. */
  lemma {:induction false} RecomputeExact(k: Kernel, t: Tid, d: nat, x: set<Tid>, e: set<Tid>)
    requires Core(k, x) && NoSelfWait(k) && Shape(k) && t < |k.tasks| && t != IDLE
    requires d <= MAX_TASKS && Ends(k, t, MAX_TASKS - d)
    requires forall u: Tid :: u != t && u !in e ==> ExactAt(k, u)
    ensures forall u: Tid :: u !in e ==> ExactAt(Recompute(k, t, d).0, u)
    decreases MAX_TASKS + 1 - d
  {
    hide Core, Next, Recompute, SetEff, Required, Relink, ExactAt;
    CoreFacts(k, t, x);
    RecomputeUnfold(k, t, d);
    RelinkCore(k, t, x);
    forall u: Tid | Next(k, t) != Some(u)
      ensures u == t || u !in e ==> ExactAt(Relink(k, t), u)
    {
      RelinkAt(k, t, x, u);
    }
    match Next(k, t)
    case None =>
    case Some(o) =>
      EndsFrame(k, Relink(k, t), o, MAX_TASKS - d - 1);
      RecomputeExact(Relink(k, t), o, d + 1, x, e);
  }

  /** The same for the one-sided property, which also survives an over-boosted start. */
  lemma {:induction false} RecomputeBoosted(k: Kernel, t: Tid, d: nat, x: set<Tid>, e: set<Tid>)
    requires Core(k, x) && NoSelfWait(k) && Shape(k) && t < |k.tasks| && t != IDLE
    requires d <= MAX_TASKS && Ends(k, t, MAX_TASKS - d)
    requires forall u: Tid :: u != t && u !in e ==> BoostedAt(k, u)
    ensures forall u: Tid :: u !in e ==> BoostedAt(Recompute(k, t, d).0, u)
    decreases MAX_TASKS + 1 - d
  {
    hide Core, Next, Recompute, SetEff, Required, Relink, BoostedAt;
    CoreFacts(k, t, x);
    RecomputeUnfold(k, t, d);
    RelinkCore(k, t, x);
    forall u: Tid | Next(k, t) != Some(u)
      ensures u == t || u !in e ==> BoostedAt(Relink(k, t), u)
    {
      RelinkAt(k, t, x, u);
    }
    match Next(k, t)
    case None =>
    case Some(o) =>
      EndsFrame(k, Relink(k, t), o, MAX_TASKS - d - 1);
      RecomputeBoosted(Relink(k, t), o, d + 1, x, e);
  }

  // ---------------------------------------------------------------------------
  // The recursion on a cycle
  // ---------------------------------------------------------------------------

  /** `z` is closed under "waits for the owner of", and no member is less urgent than needed
      for a task of priority `e` to be waiting behind it. */
  ghost predicate Loop(k: Kernel, z: set<Tid>, e: nat) {
    forall u :: u in z ==>
      && u < |k.tasks| && u != IDLE && u < |k.owned| && u < |k.prio|
      && Next(k, u).Some? && Next(k, u).value in z
      && e <= Required(k, u) && e <= k.prio[u].eff
  }

  /** A waiter bounds its owner's requirement. */
  lemma WaiterBounds(k: Kernel, u: Tid, o: Tid)
    requires Core(k, {}) && Next(k, u) == Some(o)
    ensures u < |k.tasks| && o < |k.tasks|
    ensures Required(k, o) <= k.prio[u].eff
  {
    var m := k.tasks[u].wait.list.m;
    assert u in WaitersOf(k, MutexWaiters(m));
    assert m in k.owned[o];
    BoostIsMinimum(k, k.owned[o], k.prio[o].base);
  }

  /** A common lower bound of the base priority and of all waiters. */
  ghost predicate Above(k: Kernel, ms: seq<nat>, e: nat) {
    forall m: nat, w: Tid {:trigger w in WaitersOf(k, MutexWaiters(m))} ::
      m in ms && w in WaitersOf(k, MutexWaiters(m)) ==> e <= Eff(k.prio, w)
  }

  lemma AboveBoost(k: Kernel, ms: seq<nat>, p: nat, e: nat)
    requires forall l :: SortedByPrio(k.prio, WaitersOf(k, l))
    ensures e <= Boost(k, ms, p) <==> e <= p && Above(k, ms, e)
  {
    BoostIsMinimum(k, ms, p);
  }

  /** Lowering one task to `e` takes no requirement below `e`. */
  lemma SetEffLowerBound(k: Kernel, t: Tid, e: nat, u: Tid)
    requires Shape(k) && WaitOk(k, {}) && t < |k.tasks| && u < |k.tasks| && e < PRIORITY_COUNT
    requires e <= Required(k, u)
    ensures e <= Required(SetEff(k, t, e), u)
  {
    var k' := SetEff(k, t, e);
    SetEffWait(k, t, e, {});
    hide SetEff;
    AboveBoost(k, k.owned[u], k.prio[u].base, e);
    AboveBoost(k', k'.owned[u], k'.prio[u].base, e);
    hide Boost;
    forall m: nat, w: Tid | m in k'.owned[u] && w in WaitersOf(k', MutexWaiters(m))
      ensures e <= Eff(k'.prio, w)
    {
      assert w in WaitersOf(k, MutexWaiters(m));
    }
  }

  lemma LoopStep(k: Kernel, z: set<Tid>, e: nat, t: Tid)
    requires Core(k, {}) && Loop(k, z, e) && t in z && Required(k, t) == e
    ensures e < PRIORITY_COUNT && Shape(k)
    ensures Loop(SetEff(k, t, e), z, e)
    ensures Required(SetEff(k, t, e), Next(k, t).value) == e
  {
    CoreFacts(k, t, {});
    var k' := SetEff(k, t, e);
    SetEffCore(k, t, e, {});
    hide SetEff;
    forall u | u in z
      ensures e <= Required(k', u) && e <= k'.prio[u].eff
    {
      SetEffLowerBound(k, t, e, u);
    }
    assert Next(k', t) == Next(k, t);
    WaiterBounds(k', t, Next(k, t).value);
  }

  /** Once a member of the loop already stands at `e`, the recursion changes nothing. */
  lemma {:induction false} LoopStable(k: Kernel, t: Tid, d: nat, z: set<Tid>, e: nat)
    requires Core(k, {}) && NoSelfWait(k) && Shape(k)
    requires Loop(k, z, e) && t in z && Required(k, t) == e && k.prio[t].eff == e
    requires Boosted(k)
    ensures Recompute(k, t, d).0 == k
    decreases MAX_TASKS + 1 - d
  {
    if d <= MAX_TASKS {
      CoreFacts(k, t, {});
      RecomputeUnfold(k, t, d);
      LoopStep(k, z, e, t);
      var o := Next(k, t).value;
      assert SetEff(k, t, e) == k;
      assert BoostedAt(k, o);
      hide Recompute, SetEff, Core;
      LoopStable(k, o, d + 1, z, e);
    }
  }

  /** The recursion has arrived at `t` on a loop, with depth left to reach `c`. */
  ghost predicate OnLoop(k: Kernel, t: Tid, c: Tid, d: nat, z: set<Tid>, e: nat) {
    && Core(k, {}) && NoSelfWait(k) && Shape(k)
    && Loop(k, z, e) && t in z && c in z && Required(k, t) == e && k.prio[c].eff == e
    && d <= MAX_TASKS && Reaches(k, t, c, MAX_TASKS - d)
    && forall u: Tid :: u != t ==> BoostedAt(k, u)
  }

  lemma LoopBoosted(k: Kernel, t: Tid, o: Tid, e: nat)
    requires Core(k, {}) && t < |k.tasks| && t != IDLE && Shape(k) && e < PRIORITY_COUNT
    requires Next(k, t) == Some(o) && Required(k, t) == e
    requires forall u: Tid :: u != t ==> BoostedAt(k, u)
    ensures forall u: Tid :: u != o ==> BoostedAt(SetEff(k, t, e), u)
  {
    hide Core, Next, SetEff;
    forall u: Tid | u != o
      ensures BoostedAt(SetEff(k, t, e), u)
    {
      RelinkAt(k, t, {}, u);
    }
  }

  lemma OnLoopFacts(k: Kernel, t: Tid, c: Tid, d: nat, z: set<Tid>, e: nat)
    requires OnLoop(k, t, c, d, z, e)
    ensures Core(k, {}) && NoSelfWait(k) && Shape(k)
    ensures Loop(k, z, e) && t in z && c in z && t < |k.tasks| && t != IDLE && c < |k.tasks|
    ensures Required(k, t) == e && k.prio[c].eff == e
    ensures d <= MAX_TASKS && e < IDLE_PRIORITY
    ensures forall u: Tid :: u != t ==> BoostedAt(k, u)
    ensures k.prio[t].eff == e ==> Boosted(k)
    ensures Next(k, t).Some? && Next(k, t).value in z && Next(k, t).value < |k.tasks|
    ensures t != c ==> d < MAX_TASKS && Reaches(k, Next(k, t).value, c, MAX_TASKS - d - 1)
  {
    hide SetEff, ReadyOk, WaitOk, TasksOk;
  }

  lemma OnLoopStep(k: Kernel, t: Tid, c: Tid, d: nat, z: set<Tid>, e: nat, o: Tid)
    requires OnLoop(k, t, c, d, z, e) && t != c && Next(k, t) == Some(o)
    requires Shape(k) && t < |k.tasks| && e < PRIORITY_COUNT
    ensures OnLoop(SetEff(k, t, e), o, c, d + 1, z, e)
  {
    OnLoopFacts(k, t, c, d, z, e);
    hide OnLoop, Core, Loop, Required, Next, SetEff, Shape;
    SetEffCore(k, t, e, {});
    LoopStep(k, z, e, t);
    LoopBoosted(k, t, o, e);
    ReachesFrame(k, SetEff(k, t, e), o, c, MAX_TASKS - d - 1);
    hide Reaches, BoostedAt;
    OnLoopIntro(SetEff(k, t, e), o, c, d + 1, z, e);
  }

  lemma OnLoopIntro(k: Kernel, t: Tid, c: Tid, d: nat, z: set<Tid>, e: nat)
    requires Core(k, {}) && NoSelfWait(k) && Shape(k) && t < |k.tasks| && c < |k.tasks|
    requires Loop(k, z, e) && t in z && c in z && Required(k, t) == e && k.prio[c].eff == e
    requires d <= MAX_TASKS && Reaches(k, t, c, MAX_TASKS - d)
    requires forall u: Tid :: u != t ==> BoostedAt(k, u)
    ensures OnLoop(k, t, c, d, z, e)
  {
    hide Core, Required, NoSelfWait, Reaches, BoostedAt;
  }

  /** What the recursion from `t` leaves behind on a loop: it stays one-sided, brings `t`
      to priority `e`, touches no task outside the loop, and changes nothing at all
      when `t` already stood at `e`. */
  ghost predicate LoopResult(k: Kernel, r: Kernel, t: Tid, z: set<Tid>, e: nat) {
    && Boosted(r)
    && |r.prio| == |k.prio| && t < |k.prio|
    && (forall u: Tid :: u < |k.prio| ==> r.prio[u] == k.prio[u] || (u in z && r.prio[u] == Prio(k.prio[u].base, e)))
    && r.prio[t].eff == e
    && (k.prio[t].eff == e ==> r == k)
  }

  lemma LoopResultStep(k: Kernel, r: Kernel, t: Tid, o: Tid, z: set<Tid>, e: nat)
    requires Shape(k) && t < |k.tasks| && e < PRIORITY_COUNT && t in z && k.prio[t].eff != e
    requires LoopResult(SetEff(k, t, e), r, o, z, e)
    ensures LoopResult(k, r, t, z, e)
  {
    hide SetEff, Boosted;
  }

  lemma LoopResultSame(k: Kernel, t: Tid, z: set<Tid>, e: nat)
    requires t < |k.prio| && k.prio[t].eff == e && Boosted(k)
    ensures LoopResult(k, k, t, z, e)
  {
  }

  lemma {:induction false} LoopRecompute(k: Kernel, t: Tid, c: Tid, d: nat, z: set<Tid>, e: nat)
    requires OnLoop(k, t, c, d, z, e) && Shape(k) && t < |k.tasks|
    ensures LoopResult(k, Recompute(k, t, d).0, t, z, e)
    decreases MAX_TASKS + 1 - d
  {
    hide OnLoop, Core, Loop, Required, Next, Recompute, SetEff, Reaches, LoopResult, BoostedAt, Boosted;
    OnLoopFacts(k, t, c, d, z, e);
    if k.prio[t].eff == e {
      LoopStable(k, t, d, z, e);
      LoopResultSame(k, t, z, e);
    } else {
      var o := Next(k, t).value;
      RecomputeUnfold(k, t, d);
      OnLoopStep(k, t, c, d, z, e, o);
      LoopRecompute(SetEff(k, t, e), o, c, d + 1, z, e);
      LoopResultStep(k, Recompute(k, t, d).0, t, o, z, e);
    }
  }

  lemma {:induction false} ReachesFrame(k: Kernel, k': Kernel, t: Tid, c: Tid, n: nat)
    requires forall u: Tid :: Next(k', u) == Next(k, u)
    ensures Reaches(k', t, c, n) == Reaches(k, t, c, n)
    decreases n
  {
    match Next(k, t)
    case None =>
    case Some(o) =>
      if n > 0 {
        ReachesFrame(k, k', o, c, n - 1);
      }
  }

  // ---------------------------------------------------------------------------
  // What other steps do to the graph and to the requirements
  // ---------------------------------------------------------------------------

  lemma InheritanceFrame(k: Kernel, k': Kernel)
    requires k'.prio == k.prio && k'.owned == k.owned
    requires forall m: nat :: WaitersOf(k', MutexWaiters(m)) == WaitersOf(k, MutexWaiters(m))
    ensures Boosted(k) ==> Boosted(k')
    ensures Exact(k) ==> Exact(k')
  {
    forall t: Tid
      ensures BoostedAt(k, t) ==> BoostedAt(k', t)
      ensures ExactAt(k, t) ==> ExactAt(k', t)
    {
      if t < |k.prio| && t < |k.owned| {
        BoostFrame(k, k', k.owned[t], k.prio[t].base);
      }
    }
  }

  /** Removing waits keeps every chain finite. */
  lemma {:induction false} EndsSub(k: Kernel, k': Kernel, t: Tid, n: nat)
    requires forall u: Tid :: Next(k', u) == Next(k, u) || Next(k', u) == None
    requires Ends(k, t, n)
    ensures Ends(k', t, n)
    decreases n
  {
    match Next(k', t)
    case None =>
    case Some(o) => EndsSub(k, k', o, n - 1);
  }

  lemma AcyclicSub(k: Kernel, k': Kernel)
    requires Acyclic(k) && |k'.tasks| == |k.tasks|
    requires forall u: Tid :: Next(k', u) == Next(k, u) || Next(k', u) == None
    ensures Acyclic(k')
  {
    forall t: Tid | t < |k'.tasks|
      ensures ChainEnds(k', t)
    {
      assert ChainEnds(k, t);
      var n: nat :| Ends(k, t, n);
      EndsSub(k, k', t, n);
    }
  }

  /** A chain that avoids `c` is not affected by a new wait of `c`. */
  lemma {:induction false} EndsAvoiding(k: Kernel, k': Kernel, t: Tid, c: Tid, n: nat)
    requires forall u: Tid :: u != c ==> Next(k', u) == Next(k, u)
    requires Ends(k, t, n) && !Reaches(k, t, c, n)
    ensures Ends(k', t, n)
    decreases n
  {
    match Next(k, t)
    case None =>
    case Some(o) => EndsAvoiding(k, k', o, c, n - 1);
  }

  lemma {:induction false} EndsThrough(k: Kernel, k': Kernel, t: Tid, c: Tid, n: nat, j: nat)
    requires forall u: Tid :: u != c ==> Next(k', u) == Next(k, u)
    requires Ends(k, t, n) && Ends(k', c, j)
    ensures Ends(k', t, n + j)
    decreases n
  {
    if t == c {
      EndsMonotone(k', c, j, n + j);
    } else {
      match Next(k, t)
      case None =>
      case Some(o) => EndsThrough(k, k', o, c, n - 1, j);
    }
  }

  /** A new wait of `c` behind `o` keeps the graph acyclic if `o`'s chain avoids `c`. */
  lemma AcyclicAdd(k: Kernel, k': Kernel, c: Tid, o: Tid, n: nat)
    requires Acyclic(k) && |k'.tasks| == |k.tasks|
    requires forall u: Tid :: u != c ==> Next(k', u) == Next(k, u)
    requires Next(k', c) == Some(o)
    requires Ends(k, o, n) && !Reaches(k, o, c, n)
    ensures Acyclic(k')
  {
    EndsAvoiding(k, k', o, c, n);
    assert Ends(k', c, n + 1);
    forall t: Tid | t < |k'.tasks|
      ensures ChainEnds(k', t)
    {
      assert ChainEnds(k, t);
      var i: nat :| Ends(k, t, i);
      EndsThrough(k, k', t, c, i, n + 1);
    }
  }

  /** Waits may be turned towards a task that does not wait. */
  lemma {:induction false} EndsTurned(k: Kernel, k': Kernel, t: Tid, w: Tid, n: nat)
    requires Next(k', w) == None
    requires forall u: Tid :: Next(k', u) == Next(k, u) || Next(k', u) == None || Next(k', u) == Some(w)
    requires Ends(k, t, n)
    ensures Ends(k', t, n + 1)
    decreases n
  {
    match Next(k', t)
    case None =>
    case Some(o) =>
      if o != w {
        EndsTurned(k, k', o, w, n - 1);
      }
  }

  lemma AcyclicTurned(k: Kernel, k': Kernel, w: Tid)
    requires Acyclic(k) && |k'.tasks| == |k.tasks|
    requires Next(k', w) == None
    requires forall u: Tid :: Next(k', u) == Next(k, u) || Next(k', u) == None || Next(k', u) == Some(w)
    ensures Acyclic(k')
  {
    forall t: Tid | t < |k'.tasks|
      ensures ChainEnds(k', t)
    {
      assert ChainEnds(k, t);
      var n: nat :| Ends(k, t, n);
      EndsTurned(k, k', t, w, n);
    }
  }
}
