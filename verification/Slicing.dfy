/** Order and turns at the processor: which task a switch selects, and when time slicing makes room. */
module Slicing {
  import opened Config
  import opened Sequences
  import opened KernelModel
  import opened KernelInvariant
  import opened Blocking
  import opened Scheduling
  import opened KernelRuns
  import opened KernelTheorems

  /** `t` is the oldest task of the best level that is not empty. */
  predicate IsOldestBest(ready: seq<seq<Tid>>, t: Tid) {
    exists p: nat :: p < |ready| && ready[p] != [] && ready[p][0] == t && forall i: nat :: i < p ==> ready[i] == []
  }

  lemma {:induction false} BestIsOldest(ready: seq<seq<Tid>>, p: nat)
    requires p <= |ready| && BestFrom(ready, p).Some? && forall i: nat :: i < p ==> ready[i] == []
    ensures IsOldestBest(ready, BestFrom(ready, p).value)
    decreases |ready| - p
  {
    if ready[p] == [] {
      BestIsOldest(ready, p + 1);
    }
  }

  /** A level with its first task behind all others. */
  function MovedBack(s: seq<Tid>): seq<Tid> {
    if s == [] then s else s[1..] + [s[0]]
  }

  /** A switch moves the running task behind its peers exactly if it heads the best level and has
      yielded or used up its slice; otherwise it leaves the order of all levels alone. Then it
      selects the oldest task of the best level. */
  lemma SwitchOrder(k: Kernel)
    requires Good(k) && Shape(k)
    ensures var k' := PendSV(k);
      var c := k.current;
      var p := k.prio[c].eff;
      && k'.ready ==
           (if k.tasks[c].state == Running && IsOldestBest(k.ready, c) && (ByYield in k.reasons || BySlice in k.reasons)
            then k.ready[p := MovedBack(k.ready[p])] else k.ready)
      && IsOldestBest(k'.ready, k'.current)
      && !k'.pendsv && k'.reasons == {}
  {
    hide TimeoutOk, EpisodesOk, SemsOk, QueuesOk, Acyclic, Boosted, Prompt, WaitOk, OwnOk, TasksOk, ReadyOk, BasesOk,
         OnlyCurrentRuns, Highest, RotatedReady, IsOldestBest;
    HighestIsBest(k);
    OldestIff(k);
    RotateReady(k);
    BeforeChoiceReady(k);
    Rotation(k);
    var k1 := BeforeChoice(k);
    BeforeChoiceBases(k);
    HighestIsBest(k1);
    OldestIff(k1);
  }

  lemma BeforeChoiceBases(k: Kernel)
    requires Shape(k) && BasesOk(k)
    ensures BasesOk(BeforeChoice(k))
  {
    hide RotatedReady, Highest;
  }

  lemma OldestIff(k: Kernel)
    requires Highest(k).Some?
    ensures forall t: Tid :: Highest(k) == Some(t) <==> IsOldestBest(k.ready, t)
  {
    BestIsOldest(k.ready, 0);
    forall t: Tid | IsOldestBest(k.ready, t)
      ensures Highest(k) == Some(t)
    {
      var p: nat :| p < |k.ready| && k.ready[p] != [] && k.ready[p][0] == t && forall i: nat :: i < p ==>
          k.ready[i] == [];
      BestFromIsFirst(k.ready, 0, p);
    }
  }

  lemma Rotation(k: Kernel)
    requires Shape(k) && (Highest(k) == Some(k.current) ==> k.ready[k.prio[k.current].eff] != [])
    ensures Highest(k) == Some(k.current) ==>
      RotatedReady(k) == k.ready[k.prio[k.current].eff := MovedBack(k.ready[k.prio[k.current].eff])]
  {
    hide Highest;
  }

  // ---------------------------------------------------------------------------
  // Time slices
  // ---------------------------------------------------------------------------

  /** `n` ticks in which no software timer expires. */
  function TickTimes(k: Kernel, n: nat): (r: Kernel)
    requires Shape(k)
    ensures Shape(r) && |r.tasks| == |k.tasks|
    decreases n
  {
    if n == 0 then k else Tick(TickTimes(k, n - 1), false)
  }

  /** No wait ends within `n` ticks. */
  ghost predicate NothingDue(k: Kernel, n: nat) {
    forall e :: e in k.timeouts ==> e.due > k.now + n
  }

  /** A tick at which nothing is due only moves time and the slice of the running task. */
  lemma QuietTick(k: Kernel, p: nat, q: seq<Tid>)
    requires HeadsBest(k, p, q) && NothingDue(k, 1)
    ensures Tick(k, false) == TickSlice(k.(now := k.now + 1), false, false)
  {
    hide ReadyOk, BasesOk, Highest, TickSlice;
    HeadLevel(k, p, q);
    FirstIsMember(k.timeouts);
    assert DueIds(k.timeouts, k.now + 1) == [] && NotDue(k.timeouts, k.now + 1) == k.timeouts;
    HeadsHighest(k.(now := k.now + 1), p, q);
  }

  lemma HeadLevel(k: Kernel, p: nat, q: seq<Tid>)
    requires HeadsBest(k, p, q)
    ensures k.prio[k.current].eff == p && Shape(k) && k.current < |k.tasks|
  {
    assert k.current in k.ready[p];
  }

  /** The running task with `n` ticks left of its slice, and nothing else going on. */
  ghost predicate Undisturbed(k: Kernel, p: nat, q: seq<Tid>, n: nat) {
    HeadsBest(k, p, q) && k.tasks[k.current].slice == n && !k.pendsv && k.reasons == {}
  }

  lemma SliceCounts(k: Kernel, p: nat, q: seq<Tid>, n: nat)
    requires Undisturbed(k, p, q, n) && NothingDue(k, 1) && n > 1 && |q| > 1
    ensures var k' := Tick(k, false);
      && Undisturbed(k', p, q, n - 1) && k'.current == k.current && k'.ready == k.ready
      && k'.timeouts == k.timeouts && k'.now == k.now + 1
  {
    hide ReadyOk, Tick;
    QuietTick(k, p, q);
    HeadLevel(k, p, q);
    SliceReady(k, Tick(k, false));
  }

  lemma LoneReloads(k: Kernel, p: nat, q: seq<Tid>, n: nat)
    requires Undisturbed(k, p, q, n) && NothingDue(k, 1) && |q| == 1
    ensures var k' := Tick(k, false);
      && Undisturbed(k', p, q, TIME_SLICE_TICKS) && k'.current == k.current && k'.ready == k.ready
      && k'.timeouts == k.timeouts && k'.now == k.now + 1
  {
    hide ReadyOk, Tick;
    QuietTick(k, p, q);
    HeadLevel(k, p, q);
    SliceReady(k, Tick(k, false));
  }

  /** The slice of the running task is of no concern to the ready set. */
  lemma SliceReady(k: Kernel, k': Kernel)
    requires ReadyOk(k) && Shape(k') && |k'.tasks| == |k.tasks| && k'.ready == k.ready && k'.prio == k.prio
    requires forall t: Tid :: t < |k.tasks| ==> k'.tasks[t].state == k.tasks[t].state
    ensures ReadyOk(k')
  {
  }

  lemma {:induction false} SliceRuns(k: Kernel, p: nat, q: seq<Tid>, n: nat, i: nat)
    requires Undisturbed(k, p, q, n) && Shape(k) && NothingDue(k, i) && i < n && |q| > 1
    ensures var k' := TickTimes(k, i);
      && Undisturbed(k', p, q, n - i) && k'.current == k.current && k'.ready == k.ready
      && k'.timeouts == k.timeouts && k'.now == k.now + i
    decreases i
  {
    hide Undisturbed, Tick;
    if i > 0 {
      SliceRuns(k, p, q, n, i - 1);
      SliceCounts(TickTimes(k, i - 1), p, q, n - (i - 1));
    }
  }

  /** Time slicing: with a peer on its level and nothing due, a task with `n` ticks left of its slice
      keeps the processor for `n` ticks; at the last of them a switch is requested, which moves the
      task behind its peers with a fresh slice and selects the next of them. */
  lemma SliceElapses(k: Kernel, p: nat, q: seq<Tid>, n: nat)
    requires Undisturbed(k, p, q, n) && Shape(k) && NothingDue(k, n) && 0 < n && |q| > 1
    ensures forall i: nat :: i < n ==> !TickTimes(k, i).pendsv && TickTimes(k, i).current == q[0]
    ensures TickTimes(k, n).pendsv && TickTimes(k, n).current == q[0]
    ensures var k' := PendSV(TickTimes(k, n));
      && k'.ready == k.ready[p := q[1..] + [q[0]]] && k'.current == q[1]
      && q[0] < |k'.tasks| && k'.tasks[q[0]].slice == TIME_SLICE_TICKS && k'.tasks[q[0]].state == Ready
  {
    hide Tick, PendSV, ReadyOk, BasesOk, OnlyCurrentRuns;
    forall i: nat | i < n
      ensures !TickTimes(k, i).pendsv && TickTimes(k, i).current == q[0]
    {
      SliceRuns(k, p, q, n, i);
    }
    SliceRuns(k, p, q, n, n - 1);
    LastTick(TickTimes(k, n - 1), p, q);
  }

  lemma LastTick(k: Kernel, p: nat, q: seq<Tid>)
    requires Undisturbed(k, p, q, 1) && Shape(k) && NothingDue(k, 1) && |q| > 1
    ensures Tick(k, false).pendsv && Tick(k, false).current == q[0]
    ensures var k' := PendSV(Tick(k, false));
      && k'.ready == k.ready[p := q[1..] + [q[0]]] && k'.current == q[1]
      && q[0] < |k'.tasks| && k'.tasks[q[0]].slice == TIME_SLICE_TICKS && k'.tasks[q[0]].state == Ready
  {
    hide ReadyOk, Tick, Highest, Distinct;
    QuietTick(k, p, q);
    HeadLevel(k, p, q);
    var k1 := Tick(k, false);
    SliceReady(k, k1);
    HeadsHighest(k1, p, q);
    var k2 := BeforeChoice(k1);
    assert k2.ready == k.ready[p := q[1..] + [q[0]]];
    HeadsHighest(k2, p, q[1..] + [q[0]]);
    HeadsDistinct(k, p, q);
  }

  lemma HeadsDistinct(k: Kernel, p: nat, q: seq<Tid>)
    requires HeadsBest(k, p, q) && |q| > 1
    ensures q[0] != q[1] && q[1] < |k.tasks|
  {
    assert q[1] in k.ready[p];
  }

  /** A task alone on its level is never asked to give way by its slice. */
  lemma {:induction false} LoneKeepsRunning(k: Kernel, p: nat, q: seq<Tid>, s: nat, n: nat)
    requires Undisturbed(k, p, q, s) && Shape(k) && NothingDue(k, n) && |q| == 1
    ensures var k' := TickTimes(k, n);
      && !k'.pendsv && k'.current == k.current && k'.ready == k.ready && k'.timeouts == k.timeouts
          && k'.now == k.now + n
      && Undisturbed(k', p, q, if n == 0 then s else TIME_SLICE_TICKS)
    decreases n
  {
    hide Tick, HeadsBest;
    if n > 0 {
      LoneKeepsRunning(k, p, q, s, n - 1);
      LoneReloads(TickTimes(k, n - 1), p, q, if n == 1 then s else TIME_SLICE_TICKS);
    }
  }
}
