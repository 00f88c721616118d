/** Semaphore and queue calls keep the invariant. */
module Exchange {
  import opened Config
  import opened Sequences
  import opened KernelModel
  import opened KernelInvariant
  import opened Inheritance
  import opened Blocking
  import opened Waking
  import opened Scheduling

  // ---------------------------------------------------------------------------
  // Building blocks
  // ---------------------------------------------------------------------------

  /** A step that only changes the contents of semaphores and queues. */
  lemma ContentsInv(k: Kernel, k': Kernel, y: set<Tid>)
    requires Inv(k, y) && Shape(k)
    requires k' == k.(sems := k'.sems, queues := k'.queues)
    requires SemsOk(k') && QueuesOk(k')
    ensures Inv(k', y)
    ensures Exact(k) ==> Exact(k')
  {
    hide WaitOk, OwnOk, BasesOk, ReadyOk, Boosted, Exact, Acyclic, EpisodesOk, TimeoutOk, SemsOk, QueuesOk, Next;
    ContentsCore(k, k');
    ContentsTime(k, k', y);
    ContentsNext(k, k');
    AcyclicSub(k, k');
    InheritanceFrame(k, k');
  }

  lemma ContentsCore(k: Kernel, k': Kernel)
    requires Core(k, {}) && k' == k.(sems := k'.sems, queues := k'.queues)
    ensures Core(k', {})
  {
    hide ReadyOk, WaitOk, OwnOk;
    CoreFrame(k, k', {});
  }

  lemma ContentsTime(k: Kernel, k': Kernel, y: set<Tid>)
    requires TimeoutOk(k, y) && EpisodesOk(k, y) && k' == k.(sems := k'.sems, queues := k'.queues)
    ensures TimeoutOk(k', y) && EpisodesOk(k', y)
  {
    hide Alternates;
    forall u: Tid | u < |k.tasks|
      ensures EpisodeAt(k', y, u)
    {
      assert EpisodeAt(k, y, u);
    }
  }

  lemma ContentsNext(k: Kernel, k': Kernel)
    requires k' == k.(sems := k'.sems, queues := k'.queues)
    ensures forall u: Tid :: Next(k', u) == Next(k, u)
  {
  }

  /** The first waiter of a list is waiting on it. */
  lemma FirstWaits(k: Kernel, l: ListId)
    requires Core(k, {}) && WaitersOf(k, l) != []
    ensures var t := WaitersOf(k, l)[0];
      t < |k.tasks| && k.tasks[t].wait == On(l) && Waiting(k.tasks[t]) && t != IDLE
  {
    var t := WaitersOf(k, l)[0];
    assert t in WaitersOf(k, l);
    assert TaskOk(k.tasks[t]);
  }

  /** Waking a task asks for a switch whenever the woken task is more urgent. */
  lemma WakePrompt(k: Kernel, t: Tid, result: Status)
    requires Shape(k) && Prompt(k) && t < |k.tasks| && Waiting(k.tasks[t])
    ensures var k1 := Wake(k, t, result);
      && Prompt(k1.(pendsv := k1.pendsv || WokenFlag(k1, t)))
      && Prompt(k1.(isrWoken := k1.isrWoken || WokenFlag(k1, t)))
      && (k1.tasks[k1.current].state == Running || k1.pendsv)
  {
  }

  /** Handing something to a waiter that does not wait for a mutex. */
  lemma HandoffInv(k: Kernel, t: Tid, l: ListId)
    requires Inv(k, {}) && Shape(k) && t < |k.tasks|
    requires k.tasks[t].wait == On(l) && Waiting(k.tasks[t]) && !l.MutexWaiters?
    ensures Inv(Wake(k, t, Ok), {})
    ensures Exact(k) ==> Exact(Wake(k, t, Ok))
  {
    hide Inv, Exact, Wake;
    WakeInv(k, t, Ok, {});
    assert {} - {t} == {};
  }

  // ---------------------------------------------------------------------------
  // Semaphores
  // ---------------------------------------------------------------------------

  lemma SemUpdate(k: Kernel, s: nat, x: Semaphore)
    requires SemsOk(k) && QueuesOk(k)
    requires x.count <= x.max && x.initial + x.given == x.taken + x.count
    requires WaitersOf(k, SemWaiters(s)) != [] ==> x.count == 0
    ensures SemsOk(k.(sems := k.sems[s := x])) && QueuesOk(k.(sems := k.sems[s := x]))
  {
    var k' := k.(sems := k.sems[s := x]);
    assert forall l :: WaitersOf(k', l) == WaitersOf(k, l);
    assert forall q: nat :: QueueOf(k', q) == QueueOf(k, q);
    assert forall j: nat :: SemOf(k', j) == if j == s then x else SemOf(k, j);
  }

  lemma TakeGood(k: Kernel, s: nat, timeout: nat)
    requires Good(k) && Shape(k)
    ensures Good(SemTake(k, s, timeout).0)
    ensures Exact(k) ==> Exact(SemTake(k, s, timeout).0)
  {
    hide Core, Boosted, Exact, Acyclic, EpisodesOk, TimeoutOk, QueuesOk, BlockOn, OnlyCurrentRuns;
    var x := SemOf(k, s);
    if s in k.sems && x.count > 0 {
      SemUpdate(k, s, x.(count := x.count - 1, taken := x.taken + 1));
      ContentsInv(k, SemTake(k, s, timeout).0, {});
    } else if s in k.sems && timeout != NO_WAIT && BlockStatus(k, timeout) == Ok {
      BlockInv(k, SemWaiters(s), timeout, []);
      BlockGood(k, SemWaiters(s), timeout, []);
    }
  }

  lemma BlockGood(k: Kernel, l: ListId, timeout: nat, item: Item)
    requires MayBlock(k) && Inv(BlockOn(k, l, timeout, item), {})
    ensures Good(BlockOn(k, l, timeout, item).(pendsv := true))
    ensures Exact(BlockOn(k, l, timeout, item)) ==> Exact(BlockOn(k, l, timeout, item).(pendsv := true))
  {
    hide Inv, Exact;
    FlagsInv(BlockOn(k, l, timeout, item), BlockOn(k, l, timeout, item).(pendsv := true), {});
  }

  lemma GiveLockedInv(k: Kernel, s: nat)
    requires Inv(k, {}) && Shape(k)
    ensures Inv(SemGiveLocked(k, s).0, {})
    ensures Exact(k) ==> Exact(SemGiveLocked(k, s).0)
    ensures SemGiveLocked(k, s).1 != Internal
  {
    hide Core, Boosted, Exact, Acyclic, EpisodesOk, TimeoutOk, QueuesOk, Wake, OnlyCurrentRuns;
    var x := SemOf(k, s);
    var ws := WaitersOf(k, SemWaiters(s));
    if s in k.sems {
      if ws != [] {
        FirstWaits(k, SemWaiters(s));
        SemUpdate(k, s, x.(given := x.given + 1, taken := x.taken + 1));
        var k1 := k.(sems := k.sems[s := x.(given := x.given + 1, taken := x.taken + 1)]);
        ContentsInv(k, k1, {});
        HandoffInv(k1, ws[0], SemWaiters(s));
      } else if x.count < x.max {
        SemUpdate(k, s, x.(count := x.count + 1, given := x.given + 1));
        ContentsInv(k, SemGiveLocked(k, s).0, {});
      }
    }
  }

  lemma GiveLockedPrompt(k: Kernel, s: nat)
    requires Good(k) && Shape(k)
    ensures Prompt(SemGive(k, s).0) && Prompt(SemGiveFromIsr(k, s).0)
  {
    hide Boosted, Acyclic, EpisodesOk, TimeoutOk, QueuesOk, Wake, OnlyCurrentRuns, SemsOk, Core, WokenFlag;
    var x := SemOf(k, s);
    var ws := WaitersOf(k, SemWaiters(s));
    if s in k.sems && ws != [] {
      FirstWaits(k, SemWaiters(s));
      WakePrompt(k.(sems := k.sems[s := x.(given := x.given + 1, taken := x.taken + 1)]), ws[0], Ok);
    }
  }

  lemma GiveGood(k: Kernel, s: nat)
    requires Good(k) && Shape(k)
    ensures Good(SemGive(k, s).0) && Good(SemGiveFromIsr(k, s).0)
    ensures Exact(k) ==> Exact(SemGive(k, s).0) && Exact(SemGiveFromIsr(k, s).0)
  {
    hide Inv, Exact, SemGiveLocked, Prompt;
    GiveLockedInv(k, s);
    GiveLockedPrompt(k, s);
    FlagsInv(SemGiveLocked(k, s).0, SemGive(k, s).0, {});
    FlagsInv(SemGiveLocked(k, s).0, SemGiveFromIsr(k, s).0, {});
  }

  // ---------------------------------------------------------------------------
  // Queues
  // ---------------------------------------------------------------------------

  lemma QueueUpdate(k: Kernel, q: nat, x: Queue)
    requires SemsOk(k) && QueuesOk(k) && q in k.queues
    requires |x.items| <= x.capacity && x.capacity == QueueOf(k, q).capacity && x.accepted == x.received + x.items
    requires WaitersOf(k, RecvWaiters(q)) != [] ==> x.items == []
    requires WaitersOf(k, SendWaiters(q)) != [] ==> |x.items| == x.capacity
    ensures SemsOk(k.(queues := k.queues[q := x])) && QueuesOk(k.(queues := k.queues[q := x]))
  {
    var k' := k.(queues := k.queues[q := x]);
    assert forall l :: WaitersOf(k', l) == WaitersOf(k, l);
    assert SemsOk(k') by {
      assert forall s: nat :: SemOf(k', s) == SemOf(k, s);
    }
    forall j: nat
      ensures QueueOf(k', j) == if j == q then x else QueueOf(k, j)
    {
    }
    hide WaitersOf, SemsOk, SemOf;
  }

  /** Writing into a waiting receiver's buffer. */
  lemma BufferInv(k: Kernel, t: Tid, item: Item)
    requires Inv(k, {}) && Shape(k) && t < |k.tasks|
    ensures Inv(UpdateTask(k, t, k.tasks[t].(item := item)), {})
    ensures Exact(k) ==> Exact(UpdateTask(k, t, k.tasks[t].(item := item)))
  {
    hide WaitOk, OwnOk, BasesOk, ReadyOk, Boosted, Exact, Acyclic, EpisodesOk, TimeoutOk, SemsOk, QueuesOk;
    assert TaskOk(k.tasks[t]);
    BasesRunnable(k);
    ReadyStays(k, UpdateTask(k, t, k.tasks[t].(item := item)), t);
    RescheduledInv(k, UpdateTask(k, t, k.tasks[t].(item := item)), t, {});
  }

  /** Delivery to a waiting receiver. */
  ghost function Delivered(k: Kernel, q: nat, t: Tid, item: Item): (r: Kernel)
    requires Shape(k) && t < |k.tasks|
    ensures Shape(r) && |r.tasks| == |k.tasks|
  {
    var x := QueueOf(k, q);
    var k1 := k.(queues := k.queues[q := x.(accepted := x.accepted + [item], received := x.received + [item])]);
    UpdateTask(k1, t, k1.tasks[t].(item := item))
  }

  lemma DeliveredInv(k: Kernel, q: nat, t: Tid, item: Item)
    requires Inv(k, {}) && Shape(k) && q in k.queues && t < |k.tasks|
    requires WaitersOf(k, RecvWaiters(q)) != []
    ensures Inv(Delivered(k, q, t, item), {})
    ensures Exact(k) ==> Exact(Delivered(k, q, t, item))
  {
    hide Core, Boosted, Exact, Acyclic, EpisodesOk, TimeoutOk, SemsOk, OnlyCurrentRuns;
    var x := QueueOf(k, q);
    var x' := x.(accepted := x.accepted + [item], received := x.received + [item]);
    QueueUpdate(k, q, x');
    ContentsInv(k, k.(queues := k.queues[q := x']), {});
    BufferInv(k.(queues := k.queues[q := x']), t, item);
  }

  lemma SendLockedInv(k: Kernel, q: nat, item: Item, timeout: nat, mayBlock: bool)
    requires Inv(k, {}) && Shape(k)
    ensures Inv(SendLocked(k, q, item, timeout, mayBlock).0, {})
    ensures Exact(k) ==> Exact(SendLocked(k, q, item, timeout, mayBlock).0)
    ensures SendLocked(k, q, item, timeout, mayBlock).1.status != Internal
  {
    hide Core, Boosted, Exact, Acyclic, EpisodesOk, TimeoutOk, SemsOk, Wake, BlockOn, OnlyCurrentRuns;
    var x := QueueOf(k, q);
    var rs := WaitersOf(k, RecvWaiters(q));
    if q in k.queues {
      if rs != [] {
        FirstWaits(k, RecvWaiters(q));
        DeliveredInv(k, q, rs[0], item);
        HandoffInv(Delivered(k, q, rs[0], item), rs[0], RecvWaiters(q));
      } else if |x.items| < x.capacity {
        QueueUpdate(k, q, x.(items := x.items + [item], accepted := x.accepted + [item]));
        ContentsInv(k, SendLocked(k, q, item, timeout, mayBlock).0, {});
      } else if timeout != NO_WAIT && mayBlock && BlockStatus(k, timeout) == Ok {
        BlockInv(k, SendWaiters(q), timeout, item);
      }
    }
  }

  lemma SendLockedPrompt(k: Kernel, q: nat, item: Item, timeout: nat)
    requires Good(k) && Shape(k)
    ensures Prompt(Send(k, q, item, timeout).0) && Prompt(SendFromIsr(k, q, item).0)
  {
    hide Boosted, Acyclic, EpisodesOk, TimeoutOk, QueuesOk, Wake, OnlyCurrentRuns, SemsOk, Core, WokenFlag;
    var rs := WaitersOf(k, RecvWaiters(q));
    if q in k.queues && rs != [] {
      FirstWaits(k, RecvWaiters(q));
      WakePrompt(Delivered(k, q, rs[0], item), rs[0], Ok);
    }
  }

  lemma SendGood(k: Kernel, q: nat, item: Item, timeout: nat)
    requires Good(k) && Shape(k)
    ensures Good(Send(k, q, item, timeout).0) && Good(SendFromIsr(k, q, item).0)
    ensures Exact(k) ==> Exact(Send(k, q, item, timeout).0) && Exact(SendFromIsr(k, q, item).0)
  {
    hide Inv, Exact, SendLocked, Prompt;
    SendLockedInv(k, q, item, timeout, true);
    SendLockedInv(k, q, item, NO_WAIT, false);
    SendLockedPrompt(k, q, item, timeout);
    FlagsInv(SendLocked(k, q, item, timeout, true).0, Send(k, q, item, timeout).0, {});
    FlagsInv(SendLocked(k, q, item, NO_WAIT, false).0, SendFromIsr(k, q, item).0, {});
  }

  /** A buffered item has been taken and, if a sender waits, replaced by the sender's item. */
  ghost function Refilled(k: Kernel, q: nat): (r: Kernel)
    requires QueueOf(k, q).items != []
    ensures r == k.(queues := r.queues)
  {
    var x := QueueOf(k, q);
    var ss := WaitersOf(k, SendWaiters(q));
    var taken := x.(items := x.items[1..], received := x.received + [x.items[0]]);
    if ss == [] || ss[0] >= |k.tasks| then k.(queues := k.queues[q := taken])
    else
      var item := k.tasks[ss[0]].item;
      k.(queues := k.queues[q := taken.(items := taken.items + [item], accepted := taken.accepted + [item])])
  }

  lemma RefilledInv(k: Kernel, q: nat)
    requires Inv(k, {}) && Shape(k) && q in k.queues && QueueOf(k, q).items != []
    ensures Inv(Refilled(k, q), {})
    ensures Exact(k) ==> Exact(Refilled(k, q))
  {
    hide Core, Boosted, Exact, Acyclic, EpisodesOk, TimeoutOk, SemsOk, OnlyCurrentRuns;
    var x := QueueOf(k, q);
    var ss := WaitersOf(k, SendWaiters(q));
    assert x.received + [x.items[0]] + x.items[1..] == x.received + x.items;
    if ss == [] {
      QueueUpdate(k, q, x.(items := x.items[1..], received := x.received + [x.items[0]]));
    } else {
      FirstWaits(k, SendWaiters(q));
      var item := k.tasks[ss[0]].item;
      assert x.received + [x.items[0]] + (x.items[1..] + [item]) == x.received + x.items + [item];
      QueueUpdate(k, q, x.(items := x.items[1..] + [item], received := x.received + [x.items[0]],
          accepted := x.accepted + [item]));
    }
    ContentsInv(k, Refilled(k, q), {});
  }

  /** The three ways in which a receive succeeds or waits; the branch that takes an item
      directly from a waiting sender is never entered. */
  lemma ReceiveCases(k: Kernel, q: nat, timeout: nat, mayBlock: bool)
    requires Core(k, {}) && QueuesOk(k) && Shape(k) && q in k.queues
    ensures var x := QueueOf(k, q);
      var ss := WaitersOf(k, SendWaiters(q));
      && (x.items != [] ==>
           SendersFirst(k, q) && ReceiveLocked(k, q, timeout, mayBlock) ==
             if ss == [] then (Refilled(k, q), Outcome(Ok, false, x.items[0]), false)
             else (Wake(Refilled(k, q), ss[0], Ok), Outcome(Ok, false, x.items[0]),
                 WokenFlag(Wake(Refilled(k, q), ss[0], Ok), ss[0])))
      && (x.items == [] ==> ss == [])
  {
    var x := QueueOf(k, q);
    var ss := WaitersOf(k, SendWaiters(q));
    hide Wake, WokenFlag;
    if ss != [] {
      FirstWaits(k, SendWaiters(q));
    }
    if x.items != [] {
      var taken := x.(items := x.items[1..], received := x.received + [x.items[0]]);
      var k1 := k.(queues := k.queues[q := taken]);
      assert QueueOf(k1, q) == taken && WaitersOf(k1, SendWaiters(q)) == ss;
      if ss != [] {
        var item := k.tasks[ss[0]].item;
        var full := taken.(items := taken.items + [item], accepted := taken.accepted + [item]);
        assert k1.queues[q := full] == k.queues[q := full];
      }
    }
  }

  ghost predicate SendersFirst(k: Kernel, q: nat) {
    WaitersOf(k, SendWaiters(q)) != [] ==> WaitersOf(k, SendWaiters(q))[0] < |k.tasks|
  }

  lemma ReceiveLockedInv(k: Kernel, q: nat, timeout: nat, mayBlock: bool)
    requires Inv(k, {}) && Shape(k)
    ensures Inv(ReceiveLocked(k, q, timeout, mayBlock).0, {})
    ensures Exact(k) ==> Exact(ReceiveLocked(k, q, timeout, mayBlock).0)
    ensures ReceiveLocked(k, q, timeout, mayBlock).1.status != Internal
  {
    hide Core, Boosted, Exact, Acyclic, EpisodesOk, TimeoutOk, SemsOk, QueuesOk, Wake, BlockOn, OnlyCurrentRuns,
         Refilled, FillFromSender, WokenFlag;
    var x := QueueOf(k, q);
    var ss := WaitersOf(k, SendWaiters(q));
    if q in k.queues {
      ReceiveCases(k, q, timeout, mayBlock);
      if x.items != [] {
        RefilledInv(k, q);
        if ss != [] {
          FirstWaits(k, SendWaiters(q));
          HandoffInv(Refilled(k, q), ss[0], SendWaiters(q));
        }
      } else if timeout != NO_WAIT && mayBlock && BlockStatus(k, timeout) == Ok {
        BlockInv(k, RecvWaiters(q), timeout, []);
      }
    }
  }

  lemma ReceiveLockedPrompt(k: Kernel, q: nat, timeout: nat)
    requires Good(k) && Shape(k)
    ensures Prompt(Receive(k, q, timeout).0) && Prompt(ReceiveFromIsr(k, q).0)
  {
    hide Boosted, Acyclic, EpisodesOk, TimeoutOk, QueuesOk, Wake, OnlyCurrentRuns, SemsOk, Core, WokenFlag, Refilled,
         FillFromSender;
    var ss := WaitersOf(k, SendWaiters(q));
    if q in k.queues {
      ReceiveCases(k, q, timeout, true);
      ReceiveCases(k, q, NO_WAIT, false);
      if QueueOf(k, q).items != [] && ss != [] {
        FirstWaits(k, SendWaiters(q));
        WakePrompt(Refilled(k, q), ss[0], Ok);
      }
    }
  }

  lemma ReceiveGood(k: Kernel, q: nat, timeout: nat)
    requires Good(k) && Shape(k)
    ensures Good(Receive(k, q, timeout).0) && Good(ReceiveFromIsr(k, q).0)
    ensures Exact(k) ==> Exact(Receive(k, q, timeout).0) && Exact(ReceiveFromIsr(k, q).0)
  {
    hide Inv, Exact, ReceiveLocked, Prompt;
    ReceiveLockedInv(k, q, timeout, true);
    ReceiveLockedInv(k, q, NO_WAIT, false);
    ReceiveLockedPrompt(k, q, timeout);
    FlagsInv(ReceiveLocked(k, q, timeout, true).0, Receive(k, q, timeout).0, {});
    FlagsInv(ReceiveLocked(k, q, NO_WAIT, false).0, ReceiveFromIsr(k, q).0, {});
  }
}
