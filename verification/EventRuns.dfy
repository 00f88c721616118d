/**
 Event ownership under interleaving. Threads (application tasks, active objects, interrupt
 handlers) run framework calls concurrently; every critical section and every queue
 operation is one step. References are followed wherever they are: held by a thread, in
 flight inside a call, queued, or held by a dispatcher.
 */
module EventRuns {
  import opened Config
  import opened Sequences
  import opened EventPool
  import PS = PubSub

  /** The call a thread is inside of. A reference in flight belongs to the call. */
  datatype Activity =
    | Idle
    | Making(b: nat, signal: nat)
    | Posting(target: nat, e: nat)
    | Sharing(target: nat, e: nat)
    | Undoing(e: nat)
    | Publishing(p: Publication)

  datatype Phase = Choosing | Sending | RollingBack

  /** A publish in progress: its snapshot of subscribers, the next one, and what it did so far. */
  datatype Publication = Publication(
    e: nat, targets: seq<nat>, i: nat, phase: Phase, delivered: nat, retained: nat, released: nat, status: Status)

  datatype Thread = Thread(held: multiset<nat>, act: Activity, dispatching: Option<nat>)

  /** Thread `a` is the dispatcher of queue `a`. */
  datatype Machine = Machine(pool: Pool, statics: seq<nat>, capacity: nat, queues: seq<seq<nat>>, threads: seq<Thread>,
      subs: seq<seq<nat>>)

  datatype Action =
    | Take(t: nat, signal: nat)
    | WriteHeader(t: nat)
    | Keep(t: nat, e: nat)
    | Drop(t: nat, e: nat)
    | Post(t: nat, target: nat, e: nat)
    | PostShared(t: nat, target: nat, e: nat)
    | Accept(t: nat)
    | Refuse(t: nat, why: Status)
    | Undo(t: nat)
    | Publish(t: nat, e: nat)
    | PublishNext(t: nat)
    | PublishEnd(t: nat)
    | Receive(t: nat)
    | Dispatched(t: nat)
    | Subscribe(signal: nat, max: nat, x: nat)
    | Unsubscribe(signal: nat, x: nat)

  // ---------------------------------------------------------------------------
  // Where references are
  // ---------------------------------------------------------------------------

  function InFlight(act: Activity): multiset<nat> {
    match act
    case Idle => multiset{}
    case Making(_, _) => multiset{}
    case Posting(_, e) => multiset{e}
    case Sharing(_, e) => multiset{e}
    case Undoing(e) => multiset{e}
    case Publishing(p) => if p.phase == Choosing then multiset{p.e} else multiset{p.e, p.e}
  }

  function RefsOf(x: Thread): multiset<nat> {
    x.held + InFlight(x.act) + (if x.dispatching.Some? then multiset{x.dispatching.value} else multiset{})
  }

  function ThreadRefs(ts: seq<Thread>): multiset<nat> {
    if ts == [] then multiset{} else RefsOf(ts[0]) + ThreadRefs(ts[1..])
  }

  function QueueRefs(qs: seq<seq<nat>>): multiset<nat> {
    if qs == [] then multiset{} else multiset(qs[0]) + QueueRefs(qs[1..])
  }

  /** Every reference to every event, wherever it is. */
  function Refs(m: Machine): multiset<nat> {
    ThreadRefs(m.threads) + QueueRefs(m.queues)
  }

  function SignalOf(m: Machine, e: nat): nat {
    if e < |m.pool.blocks| then (if m.pool.blocks[e].Live? then m.pool.blocks[e].signal else 0)
    else if e - |m.pool.blocks| < |m.statics| then m.statics[e - |m.pool.blocks|] else 0
  }

  // ---------------------------------------------------------------------------
  // Steps
  // ---------------------------------------------------------------------------

  /** The queue that the reference in flight is sent to. */
  function TargetOf(act: Activity): Option<nat> {
    match act
    case Posting(q, _) => Some(q)
    case Sharing(q, _) => Some(q)
    case Publishing(p) => if p.phase == Sending && p.i < |p.targets| then Some(p.targets[p.i]) else None
    case _ => None
  }

  /** A thread uses only references it owns, and makes one call at a time. A send can be accepted
      only when the queue has room. */
  predicate Enabled(m: Machine, s: Action) {
    match s
    case Take(t, signal) => t < |m.threads| && m.threads[t].act == Idle && signal != 0
    case WriteHeader(t) => t < |m.threads| && m.threads[t].act.Making?
    case Keep(t, e) => t < |m.threads| && m.threads[t].act == Idle
      && (e in m.threads[t].held || m.threads[t].dispatching == Some(e))
    case Drop(t, e) => t < |m.threads| && m.threads[t].act == Idle && e in m.threads[t].held
    case Post(t, _, e) => t < |m.threads| && m.threads[t].act == Idle && e in m.threads[t].held
    case PostShared(t, _, e) => t < |m.threads| && m.threads[t].act == Idle && e in m.threads[t].held
    case Accept(t) =>
      t < |m.threads| && TargetOf(m.threads[t].act).Some? &&
      var q := TargetOf(m.threads[t].act).value; q < |m.queues| && |m.queues[q]| < m.capacity
    case Refuse(t, why) => t < |m.threads| && TargetOf(m.threads[t].act).Some? && why != Ok
    case Undo(t) => t < |m.threads| && (m.threads[t].act.Undoing?
      || (m.threads[t].act.Publishing? && m.threads[t].act.p.phase == RollingBack))
    case Publish(t, e) =>
      t < |m.threads| && m.threads[t].act == Idle && e in m.threads[t].held && SIG_USER <= SignalOf(m, e) < |m.subs|
    case PublishNext(t) => t < |m.threads| && m.threads[t].act.Publishing? && m.threads[t].act.p.phase == Choosing
      && m.threads[t].act.p.i < |m.threads[t].act.p.targets|
    case PublishEnd(t) => t < |m.threads| && m.threads[t].act.Publishing? && m.threads[t].act.p.phase == Choosing
      && m.threads[t].act.p.i >= |m.threads[t].act.p.targets|
    case Receive(t) => t < |m.threads| && t < |m.queues| && m.threads[t].act == Idle
      && m.threads[t].dispatching == None && m.queues[t] != []
    case Dispatched(t) => t < |m.threads| && m.threads[t].act == Idle && m.threads[t].dispatching.Some?
    case Subscribe(_, _, _) => true
    case Unsubscribe(_, _) => true
  }

  /** One thread and the pool change. */
  function With(m: Machine, t: nat, x: Thread, pool: Pool): Machine
    requires t < |m.threads|
  {
    m.(threads := m.threads[t := x], pool := pool)
  }

  /** The first failure is the one reported. */
  function First(status: Status, next: Status): Status {
    if status == Ok then next else status
  }

  /** The reference that a call gives up when its send is accepted or its retain undone. */
  function FlightOf(act: Activity): nat
    requires act.Posting? || act.Sharing? || act.Undoing? || act.Publishing?
  {
    if act.Publishing? then act.p.e else act.e
  }

  /** What becomes of a call whose reference was accepted. */
  function AfterAccept(act: Activity): Activity {
    match act
    case Publishing(p) => Publishing(p.(i := p.i + 1, phase := Choosing, delivered := p.delivered + 1))
    case _ => Idle
  }

  function Accepted(m: Machine, t: nat): Machine
    requires Enabled(m, Accept(t))
  {
    var x := m.threads[t];
    var q := TargetOf(x.act).value;
    m.(threads := m.threads[t := x.(act := AfterAccept(x.act))],
        queues := m.queues[q := m.queues[q] + [FlightOf(x.act)]])
  }

  /** What becomes of a call whose reference was refused: a plain post hands it back. */
  function AfterRefuse(x: Thread, why: Status): Thread {
    match x.act
    case Posting(_, e) => x.(act := Idle, held := x.held + multiset{e})
    case Sharing(_, e) => x.(act := Undoing(e))
    case Publishing(p) => x.(act := Publishing(p.(phase := RollingBack, status := First(p.status, why))))
    case _ => x
  }

  function AfterUndo(x: Thread): Thread {
    match x.act
    case Publishing(p) => x.(act := Publishing(p.(i := p.i + 1, phase := Choosing, released := p.released + 1)))
    case _ => x.(act := Idle)
  }

  /** Retain for the next subscriber; a full counter skips it. */
  function AfterChoice(p: Publication, status: Status): Publication {
    if status == Ok then p.(phase := Sending, retained := p.retained + 1)
    else p.(i := p.i + 1, status := First(p.status, status))
  }

  function Perform(m: Machine, s: Action): Machine
    requires Enabled(m, s)
  {
    match s
    case Take(t, signal) =>
      var (pool, b) := TakeBlock(m.pool);
      if b.None? then m else With(m, t, m.threads[t].(act := Making(b.value, signal)), pool)
    case WriteHeader(t) =>
      var x := m.threads[t];
      if x.act.b >= |m.pool.blocks| then m
      else With(m, t, x.(act := Idle, held := x.held + multiset{x.act.b}), Initialise(m.pool, x.act.b, x.act.signal))
    case Keep(t, e) =>
      var (pool, status) := Retain(m.pool, e);
      if status == Ok then With(m, t, m.threads[t].(held := m.threads[t].held + multiset{e}), pool) else m
    case Drop(t, e) =>
      With(m, t, m.threads[t].(held := m.threads[t].held - multiset{e}), Release(m.pool, e).0)
    case Post(t, target, e) =>
      With(m, t, m.threads[t].(held := m.threads[t].held - multiset{e}, act := Posting(target, e)), m.pool)
    case PostShared(t, target, e) =>
      var (pool, status) := Retain(m.pool, e);
      if status == Ok then With(m, t, m.threads[t].(act := Sharing(target, e)), pool) else m
    case Accept(t) => Accepted(m, t)
    case Refuse(t, why) => With(m, t, AfterRefuse(m.threads[t], why), m.pool)
    case Undo(t) =>
      var x := m.threads[t];
      With(m, t, AfterUndo(x), Release(m.pool, FlightOf(x.act)).0)
    case Publish(t, e) =>
      var x := m.threads[t];
      With(m, t, x.(held := x.held - multiset{e},
                    act := Publishing(Publication(e, m.subs[SignalOf(m, e)], 0, Choosing, 0, 0, 0, Ok))), m.pool)
    case PublishNext(t) =>
      var x := m.threads[t];
      var (pool, status) := Retain(m.pool, x.act.p.e);
      With(m, t, x.(act := Publishing(AfterChoice(x.act.p, status))), pool)
    case PublishEnd(t) =>
      With(m, t, m.threads[t].(act := Idle), Release(m.pool, m.threads[t].act.p.e).0)
    case Receive(t) =>
      m.(threads := m.threads[t := m.threads[t].(dispatching := Some(m.queues[t][0]))],
          queues := m.queues[t := m.queues[t][1..]])
    case Dispatched(t) =>
      With(m, t, m.threads[t].(dispatching := None), Release(m.pool, m.threads[t].dispatching.value).0)
    case Subscribe(signal, max, x) =>
      if SIG_USER <= signal < |m.subs| then m.(subs := m.subs[signal := PS.Subscribed(m.subs[signal], max, x).0]) else m
    case Unsubscribe(signal, x) =>
      if SIG_USER <= signal < |m.subs| then m.(subs := m.subs[signal := PS.Unsubscribed(m.subs[signal], x).0]) else m
  }

  // ---------------------------------------------------------------------------
  // Counting references
  // ---------------------------------------------------------------------------

  lemma {:induction false} ThreadUpdate(ts: seq<Thread>, t: nat, x: Thread)
    requires t < |ts|
    ensures ThreadRefs(ts[t := x]) + RefsOf(ts[t]) == ThreadRefs(ts) + RefsOf(x)
    ensures RefsOf(ts[t]) <= ThreadRefs(ts)
  {
    hide RefsOf;
    if t == 0 {
      assert ts[t := x][1..] == ts[1..];
    } else {
      ThreadUpdate(ts[1..], t - 1, x);
      assert ts[t := x][1..] == ts[1..][t - 1 := x];
      var a, b, c, d := RefsOf(ts[0]), ThreadRefs(ts[1..][t - 1 := x]), RefsOf(ts[t]), ThreadRefs(ts[1..]);
      assert (a + b) + c == a + (b + c);
      assert a + (d + RefsOf(x)) == (a + d) + RefsOf(x);
    }
  }

  lemma {:induction false} QueueUpdate(qs: seq<seq<nat>>, q: nat, s: seq<nat>)
    requires q < |qs|
    ensures QueueRefs(qs[q := s]) + multiset(qs[q]) == QueueRefs(qs) + multiset(s)
    ensures multiset(qs[q]) <= QueueRefs(qs)
  {
    if q == 0 {
      assert qs[q := s][1..] == qs[1..];
    } else {
      QueueUpdate(qs[1..], q - 1, s);
      assert qs[q := s][1..] == qs[1..][q - 1 := s];
      var a, b, c, d := multiset(qs[0]), QueueRefs(qs[1..][q - 1 := s]), multiset(qs[q]), QueueRefs(qs[1..]);
      assert (a + b) + c == a + (b + c);
      assert a + (d + multiset(s)) == (a + d) + multiset(s);
    }
  }

  /** Every live event is counted right; no block without an event is referred to. */
  ghost predicate Counted(p: Pool, refs: multiset<nat>) {
    forall e: nat :: e < |p.blocks| ==>
      if p.blocks[e].Live? then p.blocks[e].count == refs[e] && 0 < refs[e] <= UINT16_MAX else refs[e] == 0
  }

  lemma CountedRetain(p: Pool, refs: multiset<nat>, e: nat)
    requires Counted(p, refs) && e in refs && PoolOk(p)
    ensures var (p', status) := Retain(p, e);
      && PoolOk(p') && ValidEvent(p, e) && |p'.blocks| == |p.blocks|
      && (status == Ok ==> Counted(p', refs + multiset{e}))
      && (status != Ok ==> p' == p && status == Overflow && e < |p.blocks| && refs[e] == UINT16_MAX)
      && (forall b: nat :: b < |p.blocks| ==> (p'.blocks[b] == Raw <==> p.blocks[b] == Raw))
  {
    RetainOk(p, e);
  }

  lemma CountedRelease(p: Pool, refs: multiset<nat>, e: nat)
    requires Counted(p, refs) && e in refs && PoolOk(p)
    ensures var (p', status) := Release(p, e);
      && PoolOk(p') && status == Ok && ValidEvent(p, e) && |p'.blocks| == |p.blocks|
      && Counted(p', refs - multiset{e})
      && (forall b: nat :: b < |p.blocks| ==> (p'.blocks[b] == Raw <==> p.blocks[b] == Raw))
  {
    ReleaseOk(p, e);
  }

  /** A change of one thread changes the references by the difference. */
  lemma RefsChange(m: Machine, t: nat, x: Thread, pool: Pool)
    requires t < |m.threads|
    ensures Refs(With(m, t, x, pool)) + RefsOf(m.threads[t]) == Refs(m) + RefsOf(x)
    ensures RefsOf(m.threads[t]) <= Refs(m)
  {
    hide RefsOf, ThreadRefs, QueueRefs;
    ThreadUpdate(m.threads, t, x);
    var a, b, c, d := ThreadRefs(m.threads[t := x]), QueueRefs(m.queues), RefsOf(m.threads[t]), ThreadRefs(m.threads);
    assert (a + b) + c == (a + c) + b;
    assert (d + RefsOf(x)) + b == (d + b) + RefsOf(x);
  }

  lemma RefsMore(m: Machine, t: nat, x: Thread, pool: Pool, e: nat)
    requires t < |m.threads| && RefsOf(x) == RefsOf(m.threads[t]) + multiset{e}
    ensures Refs(With(m, t, x, pool)) == Refs(m) + multiset{e}
  {
    hide RefsOf, Refs;
    RefsChange(m, t, x, pool);
    var r := RefsOf(m.threads[t]);
    assert Refs(m) + (r + multiset{e}) == (Refs(m) + multiset{e}) + r;
    Cancel(Refs(With(m, t, x, pool)), Refs(m) + multiset{e}, r);
  }

  lemma RefsLess(m: Machine, t: nat, x: Thread, pool: Pool, e: nat)
    requires t < |m.threads| && RefsOf(x) + multiset{e} == RefsOf(m.threads[t])
    ensures e in Refs(m) && Refs(With(m, t, x, pool)) == Refs(m) - multiset{e}
  {
    hide RefsOf, Refs;
    RefsChange(m, t, x, pool);
    assert e in RefsOf(m.threads[t]);
    var r := Refs(With(m, t, x, pool));
    assert r + (RefsOf(x) + multiset{e}) == (r + multiset{e}) + RefsOf(x);
    Cancel(r + multiset{e}, Refs(m), RefsOf(x));
  }

  lemma RefsSame(m: Machine, t: nat, x: Thread, pool: Pool)
    requires t < |m.threads| && RefsOf(x) == RefsOf(m.threads[t])
    ensures Refs(With(m, t, x, pool)) == Refs(m)
  {
    hide RefsOf, Refs;
    RefsChange(m, t, x, pool);
    Cancel(Refs(With(m, t, x, pool)), Refs(m), RefsOf(x));
  }

  lemma Cancel(a: multiset<nat>, b: multiset<nat>, c: multiset<nat>)
    requires a + c == b + c
    ensures a == b
  {
    forall x: nat
      ensures a[x] == b[x]
    {
      assert (a + c)[x] == (b + c)[x];
    }
  }

  // ---------------------------------------------------------------------------
  // Invariant
  // ---------------------------------------------------------------------------

  /** Blocks without a header yet are exactly those that one thread is about to initialise. */
  ghost predicate MakersOk(m: Machine) {
    && (forall t: nat :: t < |m.threads| && m.threads[t].act.Making? ==>
          m.threads[t].act.b < |m.pool.blocks| && m.pool.blocks[m.threads[t].act.b] == Raw)
    && (forall t: nat, u: nat :: t < u < |m.threads| && m.threads[t].act.Making? && m.threads[u].act.Making? ==>
          m.threads[t].act.b != m.threads[u].act.b)
    && (forall b: nat :: b < |m.pool.blocks| && m.pool.blocks[b] == Raw ==> Made(m, b))
  }

  ghost predicate Made(m: Machine, b: nat) {
    exists t: nat :: t < |m.threads| && m.threads[t].act.Making? && m.threads[t].act.b == b
  }

  /** A publish has retained what it released and delivered, plus what is in flight; it reports
      success exactly while every subscriber so far was reached. */
  predicate PublicationOk(p: Publication) {
    && p.retained == p.released + p.delivered + (if p.phase == Choosing then 0 else 1)
    && p.delivered <= p.i <= |p.targets| && (p.phase != Choosing ==> p.i < |p.targets|)
    && (if p.phase == RollingBack then p.status != Ok else p.status == Ok <==> p.delivered == p.i)
  }

  ghost predicate PublicationsOk(m: Machine) {
    forall t: nat :: t < |m.threads| && m.threads[t].act.Publishing? ==> PublicationOk(m.threads[t].act.p)
  }

  ghost predicate Good(m: Machine) {
    PoolOk(m.pool) && Counted(m.pool, Refs(m)) && MakersOk(m) && PublicationsOk(m)
  }

  /** Steps that neither take nor initialise a block. */
  lemma MakersFrame(m: Machine, m': Machine, t: nat)
    requires MakersOk(m) && t < |m.threads| == |m'.threads| && m'.threads == m.threads[t := m'.threads[t]]
    requires !m.threads[t].act.Making? && !m'.threads[t].act.Making?
    requires |m'.pool.blocks| == |m.pool.blocks|
    requires forall b: nat :: b < |m.pool.blocks| ==> (m'.pool.blocks[b] == Raw <==> m.pool.blocks[b] == Raw)
    ensures MakersOk(m')
  {
    forall b: nat | b < |m'.pool.blocks| && m'.pool.blocks[b] == Raw
      ensures Made(m', b)
    {
      assert Made(m, b);
      var u: nat :| u < |m.threads| && m.threads[u].act.Making? && m.threads[u].act.b == b;
      assert m'.threads[u].act.b == b;
    }
  }

  lemma PublicationsFrame(m: Machine, m': Machine, t: nat)
    requires PublicationsOk(m) && t < |m.threads| == |m'.threads| && m'.threads == m.threads[t := m'.threads[t]]
    requires m'.threads[t].act.Publishing? ==> PublicationOk(m'.threads[t].act.p)
    ensures PublicationsOk(m')
  {
  }

  /** A step of a thread that keeps, gains or gives up one reference. */
  lemma StepRetains(m: Machine, t: nat, x: Thread, e: nat)
    requires Good(m) && t < |m.threads| && !m.threads[t].act.Making? && !x.act.Making? && e in RefsOf(m.threads[t])
    requires x.act.Publishing? ==> PublicationOk(x.act.p)
    requires RefsOf(x) == if Retain(m.pool, e).1 == Ok then RefsOf(m.threads[t]) + multiset{e} else RefsOf(m.threads[t])
    ensures Good(With(m, t, x, Retain(m.pool, e).0))
  {
    hide RefsOf, Refs, PoolOk, Counted, MakersOk, PublicationsOk, Retain, PublicationOk;
    var m' := With(m, t, x, Retain(m.pool, e).0);
    RefsChange(m, t, x, m'.pool);
    CountedRetain(m.pool, Refs(m), e);
    if Retain(m.pool, e).1 == Ok {
      RefsMore(m, t, x, m'.pool, e);
    } else {
      RefsSame(m, t, x, m'.pool);
    }
    MakersFrame(m, m', t);
    PublicationsFrame(m, m', t);
  }

  lemma StepReleases(m: Machine, t: nat, x: Thread, e: nat)
    requires Good(m) && t < |m.threads| && !m.threads[t].act.Making? && !x.act.Making?
    requires x.act.Publishing? ==> PublicationOk(x.act.p)
    requires RefsOf(x) + multiset{e} == RefsOf(m.threads[t])
    ensures Good(With(m, t, x, Release(m.pool, e).0)) && Release(m.pool, e).1 == Ok
  {
    hide RefsOf, Refs, PoolOk, Counted, MakersOk, PublicationsOk, Release, PublicationOk;
    var m' := With(m, t, x, Release(m.pool, e).0);
    RefsLess(m, t, x, m'.pool, e);
    CountedRelease(m.pool, Refs(m), e);
    MakersFrame(m, m', t);
    PublicationsFrame(m, m', t);
  }

  lemma StepMoves(m: Machine, t: nat, x: Thread)
    requires Good(m) && t < |m.threads| && !m.threads[t].act.Making? && !x.act.Making?
    requires x.act.Publishing? ==> PublicationOk(x.act.p)
    requires RefsOf(x) == RefsOf(m.threads[t])
    ensures Good(With(m, t, x, m.pool))
  {
    hide RefsOf, Refs, PoolOk, Counted, MakersOk, PublicationsOk, PublicationOk;
    RefsSame(m, t, x, m.pool);
    MakersFrame(m, With(m, t, x, m.pool), t);
    PublicationsFrame(m, With(m, t, x, m.pool), t);
  }

  /** A reference moves between a thread and a queue. */
  lemma StepQueues(m: Machine, t: nat, x: Thread, q: nat, s: seq<nat>)
    requires Good(m) && t < |m.threads| && q < |m.queues| && !m.threads[t].act.Making? && !x.act.Making?
    requires x.act.Publishing? ==> PublicationOk(x.act.p)
    requires RefsOf(x) + multiset(s) == RefsOf(m.threads[t]) + multiset(m.queues[q])
    ensures Good(m.(threads := m.threads[t := x], queues := m.queues[q := s]))
  {
    hide RefsOf, ThreadRefs, QueueRefs, PoolOk, Counted, MakersOk, PublicationsOk, PublicationOk;
    var m' := m.(threads := m.threads[t := x], queues := m.queues[q := s]);
    ThreadUpdate(m.threads, t, x);
    QueueUpdate(m.queues, q, s);
    Exchanged(ThreadRefs(m'.threads), QueueRefs(m'.queues), RefsOf(m.threads[t]), multiset(m.queues[q]),
              ThreadRefs(m.threads), QueueRefs(m.queues), RefsOf(x), multiset(s));
    MakersFrame(m, m', t);
    PublicationsFrame(m, m', t);
  }

  lemma Exchanged(a': multiset<nat>, b': multiset<nat>, x: multiset<nat>, y: multiset<nat>,
                  a: multiset<nat>, b: multiset<nat>, x': multiset<nat>, y': multiset<nat>)
    requires a' + x == a + x' && b' + y == b + y' && x' + y' == x + y
    ensures a' + b' == a + b
  {
    forall e: nat
      ensures (a' + b')[e] == (a + b)[e]
    {
      assert (a' + x)[e] == (a + x')[e] && (b' + y)[e] == (b + y')[e] && (x' + y')[e] == (x + y)[e];
    }
  }

  // ---------------------------------------------------------------------------
  // Every step
  // ---------------------------------------------------------------------------

  lemma TakeGood(m: Machine, t: nat, signal: nat)
    requires Good(m) && Enabled(m, Take(t, signal))
    ensures Good(Perform(m, Take(t, signal)))
  {
    hide Refs, PoolOk, TakeBlock;
    TakeOk(m.pool);
    var (pool, b) := TakeBlock(m.pool);
    if b.Some? {
      var x := m.threads[t].(act := Making(b.value, signal));
      var m' := With(m, t, x, pool);
      assert RefsOf(x) == RefsOf(m.threads[t]);
      RefsSame(m, t, x, pool);
      forall c: nat | c < |m'.pool.blocks| && m'.pool.blocks[c] == Raw
        ensures Made(m', c)
      {
        if c == b.value {
          assert m'.threads[t].act.b == c;
        } else {
          assert Made(m, c);
          var u: nat :| u < |m.threads| && m.threads[u].act.Making? && m.threads[u].act.b == c;
          assert m'.threads[u].act.b == c;
        }
      }
    }
  }

  lemma WriteGood(m: Machine, t: nat)
    requires Good(m) && Enabled(m, WriteHeader(t))
    ensures Good(Perform(m, WriteHeader(t)))
  {
    hide Refs, PoolOk, RefsOf;
    var x := m.threads[t];
    var b := x.act.b;
    var x' := x.(act := Idle, held := x.held + multiset{b});
    InitialiseOk(m.pool, b, x.act.signal);
    var m' := With(m, t, x', Initialise(m.pool, b, x.act.signal));
    CallKeeps(x, Idle);
    HeldMore(x.(act := Idle), b);
    RefsMore(m, t, x', m'.pool, b);
    forall c: nat | c < |m'.pool.blocks| && m'.pool.blocks[c] == Raw
      ensures Made(m', c)
    {
      assert Made(m, c);
      var u: nat :| u < |m.threads| && m.threads[u].act.Making? && m.threads[u].act.b == c;
      assert m'.threads[u].act.b == c;
    }
  }

  /** The reference in flight is given up, or one more is gained. */
  lemma CallLoses(x: Thread, act: Activity, e: nat)
    requires InFlight(act) + multiset{e} == InFlight(x.act)
    ensures RefsOf(x.(act := act)) + multiset{e} == RefsOf(x)
    ensures RefsOf(x.(act := act, held := x.held + multiset{e})) == RefsOf(x)
  {
    hide InFlight;
  }

  lemma CallGains(x: Thread, act: Activity, e: nat)
    requires InFlight(act) == InFlight(x.act) + multiset{e}
    ensures RefsOf(x.(act := act)) == RefsOf(x) + multiset{e}
  {
    hide InFlight;
  }

  lemma CallKeeps(x: Thread, act: Activity)
    requires InFlight(act) == InFlight(x.act)
    ensures RefsOf(x.(act := act)) == RefsOf(x)
  {
    hide InFlight;
  }

  lemma HeldLess(x: Thread, e: nat)
    requires e in x.held
    ensures RefsOf(x.(held := x.held - multiset{e})) + multiset{e} == RefsOf(x) && e in RefsOf(x)
  {
    hide InFlight;
    assert x.held == (x.held - multiset{e}) + multiset{e};
  }

  /** A held reference goes into a call. */
  lemma HeldToCall(x: Thread, act: Activity, e: nat)
    requires e in x.held && InFlight(act) == InFlight(x.act) + multiset{e}
    ensures RefsOf(x.(held := x.held - multiset{e}, act := act)) == RefsOf(x)
  {
    hide InFlight;
    HeldLess(x, e);
    CallGains(x.(held := x.held - multiset{e}), act, e);
  }

  lemma HeldMore(x: Thread, e: nat)
    ensures RefsOf(x.(held := x.held + multiset{e})) == RefsOf(x) + multiset{e}
  {
    hide InFlight;
  }

  lemma DispatchedOwned(x: Thread, e: nat)
    requires x.dispatching == Some(e)
    ensures e in RefsOf(x)
  {
    hide InFlight;
  }

  lemma KeepGood(m: Machine, t: nat, e: nat)
    requires Good(m) && Enabled(m, Keep(t, e))
    ensures Good(Perform(m, Keep(t, e)))
  {
    hide Good, Retain, RefsOf;
    var x := m.threads[t];
    if e in x.held {
      HeldLess(x, e);
    } else {
      DispatchedOwned(x, e);
    }
    HeldMore(x, e);
    if Retain(m.pool, e).1 == Ok {
      StepRetains(m, t, x.(held := x.held + multiset{e}), e);
    }
  }

  lemma DropGood(m: Machine, t: nat, e: nat)
    requires Good(m) && Enabled(m, Drop(t, e))
    ensures Good(Perform(m, Drop(t, e)))
  {
    hide Good, Release, RefsOf;
    HeldLess(m.threads[t], e);
    StepReleases(m, t, m.threads[t].(held := m.threads[t].held - multiset{e}), e);
  }

  lemma PostGood(m: Machine, t: nat, target: nat, e: nat)
    requires Good(m) && Enabled(m, Post(t, target, e))
    ensures Good(Perform(m, Post(t, target, e)))
  {
    hide Good, RefsOf;
    HeldToCall(m.threads[t], Posting(target, e), e);
    StepMoves(m, t, m.threads[t].(held := m.threads[t].held - multiset{e}, act := Posting(target, e)));
  }

  lemma PostSharedGood(m: Machine, t: nat, target: nat, e: nat)
    requires Good(m) && Enabled(m, PostShared(t, target, e))
    ensures Good(Perform(m, PostShared(t, target, e)))
  {
    hide Good, Retain, RefsOf;
    HeldLess(m.threads[t], e);
    CallGains(m.threads[t], Sharing(target, e), e);
    if Retain(m.pool, e).1 == Ok {
      StepRetains(m, t, m.threads[t].(act := Sharing(target, e)), e);
    }
  }

  lemma PublicationKnown(m: Machine, t: nat)
    requires Good(m) && t < |m.threads| && m.threads[t].act.Publishing?
    ensures PublicationOk(m.threads[t].act.p)
  {
  }

  lemma AcceptGood(m: Machine, t: nat)
    requires Good(m) && Enabled(m, Accept(t))
    ensures Good(Perform(m, Accept(t)))
  {
    hide Good, RefsOf, InFlight;
    var x := m.threads[t];
    if x.act.Publishing? {
      PublicationKnown(m, t);
    }
    var q := TargetOf(x.act).value;
    var e := FlightOf(x.act);
    var x' := x.(act := AfterAccept(x.act));
    AcceptedFlight(x.act);
    CallLoses(x, x'.act, e);
    var was := m.queues[q];
    assert multiset(was + [e]) == multiset(was) + multiset{e};
    assert RefsOf(x') + (multiset(was) + multiset{e}) == (RefsOf(x') + multiset{e}) + multiset(was);
    StepQueues(m, t, x', q, was + [e]);
  }

  lemma RefuseGood(m: Machine, t: nat, why: Status)
    requires Good(m) && Enabled(m, Refuse(t, why))
    ensures Good(Perform(m, Refuse(t, why)))
  {
    hide Good, RefsOf, InFlight;
    var x := m.threads[t];
    if x.act.Publishing? {
      PublicationKnown(m, t);
    }
    RefusedRefs(x, why);
    StepMoves(m, t, AfterRefuse(x, why));
  }

  lemma RefusedRefs(x: Thread, why: Status)
    requires TargetOf(x.act).Some?
    ensures RefsOf(AfterRefuse(x, why)) == RefsOf(x)
  {
    hide RefsOf, InFlight;
    RefusedFlight(x.act, why);
    match x.act
    case Posting(_, e) => CallLoses(x, Idle, e);
    case Sharing(_, e) => CallKeeps(x, Undoing(e));
    case Publishing(p) => CallKeeps(x, Publishing(p.(phase := RollingBack, status := First(p.status, why))));
  }

  lemma RefusedFlight(act: Activity, why: Status)
    requires TargetOf(act).Some?
    ensures act.Posting? ==> InFlight(Idle) + multiset{act.e} == InFlight(act)
    ensures act.Sharing? ==> InFlight(Undoing(act.e)) == InFlight(act)
    ensures act.Publishing? ==> InFlight(Publishing(act.p.(phase := RollingBack,
      status := First(act.p.status, why)))) == InFlight(act)
  {
  }

  lemma AcceptedFlight(act: Activity)
    requires TargetOf(act).Some?
    ensures InFlight(AfterAccept(act)) + multiset{FlightOf(act)} == InFlight(act)
  {
  }

  lemma UndoneFlight(x: Thread)
    requires x.act.Undoing? || (x.act.Publishing? && x.act.p.phase == RollingBack)
    ensures InFlight(AfterUndo(x).act) + multiset{FlightOf(x.act)} == InFlight(x.act)
  {
  }

  lemma ChosenFlight(p: Publication, status: Status)
    requires p.phase == Choosing
    ensures p.e in InFlight(Publishing(p))
    ensures InFlight(Publishing(AfterChoice(p, status))) ==
      if status == Ok then InFlight(Publishing(p)) + multiset{p.e} else InFlight(Publishing(p))
  {
  }

  lemma UndoGood(m: Machine, t: nat)
    requires Good(m) && Enabled(m, Undo(t))
    ensures Good(Perform(m, Undo(t)))
  {
    hide Good, Release, RefsOf, InFlight;
    var x := m.threads[t];
    if x.act.Publishing? {
      PublicationKnown(m, t);
    }
    var e := FlightOf(x.act);
    UndoneFlight(x);
    CallLoses(x, AfterUndo(x).act, e);
    StepReleases(m, t, AfterUndo(x), e);
  }

  lemma PublishGood(m: Machine, t: nat, e: nat)
    requires Good(m) && Enabled(m, Publish(t, e))
    ensures Good(Perform(m, Publish(t, e)))
  {
    hide Good, RefsOf, SignalOf;
    var x := m.threads[t];
    var act := Publishing(Publication(e, m.subs[SignalOf(m, e)], 0, Choosing, 0, 0, 0, Ok));
    HeldToCall(x, act, e);
    StepMoves(m, t, x.(held := x.held - multiset{e}, act := act));
  }

  lemma PublishNextGood(m: Machine, t: nat)
    requires Good(m) && Enabled(m, PublishNext(t))
    ensures Good(Perform(m, PublishNext(t)))
  {
    hide Good, Retain, RefsOf, InFlight;
    var x := m.threads[t];
    var e := x.act.p.e;
    PublicationKnown(m, t);
    ChosenFlight(x.act.p, Retain(m.pool, e).1);
    var act := Publishing(AfterChoice(x.act.p, Retain(m.pool, e).1));
    CallOwns(x, e);
    if Retain(m.pool, e).1 == Ok {
      CallGains(x, act, e);
    } else {
      CallKeeps(x, act);
    }
    StepRetains(m, t, x.(act := act), e);
  }

  lemma CallOwns(x: Thread, e: nat)
    requires e in InFlight(x.act)
    ensures e in RefsOf(x)
  {
    hide InFlight;
  }

  lemma PublishEndGood(m: Machine, t: nat)
    requires Good(m) && Enabled(m, PublishEnd(t))
    ensures Good(Perform(m, PublishEnd(t)))
  {
    hide Good, Release, RefsOf;
    var x := m.threads[t];
    CallLoses(x, Idle, x.act.p.e);
    StepReleases(m, t, x.(act := Idle), x.act.p.e);
  }

  lemma DispatchGood(m: Machine, s: Action)
    requires Good(m) && Enabled(m, s) && (s.Receive? || s.Dispatched?)
    ensures Good(Perform(m, s))
  {
    hide Good, Release;
    var t := s.t;
    var x := m.threads[t];
    match s
    case Receive(_) =>
      var e := m.queues[t][0];
      assert m.queues[t] == [e] + m.queues[t][1..];
      assert RefsOf(x.(dispatching := Some(e))) == RefsOf(x) + multiset{e};
      assert multiset(m.queues[t]) == multiset{e} + multiset(m.queues[t][1..]);
      StepQueues(m, t, x.(dispatching := Some(e)), t, m.queues[t][1..]);
    case Dispatched(_) =>
      assert RefsOf(x.(dispatching := None)) + multiset{x.dispatching.value} == RefsOf(x);
      StepReleases(m, t, x.(dispatching := None), x.dispatching.value);
  }

  /** Every step keeps every count equal to the number of references. */
  lemma StepGood(m: Machine, s: Action)
    requires Good(m) && Enabled(m, s)
    ensures Good(Perform(m, s))
  {
    hide Good;
    match s
    case Take(t, signal) => TakeGood(m, t, signal);
    case WriteHeader(t) => WriteGood(m, t);
    case Keep(t, e) => KeepGood(m, t, e);
    case Drop(t, e) => DropGood(m, t, e);
    case Post(t, target, e) => PostGood(m, t, target, e);
    case PostShared(t, target, e) => PostSharedGood(m, t, target, e);
    case Accept(t) => AcceptGood(m, t);
    case Refuse(t, why) => RefuseGood(m, t, why);
    case Undo(t) => UndoGood(m, t);
    case Publish(t, e) => PublishGood(m, t, e);
    case PublishNext(t) => PublishNextGood(m, t);
    case PublishEnd(t) => PublishEndGood(m, t);
    case Receive(_) => DispatchGood(m, s);
    case Dispatched(_) => DispatchGood(m, s);
    case Subscribe(signal, max, x) => TableGood(m, Perform(m, s));
    case Unsubscribe(signal, x) => TableGood(m, Perform(m, s));
  }

  lemma TableGood(m: Machine, m': Machine)
    requires Good(m) && m' == m.(subs := m'.subs)
    ensures Good(m')
  {
    hide PoolOk, Counted, ThreadRefs, QueueRefs;
    assert forall b: nat :: Made(m', b) == Made(m, b);
  }

  // ---------------------------------------------------------------------------
  // Every run
  // ---------------------------------------------------------------------------

  ghost predicate Possible(m: Machine, run: seq<Action>)
    decreases |run|
  {
    run != [] ==> Enabled(m, run[0]) && Possible(Perform(m, run[0]), run[1..])
  }

  function Run(m: Machine, run: seq<Action>): Machine
    requires Possible(m, run)
    decreases |run|
  {
    if run == [] then m else Run(Perform(m, run[0]), run[1..])
  }

  lemma {:induction false} RunGood(m: Machine, run: seq<Action>)
    requires Good(m) && Possible(m, run)
    ensures Good(Run(m, run))
    decreases |run|
  {
    hide Good, Enabled, Perform;
    if run != [] {
      StepGood(m, run[0]);
      RunGood(Perform(m, run[0]), run[1..]);
    }
  }

  /** A new pool, empty queues and threads that own no event. */
  ghost predicate Initial(m: Machine) {
    && FreeListIs(m.pool, Upward(0, |m.pool.blocks|))
    && (forall q: nat :: q < |m.queues| ==> m.queues[q] == [])
    && (forall t: nat :: t < |m.threads| ==> m.threads[t] == Thread(multiset{}, Idle, None))
  }

  lemma {:induction false} NoThreadRefs(ts: seq<Thread>)
    requires forall t: nat :: t < |ts| ==> ts[t] == Thread(multiset{}, Idle, None)
    ensures ThreadRefs(ts) == multiset{}
  {
    if ts != [] {
      NoThreadRefs(ts[1..]);
    }
  }

  lemma {:induction false} NoQueueRefs(qs: seq<seq<nat>>)
    requires forall q: nat :: q < |qs| ==> qs[q] == []
    ensures QueueRefs(qs) == multiset{}
  {
    if qs != [] {
      NoQueueRefs(qs[1..]);
    }
  }

  lemma InitialGood(m: Machine)
    requires Initial(m)
    ensures Good(m)
  {
    NoThreadRefs(m.threads);
    NoQueueRefs(m.queues);
    forall b: nat | b < |m.pool.blocks|
      ensures m.pool.blocks[b].Free?
    {
      assert b in Upward(0, |m.pool.blocks|);
    }
  }

  ghost predicate Reached(m0: Machine, run: seq<Action>, m: Machine) {
    Initial(m0) && Possible(m0, run) && m == Run(m0, run)
  }

  lemma ReachedGood(m0: Machine, run: seq<Action>, m: Machine)
    requires Reached(m0, run, m)
    ensures Good(m)
  {
    hide Good, Initial, Possible, Run;
    InitialGood(m0);
    RunGood(m0, run);
  }

  /** Reference conservation: after every run the count of each live event is the number of
      references held, in flight, queued or being dispatched, and nothing refers to a free block. */
  lemma ReferencesConserved(m0: Machine, run: seq<Action>, m: Machine, e: nat)
    requires Reached(m0, run, m) && e < |m.pool.blocks|
    ensures m.pool.blocks[e].Live? ==> m.pool.blocks[e].count == ThreadRefs(m.threads)[e] + QueueRefs(m.queues)[e] > 0
    ensures !m.pool.blocks[e].Live? ==> ThreadRefs(m.threads)[e] == 0 && QueueRefs(m.queues)[e] == 0
  {
    hide Reached, ThreadRefs, QueueRefs, PoolOk, MakersOk, PublicationsOk;
    ReachedGood(m0, run, m);
    assert Refs(m)[e] == ThreadRefs(m.threads)[e] + QueueRefs(m.queues)[e];
  }

  /** After every run the free blocks are linked once each and counted, and every other block
      holds an event or is being given one by exactly one thread. */
  lemma PoolPartitioned(m0: Machine, run: seq<Action>, m: Machine)
    requires Reached(m0, run, m)
    ensures exists free :: FreeListIs(m.pool, free)
    ensures forall b: nat :: b < |m.pool.blocks| && m.pool.blocks[b] == Raw ==> Made(m, b)
  {
    hide Reached, Refs, Counted, PublicationsOk;
    ReachedGood(m0, run, m);
  }

  /** Whatever a dispatcher receives is a valid event, so its trap is never entered. */
  lemma ReceivedIsValid(m0: Machine, run: seq<Action>, m: Machine, t: nat)
    requires Reached(m0, run, m) && Enabled(m, Receive(t))
    ensures ValidEvent(m.pool, m.queues[t][0])
  {
    hide Reached, ThreadRefs, QueueRefs, PoolOk, MakersOk, PublicationsOk;
    ReachedGood(m0, run, m);
    var e := m.queues[t][0];
    QueueUpdate(m.queues, t, m.queues[t]);
    assert e in multiset(m.queues[t]);
    assert e in Refs(m);
  }

  /** A publisher keeps its event alive from beginning to end, whatever the subscribers do. */
  lemma PublishedStaysAlive(m0: Machine, run: seq<Action>, m: Machine, t: nat)
    requires Reached(m0, run, m) && t < |m.threads| && m.threads[t].act.Publishing?
    ensures ValidEvent(m.pool, m.threads[t].act.p.e)
    ensures m.threads[t].act.p.e in RefsOf(m.threads[t])
  {
    hide Reached, ThreadRefs, QueueRefs, PoolOk, MakersOk, PublicationsOk, RefsOf;
    ReachedGood(m0, run, m);
    CallOwns(m.threads[t], m.threads[t].act.p.e);
    ThreadUpdate(m.threads, t, m.threads[t]);
    assert m.threads[t].act.p.e in Refs(m);
  }

  /** The count of a pool event, or 0. */
  function CountOf(p: Pool, e: nat): nat {
    if e < |p.blocks| && p.blocks[e].Live? then p.blocks[e].count else 0
  }

  /** What a publish has added to the count of its event so far. */
  function NetOf(p: Publication): int {
    p.retained - p.released
  }

  /** Every step inside a publish changes the event's count by what the publish records. */
  lemma PublishCounts(m: Machine, s: Action)
    requires Good(m) && Enabled(m, s) && (s.PublishNext? || s.Accept? || s.Refuse? || s.Undo?)
    requires m.threads[s.t].act.Publishing? && m.threads[s.t].act.p.e < |m.pool.blocks|
    ensures var m' := Perform(m, s);
      var p := m.threads[s.t].act.p;
      && s.t < |m'.threads| && m'.threads[s.t].act.Publishing? && m'.threads[s.t].act.p.e == p.e
      && CountOf(m'.pool, p.e) - CountOf(m.pool, p.e) == NetOf(m'.threads[s.t].act.p) - NetOf(p)
      && (m'.threads[s.t].act.p.delivered != p.delivered ==>
            s.Accept? && p.i < |p.targets| && p.targets[p.i] < |m.queues|
                && m'.queues == m.queues[p.targets[p.i] := m.queues[p.targets[p.i]] + [p.e]])
  {
    hide Refs, MakersOk, PublicationsOk, InFlight;
    var e := m.threads[s.t].act.p.e;
    PublisherValid(m, s.t);
    ReleaseOk(m.pool, e);
    if s.Undo? {
      PublicationKnown(m, s.t);
      PublisherCount(m, s.t);
    }
  }

  lemma PublisherValid(m: Machine, t: nat)
    requires Good(m) && t < |m.threads| && m.threads[t].act.Publishing?
    ensures ValidEvent(m.pool, m.threads[t].act.p.e)
  {
    hide ThreadRefs, QueueRefs, PoolOk, MakersOk, PublicationsOk, RefsOf;
    CallOwns(m.threads[t], m.threads[t].act.p.e);
    ThreadUpdate(m.threads, t, m.threads[t]);
    assert m.threads[t].act.p.e in Refs(m);
  }

  /** With a reference in flight a publisher holds two. */
  lemma PublisherCount(m: Machine, t: nat)
    requires Good(m) && t < |m.threads| && m.threads[t].act.Publishing? && m.threads[t].act.p.phase != Choosing
    requires m.threads[t].act.p.e < |m.pool.blocks|
    ensures m.pool.blocks[m.threads[t].act.p.e].Live? && m.pool.blocks[m.threads[t].act.p.e].count >= 2
  {
    hide ThreadRefs, QueueRefs, PoolOk, MakersOk, PublicationsOk;
    var e := m.threads[t].act.p.e;
    assert InFlight(m.threads[t].act)[e] == 2;
    assert RefsOf(m.threads[t])[e] >= 2;
    ThreadUpdate(m.threads, t, m.threads[t]);
    assert Refs(m)[e] >= 2;
  }

  /** A publish that has gone through its subscribers has delivered to all of them exactly when it
      reports success, and with its final release it nets `delivered - 1` references. */
  lemma PublishNets(m0: Machine, run: seq<Action>, m: Machine, t: nat)
    requires Reached(m0, run, m) && Enabled(m, PublishEnd(t))
    ensures var p := m.threads[t].act.p;
      && Release(m.pool, p.e).1 == Ok
      && (p.status == Ok <==> p.delivered == |p.targets|)
      && NetOf(p) == p.delivered
      && (p.e < |m.pool.blocks| ==> CountOf(Perform(m, PublishEnd(t)).pool, p.e) == CountOf(m.pool, p.e) - 1)
  {
    hide Reached, Refs, MakersOk, InFlight, Counted;
    ReachedGood(m0, run, m);
    PublicationKnown(m, t);
    PublisherValid(m, t);
    ReleaseOk(m.pool, m.threads[t].act.p.e);
  }

  // ---------------------------------------------------------------------------
  // A whole publish
  // ---------------------------------------------------------------------------

  predicate IsBy(s: Action, t: nat) {
    !s.Subscribe? && !s.Unsubscribe? && s.t == t
  }

  /** Steps of other threads do not touch a thread's own state. */
  lemma OthersUntouched(m: Machine, s: Action, t: nat)
    requires Enabled(m, s) && !IsBy(s, t)
    ensures |Perform(m, s).threads| == |m.threads|
    ensures t < |m.threads| ==> Perform(m, s).threads[t] == m.threads[t]
  {
    hide TakeBlock, Retain, Release, AfterChoice, AfterRefuse, AfterUndo, AfterAccept, SignalOf, Initialise;
  }

  /** What the steps of thread `t` in a run add to the count of `e`, whatever other threads do. */
  ghost function Added(m: Machine, run: seq<Action>, t: nat, e: nat): int
    requires Possible(m, run)
    decreases |run|
  {
    if run == [] then 0
    else
      var m1 := Perform(m, run[0]);
      (if IsBy(run[0], t) then CountOf(m1.pool, e) - CountOf(m.pool, e) else 0) + Added(m1, run[1..], t, e)
  }

  /** The steps a publisher can take before the end of its publish. */
  lemma PublisherSteps(m: Machine, s: Action, t: nat)
    requires Enabled(m, s) && IsBy(s, t) && t < |m.threads| && m.threads[t].act.Publishing? && !s.PublishEnd?
    ensures s.PublishNext? || s.Accept? || s.Refuse? || s.Undo?
  {
  }

  /** Until it ends, a publish has added to the count exactly what it records, whatever happens in between. */
  lemma {:induction false} PublishAdds(m: Machine, run: seq<Action>, t: nat)
    requires Good(m) && Possible(m, run) && PublishEnd(t) !in run
    requires t < |m.threads| && m.threads[t].act.Publishing? && m.threads[t].act.p.e < |m.pool.blocks|
    ensures var m' := Run(m, run);
      var p := m.threads[t].act.p;
      && t < |m'.threads| && m'.threads[t].act.Publishing? && m'.threads[t].act.p.e == p.e
      && |m'.pool.blocks| == |m.pool.blocks|
      && Added(m, run, t, p.e) == NetOf(m'.threads[t].act.p) - NetOf(p)
    decreases |run|
  {
    hide Good, Enabled, Perform, CountOf, IsBy;
    if run != [] {
      var s := run[0];
      var m1 := Perform(m, s);
      assert s in run;
      StepGood(m, s);
      SamePool(m, s);
      if IsBy(s, t) {
        IsByThread(s, t);
        PublisherSteps(m, s, t);
        PublishCounts(m, s);
      } else {
        OthersUntouched(m, s, t);
      }
      PublishAdds(m1, run[1..], t);
    }
  }

  lemma IsByThread(s: Action, t: nat)
    requires IsBy(s, t)
    ensures !s.Subscribe? && !s.Unsubscribe? && s.t == t
  {
  }

  lemma SamePool(m: Machine, s: Action)
    requires Good(m) && Enabled(m, s)
    ensures |Perform(m, s).pool.blocks| == |m.pool.blocks|
  {
    hide Good, AfterChoice, AfterRefuse, AfterUndo, AfterAccept, SignalOf;
  }

  lemma {:induction false} AddedSnoc(m: Machine, run: seq<Action>, s: Action, t: nat, e: nat)
    requires Possible(m, run) && Enabled(Run(m, run), s)
    ensures Possible(m, run + [s]) && Run(m, run + [s]) == Perform(Run(m, run), s)
    ensures Added(m, run + [s], t, e) == Added(m, run, t, e) +
      if IsBy(s, t) then CountOf(Perform(Run(m, run), s).pool, e) - CountOf(Run(m, run).pool, e) else 0
    decreases |run|
  {
    hide Enabled, Perform, CountOf, IsBy;
    if run == [] {
      assert [] + [s] == [s] && [s][1..] == [];
    } else {
      AddedSnoc(Perform(m, run[0]), run[1..], s, t, e);
      assert (run + [s])[1..] == run[1..] + [s];
    }
  }

  /** Thread `t` has gone through all subscribers of its publication `p`. */
  predicate AtItsEnd(m: Machine, t: nat, p: Publication) {
    t < |m.threads| && m.threads[t].act == Publishing(p) && p.phase == Choosing && p.i >= |p.targets|
  }

  /** A whole publish of a pool event, from the call to its final release and with any steps of any
      other threads in between, adds exactly the number of its deliveries minus one to the count. */
  lemma PublishTotal(m: Machine, run: seq<Action>, t: nat, e: nat, p: Publication)
    requires Good(m) && Possible(m, run) && run != [] && run[0] == Publish(t, e) && e < |m.pool.blocks|
    requires PublishEnd(t) !in run && AtItsEnd(Run(m, run), t, p)
    ensures Possible(m, run + [PublishEnd(t)])
    ensures Added(m, run + [PublishEnd(t)], t, e) == p.delivered - 1
  {
    hide Good, NetOf;
    var m1 := Perform(m, run[0]);
    StepGood(m, run[0]);
    PublishAdds(m1, run[1..], t);
    RunGood(m, run);
    AddedSnoc(m, run, PublishEnd(t), t, e);
    PublishEnds(Run(m, run), t);
    StartsAtZero(m1.threads[t].act.p);
  }

  lemma StartsAtZero(p: Publication)
    requires p.retained == 0 && p.released == 0
    ensures NetOf(p) == 0
  {
  }

  /** At its end a publish has added what it delivered, and its release takes one away. */
  lemma PublishEnds(m: Machine, t: nat)
    requires Good(m) && Enabled(m, PublishEnd(t)) && m.threads[t].act.p.e < |m.pool.blocks|
    ensures var p := m.threads[t].act.p;
      NetOf(p) == p.delivered && CountOf(Perform(m, PublishEnd(t)).pool, p.e) == CountOf(m.pool, p.e) - 1
  {
    hide Refs, MakersOk, InFlight, Counted;
    PublicationKnown(m, t);
    PublisherValid(m, t);
    ReleaseOk(m.pool, m.threads[t].act.p.e);
  }

  // ---------------------------------------------------------------------------
  // Order of delivery
  // ---------------------------------------------------------------------------

  /** What a step puts into the queue of active object `a`: the event whose send to it is accepted. */
  ghost function AcceptedIn(m: Machine, s: Action, a: nat): seq<nat>
    requires Enabled(m, s)
  {
    if s.Accept? && TargetOf(m.threads[s.t].act) == Some(a) then [FlightOf(m.threads[s.t].act)] else []
  }

  /** What the dispatcher of `a` gets in a step. */
  ghost function ReceivedIn(m: Machine, s: Action, a: nat): seq<nat>
    requires Enabled(m, s)
  {
    if s == Receive(a) && a < |Perform(m, s).threads| && Perform(m, s).threads[a].dispatching.Some?
    then [Perform(m, s).threads[a].dispatching.value] else []
  }

  ghost function AcceptedFor(m: Machine, run: seq<Action>, a: nat): seq<nat>
    requires Possible(m, run)
    decreases |run|
  {
    if run == [] then [] else AcceptedIn(m, run[0], a) + AcceptedFor(Perform(m, run[0]), run[1..], a)
  }

  ghost function ReceivedBy(m: Machine, run: seq<Action>, a: nat): seq<nat>
    requires Possible(m, run)
    decreases |run|
  {
    if run == [] then [] else ReceivedIn(m, run[0], a) + ReceivedBy(Perform(m, run[0]), run[1..], a)
  }

  lemma StepQueueOrder(m: Machine, s: Action, a: nat)
    requires Enabled(m, s) && a < |m.queues|
    ensures |Perform(m, s).queues| == |m.queues|
    ensures m.queues[a] + AcceptedIn(m, s, a) == ReceivedIn(m, s, a) + Perform(m, s).queues[a]
  {
    hide TakeBlock, Retain, Release, AfterChoice, AfterRefuse, AfterUndo, AfterAccept, SignalOf, Initialise, TargetOf;
  }

  /** In every run an active object receives the events accepted for it in the order of acceptance:
      what it has received, followed by what is queued, is what was accepted. */
  lemma {:induction false} DispatchedInOrder(m: Machine, run: seq<Action>, a: nat)
    requires Possible(m, run) && a < |m.queues|
    ensures |Run(m, run).queues| == |m.queues|
    ensures m.queues[a] + AcceptedFor(m, run, a) == ReceivedBy(m, run, a) + Run(m, run).queues[a]
    decreases |run|
  {
    hide Enabled, Perform, AcceptedIn, ReceivedIn;
    if run != [] {
      var m1 := Perform(m, run[0]);
      StepQueueOrder(m, run[0], a);
      DispatchedInOrder(m1, run[1..], a);
      var x, y, p, r := AcceptedIn(m, run[0], a), AcceptedFor(m1, run[1..], a), ReceivedIn(m, run[0], a),
          ReceivedBy(m1, run[1..], a);
      assert m.queues[a] + (x + y) == (m.queues[a] + x) + y;
      assert (p + m1.queues[a]) + y == p + (m1.queues[a] + y);
      assert p + (r + Run(m, run).queues[a]) == (p + r) + Run(m, run).queues[a];
    }
  }
}
