/**
 What users of the event framework observe over runs with arbitrary steps of other threads in
 between: whom a publish and a post reach, and what a new event is.
 */
module EventTheorems {
  import opened Config
  import opened EventPool
  import opened EventRuns

  // ---------------------------------------------------------------------------
  // A thread keeps its place while others step
  // ---------------------------------------------------------------------------

  lemma {:induction false} OthersRun(m: Machine, run: seq<Action>, t: nat)
    requires Good(m) && Possible(m, run) && t < |m.threads| && forall s :: s in run ==> !IsBy(s, t)
    ensures var m' := Run(m, run);
      Good(m') && |m'.threads| == |m.threads| && m'.threads[t] == m.threads[t] && |m'.pool.blocks| == |m.pool.blocks|
    decreases |run|
  {
    hide Good, Enabled, Perform, IsBy;
    if run != [] {
      assert run[0] in run;
      OthersUntouched(m, run[0], t);
      StepGood(m, run[0]);
      SamePool(m, run[0]);
      OthersRun(Perform(m, run[0]), run[1..], t);
    }
  }

  /** A post that is accepted, whatever happened since the call, puts the event at the end of the
      queue it was posted to and changes no other queue. */
  lemma PostReaches(m: Machine, t: nat, target: nat, e: nat, between: seq<Action>)
    requires Good(m) && Enabled(m, Post(t, target, e)) && Possible(Perform(m, Post(t, target, e)), between)
    requires forall s :: s in between ==> !IsBy(s, t)
    ensures var m1 := Run(Perform(m, Post(t, target, e)), between);
      Enabled(m1, Accept(t)) ==>
        && target < |m1.queues|
        && Perform(m1, Accept(t)).queues == m1.queues[target := m1.queues[target] + [e]]
  {
    hide Good;
    StepGood(m, Post(t, target, e));
    OthersRun(Perform(m, Post(t, target, e)), between, t);
  }

  /** The same for a shared post, which keeps the caller's own reference. */
  lemma PostSharedReaches(m: Machine, t: nat, target: nat, e: nat, between: seq<Action>)
    requires Good(m) && Enabled(m, PostShared(t, target, e)) && Retain(m.pool, e).1 == Ok
    requires Possible(Perform(m, PostShared(t, target, e)), between) && forall s :: s in between ==> !IsBy(s, t)
    ensures var m1 := Run(Perform(m, PostShared(t, target, e)), between);
      && t < |m1.threads| && m1.threads[t].held == m.threads[t].held
      && (Enabled(m1, Accept(t)) ==>
            && target < |m1.queues|
            && Perform(m1, Accept(t)).queues == m1.queues[target := m1.queues[target] + [e]])
  {
    hide Good, Retain;
    StepGood(m, PostShared(t, target, e));
    OthersRun(Perform(m, PostShared(t, target, e)), between, t);
  }

  /** A new event: once its header is written, whatever happened since its block was taken, it has the
      signal asked for and its maker holds the only reference. */
  lemma NewIsOwned(m: Machine, t: nat, signal: nat, between: seq<Action>)
    requires Good(m) && Enabled(m, Take(t, signal)) && TakeBlock(m.pool).1.Some?
    requires Possible(Perform(m, Take(t, signal)), between) && forall s :: s in between ==> !IsBy(s, t)
    ensures var m1 := Run(Perform(m, Take(t, signal)), between);
      var b := TakeBlock(m.pool).1.value;
      && Enabled(m1, WriteHeader(t))
      && var m2 := Perform(m1, WriteHeader(t));
         && b < |m2.pool.blocks| && m2.pool.blocks[b] == Live(1, signal)
         && t < |m2.threads| && m2.threads[t].held == m.threads[t].held + multiset{b}
  {
    hide Good;
    StepGood(m, Take(t, signal));
    SamePool(m, Take(t, signal));
    GoodPool(m);
    TakeOk(m.pool);
    OthersRun(Perform(m, Take(t, signal)), between, t);
  }

  lemma GoodPool(m: Machine)
    requires Good(m)
    ensures PoolOk(m.pool)
  {
    hide PoolOk;
  }

  // ---------------------------------------------------------------------------
  // Whom a publish reaches
  // ---------------------------------------------------------------------------

  /** `a` is `b` with some elements left out. */
  predicate IsSub(a: seq<nat>, b: seq<nat>)
    decreases |b|
  {
    a == [] ||
    (b != [] &&
      ((a[|a| - 1] == b[|b| - 1] && IsSub(a[..|a| - 1], b[..|b| - 1])) || IsSub(a, b[..|b| - 1])))
  }

  lemma SubSnoc(a: seq<nat>, b: seq<nat>, x: nat)
    requires IsSub(a, b)
    ensures IsSub(a, b + [x]) && IsSub(a + [x], b + [x])
  {
    assert (b + [x])[..|b + [x]| - 1] == b && (a + [x])[..|a + [x]| - 1] == a;
  }

  /** The queues to which thread `t` delivers in a run, in order. */
  ghost function DeliveredTo(m: Machine, run: seq<Action>, t: nat): seq<nat>
    requires Possible(m, run)
    decreases |run|
  {
    if run == [] then []
    else
      (if run[0] == Accept(t) && t < |m.threads| && TargetOf(m.threads[t].act).Some?
       then [TargetOf(m.threads[t].act).value] else [])
      + DeliveredTo(Perform(m, run[0]), run[1..], t)
  }

  /** Of the subscribers `row` it has gone through, a publication has reached those in `reached`. */
  ghost predicate Progress(p: Publication, row: seq<nat>, reached: seq<nat>) {
    && p.targets == row && p.i <= |row| && |reached| == p.delivered
    && IsSub(reached, row[..p.i]) && (p.status == Ok && p.phase != RollingBack ==> reached == row[..p.i])
    && (p.phase == RollingBack ==> p.status != Ok) && (p.phase != Choosing ==> p.i < |row|)
  }

  /** What one step of the publisher does to its publication. */
  lemma PublicationSteps(m: Machine, s: Action, t: nat)
    requires Enabled(m, s) && IsBy(s, t) && !s.PublishEnd? && t < |m.threads| && m.threads[t].act.Publishing?
    ensures var m', p := Perform(m, s), m.threads[t].act.p;
      && t < |m'.threads| && m'.threads[t].act.Publishing?
      && var p' := m'.threads[t].act.p;
         match s
         case PublishNext(_) => p.phase == Choosing && p.i < |p.targets|
           && exists status :: p' == AfterChoice(p, status)
         case Accept(_) =>
           && p.phase == Sending && p.i < |p.targets| && TargetOf(m.threads[t].act) == Some(p.targets[p.i])
           && p' == p.(i := p.i + 1, phase := Choosing, delivered := p.delivered + 1)
         case Refuse(_, why) =>
           p.phase == Sending && why != Ok && p' == p.(phase := RollingBack, status := First(p.status, why))
         case Undo(_) => p.phase == RollingBack && p' == p.(i := p.i + 1, phase := Choosing, released := p.released + 1)
         case _ => false
  {
    hide Retain, Release;
    PublisherSteps(m, s, t);
    if s.PublishNext? {
      assert Perform(m, s).threads[t].act.p == AfterChoice(m.threads[t].act.p, Retain(m.pool, m.threads[t].act.p.e).1);
    }
  }

  /** Going on to the next subscriber, having reached the last one or not. */
  lemma ProgressOn(p: Publication, p': Publication, row: seq<nat>, reached: seq<nat>, hit: bool)
    requires Progress(p, row, reached) && p.i < |row| && p'.i == p.i + 1 && p'.phase == Choosing
      && p'.targets == p.targets
    requires p'.delivered == p.delivered + (if hit then 1 else 0)
    requires if hit then p'.status == p.status && p.phase == Sending else p'.status != Ok
    ensures Progress(p', row, reached + if hit then [row[p.i]] else [])
  {
    hide IsSub;
    assert row[..p.i + 1] == row[..p.i] + [row[p.i]];
    assert reached + [] == reached;
    SubSnoc(reached, row[..p.i], row[p.i]);
  }

  /** One step of the publisher. */
  lemma ProgressStep(m: Machine, s: Action, t: nat, row: seq<nat>, reached: seq<nat>)
    requires Good(m) && Enabled(m, s) && IsBy(s, t) && !s.PublishEnd?
    requires t < |m.threads| && m.threads[t].act.Publishing? && Progress(m.threads[t].act.p, row, reached)
    requires s.Accept? ==> TargetOf(m.threads[t].act).Some?
    ensures var m' := Perform(m, s);
      && t < |m'.threads| && m'.threads[t].act.Publishing?
      && Progress(m'.threads[t].act.p, row, reached + if s.Accept? then [TargetOf(m.threads[t].act).value] else [])
  {
    hide Good, IsSub, Enabled, Perform, TargetOf, IsBy;
    PublicationSteps(m, s, t);
    var p, p' := m.threads[t].act.p, Perform(m, s).threads[t].act.p;
    assert reached + [] == reached;
    if p'.i != p.i {
      ProgressOn(p, p', row, reached, s.Accept?);
    }
  }

  lemma {:induction false} ProgressRun(m: Machine, run: seq<Action>, t: nat, row: seq<nat>, reached: seq<nat>)
    requires Good(m) && Possible(m, run) && PublishEnd(t) !in run
    requires t < |m.threads| && m.threads[t].act.Publishing? && Progress(m.threads[t].act.p, row, reached)
    ensures var m' := Run(m, run);
      && t < |m'.threads| && m'.threads[t].act.Publishing?
      && Progress(m'.threads[t].act.p, row, reached + DeliveredTo(m, run, t))
    decreases |run|
  {
    hide Good, Enabled, Perform, Progress, TargetOf, IsBy;
    if run == [] {
      assert reached + [] == reached;
    } else {
      var s := run[0];
      assert s in run;
      StepGood(m, s);
      var d: seq<nat> := [];
      if IsBy(s, t) {
        IsByThread(s, t);
        AcceptTargets(m, s);
        ProgressStep(m, s, t, row, reached);
        d := if s.Accept? then [TargetOf(m.threads[t].act).value] else [];
      } else {
        OthersUntouched(m, s, t);
        NotOwn(s, t);
        assert reached + [] == reached;
      }
      ProgressRun(Perform(m, s), run[1..], t, row, reached + d);
      assert reached + d + DeliveredTo(Perform(m, s), run[1..], t) == reached + DeliveredTo(m, run, t);
    }
  }

  lemma AcceptTargets(m: Machine, s: Action)
    requires Enabled(m, s)
    ensures s.Accept? ==> s.t < |m.threads| && TargetOf(m.threads[s.t].act).Some?
  {
  }

  lemma NotOwn(s: Action, t: nat)
    requires !IsBy(s, t)
    ensures s != Accept(t)
  {
  }

  /** A publish reaches subscribers of its signal as they were subscribed at the call, each at most
      once per subscription and in the order of subscription, and all of them exactly if it reports
      success, whatever other threads do in between. */
  lemma PublishReaches(m: Machine, run: seq<Action>, t: nat, e: nat, p: Publication)
    requires Good(m) && Possible(m, run) && run != [] && run[0] == Publish(t, e) && SignalOf(m, e) < |m.subs|
    requires PublishEnd(t) !in run && AtItsEnd(Run(m, run), t, p)
    ensures var reached := DeliveredTo(m, run, t);
      var row := m.subs[SignalOf(m, e)];
      && p.e == e && |reached| == p.delivered && IsSub(reached, row)
      && (p.status == Ok <==> reached == row)
  {
    hide Good, IsSub, SignalOf, Progress, Enabled, Perform, PublicationOk;
    var m1 := Perform(m, run[0]);
    var row := m.subs[SignalOf(m, e)];
    StepGood(m, run[0]);
    PublishBegins(m, t, e);
    ProgressRun(m1, run[1..], t, row, []);
    assert [] + DeliveredTo(m1, run[1..], t) == DeliveredTo(m1, run[1..], t) == DeliveredTo(m, run, t);
    RunGood(m, run);
    SameEvent(m1, run[1..], t);
    PublishFinished(Run(m, run), t, p, row, DeliveredTo(m, run, t));
  }

  lemma PublishBegins(m: Machine, t: nat, e: nat)
    requires Enabled(m, Publish(t, e))
    ensures var m1 := Perform(m, Publish(t, e));
      && SignalOf(m, e) < |m.subs| && t < |m1.threads| && m1.threads[t].act.Publishing? && m1.threads[t].act.p.e == e
      && Progress(m1.threads[t].act.p, m.subs[SignalOf(m, e)], [])
  {
    EmptySub(m.subs[SignalOf(m, e)][..0]);
  }

  lemma PublishFinished(m: Machine, t: nat, p: Publication, row: seq<nat>, reached: seq<nat>)
    requires Good(m) && AtItsEnd(m, t, p) && Progress(p, row, reached)
    ensures |reached| == p.delivered && IsSub(reached, row) && (p.status == Ok <==> reached == row)
  {
    hide Good, IsSub;
    PublicationKnown(m, t);
    assert row[..|row|] == row;
  }

  lemma EmptySub(b: seq<nat>)
    ensures IsSub([], b)
  {
  }

  /** A publication keeps its event. */
  lemma {:induction false} SameEvent(m: Machine, run: seq<Action>, t: nat)
    requires Good(m) && Possible(m, run) && PublishEnd(t) !in run
    requires t < |m.threads| && m.threads[t].act.Publishing?
    ensures var m' := Run(m, run);
      t < |m'.threads| && m'.threads[t].act.Publishing? && m'.threads[t].act.p.e == m.threads[t].act.p.e
    decreases |run|
  {
    hide Good, Enabled, Perform, IsBy;
    if run != [] {
      var s := run[0];
      assert s in run;
      StepGood(m, s);
      if IsBy(s, t) {
        IsByThread(s, t);
        PublisherSteps(m, s, t);
        EventKept(m, s, t);
      } else {
        OthersUntouched(m, s, t);
      }
      SameEvent(Perform(m, s), run[1..], t);
    }
  }

  lemma EventKept(m: Machine, s: Action, t: nat)
    requires Enabled(m, s) && t < |m.threads| && m.threads[t].act.Publishing?
    requires (s.PublishNext? || s.Accept? || s.Refuse? || s.Undo?) && s.t == t
    ensures var m' := Perform(m, s);
      t < |m'.threads| && m'.threads[t].act.Publishing? && m'.threads[t].act.p.e == m.threads[t].act.p.e
  {
    hide Retain, Release;
  }
}
