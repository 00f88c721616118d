/**
 Software timers in memory: control blocks, a timeout list object and the pending list.
 Every call is proved to do what the function of `TimerModel` says.
 */
module TimerObject {
  import opened Config
  import opened Sequences
  import opened KernelModel
  import opened Blocking
  import opened Waking
  import opened TimeoutModel
  import opened TimerModel
  import T = TimeoutList
  import K = KernelObject

  /** What a timer's control block holds, without the history. */
  datatype ControlBlock = ControlBlock(period: nat, reload: bool, active: bool, pending: nat, running: bool)

  function BlockOf(t: Timer): ControlBlock {
    ControlBlock(t.period, t.reload, t.active, t.pending, t.running)
  }

  class TimerObject {
    const timeouts: T.TimeoutList
    var blocks: seq<ControlBlock>
    var queue: seq<nat>
    var tick: Word32
    /** The control blocks with their history, in absolute time. */
    ghost var timers: seq<Timer>
    ghost var now: nat

    ghost function Model(): Timers
      reads this, timeouts
    {
      Timers(timers, Absolute(timeouts.Model(), now), queue)
    }

    ghost predicate Fits()
      reads this, timeouts
    {
      && timeouts.Valid() && timeouts.last == tick == now % TICK_RANGE && DualOk(timeouts.Model(), now)
      && |blocks| == |timers| && forall i: nat :: i < |blocks| ==> blocks[i] == BlockOf(timers[i])
    }

    lemma Blocks()
      requires Fits()
      ensures |blocks| == |timers| && forall i: nat :: i < |blocks| ==> blocks[i] == BlockOf(timers[i])
    {
    }

    constructor (initial: seq<Timer>)
      ensures fresh(timeouts) && Fits() && now == 0 && Model() == Timers(initial, [], [])
    {
      hide DualOk, Absolute;
      K.EmptyDual();
      timeouts := new T.TimeoutList(0);
      blocks := seq(|initial|, i requires 0 <= i < |initial| => BlockOf(initial[i]));
      queue, tick := [], 0;
      timers, now := initial, 0;
    }

    /** Forget undelivered expirations. */
    method Clear(i: nat)
      requires Fits() && i < |timers|
      modifies `blocks, `timers, `queue
      ensures Fits() && Model() == ClearPending(old(Model()), i) && |timers| == old(|timers|)
    {
      hide DualOk, Absolute, T.TimeoutList.Valid, Without;
      if i in queue {
        queue := Without(queue, i);
      } else {
        WithoutAbsent(queue, i);
      }
      blocks := blocks[i := blocks[i].(pending := 0)];
      timers := timers[i := timers[i].(pending := 0, discarded := timers[i].discarded + timers[i].pending)];
    }

    /** Start a fresh schedule; the timer must not be armed. */
    method ArmTimer(i: nat) returns (status: Status)
      requires Fits() && i < |timers| && TimersOk(Model(), now, {}) && !timers[i].active
      modifies `blocks, `timers, timeouts
      ensures Fits() && status == Ok && Model() == Arm(old(Model()), i, now) && |timers| == old(|timers|)
    {
      hide DualOk, Absolute, T.TimeoutList.Valid, InsertByDue, DualInsert, T.HasNode;
      ghost var d := timeouts.Model();
      var b := blocks[i];
      UnarmedFacts(Model(), now, i);
      K.DeadlineLinks(d, now, i);
      InsertRefines(d, now, i, b.period);
      K.InsertKeepsTick(d, i, b.period);
      status := timeouts.Insert(i, b.period);
      if status != Ok {
        assert false;
        return;
      }
      blocks := blocks[i := b.(active := true)];
      timers := timers[i := timers[i].(active := true, armedAt := now, fires := [])];
    }

    /** Take an armed timer out of the timeout list. */
    method DisarmTimer(i: nat) returns (status: Status)
      requires Fits() && i < |timers| && TimersOk(Model(), now, {})
      modifies `blocks, `timers, timeouts
      ensures Fits() && status == Ok && Model() == Disarm(old(Model()), i) && |timers| == old(|timers|)
        && !timers[i].active
    {
      hide DualOk, Absolute, T.TimeoutList.Valid, WithoutId, WithoutNode, T.HasNode;
      ghost var d := timeouts.Model();
      K.DeadlineLinks(d, now, i);
      ArmedFacts(Model(), now, i);
      if blocks[i].active {
        RemoveRefines(d, now, i);
        status := timeouts.Remove(i);
        if status != Ok {
          assert false;
          return;
        }
      } else {
        WithoutIdAbsent(Absolute(d, now), i);
        status := Ok;
      }
      blocks := blocks[i := blocks[i].(active := false)];
      timers := timers[i := timers[i].(active := false)];
    }

    method Start(i: nat) returns (status: Status)
      requires Fits() && TimersOk(Model(), now, {})
      modifies this, timeouts
      ensures Fits() && now == old(now) && TimersOk(Model(), now, {})
        && (Model(), status) == StartTimer(old(Model()), i, now)
    {
      hide Fits, TimersOk, ClearPending, Arm;
      CallsOk(Model(), i, 0, now);
      Blocks();
      if i >= |blocks| {
        return InvalidArgument;
      }
      if blocks[i].active {
        return InvalidState;
      }
      ClearPendingOk(Model(), i, now);
      ClearedActive(Model(), i);
      Clear(i);
      status := ArmTimer(i);
    }

    method Stop(i: nat) returns (status: Status)
      requires Fits() && TimersOk(Model(), now, {})
      modifies this, timeouts
      ensures Fits() && now == old(now) && TimersOk(Model(), now, {}) && (Model(), status) == StopTimer(old(Model()), i)
    {
      hide Fits, TimersOk, ClearPending, Disarm;
      CallsOk(Model(), i, 0, now);
      Blocks();
      if i >= |blocks| {
        return InvalidArgument;
      }
      status := DisarmTimer(i);
      Clear(i);
    }

    method Reset(i: nat) returns (status: Status)
      requires Fits() && TimersOk(Model(), now, {})
      modifies this, timeouts
      ensures Fits() && now == old(now) && TimersOk(Model(), now, {})
        && (Model(), status) == ResetTimer(old(Model()), i, now)
    {
      hide Fits, TimersOk, ClearPending, Disarm, Arm;
      CallsOk(Model(), i, 0, now);
      Blocks();
      if i >= |blocks| {
        return InvalidArgument;
      }
      DisarmOk(Model(), i, now);
      status := DisarmTimer(i);
      ClearPendingOk(Model(), i, now);
      ClearedActive(Model(), i);
      Clear(i);
      status := ArmTimer(i);
    }

    method ChangePeriod(i: nat, period: Word32) returns (status: Status)
      requires Fits() && TimersOk(Model(), now, {})
      modifies this, timeouts
      ensures Fits() && now == old(now) && TimersOk(Model(), now, {})
        && (Model(), status) == TimerModel.ChangePeriod(old(Model()), i, period, now)
    {
      hide Fits, TimersOk, ClearPending, Disarm, Arm, WithTimer;
      CallsOk(Model(), i, period, now);
      Blocks();
      if i >= |blocks| || period == 0 || period == WAIT_FOREVER {
        return InvalidArgument;
      }
      DisarmOk(Model(), i, now);
      status := DisarmTimer(i);
      PeriodOk(Model(), i, period, now);
      SetPeriod(i, period);
      ClearPendingOk(Model(), i, now);
      ClearedActive(Model(), i);
      Clear(i);
      status := ArmTimer(i);
    }

    method SetPeriod(i: nat, period: Word32)
      requires Fits() && i < |timers|
      modifies `blocks, `timers
      ensures Fits() && Model() == WithTimer(old(Model()), i, old(timers)[i].(period := period, fires := []))
        && |timers| == old(|timers|)
      ensures timers[i].active == old(timers)[i].active
    {
      hide DualOk, Absolute, T.TimeoutList.Valid;
      blocks := blocks[i := blocks[i].(period := period)];
      timers := timers[i := timers[i].(period := period, fires := [])];
    }

    /** Move to the next tick and take the due timers out of the timeout list. */
    method AdvanceTime() returns (expired: seq<nat>)
      requires Fits()
      modifies `tick, `now, timeouts
      ensures Fits() && now == old(now) + 1
      ensures Model() == old(Model()).(timeouts := NotDue(old(Model()).timeouts, now))
        && expired == DueIds(old(Model()).timeouts, now)
    {
      hide DualOk, Absolute, T.TimeoutList.Valid, DualAdvance, NotDue, DueIds;
      ghost var d := timeouts.Model();
      AdvanceRefines(d, now);
      K.AdvanceKeepsTick(d, (now + 1) % TICK_RANGE);
      tick := (tick + 1) % TICK_RANGE;
      now := now + 1;
      expired := timeouts.Advance(tick);
    }

    /** Count an expiration, queue the timer, and arm it again if it is periodic. */
    method Expire(i: nat, ghost y: set<nat>) returns (ok: bool)
      requires Fits() && i < |timers| && i in y && TimersOk(Model(), now, y)
      modifies `blocks, `timers, `queue, timeouts
      ensures Fits() && ok && Model() == ExpireTimer(old(Model()), i, now)
    {
      hide DualOk, Absolute, T.TimeoutList.Valid, InsertByDue, DualInsert, T.HasNode;
      ghost var d := timeouts.Model();
      var b := blocks[i];
      ghost var t := timers[i];
      DueFacts(Model(), now, y, i);
      if !b.active {
        assert false;
        return false;
      }
      var full := b.pending >= UINT32_MAX;
      blocks := blocks[i := b.(active := b.reload, pending := if full then b.pending else b.pending + 1)];
      timers := timers[i := t.(
        active := t.reload,
        pending := if full then t.pending else t.pending + 1,
        lost := if full then t.lost + 1 else t.lost,
        expired := t.expired + 1,
        fires := t.fires + [now])];
      if i !in queue {
        queue := queue + [i];
      }
      if b.reload {
        K.DeadlineLinks(d, now, i);
        InsertRefines(d, now, i, b.period);
        K.InsertKeepsTick(d, i, b.period);
        var status := timeouts.Insert(i, b.period);
        if status != Ok {
          assert false;
          return false;
        }
      }
      ok := true;
    }

    /** The timers' part of the tick; the flag asks for the service task's signal. */
    method Tick() returns (fired: bool)
      requires Fits() && TimersOk(Model(), now, {})
      modifies this, timeouts
      ensures Fits() && now == old(now) + 1 && TimersOk(Model(), now, {})
      ensures (Model(), fired) == TimersTick(old(Model()), now)
    {
      hide Fits, Model, TimersOk, ExpireTimer, DueIds, NotDue;
      ghost var ts := Model();
      TimersTickOk(ts, now);
      TimersDue(ts, now);
      var expired := AdvanceTime();
      fired := false;
      assert expired[0..] == expired;
      var i := 0;
      while i < |expired|
        invariant 0 <= i <= |expired| && Fits() && now == old(now) + 1 && fired == (i > 0)
        invariant TimersOk(Model(), now, Ids(expired[i..])) && Distinct(expired)
          && AllBelow(expired[i..], |Model().timers|)
        invariant ExpireTimers(Model(), expired[i..], now) == TimersTick(ts, now).0
      {
        ghost var before := Model();
        Fields();
        ExpireTimerStep(before, expired[i..], now);
        assert expired[i..][1..] == expired[i + 1..];
        var ok := Expire(expired[i], Ids(expired[i..]));
        if !ok {
          assert false;
          return;
        }
        fired := true;
        i := i + 1;
      }
      assert expired[i..] == [];
    }

    lemma Fields()
      ensures Model().timers == timers && Model().queue == queue
    {
    }

    /** Take one undelivered expiration for its callback. */
    method ProcessOne() returns (timer: Option<nat>)
      requires Fits() && TimersOk(Model(), now, {})
      modifies `blocks, `timers, `queue
      ensures Fits() && TimersOk(Model(), now, {}) && (Model(), timer) == TakePending(old(Model()))
    {
      hide DualOk, Absolute, T.TimeoutList.Valid, TimersOk;
      TakePendingOk(Model(), now);
      if queue == [] {
        return None;
      }
      var i := queue[0];
      if i >= |blocks| || blocks[i].pending == 0 {
        return None;
      }
      ghost var t := timers[i];
      queue := queue[1..];
      blocks := blocks[i := blocks[i].(pending := blocks[i].pending - 1, running := true)];
      timers := timers[i := t.(pending := t.pending - 1, running := true, dispatched := t.dispatched + 1)];
      if blocks[i].pending > 0 {
        queue := queue + [i];
      }
      timer := Some(i);
    }
  }

  lemma DueFacts(ts: Timers, now: nat, y: set<nat>, i: nat)
    requires TimersOk(ts, now, y) && i < |ts.timers| && i in y
    ensures ts.timers[i].active && 0 < ts.timers[i].period < WAIT_FOREVER && forall e :: e in ts.timeouts ==> e.id != i
  {
    assert LinksOk(ts, now, y, i) && TimerOk(ts.timers[i]);
  }

  lemma ExpireTimerStep(ts: Timers, ids: seq<nat>, now: nat)
    requires TimersOk(ts, now, Ids(ids)) && Distinct(ids) && AllBelow(ids, |ts.timers|) && ids != []
    ensures ids[0] in Ids(ids) && ids[0] < |ts.timers|
    ensures var ts1 := ExpireTimer(ts, ids[0], now);
      TimersOk(ts1, now, Ids(ids[1..])) && AllBelow(ids[1..], |ts1.timers|)
          && ExpireTimers(ts, ids, now) == ExpireTimers(ts1, ids[1..], now)
  {
    hide TimersOk, ExpireTimer;
    assert ids[0] in ids;
    ExpireTimerOk(ts, ids[0], now, Ids(ids));
    assert Ids(ids) - {ids[0]} == Ids(ids[1..]);
    assert forall i :: i in ids[1..] ==> i in ids;
  }

  lemma UnarmedFacts(ts: Timers, now: nat, i: nat)
    requires TimersOk(ts, now, {}) && i < |ts.timers| && !ts.timers[i].active
    ensures 0 < ts.timers[i].period < WAIT_FOREVER && forall e :: e in ts.timeouts ==> e.id != i
  {
    assert LinksOk(ts, now, {}, i) && TimerOk(ts.timers[i]);
    NoEntry(ts, now, {}, i);
  }

  lemma ArmedFacts(ts: Timers, now: nat, i: nat)
    requires TimersOk(ts, now, {}) && i < |ts.timers|
    ensures if ts.timers[i].active then exists e :: e in ts.timeouts && e.id == i else forall e :: e in ts.timeouts ==>
      e.id != i
  {
    assert LinksOk(ts, now, {}, i);
    if ts.timers[i].active {
      assert Entry(i, NextFire(ts.timers[i])) in ts.timeouts;
    } else {
      NoEntry(ts, now, {}, i);
    }
  }

  lemma ClearedActive(ts: Timers, i: nat)
    requires i < |ts.timers|
    ensures ClearPending(ts, i).timers[i].active == ts.timers[i].active
  {
  }
}
