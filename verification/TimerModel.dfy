/**
 Software timers: a timeout list of armed timers, a list of timers with undelivered
 expirations, and a service task that a binary semaphore wakes.
 */
module TimerModel {
  import opened Config
  import opened Sequences
  import opened KernelModel
  import opened KernelInvariant
  import opened Blocking
  import opened Waking

  /** `armedAt` and `fires` record when the timer was last armed by a call and when it has
      expired since; the last four fields count what happened to its expirations. */
  datatype Timer = Timer(
    period: nat, reload: bool, active: bool, pending: nat, running: bool,
    armedAt: nat, fires: seq<nat>, expired: nat, dispatched: nat, discarded: nat, lost: nat)

  /** `timeouts` holds the armed timers by absolute deadline, `queue` the pending ones. */
  datatype Timers = Timers(timers: seq<Timer>, timeouts: seq<Entry>, queue: seq<nat>)

  // ---------------------------------------------------------------------------
  // Calls
  // ---------------------------------------------------------------------------

  function WithTimer(ts: Timers, i: nat, t: Timer): Timers
    requires i < |ts.timers|
  {
    ts.(timers := ts.timers[i := t])
  }

  /** Throw away undelivered expirations. */
  function ClearPending(ts: Timers, i: nat): (r: Timers)
    requires i < |ts.timers|
    ensures |r.timers| == |ts.timers|
  {
    var t := ts.timers[i];
    ts.(timers := ts.timers[i := t.(pending := 0, discarded := t.discarded + t.pending)], queue := Without(ts.queue, i))
  }

  /** Start a fresh schedule with the timer's period. */
  function Arm(ts: Timers, i: nat, now: nat): (r: Timers)
    requires i < |ts.timers|
    ensures |r.timers| == |ts.timers|
  {
    var t := ts.timers[i];
    ts.(timers := ts.timers[i := t.(active := true, armedAt := now, fires := [])],
        timeouts := InsertByDue(ts.timeouts, Entry(i, now + t.period)))
  }

  function Disarm(ts: Timers, i: nat): (r: Timers)
    requires i < |ts.timers|
    ensures |r.timers| == |ts.timers|
  {
    ts.(timers := ts.timers[i := ts.timers[i].(active := false)], timeouts := WithoutId(ts.timeouts, i))
  }

  function StartTimer(ts: Timers, i: nat, now: nat): (Timers, Status) {
    if i >= |ts.timers| then (ts, InvalidArgument)
    else if ts.timers[i].active then (ts, InvalidState)
    else (Arm(ClearPending(ts, i), i, now), Ok)
  }

  function StopTimer(ts: Timers, i: nat): (Timers, Status) {
    if i >= |ts.timers| then (ts, InvalidArgument)
    else (ClearPending(Disarm(ts, i), i), Ok)
  }

  function ResetTimer(ts: Timers, i: nat, now: nat): (Timers, Status) {
    if i >= |ts.timers| then (ts, InvalidArgument)
    else (Arm(ClearPending(Disarm(ts, i), i), i, now), Ok)
  }

  function ChangePeriod(ts: Timers, i: nat, period: nat, now: nat): (Timers, Status) {
    if i >= |ts.timers| || period == 0 || period >= WAIT_FOREVER then (ts, InvalidArgument)
    else
      var ts1 := Disarm(ts, i);
      (Arm(ClearPending(WithTimer(ts1, i, ts1.timers[i].(period := period, fires := [])), i), i, now), Ok)
  }

  // ---------------------------------------------------------------------------
  // The tick and the service task
  // ---------------------------------------------------------------------------

  /** One timer expires: count it, queue it, and re-arm it if it is periodic. */
  function ExpireTimer(ts: Timers, i: nat, now: nat): (r: Timers)
    requires i < |ts.timers|
    ensures |r.timers| == |ts.timers|
  {
    var t := ts.timers[i];
    var full := t.pending >= UINT32_MAX;
    ts.(timers := ts.timers[i := t.(
          active := t.reload,
          pending := if full then t.pending else t.pending + 1,
          lost := if full then t.lost + 1 else t.lost,
          expired := t.expired + 1,
          fires := t.fires + [now])],
        timeouts := if t.reload then InsertByDue(ts.timeouts, Entry(i, now + t.period)) else ts.timeouts,
        queue := if i in ts.queue then ts.queue else ts.queue + [i])
  }

  function ExpireTimers(ts: Timers, ids: seq<nat>, now: nat): (r: Timers)
    ensures |r.timers| == |ts.timers|
    decreases |ids|
  {
    if ids == [] then ts
    else if ids[0] >= |ts.timers| then ts
    else ExpireTimers(ExpireTimer(ts, ids[0], now), ids[1..], now)
  }

  /** The timers' part of the tick that moves time to `now`; the flag asks for the signal. */
  function TimersTick(ts: Timers, now: nat): (Timers, bool) {
    var ids := DueIds(ts.timeouts, now);
    (ExpireTimers(ts.(timeouts := NotDue(ts.timeouts, now)), ids, now), ids != [])
  }

  /** Take one undelivered expiration; `None` when there is none. */
  function TakePending(ts: Timers): (Timers, Option<nat>) {
    if ts.queue == [] || ts.queue[0] >= |ts.timers| || ts.timers[ts.queue[0]].pending == 0 then (ts, None)
    else
      var i := ts.queue[0];
      var t := ts.timers[i];
      (ts.(timers := ts.timers[i := t.(pending := t.pending - 1, running := true, dispatched := t.dispatched + 1)],
           queue := if t.pending > 1 then ts.queue[1..] + [i] else ts.queue[1..]), Some(i))
  }

  // ---------------------------------------------------------------------------
  // Invariant
  // ---------------------------------------------------------------------------

  /** The `n`-th expiration of a schedule of period `p` that starts at `a`. */
  function FireTime(a: nat, p: nat, n: nat): nat {
    a + n * p
  }

  lemma FireTimeNext(a: nat, p: nat, n: nat)
    ensures FireTime(a, p, n + 1) == FireTime(a, p, n) + p
    ensures FireTime(a, p, 0) == a && FireTime(a, p, 1) == a + p
  {
    assert (n + 1) * p == n * p + p;
  }

  /** What one timer's own fields promise: expirations are conserved, and all of them fell on
      the schedule; a one-shot timer expires once. */
  ghost predicate TimerOk(t: Timer) {
    && 0 < t.period < WAIT_FOREVER && t.pending <= UINT32_MAX
    && t.expired == t.dispatched + t.pending + t.discarded + t.lost
    && (forall j: nat :: j < |t.fires| ==> t.fires[j] == FireTime(t.armedAt, t.period, j + 1))
    && (!t.reload ==> |t.fires| == 0 || (!t.active && |t.fires| == 1))
  }

  /** The next expiration on the schedule. */
  function NextFire(t: Timer): nat {
    FireTime(t.armedAt, t.period, |t.fires| + 1)
  }

  /** Timer `i` agrees with the two lists; timers in `y` have left the timeout list because
      they are due and are about to be expired. */
  ghost predicate LinksOk(ts: Timers, now: nat, y: set<nat>, i: nat)
    requires i < |ts.timers|
  {
    var t := ts.timers[i];
    && (i in ts.queue <==> t.pending > 0)
    && (if i in y then t.active && NextFire(t) == now
        else forall d: nat :: Entry(i, d) in ts.timeouts <==> t.active && d == NextFire(t))
  }

  ghost predicate TimersOk(ts: Timers, now: nat, y: set<nat>) {
    && SortedByDue(ts.timeouts) && DistinctIds(ts.timeouts) && Distinct(ts.queue)
    && (forall e :: e in ts.timeouts ==> e.due > now && e.id < |ts.timers| && e.id !in y)
    && (forall i :: i in ts.queue ==> i < |ts.timers|)
    && (forall i: nat :: i < |ts.timers| ==> TimerOk(ts.timers[i]))
    && (forall i: nat :: i < |ts.timers| ==> LinksOk(ts, now, y, i))
  }

  // ---------------------------------------------------------------------------
  // Preservation
  // ---------------------------------------------------------------------------

  lemma DisarmOk(ts: Timers, i: nat, now: nat)
    requires TimersOk(ts, now, {}) && i < |ts.timers|
    ensures TimersOk(Disarm(ts, i), now, {})
  {
    var r := Disarm(ts, i);
    WithoutIdSorted(ts.timeouts, i);
    WithoutIdDistinct(ts.timeouts, i);
    forall j: nat | j < |ts.timers|
      ensures TimerOk(r.timers[j]) && LinksOk(r, now, {}, j)
    {
      assert TimerOk(ts.timers[j]) && LinksOk(ts, now, {}, j);
    }
  }

  lemma ClearPendingOk(ts: Timers, i: nat, now: nat)
    requires TimersOk(ts, now, {}) && i < |ts.timers|
    ensures TimersOk(ClearPending(ts, i), now, {})
  {
    var r := ClearPending(ts, i);
    WithoutDistinct(ts.queue, i);
    forall j: nat | j < |ts.timers|
      ensures TimerOk(r.timers[j]) && LinksOk(r, now, {}, j)
    {
      assert TimerOk(ts.timers[j]) && LinksOk(ts, now, {}, j);
    }
  }

  lemma ArmOk(ts: Timers, i: nat, now: nat)
    requires TimersOk(ts, now, {}) && i < |ts.timers| && !ts.timers[i].active
    ensures TimersOk(Arm(ts, i, now), now, {})
  {
    var r := Arm(ts, i, now);
    var t := ts.timers[i];
    var e := Entry(i, now + t.period);
    assert TimerOk(t) && LinksOk(ts, now, {}, i);
    NoEntry(ts, now, {}, i);
    InsertDueSorted(ts.timeouts, e);
    InsertDueDistinct(ts.timeouts, e);
    FireTimeNext(now, t.period, 0);
    forall j: nat | j < |ts.timers|
      ensures TimerOk(r.timers[j]) && LinksOk(r, now, {}, j)
    {
      assert TimerOk(ts.timers[j]) && LinksOk(ts, now, {}, j);
    }
  }

  /** An inactive timer has no entry in the timeout list. */
  lemma NoEntry(ts: Timers, now: nat, y: set<nat>, i: nat)
    requires i < |ts.timers| && LinksOk(ts, now, y, i) && !ts.timers[i].active && i !in y
    ensures forall x :: x in ts.timeouts ==> x.id != i
  {
    forall x | x in ts.timeouts
      ensures x.id != i
    {
      assert Entry(x.id, x.due) in ts.timeouts;
    }
  }

  lemma PeriodOk(ts: Timers, i: nat, period: nat, now: nat)
    requires TimersOk(ts, now, {}) && i < |ts.timers| && !ts.timers[i].active && 0 < period < WAIT_FOREVER
    ensures TimersOk(WithTimer(ts, i, ts.timers[i].(period := period, fires := [])), now, {})
  {
    var r := WithTimer(ts, i, ts.timers[i].(period := period, fires := []));
    forall j: nat | j < |ts.timers|
      ensures TimerOk(r.timers[j]) && LinksOk(r, now, {}, j)
    {
      assert TimerOk(ts.timers[j]) && LinksOk(ts, now, {}, j);
    }
  }

  /** Every call keeps the lists, the schedule and the counters consistent. */
  lemma CallsOk(ts: Timers, i: nat, period: nat, now: nat)
    requires TimersOk(ts, now, {})
    ensures TimersOk(StartTimer(ts, i, now).0, now, {})
    ensures TimersOk(StopTimer(ts, i).0, now, {})
    ensures TimersOk(ResetTimer(ts, i, now).0, now, {})
    ensures TimersOk(ChangePeriod(ts, i, period, now).0, now, {})
  {
    hide TimersOk, InsertByDue, WithoutId, Without;
    if i < |ts.timers| {
      DisarmOk(ts, i, now);
      var ts1 := Disarm(ts, i);
      ClearPendingOk(ts1, i, now);
      ArmOk(ClearPending(ts1, i), i, now);
      if !ts.timers[i].active {
        ClearPendingOk(ts, i, now);
        ArmOk(ClearPending(ts, i), i, now);
      }
      if 0 < period < WAIT_FOREVER {
        PeriodOk(ts1, i, period, now);
        var ts2 := WithTimer(ts1, i, ts1.timers[i].(period := period, fires := []));
        ClearPendingOk(ts2, i, now);
        ArmOk(ClearPending(ts2, i), i, now);
      }
    }
  }

  // ---------------------------------------------------------------------------
  // Expiry
  // ---------------------------------------------------------------------------

  lemma ExpireTimerSelf(ts: Timers, i: nat, now: nat, y: set<nat>)
    requires TimersOk(ts, now, y) && i < |ts.timers| && i in y
    ensures TimerOk(ExpireTimer(ts, i, now).timers[i])
    ensures LinksOk(ExpireTimer(ts, i, now), now, y - {i}, i)
    ensures ts.timers[i].reload ==> NextFire(ExpireTimer(ts, i, now).timers[i]) == now + ts.timers[i].period
  {
    hide SortedByDue, DistinctIds, Distinct;
    var t := ts.timers[i];
    var r := ExpireTimer(ts, i, now);
    assert TimerOk(t) && LinksOk(ts, now, y, i);
    FireTimeNext(t.armedAt, t.period, |t.fires| + 1);
    forall j: nat | j < |r.timers[i].fires|
      ensures r.timers[i].fires[j] == FireTime(t.armedAt, t.period, j + 1)
    {
      assert j < |t.fires| ==> r.timers[i].fires[j] == t.fires[j];
    }
    forall d: nat
      ensures Entry(i, d) in r.timeouts <==> r.timers[i].active && d == NextFire(r.timers[i])
    {
      assert Entry(i, d) !in ts.timeouts;
    }
  }

  lemma ExpireTimerOther(ts: Timers, i: nat, now: nat, y: set<nat>, j: nat)
    requires TimersOk(ts, now, y) && i < |ts.timers| && j < |ts.timers| && j != i
    ensures TimerOk(ExpireTimer(ts, i, now).timers[j]) && LinksOk(ExpireTimer(ts, i, now), now, y - {i}, j)
  {
    hide SortedByDue, DistinctIds, Distinct;
    assert TimerOk(ts.timers[j]) && LinksOk(ts, now, y, j);
  }

  lemma ExpireTimerLists(ts: Timers, i: nat, now: nat, y: set<nat>)
    requires TimersOk(ts, now, y) && i < |ts.timers| && i in y
    ensures var r := ExpireTimer(ts, i, now);
      && SortedByDue(r.timeouts) && DistinctIds(r.timeouts) && Distinct(r.queue)
      && (forall e :: e in r.timeouts ==> e.due > now && e.id < |r.timers| && e.id !in y - {i})
      && (forall j :: j in r.queue ==> j < |r.timers|)
  {
    var t := ts.timers[i];
    assert TimerOk(t);
    InsertDueSorted(ts.timeouts, Entry(i, now + t.period));
    InsertDueDistinct(ts.timeouts, Entry(i, now + t.period));
    if i !in ts.queue {
      DistinctSnoc(ts.queue, i);
    }
    hide SortedByDue, DistinctIds, Distinct, LinksOk, InsertByDue;
  }

  lemma ExpireTimerOk(ts: Timers, i: nat, now: nat, y: set<nat>)
    requires TimersOk(ts, now, y) && i < |ts.timers| && i in y
    ensures TimersOk(ExpireTimer(ts, i, now), now, y - {i})
  {
    hide ExpireTimer, LinksOk, TimerOk, SortedByDue, DistinctIds, Distinct;
    var r := ExpireTimer(ts, i, now);
    ExpireTimerLists(ts, i, now, y);
    ExpireTimerSelf(ts, i, now, y);
    forall j: nat | j < |r.timers|
      ensures TimerOk(r.timers[j]) && LinksOk(r, now, y - {i}, j)
    {
      if j != i {
        ExpireTimerOther(ts, i, now, y, j);
      }
    }
  }

  predicate AllBelow(ids: seq<nat>, n: nat) {
    forall i :: i in ids ==> i < n
  }

  lemma {:induction false} ExpireTimersOk(ts: Timers, ids: seq<nat>, now: nat)
    requires TimersOk(ts, now, Ids(ids)) && Distinct(ids) && AllBelow(ids, |ts.timers|)
    ensures TimersOk(ExpireTimers(ts, ids, now), now, {})
    decreases |ids|
  {
    hide TimersOk, ExpireTimer;
    if ids == [] {
      assert Ids(ids) == {};
    } else {
      assert ids[0] in ids;
      ExpireTimerOk(ts, ids[0], now, Ids(ids));
      assert Ids(ids) - {ids[0]} == Ids(ids[1..]);
      assert forall i :: i in ids[1..] ==> i in ids;
      ExpireTimersOk(ExpireTimer(ts, ids[0], now), ids[1..], now);
    }
  }

  /** The due timers leave the timeout list. */
  lemma TimersDue(ts: Timers, now: nat)
    requires TimersOk(ts, now, {})
    ensures var ids := DueIds(ts.timeouts, now + 1);
      && TimersOk(ts.(timeouts := NotDue(ts.timeouts, now + 1)), now + 1, Ids(ids))
      && Distinct(ids) && AllBelow(ids, |ts.timers|)
  {
    hide SortedByDue, DistinctIds, Distinct, DueIds, NotDue, LinksOk, TimerOk;
    var ids := DueIds(ts.timeouts, now + 1);
    var r := ts.(timeouts := NotDue(ts.timeouts, now + 1));
    DueSplit(ts.timeouts, now + 1);
    forall e | e in r.timeouts
      ensures e.id !in Ids(ids)
    {
      DueEntry(ts.timeouts, now + 1, e);
    }
    var y := Ids(ids);
    var now' := now + 1;
    forall i: nat | i < |ts.timers|
      ensures LinksOk(r, now', y, i)
    {
      TimerDue(ts, now, i);
    }
  }

  lemma TimerDue(ts: Timers, now: nat, i: nat)
    requires TimersOk(ts, now, {}) && i < |ts.timers|
    ensures LinksOk(ts.(timeouts := NotDue(ts.timeouts, now + 1)), now + 1, Ids(DueIds(ts.timeouts, now + 1)), i)
  {
    hide DueIds, NotDue, Distinct, NextFire;
    assert LinksOk(ts, now, {}, i);
    var t := ts.timers[i];
    var s := ts.timeouts;
    DueSplit(s, now + 1);
    if i in DueIds(s, now + 1) {
      var e :| e in s && e.due <= now + 1 && e.id == i;
      assert e == Entry(i, now + 1);
    } else {
      forall d: nat
        ensures Entry(i, d) in NotDue(s, now + 1) <==> Entry(i, d) in s
      {
        if Entry(i, d) in s {
          DueEntry(s, now + 1, Entry(i, d));
        }
      }
    }
  }

  /** The tick keeps everything consistent; in particular every expiration falls on the
      schedule of its timer. */
  lemma TimersTickOk(ts: Timers, now: nat)
    requires TimersOk(ts, now, {})
    ensures TimersOk(TimersTick(ts, now + 1).0, now + 1, {})
  {
    hide TimersOk, DueIds, NotDue, ExpireTimers;
    TimersDue(ts, now);
    ExpireTimersOk(ts.(timeouts := NotDue(ts.timeouts, now + 1)), DueIds(ts.timeouts, now + 1), now + 1);
  }

  /** Delivering an expiration to its callback. */
  lemma TakePendingOk(ts: Timers, now: nat)
    requires TimersOk(ts, now, {})
    ensures TimersOk(TakePending(ts).0, now, {})
    ensures TakePending(ts).1.None? <==> ts.queue == []
  {
    hide SortedByDue, DistinctIds;
    var r := TakePending(ts).0;
    FirstIsMember(ts.queue);
    if ts.queue != [] {
      var i := ts.queue[0];
      assert LinksOk(ts, now, {}, i) && TimerOk(ts.timers[i]);
      assert i !in ts.queue[1..];
      DistinctSnoc(ts.queue[1..], i);
      forall j: nat | j < |ts.timers|
        ensures TimerOk(r.timers[j]) && LinksOk(r, now, {}, j)
      {
        assert TimerOk(ts.timers[j]) && LinksOk(ts, now, {}, j);
        assert j in ts.queue <==> j == i || j in ts.queue[1..];
      }
      assert forall j :: j in r.queue ==> j in ts.queue;
      assert Distinct(r.queue);
    }
  }

  /** Main result on timers: while armed, a timer's next deadline in the timeout list is
      `armedAt + (n + 1) * period` after `n` expirations, all of which fell on the schedule. */
  lemma ScheduleExact(ts: Timers, now: nat, i: nat)
    requires TimersOk(ts, now, {}) && i < |ts.timers|
    ensures var t := ts.timers[i];
      && (forall j: nat :: j < |t.fires| ==> t.fires[j] == t.armedAt + (j + 1) * t.period)
      && (t.active ==>
           var due := t.armedAt + (|t.fires| + 1) * t.period; Entry(i, due) in ts.timeouts && now < due)
      && (!t.active ==> forall d: nat :: Entry(i, d) !in ts.timeouts)
  {
    hide SortedByDue, DistinctIds, Distinct;
    assert TimerOk(ts.timers[i]) && LinksOk(ts, now, {}, i);
  }

  lemma {:induction false} ExpireTimersFires(ts: Timers, ids: seq<nat>, now: nat, i: nat)
    requires Distinct(ids) && AllBelow(ids, |ts.timers|) && i < |ts.timers|
    ensures ExpireTimers(ts, ids, now).timers[i].fires == ts.timers[i].fires + if i in ids then [now] else []
    decreases |ids|
  {
    if ids != [] {
      assert ids[0] in ids;
      assert forall j :: j in ids[1..] ==> j in ids;
      ExpireTimersFires(ExpireTimer(ts, ids[0], now), ids[1..], now, i);
      assert i in ids <==> i == ids[0] || i in ids[1..];
    }
  }

  /** A timer expires at a tick exactly when it is armed and its schedule says so. */
  lemma TickFires(ts: Timers, now: nat, i: nat)
    requires TimersOk(ts, now, {}) && i < |ts.timers|
    ensures var t := ts.timers[i];
      TimersTick(ts, now + 1).0.timers[i].fires == t.fires + if t.active && NextFire(t) == now + 1 then [now + 1]
          else []
  {
    hide TimerOk, SortedByDue, DistinctIds, DueIds, NotDue, ExpireTimers, FireTime;
    var s := ts.timeouts;
    assert LinksOk(ts, now, {}, i);
    TimersDue(ts, now);
    ExpireTimersFires(ts.(timeouts := NotDue(s, now + 1)), DueIds(s, now + 1), now + 1, i);
    DueSplit(s, now + 1);
    if i in DueIds(s, now + 1) {
      var e :| e in s && e.due <= now + 1 && e.id == i;
      assert e == Entry(i, now + 1);
    } else if ts.timers[i].active {
      DueEntry(s, now + 1, Entry(i, NextFire(ts.timers[i])));
    }
  }
}
