/**
 What callers of software timers can rely on: what each call answers and leaves, when a timer
 expires after a call armed it, and that a stopped timer stays silent, over every run of the system.
 */
module TimerTheorems {
  import opened Config
  import opened Sequences
  import opened KernelModel
  import opened KernelInvariant
  import opened Blocking
  import opened Waking
  import opened KernelRuns
  import opened Arithmetic
  import opened TimerModel
  import opened TimerRuns

  // ---------------------------------------------------------------------------
  // Calls
  // ---------------------------------------------------------------------------

  /** A call on timer `i` leaves all other timers and their places in the two lists alone. */
  ghost predicate OthersKept(ts: Timers, ts': Timers, i: nat) {
    && |ts'.timers| == |ts.timers|
    && (forall j: nat :: j < |ts.timers| && j != i ==> ts'.timers[j] == ts.timers[j])
    && (forall j: nat :: j != i ==> (j in ts'.queue <==> j in ts.queue))
    && (forall e: Entry :: e.id != i ==> (e in ts'.timeouts <==> e in ts.timeouts))
  }

  /** Timer `i` has forgotten its undelivered expirations and has only begun a schedule of the given
      period at `now`. */
  ghost predicate FreshlyArmed(ts: Timers, ts': Timers, i: nat, now: nat, period: nat) {
    && OthersKept(ts, ts', i) && i < |ts.timers|
    && var t, t' := ts.timers[i], ts'.timers[i];
       && t'.active && t'.armedAt == now && t'.period == period && t'.fires == [] && t'.pending == 0
       && t'.discarded == t.discarded + t.pending && t'.expired == t.expired && t'.dispatched == t.dispatched
       && t'.lost == t.lost && t'.reload == t.reload
       && i !in ts'.queue && (forall d: nat :: Entry(i, d) in ts'.timeouts <==> d == now + period)
  }

  lemma ArmedAfresh(ts: Timers, i: nat, now: nat, period: nat)
    requires i < |ts.timers| && ts.timers[i].period == period && (forall e :: e in ts.timeouts ==> e.id != i)
    ensures FreshlyArmed(ts, Arm(ClearPending(ts, i), i, now), i, now, period)
  {
  }

  lemma FreshAfterDisarm(ts: Timers, ts1: Timers, ts': Timers, i: nat, now: nat, period: nat)
    requires OthersKept(ts, ts1, i) && i < |ts.timers| && FreshlyArmed(ts1, ts', i, now, period)
    requires var t, t1 := ts.timers[i], ts1.timers[i];
      && t1.discarded == t.discarded && t1.pending == t.pending && t1.expired == t.expired && t1.lost == t.lost
      && t1.dispatched == t.dispatched && t1.reload == t.reload
    ensures FreshlyArmed(ts, ts', i, now, period)
  {
  }

  /** Starting succeeds exactly for a timer that is not armed, and arms it afresh. */
  lemma StartAnswers(ts: Timers, i: nat, now: nat)
    requires TimersOk(ts, now, {})
    ensures var (ts', status) := StartTimer(ts, i, now);
      && status == (if i >= |ts.timers| then InvalidArgument else if ts.timers[i].active then InvalidState else Ok)
      && (status != Ok ==> ts' == ts)
      && (status == Ok ==> FreshlyArmed(ts, ts', i, now, ts.timers[i].period))
  {
    hide FreshlyArmed, Arm, ClearPending;
    if i < |ts.timers| && !ts.timers[i].active {
      assert LinksOk(ts, now, {}, i);
      NoEntry(ts, now, {}, i);
      ArmedAfresh(ts, i, now, ts.timers[i].period);
    }
  }

  /** Stopping succeeds for every timer and leaves it neither armed nor pending. */
  lemma StopAnswers(ts: Timers, i: nat)
    ensures var (ts', status) := StopTimer(ts, i);
      && status == (if i >= |ts.timers| then InvalidArgument else Ok)
      && (status != Ok ==> ts' == ts)
      && (status == Ok ==>
            && OthersKept(ts, ts', i) && IsSilent(ts', i)
            && (forall e :: e in ts'.timeouts ==> e.id != i)
            && var t := ts.timers[i];
               ts'.timers[i] == t.(active := false, pending := 0, discarded := t.discarded + t.pending))
  {
  }

  /** Resetting arms every timer afresh, armed or not. */
  lemma ResetAnswers(ts: Timers, i: nat, now: nat)
    requires TimersOk(ts, now, {})
    ensures var (ts', status) := ResetTimer(ts, i, now);
      && status == (if i >= |ts.timers| then InvalidArgument else Ok)
      && (status != Ok ==> ts' == ts)
      && (status == Ok ==> FreshlyArmed(ts, ts', i, now, ts.timers[i].period))
  {
    hide FreshlyArmed, Arm, ClearPending;
    if i < |ts.timers| {
      var ts1 := Disarm(ts, i);
      ArmedAfresh(ts1, i, now, ts.timers[i].period);
      FreshAfterDisarm(ts, ts1, ResetTimer(ts, i, now).0, i, now, ts.timers[i].period);
    }
  }

  /** A valid new period arms every timer afresh with that period; any other is refused. */
  lemma ChangePeriodAnswers(ts: Timers, i: nat, period: nat, now: nat)
    requires TimersOk(ts, now, {})
    ensures var (ts', status) := ChangePeriod(ts, i, period, now);
      && status == (if i < |ts.timers| && 0 < period < WAIT_FOREVER then Ok else InvalidArgument)
      && (status != Ok ==> ts' == ts)
      && (status == Ok ==> FreshlyArmed(ts, ts', i, now, period))
  {
    hide FreshlyArmed, Arm, ClearPending;
    if i < |ts.timers| && 0 < period < WAIT_FOREVER {
      var ts1 := Disarm(ts, i);
      var ts2 := WithTimer(ts1, i, ts1.timers[i].(period := period, fires := []));
      ArmedAfresh(ts2, i, now, period);
      FreshAfterDisarm(ts, ts2, ChangePeriod(ts, i, period, now).0, i, now, period);
    }
  }

  // ---------------------------------------------------------------------------
  // The tick and the service task
  // ---------------------------------------------------------------------------

  /** The control block after an expiration: one more to deliver, or one lost if the counter is full. */
  function Expired(t: Timer, now: nat): Timer {
    t.(active := t.reload,
       pending := if t.pending < UINT32_MAX then t.pending + 1 else t.pending,
       lost := if t.pending < UINT32_MAX then t.lost else t.lost + 1,
       expired := t.expired + 1, fires := t.fires + [now])
  }

  lemma {:induction false} ExpireTimersEach(ts: Timers, ids: seq<nat>, now: nat, i: nat)
    requires Distinct(ids) && AllBelow(ids, |ts.timers|) && i < |ts.timers|
    ensures var ts' := ExpireTimers(ts, ids, now);
      && ts'.timers[i] == (if i in ids then Expired(ts.timers[i], now) else ts.timers[i])
      && (i in ts'.queue <==> i in ts.queue || i in ids)
    decreases |ids|
  {
    if ids != [] {
      assert ids[0] in ids;
      assert forall j :: j in ids[1..] ==> j in ids;
      ExpireTimersEach(ExpireTimer(ts, ids[0], now), ids[1..], now, i);
      assert i in ids <==> i == ids[0] || i in ids[1..];
    }
  }

  /** A tick expires exactly the armed timers whose schedule says so, counts each once for delivery
      unless its counter is full, and leaves every other timer as it is. */
  lemma TickExpiresTimers(ts: Timers, now: nat, i: nat)
    requires TimersOk(ts, now, {}) && i < |ts.timers|
    ensures var (ts', fired) := TimersTick(ts, now + 1);
      var t := ts.timers[i];
      var due := t.active && now + 1 == t.armedAt + (|t.fires| + 1) * t.period;
      && |ts'.timers| == |ts.timers|
      && ts'.timers[i] == (if due then Expired(t, now + 1) else t)
      && (i in ts'.queue <==> i in ts.queue || due)
      && (due ==> fired)
  {
    hide TimerOk, SortedByDue, DistinctIds, DueIds, NotDue, ExpireTimers, Expired;
    var s := ts.timeouts;
    assert LinksOk(ts, now, {}, i);
    TimersDue(ts, now);
    ExpireTimersEach(ts.(timeouts := NotDue(s, now + 1)), DueIds(s, now + 1), now + 1, i);
    DueSplit(s, now + 1);
    if i in DueIds(s, now + 1) {
      var e :| e in s && e.due <= now + 1 && e.id == i;
      assert e == Entry(i, now + 1);
    } else if ts.timers[i].active {
      DueEntry(s, now + 1, Entry(i, NextFire(ts.timers[i])));
    }
  }

  /** The service task takes one expiration of the timer that waits longest, which goes behind the
      others if it has more. */
  lemma TakeDelivers(ts: Timers, now: nat)
    requires TimersOk(ts, now, {})
    ensures var (ts', taken) := TakePending(ts);
      if ts.queue == [] then ts' == ts && taken == None
      else
        var i := ts.queue[0];
        && taken == Some(i) && i < |ts.timers| && |ts'.timers| == |ts.timers| && ts'.timeouts == ts.timeouts
        && ts.timers[i].pending > 0
        && ts'.timers == ts.timers[i := ts.timers[i].(
             pending := ts.timers[i].pending - 1, dispatched := ts.timers[i].dispatched + 1, running := true)]
        && ts'.queue == ts.queue[1..] + (if ts'.timers[i].pending > 0 then [i] else [])
  {
    FirstIsMember(ts.queue);
    if ts.queue != [] {
      assert LinksOk(ts, now, {}, ts.queue[0]);
    }
  }

  // ---------------------------------------------------------------------------
  // A stopped timer stays silent
  // ---------------------------------------------------------------------------

  ghost predicate IsSilent(ts: Timers, i: nat) {
    i < |ts.timers| && !ts.timers[i].active && ts.timers[i].pending == 0 && i !in ts.queue
  }

  /** A call that may arm timer `i`. */
  predicate Arms(e: Event, i: nat) {
    (e.Start? || e.Reset? || e.NewPeriod?) && e.i == i
  }

  /** Nothing but the mark of a running callback has changed. */
  predicate SameButRunning(t: Timer, t': Timer) {
    t' == t.(running := t'.running)
  }

  lemma SilentEvent(x: System, e: Event, i: nat)
    requires SystemOk(x) && Shape(x.k) && Enabled(x, e) && IsSilent(x.ts, i) && !Arms(e, i)
    ensures var x' := Happens(x, e);
      IsSilent(x'.ts, i) && SameButRunning(x.ts.timers[i], x'.ts.timers[i])
  {
    hide Good, SignalOk, PlaceOk, NoneLost, TimersOk, Apply, Tick, SemTake, StartTimer, StopTimer, ResetTimer,
         ChangePeriod,
         TimersTick, TakePending;
    match e
    case TimerTick => TickExpiresTimers(x.ts, x.k.now, i);
    case Start(j) => StartAnswers(x.ts, j, x.k.now);
    case Stop(j) => StopAnswers(x.ts, j);
    case Reset(j) => ResetAnswers(x.ts, j, x.k.now);
    case NewPeriod(j, period) => ChangePeriodAnswers(x.ts, j, period, x.k.now);
    case ServiceDrains => TakeDelivers(x.ts, x.k.now);
    case _ =>
  }

  lemma {:induction false} SilentRun(x: System, es: seq<Event>, i: nat)
    requires SystemOk(x) && Shape(x.k) && Possible(x, es) && IsSilent(x.ts, i)
    requires forall e :: e in es ==> !Arms(e, i)
    ensures var x' := History(x, es);
      IsSilent(x'.ts, i) && SameButRunning(x.ts.timers[i], x'.ts.timers[i])
    decreases |es|
  {
    hide SystemOk, Enabled, Happens, IsSilent, Arms;
    SilentBelow(x.ts, i);
    if es != [] {
      assert es[0] in es;
      SilentEvent(x, es[0], i);
      EventOk(x, es[0]);
      SilentBelow(Happens(x, es[0]).ts, i);
      SilentRun(Happens(x, es[0]), es[1..], i);
    }
  }

  lemma SilentBelow(ts: Timers, i: nat)
    requires IsSilent(ts, i)
    ensures i < |ts.timers|
  {
  }

  /** After a stop and any events that do not arm the timer again, it is neither armed nor pending,
      and has not expired and not called back since. */
  lemma StoppedStaysSilent(x: System, es: seq<Event>, i: nat)
    requires SystemOk(x) && Shape(x.k) && Possible(x, [Stop(i)] + es) && i < |x.ts.timers|
    requires forall e :: e in es ==> !Arms(e, i)
    ensures var x' := History(x, [Stop(i)] + es);
      && IsSilent(x'.ts, i)
      && x'.ts.timers[i].expired == x.ts.timers[i].expired && x'.ts.timers[i].dispatched == x.ts.timers[i].dispatched
      && x'.ts.timers[i].fires == x.ts.timers[i].fires
  {
    hide SystemOk, StopTimer, IsSilent;
    var run := [Stop(i)] + es;
    assert run[0] == Stop(i) && run[1..] == es;
    StopAnswers(x.ts, i);
    EventOk(x, Stop(i));
    SilentRun(Happens(x, Stop(i)), es, i);
    SilentBelow(Happens(x, Stop(i)).ts, i);
    SilentBelow(History(x, run).ts, i);
  }

  // ---------------------------------------------------------------------------
  // An armed timer expires on time
  // ---------------------------------------------------------------------------

  predicate Disturbs(e: Event, i: nat) {
    Arms(e, i) || e == Stop(i)
  }

  /** Timer `i` follows the schedule that a call began at `from`. */
  ghost predicate OnSchedule(ts: Timers, now: nat, i: nat, from: nat, period: nat) {
    && i < |ts.timers|
    && var t := ts.timers[i];
       && t.armedAt == from <= now && t.period == period
       && (forall j: nat :: j < |t.fires| ==> t.fires[j] <= now)
       && (if t.reload then t.active else t.active <==> t.fires == [])
  }

  lemma ScheduledEvent(x: System, e: Event, i: nat, from: nat, period: nat)
    requires SystemOk(x) && Shape(x.k) && Enabled(x, e) && OnSchedule(x.ts, x.k.now, i, from, period) && !Disturbs(e, i)
    ensures var x' := Happens(x, e); OnSchedule(x'.ts, x'.k.now, i, from, period)
    ensures Happens(x, e).ts.timers[i].reload == x.ts.timers[i].reload
  {
    hide Good, SignalOk, PlaceOk, NoneLost, TimersOk, Apply, Tick, SemTake, StartTimer, StopTimer, ResetTimer,
         ChangePeriod,
         TimersTick, TakePending;
    EventTime(x, e);
    match e
    case TimerTick => TickExpiresTimers(x.ts, x.k.now, i);
    case Start(j) => StartAnswers(x.ts, j, x.k.now);
    case Stop(j) => StopAnswers(x.ts, j);
    case Reset(j) => ResetAnswers(x.ts, j, x.k.now);
    case NewPeriod(j, p) => ChangePeriodAnswers(x.ts, j, p, x.k.now);
    case ServiceDrains => TakeDelivers(x.ts, x.k.now);
    case _ =>
  }

  lemma EventTime(x: System, e: Event)
    requires Shape(x.k) && Enabled(x, e)
    ensures Happens(x, e).k.now == x.k.now + if e.TimerTick? then 1 else 0
  {
    hide Apply, SemTake, TickTimeouts, SemGiveLocked, TickTail, TimersTick, TakePending;
    match e
    case Other(step) => StepKeepsTime(x.k, step);
    case TimerTick =>
      TickMovesTime(x.k);
      TailTime(TickTimeouts(x.k), false);
      TailTime(SemGiveLocked(TickTimeouts(x.k), TIMER_SIGNAL).0, SemGiveLocked(TickTimeouts(x.k), TIMER_SIGNAL).2);
    case ServiceTakes => ExchangeKeepsTime(x.k, TIMER_SIGNAL, 0, [], WAIT_FOREVER, true);
    case _ =>
  }

  lemma TailTime(k: Kernel, woken: bool)
    requires Shape(k)
    ensures TickTail(k, woken).now == k.now
  {
    hide ShouldPreempt;
  }

  lemma {:induction false} ScheduledRun(x: System, es: seq<Event>, i: nat, from: nat, period: nat)
    requires SystemOk(x) && Shape(x.k) && Possible(x, es) && OnSchedule(x.ts, x.k.now, i, from, period)
    requires forall e :: e in es ==> !Disturbs(e, i)
    ensures var x' := History(x, es); OnSchedule(x'.ts, x'.k.now, i, from, period)
    decreases |es|
  {
    hide SystemOk, Enabled, Happens, OnSchedule, Disturbs;
    if es != [] {
      assert es[0] in es;
      ScheduledEvent(x, es[0], i, from, period);
      EventOk(x, es[0]);
      ScheduledRun(Happens(x, es[0]), es[1..], i, from, period);
    }
  }

  /** What a timer armed at `from` has done by `now`: a periodic one has expired once per full period
      and goes on; a one-shot one has expired once if its period is over. */
  ghost predicate OnTime(t: Timer, from: nat, period: nat, now: nat) {
    && from <= now
    && (forall j: nat :: j < |t.fires| ==> t.fires[j] == from + (j + 1) * period)
    && (t.reload ==> t.active && from + |t.fires| * period <= now < from + (|t.fires| + 1) * period)
    && (!t.reload ==>
          if now < from + period then t.active && t.fires == [] else !t.active && t.fires == [from + period])
  }

  lemma ScheduleIsOnTime(ts: Timers, now: nat, i: nat, from: nat, period: nat)
    requires TimersOk(ts, now, {}) && OnSchedule(ts, now, i, from, period)
    ensures OnTime(ts.timers[i], from, period, now)
  {
    hide SortedByDue, DistinctIds, Distinct;
    var t := ts.timers[i];
    assert TimerOk(t) && LinksOk(ts, now, {}, i);
    ScheduleExact(ts, now, i);
    if t.fires != [] {
      assert t.fires[|t.fires| - 1] == from + |t.fires| * period;
    }
  }

  /** A successful start, reset or change of period of timer `i`. */
  predicate ArmsNow(x: System, e: Event, i: nat) {
    && i < |x.ts.timers|
    && ((e == Start(i) && !x.ts.timers[i].active) || e == Reset(i)
        || (e.NewPeriod? && e.i == i && 0 < e.period < WAIT_FOREVER))
  }

  /** The period that counts from then on. */
  function PeriodFrom(x: System, e: Event, i: nat): nat
    requires ArmsNow(x, e, i)
  {
    if e.NewPeriod? then e.period else x.ts.timers[i].period
  }

  /** Over every run: a timer armed by a call at tick T expires at T + period, and every period after
      that if it is periodic, and at no other tick, until a call disturbs it. */
  lemma ArmedFiresOnTime(x: System, e: Event, es: seq<Event>, i: nat)
    requires SystemOk(x) && Shape(x.k) && ArmsNow(x, e, i) && Possible(x, [e] + es)
    requires forall f :: f in es ==> !Disturbs(f, i)
    ensures var x' := History(x, [e] + es);
      i < |x'.ts.timers| && OnTime(x'.ts.timers[i], x.k.now, PeriodFrom(x, e, i), x'.k.now)
  {
    hide Good, SignalOk, PlaceOk, NoneLost, TimersOk, StartTimer, ResetTimer, ChangePeriod, OnTime, Disturbs;
    var run := [e] + es;
    assert run[0] == e && run[1..] == es;
    StartAnswers(x.ts, i, x.k.now);
    ResetAnswers(x.ts, i, x.k.now);
    if e.NewPeriod? {
      ChangePeriodAnswers(x.ts, i, e.period, x.k.now);
    }
    var x1 := Happens(x, e);
    EventOk(x, e);
    assert OnSchedule(x1.ts, x1.k.now, i, x.k.now, PeriodFrom(x, e, i));
    ScheduledRun(x1, es, i, x.k.now, PeriodFrom(x, e, i));
    HistoryOk(x1, es);
    ScheduleIsOnTime(History(x1, es).ts, History(x1, es).k.now, i, x.k.now, PeriodFrom(x, e, i));
  }
}
