/**
 Flat state machines with arbitrary handlers. A handler may request a transition, or not,
 whatever result it returns, and its reaction may depend on everything that happened
 before: on the calls made so far, which stand for its context.
 */
module StateMachine {
  import opened Config

  const MAX_INIT_TRANSITIONS: nat := 8

  type State = nat

  /** Reserved signals, and the signal of a dispatched event. */
  datatype Signal = Entry | Exit | Init | User(event: nat)

  datatype Result = Handled | Ignored | Transition | OtherResult

  /** What a handler returns, and the last target it requested. */
  datatype Reaction = Reaction(result: Result, target: Option<State>)

  /** One call of the handler of `state`. */
  datatype Call = Call(state: State, signal: Signal)

  type Handlers = (seq<Call>, State, Signal) -> Reaction

  // ---------------------------------------------------------------------------
  // What a correct run looks like
  // ---------------------------------------------------------------------------

  /** A handler that reports a transition has requested a target. */
  predicate Honest(r: Reaction) {
    r.result == Transition ==> r.target.Some?
  }

  /** Entering `s`: its entry handler, and its init handler exactly when entry requests no target.
      The result is the log afterwards and the next target. */
  function Entered(h: Handlers, log: seq<Call>, s: State): (seq<Call>, Option<State>) {
    var r := h(log, s, Entry);
    var log1 := log + [Call(s, Entry)];
    if r.target.Some? then (log1, r.target)
    else (log1 + [Call(s, Init)], h(log1, s, Init).target)
  }

  ghost predicate EntersHonestly(h: Handlers, log: seq<Call>, s: State) {
    && Honest(h(log, s, Entry))
    && (h(log, s, Entry).target.None? ==> Honest(h(log + [Call(s, Entry)], s, Init)))
  }

  /** `n` transitions lead from state `cur` with a pending `target` to the settled state `cur'`.
      Each calls exit of the state left, whose reaction does not matter, and enters the next. */
  ghost predicate Settles(h: Handlers, log: seq<Call>, cur: State, target: Option<State>, n: nat, log': seq<Call>,
    cur': State)
    decreases n
  {
    match target
    case None => n == 0 && log' == log && cur' == cur
    case Some(s) =>
      var exited := log + [Call(cur, Exit)];
      && n > 0 && EntersHonestly(h, exited, s)
      && var (next, target') := Entered(h, exited, s); Settles(h, next, s, target', n - 1, log', cur')
  }

  /** The state whose entry handler was called last. */
  function LastEntered(log: seq<Call>): Option<State> {
    if log == [] then None
    else if log[|log| - 1].signal == Entry then Some(log[|log| - 1].state)
    else LastEntered(log[..|log| - 1])
  }

  function Entries(log: seq<Call>): nat {
    if log == [] then 0 else (if log[|log| - 1].signal == Entry then 1 else 0) + Entries(log[..|log| - 1])
  }

  lemma LogSnoc(log: seq<Call>, c: Call)
    ensures LastEntered(log + [c]) == if c.signal == Entry then Some(c.state) else LastEntered(log)
    ensures Entries(log + [c]) == Entries(log) + if c.signal == Entry then 1 else 0
  {
    assert (log + [c])[..|log + [c]| - 1] == log;
  }

  lemma EnteredLog(h: Handlers, log: seq<Call>, s: State)
    ensures var (log', _) := Entered(h, log, s);
      log <= log' && LastEntered(log') == Some(s) && Entries(log') == Entries(log) + 1
  {
    LogSnoc(log, Call(s, Entry));
    LogSnoc(log + [Call(s, Entry)], Call(s, Init));
  }

  /** Settling only adds calls, with one entry per transition, and ends in the state entered last. */
  lemma {:induction false} SettlesEnters(h: Handlers, log: seq<Call>, cur: State, target: Option<State>, n: nat,
    log': seq<Call>, cur': State)
    requires Settles(h, log, cur, target, n, log', cur') && LastEntered(log) == Some(cur)
    ensures log <= log' && LastEntered(log') == Some(cur') && Entries(log') == Entries(log) + n
    decreases n
  {
    if target.Some? {
      var exited := log + [Call(cur, Exit)];
      LogSnoc(log, Call(cur, Exit));
      EnteredLog(h, exited, target.value);
      var (next, target') := Entered(h, exited, target.value);
      SettlesEnters(h, next, target.value, target', n - 1, log', cur');
    }
  }

  /** One transition taken off the front. */
  lemma SettlesStep(h: Handlers, log: seq<Call>, cur: State, s: State, n: nat, log': seq<Call>, cur': State)
    requires EntersHonestly(h, log + [Call(cur, Exit)], s)
    ensures var (next, target) := Entered(h, log + [Call(cur, Exit)], s);
      Settles(h, log, cur, Some(s), n, log', cur') <==> n > 0 && Settles(h, next, s, target, n - 1, log', cur')
  {
  }

  /** The run from the first point settles exactly when the run from the second, `count`
      transitions later, does. */
  ghost predicate Continues(h: Handlers, log: seq<Call>, cur: State, target: Option<State>,
                            log1: seq<Call>, cur1: State, target1: Option<State>, count: nat) {
    forall n: nat, log': seq<Call>, cur': State ::
      Settles(h, log, cur, target, n, log', cur') <==>
        n >= count && Settles(h, log1, cur1, target1, n - count, log', cur')
  }

  lemma ContinuesStep(h: Handlers, log: seq<Call>, cur: State, target: Option<State>,
                      log1: seq<Call>, cur1: State, s: State, count: nat)
    requires Continues(h, log, cur, target, log1, cur1, Some(s), count)
      && EntersHonestly(h, log1 + [Call(cur1, Exit)], s)
    ensures var (log2, target2) := Entered(h, log1 + [Call(cur1, Exit)], s);
      Continues(h, log, cur, target, log2, s, target2, count + 1)
  {
    hide Entered, EntersHonestly;
    var (log2, target2) := Entered(h, log1 + [Call(cur1, Exit)], s);
    forall n: nat, log': seq<Call>, cur': State
      ensures Settles(h, log, cur, target, n, log', cur') <==>
        n >= count + 1 && Settles(h, log2, s, target2, n - (count + 1), log', cur')
    {
      if n >= count {
        SettlesStep(h, log1, cur1, s, n - count, log', cur');
      }
    }
  }

  /** A dishonest entry can never settle. */
  lemma NeverSettles(h: Handlers, log: seq<Call>, cur: State, target: Option<State>, log1: seq<Call>, cur1: State,
    s: State, count: nat)
    requires Continues(h, log, cur, target, log1, cur1, Some(s), count)
      && !EntersHonestly(h, log1 + [Call(cur1, Exit)], s)
    ensures forall n: nat, log': seq<Call>, cur': State :: !Settles(h, log, cur, target, n, log', cur')
  {
    hide Entered, EntersHonestly;
  }

  // ---------------------------------------------------------------------------
  // The machine in memory
  // ---------------------------------------------------------------------------

  class StateMachine {
    const initial: State
    var current: State
    var target: Option<State>
    var started: bool
    var log: seq<Call>

    constructor (initialState: State)
      ensures initial == initialState && current == initialState && target == None && !started && log == []
    {
      initial, current, target, started, log := initialState, initialState, None, false, [];
    }

    /** Call the current state's handler with a signal. */
    method CallHandler(h: Handlers, signal: Signal) returns (result: Result)
      modifies `target, `log
      ensures log == old(log) + [Call(current, signal)]
      ensures Reaction(result, target) == h(old(log), current, signal)
    {
      target := None;
      var reaction := h(log, current, signal);
      log := log + [Call(current, signal)];
      target := reaction.target;
      result := reaction.result;
    }

    /** Entry, then init unless entry requested a target. */
    method Enter(h: Handlers) returns (ok: bool)
      modifies `target, `log
      ensures ok <==> EntersHonestly(h, old(log), current)
      ensures ok ==> (log, target) == Entered(h, old(log), current)
      ensures LastEntered(log) == Some(current)
    {
      LogSnoc(log, Call(current, Entry));
      var result := CallHandler(h, Entry);
      if result == Transition && target == None {
        return false;
      }
      if target == None {
        LogSnoc(log, Call(current, Init));
        result := CallHandler(h, Init);
        if result == Transition && target == None {
          return false;
        }
      }
      ok := true;
    }

    /** Follow requested transitions until the machine settles. Success means that it settled
        within the limit; failure that it could not have. */
    method ApplyTransition(h: Handlers) returns (status: Status)
      requires LastEntered(log) == Some(current)
      modifies `current, `target, `log
      ensures LastEntered(log) == Some(current)
      ensures status == Ok || status == InvalidState || status == Overflow
      ensures status == Ok ==> target == None
      ensures status == Ok ==>
        exists n: nat :: n <= MAX_INIT_TRANSITIONS && Settles(h, old(log), old(current), old(target), n, log, current)
      ensures status != Ok ==> forall n: nat, log': seq<Call>, cur': State ::
        Settles(h, old(log), old(current), old(target), n, log', cur') ==>
          status == Overflow && n > MAX_INIT_TRANSITIONS
    {
      hide Entered, EntersHonestly, Settles;
      var count := 0;
      while target != None
        invariant count <= MAX_INIT_TRANSITIONS && LastEntered(log) == Some(current)
        invariant Continues(h, old(log), old(current), old(target), log, current, target, count)
        decreases MAX_INIT_TRANSITIONS - count
      {
        var next := target.value;
        ghost var was, from := log, current;
        LogSnoc(log, Call(current, Exit));
        var _ := CallHandler(h, Exit);
        current := next;
        var ok := Enter(h);
        if !ok {
          NeverSettles(h, old(log), old(current), old(target), was, from, next, count);
          return InvalidState;
        }
        ContinuesStep(h, old(log), old(current), old(target), was, from, next, count);
        count := count + 1;
        if count > MAX_INIT_TRANSITIONS {
          return Overflow;
        }
      }
      SettledNow(h, log, current);
      assert Settles(h, log, current, target, count - count, log, current);
      assert Settles(h, old(log), old(current), old(target), count, log, current);
      status := Ok;
    }

    /** Enter the initial state and settle. */
    method Start(h: Handlers) returns (status: Status)
      modifies this
      ensures old(started) ==> status == InvalidState && unchanged(this)
      ensures !old(started) ==> started && LastEntered(log) == Some(current)
      ensures !old(started) && status == Ok ==>
        && EntersHonestly(h, old(log), initial)
        && exists n: nat ::
          n <= MAX_INIT_TRANSITIONS && Settles(h, Entered(h, old(log), initial).0, initial,
              Entered(h, old(log), initial).1, n, log, current)
      ensures !old(started) && status != Ok && EntersHonestly(h, old(log), initial) ==>
        forall n: nat, log': seq<Call>, cur': State ::
          Settles(h, Entered(h, old(log), initial).0, initial, Entered(h, old(log), initial).1, n, log', cur') ==>
              n > MAX_INIT_TRANSITIONS
    {
      hide Entered, EntersHonestly, Settles;
      if started {
        return InvalidState;
      }
      current := initial;
      started := true;
      var ok := Enter(h);
      if !ok {
        return InvalidState;
      }
      status := ApplyTransition(h);
    }

    /** Give an event to the current state and settle if it reports a transition. A target
        requested without reporting a transition is dropped. */
    method Dispatch(h: Handlers, event: nat) returns (status: Status)
      requires started ==> LastEntered(log) == Some(current)
      modifies this
      ensures started == old(started) && (started ==> LastEntered(log) == Some(current))
      ensures !old(started) ==> status == InvalidArgument && unchanged(this)
      ensures var r := h(old(log), old(current), User(event));
        var handled := old(log) + [Call(old(current), User(event))];
        old(started) ==>
          if r.result != Transition then
            && current == old(current) && log == handled
            && (status == Ok <==> r.result == Handled || r.result == Ignored)
          else if r.target.None? then status == InvalidState && current == old(current) && log == handled
          else if status == Ok then
            exists n: nat :: n <= MAX_INIT_TRANSITIONS && Settles(h, handled, old(current), r.target, n, log, current)
          else forall n: nat, log': seq<Call>, cur': State ::
            Settles(h, handled, old(current), r.target, n, log', cur') ==> n > MAX_INIT_TRANSITIONS
    {
      hide Entered, EntersHonestly, Settles;
      if !started {
        return InvalidArgument;
      }
      LogSnoc(log, Call(current, User(event)));
      var result := CallHandler(h, User(event));
      if result == Transition {
        if target == None {
          return InvalidState;
        }
        status := ApplyTransition(h);
      } else {
        status := if result == Handled || result == Ignored then Ok else InvalidState;
      }
    }
  }

  lemma SettledNow(h: Handlers, log: seq<Call>, cur: State)
    ensures Settles(h, log, cur, None, 0, log, cur)
  {
  }
}
