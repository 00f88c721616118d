/**
 The framework calls as the program text of one thread, with arbitrary steps of all other
 threads between any two of its own: `others` are the steps attempted there, and `answers`
 the results the queues would give.
 */
module EventCalls {
  import opened Config
  import opened EventPool
  import opened EventRuns

  class Framework {
    var m: Machine

    constructor (initial: Machine)
      requires Good(initial)
      ensures m == initial
    {
      m := initial;
    }

    method Own(s: Action)
      requires Good(m) && Enabled(m, s)
      modifies this
      ensures Good(m) && m == Perform(old(m), s)
    {
      hide Good, Enabled, Perform;
      StepGood(m, s);
      m := Perform(m, s);
    }

    method Interfere(t: nat, others: seq<Action>)
      requires Good(m) && t < |m.threads|
      modifies this
      ensures Good(m) && t < |m.threads| && m.threads[t] == old(m.threads[t])
    {
      hide Good, Enabled, Perform;
      var i := 0;
      while i < |others|
        invariant Good(m) && t < |m.threads| && m.threads[t] == old(m.threads[t])
      {
        if !IsBy(others[i], t) && Enabled(m, others[i]) {
          OthersUntouched(m, others[i], t);
          Own(others[i]);
        }
        i := i + 1;
      }
    }

    /** Send the reference in flight; a full queue turns acceptance into a refusal. */
    method Send(t: nat, answer: Status) returns (status: Status)
      requires Good(m) && t < |m.threads| && TargetOf(m.threads[t].act).Some?
      modifies this
      ensures Good(m) && t < |m.threads|
      ensures status == Ok ==> m.threads[t] == old(m.threads[t]).(act := AfterAccept(old(m.threads[t]).act))
      ensures status != Ok ==> m.threads[t] == AfterRefuse(old(m.threads[t]), status)
    {
      hide Good;
      if answer == Ok && Enabled(m, Accept(t)) {
        Own(Accept(t));
        status := Ok;
      } else {
        status := if answer == Ok then QueueFull else answer;
        Own(Refuse(t, status));
      }
    }

    /** Post with a reference of its own: on failure the reference is taken back. */
    method PostShared(t: nat, target: nat, e: nat, others: nat -> seq<Action>, answer: Status) returns (status: Status)
      requires Good(m) && t < |m.threads| && m.threads[t].act == Idle && e in m.threads[t].held
      modifies this
      ensures Good(m) && t < |m.threads| && m.threads[t] == old(m.threads[t])
    {
      hide Good, RefsOf, Retain, Release;
      status := Retain(m.pool, e).1;
      Own(EventRuns.PostShared(t, target, e));
      if status != Ok {
        return;
      }
      Interfere(t, others(0));
      status := Send(t, answer);
      Interfere(t, others(1));
      if status != Ok {
        Own(Undo(t));
      }
    }

    /** One round of the delivery loop: a shared post to the next subscriber of the snapshot. */
    method PublishOne(t: nat, others: nat -> seq<Action>, answer: Status) returns (status: Status)
      requires Good(m) && Enabled(m, PublishNext(t))
      modifies this
      ensures Good(m) && t < |m.threads| && m.threads[t].act.Publishing?
      ensures m.threads[t] == old(m.threads[t]).(act := m.threads[t].act)
      ensures var p, p' := old(m.threads[t]).act.p, m.threads[t].act.p;
        && p'.e == p.e && p'.targets == p.targets && p'.i == p.i + 1 && p'.phase == Choosing
        && p'.delivered == p.delivered + (if status == Ok then 1 else 0)
        && p'.status == First(p.status, status)
    {
      hide Good, RefsOf, Retain, Release, InFlight;
      status := Retain(m.pool, m.threads[t].act.p.e).1;
      Own(PublishNext(t));
      if status == Ok {
        Interfere(t, others(0));
        status := Send(t, answer);
        if status != Ok {
          Interfere(t, others(1));
          Own(Undo(t));
        }
      }
    }

    /** Publish to a snapshot of the subscribers and give up the publisher's own reference.
        An event outside the subscriber table is refused and stays with the caller. */
    method Publish(t: nat, e: nat, others: nat -> nat -> seq<Action>, answers: nat -> Status)
      returns (status: Status, delivered: nat)
      requires Good(m) && t < |m.threads| && m.threads[t].act == Idle && e in m.threads[t].held
      modifies this
      ensures Good(m) && t < |m.threads|
      ensures var signal := SignalOf(old(m), e);
        if SIG_USER <= signal < |old(m).subs|
        then
          && m.threads[t] == old(m.threads[t]).(held := old(m.threads[t]).held - multiset{e})
          && delivered <= |old(m).subs[signal]|
          && (status == Ok <==> delivered == |old(m).subs[signal]|)
        else status == InvalidArgument && delivered == 0 && m == old(m)
    {
      hide Good, RefsOf, Retain, Release, InFlight;
      status, delivered := Ok, 0;
      if SignalOf(m, e) < SIG_USER || SignalOf(m, e) >= |m.subs| {
        return InvalidArgument, 0;
      }
      ghost var x := m.threads[t].(held := m.threads[t].held - multiset{e});
      Own(EventRuns.Publish(t, e));
      var targets := m.threads[t].act.p.targets;
      var index := 0;
      while index < |targets|
        invariant Good(m) && t < |m.threads| && index <= |targets|
        invariant m.threads[t].act.Publishing? && m.threads[t] == x.(act := m.threads[t].act)
        invariant var p := m.threads[t].act.p;
          p.e == e && p.targets == targets && p.i == index && p.phase == Choosing && p.delivered == delivered
              && p.status == status
      {
        Interfere(t, others(index)(2));
        var sent := PublishOne(t, others(index), answers(index));
        if sent == Ok {
          delivered := delivered + 1;
        } else if status == Ok {
          status := sent;
        }
        index := index + 1;
      }
      PublicationKnown(m, t);
      Own(PublishEnd(t));
    }
  }
}
