/**
 The subscriber table: one row of slots per signal, kept in one flat array. Used slots
 come first, so a row is a duplicate-free list of subscribers in order of subscription.
 */
module PubSub {
  import opened Config
  import opened Sequences
  import opened EventPool

  const MAX_ACTIVE_OBJECTS: nat := 8

  /** Add a subscriber to a row of at most `max`. */
  function Subscribed(row: seq<nat>, max: nat, x: nat): (seq<nat>, Status) {
    if x in row then (row, InvalidState)
    else if |row| >= max then (row, NoMemory)
    else (row + [x], Ok)
  }

  /** Remove a subscriber, closing the gap. */
  function Unsubscribed(row: seq<nat>, x: nat): (seq<nat>, Status) {
    if x in row then (Without(row, x), Ok) else (row, InvalidState)
  }

  /** A subscription succeeds exactly for a newcomer while there is room, and comes last. */
  lemma SubscribeAnswers(row: seq<nat>, max: nat, x: nat)
    ensures var (row', status) := Subscribed(row, max, x);
      && status == (if x in row then InvalidState else if |row| >= max then NoMemory else Ok)
      && (status != Ok ==> row' == row)
      && (status == Ok ==> |row'| == |row| + 1 && row'[..|row|] == row && row'[|row|] == x)
  {
  }

  /** Unsubscribing succeeds exactly for a subscriber; the others keep their order. */
  lemma UnsubscribeAnswers(row: seq<nat>, x: nat)
    requires Distinct(row)
    ensures var (row', status) := Unsubscribed(row, x);
      && status == (if x in row then Ok else InvalidState)
      && (status != Ok ==> row' == row)
      && (status == Ok ==> exists i: nat :: i < |row| && row[i] == x && row' == row[..i] + row[i + 1..])
  {
    if x in row {
      var i: nat :| i < |row| && row[i] == x;
      assert row == row[..i] + [x] + row[i + 1..];
      WithoutAt(row[..i], x, row[i + 1..]);
    }
  }

  /** Subscribing and unsubscribing again leaves the row as it was. */
  lemma SubscribeRoundTrip(row: seq<nat>, max: nat, x: nat)
    requires Distinct(row) && Subscribed(row, max, x).1 == Ok
    ensures Unsubscribed(Subscribed(row, max, x).0, x) == (row, Ok)
  {
    WithoutAt(row, x, []);
    assert row + [x] + [] == row + [x];
    assert row + [] == row;
  }

  // ---------------------------------------------------------------------------
  // The table as one array of slots
  // ---------------------------------------------------------------------------

  /** Slot `i` of the row that starts at `base`. */
  function Slot(slots: seq<Option<nat>>, base: nat, i: nat): Option<nat>
    requires base + i < |slots|
  {
    slots[base + i]
  }

  /** The `max` slots from `base` on hold `row` and then nothing. */
  ghost predicate RowAt(slots: seq<Option<nat>>, base: nat, max: nat, row: seq<nat>) {
    && base + max <= |slots| && |row| <= max && Distinct(row)
    && forall i: nat :: i < max ==> Slot(slots, base, i) == if i < |row| then Some(row[i]) else None
  }

  ghost predicate TableIs(slots: seq<Option<nat>>, signals: nat, max: nat, rows: seq<seq<nat>>) {
    && |rows| == signals && |slots| == signals * max
    && forall s: nat :: s < signals ==> RowAt(slots, s * max, max, rows[s])
  }

  /** Rows do not overlap. */
  lemma RowsApart(s: nat, t: nat, max: nat)
    requires s != t
    ensures t * max + max <= s * max || s * max + max <= t * max
  {
    assert s < t ==> (s + 1) * max <= t * max;
    assert t < s ==> (t + 1) * max <= s * max;
  }

  lemma RowInside(s: nat, signals: nat, max: nat)
    requires s < signals
    ensures s * max + max <= signals * max
  {
    assert (s + 1) * max <= signals * max;
  }

  /** Rewriting one row changes the table in that row only. */
  lemma RowChanged(slots: seq<Option<nat>>, slots': seq<Option<nat>>, signals: nat, max: nat, rows: seq<seq<nat>>,
    s: nat, row: seq<nat>)
    requires TableIs(slots, signals, max, rows) && s < signals && |slots'| == |slots|
    requires RowAt(slots', s * max, max, row)
    requires forall p: nat :: p < |slots| && (p < s * max || p >= s * max + max) ==> slots'[p] == slots[p]
    ensures TableIs(slots', signals, max, rows[s := row])
  {
    forall t: nat | t < signals && t != s
      ensures RowAt(slots', t * max, max, rows[t])
    {
      RowsApart(s, t, max);
      assert RowAt(slots, t * max, max, rows[t]);
      forall i: nat | i < max
        ensures Slot(slots', t * max, i) == Slot(slots, t * max, i)
      {
      }
    }
  }

  lemma EmptyTable(slots: seq<Option<nat>>, signals: nat, max: nat)
    requires |slots| == signals * max && forall p: nat :: p < |slots| ==> slots[p] == None
    ensures TableIs(slots, signals, max, seq(signals, _ => []))
  {
    forall s: nat | s < signals
      ensures RowAt(slots, s * max, max, [])
    {
      RowInside(s, signals, max);
    }
  }

  class PubSub {
    const slots: array<Option<nat>>
    const signals: nat
    const max: nat
    ghost var rows: seq<seq<nat>>

    ghost predicate Valid()
      reads this, slots
    {
      && SIG_USER < signals && 0 < max <= MAX_ACTIVE_OBJECTS
      && TableIs(slots[..], signals, max, rows)
    }

    constructor (signalCount: nat, maxSubscribers: nat)
      requires signalCount > SIG_USER && 0 < maxSubscribers <= MAX_ACTIVE_OBJECTS
      ensures Valid() && fresh(slots) && signals == signalCount && max == maxSubscribers
      ensures rows == seq(signalCount, _ => [])
    {
      slots := new Option<nat>[signalCount * maxSubscribers](_ => None);
      signals := signalCount;
      max := maxSubscribers;
      rows := seq(signalCount, _ => []);
      new;
      EmptyTable(slots[..], signalCount, maxSubscribers);
    }

    /** The first slot of a row that holds `x`, or `max`. */
    method Find(base: nat, x: Option<nat>, ghost row: seq<nat>) returns (index: nat)
      requires RowAt(slots[..], base, max, row)
      ensures index <= max
      ensures index < max ==> slots[base + index] == x
      ensures x.Some? ==> (index < max <==> x.value in row) && (index < max ==> index < |row| && row[index] == x.value)
      ensures x.None? ==> index == |row|
    {
      index := 0;
      while index < max
        invariant 0 <= index <= max
        invariant forall j: nat :: j < index ==> Slot(slots[..], base, j) != x
      {
        assert Slot(slots[..], base, index) == slots[base + index];
        if slots[base + index] == x {
          break;
        }
        index := index + 1;
      }
      if x.Some? && index == max {
        forall j: nat | j < |row|
          ensures row[j] != x.value
        {
          assert Slot(slots[..], base, j) == Some(row[j]);
        }
      }
      if x.None? && |row| < max {
        assert Slot(slots[..], base, |row|) == None;
      }
    }

    method Subscribe(signal: nat, x: nat) returns (status: Status)
      requires Valid()
      modifies `rows, slots
      ensures Valid()
      ensures signal < SIG_USER || signal >= signals ==> status == InvalidArgument && rows == old(rows)
      ensures SIG_USER <= signal < signals ==>
        rows == old(rows)[signal := Subscribed(old(rows)[signal], max, x).0]
            && status == Subscribed(old(rows)[signal], max, x).1
    {
      if signal < SIG_USER || signal >= signals {
        return InvalidArgument;
      }
      var base := signal * max;
      ghost var row := rows[signal];
      assert rows[signal := row] == rows;
      var index := Find(base, Some(x), row);
      if index < max {
        return InvalidState;
      }
      index := Find(base, None, row);
      if index == max {
        return NoMemory;
      }
      ghost var was := slots[..];
      slots[base + index] := Some(x);
      DistinctSnoc(row, x);
      assert RowAt(slots[..], base, max, row + [x]) by {
        forall i: nat | i < max
          ensures Slot(slots[..], base, i) == if i < |row + [x]| then Some((row + [x])[i]) else None
        {
          assert Slot(was, base, i) == if i < |row| then Some(row[i]) else None;
        }
      }
      RowChanged(was, slots[..], signals, max, rows, signal, row + [x]);
      rows := rows[signal := row + [x]];
      status := Ok;
    }

    /** Move the later slots of a row down by one, over slot `index`. */
    method CloseGap(base: nat, index: nat)
      requires base + max <= slots.Length && index < max
      modifies slots
      ensures forall p: nat :: p < slots.Length ==>
        slots[p] ==
          if base + index <= p < base + max - 1 then old(slots[..])[p + 1]
          else if p == base + max - 1 then None
          else old(slots[p])
    {
      var move := index;
      while move + 1 < max
        invariant index <= move < max
        invariant forall p: nat :: p < slots.Length ==>
          slots[p] == if base + index <= p < base + move then old(slots[..])[p + 1] else old(slots[p])
      {
        slots[base + move] := slots[base + move + 1];
        move := move + 1;
      }
      slots[base + max - 1] := None;
    }

    method Unsubscribe(signal: nat, x: nat) returns (status: Status)
      requires Valid()
      modifies `rows, slots
      ensures Valid()
      ensures signal < SIG_USER || signal >= signals ==> status == InvalidArgument && rows == old(rows)
      ensures SIG_USER <= signal < signals ==>
        rows == old(rows)[signal := Unsubscribed(old(rows)[signal], x).0]
            && status == Unsubscribed(old(rows)[signal], x).1
    {
      if signal < SIG_USER || signal >= signals {
        return InvalidArgument;
      }
      var base := signal * max;
      ghost var row := rows[signal];
      assert rows[signal := row] == rows;
      var index := Find(base, Some(x), row);
      if index == max {
        return InvalidState;
      }
      ghost var was := slots[..];
      CloseGap(base, index);
      ghost var row' := row[..index] + row[index + 1..];
      assert row == row[..index] + [x] + row[index + 1..];
      WithoutAt(row[..index], x, row[index + 1..]);
      assert Unsubscribed(row, x) == (row', Ok);
      assert RowAt(slots[..], base, max, row') by {
        WithoutDistinct(row, x);
        forall i: nat | i < max
          ensures Slot(slots[..], base, i) == if i < |row'| then Some(row'[i]) else None
        {
          assert Slot(was, base, i) == if i < |row| then Some(row[i]) else None;
          if i + 1 < max {
            assert Slot(was, base, i + 1) == if i + 1 < |row| then Some(row[i + 1]) else None;
          }
        }
      }
      RowChanged(was, slots[..], signals, max, rows, signal, row');
      rows := rows[signal := row'];
      status := Ok;
    }

    /** Copy the subscribers of a signal, skipping empty slots. */
    method Snapshot(signal: nat) returns (targets: seq<nat>)
      requires Valid() && signal < signals
      ensures targets == rows[signal]
    {
      var base := signal * max;
      ghost var row := rows[signal];
      assert RowAt(slots[..], base, max, row);
      targets := [];
      var index := 0;
      while index < max
        invariant 0 <= index <= max
        invariant targets == row[..if index < |row| then index else |row|]
      {
        assert Slot(slots[..], base, index) == slots[base + index];
        if slots[base + index] != None {
          targets := targets + [slots[base + index].value];
        }
        index := index + 1;
      }
    }
  }
}
