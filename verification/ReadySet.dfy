/**
 The ready set: one FIFO per priority, a bitmap of the non-empty ones and a count. `home` is
 what a node's list pointer says: the queue it is linked in, if any.
 */
module ReadySet {
  import opened Config
  import opened Sequences
  import opened KernelModel

  // ---------------------------------------------------------------------------
  // The bitmap
  // ---------------------------------------------------------------------------

  function Mask(p: nat): bv32
    requires p < PRIORITY_COUNT
  {
    (1 as bv32) << p
  }

  predicate Bit(b: bv32, p: nat)
    requires p < PRIORITY_COUNT
  {
    b & Mask(p) != 0
  }

  lemma SetBit(b: bv32, p: nat, q: nat)
    requires p < PRIORITY_COUNT && q < PRIORITY_COUNT
    ensures Bit(b | Mask(p), q) <==> q == p || Bit(b, q)
  {
  }

  lemma ClearBit(b: bv32, p: nat, q: nat)
    requires p < PRIORITY_COUNT && q < PRIORITY_COUNT
    ensures Bit(b & !Mask(p), q) <==> q != p && Bit(b, q)
  {
  }

  /** Only the bits of existing priorities are used. */
  predicate Narrow(b: bv32) {
    b & 0xFFFF_FF00 == 0
  }

  lemma NarrowKept(b: bv32, p: nat)
    requires Narrow(b) && p < PRIORITY_COUNT
    ensures Narrow(b | Mask(p)) && Narrow(b & !Mask(p))
  {
  }

  lemma Masks()
    ensures Mask(0) == 1 && Mask(1) == 2 && Mask(2) == 4 && Mask(3) == 8
    ensures Mask(4) == 16 && Mask(5) == 32 && Mask(6) == 64 && Mask(7) == 128
  {
  }

  lemma WordOfBits(a: bv32, b: bv32)
    requires Narrow(a) && Narrow(b)
    requires (a & 1 == b & 1) && (a & 2 == b & 2) && (a & 4 == b & 4) && (a & 8 == b & 8)
    requires (a & 16 == b & 16) && (a & 32 == b & 32) && (a & 64 == b & 64) && (a & 128 == b & 128)
    ensures a == b
  {
  }

  lemma SameBit(a: bv32, b: bv32, p: nat)
    requires p < PRIORITY_COUNT && Bit(a, p) == Bit(b, p)
    ensures a & Mask(p) == b & Mask(p)
  {
  }

  /** A bitmap is determined by its bits. */
  lemma SameBits(a: bv32, b: bv32)
    requires Narrow(a) && Narrow(b) && forall p: nat :: p < PRIORITY_COUNT ==> Bit(a, p) == Bit(b, p)
    ensures a == b
  {
    hide Mask, Bit, Narrow;
    Masks();
    forall p: nat | p < PRIORITY_COUNT
      ensures a & Mask(p) == b & Mask(p)
    {
      SameBit(a, b, p);
    }
    WordOfBits(a, b);
  }

  lemma NoBits()
    ensures Narrow(0) && forall p: nat :: p < PRIORITY_COUNT ==> !Bit(0, p)
  {
  }

  lemma BitSet(b: bv32, p: nat)
    requires p < PRIORITY_COUNT && Narrow(b)
    ensures Narrow(b | Mask(p)) && forall q: nat :: q < PRIORITY_COUNT ==>
      (Bit(b | Mask(p), q) <==> q == p || Bit(b, q))
  {
    hide Mask, Bit, Narrow;
    NarrowKept(b, p);
    forall q: nat | q < PRIORITY_COUNT
      ensures Bit(b | Mask(p), q) <==> q == p || Bit(b, q)
    {
      SetBit(b, p, q);
    }
  }

  lemma BitCleared(b: bv32, p: nat)
    requires p < PRIORITY_COUNT && Narrow(b)
    ensures Narrow(b & !Mask(p)) && forall q: nat :: q < PRIORITY_COUNT ==>
      (Bit(b & !Mask(p), q) <==> q != p && Bit(b, q))
  {
    hide Mask, Bit, Narrow;
    NarrowKept(b, p);
    forall q: nat | q < PRIORITY_COUNT
      ensures Bit(b & !Mask(p), q) <==> q != p && Bit(b, q)
    {
      ClearBit(b, p, q);
    }
  }

  // ---------------------------------------------------------------------------
  // Totals
  // ---------------------------------------------------------------------------

  function Total(queues: seq<seq<Tid>>): nat {
    if queues == [] then 0 else |queues[0]| + Total(queues[1..])
  }

  lemma {:induction false} TotalUpdate(queues: seq<seq<Tid>>, p: nat, q: seq<Tid>)
    requires p < |queues|
    ensures Total(queues[p := q]) == Total(queues) - |queues[p]| + |q|
  {
    if p == 0 {
      assert queues[p := q][1..] == queues[1..];
    } else {
      TotalUpdate(queues[1..], p - 1, q);
      assert queues[p := q][1..] == queues[1..][p - 1 := q];
    }
  }

  lemma {:induction false} TotalZero(queues: seq<seq<Tid>>)
    ensures Total(queues) == 0 <==> forall p: nat :: p < |queues| ==> queues[p] == []
  {
    if queues != [] {
      TotalZero(queues[1..]);
      assert forall p: nat :: p < |queues| - 1 ==> queues[1..][p] == queues[p + 1];
    }
  }

  /** The set's bitmap and count describe its queues. */
  ghost predicate Described(queues: seq<seq<Tid>>, bitmap: bv32, count: nat) {
    && |queues| == PRIORITY_COUNT && count == Total(queues) && Narrow(bitmap)
    && forall p: nat :: p < PRIORITY_COUNT ==> (Bit(bitmap, p) <==> queues[p] != [])
  }

  /** The first non-empty level at or after `p`, or the number of levels. */
  function Level(queues: seq<seq<Tid>>, p: nat): (r: nat)
    requires p <= |queues|
    ensures p <= r <= |queues| && (r < |queues| ==> queues[r] != [])
    ensures forall i: nat :: p <= i < r ==> queues[i] == []
    decreases |queues| - p
  {
    if p == |queues| || queues[p] != [] then p else Level(queues, p + 1)
  }

  lemma {:induction false} LevelIsBest(queues: seq<seq<Tid>>, p: nat)
    requires p <= |queues|
    ensures BestFrom(queues, p) == if Level(queues, p) < |queues| then Some(queues[Level(queues, p)][0]) else None
    decreases |queues| - p
  {
    if p < |queues| && queues[p] == [] {
      LevelIsBest(queues, p + 1);
    }
  }

  /** The queue with its first element moved to the end. */
  function RotatedOnce(q: seq<Tid>): seq<Tid> {
    if q == [] then q else q[1..] + [q[0]]
  }

  class ReadySet {
    var queues: seq<seq<Tid>>
    var bitmap: bv32
    var count: nat
    var home: map<Tid, nat>

    /** A task is in the queue its list pointer names, once, and in no other. */
    ghost predicate Linked()
      reads this
    {
      && |queues| == PRIORITY_COUNT
      && (forall p: nat :: p < PRIORITY_COUNT ==> Distinct(queues[p]))
      && (forall t: Tid :: t in home ==> home[t] < PRIORITY_COUNT)
      && (forall p: nat, t: Tid {:trigger t in queues[p]} :: p < PRIORITY_COUNT ==>
          (t in queues[p] <==> t in home && home[t] == p))
    }

    ghost predicate Valid()
      reads this
    {
      Described(queues, bitmap, count) && Linked()
    }

    constructor ()
      ensures Valid() && queues == seq(PRIORITY_COUNT, _ => []) && home == map[]
    {
      queues := seq(PRIORITY_COUNT, _ => []);
      bitmap, count, home := 0, 0, map[];
      new;
      NoBits();
      TotalZero(queues);
    }

    method Insert(t: Tid, priority: nat) returns (status: Status)
      requires Valid()
      modifies this
      ensures Valid()
      ensures if priority >= PRIORITY_COUNT then status == InvalidArgument && unchanged(this)
              else if t in old(home) then status == InvalidState && unchanged(this)
              else
                && status == Ok && queues == old(queues)[priority := old(queues)[priority] + [t]]
                && home == old(home)[t := priority]
    {
      hide Mask, Bit, Narrow, Total;
      if priority >= PRIORITY_COUNT {
        return InvalidArgument;
      }
      if t in home {
        return InvalidState;
      }
      TotalUpdate(queues, priority, queues[priority] + [t]);
      DistinctSnoc(queues[priority], t);
      BitSet(bitmap, priority);
      queues := queues[priority := queues[priority] + [t]];
      home := home[t := priority];
      bitmap := bitmap | Mask(priority);
      count := count + 1;
      status := Ok;
    }

    method Remove(t: Tid, priority: nat) returns (status: Status)
      requires Valid()
      modifies this
      ensures Valid()
      ensures if priority >= PRIORITY_COUNT then status == InvalidArgument && unchanged(this)
              else if t !in old(queues)[priority] then status == InvalidState && unchanged(this)
              else
                && status == Ok && queues == old(queues)[priority := Without(old(queues)[priority], t)]
                && home == old(home) - {t}
    {
      hide Mask, Bit, Narrow, Total;
      if priority >= PRIORITY_COUNT {
        return InvalidArgument;
      }
      if t !in home || home[t] != priority {
        return InvalidState;
      }
      assert t in queues[priority];
      WithoutDistinct(queues[priority], t);
      TotalUpdate(queues, priority, Without(queues[priority], t));
      BitCleared(bitmap, priority);
      queues := queues[priority := Without(queues[priority], t)];
      home := home - {t};
      count := count - 1;
      if queues[priority] == [] {
        bitmap := bitmap & !Mask(priority);
      }
      status := Ok;
    }

    /** Scan the bitmap for the most urgent non-empty queue. */
    method HighestPriority() returns (priority: nat)
      requires Valid()
      ensures priority == Level(queues, 0)
    {
      priority := 0;
      while priority < PRIORITY_COUNT
        invariant priority <= PRIORITY_COUNT && Level(queues, 0) == Level(queues, priority)
      {
        if Bit(bitmap, priority) {
          return;
        }
        priority := priority + 1;
      }
    }

    /** The oldest task of the most urgent non-empty queue. */
    method PeekHighest() returns (t: Option<Tid>)
      requires Valid()
      ensures t == BestFrom(queues, 0)
      ensures t.None? <==> count == 0
    {
      TotalZero(queues);
      LevelIsBest(queues, 0);
      if count == 0 {
        return None;
      }
      var priority := HighestPriority();
      if priority >= PRIORITY_COUNT {
        assert false;
        return None;
      }
      t := Some(queues[priority][0]);
    }

    /** Move the oldest task of the most urgent queue behind its peers. */
    method RotateHighest() returns (status: Status)
      requires Valid()
      modifies this
      ensures Valid() && home == old(home)
      ensures var p := Level(old(queues), 0);
        if p == |old(queues)| then status == InvalidState && queues == old(queues)
        else status == Ok && queues == old(queues)[p := RotatedOnce(old(queues)[p])]
    {
      hide Total, Bit, Narrow;
      TotalZero(queues);
      if count == 0 {
        return InvalidState;
      }
      var priority := HighestPriority();
      if priority >= PRIORITY_COUNT {
        assert false;
        return Internal;
      }
      var q := queues[priority];
      if |q| < 2 {
        assert RotatedOnce(q) == q;
        assert queues[priority := q] == queues;
        return Ok;
      }
      RotatedSame(q);
      TotalUpdate(queues, priority, RotatedOnce(q));
      queues := queues[priority := q[1..] + [q[0]]];
      status := Ok;
    }

    /** Only the task that heads the most urgent queue may yield. */
    method YieldCurrent(current: Tid) returns (status: Status)
      requires Valid()
      modifies this
      ensures Valid() && home == old(home)
      ensures BestFrom(old(queues), 0) != Some(current) ==> status == InvalidState && queues == old(queues)
      ensures BestFrom(old(queues), 0) == Some(current) ==>
        var p := Level(old(queues), 0);
        p < |old(queues)| && status == Ok && queues == old(queues)[p := RotatedOnce(old(queues)[p])]
    {
      LevelIsBest(queues, 0);
      var selected := PeekHighest();
      if selected != Some(current) {
        return InvalidState;
      }
      status := RotateHighest();
    }

    /** Whether a strictly more urgent task than one of the given priority is ready. */
    method ShouldPreempt(priority: nat) returns (yes: bool)
      requires Valid()
      ensures priority >= PRIORITY_COUNT ==> !yes
      ensures priority < PRIORITY_COUNT ==> (yes <==> exists p: nat :: p < priority && queues[p] != [])
    {
      if priority >= PRIORITY_COUNT {
        return false;
      }
      var best := HighestPriority();
      yes := best < priority;
    }

    method HasEqualPriorityPeer(t: Tid, priority: nat) returns (yes: bool)
      requires Valid()
      ensures yes <==> priority < PRIORITY_COUNT && t in queues[priority] && |queues[priority]| > 1
    {
      yes := priority < PRIORITY_COUNT && t in home && home[t] == priority && |queues[priority]| > 1;
    }

    /** Recompute count and bitmap from the queues and compare. */
    method Validate() returns (ok: bool)
      requires |queues| == PRIORITY_COUNT
      ensures ok <==> Described(queues, bitmap, count)
    {
      hide Mask, Bit, Narrow;
      NoBits();
      var index, total, expected := 0, 0, 0 as bv32;
      while index < PRIORITY_COUNT
        invariant index <= PRIORITY_COUNT && total + Total(queues[index..]) == Total(queues) && Narrow(expected)
        invariant forall p: nat :: p < PRIORITY_COUNT ==> (Bit(expected, p) <==> p < index && queues[p] != [])
      {
        assert queues[index..][1..] == queues[index + 1..];
        total := total + |queues[index]|;
        if queues[index] != [] {
          BitSet(expected, index);
          ghost var was := expected;
          expected := expected | Mask(index);
          forall p: nat | p < PRIORITY_COUNT
            ensures Bit(expected, p) <==> p == index || Bit(was, p)
          {
          }
        }
        index := index + 1;
      }
      if Described(queues, bitmap, count) {
        SameBits(expected, bitmap);
      }
      ok := total == count && expected == bitmap;
    }
  }

  lemma RotatedSame(q: seq<Tid>)
    requires Distinct(q) && q != []
    ensures Distinct(RotatedOnce(q)) && forall t :: t in RotatedOnce(q) <==> t in q
  {
    DistinctSnoc(q[1..], q[0]);
    assert forall t :: t in q <==> t == q[0] || t in q[1..];
  }
}
