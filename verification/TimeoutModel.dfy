/**
 The timeout list on a wrapping 32-bit tick: two sorted lists, one for the current
 turn of the counter and one for the next. On values, and compared with a single list
 of absolute deadlines over unbounded time.
 */
module TimeoutModel {
  import opened Config
  import opened Sequences
  import opened KernelModel
  import opened KernelInvariant
  import opened Blocking
  import opened Waking

  datatype Node = Node(id: nat, wake: Word32)

  datatype Dual = Dual(current: seq<Node>, overflow: seq<Node>, last: Word32)

  // ---------------------------------------------------------------------------
  // Operations on the two lists
  // ---------------------------------------------------------------------------

  /** Stable insertion by wake tick. */
  function InsertNode(s: seq<Node>, n: Node): (r: seq<Node>)
    ensures forall x :: x in r <==> x in s || x == n
  {
    if s == [] then [n]
    else if n.wake < s[0].wake then [n] + s
    else [s[0]] + InsertNode(s[1..], n)
  }

  function WithoutNode(s: seq<Node>, id: nat): (r: seq<Node>)
    ensures forall x :: x in r <==> x in s && x.id != id
  {
    if s == [] then []
    else if s[0].id == id then WithoutNode(s[1..], id)
    else [s[0]] + WithoutNode(s[1..], id)
  }

  /** Leading nodes that are due at counter value `now`. */
  function Expired(s: seq<Node>, now: Word32): seq<nat> {
    if s == [] || s[0].wake > now then [] else [s[0].id] + Expired(s[1..], now)
  }

  function Unexpired(s: seq<Node>, now: Word32): (r: seq<Node>)
    ensures forall x :: x in r ==> x in s
  {
    if s == [] || s[0].wake > now then s else Unexpired(s[1..], now)
  }

  function WakeTick(last: Word32, delay: Word32): Word32 {
    (last + delay) % TICK_RANGE
  }

  function DualInsert(d: Dual, id: nat, delay: Word32): Dual {
    var n := Node(id, WakeTick(d.last, delay));
    if n.wake < d.last then d.(overflow := InsertNode(d.overflow, n)) else d.(current := InsertNode(d.current, n))
  }

  function DualRemove(d: Dual, id: nat): Dual {
    d.(current := WithoutNode(d.current, id), overflow := WithoutNode(d.overflow, id))
  }

  /** The list from which nodes expire when the counter moves to `now`. */
  function Turned(d: Dual, now: Word32): Dual {
    if now < d.last then Dual(d.overflow, d.current, now) else d.(last := now)
  }

  function DualAdvance(d: Dual, now: Word32): (Dual, seq<nat>) {
    var t := Turned(d, now);
    (t.(current := Unexpired(t.current, now)), Expired(t.current, now))
  }

  // ---------------------------------------------------------------------------
  // Absolute deadlines
  // ---------------------------------------------------------------------------

  /** The nodes of one list with deadlines counted from `base`. */
  function Lift(s: seq<Node>, base: nat): seq<Entry> {
    if s == [] then [] else [Entry(s[0].id, base + s[0].wake)] + Lift(s[1..], base)
  }

  /** The start of the counter's current turn at absolute time `now`. */
  function TurnStart(now: nat): nat {
    now - now % TICK_RANGE
  }

  function Absolute(d: Dual, now: nat): seq<Entry> {
    Lift(d.current, TurnStart(now)) + Lift(d.overflow, TurnStart(now) + TICK_RANGE)
  }

  /** At absolute time `now`, all nodes lie in the future and are sorted by deadline. */
  ghost predicate DualOk(d: Dual, now: nat) {
    && d.last == now % TICK_RANGE
    && (forall n :: n in d.current ==> n.wake > d.last)
    && (forall n :: n in d.overflow ==> n.wake < d.last)
    && SortedByDue(Absolute(d, now)) && DistinctIds(Absolute(d, now))
  }

  // ---------------------------------------------------------------------------
  // Facts about sorted lists
  // ---------------------------------------------------------------------------

  lemma {:induction false} LiftMembers(s: seq<Node>, base: nat, lo: nat, hi: nat)
    requires forall n :: n in s ==> lo <= n.wake <= hi
    ensures forall e :: e in Lift(s, base) ==> base + lo <= e.due <= base + hi
  {
    if s != [] {
      assert s[0] in s;
      LiftMembers(s[1..], base, lo, hi);
    }
  }

  lemma {:induction false} LiftMember(s: seq<Node>, base: nat, n: Node)
    requires n in s
    ensures Entry(n.id, base + n.wake) in Lift(s, base)
  {
    if n != s[0] {
      LiftMember(s[1..], base, n);
    }
  }

  lemma {:induction false} LiftInsert(s: seq<Node>, n: Node, base: nat)
    ensures Lift(InsertNode(s, n), base) == InsertByDue(Lift(s, base), Entry(n.id, base + n.wake))
  {
    if s != [] {
      if n.wake < s[0].wake {
        assert ([n] + s)[1..] == s;
      } else {
        var r := InsertNode(s[1..], n);
        assert ([s[0]] + r)[1..] == r;
        LiftInsert(s[1..], n, base);
        assert Lift(s, base)[1..] == Lift(s[1..], base);
      }
    }
  }

  lemma {:induction false} InsertLeft(a: seq<Entry>, c: seq<Entry>, e: Entry)
    requires forall x :: x in c ==> e.due < x.due
    ensures InsertByDue(a + c, e) == InsertByDue(a, e) + c
  {
    if a == [] {
      assert a + c == c;
      assert c != [] ==> c[0] in c;
    } else {
      assert (a + c)[1..] == a[1..] + c;
      if e.due >= a[0].due {
        InsertLeft(a[1..], c, e);
      } else {
        assert [e] + (a + c) == [e] + a + c;
      }
    }
  }

  lemma {:induction false} InsertRight(a: seq<Entry>, c: seq<Entry>, e: Entry)
    requires forall x :: x in a ==> x.due <= e.due
    ensures InsertByDue(a + c, e) == a + InsertByDue(c, e)
  {
    if a == [] {
      assert a + c == c;
      assert a + InsertByDue(c, e) == InsertByDue(c, e);
    } else {
      assert a[0] in a;
      assert (a + c)[1..] == a[1..] + c;
      InsertRight(a[1..], c, e);
      assert [a[0]] + (a[1..] + InsertByDue(c, e)) == a + InsertByDue(c, e);
    }
  }

  lemma LiftCons(n: Node, s: seq<Node>, base: nat)
    ensures Lift([n] + s, base) == [Entry(n.id, base + n.wake)] + Lift(s, base)
  {
    assert ([n] + s)[1..] == s;
  }

  lemma WithoutIdCons(e: Entry, s: seq<Entry>, id: nat)
    ensures WithoutId([e] + s, id) == (if e.id == id then [] else [e]) + WithoutId(s, id)
  {
    assert ([e] + s)[1..] == s;
    assert [] + WithoutId(s, id) == WithoutId(s, id);
  }

  lemma {:induction false} LiftWithout(s: seq<Node>, id: nat, base: nat)
    ensures Lift(WithoutNode(s, id), base) == WithoutId(Lift(s, base), id)
  {
    hide Lift, WithoutId;
    if s == [] {
      LiftNil(base);
    } else {
      var r := WithoutNode(s[1..], id);
      LiftWithout(s[1..], id, base);
      assert s == [s[0]] + s[1..];
      LiftCons(s[0], s[1..], base);
      LiftCons(s[0], r, base);
      WithoutIdCons(Entry(s[0].id, base + s[0].wake), Lift(s[1..], base), id);
    }
  }

  lemma LiftNil(base: nat)
    ensures Lift([], base) == [] && forall id :: WithoutId([], id) == []
  {
  }

  lemma {:induction false} WithoutIdConcat(a: seq<Entry>, c: seq<Entry>, id: nat)
    ensures WithoutId(a + c, id) == WithoutId(a, id) + WithoutId(c, id)
  {
    if a == [] {
      assert a + c == c;
    } else {
      assert (a + c)[1..] == a[1..] + c;
      WithoutIdConcat(a[1..], c, id);
    }
  }

  lemma {:induction false} LiftAdvance(s: seq<Node>, now: Word32, base: nat)
    ensures Lift(Unexpired(s, now), base) == NotDue(Lift(s, base), base + now)
    ensures Expired(s, now) == DueIds(Lift(s, base), base + now)
  {
    if s != [] && s[0].wake <= now {
      LiftAdvance(s[1..], now, base);
      assert Lift(s, base)[1..] == Lift(s[1..], base);
    }
  }

  lemma {:induction false} AdvanceConcat(a: seq<Entry>, c: seq<Entry>, now: nat)
    requires forall x :: x in c ==> x.due > now
    ensures NotDue(a + c, now) == NotDue(a, now) + c
    ensures DueIds(a + c, now) == DueIds(a, now)
  {
    if a == [] {
      assert a + c == c;
      assert c != [] ==> c[0] in c;
    } else {
      assert (a + c)[1..] == a[1..] + c;
      if a[0].due <= now {
        AdvanceConcat(a[1..], c, now);
      }
    }
  }

  // ---------------------------------------------------------------------------
  // Refinement
  // ---------------------------------------------------------------------------

  lemma TurnArithmetic(now: nat, delay: nat)
    requires delay < TICK_RANGE
    ensures now % TICK_RANGE + delay < TICK_RANGE ==>
      (now % TICK_RANGE + delay) % TICK_RANGE == now % TICK_RANGE + delay
    ensures now % TICK_RANGE + delay >= TICK_RANGE ==>
      (now % TICK_RANGE + delay) % TICK_RANGE == now % TICK_RANGE + delay - TICK_RANGE
  {
  }

  /** Where the deadlines of the two lists lie. */
  lemma AbsoluteParts(d: Dual, now: nat)
    requires DualOk(d, now)
    ensures forall e :: e in Lift(d.current, TurnStart(now)) ==> now < e.due < TurnStart(now) + TICK_RANGE
    ensures forall e :: e in Lift(d.overflow, TurnStart(now) + TICK_RANGE) ==>
      TurnStart(now) + TICK_RANGE <= e.due < now + TICK_RANGE
  {
    LiftMembers(d.current, TurnStart(now), d.last + 1, TICK_RANGE - 1);
    if d.last > 0 {
      LiftMembers(d.overflow, TurnStart(now) + TICK_RANGE, 0, d.last - 1);
    } else {
      FirstIsMember(d.overflow);
    }
  }

  lemma InsertPlaces(d: Dual, now: nat, id: nat, delay: Word32)
    requires DualOk(d, now) && 0 < delay < WAIT_FOREVER
    ensures var d' := DualInsert(d, id, delay);
      && d'.last == d.last
      && (forall n :: n in d'.current ==> n.wake > d.last)
      && (forall n :: n in d'.overflow ==> n.wake < d.last)
  {
    TurnArithmetic(now, delay);
  }

  lemma InsertAbsolute(d: Dual, now: nat, id: nat, delay: Word32)
    requires DualOk(d, now) && 0 < delay < WAIT_FOREVER
    ensures Absolute(DualInsert(d, id, delay), now) == InsertByDue(Absolute(d, now), Entry(id, now + delay))
  {
    hide InsertNode, InsertByDue, Lift;
    var b := TurnStart(now);
    var e := Entry(id, now + delay);
    var n := Node(id, WakeTick(d.last, delay));
    TurnArithmetic(now, delay);
    AbsoluteParts(d, now);
    if n.wake < d.last {
      LiftInsert(d.overflow, n, b + TICK_RANGE);
      InsertRight(Lift(d.current, b), Lift(d.overflow, b + TICK_RANGE), e);
    } else {
      LiftInsert(d.current, n, b);
      InsertLeft(Lift(d.current, b), Lift(d.overflow, b + TICK_RANGE), e);
    }
  }

  /** Inserting a node is inserting its absolute deadline. */
  lemma InsertRefines(d: Dual, now: nat, id: nat, delay: Word32)
    requires DualOk(d, now) && 0 < delay < WAIT_FOREVER
    ensures Absolute(DualInsert(d, id, delay), now) == InsertByDue(Absolute(d, now), Entry(id, now + delay))
    ensures (forall e :: e in Absolute(d, now) ==> e.id != id) ==> DualOk(DualInsert(d, id, delay), now)
  {
    hide DualInsert, Absolute, SortedByDue, DistinctIds, InsertByDue;
    InsertAbsolute(d, now, id, delay);
    InsertPlaces(d, now, id, delay);
    InsertDueSorted(Absolute(d, now), Entry(id, now + delay));
    if forall x :: x in Absolute(d, now) ==> x.id != id {
      InsertDueDistinct(Absolute(d, now), Entry(id, now + delay));
    }
  }

  /** Removing a node is removing its absolute deadline. */
  lemma RemoveRefines(d: Dual, now: nat, id: nat)
    requires DualOk(d, now)
    ensures Absolute(DualRemove(d, id), now) == WithoutId(Absolute(d, now), id)
    ensures DualOk(DualRemove(d, id), now)
  {
    hide SortedByDue, DistinctIds, WithoutId, WithoutNode, Lift;
    var b := TurnStart(now);
    LiftWithout(d.current, id, b);
    LiftWithout(d.overflow, id, b + TICK_RANGE);
    WithoutIdConcat(Lift(d.current, b), Lift(d.overflow, b + TICK_RANGE), id);
    WithoutIdSorted(Absolute(d, now), id);
    WithoutIdDistinct(Absolute(d, now), id);
  }

  /** The counter and the start of its turn, one tick later. */
  lemma TickArithmetic(now: nat)
    ensures now % TICK_RANGE == TICK_RANGE - 1 ==>
      (now + 1) % TICK_RANGE == 0 && TurnStart(now + 1) == TurnStart(now) + TICK_RANGE
    ensures now % TICK_RANGE != TICK_RANGE - 1 ==>
      (now + 1) % TICK_RANGE == now % TICK_RANGE + 1 && TurnStart(now + 1) == TurnStart(now)
  {
  }

  lemma TurnLists(d: Dual, w: Word32, b: nat, b': nat)
    requires if d.last == TICK_RANGE - 1 then w == 0 && b' == b + TICK_RANGE else w == d.last + 1 && b' == b
    requires forall n :: n in d.current ==> n.wake > d.last
    requires forall n :: n in d.overflow ==> n.wake < d.last
    ensures var t := Turned(d, w);
      && Lift(t.current, b') + Lift(t.overflow, b' + TICK_RANGE) ==
         Lift(d.current, b) + Lift(d.overflow, b + TICK_RANGE)
      && t.last == w
      && (forall n :: n in t.overflow ==> n.wake < w)
  {
    if d.last == TICK_RANGE - 1 {
      FirstIsMember(d.current);
      LiftNil(b);
      LiftNil(b' + TICK_RANGE);
    }
  }

  /** Turning the counter over moves no deadline. */
  lemma TurnRefines(d: Dual, now: nat)
    requires DualOk(d, now)
    ensures var t := Turned(d, (now + 1) % TICK_RANGE);
      && Absolute(t, now + 1) == Absolute(d, now)
      && t.last == (now + 1) % TICK_RANGE
      && (forall n :: n in t.overflow ==> n.wake < t.last)
  {
    hide Lift, SortedByDue, DistinctIds, Turned, TurnStart;
    TickArithmetic(now);
    TurnLists(d, (now + 1) % TICK_RANGE, TurnStart(now), TurnStart(now + 1));
  }

  lemma AdvanceAbsolute(d: Dual, now: nat)
    requires DualOk(d, now)
    ensures var (d', ids) := DualAdvance(d, (now + 1) % TICK_RANGE);
      && Absolute(d', now + 1) == NotDue(Absolute(d, now), now + 1)
      && ids == DueIds(Absolute(d, now), now + 1)
  {
    hide Lift, NotDue, DueIds, SortedByDue, DistinctIds, Turned, Unexpired, Expired;
    var w: Word32 := (now + 1) % TICK_RANGE;
    var t := Turned(d, w);
    var b := TurnStart(now + 1);
    TurnRefines(d, now);
    LiftAdvance(t.current, w, b);
    LiftMembers(t.overflow, b + TICK_RANGE, 0, TICK_RANGE);
    AdvanceConcat(Lift(t.current, b), Lift(t.overflow, b + TICK_RANGE), now + 1);
  }

  /** One tick expires exactly the nodes whose absolute deadline it is, in deadline order. */
  lemma AdvanceRefines(d: Dual, now: nat)
    requires DualOk(d, now)
    ensures var (d', ids) := DualAdvance(d, (now + 1) % TICK_RANGE);
      && Absolute(d', now + 1) == NotDue(Absolute(d, now), now + 1)
      && ids == DueIds(Absolute(d, now), now + 1)
      && DualOk(d', now + 1)
  {
    hide Lift, NotDue, DueIds, SortedByDue, DistinctIds, Turned, Unexpired, Expired;
    var (d', ids) := DualAdvance(d, (now + 1) % TICK_RANGE);
    AdvanceAbsolute(d, now);
    TurnRefines(d, now);
    DueSplit(Absolute(d, now), now + 1);
    forall n | n in d'.current
      ensures n.wake > d'.last
    {
      LiftMember(d'.current, TurnStart(now + 1), n);
      assert Entry(n.id, TurnStart(now + 1) + n.wake) in Absolute(d', now + 1);
    }
  }

  // ---------------------------------------------------------------------------
  // Runs
  // ---------------------------------------------------------------------------

  datatype Op = OpInsert(id: nat, delay: Word32) | OpRemove(id: nat) | OpTick

  /** One operation on the two lists; the third part is what expires. */
  function Perform(d: Dual, now: nat, op: Op): (Dual, nat, seq<nat>) {
    match op
    case OpInsert(id, delay) => (DualInsert(d, id, delay), now, [])
    case OpRemove(id) => (DualRemove(d, id), now, [])
    case OpTick =>
      var (d', ids) := DualAdvance(d, (now + 1) % TICK_RANGE);
      (d', now + 1, ids)
  }

  /** The same operation on a list of absolute deadlines. */
  function PerformAbsolute(s: seq<Entry>, now: nat, op: Op): (seq<Entry>, nat, seq<nat>) {
    match op
    case OpInsert(id, delay) => (InsertByDue(s, Entry(id, now + delay)), now, [])
    case OpRemove(id) => (WithoutId(s, id), now, [])
    case OpTick => (NotDue(s, now + 1), now + 1, DueIds(s, now + 1))
  }

  /** What callers respect: only unlinked nodes are inserted, with a real delay. */
  ghost predicate OpAllowed(s: seq<Entry>, op: Op) {
    op.OpInsert? ==> 0 < op.delay < WAIT_FOREVER && forall e :: e in s ==> e.id != op.id
  }

  lemma PerformRefines(d: Dual, now: nat, op: Op)
    requires DualOk(d, now) && OpAllowed(Absolute(d, now), op)
    ensures var (d', now', ids) := Perform(d, now, op);
      DualOk(d', now') && (Absolute(d', now'), now', ids) == PerformAbsolute(Absolute(d, now), now, op)
  {
    hide DualOk, Absolute, DualInsert, DualRemove, DualAdvance, InsertByDue, WithoutId, NotDue, DueIds;
    match op
    case OpInsert(id, delay) => InsertRefines(d, now, id, delay);
    case OpRemove(id) => RemoveRefines(d, now, id);
    case OpTick => AdvanceRefines(d, now);
  }

  /** Run a sequence of operations, collecting the expiries. */
  function PerformAll(d: Dual, now: nat, ops: seq<Op>): (Dual, nat, seq<seq<nat>>)
    decreases |ops|
  {
    if ops == [] then (d, now, [])
    else
      var (d1, now1, ids) := Perform(d, now, ops[0]);
      var (d2, now2, rest) := PerformAll(d1, now1, ops[1..]);
      (d2, now2, [ids] + rest)
  }

  function PerformAllAbsolute(s: seq<Entry>, now: nat, ops: seq<Op>): (seq<Entry>, nat, seq<seq<nat>>)
    decreases |ops|
  {
    if ops == [] then (s, now, [])
    else
      var (s1, now1, ids) := PerformAbsolute(s, now, ops[0]);
      var (s2, now2, rest) := PerformAllAbsolute(s1, now1, ops[1..]);
      (s2, now2, [ids] + rest)
  }

  ghost predicate RunAllowed(s: seq<Entry>, now: nat, ops: seq<Op>)
    decreases |ops|
  {
    ops != [] ==>
      && OpAllowed(s, ops[0])
      && RunAllowed(PerformAbsolute(s, now, ops[0]).0, PerformAbsolute(s, now, ops[0]).1, ops[1..])
  }

  /** Main result on time: over any run, and any number of turns of the counter, the two
      lists expire the same nodes in the same order as the list of absolute deadlines. */
  lemma {:induction false} RunRefines(d: Dual, now: nat, ops: seq<Op>)
    requires DualOk(d, now) && RunAllowed(Absolute(d, now), now, ops)
    ensures var (d', now', ids) := PerformAll(d, now, ops);
      DualOk(d', now') && (Absolute(d', now'), now', ids) == PerformAllAbsolute(Absolute(d, now), now, ops)
    decreases |ops|
  {
    hide DualOk, Absolute, Perform, PerformAbsolute, OpAllowed;
    if ops != [] {
      PerformRefines(d, now, ops[0]);
      var (d1, now1, ids) := Perform(d, now, ops[0]);
      RunRefines(d1, now1, ops[1..]);
    }
  }

  // ---------------------------------------------------------------------------
  // Exact expiry
  // ---------------------------------------------------------------------------

  function Ticks(ops: seq<Op>): nat {
    if ops == [] then 0 else (if ops[0].OpTick? then 1 else 0) + Ticks(ops[1..])
  }

  predicate LeavesAlone(ops: seq<Op>, id: nat) {
    forall i :: 0 <= i < |ops| ==> ops[i].OpTick? || ops[i].id != id
  }

  /** One operation on somebody else's node. */
  lemma KeepsEntry(s: seq<Entry>, now: nat, op: Op, e: Entry)
    requires SortedByDue(s) && DistinctIds(s) && e in s && now < e.due
    requires op.OpTick? || op.id != e.id
    ensures var (s', now', ids) := PerformAbsolute(s, now, op);
      if op.OpTick? && e.due == now + 1 then e.id in ids && e !in s'
      else e in s' && e.id !in ids && now' < e.due
  {
    match op
    case OpInsert(id, delay) =>
    case OpRemove(id) =>
    case OpTick => DueEntry(s, now + 1, e);
  }

  /** A node with deadline `due` that nobody removes stays linked for all ticks before `due`. */
  lemma {:induction false} NotBefore(d: Dual, now: nat, ops: seq<Op>, e: Entry)
    requires DualOk(d, now) && RunAllowed(Absolute(d, now), now, ops)
    requires e in Absolute(d, now) && now + Ticks(ops) < e.due && LeavesAlone(ops, e.id)
    ensures var (d', now', ids) := PerformAll(d, now, ops);
      && DualOk(d', now') && e in Absolute(d', now') && now' == now + Ticks(ops)
      && forall i :: 0 <= i < |ids| ==> e.id !in ids[i]
    decreases |ops|
  {
    hide Absolute, Perform, PerformAbsolute, OpAllowed, SortedByDue, DistinctIds;
    if ops != [] {
      PerformRefines(d, now, ops[0]);
      KeepsEntry(Absolute(d, now), now, ops[0], e);
      var (d1, now1, ids) := Perform(d, now, ops[0]);
      PerformTime(d, now, ops[0]);
      assert LeavesAlone(ops[1..], e.id);
      NotBefore(d1, now1, ops[1..], e);
    }
  }

  lemma PerformTime(d: Dual, now: nat, op: Op)
    ensures Perform(d, now, op).1 == now + if op.OpTick? then 1 else 0
  {
  }

  /** A node inserted at time `now` with delay `delay` and left alone expires at the tick
      `now + delay`: not during any run with fewer ticks, and at the next tick after
      `delay - 1` of them. */
  lemma ExpiresExactly(d: Dual, now: nat, id: nat, delay: Word32, ops: seq<Op>)
    requires DualOk(d, now) && OpAllowed(Absolute(d, now), OpInsert(id, delay))
    requires var d1 := DualInsert(d, id, delay);
      RunAllowed(Absolute(d1, now), now, ops) && LeavesAlone(ops, id) && Ticks(ops) == delay - 1
    ensures var d1 := DualInsert(d, id, delay);
      var (d2, now2, ids) := PerformAll(d1, now, ops);
      && (forall i :: 0 <= i < |ids| ==> id !in ids[i])
      && now2 + 1 == now + delay
      && id in DualAdvance(d2, (now2 + 1) % TICK_RANGE).1
  {
    hide Absolute, Perform, PerformAbsolute, DualInsert, DualAdvance, RunAllowed, PerformAll, InsertByDue, SortedByDue,
         DistinctIds;
    var e := Entry(id, now + delay);
    var d1 := DualInsert(d, id, delay);
    InsertRefines(d, now, id, delay);
    NotBefore(d1, now, ops, e);
    var (d2, now2, ids) := PerformAll(d1, now, ops);
    AdvanceRefines(d2, now2);
    DueEntry(Absolute(d2, now2), now2 + 1, e);
  }

  /** A zero delay, which the insertion accepts, is meant for the next tick. It is honoured
      there if and only if the counter does not turn over at that tick. */
  lemma ZeroDelayIff(d: Dual, now: nat, id: nat)
    requires DualOk(d, now) && forall n :: n in d.current ==> n.id != id
    requires forall n :: n in d.overflow ==> n.id != id
    ensures id in DualAdvance(DualInsert(d, id, 0), (now + 1) % TICK_RANGE).1 <==> now % TICK_RANGE != TICK_RANGE - 1
  {
    hide SortedByDue, DistinctIds, Absolute, TurnStart, DualAdvance, DualInsert;
    TickArithmetic(now);
    ZeroDelayLists(d, (now + 1) % TICK_RANGE, id);
  }

  lemma ZeroDelayLists(d: Dual, w: Word32, id: nat)
    requires if d.last == TICK_RANGE - 1 then w == 0 else w == d.last + 1
    requires forall n :: n in d.current ==> n.wake > d.last && n.id != id
    requires forall n :: n in d.overflow ==> n.id != id
    ensures id in DualAdvance(DualInsert(d, id, 0), w).1 <==> d.last != TICK_RANGE - 1
  {
    var n := Node(id, d.last);
    var s := InsertNode(d.current, n);
    FirstIsMember(d.current);
    if d.last == TICK_RANGE - 1 {
      ExpiredIds(d.overflow, 0);
    } else {
      assert s[0] == n;
    }
  }

  lemma {:induction false} ExpiredIds(s: seq<Node>, now: Word32)
    ensures forall id :: id in Expired(s, now) ==> exists n :: n in s && n.id == id
  {
    if s != [] && s[0].wake <= now {
      ExpiredIds(s[1..], now);
      assert s[0] in s;
    }
  }
}
