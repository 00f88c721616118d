/**
 The timeout list in memory: two sorted lists that change places when the counter turns
 over, the last tick seen and a count. Every operation is proved to be the one of
 `TimeoutModel`, which relates them to absolute deadlines.
 */
module TimeoutList {
  import opened Config
  import opened Sequences
  import opened TimeoutModel

  predicate HasNode(s: seq<Node>, id: nat) {
    exists i :: 0 <= i < |s| && s[i].id == id
  }

  predicate OneEach(s: seq<Node>) {
    forall i, j :: 0 <= i < j < |s| ==> s[i].id != s[j].id
  }

  predicate SortedByWake(s: seq<Node>) {
    forall i, j :: 0 <= i < j < |s| ==> s[i].wake <= s[j].wake
  }

  lemma {:induction false} InsertNodeAt(s: seq<Node>, n: Node, k: nat)
    requires k <= |s| && (forall i :: 0 <= i < k ==> s[i].wake <= n.wake) && (k < |s| ==> n.wake < s[k].wake)
    ensures InsertNode(s, n) == s[..k] + [n] + s[k..]
  {
    if k > 0 {
      InsertNodeAt(s[1..], n, k - 1);
      assert s[1..][..k - 1] == s[..k][1..];
      assert s[1..][k - 1..] == s[k..];
    }
  }

  lemma {:induction false} WithoutNodeSize(s: seq<Node>, id: nat)
    requires OneEach(s)
    ensures OneEach(WithoutNode(s, id))
    ensures |WithoutNode(s, id)| == if HasNode(s, id) then |s| - 1 else |s|
    ensures !HasNode(s, id) ==> WithoutNode(s, id) == s
  {
    hide HasNode;
    HasNodeSplit(s, id);
    if s != [] {
      WithoutNodeSize(s[1..], id);
      var r := WithoutNode(s[1..], id);
      forall i | 0 <= i < |r|
        ensures r[i].id != s[0].id
      {
        assert r[i] in s[1..];
      }
    }
  }

  lemma HasNodeSplit(s: seq<Node>, id: nat)
    ensures s == [] ==> !HasNode(s, id)
    ensures s != [] ==> (HasNode(s, id) <==> s[0].id == id || HasNode(s[1..], id))
    ensures s != [] && OneEach(s) && s[0].id == id ==> !HasNode(s[1..], id)
  {
    if s != [] {
      if HasNode(s[1..], id) {
        var i :| 0 <= i < |s[1..]| && s[1..][i].id == id;
        assert s[i + 1].id == id;
      }
      if HasNode(s, id) && s[0].id != id {
        var i :| 0 <= i < |s| && s[i].id == id;
        assert s[1..][i - 1].id == id;
      }
    }
  }

  /** Every node has an id of its own, across both lists. */
  predicate Unshared(current: seq<Node>, overflow: seq<Node>) {
    OneEach(current) && OneEach(overflow) && forall i, j :: 0 <= i < |current| && 0 <= j < |overflow| ==>
        current[i].id != overflow[j].id
  }

  class TimeoutList {
    var current: seq<Node>
    var overflow: seq<Node>
    var last: Word32
    var count: nat

    ghost function Model(): Dual
      reads this
    {
      Dual(current, overflow, last)
    }

    ghost predicate Valid()
      reads this
    {
      count == |current| + |overflow| && Unshared(current, overflow)
    }

    constructor (start: Word32)
      ensures Valid() && Model() == Dual([], [], start)
    {
      current, overflow, last, count := [], [], start, 0;
    }

    /** Whether a node is linked in either list. */
    predicate Linked(id: nat)
      reads this
    {
      HasNode(current, id) || HasNode(overflow, id)
    }

    /** Scan for the first node that wakes later and link the new node in front of it. */
    static method InsertSorted(s: seq<Node>, n: Node) returns (r: seq<Node>)
      ensures r == InsertNode(s, n)
    {
      var k := 0;
      while k < |s| && s[k].wake <= n.wake
        invariant 0 <= k <= |s| && forall i :: 0 <= i < k ==> s[i].wake <= n.wake
      {
        k := k + 1;
      }
      InsertNodeAt(s, n, k);
      r := s[..k] + [n] + s[k..];
    }

    method Insert(id: nat, delay: Word32) returns (status: Status)
      requires Valid()
      modifies this
      ensures Valid()
      ensures if delay == WAIT_FOREVER then status == InvalidArgument && unchanged(this)
              else if old(Linked(id)) then status == InvalidState && unchanged(this)
              else status == Ok && Model() == DualInsert(old(Model()), id, delay)
    {
      if delay == WAIT_FOREVER {
        return InvalidArgument;
      }
      if Linked(id) {
        return InvalidState;
      }
      var wake: Word32 := (last + delay) % TICK_RANGE;
      if wake < last {
        InsertUnshared(overflow, current, Node(id, wake));
        overflow := InsertSorted(overflow, Node(id, wake));
      } else {
        InsertUnshared(current, overflow, Node(id, wake));
        current := InsertSorted(current, Node(id, wake));
      }
      count := count + 1;
      status := Ok;
    }

    method Remove(id: nat) returns (status: Status)
      requires Valid()
      modifies this
      ensures Valid()
      ensures if !old(Linked(id)) then status == InvalidState && unchanged(this)
              else status == Ok && Model() == DualRemove(old(Model()), id)
    {
      if !Linked(id) {
        return InvalidState;
      }
      RemoveUnshared(current, overflow, id);
      if HasNode(current, id) {
        current := WithoutNode(current, id);
      } else {
        overflow := WithoutNode(overflow, id);
      }
      count := count - 1;
      status := Ok;
    }

    /** Move to counter value `now`, changing the lists over if it has wrapped, and take out the
        leading nodes that are due. */
    method Advance(now: Word32) returns (expired: seq<nat>)
      requires Valid()
      modifies this
      ensures Valid()
      ensures (Model(), expired) == DualAdvance(old(Model()), now)
    {
      if now < last {
        current, overflow := overflow, current;
      }
      last := now;
      expired := [];
      ghost var all := current;
      while current != [] && current[0].wake <= now
        invariant Valid() && last == now && overflow == Turned(old(Model()), now).overflow
        invariant Expired(all, now) == expired + Expired(current, now) && Unexpired(all, now) == Unexpired(current, now)
        decreases |current|
      {
        expired := expired + [current[0].id];
        current := current[1..];
        count := count - 1;
      }
      assert expired + [] == expired;
    }

    /** The order and the count that the kernel's validator inspects. */
    method Validate() returns (ok: bool)
      ensures ok <==> SortedByWake(current) && SortedByWake(overflow) && count == |current| + |overflow|
    {
      var a := OrderIsValid(current);
      var b := OrderIsValid(overflow);
      ok := a && b && count == |current| + |overflow|;
    }

    static method OrderIsValid(s: seq<Node>) returns (ok: bool)
      ensures ok <==> SortedByWake(s)
    {
      var i := 1;
      while i < |s|
        invariant 1 <= i && (i <= |s| ==> SortedByWake(s[..i])) && (i > |s| ==> s == [])
        decreases |s| - i
      {
        if s[i].wake < s[i - 1].wake {
          return false;
        }
        assert s[..i + 1] == s[..i] + [s[i]];
        i := i + 1;
      }
      assert s != [] ==> s[..i] == s;
      ok := true;
    }
  }

  lemma InsertUnshared(s: seq<Node>, other: seq<Node>, n: Node)
    requires OneEach(s) && !HasNode(s, n.id) && !HasNode(other, n.id)
    requires forall i, j :: 0 <= i < |s| && 0 <= j < |other| ==> s[i].id != other[j].id
    ensures OneEach(InsertNode(s, n)) && |InsertNode(s, n)| == |s| + 1
    ensures forall i, j :: 0 <= i < |InsertNode(s, n)| && 0 <= j < |other| ==> InsertNode(s, n)[i].id != other[j].id
  {
    InsertOneEach(s, n);
    forall i, j | 0 <= i < |InsertNode(s, n)| && 0 <= j < |other|
      ensures InsertNode(s, n)[i].id != other[j].id
    {
      var x := InsertNode(s, n)[i];
      assert x in InsertNode(s, n);
      assert x == n || x in s;
    }
  }

  lemma {:induction false} InsertOneEach(s: seq<Node>, n: Node)
    requires OneEach(s) && !HasNode(s, n.id)
    ensures OneEach(InsertNode(s, n)) && |InsertNode(s, n)| == |s| + 1
  {
    if s != [] && n.wake >= s[0].wake {
      var t := s[1..];
      assert !HasNode(t, n.id) by {
        forall i | 0 <= i < |t|
          ensures t[i].id != n.id
        {
          assert s[i + 1].id != n.id;
        }
      }
      InsertOneEach(t, n);
      var r := InsertNode(t, n);
      forall i | 0 <= i < |r|
        ensures r[i].id != s[0].id
      {
        assert r[i] in r;
        assert r[i] == n || r[i] in t;
      }
    }
  }

  lemma RemoveUnshared(current: seq<Node>, overflow: seq<Node>, id: nat)
    requires Unshared(current, overflow)
    ensures Unshared(WithoutNode(current, id), WithoutNode(overflow, id))
    ensures HasNode(current, id) ==>
      && !HasNode(overflow, id) && WithoutNode(overflow, id) == overflow
      && |WithoutNode(current, id)| == |current| - 1
    ensures !HasNode(current, id) ==> WithoutNode(current, id) == current
    ensures HasNode(overflow, id) ==> |WithoutNode(overflow, id)| == |overflow| - 1
  {
    WithoutNodeSize(current, id);
    WithoutNodeSize(overflow, id);
    var c, o := WithoutNode(current, id), WithoutNode(overflow, id);
    forall i, j | 0 <= i < |c| && 0 <= j < |o|
      ensures c[i].id != o[j].id
    {
      assert c[i] in current && o[j] in overflow;
    }
  }
}
