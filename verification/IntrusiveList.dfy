/**
 The intrusive circular doubly linked list, on the heap. A list is a root node and a size; a
 linked node carries a pointer to its list, so it is in at most one. The ghost sequence
 `nodes` is what the links spell out.
 */
module IntrusiveList {
  import opened Config
  import opened Sequences

  class ListNode {
    var previous: ListNode?
    var next: ListNode?
    var list: List?
    /** The sort key of the enclosing record: a priority or a wake tick. */
    var key: nat
    const owner: nat

    constructor (id: nat)
      ensures previous == null && next == null && list == null && owner == id && key == 0
    {
      previous, next, list, key := null, null, null, 0;
      owner := id;
    }
  }

  /** Place `i` on the circle: the root at both ends, the nodes in between. */
  function Place(root: ListNode, nodes: seq<ListNode>, i: nat): ListNode
    requires i <= |nodes| + 1
  {
    if 1 <= i <= |nodes| then nodes[i - 1] else root
  }

  /** Places `i` and `i + 1` point to each other. */
  ghost predicate Linked(root: ListNode, nodes: seq<ListNode>, i: nat)
    requires i <= |nodes|
    reads root, nodes
  {
    && Place(root, nodes, i).next == Place(root, nodes, i + 1)
    && Place(root, nodes, i + 1).previous == Place(root, nodes, i)
  }

  /** The links form a circle through exactly `nodes`, all of which belong to `list`. */
  ghost predicate Circle(list: List, root: ListNode, nodes: seq<ListNode>)
    reads root, nodes
  {
    && root.list == list && root !in nodes && Distinct(nodes)
    && (forall i: nat :: i < |nodes| ==> nodes[i].list == list)
    && (forall i: nat :: i <= |nodes| ==> Linked(root, nodes, i))
  }

  /** The objects that make up a list. */
  ghost function Footprint(l: List?): set<object>
    reads l
  {
    if l == null then {} else {l, l.root} + set x | x in l.nodes
  }

  class List {
    const root: ListNode
    var size: nat
    ghost var nodes: seq<ListNode>

    ghost predicate Valid()
      reads this, root, nodes
    {
      size == |nodes| && Circle(this, root, nodes)
    }

    constructor ()
      ensures Valid() && nodes == [] && fresh(root)
    {
      var r := new ListNode(0);
      root := r;
      size, nodes := 0, [];
      new;
      root.previous := root;
      root.next := root;
      root.list := this;
    }

    /** Link `node` between places `k` and `k + 1`. A node that is already linked is refused. */
    method InsertBetween(previous: ListNode, next: ListNode, node: ListNode, ghost k: nat) returns (status: Status)
      requires Valid() && k <= |nodes| && previous == Place(root, nodes, k) && next == Place(root, nodes, k + 1)
      modifies this, node, root, nodes
      ensures Valid()
      ensures if old(node.list) != null then status == InvalidState && nodes == old(nodes)
              else status == Ok && nodes == old(nodes)[..k] + [node] + old(nodes)[k..]
      ensures forall x :: x in old(nodes) ==> x.key == old(x.key)
      ensures node.key == old(node.key)
    {
      if node.list != null {
        return InvalidState;
      }
      assert node != root && node !in nodes;
      node.previous := previous;
      node.next := next;
      node.list := this;
      previous.next := node;
      next.previous := node;
      size := size + 1;
      ghost var before := nodes;
      nodes := nodes[..k] + [node] + nodes[k..];
      InsertedDistinct(before, k, node);
      forall i: nat | i <= |nodes|
        ensures Linked(root, nodes, i)
      {
        if i < k {
          assert old(Linked(root, before, i));
        } else if i > k + 1 {
          assert old(Linked(root, before, i - 1));
        }
      }
      status := Ok;
    }

    method PushFront(node: ListNode) returns (status: Status)
      requires Valid()
      modifies this, node, root, nodes
      ensures Valid()
      ensures if old(node.list) != null then status == InvalidState && nodes == old(nodes)
              else status == Ok && nodes == [node] + old(nodes)
      ensures forall x :: x in old(nodes) ==> x.key == old(x.key)
      ensures node.key == old(node.key)
    {
      assert Linked(root, nodes, 0);
      assert nodes[..0] + [node] + nodes[0..] == [node] + nodes;
      status := InsertBetween(root, root.next, node, 0);
    }

    method PushBack(node: ListNode) returns (status: Status)
      requires Valid()
      modifies this, node, root, nodes
      ensures Valid()
      ensures if old(node.list) != null then status == InvalidState && nodes == old(nodes)
              else status == Ok && nodes == old(nodes) + [node]
      ensures forall x :: x in old(nodes) ==> x.key == old(x.key)
      ensures node.key == old(node.key)
    {
      assert Linked(root, nodes, |nodes|);
      assert nodes[..|nodes|] + [node] + nodes[|nodes|..] == nodes + [node];
      status := InsertBetween(root.previous, root, node, |nodes|);
    }

    /** Link `node` in front of `position`, the `k`-th node or the root. A position in another list,
        or in none, is refused. */
    method InsertBefore(position: ListNode, node: ListNode, ghost k: nat) returns (status: Status)
      requires Valid() && (position.list == this ==> k <= |nodes| && Place(root, nodes, k + 1) == position)
      modifies this, node, root, nodes
      ensures Valid()
      ensures if old(position.list) != this || old(node.list) != null then status == InvalidState && nodes == old(nodes)
              else status == Ok && k <= |old(nodes)| && nodes == old(nodes)[..k] + [node] + old(nodes)[k..]
      ensures forall x :: x in old(nodes) ==> x.key == old(x.key)
      ensures node.key == old(node.key)
    {
      if position.list != this {
        return InvalidState;
      }
      assert Linked(root, nodes, k);
      status := InsertBetween(position.previous, position, node, k);
    }

    /** Unlink the `k`-th node. */
    method Remove(node: ListNode, ghost k: nat) returns (status: Status)
      requires Valid() && k < |nodes| && nodes[k] == node
      modifies this, root, nodes
      ensures Valid() && status == Ok
      ensures nodes == old(nodes)[..k] + old(nodes)[k + 1..]
      ensures node.list == null && node.previous == null && node.next == null
      ensures forall x :: x in old(nodes) ==> x.key == old(x.key)
    {
      assert Linked(root, nodes, k) && Linked(root, nodes, k + 1);
      ghost var before := nodes;
      node.previous.next := node.next;
      node.next.previous := node.previous;
      size := size - 1;
      node.previous := null;
      node.next := null;
      node.list := null;
      nodes := nodes[..k] + nodes[k + 1..];
      forall i: nat | i <= |nodes|
        ensures Linked(root, nodes, i)
      {
        if i < k {
          assert old(Linked(root, before, i));
        } else if i > k {
          assert old(Linked(root, before, i + 1));
        }
      }
      status := Ok;
    }

    /** Unlink a node from whatever list it is in; an unlinked node and a root are refused. */
    static method Unlink(node: ListNode, ghost k: nat) returns (status: Status)
      requires node.list != null ==>
        node.list.Valid() && (node == node.list.root || (k < |node.list.nodes| && node.list.nodes[k] == node))
      modifies Footprint(node.list)
      ensures var l := old(node.list);
        if l == null then status == InvalidState
        else
          && l.Valid()
          && if node == l.root then status == InvalidState && l.nodes == old(l.nodes)
             else status == Ok && l.nodes == old(l.nodes)[..k] + old(l.nodes)[k + 1..] && node.list == null
    {
      var l := node.list;
      if l == null || node == l.root || l.size == 0 {
        return InvalidState;
      }
      status := l.Remove(node, k);
    }

    /** The first node, or nothing. */
    method Front() returns (node: ListNode?)
      requires Valid()
      ensures node == if nodes == [] then null else nodes[0]
    {
      assert Linked(root, nodes, 0);
      node := if size == 0 then null else root.next;
    }

    method Back() returns (node: ListNode?)
      requires Valid()
      ensures node == if nodes == [] then null else nodes[|nodes| - 1]
    {
      assert Linked(root, nodes, |nodes|);
      node := if size == 0 then null else root.previous;
    }

    /** The node behind the `k`-th one, or nothing. */
    method Next(node: ListNode, ghost k: nat) returns (next: ListNode?)
      requires Valid() && (node.list == this ==> k < |nodes| && nodes[k] == node)
      ensures next == if node.list == this && k + 1 < |nodes| then nodes[k + 1] else null
    {
      if node.list != this {
        return null;
      }
      assert Linked(root, nodes, k + 1);
      next := if node.next == root then null else node.next;
    }

    method PopFront() returns (node: ListNode?)
      requires Valid()
      modifies this, root, nodes
      ensures Valid()
      ensures old(nodes) == [] ==> node == null && nodes == []
      ensures old(nodes) != [] ==> node == old(nodes)[0] && nodes == old(nodes)[1..] && node.list == null
      ensures forall x :: x in old(nodes) ==> x.key == old(x.key)
    {
      node := Front();
      if node != null {
        var _ := Remove(node, 0);
        assert old(nodes)[..0] + old(nodes)[1..] == old(nodes)[1..];
      }
    }

    method PopBack() returns (node: ListNode?)
      requires Valid()
      modifies this, root, nodes
      ensures Valid()
      ensures old(nodes) == [] ==> node == null && nodes == []
      ensures old(nodes) != [] ==>
        node == old(nodes)[|old(nodes)| - 1] && nodes == old(nodes)[..|old(nodes)| - 1] && node.list == null
      ensures forall x :: x in old(nodes) ==> x.key == old(x.key)
    {
      node := Back();
      if node != null {
        ghost var n := |nodes|;
        var _ := Remove(node, n - 1);
        assert old(nodes)[..n - 1] + old(nodes)[n..] == old(nodes)[..n - 1];
      }
    }

    /** Link `node` behind every node whose key is not larger: the wait lists' order by priority
        and the timeout lists' order by wake tick. */
    method InsertSorted(node: ListNode) returns (status: Status, ghost k: nat)
      requires Valid()
      modifies this, node, root, nodes
      ensures Valid()
      ensures if old(node.list) != null then status == InvalidState && nodes == old(nodes)
              else status == Ok && k <= |old(nodes)| && nodes == old(nodes)[..k] + [node] + old(nodes)[k..]
      ensures old(node.list) == null ==>
        && (forall i: nat :: i < k && i < |old(nodes)| ==> old(nodes[i].key) <= node.key)
        && (k < |old(nodes)| ==> node.key < old(nodes)[k].key)
      ensures forall x :: x in old(nodes) ==> x.key == old(x.key)
      ensures node.key == old(node.key)
    {
      k := 0;
      if node.list != null {
        return InvalidState, 0;
      }
      var position := Front();
      while position != null
        invariant k <= |nodes| && position == if k < |nodes| then nodes[k] else null
        invariant forall i: nat :: i < k ==> nodes[i].key <= node.key
        invariant Valid() && unchanged(this) && unchanged(node) && unchanged(root) && unchanged(nodes)
        decreases |nodes| - k
      {
        if node.key < position.key {
          status := InsertBefore(position, node, k);
          return;
        }
        position := Next(position, k);
        k := k + 1;
      }
      status := PushBack(node);
      assert old(nodes)[..k] + [node] + old(nodes)[k..] == old(nodes) + [node];
    }

    /** Follow the links once around. The walk is bounded by the size, so it ends whatever the links
        look like, and it accepts exactly the well-formed circles of that size. */
    method Validate() returns (ok: bool)
      ensures ok <==> exists s: seq<ListNode> :: |s| == size && Circle(this, root, s)
    {
      if root.list != this || root.next == null || root.previous == null {
        NotACircle(this, root);
        return false;
      }
      var previous: ListNode := root;
      var node := root.next;
      var count := 0;
      ghost var seen: seq<ListNode> := [];
      while node != root
        invariant count == |seen| <= size && previous == Place(root, seen, count)
        invariant Walked(this, root, seen) && node == previous.next && root.previous != null
        invariant forall s: seq<ListNode> :: |s| == size && Circle(this, root, s) ==> seen <= s
        decreases size - count
      {
        if node == null || node.list != this || node.previous != previous || node.next == null {
          WalkFails(this, root, seen, size, node);
          return false;
        }
        WalkStep(this, root, seen, node);
        WalkForced(this, root, seen, size, node);
        seen := seen + [node];
        previous := node;
        node := node.next;
        count := count + 1;
        if count > size {
          return false;
        }
      }
      WalkEnds(this, root, seen, size);
      ok := count == size && root.previous == previous && previous.next == root;
    }
  }

  // ---------------------------------------------------------------------------
  // Walking an unknown shape
  // ---------------------------------------------------------------------------

  /** The nodes seen so far are distinct, belong to the list and are linked up to the last one. */
  ghost predicate Walked(list: List, root: ListNode, seen: seq<ListNode>)
    reads root, seen
  {
    && root.list == list && root !in seen && Distinct(seen)
    && (forall i: nat :: i < |seen| ==> seen[i].list == list)
    && (forall i: nat :: i < |seen| ==> Linked(root, seen, i))
  }

  lemma CircleRoot(list: List, root: ListNode, s: seq<ListNode>)
    requires Circle(list, root, s)
    ensures root.list == list && root.next != null && root.previous != null
    ensures forall i: nat :: i < |s| ==> s[i] != root
  {
    assert Linked(root, s, 0) && Linked(root, s, |s|);
  }

  lemma NotACircle(list: List, root: ListNode)
    requires root.list != list || root.next == null || root.previous == null
    ensures forall s: seq<ListNode> :: !Circle(list, root, s)
  {
    forall s: seq<ListNode>
      ensures !Circle(list, root, s)
    {
      if Circle(list, root, s) {
        CircleRoot(list, root, s);
      }
    }
  }

  /** Every circle goes on with the node that the last one seen points to. */
  lemma CircleGoesOn(list: List, root: ListNode, seen: seq<ListNode>, s: seq<ListNode>)
    requires Circle(list, root, s) && seen <= s && Place(root, seen, |seen|).next != root
    ensures |seen| < |s| && s[|seen|] == Place(root, seen, |seen|).next
    ensures s[|seen|].list == list && s[|seen|].previous == Place(root, seen, |seen|) && s[|seen|].next != null
  {
    var n := |seen|;
    assert Linked(root, s, n);
    assert Place(root, s, n) == Place(root, seen, n);
    assert Linked(root, s, n + 1);
  }

  lemma WalkFails(list: List, root: ListNode, seen: seq<ListNode>, size: nat, node: ListNode?)
    requires node == Place(root, seen, |seen|).next && node != root
    requires node == null || node.list != list || node.previous != Place(root, seen, |seen|) || node.next == null
    requires forall s: seq<ListNode> :: |s| == size && Circle(list, root, s) ==> seen <= s
    ensures forall s: seq<ListNode> :: |s| == size ==> !Circle(list, root, s)
  {
    forall s: seq<ListNode> | |s| == size
      ensures !Circle(list, root, s)
    {
      if Circle(list, root, s) {
        CircleGoesOn(list, root, seen, s);
      }
    }
  }

  lemma WalkForced(list: List, root: ListNode, seen: seq<ListNode>, size: nat, node: ListNode)
    requires node == Place(root, seen, |seen|).next && node != root
    requires forall s: seq<ListNode> :: |s| == size && Circle(list, root, s) ==> seen <= s
    ensures forall s: seq<ListNode> :: |s| == size && Circle(list, root, s) ==> seen + [node] <= s
  {
    forall s: seq<ListNode> | |s| == size && Circle(list, root, s)
      ensures seen + [node] <= s
    {
      CircleGoesOn(list, root, seen, s);
    }
  }

  /** A node reached by following matching links in both directions has not been seen before. */
  lemma WalkStep(list: List, root: ListNode, seen: seq<ListNode>, node: ListNode)
    requires Walked(list, root, seen) && node != root && node.list == list
    requires node == Place(root, seen, |seen|).next && node.previous == Place(root, seen, |seen|)
    ensures Walked(list, root, seen + [node])
  {
    var n := |seen|;
    forall i: nat | i < n
      ensures seen[i] != node
    {
      assert Linked(root, seen, i);
    }
    forall i: nat | i < n + 1
      ensures Linked(root, seen + [node], i)
    {
      if i < n {
        assert Linked(root, seen, i);
      }
    }
  }

  lemma WalkEnds(list: List, root: ListNode, seen: seq<ListNode>, size: nat)
    requires Walked(list, root, seen) && Place(root, seen, |seen|).next == root
    requires forall s: seq<ListNode> :: |s| == size && Circle(list, root, s) ==> seen <= s
    ensures (exists s: seq<ListNode> :: |s| == size && Circle(list, root, s)) <==>
      |seen| == size && root.previous == Place(root, seen, |seen|)
  {
    var n := |seen|;
    if n == size && root.previous == Place(root, seen, n) {
      forall i: nat | i <= n
        ensures Linked(root, seen, i)
      {
      }
      assert Circle(list, root, seen);
    }
    forall s: seq<ListNode> | |s| == size && Circle(list, root, s)
      ensures s == seen && root.previous == Place(root, seen, n)
    {
      CircleRoot(list, root, s);
      assert Linked(root, s, n);
      assert Place(root, s, n) == Place(root, seen, n);
    }
  }

  lemma InsertedDistinct(s: seq<ListNode>, k: nat, x: ListNode)
    requires Distinct(s) && x !in s && k <= |s|
    ensures Distinct(s[..k] + [x] + s[k..])
  {
  }
}
