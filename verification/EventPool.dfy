/**
 Pools of reference-counted events. The free blocks of a pool are chained through the
 blocks themselves; a block in use carries an event header with a 16-bit count.
 */
module EventPool {
  import opened Config
  import opened Sequences

  const UINT16_MAX: nat := 0xFFFF

  /** Signals below this one are reserved for the framework. */
  const SIG_USER: nat := 32

  /** A block is on the free list, taken but not yet initialised, or holds an event. */
  datatype Block = Free(next: Option<nat>) | Raw | Live(count: nat, signal: nat)

  datatype Pool = Pool(blocks: seq<Block>, head: Option<nat>, freeCount: nat)

  // ---------------------------------------------------------------------------
  // The free list
  // ---------------------------------------------------------------------------

  /** Following the links from `head` visits exactly `free`. */
  ghost predicate Chain(blocks: seq<Block>, head: Option<nat>, free: seq<nat>)
    decreases |free|
  {
    if free == [] then head == None
    else
      && head == Some(free[0]) && free[0] < |blocks| && blocks[free[0]].Free?
      && Chain(blocks, blocks[free[0]].next, free[1..])
  }

  /** `free` is the pool's free list: every free block once, as many as counted. */
  ghost predicate FreeListIs(p: Pool, free: seq<nat>) {
    && Chain(p.blocks, p.head, free) && Distinct(free) && |free| == p.freeCount
    && forall b: nat :: b < |p.blocks| ==> (p.blocks[b].Free? <==> b in free)
  }

  /** Free and used blocks partition the pool and the free ones are linked and counted. */
  ghost predicate PoolOk(p: Pool) {
    exists free :: FreeListIs(p, free)
  }

  lemma {:induction false} ChainFrame(blocks: seq<Block>, blocks': seq<Block>, head: Option<nat>, free: seq<nat>)
    requires Chain(blocks, head, free) && |blocks'| == |blocks|
    requires forall b :: b in free && b < |blocks| ==> blocks'[b] == blocks[b]
    ensures Chain(blocks', head, free)
    decreases |free|
  {
    if free != [] {
      assert forall b :: b in free[1..] ==> b in free;
      ChainFrame(blocks, blocks', blocks[free[0]].next, free[1..]);
    }
  }

  lemma {:induction false} ChainBelow(blocks: seq<Block>, head: Option<nat>, free: seq<nat>)
    requires Chain(blocks, head, free)
    ensures forall b :: b in free ==> b < |blocks|
    decreases |free|
  {
    if free != [] {
      ChainBelow(blocks, blocks[free[0]].next, free[1..]);
      assert forall b :: b in free ==> b == free[0] || b in free[1..];
    }
  }

  // ---------------------------------------------------------------------------
  // Critical sections
  // ---------------------------------------------------------------------------

  /** Take the first free block. */
  function TakeBlock(p: Pool): (Pool, Option<nat>) {
    match p.head
    case None => (p, None)
    case Some(b) =>
      if b < |p.blocks| && p.blocks[b].Free? && p.freeCount > 0
      then (Pool(p.blocks[b := Raw], p.blocks[b].next, p.freeCount - 1), Some(b))
      else (p, None)
  }

  /** Write the header of a taken block: the taker holds the only reference. */
  function Initialise(p: Pool, b: nat, signal: nat): Pool
    requires b < |p.blocks|
  {
    p.(blocks := p.blocks[b := Live(1, signal)])
  }

  /** Events outside the pool are static: they are always valid and never counted. */
  predicate ValidEvent(p: Pool, e: nat) {
    e >= |p.blocks| || (p.blocks[e].Live? && p.blocks[e].count > 0)
  }

  function Retain(p: Pool, e: nat): (Pool, Status) {
    if !ValidEvent(p, e) then (p, InvalidArgument)
    else if e >= |p.blocks| then (p, Ok)
    else if p.blocks[e].count == UINT16_MAX then (p, Overflow)
    else (p.(blocks := p.blocks[e := p.blocks[e].(count := p.blocks[e].count + 1)]), Ok)
  }

  /** The last release puts the block at the head of the free list. */
  function Release(p: Pool, e: nat): (Pool, Status) {
    if !ValidEvent(p, e) then (p, InvalidArgument)
    else if e >= |p.blocks| then (p, Ok)
    else if p.blocks[e].count > 1 then (p.(blocks := p.blocks[e := p.blocks[e].(count := p.blocks[e].count - 1)]), Ok)
    else if p.freeCount >= |p.blocks| then (p.(blocks := p.blocks[e := p.blocks[e].(count := 0)]), Internal)
    else (Pool(p.blocks[e := Free(p.head)], Some(e), p.freeCount + 1), Ok)
  }

  // ---------------------------------------------------------------------------
  // What the critical sections keep
  // ---------------------------------------------------------------------------

  lemma TakeFree(p: Pool, free: seq<nat>)
    requires FreeListIs(p, free)
    ensures free == [] ==> TakeBlock(p) == (p, None)
    ensures free != [] ==>
      && TakeBlock(p).1 == Some(free[0]) && free[0] < |p.blocks| && p.blocks[free[0]].Free?
      && TakeBlock(p).0.blocks == p.blocks[free[0] := Raw]
      && FreeListIs(TakeBlock(p).0, free[1..])
  {
    if free != [] {
      var r := TakeBlock(p).0;
      ChainFrame(p.blocks, r.blocks, r.head, free[1..]);
      assert forall b :: b in free <==> b == free[0] || b in free[1..];
    }
  }

  lemma KeepFree(p: Pool, p': Pool, free: seq<nat>, b: nat)
    requires FreeListIs(p, free) && b < |p.blocks| && !p.blocks[b].Free? && p' == p.(blocks := p'.blocks)
    requires |p'.blocks| == |p.blocks| && p'.blocks == p.blocks[b := p'.blocks[b]] && !p'.blocks[b].Free?
    ensures FreeListIs(p', free)
  {
    ChainFrame(p.blocks, p'.blocks, p.head, free);
  }

  lemma GiveBack(p: Pool, free: seq<nat>, e: nat)
    requires FreeListIs(p, free) && e < |p.blocks| && p.blocks[e].Live?
    ensures p.freeCount < |p.blocks|
    ensures FreeListIs(Pool(p.blocks[e := Free(p.head)], Some(e), p.freeCount + 1), [e] + free)
  {
    var blocks := p.blocks[e := Free(p.head)];
    ChainFrame(p.blocks, blocks, p.head, free);
    assert ([e] + free)[1..] == free;
    DistinctCons(e, free);
    ChainBelow(blocks, Some(e), [e] + free);
    DistinctBounded([e] + free, |p.blocks|);
  }

  /** Taking a block succeeds exactly when one is free. */
  lemma TakeOk(p: Pool)
    requires PoolOk(p)
    ensures PoolOk(TakeBlock(p).0)
    ensures var (p', r) := TakeBlock(p);
      && (r.None? <==> p.freeCount == 0)
      && (r.None? <==> forall b: nat :: b < |p.blocks| ==> !p.blocks[b].Free?)
      && (r.None? ==> p' == p)
      && (r.Some? ==> r.value < |p.blocks| && p.blocks[r.value].Free? && p'.blocks == p.blocks[r.value := Raw])
  {
    var free :| FreeListIs(p, free);
    TakeFree(p, free);
    if free != [] {
      assert FreeListIs(TakeBlock(p).0, free[1..]);
      assert p.blocks[free[0]].Free?;
    }
  }

  lemma InitialiseOk(p: Pool, b: nat, signal: nat)
    requires PoolOk(p) && b < |p.blocks| && p.blocks[b] == Raw
    ensures PoolOk(Initialise(p, b, signal))
  {
    var free :| FreeListIs(p, free);
    KeepFree(p, Initialise(p, b, signal), free, b);
  }

  lemma RetainOk(p: Pool, e: nat)
    requires PoolOk(p)
    ensures PoolOk(Retain(p, e).0)
    ensures var (p', status) := Retain(p, e);
      && status == (if !ValidEvent(p, e) then InvalidArgument
                    else if e < |p.blocks| && p.blocks[e].count == UINT16_MAX then Overflow else Ok)
      && p' == (if status == Ok && e < |p.blocks|
                then p.(blocks := p.blocks[e := Live(p.blocks[e].count + 1, p.blocks[e].signal)]) else p)
  {
    var free :| FreeListIs(p, free);
    if Retain(p, e).0 != p {
      KeepFree(p, Retain(p, e).0, free, e);
    }
  }

  /** Releasing a valid event never fails, and frees its block exactly with the last reference. */
  lemma ReleaseOk(p: Pool, e: nat)
    requires PoolOk(p)
    ensures PoolOk(Release(p, e).0)
    ensures Release(p, e).1 == if ValidEvent(p, e) then Ok else InvalidArgument
    ensures !ValidEvent(p, e) || e >= |p.blocks| ==> Release(p, e).0 == p
    ensures ValidEvent(p, e) && e < |p.blocks| ==>
      var p' := Release(p, e).0;
      && |p'.blocks| == |p.blocks| && p'.blocks == p.blocks[e := p'.blocks[e]]
      && (if p.blocks[e].count == 1 then p'.blocks[e].Free?
          else p'.blocks[e] == Live(p.blocks[e].count - 1, p.blocks[e].signal))
  {
    var free :| FreeListIs(p, free);
    if ValidEvent(p, e) && e < |p.blocks| {
      if p.blocks[e].count > 1 {
        KeepFree(p, Release(p, e).0, free, e);
      } else {
        GiveBack(p, free, e);
      }
    }
  }

  // ---------------------------------------------------------------------------
  // The pool in memory
  // ---------------------------------------------------------------------------

  /** Blocks `i..n` in order. */
  function Upward(i: nat, n: nat): (r: seq<nat>)
    requires i <= n
    decreases n - i
    ensures |r| == n - i && Distinct(r) && (forall b :: b in r <==> i <= b < n) && (r != [] ==> r[0] == i)
  {
    if i == n then []
    else
      var s := Upward(i + 1, n);
      DistinctCons(i, s);
      [i] + s
  }

  lemma {:induction false} UpwardChain(blocks: seq<Block>, i: nat)
    requires i <= |blocks|
    requires forall b: nat :: b < |blocks| ==> blocks[b] == Free(if b + 1 < |blocks| then Some(b + 1) else None)
    ensures Chain(blocks, if i < |blocks| then Some(i) else None, Upward(i, |blocks|))
    decreases |blocks| - i
  {
    hide Upward, Chain;
    UpwardFirst(i, |blocks|);
    if i < |blocks| {
      UpwardChain(blocks, i + 1);
      ChainCons(blocks, i, Upward(i + 1, |blocks|));
    } else {
      ChainEmpty(blocks);
    }
  }

  lemma UpwardFirst(i: nat, n: nat)
    requires i <= n
    ensures Upward(i, n) == if i == n then [] else [i] + Upward(i + 1, n)
  {
  }

  lemma ChainEmpty(blocks: seq<Block>)
    ensures Chain(blocks, None, [])
  {
  }

  lemma ChainCons(blocks: seq<Block>, i: nat, rest: seq<nat>)
    requires i < |blocks| && blocks[i].Free? && Chain(blocks, blocks[i].next, rest)
    ensures Chain(blocks, Some(i), [i] + rest)
  {
    assert ([i] + rest)[1..] == rest;
  }

  class EventPool {
    var blocks: array<Block>
    var head: Option<nat>
    var freeCount: nat

    ghost function Model(): Pool
      reads this, blocks
    {
      Pool(blocks[..], head, freeCount)
    }

    /** Thread all blocks into the free list, in address order. */
    constructor (blockCount: nat)
      requires blockCount > 0
      ensures fresh(blocks) && blocks.Length == blockCount
      ensures FreeListIs(Model(), Upward(0, blockCount))
    {
      var storage := new Block[blockCount](_ => Raw);
      var index := 0;
      while index < blockCount
        invariant 0 <= index <= blockCount
        invariant forall b: nat :: b < index ==> storage[b] == Free(if b + 1 < blockCount then Some(b + 1) else None)
      {
        storage[index] := Free(if index + 1 < blockCount then Some(index + 1) else None);
        index := index + 1;
      }
      blocks := storage;
      head := Some(0);
      freeCount := blockCount;
      UpwardChain(storage[..], 0);
    }

    /** Allocate an event for a signal; `None` when the pool is exhausted. */
    method New(signal: nat) returns (e: Option<nat>)
      requires PoolOk(Model())
      modifies this, blocks
      ensures blocks == old(blocks) && PoolOk(Model())
      ensures signal == 0 ==> e == None
      ensures e == None ==> Model() == old(Model()) && (signal == 0 || old(Model()).freeCount == 0)
      ensures e.Some? ==>
        && e == TakeBlock(old(Model())).1 && e.value < blocks.Length && old(blocks[e.value].Free?)
        && Model() == Initialise(TakeBlock(old(Model())).0, e.value, signal) && blocks[e.value] == Live(1, signal)
    {
      TakeOk(Model());
      if signal == 0 {
        return None;
      }
      e := head;
      if e.Some? {
        var b := e.value;
        ghost var taken := TakeBlock(Model()).0;
        head := blocks[b].next;
        freeCount := freeCount - 1;
        InitialiseOk(taken, b, signal);
        blocks[b] := Live(1, signal);
        assert Model() == Initialise(taken, b, signal);
      }
    }

    method RetainEvent(e: nat) returns (status: Status)
      requires PoolOk(Model())
      modifies blocks
      ensures PoolOk(Model()) && (Model(), status) == Retain(old(Model()), e)
    {
      RetainOk(Model(), e);
      if e >= blocks.Length {
        return Ok;
      }
      if !blocks[e].Live? || blocks[e].count == 0 {
        return InvalidArgument;
      }
      if blocks[e].count == UINT16_MAX {
        return Overflow;
      }
      blocks[e] := blocks[e].(count := blocks[e].count + 1);
      status := Ok;
    }

    method ReleaseEvent(e: nat) returns (status: Status)
      requires PoolOk(Model())
      modifies this, blocks
      ensures blocks == old(blocks) && PoolOk(Model()) && (Model(), status) == Release(old(Model()), e)
      ensures old(ValidEvent(Model(), e)) <==> status == Ok
    {
      ReleaseOk(Model(), e);
      if e >= blocks.Length {
        return Ok;
      }
      if !blocks[e].Live? || blocks[e].count == 0 {
        return InvalidArgument;
      }
      ghost var was := blocks[..];
      blocks[e] := blocks[e].(count := blocks[e].count - 1);
      assert blocks[..] == was[e := blocks[e]];
      if blocks[e].count == 0 {
        if freeCount >= blocks.Length {
          return Internal;
        }
        blocks[e] := Free(head);
        head := Some(e);
        freeCount := freeCount + 1;
        assert blocks[..] == was[e := blocks[e]];
      }
      status := Ok;
    }
  }
}
