/**
 The heap in memory: block headers linked in both directions through their addresses. Every
 operation is proved to do to the headers what `HeapModel` says about the layout.
 */
module HeapLab {
  import opened Config
  import opened Arithmetic
  import opened HeapModel

  datatype Header = Header(payload: nat, requested: nat, previous: Option<nat>, next: Option<nat>, magic: bool,
      free: bool)

  /** The headers found in the arena, by address. */
  type Memory = map<nat, Header>

  datatype FreeStatus = Freed | InvalidPointer | DoubleFree

  function HeaderOf(g: Geometry, l: Layout, i: nat): Header
    requires i < |l|
  {
    Header(l[i].payload, l[i].requested,
           if i == 0 then None else Some(Addr(g, l, i - 1)),
           if i + 1 < |l| then Some(Addr(g, l, i + 1)) else None,
           true, l[i].free)
  }

  ghost predicate HoldsAt(mem: Memory, g: Geometry, l: Layout, i: nat)
    requires i < |l|
  {
    Addr(g, l, i) in mem && mem[Addr(g, l, i)] == HeaderOf(g, l, i)
  }

  /** Memory holds the headers of the layout. */
  ghost predicate Holds(mem: Memory, g: Geometry, l: Layout) {
    g.header > 0 && forall i: nat :: i < |l| ==> HoldsAt(mem, g, l, i)
  }

  lemma AddrsDiffer(g: Geometry, l: Layout, i: nat, j: nat)
    requires g.header > 0 && i <= |l| && j <= |l| && i != j
    ensures Addr(g, l, i) != Addr(g, l, j)
  {
    if i < j {
      AddrMonotone(g, l, i, j);
    } else {
      AddrMonotone(g, l, j, i);
    }
  }

  /** Changing one block's contents, not its size. */
  lemma HoldsChanged(mem: Memory, g: Geometry, l: Layout, i: nat, b: Block)
    requires Holds(mem, g, l) && i < |l| && b.payload == l[i].payload
    ensures Holds(mem[Addr(g, l, i) := HeaderOf(g, l[i := b], i)], g, l[i := b])
    ensures HeaderOf(g, l[i := b], i) == HeaderOf(g, l, i).(requested := b.requested, free := b.free)
  {
    hide Span;
    var l' := l[i := b];
    var mem' := mem[Addr(g, l, i) := HeaderOf(g, l', i)];
    forall j: nat | j <= |l|
      ensures Addr(g, l', j) == Addr(g, l, j)
    {
      SameSizes(g, l, l', j);
    }
    forall j: nat | j < |l|
      ensures HoldsAt(mem', g, l', j)
    {
      assert HoldsAt(mem, g, l, j);
      if j != i {
        AddrsDiffer(g, l, i, j);
      }
    }
  }

  lemma {:induction false} SameSizes(g: Geometry, l: Layout, l': Layout, j: nat)
    requires j <= |l| == |l'| && forall i: nat :: i < j ==> l'[i].payload == l[i].payload
    ensures Addr(g, l', j) == Addr(g, l, j)
    decreases j
  {
    if j > 0 {
      SameSizes(g, l, l', j - 1);
      AddrNext(g, l, j - 1);
      AddrNext(g, l', j - 1);
    }
  }

  // ---------------------------------------------------------------------------
  // Splitting and merging
  // ---------------------------------------------------------------------------

  /** The layout in which blocks `a` and `b` stand in the place of block `c` of the same extent. */
  ghost predicate SplitsInto(g: Geometry, l: Layout, l': Layout, i: nat, a: Block, b: Block) {
    && i < |l| && |l'| == |l| + 1 && l[i].payload == a.payload + g.header + b.payload
    && l' == l[..i] + [a, b] + l[i + 1..]
  }

  lemma {:induction false} SplitAddrs(g: Geometry, l: Layout, l': Layout, i: nat, a: Block, b: Block, j: nat)
    requires SplitsInto(g, l, l', i, a, b) && j <= |l|
    ensures j <= i ==> Addr(g, l', j) == Addr(g, l, j)
    ensures j == i ==> Addr(g, l', j + 1) == Addr(g, l, i) + g.header + a.payload
    ensures j > i ==> Addr(g, l', j + 1) == Addr(g, l, j)
    decreases j
  {
    hide Span, Addr;
    if j == 0 {
      AddrNext(g, l', 0);
      AddrNext(g, l, 0);
    } else {
      SplitAddrs(g, l, l', i, a, b, j - 1);
      AddrNext(g, l, j - 1);
      if j <= i {
        assert l'[j - 1] == l[j - 1];
        AddrNext(g, l', j - 1);
        AddrNext(g, l', j);
      } else {
        assert j - 1 > i ==> l'[j] == l[j - 1];
        AddrNext(g, l', j);
      }
    }
  }

  /** What memory must look like after a split. */
  ghost predicate SplitIn(mem: Memory, mem': Memory, g: Geometry, l: Layout, i: nat, a: Block, b: Block)
    requires i < |l|
  {
    var at := Addr(g, l, i);
    var mid := at + g.header + a.payload;
    && at in mem && mid in mem' && at in mem'
    && mem'[at] == Header(a.payload, a.requested, mem[at].previous, Some(mid), true, a.free)
    && mem'[mid] == Header(b.payload, b.requested, Some(at), mem[at].next, true, b.free)
    && (i + 1 < |l| ==>
          var next := Addr(g, l, i + 1);
          next in mem && next in mem' && mem'[next] == mem[next].(previous := Some(mid)))
    && (forall x :: x in mem && x != at && x != mid && (i + 1 < |l| ==> x != Addr(g, l, i + 1)) ==>
          x in mem' && mem'[x] == mem[x])
  }

  lemma SplitHolds(mem: Memory, mem': Memory, g: Geometry, l: Layout, l': Layout, i: nat, a: Block, b: Block)
    requires Holds(mem, g, l) && SplitsInto(g, l, l', i, a, b) && SplitIn(mem, mem', g, l, i, a, b)
    ensures Holds(mem', g, l')
  {
    hide Holds, HoldsAt, SplitIn;
    HoldsHeader(mem, g, l);
    forall j: nat | j < |l'|
      ensures HoldsAt(mem', g, l', j)
    {
      SplitHoldsAt(mem, mem', g, l, l', i, a, b, j);
    }
    HoldsIntro(mem', g, l');
  }

  lemma HoldsHeader(mem: Memory, g: Geometry, l: Layout)
    requires Holds(mem, g, l)
    ensures g.header > 0
  {
  }

  lemma HoldsIntro(mem: Memory, g: Geometry, l: Layout)
    requires g.header > 0 && forall i: nat :: i < |l| ==> HoldsAt(mem, g, l, i)
    ensures Holds(mem, g, l)
  {
  }

  lemma SplitHoldsAt(mem: Memory, mem': Memory, g: Geometry, l: Layout, l': Layout, i: nat, a: Block, b: Block, j: nat)
    requires Holds(mem, g, l) && SplitsInto(g, l, l', i, a, b) && SplitIn(mem, mem', g, l, i, a, b) && j < |l'|
    ensures HoldsAt(mem', g, l', j)
  {
    hide Span, Addr;
    assert HoldsAt(mem, g, l, i);
    SplitAddrs(g, l, l', i, a, b, i);
    SplitAddrs(g, l, l', i, a, b, i + 1);
    AddrNext(g, l, i);
    if j == i {
      assert l'[i] == a;
      SplitAddrs(g, l, l', i, a, b, if i > 0 then i - 1 else 0);
    } else if j == i + 1 {
      assert l'[i + 1] == b;
    } else {
      var k := if j < i then j else j - 1;
      assert l'[j] == l[k];
      assert HoldsAt(mem, g, l, k);
      SplitAddrs(g, l, l', i, a, b, k);
      SplitAddrs(g, l, l', i, a, b, k + 1);
      SplitAddrs(g, l, l', i, a, b, if k > 0 then k - 1 else 0);
      AddrsDiffer(g, l, i, k);
      MidIsNew(g, l, i, k, a.payload);
      if k != i + 1 && i + 1 < |l| {
        AddrsDiffer(g, l, i + 1, k);
      }
    }
  }

  /** No block starts inside another one. */
  lemma MidIsNew(g: Geometry, l: Layout, i: nat, k: nat, p: nat)
    requires i < |l| && k < |l| && g.header > 0 && p + g.header <= l[i].payload
    ensures Addr(g, l, k) != Addr(g, l, i) + g.header + p
  {
    hide Span, Addr;
    if k < i {
      AddrMonotone(g, l, k, i);
    } else if i < k {
      AddrMonotone(g, l, i, k);
    }
  }

  /** What memory must look like after block `i` has absorbed block `i + 1`; the header of the
      absorbed block is erased. */
  ghost predicate MergeIn(mem: Memory, mem': Memory, g: Geometry, l: Layout, i: nat)
    requires i + 1 < |l|
  {
    var at, mid := Addr(g, l, i), Addr(g, l, i + 1);
    && at in mem && mid in mem && at in mem'
    && mem'[at] == mem[at].(payload := l[i].payload + g.header + l[i + 1].payload, next := mem[mid].next)
    && (i + 2 < |l| ==>
          var next := Addr(g, l, i + 2);
          next in mem && next in mem' && mem'[next] == mem[next].(previous := Some(at)))
    && (forall x :: x in mem && x != at && x != mid && (i + 2 < |l| ==> x != Addr(g, l, i + 2)) ==>
          x in mem' && mem'[x] == mem[x])
  }

  lemma MergeHolds(mem: Memory, mem': Memory, g: Geometry, l: Layout, i: nat)
    requires Holds(mem, g, l) && i + 1 < |l| && l[i + 1].free && MergeIn(mem, mem', g, l, i)
    ensures Holds(mem', g, MergeNext(g, l, i))
  {
    hide Holds, HoldsAt, MergeIn;
    var l' := MergeNext(g, l, i);
    HoldsHeader(mem, g, l);
    assert SplitsInto(g, l', l, i, l[i], l[i + 1]) by {
      assert l' == l[..i] + [l'[i]] + l[i + 2..];
      assert l == l'[..i] + [l[i], l[i + 1]] + l'[i + 1..];
    }
    forall j: nat | j < |l'|
      ensures HoldsAt(mem', g, l', j)
    {
      MergeHoldsAt(mem, mem', g, l, l', i, j);
    }
    HoldsIntro(mem', g, l');
  }

  lemma MergeHoldsAt(mem: Memory, mem': Memory, g: Geometry, l: Layout, l': Layout, i: nat, j: nat)
    requires Holds(mem, g, l) && i + 1 < |l| && l[i + 1].free && MergeIn(mem, mem', g, l, i) && j < |l'|
    requires l' == MergeNext(g, l, i) && SplitsInto(g, l', l, i, l[i], l[i + 1])
    ensures HoldsAt(mem', g, l', j)
  {
    hide Span, Addr;
    var a, b := l[i], l[i + 1];
    assert HoldsAt(mem, g, l, i) && HoldsAt(mem, g, l, i + 1);
    SplitAddrs(g, l', l, i, a, b, i);
    SplitAddrs(g, l', l, i, a, b, i + 1);
    if j == i {
      SplitAddrs(g, l', l, i, a, b, if i > 0 then i - 1 else 0);
    } else {
      var k := if j < i then j else j + 1;
      assert l'[j] == l[k];
      assert HoldsAt(mem, g, l, k);
      SplitAddrs(g, l', l, i, a, b, j);
      SplitAddrs(g, l', l, i, a, b, j + 1);
      SplitAddrs(g, l', l, i, a, b, if j > 0 then j - 1 else 0);
      AddrsDiffer(g, l, i, k);
      AddrsDiffer(g, l, i + 1, k);
      if k != i + 2 && i + 2 < |l| {
        AddrsDiffer(g, l, i + 2, k);
      }
    }
  }

  // ---------------------------------------------------------------------------
  // The heap object
  // ---------------------------------------------------------------------------

  class HeapLab {
    const g: Geometry
    const managed: nat
    var mem: Memory
    var allocations: nat
    var frees: nat
    var failures: nat
    ghost var layout: Layout

    ghost predicate Valid()
      reads this
    {
      LayoutOk(g, layout, managed) && managed < SIZE_RANGE && Holds(mem, g, layout)
    }

    /** One free block covers the whole arena. */
    constructor (geometry: Geometry, bytes: nat)
      requires GeometryOk(geometry) && bytes % geometry.alignment == 0
      requires geometry.header + geometry.alignment <= bytes < SIZE_RANGE
      ensures g == geometry && managed == bytes && Valid()
      ensures layout == [Block(bytes - geometry.header, 0, true)]
      ensures allocations == 0 && frees == 0 && failures == 0
    {
      g, managed := geometry, bytes;
      allocations, frees, failures := 0, 0, 0;
      mem := map[0 := Header(bytes - geometry.header, 0, None, None, true, true)];
      layout := [Block(bytes - geometry.header, 0, true)];
      new;
      AlignedDifference(bytes, geometry.header, geometry.alignment);
      assert layout[..0] == [];
      assert HoldsAt(mem, g, layout, 0);
    }

    /** The address of block `i`, or nothing past the last one. */
    ghost function At(i: nat): Option<nat>
      reads this
      requires i <= |layout|
    {
      if i < |layout| then Some(Addr(g, layout, i)) else None
    }

    method Alloc(requested: nat) returns (p: Option<nat>)
      requires Valid() && requested < SIZE_RANGE
      modifies this
      ensures Valid()
      ensures var (l, r) := HeapModel.Alloc(g, old(layout), requested);
        && layout == l
        && (p.Some? <==> r.Some?)
        && (p.Some? ==> r.value < |l| && p.value == Addr(g, l, r.value) + g.header)
      ensures allocations == old(allocations) + (if p.Some? then 1 else 0)
      ensures failures == old(failures) + (if p.None? then 1 else 0)
      ensures frees == old(frees)
    {
      hide Span, Addr, AlignUp, Holds;
      AllocOk(g, layout, managed, requested);
      if requested == 0 || requested + g.alignment - 1 >= SIZE_RANGE {
        if requested > 0 {
          OverflowTooLarge(requested, g.alignment);
          NoneFits(g, layout, managed, AlignUp(requested, g.alignment));
        }
        failures := failures + 1;
        return None;
      }
      var bytes := AlignUp(requested, g.alignment);
      var block: Option<nat> := Some(0);
      ghost var i: nat := 0;
      FirstAddr(g, layout);
      while block.Some?
        invariant i <= |layout| && block == At(i) && Valid() && layout == old(layout)
        invariant FirstFit(layout, bytes, 0) == FirstFit(layout, bytes, i)
        invariant mem == old(mem) && allocations == old(allocations) && failures == old(failures) && frees == old(frees)
        decreases |layout| - i
      {
        HeaderKnown(mem, g, layout, i);
        var at := block.value;
        if mem[at].free && mem[at].payload >= bytes {
          AllocatedBlock(g, layout, requested);
          Take(at, bytes, requested, i);
          allocations := allocations + 1;
          return Some(at + g.header);
        }
        block := mem[at].next;
        i := i + 1;
      }
      failures := failures + 1;
      p := None;
    }

    /** Absorb the next block into block `i` if it is free. */
    method MergeWithNext(at: nat, ghost i: nat)
      requires i < |layout| && at == Addr(g, layout, i) && Holds(mem, g, layout)
      modifies `mem, `layout
      ensures layout == MergeNext(g, old(layout), i) && Holds(mem, g, layout)
      ensures i < |layout| && forall j: nat :: j <= i ==> Addr(g, layout, j) == Addr(g, old(layout), j)
    {
      hide Span, Holds, HoldsAt;
      HeaderKnown(mem, g, layout, i);
      ghost var l, was := layout, mem;
      var next := mem[at].next;
      if next.None? {
        return;
      }
      HeaderKnown(mem, g, layout, i + 1);
      if !mem[next.value].free {
        return;
      }
      AddrsDiffer(g, l, i, i + 1);
      var second := mem[next.value].next;
      mem := mem[at := mem[at].(payload := mem[at].payload + g.header + mem[next.value].payload, next := second)];
      if second.Some? {
        HeaderKnown(was, g, l, i + 2);
        AddrsDiffer(g, l, i, i + 2);
        AddrsDiffer(g, l, i + 1, i + 2);
        mem := mem[second.value := mem[second.value].(previous := Some(at))];
      }
      mem := mem[next.value := Header(0, 0, None, None, false, false)];
      layout := MergeNext(g, l, i);
      assert MergeIn(was, mem, g, l, i);
      MergeHolds(was, mem, g, l, i);
      forall j: nat | j <= i
        ensures Addr(g, layout, j) == Addr(g, l, j)
      {
        assert layout[..j] == l[..j];
      }
    }

    /** Free the block with payload address `p`, if there is one and it is in use. */
    method Free(p: nat) returns (status: FreeStatus)
      requires Valid()
      modifies this
      ensures Valid()
      ensures var l := old(layout);
        var i := Find(g, l, p, 0);
        if i == |l| then status == InvalidPointer && layout == l
        else if l[i].free then status == DoubleFree && layout == l
        else status == Freed && layout == FreeAt(g, l, i)
      ensures frees == old(frees) + (if status == Freed then 1 else 0)
      ensures allocations == old(allocations) && failures == old(failures)
    {
      hide Span, Addr, Holds, MergeNext;
      var block: Option<nat> := Some(0);
      ghost var i: nat := 0;
      FirstAddr(g, layout);
      while block.Some?
        invariant i <= |layout| && block == At(i) && Valid() && layout == old(layout)
        invariant Find(g, layout, p, 0) == Find(g, layout, p, i)
        invariant mem == old(mem) && allocations == old(allocations) && failures == old(failures) && frees == old(frees)
        decreases |layout| - i
      {
        HeaderKnown(mem, g, layout, i);
        var at := block.value;
        if at + g.header == p {
          if mem[at].free {
            return DoubleFree;
          }
          FreeOk(g, layout, managed, i);
          Release(at, i);
          frees := frees + 1;
          return Freed;
        }
        block := mem[at].next;
        i := i + 1;
      }
      status := InvalidPointer;
    }

    /** Mark block `i` free and merge it with its free neighbours. */
    method Release(at: nat, ghost i: nat)
      requires i < |layout| && at == Addr(g, layout, i) && Holds(mem, g, layout)
      modifies `mem, `layout
      ensures layout == FreeAt(g, old(layout), i) && Holds(mem, g, layout)
    {
      hide Span, Addr, Holds, HoldsAt, MergeNext;
      HeaderKnown(mem, g, layout, i);
      ghost var b := Block(layout[i].payload, 0, true);
      ghost var l := layout[i := b];
      HoldsChanged(mem, g, layout, i, b);
      SameSizes(g, layout, l, i);
      mem := mem[at := mem[at].(free := true, requested := 0)];
      layout := l;
      MergeWithNext(at, i);
      HeaderKnown(mem, g, layout, i);
      var previous := mem[at].previous;
      if previous.Some? {
        HeaderKnown(mem, g, layout, i - 1);
        if mem[previous.value].free {
          MergeWithNext(previous.value, i - 1);
        }
      }
    }

    /** Give block `i` at address `at` to a request, splitting it if worthwhile. */
    method Take(at: nat, bytes: nat, requested: nat, ghost i: nat)
      requires i < |layout| && at == Addr(g, layout, i) && Holds(mem, g, layout) && Fits(layout[i], bytes)
      modifies `mem, `layout
      ensures layout == AllocAt(g, old(layout), i, bytes, requested)
      ensures Holds(mem, g, layout)
    {
      hide Span, Addr, Holds, HoldsAt;
      HeaderKnown(mem, g, layout, i);
      ghost var b := layout[i];
      ghost var l, was := layout, mem;
      var remainder := mem[at].payload - bytes;
      if remainder >= g.header + g.alignment {
        var split := at + g.header + bytes;
        var next := mem[at].next;
        mem := mem[split := Header(remainder - g.header, 0, Some(at), next, true, true)];
        ghost var made := mem;
        MidIsNew(g, l, i, i, bytes);
        if next.Some? {
          HeaderKnown(was, g, l, i + 1);
          MidIsNew(g, l, i, i + 1, bytes);
          AddrsDiffer(g, l, i, i + 1);
          mem := mem[next.value := mem[next.value].(previous := Some(split))];
        }
        mem := mem[at := Header(bytes, requested, mem[at].previous, Some(split), mem[at].magic, false)];
        layout := AllocAt(g, l, i, bytes, requested);
        assert SplitIn(was, mem, g, l, i, Block(bytes, requested, false), Block(remainder - g.header, 0, true));
        SplitHolds(was, mem, g, l, layout, i, Block(bytes, requested, false), Block(remainder - g.header, 0, true));
      } else {
        HoldsChanged(mem, g, l, i, Block(b.payload, requested, false));
        mem := mem[at := mem[at].(requested := requested, free := false)];
        layout := l[i := Block(b.payload, requested, false)];
        assert layout == AllocAt(g, l, i, bytes, requested);
      }
    }
  }

  // ---------------------------------------------------------------------------
  // Validation
  // ---------------------------------------------------------------------------

  /** The blocks `l` have been visited: memory holds their headers, and the last one points to `block`. */
  ghost predicate Visited(mem: Memory, g: Geometry, l: Layout, block: Option<nat>) {
    forall i: nat :: i < |l| ==> VisitedAt(mem, g, l, block, i)
  }

  ghost predicate VisitedAt(mem: Memory, g: Geometry, l: Layout, block: Option<nat>, i: nat)
    requires i < |l|
  {
    && Addr(g, l, i) in mem
    && mem[Addr(g, l, i)] == HeaderOf(g, l, i).(next := if i + 1 < |l| then Some(Addr(g, l, i + 1)) else block)
  }

  /** The inspection of one header, between the previous block and the rest. */
  predicate HeaderOk(g: Geometry, managed: nat, h: Header, at: nat, expected: nat, previous: Option<nat>)
    requires g.alignment > 0
  {
    && at == expected && h.magic && h.previous == previous
    && h.payload >= g.alignment && h.payload % g.alignment == 0
    && (if h.free then h.requested == 0 else 0 < h.requested <= h.payload)
    && at + g.header + h.payload <= managed
  }

  /** Some well-formed layout is what memory holds. */
  ghost predicate WellFormed(mem: Memory, g: Geometry, managed: nat) {
    exists l :: Describes(mem, g, managed, l)
  }

  ghost predicate Describes(mem: Memory, g: Geometry, managed: nat, l: Layout) {
    LayoutOk(g, l, managed) && Holds(mem, g, l)
  }

  /** Only the layout that memory holds can be visited. */
  ghost predicate Forced(mem: Memory, g: Geometry, managed: nat, l: Layout, block: Option<nat>) {
    forall w: Layout :: Describes(mem, g, managed, w) ==>
      l <= w && block == if |l| < |w| then Some(Addr(g, w, |l|)) else None
  }

  lemma HeaderKnown(mem: Memory, g: Geometry, l: Layout, i: nat)
    requires Holds(mem, g, l) && i < |l|
    ensures Addr(g, l, i) in mem && mem[Addr(g, l, i)] == HeaderOf(g, l, i) && g.header > 0
  {
    assert HoldsAt(mem, g, l, i);
  }

  lemma FirstAddr(g: Geometry, l: Layout)
    ensures Addr(g, l, 0) == 0
  {
  }

  lemma NoneFits(g: Geometry, l: Layout, managed: nat, bytes: nat)
    requires LayoutOk(g, l, managed) && bytes > managed
    ensures forall b :: b in l ==> !Fits(b, bytes)
    ensures FirstFit(l, bytes, 0) == |l|
  {
    forall i: nat | i < |l|
      ensures l[i].payload <= managed
    {
      AddrMonotone(g, l, i, |l|);
      assert l[..|l|] == l;
    }
  }

  /** The last visited address. */
  function LastAddr(g: Geometry, l: Layout): Option<nat> {
    if l == [] then None else Some(Addr(g, l, |l| - 1))
  }

  function BlockOf(h: Header): Block {
    Block(h.payload, h.requested, h.free)
  }

  lemma ForcedBlock(mem: Memory, g: Geometry, managed: nat, l: Layout, at: nat, w: Layout)
    requires Forced(mem, g, managed, l, Some(at)) && at in mem && Describes(mem, g, managed, w)
    ensures |l| < |w| && l == w[..|l|] && at == Addr(g, w, |l|) == Span(g, l) && mem[at] == HeaderOf(g, w, |l|)
    ensures l != [] ==> Addr(g, w, |l| - 1) == Addr(g, l, |l| - 1)
  {
    hide Span, LayoutOk, Holds;
    var n := |l|;
    assert l == w[..n];
    HeaderKnown(mem, g, w, n);
    if n > 0 {
      assert l[..n - 1] == w[..n - 1];
    }
  }

  lemma WellFormedHeader(g: Geometry, managed: nat, w: Layout, n: nat)
    requires LayoutOk(g, w, managed) && n < |w|
    ensures HeaderOk(g, managed, HeaderOf(g, w, n), Addr(g, w, n), Addr(g, w, n), if n == 0 then None
      else Some(Addr(g, w, n - 1)))
  {
    assert BlockOk(g, w[n]);
    AddrMonotone(g, w, n, |w|);
    assert w[..|w|] == w;
    hide Span, Addr;
  }

  /** Any layout that memory holds passes the next inspection and contains the next block. */
  lemma ForcedStep(mem: Memory, g: Geometry, managed: nat, l: Layout, at: nat, w: Layout)
    requires Forced(mem, g, managed, l, Some(at)) && at in mem && Describes(mem, g, managed, w)
    ensures g.alignment > 0 && at == Span(g, l) && HeaderOk(g, managed, mem[at], at, Span(g, l), LastAddr(g, l))
    ensures l + [BlockOf(mem[at])] <= w
    ensures mem[at].next == if |l| + 1 < |w| then Some(Addr(g, w, |l| + 1)) else None
    ensures mem[at].free && mem[at].next.Some? ==> mem[at].next.value in mem && !mem[mem[at].next.value].free
  {
    hide Span, Addr, Holds, HeaderOk, Forced, BlockOk;
    var n := |l|;
    ForcedBlock(mem, g, managed, l, at, w);
    WellFormedHeader(g, managed, w, n);
    assert w[..n + 1] == l + [w[n]];
    if n + 1 < |w| {
      HeaderKnown(mem, g, w, n + 1);
      assert !(w[n + 1 - 1].free && w[n + 1].free);
    }
  }

  lemma VisitedStep(mem: Memory, g: Geometry, managed: nat, l: Layout, at: nat)
    requires GeometryOk(g) && Visited(mem, g, l, Some(at)) && at in mem
    requires HeaderOk(g, managed, mem[at], at, Span(g, l), LastAddr(g, l))
    ensures Visited(mem, g, l + [BlockOf(mem[at])], mem[at].next)
  {
    var l' := l + [BlockOf(mem[at])];
    forall i: nat | i < |l'|
      ensures VisitedAt(mem, g, l', mem[at].next, i)
    {
      assert l'[..i] == l[..i];
      if i < |l| {
        assert VisitedAt(mem, g, l, Some(at), i);
        assert l'[..i + 1] == l[..i + 1];
        assert i + 1 == |l| ==> l[..i + 1] == l;
        if i > 0 {
          assert l'[..i - 1] == l[..i - 1];
        }
      } else if i > 0 {
        assert l'[..i - 1] == l[..i - 1];
      }
    }
  }

  lemma ForcedKept(mem: Memory, g: Geometry, managed: nat, l: Layout, at: nat)
    requires Forced(mem, g, managed, l, Some(at)) && at in mem
    ensures Forced(mem, g, managed, l + [BlockOf(mem[at])], mem[at].next)
  {
    hide Span, Addr, Holds, LayoutOk;
    forall w: Layout | Describes(mem, g, managed, w)
      ensures l + [BlockOf(mem[at])] <= w && mem[at].next == if |l| + 1 < |w| then Some(Addr(g, w, |l| + 1)) else None
    {
      ForcedStep(mem, g, managed, l, at, w);
    }
  }

  /** What has been visited so far is a well-formed beginning of a heap. */
  ghost predicate Beginning(g: Geometry, managed: nat, l: Layout) {
    && GeometryOk(g) && Span(g, l) <= managed && |l| * g.alignment <= Span(g, l)
    && (forall i :: 0 <= i < |l| ==> BlockOk(g, l[i]))
    && (forall i :: 0 < i < |l| ==> !(l[i - 1].free && l[i].free))
  }

  lemma BeginningStep(g: Geometry, managed: nat, l: Layout, h: Header, at: nat)
    requires Beginning(g, managed, l) && HeaderOk(g, managed, h, at, Span(g, l), LastAddr(g, l))
    requires l != [] && l[|l| - 1].free ==> !h.free
    ensures Beginning(g, managed, l + [BlockOf(h)]) && Span(g, l + [BlockOf(h)]) == at + g.header + h.payload
  {
    assert (l + [BlockOf(h)])[..|l|] == l;
    assert (|l| + 1) * g.alignment == |l| * g.alignment + g.alignment;
  }

  /** The address behind a block of an arena that begins at `base`, as the addition on words gives it. */
  function EndOf(g: Geometry, base: nat, h: Header, at: nat): nat {
    (base + at + g.header + h.payload) % SIZE_RANGE
  }

  /** Header and payload together exceed the range of addresses. */
  predicate Wraps(g: Geometry, h: Header) {
    g.header + h.payload > SIZE_RANGE
  }

  /** The inspection of one header as it is done on words. */
  predicate HeaderPasses(g: Geometry, base: nat, managed: nat, h: Header, at: nat, expected: nat, previous: Option<nat>)
    requires g.alignment > 0
  {
    && at == expected && h.magic && h.previous == previous
    && h.payload >= g.alignment && h.payload % g.alignment == 0
    && (if h.free then h.requested == 0 else 0 < h.requested <= h.payload)
    && base + at < EndOf(g, base, h, at) <= base + managed
  }

  /** On words the inspection is the right one, except that it does not notice a size that wraps. */
  lemma PassesIff(g: Geometry, base: nat, managed: nat, h: Header, at: nat, expected: nat, previous: Option<nat>)
    requires GeometryOk(g) && base + managed < SIZE_RANGE && expected <= managed && h.payload < SIZE_RANGE
    ensures HeaderOk(g, managed, h, at, expected, previous) <==>
      HeaderPasses(g, base, managed, h, at, expected, previous) && !Wraps(g, h)
    ensures HeaderOk(g, managed, h, at, expected, previous) ==>
      EndOf(g, base, h, at) == base + at + g.header + h.payload
  {
  }

  /** The block reached after `n` links. */
  function Follow(mem: Memory, n: nat): Option<nat> {
    if n == 0 then Some(0)
    else
      match Follow(mem, n - 1)
      case None => None
      case Some(x) => if x in mem then mem[x].next else None
  }

  /** A block that the links lead to has a size that wraps. */
  ghost predicate WrapOnPath(mem: Memory, g: Geometry) {
    exists n: nat :: WrapAt(mem, g, n)
  }

  ghost predicate WrapAt(mem: Memory, g: Geometry, n: nat) {
    Follow(mem, n).Some? && Follow(mem, n).value in mem && Wraps(g, mem[Follow(mem, n).value])
  }

  lemma {:induction false} FollowEnds(mem: Memory, n: nat, k: nat)
    requires Follow(mem, n) == None && n <= k
    ensures Follow(mem, k) == None
    decreases k
  {
    if n < k {
      FollowEnds(mem, n, k - 1);
    }
  }

  /** The inspection ends on any memory whose links lead to headers. It rejects no well-formed
      heap, and what it accepts is one exactly if no block that the links lead to has a size that
      wraps around. */
  method Validate(g: Geometry, base: nat, managed: nat, mem: Memory) returns (ok: bool)
    requires GeometryOk(g) && base + managed < SIZE_RANGE && 0 in mem
    requires forall x :: x in mem ==> mem[x].payload < SIZE_RANGE
    requires forall x :: x in mem && mem[x].next.Some? ==> mem[x].next.value in mem
    ensures WellFormed(mem, g, managed) ==> ok
    ensures ok ==> (WellFormed(mem, g, managed) <==> !WrapOnPath(mem, g))
  {
    hide Span, Addr, Holds, LayoutOk, HeaderOk, HeaderPasses, Visited, Beginning, EndOf, Follow, WrapAt, WellFormed,
         Forced;
    var block: Option<nat> := Some(0);
    var previous: Option<nat> := None;
    var expected, visited := 0, 0;
    ghost var l: Layout := [];
    ghost var wrapped := false;
    ValidateStart(mem, g, managed);
    PathStart(mem);
    while block.Some?
      invariant (block.Some? ==> block.value in mem) && 0 <= expected <= managed && Follow(mem, visited) == block
      invariant !wrapped ==> Visited(mem, g, l, block) && Forced(mem, g, managed, l, block) && Beginning(g, managed, l)
      invariant !wrapped ==> previous == LastAddr(g, l) && expected == Span(g, l) && visited == |l|
      invariant !wrapped ==> block.Some? && l != [] && l[|l| - 1].free ==> !mem[block.value].free
      invariant !wrapped ==> block.None? ==> l != []
      invariant !wrapped ==> forall n: nat :: n < visited ==> !WrapAt(mem, g, n)
      invariant wrapped ==> WrapOnPath(mem, g) && !WellFormed(mem, g, managed)
      decreases managed - expected
    {
      var at := block.value;
      var h := mem[at];
      PassesIff(g, base, managed, h, at, expected, previous);
      if !wrapped && (!HeaderOk(g, managed, h, at, expected, previous) ||
                      (h.next.Some? && h.free && mem[h.next.value].free)) {
        ForcedStepAll(mem, g, managed, l, at);
      }
      if !HeaderPasses(g, base, managed, h, at, expected, previous) {
        return false;
      }
      if h.next.Some? && h.free && mem[h.next.value].free {
        return false;
      }
      PathStep(mem, g, visited, at);
      PassedEnd(g, base, managed, h, at, expected, previous);
      if !wrapped && !Wraps(g, h) {
        VisitedStep(mem, g, managed, l, at);
        ForcedKept(mem, g, managed, l, at);
        BeginningStep(g, managed, l, h, at);
        SnocAddr(g, l, BlockOf(h));
        l := l + [BlockOf(h)];
        VisitedBound(g, managed, l);
      } else {
        wrapped := true;
      }
      expected := EndOf(g, base, h, at) - base;
      previous := Some(at);
      visited := visited + 1;
      if visited > managed / g.alignment {
        return false;
      }
      block := h.next;
    }
    if !wrapped {
      ValidateEnd(mem, g, managed, l);
      NoWrapOnPath(mem, g, visited);
    }
    ok := expected == managed;
  }

  lemma PathStart(mem: Memory)
    ensures Follow(mem, 0) == Some(0)
  {
  }

  lemma PathStep(mem: Memory, g: Geometry, n: nat, at: nat)
    requires Follow(mem, n) == Some(at) && at in mem
    ensures Follow(mem, n + 1) == mem[at].next
    ensures WrapAt(mem, g, n) <==> Wraps(g, mem[at])
  {
  }

  lemma NoWrapOnPath(mem: Memory, g: Geometry, n: nat)
    requires Follow(mem, n) == None && forall k: nat :: k < n ==> !WrapAt(mem, g, k)
    ensures !WrapOnPath(mem, g)
  {
    hide Follow;
    forall k: nat
      ensures !WrapAt(mem, g, k)
    {
      if n <= k {
        FollowEnds(mem, n, k);
      }
    }
  }

  lemma PassedEnd(g: Geometry, base: nat, managed: nat, h: Header, at: nat, expected: nat, previous: Option<nat>)
    requires g.alignment > 0 && HeaderPasses(g, base, managed, h, at, expected, previous)
    ensures at == expected && expected < EndOf(g, base, h, at) - base <= managed
  {
  }

  /** A block whose size wraps can pass: it seems to end inside its own header. */
  lemma WrapOverlooked()
    ensures var g := Geometry(8, 24);
      var h := Header(SIZE_RANGE - 8, 0, None, None, true, true);
      && GeometryOk(g) && HeaderPasses(g, 64, 16, h, 0, 0, None) && EndOf(g, 64, h, 0) == 64 + 16
      && !WellFormed(map[0 := h], g, 16)
  {
    var g := Geometry(8, 24);
    var h := Header(SIZE_RANGE - 8, 0, None, None, true, true);
    forall w: Layout
      ensures !Describes(map[0 := h], g, 16, w)
    {
      if Describes(map[0 := h], g, 16, w) {
        WellFormedHeader(g, 16, w, 0);
      }
    }
  }

  lemma ValidateStart(mem: Memory, g: Geometry, managed: nat)
    requires GeometryOk(g)
    ensures Visited(mem, g, [], Some(0)) && Forced(mem, g, managed, [], Some(0)) && Beginning(g, managed, [])
      && Span(g, []) == 0
  {
  }

  lemma ForcedStepAll(mem: Memory, g: Geometry, managed: nat, l: Layout, at: nat)
    requires Forced(mem, g, managed, l, Some(at)) && at in mem && g.alignment > 0
    requires !HeaderOk(g, managed, mem[at], at, Span(g, l), LastAddr(g, l))
      || (mem[at].next.Some? && mem[at].free && mem[at].next.value in mem && mem[mem[at].next.value].free)
    ensures !WellFormed(mem, g, managed)
  {
    hide Span, Addr, Holds, LayoutOk, HeaderOk, Forced, Describes;
    forall w: Layout
      ensures !Describes(mem, g, managed, w)
    {
      if Describes(mem, g, managed, w) {
        ForcedStep(mem, g, managed, l, at, w);
      }
    }
  }

  lemma SnocAddr(g: Geometry, l: Layout, b: Block)
    ensures LastAddr(g, l + [b]) == Some(Span(g, l))
  {
    assert (l + [b])[..|l|] == l;
  }

  lemma VisitedBound(g: Geometry, managed: nat, l: Layout)
    requires Beginning(g, managed, l)
    ensures |l| <= managed / g.alignment
  {
    var q := managed / g.alignment;
    assert managed == g.alignment * q + managed % g.alignment;
    if |l| > q {
      Gap(g.alignment, |l|, q);
    }
  }

  lemma ValidateEnd(mem: Memory, g: Geometry, managed: nat, l: Layout)
    requires Visited(mem, g, l, None) && Forced(mem, g, managed, l, None) && Beginning(g, managed, l) && l != []
    ensures WellFormed(mem, g, managed) <==> Span(g, l) == managed
  {
    if Span(g, l) == managed {
      forall i: nat | i < |l|
        ensures HoldsAt(mem, g, l, i)
      {
        assert VisitedAt(mem, g, l, None, i);
      }
      assert Describes(mem, g, managed, l);
    }
    forall w: Layout | Describes(mem, g, managed, w)
      ensures w == l
    {
      assert w[..|w|] == w;
    }
  }
}
