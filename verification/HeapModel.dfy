/**
 A first-fit heap as a sequence of blocks that tile the arena in address order. Sizes and
 addresses are byte offsets from the aligned beginning of the arena.
 */
module HeapModel {
  import opened Config
  import opened Arithmetic

  const SIZE_RANGE: nat := 0x1_0000_0000

  /** The alignment and the size of a block header. */
  datatype Geometry = Geometry(alignment: nat, header: nat)

  ghost predicate GeometryOk(g: Geometry) {
    && 0 < g.alignment <= g.header < SIZE_RANGE
    && g.header % g.alignment == 0 && SIZE_RANGE % g.alignment == 0
  }

  datatype Block = Block(payload: nat, requested: nat, free: bool)

  type Layout = seq<Block>

  // ---------------------------------------------------------------------------
  // Addresses
  // ---------------------------------------------------------------------------

  /** Bytes covered by a run of blocks. */
  function Span(g: Geometry, l: Layout): nat {
    if l == [] then 0 else Span(g, l[..|l| - 1]) + g.header + l[|l| - 1].payload
  }

  /** Address of block `i`; of the end of the blocks for `i == |l|`. */
  function Addr(g: Geometry, l: Layout, i: nat): nat
    requires i <= |l|
  {
    Span(g, l[..i])
  }

  lemma AddrNext(g: Geometry, l: Layout, i: nat)
    requires i < |l|
    ensures Addr(g, l, i + 1) == Addr(g, l, i) + g.header + l[i].payload && Addr(g, l, 0) == 0
  {
    assert l[..i + 1][..i] == l[..i];
  }

  lemma {:induction false} SpanSum(g: Geometry, a: Layout, b: Layout)
    ensures Span(g, a + b) == Span(g, a) + Span(g, b)
    decreases |b|
  {
    if b == [] {
      assert a + b == a;
    } else {
      SpanSum(g, a, b[..|b| - 1]);
      assert (a + b)[..|a + b| - 1] == a + b[..|b| - 1];
    }
  }

  /** Later blocks lie behind earlier ones. */
  lemma {:induction false} AddrMonotone(g: Geometry, l: Layout, i: nat, j: nat)
    requires i < j <= |l|
    ensures Addr(g, l, i) + g.header + l[i].payload <= Addr(g, l, j)
    decreases j
  {
    AddrNext(g, l, j - 1);
    if i < j - 1 {
      AddrMonotone(g, l, i, j - 1);
    }
  }

  // ---------------------------------------------------------------------------
  // Invariant
  // ---------------------------------------------------------------------------

  ghost predicate BlockOk(g: Geometry, b: Block)
    requires g.alignment > 0
  {
    && b.payload >= g.alignment && b.payload % g.alignment == 0
    && if b.free then b.requested == 0 else 0 < b.requested <= b.payload
  }

  /** The blocks tile the arena, each is well formed, and no two free ones are neighbours. */
  ghost predicate LayoutOk(g: Geometry, l: Layout, managed: nat) {
    && GeometryOk(g) && l != [] && Span(g, l) == managed
    && (forall i :: 0 <= i < |l| ==> BlockOk(g, l[i]))
    && (forall i :: 0 < i < |l| ==> !(l[i - 1].free && l[i].free))
  }

  /** Payloads of different blocks do not overlap, and lie inside the arena, aligned. */
  lemma PayloadsDisjoint(g: Geometry, l: Layout, managed: nat, i: nat, j: nat)
    requires LayoutOk(g, l, managed) && i < j < |l|
    ensures Addr(g, l, i) + g.header + l[i].payload <= Addr(g, l, j)
    ensures Addr(g, l, j) + g.header + l[j].payload <= managed
  {
    AddrMonotone(g, l, i, j);
    AddrNext(g, l, j);
    assert l[..|l|] == l;
    if j + 1 < |l| {
      AddrMonotone(g, l, j, |l|);
    }
  }

  lemma {:induction false} AddrAligned(g: Geometry, l: Layout, managed: nat, i: nat)
    requires LayoutOk(g, l, managed) && i <= |l|
    ensures Addr(g, l, i) % g.alignment == 0
    decreases i
  {
    hide LayoutOk, Addr;
    AlignedParts(g, l, managed, i);
    if i > 0 {
      AddrAligned(g, l, managed, i - 1);
      AddrNext(g, l, i - 1);
      AlignedSum(Addr(g, l, i - 1), g.header, g.alignment);
      AlignedSum(Addr(g, l, i - 1) + g.header, l[i - 1].payload, g.alignment);
    }
  }

  lemma AlignedParts(g: Geometry, l: Layout, managed: nat, i: nat)
    requires LayoutOk(g, l, managed) && i <= |l|
    ensures g.alignment > 0 && g.header % g.alignment == 0 && (i > 0 ==> l[i - 1].payload % g.alignment == 0)
    ensures i == 0 ==> Addr(g, l, i) % g.alignment == 0
  {
    if i > 0 {
      assert BlockOk(g, l[i - 1]);
    }
  }

  // ---------------------------------------------------------------------------
  // Rounding up
  // ---------------------------------------------------------------------------

  /** The least multiple of `m` that is at least `n`. */
  function AlignUp(n: nat, m: nat): nat
    requires m > 0
  {
    (n + m - 1) - (n + m - 1) % m
  }

  lemma AlignUpLeast(n: nat, m: nat)
    requires m > 0
    ensures AlignUp(n, m) % m == 0 && n <= AlignUp(n, m) < n + m
  {
    var a := n + m - 1;
    assert a == m * (a / m) + a % m;
    MultipleAligned(a / m, m);
  }

  /** A request whose rounding overflows the size type is larger than any block. */
  lemma OverflowTooLarge(n: nat, m: nat)
    requires m > 0 && SIZE_RANGE % m == 0 && n + m - 1 >= SIZE_RANGE
    ensures AlignUp(n, m) >= SIZE_RANGE
  {
    AlignUpLeast(n, m);
    var a, b := AlignUp(n, m) / m, SIZE_RANGE / m;
    assert AlignUp(n, m) == m * a && SIZE_RANGE == m * b;
    if a < b {
      Gap(m, b, a);
    }
  }

  // ---------------------------------------------------------------------------
  // Allocation
  // ---------------------------------------------------------------------------

  predicate Fits(b: Block, bytes: nat) {
    b.free && b.payload >= bytes
  }

  /** The first block from `i` on that fits, or the end. */
  function FirstFit(l: Layout, bytes: nat, i: nat): (r: nat)
    requires i <= |l|
    ensures i <= r <= |l|
    ensures forall j :: i <= j < r ==> !Fits(l[j], bytes)
    ensures r < |l| ==> Fits(l[r], bytes)
    decreases |l| - i
  {
    if i == |l| || Fits(l[i], bytes) then i else FirstFit(l, bytes, i + 1)
  }

  /** A block given to a request: its tail becomes a free block if that is large enough. */
  function Split(g: Geometry, b: Block, bytes: nat, requested: nat): Layout {
    if b.payload >= bytes + g.header + g.alignment
    then [Block(bytes, requested, false), Block(b.payload - bytes - g.header, 0, true)]
    else [Block(b.payload, requested, false)]
  }

  function AllocAt(g: Geometry, l: Layout, i: nat, bytes: nat, requested: nat): Layout
    requires i < |l|
  {
    l[..i] + Split(g, l[i], bytes, requested) + l[i + 1..]
  }

  /** The layout after a request and the index of the block given to it. */
  function Alloc(g: Geometry, l: Layout, requested: nat): (Layout, Option<nat>)
    requires g.alignment > 0
  {
    var bytes := AlignUp(requested, g.alignment);
    var i := FirstFit(l, bytes, 0);
    if requested == 0 || i == |l| then (l, None) else (AllocAt(g, l, i, bytes, requested), Some(i))
  }

  lemma SpanSplit(g: Geometry, b: Block, bytes: nat, requested: nat)
    ensures Span(g, Split(g, b, bytes, requested)) == Span(g, [b])
  {
    var s := Split(g, b, bytes, requested);
    assert [b][..0] == [];
    if |s| == 2 {
      assert s[..1] == [s[0]];
      assert [s[0]][..0] == [];
    } else {
      assert s[..0] == [];
    }
  }

  lemma SpanReplaced(g: Geometry, l: Layout, i: nat, j: nat, mid: Layout)
    requires i <= j <= |l| && Span(g, mid) == Span(g, l[i..j])
    ensures Span(g, l[..i] + mid + l[j..]) == Span(g, l)
  {
    SpanSum(g, l[..i] + mid, l[j..]);
    SpanSum(g, l[..i], mid);
    assert l == l[..i] + l[i..j] + l[j..];
    SpanSum(g, l[..i] + l[i..j], l[j..]);
    SpanSum(g, l[..i], l[i..j]);
  }

  /** Allocation keeps the heap well formed. It takes the free block with the lowest address that
      is large enough, and fails exactly when there is none. */
  lemma AllocOk(g: Geometry, l: Layout, managed: nat, requested: nat)
    requires LayoutOk(g, l, managed)
    ensures LayoutOk(g, Alloc(g, l, requested).0, managed)
    ensures Alloc(g, l, requested).1.None? <==> requested == 0 || forall b :: b in l ==>
      !Fits(b, AlignUp(requested, g.alignment))
    ensures Alloc(g, l, requested).1.None? ==> Alloc(g, l, requested).0 == l
  {
    hide Span, BlockOk, AlignUp, AllocAt;
    var bytes := AlignUp(requested, g.alignment);
    var i := FirstFit(l, bytes, 0);
    if i == |l| {
      assert forall b :: b in l ==> !Fits(b, bytes);
    } else {
      assert l[i] in l;
      if requested > 0 {
        AlignUpLeast(requested, g.alignment);
        BytesAligned(requested, g.alignment);
        AllocAtOk(g, l, managed, i, bytes, requested);
      }
    }
  }

  lemma BytesAligned(n: nat, m: nat)
    requires n > 0 && m > 0
    ensures AlignUp(n, m) >= m
  {
    AlignUpLeast(n, m);
    var a := AlignUp(n, m) / m;
    assert AlignUp(n, m) == m * a;
    if a > 0 {
      Gap(m, a, 0);
    }
  }

  /** The block given away: first in address order, same address as before, marked and large enough. */
  lemma AllocatedBlock(g: Geometry, l: Layout, requested: nat)
    requires g.alignment > 0 && Alloc(g, l, requested).1.Some?
    ensures var (l', r) := Alloc(g, l, requested);
      && r.value < |l| && r.value < |l'| && l[r.value].free && !l'[r.value].free
      && l'[r.value].requested == requested <= l'[r.value].payload
      && (forall j :: 0 <= j < r.value ==> !Fits(l[j], AlignUp(requested, g.alignment)))
      && Addr(g, l', r.value) == Addr(g, l, r.value)
  {
    hide Span, AlignUp;
    AlignUpLeast(requested, g.alignment);
    var i := Alloc(g, l, requested).1.value;
    assert Alloc(g, l, requested).0[..i] == l[..i];
  }

  lemma AllocAtOk(g: Geometry, l: Layout, managed: nat, i: nat, bytes: nat, requested: nat)
    requires LayoutOk(g, l, managed) && i < |l| && Fits(l[i], bytes)
    requires 0 < requested <= bytes && bytes % g.alignment == 0 && bytes >= g.alignment
    ensures LayoutOk(g, AllocAt(g, l, i, bytes, requested), managed)
  {
    var s := Split(g, l[i], bytes, requested);
    var r := AllocAt(g, l, i, bytes, requested);
    SpanSplit(g, l[i], bytes, requested);
    assert l[i..i + 1] == [l[i]];
    SpanReplaced(g, l, i, i + 1, s);
    assert BlockOk(g, l[i]);
    if |s| == 2 {
      AlignedDifference(l[i].payload, bytes, g.alignment);
      AlignedDifference(l[i].payload - bytes, g.header, g.alignment);
    }
    hide Span;
    forall j | 0 <= j < |r|
      ensures BlockOk(g, r[j])
    {
      assert j < i ==> r[j] == l[j];
      assert i <= j < i + |s| ==> r[j] == s[j - i];
      assert j >= i + |s| ==> r[j] == l[j - |s| + 1];
    }
    forall j | 0 < j < |r|
      ensures !(r[j - 1].free && r[j].free)
    {
      assert j < i ==> r[j - 1] == l[j - 1] && r[j] == l[j];
      assert j > i + |s| ==> r[j - 1] == l[j - |s|] && r[j] == l[j - |s| + 1];
    }
  }

  // ---------------------------------------------------------------------------
  // Freeing
  // ---------------------------------------------------------------------------

  /** Absorb the next block if it is free. */
  function MergeNext(g: Geometry, l: Layout, i: nat): (r: Layout)
    requires i < |l|
    ensures i < |r| <= |l|
  {
    if i + 1 < |l| && l[i + 1].free
    then l[..i] + [l[i].(payload := l[i].payload + g.header + l[i + 1].payload)] + l[i + 2..]
    else l
  }

  function FreeAt(g: Geometry, l: Layout, i: nat): Layout
    requires i < |l|
  {
    var l1 := MergeNext(g, l[i := Block(l[i].payload, 0, true)], i);
    if i > 0 && l1[i - 1].free then MergeNext(g, l1, i - 1) else l1
  }

  /** The index of the block whose payload starts at `p`. */
  function Find(g: Geometry, l: Layout, p: nat, i: nat): (r: nat)
    requires i <= |l|
    ensures i <= r <= |l|
    ensures forall j :: i <= j < r ==> Addr(g, l, j) + g.header != p
    ensures r < |l| ==> Addr(g, l, r) + g.header == p
    decreases |l| - i
  {
    if i == |l| || Addr(g, l, i) + g.header == p then i else Find(g, l, p, i + 1)
  }

  /** Well formed except that block `i` may have free neighbours. */
  ghost predicate AlmostOk(g: Geometry, l: Layout, managed: nat, i: nat) {
    && GeometryOk(g) && i < |l| && Span(g, l) == managed
    && (forall j :: 0 <= j < |l| ==> BlockOk(g, l[j]))
    && (forall j :: 0 < j < |l| && j != i && j != i + 1 ==> !(l[j - 1].free && l[j].free))
  }

  lemma SpanPair(g: Geometry, a: Block, b: Block)
    ensures Span(g, [a, b]) == Span(g, [a.(payload := a.payload + g.header + b.payload)])
  {
    var c := a.(payload := a.payload + g.header + b.payload);
    assert [a, b][..1] == [a];
    assert [a][..0] == [] && [c][..0] == [];
  }

  /** Merging block `i` with its successor settles the boundary behind it. */
  lemma MergeOk(g: Geometry, l: Layout, managed: nat, i: nat)
    requires AlmostOk(g, l, managed, i) && l[i].free
    ensures AlmostOk(g, MergeNext(g, l, i), managed, i)
    ensures var r := MergeNext(g, l, i);
      r[i].free && r[..i] == l[..i] && (i + 1 < |r| ==> !r[i + 1].free)
  {
    if i + 1 < |l| && l[i + 1].free {
      var c := l[i].(payload := l[i].payload + g.header + l[i + 1].payload);
      var r := MergeNext(g, l, i);
      SpanPair(g, l[i], l[i + 1]);
      assert l[i..i + 2] == [l[i], l[i + 1]];
      SpanReplaced(g, l, i, i + 2, [c]);
      assert BlockOk(g, l[i]) && BlockOk(g, l[i + 1]);
      AlignedSum(l[i].payload, g.header, g.alignment);
      AlignedSum(l[i].payload + g.header, l[i + 1].payload, g.alignment);
      hide Span;
      forall j | 0 <= j < |r|
        ensures BlockOk(g, r[j])
      {
        assert j < i ==> r[j] == l[j];
        assert j > i ==> r[j] == l[j + 1];
      }
      forall j | 0 < j < |r| && j != i && j != i + 1
        ensures !(r[j - 1].free && r[j].free)
      {
        assert j < i ==> r[j - 1] == l[j - 1] && r[j] == l[j];
        assert j > i + 1 ==> r[j - 1] == l[j] && r[j] == l[j + 1];
      }
      assert i + 1 < |r| ==> r[i + 1] == l[i + 2];
    }
  }

  lemma MarkFree(g: Geometry, l: Layout, managed: nat, i: nat)
    requires LayoutOk(g, l, managed) && i < |l| && !l[i].free
    ensures AlmostOk(g, l[i := Block(l[i].payload, 0, true)], managed, i)
  {
    var b := Block(l[i].payload, 0, true);
    assert l[i := b] == l[..i] + [b] + l[i + 1..];
    assert l[i..i + 1] == [l[i]];
    assert [b][..0] == [] && [l[i]][..0] == [];
    SpanReplaced(g, l, i, i + 1, [b]);
    assert BlockOk(g, l[i]);
  }

  /** Freeing keeps the heap well formed. */
  lemma FreeOk(g: Geometry, l: Layout, managed: nat, i: nat)
    requires LayoutOk(g, l, managed) && i < |l| && !l[i].free
    ensures LayoutOk(g, FreeAt(g, l, i), managed)
  {
    hide Span, BlockOk;
    var l0 := l[i := Block(l[i].payload, 0, true)];
    MarkFree(g, l, managed, i);
    MergeOk(g, l0, managed, i);
    var l1 := MergeNext(g, l0, i);
    assert i > 0 ==> l1[i - 1] == l1[..i][i - 1];
    assert i > 0 ==> l0[i - 1] == l0[..i][i - 1] == l[i - 1];
    if i > 0 && l1[i - 1].free {
      forall j | 0 < j < |l1| && j != i - 1 && j != i
        ensures !(l1[j - 1].free && l1[j].free)
      {
      }
      MergeOk(g, l1, managed, i - 1);
      BeforeFree(g, l, l1, i);
    }
  }

  /** The block before a free block is in use, also after the merge of its successors. */
  lemma BeforeFree(g: Geometry, l: Layout, l1: Layout, i: nat)
    requires 0 < i < |l| && i < |l1| && l1[..i] == l[..i] && l[i - 1].free
    requires forall j :: 0 < j < |l| ==> !(l[j - 1].free && l[j].free)
    ensures i > 1 ==> !MergeNext(g, l1, i - 1)[i - 2].free
  {
    if i > 1 {
      assert l1[i - 2] == l1[..i][i - 2] == l[i - 2];
    }
  }

  /** Freeing what has just been allocated restores the layout. */
  lemma AllocFree(g: Geometry, l: Layout, managed: nat, requested: nat)
    requires LayoutOk(g, l, managed) && Alloc(g, l, requested).1.Some?
    ensures var (l', r) := Alloc(g, l, requested);
      r.value < |l'| && FreeAt(g, l', r.value) == l
  {
    hide Span, AlignUp;
    var (l', r) := Alloc(g, l, requested);
    var i := r.value;
    assert BlockOk(g, l[i]);
    var bytes := AlignUp(requested, g.alignment);
    var s := Split(g, l[i], bytes, requested);
    assert l' == l[..i] + s + l[i + 1..];
    var l0 := l'[i := Block(l'[i].payload, 0, true)];
    if |s| == 2 {
      assert l0 == l[..i] + [Block(bytes, 0, true), s[1]] + l[i + 1..];
      assert l0[i + 2..] == l[i + 1..];
      assert MergeNext(g, l0, i) == l[..i] + [l[i]] + l[i + 1..];
    } else {
      assert l0 == l[..i] + [l[i]] + l[i + 1..];
    }
    assert l[..i] + [l[i]] + l[i + 1..] == l;
  }

  /** With nothing allocated the heap is a single block of everything but its header. */
  lemma AllFreeIsOne(g: Geometry, l: Layout, managed: nat)
    requires LayoutOk(g, l, managed) && forall b :: b in l ==> b.free
    ensures l == [Block(managed - g.header, 0, true)]
  {
    assert |l| > 1 ==> !(l[1 - 1].free && l[1].free);
    forall i | 0 <= i < |l|
      ensures l[i].free && BlockOk(g, l[i])
    {
      assert l[i] in l;
    }
    assert l[..0] == [];
    assert Span(g, l) == g.header + l[0].payload;
  }

  // ---------------------------------------------------------------------------
  // Histories
  // ---------------------------------------------------------------------------

  datatype Operation = Allocate(requested: nat) | Free(p: nat)

  /** The layout, and how many allocations have succeeded and not been freed. */
  datatype Heap = Heap(layout: Layout, live: int)

  function Perform(g: Geometry, h: Heap, op: Operation): Heap
    requires g.alignment > 0
  {
    match op
    case Allocate(n) =>
      var (l, r) := Alloc(g, h.layout, n);
      Heap(l, if r.Some? then h.live + 1 else h.live)
    case Free(p) =>
      var i := Find(g, h.layout, p, 0);
      if i == |h.layout| || h.layout[i].free then h else Heap(FreeAt(g, h.layout, i), h.live - 1)
  }

  function History(g: Geometry, h: Heap, ops: seq<Operation>): Heap
    requires g.alignment > 0
    decreases |ops|
  {
    if ops == [] then h else History(g, Perform(g, h, ops[0]), ops[1..])
  }

  /** Number of blocks in use. */
  function Used(l: Layout): nat {
    if l == [] then 0 else Used(l[..|l| - 1]) + if l[|l| - 1].free then 0 else 1
  }

  lemma {:induction false} UsedSum(a: Layout, b: Layout)
    ensures Used(a + b) == Used(a) + Used(b)
    decreases |b|
  {
    if b == [] {
      assert a + b == a;
    } else {
      UsedSum(a, b[..|b| - 1]);
      assert (a + b)[..|a + b| - 1] == a + b[..|b| - 1];
    }
  }

  lemma UsedReplaced(l: Layout, i: nat, j: nat, mid: Layout)
    requires i <= j <= |l|
    ensures Used(l[..i] + mid + l[j..]) == Used(l) - Used(l[i..j]) + Used(mid)
  {
    UsedSum(l[..i] + mid, l[j..]);
    UsedSum(l[..i], mid);
    assert l == l[..i] + l[i..j] + l[j..];
    UsedSum(l[..i] + l[i..j], l[j..]);
    UsedSum(l[..i], l[i..j]);
  }

  lemma UsedPair(a: Block, b: Block)
    ensures Used([a]) == (if a.free then 0 else 1) && Used([a, b]) == Used([a]) + (if b.free then 0 else 1)
  {
    assert [a][..0] == [] && [a, b][..1] == [a];
  }

  lemma AllocUses(g: Geometry, l: Layout, requested: nat)
    requires g.alignment > 0
    ensures Used(Alloc(g, l, requested).0) == Used(l) + if Alloc(g, l, requested).1.Some? then 1 else 0
  {
    hide Used, AlignUp;
    var bytes := AlignUp(requested, g.alignment);
    var i := FirstFit(l, bytes, 0);
    if i < |l| {
      var s := Split(g, l[i], bytes, requested);
      UsedReplaced(l, i, i + 1, s);
      assert l[i..i + 1] == [l[i]];
      UsedPair(l[i], l[i]);
      UsedPair(s[0], s[|s| - 1]);
    }
  }

  lemma MergeUses(g: Geometry, l: Layout, i: nat)
    requires i < |l| && l[i].free
    ensures Used(MergeNext(g, l, i)) == Used(l)
  {
    hide Used, MergeNext;
    MergeIs(g, l, i);
    if i + 1 < |l| && l[i + 1].free {
      PairUses(l, i, l[i].(payload := l[i].payload + g.header + l[i + 1].payload));
    }
  }

  lemma MergeIs(g: Geometry, l: Layout, i: nat)
    requires i < |l|
    ensures MergeNext(g, l, i) ==
      if i + 1 < |l| && l[i + 1].free
      then l[..i] + [l[i].(payload := l[i].payload + g.header + l[i + 1].payload)] + l[i + 2..]
      else l
  {
  }

  lemma PairUses(l: Layout, i: nat, c: Block)
    requires i + 1 < |l| && l[i].free && l[i + 1].free && c.free
    ensures Used(l[..i] + [c] + l[i + 2..]) == Used(l)
  {
    hide Used;
    UsedReplaced(l, i, i + 2, [c]);
    assert l[i..i + 2] == [l[i], l[i + 1]];
    UsedPair(l[i], l[i + 1]);
    UsedPair(c, c);
  }

  lemma FreeUses(g: Geometry, l: Layout, i: nat)
    requires i < |l| && !l[i].free
    ensures Used(FreeAt(g, l, i)) == Used(l) - 1
  {
    hide Used;
    var b := Block(l[i].payload, 0, true);
    assert l[i := b] == l[..i] + [b] + l[i + 1..];
    UsedReplaced(l, i, i + 1, [b]);
    assert l[i..i + 1] == [l[i]];
    UsedPair(l[i], b);
    UsedPair(b, b);
    var l1 := MergeNext(g, l[i := b], i);
    MergeUses(g, l[i := b], i);
    if i > 0 && l1[i - 1].free {
      MergeUses(g, l1, i - 1);
    }
  }

  /** Every history keeps the heap well formed and the number of used blocks equal to the number
      of live allocations. */
  lemma {:induction false} HistoryOk(g: Geometry, h: Heap, managed: nat, ops: seq<Operation>)
    requires LayoutOk(g, h.layout, managed) && h.live == Used(h.layout)
    ensures LayoutOk(g, History(g, h, ops).layout, managed)
    ensures History(g, h, ops).live == Used(History(g, h, ops).layout)
    decreases |ops|
  {
    hide LayoutOk, Used, Alloc, FreeAt;
    GeometryKnown(g, h.layout, managed);
    if ops != [] {
      var h1 := Perform(g, h, ops[0]);
      match ops[0]
      case Allocate(n) =>
        AllocOk(g, h.layout, managed, n);
        AllocUses(g, h.layout, n);
        HistoryOk(g, h1, managed, ops[1..]);
      case Free(p) =>
        var i := Find(g, h.layout, p, 0);
        if i < |h.layout| && !h.layout[i].free {
          FreeOk(g, h.layout, managed, i);
          FreeUses(g, h.layout, i);
        }
        HistoryOk(g, h1, managed, ops[1..]);
    }
  }

  lemma GeometryKnown(g: Geometry, l: Layout, managed: nat)
    requires LayoutOk(g, l, managed)
    ensures g.alignment > 0 && g.header > 0
  {
  }

  lemma {:induction false} NoneUsed(l: Layout)
    requires Used(l) == 0
    ensures forall b :: b in l ==> b.free
  {
    if l != [] {
      NoneUsed(l[..|l| - 1]);
      assert l == l[..|l| - 1] + [l[|l| - 1]];
    }
  }

  lemma OneBlock(g: Geometry, managed: nat, p: nat)
    requires GeometryOk(g) && g.header + g.alignment <= managed && managed % g.alignment == 0 && p == managed - g.header
    ensures LayoutOk(g, [Block(p, 0, true)], managed) && Used([Block(p, 0, true)]) == 0
  {
    AlignedDifference(managed, g.header, g.alignment);
    assert p % g.alignment == 0;
    var l := [Block(p, 0, true)];
    assert l[..0] == [];
    assert l[0].payload == p && BlockOk(g, l[0]);
    assert Span(g, l) == managed;
  }

  /** A heap that starts as one free block is that block again whenever nothing is allocated. */
  lemma NothingLive(g: Geometry, managed: nat, ops: seq<Operation>)
    requires GeometryOk(g) && g.header + g.alignment <= managed && managed % g.alignment == 0
    requires History(g, Heap([Block(managed - g.header, 0, true)], 0), ops).live == 0
    ensures History(g, Heap([Block(managed - g.header, 0, true)], 0), ops).layout ==
      [Block(managed - g.header, 0, true)]
  {
    hide Alloc, FreeAt, History;
    var l := [Block(managed - g.header, 0, true)];
    OneBlock(g, managed, managed - g.header);
    HistoryOk(g, Heap(l, 0), managed, ops);
    NoneUsed(History(g, Heap(l, 0), ops).layout);
    AllFreeIsOne(g, History(g, Heap(l, 0), ops).layout, managed);
  }

  // ---------------------------------------------------------------------------
  // Live pointers
  // ---------------------------------------------------------------------------

  /** What a caller knows of a live allocation: its pointer and the size requested. */
  datatype Note = Note(p: nat, requested: nat)

  /** The notes without those of one pointer. */
  function Less(notes: set<Note>, p: nat): set<Note> {
    set x | x in notes && x.p != p
  }

  /** The used blocks of a layout that begins at `base`. */
  function Uses(g: Geometry, l: Layout, base: nat): set<Note> {
    if l == [] then {}
    else
      var last := l[|l| - 1];
      var rest := l[..|l| - 1];
      Uses(g, rest, base) + if last.free then {} else {Note(base + Span(g, rest) + g.header, last.requested)}
  }

  lemma {:induction false} UsesSum(g: Geometry, a: Layout, b: Layout, base: nat)
    ensures Uses(g, a + b, base) == Uses(g, a, base) + Uses(g, b, base + Span(g, a))
    decreases |b|
  {
    hide Span;
    if b == [] {
      assert a + b == a;
    } else {
      var rest := b[..|b| - 1];
      UsesSum(g, a, rest, base);
      assert (a + b)[..|a + b| - 1] == a + rest;
      SpanSum(g, a, rest);
    }
  }

  lemma UsesOne(g: Geometry, b: Block, base: nat)
    ensures Uses(g, [b], base) == if b.free then {} else {Note(base + g.header, b.requested)}
    ensures Span(g, [b]) == g.header + b.payload
  {
    assert [b][..0] == [];
  }

  /** Pointers lie behind the header of their block and inside the blocks. */
  lemma {:induction false} UsesBounds(g: Geometry, l: Layout, base: nat, x: Note)
    requires g.header > 0 && x in Uses(g, l, base)
    ensures base + g.header <= x.p < base + Span(g, l) + g.header
  {
    if x in Uses(g, l[..|l| - 1], base) {
      UsesBounds(g, l[..|l| - 1], base, x);
    }
  }

  /** The used blocks around a stretch that is replaced by another of the same size. */
  lemma UsesReplaced(g: Geometry, l: Layout, i: nat, j: nat, mid: Layout)
    requires i <= j <= |l| && Span(g, mid) == Span(g, l[i..j])
    ensures Uses(g, l, 0) == Uses(g, l[..i], 0) + Uses(g, l[i..j], Addr(g, l, i)) + Uses(g, l[j..], Addr(g, l, j))
    ensures Uses(g, l[..i] + mid + l[j..], 0) ==
      Uses(g, l[..i], 0) + Uses(g, mid, Addr(g, l, i)) + Uses(g, l[j..], Addr(g, l, j))
  {
    hide Uses, Span;
    assert l == l[..i] + l[i..j] + l[j..];
    assert l[..i] + l[i..j] == l[..j];
    UsesSum(g, l[..i] + l[i..j], l[j..], 0);
    UsesSum(g, l[..i], l[i..j], 0);
    UsesSum(g, l[..i] + mid, l[j..], 0);
    UsesSum(g, l[..i], mid, 0);
    SpanSum(g, l[..i], l[i..j]);
    SpanSum(g, l[..i], mid);
  }

  lemma AllocNotes(g: Geometry, l: Layout, requested: nat)
    requires g.alignment > 0 && Alloc(g, l, requested).1.Some?
    ensures var (l', r) := Alloc(g, l, requested);
      r.value < |l'| && Uses(g, l', 0) == Uses(g, l, 0) + {Note(Addr(g, l', r.value) + g.header, requested)}
  {
    hide Uses, Span, AlignUp;
    var bytes := AlignUp(requested, g.alignment);
    var (l', r) := Alloc(g, l, requested);
    var i := r.value;
    var s := Split(g, l[i], bytes, requested);
    assert l[i..i + 1] == [l[i]];
    SpanSplit(g, l[i], bytes, requested);
    UsesReplaced(g, l, i, i + 1, s);
    UsesOne(g, l[i], Addr(g, l, i));
    UsesOne(g, s[0], Addr(g, l, i));
    if |s| == 2 {
      UsesSum(g, [s[0]], [s[1]], Addr(g, l, i));
      UsesOne(g, s[1], Addr(g, l, i) + Span(g, [s[0]]));
      assert s == [s[0]] + [s[1]];
    } else {
      assert s == [s[0]];
    }
    assert l'[..i] == l[..i];
  }

  lemma MergeNotes(g: Geometry, l: Layout, i: nat)
    requires i < |l| && l[i].free
    ensures Uses(g, MergeNext(g, l, i), 0) == Uses(g, l, 0)
  {
    hide Uses, Span, MergeNext;
    MergeIs(g, l, i);
    if i + 1 < |l| && l[i + 1].free {
      var c := l[i].(payload := l[i].payload + g.header + l[i + 1].payload);
      var at := Addr(g, l, i);
      assert l[i..i + 2] == [l[i]] + [l[i + 1]] == [l[i], l[i + 1]];
      SpanPair(g, l[i], l[i + 1]);
      UsesReplaced(g, l, i, i + 2, [c]);
      UsesSum(g, [l[i]], [l[i + 1]], at);
      UsesOne(g, l[i], at);
      UsesOne(g, l[i + 1], at + Span(g, [l[i]]));
      UsesOne(g, c, at);
    }
  }

  lemma MarkNotes(g: Geometry, l: Layout, i: nat)
    requires g.header > 0 && i < |l| && !l[i].free
    ensures Note(Addr(g, l, i) + g.header, l[i].requested) in Uses(g, l, 0)
    ensures Uses(g, l[i := Block(l[i].payload, 0, true)], 0) ==
      Less(Uses(g, l, 0), Addr(g, l, i) + g.header)
  {
    hide Uses, Span;
    var b := Block(l[i].payload, 0, true);
    var at := Addr(g, l, i);
    assert l[i := b] == l[..i] + [b] + l[i + 1..] && l[i..i + 1] == [l[i]];
    UsesOne(g, l[i], at);
    UsesOne(g, b, at);
    UsesReplaced(g, l, i, i + 1, [b]);
    AddrNext(g, l, i);
    forall x | x in Uses(g, l[..i], 0)
      ensures x.p != at + g.header
    {
      UsesBounds(g, l[..i], 0, x);
    }
    forall x | x in Uses(g, l[i + 1..], Addr(g, l, i + 1))
      ensures x.p != at + g.header
    {
      UsesBounds(g, l[i + 1..], Addr(g, l, i + 1), x);
    }
  }

  lemma FreeNotes(g: Geometry, l: Layout, i: nat)
    requires g.header > 0 && i < |l| && !l[i].free
    ensures Uses(g, FreeAt(g, l, i), 0) == Less(Uses(g, l, 0), Addr(g, l, i) + g.header)
  {
    hide Uses, Span, Addr, Less, MergeNext;
    var l0 := l[i := Block(l[i].payload, 0, true)];
    MarkNotes(g, l, i);
    MergeNotes(g, l0, i);
    var l1 := MergeNext(g, l0, i);
    if i > 0 && l1[i - 1].free {
      MergeNotes(g, l1, i - 1);
    }
  }

  /** The pointer an allocation returns. */
  function Pointer(g: Geometry, l: Layout, requested: nat): Option<nat>
    requires g.alignment > 0
  {
    var (l', r) := Alloc(g, l, requested);
    if r.Some? && r.value < |l'| then Some(Addr(g, l', r.value) + g.header) else None
  }

  /** Whether freeing `p` succeeds. */
  predicate Frees(g: Geometry, l: Layout, p: nat) {
    var i := Find(g, l, p, 0);
    i < |l| && !l[i].free
  }

  /** A caller's notes: what allocations returned, less what was freed. */
  function Notes(g: Geometry, h: Heap, notes: set<Note>, ops: seq<Operation>): set<Note>
    requires g.alignment > 0
    decreases |ops|
  {
    if ops == [] then notes
    else
      var after :=
        match ops[0]
        case Allocate(n) =>
          var p := Pointer(g, h.layout, n);
          if p.Some? then notes + {Note(p.value, n)} else notes
        case Free(p) => if Frees(g, h.layout, p) then Less(notes, p) else notes;
      Notes(g, Perform(g, h, ops[0]), after, ops[1..])
  }

  /** After every history the used blocks are exactly the allocations that were returned and not
      freed since, each where and as large as it was returned. */
  lemma {:induction false} LiveBlocks(g: Geometry, h: Heap, managed: nat, ops: seq<Operation>)
    requires LayoutOk(g, h.layout, managed)
    ensures Notes(g, h, Uses(g, h.layout, 0), ops) == Uses(g, History(g, h, ops).layout, 0)
    decreases |ops|
  {
    hide LayoutOk, Uses, Alloc, FreeAt, Addr, Less;
    GeometryKnown(g, h.layout, managed);
    if ops != [] {
      match ops[0] {
        case Allocate(n) =>
          AllocOk(g, h.layout, managed, n);
          if Alloc(g, h.layout, n).1.Some? {
            AllocNotes(g, h.layout, n);
          }
        case Free(p) =>
          var i := Find(g, h.layout, p, 0);
          if i < |h.layout| && !h.layout[i].free {
            FreeOk(g, h.layout, managed, i);
            FreeNotes(g, h.layout, i);
          }
      }
      LiveBlocks(g, Perform(g, h, ops[0]), managed, ops[1..]);
    }
  }

  /** A used block is found by its pointer and no other pointer is. */
  lemma {:induction false} UsedIsFound(g: Geometry, l: Layout, n: nat, x: Note)
    requires n <= |l|
    ensures x in Uses(g, l[..n], 0) <==>
      exists i: nat :: i < n && !l[i].free && Addr(g, l, i) + g.header == x.p && l[i].requested == x.requested
    decreases n
  {
    hide Span;
    if n > 0 {
      UsedIsFound(g, l, n - 1, x);
      assert l[..n][..n - 1] == l[..n - 1];
      if x in Uses(g, l[..n], 0) && x !in Uses(g, l[..n - 1], 0) {
        assert !l[n - 1].free && Addr(g, l, n - 1) + g.header == x.p;
      }
    }
  }

  /** After every history a pointer can be freed exactly if it is live, and a live pointer points
      to the payload of a used block of the size it was requested with. */
  lemma LivePointers(g: Geometry, managed: nat, ops: seq<Operation>, p: nat)
    requires GeometryOk(g) && g.header + g.alignment <= managed && managed % g.alignment == 0
    ensures var h := Heap([Block(managed - g.header, 0, true)], 0);
      var l := History(g, h, ops).layout;
      var notes := Notes(g, h, {}, ops);
      && (Frees(g, l, p) <==> exists n: nat :: Note(p, n) in notes)
      && (forall n: nat :: Note(p, n) in notes ==>
            var i := Find(g, l, p, 0);
            i < |l| && !l[i].free && l[i].requested == n <= l[i].payload)
  {
    hide History, Uses, Span, Addr;
    var h := Heap([Block(managed - g.header, 0, true)], 0);
    OneBlock(g, managed, managed - g.header);
    HistoryOk(g, h, managed, ops);
    LiveBlocks(g, h, managed, ops);
    UsesOne(g, h.layout[0], 0);
    var l := History(g, h, ops).layout;
    var i := Find(g, l, p, 0);
    assert l[..|l|] == l;
    forall n: nat
      ensures Note(p, n) in Notes(g, h, {}, ops) <==> i < |l| && !l[i].free && l[i].requested == n
    {
      UsedIsFound(g, l, |l|, Note(p, n));
      forall j: nat | j < |l| && Addr(g, l, j) + g.header == p
        ensures j == i
      {
        if i < j {
          AddrMonotone(g, l, i, j);
        }
      }
    }
    if i < |l| {
      assert BlockOk(g, l[i]);
      if !l[i].free {
        assert Note(p, l[i].requested) in Notes(g, h, {}, ops);
      }
    }
  }

  // ---------------------------------------------------------------------------
  // What an allocation takes
  // ---------------------------------------------------------------------------

  /** An allocation from a block with room for one more gives away exactly the rounded request and
      leaves the rest, less one header, as a free block behind it; from a smaller block it gives away
      the whole. No other block changes. */
  lemma AllocTakes(g: Geometry, l: Layout, requested: nat)
    requires g.alignment > 0 && Alloc(g, l, requested).1.Some?
    ensures var (l', r) := Alloc(g, l, requested);
      var i := r.value;
      var bytes := AlignUp(requested, g.alignment);
      && i < |l| && l[i].free && bytes <= l[i].payload && l'[..i] == l[..i]
      && (if l[i].payload >= bytes + g.header + g.alignment
          then l'[i..] == [Block(bytes, requested, false), Block(l[i].payload - bytes - g.header, 0, true)] + l[i + 1..]
          else l'[i..] == [Block(l[i].payload, requested, false)] + l[i + 1..])
  {
    hide AlignUp;
  }

  /** No used block is so large that a free one could have been split off. */
  predicate Tight(g: Geometry, l: Layout)
    requires g.alignment > 0
  {
    forall i: nat :: i < |l| && !l[i].free ==>
      l[i].payload < AlignUp(l[i].requested, g.alignment) + g.header + g.alignment
  }

  lemma AllocTight(g: Geometry, l: Layout, requested: nat)
    requires g.alignment > 0 && Tight(g, l)
    ensures Tight(g, Alloc(g, l, requested).0)
  {
    hide AlignUp;
    var (l', r) := Alloc(g, l, requested);
    if r.Some? {
      hide Alloc;
      AllocTakes(g, l, requested);
      var i := r.value;
      forall j: nat | j < |l'| && !l'[j].free
        ensures l'[j].payload < AlignUp(l'[j].requested, g.alignment) + g.header + g.alignment
      {
        if j < i {
          assert l'[j] == l'[..i][j] == l[j];
        } else {
          assert l'[j] == l'[i..][j - i];
        }
      }
    }
  }

  lemma MergeTight(g: Geometry, l: Layout, i: nat)
    requires g.alignment > 0 && Tight(g, l) && i < |l| && l[i].free
    ensures Tight(g, MergeNext(g, l, i))
  {
    hide AlignUp;
  }

  lemma FreeTight(g: Geometry, l: Layout, i: nat)
    requires g.alignment > 0 && Tight(g, l) && i < |l|
    ensures Tight(g, FreeAt(g, l, i))
  {
    hide MergeNext, AlignUp;
    var l0 := l[i := Block(l[i].payload, 0, true)];
    MergeTight(g, l0, i);
    var l1 := MergeNext(g, l0, i);
    if i > 0 && l1[i - 1].free {
      MergeTight(g, l1, i - 1);
    }
  }

  lemma {:induction false} HistoryTight(g: Geometry, h: Heap, ops: seq<Operation>)
    requires g.alignment > 0 && Tight(g, h.layout)
    ensures Tight(g, History(g, h, ops).layout)
    decreases |ops|
  {
    hide Tight, Alloc, FreeAt;
    if ops != [] {
      match ops[0] {
        case Allocate(n) => AllocTight(g, h.layout, n);
        case Free(p) =>
          var i := Find(g, h.layout, p, 0);
          if i < |h.layout| {
            FreeTight(g, h.layout, i);
          }
      }
      HistoryTight(g, Perform(g, h, ops[0]), ops[1..]);
    }
  }

  /** After every history each used block holds its request and wastes less than what a further block
      would need, so that memory is refused only when it is really taken. */
  lemma NoWaste(g: Geometry, managed: nat, ops: seq<Operation>, i: nat)
    requires GeometryOk(g) && g.header + g.alignment <= managed && managed % g.alignment == 0
    requires var l := History(g, Heap([Block(managed - g.header, 0, true)], 0), ops).layout; i < |l| && !l[i].free
    ensures var b := History(g, Heap([Block(managed - g.header, 0, true)], 0), ops).layout[i];
      0 < b.requested <= b.payload < AlignUp(b.requested, g.alignment) + g.header + g.alignment
  {
    hide History, AlignUp, Span;
    var h := Heap([Block(managed - g.header, 0, true)], 0);
    OneBlock(g, managed, managed - g.header);
    HistoryOk(g, h, managed, ops);
    HistoryTight(g, h, ops);
    assert BlockOk(g, History(g, h, ops).layout[i]);
  }
}
