/**
 A queue's storage: fixed-size items copied byte by byte into a ring of slots. Compared with
 the plain sequence of buffered items.
 */
module RingBuffer {
  import opened Config
  import opened Arithmetic
  import opened KernelModel

  /** The bytes of slot `i`. */
  function SlotOf(bytes: seq<int>, size: nat, i: nat): Item
    requires i * size + size <= |bytes|
  {
    bytes[i * size..i * size + size]
  }

  lemma SlotInside(i: nat, capacity: nat, size: nat)
    requires i < capacity
    ensures i * size + size <= capacity * size
  {
    Gap(size, capacity, i);
  }

  lemma SlotsApart(i: nat, j: nat, size: nat)
    requires i != j
    ensures i * size + size <= j * size || j * size + size <= i * size
  {
    if i < j {
      Gap(size, j, i);
    } else {
      Gap(size, i, j);
    }
  }

  /** The slot that holds the `i`-th item behind `head`. */
  function Wrap(head: nat, i: nat, capacity: nat): (r: nat)
    requires head < capacity && i <= capacity
    ensures r < capacity
  {
    if head + i < capacity then head + i else head + i - capacity
  }

  lemma WrapIsModulo(head: nat, i: nat, capacity: nat)
    requires head < capacity && i <= capacity
    ensures (head + i) % capacity == Wrap(head, i, capacity)
  {
    if head + i < capacity {
      Quotient(head + i, capacity, 0, head + i);
    } else {
      Quotient(head + i, capacity, 1, head + i - capacity);
    }
  }

  /** Slots `head`, `head + 1`, ... modulo the capacity hold `items`. */
  ghost predicate RingIs(bytes: seq<int>, size: nat, capacity: nat, head: nat, items: seq<Item>) {
    && |bytes| == capacity * size && head < capacity && |items| <= capacity
    && forall i: nat :: i < |items| ==> SlotHolds(bytes, size, Wrap(head, i, capacity), items[i])
  }

  ghost predicate SlotHolds(bytes: seq<int>, size: nat, i: nat, item: Item) {
    i * size + size <= |bytes| && SlotOf(bytes, size, i) == item
  }

  /** Writing one slot leaves the others as they are. */
  lemma OtherSlots(bytes: seq<int>, bytes': seq<int>, size: nat, i: nat, j: nat, item: Item)
    requires i != j && |bytes'| == |bytes| && SlotHolds(bytes, size, j, item)
    requires forall p: nat :: p < |bytes| && (p < i * size || p >= i * size + size) ==> bytes'[p] == bytes[p]
    ensures SlotHolds(bytes', size, j, item)
  {
    SlotsApart(i, j, size);
  }

  lemma WrapDiffers(head: nat, i: nat, j: nat, capacity: nat)
    requires head < capacity && i < j < capacity
    ensures Wrap(head, i, capacity) != Wrap(head, j, capacity)
  {
  }

  class RingBuffer {
    const storage: array<int>
    const size: nat
    const capacity: nat
    var head: nat
    var tail: nat
    var count: nat
    ghost var items: seq<Item>

    ghost predicate Valid()
      reads this, storage
    {
      && capacity > 0 && count == |items| && (forall i: nat :: i < |items| ==> |items[i]| == size)
      && RingIs(storage[..], size, capacity, head, items)
      && tail == Wrap(head, count, capacity)
    }

    constructor (itemSize: nat, slots: nat)
      requires itemSize > 0 && slots > 0
      ensures Valid() && fresh(storage) && items == [] && size == itemSize && capacity == slots
    {
      storage := new int[slots * itemSize];
      size, capacity := itemSize, slots;
      head, tail, count, items := 0, 0, 0, [];
    }

    /** Copy an item's bytes to `base`. */
    method CopyIn(base: nat, item: Item)
      requires base + size <= storage.Length && |item| == size
      modifies storage
      ensures storage[base..base + size] == item
      ensures forall p: nat :: p < storage.Length && (p < base || p >= base + size) ==> storage[p] == old(storage[p])
    {
      var index := 0;
      while index < size
        invariant 0 <= index <= size && storage[base..base + index] == item[..index]
        invariant forall p: nat :: p < storage.Length && (p < base || p >= base + size) ==>
          storage[p] == old(storage[p])
      {
        storage[base + index] := item[index];
        assert storage[base..base + index + 1] == storage[base..base + index] + [item[index]];
        index := index + 1;
      }
    }

    method CopyOut(base: nat) returns (item: Item)
      requires base + size <= storage.Length
      ensures item == storage[base..base + size]
    {
      item := [];
      var index := 0;
      while index < size
        invariant 0 <= index <= size && item == storage[base..base + index]
      {
        item := item + [storage[base + index]];
        index := index + 1;
      }
    }

    /** Append an item behind the last one; the buffer must have room. */
    method Push(item: Item)
      requires Valid() && count < capacity && |item| == size
      modifies this, storage
      ensures Valid() && items == old(items) + [item]
    {
      SlotInside(tail, capacity, size);
      ghost var was := storage[..];
      CopyIn(tail * size, item);
      ghost var slot := tail;
      assert storage[..][slot * size..slot * size + size] == storage[slot * size..slot * size + size];
      WrapIsModulo(tail, 1, capacity);
      tail := (tail + 1) % capacity;
      count := count + 1;
      items := items + [item];
      forall i: nat | i < |items|
        ensures SlotHolds(storage[..], size, Wrap(head, i, capacity), items[i])
      {
        if i < |items| - 1 {
          assert SlotHolds(was, size, Wrap(head, i, capacity), items[i]);
          WrapDiffers(head, i, |items| - 1, capacity);
          OtherSlots(was, storage[..], size, slot, Wrap(head, i, capacity), items[i]);
        }
      }
    }

    /** Take the oldest item. */
    method Pop() returns (item: Item)
      requires Valid() && count > 0
      modifies this
      ensures Valid() && item == old(items)[0] && items == old(items)[1..]
    {
      assert SlotHolds(storage[..], size, Wrap(head, 0, capacity), items[0]);
      item := CopyOut(head * size);
      assert storage[..][head * size..head * size + size] == storage[head * size..head * size + size];
      WrapIsModulo(head, 1, capacity);
      ghost var was := items;
      ghost var from := head;
      head := (head + 1) % capacity;
      count := count - 1;
      items := items[1..];
      forall i: nat | i < |items|
        ensures SlotHolds(storage[..], size, Wrap(head, i, capacity), items[i])
      {
        assert SlotHolds(storage[..], size, Wrap(from, i + 1, capacity), was[i + 1]);
      }
    }
  }
}
