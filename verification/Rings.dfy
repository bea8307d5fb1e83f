/** What a circular buffer holds, read off the backing store in queue order. */
module Rings {
  import opened Arithmetic

  /** The `count` elements that start at slot `start` of the ring `store`. */
  function View<T>(store: seq<T>, start: nat, count: nat): (view: seq<T>)
    requires start < |store| && count <= |store|
    ensures |view| == count
  {
    seq(count, k requires 0 <= k < count => store[Slot(start, k, |store|)])
  }

  /** Writing the slot after the last element appends to the view. */
  lemma ViewAppend<T>(store: seq<T>, start: nat, count: nat, x: T)
    requires start < |store| && count < |store|
    ensures View(store[(start + count) % |store| := x], start, count + 1) == View(store, start, count) + [x]
  {
    SlotIsModulo(start, count, |store|);
    var updated := store[Slot(start, count, |store|) := x];
    forall k | 0 <= k < count
      ensures updated[Slot(start, k, |store|)] == store[Slot(start, k, |store|)]
    {
    }
  }

  /** Advancing the start slot drops elements from the front of the view. */
  lemma ViewDrop<T>(store: seq<T>, start: nat, count: nat, dropped: nat)
    requires start < |store| && dropped <= count <= |store|
    ensures (start + dropped) % |store| < |store|
    ensures View(store, (start + dropped) % |store|, count - dropped) == View(store, start, count)[dropped..]
  {
    SlotIsModulo(start, dropped, |store|);
    forall k | 0 <= k < count - dropped
      ensures Slot(Slot(start, dropped, |store|), k, |store|) == Slot(start, dropped + k, |store|)
    {
    }
  }

  /** The front of the view is one or two contiguous stretches of the backing store. */
  lemma ViewFront<T>(store: seq<T>, start: nat, count: nat, taken: nat)
    requires start < |store| && taken <= count <= |store|
    ensures var first := Min(taken, |store| - start);
            View(store, start, count)[..taken] == store[start..start + first] + store[..taken - first]
  {
    var first := Min(taken, |store| - start);
    forall k | 0 <= k < taken
      ensures store[Slot(start, k, |store|)] == (store[start..start + first] + store[..taken - first])[k]
    {
    }
  }

  /** Copying a stretch into the slots after the last element appends it to the view. */
  lemma ViewCopy<T>(store: seq<T>, updated: seq<T>, start: nat, count: nat, source: seq<T>)
    requires start < |store| == |updated| && count + |source| <= |store| && 0 < |source|
    requires var at := Slot(start, count, |store|);
             && at + |source| <= |store|
             && (forall i | 0 <= i < |store| ::
                   updated[i] == if at <= i < at + |source| then source[i - at] else store[i])
    ensures View(updated, start, count + |source|) == View(store, start, count) + source
  {
    var at := Slot(start, count, |store|);
    forall k | 0 <= k < count + |source|
      ensures updated[Slot(start, k, |store|)] == (View(store, start, count) + source)[k]
    {
      if k >= count {
        assert Slot(start, k, |store|) == at + (k - count);
      }
    }
  }

  /** Overwriting the slot of one element changes that element only. */
  lemma ViewUpdate<T>(store: seq<T>, start: nat, count: nat, k: nat, x: T)
    requires start < |store| && k < count <= |store|
    ensures View(store[Slot(start, k, |store|) := x], start, count) == View(store, start, count)[k := x]
  {
  }

  /** Seen from a later start, a full ring is the same elements rotated. */
  lemma ViewRotate<T>(store: seq<T>, start: nat, shift: nat)
    requires start < |store| && shift <= |store|
    ensures var view, later := View(store, start, |store|), Slot(start, shift, |store|);
            View(store, later, |store|) == view[shift..] + view[..shift]
  {
    var view, later := View(store, start, |store|), Slot(start, shift, |store|);
    forall k | 0 <= k < |store|
      ensures View(store, later, |store|)[k] == (view[shift..] + view[..shift])[k]
    {
    }
  }

  /** An absolute position `k` places after `origin` lies in the slot `k` places after `origin`'s. */
  lemma PositionSlot(origin: nat, k: nat, size: nat)
    requires size > 0 && k <= size
    ensures origin % size < size && (origin + k) % size == Slot(origin % size, k, size)
  {
    var q, r := origin / size, origin % size;
    assert origin == size * q + r;
    if r + k < size {
      DivModUnique(origin + k, size, q, r + k);
    } else {
      assert size * (q + 1) == size * q + size;
      DivModUnique(origin + k, size, q + 1, r + k - size);
    }
  }
}
