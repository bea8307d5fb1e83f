/** The ring that cuts a stream into 256-frame blocks, and serves as the engine's output queue. */
module BlockScheduling {
  import opened Arithmetic
  import opened Rings

  const BLOCK_FRAMES: nat := 256
  const SIZE_MAX: nat := 0xFFFF_FFFF_FFFF_FFFF
  const MAX_CHANNELS: nat := 16

  /** `F` is a frame: the samples of every channel at one time. */
  class PlanarBlockScheduler<F(0)> {
    var ring: array<F>
    var channels: nat
    var capacity: nat
    var readIndex: nat
    var writeIndex: nat
    var count: nat

    ghost predicate Valid()
      reads this
    {
      && ring.Length == capacity
      && capacity % BLOCK_FRAMES == 0
      && count <= capacity
      && (capacity > 0 ==> readIndex < capacity && writeIndex == Slot(readIndex, count, capacity))
    }

    predicate IsPrepared()
      reads this
    {
      capacity > 0
    }

    /** The queued frames, oldest first. */
    ghost function Contents(): (queue: seq<F>)
      requires Valid()
      reads this, ring
      ensures |queue| == count
    {
      if capacity == 0 then [] else View(ring[..], readIndex, count)
    }

    /** Holds as long as frames leave only in whole blocks. */
    ghost predicate BlockAligned()
      reads this
    {
      readIndex % BLOCK_FRAMES == 0
    }

    constructor ()
      ensures Valid() && !IsPrepared() && Contents() == [] && fresh(ring)
    {
      ring := new F[0];
      channels, capacity, readIndex, writeIndex, count := 0, 0, 0, 0, 0;
    }

    method Prepare(channelCount: nat, capacityFrames: nat) returns (ok: bool)
      requires Valid()
      modifies this
      ensures ok <==> 0 < channelCount <= MAX_CHANNELS
                      && BLOCK_FRAMES <= capacityFrames <= SIZE_MAX - (BLOCK_FRAMES - 1)
      ensures Valid()
      ensures ok ==> IsPrepared() && fresh(ring) && Contents() == [] && BlockAligned()
                     && capacityFrames <= capacity < capacityFrames + BLOCK_FRAMES
      ensures !ok ==> unchanged(this)
    {
      if channelCount == 0 || channelCount > MAX_CHANNELS || capacityFrames < BLOCK_FRAMES {
        return false;
      }
      if capacityFrames > SIZE_MAX - (BLOCK_FRAMES - 1) {
        return false;
      }
      hide View;
      hide Slot;
      var rounded := (capacityFrames + BLOCK_FRAMES - 1) / BLOCK_FRAMES * BLOCK_FRAMES;
      assert capacityFrames <= rounded < capacityFrames + BLOCK_FRAMES && rounded % BLOCK_FRAMES == 0;
      ring := new F[rounded];
      channels := channelCount;
      capacity := rounded;
      readIndex, writeIndex, count := 0, 0, 0;
      ok := true;
      StartSlot(rounded);
    }

    method Reset()
      requires Valid()
      modifies this`readIndex, this`writeIndex, this`count
      ensures Valid() && Contents() == [] && BlockAligned()
    {
      readIndex, writeIndex, count := 0, 0, 0;
    }

    /** Appends all of `input`, or nothing when it does not fit. */
    method Push(input: seq<F>) returns (ok: bool)
      requires Valid()
      modifies this`writeIndex, this`count, ring
      ensures Valid()
      ensures ok <==> IsPrepared() && |input| <= capacity - old(count)
      ensures Contents() == if ok then old(Contents()) + input else old(Contents())
    {
      if !IsPrepared() || |input| > capacity - count {
        return false;
      }
      hide View;
      hide Slot;
      ok := true;
      if |input| == 0 {
        return;
      }
      WriteSlots(readIndex, count, |input|, capacity);
      var first := Min(|input|, capacity - writeIndex);
      ghost var before := Contents();
      CopyIn(writeIndex, 0, input[..first]);
      CopyIn(0, first, input[first..]);
      writeIndex := (writeIndex + |input|) % capacity;
      count := count + |input|;
      assert input[..first] + input[first..] == input;
    }

    /** One `memcpy` into the ring: frames `done..` after the queue's end go to slots `at..`. */
    method CopyIn(at: nat, done: nat, source: seq<F>)
      requires Valid() && IsPrepared()
      requires at + |source| <= capacity && count + done + |source| <= capacity
      requires source != [] ==> at == Slot(readIndex, count + done, capacity)
      modifies ring
      ensures View(ring[..], readIndex, count + done + |source|)
           == old(View(ring[..], readIndex, count + done)) + source
    {
      ghost var store := ring[..];
      forall k | 0 <= k < |source| {
        ring[at + k] := source[k];
      }
      if source != [] {
        ViewCopy(store, ring[..], readIndex, count + done, source);
      }
    }

    /** Removes the oldest `frames` frames, or nothing when there are not that many. */
    method Pop(frames: nat) returns (ok: bool, output: seq<F>)
      requires Valid()
      modifies this`readIndex, this`count
      ensures Valid()
      ensures ok <==> IsPrepared() && frames <= old(count)
      ensures ok ==> output == old(Contents())[..frames] && Contents() == old(Contents())[frames..]
      ensures !ok ==> output == [] && Contents() == old(Contents())
      ensures old(BlockAligned()) && frames % BLOCK_FRAMES == 0 ==> BlockAligned()
    {
      hide View;
      hide Slot;
      if !IsPrepared() || frames > count {
        return false, [];
      }
      if frames == 0 {
        return true, [];
      }
      ok := true;
      var first := Min(frames, capacity - readIndex);
      var second := frames - first;
      output := ring[readIndex..readIndex + first] + ring[..second];
      ViewFront(ring[..], readIndex, count, frames);
      Advance(frames);
    }

    method Advance(frames: nat)
      requires Valid() && IsPrepared() && frames <= count
      modifies this`readIndex, this`count
      ensures Valid() && Contents() == old(Contents())[frames..]
      ensures old(BlockAligned()) && frames % BLOCK_FRAMES == 0 ==> BlockAligned()
    {
      hide View;
      ViewDrop(ring[..], readIndex, count, frames);
      SlotIsModulo(readIndex, frames, capacity);
      SlotsAdvance(readIndex, frames, count, capacity);
      hide Slot;
      readIndex := (readIndex + frames) % capacity;
      count := count - frames;
    }

    predicate HasBlock()
      reads this
    {
      count >= BLOCK_FRAMES
    }

    /**
      The next block, read in place. What the source hands out is a span of 256 frames of the
      backing store; alignment is what keeps that span inside the store and in queue order.
    */
    function ChannelBlock(): (block: seq<F>)
      requires Valid() && HasBlock() && BlockAligned()
      reads this, ring
      ensures block == Contents()[..BLOCK_FRAMES]
    {
      assert readIndex + BLOCK_FRAMES <= capacity;
      var block := ring[readIndex..readIndex + BLOCK_FRAMES];
      assert block == View(ring[..], readIndex, count)[..BLOCK_FRAMES];
      block
    }

    method ConsumeBlock()
      requires Valid()
      modifies this`readIndex, this`count
      ensures Valid()
      ensures Contents() == old(if HasBlock() then Contents()[BLOCK_FRAMES..] else Contents())
      ensures old(BlockAligned()) ==> BlockAligned()
    {
      if !HasBlock() {
        return;
      }
      Advance(BLOCK_FRAMES);
    }
  }

  lemma StartSlot(size: nat)
    requires size > 0
    ensures Slot(0, 0, size) == 0
  {
  }

  /** Where the two copies of a push start, and where the next push will. */
  lemma WriteSlots(start: nat, count: nat, added: nat, size: nat)
    requires start < size && count + added <= size
    ensures var write := Slot(start, count, size);
            && (write + added) % size == Slot(start, count + added, size)
            && (added > size - write ==> Slot(start, count + (size - write), size) == 0)
            && (added > 0 ==> count < size)
  {
    SlotIsModulo(start, count + added, size);
    SlotIsModulo(Slot(start, count, size), added, size);
  }

  /** Moving the read index leaves the write index where it is, and whole blocks keep it at a block boundary. */
  lemma SlotsAdvance(start: nat, frames: nat, count: nat, capacity: nat)
    requires frames <= count <= capacity && start < capacity && capacity % BLOCK_FRAMES == 0
    ensures Slot(start, frames, capacity) < capacity
    ensures Slot(Slot(start, frames, capacity), count - frames, capacity) == Slot(start, count, capacity)
    ensures start % BLOCK_FRAMES == 0 && frames % BLOCK_FRAMES == 0 ==>
              Slot(start, frames, capacity) % BLOCK_FRAMES == 0
  {
    if start % BLOCK_FRAMES == 0 && frames % BLOCK_FRAMES == 0 {
      var s, f, c := start / BLOCK_FRAMES, frames / BLOCK_FRAMES, capacity / BLOCK_FRAMES;
      var blocks := if start + frames < capacity then s + f else s + f - c;
      assert Slot(start, frames, capacity) == blocks * BLOCK_FRAMES;
      BlocksAreAligned(blocks);
    }
  }

  lemma BlocksAreAligned(blocks: int)
    ensures blocks * BLOCK_FRAMES % BLOCK_FRAMES == 0
  {
  }
}
