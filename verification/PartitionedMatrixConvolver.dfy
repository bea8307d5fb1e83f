/** The streaming, partitioned convolver: input and output blocks, a delay line of spectra, one kernel. */
module MatrixConvolving {
  import opened Arithmetic
  import opened Resampling
  import opened Convolution

  const OUTPUTS: nat := 2

  predicate IsPowerOfTwo(n: nat) {
    n == 1 || (n > 1 && n % 2 == 0 && IsPowerOfTwo(n / 2))
  }

  // ---------------------------------------------------------------- the delay line of one channel

  /** Where the spectrum lies that was current `age` blocks before block `b` began. */
  function AgeSlot(b: nat, age: nat, size: nat): (slot: nat)
    requires size > 0
    ensures slot < size
  {
    (b - 1 - age) % size
  }

  /** The delay line of channel `c` holds the windows of the last blocks before block `b`. */
  ghost predicate Remembers<S(!new)>(fft: Fft<S>, line: seq<S>, h: seq<Frame>, c: nat, b: nat, p: nat)
    requires |line| > 0
  {
    forall age: nat | age < |line| :: RemembersAge(fft, line, h, c, b, p, age)
  }

  ghost predicate RemembersAge<S(!new)>(fft: Fft<S>, line: seq<S>, h: seq<Frame>, c: nat, b: nat, p: nat, age: nat)
    requires |line| > 0
  {
    line[AgeSlot(b, age, |line|)] == fft.forward(Window(h, c, (b - 2 - age) * p, 2 * p))
  }

  lemma AgeSlotShifts(b: nat, age: nat, size: nat)
    requires size > 0 && age < size
    ensures AgeSlot(b + 1, 0, size) == b % size
    ensures AgeSlot(b + 1, age, size) == (b % size + size - age) % size
    ensures age > 0 ==> AgeSlot(b + 1, age, size) == AgeSlot(b, age - 1, size) != b % size
  {
    ModShift(b, age, size);
    if 0 < age && (b - age) % size == b % size {
      var q, r := b / size, (b - age) / size;
      assert age == size * (q - r);
      assert q - r >= 1 || q - r <= 0;
      if q - r >= 1 {
        MulMonotone(1, q - r, size);
      } else {
        MulMonotone(0, r - q, size);
      }
      assert false;
    }
  }

  lemma ModShift(b: nat, age: nat, size: nat)
    requires size > 0 && age < size
    ensures (b - age) % size == (b % size + size - age) % size
  {
    var x, y := b - age, b % size + size - age;
    assert y == x + size * (1 - b / size);
    ModPlusMultiple(x, size, 1 - b / size);
  }

  lemma ModPlusMultiple(x: int, size: nat, k: int)
    requires size > 0
    ensures (x + size * k) % size == x % size
  {
    var q, r := x / size, x % size;
    assert x + size * k == size * (q + k) + r;
    RemainderUnique(x + size * k, size, q + k, r);
  }

  lemma RemainderUnique(x: int, b: nat, q: int, r: nat)
    requires b > 0 && x == b * q + r && r < b
    ensures x % b == r
  {
    var q', r' := x / b, x % b;
    assert b * (q - q') == r' - r;
    if q > q' {
      MulMonotone(1, q - q', b);
    } else if q < q' {
      MulMonotone(1, q' - q, b);
    }
  }

  /** Storing the newest window in the slot of the oldest keeps the delay line right. */
  lemma RemembersNext<S(!new)>(fft: Fft<S>, line: seq<S>, h: seq<Frame>, block: seq<Frame>, c: nat, b: nat, p: nat)
    requires |line| > 0 && |h| == b * p && |block| == p && Remembers(fft, line, h, c, b, p)
    ensures Remembers(fft, line[b % |line| := fft.forward(Window(h + block, c, (b - 1) * p, 2 * p))],
                      h + block, c, b + 1, p)
  {
    var n := |line|;
    var updated := line[b % n := fft.forward(Window(h + block, c, (b - 1) * p, 2 * p))];
    var longer, next := h + block, b + 1;
    forall age: nat | age < n
      ensures RemembersAge(fft, updated, longer, c, next, p, age)
    {
      AgeSlotShifts(b, age, n);
      if age > 0 {
        assert RemembersAge(fft, line, h, c, b, p, age - 1);
        assert (b - 1 - age) * p + 2 * p <= b * p by {
          MulMonotone(1, age, p);
        }
        WindowIsCausal(h, block, c, (b - 1 - age) * p, 2 * p);
      }
    }
  }

  // ---------------------------------------------------------------- the accumulation

  /**
    The convolver's answer for one output: every channel's windows against its kernel segments, newest
    window first. `segments` counts how many of channel `channels` are already in.
  */
  ghost predicate Accumulates<S(!new)>(fft: Fft<S>, acc: S, h: seq<Frame>, rows: seq<seq<real>>, start: int, p: nat,
                                       channels: nat, offset: nat)
    requires channels <= |rows|
  {
    |fft.backward(acc)| == 2 * p &&
    forall i: nat | i < p :: AccumulatesAt(fft, acc, h, rows, start, p, channels, offset, i)
  }

  ghost predicate AccumulatesAt<S(!new)>(fft: Fft<S>, acc: S, h: seq<Frame>, rows: seq<seq<real>>, start: int, p: nat,
                                         channels: nat, offset: nat, i: nat)
    requires channels <= |rows| && |fft.backward(acc)| == 2 * p && i < p
  {
    fft.backward(acc)[p + i]
      == Direct(h, rows, start + p + i, channels)
         + (if channels < |rows| then Fir(h, channels, rows[channels], start + p + i, offset) else 0.0)
  }

  lemma AccumulatesNone<S(!new)>(fft: Fft<S>, h: seq<Frame>, rows: seq<seq<real>>, start: int, p: nat)
    requires p > 0 && fft.Lawful(2 * p)
    ensures Accumulates(fft, fft.zero, h, rows, start, p, 0, 0)
  {
    var acc := fft.zero;
    forall i: nat | i < p
      ensures AccumulatesAt(fft, acc, h, rows, start, p, 0, 0, i)
    {
      assert fft.backward(acc)[p + i] == 0.0;
    }
  }

  lemma AccumulatesSegment<S(!new)>(fft: Fft<S>, acc: S, h: seq<Frame>, rows: seq<seq<real>>, start: int, p: nat,
                                    c: nat, offset: nat)
    requires p > 0 && fft.Lawful(2 * p) && c < |rows|
    requires Accumulates(fft, acc, h, rows, start, p, c, offset)
    ensures Accumulates(fft,
                        fft.accumulate(acc, fft.forward(Window(h, c, start - offset, 2 * p)),
                                       fft.forward(Segment(rows[c], offset, p)), 1.0 / (2 * p) as real),
                        h, rows, start, p, c, offset + p)
  {
    hide Fft.Lawful;
    var x, y := Window(h, c, start - offset, 2 * p), Segment(rows[c], offset, p);
    var next, further := fft.accumulate(acc, fft.forward(x), fft.forward(y), 1.0 / (2 * p) as real), offset + p;
    fft.AccumulateScaled(2 * p, acc, x, y, 0);
    forall i: nat | i < p
      ensures AccumulatesAt(fft, next, h, rows, start, p, c, further, i)
    {
      assert AccumulatesAt(fft, acc, h, rows, start, p, c, offset, i);
      fft.AccumulateScaled(2 * p, acc, x, y, p + i);
      UpperHalf(h, c, rows[c], start, offset, p, i, 2 * p);
    }
  }

  /** After its last segment a channel's share of the filter is complete. */
  lemma AccumulatesChannel<S(!new)>(fft: Fft<S>, acc: S, h: seq<Frame>, rows: seq<seq<real>>, start: int, p: nat,
                                    c: nat, offset: nat)
    requires c < |rows| && |rows[c]| <= offset
    requires Accumulates(fft, acc, h, rows, start, p, c, offset)
    ensures Accumulates(fft, acc, h, rows, start, p, c + 1, 0)
  {
    var next := c + 1;
    forall i: nat | i < p
      ensures AccumulatesAt(fft, acc, h, rows, start, p, next, 0, i)
    {
      assert AccumulatesAt(fft, acc, h, rows, start, p, c, offset, i);
      FirPastEnd(h, c, rows[c], start + p + i, offset);
    }
  }

  // ---------------------------------------------------------------- the impulse responses

  /** The impulse response from input `c` to `output`, cut out of the flat table. */
  function Row(table: seq<real>, output: nat, c: nat, channels: nat, frames: nat): (row: seq<real>)
    requires |table| == OUTPUTS * channels * frames && output < OUTPUTS && c < channels
    ensures |row| == frames
  {
    ResponseInTable(output, c, channels, frames);
    table[(output * channels + c) * frames..(output * channels + c) * frames + frames]
  }

  lemma ResponseInTable(output: nat, c: nat, channels: nat, frames: nat)
    requires output < OUTPUTS && c < channels
    ensures (output * channels + c) * frames + frames <= OUTPUTS * channels * frames
  {
    MulMonotone(output * channels + c + 1, OUTPUTS * channels, frames);
    assert (output * channels + c + 1) * frames == (output * channels + c) * frames + frames;
  }

  /** Every impulse response, by output and input. */
  function Rows(table: seq<real>, channels: nat, frames: nat): (rows: seq<seq<seq<real>>>)
    requires |table| == OUTPUTS * channels * frames
    ensures |rows| == OUTPUTS && forall o | 0 <= o < OUTPUTS :: |rows[o]| == channels
  {
    seq(OUTPUTS, o requires 0 <= o < OUTPUTS =>
      seq(channels, c requires 0 <= c < channels => Row(table, o, c, channels, frames)))
  }

  /** What the convolver puts out at absolute frame `t`: the direct filter, one partition late. */
  function Delayed(h: seq<Frame>, rows: seq<seq<seq<real>>>, p: nat, t: nat): Frame {
    seq(|rows|, o requires 0 <= o < |rows| =>
      if t < p then 0.0 else Direct(h, rows[o], t - p, |rows[o]|))
  }

  // ---------------------------------------------------------------- what that is, on the flat table

  /** What channel `c` adds at time `t`: the frames `k` before, times the coefficients from `base` on. */
  function Share(h: seq<Frame>, table: seq<real>, base: nat, frames: nat, t: int, c: nat): real {
    Sum(frames, (k: nat) => Sample(h, t - k, c) * Tap(table, base + k))
  }

  /** Where the coefficients for output `o` and channel `c` begin in the flat table. */
  function Base(o: nat, c: nat, channels: nat, frames: nat): nat {
    (o * channels + c) * frames
  }

  /** Output `o` at absolute frame `t`: all channels together, one partition late. */
  function Convolved(h: seq<Frame>, table: seq<real>, channels: nat, frames: nat, p: nat, t: nat, o: nat): real {
    if t < p then 0.0 else Sum(channels, (c: nat) => Share(h, table, Base(o, c, channels, frames), frames, t - p, c))
  }

  lemma ShareIsSum(h: seq<Frame>, table: seq<real>, base: nat, frames: nat, t: int, c: nat, term: nat -> real)
    requires forall k: nat | k < frames :: term(k) == Sample(h, t - k, c) * Tap(table, base + k)
    ensures Share(h, table, base, frames, t, c) == Sum(frames, term)
  {
    SumsAlike(frames, term, (k: nat) => Sample(h, t - k, c) * Tap(table, base + k));
  }

  lemma ConvolvedIsSum(h: seq<Frame>, table: seq<real>, channels: nat, frames: nat, p: nat, t: nat, o: nat,
                       share: nat -> real)
    requires p <= t
    requires forall c: nat | c < channels :: share(c) == Share(h, table, Base(o, c, channels, frames), frames, t - p, c)
    ensures Convolved(h, table, channels, frames, p, t, o) == Sum(channels, share)
  {
    hide Share;
    hide Base;
    SumsAlike(channels, share, (c: nat) => Share(h, table, Base(o, c, channels, frames), frames, t - p, c));
  }

  lemma DelayedIsConvolved(h: seq<Frame>, table: seq<real>, channels: nat, frames: nat, p: nat, t: nat, o: nat)
    requires |table| == OUTPUTS * channels * frames && o < OUTPUTS
    ensures var out := Delayed(h, Rows(table, channels, frames), p, t);
            |out| == OUTPUTS && out[o] == Convolved(h, table, channels, frames, p, t, o)
  {
    hide Share;
    hide Base;
    hide Rows;
    var rows := Rows(table, channels, frames)[o];
    if t >= p {
      var share := (c: nat) => Share(h, table, Base(o, c, channels, frames), frames, t - p, c);
      forall c: nat | c < channels
        ensures |rows[c]| == frames && share(c) == Fir(h, c, rows[c], t - p, frames)
      {
        RowIsSlice(table, channels, frames, o, c);
        ShareIsFir(h, table, Base(o, c, channels, frames), frames, t - p, c);
      }
      DirectIsSum(h, rows, t - p, channels, share);
      ConvolvedIsSum(h, table, channels, frames, p, t, o, share);
    }
  }

  /** Both outputs at absolute frame `t`. */
  ghost predicate IsConvolved(out: Frame, h: seq<Frame>, table: seq<real>, channels: nat, frames: nat, p: nat, t: nat) {
    |out| == OUTPUTS && forall o | 0 <= o < OUTPUTS :: out[o] == Convolved(h, table, channels, frames, p, t, o)
  }

  lemma DelayedMeans(h: seq<Frame>, table: seq<real>, channels: nat, frames: nat, p: nat, t: nat)
    requires |table| == OUTPUTS * channels * frames
    ensures IsConvolved(Delayed(h, Rows(table, channels, frames), p, t), h, table, channels, frames, p, t)
  {
    hide Delayed;
    hide Convolved;
    hide Rows;
    forall o | 0 <= o < OUTPUTS
      ensures var out := Delayed(h, Rows(table, channels, frames), p, t);
              |out| == OUTPUTS && out[o] == Convolved(h, table, channels, frames, p, t, o)
    {
      DelayedIsConvolved(h, table, channels, frames, p, t, o);
    }
    DelayedIsConvolved(h, table, channels, frames, p, t, 0);
  }

  lemma RowsAreSized(table: seq<real>, channels: nat, frames: nat)
    requires |table| == OUTPUTS * channels * frames
    ensures var rows := Rows(table, channels, frames);
            |rows| == OUTPUTS && forall o, c | 0 <= o < OUTPUTS && 0 <= c < channels :: |rows[o][c]| == frames
  {
    hide Row;
  }

  lemma RowIsSlice(table: seq<real>, channels: nat, frames: nat, o: nat, c: nat)
    requires |table| == OUTPUTS * channels * frames && o < OUTPUTS && c < channels
    ensures var base := Base(o, c, channels, frames);
            && base + frames <= |table| && Rows(table, channels, frames)[o][c] == table[base..base + frames]
  {
    ResponseInTable(o, c, channels, frames);
  }

  lemma ShareIsFir(h: seq<Frame>, table: seq<real>, base: nat, frames: nat, t: int, c: nat)
    requires base + frames <= |table|
    ensures Share(h, table, base, frames, t, c) == Fir(h, c, table[base..base + frames], t, frames)
  {
    hide Share;
    var row := table[base..base + frames];
    var term := (k: nat) => Sample(h, t - k, c) * Tap(row, k);
    forall k: nat | k < frames
      ensures Tap(table, base + k) == Tap(row, k)
    {
      assert row[k] == table[base + k];
    }
    ShareIsSum(h, table, base, frames, t, c, term);
    FirIsSum(h, c, row, t, frames, term);
  }

  /** A single coefficient, for output `o`, channel `c` and delay `k`, passes that channel on to that output, delayed by a
      partition and `k`, and nothing else. */
  lemma ImpulseReaches(h: seq<Frame>, table: seq<real>, channels: nat, frames: nat, p: nat, t: nat, out: nat,
                       o: nat, c: nat, k: nat)
    requires |table| == OUTPUTS * channels * frames && o < OUTPUTS && c < channels && k < frames && out < OUTPUTS
    requires forall i | 0 <= i < |h| :: |h[i]| == channels
    requires forall i | 0 <= i < |table| :: i != (o * channels + c) * frames + k ==> table[i] == 0.0
    ensures (o * channels + c) * frames + k < |table|
    ensures Convolved(h, table, channels, frames, p, t, out)
         == if out == o && 0 <= t - p - k < |h| then h[t - p - k][c] * table[(o * channels + c) * frames + k] else 0.0
  {
    ResponseInTable(o, c, channels, frames);
    if t >= p {
      ImpulseReachesAt(h, table, channels, frames, p, t, out, o, c, k, (o * channels + c) * frames + k);
    }
  }

  lemma ImpulseReachesAt(h: seq<Frame>, table: seq<real>, channels: nat, frames: nat, p: nat, t: nat, out: nat,
                         o: nat, c: nat, k: nat, cell: nat)
    requires c < channels && k < frames && p <= t && cell == Base(o, c, channels, frames) + k < |table|
    requires forall i | 0 <= i < |h| :: |h[i]| == channels
    requires forall i | 0 <= i < |table| :: i != cell ==> table[i] == 0.0
    ensures Convolved(h, table, channels, frames, p, t, out)
         == if out == o && 0 <= t - p - k < |h| then h[t - p - k][c] * table[cell] else 0.0
  {
    SampleIs(h, t - p - k, c, channels);
    assert Tap(table, cell) == table[cell];
    hide *;
    forall d: nat | d < channels
      ensures Share(h, table, Base(out, d, channels, frames), frames, t - p, d)
           == if out == o && d == c then Sample(h, t - p - k, c) * Tap(table, cell) else 0.0
    {
      OneShare(h, table, channels, frames, t - p, out, d, o, c, k, cell);
    }
    OnlyShare(h, table, channels, frames, p, t, out, out == o, c, Sample(h, t - p - k, c) * Tap(table, cell));
  }

  lemma OnlyShare(h: seq<Frame>, table: seq<real>, channels: nat, frames: nat, p: nat, t: nat, out: nat,
                  hit: bool, c: nat, only: real)
    requires c < channels && p <= t
    requires forall d: nat | d < channels ::
               Share(h, table, Base(out, d, channels, frames), frames, t - p, d) == if hit && d == c then only else 0.0
    ensures Convolved(h, table, channels, frames, p, t, out) == if hit then only else 0.0
  {
    hide *;
    var share := (d: nat) => if hit && d == c then only else 0.0;
    ConvolvedIsSum(h, table, channels, frames, p, t, out, share);
    SumOfOne(channels, share, if hit then c else channels);
  }

  lemma OneShare(h: seq<Frame>, table: seq<real>, channels: nat, frames: nat, t: int, out: nat, d: nat,
                 o: nat, c: nat, k: nat, cell: nat)
    requires c < channels && d < channels && k < frames && cell == Base(o, c, channels, frames) + k
    requires forall i | 0 <= i < |table| :: i != cell ==> table[i] == 0.0
    ensures Share(h, table, Base(out, d, channels, frames), frames, t, d)
         == if out == o && d == c then Sample(h, t - k, c) * Tap(table, cell) else 0.0
  {
    hide *;
    var base := Base(out, d, channels, frames);
    OtherTaps(table, out, d, o, c, k, channels, frames, cell, base);
    OneTap(h, table, base, frames, t, d, out == o && d == c, k);
  }

  predicate Misses(table: seq<real>, base: nat, j: nat) {
    Tap(table, base + j) == 0.0
  }

  lemma OneTap(h: seq<Frame>, table: seq<real>, base: nat, frames: nat, t: int, d: nat, hit: bool, k: nat)
    requires k < frames
    requires forall j: nat | j < frames && !(hit && j == k) :: Misses(table, base, j)
    ensures Share(h, table, base, frames, t, d) == if hit then Sample(h, t - k, d) * Tap(table, base + k) else 0.0
  {
    hide Sample;
    hide Tap;
    hide Share;
    hide Sum;
    var term := (j: nat) => Sample(h, t - j, d) * Tap(table, base + j);
    var only := if hit then k else frames;
    forall j: nat | j < frames && j != only
      ensures term(j) == 0.0
    {
      assert Misses(table, base, j);
    }
    ShareIsSum(h, table, base, frames, t, d, term);
    SumOfOne(frames, term, only);
  }

  /** Different outputs, channels or delays have different places in the table. */
  lemma OtherTaps(table: seq<real>, out: nat, d: nat, o: nat, c: nat, k: nat, channels: nat, frames: nat, cell: nat,
                  base: nat)
    requires c < channels && d < channels && k < frames && cell == Base(o, c, channels, frames) + k
    requires base == Base(out, d, channels, frames)
    requires forall i | 0 <= i < |table| :: i != cell ==> table[i] == 0.0
    ensures forall j: nat | j < frames && !(out == o && d == c && j == k) :: Misses(table, base, j)
    ensures out == o && d == c ==> base + k == cell
  {
    forall j: nat | j < frames && !(out == o && d == c && j == k)
      ensures Misses(table, base, j)
    {
      CellsDiffer(out, d, j, o, c, k, channels, frames);
      assert base + j != cell;
    }
  }

  lemma CellsDiffer(out: nat, d: nat, j: nat, o: nat, c: nat, k: nat, channels: nat, frames: nat)
    requires c < channels && d < channels && k < frames && j < frames && !(out == o && d == c && j == k)
    ensures (out * channels + d) * frames + j != (o * channels + c) * frames + k
  {
    var a, b := out * channels + d, o * channels + c;
    if a * frames + j == b * frames + k {
      PairUnique(a, j, b, k, frames);
      PairUnique(out, d, o, c, channels);
    }
  }

  lemma PairUnique(a: nat, b: nat, a': nat, b': nat, size: nat)
    requires b < size && b' < size && a * size + b == a' * size + b'
    ensures a == a' && b == b'
  {
    if a < a' {
      MulMonotone(a + 1, a', size);
    } else if a' < a {
      MulMonotone(a' + 1, a, size);
    }
  }

  // ---------------------------------------------------------------- the convolver

  class PartitionedMatrixConvolver<S(!new)> {
    const fft: Fft<S>
    var prepared: bool
    var inputChannels: nat
    var irFrames: nat
    var partition: nat
    var segmentCount: nat
    var delayLineIndex: nat
    var inputFill: nat
    var outputIndex: nat
    /** One row per output and input channel, and per channel or output, of the source's flat buffers. */
    var kernelSpectra: array2<seq<S>>
    var inputHistory: array<seq<S>>
    var overlap: array<seq<real>>
    var inputBlock: array<seq<real>>
    var outputBlock: array<seq<real>>

    /** The impulse responses as given and by output and input, the input in whole blocks, and the block being filled. */
    ghost var table: seq<real>
    ghost var rows: seq<seq<seq<real>>>
    ghost var blocks: nat
    ghost var done: seq<Frame>
    ghost var filling: seq<Frame>

    ghost predicate FromTable()
      reads this`table, this`rows, this`inputChannels, this`irFrames
    {
      |table| == OUTPUTS * inputChannels * irFrames && rows == Rows(table, inputChannels, irFrames)
    }

    ghost predicate Sized()
      reads this`partition, this`irFrames, this`segmentCount, this`table, this`rows, this`inputChannels, this`kernelSpectra,
            this`inputHistory, this`overlap, this`inputBlock, this`outputBlock
    {
      && FromTable()
      && 0 < partition && 0 < irFrames && 0 < segmentCount == CeilDiv(irFrames, partition)
      && irFrames <= segmentCount * partition
      && fft.Lawful(2 * partition)
      && |rows| == OUTPUTS
      && (forall o | 0 <= o < OUTPUTS :: |rows[o]| == inputChannels)
      && (forall o, c | 0 <= o < OUTPUTS && 0 <= c < inputChannels :: |rows[o][c]| == irFrames)
      && HasBuffers(inputChannels)
    }

    ghost predicate HasBuffers(channels: nat)
      reads this`kernelSpectra, this`inputHistory, this`overlap, this`inputBlock, this`outputBlock
    {
      && kernelSpectra.Length0 == OUTPUTS && kernelSpectra.Length1 == channels
      && inputHistory.Length == overlap.Length == inputBlock.Length == channels
      && outputBlock.Length == OUTPUTS
      && overlap != inputBlock && overlap != outputBlock && inputBlock != outputBlock
      && (inputHistory as object) !in {overlap, inputBlock, outputBlock}
    }

    lemma SizedIsPositive()
      requires Sized()
      ensures 0 < partition && 0 < segmentCount
    {
    }

    ghost predicate KernelHolds()
      requires Sized()
      reads this`partition, this`irFrames, this`segmentCount, this`table, this`rows, this`inputChannels, this`kernelSpectra,
            this`inputHistory, this`overlap, this`inputBlock, this`outputBlock, kernelSpectra
    {
      forall o, c | 0 <= o < OUTPUTS && 0 <= c < inputChannels ::
        IsKernel(fft, kernelSpectra[o, c], rows[o][c], segmentCount, partition)
    }

    ghost predicate DelayHolds(h: seq<Frame>, b: nat)
      requires Sized()
      reads this`partition, this`irFrames, this`segmentCount, this`table, this`rows, this`inputChannels, this`kernelSpectra,
            this`inputHistory, this`overlap, this`inputBlock, this`outputBlock, inputHistory, overlap
    {
      forall c | 0 <= c < inputChannels ::
        ChannelHolds(fft, inputHistory[c], overlap[c], h, c, b, segmentCount, partition)
    }

    ghost predicate FillingHolds()
      requires Sized()
      reads this`partition, this`irFrames, this`segmentCount, this`table, this`rows, this`inputChannels, this`kernelSpectra,
            this`inputHistory, this`overlap, this`inputBlock, this`outputBlock, this`filling, inputBlock
    {
      && |filling| <= partition
      && (forall c | 0 <= c < inputChannels ::
            |inputBlock[c]| == partition
            && inputBlock[c][..|filling|] == Window(filling, c, 0, |filling|))
    }

    ghost predicate OutputHolds(h: seq<Frame>, b: nat)
      requires Sized()
      reads this`partition, this`irFrames, this`segmentCount, this`table, this`rows, this`inputChannels, this`kernelSpectra,
            this`inputHistory, this`overlap, this`inputBlock, this`outputBlock, outputBlock
    {
      forall o | 0 <= o < OUTPUTS :: IsOutput(outputBlock[o], h, rows[o], (b - 1) * partition, partition)
    }

    ghost predicate Valid()
      reads this, kernelSpectra, inputHistory, overlap, inputBlock, outputBlock
    {
      prepared ==>
        && Sized() && KernelHolds()
        && |done| == blocks * partition && delayLineIndex == blocks % segmentCount
        && DelayHolds(done, blocks)
        && inputFill == |filling| < partition && FillingHolds()
        && outputIndex == (if blocks == 0 then partition else inputFill)
        && (blocks > 0 ==> OutputHolds(done, blocks))
    }

    ghost function History(): seq<Frame>
      reads this
    {
      done + filling
    }

    constructor (transform: Fft<S>)
      ensures Valid() && !prepared && fft == transform
    {
      fft := transform;
      prepared := false;
      inputChannels, irFrames, partition, segmentCount := 0, 0, 0, 0;
      delayLineIndex, inputFill, outputIndex := 0, 0, 0;
      kernelSpectra := new seq<S>[0, 0];
      inputHistory := new seq<S>[0];
      overlap, inputBlock, outputBlock := new seq<real>[0], new seq<real>[0], new seq<real>[0];
      table, rows, blocks, done, filling := [], [], 0, [], [];
    }

    /** Builds the kernel spectra; a refused configuration leaves the convolver as it was. */
    method Prepare(channels: nat, responseFrames: nat, partitionFrames: nat, responses: seq<real>) returns (ok: bool)
      requires Valid() && |responses| == OUTPUTS * channels * responseFrames
      requires fft.Lawful(2 * partitionFrames)
      modifies this
      ensures ok <==> 0 < channels <= MAX_CHANNELS && 0 < responseFrames
                      && 64 <= partitionFrames <= 4096 && IsPowerOfTwo(partitionFrames)
      ensures Valid()
      ensures ok ==> prepared && History() == [] && table == responses && irFrames == responseFrames
                     && partition == partitionFrames && inputChannels == channels
      ensures !ok ==> unchanged(this)
    {
      hide Fft.Lawful;
      hide Row;
      hide IsKernel;
      if channels == 0 || channels > MAX_CHANNELS || responseFrames == 0
         || partitionFrames < 64 || partitionFrames > 4096 || !IsPowerOfTwo(partitionFrames) {
        return false;
      }
      ok := true;
      Allocate(channels, responseFrames, partitionFrames, responses);
      BuildKernels(responses);
      prepared := true;
      Reset();
    }

    method Allocate(channels: nat, responseFrames: nat, partitionFrames: nat, ghost responses: seq<real>)
      requires 0 < responseFrames && 64 <= partitionFrames && fft.Lawful(2 * partitionFrames)
      requires |responses| == OUTPUTS * channels * responseFrames
      modifies this
      ensures Sized() && table == responses
      ensures inputChannels == channels && irFrames == responseFrames && partition == partitionFrames
      ensures fresh(kernelSpectra) && fresh(inputHistory) && fresh(overlap) && fresh(inputBlock) && fresh(outputBlock)
    {
      hide Fft.Lawful;
      hide HasBuffers;
      hide FromTable;
      hide Rows;
      NewBuffers(channels);
      inputChannels, irFrames, partition := channels, responseFrames, partitionFrames;
      segmentCount := (responseFrames + partitionFrames - 1) / partitionFrames;
      table, rows := responses, Rows(responses, channels, responseFrames);
      CeilDivBounds(responseFrames, partitionFrames);
      RowsAreSized(responses, channels, responseFrames);
      HoldsTable();
    }

    lemma HoldsTable()
      requires |table| == OUTPUTS * inputChannels * irFrames && rows == Rows(table, inputChannels, irFrames)
      ensures FromTable()
    {
    }

    method NewBuffers(channels: nat)
      modifies `kernelSpectra, `inputHistory, `overlap, `inputBlock, `outputBlock
      ensures HasBuffers(channels)
      ensures fresh(kernelSpectra) && fresh(inputHistory) && fresh(overlap) && fresh(inputBlock) && fresh(outputBlock)
    {
      kernelSpectra := new seq<S>[OUTPUTS, channels]((o, c) => []);
      inputHistory := new seq<S>[channels](c => []);
      overlap := new seq<real>[channels](c => []);
      inputBlock := new seq<real>[channels](c => []);
      outputBlock := new seq<real>[OUTPUTS](o => []);
    }

    /** Cuts every impulse response into zero-padded segments and transforms them. */
    method BuildKernels(responses: seq<real>)
      requires Sized() && responses == table
      modifies kernelSpectra
      ensures KernelHolds()
    {
      hide Rows;
      hide Fft.Lawful;
      hide IsKernel;
      for output := 0 to OUTPUTS
        invariant forall o, c | 0 <= o < output && 0 <= c < inputChannels ::
                    IsKernel(fft, kernelSpectra[o, c], rows[o][c], segmentCount, partition)
      {
        for input := 0 to inputChannels
          invariant forall o, c | 0 <= o < output && 0 <= c < inputChannels ::
                      IsKernel(fft, kernelSpectra[o, c], rows[o][c], segmentCount, partition)
          invariant forall c | 0 <= c < input ::
                      IsKernel(fft, kernelSpectra[output, c], rows[output][c], segmentCount, partition)
        {
          var sourceBase := (output * inputChannels + input) * irFrames;
          ResponseInTable(output, input, inputChannels, irFrames);
          RowIsSlice(table, inputChannels, irFrames, output, input);
          var spectra := BuildKernel(responses[sourceBase..sourceBase + irFrames]);
          kernelSpectra[output, input] := spectra;
        }
      }
    }

    method BuildKernel(row: seq<real>) returns (spectra: seq<S>)
      requires Sized() && |row| == irFrames && 0 < irFrames
      ensures IsKernel(fft, spectra, row, segmentCount, partition)
    {
      hide FromTable;
      hide HasBuffers;
      hide Fft.Lawful;
      spectra := [];
      for segment := 0 to segmentCount
        invariant |spectra| == segment
        invariant forall s | 0 <= s < segment :: spectra[s] == fft.forward(Segment(row, s * partition, partition))
      {
        var offset := segment * partition;
        SegmentStarts(irFrames, segment, segmentCount, partition);
        var count := Min(partition, irFrames - offset);
        var fftInput := row[offset..offset + count] + Zeros(2 * partition - count);
        SegmentIsPadded(row, offset, partition, count);
        spectra := spectra + [fft.forward(fftInput)];
      }
    }

    method Reset()
      requires prepared ==> Sized() && KernelHolds()
      modifies `delayLineIndex, `outputIndex, `inputFill, `blocks, `done, `filling,
               inputHistory, overlap, inputBlock, outputBlock
      ensures Valid()
      ensures prepared ==> History() == []
    {
      if !prepared {
        return;
      }
      hide Valid;
      hide Sized;
      hide KernelHolds;
      hide DelayHolds;
      hide FillingHolds;
      hide OutputHolds;
      Rewind();
      ClearBuffers();
      StartsValid();
    }

    /** The counters' part of `Reset`. */
    method Rewind()
      requires Sized() && KernelHolds()
      modifies `delayLineIndex, `outputIndex, `inputFill, `blocks, `done, `filling
      ensures Sized() && KernelHolds()
      ensures done == filling == [] && blocks == delayLineIndex == inputFill == 0 && outputIndex == partition
    {
      hide Sized;
      hide KernelHolds;
      delayLineIndex := 0;
      inputFill := 0;
      outputIndex := partition;
      blocks, done, filling := 0, [], [];
    }

    lemma StartsValid()
      requires prepared && Sized() && KernelHolds() && DelayHolds([], 0) && FillingHolds()
      requires done == filling == [] && blocks == delayLineIndex == inputFill == 0 && outputIndex == partition
      ensures Valid()
    {
      hide Sized;
      hide KernelHolds;
      hide DelayHolds;
      hide FillingHolds;
      SizedIsPositive();
    }

    method ClearBuffers()
      requires Sized() && filling == []
      modifies inputHistory, overlap, inputBlock, outputBlock
      ensures DelayHolds([], 0) && FillingHolds()
    {
      hide FromTable;
      hide Fft.Lawful;
      for output := 0 to OUTPUTS {
        outputBlock[output] := Zeros(partition);
      }
      for input := 0 to inputChannels
        invariant forall c | 0 <= c < input ::
                    && ChannelHolds(fft, inputHistory[c], overlap[c], [], c, 0, segmentCount, partition)
                    && inputBlock[c] == Zeros(partition)
      {
        ChannelEmpty(fft, input, segmentCount, partition);
        inputHistory[input] := seq(segmentCount, _ => fft.zero);
        overlap[input] := Zeros(partition);
        inputBlock[input] := Zeros(partition);
      }
    }

    /** First loop of `ProcessBlock`: the newest window of every channel enters the delay line. */
    method TransformInput()
      requires Sized() && |filling| == partition && FillingHolds()
      requires |done| == blocks * partition && delayLineIndex == blocks % segmentCount
      requires DelayHolds(done, blocks)
      modifies inputHistory, overlap
      ensures DelayHolds(done + filling, blocks + 1)
    {
      hide FromTable;
      hide ChannelHolds;
      hide Fft.Lawful;
      ghost var longer, next := done + filling, blocks + 1;
      for input := 0 to inputChannels
        invariant forall c | input <= c < inputChannels ::
                    ChannelHolds(fft, inputHistory[c], overlap[c], done, c, blocks, segmentCount, partition)
        invariant forall c | 0 <= c < input ::
                    ChannelHolds(fft, inputHistory[c], overlap[c], longer, c, next, segmentCount, partition)
      {
        ChannelNext(fft, inputHistory[input], overlap[input], done, filling, input, blocks, segmentCount, partition);
        assert inputBlock[input] == Window(filling, input, 0, partition);
        var fftInput := overlap[input] + inputBlock[input];
        overlap[input] := inputBlock[input];
        inputHistory[input] := inputHistory[input][delayLineIndex := fft.forward(fftInput)];
      }
    }

    /** A full input block becomes a full output block. */
    method ProcessBlock()
      requires prepared && Sized() && KernelHolds()
      requires |done| == blocks * partition && delayLineIndex == blocks % segmentCount
      requires DelayHolds(done, blocks) && FillingHolds() && |filling| == partition == inputFill
      modifies `delayLineIndex, `outputIndex, `inputFill, `blocks, `done, `filling, inputHistory, overlap, outputBlock
      ensures Valid() && blocks == old(blocks) + 1 && done == old(done + filling) && filling == []
    {
      hide FromTable;
      hide IsOutput;
      hide ChannelHolds;
      hide IsKernel;
      TransformInput();
      ghost var h, b := done + filling, blocks + 1;
      for output := 0 to OUTPUTS
        modifies outputBlock
        invariant forall o | 0 <= o < output :: IsOutput(outputBlock[o], h, rows[o], (b - 1) * partition, partition)
      {
        ProcessOutput(output, h, b);
      }
      ModPlusOne(blocks, segmentCount);
      assert (blocks + 1) * partition == blocks * partition + partition;
      Finish(h);
    }

    /** The counters' part of `ProcessBlock`, and the caller's reset of the fill count. */
    method Finish(ghost h: seq<Frame>)
      requires prepared && Sized() && KernelHolds() && h == done + filling && |h| == (blocks + 1) * partition
      requires DelayHolds(h, blocks + 1) && OutputHolds(h, blocks + 1) && FillingHolds()
      requires (delayLineIndex + 1) % segmentCount == (blocks + 1) % segmentCount
      modifies `delayLineIndex, `outputIndex, `inputFill, `blocks, `done, `filling
      ensures Valid() && blocks == old(blocks) + 1 && done == h && filling == []
    {
      hide Sized;
      hide KernelHolds;
      hide DelayHolds;
      hide OutputHolds;
      SizedIsPositive();
      delayLineIndex := (delayLineIndex + 1) % segmentCount;
      outputIndex := 0;
      inputFill := 0;
      blocks, done, filling := blocks + 1, h, [];
    }

    /**
      Streams `input` through. Whatever the number of inputs, the length of the impulse responses and
      the split into calls, the output is the direct filter of the whole input history, one
      partition late: output `o` is every channel with its coefficients for `o` out of the flat table.
    */
    method Process(input: seq<Frame>) returns (ok: bool, output: seq<Frame>)
      requires Valid()
      requires forall frame <- input :: |frame| == inputChannels
      modifies `delayLineIndex, `outputIndex, `inputFill, `blocks, `done, `filling,
               inputHistory, overlap, inputBlock, outputBlock
      ensures Valid() && ok == prepared
      ensures ok ==> History() == old(History()) + input && |output| == |input|
      ensures ok ==> forall k | 0 <= k < |input| ::
                IsConvolved(output[k], History(), table, inputChannels, irFrames, partition, old(|History()|) + k)
      ensures !ok ==> output == [] && unchanged(this)
    {
      hide Valid;
      output := [];
      if !prepared {
        return false, [];
      }
      ok := true;
      ghost var before := History();
      ghost var all := before + input;
      ghost var coefficients, channels, taps, p := table, inputChannels, irFrames, partition;
      hide IsConvolved;
      for frame := 0 to |input|
        invariant Valid() && History() == before + input[..frame] && |output| == frame
        invariant forall k | 0 <= k < frame ::
                    IsConvolved(output[k], all, coefficients, channels, taps, p, |before| + k)
      {
        var out := ProcessFrame(input[frame], all);
        output := output + [out];
        assert input[..frame + 1] == input[..frame] + [input[frame]];
      }
      assert input[..|input|] == input;
    }

    lemma IsFromTable()
      requires prepared && Valid()
      ensures |table| == OUTPUTS * inputChannels * irFrames && rows == Rows(table, inputChannels, irFrames)
    {
    }

    /** One pass of the frame loop: the oldest finished output goes out, one input frame comes in. */
    method ProcessFrame(frame: Frame, ghost all: seq<Frame>) returns (out: Frame)
      requires prepared && Valid() && |frame| == inputChannels && History() <= all
      modifies `delayLineIndex, `outputIndex, `inputFill, `blocks, `done, `filling,
               inputHistory, overlap, inputBlock, outputBlock
      ensures Valid() && History() == old(History()) + [frame]
      ensures IsConvolved(out, all, table, inputChannels, irFrames, partition, old(|History()|))
    {
      IsFromTable();
      DelayedMeans(all, table, inputChannels, irFrames, partition, |History()|);
      hide IsConvolved;
      hide FromTable;
      hide Delayed;
      out := EmitFrame(all);
      TakeFrame(frame);
    }

    method EmitFrame(ghost all: seq<Frame>) returns (out: Frame)
      requires prepared && Valid() && History() <= all
      modifies `outputIndex
      ensures out == Delayed(all, rows, partition, |History()|)
      ensures outputIndex == if blocks == 0 then partition else inputFill + 1
    {
      hide FromTable;
      out := [];
      assert History() == done + filling;
      for channel := 0 to OUTPUTS
        modifies {}
        invariant |out| == channel
        invariant forall o | 0 <= o < channel :: out[o] == Delayed(all, rows, partition, |History()|)[o]
      {
        DelayedAt(done, all, rows, partition, blocks, inputFill, channel);
        out := out + [if outputIndex < partition then outputBlock[channel][outputIndex] else 0.0];
      }
      if outputIndex < partition {
        outputIndex := outputIndex + 1;
      }
    }

    method TakeFrame(frame: Frame)
      requires prepared && |frame| == inputChannels
      requires Sized() && KernelHolds() && |done| == blocks * partition && delayLineIndex == blocks % segmentCount
      requires DelayHolds(done, blocks) && inputFill == |filling| < partition && FillingHolds()
      requires outputIndex == (if blocks == 0 then partition else inputFill + 1)
      requires blocks > 0 ==> OutputHolds(done, blocks)
      modifies `delayLineIndex, `outputIndex, `inputFill, `blocks, `done, `filling,
               inputHistory, overlap, inputBlock, outputBlock
      ensures Valid() && History() == old(History()) + [frame]
    {
      hide FromTable;
      hide IsOutput;
      hide ChannelHolds;
      hide IsKernel;
      hide Fft.Lawful;
      StoreFrame(frame);
      if inputFill == partition {
        ProcessBlock();
      }
    }

    method StoreFrame(frame: Frame)
      requires Sized() && |frame| == inputChannels && inputFill == |filling| < partition && FillingHolds()
      modifies `inputFill, `filling, inputBlock
      ensures filling == old(filling) + [frame] && inputFill == |filling| && FillingHolds()
    {
      hide FromTable;
      for channel := 0 to inputChannels
        modifies inputBlock
        invariant forall c | 0 <= c < inputChannels :: |inputBlock[c]| == partition
                    && inputBlock[c][..|filling|] == Window(filling, c, 0, |filling|)
        invariant forall c | 0 <= c < channel :: inputBlock[c][|filling|] == frame[c]
      {
        inputBlock[channel] := inputBlock[channel][inputFill := frame[channel]];
      }
      forall c | 0 <= c < inputChannels
        ensures inputBlock[c][..|filling| + 1] == Window(filling + [frame], c, 0, |filling| + 1)
      {
        WindowAppend(filling, frame, c);
      }
      inputFill := inputFill + 1;
      filling := filling + [frame];
    }

    /** One output of `ProcessBlock`: all products accumulated, transformed back, upper half kept. */
    method ProcessOutput(output: nat, ghost h: seq<Frame>, ghost b: nat)
      requires Sized() && KernelHolds() && output < OUTPUTS && b > 0
      requires DelayHolds(h, b) && delayLineIndex == (b - 1) % segmentCount
      modifies outputBlock
      ensures IsOutput(outputBlock[output], h, rows[output], (b - 1) * partition, partition)
      ensures forall o | 0 <= o < OUTPUTS && o != output :: outputBlock[o] == old(outputBlock[o])
    {
      hide FromTable;
      hide Fft.Lawful;
      hide Accumulates;
      ghost var start := (b - 2) * partition;
      var accumulator := fft.zero;
      AccumulatesNone(fft, h, rows[output], start, partition);
      for input := 0 to inputChannels
        modifies {}
        invariant Accumulates(fft, accumulator, h, rows[output], start, partition, input, 0)
      {
        accumulator := AccumulateChannel(output, input, accumulator, h, b);
      }
      OutputFromAccumulator(fft, accumulator, h, rows[output], start, partition);
      assert start + partition == (b - 1) * partition;
      outputBlock[output] := fft.backward(accumulator)[partition..];
    }

    method AccumulateChannel(output: nat, input: nat, start: S, ghost h: seq<Frame>, ghost b: nat)
      returns (accumulator: S)
      requires Sized() && KernelHolds() && output < OUTPUTS && input < inputChannels && b > 0
      requires DelayHolds(h, b) && delayLineIndex == (b - 1) % segmentCount
      requires Accumulates(fft, start, h, rows[output], (b - 2) * partition, partition, input, 0)
      ensures Accumulates(fft, accumulator, h, rows[output], (b - 2) * partition, partition, input + 1, 0)
    {
      hide FromTable;
      hide Fft.Lawful;
      hide Accumulates;
      accumulator := start;
      var scale := 1.0 / (2 * partition) as real;
      for segment := 0 to segmentCount
        invariant Accumulates(fft, accumulator, h, rows[output], (b - 2) * partition, partition,
                              input, segment * partition)
      {
        AgeSlotShifts(b - 1, segment, segmentCount);
        var historySegment := (delayLineIndex + segmentCount - segment) % segmentCount;
        assert RemembersAge(fft, inputHistory[input], h, input, b, partition, segment);
        assert (b - 2 - segment) * partition == (b - 2) * partition - segment * partition;
        AccumulatesSegment(fft, accumulator, h, rows[output], (b - 2) * partition, partition,
                           input, segment * partition);
        accumulator := fft.accumulate(accumulator, inputHistory[input][historySegment],
                                      kernelSpectra[output, input][segment], scale);
        assert (segment + 1) * partition == segment * partition + partition;
      }
      AccumulatesChannel(fft, accumulator, h, rows[output], (b - 2) * partition, partition,
                         input, segmentCount * partition);
    }
  }

  lemma OutputFromAccumulator<S(!new)>(fft: Fft<S>, acc: S, h: seq<Frame>, rows: seq<seq<real>>, start: int, p: nat)
    requires Accumulates(fft, acc, h, rows, start, p, |rows|, 0)
    ensures |fft.backward(acc)| == 2 * p && IsOutput(fft.backward(acc)[p..], h, rows, start + p, p)
  {
    forall i: nat | i < p
      ensures fft.backward(acc)[p..][i] == Direct(h, rows, start + p + i, |rows|)
    {
      assert AccumulatesAt(fft, acc, h, rows, start, p, |rows|, 0, i);
    }
  }

  /** One channel's overlap and delay line, as they stand when block `b` begins. */
  ghost predicate ChannelHolds<S(!new)>(fft: Fft<S>, line: seq<S>, over: seq<real>, h: seq<Frame>, c: nat, b: nat,
                                        segments: nat, p: nat)
  {
    && 0 < segments == |line|
    && over == Window(h, c, (b - 1) * p, p)
    && Remembers(fft, line, h, c, b, p)
  }

  lemma ChannelNext<S(!new)>(fft: Fft<S>, line: seq<S>, over: seq<real>, h: seq<Frame>, block: seq<Frame>, c: nat,
                             b: nat, segments: nat, p: nat)
    requires ChannelHolds(fft, line, over, h, c, b, segments, p) && |h| == b * p && |block| == p
    ensures |line| == segments && b % segments < segments
    ensures var input := Window(block, c, 0, p);
            ChannelHolds(fft, line[b % segments := fft.forward(over + input)], input, h + block, c, b + 1, segments, p)
  {
    hide Remembers;
    RemembersNext(fft, line, h, block, c, b, p);
    NextWindow(h, block, c, b, p);
  }

  ghost predicate IsKernel<S(!new)>(fft: Fft<S>, spectra: seq<S>, row: seq<real>, segments: nat, p: nat) {
    |spectra| == segments &&
    forall s | 0 <= s < segments :: spectra[s] == fft.forward(Segment(row, s * p, p))
  }

  ghost predicate IsOutput(block: seq<real>, h: seq<Frame>, rows: seq<seq<real>>, start: int, p: nat) {
    |block| == p && forall i | 0 <= i < p :: block[i] == Direct(h, rows, start + i, |rows|)
  }

  /** The overlap and the new block are together the next window. */
  lemma NextWindow(h: seq<Frame>, block: seq<Frame>, c: nat, b: nat, p: nat)
    requires |h| == b * p && |block| == p
    ensures Window(h, c, (b - 1) * p, p) + Window(block, c, 0, p) == Window(h + block, c, (b - 1) * p, 2 * p)
    ensures Window(block, c, 0, p) == Window(h + block, c, b * p, p)
  {
    WindowIsCausal(h, block, c, (b - 1) * p, p);
    forall i | 0 <= i < p
      ensures Window(block, c, 0, p)[i] == Window(h + block, c, b * p, p)[i]
    {
      assert (h + block)[b * p + i] == block[i];
      assert Window(block, c, 0, p)[i] == Sample(block, i, c);
      assert Window(h + block, c, b * p, p)[i] == Sample(h + block, b * p + i, c);
    }
    assert (b - 1) * p + p == b * p;
    WindowSplits(h + block, c, (b - 1) * p, p, p);
  }

  lemma WindowSplits(h: seq<Frame>, c: nat, start: int, a: nat, b: nat)
    ensures Window(h, c, start, a + b) == Window(h, c, start, a) + Window(h, c, start + a, b)
  {
  }

  /** Before any input, the cleared buffers already stand for silence. */
  lemma ChannelEmpty<S(!new)>(fft: Fft<S>, c: nat, segments: nat, p: nat)
    requires 0 < segments && fft.Lawful(2 * p)
    ensures ChannelHolds(fft, seq(segments, _ => fft.zero), Zeros(p), [], c, 0, segments, p)
  {
    var line := seq(segments, _ => fft.zero);
    forall age: nat | age < segments
      ensures RemembersAge(fft, line, [], c, 0, p, age)
    {
      WindowOfNothing(c, (-2 - age) * p, 2 * p);
    }
    WindowOfNothing(c, -1 * p, p);
  }

  lemma WindowOfNothing(c: nat, start: int, length: nat)
    ensures Window([], c, start, length) == Zeros(length)
  {
    forall i | 0 <= i < length
      ensures Window([], c, start, length)[i] == Zeros(length)[i]
    {
      assert Window([], c, start, length)[i] == Sample([], start + i, c);
    }
  }

  lemma SegmentIsPadded(row: seq<real>, offset: nat, p: nat, count: nat)
    requires offset < |row| && count == Min(p, |row| - offset)
    ensures row[offset..offset + count] + Zeros(2 * p - count) == Segment(row, offset, p)
  {
    var padded := row[offset..offset + count] + Zeros(2 * p - count);
    forall k | 0 <= k < 2 * p
      ensures padded[k] == Segment(row, offset, p)[k]
    {
      assert Segment(row, offset, p)[k] == if k < p then Tap(row, offset + k) else 0.0;
    }
  }

  /** Every segment but perhaps the last lies wholly inside the impulse response. */
  lemma SegmentStarts(frames: nat, segment: nat, segments: nat, p: nat)
    requires 0 < p && 0 < frames && segment < segments == CeilDiv(frames, p)
    ensures segment * p < frames
  {
    CeilDivAbove(frames, p, segment);
  }

  lemma WindowAppend(h: seq<Frame>, frame: Frame, c: nat)
    requires c < |frame|
    ensures Window(h + [frame], c, 0, |h| + 1) == Window(h, c, 0, |h|) + [frame[c]]
  {
    forall i | 0 <= i < |h|
      ensures Window(h + [frame], c, 0, |h| + 1)[i] == Window(h, c, 0, |h|)[i]
    {
      assert Window(h + [frame], c, 0, |h| + 1)[i] == Sample(h + [frame], i, c);
      assert Window(h, c, 0, |h|)[i] == Sample(h, i, c);
    }
  }

  lemma ModPlusOne(b: nat, size: nat)
    requires size > 0
    ensures (b % size + 1) % size == (b + 1) % size
  {
    var q := b / size;
    assert b % size + 1 == b + 1 + size * (0 - q);
    ModPlusMultiple(b + 1, size, 0 - q);
  }

  /** What a finished output block says about the whole history. */
  lemma DelayedAt(done: seq<Frame>, all: seq<Frame>, rows: seq<seq<seq<real>>>, p: nat, b: nat, fill: nat, o: nat)
    requires done <= all && |done| == b * p && fill < p && o < |rows|
    ensures b == 0 ==> b * p + fill < p
    ensures b > 0 ==> b * p + fill >= p
    ensures Delayed(all, rows, p, b * p + fill)[o]
         == if b == 0 then 0.0 else Direct(done, rows[o], (b - 1) * p + fill, |rows[o]|)
  {
    if b > 0 {
      MulMonotone(1, b, p);
      assert b * p + fill - p == (b - 1) * p + fill;
      assert all == done + all[|done|..];
      DirectIsCausal(done, all[|done|..], rows[o], (b - 1) * p + fill, |rows[o]|);
    }
  }
}
