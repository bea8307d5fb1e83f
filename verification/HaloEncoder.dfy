/** The streaming overlap-add: a sliding analysis buffer and an output ring with absolute positions. */
module HaloEncoding {
  import opened Arithmetic
  import opened Resampling
  import opened Rings
  import opened HaloOverlapAdd

  function Added(a: Frame, b: Frame): Frame {
    if |a| == |b| then seq(|a|, c requires 0 <= c < |a| => a[c] + b[c]) else a
  }

  function SilentBed(): (f: Frame)
    ensures |f| == BED_CHANNELS
  {
    seq(BED_CHANNELS, _ => 0.0)
  }

  // ---------------------------------------------------------------- the ring, as a sequence

  /** Output frame `j` as far as the first `n` synthesis frames make it up. */
  function Partial<S(!new)>(r: Renderer<S>, h: seq<Frame>, n: nat, j: nat): Frame
    requires n <= Completed(|h|)
  {
    seq(BED_CHANNELS, c requires 0 <= c < BED_CHANNELS => r.Sum(h, n, j, c))
  }

  /** Read from position `from` on, the ring holds the sums of the first `n` synthesis frames. */
  ghost predicate Sums<S(!new)>(r: Renderer<S>, view: seq<Frame>, h: seq<Frame>, n: nat, from: nat)
    requires n <= Completed(|h|)
  {
    forall k: nat | k < |view| :: SumsAt(r, view, h, n, from, k)
  }

  ghost predicate SumsAt<S(!new)>(r: Renderer<S>, view: seq<Frame>, h: seq<Frame>, n: nat, from: nat, k: nat)
    requires n <= Completed(|h|) && k < |view|
  {
    view[k] == Partial(r, h, n, from + k)
  }

  lemma SumsStart<S(!new)>(r: Renderer<S>, size: nat)
    ensures Sums(r, seq(size, _ => SilentBed()), [], 0, 0)
  {
    var view := seq(size, _ => SilentBed());
    forall k: nat | k < size
      ensures SumsAt(r, view, [], 0, 0, k)
    {
    }
  }

  /** More input alone changes nothing in the ring. */
  lemma SumsFeed<S(!new)>(r: Renderer<S>, view: seq<Frame>, h: seq<Frame>, more: seq<Frame>, n: nat, from: nat)
    requires n <= Completed(|h|) && Sums(r, view, h, n, from)
    ensures n <= Completed(|h + more|) && Sums(r, view, h + more, n, from)
  {
    CompletedMonotone(|h|, |h + more|);
    var longer := h + more;
    forall k: nat | k < |view|
      ensures SumsAt(r, view, longer, n, from, k)
    {
      assert SumsAt(r, view, h, n, from, k);
      var j := from + k;
      forall c: nat | c < BED_CHANNELS
        ensures r.Sum(longer, n, j, c) == r.Sum(h, n, j, c)
      {
        r.SumIsStable(h, more, n, j, c);
      }
    }
  }

  /** Adding the next synthesis frame at its place makes it part of every sum it reaches. */
  lemma SumsAdd<S(!new)>(r: Renderer<S>, view: seq<Frame>, updated: seq<Frame>, h: seq<Frame>, n: nat, from: nat)
    requires n < Completed(|h|) && Sums(r, view, h, n, from)
    requires r.Lawful() && from <= REPORTED_LATENCY + HOP * n
    requires IsBed(r.Synthesis(h, n), FFT_SIZE)
    requires updated == Overlay(view, r.Synthesis(h, n), REPORTED_LATENCY + HOP * n - from, FFT_SIZE)
    ensures Sums(r, updated, h, n + 1, from)
  {
    var next := n + 1;
    forall k: nat | k < |view|
      ensures SumsAt(r, updated, h, next, from, k)
    {
      assert SumsAt(r, view, h, n, from, k);
      assert |view[k]| == BED_CHANNELS;
      forall c | 0 <= c < BED_CHANNELS
        ensures updated[k][c] == r.Sum(h, next, from + k, c)
      {
      }
    }
  }

  /** Reading the front, clearing it and moving on leaves the sums from the new position. */
  lemma SumsRead<S(!new)>(r: Renderer<S>, view: seq<Frame>, h: seq<Frame>, n: nat, from: nat, read: nat)
    requires n <= Completed(|h|) && Sums(r, view, h, n, from) && read <= |view|
    requires REPORTED_LATENCY + FFT_SIZE + HOP * n <= from + |view| + HOP
    ensures Sums(r, view[read..] + seq(read, _ => SilentBed()), h, n, from + read)
  {
    var later, start := view[read..] + seq(read, _ => SilentBed()), from + read;
    forall k: nat | k < |view|
      ensures SumsAt(r, later, h, n, start, k)
    {
      if k < |view| - read {
        assert SumsAt(r, view, h, n, from, read + k);
      } else {
        var j := start + k;
        forall c: nat | c < BED_CHANNELS
          ensures r.Sum(h, n, j, c) == 0.0
        {
          r.EarlierAddNothing(h, n, j, c);
        }
      }
    }
  }

  /** Once the input has reached past them, the front of the ring holds finished output frames. */
  lemma SumsAreIdeal<S(!new)>(r: Renderer<S>, view: seq<Frame>, h: seq<Frame>, from: nat, k: nat)
    requires Sums(r, view, h, Completed(|h|), from) && k < |view|
    ensures view[k] == r.Ideal(h, from + k)
  {
    assert SumsAt(r, view, h, Completed(|h|), from, k);
  }

  // ---------------------------------------------------------------- the encoder

  class HaloEncoder<S(!new)> {
    const renderer: Renderer<S>
    var prepared: bool
    var maxFrames: nat
    var ring: array<Frame>
    var readFrame: nat
    var synthesisFrame: nat
    var analysis: array<Frame>
    var analysisFill: nat
    var processors: S

    /** All input analysed so far. */
    ghost var fed: seq<Frame>

    ghost predicate Sized()
      reads `ring, `analysis, `maxFrames
    {
      && 0 < maxFrames && ring.Length == REPORTED_LATENCY + FFT_SIZE + 4 * maxFrames
      && analysis.Length == FFT_SIZE && ring != analysis && renderer.Lawful()
    }

    /** The ring from the read position on. */
    ghost function Ahead(): (view: seq<Frame>)
      requires Sized()
      reads `ring, `analysis, `maxFrames, `readFrame, ring
      ensures |view| == ring.Length
    {
      View(ring[..], readFrame % ring.Length, ring.Length)
    }

    /** `n` synthesis frames are in the ring; the analysis buffer holds the input from there on. */
    ghost predicate Feeding(n: nat)
      reads this, ring, analysis
    {
      && Sized()
      && n <= Completed(|fed|)
      && synthesisFrame == REPORTED_LATENCY + HOP * n
      && processors == renderer.State(fed, n)
      && analysisFill == |fed| - HOP * n && analysisFill <= FFT_SIZE
      && analysis[..analysisFill] == fed[HOP * n..]
      && readFrame <= |fed| <= readFrame + maxFrames
      && Sums(renderer, Ahead(), fed, n, readFrame)
    }

    ghost predicate Valid()
      reads this, ring, analysis
    {
      prepared ==> Feeding(Completed(|fed|)) && readFrame == |fed|
    }

    constructor (r: Renderer<S>)
      ensures Valid() && !prepared && renderer == r
    {
      renderer := r;
      prepared := false;
      maxFrames, readFrame, synthesisFrame, analysisFill := 0, 0, 0, 0;
      ring, analysis := new Frame[0], new Frame[0];
      processors := r.initial;
      fed := [];
    }

    method Prepare(blockFrames: nat) returns (ok: bool)
      requires renderer.Lawful() && Valid()
      modifies this
      ensures ok <==> blockFrames > 0
      ensures Valid() && (ok ==> prepared && fed == [] && maxFrames == blockFrames) && (!ok ==> unchanged(this))
    {
      if blockFrames == 0 {
        return false;
      }
      ok := true;
      maxFrames := blockFrames;
      ring := new Frame[REPORTED_LATENCY + FFT_SIZE + 4 * blockFrames](_ => []);
      analysis := new Frame[FFT_SIZE](_ => []);
      prepared := true;
      Reset();
    }

    method Reset()
      requires Sized() && prepared
      modifies `fed, `readFrame, `synthesisFrame, `analysisFill, `processors, ring, analysis
      ensures Valid() && fed == []
    {
      forall slot | 0 <= slot < ring.Length {
        ring[slot] := SilentBed();
      }
      readFrame := 0;
      synthesisFrame := REPORTED_LATENCY;
      analysisFill := 0;
      processors := renderer.initial;
      fed := [];
      SumsStart(renderer, ring.Length);
      assert Ahead() == seq(ring.Length, _ => SilentBed());
    }

    /** Copies input into the free part of the analysis buffer. */
    method Fill(part: seq<Frame>, ghost n: nat)
      requires Feeding(n) && analysisFill + |part| <= FFT_SIZE && |fed| + |part| <= readFrame + maxFrames
      modifies `analysisFill, `fed, analysis
      ensures Feeding(n) && fed == old(fed) + part
    {
      hide View;
      hide Sums;
      hide Renderer.State;
      SumsFeed(renderer, Ahead(), fed, part, n, readFrame);
      if n > 0 {
        assert HOP * (n - 1) + FFT_SIZE <= |fed|;
      }
      renderer.StateIsStable(fed, part, n);
      forall k | 0 <= k < |part| {
        analysis[analysisFill + k] := part[k];
      }
      assert analysis[..analysisFill + |part|] == analysis[..analysisFill] + part;
      assert (fed + part)[HOP * n..] == fed[HOP * n..] + part;
      analysisFill := analysisFill + |part|;
      fed := fed + part;
    }

    /** Moves the second half of the analysis buffer to the front. */
    method Slide(ghost n: nat)
      requires Sized() && n + 1 <= Completed(|fed|) && analysisFill == FFT_SIZE == |fed| - HOP * n
      requires analysis[..] == fed[HOP * n..]
      requires synthesisFrame == REPORTED_LATENCY + HOP * (n + 1) && processors == renderer.State(fed, n + 1)
      requires readFrame <= |fed| <= readFrame + maxFrames
      requires Sums(renderer, Ahead(), fed, n + 1, readFrame)
      modifies `analysisFill, analysis
      ensures Feeding(n + 1) && analysisFill == HOP
    {
      hide View;
      hide Sums;
      hide Renderer.State;
      forall k | 0 <= k < HOP {
        analysis[k] := analysis[HOP + k];
      }
      analysisFill := HOP;
      assert analysis[..HOP] == fed[HOP * n..][HOP..];
      assert fed[HOP * n..][HOP..] == fed[HOP * (n + 1)..];
    }

    /** Runs the input through the analysis buffer, rendering a frame every time the buffer is full. */
    method Analyze(input: seq<Frame>)
      requires prepared && Valid() && |input| <= maxFrames
      modifies `analysisFill, `fed, `processors, `synthesisFrame, analysis, ring
      ensures Feeding(Completed(|fed|)) && fed == old(fed) + input
    {
      hide Feeding;
      var consumed := 0;
      FeedingFacts(Completed(|fed|));
      while consumed < |input|
        invariant consumed <= |input| && fed == old(fed) + input[..consumed]
        invariant Feeding(Completed(|fed|))
      {
        ghost var n := Completed(|fed|);
        FeedingFacts(n);
        var room := FFT_SIZE - analysisFill;
        var take := Min(room, |input| - consumed);
        Fill(input[consumed..consumed + take], n);
        FeedingFacts(n);
        consumed := consumed + take;
        assert input[..consumed] == input[..consumed - take] + input[consumed - take..consumed];
        if analysisFill < FFT_SIZE {
          break;
        }
        Turn(n);
      }
    }

    /** A full buffer is rendered and slid on. */
    method Turn(ghost n: nat)
      requires Feeding(n) && analysisFill == FFT_SIZE
      modifies `analysisFill, `processors, `synthesisFrame, analysis, ring
      ensures Feeding(n + 1) && Completed(|fed|) == n + 1
    {
      hide View;
      hide Sums;
      hide Renderer.State;
      RenderFrame(n);
      Slide(n);
    }

    lemma FeedingFacts(n: nat)
      requires Feeding(n)
      ensures Sized() && analysisFill == |fed| - HOP * n <= FFT_SIZE && readFrame <= |fed| <= readFrame + maxFrames
      ensures synthesisFrame == REPORTED_LATENCY + HOP * n
    {
    }

    /** Reads and clears the front of the ring. */
    method ReadOut(frames: nat) returns (output: seq<Frame>)
      requires Sized() && frames <= ring.Length
      modifies ring
      ensures output == old(Ahead())[..frames]
      ensures Ahead() == Cleared(old(Ahead()), frames)
    {
      hide View;
      hide Slot;
      hide Cleared;
      ghost var before := Ahead();
      ClearedNone(before);
      output := [];
      for frame := 0 to frames
        invariant output == before[..frame]
        invariant Ahead() == Cleared(before, frame)
      {
        ClearedNext(before, frame);
        var index := (readFrame + frame) % ring.Length;
        var out := TakeAt(index, frame);
        output := output + [out];
      }
    }

    method TakeAt(slot: nat, ghost k: nat) returns (x: Frame)
      requires Sized() && k < ring.Length && slot == (readFrame + k) % ring.Length
      modifies ring
      ensures x == old(Ahead())[k] && Ahead() == old(Ahead())[k := SilentBed()]
    {
      PositionSlot(readFrame, k, ring.Length);
      ghost var store := ring[..];
      ViewUpdate(store, readFrame % ring.Length, ring.Length, k, SilentBed());
      x := ring[slot];
      ring[slot] := SilentBed();
      assert ring[..] == store[slot := SilentBed()];
    }

    /**
      One block of input in, one block of output out. Whatever the split into calls, output frame `j`
      is the ideal overlap-add at `j`: all its synthesis frames are in before it is read, and none
      lands on a position still to be read or already read.
    */
    method ProcessBed(input: seq<Frame>) returns (ok: bool, output: seq<Frame>)
      requires Valid()
      modifies `analysisFill, `fed, `processors, `synthesisFrame, `readFrame, analysis, ring
      ensures Valid() && (ok <==> prepared && |input| <= maxFrames)
      ensures ok ==> fed == old(fed) + input && |output| == |input|
      ensures ok ==> forall k | 0 <= k < |input| :: output[k] == renderer.Ideal(fed, old(|fed|) + k)
      ensures !ok ==> output == [] && fed == old(fed)
    {
      hide View;
      hide Sums;
      hide Renderer.Ideal;
      if !prepared || |input| > maxFrames {
        return false, [];
      }
      ok := true;
      Analyze(input);
      ghost var ahead := Ahead();
      output := ReadOut(|input|);
      forall k | 0 <= k < |input|
        ensures output[k] == renderer.Ideal(fed, readFrame + k)
      {
        SumsAreIdeal(renderer, ahead, fed, readFrame, k);
      }
      MoveOn(|input|, ahead);
    }

    method MoveOn(frames: nat, ghost ahead: seq<Frame>)
      requires prepared && Sized() && frames <= maxFrames && |ahead| == ring.Length
      requires readFrame + frames == |fed|
      requires Ahead() == Cleared(ahead, frames)
      requires Sums(renderer, ahead, fed, Completed(|fed|), readFrame)
      requires synthesisFrame == REPORTED_LATENCY + HOP * Completed(|fed|)
      requires processors == renderer.State(fed, Completed(|fed|))
      requires analysisFill == |fed| - HOP * Completed(|fed|) && analysisFill <= FFT_SIZE
      requires analysis[..analysisFill] == fed[HOP * Completed(|fed|)..]
      modifies `readFrame
      ensures Valid() && readFrame == |fed|
    {
      hide View;
      hide Sums;
      hide Renderer.State;
      SumsRead(renderer, ahead, fed, Completed(|fed|), readFrame, frames);
      PositionSlot(readFrame, frames, ring.Length);
      ViewRotate(ring[..], readFrame % ring.Length, frames);
      ghost var now := Ahead();
      readFrame := readFrame + frames;
      assert Ahead() == now[frames..] + now[..frames];
      assert Ahead() == ahead[frames..] + seq(frames, _ => SilentBed());
    }

    /** Adds the finished synthesis frame into the ring at its absolute position. */
    method RenderFrame(ghost n: nat)
      requires Feeding(n) && analysisFill == FFT_SIZE
      modifies `processors, `synthesisFrame, ring
      ensures Sized() && synthesisFrame == REPORTED_LATENCY + HOP * (n + 1)
      ensures n + 1 <= Completed(|fed|) && processors == renderer.State(fed, n + 1)
      ensures Sums(renderer, Ahead(), fed, n + 1, readFrame)
    {
      hide View;
      hide Sums;
      hide Renderer.Sum;
      assert analysis[..] == AnalysisWindow(fed, n);
      var rendered := renderer.render(processors, analysis[..]);
      AddToRing(rendered.1, synthesisFrame - readFrame);
      SumsAdd(renderer, old(Ahead()), Ahead(), fed, n, readFrame);
      processors := rendered.0;
      synthesisFrame := synthesisFrame + HOP;
    }

    method AddToRing(frame: seq<Frame>, ghost at: nat)
      requires Sized() && IsBed(frame, FFT_SIZE) && synthesisFrame == readFrame + at && at + FFT_SIZE <= ring.Length
      modifies ring
      ensures Ahead() == Overlay(old(Ahead()), frame, at, FFT_SIZE)
    {
      hide View;
      hide Slot;
      hide Overlay;
      ghost var before := Ahead();
      OverlayNone(before, frame, at);
      for offset := 0 to FFT_SIZE
        invariant Ahead() == Overlay(before, frame, at, offset)
      {
        var slot := (synthesisFrame + offset) % ring.Length;
        AddAt(slot, frame[offset], at + offset);
        OverlayNext(before, frame, at, offset);
      }
    }

    method AddAt(slot: nat, x: Frame, ghost k: nat)
      requires Sized() && k < ring.Length && slot == (readFrame + k) % ring.Length
      modifies ring
      ensures Ahead() == old(Ahead())[k := Added(old(Ahead())[k], x)]
    {
      PositionSlot(readFrame, k, ring.Length);
      ghost var store := ring[..];
      ViewUpdate(store, readFrame % ring.Length, ring.Length, k, Added(store[slot], x));
      ring[slot] := Added(ring[slot], x);
      assert ring[..] == store[slot := Added(store[slot], x)];
    }
  }

  /** `view` with its first `n` frames silenced. */
  function Cleared(view: seq<Frame>, n: nat): (r: seq<Frame>)
    requires n <= |view|
    ensures |r| == |view|
  {
    seq(n, _ => SilentBed()) + view[n..]
  }

  lemma ClearedNone(view: seq<Frame>)
    ensures Cleared(view, 0) == view
  {
  }

  lemma ClearedNext(view: seq<Frame>, n: nat)
    requires n < |view|
    ensures Cleared(view, n)[n] == view[n] && Cleared(view, n)[n := SilentBed()] == Cleared(view, n + 1)
  {
  }

  /** `view` with the first `n` frames of `frame` added in from place `at`. */
  function Overlay(view: seq<Frame>, frame: seq<Frame>, at: nat, n: nat): (r: seq<Frame>)
    requires n <= |frame|
    ensures |r| == |view|
  {
    seq(|view|, k requires 0 <= k < |view| => if at <= k < at + n then Added(view[k], frame[k - at]) else view[k])
  }

  lemma OverlayNone(view: seq<Frame>, frame: seq<Frame>, at: nat)
    ensures Overlay(view, frame, at, 0) == view
  {
  }

  lemma OverlayNext(view: seq<Frame>, frame: seq<Frame>, at: nat, n: nat)
    requires n < |frame| && at + n < |view|
    ensures var before := Overlay(view, frame, at, n);
            Overlay(view, frame, at, n + 1) == before[at + n := Added(before[at + n], frame[n])]
  {
  }
}
