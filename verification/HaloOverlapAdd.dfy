/**
  Ideal overlap-add: windows of 1024 input frames every 512 are rendered to 1024 output frames each,
  and output frame `j` is the sum of all rendered frames that reach it.
*/
module HaloOverlapAdd {
  import opened Resampling

  const FFT_SIZE: nat := 1024
  const HOP: nat := 512
  const REPORTED_LATENCY: nat := 1024
  const BED_CHANNELS: nat := 7

  /** From one analysis window to one synthesis frame; the processors in between carry state. */
  datatype Renderer<!S(!new)> = Renderer(initial: S, render: (S, seq<Frame>) -> (S, seq<Frame>)) {
    ghost predicate Lawful() {
      forall s: S, w: seq<Frame> {:trigger render(s, w)} :: |w| == FFT_SIZE ==> IsBed(render(s, w).1, FFT_SIZE)
    }

    /** State before analysis frame `k`. */
    function State(h: seq<Frame>, k: nat): S
      requires k > 0 ==> HOP * (k - 1) + FFT_SIZE <= |h|
    {
      if k == 0 then initial
      else render(State(h, k - 1), AnalysisWindow(h, k - 1)).0
    }

    /** Synthesis frame `k`. */
    function Synthesis(h: seq<Frame>, k: nat): seq<Frame>
      requires HOP * k + FFT_SIZE <= |h|
    {
      render(State(h, k), AnalysisWindow(h, k)).1
    }

    /** What synthesis frame `k` adds to output frame `j`, channel `c`. */
    function Share(h: seq<Frame>, k: nat, j: nat, c: nat): real
      requires HOP * k + FFT_SIZE <= |h|
    {
      if REPORTED_LATENCY + HOP * k <= j < REPORTED_LATENCY + HOP * k + FFT_SIZE
      then Sample(Synthesis(h, k), j - REPORTED_LATENCY - HOP * k, c)
      else 0.0
    }

    /** The first `n` synthesis frames added up at output frame `j`, channel `c`. */
    function Sum(h: seq<Frame>, n: nat, j: nat, c: nat): real
      requires n <= Completed(|h|)
    {
      if n == 0 then 0.0 else Sum(h, n - 1, j, c) + Share(h, n - 1, j, c)
    }

    /** Output frame `j` of the ideal overlap-add of the whole input. */
    function Ideal(h: seq<Frame>, j: nat): Frame {
      seq(BED_CHANNELS, c requires 0 <= c < BED_CHANNELS => Sum(h, Completed(|h|), j, c))
    }

    // -------------------------------------------------------------- what the ideal sum is

    lemma {:induction false} StateIsStable(h: seq<Frame>, g: seq<Frame>, k: nat)
      requires k > 0 ==> HOP * (k - 1) + FFT_SIZE <= |h|
      ensures State(h + g, k) == State(h, k)
    {
      if k > 0 {
        StateIsStable(h, g, k - 1);
        assert AnalysisWindow(h + g, k - 1) == AnalysisWindow(h, k - 1);
      }
    }

    lemma {:induction false} SumIsStable(h: seq<Frame>, g: seq<Frame>, n: nat, j: nat, c: nat)
      requires n <= Completed(|h|)
      ensures n <= Completed(|h + g|) && Sum(h + g, n, j, c) == Sum(h, n, j, c)
    {
      CompletedMonotone(|h|, |h + g|);
      if n > 0 {
        SumIsStable(h, g, n - 1, j, c);
        StateIsStable(h, g, n - 1);
        assert AnalysisWindow(h + g, n - 1) == AnalysisWindow(h, n - 1);
      }
    }

    /** Frames that start after `j` add nothing. */
    lemma {:induction false} LaterAddNothing(h: seq<Frame>, n: nat, m: nat, j: nat, c: nat)
      requires n <= m <= Completed(|h|) && j < REPORTED_LATENCY + HOP * n
      ensures Sum(h, m, j, c) == Sum(h, n, j, c)
    {
      if n < m {
        LaterAddNothing(h, n, m - 1, j, c);
      }
    }

    /** Frames that ended before `j` add nothing. */
    lemma {:induction false} EarlierAddNothing(h: seq<Frame>, n: nat, j: nat, c: nat)
      requires n <= Completed(|h|) && REPORTED_LATENCY + FFT_SIZE + HOP * n <= j + HOP
      ensures Sum(h, n, j, c) == 0.0
    {
      if n > 0 {
        EarlierAddNothing(h, n - 1, j, c);
      }
    }

    /** No output frame changes once the input has moved past it. */
    lemma IdealIsCausal(h: seq<Frame>, g: seq<Frame>, j: nat)
      requires j < |h|
      ensures Ideal(h + g, j) == Ideal(h, j)
    {
      var n := Completed(|h|);
      CompletedMonotone(|h|, |h + g|);
      forall c | 0 <= c < BED_CHANNELS
        ensures Ideal(h + g, j)[c] == Ideal(h, j)[c]
      {
        SumIsStable(h, g, n, j, c);
        LaterAddNothing(h + g, n, Completed(|h + g|), j, c);
      }
    }

    /** Exactly the two windows that overlap at `j` contribute; the first hop has only one. */
    lemma IdealIsTwoFrames(h: seq<Frame>, j: nat, c: nat)
      requires REPORTED_LATENCY <= j < |h| && c < BED_CHANNELS
      ensures var k := (j - REPORTED_LATENCY) / HOP;
              && k < Completed(|h|)
              && Ideal(h, j)[c] == Share(h, k, j, c) + (if k == 0 then 0.0 else Share(h, k - 1, j, c))
    {
      var k := (j - REPORTED_LATENCY) / HOP;
      LaterAddNothing(h, k + 1, Completed(|h|), j, c);
      if k > 0 {
        EarlierAddNothing(h, k - 1, j, c);
      }
    }

    /** In terms of the rendered frames: sample `j` lies `i` into the newer of the two windows and 512 further into the
        older one. */
    lemma IdealIsRendered(h: seq<Frame>, j: nat, c: nat)
      requires Lawful() && 1024 <= j < |h| && c < BED_CHANNELS
      ensures var k, i := (j - 1024) / 512, (j - 1024) % 512;
              && 512 * k + 1024 <= |h|
              && IsBed(Synthesis(h, k), 1024) && (k > 0 ==> IsBed(Synthesis(h, k - 1), 1024))
              && Ideal(h, j)[c] == Synthesis(h, k)[i][c] + (if k == 0 then 0.0 else Synthesis(h, k - 1)[i + 512][c])
    {
      IdealIsTwoFrames(h, j, c);
    }

    /** Window `k` is the 1024 input frames from frame 512 k on, rendered in the state that the window before left. */
    lemma {:induction false} RenderingThreads(h: seq<Frame>, n: nat, states: seq<S>)
      requires n > 0 ==> 512 * (n - 1) + 1024 <= |h|
      requires |states| == n + 1 && states[0] == initial
      requires forall k: nat | k < n :: states[k + 1] == render(states[k], Window(h, k)).0
      ensures State(h, n) == states[n]
      ensures forall k: nat | k < n :: 512 * k + 1024 <= |h| && Synthesis(h, k) == render(states[k], Window(h, k)).1
    {
      if n > 0 {
        RenderingThreads(h, n - 1, states[..n]);
        assert Window(h, n - 1) == AnalysisWindow(h, n - 1);
      }
    }

    /** If rendering changes nothing, every sample of the input comes out 1024 frames late, once for each of the two windows
        it is in: twice, and once in the first 512 frames. */
    lemma IdentityDoubles(h: seq<Frame>, j: nat, c: nat)
      requires Lawful() && IsBed(h, |h|) && 1024 <= j < |h| && c < BED_CHANNELS
      requires forall s: S, w: seq<Frame> {:trigger render(s, w)} :: |w| == FFT_SIZE && IsBed(w, FFT_SIZE) ==> render(s, w).1 == w
      ensures Ideal(h, j)[c] == if j < 1536 then h[j - 1024][c] else 2.0 * h[j - 1024][c]
    {
      IdealIsRendered(h, j, c);
      var k, i := (j - 1024) / 512, (j - 1024) % 512;
      RendersItself(h, k);
      if k > 0 {
        RendersItself(h, k - 1);
      }
    }

    lemma RendersItself(h: seq<Frame>, k: nat)
      requires IsBed(h, |h|) && 512 * k + 1024 <= |h|
      requires forall s: S, w: seq<Frame> {:trigger render(s, w)} :: |w| == FFT_SIZE && IsBed(w, FFT_SIZE) ==> render(s, w).1 == w
      ensures Synthesis(h, k) == h[512 * k..512 * k + 1024]
    {
      assert IsBed(AnalysisWindow(h, k), FFT_SIZE);
      assert AnalysisWindow(h, k) == h[512 * k..512 * k + 1024];
    }

    /** Nothing comes out before the reported latency. */
    lemma IdealStartsSilent(h: seq<Frame>, j: nat, c: nat)
      requires j < REPORTED_LATENCY && c < BED_CHANNELS
      ensures Ideal(h, j)[c] == 0.0
    {
      LaterAddNothing(h, 0, Completed(|h|), j, c);
    }
  }

  /** The 1024 frames from frame 512 k on. */
  function Window(h: seq<Frame>, k: nat): seq<Frame> {
    if 512 * k + 1024 <= |h| then h[512 * k..512 * k + 1024] else []
  }

  /** `n` frames of all bed channels. */
  ghost predicate IsBed(frames: seq<Frame>, n: nat) {
    |frames| == n && forall i | 0 <= i < n :: |frames[i]| == BED_CHANNELS
  }

  /** Analysis frames completed by `total` input frames. */
  function Completed(total: nat): nat {
    if total < FFT_SIZE then 0 else (total - FFT_SIZE) / HOP + 1
  }

  function AnalysisWindow(h: seq<Frame>, k: nat): seq<Frame>
    requires HOP * k + FFT_SIZE <= |h|
  {
    h[HOP * k..HOP * k + FFT_SIZE]
  }

  lemma CompletedMonotone(a: nat, b: nat)
    requires a <= b
    ensures Completed(a) <= Completed(b)
  {
  }
}
