/**
  Uniformly partitioned overlap-save convolution: why multiplying spectra of two-block windows with
  spectra of kernel segments and keeping the upper half gives the direct time-domain filter.
*/
module Convolution {
  import opened Arithmetic
  import opened Resampling

  // ---------------------------------------------------------------- the FFT, as far as it is relied on

  /** An FFT of blocks of a fixed length; `S` is its (unordered) spectrum format. */
  datatype Fft<!S(!new)> = Fft(
    zero: S,
    forward: seq<real> -> S,
    accumulate: (S, S, S, real) -> S,
    backward: S -> seq<real>)
  {
    /**
      All that is assumed of the FFT library for length `n`: transforming back a scaled accumulated
      product adds the circular convolution, up to the library's factor `n`.
    */
    ghost predicate Lawful(n: nat) {
      && forward(Zeros(n)) == zero
      && (forall s: S {:trigger backward(s)} :: |backward(s)| == n)
      && (forall i | 0 <= i < n :: backward(zero)[i] == 0.0)
      && (forall acc: S, x: seq<real>, y: seq<real>, scale: real, i: nat
            {:trigger backward(accumulate(acc, forward(x), forward(y), scale))[i]} |
            |x| == |y| == n && i < n ::
            backward(accumulate(acc, forward(x), forward(y), scale))[i]
              == backward(acc)[i] + Gain(scale, n) * Circular(x, y, i, n))
    }

    /** With the scale 1/n the library's factor cancels. */
    lemma AccumulateScaled(n: nat, acc: S, x: seq<real>, y: seq<real>, i: nat)
      requires 0 < n && Lawful(n) && |x| == |y| == n && i < n
      ensures |backward(acc)| == n && |backward(accumulate(acc, forward(x), forward(y), 1.0 / n as real))| == n
      ensures backward(accumulate(acc, forward(x), forward(y), 1.0 / n as real))[i]
           == backward(acc)[i] + Circular(x, y, i, n)
    {
      var scale := 1.0 / n as real;
      assert Gain(scale, n) == 1.0;
      assert backward(accumulate(acc, forward(x), forward(y), scale))[i]
          == backward(acc)[i] + Gain(scale, n) * Circular(x, y, i, n);
    }
  }

  /** The assumption is consistent: the time domain itself is such a spectrum format. */
  function TimeDomain(n: nat): Fft<seq<real>> {
    Fft(Zeros(n), (x: seq<real>) => x,
        (acc: seq<real>, x: seq<real>, y: seq<real>, scale: real) => Accumulated(n, acc, x, y, scale),
        (s: seq<real>) => OfLength(n, s))
  }

  function OfLength(n: nat, s: seq<real>): (t: seq<real>)
    ensures |t| == n
  {
    if |s| == n then s else Zeros(n)
  }

  function Accumulated(n: nat, acc: seq<real>, x: seq<real>, y: seq<real>, scale: real): seq<real> {
    if |x| == |y| == n then
      seq(n, i requires 0 <= i < n => OfLength(n, acc)[i] + Gain(scale, n) * Circular(x, y, i, n))
    else acc
  }

  lemma TimeDomainIsLawful(n: nat)
    ensures TimeDomain(n).Lawful(n)
  {
    hide Circular;
    hide Gain;
    var f := TimeDomain(n);
    forall acc: seq<real>, x: seq<real>, y: seq<real>, scale: real, i: nat | |x| == |y| == n && i < n
      ensures f.backward(f.accumulate(acc, f.forward(x), f.forward(y), scale))[i]
           == f.backward(acc)[i] + Gain(scale, n) * Circular(x, y, i, n)
    {
      assert f.accumulate(acc, f.forward(x), f.forward(y), scale) == Accumulated(n, acc, x, y, scale);
    }
  }

  /** The library leaves a factor `n` in a forward and backward transform. */
  function Gain(scale: real, n: nat): real {
    scale * (n as real)
  }

  function Zeros(n: nat): seq<real> {
    seq(n, _ => 0.0)
  }

  /** The first `terms` terms of element `i` of the circular convolution of `x` and `y`. */
  function Circular(x: seq<real>, y: seq<real>, i: nat, terms: nat): real
    requires |x| == |y| && i < |x| && terms <= |x|
  {
    if terms == 0 then 0.0
    else Circular(x, y, i, terms - 1) + x[(i - (terms - 1)) % |x|] * y[terms - 1]
  }

  // ---------------------------------------------------------------- the filter it must compute

  /** The first `terms` terms of the FIR filter `row` on channel `c`, at absolute time `t`. */
  function Fir(h: seq<Frame>, c: nat, row: seq<real>, t: int, terms: nat): real {
    if terms == 0 then 0.0
    else Fir(h, c, row, t, terms - 1) + Sample(h, t - (terms - 1), c) * Tap(row, terms - 1)
  }

  /** The direct filter matrix: the first `channels` input channels through their rows. */
  function Direct(h: seq<Frame>, rows: seq<seq<real>>, t: int, channels: nat): real
    requires channels <= |rows|
  {
    if channels == 0 then 0.0
    else
      Direct(h, rows, t, channels - 1)
      + Fir(h, channels - 1, rows[channels - 1], t, |rows[channels - 1]|)
  }

  lemma {:induction false} FirIsSum(h: seq<Frame>, c: nat, row: seq<real>, t: int, terms: nat, term: nat -> real)
    requires forall k: nat | k < terms :: term(k) == Sample(h, t - k, c) * Tap(row, k)
    ensures Fir(h, c, row, t, terms) == Sum(terms, term)
  {
    if terms > 0 {
      FirIsSum(h, c, row, t, terms - 1, term);
    }
  }

  lemma {:induction false} DirectIsSum(h: seq<Frame>, rows: seq<seq<real>>, t: int, channels: nat, share: nat -> real)
    requires channels <= |rows|
    requires forall c: nat | c < channels :: share(c) == Fir(h, c, rows[c], t, |rows[c]|)
    ensures Direct(h, rows, t, channels) == Sum(channels, share)
  {
    if channels > 0 {
      DirectIsSum(h, rows, t, channels - 1, share);
    }
  }

  // ---------------------------------------------------------------- windows and segments

  /** `length` frames of channel `c` from absolute time `start`, silence outside the history. */
  function Window(h: seq<Frame>, c: nat, start: int, length: nat): (w: seq<real>)
    ensures |w| == length
  {
    seq(length, i requires 0 <= i < length => Sample(h, start + i, c))
  }

  /** The `p` kernel taps from `offset` on, padded with zeros to a window of 2p. */
  function Segment(row: seq<real>, offset: nat, p: nat): (s: seq<real>)
    ensures |s| == 2 * p
  {
    seq(2 * p, k requires 0 <= k < 2 * p => if k < p then Tap(row, offset + k) else 0.0)
  }

  /**
    In the upper half of the window nothing wraps: the circular product with a segment is that
    segment's share of the filter.
  */
  lemma {:induction false} UpperHalf(h: seq<Frame>, c: nat, row: seq<real>, start: int, offset: nat, p: nat,
                                     i: nat, terms: nat)
    requires i < p && terms <= 2 * p
    ensures Fir(h, c, row, start + p + i, offset)
          + Circular(Window(h, c, start - offset, 2 * p), Segment(row, offset, p), p + i, terms)
         == Fir(h, c, row, start + p + i, offset + if terms <= p then terms else p)
  {
    if terms > 0 {
      UpperHalf(h, c, row, start, offset, p, i, terms - 1);
      var x, k := Window(h, c, start - offset, 2 * p), terms - 1;
      if k < p {
        WithinWindow(p + i - k, 2 * p);
        assert x[p + i - k] == Sample(h, start + p + i - (offset + k), c);
      }
    }
  }

  lemma WithinWindow(index: nat, length: nat)
    requires index < length
    ensures index % length == index
  {
    DivModUnique(index, length, 0, index);
  }

  /** Taps past the end of the impulse response contribute nothing. */
  lemma {:induction false} FirPastEnd(h: seq<Frame>, c: nat, row: seq<real>, t: int, terms: nat)
    requires |row| <= terms
    ensures Fir(h, c, row, t, terms) == Fir(h, c, row, t, |row|)
  {
    if |row| < terms {
      FirPastEnd(h, c, row, t, terms - 1);
    }
  }

  /** The filter is causal: it never looks at frames after `t`. */
  lemma {:induction false} FirIsCausal(h: seq<Frame>, g: seq<Frame>, c: nat, row: seq<real>, t: int, terms: nat)
    requires t < |h|
    ensures Fir(h + g, c, row, t, terms) == Fir(h, c, row, t, terms)
  {
    if terms > 0 {
      FirIsCausal(h, g, c, row, t, terms - 1);
    }
  }

  lemma {:induction false} DirectIsCausal(h: seq<Frame>, g: seq<Frame>, rows: seq<seq<real>>, t: int, channels: nat)
    requires t < |h| && channels <= |rows|
    ensures Direct(h + g, rows, t, channels) == Direct(h, rows, t, channels)
  {
    if channels > 0 {
      DirectIsCausal(h, g, rows, t, channels - 1);
      FirIsCausal(h, g, channels - 1, rows[channels - 1], t, |rows[channels - 1]|);
    }
  }

  lemma WindowIsCausal(h: seq<Frame>, g: seq<Frame>, c: nat, start: int, length: nat)
    requires start + length <= |h|
    ensures Window(h + g, c, start, length) == Window(h, c, start, length)
  {
    forall i | 0 <= i < length
      ensures Window(h + g, c, start, length)[i] == Window(h, c, start, length)[i]
    {
      assert Window(h + g, c, start, length)[i] == Sample(h + g, start + i, c);
      assert Window(h, c, start, length)[i] == Sample(h, start + i, c);
    }
  }
}
