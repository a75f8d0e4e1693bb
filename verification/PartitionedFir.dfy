/**
 The algebra of uniformly partitioned convolution: products of block spectra, added up over
 the partitions and transformed back, are the samples of a direct FIR filter.
 */
module PartitionedFir {
  import opened Complex
  import opened Arithmetic
  import opened Signals
  import opened FftContract
  import R = RealSums

  /** The 2 B samples of x that ended b blocks of B samples ago. */
  function Window(x: seq<real>, B: nat, b: nat): (w: seq<real>)
    ensures |w| == 2 * B
    ensures forall i :: 0 <= i < 2 * B ==> w[i] == RAt(x, |x| - (b + 2) * B + i)
  {
    seq(2 * B, i => RAt(x, |x| - (b + 2) * B + i))
  }

  /** Partition b of the impulse response h: B scaled taps, zero-padded to a transform block. */
  function Taps(h: seq<real>, B: nat, b: nat, scale: real): (p: seq<real>)
    ensures |p| == 2 * B
    ensures forall i :: 0 <= i < 2 * B ==> p[i] == if i < B then scale * RAt(h, b * B + i) else 0.0
  {
    seq(2 * B, i => if i < B then scale * RAt(h, b * B + i) else 0.0)
  }

  /** Direct form: sample t of the convolution of h and x. */
  function FirTerm(h: seq<real>, x: seq<real>, t: int): int -> real {
    l => RAt(h, l) * RAt(x, t - l)
  }

  function Fir(h: seq<real>, x: seq<real>, t: int): real {
    R.Sum(|h|, FirTerm(h, x, t))
  }

  /** Sample n of the newest block of B samples of x, filtered with h and amplified. The second
      factor is one unless the forward transform scales. */
  function Output(h: seq<real>, x: seq<real>, n: int, B: nat, gain: real, scale: real): real {
    gain * (scale * Fir(h, x, |x| - B + n))
  }

  lemma OutputIs(h: seq<real>, x: seq<real>, n: int, B: nat, gain: real, scale: real)
    ensures Output(h, x, n, B, gain, scale) == gain * (scale * Fir(h, x, |x| - B + n))
  {}

  // Taps beyond the end of h are zero.
  lemma FirPadded(h: seq<real>, x: seq<real>, t: int, n: nat)
    requires |h| <= n
    ensures R.Sum(n, FirTerm(h, x, t)) == Fir(h, x, t)
  {
    var f := FirTerm(h, x, t);
    forall i | |h| <= i < n ensures f(i) == 0.0 {
      assert RAt(h, i) == 0.0;
    }
    R.SumTail(|h|, n, f);
  }

  // The FIR terms of one partition.
  function PartTerm(h: seq<real>, x: seq<real>, t: int, B: nat, b: int): int -> real {
    q => FirTerm(h, x, t)(q + B * b)
  }

  lemma BlockTerm(h: seq<real>, x: seq<real>, B: nat, b: nat, scale: real, n: nat, l: nat)
    requires n < B && l < B
    ensures CircularTerm(Taps(h, B, b, scale), Window(x, B, b), B + n)(l) ==
            scale * PartTerm(h, x, |x| - B + n, B, b)(l)
  {
    hide Window, Taps, RAt;
    var i, k := B + n - l, l + B * b;
    var p, w := Taps(h, B, b, scale), Window(x, B, b);
    DivModUnique(i, 0, i, 2 * B);
    assert b * B + l == k && (b + 2) * B == B * b + 2 * B;
    assert |x| - (b + 2) * B + i == |x| - B + n - k;
    TapAt(h, B, b, scale, l);
    assert p[l] == scale * RAt(h, k) && w[i] == RAt(x, |x| - B + n - k);
    assert CircularTerm(p, w, B + n)(l) == p[l] * w[i] by { InRange(p, l); }
    PartAt(h, x, |x| - B + n, B, b, l, k);
    ScaledProduct(scale, RAt(h, k), RAt(x, |x| - B + n - k), p[l], PartTerm(h, x, |x| - B + n, B, b)(l));
  }

  lemma PartAt(h: seq<real>, x: seq<real>, t: int, B: nat, b: int, l: int, k: int)
    requires k == l + B * b
    ensures PartTerm(h, x, t, B, b)(l) == RAt(h, k) * RAt(x, t - k)
  {
    hide RAt;
    assert PartTerm(h, x, t, B, b)(l) == FirTerm(h, x, t)(k);
  }

  lemma InRange(p: seq<real>, l: nat)
    requires l < |p|
    ensures RAt(p, l) == p[l]
  {}

  lemma TapAt(h: seq<real>, B: nat, b: nat, scale: real, l: nat)
    requires l < B
    ensures Taps(h, B, b, scale)[l] == scale * RAt(h, b * B + l)
  {
    hide RAt;
  }

  lemma ScaledProduct(s: real, a: real, b: real, sa: real, ab: real)
    requires sa == s * a && ab == a * b
    ensures sa * b == s * ab
  {}

  ghost predicate Padded(p: seq<real>, B: nat) {
    |p| == 2 * B && forall i :: B <= i < 2 * B ==> p[i] == 0.0
  }

  lemma TapsPadded(h: seq<real>, B: nat, b: nat, scale: real)
    ensures Padded(Taps(h, B, b, scale), B)
  {
    hide RAt;
  }

  lemma ZeroTap(p: seq<real>, w: seq<real>, B: nat, n: nat, i: nat)
    requires Padded(p, B) && |w| == 2 * B && B <= i < 2 * B
    ensures CircularTerm(p, w, B + n)(i) == 0.0
  {
    assert RAt(p, i) == 0.0;
  }

  /** The second half of a circular block convolution is free of aliasing. */
  lemma BlockConvolution(h: seq<real>, x: seq<real>, B: nat, b: nat, scale: real, n: nat)
    requires n < B
    ensures Circular(Taps(h, B, b, scale), Window(x, B, b), B + n) ==
            scale * R.Sum(B, PartTerm(h, x, |x| - B + n, B, b))
  {
    hide Window, PartTerm, CircularTerm, Taps;
    TapsPadded(h, B, b, scale);
    var p, w := Taps(h, B, b, scale), Window(x, B, b);
    var f, g := CircularTerm(p, w, B + n), PartTerm(h, x, |x| - B + n, B, b);
    forall i | B <= i < 2 * B ensures f(i) == 0.0 { ZeroTap(p, w, B, n, i); }
    R.SumTail(B, 2 * B, f);
    forall l | 0 <= l < B ensures f(l) == scale * g(l) { BlockTerm(h, x, B, b, scale, n, l); }
    R.SumCongr(B, f, l => scale * g(l));
    R.SumMul(B, scale, g);
  }

  // The contribution of partition b to output sample t.
  function Contribution(h: seq<real>, x: seq<real>, t: int, B: nat): int -> real {
    b => R.Sum(B, PartTerm(h, x, t, B, b))
  }

  /** The sum over the partitions is the whole filter. */
  lemma PartitionSum(h: seq<real>, x: seq<real>, t: int, B: nat, K: nat)
    requires |h| <= B * K
    ensures R.Sum(K, Contribution(h, x, t, B)) == Fir(h, x, t)
  {
    hide FirTerm;
    var f := FirTerm(h, x, t);
    R.SumBlocks(B, K, f);
    forall b | 0 <= b < K ensures R.Sum(B, q => f(q + B * b)) == Contribution(h, x, t, B)(b) {
      R.SumCongr(B, q => f(q + B * b), PartTerm(h, x, t, B, b));
    }
    R.SumCongr(K, b => R.Sum(B, q => f(q + B * b)), Contribution(h, x, t, B));
    FirPadded(h, x, t, B * K);
  }

  /** The accumulator of processFilter after the first b partitions. */
  function Accumulated(U: seq<seq<Cx>>, V: seq<seq<Cx>>, bins: nat, b: nat): (A: seq<Cx>)
    requires |U| == |V| && 1 <= b <= |U|
    requires forall i :: 0 <= i < |U| ==> |U[i]| == |V[i]| == bins
    ensures |A| == bins
  {
    if b == 1 then MulSeq(U[0], V[0]) else AddSeq(Accumulated(U, V, bins, b - 1), MulSeq(U[b - 1], V[b - 1]))
  }

  lemma AccumulatedAt(U: seq<seq<Cx>>, V: seq<seq<Cx>>, bins: nat, b: nat, i: nat)
    requires |U| == |V| && b < |U| && i < bins
    requires forall j :: 0 <= j < |U| ==> |U[j]| == |V[j]| == bins
    ensures Accumulated(U, V, bins, b + 1)[i] ==
      if b == 0 then Mul(U[b][i], V[b][i]) else Add(Accumulated(U, V, bins, b)[i], Mul(U[b][i], V[b][i]))
  {
    hide Mul, Add;
  }

  /** U and V are the spectra of the last K input windows and of the K filter partitions. */
  ghost predicate Spectra(f: Fft, U: seq<seq<Cx>>, V: seq<seq<Cx>>, x: seq<real>, h: seq<real>, B: nat, scale: real)
    requires IsFft(f) && f.size == 2 * B
  {
    && |U| == |V|
    && (forall b :: 0 <= b < |U| ==> U[b] == f.forward(Window(x, B, b)))
    && (forall b :: 0 <= b < |V| ==> V[b] == f.forward(Taps(h, B, b, scale)))
    && (forall b :: 0 <= b < |U| ==> |U[b]| == |V[b]| == f.bins)
  }

  lemma ProductOutput(f: Fft, x: seq<real>, h: seq<real>, B: nat, b: nat, scale: real, n: nat)
    requires IsFft(f) && f.size == 2 * B && n < B
    ensures |f.forward(Window(x, B, b))| == |f.forward(Taps(h, B, b, scale))| == f.bins
    ensures |f.inverse(MulSeq(f.forward(Window(x, B, b)), f.forward(Taps(h, B, b, scale))))| == 2 * B
    ensures f.inverse(MulSeq(f.forward(Window(x, B, b)), f.forward(Taps(h, B, b, scale))))[B + n] ==
            LoopGain(f) * (scale * R.Sum(B, PartTerm(h, x, |x| - B + n, B, b)))
  {
    hide Window, Taps, Circular, MulSeq, LoopGain, PartTerm, Additive, Homogeneous, Silent, Dark;
    var w, p := Window(x, B, b), Taps(h, B, b, scale);
    assert Convolves(f, w, p);
    BlockConvolution(h, x, B, b, scale, n);
  }

  lemma {:induction false} AccumulatedOutput(f: Fft, U: seq<seq<Cx>>, V: seq<seq<Cx>>, x: seq<real>, h: seq<real>,
                                             B: nat, scale: real, b: nat, n: nat)
    requires IsFft(f) && f.size == 2 * B && n < B
    requires Spectra(f, U, V, x, h, B, scale) && 1 <= b <= |U|
    ensures |f.inverse(Accumulated(U, V, f.bins, b))| == 2 * B
    ensures f.inverse(Accumulated(U, V, f.bins, b))[B + n] ==
            LoopGain(f) * (scale * R.Sum(b, Contribution(h, x, |x| - B + n, B)))
  {
    hide Window, Taps, MulSeq, AddSeq, LoopGain, PartTerm, Homogeneous, Additive, Silent, Dark, Convolves, IsFft;
    FftSizes(f);
    var t := |x| - B + n;
    var g := Contribution(h, x, t, B);
    ProductOutput(f, x, h, B, b - 1, scale, n);
    if b > 1 {
      AccumulatedOutput(f, U, V, x, h, B, scale, b - 1, n);
      AddedOutput(f, Accumulated(U, V, f.bins, b - 1), MulSeq(U[b - 1], V[b - 1]), B + n);
      DistributeGain(LoopGain(f), scale, R.Sum(b - 1, g), g(b - 1));
    }
  }

  lemma FftSizes(f: Fft)
    requires IsFft(f)
    ensures Sizes(f)
  {}

  lemma AddedOutput(f: Fft, X: seq<Cx>, Y: seq<Cx>, n: nat)
    requires IsFft(f) && |X| == f.bins && |Y| == f.bins && n < f.size
    ensures |f.inverse(AddSeq(X, Y))| == |f.inverse(X)| == |f.inverse(Y)| == f.size
    ensures f.inverse(AddSeq(X, Y))[n] == f.inverse(X)[n] + f.inverse(Y)[n]
  {
    hide AddSeq, Homogeneous, Silent, Dark, Convolves;
    assert Additive(f, X, Y);
  }

  lemma ScaledOutput(f: Fft, c: real, X: seq<Cx>, n: nat)
    requires IsFft(f) && |X| == f.bins && n < f.size
    ensures |f.inverse(ScaleSeq(c, X))| == |f.inverse(X)| == f.size
    ensures f.inverse(ScaleSeq(c, X))[n] == c * f.inverse(X)[n]
  {
    hide ScaleSeq, Additive, Silent, Dark, Convolves;
    assert Homogeneous(f, c, X);
  }

  lemma DistributeGain(c: real, s: real, a: real, b: real)
    ensures c * (s * (a + b)) == c * (s * a) + c * (s * b)
  {}

  /** calculateFilterScalingFactor */
  function FilterScale(f: Fft): real
    requires f.size > 0 && f.forwardScale != 0.0 && f.inverseScale != 0.0
  {
    NonZeroProduct(f);
    1.0 / (f.forwardScale * f.inverseScale * (f.size as real))
  }

  lemma NonZeroProduct(f: Fft)
    requires f.size > 0 && f.forwardScale != 0.0 && f.inverseScale != 0.0
    ensures f.forwardScale * f.inverseScale * (f.size as real) != 0.0
  {}

  lemma ScaleCompensates(f: Fft, y: real)
    requires f.size > 0 && f.forwardScale != 0.0 && f.inverseScale != 0.0
    ensures LoopGain(f) * (FilterScale(f) * y) == f.forwardScale * y
  {
    NonZeroProduct(f);
    var d := f.forwardScale * f.inverseScale * (f.size as real);
    assert LoopGain(f) == f.forwardScale * d;
    Cancel(f.forwardScale, d, y);
  }

  lemma Cancel(a: real, d: real, y: real)
    requires d != 0.0
    ensures (a * d) * ((1.0 / d) * y) == a * y
  {
    assert d * (1.0 / d) == 1.0;
    assert (a * d) * ((1.0 / d) * y) == a * (d * (1.0 / d)) * y;
  }

  /** The partitioned convolver is the direct filter, times the gain and the forward scaling
      factor of the transform. */
  lemma PartitionedIsDirect(f: Fft, U: seq<seq<Cx>>, V: seq<seq<Cx>>, x: seq<real>, h: seq<real>, B: nat,
                            gain: real, n: nat)
    requires IsFft(f) && f.size == 2 * B && n < B && |U| >= 1
    requires Spectra(f, U, V, x, h, B, FilterScale(f))
    requires |h| <= B * |U|
    ensures |f.inverse(ScaleSeq(gain, Accumulated(U, V, f.bins, |U|)))| == 2 * B
    ensures f.inverse(ScaleSeq(gain, Accumulated(U, V, f.bins, |U|)))[B + n] ==
            Output(h, x, n, B, gain, f.forwardScale)
  {
    hide Window, Taps, MulSeq, AddSeq, ScaleSeq, LoopGain, FilterScale, Contribution, IsFft, Fir, Accumulated;
    FftSizes(f);
    var K, t := |U|, |x| - B + n;
    AccumulatedOutput(f, U, V, x, h, B, FilterScale(f), K, n);
    ScaledOutput(f, gain, Accumulated(U, V, f.bins, K), B + n);
    PartitionSum(h, x, t, B, K);
    ScaleCompensates(f, Fir(h, x, t));
  }

  /** The spectra a convolver with K partitions holds after some blocks of input. */
  ghost predicate HeldSpectra(f: Fft, U: seq<seq<Cx>>, V: seq<seq<Cx>>, x: seq<real>, h: seq<real>, B: nat, K: nat)
    requires IsFft(f) && f.size == 2 * B && B > 0
  {
    |U| == K && |h| <= B * K && |x| % B == 0 && Spectra(f, U, V, x, h, B, FilterScale(f))
  }

  /** Sample n of what processFilter and transformOutput make of them. */
  ghost function Processed(f: Fft, U: seq<seq<Cx>>, V: seq<seq<Cx>>, gain: real, B: nat, n: nat): real
    requires IsFft(f) && f.size == 2 * B && n < B && |U| == |V| >= 1
    requires forall b :: 0 <= b < |U| ==> |U[b]| == |V[b]| == f.bins
  {
    FftSizes(f);
    f.inverse(ScaleSeq(gain, Accumulated(U, V, f.bins, |U|)))[B + n]
  }

  ghost predicate Exact(f: Fft, U: seq<seq<Cx>>, V: seq<seq<Cx>>, x: seq<real>, h: seq<real>, gain: real, B: nat,
                        K: nat, n: nat)
    requires IsFft(f) && f.size == 2 * B && n < B && K >= 1 && HeldSpectra(f, U, V, x, h, B, K)
  {
    Processed(f, U, V, gain, B, n) == gain * Fir(h, x, |x| - B + n)
  }

  /** The convolvers divide by the forward scaling factor once but apply it twice: over any
      transform, and with any number of partitions, what they compute is direct filtering for all
      inputs, responses and gains if and only if that factor is one. */
  lemma ExactIffUnitScale(f: Fft, B: nat, K: nat)
    requires IsFft(f) && f.size == 2 * B && B > 0 && K >= 1
    ensures (forall U, V, x, h, gain, n: nat :: n < B && HeldSpectra(f, U, V, x, h, B, K) ==>
             Exact(f, U, V, x, h, gain, B, K, n))
            <==> f.forwardScale == 1.0
  {
    hide IsFft, Spectra, Window, Taps, Accumulated, ScaleSeq, Fir, Processed;
    if f.forwardScale == 1.0 {
      forall U, V, x, h, gain, n: nat | n < B && HeldSpectra(f, U, V, x, h, B, K)
        ensures Exact(f, U, V, x, h, gain, B, K, n)
      {
        ProcessedIsOutput(f, U, V, x, h, gain, B, K, n);
      }
    } else {
      var x := Impulse(B);
      var U, V := ImpulseSpectra(f, B, K);
      ProcessedIsOutput(f, U, V, x, [1.0], 1.0, B, K, 0);
      ImpulseFir(B);
      assert !Exact(f, U, V, x, [1.0], 1.0, B, K, 0);
    }
  }

  lemma ProcessedIsOutput(f: Fft, U: seq<seq<Cx>>, V: seq<seq<Cx>>, x: seq<real>, h: seq<real>, gain: real, B: nat,
                          K: nat, n: nat)
    requires IsFft(f) && f.size == 2 * B && n < B && K >= 1 && HeldSpectra(f, U, V, x, h, B, K)
    ensures Processed(f, U, V, gain, B, n) == Output(h, x, n, B, gain, f.forwardScale)
  {
    hide IsFft, Window, Taps, Accumulated, ScaleSeq, Fir, Output;
    PartitionedIsDirect(f, U, V, x, h, B, gain, n);
  }

  /** One block that holds an impulse. */
  function Impulse(B: nat): (x: seq<real>)
    ensures |x| == B && forall i :: 0 <= i < B ==> x[i] == if i == 0 then 1.0 else 0.0
  {
    seq(B, i => if i == 0 then 1.0 else 0.0)
  }

  lemma ImpulseFir(B: nat)
    requires B > 0
    ensures Fir([1.0], Impulse(B), 0) == 1.0
  {
    var g := FirTerm([1.0], Impulse(B), 0);
    assert R.Sum(1, g) == R.Sum(0, g) + g(0);
  }

  lemma ImpulseSpectra(f: Fft, B: nat, K: nat) returns (U: seq<seq<Cx>>, V: seq<seq<Cx>>)
    requires IsFft(f) && f.size == 2 * B && B > 0 && K >= 1
    ensures HeldSpectra(f, U, V, Impulse(B), [1.0], B, K)
  {
    hide IsFft, Window, Taps, FilterScale;
    FftSizes(f);
    U := seq(K, b requires 0 <= b => f.forward(Window(Impulse(B), B, b)));
    V := seq(K, b requires 0 <= b => f.forward(Taps([1.0], B, b, FilterScale(f))));
    DivModUnique(B, 1, 0, B);
    MulMono(1, K, B);
  }
}
