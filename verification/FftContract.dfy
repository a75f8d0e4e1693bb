/** The real-to-complex transforms behind FftWrapperBase, and how their scaling factors may vary. */
module FftContract {
  import opened Complex
  import opened Signals
  import R = RealSums

  /** FftWrapperBase: a transform pair and the scaling factors the wrapper declares. */
  datatype Fft = Fft(size: nat, bins: nat,
                     forward: seq<real> -> seq<Cx>, inverse: seq<Cx> -> seq<real>,
                     forwardScale: real, inverseScale: real)

  /** Circular convolution of two real blocks. */
  function CircularTerm(h: seq<real>, x: seq<real>, n: int): int -> real
    requires |x| > 0
  {
    l => RAt(h, l) * x[(n - l) % |x|]
  }

  function Circular(h: seq<real>, x: seq<real>, n: int): real
    requires |x| > 0
  {
    R.Sum(|x|, CircularTerm(h, x, n))
  }

  // The element-wise vector operations applied to spectra.

  function MulSeq(X: seq<Cx>, Y: seq<Cx>): (Z: seq<Cx>)
    requires |X| == |Y|
    ensures |Z| == |X| && forall k :: 0 <= k < |X| ==> Z[k] == Mul(X[k], Y[k])
  {
    seq(|X|, k requires 0 <= k < |X| => Mul(X[k], Y[k]))
  }

  function AddSeq(X: seq<Cx>, Y: seq<Cx>): (Z: seq<Cx>)
    requires |X| == |Y|
    ensures |Z| == |X| && forall k :: 0 <= k < |X| ==> Z[k] == Add(X[k], Y[k])
  {
    seq(|X|, k requires 0 <= k < |X| => Add(X[k], Y[k]))
  }

  function ScaleSeq(c: real, X: seq<Cx>): (Z: seq<Cx>)
    ensures |Z| == |X| && forall k :: 0 <= k < |X| ==> Z[k] == Scale(c, X[k])
  {
    seq(|X|, k requires 0 <= k < |X| => Scale(c, X[k]))
  }

  ghost predicate Sizes(f: Fft) {
    && f.size > 0 && f.bins > 0
    && f.forwardScale != 0.0 && f.inverseScale != 0.0
    && (forall x: seq<real> {:trigger f.forward(x)} :: |x| == f.size ==> |f.forward(x)| == f.bins)
    && (forall X: seq<Cx> {:trigger f.inverse(X)} :: |X| == f.bins ==> |f.inverse(X)| == f.size)
  }

  ghost predicate Silent(x: seq<real>) { forall i :: 0 <= i < |x| ==> x[i] == 0.0 }

  ghost predicate Dark(X: seq<Cx>) { forall k :: 0 <= k < |X| ==> X[k] == ZERO }

  ghost predicate Additive(f: Fft, X: seq<Cx>, Y: seq<Cx>)
    requires Sizes(f) && |X| == f.bins && |Y| == f.bins
  {
    forall n :: 0 <= n < f.size ==> f.inverse(AddSeq(X, Y))[n] == f.inverse(X)[n] + f.inverse(Y)[n]
  }

  ghost predicate Homogeneous(f: Fft, c: real, X: seq<Cx>)
    requires Sizes(f) && |X| == f.bins
  {
    forall n :: 0 <= n < f.size ==> f.inverse(ScaleSeq(c, X))[n] == c * f.inverse(X)[n]
  }

  // The gain of transforming two blocks, multiplying and transforming back.
  function LoopGain(f: Fft): real {
    f.forwardScale * f.forwardScale * f.inverseScale * (f.size as real)
  }

  ghost predicate Convolves(f: Fft, x: seq<real>, h: seq<real>)
    requires Sizes(f) && |x| == f.size && |h| == f.size
  {
    forall n :: 0 <= n < f.size ==>
      f.inverse(MulSeq(f.forward(x), f.forward(h)))[n] == LoopGain(f) * Circular(h, x, n)
  }

  /** What the convolvers rely on: block sizes, linearity of the inverse transform, silence
      staying silent, and the circular convolution theorem with the declared scaling factors. */
  ghost predicate IsFft(f: Fft) {
    && Sizes(f)
    && (forall x: seq<real> :: |x| == f.size && Silent(x) ==> Dark(f.forward(x)))
    && (forall X: seq<Cx>, Y: seq<Cx> :: |X| == f.bins && |Y| == f.bins ==> Additive(f, X, Y))
    && (forall c: real, X: seq<Cx> :: |X| == f.bins ==> Homogeneous(f, c, X))
    && (forall x: seq<real>, h: seq<real> :: |x| == f.size && |h| == f.size ==> Convolves(f, x, h))
  }

  /** A wrapper whose forward transform is amplified by c and that says so. */
  function Rescaled(f: Fft, c: real): (g: Fft)
    ensures g.size == f.size && g.bins == f.bins && g.forwardScale == c * f.forwardScale
      && g.inverseScale == f.inverseScale
    ensures g.inverse == f.inverse && forall x :: g.forward(x) == ScaleSeq(c, f.forward(x))
  {
    Fft(f.size, f.bins, x => ScaleSeq(c, f.forward(x)), f.inverse, c * f.forwardScale, f.inverseScale)
  }

  /** The contract leaves the forward scaling factor free: it holds for every amplification. */
  lemma RescaledIsFft(f: Fft, c: real)
    requires IsFft(f) && c != 0.0
    ensures IsFft(Rescaled(f, c))
  {
    hide Silent, Dark, Additive, Homogeneous, Convolves;
    var g := Rescaled(f, c);
    NonZeroProduct(c, f.forwardScale);
    assert Sizes(g);
    forall x: seq<real> | |x| == g.size && Silent(x) ensures Dark(g.forward(x)) {
      DarkScaled(c, f.forward(x));
    }
    forall X: seq<Cx>, Y: seq<Cx> | |X| == g.bins && |Y| == g.bins ensures Additive(g, X, Y) {
      SameInverse(f, c, X, Y, 0.0);
    }
    forall d: real, X: seq<Cx> | |X| == g.bins ensures Homogeneous(g, d, X) {
      SameInverse(f, c, X, X, d);
    }
    forall x: seq<real>, h: seq<real> | |x| == g.size && |h| == g.size ensures Convolves(g, x, h) {
      RescaledConvolves(f, c, x, h);
    }
  }

  lemma NonZeroProduct(x: real, y: real)
    requires x != 0.0 && y != 0.0
    ensures x * y != 0.0
  {}

  lemma DarkScaled(c: real, X: seq<Cx>)
    requires Dark(X)
    ensures Dark(ScaleSeq(c, X))
  {}

  lemma SameInverse(f: Fft, c: real, X: seq<Cx>, Y: seq<Cx>, d: real)
    requires Sizes(f) && Sizes(Rescaled(f, c)) && |X| == |Y| == f.bins
    ensures Additive(f, X, Y) ==> Additive(Rescaled(f, c), X, Y)
    ensures Homogeneous(f, d, X) ==> Homogeneous(Rescaled(f, c), d, X)
  {
    hide AddSeq, ScaleSeq;
  }

  lemma MulScaled(c: real, X: seq<Cx>, Y: seq<Cx>)
    requires |X| == |Y|
    ensures MulSeq(ScaleSeq(c, X), ScaleSeq(c, Y)) == ScaleSeq(c * c, MulSeq(X, Y))
  {
    hide Mul, Scale;
    forall k | 0 <= k < |X| ensures Mul(Scale(c, X[k]), Scale(c, Y[k])) == Scale(c * c, Mul(X[k], Y[k])) {
      ScaledProduct(c, X[k], Y[k]);
    }
  }

  lemma ScaledProduct(c: real, a: Cx, b: Cx)
    ensures Mul(Scale(c, a), Scale(c, b)) == Scale(c * c, Mul(a, b))
  {
    hide Mul, Scale;
    ScaleLaws(c, a, Scale(c, b));
    ScaleLaws(c, b, a);
    MulComm(a, Scale(c, b));
    MulComm(b, a);
    ScaleTwice(c, Mul(a, b));
  }

  lemma ScaleTwice(c: real, a: Cx)
    ensures Scale(c, Scale(c, a)) == Scale(c * c, a)
  {}

  lemma RescaledConvolves(f: Fft, c: real, x: seq<real>, h: seq<real>)
    requires IsFft(f) && Sizes(Rescaled(f, c)) && |x| == f.size && |h| == f.size
    ensures Convolves(Rescaled(f, c), x, h)
  {
    hide MulSeq, ScaleSeq, Circular, Silent, Dark, Additive, LoopGain;
    var g, P := Rescaled(f, c), MulSeq(f.forward(x), f.forward(h));
    MulScaled(c, f.forward(x), f.forward(h));
    assert Convolves(f, x, h) && Homogeneous(f, c * c, P);
    forall n | 0 <= n < g.size
      ensures g.inverse(MulSeq(g.forward(x), g.forward(h)))[n] == LoopGain(g) * Circular(h, x, n)
    {
      RescaledGain(f, c, Circular(h, x, n), f.inverse(P)[n]);
    }
  }

  lemma RescaledGain(f: Fft, c: real, y: real, z: real)
    requires z == LoopGain(f) * y
    ensures (c * c) * z == LoopGain(Rescaled(f, c)) * y
  {
    var a, b, n := f.forwardScale, f.inverseScale, f.size as real;
    assert LoopGain(Rescaled(f, c)) == (c * a) * (c * a) * b * n;
    assert (c * a) * (c * a) * b * n == (c * c) * (a * a * b * n);
    assert (c * c) * ((a * a * b * n) * y) == ((c * c) * (a * a * b * n)) * y;
  }
}
