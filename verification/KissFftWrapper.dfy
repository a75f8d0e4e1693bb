/** The default wrapper, which calls kiss_fftr and kiss_fftri, meets the FFT contract. */
module KissFftWrapper {
  import opened Complex
  import opened ComplexSums
  import R = RealSums
  import opened Arithmetic
  import opened Dft
  import opened RealDft
  import opened KissFftReal
  import opened Twiddles
  import opened Signals
  import opened FftContract

  /** The pair of transforms that KissFftr and KissFftri compute for the table tw. */
  function Kiss(tw: seq<Cx>): (f: Fft)
    requires |tw| >= 2 && |tw| % 2 == 0
    ensures f.size == |tw| && f.bins == |tw| / 2 + 1 && f.forwardScale == 1.0 && f.inverseScale == 1.0
  {
    Fft(|tw|, |tw| / 2 + 1, x => Forward(x, tw), X => Back(X, tw), 1.0, 1.0)
  }

  function Forward(x: seq<real>, tw: seq<Cx>): (X: seq<Cx>)
    requires |tw| > 0
    ensures |X| == |tw| / 2 + 1 && forall k :: 0 <= k <= |tw| / 2 ==> X[k] == RealBin(x, tw, k)
  {
    seq(|tw| / 2 + 1, k => RealBin(x, tw, k))
  }

  function Back(X: seq<Cx>, tw: seq<Cx>): (x: seq<real>)
    requires |tw| >= 2 && |tw| % 2 == 0
    ensures |x| == |tw|
    ensures |X| == |tw| / 2 + 1 ==> forall n :: 0 <= n < |tw| ==> x[n] == RealSample(X, tw, n)
  {
    if |X| == |tw| / 2 + 1 then seq(|tw|, n => RealSample(X, tw, n)) else seq(|tw|, n => 0.0)
  }

  lemma KissSizes(tw: seq<Cx>)
    requires |tw| >= 2 && |tw| % 2 == 0
    ensures Sizes(Kiss(tw))
  {}

  lemma SilentIsDark(x: seq<real>, tw: seq<Cx>)
    requires |tw| >= 2 && Silent(x)
    ensures Dark(Forward(x, tw))
  {
    hide Mul, Add, Tw;
    forall k | 0 <= k <= |tw| / 2 ensures RealBin(x, tw, k) == ZERO {
      forall j | 0 <= j < |tw| ensures SubTerm(Embed(x), 0, 1, tw, 1, k)(j) == ZERO {
        PlainTerm(Embed(x), tw, k, j);
        MulUnit(Tw(tw, j * k));
      }
      SumZero(|tw|, SubTerm(Embed(x), 0, 1, tw, 1, k));
    }
  }

  lemma ExtendedAdd(X: seq<Cx>, Y: seq<Cx>, m: nat, k: int)
    requires |X| == |Y| == m + 1 && m > 0
    ensures Extended(AddSeq(X, Y), m)(k) == Add(Extended(X, m)(k), Extended(Y, m)(k))
  {}

  lemma ExtendedScale(c: real, X: seq<Cx>, m: nat, k: int)
    requires |X| == m + 1 && m > 0
    ensures Extended(ScaleSeq(c, X), m)(k) == Scale(c, Extended(X, m)(k))
  {
    hide Mul;
    ScaleConj(c, ExtendedAt(X, m, k % (2 * m)));
  }

  lemma ScaleConj(c: real, a: Cx)
    ensures Scale(c, Conj(a)) == Conj(Scale(c, a))
  {}

  lemma BackAdditive(X: seq<Cx>, Y: seq<Cx>, tw: seq<Cx>, n: int)
    requires |tw| >= 2 && |tw| % 2 == 0 && |X| == |Y| == |tw| / 2 + 1
    ensures RealSample(AddSeq(X, Y), tw, n) == RealSample(X, tw, n) + RealSample(Y, tw, n)
  {
    hide Mul, Tw, Extended, AddSeq;
    var m := |tw| / 2;
    var fx, fy := InverseTerm(Extended(X, m), tw, n), InverseTerm(Extended(Y, m), tw, n);
    forall k ensures InverseTerm(Extended(AddSeq(X, Y), m), tw, n)(k) == Add(fx(k), fy(k)) {
      ExtendedAdd(X, Y, m, k);
      Distribute(Tw(tw, -(k * n)), Extended(X, m)(k), Extended(Y, m)(k));
    }
    SumAdd(|tw|, fx, fy);
    SumCongr(|tw|, InverseTerm(Extended(AddSeq(X, Y), m), tw, n), k => Add(fx(k), fy(k)));
  }

  lemma BackHomogeneous(c: real, X: seq<Cx>, tw: seq<Cx>, n: int)
    requires |tw| >= 2 && |tw| % 2 == 0 && |X| == |tw| / 2 + 1
    ensures RealSample(ScaleSeq(c, X), tw, n) == c * RealSample(X, tw, n)
  {
    hide Mul, Add, Tw, Extended, ScaleSeq, InverseTerm;
    var m := |tw| / 2;
    var fx := InverseTerm(Extended(X, m), tw, n);
    forall k ensures InverseTerm(Extended(ScaleSeq(c, X), m), tw, n)(k) == Scale(c, fx(k)) {
      HomogeneousTerm(c, X, tw, m, n, k);
    }
    SumScale(|tw|, c, fx);
    SumCongr(|tw|, InverseTerm(Extended(ScaleSeq(c, X), m), tw, n), k => Scale(c, fx(k)));
  }

  lemma HomogeneousTerm(c: real, X: seq<Cx>, tw: seq<Cx>, m: nat, n: int, k: int)
    requires |tw| >= 2 && |X| == m + 1 && m > 0
    ensures InverseTerm(Extended(ScaleSeq(c, X), m), tw, n)(k) == Scale(c, InverseTerm(Extended(X, m), tw, n)(k))
  {
    hide Mul, Scale, Tw, Extended, ScaleSeq;
    ExtendedScale(c, X, m, k);
    ScaleLaws(c, Extended(X, m)(k), Tw(tw, -(k * n)));
  }

  // A half spectrum of real samples extends to the full one.
  lemma FullSpectrum(x: seq<real>, tw: seq<Cx>, k: nat)
    requires Table(tw, false) && |tw| >= 2 && |tw| % 2 == 0 && k < |tw|
    ensures k <= |tw| / 2 ==> RealBin(x, tw, k) == Forward(x, tw)[k]
    ensures k > |tw| / 2 ==> RealBin(x, tw, k) == Conj(Forward(x, tw)[|tw| - k])
    ensures k == 0 || k == |tw| / 2 ==> RealBin(x, tw, k).i == 0.0
  {
    hide Table, Transform, Embed;
    var N := |tw|;
    if k > N / 2 || k == 0 || k == N / 2 {
      RealSymmetry(x, tw, false, N - k);
      TransformPeriodic(Embed(x), tw, k - N, 1);
      assert k - N + 1 * N == k && -(N - k) == k - N;
      RealSymmetry(x, tw, false, 0);
      assert -0 == 0;
    }
  }

  lemma ProductBin(x: seq<real>, h: seq<real>, tw: seq<Cx>, k: nat)
    requires Table(tw, false) && |tw| >= 2 && |tw| % 2 == 0 && k < |tw|
    ensures Extended(MulSeq(Forward(x, tw), Forward(h, tw)), |tw| / 2)(k) ==
            Mul(RealBin(x, tw, k), RealBin(h, tw, k))
  {
    hide Table, RealBin, Forward, MulSeq, Mul;
    var N, m := |tw|, |tw| / 2;
    FullSpectrum(x, tw, k);
    FullSpectrum(h, tw, k);
    DivModUnique(k, 0, k, 2 * m);
    ProductOfReals(RealBin(x, tw, k), RealBin(h, tw, k));
    if k > m { ConjLaws(Forward(x, tw)[N - k], Forward(h, tw)[N - k]); }
  }

  lemma ProductOfReals(a: Cx, b: Cx)
    ensures a.i == 0.0 && b.i == 0.0 ==> Mul(a, b) == OfReal(Mul(a, b).r)
  {}

  lemma {:induction false} EmbedSum(n: nat, f: int -> real, g: int -> Cx)
    requires forall i :: 0 <= i < n ==> g(i) == OfReal(f(i))
    ensures Sum(n, g) == OfReal(R.Sum(n, f))
  {
    if n > 0 { EmbedSum(n - 1, f, g); }
  }

  lemma CircularReal(h: seq<real>, x: seq<real>, n: int)
    requires |x| > 0 && |h| == |x|
    ensures Sum(|x|, Dft.CircularTerm(Embed(h), Embed(x), n)) == OfReal(Circular(h, x, n))
  {
    hide FftContract.CircularTerm, Dft.CircularTerm, Embed, OfReal, Mul;
    forall l | 0 <= l < |x|
      ensures Dft.CircularTerm(Embed(h), Embed(x), n)(l) == OfReal(FftContract.CircularTerm(h, x, n)(l))
    {
      CircularTermReal(h, x, n, l);
    }
    EmbedSum(|x|, FftContract.CircularTerm(h, x, n), Dft.CircularTerm(Embed(h), Embed(x), n));
  }

  lemma CircularTermReal(h: seq<real>, x: seq<real>, n: int, l: int)
    requires |x| > 0 && |h| == |x| && 0 <= l < |x|
    ensures Dft.CircularTerm(Embed(h), Embed(x), n)(l) == OfReal(FftContract.CircularTerm(h, x, n)(l))
  {
    hide Mul, OfReal;
    var i := (n - l) % |x|;
    assert At(Embed(h), l) == OfReal(h[l]) && Embed(x)[i] == OfReal(x[i]);
    assert Dft.CircularTerm(Embed(h), Embed(x), n)(l) == Mul(OfReal(h[l]), OfReal(x[i]));
    assert FftContract.CircularTerm(h, x, n)(l) == RAt(h, l) * x[i] == h[l] * x[i];
    RealProduct(h[l], x[i], FftContract.CircularTerm(h, x, n)(l));
  }

  lemma RealProduct(a: real, b: real, c: real)
    requires c == a * b
    ensures Mul(OfReal(a), OfReal(b)) == OfReal(c)
  {}

  lemma KissConvolves(x: seq<real>, h: seq<real>, tw: seq<Cx>, n: nat)
    requires Table(tw, false) && |tw| >= 2 && |tw| % 2 == 0 && |x| == |tw| && |h| == |tw| && n < |tw|
    ensures RealSample(MulSeq(Forward(x, tw), Forward(h, tw)), tw, n) == (|tw| as real) * Circular(h, x, n)
  {
    hide Table, Mul, Add, Tw, MulSeq, Forward, Extended, Embed, FftContract.CircularTerm, Dft.CircularTerm, Transform;
    var N, m := |tw|, |tw| / 2;
    var P := MulSeq(Forward(x, tw), Forward(h, tw));
    var Q := Product(Embed(x), Embed(h), tw);
    forall k | 0 <= k < N ensures InverseTerm(Extended(P, m), tw, n)(k) == InverseTerm(Q, tw, n)(k) {
      ProductBin(x, h, tw, k);
    }
    SumCongr(N, InverseTerm(Extended(P, m), tw, n), InverseTerm(Q, tw, n));
    CircularConvolution(Embed(x), Embed(h), tw, false, n);
    CircularReal(h, x, n);
  }

  // The half spectrum of a real signal, extended, is the whole spectrum.
  lemma ForwardExtended(x: seq<real>, tw: seq<Cx>, k: nat)
    requires Table(tw, false) && |tw| >= 2 && |tw| % 2 == 0 && k < |tw|
    ensures Extended(Forward(x, tw), |tw| / 2)(k) == RealBin(x, tw, k)
  {
    hide Table, RealBin, Forward;
    FullSpectrum(x, tw, k);
    DivModUnique(k, 0, k, |tw|);
  }

  /** Round trip of the real transforms: kiss_fftri returns nfft times the samples whose half
      spectrum kiss_fftr delivered. */
  lemma RealRoundTrip(x: seq<real>, X: seq<Cx>, tw: seq<Cx>, n: nat)
    requires Table(tw, false) && |tw| >= 2 && |tw| % 2 == 0 && |x| == |tw| && n < |tw|
    requires |X| == |tw| / 2 + 1 && forall k :: 0 <= k <= |tw| / 2 ==> X[k] == RealBin(x, tw, k)
    ensures RealSample(X, tw, n) == (|tw| as real) * x[n]
  {
    hide Table, Mul, Add, Tw, Extended, Transform, RealBin;
    var N, m := |tw|, |tw| / 2;
    assert X == Forward(x, tw);
    forall k | 0 <= k < N
      ensures InverseTerm(Extended(X, m), tw, n)(k) == InverseTerm(Spectrum(Embed(x), tw), tw, n)(k)
    {
      ForwardExtended(x, tw, k);
      RealBinIs(x, tw, k);
    }
    SumCongr(N, InverseTerm(Extended(X, m), tw, n), InverseTerm(Spectrum(Embed(x), tw), tw, n));
    Inversion(Embed(x), tw, false, n);
    DivModUnique(n, 0, n, N);
  }

  lemma RealBinIs(x: seq<real>, tw: seq<Cx>, k: nat)
    requires |tw| > 0
    ensures RealBin(x, tw, k) == Transform(Embed(x), tw, k)
  {}

  lemma KissAdditive(tw: seq<Cx>, X: seq<Cx>, Y: seq<Cx>)
    requires |tw| >= 2 && |tw| % 2 == 0 && Sizes(Kiss(tw)) && |X| == |Y| == |tw| / 2 + 1
    ensures Additive(Kiss(tw), X, Y)
  {
    hide RealSample, AddSeq;
    forall n | 0 <= n < |tw| ensures RealSample(AddSeq(X, Y), tw, n) == RealSample(X, tw, n) + RealSample(Y, tw, n) {
      BackAdditive(X, Y, tw, n);
    }
  }

  lemma KissHomogeneous(tw: seq<Cx>, c: real, X: seq<Cx>)
    requires |tw| >= 2 && |tw| % 2 == 0 && Sizes(Kiss(tw)) && |X| == |tw| / 2 + 1
    ensures Homogeneous(Kiss(tw), c, X)
  {
    hide RealSample, ScaleSeq;
    var f := Kiss(tw);
    forall n | 0 <= n < f.size ensures f.inverse(ScaleSeq(c, X))[n] == c * f.inverse(X)[n] {
      BackHomogeneous(c, X, tw, n);
    }
  }

  lemma KissConvolvesAll(tw: seq<Cx>, x: seq<real>, h: seq<real>)
    requires Table(tw, false) && |tw| >= 2 && |tw| % 2 == 0 && Sizes(Kiss(tw)) && |x| == |tw| && |h| == |tw|
    ensures Convolves(Kiss(tw), x, h)
  {
    hide RealSample, MulSeq, Circular, Table, RealBin;
    var f := Kiss(tw);
    assert LoopGain(f) == |tw| as real;
    forall n | 0 <= n < f.size
      ensures f.inverse(MulSeq(f.forward(x), f.forward(h)))[n] == LoopGain(f) * Circular(h, x, n)
    {
      KissConvolves(x, h, tw, n);
    }
  }

  /** The wrapper over kiss_fftr and kiss_fftri satisfies everything the convolvers rely on. */
  lemma KissIsFft(tw: seq<Cx>)
    requires |tw| >= 2 && |tw| % 2 == 0 && Table(tw, false)
    ensures IsFft(Kiss(tw))
  {
    hide Table, Forward, Back, Silent, Dark, Additive, Homogeneous, Convolves, Sizes;
    var f := Kiss(tw);
    KissSizes(tw);
    forall x: seq<real> | |x| == f.size && Silent(x) ensures Dark(f.forward(x)) {
      SilentIsDark(x, tw);
    }
    forall X: seq<Cx>, Y: seq<Cx> | |X| == f.bins && |Y| == f.bins ensures Additive(f, X, Y) {
      KissAdditive(tw, X, Y);
    }
    forall c: real, X: seq<Cx> | |X| == f.bins ensures Homogeneous(f, c, X) {
      KissHomogeneous(tw, c, X);
    }
    forall x: seq<real>, h: seq<real> | |x| == f.size && |h| == f.size ensures Convolves(f, x, h) {
      KissConvolvesAll(tw, x, h);
    }
  }

  /** Wrappers with any other forward scaling factor exist for every size kiss_fft offers. */
  lemma OtherScalesExist(tw: seq<Cx>, c: real)
    requires |tw| >= 2 && |tw| % 2 == 0 && Table(tw, false) && c != 0.0
    ensures IsFft(Rescaled(Kiss(tw), c)) && Rescaled(Kiss(tw), c).forwardScale == c
  {
    hide IsFft, Table;
    KissIsFft(tw);
    RescaledIsFft(Kiss(tw), c);
  }

  /** Both directions of the real-valued front end: the samples come back nfft times as large, and
      in between freqdata holds the first half of their transform. */
  method RealThereAndBack(timedata: array<real>, freqdata: array<Cx>, t: Trig)
    requires 2 <= timedata.Length < 0x8000_0000 && timedata.Length % 2 == 0 && IsTrig(t)
    requires freqdata.Length == timedata.Length / 2 + 1
    modifies timedata, freqdata
    ensures forall n :: 0 <= n < timedata.Length ==> timedata[n] == (timedata.Length as real) * old(timedata[n])
    ensures forall k :: 0 <= k < freqdata.Length ==>
      freqdata[k] == RealBin(old(timedata[..]), TwiddleTable(t, timedata.Length, false), k)
  {
    hide Table, IsTrig, KfCexp, TwiddleTable, RealBin, RealSample, ValidRealPlan;
    ghost var x := timedata[..];
    ghost var tw := TwiddleTable(t, timedata.Length, false);
    var forward := KissFftrAlloc(timedata.Length, false, t);
    var backward := KissFftrAlloc(timedata.Length, true, t);
    TwiddlesAreTable(t, timedata.Length, false);
    KissFftr(forward.value, timedata, freqdata, tw);
    KissFftri(backward.value, freqdata, timedata, tw);
    forall n | 0 <= n < timedata.Length ensures timedata[n] == (timedata.Length as real) * x[n] {
      RealRoundTrip(x, freqdata[..], tw, n);
    }
  }
}
