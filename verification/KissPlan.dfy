/** Transform plans: kiss_fft_alloc, kiss_fft_stride and the round trip of the two directions. */
module KissPlan {
  import opened Complex
  import opened ComplexSums
  import opened Arithmetic
  import opened Dft
  import opened KissFft
  import opened FftFactor
  import opened Twiddles

  datatype Plan = Plan(nfft: nat, inverse: bool, factors: seq<int>, tw: seq<Cx>)

  ghost predicate ValidPlan(st: Plan) {
    && st.nfft >= 1
    && |st.tw| == st.nfft
    && Table(st.tw, st.inverse)
    && st.factors == FactorList(st.nfft)
  }

  /** kiss_fft_alloc: the twiddle table, computed from phases, and the factor list of one length
      and direction. */
  method KissFftAlloc(nfft: nat, inverse: bool, t: Trig) returns (st: Plan)
    requires 1 <= nfft < 0x8000_0000 && IsTrig(t)
    ensures ValidPlan(st) && st.nfft == nfft && st.inverse == inverse
    ensures st.tw == TwiddleTable(t, nfft, inverse)
  {
    hide Table, IsTrig, KfCexp;
    var tw: seq<Cx> := [];
    for i := 0 to nfft
      invariant |tw| == i && forall j :: 0 <= j < i ==> tw[j] == TwiddleTable(t, nfft, inverse)[j]
    {
      var phase := -2.0 * t.pi * (i as real) / (nfft as real);
      if inverse { phase := phase * -1.0; }
      assert phase == Phase(t, nfft, inverse, i);
      tw := tw + [KfCexp(t, phase)];
    }
    assert tw == TwiddleTable(t, nfft, inverse);
    TwiddlesAreTable(t, nfft, inverse);
    var facbuf := new int[2 * MAXFACTORS];
    KfFactor(nfft, facbuf);
    st := Plan(nfft, inverse, facbuf[..|FactorList(nfft)|], tw);
  }

  /** kiss_fft_stride: fout becomes the transform of every inStride-th sample of fin, also when
      fin and fout are the same buffer. */
  method KissFftStride(st: Plan, fin: array<Cx>, fout: array<Cx>, inStride: nat)
    requires ValidPlan(st)
    requires (st.nfft - 1) * inStride < fin.Length && st.nfft <= fout.Length
    modifies fout
    ensures |st.tw| > 0
    ensures Transformed(old(fout[..]), fout[..], 0, old(fin[..]), 0, inStride, st.nfft, st.tw, 1)
  {
    hide Table, FactorList, Transformed, Chain;
    FactorListChain(st.nfft);
    ChainHead(st.factors, st.nfft);
    if fin == fout {
      var tmpbuf := new Cx[st.nfft];
      ghost var x, A := fin[..], fout[..];
      KfWork(tmpbuf, 0, fin, 0, 1, inStride, st.factors, st.tw, st.inverse);
      CopyBack(tmpbuf, fout);
      CopiedBack(A, tmpbuf[..], fout[..], x, inStride, st.nfft, st.tw);
    } else {
      KfWork(fout, 0, fin, 0, 1, inStride, st.factors, st.tw, st.inverse);
    }
  }

  // memcpy of the temporary buffer
  method CopyBack(tmpbuf: array<Cx>, fout: array<Cx>)
    requires tmpbuf != fout && tmpbuf.Length <= fout.Length
    modifies fout
    ensures fout[..] == tmpbuf[..] + old(fout[tmpbuf.Length..])
  {
    ghost var A := fout[..];
    for i := 0 to tmpbuf.Length
      invariant forall j :: 0 <= j < fout.Length ==> fout[j] == if j < i then tmpbuf[j] else A[j]
    {
      fout[i] := tmpbuf[i];
    }
  }

  lemma ChainHead(factors: seq<int>, n: int)
    requires Chain(factors, n)
    ensures |factors| >= 2 && factors[0] * factors[1] == n
  {}

  lemma CopiedBack(A: seq<Cx>, C: seq<Cx>, B: seq<Cx>, x: seq<Cx>, step: int, n: nat, tw: seq<Cx>)
    requires |tw| > 0 && n <= |A| && |C| == n
    requires exists Z :: Transformed(Z, C, 0, x, 0, step, n, tw, 1)
    requires B == C + A[n..]
    ensures Transformed(A, B, 0, x, 0, step, n, tw, 1)
  {
    hide SubDft;
    forall i | 0 <= i < |A| ensures B[i] == if 0 <= i < n then SubDft(x, 0, step, n, tw, 1, i - 0) else A[i] {
      if i < n { assert B[i] == C[i]; }
    }
  }

  /** The spectrum as a buffer. */
  function SpectrumSeq(x: seq<Cx>, tw: seq<Cx>): (X: seq<Cx>)
    requires |tw| > 0
    ensures |X| == |tw|
  {
    seq(|tw|, k => Transform(x, tw, k))
  }

  /** Round trip: the inverse-configured transform of the transform of x is nfft times x. */
  lemma RoundTrip(x: seq<Cx>, tw: seq<Cx>, n: nat)
    requires |tw| > 0 && Table(tw, false) && |x| == |tw| && n < |x|
    ensures |ConjTable(tw)| == |tw| && Table(ConjTable(tw), true)
    ensures Transform(SpectrumSeq(x, tw), ConjTable(tw), n) == Scale(|x| as real, x[n])
  {
    hide Mul, Add, Table, Tw, Transform, ConjTable, Scale;
    var X, cw, N := SpectrumSeq(x, tw), ConjTable(tw), |tw|;
    ConjTableIsTable(tw);
    TransformSum(X, cw, n);
    forall k | 0 <= k < N ensures SubTerm(X, 0, 1, cw, 1, n)(k) == InverseTerm(Spectrum(x, tw), tw, n)(k) {
      PlainTerm(X, cw, n, k);
      ConjTableTw(tw, k * n);
      assert At(X, k) == Spectrum(x, tw)(k);
    }
    SumCongr(N, SubTerm(X, 0, 1, cw, 1, n), InverseTerm(Spectrum(x, tw), tw, n));
    Inversion(x, tw, false, n);
    DivModUnique(n, 0, n, N);
  }

  // The complex plan delivers the transform of its packed input.
  lemma SubTransform(A: seq<Cx>, B: seq<Cx>, z: seq<Cx>, h: seq<Cx>)
    requires |h| > 0 && |z| == |h| <= |A|
    requires Transformed(A, B, 0, z, 0, 1, |h|, h, 1)
    ensures |B| == |A| && forall k :: 0 <= k < |h| ==> B[k] == Transform(z, h, k)
  {
    hide SubDft;
    forall k | 0 <= k < |h| ensures B[k] == Transform(z, h, k) {
      assert B[k] == SubDft(z, 0, 1, |h|, h, 1, k - 0);
    }
  }

  lemma SubTransformAny(B: seq<Cx>, z: seq<Cx>, h: seq<Cx>)
    requires |h| > 0 && |z| == |h| == |B|
    requires exists A :: |A| == |B| && Transformed(A, B, 0, z, 0, 1, |h|, h, 1)
    ensures forall k :: 0 <= k < |h| ==> B[k] == Transform(z, h, k)
  {
    hide Transform, Transformed;
    var A :| |A| == |B| && Transformed(A, B, 0, z, 0, 1, |h|, h, 1);
    SubTransform(A, B, z, h);
  }

  /** One summand of the discrete Fourier transform in textbook form: x[j] times
      exp(-2 pi i j k / n), or exp(2 pi i j k / n) for the inverse direction. */
  function TextbookTerm(x: seq<Cx>, t: Trig, inverse: bool, k: nat): int -> Cx
    requires |x| > 0
  {
    j => if 0 <= j < |x| then TextbookProduct(x[j], t, inverse, DftAngle(t.pi, j * k, |x|)) else ZERO
  }

  function TextbookProduct(z: Cx, t: Trig, inverse: bool, a: real): Cx {
    var c, s := t.cos(a), if inverse then t.sin(a) else -t.sin(a);
    Cx(z.r * c - z.i * s, z.r * s + z.i * c)
  }

  /** With the tables the plans compute, the transform is the discrete Fourier transform. */
  lemma TransformIsDft(x: seq<Cx>, t: Trig, inverse: bool, k: nat)
    requires IsTrig(t) && |x| > 0
    ensures Transform(x, TwiddleTable(t, |x|, inverse), k) == Sum(|x|, TextbookTerm(x, t, inverse, k))
  {
    hide IsTrig, TwiddleTable, Tw, SubTerm, TextbookProduct, DftAngle, Mul;
    var tw := TwiddleTable(t, |x|, inverse);
    forall j | 0 <= j < |x| ensures SubTerm(x, 0, 1, tw, 1, k)(j) == TextbookTerm(x, t, inverse, k)(j) {
      PlainTerm(x, tw, k, j);
      MulMono(0, j, k);
      FactorAt(t, |x|, j * k);
      ProductIs(x[j], t, inverse, DftAngle(t.pi, j * k, |x|));
    }
    SumCongr(|x|, SubTerm(x, 0, 1, tw, 1, k), TextbookTerm(x, t, inverse, k));
  }

  lemma ProductIs(z: Cx, t: Trig, inverse: bool, a: real)
    ensures TextbookProduct(z, t, inverse, a) == Mul(z, Cx(t.cos(a), if inverse then t.sin(a) else -t.sin(a)))
  {}

  /** Both directions in place: plans for the forward and the inverse direction run one after the
      other leave nfft times the input. */
  method ThereAndBack(buffer: array<Cx>, t: Trig)
    requires 1 <= buffer.Length < 0x8000_0000 && IsTrig(t)
    modifies buffer
    ensures forall n :: 0 <= n < buffer.Length ==> buffer[n] == Scale(buffer.Length as real, old(buffer[n]))
  {
    hide Table, IsTrig, KfCexp, Transformed, Transform, Scale, TwiddleTable, FactorList;
    ghost var x := buffer[..];
    var N := buffer.Length;
    ghost var tw := TwiddleTable(t, N, false);
    var forward := KissFftAlloc(N, false, t);
    var backward := KissFftAlloc(N, true, t);
    InverseTwiddles(t, N);
    TwiddlesAreTable(t, N, false);
    KissFftStride(forward, buffer, buffer, 1);
    SubTransformAny(buffer[..], x, tw);
    ghost var X := buffer[..];
    assert X == SpectrumSeq(x, tw);
    KissFftStride(backward, buffer, buffer, 1);
    SubTransformAny(buffer[..], X, ConjTable(tw));
    forall n | 0 <= n < N ensures buffer[n] == Scale(N as real, x[n]) {
      RoundTrip(x, tw, n);
    }
  }
}
