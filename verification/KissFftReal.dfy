/** kiss_fftr.c: the transform of 2 M real samples through a complex transform of length M. */
module KissFftReal {
  import opened Complex
  import opened Arithmetic
  import opened Dft
  import opened RealDft
  import opened KissFft
  import opened KissPlan
  import opened Twiddles
  import C = ComplexSums
  import R = RealSums

  datatype Option<+T> = None | Some(value: T)

  datatype RealPlan = RealPlan(substate: Plan, superTwiddles: seq<Cx>)

  ghost predicate IsSuperTable(sup: seq<Cx>, tw: seq<Cx>, inverse: bool) {
    forall i :: 0 <= i < |sup| && i + 1 < |tw| ==> sup[i] == Super(tw, inverse, i)
  }

  /** The plan for length |tw| in the given direction; tw is the full-length forward table. */
  ghost predicate ValidRealPlan(st: RealPlan, tw: seq<Cx>, inverse: bool) {
    && |tw| == 2 * st.substate.nfft && |st.superTwiddles| == st.substate.nfft / 2
    && st.substate.tw == (if inverse then InverseHalf(tw) else HalfTable(tw))
    && st.substate.inverse == inverse
    && ValidPlan(st.substate)
    && Table(tw, false)
    && IsSuperTable(st.superTwiddles, tw, inverse)
  }

  /** exp(-i pi ((i + 1) / M + 1 / 2)), or its conjugate: a table entry turned by a quarter. */
  function Super(tw: seq<Cx>, inverse: bool, i: int): Cx
    requires 0 <= i && i + 1 < |tw|
  {
    if inverse then Mul(Conj(tw[i + 1]), I) else Mul(tw[i + 1], MINUS_I)
  }

  /** kiss_fftr_alloc: odd lengths are refused. Both the table of the complex plan and the rotation
      factors are computed from phases; they fit the full-length forward table. */
  method KissFftrAlloc(nfft: nat, inverse: bool, t: Trig) returns (r: Option<RealPlan>)
    requires 1 <= nfft < 0x8000_0000 && IsTrig(t)
    ensures r.None? <==> nfft % 2 == 1
    ensures r.Some? ==> ValidRealPlan(r.value, TwiddleTable(t, nfft, false), inverse)
  {
    hide Table, Super, InverseHalf, HalfTable, ValidPlan, IsTrig, KfCexp, IsSuperTable;
    if nfft % 2 == 1 { return None; }
    var ncfft := nfft / 2;
    ghost var tw := TwiddleTable(t, nfft, false);
    TwiddlesAreTable(t, nfft, false);
    SubTables(t, ncfft);
    var substate := KissFftAlloc(ncfft, inverse, t);
    var super: seq<Cx> := [];
    for i := 0 to ncfft / 2
      invariant |super| == i && forall j :: 0 <= j < i ==> super[j] == Super(tw, inverse, j)
    {
      var phase := -t.pi * (((i + 1) as real) / (ncfft as real) + 0.5);
      if inverse { phase := phase * -1.0; }
      SuperFromPhase(t, ncfft, inverse, i, phase);
      super := super + [KfCexp(t, phase)];
    }
    SuperTable(super, tw, inverse);
    r := Some(RealPlan(substate, super));
  }

  lemma SuperTable(sup: seq<Cx>, tw: seq<Cx>, inverse: bool)
    requires forall j :: 0 <= j < |sup| && j + 1 < |tw| ==> sup[j] == Super(tw, inverse, j)
    ensures IsSuperTable(sup, tw, inverse)
  {
    hide Super;
  }

  // The tables of the half length are every second entry of the full-length ones.
  lemma SubTables(t: Trig, m: nat)
    requires IsTrig(t) && m > 0
    ensures TwiddleTable(t, m, false) == HalfTable(TwiddleTable(t, 2 * m, false))
    ensures TwiddleTable(t, m, true) == InverseHalf(TwiddleTable(t, 2 * m, false))
  {
    hide IsTrig, KfCexp, Phase, Conj;
    InverseTwiddles(t, 2 * m);
    forall i | 0 <= i < m
      ensures Phase(t, m, false, i) == Phase(t, 2 * m, false, 2 * i)
        && Phase(t, m, true, i) == Phase(t, 2 * m, true, 2 * i)
    {
      HalfPhase(t, m, false, i);
      HalfPhase(t, m, true, i);
    }
  }

  lemma HalfPhase(t: Trig, m: nat, inverse: bool, i: nat)
    requires m > 0
    ensures Phase(t, m, inverse, i) == Phase(t, 2 * m, inverse, 2 * i)
  {
    hide Phase;
    PhaseTimes(t, m, inverse, i);
    PhaseTimes(t, 2 * m, inverse, 2 * i);
    HalfAlgebra(Phase(t, m, inverse, i), Phase(t, 2 * m, inverse, 2 * i), m as real, (2 * m) as real);
  }

  lemma HalfAlgebra(p: real, q: real, m: real, n: real)
    requires m != 0.0 && n == 2.0 * m && q * n == 2.0 * (p * m)
    ensures p == q
  {
    assert q * n == 2.0 * (q * m);
    CancelDivisor(p, q, m);
  }

  // A rotation factor is a table entry times a quarter turn.
  lemma SuperFromPhase(t: Trig, m: nat, inverse: bool, i: nat, phase: real)
    requires IsTrig(t) && m > 0 && i + 1 < 2 * m
    requires phase == if inverse then -t.pi * (((i + 1) as real) / (m as real) + 0.5) * -1.0
                      else -t.pi * (((i + 1) as real) / (m as real) + 0.5)
    ensures KfCexp(t, phase) == Super(TwiddleTable(t, 2 * m, false), inverse, i)
  {
    hide IsTrig, KfCexp, Mul, Conj, Turn, Angle, Radians, Phase;
    var n := 2 * m;
    var q := Angle(n, inverse, i + 1);
    var h := if inverse then 0.5 else -0.5;
    SuperRadians(t.pi, m, inverse, i, phase);
    RadiansTurn(t, q + h);
    TurnAdd(t, q, h);
    TurnHalf(t);
    PhaseIsTurn(t, n, inverse, i + 1);
    InverseTwiddles(t, n);
  }

  lemma RadiansTurn(t: Trig, q: real)
    ensures Turn(t, q) == KfCexp(t, Radians(t.pi, q))
  {}

  lemma SuperRadians(pi: real, m: nat, inverse: bool, i: nat, phase: real)
    requires m > 0
    requires phase == if inverse then -pi * (((i + 1) as real) / (m as real) + 0.5) * -1.0
                      else -pi * (((i + 1) as real) / (m as real) + 0.5)
    ensures phase == Radians(pi, Angle(2 * m, inverse, i + 1) + if inverse then 0.5 else -0.5)
  {
    hide Angle;
    AngleTimes(2 * m, inverse, i + 1);
    var r := ((i + 1) as real) / (m as real);
    assert r * (m as real) == (i + 1) as real;
    SignedFraction(r, Angle(2 * m, inverse, i + 1), (i + 1) as real, m as real, (2 * m) as real, inverse);
    if inverse {
      assert -pi * (r + 0.5) * -1.0 == pi * (r + 0.5);
    } else {
      assert -pi * (r + 0.5) == pi * (-r - 0.5);
    }
  }

  lemma SignedFraction(r: real, angle: real, i: real, m: real, n: real, inverse: bool)
    requires m != 0.0 && n == 2.0 * m && r * m == i
    requires angle * n == if inverse then 2.0 * i else -2.0 * i
    ensures angle == if inverse then r else -r
  {
    assert angle * n == 2.0 * (angle * m);
    CancelDivisor(angle, if inverse then r else -r, m);
  }

  lemma PlanSize(st: Plan)
    requires ValidPlan(st)
    ensures |st.tw| == st.nfft > 0
  {}

  // The cast of the sample buffer to complex elements.
  method AsComplex(timedata: array<real>) returns (packed: array<Cx>)
    requires timedata.Length % 2 == 0
    ensures fresh(packed) && packed[..] == Pack(timedata[..])
  {
    packed := new Cx[timedata.Length / 2];
    for j := 0 to packed.Length
      invariant forall i :: 0 <= i < j ==> packed[i] == Cx(timedata[2 * i], timedata[2 * i + 1])
    {
      packed[j] := Cx(timedata[2 * j], timedata[2 * j + 1]);
    }
  }

  // The loop of kiss_fftr: the pairs of bins between the first and the last one become those of y.
  method SplitLoop(tmpbuf: array<Cx>, freqdata: array<Cx>, ncfft: nat, superTwiddles: seq<Cx>, ghost y: seq<Cx>)
    requires tmpbuf != freqdata && tmpbuf.Length == ncfft < freqdata.Length
    requires |superTwiddles| == ncfft / 2 && |y| == ncfft + 1
    requires forall k :: 1 <= k <= ncfft / 2 ==>
      && BinLow(tmpbuf[k], Conj(tmpbuf[ncfft - k]), superTwiddles[k - 1]) == y[k]
      && BinHigh(tmpbuf[k], Conj(tmpbuf[ncfft - k]), superTwiddles[k - 1]) == y[ncfft - k]
    modifies freqdata
    ensures forall k :: 1 <= k < ncfft ==> freqdata[k] == y[k]
    ensures forall k :: 0 <= k < freqdata.Length && !(1 <= k < ncfft) ==> freqdata[k] == old(freqdata[k])
  {
    hide Mul, Add, Sub, Conj;
    var k := 1;
    while k <= ncfft / 2
      invariant 1 <= k <= ncfft / 2 + 1
      invariant forall i :: 1 <= i < ncfft && (i < k || i > ncfft - k) ==> freqdata[i] == y[i]
      invariant forall i :: 0 <= i < freqdata.Length && !(1 <= i < ncfft) ==> freqdata[i] == old(freqdata[i])
    {
      var fpk := tmpbuf[k];
      var fpnk := Conj(tmpbuf[ncfft - k]);
      var f1k, f2k := Add(fpk, fpnk), Sub(fpk, fpnk);
      var t := Mul(f2k, superTwiddles[k - 1]);
      freqdata[k] := Cx((f1k.r + t.r) * 0.5, (f1k.i + t.i) * 0.5);
      freqdata[ncfft - k] := Cx((f1k.r - t.r) * 0.5, (t.i - f1k.i) * 0.5);
      k := k + 1;
    }
  }

  /** kiss_fftr: freqdata holds the first M + 1 bins of the transform of the 2 M real samples. */
  method KissFftr(st: RealPlan, timedata: array<real>, freqdata: array<Cx>, ghost tw: seq<Cx>)
    requires ValidRealPlan(st, tw, false)
    requires |tw| > 0 && timedata.Length == |tw| && freqdata.Length >= |tw| / 2 + 1
    modifies freqdata
    ensures forall k :: 0 <= k <= |tw| / 2 ==> freqdata[k] == RealBin(timedata[..], tw, k)
    ensures forall k :: |tw| / 2 < k < freqdata.Length ==> freqdata[k] == old(freqdata[k])
  {
    hide Table, Super, InverseHalf, HalfTable, ValidPlan, Transformed, Transform, RealBin, Mul, Add, Sub, Conj;
    PlanSize(st.substate);
    var ncfft := st.substate.nfft;
    ghost var x, m := timedata[..], |tw| / 2;
    var packed := AsComplex(timedata);
    var tmpbuf := new Cx[ncfft];
    assert (ncfft - 1) * 1 < packed.Length;
    KissFftStride(st.substate, packed, tmpbuf, 1);
    ghost var h := st.substate.tw;
    SubTransformAny(tmpbuf[..], Pack(x), h);
    var tdc := tmpbuf[0];
    freqdata[0] := Cx(tdc.r + tdc.i, 0.0);
    freqdata[ncfft] := Cx(tdc.r - tdc.i, 0.0);
    EndBins(x, tw, false);
    ghost var y := seq(m + 1, k requires 0 <= k => RealBin(x, tw, k));
    forall k | 1 <= k <= m / 2
      ensures BinLow(tmpbuf[k], Conj(tmpbuf[m - k]), st.superTwiddles[k - 1]) == y[k]
      ensures BinHigh(tmpbuf[k], Conj(tmpbuf[m - k]), st.superTwiddles[k - 1]) == y[m - k]
    {
      PairWritten(x, tw, k, tmpbuf[k], Conj(tmpbuf[m - k]), st.superTwiddles[k - 1]);
    }
    SplitLoop(tmpbuf, freqdata, ncfft, st.superTwiddles, y);
  }

  // The values one turn of the loop of kiss_fftr writes.
  lemma PairWritten(x: seq<real>, tw: seq<Cx>, k: nat, fpk: Cx, fpnk: Cx, st: Cx)
    requires |tw| > 0 && Table(tw, false) && |tw| == |x| && |x| % 2 == 0 && 1 <= k <= |x| / 2 / 2
    requires st == Super(tw, false, k - 1)
    requires |HalfTable(tw)| > 0
    requires fpk == Transform(Pack(x), HalfTable(tw), k)
    requires fpnk == Conj(Transform(Pack(x), HalfTable(tw), |x| / 2 - k))
    ensures BinLow(fpk, fpnk, st) == RealBin(x, tw, k)
    ensures BinHigh(fpk, fpnk, st) == RealBin(x, tw, |x| / 2 - k)
  {
    hide Table, Transform, RealBin, Mul, Conj, BinLow, BinHigh, HalfTable, Pack;
    DivModUnique(k, 0, k, |tw|);
    SplitBins(x, tw, false, k);
  }

  function CosTerm(x: seq<real>, t: Trig, k: nat): int -> real
    requires |x| > 0
  {
    j => if 0 <= j < |x| then x[j] * t.cos(DftAngle(t.pi, j * k, |x|)) else 0.0
  }

  function SinTerm(x: seq<real>, t: Trig, k: nat): int -> real
    requires |x| > 0
  {
    j => if 0 <= j < |x| then -(x[j] * t.sin(DftAngle(t.pi, j * k, |x|))) else 0.0
  }

  /** The bins of a real signal in textbook form. */
  lemma RealBinIsDft(x: seq<real>, t: Trig, k: nat)
    requires IsTrig(t) && |x| > 0
    ensures RealBin(x, TwiddleTable(t, |x|, false), k) ==
      Cx(R.Sum(|x|, CosTerm(x, t, k)), R.Sum(|x|, SinTerm(x, t, k)))
  {
    hide IsTrig, TwiddleTable, Transform, DftAngle;
    TransformIsDft(Embed(x), t, false, k);
    PartsOfSum(|x|, TextbookTerm(Embed(x), t, false, k), CosTerm(x, t, k), SinTerm(x, t, k));
  }

  lemma {:induction false} PartsOfSum(n: nat, f: int -> Cx, re: int -> real, im: int -> real)
    requires forall j :: 0 <= j < n ==> f(j) == Cx(re(j), im(j))
    ensures C.Sum(n, f) == Cx(R.Sum(n, re), R.Sum(n, im))
  {
    if n > 0 { PartsOfSum(n - 1, f, re, im); }
  }

  /** The real samples a half spectrum stands for. */
  function RealSample(X: seq<Cx>, tw: seq<Cx>, n: int): real
    requires |tw| >= 2 && |tw| % 2 == 0 && |X| == |tw| / 2 + 1
  {
    Inverse(Extended(X, |tw| / 2), tw, n).r
  }

  // The loop of kiss_fftri: the pairs of cells after the first one become those of w.
  method MergeLoop(freqdata: array<Cx>, tmpbuf: array<Cx>, ncfft: nat, superTwiddles: seq<Cx>, ghost w: seq<Cx>)
    requires tmpbuf != freqdata && tmpbuf.Length == ncfft && freqdata.Length == ncfft + 1
    requires |superTwiddles| == ncfft / 2 && |w| == ncfft > 0 && tmpbuf[0] == w[0]
    requires forall k :: 1 <= k <= ncfft / 2 ==>
      && MergeLow(freqdata[k], Conj(freqdata[ncfft - k]), superTwiddles[k - 1]) == w[k]
      && MergeHigh(freqdata[k], Conj(freqdata[ncfft - k]), superTwiddles[k - 1]) == w[ncfft - k]
    modifies tmpbuf
    ensures tmpbuf[..] == w
  {
    hide Mul, Add, Sub, Conj;
    var k := 1;
    while k <= ncfft / 2
      invariant 1 <= k <= ncfft / 2 + 1
      invariant forall i :: 0 <= i < ncfft && (i < k || i > ncfft - k) ==> tmpbuf[i] == w[i]
    {
      var fk := freqdata[k];
      var fnkc := Conj(freqdata[ncfft - k]);
      var fek, tmp := Add(fk, fnkc), Sub(fk, fnkc);
      var fok := Mul(tmp, superTwiddles[k - 1]);
      tmpbuf[k] := Add(fek, fok);
      tmpbuf[ncfft - k] := Sub(fek, fok);
      tmpbuf[ncfft - k] := Cx(tmpbuf[ncfft - k].r, tmpbuf[ncfft - k].i * -1.0);
      k := k + 1;
    }
  }

  // The real and imaginary parts of the packed samples, one after the other.
  method Unpack(packed: array<Cx>, timedata: array<real>)
    requires timedata.Length == 2 * packed.Length
    modifies timedata
    ensures forall i :: 0 <= i < packed.Length ==> packed[i] == Cx(timedata[2 * i], timedata[2 * i + 1])
  {
    for j := 0 to packed.Length
      invariant forall i :: 0 <= i < j ==> packed[i] == Cx(timedata[2 * i], timedata[2 * i + 1])
    {
      timedata[2 * j] := packed[j].r;
      timedata[2 * j + 1] := packed[j].i;
    }
  }

  /** kiss_fftri: timedata holds the 2 M samples of the inverse transform of M + 1 bins. */
  method KissFftri(st: RealPlan, freqdata: array<Cx>, timedata: array<real>, ghost tw: seq<Cx>)
    requires ValidRealPlan(st, tw, true)
    requires |tw| >= 2 && timedata.Length == |tw| && freqdata.Length == |tw| / 2 + 1
    modifies timedata
    ensures forall n :: 0 <= n < |tw| ==> timedata[n] == RealSample(freqdata[..], tw, n)
  {
    hide Table, Super, InverseHalf, HalfTable, ValidPlan, Transformed, Transform, RealSample, Mul, Add, Sub, Conj,
      Merged, Extended;
    PlanSize(st.substate);
    var ncfft := st.substate.nfft;
    ghost var X, m := freqdata[..], |tw| / 2;
    var tmpbuf := new Cx[ncfft];
    tmpbuf[0] := Cx(freqdata[0].r + freqdata[ncfft].r, freqdata[0].r - freqdata[ncfft].r);
    MergedEnds(X, tw, m);
    ghost var merged := seq(m, i => Merged(Extended(X, m), tw, m)(i));
    forall k | 1 <= k <= m / 2
      ensures MergeLow(X[k], Conj(X[m - k]), st.superTwiddles[k - 1]) == merged[k]
      ensures MergeHigh(X[k], Conj(X[m - k]), st.superTwiddles[k - 1]) == merged[m - k]
    {
      PairMerged(X, tw, m, k, st.superTwiddles[k - 1]);
    }
    MergeLoop(freqdata, tmpbuf, ncfft, st.superTwiddles, merged);
    var packed := new Cx[ncfft];
    assert (ncfft - 1) * 1 < tmpbuf.Length;
    KissFftStride(st.substate, tmpbuf, packed, 1);
    SubTransformAny(packed[..], merged, st.substate.tw);
    Unpack(packed, timedata);
    forall n | 0 <= n < |tw| ensures timedata[n] == RealSample(X, tw, n) {
      SamplePair(X, merged, tw, m, n / 2);
      assert packed[n / 2] == Transform(merged, st.substate.tw, n / 2);
    }
  }

  lemma SamplePair(X: seq<Cx>, W: seq<Cx>, tw: seq<Cx>, m: nat, n: nat)
    requires |tw| == 2 * m && |tw| % 2 == 0 && |X| == |tw| / 2 + 1 && m > 0
    requires Table(tw, false) && IsMerged(W, X, tw, m)
    ensures Transform(W, InverseHalf(tw), n) == Cx(RealSample(X, tw, 2 * n), RealSample(X, tw, 2 * n + 1))
  {
    hide Table, IsMerged, Transform, Inverse, InverseHalf, Extended;
    InverseSamples(X, W, tw, m, n);
  }

  // The values one turn of the loop of kiss_fftri writes.
  lemma PairMerged(X: seq<Cx>, tw: seq<Cx>, m: nat, k: nat, st: Cx)
    requires |X| == m + 1 && 1 <= k <= m / 2 && |tw| == 2 * m && Table(tw, false)
    requires st == Super(tw, true, k - 1)
    ensures MergeLow(X[k], Conj(X[m - k]), st) == Merged(Extended(X, m), tw, m)(k)
    ensures MergeHigh(X[k], Conj(X[m - k]), st) == Merged(Extended(X, m), tw, m)(m - k)
  {
    hide Table, Mul, Conj, MergeLow, MergeHigh, Merged, Extended;
    DivModUnique(k, 0, k, |tw|);
    MergedPair(X, tw, m, k);
  }
}
