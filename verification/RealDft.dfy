/**
 Transforms of real sequences: the symmetry of their spectra, and the two identities behind
 kiss_fftr.c, which computes a real transform of length 2 M with a complex one of length M.
 */
module RealDft {
  import opened Complex
  import opened ComplexSums
  import opened Arithmetic
  import opened Dft
  import opened ButterflySpec
  import opened Radix

  function Embed(x: seq<real>): (z: seq<Cx>)
    ensures |z| == |x| && forall i :: 0 <= i < |x| ==> z[i] == OfReal(x[i])
  {
    seq(|x|, i requires 0 <= i < |x| => OfReal(x[i]))
  }

  /** Every second entry of a twiddle table: the table of the half length. */
  function HalfTable(tw: seq<Cx>): (h: seq<Cx>)
    requires |tw| % 2 == 0
    ensures |h| == |tw| / 2 && forall i :: 0 <= i < |h| ==> h[i] == tw[2 * i]
  {
    seq(|tw| / 2, i requires 0 <= i < |tw| / 2 => tw[2 * i])
  }

  lemma DoubleMod(e: int, m: int)
    requires m > 0
    ensures (2 * e) % (2 * m) == 2 * (e % m)
  {
    var q, r := e / m, e % m;
    assert 2 * e == q * (2 * m) + 2 * r;
    DivModUnique(2 * e, q, 2 * r, 2 * m);
  }

  lemma HalfTableTw(tw: seq<Cx>, e: int)
    requires |tw| > 0 && |tw| % 2 == 0
    ensures |HalfTable(tw)| > 0 && Tw(HalfTable(tw), e) == Tw(tw, 2 * e)
  {
    DoubleMod(e, |tw| / 2);
  }

  lemma HalfTableIsTable(tw: seq<Cx>, inverse: bool)
    requires Table(tw, inverse) && |tw| % 2 == 0
    ensures Table(HalfTable(tw), inverse)
  {
    hide ClosedUnderMul, OnCircle, Mul, HalfTable;
    var h, m := HalfTable(tw), |tw| / 2;
    HalfClosed(tw);
    forall a | 0 <= a < m ensures OnCircle(h[a]) { assert OnCircle(tw[2 * a]); }
    forall a | 0 < a < m ensures h[a] != ONE { assert tw[2 * a] != ONE; }
    if m % 4 == 0 {
      assert 2 * (m / 4) == |tw| / 4 && |tw| % 4 == 0;
    }
  }

  lemma HalfClosed(tw: seq<Cx>)
    requires ClosedUnderMul(tw) && |tw| % 2 == 0
    ensures ClosedUnderMul(HalfTable(tw))
  {
    hide Mul, HalfTable;
    var h, m := HalfTable(tw), |tw| / 2;
    forall a, b | 0 <= a < m && 0 <= b < m ensures Mul(h[a], h[b]) == h[(a + b) % m] {
      DoubleMod(a + b, m);
      assert Mul(tw[2 * a], tw[2 * b]) == tw[(2 * a + 2 * b) % |tw|];
    }
  }

  /** The transform is periodic in the bin index. */
  lemma TransformPeriodic(x: seq<Cx>, tw: seq<Cx>, k: int, c: int)
    requires |tw| > 0
    ensures Transform(x, tw, k + c * |tw|) == Transform(x, tw, k)
  {
    hide Mul, Add, Tw, At;
    var k' := k + c * |tw|;
    forall j | 0 <= j < |tw| ensures SubTerm(x, 0, 1, tw, 1, k')(j) == SubTerm(x, 0, 1, tw, 1, k)(j) {
      PlainTerm(x, tw, k, j);
      PlainTerm(x, tw, k', j);
      assert j * k' == j * k + (j * c) * |tw|;
      TwPeriod(tw, j * k, j * c);
    }
    SumCongr(|tw|, SubTerm(x, 0, 1, tw, 1, k'), SubTerm(x, 0, 1, tw, 1, k));
  }

  /** The spectrum of a real sequence is conjugate symmetric. */
  lemma RealSymmetry(x: seq<real>, tw: seq<Cx>, inverse: bool, k: int)
    requires |tw| > 0 && Table(tw, inverse)
    ensures Transform(Embed(x), tw, -k) == Conj(Transform(Embed(x), tw, k))
  {
    hide Mul, Add, Table, Tw, At, Conj, Embed;
    var z, N := Embed(x), |tw|;
    var f := SubTerm(z, 0, 1, tw, 1, k);
    forall j | 0 <= j < N ensures SubTerm(z, 0, 1, tw, 1, -k)(j) == Conj(f(j)) {
      PlainTerm(z, tw, k, j);
      PlainTerm(z, tw, -k, j);
      ConjLaws(At(z, j), Tw(tw, j * k));
      TwConj(tw, inverse, j * k);
      EmbedIsReal(x, j);
      assert -(j * k) == j * -k;
    }
    SumConj(N, f);
    SumCongr(N, SubTerm(z, 0, 1, tw, 1, -k), j => Conj(f(j)));
    TransformSum(z, tw, k);
    TransformSum(z, tw, -k);
  }

  lemma EmbedIsReal(x: seq<real>, j: int)
    ensures Conj(At(Embed(x), j)) == At(Embed(x), j)
  {}

  function Evens(x: seq<real>): (e: seq<real>)
    requires |x| % 2 == 0
    ensures |e| == |x| / 2 && forall j :: 0 <= j < |e| ==> e[j] == x[2 * j]
  {
    seq(|x| / 2, j requires 0 <= j < |x| / 2 => x[2 * j])
  }

  function Odds(x: seq<real>): (e: seq<real>)
    requires |x| % 2 == 0
    ensures |e| == |x| / 2 && forall j :: 0 <= j < |e| ==> e[j] == x[2 * j + 1]
  {
    seq(|x| / 2, j requires 0 <= j < |x| / 2 => x[2 * j + 1])
  }

  /** The cast of kiss_fftr: pairs of reals read as complex numbers. */
  function Pack(x: seq<real>): (z: seq<Cx>)
    requires |x| % 2 == 0
    ensures |z| == |x| / 2 && forall j :: 0 <= j < |z| ==> z[j] == Cx(x[2 * j], x[2 * j + 1])
  {
    seq(|x| / 2, j requires 0 <= j < |x| / 2 => Cx(x[2 * j], x[2 * j + 1]))
  }

  lemma PackParts(x: seq<real>, j: int)
    requires |x| % 2 == 0
    ensures At(Pack(x), j) == Add(At(Embed(Evens(x)), j), Mul(I, At(Embed(Odds(x)), j)))
  {}

  /** The packed transform is the even samples' transform plus i times the odd samples'. */
  lemma PackedTransform(x: seq<real>, h: seq<Cx>, k: int)
    requires |x| % 2 == 0 && |h| > 0
    ensures Transform(Pack(x), h, k) ==
            Add(Transform(Embed(Evens(x)), h, k), Mul(I, Transform(Embed(Odds(x)), h, k)))
  {
    hide Mul, Add, Tw, At, Pack, Embed, Evens, Odds;
    var z, e, d := Pack(x), Embed(Evens(x)), Embed(Odds(x));
    var fe, fd := SubTerm(e, 0, 1, h, 1, k), SubTerm(d, 0, 1, h, 1, k);
    var id := j => Mul(I, fd(j));
    forall j ensures SubTerm(z, 0, 1, h, 1, k)(j) == Add(fe(j), id(j)) {
      PlainTerm(z, h, k, j);
      PlainTerm(e, h, k, j);
      PlainTerm(d, h, k, j);
      PackParts(x, j);
      var w := Tw(h, j * k);
      Distribute(w, At(e, j), Mul(I, At(d, j)));
      MulAssoc(I, At(d, j), w);
    }
    SumCongr(|h|, SubTerm(z, 0, 1, h, 1, k), j => Add(fe(j), id(j)));
    SumAdd(|h|, fe, id);
    SumMul(|h|, I, fd);
    SumCongr(|h|, id, j => Mul(I, fd(j)));
    TransformSum(z, h, k);
    TransformSum(e, h, k);
    TransformSum(d, h, k);
  }

  // One of the two half-length transforms, as a sub-transform of the full one.
  lemma HalfDft(x: seq<real>, y: seq<real>, tw: seq<Cx>, q: int, u: int)
    requires |tw| > 0 && |tw| == |x| && |x| % 2 == 0 && 0 <= q < 2
    requires |y| == |x| / 2 && forall j :: 0 <= j < |y| ==> y[j] == x[2 * j + q]
    ensures |HalfTable(tw)| > 0
    ensures SubDft(Embed(x), q, 2, |tw| / 2, tw, 2, u) == Transform(Embed(y), HalfTable(tw), u)
  {
    hide Mul, Add, Tw, HalfTable, Embed;
    HalfTableTw(tw, 0);
    var h, z, m := HalfTable(tw), Embed(y), |tw| / 2;
    forall j | 0 <= j < m ensures SubTerm(Embed(x), q, 2, tw, 2, u)(j) == SubTerm(z, 0, 1, h, 1, u)(j) {
      PlainTerm(z, h, u, j);
      HalfTableTw(tw, j * u);
      assert j * (u * 2) == 2 * (j * u);
      assert At(Embed(x), q + j * 2) == At(z, j);
    }
    SumCongr(m, SubTerm(Embed(x), q, 2, tw, 2, u), SubTerm(z, 0, 1, h, 1, u));
    TransformSum(z, h, u);
  }

  /** The full spectrum from the two half-length ones. */
  lemma FullTransform(x: seq<real>, tw: seq<Cx>, inverse: bool, k: nat)
    requires |tw| > 0 && Table(tw, inverse) && |tw| == |x| && |x| % 2 == 0
    ensures |HalfTable(tw)| > 0
    ensures Transform(Embed(x), tw, k) ==
            Add(Transform(Embed(Evens(x)), HalfTable(tw), k % (|x| / 2)),
                Mul(Transform(Embed(Odds(x)), HalfTable(tw), k % (|x| / 2)), Tw(tw, k)))
  {
    hide *;
    HalfTableTw(tw, 0);
    var m := |x| / 2;
    var u := k % m;
    var h := HalfTable(tw);
    var e, d := Transform(Embed(Evens(x)), h, u), Transform(Embed(Odds(x)), h, u);
    var F := seq(m, _ => e) + seq(m, _ => d);
    HalfDft(x, Evens(x), tw, 0, u);
    HalfDft(x, Odds(x), tw, 1, u);
    forall q | 0 <= q < 2 ensures At(F, u + q * m) == SubDft(Embed(x), 0 + q * 1, 1 * 2, m, tw, 1 * 2, u) {
      PairCell(F, e, d, m, u, q);
    }
    assert 1 * (2 * m) == |tw|;
    Decimate(Embed(x), 0, 1, m, 2, tw, inverse, 1, k, F);
    FullIsSub(x, tw, k);
    PairBfly(F, e, d, m, tw, inverse, k);
  }

  lemma PairCell(F: seq<Cx>, e: Cx, d: Cx, m: nat, u: nat, q: int)
    requires F == seq(m, _ => e) + seq(m, _ => d) && u < m && 0 <= q < 2
    ensures At(F, u + q * m) == if q == 0 then e else d
  {
    assert q * m == if q == 0 then 0 else m;
  }

  // A radix-2 recombination of two constants.
  lemma PairBfly(F: seq<Cx>, e: Cx, d: Cx, m: nat, tw: seq<Cx>, inverse: bool, k: nat)
    requires |tw| > 0 && Table(tw, inverse) && m > 0
    requires F == seq(m, _ => e) + seq(m, _ => d)
    ensures Bfly(F, m, 2, tw, 1, k) == Add(e, Mul(d, Tw(tw, k)))
  {
    hide Mul, Add, Table, Tw, BflyTerm, Sum;
    SumUnfold(BflyTerm(F, k % m, m, tw, k * 1));
    PairTerms(F, e, d, m, tw, inverse, k % m, k);
  }

  lemma PairTerms(F: seq<Cx>, e: Cx, d: Cx, m: nat, tw: seq<Cx>, inverse: bool, u: nat, ex: int)
    requires |tw| > 0 && Table(tw, inverse) && u < m
    requires F == seq(m, _ => e) + seq(m, _ => d)
    ensures BflyTerm(F, u, m, tw, ex)(0) == e
    ensures BflyTerm(F, u, m, tw, ex)(1) == Mul(d, Tw(tw, ex))
  {
    hide Mul, Table, Tw, At;
    PairCell(F, e, d, m, u, 0);
    PairCell(F, e, d, m, u, 1);
    TwUnit(tw, inverse, 0);
    MulUnit(e);
    assert 0 * ex == 0 && 1 * ex == ex;
  }

  lemma FullIsSub(x: seq<real>, tw: seq<Cx>, k: int)
    requires |tw| > 0 && |tw| == |x| && |x| % 2 == 0
    ensures Transform(Embed(x), tw, k) == SubDft(Embed(x), 0, 1, 2 * (|x| / 2), tw, 1, k)
  {}

  // Half a turn.
  lemma HalfTurn(tw: seq<Cx>, inverse: bool, e: int)
    requires |tw| > 0 && Table(tw, inverse) && |tw| % 2 == 0
    ensures Tw(tw, |tw| / 2) == Neg(ONE)
    ensures Tw(tw, |tw| / 2 + e) == Neg(Tw(tw, e))
  {
    hide Mul, Table, Tw, Neg;
    var m := |tw| / 2;
    SquareRoot(tw, inverse, m, 1);
    assert 1 * (m * 1) == m;
    assert Root(tw, m, 1, 1) == Tw(tw, 1 * (m * 1));
    TwAdd(tw, inverse, m, e);
    MulNeg(ONE, Tw(tw, e));
    MulUnit(Tw(tw, e));
  }

  // ---- one pair of bins of kiss_fftr, in the source's arithmetic ----

  function BinLow(fpk: Cx, fpnk: Cx, st: Cx): Cx {
    var f1k, tw := Add(fpk, fpnk), Mul(Sub(fpk, fpnk), st);
    Cx((f1k.r + tw.r) * 0.5, (f1k.i + tw.i) * 0.5)
  }

  function BinHigh(fpk: Cx, fpnk: Cx, st: Cx): Cx {
    var f1k, tw := Add(fpk, fpnk), Mul(Sub(fpk, fpnk), st);
    Cx((f1k.r - tw.r) * 0.5, (tw.i - f1k.i) * 0.5)
  }

  lemma HalvedSums(e: Cx, g: Cx, p: Cx, q: Cx, tw: Cx)
    requires p == Add(e, Mul(I, g)) && q == Add(e, Mul(MINUS_I, g))
    ensures Add(p, q) == Scale(2.0, e)
    ensures Sub(p, q) == Scale(2.0, Mul(I, g))
  {}

  lemma Unturn(d: Cx, w: Cx)
    ensures Mul(Scale(2.0, Mul(I, d)), Mul(w, MINUS_I)) == Scale(2.0, Mul(d, w))
  {
    hide Mul, Scale;
    var a := Mul(I, d);
    ScaleLaws(2.0, a, Mul(w, MINUS_I));
    MulComm(I, d);
    MulAssoc(d, I, Mul(w, MINUS_I));
    MulComm(w, MINUS_I);
    MulAssoc(I, MINUS_I, w);
    assert Mul(I, MINUS_I) == ONE by { QuarterTurns(); }
    MulUnit(w);
  }

  lemma QuarterTurns()
    ensures Mul(I, MINUS_I) == ONE
  {}

  /** The pair of bins computed from Z(k) = e + i d and conj Z(M - k) = e - i d. */
  lemma SplitKernel(e: Cx, d: Cx, w: Cx)
    ensures BinLow(Add(e, Mul(I, d)), Add(e, Mul(MINUS_I, d)), Mul(w, MINUS_I)) == Add(e, Mul(d, w))
    ensures BinHigh(Add(e, Mul(I, d)), Add(e, Mul(MINUS_I, d)), Mul(w, MINUS_I)) == Conj(Sub(e, Mul(d, w)))
  {
    hide Mul;
    HalvedSums(e, d, Add(e, Mul(I, d)), Add(e, Mul(MINUS_I, d)), ONE);
    Unturn(d, w);
  }

  /** Bin k of the transform of a real sequence. */
  function RealBin(x: seq<real>, tw: seq<Cx>, k: int): Cx
    requires |tw| > 0
  {
    Transform(Embed(x), tw, k)
  }

  // The mirrored bin of a half-length transform of real samples.
  lemma MirrorBin(y: seq<real>, h: seq<Cx>, inverse: bool, k: int)
    requires |h| > 0 && Table(h, inverse)
    ensures Transform(Embed(y), h, |h| - k) == Conj(Transform(Embed(y), h, k))
  {
    hide Table, Transform, Conj, Embed;
    RealSymmetry(y, h, inverse, k);
    TransformPeriodic(Embed(y), h, -k, 1);
    assert -k + 1 * |h| == |h| - k;
  }

  /** kiss_fftr is right for the bins k and M - k, 1 <= k <= M / 2. */
  lemma SplitBins(x: seq<real>, tw: seq<Cx>, inverse: bool, k: nat)
    requires |tw| > 0 && Table(tw, inverse) && |tw| == |x| && |x| % 2 == 0
    requires 1 <= k < |x| / 2
    ensures |HalfTable(tw)| > 0
    ensures var h, m := HalfTable(tw), |x| / 2;
      var z, z' := Transform(Pack(x), h, k), Conj(Transform(Pack(x), h, m - k));
      && BinLow(z, z', Mul(Tw(tw, k), MINUS_I)) == RealBin(x, tw, k)
      && BinHigh(z, z', Mul(Tw(tw, k), MINUS_I)) == RealBin(x, tw, m - k)
  {
    hide Mul, Add, Sub, Table, Tw, HalfTable, Embed, Transform, Evens, Odds, Pack, Conj, Neg, BinLow, BinHigh;
    HalfTableTw(tw, 0);
    HalfTableIsTable(tw, inverse);
    HalfTableLength(tw);
    var h, m := HalfTable(tw), |x| / 2;
    var e, d, w := Transform(Embed(Evens(x)), h, k), Transform(Embed(Odds(x)), h, k), Tw(tw, k);
    PackedTransform(x, h, k);
    PackedTransform(x, h, m - k);
    MirrorBin(Evens(x), h, inverse, k);
    MirrorBin(Odds(x), h, inverse, k);
    ConjPacked(e, d);
    SplitKernel(e, d, w);
    FullTransform(x, tw, inverse, k);
    FullTransform(x, tw, inverse, m - k);
    assert k % m == k && (m - k) % m == m - k by { DivModUnique(k, 0, k, m); DivModUnique(m - k, 0, m - k, m); }
    HalfTurn(tw, inverse, 0 - k);
    TwConj(tw, inverse, k);
    ConjDifference(e, d, w);
  }

  lemma HalfTableLength(tw: seq<Cx>)
    requires |tw| % 2 == 0
    ensures |HalfTable(tw)| == |tw| / 2
  {}

  lemma ConjPacked(e: Cx, d: Cx)
    ensures Conj(Add(Conj(e), Mul(I, Conj(d)))) == Add(e, Mul(MINUS_I, d))
  {}

  lemma ConjDifference(e: Cx, d: Cx, w: Cx)
    ensures Add(Conj(e), Mul(Conj(d), Neg(Conj(w)))) == Conj(Sub(e, Mul(d, w)))
  {}

  /** The first and the last bin come from the sum and the difference of one packed bin. */
  lemma EndBins(x: seq<real>, tw: seq<Cx>, inverse: bool)
    requires |tw| > 0 && Table(tw, inverse) && |tw| == |x| && |x| % 2 == 0
    ensures |HalfTable(tw)| > 0
    ensures var z := Transform(Pack(x), HalfTable(tw), 0);
      && RealBin(x, tw, 0) == Cx(z.r + z.i, 0.0)
      && RealBin(x, tw, |x| / 2) == Cx(z.r - z.i, 0.0)
  {
    hide Mul, Add, Table, Tw, HalfTable, Embed, Transform, Evens, Odds, Pack, Conj, Neg;
    HalfTableTw(tw, 0);
    HalfTableIsTable(tw, inverse);
    var h, m := HalfTable(tw), |x| / 2;
    var e, d := Transform(Embed(Evens(x)), h, 0), Transform(Embed(Odds(x)), h, 0);
    PackedTransform(x, h, 0);
    RealSymmetry(Evens(x), h, inverse, 0);
    RealSymmetry(Odds(x), h, inverse, 0);
    FullTransform(x, tw, inverse, 0);
    FullTransform(x, tw, inverse, m);
    assert m % m == 0 && 0 % m == 0 by { DivModUnique(m, 1, 0, m); DivModUnique(0, 0, 0, m); }
    TwUnit(tw, inverse, 0);
    HalfTurn(tw, inverse, 0);
    EndKernel(e, d);
  }

  lemma EndKernel(e: Cx, d: Cx)
    requires e == Conj(e) && d == Conj(d)
    ensures var z := Add(e, Mul(I, d));
      Add(e, Mul(d, ONE)) == Cx(z.r + z.i, 0.0) && Add(e, Mul(d, Neg(ONE))) == Cx(z.r - z.i, 0.0)
  {}

  // ---- kiss_fftri ----

  /** The conjugate-symmetric spectrum a half spectrum of m + 1 bins stands for; the imaginary
      parts of its first and last bin play no role. */
  function Extended(X: seq<Cx>, m: nat): int -> Cx
    requires |X| == m + 1 && m > 0
  {
    k => ExtendedAt(X, m, k % (2 * m))
  }

  function ExtendedAt(X: seq<Cx>, m: nat, r: int): Cx
    requires |X| == m + 1 && m > 0
  {
    if r <= 0 then OfReal(X[0].r)
    else if r < m then X[r]
    else if r == m then OfReal(X[m].r)
    else if r < 2 * m then Conj(X[2 * m - r])
    else ZERO
  }

  lemma ExtendedMirror(X: seq<Cx>, m: nat, k: int)
    requires |X| == m + 1 && m > 0 && 0 <= k <= 2 * m
    ensures Extended(X, m)(2 * m - k) == Conj(Extended(X, m)(k))
    ensures Extended(X, m)(2 * m) == Extended(X, m)(0)
  {
    var n := 2 * m;
    DivModUnique(n, 1, 0, n);
    if k < n { DivModUnique(k, 0, k, n); }
    if k > 0 { DivModUnique(n - k, 0, n - k, n); }
  }

  /** An extended spectrum transforms back to real samples. */
  lemma InverseIsReal(X: seq<Cx>, tw: seq<Cx>, m: nat, n: int)
    requires |X| == m + 1 && m > 0 && |tw| == 2 * m && Table(tw, false)
    ensures Inverse(Extended(X, m), tw, n).i == 0.0
  {
    hide Mul, Add, Table, Tw, Extended, Conj, InverseTerm;
    var N := 2 * m;
    var f := InverseTerm(Extended(X, m), tw, n);
    forall k | 0 <= k < N ensures Conj(f(k)) == f(N - k) {
      MirroredTerm(X, tw, m, n, k);
    }
    SumConj(N, f);
    SumCongr(N, k => Conj(f(k)), k => f(N - k));
    EndTerm(X, tw, m, n);
    SumMirror(N, f);
    var y := Sum(N, f);
    SelfConjugate(y);
  }

  lemma MirroredTerm(X: seq<Cx>, tw: seq<Cx>, m: nat, n: int, k: int)
    requires |X| == m + 1 && m > 0 && |tw| == 2 * m && Table(tw, false) && 0 <= k < 2 * m
    ensures Conj(InverseTerm(Extended(X, m), tw, n)(k)) == InverseTerm(Extended(X, m), tw, n)(2 * m - k)
  {
    hide Mul, Add, Table, Tw, Extended, Conj;
    ExtendedMirror(X, m, k);
    ConjLaws(Extended(X, m)(k), Tw(tw, -(k * n)));
    TwConj(tw, false, -(k * n));
    MirrorExponent(tw, n, k, 2 * m);
  }

  lemma EndTerm(X: seq<Cx>, tw: seq<Cx>, m: nat, n: int)
    requires |X| == m + 1 && m > 0 && |tw| == 2 * m && Table(tw, false)
    ensures InverseTerm(Extended(X, m), tw, n)(2 * m) == InverseTerm(Extended(X, m), tw, n)(0)
  {
    hide Mul, Add, Table, Tw, Extended, Conj;
    ExtendedMirror(X, m, 0);
    MirrorExponent(tw, n, 0, 2 * m);
  }

  lemma SelfConjugate(y: Cx)
    requires Conj(y) == y
    ensures y.i == 0.0
  {}

  lemma MirrorExponent(tw: seq<Cx>, n: int, k: int, N: int)
    requires |tw| == N > 0
    ensures Tw(tw, -((N - k) * n)) == Tw(tw, k * n)
    ensures -(-(k * n)) == k * n
  {
    assert -((N - k) * n) == k * n + (0 - n) * N;
    TwPeriod(tw, k * n, 0 - n);
  }

  /** The bins kiss_fftri hands to the complex transform of half the length. */
  function Merged(Xe: int -> Cx, tw: seq<Cx>, m: int): int -> Cx
    requires |tw| > 0
  {
    k => MergedBin(Xe, tw, m, k)
  }

  function MergedBin(Xe: int -> Cx, tw: seq<Cx>, m: int, k: int): Cx
    requires |tw| > 0
  {
    Add(Add(Xe(k), Xe(k + m)), Mul(Mul(I, Tw(tw, 0 - k)), Sub(Xe(k), Xe(k + m))))
  }

  /** The pair written by one turn of the loop of kiss_fftri, in the source's arithmetic. */
  function MergeLow(fk: Cx, fnkc: Cx, st: Cx): Cx {
    Add(Add(fk, fnkc), Mul(Sub(fk, fnkc), st))
  }

  function MergeHigh(fk: Cx, fnkc: Cx, st: Cx): Cx {
    var t := Sub(Add(fk, fnkc), Mul(Sub(fk, fnkc), st));
    Cx(t.r, t.i * -1.0)
  }

  lemma MergeHighConj(fk: Cx, fnkc: Cx, st: Cx)
    ensures MergeHigh(fk, fnkc, st) == Conj(Sub(Add(fk, fnkc), Mul(Sub(fk, fnkc), st)))
  {
    hide Mul, Add, Sub;
    var t := Sub(Add(fk, fnkc), Mul(Sub(fk, fnkc), st));
    assert t.i * -1.0 == -t.i;
  }

  lemma MergedPair(X: seq<Cx>, tw: seq<Cx>, m: nat, k: nat)
    requires |X| == m + 1 && 1 <= k < m && |tw| == 2 * m && Table(tw, false)
    ensures var st := Mul(Conj(Tw(tw, k)), I);
      && MergeLow(X[k], Conj(X[m - k]), st) == Merged(Extended(X, m), tw, m)(k)
      && MergeHigh(X[k], Conj(X[m - k]), st) == Merged(Extended(X, m), tw, m)(m - k)
  {
    hide *;
    var Xe, p, q := Extended(X, m), X[k], Conj(X[m - k]);
    var w, v := Tw(tw, k), Tw(tw, 0 - k);
    ExtendedBins(X, m, k);
    TwConj(tw, false, k);
    MergedAt(Xe, tw, m, k, v);
    MergeAlgebra(p, q, v);
    HalfTurn(tw, false, k);
    TwPeriod(tw, k - m, 1);
    assert k - m + 1 * |tw| == m + k;
    MergedAt(Xe, tw, m, m - k, Neg(w));
    MergeHighConj(p, q, Mul(v, I));
    MergedConj(p, X[m - k], w);
  }

  lemma MergeAlgebra(p: Cx, q: Cx, v: Cx)
    ensures MergeLow(p, q, Mul(v, I)) == Add(Add(p, q), Mul(Mul(I, v), Sub(p, q)))
  {
    hide Mul, Add, Sub;
    MulComm(v, I);
    MulComm(Mul(I, v), Sub(p, q));
  }

  lemma MergedAt(Xe: int -> Cx, tw: seq<Cx>, m: int, k: int, v: Cx)
    requires |tw| > 0 && v == Tw(tw, 0 - k)
    ensures Merged(Xe, tw, m)(k) == Add(Add(Xe(k), Xe(k + m)), Mul(Mul(I, v), Sub(Xe(k), Xe(k + m))))
  {
    hide Mul, Add, Sub, Tw;
  }

  lemma ExtendedBins(X: seq<Cx>, m: nat, k: nat)
    requires |X| == m + 1 && 1 <= k < m
    ensures Extended(X, m)(k) == X[k] && Extended(X, m)(m - k) == X[m - k]
    ensures Extended(X, m)(k + m) == Conj(X[m - k]) && Extended(X, m)(m - k + m) == Conj(X[k])
  {
    hide Conj;
    DivModUnique(k, 0, k, 2 * m);
    DivModUnique(m - k, 0, m - k, 2 * m);
    DivModUnique(k + m, 0, k + m, 2 * m);
    DivModUnique(m - k + m, 0, m - k + m, 2 * m);
  }

  lemma MergedConj(p: Cx, r: Cx, w: Cx)
    ensures Conj(Sub(Add(p, Conj(r)), Mul(Sub(p, Conj(r)), Mul(Conj(w), I)))) ==
            Add(Add(r, Conj(p)), Mul(Mul(I, Neg(w)), Sub(r, Conj(p))))
  {}

  lemma ExtendedEnds(X: seq<Cx>, m: nat)
    requires |X| == m + 1 && m > 0
    ensures Extended(X, m)(0) == OfReal(X[0].r) && Extended(X, m)(m) == OfReal(X[m].r)
  {
    DivModUnique(0, 0, 0, 2 * m);
    DivModUnique(m, 0, m, 2 * m);
  }

  lemma MergedEnds(X: seq<Cx>, tw: seq<Cx>, m: nat)
    requires |X| == m + 1 && m > 0 && |tw| == 2 * m && Table(tw, false)
    ensures Merged(Extended(X, m), tw, m)(0) == Cx(X[0].r + X[m].r, X[0].r - X[m].r)
  {
    hide *;
    ExtendedEnds(X, m);
    TwUnit(tw, false, 0);
    MergedAt(Extended(X, m), tw, m, 0, ONE);
    MergedEndKernel(X[0].r, X[m].r);
  }

  lemma MergedEndKernel(a: real, b: real)
    ensures Add(Add(OfReal(a), OfReal(b)), Mul(Mul(I, ONE), Sub(OfReal(a), OfReal(b)))) == Cx(a + b, a - b)
  {}

  // One merged bin, spread over the even and the odd output sample.
  lemma MergedTerm(Xe: int -> Cx, tw: seq<Cx>, m: nat, n: int, k: int)
    requires |tw| == 2 * m > 0 && Table(tw, false)
    ensures Mul(Merged(Xe, tw, m)(k), Tw(tw, -(k * (2 * n)))) ==
            Add(Add(InverseTerm(Xe, tw, 2 * n)(k), InverseTerm(Xe, tw, 2 * n)(m + k)),
                Mul(I, Add(InverseTerm(Xe, tw, 2 * n + 1)(k), InverseTerm(Xe, tw, 2 * n + 1)(m + k))))
  {
    hide *;
    var e, f := -(k * (2 * n)), -(k * (2 * n + 1));
    var a, v := Tw(tw, e), Tw(tw, 0 - k);
    MergedExponents(k, m, n);
    TwAdd(tw, false, 0 - k, e);
    TwPeriod(tw, e, 0 - n);
    TwPeriod(tw, m + f, 0 - n - 1);
    HalfTurn(tw, false, f);
    MergedAt(Xe, tw, m, k, v);
    MergedAlgebra(Xe(k), Xe(m + k), a, v);
    InverseTermAt(Xe, tw, 2 * n, k);
    InverseTermAt(Xe, tw, 2 * n, m + k);
    InverseTermAt(Xe, tw, 2 * n + 1, k);
    InverseTermAt(Xe, tw, 2 * n + 1, m + k);
  }

  lemma InverseTermAt(X: int -> Cx, tw: seq<Cx>, n: int, k: int)
    requires |tw| > 0
    ensures InverseTerm(X, tw, n)(k) == Mul(X(k), Tw(tw, -(k * n)))
  {
    hide Mul, Tw;
  }

  lemma MergedExponents(k: int, m: int, n: int)
    ensures 0 - k + -(k * (2 * n)) == -(k * (2 * n + 1))
    ensures -((m + k) * (2 * n)) == -(k * (2 * n)) + (0 - n) * (2 * m)
    ensures -((m + k) * (2 * n + 1)) == m + -(k * (2 * n + 1)) + (0 - n - 1) * (2 * m)
    ensures m + k == k + m
  {}

  lemma MergedAlgebra(p: Cx, q: Cx, a: Cx, v: Cx)
    ensures Mul(Add(Add(p, q), Mul(Mul(I, v), Sub(p, q))), a) ==
            Add(Add(Mul(p, a), Mul(q, a)), Mul(I, Add(Mul(p, Mul(v, a)), Mul(q, Neg(Mul(v, a))))))
  {
    hide Mul, Add, Sub, Neg;
    var d, t := Sub(p, q), Mul(v, a);
    Distribute(a, Add(p, q), Mul(Mul(I, v), d));
    Distribute(a, p, q);
    MulAssoc(Mul(I, v), d, a);
    MulComm(d, a);
    MulAssoc(I, v, Mul(a, d));
    MulAssoc(v, a, d);
    MulComm(t, d);
    AddLaws(p, q, ZERO);
    Distribute(t, p, Neg(q));
    MulNeg(q, t);
  }

  function MergedTransform(Xe: int -> Cx, tw: seq<Cx>, m: nat, n: int): int -> Cx
    requires |tw| > 0
  {
    k => Mul(Merged(Xe, tw, m)(k), Tw(tw, -(k * (2 * n))))
  }

  // f from index m on.
  function Later(f: int -> Cx, m: int): int -> Cx {
    i => f(m + i)
  }

  lemma FoldHalves(m: nat, f: int -> Cx)
    ensures Add(Sum(m, f), Sum(m, Later(f, m))) == Sum(2 * m, f)
  {
    hide Add;
    SumSplit(m, m, f);
    SumCongr(m, i => f(m + i), Later(f, m));
  }

  function Pairwise(f: int -> Cx, g: int -> Cx): int -> Cx {
    i => Add(f(i), g(i))
  }

  /** The half-length transform of the merged bins carries two output samples at once. */
  lemma InverseSplit(Xe: int -> Cx, tw: seq<Cx>, m: nat, n: int)
    requires |tw| == 2 * m > 0 && Table(tw, false)
    ensures Sum(m, MergedTransform(Xe, tw, m, n)) ==
            Add(Inverse(Xe, tw, 2 * n), Mul(I, Inverse(Xe, tw, 2 * n + 1)))
  {
    hide Mul, Add, Sub, Table, Tw, InverseTerm, Merged, Later, MergedTransform;
    var e, o := InverseTerm(Xe, tw, 2 * n), InverseTerm(Xe, tw, 2 * n + 1);
    var e', o' := Pairwise(e, Later(e, m)), Pairwise(o, Later(o, m));
    var io := i => Mul(I, o'(i));
    forall k ensures MergedTransform(Xe, tw, m, n)(k) == Add(e'(k), io(k)) {
      MergedTransformAt(Xe, tw, m, n, k);
    }
    SumCongr(m, MergedTransform(Xe, tw, m, n), i => Add(e'(i), io(i)));
    SumAdd(m, e', io);
    SumMul(m, I, o');
    SumCongr(m, io, i => Mul(I, o'(i)));
    PairwiseSum(m, e, Later(e, m));
    PairwiseSum(m, o, Later(o, m));
    FoldHalves(m, e);
    FoldHalves(m, o);
  }

  lemma PairwiseSum(m: nat, f: int -> Cx, g: int -> Cx)
    ensures Sum(m, Pairwise(f, g)) == Add(Sum(m, f), Sum(m, g))
  {
    hide Add;
    SumAdd(m, f, g);
    SumCongr(m, Pairwise(f, g), i => Add(f(i), g(i)));
  }

  lemma MergedTransformAt(Xe: int -> Cx, tw: seq<Cx>, m: nat, n: int, k: int)
    requires |tw| == 2 * m > 0 && Table(tw, false)
    ensures var e, o := InverseTerm(Xe, tw, 2 * n), InverseTerm(Xe, tw, 2 * n + 1);
      MergedTransform(Xe, tw, m, n)(k) == Add(Pairwise(e, Later(e, m))(k), Mul(I, Pairwise(o, Later(o, m))(k)))
  {
    hide Mul, Add, Sub, Table, Tw, InverseTerm, Merged;
    MergedTerm(Xe, tw, m, n, k);
  }

  /** The twiddle table of the complex plan inside an inverse real plan. */
  function InverseHalf(tw: seq<Cx>): (h: seq<Cx>)
    requires |tw| % 2 == 0
    ensures |h| == |tw| / 2
  {
    HalfTable(ConjTable(tw))
  }

  ghost predicate IsMerged(W: seq<Cx>, X: seq<Cx>, tw: seq<Cx>, m: nat)
    requires |X| == m + 1 && m > 0 && |tw| > 0
  {
    |W| == m && forall k :: 0 <= k < m ==> W[k] == Merged(Extended(X, m), tw, m)(k)
  }

  /** What the complex transform at the end of kiss_fftri leaves in cell n. */
  lemma InverseSamples(X: seq<Cx>, W: seq<Cx>, tw: seq<Cx>, m: nat, n: nat)
    requires |X| == m + 1 && m > 0 && |tw| == 2 * m && Table(tw, false)
    requires IsMerged(W, X, tw, m)
    ensures Transform(W, InverseHalf(tw), n) ==
            Cx(Inverse(Extended(X, m), tw, 2 * n).r, Inverse(Extended(X, m), tw, 2 * n + 1).r)
  {
    hide Mul, Add, Table, Tw, ConjTable, HalfTable, InverseHalf, Transform, Inverse, Merged, Extended;
    var Xe, h := Extended(X, m), InverseHalf(tw);
    TransformSum(W, h, n);
    forall k | 0 <= k < m ensures SubTerm(W, 0, 1, h, 1, n)(k) == MergedTransform(Xe, tw, m, n)(k) {
      PlainTerm(W, h, n, k);
      InverseHalfTw(tw, k * n);
      assert 2 * (k * n) == k * (2 * n);
    }
    SumCongr(m, SubTerm(W, 0, 1, h, 1, n), MergedTransform(Xe, tw, m, n));
    InverseSplit(Xe, tw, m, n);
    InverseIsReal(X, tw, m, 2 * n);
    InverseIsReal(X, tw, m, 2 * n + 1);
    PairOfReals(Inverse(Xe, tw, 2 * n), Inverse(Xe, tw, 2 * n + 1));
  }

  lemma InverseHalfTw(tw: seq<Cx>, e: int)
    requires |tw| > 0 && |tw| % 2 == 0 && Table(tw, false)
    ensures Tw(InverseHalf(tw), e) == Tw(tw, -(2 * e))
  {
    hide Tw, Table, ConjTable, HalfTable;
    HalfTableTw(ConjTable(tw), e);
    ConjTableTw(tw, 2 * e);
  }

  lemma PairOfReals(a: Cx, b: Cx)
    requires a.i == 0.0 && b.i == 0.0
    ensures Add(a, Mul(I, b)) == Cx(a.r, b.r)
  {}
}
