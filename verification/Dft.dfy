/**
 The discrete Fourier transform that kiss_fft computes: twiddle tables, the transform as a
 finite sum, its decimation in time, and its inversion.
 */
module Dft {
  import opened Complex
  import opened ComplexSums
  import opened Arithmetic

  // The sample at index i, and zero outside the buffer.
  function At(x: seq<Cx>, i: int): Cx {
    if 0 <= i < |x| then x[i] else ZERO
  }

  // The e-th power of the root of unity a twiddle table is made of.
  function Tw(tw: seq<Cx>, e: int): Cx
    requires |tw| > 0
  {
    tw[e % |tw|]
  }

  /**
   What kiss_fft_alloc stores for `nfft == |tw|`: the powers of the primitive root
   exp(-2 pi i / nfft), or of its conjugate for an inverse configuration. The sine and cosine
   are replaced by these five facts about them.
   */
  ghost predicate Table(tw: seq<Cx>, inverse: bool) {
    && |tw| > 0
    && tw[0] == ONE
    && (forall a :: 0 < a < |tw| ==> tw[a] != ONE)
    && (|tw| % 4 == 0 ==> tw[|tw| / 4] == if inverse then I else MINUS_I)
    && ClosedUnderMul(tw)
    && (forall a {:trigger OnCircle(tw[a])} :: 0 <= a < |tw| ==> OnCircle(tw[a]))
  }

  ghost predicate ClosedUnderMul(tw: seq<Cx>) {
    forall a, b {:trigger Mul(tw[a], tw[b])} :: 0 <= a < |tw| && 0 <= b < |tw| ==>
      Mul(tw[a], tw[b]) == tw[(a + b) % |tw|]
  }

  // The four powers of a quarter turn.
  function Turns(q: Cx): (tw: seq<Cx>) { [ONE, q, Neg(ONE), Neg(q)] }

  lemma TurnSquare(q: Cx)
    requires q == I || q == MINUS_I
    ensures Mul(q, q) == Neg(ONE)
  {
    if q == I {
      assert Mul(Cx(0.0, 1.0), Cx(0.0, 1.0)) == Cx(-1.0, 0.0);
    } else {
      assert Mul(Cx(0.0, -1.0), Cx(0.0, -1.0)) == Cx(-1.0, 0.0);
    }
  }

  lemma NegNeg(a: Cx)
    ensures Neg(Neg(a)) == a
  {}

  lemma TurnProducts(q: Cx)
    requires q == I || q == MINUS_I
    ensures Mul(q, q) == Neg(ONE) && Mul(q, Neg(ONE)) == Neg(q) && Mul(q, Neg(q)) == ONE
    ensures Mul(Neg(ONE), q) == Neg(q) && Mul(Neg(ONE), Neg(ONE)) == ONE && Mul(Neg(ONE), Neg(q)) == q
    ensures Mul(Neg(q), q) == ONE && Mul(Neg(q), Neg(ONE)) == q && Mul(Neg(q), Neg(q)) == Neg(ONE)
  {
    hide Mul, Neg;
    TurnSquare(q);
    NegNeg(ONE);
    NegNeg(q);
    MulUnit(q);
    MulUnit(Neg(ONE));
    MulUnit(Neg(q));
    MulNeg(q, ONE);
    MulNeg(q, q);
    MulNeg(Neg(ONE), ONE);
    MulNeg(Neg(ONE), q);
    MulNeg(Neg(q), ONE);
    MulNeg(Neg(q), q);
    MulComm(Neg(ONE), q);
    MulComm(Neg(q), q);
  }

  lemma TurnsClosed(q: Cx, a: nat, b: nat)
    requires q == I || q == MINUS_I
    requires a < 4 && b < 4
    ensures Mul(Turns(q)[a], Turns(q)[b]) == Turns(q)[(a + b) % 4]
  {
    hide Mul, Neg;
    TurnProducts(q);
    MulUnit(Turns(q)[a]);
    MulUnit(Turns(q)[b]);
    if a == 0 {
    } else if a == 1 {
    } else if a == 2 {
    } else {
    }
  }

  lemma TurnsOnCircle(q: Cx, a: nat)
    requires q == I || q == MINUS_I
    requires a < 4
    ensures OnCircle(Turns(q)[a])
  {
    hide Mul, Conj, Neg;
    TurnProducts(q);
    MulUnit(ONE);
    TurnConj(q);
  }

  lemma TurnConj(q: Cx)
    requires q == I || q == MINUS_I
    ensures Conj(ONE) == ONE && Conj(Neg(ONE)) == Neg(ONE) && Conj(q) == Neg(q) && Conj(Neg(q)) == q
  {
    hide Conj, Neg;
    ConjAxis(1.0);
    ConjAxis(-1.0);
  }

  lemma ConjAxis(s: real)
    ensures Conj(Cx(s, 0.0)) == Cx(s, 0.0) && Neg(Cx(s, 0.0)) == Cx(-s, 0.0)
    ensures Conj(Cx(0.0, s)) == Cx(0.0, -s) == Neg(Cx(0.0, s))
  {}

  /** Twiddle tables exist: the one of length 4 for either direction. */
  lemma QuarterTable(inverse: bool)
    ensures Table(Turns(if inverse then I else MINUS_I), inverse)
  {
    hide Mul, OnCircle;
    var q := if inverse then I else MINUS_I;
    var tw := Turns(q);
    assert |tw| == 4 && tw[1] == q;
    forall a, b | 0 <= a < 4 && 0 <= b < 4 ensures Mul(tw[a], tw[b]) == tw[(a + b) % 4] {
      TurnsClosed(q, a, b);
    }
    forall a | 0 <= a < 4 ensures OnCircle(tw[a]) {
      TurnsOnCircle(q, a);
    }
  }

  lemma TwPeriod(tw: seq<Cx>, e: int, c: int)
    requires |tw| > 0
    ensures Tw(tw, e + c * |tw|) == Tw(tw, e)
  {
    ModPeriod(e, c, |tw|);
  }

  lemma TwAdd(tw: seq<Cx>, inverse: bool, a: int, b: int)
    requires Table(tw, inverse)
    ensures Mul(Tw(tw, a), Tw(tw, b)) == Tw(tw, a + b)
  {
    hide Mul, OnCircle;
    var n := |tw|;
    ModAdd(a, b, n);
    assert Mul(tw[a % n], tw[b % n]) == tw[(a % n + b % n) % n];
  }

  lemma TableSize(tw: seq<Cx>, inverse: bool)
    requires Table(tw, inverse)
    ensures |tw| > 0
  {}

  lemma TwUnit(tw: seq<Cx>, inverse: bool, e: int)
    requires Table(tw, inverse)
    ensures Tw(tw, 0) == ONE
    ensures OnCircle(Tw(tw, e))
  {
    hide Mul, OnCircle;
  }

  lemma TwConj(tw: seq<Cx>, inverse: bool, e: int)
    requires Table(tw, inverse)
    ensures Conj(Tw(tw, e)) == Tw(tw, -e)
  {
    hide Mul, OnCircle, Table, Tw, Conj;
    TableSize(tw, inverse);
    TwAdd(tw, inverse, e, -e);
    TwUnit(tw, inverse, e);
    ConjInverse(Tw(tw, e), Tw(tw, -e));
  }

  /** The m-point transform of the samples o, o + step, o + 2 step, ... taken with every ts-th
      twiddle factor: what one recursion level of kf_work leaves in its part of the output. */
  function SubTerm(x: seq<Cx>, o: int, step: int, tw: seq<Cx>, ts: int, k: int): int -> Cx
    requires |tw| > 0
  {
    j => Mul(At(x, o + j * step), Tw(tw, j * (k * ts)))
  }

  function SubDft(x: seq<Cx>, o: int, step: int, m: nat, tw: seq<Cx>, ts: int, k: int): Cx
    requires |tw| > 0
  {
    Sum(m, SubTerm(x, o, step, tw, ts, k))
  }

  /** The transform of the whole buffer. */
  function Transform(x: seq<Cx>, tw: seq<Cx>, k: int): Cx
    requires |tw| > 0
  {
    SubDft(x, 0, 1, |tw|, tw, 1, k)
  }

  /** One output of the radix-p recombination of p transforms of length m. */
  function BflyTerm(F: seq<Cx>, u: int, m: int, tw: seq<Cx>, e: int): int -> Cx
    requires |tw| > 0
  {
    q => Mul(At(F, u + q * m), Tw(tw, q * e))
  }

  function Bfly(F: seq<Cx>, m: nat, p: nat, tw: seq<Cx>, ts: int, k: int): Cx
    requires |tw| > 0 && m > 0
  {
    Sum(p, BflyTerm(F, k % m, m, tw, k * ts))
  }

  lemma DecimatedTerm(x: seq<Cx>, o: int, step: int, m: int, p: int, tw: seq<Cx>, inverse: bool,
                      ts: int, k: int, q: int, j: int)
    requires Table(tw, inverse) && m > 0 && ts * (p * m) == |tw|
    ensures SubTerm(x, o, step, tw, ts, k)(q + p * j)
         == Mul(SubTerm(x, o + q * step, step * p, tw, ts * p, k % m)(j), Tw(tw, q * (k * ts)))
  {
    hide Mul, Table, Tw, At;
    TableSize(tw, inverse);
    var u, c := k % m, k / m;
    assert k == c * m + u;
    assert (q + p * j) * step == q * step + j * (step * p);
    var xv := At(x, o + (q + p * j) * step);
    calc {
      (q + p * j) * (k * ts);
      q * (k * ts) + j * ((c * m + u) * ts * p);
      { assert (c * m + u) * ts * p == u * (ts * p) + c * (ts * (p * m)); }
      q * (k * ts) + j * (u * (ts * p) + c * |tw|);
      q * (k * ts) + j * (u * (ts * p)) + (j * c) * |tw|;
    }
    TwPeriod(tw, q * (k * ts) + j * (u * (ts * p)), j * c);
    TwAdd(tw, inverse, j * (u * (ts * p)), q * (k * ts));
    MulAssoc(xv, Tw(tw, j * (u * (ts * p))), Tw(tw, q * (k * ts)));
  }

  /** Decimation in time: the transform of length p * m is the radix-p recombination of the
      transforms of the p decimated sequences. */
  lemma Decimate(x: seq<Cx>, o: int, step: int, m: nat, p: nat, tw: seq<Cx>, inverse: bool,
                 ts: int, k: int, F: seq<Cx>)
    requires Table(tw, inverse) && m > 0 && ts * (p * m) == |tw|
    requires forall q :: 0 <= q < p ==>
      At(F, k % m + q * m) == SubDft(x, o + q * step, step * p, m, tw, ts * p, k % m)
    ensures SubDft(x, o, step, p * m, tw, ts, k) == Bfly(F, m, p, tw, ts, k)
  {
    hide Mul, Add, At, Tw, SubTerm, Table;
    TableSize(tw, inverse);
    var f := SubTerm(x, o, step, tw, ts, k);
    var u := k % m;
    SumDecimate(p, m, f);
    forall q | 0 <= q < p
      ensures Sum(m, Row(f, p, q)) == BflyTerm(F, u, m, tw, k * ts)(q)
    {
      var g := SubTerm(x, o + q * step, step * p, tw, ts * p, u);
      var w := Tw(tw, q * (k * ts));
      forall j | 0 <= j < m ensures Row(f, p, q)(j) == Mul(g(j), w) {
        DecimatedTerm(x, o, step, m, p, tw, inverse, ts, k, q, j);
      }
      SumCongr(m, Row(f, p, q), j => Mul(g(j), w));
      SumMul(m, w, g);
    }
    SumCongr(p, q => Sum(m, Row(f, p, q)), BflyTerm(F, u, m, tw, k * ts));
  }

  // The powers 1, w^d, w^2d, ... of one twiddle factor.
  function Powers(tw: seq<Cx>, d: int): int -> Cx
    requires |tw| > 0
  {
    k => Tw(tw, k * d)
  }

  /** Orthogonality of the powers of a primitive root of unity. */
  lemma Orthogonal(tw: seq<Cx>, inverse: bool, d: int)
    requires Table(tw, inverse)
    ensures Sum(|tw|, Powers(tw, d)) == if d % |tw| == 0 then OfReal(|tw| as real) else ZERO
  {
    hide Mul, Add, Table, Tw, Scale;
    TableSize(tw, inverse);
    var n := |tw|;
    if d % n == 0 {
      forall k | 0 <= k < n ensures Powers(tw, d)(k) == ONE {
        TwUnit(tw, inverse, 0);
        assert k * d == 0 + (k * (d / n)) * n;
        TwPeriod(tw, 0, k * (d / n));
      }
      SumCongr(n, Powers(tw, d), k => ONE);
      SumConst(n, ONE);
      ScaleUnit(n as real);
    } else {
      RotatedSum(tw, inverse, d);
      TwNotOne(tw, inverse, d);
      FixedByNonUnit(Sum(n, Powers(tw, d)), Tw(tw, d));
    }
  }

  lemma TwNotOne(tw: seq<Cx>, inverse: bool, d: int)
    requires Table(tw, inverse)
    requires d % |tw| != 0
    ensures Tw(tw, d) != ONE
  {
    hide Mul, OnCircle, ClosedUnderMul;
  }

  // Multiplying by the d-th power rotates the summands, so it fixes the sum.
  lemma RotatedSum(tw: seq<Cx>, inverse: bool, d: int)
    requires Table(tw, inverse)
    ensures Mul(Sum(|tw|, Powers(tw, d)), Tw(tw, d)) == Sum(|tw|, Powers(tw, d))
  {
    hide Mul, Add, Tw, Table, Powers;
    TableSize(tw, inverse);
    var n := |tw|;
    var w := Tw(tw, d);
    var f := Powers(tw, d);
    forall k ensures Mul(f(k), w) == f(1 + k) { PowersStep(tw, inverse, d, k); }
    PowersWrap(tw, d);
    SumMul(n, w, f);
    SumCongr(n, k => Mul(f(k), w), k => f(1 + k));
    SumShift(n, f);
  }

  lemma PowersStep(tw: seq<Cx>, inverse: bool, d: int, k: int)
    requires Table(tw, inverse)
    ensures Mul(Powers(tw, d)(k), Tw(tw, d)) == Powers(tw, d)(1 + k)
  {
    hide Mul, Tw, Table;
    TableSize(tw, inverse);
    TwAdd(tw, inverse, k * d, d);
    assert k * d + d == (1 + k) * d;
  }

  lemma PowersWrap(tw: seq<Cx>, d: int)
    requires |tw| > 0
    ensures Powers(tw, d)(|tw|) == Powers(tw, d)(0)
  {
    hide Tw;
    TwPeriod(tw, 0, d);
    assert 0 + d * |tw| == |tw| * d;
  }

  /** The inverse configuration's table: its phases are negated. */
  function ConjTable(tw: seq<Cx>): (cw: seq<Cx>)
    ensures |cw| == |tw| && forall i :: 0 <= i < |tw| ==> cw[i] == Conj(tw[i])
  {
    seq(|tw|, i requires 0 <= i < |tw| => Conj(tw[i]))
  }

  lemma ConjTableIsTable(tw: seq<Cx>)
    requires Table(tw, false)
    ensures Table(ConjTable(tw), true)
  {
    hide ClosedUnderMul, OnCircle, Mul, Conj, Neg, ConjTable;
    var n, cw := |tw|, ConjTable(tw);
    ConjClosed(tw);
    forall a | 0 <= a < n ensures OnCircle(cw[a]) {
      assert OnCircle(tw[a]);
      ConjOnCircle(tw[a]);
    }
    forall a | 0 < a < n ensures cw[a] != ONE {
      assert tw[a] != ONE;
      ConjNotOne(tw[a]);
    }
    ConjOne();
    ConjMinusI();
    if n % 4 == 0 {
      assert tw[n / 4] == MINUS_I;
      assert cw[n / 4] == I;
    }
  }

  lemma ConjTableTw(tw: seq<Cx>, e: int)
    requires |tw| > 0 && Table(tw, false)
    ensures Tw(ConjTable(tw), e) == Tw(tw, -e)
  {
    hide Table, Mul;
    TwConj(tw, false, e);
  }

  lemma ConjClosed(tw: seq<Cx>)
    requires ClosedUnderMul(tw)
    ensures ClosedUnderMul(ConjTable(tw))
  {
    hide Mul;
    var n, cw := |tw|, ConjTable(tw);
    forall a, b | 0 <= a < n && 0 <= b < n ensures Mul(cw[a], cw[b]) == cw[(a + b) % n] {
      ConjLaws(tw[a], tw[b]);
      assert Mul(tw[a], tw[b]) == tw[(a + b) % n];
    }
  }

  /** The sum an inverse-configured transform evaluates at n, over any spectrum X. */
  function InverseTerm(X: int -> Cx, tw: seq<Cx>, n: int): int -> Cx
    requires |tw| > 0
  {
    k => Mul(X(k), Tw(tw, -(k * n)))
  }

  function Inverse(X: int -> Cx, tw: seq<Cx>, n: int): Cx
    requires |tw| > 0
  {
    Sum(|tw|, InverseTerm(X, tw, n))
  }

  function Spectrum(x: seq<Cx>, tw: seq<Cx>): int -> Cx
    requires |tw| > 0
  {
    k => Transform(x, tw, k)
  }

  // Summand of the double sum behind the inversion formula.
  lemma InversionTerm(x: seq<Cx>, tw: seq<Cx>, inverse: bool, n: int, k: int, j: int)
    requires Table(tw, inverse)
    ensures Mul(SubTerm(x, 0, 1, tw, 1, k)(j), Tw(tw, -(k * n))) ==
            Mul(At(x, j), Powers(tw, j - n)(k))
  {
    hide Mul, Tw, At, Table;
    TableSize(tw, inverse);
    PlainTerm(x, tw, k, j);
    Expand(k, j, n);
    TwAdd(tw, inverse, j * k, -(k * n));
    MulAssoc(At(x, j), Tw(tw, j * k), Tw(tw, -(k * n)));
  }

  lemma Expand(k: int, j: int, n: int)
    ensures j * k + -(k * n) == k * (j - n)
    ensures k * (j - n) == -(k * (n - j))
  {}

  lemma PlainTerm(x: seq<Cx>, tw: seq<Cx>, k: int, j: int)
    requires |tw| > 0
    ensures SubTerm(x, 0, 1, tw, 1, k)(j) == Mul(At(x, j), Tw(tw, j * k))
  {
    hide Mul, Tw, At;
    assert 0 + j * 1 == j && j * (k * 1) == j * k;
  }

  /** The inverse sum over the spectrum of x returns nfft times the samples of x. */
  lemma Inversion(x: seq<Cx>, tw: seq<Cx>, inverse: bool, n: int)
    requires Table(tw, inverse) && |x| == |tw|
    ensures Inverse(Spectrum(x, tw), tw, n) == Scale(|tw| as real, x[n % |tw|])
  {
    hide Mul, Add, Tw, At, SubTerm, Table, Powers, Scale;
    TableSize(tw, inverse);
    var N := |tw|;
    var f := (k: int, j: int) => Mul(SubTerm(x, 0, 1, tw, 1, k)(j), Tw(tw, -(k * n)));
    var picked := (j: int) => if j == n % N then Mul(At(x, j), OfReal(N as real)) else ZERO;
    forall j | 0 <= j < N ensures Sum(N, k => f(k, j)) == picked(j) {
      var w := Powers(tw, j - n);
      forall k ensures f(k, j) == Mul(At(x, j), w(k)) {
        InversionTerm(x, tw, inverse, n, k, j);
      }
      SumCongr(N, k => f(k, j), k => Mul(At(x, j), w(k)));
      SumMul(N, At(x, j), w);
      Orthogonal(tw, inverse, j - n);
      SameResidue(j, n, N);
      MulUnit(At(x, j));
    }
    forall k | 0 <= k < N
      ensures InverseTerm(Spectrum(x, tw), tw, n)(k) == Sum(N, j => f(k, j))
    {
      TransformSum(x, tw, k);
      SumMul(N, Tw(tw, -(k * n)), SubTerm(x, 0, 1, tw, 1, k));
      SumCongr(N, j => f(k, j), j => Mul(SubTerm(x, 0, 1, tw, 1, k)(j), Tw(tw, -(k * n))));
    }
    SumCongr(N, InverseTerm(Spectrum(x, tw), tw, n), k => Sum(N, j => f(k, j)));
    SumSwap(N, N, f);
    SumCongr(N, j => Sum(N, k => f(k, j)), picked);
    SumSingle(N, picked, n % N);
    PickedValue(x, n % N, N);
  }

  lemma PickedValue(x: seq<Cx>, i: int, n: nat)
    requires 0 <= i < |x|
    ensures Mul(At(x, i), OfReal(n as real)) == Scale(n as real, x[i])
  {}

  lemma SameResidue(j: int, n: int, N: int)
    requires 0 <= j < N
    ensures (j - n) % N == 0 <==> j == n % N
  {
    var r, q := n % N, n / N;
    assert j - n == (j - r) + (-q) * N;
    ModPeriod(j - r, -q, N);
    if j >= r {
      DivModUnique(j - r, 0, j - r, N);
    } else {
      DivModUnique(j - r, -1, j - r + N, N);
    }
  }

  /** One sample of the circular convolution of h and x, both of the table's length. */
  function CircularTerm(h: seq<Cx>, x: seq<Cx>, n: int): int -> Cx
    requires |x| > 0
  {
    l => Mul(At(h, l), x[(n - l) % |x|])
  }

  /** Bin-by-bin product of two spectra. */
  function Product(x: seq<Cx>, h: seq<Cx>, tw: seq<Cx>): int -> Cx
    requires |tw| > 0
  {
    k => Mul(Transform(x, tw, k), Transform(h, tw, k))
  }

  /** Circular convolution theorem: transforming, multiplying bin by bin and transforming back
      gives nfft times the circular convolution. */
  lemma CircularConvolution(x: seq<Cx>, h: seq<Cx>, tw: seq<Cx>, inverse: bool, n: int)
    requires Table(tw, inverse) && |x| == |tw| && |h| == |tw|
    ensures Inverse(Product(x, h, tw), tw, n) ==
            Scale(|tw| as real, Sum(|tw|, CircularTerm(h, x, n)))
  {
    hide Mul, Add, Tw, At, Transform, Scale, InverseTerm, CircularTerm, Table, Product;
    TableSize(tw, inverse);
    var N := |tw|;
    var P := InverseTerm(Product(x, h, tw), tw, n);
    var f := (k: int, l: int) => Entry(x, h, tw, n, k, l);
    forall k | 0 <= k < N ensures P(k) == Sum(N, l => f(k, l)) {
      ConvolutionRow(x, h, tw, inverse, n, k);
      SumCongr(N, l => f(k, l), l => Entry(x, h, tw, n, k, l));
    }
    SumCongr(N, P, k => Sum(N, l => f(k, l)));
    SumSwap(N, N, f);
    var g := l => Scale(N as real, CircularTerm(h, x, n)(l));
    forall l | 0 <= l < N ensures Sum(N, k => f(k, l)) == g(l) {
      ConvolutionColumn(x, h, tw, inverse, n, l);
      SumCongr(N, k => f(k, l), k => Entry(x, h, tw, n, k, l));
    }
    SumCongr(N, l => Sum(N, k => f(k, l)), g);
    SumScale(N, N as real, CircularTerm(h, x, n));
    SumCongr(N, g, l => Scale(N as real, CircularTerm(h, x, n)(l)));
  }

  // The part of bin k of the product that sample l of h contributes to output n.
  function Entry(x: seq<Cx>, h: seq<Cx>, tw: seq<Cx>, n: int, k: int, l: int): Cx
    requires |tw| > 0
  {
    Mul(At(h, l), InverseTerm(Spectrum(x, tw), tw, n - l)(k))
  }

  // One sample of h against all bins.
  lemma ConvolutionColumn(x: seq<Cx>, h: seq<Cx>, tw: seq<Cx>, inverse: bool, n: int, l: int)
    requires Table(tw, inverse) && |x| == |tw| && |h| == |tw|
    ensures Sum(|tw|, k => Entry(x, h, tw, n, k, l)) ==
            Scale(|tw| as real, CircularTerm(h, x, n)(l))
  {
    hide Mul, Add, Tw, At, Transform, Scale, InverseTerm, Table, Spectrum;
    TableSize(tw, inverse);
    var N := |tw|;
    var xv := x[(n - l) % N];
    var t := InverseTerm(Spectrum(x, tw), tw, n - l);
    SumMul(N, At(h, l), t);
    SumCongr(N, k => Mul(At(h, l), t(k)), k => Entry(x, h, tw, n, k, l));
    Inversion(x, tw, inverse, n - l);
    ScaleLaws(N as real, xv, At(h, l));
    MulComm(At(h, l), Scale(N as real, xv));
    MulComm(At(h, l), xv);
  }

  // One bin of the product, spread over the samples of h.
  lemma ConvolutionRow(x: seq<Cx>, h: seq<Cx>, tw: seq<Cx>, inverse: bool, n: int, k: int)
    requires Table(tw, inverse) && |x| == |tw| && |h| == |tw|
    ensures InverseTerm(Product(x, h, tw), tw, n)(k) ==
            Sum(|tw|, l => Entry(x, h, tw, n, k, l))
  {
    hide Mul, Add, Tw, At, Transform, SubTerm, Table, Entry;
    TableSize(tw, inverse);
    var N := |tw|;
    var X, w := Transform(x, tw, k), Tw(tw, -(k * n));
    var ht := SubTerm(h, 0, 1, tw, 1, k);
    var xh := l => Mul(X, ht(l));
    forall l ensures Mul(xh(l), w) == Entry(x, h, tw, n, k, l) {
      ConvolutionTerm(x, h, tw, inverse, n, k, l);
    }
    TransformSum(h, tw, k);
    SumMul(N, X, ht);
    SumCongr(N, l => Mul(X, ht(l)), xh);
    SumMul(N, w, xh);
    SumCongr(N, l => Mul(xh(l), w), l => Entry(x, h, tw, n, k, l));
  }

  lemma TransformSum(h: seq<Cx>, tw: seq<Cx>, k: int)
    requires |tw| > 0
    ensures Transform(h, tw, k) == Sum(|tw|, SubTerm(h, 0, 1, tw, 1, k))
  {}

  lemma ConvolutionTerm(x: seq<Cx>, h: seq<Cx>, tw: seq<Cx>, inverse: bool, n: int, k: int, l: int)
    requires Table(tw, inverse) && |x| == |tw| && |h| == |tw|
    ensures Mul(Mul(Transform(x, tw, k), SubTerm(h, 0, 1, tw, 1, k)(l)), Tw(tw, -(k * n))) ==
            Entry(x, h, tw, n, k, l)
  {
    hide Mul, Tw, At, Transform, SubTerm, Table;
    TableSize(tw, inverse);
    var X, w := Transform(x, tw, k), Tw(tw, -(k * n));
    var hv, v := At(h, l), Tw(tw, l * k);
    PlainTerm(h, tw, k, l);
    MulComm(X, Mul(hv, v));
    MulAssoc(hv, v, X);
    MulComm(v, X);
    MulAssoc(hv, Mul(X, v), w);
    MulAssoc(X, v, w);
    TwAdd(tw, inverse, l * k, -(k * n));
    Expand(k, l, n);
  }
}
