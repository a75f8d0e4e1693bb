/**
 kiss_fft: the recursive mixed-radix transform over the butterfly passes, and its two
 directions undoing each other.
 */
module KissFft {
  import opened Complex
  import opened ComplexSums
  import opened Arithmetic
  import opened Dft
  import opened ButterflySpec
  import opened Butterflies

  /** A factor buffer p1, m1, p2, m2, ... as kf_factor leaves it for a transform of length n. */
  ghost predicate Chain(factors: seq<int>, n: int) {
    && |factors| >= 2
    && factors[0] >= 1 && factors[1] >= 1
    && factors[0] * factors[1] == n
    && (factors[1] > 1 ==> Chain(factors[2..], factors[1]))
  }

  /** What kf_work leaves at offset k of its output before the recombination: cell k % m of the
      transform of the (k / m)-th decimated sequence. */
  function Part(x: seq<Cx>, fo: int, step: int, m: nat, p: int, tw: seq<Cx>, ts: int, k: int): Cx
    requires |tw| > 0 && m > 0
  {
    SubDft(x, fo + (k / m) * step, step * p, m, tw, ts * p, k % m)
  }

  /** B is A with the first q of the p sub-transforms stored from o on. */
  ghost predicate Filled(A: seq<Cx>, B: seq<Cx>, o: nat, x: seq<Cx>, fo: int, step: int, m: nat, p: int,
                         tw: seq<Cx>, ts: int, q: nat)
    requires |tw| > 0 && m > 0
  {
    && |B| == |A|
    && forall i {:trigger B[i]} :: 0 <= i < |A| ==>
      B[i] == if o <= i < o + q * m then Part(x, fo, step, m, p, tw, ts, i - o) else A[i]
  }

  /** B is A with the length-n transform of the strided input stored from o on. */
  ghost predicate Transformed(A: seq<Cx>, B: seq<Cx>, o: nat, x: seq<Cx>, fo: int, step: int, n: nat,
                              tw: seq<Cx>, ts: int)
    requires |tw| > 0
  {
    && |B| == |A|
    && forall i {:trigger B[i]} :: 0 <= i < |A| ==>
      B[i] == if o <= i < o + n then SubDft(x, fo, step, n, tw, ts, i - o) else A[i]
  }

  lemma FilledNext(A: seq<Cx>, B: seq<Cx>, C: seq<Cx>, o: nat, x: seq<Cx>, fo: int, step: int, m: nat, p: int,
                   tw: seq<Cx>, ts: int, q: nat)
    requires |tw| > 0 && m > 0
    requires Filled(A, B, o, x, fo, step, m, p, tw, ts, q)
    requires Transformed(B, C, o + q * m, x, fo + q * step, step * p, m, tw, ts * p)
    ensures Filled(A, C, o, x, fo, step, m, p, tw, ts, q + 1)
  {
    hide SubDft;
    assert (q + 1) * m == q * m + m;
    forall i | 0 <= i < |A|
      ensures C[i] == if o <= i < o + (q + 1) * m then Part(x, fo, step, m, p, tw, ts, i - o) else A[i]
    {
      if o + q * m <= i < o + q * m + m {
        DivModUnique(i - o, q, i - o - q * m, m);
      }
    }
  }

  // A transform of length one is the sample itself.
  lemma PointTransform(x: seq<Cx>, fo: int, step: int, tw: seq<Cx>, inverse: bool, ts: int)
    requires |tw| > 0 && Table(tw, inverse)
    ensures SubDft(x, fo, step, 1, tw, ts, 0) == At(x, fo)
  {
    hide Mul, Add, Table, Tw, At;
    SumOne(SubTerm(x, fo, step, tw, ts, 0));
    TwUnit(tw, inverse, 0);
    assert 0 * (0 * ts) == 0 && fo + 0 * step == fo;
    MulUnit(At(x, fo));
  }

  lemma Recombine(A: seq<Cx>, B: seq<Cx>, C: seq<Cx>, o: nat, x: seq<Cx>, fo: int, step: int, m: nat, p: nat,
                  tw: seq<Cx>, inverse: bool, ts: nat)
    requires |tw| > 0 && Table(tw, inverse) && m > 0 && ts * (p * m) == |tw|
    requires Filled(A, B, o, x, fo, step, m, p, tw, ts, p)
    requires Recombined(B, C, o, m, p, tw, ts, m)
    ensures Transformed(A, C, o, x, fo, step, p * m, tw, ts)
  {
    hide Table, Bfly, SubDft, At;
    var F := B[o..o + p * m];
    forall i | 0 <= i < |A|
      ensures C[i] == if o <= i < o + p * m then SubDft(x, fo, step, p * m, tw, ts, i - o) else A[i]
    {
      if o <= i < o + p * m {
        var k := i - o;
        assert C[i] == Bfly(F, m, p, tw, ts, k);
        forall q | 0 <= q < p
          ensures At(F, k % m + q * m) == SubDft(x, fo + q * step, step * p, m, tw, ts * p, k % m)
        {
          PartOf(B, F, o, x, fo, step, m, p, tw, ts, k % m, q, A);
        }
        Decimate(x, fo, step, m, p, tw, inverse, ts, k, F);
      }
    }
  }

  lemma PartOf(B: seq<Cx>, F: seq<Cx>, o: nat, x: seq<Cx>, fo: int, step: int, m: nat, p: nat,
               tw: seq<Cx>, ts: nat, u: nat, q: nat, A: seq<Cx>)
    requires |tw| > 0 && u < m && q < p && o + p * m <= |B|
    requires Filled(A, B, o, x, fo, step, m, p, tw, ts, p)
    requires F == B[o..o + p * m]
    ensures At(F, u + q * m) == SubDft(x, fo + q * step, step * p, m, tw, ts * p, u)
  {
    hide SubDft;
    Position(u, q, m, p);
    assert F[u + q * m] == B[o + (u + q * m)];
  }

  // The samples read by the q-th sub-transform lie inside the input.
  lemma InputRange(fo: nat, step: nat, p: nat, m: nat, q: nat, len: nat)
    requires q < p && m > 0 && fo + (p * m - 1) * step < len
    ensures fo + q * step < len
    ensures fo + q * step + (m - 1) * (step * p) < len
  {
    assert p * (m - 1) == p * m - p;
    assert q * step + (m - 1) * (step * p) == (q + p * (m - 1)) * step;
    MulMono(q + p * (m - 1), p * m - 1, step);
    assert p * m >= p by { MulMono(1, m, p); }
    MulMono(q, p * m - 1, step);
  }

  lemma SubRange(o: nat, q: nat, p: nat, m: nat, len: nat)
    requires q < p && o + p * m <= len
    ensures 0 <= q * m && o + q * m + m <= len
  {
    MulMono(q + 1, p, m);
    assert (q + 1) * m == q * m + m;
    MulMono(0, q, m);
  }

  // The leaves of the recursion: p strided input samples one after the other.
  method CopyPoints(Fout: array<Cx>, o: nat, f: array<Cx>, fo: nat, fstride: nat, inStride: nat, p: nat,
                    ghost tw: seq<Cx>, ghost inverse: bool)
    requires Fout != f && |tw| > 0 && Table(tw, inverse)
    requires o + p <= Fout.Length && fo + (p * 1 - 1) * (fstride * inStride) < f.Length
    modifies Fout
    ensures Filled(old(Fout[..]), Fout[..], o, f[..], fo, fstride * inStride, 1, p, tw, fstride, p)
  {
    hide Table, Filled;
    ghost var A, x, step := Fout[..], f[..], fstride * inStride;
    NothingFilled(A, o, x, fo, step, 1, p, tw, fstride);
    var q, src := 0, fo;
    while q < p
      invariant 0 <= q <= p && src == fo + q * step
      invariant f[..] == x && Filled(A, Fout[..], o, x, fo, step, 1, p, tw, fstride, q)
    {
      ghost var B := Fout[..];
      InputRange(fo, step, p, 1, q, f.Length);
      Fout[o + q] := f[src];
      FilledPoint(A, B, Fout[..], o, x, fo, step, p, tw, inverse, fstride, q);
      src := src + fstride * inStride;
      OneMoreTime(q, step);
      q := q + 1;
    }
  }

  // The pass for one radix.
  method Butterfly(Fout: array<Cx>, o: nat, fstride: nat, tw: seq<Cx>, m: nat, p: nat, inverse: bool)
    requires |tw| > 0 && m > 0 && p > 0 && fstride * (p * m) == |tw| && o + p * m <= Fout.Length && Table(tw, inverse)
    modifies Fout
    ensures Recombined(old(Fout[..]), Fout[..], o, m, p, tw, fstride, m)
  {
    hide Table, Recombined;
    if p == 2 {
      Bfly2(Fout, o, fstride, tw, m, inverse);
    } else if p == 3 {
      Bfly3(Fout, o, fstride, tw, m, inverse);
    } else if p == 4 {
      Bfly4(Fout, o, fstride, tw, m, inverse);
    } else if p == 5 {
      Bfly5(Fout, o, fstride, tw, m, inverse);
    } else {
      BflyGeneric(Fout, o, fstride, tw, m, p, inverse);
    }
  }

  /** kf_work: the transform of length p * m of every (fstride * in_stride)-th input sample,
      stored contiguously from o on; the rest of the output and the whole input are untouched. */
  method KfWork(Fout: array<Cx>, o: nat, f: array<Cx>, fo: nat, fstride: nat, inStride: nat,
                factors: seq<int>, tw: seq<Cx>, inverse: bool)
    requires Fout != f
    requires |tw| > 0 && Table(tw, inverse)
    requires |factors| >= 2 && Chain(factors, factors[0] * factors[1])
    requires fstride * (factors[0] * factors[1]) == |tw|
    requires o + factors[0] * factors[1] <= Fout.Length
    requires fo + (factors[0] * factors[1] - 1) * (fstride * inStride) < f.Length
    modifies Fout
    ensures Transformed(old(Fout[..]), Fout[..], o, f[..], fo, fstride * inStride, factors[0] * factors[1], tw, fstride)
    decreases |factors|
  {
    hide Table, Filled, Transformed, Recombined;
    var p, m := factors[0], factors[1];
    ghost var A := Fout[..];
    ghost var x := f[..];
    ghost var step := fstride * inStride;
    if m == 1 {
      CopyPoints(Fout, o, f, fo, fstride, inStride, p, tw, inverse);
    } else {
      Regroup(fstride, p, m, inStride);
      NothingFilled(A, o, x, fo, step, m, p, tw, fstride);
      var src, out, q := fo, o, 0;
      while q < p
        invariant 0 <= q <= p && src == fo + q * step && out == o + q * m
        invariant f[..] == x && Filled(A, Fout[..], o, x, fo, step, m, p, tw, fstride, q)
      {
        ghost var B := Fout[..];
        InputRange(fo, step, p, m, q, f.Length);
        SubRange(o, q, p, m, Fout.Length);
        KfWork(Fout, out, f, src, fstride * p, inStride, factors[2..], tw, inverse);
        FilledNext(A, B, Fout[..], o, x, fo, step, m, p, tw, fstride, q);
        src := src + fstride * inStride;
        OneMoreTime(q, step);
        OneMoreTime(q, m);
        out := out + m;
        q := q + 1;
      }
    }
    ghost var B := Fout[..];
    Butterfly(Fout, o, fstride, tw, m, p, inverse);
    Recombine(A, B, Fout[..], o, x, fo, step, m, p, tw, inverse, fstride);
  }

  lemma NothingFilled(A: seq<Cx>, o: nat, x: seq<Cx>, fo: int, step: int, m: nat, p: int, tw: seq<Cx>, ts: int)
    requires |tw| > 0 && m > 0
    ensures Filled(A, A, o, x, fo, step, m, p, tw, ts, 0)
  {
    hide Part;
  }

  lemma FilledPoint(A: seq<Cx>, B: seq<Cx>, C: seq<Cx>, o: nat, x: seq<Cx>, fo: nat, step: nat, p: int,
                    tw: seq<Cx>, inverse: bool, ts: int, q: nat)
    requires |tw| > 0 && Table(tw, inverse)
    requires Filled(A, B, o, x, fo, step, 1, p, tw, ts, q)
    requires o + q < |B| && 0 <= fo + q * step < |x|
    requires C == B[o + q := x[fo + q * step]]
    ensures Filled(A, C, o, x, fo, step, 1, p, tw, ts, q + 1)
  {
    hide Table, SubDft;
    PointTransform(x, fo + q * step, step * p, tw, inverse, ts * p);
    assert q / 1 == q && q % 1 == 0;
    assert Part(x, fo, step, 1, p, tw, ts, q) == x[fo + q * step];
  }

  lemma Regroup(ts: int, p: int, m: int, s: int)
    ensures (ts * p) * m == ts * (p * m)
    ensures (ts * p) * s == (ts * s) * p
  {}
}
