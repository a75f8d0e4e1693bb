/**
 LagrangeCoefficientCalculator: the weights of an interpolator of order N at an intersample
 position, with a divide-and-conquer pass that forms all products of all-but-one distances.
 */
module Lagrange {
  import opened RealSums
  import opened LagrangeTheory

  // ---- the pairwise products of one recursion level ----

  /** Neighbours multiplied in pairs; an odd last entry is kept. */
  function Pairs(s: seq<real>): (p: seq<real>)
    ensures |p| == (|s| + 1) / 2
    ensures forall k :: 0 <= k < |p| ==> p[k] == if 2 * k + 1 < |s| then s[2 * k] * s[2 * k + 1] else s[2 * k]
  {
    seq((|s| + 1) / 2, k requires 0 <= k < (|s| + 1) / 2 =>
      if 2 * k + 1 < |s| then s[2 * k] * s[2 * k + 1] else s[2 * k])
  }

  lemma {:induction false} PairsPrefix(s: seq<real>, k: nat)
    requires 2 * k <= |s|
    ensures Prod(Pairs(s)[..k]) == Prod(s[..2 * k])
  {
    hide Prod;
    var p := Pairs(s);
    if k == 0 {
      assert p[..0] == s[..0];
    } else {
      PairsPrefix(s, k - 1);
      var a, b := s[2 * k - 2], s[2 * k - 1];
      assert p[..k] == p[..k - 1] + [p[k - 1]];
      assert s[..2 * k - 1] == s[..2 * k - 2] + [a] && s[..2 * k] == s[..2 * k - 1] + [b];
      ProdSnoc(p[..k - 1], p[k - 1]);
      ProdSnoc(s[..2 * k - 2], a);
      ProdSnoc(s[..2 * k - 1], b);
      Regroup(Prod(s[..2 * k - 2]), a, b, p[k - 1]);
    }
  }

  lemma PairsProd(s: seq<real>)
    ensures Prod(Pairs(s)) == Prod(s)
  {
    hide Prod;
    var n, p := |s| / 2, Pairs(s);
    PairsPrefix(s, n);
    if |s| % 2 == 0 {
      assert p[..n] == p && s[..2 * n] == s;
    } else {
      assert p == p[..n] + [p[n]] && s == s[..2 * n] + [s[2 * n]];
      ProdSnoc(p[..n], p[n]);
      ProdSnoc(s[..2 * n], s[2 * n]);
    }
  }

  lemma PairsSuffix(s: seq<real>, k: nat)
    requires 2 * k <= |s|
    ensures Pairs(s)[k..] == Pairs(s[2 * k..])
  {
    var p, t := Pairs(s)[k..], s[2 * k..];
    forall j | 0 <= j < |p| ensures p[j] == Pairs(t)[j] {
      assert p[j] == Pairs(s)[k + j];
      assert t[2 * j] == s[2 * (k + j)];
      if 2 * j + 1 < |t| { assert t[2 * j + 1] == s[2 * (k + j) + 1]; }
    }
  }

  /** The products of all-but-one pair give those of all-but-one entry. */
  lemma PairOthers(s: seq<real>, k: nat)
    requires 2 * k + 1 < |s|
    ensures Others(s, 2 * k) == s[2 * k + 1] * Others(Pairs(s), k)
    ensures Others(s, 2 * k + 1) == s[2 * k] * Others(Pairs(s), k)
  {
    hide Prod, Others;
    var p, a, b := Pairs(s), s[2 * k], s[2 * k + 1];
    var lower, upper := s[..2 * k], s[2 * k + 2..];
    PairsPrefix(s, k);
    PairsSuffix(s, k + 1);
    PairsProd(upper);
    OthersIs(p, k);
    OthersIs(s, 2 * k);
    OthersIs(s, 2 * k + 1);
    assert s[2 * k + 1..] == [b] + upper && s[..2 * k + 1] == lower + [a];
    ProdCons(b, upper);
    ProdSnoc(lower, a);
    MiddleOut(Prod(lower), b, Prod(upper), Prod([b] + upper), Others(s, 2 * k), Others(p, k));
    FrontOut(Prod(lower), a, Prod(upper), Prod(lower + [a]), Others(s, 2 * k + 1), Others(p, k));
  }

  lemma FrontOut(a: real, b: real, c: real, ab: real, abc: real, ac: real)
    requires ab == a * b && abc == ab * c && ac == a * c
    ensures abc == b * ac
  {}

  lemma OddOthers(s: seq<real>)
    requires |s| % 2 == 1
    ensures Others(s, |s| - 1) == Others(Pairs(s), |s| / 2)
  {
    hide Prod, Others;
    var n, p := |s| / 2, Pairs(s);
    PairsPrefix(s, n);
    assert s == s[..2 * n] + [s[2 * n]] && p == p[..n] + [p[n]];
    LastOthers(s[..2 * n], s[2 * n]);
    LastOthers(p[..n], p[n]);
  }

  lemma PairOfTwo(a: real, b: real)
    ensures Others([a, b], 0) == b && Others([a, b], 1) == a
  {
    hide Prod;
    var s := [a, b];
    assert s[..0] == [] && s[1..] == [b] && s[..1] == [a] && s[2..] == [];
    EmptyProduct();
    ProdOne(a);
    ProdOne(b);
    TimesOne(a, Prod([]));
    TimesOne(b, Prod([]));
  }

  lemma OnlyOne(a: real)
    ensures Others([a], 0) == 1.0
  {
    assert [a][..0] == [] && [a][1..] == [];
  }

  function Times(x: real, y: real): real { x * y }

  lemma PairTimes(s: seq<real>, k: nat)
    requires 2 * k + 1 < |s|
    ensures Others(s, 2 * k) == Times(s[2 * k + 1], Others(Pairs(s), k))
    ensures Others(s, 2 * k + 1) == Times(s[2 * k], Others(Pairs(s), k))
  {
    hide Others;
    PairOthers(s, k);
  }

  // The way back up: both entries of a pair swap and take the product of all other pairs.
  method Shuffle(coeffs: array<real>, length: nat, prod: array<real>)
    requires 2 < length <= coeffs.Length && prod != coeffs && prod.Length == (length + 1) / 2
    requires forall k :: 0 <= k < prod.Length ==> prod[k] == Others(Pairs(coeffs[..length]), k)
    modifies coeffs
    ensures forall i :: 0 <= i < length ==> coeffs[i] == Others(old(coeffs[..length]), i)
    ensures coeffs[length..] == old(coeffs[length..])
  {
    hide Prod, Others, Times;
    ghost var s := coeffs[..length];
    var pairs := length / 2;
    for idx := 0 to pairs
      invariant forall i :: 0 <= i < coeffs.Length ==>
        coeffs[i] == if i < 2 * idx then Others(s, i) else old(coeffs[i])
    {
      PairTimes(s, idx);
      var tmp := Times(coeffs[2 * idx + 1], prod[idx]);
      coeffs[2 * idx + 1] := Times(coeffs[2 * idx], prod[idx]);
      coeffs[2 * idx] := tmp;
    }
    if length % 2 != 0 {
      OddOthers(s);
      coeffs[length - 1] := prod[pairs];
    }
  }

  method MultiplyPairs(coeffs: array<real>, length: nat) returns (prod: array<real>)
    requires 1 <= length <= coeffs.Length
    ensures fresh(prod) && prod.Length == (length + 1) / 2
    ensures prod[..] == Pairs(coeffs[..length])
  {
    prod := new real[(length + 1) / 2];
    for idx := 0 to length / 2
      invariant forall k :: 0 <= k < idx ==> prod[k] == Pairs(coeffs[..length])[k]
    {
      prod[idx] := coeffs[2 * idx] * coeffs[2 * idx + 1];
    }
    if length % 2 != 0 {
      prod[length / 2] := coeffs[length - 1];
    }
  }

  /** multiplyAndShuffle: every one of the first `length` entries becomes the product of all the
      others, whatever the parity of the length and also if entries are zero. */
  method MultiplyAndShuffle(coeffs: array<real>, length: nat)
    requires 1 <= length <= coeffs.Length
    modifies coeffs
    ensures forall i :: 0 <= i < length ==> coeffs[i] == Others(old(coeffs[..length]), i)
    ensures coeffs[length..] == old(coeffs[length..])
    decreases length
  {
    hide Prod, Others;
    ghost var s := coeffs[..length];
    if length > 2 {
      var prod := MultiplyPairs(coeffs, length);
      assert prod[..(length + 1) / 2] == Pairs(s);
      MultiplyAndShuffle(prod, (length + 1) / 2);
      Shuffle(coeffs, length, prod);
    } else if length == 2 {
      assert s == [coeffs[0], coeffs[1]];
      PairOfTwo(coeffs[0], coeffs[1]);
      coeffs[0], coeffs[1] := coeffs[1], coeffs[0];
    } else {
      assert s == [coeffs[0]];
      OnlyOne(coeffs[0]);
      coeffs[0] := 1.0;
    }
  }

  // ---- the calculator ----

  /** offset: the sample positions, centred around zero, in either order. */
  function Offset(N: nat, reverseCoeffs: bool, idx: nat): real {
    if reverseCoeffs then 0.5 * (N as real) - idx as real else idx as real - 0.5 * (N as real)
  }

  function Nodes(N: nat, reverseCoeffs: bool): (x: seq<real>)
    ensures |x| == N + 1 && forall i :: 0 <= i <= N ==> x[i] == Offset(N, reverseCoeffs, i)
    ensures Distinct(x)
  {
    var x := seq(N + 1, idx requires 0 <= idx => Offset(N, reverseCoeffs, idx));
    assert Distinct(x) by {
      forall i, j | 0 <= i < j < |x| ensures x[i] != x[j] {
        assert x[i] == Offset(N, reverseCoeffs, i) && x[j] == Offset(N, reverseCoeffs, j);
        assert i as real < j as real;
      }
    }
    x
  }

  /** The positions are one apart and centred around zero; they ascend from -N / 2, or descend from
      N / 2 in reverse order. */
  lemma NodesCentred(N: nat, reverse: bool, i: nat)
    requires i <= N
    ensures Nodes(N, false)[0] == -(N as real) / 2.0
    ensures i < N ==> Nodes(N, false)[i + 1] == Nodes(N, false)[i] + 1.0
    ensures Nodes(N, reverse)[i] + Nodes(N, reverse)[N - i] == 0.0
    ensures Nodes(N, true)[i] == Nodes(N, false)[N - i]
  {}

  lemma NodeAt(N: nat, reverse: bool, k: nat)
    requires k <= N
    ensures Nodes(N, reverse)[k] == if reverse then N as real / 2.0 - k as real else k as real - N as real / 2.0
  {}

  /** internalStorageSize */
  function InternalStorageSize(length: nat): (r: nat)
    ensures r >= length
  {
    if length <= 2 then length else length + InternalStorageSize(length / 2)
  }

  // The product of the first k entries without the i-th.
  ghost function Partial(d: seq<real>, i: nat, k: nat): real
    requires i < |d| && k <= |d|
  {
    if k <= i then Prod(d[..k]) else Prod(d[..i]) * Prod(d[i + 1..k])
  }

  lemma PartialEnds(d: seq<real>, i: nat)
    requires i < |d|
    ensures Partial(d, i, 0) == 1.0
    ensures Partial(d, i, |d|) == Others(d, i)
  {
    hide Prod;
    assert d[..0] == [] && d[i + 1..|d|] == d[i + 1..];
    EmptyProduct();
  }

  lemma PartialStep(d: seq<real>, i: nat, k: nat)
    requires i < |d| && k < |d|
    ensures Partial(d, i, k + 1) == if k == i then Partial(d, i, k) else Partial(d, i, k) * d[k]
  {
    hide Prod;
    if k < i {
      assert d[..k + 1] == d[..k] + [d[k]];
      ProdSnoc(d[..k], d[k]);
    } else if k == i {
      assert d[i + 1..i + 1] == [];
      EmptyProduct();
      TimesOne(Prod(d[..i]), Prod([]));
    } else {
      assert d[i + 1..k + 1] == d[i + 1..k] + [d[k]];
      ProdSnoc(d[i + 1..k], d[k]);
      Regroup(Prod(d[..i]), Prod(d[i + 1..k]), d[k], Prod(d[i + 1..k + 1]));
    }
  }

  /** scaleFactor: one over the product of the distances to all other sample positions. */
  method ScaleFactor(N: nat, reverseCoeffs: bool, idx: nat) returns (scale: real)
    requires idx <= N
    ensures scale == Scale(Nodes(N, reverseCoeffs), idx)
  {
    hide Prod, Others, Partial, Offset;
    ghost var x := Nodes(N, reverseCoeffs);
    ghost var d := Diff(x, x[idx]);
    var currOffset := Offset(N, reverseCoeffs, idx);
    var acc := 1.0;
    PartialEnds(d, idx);
    for runIdx := 0 to N + 1
      invariant acc == Partial(d, idx, runIdx)
    {
      PartialStep(d, idx, runIdx);
      if runIdx != idx {
        acc := acc * (Offset(N, reverseCoeffs, runIdx) - currOffset);
      }
    }
    DenominatorNonZero(x, idx);
    scale := 1.0 / acc;
  }

  lemma WeightTimes(x: seq<real>, mu: real, i: nat)
    requires Distinct(x) && i < |x|
    ensures Weight(x, mu, i) == Times(Scale(x, i), Others(Diff(x, mu), i))
  {
    hide Scale, Others;
  }

  // At the position of index k, k has all the weight.
  lemma PicksSample(x: seq<real>, k: nat)
    requires Distinct(x) && k < |x|
    ensures forall i :: 0 <= i < |x| ==> Weight(x, x[k], i) == if i == k then 1.0 else 0.0
  {
    hide Weight;
    forall i | 0 <= i < |x| ensures Weight(x, x[k], i) == if i == k then 1.0 else 0.0 {
      Kronecker(x, i, k);
    }
  }

  class LagrangeCoefficientCalculator {
    const N: nat
    const reverseCoeffs: bool
    const cOffsets: seq<real>
    const cScaleFactors: seq<real>
    const mInternalCoeffs: array<real>

    ghost predicate Valid() {
      && cOffsets == Nodes(N, reverseCoeffs)
      && |cScaleFactors| == N + 1
      && (forall i :: 0 <= i <= N ==> cScaleFactors[i] == Scale(Nodes(N, reverseCoeffs), i))
      && mInternalCoeffs.Length == InternalStorageSize(N + 1)
    }

    constructor (order: nat, reverse: bool)
      ensures Valid() && fresh(mInternalCoeffs) && N == order && reverseCoeffs == reverse
    {
      hide Scale;
      N, reverseCoeffs := order, reverse;
      cOffsets := Nodes(order, reverse);
      var scaleFactors: seq<real> := [];
      for idx := 0 to order + 1
        invariant |scaleFactors| == idx
        invariant forall i :: 0 <= i < idx ==> scaleFactors[i] == Scale(Nodes(order, reverse), i)
      {
        var scale := ScaleFactor(order, reverse, idx);
        scaleFactors := scaleFactors + [scale];
      }
      cScaleFactors := scaleFactors;
      mInternalCoeffs := new real[InternalStorageSize(order + 1)];
    }

    /** calculateCoefficients: the Lagrange weights at mu, by node. */
    method CalculateCoefficients(mu: real, result: array<real>)
      requires Valid() && result.Length >= N + 1 && result != mInternalCoeffs
      modifies mInternalCoeffs, result
      ensures forall i :: 0 <= i <= N ==> result[i] == Weight(Nodes(N, reverseCoeffs), mu, i)
      ensures result[N + 1..] == old(result[N + 1..])
      ensures forall k :: 0 <= k <= N && mu == Nodes(N, reverseCoeffs)[k] ==>
        result[k] == 1.0 && forall i :: 0 <= i <= N && i != k ==> result[i] == 0.0
      ensures mu == -(N as real) / 2.0 ==> result[if reverseCoeffs then N else 0] == 1.0
    {
      hide Others, Scale, Offset, Weight, Times;
      ghost var x := Nodes(N, reverseCoeffs);
      for i := 0 to N + 1
        invariant forall j :: 0 <= j < i ==> mInternalCoeffs[j] == cOffsets[j] - mu
        invariant result[..] == old(result[..])
      {
        mInternalCoeffs[i] := cOffsets[i] - mu;
      }
      assert mInternalCoeffs[..N + 1] == Diff(x, mu);
      MultiplyAndShuffle(mInternalCoeffs, N + 1);
      for i := 0 to N + 1
        invariant forall j :: 0 <= j <= N ==> mInternalCoeffs[j] == Others(Diff(x, mu), j)
        invariant forall j :: 0 <= j < i ==> result[j] == Weight(x, mu, j)
        invariant result[N + 1..] == old(result[N + 1..])
      {
        WeightTimes(x, mu, i);
        result[i] := Times(cScaleFactors[i], mInternalCoeffs[i]);
      }
      forall k | 0 <= k <= N && mu == x[k]
        ensures result[k] == 1.0 && forall i :: 0 <= i <= N && i != k ==> result[i] == 0.0
      {
        PicksSample(x, k);
      }
      NodeAt(N, reverseCoeffs, if reverseCoeffs then N else 0);
    }

    /** What the weights are for: with the samples of any polynomial of degree at most N at the
        sample positions, the weighted sum is the polynomial at mu. The weights add up to one, and
        at a sample position they pick that sample. */
    lemma Interpolates(mu: real, result: seq<real>, p: seq<real>)
      requires |result| == N + 1 && |p| <= N + 1
      requires forall i :: 0 <= i <= N ==> result[i] == Weight(Nodes(N, reverseCoeffs), mu, i)
      ensures Sum(N + 1, i => if 0 <= i <= N then result[i] * Eval(p, Offset(N, reverseCoeffs, i)) else 0.0) ==
        Eval(p, mu)
      ensures Sum(N + 1, i => if 0 <= i <= N then result[i] else 0.0) == 1.0
      ensures forall i, k :: 0 <= i <= N && 0 <= k <= N && mu == Offset(N, reverseCoeffs, k) ==>
        result[i] == if i == k then 1.0 else 0.0
    {
      hide Weight, Eval, Offset;
      var x := Nodes(N, reverseCoeffs);
      Reproduces(x, mu, p);
      Unity(x, mu);
      SumCongr(N + 1, i => if 0 <= i <= N then result[i] * Eval(p, Offset(N, reverseCoeffs, i)) else 0.0,
               InterpolationTerm(x, mu, p));
      SumCongr(N + 1, i => if 0 <= i <= N then result[i] else 0.0, WeightTerm(x, mu));
      forall i, k | 0 <= i <= N && 0 <= k <= N && mu == Offset(N, reverseCoeffs, k)
        ensures result[i] == if i == k then 1.0 else 0.0
      {
        assert x[k] == mu;
        Kronecker(x, i, k);
      }
    }
  }
}
