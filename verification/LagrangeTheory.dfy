/**
 Lagrange interpolation over any distinct nodes: the weights as the calculator forms them, a
 product of node distances times a constant scale factor, reproduce every polynomial.
 */
module LagrangeTheory {
  import opened RealSums

  function Prod(s: seq<real>): real {
    if s == [] then 1.0 else Prod(s[..|s| - 1]) * s[|s| - 1]
  }

  /** The product of all entries but the i-th. */
  function Others(s: seq<real>, i: nat): real
    requires i < |s|
  {
    Prod(s[..i]) * Prod(s[i + 1..])
  }

  lemma ProdSnoc(s: seq<real>, c: real)
    ensures Prod(s + [c]) == Prod(s) * c
  {
    assert (s + [c])[..|s + [c]| - 1] == s;
  }

  lemma {:induction false} ProdAppend(s: seq<real>, t: seq<real>)
    ensures Prod(s + t) == Prod(s) * Prod(t)
  {
    if t == [] {
      assert s + t == s;
    } else {
      var init, c := t[..|t| - 1], t[|t| - 1];
      ProdAppend(s, init);
      assert s + t == (s + init) + [c];
      ProdSnoc(s + init, c);
      Regroup(Prod(s), Prod(init), c, Prod(t));
    }
  }

  lemma Regroup(a: real, b: real, c: real, bc: real)
    requires bc == b * c
    ensures (a * b) * c == a * bc
  {}

  lemma EmptyProduct()
    ensures Prod([]) == 1.0
  {}

  lemma ProdOne(c: real)
    ensures Prod([c]) == c
  {
    EmptyProduct();
    ProdSnoc([], c);
    assert [] + [c] == [c];
  }

  /** The whole product is the i-th entry times the others. */
  lemma ProdOthers(s: seq<real>, i: nat)
    requires i < |s|
    ensures Prod(s) == s[i] * Others(s, i)
  {
    hide Prod, Others;
    var lower, upper := s[..i], s[i + 1..];
    SplitAt(s, i);
    ProdAppend(lower, [s[i]] + upper);
    ProdCons(s[i], upper);
    OthersIs(s, i);
    MiddleOut(Prod(lower), s[i], Prod(upper), Prod([s[i]] + upper), Prod(s), Others(s, i));
  }

  lemma OthersIs(s: seq<real>, i: nat)
    requires i < |s|
    ensures Others(s, i) == Prod(s[..i]) * Prod(s[i + 1..])
  {}

  lemma SplitAt(s: seq<real>, i: nat)
    requires i < |s|
    ensures s == s[..i] + ([s[i]] + s[i + 1..])
  {}

  lemma ProdCons(c: real, t: seq<real>)
    ensures Prod([c] + t) == c * Prod(t)
  {
    hide Prod;
    ProdOne(c);
    ProdAppend([c], t);
  }

  lemma MiddleOut(a: real, b: real, c: real, bc: real, abc: real, ac: real)
    requires bc == b * c && abc == a * bc && ac == a * c
    ensures abc == b * ac
  {}

  lemma OthersSnoc(s: seq<real>, c: real, i: nat)
    requires i < |s|
    ensures Others(s + [c], i) == Others(s, i) * c
  {
    hide Prod;
    var t := s + [c];
    assert t[..i] == s[..i] && t[i + 1..] == s[i + 1..] + [c];
    ProdSnoc(s[i + 1..], c);
    Regroup(Prod(s[..i]), Prod(s[i + 1..]), c, Prod(t[i + 1..]));
  }

  lemma LastOthers(s: seq<real>, c: real)
    ensures Others(s + [c], |s|) == Prod(s)
  {
    hide Prod;
    assert (s + [c])[..|s|] == s && (s + [c])[|s| + 1..] == [];
    EmptyProduct();
    TimesOne(Prod(s), Prod([]));
  }

  lemma TimesOne(a: real, one: real)
    requires one == 1.0
    ensures a * one == a
  {}

  lemma {:induction false} ProdNonZero(s: seq<real>)
    requires forall i :: 0 <= i < |s| ==> s[i] != 0.0
    ensures Prod(s) != 0.0
  {
    if s != [] {
      ProdNonZero(s[..|s| - 1]);
      NonZeroProduct(Prod(s[..|s| - 1]), s[|s| - 1]);
    }
  }

  lemma NonZeroProduct(a: real, b: real)
    requires a != 0.0 && b != 0.0
    ensures a * b != 0.0
  {}

  lemma ProdZero(s: seq<real>, i: nat)
    requires i < |s| && s[i] == 0.0
    ensures Prod(s) == 0.0
  {
    ProdOthers(s, i);
  }

  // ---- weights ----

  ghost predicate Distinct(x: seq<real>) {
    forall i, j :: 0 <= i < j < |x| ==> x[i] != x[j]
  }

  /** The distances of the nodes from a point. */
  function Diff(x: seq<real>, mu: real): (d: seq<real>)
    ensures |d| == |x| && forall j :: 0 <= j < |x| ==> d[j] == x[j] - mu
  {
    seq(|x|, j requires 0 <= j < |x| => x[j] - mu)
  }

  /** What a scale factor divides by. */
  function Denominator(x: seq<real>, i: nat): real
    requires i < |x|
  {
    Others(Diff(x, x[i]), i)
  }

  lemma DenominatorNonZero(x: seq<real>, i: nat)
    requires Distinct(x) && i < |x|
    ensures Denominator(x, i) != 0.0
  {
    var d := Diff(x, x[i]);
    forall j | 0 <= j < i ensures d[..i][j] != 0.0 { assert x[j] != x[i]; }
    ProdNonZero(d[..i]);
    var e := d[i + 1..];
    forall j | 0 <= j < |e| ensures e[j] != 0.0 { assert x[i] != x[i + 1 + j]; }
    ProdNonZero(d[i + 1..]);
    NonZeroProduct(Prod(d[..i]), Prod(d[i + 1..]));
  }

  function Scale(x: seq<real>, i: nat): real
    requires Distinct(x) && i < |x|
  {
    DenominatorNonZero(x, i);
    1.0 / Denominator(x, i)
  }

  /** The weight of node i at the point mu. */
  function Weight(x: seq<real>, mu: real, i: nat): real
    requires Distinct(x) && i < |x|
  {
    Scale(x, i) * Others(Diff(x, mu), i)
  }

  /** A weight is 1 at its own node and 0 at all others. */
  lemma Kronecker(x: seq<real>, i: nat, k: nat)
    requires Distinct(x) && i < |x| && k < |x|
    ensures Weight(x, x[k], i) == if i == k then 1.0 else 0.0
  {
    hide Others, Diff;
    if i == k {
      DenominatorNonZero(x, i);
      Reciprocal(Denominator(x, i));
    } else {
      OthersZero(Diff(x, x[k]), i, k);
    }
  }

  lemma OthersZero(d: seq<real>, i: nat, k: nat)
    requires i < |d| && k < |d| && i != k && d[k] == 0.0
    ensures Others(d, i) == 0.0
  {
    hide Prod;
    if k < i { ProdZero(d[..i], k); } else { ProdZero(d[i + 1..], k - i - 1); }
  }

  lemma Reciprocal(c: real)
    requires c != 0.0
    ensures (1.0 / c) * c == 1.0
  {}

  // ---- the step from a set of nodes to one node more ----

  lemma DistinctStep(y: seq<real>, a: real, i: nat)
    requires Distinct(y + [a]) && i < |y|
    ensures Distinct(y) && (y + [a])[i] == y[i] && a != y[i]
  {
    var x := y + [a];
    assert x[i] != x[|y|];
    forall j, k | 0 <= j < k < |y| ensures y[j] != y[k] { assert x[j] != x[k]; }
  }

  lemma DiffSnoc(y: seq<real>, a: real, mu: real)
    ensures Diff(y + [a], mu) == Diff(y, mu) + [a - mu]
  {}

  lemma WeightStep(y: seq<real>, a: real, mu: real, i: nat)
    requires Distinct(y + [a]) && i < |y|
    ensures Distinct(y) && a != y[i]
    ensures Weight(y + [a], mu, i) * (a - y[i]) == Weight(y, mu, i) * (a - mu)
  {
    hide Others;
    var x := y + [a];
    DistinctStep(y, a, i);
    DiffSnoc(y, a, mu);
    DiffSnoc(y, a, y[i]);
    OthersSnoc(Diff(y, mu), a - mu, i);
    OthersSnoc(Diff(y, y[i]), a - y[i], i);
    DenominatorNonZero(x, i);
    DenominatorNonZero(y, i);
    StepAlgebra(Denominator(y, i), a - y[i], Others(Diff(y, mu), i), a - mu, Denominator(x, i), Others(Diff(x, mu), i));
  }

  lemma StepAlgebra(c: real, e: real, o: real, m: real, ce: real, om: real)
    requires c != 0.0 && e != 0.0 && ce == c * e && ce != 0.0 && om == o * m
    ensures ((1.0 / ce) * om) * e == ((1.0 / c) * o) * m
  {
    var r, q := 1.0 / c, 1.0 / ce;
    assert r == q * e by { assert (q * e) * c == 1.0 by { assert q * ce == 1.0; } QuotientUnique(q * e, c); }
    assert (q * (o * m)) * e == ((q * e) * o) * m;
  }

  lemma QuotientUnique(r: real, c: real)
    requires c != 0.0 && r * c == 1.0
    ensures r == 1.0 / c
  {}

  lemma LastWeight(y: seq<real>, a: real, mu: real)
    requires Distinct(y + [a])
    ensures Prod(Diff(y, a)) != 0.0
    ensures Weight(y + [a], mu, |y|) == (1.0 / Prod(Diff(y, a))) * Prod(Diff(y, mu))
  {
    var x := y + [a];
    assert x[|y|] == a;
    DiffSnoc(y, a, mu);
    DiffSnoc(y, a, a);
    LastOthers(Diff(y, mu), a - mu);
    LastOthers(Diff(y, a), a - a);
    DenominatorNonZero(x, |y|);
  }

  // ---- partition of unity ----

  function WeightTerm(x: seq<real>, mu: real): int -> real
    requires Distinct(x)
  {
    i => if 0 <= i < |x| then Weight(x, mu, i) else 0.0
  }

  function Slope(y: seq<real>, a: real): int -> real
    requires Distinct(y + [a]) && Distinct(y)
  {
    i => if 0 <= i < |y| && y[i] != a then Scale(y, i) / (a - y[i]) else 0.0
  }

  // What a new node adds to an old weight is a constant times the product of all distances.
  lemma WeightGrowth(y: seq<real>, a: real, mu: real, i: nat)
    requires Distinct(y + [a]) && Distinct(y) && i < |y|
    ensures WeightTerm(y + [a], mu)(i) == WeightTerm(y, mu)(i) + Prod(Diff(y, mu)) * Slope(y, a)(i)
  {
    hide Others, Scale, Prod;
    WeightStep(y, a, mu, i);
    ProdOthers(Diff(y, mu), i);
    GrowthAlgebra(Weight(y + [a], mu, i), Scale(y, i), Others(Diff(y, mu), i), a - y[i], y[i] - mu, Prod(Diff(y, mu)));
  }

  lemma GrowthAlgebra(w: real, s: real, o: real, e: real, d: real, p: real)
    requires e != 0.0 && w * e == (s * o) * (e + d) && p == d * o
    ensures w == s * o + p * (s / e)
  {
    var t := s / e;
    assert t * e == s;
    assert (s * o + p * t) * e == (s * o) * e + p * s by { assert (p * t) * e == p * (t * e); }
    assert p * s == (s * o) * d;
    CancelFactor(w, s * o + p * t, e);
  }

  lemma CancelFactor(u: real, v: real, e: real)
    requires e != 0.0 && u * e == v * e
    ensures u == v
  {}

  lemma UnityForm(y: seq<real>, a: real, mu: real)
    requires Distinct(y + [a]) && Distinct(y)
    requires Sum(|y|, WeightTerm(y, mu)) == 1.0
    ensures Prod(Diff(y, a)) != 0.0
    ensures Sum(|y| + 1, WeightTerm(y + [a], mu)) ==
            1.0 + Prod(Diff(y, mu)) * (Sum(|y|, Slope(y, a)) + 1.0 / Prod(Diff(y, a)))
  {
    hide Weight, Prod, Diff, Slope, WeightTerm, Sum;
    var n, W, P := |y|, WeightTerm(y + [a], mu), Prod(Diff(y, mu));
    LastWeight(y, a, mu);
    forall i | 0 <= i < n ensures W(i) == 1.0 * WeightTerm(y, mu)(i) + P * Slope(y, a)(i) {
      WeightGrowth(y, a, mu, i);
    }
    SumLinear(n, 1.0, WeightTerm(y, mu), P, Slope(y, a), W);
    LastWeightTerm(y + [a], mu);
    FormAlgebra(Sum(n + 1, W), Sum(n, W), P, Sum(n, Slope(y, a)), 1.0 / Prod(Diff(y, a)));
  }

  lemma LastWeightTerm(x: seq<real>, mu: real)
    requires Distinct(x) && x != []
    ensures var n := |x| - 1; Sum(|x|, WeightTerm(x, mu)) == Sum(n, WeightTerm(x, mu)) + Weight(x, mu, n)
  {
    hide Weight;
  }

  lemma FormAlgebra(total: real, s: real, p: real, u: real, v: real)
    requires total == s + v * p && s == 1.0 * 1.0 + p * u
    ensures total == 1.0 + p * (u + v)
  {}

  lemma UnityAtNode(x: seq<real>, k: nat)
    requires Distinct(x) && k < |x|
    ensures Sum(|x|, WeightTerm(x, x[k])) == 1.0
  {
    hide Weight;
    forall i | 0 <= i < |x| ensures WeightTerm(x, x[k])(i) == if i == k then 1.0 else 0.0 {
      Kronecker(x, i, k);
    }
    SumSingle(|x|, WeightTerm(x, x[k]), k);
  }

  /** The weights always add up to one. */
  lemma {:induction false} Unity(x: seq<real>, mu: real)
    requires Distinct(x) && x != []
    ensures Sum(|x|, WeightTerm(x, mu)) == 1.0
    decreases |x|
  {
    hide Weight, Prod, Diff, Slope, WeightTerm;
    var y, a := x[..|x| - 1], x[|x| - 1];
    assert x == y + [a];
    if y == [] {
      OneNode(x, mu);
    } else {
      DistinctStep(y, a, 0);
      Unity(y, mu);
      Unity(y, a);
      UnityForm(y, a, mu);
      UnityForm(y, a, a);
      UnityAtNode(x, |y|);
      UnityAlgebra(Prod(Diff(y, a)), Sum(|y|, Slope(y, a)) + 1.0 / Prod(Diff(y, a)), Prod(Diff(y, mu)));
    }
  }

  lemma UnityAlgebra(pa: real, d: real, p: real)
    requires pa != 0.0 && 1.0 == 1.0 + pa * d
    ensures 1.0 + p * d == 1.0
  {
    assert d == 0.0;
  }

  lemma OneNode(x: seq<real>, mu: real)
    requires Distinct(x) && |x| == 1
    ensures Sum(1, WeightTerm(x, mu)) == 1.0
  {
    hide Prod;
    var d, e := Diff(x, mu), Diff(x, x[0]);
    assert d[..0] == [] && d[1..] == [] && e[..0] == [] && e[1..] == [];
    EmptyProduct();
    assert Others(d, 0) == 1.0 && Others(e, 0) == 1.0;
    assert Weight(x, mu, 0) == 1.0;
    assert Sum(1, WeightTerm(x, mu)) == Sum(0, WeightTerm(x, mu)) + WeightTerm(x, mu)(0);
  }

  // ---- polynomials ----

  /** The polynomial with the given coefficients, constant first. */
  function Eval(p: seq<real>, t: real): real {
    if p == [] then 0.0 else p[0] + t * Eval(p[1..], t)
  }

  /** The quotient of p by t - a. */
  function Quotient(p: seq<real>, a: real): (q: seq<real>)
    ensures |q| == if |p| == 0 then 0 else |p| - 1
  {
    if |p| <= 1 then [] else [Eval(p[1..], a)] + Quotient(p[1..], a)
  }

  lemma ConstantPolynomial(p: seq<real>, a: real, t: real)
    requires |p| <= 1
    ensures Eval(p, t) == Eval(p, a) && Eval(Quotient(p, a), t) == 0.0
  {
    assert p == [] || p[1..] == [];
    assert Eval([], t) == 0.0 && Eval([], a) == 0.0;
  }

  /** Polynomial division: the remainder by t - a is the value at a. */
  lemma {:induction false} Division(p: seq<real>, a: real, t: real)
    ensures Eval(p, t) == Eval(p, a) + (t - a) * Eval(Quotient(p, a), t)
  {
    hide Eval;
    if |p| <= 1 {
      ConstantPolynomial(p, a, t);
    } else {
      var r, q := p[1..], Quotient(p, a);
      Division(r, a, t);
      assert q == [Eval(r, a)] + Quotient(r, a);
      EvalCons(Eval(r, a), Quotient(r, a), t);
      assert p == [p[0]] + r;
      EvalCons(p[0], r, t);
      EvalCons(p[0], r, a);
      DivisionAlgebra(p[0], t, a, Eval(r, t), Eval(r, a), Eval(Quotient(r, a), t), Eval(q, t), Eval(p, t), Eval(p, a));
    }
  }

  lemma EvalCons(c: real, r: seq<real>, t: real)
    ensures Eval([c] + r, t) == c + t * Eval(r, t)
  {
    assert ([c] + r)[1..] == r;
  }

  lemma DivisionAlgebra(c: real, t: real, a: real, rt: real, ra: real, qr: real, q: real, pt: real, pa: real)
    requires rt == ra + (t - a) * qr && q == ra + t * qr
    requires pt == c + t * rt && pa == c + a * ra
    ensures pt == pa + (t - a) * q
  {}

  function InterpolationTerm(x: seq<real>, mu: real, p: seq<real>): int -> real
    requires Distinct(x)
  {
    i => if 0 <= i < |x| then Weight(x, mu, i) * Eval(p, x[i]) else 0.0
  }

  lemma TermStep(y: seq<real>, a: real, mu: real, p: seq<real>, i: nat)
    requires Distinct(y + [a]) && Distinct(y) && i < |y|
    ensures InterpolationTerm(y + [a], mu, p)(i) ==
      Eval(p, a) * WeightTerm(y + [a], mu)(i) + (mu - a) * InterpolationTerm(y, mu, Quotient(p, a))(i)
  {
    hide Weight, Eval, Quotient;
    DistinctStep(y, a, i);
    WeightStep(y, a, mu, i);
    Division(p, a, y[i]);
    TermAlgebra(Weight(y + [a], mu, i), Weight(y, mu, i), a, y[i], mu, Eval(p, a), Eval(Quotient(p, a), y[i]),
                Eval(p, y[i]));
  }

  lemma TermAlgebra(w: real, v: real, a: real, xi: real, mu: real, fa: real, q: real, fx: real)
    requires w * (a - xi) == v * (a - mu) && fx == fa + (xi - a) * q
    ensures w * fx == fa * w + (mu - a) * (v * q)
  {
    assert w * ((xi - a) * q) == -((w * (a - xi)) * q);
    assert (v * (a - mu)) * q == -((mu - a) * (v * q));
  }

  /** Interpolation with n weights is exact for every polynomial with at most n coefficients. */
  lemma {:induction false} Reproduces(x: seq<real>, mu: real, p: seq<real>)
    requires Distinct(x) && |p| <= |x|
    ensures Sum(|x|, InterpolationTerm(x, mu, p)) == Eval(p, mu)
    decreases |x|
  {
    if x == [] {
      assert p == [];
    } else {
      ReproducesStep(x, mu, p);
    }
  }

  lemma {:induction false} ReproducesStep(x: seq<real>, mu: real, p: seq<real>)
    requires Distinct(x) && |p| <= |x| && x != []
    ensures Sum(|x|, InterpolationTerm(x, mu, p)) == Eval(p, mu)
    decreases |x|, 0
  {
    hide Weight, Eval, Quotient, WeightTerm, InterpolationTerm;
    var y, a := x[..|x| - 1], x[|x| - 1];
    var n, q := |y|, Quotient(p, a);
    assert x == y + [a];
    DistinctPrefix(y, a);
    Reproduces(y, mu, q);
    Unity(x, mu);
    var T, W, V := InterpolationTerm(x, mu, p), WeightTerm(x, mu), InterpolationTerm(y, mu, q);
    forall i | 0 <= i < n ensures T(i) == Eval(p, a) * W(i) + (mu - a) * V(i) {
      TermStep(y, a, mu, p, i);
    }
    SumLinear(n, Eval(p, a), W, mu - a, V, T);
    LastTerm(x, mu, p);
    Division(p, a, mu);
    CollectAlgebra(Eval(p, a), Sum(n, W), W(n));
  }

  lemma DistinctPrefix(y: seq<real>, a: real)
    requires Distinct(y + [a])
    ensures Distinct(y)
  {
    var x := y + [a];
    forall j, k | 0 <= j < k < |y| ensures y[j] != y[k] { assert x[j] != x[k]; }
  }

  lemma LastTerm(x: seq<real>, mu: real, p: seq<real>)
    requires Distinct(x) && x != []
    ensures var n := |x| - 1;
      && Sum(|x|, InterpolationTerm(x, mu, p)) ==
        Sum(n, InterpolationTerm(x, mu, p)) + Eval(p, x[n]) * WeightTerm(x, mu)(n)
      && Sum(|x|, WeightTerm(x, mu)) == Sum(n, WeightTerm(x, mu)) + WeightTerm(x, mu)(n)
  {
    hide Weight, Eval;
  }

  lemma CollectAlgebra(f: real, s: real, w: real)
    ensures f * s + f * w == f * (s + w)
  {}
}
