/** Finite sums of complex numbers. */
module ComplexSums {
  import opened Complex

  function Sum(n: nat, f: int -> Cx): Cx {
    if n == 0 then ZERO else Add(Sum(n - 1, f), f(n - 1))
  }

  lemma {:induction false} SumCongr(n: nat, f: int -> Cx, g: int -> Cx)
    requires forall i :: 0 <= i < n ==> f(i) == g(i)
    ensures Sum(n, f) == Sum(n, g)
  {
    hide Add;
    if n > 0 {
      SumCongr(n - 1, f, g);
    }
  }

  lemma {:induction false} SumZero(n: nat, f: int -> Cx)
    requires forall i :: 0 <= i < n ==> f(i) == ZERO
    ensures Sum(n, f) == ZERO
  {
    if n > 0 {
      SumZero(n - 1, f);
    }
  }

  lemma {:induction false} SumAdd(n: nat, f: int -> Cx, g: int -> Cx)
    ensures Sum(n, i => Add(f(i), g(i))) == Add(Sum(n, f), Sum(n, g))
  {
    if n > 0 {
      SumAdd(n - 1, f, g);
    }
  }

  lemma {:induction false} SumMul(n: nat, c: Cx, f: int -> Cx)
    ensures Sum(n, i => Mul(c, f(i))) == Mul(c, Sum(n, f))
    ensures Sum(n, i => Mul(f(i), c)) == Mul(Sum(n, f), c)
  {
    hide Add, Mul;
    if n == 0 {
      MulUnit(c);
    } else {
      SumMul(n - 1, c, f);
      Distribute(c, Sum(n - 1, f), f(n - 1));
    }
  }

  lemma SumScale(n: nat, c: real, f: int -> Cx)
    ensures Sum(n, i => Scale(c, f(i))) == Scale(c, Sum(n, f))
  {
    forall i ensures Scale(c, f(i)) == Mul(OfReal(c), f(i)) { ScaleLaws(c, f(i), ZERO); }
    SumCongr(n, i => Scale(c, f(i)), i => Mul(OfReal(c), f(i)));
    SumMul(n, OfReal(c), f);
    ScaleLaws(c, Sum(n, f), ZERO);
  }

  lemma {:induction false} SumConj(n: nat, f: int -> Cx)
    ensures Conj(Sum(n, f)) == Sum(n, i => Conj(f(i)))
  {
    hide Add, Conj;
    ConjZero();
    if n > 0 {
      SumConj(n - 1, f);
      ConjLaws(Sum(n - 1, f), f(n - 1));
    }
  }

  // The real part of a sum, and a sum of one constant.
  lemma {:induction false} SumConst(n: nat, c: Cx)
    ensures Sum(n, i => c) == Scale(n as real, c)
  {
    if n > 0 {
      SumConst(n - 1, c);
      assert (n as real) * c.r == ((n - 1) as real) * c.r + c.r;
      assert (n as real) * c.i == ((n - 1) as real) * c.i + c.i;
    }
  }

  // A sum whose terms all vanish but one.
  lemma {:induction false} SumSingle(n: nat, f: int -> Cx, k: int)
    requires 0 <= k < n
    requires forall i :: 0 <= i < n && i != k ==> f(i) == ZERO
    ensures Sum(n, f) == f(k)
  {
    if k == n - 1 {
      SumZero(n - 1, f);
    } else {
      SumSingle(n - 1, f, k);
    }
  }

  lemma {:induction false} SumSplit(a: nat, b: nat, f: int -> Cx)
    ensures Sum(a + b, f) == Add(Sum(a, f), Sum(b, i => f(a + i)))
  {
    hide Add;
    var g := i => f(a + i);
    SumCongr(b, i => f(a + i), g);
    if b == 0 {
      AddLaws(Sum(a, f), ZERO, ZERO);
    } else {
      SumSplit(a, b - 1, f);
      SumCongr(b - 1, i => f(a + i), g);
      AddLaws(Sum(a, f), Sum(b - 1, g), f(a + b - 1));
    }
  }

  lemma SumOne(f: int -> Cx)
    ensures Sum(1, f) == f(0)
  {
    assert Sum(0, f) == ZERO;
    AddLaws(ZERO, f(0), ZERO);
  }

  // A sum over one period does not depend on where the period starts.
  lemma SumShift(n: nat, f: int -> Cx)
    requires n > 0 && f(n) == f(0)
    ensures Sum(n, k => f(1 + k)) == Sum(n, f)
  {
    hide Add;
    var g := k => f(1 + k);
    SumSplit(1, n - 1, f);
    SumOne(f);
    SumCongr(n - 1, k => f(1 + k), g);
    SumCongr(n, k => f(1 + k), g);
    AddLaws(f(0), Sum(n - 1, g), ZERO);
    assert Sum(n, g) == Add(Sum(n - 1, g), g(n - 1));
  }

  lemma {:induction false} SumReverse(n: nat, f: int -> Cx)
    ensures Sum(n, k => f(n - 1 - k)) == Sum(n, f)
  {
    hide Add;
    if n == 0 {
    } else {
      var g := k => f(n - 1 - k);
      SumCongr(n, k => f(n - 1 - k), g);
      SumSplit(1, n - 1, g);
      SumOne(g);
      SumReverse(n - 1, f);
      SumCongr(n - 1, i => g(1 + i), k => f(n - 1 - 1 - k));
      AddLaws(f(n - 1), Sum(n - 1, f), ZERO);
    }
  }

  // Running backwards through one period.
  lemma SumMirror(n: nat, f: int -> Cx)
    requires n > 0 && f(n) == f(0)
    ensures Sum(n, k => f(n - k)) == Sum(n, f)
  {
    hide Add;
    var g := k => f(1 + k);
    SumShift(n, f);
    SumCongr(n, k => f(1 + k), g);
    SumReverse(n, g);
    SumCongr(n, k => g(n - 1 - k), k => f(n - k));
  }

  // Interchanging the two indices of a double sum.
  lemma {:induction false} SumSwap(n: nat, m: nat, f: (int, int) -> Cx)
    ensures Sum(n, i => Sum(m, j => f(i, j))) == Sum(m, j => Sum(n, i => f(i, j)))
  {
    hide Add;
    var rows := i => Sum(m, j => f(i, j));
    var cols := j => Sum(n, i => f(i, j));
    if n == 0 {
      SumZero(m, cols);
    } else {
      var cols' := j => Sum(n - 1, i => f(i, j));
      var last := j => f(n - 1, j);
      SumSwap(n - 1, m, f);
      SumAdd(m, cols', last);
      SumCongr(m, cols, j => Add(cols'(j), last(j)));
      SumCongr(n - 1, rows, i => Sum(m, j => f(i, j)));
      SumCongr(m, last, j => f(n - 1, j));
    }
  }

  // Every p-th value of f, starting from index q.
  function Row(f: int -> Cx, p: int, q: int): int -> Cx {
    j => f(q + p * j)
  }

  // Decimation: the indices below p * m are the numbers q + p * j with q < p and j < m.
  lemma {:induction false} SumDecimate(p: nat, m: nat, f: int -> Cx)
    ensures Sum(p * m, f) == Sum(p, q => Sum(m, Row(f, p, q)))
  {
    hide Add;
    if m == 0 {
      SumZero(p, q => Sum(m, Row(f, p, q)));
    } else {
      SumDecimate(p, m - 1, f);
      var n := p * (m - 1);
      assert p * m == n + p;
      SumSplit(n, p, f);
      SumCongr(p, i => f(n + i), q => Row(f, p, q)(m - 1));
      SumAdd(p, q => Sum(m - 1, Row(f, p, q)), q => Row(f, p, q)(m - 1));
      SumCongr(p, q => Sum(m, Row(f, p, q)), q => Add(Sum(m - 1, Row(f, p, q)), Row(f, p, q)(m - 1)));
      SumCongr(p, q => Add((q => Sum(m - 1, Row(f, p, q)))(q), (q => Row(f, p, q)(m - 1))(q)),
               q => Add(Sum(m - 1, Row(f, p, q)), Row(f, p, q)(m - 1)));
    }
  }
}

/** Finite sums of real numbers. */
module RealSums {

  function Sum(n: nat, f: int -> real): real {
    if n == 0 then 0.0 else Sum(n - 1, f) + f(n - 1)
  }

  lemma {:induction false} SumCongr(n: nat, f: int -> real, g: int -> real)
    requires forall i :: 0 <= i < n ==> f(i) == g(i)
    ensures Sum(n, f) == Sum(n, g)
  {
    if n > 0 {
      SumCongr(n - 1, f, g);
    }
  }

  lemma {:induction false} SumZero(n: nat, f: int -> real)
    requires forall i :: 0 <= i < n ==> f(i) == 0.0
    ensures Sum(n, f) == 0.0
  {
    if n > 0 {
      SumZero(n - 1, f);
    }
  }

  lemma {:induction false} SumAdd(n: nat, f: int -> real, g: int -> real)
    ensures Sum(n, i => f(i) + g(i)) == Sum(n, f) + Sum(n, g)
  {
    if n > 0 {
      SumAdd(n - 1, f, g);
    }
  }

  lemma {:induction false} SumMul(n: nat, c: real, f: int -> real)
    ensures Sum(n, i => c * f(i)) == c * Sum(n, f)
  {
    if n > 0 {
      SumMul(n - 1, c, f);
      assert c * Sum(n, f) == c * Sum(n - 1, f) + c * f(n - 1);
    }
  }

  lemma {:induction false} SumLinear(n: nat, c: real, f: int -> real, d: real, g: int -> real, h: int -> real)
    requires forall i :: 0 <= i < n ==> h(i) == c * f(i) + d * g(i)
    ensures Sum(n, h) == c * Sum(n, f) + d * Sum(n, g)
  {
    if n > 0 {
      SumLinear(n - 1, c, f, d, g, h);
      assert c * Sum(n, f) == c * Sum(n - 1, f) + c * f(n - 1);
      assert d * Sum(n, g) == d * Sum(n - 1, g) + d * g(n - 1);
    }
  }

  // Terms that vanish at the end do not count.
  lemma {:induction false} SumTail(n: nat, m: nat, f: int -> real)
    requires n <= m && forall i :: n <= i < m ==> f(i) == 0.0
    ensures Sum(m, f) == Sum(n, f)
  {
    if n < m { SumTail(n, m - 1, f); }
  }

  lemma {:induction false} SumSingle(n: nat, f: int -> real, k: int)
    requires 0 <= k < n
    requires forall i :: 0 <= i < n && i != k ==> f(i) == 0.0
    ensures Sum(n, f) == f(k)
  {
    if k == n - 1 {
      SumZero(n - 1, f);
    } else {
      SumSingle(n - 1, f, k);
    }
  }

  lemma {:induction false} SumSplit(a: nat, b: nat, f: int -> real)
    ensures Sum(a + b, f) == Sum(a, f) + Sum(b, i => f(a + i))
  {
    if b > 0 {
      SumSplit(a, b - 1, f);
    }
  }

  // The indices below p * m are the numbers q + p * j with q < p and j < m; here the
  // blocks of p consecutive indices are summed one after the other.
  lemma {:induction false} SumBlocks(p: nat, m: nat, f: int -> real)
    ensures Sum(p * m, f) == Sum(m, j => Sum(p, q => f(q + p * j)))
  {
    var blocks := j => Sum(p, q => f(q + p * j));
    if m > 0 {
      assert p * m == p * (m - 1) + p;
      SumSplit(p * (m - 1), p, f);
      SumBlocks(p, m - 1, f);
      SumCongr(p, i => f(p * (m - 1) + i), q => f(q + p * (m - 1)));
      SumCongr(m - 1, blocks, j => Sum(p, q => f(q + p * j)));
    }
  }
}
