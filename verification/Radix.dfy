/**
 The arithmetic of the hand-written radix 2, 3, 4 and 5 kernels of kiss_fft, row by row, and
 the proof that each row is the sum the generic butterfly evaluates.
 */
module Radix {
  import opened Complex
  import opened ComplexSums
  import opened Arithmetic
  import opened Dft
  import opened ButterflySpec

  /** Row q of kf_bfly2, from the first cell and the twiddled second one. */
  function Out2(s0: Cx, s1: Cx, q: int): Cx {
    if q == 0 then Add(s0, s1) else Sub(s0, s1)
  }

  /** Row q of kf_bfly3; e is the twiddle at fstride * m. */
  function Out3(s0: Cx, s1: Cx, s2: Cx, e: Cx, q: int): Cx {
    var sum := Add(s1, s2);
    var dif := Scale(e.i, Sub(s1, s2));
    var mid := Cx(s0.r - sum.r * 0.5, s0.i - sum.i * 0.5);
    if q == 0 then Add(s0, sum)
    else if q == 1 then Cx(mid.r - dif.i, mid.i + dif.r)
    else Cx(mid.r + dif.i, mid.i - dif.r)
  }

  /** Row q of kf_bfly4, for either direction of the transform. */
  function Out4(s0: Cx, s1: Cx, s2: Cx, s3: Cx, inverse: bool, q: int): Cx {
    var even, odd := Add(s0, s2), Add(s1, s3);
    var a, b := Sub(s0, s2), Sub(s1, s3);
    if q == 0 then Add(even, odd)
    else if q == 2 then Sub(even, odd)
    else if (q == 1) == inverse then Cx(a.r - b.i, a.i + b.r)
    else Cx(a.r + b.i, a.i - b.r)
  }

  /** Row q of kf_bfly5; ya and yb are the twiddles at fstride * m and at twice that index. */
  function Out5(s0: Cx, s1: Cx, s2: Cx, s3: Cx, s4: Cx, ya: Cx, yb: Cx, q: int): Cx {
    var s7, s10 := Add(s1, s4), Sub(s1, s4);
    var s8, s9 := Add(s2, s3), Sub(s2, s3);
    var s5 := Cx(s0.r + SMul(s7.r, ya.r) + SMul(s8.r, yb.r), s0.i + SMul(s7.i, ya.r) + SMul(s8.i, yb.r));
    var s6 := Cx(SMul(s10.i, ya.i) + SMul(s9.i, yb.i), -SMul(s10.r, ya.i) - SMul(s9.r, yb.i));
    var s11 := Cx(s0.r + SMul(s7.r, yb.r) + SMul(s8.r, ya.r), s0.i + SMul(s7.i, yb.r) + SMul(s8.i, ya.r));
    var s12 := Cx(-SMul(s10.i, yb.i) + SMul(s9.i, ya.i), SMul(s10.r, yb.i) - SMul(s9.r, ya.i));
    if q == 0 then Cx(s0.r + (s7.r + s8.r), s0.i + (s7.i + s8.i))
    else if q == 1 then Sub(s5, s6)
    else if q == 2 then Add(s11, s12)
    else if q == 3 then Sub(s11, s12)
    else Add(s5, s6)
  }

  // The kernels as plain complex arithmetic.

  lemma Out2Sum(s0: Cx, s1: Cx)
    ensures Out2(s0, s1, 0) == Add(s0, Mul(s1, ONE))
    ensures Out2(s0, s1, 1) == Add(s0, Mul(s1, Neg(ONE)))
  {}

  lemma Out3Sum(s0: Cx, s1: Cx, s2: Cx, e: Cx, q: int)
    requires e.r == -0.5
    ensures Out3(s0, s1, s2, e, 0) == Add(Add(s0, s1), s2)
    ensures Out3(s0, s1, s2, e, 1) == Add(Add(s0, Mul(s1, e)), Mul(s2, Conj(e)))
    ensures Out3(s0, s1, s2, e, 2) == Add(Add(s0, Mul(s1, Conj(e))), Mul(s2, e))
  {}

  // Quarter turn of an inverse or a forward table.
  function Quarter(inverse: bool): Cx { if inverse then I else MINUS_I }

  lemma Out4Sum(s0: Cx, s1: Cx, s2: Cx, s3: Cx, inverse: bool)
    ensures Out4(s0, s1, s2, s3, inverse, 0) == Add(Add(Add(s0, s1), s2), s3)
    ensures Out4(s0, s1, s2, s3, inverse, 2) == Add(Add(Add(s0, Neg(s1)), s2), Neg(s3))
    ensures Out4(s0, s1, s2, s3, inverse, 1) ==
            Add(Add(Add(s0, Mul(s1, Quarter(inverse))), Neg(s2)), Mul(s3, Neg(Quarter(inverse))))
    ensures Out4(s0, s1, s2, s3, inverse, 3) ==
            Add(Add(Add(s0, Mul(s1, Neg(Quarter(inverse)))), Neg(s2)), Mul(s3, Quarter(inverse)))
  {}

  lemma Out5Sum0(s0: Cx, s1: Cx, s2: Cx, s3: Cx, s4: Cx, ya: Cx, yb: Cx)
    ensures Out5(s0, s1, s2, s3, s4, ya, yb, 0) == Add(Add(Add(Add(s0, s1), s2), s3), s4)
  {}

  // The products of a pair of rows with a root and its conjugate.
  lemma PairProducts(s: Cx, t: Cx, y: Cx)
    ensures SMul(s.r + t.r, y.r) == SMul(s.r, y.r) + SMul(t.r, y.r)
      && SMul(s.i + t.i, y.r) == SMul(s.i, y.r) + SMul(t.i, y.r)
    ensures SMul(s.r - t.r, y.i) == SMul(s.r, y.i) - SMul(t.r, y.i)
      && SMul(s.i - t.i, y.i) == SMul(s.i, y.i) - SMul(t.i, y.i)
    ensures Mul(s, y) == Cx(SMul(s.r, y.r) - SMul(s.i, y.i), SMul(s.r, y.i) + SMul(s.i, y.r))
    ensures Mul(t, y) == Cx(SMul(t.r, y.r) - SMul(t.i, y.i), SMul(t.r, y.i) + SMul(t.i, y.r))
    ensures Mul(s, Conj(y)) == Cx(SMul(s.r, y.r) + SMul(s.i, y.i), SMul(s.i, y.r) - SMul(s.r, y.i))
    ensures Mul(t, Conj(y)) == Cx(SMul(t.r, y.r) + SMul(t.i, y.i), SMul(t.i, y.r) - SMul(t.r, y.i))
  {}

  lemma Out5Sums(s0: Cx, s1: Cx, s2: Cx, s3: Cx, s4: Cx, ya: Cx, yb: Cx)
    ensures Out5(s0, s1, s2, s3, s4, ya, yb, 1) ==
            Add(Add(Add(Add(s0, Mul(s1, ya)), Mul(s2, yb)), Mul(s3, Conj(yb))), Mul(s4, Conj(ya)))
    ensures Out5(s0, s1, s2, s3, s4, ya, yb, 2) ==
            Add(Add(Add(Add(s0, Mul(s1, yb)), Mul(s2, Conj(ya))), Mul(s3, ya)), Mul(s4, Conj(yb)))
    ensures Out5(s0, s1, s2, s3, s4, ya, yb, 3) ==
            Add(Add(Add(Add(s0, Mul(s1, Conj(yb))), Mul(s2, ya)), Mul(s3, Conj(ya))), Mul(s4, yb))
    ensures Out5(s0, s1, s2, s3, s4, ya, yb, 4) ==
            Add(Add(Add(Add(s0, Mul(s1, Conj(ya))), Mul(s2, Conj(yb))), Mul(s3, yb)), Mul(s4, ya))
  {
    hide SMul, Mul, Conj;
    PairProducts(s1, s4, ya);
    PairProducts(s1, s4, yb);
    PairProducts(s2, s3, ya);
    PairProducts(s2, s3, yb);
  }

  // The p-th roots of unity the kernels are built on.

  lemma SquareRoot(tw: seq<Cx>, inverse: bool, m: nat, ts: nat)
    requires |tw| > 0 && Table(tw, inverse) && 2 * (m * ts) == |tw|
    ensures Root(tw, m, ts, 1) == Neg(ONE)
  {
    hide Mul, Table, Tw, Root;
    var e := Root(tw, m, ts, 1);
    RootPrimitive(tw, inverse, m, ts, 2);
    RootGroup(tw, inverse, m, ts, 2, 1, 1);
    RootGroup(tw, inverse, m, ts, 2, 0, 0);
    Distribute(e, ONE, e);
    MulUnit(e);
    FixedByNonUnit(Add(ONE, e), e);
  }

  lemma CubeRoot(tw: seq<Cx>, inverse: bool, m: nat, ts: nat)
    requires |tw| > 0 && Table(tw, inverse) && 3 * (m * ts) == |tw|
    ensures Root(tw, m, ts, 1).r == -0.5
    ensures Root(tw, m, ts, 2) == Conj(Root(tw, m, ts, 1))
    ensures Root(tw, m, ts, 4) == Root(tw, m, ts, 1)
  {
    hide Mul, Table, Tw, Root;
    var e, e2 := Root(tw, m, ts, 1), Root(tw, m, ts, 2);
    RootPrimitive(tw, inverse, m, ts, 3);
    RootGroup(tw, inverse, m, ts, 3, 1, 1);
    RootGroup(tw, inverse, m, ts, 3, -1, 0);
    RootGroup(tw, inverse, m, ts, 3, 2, 1);
    RootGroup(tw, inverse, m, ts, 3, 0, 0);
    var s := Add(ONE, Add(e, e2));
    Distribute(e, ONE, Add(e, e2));
    Distribute(e, e, e2);
    MulUnit(e);
    assert Mul(s, e) == Add(e, Add(e2, ONE));
    assert Mul(s, e) == s;
    FixedByNonUnit(s, e);
    assert s.r == 0.0;
  }

  lemma FourthRoot(tw: seq<Cx>, inverse: bool, m: nat, ts: nat)
    requires |tw| > 0 && Table(tw, inverse) && 4 * (m * ts) == |tw|
    ensures Root(tw, m, ts, 1) == Quarter(inverse)
    ensures Root(tw, m, ts, 2) == Neg(ONE)
    ensures Root(tw, m, ts, 3) == Neg(Quarter(inverse))
    ensures Root(tw, m, ts, 4) == ONE && Root(tw, m, ts, 6) == Neg(ONE)
    ensures Root(tw, m, ts, 9) == Quarter(inverse)
  {
    hide Table, Tw, Root, Mul, Neg, Quarter;
    QuarterEntry(tw, inverse, m, ts);
    QuarterSquare(inverse);
    MulNeg(ONE, Quarter(inverse));
    MulUnit(Quarter(inverse));
    RootGroup(tw, inverse, m, ts, 4, 1, 1);
    RootGroup(tw, inverse, m, ts, 4, 2, 1);
    RootGroup(tw, inverse, m, ts, 4, 0, 0);
    RootGroup(tw, inverse, m, ts, 4, 5, 0);
  }

  lemma QuarterSquare(inverse: bool)
    ensures Mul(Quarter(inverse), Quarter(inverse)) == Neg(ONE)
  {}

  lemma QuarterEntry(tw: seq<Cx>, inverse: bool, m: nat, ts: nat)
    requires |tw| > 0 && Table(tw, inverse) && 4 * (m * ts) == |tw|
    ensures Root(tw, m, ts, 1) == Quarter(inverse)
  {
    hide Mul, OnCircle, ClosedUnderMul;
    var s := m * ts;
    assert |tw| / 4 == s && |tw| % 4 == 0;
    DivModUnique(s, 0, s, |tw|);
  }

  lemma FifthRoot(tw: seq<Cx>, inverse: bool, m: nat, ts: nat)
    requires |tw| > 0 && Table(tw, inverse) && 5 * (m * ts) == |tw|
    ensures Root(tw, m, ts, 3) == Conj(Root(tw, m, ts, 2))
    ensures Root(tw, m, ts, 4) == Conj(Root(tw, m, ts, 1))
    ensures Root(tw, m, ts, 6) == Root(tw, m, ts, 1) && Root(tw, m, ts, 8) == Root(tw, m, ts, 3)
    ensures Root(tw, m, ts, 9) == Root(tw, m, ts, 4) && Root(tw, m, ts, 12) == Root(tw, m, ts, 2)
    ensures Root(tw, m, ts, 16) == Root(tw, m, ts, 1)
  {
    hide Mul, Table, Tw, Root, Conj;
    RootGroup(tw, inverse, m, ts, 5, -2, 0);
    RootGroup(tw, inverse, m, ts, 5, -1, 0);
    RootGroup(tw, inverse, m, ts, 5, 2, 0);
    RootGroup(tw, inverse, m, ts, 5, 1, 0);
    RootGroup(tw, inverse, m, ts, 5, 3, 0);
    RootGroup(tw, inverse, m, ts, 5, 4, 0);
    RootGroup(tw, inverse, m, ts, 5, 7, 0);
    RootGroup(tw, inverse, m, ts, 5, 11, 0);
    RootGroup(tw, inverse, m, ts, 5, 6, 0);
  }

  lemma SumUnfold(f: int -> Cx)
    ensures Sum(2, f) == Add(f(0), f(1))
    ensures Sum(3, f) == Add(Add(f(0), f(1)), f(2))
    ensures Sum(4, f) == Add(Add(Add(f(0), f(1)), f(2)), f(3))
    ensures Sum(5, f) == Add(Add(Add(Add(f(0), f(1)), f(2)), f(3)), f(4))
  {
    hide Add;
    SumOne(f);
    assert Sum(2, f) == Add(Sum(1, f), f(1));
    assert Sum(3, f) == Add(Sum(2, f), f(2));
    assert Sum(4, f) == Add(Sum(3, f), f(3));
    assert Sum(5, f) == Add(Sum(4, f), f(4));
  }

  // The first row of a column has no twiddle factor, and no row's root acts on it.
  lemma FirstRow(R: seq<Cx>, u: int, m: nat, tw: seq<Cx>, inverse: bool, ts: nat, q: int)
    requires |tw| > 0 && Table(tw, inverse)
    ensures Column(R, u, m, tw, ts)(0) == At(R, u)
    ensures ColumnTerm(R, u, m, tw, ts, q)(0) == At(R, u)
    ensures ColumnTerm(R, u, m, tw, ts, 0)(q) == Column(R, u, m, tw, ts)(q)
  {
    hide Mul, Table, Tw, At;
    TwUnit(tw, inverse, 0);
    assert 0 * (u * ts) == 0 && 0 * (m * ts) == 0 && u + 0 * m == u;
    MulUnit(At(R, u));
    MulUnit(Column(R, u, m, tw, ts)(q));
  }

  // The roots that meet the rows of column sum q.
  lemma RowTerms(R: seq<Cx>, u: int, m: nat, tw: seq<Cx>, ts: nat, q: int)
    requires |tw| > 0 && 0 <= q < 5
    ensures ColumnTerm(R, u, m, tw, ts, q)(1) == Mul(Column(R, u, m, tw, ts)(1), Root(tw, m, ts, q))
    ensures forall r :: 2 <= r < 5 ==>
      ColumnTerm(R, u, m, tw, ts, q)(r) == Mul(Column(R, u, m, tw, ts)(r), Root(tw, m, ts, Times(r, q)))
  {
    hide Mul, Column, Root;
  }

  // r * q by cases on q, which keeps the product out of the solver's arithmetic.
  function Times(r: int, q: int): (e: int)
    requires 0 <= q < 5
    ensures e == r * q
  {
    if q == 0 then 0 else if q == 1 then r else if q == 2 then 2 * r else if q == 3 then 3 * r else 4 * r
  }

  /** Every row of the radix-2 kernel is the generic butterfly's sum. */
  lemma Rows2(R: seq<Cx>, u: int, m: nat, tw: seq<Cx>, inverse: bool, ts: nat, q: int)
    requires |tw| > 0 && Table(tw, inverse) && 2 * (m * ts) == |tw| && 0 <= q < 2
    ensures Sum(2, ColumnTerm(R, u, m, tw, ts, q)) == Out2(At(R, u), Column(R, u, m, tw, ts)(1), q)
  {
    hide Mul, Add, Table, Tw, At, Out2, Root, Column;
    var s1 := Column(R, u, m, tw, ts)(1);
    SumUnfold(ColumnTerm(R, u, m, tw, ts, q));
    FirstRow(R, u, m, tw, inverse, ts, q);
    SquareRoot(tw, inverse, m, ts);
    RootGroup(tw, inverse, m, ts, 2, 0, 0);
    Out2Sum(At(R, u), s1);
  }

  lemma Rows3(R: seq<Cx>, u: int, m: nat, tw: seq<Cx>, inverse: bool, ts: nat, q: int)
    requires |tw| > 0 && Table(tw, inverse) && 3 * (m * ts) == |tw| && 0 <= q < 3
    ensures Sum(3, ColumnTerm(R, u, m, tw, ts, q)) ==
            Out3(At(R, u), Column(R, u, m, tw, ts)(1), Column(R, u, m, tw, ts)(2), Root(tw, m, ts, 1), q)
  {
    hide Mul, Add, Table, Tw, At, Out3, Root, Column, ColumnTerm, Conj;
    var c := Column(R, u, m, tw, ts);
    RowTerms(R, u, m, tw, ts, q);
    SumUnfold(ColumnTerm(R, u, m, tw, ts, q));
    FirstRow(R, u, m, tw, inverse, ts, q);
    CubeRoot(tw, inverse, m, ts);
    RootGroup(tw, inverse, m, ts, 3, 0, 0);
    MulUnit(c(1));
    MulUnit(c(2));
    Out3Sum(At(R, u), c(1), c(2), Root(tw, m, ts, 1), q);
  }

  lemma Rows4(R: seq<Cx>, u: int, m: nat, tw: seq<Cx>, inverse: bool, ts: nat, q: int)
    requires |tw| > 0 && Table(tw, inverse) && 4 * (m * ts) == |tw| && 0 <= q < 4
    ensures Sum(4, ColumnTerm(R, u, m, tw, ts, q)) ==
            Out4(At(R, u), Column(R, u, m, tw, ts)(1), Column(R, u, m, tw, ts)(2),
                 Column(R, u, m, tw, ts)(3), inverse, q)
  {
    hide Mul, Add, Table, Tw, At, Out4, Root, Column, ColumnTerm, Neg, Quarter;
    var c := Column(R, u, m, tw, ts);
    RowTerms(R, u, m, tw, ts, q);
    SumUnfold(ColumnTerm(R, u, m, tw, ts, q));
    FirstRow(R, u, m, tw, inverse, ts, q);
    FourthRoot(tw, inverse, m, ts);
    RootGroup(tw, inverse, m, ts, 4, 0, 0);
    MulUnit(c(1));
    MulUnit(c(2));
    MulUnit(c(3));
    MulNeg(c(1), ONE);
    MulNeg(c(2), ONE);
    MulNeg(c(3), ONE);
    Out4Sum(At(R, u), c(1), c(2), c(3), inverse);
  }

  lemma Rows5(R: seq<Cx>, u: int, m: nat, tw: seq<Cx>, inverse: bool, ts: nat, q: int)
    requires |tw| > 0 && Table(tw, inverse) && 5 * (m * ts) == |tw| && 0 <= q < 5
    ensures Sum(5, ColumnTerm(R, u, m, tw, ts, q)) ==
            Out5(At(R, u), Column(R, u, m, tw, ts)(1), Column(R, u, m, tw, ts)(2),
                 Column(R, u, m, tw, ts)(3), Column(R, u, m, tw, ts)(4),
                 Root(tw, m, ts, 1), Root(tw, m, ts, 2), q)
  {
    hide Mul, Add, Table, Tw, At, Out5, Root, Column, ColumnTerm, Conj;
    var c := Column(R, u, m, tw, ts);
    RowTerms(R, u, m, tw, ts, q);
    var ya, yb := Root(tw, m, ts, 1), Root(tw, m, ts, 2);
    SumUnfold(ColumnTerm(R, u, m, tw, ts, q));
    FirstRow(R, u, m, tw, inverse, ts, q);
    FirstRow(R, u, m, tw, inverse, ts, 1);
    FifthRoot(tw, inverse, m, ts);
    if q == 0 {
      FirstRow(R, u, m, tw, inverse, ts, 2);
      FirstRow(R, u, m, tw, inverse, ts, 3);
      FirstRow(R, u, m, tw, inverse, ts, 4);
      Out5Sum0(At(R, u), c(1), c(2), c(3), c(4), ya, yb);
    } else {
      Out5Sums(At(R, u), c(1), c(2), c(3), c(4), ya, yb);
    }
  }
}
