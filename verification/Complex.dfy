/**
 Complex numbers over exact reals, with the arithmetic of the macros C_MUL, C_ADD, C_SUB
 and HALF_OF, and the field laws the transform proofs use.

 Client proofs `hide` the operations and work with the laws below, so that the solver sees
 the operations as uninterpreted symbols.
 */
module Complex {

  datatype Cx = Cx(r: real, i: real)

  const ZERO := Cx(0.0, 0.0)
  const ONE := Cx(1.0, 0.0)
  const I := Cx(0.0, 1.0)
  const MINUS_I := Cx(0.0, -1.0)

  function Add(a: Cx, b: Cx): Cx { Cx(a.r + b.r, a.i + b.i) }

  function Sub(a: Cx, b: Cx): Cx { Cx(a.r - b.r, a.i - b.i) }

  function Mul(a: Cx, b: Cx): Cx { Cx(a.r * b.r - a.i * b.i, a.r * b.i + a.i * b.r) }

  function Neg(a: Cx): Cx { Cx(-a.r, -a.i) }

  function Conj(a: Cx): Cx { Cx(a.r, -a.i) }

  function Scale(c: real, a: Cx): Cx { Cx(c * a.r, c * a.i) }

  // The macro S_MUL.
  function SMul(a: real, b: real): real { a * b }

  function OfReal(c: real): Cx { Cx(c, 0.0) }

  lemma AddLaws(a: Cx, b: Cx, c: Cx)
    ensures Add(a, b) == Add(b, a)
    ensures Add(Add(a, b), c) == Add(a, Add(b, c))
    ensures Add(ZERO, a) == a == Add(a, ZERO)
    ensures Sub(a, b) == Add(a, Neg(b))
  {}

  lemma MulComm(a: Cx, b: Cx)
    ensures Mul(a, b) == Mul(b, a)
  {}

  lemma MulAssoc(a: Cx, b: Cx, c: Cx)
    ensures Mul(Mul(a, b), c) == Mul(a, Mul(b, c))
  {}

  lemma MulUnit(a: Cx)
    ensures Mul(ONE, a) == a == Mul(a, ONE)
    ensures Mul(ZERO, a) == ZERO == Mul(a, ZERO)
  {}

  lemma Distribute(a: Cx, b: Cx, c: Cx)
    ensures Mul(a, Add(b, c)) == Add(Mul(a, b), Mul(a, c))
    ensures Mul(Add(b, c), a) == Add(Mul(b, a), Mul(c, a))
  {}

  lemma MulNeg(a: Cx, b: Cx)
    ensures Mul(a, Neg(b)) == Neg(Mul(a, b)) == Mul(Neg(a), b)
  {}

  lemma ConjLaws(a: Cx, b: Cx)
    ensures Conj(Add(a, b)) == Add(Conj(a), Conj(b))
    ensures Conj(Mul(a, b)) == Mul(Conj(a), Conj(b))
    ensures Conj(Conj(a)) == a
  {}

  lemma ConjZero()
    ensures Conj(ZERO) == ZERO
  {}

  lemma ConjOne()
    ensures Conj(ONE) == ONE
  {}

  lemma ConjMinusI()
    ensures Conj(MINUS_I) == I
  {}

  lemma ConjNotOne(a: Cx)
    requires a != ONE
    ensures Conj(a) != ONE
  {
    assert a == Cx(a.r, a.i) && Conj(a) == Cx(a.r, -a.i);
  }

  lemma ScaleUnit(c: real)
    ensures Scale(c, ONE) == OfReal(c)
  {}

  lemma ScaleIsMul(c: real, a: Cx)
    ensures Scale(c, a) == Mul(OfReal(c), a)
  {}

  lemma ScaleLaws(c: real, a: Cx, b: Cx)
    ensures Scale(c, a) == Mul(OfReal(c), a)
    ensures Scale(c, Add(a, b)) == Add(Scale(c, a), Scale(c, b))
    ensures Mul(Scale(c, a), b) == Scale(c, Mul(a, b)) == Mul(a, Scale(c, b))
  {
    ScaleIsMul(c, a);
    ScaleIsMul(c, b);
    ScaleIsMul(c, Add(a, b));
    ScaleIsMul(c, Mul(a, b));
    hide Mul, Scale, Add;
    var k := OfReal(c);
    Distribute(k, a, b);
    MulAssoc(k, a, b);
    MulAssoc(a, k, b);
    MulComm(a, k);
  }

  // Unit modulus, written with the product so that proofs can leave the product abstract.
  predicate OnCircle(a: Cx) { Mul(Conj(a), a) == ONE }

  lemma ConjOnCircle(a: Cx)
    requires OnCircle(a)
    ensures OnCircle(Conj(a))
  {}

  // On the unit circle the inverse is the conjugate.
  lemma ConjInverse(a: Cx, b: Cx)
    requires OnCircle(a) && Mul(a, b) == ONE
    ensures b == Conj(a)
  {
    hide Mul;
    MulAssoc(Conj(a), a, b);
    MulUnit(b);
    MulUnit(Conj(a));
  }

  // A field has no zero divisors: used with a = S and b = 1 - w for a root of unity w.
  lemma FixedByNonUnit(s: Cx, w: Cx)
    requires Mul(s, w) == s
    requires w != ONE
    ensures s == ZERO
  {
    var u := w.r - 1.0;
    var v := w.i;
    assert s.r * u == s.i * v;
    assert s.i * u == -s.r * v;
    assert s.r * u * u == s.i * v * u == -s.r * v * v;
    assert s.r * (u * u + v * v) == 0.0;
    assert s.i * u * u == -s.r * v * u == -s.i * v * v;
    assert s.i * (u * u + v * v) == 0.0;
    if u != 0.0 { assert u * u > 0.0; assert v * v >= 0.0; } else { assert v * v > 0.0; }
  }
}
