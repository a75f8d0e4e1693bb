/** Vectors in space, as the panners use them. */
module Geometry {

  datatype XYZ = XYZ(x: real, y: real, z: real)

  const ORIGIN := XYZ(0.0, 0.0, 0.0)

  function Times(c: real, d: real): real { c * d }

  function Minus(a: XYZ, b: XYZ): XYZ { XYZ(a.x - b.x, a.y - b.y, a.z - b.z) }

  function Plus(a: XYZ, b: XYZ): XYZ { XYZ(a.x + b.x, a.y + b.y, a.z + b.z) }

  function Stretch(c: real, a: XYZ): XYZ { XYZ(c * a.x, c * a.y, c * a.z) }

  function DotXYZ(a: XYZ, b: XYZ): real { a.x * b.x + a.y * b.y + a.z * b.z }

  function Cross(a: XYZ, b: XYZ): XYZ {
    XYZ(a.y * b.z - a.z * b.y, a.z * b.x - a.x * b.z, a.x * b.y - a.y * b.x)
  }

  function Det(a: XYZ, b: XYZ, c: XYZ): real {
    a.x * (b.y * c.z - b.z * c.y) - a.y * (b.x * c.z - b.z * c.x) + a.z * (b.x * c.y - b.y * c.x)
  }

  lemma DotDifference(a: XYZ, b: XYZ, c: XYZ)
    ensures DotXYZ(a, Minus(b, c)) == DotXYZ(a, b) - DotXYZ(a, c)
  {}

  lemma StretchZero(a: XYZ)
    ensures Stretch(0.0, a) == ORIGIN
  {}

  lemma PlusLaws(a: XYZ, b: XYZ, c: XYZ)
    ensures Plus(Plus(a, b), c) == Plus(a, Plus(b, c))
    ensures Plus(a, b) == Plus(b, a)
    ensures Plus(ORIGIN, a) == a
  {}

  // A vector repeated makes the determinant vanish.
  lemma DetRepeated(a: XYZ, b: XYZ)
    ensures Det(a, a, b) == 0.0 && Det(a, b, a) == 0.0 && Det(b, a, a) == 0.0
  {}

  lemma MulSame(p: real, e: real, x: real)
    requires p == e
    ensures p * x == e * x
  {}

  function Weighted(p: real, q: real, r: real, a: real, b: real, c: real): real { p * a + q * b + r * c }

  // The determinant multiplied out.
  function Expanded(a1: real, a2: real, a3: real, b1: real, b2: real, b3: real, c1: real, c2: real, c3: real): real {
    a1 * b2 * c3 - a1 * b3 * c2 - a2 * b1 * c3 + a2 * b3 * c1 + a3 * b1 * c2 - a3 * b2 * c1
  }

  // The rows of the adjugate against one coordinate x of the three vectors, the other two being
  // y and z in cyclic order: the determinant for its own coordinate, zero for the others.
  lemma Cofactors(a1: real, a2: real, a3: real, b1: real, b2: real, b3: real, c1: real, c2: real, c3: real,
                  p: real, q: real, r: real)
    requires p == b2 * c3 - b3 * c2 && q == c2 * a3 - c3 * a2 && r == a2 * b3 - a3 * b2
    ensures Weighted(p, q, r, a1, b1, c1) == Expanded(a1, a2, a3, b1, b2, b3, c1, c2, c3)
    ensures Weighted(p, q, r, a2, b2, c2) == 0.0
    ensures Weighted(p, q, r, a3, b3, c3) == 0.0
  {
    MulSame(p, b2 * c3 - b3 * c2, a1);
    MulSame(q, c2 * a3 - c3 * a2, b1);
    MulSame(r, a2 * b3 - a3 * b2, c1);
    MulSame(p, b2 * c3 - b3 * c2, a2);
    MulSame(q, c2 * a3 - c3 * a2, b2);
    MulSame(r, a2 * b3 - a3 * b2, c2);
    MulSame(p, b2 * c3 - b3 * c2, a3);
    MulSame(q, c2 * a3 - c3 * a2, b3);
    MulSame(r, a2 * b3 - a3 * b2, c3);
  }

  lemma DetExpanded(a: XYZ, b: XYZ, c: XYZ)
    ensures Det(a, b, c) == Expanded(a.x, a.y, a.z, b.x, b.y, b.z, c.x, c.y, c.z)
  {}

  lemma Rotated(a1: real, a2: real, a3: real, b1: real, b2: real, b3: real, c1: real, c2: real, c3: real)
    ensures Expanded(a2, a3, a1, b2, b3, b1, c2, c3, c1) == Expanded(a1, a2, a3, b1, b2, b3, c1, c2, c3)
  {}

  lemma AdjugateX(a: XYZ, b: XYZ, c: XYZ)
    ensures var p, q, r := Cross(b, c).x, Cross(c, a).x, Cross(a, b).x;
      && Weighted(p, q, r, a.x, b.x, c.x) == Det(a, b, c)
      && Weighted(p, q, r, a.y, b.y, c.y) == 0.0
      && Weighted(p, q, r, a.z, b.z, c.z) == 0.0
  {
    hide Det, Expanded, Weighted;
    DetExpanded(a, b, c);
    Cofactors(a.x, a.y, a.z, b.x, b.y, b.z, c.x, c.y, c.z, Cross(b, c).x, Cross(c, a).x, Cross(a, b).x);
  }

  lemma AdjugateY(a: XYZ, b: XYZ, c: XYZ)
    ensures var p, q, r := Cross(b, c).y, Cross(c, a).y, Cross(a, b).y;
      && Weighted(p, q, r, a.x, b.x, c.x) == 0.0
      && Weighted(p, q, r, a.y, b.y, c.y) == Det(a, b, c)
      && Weighted(p, q, r, a.z, b.z, c.z) == 0.0
  {
    hide Det, Expanded, Weighted;
    DetExpanded(a, b, c);
    Rotated(a.x, a.y, a.z, b.x, b.y, b.z, c.x, c.y, c.z);
    Cofactors(a.y, a.z, a.x, b.y, b.z, b.x, c.y, c.z, c.x, Cross(b, c).y, Cross(c, a).y, Cross(a, b).y);
  }

  lemma AdjugateZ(a: XYZ, b: XYZ, c: XYZ)
    ensures var p, q, r := Cross(b, c).z, Cross(c, a).z, Cross(a, b).z;
      && Weighted(p, q, r, a.x, b.x, c.x) == 0.0
      && Weighted(p, q, r, a.y, b.y, c.y) == 0.0
      && Weighted(p, q, r, a.z, b.z, c.z) == Det(a, b, c)
  {
    hide Det, Expanded, Weighted;
    DetExpanded(a, b, c);
    Rotated(a.x, a.y, a.z, b.x, b.y, b.z, c.x, c.y, c.z);
    Rotated(a.y, a.z, a.x, b.y, b.z, b.x, c.y, c.z, c.x);
    Cofactors(a.z, a.x, a.y, b.z, b.x, b.y, c.z, c.x, c.y, Cross(b, c).z, Cross(c, a).z, Cross(a, b).z);
  }

  // One coordinate of the vector with cofactor weights.
  lemma CramerAlgebra(v: XYZ, p: XYZ, q: XYZ, r: XYZ, a: real, b: real, c: real)
    ensures Weighted(DotXYZ(v, p), DotXYZ(v, q), DotXYZ(v, r), a, b, c) ==
            Weighted(v.x, v.y, v.z, Weighted(p.x, q.x, r.x, a, b, c), Weighted(p.y, q.y, r.y, a, b, c),
                     Weighted(p.z, q.z, r.z, a, b, c))
  {}

  /** Cramer's rule: weighting the three vectors by the cofactor products of v gives det times v. */
  lemma Cramer(v: XYZ, a: XYZ, b: XYZ, c: XYZ)
    ensures Plus(Plus(Stretch(DotXYZ(v, Cross(b, c)), a), Stretch(DotXYZ(v, Cross(c, a)), b)),
                 Stretch(DotXYZ(v, Cross(a, b)), c)) == Stretch(Det(a, b, c), v)
  {
    hide Cross, Det, DotXYZ, Plus, Stretch, Weighted;
    AdjugateX(a, b, c);
    AdjugateY(a, b, c);
    AdjugateZ(a, b, c);
    var D, p, q, r := Det(a, b, c), Cross(b, c), Cross(c, a), Cross(a, b);
    CramerAlgebra(v, p, q, r, a.x, b.x, c.x);
    CramerAlgebra(v, p, q, r, a.y, b.y, c.y);
    CramerAlgebra(v, p, q, r, a.z, b.z, c.z);
    Axis(v, D);
    Coordinates(DotXYZ(v, p), DotXYZ(v, q), DotXYZ(v, r), a, b, c);
  }

  lemma Axis(v: XYZ, D: real)
    ensures Stretch(D, v) == XYZ(Weighted(v.x, v.y, v.z, D, 0.0, 0.0), Weighted(v.x, v.y, v.z, 0.0, D, 0.0),
                                 Weighted(v.x, v.y, v.z, 0.0, 0.0, D))
  {}

  lemma Coordinates(p: real, q: real, r: real, a: XYZ, b: XYZ, c: XYZ)
    ensures Plus(Plus(Stretch(p, a), Stretch(q, b)), Stretch(r, c)) ==
            XYZ(Weighted(p, q, r, a.x, b.x, c.x), Weighted(p, q, r, a.y, b.y, c.y), Weighted(p, q, r, a.z, b.z, c.z))
  {}

  lemma StretchStretch(c: real, d: real, a: XYZ)
    ensures Stretch(c, Stretch(d, a)) == Stretch(Times(c, d), a)
  {}

  lemma StretchPlus(c: real, a: XYZ, b: XYZ)
    ensures Stretch(c, Plus(a, b)) == Plus(Stretch(c, a), Stretch(c, b))
  {}

  lemma StretchOne(a: XYZ)
    ensures Stretch(1.0, a) == a
  {}

  lemma MinusPlus(a: XYZ, b: XYZ)
    ensures Plus(b, Minus(a, b)) == a
  {}

  // ---- lengths ----

  lemma Square(x: real)
    ensures Times(x, x) >= 0.0
    ensures Times(x, x) == 0.0 <==> x == 0.0
  {
    if x > 0.0 {
      PositiveTimes(x, x);
    } else if x < 0.0 {
      PositiveTimes(-x, -x);
      assert Times(x, x) == Times(-x, -x);
    } else {
      assert Times(0.0, 0.0) == 0.0;
    }
  }

  lemma PositiveTimes(x: real, y: real)
    requires x > 0.0 && y > 0.0
    ensures Times(x, y) > 0.0
  {}

  function SumOfSquares(v: XYZ): real { v.x * v.x + v.y * v.y + v.z * v.z }

  // getLength; root stands for the square root of the C library.
  function Length(v: XYZ, root: real -> real): real { root(SumOfSquares(v)) }

  ghost predicate IsRootAt(root: real -> real, x: real) { root(x) >= 0.0 && root(x) * root(x) == x }

  ghost predicate IsRoot(root: real -> real) { forall x :: x >= 0.0 ==> IsRootAt(root, x) }

  lemma SquaresVanish(v: XYZ)
    ensures SumOfSquares(v) >= 0.0 && (SumOfSquares(v) == 0.0 <==> v == ORIGIN)
  {
    Square(v.x);
    Square(v.y);
    Square(v.z);
  }

  lemma RootVanishes(l: real, q: real)
    requires l * l == q
    ensures l == 0.0 <==> q == 0.0
  {
    Square(l);
  }

  // The quotients by the length, as normalise computes them.
  lemma UnitCoordinates(v: XYZ, l: real)
    requires l != 0.0 && l * l == SumOfSquares(v)
    ensures var u := XYZ(v.x / l, v.y / l, v.z / l); DotXYZ(u, u) == 1.0 && Stretch(l, u) == v
  {
    Quotiented(v.x, l);
    Quotiented(v.y, l);
    Quotiented(v.z, l);
    UnitSum(v.x / l, v.y / l, v.z / l, v.x, v.y, v.z, l);
  }

  lemma Quotiented(x: real, l: real)
    requires l != 0.0
    ensures l * (x / l) == x
  {}

  lemma UnitSum(a: real, b: real, c: real, x: real, y: real, z: real, l: real)
    requires l != 0.0 && l * l == x * x + y * y + z * z
    requires l * a == x && l * b == y && l * c == z
    ensures a * a + b * b + c * c == 1.0
  {
    ScaledSquare(a, x, l);
    ScaledSquare(b, y, l);
    ScaledSquare(c, z, l);
    Square(l);
    FactorOne(a * a, b * b, c * c, x * x, y * y, z * z, l * l);
  }

  lemma ScaledSquare(a: real, x: real, l: real)
    requires l * a == x
    ensures (l * l) * (a * a) == x * x
  {
    assert (l * l) * (a * a) == (l * a) * (l * a);
  }

  lemma FactorOne(a: real, b: real, c: real, x: real, y: real, z: real, t: real)
    requires t != 0.0 && t == x + y + z && t * a == x && t * b == y && t * c == z
    ensures a + b + c == 1.0
  {
    assert t * (a + b + c) == t * a + t * b + t * c;
    assert t * (a + b + c - 1.0) == 0.0;
  }

  lemma LengthSquared(v: XYZ, root: real -> real)
    requires IsRoot(root)
    ensures Length(v, root) * Length(v, root) == v.x * v.x + v.y * v.y + v.z * v.z
  {
    SquaresVanish(v);
    var l, q := Length(v, root), SumOfSquares(v);
    assert IsRootAt(root, q) && l == root(q);
    SameSquare(l, root(q), q);
  }

  lemma SameSquare(l: real, r: real, q: real)
    requires l == r && r * r == q
    ensures l * l == q
  {}

  lemma LengthNotNegative(v: XYZ, root: real -> real)
    requires IsRoot(root)
    ensures Length(v, root) >= 0.0
  {
    SquaresVanish(v);
    assert IsRootAt(root, SumOfSquares(v));
  }
}
