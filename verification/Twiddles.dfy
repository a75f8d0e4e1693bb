/**
 The twiddle factors kiss_fft_alloc computes with cosines and sines, and why they form a table of
 roots of unity.
 */
module Twiddles {
  import opened Complex
  import opened Arithmetic
  import opened Dft

  /** Cosine, sine and pi, as the C library provides them. */
  datatype Trig = Trig(cos: real -> real, sin: real -> real, pi: real)

  /** kf_cexp: exp(i phase). */
  function KfCexp(t: Trig, phase: real): Cx { Cx(t.cos(phase), t.sin(phase)) }

  // The addition theorems at two angles.
  ghost predicate Adds(t: Trig, a: real, b: real) {
    && t.cos(a + b) == t.cos(a) * t.cos(b) - t.sin(a) * t.sin(b)
    && t.sin(a + b) == t.cos(a) * t.sin(b) + t.sin(a) * t.cos(b)
  }

  // Pythagoras' theorem at one angle.
  ghost predicate Pythagorean(t: Trig, a: real) {
    t.cos(a) * t.cos(a) + t.sin(a) * t.sin(a) == 1.0
  }

  // Between two whole turns the cosine is not one.
  ghost predicate NotWhole(t: Trig, a: real) {
    0.0 < a < 2.0 * t.pi ==> t.cos(a) != 1.0
  }

  /** What is used of the two functions: the addition theorems, Pythagoras' theorem, their values at
      zero and a quarter turn, and that the cosine is one only at whole turns. */
  ghost predicate IsTrig(t: Trig) {
    && t.pi > 0.0
    && KfCexp(t, 0.0) == ONE && KfCexp(t, t.pi / 2.0) == I
    && (forall a, b :: Adds(t, a, b))
    && (forall a :: Pythagorean(t, a))
    && (forall a :: NotWhole(t, a))
  }

  // exp(i pi q): the angle in half turns.
  function Turn(t: Trig, q: real): Cx { KfCexp(t, Radians(t.pi, q)) }

  function Radians(pi: real, q: real): real { pi * q }

  lemma CexpAdd(t: Trig, a: real, b: real)
    requires Adds(t, a, b)
    ensures KfCexp(t, a + b) == Mul(KfCexp(t, a), KfCexp(t, b))
  {}

  lemma TurnAdd(t: Trig, p: real, q: real)
    requires IsTrig(t)
    ensures Turn(t, p + q) == Mul(Turn(t, p), Turn(t, q))
  {
    hide Adds, Pythagorean, NotWhole, KfCexp, Mul, Radians;
    var a, b := Radians(t.pi, p), Radians(t.pi, q);
    SplitAngle(t.pi, p, q);
    assert Adds(t, a, b);
    CexpAdd(t, a, b);
  }

  lemma SplitAngle(pi: real, p: real, q: real)
    ensures Radians(pi, p + q) == Radians(pi, p) + Radians(pi, q)
  {}

  lemma TurnOnCircle(t: Trig, q: real)
    requires IsTrig(t)
    ensures OnCircle(Turn(t, q))
  {
    hide Adds, Pythagorean, NotWhole, OnCircle, Radians;
    var a := Radians(t.pi, q);
    assert Pythagorean(t, a);
    CircleAlgebra(t, a);
  }

  lemma CircleAlgebra(t: Trig, a: real)
    requires Pythagorean(t, a)
    ensures OnCircle(Cx(t.cos(a), t.sin(a)))
  {
    UnitProduct(t.cos(a), t.sin(a));
  }

  lemma UnitProduct(c: real, s: real)
    requires c * c + s * s == 1.0
    ensures Mul(Conj(Cx(c, s)), Cx(c, s)) == ONE
  {}

  lemma TurnNegative(t: Trig, q: real)
    requires IsTrig(t)
    ensures Turn(t, -q) == Conj(Turn(t, q))
  {
    hide Mul, Conj, KfCexp, OnCircle, IsTrig, Turn;
    TurnAdd(t, q, -q);
    TurnZero(t);
    TurnOnCircle(t, q);
    ConjInverse(Turn(t, q), Turn(t, -q));
  }

  lemma TurnZero(t: Trig)
    requires IsTrig(t)
    ensures Turn(t, 0.0) == ONE
  {
    hide Adds, Pythagorean, NotWhole, KfCexp;
    assert Radians(t.pi, 0.0) == 0.0;
  }

  lemma TurnHalf(t: Trig)
    requires IsTrig(t)
    ensures Turn(t, 0.5) == I && Turn(t, -0.5) == MINUS_I
  {
    hide Adds, Pythagorean, NotWhole, KfCexp, Conj;
    assert Radians(t.pi, 0.5) == t.pi / 2.0;
    TurnNegative(t, 0.5);
    ConjOfI();
  }

  lemma ConjOfI()
    ensures Conj(I) == MINUS_I
  {}

  lemma TurnWhole(t: Trig)
    requires IsTrig(t)
    ensures Turn(t, 2.0) == ONE && Turn(t, -2.0) == ONE
  {
    hide Mul, Conj, KfCexp, IsTrig, Neg, Turn;
    TurnHalf(t);
    TurnAdd(t, 0.5, 0.5);
    TurnAdd(t, 1.0, 1.0);
    TurnSquare(I);
    TurnSquareAgain();
    TurnNegative(t, 2.0);
    ConjOne();
  }

  lemma TurnSquareAgain()
    ensures Mul(Neg(ONE), Neg(ONE)) == ONE
  {
    assert Neg(ONE) == Cx(-1.0, 0.0);
  }

  lemma TurnNotOne(t: Trig, q: real)
    requires IsTrig(t) && 0.0 < q < 2.0
    ensures Turn(t, q) != ONE && Turn(t, -q) != ONE
  {
    hide Conj, Mul, Adds, Pythagorean, Radians;
    AngleInRange(t.pi, q);
    assert NotWhole(t, Radians(t.pi, q));
    TurnNegative(t, q);
    ConjNotOne(Turn(t, q));
  }

  lemma AngleInRange(pi: real, q: real)
    requires pi > 0.0 && 0.0 < q < 2.0
    ensures 0.0 < Radians(pi, q) < 2.0 * pi
  {
    assert pi * (2.0 - q) > 0.0;
  }

  // ---- the table ----

  /** The angle of entry i in half turns, negative for the forward direction. */
  function Angle(n: nat, inverse: bool, i: nat): real
    requires n > 0
  {
    var r := 2.0 * (i as real) / (n as real);
    if inverse then r else -r
  }

  /** The phase of entry i as the loop of kiss_fft_alloc computes it. */
  function Phase(t: Trig, n: nat, inverse: bool, i: nat): real
    requires n > 0
  {
    var phase := -2.0 * t.pi * (i as real) / (n as real);
    if inverse then phase * -1.0 else phase
  }

  lemma PhaseIsTurn(t: Trig, n: nat, inverse: bool, i: nat)
    requires n > 0
    ensures KfCexp(t, Phase(t, n, inverse, i)) == Turn(t, Angle(n, inverse, i))
  {
    hide KfCexp, Phase, Angle, Radians;
    PhaseTimes(t, n, inverse, i);
    AngleTimes(n, inverse, i);
    SameRadians(t.pi, Phase(t, n, inverse, i), Angle(n, inverse, i), i as real, n as real, inverse);
  }

  lemma PhaseTimes(t: Trig, n: nat, inverse: bool, i: nat)
    requires n > 0
    ensures Phase(t, n, inverse, i) * (n as real) == if inverse then 2.0 * t.pi * (i as real)
      else -2.0 * t.pi * (i as real)
  {
    var phase := -2.0 * t.pi * (i as real) / (n as real);
    assert phase * (n as real) == -2.0 * t.pi * (i as real);
  }

  lemma AngleTimes(n: nat, inverse: bool, i: nat)
    requires n > 0
    ensures Angle(n, inverse, i) * (n as real) == if inverse then 2.0 * (i as real) else -2.0 * (i as real)
  {
    var r := 2.0 * (i as real) / (n as real);
    assert r * (n as real) == 2.0 * (i as real);
  }

  lemma SameRadians(pi: real, phase: real, angle: real, i: real, n: real, inverse: bool)
    requires n != 0.0
    requires phase * n == if inverse then 2.0 * pi * i else -2.0 * pi * i
    requires angle * n == if inverse then 2.0 * i else -2.0 * i
    ensures phase == Radians(pi, angle)
  {
    assert (pi * angle) * n == pi * (angle * n);
    CancelDivisor(phase, pi * angle, n);
  }

  lemma CancelDivisor(u: real, v: real, n: real)
    requires n != 0.0 && u * n == v * n
    ensures u == v
  {}

  /** The table kiss_fft_alloc fills. */
  function TwiddleTable(t: Trig, n: nat, inverse: bool): (tw: seq<Cx>)
    requires n > 0
    ensures |tw| == n && forall i :: 0 <= i < n ==> tw[i] == KfCexp(t, Phase(t, n, inverse, i))
  {
    seq(n, i requires 0 <= i => KfCexp(t, Phase(t, n, inverse, i)))
  }

  lemma AngleAdd(n: nat, inverse: bool, a: nat, b: nat)
    requires n > 0
    ensures Angle(n, inverse, a) + Angle(n, inverse, b) == Angle(n, inverse, a + b)
  {
    var r := 1.0 / (n as real);
    assert 2.0 * (a as real) / (n as real) == (2.0 * (a as real)) * r;
    assert 2.0 * (b as real) / (n as real) == (2.0 * (b as real)) * r;
    assert 2.0 * ((a + b) as real) / (n as real) == (2.0 * ((a + b) as real)) * r;
  }

  lemma AngleWhole(n: nat, inverse: bool)
    requires n > 0
    ensures Angle(n, inverse, n) == if inverse then 2.0 else -2.0
    ensures Angle(n, inverse, 0) == 0.0
  {}

  lemma AngleQuarter(n: nat, inverse: bool, q: nat)
    requires n > 0 && n == 4 * q
    ensures Angle(n, inverse, q) == if inverse then 0.5 else -0.5
  {
    var r := 2.0 * (q as real) / (n as real);
    assert r * (n as real) == 2.0 * (q as real) == 0.5 * (n as real);
    CancelDivisor(r, 0.5, n as real);
  }

  lemma AngleBelow(n: nat, a: nat)
    requires 0 < a < n
    ensures 0.0 < Angle(n, true, a) < 2.0 && Angle(n, false, a) == -Angle(n, true, a)
  {
    var r := 2.0 * (a as real) / (n as real);
    assert r * (n as real) == 2.0 * (a as real);
    FractionBounds(r, a as real, n as real);
  }

  lemma FractionBounds(r: real, a: real, n: real)
    requires 0.0 < a < n && r * n == 2.0 * a
    ensures 0.0 < r < 2.0
  {
    PositiveFactor(r, n);
    assert (2.0 - r) * n == 2.0 * n - r * n;
    PositiveFactor(2.0 - r, n);
  }

  lemma PositiveFactor(x: real, n: real)
    requires n > 0.0 && x * n > 0.0
    ensures x > 0.0
  {}

  lemma EntriesMultiply(t: Trig, n: nat, inverse: bool, a: nat, b: nat)
    requires IsTrig(t) && a < n && b < n
    ensures Mul(TwiddleTable(t, n, inverse)[a], TwiddleTable(t, n, inverse)[b]) ==
      TwiddleTable(t, n, inverse)[(a + b) % n]
  {
    hide Mul, IsTrig, Turn, Angle, Phase, KfCexp;
    var c := if a + b >= n then a + b - n else a + b;
    DivModUnique(a + b, if a + b >= n then 1 else 0, c, n);
    PhaseIsTurn(t, n, inverse, a);
    PhaseIsTurn(t, n, inverse, b);
    PhaseIsTurn(t, n, inverse, c);
    AngleAdd(n, inverse, a, b);
    TurnAdd(t, Angle(n, inverse, a), Angle(n, inverse, b));
    if a + b >= n {
      AngleAdd(n, inverse, c, n);
      AngleWhole(n, inverse);
      TurnAdd(t, Angle(n, inverse, c), Angle(n, inverse, n));
      TurnWhole(t);
      MulUnit(Turn(t, Angle(n, inverse, c)));
    }
  }

  lemma EntryNotOne(t: Trig, n: nat, inverse: bool, a: nat)
    requires IsTrig(t) && 0 < a < n
    ensures TwiddleTable(t, n, inverse)[a] != ONE
  {
    hide IsTrig, Turn, Angle, Phase, KfCexp, Mul;
    PhaseIsTurn(t, n, inverse, a);
    AngleBelow(n, a);
    TurnNotOne(t, Angle(n, true, a));
  }

  lemma SpecialEntries(t: Trig, n: nat, inverse: bool)
    requires IsTrig(t) && n > 0
    ensures TwiddleTable(t, n, inverse)[0] == ONE
    ensures n % 4 == 0 ==> TwiddleTable(t, n, inverse)[n / 4] == if inverse then I else MINUS_I
  {
    hide IsTrig, Turn, Angle, Phase, KfCexp, Mul;
    PhaseIsTurn(t, n, inverse, 0);
    AngleWhole(n, inverse);
    TurnZero(t);
    if n % 4 == 0 {
      PhaseIsTurn(t, n, inverse, n / 4);
      AngleQuarter(n, inverse, n / 4);
      TurnHalf(t);
    }
  }

  lemma EntryOnCircle(t: Trig, n: nat, inverse: bool, a: nat)
    requires IsTrig(t) && a < n
    ensures OnCircle(TwiddleTable(t, n, inverse)[a])
  {
    hide IsTrig, Turn, Angle, Phase, KfCexp, OnCircle;
    PhaseIsTurn(t, n, inverse, a);
    TurnOnCircle(t, Angle(n, inverse, a));
  }

  /** For every length and either direction the computed factors are a table of roots of unity. */
  lemma TwiddlesAreTable(t: Trig, n: nat, inverse: bool)
    requires IsTrig(t) && n > 0
    ensures Table(TwiddleTable(t, n, inverse), inverse)
  {
    hide IsTrig, Phase, KfCexp, OnCircle, Mul;
    var tw := TwiddleTable(t, n, inverse);
    SpecialEntries(t, n, inverse);
    forall a | 0 < a < n ensures tw[a] != ONE {
      EntryNotOne(t, n, inverse, a);
    }
    forall a, b | 0 <= a < n && 0 <= b < n ensures Mul(tw[a], tw[b]) == tw[(a + b) % n] {
      EntriesMultiply(t, n, inverse, a, b);
    }
    forall a | 0 <= a < n ensures OnCircle(tw[a]) {
      EntryOnCircle(t, n, inverse, a);
    }
  }

  lemma {:induction false} TurnsWhole(t: Trig, q: nat)
    requires IsTrig(t)
    ensures Turn(t, 2.0 * (q as real)) == ONE && Turn(t, -2.0 * (q as real)) == ONE
  {
    hide IsTrig, Turn, Mul;
    if q == 0 {
      TurnZero(t);
    } else {
      TurnsWhole(t, q - 1);
      TurnWhole(t);
      TurnAdd(t, 2.0 * ((q - 1) as real), 2.0);
      TurnAdd(t, -2.0 * ((q - 1) as real), -2.0);
      MulUnit(ONE);
    }
  }

  lemma AngleWholes(n: nat, inverse: bool, q: nat, e: nat)
    requires n > 0 && e == q * n
    ensures Angle(n, inverse, e) == if inverse then 2.0 * (q as real) else -2.0 * (q as real)
  {
    var r := 2.0 * (e as real) / (n as real);
    assert e as real == (q as real) * (n as real);
    assert r * (n as real) == (2.0 * (q as real)) * (n as real);
    CancelDivisor(r, 2.0 * (q as real), n as real);
  }

  // Reducing the exponent modulo the length does not change the root.
  lemma TurnAtExponent(t: Trig, n: nat, inverse: bool, e: nat)
    requires IsTrig(t) && n > 0
    ensures Tw(TwiddleTable(t, n, inverse), e) == Turn(t, Angle(n, inverse, e))
  {
    hide IsTrig, Turn, Angle, Phase, KfCexp, Mul;
    DivMod(e, n);
    var q, r := e / n, e % n;
    WholeTurns(t, n, inverse, q, r, e);
    PhaseIsTurn(t, n, inverse, r);
  }

  lemma WholeTurns(t: Trig, n: nat, inverse: bool, q: nat, r: nat, e: nat)
    requires IsTrig(t) && n > 0 && e == q * n + r
    ensures Turn(t, Angle(n, inverse, e)) == Turn(t, Angle(n, inverse, r))
  {
    hide IsTrig, Turn, Angle, Mul;
    var w := e - r;
    AngleWholes(n, inverse, q, w);
    AngleAdd(n, inverse, w, r);
    TurnAdd(t, Angle(n, inverse, w), Angle(n, inverse, r));
    TurnsWhole(t, q);
    MulUnit(Turn(t, Angle(n, inverse, r)));
  }

  /** The angle of the e-th power of the n-th root of unity. */
  function DftAngle(pi: real, e: nat, n: nat): real
    requires n > 0
  {
    2.0 * pi * (e as real) / (n as real)
  }

  /** The factors in full: the e-th power of the root is the cosine and, up to the sign of the
      direction, the sine of 2 pi e / n. */
  lemma FactorAt(t: Trig, n: nat, e: nat)
    requires IsTrig(t) && n > 0
    ensures var a := DftAngle(t.pi, e, n);
      && Tw(TwiddleTable(t, n, false), e) == Cx(t.cos(a), -t.sin(a))
      && Tw(TwiddleTable(t, n, true), e) == Cx(t.cos(a), t.sin(a))
  {
    hide IsTrig, TwiddleTable, Tw;
    TurnAtExponent(t, n, false, e);
    TurnAtExponent(t, n, true, e);
    TurnNegative(t, Angle(n, true, e));
    AngleTimes(n, true, e);
    var a := DftAngle(t.pi, e, n);
    AngleIsRadians(t.pi, a, Angle(n, true, e), e as real, n as real);
  }

  lemma AngleIsRadians(pi: real, a: real, angle: real, e: real, n: real)
    requires n != 0.0 && angle * n == 2.0 * e && a == 2.0 * pi * e / n
    ensures Radians(pi, angle) == a
  {
    assert a * n == 2.0 * pi * e;
    assert (pi * angle) * n == pi * (angle * n);
    CancelDivisor(a, pi * angle, n);
  }

  /** The inverse table is the conjugate of the forward one. */
  lemma InverseTwiddles(t: Trig, n: nat)
    requires IsTrig(t) && n > 0
    ensures TwiddleTable(t, n, true) == ConjTable(TwiddleTable(t, n, false))
  {
    hide IsTrig, Phase, KfCexp, Conj, Turn;
    forall i | 0 <= i < n ensures TwiddleTable(t, n, true)[i] == Conj(TwiddleTable(t, n, false)[i]) {
      PhaseIsTurn(t, n, true, i);
      PhaseIsTurn(t, n, false, i);
      TurnNegative(t, Angle(n, false, i));
    }
  }
}
