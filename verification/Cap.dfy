/**
 CAP: compensated amplitude panning with three or more loudspeakers. The closed-form gains are
 the ones of least energy that give the image its interaural cue and its level; a limiter then
 scales the whole gain vector down.
 */
module Cap {
  import opened Geometry

  // ---- sums over gain vectors ----

  function Total(s: seq<real>): real {
    if s == [] then 0.0 else Total(s[..|s| - 1]) + s[|s| - 1]
  }

  function Dot(s: seq<real>, t: seq<real>): real
    requires |s| == |t|
  {
    if s == [] then 0.0 else Dot(s[..|s| - 1], t[..|t| - 1]) + Times(s[|s| - 1], t[|t| - 1])
  }

  function Energy(s: seq<real>): real { Dot(s, s) }

  lemma NoSums()
    ensures Total([]) == 0.0 && Energy([]) == 0.0
  {}

  lemma OneMoreSum(a: seq<real>, x: real)
    ensures Total(a + [x]) == Total(a) + x && Energy(a + [x]) == Energy(a) + Times(x, x)
  {
    hide Times;
    assert (a + [x])[..|a|] == a;
  }

  function Blend(p: real, x: real, q: real, y: real): real { p * x + q * y }

  function Combine(p: real, s: seq<real>, q: real, t: seq<real>): (r: seq<real>)
    requires |s| == |t|
    ensures |r| == |s| && forall i :: 0 <= i < |r| ==> r[i] == Blend(p, s[i], q, t[i])
  {
    seq(|s|, i requires 0 <= i < |s| => Blend(p, s[i], q, t[i]))
  }

  function Ones(n: nat): (s: seq<real>)
    ensures |s| == n && forall i :: 0 <= i < n ==> s[i] == 1.0
  {
    seq(n, _ => 1.0)
  }

  lemma CombineInit(p: real, s: seq<real>, q: real, t: seq<real>)
    requires |s| == |t| > 0
    ensures var n := |s| - 1; Combine(p, s, q, t)[..n] == Combine(p, s[..n], q, t[..n])
  {
    hide Blend;
    var n := |s| - 1;
    var c, d := Combine(p, s, q, t)[..n], Combine(p, s[..n], q, t[..n]);
    forall i | 0 <= i < n ensures c[i] == d[i] {
      assert c[i] == Combine(p, s, q, t)[i];
    }
  }

  lemma {:induction false} DotCombine(p: real, s: seq<real>, q: real, t: seq<real>, u: seq<real>)
    requires |s| == |t| == |u|
    ensures Dot(Combine(p, s, q, t), u) == p * Dot(s, u) + q * Dot(t, u)
  {
    hide Blend, Dot, Times;
    if s == [] {
      EmptyDot();
    } else {
      var n, c := |s| - 1, Combine(p, s, q, t);
      DotCombine(p, s[..n], q, t[..n], u[..n]);
      CombineInit(p, s, q, t);
      DotLast(c, u);
      DotLast(s, u);
      DotLast(t, u);
      CombineAlgebra(p, Dot(s[..n], u[..n]), s[n], q, Dot(t[..n], u[..n]), t[n], u[n], Dot(c[..n], u[..n]),
                     Dot(s, u), Dot(t, u));
    }
  }

  lemma EmptyDot()
    ensures Dot([], []) == 0.0
  {}

  lemma DotLast(s: seq<real>, t: seq<real>)
    requires |s| == |t| > 0
    ensures var n := |s| - 1; Dot(s, t) == Dot(s[..n], t[..n]) + Times(s[n], t[n])
  {
    hide Times;
  }

  lemma CombineAlgebra(p: real, S: real, s: real, q: real, T: real, t: real, u: real, c: real, Su: real, Tu: real)
    requires c == p * S + q * T && Su == S + Times(s, u) && Tu == T + Times(t, u)
    ensures c + Times(Blend(p, s, q, t), u) == p * Su + q * Tu
  {}

  lemma {:induction false} DotSymmetric(s: seq<real>, t: seq<real>)
    requires |s| == |t|
    ensures Dot(s, t) == Dot(t, s)
  {
    if s != [] {
      DotSymmetric(s[..|s| - 1], t[..|t| - 1]);
      assert Times(s[|s| - 1], t[|t| - 1]) == Times(t[|t| - 1], s[|s| - 1]);
    }
  }

  lemma {:induction false} DotOnes(s: seq<real>)
    ensures Dot(s, Ones(|s|)) == Total(s)
  {
    if s != [] {
      var n := |s| - 1;
      assert Ones(n + 1)[..n] == Ones(n);
      DotOnes(s[..n]);
    }
  }

  lemma {:induction false} TotalOnes(n: nat)
    ensures Total(Ones(n)) == n as real
  {
    if n > 0 {
      assert Ones(n)[..n - 1] == Ones(n - 1);
      TotalOnes(n - 1);
    }
  }

  /** Energy is never negative, and zero only for silence. */
  lemma {:induction false} EnergyDefinite(s: seq<real>)
    ensures Energy(s) >= 0.0
    ensures Energy(s) == 0.0 <==> forall i :: 0 <= i < |s| ==> s[i] == 0.0
  {
    hide Times;
    if s != [] {
      var n := |s| - 1;
      EnergyDefinite(s[..n]);
      Square(s[n]);
      assert forall i :: 0 <= i < n ==> s[..n][i] == s[i];
    }
  }

  // ---- the closed form ----

  ghost predicate AllEqual(a: seq<real>) {
    forall i, j :: 0 <= i < |a| && 0 <= j < |a| ==> a[i] == a[j]
  }

  /** c * n - b * b of the source. */
  function Spread(a: seq<real>): real {
    Energy(a) * (|a| as real) - Total(a) * Total(a)
  }

  // The deviations from the mean, times n.
  function Deviations(a: seq<real>): seq<real> {
    Combine(|a| as real, a, -Total(a), Ones(|a|))
  }

  lemma SpreadIsEnergy(a: seq<real>)
    ensures Energy(Deviations(a)) == (|a| as real) * Spread(a)
  {
    hide Dot, Total, Combine, Ones;
    var n, b, c, o, d := |a| as real, Total(a), Energy(a), Ones(|a|), Deviations(a);
    DotCombine(n, a, -b, o, d);
    DotSymmetric(a, d);
    DotSymmetric(o, d);
    DotCombine(n, a, -b, o, a);
    DotCombine(n, a, -b, o, o);
    DotSymmetric(a, o);
    DotOnes(a);
    DotOnes(o);
    TotalOnes(|a|);
    SpreadAlgebra(n, b, c, Dot(d, a), Dot(d, o), Energy(d));
  }

  lemma SpreadAlgebra(n: real, b: real, c: real, da: real, do: real, dd: real)
    requires da == n * c + -b * b && do == n * b + -b * n && dd == n * da + -b * do
    ensures dd == n * (c * n - b * b)
  {}

  /** The denominator vanishes exactly when all projections are equal. */
  lemma SpreadPositive(a: seq<real>)
    requires a != []
    ensures Spread(a) >= 0.0
    ensures Spread(a) == 0.0 <==> AllEqual(a)
  {
    hide Total, Dot, Spread, Deviations, AllEqual;
    SpreadIsEnergy(a);
    EnergyDefinite(Deviations(a));
    SignOf(|a| as real, Spread(a));
    NoDeviation(a);
  }

  lemma DeviationAt(a: seq<real>, i: nat)
    requires i < |a|
    ensures Deviations(a)[i] == (|a| as real) * a[i] - Total(a)
  {
    hide Total;
  }

  lemma NoDeviation(a: seq<real>)
    requires a != []
    ensures |Deviations(a)| == |a|
    ensures AllEqual(a) <==> forall i :: 0 <= i < |a| ==> Deviations(a)[i] == 0.0
  {
    hide Total, Deviations;
    DeviationsLength(a);
    if AllEqual(a) {
      TotalEqual(a, a[0]);
      forall i | 0 <= i < |a| ensures Deviations(a)[i] == 0.0 {
        DeviationAt(a, i);
        assert a[i] == a[0];
      }
    } else {
      var i, j :| 0 <= i < |a| && 0 <= j < |a| && a[i] != a[j];
      DeviationAt(a, i);
      DeviationAt(a, j);
      DistinctScaled(|a| as real, a[i], a[j]);
    }
  }

  lemma DeviationsLength(a: seq<real>)
    ensures |Deviations(a)| == |a|
  {}

  lemma SignOf(n: real, x: real)
    requires n > 0.0
    ensures n * x >= 0.0 <==> x >= 0.0
    ensures n * x == 0.0 <==> x == 0.0
  {}

  lemma DistinctScaled(n: real, x: real, y: real)
    requires n > 0.0 && x != y
    ensures n * x != n * y
  {}

  lemma {:induction false} TotalEqual(a: seq<real>, v: real)
    requires forall i :: 0 <= i < |a| ==> a[i] == v
    ensures Total(a) == (|a| as real) * v
  {
    if a != [] { TotalEqual(a[..|a| - 1], v); }
  }

  /** d of the source; ratio is the distance correction (rI_ + 0.01) / rI0_. */
  function Denominator(a: seq<real>, ratio: real): real { Spread(a) * ratio }

  function GainOf(b: real, c: real, d: real, ai: real): real
    requires d != 0.0
  {
    (-b * ai + c) / d
  }

  /** The gains before the limiter. */
  function Gains(a: seq<real>, d: real): (g: seq<real>)
    requires d != 0.0
    ensures |g| == |a| && forall i :: 0 <= i < |g| ==> g[i] == GainOf(Total(a), Energy(a), d, a[i])
  {
    seq(|a|, i requires 0 <= i < |a| => GainOf(Total(a), Energy(a), d, a[i]))
  }

  lemma GainsCombine(a: seq<real>, d: real)
    requires d != 0.0
    ensures Gains(a, d) == Combine(-Total(a) / d, a, Energy(a) / d, Ones(|a|))
  {
    hide Total, Dot, GainOf, Blend;
    forall i | 0 <= i < |a| ensures Gains(a, d)[i] == Combine(-Total(a) / d, a, Energy(a) / d, Ones(|a|))[i] {
      SplitQuotient(Total(a), a[i], Energy(a), d);
    }
  }

  lemma SplitQuotient(b: real, x: real, c: real, d: real)
    requires d != 0.0
    ensures GainOf(b, c, d, x) == Blend(-b / d, x, c / d, 1.0)
  {}

  /** The gain-weighted projections cancel, and the gains add up to the distance correction. */
  lemma GainsMeetConstraints(a: seq<real>, ratio: real)
    requires a != [] && !AllEqual(a) && ratio != 0.0
    ensures Denominator(a, ratio) != 0.0
    ensures Dot(Gains(a, Denominator(a, ratio)), a) == 0.0
    ensures Total(Gains(a, Denominator(a, ratio))) == 1.0 / ratio
  {
    hide Total, Dot, Spread, AllEqual, Gains;
    SpreadPositive(a);
    NonZeroProduct(Spread(a), ratio);
    var d, o := Denominator(a, ratio), Ones(|a|);
    GainsCombine(a, d);
    DotCombine(-Total(a) / d, a, Energy(a) / d, o, a);
    DotCombine(-Total(a) / d, a, Energy(a) / d, o, o);
    DotOnes(a);
    DotOnes(o);
    DotSymmetric(a, o);
    DotOnes(Gains(a, d));
    TotalOnes(|a|);
    SpreadIs(a);
    ConstraintAlgebra(|a| as real, Total(a), Energy(a), Spread(a), ratio, d,
                      Dot(Gains(a, d), a), Total(Gains(a, d)));
  }

  lemma SpreadIs(a: seq<real>)
    ensures Spread(a) == Energy(a) * (|a| as real) - Total(a) * Total(a)
  {}

  lemma NonZeroProduct(x: real, y: real)
    requires x != 0.0 && y != 0.0
    ensures x * y != 0.0
  {}

  lemma ConstraintAlgebra(n: real, b: real, c: real, s: real, ratio: real, d: real, ga: real, gt: real)
    requires s == c * n - b * b && d == s * ratio && s != 0.0 && ratio != 0.0 && d != 0.0
    requires ga == (-b / d) * c + (c / d) * b && gt == (-b / d) * b + (c / d) * n
    ensures ga == 0.0 && gt == 1.0 / ratio
  {
    var e := 1.0 / d;
    assert -b / d == -b * e && c / d == c * e;
    assert ga == (-b * e) * c + (c * e) * b;
    assert gt == e * s;
    assert e * s * ratio == 1.0;
  }

  /** Least energy: any other gain vector with the same two sums has more. */
  lemma GainsHaveLeastEnergy(a: seq<real>, ratio: real, h: seq<real>)
    requires a != [] && !AllEqual(a) && ratio != 0.0 && |h| == |a|
    requires Dot(h, a) == 0.0 && Total(h) == 1.0 / ratio
    ensures Denominator(a, ratio) != 0.0
    ensures Energy(h) >= Energy(Gains(a, Denominator(a, ratio)))
    ensures Energy(h) == Energy(Gains(a, Denominator(a, ratio))) <==> h == Gains(a, Denominator(a, ratio))
  {
    hide Total, Dot, Spread, AllEqual, Gains;
    GainsMeetConstraints(a, ratio);
    var d, o := Denominator(a, ratio), Ones(|a|);
    var g := Gains(a, d);
    var e := Combine(1.0, h, -1.0, g);
    // The difference e is orthogonal to g, which is a combination of a and the constant vector.
    GainsCombine(a, d);
    DotCombine(-Total(a) / d, a, Energy(a) / d, o, e);
    DotSymmetric(a, e);
    DotSymmetric(o, e);
    DotCombine(1.0, h, -1.0, g, a);
    DotCombine(1.0, h, -1.0, g, o);
    DotOnes(h);
    DotOnes(g);
    assert Dot(g, e) == 0.0;
    Pythagoras(h, g, e);
    EnergyDefinite(e);
    SameVector(h, g, e);
  }

  lemma SameVector(h: seq<real>, g: seq<real>, e: seq<real>)
    requires |h| == |g| && e == Combine(1.0, h, -1.0, g)
    ensures (forall i :: 0 <= i < |e| ==> e[i] == 0.0) <==> h == g
  {
    forall i | 0 <= i < |h| ensures e[i] == h[i] - g[i] {}
    if forall i :: 0 <= i < |e| ==> e[i] == 0.0 {
      forall i | 0 <= i < |h| ensures h[i] == g[i] { assert e[i] == 0.0; }
    }
  }

  lemma Pythagoras(h: seq<real>, g: seq<real>, e: seq<real>)
    requires |h| == |g| && e == Combine(1.0, h, -1.0, g) && Dot(g, e) == 0.0
    ensures Energy(h) == Energy(g) + Energy(e)
  {
    hide Dot;
    forall i | 0 <= i < |h| ensures h[i] == Combine(1.0, g, 1.0, e)[i] {}
    assert h == Combine(1.0, g, 1.0, e);
    DotCombine(1.0, g, 1.0, e, h);
    DotSymmetric(g, h);
    DotSymmetric(e, h);
    DotCombine(1.0, g, 1.0, e, g);
    DotCombine(1.0, g, 1.0, e, e);
    DotSymmetric(g, e);
  }

  // ---- the limiter ----

  function PositiveMax(g: seq<real>): (m: real)
    ensures m >= 0.0 && forall i :: 0 <= i < |g| ==> g[i] <= m
    ensures m == 0.0 || m in g
  {
    if g == [] then 0.0
    else
      var n := |g| - 1;
      var m := PositiveMax(g[..n]);
      assert forall i :: 0 <= i < n ==> g[i] == g[..n][i];
      if g[n] > m then g[n] else m
  }

  lemma PositiveMaxSteps(g: seq<real>)
    ensures PositiveMax(g[..0]) == 0.0
    ensures forall i :: 0 <= i < |g| ==>
      PositiveMax(g[..i + 1]) == if g[i] > PositiveMax(g[..i]) then g[i] else PositiveMax(g[..i])
  {
    forall i | 0 <= i < |g|
      ensures PositiveMax(g[..i + 1]) == if g[i] > PositiveMax(g[..i]) then g[i] else PositiveMax(g[..i])
    {
      assert g[..i + 1][..i] == g[..i];
    }
  }

  function Scaled(g: seq<real>, f: real): (r: seq<real>)
    ensures |r| == |g| && forall i :: 0 <= i < |r| ==> r[i] == Times(g[i], f)
  {
    seq(|g|, i requires 0 <= i < |g| => Times(g[i], f))
  }

  /** The gains after the limiter. */
  function Limited(g: seq<real>, maxGain: real): (r: seq<real>)
    requires maxGain >= 0.0
    ensures |r| == |g|
  {
    var gMax := PositiveMax(g);
    if gMax > maxGain then Scaled(g, maxGain / gMax) else g
  }

  /** The limiter keeps the cancellation of the projections and bounds every gain; it acts only
      if some gain is too large, and then makes the largest one exactly the limit. */
  lemma LimiterKeeps(a: seq<real>, g: seq<real>, maxGain: real)
    requires |a| == |g| && Dot(g, a) == 0.0 && maxGain >= 0.0
    ensures Dot(Limited(g, maxGain), a) == 0.0
    ensures forall i :: 0 <= i < |g| ==> Limited(g, maxGain)[i] <= maxGain
    ensures (forall i :: 0 <= i < |g| ==> g[i] <= maxGain) ==> Limited(g, maxGain) == g
    ensures (exists i :: 0 <= i < |g| && g[i] > maxGain) ==> maxGain in Limited(g, maxGain)
  {
    hide Dot, Times, PositiveMax;
    var gMax := PositiveMax(g);
    if gMax > maxGain {
      var f := maxGain / gMax;
      ScaledDot(g, f, a);
      forall i | 0 <= i < |g| ensures Scaled(g, f)[i] <= maxGain { LimitOne(g[i], gMax, maxGain); }
      var k :| 0 <= k < |g| && g[k] == gMax;
      LimitOne(g[k], gMax, maxGain);
      assert Scaled(g, f)[k] == maxGain;
    }
  }

  lemma ScaledDot(g: seq<real>, f: real, a: seq<real>)
    requires |a| == |g| && Dot(g, a) == 0.0
    ensures Dot(Scaled(g, f), a) == 0.0
  {
    hide Dot;
    assert Scaled(g, f) == Combine(f, g, 0.0, g);
    DotCombine(f, g, 0.0, g, a);
  }

  lemma LimitOne(x: real, gMax: real, maxGain: real)
    requires x <= gMax && gMax > maxGain >= 0.0
    ensures Times(x, maxGain / gMax) <= maxGain
    ensures x == gMax ==> Times(x, maxGain / gMax) == maxGain
  {
    var f := maxGain / gMax;
    assert f * gMax == maxGain && f >= 0.0;
    assert (gMax - x) * f >= 0.0;
  }

  // ---- calcGains ----

  /** A virtual source as the loop sees it: unit vector to the image, distance of the source from
      the origin, and distance of the image from the listener. */
  datatype Source = Source(rI: XYZ, rI0_: real, rI_: real)

  /** A source position; for one at infinity only its direction from the origin counts. */
  datatype Position = Position(at: XYZ, isInfinite: bool)

  // normalise
  function Unit(v: XYZ, root: real -> real): XYZ {
    var l := Length(v, root);
    if l != 0.0 then XYZ(v.x / l, v.y / l, v.z / l) else v
  }

  /** From the listener to the image. */
  function Image(p: Position, listener: XYZ): XYZ { if p.isInfinite then p.at else Minus(p.at, listener) }

  /** The source calcGains derives from a position. */
  function SourceOf(p: Position, listener: XYZ, root: real -> real): Source {
    var v := Image(p, listener);
    Source(Unit(v, root), Length(p.at, root), Length(v, root))
  }

  /** The unit vectors from the listener to the loudspeakers. */
  function Directions(positions: seq<XYZ>, listener: XYZ, root: real -> real): (r: seq<XYZ>)
    ensures |r| == |positions| && forall i :: 0 <= i < |r| ==> r[i] == Unit(Minus(positions[i], listener), root)
  {
    seq(|positions|, i requires 0 <= i < |positions| => Unit(Minus(positions[i], listener), root))
  }

  /** With a true square root, lengths vanish at the origin only, and a normalised vector has unit
      length and the direction of the original. */
  lemma UnitIsUnit(v: XYZ, root: real -> real)
    requires IsRoot(root)
    ensures Length(v, root) >= 0.0 && (Length(v, root) == 0.0 <==> v == ORIGIN)
    ensures v != ORIGIN ==> DotXYZ(Unit(v, root), Unit(v, root)) == 1.0
    ensures Stretch(Length(v, root), Unit(v, root)) == v
  {
    hide Times;
    var q, l := SumOfSquares(v), Length(v, root);
    SquaresVanish(v);
    assert IsRootAt(root, q);
    RootVanishes(l, q);
    if l == 0.0 {
      StretchZero(Unit(v, root));
    } else {
      UnitCoordinates(v, l);
    }
  }

  /** Interaural projections of the loudspeakers against the image. */
  function Projections(r: seq<XYZ>, rL: XYZ, rI: XYZ): (a: seq<real>)
    ensures |a| == |r| && forall i :: 0 <= i < |a| ==> a[i] == DotXYZ(rL, Minus(r[i], rI))
  {
    seq(|r|, i requires 0 <= i < |r| => DotXYZ(rL, Minus(r[i], rI)))
  }

  /** The interaural components of the loudspeaker directions. */
  function Aural(r: seq<XYZ>, rL: XYZ): (p: seq<real>)
    ensures |p| == |r| && forall i :: 0 <= i < |p| ==> p[i] == DotXYZ(rL, r[i])
  {
    seq(|r|, i requires 0 <= i < |r| => DotXYZ(rL, r[i]))
  }

  /** Cancelling projections mean the interaural cue of the image: the gain-weighted interaural
      components of the loudspeakers sum to that of the image times the sum of the gains. */
  lemma InterauralCue(r: seq<XYZ>, rL: XYZ, rI: XYZ, g: seq<real>)
    requires |g| == |r|
    ensures Dot(g, Projections(r, rL, rI)) == 0.0 <==> Dot(g, Aural(r, rL)) == DotXYZ(rL, rI) * Total(g)
  {
    hide Dot, Total, DotXYZ, Minus;
    var c, o, p, a := DotXYZ(rL, rI), Ones(|r|), Aural(r, rL), Projections(r, rL, rI);
    forall i | 0 <= i < |r| ensures a[i] == Combine(1.0, p, -c, o)[i] {
      DotDifference(rL, r[i], rI);
    }
    assert a == Combine(1.0, p, -c, o);
    DotSymmetric(g, a);
    DotSymmetric(g, p);
    DotSymmetric(g, o);
    DotCombine(1.0, p, -c, o, g);
    DotOnes(g);
  }

  function DistanceRatio(s: Source): real
    requires s.rI0_ != 0.0
  {
    (s.rI_ + 0.01) / s.rI0_
  }

  /** The image lies off the degenerate configuration, and its distances are those of points. */
  ghost predicate Regular(r: seq<XYZ>, rL: XYZ, s: Source) {
    s.rI0_ > 0.0 && s.rI_ >= 0.0 && !AllEqual(Projections(r, rL, s.rI))
  }

  /** What calcGains derives from a position, with a true square root: going the image distance in
      the image direction, from the listener or, for a source at infinity, from the origin, leads to
      the position; and the first distance is that of the position from the origin. */
  lemma SourceIsThere(p: Position, listener: XYZ, root: real -> real)
    requires IsRoot(root)
    ensures var s := SourceOf(p, listener, root);
      && s.rI_ >= 0.0 && s.rI0_ >= 0.0
      && (!p.isInfinite ==> Plus(listener, Stretch(s.rI_, s.rI)) == p.at)
      && (p.isInfinite ==> Stretch(s.rI_, s.rI) == p.at)
      && (s.rI_ > 0.0 ==> DotXYZ(s.rI, s.rI) == 1.0)
      && s.rI0_ * s.rI0_ == p.at.x * p.at.x + p.at.y * p.at.y + p.at.z * p.at.z
  {
    hide Length, Unit, IsRoot, Plus, Stretch, Minus, DotXYZ;
    UnitIsUnit(p.at, root);
    UnitIsUnit(Image(p, listener), root);
    LengthSquared(p.at, root);
    MinusPlus(p.at, listener);
  }

  /** Likewise every loudspeaker is found in its direction from the listener, at its distance d. */
  lemma SpeakersAreThere(positions: seq<XYZ>, listener: XYZ, root: real -> real, i: nat) returns (d: real)
    requires IsRoot(root) && i < |positions|
    ensures d >= 0.0 && Plus(listener, Stretch(d, Directions(positions, listener, root)[i])) == positions[i]
    ensures positions[i] != listener ==>
      DotXYZ(Directions(positions, listener, root)[i], Directions(positions, listener, root)[i]) == 1.0
  {
    hide Length, Unit, IsRoot, Stretch, DotXYZ;
    var v := Minus(positions[i], listener);
    d := Length(v, root);
    UnitIsUnit(v, root);
    MinusPlus(positions[i], listener);
  }

  /** With a true square root the source divides by zero only for a source at the origin and for
      loudspeakers whose projections are all equal. */
  lemma RegularSource(r: seq<XYZ>, rL: XYZ, p: Position, listener: XYZ, root: real -> real)
    requires IsRoot(root)
    ensures var s := SourceOf(p, listener, root);
      Regular(r, rL, s) <==> p.at != ORIGIN && !AllEqual(Projections(r, rL, s.rI))
  {
    hide AllEqual, Projections, Length, Unit, IsRoot;
    UnitIsUnit(p.at, root);
    UnitIsUnit(Image(p, listener), root);
  }

  lemma RegularDenominator(r: seq<XYZ>, rL: XYZ, s: Source)
    requires r != [] && Regular(r, rL, s)
    ensures DistanceRatio(s) > 0.0
    ensures Denominator(Projections(r, rL, s.rI), DistanceRatio(s)) > 0.0
  {
    hide Spread, AllEqual;
    SpreadPositive(Projections(r, rL, s.rI));
    Quotients(s.rI_ + 0.01, s.rI0_);
    PositiveProduct(Spread(Projections(r, rL, s.rI)), DistanceRatio(s));
  }

  lemma Quotients(x: real, y: real)
    requires x > 0.0 && y > 0.0
    ensures x / y > 0.0 && 1.0 / (x / y) == y / x
  {}

  lemma PositiveProduct(x: real, y: real)
    requires x > 0.0 && y > 0.0
    ensures x * y > 0.0
  {}

  /** The gains calcGains leaves for one source. */
  ghost function SourceGains(r: seq<XYZ>, rL: XYZ, s: Source, maxGain: real): (g: seq<real>)
    requires r != [] && Regular(r, rL, s) && maxGain >= 0.0
    ensures |g| == |r|
  {
    RegularDenominator(r, rL, s);
    var a := Projections(r, rL, s.rI);
    Limited(Gains(a, Denominator(a, DistanceRatio(s))), maxGain)
  }

  /** What the gains mean: the interaural component of the gain-weighted loudspeaker directions
      is that of the image direction times the sum of gains, before and after limiting. Before
      limiting the gains add up to the distance correction with the least possible energy. */
  lemma SourceGainsPan(r: seq<XYZ>, rL: XYZ, s: Source, maxGain: real)
    requires |r| >= 3 && Regular(r, rL, s) && maxGain >= 0.0
    ensures var a := Projections(r, rL, s.rI);
      && Dot(SourceGains(r, rL, s, maxGain), a) == 0.0
      && (forall i :: 0 <= i < |r| ==> SourceGains(r, rL, s, maxGain)[i] <= maxGain)
    ensures var a, ratio := Projections(r, rL, s.rI), DistanceRatio(s);
      && Denominator(a, ratio) != 0.0
      && Total(Gains(a, Denominator(a, ratio))) == s.rI0_ / (s.rI_ + 0.01)
      && forall h :: |h| == |r| && Dot(h, a) == 0.0 && Total(h) == s.rI0_ / (s.rI_ + 0.01) ==>
                     Energy(h) >= Energy(Gains(a, Denominator(a, ratio)))
  {
    hide Dot, Total, Spread, AllEqual, Gains, Limited, Projections, Denominator, DistanceRatio;
    var a, ratio := Projections(r, rL, s.rI), DistanceRatio(s);
    RegularDenominator(r, rL, s);
    GainsMeetConstraints(a, ratio);
    RatioInverse(s);
    LimiterKeeps(a, Gains(a, Denominator(a, ratio)), maxGain);
    forall h | |h| == |r| && Dot(h, a) == 0.0 && Total(h) == s.rI0_ / (s.rI_ + 0.01)
      ensures Energy(h) >= Energy(Gains(a, Denominator(a, ratio)))
    {
      GainsHaveLeastEnergy(a, ratio, h);
    }
  }

  lemma RatioInverse(s: Source)
    requires s.rI0_ > 0.0 && s.rI_ >= 0.0
    ensures DistanceRatio(s) != 0.0 && 1.0 / DistanceRatio(s) == s.rI0_ / (s.rI_ + 0.01)
  {
    Quotients(s.rI_ + 0.01, s.rI0_);
  }

  lemma DenominatorIs(a: seq<real>, s: Source, b: real, c: real, d: real)
    requires s.rI0_ > 0.0 && b == Total(a) && c == Energy(a)
    requires d == (c * (|a| as real) - b * b) * (s.rI_ + 0.01) / s.rI0_
    ensures Denominator(a, DistanceRatio(s)) == d
  {
    hide Total, Energy;
    QuotientLast(c * (|a| as real) - b * b, s.rI_ + 0.01, s.rI0_);
  }

  lemma QuotientLast(x: real, y: real, z: real)
    requires z != 0.0
    ensures x * y / z == x * (y / z)
  {}

  // A division; by zero the result is not a real number, which any value stands for here.
  method Quotient(x: real, y: real) returns (q: real)
    ensures y != 0.0 ==> q == x / y
  {
    if y == 0.0 {
      q := *;
    } else {
      q := x / y;
    }
  }

  lemma GainIs(b: real, c: real, d: real, ai: real, g: real)
    requires d != 0.0 && g == (-b * ai + c) / d
    ensures g == GainOf(b, c, d, ai)
  {}

  class CapPanner {
    const gain: array2<real>
    const root: real -> real
    var maxGain: real
    var listenerPos: XYZ
    var listenerAuralAxis: XYZ

    constructor (numSources: nat, numSpeakers: nat, squareRoot: real -> real, listener: XYZ, auralAxis: XYZ)
      ensures fresh(gain) && gain.Length0 == numSources && gain.Length1 == numSpeakers && maxGain == 10.0
      ensures root == squareRoot && listenerPos == listener && listenerAuralAxis == auralAxis
    {
      gain := new real[numSources, numSpeakers];
      root, maxGain, listenerPos, listenerAuralAxis := squareRoot, 10.0, listener, auralAxis;
    }

    ghost function Row(j: nat, n: nat): (g: seq<real>)
      requires j < gain.Length0 && n <= gain.Length1
      reads gain
      ensures |g| == n && forall i :: 0 <= i < n ==> g[i] == gain[j, i]
    {
      seq(n, i requires 0 <= i < n reads gain => gain[j, i])
    }

    /** calcGains for at least three loudspeakers. A row for which the source divides by zero is
        arbitrary and does not disturb the others. */
    method CalcGains(positions: seq<XYZ>, sources: seq<Position>)
      requires |positions| >= 3 && gain.Length0 == |sources| && gain.Length1 >= |positions|
      modifies gain
      ensures var r, rL, n := Directions(positions, listenerPos, root), listenerAuralAxis, |positions|;
        maxGain >= 0.0 ==> forall j :: 0 <= j < |sources| && Regular(r, rL, SourceOf(sources[j], listenerPos, root)) ==>
          Row(j, n) == SourceGains(r, rL, SourceOf(sources[j], listenerPos, root), maxGain)
      ensures forall j, i :: 0 <= j < |sources| && |positions| <= i < gain.Length1 ==> gain[j, i] == 0.0
    {
      hide Regular, SourceGains, Unit, Length, Minus, Directions, SourceOf;
      ZeroFill();
      var r := ReadDirections(positions);
      var rL := listenerAuralAxis;
      for j := 0 to |sources|
        invariant maxGain >= 0.0 ==>
          forall k :: 0 <= k < j && Regular(r, rL, SourceOf(sources[k], listenerPos, root)) ==>
            Row(k, |r|) == SourceGains(r, rL, SourceOf(sources[k], listenerPos, root), maxGain)
        invariant forall k, i :: 0 <= k < |sources| && |r| <= i < gain.Length1 ==> gain[k, i] == 0.0
      {
        label Before:
        var s := ReadSource(sources[j]);
        OneSource(r, rL, s, j);
        forall k | 0 <= k < j ensures Row(k, |r|) == old@Before(Row(k, |r|)) {}
      }
    }

    // The loop over the loudspeaker positions.
    method ReadDirections(positions: seq<XYZ>) returns (r: seq<XYZ>)
      ensures r == Directions(positions, listenerPos, root)
    {
      r := [];
      for i := 0 to |positions|
        invariant |r| == i && forall k :: 0 <= k < i ==> r[k] == Unit(Minus(positions[k], listenerPos), root)
      {
        r := r + [Unit(Minus(positions[i], listenerPos), root)];
      }
    }

    // The lengths before and after the move to the listener, and the direction.
    method ReadSource(p: Position) returns (s: Source)
      ensures s == SourceOf(p, listenerPos, root)
    {
      var rI := p.at;
      var rI0_ := Length(rI, root);
      if !p.isInfinite { rI := Minus(rI, listenerPos); }
      s := Source(Unit(rI, root), rI0_, Length(rI, root));
    }

    method ZeroFill()
      modifies gain
      ensures forall j, i :: 0 <= j < gain.Length0 && 0 <= i < gain.Length1 ==> gain[j, i] == 0.0
    {
      for j := 0 to gain.Length0
        invariant forall k, i :: 0 <= k < j && 0 <= i < gain.Length1 ==> gain[k, i] == 0.0
      {
        for i := 0 to gain.Length1
          invariant forall k, c :: 0 <= k < j && 0 <= c < gain.Length1 ==> gain[k, c] == 0.0
          invariant forall c :: 0 <= c < i ==> gain[j, c] == 0.0
        {
          gain[j, i] := 0.0;
        }
      }
    }

    method OneSource(r: seq<XYZ>, rL: XYZ, s: Source, j: nat)
      requires r != [] && j < gain.Length0 && |r| <= gain.Length1
      modifies gain
      ensures Regular(r, rL, s) && maxGain >= 0.0 ==> Row(j, |r|) == SourceGains(r, rL, s, maxGain)
      ensures forall k, i :: 0 <= k < gain.Length0 && 0 <= i < gain.Length1 && (k != j || i >= |r|) ==>
        gain[k, i] == old(gain[k, i])
    {
      hide Total, Dot, Denominator, Gains, Spread, DistanceRatio, PositiveMax, AllEqual, Energy;
      var a, b, c := Project(r, rL, s.rI);
      var d := Quotient((c * (|r| as real) - b * b) * (s.rI_ + 0.01), s.rI0_);
      if Regular(r, rL, s) {
        RegularDenominator(r, rL, s);
        DenominatorIs(a, s, b, c, d);
      }
      var gMax := WriteGains(j, a, b, c, d);
      LimitGains(j, |r|, gMax);
    }

    // The accumulation loop over the loudspeakers.
    method Project(r: seq<XYZ>, rL: XYZ, rI: XYZ) returns (a: seq<real>, b: real, c: real)
      ensures a == Projections(r, rL, rI) && b == Total(a) && c == Energy(a)
    {
      hide DotXYZ, Minus, Times, Total, Energy;
      a, b, c := [], 0.0, 0.0;
      NoSums();
      for i := 0 to |r|
        invariant a == Projections(r, rL, rI)[..i] && b == Total(a) && c == Energy(a)
      {
        var rt := Minus(r[i], rI);
        var ai := DotXYZ(rL, rt);
        OneMoreSum(a, ai);
        a := a + [ai];
        b := b + ai;
        c := c + Times(ai, ai);
      }
    }

    method WriteGains(j: nat, a: seq<real>, b: real, c: real, d: real) returns (gMax: real)
      requires j < gain.Length0 && |a| <= gain.Length1 && b == Total(a) && c == Energy(a)
      modifies gain
      ensures d != 0.0 ==> Row(j, |a|) == Gains(a, d) && gMax == PositiveMax(Gains(a, d))
      ensures forall k, i :: 0 <= k < gain.Length0 && 0 <= i < gain.Length1 && (k != j || i >= |a|) ==>
        gain[k, i] == old(gain[k, i])
    {
      hide Total, Dot, GainOf, PositiveMax;
      ghost var G := if d != 0.0 then Gains(a, d) else a;
      gMax := 0.0;
      PositiveMaxSteps(G);
      for i := 0 to |a|
        invariant d != 0.0 ==> gMax == PositiveMax(G[..i]) && forall x :: 0 <= x < i ==> gain[j, x] == G[x]
        invariant forall k, x :: 0 <= k < gain.Length0 && 0 <= x < gain.Length1 && (k != j || x >= i) ==>
          gain[k, x] == old(gain[k, x])
      {
        var g := Quotient(-b * a[i] + c, d);
        assert d != 0.0 ==> g == G[i] by {
          if d != 0.0 { GainIs(b, c, d, a[i], g); }
        }
        if g > gMax { gMax := g; }
        gain[j, i] := g;
      }
      assert G[..|a|] == G;
    }

    method LimitGains(j: nat, n: nat, gMax: real)
      requires j < gain.Length0 && n <= gain.Length1
      modifies gain
      ensures maxGain >= 0.0 && gMax == PositiveMax(old(Row(j, n))) ==> Row(j, n) == Limited(old(Row(j, n)), maxGain)
      ensures forall k, i :: 0 <= k < gain.Length0 && 0 <= i < gain.Length1 && (k != j || i >= n) ==>
        gain[k, i] == old(gain[k, i])
    {
      hide PositiveMax, Times;
      if gMax > maxGain {
        var f := Quotient(maxGain, gMax);
        for i := 0 to n
          invariant forall k, x :: 0 <= k < gain.Length0 && 0 <= x < gain.Length1 ==>
            gain[k, x] == if k == j && x < i then Times(old(gain[k, x]), f) else old(gain[k, x])
        {
          gain[j, i] := Times(gain[j, i], f);
        }
      }
    }
  }
}
