/**
 VBAP: a table of inverse matrices, one for every loudspeaker triplet, a search for the triplet
 that encloses the source or, failing that, comes closest, and the rerouting of virtual
 loudspeakers.
 */
module Vbap {
  import opened Geometry
  import opened RealSums

  /** numeric_limits<float>::epsilon() */
  const EPSILON := 1.0 / 8388608.0

  /** normalise: short vectors are left alone. root stands for the square root of the C library. */
  function Normalised(v: XYZ, root: real -> real): XYZ {
    var l := Length(v, root);
    if l >= EPSILON then XYZ(v.x / l, v.y / l, v.z / l) else v
  }

  /** With a true square root a vector that is not too short becomes the unit vector of its
      direction: going its length there leads to it. */
  lemma NormalisedPoints(v: XYZ, root: real -> real) returns (d: real)
    requires IsRoot(root)
    ensures d >= 0.0 && d * d == v.x * v.x + v.y * v.y + v.z * v.z
    ensures d >= 1.0 / 8388608.0 ==> Stretch(d, Normalised(v, root)) == v
    ensures d >= 1.0 / 8388608.0 ==> DotXYZ(Normalised(v, root), Normalised(v, root)) == 1.0
    ensures d < 1.0 / 8388608.0 ==> Normalised(v, root) == v
  {
    hide DotXYZ, Stretch, Length;
    d := Length(v, root);
    LengthNotNegative(v, root);
    LengthSquared(v, root);
    if d >= EPSILON { UnitCoordinates(v, d); }
  }

  // ---- the inverse of one triplet ----

  // The reciprocal determinant, or 1 if there is none.
  function Factor(temp: real): real { if temp != 0.0 then 1.0 / temp else 1.0 }

  function Minor(p: real, q: real, r: real, s: real): real { p * s - q * r }

  /** One row of the table: the 3 x 3 matrix row by row, divided by the determinant if there is one. */
  function InverseRow(a: XYZ, b: XYZ, c: XYZ): (inv: seq<real>)
    ensures |inv| == 9
  {
    var det := Factor(Det(a, b, c));
    [Times(Minor(b.y, b.z, c.y, c.z), det), Times(Minor(b.x, b.z, c.x, c.z), -det),
     Times(Minor(b.x, b.y, c.x, c.y), det),
     Times(Minor(a.y, a.z, c.y, c.z), -det), Times(Minor(a.x, a.z, c.x, c.z), det),
       Times(Minor(a.x, a.y, c.x, c.y), -det),
     Times(Minor(a.y, a.z, b.y, b.z), det), Times(Minor(a.x, a.z, b.x, b.z), -det),
       Times(Minor(a.x, a.y, b.x, b.y), det)]
  }

  datatype Triple = Triple(g1: real, g2: real, g3: real)

  function RowDot(x: real, y: real, z: real, v: XYZ): real { v.x * x + v.y * y + v.z * z }

  function TripletGains(inv: seq<real>, v: XYZ): Triple
    requires |inv| == 9
  {
    Triple(RowDot(inv[0], inv[1], inv[2], v), RowDot(inv[3], inv[4], inv[5], v), RowDot(inv[6], inv[7], inv[8], v))
  }

  /** The direction three gains stand for. */
  function Mixture(t: Triple, a: XYZ, b: XYZ, c: XYZ): XYZ {
    Plus(Plus(Stretch(t.g1, a), Stretch(t.g2, b)), Stretch(t.g3, c))
  }

  function ScaledTriple(d: real, t: Triple): Triple { Triple(Times(d, t.g1), Times(d, t.g2), Times(d, t.g3)) }

  // What the inverse is before the division.
  function Cofactors(a: XYZ, b: XYZ, c: XYZ, v: XYZ): Triple {
    Triple(DotXYZ(v, Cross(b, c)), DotXYZ(v, Cross(c, a)), DotXYZ(v, Cross(a, b)))
  }

  lemma GainsAreCofactors(a: XYZ, b: XYZ, c: XYZ, v: XYZ)
    ensures TripletGains(InverseRow(a, b, c), v) == ScaledTriple(Factor(Det(a, b, c)), Cofactors(a, b, c, v))
  {
    hide Det, Factor, DotXYZ, Cross, Times, Minor, RowDot;
    var det, inv := Factor(Det(a, b, c)), InverseRow(a, b, c);
    CrossParts(b, c);
    CrossParts(a, c);
    CrossParts(a, b);
    CofactorGain(v, Minor(b.y, b.z, c.y, c.z), Minor(b.x, b.z, c.x, c.z), Minor(b.x, b.y, c.x, c.y), det,
                 Cross(b, c), inv[0], inv[1], inv[2]);
    OppositeGain(v, Minor(a.y, a.z, c.y, c.z), Minor(a.x, a.z, c.x, c.z), Minor(a.x, a.y, c.x, c.y), det,
                 Cross(c, a), inv[3], inv[4], inv[5]);
    CofactorGain(v, Minor(a.y, a.z, b.y, b.z), Minor(a.x, a.z, b.x, b.z), Minor(a.x, a.y, b.x, b.y), det,
                 Cross(a, b), inv[6], inv[7], inv[8]);
  }

  lemma CrossParts(a: XYZ, b: XYZ)
    ensures Cross(a, b) == XYZ(Minor(a.y, a.z, b.y, b.z), -Minor(a.x, a.z, b.x, b.z), Minor(a.x, a.y, b.x, b.y))
    ensures Cross(b, a) == XYZ(-Minor(a.y, a.z, b.y, b.z), Minor(a.x, a.z, b.x, b.z), -Minor(a.x, a.y, b.x, b.y))
  {}

  lemma CofactorGain(v: XYZ, p: real, q: real, r: real, det: real, n: XYZ, x: real, y: real, z: real)
    requires n == XYZ(p, -q, r) && x == Times(p, det) && y == Times(q, -det) && z == Times(r, det)
    ensures RowDot(x, y, z, v) == Times(det, DotXYZ(v, n))
  {}

  lemma OppositeGain(v: XYZ, p: real, q: real, r: real, det: real, n: XYZ, x: real, y: real, z: real)
    requires n == XYZ(-p, q, -r) && x == Times(p, -det) && y == Times(q, det) && z == Times(r, -det)
    ensures RowDot(x, y, z, v) == Times(det, DotXYZ(v, n))
  {}

  /** A triplet's gains reproduce the vector they are for if and only if its determinant is not
      zero or the vector is. */
  lemma TripletReconstructs(a: XYZ, b: XYZ, c: XYZ, v: XYZ)
    ensures Mixture(TripletGains(InverseRow(a, b, c), v), a, b, c) == v <==> Det(a, b, c) != 0.0 || v == ORIGIN
  {
    hide Det, Cross, DotXYZ, InverseRow, TripletGains, Stretch, ScaledTriple, Factor, Times;
    var temp := Det(a, b, c);
    var det := Factor(temp);
    GainsAreCofactors(a, b, c, v);
    Cramer(v, a, b, c);
    MixtureScaled(det, Cofactors(a, b, c, v), a, b, c);
    StretchStretch(det, temp, v);
    FactorIs(temp);
    StretchOne(v);
    StretchZero(v);
  }

  lemma FactorIs(temp: real)
    ensures Times(Factor(temp), temp) == if temp != 0.0 then 1.0 else 0.0
  {}

  lemma MixtureScaled(d: real, t: Triple, a: XYZ, b: XYZ, c: XYZ)
    ensures Mixture(ScaledTriple(d, t), a, b, c) == Stretch(d, Mixture(t, a, b, c))
  {
    hide Stretch, Plus, Times;
    StretchStretch(d, t.g1, a);
    StretchStretch(d, t.g2, b);
    StretchStretch(d, t.g3, c);
    StretchPlus(d, Stretch(t.g1, a), Stretch(t.g2, b));
    StretchPlus(d, Plus(Stretch(t.g1, a), Stretch(t.g2, b)), Stretch(t.g3, c));
  }

  // ---- which triplet wins ----

  /** Inside the triplet, or on its edge in the plane. */
  predicate Encloses(t: Triple, is2D: bool) {
    t.g1 >= 0.0 && t.g2 >= 0.0 && (t.g3 >= 0.0 || is2D)
  }

  function Negatives(t: Triple): nat {
    (if t.g1 < 0.0 then 1 else 0) + (if t.g2 < 0.0 then 1 else 0) + (if t.g3 < 0.0 then 1 else 0)
  }

  function MinGain(t: Triple): real {
    var m := if t.g2 < t.g1 then t.g2 else t.g1;
    if t.g3 < m then t.g3 else m
  }

  /** The least gain is one of the three and not above any of them. */
  lemma LeastGain(t: Triple)
    ensures MinGain(t) <= t.g1 && MinGain(t) <= t.g2 && MinGain(t) <= t.g3
    ensures MinGain(t) == t.g1 || MinGain(t) == t.g2 || MinGain(t) == t.g3
  {}

  /** A triplet is a candidate unless two of its gains are negative; one alone does not matter. */
  lemma CandidateUnlessTwo(t: Triple)
    ensures Negatives(t) <= 1 <==>
      !(t.g1 < 0.0 && t.g2 < 0.0) && !(t.g1 < 0.0 && t.g3 < 0.0) && !(t.g2 < 0.0 && t.g3 < 0.0)
    ensures Negatives(t) == 0 <==> t.g1 >= 0.0 && t.g2 >= 0.0 && t.g3 >= 0.0
  {}

  /** The winner among the first n triplets: the first one that encloses the source; without one,
      the first of those whose least gain is largest among the triplets with at most one negative
      gain. */
  ghost predicate Wins(ts: seq<Triple>, n: nat, is2D: bool, j: nat)
    requires n <= |ts|
  {
    && j < n
    && if exists k :: 0 <= k < n && Encloses(ts[k], is2D) then
         Encloses(ts[j], is2D) && forall k :: 0 <= k < j ==> !Encloses(ts[k], is2D)
       else
         && Negatives(ts[j]) <= 1
         && (forall k :: 0 <= k < n && Negatives(ts[k]) <= 1 ==> MinGain(ts[k]) <= MinGain(ts[j]))
         && (forall k :: 0 <= k < j && Negatives(ts[k]) <= 1 ==> MinGain(ts[k]) < MinGain(ts[j]))
  }

  // What the search loop knows after n triplets, none of which encloses the source.
  ghost predicate Searched(ts: seq<Triple>, n: nat, is2D: bool, found: bool, jmin: nat)
    requires n <= |ts|
  {
    && (forall k :: 0 <= k < n ==> !Encloses(ts[k], is2D))
    && (!found ==> forall k :: 0 <= k < n ==> Negatives(ts[k]) > 1)
    && (found ==>
          && jmin < n && Negatives(ts[jmin]) <= 1
          && (forall k :: 0 <= k < n && Negatives(ts[k]) <= 1 ==> MinGain(ts[k]) <= MinGain(ts[jmin]))
          && (forall k :: 0 <= k < jmin && Negatives(ts[k]) <= 1 ==> MinGain(ts[k]) < MinGain(ts[jmin])))
  }

  ghost predicate NoWinner(ts: seq<Triple>, is2D: bool) {
    forall k :: 0 <= k < |ts| ==> !Encloses(ts[k], is2D) && Negatives(ts[k]) > 1
  }

  /** There is a winner unless every triplet has two negative gains or more, and just one. */
  lemma WinnerUnique(ts: seq<Triple>, is2D: bool, i: nat, j: nat)
    requires Wins(ts, |ts|, is2D, i) && Wins(ts, |ts|, is2D, j)
    ensures i == j && !NoWinner(ts, is2D)
  {}

  /** What winning means gain by gain: with enclosing triplets around, the first of them wins; with
      none, no candidate has a larger least gain, and no earlier one an equal one. */
  lemma WinnerMeans(ts: seq<Triple>, is2D: bool, j: nat, k: nat)
    requires Wins(ts, |ts|, is2D, j) && k < |ts|
    ensures j < |ts| && !(ts[j].g1 < 0.0 && ts[j].g2 < 0.0)
    ensures ts[k].g1 >= 0.0 && ts[k].g2 >= 0.0 && (is2D || ts[k].g3 >= 0.0) ==>
      j <= k && ts[j].g1 >= 0.0 && ts[j].g2 >= 0.0 && (is2D || ts[j].g3 >= 0.0)
    ensures !(ts[j].g1 >= 0.0 && ts[j].g2 >= 0.0 && (is2D || ts[j].g3 >= 0.0)) && Negatives(ts[k]) <= 1 ==>
      Negatives(ts[j]) <= 1 && (MinGain(ts[k]) < MinGain(ts[j]) || (MinGain(ts[k]) == MinGain(ts[j]) && j <= k))
  {}

  /** Without a winner every triplet has two negative gains. */
  lemma NoWinnerMeans(ts: seq<Triple>, is2D: bool)
    ensures NoWinner(ts, is2D) <==> forall k :: 0 <= k < |ts| ==>
      !(ts[k].g1 >= 0.0 && ts[k].g2 >= 0.0 && (is2D || ts[k].g3 >= 0.0)) && Negatives(ts[k]) >= 2
  {}

  lemma FirstEnclosing(ts: seq<Triple>, j: nat, is2D: bool)
    requires j < |ts| && Encloses(ts[j], is2D) && forall k :: 0 <= k < j ==> !Encloses(ts[k], is2D)
    ensures Wins(ts, |ts|, is2D, j) && !NoWinner(ts, is2D)
  {}

  // One more triplet: it takes over if its least gain is larger than the best so far.
  lemma SearchStep(ts: seq<Triple>, j: nat, is2D: bool, found: bool, jmin: nat)
    requires j < |ts| && Searched(ts, j, is2D, found, jmin) && !Encloses(ts[j], is2D)
    ensures Negatives(ts[j]) <= 1 && (!found || MinGain(ts[j]) > MinGain(ts[jmin])) ==>
      Searched(ts, j + 1, is2D, true, j)
    ensures !(Negatives(ts[j]) <= 1 && (!found || MinGain(ts[j]) > MinGain(ts[jmin]))) ==>
      Searched(ts, j + 1, is2D, found, jmin)
  {
    hide Encloses, Negatives, MinGain;
  }

  lemma SearchEnds(ts: seq<Triple>, is2D: bool, found: bool, jmin: nat)
    requires Searched(ts, |ts|, is2D, found, jmin)
    ensures found ==> Wins(ts, |ts|, is2D, jmin)
    ensures found <==> !NoWinner(ts, is2D)
  {
    hide Encloses, Negatives, MinGain;
  }

  function Zeros(n: nat): (s: seq<real>)
    ensures |s| == n && forall i :: 0 <= i < n ==> s[i] == 0.0
  {
    seq(n, _ => 0.0)
  }

  // ---- sums over all loudspeakers ----

  /** The vector sum of the loudspeaker directions, weighted by their gains. */
  function Panned(gain: seq<real>, dir: seq<XYZ>): XYZ
    requires |gain| == |dir|
  {
    if gain == [] then ORIGIN
    else
      var n := |gain| - 1;
      Plus(Panned(gain[..n], dir[..n]), Stretch(gain[n], dir[n]))
  }

  lemma {:induction false} PannedSilence(gain: seq<real>, dir: seq<XYZ>)
    requires |gain| == |dir| && forall i :: 0 <= i < |gain| ==> gain[i] == 0.0
    ensures Panned(gain, dir) == ORIGIN
  {
    hide Plus, Stretch;
    if gain != [] {
      var n := |gain| - 1;
      PannedSilence(gain[..n], dir[..n]);
      StretchZero(dir[n]);
      PlusLaws(ORIGIN, ORIGIN, ORIGIN);
    }
  }

  // Giving a silent loudspeaker a gain adds its direction.
  lemma {:induction false} PannedUpdate(gain: seq<real>, dir: seq<XYZ>, i: nat, c: real)
    requires |gain| == |dir| && i < |gain| && gain[i] == 0.0
    ensures Panned(gain[i := c], dir) == Plus(Panned(gain, dir), Stretch(c, dir[i]))
  {
    hide Plus, Stretch;
    var n, h := |gain| - 1, gain[i := c];
    if i == n {
      assert h[..n] == gain[..n];
      StretchZero(dir[n]);
      PlusLaws(ORIGIN, Panned(gain[..n], dir[..n]), ORIGIN);
      PlusLaws(Panned(gain[..n], dir[..n]), ORIGIN, ORIGIN);
    } else {
      assert h[..n] == gain[..n][i := c];
      PannedUpdate(gain[..n], dir[..n], i, c);
      var p, s, t := Panned(gain[..n], dir[..n]), Stretch(c, dir[i]), Stretch(gain[n], dir[n]);
      PlusLaws(p, s, t);
      PlusLaws(s, t, p);
      PlusLaws(p, t, s);
    }
  }

  lemma PannedPair(zero: seq<real>, dir: seq<XYZ>, i: nat, j: nat, t: Triple)
    requires |zero| == |dir| && (forall l :: 0 <= l < |zero| ==> zero[l] == 0.0)
    requires i < |dir| && j < |dir| && i != j
    ensures Panned(zero[i := t.g1][j := t.g2], dir) == Plus(Stretch(t.g1, dir[i]), Stretch(t.g2, dir[j]))
  {
    hide Plus, Stretch, Panned;
    PannedSilence(zero, dir);
    PannedUpdate(zero, dir, i, t.g1);
    PannedUpdate(zero[i := t.g1], dir, j, t.g2);
    PlusLaws(ORIGIN, Stretch(t.g1, dir[i]), ORIGIN);
    PlusLaws(Stretch(t.g1, dir[i]), ORIGIN, ORIGIN);
  }

  lemma PannedTriple(zero: seq<real>, dir: seq<XYZ>, i: nat, j: nat, k: nat, t: Triple)
    requires |zero| == |dir| && (forall l :: 0 <= l < |zero| ==> zero[l] == 0.0)
    requires i < |dir| && j < |dir| && k < |dir| && i != j && j != k && i != k
    ensures Panned(zero[i := t.g1][j := t.g2][k := t.g3], dir) == Mixture(t, dir[i], dir[j], dir[k])
  {
    hide Plus, Stretch, Panned;
    PannedPair(zero, dir, i, j, t);
    PannedUpdate(zero[i := t.g1][j := t.g2], dir, k, t.g3);
  }

  // ---- rerouting ----

  function Rerouted(gain: seq<real>, R: seq<seq<real>>, numReg: nat, i: nat, m: nat): real
    requires numReg + |R| == |gain| && m <= |R| && i < numReg
    requires forall j :: 0 <= j < |R| ==> |R[j]| == numReg
  {
    if m == 0 then gain[i] else Rerouted(gain, R, numReg, i, m - 1) + R[m - 1][i] * gain[numReg + m - 1]
  }

  /** What virtual loudspeaker j hands to regular loudspeaker i. */
  function ShareTerm(gain: seq<real>, R: seq<seq<real>>, numReg: nat, i: nat): int -> real
    requires numReg + |R| == |gain| && i < numReg
    requires forall j :: 0 <= j < |R| ==> |R[j]| == numReg
  {
    j => if 0 <= j < |R| then R[j][i] * gain[numReg + j] else 0.0
  }

  /** A regular loudspeaker ends with its own gain and the sum of what it is handed. */
  lemma {:induction false} ReroutedIs(gain: seq<real>, R: seq<seq<real>>, numReg: nat, i: nat, m: nat)
    requires numReg + |R| == |gain| && m <= |R| && i < numReg
    requires forall j :: 0 <= j < |R| ==> |R[j]| == numReg
    ensures Rerouted(gain, R, numReg, i, m) == gain[i] + Sum(m, ShareTerm(gain, R, numReg, i))
  {
    if m > 0 { ReroutedIs(gain, R, numReg, i, m - 1); }
  }

  function ReroutedTerm(gain: seq<real>, R: seq<seq<real>>, numReg: nat, m: nat): int -> real
    requires numReg + |R| == |gain| && m <= |R|
    requires forall j :: 0 <= j < |R| ==> |R[j]| == numReg
  {
    i => if 0 <= i < numReg then Rerouted(gain, R, numReg, i, m) else 0.0
  }

  function GainTerm(gain: seq<real>): int -> real { i => if 0 <= i < |gain| then gain[i] else 0.0 }

  function RowTerm(R: seq<seq<real>>, j: nat, numReg: nat): int -> real
    requires j < |R| && |R[j]| == numReg
  {
    i => if 0 <= i < numReg then R[j][i] else 0.0
  }

  // What the virtual loudspeakers with index below m hand over.
  function HandedOver(gain: seq<real>, R: seq<seq<real>>, numReg: nat, m: nat): real
    requires numReg + |R| == |gain| && m <= |R|
    requires forall j :: 0 <= j < |R| ==> |R[j]| == numReg
  {
    if m == 0 then 0.0
    else HandedOver(gain, R, numReg, m - 1) + Sum(numReg, RowTerm(R, m - 1, numReg)) * gain[numReg + m - 1]
  }

  /** Conservation: the regular loudspeakers gain exactly what the virtual ones hand over, each
      its own gain times the sum of its rerouting coefficients. */
  lemma {:induction false} ReroutingConserves(gain: seq<real>, R: seq<seq<real>>, numReg: nat, m: nat)
    requires numReg + |R| == |gain| && m <= |R|
    requires forall j :: 0 <= j < |R| ==> |R[j]| == numReg
    ensures Sum(numReg, ReroutedTerm(gain, R, numReg, m)) ==
            Sum(numReg, GainTerm(gain)) + HandedOver(gain, R, numReg, m)
  {
    hide Sum, ReroutedTerm, RowTerm;
    if m == 0 {
      NothingRerouted(gain, R, numReg);
    } else {
      ReroutingConserves(gain, R, numReg, m - 1);
      var v, f, g := gain[numReg + m - 1], ReroutedTerm(gain, R, numReg, m - 1), RowTerm(R, m - 1, numReg);
      ReroutedStep(gain, R, numReg, m);
      SumLinear(numReg, 1.0, f, v, g, ReroutedTerm(gain, R, numReg, m));
    }
  }

  lemma NothingRerouted(gain: seq<real>, R: seq<seq<real>>, numReg: nat)
    requires numReg + |R| == |gain|
    requires forall j :: 0 <= j < |R| ==> |R[j]| == numReg
    ensures Sum(numReg, ReroutedTerm(gain, R, numReg, 0)) == Sum(numReg, GainTerm(gain))
  {
    SumCongr(numReg, ReroutedTerm(gain, R, numReg, 0), GainTerm(gain));
  }

  lemma ReroutedStep(gain: seq<real>, R: seq<seq<real>>, numReg: nat, m: nat)
    requires numReg + |R| == |gain| && 0 < m <= |R|
    requires forall j :: 0 <= j < |R| ==> |R[j]| == numReg
    ensures forall i :: 0 <= i < numReg ==>
      ReroutedTerm(gain, R, numReg, m)(i) ==
        1.0 * ReroutedTerm(gain, R, numReg, m - 1)(i) + gain[numReg + m - 1] * RowTerm(R, m - 1, numReg)(i)
  {}

  // ---- the panner ----

  datatype Triplet = Triplet(l1: nat, l2: nat, l3: nat)

  /** In the plane the third gain vanishes. */
  lemma PlanarGain(a: XYZ, b: XYZ, c: XYZ, v: XYZ)
    requires a.z == 0.0 && b.z == 0.0 && v.z == 0.0
    ensures TripletGains(InverseRow(a, b, c), v).g3 == 0.0
  {
    hide Det, Factor, InverseRow, TripletGains;
    GainsAreCofactors(a, b, c, v);
    FlatCross(a.x, a.y, b.x, b.y);
    assert Cofactors(a, b, c, v).g3 == 0.0;
  }

  lemma FlatCross(ax: real, ay: real, bx: real, b2: real)
    ensures Cross(XYZ(ax, ay, 0.0), XYZ(bx, b2, 0.0)) == XYZ(0.0, 0.0, ax * b2 - ay * bx)
  {}

  class VbapPanner {
    const positions: seq<XYZ>
    const triplets: seq<Triplet>
    const rerouting: seq<seq<real>>
    const numRegLoudspeakers: nat
    const is2D: bool
    const root: real -> real
    const invMatrix: array2<real>
    const gain: array<real>
    var listenerPos: XYZ

    ghost predicate Shape() {
      && |positions| == numRegLoudspeakers + |rerouting| == gain.Length
      && (forall j :: 0 <= j < |rerouting| ==> |rerouting[j]| == numRegLoudspeakers)
      && (forall i :: 0 <= i < |triplets| ==>
            triplets[i].l1 < |positions| && triplets[i].l2 < |positions| && (is2D || triplets[i].l3 < |positions|))
      && invMatrix.Length0 == |triplets| && invMatrix.Length1 == 9
    }

    /** The direction of a loudspeaker from the listener. */
    function Dir(i: nat): XYZ
      requires i < |positions|
      reads this`listenerPos
    {
      Normalised(Minus(positions[i], listenerPos), root)
    }

    /** The third direction of a triplet; for an array in the plane it comes from the point above
        the origin. */
    function Third(t: Triplet): XYZ
      requires is2D || t.l3 < |positions|
      reads this`listenerPos
    {
      if is2D then Normalised(Minus(XYZ(0.0, 0.0, 1.0), listenerPos), root) else Dir(t.l3)
    }

    ghost function Dirs(): (d: seq<XYZ>)
      reads this`listenerPos
      ensures |d| == |positions| && forall i :: 0 <= i < |d| ==> d[i] == Dir(i)
    {
      var listener := listenerPos;
      seq(|positions|, i requires 0 <= i < |positions| => Normalised(Minus(positions[i], listener), root))
    }

    function Inverse(t: Triplet): (inv: seq<real>)
      requires t.l1 < |positions| && t.l2 < |positions| && (is2D || t.l3 < |positions|)
      reads this`listenerPos
      ensures |inv| == 9
    {
      InverseRow(Dir(t.l1), Dir(t.l2), Third(t))
    }

    ghost function TripletDet(j: nat): real
      requires Shape() && j < |triplets|
      reads this`listenerPos
    {
      Det(Dir(triplets[j].l1), Dir(triplets[j].l2), Third(triplets[j]))
    }

    /** The table holds the inverse of every triplet for the present listener position. */
    ghost predicate Valid()
      reads this`listenerPos, invMatrix
    {
      Shape() && forall i, c :: 0 <= i < |triplets| && 0 <= c < 9 ==> invMatrix[i, c] == Inverse(triplets[i])[c]
    }

    constructor (lsPositions: seq<XYZ>, lsTriplets: seq<Triplet>, lsRerouting: seq<seq<real>>, numReg: nat,
                 planar: bool, squareRoot: real -> real, listener: XYZ)
      requires |lsPositions| == numReg + |lsRerouting|
      requires forall j :: 0 <= j < |lsRerouting| ==> |lsRerouting[j]| == numReg
      requires forall i :: 0 <= i < |lsTriplets| ==>
        lsTriplets[i].l1 < |lsPositions| && lsTriplets[i].l2 < |lsPositions|
          && (planar || lsTriplets[i].l3 < |lsPositions|)
      ensures Valid() && fresh(invMatrix) && fresh(gain)
      ensures positions == lsPositions && triplets == lsTriplets && rerouting == lsRerouting && is2D == planar
      ensures numRegLoudspeakers == numReg && root == squareRoot && listenerPos == listener
    {
      positions, triplets, rerouting, numRegLoudspeakers := lsPositions, lsTriplets, lsRerouting, numReg;
      is2D, root, listenerPos := planar, squareRoot, listener;
      invMatrix := new real[|lsTriplets|, 9];
      gain := new real[|lsPositions|];
      new;
      CalcInvMatrices();
    }

    /** setListenerPosition */
    method SetListenerPosition(listener: XYZ)
      requires Shape()
      modifies this`listenerPos, invMatrix
      ensures Valid() && listenerPos == listener
    {
      listenerPos := listener;
      CalcInvMatrices();
    }

    /** calcInvMatrices */
    method CalcInvMatrices()
      requires Shape()
      modifies invMatrix
      ensures Valid()
    {
      hide InverseRow, Normalised;
      for i := 0 to |triplets|
        invariant forall k, c :: 0 <= k < i && 0 <= c < 9 ==> invMatrix[k, c] == Inverse(triplets[k])[c]
      {
        var inv := Inverse(triplets[i]);
        for c := 0 to 9
          invariant forall k, x :: 0 <= k < i && 0 <= x < 9 ==> invMatrix[k, x] == Inverse(triplets[k])[x]
          invariant forall x :: 0 <= x < c ==> invMatrix[i, x] == inv[x]
        {
          invMatrix[i, c] := inv[c];
        }
      }
    }

    /** The source as the search sees it: relative to the listener unless it is a plane wave, and
        in the plane for a planar array. */
    function Relative(pos: XYZ, planeWave: bool): XYZ
      reads this`listenerPos
    {
      var v := if planeWave then pos else Minus(pos, listenerPos);
      if is2D then XYZ(v.x, v.y, 0.0) else v
    }

    /** The gains every triplet would get. */
    ghost function AllGains(v: XYZ): (ts: seq<Triple>)
      requires Shape()
      reads this
      ensures |ts| == |triplets| && forall j :: 0 <= j < |ts| ==> ts[j] == TripletGains(Inverse(triplets[j]), v)
    {
      seq(|triplets|, j requires Shape() && 0 <= j < |triplets| reads this => TripletGains(Inverse(triplets[j]), v))
    }

    /** The gain vector with the three gains of the winning triplet, two for a planar array. */
    ghost function Chosen(t: Triplet, g: Triple): (s: seq<real>)
      requires Shape() && t.l1 < |positions| && t.l2 < |positions| && (is2D || t.l3 < |positions|)
      ensures |s| == |positions|
    {
      var two := Zeros(|positions|)[t.l1 := g.g1][t.l2 := g.g2];
      if is2D then two else two[t.l3 := g.g3]
    }

    /** calcPlainVBAP; false stands for the exception. jmin is the triplet it settles on. */
    method CalcPlainVbap(pos: XYZ, planeWave: bool) returns (ok: bool, ghost jmin: nat)
      requires Valid()
      modifies gain
      ensures ok <==> !NoWinner(AllGains(Relative(pos, planeWave)), is2D)
      ensures ok ==> jmin < |triplets| && Wins(AllGains(Relative(pos, planeWave)), |triplets|, is2D, jmin)
      ensures gain[..] == if ok then Chosen(triplets[jmin], AllGains(Relative(pos, planeWave))[jmin])
        else Zeros(|positions|)
      ensures ok && TripletDet(jmin) != 0.0 && !is2D ==>
        if planeWave then Panned(gain[..], Dirs()) == pos else Plus(listenerPos, Panned(gain[..], Dirs())) == pos
      ensures ok && TripletDet(jmin) != 0.0 && Level(triplets[jmin]) ==>
        var image := if planeWave then Panned(gain[..], Dirs()) else Plus(listenerPos, Panned(gain[..], Dirs()));
        image.x == pos.x && image.y == pos.y
    {
      hide InverseRow, Normalised, RowDot, Wins, Searched, NoWinner, Encloses, Negatives;
      ZeroGains();
      var v := Relative(pos, planeWave);
      ghost var ts := AllGains(v);
      var winner, found, t := Search(v);
      ok, jmin := found, winner;
      if !found { return; }
      var triplet := triplets[winner];
      gain[triplet.l1] := t.g1;
      gain[triplet.l2] := t.g2;
      if !is2D { gain[triplet.l3] := t.g3; }
      ChosenPoints(pos, planeWave, winner);
    }

    /** Both loudspeakers of a triplet of a planar array lie at the height of the listener. */
    ghost predicate Level(t: Triplet)
      requires t.l1 < |positions| && t.l2 < |positions|
      reads this`listenerPos
    {
      is2D && Dir(t.l1).z == 0.0 && Dir(t.l2).z == 0.0
    }

    /** The gains lead back to the position asked for: from the listener to a point source, or in the
        direction of a plane wave. */
    lemma ChosenPoints(pos: XYZ, planeWave: bool, j: nat)
      requires Shape() && j < |triplets|
      ensures var g := Chosen(triplets[j], AllGains(Relative(pos, planeWave))[j]);
        && (TripletDet(j) != 0.0 && !is2D ==>
              if planeWave then Panned(g, Dirs()) == pos else Plus(listenerPos, Panned(g, Dirs())) == pos)
        && (TripletDet(j) != 0.0 && Level(triplets[j]) ==>
              var image := if planeWave then Panned(g, Dirs()) else Plus(listenerPos, Panned(g, Dirs()));
              image.x == pos.x && image.y == pos.y)
    {
      hide TripletDet, AllGains, Chosen, Panned, Dirs, Dir;
      MinusPlus(pos, listenerPos);
      if TripletDet(j) != 0.0 && (!is2D || Level(triplets[j])) { PlainPans(Relative(pos, planeWave), j); }
    }

    /** Where a loudspeaker is: with a true square root, at some distance d from the listener in its
        direction, unless it is nearly at the listener's place. */
    lemma SpeakerIsThere(i: nat) returns (d: real)
      requires i < |positions| && IsRoot(root)
      ensures d >= EPSILON ==> Plus(listenerPos, Stretch(d, Dir(i))) == positions[i] && DotXYZ(Dir(i), Dir(i)) == 1.0
      ensures d >= 0.0 && (d < EPSILON ==> Plus(listenerPos, Dir(i)) == positions[i])
    {
      hide Normalised, Stretch, DotXYZ, IsRoot;
      d := NormalisedPoints(Minus(positions[i], listenerPos), root);
      MinusPlus(positions[i], listenerPos);
    }

    method ZeroGains()
      modifies gain
      ensures gain[..] == Zeros(gain.Length)
    {
      for i := 0 to gain.Length
        invariant forall k :: 0 <= k < i ==> gain[k] == 0.0
      {
        gain[i] := 0.0;
      }
    }

    // The loop over the triplets, left early at the first one that encloses the source.
    method Search(v: XYZ) returns (jmin: nat, found: bool, best: Triple)
      requires Valid()
      ensures found <==> !NoWinner(AllGains(v), is2D)
      ensures found ==> jmin < |triplets| && Wins(AllGains(v), |triplets|, is2D, jmin) && best == AllGains(v)[jmin]
    {
      hide InverseRow, Normalised, RowDot, Encloses, Negatives;
      ghost var ts := AllGains(v);
      jmin, found, best := 0, false, Triple(0.0, 0.0, 0.0);
      var gmin := 0.0;
      for j := 0 to |triplets|
        invariant Searched(ts, j, is2D, found, jmin)
        invariant found ==> best == ts[jmin] && gmin == MinGain(best)
      {
        var t := TripletGains([invMatrix[j, 0], invMatrix[j, 1], invMatrix[j, 2], invMatrix[j, 3], invMatrix[j, 4],
                               invMatrix[j, 5], invMatrix[j, 6], invMatrix[j, 7], invMatrix[j, 8]], v);
        RowRead(j);
        assert t == ts[j];
        if Encloses(t, is2D) {
          FirstEnclosing(ts, j, is2D);
          return j, true, t;
        }
        SearchStep(ts, j, is2D, found, jmin);
        if Negatives(t) <= 1 && (!found || (t.g1 > gmin && t.g2 > gmin && t.g3 > gmin)) {
          jmin, found, best := j, true, t;
          gmin := t.g1;
          if t.g2 < gmin { gmin := t.g2; }
          if t.g3 < gmin { gmin := t.g3; }
        }
      }
      SearchEnds(ts, is2D, found, jmin);
    }

    lemma RowRead(j: nat)
      requires Valid() && j < |triplets|
      ensures [invMatrix[j, 0], invMatrix[j, 1], invMatrix[j, 2], invMatrix[j, 3], invMatrix[j, 4],
               invMatrix[j, 5], invMatrix[j, 6], invMatrix[j, 7], invMatrix[j, 8]] == Inverse(triplets[j])
    {
      hide InverseRow, Normalised;
    }

    /** What the winner's gains mean. In space, unless the triplet is degenerate, the loudspeaker
        directions weighted by their gains add up to the source vector; in the plane they do if
        both loudspeakers lie at the height of the listener. */
    lemma PlainPans(v: XYZ, j: nat)
      requires Shape() && j < |triplets| && TripletDet(j) != 0.0
      requires is2D ==> v.z == 0.0 && Dir(triplets[j].l1).z == 0.0 && Dir(triplets[j].l2).z == 0.0
      ensures Panned(Chosen(triplets[j], AllGains(v)[j]), Dirs()) == v
    {
      hide InverseRow, Normalised, TripletGains, Det, Panned, Stretch, Plus;
      var t, g := triplets[j], AllGains(v)[j];
      var a, b, c := Dir(t.l1), Dir(t.l2), Third(t);
      DetRepeated(a, b);
      DetRepeated(a, c);
      TripletReconstructs(a, b, c, v);
      if is2D {
        PlanarGain(a, b, c, v);
        PannedPair(Zeros(|positions|), Dirs(), t.l1, t.l2, g);
        StretchZero(c);
        PlusLaws(Plus(Stretch(g.g1, a), Stretch(g.g2, b)), ORIGIN, ORIGIN);
        PlusLaws(ORIGIN, Plus(Stretch(g.g1, a), Stretch(g.g2, b)), ORIGIN);
      } else {
        DetRepeated(b, a);
        PannedTriple(Zeros(|positions|), Dirs(), t.l1, t.l2, t.l3, g);
      }
    }

    /** The sign of the gains: none is negative if the triplet encloses the source, and at most
        one is otherwise. */
    lemma PlainSigns(v: XYZ, j: nat)
      requires Shape() && Wins(AllGains(v), |triplets|, is2D, j)
      ensures Encloses(AllGains(v)[j], is2D) ==>
        forall i :: 0 <= i < |positions| ==> Chosen(triplets[j], AllGains(v)[j])[i] >= 0.0
      ensures forall i, k :: 0 <= i < k < |positions| ==>
        !(Chosen(triplets[j], AllGains(v)[j])[i] < 0.0 && Chosen(triplets[j], AllGains(v)[j])[k] < 0.0)
    {
      hide InverseRow, Normalised, RowDot;
    }

    /** A triplet of distinct loudspeakers encloses the source if and only if it gives no negative
        gain. */
    lemma EnclosesIff(t: Triplet, g: Triple)
      requires Shape() && t.l1 < |positions| && t.l2 < |positions| && (is2D || t.l3 < |positions|)
      requires t.l1 != t.l2 && (is2D || (t.l1 != t.l3 && t.l2 != t.l3))
      ensures Encloses(g, is2D) <==> forall i :: 0 <= i < |positions| ==> Chosen(t, g)[i] >= 0.0
    {
      var s := Chosen(t, g);
      assert s[t.l1] == g.g1 && s[t.l2] == g.g2 && (!is2D ==> s[t.l3] == g.g3);
    }

    /** The third direction of a triplet of a planar array leads to the point one above the origin. */
    lemma ThirdIsAbove(t: Triplet) returns (d: real)
      requires is2D && IsRoot(root)
      ensures d >= EPSILON ==> Plus(listenerPos, Stretch(d, Third(t))) == XYZ(0.0, 0.0, 1.0)
      ensures d >= 0.0 && (d < EPSILON ==> Plus(listenerPos, Third(t)) == XYZ(0.0, 0.0, 1.0))
    {
      hide Normalised, Stretch, DotXYZ, IsRoot;
      d := NormalisedPoints(Minus(XYZ(0.0, 0.0, 1.0), listenerPos), root);
      MinusPlus(XYZ(0.0, 0.0, 1.0), listenerPos);
    }

    /** applyRerouting: every regular loudspeaker adds what the virtual ones hand over to it. */
    method ApplyRerouting()
      requires Shape()
      modifies gain
      ensures forall i :: 0 <= i < numRegLoudspeakers ==>
        gain[i] == Rerouted(old(gain[..]), rerouting, numRegLoudspeakers, i, |rerouting|)
          == old(gain[i]) + Sum(|rerouting|, ShareTerm(old(gain[..]), rerouting, numRegLoudspeakers, i))
      ensures forall i :: numRegLoudspeakers <= i < gain.Length ==> gain[i] == old(gain[i])
    {
      ghost var was := gain[..];
      for i := 0 to numRegLoudspeakers
        invariant forall k :: 0 <= k < i ==> gain[k] == Rerouted(was, rerouting, numRegLoudspeakers, k, |rerouting|)
        invariant forall k :: i <= k < gain.Length ==> gain[k] == was[k]
      {
        for j := 0 to |rerouting|
          invariant gain[i] == Rerouted(was, rerouting, numRegLoudspeakers, i, j)
          invariant forall k :: 0 <= k < i ==> gain[k] == Rerouted(was, rerouting, numRegLoudspeakers, k, |rerouting|)
          invariant forall k :: i < k < gain.Length ==> gain[k] == was[k]
        {
          gain[i] := gain[i] + rerouting[j][i] * gain[numRegLoudspeakers + j];
        }
      }
      forall i | 0 <= i < numRegLoudspeakers
        ensures gain[i] == was[i] + Sum(|rerouting|, ShareTerm(was, rerouting, numRegLoudspeakers, i))
      {
        ReroutedIs(was, rerouting, numRegLoudspeakers, i, |rerouting|);
      }
    }

    /** calculateGainsUnNormalised */
    method CalculateGainsUnNormalised(pos: XYZ, planeWave: bool, gains: array<real>) returns (ok: bool, ghost jmin: nat)
      requires Valid() && gains != gain && gains != invMatrix as object && gains.Length >= numRegLoudspeakers
      modifies gain, gains
      ensures Valid()
      ensures ok <==> !NoWinner(AllGains(Relative(pos, planeWave)), is2D)
      ensures ok ==> jmin < |triplets| && Wins(AllGains(Relative(pos, planeWave)), |triplets|, is2D, jmin)
      ensures ok ==> forall i :: 0 <= i < numRegLoudspeakers ==>
        var g := Chosen(triplets[jmin], AllGains(Relative(pos, planeWave))[jmin]);
        gains[i] == Rerouted(g, rerouting, numRegLoudspeakers, i, |rerouting|)
          == g[i] + Sum(|rerouting|, ShareTerm(g, rerouting, numRegLoudspeakers, i))
      ensures ok && TripletDet(jmin) != 0.0 && !is2D ==>
        var image := Panned(Chosen(triplets[jmin], AllGains(Relative(pos, planeWave))[jmin]), Dirs());
        if planeWave then image == pos else Plus(listenerPos, image) == pos
    {
      hide InverseRow, Normalised, RowDot, Wins, NoWinner, Rerouted, ShareTerm, Sum, Panned, Det, Plus, Stretch,
        TripletGains, Minus;
      ok, jmin := CalcPlainVbap(pos, planeWave);
      if !ok { return; }
      ghost var plain := gain[..];
      ApplyRerouting();
      ghost var rerouted := gain[..];
      for i := 0 to numRegLoudspeakers
        invariant Valid()
        invariant gain[..] == rerouted
        invariant forall k :: 0 <= k < i ==> gains[k] == gain[k]
      {
        gains[i] := gain[i];
      }
    }
  }
}
