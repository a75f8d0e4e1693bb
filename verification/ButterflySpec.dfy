/**
 What one butterfly pass of kiss_fft has to do to the p * m cells it works on, and the algebra
 that reduces a column of it to powers of a p-th root of unity.
 */
module ButterflySpec {
  import opened Complex
  import opened ComplexSums
  import opened Arithmetic
  import opened Dft

  // Position of row q of column u in a block of rows of m cells that starts at o.
  function Cell(o: int, u: int, q: int, m: int): int {
    o + u + q * m
  }

  /** B is A with the first u columns of the block at o recombined, and nothing else changed. */
  ghost predicate Recombined(A: seq<Cx>, B: seq<Cx>, o: nat, m: nat, p: nat, tw: seq<Cx>, ts: nat, u: nat)
    requires |tw| > 0 && m > 0
  {
    && |B| == |A|
    && o + p * m <= |A|
    && forall i {:trigger B[i]} :: 0 <= i < |A| ==>
      B[i] == if o <= i < o + p * m && (i - o) % m < u
              then Bfly(A[o..o + p * m], m, p, tw, ts, i - o)
              else A[i]
  }

  /** The cells a butterfly reads for column u still hold their old values. */
  lemma ColumnInput(A: seq<Cx>, B: seq<Cx>, o: nat, m: nat, p: nat, tw: seq<Cx>, ts: nat, u: nat, q: nat)
    requires |tw| > 0 && m > 0 && u < m && q < p
    requires Recombined(A, B, o, m, p, tw, ts, u)
    ensures o <= Cell(o, u, q, m) < o + p * m
    ensures B[Cell(o, u, q, m)] == A[Cell(o, u, q, m)] == At(A[o..o + p * m], u + q * m)
  {
    hide Bfly;
    Position(u, q, m, p);
  }

  /** Writing the recombined values into column u completes it. */
  lemma ColumnStep(A: seq<Cx>, B: seq<Cx>, C: seq<Cx>, o: nat, m: nat, p: nat, tw: seq<Cx>, ts: nat, u: nat)
    requires |tw| > 0 && m > 0 && u < m
    requires Recombined(A, B, o, m, p, tw, ts, u)
    requires |C| == |B|
    requires forall q :: 0 <= q < p ==>
      0 <= Cell(o, u, q, m) < |C| && C[Cell(o, u, q, m)] == Bfly(A[o..o + p * m], m, p, tw, ts, u + q * m)
    requires forall i :: 0 <= i < |C| && (forall q :: 0 <= q < p ==> i != Cell(o, u, q, m)) ==> C[i] == B[i]
    ensures Recombined(A, C, o, m, p, tw, ts, u + 1)
  {
    hide Bfly;
    forall i | 0 <= i < |A|
      ensures C[i] == if o <= i < o + p * m && (i - o) % m < u + 1
                      then Bfly(A[o..o + p * m], m, p, tw, ts, i - o)
                      else A[i]
    {
      if o <= i < o + p * m {
        var k := i - o;
        Unposition(k, m, p);
        if k % m == u {
          assert i == Cell(o, u, k / m, m);
        } else {
          forall q | 0 <= q < p ensures i != Cell(o, u, q, m) { Position(u, q, m, p); }
        }
      } else {
        forall q | 0 <= q < p ensures i != Cell(o, u, q, m) { Position(u, q, m, p); }
      }
    }
  }

  /** Row q of column u, multiplied by its twiddle factor. */
  function Column(R: seq<Cx>, u: int, m: int, tw: seq<Cx>, ts: int): int -> Cx
    requires |tw| > 0
  {
    q => Mul(At(R, u + q * m), Tw(tw, q * (u * ts)))
  }

  /** The powers of the p-th root of unity that recombine a column. */
  function Root(tw: seq<Cx>, m: int, ts: int, i: int): Cx
    requires |tw| > 0
  {
    Tw(tw, i * (m * ts))
  }

  function ColumnTerm(R: seq<Cx>, u: int, m: int, tw: seq<Cx>, ts: int, q1: int): int -> Cx
    requires |tw| > 0
  {
    q => Mul(Column(R, u, m, tw, ts)(q), Root(tw, m, ts, q * q1))
  }

  lemma BflyColumn(R: seq<Cx>, u: nat, m: nat, p: nat, tw: seq<Cx>, inverse: bool, ts: nat, q1: nat)
    requires |tw| > 0 && Table(tw, inverse)
    requires u < m && q1 < p
    ensures Bfly(R, m, p, tw, ts, u + q1 * m) == Sum(p, ColumnTerm(R, u, m, tw, ts, q1))
  {
    hide Mul, Add, Table, Tw, At;
    var k := u + q1 * m;
    Position(u, q1, m, p);
    forall q | 0 <= q < p ensures BflyTerm(R, u, m, tw, k * ts)(q) == ColumnTerm(R, u, m, tw, ts, q1)(q) {
      TermSplit(R, u, m, tw, inverse, ts, k, q, q1);
    }
    SumCongr(p, BflyTerm(R, u, m, tw, k * ts), ColumnTerm(R, u, m, tw, ts, q1));
  }

  lemma TermSplit(R: seq<Cx>, u: nat, m: nat, tw: seq<Cx>, inverse: bool, ts: nat, k: nat, q: int, q1: nat)
    requires |tw| > 0 && Table(tw, inverse)
    requires k == u + q1 * m
    ensures BflyTerm(R, u, m, tw, k * ts)(q) == ColumnTerm(R, u, m, tw, ts, q1)(q)
  {
    hide Mul, Table, Tw, At;
    var a, b := q * (u * ts), (q * q1) * (m * ts);
    SplitExponent(q, q1, u, m, ts, k);
    TwAdd(tw, inverse, a, b);
    MulAssoc(At(R, u + q * m), Tw(tw, a), Tw(tw, b));
    assert BflyTerm(R, u, m, tw, k * ts)(q) == Mul(At(R, u + q * m), Tw(tw, q * (k * ts)));
    assert Column(R, u, m, tw, ts)(q) == Mul(At(R, u + q * m), Tw(tw, a));
    assert Root(tw, m, ts, q * q1) == Tw(tw, b);
    assert ColumnTerm(R, u, m, tw, ts, q1)(q) == Mul(Column(R, u, m, tw, ts)(q), Root(tw, m, ts, q * q1));
  }

  lemma SplitExponent(q: int, q1: int, u: int, m: int, ts: int, k: int)
    requires k == u + q1 * m
    ensures q * (k * ts) == q * (u * ts) + (q * q1) * (m * ts)
  {
    assert k * ts == u * ts + q1 * (m * ts);
    assert q * (q1 * (m * ts)) == (q * q1) * (m * ts);
  }

  /** The powers of Root(1) form a cyclic group of order p. */
  lemma RootGroup(tw: seq<Cx>, inverse: bool, m: nat, ts: nat, p: nat, i: int, j: int)
    requires |tw| > 0 && Table(tw, inverse)
    requires p > 0 && p * (m * ts) == |tw|
    ensures Mul(Root(tw, m, ts, i), Root(tw, m, ts, j)) == Root(tw, m, ts, i + j)
    ensures Root(tw, m, ts, i + p) == Root(tw, m, ts, i)
    ensures Root(tw, m, ts, 0) == ONE
    ensures Root(tw, m, ts, -i) == Conj(Root(tw, m, ts, i))
  {
    hide Mul, Table, Tw, Conj;
    var s := m * ts;
    TwAdd(tw, inverse, i * s, j * s);
    assert (i + j) * s == i * s + j * s;
    assert (i + p) * s == i * s + 1 * |tw|;
    TwPeriod(tw, i * s, 1);
    TwUnit(tw, inverse, 0);
    TwConj(tw, inverse, i * s);
    assert (-i) * s == -(i * s);
  }

  lemma RootPrimitive(tw: seq<Cx>, inverse: bool, m: nat, ts: nat, p: nat)
    requires |tw| > 0 && Table(tw, inverse)
    requires p > 1 && p * (m * ts) == |tw|
    ensures Root(tw, m, ts, 1) != ONE
  {
    hide Mul, Table, Tw;
    var s := m * ts;
    assert 0 < s < |tw| by { if s <= 0 { MulMono(s, 0, p); } MulMono(2, p, s); }
    DivModUnique(s, 0, s, |tw|);
    TwNotOne(tw, inverse, s);
  }
}
