/**
 The butterfly passes of kiss_fft.c, each recombining in place the p transforms of length m
 that lie one after the other in Fout[o..o + p * m]. All five are proved against the same
 specification, so the hand-written radices agree with the generic pass on every input.
 */
module Butterflies {
  import opened Complex
  import opened ComplexSums
  import opened Arithmetic
  import opened Dft
  import opened ButterflySpec
  import opened Radix

  // A twiddle index of column u is inside the table, so the source needs no reduction there.
  lemma TwIndex(tw: seq<Cx>, u: nat, m: nat, p: nat, ts: nat, q: nat)
    requires |tw| > 0 && ts * (p * m) == |tw| && u < m && q < p
    ensures 0 <= q * (u * ts) < |tw|
    ensures Tw(tw, q * (u * ts)) == tw[q * (u * ts)]
    ensures p * (m * ts) == |tw|
    ensures 0 <= q * (m * ts) < |tw|
    ensures Tw(tw, q * (m * ts)) == tw[q * (m * ts)]
  {
    hide Tw;
    ColumnStride(|tw|, u, m, p, ts);
    var e, s := u * ts, m * ts;
    RowBound(q, p, e, s);
    RowBound(q, p, s, s);
    InTable(tw, q * e);
    InTable(tw, q * s);
  }

  lemma ColumnStride(n: nat, u: nat, m: nat, p: nat, ts: nat)
    requires n > 0 && ts * (p * m) == n && u < m
    ensures p * (m * ts) == n && 0 <= u * ts <= m * ts && 0 < m * ts
  {
    MulCycle(ts, p, m);
    PositiveFactors(p, m * ts);
    MulMono(0, u, ts);
    MulMono(u, m, ts);
  }

  lemma MulCycle(a: int, b: int, c: int)
    ensures a * (b * c) == b * (c * a)
  {}

  lemma RowBound(q: nat, p: nat, e: nat, s: nat)
    requires q < p && e <= s && 0 < s
    ensures 0 <= q * e < p * s
  {
    MulMono(q + 1, p, s);
    OneMoreTime(q, s);
    MulMono(e, s, q);
    MulMono(0, e, q);
  }

  lemma OneMoreTime(q: int, s: int)
    ensures (q + 1) * s == q * s + s
  {}

  lemma InTable(tw: seq<Cx>, e: nat)
    requires e < |tw|
    ensures Tw(tw, e) == tw[e]
  {
    DivModUnique(e, 0, e, |tw|);
  }

  lemma StepColumn(A: seq<Cx>, B: seq<Cx>, C: seq<Cx>, o: nat, m: nat, p: nat, tw: seq<Cx>, inverse: bool, ts: nat,
                   u: nat)
    requires |tw| > 0 && Table(tw, inverse) && m > 0 && u < m
    requires Recombined(A, B, o, m, p, tw, ts, u)
    requires |C| == |B|
    requires forall q :: 0 <= q < p ==>
      0 <= Cell(o, u, q, m) < |C|
      && C[Cell(o, u, q, m)] == Sum(p, ColumnTerm(A[o..o + p * m], u, m, tw, ts, q))
    requires forall i :: 0 <= i < |C| && (forall q :: 0 <= q < p ==> i != Cell(o, u, q, m)) ==> C[i] == B[i]
    ensures Recombined(A, C, o, m, p, tw, ts, u + 1)
  {
    hide Table, Bfly, ColumnTerm, Sum, Cell;
    var R := A[o..o + p * m];
    forall q | 0 <= q < p ensures C[Cell(o, u, q, m)] == Bfly(R, m, p, tw, ts, u + q * m) {
      BflyColumn(R, u, m, p, tw, inverse, ts, q);
    }
    ColumnStep(A, B, C, o, m, p, tw, ts, u);
  }

  // What row q of column u reads, and its twiddled value.
  lemma ReadColumn(A: seq<Cx>, B: seq<Cx>, o: nat, m: nat, p: nat, tw: seq<Cx>, ts: nat, u: nat, q: nat)
    requires |tw| > 0 && m > 0 && u < m && q < p && ts * (p * m) == |tw|
    requires Recombined(A, B, o, m, p, tw, ts, u)
    ensures o <= Cell(o, u, q, m) < o + p * m <= |B| == |A|
    ensures B[Cell(o, u, q, m)] == At(A[o..o + p * m], u + q * m)
    ensures 0 <= q * (u * ts) < |tw|
    ensures Mul(B[Cell(o, u, q, m)], tw[q * (u * ts)]) == Column(A[o..o + p * m], u, m, tw, ts)(q)
  {
    hide Mul, Bfly, Tw, At;
    ColumnInput(A, B, o, m, p, tw, ts, u, q);
    TwIndex(tw, u, m, p, ts, q);
  }

  lemma Untouched(A: seq<Cx>, o: nat, m: nat, p: nat, tw: seq<Cx>, ts: nat)
    requires |tw| > 0 && m > 0 && o + p * m <= |A|
    ensures Recombined(A, A, o, m, p, tw, ts, 0)
  {
    hide Bfly;
  }

  lemma Cells(o: nat, u: nat, m: nat)
    ensures Cell(o, u, 0, m) == o + u && Cell(o, u, 1, m) == o + u + m && Cell(o, u, 2, m) == o + u + 2 * m
    ensures Cell(o, u, 3, m) == o + u + 3 * m && Cell(o, u, 4, m) == o + u + 4 * m
  {}

  lemma Step2(A: seq<Cx>, B: seq<Cx>, C: seq<Cx>, o: nat, m: nat, tw: seq<Cx>, inverse: bool, ts: nat, u: nat)
    requires |tw| > 0 && Table(tw, inverse) && m > 0 && u < m && ts * (2 * m) == |tw|
    requires Recombined(A, B, o, m, 2, tw, ts, u)
    requires |C| == |B| && 0 <= u * ts < |tw|
    requires var s0, s1 := B[o + u], Mul(B[o + u + m], tw[u * ts]);
      C == B[o + u + m := Out2(s0, s1, 1)][o + u := Out2(s0, s1, 0)]
    ensures Recombined(A, C, o, m, 2, tw, ts, u + 1)
  {
    hide Table, Mul, Bfly, Column, ColumnTerm, Recombined, At, Out2, Tw, Sum, Cell;
    Cells(o, u, m);
    ReadColumn(A, B, o, m, 2, tw, ts, u, 0);
    ReadColumn(A, B, o, m, 2, tw, ts, u, 1);
    var R := A[o..o + 2 * m];
    TwIndex(tw, u, m, 2, ts, 1);
    Rows2(R, u, m, tw, inverse, ts, 0);
    Rows2(R, u, m, tw, inverse, ts, 1);
    StepColumn(A, B, C, o, m, 2, tw, inverse, ts, u);
  }

  method Bfly2(Fout: array<Cx>, o: nat, ts: nat, tw: seq<Cx>, m: nat, ghost inverse: bool)
    requires |tw| > 0 && Table(tw, inverse) && m > 0 && ts * (2 * m) == |tw| && o + 2 * m <= Fout.Length
    modifies Fout
    ensures Recombined(old(Fout[..]), Fout[..], o, m, 2, tw, ts, m)
  {
    hide Table, Mul, Add, Sub, Bfly, Tw, Recombined;
    ghost var A := Fout[..];
    Untouched(A, o, m, 2, tw, ts);
    ghost var u := 0;
    var i0, i2, tw1, k := o, o + m, 0, m;
    while k > 0
      invariant 0 <= u <= m && k == m - u
      invariant i0 == o + u && i2 == o + u + m && tw1 == u * ts
      invariant Recombined(A, Fout[..], o, m, 2, tw, ts, u)
    {
      ghost var B := Fout[..];
      TwIndex(tw, u, m, 2, ts, 1);
      var t := Mul(Fout[i2], tw[tw1]);
      tw1 := tw1 + ts;
      Fout[i2] := Sub(Fout[i0], t);
      Fout[i0] := Add(Fout[i0], t);
      Step2(A, B, Fout[..], o, m, tw, inverse, ts, u);
      i2, i0, k := i2 + 1, i0 + 1, k - 1;
      assert (u + 1) * ts == u * ts + ts;
      u := u + 1;
    }
  }

  lemma Step3(A: seq<Cx>, B: seq<Cx>, C: seq<Cx>, o: nat, m: nat, tw: seq<Cx>, inverse: bool, ts: nat, u: nat)
    requires |tw| > 0 && Table(tw, inverse) && m > 0 && u < m && ts * (3 * m) == |tw|
    requires Recombined(A, B, o, m, 3, tw, ts, u)
    requires |C| == |B| && 0 <= u * ts && 2 * (u * ts) < |tw| && 0 <= m * ts < |tw|
    requires var s0, s1, s2 := B[o + u], Mul(B[o + u + m], tw[u * ts]), Mul(B[o + u + 2 * m], tw[2 * (u * ts)]);
      var e := tw[m * ts];
      C == B[o + u := Out3(s0, s1, s2, e, 0)][o + u + m := Out3(s0, s1, s2, e, 1)]
            [o + u + 2 * m := Out3(s0, s1, s2, e, 2)]
    ensures Recombined(A, C, o, m, 3, tw, ts, u + 1)
  {
    hide Table, Mul, Bfly, Column, ColumnTerm, Recombined, At, Out3, Tw, Sum, Cell;
    Cells(o, u, m);
    Values3(A, B, o, m, tw, inverse, ts, u, 0);
    Values3(A, B, o, m, tw, inverse, ts, u, 1);
    Values3(A, B, o, m, tw, inverse, ts, u, 2);
    StepColumn(A, B, C, o, m, 3, tw, inverse, ts, u);
  }

  lemma Values3(A: seq<Cx>, B: seq<Cx>, o: nat, m: nat, tw: seq<Cx>, inverse: bool, ts: nat, u: nat, q: nat)
    requires |tw| > 0 && Table(tw, inverse) && m > 0 && u < m && ts * (3 * m) == |tw| && q < 3
    requires Recombined(A, B, o, m, 3, tw, ts, u)
    ensures 0 <= u * ts && 2 * (u * ts) < |tw| && 0 <= m * ts < |tw|
    ensures o + u + 2 * m < |B| && o + 3 * m <= |A|
    ensures Sum(3, ColumnTerm(A[o..o + 3 * m], u, m, tw, ts, q)) ==
      Out3(B[o + u], Mul(B[o + u + m], tw[u * ts]), Mul(B[o + u + 2 * m], tw[2 * (u * ts)]), tw[m * ts], q)
  {
    hide Table, Mul, Bfly, Column, ColumnTerm, Recombined, At, Out3, Tw, Sum, Cell;
    Cells(o, u, m);
    ReadColumn(A, B, o, m, 3, tw, ts, u, 0);
    ReadColumn(A, B, o, m, 3, tw, ts, u, 1);
    ReadColumn(A, B, o, m, 3, tw, ts, u, 2);
    TwIndex(tw, u, m, 3, ts, 1);
    Rows3(A[o..o + 3 * m], u, m, tw, inverse, ts, q);
  }

  method Bfly3(Fout: array<Cx>, o: nat, ts: nat, tw: seq<Cx>, m: nat, ghost inverse: bool)
    requires |tw| > 0 && Table(tw, inverse) && m > 0 && ts * (3 * m) == |tw| && o + 3 * m <= Fout.Length
    modifies Fout
    ensures Recombined(old(Fout[..]), Fout[..], o, m, 3, tw, ts, m)
  {
    hide Table, Mul, Add, Sub, Scale, Bfly, Tw, Recombined;
    ghost var A := Fout[..];
    Untouched(A, o, m, 3, tw, ts);
    ghost var u := 0;
    TwIndex(tw, 0, m, 3, ts, 1);
    var epi3 := tw[ts * m];
    var i, tw1, tw2, k := o, 0, 0, m;
    while k > 0
      invariant 0 <= u <= m && k == m - u
      invariant i == o + u && tw1 == u * ts && tw2 == 2 * (u * ts)
      invariant Recombined(A, Fout[..], o, m, 3, tw, ts, u)
    {
      ghost var B := Fout[..];
      TwIndex(tw, u, m, 3, ts, 1);
      TwIndex(tw, u, m, 3, ts, 2);
      var s1 := Mul(Fout[i + m], tw[tw1]);
      var s2 := Mul(Fout[i + 2 * m], tw[tw2]);
      var s3 := Add(s1, s2);
      var s0 := Sub(s1, s2);
      tw1 := tw1 + ts;
      tw2 := tw2 + ts * 2;
      Fout[i + m] := Cx(Fout[i].r - s3.r * 0.5, Fout[i].i - s3.i * 0.5);
      s0 := Scale(epi3.i, s0);
      Fout[i] := Add(Fout[i], s3);
      Fout[i + 2 * m] := Cx(Fout[i + m].r + s0.i, Fout[i + m].i - s0.r);
      Fout[i + m] := Cx(Fout[i + m].r - s0.i, Fout[i + m].i + s0.r);
      assert Fout[..] == B[i := Fout[i]][i + m := Fout[i + m]][i + 2 * m := Fout[i + 2 * m]];
      Step3(A, B, Fout[..], o, m, tw, inverse, ts, u);
      i, k := i + 1, k - 1;
      assert (u + 1) * ts == u * ts + ts;
      u := u + 1;
    }
  }

  // Column i with its twiddle factors, after the radix-4 kernel.
  function Turn4(B: seq<Cx>, i: nat, m: nat, w1: Cx, w2: Cx, w3: Cx, inverse: bool): (C: seq<Cx>)
    requires i + 3 * m < |B|
    ensures |C| == |B|
  {
    var s0, s1, s2, s3 := B[i], Mul(B[i + m], w1), Mul(B[i + 2 * m], w2), Mul(B[i + 3 * m], w3);
    B[i := Out4(s0, s1, s2, s3, inverse, 0)][i + m := Out4(s0, s1, s2, s3, inverse, 1)]
      [i + 2 * m := Out4(s0, s1, s2, s3, inverse, 2)][i + 3 * m := Out4(s0, s1, s2, s3, inverse, 3)]
  }

  lemma Step4(A: seq<Cx>, B: seq<Cx>, C: seq<Cx>, o: nat, m: nat, tw: seq<Cx>, inverse: bool, ts: nat, u: nat)
    requires |tw| > 0 && m > 0 && u < m && ts * (4 * m) == |tw|
    requires 0 <= u * ts && 3 * (u * ts) < |tw| && o + 4 * m <= |B|
    requires C == Turn4(B, o + u, m, tw[u * ts], tw[2 * (u * ts)], tw[3 * (u * ts)], inverse)
    requires Table(tw, inverse) && Recombined(A, B, o, m, 4, tw, ts, u)
    ensures Recombined(A, C, o, m, 4, tw, ts, u + 1)
  {
    hide Table, Mul, Bfly, Column, ColumnTerm, Recombined, At, Out4, Tw, Sum, Cell;
    Cells(o, u, m);
    Values4(A, B, o, m, tw, inverse, ts, u, 0);
    Values4(A, B, o, m, tw, inverse, ts, u, 1);
    Values4(A, B, o, m, tw, inverse, ts, u, 2);
    Values4(A, B, o, m, tw, inverse, ts, u, 3);
    StepColumn(A, B, C, o, m, 4, tw, inverse, ts, u);
  }

  lemma Values4(A: seq<Cx>, B: seq<Cx>, o: nat, m: nat, tw: seq<Cx>, inverse: bool, ts: nat, u: nat, q: nat)
    requires |tw| > 0 && Table(tw, inverse) && m > 0 && u < m && ts * (4 * m) == |tw| && q < 4
    requires Recombined(A, B, o, m, 4, tw, ts, u)
    ensures 0 <= u * ts && 3 * (u * ts) < |tw| && o + u + 3 * m < |B| && o + 4 * m <= |A|
    ensures Sum(4, ColumnTerm(A[o..o + 4 * m], u, m, tw, ts, q)) ==
      Out4(B[o + u], Mul(B[o + u + m], tw[u * ts]), Mul(B[o + u + 2 * m], tw[2 * (u * ts)]),
           Mul(B[o + u + 3 * m], tw[3 * (u * ts)]), inverse, q)
  {
    hide Table, Mul, Bfly, Column, ColumnTerm, Recombined, At, Out4, Tw, Sum, Cell;
    Cells(o, u, m);
    ReadColumn(A, B, o, m, 4, tw, ts, u, 0);
    ReadColumn(A, B, o, m, 4, tw, ts, u, 1);
    ReadColumn(A, B, o, m, 4, tw, ts, u, 2);
    ReadColumn(A, B, o, m, 4, tw, ts, u, 3);
    TwIndex(tw, u, m, 4, ts, 1);
    Rows4(A[o..o + 4 * m], u, m, tw, inverse, ts, q);
  }

  // The body of the loop of kf_bfly4.
  method Kernel4(Fout: array<Cx>, i: nat, m: nat, w1: Cx, w2: Cx, w3: Cx, inverse: bool)
    requires m > 0 && i + 3 * m < Fout.Length
    modifies Fout
    ensures Fout[..] == Turn4(old(Fout[..]), i, m, w1, w2, w3, inverse)
  {
    hide Mul, Add, Sub;
    ghost var B := Fout[..];
    var m2, m3 := 2 * m, 3 * m;
    var s0 := Mul(Fout[i + m], w1);
    var s1 := Mul(Fout[i + m2], w2);
    var s2 := Mul(Fout[i + m3], w3);
    var s5 := Sub(Fout[i], s1);
    Fout[i] := Add(Fout[i], s1);
    var s3 := Add(s0, s2);
    var s4 := Sub(s0, s2);
    Fout[i + m2] := Sub(Fout[i], s3);
    Fout[i] := Add(Fout[i], s3);
    if inverse {
      Fout[i + m] := Cx(s5.r - s4.i, s5.i + s4.r);
      Fout[i + m3] := Cx(s5.r + s4.i, s5.i - s4.r);
    } else {
      Fout[i + m] := Cx(s5.r + s4.i, s5.i - s4.r);
      Fout[i + m3] := Cx(s5.r - s4.i, s5.i + s4.r);
    }
    assert Fout[..] == B[i := Fout[i]][i + m := Fout[i + m]][i + m2 := Fout[i + m2]][i + m3 := Fout[i + m3]];
  }

  method Bfly4(Fout: array<Cx>, o: nat, ts: nat, tw: seq<Cx>, m: nat, inverse: bool)
    requires |tw| > 0 && Table(tw, inverse) && m > 0 && ts * (4 * m) == |tw| && o + 4 * m <= Fout.Length
    modifies Fout
    ensures Recombined(old(Fout[..]), Fout[..], o, m, 4, tw, ts, m)
  {
    hide Table, Mul, Add, Sub, Bfly, Tw, Recombined;
    ghost var A := Fout[..];
    Untouched(A, o, m, 4, tw, ts);
    ghost var u := 0;
    var i, tw1, tw2, tw3, k := o, 0, 0, 0, m;
    while k > 0
      invariant 0 <= u <= m && k == m - u
      invariant i == o + u && tw1 == u * ts && tw2 == 2 * (u * ts) && tw3 == 3 * (u * ts)
      invariant Recombined(A, Fout[..], o, m, 4, tw, ts, u)
    {
      ghost var B := Fout[..];
      TwIndex(tw, u, m, 4, ts, 1);
      TwIndex(tw, u, m, 4, ts, 2);
      TwIndex(tw, u, m, 4, ts, 3);
      Kernel4(Fout, i, m, tw[tw1], tw[tw2], tw[tw3], inverse);
      tw1 := tw1 + ts;
      tw2 := tw2 + ts * 2;
      tw3 := tw3 + ts * 3;
      Step4(A, B, Fout[..], o, m, tw, inverse, ts, u);
      i, k := i + 1, k - 1;
      assert (u + 1) * ts == u * ts + ts;
      u := u + 1;
    }
  }

  // Column i with its twiddle factors, after the radix-5 kernel.
  function Turn5(B: seq<Cx>, i: nat, m: nat, w1: Cx, w2: Cx, w3: Cx, w4: Cx, ya: Cx, yb: Cx): (C: seq<Cx>)
    requires i + 4 * m < |B|
    ensures |C| == |B|
  {
    var s0, s1, s2 := B[i], Mul(B[i + m], w1), Mul(B[i + 2 * m], w2);
    var s3, s4 := Mul(B[i + 3 * m], w3), Mul(B[i + 4 * m], w4);
    B[i := Out5(s0, s1, s2, s3, s4, ya, yb, 0)][i + m := Out5(s0, s1, s2, s3, s4, ya, yb, 1)]
      [i + 2 * m := Out5(s0, s1, s2, s3, s4, ya, yb, 2)][i + 3 * m := Out5(s0, s1, s2, s3, s4, ya, yb, 3)]
      [i + 4 * m := Out5(s0, s1, s2, s3, s4, ya, yb, 4)]
  }

  lemma Step5(A: seq<Cx>, B: seq<Cx>, C: seq<Cx>, o: nat, m: nat, tw: seq<Cx>, inverse: bool, ts: nat, u: nat)
    requires |tw| > 0 && m > 0 && u < m && ts * (5 * m) == |tw| && o + 5 * m <= |B|
    requires 0 <= u * ts && 4 * (u * ts) < |tw| && 0 <= m * ts && 2 * (m * ts) < |tw|
    requires C == Turn5(B, o + u, m, tw[u * ts], tw[2 * (u * ts)], tw[3 * (u * ts)], tw[4 * (u * ts)],
                        tw[m * ts], tw[2 * (m * ts)])
    requires Table(tw, inverse) && Recombined(A, B, o, m, 5, tw, ts, u)
    ensures Recombined(A, C, o, m, 5, tw, ts, u + 1)
  {
    hide Table, Mul, Bfly, Column, ColumnTerm, Recombined, At, Out5, Tw, Sum, Cell;
    Cells(o, u, m);
    Values5(A, B, o, m, tw, inverse, ts, u, 0);
    Values5(A, B, o, m, tw, inverse, ts, u, 1);
    Values5(A, B, o, m, tw, inverse, ts, u, 2);
    Values5(A, B, o, m, tw, inverse, ts, u, 3);
    Values5(A, B, o, m, tw, inverse, ts, u, 4);
    StepColumn(A, B, C, o, m, 5, tw, inverse, ts, u);
  }

  lemma Values5(A: seq<Cx>, B: seq<Cx>, o: nat, m: nat, tw: seq<Cx>, inverse: bool, ts: nat, u: nat, q: nat)
    requires |tw| > 0 && Table(tw, inverse) && m > 0 && u < m && ts * (5 * m) == |tw| && q < 5
    requires Recombined(A, B, o, m, 5, tw, ts, u)
    ensures 0 <= u * ts && 4 * (u * ts) < |tw| && 0 <= m * ts && 2 * (m * ts) < |tw|
    ensures o + u + 4 * m < |B| && o + 5 * m <= |A|
    ensures Sum(5, ColumnTerm(A[o..o + 5 * m], u, m, tw, ts, q)) ==
      Out5(B[o + u], Mul(B[o + u + m], tw[u * ts]), Mul(B[o + u + 2 * m], tw[2 * (u * ts)]),
           Mul(B[o + u + 3 * m], tw[3 * (u * ts)]), Mul(B[o + u + 4 * m], tw[4 * (u * ts)]), tw[m * ts],
             tw[2 * (m * ts)], q)
  {
    hide Table, Mul, Bfly, Column, ColumnTerm, Recombined, At, Out5, Tw, Sum, Cell;
    Cells(o, u, m);
    ReadColumn(A, B, o, m, 5, tw, ts, u, 0);
    ReadColumn(A, B, o, m, 5, tw, ts, u, 1);
    ReadColumn(A, B, o, m, 5, tw, ts, u, 2);
    ReadColumn(A, B, o, m, 5, tw, ts, u, 3);
    ReadColumn(A, B, o, m, 5, tw, ts, u, 4);
    TwIndex(tw, u, m, 5, ts, 1);
    TwIndex(tw, u, m, 5, ts, 2);
    Rows5(A[o..o + 5 * m], u, m, tw, inverse, ts, q);
  }

  // The body of the loop of kf_bfly5.
  method Kernel5(Fout: array<Cx>, f0: nat, f1: nat, f2: nat, f3: nat, f4: nat, ghost m: nat,
                 w1: Cx, w2: Cx, w3: Cx, w4: Cx, ya: Cx, yb: Cx)
    requires m > 0 && f1 == f0 + m && f2 == f0 + 2 * m && f3 == f0 + 3 * m && f4 == f0 + 4 * m < Fout.Length
    modifies Fout
    ensures Fout[..] == Turn5(old(Fout[..]), f0, m, w1, w2, w3, w4, ya, yb)
  {
    hide Mul, Add, Sub, SMul;
    ghost var B := Fout[..];
    var s0 := Fout[f0];
    var s1 := Mul(Fout[f1], w1);
    var s2 := Mul(Fout[f2], w2);
    var s3 := Mul(Fout[f3], w3);
    var s4 := Mul(Fout[f4], w4);
    var s7, s10 := Add(s1, s4), Sub(s1, s4);
    var s8, s9 := Add(s2, s3), Sub(s2, s3);
    Fout[f0] := Cx(Fout[f0].r + (s7.r + s8.r), Fout[f0].i + (s7.i + s8.i));
    var s5 := Cx(s0.r + SMul(s7.r, ya.r) + SMul(s8.r, yb.r), s0.i + SMul(s7.i, ya.r) + SMul(s8.i, yb.r));
    var s6 := Cx(SMul(s10.i, ya.i) + SMul(s9.i, yb.i), -SMul(s10.r, ya.i) - SMul(s9.r, yb.i));
    Fout[f1] := Sub(s5, s6);
    Fout[f4] := Add(s5, s6);
    var s11 := Cx(s0.r + SMul(s7.r, yb.r) + SMul(s8.r, ya.r), s0.i + SMul(s7.i, yb.r) + SMul(s8.i, ya.r));
    var s12 := Cx(-SMul(s10.i, yb.i) + SMul(s9.i, ya.i), SMul(s10.r, yb.i) - SMul(s9.r, ya.i));
    Fout[f2] := Add(s11, s12);
    Fout[f3] := Sub(s11, s12);
    assert Fout[..] == B[f0 := Fout[f0]][f1 := Fout[f1]][f2 := Fout[f2]][f3 := Fout[f3]][f4 := Fout[f4]];
  }

  method Bfly5(Fout: array<Cx>, o: nat, ts: nat, tw: seq<Cx>, m: nat, ghost inverse: bool)
    requires |tw| > 0 && Table(tw, inverse) && m > 0 && ts * (5 * m) == |tw| && o + 5 * m <= Fout.Length
    modifies Fout
    ensures Recombined(old(Fout[..]), Fout[..], o, m, 5, tw, ts, m)
  {
    hide Table, Mul, Add, Sub, SMul, Bfly, Tw, Recombined;
    ghost var A := Fout[..];
    Untouched(A, o, m, 5, tw, ts);
    TwIndex(tw, 0, m, 5, ts, 1);
    TwIndex(tw, 0, m, 5, ts, 2);
    assert ts * m == m * ts && ts * 2 * m == 2 * (m * ts);
    var ya, yb := tw[ts * m], tw[ts * 2 * m];
    var f0, f1, f2, f3, f4 := o, o + m, o + 2 * m, o + 3 * m, o + 4 * m;
    for u := 0 to m
      invariant f0 == o + u && f1 == o + u + m && f2 == o + u + 2 * m && f3 == o + u + 3 * m && f4 == o + u + 4 * m
      invariant Recombined(A, Fout[..], o, m, 5, tw, ts, u)
    {
      ghost var B := Fout[..];
      TwIndex(tw, u, m, 5, ts, 1);
      TwIndex(tw, u, m, 5, ts, 2);
      TwIndex(tw, u, m, 5, ts, 3);
      TwIndex(tw, u, m, 5, ts, 4);
      Kernel5(Fout, f0, f1, f2, f3, f4, m, tw[u * ts], tw[2 * (u * ts)], tw[3 * (u * ts)], tw[4 * (u * ts)], ya, yb);
      Step5(A, B, Fout[..], o, m, tw, inverse, ts, u);
      f0, f1, f2, f3, f4 := f0 + 1, f1 + 1, f2 + 1, f3 + 1, f4 + 1;
    }
  }

  /** C is B with the first q1 rows of column u recombined. */
  ghost predicate PartColumn(R: seq<Cx>, B: seq<Cx>, C: seq<Cx>, o: nat, u: nat, m: nat, p: nat,
                             tw: seq<Cx>, ts: nat, q1: nat)
    requires |tw| > 0 && m > 0
  {
    && |C| == |B|
    && (forall q :: 0 <= q < q1 ==>
      0 <= Cell(o, u, q, m) < |C| && C[Cell(o, u, q, m)] == Bfly(R, m, p, tw, ts, u + q * m))
    && (forall i {:trigger C[i]} :: 0 <= i < |C| && (forall q :: 0 <= q < q1 ==> i != Cell(o, u, q, m)) ==>
        C[i] == B[i])
  }

  lemma NextRow(R: seq<Cx>, B: seq<Cx>, C: seq<Cx>, D: seq<Cx>, o: nat, u: nat, m: nat, p: nat,
                tw: seq<Cx>, ts: nat, q1: nat)
    requires |tw| > 0 && u < m && q1 < p
    requires PartColumn(R, B, C, o, u, m, p, tw, ts, q1)
    requires 0 <= Cell(o, u, q1, m) < |C|
    requires D == C[Cell(o, u, q1, m) := Sum(p, BflyTerm(R, u, m, tw, (u + q1 * m) * ts))]
    ensures PartColumn(R, B, D, o, u, m, p, tw, ts, q1 + 1)
  {
    hide BflyTerm, Sum, Cell;
    Position(u, q1, m, p);
    forall q | 0 <= q < q1 ensures Cell(o, u, q, m) != Cell(o, u, q1, m) {
      DistinctCells(o, u, q, q1, m, p);
    }
    forall i | 0 <= i < |D| && (forall q :: 0 <= q < q1 + 1 ==> i != Cell(o, u, q, m)) ensures D[i] == B[i] {
      assert i != Cell(o, u, q1, m);
      assert C[i] == B[i];
    }
  }

  lemma DistinctCells(o: nat, u: nat, q: nat, q1: nat, m: nat, p: nat)
    requires u < m && q < q1 < p
    ensures Cell(o, u, q, m) != Cell(o, u, q1, m)
  {
    Position(u, q, m, p);
    Position(u, q1, m, p);
  }

  /** The single conditional subtraction keeps the accumulated index reduced. */
  lemma TwidxStep(q: int, e: int, n: int)
    requires 0 <= e < n
    ensures var t := ((q - 1) * e) % n + e;
      (q * e) % n == if t >= n then t - n else t
  {
    assert q * e == (q - 1) * e + e;
    ReducedStep((q - 1) * e, e, n);
  }

  lemma ReducedStep(a: int, e: int, n: int)
    requires 0 <= e < n
    ensures (a + e) % n == if a % n + e >= n then a % n + e - n else a % n + e
  {
    var t := a % n + e;
    DivMod(a, n);
    ModAddParts(a, e, a / n, a % n, 0, e, n);
    DivModUnique(t, if t >= n then 1 else 0, if t >= n then t - n else t, n);
  }

  lemma FirstTerm(R: seq<Cx>, u: int, m: int, tw: seq<Cx>, inverse: bool, e: int)
    requires |tw| > 0 && Table(tw, inverse)
    ensures Sum(1, BflyTerm(R, u, m, tw, e)) == At(R, u + 0 * m)
  {
    hide Mul, Add, Table, Tw, At;
    SumOne(BflyTerm(R, u, m, tw, e));
    TwUnit(tw, inverse, 0);
    assert 0 * e == 0;
    MulUnit(At(R, u + 0 * m));
  }

  lemma OutputIndex(u: nat, q: nat, m: nat, p: nat, ts: nat, n: nat)
    requires u < m && q < p && ts * (p * m) == n && n > 0
    ensures 0 <= u + q * m < p * m
    ensures 0 <= (u + q * m) * ts < n
  {
    Position(u, q, m, p);
    var k := u + q * m;
    PositiveFactors(ts, p * m);
    MulMono(k + 1, p * m, ts);
    assert (k + 1) * ts == k * ts + ts && (p * m) * ts == n;
    MulMono(0, k, ts);
  }

  method BflyGeneric(Fout: array<Cx>, o: nat, ts: nat, tw: seq<Cx>, m: nat, p: nat, ghost inverse: bool)
    requires |tw| > 0 && Table(tw, inverse) && m > 0 && p > 0 && ts * (p * m) == |tw| && o + p * m <= Fout.Length
    modifies Fout
    ensures Recombined(old(Fout[..]), Fout[..], o, m, p, tw, ts, m)
  {
    hide Table, Mul, Add, Bfly, Tw, Recombined, At, Sum, PartColumn;
    ghost var A := Fout[..];
    Untouched(A, o, m, p, tw, ts);
    var norig := |tw|;
    var scratch := new Cx[p];
    for u := 0 to m
      invariant Recombined(A, Fout[..], o, m, p, tw, ts, u)
    {
      GenericColumn(Fout, scratch, o, ts, tw, m, p, u, norig, inverse, A);
    }
  }

  // The body of the outer loop of kf_bfly_generic: gather column u, then rewrite its rows.
  method GenericColumn(Fout: array<Cx>, scratch: array<Cx>, o: nat, ts: nat, tw: seq<Cx>, m: nat, p: nat, u: nat,
                       norig: nat, ghost inverse: bool, ghost A: seq<Cx>)
    requires Fout != scratch && scratch.Length == p > 0 && u < m && norig == |tw| > 0
    requires Table(tw, inverse) && ts * (p * m) == |tw|
    requires Recombined(A, Fout[..], o, m, p, tw, ts, u)
    modifies Fout, scratch
    ensures Recombined(A, Fout[..], o, m, p, tw, ts, u + 1)
  {
    hide Table, Mul, Add, Bfly, Tw, Recombined, At, Sum, PartColumn;
    ghost var B := Fout[..];
    ReadColumn(A, B, o, m, p, tw, ts, u, 0);
    ghost var R := A[o..o + p * m];
    var k := u;
    for q1 := 0 to p
      invariant k == u + q1 * m
      invariant forall j :: 0 <= j < q1 ==> scratch[j] == At(R, u + j * m)
      invariant Fout[..] == B
    {
      ReadColumn(A, B, o, m, p, tw, ts, u, q1);
      assert Fout[o + k] == B[o + k];
      scratch[q1] := Fout[o + k];
      k := k + m;
      assert (q1 + 1) * m == q1 * m + m;
    }
    k := u;
    NoRows(R, B, o, u, m, p, tw, ts);
    for q1 := 0 to p
      invariant k == u + q1 * m
      invariant forall j :: 0 <= j < p ==> scratch[j] == At(R, u + j * m)
      invariant |Fout[..]| == |B| && PartColumn(R, B, Fout[..], o, u, m, p, tw, ts, q1)
    {
      ReadColumn(A, B, o, m, p, tw, ts, u, q1);
      ghost var D := Fout[..];
      OutputIndex(u, q1, m, p, ts, |tw|);
      GenericRow(Fout, scratch, o, ts, tw, m, p, u, k, norig, inverse, R);
      NextRow(R, B, D, Fout[..], o, u, m, p, tw, ts, q1);
      k := k + m;
      assert (q1 + 1) * m == q1 * m + m;
    }
    ghost var C := Fout[..];
    FinishColumn(A, B, C, o, m, p, tw, ts, u);
  }

  lemma NoRows(R: seq<Cx>, B: seq<Cx>, o: nat, u: nat, m: nat, p: nat, tw: seq<Cx>, ts: nat)
    requires |tw| > 0 && m > 0
    ensures PartColumn(R, B, B, o, u, m, p, tw, ts, 0)
  {
    hide Bfly;
  }

  lemma FinishColumn(A: seq<Cx>, B: seq<Cx>, C: seq<Cx>, o: nat, m: nat, p: nat, tw: seq<Cx>, ts: nat, u: nat)
    requires |tw| > 0 && m > 0 && u < m && o + p * m <= |A|
    requires Recombined(A, B, o, m, p, tw, ts, u)
    requires PartColumn(A[o..o + p * m], B, C, o, u, m, p, tw, ts, p)
    ensures Recombined(A, C, o, m, p, tw, ts, u + 1)
  {
    hide Bfly, Cell, Recombined;
    ColumnStep(A, B, C, o, m, p, tw, ts, u);
  }

  // Row k of the column: the products with the twiddle factors are added up in place.
  method GenericRow(Fout: array<Cx>, scratch: array<Cx>, o: nat, ts: nat, tw: seq<Cx>, m: nat, p: nat, u: nat, k: nat,
                    norig: nat, ghost inverse: bool, ghost R: seq<Cx>)
    requires Fout != scratch && scratch.Length == p > 0 && norig == |tw| > 0
    requires Table(tw, inverse) && o + k < Fout.Length && 0 <= k * ts < norig
    requires forall j :: 0 <= j < p ==> scratch[j] == At(R, u + j * m)
    modifies Fout
    ensures Fout[..] == old(Fout[..])[o + k := Sum(p, BflyTerm(R, u, m, tw, k * ts))]
  {
    hide Table, Mul, Add, Tw, At, Sum;
    ghost var D := Fout[..];
    ghost var g := BflyTerm(R, u, m, tw, k * ts);
    var twidx := 0;
    Fout[o + k] := scratch[0];
    FirstTerm(R, u, m, tw, inverse, k * ts);
    assert (0 * (k * ts)) % norig == 0;
    var q := 1;
    while q < p
      invariant 1 <= q <= p
      invariant 0 <= twidx < norig && twidx == ((q - 1) * (k * ts)) % norig
      invariant Fout[..] == D[o + k := Sum(q, g)]
    {
      TwidxStep(q, k * ts, norig);
      twidx := twidx + ts * k;
      if twidx >= norig { twidx := twidx - norig; }
      var t := Mul(scratch[q], tw[twidx]);
      NextTerm(R, u, m, tw, k * ts, q);
      Fout[o + k] := Add(Fout[o + k], t);
      q := q + 1;
    }
  }

  lemma NextTerm(R: seq<Cx>, u: int, m: int, tw: seq<Cx>, e: int, q: nat)
    requires |tw| > 0
    ensures Sum(q + 1, BflyTerm(R, u, m, tw, e)) ==
            Add(Sum(q, BflyTerm(R, u, m, tw, e)), Mul(At(R, u + q * m), tw[(q * e) % |tw|]))
  {
    hide Mul, Add, At;
  }
}
