/**
 The factorisers of kiss_fft.c and kissfft.hh, which drive the recursion of the transform, and
 the search for the next transform length with small factors only.
 */
module FftFactor {
  import opened Arithmetic
  import opened KissFft

  ghost predicate IsPrime(p: int) {
    p >= 2 && forall d :: 2 <= d < p ==> p % d != 0
  }

  /** The least odd divisor of n that is at least d. */
  function LeastOdd(n: nat, d: nat): (p: nat)
    requires n % 2 == 1 && d % 2 == 1 && 3 <= d <= n
    ensures d <= p <= n && n % p == 0 && p % 2 == 1
    ensures forall e :: d <= e < p && e % 2 == 1 ==> n % e != 0
    decreases n - d
  {
    if n % d == 0 then d
    else
      NotLast(n, d);
      LeastOdd(n, d + 2)
  }

  lemma NotLast(n: nat, d: nat)
    requires n % 2 == 1 && d % 2 == 1 && 3 <= d <= n && n % d != 0
    ensures d + 2 <= n
  {
    if d == n { DivModUnique(n, 1, 0, n); }
  }

  /** The radix kiss_fft uses for length n: 4 if possible, then 2, then the least odd factor. */
  function NextRadix(n: nat): (p: nat)
    requires n >= 1
    ensures 1 <= p <= n && n % p == 0
    ensures n >= 2 ==> p >= 2
  {
    if n == 1 then 1 else if n % 4 == 0 then 4 else if n % 2 == 0 then 2 else LeastOdd(n, 3)
  }

  lemma DivLess(n: nat, p: nat)
    requires n >= 1 && 1 <= p && n % p == 0
    ensures 1 <= n / p && p * (n / p) == n
    ensures p >= 2 ==> n / p < n
  {
    var m := n / p;
    assert n == m * p;
    if m <= 0 { MulMono(m, 0, p); }
    if p >= 2 { MulMono(2, p, m); }
  }

  /** The reference: the radices and remaining lengths, interleaved as in the factor buffer. */
  function FactorList(n: nat): (s: seq<int>)
    requires n >= 1
    ensures |s| >= 2
    decreases n
  {
    var p := NextRadix(n);
    DivLess(n, p);
    [p, n / p] + if n / p > 1 then FactorList(n / p) else []
  }

  lemma Unroll(n: nat)
    requires n >= 1
    ensures var p := NextRadix(n);
      FactorList(n) == [p, n / p] + if n / p > 1 then FactorList(n / p) else []
  {}

  /** p1 * m1 == n and p(i+1) * m(i+1) == m(i): what kf_work relies on. */
  lemma {:induction false} FactorListChain(n: nat)
    requires n >= 1
    ensures Chain(FactorList(n), n)
    decreases n
  {
    var p := NextRadix(n);
    DivLess(n, p);
    if n / p > 1 {
      FactorListChain(n / p);
      assert FactorList(n)[2..] == FactorList(n / p);
    }
  }

  ghost predicate IsRadix(p: int) {
    p == 4 || p == 2 || (p % 2 == 1 && IsPrime(p))
  }

  // Every even position of a factor list holds a radix.
  ghost predicate Radices(s: seq<int>) {
    forall i :: 0 <= i < |s| && i % 2 == 0 ==> IsRadix(s[i])
  }

  lemma DivTrans(d: int, p: int, n: int)
    requires d > 0 && p > 0 && p % d == 0 && n % p == 0
    ensures n % d == 0
  {
    var a, b := p / d, n / p;
    assert n == b * p && p == a * d;
    assert n == (b * a) * d + 0 by { assert b * (a * d) == (b * a) * d; }
    DivModUnique(n, b * a, 0, d);
  }

  lemma LeastOddPrime(n: nat)
    requires n % 2 == 1 && n >= 3
    ensures IsPrime(LeastOdd(n, 3))
  {
    var p := LeastOdd(n, 3);
    forall d | 2 <= d < p ensures p % d != 0 {
      if d % 2 == 0 {
        NotDivides(2, p, n);
        NotDividesMultiple(d, p);
      } else {
        NotDivides(d, p, n);
      }
    }
  }

  // What does not divide n does not divide a divisor of n.
  lemma NotDivides(d: int, p: int, n: int)
    requires d > 0 && p > 0 && n % p == 0 && n % d != 0
    ensures p % d != 0
  {
    if p % d == 0 { DivTrans(d, p, n); }
  }

  lemma NotDividesMultiple(d: int, p: int)
    requires d > 0 && d % 2 == 0 && p % 2 != 0 && p > 0
    ensures p % d != 0
  {
    if p % d == 0 { DivTrans(2, d, p); }
  }

  /** Every radix for n >= 2 is 4, 2 or an odd prime. */
  lemma {:induction false} RadicesArePrime(n: nat)
    requires n >= 2
    ensures Radices(FactorList(n))
    decreases n
  {
    hide IsRadix, NextRadix, FactorList;
    var p := NextRadix(n);
    DivLess(n, p);
    Unroll(n);
    NextRadixIsRadix(n);
    if n / p > 1 {
      RadicesArePrime(n / p);
      RadicesCons(p, n / p, FactorList(n / p));
    }
  }

  lemma NextRadixIsRadix(n: nat)
    requires n >= 2
    ensures IsRadix(NextRadix(n))
  {
    if n % 2 == 1 { LeastOddPrime(n); }
  }

  lemma RadicesCons(p: int, m: int, t: seq<int>)
    requires IsRadix(p) && Radices(t)
    ensures Radices([p, m] + t)
  {
    hide IsRadix;
    var s := [p, m] + t;
    forall i | 0 <= i < |s| && i % 2 == 0 ensures IsRadix(s[i]) {
      if i >= 2 { assert s[i] == t[i - 2]; }
    }
  }

  /** Fours come first, then at most one 2, then odd radices from the least one on. */
  ghost predicate RadixBefore(a: int, b: int) {
    a == 4 || (a == 2 && b % 2 == 1) || (a % 2 == 1 && b % 2 == 1 && a <= b)
  }

  lemma {:induction false} RadixDivides(n: nat, i: nat)
    requires n >= 2 && i < |FactorList(n)| && i % 2 == 0
    ensures FactorList(n)[i] >= 2 && n % FactorList(n)[i] == 0
    decreases n
  {
    hide NextRadix, FactorList;
    var p, m := Stage(n);
    if i >= 2 {
      RadixDivides(m, i - 2);
      assert FactorList(n)[i] == FactorList(m)[i - 2];
      DivTrans(FactorList(n)[i], m, n);
    }
  }

  /** The order of the stages, which decides which butterfly runs on which stride. */
  lemma {:induction false} RadixOrder(n: nat, i: nat, j: nat)
    requires n >= 2 && i < j < |FactorList(n)| && i % 2 == 0 && j % 2 == 0
    ensures RadixBefore(FactorList(n)[i], FactorList(n)[j])
    decreases n
  {
    hide NextRadix, FactorList, RadixBefore;
    var p, m := Stage(n);
    assert FactorList(n)[j] == FactorList(m)[j - 2];
    if i >= 2 {
      assert FactorList(n)[i] == FactorList(m)[i - 2];
      RadixOrder(m, i - 2, j - 2);
    } else {
      RadixDivides(m, j - 2);
      FirstRadix(n, p, m, FactorList(n)[j]);
    }
  }

  // The first stage of a list and what is left for the others.
  lemma Stage(n: nat) returns (p: nat, m: nat)
    requires n >= 2
    ensures p == NextRadix(n) && m == n / p && 1 <= m < n && n % m == 0
    ensures FactorList(n) == [p, m] + if m > 1 then FactorList(m) else []
  {
    hide NextRadix, FactorList;
    p := NextRadix(n);
    m := Cofactor(n, p);
    DivLess(n, p);
    Unroll(n);
  }

  lemma FirstRadix(n: nat, p: nat, m: nat, b: int)
    requires n >= 2 && p == NextRadix(n) && m == n / p && m >= 1 && b >= 2 && m % b == 0
    ensures RadixBefore(p, b)
  {
    var c := Cofactor(n, p);
    DivTrans(b, m, n);
    if p == 2 {
      OddHalf(n, m);
      OddDivisor(m, b);
    } else if p != 4 {
      OddDivisor(n, b);
    }
  }

  lemma OddHalf(n: int, m: int)
    requires n == m * 2 && n % 4 != 0
    ensures m % 2 == 1
  {}

  lemma OddDivisor(n: int, b: int)
    requires n > 0 && n % 2 == 1 && b >= 2 && n % b == 0
    ensures b % 2 == 1
  {
    if b % 2 == 0 { DivTrans(2, b, n); }
  }

  function Pow2(k: nat): (r: nat)
    ensures r >= 1
  {
    if k == 0 then 1 else 2 * Pow2(k - 1)
  }

  /** Lists are short: twice the number of stages entries, and at most log2(n) stages. */
  lemma {:induction false} FactorListLength(n: nat)
    requires n >= 2
    ensures |FactorList(n)| % 2 == 0 && Pow2(|FactorList(n)| / 2) <= n
    decreases n
  {
    hide NextRadix, FactorList;
    var p := NextRadix(n);
    DivLess(n, p);
    Unroll(n);
    if n / p > 1 {
      FactorListLength(n / p);
      DoublePow(|FactorList(n / p)| / 2, p, n / p, n);
    } else {
      assert Pow2(1) == 2;
    }
  }

  lemma DoublePow(k: nat, p: nat, m: nat, n: nat)
    requires Pow2(k) <= m && p >= 2 && p * m == n
    ensures Pow2(k + 1) <= n
  {
    MulMono(2, p, m);
  }

  const MAXFACTORS := 32

  lemma {:induction false} Pow2Mono(j: nat, k: nat)
    requires j <= k
    ensures Pow2(j) <= Pow2(k)
    decreases k
  {
    if j < k { Pow2Mono(j, k - 1); }
  }

  lemma {:induction false} Pow2Add(j: nat, k: nat)
    ensures Pow2(j + k) == Pow2(j) * Pow2(k)
  {
    if k > 0 { Pow2Add(j, k - 1); }
  }

  lemma Pow2At31()
    ensures Pow2(31) == 0x8000_0000
  {
    assert Pow2(5) == 32 && Pow2(1) == 2;
    Pow2Add(5, 5);
    Pow2Add(10, 10);
    Pow2Add(20, 10);
    Pow2Add(30, 1);
  }

  /** A 32-bit length never has more than 30 stages, so the buffer of 2 * MAXFACTORS suffices. */
  lemma FactorListFits(n: nat)
    requires 1 <= n < 0x8000_0000
    ensures |FactorList(n)| <= 60 < 2 * MAXFACTORS
  {
    if n >= 2 {
      FactorListLength(n);
      if |FactorList(n)| / 2 >= 31 {
        Pow2Mono(31, |FactorList(n)| / 2);
        Pow2At31();
      }
    }
  }

  /** floor(sqrt(n)), which the source takes from the C library. */
  function FloorSqrt(n: nat): nat {
    if n == 0 then 0
    else
      var r := FloorSqrt(n - 1);
      if (r + 1) * (r + 1) <= n then r + 1 else r
  }

  lemma {:induction false} FloorSqrtIs(n: nat)
    ensures FloorSqrt(n) * FloorSqrt(n) <= n < (FloorSqrt(n) + 1) * (FloorSqrt(n) + 1)
  {
    if n > 0 {
      FloorSqrtIs(n - 1);
      NextSquare(FloorSqrt(n - 1), n);
    }
  }

  lemma NextSquare(r: nat, n: nat)
    requires r * r <= n - 1 < (r + 1) * (r + 1)
    ensures n < (r + 2) * (r + 2)
  {
    assert (r + 2) * (r + 2) == (r + 1) * (r + 1) + 2 * r + 3;
  }

  // Candidates before p have been ruled out as factors of n.
  ghost predicate RuledOut(n: int, p: int) {
    || p == 4
    || (p == 2 && n % 4 != 0)
    || (p >= 3 && p % 2 == 1 && n % 2 == 1 && forall e :: 3 <= e < p && e % 2 == 1 ==> n % e != 0)
  }

  // Once p * p exceeds n, an n without factors below p is its own radix.
  lemma NoMoreFactors(n: nat, p: nat)
    requires n >= 1 && RuledOut(n, p) && p != 4 && n < p * p
    ensures NextRadix(n) == n
  {
    if p == 2 {
      assert n <= 3;
    } else if n > 1 {
      var d := LeastOdd(n, 3);
      if d < n {
        var c := Cofactor(n, d);
        ProperCofactor(c, d, n);
        NotDivides(2, c, n);
        LargeFactors(n, p, c, d);
      }
    }
  }

  // Two factors that have not been ruled out are too large together.
  lemma LargeFactors(n: nat, p: nat, c: nat, d: nat)
    requires RuledOut(n, p) && p >= 3 && p % 2 == 1 && n == c * d
    requires c >= 2 && c % 2 == 1 && n % c == 0 && d >= 3 && d % 2 == 1 && n % d == 0
    ensures p * p <= n
  {
    assert c >= p && d >= p;
    SquareBelow(p, c, d);
  }

  lemma SquareBelow(p: nat, c: nat, d: nat)
    requires p <= c && p <= d
    ensures p * p <= c * d
  {
    MulMono(p, d, p);
    MulMono(p, c, d);
  }

  lemma AtMostSelf(n: nat, p: nat)
    requires n >= 2 && RuledOut(n, p) && p >= 3 && p != 4
    ensures p <= n
  {
    assert n % n == 0;
  }

  lemma NextCandidate(n: nat, p: nat)
    requires n >= 2 && RuledOut(n, p) && n % p != 0
    ensures RuledOut(n, if p == 4 then 2 else if p == 2 then 3 else p + 2)
    ensures p >= 3 && p != 4 ==> p + 2 <= n
  {
    hide RuledOut;
    Phases(n, p);
    if p == 4 || p == 2 {
      NextEven(n, p);
    } else {
      AtMostSelf(n, p);
      NextOdd(n, p);
    }
  }

  lemma Phases(n: int, p: int)
    requires RuledOut(n, p)
    ensures p == 4 || p == 2 || (p >= 3 && p % 2 == 1 && n % 2 == 1)
  {}

  lemma NextEven(n: nat, p: nat)
    requires p == 4 || p == 2
    requires n % p != 0
    ensures RuledOut(n, if p == 4 then 2 else 3)
  {}

  lemma NextOdd(n: nat, p: nat)
    requires RuledOut(n, p) && p >= 3 && p != 4 && n % p != 0
    ensures p != n && RuledOut(n, p + 2)
  {
    if p == n { DivModUnique(n, 1, 0, n); }
    forall e | 3 <= e < p + 2 && e % 2 == 1 ensures n % e != 0 {
      if e >= p { assert e == p; }
    }
  }

  lemma FoundRadix(n: nat, p: nat)
    requires n >= 2 && RuledOut(n, p) && p > 0 && n % p == 0
    ensures p == NextRadix(n)
  {
    if p >= 3 && p != 4 { AtMostSelf(n, p); }
  }

  // The candidate survives the division that emitted it.
  lemma StillRuledOut(n: nat, p: nat)
    requires n >= 2 && p == NextRadix(n) && RuledOut(n, p)
    ensures RuledOut(n / p, p)
  {
    hide NextRadix, RuledOut;
    Phases(n, p);
    var m := Cofactor(n, p);
    if p == 4 {
      AnyAfterFour(m);
    } else if p == 2 {
      HalfAfterFour(n, m);
    } else {
      OddCofactor(n, p, m);
    }
  }

  lemma Cofactor(n: nat, p: nat) returns (m: nat)
    requires n >= 1 && 1 <= p && n % p == 0
    ensures m == n / p >= 1 && n % m == 0 && n == m * p
  {
    DivLess(n, p);
    m := n / p;
    DivModUnique(n, p, 0, m);
  }

  lemma AnyAfterFour(m: int)
    ensures RuledOut(m, 4)
  {}

  lemma HalfAfterFour(n: nat, m: nat)
    requires RuledOut(n, 2) && n == m * 2
    ensures RuledOut(m, 2)
  {}

  lemma OddCofactor(n: nat, p: nat, m: nat)
    requires m >= 1 && n % m == 0 && RuledOut(n, p) && p >= 3 && p != 4
    ensures RuledOut(m, p)
  {
    NotDivides(2, m, n);
    forall e | 3 <= e < p && e % 2 == 1 ensures m % e != 0 {
      NotDivides(e, m, n);
    }
  }

  // The candidate loop either leaves p at the radix of n, or jumps there.
  function Measure(n: nat, p: nat): int {
    if p == 4 then 2 * n + 10 else if p == 2 then 2 * n + 9 else n - p
  }

  ghost predicate Candidate(n: nat, p: nat) {
    && p >= 1
    && (n == 1 ==> p == 4 || p == 1)
    && (n >= 2 ==> RuledOut(n, p) && p >= 2 && (p == 4 || p == 2 || p <= n))
  }

  // One step of the candidate loop with an exit test that is never late: jump says whether the
  // source gives up and takes p = n.
  lemma CandidateStep(n: nat, p: nat, next: nat, jump: bool)
    requires n >= 1 && Candidate(n, p) && n % p != 0
    requires next == if p == 4 then 2 else if p == 2 then 3 else p + 2
    requires jump ==> n < next * next
    requires n == 1 ==> jump
    ensures Candidate(n, if jump then n else next)
    ensures Measure(n, if jump then n else next) < Measure(n, p)
    ensures 0 <= Measure(n, p)
  {
    if n >= 2 {
      assert n % n == 0;
      NextCandidate(n, p);
      if jump {
        NoMoreFactors(n, next);
        assert NextRadix(n) == n;
      }
    }
  }

  lemma CandidateFound(n: nat, p: nat)
    requires n >= 1 && Candidate(n, p) && n % p == 0
    ensures p == NextRadix(n)
    ensures n / p > 1 ==> Candidate(n / p, p)
  {
    DivLess(n, p);
    if n >= 2 {
      FoundRadix(n, p);
      StillRuledOut(n, p);
      if n / p > 1 && p >= 3 && p != 4 { AtMostSelf(n / p, p); }
    } else {
      assert p == 1;
    }
  }

  /** kf_factor of kiss_fft.c: its exit test compares the candidate with the square root of the
      original length. */
  method KfFactor(length: nat, facbuf: array<int>)
    requires 1 <= length < 0x8000_0000 && facbuf.Length == 2 * MAXFACTORS
    modifies facbuf
    ensures |FactorList(length)| <= facbuf.Length
    ensures facbuf[..|FactorList(length)|] == FactorList(length)
  {
    hide Candidate, NextRadix, Measure, FactorList, FloorSqrt;
    FactorListFits(length);
    var n, p, w := length, 4, 0;
    var floorSqrt := FloorSqrt(length);
    StartCandidate(n);
    while true
      invariant 1 <= n <= length && 0 <= w < w + |FactorList(n)| == |FactorList(length)| <= facbuf.Length
      invariant facbuf[..w] + FactorList(n) == FactorList(length)
      invariant Candidate(n, p) && p >= 1
      invariant w == 0 || n >= 2
      invariant n == 1 ==> length == 1
      decreases n
    {
      ghost var done := facbuf[..w];
      while n % p != 0
        invariant p >= 1 && Candidate(n, p) && facbuf[..w] == done
        decreases Measure(n, p)
      {
        ghost var p0 := p;
        if p == 4 { p := 2; } else if p == 2 { p := 3; } else { p := p + 2; }
        SquareTest(p, length, n);
        CandidateStep(n, p0, p, p > floorSqrt);
        if p > floorSqrt { p := n; }
      }
      CandidateFound(n, p);
      DivLess(n, p);
      ghost var rest := FactorList(n);
      Unroll(n);
      n := n / p;
      facbuf[w] := p;
      facbuf[w + 1] := n;
      w := w + 2;
      assert facbuf[..w] == done + [p, n];
      assert done + rest == facbuf[..w] + if n > 1 then FactorList(n) else [];
      if !(n > 1) { break; }
    }
  }

  lemma StartCandidate(n: nat)
    requires n >= 1
    ensures Candidate(n, 4)
  {}

  lemma SquareTest(p: nat, length: nat, n: nat)
    requires n <= length && p >= 2
    ensures p > FloorSqrt(length) ==> n < p * p
    ensures length == 1 ==> p > FloorSqrt(length)
  {
    hide FloorSqrt;
    FloorSqrtIs(length);
    SquareBounds(p, FloorSqrt(length), length, n);
  }

  lemma SquareBounds(p: nat, r: nat, length: nat, n: nat)
    requires r * r <= length < (r + 1) * (r + 1) && n <= length && p >= 2
    ensures p > r ==> n < p * p
    ensures length == 1 ==> p > r
  {
    if p > r {
      MulMono(r + 1, p, r + 1);
      MulMono(r + 1, p, p);
    }
    if r >= 2 { MulMono(2, r, r); }
  }

  function Interleave(radix: seq<int>, rem: seq<int>): seq<int>
    requires |radix| == |rem|
  {
    if radix == [] then [] else [radix[0], rem[0]] + Interleave(radix[1..], rem[1..])
  }

  lemma {:induction false} InterleaveAppend(radix: seq<int>, rem: seq<int>, p: int, m: int)
    requires |radix| == |rem|
    ensures Interleave(radix + [p], rem + [m]) == Interleave(radix, rem) + [p, m]
  {
    if radix == [] {
      assert Interleave([p], [m]) == [p, m] + Interleave([], []);
    } else {
      InterleaveAppend(radix[1..], rem[1..], p, m);
      assert (radix + [p])[1..] == radix[1..] + [p] && (rem + [m])[1..] == rem[1..] + [m];
    }
  }

  /** The factoriser of kissfft.hh: same candidates, but the exit test p * p > n follows the
      shrinking n. It builds the same list. */
  method Prepare(nfft: nat) returns (stageRadix: seq<int>, stageRemainder: seq<int>)
    requires 1 <= nfft
    ensures |stageRadix| == |stageRemainder|
    ensures Interleave(stageRadix, stageRemainder) == FactorList(nfft)
  {
    hide Candidate, NextRadix, Measure, Interleave, FactorList;
    stageRadix, stageRemainder := [], [];
    EmptyInterleave();
    var n, p := nfft, 4;
    StartCandidate(n);
    while true
      invariant 1 <= n <= nfft && |stageRadix| == |stageRemainder|
      invariant Interleave(stageRadix, stageRemainder) + FactorList(n) == FactorList(nfft)
      invariant Candidate(n, p) && p >= 1
      decreases n
    {
      while n % p != 0
        invariant p >= 1 && Candidate(n, p)
        decreases Measure(n, p)
      {
        ghost var p0 := p;
        if p == 4 { p := 2; } else if p == 2 { p := 3; } else { p := p + 2; }
        assert n == 1 ==> p * p > n by { MulMono(2, p, p); }
        CandidateStep(n, p0, p, p * p > n);
        if p * p > n { p := n; }
      }
      CandidateFound(n, p);
      DivLess(n, p);
      ghost var rest := FactorList(n);
      Unroll(n);
      n := n / p;
      InterleaveAppend(stageRadix, stageRemainder, p, n);
      ghost var done := Interleave(stageRadix, stageRemainder);
      stageRadix := stageRadix + [p];
      stageRemainder := stageRemainder + [n];
      assert done + rest == (done + [p, n]) + if n > 1 then FactorList(n) else [];
      if !(n > 1) { break; }
    }
  }

  lemma EmptyInterleave()
    ensures Interleave([], []) == []
  {}

  // ---- kiss_fft_next_fast_size ----

  /** Only 2, 3 and 5 divide k among the primes. */
  ghost predicate Fast(k: int) {
    k >= 1 && forall d :: IsPrime(d) && k % d == 0 ==> d == 2 || d == 3 || d == 5
  }

  /** m with every factor q divided out. */
  function Strip(m: nat, q: nat): (r: nat)
    requires m >= 1 && q >= 2
    ensures r >= 1 && r % q != 0
    ensures m % r == 0
    decreases m
  {
    if m % q == 0 then
      DivLess(m, q);
      var r := Strip(m / q, q);
      DivModUnique(m, q, 0, m / q);
      DivTrans(r, m / q, m);
      r
    else m
  }

  lemma DivOf(d: int, m: int) returns (t: int)
    requires d > 0 && m % d == 0
    ensures m == t * d
  {
    t := m / d;
  }

  // Dividing out 2, 3 or 5 removes no other prime factor.
  lemma OtherPrime(m: nat, q: nat, d: nat)
    requires m >= 1 && (q == 2 || q == 3 || q == 5) && IsPrime(d) && d != q
    requires (q * m) % d == 0
    ensures m % d == 0
  {
    var t := DivOf(d, q * m);
    SmallPrimeSkips(d, q);
    // q divides t * d but not d, so it divides t.
    assert t % q == 0 by { SmallFactor(t, d, q, m); }
    var s := DivOf(q, t);
    assert q * m == s * q * d;
    assert m == s * d + 0 by { assert q * m == q * (s * d); CancelFactor(q, m, s * d); }
    DivModUnique(m, s, 0, d);
  }

  lemma SmallPrimeSkips(d: int, q: int)
    requires IsPrime(d) && (q == 2 || q == 3 || q == 5) && d != q
    ensures d % q != 0
  {
    if d < q {
      DivModUnique(d, 0, d, q);
    } else {
      assert d % q != 0;
    }
  }

  lemma SmallFactor(t: int, d: int, q: int, m: int)
    requires (q == 2 || q == 3 || q == 5) && d % q != 0 && t * d == q * m
    ensures t % q == 0
  {
    var a, r := t / q, t % q;
    var b, s := d / q, d % q;
    ProductParts(t, d, a, r, b, s, q);
    var c := m - (a * d + r * b);
    assert c * q == q * m - (a * d + r * b) * q;
    DivModUnique(r * s, c, 0, q);
    SmallProduct(r, s, q);
  }

  lemma ProductParts(t: int, d: int, a: int, r: int, b: int, s: int, q: int)
    requires t == a * q + r && d == b * q + s
    ensures t * d == (a * d + r * b) * q + r * s
  {
    assert t * d == (a * q) * d + r * d;
    assert r * d == (r * b) * q + r * s;
    assert (a * q) * d == (a * d) * q;
  }

  lemma SmallProduct(r: int, s: int, q: int)
    requires (q == 2 || q == 3 || q == 5) && 0 <= r < q && 0 < s < q && (r * s) % q == 0
    ensures r == 0
  {
    if q == 2 {
    } else if q == 3 {
    } else {
    }
  }

  /** Stripping a factor 2, 3 or 5 keeps exactly the other prime factors. */
  lemma {:induction false} StripKeeps(m: nat, q: nat, d: nat)
    requires m >= 1 && (q == 2 || q == 3 || q == 5) && IsPrime(d) && d != q
    ensures Strip(m, q) % d == 0 <==> m % d == 0
    decreases m
  {
    if m % q == 0 {
      DivLess(m, q);
      StripKeeps(m / q, q, d);
      if m % d == 0 { OtherPrime(m / q, q, d); }
      if (m / q) % d == 0 {
        DivModUnique(m, q, 0, m / q);
        DivTrans(d, m / q, m);
      }
    }
  }

  function Rest(n: nat): (m: nat)
    requires n >= 1
  {
    Strip(Strip(Strip(n, 2), 3), 5)
  }

  lemma {:induction false} PrimeFactor(m: nat, d: nat) returns (p: nat)
    requires 2 <= d <= m && forall e :: 2 <= e < d ==> m % e != 0
    ensures IsPrime(p) && m % p == 0
    decreases m - d
  {
    if m % d == 0 {
      p := d;
      forall e | 2 <= e < d ensures d % e != 0 {
        if d % e == 0 { DivTrans(e, d, m); }
      }
    } else {
      assert d != m by { DivModUnique(m, 1, 0, m); }
      p := PrimeFactor(m, d + 1);
    }
  }

  /** The test of the source is exact: nothing is left if and only if 2, 3 and 5 are the only
      prime factors. */
  lemma FastTest(n: nat)
    requires n >= 1
    ensures Rest(n) <= 1 <==> Fast(n)
  {
    var a := Strip(n, 2);
    var b := Strip(a, 3);
    var c := Strip(b, 5);
    if c <= 1 {
      forall d | IsPrime(d) && n % d == 0 ensures d == 2 || d == 3 || d == 5 {
        if d != 2 && d != 3 && d != 5 {
          StripKeeps(n, 2, d);
          StripKeeps(a, 3, d);
          StripKeeps(b, 5, d);
          assert c % d == 0;
          DivModUnique(1, 0, 1, d);
        }
      }
    } else {
      var d := PrimeFactor(c, 2);
      assert IsPrime(2) && IsPrime(3) by { assert 3 % 2 == 1; }
      assert d != 5;
      StripKeeps(b, 5, d);
      assert d != 3;
      StripKeeps(a, 3, d);
      assert d != 2;
      StripKeeps(n, 2, d);
    }
  }

  function Power(q: nat, e: nat): (r: nat)
    requires q >= 1
    ensures r >= 1
  {
    if e == 0 then 1 else MulPositive(q, Power(q, e - 1))
  }

  function MulPositive(a: nat, b: nat): (r: nat)
    requires a >= 1 && b >= 1
    ensures r == a * b && r >= 1
  {
    MulMono(1, a, b);
    a * b
  }

  lemma {:induction false} StripPower(m: nat, q: nat) returns (e: nat)
    requires m >= 1 && q >= 2
    ensures m == Strip(m, q) * Power(q, e)
    decreases m
  {
    if m % q == 0 {
      DivLess(m, q);
      var d := StripPower(m / q, q);
      e := d + 1;
      Reassociate(q, Strip(m / q, q), Power(q, d), m / q, m);
    } else {
      e := 0;
    }
  }

  lemma Reassociate(q: int, s: int, p: int, n: int, m: int)
    requires m == q * n && n == s * p
    ensures m == s * (q * p)
  {}

  lemma TimesFast(m: nat, q: nat)
    requires Fast(m) && (q == 2 || q == 3 || q == 5)
    ensures Fast(q * m)
  {
    MulMono(1, q, m);
    forall d | IsPrime(d) && (q * m) % d == 0 ensures d == 2 || d == 3 || d == 5 {
      if d != q { OtherPrime(m, q, d); }
    }
  }

  lemma {:induction false} PowerFast(m: nat, q: nat, e: nat)
    requires Fast(m) && (q == 2 || q == 3 || q == 5)
    ensures Fast(Power(q, e) * m)
  {
    hide Fast;
    if e > 0 {
      PowerFast(m, q, e - 1);
      TimesFast(Power(q, e - 1) * m, q);
      Associate(q, Power(q, e - 1), m);
    }
  }

  lemma Associate(a: int, b: int, c: int)
    ensures a * (b * c) == (a * b) * c
  {}

  lemma OneIsFast()
    ensures Fast(1)
  {
    forall d | IsPrime(d) ensures 1 % d != 0 {
      DivModUnique(1, 0, 1, d);
    }
  }

  /** Fast lengths are the products of powers of 2, 3 and 5. */
  lemma FastIffSmooth(k: nat)
    requires k >= 1
    ensures Fast(k) <==> exists a: nat, b: nat, c: nat :: k == Power(2, a) * (Power(3, b) * Power(5, c))
  {
    hide Fast, Rest, Power;
    if Fast(k) {
      FastTest(k);
      var a, b, c := SmoothParts(k);
      assert k == Power(2, a) * (Power(3, b) * Power(5, c));
    }
    forall a: nat, b: nat, c: nat | k == Power(2, a) * (Power(3, b) * Power(5, c)) ensures Fast(k) {
      OneIsFast();
      PowerFast(1, 5, c);
      PowerFast(Power(5, c) * 1, 3, b);
      PowerFast(Power(3, b) * (Power(5, c) * 1), 2, a);
    }
  }

  lemma SmoothParts(k: nat) returns (a: nat, b: nat, c: nat)
    requires k >= 1 && Rest(k) <= 1
    ensures k == Power(2, a) * (Power(3, b) * Power(5, c))
  {
    hide Power, Strip;
    var x := Strip(k, 2);
    var y := Strip(x, 3);
    a := StripPower(k, 2);
    b := StripPower(x, 3);
    c := StripPower(y, 5);
    Gather(k, x, y, Power(2, a), Power(3, b), Power(5, c));
  }

  lemma Gather(k: int, x: int, y: int, p: int, q: int, r: int)
    requires k == x * p && x == y * q && y == 1 * r
    ensures k == p * (q * r)
  {}

  lemma {:induction false} Pow2Fast(k: nat)
    ensures Rest(Pow2(k)) == 1
  {
    Pow2Strip(k);
    assert Strip(1, 3) == 1 && Strip(1, 5) == 1;
  }

  lemma {:induction false} Pow2Strip(k: nat)
    ensures Pow2(k) >= 1 && Strip(Pow2(k), 2) == 1
  {
    if k > 0 {
      Pow2Strip(k - 1);
      assert Pow2(k) % 2 == 0 && Pow2(k) / 2 == Pow2(k - 1);
    }
  }

  lemma {:induction false} Pow2Above(n: nat) returns (k: nat)
    requires n >= 1
    ensures n <= Pow2(k) < 2 * n
  {
    if n == 1 {
      k := 0;
    } else {
      var j := Pow2Above(n - 1);
      k := if Pow2(j) >= n then j else j + 1;
      assert Pow2(j + 1) == 2 * Pow2(j);
    }
  }

  /** kiss_fft_next_fast_size: the least length at or above n that has only fast factors. */
  method NextFastSize(n0: nat) returns (n: nat)
    requires n0 >= 1
    ensures n0 <= n < 2 * n0 && Fast(n)
    ensures forall k :: n0 <= k < n ==> !Fast(k)
  {
    hide Fast, Rest;
    ghost var e := Pow2Above(n0);
    Pow2Fast(e);
    n := n0;
    while true
      invariant n0 <= n <= Pow2(e)
      invariant forall k :: n0 <= k < n ==> !Fast(k)
      decreases Pow2(e) - n
    {
      var m := n;
      m := DivideOut(m, 2);
      m := DivideOut(m, 3);
      m := DivideOut(m, 5);
      RestOf(n);
      FastTest(n);
      if m <= 1 { break; }
      n := n + 1;
    }
  }

  lemma RestOf(n: nat)
    requires n >= 1
    ensures Rest(n) == Strip(Strip(Strip(n, 2), 3), 5)
  {}

  // One of the loops `while( (m%q) == 0 ) m/=q;`.
  method DivideOut(m0: nat, q: nat) returns (m: nat)
    requires m0 >= 1 && q >= 2
    ensures m == Strip(m0, q)
  {
    m := m0;
    while m % q == 0
      invariant m >= 1 && Strip(m, q) == Strip(m0, q)
      decreases m
    {
      DivLess(m, q);
      m := m / q;
    }
  }
}
