// The recursive FFT computes the discrete Fourier sum, and the transform with
// mirrored roots inverts it.
module FourierSum {
  import opened Numbers
  import opened Complexes
  import opened Transform

  // Sum over m < n of x[off + m * 2^(M-s)] * w(j * m * 2^(L-s)).
  ghost function Dft(r: Roots, M: nat, x: seq<Complex>, s: nat, off: int, j: int, n: nat): Complex
    requires s <= M <= r.L
  {
    if n == 0 then Zero
    else Add(Dft(r, M, x, s, off, j, n - 1), Term(r, M, x, s, off, j, n - 1))
  }

  ghost function Term(r: Roots, M: nat, x: seq<Complex>, s: nat, off: int, j: int, m: nat): Complex
    requires s <= M <= r.L
  {
    Mul(r.w(j * (m * Pow2(r.L - s))), At(x, off + m * Pow2(M - s)))
  }

  // The terms of even and odd index are those of the two half transforms.
  lemma EvenTerm(r: Roots, M: nat, x: seq<Complex>, s: nat, off: int, j: int, m: nat)
    requires 1 <= s <= M <= r.L
    ensures Term(r, M, x, s, off, j, 2 * m) == Term(r, M, x, s - 1, off, j, m)
  {
    var a, b := Pow2(r.L - s), Pow2(M - s);
    assert Pow2(r.L - (s - 1)) == 2 * a && Pow2(M - (s - 1)) == 2 * b;
    hide Pow2, Mul, At;
    assert (2 * m) * a == m * (2 * a) && (2 * m) * b == m * (2 * b);
  }

  lemma OddTerm(r: Roots, M: nat, x: seq<Complex>, s: nat, off: int, j: int, m: nat)
    requires 1 <= s <= M <= r.L && r.Valid()
    ensures Term(r, M, x, s, off, j, 2 * m + 1)
         == Mul(r.w(j * Pow2(r.L - s)), Term(r, M, x, s - 1, off + Pow2(M - s), j, m))
  {
    var a, b := Pow2(r.L - s), Pow2(M - s);
    assert Pow2(r.L - (s - 1)) == 2 * a && Pow2(M - (s - 1)) == 2 * b;
    hide Pow2, Mul, At;
    assert (2 * m + 1) * b == b + m * (2 * b);
    OddExponent(j, m, a);
    r.Product(j * a, j * (m * (2 * a)));
    MulAssoc(r.w(j * a), r.w(j * (m * (2 * a))), At(x, off + b + m * (2 * b)));
  }

  lemma OddExponent(j: int, m: nat, a: nat)
    ensures j * ((2 * m + 1) * a) == j * a + j * (m * (2 * a))
  {
    assert (2 * m + 1) * a == a + m * (2 * a);
  }

  lemma {:induction false} DftSplits(r: Roots, M: nat, x: seq<Complex>, s: nat, off: int, j: int, n: nat)
    requires 1 <= s <= M <= r.L && r.Valid()
    ensures Dft(r, M, x, s, off, j, 2 * n)
         == Add(Dft(r, M, x, s - 1, off, j, n),
                Mul(r.w(j * Pow2(r.L - s)), Dft(r, M, x, s - 1, off + Pow2(M - s), j, n)))
  {
    hide Pow2, Term;
    var u, off' := r.w(j * Pow2(r.L - s)), off + Pow2(M - s);
    if n == 0 {
    } else {
      DftSplits(r, M, x, s, off, j, n - 1);
      EvenTerm(r, M, x, s, off, j, n - 1);
      OddTerm(r, M, x, s, off, j, n - 1);
      TwoTerms(r, M, x, s, off, j, n);
      Collect(Dft(r, M, x, s - 1, off, j, n - 1), Term(r, M, x, s - 1, off, j, n - 1), u,
              Dft(r, M, x, s - 1, off', j, n - 1), Term(r, M, x, s - 1, off', j, n - 1));
    }
  }

  lemma TwoTerms(r: Roots, M: nat, x: seq<Complex>, s: nat, off: int, j: int, n: nat)
    requires s <= M <= r.L && n > 0
    ensures Dft(r, M, x, s, off, j, 2 * n)
         == Add(Add(Dft(r, M, x, s, off, j, 2 * (n - 1)), Term(r, M, x, s, off, j, 2 * (n - 1))),
                Term(r, M, x, s, off, j, 2 * (n - 1) + 1))
  {
    hide Term;
    assert 2 * n - 1 - 1 == 2 * (n - 1);
  }

  lemma Collect(a: Complex, b: Complex, u: Complex, c: Complex, d: Complex)
    ensures Add(Add(Add(a, Mul(u, c)), b), Mul(u, d)) == Add(Add(a, b), Mul(u, Add(c, d)))
  {
    MulAdd(u, c, d);
  }

  // The recursive transform is the Fourier sum.
  lemma {:induction false} DitIsDft(r: Roots, M: nat, x: seq<Complex>, s: nat, off: int, j: int)
    requires s <= M <= r.L && r.Valid()
    ensures Dit(r, M, x, s, off, j) == Dft(r, M, x, s, off, j, Pow2(s))
    decreases s
  {
    hide Dit, Pow2, Dft, Add, Mul, At, Roots.Valid;
    if s == 0 {
      OneTerm(r, M, x, off, j);
    } else {
      DitStep(r, M, x, s, off, j);
      Doubled(s - 1);
      DitIsDft(r, M, x, s - 1, off, j);
      DitIsDft(r, M, x, s - 1, off + Pow2(M - s), j);
      DftSplits(r, M, x, s, off, j, Pow2(s - 1));
    }
  }

  lemma OneTerm(r: Roots, M: nat, x: seq<Complex>, off: int, j: int)
    requires M <= r.L && r.Valid()
    ensures Pow2(0) == 1 && Dit(r, M, x, 0, off, j) == At(x, off) == Dft(r, M, x, 0, off, j, 1)
  {
    assert Pow2(0) == 1 && Dit(r, M, x, 0, off, j) == At(x, off);
    hide Pow2;
    assert j * (0 * Pow2(r.L - 0)) == 0 && off + 0 * Pow2(M - 0) == off;
    assert Dft(r, M, x, 0, off, j, 0) == Zero;
    assert Mul(One, At(x, off)) == At(x, off);
  }

  // --- inversion ---

  // Sum over lo <= k < lo + n of w(-(k * m * 2^(L-s))) times coefficient k.
  ghost function Back(r: Roots, M: nat, x: seq<Complex>, s: nat, off: int, m: nat, lo: nat, n: nat): Complex
    requires s <= M <= r.L
  {
    if n == 0 then Zero
    else Add(Back(r, M, x, s, off, m, lo, n - 1), BackTerm(r, M, x, s, off, m, lo + n - 1))
  }

  ghost function BackTerm(r: Roots, M: nat, x: seq<Complex>, s: nat, off: int, m: nat, k: nat): Complex
    requires s <= M <= r.L
  {
    Mul(r.w(-(k * (m * Pow2(r.L - s)))), Dit(r, M, x, s, off, k))
  }

  lemma {:induction false} BackConcat(r: Roots, M: nat, x: seq<Complex>, s: nat, off: int, m: nat, h: nat, n: nat)
    requires s <= M <= r.L
    ensures Back(r, M, x, s, off, m, 0, h + n)
         == Add(Back(r, M, x, s, off, m, 0, h), Back(r, M, x, s, off, m, h, n))
  {
    hide BackTerm;
    if n > 0 {
      BackConcat(r, M, x, s, off, m, h, n - 1);
      assert 0 + (h + n) - 1 == h + n - 1 && h + (n - 1) == h + n - 1;
    }
  }

  // Half a transform further, the backward factor repeats (m even) or changes sign (m odd).
  lemma BackFactor(r: Roots, s: nat, m: nat, k: nat)
    requires 1 <= s <= r.L && r.Valid()
    ensures var v := r.w(-(k * (m * Pow2(r.L - s))));
            r.w(-((k + Pow2(s - 1)) * (m * Pow2(r.L - s)))) == if m % 2 == 0 then v else Sub(Zero, v)
  {
    hide Pow2, Roots.Valid, Sub;
    var e, h, full, q := Pow2(r.L - s), Pow2(s - 1), Pow2(r.L), m / 2;
    assert h * e == Pow2(r.L - 1) && full == 2 * Pow2(r.L - 1) by {
      Pow2Add(s - 1, r.L - s);
      Pow2Add(1, r.L - 1);
      OnePower();
    }
    var a := -((k + h) * (m * e));
    BackExponent(k, h, m, e);
    assert m * (h * e) == q * full + (m % 2) * (h * e) by {
      HalfMultiple(m, h * e);
    }
    r.FullTurns(a, q);
    if m % 2 == 1 {
      r.HalfTurn(a + q * full);
      Negate(r.w(a + q * full));
    }
  }

  lemma HalfMultiple(m: nat, b: int)
    ensures m * b == m / 2 * (2 * b) + (m % 2) * b
  {
  }

  lemma Negate(a: Complex)
    ensures Sub(Zero, Sub(Zero, a)) == a
  {
  }

  lemma BackExponent(k: nat, h: nat, m: nat, e: nat)
    ensures -((k + h) * (m * e)) + m * (h * e) == -(k * (m * e))
  {
  }

  // The sample a pair of backward terms selects at the next level.
  ghost function Select(M: nat, s: nat, off: int, m: nat): int
    requires 1 <= s <= M
  {
    if m % 2 == 0 then off else off + Pow2(M - s)
  }

  // Terms k and k + 2^(s-1) fold into twice term k of a half-size inversion.
  lemma PairFolds(r: Roots, M: nat, x: seq<Complex>, s: nat, off: int, m: nat, k: nat)
    requires 1 <= s <= M <= r.L && r.Valid()
    ensures Add(BackTerm(r, M, x, s, off, m, k), BackTerm(r, M, x, s, off, m, Pow2(s - 1) + k))
         == Scale(2.0, BackTerm(r, M, x, s - 1, Select(M, s, off, m), m / 2, k))
  {
    hide Pow2, Mul, Add, Sub, Scale, Dit, Roots.Valid;
    var e, h := Pow2(r.L - s), Pow2(s - 1);
    var E, O := Dit(r, M, x, s - 1, off, k), Dit(r, M, x, s - 1, off + Pow2(M - s), k);
    var u, v := r.w(k * e), r.w(-(k * (m * e)));
    LowerHalf(r, M, x, s - 1, off, k);
    UpperHalf(r, M, x, s - 1, off, k);
    BackFactor(r, s, m, k);
    assert h + k == k + h;
    assert Pow2(r.L - (s - 1)) == 2 * e by {
      Pow2Add(1, r.L - s);
      OnePower();
    }
    FoldExponent(k, m, e);
    if m % 2 == 0 {
      FoldEven(v, u, E, O);
    } else {
      r.Product(k * e, -(k * (m * e)));
      FoldOdd(v, u, E, O);
    }
  }

  lemma FoldExponent(k: nat, m: nat, e: nat)
    ensures m % 2 == 0 ==> k * (m * e) == k * (m / 2 * (2 * e))
    ensures m % 2 == 1 ==> k * e - k * (m * e) == -(k * (m / 2 * (2 * e)))
  {
    var q := m / 2;
    assert m == 2 * q + m % 2;
    if m % 2 == 1 {
      assert (2 * q + 1) * e == q * (2 * e) + e;
      assert k * (q * (2 * e) + e) == k * (q * (2 * e)) + k * e;
    } else {
      assert (2 * q) * e == q * (2 * e);
    }
  }

  lemma FoldEven(v: Complex, u: Complex, a: Complex, b: Complex)
    ensures Add(Mul(v, Add(a, Mul(u, b))), Mul(v, Sub(a, Mul(u, b)))) == Scale(2.0, Mul(v, a))
  {
    var c := Mul(u, b);
    hide Mul;
    FoldSum(v, a, c);
  }

  lemma FoldSum(v: Complex, a: Complex, c: Complex)
    ensures Add(Mul(v, Add(a, c)), Mul(v, Sub(a, c))) == Scale(2.0, Mul(v, a))
    ensures Add(Mul(v, Add(a, c)), Mul(Sub(Zero, v), Sub(a, c))) == Scale(2.0, Mul(v, c))
  {
    hide Mul;
    MulAdd(v, a, c);
    MulSub(v, a, c);
    MulNegated(v, Sub(a, c));
  }

  lemma FoldOdd(v: Complex, u: Complex, a: Complex, b: Complex)
    ensures Add(Mul(v, Add(a, Mul(u, b))), Mul(Sub(Zero, v), Sub(a, Mul(u, b)))) == Scale(2.0, Mul(Mul(u, v), b))
  {
    var c := Mul(u, b);
    MulAssoc(v, u, b);
    MulComm(u, v);
    hide Mul;
    FoldSum(v, a, c);
  }

  lemma {:induction false} HalvesFold(r: Roots, M: nat, x: seq<Complex>, s: nat, off: int, m: nat, n: nat)
    requires 1 <= s <= M <= r.L && r.Valid()
    ensures Add(Back(r, M, x, s, off, m, 0, n), Back(r, M, x, s, off, m, Pow2(s - 1), n))
         == Scale(2.0, Back(r, M, x, s - 1, Select(M, s, off, m), m / 2, 0, n))
  {
    hide Pow2, BackTerm, Select;
    if n > 0 {
      var h := Pow2(s - 1);
      HalvesFold(r, M, x, s, off, m, n - 1);
      PairFolds(r, M, x, s, off, m, n - 1);
      assert 0 + n - 1 == n - 1 && h + n - 1 == h + (n - 1);
    }
  }

  // The backward sum over all coefficients is 2^s times the sample.
  lemma {:induction false} BackIsSample(r: Roots, M: nat, x: seq<Complex>, s: nat, off: int, m: nat)
    requires s <= M <= r.L && r.Valid() && m < Pow2(s)
    ensures Back(r, M, x, s, off, m, 0, Pow2(s)) == Scale(Pow2(s) as real, At(x, off + m * Pow2(M - s)))
    decreases s
  {
    hide Pow2, Back, At, Scale, Select, Roots.Valid;
    if s == 0 {
      OneBackSample(r, M, x, off, m);
    } else {
      var h := Pow2(s - 1);
      Doubled(s - 1);
      BackIsSample(r, M, x, s - 1, Select(M, s, off, m), m / 2);
      BackStep(r, M, x, s, off, m, h);
      TwoHalves(Pow2(s), h);
    }
  }

  lemma TwoHalves(n: int, h: int)
    requires n == 2 * h
    ensures n as real == 2.0 * h as real && n == h + h
  {
  }

  lemma OneBackSample(r: Roots, M: nat, x: seq<Complex>, off: int, m: nat)
    requires M <= r.L && r.Valid() && m < Pow2(0)
    ensures Back(r, M, x, 0, off, m, 0, Pow2(0)) == Scale(Pow2(0) as real, At(x, off + m * Pow2(M - 0)))
  {
    assert Pow2(0) == 1 && m == 0;
    hide Pow2, Back, At, Roots.Valid;
    OneBackTerm(r, M, x, off);
    assert off + 0 * Pow2(M - 0) == off;
  }

  lemma BackStep(r: Roots, M: nat, x: seq<Complex>, s: nat, off: int, m: nat, h: nat)
    requires 1 <= s <= M <= r.L && r.Valid() && h == Pow2(s - 1)
    requires var i := Select(M, s, off, m) + m / 2 * Pow2(M - (s - 1));
             Back(r, M, x, s - 1, Select(M, s, off, m), m / 2, 0, h) == Scale(h as real, At(x, i))
    ensures Back(r, M, x, s, off, m, 0, h + h) == Scale(2.0 * h as real, At(x, off + m * Pow2(M - s)))
  {
    hide Pow2, Back, At, Roots.Valid, Scale, Add, Select;
    BackConcat(r, M, x, s, off, m, h, h);
    HalvesFold(r, M, x, s, off, m, h);
    SelectSample(M, s, off, m);
    ScaleTwice(2.0, h as real, At(x, off + m * Pow2(M - s)));
  }

  lemma SelectSample(M: nat, s: nat, off: int, m: nat)
    requires 1 <= s <= M
    ensures Select(M, s, off, m) + m / 2 * Pow2(M - (s - 1)) == off + m * Pow2(M - s)
  {
    assert Pow2(M - (s - 1)) == 2 * Pow2(M - s);
    hide Pow2;
    HalfMultiple(m, Pow2(M - s));
  }

  lemma OneBackTerm(r: Roots, M: nat, x: seq<Complex>, off: int)
    requires M <= r.L && r.Valid()
    ensures Back(r, M, x, 0, off, 0, 0, 1) == At(x, off)
  {
    hide Pow2;
    assert -(0 * (0 * Pow2(r.L - 0))) == 0;
    assert Back(r, M, x, 0, off, 0, 0, 0) == Zero;
    assert Mul(One, At(x, off)) == At(x, off);
  }
}
