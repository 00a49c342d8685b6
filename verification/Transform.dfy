// What the transforms of fftlib.c compute: the plain recursive radix-2
// decimation-in-time FFT over an abstract family of roots of unity, to which the
// in-place code is then compared stage by stage.
module Transform {
  import opened Numbers
  import opened Complexes

  // The value of x at slot i; slots outside the array read as zero.
  function At(x: seq<Complex>, i: int): Complex {
    if 0 <= i < |x| then x[i] else Zero
  }

  // Multiplication by -i (dir = 1) or +i (dir = -1).
  function Rot(dir: real, a: Complex): Complex {
    C(dir * a.im, -dir * a.re)
  }

  // The conjugate is the only inverse of a number of modulus one.
  lemma ConjUnique(a: Complex, b: Complex)
    requires a.re * a.re + a.im * a.im == 1.0 && Mul(a, b) == One
    ensures b == Conj(a)
  {
    MulAssoc(Conj(a), a, b);
    assert Mul(Conj(a), a) == One;
    assert Mul(Conj(a), One) == Conj(a);
    assert Mul(One, b) == b;
  }

  // w(k) stands for exp(-dir * 2 * pi * i * k / 2^L).
  datatype Roots = Roots(w: int -> Complex, L: nat, dir: real) {

    ghost predicate Multiplies(a: int, b: int) {
      w(a + b) == Mul(w(a), w(b))
    }

    ghost predicate Unit(a: int) {
      w(a).re * w(a).re + w(a).im * w(a).im == 1.0
    }

    // The group law, the unit modulus, the quarter turn, and which square root
    // of it the eighth turn is: all that the code relies on.
    ghost predicate Valid() {
      && L >= 3
      && (dir == 1.0 || dir == -1.0)
      && (forall a, b :: Multiplies(a, b))
      && (forall a :: Unit(a))
      && w(Pow2(L - 2)) == C(0.0, -dir)
      && w(0) == One
      && w(Pow2(L - 3)).re > 0.0
    }

    // Utbl holds the cosines of the first quadrant; the sine of an angle is the
    // cosine of its complement.
    ghost predicate Tabulated(utbl: seq<real>) {
      && L >= 2
      && |utbl| == Pow2(L - 2) + 1
      && forall i :: 0 <= i <= Pow2(L - 2) ==> w(i) == C(utbl[i], -dir * utbl[Pow2(L - 2) - i])
    }

    lemma Product(a: int, b: int)
      requires Valid()
      ensures w(a + b) == Mul(w(a), w(b))
    {
      assert Multiplies(a, b);
    }

    lemma QuarterTurn(a: int)
      requires Valid()
      ensures w(a + Pow2(L - 2)) == Rot(dir, w(a))
    {
      Product(a, Pow2(L - 2));
    }

    lemma HalfTurn(a: int)
      requires Valid()
      ensures w(a + Pow2(L - 1)) == Sub(Zero, w(a))
    {
      QuarterTurn(a);
      QuarterTurn(a + Pow2(L - 2));
      assert Pow2(L - 1) == Pow2(L - 2) + Pow2(L - 2);
    }

    lemma FullTurn(a: int)
      requires Valid()
      ensures w(a + Pow2(L)) == w(a)
    {
      HalfTurn(a);
      HalfTurn(a + Pow2(L - 1));
      assert Pow2(L) == Pow2(L - 1) + Pow2(L - 1);
    }

    lemma Inverse(a: int)
      requires Valid()
      ensures w(-a) == Complexes.Conj(w(a))
    {
      Product(a, -a);
      assert Unit(a);
      ConjUnique(w(a), w(-a));
    }

    // The roots of the inverse transform.
    function Mirror(): Roots {
      Roots(a => Complexes.Conj(w(a)), L, -dir)
    }

    lemma MirrorValid()
      requires Valid()
      ensures Mirror().Valid()
    {
      var m := Mirror();
      forall a, b
        ensures m.Multiplies(a, b)
      {
        assert Multiplies(a, b);
      }
      forall a
        ensures m.Unit(a)
      {
        assert Unit(a);
      }
    }

    lemma {:induction false} FullTurns(a: int, n: nat)
      requires Valid()
      ensures w(a + n * Pow2(L)) == w(a)
    {
      if n == 0 {
        assert a + 0 * Pow2(L) == a;
      } else {
        FullTurns(a, n - 1);
        FullTurn(a + (n - 1) * Pow2(L));
        assert a + (n - 1) * Pow2(L) + Pow2(L) == a + n * Pow2(L);
      }
    }
  }

  // The recursive radix-2 decimation-in-time FFT: coefficient j of the
  // 2^s-point transform of x[off], x[off + 2^(M-s)], x[off + 2 * 2^(M-s)], ...
  ghost function Dit(r: Roots, M: nat, x: seq<Complex>, s: nat, off: int, j: int): Complex
    requires s <= M <= r.L
  {
    if s == 0 then At(x, off)
    else Add(Dit(r, M, x, s - 1, off, j),
             Mul(r.w(j * Pow2(r.L - s)), Dit(r, M, x, s - 1, off + Pow2(M - s), j)))
  }

  // A 2^s-point transform repeats with period 2^s.
  lemma DitPeriod(r: Roots, M: nat, x: seq<Complex>, s: nat, off: int, j: int, n: nat)
    requires s <= M <= r.L && r.Valid()
    ensures Dit(r, M, x, s, off, j + n * Pow2(s)) == Dit(r, M, x, s, off, j)
  {
    hide Pow2, Dit, Roots.Valid;
    DitShifted(r, M, x, s, off, j, n, j + n * Pow2(s));
  }

  lemma {:induction false} DitShifted(r: Roots, M: nat, x: seq<Complex>, s: nat, off: int, j: int, n: nat, j2: int)
    requires s <= M <= r.L && r.Valid() && j2 == j + n * Pow2(s)
    ensures Dit(r, M, x, s, off, j2) == Dit(r, M, x, s, off, j)
    decreases s
  {
    if s > 0 {
      hide Pow2, Roots.Valid, Add, Mul, Dit;
      HalfPeriod(n, s);
      DitShifted(r, M, x, s - 1, off, j, 2 * n, j2);
      DitShifted(r, M, x, s - 1, off + Pow2(M - s), j, 2 * n, j2);
      TwiddlePeriod(r, s, j, n, j2);
      DitStep(r, M, x, s, off, j);
      DitStep(r, M, x, s, off, j2);
    }
  }

  lemma HalfPeriod(n: nat, s: nat)
    requires s > 0
    ensures n * Pow2(s) == (2 * n) * Pow2(s - 1)
  {
    assert n * (2 * Pow2(s - 1)) == (2 * n) * Pow2(s - 1);
  }

  lemma TwiddlePeriod(r: Roots, s: nat, j: int, n: nat, j2: int)
    requires s <= r.L && r.Valid() && j2 == j + n * Pow2(s)
    ensures r.w(j2 * Pow2(r.L - s)) == r.w(j * Pow2(r.L - s))
  {
    hide Pow2;
    PeriodIndex(r.L, s, j, n);
    r.FullTurns(j * Pow2(r.L - s), n);
  }

  lemma DitStep(r: Roots, M: nat, x: seq<Complex>, s: nat, off: int, j: int)
    requires 0 < s <= M <= r.L
    ensures Dit(r, M, x, s, off, j)
            == Add(Dit(r, M, x, s - 1, off, j),
                   Mul(r.w(j * Pow2(r.L - s)), Dit(r, M, x, s - 1, off + Pow2(M - s), j)))
  {
  }

  // Twiddle and odd half of the butterfly that completes coefficient j.
  ghost function Twiddle(r: Roots, s: nat, j: int): Complex
    requires s < r.L
  {
    r.w(j * Pow2(r.L - s - 1))
  }

  ghost function Odd(r: Roots, M: nat, x: seq<Complex>, s: nat, off: int, j: int): Complex
    requires s < M <= r.L
  {
    Dit(r, M, x, s, off + Pow2(M - s - 1), j)
  }

  lemma TwiddleHalf(r: Roots, s: nat, j: int)
    requires s < r.L && r.Valid()
    ensures Twiddle(r, s, j + Pow2(s)) == Sub(Zero, Twiddle(r, s, j))
  {
    hide Pow2;
    PeriodIndex(r.L - 1, s, j, 1);
    assert r.L - 1 - s == r.L - s - 1;
    r.HalfTurn(j * Pow2(r.L - s - 1));
  }

  lemma LowerHalf(r: Roots, M: nat, x: seq<Complex>, s: nat, off: int, j: int)
    requires s < M <= r.L
    ensures Dit(r, M, x, s + 1, off, j)
         == Add(Dit(r, M, x, s, off, j), Mul(Twiddle(r, s, j), Odd(r, M, x, s, off, j)))
  {
  }

  // One radix-2 butterfly completes coefficients j and j + 2^s.
  lemma UpperHalf(r: Roots, M: nat, x: seq<Complex>, s: nat, off: int, j: int)
    requires s < M <= r.L && r.Valid()
    ensures Dit(r, M, x, s + 1, off, j + Pow2(s))
         == Sub(Dit(r, M, x, s, off, j), Mul(Twiddle(r, s, j), Odd(r, M, x, s, off, j)))
  {
    hide Pow2, Dit, Roots.Valid, Add, Sub, Mul, Twiddle;
    var j' := j + Pow2(s);
    LowerHalf(r, M, x, s, off, j');
    assert j' == j + 1 * Pow2(s);
    DitPeriod(r, M, x, s, off, j, 1);
    DitPeriod(r, M, x, s, off + Pow2(M - s - 1), j, 1);
    TwiddleHalf(r, s, j);
    AddNegated(Dit(r, M, x, s, off, j), Twiddle(r, s, j), Odd(r, M, x, s, off, j));
  }
}
