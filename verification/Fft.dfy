// ffts and iffts (lines 88-824 and 826-1562 of fftlib.c) on one row, and the
// laws of the two transforms.
module Fft {
  import opened Numbers
  import opened Complexes
  import opened Transform
  import opened Stages
  import opened FourierSum
  import FixUp
  import BitReversal
  import RadixEight

  function Scaled(k: real, x: seq<Complex>): (y: seq<Complex>)
    ensures |y| == |x|
  {
    seq(|x|, i requires 0 <= i < |x| => Scale(k, x[i]))
  }

  function Conjugated(x: seq<Complex>): (y: seq<Complex>)
    ensures |y| == |x|
  {
    seq(|x|, i requires 0 <= i < |x| => Conj(x[i]))
  }

  // The full transform, by the plain recursive algorithm.
  ghost function Spectrum(r: Roots, M: nat, x: seq<Complex>): (y: seq<Complex>)
    requires M <= r.L
    ensures |y| == Pow2(M)
  {
    seq(Pow2(M), k requires 0 <= k < Pow2(M) => Dit(r, M, x, M, 0, k))
  }

  // --- from the first pass to the last ---

  lemma FirstPassStaged(r: Roots, M: nat, x: seq<Complex>, scale: real, a: seq<Complex>)
    requires 3 <= M <= r.L && r.Valid() && |a| == |x| == Pow2(M)
    requires forall p :: 0 <= p < |a| ==> a[p] == BitReversal.Shuffled(M, scale, x, p)
    ensures Staged(r, M, Scaled(scale, x), 1, a)
  {
    forall p | 0 <= p < |a|
      ensures a[p] == Slot(r, M, Scaled(scale, x), 1, p)
    {
      FirstPassSlot(r, M, x, scale, p);
    }
  }

  lemma FirstPassSlot(r: Roots, M: nat, x: seq<Complex>, scale: real, p: nat)
    requires 3 <= M <= r.L && r.Valid() && p < |x| == Pow2(M)
    ensures BitReversal.Shuffled(M, scale, x, p) == Slot(r, M, Scaled(scale, x), 1, p)
  {
    hide Rev, Pow2, Scale, Add, Sub, Slot, BitReversal.Shuffled, Dit;
    var off := Rev(M - 1, p / 2);
    SlotOne(r, M, Scaled(scale, x), p);
    DitOne(r, M, Scaled(scale, x), off);
    ShuffledAt(M, scale, x, p);
    ScaledAt(scale, x, off);
    ScaledAt(scale, x, off + Pow2(M - 1));
    ScaleSum(scale, At(x, off), At(x, off + Pow2(M - 1)));
  }

  lemma SlotOne(r: Roots, M: nat, x: seq<Complex>, p: nat)
    requires 3 <= M <= r.L
    ensures Slot(r, M, x, 1, p) == Dit(r, M, x, 1, Rev(M - 1, p / 2), p % 2)
  {
    assert Pow2(1) == 2;
    hide Dit, Rev, Pow2;
  }

  lemma DitOne(r: Roots, M: nat, x: seq<Complex>, off: int)
    requires 3 <= M <= r.L && r.Valid()
    ensures Dit(r, M, x, 1, off, 0) == Add(At(x, off), At(x, off + Pow2(M - 1)))
    ensures Dit(r, M, x, 1, off, 1) == Sub(At(x, off), At(x, off + Pow2(M - 1)))
  {
    assert Pow2(0) == 1;
    DitZero(r, M, x, off);
    hide Pow2, Add, Sub, Mul, At, Dit, Roots.Valid;
    LowerHalf(r, M, x, 0, off, 0);
    UpperHalf(r, M, x, 0, off, 0);
    TwiddleZero(r, 0);
    MulOne(At(x, off + Pow2(M - 1)));
  }

  lemma DitZero(r: Roots, M: nat, x: seq<Complex>, off: int)
    requires 1 <= M <= r.L
    ensures Dit(r, M, x, 0, off, 0) == At(x, off)
    ensures Odd(r, M, x, 0, off, 0) == At(x, off + Pow2(M - 1))
  {
  }

  lemma ShuffledAt(M: nat, scale: real, x: seq<Complex>, p: nat)
    requires M >= 3
    ensures var a, b := At(x, Rev(M - 1, p / 2)), At(x, Rev(M - 1, p / 2) + Pow2(M - 1));
            BitReversal.Shuffled(M, scale, x, p) == Scale(scale, if p % 2 == 0 then Add(a, b) else Sub(a, b))
  {
    hide Rev, Pow2, Scale, Add, Sub, At;
    RevStep(M - 1, p / 2, 0);
    RevStep(M - 1, p / 2, 1);
    assert p - p % 2 == 2 * (p / 2) + 0;
  }

  lemma TwiddleZero(r: Roots, s: nat)
    requires s < r.L && r.Valid()
    ensures Twiddle(r, s, 0) == One
  {
  }

  lemma MulOne(a: Complex)
    ensures Mul(One, a) == a
  {
  }

  lemma ScaledAt(k: real, x: seq<Complex>, i: int)
    ensures At(Scaled(k, x), i) == Scale(k, At(x, i))
  {
  }

  lemma ScaleSum(k: real, a: Complex, b: Complex)
    ensures Scale(k, Add(a, b)) == Add(Scale(k, a), Scale(k, b))
    ensures Scale(k, Sub(a, b)) == Sub(Scale(k, a), Scale(k, b))
  {
  }

  lemma LastStage(r: Roots, M: nat, x: seq<Complex>, a: seq<Complex>)
    requires M <= r.L && Staged(r, M, x, M, a)
    ensures a == Spectrum(r, M, x)
  {
    forall p | 0 <= p < |a|
      ensures a[p] == Dit(r, M, x, M, 0, p)
    {
      DivMod(0, Pow2(M), p);
      assert M - M == 0;
    }
  }

  // The common text of ffts, iffts and the complex part of rffts and riffts.
  // tbl is log2 of the transform size the cosine table was made for.
  method ComplexTransform(io: array<Complex>, M: nat, tbl: nat, utbl: seq<real>, half: real, dir: real, scale: real,
                   ghost r: Roots)
    requires 3 <= M <= tbl == r.L && io.Length == Pow2(M)
    requires r.Valid() && r.dir == dir && r.Tabulated(utbl) && half > 0.0 && half * half == 0.5
    modifies io
    ensures io[..] == Spectrum(r, M, Scaled(scale, old(io[..])))
  {
    hide Staged, Spectrum, Roots.Tabulated, Roots.Valid, BitReversal.Shuffled, Pow2;
    ghost var x := io[..];
    ghost var X := Scaled(scale, x);
    BitReversal.BitrevR2(io, M, scale);
    FirstPassStaged(r, M, x, scale, io[..]);

    var ndiffU, n4, loopN: nat := 2, Pow2(tbl) / 4, Pow2(M - 3);
    var stage := (M - 1) / 3;
    var rest := M - 1 - 3 * stage;
    if rest != 0 {
      FixUp.FixUpStage(io, M, rest, loopN, half, dir, r, X);
      if rest == 1 {
        n4, loopN, ndiffU := n4 / 2, loopN / 2, ndiffU * 2;
      } else {
        n4, loopN, ndiffU := n4 / 4, loopN / 4, ndiffU * 4;
      }
    }
    StrideCounts(r.L, M, rest);
    RadixEight.Radix8Stages(io, M, tbl, stage, n4, loopN, ndiffU, utbl, dir, r, X, 1 + rest);
    LastStage(r, M, X, io[..]);
  }

  lemma StrideCounts(L: nat, M: nat, rest: nat)
    requires 3 <= M <= L && rest <= 2
    ensures M >= rest + 4 ==>
              && Pow2(L) / 4 / Pow2(rest) == Pow2(L - rest - 2)
              && Pow2(M - 3) / Pow2(rest) == Pow2(M - rest - 3)
    ensures Pow2(rest) == (if rest == 0 then 1 else if rest == 1 then 2 else 4)
    ensures 2 * Pow2(rest) == Pow2(1 + rest)
  {
    assert Pow2(0) == 1 && Pow2(1) == 2 && Pow2(2) == 4;
    assert Pow2(L) == 2 * Pow2(L - 1) && Pow2(L - 1) == 2 * Pow2(L - 2);
    if M >= rest + 4 && rest >= 1 {
      assert Pow2(L - 2) == 2 * Pow2(L - 3) && Pow2(M - 3) == 2 * Pow2(M - 4);
      if rest == 2 {
        assert Pow2(L - 3) == 2 * Pow2(L - 4) && Pow2(M - 4) == 2 * Pow2(M - 5);
      }
    }
  }

  // Forward transform.  half is the literal sqrt(0.5) of the radix-4 stage.
  method Ffts(io: array<Complex>, M: nat, utbl: seq<real>, half: real, ghost r: Roots)
    requires 3 <= M == r.L && io.Length == Pow2(M)
    requires r.Valid() && r.dir == 1.0 && r.Tabulated(utbl) && half > 0.0 && half * half == 0.5
    modifies io
    ensures io[..] == Spectrum(r, M, old(io[..]))
  {
    hide Spectrum, Roots.Valid, Roots.Tabulated;
    ComplexTransform(io, M, M, utbl, half, 1.0, 1.0, r);
    assert Scaled(1.0, old(io[..])) == old(io[..]);
  }

  // Inverse transform: the first pass scales by 1/N.
  method Iffts(io: array<Complex>, M: nat, utbl: seq<real>, half: real, ghost r: Roots)
    requires 3 <= M == r.L && io.Length == Pow2(M)
    requires r.Valid() && r.dir == 1.0 && r.Tabulated(utbl) && half > 0.0 && half * half == 0.5
    modifies io
    ensures io[..] == Spectrum(r.Mirror(), M, Scaled(1.0 / Pow2(M) as real, old(io[..])))
  {
    r.MirrorValid();
    hide Spectrum, Roots.Valid;
    ComplexTransform(io, M, M, utbl, half, -1.0, 1.0 / Pow2(M) as real, r.Mirror());
  }

  // --- laws ---

  // x[0] * w(0) + .. + x[n-1] * w(k * (n-1)).
  ghost function FourierCoefficient(r: Roots, x: seq<Complex>, k: int, n: nat): Complex
    requires n <= |x|
  {
    if n == 0 then Zero
    else Add(FourierCoefficient(r, x, k, n - 1), Mul(r.w(k * (n - 1)), x[n - 1]))
  }

  lemma {:induction false} CoefficientIsDft(r: Roots, M: nat, x: seq<Complex>, k: int, n: nat)
    requires M == r.L && n <= |x|
    ensures FourierCoefficient(r, x, k, n) == Dft(r, M, x, M, 0, k, n)
  {
    if n > 0 {
      CoefficientIsDft(r, M, x, k, n - 1);
      assert Pow2(r.L - M) == 1 && Pow2(M - M) == 1;
      hide Mul, Add;
      assert (n - 1) * 1 == n - 1 && 0 + (n - 1) * 1 == n - 1;
    }
  }

  // ffts computes the discrete Fourier transform.
  lemma SpectrumIsFourier(r: Roots, M: nat, x: seq<Complex>, k: nat)
    requires r.Valid() && M == r.L && |x| == Pow2(M) && k < Pow2(M)
    ensures Spectrum(r, M, x)[k] == FourierCoefficient(r, x, k, |x|)
  {
    DitIsDft(r, M, x, M, 0, k);
    CoefficientIsDft(r, M, x, k, |x|);
  }

  // An impulse at sample 1 turns clockwise: a quarter of the way through the spectrum
  // of ffts it has reached -i, of iffts i.
  lemma ImpulseTurns(r: Roots, M: nat, x: seq<Complex>)
    requires r.Valid() && M == r.L && |x| == Pow2(M) && |x| >= 2 && x[1] == One
    requires forall n :: 0 <= n < |x| && n != 1 ==> x[n] == Zero
    ensures Pow2(M - 2) < |x| && Spectrum(r, M, x)[Pow2(M - 2)] == if r.dir == 1.0 then C(0.0, -1.0) else C(0.0, 1.0)
  {
    hide Spectrum;
    assert Pow2(M) == 4 * Pow2(M - 2);
    hide Pow2;
    var k := Pow2(M - 2);
    SpectrumIsFourier(r, M, x, k);
    ImpulseSum(r, x, k, |x|);
    assert 1 * k == k;
  }

  lemma {:induction false} ImpulseSum(r: Roots, x: seq<Complex>, k: nat, n: nat)
    requires 2 <= n <= |x| && x[1] == One && forall n :: 0 <= n < |x| && n != 1 ==> x[n] == Zero
    ensures FourierCoefficient(r, x, k, n) == r.w(k * 1)
    decreases n
  {
    hide FourierCoefficient, Add, Mul;
    CoefficientStep(r, x, k, n);
    Neutral(r.w(k * (n - 1)));
    if n > 2 {
      ImpulseSum(r, x, k, n - 1);
      Neutral(r.w(k * 1));
    } else {
      CoefficientStep(r, x, k, 1);
      Neutral(r.w(k * (1 - 1)));
      Neutral(Zero);
    }
  }

  lemma CoefficientStep(r: Roots, x: seq<Complex>, k: nat, n: nat)
    requires 1 <= n <= |x|
    ensures FourierCoefficient(r, x, k, n) == Add(FourierCoefficient(r, x, k, n - 1), Mul(r.w(k * (n - 1)), x[n - 1]))
    ensures FourierCoefficient(r, x, k, 0) == Zero
  {
    hide Add, Mul;
  }

  lemma Neutral(a: Complex)
    ensures Mul(a, One) == a && Mul(a, Zero) == Zero && Add(a, Zero) == a && Add(Zero, a) == a
  {
  }

  // Scaling and conjugation pass through the transform.
  lemma {:induction false} DitScaled(r: Roots, M: nat, x: seq<Complex>, c: real, s: nat, off: int, j: int)
    requires s <= M <= r.L
    ensures Dit(r, M, Scaled(c, x), s, off, j) == Scale(c, Dit(r, M, x, s, off, j))
    decreases s
  {
    if s == 0 {
      ScaledAt(c, x, off);
    } else {
      DitScaled(r, M, x, c, s - 1, off, j);
      DitScaled(r, M, x, c, s - 1, off + Pow2(M - s), j);
      hide Scaled, Mul, Add, Scale, Pow2;
      var u := r.w(j * Pow2(r.L - s));
      var a, b := Dit(r, M, x, s - 1, off, j), Dit(r, M, x, s - 1, off + Pow2(M - s), j);
      MulScale(c, u, b);
      ScaleSum(c, a, Mul(u, b));
    }
  }

  lemma {:induction false} DitMirrored(r: Roots, M: nat, x: seq<Complex>, s: nat, off: int, j: int)
    requires s <= M <= r.L
    ensures Dit(r.Mirror(), M, x, s, off, j) == Conj(Dit(r, M, Conjugated(x), s, off, j))
    decreases s
  {
    if s == 0 {
    } else {
      DitMirrored(r, M, x, s - 1, off, j);
      DitMirrored(r, M, x, s - 1, off + Pow2(M - s), j);
      hide Conjugated, Pow2;
      var y, u := Conjugated(x), r.w(j * Pow2(r.L - s));
      ConjSum(Dit(r, M, y, s - 1, off, j), u, Dit(r, M, y, s - 1, off + Pow2(M - s), j));
    }
  }

  lemma ConjSum(a: Complex, u: Complex, b: Complex)
    ensures Conj(Add(a, Mul(u, b))) == Add(Conj(a), Mul(Conj(u), Conj(b)))
  {
  }

  // iffts(x) = conj(ffts(conj(x))) / N.
  lemma IfftsIsMirror(r: Roots, M: nat, x: seq<Complex>, c: real)
    requires M <= r.L
    ensures Spectrum(r.Mirror(), M, Scaled(c, x)) == Scaled(c, Conjugated(Spectrum(r, M, Conjugated(x))))
  {
    forall k: nat | k < Pow2(M)
      ensures Dit(r.Mirror(), M, Scaled(c, x), M, 0, k) == Scale(c, Conj(Dit(r, M, Conjugated(x), M, 0, k)))
    {
      DitScaled(r.Mirror(), M, x, c, M, 0, k);
      DitMirrored(r, M, x, M, 0, k);
    }
  }

  // The mirrored Fourier sum of a spectrum is the backward sum.
  lemma {:induction false} MirroredSum(r: Roots, M: nat, x: seq<Complex>, m: nat, n: nat)
    requires r.Valid() && M <= r.L && n <= Pow2(M)
    ensures Dft(r.Mirror(), M, Spectrum(r, M, x), M, 0, m, n) == Back(r, M, x, M, 0, m, 0, n)
  {
    if n > 0 {
      MirroredSum(r, M, x, m, n - 1);
      MirroredTerm(r, M, x, m, n - 1);
    }
  }

  lemma MirroredTerm(r: Roots, M: nat, x: seq<Complex>, m: nat, k: nat)
    requires r.Valid() && M <= r.L && k < Pow2(M)
    ensures Term(r.Mirror(), M, Spectrum(r, M, x), M, 0, m, k) == BackTerm(r, M, x, M, 0, m, k)
  {
    hide Mul, Dit, Roots.Valid, Pow2, Conj, Spectrum, At;
    var e := Pow2(r.L - M);
    SwapFactors(k, m, e);
    r.Inverse(m * (k * e));
    SpectrumAt(r, M, x, k);
  }

  lemma SwapFactors(k: int, m: int, e: int)
    ensures k * (m * e) == m * (k * e)
  {
    assert k * (m * e) == (k * m) * e;
  }

  lemma SpectrumAt(r: Roots, M: nat, x: seq<Complex>, k: nat)
    requires M <= r.L && k < Pow2(M)
    ensures At(Spectrum(r, M, x), 0 + k * Pow2(M - M)) == Dit(r, M, x, M, 0, k)
  {
    assert Pow2(M - M) == 1;
  }

  // The inverse transform undoes the forward one, and conversely.
  lemma RoundTrip(r: Roots, M: nat, x: seq<Complex>)
    requires r.Valid() && M <= r.L && |x| == Pow2(M)
    ensures Spectrum(r.Mirror(), M, Scaled(1.0 / Pow2(M) as real, Spectrum(r, M, x))) == x
  {
    hide Dit, Pow2, Roots.Valid, Roots.Mirror, Scaled;
    SameLevel(r);
    var c := 1.0 / Pow2(M) as real;
    forall m: nat | m < Pow2(M)
      ensures Dit(r.Mirror(), M, Scaled(c, Spectrum(r, M, x)), M, 0, m) == x[m]
    {
      RoundTripAt(r, M, x, m, c);
    }
  }

  lemma RoundTripAt(r: Roots, M: nat, x: seq<Complex>, m: nat, c: real)
    requires r.Valid() && M <= r.L && m < |x| == Pow2(M) && c * Pow2(M) as real == 1.0
    ensures Dit(r.Mirror(), M, Scaled(c, Spectrum(r, M, x)), M, 0, m) == x[m]
  {
    hide Scaled, Scale, Roots.Valid, Dit, Pow2, Spectrum, Roots.Mirror;
    SameLevel(r);
    DitScaled(r.Mirror(), M, Spectrum(r, M, x), c, M, 0, m);
    BackTransform(r, M, x, m);
    ScaleBack(c, Pow2(M) as real, Dit(r.Mirror(), M, Spectrum(r, M, x), M, 0, m), x[m]);
  }

  lemma ScaleBack(c: real, n: real, d: Complex, a: Complex)
    requires c * n == 1.0 && d == Scale(n, a)
    ensures Scale(c, d) == a
  {
    ScaleTwice(c, n, a);
  }

  // Unscaled, the inverse transform returns N times each sample.
  lemma BackTransform(r: Roots, M: nat, x: seq<Complex>, m: nat)
    requires r.Valid() && M <= r.L && m < |x| == Pow2(M)
    ensures Dit(r.Mirror(), M, Spectrum(r, M, x), M, 0, m) == Scale(Pow2(M) as real, x[m])
  {
    hide Scale, Roots.Valid, Dit, Pow2, Back, Dft, At, Roots.Mirror;
    var X := Spectrum(r, M, x);
    r.MirrorValid();
    SameLevel(r);
    DitIsDft(r.Mirror(), M, X, M, 0, m);
    MirroredSum(r, M, x, m, Pow2(M));
    BackIsSample(r, M, x, M, 0, m);
    LastSample(M, x, m);
  }

  lemma SameLevel(r: Roots)
    ensures r.Mirror().L == r.L
  {
  }

  lemma LastSample(M: nat, x: seq<Complex>, m: nat)
    requires m < |x|
    ensures At(x, 0 + m * Pow2(M - M)) == x[m]
  {
    assert Pow2(M - M) == 1;
  }

  lemma RoundTripBack(r: Roots, M: nat, x: seq<Complex>)
    requires r.Valid() && M <= r.L && |x| == Pow2(M)
    ensures Spectrum(r, M, Spectrum(r.Mirror(), M, Scaled(1.0 / Pow2(M) as real, x))) == x
  {
    var c, m := 1.0 / Pow2(M) as real, r.Mirror();
    r.MirrorValid();
    RoundTrip(m, M, x);
    var y := Spectrum(m, M, x);
    SameRoots(r);
    forall k: nat | k < Pow2(M)
      ensures Dit(r, M, Spectrum(m, M, Scaled(c, x)), M, 0, k) == x[k]
    {
      assert Spectrum(m, M, Scaled(c, x)) == Scaled(c, y) by {
        forall i: nat | i < Pow2(M)
          ensures Dit(m, M, Scaled(c, x), M, 0, i) == Scale(c, Dit(m, M, x, M, 0, i))
        {
          DitScaled(m, M, x, c, M, 0, i);
        }
      }
      DitMirrorTwice(r, M, Scaled(c, y), M, 0, k);
      assert Spectrum(m.Mirror(), M, Scaled(c, y))[k] == x[k];
    }
  }

  lemma SameRoots(r: Roots)
    ensures forall a :: r.Mirror().Mirror().w(a) == r.w(a)
  {
    forall a
      ensures r.Mirror().Mirror().w(a) == r.w(a)
    {
      ConjTwice(r.w(a));
    }
  }

  lemma ConjTwice(a: Complex)
    ensures Conj(Conj(a)) == a
  {
  }

  lemma {:induction false} DitMirrorTwice(r: Roots, M: nat, x: seq<Complex>, s: nat, off: int, j: int)
    requires s <= M <= r.L
    ensures Dit(r.Mirror().Mirror(), M, x, s, off, j) == Dit(r, M, x, s, off, j)
    decreases s
  {
    SameRoots(r);
    if s > 0 {
      DitMirrorTwice(r, M, x, s - 1, off, j);
      DitMirrorTwice(r, M, x, s - 1, off + Pow2(M - s), j);
    }
  }
}
