// The butterflies of ffts (dir = 1) and iffts (dir = -1).
module Butterflies {
  // The two functions of fftlib.c are the same text with the sign of every U?i
  // reversed, and with the quarter turns of the fix-up stages reversed; dir
  // carries that sign.

  import opened Numbers
  import opened Complexes
  import opened Transform

  // a - U*b, as  t1r = fly0r - U0r*fly1r - U0i*fly1i;  t1i = fly0i + U0i*fly1r - U0r*fly1i.
  function Down(dir: real, u: Complex, a: Complex, b: Complex): Complex {
    C(a.re - u.re * b.re - dir * u.im * b.im, a.im + dir * u.im * b.re - u.re * b.im)
  }

  // The partner of a butterfly output d, as  t0r = scale*fly0r - t1r  with scale = 2.
  function Up(a: Complex, d: Complex): Complex {
    C(2.0 * a.re - d.re, 2.0 * a.im - d.im)
  }

  // Down and Up with U turned by a quarter (marked U1a, U2a, U3a in the source).
  function DownTurned(dir: real, u: Complex, a: Complex, b: Complex): Complex {
    C(a.re + u.im * b.re - dir * u.re * b.im, a.im + dir * u.re * b.re + u.im * b.im)
  }

  function UpTurned(dir: real, u: Complex, a: Complex, b: Complex): Complex {
    C(a.re - u.im * b.re + dir * u.re * b.im, a.im - dir * u.re * b.re - u.im * b.im)
  }

  datatype Oct = Oct(o0: Complex, o1: Complex, o2: Complex, o3: Complex,
                     o4: Complex, o5: Complex, o6: Complex, o7: Complex)

  // The three stages of the radix-8 butterfly (lines 558-641 and 685-784 of fftlib.c).
  function FirstStage(dir: real, u0: Complex, f: Oct): Oct {
    var t1 := Down(dir, u0, f.o0, f.o1);
    var fly1 := Down(dir, u0, f.o2, f.o3);
    var fly0 := Down(dir, u0, f.o4, f.o5);
    var fly3 := Down(dir, u0, f.o6, f.o7);
    Oct(Up(f.o0, t1), t1, Up(f.o2, fly1), fly1, Up(f.o4, fly0), fly0, Up(f.o6, fly3), fly3)
  }

  function SecondStage(dir: real, u1: Complex, f: Oct): Oct {
    var fly5 := Down(dir, u1, f.o0, f.o2);
    var fly7 := DownTurned(dir, u1, f.o1, f.o3);
    var fly2 := Down(dir, u1, f.o4, f.o6);
    var fly1 := DownTurned(dir, u1, f.o5, f.o7);
    Oct(Up(f.o0, fly5), Up(f.o1, fly7), fly5, fly7, Up(f.o4, fly2), Up(f.o5, fly1), fly2, fly1)
  }

  function ThirdStage(dir: real, u2: Complex, u3: Complex, f: Oct): Oct {
    var fly6 := Down(dir, u2, f.o0, f.o4);
    var fly3 := UpTurned(dir, u2, f.o2, f.o6);
    var fly4 := Down(dir, u3, f.o1, f.o5);
    var fly5 := DownTurned(dir, u3, f.o3, f.o7);
    Oct(Up(f.o0, fly6), Up(f.o1, fly4), fly3, Up(f.o3, fly5), fly6, fly4, Up(f.o2, fly3), fly5)
  }

  function Radix8(dir: real, u0: Complex, u1: Complex, u2: Complex, u3: Complex, f: Oct): Oct {
    ThirdStage(dir, u2, u3, SecondStage(dir, u1, FirstStage(dir, u0, f)))
  }

  // The twiddle held in the registers (U?r, U?i) read from the cosine table.
  function Held(dir: real, u: Complex): Complex {
    C(u.re, -dir * u.im)
  }

  lemma DownIsSub(dir: real, u: Complex, a: Complex, b: Complex)
    ensures Down(dir, u, a, b) == Sub(a, Mul(Held(dir, u), b))
    ensures Up(a, Sub(a, Mul(Held(dir, u), b))) == Add(a, Mul(Held(dir, u), b))
  {
    var h := Held(dir, u);
    UpAgain(a, Mul(h, b));
    NegatedBy(-dir, dir, u.im);
    NegatedBy(h.im, dir * u.im, b.re);
    NegatedBy(h.im, dir * u.im, b.im);
  }

  // What DownTurned takes from a, and UpTurned adds to it.
  function Turned(dir: real, u: Complex, b: Complex): Complex {
    C(dir * u.re * b.im - u.im * b.re, -(dir * u.re * b.re) - u.im * b.im)
  }

  lemma TurnedSums(dir: real, u: Complex, a: Complex, b: Complex)
    ensures DownTurned(dir, u, a, b) == Sub(a, Turned(dir, u, b)) && UpTurned(dir, u, a, b) == Add(a, Turned(dir, u, b))
  {
  }

  lemma TurnedMul(dir: real, u: Complex, t: Complex, b: Complex)
    requires t.re == -u.im && t.im == -(dir * u.re)
    ensures Mul(t, b) == Turned(dir, u, b)
  {
    NegatedBy(t.re, u.im, b.re);
    NegatedBy(t.re, u.im, b.im);
    NegatedBy(t.im, dir * u.re, b.re);
    NegatedBy(t.im, dir * u.re, b.im);
  }

  lemma NegatedBy(x: real, y: real, z: real)
    requires x == -y
    ensures x * z == -(y * z)
  {
  }

  lemma UpAgain(a: Complex, p: Complex)
    ensures Up(a, Sub(a, p)) == Add(a, p) && Up(a, Add(a, p)) == Sub(a, p)
  {
  }

  lemma TurnedIsRot(dir: real, u: Complex, a: Complex, b: Complex)
    requires dir == 1.0 || dir == -1.0
    ensures var t := Rot(dir, Held(dir, u));
            && DownTurned(dir, u, a, b) == Sub(a, Mul(t, b))
            && UpTurned(dir, u, a, b) == Add(a, Mul(t, b))
            && Up(a, Sub(a, Mul(t, b))) == Add(a, Mul(t, b))
            && Up(a, Add(a, Mul(t, b))) == Sub(a, Mul(t, b))
  {
    hide Mul, Add, Sub, Up, DownTurned, UpTurned, Turned, Rot, Held;
    var t := Rot(dir, Held(dir, u));
    RotHeld(dir, u);
    TurnedMul(dir, u, t, b);
    TurnedSums(dir, u, a, b);
    UpAgain(a, Mul(t, b));
  }

  lemma RotHeld(dir: real, u: Complex)
    requires dir == 1.0 || dir == -1.0
    ensures Rot(dir, Held(dir, u)) == C(-u.im, -(dir * u.re))
  {
    if dir == 1.0 {
    } else {
    }
  }

  lemma TwiddleQuarter(r: Roots, s: nat, j: int, j2: int)
    requires 1 <= s < r.L && r.Valid() && j2 == j + Pow2(s - 1)
    ensures Twiddle(r, s, j2) == Rot(r.dir, Twiddle(r, s, j))
  {
    assert r.L - 2 - (s - 1) == r.L - s - 1;
    PeriodIndex(r.L - 2, s - 1, j, 1);
    r.QuarterTurn(j * Pow2(r.L - s - 1));
  }

  // One butterfly of the code completes coefficients j and j2 = j + 2^s from
  // the half transforms at off and off2.
  lemma Completes(r: Roots, M: nat, x: seq<Complex>, s: nat, off: int, off2: int, j: int, j2: int, u: Complex)
    requires s < M <= r.L && r.Valid() && Held(r.dir, u) == Twiddle(r, s, j)
    requires off2 == off + Pow2(M - s - 1) && j2 == j + Pow2(s)
    ensures var a := Dit(r, M, x, s, off, j);
            var d := Down(r.dir, u, a, Dit(r, M, x, s, off2, j));
            && d == Dit(r, M, x, s + 1, off, j2)
            && Up(a, d) == Dit(r, M, x, s + 1, off, j)
  {
    DownIsSub(r.dir, u, Dit(r, M, x, s, off, j), Odd(r, M, x, s, off, j));
    LowerHalf(r, M, x, s, off, j);
    UpperHalf(r, M, x, s, off, j);
  }

  lemma CompletesTurned(r: Roots, M: nat, x: seq<Complex>, s: nat, off: int, off2: int, j: int, j2: int, u: Complex)
    requires s < M <= r.L && r.Valid() && Rot(r.dir, Held(r.dir, u)) == Twiddle(r, s, j)
    requires off2 == off + Pow2(M - s - 1) && j2 == j + Pow2(s)
    ensures var a := Dit(r, M, x, s, off, j);
            var d := DownTurned(r.dir, u, a, Dit(r, M, x, s, off2, j));
            var e := UpTurned(r.dir, u, a, Dit(r, M, x, s, off2, j));
            && d == Dit(r, M, x, s + 1, off, j2) && Up(a, d) == e
            && e == Dit(r, M, x, s + 1, off, j) && Up(a, e) == d
  {
    TurnedIsRot(r.dir, u, Dit(r, M, x, s, off, j), Odd(r, M, x, s, off, j));
    LowerHalf(r, M, x, s, off, j);
    UpperHalf(r, M, x, s, off, j);
  }

  // The partial transforms around coefficient j of the 2^(s+3)-point transform
  // at off, after t of its last three stages.
  ghost function Partial(r: Roots, M: nat, x: seq<Complex>, s: nat, t: nat, off: int, j: int): Oct
    requires s + 3 <= M <= r.L && t <= 3
  {
    var S, h := Pow2(M - s - 3), Pow2(s);
    if t == 0 then
      Oct(Dit(r, M, x, s, off, j), Dit(r, M, x, s, off + 4 * S, j),
          Dit(r, M, x, s, off + 2 * S, j), Dit(r, M, x, s, off + 6 * S, j),
          Dit(r, M, x, s, off + S, j), Dit(r, M, x, s, off + 5 * S, j),
          Dit(r, M, x, s, off + 3 * S, j), Dit(r, M, x, s, off + 7 * S, j))
    else if t == 1 then
      Oct(Dit(r, M, x, s + 1, off, j), Dit(r, M, x, s + 1, off, j + h),
          Dit(r, M, x, s + 1, off + 2 * S, j), Dit(r, M, x, s + 1, off + 2 * S, j + h),
          Dit(r, M, x, s + 1, off + S, j), Dit(r, M, x, s + 1, off + S, j + h),
          Dit(r, M, x, s + 1, off + 3 * S, j), Dit(r, M, x, s + 1, off + 3 * S, j + h))
    else if t == 2 then
      Oct(Dit(r, M, x, s + 2, off, j), Dit(r, M, x, s + 2, off, j + h),
          Dit(r, M, x, s + 2, off, j + 2 * h), Dit(r, M, x, s + 2, off, j + 3 * h),
          Dit(r, M, x, s + 2, off + S, j), Dit(r, M, x, s + 2, off + S, j + h),
          Dit(r, M, x, s + 2, off + S, j + 2 * h), Dit(r, M, x, s + 2, off + S, j + 3 * h))
    else
      Oct(Dit(r, M, x, s + 3, off, j), Dit(r, M, x, s + 3, off, j + h),
          Dit(r, M, x, s + 3, off, j + 2 * h), Dit(r, M, x, s + 3, off, j + 3 * h),
          Dit(r, M, x, s + 3, off, j + 4 * h), Dit(r, M, x, s + 3, off, j + 5 * h),
          Dit(r, M, x, s + 3, off, j + 6 * h), Dit(r, M, x, s + 3, off, j + 7 * h))
  }

  lemma FirstStageCompletes(r: Roots, M: nat, x: seq<Complex>, s: nat, off: int, j: int, u0: Complex)
    requires s + 3 <= M <= r.L && r.Valid() && Held(r.dir, u0) == Twiddle(r, s, j)
    ensures FirstStage(r.dir, u0, Partial(r, M, x, s, 0, off, j)) == Partial(r, M, x, s, 1, off, j)
  {
    hide Down, Up, Dit, Held, Twiddle;
    var S, h := Pow2(M - s - 3), Pow2(s);
    assert Pow2(M - s - 1) == 4 * S;
    Completes(r, M, x, s, off, off + 4 * S, j, j + h, u0);
    Completes(r, M, x, s, off + S, off + 5 * S, j, j + h, u0);
    Completes(r, M, x, s, off + 2 * S, off + 6 * S, j, j + h, u0);
    Completes(r, M, x, s, off + 3 * S, off + 7 * S, j, j + h, u0);
  }

  lemma SecondStageCompletes(r: Roots, M: nat, x: seq<Complex>, s: nat, off: int, j: int, u1: Complex)
    requires s + 3 <= M <= r.L && r.Valid() && Held(r.dir, u1) == Twiddle(r, s + 1, j)
    ensures SecondStage(r.dir, u1, Partial(r, M, x, s, 1, off, j)) == Partial(r, M, x, s, 2, off, j)
  {
    hide Down, Up, DownTurned, UpTurned, Dit, Held, Rot, Twiddle;
    var S, h := Pow2(M - s - 3), Pow2(s);
    assert Pow2(M - s - 2) == 2 * S && Pow2(s + 1) == 2 * h;
    TwiddleQuarter(r, s + 1, j, j + h);
    Completes(r, M, x, s + 1, off, off + 2 * S, j, j + 2 * h, u1);
    Completes(r, M, x, s + 1, off + S, off + 3 * S, j, j + 2 * h, u1);
    CompletesTurned(r, M, x, s + 1, off, off + 2 * S, j + h, j + 3 * h, u1);
    CompletesTurned(r, M, x, s + 1, off + S, off + 3 * S, j + h, j + 3 * h, u1);
  }

  lemma ThirdStageCompletes(r: Roots, M: nat, x: seq<Complex>, s: nat, off: int, j: int, u2: Complex, u3: Complex)
    requires s + 3 <= M <= r.L && r.Valid()
    requires Held(r.dir, u2) == Twiddle(r, s + 2, j) && Held(r.dir, u3) == Twiddle(r, s + 2, j + Pow2(s))
    ensures ThirdStage(r.dir, u2, u3, Partial(r, M, x, s, 2, off, j)) == Partial(r, M, x, s, 3, off, j)
  {
    hide Down, Up, DownTurned, UpTurned, Dit, Held, Rot, Twiddle, Pow2, Roots.Valid, Add, Sub, Mul;
    var S, h := Pow2(M - s - 3), Pow2(s);
    Doubled(s);
    Doubled(s + 1);
    TwiddleQuarter(r, s + 2, j, j + 2 * h);
    TwiddleQuarter(r, s + 2, j + h, j + 3 * h);
    Completes(r, M, x, s + 2, off, off + S, j, j + 4 * h, u2);
    Completes(r, M, x, s + 2, off, off + S, j + h, j + 5 * h, u3);
    CompletesTurned(r, M, x, s + 2, off, off + S, j + 2 * h, j + 6 * h, u2);
    CompletesTurned(r, M, x, s + 2, off, off + S, j + 3 * h, j + 7 * h, u3);
  }

  ghost predicate TwiddlesHeld(r: Roots, s: nat, j: int, u0: Complex, u1: Complex, u2: Complex, u3: Complex)
    requires s + 3 <= r.L
  {
    && Held(r.dir, u0) == Twiddle(r, s, j)
    && Held(r.dir, u1) == Twiddle(r, s + 1, j)
    && Held(r.dir, u2) == Twiddle(r, s + 2, j)
    && Held(r.dir, u3) == Twiddle(r, s + 2, j + Pow2(s))
  }

  // A radix-8 butterfly is three successive radix-2 stages.
  lemma Radix8IsThreeStages(r: Roots, M: nat, x: seq<Complex>, s: nat, off: int, j: int,
                            u0: Complex, u1: Complex, u2: Complex, u3: Complex)
    requires s + 3 <= M <= r.L && r.Valid() && TwiddlesHeld(r, s, j, u0, u1, u2, u3)
    ensures Radix8(r.dir, u0, u1, u2, u3, Partial(r, M, x, s, 0, off, j)) == Partial(r, M, x, s, 3, off, j)
  {
    hide FirstStage, SecondStage, ThirdStage, Partial, Held, Twiddle;
    FirstStageCompletes(r, M, x, s, off, j, u0);
    SecondStageCompletes(r, M, x, s, off, j, u1);
    ThirdStageCompletes(r, M, x, s, off, j, u2, u3);
  }
}
