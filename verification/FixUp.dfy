// The radix-2 or radix-4 stage of ffts and iffts (lines 274-482 of fftlib.c)
// that leaves a number of stages divisible by three.
module FixUp {
  import opened Numbers
  import opened Complexes
  import opened Transform
  import opened Butterflies
  import opened Stages

  // Lines 300-354: two butterflies of span 2, with twiddles 1 and -i (or +i).
  function Fix2(dir: real, f: Oct): Oct {
    var fly5 := Sub(f.o0, f.o2);
    var t0 := Add(f.o0, f.o2);
    var fly7 := Sub(f.o1, Rot(dir, f.o3));
    var t1 := Add(f.o1, Rot(dir, f.o3));
    var fly2 := Sub(f.o4, f.o6);
    var fly4 := Add(f.o4, f.o6);
    var fly1 := Sub(f.o5, Rot(dir, f.o7));
    var fly0 := Add(f.o5, Rot(dir, f.o7));
    Oct(t0, t1, fly5, fly7, fly4, fly0, fly2, fly1)
  }

  // Lines 389-467: the same followed by the butterflies of span 4.
  function Fix4(dir: real, u3: Complex, f: Oct): Oct {
    var g := Fix2(dir, f);
    var fly6 := Sub(g.o0, g.o4);
    var t0 := Add(g.o0, g.o4);
    var fly3 := Sub(g.o2, Rot(dir, g.o6));
    var fly5 := Add(g.o2, Rot(dir, g.o6));
    var fly4 := Down(dir, u3, g.o1, g.o5);
    var t1 := Up(g.o1, fly4);
    var fly2 := DownTurned(dir, u3, g.o3, g.o7);
    var fly7 := Up(g.o3, fly2);
    Oct(t0, t1, fly5, fly7, fly6, fly4, fly3, fly2)
  }

  lemma ByOne(dir: real, a: Complex, b: Complex)
    ensures Down(dir, One, a, b) == Sub(a, b) && Up(a, Sub(a, b)) == Add(a, b)
    ensures DownTurned(dir, One, a, b) == Sub(a, Rot(dir, b)) && UpTurned(dir, One, a, b) == Add(a, Rot(dir, b))
    ensures Up(a, Add(a, b)) == Sub(a, b)
  {
  }

  lemma Fix2IsSecondStage(dir: real, f: Oct)
    ensures Fix2(dir, f) == SecondStage(dir, One, f)
  {
    hide Down, DownTurned, UpTurned, Up, Add, Sub, Rot;
    ByOne(dir, f.o0, f.o2);
    ByOne(dir, f.o1, f.o3);
    ByOne(dir, f.o4, f.o6);
    ByOne(dir, f.o5, f.o7);
    ByOne(dir, f.o1, Rot(dir, f.o3));
    ByOne(dir, f.o5, Rot(dir, f.o7));
  }

  lemma Fix4IsTwoStages(dir: real, u3: Complex, f: Oct)
    ensures Fix4(dir, u3, f) == ThirdStage(dir, One, u3, SecondStage(dir, One, f))
  {
    hide Down, DownTurned, UpTurned, Up, Add, Sub, Rot, SecondStage, Fix2;
    Fix2IsSecondStage(dir, f);
    var g := Fix2(dir, f);
    ByOne(dir, g.o0, g.o4);
    ByOne(dir, g.o2, g.o6);
    ByOne(dir, g.o2, Rot(dir, g.o6));
  }

  // sqrt(0.5) is both coordinates of the eighth root of unity.
  lemma EighthRoot(r: Roots, half: real)
    requires r.Valid() && half > 0.0 && half * half == 0.5
    ensures Held(r.dir, C(half, half)) == r.w(Pow2(r.L - 3))
  {
    var e := r.w(Pow2(r.L - 3));
    r.Product(Pow2(r.L - 3), Pow2(r.L - 3));
    assert Pow2(r.L - 3) + Pow2(r.L - 3) == Pow2(r.L - 2);
    var a, b := e.re, -r.dir * e.im;
    SquareRoot(a, b, half);
  }

  lemma Positive(a: real, b: real)
    requires a > 0.0 && a * b > 0.0
    ensures b > 0.0
  {
  }

  lemma SquareRoot(a: real, b: real, half: real)
    requires a > 0.0 && half > 0.0 && half * half == 0.5
    requires a * a == b * b && 2.0 * (a * b) == 1.0
    ensures a == half && b == half
  {
    assert (a - b) * (a + b) == 0.0;
    Positive(a, b);
    assert a == b;
    assert (a - half) * (a + half) == 0.0;
  }

  function Times(bit: nat, n: int): int {
    if bit == 0 then 0 else n
  }

  // Slot 8b + 4*t2 + 2*t1 + t0 after one, two and three stages.
  lemma SlotAfterOne(r: Roots, M: nat, x: seq<Complex>, b: nat, t2: nat, t1: nat, t0: nat)
    requires 3 <= M <= r.L && t2 < 2 && t1 < 2 && t0 < 2
    ensures var off, S := Rev(M - 3, b), Pow2(M - 3);
            Slot(r, M, x, 1, 8 * b + 4 * t2 + 2 * t1 + t0)
            == Dit(r, M, x, 1, off + Times(t2, S) + Times(t1, 2 * S), t0)
  {
    hide Dit, Rev;
    var p := 8 * b + 4 * t2 + 2 * t1 + t0;
    RevStep(M - 3, b, t2);
    RevStep(M - 2, 2 * b + t2, t1);
    assert Pow2(1) == 2 && Pow2(M - 2) == 2 * Pow2(M - 3);
    hide Pow2;
    assert Quot(p, 2) == 2 * (2 * b + t2) + t1 && p % 2 == t0;
  }

  lemma SlotAfterTwo(r: Roots, M: nat, x: seq<Complex>, b: nat, t2: nat, u: nat)
    requires 3 <= M <= r.L && t2 < 2 && u < 4
    ensures Slot(r, M, x, 2, 8 * b + 4 * t2 + u)
            == Dit(r, M, x, 2, Rev(M - 3, b) + Times(t2, Pow2(M - 3)), u)
  {
    hide Dit, Rev;
    var p := 8 * b + 4 * t2 + u;
    RevStep(M - 3, b, t2);
    assert Pow2(1) == 2 && Pow2(2) == 4;
    hide Pow2;
    assert Quot(p, 4) == 2 * b + t2 && p % 4 == u;
  }

  lemma SlotAfterThree(r: Roots, M: nat, x: seq<Complex>, b: nat, t: nat)
    requires 3 <= M <= r.L && t < 8
    ensures Slot(r, M, x, 3, 8 * b + t) == Dit(r, M, x, 3, Rev(M - 3, b), t)
  {
    hide Dit, Rev;
    assert Pow2(1) == 2 && Pow2(2) == 4 && Pow2(3) == 8;
    hide Pow2;
    assert Quot(8 * b + t, 8) == b && (8 * b + t) % 8 == t;
  }

  lemma EightSlots(r: Roots, M: nat, x: seq<Complex>, k: nat, b: nat, t: nat)
    requires 3 <= M <= r.L && 1 <= k <= 3 && t < 8
    ensures Slot(r, M, x, k, 8 * b + t) == Pick(Partial(r, M, x, 0, k, Rev(M - 3, b), 0), t)
  {
    hide Dit, Rev, Slot, Pick;
    if k == 1 {
      EightSlots1(r, M, x, b, t);
    } else if k == 2 {
      EightSlots2(r, M, x, b, t);
    } else {
      EightSlots3(r, M, x, b, t);
    }
  }

  lemma EightSlots1(r: Roots, M: nat, x: seq<Complex>, b: nat, t: nat)
    requires 3 <= M <= r.L && t < 8
    ensures Slot(r, M, x, 1, 8 * b + t) == Pick(Partial(r, M, x, 0, 1, Rev(M - 3, b), 0), t)
  {
    hide Dit, Rev, Slot;
    match t
    case 0 => SlotAfterOne(r, M, x, b, 0, 0, 0);
    case 1 => SlotAfterOne(r, M, x, b, 0, 0, 1);
    case 2 => SlotAfterOne(r, M, x, b, 0, 1, 0);
    case 3 => SlotAfterOne(r, M, x, b, 0, 1, 1);
    case 4 => SlotAfterOne(r, M, x, b, 1, 0, 0);
    case 5 => SlotAfterOne(r, M, x, b, 1, 0, 1);
    case 6 => SlotAfterOne(r, M, x, b, 1, 1, 0);
    case 7 => SlotAfterOne(r, M, x, b, 1, 1, 1);
  }

  lemma EightSlots2(r: Roots, M: nat, x: seq<Complex>, b: nat, t: nat)
    requires 3 <= M <= r.L && t < 8
    ensures Slot(r, M, x, 2, 8 * b + t) == Pick(Partial(r, M, x, 0, 2, Rev(M - 3, b), 0), t)
  {
    hide Dit, Rev, Slot;
    match t
    case 0 => SlotAfterTwo(r, M, x, b, 0, 0);
    case 1 => SlotAfterTwo(r, M, x, b, 0, 1);
    case 2 => SlotAfterTwo(r, M, x, b, 0, 2);
    case 3 => SlotAfterTwo(r, M, x, b, 0, 3);
    case 4 => SlotAfterTwo(r, M, x, b, 1, 0);
    case 5 => SlotAfterTwo(r, M, x, b, 1, 1);
    case 6 => SlotAfterTwo(r, M, x, b, 1, 2);
    case 7 => SlotAfterTwo(r, M, x, b, 1, 3);
  }

  lemma EightSlots3(r: Roots, M: nat, x: seq<Complex>, b: nat, t: nat)
    requires 3 <= M <= r.L && t < 8
    ensures Slot(r, M, x, 3, 8 * b + t) == Pick(Partial(r, M, x, 0, 3, Rev(M - 3, b), 0), t)
  {
    hide Dit, Rev, Slot;
    match t
    case 0 => SlotAfterThree(r, M, x, b, 0);
    case 1 => SlotAfterThree(r, M, x, b, 1);
    case 2 => SlotAfterThree(r, M, x, b, 2);
    case 3 => SlotAfterThree(r, M, x, b, 3);
    case 4 => SlotAfterThree(r, M, x, b, 4);
    case 5 => SlotAfterThree(r, M, x, b, 5);
    case 6 => SlotAfterThree(r, M, x, b, 6);
    case 7 => SlotAfterThree(r, M, x, b, 7);
  }

  lemma FixCompletes(r: Roots, M: nat, x: seq<Complex>, off: int, half: real)
    requires 3 <= M <= r.L && r.Valid() && half > 0.0 && half * half == 0.5
    ensures var f := Partial(r, M, x, 0, 1, off, 0);
            && Fix2(r.dir, f) == Partial(r, M, x, 0, 2, off, 0)
            && Fix4(r.dir, C(half, half), f) == Partial(r, M, x, 0, 3, off, 0)
  {
    hide SecondStage, ThirdStage, Fix2, Fix4, Partial;
    var f := Partial(r, M, x, 0, 1, off, 0);
    EighthRoot(r, half);
    assert Pow2(0) == 1;
    assert Held(r.dir, One) == Twiddle(r, 1, 0) == Twiddle(r, 2, 0);
    assert Held(r.dir, C(half, half)) == Twiddle(r, 2, 0 + Pow2(0));
    SecondStageCompletes(r, M, x, 0, off, 0, One);
    ThirdStageCompletes(r, M, x, 0, off, 0, One, C(half, half));
    Fix2IsSecondStage(r.dir, f);
    Fix4IsTwoStages(r.dir, C(half, half), f);
  }

  // The fix-up loop has finished the first b groups of eight slots.
  ghost predicate Fixed(r: Roots, M: nat, x: seq<Complex>, k: nat, b: nat, a: seq<Complex>)
    requires 3 <= M <= r.L && k <= 3
  {
    && |a| == Pow2(M)
    && forall p :: 0 <= p < |a| ==> a[p] == if p < 8 * b then Slot(r, M, x, k, p) else Slot(r, M, x, 1, p)
  }

  lemma FixReads(r: Roots, M: nat, x: seq<Complex>, k: nat, b: nat, a: seq<Complex>)
    requires 3 <= M <= r.L && k <= 3 && b < Pow2(M - 3) && Fixed(r, M, x, k, b, a)
    ensures 8 * b + 7 < |a|
    ensures Gather(a, 8 * b, 1) == Partial(r, M, x, 0, 1, Rev(M - 3, b), 0)
  {
    assert Pow2(M) == 8 * Pow2(M - 3) by {
      assert Pow2(M) == 2 * Pow2(M - 1) && Pow2(M - 1) == 2 * Pow2(M - 2);
    }
    hide Slot, Partial, Rev, Pow2;
    EightSlots(r, M, x, 1, b, 0);
    EightSlots(r, M, x, 1, b, 1);
    EightSlots(r, M, x, 1, b, 2);
    EightSlots(r, M, x, 1, b, 3);
    EightSlots(r, M, x, 1, b, 4);
    EightSlots(r, M, x, 1, b, 5);
    EightSlots(r, M, x, 1, b, 6);
    EightSlots(r, M, x, 1, b, 7);
  }

  lemma FixWrites(r: Roots, M: nat, x: seq<Complex>, k: nat, b: nat, a: seq<Complex>, a': seq<Complex>)
    requires 3 <= M <= r.L && 1 <= k <= 3 && b < Pow2(M - 3) && Fixed(r, M, x, k, b, a)
    requires Scattered(a, 8 * b, 1, Partial(r, M, x, 0, k, Rev(M - 3, b), 0), a')
    ensures Fixed(r, M, x, k, b + 1, a')
  {
    hide Slot, Partial, Rev, Pow2, Pick, Gather;
    forall p | 0 <= p < |a'|
      ensures a'[p] == if p < 8 * (b + 1) then Slot(r, M, x, k, p) else Slot(r, M, x, 1, p)
    {
      if 8 * b <= p < 8 * (b + 1) {
        PickGather(a', 8 * b, 1, p - 8 * b);
        EightSlots(r, M, x, k, b, p - 8 * b);
      }
    }
  }

  // rest is M - 1 modulo 3: 1 for the radix-2 stage, 2 for the radix-4 stage.
  method FixUpStage(io: array<Complex>, M: nat, rest: nat, loopN: nat, half: real, dir: real,
                    ghost r: Roots, ghost x: seq<Complex>)
    requires 3 <= M <= r.L && 1 <= rest <= 2 && loopN == Pow2(M - 3)
    requires r.Valid() && r.dir == dir && half > 0.0 && half * half == 0.5
    requires Staged(r, M, x, 1, io[..])
    modifies io
    ensures Staged(r, M, x, 1 + rest, io[..])
  {
    hide Slot, Partial, Fix2, Fix4, Gather, Scattered, Rev, Pow2, Fixed;
    var fly0P := 0;
    ghost var b := 0;
    FixBegins(r, M, x, 1 + rest, io[..]);
    for loopCnt := loopN downto 0
      invariant b == loopN - loopCnt && fly0P == 8 * b
      invariant Fixed(r, M, x, 1 + rest, b, io[..])
    {
      ghost var a := io[..];
      FixReads(r, M, x, 1 + rest, b, a);
      FixCompletes(r, M, x, Rev(M - 3, b), half);
      var fly := Oct(io[fly0P], io[fly0P + 1], io[fly0P + 2], io[fly0P + 3],
                     io[fly0P + 4], io[fly0P + 5], io[fly0P + 6], io[fly0P + 7]);
      GatherUnit(a, fly0P, fly);
      if rest == 1 {
        Put8(io, fly0P, Fix2(dir, fly));
      } else {
        Put8(io, fly0P, Fix4(dir, C(half, half), fly));
      }
      FixWrites(r, M, x, 1 + rest, b, a, io[..]);
      fly0P := fly0P + 8;
      b := b + 1;
    }
    FixEnds(r, M, x, 1 + rest, io[..]);
  }

  lemma GatherUnit(a: seq<Complex>, p: nat, f: Oct)
    requires p + 7 < |a|
    requires f == Oct(a[p], a[p + 1], a[p + 2], a[p + 3], a[p + 4], a[p + 5], a[p + 6], a[p + 7])
    ensures Gather(a, p, 1) == f
  {
  }

  method Put8(io: array<Complex>, p: nat, o: Oct)
    requires p + 7 < io.Length
    modifies io
    ensures Scattered(old(io[..]), p, 1, o, io[..])
  {
    io[p + 2], io[p], io[p + 3], io[p + 1] := o.o2, o.o0, o.o3, o.o1;
    io[p + 6], io[p + 4], io[p + 7], io[p + 5] := o.o6, o.o4, o.o7, o.o5;
  }

  lemma FixBegins(r: Roots, M: nat, x: seq<Complex>, k: nat, a: seq<Complex>)
    requires 3 <= M <= r.L && k <= 3 && Staged(r, M, x, 1, a)
    ensures Fixed(r, M, x, k, 0, a)
  {
    hide Slot;
  }

  lemma FixEnds(r: Roots, M: nat, x: seq<Complex>, k: nat, a: seq<Complex>)
    requires 3 <= M <= r.L && k <= 3 && Fixed(r, M, x, k, Pow2(M - 3), a)
    ensures Staged(r, M, x, k, a)
  {
    hide Slot;
    assert Pow2(M) == 8 * Pow2(M - 3) by {
      assert Pow2(M) == 2 * Pow2(M - 1) && Pow2(M - 1) == 2 * Pow2(M - 2);
    }
  }
}
