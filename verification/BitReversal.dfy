// The first pass of ffts and iffts (lines 169-261 and 907-999 of fftlib.c): the
// bit-reversing shuffle fused with the first radix-2 stage.
module BitReversal {
  import opened Numbers
  import opened Complexes
  import opened Transform

  // Line 170-261 addresses slot p by four fields: the top bit, the row l of c
  // slots, the stage g (two stages when M is odd), the column Rev(n), the low bit.
  function Root(M: nat): nat
    requires M >= 2
  {
    M / 2
  }

  function Reverse(M: nat, n: nat): nat
    requires M >= 2
  {
    Rev(Root(M) - 1, n)
  }

  // The first of the four slots of the group (l, n) of stage g.
  function Base(M: nat, g: nat, l: nat, n: nat): nat
    requires M >= 2
  {
    l * Pow2(M - Root(M)) + g * Pow2(Root(M)) + 2 * Reverse(M, n)
  }

  predicate Fields(M: nat, g: nat, l: nat, n: nat)
    requires M >= 2
  {
    g <= M % 2 && l < Pow2(Root(M) - 1) && n < Pow2(Root(M) - 1)
  }

  // Bit reversal exchanges row and column, and exchanges the end bits.
  lemma RevBase(M: nat, g: nat, l: nat, n: nat, t: nat, e: nat)
    requires M >= 2 && Fields(M, g, l, n) && t < 2 && e < 2
    ensures Rev(M, t * Pow2(M - 1) + Base(M, g, l, n) + e) == e * Pow2(M - 1) + Base(M, g, n, l) + t
  {
    hide Rev, Pow2;
    var h3 := t * Pow2(Root(M) - 1) + l;
    var h2 := if M % 2 == 1 then 2 * h3 + g else h3;
    RevTop(M, g, l, n, t, e);
    RevLow(M, h2, n, e);
    RevHigh(M, g, l, t);
  }

  lemma RevLow(M: nat, h2: nat, n: nat, e: nat)
    requires M >= 2 && n < Pow2(Root(M) - 1) && e < 2
    ensures var k := Root(M);
            Rev(M, 2 * (h2 * Pow2(k - 1) + Reverse(M, n)) + e)
            == e * Pow2(M - 1) + n * Pow2(M - k) + Rev(M - k, h2)
  {
    hide Rev, Pow2;
    var k := Root(M);
    assert M - 1 == (M - k) + (k - 1);
    RevFields(M - k, k - 1, h2, Reverse(M, n));
    RevTwice(k - 1, n);
    RevStep(M - 1, h2 * Pow2(k - 1) + Reverse(M, n), e);
  }

  lemma RevHigh(M: nat, g: nat, l: nat, t: nat)
    requires M >= 2 && g <= M % 2 && l < Pow2(Root(M) - 1) && t < 2
    ensures var k := Root(M);
            var h3 := t * Pow2(k - 1) + l;
            Rev(M - k, if M % 2 == 1 then 2 * h3 + g else h3) == g * Pow2(k) + 2 * Reverse(M, l) + t
  {
    hide Rev, Pow2;
    var k := Root(M);
    RevMiddle(M, g, t * Pow2(k - 1) + l);
    RevFields(1, k - 1, t, l);
    assert 1 + (k - 1) == k;
    RevOne(t);
  }

  // The middle bit of an odd-length index stays in place.
  lemma RevMiddle(M: nat, g: nat, h3: nat)
    requires M >= 2 && g <= M % 2
    ensures var k := Root(M);
            Rev(M - k, if M % 2 == 1 then 2 * h3 + g else h3) == g * Pow2(k) + Rev(k, h3)
  {
    if M % 2 == 1 {
      RevStep(Root(M), h3, g);
    }
  }

  lemma RevTop(M: nat, g: nat, l: nat, n: nat, t: nat, e: nat)
    requires M >= 2 && Fields(M, g, l, n)
    ensures var k := Root(M);
            var h3 := t * Pow2(k - 1) + l;
            var h2 := if M % 2 == 1 then 2 * h3 + g else h3;
            t * Pow2(M - 1) + Base(M, g, l, n) + e == 2 * (h2 * Pow2(k - 1) + Reverse(M, n)) + e
  {
    var k, d := Root(M), Pow2(Root(M) - 1);
    Pow2Add(M - k, k - 1);
    assert Pow2(k) == 2 * d;
    if M % 2 == 1 {
      assert M - k == k + 1;
      assert Pow2(k + 1) == 4 * d;
      TopOdd(t, d, l, g);
    } else {
      assert M - k == k;
      TopEven(t, d, l);
    }
  }

  lemma TopOdd(t: nat, d: nat, l: nat, g: nat)
    ensures t * (4 * d * d) + l * (4 * d) + g * (2 * d) == 2 * ((2 * (t * d + l) + g) * d)
  {
  }

  lemma TopEven(t: nat, d: nat, l: nat)
    ensures t * (2 * d * d) + l * (2 * d) == 2 * ((t * d + l) * d)
  {
  }

  // --- the fields of a slot number ---

  function Row(M: nat, p: nat): nat
    requires M >= 2
  {
    Quot(p % Pow2(M - 1), Pow2(M - Root(M)))
  }

  function Stage(M: nat, p: nat): nat
    requires M >= 2
  {
    Quot(p % Pow2(M - Root(M)), Pow2(Root(M)))
  }

  function Column(M: nat, p: nat): nat
    requires M >= 2
  {
    Reverse(M, Quot(p % Pow2(Root(M)), 2))
  }

  // Field widths: N/2 is q rows of c slots, a row one or two stages of 2q slots.
  lemma Widths(M: nat)
    requires M >= 2
    ensures var k, q := Root(M), Pow2(Root(M) - 1);
            && Pow2(k) == 2 * q && Pow2(M - 1) == q * Pow2(M - k) && Pow2(M) == 2 * Pow2(M - 1)
            && Pow2(M - k) == (M % 2 + 1) * Pow2(k)
  {
    var k := Root(M);
    assert (M - k) + (k - 1) == M - 1;
    Pow2Add(k - 1, M - k);
    if M % 2 == 1 {
      assert M - k == k + 1;
      assert Pow2(k + 1) == 2 * Pow2(k);
    } else {
      assert M - k == k;
    }
  }

  // The slot built from fields has those fields.
  lemma SlotFields(M: nat, g: nat, l: nat, n: nat, t: nat, e: nat)
    requires M >= 2 && Fields(M, g, l, n) && t < 2 && e < 2
    ensures var p := t * Pow2(M - 1) + Base(M, g, l, n) + e;
            p < Pow2(M) && Row(M, p) == l && Stage(M, p) == g && Column(M, p) == n
  {
    hide Rev, Pow2;
    var k, q := Root(M), Pow2(Root(M) - 1);
    var c, d, A, R := Pow2(M - k), Pow2(k), Pow2(M - 1), Reverse(M, n);
    Widths(M);
    RevTwice(k - 1, n);
    FieldArithmetic(q, c, d, A, M % 2 + 1, g, l, R, t, e);
  }

  lemma FieldArithmetic(q: nat, c: nat, d: nat, A: nat, w: nat, g: nat, l: nat, R: nat, t: nat, e: nat)
    requires 1 <= w <= 2 && q > 0 && d == 2 * q && c == w * d && A == q * c
    requires g < w && l < q && R < q && t < 2 && e < 2
    ensures var p := t * A + (l * c + g * d + 2 * R) + e;
            && 0 <= p < 2 * A
            && p % A / c == l && p % c / d == g && p % d / 2 == R
  {
    var r := 2 * R + e;
    var low := g * d + r;
    var p := t * A + l * c + low;
    LowField(w, d, c, g, r);
    LowField(q, c, A, l, low);
    HighField(q, c, A, t, l, low, p);
    HighField(w, d, c, t * q + l, g, r, p);
    DivMod(l, c, low);
    DivMod(g, d, r);
    assert t * A <= A;
  }

  // Digit l of weight c and what is below it stay below q * c.
  lemma LowField(q: nat, c: nat, A: nat, l: nat, low: nat)
    requires l < q && low < c && A == q * c
    ensures l * c + low < A
  {
    MulLess(l, q, c);
  }

  // A number with digits t, l and the rest low, for the weights A and c.
  lemma HighField(q: nat, c: nat, A: nat, t: nat, l: nat, low: nat, p: nat)
    requires l < q && low < c && A == q * c && p == t * A + l * c + low
    ensures p % A == l * c + low && p % c == low && p == (t * q + l) * c + low
  {
    LowField(q, c, A, l, low);
    DivMod(t, A, l * c + low);
    Regroup(t, q, c, l);
    DivMod(t * q + l, c, low);
  }

  lemma Regroup(t: nat, q: nat, c: nat, l: nat)
    ensures t * (q * c) + l * c == (t * q + l) * c
  {
    assert t * (q * c) == (t * q) * c;
  }

  // Every slot is built from its fields, so the groups partition the array.
  lemma SlotFrom(M: nat, p: nat) returns (t: nat, e: nat)
    requires M >= 2 && p < Pow2(M)
    ensures t < 2 && e < 2 && Fields(M, Stage(M, p), Row(M, p), Column(M, p))
    ensures p == t * Pow2(M - 1) + Base(M, Stage(M, p), Row(M, p), Column(M, p)) + e
  {
    hide Rev, Pow2;
    var k, q := Root(M), Pow2(Root(M) - 1);
    Widths(M);
    var R: nat;
    t, R, e := Unfold(q, Pow2(M - k), Pow2(k), Pow2(M - 1), M % 2 + 1, p);
    RevTwice(k - 1, R);
  }

  lemma Unfold(q: nat, c: nat, d: nat, A: nat, w: nat, p: nat) returns (t: nat, R: nat, e: nat)
    requires 1 <= w <= 2 && q > 0 && d == 2 * q && c == w * d && A == q * c && p < 2 * A
    ensures t < 2 && e < 2 && R < q && R == p % d / 2
    ensures 0 <= p % c / d < w && 0 <= p % A / c < q
    ensures p == t * A + (p % A / c * c + p % c / d * d + 2 * R) + e
  {
    assert c > 0 && A > 0 by {
      Positive(w, d);
      Positive(q, c);
    }
    var l, p2, g, p3: nat;
    t, l, p2 := Digits(p, 2, q, c, A);
    g, p3 := Digit(p2, w, d, c);
    R, e := p3 / 2, p3 % 2;
    FieldArithmetic(q, c, d, A, w, g, l, R, t, e);
  }

  lemma Positive(a: nat, b: nat)
    requires a > 0 && b > 0
    ensures a * b > 0
  {
  }

  // p = g * d + r, for p below c = w * d.
  lemma Digit(p: nat, w: nat, d: nat, c: nat) returns (g: nat, r: nat)
    requires d > 0 && c == w * d && p < c
    ensures p == g * d + r && g < w && r < d
  {
    g, r := p / d, p % d;
    DivModOf(p, d);
    Bounds(p, d, w);
  }

  // p = t * A + l * c + r, for p below v * A.
  lemma Digits(p: nat, v: nat, q: nat, c: nat, A: nat) returns (t: nat, l: nat, r: nat)
    requires A > 0 && c > 0 && A == q * c && p < v * A
    ensures p == t * A + l * c + r && t < v && l < q && r < c
  {
    var p1: nat;
    t, p1 := Digit(p, v, A, v * A);
    l, r := Digit(p1, q, c, A);
  }

  lemma Bounds(p: nat, c: nat, q: nat)
    requires c > 0 && p < q * c
    ensures 0 <= p / c < q && p % c < c
  {
    DivModOf(p, c);
    MulGe(p / c, q, c);
  }

  // --- the pass ---

  // Slot p after the pass: the butterfly of the bit-reversed even and odd
  // neighbours of p.
  function Shuffled(M: nat, scale: real, x: seq<Complex>, p: nat): Complex
  {
    var even := p - p % 2;
    var a, b := At(x, Rev(M, even)), At(x, Rev(M, even + 1));
    Scale(scale, if p % 2 == 0 then Add(a, b) else Sub(a, b))
  }

  // Groups (l, n) and (n, l) are processed together, at LoopN = min, LoopCnt = max.
  predicate Done(M: nat, g: int, loopN: int, loopCnt: int, p: nat)
    requires M >= 2
  {
    var l, n := Row(M, p), Column(M, p);
    || Stage(M, p) < g
    || (Stage(M, p) == g && (Min(l, n) > loopN || (Min(l, n) == loopN && Max(l, n) > loopCnt)))
  }

  ghost predicate Passed(M: nat, scale: real, x: seq<Complex>, g: int, loopN: int, loopCnt: int, a: seq<Complex>)
    requires M >= 2
  {
    && |a| == |x| == Pow2(M)
    && forall p :: 0 <= p < |a| ==> a[p] == if Done(M, g, loopN, loopCnt, p) then Shuffled(M, scale, x, p) else x[p]
  }

  // The four slots of a group: P, P + 1, P + N/2 and P + N/2 + 1.
  datatype Four = Four(f0: Complex, f1: Complex, f2: Complex, f3: Complex)

  function Quad(a: seq<Complex>, p: nat, A: nat): Four
    requires p + A + 1 < |a|
  {
    Four(a[p], a[p + 1], a[p + A], a[p + A + 1])
  }

  // The two radix-2 butterflies of a group, and where their outputs go.
  function Twist(scale: real, f: Four): Four {
    Four(Scale(scale, Add(f.f0, f.f2)), Scale(scale, Sub(f.f0, f.f2)),
         Scale(scale, Add(f.f1, f.f3)), Scale(scale, Sub(f.f1, f.f3)))
  }

  // What the four slots of group (l, n) must receive: the butterflies of group (n, l).
  lemma GroupShuffled(M: nat, scale: real, x: seq<Complex>, g: nat, l: nat, n: nat)
    requires M >= 2 && Fields(M, g, l, n) && |x| == Pow2(M)
    ensures var A, P, P' := Pow2(M - 1), Base(M, g, l, n), Base(M, g, n, l);
            && P + A + 1 < |x| && P' + A + 1 < |x|
            && Four(Shuffled(M, scale, x, P), Shuffled(M, scale, x, P + 1),
                    Shuffled(M, scale, x, P + A), Shuffled(M, scale, x, P + A + 1))
               == Twist(scale, Quad(x, P', A))
  {
    hide Rev, Pow2, Base, Shuffled, Scale, Add, Sub;
    LowHalf(M, scale, x, g, l, n);
    HighHalf(M, scale, x, g, l, n);
  }

  lemma LastSlot(M: nat, g: nat, l: nat, n: nat)
    requires M >= 2 && Fields(M, g, l, n)
    ensures Base(M, g, l, n) + Pow2(M - 1) + 1 < Pow2(M)
  {
    hide Rev, Pow2, Base, Row, Stage, Column, Fields;
    SlotFields(M, g, l, n, 1, 1);
  }

  lemma LowHalf(M: nat, scale: real, x: seq<Complex>, g: nat, l: nat, n: nat)
    requires M >= 2 && Fields(M, g, l, n) && |x| == Pow2(M)
    ensures var A, P, P' := Pow2(M - 1), Base(M, g, l, n), Base(M, g, n, l);
            && P' + A < |x|
            && Shuffled(M, scale, x, P) == Scale(scale, Add(x[P'], x[P' + A]))
            && Shuffled(M, scale, x, P + 1) == Scale(scale, Sub(x[P'], x[P' + A]))
  {
    hide Rev, Pow2, Base, Shuffled, Scale, Add, Sub;
    Parities(M, g, l, n);
    LastSlot(M, g, n, l);
    RevBase(M, g, l, n, 0, 0);
    RevBase(M, g, l, n, 0, 1);
    ShuffledPair(M, scale, x, Base(M, g, l, n), Base(M, g, n, l), Base(M, g, n, l) + Pow2(M - 1));
  }

  lemma HighHalf(M: nat, scale: real, x: seq<Complex>, g: nat, l: nat, n: nat)
    requires M >= 2 && Fields(M, g, l, n) && |x| == Pow2(M)
    ensures var A, P, P' := Pow2(M - 1), Base(M, g, l, n), Base(M, g, n, l);
            && P + A + 1 < |x| && P' + A + 1 < |x|
            && Shuffled(M, scale, x, P + A) == Scale(scale, Add(x[P' + 1], x[P' + A + 1]))
            && Shuffled(M, scale, x, P + A + 1) == Scale(scale, Sub(x[P' + 1], x[P' + A + 1]))
  {
    hide Rev, Pow2, Base, Shuffled, Scale, Add, Sub;
    var A, P, P' := Pow2(M - 1), Base(M, g, l, n), Base(M, g, n, l);
    Parities(M, g, l, n);
    LastSlot(M, g, l, n);
    LastSlot(M, g, n, l);
    RevBase(M, g, l, n, 1, 0);
    RevBase(M, g, l, n, 1, 1);
    ShuffledPair(M, scale, x, P + A, P' + 1, P' + A + 1);
  }

  lemma ShuffledPair(M: nat, scale: real, x: seq<Complex>, p: nat, i: nat, j: nat)
    requires p % 2 == 0 && i < |x| && j < |x| && Rev(M, p) == i && Rev(M, p + 1) == j
    ensures Shuffled(M, scale, x, p) == Scale(scale, Add(x[i], x[j]))
    ensures Shuffled(M, scale, x, p + 1) == Scale(scale, Sub(x[i], x[j]))
  {
    hide Rev, Scale, Add, Sub;
  }

  lemma EvenProduct(a: nat, b: nat)
    ensures a * (2 * b) == 2 * (a * b)
  {
  }

  lemma Parities(M: nat, g: nat, l: nat, n: nat)
    requires M >= 2
    ensures Pow2(M - 1) % 2 == 0 && Base(M, g, l, n) % 2 == 0
  {
    var k := Root(M);
    var c, d := Pow2(M - k - 1), Pow2(k - 1);
    assert Pow2(M - k) == 2 * c && Pow2(k) == 2 * d && Pow2(M - 1) % 2 == 0;
    hide Pow2, Rev;
    EvenProduct(l, c);
    EvenProduct(g, d);
  }

  predicate InQuad(p: nat, base: nat, A: nat) {
    p == base || p == base + 1 || p == base + A || p == base + A + 1
  }

  // a' is a with the groups at p0 and p1 replaced by the butterflies of each other.
  ghost predicate Exchanged(scale: real, A: nat, p0: nat, p1: nat, a: seq<Complex>, a': seq<Complex>) {
    && |a'| == |a| && p0 + A + 1 < |a| && p1 + A + 1 < |a|
    && Quad(a', p0, A) == Twist(scale, Quad(a, p1, A))
    && Quad(a', p1, A) == Twist(scale, Quad(a, p0, A))
    && forall p :: 0 <= p < |a| && !InQuad(p, p0, A) && !InQuad(p, p1, A) ==> a'[p] == a[p]
  }

  lemma QuadIsGroup(M: nat, g: nat, l: nat, n: nat, p: nat)
    requires M >= 2 && Fields(M, g, l, n) && p < Pow2(M)
    ensures InQuad(p, Base(M, g, l, n), Pow2(M - 1))
        <==> Stage(M, p) == g && Row(M, p) == l && Column(M, p) == n
  {
    hide Rev, Pow2, Base, Stage, Row, Column;
    if InQuad(p, Base(M, g, l, n), Pow2(M - 1)) {
      SlotFields(M, g, l, n, 0, 0);
      SlotFields(M, g, l, n, 0, 1);
      SlotFields(M, g, l, n, 1, 0);
      SlotFields(M, g, l, n, 1, 1);
    } else {
      var t, e := SlotFrom(M, p);
    }
  }

  // The groups not yet processed still hold the input.
  lemma QuadUntouched(M: nat, scale: real, x: seq<Complex>, g: nat, loopN: nat, loopCnt: nat, l: nat, n: nat, a: seq<Complex>)
    requires M >= 2 && Passed(M, scale, x, g, loopN, loopCnt, a) && Fields(M, g, l, n)
    requires Min(l, n) == loopN && Max(l, n) == loopCnt
    ensures Base(M, g, l, n) + Pow2(M - 1) + 1 < |a|
    ensures Quad(a, Base(M, g, l, n), Pow2(M - 1)) == Quad(x, Base(M, g, l, n), Pow2(M - 1))
  {
    hide Rev, Pow2, Base, Stage, Row, Column, Shuffled;
    SlotFields(M, g, l, n, 0, 0);
    SlotFields(M, g, l, n, 0, 1);
    SlotFields(M, g, l, n, 1, 0);
    SlotFields(M, g, l, n, 1, 1);
  }

  lemma PairDone(M: nat, scale: real, x: seq<Complex>, g: nat, loopN: nat, loopCnt: nat, a: seq<Complex>, a': seq<Complex>)
    requires M >= 2 && Passed(M, scale, x, g, loopN, loopCnt, a) && Fields(M, g, loopCnt, loopN) && loopN <= loopCnt
    requires Exchanged(scale, Pow2(M - 1), Base(M, g, loopCnt, loopN), Base(M, g, loopN, loopCnt), a, a')
    ensures Passed(M, scale, x, g, loopN, loopCnt - 1, a')
  {
    hide Rev, Pow2, Base, Stage, Row, Column, Shuffled, Twist;
    QuadUntouched(M, scale, x, g, loopN, loopCnt, loopCnt, loopN, a);
    QuadUntouched(M, scale, x, g, loopN, loopCnt, loopN, loopCnt, a);
    GroupShuffled(M, scale, x, g, loopCnt, loopN);
    GroupShuffled(M, scale, x, g, loopN, loopCnt);
    forall p | 0 <= p < |a'|
      ensures a'[p] == if Done(M, g, loopN, loopCnt - 1, p) then Shuffled(M, scale, x, p) else x[p]
    {
      QuadIsGroup(M, g, loopCnt, loopN, p);
      QuadIsGroup(M, g, loopN, loopCnt, p);
    }
  }

  // Renaming of the loop position when an inner loop ends.
  lemma LoopEnds(M: nat, scale: real, x: seq<Complex>, g: nat, loopN: int, loopCnt: int,
                 g': nat, loopN': int, loopCnt': int, a: seq<Complex>)
    requires M >= 2 && Passed(M, scale, x, g, loopN, loopCnt, a)
    requires var q := Pow2(Root(M) - 1);
             || (g' == g && 0 <= loopN && loopCnt == loopN - 1 && loopN' == loopN - 1 && loopCnt' == q - 1)
             || (g' == g + 1 && loopN == -1 && loopN' == q - 1 && loopCnt' == q - 1)
    ensures Passed(M, scale, x, g', loopN', loopCnt', a)
  {
    hide Rev, Pow2, Base, Stage, Row, Column, Shuffled;
    forall p | 0 <= p < |a|
      ensures Done(M, g', loopN', loopCnt', p) == Done(M, g, loopN, loopCnt, p)
    {
      var t, e := SlotFrom(M, p);
    }
  }

  lemma PassBegins(M: nat, scale: real, x: seq<Complex>)
    requires M >= 2 && |x| == Pow2(M)
    ensures Passed(M, scale, x, 0, Pow2(Root(M) - 1) - 1, Pow2(Root(M) - 1) - 1, x)
  {
    hide Rev, Pow2, Base, Stage, Row, Column, Shuffled;
    var last := Pow2(Root(M) - 1) - 1;
    forall p | 0 <= p < |x|
      ensures !Done(M, 0, last, last, p)
    {
      var t, e := SlotFrom(M, p);
    }
  }

  lemma PassEnds(M: nat, scale: real, x: seq<Complex>, loopN: int, loopCnt: int, a: seq<Complex>)
    requires M >= 2 && Passed(M, scale, x, M % 2 + 1, loopN, loopCnt, a)
    ensures forall p :: 0 <= p < |a| ==> a[p] == Shuffled(M, scale, x, p)
  {
    hide Rev, Pow2, Base, Stage, Row, Column, Shuffled;
    forall p | 0 <= p < |a|
      ensures a[p] == Shuffled(M, scale, x, p)
    {
      var t, e := SlotFrom(M, p);
    }
  }

  // --- the code ---

  // Lines 182-227: the groups at fly0P and fly1P, each written with the butterflies of the other.
  method Exchange(io: array<Complex>, fly0P: nat, fly1P: nat, A: nat, scale: real)
    requires fly0P % 2 == 0 && fly1P % 2 == 0 && A % 2 == 0 && fly0P < A && fly1P < A && fly0P != fly1P
    requires fly0P + A + 1 < io.Length && fly1P + A + 1 < io.Length
    modifies io
    ensures Exchanged(scale, A, fly0P, fly1P, old(io[..]), io[..])
  {
    hide Add, Sub, Scale;
    var fly0, fly1, fly2, fly3 := io[fly0P], io[fly0P + A], io[fly0P + 1], io[fly0P + A + 1];
    var fly4, fly5, fly6, fly7 := io[fly1P], io[fly1P + A], io[fly1P + 1], io[fly1P + A + 1];
    io[fly1P] := Scale(scale, Add(fly0, fly1));
    io[fly1P + 1] := Scale(scale, Sub(fly0, fly1));
    io[fly1P + A] := Scale(scale, Add(fly2, fly3));
    io[fly1P + A + 1] := Scale(scale, Sub(fly2, fly3));
    io[fly0P] := Scale(scale, Add(fly4, fly5));
    io[fly0P + 1] := Scale(scale, Sub(fly4, fly5));
    io[fly0P + A] := Scale(scale, Add(fly6, fly7));
    io[fly0P + A + 1] := Scale(scale, Sub(fly6, fly7));
  }

  // Lines 237-258: a group on the diagonal is its own partner.
  method Diagonal(io: array<Complex>, fly0P: nat, A: nat, scale: real)
    requires fly0P % 2 == 0 && A % 2 == 0 && fly0P < A && fly0P + A + 1 < io.Length
    modifies io
    ensures Exchanged(scale, A, fly0P, fly0P, old(io[..]), io[..])
  {
    hide Add, Sub, Scale;
    var fly0, fly1, fly2, fly3 := io[fly0P], io[fly0P + A], io[fly0P + 1], io[fly0P + A + 1];
    io[fly0P] := Scale(scale, Add(fly0, fly1));
    io[fly0P + 1] := Scale(scale, Sub(fly0, fly1));
    io[fly0P + A] := Scale(scale, Add(fly2, fly3));
    io[fly0P + A + 1] := Scale(scale, Sub(fly2, fly3));
  }

  // Everything the inner loop needs to know about its two pointers.
  lemma Pointers(M: nat, g: nat, loopN: nat, loopCnt: nat)
    requires M >= 2 && Fields(M, g, loopCnt, loopN)
    ensures var A, c, d := Pow2(M - 1), Pow2(M - Root(M)), Pow2(Root(M));
            var fly0P, fly1P := Base(M, g, loopCnt, loopN), Base(M, g, loopN, loopCnt);
            && fly0P == loopCnt * c + g * d + 2 * Reverse(M, loopN)
            && fly1P == loopN * c + g * d + 2 * Reverse(M, loopCnt)
            && fly0P % 2 == 0 && fly1P % 2 == 0 && A % 2 == 0
            && fly0P < A && fly1P < A && A + A == Pow2(M)
            && fly0P + A + 1 < Pow2(M) && fly1P + A + 1 < Pow2(M)
            && (loopN != loopCnt ==> fly0P != fly1P)
  {
    hide Rev, Reverse, Stage, Row, Column;
    Parities(M, g, loopCnt, loopN);
    Parities(M, g, loopN, loopCnt);
    assert Pow2(M) == Pow2(M - 1) + Pow2(M - 1);
    hide Pow2;
    SlotFields(M, g, loopCnt, loopN, 1, 1);
    SlotFields(M, g, loopN, loopCnt, 1, 1);
    SlotFields(M, g, loopCnt, loopN, 0, 0);
    SlotFields(M, g, loopN, loopCnt, 0, 0);
  }

  // Nroot_1_ColInc is the offset of the last row.
  lemma LastRow(M: nat, g: nat, loopN: nat)
    requires M >= 2
    ensures var A, c, d := Pow2(M - 1), Pow2(M - Root(M)), Pow2(Root(M));
            A - c + 2 * Reverse(M, loopN) + g * d == Base(M, g, Pow2(Root(M) - 1) - 1, loopN)
  {
    hide Rev, Reverse, Pow2;
    Widths(M);
    var q, c := Pow2(Root(M) - 1), Pow2(M - Root(M));
    assert (q - 1) * c == q * c - c;
  }

  // Lines 169-261 of ffts (scale = 1) and 907-999 of iffts (scale = 1/N).
  // Reverse(M, k) is the lookup BRcnt[k] >> BRshift; see BitReversalTable.
  method BitrevR2(io: array<Complex>, M: nat, scale: real)
    requires M >= 2 && io.Length == Pow2(M)
    modifies io
    ensures forall p :: 0 <= p < io.Length ==> io[p] == Shuffled(M, scale, old(io[..]), p)
  {
    hide Rev, Pow2, Base, Stage, Row, Column, Shuffled, Exchanged, Done, Passed, Reverse;
    Widths(M);
    var A, q, c := Pow2(M - 1), Pow2(M / 2 - 1), Pow2(M - M / 2);
    ghost var x := io[..];
    ghost var g := 0;
    PassBegins(M, scale, x);
    var stage := 0;
    while stage < c
      invariant stage == g * Pow2(Root(M)) && g <= M % 2 + 1
      invariant Passed(M, scale, x, g, q - 1, q - 1, io[..])
    {
      StageNumber(M, g);
      for loopN := q downto 0
        invariant Passed(M, scale, x, g, loopN - 1, q - 1, io[..])
      {
        InnerLoop(io, M, loopN, A, c, q, stage, scale, x, g);
        LoopEnds(M, scale, x, g, loopN, loopN - 1, g, loopN - 1, q - 1, io[..]);
      }
      LoopEnds(M, scale, x, g, -1, q - 1, g + 1, q - 1, q - 1, io[..]);
      assert (g + 1) * Pow2(Root(M)) == g * Pow2(Root(M)) + Pow2(Root(M));
      stage := stage + Pow2(M / 2);
      g := g + 1;
    }
    StageNumber(M, g);
    PassEnds(M, scale, x, q - 1, q - 1, io[..]);
  }

  lemma StageNumber(M: nat, g: nat)
    requires M >= 2 && g <= M % 2 + 1
    ensures g * Pow2(Root(M)) < Pow2(M - Root(M)) <==> g <= M % 2
  {
    Widths(M);
  }

  // The LoopCnt loop: row loopN against rows q - 1 down to loopN.
  method InnerLoop(io: array<Complex>, M: nat, loopN: nat, A: nat, c: nat, q: nat, stage: nat, scale: real,
                   ghost x: seq<Complex>, ghost g: nat)
    requires M >= 2 && A == Pow2(M - 1) && c == Pow2(M - Root(M)) && q == Pow2(Root(M) - 1)
    requires g <= M % 2 && stage == g * Pow2(Root(M)) && loopN < q
    requires Passed(M, scale, x, g, loopN, q - 1, io[..])
    modifies io
    ensures Passed(M, scale, x, g, loopN, loopN - 1, io[..])
  {
    hide Rev, Pow2, Base, Stage, Row, Column, Shuffled, Exchanged, Done;
    Pointers(M, g, loopN, q - 1);
    LastRow(M, g, loopN);
    var loopCnt := q - 1;
    var fly0P: int := A - c + 2 * Reverse(M, loopN) + stage;
    var iop := loopN * c + stage;
    var fly1P := iop + 2 * Reverse(M, loopCnt);
    while loopCnt > loopN
      invariant loopN <= loopCnt < q
      invariant fly0P == Base(M, g, loopCnt, loopN) && fly1P == Base(M, g, loopN, loopCnt)
      invariant Passed(M, scale, x, g, loopN, loopCnt, io[..])
    {
      Pointers(M, g, loopN, loopCnt);
      ghost var a := io[..];
      Exchange(io, fly0P, fly1P, A, scale);
      PairDone(M, scale, x, g, loopN, loopCnt, a, io[..]);
      loopCnt := loopCnt - 1;
      Pointers(M, g, loopN, loopCnt);
      assert (loopCnt + 1) * c == loopCnt * c + c;
      fly0P := fly0P - c;
      fly1P := iop + 2 * Reverse(M, loopCnt);
    }
    Pointers(M, g, loopN, loopCnt);
    ghost var a := io[..];
    Diagonal(io, fly0P, A, scale);
    PairDone(M, scale, x, g, loopN, loopCnt, a, io[..]);
  }
}
