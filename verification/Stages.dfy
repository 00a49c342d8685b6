// The radix-8 stages of ffts and iffts, in place.
module Stages {
  import opened Numbers
  import opened Complexes
  import opened Transform
  import opened Butterflies

  // What slot p holds after s radix-2 stages: block p / 2^s carries the
  // 2^s-point transform of the samples at the bit-reversed offset.
  ghost function Slot(r: Roots, M: nat, x: seq<Complex>, s: nat, p: nat): Complex
    requires s <= M <= r.L
  {
    Dit(r, M, x, s, Rev(M - s, Quot(p, Pow2(s))), p % Pow2(s))
  }

  ghost predicate Staged(r: Roots, M: nat, x: seq<Complex>, s: nat, a: seq<Complex>)
    requires s <= M <= r.L
  {
    |a| == Pow2(M) && forall p :: 0 <= p < |a| ==> a[p] == Slot(r, M, x, s, p)
  }

  // Slot p belongs to column j of block b of a radix-8 stage with span h.
  predicate InGroup(h: nat, b: nat, j: nat, p: nat)
    requires h > 0
  {
    p % h == j && p / (8 * h) == b
  }

  predicate Before(h: nat, b: nat, j: nat, p: nat)
    requires h > 0
  {
    p % h < j || (p % h == j && p / (8 * h) < b)
  }

  // A radix-8 stage that has finished columns below j, and blocks below b of column j.
  ghost predicate Underway(r: Roots, M: nat, x: seq<Complex>, s: nat, b: nat, j: nat, a: seq<Complex>)
    requires s + 3 <= M <= r.L
  {
    && |a| == Pow2(M)
    && forall p :: 0 <= p < |a| ==>
         a[p] == if Before(Pow2(s), b, j, p) then Slot(r, M, x, s + 3, p) else Slot(r, M, x, s, p)
  }

  // --- index arithmetic of one group ---

  lemma GroupIndex(h: nat, b: nat, j: nat, t: nat)
    requires j < h && t < 8
    ensures var p := b * (8 * h) + t * h + j;
            && p / h == 8 * b + t && p % h == j
            && p / (8 * h) == b && p % (8 * h) == j + t * h
  {
    Octave(h, b, t);
    DivMod(8 * b + t, h, j);
    MulLess(t, 8, h);
    DivMod(b, 8 * h, t * h + j);
  }

  lemma Octave(h: nat, b: nat, t: nat)
    ensures b * (8 * h) + t * h == (8 * b + t) * h
  {
    assert b * (8 * h) == (8 * b) * h;
  }

  lemma GroupMember(h: nat, b: nat, j: nat, p: nat) returns (t: nat)
    requires j < h && InGroup(h, b, j, p)
    ensures t < 8 && p == b * (8 * h) + t * h + j
  {
    var q := p % (8 * h);
    DivModOf(p, 8 * h);
    t := q / h;
    DivModOf(q, h);
    MulGe(t, 8, h);
    GroupIndex(h, b, q % h, t);
  }

  lemma GroupFits(M: nat, s: nat, b: nat, j: nat)
    requires s + 3 <= M && j < Pow2(s) && b < Pow2(M - s - 3)
    ensures b * (8 * Pow2(s)) + 7 * Pow2(s) + j < Pow2(M)
  {
    assert Pow2(s + 3) == 8 * Pow2(s) by {
      assert Pow2(s + 1) == 2 * Pow2(s) && Pow2(s + 2) == 4 * Pow2(s);
    }
    MulLess(b, Pow2(M - s - 3), 8 * Pow2(s));
    Pow2Add(M - s - 3, s + 3);
  }

  // Where bit reversal puts the block 8b + 4*t2 + 2*t1 + t0 that merges into block b.
  lemma RevGroup(k: nat, b: nat, t2: nat, t1: nat, t0: nat)
    requires t2 < 2 && t1 < 2 && t0 < 2
    ensures Rev(k + 3, 8 * b + 4 * t2 + 2 * t1 + t0) == Rev(k, b) + (t2 + 2 * t1 + 4 * t0) * Pow2(k)
  {
    hide Rev;
    var S := Pow2(k);
    assert Pow2(k + 1) == 2 * S && Pow2(k + 2) == 4 * S;
    hide Pow2;
    RevStep(k, b, t2);
    RevStep(k + 1, 2 * b + t2, t1);
    RevStep(k + 2, 4 * b + 2 * t2 + t1, t0);
    assert 2 * (2 * b + t2) + t1 == 4 * b + 2 * t2 + t1;
    ThreeBits(t2, t1, t0, S);
  }

  lemma ThreeBits(t2: nat, t1: nat, t0: nat, S: nat)
    requires t2 < 2 && t1 < 2 && t0 < 2
    ensures (t2 + 2 * t1 + 4 * t0) * S
            == (if t2 == 1 then S else 0) + (if t1 == 1 then 2 * S else 0) + (if t0 == 1 then 4 * S else 0)
  {
  }

  function Gather(a: seq<Complex>, p: nat, h: nat): Oct
    requires p + 7 * h < |a|
  {
    Oct(a[p], a[p + h], a[p + 2 * h], a[p + 3 * h], a[p + 4 * h], a[p + 5 * h], a[p + 6 * h], a[p + 7 * h])
  }

  // Before a group is processed it holds the inputs of its butterfly, and the
  // outputs of the butterfly are what it must hold afterwards.
  lemma GroupHolds(r: Roots, M: nat, x: seq<Complex>, s: nat, b: nat, j: nat, t: nat)
    requires s + 3 <= M <= r.L && j < Pow2(s) && t < 8
    ensures var p := b * (8 * Pow2(s)) + t * Pow2(s) + j;
            && Slot(r, M, x, s, p) == Dit(r, M, x, s, Rev(M - s, 8 * b + t), j)
            && Slot(r, M, x, s + 3, p) == Dit(r, M, x, s + 3, Rev(M - s - 3, b), j + t * Pow2(s))
  {
    hide Dit, Rev;
    GroupIndex(Pow2(s), b, j, t);
    assert Pow2(s + 3) == 8 * Pow2(s) by {
      assert Pow2(s + 1) == 2 * Pow2(s) && Pow2(s + 2) == 4 * Pow2(s);
    }
    assert M - (s + 3) == M - s - 3;
  }

  // What the butterfly of group (b, j) reads from slot t = 4*t2 + 2*t1 + t0.
  lemma GroupReads(r: Roots, M: nat, x: seq<Complex>, s: nat, b: nat, j: nat, a: seq<Complex>,
                   t2: nat, t1: nat, t0: nat)
    requires s + 3 <= M <= r.L && j < Pow2(s) && b < Pow2(M - s - 3) && t2 < 2 && t1 < 2 && t0 < 2
    requires Underway(r, M, x, s, b, j, a)
    ensures var h, t := Pow2(s), 4 * t2 + 2 * t1 + t0;
            && 0 <= b * (8 * h) + j + t * h < |a|
            && a[b * (8 * h) + j + t * h]
               == Dit(r, M, x, s, Rev(M - s - 3, b) + (t2 + 2 * t1 + 4 * t0) * Pow2(M - s - 3), j)
  {
    hide Dit, Rev, Slot;
    var h, t := Pow2(s), 4 * t2 + 2 * t1 + t0;
    var p := b * (8 * h) + t * h + j;
    GroupFits(M, s, b, j);
    MulLess(t, 8, h);
    GroupIndex(h, b, j, t);
    assert a[p] == Slot(r, M, x, s, p);
    GroupHolds(r, M, x, s, b, j, t);
    RevGroup(M - s - 3, b, t2, t1, t0);
  }

  lemma GroupGathers(r: Roots, M: nat, x: seq<Complex>, s: nat, b: nat, j: nat, a: seq<Complex>)
    requires s + 3 <= M <= r.L && j < Pow2(s) && b < Pow2(M - s - 3)
    requires Underway(r, M, x, s, b, j, a)
    ensures var p := b * (8 * Pow2(s)) + j;
            && p + 7 * Pow2(s) < |a|
            && Gather(a, p, Pow2(s)) == Partial(r, M, x, s, 0, Rev(M - s - 3, b), j)
  {
    hide Dit, Rev, Slot, Underway, Pow2;
    GroupReads(r, M, x, s, b, j, a, 0, 0, 0);
    GroupReads(r, M, x, s, b, j, a, 0, 0, 1);
    GroupReads(r, M, x, s, b, j, a, 0, 1, 0);
    GroupReads(r, M, x, s, b, j, a, 0, 1, 1);
    GroupReads(r, M, x, s, b, j, a, 1, 0, 0);
    GroupReads(r, M, x, s, b, j, a, 1, 0, 1);
    GroupReads(r, M, x, s, b, j, a, 1, 1, 0);
    GroupReads(r, M, x, s, b, j, a, 1, 1, 1);
  }

  // a' is a with the eight slots of one group replaced by o.
  ghost predicate Scattered(a: seq<Complex>, p0: nat, h: nat, o: Oct, a': seq<Complex>) {
    && |a'| == |a|
    && p0 + 7 * h < |a|
    && Gather(a', p0, h) == o
    && forall p :: 0 <= p < |a| && p !in {p0, p0 + h, p0 + 2 * h, p0 + 3 * h,
                                          p0 + 4 * h, p0 + 5 * h, p0 + 6 * h, p0 + 7 * h}
                   ==> a'[p] == a[p]
  }

  lemma OutsideGroup(h: nat, b: nat, j: nat, p: nat, t: nat)
    requires j < h && t < 8 && !InGroup(h, b, j, p)
    ensures p != b * (8 * h) + j + t * h
  {
    GroupIndex(h, b, j, t);
  }

  lemma Untouched(a: seq<Complex>, h: nat, b: nat, j: nat, o: Oct, a': seq<Complex>, p: nat)
    requires j < h && p < |a| && !InGroup(h, b, j, p)
    requires Scattered(a, b * (8 * h) + j, h, o, a')
    ensures a'[p] == a[p]
  {
    forall t | 0 <= t < 8
      ensures p != b * (8 * h) + j + t * h
    {
      OutsideGroup(h, b, j, p, t);
    }
    var p0 := b * (8 * h) + j;
    assert p != p0 + 0 * h && p != p0 + 1 * h && p != p0 + 2 * h && p != p0 + 3 * h;
    assert p != p0 + 4 * h && p != p0 + 5 * h && p != p0 + 6 * h && p != p0 + 7 * h;
  }

  function Pick(o: Oct, t: nat): Complex
    requires t < 8
  {
    match t
    case 0 => o.o0 case 1 => o.o1 case 2 => o.o2 case 3 => o.o3
    case 4 => o.o4 case 5 => o.o5 case 6 => o.o6 case 7 => o.o7
  }

  lemma PickGather(a: seq<Complex>, p0: nat, h: nat, t: nat)
    requires p0 + 7 * h < |a| && t < 8
    ensures 0 <= p0 + t * h < |a| && a[p0 + t * h] == Pick(Gather(a, p0, h), t)
  {
    MulLess(t, 8, h + 1);
    match t
    case 0 => case 1 => case 2 => case 3 => case 4 => case 5 => case 6 => case 7 =>
  }

  lemma PickWhole(r: Roots, M: nat, x: seq<Complex>, s: nat, off: int, j: int, t: nat)
    requires s + 3 <= M <= r.L && t < 8
    ensures Pick(Partial(r, M, x, s, 3, off, j), t) == Dit(r, M, x, s + 3, off, j + t * Pow2(s))
  {
    hide Dit;
    match t
    case 0 => case 1 => case 2 => case 3 => case 4 => case 5 => case 6 => case 7 =>
  }

  lemma GroupWritten(r: Roots, M: nat, x: seq<Complex>, s: nat, b: nat, j: nat, a: seq<Complex>, a': seq<Complex>)
    requires s + 3 <= M <= r.L && j < Pow2(s) && b < Pow2(M - s - 3)
    requires Underway(r, M, x, s, b, j, a)
    requires Scattered(a, b * (8 * Pow2(s)) + j, Pow2(s), Partial(r, M, x, s, 3, Rev(M - s - 3, b), j), a')
    ensures Underway(r, M, x, s, b + 1, j, a')
  {
    hide Dit, Rev, Slot, Pick, Gather, Partial;
    var h, off := Pow2(s), Rev(M - s - 3, b);
    var whole := Partial(r, M, x, s, 3, off, j);
    forall p | 0 <= p < |a'|
      ensures a'[p] == if Before(h, b + 1, j, p) then Slot(r, M, x, s + 3, p) else Slot(r, M, x, s, p)
    {
      if InGroup(h, b, j, p) {
        var t := GroupMember(h, b, j, p);
        PickGather(a', b * (8 * h) + j, h, t);
        PickWhole(r, M, x, s, off, j, t);
        GroupHolds(r, M, x, s, b, j, t);
      } else {
        Untouched(a, h, b, j, whole, a', p);
      }
    }
  }

  // --- the code ---

  method Butterfly8(io: array<Complex>, p: nat, h: nat, dir: real, u0: Complex, u1: Complex, u2: Complex, u3: Complex)
    requires h > 0 && p + 7 * h < io.Length
    modifies io
    ensures Scattered(old(io[..]), p, h, Radix8(dir, u0, u1, u2, u3, Gather(old(io[..]), p, h)), io[..])
  {
    var fly := Oct(io[p], io[p + h], io[p + 2 * h], io[p + 3 * h],
                   io[p + 4 * h], io[p + 5 * h], io[p + 6 * h], io[p + 7 * h]);
    var o := Radix8(dir, u0, u1, u2, u3, fly);
    io[p + 4 * h] := o.o4;
    io[p] := o.o0;
    io[p + 2 * h] := o.o2;
    io[p + 6 * h] := o.o6;
    io[p + 5 * h] := o.o5;
    io[p + h] := o.o1;
    io[p + 7 * h] := o.o7;
    io[p + 3 * h] := o.o3;
    hide Radix8;
    assert Gather(old(io[..]), p, h) == fly;
  }

  // The LoopCnt loop: the butterflies of column j, one per block of 8h slots.
  method Column(io: array<Complex>, j: nat, h: nat, loopN: nat, dir: real,
                u0: Complex, u1: Complex, u2: Complex, u3: Complex,
                ghost r: Roots, ghost M: nat, ghost x: seq<Complex>, ghost s: nat)
    requires s + 3 <= M <= r.L && r.Valid() && r.dir == dir
    requires h == Pow2(s) && loopN == Pow2(M - s - 3) && j < h
    requires TwiddlesHeld(r, s, j, u0, u1, u2, u3)
    requires Underway(r, M, x, s, 0, j, io[..])
    modifies io
    ensures Underway(r, M, x, s, 0, j + 1, io[..])
  {
    hide Radix8, Partial, TwiddlesHeld, Underway, Scattered, Gather, Rev, Pow2;
    var fly0P := j;
    ghost var b := 0;
    for loopCnt := loopN downto 0
      invariant b == loopN - loopCnt && fly0P == b * (8 * h) + j
      invariant Underway(r, M, x, s, b, j, io[..])
    {
      GroupGathers(r, M, x, s, b, j, io[..]);
      Radix8IsThreeStages(r, M, x, s, Rev(M - s - 3, b), j, u0, u1, u2, u3);
      ghost var a := io[..];
      Butterfly8(io, fly0P, h, dir, u0, u1, u2, u3);
      GroupWritten(r, M, x, s, b, j, a, io[..]);
      assert (b + 1) * (8 * h) == b * (8 * h) + 8 * h;
      fly0P := fly0P + 8 * h;
      b := b + 1;
    }
    ColumnDone(r, M, x, s, j, io[..]);
  }

  lemma ColumnDone(r: Roots, M: nat, x: seq<Complex>, s: nat, j: nat, a: seq<Complex>)
    requires s + 3 <= M <= r.L && j < Pow2(s)
    requires Underway(r, M, x, s, Pow2(M - s - 3), j, a)
    ensures Underway(r, M, x, s, 0, j + 1, a)
  {
    hide Slot, Before;
    var h, n, j' := Pow2(s), Pow2(M - s - 3), j + 1;
    forall p | 0 <= p < |a|
      ensures Before(h, 0, j', p) == Before(h, n, j, p)
    {
      BlockBound(M, s, p);
      NextColumn(h, n, j, p);
    }
  }

  lemma NextColumn(h: nat, n: nat, j: nat, p: nat)
    requires h > 0 && p / (8 * h) < n
    ensures Before(h, 0, j + 1, p) == Before(h, n, j, p)
  {
    DivModOf(p, 8 * h);
    if p / (8 * h) < 0 {
      MulAtLeast(-(p / (8 * h)), 8 * h);
    }
  }

  lemma BlockBound(M: nat, s: nat, p: nat)
    requires s + 3 <= M && p < Pow2(M)
    ensures p / (8 * Pow2(s)) < Pow2(M - s - 3)
  {
    var g, b := 8 * Pow2(s), p / (8 * Pow2(s));
    DivModOf(p, g);
    Pow2Add(M - s - 3, s + 3);
    assert Pow2(s + 3) == g by {
      assert Pow2(s + 1) == 2 * Pow2(s) && Pow2(s + 2) == 4 * Pow2(s);
    }
    MulGe(b, Pow2(M - s - 3), g);
  }
}
