// The radix-8 stage loop of ffts and iffts (lines 489-822 and 1228-1559 of
// fftlib.c): the walk along the single-quadrant cosine table.
module RadixEight {
  import opened Numbers
  import opened Complexes
  import opened Transform
  import opened Butterflies
  import opened Stages

  // The table pointers U0rP .. U2iP, as indices into Utbl.
  datatype Cursor = Cursor(u0r: int, u0i: int, u1r: int, u1i: int, u2r: int, u2i: int)

  // Where the pointers stand at column j: in the first half of a stage U0rP
  // climbs the quadrant, in the second half it comes back down.
  ghost predicate CursorAt(L: nat, s: nat, odd: bool, j: nat, c: Cursor)
    requires s + 3 <= L
  {
    var Q, e4, e2, e1 := Pow2(L - 2), Pow2(L - s - 1), Pow2(L - s - 2), Pow2(L - s - 3);
    && c.u0r == (if odd then 2 * Q - j * e4 else j * e4)
    && c.u0i == (if odd then j * e4 - Q else Q - j * e4)
    && c.u1r == j * e2 && c.u1i == Q - j * e2
    && c.u2r == j * e1 && c.u2i == Q - j * e1
  }

  // The columns of each half; the pointers have also been advanced past the last one.
  predicate InHalf(s: nat, odd: bool, j: nat)
    requires s >= 1
  {
    if odd then Pow2(s - 1) <= j <= Pow2(s) else j <= Pow2(s - 1)
  }

  lemma MultipleBelow(k: nat, n: nat, j: nat)
    requires j <= Pow2(k)
    ensures j * Pow2(n) <= Pow2(k + n)
  {
    Pow2Add(k, n);
    assert (Pow2(k) - j) * Pow2(n) >= 0;
    assert (Pow2(k) - j) * Pow2(n) == Pow2(k) * Pow2(n) - j * Pow2(n);
  }

  lemma MultipleAbove(k: nat, n: nat, j: nat)
    requires j >= Pow2(k)
    ensures j * Pow2(n) >= Pow2(k + n)
  {
    Pow2Add(k, n);
    assert (j - Pow2(k)) * Pow2(n) >= 0;
    assert (j - Pow2(k)) * Pow2(n) == j * Pow2(n) - Pow2(k) * Pow2(n);
  }

  // Every table index lies in the quadrant 0 .. N/4.
  lemma Cursor0InTable(L: nat, s: nat, odd: bool, j: nat)
    requires 1 <= s && s + 3 <= L && InHalf(s, odd, j)
    ensures var Q := Pow2(L - 2);
            if odd then Q <= j * Pow2(L - s - 1) <= 2 * Q else 0 <= j * Pow2(L - s - 1) <= Q
  {
    assert s - 1 + (L - s - 1) == L - 2 && s + (L - s - 1) == L - 1;
    if odd {
      MultipleBelow(s, L - s - 1, j);
      MultipleAbove(s - 1, L - s - 1, j);
    } else {
      MultipleBelow(s - 1, L - s - 1, j);
    }
  }

  lemma CursorInTable(L: nat, s: nat, odd: bool, j: nat, c: Cursor)
    requires 1 <= s && s + 3 <= L && InHalf(s, odd, j) && CursorAt(L, s, odd, j, c)
    ensures var Q := Pow2(L - 2);
            && 0 <= c.u0r <= Q && 0 <= c.u0i <= Q && c.u0r + c.u0i == Q
            && 0 <= c.u1r <= Q && 0 <= c.u1i <= Q && c.u1r + c.u1i == Q
            && 0 <= c.u2r && c.u2r + Pow2(L - 3) <= Q && 0 <= c.u2i - Pow2(L - 3)
            && c.u2r + c.u2i == Q
  {
    assert j <= Pow2(s) by {
      Pow2Monotone(s - 1, s);
    }
    Cursor0InTable(L, s, odd, j);
    assert s + (L - s - 2) == L - 2 && s + (L - s - 3) == L - 3;
    MultipleBelow(s, L - s - 2, j);
    MultipleBelow(s, L - s - 3, j);
    hide Pow2;
    assert Pow2(L - 2) == 2 * Pow2(L - 3) by {
      Pow2Add(1, L - 3);
      OnePower();
    }
  }

  lemma FirstQuadrant(r: Roots, utbl: seq<real>, i: nat)
    requires r.Valid() && r.Tabulated(utbl) && i <= Pow2(r.L - 2)
    ensures Held(r.dir, C(utbl[i], utbl[Pow2(r.L - 2) - i])) == r.w(i)
  {
  }

  lemma SecondQuadrant(r: Roots, utbl: seq<real>, i: nat)
    requires r.Valid() && r.Tabulated(utbl) && i <= Pow2(r.L - 2)
    ensures Held(r.dir, C(-utbl[Pow2(r.L - 2) - i], utbl[i])) == r.w(i + Pow2(r.L - 2))
  {
    r.QuarterTurn(i);
  }

  // The registers U0 .. U3 loaded through the pointers.
  function Load0(utbl: seq<real>, odd: bool, c: Cursor): Complex
    requires 0 <= c.u0r < |utbl| && 0 <= c.u0i < |utbl|
  {
    if odd then C(-utbl[c.u0r], utbl[c.u0i]) else C(utbl[c.u0r], utbl[c.u0i])
  }

  // A register pair read at index i and at its complement holds w(i).
  lemma LoadHolds(r: Roots, utbl: seq<real>, s: nat, j: nat, i: nat, i': nat)
    requires r.Valid() && r.Tabulated(utbl) && s < r.L && i + i' == Pow2(r.L - 2) && i == j * Pow2(r.L - s - 1)
    ensures i < |utbl| && i' < |utbl| && Held(r.dir, C(utbl[i], utbl[i'])) == Twiddle(r, s, j)
  {
    hide Held, Twiddle;
    FirstQuadrant(r, utbl, i);
    TwiddleAt(r, s, j);
  }

  lemma TwiddleAt(r: Roots, s: nat, j: nat)
    requires s < r.L
    ensures Twiddle(r, s, j) == r.w(j * Pow2(r.L - s - 1))
  {
  }

  lemma Load0Holds(r: Roots, utbl: seq<real>, s: nat, odd: bool, j: nat, c: Cursor)
    requires r.Valid() && r.Tabulated(utbl) && 1 <= s && s + 3 <= r.L
    requires InHalf(s, odd, j) && CursorAt(r.L, s, odd, j, c)
    ensures 0 <= c.u0r < |utbl| && 0 <= c.u0i < |utbl|
    ensures Held(r.dir, Load0(utbl, odd, c)) == Twiddle(r, s, j)
  {
    hide Held, Twiddle;
    CursorInTable(r.L, s, odd, j, c);
    TwiddleAt(r, s, j);
    if odd {
      SecondQuadrant(r, utbl, c.u0i);
    } else {
      FirstQuadrant(r, utbl, c.u0r);
    }
  }

  lemma LoadsTwiddles(r: Roots, utbl: seq<real>, s: nat, odd: bool, j: nat, c: Cursor)
    requires r.Valid() && r.Tabulated(utbl) && 1 <= s && s + 3 <= r.L
    requires InHalf(s, odd, j) && CursorAt(r.L, s, odd, j, c)
    ensures var e := Pow2(r.L - 3);
            && 0 <= c.u0r < |utbl| && 0 <= c.u0i < |utbl| && 0 <= c.u1r < |utbl| && 0 <= c.u1i < |utbl|
            && 0 <= c.u2r && c.u2r + e < |utbl| && 0 <= c.u2i - e && c.u2i < |utbl|
            && TwiddlesHeld(r, s, j, Load0(utbl, odd, c), C(utbl[c.u1r], utbl[c.u1i]),
                            C(utbl[c.u2r], utbl[c.u2i]), C(utbl[c.u2r + e], utbl[c.u2i - e]))
  {
    hide Held, Twiddle, Load0, CursorAt, Pow2, InHalf, Roots.Tabulated;
    CursorInTable(r.L, s, odd, j, c);
    Load0Holds(r, utbl, s, odd, j, c);
    CursorColumns(r.L, s, odd, j, c);
    LoadHolds(r, utbl, s + 1, j, c.u1r, c.u1i);
    LoadHolds(r, utbl, s + 2, j, c.u2r, c.u2i);
    LoadHolds(r, utbl, s + 2, j + Pow2(s), c.u2r + Pow2(r.L - 3), c.u2i - Pow2(r.L - 3));
  }

  lemma CursorColumns(L: nat, s: nat, odd: bool, j: nat, c: Cursor)
    requires 1 <= s && s + 3 <= L && CursorAt(L, s, odd, j, c)
    ensures c.u1r == j * Pow2(L - (s + 1) - 1)
    ensures c.u2r == j * Pow2(L - (s + 2) - 1)
    ensures c.u2r + Pow2(L - 3) == (j + Pow2(s)) * Pow2(L - (s + 2) - 1)
  {
    assert L - (s + 2) - 1 == L - 3 - s;
    PeriodIndex(L - 3, s, j, 1);
  }

  lemma CursorSteps(L: nat, s: nat, odd: bool, j: nat, c: Cursor, n4: int, n2: int, n1: int)
    requires s + 3 <= L && CursorAt(L, s, odd, j, c)
    requires n4 == (if odd then -1 else 1) * Pow2(L - s - 1)
    requires n2 == Pow2(L - s - 2) && n1 == Pow2(L - s - 3)
    ensures CursorAt(L, s, odd, j + 1,
                     Cursor(c.u0r + n4, c.u0i - n4, c.u1r + n2, c.u1i - n2, c.u2r + n1, c.u2i - n1))
  {
    hide Pow2;
    Distribute(j, 1, 1, Pow2(L - s - 1));
    Distribute(j, 1, 1, Pow2(L - s - 2));
    Distribute(j, 1, 1, Pow2(L - s - 3));
  }

  // The pointers at the half-way column serve both halves: U0rP stands on N/4.
  lemma CursorTurns(L: nat, s: nat, c: Cursor)
    requires 1 <= s && s + 3 <= L && CursorAt(L, s, false, Pow2(s - 1), c)
    ensures CursorAt(L, s, true, Pow2(s - 1), c)
  {
    Pow2Add(s - 1, L - s - 1);
    assert s - 1 + (L - s - 1) == L - 2;
  }

  // The diffUcnt loop of one half stage (lines 520-803): columns iop .. iop + diffU - 1,
  // then the pointers and registers for the next column.
  method HalfStage(io: array<Complex>, odd: bool, iop: nat, diffU: nat, h: nat, loopN: nat,
                   n4: int, n2: int, n1: int, u3offset: nat, utbl: seq<real>, dir: real,
                   cursor: Cursor, reg0: Complex, reg1: Complex, reg2: Complex, reg3: Complex,
                   ghost r: Roots, ghost M: nat, ghost x: seq<Complex>, ghost s: nat)
    returns (c: Cursor, u0: Complex, u1: Complex, u2: Complex, u3: Complex)
    requires 1 <= s && s + 3 <= M <= r.L && r.Valid() && r.dir == dir && r.Tabulated(utbl)
    requires h == Pow2(s) && diffU == Pow2(s - 1) && loopN == Pow2(M - s - 3) && u3offset == Pow2(r.L - 3)
    requires n4 == (if odd then -1 else 1) * Pow2(r.L - s - 1)
    requires n2 == Pow2(r.L - s - 2) && n1 == Pow2(r.L - s - 3)
    requires iop == (if odd then Pow2(s - 1) else 0)
    requires CursorAt(r.L, s, odd, iop, cursor) && TwiddlesHeld(r, s, iop, reg0, reg1, reg2, reg3)
    requires Underway(r, M, x, s, 0, iop, io[..])
    modifies io
    ensures Underway(r, M, x, s, 0, iop + diffU, io[..])
    ensures CursorAt(r.L, s, odd, iop + diffU, c) && TwiddlesHeld(r, s, iop + diffU, u0, u1, u2, u3)
  {
    hide Underway, TwiddlesHeld, Roots.Tabulated, CursorAt, Slot;
    var j := iop;
    c, u0, u1, u2, u3 := cursor, reg0, reg1, reg2, reg3;
    assert Pow2(s) == 2 * Pow2(s - 1);
    for diffUcnt := diffU downto 0
      invariant j == iop + diffU - diffUcnt
      invariant Underway(r, M, x, s, 0, j, io[..])
      invariant CursorAt(r.L, s, odd, j, c) && TwiddlesHeld(r, s, j, u0, u1, u2, u3)
    {
      Column(io, j, h, loopN, dir, u0, u1, u2, u3, r, M, x, s);
      CursorSteps(r.L, s, odd, j, c, n4, n2, n1);
      c := Cursor(c.u0r + n4, c.u0i - n4, c.u1r + n2, c.u1i - n2, c.u2r + n1, c.u2i - n1);
      j := j + 1;
      LoadsTwiddles(r, utbl, s, odd, j, c);
      u0 := if odd then C(-utbl[c.u0r], utbl[c.u0i]) else C(utbl[c.u0r], utbl[c.u0i]);
      u1 := C(utbl[c.u1r], utbl[c.u1i]);
      u2 := C(utbl[c.u2r], utbl[c.u2i]);
      u3 := C(utbl[c.u2r + u3offset], utbl[c.u2i - u3offset]);
    }
  }

  // All columns done: the array is staged three levels further.
  lemma StageDone(r: Roots, M: nat, x: seq<Complex>, s: nat, a: seq<Complex>)
    requires s + 3 <= M <= r.L && Underway(r, M, x, s, 0, Pow2(s), a)
    ensures Staged(r, M, x, s + 3, a)
  {
    hide Slot;
    forall p | 0 <= p < |a|
      ensures Before(Pow2(s), 0, Pow2(s), p)
    {
    }
  }

  lemma StageBegins(r: Roots, M: nat, x: seq<Complex>, s: nat, a: seq<Complex>)
    requires s + 3 <= M <= r.L && Staged(r, M, x, s, a)
    ensures Underway(r, M, x, s, 0, 0, a)
  {
    hide Slot;
    var h := Pow2(s);
    forall p | 0 <= p < |a|
      ensures !Before(h, 0, 0, p)
    {
      DivModOf(p, 8 * h);
      if p / (8 * h) < 0 {
        MulAtLeast(-(p / (8 * h)), 8 * h);
      }
    }
  }

  lemma Eighth(k: nat)
    requires k >= 3
    ensures Pow2(k) / 8 == Pow2(k - 3)
  {
    assert Pow2(k) == 2 * Pow2(k - 1) && Pow2(k - 1) == 2 * Pow2(k - 2);
  }

  lemma Halves(k: nat)
    requires k >= 1
    ensures Pow2(k) == 2 * Pow2(k - 1) && Pow2(k) / 2 == Pow2(k - 1)
  {
  }

  lemma TableFits(r: Roots, utbl: seq<real>)
    requires r.L >= 3 && r.Tabulated(utbl)
    ensures |utbl| == Pow2(r.L - 2) + 1 && Pow2(r.L - 2) == 2 * Pow2(r.L - 3)
  {
  }

  // The strides and counts of a stage that starts from 2^s-point transforms.
  ghost predicate Strides(L: nat, M: nat, s: nat, odd: bool, n4: int, n2: int, n1: int, loopN: nat, ndiffU: nat) {
    && 1 <= s && s + 3 <= M <= L
    && n4 == (if odd then -1 else 1) * Pow2(L - s - 1)
    && n2 == Pow2(L - s - 2) && n1 == Pow2(L - s - 3)
    && loopN == Pow2(M - s - 3) && ndiffU == Pow2(s)
  }

  // LoopN, NsameU1..4 and NdiffU at the end of a stage.
  lemma NextStrides(L: nat, M: nat, s: nat, n4: int, n2: int, n1: int, loopN: nat, ndiffU: nat)
    requires Strides(L, M, s, false, n4, n2, n1, loopN, ndiffU) && s + 6 <= M
    ensures Strides(L, M, s + 3, false, n4 / 8, n2 / 8, n1 / 8, loopN / 8, ndiffU * 8)
  {
    Eighth(L - s - 1);
    Eighth(L - s - 2);
    Eighth(L - s - 3);
    Eighth(M - s - 3);
    Eighth(s + 3);
    assert ndiffU * 8 == Pow2(s + 3) by {
      Pow2Add(s, 3);
      assert Pow2(3) == 2 * Pow2(2) && Pow2(2) == 2 * Pow2(1) && Pow2(1) == 2;
    }
  }

  // What one pass of the stage loop hands to the next.
  datatype Walk = Walk(cursor: Cursor, u0: Complex, u1: Complex, u2: Complex, u3: Complex, iop: nat,
                       n4: int, n2: int, n1: int, loopN: nat, ndiffU: nat)

  // The state when the stage counter of the source stands at stage: an even
  // stage begins a radix-8 pass, an odd one its second half.
  ghost predicate WalkAt(r: Roots, M: nat, x: seq<Complex>, s: nat, stage: nat, k: Walk, a: seq<Complex>) {
    && 1 <= s <= M <= r.L && M == s + 3 * ((stage + 1) / 2)
    && (stage == 0 ==> Staged(r, M, x, M, a))
    && (stage > 0 ==> Strides(r.L, M, s, stage % 2 == 1, k.n4, k.n2, k.n1, k.loopN, k.ndiffU))
    && (stage > 0 && stage % 2 == 0 ==> Underway(r, M, x, s, 0, 0, a))
    && (stage % 2 == 1 ==>
         && k.iop == Pow2(s - 1)
         && CursorAt(r.L, s, true, k.iop, k.cursor) && TwiddlesHeld(r, s, k.iop, k.u0, k.u1, k.u2, k.u3)
         && Underway(r, M, x, s, 0, k.iop, a))
  }

  method FirstHalf(io: array<Complex>, M: nat, tbl: nat, stage: nat, k: Walk, utbl: seq<real>, dir: real,
                   ghost r: Roots, ghost x: seq<Complex>, ghost s: nat)
    returns (k': Walk)
    requires stage > 0 && stage % 2 == 0 && WalkAt(r, M, x, s, stage, k, io[..])
    requires r.Valid() && r.dir == dir && tbl == r.L && r.Tabulated(utbl)
    modifies io
    ensures WalkAt(r, M, x, s, stage - 1, k', io[..])
  {
    hide Underway, TwiddlesHeld, Roots.Tabulated, CursorAt, Slot, Staged, Held, Twiddle, Pow2;
    TableFits(r, utbl);
    Halves(s);
    var Q, u3offset := Pow2(tbl - 2), Pow2(tbl - 3);
    var cursor := Cursor(0, Q, 0, Q, 0, Q);
    FirstCursor(r.L, s);
    LoadsTwiddles(r, utbl, s, false, 0, cursor);
    var u := C(utbl[0], utbl[Q]);
    var u3 := C(utbl[u3offset], utbl[Q - u3offset]);
    var c, v0, v1, v2, v3 := HalfStage(io, false, 0, k.ndiffU / 2, k.ndiffU, k.loopN, k.n4, k.n2, k.n1, u3offset,
                                       utbl, dir, cursor, u, u, u, u3, r, M, x, s);
    CursorTurns(r.L, s, c);
    k' := Walk(c, v0, v1, v2, v3, k.ndiffU / 2, -k.n4, k.n2, k.n1, k.loopN, k.ndiffU);
  }

  method SecondHalf(io: array<Complex>, M: nat, tbl: nat, stage: nat, k: Walk, utbl: seq<real>, dir: real,
                    ghost r: Roots, ghost x: seq<Complex>, ghost s: nat)
    returns (k': Walk)
    requires stage % 2 == 1 && WalkAt(r, M, x, s, stage, k, io[..])
    requires r.Valid() && r.dir == dir && tbl == r.L && r.Tabulated(utbl)
    modifies io
    ensures WalkAt(r, M, x, s + 3, stage - 1, k', io[..])
  {
    hide Underway, TwiddlesHeld, Roots.Tabulated, CursorAt, Slot, Staged, Held, Twiddle, Pow2;
    TableFits(r, utbl);
    Halves(s);
    var u3offset := Pow2(tbl - 3);
    var c, v0, v1, v2, v3 := HalfStage(io, true, k.iop, k.ndiffU / 2, k.ndiffU, k.loopN, k.n4, k.n2, k.n1, u3offset,
                                       utbl, dir, k.cursor, k.u0, k.u1, k.u2, k.u3, r, M, x, s);
    StageDone(r, M, x, s, io[..]);
    if stage > 1 {
      NextStrides(r.L, M, s, -k.n4, k.n2, k.n1, k.loopN, k.ndiffU);
      StageBegins(r, M, x, s + 3, io[..]);
    }
    k' := Walk(c, v0, v1, v2, v3, k.iop + k.ndiffU / 2,
               -k.n4 / 8, k.n2 / 8, k.n1 / 8, k.loopN / 8, k.ndiffU * 8);
  }

  // The radix-8 stages, from 2^s0-point transforms to the full 2^M points.
  // tbl is log2 of the table's transform size: M for ffts, M + 1 for rffts.
  method Radix8Stages(io: array<Complex>, M: nat, tbl: nat, stages: nat, n4: nat, loopN: nat, ndiffU: nat,
                      utbl: seq<real>, dir: real, ghost r: Roots, ghost x: seq<Complex>, ghost s0: nat)
    requires 1 <= s0 <= M <= tbl == r.L && r.L >= 3 && M == s0 + 3 * stages
    requires r.Valid() && r.dir == dir && r.Tabulated(utbl)
    requires stages > 0 ==> n4 == Pow2(r.L - s0 - 1) && loopN == Pow2(M - s0 - 2) && ndiffU == Pow2(s0)
    requires Staged(r, M, x, s0, io[..])
    modifies io
    ensures Staged(r, M, x, M, io[..])
  {
    hide Underway, TwiddlesHeld, Roots.Tabulated, CursorAt, Slot, Staged, Pow2;
    var k := Walk(Cursor(0, 0, 0, 0, 0, 0), Zero, Zero, Zero, Zero, 0, n4, n4 / 2, n4 / 2 / 2, loopN / 2, ndiffU);
    ghost var s := s0;
    if stages > 0 {
      Halves(r.L - s0 - 1);
      Halves(r.L - s0 - 2);
      Halves(M - s0 - 2);
      StageBegins(r, M, x, s, io[..]);
    }
    var stage: nat := 2 * stages;
    while stage > 0
      invariant s <= M && WalkAt(r, M, x, s, stage, k, io[..])
    {
      if stage % 2 == 0 {
        k := FirstHalf(io, M, tbl, stage, k, utbl, dir, r, x, s);
      } else {
        k := SecondHalf(io, M, tbl, stage, k, utbl, dir, r, x, s);
        s := s + 3;
      }
      stage := stage - 1;
    }
  }

  lemma FirstCursor(L: nat, s: nat)
    requires s + 3 <= L
    ensures CursorAt(L, s, false, 0, Cursor(0, Pow2(L - 2), 0, Pow2(L - 2), 0, Pow2(L - 2)))
  {
  }
}
