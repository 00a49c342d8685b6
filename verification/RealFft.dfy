// rffts and riffts (lines 1571-2433 and 2435-3307 of fftlib.c) on one row.
module RealFft {
  // A complex transform of half the size, with a pass that separates the spectra
  // of the even and the odd samples, or joins them again.

  import opened Numbers
  import opened Complexes
  import opened Transform
  import opened Fft

  // The products of lines 2400-2403: t1 turned back by U0.
  function TurnBack(u: real, v: real, t1: Complex): Complex {
    C(u * t1.re + v * t1.im, -v * t1.re + u * t1.im)
  }

  // Lines 2390-2405 for slots k and N/2 - k; U0r, U0i are Utbl[k], Utbl[N/4 - k].
  function Separate(u: real, v: real, fly0: Complex, fly1: Complex): (Complex, Complex) {
    var t0 := C(fly0.re + fly1.re, fly0.im - fly1.im);
    var t1 := C(fly0.im + fly1.im, fly1.re - fly0.re);
    var turned := TurnBack(u, v, t1);
    var fly2 := C(t0.re + turned.re, t0.im + turned.im);
    (fly2, C(2.0 * t0.re - fly2.re, fly2.im - 2.0 * t0.im))
  }

  // Lines 2601-2604: t1 turned by U0.
  function Turn(u: real, v: real, t1: Complex): Complex {
    C(t1.re * u - v * t1.im, t1.re * v + u * t1.im)
  }

  // Lines 2590-2615 for the same two slots.
  function Join(u: real, v: real, fly0: Complex, fly1: Complex): (Complex, Complex) {
    var t0 := C(fly0.re + fly1.re, fly0.im - fly1.im);
    var t1 := C(fly0.re - fly1.re, fly0.im + fly1.im);
    var fly3 := Turn(u, v, t1);
    (C(t0.re - fly3.im, t0.im + fly3.re), C(t0.re + fly3.im, -t0.im + fly3.re))
  }

  // The slots 0 and N/4 of the two passes (lines 2336-2339 and 2533-2536).
  function SeparateFirst(fly0: Complex): Complex {
    C(2.0 * fly0.re + 2.0 * fly0.im, 2.0 * fly0.re - 2.0 * fly0.im)
  }

  function SeparateMiddle(fly1: Complex): Complex {
    C(2.0 * fly1.re, -2.0 * fly1.im)
  }

  function JoinFirst(fly0: Complex): Complex {
    C(fly0.re + fly0.im, fly0.re - fly0.im)
  }

  function JoinMiddle(fly1: Complex): Complex {
    C(fly1.re + fly1.re, -fly1.im - fly1.im)
  }

  // A pass over H = N/2 slots, described slot by slot; q is N/4.  first and
  // middle treat slots 0 and q, pair the slots k and H - k.
  datatype Pass = Finish | Start {

    function First(a: Complex): Complex {
      if Finish? then SeparateFirst(a) else JoinFirst(a)
    }

    function Middle(a: Complex): Complex {
      if Finish? then SeparateMiddle(a) else JoinMiddle(a)
    }

    function Pair(u: real, v: real, a: Complex, b: Complex): (Complex, Complex) {
      if Finish? then Separate(u, v, a, b) else Join(u, v, a, b)
    }

    function Value(utbl: seq<real>, z: seq<Complex>, q: nat, p: nat): Complex
      requires q > 0 && |utbl| == q + 1 && |z| == 2 * q && p < 2 * q
    {
      if p == 0 then First(z[0])
      else if p == q then Middle(z[q])
      else if p < q then Pair(utbl[p], utbl[q - p], z[p], z[2 * q - p]).0
      else Pair(utbl[2 * q - p], utbl[p - q], z[2 * q - p], z[p]).1
    }

    function Apply(utbl: seq<real>, z: seq<Complex>, q: nat): (y: seq<Complex>)
      requires q > 0 && |utbl| == q + 1 && |z| == 2 * q
      ensures |y| == 2 * q
    {
      seq(2 * q, p requires 0 <= p < 2 * q => Value(utbl, z, q, p))
    }
  }

  // The k for which the loop treats slot p: one of k, q - k, q + k, 2q - k.
  function Class(q: int, p: int): int {
    var r := if p <= q then p else p - q;
    if r <= q - r then r else q - r
  }

  predicate Treated(q: int, k: int, p: int) {
    Class(q, p) == 0 || 2 * Class(q, p) == q || Class(q, p) < k
  }

  ghost predicate Halfway(pass: Pass, utbl: seq<real>, z: seq<Complex>, q: nat, k: nat, a: seq<Complex>)
    requires q > 0 && |utbl| == q + 1 && |z| == 2 * q
  {
    && |a| == 2 * q
    && forall p :: 0 <= p < 2 * q ==> a[p] == if Treated(q, k, p) then pass.Value(utbl, z, q, p) else z[p]
  }

  ghost predicate Stepped(pass: Pass, u: real, v: real, q: nat, k: nat, a: seq<Complex>, a': seq<Complex>)
    requires 0 < k && 2 * k < q
  {
    && |a| == |a'| == 2 * q
    && a'[k] == pass.Pair(u, v, a[k], a[2 * q - k]).0
    && a'[2 * q - k] == pass.Pair(u, v, a[k], a[2 * q - k]).1
    && a'[q - k] == pass.Pair(v, u, a[q - k], a[q + k]).0
    && a'[q + k] == pass.Pair(v, u, a[q - k], a[q + k]).1
    && forall p :: 0 <= p < 2 * q && p != k && p != 2 * q - k && p != q - k && p != q + k ==> a'[p] == a[p]
  }

  // One butterfly of the loop: the pairs (k, 2q - k) and (q - k, q + k), k = fly0P.
  method QuadStep(pass: Pass, io: array<Complex>, fly0P: nat, fly1P: nat, q: nat, u0r: real, u0i: real)
    requires 0 < fly0P < fly1P && fly0P + fly1P == q && io.Length == 2 * q
    modifies io
    ensures Stepped(pass, u0r, u0i, q, fly0P, old(io[..]), io[..])
  {
    hide Separate, Join, Pass.Pair;
    var fly0, fly1, fly2, fly3 := io[fly0P], io[fly1P + q], io[fly1P], io[fly0P + q];
    var ab := pass.Pair(u0r, u0i, fly0, fly1);
    var cd := pass.Pair(u0i, u0r, fly2, fly3);
    io[fly0P] := ab.0;
    io[fly1P + q] := ab.1;
    io[fly1P] := cd.0;
    io[fly0P + q] := cd.1;
  }

  lemma QuadDone(pass: Pass, utbl: seq<real>, z: seq<Complex>, q: nat, k: nat, a: seq<Complex>, a': seq<Complex>)
    requires 0 < k && 2 * k < q && |utbl| == q + 1 && |z| == 2 * q
    requires Halfway(pass, utbl, z, q, k, a) && Stepped(pass, utbl[k], utbl[q - k], q, k, a, a')
    ensures Halfway(pass, utbl, z, q, k + 1, a')
  {
    hide Pass.First, Pass.Middle, Pass.Pair, Pass.Value, Treated, Stepped;
    SteppedLength(pass, utbl[k], utbl[q - k], q, k, a, a');
    forall p | 0 <= p < 2 * q
      ensures a'[p] == if Treated(q, k + 1, p) then pass.Value(utbl, z, q, p) else z[p]
    {
      QuadSlot(pass, utbl, z, q, k, a, a', p);
    }
  }

  lemma SteppedLength(pass: Pass, u: real, v: real, q: nat, k: nat, a: seq<Complex>, a': seq<Complex>)
    requires 0 < k && 2 * k < q && Stepped(pass, u, v, q, k, a, a')
    ensures |a| == |a'| == 2 * q
  {
  }

  lemma QuadSlot(pass: Pass, utbl: seq<real>, z: seq<Complex>, q: nat, k: nat, a: seq<Complex>, a': seq<Complex>, p: nat)
    requires 0 < k && 2 * k < q && |utbl| == q + 1 && |z| == 2 * q && p < 2 * q
    requires Halfway(pass, utbl, z, q, k, a) && Stepped(pass, utbl[k], utbl[q - k], q, k, a, a')
    ensures p < |a'| && a'[p] == if Treated(q, k + 1, p) then pass.Value(utbl, z, q, p) else z[p]
  {
    hide Pass.First, Pass.Middle, Pass.Pair;
    ClassSlots(q, k, p);
  }

  lemma ClassSlots(q: nat, k: nat, p: nat)
    requires 0 < k && 2 * k < q && p < 2 * q
    ensures Class(q, p) == k <==> p == k || p == q - k || p == q + k || p == 2 * q - k
  {
  }

  // The four slots treated before the loop.
  ghost predicate Opened(pass: Pass, u: real, q: nat, e: nat, z: seq<Complex>, a: seq<Complex>)
    requires 0 < e && 2 * e == q
  {
    && |a| == |z| == 2 * q
    && a[0] == pass.First(z[0]) && a[q] == pass.Middle(z[q])
    && a[e] == pass.Pair(u, u, z[e], z[e + q]).0 && a[e + q] == pass.Pair(u, u, z[e], z[e + q]).1
    && forall p :: 0 <= p < 2 * q && p != 0 && p != q && p != e && p != e + q ==> a[p] == z[p]
  }

  method FirstFour(pass: Pass, io: array<Complex>, q: nat, e: nat, u0r: real)
    requires 0 < e && 2 * e == q && io.Length == 2 * q
    modifies io
    ensures Opened(pass, u0r, q, e, old(io[..]), io[..])
  {
    hide Pass.First, Pass.Middle, Pass.Pair;
    var fly0, fly1 := io[0], io[q];
    var cd := pass.Pair(u0r, u0r, io[e], io[e + q]);
    io[0] := pass.First(fly0);
    io[q] := pass.Middle(fly1);
    io[e] := cd.0;
    io[e + q] := cd.1;
  }

  lemma OpenedIsHalfway(pass: Pass, utbl: seq<real>, z: seq<Complex>, q: nat, e: nat, a: seq<Complex>)
    requires 0 < e && 2 * e == q && |utbl| == q + 1 && |z| == 2 * q && Opened(pass, utbl[e], q, e, z, a)
    ensures Halfway(pass, utbl, z, q, 1, a)
  {
    hide Pass.First, Pass.Middle, Pass.Pair;
    forall p | 0 <= p < 2 * q
      ensures a[p] == if Treated(q, 1, p) then pass.Value(utbl, z, q, p) else z[p]
    {
      OpenSlots(q, e, p);
    }
  }

  lemma OpenSlots(q: nat, e: nat, p: nat)
    requires 0 < e && 2 * e == q && p < 2 * q
    ensures Treated(q, 1, p) <==> p == 0 || p == q || p == e || p == e + q
  {
  }

  lemma HalfwayIsDone(pass: Pass, utbl: seq<real>, z: seq<Complex>, q: nat, e: nat, a: seq<Complex>)
    requires 0 < e && 2 * e == q && |utbl| == q + 1 && |z| == 2 * q && Halfway(pass, utbl, z, q, e, a)
    ensures a == pass.Apply(utbl, z, q)
  {
    hide Pass.Value;
    forall p | 0 <= p < 2 * q
      ensures Treated(q, e, p)
    {
    }
  }

  // The finishing pass of rffts (lines 2315-2429) or the opening pass of
  // riffts (lines 2512-2638); q is N/4.
  method RunPass(pass: Pass, io: array<Complex>, q: nat, utbl: seq<real>)
    requires q >= 2 && q % 2 == 0 && |utbl| == q + 1 && io.Length == 2 * q
    modifies io
    ensures io[..] == pass.Apply(utbl, old(io[..]), q)
  {
    hide Halfway, Stepped, Opened, Pass.Apply;
    ghost var z := io[..];
    var e := q / 2;
    FirstFour(pass, io, q, e, utbl[e]);
    OpenedIsHalfway(pass, utbl, z, q, e, io[..]);
    var fly0P, fly1P, u0rP, u0iP := 1, q - 1, 1, q - 1;
    for diffUcnt := e downto 1
      invariant fly0P == u0rP == e + 1 - diffUcnt && fly1P == u0iP == q - fly0P
      invariant Halfway(pass, utbl, z, q, fly0P, io[..])
    {
      ghost var a := io[..];
      QuadStep(pass, io, fly0P, fly1P, q, utbl[u0rP], utbl[u0iP]);
      QuadDone(pass, utbl, z, q, fly0P, a, io[..]);
      u0rP, u0iP := u0rP + 1, u0iP - 1;
      fly0P, fly1P := fly0P + 1, fly1P - 1;
    }
    HalfwayIsDone(pass, utbl, z, q, e, io[..]);
  }

  // --- the passes undo each other ---

  lemma JoinSeparate(u: real, v: real, a: Complex, b: Complex)
    requires u * u + v * v == 1.0
    ensures var s := Separate(u, v, a, b);
            Join(u, v, s.0, s.1) == (Scale(4.0, a), Scale(4.0, b))
  {
    var t0 := C(a.re + b.re, a.im - b.im);
    var t1 := C(a.im + b.im, b.re - a.re);
    var p, q := u * t1.re + v * t1.im, u * t1.im - v * t1.re;
    var s := Separate(u, v, a, b);
    assert s == (C(t0.re + p, t0.im + q), C(t0.re - p, q - t0.im));
    Unrotate(u, v, t1.re, t1.im, p, q);
    JoinOf(u, v, s.0, s.1, p, q);
  }

  lemma JoinOf(u: real, v: real, a: Complex, b: Complex, p: real, q: real)
    requires a.re - b.re == 2.0 * p && a.im + b.im == 2.0 * q
    ensures var f := C(p * u - v * q, p * v + u * q);
            Join(u, v, a, b) == (C(a.re + b.re - 2.0 * f.im, a.im - b.im + 2.0 * f.re),
                                 C(a.re + b.re + 2.0 * f.im, b.im - a.im + 2.0 * f.re))
  {
    var t1 := C(a.re - b.re, a.im + b.im);
    Doubled(t1.re, p, u, v);
    Doubled(t1.im, q, u, v);
    assert Turn(u, v, t1) == C(2.0 * (p * u - v * q), 2.0 * (p * v + u * q));
    hide Turn;
  }

  lemma Doubled(x: real, p: real, u: real, v: real)
    requires x == 2.0 * p
    ensures x * u == 2.0 * (p * u) && x * v == 2.0 * (p * v)
    ensures u * x == 2.0 * (u * p) && v * x == 2.0 * (v * p)
  {
  }

  lemma Unrotate(u: real, v: real, x: real, y: real, p: real, q: real)
    requires u * u + v * v == 1.0 && p == u * x + v * y && q == u * y - v * x
    ensures p * u - v * q == x && p * v + u * q == y
  {
    assert p * u - v * q == (u * u + v * v) * x;
    assert p * v + u * q == (u * u + v * v) * y;
  }

  lemma Ends(a: Complex)
    ensures JoinFirst(SeparateFirst(a)) == Scale(4.0, a) && JoinMiddle(SeparateMiddle(a)) == Scale(4.0, a)
    ensures SeparateFirst(JoinFirst(a)) == Scale(4.0, a) && SeparateMiddle(JoinMiddle(a)) == Scale(4.0, a)
  {
  }

  // The finishing pass of rffts followed by the opening pass of riffts
  // multiplies every slot by four.
  lemma StartUndoesFinish(utbl: seq<real>, z: seq<Complex>, q: nat)
    requires q > 0 && |utbl| == q + 1 && |z| == 2 * q
    requires forall i :: 0 <= i <= q ==> utbl[i] * utbl[i] + utbl[q - i] * utbl[q - i] == 1.0
    ensures Start.Apply(utbl, Finish.Apply(utbl, z, q), q) == Scaled(4.0, z)
  {
    hide Separate, Join, SeparateFirst, SeparateMiddle, JoinFirst, JoinMiddle, Pass.Value, Scale;
    var y := Finish.Apply(utbl, z, q);
    forall p: nat | p < 2 * q
      ensures Start.Value(utbl, y, q, p) == Scale(4.0, z[p])
    {
      StartSlot(utbl, z, q, p);
    }
  }

  lemma StartSlot(utbl: seq<real>, z: seq<Complex>, q: nat, p: nat)
    requires q > 0 && |utbl| == q + 1 && |z| == 2 * q && p < 2 * q
    requires forall i :: 0 <= i <= q ==> utbl[i] * utbl[i] + utbl[q - i] * utbl[q - i] == 1.0
    ensures Start.Value(utbl, Finish.Apply(utbl, z, q), q, p) == Scale(4.0, z[p])
  {
    hide Separate, Join, SeparateFirst, SeparateMiddle, JoinFirst, JoinMiddle, Scale;
    Ends(z[p]);
    if p != 0 && p != q {
      var k := if p < q then p else 2 * q - p;
      JoinSeparate(utbl[k], utbl[q - k], z[k], z[2 * q - k]);
    }
  }

  lemma SeparateJoin(u: real, v: real, a: Complex, b: Complex)
    requires u * u + v * v == 1.0
    ensures var j := Join(u, v, a, b);
            Separate(u, v, j.0, j.1) == (Scale(4.0, a), Scale(4.0, b))
  {
    var x, y := a.re - b.re, a.im + b.im;
    var f := C(x * u - v * y, x * v + u * y);
    Rotated(u, v, x, y, f.re, f.im);
    var j := Join(u, v, a, b);
    assert Turn(u, v, C(x, y)) == f;
    hide Turn;
    assert j == (C(a.re + b.re - f.im, a.im - b.im + f.re), C(a.re + b.re + f.im, b.im - a.im + f.re));
    SeparateOf(u, v, j.0, j.1, f.re, f.im, x, y);
  }

  lemma Rotated(u: real, v: real, x: real, y: real, p: real, q: real)
    requires u * u + v * v == 1.0 && p == x * u - v * y && q == x * v + u * y
    ensures u * p + v * q == x && -v * p + u * q == y
  {
    assert u * p + v * q == (u * u + v * v) * x;
    assert -v * p + u * q == (u * u + v * v) * y;
  }

  lemma SeparateOf(u: real, v: real, a: Complex, b: Complex, p: real, q: real, x: real, y: real)
    requires a.im + b.im == 2.0 * p && b.re - a.re == 2.0 * q && u * p + v * q == x && -v * p + u * q == y
    ensures var t := C(a.re + b.re, a.im - b.im);
            Separate(u, v, a, b) == (C(t.re + 2.0 * x, t.im + 2.0 * y), C(t.re - 2.0 * x, 2.0 * y - t.im))
  {
    Doubled(a.im + b.im, p, u, v);
    Doubled(b.re - a.re, q, u, v);
    assert TurnBack(u, v, C(a.im + b.im, b.re - a.re)) == C(2.0 * x, 2.0 * y);
    hide TurnBack;
  }

  // The opening pass followed by the finishing pass multiplies by four as well.
  lemma FinishUndoesStart(utbl: seq<real>, z: seq<Complex>, q: nat)
    requires q > 0 && |utbl| == q + 1 && |z| == 2 * q
    requires forall i :: 0 <= i <= q ==> utbl[i] * utbl[i] + utbl[q - i] * utbl[q - i] == 1.0
    ensures Finish.Apply(utbl, Start.Apply(utbl, z, q), q) == Scaled(4.0, z)
  {
    hide Separate, Join, SeparateFirst, SeparateMiddle, JoinFirst, JoinMiddle, Pass.Value, Scale;
    var y := Start.Apply(utbl, z, q);
    forall p: nat | p < 2 * q
      ensures Finish.Value(utbl, y, q, p) == Scale(4.0, z[p])
    {
      FinishSlot(utbl, z, q, p);
    }
  }

  lemma FinishSlot(utbl: seq<real>, z: seq<Complex>, q: nat, p: nat)
    requires q > 0 && |utbl| == q + 1 && |z| == 2 * q && p < 2 * q
    requires forall i :: 0 <= i <= q ==> utbl[i] * utbl[i] + utbl[q - i] * utbl[q - i] == 1.0
    ensures Finish.Value(utbl, Start.Apply(utbl, z, q), q, p) == Scale(4.0, z[p])
  {
    hide Separate, Join, SeparateFirst, SeparateMiddle, JoinFirst, JoinMiddle, Scale;
    Ends(z[p]);
    if p != 0 && p != q {
      var k := if p < q then p else 2 * q - p;
      SeparateJoin(utbl[k], utbl[q - k], z[k], z[2 * q - k]);
    }
  }

  lemma TurnScaled(u: real, v: real, k: real, t: Complex)
    ensures Turn(u, v, Scale(k, t)) == Scale(k, Turn(u, v, t))
  {
    assert (k * t.re) * u == k * (t.re * u) && v * (k * t.im) == k * (v * t.im);
    assert (k * t.re) * v == k * (t.re * v) && u * (k * t.im) == k * (u * t.im);
  }

  lemma JoinScaled(u: real, v: real, k: real, a: Complex, b: Complex)
    ensures var j := Join(u, v, a, b);
            Join(u, v, Scale(k, a), Scale(k, b)) == (Scale(k, j.0), Scale(k, j.1))
  {
    hide Turn, Join;
    var t := C(a.re - b.re, a.im + b.im);
    var f := Turn(u, v, t);
    TurnScaled(u, v, k, t);
    Spread(k, a.re, b.re);
    Spread(k, a.im, b.im);
    var t' := C(Scale(k, a).re - Scale(k, b).re, Scale(k, a).im + Scale(k, b).im);
    assert t' == Scale(k, t);
    assert Turn(u, v, t') == Scale(k, f);
    JoinIs(u, v, a, b, f);
    JoinIs(u, v, Scale(k, a), Scale(k, b), Scale(k, f));
    SlotsScaled(k, a, b, f);
  }

  lemma SlotsScaled(k: real, a: Complex, b: Complex, f: Complex)
    ensures var a', b', f' := Scale(k, a), Scale(k, b), Scale(k, f);
            && C(a'.re + b'.re - f'.im, a'.im - b'.im + f'.re) == Scale(k, C(a.re + b.re - f.im, a.im - b.im + f.re))
            && C(a'.re + b'.re + f'.im, b'.im - a'.im + f'.re) == Scale(k, C(a.re + b.re + f.im, b.im - a.im + f.re))
  {
    Spread(k, a.re, b.re);
    Spread(k, a.im, b.im);
    Spread(k, a.re + b.re, f.im);
    Spread(k, a.im - b.im, f.re);
    Spread(k, b.im - a.im, f.re);
  }

  lemma JoinIs(u: real, v: real, a: Complex, b: Complex, f: Complex)
    requires f == Turn(u, v, C(a.re - b.re, a.im + b.im))
    ensures Join(u, v, a, b) == (C(a.re + b.re - f.im, a.im - b.im + f.re), C(a.re + b.re + f.im, b.im - a.im + f.re))
  {
    hide Turn;
  }

  lemma EndsScaled(k: real, a: Complex)
    ensures JoinFirst(Scale(k, a)) == Scale(k, JoinFirst(a)) && JoinMiddle(Scale(k, a)) == Scale(k, JoinMiddle(a))
  {
    Spread(k, a.re, a.im);
  }

  lemma Spread(k: real, x: real, y: real)
    ensures k * x + k * y == k * (x + y) && k * x - k * y == k * (x - y) && k * y - k * x == k * (y - x)
  {
  }

  // The opening pass is linear.
  lemma StartScaled(utbl: seq<real>, z: seq<Complex>, q: nat, k: real)
    requires q > 0 && |utbl| == q + 1 && |z| == 2 * q
    ensures Start.Apply(utbl, Scaled(k, z), q) == Scaled(k, Start.Apply(utbl, z, q))
  {
    hide Pass.Value, Scale;
    forall p: nat | p < 2 * q
      ensures Start.Value(utbl, Scaled(k, z), q, p) == Scale(k, Start.Value(utbl, z, q, p))
    {
      SlotScaled(utbl, z, q, k, p);
    }
  }

  lemma SlotScaled(utbl: seq<real>, z: seq<Complex>, q: nat, k: real, p: nat)
    requires q > 0 && |utbl| == q + 1 && |z| == 2 * q && p < 2 * q
    ensures Start.Value(utbl, Scaled(k, z), q, p) == Scale(k, Start.Value(utbl, z, q, p))
  {
    hide Join, Scale, JoinFirst, JoinMiddle;
    EndsScaled(k, z[p]);
    if p != 0 && p != q {
      var j := if p < q then p else 2 * q - p;
      JoinScaled(utbl[j], utbl[q - j], k, z[j], z[2 * q - j]);
    }
  }

  // --- the real transforms ---

  // Slot n carries the real samples 2n and 2n + 1.
  method Rffts(io: array<Complex>, M: nat, utbl: seq<real>, half: real, ghost r: Roots)
    requires 4 <= M == r.L && io.Length == Pow2(M - 1)
    requires r.Valid() && r.dir == 1.0 && r.Tabulated(utbl) && half > 0.0 && half * half == 0.5
    modifies io
    ensures |utbl| == Pow2(M - 2) + 1 && 2 * Pow2(M - 2) == Pow2(M - 1)
    ensures io[..] == Finish.Apply(utbl, Spectrum(r, M - 1, Scaled(0.5, old(io[..]))), Pow2(M - 2))
  {
    QuarterSizes(r, utbl);
    hide Roots.Valid, Roots.Tabulated, Pow2, Spectrum, Scaled, Pass.Apply;
    ComplexTransform(io, M - 1, M, utbl, half, 1.0, 0.5, r);
    RunPass(Finish, io, Pow2(M - 2), utbl);
  }

  method Riffts(io: array<Complex>, M: nat, utbl: seq<real>, half: real, ghost r: Roots)
    requires 4 <= M == r.L && io.Length == Pow2(M - 1)
    requires r.Valid() && r.dir == 1.0 && r.Tabulated(utbl) && half > 0.0 && half * half == 0.5
    modifies io
    ensures |utbl| == Pow2(M - 2) + 1 && 2 * Pow2(M - 2) == Pow2(M - 1)
    ensures io[..] == Spectrum(r.Mirror(), M - 1,
                               Scaled(1.0 / Pow2(M) as real, Start.Apply(utbl, old(io[..]), Pow2(M - 2))))
  {
    hide Roots.Valid, Roots.Tabulated, Roots.Mirror, Pow2, Spectrum, Scaled, Pass.Apply;
    QuarterSizes(r, utbl);
    r.MirrorValid();
    MirrorTabulated(r, utbl);
    RunPass(Start, io, Pow2(M - 2), utbl);
    ComplexTransform(io, M - 1, M, utbl, half, -1.0, 1.0 / Pow2(M) as real, r.Mirror());
  }

  lemma QuarterSizes(r: Roots, utbl: seq<real>)
    requires r.L >= 4 && r.Tabulated(utbl)
    ensures |utbl| == Pow2(r.L - 2) + 1 && 2 * Pow2(r.L - 2) == Pow2(r.L - 1)
    ensures Pow2(r.L - 2) >= 2 && Pow2(r.L - 2) % 2 == 0
  {
    assert Pow2(r.L - 2) == 2 * Pow2(r.L - 3);
  }

  lemma MirrorTabulated(r: Roots, utbl: seq<real>)
    requires r.Tabulated(utbl)
    ensures r.Mirror().Tabulated(utbl) && r.Mirror().L == r.L && r.Mirror().dir == -r.dir
  {
  }

  lemma UnitTable(r: Roots, utbl: seq<real>)
    requires r.Valid() && r.Tabulated(utbl)
    ensures var q := Pow2(r.L - 2);
            |utbl| == q + 1 && forall i :: 0 <= i <= q ==> utbl[i] * utbl[i] + utbl[q - i] * utbl[q - i] == 1.0
  {
    hide Roots.Valid, Pow2;
    var q := Pow2(r.L - 2);
    forall i | 0 <= i <= q
      ensures utbl[i] * utbl[i] + utbl[q - i] * utbl[q - i] == 1.0
    {
      UnitAt(r, i);
      UnitSquares(utbl[i], r.dir, utbl[q - i]);
    }
  }

  lemma UnitAt(r: Roots, i: int)
    requires r.Valid()
    ensures r.w(i).re * r.w(i).re + r.w(i).im * r.w(i).im == 1.0 && (r.dir == 1.0 || r.dir == -1.0)
  {
    assert r.Unit(i);
  }

  lemma UnitSquares(a: real, d: real, b: real)
    requires d == 1.0 || d == -1.0
    requires a * a + (-d * b) * (-d * b) == 1.0
    ensures a * a + b * b == 1.0
  {
  }

  // riffts undoes rffts, for every real signal.
  lemma RealRoundTrip(r: Roots, M: nat, utbl: seq<real>, z: seq<Complex>)
    requires 4 <= M == r.L && r.Valid() && r.Tabulated(utbl) && |z| == Pow2(M - 1)
    ensures |utbl| == Pow2(M - 2) + 1 && 2 * Pow2(M - 2) == Pow2(M - 1)
    ensures var y := Finish.Apply(utbl, Spectrum(r, M - 1, Scaled(0.5, z)), Pow2(M - 2));
            Spectrum(r.Mirror(), M - 1, Scaled(1.0 / Pow2(M) as real, Start.Apply(utbl, y, Pow2(M - 2)))) == z
  {
    QuarterSizes(r, utbl);
    UnitTable(r, utbl);
    var q, c := Pow2(M - 2), 1.0 / Pow2(M) as real;
    var Z := Spectrum(r, M - 1, Scaled(0.5, z));
    StartUndoesFinish(utbl, Z, q);
    forall m: nat | m < Pow2(M - 1)
      ensures Dit(r.Mirror(), M - 1, Scaled(c, Scaled(4.0, Z)), M - 1, 0, m) == z[m]
    {
      ScalesCombine(r, M - 1, z, c);
      assert Pow2(M) == 2 * Pow2(M - 1);
      assert c * 4.0 * 0.5 * Pow2(M - 1) as real == 1.0;
      RoundTripAt(r, M - 1, z, m, c * 4.0 * 0.5);
    }
  }

  lemma SpectrumScaled(r: Roots, M: nat, x: seq<Complex>, k: real)
    requires M <= r.L
    ensures Spectrum(r, M, Scaled(k, x)) == Scaled(k, Spectrum(r, M, x))
  {
    forall j: nat | j < Pow2(M)
      ensures Dit(r, M, Scaled(k, x), M, 0, j) == Scale(k, Dit(r, M, x, M, 0, j))
    {
      DitScaled(r, M, x, k, M, 0, j);
    }
  }

  lemma ScaledTwice(j: real, k: real, x: seq<Complex>)
    ensures Scaled(j, Scaled(k, x)) == Scaled(j * k, x)
  {
    forall i | 0 <= i < |x|
      ensures Scale(j, Scale(k, x[i])) == Scale(j * k, x[i])
    {
      ScaleTwice(j, k, x[i]);
    }
  }

  // rffts undoes riffts, for every packed spectrum.
  lemma RealRoundTripBack(r: Roots, M: nat, utbl: seq<real>, z: seq<Complex>)
    requires 4 <= M == r.L && r.Valid() && r.Tabulated(utbl) && |z| == Pow2(M - 1)
    ensures |utbl| == Pow2(M - 2) + 1 && 2 * Pow2(M - 2) == Pow2(M - 1)
    ensures var x := Spectrum(r.Mirror(), M - 1, Scaled(1.0 / Pow2(M) as real, Start.Apply(utbl, z, Pow2(M - 2))));
            Finish.Apply(utbl, Spectrum(r, M - 1, Scaled(0.5, x)), Pow2(M - 2)) == z
  {
    QuarterSizes(r, utbl);
    UnitTable(r, utbl);
    SameLevel(r);
    hide Roots.Valid, Roots.Tabulated, Roots.Mirror, Spectrum, Scaled, Pass.Apply, Pow2;
    var q := Pow2(M - 2);
    HalvesBack(r, M, Start.Apply(utbl, z, q));
    StartScaled(utbl, z, q, 0.25);
    FinishUndoesStart(utbl, Scaled(0.25, z), q);
    ScaledTwice(4.0, 0.25, z);
    ScaledOnce(z);
  }

  // The two transforms of half the size and their scales leave a quarter.
  lemma HalvesBack(r: Roots, M: nat, y: seq<Complex>)
    requires 1 <= M == r.L && r.Valid() && |y| == Pow2(M - 1)
    ensures Spectrum(r, M - 1, Scaled(0.5, Spectrum(r.Mirror(), M - 1, Scaled(1.0 / Pow2(M) as real, y)))) == Scaled(0.25, y)
  {
    hide Roots.Valid, Roots.Mirror, Spectrum, Scaled, Pow2;
    var N, c, e := M - 1, 1.0 / Pow2(M) as real, 1.0 / Pow2(M - 1) as real;
    SameLevel(r);
    QuarterScale(M);
    SpectrumScaled(r.Mirror(), N, Scaled(c, y), 0.5);
    ScaledTwice(0.5, c, y);
    ScaledTwice(e, 0.25, y);
    RoundTripBack(r, N, Scaled(0.25, y));
  }

  lemma ScaledOnce(z: seq<Complex>)
    ensures Scaled(1.0, z) == z
  {
  }

  lemma QuarterScale(M: nat)
    requires M >= 1
    ensures 0.5 * (1.0 / Pow2(M) as real) == (1.0 / Pow2(M - 1) as real) * 0.25
  {
    assert Pow2(M) == 2 * Pow2(M - 1);
  }

  lemma ScalesCombine(r: Roots, M: nat, z: seq<Complex>, c: real)
    requires M <= r.L && |z| == Pow2(M)
    ensures Scaled(c, Scaled(4.0, Spectrum(r, M, Scaled(0.5, z)))) == Scaled(c * 4.0 * 0.5, Spectrum(r, M, z))
  {
    forall k: nat | k < Pow2(M)
      ensures Scale(c, Scale(4.0, Dit(r, M, Scaled(0.5, z), M, 0, k))) == Scale(c * 4.0 * 0.5, Dit(r, M, z, M, 0, k))
    {
      var d := Dit(r, M, z, M, 0, k);
      DitScaled(r, M, z, 0.5, M, 0, k);
      ScaleTwice(4.0, 0.5, d);
      ScaleTwice(c, 4.0 * 0.5, d);
    }
  }

  // --- rffts computes the Fourier transform of the real samples ---

  // The 2|z| real samples packed into z.
  function Samples(z: seq<Complex>): (x: seq<Complex>)
    ensures |x| == 2 * |z|
  {
    seq(2 * |z|, i requires 0 <= i < 2 * |z| => C(if i % 2 == 0 then z[i / 2].re else z[i / 2].im, 0.0))
  }

  // a + i*b
  function Pack(a: Complex, b: Complex): Complex {
    C(a.re - b.im, a.im + b.re)
  }

  lemma PackSum(u: Complex, a: Complex, b: Complex, c: Complex, d: Complex)
    ensures Pack(Add(a, Mul(u, c)), Add(b, Mul(u, d))) == Add(Pack(a, b), Mul(u, Pack(c, d)))
  {
  }

  // The transform of the packed signal packs the transforms of the even and the odd samples.
  lemma {:induction false} PackedDit(r: Roots, M: nat, z: seq<Complex>, s: nat, off: int, j: int)
    requires 1 <= M <= r.L && s <= M - 1
    ensures Dit(r, M - 1, z, s, off, j)
         == Pack(Dit(r, M, Samples(z), s, 2 * off, j), Dit(r, M, Samples(z), s, 2 * off + 1, j))
    decreases s
  {
    var x := Samples(z);
    if s == 0 {
    } else {
      var h, u := Pow2(M - 1 - s), r.w(j * Pow2(r.L - s));
      assert Pow2(M - s) == 2 * h;
      PackedDit(r, M, z, s - 1, off, j);
      PackedDit(r, M, z, s - 1, off + h, j);
      hide Mul, Add, Pack, Samples, Pow2;
      assert 2 * (off + h) == 2 * off + 2 * h && 2 * (off + h) + 1 == 2 * off + 1 + 2 * h;
      PackSum(u, Dit(r, M, x, s - 1, 2 * off, j), Dit(r, M, x, s - 1, 2 * off + 1, j),
              Dit(r, M, x, s - 1, 2 * off + 2 * h, j), Dit(r, M, x, s - 1, 2 * off + 1 + 2 * h, j));
    }
  }

  // Transforms of real samples are conjugate-symmetric.
  lemma {:induction false} RealDit(r: Roots, M: nat, x: seq<Complex>, s: nat, off: int, j: int)
    requires s <= M <= r.L && r.Valid() && forall i :: 0 <= i < |x| ==> x[i].im == 0.0
    ensures Dit(r, M, x, s, off, -j) == Conj(Dit(r, M, x, s, off, j))
    decreases s
  {
    hide Dit, Mul, Add, Conj, Pow2, At, Roots.Valid;
    if s == 0 {
      RealSample(r, M, x, off, j);
    } else {
      RealDit(r, M, x, s - 1, off, j);
      RealDit(r, M, x, s - 1, off + Pow2(M - s), j);
      DitStep(r, M, x, s, off, j);
      DitStep(r, M, x, s, off, -j);
      NegatedRoot(r, j, Pow2(r.L - s));
      ConjSum(Dit(r, M, x, s - 1, off, j), r.w(j * Pow2(r.L - s)), Dit(r, M, x, s - 1, off + Pow2(M - s), j));
    }
  }

  lemma RealSample(r: Roots, M: nat, x: seq<Complex>, off: int, j: int)
    requires M <= r.L && forall i :: 0 <= i < |x| ==> x[i].im == 0.0
    ensures Dit(r, M, x, 0, off, -j) == Conj(Dit(r, M, x, 0, off, j))
  {
  }

  lemma NegatedRoot(r: Roots, j: int, e: nat)
    requires r.Valid()
    ensures r.w((-j) * e) == Conj(r.w(j * e))
  {
    r.Inverse(j * e);
    assert (-j) * e == -(j * e);
  }

  lemma RealPeriod(r: Roots, M: nat, x: seq<Complex>, s: nat, off: int, j: int)
    requires s <= M <= r.L && r.Valid() && forall i :: 0 <= i < |x| ==> x[i].im == 0.0
    ensures Dit(r, M, x, s, off, Pow2(s) - j) == Conj(Dit(r, M, x, s, off, j))
  {
    hide Dit;
    RealDit(r, M, x, s, off, j);
    DitPeriod(r, M, x, s, off, -j, 1);
    assert -j + 1 * Pow2(s) == Pow2(s) - j;
  }

  // Separate splits the packed spectrum and performs the last radix-2 stage.
  lemma SeparateSpectra(u: real, v: real, E: Complex, O: Complex)
    ensures Separate(u, v, Scale(0.5, Pack(E, O)), Scale(0.5, Pack(Conj(E), Conj(O))))
         == (Add(E, Mul(C(u, -v), O)), Conj(Sub(E, Mul(C(u, -v), O))))
  {
    var a, b := Scale(0.5, Pack(E, O)), Scale(0.5, Pack(Conj(E), Conj(O)));
    assert C(a.re + b.re, a.im - b.im) == E;
    assert C(a.im + b.im, b.re - a.re) == O;
    assert Mul(C(u, -v), O) == TurnBack(u, v, O);
    hide TurnBack, Mul;
  }

  // The half-size spectra of the even and odd samples, at coefficient k.
  ghost function Even(r: Roots, M: nat, z: seq<Complex>, k: int): Complex
    requires 1 <= M <= r.L
  {
    Dit(r, M, Samples(z), M - 1, 0, k)
  }

  ghost function OddHalf(r: Roots, M: nat, z: seq<Complex>, k: int): Complex
    requires 1 <= M <= r.L
  {
    Dit(r, M, Samples(z), M - 1, 1, k)
  }

  lemma HalfSpectrum(r: Roots, M: nat, z: seq<Complex>, k: nat)
    requires 1 <= M <= r.L && r.Valid() && |z| == Pow2(M - 1) && k < Pow2(M - 1)
    ensures var Z := Spectrum(r, M - 1, Scaled(0.5, z));
            && Z[k] == Scale(0.5, Pack(Even(r, M, z, k), OddHalf(r, M, z, k)))
            && Even(r, M, z, Pow2(M - 1) - k) == Conj(Even(r, M, z, k))
            && OddHalf(r, M, z, Pow2(M - 1) - k) == Conj(OddHalf(r, M, z, k))
  {
    hide Dit, Scale, Pack, Conj;
    DitScaled(r, M - 1, z, 0.5, M - 1, 0, k);
    PackedDit(r, M, z, M - 1, 0, k);
    RealPeriod(r, M, Samples(z), M - 1, 0, k);
    RealPeriod(r, M, Samples(z), M - 1, 1, k);
  }

  // The last radix-2 stage over the real samples.
  lemma RealStage(r: Roots, M: nat, z: seq<Complex>, k: int)
    requires 1 <= M == r.L && r.Valid()
    ensures var E, T := Even(r, M, z, k), Mul(r.w(k), OddHalf(r, M, z, k));
            && Dit(r, M, Samples(z), M, 0, k) == Add(E, T)
            && Dit(r, M, Samples(z), M, 0, k + Pow2(M - 1)) == Sub(E, T)
            && Dit(r, M, Samples(z), M, 0, Pow2(M - 1) - k) == Conj(Sub(E, T))
  {
    hide Dit, Mul, Add, Sub, Conj, Pow2, Odd, Twiddle, Roots.Valid, Samples;
    var x, h := Samples(z), Pow2(M - 1);
    Numbers.Doubled(M - 1);
    LastTwiddle(r, M, x, k);
    SamplesReal(z);
    LowerHalf(r, M, x, M - 1, 0, k);
    UpperHalf(r, M, x, M - 1, 0, k);
    RealPeriod(r, M, x, M, 0, k + h);
    assert Pow2(M) - (k + h) == h - k;
  }

  lemma SamplesReal(z: seq<Complex>)
    ensures forall i :: 0 <= i < |Samples(z)| ==> Samples(z)[i].im == 0.0
  {
  }

  lemma LastTwiddle(r: Roots, M: nat, x: seq<Complex>, k: int)
    requires 1 <= M == r.L
    ensures Twiddle(r, M - 1, k) == r.w(k) && Odd(r, M, x, M - 1, 0, k) == Dit(r, M, x, M - 1, 1, k)
  {
    hide Dit;
    assert Pow2(0) == 1;
  }

  // Slot k of rffts, 0 < k < N/2, is Fourier coefficient k of the real signal;
  // slot 0 carries the two real coefficients 0 and N/2.
  lemma RfftsIsFourier(r: Roots, M: nat, utbl: seq<real>, z: seq<Complex>, k: nat)
    requires 4 <= M == r.L && r.Valid() && r.dir == 1.0 && r.Tabulated(utbl) && |z| == Pow2(M - 1) && k < Pow2(M - 1)
    ensures |utbl| == Pow2(M - 2) + 1 && 2 * Pow2(M - 2) == Pow2(M - 1)
    ensures var y := Finish.Apply(utbl, Spectrum(r, M - 1, Scaled(0.5, z)), Pow2(M - 2));
            var X := Spectrum(r, M, Samples(z));
            if k == 0 then
              X[0] == C(y[0].re, 0.0) && X[Pow2(M - 1)] == C(y[0].im, 0.0)
            else
              y[k] == X[k]
  {
    QuarterSizes(r, utbl);
    assert Pow2(M) == 2 * Pow2(M - 1);
    hide Pow2, Dit, Spectrum, Scaled, Samples, Pass.Apply, Pass.Value, Roots.Valid, Roots.Tabulated;
    SpectrumIndex(r, M, Samples(z), k);
    ApplyIndex(Finish, utbl, Spectrum(r, M - 1, Scaled(0.5, z)), Pow2(M - 2), k);
    FinishedSlot(r, M, utbl, z, k);
    if k == 0 {
      SpectrumIndex(r, M, Samples(z), Pow2(M - 1));
    }
  }

  lemma FinishedSlot(r: Roots, M: nat, utbl: seq<real>, z: seq<Complex>, k: nat)
    requires 4 <= M == r.L && r.Valid() && r.dir == 1.0 && r.Tabulated(utbl) && |z| == Pow2(M - 1) && k < Pow2(M - 1)
    requires |utbl| == Pow2(M - 2) + 1 && 2 * Pow2(M - 2) == Pow2(M - 1)
    ensures var v := Finish.Value(utbl, Spectrum(r, M - 1, Scaled(0.5, z)), Pow2(M - 2), k);
            var X0, XH := Dit(r, M, Samples(z), M, 0, 0), Dit(r, M, Samples(z), M, 0, Pow2(M - 1));
            if k == 0 then X0 == C(v.re, 0.0) && XH == C(v.im, 0.0)
            else v == Dit(r, M, Samples(z), M, 0, k)
  {
    hide Pow2, Dit, Spectrum, Scaled, Samples, Separate, SeparateFirst, SeparateMiddle, Roots.Valid, Roots.Tabulated;
    var q := Pow2(M - 2);
    if k == 0 {
      FirstSlot(r, M, utbl, z);
    } else if k == q {
      MiddleSlot(r, M, utbl, z);
    } else {
      PairSlots(r, M, utbl, z, if k < q then k else 2 * q - k);
    }
  }

  lemma SpectrumIndex(r: Roots, M: nat, x: seq<Complex>, k: nat)
    requires M <= r.L && k < Pow2(M)
    ensures Spectrum(r, M, x)[k] == Dit(r, M, x, M, 0, k)
  {
  }

  lemma ApplyIndex(pass: Pass, utbl: seq<real>, z: seq<Complex>, q: nat, p: nat)
    requires q > 0 && |utbl| == q + 1 && |z| == 2 * q && p < 2 * q
    ensures pass.Apply(utbl, z, q)[p] == pass.Value(utbl, z, q, p)
  {
  }

  lemma FirstSlot(r: Roots, M: nat, utbl: seq<real>, z: seq<Complex>)
    requires 4 <= M == r.L && r.Valid() && r.Tabulated(utbl) && |z| == Pow2(M - 1)
    ensures var y := SeparateFirst(Spectrum(r, M - 1, Scaled(0.5, z))[0]);
            && Dit(r, M, Samples(z), M, 0, 0) == C(y.re, 0.0)
            && Dit(r, M, Samples(z), M, 0, Pow2(M - 1)) == C(y.im, 0.0)
  {
    hide Dit, Roots.Tabulated, Spectrum, Pow2;
    HalfSpectrum(r, M, z, 0);
    RealStage(r, M, z, 0);
    MulOne(OddHalf(r, M, z, 0));
    RealDit(r, M, Samples(z), M - 1, 0, 0);
    RealDit(r, M, Samples(z), M - 1, 1, 0);
    hide Roots.Valid;
  }

  lemma MiddleSlot(r: Roots, M: nat, utbl: seq<real>, z: seq<Complex>)
    requires 4 <= M == r.L && r.Valid() && r.dir == 1.0 && r.Tabulated(utbl) && |z| == Pow2(M - 1)
    requires 2 * Pow2(M - 2) == Pow2(M - 1)
    ensures SeparateMiddle(Spectrum(r, M - 1, Scaled(0.5, z))[Pow2(M - 2)])
         == Dit(r, M, Samples(z), M, 0, Pow2(M - 2))
  {
    hide Dit, Roots.Tabulated, Spectrum, Pow2;
    var q := Pow2(M - 2);
    HalfSpectrum(r, M, z, q);
    RealStage(r, M, z, q);
    assert r.w(q) == C(0.0, -1.0);
    var E, O := Even(r, M, z, q), OddHalf(r, M, z, q);
    assert E.im == 0.0 && O.im == 0.0;
    assert Mul(C(0.0, -1.0), O) == C(0.0, -O.re);
  }

  lemma PairSlots(r: Roots, M: nat, utbl: seq<real>, z: seq<Complex>, k: nat)
    requires 4 <= M == r.L && r.Valid() && r.dir == 1.0 && r.Tabulated(utbl) && |z| == Pow2(M - 1)
    requires 2 * Pow2(M - 2) == Pow2(M - 1) && 0 < k < Pow2(M - 2)
    ensures var q, Z := Pow2(M - 2), Spectrum(r, M - 1, Scaled(0.5, z));
            Separate(utbl[k], utbl[q - k], Z[k], Z[2 * q - k])
            == (Dit(r, M, Samples(z), M, 0, k), Dit(r, M, Samples(z), M, 0, 2 * q - k))
  {
    hide Dit, Spectrum, Pow2, Separate, Pack, Scale, Conj, Mul, Add, Sub;
    var q := Pow2(M - 2);
    HalfSpectrum(r, M, z, k);
    HalfSpectrum(r, M, z, 2 * q - k);
    RealStage(r, M, z, k);
    TableEntry(r, utbl, k);
    SeparateSpectra(utbl[k], utbl[q - k], Even(r, M, z, k), OddHalf(r, M, z, k));
  }

  lemma TableEntry(r: Roots, utbl: seq<real>, k: nat)
    requires r.L >= 2 && r.dir == 1.0 && r.Tabulated(utbl) && k <= Pow2(r.L - 2)
    ensures r.w(k) == C(utbl[k], -utbl[Pow2(r.L - 2) - k])
  {
  }
}
