// What QcSoundFileView.cpp computes for a stretch of samples.
module Waveform {
  // Exact arithmetic: extremes, and sums in which the first and the last frame
  // count by the part that is covered.

  import opened Numbers

  const SHRT_MAX := 32767
  const SHRT_MIN := -32768

  type Short = x: int | SHRT_MIN <= x <= SHRT_MAX

  predicate Shorts(s: seq<int>) {
    forall k :: 0 <= k < |s| ==> SHRT_MIN <= s[k] <= SHRT_MAX
  }

  function Ceil(x: real): int {
    -((-x).Floor)
  }

  lemma CeilFloor(x: real)
    ensures x.Floor as real <= x < (x.Floor + 1) as real
    ensures (Ceil(x) - 1) as real < x <= Ceil(x) as real
    ensures Ceil(x) == (if x == x.Floor as real then x.Floor else x.Floor + 1)
  {
  }

  // The extremes of entries lo .. hi - 1 and the given start values.
  function Lowest(s: seq<int>, lo: int, hi: int, start: int): int
    requires 0 <= lo && hi <= |s|
    decreases hi - lo
  {
    if hi <= lo then start else Min(Lowest(s, lo, hi - 1, start), s[hi - 1])
  }

  function Highest(s: seq<int>, lo: int, hi: int, start: int): int
    requires 0 <= lo && hi <= |s|
    decreases hi - lo
  {
    if hi <= lo then start else Max(Highest(s, lo, hi - 1, start), s[hi - 1])
  }

  // They are bounds, and one of these values.
  lemma {:induction false} LowestIs(s: seq<int>, lo: int, hi: int, start: int)
    requires 0 <= lo && hi <= |s|
    ensures Lowest(s, lo, hi, start) <= start && forall k :: lo <= k < hi ==> Lowest(s, lo, hi, start) <= s[k]
    ensures Lowest(s, lo, hi, start) == start || exists k :: lo <= k < hi && s[k] == Lowest(s, lo, hi, start)
    decreases hi - lo
  {
    if hi > lo {
      LowestIs(s, lo, hi - 1, start);
    }
  }

  lemma {:induction false} HighestIs(s: seq<int>, lo: int, hi: int, start: int)
    requires 0 <= lo && hi <= |s|
    ensures Highest(s, lo, hi, start) >= start && forall k :: lo <= k < hi ==> Highest(s, lo, hi, start) >= s[k]
    ensures Highest(s, lo, hi, start) == start || exists k :: lo <= k < hi && s[k] == Highest(s, lo, hi, start)
    decreases hi - lo
  {
    if hi > lo {
      HighestIs(s, lo, hi - 1, start);
    }
  }

  function Square(v: int): real {
    v as real * v as real
  }

  // The samples, or their squares.
  function Values(s: seq<int>, square: bool): (v: seq<real>)
    ensures |v| == |s|
  {
    seq(|s|, k requires 0 <= k < |s| => if square then Square(s[k]) else s[k] as real)
  }

  lemma ValuesAt(s: seq<int>, k: nat)
    requires k < |s|
    ensures Values(s, false)[k] == s[k] as real && Values(s, true)[k] == Square(s[k])
  {
  }

  // Part of a value.
  function Part(v: real, w: real): real {
    v * w
  }

  lemma Parts(v: real, a: real, b: real)
    ensures Part(v, a) + Part(v, b) == Part(v, a + b)
    ensures Part(v, a) - Part(v, b) == Part(v, a - b)
    ensures Part(v, 1.0) == v && Part(v, 0.0) == 0.0
  {
  }

  // The weight of frame f of count frames.
  function Frac(f: int, count: int, frac0: real, frac1: real): real {
    if f == 0 then frac0 else if f == count - 1 then frac1 else 1.0
  }

  // The weighted sum over the first k of count frames from pos on.
  function Weighted(v: seq<real>, pos: int, count: int, frac0: real, frac1: real, k: int): real
    requires 0 <= pos && pos + k <= |v|
    decreases k
  {
    if k <= 0 then 0.0
    else Weighted(v, pos, count, frac0, frac1, k - 1)
         + Part(v[pos + k - 1], Frac(k - 1, count, frac0, frac1))
  }

  // The sum the code computes for the unit p .. q.
  function UnitSum(v: seq<real>, p: real, q: real): real
    requires 0.0 <= p && Ceil(q) <= |v|
  {
    var count := Ceil(q) - p.Floor;
    Weighted(v, p.Floor, count, p.Floor as real + 1.0 - p, q + 1.0 - Ceil(q) as real, count)
  }

  // --- the integral of the signal, each frame holding its value for one unit of time ---

  function Total(v: seq<real>, k: nat): real
    requires k <= |v|
  {
    if k == 0 then 0.0 else Total(v, k - 1) + v[k - 1]
  }

  function UpTo(v: seq<real>, x: real): real
    requires 0.0 <= x <= |v| as real
  {
    var k := x.Floor;
    Total(v, k) + (if k < |v| then Part(v[k], x - k as real) else 0.0)
  }

  function Integral(v: seq<real>, p: real, q: real): real
    requires 0.0 <= p <= q <= |v| as real
  {
    UpTo(v, q) - UpTo(v, p)
  }

  lemma OneFrame(v: seq<real>, pos: nat, count: int, frac0: real, frac1: real)
    requires pos < |v|
    ensures Weighted(v, pos, count, frac0, frac1, 1) == Part(v[pos], frac0)
  {
    assert Weighted(v, pos, count, frac0, frac1, 0) == 0.0;
  }

  lemma {:induction false} WholeFrames(v: seq<real>, pos: nat, count: int, frac0: real, frac1: real, k: nat)
    requires 1 <= k < count && pos + count <= |v|
    ensures Weighted(v, pos, count, frac0, frac1, k)
            == Part(v[pos], frac0) + Total(v, pos + k) - Total(v, pos + 1)
    decreases k
  {
    hide Part;
    if k > 1 {
      WholeFrames(v, pos, count, frac0, frac1, k - 1);
      Parts(v[pos + k - 1], 0.0, 0.0);
    } else {
      OneFrame(v, pos, count, frac0, frac1);
    }
  }

  // A unit that reaches the end of its first frame is integrated exactly.
  lemma UnitIsIntegral(v: seq<real>, p: real, q: real)
    requires 0.0 <= p < q <= |v| as real && (p.Floor + 1) as real <= q
    ensures Ceil(q) <= |v| && UnitSum(v, p, q) == Integral(v, p, q)
  {
    hide Part, Total, UpTo, Frac;
    CeilFloor(p);
    CeilFloor(q);
    var pos, count := p.Floor, Ceil(q) - p.Floor;
    var frac0, frac1 := pos as real + 1.0 - p, q + 1.0 - Ceil(q) as real;
    FirstPart(v, p);
    LastPart(v, q);
    if count == 1 {
      OneFrame(v, pos, count, frac0, frac1);
      OneMoreFrame(v, pos);
      Parts(v[pos], 0.0, 0.0);
    } else {
      WholeFrames(v, pos, count, frac0, frac1, count - 1);
      LastFrac(count, frac0, frac1);
    }
  }

  lemma LastFrac(count: int, frac0: real, frac1: real)
    requires count > 1
    ensures Frac(count - 1, count, frac0, frac1) == frac1
  {
  }

  lemma OneMoreFrame(v: seq<real>, k: nat)
    requires k < |v|
    ensures Total(v, k + 1) == Total(v, k) + v[k]
  {
  }

  // The integral up to p stops short of the end of p's frame by frac0.
  lemma FirstPart(v: seq<real>, p: real)
    requires 0.0 <= p < |v| as real
    ensures p.Floor < |v|
    ensures UpTo(v, p) == Total(v, p.Floor + 1) - Part(v[p.Floor], p.Floor as real + 1.0 - p)
  {
    hide Part;
    var k := p.Floor;
    OneMoreFrame(v, k);
    Parts(v[k], p - k as real, k as real + 1.0 - p);
  }

  // The integral up to q has frac1 of the last frame touched.
  lemma LastPart(v: seq<real>, q: real)
    requires 0.0 < q <= |v| as real
    ensures 0 < Ceil(q) <= |v|
    ensures UpTo(v, q) == Total(v, Ceil(q) - 1) + Part(v[Ceil(q) - 1], q + 1.0 - Ceil(q) as real)
  {
    hide Part;
    CeilFloor(q);
    Parts(v[Ceil(q) - 1], 0.0, 0.0);
    if q == q.Floor as real {
      OneMoreFrame(v, q.Floor - 1);
      if q.Floor < |v| {
        Parts(v[q.Floor], 0.0, 0.0);
      }
    }
  }

  // A unit inside one frame counts it up to the frame's end instead.
  lemma UnitTooShort(v: seq<real>, p: real, q: real)
    requires 0.0 <= p < q <= |v| as real && q < (p.Floor + 1) as real
    ensures p.Floor < |v| && Ceil(q) <= |v|
    ensures UnitSum(v, p, q) - Integral(v, p, q) == Part(v[p.Floor], (p.Floor + 1) as real - q)
  {
    hide Part, Total, UpTo, Frac;
    CeilFloor(p);
    CeilFloor(q);
    var pos := p.Floor;
    assert q.Floor == pos && Ceil(q) == pos + 1;
    OneFrame(v, pos, 1, pos as real + 1.0 - p, q + 1.0 - Ceil(q) as real);
    FirstPart(v, p);
    FirstPart(v, q);
  }

  // --- the positions of the units ---

  // Where unit i begins: f_pos or cache_pos, kept at or below limit.
  function Pos(start: real, step: real, limit: real, i: nat): real {
    if i == 0 then start
    else
      var next := Pos(start, step, limit, i - 1) + step;
      if next > limit then limit else next
  }

  lemma {:induction false} PosBounds(start: real, step: real, limit: real, i: nat)
    requires 0.0 <= start && 0.0 <= step && 0.0 <= limit
    ensures 0.0 <= Pos(start, step, limit, i)
    ensures i > 0 ==> Pos(start, step, limit, i) <= limit
    decreases i
  {
    if i > 0 {
      PosBounds(start, step, limit, i - 1);
    }
  }

  // In closed form: i steps from start, but not beyond the limit.
  function Place(start: real, step: real, limit: real, i: nat): real {
    if i > 0 && start + Part(step, i as real) > limit then limit else start + Part(step, i as real)
  }

  lemma {:induction false} PosIsPlace(start: real, step: real, limit: real, i: nat)
    requires 0.0 <= step
    ensures Pos(start, step, limit, i) == Place(start, step, limit, i)
    decreases i
  {
    hide Part;
    Parts(step, 0.0, 0.0);
    if i > 0 {
      PosIsPlace(start, step, limit, i - 1);
      Parts(step, i as real, (i - 1) as real);
      assert i as real - (i - 1) as real == 1.0;
    }
  }

  // In exact arithmetic the limit is not needed.
  lemma {:induction false} PosLinear(start: real, step: real, limit: real, i: nat, n: nat)
    requires 0.0 <= step && i <= n && start + Part(step, n as real) <= limit
    ensures Pos(start, step, limit, i) == start + Part(step, i as real)
    decreases i
  {
    hide Part;
    Parts(step, 0.0, 0.0);
    if i > 0 {
      PosLinear(start, step, limit, i - 1, n);
      Parts(step, i as real, (i - 1) as real);
      Parts(step, n as real, i as real);
      PartPositive(step, (n - i) as real);
      assert i as real - (i - 1) as real == 1.0 && n as real - i as real == (n - i) as real;
    }
  }

  lemma PartPositive(v: real, w: real)
    requires v >= 0.0 && w >= 0.0
    ensures Part(v, w) >= 0.0
  {
  }

  // --- conservation ---

  // The sums of the first k of the units of length step from start on.
  function UnitSums(v: seq<real>, start: real, step: real, limit: real, k: nat): real
    requires 0.0 <= start && 0.0 <= step && 0.0 <= limit <= |v| as real
  {
    if k == 0 then 0.0
    else
      PosBounds(start, step, limit, k - 1);
      PosBounds(start, step, limit, k);
      CeilFloor(Pos(start, step, limit, k));
      UnitSums(v, start, step, limit, k - 1) + UnitSum(v, Pos(start, step, limit, k - 1), Pos(start, step, limit, k))
  }

  // Units that end before the limit: on a frame two units share, the weights add up to one.
  lemma {:induction false} SumsUpTo(v: seq<real>, start: real, step: real, limit: real, k: nat, n: nat)
    requires k <= n && start >= 0.0 && step >= 1.0 && start + Part(step, n as real) <= limit <= |v| as real
    ensures start <= start + Part(step, k as real) <= |v| as real
    ensures UnitSums(v, start, step, limit, k) == Integral(v, start, start + Part(step, k as real))
    decreases k
  {
    hide Part, UpTo, UnitSum, Pos;
    Parts(step, n as real, k as real);
    PartPositive(step, (n - k) as real);
    assert n as real - k as real == (n - k) as real;
    PartPositive(step, k as real);
    if k == 0 {
      Parts(step, 0.0, 0.0);
    } else {
      var p, q := start + Part(step, (k - 1) as real), start + Part(step, k as real);
      SumsUpTo(v, start, step, limit, k - 1, n);
      PosLinear(start, step, limit, k - 1, n);
      PosLinear(start, step, limit, k, n);
      Parts(step, k as real, (k - 1) as real);
      assert k as real - (k - 1) as real == 1.0;
      CeilFloor(p);
      UnitIsIntegral(v, p, q);
    }
  }

  lemma NothingYet(v: seq<real>)
    ensures UpTo(v, 0.0) == 0.0
  {
    if |v| > 0 {
      Parts(v[0], 0.0, 0.0);
    }
  }

  // With the window at the stream's beginning the unit sums add up to the
  // integral over all of it.
  lemma MassConserved(v: seq<real>, dur: real, n: nat)
    requires n > 0 && n as real <= dur <= |v| as real
    ensures dur / n as real >= 1.0 && UnitSums(v, 0.0, dur / n as real, dur, n) == UpTo(v, dur)
  {
    hide Part, UpTo, UnitSums;
    StepSize(dur, n);
    SumsUpTo(v, 0.0, dur / n as real, dur, n, n);
    NothingYet(v);
  }

  // What a unit counts beyond its end, when that lies inside its first frame.
  function Excess(v: seq<real>, p: real, q: real): real
    requires 0.0 <= p < |v| as real
  {
    if q < (p.Floor + 1) as real then Part(v[p.Floor], (p.Floor + 1) as real - q) else 0.0
  }

  lemma UnitExact(v: seq<real>, p: real, q: real)
    requires 0.0 <= p < q <= |v| as real
    ensures Ceil(q) <= |v| && UnitSum(v, p, q) == Integral(v, p, q) + Excess(v, p, q)
  {
    hide UpTo, UnitSum;
    if q < (p.Floor + 1) as real {
      UnitTooShort(v, p, q);
    } else {
      UnitIsIntegral(v, p, q);
    }
  }

  // The clamp compares positions with the duration and not with the window's end:
  // it cuts off the last unit of a window that begins between 0 and one step.
  lemma ClampedPos(start: real, step: real, i: nat, n: nat)
    requires 0.0 <= start < step && 0 < n && i <= n
    ensures var limit := Part(step, n as real);
            Pos(start, step, limit, i) == if i < n then start + Part(step, i as real) else limit
  {
    hide Part, Pos;
    var limit := Part(step, n as real);
    Parts(step, n as real, (n - 1) as real);
    Parts(step, 0.0, 0.0);
    assert n as real - (n - 1) as real == 1.0;
    if i < n {
      PosLinear(start, step, limit, i, n - 1);
    } else {
      PosLinear(start, step, limit, n - 1, n - 1);
      PosNext(start, step, limit, n - 1);
    }
  }

  lemma PosNext(start: real, step: real, limit: real, i: nat)
    ensures var next := Pos(start, step, limit, i) + step;
            Pos(start, step, limit, i + 1) == if next > limit then limit else next
  {
  }

  // Such a window loses its last start frames; what its last unit counts too much comes back.
  lemma WindowLoses(v: seq<real>, start: real, step: real, n: nat)
    requires 0.0 <= start < step && step >= 1.0 && 0 < n
    requires start + Part(step, n as real) <= |v| as real
    ensures var limit, last := Part(step, n as real), start + Part(step, (n - 1) as real);
            && 0.0 <= last < limit <= start + limit
            && UnitSums(v, start, step, limit, n)
               == Integral(v, start, start + limit) - Integral(v, limit, start + limit) + Excess(v, last, limit)
  {
    hide Part, Pos, UpTo, UnitSum, Excess;
    var limit, last := Part(step, n as real), start + Part(step, (n - 1) as real);
    Parts(step, n as real, (n - 1) as real);
    Parts(step, 0.0, 0.0);
    assert n as real - (n - 1) as real == 1.0;
    PartPositive(step, (n - 1) as real);
    ClampedPos(start, step, n - 1, n);
    ClampedPos(start, step, n, n);
    SumsUpTo(v, start, step, limit, n - 1, n - 1);
    UnitExact(v, last, limit);
  }

  // --- windows that begin further inside the stream ---

  // What a unit of no length at x counts: the rest of the frame x lies in.
  function Residue(v: seq<real>, x: real): real
    requires 0.0 <= x <= |v| as real
  {
    if x == x.Floor as real then 0.0 else Part(v[x.Floor], (x.Floor + 1) as real - x)
  }

  // A unit that ends where it begins, or before.
  lemma UnitBackward(v: seq<real>, p: real, q: real)
    requires 0.0 <= q <= p <= |v| as real
    ensures Ceil(q) <= |v|
    ensures UnitSum(v, p, q) == if q > p.Floor as real then Residue(v, p) else 0.0
  {
    hide Part, Frac;
    CeilFloor(p);
    CeilFloor(q);
    if q > p.Floor as real {
      assert Ceil(q) == p.Floor + 1;
      OneFrame(v, p.Floor, 1, p.Floor as real + 1.0 - p, q + 1.0 - Ceil(q) as real);
    } else {
      assert Ceil(q) <= p.Floor;
    }
  }

  // How far a unit p .. q counts: its first frame to the end.
  function Reach(p: real, q: real): real {
    if q < (p.Floor + 1) as real then (p.Floor + 1) as real else q
  }

  lemma ReachIn(p: real, q: real, n: nat)
    requires p.Floor as real < q <= n as real
    ensures p < Reach(p, q) <= n as real
  {
    assert (p.Floor as real < n as real) ==> p.Floor + 1 <= n;
  }

  // The integral it amounts to.
  function Covered(v: seq<real>, p: real, q: real): real
    requires 0.0 <= p && q <= |v| as real
  {
    if q <= p.Floor as real then 0.0
    else
      ReachIn(p, q, |v|);
      Integral(v, p, Reach(p, q))
  }

  lemma UnitCovers(v: seq<real>, p: real, q: real)
    requires 0.0 <= p && 0.0 <= q <= |v| as real
    ensures Ceil(q) <= |v| && UnitSum(v, p, q) == Covered(v, p, q)
  {
    hide UpTo, UnitSum, Part, Ceil, Covered, Residue;
    if q <= p.Floor as real {
      NothingCovered(v, p, q);
      return;
    }
    ReachIn(p, q, |v|);
    if q <= p {
      UnitBackward(v, p, q);
      BackwardCovers(v, p, q);
    } else if q < (p.Floor + 1) as real {
      UnitTooShort(v, p, q);
      ShortCovers(v, p, q);
    } else {
      UnitIsIntegral(v, p, q);
      LongCovers(v, p, q);
    }
  }

  lemma NothingCovered(v: seq<real>, p: real, q: real)
    requires 0.0 <= p && q <= p.Floor as real && q <= |v| as real
    ensures Ceil(q) <= |v| && UnitSum(v, p, q) == 0.0 == Covered(v, p, q)
  {
    CeilFloor(q);
  }

  lemma BackwardCovers(v: seq<real>, p: real, q: real)
    requires 0.0 <= q <= p <= |v| as real
    ensures Covered(v, p, q) == if q > p.Floor as real then Residue(v, p) else 0.0
  {
    hide UpTo, Part;
    if q > p.Floor as real {
      ReachIn(p, q, |v|);
      NotWhole(p, q);
      RestOfFrame(v, p);
    }
  }

  lemma NotWhole(p: real, q: real)
    requires p.Floor as real < q <= p
    ensures p != p.Floor as real && q < (p.Floor + 1) as real
  {
  }

  lemma ShortCovers(v: seq<real>, p: real, q: real)
    requires 0.0 <= p < q <= |v| as real && q < (p.Floor + 1) as real
    ensures p.Floor < |v| && Covered(v, p, q) == Integral(v, p, q) + Part(v[p.Floor], (p.Floor + 1) as real - q)
  {
    hide UpTo, Part;
    CeilFloor(p);
    ReachIn(p, q, |v|);
    SameFrame(p, q);
    RestOfFrame(v, p);
    RestOfFrame(v, q);
  }

  lemma SameFrame(p: real, q: real)
    requires p < q < (p.Floor + 1) as real
    ensures q.Floor == p.Floor
  {
  }

  lemma LongCovers(v: seq<real>, p: real, q: real)
    requires 0.0 <= p < q <= |v| as real && q >= (p.Floor + 1) as real
    ensures Covered(v, p, q) == Integral(v, p, q)
  {
    hide UpTo;
    CeilFloor(p);
  }

  lemma RestOfFrame(v: seq<real>, p: real)
    requires 0.0 <= p < |v| as real
    ensures p.Floor < |v| && (p.Floor + 1) as real <= |v| as real
    ensures Integral(v, p, (p.Floor + 1) as real) == Part(v[p.Floor], (p.Floor + 1) as real - p)
  {
    hide Part, Total;
    var k := p.Floor;
    FirstPart(v, p);
    assert ((k + 1) as real).Floor == k + 1;
    if k + 1 < |v| {
      Parts(v[k + 1], 0.0, 0.0);
    }
  }

  // Once at the limit, positions stay there.
  lemma {:induction false} PosStays(start: real, step: real, limit: real, m: nat, i: nat)
    requires 0.0 <= step && m <= i && Pos(start, step, limit, m) == limit
    ensures Pos(start, step, limit, i) == limit
    decreases i
  {
    if m < i {
      PosStays(start, step, limit, m, i - 1);
    }
  }

  // The units from number m on have no length and lie at the limit.
  lemma {:induction false} SumsAtLimit(v: seq<real>, start: real, step: real, limit: real, m: nat, k: nat)
    requires 0.0 <= start && 0.0 <= step && 0.0 <= limit <= |v| as real && m <= k
    requires Pos(start, step, limit, m) == limit
    ensures UnitSums(v, start, step, limit, k)
            == UnitSums(v, start, step, limit, m) + Part(Residue(v, limit), (k - m) as real)
    decreases k
  {
    hide Part, Pos, UnitSum, Residue;
    Parts(Residue(v, limit), 0.0, 0.0);
    if m < k {
      SumsAtLimit(v, start, step, limit, m, k - 1);
      PosStays(start, step, limit, m, k - 1);
      PosStays(start, step, limit, m, k);
      UnitBackward(v, limit, limit);
      AtLimit(v, limit);
      Parts(Residue(v, limit), (k - 1 - m) as real, 1.0);
      assert (k - 1 - m) as real + 1.0 == (k - m) as real;
    }
  }

  lemma AtLimit(v: seq<real>, x: real)
    requires 0.0 <= x <= |v| as real
    ensures (if x > x.Floor as real then Residue(v, x) else 0.0) == Residue(v, x)
  {
  }

  // The last unit that begins at or before the limit.
  lemma {:induction false} LastUnit(start: real, step: real, limit: real, n: nat) returns (m: nat)
    requires start <= limit < start + Part(step, n as real)
    ensures 1 <= m <= n && start + Part(step, (m - 1) as real) <= limit < start + Part(step, m as real)
    decreases n
  {
    hide Part;
    Parts(step, 0.0, 0.0);
    if start + Part(step, (n - 1) as real) <= limit {
      m := n;
    } else {
      m := LastUnit(start, step, limit, n - 1);
    }
  }

  // What the units of any window inside the stream add up to.  If it begins at or
  // before its length: the integral to there, what the cut unit counts too much,
  // and for every collapsed unit the rest of the frame at the limit.
  lemma DeepWindow(v: seq<real>, start: real, step: real, n: nat) returns (m: nat)
    requires 0.0 < start && step >= 1.0 && 0 < n && start + Part(step, n as real) <= |v| as real
    ensures var limit := Part(step, n as real);
            0.0 <= limit <= |v| as real && m <= n
            && (start <= limit ==>
                  var last := start + Part(step, (m - 1) as real);
                  && 0 < m && start <= last <= limit < last + step
                  && UnitSums(v, start, step, limit, n)
                     == Integral(v, start, limit) + (if last < limit then Excess(v, last, limit) else Residue(v, limit))
                        + Part(Residue(v, limit), (n - m) as real))
            && (limit < start ==>
                  m == 1
                  && UnitSums(v, start, step, limit, n)
                     == (if limit > start.Floor as real then Residue(v, start) else 0.0)
                        + Part(Residue(v, limit), (n - m) as real))
  {
    hide Part, Pos, UpTo, UnitSum, Residue, Excess;
    var limit := Part(step, n as real);
    PartPositive(step, n as real);
    if start <= limit {
      m := LastUnit(start, step, limit, n);
      CutWindow(v, start, step, limit, m);
    } else {
      m := 1;
      FirstBackward(v, start, step, limit);
    }
    SumsAtLimit(v, start, step, limit, m, n);
  }

  // The units up to the one that is cut.
  lemma CutWindow(v: seq<real>, start: real, step: real, limit: real, m: nat)
    requires 0.0 <= start && step >= 1.0 && 0 < m && limit <= |v| as real
    requires start + Part(step, (m - 1) as real) <= limit < start + Part(step, m as real)
    ensures var last := start + Part(step, (m - 1) as real);
            && start <= last < last + step == start + Part(step, m as real) && Pos(start, step, limit, m) == limit
            && UnitSums(v, start, step, limit, m)
               == Integral(v, start, limit) + (if last < limit then Excess(v, last, limit) else Residue(v, limit))
  {
    hide Part, Pos, UpTo, UnitSum, Residue, Excess;
    var last := start + Part(step, (m - 1) as real);
    PartPositive(step, (m - 1) as real);
    Parts(step, (m - 1) as real, 1.0);
    Parts(step, 0.0, 0.0);
    assert (m - 1) as real + 1.0 == m as real;
    SumsUpTo(v, start, step, limit, m - 1, m - 1);
    PosLinear(start, step, limit, m - 1, m - 1);
    PosNext(start, step, limit, m - 1);
    if last < limit {
      UnitExact(v, last, limit);
    } else {
      UnitBackward(v, limit, limit);
      AtLimit(v, limit);
    }
  }

  lemma FirstBackward(v: seq<real>, start: real, step: real, limit: real)
    requires step >= 1.0 && 0.0 <= limit < start <= |v| as real
    ensures Pos(start, step, limit, 1) == limit
    ensures UnitSums(v, start, step, limit, 1) == if limit > start.Floor as real then Residue(v, start) else 0.0
  {
    hide UnitSum, Residue;
    UnitBackward(v, start, limit);
    assert Pos(start, step, limit, 0) == start;
    assert UnitSums(v, start, step, limit, 0) == 0.0;
  }

  lemma StepSize(dur: real, n: nat)
    requires n > 0 && n as real <= dur
    ensures dur / n as real >= 1.0 && Part(dur / n as real, n as real) == dur
  {
  }
}
