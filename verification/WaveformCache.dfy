// Aggregating units of aggregates gives what aggregating the frames gives.
module WaveformCache {
  import opened Numbers
  import opened Waveform

  // What is computed for a unit: the extremes, the sum and the sum of squares.
  datatype Unit = Unit(min: int, max: int, sum: real, sum2: real)

  function UnitOf(s: seq<int>, p: real, q: real): Unit
    requires 0.0 <= p && Ceil(q) <= |s|
  {
    Unit(Lowest(s, p.Floor, Ceil(q), SHRT_MAX), Highest(s, p.Floor, Ceil(q), SHRT_MIN),
         UnitSum(Values(s, false), p, q), UnitSum(Values(s, true), p, q))
  }

  // What it says of the samples: bounds that are taken, and the integrals.
  ghost predicate Holds(u: Unit, s: seq<int>, p: real, q: real) {
    && 0.0 <= p && q <= |s| as real && 0 <= p.Floor && Ceil(q) <= |s|
    && u.sum == Covered(Values(s, false), p, q) && u.sum2 == Covered(Values(s, true), p, q)
    && (forall k :: p.Floor <= k < Ceil(q) ==> u.min <= s[k] <= u.max)
    && (p.Floor < Ceil(q) ==>
          && (exists k :: p.Floor <= k < Ceil(q) && s[k] == u.min)
          && (exists k :: p.Floor <= k < Ceil(q) && s[k] == u.max))
    && (p.Floor >= Ceil(q) ==> u.min == SHRT_MAX && u.max == SHRT_MIN)
  }

  lemma UnitHolds(s: seq<int>, p: real, q: real)
    requires 0.0 <= p && 0.0 <= q <= |s| as real && Shorts(s)
    ensures Ceil(q) <= |s| && Holds(UnitOf(s, p, q), s, p, q)
  {
    hide UnitSum, Values, Covered, Ceil;
    CeilFloor(q);
    UnitCovers(Values(s, false), p, q);
    UnitCovers(Values(s, true), p, q);
    LowestIs(s, p.Floor, Ceil(q), SHRT_MAX);
    HighestIs(s, p.Floor, Ceil(q), SHRT_MIN);
    if p.Floor < Ceil(q) {
      assert Lowest(s, p.Floor, Ceil(q), SHRT_MAX) <= s[p.Floor] <= Highest(s, p.Floor, Ceil(q), SHRT_MIN);
    }
  }

  // Unit i of a window that begins at start.
  function UnitAt(s: seq<int>, start: real, step: real, limit: real, i: nat): Unit
    requires 0.0 <= start && 0.0 <= step && 0.0 <= limit <= |s| as real
  {
    PosBounds(start, step, limit, i);
    PosBounds(start, step, limit, i + 1);
    CeilFloor(Pos(start, step, limit, i + 1));
    UnitOf(s, Pos(start, step, limit, i), Pos(start, step, limit, i + 1))
  }

  // The cached aggregates of one channel.
  datatype Cells = Cells(min: seq<int>, max: seq<int>, sum: seq<real>, sum2: seq<real>) {
    predicate Sized() {
      |min| == |max| == |sum| == |sum2|
    }

    // As UnitAt, but a unit that began in the pixel before counts for sums only.
    function UnitAt(start: real, step: real, limit: real, i: nat): Unit
      requires Sized() && 0.0 <= start && 0.0 <= step && 0.0 <= limit <= |min| as real
    {
      PosBounds(start, step, limit, i);
      PosBounds(start, step, limit, i + 1);
      CeilFloor(Pos(start, step, limit, i));
      CeilFloor(Pos(start, step, limit, i + 1));
      var p, q := Pos(start, step, limit, i), Pos(start, step, limit, i + 1);
      Unit(Lowest(min, Ceil(p), Ceil(q), SHRT_MAX), Highest(max, Ceil(p), Ceil(q), SHRT_MIN),
           UnitSum(sum, p, q), UnitSum(sum2, p, q))
    }

    ghost predicate Cell(s: seq<int>, u: nat, k: nat)
      requires Sized() && k < |min| && |min| * u <= |s|
    {
      Fits(|min|, u, k);
      && min[k] == Lowest(s, k * u, (k + 1) * u, SHRT_MAX) && max[k] == Highest(s, k * u, (k + 1) * u, SHRT_MIN)
      && sum[k] == Total(Values(s, false), (k + 1) * u) - Total(Values(s, false), k * u)
      && sum2[k] == Total(Values(s, true), (k + 1) * u) - Total(Values(s, true), k * u)
    }

    // Cell k holds the aggregates of frames k * u .. (k + 1) * u - 1.
    ghost predicate Filled(s: seq<int>, u: nat) {
      Sized() && |min| * u <= |s| && forall k :: 0 <= k < |min| ==> Cell(s, u, k)
    }
  }

  function CellsOf(row: seq<Unit>): (c: Cells)
    ensures c.Sized() && |c.min| == |row|
  {
    Cells(seq(|row|, k requires 0 <= k < |row| => row[k].min), seq(|row|, k requires 0 <= k < |row| => row[k].max),
          seq(|row|, k requires 0 <= k < |row| => row[k].sum), seq(|row|, k requires 0 <= k < |row| => row[k].sum2))
  }

  // The units of a window as the cached displayData steps through it.
  function CacheUnits(cells: Cells, start: real, step: real, n: nat): (u: seq<Unit>)
    requires cells.Sized() && 0.0 <= start && 0.0 <= step
    ensures |u| == n
  {
    seq(n, i requires 0 <= i < n => cells.UnitAt(start, step, |cells.min| as real, i))
  }

  lemma Fits(n: nat, u: nat, k: nat)
    requires k < n
    ensures 0 <= k * u <= (k + 1) * u == k * u + u <= n * u
  {
    assert (n - k - 1) * u >= 0;
    assert (n - k - 1) * u == n * u - (k + 1) * u;
  }

  // --- extremes ---

  lemma {:induction false} LowestStart(s: seq<int>, lo: int, hi: int, start: int)
    requires 0 <= lo && hi <= |s| && start <= SHRT_MAX
    ensures Lowest(s, lo, hi, start) == Min(start, Lowest(s, lo, hi, SHRT_MAX))
    decreases hi - lo
  {
    if hi > lo {
      LowestStart(s, lo, hi - 1, start);
    }
  }

  lemma {:induction false} HighestStart(s: seq<int>, lo: int, hi: int, start: int)
    requires 0 <= lo && hi <= |s| && start >= SHRT_MIN
    ensures Highest(s, lo, hi, start) == Max(start, Highest(s, lo, hi, SHRT_MIN))
    decreases hi - lo
  {
    if hi > lo {
      HighestStart(s, lo, hi - 1, start);
    }
  }

  lemma {:induction false} ExtremesJoin(s: seq<int>, lo: int, mid: int, hi: int, a: int, b: int)
    requires 0 <= lo <= mid <= hi <= |s|
    ensures Lowest(s, lo, hi, a) == Lowest(s, mid, hi, Lowest(s, lo, mid, a))
    ensures Highest(s, lo, hi, b) == Highest(s, mid, hi, Highest(s, lo, mid, b))
    decreases hi - mid
  {
    if hi > mid {
      ExtremesJoin(s, lo, mid, hi - 1, a, b);
    }
  }

  lemma {:induction false} ExtremesSlice(s: seq<int>, off: nat, end: nat, lo: int, hi: int, a: int, b: int)
    requires off <= end <= |s| && 0 <= lo && hi <= end - off
    ensures Lowest(s[off..end], lo, hi, a) == Lowest(s, off + lo, off + hi, a)
    ensures Highest(s[off..end], lo, hi, b) == Highest(s, off + lo, off + hi, b)
    decreases hi - lo
  {
    if hi > lo {
      ExtremesSlice(s, off, end, lo, hi - 1, a, b);
    }
  }

  // --- totals ---

  lemma {:induction false} TotalSlice(v: seq<real>, off: nat, end: nat, k: nat)
    requires off <= end <= |v| && k <= end - off
    ensures Total(v[off..end], k) == Total(v, off + k) - Total(v, off)
  {
    if k > 0 {
      TotalSlice(v, off, end, k - 1);
    }
  }

  lemma ValuesSlice(s: seq<int>, square: bool, off: nat, end: nat)
    requires off <= end <= |s|
    ensures Values(s[off..end], square) == Values(s, square)[off..end]
  {
  }

  // Between whole frames the integral is a difference of totals.
  lemma WholeUnit(v: seq<real>, p: nat, q: nat)
    requires p < q <= |v|
    ensures Ceil(q as real) == q && (p as real).Floor == p
    ensures UnitSum(v, p as real, q as real) == Total(v, q) - Total(v, p)
  {
    hide Total, UnitSum, Part;
    CeilFloor(q as real);
    UnitIsIntegral(v, p as real, q as real);
    WholeUpTo(v, p);
    WholeUpTo(v, q);
  }

  lemma WholeUpTo(v: seq<real>, p: nat)
    requires p <= |v|
    ensures UpTo(v, p as real) == Total(v, p)
  {
    hide Total, Part;
    assert (p as real).Floor == p;
    if p < |v| {
      Parts(v[p], 0.0, 0.0);
    }
  }

  // --- units of a stretch of the frames ---

  lemma {:induction false} WeightedSlice(v: seq<real>, off: nat, end: nat, pos: nat, count: int, frac0: real, frac1: real, k: nat)
    requires off <= end <= |v| && pos + k <= end - off
    ensures Weighted(v[off..end], pos, count, frac0, frac1, k) == Weighted(v, off + pos, count, frac0, frac1, k)
  {
    hide Part, Frac;
    if k > 0 {
      WeightedSlice(v, off, end, pos, count, frac0, frac1, k - 1);
      assert v[off..end][pos + k - 1] == v[off + pos + k - 1];
    }
  }

  lemma WholeShift(off: nat, x: real)
    ensures (off as real + x).Floor == off + x.Floor && Ceil(off as real + x) == off + Ceil(x)
  {
    CeilFloor(x);
    CeilFloor(off as real + x);
  }

  lemma SumShift(v: seq<real>, off: nat, end: nat, p: real, q: real)
    requires off <= end <= |v| && 0.0 <= p <= q && Ceil(q) <= end - off
    ensures Ceil(off as real + q) <= |v|
    ensures UnitSum(v[off..end], p, q) == UnitSum(v, off as real + p, off as real + q)
  {
    hide Weighted;
    WholeShift(off, p);
    WholeShift(off, q);
    CeilFloor(p);
    CeilFloor(q);
    var count := Ceil(q) - p.Floor;
    WeightedSlice(v, off, end, p.Floor, count, p.Floor as real + 1.0 - p, q + 1.0 - Ceil(q) as real, count);
  }

  // A unit of a stretch is the unit of the whole at the shifted place.
  lemma UnitShift(s: seq<int>, off: nat, end: nat, p: real, q: real)
    requires off <= end <= |s| && 0.0 <= p <= q && Ceil(q) <= end - off
    ensures Ceil(off as real + q) <= |s|
    ensures UnitOf(s[off..end], p, q) == UnitOf(s, off as real + p, off as real + q)
  {
    hide Lowest, Highest, UnitSum, Values;
    WholeShift(off, p);
    WholeShift(off, q);
    CeilFloor(p);
    ExtremesSlice(s, off, end, p.Floor, Ceil(q), SHRT_MAX, SHRT_MIN);
    ValuesSlice(s, false, off, end);
    ValuesSlice(s, true, off, end);
    SumShift(Values(s, false), off, end, p, q);
    SumShift(Values(s, true), off, end, p, q);
  }

  // --- frames to cells ---

  // Unit i of a stretch s[off..end] that begins on a unit boundary.
  lemma SliceUnit(s: seq<int>, off: nat, end: nat, u: nat, n: nat, i: nat)
    requires 1 <= u && i < n && off + n * u <= end <= |s|
    ensures 0 <= off + i * u <= off + (i + 1) * u <= end
    ensures UnitAt(s[off..end], 0.0, u as real, (n * u) as real, i)
            == Unit(Lowest(s, off + i * u, off + (i + 1) * u, SHRT_MAX),
                    Highest(s, off + i * u, off + (i + 1) * u, SHRT_MIN),
                    Total(Values(s, false), off + (i + 1) * u) - Total(Values(s, false), off + i * u),
                    Total(Values(s, true), off + (i + 1) * u) - Total(Values(s, true), off + i * u))
  {
    hide Lowest, Highest, Total, UnitSum, Values, Pos;
    Fits(n, u, i);
    WholePos(0, u, n * u, n, i);
    WholePos(0, u, n * u, n, i + 1);
    var p, q := i * u, (i + 1) * u;
    ExtremesSlice(s, off, end, p, q, SHRT_MAX, SHRT_MIN);
    ValuesSlice(s, false, off, end);
    ValuesSlice(s, true, off, end);
    WholeUnit(Values(s[off..end], false), p, q);
    WholeUnit(Values(s[off..end], true), p, q);
    TotalSlice(Values(s, false), off, end, p);
    TotalSlice(Values(s, false), off, end, q);
    TotalSlice(Values(s, true), off, end, p);
    TotalSlice(Values(s, true), off, end, q);
  }

  // Whole steps from a whole start stay whole.
  lemma WholePos(a: nat, u: nat, limit: nat, n: nat, i: nat)
    requires i <= n && a + n * u <= limit
    ensures Pos(a as real, u as real, limit as real, i) == (a + i * u) as real
  {
    hide Pos;
    WholeProduct(u, n);
    WholeProduct(u, i);
    PosLinear(a as real, u as real, limit as real, i, n);
  }

  lemma WholeProduct(u: nat, i: nat)
    ensures Part(u as real, i as real) == (i * u) as real
  {
  }

  // The cells c .. c + r - 1 aggregate to the frames they stand for.
  lemma {:induction false} CellsExtremes(cells: Cells, s: seq<int>, u: nat, c: nat, r: nat)
    requires cells.Filled(s, u) && c + r <= |cells.min|
    ensures 0 <= c * u <= (c + r) * u <= |s|
    ensures Lowest(cells.min, c, c + r, SHRT_MAX) == Lowest(s, c * u, (c + r) * u, SHRT_MAX)
    ensures Highest(cells.max, c, c + r, SHRT_MIN) == Highest(s, c * u, (c + r) * u, SHRT_MIN)
    decreases r
  {
    hide Min, Max, Total, Values;
    CellsFit(|cells.min|, u, c, r);
    if r > 0 {
      var k := c + r - 1;
      CellsExtremes(cells, s, u, c, r - 1);
      assert cells.Cell(s, u, k);
      Fits(|cells.min|, u, k);
      CellsFit(|cells.min|, u, c, r - 1);
      ExtremesJoin(s, c * u, k * u, (c + r) * u, SHRT_MAX, SHRT_MIN);
      AtMost(s, c * u, k * u);
      LowestStart(s, k * u, (c + r) * u, Lowest(s, c * u, k * u, SHRT_MAX));
      HighestStart(s, k * u, (c + r) * u, Highest(s, c * u, k * u, SHRT_MIN));
    } else {
      assert (c + 0) * u == c * u;
    }
  }

  lemma {:induction false} AtMost(s: seq<int>, lo: int, hi: int)
    requires 0 <= lo && hi <= |s|
    ensures Lowest(s, lo, hi, SHRT_MAX) <= SHRT_MAX && Highest(s, lo, hi, SHRT_MIN) >= SHRT_MIN
    decreases hi - lo
  {
    if hi > lo {
      AtMost(s, lo, hi - 1);
    }
  }

  lemma CellsFit(n: nat, u: nat, c: nat, r: nat)
    requires c + r <= n
    ensures 0 <= c * u <= (c + r) * u == c * u + r * u <= n * u
  {
    assert (n - c - r) * u >= 0;
    assert (n - c - r) * u == n * u - (c + r) * u;
  }

  lemma {:induction false} CellsTotal(cells: Cells, s: seq<int>, u: nat, c: nat, r: nat)
    requires cells.Filled(s, u) && c + r <= |cells.min|
    ensures 0 <= c * u <= (c + r) * u <= |s|
    ensures Total(cells.sum, c + r) - Total(cells.sum, c)
            == Total(Values(s, false), (c + r) * u) - Total(Values(s, false), c * u)
    ensures Total(cells.sum2, c + r) - Total(cells.sum2, c)
            == Total(Values(s, true), (c + r) * u) - Total(Values(s, true), c * u)
    decreases r
  {
    hide Lowest, Highest, Values;
    CellsFit(|cells.min|, u, c, r);
    if r > 0 {
      CellsTotal(cells, s, u, c, r - 1);
      assert cells.Cell(s, u, c + r - 1);
    } else {
      assert (c + 0) * u == c * u;
    }
  }

  // The aggregates of frames p .. q - 1.
  function FrameRange(s: seq<int>, p: nat, q: nat): Unit
    requires p <= q <= |s|
  {
    Unit(Lowest(s, p, q, SHRT_MAX), Highest(s, p, q, SHRT_MIN),
         Total(Values(s, false), q) - Total(Values(s, false), p), Total(Values(s, true), q) - Total(Values(s, true), p))
  }

  // A pixel of r whole units, from the cache.
  lemma PixelFromCells(cells: Cells, s: seq<int>, u: nat, a: nat, r: nat, width: nat, i: nat)
    requires cells.Filled(s, u) && 1 <= r && i < width && a + width * r <= |cells.min|
    ensures 0 <= (a + i * r) * u <= (a + i * r + r) * u <= |s|
    ensures cells.UnitAt(a as real, r as real, |cells.min| as real, i) == FrameRange(s, (a + i * r) * u, (a + i * r + r) * u)
  {
    hide Lowest, Highest, Total, UnitSum, Values, Pos, Cells.Filled, Cells.Cell;
    FilledSize(cells, s, u);
    Fits(width, r, i);
    WholePos(a, r, |cells.min|, width, i);
    WholePos(a, r, |cells.min|, width, i + 1);
    CellsUnit(cells, s, u, a + i * r, r);
  }

  lemma CellsUnit(cells: Cells, s: seq<int>, u: nat, c: nat, r: nat)
    requires cells.Filled(s, u) && 1 <= r && c + r <= |cells.min|
    ensures 0 <= c * u <= (c + r) * u <= |s| && Ceil(c as real) == c && Ceil((c + r) as real) == c + r
    ensures Unit(Lowest(cells.min, c, c + r, SHRT_MAX), Highest(cells.max, c, c + r, SHRT_MIN),
                 UnitSum(cells.sum, c as real, (c + r) as real), UnitSum(cells.sum2, c as real, (c + r) as real))
            == FrameRange(s, c * u, (c + r) * u)
  {
    hide Lowest, Highest, Total, UnitSum, Values, Cells.Filled, Cells.Cell;
    FilledSize(cells, s, u);
    CeilFloor(c as real);
    WholeUnit(cells.sum, c, c + r);
    WholeUnit(cells.sum2, c, c + r);
    CellsExtremes(cells, s, u, c, r);
    CellsTotal(cells, s, u, c, r);
  }

  // The same pixel from the file.
  lemma PixelAgrees(cells: Cells, s: seq<int>, u: nat, a: nat, r: nat, width: nat, i: nat)
    requires cells.Filled(s, u) && 1 <= u && 1 <= r && i < width && a + width * r <= |cells.min|
    ensures 0 <= a * u <= a * u + width * (r * u) <= |s|
    ensures cells.UnitAt(a as real, r as real, |cells.min| as real, i)
            == UnitAt(s[a * u..a * u + width * (r * u)], 0.0, (r * u) as real, (width * (r * u)) as real, i)
  {
    hide Lowest, Highest, Total, Values, Pos, Cells.Filled, UnitAt, Cells.UnitAt;
    FilledSize(cells, s, u);
    CellsFit(|cells.min|, u, a, width * r);
    Reassociate(width, r, u);
    PixelFromCells(cells, s, u, a, r, width, i);
    SliceUnit(s, a * u, a * u + width * (r * u), r * u, width, i);
    PixelFrames(a, i, r, u);
  }

  lemma FilledSize(cells: Cells, s: seq<int>, u: nat)
    requires cells.Filled(s, u)
    ensures cells.Sized() && |cells.min| * u <= |s|
  {
  }

  lemma Reassociate(width: nat, r: nat, u: nat)
    ensures (width * r) * u == width * (r * u) && (r >= 1 && u >= 1 ==> r * u >= 1)
  {
  }

  lemma PixelFrames(a: nat, i: nat, r: nat, u: nat)
    ensures (a + i * r) * u == a * u + i * (r * u)
    ensures (a + i * r + r) * u == a * u + (i + 1) * (r * u)
  {
    assert (i * r) * u == i * (r * u);
    assert (i + 1) * (r * u) == i * (r * u) + r * u;
  }
}
