// What a pixel of a display shows (QcSoundFileView.cpp).
module Pixels {
  import opened Numbers
  import opened Waveform
  import opened WaveformCache

  // Pixel k of a display: the extremes of its unit, stretched to meet the
  // extremes of the pixel before.
  function Stretched(units: seq<Unit>, k: nat): (e: (int, int))
    requires k < |units|
  {
    if k == 0 then (Min(SHRT_MAX, units[0].min), Max(SHRT_MIN, units[0].max))
    else
      // The previous maximum is where the minimum starts, and conversely.
      var before := Stretched(units, k - 1);
      (Min(before.1, units[k].min), Max(before.0, units[k].max))
  }

  // Conversion to short, for values in range.
  function ToShort(x: real): int {
    if x >= 0.0 then x.Floor else -((-x).Floor)
  }

  function Abs(x: real): real {
    if x < 0.0 then -x else x
  }

  function Avg(sum: real, n: real): real
    requires n != 0.0
  {
    sum / n
  }

  function Spread(sum: real, sum2: real, n: real): real
    requires n != 0.0
  {
    (sum2 - sum * Avg(sum, n)) / n
  }

  // Average minus and plus standard deviation over n frames.
  function Rms(sum: real, sum2: real, n: real, sqrt: real -> real): (int, int)
    requires n != 0.0
  {
    var avg := Avg(sum, n);
    var stdDev := sqrt(Abs(Spread(sum, sum2, n)));
    (ToShort(avg - stdDev), ToShort(avg + stdDev))
  }

  // --- extremes ---

  // The range low .. high of a pixel covers entries lo .. hi - 1 and meets the range
  // before it, and is no larger than that takes.
  ghost predicate Range(low: int, high: int, first: bool, low0: int, high0: int, lows: seq<int>, highs: seq<int>, lo: int, hi: int)
    requires 0 <= lo && hi <= |lows| == |highs|
  {
    && (forall k :: lo <= k < hi ==> low <= lows[k] && highs[k] <= high)
    && (low == (if first then SHRT_MAX else high0) || exists k :: lo <= k < hi && lows[k] == low)
    && (high == (if first then SHRT_MIN else low0) || exists k :: lo <= k < hi && highs[k] == high)
    && (!first ==> low <= high0 && low0 <= high)
  }

  ghost predicate ShortUnits(units: seq<Unit>) {
    forall k :: 0 <= k < |units| ==>
      SHRT_MIN <= units[k].min <= SHRT_MAX && SHRT_MIN <= units[k].max <= SHRT_MAX
  }

  lemma {:induction false} StretchedShort(units: seq<Unit>, k: nat)
    requires ShortUnits(units) && k < |units|
    ensures SHRT_MIN <= Stretched(units, k).0 <= SHRT_MAX && SHRT_MIN <= Stretched(units, k).1 <= SHRT_MAX
  {
    if k > 0 {
      StretchedShort(units, k - 1);
    }
  }

  // Unit k has the extremes of entries lo .. hi - 1.
  lemma StretchedRange(units: seq<Unit>, k: nat, lows: seq<int>, highs: seq<int>, lo: int, hi: int)
    requires k < |units| && 0 <= lo && hi <= |lows| == |highs| && ShortUnits(units)
    requires units[k].min == Lowest(lows, lo, hi, SHRT_MAX) && units[k].max == Highest(highs, lo, hi, SHRT_MIN)
    ensures var e, before := Stretched(units, k), if k == 0 then (0, 0) else Stretched(units, k - 1);
            Range(e.0, e.1, k == 0, before.0, before.1, lows, highs, lo, hi)
  {
    hide Lowest, Highest;
    LowestIs(lows, lo, hi, SHRT_MAX);
    HighestIs(highs, lo, hi, SHRT_MIN);
    if k > 0 {
      StretchedShort(units, k - 1);
    }
  }

  // --- RMS lines ---

  // k is x without its fraction.
  predicate WholePart(k: int, x: real) {
    if x >= 0.0 then k as real <= x < (k + 1) as real else (k - 1) as real < x <= k as real
  }

  // The mean m and the deviation d of a pixel of n frames whose samples and squares
  // integrate to sum and sum2.
  predicate Deviates(m: real, d: real, sum: real, sum2: real, n: real) {
    && 0.0 <= d && n * m == sum
    && n * (d * d) == if sum2 - n * (m * m) < 0.0 then n * (m * m) - sum2 else sum2 - n * (m * m)
  }

  ghost predicate Lines(low: int, high: int, sum: real, sum2: real, n: real) {
    && low <= high
    && exists m, d :: Deviates(m, d, sum, sum2, n) && WholePart(low, m - d) && WholePart(high, m + d)
  }

  ghost predicate IsRoot(sqrt: real -> real) {
    forall x :: x >= 0.0 ==> sqrt(x) >= 0.0 && sqrt(x) * sqrt(x) == x
  }

  lemma RmsLines(sum: real, sum2: real, n: real, sqrt: real -> real)
    requires n > 0.0 && IsRoot(sqrt)
    ensures Lines(Rms(sum, sum2, n, sqrt).0, Rms(sum, sum2, n, sqrt).1, sum, sum2, n)
  {
    hide Abs, ToShort, WholePart, Deviates, IsRoot, Avg, Spread;
    var m, x := Avg(sum, n), Abs(Spread(sum, sum2, n));
    var d := sqrt(x);
    Average(sum, n, m);
    Variance(sum, sum2, n, m, x);
    Rooted(sqrt, x);
    DeviatesSo(m, d, x, sum, sum2, n);
    Shortened(m - d, m + d);
    assert Deviates(m, d, sum, sum2, n) && WholePart(ToShort(m - d), m - d) && WholePart(ToShort(m + d), m + d);
  }

  lemma Rooted(sqrt: real -> real, x: real)
    requires IsRoot(sqrt) && x >= 0.0
    ensures sqrt(x) >= 0.0 && sqrt(x) * sqrt(x) == x
  {
  }

  lemma DeviatesSo(m: real, d: real, x: real, sum: real, sum2: real, n: real)
    requires d >= 0.0 && d * d == x && n * m == sum
    requires n * x == if sum2 - n * (m * m) < 0.0 then n * (m * m) - sum2 else sum2 - n * (m * m)
    ensures Deviates(m, d, sum, sum2, n)
  {
  }

  lemma Average(sum: real, n: real, m: real)
    requires n > 0.0 && m == Avg(sum, n)
    ensures n * m == sum && sum * m == n * (m * m)
  {
    assert n * m == sum;
    assert (n * m) * m == n * (m * m);
  }

  lemma Variance(sum: real, sum2: real, n: real, m: real, x: real)
    requires n > 0.0 && x == Abs(Spread(sum, sum2, n)) && m == Avg(sum, n) && sum * m == n * (m * m)
    ensures x >= 0.0 && n * x == if sum2 - n * (m * m) < 0.0 then n * (m * m) - sum2 else sum2 - n * (m * m)
  {
    var y := sum2 - n * (m * m);
    var z := y / n;
    assert n * z == y;
    Signs(n, z);
  }

  lemma Signs(n: real, z: real)
    requires n > 0.0
    ensures n * z < 0.0 <==> z < 0.0
    ensures n * (-z) == -(n * z)
  {
  }

  lemma Shortened(x: real, y: real)
    ensures WholePart(ToShort(x), x) && WholePart(ToShort(y), y)
    ensures x <= y ==> ToShort(x) <= ToShort(y)
  {
  }
}
