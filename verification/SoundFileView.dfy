// SoundFileStream (QcSoundFileView.cpp): extremes and sums read from the file.
module SoundFileView {
  import opened Numbers
  import opened Waveform
  import opened WaveformCache
  import opened Pixels

  // --- frames and channels ---

  // The samples of one channel of an interleaved buffer.
  function Channel(data: seq<int>, channels: nat, ch: nat, frames: nat): (s: seq<int>)
    requires ch < channels && frames * channels <= |data|
    ensures |s| == frames
  {
    seq(frames, f requires 0 <= f < frames => Sample(data, channels, ch, frames, f))
  }

  function Sample(data: seq<int>, channels: nat, ch: nat, frames: nat, f: nat): int
    requires ch < channels && f < frames && frames * channels <= |data|
  {
    FrameIndex(channels, ch, frames, f);
    data[f * channels + ch]
  }

  // Datum k of the file belongs to frame k / channels of channel k % channels.
  lemma Deinterleaved(data: seq<int>, channels: nat, frames: nat, k: nat)
    requires channels > 0 && frames * channels <= |data| && k < frames * channels
    ensures k / channels < frames && k % channels < channels
    ensures Channel(data, channels, k % channels, frames)[k / channels] == data[k]
  {
    var f, ch := k / channels, k % channels;
    assert k == f * channels + ch;
    MoreFrames(f, frames, channels);
  }

  lemma MoreFrames(f: nat, frames: nat, channels: nat)
    ensures f >= frames ==> f * channels >= frames * channels
  {
    if f >= frames {
      assert (f - frames) * channels >= 0;
      assert (f - frames) * channels == f * channels - frames * channels;
    }
  }

  function Address(channels: nat, ch: nat, f: nat): nat {
    f * channels + ch
  }

  lemma NextAddress(channels: nat, ch: nat, f: nat)
    ensures Address(channels, ch, f + 1) == Address(channels, ch, f) + channels
  {
  }

  lemma FrameIndex(channels: nat, ch: nat, frames: nat, f: nat)
    requires ch < channels && f < frames
    ensures f * channels + ch < frames * channels
  {
    Fits(frames, channels, f);
  }

  // The units of a window as integrate and displayData step through it.
  function WindowUnits(s: seq<int>, start: real, dur: real, n: nat): (u: seq<Unit>)
    requires 0.0 <= start && 0.0 <= dur <= |s| as real && n > 0
    ensures |u| == n
  {
    seq(n, i requires 0 <= i < n => StepPositive(dur, n); UnitAt(s, start, dur / n as real, dur, i))
  }

  lemma StepPositive(dur: real, n: nat)
    requires 0.0 <= dur && n > 0
    ensures 0.0 <= dur / n as real && (0.0 < dur ==> 0.0 < dur / n as real)
  {
  }

  // The sums of some units, or their sums of squares.
  function SumOf(units: seq<Unit>, square: bool): real {
    if units == [] then 0.0
    else
      var u := units[|units| - 1];
      SumOf(units[..|units| - 1], square) + if square then u.sum2 else u.sum
  }

  lemma {:induction false} SumsOfWindow(s: seq<int>, start: real, dur: real, n: nat, k: nat, square: bool)
    requires 0.0 <= start && 0.0 <= dur <= |s| as real && k <= n && n > 0
    ensures 0.0 <= dur / n as real
    ensures SumOf(WindowUnits(s, start, dur, n)[..k], square)
            == UnitSums(Values(s, square), start, dur / n as real, dur, k)
    decreases k
  {
    hide UnitSum, Values, Pos, Lowest, Highest;
    StepPositive(dur, n);
    var units := WindowUnits(s, start, dur, n);
    if k > 0 {
      SumsOfWindow(s, start, dur, n, k - 1, square);
      assert units[..k][..k - 1] == units[..k - 1];
      assert units[..k][k - 1] == UnitAt(s, start, dur / n as real, dur, k - 1);
    }
  }

  // What the sums of a window that begins within the first step add up to: all
  // of it but the last start frames, and what its last unit counts too much.
  lemma WindowMass(s: seq<int>, start: real, dur: real, n: nat, square: bool)
    requires 0 < n && n as real <= dur && 0.0 <= start < dur / n as real && start + dur <= |s| as real
    ensures var v, last := Values(s, square), start + dur - dur / n as real;
            && 0.0 <= last < dur
            && SumOf(WindowUnits(s, start, dur, n), square)
               == Integral(v, start, start + dur) - Integral(v, dur, start + dur) + Excess(v, last, dur)
  {
    hide UnitSums, Values, Integral, Excess, Part;
    var units := WindowUnits(s, start, dur, n);
    assert units[..n] == units;
    StepSize(dur, n);
    SumsOfWindow(s, start, dur, n, n, square);
    WindowLoses(Values(s, square), start, dur / n as real, n);
    OneStepLess(dur / n as real, n);
  }

  // The same for a window that begins anywhere inside the samples: m units are not collapsed.
  lemma DeepMass(s: seq<int>, start: real, dur: real, n: nat, square: bool) returns (m: nat)
    requires 0 < n && n as real <= dur && 0.0 < start && start + dur <= |s| as real
    ensures var v, step := Values(s, square), dur / n as real;
            m <= n
            && (start <= dur ==>
                  var last := start + Part(step, (m - 1) as real);
                  && 0 < m && start <= last <= dur < last + step
                  && SumOf(WindowUnits(s, start, dur, n), square)
                     == Integral(v, start, dur) + (if last < dur then Excess(v, last, dur) else Residue(v, dur))
                        + Part(Residue(v, dur), (n - m) as real))
            && (dur < start ==>
                  m == 1
                  && SumOf(WindowUnits(s, start, dur, n), square)
                     == (if dur > start.Floor as real then Residue(v, start) else 0.0)
                        + Part(Residue(v, dur), (n - m) as real))
  {
    hide UnitSums, Values, UpTo, Excess, Residue, Part;
    var units := WindowUnits(s, start, dur, n);
    assert units[..n] == units;
    StepSize(dur, n);
    SumsOfWindow(s, start, dur, n, n, square);
    m := DeepWindow(Values(s, square), start, dur / n as real, n);
  }

  lemma OneStepLess(step: real, n: nat)
    requires n > 0
    ensures Part(step, (n - 1) as real) == Part(step, n as real) - step
  {
    assert (n - 1) as real == n as real - 1.0;
  }

  // A window at the beginning of the samples is conserved.
  lemma WholeMass(s: seq<int>, dur: real, n: nat, square: bool)
    requires 0 < n && n as real <= dur <= |s| as real
    ensures SumOf(WindowUnits(s, 0.0, dur, n), square) == UpTo(Values(s, square), dur)
  {
    hide UnitSums, Values, UpTo;
    var units := WindowUnits(s, 0.0, dur, n);
    assert units[..n] == units;
    SumsOfWindow(s, 0.0, dur, n, n, square);
    MassConserved(Values(s, square), dur, n);
  }

  // The four buffers of a display.
  class Buffers {
    const min: array<int>
    const max: array<int>
    const minRMS: array<int>
    const maxRMS: array<int>

    ghost predicate Valid(n: nat) {
      && min.Length >= n && max.Length >= n && minRMS.Length >= n && maxRMS.Length >= n
      && min != max && min != minRMS && min != maxRMS && max != minRMS && max != maxRMS && minRMS != maxRMS
    }

    // The first k pixels show these units.
    ghost predicate Shows(units: seq<Unit>, n: real, sqrt: real -> real, k: nat)
      requires Valid(k) && k <= |units| && n != 0.0
      reads min, max, minRMS, maxRMS
    {
      forall i :: 0 <= i < k ==>
        min[i] == Stretched(units, i).0 && max[i] == Stretched(units, i).1
        && (minRMS[i], maxRMS[i]) == Rms(units[i].sum, units[i].sum2, n, sqrt)
    }

    // Pixel i shows the extremes of entries lo .. ceil(q) - 1, together with the pixel
    // before, and the mean and deviation of what v and v2, the squares, hold from p to q.
    ghost predicate Draws(i: nat, lows: seq<int>, highs: seq<int>, lo: int, v: seq<real>, v2: seq<real>, p: real, q: real, n: real)
      requires Valid(i + 1)
      reads min, max, minRMS, maxRMS
    {
      && 0 <= lo && 0.0 <= p && q <= |v| as real && |lows| == |highs| == |v| == |v2| && Ceil(q) <= |v|
      && Range(min[i], max[i], i == 0, if i == 0 then 0 else min[i - 1], if i == 0 then 0 else max[i - 1],
               lows, highs, lo, Ceil(q))
      && Lines(minRMS[i], maxRMS[i], Covered(v, p, q), Covered(v2, p, q), n)
    }

    lemma ShownDraws(units: seq<Unit>, n: real, sqrt: real -> real, k: nat, i: nat,
                     lows: seq<int>, highs: seq<int>, lo: int, v: seq<real>, v2: seq<real>, p: real, q: real)
      requires Valid(k) && i < k <= |units| && n > 0.0 && Shows(units, n, sqrt, k) && IsRoot(sqrt) && ShortUnits(units)
      requires 0 <= lo && 0.0 <= p && 0.0 <= q <= |v| as real && |lows| == |highs| == |v| == |v2| && Ceil(q) <= |v|
      requires units[i].min == Lowest(lows, lo, Ceil(q), SHRT_MAX) && units[i].max == Highest(highs, lo, Ceil(q), SHRT_MIN)
      requires units[i].sum == UnitSum(v, p, q) && units[i].sum2 == UnitSum(v2, p, q)
      ensures Draws(i, lows, highs, lo, v, v2, p, q, n)
    {
      hide Lowest, Highest, UnitSum, Covered, Rms, Stretched, Range, Lines, IsRoot, ShortUnits;
      UnitCovers(v, p, q);
      UnitCovers(v2, p, q);
      StretchedRange(units, i, lows, highs, lo, Ceil(q));
      RmsLines(units[i].sum, units[i].sum2, n, sqrt);
    }

    constructor (n: nat)
      ensures Valid(n) && fresh(min) && fresh(max) && fresh(minRMS) && fresh(maxRMS)
    {
      min, max, minRMS, maxRMS := new int[n], new int[n], new int[n], new int[n];
    }

    // Lines 857-860 and 1010-1013: pixel i.
    method Put(i: nat, min': int, max': int, rms: (int, int), ghost units: seq<Unit>, ghost n: real, ghost sqrt: real -> real)
      requires Valid(i + 1) && i < |units| && n != 0.0 && Shows(units, n, sqrt, i)
      requires (min', max') == Stretched(units, i) && rms == Rms(units[i].sum, units[i].sum2, n, sqrt)
      modifies min, max, minRMS, maxRMS
      ensures Shows(units, n, sqrt, i + 1)
    {
      min[i] := min';
      max[i] := max';
      minRMS[i] := rms.0;
      maxRMS[i] := rms.1;
    }

    lemma ShowsNothing(units: seq<Unit>, n: real, sqrt: real -> real)
      requires Valid(0) && n != 0.0
      ensures Shows(units, n, sqrt, 0)
    {
    }
  }

  // The aggregates of all channels.
  class SoundCaches {
    const channels: nat
    const size: nat
    const min: array2<Short>
    const max: array2<Short>
    const sum: array2<real>
    const sum2: array2<real>

    ghost predicate Valid() {
      && min.Length0 == max.Length0 == sum.Length0 == sum2.Length0 == channels
      && min.Length1 == max.Length1 == sum.Length1 == sum2.Length1 == size
      && min != max && sum != sum2
    }

    constructor (channels: nat, size: nat)
      ensures Valid() && this.channels == channels && this.size == size
      ensures fresh(min) && fresh(max) && fresh(sum) && fresh(sum2)
    {
      this.channels, this.size := channels, size;
      min, max := new Short[channels, size], new Short[channels, size];
      sum, sum2 := new real[channels, size], new real[channels, size];
    }

    ghost function Cell(r: nat, k: nat): Unit
      requires Valid() && r < channels && k < size
      reads min, max, sum, sum2
    {
      Unit(min[r, k], max[r, k], sum[r, k], sum2[r, k])
    }

    ghost function Row(r: nat): (row: seq<Unit>)
      requires Valid() && r < channels
      reads min, max, sum, sum2
      ensures |row| == size
    {
      seq(size, k requires 0 <= k < size && Valid() && r < channels reads min, max, sum, sum2 => Cell(r, k))
    }

    // Lines 787-790.
    method Put(ch: nat, k: nat, min': Short, max': Short, sum': real, sum2': real)
      requires Valid() && ch < channels && k < size
      modifies min, max, sum, sum2
      ensures Row(ch) == old(Row(ch))[k := Unit(min', max', sum', sum2')]
      ensures forall r :: 0 <= r < channels && r != ch ==> Row(r) == old(Row(r))
    {
      min[ch, k] := min';
      max[ch, k] := max';
      sum[ch, k] := sum';
      sum2[ch, k] := sum2';
    }
  }

  // A row in which the units u replace those from at on.
  function Spliced(row: seq<Unit>, at: nat, u: seq<Unit>): seq<Unit>
    requires at + |u| <= |row|
  {
    row[..at] + u + row[at + |u|..]
  }

  lemma SplicedNone(row: seq<Unit>, at: nat, u: seq<Unit>)
    requires at <= |row|
    ensures Spliced(row, at, u[..0]) == row
  {
  }

  lemma SplicedPart(row: seq<Unit>, at: nat, u: seq<Unit>)
    requires at + |u| <= |row|
    ensures Spliced(row, at, u)[at..at + |u|] == u
  {
  }

  lemma SplicedOne(row: seq<Unit>, at: nat, u: seq<Unit>, i: nat)
    requires i < |u| && at + |u| <= |row|
    ensures Spliced(row, at, u[..i])[at + i := u[i]] == Spliced(row, at, u[..i + 1])
  {
  }

  class SoundFileStream {
    const data: array<int>
    const channels: nat
    const dataOffset: nat
    const dataSize: nat

    ghost predicate Valid()
      reads this, data
    {
      channels > 0 && data.Length == dataSize * channels && Shorts(data[..])
    }

    ghost function Samples(ch: nat): (s: seq<int>)
      requires Valid() && ch < channels
      reads this, data
      ensures |s| == dataSize
    {
      Channel(data[..], channels, ch, dataSize)
    }

    // The loops at lines 766-785 and 833-851: frames floor(p) .. ceil(q) - 1.
    method Measure(ch: nat, p: real, q: real, min0: int, max0: int)
      returns (min: int, max: int, sum: real, sum2: real)
      requires Valid() && ch < channels && 0.0 <= p && Ceil(q) <= dataSize
      ensures min == Lowest(Samples(ch), p.Floor, Ceil(q), min0)
      ensures max == Highest(Samples(ch), p.Floor, Ceil(q), max0)
      ensures sum == UnitSum(Values(Samples(ch), false), p, q)
      ensures sum2 == UnitSum(Values(Samples(ch), true), p, q)
    {
      hide Valid, Address, Samples, Part, Frac, Values, Square;
      var dataPos := p.Floor;
      var frameCount := Ceil(q) - dataPos;
      var frac0, frac1 := dataPos as real + 1.0 - p, q + 1.0 - Ceil(q) as real;
      var samples := Address(channels, ch, dataPos);
      min, max, sum, sum2 := min0, max0, 0.0, 0.0;
      ghost var s := Samples(ch);
      var f := 0;
      while f < frameCount
        invariant 0 <= f && (frameCount >= 0 ==> f <= frameCount) && samples == Address(channels, ch, dataPos + f)
        invariant f > 0 ==> f <= frameCount
        invariant min == Lowest(s, dataPos, if frameCount < 0 then Ceil(q) else dataPos + f, min0)
        invariant max == Highest(s, dataPos, if frameCount < 0 then Ceil(q) else dataPos + f, max0)
        invariant sum == Weighted(Values(s, false), dataPos, frameCount, frac0, frac1, if frameCount < 0 then frameCount else f)
        invariant sum2 == Weighted(Values(s, true), dataPos, frameCount, frac0, frac1, if frameCount < 0 then frameCount else f)
      {
        SampleAt(ch, dataPos + f);
        NextAddress(channels, ch, dataPos + f);
        ValuesAt(s, dataPos + f);
        var sample := data[samples];
        var frac := Frac(f, frameCount, frac0, frac1);
        if sample < min {
          min := sample;
        }
        if sample > max {
          max := sample;
        }
        sum := sum + Part(sample as real, frac);
        sum2 := sum2 + Part(Square(sample), frac);
        f, samples := f + 1, samples + channels;
      }
    }

    lemma SampleAt(ch: nat, f: nat)
      requires Valid() && ch < channels && f < dataSize
      ensures Address(channels, ch, f) < data.Length && data[Address(channels, ch, f)] == Samples(ch)[f]
    {
      FrameIndex(channels, ch, dataSize, f);
    }

    // load: frames floor(b) .. ceil(b + d) - 1 of the file, as far as there are any.
    constructor Load(file: array<int>, chans: nat, frames: nat, b: real, d: real)
      requires chans > 0 && file.Length == frames * chans && Shorts(file[..])
      requires 0.0 <= b && 0.0 <= d && b.Floor <= frames
      ensures Valid() && fresh(data) && channels == chans && dataOffset == b.Floor
      ensures dataSize == Min(Ceil(b + d), frames) - b.Floor
      ensures forall ch :: 0 <= ch < chans ==>
                Samples(ch) == Channel(file[..], chans, ch, frames)[b.Floor..b.Floor + dataSize]
    {
      CeilFloor(b);
      CeilFloor(b + d);
      var offset: nat, size: nat := b.Floor, Min(Ceil(b + d), frames) - b.Floor;
      SliceFits(offset, size, frames, chans);
      var buffer := ReadFrames(file, offset * chans, size * chans);
      data, channels, dataOffset, dataSize := buffer, chans, offset, size;
      new;
      LoadedFrames(file[..], data[..], chans, frames, offset, size);
    }

    // integrate: the units of the window into n cells of the cache from at on.
    method Integrate(ch: nat, off: real, dur: real, caches: SoundCaches, at: nat, n: nat) returns (ok: bool)
      requires Valid() && caches.Valid() && 0.0 <= dur && 0 < n && at + n <= caches.size && channels == caches.channels
      modifies caches.min, caches.max, caches.sum, caches.sum2
      ensures ok <==> ch < channels && off >= dataOffset as real && off + dur <= (dataOffset + dataSize) as real
      ensures !ok ==> unchanged(caches.min) && unchanged(caches.max) && unchanged(caches.sum) && unchanged(caches.sum2)
      ensures ok ==>
        caches.Row(ch) == Spliced(old(caches.Row(ch)), at, WindowUnits(Samples(ch), off - dataOffset as real, dur, n))
      ensures forall r :: 0 <= r < channels && r != ch ==> caches.Row(r) == old(caches.Row(r))
      ensures ok ==>
        var s, start, step, cells := Samples(ch), off - dataOffset as real, dur / n as real, caches.Row(ch)[at..at + n];
        forall i: nat :: i < n ==> Holds(cells[i], s, Place(start, step, dur, i), Place(start, step, dur, i + 1))
      ensures ok && off == dataOffset as real && n as real <= dur ==>
        forall square :: SumOf(caches.Row(ch)[at..at + n], square) == UpTo(Values(Samples(ch), square), dur)
    {
      hide UnitSum, Lowest, Highest, Values, Pos, Samples, SoundCaches.Row, Spliced, SumOf, UpTo;
      ok := ch < channels && off >= dataOffset as real && off + dur <= dataOffset as real + dataSize as real;
      if !ok {
        return;
      }
      var fpu := dur / n as real;
      StepPositive(dur, n);
      var fPos := off - dataOffset as real;
      ghost var s, units := Samples(ch), WindowUnits(Samples(ch), fPos, dur, n);
      PosStep(fPos, fpu, dur, 0);
      ghost var row := caches.Row(ch);
      SplicedNone(row, at, units);
      for i := 0 to n
        invariant fPos == Pos(off - dataOffset as real, fpu, dur, i)
        invariant caches.Row(ch) == Spliced(row, at, units[..i])
        invariant forall r :: 0 <= r < channels && r != ch ==> caches.Row(r) == old(caches.Row(r))
      {
        PosStep(off - dataOffset as real, fpu, dur, i);
        PosBounds(off - dataOffset as real, fpu, dur, i);
        PosBounds(off - dataOffset as real, fpu, dur, i + 1);
        var fPos1 := fPos + fpu;
        if fPos1 > dur {
          fPos1 := dur;
        }
        var min, max, sum, sum2 := MeasureFrom(ch, fPos, fPos1, SHRT_MAX, SHRT_MIN);
        ExtremesFrom(s, fPos.Floor, Ceil(fPos1));
        assert units[i] == Unit(min, max, sum, sum2);
        caches.Put(ch, at + i, min, max, sum, sum2);
        SplicedOne(row, at, units, i);
        fPos := fPos1;
      }
      assert units[..n] == units;
      SplicedPart(row, at, units);
      SamplesShort(ch);
      WindowHolds(s, off - dataOffset as real, dur, n);
      if off == dataOffset as real && n as real <= dur {
        WholeMass(s, dur, n, false);
        WholeMass(s, dur, n, true);
      }
    }

    // displayData: the pixels of the window, read from the samples.
    method DisplayData(ch: nat, off: real, dur: real, out: Buffers, n: nat, sqrt: real -> real) returns (ok: bool)
      requires Valid() && out.Valid(n) && 0.0 < dur && 0 < n
      requires data != out.min && data != out.max && data != out.minRMS && data != out.maxRMS
      modifies out.min, out.max, out.minRMS, out.maxRMS
      ensures ok <==> ch < channels && off >= dataOffset as real && off + dur <= (dataOffset + dataSize) as real
      ensures !ok ==> unchanged(out.min) && unchanged(out.max) && unchanged(out.minRMS) && unchanged(out.maxRMS)
      ensures dur / n as real != 0.0
      ensures ok ==> out.Shows(WindowUnits(Samples(ch), off - dataOffset as real, dur, n), dur / n as real, sqrt, n)
      ensures ok && IsRoot(sqrt) ==>
        var s, start, step := Samples(ch), off - dataOffset as real, dur / n as real;
        forall i: nat :: i < n ==>
          out.Draws(i, s, s, Place(start, step, dur, i).Floor, Values(s, false), Values(s, true),
                    Place(start, step, dur, i), Place(start, step, dur, i + 1), step)
    {
      hide UnitSum, Lowest, Highest, Values, Pos, Samples, Rms, Buffers.Shows;
      StepPositive(dur, n);
      ok := ch < channels && off >= dataOffset as real && off + dur <= dataOffset as real + dataSize as real;
      if !ok {
        return;
      }
      var fpu := dur / n as real;
      var fPos := off - dataOffset as real;
      var min, max := SHRT_MAX, SHRT_MIN;
      ghost var s, units := Samples(ch), WindowUnits(Samples(ch), fPos, dur, n);
      PosStep(fPos, fpu, dur, 0);
      out.ShowsNothing(units, fpu, sqrt);
      for i := 0 to n
        invariant fPos == Pos(off - dataOffset as real, fpu, dur, i)
        invariant min == (if i == 0 then SHRT_MAX else Stretched(units, i - 1).1)
        invariant max == (if i == 0 then SHRT_MIN else Stretched(units, i - 1).0)
        invariant SHRT_MIN <= max <= SHRT_MAX && SHRT_MIN <= min <= SHRT_MAX
        invariant out.Shows(units, fpu, sqrt, i)
      {
        PosStep(off - dataOffset as real, fpu, dur, i);
        PosBounds(off - dataOffset as real, fpu, dur, i);
        PosBounds(off - dataOffset as real, fpu, dur, i + 1);
        var fPos1 := fPos + fpu;
        if fPos1 > dur {
          fPos1 := dur;
        }
        var lo, hi, sum, sum2 := MeasureFrom(ch, fPos, fPos1, min, max);
        out.Put(i, lo, hi, Rms(sum, sum2, fpu, sqrt), units, fpu, sqrt);
        fPos, min, max := fPos1, hi, lo;
      }
      if IsRoot(sqrt) {
        SamplesShort(ch);
        WindowDrawn(out, s, off - dataOffset as real, dur, n, sqrt);
      }
    }

    // The extremes taken on from the pixel before.
    method MeasureFrom(ch: nat, p: real, q: real, min0: int, max0: int)
      returns (min: int, max: int, sum: real, sum2: real)
      requires Valid() && ch < channels && 0.0 <= p && q <= dataSize as real
      requires SHRT_MIN <= min0 <= SHRT_MAX && SHRT_MIN <= max0 <= SHRT_MAX
      ensures Ceil(q) <= dataSize
      ensures var u := UnitOf(Samples(ch), p, q);
              min == Min(min0, u.min) && max == Max(max0, u.max) && sum == u.sum && sum2 == u.sum2
      ensures SHRT_MIN <= min <= SHRT_MAX && SHRT_MIN <= max <= SHRT_MAX
    {
      hide UnitSum, Lowest, Highest, Values, Samples;
      CeilFloor(q);
      ghost var s := Samples(ch);
      SamplesShort(ch);
      LowestStart(s, p.Floor, Ceil(q), min0);
      HighestStart(s, p.Floor, Ceil(q), max0);
      ExtremesShort(s, p.Floor, Ceil(q));
      min, max, sum, sum2 := Measure(ch, p, q, min0, max0);
    }

    lemma SamplesShort(ch: nat)
      requires Valid() && ch < channels
      ensures Shorts(Samples(ch))
    {
      forall f | 0 <= f < dataSize
        ensures SHRT_MIN <= Samples(ch)[f] <= SHRT_MAX
      {
        SampleAt(ch, f);
      }
    }
  }

  // A window shown is drawn as its samples and the closed form of its positions say.
  lemma WindowDrawn(out: Buffers, s: seq<int>, start: real, dur: real, n: nat, sqrt: real -> real)
    requires out.Valid(n) && n > 0 && 0.0 <= start && 0.0 < dur <= |s| as real && Shorts(s) && IsRoot(sqrt)
    requires dur / n as real != 0.0 && out.Shows(WindowUnits(s, start, dur, n), dur / n as real, sqrt, n)
    ensures var step := dur / n as real;
            forall i: nat :: i < n ==>
              out.Draws(i, s, s, Place(start, step, dur, i).Floor, Values(s, false), Values(s, true),
                        Place(start, step, dur, i), Place(start, step, dur, i + 1), step)
  {
    hide UnitSum, Lowest, Highest, Values, Pos, Place, Buffers.Shows, Buffers.Draws, Rms, ShortUnits, WindowUnits, IsRoot, Ceil;
    var step, units := dur / n as real, WindowUnits(s, start, dur, n);
    StepPositive(dur, n);
    UnitsShort(s, start, dur, n);
    forall i: nat | i < n
      ensures out.Draws(i, s, s, Place(start, step, dur, i).Floor, Values(s, false), Values(s, true),
                        Place(start, step, dur, i), Place(start, step, dur, i + 1), step)
    {
      UnitPlaced(s, start, dur, n, i);
      var p, q := Place(start, step, dur, i), Place(start, step, dur, i + 1);
      out.ShownDraws(units, step, sqrt, n, i, s, s, p.Floor, Values(s, false), Values(s, true), p, q);
    }
  }

  lemma UnitPlaced(s: seq<int>, start: real, dur: real, n: nat, i: nat)
    requires n > 0 && 0.0 <= start && 0.0 <= dur <= |s| as real && i < n
    ensures 0.0 <= dur / n as real
    ensures var p, q := Place(start, dur / n as real, dur, i), Place(start, dur / n as real, dur, i + 1);
            && 0.0 <= p && 0.0 <= q <= dur && Ceil(q) <= |s| && 0 <= p.Floor
            && WindowUnits(s, start, dur, n)[i] == UnitOf(s, p, q)
  {
    hide UnitOf, Pos, Place;
    StepPositive(dur, n);
    var step := dur / n as real;
    PosIsPlace(start, step, dur, i);
    PosIsPlace(start, step, dur, i + 1);
    PosBounds(start, step, dur, i);
    PosBounds(start, step, dur, i + 1);
    CeilFloor(Pos(start, step, dur, i + 1));
  }

  lemma WindowHolds(s: seq<int>, start: real, dur: real, n: nat)
    requires n > 0 && 0.0 <= start && 0.0 <= dur <= |s| as real && Shorts(s)
    ensures var step := dur / n as real;
            forall i: nat :: i < n ==>
              Holds(WindowUnits(s, start, dur, n)[i], s, Place(start, step, dur, i), Place(start, step, dur, i + 1))
  {
    hide UnitOf, Place, WindowUnits, Holds;
    forall i: nat | i < n
      ensures var step := dur / n as real;
              Holds(WindowUnits(s, start, dur, n)[i], s, Place(start, step, dur, i), Place(start, step, dur, i + 1))
    {
      UnitPlaced(s, start, dur, n, i);
      UnitHolds(s, Place(start, dur / n as real, dur, i), Place(start, dur / n as real, dur, i + 1));
    }
  }

  lemma UnitsShort(s: seq<int>, start: real, dur: real, n: nat)
    requires n > 0 && 0.0 <= start && 0.0 < dur <= |s| as real && Shorts(s)
    ensures ShortUnits(WindowUnits(s, start, dur, n))
  {
    hide UnitSum, Lowest, Highest, Values, Place, WindowUnits, Ceil;
    forall i | 0 <= i < n
      ensures var u := WindowUnits(s, start, dur, n)[i];
              SHRT_MIN <= u.min <= SHRT_MAX && SHRT_MIN <= u.max <= SHRT_MAX
    {
      UnitPlaced(s, start, dur, n, i);
      var p, q := Place(start, dur / n as real, dur, i), Place(start, dur / n as real, dur, i + 1);
      AtMost(s, p.Floor, Ceil(q));
      ExtremesShort(s, p.Floor, Ceil(q));
    }
  }

  lemma PosStep(start: real, step: real, limit: real, i: nat)
    ensures Pos(start, step, limit, 0) == start
    ensures Pos(start, step, limit, i + 1)
            == (if Pos(start, step, limit, i) + step > limit then limit else Pos(start, step, limit, i) + step)
  {
  }

  lemma ExtremesFrom(s: seq<int>, lo: int, hi: int)
    requires 0 <= lo && hi <= |s|
    ensures Min(SHRT_MAX, Lowest(s, lo, hi, SHRT_MAX)) == Lowest(s, lo, hi, SHRT_MAX)
    ensures Max(SHRT_MIN, Highest(s, lo, hi, SHRT_MIN)) == Highest(s, lo, hi, SHRT_MIN)
  {
    AtMost(s, lo, hi);
  }

  lemma {:induction false} ExtremesShort(s: seq<int>, lo: int, hi: int)
    requires 0 <= lo && hi <= |s| && Shorts(s)
    ensures SHRT_MIN <= Lowest(s, lo, hi, SHRT_MAX) && Highest(s, lo, hi, SHRT_MIN) <= SHRT_MAX
    decreases hi - lo
  {
    if hi > lo {
      ExtremesShort(s, lo, hi - 1);
    }
  }

  // sf_seek and sf_readf_short.
  method ReadFrames(file: array<int>, start: nat, count: nat) returns (buffer: array<int>)
    requires start + count <= file.Length
    ensures fresh(buffer) && buffer[..] == file[start..start + count]
  {
    buffer := new int[count];
    for i := 0 to count
      invariant buffer[..i] == file[start..start + i]
    {
      buffer[i] := file[start + i];
    }
  }

  lemma LoadedFrames(file: seq<int>, data: seq<int>, channels: nat, frames: nat, offset: nat, size: nat)
    requires offset + size <= frames && |file| == frames * channels && Shorts(file)
    requires offset * channels + size * channels <= frames * channels
    requires data == file[offset * channels..offset * channels + size * channels]
    ensures |data| == size * channels && Shorts(data)
    ensures forall ch :: 0 <= ch < channels ==>
              Channel(data, channels, ch, size) == Channel(file, channels, ch, frames)[offset..offset + size]
  {
    hide Sample;
    var from := offset * channels;
    forall ch | 0 <= ch < channels
      ensures Channel(data, channels, ch, size) == Channel(file, channels, ch, frames)[offset..offset + size]
    {
      forall f | 0 <= f < size
        ensures Channel(data, channels, ch, size)[f] == Channel(file, channels, ch, frames)[offset + f]
      {
        ReadFrame(file, data, channels, ch, frames, offset, size, f);
      }
    }
  }

  lemma SliceFits(offset: nat, size: nat, frames: nat, channels: nat)
    requires offset + size <= frames
    ensures offset * channels + size * channels <= frames * channels
  {
    assert (frames - offset - size) * channels >= 0;
    assert (frames - offset - size) * channels == frames * channels - offset * channels - size * channels;
  }

  lemma ReadFrame(file: seq<int>, data: seq<int>, channels: nat, ch: nat, frames: nat, offset: nat, size: nat, f: nat)
    requires ch < channels && offset + size <= frames && f < size
    requires |file| == frames * channels && |data| == size * channels
    requires offset * channels + size * channels <= frames * channels
    requires forall k :: 0 <= k < |data| ==> data[k] == file[offset * channels + k]
    ensures Channel(data, channels, ch, size)[f] == Channel(file, channels, ch, frames)[offset + f]
  {
    FrameIndex(channels, ch, size, f);
    FrameIndex(channels, ch, frames, offset + f);
    assert (offset + f) * channels == offset * channels + f * channels;
  }

  // One frame of value 8 in two units: half of the frame is 4, and the first unit
  // ends inside it and counts 8.
  method ShortUnit() returns (caches: SoundCaches, ok: bool)
    ensures caches.Valid() && caches.channels == 1 && caches.size == 2 && ok
    ensures caches.Row(0)[0].sum == 8.0 && Integral(Values([8], false), 0.0, 0.5) == 4.0
  {
    hide SoundFileStream.Samples, SoundCaches.Row, WindowUnits, UnitSum, Spliced, SumOf, Channel;
    var file := new int[1](_ => 8);
    assert file[..] == [8];
    var st := new SoundFileStream.Load(file, 1, 1, 0.0, 1.0);
    caches := new SoundCaches(1, 2);
    OneSample([8]);
    ghost var row := caches.Row(0);
    ok := st.Integrate(0, 0.0, 1.0, caches, 0, 2);
    FirstHalf(st.Samples(0));
    SplicedPart(row, 0, WindowUnits(st.Samples(0), 0.0, 1.0, 2));
    assert caches.Row(0) == caches.Row(0)[0..2];
  }

  lemma OneSample(f: seq<int>)
    requires |f| == 1
    ensures Channel(f, 1, 0, 1) == f && Channel(f, 1, 0, 1)[0..1] == f
  {
  }

  lemma FirstHalf(s: seq<int>)
    requires s == [8]
    ensures WindowUnits(s, 0.0, 1.0, 2)[0].sum == 8.0 && Integral(Values(s, false), 0.0, 0.5) == 4.0
  {
    var v := Values(s, false);
    assert Pos(0.0, 0.5, 1.0, 0) == 0.0 && Pos(0.0, 0.5, 1.0, 1) == 0.5;
    assert v[0] == 8.0 && 0.0.Floor == 0 && 0.5.Floor == 0;
    assert Total(v, 0) == 0.0;
    hide UnitSum, Pos;
    UnitTooShort(v, 0.0, 0.5);
    assert WindowUnits(s, 0.0, 1.0, 2)[0] == UnitAt(s, 0.0, 0.5, 1.0, 0);
  }
}
