// The cached display agrees with the direct one.
module WaveformDisplay {
  import opened Waveform
  import opened WaveformCache
  import opened Pixels
  import opened SoundFileView
  import opened SoundCacheView

  // With u frames per unit, u a whole number, the loader's chunks aggregate
  // exactly the frames k * u .. (k + 1) * u - 1 into cell k.
  lemma LoaderFills(s: seq<int>, u: nat, size: nat)
    requires 1 <= u && size * u <= |s|
    ensures Part(u as real, size as real) <= |s| as real
    ensures CellsOf(CellUnits(s, u as real, size)).Filled(s, u)
  {
    hide CellUnits, Cells.Cell;
    WholeProduct(u, size);
    var cells := CellsOf(CellUnits(s, u as real, size));
    forall k | 0 <= k < size
      ensures cells.Cell(s, u, k)
    {
      LoadedCell(s, u, size, k);
    }
  }

  lemma LoadedCell(s: seq<int>, u: nat, size: nat, k: nat)
    requires 1 <= u && size * u <= |s| && k < size && Part(u as real, size as real) <= |s| as real
    ensures CellsOf(CellUnits(s, u as real, size)).Cell(s, u, k)
  {
    hide Lowest, Highest, Total, Values, UnitSum, Part;
    Fits(size, u, k);
    WholeProduct(u, k);
    WholeProduct(u, k + 1);
    WholeProduct(u, k - k % 1000);
    WholeFloor((k - k % 1000) * u);
    WholeUnit(Values(s, false), k * u, (k + 1) * u);
    WholeUnit(Values(s, true), k * u, (k + 1) * u);
    assert CellEnd(u as real, size, k) == ((k + 1) * u) as real;
    assert CellUnits(s, u as real, size)[k] == CellUnit(s, u as real, size, k);
  }

  lemma WindowAt(s: seq<int>, u: nat, n: nat, j: nat)
    requires 1 <= u && j < n && n * u <= |s|
    ensures WindowUnits(s, 0.0, (n * u) as real, n)[j] == UnitAt(s, 0.0, u as real, (n * u) as real, j)
  {
    hide UnitAt;
    StepIs(u, n);
  }

  lemma StepIs(u: nat, n: nat)
    requires n > 0
    ensures (n * u) as real / n as real == u as real
  {
    assert (n * u) as real == n as real * u as real;
  }

  lemma WholeFloor(k: nat)
    ensures (k as real).Floor == k && Ceil(k as real) == k
  {
    CeilFloor(k as real);
  }

  // A window of width pixels of r whole units from unit a on: the same units
  // from the cache and from the file.
  lemma WindowsAgree(s: seq<int>, u: nat, size: nat, a: nat, r: nat, width: nat)
    requires 1 <= u && size * u <= |s| && 1 <= r && 1 <= width && a + width * r <= size
    ensures Part(u as real, size as real) <= |s| as real
    ensures 0 <= a * u <= a * u + width * (r * u) <= |s|
    ensures var off, dur := (a * u) as real, (width * (r * u)) as real;
            && off / u as real == a as real && dur / u as real / width as real == r as real
            && CacheUnits(CellsOf(CellUnits(s, u as real, size)), a as real, r as real, width)
               == WindowUnits(s[a * u..a * u + width * (r * u)], 0.0, dur, width)
  {
    hide CellUnits, UnitAt, Cells.UnitAt, Cells.Filled, CellsOf;
    LoaderFills(s, u, size);
    Quotients(a, u, r, width);
    var cells := CellsOf(CellUnits(s, u as real, size));
    PixelAgrees(cells, s, u, a, r, width, 0);
    var direct := WindowUnits(s[a * u..a * u + width * (r * u)], 0.0, (width * (r * u)) as real, width);
    forall i | 0 <= i < width
      ensures CacheUnits(cells, a as real, r as real, width)[i] == direct[i]
    {
      PixelAgrees(cells, s, u, a, r, width, i);
      Reassociate(width, r, u);
      WindowAt(s[a * u..a * u + width * (r * u)], r * u, width, i);
    }
  }

  lemma Quotients(a: nat, u: nat, r: nat, width: nat)
    requires 1 <= u && 1 <= width
    ensures (a * u) as real / u as real == a as real
    ensures (width * (r * u)) as real / u as real / width as real == r as real
  {
    StepIs(a, u);
    assert a * u == u * a;
    assert width * (r * u) == u * (width * r) by {
      Reassociate(width, r, u);
    }
    StepIs(width * r, u);
    StepIs(r, width);
  }

  // Both displays of a window of whole units, one from the cache and one from the
  // file, fill the buffers with the same minima, maxima and RMS lines: those of the
  // frames of each pixel.
  method DisplayTwice(file: array<int>, cache: SoundCacheStream, ch: nat, u: nat, a: nat, r: nat, width: nat,
                      sqrt: real -> real)
    returns (cached: Buffers, direct: Buffers)
    requires cache.Valid() && cache.ready && ch < cache.channels
    requires file.Length == cache.frames * cache.channels && Shorts(file[..])
    requires cache.Loaded(Channel(file[..], cache.channels, ch, cache.frames), ch, cache.size)
    requires 1 <= u && cache.fpu == u as real && 1 <= r && 1 <= width && a + width * r <= cache.size
    ensures cached.Valid(width) && direct.Valid(width)
    ensures forall i :: 0 <= i < width ==>
              && cached.min[i] == direct.min[i] && cached.max[i] == direct.max[i]
              && cached.minRMS[i] == direct.minRMS[i] && cached.maxRMS[i] == direct.maxRMS[i]
    ensures a * u + width * (r * u) <= cache.frames
    ensures var f, w := Channel(file[..], cache.channels, ch, cache.frames)[a * u..a * u + width * (r * u)], r * u;
            IsRoot(sqrt) ==> forall i: nat :: i < width ==> DrawsFrames(cached, f, w, i) && DrawsFrames(direct, f, w, i)
  {
    hide CellUnits, CacheUnits, WindowUnits, CellsOf, Channel, Part, Buffers.Shows, SoundCacheStream.Loaded,
         SoundCacheStream.Valid;
    ghost var s := Channel(file[..], cache.channels, ch, cache.frames);
    cached := new Buffers(width);
    direct := new Buffers(width);
    WindowFacts(cache, s, u, a, r, width);
    DisplayCached(cache, s, ch, u, a, r, width, sqrt, cached);
    DisplayDirect(file, cache.channels, cache.frames, ch, u, a, r, width, sqrt, direct);
    SameShown(cached, direct, Direct(s, u, a, r, width), (r * u) as real, sqrt, width);
    if IsRoot(sqrt) {
      ShortChannel(file[..], cache.channels, ch, cache.frames);
      DirectDrawn(cached, s, u, a, r, width, sqrt);
      DirectDrawn(direct, s, u, a, r, width, sqrt);
    }
  }

  // Pixel i shows frames i * w .. (i + 1) * w - 1 of f.
  ghost predicate DrawsFrames(out: Buffers, f: seq<int>, w: nat, i: nat)
    requires out.Valid(i + 1)
    reads out.min, out.max, out.minRMS, out.maxRMS
  {
    out.Draws(i, f, f, i * w, Values(f, false), Values(f, true), (i * w) as real, ((i + 1) * w) as real, w as real)
  }

  lemma DirectDrawn(out: Buffers, s: seq<int>, u: nat, a: nat, r: nat, width: nat, sqrt: real -> real)
    requires out.Valid(width) && 1 <= width && 1 <= r * u && a * u + width * (r * u) <= |s| && Shorts(s) && IsRoot(sqrt)
    requires out.Shows(Direct(s, u, a, r, width), (r * u) as real, sqrt, width)
    ensures var f, w := s[a * u..a * u + width * (r * u)], r * u;
            forall i: nat :: i < width ==> DrawsFrames(out, f, w, i)
  {
    hide Buffers.Shows, Buffers.Draws, WindowUnits, Place, Values, IsRoot;
    var w := r * u;
    var f := s[a * u..a * u + width * w];
    StepIs(w, width);
    Positive(width, w);
    WindowDrawn(out, f, 0.0, (width * w) as real, width, sqrt);
    forall i: nat | i < width
      ensures DrawsFrames(out, f, w, i)
    {
      WholePlace(w, width, i);
      WholePlace(w, width, i + 1);
      WholeFloor(i * w);
    }
  }

  lemma Positive(width: nat, w: nat)
    requires 1 <= width && 1 <= w
    ensures 0.0 < (width * w) as real
  {
  }

  lemma WholePlace(w: nat, width: nat, i: nat)
    requires i <= width
    ensures Place(0.0, w as real, (width * w) as real, i) == (i * w) as real
  {
    hide Pos, Place;
    PosIsPlace(0.0, w as real, (width * w) as real, i);
    WholePos(0, w, width * w, width, i);
  }

  lemma ShortChannel(data: seq<int>, channels: nat, ch: nat, frames: nat)
    requires ch < channels && frames * channels == |data| && Shorts(data)
    ensures Shorts(Channel(data, channels, ch, frames))
  {
    hide Sample;
    forall f | 0 <= f < frames
      ensures SHRT_MIN <= Channel(data, channels, ch, frames)[f] <= SHRT_MAX
    {
      FrameIndex(channels, ch, frames, f);
      SampleIs(data, channels, ch, frames, f);
    }
  }

  lemma SampleIs(data: seq<int>, channels: nat, ch: nat, frames: nat, f: nat)
    requires ch < channels && f < frames && frames * channels <= |data|
    ensures 0 <= f * channels + ch < |data| && Sample(data, channels, ch, frames, f) == data[f * channels + ch]
  {
    FrameIndex(channels, ch, frames, f);
  }

  // The units of the window, taken from the frames.
  ghost function Direct(s: seq<int>, u: nat, a: nat, r: nat, width: nat): (units: seq<Unit>)
    requires 1 <= width && a * u + width * (r * u) <= |s|
    ensures |units| == width
  {
    WindowUnits(s[a * u..a * u + width * (r * u)], 0.0, (width * (r * u)) as real, width)
  }

  method DisplayCached(cache: SoundCacheStream, ghost s: seq<int>, ch: nat, u: nat, a: nat, r: nat, width: nat,
                       sqrt: real -> real, out: Buffers)
    requires cache.Valid() && cache.ready && ch < cache.channels && |s| == cache.frames
    requires cache.Loaded(s, ch, cache.size) && 1 <= u && cache.fpu == u as real && out.Valid(width)
    requires 1 <= r && 1 <= width && a + width * r <= cache.size && a * u + width * (r * u) <= |s|
    modifies out.min, out.max, out.minRMS, out.maxRMS
    ensures r * u >= 1 && out.Shows(Direct(s, u, a, r, width), (r * u) as real, sqrt, width)
  {
    hide CellUnits, CacheUnits, WindowUnits, CellsOf, Part, Buffers.Shows, SoundCaches.Row;
    WindowFacts(cache, s, u, a, r, width);
    StepIs(r * u, width);
    Reassociate(width, r, u);
    ghost var row := cache.caches.Row(ch);
    ghost var cells := CellUnits(s, u as real, cache.size);
    assert row == row[..cache.size] == cells[..cache.size] == cells;
    var ok := cache.DisplayData(ch, (a * u) as real, (width * (r * u)) as real, out, width, sqrt);
    assert ok;
  }

  method DisplayDirect(file: array<int>, channels: nat, frames: nat, ch: nat, u: nat, a: nat, r: nat, width: nat,
                       sqrt: real -> real, out: Buffers)
    requires ch < channels && file.Length == frames * channels && Shorts(file[..]) && out.Valid(width)
    requires 1 <= u && 1 <= r && 1 <= width && a * u + width * (r * u) <= frames
    modifies out.min, out.max, out.minRMS, out.maxRMS
    ensures r * u >= 1
    ensures out.Shows(Direct(Channel(old(file[..]), channels, ch, frames), u, a, r, width), (r * u) as real, sqrt, width)
  {
    hide WindowUnits, Part, Buffers.Shows, Channel, SoundFileStream.Samples;
    StepIs(r * u, width);
    Reassociate(width, r, u);
    WholeFloor(a * u);
    WholeFloor(a * u + width * (r * u));
    WideEnough(width, r, u);
    var stream := new SoundFileStream.Load(file, channels, frames, (a * u) as real, (width * (r * u)) as real);
    var ok := stream.DisplayData(ch, (a * u) as real, (width * (r * u)) as real, out, width, sqrt);
    assert ok;
  }

  lemma SameShown(x: Buffers, y: Buffers, units: seq<Unit>, n: real, sqrt: real -> real, width: nat)
    requires x.Valid(width) && y.Valid(width) && n != 0.0 && width <= |units|
    requires x.Shows(units, n, sqrt, width) && y.Shows(units, n, sqrt, width)
    ensures forall i :: 0 <= i < width ==>
              x.min[i] == y.min[i] && x.max[i] == y.max[i] && x.minRMS[i] == y.minRMS[i] && x.maxRMS[i] == y.maxRMS[i]
  {
    hide Rms, Stretched;
  }

  lemma WindowFacts(cache: SoundCacheStream, s: seq<int>, u: nat, a: nat, r: nat, width: nat)
    requires cache.Valid() && |s| == cache.frames && 1 <= u && cache.fpu == u as real
    requires 1 <= r && 1 <= width && a + width * r <= cache.size
    ensures var off, dur := (a * u) as real, (width * (r * u)) as real;
            && 0.0 < dur && 0 <= a * u <= a * u + width * (r * u) <= |s| && off + dur <= |s| as real
            && width as real <= dur * cache.fpu
            && off.Floor == a * u && Ceil(off + dur) == a * u + width * (r * u)
            && off / u as real == a as real && dur / u as real / width as real == r as real
            && CacheUnits(CellsOf(CellUnits(s, u as real, cache.size)), a as real, r as real, width)
               == WindowUnits(s[a * u..a * u + width * (r * u)], 0.0, dur, width)
  {
    hide CellUnits, CacheUnits, WindowUnits, CellsOf, Part;
    WholeProduct(u, cache.size);
    WindowsAgree(s, u, cache.size, a, r, width);
    WholeFloor(a * u);
    WholeFloor(a * u + width * (r * u));
    WideEnough(width, r, u);
  }

  lemma WideEnough(width: nat, r: nat, u: nat)
    requires 1 <= width && 1 <= r && 1 <= u
    ensures width <= width * (r * u) && width as real <= (width * (r * u)) as real * u as real
  {
    assert r * u >= 1;
    assert width * (r * u - 1) >= 0;
    assert width * (r * u) >= width;
    var d := (width * (r * u)) as real;
    assert d * (u - 1) as real >= 0.0;
    assert d * u as real == d * (u - 1) as real + d;
  }
}
