// SoundCacheStream and SoundCacheLoader.
module SoundCacheView {
  // Aggregates of the whole file (QcSoundFileView.cpp), and displays computed from them.

  import opened Numbers
  import opened Waveform
  import opened WaveformCache
  import opened Pixels
  import opened SoundFileView

  // load, lines 911-922: the number of cells, and the frames per cell.
  function Shape(frames: nat, maxFramesPerUnit: nat, maxRawFrames: nat): (nat, real)
    requires maxRawFrames > 0 && maxFramesPerUnit > 0
  {
    if frames <= maxRawFrames then (frames, 1.0)
    else
      var fpu := frames as real / maxRawFrames as real;
      if fpu > maxFramesPerUnit as real then (frames / maxFramesPerUnit, maxFramesPerUnit as real)
      else (maxRawFrames, fpu)
  }

  // A file that is short enough has a cell per frame.  Any other has maxRawFrames cells
  // that cover it exactly, unless a cell then had more than maxFramesPerUnit frames: then
  // it has that many, and the cells, no fewer, cover the file up to less than one of them.
  lemma ShapeCovers(frames: nat, maxFramesPerUnit: nat, maxRawFrames: nat)
    requires maxRawFrames > 0 && maxFramesPerUnit > 0
    ensures var (size, fpu) := Shape(frames, maxFramesPerUnit, maxRawFrames);
            && fpu >= 1.0 && Part(fpu, size as real) <= frames as real < Part(fpu, (size + 1) as real)
            && (fpu == 1.0 || fpu <= maxFramesPerUnit as real)
            && (frames <= maxRawFrames ==> size == frames && fpu == 1.0)
            && (maxRawFrames < frames <= maxFramesPerUnit * maxRawFrames ==>
                  size == maxRawFrames && Part(fpu, size as real) == frames as real)
            && (maxRawFrames < frames && maxFramesPerUnit * maxRawFrames < frames ==>
                  size >= maxRawFrames && fpu == maxFramesPerUnit as real)
  {
    TooMany(frames, maxFramesPerUnit, maxRawFrames);
    if frames <= maxRawFrames {
    } else if frames as real / maxRawFrames as real > maxFramesPerUnit as real {
      TruncatedShape(frames, maxFramesPerUnit);
      MoreCells(frames, maxFramesPerUnit, maxRawFrames);
    } else {
      ExactShape(frames, maxRawFrames);
    }
  }

  lemma TooMany(frames: nat, m: nat, n: nat)
    requires n > 0
    ensures frames as real / n as real > m as real <==> m * n < frames
  {
    var x := frames as real / n as real;
    assert x * n as real == frames as real;
    WholeProduct(m, n);
    Times(x, m as real, n as real);
  }

  lemma Times(x: real, y: real, n: real)
    requires n > 0.0
    ensures x > y <==> x * n > Part(y, n)
  {
    Difference(x, y, n);
  }

  lemma Difference(x: real, y: real, n: real)
    requires n > 0.0
    ensures x * n - Part(y, n) == Part(x - y, n)
    ensures Part(x - y, n) > 0.0 <==> x - y > 0.0
  {
  }

  lemma MoreCells(frames: nat, m: nat, n: nat)
    requires m > 0 && m * n < frames
    ensures frames / m >= n
  {
    var k := frames / m;
    assert frames < k * m + m;
    Below(k, n, m);
  }

  lemma Below(k: nat, n: nat, m: nat)
    ensures k < n ==> k * m + m <= m * n
  {
    if k < n {
      Fits(n, m, k);
    }
  }

  lemma TruncatedShape(frames: nat, m: nat)
    requires m > 0
    ensures var size := frames / m;
            Part(m as real, size as real) <= frames as real < Part(m as real, (size + 1) as real)
  {
    var size := frames / m;
    assert size * m <= frames < size * m + m;
    WholeProduct(m, size);
    WholeProduct(m, size + 1);
    assert (size + 1) * m == size * m + m;
  }

  lemma ExactShape(frames: nat, n: nat)
    requires 0 < n < frames
    ensures var fpu := frames as real / n as real;
            fpu >= 1.0 && Part(fpu, n as real) == frames as real < Part(fpu, (n + 1) as real)
  {
    var fpu := frames as real / n as real;
    StepSize(frames as real, n);
    Parts(fpu, (n + 1) as real, n as real);
    assert (n + 1) as real - n as real == 1.0;
  }

  // Lines 1071-1080: the chunk of n cells from i on, read and integrated by a
  // file stream of its own.
  function ChunkUnits(s: seq<int>, fpu: real, i: nat, n: nat): (r: seq<Unit>)
    requires fpu >= 1.0 && 0 < n && Part(fpu, (i + n) as real) <= |s| as real
    ensures |r| == n
  {
    ChunkBounds(fpu, i, n, i + n, |s|);
    var off, dur := Part(fpu, i as real), Part(fpu, n as real);
    WindowUnits(s[off.Floor..Min(Ceil(off + dur), |s|)], off - off.Floor as real, dur, n)
  }

  // The fraction of a frame at which the chunk of cell k begins.
  function ChunkStart(fpu: real, k: nat): real {
    var b := Part(fpu, (k - k % 1000) as real);
    b - b.Floor as real
  }

  predicate LastOfChunk(size: nat, k: nat) {
    k % 1000 == 999 || k + 1 == size
  }

  // Where cell k ends.  Chunks that begin inside a frame lose that much at the end.
  function CellEnd(fpu: real, size: nat, k: nat): real {
    Part(fpu, (k + 1) as real) - (if LastOfChunk(size, k) then ChunkStart(fpu, k) else 0.0)
  }

  lemma CellBounds(fpu: real, size: nat, k: nat, frames: nat)
    requires fpu >= 1.0 && k < size && Part(fpu, size as real) <= frames as real
    ensures 0.0 <= ChunkStart(fpu, k) < 1.0
    ensures 0.0 <= Part(fpu, k as real) < CellEnd(fpu, size, k) <= Part(fpu, (k + 1) as real) <= frames as real
    ensures Part(fpu, (k + 1) as real) == Part(fpu, k as real) + fpu && Ceil(CellEnd(fpu, size, k)) <= frames
  {
    hide Part;
    CeilFloor(Part(fpu, (k - k % 1000) as real));
    CeilFloor(CellEnd(fpu, size, k));
    PartPositive(fpu, k as real);
    Parts(fpu, (k + 1) as real, k as real);
    Parts(fpu, 0.0, 0.0);
    PartOne(fpu);
    Parts(fpu, size as real, (k + 1) as real);
    PartPositive(fpu, (size - k - 1) as real);
    assert (k + 1) as real - k as real == 1.0 && size as real - (k + 1) as real == (size - k - 1) as real;
  }

  lemma PartOne(v: real)
    ensures Part(v, 1.0) == v
  {
  }

  // Cell k of a cache of size cells: the aggregates of the frames from k * fpu to its end.
  function CellUnit(s: seq<int>, fpu: real, size: nat, k: nat): Unit
    requires fpu >= 1.0 && k < size && Part(fpu, size as real) <= |s| as real
  {
    CellBounds(fpu, size, k, |s|);
    UnitOf(s, Part(fpu, k as real), CellEnd(fpu, size, k))
  }

  function CellUnits(s: seq<int>, fpu: real, size: nat): (r: seq<Unit>)
    requires fpu >= 1.0 && Part(fpu, size as real) <= |s| as real
    ensures |r| == size
  {
    seq(size, k requires 0 <= k < size => CellUnit(s, fpu, size, k))
  }

  // The sums of cell k: what the frames from k * fpu to (k + 1) * fpu amount to,
  // less the part cut off at the end of the chunk.
  lemma CellSums(s: seq<int>, fpu: real, size: nat, k: nat, square: bool)
    requires fpu >= 1.0 && k < size && Part(fpu, size as real) <= |s| as real
    ensures var v, u := Values(s, square), CellUnit(s, fpu, size, k);
            var p, q, r := Part(fpu, k as real), CellEnd(fpu, size, k), Part(fpu, (k + 1) as real);
            && 0.0 <= p < q <= r == p + fpu <= |s| as real
            && (if square then u.sum2 else u.sum) == Integral(v, p, r) - Integral(v, q, r) + Excess(v, p, q)
            && r - q == (if LastOfChunk(size, k) then ChunkStart(fpu, k) else 0.0)
            && (q == r ==> Excess(v, p, q) == 0.0)
  {
    hide Part, Values, UpTo, UnitSum, Lowest, Highest;
    CellBounds(fpu, size, k, |s|);
    UnitExact(Values(s, square), Part(fpu, k as real), CellEnd(fpu, size, k));
  }

  // Its extremes are those of the frames it touches.
  lemma CellHolds(s: seq<int>, fpu: real, size: nat, k: nat)
    requires fpu >= 1.0 && k < size && Part(fpu, size as real) <= |s| as real && Shorts(s)
    ensures Holds(CellUnit(s, fpu, size, k), s, Part(fpu, k as real), CellEnd(fpu, size, k))
  {
    hide Part, UnitOf, Holds, CellEnd;
    CellBounds(fpu, size, k, |s|);
    UnitHolds(s, Part(fpu, k as real), CellEnd(fpu, size, k));
  }

  // All cells are whole exactly when every chunk begins at a frame.
  lemma WholeCells(fpu: real, size: nat)
    requires fpu >= 1.0
    ensures (forall k: nat :: k < size ==> CellEnd(fpu, size, k) == Part(fpu, (k + 1) as real))
            <==> forall k: nat :: k < size ==> ChunkStart(fpu, k) == 0.0
  {
    hide Part;
    if forall k: nat :: k < size ==> CellEnd(fpu, size, k) == Part(fpu, (k + 1) as real) {
      forall k: nat | k < size
        ensures ChunkStart(fpu, k) == 0.0
      {
        var i := k - k % 1000;
        var last := if size - i < 1000 then size - 1 else i + 999;
        InChunk(i, last - i);
        assert LastOfChunk(size, last) && CellEnd(fpu, size, last) == Part(fpu, (last + 1) as real);
      }
    }
  }

  // 3002 frames in 3000 cells: the second chunk begins two thirds into frame 1000,
  // and its last cell, 1999, is cut to 501/1500 of frame 2000 - and its sum counts
  // 1001/1500 of that frame.
  lemma CutCell(s: seq<int>)
    requires |s| == 3002
    ensures Shape(3002, 1000, 3000) == (3000, 1501.0 / 1500.0)
    ensures var fpu := 1501.0 / 1500.0;
            && ChunkStart(fpu, 1999) == 2.0 / 3.0
            && Part(fpu, 1999.0) == 2000.0 + 499.0 / 1500.0
            && CellEnd(fpu, 3000, 1999) == 2000.0 + 1000.0 / 1500.0 < Part(fpu, 2000.0)
            && CellUnit(s, fpu, 3000, 1999).sum == Part(s[2000] as real, 1001.0 / 1500.0)
  {
    hide Lowest, Highest;
    var fpu, v := 1501.0 / 1500.0, Values(s, false);
    assert Part(fpu, 1000.0) == 1000.0 + 2.0 / 3.0;
    assert Part(fpu, 1000.0).Floor == 1000;
    var p, q := Part(fpu, 1999.0), CellEnd(fpu, 3000, 1999);
    assert p.Floor == 2000 && Ceil(q) == 2001;
    OneFrame(v, 2000, 1, 1001.0 / 1500.0, q + 1.0 - Ceil(q) as real);
  }

  // A chunk, read and integrated on its own, has the cells of the whole file.
  lemma ChunkIsCells(s: seq<int>, fpu: real, size: nat, i: nat, n: nat)
    requires fpu >= 1.0 && Part(fpu, size as real) <= |s| as real
    requires i % 1000 == 0 && i < size && n == (if size - i < 1000 then size - i else 1000)
    ensures Part(fpu, (i + n) as real) <= |s| as real
    ensures ChunkUnits(s, fpu, i, n) == CellUnits(s, fpu, size)[i..i + n]
  {
    hide Part, ChunkUnits, CellUnit;
    ChunkBounds(fpu, i, n, size, |s|);
    forall j | 0 <= j < n
      ensures ChunkUnits(s, fpu, i, n)[j] == CellUnits(s, fpu, size)[i + j]
    {
      ChunkCell(s, fpu, size, i, n, j);
    }
  }

  lemma ChunkCell(s: seq<int>, fpu: real, size: nat, i: nat, n: nat, j: nat)
    requires fpu >= 1.0 && Part(fpu, size as real) <= |s| as real
    requires i % 1000 == 0 && i < size && n == (if size - i < 1000 then size - i else 1000) && j < n
    ensures Part(fpu, (i + n) as real) <= |s| as real
    ensures ChunkUnits(s, fpu, i, n)[j] == CellUnit(s, fpu, size, i + j)
  {
    hide Part, UnitOf, Pos, Ceil, WindowUnits, CellEnd, UnitAt;
    ChunkBounds(fpu, i, n, size, |s|);
    CellBounds(fpu, size, i + j, |s|);
    var off, dur := Part(fpu, i as real), Part(fpu, n as real);
    var o, e := off.Floor, Min(Ceil(off + dur), |s|);
    var start := off - o as real;
    StepIsFpu(fpu, n);
    UnitPlace(fpu, size, i, n, j);
    WindowUnit(s[o..e], start, fpu, dur, n, j);
    var p, q := Pos(start, fpu, dur, j), Pos(start, fpu, dur, j + 1);
    CeilBelow(q, e - o);
    UnitShift(s, o, e, p, q);
  }

  lemma CeilBelow(x: real, k: int)
    requires x <= k as real
    ensures Ceil(x) <= k
  {
    CeilFloor(x);
  }

  lemma WindowUnit(s: seq<int>, start: real, fpu: real, dur: real, n: nat, j: nat)
    requires 0.0 <= start && 0.0 <= fpu && 0.0 <= dur <= |s| as real && j < n && dur / n as real == fpu
    ensures 0.0 <= Pos(start, fpu, dur, j) && Ceil(Pos(start, fpu, dur, j + 1)) <= |s|
    ensures WindowUnits(s, start, dur, n)[j] == UnitOf(s, Pos(start, fpu, dur, j), Pos(start, fpu, dur, j + 1))
  {
    hide UnitOf, Pos, Ceil;
    PosBounds(start, fpu, dur, j);
    PosBounds(start, fpu, dur, j + 1);
    CeilBelow(Pos(start, fpu, dur, j + 1), |s|);
  }

  // The place of unit j of a chunk in the file.
  lemma UnitPlace(fpu: real, size: nat, i: nat, n: nat, j: nat)
    requires fpu >= 1.0
    requires i % 1000 == 0 && i < size && n == (if size - i < 1000 then size - i else 1000) && j < n
    ensures var o, dur := Part(fpu, i as real).Floor, Part(fpu, n as real);
            var start := Part(fpu, i as real) - o as real;
            var p, q := Pos(start, fpu, dur, j), Pos(start, fpu, dur, j + 1);
            && 0.0 <= start < 1.0 && q <= dur
            && o as real + p == Part(fpu, (i + j) as real) && o as real + q == CellEnd(fpu, size, i + j)
  {
    hide Part, Pos;
    InChunk(i, j);
    CeilFloor(Part(fpu, i as real));
    var start := Part(fpu, i as real) - Part(fpu, i as real).Floor as real;
    ClampedPos(start, fpu, j, n);
    ClampedPos(start, fpu, j + 1, n);
    CellPlace(fpu, i, n, j);
    PartPositive(fpu, n as real);
    PosBounds(start, fpu, Part(fpu, n as real), j + 1);
  }

  lemma StepIsFpu(fpu: real, n: nat)
    requires n > 0
    ensures Part(fpu, n as real) / n as real == fpu
  {
  }

  lemma CellPlace(fpu: real, i: nat, n: nat, j: nat)
    ensures Part(fpu, (i + j) as real) == Part(fpu, i as real) + Part(fpu, j as real)
    ensures Part(fpu, (i + j + 1) as real) == Part(fpu, i as real) + Part(fpu, (j + 1) as real)
  {
    hide Part;
    Parts(fpu, i as real, j as real);
    Parts(fpu, i as real, (j + 1) as real);
    assert i as real + j as real == (i + j) as real && i as real + (j + 1) as real == (i + j + 1) as real;
  }

  lemma InChunk(i: nat, j: nat)
    requires i % 1000 == 0 && j < 1000
    ensures (i + j) - (i + j) % 1000 == i
  {
  }

  // How many cells of channel c are loaded when channels below ch are done.
  function Progress(c: nat, ch: nat, i: nat, n: nat): nat {
    if c < ch then i + n else i
  }

  class SoundCacheStream {
    const channels: nat
    const frames: nat
    const fpu: real
    const size: nat
    const caches: SoundCaches
    var ready: bool

    ghost predicate Valid() {
      && channels > 0 && caches.Valid() && caches.channels == channels && caches.size == size
      && fpu >= 1.0 && Part(fpu, size as real) <= frames as real < Part(fpu, (size + 1) as real)
    }

    constructor Load(channels: nat, frames: nat, maxFramesPerUnit: nat, maxRawFrames: nat)
      requires channels > 0 && maxRawFrames > 0 && maxFramesPerUnit > 0
      ensures Valid() && !ready && this.channels == channels && this.frames == frames
      ensures (size, fpu) == Shape(frames, maxFramesPerUnit, maxRawFrames)
      ensures fresh(caches) && fresh(caches.min) && fresh(caches.max) && fresh(caches.sum) && fresh(caches.sum2)
    {
      ShapeCovers(frames, maxFramesPerUnit, maxRawFrames);
      ready := false;
      this.channels, this.frames := channels, frames;
      var shape := Shape(frames, maxFramesPerUnit, maxRawFrames);
      size, fpu := shape.0, shape.1;
      caches := new SoundCaches(channels, shape.0);
    }

    // The first n cells of channel ch hold what the loader computes for them.
    ghost predicate Loaded(s: seq<int>, ch: nat, n: nat)
      requires Valid() && ch < channels && n <= size && |s| == frames
      reads caches.min, caches.max, caches.sum, caches.sum2
    {
      caches.Row(ch)[..n] == CellUnits(s, fpu, size)[..n]
    }

    // SoundCacheLoader.run, then onLoadingDone: a thousand cells at a time.
    method Run(file: array<int>)
      requires Valid() && file.Length == frames * channels && Shorts(file[..])
      modifies this, caches.min, caches.max, caches.sum, caches.sum2
      ensures ready
      ensures forall ch :: 0 <= ch < channels ==> Loaded(Channel(old(file[..]), channels, ch, frames), ch, size)
    {
      hide SoundCaches.Row, CellUnits, Channel, Part, SoundCaches.Valid;
      ghost var f := file[..];
      var i := 0;
      forall ch | 0 <= ch < channels
        ensures Loaded(Channel(f, channels, ch, frames), ch, 0)
      {
        NothingLoaded(Channel(f, channels, ch, frames), ch);
      }
      while i < size
        invariant 0 <= i <= size && (i % 1000 == 0 || i == size) && file[..] == f
        invariant forall ch :: 0 <= ch < channels ==> Loaded(Channel(f, channels, ch, frames), ch, i)
      {
        var chunkSize := if size - i < 1000 then size - i else 1000;
        LoadChunk(file, i, chunkSize);
        i := i + chunkSize;
      }
      ready := true;
    }

    // Lines 1073-1081: cells i .. i + n - 1 of every channel.
    method LoadChunk(file: array<int>, i: nat, n: nat)
      requires Valid() && file.Length == frames * channels && Shorts(file[..])
      requires i % 1000 == 0 && i < size && n == if size - i < 1000 then size - i else 1000
      requires forall ch :: 0 <= ch < channels ==> Loaded(Channel(file[..], channels, ch, frames), ch, i)
      modifies caches.min, caches.max, caches.sum, caches.sum2
      ensures forall ch :: 0 <= ch < channels ==> Loaded(Channel(file[..], channels, ch, frames), ch, i + n)
    {
      hide SoundCaches.Row, CellUnits, Channel, Part, Streams;
      ghost var f := file[..];
      var sfStream := OpenChunk(file, i, n);
      for ch := 0 to channels
        invariant Streams(sfStream, f, i, n)
        invariant forall c :: 0 <= c < channels ==> Loaded(Channel(f, channels, c, frames), c, Progress(c, ch, i, n))
      {
        LoadChannel(sfStream, f, ch, i, n);
        assert forall c :: 0 <= c < channels && c != ch ==> Loaded(Channel(f, channels, c, frames), c, Progress(c, ch + 1, i, n));
      }
    }

    // Line 1073.
    method OpenChunk(file: array<int>, i: nat, n: nat) returns (st: SoundFileStream)
      requires Valid() && file.Length == frames * channels && Shorts(file[..]) && i + n <= size
      ensures fresh(st) && fresh(st.data) && Streams(st, file[..], i, n)
    {
      hide Channel, Part, SoundFileStream.Samples;
      ChunkBounds(fpu, i, n, size, frames);
      st := new SoundFileStream.Load(file, channels, frames, Part(fpu, i as real), Part(fpu, n as real));
    }

    // The stream holds the frames of the chunk.
    ghost predicate Streams(st: SoundFileStream, f: seq<int>, i: nat, n: nat)
      requires |f| == frames * channels
      reads st, st.data
    {
      var off, dur := Part(fpu, i as real), Part(fpu, n as real);
      && st.Valid() && st.channels == channels && st.dataOffset == off.Floor
      && 0 <= off.Floor <= Min(Ceil(off + dur), frames) && st.dataSize == Min(Ceil(off + dur), frames) - off.Floor
      && forall ch :: 0 <= ch < channels ==>
           st.Samples(ch) == Channel(f, channels, ch, frames)[off.Floor..off.Floor + st.dataSize]
    }

    method LoadChannel(st: SoundFileStream, ghost f: seq<int>, ch: nat, i: nat, n: nat)
      requires Valid() && ch < channels && |f| == frames * channels && Streams(st, f, i, n)
      requires i % 1000 == 0 && i < size && n == if size - i < 1000 then size - i else 1000
      requires Loaded(Channel(f, channels, ch, frames), ch, i)
      modifies caches.min, caches.max, caches.sum, caches.sum2
      ensures Loaded(Channel(f, channels, ch, frames), ch, i + n)
      ensures forall r :: 0 <= r < channels && r != ch ==> caches.Row(r) == old(caches.Row(r))
    {
      hide SoundCaches.Row, CellUnits, Channel, Part, WindowUnits, Streams, ChunkUnits, SoundFileStream.Samples, Ceil, Spliced;
      ChunkBounds(fpu, i, n, size, frames);
      StreamUnits(st, f, ch, i, n);
      ghost var row := caches.Row(ch);
      var ok := st.Integrate(ch, Part(fpu, i as real), Part(fpu, n as real), caches, i, n);
      assert ok;
      RowMore(Channel(f, channels, ch, frames), row, i, n);
    }

    lemma StreamUnits(st: SoundFileStream, f: seq<int>, ch: nat, i: nat, n: nat)
      requires Valid() && ch < channels && |f| == frames * channels && Streams(st, f, i, n) && 0 < n && i + n <= size
      ensures Part(fpu, (i + n) as real) <= frames as real
      ensures var off, dur := Part(fpu, i as real), Part(fpu, n as real);
              && st.Valid() && st.channels == channels && 0.0 <= dur <= st.dataSize as real
              && off + dur <= (st.dataOffset + st.dataSize) as real && 0.0 <= off - st.dataOffset as real
              && WindowUnits(st.Samples(ch), off - st.dataOffset as real, dur, n)
                 == ChunkUnits(Channel(f, channels, ch, frames), fpu, i, n)
    {
      hide Channel, Part, WindowUnits, SoundFileStream.Samples, Ceil;
      ChunkBounds(fpu, i, n, size, frames);
    }

    lemma RowMore(s: seq<int>, row: seq<Unit>, i: nat, n: nat)
      requires Valid() && |s| == frames && |row| == size && i % 1000 == 0 && i < size
      requires n == if size - i < 1000 then size - i else 1000
      requires row[..i] == CellUnits(s, fpu, size)[..i] && Part(fpu, (i + n) as real) <= frames as real
      ensures Spliced(row, i, ChunkUnits(s, fpu, i, n))[..i + n] == CellUnits(s, fpu, size)[..i + n]
    {
      hide CellUnits, Part, ChunkUnits;
      ChunkIsCells(s, fpu, size, i, n);
      var cells, chunk := CellUnits(s, fpu, size), ChunkUnits(s, fpu, i, n);
      assert cells[..i + n] == cells[..i] + cells[i..i + n];
      assert Spliced(row, i, chunk)[..i + n] == row[..i] + chunk;
    }

    lemma NothingLoaded(s: seq<int>, ch: nat)
      requires Valid() && ch < channels && |s| == frames
      ensures Loaded(s, ch, 0)
    {
      hide CellUnits, Part;
    }

    // Lines 985-1004: cells floor(p) .. ceil(q) - 1.
    method Measure(ch: nat, p: real, q: real, min0: int, max0: int)
      returns (min: int, max: int, sum: real, sum2: real)
      requires Valid() && ch < channels && 0.0 <= p && p.Floor <= Ceil(q) <= size && 0 <= Ceil(p)
      ensures var c := CellsOf(caches.Row(ch));
              && min == Lowest(c.min, Ceil(p), Ceil(q), min0) && max == Highest(c.max, Ceil(p), Ceil(q), max0)
              && sum == UnitSum(c.sum, p, q) && sum2 == UnitSum(c.sum2, p, q)
    {
      hide Part, Frac, SoundCaches.Row, CellsOf, Valid;
      ValidFpu();
      CeilFloor(p);
      ghost var c := CellsOf(caches.Row(ch));
      var f := p.Floor;
      var noOverlap := f == Ceil(p);
      var frac0, frac1 := f as real + 1.0 - p, q + 1.0 - Ceil(q) as real;
      var frameCount := Ceil(q) - f;
      min, max, sum, sum2 := min0, max0, 0.0, 0.0;
      var countdown := frameCount;
      while countdown != 0
        invariant 0 <= countdown <= frameCount && f == p.Floor + (frameCount - countdown)
        invariant min == Lowest(c.min, Ceil(p), f, min0) && max == Highest(c.max, Ceil(p), f, max0)
        invariant sum == Weighted(c.sum, p.Floor, frameCount, frac0, frac1, frameCount - countdown)
        invariant sum2 == Weighted(c.sum2, p.Floor, frameCount, frac0, frac1, frameCount - countdown)
      {
        countdown := countdown - 1;
        CellAt(ch, f);
        FracOf(frameCount - 1 - countdown, frameCount, frac0, frac1);
        if countdown < frameCount - 1 || noOverlap {
          if caches.min[ch, f] < min {
            min := caches.min[ch, f];
          }
          if caches.max[ch, f] > max {
            max := caches.max[ch, f];
          }
        }
        var frac := if countdown == frameCount - 1 then frac0 else if countdown == 0 then frac1 else 1.0;
        sum := sum + Part(caches.sum[ch, f], frac);
        sum2 := sum2 + Part(caches.sum2[ch, f], frac);
        f := f + 1;
      }
    }

    lemma CellAt(ch: nat, k: nat)
      requires Valid() && ch < channels && k < size
      ensures caches.min.Length0 == caches.max.Length0 == caches.sum.Length0 == caches.sum2.Length0 == channels
      ensures caches.min.Length1 == caches.max.Length1 == caches.sum.Length1 == caches.sum2.Length1 == size
      ensures var c := CellsOf(caches.Row(ch));
              && c.min[k] == caches.min[ch, k] && c.max[k] == caches.max[ch, k]
              && c.sum[k] == caches.sum[ch, k] && c.sum2[k] == caches.sum2[ch, k]
    {
      assert caches.Row(ch)[k] == caches.Cell(ch, k);
    }

    lemma RowShort(ch: nat)
      requires Valid() && ch < channels
      ensures Shorts(CellsOf(caches.Row(ch)).min) && Shorts(CellsOf(caches.Row(ch)).max)
    {
      forall k | 0 <= k < size
        ensures SHRT_MIN <= CellsOf(caches.Row(ch)).min[k] <= SHRT_MAX
                && SHRT_MIN <= CellsOf(caches.Row(ch)).max[k] <= SHRT_MAX
      {
        CellAt(ch, k);
      }
    }

    // The extremes taken on from the pixel before.
    method MeasureFrom(ch: nat, p: real, q: real, min0: int, max0: int)
      returns (min: int, max: int, sum: real, sum2: real)
      requires Valid() && ch < channels && 0.0 <= p && p.Floor <= Ceil(q) <= size && 0 <= Ceil(p)
      requires SHRT_MIN <= min0 <= SHRT_MAX && SHRT_MIN <= max0 <= SHRT_MAX
      ensures var c := CellsOf(caches.Row(ch));
              && min == Min(min0, Lowest(c.min, Ceil(p), Ceil(q), SHRT_MAX))
              && max == Max(max0, Highest(c.max, Ceil(p), Ceil(q), SHRT_MIN))
              && sum == UnitSum(c.sum, p, q) && sum2 == UnitSum(c.sum2, p, q)
      ensures SHRT_MIN <= min <= SHRT_MAX && SHRT_MIN <= max <= SHRT_MAX
    {
      hide UnitSum, Lowest, Highest, SoundCaches.Row, CellsOf, Ceil;
      ghost var c := CellsOf(caches.Row(ch));
      RowShort(ch);
      LowestStart(c.min, Ceil(p), Ceil(q), min0);
      HighestStart(c.max, Ceil(p), Ceil(q), max0);
      ExtremesShort(c.min, Ceil(p), Ceil(q));
      ExtremesShort(c.max, Ceil(p), Ceil(q));
      min, max, sum, sum2 := Measure(ch, p, q, min0, max0);
    }

    // displayData: the pixels of the window, from the aggregates.
    method DisplayData(ch: nat, off: real, dur: real, out: Buffers, n: nat, sqrt: real -> real) returns (ok: bool)
      requires Valid() && out.Valid(n) && 0.0 < dur && 0 < n
      modifies out.min, out.max, out.minRMS, out.maxRMS
      ensures ok <==> ready && ch < channels && 0.0 <= off && off + dur <= frames as real && n as real <= dur * fpu
      ensures !ok ==> unchanged(out.min) && unchanged(out.max) && unchanged(out.minRMS) && unchanged(out.maxRMS)
      ensures dur / n as real != 0.0 && 0.0 <= dur / fpu / n as real && (ok ==> 0.0 <= off / fpu)
      ensures ok ==>
        out.Shows(CacheUnits(CellsOf(caches.Row(ch)), off / fpu, dur / fpu / n as real, n), dur / n as real, sqrt, n)
      ensures ok && IsRoot(sqrt) ==>
        var c, start, step, limit := CellsOf(caches.Row(ch)), off / fpu, dur / fpu / n as real, size as real;
        forall i: nat :: i < n ==>
          out.Draws(i, c.min, c.max, Ceil(Place(start, step, limit, i)), c.sum, c.sum2,
                    Place(start, step, limit, i), Place(start, step, limit, i + 1), dur / n as real)
    {
      hide UnitSum, Lowest, Highest, Pos, Rms, Buffers.Shows, SoundCaches.Row, CellsOf, Valid;
      ValidFpu();
      StepPositive(dur, n);
      RatioPositive(dur, fpu);
      StepPositive(dur / fpu, n);
      ok := ready && ch < channels && 0.0 <= off && off + dur <= frames as real && n as real <= dur * fpu;
      if !ok {
        return;
      }
      var ratio, start := dur / fpu / n as real, off / fpu;
      StartBelow(off);
      var cachePos := start;
      var min, max := SHRT_MAX, SHRT_MIN;
      ghost var units := CacheUnits(CellsOf(caches.Row(ch)), start, ratio, n);
      out.ShowsNothing(units, dur / n as real, sqrt);
      PosStep(start, ratio, size as real, 0);
      for i := 0 to n
        invariant cachePos == Pos(start, ratio, size as real, i) && 0.0 <= cachePos < (size + 1) as real
        invariant min == (if i == 0 then SHRT_MAX else Stretched(units, i - 1).1)
        invariant max == (if i == 0 then SHRT_MIN else Stretched(units, i - 1).0)
        invariant SHRT_MIN <= max <= SHRT_MAX && SHRT_MIN <= min <= SHRT_MAX
        invariant out.Shows(units, dur / n as real, sqrt, i)
      {
        PosStep(start, ratio, size as real, i);
        var next := cachePos + ratio;
        if next > size as real {
          next := size as real;
        }
        CeilFloor(cachePos);
        CeilFloor(next);
        var lo, hi, sum, sum2 := MeasureFrom(ch, cachePos, next, min, max);
        out.Put(i, lo, hi, Rms(sum, sum2, dur / n as real, sqrt), units, dur / n as real, sqrt);
        cachePos, min, max := next, hi, lo;
      }
      if IsRoot(sqrt) {
        RowShort(ch);
        CacheDrawn(out, CellsOf(caches.Row(ch)), start, ratio, n, dur / n as real, sqrt);
      }
    }

    lemma ValidFpu()
      requires Valid()
      ensures fpu >= 1.0 && caches.Valid() && caches.channels == channels && caches.size == size
    {
    }

    lemma StartBelow(off: real)
      requires Valid() && 0.0 <= off <= frames as real
      ensures 0.0 <= off / fpu < (size + 1) as real
    {
      RatioPositive(off, fpu);
      BelowRatio(off, fpu, (size + 1) as real);
    }
  }

  // A window shown from the cache is drawn as its cells and the closed form of its
  // positions say.  Extremes are taken from the cells that begin in a pixel.
  lemma CacheDrawn(out: Buffers, c: Cells, start: real, step: real, n: nat, frames: real, sqrt: real -> real)
    requires out.Valid(n) && c.Sized() && 0.0 <= start && 0.0 <= step && frames > 0.0 && IsRoot(sqrt)
    requires Shorts(c.min) && Shorts(c.max) && out.Shows(CacheUnits(c, start, step, n), frames, sqrt, n)
    ensures var limit := |c.min| as real;
            forall i: nat :: i < n ==>
              out.Draws(i, c.min, c.max, Ceil(Place(start, step, limit, i)), c.sum, c.sum2,
                        Place(start, step, limit, i), Place(start, step, limit, i + 1), frames)
  {
    hide UnitSum, Lowest, Highest, Pos, Place, Buffers.Shows, Buffers.Draws, Rms, ShortUnits, CacheUnits, IsRoot, Ceil;
    var limit, units := |c.min| as real, CacheUnits(c, start, step, n);
    CacheShort(c, start, step, n);
    forall i: nat | i < n
      ensures out.Draws(i, c.min, c.max, Ceil(Place(start, step, limit, i)), c.sum, c.sum2,
                        Place(start, step, limit, i), Place(start, step, limit, i + 1), frames)
    {
      CachePlaced(c, start, step, n, i);
      var p, q := Place(start, step, limit, i), Place(start, step, limit, i + 1);
      out.ShownDraws(units, frames, sqrt, n, i, c.min, c.max, Ceil(p), c.sum, c.sum2, p, q);
    }
  }

  lemma CachePlaced(c: Cells, start: real, step: real, n: nat, i: nat)
    requires c.Sized() && 0.0 <= start && 0.0 <= step && i < n
    ensures var p, q := Place(start, step, |c.min| as real, i), Place(start, step, |c.min| as real, i + 1);
            && 0.0 <= p && 0.0 <= q <= |c.min| as real && Ceil(q) <= |c.min| && 0 <= Ceil(p)
            && CacheUnits(c, start, step, n)[i]
               == Unit(Lowest(c.min, Ceil(p), Ceil(q), SHRT_MAX), Highest(c.max, Ceil(p), Ceil(q), SHRT_MIN),
                       UnitSum(c.sum, p, q), UnitSum(c.sum2, p, q))
  {
    hide UnitSum, Lowest, Highest, Pos, Place, Ceil;
    var limit := |c.min| as real;
    PosIsPlace(start, step, limit, i);
    PosIsPlace(start, step, limit, i + 1);
    PosBounds(start, step, limit, i);
    PosBounds(start, step, limit, i + 1);
    CeilFloor(Pos(start, step, limit, i));
    CeilFloor(Pos(start, step, limit, i + 1));
  }

  lemma CacheShort(c: Cells, start: real, step: real, n: nat)
    requires c.Sized() && 0.0 <= start && 0.0 <= step && Shorts(c.min) && Shorts(c.max)
    ensures ShortUnits(CacheUnits(c, start, step, n))
  {
    hide UnitSum, Lowest, Highest, Place, CacheUnits, Ceil;
    forall i | 0 <= i < n
      ensures var u := CacheUnits(c, start, step, n)[i];
              SHRT_MIN <= u.min <= SHRT_MAX && SHRT_MIN <= u.max <= SHRT_MAX
    {
      CachePlaced(c, start, step, n, i);
      var p, q := Place(start, step, |c.min| as real, i), Place(start, step, |c.min| as real, i + 1);
      AtMost(c.min, Ceil(p), Ceil(q));
      AtMost(c.max, Ceil(p), Ceil(q));
      ExtremesShort(c.min, Ceil(p), Ceil(q));
      ExtremesShort(c.max, Ceil(p), Ceil(q));
    }
  }

  lemma RatioPositive(x: real, d: real)
    requires 0.0 <= x && d >= 1.0
    ensures 0.0 <= x / d
  {
  }

  lemma BelowRatio(x: real, d: real, m: real)
    requires d >= 1.0 && x < Part(d, m)
    ensures x / d < m
  {
    if x / d >= m {
      PartPositive(x / d - m, d);
    }
  }

  lemma FracOf(k: int, count: int, frac0: real, frac1: real)
    ensures Frac(k, count, frac0, frac1) == (if k == 0 then frac0 else if k == count - 1 then frac1 else 1.0)
  {
  }

  lemma ChunkBounds(fpu: real, i: nat, n: nat, size: nat, frames: nat)
    requires fpu >= 1.0 && i + n <= size && Part(fpu, size as real) <= frames as real
    ensures var off, dur := Part(fpu, i as real), Part(fpu, n as real);
            && 0.0 <= off && 0.0 <= dur && off + dur == Part(fpu, (i + n) as real) <= frames as real
            && off.Floor <= frames && off.Floor as real <= off
            && off + dur <= off.Floor as real + (Min(Ceil(off + dur), frames) - off.Floor) as real
  {
    hide Part;
    PartPositive(fpu, i as real);
    PartPositive(fpu, n as real);
    Parts(fpu, i as real, n as real);
    Parts(fpu, size as real, (i + n) as real);
    PartPositive(fpu, (size - i - n) as real);
    assert i as real + n as real == (i + n) as real && size as real - (i + n) as real == (size - i - n) as real;
    CeilFloor(Part(fpu, i as real));
    CeilFloor(Part(fpu, i as real) + Part(fpu, n as real));
  }
}
