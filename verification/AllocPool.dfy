// AllocPool (SC_AllocPool.h and SC_AllocPool.cpp).
module AllocPools {
  // Memory is addressed by int; a chunk or area header is the entry of its
  // address in the maps of the class.

  import opened Numbers
  import opened Chunks
  import opened BinMask
  import opened Rings
  import opened FreeLists
  import opened Payload
  import opened PoolFacts
  import opened Resizing
  import opened Walks

  datatype Option<T> = None | Some(value: T)

  // Where Alloc's search ended: nothing fits, a chunk to use whole, a chunk to split.
  datatype Fit = Nothing | Exact(chunk: int) | Bigger(chunk: int, remainder: int)

  // A negative int32 as a size_t.
  function Unsigned(x: int): int {
    if x < 0 then x + 0x1_0000_0000_0000_0000 else x
  }

  // The chunk size for n bytes after a header: a multiple of 16, at least 32.
  function SizeFor(n: nat, header: int): int {
    if n + header <= MIN_ALLOC then MIN_ALLOC
    else n + header + ALIGN - 1 - (n + header + ALIGN - 1) % ALIGN
  }

  lemma RequestFits(n: nat, header: int)
    requires header >= 0
    ensures ChunkSize(SizeFor(n, header))
    ensures n + header <= SizeFor(n, header) && (SizeFor(n, header) < n + header + ALIGN || SizeFor(n, header) == MIN_ALLOC)
  {
  }

  // Chunk sizes are even, and so are their differences.
  lemma EvenParts(size: int, newsize: int)
    requires ChunkSize(size) && newsize % ALIGN == 0
    ensures size % 2 == 0 && (newsize - size) % 2 == 0
  {
    TwiceEven(8 * (size / ALIGN), size);
    TwiceEven(8 * (newsize / ALIGN) - 8 * (size / ALIGN), newsize - size);
  }

  lemma EvenFront(tag: int, rest: int)
    requires rest % 2 == 0
    ensures Bytes(tag) % 2 == 0 && (Bytes(tag) - rest) % 2 == 0
  {
  }

  lemma EvenRemainder(tag: int, size: int)
    requires ChunkSize(size)
    ensures Int32(Bytes(tag) - size) % 2 == 0 && Int32(Bytes(tag) - size) >= -0x8000_0000
  {
    EvenSized(size);
    EvenFront(tag, size);
    hide Int32, ChunkSize, Bytes;
    Int32Even(Bytes(tag) - size);
  }

  lemma EvenSized(size: int)
    requires ChunkSize(size)
    ensures size % 2 == 0
  {
    TwiceEven(8 * (size / ALIGN), size);
  }

  lemma SplitArea(area: int, size: int)
    requires ChunkSize(area) && ChunkSize(size)
    ensures Int32(area - size) % 2 == 0 && Int32(area - size) >= -0x8000_0000
    ensures Int32(area - size) == area - size >= MIN_ALLOC <==> MIN_ALLOC <= area - size < 0x8000_0000
  {
    EvenSized(area);
    EvenSized(size);
    hide Int32, ChunkSize;
    SplitRemainder(area, size);
  }

  lemma AtLeast(size: int)
    requires ChunkSize(size)
    ensures size >= MIN_ALLOC
  {
  }

  class AllocPool {
    // The four words of an AllocChunk header.
    var mSize: map<int, int>
    var mPrevSize: map<int, int>
    var mNext: map<int, int>
    var mPrev: map<int, int>
    // Bytes in the chunks' payloads.
    var mData: map<int, int>

    var mBinBlocks: seq<nat>

    // The ring of areas; an area is named by the address of its mChunk, 0 is NULL.
    var mAreas: int
    var mAreaNext: map<int, int>
    var mAreaPrev: map<int, int>
    var mAreaSize: map<int, int>

    const mAreaInitSize: nat
    const mAreaMoreSize: nat
    // sizeof(AllocChunk) and sizeof(AllocAreaHdr): four words of 4 or 8 bytes.
    const header: int

    // What the pointers and tags amount to.
    ghost var areas: map<int, int>
    ghost var chunks: set<int>
    ghost var home: map<int, int>
    ghost var bins: seq<seq<int>>
    ghost var ring: seq<int>

    ghost function H(): Heap
      reads this
    {
      Heap(mSize, mPrevSize, areas, chunks, home, 2 * header)
    }

    ghost function L(): Lists
      reads this
    {
      Lists(mNext, mPrev, bins)
    }

    // The bins are well-formed rings, and the occupancy words say which are empty.
    ghost predicate ListsOK()
      reads this
    {
      L().OK(mSize) && MasksMatch(mBinBlocks, bins)
    }

    ghost predicate AreaRingOK()
      reads this
    {
      AreaRing(mAreas, mAreaNext, mAreaPrev, mAreaSize, ring, areas)
    }

    ghost predicate Configured()
      reads this
    {
      && (header == 16 || header == 32)
      && (mAreaInitSize == 0 || ChunkSize(mAreaInitSize)) && (mAreaMoreSize == 0 || ChunkSize(mAreaMoreSize))
      && (mAreaMoreSize == 0 ==> OnlyArea(areas, mAreaInitSize))
    }

    ghost predicate Valid()
      reads this
    {
      && Configured()
      && H().Tiled() && H().Consolidated()
      && ListsOK() && L().All() == H().FreeChunks()
      && AreaRingOK()
    }

    // The blocks handed out, and the bytes of a block.
    ghost function Blocks(): map<int, int>
      reads this
    {
      H().Blocks()
    }

    lemma ValidFacts()
      requires Valid()
      ensures H().Tiled() && H().Consolidated() && L().OK(mSize) && L().All() == H().FreeChunks()
      ensures AreaRingOK() && (header == 16 || header == 32)
    {
    }

    // --- inline operations of the header file ---

    // RemoveLeaveDangling: chunk c off its list.
    method RemoveLeaveDangling(c: int, ghost i: nat, ghost k: nat)
      requires L().OK(mSize) && i < NUM_BINS == |bins| && k < |bins[i]| && bins[i][k] == c && header > 0
      modifies this`mNext, this`mPrev, this`bins, this`mData
      ensures L() == old(L().Remove(i, k)) && L().OK(mSize) && L().All() == old(L().All()) - {c}
      ensures Spared(old(mData), mData, old(L().All()), header)
    {
      hide BinIndex, RingOK, Distinct, Bytes, Lists.OK, Lists.All;
      UnlinkFacts(L(), mSize, i, k);
      ghost var all := L().All();
      var p, n := mPrev[c], mNext[c];
      mNext := mNext[p := n];
      mPrev := mPrev[n := p];
      ScribbleTwice(mData, p, n, header, all);
      mData := Scribble(Scribble(mData, p, header), n, header);
      bins := bins[i := Removed(bins[i], k)];
    }

    // UnlinkFree: take chunk c off its list, and clear the bin's bit when it was the last.
    method UnlinkFree(c: int, ghost i: nat, ghost k: nat)
      requires ListsOK() && i < NUM_BINS && k < |bins[i]| && bins[i][k] == c && header > 0
      modifies this`mNext, this`mPrev, this`mBinBlocks, this`bins, this`mData
      ensures ListsOK() && L().All() == old(L().All()) - {c}
      ensures Spared(old(mData), mData, old(L().All()), header)
      ensures H() == old(H()) && (old(AreaRingOK()) ==> AreaRingOK())
    {
      hide BinIndex, Marked, RingOK, Distinct, Bytes, Lists.OK, Lists.All, AreaRing, Spared, BinMask.Words;
      UnlinkFacts(L(), mSize, i, k);
      RemoveLeaveDangling(c, i, k);
      var index := BinIndex(Bytes(mSize[c]));
      EmptyTest(L(), mSize, index);
      if mNext[Head(index)] == Head(index) {
        mBinBlocks := ClearBinBlock(mBinBlocks, index);
      }
    }

    // LinkFree: small bins and empty bins at the front, large bins in order of size.
    method LinkFree(c: int)
      requires ListsOK() && c !in L().All() && c >= 0 && c in mSize && Bytes(mSize[c]) >= 0 && header > 0
      modifies this`mNext, this`mPrev, this`mBinBlocks, this`bins, this`mData
      ensures ListsOK() && L().All() == old(L().All()) + {c}
      ensures Spared(old(mData), mData, old(L().All()) + {c}, header)
      ensures H() == old(H()) && (old(AreaRingOK()) ==> AreaRingOK())
    {
      LinkChunk(c, mSize);
    }

    // The same on any chunk; sizes are tags for which the lists are in order.
    method LinkChunk(c: int, ghost sizes: map<int, int>)
      requires L().OK(sizes) && sizes.Keys <= mSize.Keys && MasksMatch(mBinBlocks, bins)
      requires c in mSize && Bytes(mSize[c]) >= -0x8000_0000 && header > 0
      modifies this`mNext, this`mPrev, this`mBinBlocks, this`bins, this`mData
      ensures H() == old(H()) && (old(AreaRingOK()) ==> AreaRingOK())
      ensures old(Linkable(c)) ==> ListsOK() && L().All() == old(L().All()) + {c}
      ensures old(Linkable(c)) ==> Spared(old(mData), mData, old(L().All()) + {c}, header)
    {
      hide BinIndex, Marked, RingOK, Distinct, Bytes, Lists.OK, Lists.All, BinMask.Words;
      ghost var fine := Linkable(c);
      var size := Unsigned(Bytes(mSize[c]));
      var index := BinIndex(size);
      var bin := Head(index);
      EmptyTest(L(), sizes, index);
      if index < SMALL_BINS || mNext[bin] == bin {
        Insert(c, bin, mNext[bin], index, 0, fine);
        mBinBlocks := MarkBinBlock(mBinBlocks, index);
      } else {
        var link, k := FindPlace(index, size, sizes);
        EmptyTest(L(), sizes, index);
        PrevLink(L(), sizes, index, k);
        Insert(c, mPrev[link], link, index, k, fine);
      }
    }

    // A chunk on no list, and lists in order.
    ghost predicate Linkable(c: int)
      reads this
    {
      c !in L().All() && c >= 0 && c in mSize && Bytes(mSize[c]) >= 0 && L().OK(mSize)
    }

    // The first link whose chunk is no larger than size, from the front of a large bin.
    method FindPlace(index: nat, size: int, ghost sizes: map<int, int>) returns (link: int, ghost k: nat)
      requires L().OK(sizes) && sizes.Keys <= mSize.Keys && SMALL_BINS <= index < NUM_BINS
      ensures |bins| == NUM_BINS && k <= |bins[index]| && link == At(Head(index), bins[index], k)
      ensures link == Head(index) || (link in mSize && Bytes(mSize[link]) <= size)
      ensures L().OK(mSize) ==> forall j :: 0 <= j < |bins[index]| && bins[index][j] in mSize ==>
                if j < k then Bytes(mSize[bins[index][j]]) >= size else Bytes(mSize[bins[index][j]]) <= size
    {
      hide BinIndex, RingOK, Distinct, Bytes, Lists.OK, Lists.All;
      EmptyTest(L(), sizes, index);
      var bin := Head(index);
      link := mNext[bin];
      k := 0;
      if link != bin {
        StepLink(L(), sizes, index, k);
      }
      while link != bin && size < Bytes(mSize[link])
        invariant 0 <= k <= |bins[index]| && link == At(bin, bins[index], k)
        invariant link != bin ==> link in mSize
        invariant forall j :: 0 <= j < k && bins[index][j] in mSize ==> Bytes(mSize[bins[index][j]]) > size
        decreases |bins[index]| - k
      {
        StepLink(L(), sizes, index, k);
        link := mNext[link];
        k := k + 1;
      }
      if L().OK(mSize) {
        SortedFrom(L(), mSize, index, k);
      }
    }

    // InsertAfter and InsertBefore: c between the neighbours p and n.
    method Insert(c: int, p: int, n: int, ghost i: nat, ghost k: nat, ghost fine: bool)
      requires header > 0 && i < NUM_BINS == |bins| && k <= |bins[i]|
      requires p == At(Head(i), bins[i], k - 1) && n == At(Head(i), bins[i], k)
      requires fine ==> L().OK(mSize) && c !in L().All() && Lists.Holds(mSize, i, c)
      requires fine && i >= SMALL_BINS ==>
        forall j :: 0 <= j < |bins[i]| && bins[i][j] in mSize ==>
          if j < k then Bytes(mSize[bins[i][j]]) >= Bytes(mSize[c]) else Bytes(mSize[bins[i][j]]) <= Bytes(mSize[c])
      modifies this`mNext, this`mPrev, this`bins, this`mData
      ensures fine ==> L().OK(mSize) && L().All() == old(L().All()) + {c}
      ensures bins == if fine then old(bins)[i := Inserted(old(bins)[i], k, c)] else old(bins)
      ensures fine ==> Spared(old(mData), mData, old(L().All()) + {c}, header)
    {
      hide BinIndex, RingOK, Distinct, Bytes, Lists.OK, Lists.All, Lists.Holds;
      ghost var all := L().All() + {c};
      if fine {
        InsertBin(L(), mSize, i, k, c);
        InsertAll(L(), i, k, c);
        NodesListed(L(), i, k - 1);
        NodesListed(L(), i, k);
        ScribbleTwice(mData, c, p, header, all);
        ghost var d := Scribble(Scribble(mData, c, header), p, header);
        ScribbleSpares(d, n, header, all);
        SparedBoth(mData, d, Scribble(d, n, header), all, all, header);
        assert all + all == all;
        bins := bins[i := Inserted(bins[i], k, c)];
      }
      mNext := mNext[c := n][p := c];
      mPrev := mPrev[c := p][n := c];
      mData := Scribble(Scribble(Scribble(mData, c, header), p, header), n, header);
    }

    method SetSizeFree(c: int, n: int)
      requires c >= 0
      modifies this`mSize, this`mPrevSize, this`mData
      ensures H() == old(H()).Tag(c, n, 0, chunks)
      ensures Spared(old(mData), mData, {c, c + n}, header)
      ensures forall a :: c <= a < c + header ==> a !in mData
      ensures L() == old(L()) && (old(AreaRingOK()) ==> AreaRingOK())
    {
      ScribbleTwice(mData, c, c + n, header, {c, c + n});
      mPrevSize := mPrevSize[c + n := n];
      mSize := mSize[c := n];
      mData := Scribble(Scribble(mData, c, header), c + n, header);
    }

    method SetSizeInUse(c: int, n: int)
      requires c >= 0 && n % 2 == 0
      modifies this`mSize, this`mPrevSize, this`mData
      ensures H() == old(H()).Tag(c, n, 1, chunks)
      ensures Spared(old(mData), mData, {c, c + n}, header)
      ensures forall a :: c <= a < c + header ==> a !in mData
      ensures L() == old(L()) && (old(AreaRingOK()) ==> AreaRingOK())
    {
      ScribbleTwice(mData, c, c + n, header, {c, c + n});
      mPrevSize := mPrevSize[c + n := n + IN_USE];
      mSize := mSize[c := n + IN_USE];
      mData := Scribble(Scribble(mData, c, header), c + n, header);
    }

    // --- SC_AllocPool.cpp ---

    // FreeArea: unlink the area that consists of chunk alone, and give it back.
    method FreeArea(chunk: int)
      requires Configured() && H().Tiled() && H().Consolidated() && AreaRingOK()
      requires H().Spans(chunk)
      modifies this`mAreas, this`mAreaNext, this`mAreaPrev, this`areas, this`chunks, this`ring
      ensures H() == old(H().WithoutArea(chunk)) && areas == old(areas) - {chunk}
      ensures AreaRingOK()
    {
      hide Heap.Tiled, Heap.Consolidated, RingOK, Distinct, Bytes;
      AreaLinks(mAreaNext, mAreaPrev, ring, chunk);
      if mAreaNext[chunk] == chunk {
        mAreas := 0;
        ring := [];
      } else {
        var p, n := mAreaPrev[chunk], mAreaNext[chunk];
        ghost var ring' := AreaUnlink(mAreaNext, mAreaPrev, ring, chunk);
        AreaAt(H(), n);
        GapPositive(H());
        mAreaNext := mAreaNext[p := n];
        mAreas := n;
        mAreaPrev := mAreaPrev[n := p];
        ring := ring';
      }
      areas := areas - {chunk};
      chunks := chunks - {chunk};
    }

    // IsArea: in-use tags on both sides.
    predicate IsArea(chunk: int)
      requires chunk in mPrevSize && chunk in mSize && chunk + Bytes(mSize[chunk]) in mSize
      reads this
    {
      mPrevSize[chunk] == IN_USE && mSize[chunk + Bytes(mSize[chunk])] == IN_USE
    }

    // All of the pool but chunk c, which is free and on no list.
    ghost predicate Taken(c: int)
      reads this
    {
      && Configured()
      && H().Tiled() && H().Consolidated()
      && ListsOK() && c in H().FreeChunks() && L().All() == H().FreeChunks() - {c}
      && AreaRingOK()
    }

    // NewArea, lines 212 to 225: enter the area into the ring, before the first one.
    method LinkArea(base: int, n: int)
      requires AreaRingOK() && base != 0 && base !in areas
      modifies this`mAreas, this`mAreaNext, this`mAreaPrev, this`mAreaSize, this`ring
      ensures mAreas == base && AreaRing(mAreas, mAreaNext, mAreaPrev, mAreaSize, ring, H().WithArea(base, n).areas)
    {
      hide RingOK, Distinct;
      if mAreas != 0 {
        AreaLink(mAreaNext, mAreaPrev, ring, base);
        mAreaNext := mAreaNext[base := mAreas];
        mAreaPrev := mAreaPrev[base := mAreaPrev[mAreas]];
        mAreaPrev := mAreaPrev[mAreaNext[base] := base];
        mAreaNext := mAreaNext[mAreaPrev[base] := base];
      } else {
        LoneArea(mAreaNext, mAreaPrev, base);
        mAreaNext := mAreaNext[base := base];
        mAreaPrev := mAreaPrev[base := base];
      }
      mAreas := base;
      mAreaSize := mAreaSize[base := n];
      ring := [base] + ring;
      assert ring[1..] == old(ring);
    }

    // NewArea, lines 226 to 228: one free chunk between in-use tags.
    method FormatArea(base: int, n: int)
      requires base > 0 && n >= 0
      modifies this`mNext, this`mPrev, this`mSize, this`mPrevSize, this`mData, this`areas, this`chunks, this`home
      ensures mNext == old(mNext)[base := base] && mPrev == old(mPrev)[base := base]
      ensures H() == old(H()).WithArea(base, n)
      ensures Spared(old(mData), mData, {base, base + n}, header)
    {
      hide Spared, Scribble;
      ghost var s := {base, base + n};
      mNext := mNext[base := base];
      mPrev := mPrev[base := base];
      mPrevSize := mPrevSize[base := IN_USE];
      mSize := mSize[base + n := IN_USE];
      ScribbleTwice(mData, base, base + n, header, s);
      mData := Scribble(Scribble(mData, base, header), base + n, header);
      ghost var mid := mData;
      SetSizeFree(base, n);
      SparedBoth(old(mData), mid, mData, s, s, header);
      assert s + s == s;
      areas := areas[base := n];
      chunks := chunks + {base};
      home := home[base := base];
    }

    // NewArea: base is what the area function returned, aligned; 0 is NULL and throws.
    method NewArea(n: int, base: int) returns (ok: bool)
      requires Valid() && (base != 0 ==> H().Unused(base, n))
      requires mAreaMoreSize == 0 ==> areas == map[] && n == mAreaInitSize
      modifies this
      ensures ok <==> base != 0
      ensures !ok ==> unchanged(this)
      ensures ok ==> Taken(base) && H() == old(H().WithArea(base, n)) && mAreas == base
      ensures ok ==> L().All() == old(L().All()) && Spared(old(mData), mData, {base, base + n}, header)
    {
      hide Heap.Tiled, Heap.Consolidated, Heap.WithArea, Heap.Unused, Heap.Blocks, Heap.FreeChunks;
      hide Lists.OK, Lists.All, RingOK, Distinct, Bytes, Boundary, BinIndex, Marked, Scribble, Spared,
           MasksMatch, AreaRing;
      if base == 0 {
        return false;
      }
      ghost var h := H();
      FreshArea(h, base, n);
      FreshLists(h, L(), base, n);
      NewOnlyArea(h, base, n);
      LinkArea(base, n);
      FormatArea(base, n);
      ok := true;
    }

    // Free, line 187: the span becomes one free chunk.
    method JoinSpan(c: int, n: int, ghost dead: set<int>)
      requires c >= 0 && n >= 0
      modifies this`mSize, this`mPrevSize, this`mData, this`chunks
      ensures H() == old(H()).Tag(c, n, 0, old(chunks) - dead)
      ensures L() == old(L()) && (old(AreaRingOK()) ==> AreaRingOK())
      ensures Spared(old(mData), mData, {c, c + n}, header)
    {
      hide Spared;
      SetSizeFree(c, n);
      chunks := chunks - dead;
    }

    // Free, lines 188 to 193: give the area back, or link the chunk.
    method Settle(chunk: int)
      requires Taken(chunk)
      modifies this
      ensures Valid() && Blocks() == old(Blocks())
      ensures areas == old(AreasSettled(H(), chunk, mAreaMoreSize != 0))
      ensures Spared(old(mData), mData, old(H().FreeChunks()), header)
    {
      hide Heap.Tiled, Heap.Consolidated, Heap.WithoutArea, Heap.FreeChunks, Heap.Blocks;
      hide Lists.OK, Lists.All, Bytes, BinIndex, Spared, MasksMatch, AreaRing;
      FreeChunk(H(), chunk);
      IsAreaTest(H(), chunk);
      if mAreaMoreSize != 0 && IsArea(chunk) {
        DroppedArea(H(), chunk);
        FreeArea(chunk);
        SparedSame(mData, old(H().FreeChunks()), header);
      } else {
        LinkFree(chunk);
      }
    }

    // Free, lines 170 to 185: unlink the free neighbours of a block.
    method Consolidate(block: int) returns (chunk: int, size: int)
      requires Valid() && block in Blocks()
      modifies this`mNext, this`mPrev, this`mBinBlocks, this`bins, this`mData
      ensures block in mPrevSize && block in mSize
      ensures chunk == SpanLo(H(), block) && chunk + size == SpanHi(H(), block)
      ensures ListsOK() && L().All() == old(L().All()) - Between(H(), chunk, chunk + size) - {chunk}
      ensures H() == old(H()) && AreaRingOK()
      ensures Spared(old(mData), mData, old(L().All()), header)
    {
      hide Heap.Tiled, Heap.Consolidated, Heap.FreeChunks, Heap.Blocks;
      hide Lists.OK, Lists.All, Bytes, BinIndex, Spared, MasksMatch, AreaRing, Between;
      Chunks.Neighbours(H(), block);
      BetweenSpan(H(), block);
      SparedSame(mData, L().All(), header);
      ghost var all := L().All();
      chunk := block;
      size := Bytes(mSize[chunk]);
      if mPrevSize[chunk] % 2 == 0 {
        var prevSize := Bytes(mPrevSize[chunk]);
        chunk := chunk - prevSize;
        size := size + prevSize;
        ghost var i, k := WhereListed(L(), mSize, chunk);
        UnlinkFree(chunk, i, k);
      }
      ghost var mid, data := L().All(), mData;
      var next := chunk + size;
      if mSize[next] % 2 == 0 {
        size := size + Bytes(mSize[next]);
        ghost var i, k := WhereListed(L(), mSize, next);
        UnlinkFree(next, i, k);
        SparedBoth(old(mData), data, mData, all, mid, header);
        assert all + mid == all;
      }
    }

    // Free: consolidate with free neighbours, then link the span or give its area back.
    // Only headers are written, so the bytes of all blocks stay, those of the freed one included.
    method Free(ptr: int)
      requires Valid() && (ptr != 0 ==> ptr - header in Blocks())
      modifies this
      ensures Valid()
      ensures ptr == 0 ==> unchanged(this)
      ensures ptr != 0 ==> Blocks() == old(Blocks()) - {ptr - header}
      ensures ptr != 0 ==> Kept(old(Blocks()), old(mData), mData, header) && mData.Keys <= old(mData).Keys
      ensures ptr != 0 ==> areas == old(AreasLeft(H(), ptr - header, mAreaMoreSize != 0))
      ensures mAreaMoreSize == 0 ==> areas == old(areas)
      ensures ptr != 0 && mAreaMoreSize != 0 ==>
        forall a :: a in old(areas) ==>
          (a !in areas <==>
             && a <= ptr - header < a + old(areas)[a] && forall b :: b in Blocks() ==> !(a <= b < a + old(areas)[a]))
    {
      hide Heap.Tiled, Heap.Consolidated, Heap.FreeChunks, Heap.Blocks, Heap.Tag;
      hide Lists.OK, Lists.All, Bytes, BinIndex, Spared, MasksMatch, AreaRing, Between, AreasLeft, AreasSettled, Boundary,
           Joined, SpanLo, SpanHi, Kept;
      if ptr == 0 {
        return;
      }
      ghost var h, c, data := H(), ptr - header, mData;
      LastLeaves(h, c, mAreaMoreSize != 0);
      var chunk, size := Consolidate(ptr - header);
      ghost var dead := Between(h, chunk, chunk + size);
      FreedSpan(h, c);
      SpanLists(h, L(), c);
      ghost var data1 := mData;
      JoinSpan(chunk, size, dead);
      ghost var data2 := mData;
      Settle(chunk);
      FreedBytes(h, c, data, data1, data2, mData, header);
    }

    // Lines 342 and 360: from the back of a bin, the first chunk that passes the test.
    method ScanBin(index: nat, size: int) returns (candidate: int, remainder: int, ghost k: int)
      requires Valid() && index < NUM_BINS && ChunkSize(size)
      ensures |bins| == NUM_BINS && FirstPass(L(), mSize, index, k, size)
      ensures candidate == At(Head(index), bins[index], k)
      ensures candidate == Head(index) <==> k == -1
      ensures k >= 0 ==> candidate in mSize && remainder == Int32(Bytes(mSize[candidate]) - size)
      ensures candidate == Head(index) || (candidate in bins[index] && candidate in mSize && Passes(Bytes(mSize[candidate]), size))
    {
      hide Heap.Tiled, Heap.Consolidated, Heap.FreeChunks, ChunkSize, Int32;
      hide Lists.OK, Lists.All, Bytes, BinIndex, MasksMatch, AreaRing;
      var bin := Head(index);
      EmptyTest(L(), mSize, index);
      candidate, remainder, k := mPrev[bin], 0, |bins[index]| - 1;
      while candidate != bin
        invariant -1 <= k < |bins[index]| && candidate == At(bin, bins[index], k)
        invariant forall j :: k < j < |bins[index]| && bins[index][j] in mSize ==> !Passes(Bytes(mSize[bins[index][j]]), size)
        decreases k
      {
        ListedChunk(H(), L(), index, k);
        remainder := Int32(Bytes(mSize[candidate]) - size);
        if remainder >= 0 {
          BinAscends(H(), L(), index, k);
          return;
        }
        PrevLink(L(), mSize, index, k);
        candidate := mPrev[candidate];
        k := k - 1;
      }
      if k >= 0 {
        ListedChunk(H(), L(), index, k);
      }
    }

    // Alloc, lines 329 to 340: the bin of the size, and the next one.
    method FindSmall(index: nat, size: int) returns (fit: Fit)
      requires Valid() && ChunkSize(size) && index == BinIndex(size) < SMALL_BINS - 1
      ensures fit.Nothing? || fit.Exact?
      ensures fit.Nothing? ==> |bins| == NUM_BINS && NonePassIn(L(), mSize, index, index + 2, size)
      ensures fit.Exact? ==> Chosen(L(), mSize, fit.chunk, size) && Int32(Bytes(mSize[fit.chunk]) - size) < MIN_ALLOC
    {
      hide Heap.Tiled, Heap.Consolidated, Heap.FreeChunks;
      hide Lists.OK, Lists.All, Bytes, BinIndex, MasksMatch, AreaRing, NonePass, FirstPass, Chosen;
      SmallBin(size);
      EmptyTest(L(), mSize, index);
      EmptyTest(L(), mSize, index + 1);
      SmallPass(H(), L(), index, size);
      SmallPass(H(), L(), index + 1, size);
      ghost var i := index;
      var bin := Head(index);
      var candidate := mPrev[bin];
      if candidate == bin {
        NoneInBin(L(), mSize, index, size);
        i := i + 1;
        bin := bin - 1;
        candidate := mPrev[bin];
      }
      if candidate != bin {
        SmallBinSize(H(), L(), i, |bins[i]| - 1);
        FirstIsChosen(L(), mSize, i, |bins[i]| - 1, size);
        return Exact(candidate);
      }
      NoneInBin(L(), mSize, index + 1, size);
      fit := Nothing;
    }

    // Alloc, lines 356 to 368: the occupied bins from start on.
    method ScanBins(start: nat, size: int) returns (fit: Fit)
      requires Valid() && ChunkSize(size) && BinIndex(size) <= start <= |bins| == NUM_BINS
      requires NonePassIn(L(), mSize, BinIndex(size), start, size)
      ensures fit.Nothing? ==> NoneAccepted(L(), mSize, size)
      ensures !fit.Nothing? ==> Chosen(L(), mSize, fit.chunk, size)
      ensures fit.Exact? ==> Int32(Bytes(mSize[fit.chunk]) - size) < MIN_ALLOC
      ensures fit.Bigger? ==> fit.remainder == Int32(Bytes(mSize[fit.chunk]) - size) >= MIN_ALLOC
    {
      hide Heap.Tiled, Heap.Consolidated, Heap.FreeChunks;
      hide Lists.OK, Lists.All, Bytes, BinIndex, MasksMatch, AreaRing, NonePassIn, FirstPass, NoneAccepted, Chosen, Marked, Int32;
      ghost var low, from: nat := BinIndex(size), start;
      MasksWords(mBinBlocks, bins);
      var index := NextFullBin(mBinBlocks, start);
      while index >= 0
        invariant low <= from <= NUM_BINS && NonePassIn(L(), mSize, low, from, size)
        invariant -1 <= index < NUM_BINS && (index >= 0 ==> from <= index)
        invariant forall j :: from <= j < (if index < 0 then NUM_BINS else index) ==> !Marked(mBinBlocks, j)
        decreases NUM_BINS - from
      {
        SkipEmpty(L(), mSize, mBinBlocks, low, from, index, size);
        var candidate, remainder, k := ScanBin(index, size);
        if candidate != Head(index) {
          FirstIsChosen(L(), mSize, index, k, size);
          return if remainder >= MIN_ALLOC then Bigger(candidate, remainder) else Exact(candidate);
        }
        NoneInBin(L(), mSize, index, size);
        OneMore(L(), mSize, low, index, size);
        from := index + 1;
        index := NextFullBin(mBinBlocks, index + 1);
      }
      SkipEmpty(L(), mSize, mBinBlocks, low, from, NUM_BINS, size);
      NothingAccepted(L(), mSize, size);
      fit := Nothing;
    }

    // Alloc, lines 328 to 368.
    method FindFit(size: int) returns (fit: Fit)
      requires Valid() && ChunkSize(size)
      ensures fit.Nothing? ==> NoneAccepted(L(), mSize, size)
      ensures !fit.Nothing? ==> Chosen(L(), mSize, fit.chunk, size)
      ensures fit.Exact? ==> Int32(Bytes(mSize[fit.chunk]) - size) < MIN_ALLOC
      ensures fit.Bigger? ==> fit.remainder == Int32(Bytes(mSize[fit.chunk]) - size) >= MIN_ALLOC
    {
      hide Heap.Tiled, Heap.Consolidated, Heap.FreeChunks;
      hide Lists.OK, Lists.All, Bytes, BinIndex, MasksMatch, AreaRing, NonePass, FirstPass, NoneAccepted, Chosen, Int32;
      var index := BinIndex(size);
      ListsLength(L(), mSize);
      if index < SMALL_BINS - 1 {
        fit := FindSmall(index, size);
        if fit.Exact? {
          return;
        }
        index := index + 2;
      } else {
        var candidate, remainder, k := ScanBin(index, size);
        if candidate != Head(index) {
          if remainder >= MIN_ALLOC {
            index := index - 1;
          } else {
            FirstIsChosen(L(), mSize, index, k, size);
            return Exact(candidate);
          }
        } else {
          NoneInBin(L(), mSize, index, size);
        }
        index := index + 1;
      }
      fit := ScanBins(index, size);
    }

    // Alloc, return_chunk: all of the chunk is handed out.
    method UseWhole(c: int)
      requires Taken(c)
      modifies this`mSize, this`mPrevSize, this`mData
      ensures Valid() && Blocks() == old(Blocks())[c := Bytes(old(mSize)[c])]
      ensures Kept(old(Blocks()), old(mData), mData, header)
    {
      hide Heap.Tiled, Heap.Consolidated, Heap.FreeChunks, Heap.Blocks, Heap.Tag;
      hide Lists.OK, Lists.All, Bytes, BinIndex, Spared, MasksMatch, AreaRing, Kept;
      ghost var h, data := H(), mData;
      FreeChunk(h, c);
      TakeWhole(h, c);
      TagLists(h, L(), c, h.Size(c), 1, chunks);
      EvenSize(mSize[c]);
      SetSizeInUse(c, Bytes(mSize[c]));
      WholeBytes(h, c, data, mData, header);
    }

    // SetSizeFree or SetSizeInUse on the rest of chunk c, which becomes a chunk.
    method TagRest(c: int, m: int, n: int, inUse: bool)
      requires c in home && m >= 0 && n % 2 == 0
      modifies this`mSize, this`mPrevSize, this`mData, this`chunks, this`home
      ensures H() == RestTagged(old(H()), c, m, n, if inUse then 1 else 0) && chunks == old(chunks) + {m}
      ensures Spared(old(mData), mData, {m, m + n}, header)
      ensures forall a :: m <= a < m + header ==> a !in mData
      ensures L() == old(L()) && (old(AreaRingOK()) ==> AreaRingOK())
    {
      hide Spared;
      if inUse {
        SetSizeInUse(m, n);
      } else {
        SetSizeFree(m, n);
      }
      chunks := chunks + {m};
      home := home[m := home[c]];
    }

    // Alloc, lines 410 to 413: the remainder becomes a free chunk on its list.
    method LinkRest(c: int, size: int, remainder: int)
      requires Taken(c) && ChunkSize(size) && remainder % 2 == 0 && remainder >= -0x8000_0000
      modifies this`mSize, this`mPrevSize, this`mData, this`chunks, this`home, this`mNext, this`mPrev, this`mBinBlocks, this`bins
      ensures c in old(home) && H() == RestTagged(old(H()), c, c + size, remainder, 0) && AreaRingOK()
      ensures remainder == Bytes(old(mSize)[c]) - size >= 0 ==>
        && ListsOK() && L().All() == old(L().All()) + {c + size}
        && SparedInTurn(old(mData), mData, {c + size, c + size + remainder}, old(L().All()) + {c + size}, header)
    {
      hide Heap.Tiled, Heap.Consolidated, Heap.FreeChunks, Heap.Blocks, Heap.Tag, Heap.Cut;
      hide Lists.OK, Lists.All, Bytes, BinIndex, Spared, MasksMatch, AreaRing, RestTagged;
      ghost var h, sizes := H(), mSize;
      FreeChunk(h, c);
      if remainder == Bytes(mSize[c]) - size >= 0 {
        CarveSteps(h, L(), c, size, remainder);
      }
      TagRest(c, c + size, remainder, false);
      ghost var data1 := mData;
      RestTag(h, c, c + size, remainder);
      LinkChunk(c + size, sizes);
      assert remainder == Bytes(sizes[c]) - size >= 0 ==> Spared(data1, mData, old(L().All()) + {c + size}, header);
    }

    // Alloc, found_bigger_fit: the remainder goes back to the lists.
    method Carve(c: int, size: int, remainder: int)
      requires Taken(c) && ChunkSize(size) && remainder % 2 == 0 && remainder >= -0x8000_0000
      modifies this
      ensures areas == old(areas)
      ensures remainder == Bytes(old(mSize)[c]) - size >= MIN_ALLOC ==>
        Valid() && Blocks() == old(Blocks())[c := size] && Kept(old(Blocks()), old(mData), mData, header)
      ensures !(remainder == Bytes(old(mSize)[c]) - size >= MIN_ALLOC) ==> !Valid()
    {
      hide Heap.Tiled, Heap.Consolidated, Heap.FreeChunks, Heap.Blocks, Heap.Tag, Heap.Cut;
      hide Lists.OK, Lists.All, Bytes, BinIndex, Spared, MasksMatch, AreaRing, Kept, RestTagged, ChunkSize, OnlyArea;
      ghost var h, l, data := H(), L(), mData;
      FreeChunk(h, c);
      EvenFront(mSize[c], remainder);
      AtLeast(size);
      var candidateSize := Bytes(mSize[c]);
      ghost var good := remainder == candidateSize - size >= MIN_ALLOC;
      LinkRest(c, size, remainder);
      ghost var data1, data2, h1 := mData, mData, H();
      if good {
        CarveSteps(h, l, c, size, remainder);
        data1 :| Spared(data, data1, {c + size, c + size + remainder}, header)
                 && Spared(data1, mData, l.All() + {c + size}, header);
        assert c !in L().All();
        TagLists(h1, L(), c, size, 1, chunks);
      }
      SetSizeInUse(c, candidateSize - remainder);
      if good {
        Carved(h, l, c, size, remainder, H(), L());
        CarveBytes(h, c, size, data, data1, data2, mData, l.All() + {c + size}, header);
      } else {
        RestThenFront(h, c, c + size, remainder, candidateSize - remainder);
        SplitBreaks(h, c, size, remainder, H());
      }
    }

    // RequestToSize.
    function RequestToSize(n: nat): int {
      SizeFor(n, header)
    }

    // A fixed pool that has its area, or that could never hold the request.
    ghost predicate Refuses(size: int)
      reads this
    {
      mAreaMoreSize == 0 && (mAreas != 0 || size > mAreaInitSize)
    }

    // The area that Alloc asks for when nothing fits.
    ghost function AreaRequest(size: int): int {
      if mAreaMoreSize == 0 then mAreaInitSize else if size > mAreaMoreSize then size else mAreaMoreSize
    }

    // A new area would be split although the remainder is below the minimum, or no int32.
    ghost predicate Missplits(size: int)
      reads this
    {
      var area := if mAreaMoreSize == 0 then mAreaInitSize else mAreaMoreSize;
      !Refuses(size) && size <= area && !(MIN_ALLOC <= area - size < 0x8000_0000)
    }

    lemma MissplitsIs(size: int)
      requires Valid() && ChunkSize(size)
      ensures ChunkSize(AreaRequest(size)) || Refuses(size)
      ensures Missplits(size) <==> !Refuses(size) && !(mAreaMoreSize != 0 && size > mAreaMoreSize)
                                   && !(MIN_ALLOC <= AreaRequest(size) - size < 0x8000_0000)
    {
      hide Heap.Tiled, Heap.Consolidated, ListsOK, AreaRingOK, OnlyArea;
    }

    // Alloc, lines 371 to 406: nothing fits, so ask for an area.
    method AllocArea(size: int, base: int) returns (r: Option<int>)
      requires Valid() && ChunkSize(size)
      requires base != 0 && !Refuses(size) ==> H().Unused(base, AreaRequest(size))
      modifies this
      ensures r == if old(Refuses(size)) || base == 0 then None else Some(base + header)
      ensures r.None? ==> unchanged(this)
      ensures r.Some? ==> areas == old(areas)[base := AreaRequest(size)]
      ensures r.Some? && !old(Missplits(size)) ==>
        Valid() && Blocks() == old(Blocks())[base := size] && Kept(old(Blocks()), old(mData), mData, header)
      ensures r.Some? && old(Missplits(size)) ==> !Valid()
      ensures base != 0 && mAreaMoreSize != 0 ==> r == Some(base + header)
      ensures base != 0 && mAreaMoreSize != 0 && size > mAreaMoreSize ==>
        Valid() && areas == old(areas)[base := size] && Blocks() == old(Blocks())[base := size]
      ensures base != 0 && mAreaMoreSize != 0 && size <= mAreaMoreSize ==> areas == old(areas)[base := mAreaMoreSize]
      ensures base != 0 && mAreaMoreSize == 0 && old(areas) == map[] && size <= mAreaInitSize ==>
        r == Some(base + header) && areas == map[base := mAreaInitSize]
      ensures mAreaMoreSize == 0 && (old(areas) != map[] || size > mAreaInitSize) ==> r.None?
    {
      hide Heap.Tiled, Heap.Consolidated, Heap.FreeChunks, Heap.Blocks, Heap.WithArea, Heap.Unused;
      hide Lists.OK, Lists.All, Bytes, BinIndex, Spared, MasksMatch, AreaRing, Kept, Int32, Valid, OnlyArea, ChunkSize, Missplits;
      ValidFacts();
      MissplitsIs(size);
      NoRingNoAreas(mAreas, mAreaNext, mAreaPrev, mAreaSize, ring, areas);
      var areaSize := size;
      if mAreaMoreSize == 0 {
        if mAreas != 0 || size > mAreaInitSize {
          return None;
        }
        areaSize := mAreaInitSize;
      } else if size <= mAreaMoreSize {
        areaSize := mAreaMoreSize;
      }
      ghost var h, data := H(), mData;
      var ok := NewArea(areaSize, base);
      if !ok {
        return None;
      }
      FreshArea(h, base, areaSize);
      FreshBytes(h, base, areaSize, data, mData, header);
      WithAreaAreas(h, base, areaSize);
      ghost var data1 := mData;
      if mAreaMoreSize != 0 && size > mAreaMoreSize {
        UseWhole(base);
      } else {
        SplitArea(areaSize, size);
        Carve(base, size, Int32(areaSize - size));
      }
      if Valid() {
        KeptTwice(h.Blocks(), data, data1, mData, header);
      }
      r := Some(base + header);
    }

    // No chunk passes the search's test, but an area may be had.
    ghost predicate NeedsArea(size: int)
      reads this
    {
      NoneAccepted(L(), mSize, size) && !Refuses(size)
    }

    // Chunk c would be split with a remainder that is not the difference.
    ghost predicate Misfits(c: int, size: int)
      reads this
    {
      c in mSize && Int32(Bytes(mSize[c]) - size) >= MIN_ALLOC && Int32(Bytes(mSize[c]) - size) != Bytes(mSize[c]) - size
    }

    // What the search chooses is large enough, and the difference to it an int32.
    ghost predicate Sound(size: int)
      reads this
    {
      forall c :: c in mSize && Chosen(L(), mSize, c, size) ==> size <= Bytes(mSize[c]) < size + 0x8000_0000
    }

    // UnlinkFree on a chunk the search found.
    method TakeFree(c: int)
      requires Valid() && c in L().All()
      modifies this`mNext, this`mPrev, this`mBinBlocks, this`bins, this`mData
      ensures Taken(c) && Kept(Blocks(), old(mData), mData, header)
    {
      hide Heap.Tiled, Heap.Consolidated, Heap.FreeChunks, Heap.Blocks;
      hide Lists.OK, Lists.All, Bytes, BinIndex, Spared, MasksMatch, AreaRing, Kept;
      ghost var data := mData;
      ghost var i, k := WhereListed(L(), mSize, c);
      UnlinkFree(c, i, k);
      ListedBoundary(H());
      BlocksKept(H(), data, mData, H().FreeChunks(), header);
    }

    // When no difference wraps.
    lemma ClearFacts(size: int)
      requires Valid() && size >= 0 && Clear(L(), mSize, size)
      ensures NoneAccepted(L(), mSize, size) <==> NoFit(L(), mSize, size)
      ensures forall c :: Chosen(L(), mSize, c, size) ==> Best(L(), mSize, c, size) && !Misfits(c, size)
      ensures Sound(size)
    {
      hide Valid, Lists.OK, Lists.All, Bytes, Chosen, Best, NoneAccepted, NoFit, Clear, Int32;
      ValidFacts();
      ClearSearch(L(), mSize, size);
      forall c | c in mSize && Chosen(L(), mSize, c, size)
        ensures !Misfits(c, size)
      {
        RemainderTest(Bytes(mSize[c]), size);
      }
    }

    // No difference wraps for a request below 2^31 in areas below 2^31.
    lemma SmallPool(size: int)
      requires Valid() && 0 <= size < 0x8000_0000 && forall a :: a in areas ==> areas[a] < 0x8000_0000
      ensures Clear(L(), mSize, size) && Sound(size)
    {
      hide Valid, Lists.OK, Lists.All, Bytes, Clear, Heap.Tiled, Heap.Consolidated, Heap.FreeChunks, Int32, Chosen;
      ValidFacts();
      forall d | d in L().All() && d in mSize
        ensures 0 <= Bytes(mSize[d]) < 0x8000_0000
      {
        FreeChunk(H(), d);
        ChunkInside(H(), d, home[d]);
      }
      SmallClear(L(), mSize, size);
      ClearFacts(size);
    }

    // Alloc: the smallest chunk that passes the test, split if the remainder is large
    // enough; else a new area.  When no difference wraps this is a best fit.
    method Alloc(n: nat, base: int) returns (r: Option<int>)
      requires Valid()
      requires base != 0 && NeedsArea(RequestToSize(n)) ==> H().Unused(base, AreaRequest(RequestToSize(n)))
      modifies this
      ensures r.None? <==> old(NoneAccepted(L(), mSize, RequestToSize(n)) && (Refuses(RequestToSize(n)) || base == 0))
      ensures r.None? ==> unchanged(this)
      ensures r.Some? && !old(NeedsArea(RequestToSize(n))) ==>
        old(Chosen(L(), mSize, r.value - header, RequestToSize(n))) && areas == old(areas)
      ensures r.Some? && old(NeedsArea(RequestToSize(n))) ==>
        r.value == base + header && areas == old(areas)[base := AreaRequest(RequestToSize(n))]
      ensures r.Some? ==> r.value - header !in old(Blocks())
      ensures Valid() <==>
        !(r.Some? && if old(NeedsArea(RequestToSize(n))) then old(Missplits(RequestToSize(n)))
                     else old(Misfits(r.value - header, RequestToSize(n))))
      ensures r.Some? && Valid() ==>
        Blocks() == old(Blocks())[r.value - header := if old(NeedsArea(RequestToSize(n))) then RequestToSize(n)
                                                      else Granted(old(H()), r.value - header, RequestToSize(n))]
      ensures r.Some? && Valid() ==>
        && r.value - header in Blocks()
        && (Blocks()[r.value - header] >= RequestToSize(n) <==>
              old(NeedsArea(RequestToSize(n))) || old(Fits(r.value - header, RequestToSize(n))))
      ensures Valid() ==> Kept(old(Blocks()), old(mData), mData, header)
      ensures old(Clear(L(), mSize, RequestToSize(n))) ==>
        && (r.None? <==> old(NoFit(L(), mSize, RequestToSize(n)) && (Refuses(RequestToSize(n)) || base == 0)))
        && (r.Some? && !old(NeedsArea(RequestToSize(n))) ==>
              Valid() && old(Best(L(), mSize, r.value - header, RequestToSize(n))))
      ensures old(NoneAccepted(L(), mSize, RequestToSize(n))) && base != 0 && mAreaMoreSize != 0 ==>
        && r == Some(base + header)
        && (RequestToSize(n) > mAreaMoreSize ==>
              && Valid() && areas == old(areas)[base := RequestToSize(n)]
              && Blocks() == old(Blocks())[base := RequestToSize(n)])
        && (RequestToSize(n) <= mAreaMoreSize ==> areas == old(areas)[base := mAreaMoreSize])
      ensures old(NoneAccepted(L(), mSize, RequestToSize(n))) && base != 0 && mAreaMoreSize == 0 ==>
        if old(areas) != map[] || RequestToSize(n) > mAreaInitSize then r.None?
        else r == Some(base + header) && areas == map[base := mAreaInitSize]
      ensures old(Clear(L(), mSize, RequestToSize(n))) ==> old(Sound(RequestToSize(n)))
      ensures old(Sound(RequestToSize(n))) && r.Some? ==>
        && (!old(NeedsArea(RequestToSize(n))) ==> Valid())
        && (Valid() ==> RequestToSize(n) <= Blocks()[r.value - header] < RequestToSize(n) + MIN_ALLOC)
      ensures old(Sound(RequestToSize(n))) && old(!NoneAccepted(L(), mSize, RequestToSize(n))) ==>
        && r.Some? && r.value - header in old(mSize) && r.value - header in Blocks()
        && var c, size := Bytes(old(mSize)[r.value - header]), RequestToSize(n);
           Blocks()[r.value - header] == if c - size >= MIN_ALLOC then size else c
    {
      hide Heap.Tiled, Heap.Consolidated, Heap.FreeChunks, Heap.Blocks, Heap.Unused;
      hide Lists.OK, Lists.All, Bytes, BinIndex, Spared, MasksMatch, AreaRing, Kept, NoFit, Best, NoneAccepted, Chosen, Clear,
           Int32, Valid, Fits, Granted, Sound, Misfits, Missplits;
      ValidFacts();
      var size := RequestToSize(n);
      RequestFits(n, header);
      ghost var h, data := H(), mData;
      if Clear(L(), mSize, size) {
        ClearFacts(size);
      }
      var fit := FindFit(size);
      if fit == Nothing {
        r := AllocArea(size, base);
        if r.None? {
          KeptSame(h.Blocks(), mData, header);
        } else {
          FreshArea(h, base, AreaRequest(size));
          NotBlock(h, base);
        }
      } else {
        ChosenListed(L(), mSize, fit.chunk, size);
        UseFit(fit, size);
        r := Some(fit.chunk + header);
      }
    }

    // Alloc, found_exact_fit and found_bigger_fit.
    method UseFit(fit: Fit, size: int)
      requires Valid() && ChunkSize(size) && !fit.Nothing? && Chosen(L(), mSize, fit.chunk, size)
      requires fit.Exact? ==> Int32(Bytes(mSize[fit.chunk]) - size) < MIN_ALLOC
      requires fit.Bigger? ==> fit.remainder == Int32(Bytes(mSize[fit.chunk]) - size) >= MIN_ALLOC
      modifies this
      ensures fit.chunk !in old(Blocks()) && areas == old(areas) && (Valid() <==> !old(Misfits(fit.chunk, size)))
      ensures Valid() ==>
        && Blocks() == old(Blocks())[fit.chunk := Granted(old(H()), fit.chunk, size)]
        && Kept(old(Blocks()), old(mData), mData, header)
        && (Blocks()[fit.chunk] >= size <==> old(Fits(fit.chunk, size)))
      ensures old(Sound(size)) ==>
        && Valid() && fit.chunk in old(mSize)
        && size <= Blocks()[fit.chunk] < size + MIN_ALLOC
        && var c := Bytes(old(mSize)[fit.chunk]); Blocks()[fit.chunk] == if c - size >= MIN_ALLOC then size else c
    {
      hide Heap.Tiled, Heap.Consolidated, Heap.FreeChunks, Heap.Blocks, Heap.Unused;
      hide Lists.OK, Lists.All, Bytes, BinIndex, Spared, MasksMatch, AreaRing, Kept, NoFit, Best, NoneAccepted, Chosen, Clear,
           Int32, Valid;
      ChosenListed(L(), mSize, fit.chunk, size);
      RemainderTest(Bytes(mSize[fit.chunk]), size);
      match fit {
        case Exact(c) => UseExact(c);
        case Bigger(c, remainder) => UseBigger(c, size, remainder);
      }
    }

    lemma MisfitIs(c: int, size: int)
      requires c in mSize && Int32(Bytes(mSize[c]) - size) >= MIN_ALLOC
      ensures Misfits(c, size) <==> Int32(Bytes(mSize[c]) - size) != Bytes(mSize[c]) - size
    {
    }

    // Alloc, found_exact_fit.
    method UseExact(c: int)
      requires Valid() && c in L().All() && c in mSize
      modifies this
      ensures Valid() && Blocks() == old(Blocks())[c := Bytes(old(mSize)[c])] && areas == old(areas)
      ensures c !in old(Blocks()) && Kept(old(Blocks()), old(mData), mData, header)
    {
      hide Heap.Tiled, Heap.Consolidated, Heap.FreeChunks, Heap.Blocks;
      hide Lists.OK, Lists.All, Bytes, BinIndex, Spared, MasksMatch, AreaRing, Kept, Valid;
      ValidFacts();
      ghost var h, data := H(), mData;
      FreeNotBlock(h, c);
      TakeFree(c);
      ghost var data1 := mData;
      UseWhole(c);
      KeptTwice(h.Blocks(), data, data1, mData, header);
    }

    // Alloc, found_bigger_fit.
    method UseBigger(c: int, size: int, remainder: int)
      requires Valid() && ChunkSize(size) && c in L().All() && c in mSize
      requires remainder == Int32(Bytes(mSize[c]) - size) >= MIN_ALLOC
      modifies this
      ensures c !in old(Blocks()) && areas == old(areas) && (Valid() <==> !old(Misfits(c, size)))
      ensures Valid() ==>
        Blocks() == old(Blocks())[c := size] && Kept(old(Blocks()), old(mData), mData, header)
    {
      hide Heap.Tiled, Heap.Consolidated, Heap.FreeChunks, Heap.Blocks;
      hide Lists.OK, Lists.All, Bytes, BinIndex, Spared, MasksMatch, AreaRing, Kept, Int32, Valid, ChunkSize, Misfits;
      ValidFacts();
      ghost var h, data := H(), mData;
      EvenRemainder(mSize[c], size);
      MisfitIs(c, size);
      FreeNotBlock(h, c);
      TakeFree(c);
      ghost var data1 := mData;
      Carve(c, size, remainder);
      if !old(Misfits(c, size)) {
        KeptTwice(h.Blocks(), data, data1, mData, header);
      }
    }

    ghost predicate Fits(c: int, size: int)
      reads this
    {
      c in mSize && Bytes(mSize[c]) >= size
    }

    // Block c, with the free neighbours in lo .. hi off their lists.
    ghost predicate Grown(c: int, lo: int, hi: int)
      reads this
    {
      && Configured()
      && H().Tiled() && H().Consolidated()
      && c in Blocks() && Grows(H(), c, lo, hi)
      && ListsOK() && L().All() == H().FreeChunks() - Between(H(), lo, hi) - {lo}
      && AreaRingOK()
    }

    // Realloc, line 522: the whole range becomes the block.
    method HoldWhole(lo: int, newsize: int, ghost c: int)
      requires Grown(c, lo, lo + newsize)
      modifies this`mSize, this`mPrevSize, this`mData, this`chunks
      ensures Valid() && Blocks() == (old(Blocks()) - {c})[lo := newsize]
      ensures Kept(old(Blocks()) - {c}, old(mData), mData, header)
      ensures SameBytes(old(mData), mData, c + header, c + old(H().Size(c)))
    {
      hide Heap.Tiled, Heap.Consolidated, Heap.FreeChunks, Heap.Blocks, Heap.Tag, Between, Grows;
      hide Lists.OK, Lists.All, Bytes, BinIndex, Spared, MasksMatch, AreaRing, Kept, SameBytes;
      ghost var h, data := H(), mData;
      GrowSize(h, c, lo, lo + newsize);
      HeldHeap(h, c, lo, lo + newsize);
      TagLists(h, L(), lo, newsize, 1, chunks - Between(h, lo, lo + newsize));
      chunks := chunks - Between(h, lo, lo + newsize);
      SetSizeInUse(lo, newsize);
      TagChunks(h, chunks, lo, newsize, 1);
      HeldBytes(h, c, lo, lo + newsize, data, mData, header);
    }

    // Realloc, lines 516 to 519: the tags of the two parts of lo .. lo + newsize.
    method TagBoth(lo: int, size: int, newsize: int)
      requires lo in home && lo >= 0 && ChunkSize(size) && newsize % ALIGN == 0 && newsize - size >= MIN_ALLOC
      modifies this`mSize, this`mPrevSize, this`mData, this`chunks, this`home
      ensures H() == old(CutHeld(H(), lo, lo + size, lo + newsize))
      ensures SparedInTurn(old(mData), mData, {lo + size, lo + newsize}, {lo, lo + size}, header)
      ensures forall a :: lo + size <= a < lo + size + header ==> a !in mData
      ensures L() == old(L()) && (old(AreaRingOK()) ==> AreaRingOK())
    {
      hide Spared, SparedInTurn, Between, Heap.Tag, RestTagged, Bytes, AreaRing, ChunkSize;
      ghost var h, data := H(), mData;
      EvenParts(size, newsize);
      AtLeast(size);
      CutHeldSteps(h, lo, lo + size, lo + newsize);
      chunks := chunks - Between(h, lo, lo + newsize);
      TagRest(lo, lo + size, newsize - size, true);
      ghost var data1 := mData;
      SetSizeInUse(lo, size);
      SparedKeys(data1, mData, {lo, lo + size}, header);
      BothInTurn(data, data1, mData, {lo + size, lo + newsize}, {lo, lo + size}, header);
    }

    // Realloc, lines 516 to 519: the range is cut in two blocks.
    method HoldCut(lo: int, size: int, newsize: int, ghost c: int)
      requires Grown(c, lo, lo + newsize) && ChunkSize(size) && newsize - size >= MIN_ALLOC
      modifies this`mSize, this`mPrevSize, this`mData, this`chunks, this`home
      ensures lo in old(home) && H() == old(CutHeld(H(), lo, lo + size, lo + newsize)) && Valid()
      ensures SparedInTurn(old(mData), mData, {lo + size, lo + newsize}, {lo, lo + size}, header)
      ensures forall a :: lo + size <= a < lo + size + header ==> a !in mData
    {
      hide Heap.Tiled, Heap.Consolidated, Heap.FreeChunks, Heap.Blocks, Heap.Tag, Between, Grows, RestTagged, CutHeld;
      hide Lists.OK, Lists.All, Bytes, BinIndex, Spared, SparedInTurn, MasksMatch, AreaRing, Kept, SameBytes;
      ghost var h := H();
      GrowSize(h, c, lo, lo + newsize);
      HeldCut(h, c, lo, size, lo + newsize);
      CutLists(h, L(), lo, lo + size, lo + newsize);
      TagBoth(lo, size, newsize);
    }

    // Realloc, split: cut off what is not needed and free it.
    method Resize(lo: int, newsize: int, size: int, ghost c: int)
      requires Grown(c, lo, lo + newsize) && ChunkSize(size) && size <= newsize
      modifies this
      ensures Valid() && areas == old(areas)
      ensures Blocks() == (old(Blocks()) - {c})[lo := if newsize - size >= MIN_ALLOC then size else newsize]
      ensures Kept(old(Blocks()) - {c}, old(mData), mData, header)
      ensures var n := old(H().Size(c));
        && (lo == c ==> SameBytes(old(mData), mData, c + header, c + Min(n, Blocks()[lo])))
        && (lo != c && !Clobbers(c, n, lo, size, lo + newsize, header) ==>
              SameBytes(old(mData), mData, c + header, c + n))
        && (Clobbers(c, n, lo, size, lo + newsize, header) ==>
              forall a :: lo + size <= a < lo + size + header ==> a !in mData)
    {
      hide Heap.Tiled, Heap.Consolidated, Heap.FreeChunks, Heap.Blocks, Heap.Tag, Between, Grows, CutHeld;
      hide Lists.OK, Lists.All, Bytes, BinIndex, Spared, MasksMatch, AreaRing, Kept, SameBytes, AreasLeft;
      ghost var h, data, hi := H(), mData, lo + newsize;
      GrowSize(h, c, lo, hi);
      if newsize - size >= MIN_ALLOC {
        HeldCut(h, c, lo, size, hi);
        HoldCut(lo, size, newsize, c);
        ghost var data1 :| Spared(data, data1, {lo + size, hi}, header) && Spared(data1, mData, {lo, lo + size}, header);
        ghost var data2, h2 := mData, H();
        NotLastArea(h2, lo + size, lo, mAreaMoreSize != 0);
        Free(lo + size + header);
        CutBytes(h, c, lo, size, hi, data, data1, data2, mData, header);
        OwnBytes(c, h.Size(c), lo, size, hi, data, mData, header);
      } else {
        HoldWhole(lo, newsize, c);
      }
    }

    // Realloc, lines 480 and 509.
    method TakeBoth(next: int, prev: int)
      requires ListsOK() && next in L().All() && prev in L().All() && next != prev && header > 0
      modifies this`mNext, this`mPrev, this`mBinBlocks, this`bins, this`mData
      ensures ListsOK() && L().All() == old(L().All()) - {next} - {prev}
      ensures Spared(old(mData), mData, old(L().All()), header)
    {
      hide Lists.OK, Lists.All, Bytes, BinIndex, Spared, MasksMatch;
      ghost var data, all := mData, L().All();
      ghost var i, k := WhereListed(L(), mSize, next);
      UnlinkFree(next, i, k);
      ghost var data1, all1 := mData, L().All();
      i, k := WhereListed(L(), mSize, prev);
      UnlinkFree(prev, i, k);
      SparedBoth(data, data1, mData, all, all1, header);
      assert all + all1 == all;
    }

    // Realloc, lines 453 to 490: take free neighbours off their lists, forward first.
    method GrowInPlace(c: int, size: int) returns (found: bool, lo: int, newsize: int)
      requires Valid() && c in Blocks()
      modifies this`mNext, this`mPrev, this`mBinBlocks, this`bins, this`mData
      ensures found <==> InPlace(H(), c, size)
      ensures !found ==> unchanged(this)
      ensures found ==> lo == NewLo(H(), c, size) && newsize == NewSpan(H(), c, size) && size <= newsize
      ensures found ==> Grown(c, lo, lo + newsize)
      ensures found ==> Spared(old(mData), mData, H().FreeChunks(), header)
    {
      hide Heap.Tiled, Heap.Consolidated, Heap.FreeChunks, Heap.Blocks, Between, SpanLo, SpanHi;
      hide Lists.OK, Lists.All, Bytes, BinIndex, Spared, MasksMatch, AreaRing;
      ghost var h, all := H(), L().All();
      BlockTags(h, c);
      SparedSame(mData, all, header);
      var oldsize := Bytes(mSize[c]);
      lo, newsize := c, oldsize;
      if oldsize < size {
        var next, nextsize := c + oldsize, 0;
        var nextFree := mSize[next] % 2 == 0;
        if nextFree {
          nextsize := Bytes(mSize[next]);
          if nextsize + newsize >= size {
            GrowLists(h, c, c, c + oldsize + nextsize);
            ghost var i, k := WhereListed(L(), mSize, next);
            UnlinkFree(next, i, k);
            return true, c, newsize + nextsize;
          }
        }
        var prev := c - Bytes(mPrevSize[c]);
        if mSize[prev] % 2 == 0 {
          var prevsize := Bytes(mSize[prev]);
          if nextFree && nextsize + prevsize + newsize >= size {
            GrowLists(h, c, prev, c + oldsize + nextsize);
            TakeBoth(next, prev);
            return true, prev, newsize + nextsize + prevsize;
          }
          if prevsize + newsize >= size {
            GrowLists(h, c, prev, c + oldsize);
            ghost var i, k := WhereListed(L(), mSize, prev);
            UnlinkFree(prev, i, k);
            return true, prev, newsize + prevsize;
          }
        }
        return false, c, oldsize;
      }
      GrowLists(h, c, c, c + oldsize);
      found := true;
    }

    // The areas once Alloc has found room for a block of this size.
    ghost function AreasAsked(size: int, base: int): map<int, int>
      reads this
    {
      if NeedsArea(size) then areas[base := AreaRequest(size)] else areas
    }

    // Realloc, lines 492 to 505: a new block, a copy, and the old block freed.
    method ReallocElsewhere(ptr: int, n: nat, base: int) returns (r: Option<int>)
      requires Valid() && Sound(RequestToSize(n))
      requires ptr - header in Blocks() && Blocks()[ptr - header] < RequestToSize(n) && ptr != 0
      requires NeedsArea(RequestToSize(n)) ==> !Missplits(RequestToSize(n))
      requires base != 0 && NeedsArea(RequestToSize(n)) ==> H().Unused(base, AreaRequest(RequestToSize(n)))
      modifies this
      ensures Valid()
      ensures r.None? <==> old(Throws(RequestToSize(n), base))
      ensures r.None? ==> unchanged(this)
      ensures r.Some? ==>
        && r.value - header !in old(Blocks()) && r.value - header in Blocks()
        && RequestToSize(n) <= Blocks()[r.value - header] < RequestToSize(n) + MIN_ALLOC
        && Blocks() == (old(Blocks()) - {ptr - header})[r.value - header := Blocks()[r.value - header]]
        && Kept(old(Blocks()) - {ptr - header}, old(mData), mData, header)
        && Copied(old(mData), ptr, mData, r.value, old(Blocks()[ptr - header]) - header)
        && areas == AreasMoved(old(AreasAsked(RequestToSize(n), base)), Blocks(), ptr - header, mAreaMoreSize != 0)
    {
      hide Heap.Tiled, Heap.Consolidated, Heap.FreeChunks, Heap.Blocks, Heap.Unused;
      hide Lists.OK, Lists.All, Bytes, BinIndex, MasksMatch, AreaRing, Kept, NoneAccepted, Chosen, Copied, SameBytes, Moved,
           AreasLeft, AreasMoved, OnlyArea;
      ghost var blocks, data, c := Blocks(), mData, ptr - header;
      BlockSizes(H(), c);
      var oldsize := Bytes(mSize[ptr - header]);
      r := Alloc(n, base);
      if r.None? {
        return;
      }
      ghost var t, h1, data1 := r.value - header, H(), mData;
      KeptBlock(blocks, c, data, data1, header);
      mData := Moved(mData, r.value, ptr, oldsize - header);
      ghost var data2 := mData;
      MovedCopies(data, data1, r.value, ptr, oldsize - header);
      MoveInto(h1, t, data1, ptr, oldsize - header, header);
      AddedBlocks(blocks, h1.Blocks(), t);
      KeptTwice(blocks, data, data1, data2, header);
      MovedAreas(h1, c, mAreaMoreSize != 0);
      Free(ptr);
      KeptBlock(h1.Blocks(), t, data2, mData, header);
      SameFewer(data2, mData, t + header, t + h1.Blocks()[t], t + oldsize);
      CopiedKept(data, ptr, data2, r.value, oldsize - header, mData);
      KeptSub(h1.Blocks(), blocks, data2, mData, header);
      KeptTwice(blocks, data, data2, mData, header);
      KeptFewer(blocks, {c}, data, mData, header);
    }

    // Realloc, from alloc_prev and split on: settle the range, then move the bytes to its front.
    method SplitAndCopy(ptr: int, lo: int, newsize: int, size: int) returns (outPtr: int)
      requires Grown(ptr - header, lo, lo + newsize) && ChunkSize(size) && size <= newsize
      requires lo != ptr - header ==> Blocks()[ptr - header] < size
      modifies this
      ensures Valid() && areas == old(areas) && outPtr == lo + header
      ensures Blocks() == (old(Blocks()) - {ptr - header})[lo := if newsize - size >= MIN_ALLOC then size else newsize]
      ensures Kept(old(Blocks()) - {ptr - header}, old(mData), mData, header)
      ensures var c, n := ptr - header, old(Blocks()[ptr - header]);
        && (!Clobbers(c, n, lo, size, lo + newsize, header) ==>
              Copied(old(mData), ptr, mData, outPtr, Min(n, Blocks()[lo]) - header))
        && (Clobbers(c, n, lo, size, lo + newsize, header) ==> Missing(mData, outPtr, n - header))
    {
      hide Heap.Tiled, Heap.Consolidated, Heap.FreeChunks, Heap.Blocks, Heap.Tag, Between, Grows, CutHeld, Clobbers;
      hide Lists.OK, Lists.All, Bytes, BinIndex, Spared, MasksMatch, AreaRing, Kept, SameBytes, Copied, Missing, Moved;
      ghost var blocks, data, hi := Blocks(), mData, lo + newsize;
      var c := ptr - header;
      GrowSize(H(), c, lo, hi);
      BlockSizes(H(), c);
      var oldsize := Bytes(mSize[c]);
      Resize(lo, newsize, size, c);
      ghost var data1 := mData;
      outPtr := lo + header;
      if lo != c {
        mData := Moved(mData, outPtr, ptr, oldsize - header);
        MoveInto(H(), lo, data1, ptr, oldsize - header, header);
        AddedBlock(blocks - {c}, lo, if newsize - size >= MIN_ALLOC then size else newsize);
        KeptSub(H().Blocks() - {lo}, blocks - {c} - {lo}, data1, mData, header);
        BackwardFree(old(H()), c, lo, hi);
        KeptTwice(blocks - {c}, data, data1, mData, header);
        if Clobbers(c, oldsize, lo, size, hi, header) {
          LostByte(data1, c, oldsize, lo, size, hi, header);
        } else {
          MovedCopies(data, data1, outPtr, ptr, oldsize - header);
        }
      } else {
        NoClobber(c, oldsize, lo, size, hi, header);
        SameCopied(data, mData, ptr, Min(oldsize, Blocks()[lo]) - header);
      }
    }

    // Alloc throws: no chunk passes the test, and there is no area to be had.
    ghost predicate Throws(size: int, base: int)
      reads this
    {
      NoneAccepted(L(), mSize, size) && (Refuses(size) || base == 0)
    }

    // The request cannot be met where the block is.
    ghost predicate Moves(ptr: int, size: int)
      reads this
    {
      ptr == 0 || !InPlace(H(), ptr - header, size)
    }

    ghost function BlockSize(c: int): int
      reads this
    {
      if c in Blocks() then Blocks()[c] else 0
    }

    // The cut that comes before the move hits bytes that are to be moved.
    ghost predicate Overwrites(ptr: int, size: int)
      reads this
    {
      var c := ptr - header;
      var lo := NewLo(H(), c, size);
      !Moves(ptr, size) && c in Blocks() && Clobbers(c, Blocks()[c], lo, size, lo + NewSpan(H(), c, size), header)
    }

    // Realloc where the block and its free neighbours are large enough.
    method ReallocInPlace(ptr: int, size: int) returns (found: bool, r: Option<int>)
      requires Valid() && ptr != 0 && ptr - header in Blocks() && ChunkSize(size)
      modifies this
      ensures Valid() && (found <==> !old(Moves(ptr, size)))
      ensures !found ==> unchanged(this)
      ensures found ==>
        && r == Some(NewLo(old(H()), ptr - header, size) + header)
        && r.value - header in Blocks() && size <= Blocks()[r.value - header] < size + MIN_ALLOC
        && Blocks() == (old(Blocks()) - {ptr - header})[r.value - header := Blocks()[r.value - header]]
        && Kept(old(Blocks()) - {ptr - header}, old(mData), mData, header)
        && areas == old(areas)
      ensures found ==>
        var span := NewSpan(old(H()), ptr - header, size);
        Blocks()[r.value - header] == if span - size >= MIN_ALLOC then size else span
      ensures Forward(old(H()), ptr - header) >= size ==>
        && found && r == Some(ptr)
        && Copied(old(mData), ptr, mData, ptr, Min(old(BlockSize(ptr - header)), BlockSize(ptr - header)) - header)
      ensures var h, c := old(H()), ptr - header;
        forall p :: InFront(h, p, c) ==>
          Forward(h, c) < size <= c - p + Forward(h, c) ==> found && r == Some(p + header)
      ensures found && !old(Overwrites(ptr, size)) ==>
        Copied(old(mData), ptr, mData, r.value, Min(old(Blocks())[ptr - header], Blocks()[r.value - header]) - header)
      ensures old(Overwrites(ptr, size)) ==> found && Missing(mData, r.value, old(Blocks())[ptr - header] - header)
    {
      hide Heap.Tiled, Heap.Consolidated, Heap.FreeChunks, Heap.Blocks, Heap.Tag, Heap.Unused, Between, Grows, CutHeld, Clobbers;
      hide Lists.OK, Lists.All, Bytes, BinIndex, Spared, MasksMatch, AreaRing, Kept, SameBytes, Copied, Missing;
      hide NoFit, NoneAccepted, Chosen, Clear, InPlace, NewLo, NewSpan, Best, OnlyArea, Forward, InFront;
      StaysWhole(ptr, size);
      r := None;
      ghost var h, blocks, data := H(), Blocks(), mData;
      var oldChunk := ptr - header;
      BlockSizes(h, oldChunk);
      GrowsWhere(h, oldChunk, size);
      var lo, newsize;
      found, lo, newsize := GrowInPlace(oldChunk, size);
      if !found {
        return;
      }
      ghost var data1 := mData;
      ListedBoundary(h);
      BlocksKept(h, data, data1, h.FreeChunks(), header);
      BackwardGrows(h, oldChunk, size);
      var outPtr := SplitAndCopy(ptr, lo, newsize, size);
      KeptFewer(blocks, {oldChunk}, data, data1, header);
      KeptTwice(blocks - {oldChunk}, data, data1, mData, header);
      KeptBlock(blocks, oldChunk, data, data1, header);
      if !old(Overwrites(ptr, size)) {
        CopiedFrom(data, data1, ptr, blocks[oldChunk] - header, mData, outPtr, Min(blocks[oldChunk], Blocks()[lo]) - header);
      }
      r := Some(outPtr);
    }

    // Realloc: in place, forward, forward and backward, backward, or elsewhere.
    method Realloc(ptr: int, n: nat, base: int) returns (r: Option<int>)
      requires Valid() && (ptr != 0 ==> ptr - header in Blocks())
      requires Moves(ptr, RequestToSize(n)) ==> Sound(RequestToSize(n))
      requires Moves(ptr, RequestToSize(n)) && NeedsArea(RequestToSize(n)) ==>
                 !Missplits(RequestToSize(n)) && (base != 0 ==> H().Unused(base, AreaRequest(RequestToSize(n))))
      modifies this
      ensures Valid()
      ensures r.None? <==> old(Moves(ptr, RequestToSize(n)) && Throws(RequestToSize(n), base))
      ensures old(Clear(L(), mSize, RequestToSize(n))) ==>
        (r.None? <==> old(Moves(ptr, RequestToSize(n)) && NoFit(L(), mSize, RequestToSize(n))
                          && (Refuses(RequestToSize(n)) || base == 0)))
      ensures r.None? ==> unchanged(this)
      ensures r.Some? ==>
        && r.value - header in Blocks()
        && RequestToSize(n) <= Blocks()[r.value - header] < RequestToSize(n) + MIN_ALLOC
        && Blocks() == (old(Blocks()) - {ptr - header})[r.value - header := Blocks()[r.value - header]]
        && Kept(old(Blocks()) - {ptr - header}, old(mData), mData, header)
      ensures r.Some? && old(Moves(ptr, RequestToSize(n))) ==>
        && r.value - header !in old(Blocks())
        && areas == AreasMoved(old(AreasAsked(RequestToSize(n), base)), Blocks(), ptr - header, mAreaMoreSize != 0)
      ensures mAreaMoreSize == 0 && old(areas) != map[] ==> areas == old(areas)
      ensures r.Some? && !old(Moves(ptr, RequestToSize(n))) ==>
        var span := NewSpan(old(H()), ptr - header, RequestToSize(n));
        && areas == old(areas) && r.value - header == NewLo(old(H()), ptr - header, RequestToSize(n))
        && Blocks()[r.value - header] == if span - RequestToSize(n) >= MIN_ALLOC then RequestToSize(n) else span
      ensures ptr != 0 && Forward(old(H()), ptr - header) >= RequestToSize(n) ==>
        r == Some(ptr) && Copied(old(mData), ptr, mData, ptr, Min(old(BlockSize(ptr - header)), BlockSize(ptr - header)) - header)
      ensures var h, c, size := old(H()), ptr - header, RequestToSize(n);
        forall p :: InFront(h, p, c) ==>
          ptr != 0 && Forward(h, c) < size <= c - p + Forward(h, c) ==> r == Some(p + header)
      ensures r.Some? && ptr != 0 && !old(Overwrites(ptr, RequestToSize(n))) ==>
        Copied(old(mData), ptr, mData, r.value, Min(old(Blocks())[ptr - header], Blocks()[r.value - header]) - header)
      ensures ptr != 0 && old(Overwrites(ptr, RequestToSize(n))) ==>
        r.Some? && Missing(mData, r.value, old(Blocks())[ptr - header] - header)
    {
      hide Heap.Tiled, Heap.Consolidated, Heap.FreeChunks, Heap.Blocks, Heap.Unused;
      hide Lists.OK, Lists.All, Bytes, Kept, Copied, Missing, NoFit, NoneAccepted, Chosen, Clear, InPlace, NewLo, Best, AreasMoved,
           Valid, Int32, Sound, Missplits, AreaRing, AreasAsked, Overwrites, Forward, InFront, NewSpan;
      ValidFacts();
      var size := RequestToSize(n);
      RequestFits(n, header);
      ghost var h, blocks, data := H(), Blocks(), mData;
      FixedAsked(size, base);
      if Clear(L(), mSize, size) {
        ClearFacts(size);
      }
      if ptr == 0 {
        r := ReallocNull(n, base);
        NotNegative(h, -header);
        if r.Some? {
          ValidFacts();
          NothingMoved(H(), Blocks(), -header, mAreaMoreSize != 0);
          KeptFewer(blocks, {-header}, data, mData, header);
        }
        return;
      }
      InPlaceOnly(ptr, size);
      var found;
      found, r := ReallocInPlace(ptr, size);
      if !found {
        SmallSpan(h, ptr - header, size);
        r := ReallocElsewhere(ptr, n, base);
        NotGrowable(old(areas), Blocks(), ptr - header);
      }
    }

    lemma FixedAsked(size: int, base: int)
      requires AreaRingOK()
      ensures mAreaMoreSize == 0 && areas != map[] ==> AreasAsked(size, base) == areas
    {
      hide AreaRing, NoneAccepted;
      NoRingNoAreas(mAreas, mAreaNext, mAreaPrev, mAreaSize, ring, areas);
    }

    // Nothing is overwritten in a block that stays where it is.
    lemma StaysWhole(ptr: int, size: int)
      ensures Overwrites(ptr, size) ==> NewLo(H(), ptr - header, size) != ptr - header
    {
      hide Heap.Blocks, InPlace, NewLo;
    }

    lemma InPlaceOnly(ptr: int, size: int)
      ensures Overwrites(ptr, size) ==> !Moves(ptr, size)
    {
    }

    // Realloc of NULL.
    method ReallocNull(n: nat, base: int) returns (r: Option<int>)
      requires Valid() && Sound(RequestToSize(n))
      requires NeedsArea(RequestToSize(n)) ==>
                 !Missplits(RequestToSize(n)) && (base != 0 ==> H().Unused(base, AreaRequest(RequestToSize(n))))
      modifies this
      ensures Valid() && (r.None? <==> old(Throws(RequestToSize(n), base)))
      ensures r.None? ==> unchanged(this)
      ensures r.Some? ==>
        && r.value - header !in old(Blocks()) && r.value - header in Blocks()
        && RequestToSize(n) <= Blocks()[r.value - header] < RequestToSize(n) + MIN_ALLOC
        && Blocks() == old(Blocks())[r.value - header := Blocks()[r.value - header]]
        && Kept(old(Blocks()), old(mData), mData, header)
        && areas == old(AreasAsked(RequestToSize(n), base))
    {
      hide Heap.Tiled, Heap.Consolidated, Heap.FreeChunks, Heap.Blocks, Heap.Unused;
      hide Lists.OK, Lists.All, Bytes, Kept, NoFit, NoneAccepted, Chosen, Clear, Best, Valid, Int32, Sound, Missplits;
      r := Alloc(n, base);
    }

    // What the owner of block b does: byte v is written at address a of the block.
    method Store(a: int, v: int, ghost b: int)
      requires Valid() && b in Blocks() && b + header <= a < b + Blocks()[b]
      modifies this`mData
      ensures Valid() && H() == old(H()) && mData == old(mData)[a := v]
    {
      hide Heap.Tiled, Heap.Consolidated, Heap.FreeChunks, Heap.Blocks, Lists.OK, Lists.All, MasksMatch, AreaRing;
      mData := mData[a := v];
    }

    // --- setting up and starting over ---

    constructor (initSize: nat, moreSize: nat, headerSize: int, base: int)
      requires headerSize == 16 || headerSize == 32
      requires (initSize == 0 || ChunkSize(initSize)) && (moreSize == 0 || ChunkSize(moreSize))
      requires initSize != 0 && base != 0 ==> base >= 2 * headerSize && base % ALIGN == 0
      ensures Valid() && Blocks() == map[]
      ensures areas == if initSize == 0 || base == 0 then map[] else map[base := initSize]
      ensures mAreaInitSize == initSize && mAreaMoreSize == moreSize && header == headerSize
    {
      mSize, mPrevSize, mNext, mPrev, mData := map[], map[], map[], map[], map[];
      mBinBlocks := [];
      mAreas, mAreaNext, mAreaPrev, mAreaSize := 0, map[], map[], map[];
      mAreaInitSize, mAreaMoreSize, header := initSize, moreSize, headerSize;
      areas, chunks, home, bins, ring := map[], {}, map[], [], [];
      new;
      InitBins();
      EmptyHeap(H());
      var ok := InitAlloc(base);
    }

    method InitBins()
      modifies this`mNext, this`mPrev, this`mBinBlocks, this`bins
      ensures ListsOK() && L().All() == {}
    {
      hide Lists.OK, Lists.All, MasksMatch;
      for i := 0 to NUM_BINS
        invariant forall j :: 0 <= j < i ==>
          Head(j) in mNext && mNext[Head(j)] == Head(j) && Head(j) in mPrev && mPrev[Head(j)] == Head(j)
      {
        mNext := mNext[Head(i) := Head(i)];
        mPrev := mPrev[Head(i) := Head(i)];
      }
      mBinBlocks := [0, 0, 0, 0];
      bins := seq(NUM_BINS, i => []);
      EmptyBins(L(), mSize);
      NoMarks(bins);
    }

    // InitAlloc; not ok when the area function returned NULL.
    method InitAlloc(base: int) returns (ok: bool)
      requires Valid() && mAreas == 0 && (base != 0 && mAreaInitSize != 0 ==> H().Unused(base, mAreaInitSize))
      modifies this
      ensures ok <==> mAreaInitSize == 0 || base != 0
      ensures !ok || mAreaInitSize == 0 ==> unchanged(this)
      ensures ok && mAreaInitSize != 0 ==>
        Blocks() == old(Blocks()) && areas == old(areas)[base := mAreaInitSize] && Kept(Blocks(), old(mData), mData, header)
      ensures Valid()
    {
      hide Heap.Tiled, Heap.Consolidated, Heap.FreeChunks, Heap.Blocks, Heap.WithArea, Heap.Unused;
      hide Lists.OK, Lists.All, Bytes, BinIndex, Spared, MasksMatch, AreaRing, Kept;
      if mAreaInitSize == 0 {
        return true;
      }
      ghost var h, data := H(), mData;
      NoRingNoAreas(mAreas, mAreaNext, mAreaPrev, mAreaSize, ring, areas);
      ok := NewArea(mAreaInitSize, base);
      if !ok {
        return;
      }
      FreshArea(h, base, mAreaInitSize);
      FreshBytes(h, base, mAreaInitSize, data, mData, header);
      WithAreaAreas(h, base, mAreaInitSize);
      ghost var data1 := mData;
      FreeChunk(H(), mAreas);
      LinkFree(mAreas);
      ListedBoundary(H());
      assert L().All() == H().FreeChunks();
      BlocksKept(H(), data1, mData, H().FreeChunks(), header);
      KeptTwice(h.Blocks(), data, data1, mData, header);
    }

    // The areas of s are one free chunk each, and these are what is listed.
    ghost predicate ResetSoFar(s: set<int>)
      reads this
    {
      && Configured()
      && H().Tiled() && H().Consolidated()
      && ListsOK() && L().All() == s && Cleared(H(), s)
      && AreaRingOK()
    }

    // SetSizeFree and SetNeighborsInUse on the first chunk of an area.
    method RetagArea(area: int, size: int)
      requires H().Tiled() && H().Consolidated() && area in areas && size == areas[area]
      modifies this`mSize, this`mPrevSize, this`mData, this`chunks
      ensures H() == Reset(old(H()), area)
      ensures L() == old(L()) && (old(AreaRingOK()) ==> AreaRingOK())
    {
      hide Heap.Tiled, Heap.Consolidated, Heap.FreeChunks, Heap.Blocks, Heap.Tag, Between, Bytes;
      ghost var h := H();
      ResetArea(h, area);
      SetSizeFree(area, size);
      chunks := chunks - Between(h, area, h.End(area));
      TagChunks2(h, chunks, area, size, 0);
      assert H() == Reset(h, area);
      SetAgain(mPrevSize, area, IN_USE);
      SetAgain(mSize, area + size, IN_USE);
      mPrevSize := mPrevSize[area := IN_USE];
      mSize := mSize[area + size := IN_USE];
    }

    // FreeAllInternal, lines 138 to 142.
    method ResetOne(area: int, ghost s: set<int>)
      requires ResetSoFar(s) && area in areas && area !in s
      modifies this`mSize, this`mPrevSize, this`mData, this`chunks, this`mNext, this`mPrev, this`mBinBlocks, this`bins
      ensures ResetSoFar(s + {area})
    {
      hide Heap.Tiled, Heap.Consolidated, Heap.FreeChunks, Heap.Blocks, Heap.Tag, Between;
      hide Lists.OK, Lists.All, Bytes, BinIndex, Spared, MasksMatch, AreaRing, Cleared;
      ghost var h := H();
      ResetArea(h, area);
      ClearMore(h, s, area);
      TagLists(h, L(), area, h.areas[area], 0, chunks - Between(h, area, h.End(area)));
      var size := AreaSizeOf(area);
      RetagArea(area, size);
      FreeChunk(H(), area);
      LinkFree(area);
    }

    method AreaSizeOf(area: int) returns (size: int)
      requires AreaRingOK() && area in areas
      ensures size == areas[area]
    {
      hide RingOK, Distinct;
      size := mAreaSize[area];
    }

    // FreeAllInternal: every block is given up, the areas stay.
    method FreeAllInternal()
      requires Valid()
      modifies this
      ensures Valid() && Blocks() == map[] && areas == old(areas)
      ensures H().FreeChunks() == areas.Keys && forall b :: b in areas ==> H().Spans(b)
    {
      hide Heap.Tiled, Heap.Consolidated, Heap.FreeChunks, Heap.Blocks;
      hide Lists.OK, Lists.All, Bytes, BinIndex, MasksMatch, RingOK, Distinct, Cleared;
      InitBins();
      NothingCleared(H());
      var area := mAreas;
      ghost var done: set<int> := {};
      if area != 0 {
        var firstArea, more := area, true;
        ghost var j := 0;
        while more
          invariant ResetSoFar(done) && areas == old(areas)
          invariant ring == old(ring) && ring != [] && ring[0] == firstArea && mAreaNext == old(mAreaNext)
          invariant 0 <= j <= |ring| && done == (set i | 0 <= i < j :: ring[i])
          invariant more <==> j < |ring|
          invariant more ==> area == ring[j]
          decreases |ring| - j
        {
          AreaStep(mAreaNext, mAreaPrev, ring, j);
          var nextarea := mAreaNext[area];
          if area in done {
            var i :| 0 <= i < j && ring[i] == area;
            RingDistinct(ring, i, j);
          }
          ResetOne(area, done);
          done := done + {area};
          j := j + 1;
          area := nextarea;
          if j < |ring| {
            RingDistinct(ring, 0, j);
          }
          more := area != firstArea;
        }
      }
      RingSet(mAreas, mAreaNext, mAreaPrev, mAreaSize, ring, areas);
      assert done == areas.Keys;
      AllCleared(H());
      NothingLeft(H());
    }

    // FreeAll: the areas are given back, each once.
    method FreeAll() returns (freed: seq<int>)
      requires Valid()
      modifies this
      ensures Valid() && Blocks() == map[] && areas == map[]
      ensures (forall b :: b in freed <==> b in old(areas)) && forall i, j :: 0 <= i < j < |freed| ==> freed[i] != freed[j]
    {
      hide Heap.Tiled, Heap.Consolidated, Heap.FreeChunks, Heap.Blocks;
      hide Lists.OK, Lists.All, Bytes, BinIndex, MasksMatch, RingOK, Distinct;
      freed := [];
      var area := mAreas;
      if area != 0 {
        var firstArea, more := area, true;
        while more
          invariant |freed| <= |ring| && freed == ring[..|freed|]
          invariant more <==> |freed| < |ring|
          invariant more ==> area == ring[|freed|]
          modifies {}
          decreases |ring| - |freed|
        {
          AreaStep(mAreaNext, mAreaPrev, ring, |freed|);
          var nextarea := mAreaNext[area];
          freed := freed + [area];
          area := nextarea;
          if |freed| < |ring| {
            RingDistinct(ring, 0, |freed|);
          }
          more := area != firstArea;
        }
        mAreas := 0;
      }
      assert freed == ring;
      forall i, j | 0 <= i < j < |freed|
        ensures freed[i] != freed[j]
      {
        RingDistinct(ring, i, j);
      }
      areas, chunks, ring := map[], {}, [];
      InitBins();
      EmptyHeap(H());
      EmptyRing(mAreaNext, mAreaPrev, mAreaSize);
    }

    // Reinit.
    method Reinit(base: int) returns (ok: bool)
      requires Valid()
      requires base != 0 && mAreaInitSize != 0 ==> base >= 2 * header && base % ALIGN == 0
      modifies this
      ensures Valid() && Blocks() == map[] && (ok <==> mAreaInitSize == 0 || base != 0)
      ensures areas == if mAreaInitSize != 0 && base != 0 then map[base := mAreaInitSize] else map[]
    {
      var freed := FreeAll();
      NoRingNoAreas(mAreas, mAreaNext, mAreaPrev, mAreaSize, ring, areas);
      ok := InitAlloc(base);
    }

    // TotalFree: the sizes on all lists.
    method TotalFree() returns (total: int)
      requires Valid()
      ensures total == Sum(H().FreeChunks(), mSize)
      ensures total == WalkAreas(H(), areas.Keys, false)
    {
      hide Heap.Tiled, Heap.Consolidated, Heap.FreeChunks, Heap.Blocks, Sum, WalkAreas;
      hide Lists.OK, Bytes, BinIndex, MasksMatch, AreaRing;
      total := 0;
      ListsLength(L(), mSize);
      NoWalk(H(), false);
      ghost var seen: set<int> := {};
      for i := 0 to NUM_BINS
        invariant total == Sum(seen, mSize) && seen == ListedBelow(L(), i)
      {
        ListedNone(L(), i);
        var bin := Head(i);
        EmptyTest(L(), mSize, i);
        if mPrev[bin] != bin {
          var candidate := mPrev[bin];
          ghost var k := |bins[i]| - 1;
          while candidate != bin
            invariant -1 <= k < |bins[i]| && candidate == At(bin, bins[i], k)
            invariant total == Sum(seen, mSize) && seen == ListedBelow(L(), i) + ListedAfter(L(), i, k)
            decreases k
          {
            ListedChunk(H(), L(), i, k);
            FreshlyListed(L(), mSize, i, k);
            SumPlus(seen, mSize, candidate);
            total := total + Bytes(mSize[candidate]);
            seen := seen + {candidate};
            PrevLink(L(), mSize, i, k);
            candidate := mPrev[candidate];
            k := k - 1;
          }
          if k >= 0 {
            ListedChunk(H(), L(), i, k);
          }
        }
        ListedNext(L(), i);
      }
      ListedAll(L());
      FreeByWalking(H());
    }

    // Lines 279 to 285: the largest size in a bin.
    method LargestIn(index: nat) returns (maxsize: int)
      requires Valid() && index < NUM_BINS == |bins| && bins[index] != []
      ensures exists k :: 0 <= k < |bins[index]| && bins[index][k] in mSize && Bytes(mSize[bins[index][k]]) == maxsize
      ensures forall k :: 0 <= k < |bins[index]| && bins[index][k] in mSize ==> Bytes(mSize[bins[index][k]]) <= maxsize
    {
      hide Heap.Tiled, Heap.Consolidated, Heap.FreeChunks, Heap.Blocks;
      hide Lists.OK, Lists.All, Bytes, BinIndex, MasksMatch, AreaRing;
      var bin := Head(index);
      EmptyTest(L(), mSize, index);
      ListedChunk(H(), L(), index, |bins[index]| - 1);
      maxsize := 0;
      var candidate := mPrev[bin];
      ghost var k, at := |bins[index]| - 1, |bins[index]| - 1;
      while candidate != bin
        invariant -1 <= k < |bins[index]| && candidate == At(bin, bins[index], k) && 0 <= at < |bins[index]|
        invariant bins[index][at] in mSize
        invariant if k == |bins[index]| - 1 then maxsize == 0 else Bytes(mSize[bins[index][at]]) == maxsize
        invariant forall j :: k < j < |bins[index]| && bins[index][j] in mSize ==> Bytes(mSize[bins[index][j]]) <= maxsize
        decreases k
      {
        ListedChunk(H(), L(), index, k);
        var candidateSize := Bytes(mSize[candidate]);
        if maxsize < candidateSize {
          maxsize := candidateSize;
          at := k;
        }
        PrevLink(L(), mSize, index, k);
        candidate := mPrev[candidate];
        k := k - 1;
      }
      if k >= 0 {
        ListedChunk(H(), L(), index, k);
      }
    }

    // LargestFreeChunk; None stands for reading mBins[-1], which is what happens
    // when all words are 0.
    method LargestFreeChunk() returns (r: Option<int>)
      requires Valid()
      ensures r.None? <==> H().FreeChunks() == {}
      ensures r.Some? ==> exists c :: c in H().FreeChunks() && c in mSize && Bytes(mSize[c]) == r.value
      ensures r.Some? ==> forall c :: c in H().FreeChunks() && c in mSize ==> Bytes(mSize[c]) <= r.value
    {
      hide Heap.Tiled, Heap.Consolidated, Heap.FreeChunks, Heap.Blocks, ChunkSize;
      hide Lists.OK, Lists.All, Bytes, BinIndex, MasksMatch, AreaRing, Marked, NumBits;
      MasksWords(mBinBlocks, bins);
      var word, i := 0, 3;
      while i >= 0 && mBinBlocks[i] == 0
        invariant -1 <= i < 4 && forall j :: i < j < 4 ==> mBinBlocks[j] == 0
      {
        i := i - 1;
      }
      if i >= 0 {
        word := i;
      }
      var bitPosition := NumBits(mBinBlocks[word]) - 1;
      var index := 32 * word + bitPosition;
      if i < 0 {
        NumBitsZero();
        assert index == -1;
        NoMarkNoChunk(L(), mBinBlocks);
        return None;
      }
      LastMarked(mBinBlocks, word);
      MarkedBin(mBinBlocks, bins, index);
      var maxsize := LargestIn(index);
      TopBin(L(), mSize, mBinBlocks, index, maxsize);
      ghost var k :| 0 <= k < |bins[index]| && bins[index][k] in mSize && Bytes(mSize[bins[index][k]]) == maxsize;
      InAll(L(), index, bins[index][k]);
      r := Some(maxsize);
    }
  }
}
