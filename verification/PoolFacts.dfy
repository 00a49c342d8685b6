// The heap transitions of the pool's operations, each as one step on Heap: a
// block freed with its free neighbours, a free chunk handed out whole or in part,
// an area made or given back.  Each lemma says what becomes of the invariant, of
// the blocks and of the free chunks, and which bytes the headers written on the
// way leave alone, so that the methods of AllocPool need not look inside Heap.
module PoolFacts {
  import opened Chunks
  import opened BinMask
  import opened Rings
  import opened FreeLists
  import opened Payload

  // Headers written at chunk boundaries leave the bytes of every block alone.
  lemma BlocksKept(h: Heap, d: map<int, int>, d': map<int, int>, s: set<int>, n: int)
    requires h.Tiled() && Spared(d, d', s, n) && forall q :: q in s ==> Boundary(h, q)
    ensures Kept(h.Blocks(), d, d', n)
  {
    hide Bytes, Heap.Tiled, Boundary, Spared;
    forall b | b in h.Blocks()
      ensures SameBytes(d, d', b + n, b + h.Blocks()[b])
    {
      forall q | q in s
        ensures q + n <= b + n || h.Next(b) <= q
      {
        NotInside(h, b, q);
      }
      SparedBytes(d, d', s, n, b + n, h.Next(b));
    }
  }

  lemma FreeBoundary(h: Heap, s: set<int>)
    requires s <= h.chunks
    ensures forall q :: q in s ==> Boundary(h, q)
  {
    hide Bytes, Heap.Tiled;
  }

  // The lists depend on the links and tags of their members and heads only.
  lemma ListsElsewhere(l: Lists, l': Lists, size: map<int, int>, size': map<int, int>)
    requires l.OK(size) && l'.bins == l.bins
    requires forall x :: (x in l.All() || x < 0) && x in l.next ==> x in l'.next && l'.next[x] == l.next[x]
    requires forall x :: (x in l.All() || x < 0) && x in l.prev ==> x in l'.prev && l'.prev[x] == l.prev[x]
    requires forall x :: x in l.All() && x in size ==> x in size' && size'[x] == size[x]
    ensures l'.OK(size') && l'.All() == l.All()
  {
    hide BinIndex, Bytes, Distinct;
    forall i | 0 <= i < NUM_BINS
      ensures l'.BinOK(size, i)
    {
      assert l.BinOK(size, i);
      forall c | c in l.bins[i]
        ensures c in l.All()
      {
        InAll(l, i, c);
      }
      OtherRing(l.next, l.prev, Head(i), l.bins[i], l'.next, l'.prev);
    }
    Retagged(l', size, size');
  }

  // A listed chunk.
  lemma FreeChunk(h: Heap, c: int)
    requires h.Tiled() && c in h.FreeChunks()
    ensures c >= 0 && c in h.chunks && c in h.size && c in h.home && h.size[c] == h.Size(c) && h.size[c] % 2 == 0
    ensures ChunkSize(h.Size(c)) && h.ChunkOK(c) && Boundary(h, h.Next(c))
  {
    hide Heap.Tiled;
    ChunkAt(h, c);
    ChunkNonNegative(h, c);
  }

  // A free chunk handed out whole.
  lemma TakeWhole(h: Heap, c: int)
    requires h.Tiled() && h.Consolidated() && c in h.FreeChunks()
    ensures c in h.size
    ensures var h' := h.Tag(c, h.Size(c), 1, h.chunks);
            && h'.Tiled() && h'.Consolidated()
            && h'.Blocks() == h.Blocks()[c := h.Size(c)] && h'.FreeChunks() == h.FreeChunks() - {c}
  {
    hide Bytes, Heap.Tiled, Heap.Consolidated, Heap.Tag;
    FreeChunk(h, c);
    ChunkAt(h, c);
    forall d | d in h.chunks
      ensures !(c < d < h.Next(c))
    {
      Order2(h, c, d);
    }
    assert h.chunks - {} == h.chunks && h.Blocks() - {} == h.Blocks();
    JoinTiled(h, c, h.Next(c), 1, {});
    JoinConsolidated(h, c, h.Next(c), 1, {});
    JoinBlocks(h, c, h.Next(c), 1, {});
  }

  // The front of a free chunk handed out, the rest still free.
  lemma TakeFront(h: Heap, c: int, n: int)
    requires ChunkSize(n) && c in h.size && h.Size(c) - n >= MIN_ALLOC
    requires c in h.FreeChunks() && h.Consolidated() && h.Tiled()
    ensures c in h.home && c + n !in h.chunks
    ensures var h' := h.Cut(c, c + n, 1, 0);
            && c + n in h'.chunks && c + n in h'.size && h'.Next(c + n) == h.Next(c)
            && h'.Blocks() == h.Blocks()[c := n] && h'.FreeChunks() == h.FreeChunks() - {c} + {c + n}
            && h'.Tiled() && h'.Consolidated()
  {
    hide Bytes, Heap.Tiled, Heap.Cut;
    FreeChunk(h, c);
    ChunkAt(h, c);
    CutTiled(h, c, c + n, 1, 0);
    CutBlocks(h, c, c + n, 0);
    CutFields(h, c, c + n, 1, 0, c + n);
    assert h.Merged(c);
    if h.Next(c) in h.chunks {
      ChunkAt2(h, h.Next(c));
    }
    CutConsolidated(h, c, c + n, 0);
  }

  // A block shortened: the rest becomes a block of its own.
  lemma SplitBlock(h: Heap, c: int, n: int)
    requires ChunkSize(n) && c in h.size && h.Size(c) - n >= MIN_ALLOC
    requires c in h.Blocks() && h.Consolidated() && h.Tiled()
    ensures c in h.home && c + n !in h.chunks
    ensures var h' := h.Cut(c, c + n, 1, 1);
            && c + n in h'.chunks && c + n in h'.size && h'.Next(c + n) == h.Next(c)
            && h'.Blocks() == h.Blocks()[c := n][c + n := h.Size(c) - n] && h'.FreeChunks() == h.FreeChunks()
            && h'.Tiled() && h'.Consolidated()
  {
    hide Bytes, Heap.Tiled, Heap.Cut;
    ChunkAt(h, c);
    CutTiled(h, c, c + n, 1, 1);
    CutBlocks(h, c, c + n, 1);
    CutFields(h, c, c + n, 1, 1, c + n);
    CutConsolidated(h, c, c + n, 1);
  }

  lemma Gap(h: Heap)
    requires h.Tiled()
    ensures h.gap > 0
  {
    hide Bytes, Heap.AllChunksOK, Heap.Ordered;
  }

  lemma FreshArea(h: Heap, b: int, n: int)
    requires h.Tiled() && h.Consolidated() && h.Unused(b, n)
    ensures ChunkSize(n)
    ensures var h' := h.WithArea(b, n);
            && h'.Tiled() && h'.Consolidated()
            && b !in h.chunks && b !in h.areas && h'.Blocks() == h.Blocks() && h'.FreeChunks() == h.FreeChunks() + {b}
            && b in h'.size && h'.Size(b) == n && h'.Next(b) == b + n && Boundary(h', b) && Boundary(h', b + n)
            && b > 0 && b !in h.FreeChunks() && b + n !in h.FreeChunks()
  {
    hide Bytes, Heap.Tiled, Heap.Consolidated, Heap.WithArea;
    NewAreaTiled(h, b, n);
    NewAreaConsolidated(h, b, n);
    NewAreaBlocks(h, b, n);
    Gap(h);
    if b in h.areas {
      AreaAt(h, b);
    }
    if b + n in h.chunks {
      ClearOf(h, b, n, b + n);
      ChunkAt(h, b + n);
    }
  }

  // The lists do not see a new area.
  lemma FreshLists(h: Heap, l: Lists, b: int, n: int)
    requires h.Tiled() && h.Consolidated() && h.Unused(b, n) && l.OK(h.size) && l.All() == h.FreeChunks()
    ensures var l' := Lists(l.next[b := b], l.prev[b := b], l.bins);
            l'.OK(h.WithArea(b, n).size) && l'.All() == l.All()
  {
    hide Bytes, Heap.Tiled, Heap.Consolidated, Heap.FreeChunks, Heap.WithArea, Heap.Unused, Lists.OK, Lists.All;
    FreshArea(h, b, n);
    forall d | d in h.size && d != b && d != b + n
      ensures d in h.WithArea(b, n).size && h.WithArea(b, n).size[d] == h.size[d]
    {
      AreaFields(h, b, n, d);
    }
    ListsElsewhere(l, Lists(l.next[b := b], l.prev[b := b], l.bins), h.size, h.WithArea(b, n).size);
  }

  lemma DroppedArea(h: Heap, b: int)
    requires h.Tiled() && h.Consolidated() && b in h.FreeChunks()
    requires h.Spans(b)
    ensures var h' := h.WithoutArea(b);
            && h'.Tiled() && h'.Consolidated() && h'.Blocks() == h.Blocks() && h'.FreeChunks() == h.FreeChunks() - {b}
  {
    hide Bytes, Heap.Tiled, Heap.Consolidated;
    DropAreaTiled(h, b);
    DropAreaConsolidated(h, b);
    DropAreaBlocks(h, b);
    assert h.Blocks() - {b} == h.Blocks();
  }

  // There is no area, or one of this size.
  ghost predicate OnlyArea(areas: map<int, int>, size: int) {
    forall a :: a in areas ==> areas == map[a := size]
  }

  lemma NewOnlyArea(h: Heap, b: int, n: int)
    ensures h.areas == map[] ==> OnlyArea(h.WithArea(b, n).areas, n)
  {
  }

  // c is the only block of its area.
  ghost predicate LastBlock(h: Heap, c: int) {
    c in h.home && forall d :: d in h.Blocks() && d in h.home && h.home[d] == h.home[c] ==> d == c
  }

  // The chunks that disappear when lo .. hi is joined.
  ghost function Between(h: Heap, lo: int, hi: int): set<int> {
    set d | d in h.chunks && lo < d < hi
  }

  // The free neighbours of block c are what its span holds besides c.
  lemma BetweenSpan(h: Heap, c: int)
    requires c in h.Blocks() && h.Consolidated() && h.Tiled()
    ensures c in h.prevSize && c in h.size
    ensures SpanLo(h, c) <= c < h.Next(c) <= SpanHi(h, c)
    ensures var lo, n, hi := SpanLo(h, c), h.Next(c), SpanHi(h, c);
            h.FreeChunks() - Between(h, lo, hi) - {lo}
            == h.FreeChunks() - (if lo != c then {lo} else {}) - (if hi != n then {n} else {})
    ensures h.Next(c) in h.size && (h.Free(h.Next(c)) <==> SpanHi(h, c) != h.Next(c))
    ensures h.prevSize[c] % 2 == 0 <==> SpanLo(h, c) != c
  {
    hide Bytes, Heap.Tiled, Heap.Consolidated;
    Chunks.Neighbours(h, c);
    ChunkAt2(h, c);
    SpanJoins(h, c, Between(h, SpanLo(h, c), SpanHi(h, c)));
    if h.Free(h.Next(c)) {
      ChunkAt2(h, h.Next(c));
    }
  }

  // Freeing a block empties its area exactly when it was the last one there.
  lemma SpanIsArea(h: Heap, c: int)
    requires c in h.Blocks() && h.Consolidated() && h.Tiled()
    ensures c in h.prevSize && c in h.size && c in h.home
    ensures LastBlock(h, c) <==> SpanLo(h, c) in h.areas && SpanHi(h, c) == h.End(SpanLo(h, c))
    ensures LastBlock(h, c) ==> SpanLo(h, c) == h.home[c]
  {
    hide Bytes, Heap.Tiled, Heap.Consolidated;
    Chunks.Neighbours(h, c);
    var lo, hi := SpanLo(h, c), SpanHi(h, c);
    var dead := Between(h, lo, hi);
    SpanJoins(h, c, dead);
    SpanSize(h, c);
    SpanNeighbours(h, c, dead);
    var b := h.home[c];
    if lo != b {
      PrevChunk(h, lo);
      var d := h.Prev(lo);
      ChunkAt2(h, d);
      assert d in h.Blocks();
    }
    if hi != h.End(b) {
      ChunkAt2(h, hi);
      assert hi in h.Blocks();
    }
    if lo in h.areas {
      ChunkInside(h, lo, lo);
    }
    if lo == b && hi == h.End(b) {
      forall d | d in h.Blocks() && d in h.home && h.home[d] == b
        ensures d == c
      {
        ChunkInside(h, d, b);
        assert d == lo || d in dead;
      }
    }
  }

  // The heap after the span of block c was joined.
  ghost function Joined(h: Heap, c: int): Heap
    requires c in h.size && c in h.prevSize
  {
    h.Tag(SpanLo(h, c), SpanHi(h, c) - SpanLo(h, c), 0, h.chunks - Between(h, SpanLo(h, c), SpanHi(h, c)))
  }

  // In a growable pool an area is given back with its last block, that is,
  // when it has become one free chunk.
  ghost function AreasLeft(h: Heap, c: int, growable: bool): map<int, int> {
    if growable && LastBlock(h, c) then h.areas - {h.home[c]} else h.areas
  }

  ghost function AreasSettled(h: Heap, b: int, growable: bool): map<int, int> {
    if growable && h.Spans(b) then h.areas - {b} else h.areas
  }

  lemma FreedSpan(h: Heap, c: int)
    requires c in h.Blocks() && h.Consolidated() && h.Tiled()
    ensures c in h.prevSize && c in h.size
    ensures var lo, hi := SpanLo(h, c), SpanHi(h, c);
            var h' := Joined(h, c);
            && h' == h.Tag(lo, hi - lo, 0, h.chunks - Between(h, lo, hi))
            && lo >= 0 && lo <= c < hi && lo in h.chunks && Boundary(h, lo) && Boundary(h, hi)
            && h'.Blocks() == h.Blocks() - {c} && lo in h'.FreeChunks()
            && h'.FreeChunks() == h.FreeChunks() - Between(h, lo, hi) + {lo}
            && h'.FreeChunks() - {lo} == h.FreeChunks() - Between(h, lo, hi) - {lo}
            && h'.Tiled() && h'.Consolidated()
            && forall growable :: AreasSettled(h', lo, growable) == AreasLeft(h, c, growable)
  {
    hide Bytes, Heap.Tiled, Heap.Consolidated, Heap.Tag, LastBlock, Boundary;
    Chunks.Neighbours(h, c);
    var lo, hi := SpanLo(h, c), SpanHi(h, c);
    var dead := Between(h, lo, hi);
    SpanJoins(h, c, dead);
    SpanBoundaries(h, c);
    FreeSpan(h, c, dead);
    SpanIsArea(h, c);
    TagFields(h, lo, hi - lo, 0, h.chunks - dead, lo);
    ChunkAt2(h, c);
  }

  // Freeing writes headers at chunk boundaries only.
  lemma FreedBytes(h: Heap, c: int, d: map<int, int>, d1: map<int, int>, d2: map<int, int>, d3: map<int, int>, n: int)
    requires c in h.Blocks() && h.Consolidated() && h.Tiled() && c in h.prevSize && c in h.size
    requires Spared(d, d1, h.FreeChunks(), n) && Spared(d1, d2, {SpanLo(h, c), SpanHi(h, c)}, n)
    requires Spared(d2, d3, Joined(h, c).FreeChunks(), n)
    ensures Kept(h.Blocks(), d, d3, n) && d3.Keys <= d.Keys
  {
    hide Bytes, Heap.Tiled, Heap.Consolidated, Spared, Boundary, SpanLo, SpanHi, Joined, Kept;
    FreedSpan(h, c);
    var s, t, u := h.FreeChunks(), {SpanLo(h, c), SpanHi(h, c)}, Joined(h, c).FreeChunks();
    SparedBoth(d, d1, d2, s, t, n);
    SparedBoth(d, d2, d3, s + t, u, n);
    FreeBoundary(h, s);
    FreeBoundary(h, s + {SpanLo(h, c)});
    BlocksKept(h, d, d3, s + t + u, n);
    SparedKeys(d, d3, s + t + u, n);
  }

  // The remaining lists are good for the heap after the join.
  lemma SpanLists(h: Heap, l: Lists, c: int)
    requires c in h.Blocks() && h.Consolidated() && h.Tiled() && l.OK(h.size)
    requires c in h.prevSize && l.All() == h.FreeChunks() - Between(h, SpanLo(h, c), SpanHi(h, c)) - {SpanLo(h, c)}
    ensures c in h.size && l.OK(Joined(h, c).size)
  {
    hide Bytes, Heap.Tiled, Heap.Consolidated, Lists.OK, Lists.All, SpanLo, SpanHi;
    Retagged(l, h.size, Joined(h, c).size);
  }

  // The ring of areas, entered at first, holds the areas and their sizes.
  ghost predicate AreaRing(first: int, next: map<int, int>, prev: map<int, int>, size: map<int, int>,
                           ring: seq<int>, areas: map<int, int>) {
    && (first == 0 <==> ring == [])
    && (ring != [] ==> ring[0] == first && RingOK(next, prev, ring[0], ring[1..]) && Distinct(ring[0], ring[1..]))
    && (forall b :: b in ring <==> b in areas)
    && (forall b :: b in areas ==> b in size && size[b] == areas[b])
  }

  lemma NoRingNoAreas(first: int, next: map<int, int>, prev: map<int, int>, size: map<int, int>, ring: seq<int>,
                      areas: map<int, int>)
    requires AreaRing(first, next, prev, size, ring, areas)
    ensures first == 0 <==> areas == map[]
  {
    if first != 0 {
      assert ring[0] in areas;
    } else {
      assert forall b :: b in areas.Keys ==> b in ring;
      assert areas.Keys <= {};
    }
    assert areas.Keys == {} ==> areas == map[];
  }

  // The chunk at position k of bin i.
  lemma ListedChunk(h: Heap, l: Lists, i: nat, k: nat)
    requires h.Tiled() && l.OK(h.size) && l.All() == h.FreeChunks() && i < NUM_BINS && k < |l.bins[i]|
    ensures var c := l.bins[i][k];
            c in l.All() && c in h.size && c != Head(i) && ChunkSize(h.Size(c)) && BinIndex(h.Size(c)) == i
  {
    hide BinIndex, Bytes, Heap.Tiled, RingOK, Distinct, Heap.FreeChunks, Lists.All;
    assert l.BinOK(h.size, i);
    assert Lists.Holds(h.size, i, l.bins[i][k]);
    InAll(l, i, l.bins[i][k]);
    FreeChunk(h, l.bins[i][k]);
  }

  // Sizes do not fall from the back of a bin to its front.
  lemma BinAscends(h: Heap, l: Lists, i: nat, k: nat)
    requires h.Tiled() && l.OK(h.size) && l.All() == h.FreeChunks() && i < NUM_BINS && k < |l.bins[i]|
    ensures l.bins[i][k] in h.size
    ensures forall j :: 0 <= j <= k && l.bins[i][j] in h.size ==> Bytes(h.size[l.bins[i][j]]) >= Bytes(h.size[l.bins[i][k]])
  {
    hide BinIndex, Bytes, Heap.Tiled, RingOK, Distinct, Heap.FreeChunks, Lists.All;
    ListedChunk(h, l, i, k);
    assert l.BinOK(h.size, i);
    if i < SMALL_BINS {
      forall j | 0 <= j <= k
        ensures l.bins[i][j] in h.size && h.Size(l.bins[i][j]) == h.Size(l.bins[i][k])
      {
        ListedChunk(h, l, i, j);
        SmallBin(h.Size(l.bins[i][j]));
        SmallBin(h.Size(l.bins[i][k]));
      }
    }
  }

  // A small bin holds one size only.
  lemma SmallBinSize(h: Heap, l: Lists, i: nat, k: nat)
    requires h.Tiled() && l.OK(h.size) && l.All() == h.FreeChunks() && i < SMALL_BINS && k < |l.bins[i]|
    ensures l.bins[i][k] in h.size && h.Size(l.bins[i][k]) == ALIGN * i
  {
    hide BinIndex, Bytes, Heap.Tiled, Lists.OK, Heap.FreeChunks, Lists.All;
    ListsLength(l, h.size);
    ListedChunk(h, l, i, k);
    SmallBin(h.Size(l.bins[i][k]));
  }

  // The last chunk of a small bin passes for a request of the bin's size or the size below.
  lemma SmallPass(h: Heap, l: Lists, i: nat, n: int)
    requires h.Tiled() && l.OK(h.size) && l.All() == h.FreeChunks() && i < SMALL_BINS
    requires n == ALIGN * i || n == ALIGN * (i - 1)
    ensures FirstPass(l, h.size, i, |l.bins[i]| - 1, n)
  {
    hide BinIndex, Bytes, Heap.Tiled, Lists.OK, Heap.FreeChunks, Lists.All;
    ListsLength(l, h.size);
    forall j | 0 <= j < |l.bins[i]|
      ensures l.bins[i][j] in h.size && h.Size(l.bins[i][j]) == ALIGN * i
    {
      SmallBinSize(h, l, i, j);
    }
  }

  lemma ListsLength(l: Lists, size: map<int, int>)
    requires l.OK(size)
    ensures |l.bins| == NUM_BINS
  {
    hide BinIndex, Bytes;
  }

  // Tags of chunks on no list do not matter to the lists.
  lemma TagLists(h: Heap, l: Lists, c: int, n: int, used: int, live: set<int>)
    requires l.OK(h.size) && c !in l.All()
    ensures l.OK(h.Tag(c, n, used, live).size)
  {
    hide Bytes, Lists.OK, Lists.All;
    Retagged(l, h.size, h.Tag(c, n, used, live).size);
  }

  // Headers written at boundaries of h' keep the blocks h' shares with h.
  lemma KeptThrough(h: Heap, h': Heap, c: int, d: map<int, int>, d': map<int, int>, s: set<int>, n: int)
    requires Spared(d, d', s, n) && (forall q :: q in s ==> Boundary(h', q))
    requires h'.Blocks() - {c} == h.Blocks() && h'.Tiled()
    ensures Kept(h.Blocks(), d, d', n)
  {
    hide Bytes, Heap.Tiled, Heap.Blocks, Kept, Spared, Boundary;
    BlocksKept(h', d, d', s, n);
    KeptFewer(h'.Blocks(), {c}, d, d', n);
  }

  // Free chunk c handed out: headers are written at its two ends.
  lemma WholeBytes(h: Heap, c: int, d: map<int, int>, d': map<int, int>, n: int)
    requires c in h.FreeChunks() && h.Consolidated() && h.Tiled() && c in h.size && Spared(d, d', {c, c + h.Size(c)}, n)
    ensures Kept(h.Blocks(), d, d', n)
  {
    hide Bytes, Heap.Tiled, Heap.Consolidated, Kept, Spared;
    FreeChunk(h, c);
    BlocksKept(h, d, d', {c, c + h.Size(c)}, n);
  }

  // What is cut off a free chunk was on no list.
  lemma CutUnlisted(h: Heap, c: int, m: int)
    requires c in h.FreeChunks() && h.Consolidated() && h.Tiled()
    requires c in h.size && c < m <= h.Next(c)
    ensures m !in h.FreeChunks() && m >= 0 && c in h.home
  {
    hide Bytes, Heap.Tiled;
    FreeChunk(h, c);
    assert h.Merged(c);
    if m < h.Next(c) {
      InsideChunk(h, c, m, h.home[c]);
    }
  }

  // The two tag writes of a split are Cut.
  lemma CutIsTags(h: Heap, c: int, m: int, used: int, restUsed: int)
    requires c in h.size && c in h.home
    ensures var g := h.(home := h.home[m := h.home[c]]);
            h.Cut(c, m, used, restUsed)
            == g.Tag(m, h.Next(c) - m, restUsed, h.chunks + {m}).Tag(c, m - c, used, h.chunks + {m})
  {
  }

  // Splitting writes headers at boundaries of the split heap.
  lemma CarveBytes(h: Heap, c: int, n: int, d: map<int, int>, d1: map<int, int>, d2: map<int, int>, d3: map<int, int>, s: set<int>, w: int)
    requires ChunkSize(n) && c in h.size && h.Size(c) - n >= MIN_ALLOC
    requires c in h.FreeChunks() && h.Consolidated() && h.Tiled()
    requires Spared(d, d1, {c + n, h.Next(c)}, w) && Spared(d1, d2, s, w) && Spared(d2, d3, {c, c + n}, w)
    requires s <= h.FreeChunks() + {c + n}
    ensures Kept(h.Blocks(), d, d3, w)
  {
    hide Bytes, Heap.Tiled, Heap.Consolidated, Spared, Kept, Heap.Cut;
    TakeFront(h, c, n);
    FreeChunk(h, c);
    var h' := h.Cut(c, c + n, 1, 0);
    CutChunks(h, c, c + n, 1, 0);
    FreeBoundary(h', s + {c, c + n});
    SparedBoth(d, d1, d2, {c + n, h.Next(c)}, s, w);
    SparedBoth(d, d2, d3, {c + n, h.Next(c)} + s, {c, c + n}, w);
    assert h'.Next(c + n) == h.Next(c);
    KeptThrough(h, h', c, d, d3, {c + n, h.Next(c)} + s + {c, c + n}, w);
  }

  lemma CutChunks(h: Heap, c: int, m: int, used: int, restUsed: int)
    requires c in h.size && c in h.home
    ensures h.Cut(c, m, used, restUsed).chunks == h.chunks + {m}
    ensures h.Cut(c, m, used, restUsed).areas == h.areas
  {
  }

  // The rest of chunk c tagged, and then also its front.
  ghost function RestTagged(h: Heap, c: int, m: int, n: int, used: int): Heap
    requires c in h.home
  {
    h.(home := h.home[m := h.home[c]]).Tag(m, n, used, h.chunks + {m})
  }

  lemma CarveSteps(h: Heap, l: Lists, c: int, n: int, rest: int)
    requires c in h.size && ChunkSize(n) && rest == h.Size(c) - n >= 0
    requires l.OK(h.size) && l.All() == h.FreeChunks() - {c}
    requires c in h.FreeChunks() && h.Consolidated() && h.Tiled()
    ensures c in h.home && c >= 0 && rest % ALIGN == 0
    ensures var h1 := RestTagged(h, c, c + n, rest, 0);
            var h2 := h1.Tag(c, n, 1, h1.chunks);
            && l.OK(h1.size) && c + n !in l.All() && c + n in h1.size && Bytes(h1.size[c + n]) == rest
            && h2.areas == h.areas
            && c + n in h2.size && Bytes(h2.size[c + n]) == rest && h2 == h.Cut(c, c + n, 1, 0)
  {
    hide Bytes, Heap.Tiled, Heap.Consolidated, Heap.FreeChunks, Heap.Tag, Heap.Cut, Lists.OK, Lists.All;
    FreeChunk(h, c);
    CutUnlisted(h, c, c + n);
    var g := h.(home := h.home[c + n := h.home[c]]);
    TagLists(g, l, c + n, rest, 0, h.chunks + {c + n});
    TagFields(g, c + n, rest, 0, h.chunks + {c + n}, c + n);
    TagFields(g.Tag(c + n, rest, 0, h.chunks + {c + n}), c, n, 1, h.chunks + {c + n}, c + n);
    CutIsTags(h, c, c + n, 1, 0);
  }

  lemma RestTag(h: Heap, c: int, m: int, rest: int)
    requires c in h.home && c in h.size && rest % 2 == 0
    ensures var h' := RestTagged(h, c, m, rest, 0);
            m in h'.size && h'.size[m] == rest == Bytes(h'.size[m]) && h.size.Keys <= h'.size.Keys
  {
  }

  // Both tags of a split, one after the other.
  lemma RestThenFront(h: Heap, c: int, m: int, rest: int, front: int)
    requires c in h.home && c in h.size && c != m && rest % 2 == 0 && front % 2 == 0
    ensures var h1 := RestTagged(h, c, m, rest, 0);
            var h' := h1.Tag(c, front, 1, h1.chunks);
            && h'.chunks == h.chunks + {m} && h'.areas == h.areas && h'.home == h.home[m := h.home[c]]
            && c in h'.size && h'.Size(c) == front && m in h'.size && h'.Size(m) == rest
  {
  }

  // A split with a rest that is not what is left of the chunk, or too small, leaves
  // tags that do not tile the area.
  lemma SplitBreaks(h: Heap, c: int, n: int, rest: int, h': Heap)
    requires h.Tiled() && c in h.FreeChunks() && c in h.size && n >= MIN_ALLOC && c in h.home
    requires h'.chunks == h.chunks + {c + n} && h'.areas == h.areas && h'.home == h.home[c + n := h.home[c]]
    requires c in h'.size && h'.Size(c) == h.Size(c) - rest && c + n in h'.size && h'.Size(c + n) == rest
    requires !(rest == h.Size(c) - n >= MIN_ALLOC)
    ensures !h'.Tiled()
  {
    hide Bytes;
    var e := h'.Next(c);
    assert h.ChunkOK(c) && h.Next(c) == c + h.Size(c);
    if h'.Tiled() {
      assert h'.ChunkOK(c + n) && h'.ChunkOK(c);
      assert c < e < h.Next(c);
      InsideChunk(h, c, e, h.home[c]);
    }
  }

  // The state after a split: the rest is listed, the front is a block.
  lemma Carved(h: Heap, l: Lists, c: int, n: int, rest: int, h': Heap, l': Lists)
    requires c in h.size && c in h.home && ChunkSize(n) && rest == h.Size(c) - n >= MIN_ALLOC
    requires l.All() == h.FreeChunks() - {c} && l'.All() == l.All() + {c + n}
    requires h' == RestTagged(h, c, c + n, rest, 0).Tag(c, n, 1, h'.chunks)
    requires h'.chunks == RestTagged(h, c, c + n, rest, 0).chunks
    requires c in h.FreeChunks() && h.Consolidated() && h.Tiled()
    ensures l'.All() == h'.FreeChunks() && h'.Blocks() == h.Blocks()[c := n]
    ensures h' == h.Cut(c, c + n, 1, 0)
    ensures h'.Tiled() && h'.Consolidated()
  {
    hide Bytes, Heap.Tiled, Heap.Consolidated, Heap.FreeChunks, Heap.Blocks, Heap.Cut, Lists.All;
    TakeFront(h, c, n);
    CutIsTags(h, c, c + n, 1, 0);
  }

  lemma FreshBytes(h: Heap, b: int, n: int, d: map<int, int>, d': map<int, int>, w: int)
    requires h.Tiled() && h.Consolidated() && h.Unused(b, n) && Spared(d, d', {b, b + n}, w)
    ensures Kept(h.Blocks(), d, d', w)
  {
    hide Bytes, Heap.Tiled, Heap.Consolidated, Heap.Unused, Spared, Kept, Heap.WithArea, Boundary;
    FreshArea(h, b, n);
    BlocksKept(h.WithArea(b, n), d, d', {b, b + n}, w);
  }

  lemma WithAreaAreas(h: Heap, b: int, n: int)
    ensures h.WithArea(b, n).areas == h.areas[b := n]
  {
  }

  lemma ListedBoundary(h: Heap)
    requires h.Tiled()
    ensures forall q :: q in h.FreeChunks() ==> Boundary(h, q)
  {
    hide Bytes, Heap.Tiled;
  }

  // What is handed out of chunk c: all of it, if the rest seems too small.
  ghost function Granted(h: Heap, c: int, size: int): int {
    if c in h.size && Int32(h.Size(c) - size) < MIN_ALLOC then h.Size(c) else size
  }

  lemma TagChunks(h: Heap, live: set<int>, c: int, n: int, used: int)
    ensures h.(chunks := live).Tag(c, n, used, live) == h.Tag(c, n, used, live)
  {
  }

  // --- nothing there ---

  lemma EmptyHeap(h: Heap)
    requires h.areas == map[] && h.chunks == {} && h.gap > 0
    ensures h.Tiled() && h.Consolidated() && h.Blocks() == map[] && h.FreeChunks() == {}
  {
  }

  lemma EmptyBins(l: Lists, size: map<int, int>)
    requires |l.bins| == NUM_BINS && forall i :: 0 <= i < NUM_BINS ==> l.bins[i] == []
    requires forall j :: 0 <= j < NUM_BINS ==>
      Head(j) in l.next && l.next[Head(j)] == Head(j) && Head(j) in l.prev && l.prev[Head(j)] == Head(j)
    ensures l.OK(size) && l.All() == {}
  {
    hide BinIndex, Bytes;
    forall i | 0 <= i < NUM_BINS
      ensures l.BinOK(size, i)
    {
      assert l.bins[i] == [];
    }
  }

  lemma NoMarks(bins: seq<seq<int>>)
    requires |bins| == NUM_BINS && forall i :: 0 <= i < NUM_BINS ==> bins[i] == []
    ensures MasksMatch([0, 0, 0, 0], bins)
  {
    PowZero();
    forall i | 0 <= i < NUM_BINS
      ensures Words([0, 0, 0, 0]) && !Marked([0, 0, 0, 0], i)
    {
      NoBits(0, 0, i % 32);
    }
  }

  // --- resetting an area ---

  ghost function Reset(h: Heap, b: int): Heap
    requires b in h.areas
  {
    h.Tag(b, h.areas[b], 0, h.chunks - Between(h, b, h.End(b)))
  }

  // The areas of s are one free chunk each.
  ghost predicate Cleared(h: Heap, s: set<int>) {
    && s <= h.FreeChunks() && s <= h.areas.Keys
    && forall c :: c in h.chunks ==> c in h.home && (h.home[c] in s ==> c == h.home[c])
  }

  lemma ClearMore(h: Heap, s: set<int>, b: int)
    requires b in h.areas && h.Consolidated() && h.Tiled() && Cleared(h, s)
    ensures Cleared(Reset(h, b), s + {b})
  {
    hide Bytes, Heap.Tiled, Heap.Consolidated, Heap.FreeChunks, Reset;
    ResetArea(h, b);
    forall c | c in s
      ensures c in Reset(h, b).FreeChunks()
    {
      AreaAt(h, c);
    }
  }

  // A whole area becomes one free chunk, whatever it held.
  lemma ResetArea(h: Heap, b: int)
    requires b in h.areas && h.Consolidated() && h.Tiled()
    ensures var h' := Reset(h, b);
            && b > 0 && h.areas[b] > 0 && h.areas[b] % 2 == 0
            && h'.areas == h.areas && h'.home == h.home && b in h'.FreeChunks() && b in h'.size && h'.size[b] == h.areas[b]
            && (forall c :: c in h'.chunks ==> c in h.chunks && c in h.home && (h.home[c] == b ==> c == b))
            && b in h'.prevSize && h'.prevSize[b] == IN_USE && h'.End(b) in h'.size && h'.size[h'.End(b)] == IN_USE
            && (forall c :: c in h.FreeChunks() && c in h.home && h.home[c] != b ==> c in h'.FreeChunks())
            && h'.Tiled() && h'.Consolidated()
  {
    hide Bytes, Heap.Tiled, Heap.Consolidated, Heap.Tag;
    AreaAt(h, b);
    Gap(h);
    ResetJoins(h, b);
    var dead := Between(h, b, h.End(b));
    JoinTiled(h, b, h.End(b), 0, dead);
    JoinConsolidated(h, b, h.End(b), 0, dead);
    JoinBlocks(h, b, h.End(b), 0, dead);
    TagFields(h, b, h.areas[b], 0, h.chunks - dead, b);
    AreaAt(Reset(h, b), b);
    TagBytes(h.areas[b], 0);
    forall c | c in h.chunks - dead
      ensures c in h.home && (h.home[c] == b ==> c == b)
    {
      ChunkInside(h, c, b);
      ChunkAt(h, c);
    }
    forall c | c in h.FreeChunks() && c in h.home && h.home[c] != b
      ensures c !in dead
    {
      OutsideArea(h, b, c);
    }
  }

  lemma OutsideArea(h: Heap, b: int, c: int)
    requires b in h.areas && c in h.chunks && h.Tiled() && c in h.home && h.home[c] != b
    ensures c < b || h.End(b) < c
  {
    hide Bytes, Heap.Tiled;
    ChunkInside(h, c, b);
    AreaAt(h, b);
    AreaAt(h, h.home[c]);
  }

  lemma ResetJoins(h: Heap, b: int)
    requires b in h.areas && h.Tiled()
    ensures Joins(h, b, h.End(b), 0, Between(h, b, h.End(b))) && h.End(b) !in h.chunks && h.End(b) - b == h.areas[b]
    ensures forall c :: c in h.chunks && c in h.size ==> h.Next(c) != b
  {
    hide Bytes, Heap.Tiled;
    AreaAt(h, b);
    ChunkAt(h, b);
    if h.End(b) in h.chunks {
      ChunkInside(h, h.End(b), b);
    }
    forall c | c in h.chunks && c in h.size
      ensures h.Next(c) != b
    {
      ChunkAt(h, c);
      ChunkInside(h, c, b);
      Apart(h, h.home[c], b, h.Next(c));
    }
  }

  lemma FreeNot(h: Heap, c: int)
    ensures c in h.FreeChunks() ==> c !in h.Blocks()
  {
    hide Bytes;
  }

  // When all areas are cleared, nothing is in use.
  lemma AllCleared(h: Heap)
    requires h.Tiled() && Cleared(h, h.areas.Keys)
    ensures h.FreeChunks() == h.areas.Keys && h.Blocks() == map[]
  {
    hide Bytes, Heap.Tiled;
    forall c | c in h.chunks
      ensures c in h.areas.Keys && c !in h.Blocks()
    {
      ChunkAt(h, c);
      FreeNot(h, c);
    }
    assert forall c :: c !in h.Blocks();
  }

  lemma TagChunks2(h: Heap, live: set<int>, c: int, n: int, used: int)
    ensures h.Tag(c, n, used, h.chunks).(chunks := live) == h.Tag(c, n, used, live)
  {
  }

  lemma SetAgain(s: map<int, int>, a: int, x: int)
    ensures a in s && s[a] == x ==> s[a := x] == s
  {
  }

  lemma NothingCleared(h: Heap)
    requires h.Tiled()
    ensures Cleared(h, {})
  {
    hide Bytes, Heap.Tiled;
    forall c | c in h.chunks
      ensures c in h.home
    {
      ChunkAt(h, c);
    }
  }

  // Without blocks, each area is one free chunk: consolidation is complete.
  lemma OneChunkEach(h: Heap, b: int)
    requires b in h.areas && h.Blocks() == map[] && h.Consolidated() && h.Tiled()
    ensures h.Spans(b) && b in h.FreeChunks()
  {
    hide Bytes, Heap.Tiled;
    AreaAt(h, b);
    ChunkAt(h, b);
    assert h.Merged(b);
    FreeOrBlock(h, b);
    if h.Next(b) != h.End(b) {
      FreeOrBlock(h, h.Next(b));
    }
  }

  lemma FreeOrBlock(h: Heap, c: int)
    requires c in h.chunks && h.Tiled()
    ensures c in h.size && (c in h.FreeChunks() || c in h.Blocks())
    ensures c in h.FreeChunks() ==> h.Free(c)
  {
    hide Bytes, Heap.Tiled;
    ChunkAt(h, c);
  }

  // Fragmentation is not permanent: with nothing in use the free chunks are the areas.
  lemma NothingLeft(h: Heap)
    requires h.Blocks() == map[] && h.Consolidated() && h.Tiled()
    ensures h.FreeChunks() == h.areas.Keys && forall b :: b in h.areas ==> h.Spans(b)
  {
    hide Bytes, Heap.Tiled, Heap.Consolidated, Heap.Spans, Heap.FreeChunks, Heap.Blocks;
    forall b | b in h.areas
      ensures h.Spans(b) && b in h.FreeChunks()
    {
      OneChunkEach(h, b);
    }
    forall c | c in h.FreeChunks()
      ensures c in h.areas.Keys
    {
      FreeIsArea(h, c);
    }
    assert forall b :: b in h.areas.Keys ==> b in h.FreeChunks();
  }

  lemma FreeIsArea(h: Heap, c: int)
    requires h.Blocks() == map[] && h.Consolidated() && h.Tiled() && c in h.FreeChunks()
    ensures c in h.areas
  {
    hide Bytes, Heap.Tiled, Heap.Consolidated, Heap.Blocks;
    ChunkAt(h, c);
    var b := h.home[c];
    OneChunkEach(h, b);
    ChunkInside(h, c, b);
    AreaAt(h, b);
    if c != b {
      Order(h, b, c);
    }
  }

  lemma RingSet(first: int, next: map<int, int>, prev: map<int, int>, size: map<int, int>,
                ring: seq<int>, areas: map<int, int>)
    requires AreaRing(first, next, prev, size, ring, areas)
    ensures (set i | 0 <= i < |ring| :: ring[i]) == areas.Keys
  {
    hide RingOK, Distinct;
    var s := set i | 0 <= i < |ring| :: ring[i];
    forall b | b in areas.Keys
      ensures b in s
    {
      assert b in ring;
    }
    forall b | b in s
      ensures b in areas.Keys
    {
      assert b in ring;
    }
  }

  lemma EmptyRing(next: map<int, int>, prev: map<int, int>, size: map<int, int>)
    ensures AreaRing(0, next, prev, size, [], map[])
  {
  }
}
