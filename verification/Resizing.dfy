// What Realloc's paths do to the heap: a block grows over free neighbours and
// may be cut again.  Forward, backward and both ways are one case here, a range
// lo .. hi around the block that holds nothing but free chunks besides it; the
// cut makes two blocks of the range, of which the second is then freed.
module Resizing {
  import opened Chunks
  import opened BinMask
  import opened FreeLists
  import opened Payload
  import opened PoolFacts

  // The range lo .. hi is block c with none, one or both of its free neighbours.
  ghost predicate Grows(h: Heap, c: int, lo: int, hi: int) {
    && c in h.size && c in h.prevSize
    && (lo == c || lo == SpanLo(h, c)) && (hi == h.Next(c) || hi == SpanHi(h, c))
  }

  lemma GrowSize(h: Heap, c: int, lo: int, hi: int)
    requires Grows(h, c, lo, hi) && c in h.Blocks() && h.Consolidated() && h.Tiled()
    ensures c in h.size && c in h.prevSize && c in h.home
    ensures lo in h.chunks && lo in h.home && h.home[lo] == h.home[c] && h.home[c] in h.areas
    ensures 0 <= lo <= c && h.Next(c) <= hi <= h.End(h.home[c]) && c < h.Next(c)
    ensures ChunkSize(hi - lo) && Boundary(h, lo) && Boundary(h, hi)
    ensures hi != h.End(h.home[c]) ==> hi in h.chunks && hi in h.home && h.home[hi] == h.home[c]
  {
    hide Bytes, Heap.Tiled, Heap.Consolidated, SpanLo, SpanHi;
    ChunkAt(h, c);
    SpanSize(h, c);
    SpanBoundaries(h, c);
    GrowAligned(h, c, lo, hi);
    ChunkNonNegative(h, lo);
    AreaAt(h, h.home[c]);
  }

  lemma GrowAligned(h: Heap, c: int, lo: int, hi: int)
    requires Grows(h, c, lo, hi) && c in h.Blocks() && h.Consolidated() && h.Tiled()
    ensures (hi - lo) % ALIGN == 0 && lo in h.chunks
  {
    hide Bytes, Heap.Tiled, Heap.Consolidated, Heap.ChunkOK, ChunkSize;
    Chunks.Neighbours(h, c);
    SpanSize(h, c);
    ChunkAt(h, c);
    Aligned(h, c);
    Aligned(h, SpanLo(h, c));
    SpanAligned(h, c);
    Between16(lo, hi);
  }

  lemma SpanAligned(h: Heap, c: int)
    requires c in h.Blocks() && h.Consolidated() && h.Tiled()
    ensures c in h.size && SpanHi(h, c) % ALIGN == 0
  {
    hide Bytes, Heap.Tiled, Heap.Consolidated, Heap.ChunkOK, ChunkSize;
    Chunks.Neighbours(h, c);
    Aligned(h, c);
    if h.Free(h.Next(c)) {
      Listed(h, h.Next(c));
      Aligned(h, h.Next(c));
    }
  }

  lemma Listed(h: Heap, c: int)
    requires c in h.FreeChunks()
    ensures c in h.chunks
  {
  }

  lemma GrowJoins(h: Heap, c: int, lo: int, hi: int)
    requires Grows(h, c, lo, hi) && c in h.Blocks() && h.Consolidated() && h.Tiled()
    ensures Joins(h, lo, hi, 1, Between(h, lo, hi))
    ensures Between(h, lo, hi) == (if lo != c then {c} else {}) + (if hi != h.Next(c) then {h.Next(c)} else {})
    ensures lo != c ==> lo in h.FreeChunks()
    ensures hi != h.Next(c) ==> h.Next(c) in h.FreeChunks()
  {
    hide Bytes, Heap.Tiled, Heap.Consolidated;
    GrowSize(h, c, lo, hi);
    Chunks.Neighbours(h, c);
    ChunkAt(h, c);
    ChunkAt(h, lo);
    var all := Between(h, SpanLo(h, c), SpanHi(h, c));
    SpanJoins(h, c, all);
    forall d | d in Between(h, lo, hi)
      ensures d in all && (d == c ==> lo != c) && (d == h.Next(c) ==> hi != h.Next(c))
    {
    }
    if hi != h.Next(c) {
      ChunkAt2(h, h.Next(c));
    }
  }

  // The heap in which lo .. hi is one block in place of c.
  ghost function Held(h: Heap, lo: int, hi: int): Heap {
    h.Tag(lo, hi - lo, 1, h.chunks - Between(h, lo, hi))
  }

  lemma HeldHeap(h: Heap, c: int, lo: int, hi: int)
    requires Grows(h, c, lo, hi) && c in h.Blocks() && h.Consolidated() && h.Tiled()
    ensures lo !in h.Blocks() - {c}
    ensures var h' := Held(h, lo, hi);
            && lo in h'.size && h'.Size(lo) == hi - lo
            && h'.Blocks() == (h.Blocks() - {c})[lo := hi - lo]
            && h'.FreeChunks() == h.FreeChunks() - Between(h, lo, hi) - {lo}
            && h'.areas == h.areas && h'.home == h.home && h'.chunks == h.chunks - Between(h, lo, hi)
            && h'.Tiled() && h'.Consolidated()
  {
    hide Bytes, Heap.Tiled, Heap.Consolidated, Heap.Tag, Between;
    GrowJoins(h, c, lo, hi);
    JoinTiled(h, lo, hi, 1, Between(h, lo, hi));
    JoinConsolidated(h, lo, hi, 1, Between(h, lo, hi));
    JoinBlocks(h, lo, hi, 1, Between(h, lo, hi));
    TagFields(h, lo, hi - lo, 1, h.chunks - Between(h, lo, hi), lo);
    HeldBlocks(h, c, lo, hi);
    if lo != c {
      FreeNotBlock(h, lo);
    }
  }

  lemma HeldBlocks(h: Heap, c: int, lo: int, hi: int)
    requires Grows(h, c, lo, hi) && c in h.Blocks() && h.Consolidated() && h.Tiled()
    ensures (h.Blocks() - Between(h, lo, hi))[lo := hi - lo] == (h.Blocks() - {c})[lo := hi - lo]
  {
    hide Bytes, Heap.Tiled, Heap.Consolidated, Between;
    GrowJoins(h, c, lo, hi);
  }

  // The tags Realloc writes when it cuts at m: as if lo .. hi had been one block before.
  ghost function CutHeld(h: Heap, lo: int, m: int, hi: int): Heap
    requires lo in h.home
  {
    RestTagged(h.(chunks := h.chunks - Between(h, lo, hi)), lo, m, hi - m, 1)
    .Tag(lo, m - lo, 1, h.chunks - Between(h, lo, hi) + {m})
  }

  lemma CutHeldSteps(h: Heap, lo: int, m: int, hi: int)
    requires lo in h.home
    ensures var g := h.(chunks := h.chunks - Between(h, lo, hi));
            CutHeld(h, lo, m, hi) == RestTagged(g, lo, m, hi - m, 1).Tag(lo, m - lo, 1, g.chunks + {m})
  {
  }

  lemma CutHeldIsCut(h: Heap, c: int, lo: int, m: int, hi: int)
    requires Grows(h, c, lo, hi) && c in h.Blocks() && h.Consolidated() && h.Tiled()
    ensures lo in h.home && lo in Held(h, lo, hi).size && CutHeld(h, lo, m, hi) == Held(h, lo, hi).Cut(lo, m, 1, 1)
  {
    hide Bytes, Heap.Tiled, Heap.Consolidated, Between, Grows, Heap.Blocks, Heap.FreeChunks, Heap.Tag, Heap.Cut;
    GrowSize(h, c, lo, hi);
    HeldHeap(h, c, lo, hi);
    CutIsTags(Held(h, lo, hi), lo, m, 1, 1);
    TaggedTwice(h, lo, hi, m, h.chunks - Between(h, lo, hi), h.home[m := h.home[lo]]);
  }

  // A tag that is written again does not matter.
  lemma TaggedTwice(h: Heap, lo: int, hi: int, m: int, live: set<int>, homes: map<int, int>)
    ensures h.Tag(lo, hi - lo, 1, live).(home := homes).Tag(m, hi - m, 1, live + {m}).Tag(lo, m - lo, 1, live + {m})
            == h.(chunks := live).(home := homes).Tag(m, hi - m, 1, live + {m}).Tag(lo, m - lo, 1, live + {m})
  {
    var x, y, z := hi - lo + 1, hi - m + 1, m - lo + 1;
    assert lo + (hi - lo) == hi && m + (hi - m) == hi && lo + (m - lo) == m;
    TagAgain(h.size, lo, x, m, y, z);
    TagOver(h.prevSize, hi, x, y);
  }

  lemma TagAgain(s: map<int, int>, a: int, x: int, m: int, y: int, z: int)
    ensures s[a := x][m := y][a := z] == s[m := y][a := z]
  {
  }

  lemma TagOver(s: map<int, int>, a: int, x: int, z: int)
    ensures s[a := x][a := z] == s[a := z]
  {
  }

  lemma HeldCut(h: Heap, c: int, lo: int, n: int, hi: int)
    requires Grows(h, c, lo, hi) && c in h.Blocks() && h.Consolidated() && h.Tiled()
    requires ChunkSize(n) && hi - lo - n >= MIN_ALLOC
    ensures lo in h.home
    ensures var h', m := CutHeld(h, lo, lo + n, hi), lo + n;
            && h'.Blocks() == (h.Blocks() - {c})[lo := n][m := hi - m]
            && h'.FreeChunks() == h.FreeChunks() - Between(h, lo, hi) - {lo}
            && m !in h'.FreeChunks() && m in h'.chunks && m in h'.home && lo in h'.home && h'.home[m] == h'.home[lo]
            && h'.Blocks() - {lo, m} == h.Blocks() - {c}
            && h'.areas == h.areas && Boundary(h', m) && Boundary(h', lo) && Boundary(h', hi)
            && h'.Tiled() && h'.Consolidated()
  {
    hide Bytes, Heap.Tiled, Heap.Consolidated, Between, Grows, Heap.Cut, Heap.FreeChunks, CutHeld, Held;
    GrowSize(h, c, lo, hi);
    HeldHeap(h, c, lo, hi);
    var g := Held(h, lo, hi);
    SplitBlock(g, lo, n);
    CutHeldIsCut(h, c, lo, lo + n, hi);
    CutHomes(g, lo, lo + n, 1, 1);
    BlockNotFree(g.Cut(lo, lo + n, 1, 1), lo + n);
    NotBlock(g, lo + n);
  }

  lemma CutHomes(h: Heap, c: int, m: int, used: int, restUsed: int)
    requires c in h.size && c in h.home
    ensures var h' := h.Cut(c, m, used, restUsed);
            m in h'.home && c in h'.home && h'.home[m] == h'.home[c] && h'.areas == h.areas
            && h'.chunks == h.chunks + {m}
  {
  }

  lemma BlockNotFree(h: Heap, c: int)
    requires c in h.Blocks()
    ensures c !in h.FreeChunks()
  {
    hide Bytes;
  }

  lemma FreeNotBlock(h: Heap, c: int)
    requires c in h.FreeChunks()
    ensures c !in h.Blocks()
  {
    hide Bytes;
  }

  lemma NotBlock(h: Heap, c: int)
    requires c !in h.chunks
    ensures c !in h.Blocks()
  {
    hide Bytes;
  }

  // --- the bytes ---

  // Cutting at lo + n puts a header into the bytes of block c, which lies behind lo.
  predicate Clobbers(c: int, oldSize: int, lo: int, n: int, hi: int, w: int) {
    lo < c && hi - lo - n >= MIN_ALLOC && c < lo + n < c + oldSize && w < oldSize
  }

  lemma HeldBytes(h: Heap, c: int, lo: int, hi: int, d: map<int, int>, d': map<int, int>, w: int)
    requires Grows(h, c, lo, hi) && c in h.Blocks() && h.Consolidated() && h.Tiled()
    requires Spared(d, d', {lo, hi}, w)
    ensures Kept(h.Blocks() - {c}, d, d', w) && SameBytes(d, d', c + w, h.Next(c))
  {
    hide Bytes, Heap.Tiled, Heap.Consolidated, Spared, SameBytes, Boundary, Grows;
    GrowSize(h, c, lo, hi);
    BlocksKept(h, d, d', {lo, hi}, w);
    KeptFewer(h.Blocks(), {c}, d, d', w);
    assert c in h.Blocks() && h.Blocks()[c] == h.Size(c);
  }

  // d to d2: the two tags; d2 to d3: freeing the remainder.
  lemma CutBytes(h: Heap, c: int, lo: int, n: int, hi: int,
                 d: map<int, int>, d1: map<int, int>, d2: map<int, int>, d3: map<int, int>, w: int)
    requires Grows(h, c, lo, hi) && c in h.Blocks() && h.Consolidated() && h.Tiled()
    requires ChunkSize(n) && hi - lo - n >= MIN_ALLOC && lo in h.home
    requires Spared(d, d1, {lo + n, hi}, w) && Spared(d1, d2, {lo, lo + n}, w)
    requires Kept(CutHeld(h, lo, lo + n, hi).Blocks(), d2, d3, w)
    ensures Kept(h.Blocks() - {c}, d, d3, w)
    ensures SameBytes(d, d3, lo + w, lo + n) && SameBytes(d, d3, lo + n + w, hi)
  {
    hide Bytes, Heap.Tiled, Heap.Consolidated, Spared, SameBytes, Boundary, Grows, Kept, Heap.Blocks, CutHeld, Between;
    var h', m := CutHeld(h, lo, lo + n, hi), lo + n;
    HeldCut(h, c, lo, n, hi);
    SparedBoth(d, d1, d2, {m, hi}, {lo, m}, w);
    BlocksKept(h', d, d2, {m, hi} + {lo, m}, w);
    KeptTwice(h'.Blocks(), d, d2, d3, w);
    KeptFewer(h'.Blocks(), {lo, m}, d, d3, w);
    KeptBlock(h'.Blocks(), lo, d, d3, w);
    KeptBlock(h'.Blocks(), m, d, d3, w);
  }

  lemma KeptBlock(blocks: map<int, int>, b: int, d: map<int, int>, d': map<int, int>, w: int)
    requires Kept(blocks, d, d', w) && b in blocks
    ensures SameBytes(d, d', b + w, b + blocks[b])
  {
  }

  // What is left of the bytes of block c.
  lemma OwnBytes(c: int, oldSize: int, lo: int, n: int, hi: int, d: map<int, int>, d': map<int, int>, w: int)
    requires SameBytes(d, d', lo + w, lo + n) && SameBytes(d, d', lo + n + w, hi)
    requires lo <= c && c + oldSize <= hi && hi - lo - n >= MIN_ALLOC
    ensures lo == c ==> SameBytes(d, d', c + w, c + (if n < oldSize then n else oldSize))
    ensures lo < c && !Clobbers(c, oldSize, lo, n, hi, w) ==> SameBytes(d, d', c + w, c + oldSize)
  {
  }

  // --- the areas when a block moves ---

  ghost predicate HoldsBlock(areas: map<int, int>, blocks: map<int, int>, a: int)
    requires a in areas
  {
    exists d :: d in blocks && a <= d < a + areas[a]
  }

  // The areas left when block c is freed and blocks remain: in a growable pool
  // the area c lay in goes if no block lies in it any more.
  ghost function AreasMoved(areas: map<int, int>, blocks: map<int, int>, c: int, growable: bool): map<int, int> {
    if growable then map a | a in areas && (HoldsBlock(areas, blocks, a) || !(a <= c < a + areas[a])) :: areas[a] else areas
  }

  // A chunk lies in its home and in no other area.
  lemma LiesAtHome(h: Heap, d: int, a: int)
    requires h.Tiled() && d in h.chunks && a in h.areas
    ensures d in h.home && (a <= d < a + h.areas[a] <==> h.home[d] == a)
  {
    ChunkInside(h, d, a);
    AreaAt(h, a);
    AreaAt(h, h.home[d]);
  }

  lemma HomeIsArea(h: Heap, c: int)
    requires h.Tiled() && c in h.chunks
    ensures c in h.home && h.home[c] in h.areas
  {
  }

  lemma MovedAreas(h: Heap, c: int, growable: bool)
    requires c in h.Blocks() && h.Tiled()
    ensures AreasLeft(h, c, growable) == AreasMoved(h.areas, h.Blocks() - {c}, c, growable)
  {
    hide Heap.Tiled;
    var blocks := h.Blocks() - {c};
    forall a, d | a in h.areas && d in h.chunks
      ensures d in h.home && (a <= d < a + h.areas[a] <==> h.home[d] == a)
    {
      LiesAtHome(h, d, a);
    }
    HomeIsArea(h, c);
    if growable && !LastBlock(h, c) {
      var d :| d in h.Blocks() && d in h.home && h.home[d] == h.home[c] && d != c;
      assert d in blocks && HoldsBlock(h.areas, blocks, h.home[c]);
    }
  }

  // An area goes with its last block.
  lemma LastLeaves(h: Heap, c: int, growable: bool)
    requires c in h.Blocks() && h.Tiled()
    ensures !growable ==> AreasLeft(h, c, growable) == h.areas
    ensures forall a :: a in h.areas ==>
              (a !in AreasLeft(h, c, growable) <==>
                 growable && a <= c < a + h.areas[a] && forall b :: b in h.Blocks() - {c} ==> !(a <= b < a + h.areas[a]))
  {
    hide Heap.Tiled, Heap.Blocks, AreasLeft;
    MovedAreas(h, c, growable);
  }

  lemma NotGrowable(areas: map<int, int>, blocks: map<int, int>, c: int)
    ensures AreasMoved(areas, blocks, c, false) == areas
  {
  }

  // An address below all areas.
  lemma NothingMoved(h: Heap, blocks: map<int, int>, c: int, growable: bool)
    requires h.Tiled() && c < 0
    ensures AreasMoved(h.areas, blocks, c, growable) == h.areas
  {
    forall a | a in h.areas
      ensures a > 0
    {
      AreaAt(h, a);
    }
  }

  lemma NotLastArea(h: Heap, c: int, d: int, growable: bool)
    requires c in h.home && d in h.home && h.home[c] == h.home[d] && c != d && d in h.Blocks()
    ensures AreasLeft(h, c, growable) == h.areas
  {
    hide Bytes;
  }

  lemma SameFewer(d: map<int, int>, d': map<int, int>, lo: int, hi: int, to: int)
    requires SameBytes(d, d', lo, hi)
    ensures to <= hi ==> SameBytes(d, d', lo, to)
  {
  }

  // The lists do not see the tags of the two blocks.
  lemma CutLists(h: Heap, l: Lists, lo: int, m: int, hi: int)
    requires lo in h.home && l.OK(h.size) && lo !in l.All() && m !in l.All()
    ensures l.OK(CutHeld(h, lo, m, hi).size)
  {
    hide Bytes, Lists.OK, Lists.All, Between, Heap.Tag;
    var g := h.(chunks := h.chunks - Between(h, lo, hi));
    TagLists(g.(home := g.home[m := g.home[lo]]), l, m, hi - m, 1, g.chunks + {m});
    TagLists(RestTagged(g, lo, m, hi - m, 1), l, lo, m - lo, 1, g.chunks + {m});
  }

  // --- which path ---

  // A block can grow where it is if it and its free neighbours are large enough.
  ghost predicate InPlace(h: Heap, c: int, n: int) {
    c in h.size && c in h.prevSize && SpanHi(h, c) - SpanLo(h, c) >= n
  }

  // Growing forward is preferred to growing backward.
  ghost function NewLo(h: Heap, c: int, n: int): int {
    if c in h.size && c in h.prevSize && SpanHi(h, c) - c < n then SpanLo(h, c) else c
  }

  // A block that is large enough takes no neighbour.
  ghost function NewSpan(h: Heap, c: int, n: int): int {
    if c in h.size && h.Size(c) < n then SpanHi(h, c) - NewLo(h, c, n) else if c in h.size then h.Size(c) else 0
  }

  // The bytes of chunk c and of the free chunk right behind it.
  ghost function Forward(h: Heap, c: int): int {
    if c !in h.size then 0
    else if h.Next(c) in h.FreeChunks() && h.Next(c) in h.size then h.Size(c) + h.Size(h.Next(c)) else h.Size(c)
  }

  // p is the free chunk right in front of c.
  ghost predicate InFront(h: Heap, p: int, c: int) {
    p in h.FreeChunks() && p in h.size && p + h.Size(p) == c
  }

  // Where a block grows: forward when that is enough, else from the free chunk in
  // front, when there is one and all three together are enough.
  lemma GrowsWhere(h: Heap, c: int, n: int)
    requires c in h.Blocks() && h.Consolidated() && h.Tiled()
    ensures var own, forward := h.Blocks()[c], Forward(h, c);
            && own <= forward
            && (forward >= n ==>
                  InPlace(h, c, n) && NewLo(h, c, n) == c && NewSpan(h, c, n) == if own >= n then own else forward)
            && (forall p :: forward < n <= c - p + forward && InFront(h, p, c) ==>
                  InPlace(h, c, n) && NewLo(h, c, n) == p && NewSpan(h, c, n) == c - p + forward)
            && (InPlace(h, c, n) ==> forward >= n || exists p :: InFront(h, p, c) && c - p + forward >= n)
  {
    hide Heap.Tiled, Heap.Consolidated, SpanLo, SpanHi, Heap.FreeChunks;
    BlockTags(h, c);
    BlockSizes(h, c);
    FreeMember(h, h.Next(c));
    forall p | InFront(h, p, c)
      ensures SpanLo(h, c) == p
    {
      OneInFront(h, p, c);
    }
    if h.Free(h.Prev(c)) {
      assert InFront(h, h.Prev(c), c);
    }
  }

  lemma FreeMember(h: Heap, d: int)
    ensures d in h.FreeChunks() ==> d in h.chunks && d in h.size && h.Free(d)
  {
  }

  lemma OneInFront(h: Heap, p: int, c: int)
    requires InFront(h, p, c) && h.Tiled() && c in h.prevSize
    ensures SpanLo(h, c) == p && h.Prev(c) == p
  {
    hide Bytes, Heap.Tiled;
    ChunkAt(h, p);
  }

  // What Realloc reads off the tags around a block.
  lemma BlockTags(h: Heap, c: int)
    requires c in h.Blocks() && h.Consolidated() && h.Tiled()
    ensures c in h.size && c in h.prevSize && h.Next(c) in h.size && h.Prev(c) in h.size
    ensures h.Free(h.Next(c)) <==> SpanHi(h, c) != h.Next(c)
    ensures h.Free(h.Next(c)) ==> h.Next(c) in h.FreeChunks() && SpanHi(h, c) == h.Next(c) + h.Size(h.Next(c))
    ensures h.Free(h.Prev(c)) <==> SpanLo(h, c) != c
    ensures h.Free(h.Prev(c)) ==>
              h.Prev(c) in h.FreeChunks() && SpanLo(h, c) == h.Prev(c) && h.Size(h.Prev(c)) == c - h.Prev(c)
    ensures c < h.Next(c) <= SpanHi(h, c) && SpanLo(h, c) <= c
  {
    hide Heap.Tiled, Heap.Consolidated;
    Chunks.Neighbours(h, c);
    BetweenSpan(h, c);
    ChunkAt(h, c);
    if c != h.home[c] {
      PrevChunk(h, c);
    } else {
      AreaAt(h, c);
    }
  }

  lemma GrowLists(h: Heap, c: int, lo: int, hi: int)
    requires Grows(h, c, lo, hi) && c in h.Blocks() && h.Consolidated() && h.Tiled()
    ensures h.FreeChunks() - Between(h, lo, hi) - {lo}
            == h.FreeChunks() - (if hi != h.Next(c) then {h.Next(c)} else {}) - (if lo != c then {lo} else {})
  {
    hide Bytes, Heap.Tiled, Heap.Consolidated, Between, Heap.FreeChunks;
    GrowJoins(h, c, lo, hi);
    if c in h.FreeChunks() {
      FreeNotBlock(h, c);
    }
  }

  // --- disjointness ---

  // Live blocks are pairwise disjoint.
  lemma BlocksApart(h: Heap, b: int, d: int)
    requires h.Tiled() && b in h.Blocks() && d in h.Blocks() && b < d
    ensures b + h.Blocks()[b] <= d
  {
    hide Bytes, Heap.Tiled;
    Order(h, b, d);
  }

  // Bytes moved into block t do not change other blocks.
  lemma MoveInto(h: Heap, t: int, d: map<int, int>, from: int, n: int, w: int)
    requires h.Tiled() && t in h.Blocks() && 0 <= n && w + n <= h.Blocks()[t] && w >= 0
    ensures Kept(h.Blocks() - {t}, d, Moved(d, t + w, from, n), w)
  {
    hide Bytes, Heap.Tiled, Heap.Blocks, Kept, Moved;
    var others := h.Blocks() - {t};
    forall b | b in others
      ensures t + w + n <= b + w || b + others[b] <= t + w
    {
      if b < t {
        BlocksApart(h, b, t);
      } else {
        BlocksApart(h, t, b);
      }
    }
    MovedKept(others, d, t + w, from, n, w);
  }

  // Bytes copied to a place that is then kept.
  lemma CopiedKept(d: map<int, int>, from: int, d1: map<int, int>, to: int, n: int, d2: map<int, int>)
    requires Copied(d, from, d1, to, n) && SameBytes(d1, d2, to, to + n)
    ensures Copied(d, from, d2, to, n)
  {
    forall a | from <= a < from + n && a in d
      ensures a - from + to in d2 && d2[a - from + to] == d[a]
    {
      assert a - from + to in d1;
    }
  }

  lemma CopiedFrom(d: map<int, int>, d1: map<int, int>, from: int, n: int, d2: map<int, int>, to: int, m: int)
    requires SameBytes(d, d1, from, from + n) && Copied(d1, from, d2, to, m) && m <= n
    ensures Copied(d, from, d2, to, m)
  {
    forall a | from <= a < from + m && a in d
      ensures a - from + to in d2 && d2[a - from + to] == d[a]
    {
      assert a in d1;
    }
  }

  // A byte that was not there is not there after the move.
  lemma LostByte(d: map<int, int>, c: int, oldSize: int, lo: int, size: int, hi: int, w: int)
    requires Clobbers(c, oldSize, lo, size, hi, w) && w > 0
    requires forall a :: lo + size <= a < lo + size + w ==> a !in d
    ensures Missing(Moved(d, lo + w, c + w, oldSize - w), lo + w, oldSize - w)
  {
    var a := if lo + size < c + w then c + w else lo + size;
    MovedBytes(d, lo + w, c + w, oldSize - w, a);
  }

  // Some of the n bytes are not there.
  ghost predicate Missing(d: map<int, int>, from: int, n: int) {
    exists a :: from <= a < from + n && a !in d
  }

  lemma BlockSizes(h: Heap, c: int)
    requires c in h.Blocks() && h.Tiled()
    ensures c in h.size && h.Blocks()[c] == h.Size(c) && ChunkSize(h.Blocks()[c]) && c >= 0
  {
    hide Bytes, Heap.Tiled;
    ChunkNonNegative(h, c);
  }

  lemma AddedBlocks(blocks: map<int, int>, blocks': map<int, int>, t: int)
    requires t !in blocks && t in blocks' && blocks' == blocks[t := blocks'[t]]
    ensures blocks' - {t} == blocks
  {
  }

  lemma KeptSub(blocks: map<int, int>, fewer: map<int, int>, d: map<int, int>, d': map<int, int>, w: int)
    requires Kept(blocks, d, d', w) && forall b :: b in fewer ==> b in blocks && blocks[b] == fewer[b]
    ensures Kept(fewer, d, d', w)
  {
    hide SameBytes;
    forall b | b in fewer
      ensures SameBytes(d, d', b + w, b + fewer[b])
    {
      assert b in blocks;
    }
  }

  lemma AddedBlock(blocks: map<int, int>, t: int, n: int)
    ensures blocks[t := n] - {t} == blocks - {t} && t in blocks[t := n] && blocks[t := n][t] == n
  {
  }

  // A range that begins before block c begins with a free chunk.
  lemma BackwardFree(h: Heap, c: int, lo: int, hi: int)
    requires Grows(h, c, lo, hi) && c in h.Blocks() && h.Consolidated() && h.Tiled() && lo != c
    ensures h.Blocks() - {c} - {lo} == h.Blocks() - {c}
  {
    hide Bytes, Heap.Tiled, Heap.Consolidated, Heap.Blocks, Heap.FreeChunks, Grows;
    GrowJoins(h, c, lo, hi);
    FreeNotBlock(h, lo);
  }

  lemma NoClobber(c: int, oldSize: int, lo: int, n: int, hi: int, w: int)
    requires lo == c
    ensures !Clobbers(c, oldSize, lo, n, hi, w)
  {
  }

  lemma NotNegative(h: Heap, c: int)
    requires h.Tiled() && c < 0
    ensures c !in h.Blocks()
  {
    hide Bytes, Heap.Tiled;
    if c in h.Blocks() {
      ChunkNonNegative(h, c);
    }
  }

  // A block that cannot grow in place is too small.
  lemma SmallSpan(h: Heap, c: int, n: int)
    requires c in h.Blocks() && h.Consolidated() && h.Tiled() && !InPlace(h, c, n)
    ensures h.Blocks()[c] < n
  {
    hide Bytes, Heap.Tiled, Heap.Consolidated;
    BetweenSpan(h, c);
  }

  // A block that grows backward was too small.
  lemma BackwardGrows(h: Heap, c: int, n: int)
    requires c in h.Blocks() && h.Consolidated() && h.Tiled()
    ensures NewLo(h, c, n) != c ==> h.Blocks()[c] < n
  {
    hide Bytes, Heap.Tiled, Heap.Consolidated;
    BetweenSpan(h, c);
  }
}
