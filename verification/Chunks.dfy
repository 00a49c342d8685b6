// The boundary-tag heap of SC_AllocPool: chunk tags, and the invariant that the
// pool's own checks (DoCheckArea, DoCheckChunk, DoCheckFreeChunk) assert.
module Chunks {
  const ALIGN := 16
  const MIN_ALLOC := 32
  const IN_USE := 1

  // A tag without its in-use bit.
  function Bytes(tag: int): int {
    tag - tag % 2
  }

  predicate ChunkSize(n: int) {
    MIN_ALLOC <= n && n % ALIGN == 0
  }

  // The tags, and which addresses are chunks.  Areas are named by their first
  // chunk; home gives the area of a chunk.
  datatype Heap = Heap(size: map<int, int>, prevSize: map<int, int>,
                       areas: map<int, int>, chunks: set<int>, home: map<int, int>, gap: int) {

    ghost function End(b: int): int
      requires b in areas
    {
      b + areas[b]
    }

    ghost function Size(c: int): int
      requires c in size
    {
      Bytes(size[c])
    }

    ghost function Next(c: int): int
      requires c in size
    {
      c + Size(c)
    }

    ghost function Prev(c: int): int
      requires c in prevSize
    {
      c - Bytes(prevSize[c])
    }

    ghost predicate Free(c: int)
      requires c in size
    {
      size[c] % 2 == 0
    }

    // An area: an aligned range with in-use tags before and after its chunks.
    ghost predicate AreaOK(b: int)
      requires b in areas
    {
      && b >= gap && b % ALIGN == 0 && ChunkSize(areas[b])
      && b in chunks && b in home && home[b] == b
      && b in prevSize && prevSize[b] == IN_USE
      && End(b) in size && size[End(b)] == IN_USE
    }

    ghost predicate AllAreasOK() {
      forall b :: b in areas ==> AreaOK(b)
    }

    ghost predicate AreasApart() {
      gap > 0 && forall b, d :: b in areas && d in areas && b < d ==> End(b) + gap <= d
    }

    ghost predicate AreasOK() {
      AllAreasOK() && AreasApart()
    }

    // A chunk lies in its area, its tag is repeated in its successor, and its
    // neighbours on both sides are chunks or the ends of the area.
    ghost predicate ChunkOK(c: int) {
      && c in size && c in prevSize && c in home && home[c] in areas
      && size[c] >= 0 && ChunkSize(Size(c)) && c % ALIGN == 0
      && home[c] <= c && Next(c) <= End(home[c])
      && Next(c) in prevSize && prevSize[Next(c)] == size[c]
      && (Next(c) != End(home[c]) ==> Next(c) in chunks && Next(c) in home && home[Next(c)] == home[c])
      && (c != home[c] ==> Prev(c) in chunks && Prev(c) in home && home[Prev(c)] == home[c]
                           && Prev(c) in size && Next(Prev(c)) == c)
    }

    ghost predicate AllChunksOK() {
      forall c :: c in chunks ==> ChunkOK(c)
    }

    ghost predicate Ordered() {
      forall c, d :: c in chunks && d in chunks && c < d ==> c in size && Next(c) <= d
    }

    ghost predicate Tiled() {
      AreasOK() && AllChunksOK() && Ordered()
    }

    // Fully consolidated: no two neighbours are both free.
    ghost predicate Merged(c: int) {
      c in size && (Free(c) && Next(c) in chunks && Next(c) in size ==> !Free(Next(c)))
    }

    ghost predicate Consolidated() {
      forall c :: c in chunks ==> Merged(c)
    }

    // The blocks in use, with their sizes, and the free chunks.
    ghost function Blocks(): map<int, int> {
      map c | c in chunks && c in size && !Free(c) :: Size(c)
    }

    ghost function FreeChunks(): set<int> {
      set c | c in chunks && c in size && Free(c)
    }

    // Area b is the one chunk b.
    ghost predicate Spans(b: int) {
      b in size && b in areas && Next(b) == End(b)
    }

    // SetSizeFree and SetSizeInUse, after which the chunks are those of live.
    ghost function Tag(c: int, n: int, used: int, live: set<int>): Heap {
      this.(size := size[c := n + used], prevSize := prevSize[c + n := n + used], chunks := live)
    }

    // Chunk c cut at m: the remainder is tagged first, then the front part.
    ghost function Cut(c: int, m: int, used: int, restUsed: int): Heap
      requires c in size && c in home
    {
      this.(home := home[m := home[c]])
      .Tag(m, Next(c) - m, restUsed, chunks + {m})
      .Tag(c, m - c, used, chunks + {m})
    }

    // A new area: in-use neighbours, and one free chunk.
    ghost function WithArea(b: int, n: int): Heap {
      this.(size := size[b + n := IN_USE], prevSize := prevSize[b := IN_USE],
            areas := areas[b := n], home := home[b := b])
      .Tag(b, n, 0, chunks + {b})
    }

    ghost function WithoutArea(b: int): Heap {
      this.(areas := areas - {b}, chunks := chunks - {b})
    }

    // The range the area function returned overlaps no other area.
    ghost predicate Unused(b: int, n: int) {
      && b >= gap && b % ALIGN == 0 && ChunkSize(n)
      && forall d :: d in areas ==> b + n + gap <= d || d + areas[d] + gap <= b
    }
  }

  lemma TagBytes(n: int, used: int)
    requires n % ALIGN == 0 && 0 <= used <= 1
    ensures Bytes(n + used) == n && (n + used) % 2 == used
  {
    var k := n / ALIGN;
    assert n + used == 2 * (8 * k) + used;
  }

  lemma EvenSize(tag: int)
    ensures Bytes(tag) % 2 == 0
  {
  }

  // A position strictly inside or at the end of an area is the start or the
  // sentinel of no other area.
  lemma Apart(h: Heap, b: int, d: int, x: int)
    requires h.AreasOK() && b in h.areas && d in h.areas && b < x <= h.End(b)
    ensures x != d && (x < h.End(b) ==> x != h.End(d)) && (b != d ==> x != h.End(d))
  {
    assert h.AreaOK(b) && h.AreaOK(d);
  }

  lemma FirstApart(h: Heap, b: int, d: int)
    requires h.AreasOK() && b in h.areas && d in h.areas
    ensures b != h.End(d)
  {
    assert h.AreaOK(b) && h.AreaOK(d);
  }

  // Chunks start inside their area.
  lemma ChunkInside(h: Heap, c: int, d: int)
    requires h.Tiled() && c in h.chunks && d in h.areas
    ensures h.home[c] in h.areas && h.home[c] <= c < h.End(h.home[c]) && c != h.End(d)
    ensures c == d ==> h.home[c] == d
  {
    assert h.ChunkOK(c) && h.AreaOK(d);
    if c == h.home[c] {
      FirstApart(h, c, d);
    } else {
      Apart(h, h.home[c], d, c);
    }
  }

  // --- joining ---

  // The chunks from lo up to the boundary hi become one chunk at lo.
  ghost predicate Joins(h: Heap, lo: int, hi: int, used: int, dead: set<int>) {
    && h.Tiled() && lo in h.chunks && h.ChunkOK(lo) && 0 <= used <= 1
    && lo < hi <= h.End(h.home[lo]) && ChunkSize(hi - lo)
    && (hi != h.End(h.home[lo]) ==> hi in h.chunks && hi in h.home && h.home[hi] == h.home[lo])
    && dead == set d | d in h.chunks && lo < d < hi
  }

  lemma AreaAt(h: Heap, b: int)
    requires h.Tiled() && b in h.areas
    ensures h.AreaOK(b) && h.AreasOK()
  {
    hide Heap.AllChunksOK, Heap.Ordered, Bytes, ChunkSize;
  }

  lemma ChunkAt(h: Heap, c: int)
    requires h.Tiled() && c in h.chunks
    ensures h.ChunkOK(c) && h.Next(c) == c + h.Size(c) && h.Next(c) >= c + MIN_ALLOC
  {
    hide Heap.AreasOK, Heap.Ordered, Bytes;
  }

  lemma Order(h: Heap, c: int, d: int)
    requires h.Tiled() && c in h.chunks && d in h.chunks && c < d
    ensures h.ChunkOK(c) && h.ChunkOK(d) && h.Next(c) <= d
  {
  }

  // The predecessor of a chunk that is not first in its area.
  lemma PrevChunk(h: Heap, c: int)
    requires h.Tiled() && c in h.chunks && c in h.home && c != h.home[c]
    ensures c in h.prevSize && h.Prev(c) in h.chunks && h.Prev(c) < c
    ensures h.ChunkOK(h.Prev(c)) && h.Next(h.Prev(c)) == c && h.home[h.Prev(c)] == h.home[c]
  {
    hide Heap.Tiled, Bytes;
    ChunkAt(h, c);
    ChunkAt(h, h.Prev(c));
  }

  // A chunk below the boundary hi ends at or below it.
  lemma BelowBoundary(h: Heap, lo: int, hi: int, used: int, dead: set<int>, c: int)
    requires Joins(h, lo, hi, used, dead) && c in h.chunks && c < hi
    ensures h.ChunkOK(c) && h.Next(c) <= hi
  {
    if hi in h.chunks {
      Order(h, c, hi);
    } else {
      var b := h.home[lo];
      ChunkInside(h, c, b);
      ChunkInside(h, lo, b);
      if h.home[c] != b {
        assert h.AreasApart();
      }
    }
  }

  // The heap after a tag is written, field by field.
  lemma TagFields(h: Heap, c: int, n: int, used: int, live: set<int>, d: int)
    requires n % ALIGN == 0 && 0 <= used <= 1
    ensures var h' := h.Tag(c, n, used, live);
            && h'.chunks == live && h'.areas == h.areas && h'.home == h.home && h'.gap == h.gap
            && (d == c || d in h.size ==>
                 && d in h'.size && h'.size[d] == (if d == c then n + used else h.size[d])
                 && h'.Size(d) == (if d == c then n else h.Size(d))
                 && h'.Next(d) == (if d == c then c + n else h.Next(d))
                 && h'.Free(d) == (if d == c then used == 0 else h.Free(d)))
            && (d == c + n || d in h.prevSize ==>
                 && d in h'.prevSize
                 && h'.prevSize[d] == (if d == c + n then n + used else h.prevSize[d])
                 && h'.Prev(d) == (if d == c + n then c else h.Prev(d)))
  {
    TagBytes(n, used);
    hide Bytes;
  }

  lemma JoinedChunk(h: Heap, lo: int, hi: int, used: int, dead: set<int>, c: int)
    requires Joins(h, lo, hi, used, dead) && c in h.chunks && c !in dead
    ensures h.Tag(lo, hi - lo, used, h.chunks - dead).ChunkOK(c)
  {
    hide Bytes, Heap.Tiled, Heap.Tag, Heap.Next, Heap.Prev, Heap.Size;
    ChunkAt(h, c);
    var live := h.chunks - dead;
    TagFields(h, lo, hi - lo, used, live, c);
    TagFields(h, lo, hi - lo, used, live, h.Next(c));
    if c < lo {
      Order(h, c, lo);
      if c != h.home[c] {
        PrevChunk(h, c);
        TagFields(h, lo, hi - lo, used, live, h.Prev(c));
      }
    } else if c > lo {
      assert c >= hi;
      ChunkInside(h, c, h.home[lo]);
      TagFields(h, lo, hi - lo, used, live, lo);
      if c != h.home[c] && c != hi {
        PrevChunk(h, c);
        TagFields(h, lo, hi - lo, used, live, h.Prev(c));
        if h.Prev(c) < hi {
          BelowBoundary(h, lo, hi, used, dead, h.Prev(c));
        }
      }
    } else {
      TagFields(h, lo, hi - lo, used, live, hi);
      if c != h.home[c] {
        PrevChunk(h, c);
        TagFields(h, lo, hi - lo, used, live, h.Prev(c));
      }
    }
  }

  lemma JoinedArea(h: Heap, lo: int, hi: int, used: int, dead: set<int>, b: int)
    requires Joins(h, lo, hi, used, dead) && b in h.areas
    ensures b !in dead && h.Tag(lo, hi - lo, used, h.chunks - dead).AreaOK(b)
  {
    hide Bytes, Heap.Tiled, Heap.AreasOK, Heap.Tag;
    AreaAt(h, b);
    ChunkInside(h, lo, b);
    Apart(h, h.home[lo], b, hi);
    if lo < b < hi {
      Apart(h, h.home[lo], b, b);
    }
    TagFields(h, lo, hi - lo, used, h.chunks - dead, b);
    TagFields(h, lo, hi - lo, used, h.chunks - dead, h.End(b));
  }

  lemma JoinOrdered(h: Heap, lo: int, hi: int, used: int, dead: set<int>)
    requires Joins(h, lo, hi, used, dead)
    ensures h.Tag(lo, hi - lo, used, h.chunks - dead).Ordered()
  {
    hide Bytes, Heap.Tiled, Heap.Tag, Heap.Next;
    var h' := h.Tag(lo, hi - lo, used, h.chunks - dead);
    TagFields(h, lo, hi - lo, used, h.chunks - dead, lo);
    forall c, d | c in h'.chunks && d in h'.chunks && c < d
      ensures c in h'.size && h'.Next(c) <= d
    {
      Order(h, c, d);
      TagFields(h, lo, hi - lo, used, h.chunks - dead, c);
    }
  }

  lemma JoinTiled(h: Heap, lo: int, hi: int, used: int, dead: set<int>)
    requires Joins(h, lo, hi, used, dead)
    ensures h.Tag(lo, hi - lo, used, h.chunks - dead).Tiled()
  {
    var h' := h.Tag(lo, hi - lo, used, h.chunks - dead);
    hide Bytes, ChunkSize, Heap.ChunkOK, Heap.AreaOK;
    forall c | c in h'.chunks
      ensures h'.ChunkOK(c)
    {
      JoinedChunk(h, lo, hi, used, dead, c);
    }
    forall b | b in h'.areas
      ensures h'.AreaOK(b)
    {
      JoinedArea(h, lo, hi, used, dead, b);
    }
    JoinOrdered(h, lo, hi, used, dead);
  }

  // --- cutting ---

  ghost predicate Cuts(h: Heap, c: int, m: int, used: int, restUsed: int) {
    && h.Tiled() && c in h.chunks && c in h.size && c in h.home && h.ChunkOK(c)
    && 0 <= used <= 1 && 0 <= restUsed <= 1
    && c + MIN_ALLOC <= m <= h.Next(c) - MIN_ALLOC && (m - c) % ALIGN == 0
  }

  lemma CutFields(h: Heap, c: int, m: int, used: int, restUsed: int, d: int)
    requires Cuts(h, c, m, used, restUsed)
    ensures var h', hi := h.Cut(c, m, used, restUsed), h.Next(c);
            && h'.chunks == h.chunks + {m} && h'.areas == h.areas && h'.gap == h.gap
            && h'.home == h.home[m := h.home[c]]
            && (d == c || d == m || d in h.size ==>
                 && d in h'.size
                 && h'.size[d] == (if d == c then m - c + used else if d == m then hi - m + restUsed else h.size[d])
                 && h'.Size(d) == (if d == c then m - c else if d == m then hi - m else h.Size(d))
                 && h'.Next(d) == (if d == c then m else if d == m then hi else h.Next(d))
                 && h'.Free(d) == (if d == c then used == 0 else if d == m then restUsed == 0 else h.Free(d)))
            && (d == m || d == hi || d in h.prevSize ==>
                 && d in h'.prevSize
                 && h'.prevSize[d] == (if d == m then m - c + used else if d == hi then hi - m + restUsed else h.prevSize[d])
                 && h'.Prev(d) == (if d == m then c else if d == hi then m else h.Prev(d)))
  {
    hide Bytes, Heap.Tiled, Heap.Tag, Heap.Prev, Heap.Free, Heap.Next, Heap.Size, Heap.ChunkOK;
    var g := h.(home := h.home[m := h.home[c]]);
    var live := h.chunks + {m};
    CutSizes(h, c, m, used, restUsed);
    SameTags(h, g, c);
    TagFields(g, m, h.Next(c) - m, restUsed, live, d);
    TagFields(g, m, h.Next(c) - m, restUsed, live, c);
    TagFields(g.Tag(m, h.Next(c) - m, restUsed, live), c, m - c, used, live, d);
    SameTags(h, g, d);
  }

  lemma CutSizes(h: Heap, c: int, m: int, used: int, restUsed: int)
    requires Cuts(h, c, m, used, restUsed)
    ensures (h.Next(c) - m) % ALIGN == 0 && m % ALIGN == 0
  {
    hide Bytes, Heap.Tiled;
    ChunkAt(h, c);
  }

  lemma SameTags(h: Heap, g: Heap, d: int)
    requires g.size == h.size && g.prevSize == h.prevSize
    ensures d in h.size ==> g.Next(d) == h.Next(d) && g.Size(d) == h.Size(d) && g.Free(d) == h.Free(d)
    ensures d in h.prevSize ==> g.Prev(d) == h.Prev(d)
  {
    hide Bytes;
  }

  // No chunk, sentinel or area start lies strictly inside a chunk.
  lemma InsideChunk(h: Heap, c: int, m: int, d: int)
    requires h.Tiled() && c in h.chunks && h.ChunkOK(c) && c < m < h.Next(c)
    ensures m !in h.chunks
    ensures d in h.areas ==> m != d && m != h.End(d)
  {
    hide Bytes, Heap.Tiled, Heap.AreasOK;
    ChunkAt(h, c);
    if m in h.chunks {
      Order(h, c, m);
    }
    if d in h.areas {
      AreaAt(h, d);
      Apart(h, h.home[c], d, m);
    }
  }

  lemma CutChunk(h: Heap, c: int, m: int, used: int, restUsed: int, d: int)
    requires Cuts(h, c, m, used, restUsed) && (d in h.chunks || d == m)
    ensures h.Cut(c, m, used, restUsed).ChunkOK(d)
  {
    hide Bytes, Heap.Tiled, Heap.Cut, Heap.Next, Heap.Prev, Heap.Size, Heap.Free;
    var hi := h.Next(c);
    ChunkAt(h, c);
    InsideChunk(h, c, m, h.home[c]);
    CutFields(h, c, m, used, restUsed, c);
    CutFields(h, c, m, used, restUsed, m);
    CutFields(h, c, m, used, restUsed, hi);
    if d == c {
      if c != h.home[c] {
        PrevChunk(h, c);
        CutFields(h, c, m, used, restUsed, h.Prev(c));
      }
    } else if d != m {
      ChunkAt(h, d);
      CutFields(h, c, m, used, restUsed, d);
      CutFields(h, c, m, used, restUsed, h.Next(d));
      CutNeighbour(h, c, m, d);
      ChunkInside(h, d, h.home[c]);
      if d != h.home[d] {
        PrevChunk(h, d);
        CutFields(h, c, m, used, restUsed, h.Prev(d));
      }
    }
  }

  // The successor of another chunk is neither m nor the end of c.
  lemma CutNeighbour(h: Heap, c: int, m: int, d: int)
    requires h.Tiled() && c in h.chunks && d in h.chunks && c != d && h.ChunkOK(c) && h.ChunkOK(d)
    requires c < m < h.Next(c)
    ensures h.Next(d) != m && h.Next(d) != h.Next(c)
  {
    hide Bytes, Heap.Tiled;
    ChunkAt(h, d);
    ChunkAt(h, c);
    if d < c {
      Order(h, d, c);
    } else {
      Order(h, c, d);
    }
  }

  lemma CutArea(h: Heap, c: int, m: int, used: int, restUsed: int, b: int)
    requires Cuts(h, c, m, used, restUsed) && b in h.areas
    ensures h.Cut(c, m, used, restUsed).AreaOK(b)
  {
    hide Bytes, Heap.Tiled, Heap.AreasOK, Heap.Cut;
    AreaAt(h, b);
    ChunkAt(h, c);
    InsideChunk(h, c, m, b);
    ChunkInside(h, c, b);
    Apart(h, h.home[c], b, h.Next(c));
    CutFields(h, c, m, used, restUsed, b);
    CutFields(h, c, m, used, restUsed, h.End(b));
  }

  lemma CutTiled(h: Heap, c: int, m: int, used: int, restUsed: int)
    requires Cuts(h, c, m, used, restUsed)
    ensures h.Cut(c, m, used, restUsed).Tiled()
  {
    hide Bytes, ChunkSize, Heap.ChunkOK, Heap.AreaOK, Heap.Cut;
    var h' := h.Cut(c, m, used, restUsed);
    CutFields(h, c, m, used, restUsed, c);
    forall d | d in h'.chunks
      ensures h'.ChunkOK(d)
    {
      CutChunk(h, c, m, used, restUsed, d);
    }
    forall b | b in h'.areas
      ensures h'.AreaOK(b)
    {
      CutArea(h, c, m, used, restUsed, b);
    }
    CutOrdered(h, c, m, used, restUsed);
  }

  lemma CutOrdered(h: Heap, c: int, m: int, used: int, restUsed: int)
    requires Cuts(h, c, m, used, restUsed)
    ensures h.Cut(c, m, used, restUsed).Ordered()
  {
    hide Bytes, Heap.Tiled, Heap.Cut, Heap.Next;
    var h' := h.Cut(c, m, used, restUsed);
    CutFields(h, c, m, used, restUsed, c);
    CutFields(h, c, m, used, restUsed, m);
    forall d, e | d in h'.chunks && e in h'.chunks && d < e
      ensures d in h'.size && h'.Next(d) <= e
    {
      if d != m {
        Order2(h, c, d);
        CutFields(h, c, m, used, restUsed, d);
      }
      if e != m {
        Order2(h, c, e);
      }
      if d != m && e != m {
        Order(h, d, e);
      }
    }
  }

  lemma Order2(h: Heap, c: int, d: int)
    requires h.Tiled() && c in h.chunks && d in h.chunks
    ensures h.ChunkOK(c) && h.ChunkOK(d) && h.Next(c) > c && h.Next(d) > d
    ensures c < d ==> h.Next(c) <= d
    ensures d < c ==> h.Next(d) <= c
  {
    hide Heap.Tiled, Bytes;
    ChunkAt(h, c);
    ChunkAt(h, d);
    if c < d {
      Order(h, c, d);
    } else if d < c {
      Order(h, d, c);
    }
  }

  // --- areas ---

  lemma AreaFields(h: Heap, b: int, n: int, d: int)
    requires ChunkSize(n)
    ensures var h' := h.WithArea(b, n);
            && h'.chunks == h.chunks + {b} && h'.areas == h.areas[b := n] && h'.gap == h.gap
            && h'.home == h.home[b := b]
            && (d == b || d == b + n || d in h.size ==>
                 && d in h'.size
                 && h'.size[d] == (if d == b then n else if d == b + n then IN_USE else h.size[d])
                 && (d == b ==> h'.Size(d) == n && h'.Next(d) == b + n && h'.Free(d))
                 && (d != b && d != b + n ==>
                      h'.Size(d) == h.Size(d) && h'.Next(d) == h.Next(d) && h'.Free(d) == h.Free(d)))
            && (d == b || d == b + n || d in h.prevSize ==>
                 && d in h'.prevSize
                 && h'.prevSize[d] == (if d == b then IN_USE else if d == b + n then n else h.prevSize[d])
                 && (d != b && d != b + n ==> h'.Prev(d) == h.Prev(d)))
  {
    TagBytes(n, 0);
    hide Bytes;
  }

  // A chunk of the heap, and its neighbours, keep clear of an unused range.
  lemma ClearOf(h: Heap, b: int, n: int, d: int)
    requires h.Tiled() && h.Unused(b, n) && d in h.chunks
    ensures b !in h.areas && h.ChunkOK(d) && (h.Next(d) < b || b + n < d)
    ensures d != h.home[d] ==> h.Prev(d) in h.chunks && (h.Prev(d) < b || b + n < h.Prev(d))
  {
    hide Bytes, Heap.Tiled, Heap.AreasOK;
    ChunkAt(h, d);
    ChunkInside(h, d, h.home[d]);
    AreaAt(h, h.home[d]);
    GapPositive(h);
    if b in h.areas {
      AreaAt(h, b);
    }
    if d != h.home[d] {
      PrevChunk(h, d);
      ChunkInside(h, h.Prev(d), h.home[d]);
    }
  }

  lemma NewAreaChunk(h: Heap, b: int, n: int, d: int)
    requires h.Tiled() && h.Unused(b, n) && d in h.chunks + {b}
    ensures h.WithArea(b, n).ChunkOK(d)
  {
    hide Bytes, Heap.Tiled, Heap.WithArea, Heap.Next, Heap.Prev, Heap.Size, Heap.Free;
    AreaFields(h, b, n, b);
    AreaFields(h, b, n, b + n);
    if d != b {
      ClearOf(h, b, n, d);
      ChunkAt(h, d);
      AreaFields(h, b, n, d);
      AreaFields(h, b, n, h.Next(d));
      if d != h.home[d] {
        AreaFields(h, b, n, h.Prev(d));
      }
    }
  }

  lemma NewAreaArea(h: Heap, b: int, n: int, d: int)
    requires h.Tiled() && h.Unused(b, n) && (d in h.areas || d == b)
    ensures h.WithArea(b, n).AreaOK(d)
  {
    hide Bytes, Heap.Tiled, Heap.AreasOK, Heap.WithArea;
    AreaFields(h, b, n, b);
    AreaFields(h, b, n, b + n);
    if d in h.areas {
      AreaAt(h, d);
      AreaFields(h, b, n, d);
      AreaFields(h, b, n, h.End(d));
      GapPositive(h);
    }
  }

  lemma GapPositive(h: Heap)
    requires h.AreasOK()
    ensures h.gap > 0
  {
  }

  lemma NewAreaTiled(h: Heap, b: int, n: int)
    requires h.Tiled() && h.Unused(b, n)
    ensures h.WithArea(b, n).Tiled()
  {
    hide Bytes, ChunkSize, Heap.ChunkOK, Heap.AreaOK, Heap.WithArea, Heap.Next;
    var h' := h.WithArea(b, n);
    assert ChunkSize(n);
    AreaFields(h, b, n, b);
    forall d | d in h'.chunks
      ensures h'.ChunkOK(d)
    {
      NewAreaChunk(h, b, n, d);
    }
    forall d | d in h'.areas
      ensures h'.AreaOK(d)
    {
      NewAreaArea(h, b, n, d);
    }
    NewAreaOrdered(h, b, n);
    NewAreaApart(h, b, n);
  }

  lemma NewAreaApart(h: Heap, b: int, n: int)
    requires h.Tiled() && h.Unused(b, n)
    ensures h.WithArea(b, n).AreasApart()
  {
    hide Bytes, Heap.AllChunksOK, Heap.Ordered;
    var h' := h.WithArea(b, n);
    forall d, e | d in h'.areas && e in h'.areas && d < e
      ensures h'.End(d) + h'.gap <= e
    {
      assert d == b || d in h.areas;
      assert e == b || e in h.areas;
      if e in h.areas {
        AreaAt(h, e);
      }
      if d in h.areas {
        AreaAt(h, d);
      }
    }
  }

  lemma NewAreaOrdered(h: Heap, b: int, n: int)
    requires h.Tiled() && h.Unused(b, n)
    ensures h.WithArea(b, n).Ordered()
  {
    hide Bytes, Heap.Tiled, Heap.WithArea, Heap.Next;
    var h' := h.WithArea(b, n);
    AreaFields(h, b, n, b);
    forall d, e | d in h'.chunks && e in h'.chunks && d < e
      ensures d in h'.size && h'.Next(d) <= e
    {
      if d != b {
        ClearOf(h, b, n, d);
        ChunkAt(h, d);
        AreaFields(h, b, n, d);
      }
      if e != b {
        ClearOf(h, b, n, e);
        ChunkAt(h, e);
      }
      if d != b && e != b {
        Order(h, d, e);
      }
    }
  }

  // An area that is one single chunk can be given back.
  lemma DropAreaTiled(h: Heap, b: int)
    requires h.Tiled() && h.Spans(b)
    ensures h.WithoutArea(b).Tiled()
  {
    hide Bytes, ChunkSize, Heap.AreaOK, Heap.ChunkOK, Heap.Next;
    var h' := h.WithoutArea(b);
    forall d | d in h'.chunks
      ensures h'.ChunkOK(d)
    {
      DropAreaChunk(h, b, d);
    }
    forall d | d in h'.areas
      ensures h'.AreaOK(d)
    {
      DropAreaArea(h, b, d);
    }
    DropAreaRest(h, b);
  }

  lemma DropAreaRest(h: Heap, b: int)
    requires h.AreasApart() && h.Ordered()
    ensures h.WithoutArea(b).AreasApart() && h.WithoutArea(b).Ordered()
  {
    hide Bytes;
  }

  lemma DropAreaChunk(h: Heap, b: int, d: int)
    requires h.Tiled() && h.Spans(b) && d in h.chunks && d != b
    ensures h.WithoutArea(b).ChunkOK(d)
  {
    hide Bytes, Heap.Tiled;
    ChunkAt(h, d);
    OnlyChunk(h, b, d);
    if d != h.home[d] {
      PrevChunk(h, d);
      OnlyHome(h, b, h.Prev(d));
    }
    if h.Next(d) in h.chunks {
      ChunkAt(h, h.Next(d));
      OnlyHome(h, b, h.Next(d));
    }
  }

  // Chunks of other areas are not b.
  lemma OnlyHome(h: Heap, b: int, d: int)
    requires h.Tiled() && b in h.areas && d in h.chunks && d in h.home
    ensures d == b ==> h.home[d] == b
  {
    hide Bytes, Heap.Tiled;
    AreaAt(h, b);
  }

  lemma OnlyChunk(h: Heap, b: int, d: int)
    requires h.Tiled() && h.Spans(b) && d in h.chunks && d != b
    ensures d in h.home && h.home[d] != b && h.ChunkOK(d)
  {
    hide Bytes, Heap.Tiled;
    ChunkAt(h, d);
    AreaAt(h, b);
    if h.home[d] == b {
      Order(h, b, d);
      ChunkInside(h, d, b);
    }
  }

  lemma DropAreaArea(h: Heap, b: int, d: int)
    requires h.Tiled() && b in h.areas && d in h.areas && d != b
    ensures h.WithoutArea(b).AreaOK(d)
  {
    hide Bytes, Heap.Tiled;
    AreaAt(h, d);
  }

  // --- consolidation ---

  // Joining keeps neighbours consolidated unless it leaves a free chunk beside one.
  lemma JoinConsolidated(h: Heap, lo: int, hi: int, used: int, dead: set<int>)
    requires Joins(h, lo, hi, used, dead)
    requires h.Consolidated()
    requires used == 0 && hi in h.chunks ==> hi in h.size && !h.Free(hi)
    requires used == 0 ==> forall c :: c in h.chunks && c in h.size && h.Next(c) == lo ==> !h.Free(c)
    ensures h.Tag(lo, hi - lo, used, h.chunks - dead).Consolidated()
  {
    hide Bytes, Heap.Tiled, Heap.Tag, Heap.Next, Heap.Prev, Heap.Size, Heap.Free, Heap.ChunkOK;
    var h' := h.Tag(lo, hi - lo, used, h.chunks - dead);
    TagFields(h, lo, hi - lo, used, h.chunks - dead, lo);
    forall c | c in h'.chunks
      ensures h'.Merged(c)
    {
      assert h.Merged(c);
      TagFields(h, lo, hi - lo, used, h.chunks - dead, c);
      TagFields(h, lo, hi - lo, used, h.chunks - dead, h'.Next(c));
    }
  }

  lemma CutConsolidated(h: Heap, c: int, m: int, restUsed: int)
    requires Cuts(h, c, m, 1, restUsed) && h.Consolidated()
    requires restUsed == 0 && h.Next(c) in h.chunks ==> h.Next(c) in h.size && !h.Free(h.Next(c))
    ensures h.Cut(c, m, 1, restUsed).Consolidated()
  {
    hide Bytes, Heap.Tiled, Heap.Cut, Heap.Next, Heap.Prev, Heap.Size, Heap.Free, Heap.ChunkOK;
    var h' := h.Cut(c, m, 1, restUsed);
    CutFields(h, c, m, 1, restUsed, c);
    CutFields(h, c, m, 1, restUsed, m);
    CutFields(h, c, m, 1, restUsed, h.Next(c));
    CutApart(h, c, m, restUsed);
    forall d | d in h'.chunks
      ensures h'.Merged(d)
    {
      if d in h.chunks {
        assert h.Merged(d);
        CutFields(h, c, m, 1, restUsed, d);
        CutFields(h, c, m, 1, restUsed, h'.Next(d));
        if d != c && d != m {
          ChunkAt(h, d);
          ChunkAt(h, c);
          CutNeighbour(h, c, m, d);
        }
      }
    }
  }

  lemma CutApart(h: Heap, c: int, m: int, restUsed: int)
    requires Cuts(h, c, m, 1, restUsed)
    ensures m !in h.chunks && c < m < h.Next(c)
  {
    hide Bytes, Heap.Tiled;
    InsideChunk(h, c, m, c);
  }

  lemma NewAreaConsolidated(h: Heap, b: int, n: int)
    requires h.Tiled() && h.Unused(b, n) && h.Consolidated()
    ensures h.WithArea(b, n).Consolidated()
  {
    hide Bytes, Heap.Tiled, Heap.WithArea, Heap.Next, Heap.Prev, Heap.Size, Heap.Free, Heap.ChunkOK;
    var h' := h.WithArea(b, n);
    assert ChunkSize(n);
    AreaFields(h, b, n, b);
    forall d | d in h'.chunks
      ensures h'.Merged(d)
    {
      AreaFields(h, b, n, d);
      AreaFields(h, b, n, h'.Next(d));
      if b + n in h.chunks {
        ClearOf(h, b, n, b + n);
        ChunkAt(h, b + n);
      }
      if d != b {
        assert h.Merged(d);
        ClearOf(h, b, n, d);
        ChunkAt(h, d);
      }
    }
  }

  lemma DropAreaConsolidated(h: Heap, b: int)
    requires h.Consolidated()
    ensures h.WithoutArea(b).Consolidated()
  {
    hide Bytes;
    var h' := h.WithoutArea(b);
    forall d | d in h'.chunks
      ensures h'.Merged(d)
    {
      assert h.Merged(d);
    }
  }

  // --- what the transitions do to the blocks ---

  lemma JoinBlocks(h: Heap, lo: int, hi: int, used: int, dead: set<int>)
    requires Joins(h, lo, hi, used, dead)
    ensures var h' := h.Tag(lo, hi - lo, used, h.chunks - dead);
            && h'.Blocks() == (if used == 1 then (h.Blocks() - dead)[lo := hi - lo] else h.Blocks() - (dead + {lo}))
            && h'.FreeChunks() == (if used == 0 then h.FreeChunks() - dead + {lo} else h.FreeChunks() - dead - {lo})
  {
    hide Bytes, Heap.Tiled, Heap.Tag, Heap.Next, Heap.Prev, Heap.Size, Heap.Free, Heap.ChunkOK;
    var live := h.chunks - dead;
    TagFields(h, lo, hi - lo, used, live, lo);
    forall c | c in h.chunks
      ensures c in h.size
    {
      ChunkAt2(h, c);
    }
    forall c | c in h.size
      ensures var h' := h.Tag(lo, hi - lo, used, live);
              c in h'.size && h'.Size(c) == (if c == lo then hi - lo else h.Size(c))
              && h'.Free(c) == (if c == lo then used == 0 else h.Free(c))
    {
      TagFields(h, lo, hi - lo, used, live, c);
    }
  }

  lemma ChunkAt2(h: Heap, c: int)
    requires h.Tiled() && c in h.chunks
    ensures c in h.size && h.Next(c) > c
  {
    hide Bytes, Heap.Tiled;
    ChunkAt(h, c);
  }

  lemma CutBlocks(h: Heap, c: int, m: int, restUsed: int)
    requires Cuts(h, c, m, 1, restUsed)
    ensures var h', n := h.Cut(c, m, 1, restUsed), h.Next(c) - m;
            && m !in h.chunks
            && h'.Blocks() == (if restUsed == 1 then h.Blocks()[c := m - c][m := n] else h.Blocks()[c := m - c])
            && h'.FreeChunks() == (if restUsed == 1 then h.FreeChunks() - {c} else h.FreeChunks() - {c} + {m})
            && h'.Size(m) == n
  {
    hide Bytes, Heap.Tiled, Heap.Cut, Heap.Next, Heap.Prev, Heap.Size, Heap.Free, Heap.ChunkOK;
    CutApart(h, c, m, restUsed);
    CutFields(h, c, m, 1, restUsed, c);
    CutFields(h, c, m, 1, restUsed, m);
    forall d | d in h.chunks
      ensures d in h.size
    {
      ChunkAt2(h, d);
    }
    forall d | d in h.size
      ensures var h' := h.Cut(c, m, 1, restUsed);
              d in h'.size
              && h'.Size(d) == (if d == c then m - c else if d == m then h.Next(c) - m else h.Size(d))
              && h'.Free(d) == (if d == c then false else if d == m then restUsed == 0 else h.Free(d))
    {
      CutFields(h, c, m, 1, restUsed, d);
    }
  }

  lemma NewAreaBlocks(h: Heap, b: int, n: int)
    requires h.Tiled() && h.Unused(b, n)
    ensures var h' := h.WithArea(b, n);
            b !in h.chunks && h'.Blocks() == h.Blocks() && h'.FreeChunks() == h.FreeChunks() + {b}
            && b in h'.size && h'.Size(b) == n && h'.Next(b) == b + n && b in h'.home && h'.home[b] == b
  {
    hide Bytes, Heap.Tiled, Heap.WithArea, Heap.Next, Heap.Prev, Heap.Size, Heap.Free, Heap.ChunkOK;
    assert ChunkSize(n);
    AreaFields(h, b, n, b);
    if b in h.chunks {
      ClearOf(h, b, n, b);
      ChunkAt(h, b);
    }
    forall d | d in h.chunks
      ensures d in h.size && d != b + n && d != b
    {
      ClearOf(h, b, n, d);
      ChunkAt(h, d);
      ChunkAt2(h, d);
    }
    forall d | d in h.size && d != b && d != b + n
      ensures var h' := h.WithArea(b, n);
              d in h'.size && h'.Size(d) == h.Size(d) && h'.Free(d) == h.Free(d)
    {
      AreaFields(h, b, n, d);
    }
  }

  lemma DropAreaBlocks(h: Heap, b: int)
    ensures h.WithoutArea(b).Blocks() == h.Blocks() - {b}
    ensures h.WithoutArea(b).FreeChunks() == h.FreeChunks() - {b}
  {
    hide Bytes;
  }

  // --- freeing a block ---

  // The range that becomes one free chunk when block c is freed.
  ghost function SpanLo(h: Heap, c: int): int
    requires c in h.prevSize
  {
    if h.prevSize[c] % 2 == 0 then h.Prev(c) else c
  }

  ghost function SpanHi(h: Heap, c: int): int
    requires c in h.size
  {
    if h.Next(c) in h.size && h.Free(h.Next(c)) then h.Next(h.Next(c)) else h.Next(c)
  }

  // The in-use bits tell free neighbours from used ones and from the area ends.
  lemma Neighbours(h: Heap, c: int)
    requires h.Tiled() && h.Consolidated() && c in h.Blocks()
    ensures c in h.chunks && c in h.size && c in h.prevSize && h.Next(c) in h.size
    ensures h.prevSize[c] % 2 == 0 ==>
              h.Prev(c) in h.FreeChunks() && h.Prev(c) < c && h.Next(h.Prev(c)) == c
              && h.home[c] in h.areas && c != h.home[c]
    ensures h.Free(h.Next(c)) ==> h.Next(c) in h.FreeChunks()
    ensures h.Next(c) !in h.chunks ==> c in h.home && h.home[c] in h.areas && h.Next(c) == h.End(h.home[c])
  {
    hide Bytes, Heap.Tiled;
    ChunkAt(h, c);
    AreaAt(h, h.home[c]);
    if c != h.home[c] {
      PrevChunk(h, c);
      ChunkAt2(h, h.Prev(c));
    }
    if h.Next(c) in h.chunks {
      ChunkAt2(h, h.Next(c));
    }
  }

  lemma SpanJoins(h: Heap, c: int, dead: set<int>)
    requires h.Tiled() && h.Consolidated() && c in h.Blocks() && c in h.prevSize && c in h.size
    requires dead == set d | d in h.chunks && SpanLo(h, c) < d < SpanHi(h, c)
    ensures Joins(h, SpanLo(h, c), SpanHi(h, c), 0, dead)
    ensures dead == (if SpanLo(h, c) < c then {c} else {}) + (if SpanHi(h, c) > h.Next(c) then {h.Next(c)} else {})
    ensures SpanHi(h, c) > h.Next(c) <==> h.Next(c) in h.chunks && h.Next(c) in h.size && h.Free(h.Next(c))
  {
    hide Bytes, Heap.Tiled, Heap.Consolidated;
    Neighbours(h, c);
    var lo, n, hi := SpanLo(h, c), h.Next(c), SpanHi(h, c);
    ChunkAt(h, c);
    ChunkAt(h, lo);
    if lo != c {
      PrevChunk(h, c);
    }
    if n in h.chunks {
      ChunkAt(h, n);
    }
    SpanSize(h, c);
    forall d | d in dead
      ensures d == c || (d == n && hi > n)
    {
      if d < c {
        Order(h, lo, d);
      } else if c < d {
        Order(h, c, d);
        if d > n {
          Order(h, n, d);
        }
      }
    }
  }

  lemma SpanSize(h: Heap, c: int)
    requires h.Tiled() && h.Consolidated() && c in h.Blocks() && c in h.prevSize && c in h.size
    ensures SpanLo(h, c) in h.chunks && SpanLo(h, c) in h.home && c in h.home
    ensures h.home[SpanLo(h, c)] == h.home[c] && h.home[c] in h.areas
    ensures SpanLo(h, c) <= c && h.Next(c) <= SpanHi(h, c) <= h.End(h.home[c])
    ensures ChunkSize(SpanHi(h, c) - SpanLo(h, c))
    ensures SpanHi(h, c) != h.End(h.home[c]) ==>
              SpanHi(h, c) in h.chunks && SpanHi(h, c) in h.home && h.home[SpanHi(h, c)] == h.home[c]
  {
    hide Bytes, Heap.Tiled, Heap.Consolidated, ChunkSize;
    Neighbours(h, c);
    var lo, n, hi := SpanLo(h, c), h.Next(c), SpanHi(h, c);
    ChunkAt(h, c);
    Aligned(h, c);
    AreaAt(h, h.home[c]);
    if lo != c {
      PrevChunk(h, c);
    }
    Aligned(h, lo);
    if n in h.chunks {
      ChunkAt(h, n);
      Aligned(h, n);
    }
    Between16(lo, hi);
  }

  // Chunks begin and end at multiples of 16.
  lemma Aligned(h: Heap, c: int)
    requires h.Tiled() && c in h.chunks
    ensures c % ALIGN == 0 && c in h.size && h.Next(c) % ALIGN == 0
  {
    hide Bytes, Heap.Tiled;
    ChunkAt(h, c);
  }

  lemma Between16(lo: int, hi: int)
    requires lo % ALIGN == 0 && hi % ALIGN == 0 && hi - lo >= MIN_ALLOC
    ensures ChunkSize(hi - lo) && (hi - lo) % ALIGN == 0
  {
  }

  // Freeing block c: the heap stays tiled and consolidated, and only block c goes.
  lemma FreeSpan(h: Heap, c: int, dead: set<int>)
    requires h.Tiled() && h.Consolidated() && c in h.Blocks() && c in h.prevSize && c in h.size
    requires dead == set d | d in h.chunks && SpanLo(h, c) < d < SpanHi(h, c)
    ensures var lo, hi := SpanLo(h, c), SpanHi(h, c);
            var h' := h.Tag(lo, hi - lo, 0, h.chunks - dead);
            && h'.Tiled() && h'.Consolidated() && lo in h'.chunks && lo in h'.size && h'.Next(lo) == hi
            && h'.Blocks() == h.Blocks() - {c}
            && h'.FreeChunks() == h.FreeChunks() - dead + {lo}
            && lo >= 0 && h'.size[lo] == hi - lo && ChunkSize(hi - lo)
  {
    hide Bytes, Heap.Tiled, Heap.Consolidated, Heap.Tag;
    var lo, hi := SpanLo(h, c), SpanHi(h, c);
    SpanJoins(h, c, dead);
    JoinTiled(h, lo, hi, 0, dead);
    JoinBlocks(h, lo, hi, 0, dead);
    TagFields(h, lo, hi - lo, 0, h.chunks - dead, lo);
    SpanNeighbours(h, c, dead);
    JoinConsolidated(h, lo, hi, 0, dead);
    ChunkNonNegative(h, lo);
    SpanBlocks(h, c, dead);
  }

  lemma ChunkNonNegative(h: Heap, c: int)
    requires h.Tiled() && c in h.chunks
    ensures c >= 0 && c in h.size && h.size[c] >= 0 && ChunkSize(h.Size(c))
  {
    hide Bytes, Heap.Tiled;
    ChunkAt(h, c);
    AreaAt(h, h.home[c]);
    GapPositive(h);
  }

  lemma SpanBlocks(h: Heap, c: int, dead: set<int>)
    requires h.Tiled() && h.Consolidated() && c in h.Blocks() && c in h.prevSize && c in h.size
    requires dead == set d | d in h.chunks && SpanLo(h, c) < d < SpanHi(h, c)
    ensures h.Blocks() - (dead + {SpanLo(h, c)}) == h.Blocks() - {c}
  {
    hide Bytes, Heap.Tiled, Heap.Consolidated;
    SpanJoins(h, c, dead);
    Neighbours(h, c);
  }

  // The neighbours of the joined chunk are in use.
  lemma SpanNeighbours(h: Heap, c: int, dead: set<int>)
    requires h.Tiled() && h.Consolidated() && c in h.Blocks() && c in h.prevSize && c in h.size
    requires dead == set d | d in h.chunks && SpanLo(h, c) < d < SpanHi(h, c)
    ensures var lo, hi := SpanLo(h, c), SpanHi(h, c);
            && (hi in h.chunks ==> hi in h.size && !h.Free(hi))
            && forall d :: d in h.chunks && d in h.size && h.Next(d) == lo ==> !h.Free(d)
  {
    hide Bytes, Heap.Tiled;
    Neighbours(h, c);
    var lo, n, hi := SpanLo(h, c), h.Next(c), SpanHi(h, c);
    if hi in h.chunks {
      ChunkAt2(h, hi);
      if hi != n {
        assert h.Merged(n);
      }
    }
    forall d | d in h.chunks && d in h.size && h.Next(d) == lo
      ensures !h.Free(d)
    {
      if lo != c {
        assert h.Merged(d);
      } else {
        NextIsPrev(h, d, c);
      }
    }
  }

  lemma NextIsPrev(h: Heap, d: int, c: int)
    requires h.Tiled() && d in h.chunks && c in h.chunks && d in h.size && h.Next(d) == c && c in h.prevSize
    ensures h.prevSize[c] == h.size[d]
  {
    hide Bytes, Heap.Tiled;
    ChunkAt(h, d);
  }

  // --- where headers are ---

  // A chunk start or a chunk end.
  ghost predicate Boundary(h: Heap, q: int) {
    q in h.chunks || exists d :: d in h.chunks && d in h.size && h.Next(d) == q
  }

  // Boundaries are never strictly inside a chunk.
  lemma NotInside(h: Heap, b: int, q: int)
    requires h.Tiled() && b in h.chunks && b in h.size && Boundary(h, q)
    ensures q <= b || q >= h.Next(b)
  {
    hide Bytes, Heap.Tiled;
    ChunkAt(h, b);
    if b < q < h.Next(b) {
      InsideChunk(h, b, q, h.home[b]);
      var d :| d in h.chunks && d in h.size && h.Next(d) == q;
      ChunkAt(h, d);
      if d == b {
      } else {
        Order2(h, b, d);
      }
    }
  }

  // SetSizeFree on a freed span writes headers at boundaries only.
  lemma SpanBoundaries(h: Heap, c: int)
    requires h.Tiled() && h.Consolidated() && c in h.Blocks() && c in h.prevSize && c in h.size
    ensures Boundary(h, SpanLo(h, c)) && Boundary(h, SpanHi(h, c))
  {
    hide Bytes, Heap.Tiled, Heap.Consolidated;
    Neighbours(h, c);
  }

  // IsArea recognises exactly the areas that are one chunk.
  lemma IsAreaTest(h: Heap, c: int)
    requires h.Tiled() && c in h.chunks
    ensures c in h.prevSize && c in h.size && h.Next(c) in h.size
    ensures h.prevSize[c] == IN_USE && h.size[h.Next(c)] == IN_USE <==> h.Spans(c)
    ensures c in h.areas ==> c in h.home && h.home[c] == c
  {
    hide Heap.Tiled;
    ChunkAt(h, c);
    var b := h.home[c];
    AreaAt(h, b);
    if h.Next(c) != h.End(b) {
      ChunkAt(h, h.Next(c));
      SizeTag(h.size[h.Next(c)]);
    }
    if c != b {
      PrevChunk(h, c);
      ChunkAt(h, h.Prev(c));
      SizeTag(h.size[h.Prev(c)]);
    }
    if c in h.areas {
      AreaAt(h, c);
    }
  }

  lemma SizeTag(tag: int)
    requires ChunkSize(Bytes(tag))
    ensures tag != IN_USE
  {
  }
}
