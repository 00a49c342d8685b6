// What runs of the pool's operations amount to.
module PoolRuns {
  import opened Chunks
  import opened BinMask
  import opened FreeLists
  import opened Payload
  import opened PoolFacts
  import opened Resizing
  import opened Walks
  import opened AllocPools

  // Live blocks are inside areas and pairwise disjoint, and each holds its bytes.
  lemma LiveBlocks(h: Heap, b: int, d: int)
    requires h.Tiled() && b in h.Blocks() && d in h.Blocks() && b != d
    ensures b + h.Blocks()[b] <= d || d + h.Blocks()[d] <= b
    ensures exists a :: a in h.areas && a <= b && b + h.Blocks()[b] <= a + h.areas[a]
  {
    hide Bytes, Heap.Tiled;
    ChunkAt(h, b);
    if b < d {
      BlocksApart(h, b, d);
    } else {
      BlocksApart(h, d, b);
    }
    assert h.home[b] in h.areas;
  }

  datatype Call = CallAlloc(n: nat) | CallFree(ptr: int) | CallRealloc(ptr: int, n: nat)

  // A caller may pass NULL or a block it holds; the search must not mistake a
  // chunk for a larger one, which AllocPool.SmallPool excludes for sizes below 2^31.
  ghost predicate Legal(pool: AllocPool, call: Call)
    reads pool
  {
    match call
    case CallAlloc(n) => pool.Sound(pool.RequestToSize(n))
    case CallFree(ptr) => ptr != 0 ==> ptr - pool.header in pool.Blocks()
    case CallRealloc(ptr, n) =>
      pool.Sound(pool.RequestToSize(n)) && (ptr != 0 ==> ptr - pool.header in pool.Blocks())
  }

  // Any call on a fixed-size pool that has its area keeps the pool sound and its
  // area the same, and what is in use and what is free add up to mAreaInitSize.
  method FixedCall(pool: AllocPool, call: Call)
    requires pool.Valid() && pool.mAreaMoreSize == 0 && pool.areas != map[] && Legal(pool, call)
    modifies pool
    ensures pool.Valid() && pool.areas == old(pool.areas)
    ensures forall b :: b in pool.areas ==>
              && pool.areas == map[b := pool.mAreaInitSize]
              && WalkBytes(pool.H(), b, pool.H().End(b), false) + WalkBytes(pool.H(), b, pool.H().End(b), true)
                 == pool.mAreaInitSize
  {
    hide Heap.Tiled, Heap.Consolidated, Heap.FreeChunks, Heap.Blocks, Lists.OK, Lists.All, Bytes, MasksMatch, AreaRing,
      LastBlock, Kept, Copied, Missing, NoFit, Best, InPlace, NewLo, NewSpan, AreasMoved, WalkBytes;
    NoRingNoAreas(pool.mAreas, pool.mAreaNext, pool.mAreaPrev, pool.mAreaSize, pool.ring, pool.areas);
    match call {
      case CallAlloc(n) => var r := pool.Alloc(n, 0);
      case CallFree(ptr) => pool.Free(ptr);
      case CallRealloc(ptr, n) => var r := pool.Realloc(ptr, n, 0);
    }
    forall b | b in pool.areas
      ensures WalkBytes(pool.H(), b, pool.H().End(b), false) + WalkBytes(pool.H(), b, pool.H().End(b), true)
              == pool.areas[b]
    {
      AreaConserved(pool.H(), b);
    }
  }

  // ptrs lists the blocks, each once.
  ghost predicate Pending(blocks: map<int, int>, ptrs: seq<int>, header: int) {
    Live(blocks, ptrs, header) && Once(ptrs) && Listed(blocks, ptrs, header)
  }

  ghost predicate Live(blocks: map<int, int>, ptrs: seq<int>, header: int) {
    forall i :: 0 <= i < |ptrs| ==> ptrs[i] != 0 && ptrs[i] - header in blocks
  }

  ghost predicate Once(ptrs: seq<int>) {
    forall i, j :: 0 <= i < j < |ptrs| ==> ptrs[i] != ptrs[j]
  }

  ghost predicate Listed(blocks: map<int, int>, ptrs: seq<int>, header: int) {
    forall b :: b in blocks ==> b + header in ptrs
  }

  lemma PendingStep(blocks: map<int, int>, ptrs: seq<int>, header: int)
    requires Pending(blocks, ptrs, header) && ptrs != []
    ensures ptrs[0] != 0 && ptrs[0] - header in blocks
    ensures Pending(blocks - {ptrs[0] - header}, ptrs[1..], header)
  {
    LiveStep(blocks, ptrs, header);
    ListedStep(blocks, ptrs, header);
    OnceStep(ptrs);
    hide Live, Once, Listed;
  }

  lemma LiveStep(blocks: map<int, int>, ptrs: seq<int>, header: int)
    requires Live(blocks, ptrs, header) && Once(ptrs) && ptrs != []
    ensures Live(blocks - {ptrs[0] - header}, ptrs[1..], header)
  {
    var rest, left := ptrs[1..], blocks - {ptrs[0] - header};
    forall i | 0 <= i < |rest|
      ensures rest[i] != 0 && rest[i] - header in left
    {
      assert rest[i] == ptrs[i + 1] && ptrs[i + 1] != ptrs[0];
    }
  }

  lemma OnceStep(ptrs: seq<int>)
    requires Once(ptrs) && ptrs != []
    ensures Once(ptrs[1..])
  {
  }

  lemma ListedStep(blocks: map<int, int>, ptrs: seq<int>, header: int)
    requires Listed(blocks, ptrs, header) && ptrs != []
    ensures Listed(blocks - {ptrs[0] - header}, ptrs[1..], header)
  {
    var rest, left := ptrs[1..], blocks - {ptrs[0] - header};
    forall b | b in left
      ensures b + header in rest
    {
      assert b in blocks && b + header in [ptrs[0]] + rest;
    }
  }

  lemma PendingDone(blocks: map<int, int>, header: int)
    requires Pending(blocks, [], header)
    ensures blocks == map[]
  {
    assert forall b :: b in blocks ==> b + header in [];
  }

  // In a fixed-size pool that has its area, freeing all blocks in any order
  // leaves exactly one free chunk, of mAreaInitSize.
  method FreeInOrder(pool: AllocPool, ptrs: seq<int>)
    requires pool.Valid() && pool.mAreaMoreSize == 0 && Pending(pool.Blocks(), ptrs, pool.header)
    modifies pool
    ensures pool.Valid() && pool.areas == old(pool.areas) && pool.Blocks() == map[]
    ensures pool.areas == map[] ==> pool.H().FreeChunks() == {}
    ensures pool.areas != map[] ==> exists b ::
              && pool.areas == map[b := pool.mAreaInitSize] && pool.H().FreeChunks() == {b}
              && pool.H().Spans(b) && pool.H().Size(b) == pool.mAreaInitSize
  {
    hide Heap.Tiled, Heap.Consolidated, Heap.FreeChunks, Heap.Blocks, Heap.Spans, LastBlock, Pending, OnlyArea;
    hide Lists.OK, Lists.All, Bytes, MasksMatch, AreaRing;
    var rest := ptrs;
    while rest != []
      invariant pool.Valid() && pool.areas == old(pool.areas) && Pending(pool.Blocks(), rest, pool.header)
      decreases |rest|
    {
      PendingStep(pool.Blocks(), rest, pool.header);
      pool.Free(rest[0]);
      rest := rest[1..];
    }
    PendingDone(pool.Blocks(), pool.header);
    NothingLeft(pool.H());
    OneFreeChunk(pool.H(), pool.mAreaInitSize);
  }

  lemma OneFreeChunk(h: Heap, size: int)
    requires OnlyArea(h.areas, size)
    requires h.FreeChunks() == h.areas.Keys && forall b :: b in h.areas ==> h.Spans(b)
    ensures h.areas == map[] ==> h.FreeChunks() == {}
    ensures h.areas != map[] ==> exists b ::
              h.areas == map[b := size] && h.FreeChunks() == {b} && h.Spans(b) && h.Size(b) == size
  {
    hide Bytes, Heap.FreeChunks;
    EmptyOrNot(h.areas.Keys);
    assert h.areas.Keys == {} ==> h.areas == map[];
    if b :| b in h.areas {
      assert h.areas == map[b := size] && h.Spans(b);
    }
  }
}
