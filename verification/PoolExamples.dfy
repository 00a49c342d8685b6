// Inputs on which the pool does not keep its promises.
module PoolExamples {
  import opened Chunks
  import opened BinMask
  import opened FreeLists
  import opened Payload
  import opened PoolFacts
  import opened Resizing
  import opened AllocPools

  // A growable pool of areas of 1024 bytes breaks when asked for 1008 bytes: the
  // area is split with nothing left to split off.
  method TightExample(base: int) returns (pool: AllocPool, r: Option<int>)
    requires base >= 32 && base % ALIGN == 0
    ensures fresh(pool) && r.Some? && !pool.Valid()
  {
    hide Heap.Tiled, Heap.Consolidated, Heap.FreeChunks, Heap.Blocks, Heap.Spans;
    hide Lists.OK, Lists.All, Bytes, MasksMatch, AreaRing;
    pool := new AllocPool(0, 1024, 16, 0);
    NothingLeft(pool.H());
    assert pool.L().All() == {};
    assert pool.RequestToSize(1008) == 1024;
    assert pool.NeedsArea(1024);
    r := pool.Alloc(1008, base);
  }

  // --- differences that are no int32 ---

  // A fixed pool in its first state: one free chunk.
  method OneChunk(size: nat, header: int, base: int) returns (pool: AllocPool)
    requires ChunkSize(size) && (header == 16 || header == 32) && base >= 2 * header && base % ALIGN == 0
    ensures fresh(pool) && pool.Valid() && pool.header == header && pool.mAreaMoreSize == 0 && pool.mAreas != 0
    ensures pool.areas == map[base := size]
    ensures pool.L().All() == {base} == pool.H().FreeChunks() && base in pool.mSize && Bytes(pool.mSize[base]) == size
  {
    hide Heap.Tiled, Heap.Consolidated, Heap.FreeChunks, Heap.Blocks, Lists.OK, Lists.All, Bytes, MasksMatch, AreaRing;
    pool := new AllocPool(size, 0, header, base);
    NothingLeft(pool.H());
    assert base in pool.areas && pool.H().Spans(base);
    NoRingNoAreas(pool.mAreas, pool.mAreaNext, pool.mAreaPrev, pool.mAreaSize, pool.ring, pool.areas);
  }

  // A pool of 3,072,000,000 bytes, all free, has no chunk for 100 bytes, or for any
  // request up to 924,000,000: the difference to its chunk is a negative int32.
  method BigPool(n: nat) returns (pool: AllocPool, r: Option<int>)
    requires n <= 924_000_000
    ensures fresh(pool) && pool.Valid() && r.None?
    ensures exists c :: c in pool.H().FreeChunks() && c in pool.mSize && Bytes(pool.mSize[c]) >= pool.RequestToSize(n)
  {
    hide Heap.Tiled, Heap.Consolidated, Heap.FreeChunks, Heap.Blocks, Lists.OK, Lists.All, Bytes, MasksMatch, AreaRing,
      AllocPool.Valid, BinIndex;
    pool := OneChunk(3_072_000_000, 32, 64);
    ghost var size := pool.RequestToSize(n);
    assert size <= 924_000_064;
    assert !Passes(3_072_000_000, size);
    assert NoneAccepted(pool.L(), pool.mSize, size);
    r := pool.Alloc(n, 0);
    assert 64 in pool.H().FreeChunks() && Bytes(pool.mSize[64]) == 3_072_000_000;
  }

  // A chunk of 262144 bytes passes for a request of 2^31 + 262160: the block is
  // tagged outside its chunk.
  method TooSmallTaken() returns (pool: AllocPool, r: Option<int>)
    ensures fresh(pool) && r == Some(48) && pool.areas == map[32 := 262144] && !pool.Valid()
  {
    hide Heap.Tiled, Heap.Consolidated, Heap.FreeChunks, Heap.Blocks, Lists.OK, Lists.All, Bytes, MasksMatch, AreaRing,
      AllocPool.Valid;
    pool := OneChunk(262144, 16, 32);
    assert pool.RequestToSize(0x8000_0000 + 262144) == 0x8000_0000 + 262160;
    assert Passes(262144, 0x8000_0000 + 262160);
    assert Accepted(pool.L(), pool.mSize, 32, 0x8000_0000 + 262160);
    r := pool.Alloc(0x8000_0000 + 262144, 0);
  }

  // For 2^32 + 262144 bytes the same chunk is handed out whole: a sound pool, and a
  // block of 262144 bytes.
  method ShortBlock() returns (pool: AllocPool, r: Option<int>)
    ensures fresh(pool) && pool.Valid() && r == Some(48)
    ensures 32 in pool.Blocks() && pool.Blocks()[32] == 262144 < pool.RequestToSize(0x1_0000_0000 + 262128)
  {
    hide Heap.Tiled, Heap.Consolidated, Heap.FreeChunks, Heap.Blocks, Lists.OK, Lists.All, Bytes, MasksMatch, AreaRing,
      AllocPool.Valid;
    pool := OneChunk(262144, 16, 32);
    assert pool.RequestToSize(0x1_0000_0000 + 262128) == 0x1_0000_0000 + 262144;
    assert Passes(262144, 0x1_0000_0000 + 262144);
    assert Accepted(pool.L(), pool.mSize, 32, 0x1_0000_0000 + 262144);
    r := pool.Alloc(0x1_0000_0000 + 262128, 0);
  }

  // --- a pool of one area of 192 bytes ---

  ghost predicate Small(pool: AllocPool)
    reads pool
  {
    pool.Valid() && pool.header == 16 && pool.mAreaMoreSize == 0 && pool.areas == map[32 := 192]
  }

  // Its heap.
  ghost predicate OneArea(h: Heap) {
    h.Tiled() && h.Consolidated() && h.areas == map[32 := 192]
  }

  // Blocks of 64 bytes from the beginning of the area on.
  function FirstBlocks(k: nat): map<int, int> {
    if k == 0 then map[] else if k == 1 then map[32 := 64] else if k == 2 then map[32 := 64, 96 := 64]
    else map[32 := 64, 96 := 64, 160 := 64]
  }

  lemma ChunkHere(h: Heap, c: int)
    requires OneArea(h) && c in h.chunks
    ensures h.ChunkOK(c) && h.Merged(c) && 32 <= c && c + MIN_ALLOC <= h.Next(c) <= 224
    ensures h.Next(c) != 224 ==> h.Next(c) in h.chunks
    ensures c in h.Blocks() <==> !h.Free(c)
    ensures c in h.Blocks() ==> h.Next(c) == c + h.Blocks()[c]
    ensures c in h.FreeChunks() <==> h.Free(c)
  {
    ChunkAt(h, c);
    hide Bytes;
  }

  lemma InOrder(h: Heap, c: int, d: int)
    requires OneArea(h) && c in h.chunks && d in h.chunks && c < d
    ensures c in h.size && h.Next(c) <= d
  {
    Order(h, c, d);
  }

  lemma FirstChunk(h: Heap)
    requires OneArea(h)
    ensures 32 in h.chunks
  {
    AreaAt(h, 32);
  }

  // Behind the last block everything is one free chunk.
  lemma Behind(h: Heap, m: int)
    requires OneArea(h) && m in h.chunks && forall b :: b in h.Blocks() ==> b < m
    ensures m in h.FreeChunks() && m in h.size && h.Next(m) == 224
    ensures forall c :: c in h.FreeChunks() ==> c <= m
  {
    hide OneArea, Bytes, Heap.Blocks, Heap.FreeChunks, Heap.ChunkOK, Heap.Next;
    ChunkHere(h, m);
    if h.Next(m) != 224 {
      ChunkHere(h, h.Next(m));
    }
    forall c | c in h.FreeChunks()
      ensures c <= m
    {
      Listed(h, c);
      ChunkHere(h, c);
      if c > m {
        InOrder(h, m, c);
      }
    }
  }

  lemma Listed(h: Heap, c: int)
    ensures c in h.FreeChunks() ==> c in h.chunks
    ensures c in h.Blocks() ==> c in h.chunks
  {
  }

  // Behind a block that does not end the area there is a chunk, and none inside it.
  lemma BehindBlock(h: Heap, b: int)
    requires OneArea(h) && b in h.Blocks()
    ensures b + h.Blocks()[b] < 224 ==> b + h.Blocks()[b] in h.chunks
    ensures forall c :: c in h.chunks ==> c <= b || b + h.Blocks()[b] <= c
  {
    hide OneArea, Bytes, Heap.Blocks, Heap.FreeChunks, Heap.ChunkOK, Heap.Next;
    Listed(h, b);
    ChunkHere(h, b);
    forall c | c in h.chunks
      ensures c <= b || b + h.Blocks()[b] <= c
    {
      if c > b {
        InOrder(h, b, c);
      }
    }
  }

  // The rest of the area is free.
  lemma FreeAfter(h: Heap, k: nat)
    requires OneArea(h) && k <= 2 && h.Blocks() == FirstBlocks(k)
    ensures var m := 32 + 64 * k; h.FreeChunks() == {m} && m in h.size && h.Next(m) == 224
  {
    hide OneArea, Bytes, Heap.Blocks, Heap.FreeChunks, Heap.Next;
    var m := 32 + 64 * k;
    FirstChunk(h);
    if k >= 1 {
      BehindBlock(h, 32);
    }
    if k == 2 {
      BehindBlock(h, 96);
    }
    Behind(h, m);
    forall c | c in h.FreeChunks()
      ensures c == m
    {
      NotBlock(h, c);
      ChunkHere(h, c);
    }
  }

  lemma NotBlock(h: Heap, c: int)
    requires c in h.FreeChunks()
    ensures c in h.chunks && c !in h.Blocks()
  {
  }

  lemma NothingFree(h: Heap)
    requires OneArea(h) && h.Blocks() == FirstBlocks(3)
    ensures h.FreeChunks() == {}
  {
    hide OneArea, Bytes, Heap.Blocks, Heap.FreeChunks, Heap.Next;
    BehindBlock(h, 32);
    BehindBlock(h, 96);
    BehindBlock(h, 160);
    forall c | c in h.FreeChunks()
      ensures false
    {
      NotBlock(h, c);
      ChunkHere(h, c);
    }
  }

  lemma SmallHeap(pool: AllocPool)
    requires Small(pool)
    ensures OneArea(pool.H()) && pool.L().All() == pool.H().FreeChunks()
  {
  }

  lemma FreeFrom(pool: AllocPool, k: nat)
    requires Small(pool) && k <= 2 && pool.Blocks() == FirstBlocks(k)
    ensures var m := 32 + 64 * k;
            pool.H().FreeChunks() == {m} && m in pool.mSize && pool.H().Size(m) == 192 - 64 * k
  {
    hide OneArea, Heap.FreeChunks, Heap.Blocks, Bytes, AllocPool.Valid;
    SmallHeap(pool);
    FreeAfter(pool.H(), k);
  }

  lemma SmallSizes(pool: AllocPool)
    requires Small(pool)
    ensures forall d :: d in pool.L().All() && d in pool.mSize ==> 0 <= Bytes(pool.mSize[d]) < 0x8000_0000
  {
    hide OneArea, Heap.FreeChunks, Heap.Blocks, Bytes, AllocPool.Valid, Lists.All;
    SmallHeap(pool);
    forall d | d in pool.L().All()
      ensures d in pool.mSize && 0 <= Bytes(pool.mSize[d]) < 0x8000_0000
    {
      Listed(pool.H(), d);
      ChunkHere(pool.H(), d);
    }
  }

  // A block of 64 bytes from the one free chunk.
  method AllocNext(pool: AllocPool, ghost c: int)
    requires Small(pool) && pool.H().FreeChunks() == {c} && c in pool.mSize
    requires pool.H().Size(c) == 64 || pool.H().Size(c) >= 96
    modifies pool
    ensures Small(pool) && pool.Blocks() == old(pool.Blocks())[c := 64]
  {
    hide Heap.Tiled, Heap.Consolidated, Heap.FreeChunks, Heap.Blocks, Lists.OK, Lists.All, Bytes, MasksMatch, AreaRing, OnlyArea;
    NoRingNoAreas(pool.mAreas, pool.mAreaNext, pool.mAreaPrev, pool.mAreaSize, pool.ring, pool.areas);
    assert pool.RequestToSize(48) == 64;
    assert c in pool.L().All();
    SmallHeap(pool);
    SmallSizes(pool);
    SmallClear(pool.L(), pool.mSize, 64);
    var r := pool.Alloc(48, 0);
    assert r.value - 16 == c;
  }

  // Three blocks of 64 bytes fill the pool.
  method FullPool() returns (pool: AllocPool)
    ensures fresh(pool) && Small(pool) && pool.Blocks() == FirstBlocks(3) && pool.H().FreeChunks() == {}
  {
    hide Heap.Tiled, Heap.Consolidated, Heap.FreeChunks, Heap.Blocks, Lists.OK, Lists.All, Bytes, MasksMatch, AreaRing, OnlyArea,
      AllocPool.Valid;
    pool := new AllocPool(192, 0, 16, 32);
    FreeFrom(pool, 0);
    AllocNext(pool, 32);
    FreeFrom(pool, 1);
    AllocNext(pool, 96);
    FreeFrom(pool, 2);
    AllocNext(pool, 160);
    SmallHeap(pool);
    NothingFree(pool.H());
  }

  // A sound pool in which no chunk is free: there is no largest one, and the code
  // looks for it in bin -1.
  method LargestExample() returns (pool: AllocPool, r: Option<int>)
    ensures fresh(pool) && pool.Valid() && pool.Blocks() == FirstBlocks(3) && r.None?
  {
    hide Heap.Tiled, Heap.Consolidated, Heap.FreeChunks, Heap.Blocks, Lists.OK, Lists.All, Bytes, MasksMatch, AreaRing, OnlyArea;
    pool := FullPool();
    r := pool.LargestFreeChunk();
  }

  // The first of the three blocks freed, and the 48 bytes of the second one written.
  method MiddleBlock() returns (pool: AllocPool)
    ensures fresh(pool) && Small(pool) && pool.Blocks() == map[96 := 64, 160 := 64]
    ensures forall a :: 112 <= a < 160 ==> a in pool.mData
  {
    hide Heap.Tiled, Heap.Consolidated, Heap.FreeChunks, Heap.Blocks, Lists.OK, Lists.All, Bytes, MasksMatch, AreaRing, OnlyArea,
      LastBlock, Kept;
    pool := FullPool();
    pool.Free(48);
    assert pool.Blocks() == map[96 := 64, 160 := 64];
    for a := 112 to 160
      invariant fresh(pool) && Small(pool) && pool.Blocks() == map[96 := 64, 160 := 64]
      invariant forall i :: 112 <= i < a ==> i in pool.mData
    {
      pool.Store(a, a, 96);
    }
  }

  // The free chunk before the middle block, and the block behind it.
  lemma MiddleHeap(h: Heap)
    requires OneArea(h) && h.Blocks() == map[96 := 64, 160 := 64]
    ensures InPlace(h, 96, 80) && NewLo(h, 96, 80) == 32 && NewSpan(h, 96, 80) == 128
    ensures Clobbers(96, 64, 32, 80, 160, 16)
  {
    hide OneArea, Bytes, Heap.Blocks, Heap.FreeChunks;
    FrontChunk(h);
    Listed(h, 96);
    Listed(h, 160);
    ChunkHere(h, 96);
    ChunkHere(h, 160);
    ChunkHere(h, 32);
  }

  lemma FrontChunk(h: Heap)
    requires OneArea(h) && h.Blocks() == map[96 := 64, 160 := 64]
    ensures 32 in h.chunks && 32 in h.size && h.Free(32) && h.Next(32) == 96
  {
    hide OneArea, Bytes, Heap.Blocks, Heap.FreeChunks, Heap.ChunkOK, Heap.Next;
    FirstChunk(h);
    ChunkHere(h, 32);
    Listed(h, 96);
    InOrder(h, 32, 96);
    if h.Next(32) < 96 {
      ChunkHere(h, h.Next(32));
    }
  }

  // Growing the middle block to 64 bytes takes the free chunk before it and cuts
  // at address 112, inside its bytes, before they are moved from 112 on to 48 on:
  // one of the bytes it held is lost.
  method OverwriteExample(pool: AllocPool) returns (r: Option<int>)
    requires Small(pool) && pool.Blocks() == map[96 := 64, 160 := 64]
    requires forall a :: 112 <= a < 160 ==> a in pool.mData
    modifies pool
    ensures pool.Valid() && r == Some(48)
    ensures exists a :: 112 <= a < 160 && a in old(pool.mData) && a - 64 !in pool.mData
  {
    hide Heap.Tiled, Heap.Consolidated, Heap.FreeChunks, Heap.Blocks, Lists.OK, Lists.All, Bytes, MasksMatch, AreaRing, OnlyArea,
      InPlace, NewLo, NewSpan, Kept, Copied, Clobbers, NoFit;
    SmallHeap(pool);
    MiddleHeap(pool.H());
    assert pool.RequestToSize(64) == 80;
    r := pool.Realloc(112, 64, 0);
    var a :| 48 <= a < 96 && a !in pool.mData;
    assert a + 64 in old(pool.mData) && a + 64 - 64 == a;
  }

  // Such a pool, from its making to the lost byte.
  method OverwriteRun() returns (pool: AllocPool, r: Option<int>)
    ensures fresh(pool) && pool.Valid() && r == Some(48)
    ensures exists a :: 48 <= a < 96 && a !in pool.mData
  {
    pool := MiddleBlock();
    r := OverwriteExample(pool);
    var a :| 112 <= a < 160 && a - 64 !in pool.mData;
    assert 48 <= a - 64 < 96;
  }
}
