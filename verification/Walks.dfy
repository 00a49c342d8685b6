// Adding up chunk sizes: by list, by walking an area, and by sets of chunks.
module Walks {
  import opened Chunks
  import opened BinMask
  import opened Rings
  import opened FreeLists
  import opened PoolFacts

  lemma EmptyOrNot(s: set<int>)
    ensures s == {} || exists c :: c in s
  {
    if forall c :: c !in s {
      assert s == {};
    }
  }

  // The sizes of a set of chunks.
  ghost function Sum(s: set<int>, size: map<int, int>): int {
    if s == {} then 0 else
      EmptyOrNot(s);
      var c :| c in s;
      (if c in size then Bytes(size[c]) else 0) + Sum(s - {c}, size)
  }

  lemma {:induction false} SumWithout(s: set<int>, size: map<int, int>, x: int)
    requires x in s
    ensures Sum(s, size) == (if x in size then Bytes(size[x]) else 0) + Sum(s - {x}, size)
    decreases |s|
  {
    hide Bytes;
    var c :| c in s && Sum(s, size) == (if c in size then Bytes(size[c]) else 0) + Sum(s - {c}, size);
    if c != x {
      SumWithout(s - {c}, size, x);
      SumWithout(s - {x}, size, c);
      assert s - {c} - {x} == s - {x} - {c};
    }
  }

  lemma SumPlus(s: set<int>, size: map<int, int>, x: int)
    requires x !in s
    ensures Sum(s + {x}, size) == (if x in size then Bytes(size[x]) else 0) + Sum(s, size)
  {
    hide Bytes;
    SumWithout(s + {x}, size, x);
    assert s + {x} - {x} == s;
  }

  lemma {:induction false} SumUnion(s: set<int>, t: set<int>, size: map<int, int>)
    requires s !! t
    ensures Sum(s + t, size) == Sum(s, size) + Sum(t, size)
    decreases |t|
  {
    if t == {} {
      assert s + t == s;
    } else {
      EmptyOrNot(t);
      var x :| x in t;
      SumUnion(s, t - {x}, size);
      SumWithout(t, size, x);
      SumWithout(s + t, size, x);
      assert s + t - {x} == s + (t - {x});
    }
  }

  // --- walking an area along the tags, as DoCheckArea does ---

  // The bytes from chunk c to the end of its area that are free, or in use.
  ghost function WalkBytes(h: Heap, c: int, end: int, inUse: bool): int
    decreases end - c
  {
    if c >= end || c !in h.size || h.Size(c) <= 0 then 0
    else (if h.Free(c) == !inUse then h.Size(c) else 0) + WalkBytes(h, h.Next(c), end, inUse)
  }

  ghost predicate Within(h: Heap, c: int, b: int) {
    b in h.areas && ((c in h.chunks && c in h.home && h.home[c] == b) || c == h.End(b))
  }

  lemma WalkStep(h: Heap, c: int, b: int)
    requires Within(h, c, b) && c != h.End(b) && h.Tiled()
    ensures c in h.size && h.Size(c) >= MIN_ALLOC && c < h.Next(c) <= h.End(b) && Within(h, h.Next(c), b)
    ensures h.Next(c) == c + h.Size(c)
  {
    hide Bytes, Heap.Tiled;
    ChunkAt(h, c);
  }

  // Free and used bytes add up to all there is.
  lemma {:induction false} WalkConserves(h: Heap, c: int, b: int)
    requires Within(h, c, b) && h.Tiled()
    ensures WalkBytes(h, c, h.End(b), false) + WalkBytes(h, c, h.End(b), true) == h.End(b) - c
    decreases h.End(b) - c
  {
    hide Bytes, Heap.Tiled;
    if c != h.End(b) {
      WalkStep(h, c, b);
      WalkConserves(h, h.Next(c), b);
    }
  }

  // Free plus in-use chunk sizes equal the area's size.
  lemma AreaConserved(h: Heap, b: int)
    requires b in h.areas && h.Tiled()
    ensures WalkBytes(h, b, h.End(b), false) + WalkBytes(h, b, h.End(b), true) == h.areas[b]
  {
    hide Bytes, Heap.Tiled, WalkBytes;
    AreaAt(h, b);
    WalkConserves(h, b, b);
  }

  // The free chunks, or the blocks, of area b from c on.
  ghost function From(h: Heap, c: int, b: int, inUse: bool): set<int> {
    set d | d in h.chunks && d in h.size && d in h.home && h.home[d] == b && c <= d && h.Free(d) == !inUse
  }

  lemma FromStep(h: Heap, c: int, b: int, inUse: bool)
    requires Within(h, c, b) && h.Tiled()
    ensures c == h.End(b) ==> From(h, c, b, inUse) == {}
    ensures c != h.End(b) ==>
              && c in h.size && c !in From(h, h.Next(c), b, inUse)
              && From(h, c, b, inUse)
                 == (if h.Free(c) == !inUse then From(h, h.Next(c), b, inUse) + {c} else From(h, h.Next(c), b, inUse))
  {
    hide Bytes, Heap.Tiled;
    if c == h.End(b) {
      forall d | d in From(h, c, b, inUse)
        ensures false
      {
        ChunkInside(h, d, b);
      }
    } else {
      WalkStep(h, c, b);
      forall d | d in From(h, c, b, inUse) && d != c
        ensures h.Next(c) <= d
      {
        Order(h, c, d);
      }
    }
  }

  lemma {:induction false} WalkIsSum(h: Heap, c: int, b: int, inUse: bool)
    requires Within(h, c, b) && h.Tiled()
    ensures WalkBytes(h, c, h.End(b), inUse) == Sum(From(h, c, b, inUse), h.size)
    decreases h.End(b) - c
  {
    hide Bytes, Heap.Tiled, From;
    FromStep(h, c, b, inUse);
    if c != h.End(b) {
      WalkStep(h, c, b);
      WalkIsSum(h, h.Next(c), b, inUse);
      SumPlus(From(h, h.Next(c), b, inUse), h.size, c);
    } else {
      NoWalk(h, inUse);
    }
  }

  // All areas of s walked.
  ghost function WalkAreas(h: Heap, s: set<int>, inUse: bool): int {
    if s == {} then 0 else
      EmptyOrNot(s);
      var b :| b in s;
      (if b in h.areas then WalkBytes(h, b, h.End(b), inUse) else 0) + WalkAreas(h, s - {b}, inUse)
  }

  ghost function InAreas(h: Heap, s: set<int>, inUse: bool): set<int> {
    set d | d in h.chunks && d in h.size && d in h.home && h.home[d] in s && h.Free(d) == !inUse
  }

  lemma {:induction false} WalkAreasIsSum(h: Heap, s: set<int>, inUse: bool)
    requires s <= h.areas.Keys && h.Tiled()
    ensures WalkAreas(h, s, inUse) == Sum(InAreas(h, s, inUse), h.size)
    decreases |s|
  {
    hide Bytes, Heap.Tiled, WalkBytes, InAreas, WalkAreas, From;
    if s == {} {
      NoAreas(h, inUse);
      NoWalk(h, inUse);
    } else {
      var b := FirstArea(h, s, inUse);
      WalkAreasIsSum(h, s - {b}, inUse);
      AreaAt(h, b);
      WalkIsSum(h, b, b, inUse);
      SplitAreas(h, s, b, inUse);
      SumUnion(InAreas(h, s - {b}, inUse), From(h, b, b, inUse), h.size);
    }
  }

  lemma FirstArea(h: Heap, s: set<int>, inUse: bool) returns (b: int)
    requires s != {} && s <= h.areas.Keys
    ensures b in s && b in h.areas
    ensures WalkAreas(h, s, inUse) == WalkBytes(h, b, h.End(b), inUse) + WalkAreas(h, s - {b}, inUse)
  {
    hide WalkBytes;
    EmptyOrNot(s);
    b :| b in s && WalkAreas(h, s, inUse)
                   == (if b in h.areas then WalkBytes(h, b, h.End(b), inUse) else 0) + WalkAreas(h, s - {b}, inUse);
    assert b in h.areas.Keys;
  }

  lemma NoWalk(h: Heap, inUse: bool)
    ensures WalkAreas(h, {}, inUse) == 0 && Sum({}, h.size) == 0
  {
  }

  lemma NoAreas(h: Heap, inUse: bool)
    ensures InAreas(h, {}, inUse) == {}
  {
    hide Bytes;
  }

  lemma SplitAreas(h: Heap, s: set<int>, b: int, inUse: bool)
    requires b in s && b in h.areas && h.Tiled()
    ensures InAreas(h, s, inUse) == InAreas(h, s - {b}, inUse) + From(h, b, b, inUse)
    ensures InAreas(h, s - {b}, inUse) !! From(h, b, b, inUse)
  {
    hide Bytes, Heap.Tiled;
    forall d | d in h.chunks && d in h.home && h.home[d] == b
      ensures b <= d
    {
      ChunkInside(h, d, b);
    }
  }

  // The free chunks add up to the free bytes found by walking every area.
  lemma FreeByWalking(h: Heap)
    requires h.Tiled()
    ensures Sum(h.FreeChunks(), h.size) == WalkAreas(h, h.areas.Keys, false)
  {
    hide Bytes, Heap.Tiled;
    WalkAreasIsSum(h, h.areas.Keys, false);
    forall d | d in h.chunks
      ensures d in h.home && h.home[d] in h.areas.Keys
    {
      ChunkAt(h, d);
    }
    assert InAreas(h, h.areas.Keys, false) == h.FreeChunks();
  }
}
