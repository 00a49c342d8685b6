// The segregated free lists: 128 bins, each a ring of free chunks.
module FreeLists {
  import opened Rings
  import opened Chunks
  import opened BinMask

  const SMALL_BINS := 64

  // mBins[i], an address of its own.
  function Head(i: int): int {
    -1 - i
  }

  datatype Lists = Lists(next: map<int, int>, prev: map<int, int>, bins: seq<seq<int>>) {

    static ghost predicate Holds(size: map<int, int>, i: nat, c: int) {
      c >= 0 && c in size && Bytes(size[c]) >= 0 && BinIndex(Bytes(size[c])) == i
    }

    static ghost predicate Sorted(size: map<int, int>, list: seq<int>) {
      forall j, k :: 0 <= j < k < |list| && list[j] in size && list[k] in size ==>
        Bytes(size[list[j]]) >= Bytes(size[list[k]])
    }

    // DoCheckBin: a well-formed ring of chunks of this bin; large bins are sorted.
    ghost predicate BinOK(size: map<int, int>, i: nat)
      requires i < |bins|
    {
      && RingOK(next, prev, Head(i), bins[i]) && Distinct(Head(i), bins[i])
      && (forall c :: c in bins[i] ==> Holds(size, i, c))
      && (i >= SMALL_BINS ==> Sorted(size, bins[i]))
    }

    ghost predicate OK(size: map<int, int>) {
      |bins| == NUM_BINS && forall i :: 0 <= i < NUM_BINS ==> BinOK(size, i)
    }

    ghost function All(): set<int> {
      set i, k | 0 <= i < |bins| && 0 <= k < |bins[i]| :: bins[i][k]
    }

    ghost function Insert(i: nat, k: nat, c: int): Lists
      requires i < |bins| && k <= |bins[i]|
    {
      Lists(next[c := At(Head(i), bins[i], k)][At(Head(i), bins[i], k - 1) := c],
            prev[c := At(Head(i), bins[i], k - 1)][At(Head(i), bins[i], k) := c],
            bins[i := Inserted(bins[i], k, c)])
    }

    ghost function Remove(i: nat, k: nat): Lists
      requires i < |bins| && k < |bins[i]|
    {
      Lists(next[At(Head(i), bins[i], k - 1) := At(Head(i), bins[i], k + 1)],
            prev[At(Head(i), bins[i], k + 1) := At(Head(i), bins[i], k - 1)],
            bins[i := Removed(bins[i], k)])
    }
  }

  // A bin's bit says whether the bin has chunks.
  ghost predicate MasksMatch(words: seq<nat>, bins: seq<seq<int>>) {
    && Words(words) && |bins| == NUM_BINS
    && forall i :: 0 <= i < NUM_BINS ==> (Marked(words, i) <==> bins[i] != [])
  }

  lemma InAll(l: Lists, i: nat, c: int)
    requires i < |l.bins| && c in l.bins[i]
    ensures c in l.All()
  {
    var k :| 0 <= k < |l.bins[i]| && l.bins[i][k] == c;
  }

  // A listed chunk is on the list of its own size, and on no other.
  lemma WhereListed(l: Lists, size: map<int, int>, c: int) returns (i: nat, k: nat)
    requires l.OK(size) && c in l.All()
    ensures i < NUM_BINS && l.BinOK(size, i) && k < |l.bins[i]| && l.bins[i][k] == c && Lists.Holds(size, i, c)
  {
    i, k :| 0 <= i < |l.bins| && 0 <= k < |l.bins[i]| && l.bins[i][k] == c;
  }

  // Rings do not share nodes.
  lemma RingsApart(l: Lists, size: map<int, int>, i: nat, j: nat, x: int)
    requires l.OK(size) && i < NUM_BINS && j < NUM_BINS && i != j
    requires x == Head(i) || x in l.bins[i]
    ensures x != Head(j) && x !in l.bins[j]
  {
    assert l.BinOK(size, i) && l.BinOK(size, j);
    hide BinIndex;
  }

  // Writing links of nodes on ring i (or of a chunk on no ring) leaves ring j alone.
  lemma OtherBin(l: Lists, l': Lists, size: map<int, int>, i: nat, j: nat, c: int)
    requires l.OK(size) && i < NUM_BINS && j < NUM_BINS && i != j && |l'.bins| == |l.bins|
    requires c !in l.All() && c >= 0 && l'.bins[j] == l.bins[j]
    requires forall x :: x in l.next && x != c && x != Head(i) && x !in l.bins[i] ==>
               x in l'.next && l'.next[x] == l.next[x]
    requires forall x :: x in l.prev && x != c && x != Head(i) && x !in l.bins[i] ==>
               x in l'.prev && l'.prev[x] == l.prev[x]
    ensures l'.BinOK(size, j)
  {
    hide BinIndex, Lists.Holds, Lists.Sorted;
    assert l.BinOK(size, j);
    forall x | x == Head(j) || x in l.bins[j]
      ensures x != c && x != Head(i) && x !in l.bins[i]
    {
      RingsApart(l, size, j, i, x);
      if x in l.bins[j] {
        InAll(l, j, x);
      }
    }
    OtherRing(l.next, l.prev, Head(j), l.bins[j], l'.next, l'.prev);
  }

  lemma InsertBin(l: Lists, size: map<int, int>, i: nat, k: nat, c: int)
    requires l.OK(size) && i < NUM_BINS && k <= |l.bins[i]| && c !in l.All() && Lists.Holds(size, i, c)
    requires i >= SMALL_BINS ==>
      forall j :: 0 <= j < |l.bins[i]| && l.bins[i][j] in size ==>
        if j < k then Bytes(size[l.bins[i][j]]) >= Bytes(size[c]) else Bytes(size[l.bins[i][j]]) <= Bytes(size[c])
    ensures l.Insert(i, k, c).OK(size)
  {
    hide BinIndex, Bytes;
    var l' := l.Insert(i, k, c);
    assert l.BinOK(size, i);
    if c in l.bins[i] {
      InAll(l, i, c);
    }
    InsertRing(l.next, l.prev, Head(i), l.bins[i], k, c);
    AtMember(Head(i), l.bins[i], k);
    AtMember(Head(i), l.bins[i], k - 1);
    forall j | 0 <= j < NUM_BINS
      ensures l'.BinOK(size, j)
    {
      if j != i {
        OtherBin(l, l', size, i, j, c);
      }
    }
  }

  lemma InsertAll(l: Lists, i: nat, k: nat, c: int)
    requires i < |l.bins| && k <= |l.bins[i]|
    ensures l.Insert(i, k, c).All() == l.All() + {c}
  {
    var l' := l.Insert(i, k, c);
    forall x | x in l.All() + {c}
      ensures x in l'.All()
    {
      if x == c {
        assert l'.bins[i][k] == c;
      } else {
        var a, b :| 0 <= a < |l.bins| && 0 <= b < |l.bins[a]| && l.bins[a][b] == x;
        assert l'.bins[a][if a == i && b >= k then b + 1 else b] == x;
      }
    }
    forall x | x in l'.All()
      ensures x in l.All() + {c}
    {
      var a, b :| 0 <= a < |l'.bins| && 0 <= b < |l'.bins[a]| && l'.bins[a][b] == x;
      if a != i {
        assert l.bins[a][b] == x;
      } else if b != k {
        assert l.bins[a][if b < k then b else b - 1] == x;
      }
    }
  }

  lemma RemoveBin(l: Lists, size: map<int, int>, i: nat, k: nat)
    requires l.OK(size) && i < NUM_BINS && k < |l.bins[i]|
    ensures l.Remove(i, k).OK(size)
  {
    hide BinIndex, Bytes, Lists.Holds, Lists.Sorted;
    var l' := l.Remove(i, k);
    AtMember(Head(i), l.bins[i], k + 1);
    AtMember(Head(i), l.bins[i], k - 1);
    forall j | 0 <= j < NUM_BINS
      ensures l'.BinOK(size, j)
    {
      if j != i {
        RemoveOther(l, l', size, i, j);
      } else {
        RemoveOwn(l, size, i, k);
      }
    }
  }

  lemma RemoveOwn(l: Lists, size: map<int, int>, i: nat, k: nat)
    requires l.OK(size) && i < NUM_BINS && k < |l.bins[i]|
    ensures l.Remove(i, k).BinOK(size, i)
  {
    hide BinIndex, Bytes;
    assert l.BinOK(size, i);
    RemoveRing(l.next, l.prev, Head(i), l.bins[i], k);
  }

  lemma RemoveOther(l: Lists, l': Lists, size: map<int, int>, i: nat, j: nat)
    requires l.OK(size) && i < NUM_BINS && j < NUM_BINS && i != j && |l'.bins| == |l.bins| && l'.bins[j] == l.bins[j]
    requires forall x :: x in l.next && x != Head(i) && x !in l.bins[i] ==> x in l'.next && l'.next[x] == l.next[x]
    requires forall x :: x in l.prev && x != Head(i) && x !in l.bins[i] ==> x in l'.prev && l'.prev[x] == l.prev[x]
    ensures l'.BinOK(size, j)
  {
    hide BinIndex, Lists.Holds, Lists.Sorted;
    assert l.BinOK(size, j);
    forall x | x == Head(j) || x in l.bins[j]
      ensures x != Head(i) && x !in l.bins[i]
    {
      RingsApart(l, size, j, i, x);
    }
    OtherRing(l.next, l.prev, Head(j), l.bins[j], l'.next, l'.prev);
  }

  lemma RemoveAll(l: Lists, size: map<int, int>, i: nat, k: nat)
    requires l.OK(size) && i < NUM_BINS && k < |l.bins[i]|
    ensures l.Remove(i, k).All() == l.All() - {l.bins[i][k]}
  {
    hide BinIndex, Bytes;
    var l', c := l.Remove(i, k), l.bins[i][k];
    assert l.BinOK(size, i);
    forall x | x in l.All() - {c}
      ensures x in l'.All()
    {
      var a, b :| 0 <= a < |l.bins| && 0 <= b < |l.bins[a]| && l.bins[a][b] == x;
      assert l'.bins[a][if a == i && b >= k then b - 1 else b] == x;
    }
    forall x | x in l'.All()
      ensures x in l.All() - {c}
    {
      var a, b :| 0 <= a < |l'.bins| && 0 <= b < |l'.bins[a]| && l'.bins[a][b] == x;
      if a != i {
        assert l.bins[a][b] == x;
        RingsApart(l, size, a, i, x);
      } else {
        assert l.bins[a][if b < k then b else b + 1] == x;
      }
    }
  }

  // The lists depend on the tags of their members only.
  lemma Retagged(l: Lists, size: map<int, int>, size': map<int, int>)
    requires l.OK(size)
    requires forall c :: c in l.All() && c in size ==> c in size' && size'[c] == size[c]
    ensures l.OK(size')
  {
    hide BinIndex, Bytes, RingOK, Distinct;
    forall i | 0 <= i < NUM_BINS
      ensures l.BinOK(size', i)
    {
      assert l.BinOK(size, i);
      forall c | c in l.bins[i]
        ensures c in size && c in size' && size'[c] == size[c]
      {
        assert Lists.Holds(size, i, c);
        InAll(l, i, c);
      }
    }
  }

  // --- walking a bin ---

  lemma NodesListed(l: Lists, i: nat, k: int)
    requires i < |l.bins|
    ensures At(Head(i), l.bins[i], k) >= 0 ==> At(Head(i), l.bins[i], k) in l.All()
  {
    AtMember(Head(i), l.bins[i], k);
    if At(Head(i), l.bins[i], k) in l.bins[i] {
      InAll(l, i, At(Head(i), l.bins[i], k));
    }
  }

  // From position k of a large bin on, no chunk is larger than the one at k.
  lemma SortedFrom(l: Lists, size: map<int, int>, i: nat, k: nat)
    requires l.OK(size) && SMALL_BINS <= i < NUM_BINS && k <= |l.bins[i]|
    ensures forall j :: k <= j < |l.bins[i]| ==>
              l.bins[i][k] in size && l.bins[i][j] in size && Bytes(size[l.bins[i][j]]) <= Bytes(size[l.bins[i][k]])
    ensures k < |l.bins[i]| ==> At(Head(i), l.bins[i], k) != Head(i)
  {
    hide BinIndex, Bytes;
    assert l.BinOK(size, i);
    forall j | k <= j < |l.bins[i]|
      ensures l.bins[i][k] in size && l.bins[i][j] in size
    {
      assert Lists.Holds(size, i, l.bins[i][k]) && Lists.Holds(size, i, l.bins[i][j]);
    }
  }

  lemma PrevLink(l: Lists, size: map<int, int>, i: nat, k: nat)
    requires l.OK(size) && i < NUM_BINS && k <= |l.bins[i]|
    ensures At(Head(i), l.bins[i], k) in l.prev && l.prev[At(Head(i), l.bins[i], k)] == At(Head(i), l.bins[i], k - 1)
  {
    hide BinIndex, Bytes;
    assert l.BinOK(size, i);
    assert Linked(l.next, l.prev, At(Head(i), l.bins[i], k - 1), At(Head(i), l.bins[i], k));
  }

  // Following mNext from position k of a bin.
  lemma StepLink(l: Lists, size: map<int, int>, i: nat, k: nat)
    requires l.OK(size) && i < NUM_BINS && k <= |l.bins[i]| && At(Head(i), l.bins[i], k) != Head(i)
    ensures k < |l.bins[i]|
    ensures var c := At(Head(i), l.bins[i], k);
            c in l.next && l.next[c] == At(Head(i), l.bins[i], k + 1) && c in size
    ensures At(Head(i), l.bins[i], k + 1) != Head(i) ==> At(Head(i), l.bins[i], k + 1) in size
  {
    hide BinIndex, Bytes;
    assert l.BinOK(size, i);
    Rings.Neighbours(l.next, l.prev, Head(i), l.bins[i], k);
    assert Lists.Holds(size, i, l.bins[i][k]);
    if k + 1 < |l.bins[i]| {
      assert Lists.Holds(size, i, l.bins[i][k + 1]);
    }
  }

  // A bin is empty when its head points to itself.
  lemma EmptyTest(l: Lists, size: map<int, int>, i: nat)
    requires l.OK(size) && i < NUM_BINS
    ensures |l.bins| == NUM_BINS && Head(i) in l.next && Head(i) in l.prev
    ensures l.next[Head(i)] == Head(i) <==> l.bins[i] == []
    ensures l.prev[Head(i)] == Head(i) <==> l.bins[i] == []
    ensures l.next[Head(i)] == At(Head(i), l.bins[i], 0)
    ensures l.prev[Head(i)] == At(Head(i), l.bins[i], |l.bins[i]| - 1)
  {
    hide BinIndex, Bytes;
    assert l.BinOK(size, i);
    Ends(l.next, l.prev, Head(i), l.bins[i]);
  }

  lemma UnlinkFacts(l: Lists, size: map<int, int>, i: nat, k: nat)
    requires l.OK(size) && i < NUM_BINS && k < |l.bins[i]|
    ensures var c := l.bins[i][k];
            && c in l.prev && c in l.next && c in size && c in l.All()
            && (l.prev[c] >= 0 ==> l.prev[c] in l.All()) && (l.next[c] >= 0 ==> l.next[c] in l.All())
            && Bytes(size[c]) >= 0 && BinIndex(Bytes(size[c])) == i
            && l.prev[c] == At(Head(i), l.bins[i], k - 1) && l.next[c] == At(Head(i), l.bins[i], k + 1)
            && l.Remove(i, k) == Lists(l.next[l.prev[c] := l.next[c]], l.prev[l.next[c] := l.prev[c]],
                                       l.bins[i := Removed(l.bins[i], k)])
            && l.Remove(i, k).OK(size) && l.Remove(i, k).All() == l.All() - {c}
  {
    hide BinIndex, Bytes, Lists.All;
    assert l.BinOK(size, i);
    var c := l.bins[i][k];
    InAll(l, i, c);
    forall j | 0 <= j < |l.bins[i]|
      ensures l.bins[i][j] in l.All()
    {
      InAll(l, i, l.bins[i][j]);
    }
    assert Lists.Holds(size, i, c);
    Rings.Neighbours(l.next, l.prev, Head(i), l.bins[i], k);
    RemoveBin(l, size, i, k);
    RemoveAll(l, size, i, k);
  }

  // --- best fit ---

  // The cast (int32).
  function Int32(x: int): int {
    (x + 0x8000_0000) % 0x1_0000_0000 - 0x8000_0000
  }

  lemma TwiceEven(h: int, x: int)
    requires x == 2 * h
    ensures x % 2 == 0
  {
  }

  lemma Int32Even(x: int)
    ensures x % 2 == 0 ==> Int32(x) % 2 == 0
    ensures -0x8000_0000 <= Int32(x) < 0x8000_0000
  {
    var q := (x + 0x8000_0000) / 0x1_0000_0000;
    if x % 2 == 0 {
      TwiceEven(x / 2 - 0x8000_0000 * q, Int32(x));
    }
  }

  lemma Wrapped(x: int, q: int, r: int)
    requires x == q * 0x1_0000_0000 + r && 0 <= r < 0x1_0000_0000
    ensures x % 0x1_0000_0000 == r
  {
  }

  // The remainder is the difference exactly when that is an int32.
  lemma RemainderTest(c: int, n: int)
    ensures Int32(c - n) == c - n <==> -0x8000_0000 <= c - n < 0x8000_0000
  {
    Int32Even(c - n);
    if -0x8000_0000 <= c - n < 0x8000_0000 {
      Wrapped(c - n + 0x8000_0000, 0, c - n + 0x8000_0000);
    }
  }

  // What is split off an area of a bytes, by the cast.
  lemma SplitRemainder(a: int, n: int)
    requires a % 2 == 0 && n % 2 == 0
    ensures Int32(a - n) % 2 == 0 && Int32(a - n) >= -0x8000_0000
    ensures Int32(a - n) == a - n >= MIN_ALLOC <==> MIN_ALLOC <= a - n < 0x8000_0000
  {
    EvenDifference(a, n);
    Int32Even(a - n);
    RemainderTest(a, n);
    hide Int32;
  }

  lemma EvenDifference(a: int, n: int)
    requires a % 2 == 0 && n % 2 == 0
    ensures (a - n) % 2 == 0
  {
    TwiceEven(a / 2 - n / 2, a - n);
  }

  // The search's test of chunk size c for a request of n bytes: remainder >= 0.
  predicate Passes(c: int, n: int) {
    Int32(c - n) >= 0
  }

  // The test tells whether a chunk is large enough exactly when a chunk that is
  // exceeds the request by less than 2^31, modulo 2^32, and one that is not falls
  // short of it by 2^31 at most.
  lemma FitTest(c: int, n: int)
    ensures (Passes(c, n) <==> c >= n)
            <==> if c >= n then (c - n) % 0x1_0000_0000 < 0x8000_0000 else 0 < (n - c) % 0x1_0000_0000 <= 0x8000_0000
  {
    if c >= n {
      Int32Above(c - n);
    } else {
      Int32Below(n - c);
    }
  }

  lemma Int32Above(d: nat)
    ensures Int32(d) >= 0 <==> d % 0x1_0000_0000 < 0x8000_0000
  {
    var q, r := d / 0x1_0000_0000, d % 0x1_0000_0000;
    if r < 0x8000_0000 {
      Wrapped(d + 0x8000_0000, q, r + 0x8000_0000);
    } else {
      Wrapped(d + 0x8000_0000, q + 1, r - 0x8000_0000);
    }
  }

  lemma Int32Below(d: int)
    requires d > 0
    ensures Int32(-d) >= 0 <==> !(0 < d % 0x1_0000_0000 <= 0x8000_0000)
  {
    var q, r := d / 0x1_0000_0000, d % 0x1_0000_0000;
    if r <= 0x8000_0000 {
      Wrapped(-d + 0x8000_0000, -q, 0x8000_0000 - r);
    } else {
      Wrapped(-d + 0x8000_0000, -q - 1, 0x1_8000_0000 - r);
    }
  }

  // A listed chunk of n bytes or more, and none of those is smaller.
  ghost predicate Best(l: Lists, size: map<int, int>, c: int, n: int) {
    && c in l.All() && c in size && Bytes(size[c]) >= n
    && forall d :: d in l.All() && d in size && Bytes(size[d]) >= n ==> Bytes(size[d]) >= Bytes(size[c])
  }

  ghost predicate NoFit(l: Lists, size: map<int, int>, n: int) {
    forall d :: d in l.All() && d in size ==> Bytes(size[d]) < n
  }

  // A chunk in the bins from that of n on which passes the test.
  ghost predicate Accepted(l: Lists, size: map<int, int>, d: int, n: int) {
    && n >= 0 && d in l.All() && d in size && Bytes(size[d]) >= 0
    && BinIndex(n) <= BinIndex(Bytes(size[d])) && Passes(Bytes(size[d]), n)
  }

  // Such a chunk, and none of them is smaller.
  ghost predicate Chosen(l: Lists, size: map<int, int>, c: int, n: int) {
    && c in size && Accepted(l, size, c, n)
    && forall d :: d in size && Accepted(l, size, d, n) ==> Bytes(size[d]) >= Bytes(size[c])
  }

  ghost predicate NoneAccepted(l: Lists, size: map<int, int>, n: int) {
    forall d :: !Accepted(l, size, d, n)
  }

  // The difference to no listed chunk wraps.
  ghost predicate Clear(l: Lists, size: map<int, int>, n: int) {
    forall d :: d in l.All() && d in size ==> Int32(Bytes(size[d]) - n) == Bytes(size[d]) - n
  }

  // Then the search is a best fit.
  lemma ClearSearch(l: Lists, size: map<int, int>, n: nat)
    requires l.OK(size) && Clear(l, size, n)
    ensures NoneAccepted(l, size, n) <==> NoFit(l, size, n)
    ensures forall c :: Chosen(l, size, c, n) <==> Best(l, size, c, n)
    ensures forall c :: Chosen(l, size, c, n) ==> c in size && n <= Bytes(size[c]) < n + 0x8000_0000
  {
    hide Lists.OK, Lists.All, Bytes, BinIndex, Int32;
    forall d | d in l.All() && d in size
      ensures (Accepted(l, size, d, n) <==> Bytes(size[d]) >= n) && Bytes(size[d]) - n < 0x8000_0000
    {
      Int32Even(Bytes(size[d]) - n);
      var i, k := WhereListed(l, size, d);
      if Bytes(size[d]) >= n {
        BinIndexMonotone(n, Bytes(size[d]));
      }
    }
  }

  // Below 2^31 no difference wraps.
  lemma SmallClear(l: Lists, size: map<int, int>, n: nat)
    requires n < 0x8000_0000
    requires forall d :: d in l.All() && d in size ==> 0 <= Bytes(size[d]) < 0x8000_0000
    ensures Clear(l, size, n)
  {
    hide Lists.All, Bytes;
  }

  // --- going through the bins ---

  // No chunk on list i passes.
  ghost predicate NonePass(l: Lists, size: map<int, int>, i: nat, n: int)
    requires i < |l.bins|
  {
    forall c :: c in l.bins[i] && c in size ==> !Passes(Bytes(size[c]), n)
  }

  // No chunk on the lists lo .. hi - 1 passes.
  ghost predicate NonePassIn(l: Lists, size: map<int, int>, lo: nat, hi: int, n: int)
    requires hi <= |l.bins|
  {
    forall i :: lo <= i < hi ==> NonePass(l, size, i, n)
  }

  // The chunk at position k passes, those after it do not, those before are no smaller.
  ghost predicate FirstPass(l: Lists, size: map<int, int>, i: nat, k: int, n: int)
    requires i < |l.bins|
  {
    && -1 <= k < |l.bins[i]|
    && (forall j :: k < j < |l.bins[i]| && l.bins[i][j] in size ==> !Passes(Bytes(size[l.bins[i][j]]), n))
    && (k >= 0 ==> l.bins[i][k] in size && Passes(Bytes(size[l.bins[i][k]]), n)
                   && forall j :: 0 <= j <= k && l.bins[i][j] in size ==>
                        Bytes(size[l.bins[i][j]]) >= Bytes(size[l.bins[i][k]]))
  }

  lemma NothingAccepted(l: Lists, size: map<int, int>, n: nat)
    requires l.OK(size) && |l.bins| == NUM_BINS && NonePassIn(l, size, BinIndex(n), NUM_BINS, n)
    ensures NoneAccepted(l, size, n)
  {
    hide BinIndex, Bytes, RingOK, Distinct, Passes;
    forall d | d in l.All() && d in size && Bytes(size[d]) >= 0 && BinIndex(n) <= BinIndex(Bytes(size[d]))
      ensures !Passes(Bytes(size[d]), n)
    {
      var i, k := WhereListed(l, size, d);
      assert NonePass(l, size, i, n);
    }
  }

  lemma FirstIsChosen(l: Lists, size: map<int, int>, i: nat, k: nat, n: nat)
    requires l.OK(size) && BinIndex(n) <= i < NUM_BINS == |l.bins|
    requires NonePassIn(l, size, BinIndex(n), i, n) && FirstPass(l, size, i, k, n)
    ensures Chosen(l, size, l.bins[i][k], n)
  {
    hide BinIndex, Bytes, RingOK, Distinct, Passes;
    var c := l.bins[i][k];
    InAll(l, i, c);
    assert l.BinOK(size, i);
    assert Lists.Holds(size, i, c);
    forall d | d in size && Accepted(l, size, d, n)
      ensures Bytes(size[d]) >= Bytes(size[c])
    {
      var j, m := WhereListed(l, size, d);
      assert j < i ==> NonePass(l, size, j, n);
      if Bytes(size[d]) < Bytes(size[c]) {
        BinIndexMonotone(Bytes(size[d]), Bytes(size[c]));
      }
    }
  }

  lemma NoneInBin(l: Lists, size: map<int, int>, i: nat, n: int)
    requires i < |l.bins| && FirstPass(l, size, i, -1, n)
    ensures NonePass(l, size, i, n)
  {
    hide Passes;
    forall c | c in l.bins[i] && c in size
      ensures !Passes(Bytes(size[c]), n)
    {
      var j :| 0 <= j < |l.bins[i]| && l.bins[i][j] == c;
    }
  }

  // Bins without a mark have no chunks.
  lemma SkipEmpty(l: Lists, size: map<int, int>, words: seq<nat>, lo: nat, from: nat, to: nat, n: int)
    requires MasksMatch(words, l.bins) && lo <= from <= to <= NUM_BINS && NonePassIn(l, size, lo, from, n)
    requires forall j :: from <= j < to ==> !Marked(words, j)
    ensures NonePassIn(l, size, lo, to, n)
  {
    hide Marked, Bytes, Passes;
    forall i | lo <= i < to
      ensures NonePass(l, size, i, n)
    {
      if i >= from {
        assert !Marked(words, i);
      }
    }
  }

  lemma OneMore(l: Lists, size: map<int, int>, lo: nat, i: nat, n: int)
    requires lo <= i < |l.bins| && NonePassIn(l, size, lo, i, n) && NonePass(l, size, i, n)
    ensures NonePassIn(l, size, lo, i + 1, n)
  {
    hide NonePass;
  }

  lemma MasksWords(words: seq<nat>, bins: seq<seq<int>>)
    requires MasksMatch(words, bins)
    ensures Words(words) && |bins| == NUM_BINS
  {
    hide Marked;
  }

  lemma ChosenListed(l: Lists, size: map<int, int>, c: int, n: int)
    requires Chosen(l, size, c, n)
    ensures c in l.All() && c in size && Int32(Bytes(size[c]) - n) >= 0 && !NoneAccepted(l, size, n)
  {
    hide Bytes, Int32, BinIndex;
  }

  // --- going through all lists from the back ---

  ghost function ListedBelow(l: Lists, i: nat): set<int> {
    set a, b | 0 <= a < |l.bins| && a < i && 0 <= b < |l.bins[a]| :: l.bins[a][b]
  }

  ghost function ListedAfter(l: Lists, i: nat, k: int): set<int>
    requires i < |l.bins| && k >= -1
  {
    set b | k < b < |l.bins[i]| :: l.bins[i][b]
  }

  lemma ListedNone(l: Lists, i: nat)
    requires i < |l.bins|
    ensures ListedBelow(l, 0) == {} && ListedBelow(l, i) == ListedBelow(l, i) + ListedAfter(l, i, |l.bins[i]| - 1)
  {
  }

  lemma ListedNext(l: Lists, i: nat)
    requires i < |l.bins|
    ensures ListedBelow(l, i + 1) == ListedBelow(l, i) + ListedAfter(l, i, -1)
  {
    forall x | x in ListedBelow(l, i + 1)
      ensures x in ListedBelow(l, i) + ListedAfter(l, i, -1)
    {
      var a, b :| 0 <= a < |l.bins| && a < i + 1 && 0 <= b < |l.bins[a]| && l.bins[a][b] == x;
      if a == i {
        assert x in ListedAfter(l, i, -1);
      }
    }
  }

  lemma ListedAll(l: Lists)
    ensures ListedBelow(l, |l.bins|) == l.All()
  {
  }

  // The chunk at position k of bin i has not come up yet.
  lemma FreshlyListed(l: Lists, size: map<int, int>, i: nat, k: nat)
    requires l.OK(size) && i < NUM_BINS && k < |l.bins[i]|
    ensures |l.bins| == NUM_BINS && l.bins[i][k] !in ListedBelow(l, i) && l.bins[i][k] !in ListedAfter(l, i, k)
    ensures ListedAfter(l, i, k) + {l.bins[i][k]} == ListedAfter(l, i, k - 1)
  {
    hide BinIndex, Bytes;
    assert l.BinOK(size, i);
    var c := l.bins[i][k];
    if c in ListedBelow(l, i) {
      var a, b :| 0 <= a < |l.bins| && a < i && 0 <= b < |l.bins[a]| && l.bins[a][b] == c;
      RingsApart(l, size, i, a, c);
    }
  }

  // When the bins above are empty, no chunk is larger than all of bin i.
  lemma TopBin(l: Lists, size: map<int, int>, words: seq<nat>, i: nat, most: int)
    requires l.OK(size) && MasksMatch(words, l.bins) && i < NUM_BINS && Marked(words, i)
    requires forall j :: i < j < NUM_BINS ==> !Marked(words, j)
    requires forall k :: 0 <= k < |l.bins[i]| && l.bins[i][k] in size ==> Bytes(size[l.bins[i][k]]) <= most
    ensures forall d :: d in l.All() && d in size ==> Bytes(size[d]) <= most
  {
    hide BinIndex, Bytes, RingOK, Distinct, Marked;
    assert l.BinOK(size, i);
    var c := l.bins[i][0];
    assert Lists.Holds(size, i, c);
    forall d | d in l.All() && d in size
      ensures Bytes(size[d]) <= most
    {
      var j, k := WhereListed(l, size, d);
      assert Marked(words, j);
      if Bytes(size[d]) > Bytes(size[c]) {
        BinIndexMonotone(Bytes(size[c]), Bytes(size[d]));
      }
    }
  }

  lemma NoMarkNoChunk(l: Lists, words: seq<nat>)
    requires MasksMatch(words, l.bins)
    requires forall i :: 0 <= i < 4 ==> words[i] == 0
    ensures l.All() == {}
  {
    hide Marked;
    forall i | 0 <= i < NUM_BINS
      ensures l.bins[i] == []
    {
      EmptyWord(words, i / 32);
    }
  }

  lemma MarkedBin(words: seq<nat>, bins: seq<seq<int>>, i: nat)
    requires MasksMatch(words, bins) && i < NUM_BINS && Marked(words, i)
    ensures bins[i] != []
  {
    hide Marked;
  }
}
