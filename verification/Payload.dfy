// User bytes, and what a header write does to them: a chunk header occupies
// the first bytes of its chunk, so writing one forgets whatever was there.
module Payload {
  // Memory after n header bytes at q were overwritten; the bins, at negative
  // addresses, are not part of it.
  function Scribble(d: map<int, int>, q: int, n: int): map<int, int> {
    if q < 0 then d else map a | a in d && !(q <= a < q + n) :: d[a]
  }

  ghost predicate Hit(s: set<int>, n: int, a: int) {
    exists q :: q in s && q <= a < q + n
  }

  // Bytes outside the headers at s are as before, and no bytes come up.
  ghost predicate Spared(d: map<int, int>, d': map<int, int>, s: set<int>, n: int) {
    d'.Keys <= d.Keys && forall a :: a in d && !Hit(s, n, a) ==> a in d' && d'[a] == d[a]
  }

  // Headers written at s, and then at t.
  ghost predicate SparedInTurn(d: map<int, int>, d': map<int, int>, s: set<int>, t: set<int>, n: int) {
    exists mid :: Spared(d, mid, s, n) && Spared(mid, d', t, n)
  }

  // Bytes lo .. hi - 1 are as before.
  ghost predicate SameBytes(d: map<int, int>, d': map<int, int>, lo: int, hi: int) {
    forall a :: lo <= a < hi && a in d ==> a in d' && d'[a] == d[a]
  }

  // Every one of these blocks, given with their sizes, keeps the bytes after its header.
  ghost predicate Kept(blocks: map<int, int>, d: map<int, int>, d': map<int, int>, header: int) {
    forall b :: b in blocks ==> SameBytes(d, d', b + header, b + blocks[b])
  }

  lemma KeptTwice(blocks: map<int, int>, d: map<int, int>, d1: map<int, int>, d2: map<int, int>, header: int)
    requires Kept(blocks, d, d1, header) && Kept(blocks, d1, d2, header)
    ensures Kept(blocks, d, d2, header)
  {
    forall b | b in blocks
      ensures SameBytes(d, d2, b + header, b + blocks[b])
    {
      assert SameBytes(d, d1, b + header, b + blocks[b]) && SameBytes(d1, d2, b + header, b + blocks[b]);
    }
  }

  lemma KeptFewer(blocks: map<int, int>, s: set<int>, d: map<int, int>, d': map<int, int>, header: int)
    requires Kept(blocks, d, d', header)
    ensures Kept(blocks - s, d, d', header)
  {
    forall b | b in blocks - s
      ensures SameBytes(d, d', b + header, b + (blocks - s)[b])
    {
      assert b in blocks;
    }
  }

  lemma ScribbleSpares(d: map<int, int>, q: int, n: int, s: set<int>)
    requires q >= 0 ==> q in s
    ensures Spared(d, Scribble(d, q, n), s, n)
  {
    forall a | a in d && !Hit(s, n, a)
      ensures a in Scribble(d, q, n)
    {
    }
  }

  lemma ScribbleTwice(d: map<int, int>, p: int, q: int, n: int, s: set<int>)
    requires (p >= 0 ==> p in s) && (q >= 0 ==> q in s)
    ensures Spared(d, Scribble(Scribble(d, p, n), q, n), s, n)
  {
    ScribbleSpares(d, p, n, s);
    ScribbleSpares(Scribble(d, p, n), q, n, s);
    SparedBoth(d, Scribble(d, p, n), Scribble(Scribble(d, p, n), q, n), s, s, n);
    assert s + s == s;
  }

  lemma SparedBoth(d: map<int, int>, d1: map<int, int>, d2: map<int, int>, s: set<int>, t: set<int>, n: int)
    requires Spared(d, d1, s, n) && Spared(d1, d2, t, n)
    ensures Spared(d, d2, s + t, n)
  {
    forall a | a in d && !Hit(s + t, n, a)
      ensures a in d2 && d2[a] == d[a]
    {
      HitMore(s, t, n, a);
      HitMore(t, s, n, a);
      assert t + s == s + t;
    }
  }

  lemma HitMore(s: set<int>, t: set<int>, n: int, a: int)
    ensures Hit(s, n, a) ==> Hit(s + t, n, a)
  {
    if Hit(s, n, a) {
      var q :| q in s && q <= a < q + n;
      assert q in s + t;
    }
  }

  lemma SparedBytes(d: map<int, int>, d': map<int, int>, s: set<int>, n: int, lo: int, hi: int)
    requires Spared(d, d', s, n)
    requires forall q :: q in s ==> q + n <= lo || hi <= q
    ensures SameBytes(d, d', lo, hi)
  {
    forall a | lo <= a < hi && a in d
      ensures !Hit(s, n, a)
    {
    }
  }

  lemma SparedSame(d: map<int, int>, s: set<int>, n: int)
    ensures Spared(d, d, s, n)
  {
  }

  lemma KeptSame(blocks: map<int, int>, d: map<int, int>, header: int)
    ensures Kept(blocks, d, d, header)
  {
  }

  lemma SparedKeys(d: map<int, int>, d': map<int, int>, s: set<int>, n: int)
    requires Spared(d, d', s, n)
    ensures d'.Keys <= d.Keys
  {
  }

  // --- memmove ---

  // n bytes copied from one place to another, bytes that are not there included.
  function Moved(d: map<int, int>, to: int, from: int, n: int): map<int, int> {
    var targets := set a | a in d && from <= a < from + n :: a - from + to;
    (map a | a in d && !(to <= a < to + n) :: d[a]) + (map a | a in targets :: d[a - to + from])
  }

  lemma MovedBytes(d: map<int, int>, to: int, from: int, n: int, a: int)
    requires from <= a < from + n
    ensures var d' := Moved(d, to, from, n);
            && (a - from + to in d' <==> a in d)
            && (a in d ==> d'[a - from + to] == d[a])
  {
  }

  // n bytes from one place are found at the other afterwards.
  ghost predicate Copied(d: map<int, int>, from: int, d': map<int, int>, to: int, n: int) {
    forall a :: from <= a < from + n && a in d ==> a - from + to in d' && d'[a - from + to] == d[a]
  }

  lemma MovedCopies(d: map<int, int>, d1: map<int, int>, to: int, from: int, n: int)
    requires SameBytes(d, d1, from, from + n)
    ensures Copied(d, from, Moved(d1, to, from, n), to, n)
  {
    forall a | from <= a < from + n && a in d
      ensures a - from + to in Moved(d1, to, from, n) && Moved(d1, to, from, n)[a - from + to] == d[a]
    {
      MovedBytes(d1, to, from, n, a);
    }
  }

  lemma MovedKept(blocks: map<int, int>, d: map<int, int>, to: int, from: int, n: int, header: int)
    requires forall b :: b in blocks ==> to + n <= b + header || b + blocks[b] <= to
    ensures Kept(blocks, d, Moved(d, to, from, n), header)
  {
  }

  lemma SameCopied(d: map<int, int>, d': map<int, int>, from: int, n: int)
    requires SameBytes(d, d', from, from + n)
    ensures Copied(d, from, d', from, n)
  {
  }

  lemma BothInTurn(d: map<int, int>, d1: map<int, int>, d2: map<int, int>, s: set<int>, t: set<int>, n: int)
    requires Spared(d, d1, s, n) && Spared(d1, d2, t, n)
    ensures SparedInTurn(d, d2, s, t, n)
  {
    hide Spared;
  }
}
