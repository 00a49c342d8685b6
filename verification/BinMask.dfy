// The bin occupancy words of SC_AllocPool.h (lines 198-240) and the bit
// counting of clz.h they rest on.
module BinMask {
  import opened Numbers

  const NUM_BINS := 128

  predicate Bit(w: nat, k: nat) {
    if k == 0 then w % 2 == 1 else Bit(w / 2, k - 1)
  }

  // w | 1 << k  and  w & ~(1 << k)
  function SetBit(w: nat, k: nat): nat {
    if k == 0 then w - w % 2 + 1 else 2 * SetBit(w / 2, k - 1) + w % 2
  }

  function ClearBit(w: nat, k: nat): nat {
    if k == 0 then w - w % 2 else 2 * ClearBit(w / 2, k - 1) + w % 2
  }

  // w & ~((1 << k) - 1)
  function KeepHigh(w: nat, k: nat): nat {
    if k == 0 then w else 2 * KeepHigh(w / 2, k - 1)
  }

  // NUMBITS and CTZ of clz.h, the latter for a non-zero word.
  function NumBits(w: nat): nat {
    if w == 0 then 0 else 1 + NumBits(w / 2)
  }

  function Ctz(w: nat): nat
    requires w > 0
  {
    if w % 2 == 1 then 0 else 1 + Ctz(w / 2)
  }

  lemma {:induction false} SetBitSets(w: nat, k: nat, j: nat)
    ensures Bit(SetBit(w, k), j) <==> j == k || Bit(w, j)
  {
    if k > 0 && j > 0 {
      SetBitSets(w / 2, k - 1, j - 1);
    }
  }

  lemma {:induction false} ClearBitClears(w: nat, k: nat, j: nat)
    ensures Bit(ClearBit(w, k), j) <==> j != k && Bit(w, j)
  {
    if k > 0 && j > 0 {
      ClearBitClears(w / 2, k - 1, j - 1);
    }
  }

  // Words stay within n bits.
  lemma {:induction false} WordWidth(w: nat, k: nat, n: nat)
    requires w < Pow2(n) && k < n
    ensures SetBit(w, k) < Pow2(n) && ClearBit(w, k) < Pow2(n)
  {
    if k > 0 {
      WordWidth(w / 2, k - 1, n - 1);
    }
  }

  // The lowest set bit at or above k.
  lemma {:induction false} CtzIsLowest(w: nat, k: nat)
    requires w >= Pow2(k)
    ensures KeepHigh(w, k) > 0
    ensures var b := Ctz(KeepHigh(w, k));
            k <= b && Bit(w, b) && forall j :: k <= j < b ==> !Bit(w, j)
    decreases k, w
  {
    if k > 0 {
      CtzIsLowest(w / 2, k - 1);
      var b := Ctz(KeepHigh(w, k));
      forall j | k <= j < b
        ensures !Bit(w, j)
      {
        assert !Bit(w / 2, j - 1);
      }
    } else if w % 2 == 0 {
      CtzIsLowest(w / 2, 0);
      forall j | 0 <= j < Ctz(w)
        ensures !Bit(w, j)
      {
        assert j > 0 ==> !Bit(w / 2, j - 1);
      }
    }
  }

  lemma {:induction false} NoBits(w: nat, k: nat, j: nat)
    requires w < Pow2(k) && j >= k
    ensures !Bit(w, j)
    decreases j
  {
    if j > 0 {
      NoBits(w / 2, if k > 0 then k - 1 else 0, j - 1);
    }
  }

  // The highest set bit.
  lemma {:induction false} NumBitsIsHighest(w: nat)
    requires w > 0
    ensures Bit(w, NumBits(w) - 1) && forall j :: j >= NumBits(w) ==> !Bit(w, j)
  {
    if w > 1 {
      NumBitsIsHighest(w / 2);
    }
    forall j | j >= NumBits(w)
      ensures !Bit(w, j)
    {
      assert w > 1 ==> !Bit(w / 2, j - 1);
      if w == 1 {
        NoBits(1, 1, j);
      }
    }
  }

  lemma {:induction false} BitBelowWidth(w: nat, n: nat, j: nat)
    requires w < Pow2(n) && Bit(w, j)
    ensures j < n
  {
    if j >= n {
      NoBits(w, n, j);
    }
  }

  // --- the four words ---

  predicate Words(b: seq<nat>) {
    |b| == 4 && forall i :: 0 <= i < 4 ==> b[i] < Pow2(32)
  }

  predicate Marked(b: seq<nat>, i: nat)
    requires Words(b) && i < NUM_BINS
  {
    Bit(b[i / 32], i % 32)
  }

  lemma WordPut(b: seq<nat>, k: nat, w: nat)
    requires Words(b) && k < 4 && w < Pow2(32)
    ensures Words(b[k := w])
  {
  }

  lemma BitMarks(b: seq<nat>, i: nat)
    requires Words(b) && i < NUM_BINS
    ensures Words(b[i / 32 := SetBit(b[i / 32], i % 32)])
    ensures forall j :: 0 <= j < NUM_BINS ==> (Marked(b[i / 32 := SetBit(b[i / 32], i % 32)], j) <==> j == i || Marked(b, j))
  {
    hide Bit, SetBit, Pow2;
    var b' := b[i / 32 := SetBit(b[i / 32], i % 32)];
    WordWidth(b[i / 32], i % 32, 32);
    WordPut(b, i / 32, SetBit(b[i / 32], i % 32));
    forall j | 0 <= j < NUM_BINS
      ensures Marked(b', j) <==> j == i || Marked(b, j)
    {
      SetBitSets(b[i / 32], i % 32, j % 32);
    }
    assert b' == b[i / 32 := SetBit(b[i / 32], i % 32)];
  }

  function MarkBinBlock(b: seq<nat>, i: nat): (b': seq<nat>)
    requires Words(b) && i < NUM_BINS
    ensures Words(b')
    ensures forall j :: 0 <= j < NUM_BINS ==> (Marked(b', j) <==> j == i || Marked(b, j))
  {
    BitMarks(b, i);
    b[i / 32 := SetBit(b[i / 32], i % 32)]
  }

  lemma BitUnmarks(b: seq<nat>, i: nat)
    requires Words(b) && i < NUM_BINS
    ensures Words(b[i / 32 := ClearBit(b[i / 32], i % 32)])
    ensures forall j :: 0 <= j < NUM_BINS ==> (Marked(b[i / 32 := ClearBit(b[i / 32], i % 32)], j) <==> j != i && Marked(b, j))
  {
    hide Bit, ClearBit, Pow2;
    var b' := b[i / 32 := ClearBit(b[i / 32], i % 32)];
    WordWidth(b[i / 32], i % 32, 32);
    WordPut(b, i / 32, ClearBit(b[i / 32], i % 32));
    forall j | 0 <= j < NUM_BINS
      ensures Marked(b', j) <==> j != i && Marked(b, j)
    {
      ClearBitClears(b[i / 32], i % 32, j % 32);
    }
    assert b' == b[i / 32 := ClearBit(b[i / 32], i % 32)];
  }

  function ClearBinBlock(b: seq<nat>, i: nat): (b': seq<nat>)
    requires Words(b) && i < NUM_BINS
    ensures Words(b')
    ensures forall j :: 0 <= j < NUM_BINS ==> (Marked(b', j) <==> j != i && Marked(b, j))
  {
    BitUnmarks(b, i);
    b[i / 32 := ClearBit(b[i / 32], i % 32)]
  }

  // A word tells which of its 32 bins are marked.
  lemma WordBins(b: seq<nat>, word: nat, lo: nat, hi: nat)
    requires Words(b) && word < 4 && lo <= hi <= 32
    requires forall j :: lo <= j < hi ==> !Bit(b[word], j)
    ensures forall j :: 32 * word + lo <= j < 32 * word + hi ==> !Marked(b, j)
  {
    hide Bit;
    forall j | 32 * word + lo <= j < 32 * word + hi
      ensures !Marked(b, j)
    {
      assert j / 32 == word && j % 32 == j - 32 * word;
    }
  }

  lemma FoundBin(b: seq<nat>, word: nat, pos: nat)
    requires Words(b) && word < 4 && pos < 32 && Bit(b[word], pos)
    ensures Marked(b, 32 * word + pos)
  {
    hide Bit;
    assert (32 * word + pos) / 32 == word && (32 * word + pos) % 32 == pos;
  }

  // The lowest set bit of a word at or above bitPosition.
  method LowestIn(b: seq<nat>, word: nat, bitPosition: nat) returns (index: nat)
    requires Words(b) && word < 4 && bitPosition < 32 && b[word] >= Pow2(bitPosition)
    ensures 32 * word + bitPosition <= index < 32 * word + 32 && Marked(b, index)
    ensures forall j :: 32 * word + bitPosition <= j < index ==> !Marked(b, j)
  {
    hide Bit, Marked, KeepHigh, Ctz, Pow2;
    CtzIsLowest(b[word], bitPosition);
    var pos := Ctz(KeepHigh(b[word], bitPosition));
    BitBelowWidth(b[word], 32, pos);
    WordBins(b, word, bitPosition, pos);
    FoundBin(b, word, pos);
    index := 32 * word + pos;
  }

  // NextFullBin: the first marked bin at or above start, or -1.
  method NextFullBin(b: seq<nat>, start: nat) returns (index: int)
    requires Words(b)
    ensures -1 <= index < NUM_BINS
    ensures index >= 0 ==> start <= index && Marked(b, index)
    ensures forall j :: start <= j < (if index < 0 then NUM_BINS else index) ==> !Marked(b, j)
  {
    hide Bit, Marked, Pow2;
    if start >= NUM_BINS {
      return -1;
    }
    var word, bitPosition := start / 32, start % 32;
    if b[word] >= Pow2(bitPosition) {
      index := LowestIn(b, word, bitPosition);
      return;
    }
    forall j | bitPosition <= j < 32
      ensures !Bit(b[word], j)
    {
      NoBits(b[word], bitPosition, j);
    }
    WordBins(b, word, bitPosition, 32);
    word := word + 1;
    while word < 4 && b[word] == 0
      invariant start < 32 * word && word <= 4
      invariant forall j :: start <= j < 32 * word ==> !Marked(b, j)
    {
      EmptyWord(b, word);
      word := word + 1;
    }
    if word == 4 {
      return -1;
    }
    PowZero();
    index := LowestIn(b, word, 0);
  }

  lemma PowZero()
    ensures Pow2(0) == 1
  {
  }

  lemma EmptyWord(b: seq<nat>, word: nat)
    requires Words(b) && word < 4 && b[word] == 0
    ensures forall j :: 32 * word <= j < 32 * word + 32 ==> !Marked(b, j)
  {
    hide Bit, Marked, Pow2;
    PowZero();
    forall j | 0 <= j < 32
      ensures !Bit(b[word], j)
    {
      NoBits(0, 0, j);
    }
    WordBins(b, word, 0, 32);
  }

  // NUMBITS finds the last marked bin of the last word that is not empty.
  lemma LastMarked(b: seq<nat>, word: nat)
    requires Words(b) && word < 4 && b[word] > 0 && forall j :: word < j < 4 ==> b[j] == 0
    ensures 1 <= NumBits(b[word]) <= 32 && Marked(b, 32 * word + NumBits(b[word]) - 1)
    ensures forall j :: 32 * word + NumBits(b[word]) <= j < NUM_BINS ==> !Marked(b, j)
  {
    hide Bit, Marked, Pow2, NumBits;
    NumBitsIsHighest(b[word]);
    NumBitsPositive(b[word]);
    var n := NumBits(b[word]);
    BitBelowWidth(b[word], 32, n - 1);
    FoundBin(b, word, n - 1);
    WordBins(b, word, n, 32);
    forall j | 32 * word + 32 <= j < NUM_BINS
      ensures !Marked(b, j)
    {
      EmptyWord(b, j / 32);
    }
  }

  lemma NumBitsZero()
    ensures NumBits(0) == 0
  {
  }

  lemma NumBitsPositive(w: nat)
    requires w > 0
    ensures NumBits(w) >= 1
  {
  }

  // --- bin numbers ---

  function Clz(x: nat): int {
    32 - NumBits(x)
  }

  // BinIndex: by counting leading zeroes.
  function BinIndex(size: nat): (i: int)
    ensures 0 <= i < NUM_BINS
  {
    BinIndexAgrees(size);
    BinIndexByClz(size)
  }

  function BinIndexByClz(size: nat): int {
    if size < 1024 then size / 16
    else if size >= 262144 then 127
    else
      var bits := 28 - Clz(size);
      if bits < 0 then 0 else 8 * bits + size / Pow2(bits)
  }

  // BinIndex2: by comparison.
  function BinIndex2(size: nat): int {
    if size < 1024 then size / 16
    else if size < 2048 then 56 + size / 128
    else if size < 4096 then 64 + size / 256
    else if size < 8192 then 72 + size / 512
    else if size < 16384 then 80 + size / 1024
    else if size < 32768 then 88 + size / 2048
    else if size < 65536 then 96 + size / 4096
    else if size < 131072 then 104 + size / 8192
    else if size < 262144 then 112 + size / 16384
    else 127
  }

  lemma {:induction false} NumBitsBetween(x: nat, k: nat)
    requires Pow2(k) <= x < Pow2(k + 1)
    ensures NumBits(x) == k + 1
  {
    if k > 0 {
      NumBitsBetween(x / 2, k - 1);
    }
  }

  lemma Powers()
    ensures Pow2(7) == 128 && Pow2(8) == 256 && Pow2(9) == 512 && Pow2(10) == 1024 && Pow2(11) == 2048
    ensures Pow2(12) == 4096 && Pow2(13) == 8192 && Pow2(14) == 16384 && Pow2(15) == 32768
    ensures Pow2(16) == 65536 && Pow2(17) == 131072 && Pow2(18) == 262144
  {
    assert Pow2(4) == 16;
    Pow2Add(4, 3);
    Pow2Add(7, 1);
    Pow2Add(8, 1);
    Pow2Add(9, 1);
    Pow2Add(10, 1);
    Pow2Add(11, 1);
    Pow2Add(12, 1);
    Pow2Add(13, 1);
    Pow2Add(14, 1);
    Pow2Add(15, 1);
    Pow2Add(16, 1);
    Pow2Add(17, 1);
  }

  // The two formulas of the header agree on every size.
  lemma BinIndexAgrees(size: nat)
    ensures BinIndexByClz(size) == BinIndex2(size)
    ensures 0 <= BinIndex2(size) < NUM_BINS
  {
    Powers();
    hide Pow2, NumBits;
    if 1024 <= size < 262144 {
      var k :=
        if size < 2048 then 10 else if size < 4096 then 11 else if size < 8192 then 12
        else if size < 16384 then 13 else if size < 32768 then 14 else if size < 65536 then 15
        else if size < 131072 then 16 else 17;
      NumBitsBetween(size, k);
    }
  }

  lemma BinIndexMonotone(a: nat, b: nat)
    requires a <= b
    ensures BinIndex(a) <= BinIndex(b)
  {
    BinIndexAgrees(a);
    BinIndexAgrees(b);
    hide BinIndexByClz;
  }

  // The sizes from 2^k to 2^(k+1) have eight bins of equal width, from k = 10 to 17;
  // all larger ones share the last bin.
  lemma LargeBin(size: nat, k: nat)
    requires 10 <= k
    ensures k <= 17 && Pow2(k) <= size < Pow2(k + 1) ==>
              BinIndex(size) == 8 * (k - 2) + (size - Pow2(k)) / Pow2(k - 3)
    ensures k >= 18 && Pow2(k) <= size ==> BinIndex(size) == 127
  {
    BinIndexAgrees(size);
    Powers();
    Pow2Monotone(18, if k > 18 then k else 18);
    hide Pow2, BinIndexByClz;
    if k <= 17 && Pow2(k) <= size < Pow2(k + 1) {
      EightBins(size, k);
    }
  }

  lemma EightBins(size: nat, k: nat)
    requires 10 <= k <= 17 && Pow2(k) <= size < Pow2(k + 1)
    ensures BinIndex2(size) == 8 * (k - 2) + (size - Pow2(k)) / Pow2(k - 3)
  {
    Powers();
    hide Pow2;
  }

  // Bins below 64 hold one aligned size each.
  lemma SmallBin(a: nat)
    ensures BinIndex(a) < 64 <==> a < 1024
    ensures a < 1024 ==> BinIndex(a) == a / 16
  {
    BinIndexAgrees(a);
    hide BinIndexByClz;
  }
}
