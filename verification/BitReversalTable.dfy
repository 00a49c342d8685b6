// The table BRcnt of fftlib.c (lines 19-41), entry by entry.
module BitReversalTable {
  import opened Numbers
  import opened BitReversal

  // Entries 16 * h to 16 * h + 15.
  function Row(h: nat): (row: seq<nat>)
    requires h < 16
    ensures |row| == 16
  {
    match h
    case 0 => [0, 128, 64, 192, 32, 160, 96, 224, 16, 144, 80, 208, 48, 176, 112, 240]
    case 1 => [8, 136, 72, 200, 40, 168, 104, 232, 24, 152, 88, 216, 56, 184, 120, 248]
    case 2 => [4, 132, 68, 196, 36, 164, 100, 228, 20, 148, 84, 212, 52, 180, 116, 244]
    case 3 => [12, 140, 76, 204, 44, 172, 108, 236, 28, 156, 92, 220, 60, 188, 124, 252]
    case 4 => [2, 130, 66, 194, 34, 162, 98, 226, 18, 146, 82, 210, 50, 178, 114, 242]
    case 5 => [10, 138, 74, 202, 42, 170, 106, 234, 26, 154, 90, 218, 58, 186, 122, 250]
    case 6 => [6, 134, 70, 198, 38, 166, 102, 230, 22, 150, 86, 214, 54, 182, 118, 246]
    case 7 => [14, 142, 78, 206, 46, 174, 110, 238, 30, 158, 94, 222, 62, 190, 126, 254]
    case 8 => [1, 129, 65, 193, 33, 161, 97, 225, 17, 145, 81, 209, 49, 177, 113, 241]
    case 9 => [9, 137, 73, 201, 41, 169, 105, 233, 25, 153, 89, 217, 57, 185, 121, 249]
    case 10 => [5, 133, 69, 197, 37, 165, 101, 229, 21, 149, 85, 213, 53, 181, 117, 245]
    case 11 => [13, 141, 77, 205, 45, 173, 109, 237, 29, 157, 93, 221, 61, 189, 125, 253]
    case 12 => [3, 131, 67, 195, 35, 163, 99, 227, 19, 147, 83, 211, 51, 179, 115, 243]
    case 13 => [11, 139, 75, 203, 43, 171, 107, 235, 27, 155, 91, 219, 59, 187, 123, 251]
    case 14 => [7, 135, 71, 199, 39, 167, 103, 231, 23, 151, 87, 215, 55, 183, 119, 247]
    case _ => [15, 143, 79, 207, 47, 175, 111, 239, 31, 159, 95, 223, 63, 191, 127, 255]
  }

  function BRcnt(k: nat): nat
    requires k < 256
  {
    Row(k / 16)[k % 16]
  }

  // Four bits reversed.
  function Nibble(k: nat): nat
    requires k < 16
  {
    [0, 8, 4, 12, 2, 10, 6, 14, 1, 9, 5, 13, 3, 11, 7, 15][k]
  }

  lemma NibbleReversed(k: nat)
    requires k < 16
    ensures Nibble(k) == Rev(4, k)
  {
    PairReversed(k / 4);
    PairReversed(k % 4);
    RevFields(2, 2, k / 4, k % 4);
    hide Rev;
    NibbleIsPairs(k);
  }

  function Pair(k: nat): nat
    requires k < 4
  {
    if k == 1 then 2 else if k == 2 then 1 else k
  }

  lemma PairReversed(k: nat)
    requires k < 4
    ensures Pair(k) == Rev(2, k) && Pow2(2) == 4
  {
    assert Pow2(0) == 1 && Pow2(1) == 2;
    assert Rev(0, k / 4) == 0 && Rev(1, k / 2) == k / 2 % 2;
  }

  lemma NibbleIsPairs(k: nat)
    requires k < 16
    ensures Nibble(k) == Pair(k % 4) * 4 + Pair(k / 4)
  {
  }

  // Row h lists the reversals of 16 * h to 16 * h + 15.
  lemma RowReversed(h: nat, l: nat)
    requires h < 16 && l < 16
    ensures Row(h)[l] == 16 * Nibble(l) + Nibble(h)
  {
    hide Rev;
    if h < 4 {
      RowsTo3(h, l);
    } else if h < 8 {
      RowsTo7(h, l);
    } else if h < 12 {
      RowsTo11(h, l);
    } else {
      RowsTo15(h, l);
    }
  }

  lemma RowsTo3(h: nat, l: nat)
    requires h < 4 && l < 16
    ensures Row(h)[l] == 16 * Nibble(l) + Nibble(h)
  {
  }

  lemma RowsTo7(h: nat, l: nat)
    requires 4 <= h < 8 && l < 16
    ensures Row(h)[l] == 16 * Nibble(l) + Nibble(h)
  {
  }

  lemma RowsTo11(h: nat, l: nat)
    requires 8 <= h < 12 && l < 16
    ensures Row(h)[l] == 16 * Nibble(l) + Nibble(h)
  {
  }

  lemma RowsTo15(h: nat, l: nat)
    requires 12 <= h < 16 && l < 16
    ensures Row(h)[l] == 16 * Nibble(l) + Nibble(h)
  {
  }

  // Every entry is the 8-bit reversal of its index.
  lemma EntryReversed(k: nat)
    requires k < 256
    ensures BRcnt(k) == Rev(8, k)
  {
    hide Row, Nibble, Rev, Pow2;
    Sixteen();
    RowReversed(k / 16, k % 16);
    NibbleReversed(k / 16);
    NibbleReversed(k % 16);
    RevFields(4, 4, k / 16, k % 16);
  }

  lemma Sixteen()
    ensures Pow2(4) == 16
  {
  }

  // Shifting an entry right leaves the reversal over fewer bits, which is how
  // one table serves every transform size: for an M the table reaches, the
  // lookup BRcnt[k] >> BRshift is the Reverse of the first pass.
  lemma LookupReverses(M: nat, k: nat)
    requires 2 <= M < 20 && k < Pow2(M / 2 - 1)
    ensures k < 256 && BRcnt(k) / Pow2(9 - M / 2) == Reverse(M, k)
  {
    hide Pow2, Rev, BRcnt;
    var width: nat := M / 2 - 1;
    var d, r := Pow2(8 - width), Rev(width, k);
    Pow2Add(width, 8 - width);
    FullWidth(width, k);
    EntryReversed(k);
    RevFields(8 - width, width, 0, k);
    assert 8 - width + width == 8 && 0 * Pow2(width) + k == k;
    RevZero(8 - width);
    DivMod(r, d, 0);
  }

  lemma FullWidth(width: nat, k: nat)
    requires width <= 8 && k < Pow2(width)
    ensures k < 256
  {
    Sixteen();
    hide Pow2;
    Pow2Add(4, 4);
    Pow2Monotone(width, 8);
  }

  lemma {:induction false} RevZero(k: nat)
    ensures Rev(k, 0) == 0
  {
    if k > 0 {
      RevZero(k - 1);
    }
  }
}
