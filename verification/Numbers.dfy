// Powers of two, bit reversal of an index, division facts, minimum and maximum.
// Products of two variables are taken apart here, in small lemmas, so that the
// lemmas about slots and strides can keep Pow2 and Rev hidden.
module Numbers {
  // The table Ntbl of fftlib.c, for every exponent.
  function Pow2(k: nat): (r: nat)
    ensures r >= 1
  {
    if k == 0 then 1 else 2 * Pow2(k - 1)
  }

  lemma Doubled(k: nat)
    ensures Pow2(k + 1) == 2 * Pow2(k)
  {
  }

  lemma OnePower()
    ensures Pow2(1) == 2
  {
  }

  lemma {:induction false} Pow2Add(a: nat, b: nat)
    ensures Pow2(a + b) == Pow2(a) * Pow2(b)
  {
    if a == 0 {
    } else {
      Pow2Add(a - 1, b);
      assert Pow2(a + b) == 2 * Pow2((a - 1) + b);
      assert 2 * (Pow2(a - 1) * Pow2(b)) == (2 * Pow2(a - 1)) * Pow2(b);
    }
  }

  lemma {:induction false} Pow2Monotone(a: nat, b: nat)
    requires a <= b
    ensures Pow2(a) <= Pow2(b)
    decreases b
  {
    if a < b {
      Pow2Monotone(a, b - 1);
    }
  }

  lemma MulAtLeast(d: int, h: int)
    requires d >= 1 && h >= 0
    ensures d * h >= h
  {
    assert (d - 1) * h >= 0;
    assert (d - 1) * h == d * h - h;
  }

  lemma SmallMultiple(d: int, h: int)
    requires -h < d * h < h
    ensures d == 0
  {
    if d >= 1 {
      MulAtLeast(d, h);
    } else if d <= -1 {
      MulAtLeast(-d, h);
    }
  }

  lemma MulGe(a: int, b: int, h: int)
    requires h >= 0
    ensures a >= b ==> a * h >= b * h
  {
    if a >= b {
      assert (a - b) * h >= 0;
      assert (a - b) * h == a * h - b * h;
    }
  }

  // Quotient and remainder are determined by their defining equation.
  lemma DivMod(q: int, h: int, r: int)
    requires 0 <= r < h
    ensures (q * h + r) / h == q && (q * h + r) % h == r
  {
    var n := q * h + r;
    var q', r' := n / h, n % h;
    assert q' * h + r' == n by { DivModOf(n, h); }
    assert (q - q') * h == q * h - q' * h;
    SmallMultiple(q - q', h);
  }

  lemma DivModOf(p: int, h: int)
    requires h > 0
    ensures p == (p / h) * h + p % h && 0 <= p % h < h
  {
  }

  lemma MulLess(a: int, b: int, h: int)
    requires a < b && h > 0
    ensures a * h + h <= b * h
  {
    assert (a + 1) * h <= b * h;
    assert (a + 1) * h == a * h + h;
  }

  lemma Distribute(j: int, n: int, h: int, e: int)
    ensures (j + n * h) * e == j * e + n * (h * e)
  {
    assert (n * h) * e == n * (h * e);
  }

  function Quot(p: nat, h: nat): (q: nat)
    requires h > 0
  {
    p / h
  }

  // n blocks of 2^s steps of 2^(L-s) make n full turns of 2^L.
  lemma PeriodIndex(L: nat, s: nat, j: int, n: int)
    requires s <= L
    ensures (j + n * Pow2(s)) * Pow2(L - s) == j * Pow2(L - s) + n * Pow2(L)
  {
    Pow2Add(s, L - s);
    Distribute(j, n, Pow2(s), Pow2(L - s));
  }

  // x with its low k bits in the opposite order.
  function Rev(k: nat, x: nat): (r: nat)
    ensures r < Pow2(k)
  {
    if k == 0 then 0 else (x % 2) * Pow2(k - 1) + Rev(k - 1, x / 2)
  }

  // The number with the fields hi and, in the low b bits, lo.
  function Joint(hi: nat, b: nat, lo: nat): nat {
    hi * Pow2(b) + lo
  }

  // Reversal of a two-field number swaps the fields and reverses each.
  lemma RevFields(a: nat, b: nat, hi: nat, lo: nat)
    requires lo < Pow2(b)
    ensures Rev(a + b, hi * Pow2(b) + lo) == Rev(b, lo) * Pow2(a) + Rev(a, hi)
  {
    RevJoin(a, b, hi, lo);
    hide Rev, Pow2;
  }

  lemma {:induction false} RevJoin(a: nat, b: nat, hi: nat, lo: nat)
    requires lo < Pow2(b)
    ensures Rev(a + b, Joint(hi, b, lo)) == Joint(Rev(b, lo), a, Rev(a, hi))
    decreases b
  {
    hide Rev, Pow2, Joint;
    if b == 0 {
      JoinNothing(a, hi, lo);
    } else {
      Unfolded(b, lo);
      RevJoin(a, b - 1, hi, lo / 2);
      JoinHalf(hi, b, lo);
      JoinTop(b - 1, Rev(b - 1, lo / 2), a, Rev(a, hi));
      assert a + b == a + (b - 1) + 1;
      RevStep(a + (b - 1), Joint(hi, b - 1, lo / 2), lo % 2);
    }
  }

  lemma JoinNothing(a: nat, hi: nat, lo: nat)
    requires lo < Pow2(0)
    ensures Joint(hi, 0, lo) == hi && Rev(0, lo) == 0 && Joint(0, a, Rev(a, hi)) == Rev(a, hi)
  {
    hide Pow2, Rev, Joint;
    NoBitsLeft(lo);
    JointZero(hi);
    ZeroJoint(a, Rev(a, hi));
  }

  lemma NoBitsLeft(lo: nat)
    ensures Pow2(0) == 1 && Rev(0, lo) == 0
  {
  }

  lemma JointZero(hi: nat)
    ensures Joint(hi, 0, 0) == hi
  {
    NoBitsLeft(0);
    hide Pow2;
    TimesOne(hi, Pow2(0));
  }

  lemma ZeroJoint(a: nat, lo: nat)
    ensures Joint(0, a, lo) == lo
  {
    hide Pow2;
    assert 0 * Pow2(a) == 0;
  }

  lemma TimesOne(a: int, p: int)
    ensures p == 1 ==> a * p == a
  {
  }

  lemma JoinHalf(hi: nat, b: nat, lo: nat)
    requires b > 0
    ensures Joint(hi, b, lo) == 2 * Joint(hi, b - 1, lo / 2) + lo % 2
  {
    Halved(hi, Pow2(b - 1), lo);
  }

  lemma JoinTop(k: nat, r: nat, a: nat, lo: nat)
    ensures Joint(Pow2(k) + r, a, lo) == Pow2(a + k) + Joint(r, a, lo)
  {
    Pow2Add(k, a);
    Sums(Pow2(k), r, Pow2(a));
  }

  lemma Sums(a: nat, b: nat, c: nat)
    ensures (a + b) * c == a * c + b * c
  {
  }

  lemma Unfolded(b: nat, lo: nat)
    requires b > 0
    ensures Pow2(b) == 2 * Pow2(b - 1) && Rev(b, lo) == (if lo % 2 == 1 then Pow2(b - 1) else 0) + Rev(b - 1, lo / 2)
    ensures lo < Pow2(b) ==> lo / 2 < Pow2(b - 1)
  {
  }

  lemma Halved(hi: nat, half: nat, lo: nat)
    ensures hi * (2 * half) + lo == 2 * (hi * half + lo / 2) + lo % 2
  {
    assert hi * (2 * half) == 2 * (hi * half);
  }

  lemma RevStep(k: nat, y: nat, bit: nat)
    requires bit < 2
    ensures Rev(k + 1, 2 * y + bit) == (if bit == 1 then Pow2(k) else 0) + Rev(k, y)
  {
    assert (2 * y + bit) % 2 == bit && (2 * y + bit) / 2 == y;
  }

  lemma {:induction false} RevTwice(k: nat, x: nat)
    requires x < Pow2(k)
    ensures Rev(k, Rev(k, x)) == x
  {
    if k == 0 {
    } else {
      Unfolded(k, x);
      RevOne(x % 2);
      hide Pow2, Rev;
      assert 1 + (k - 1) == k;
      RevFields(1, k - 1, x % 2, Rev(k - 1, x / 2));
      RevTwice(k - 1, x / 2);
    }
  }

  function Min(a: int, b: int): int {
    if a < b then a else b
  }

  function Max(a: int, b: int): int {
    if a < b then b else a
  }

  lemma RevOne(bit: nat)
    requires bit < 2
    ensures Rev(1, bit) == bit && Pow2(1) == 2
  {
  }
}
