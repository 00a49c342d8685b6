// sc_strtod (strtod.c), in exact arithmetic: the scanner, the two integer
// accumulators, and the powers of ten.
module Strtod {
  import opened Numbers

  const MAX_EXPONENT := 511

  // --- characters; reading at the end of the text gives the terminator ---

  function CharAt(s: string, i: nat): char {
    if i < |s| then s[i] else '\0'
  }

  predicate IsSpace(c: char) {
    c == ' ' || 9 <= c as int <= 13
  }

  predicate IsDigit(c: char) {
    '0' <= c <= '9'
  }

  function DigitOf(c: char): nat
    requires IsDigit(c)
  {
    c as int - '0' as int
  }

  // --- numbers ---

  function Pow10(k: nat): (r: nat)
    ensures r >= 1
  {
    if k == 0 then 1 else 10 * Pow10(k - 1)
  }

  lemma {:induction false} Pow10Add(a: nat, b: nat)
    ensures Pow10(a + b) == Pow10(a) * Pow10(b)
  {
    if a > 0 {
      Pow10Add(a - 1, b);
      assert Pow10(a + b) == 10 * Pow10((a - 1) + b);
      assert 10 * (Pow10(a - 1) * Pow10(b)) == (10 * Pow10(a - 1)) * Pow10(b);
    }
  }

  // 10^e.
  function Exp10(e: int): real {
    if e >= 0 then Pow10(e) as real else 1.0 / Pow10(-e) as real
  }

  predicate AreDigits(d: seq<nat>) {
    forall k :: 0 <= k < |d| ==> d[k] < 10
  }

  // The number with these decimal digits.
  function Num(d: seq<nat>): nat {
    if d == [] then 0 else 10 * Num(d[..|d| - 1]) + d[|d| - 1]
  }

  lemma {:induction false} NumBound(d: seq<nat>)
    requires AreDigits(d)
    ensures Num(d) < Pow10(|d|)
    decreases |d|
  {
    if d != [] {
      NumBound(d[..|d| - 1]);
    }
  }

  lemma {:induction false} NumSplit(a: seq<nat>, b: seq<nat>)
    ensures Num(a + b) == Num(a) * Pow10(|b|) + Num(b)
    decreases |b|
  {
    hide Num, Pow10;
    if b == [] {
      assert a + b == a;
      NoDigits();
    } else {
      var b', c := b[..|b| - 1], b[|b| - 1];
      assert a + b == (a + b') + [c] && b == b' + [c];
      LastDigit(a + b', c);
      LastDigit(b', c);
      NumSplit(a, b');
      Tenfold(|b'|);
      Scaled10(Num(a), Pow10(|b'|));
    }
  }

  lemma LastDigit(a: seq<nat>, c: nat)
    ensures Num(a + [c]) == 10 * Num(a) + c
  {
    assert (a + [c])[..|a|] == a;
  }

  lemma Tenfold(k: nat)
    ensures Pow10(k + 1) == 10 * Pow10(k)
  {
  }

  lemma Scaled10(a: nat, p: nat)
    ensures 10 * (a * p) == a * (10 * p)
  {
  }

  // --- the scanner, as a function of the text ---

  function Blanks(s: string, i: nat): (j: nat)
    ensures i <= j
    decreases |s| - i
  {
    if i < |s| && IsSpace(s[i]) then Blanks(s, i + 1) else i
  }

  // The end of the mantissa: digits, and one point if none was seen.
  function MantissaEnd(s: string, i: nat, point: bool): (j: nat)
    ensures i <= j && (i <= |s| ==> j <= |s|)
    decreases |s| - i
  {
    if i < |s| && IsDigit(s[i]) then MantissaEnd(s, i + 1, point)
    else if i < |s| && s[i] == '.' && !point then MantissaEnd(s, i + 1, true)
    else i
  }

  // The digits between i and j.
  function Digits(s: string, i: nat, j: nat): (d: seq<nat>)
    requires j <= |s|
    ensures AreDigits(d)
    decreases j - i
  {
    if i >= j then []
    else if IsDigit(s[i]) then [DigitOf(s[i])] + Digits(s, i + 1, j)
    else Digits(s, i + 1, j)
  }

  // How many characters come before the point, or -1.
  function PointAt(s: string, i: nat, j: nat): int
    requires j <= |s|
    decreases j - i
  {
    if i >= j then -1
    else if s[i] == '.' then 0
    else
      var k := PointAt(s, i + 1, j);
      if k < 0 then -1 else k + 1
  }

  function DigitsEnd(s: string, i: nat): (j: nat)
    ensures i <= j && (i <= |s| ==> j <= |s|)
    decreases |s| - i
  {
    if i < |s| && IsDigit(s[i]) then DigitsEnd(s, i + 1) else i
  }

  // What the text says: sign, digits, digits before the point, exponent, and
  // where it ends.
  datatype Scan = Scan(negative: bool, digits: seq<nat>, before: nat, exponent: int, end: nat)

  function ScanExponent(s: string, i: nat): (int, nat)
    requires i <= |s|
  {
    if CharAt(s, i) == 'E' || CharAt(s, i) == 'e' then
      var k := if CharAt(s, i + 1) == '-' || CharAt(s, i + 1) == '+' then i + 2 else i + 1;
      var x: int := Num(Digits(s, k, DigitsEnd(s, k)));
      (if CharAt(s, i + 1) == '-' then -x else x, DigitsEnd(s, k))
    else (0, i)
  }

  function ScanText(s: string): Scan {
    var i := Blanks(s, 0);
    BlanksFit(s, 0);
    var k := if CharAt(s, i) == '-' || CharAt(s, i) == '+' then i + 1 else i;
    var j := MantissaEnd(s, k, false);
    var d, point := Digits(s, k, j), PointAt(s, k, j);
    var (x, end) := ScanExponent(s, j);
    Scan(CharAt(s, i) == '-', d, if point < 0 then |d| else point, x, if d == [] then 0 else end)
  }

  lemma {:induction false} BlanksFit(s: string, i: nat)
    requires i <= |s|
    ensures Blanks(s, i) <= |s|
    decreases |s| - i
  {
    if i < |s| && IsSpace(s[i]) {
      BlanksFit(s, i + 1);
    }
  }

  // The exact value of a scan.
  function Exact(x: Scan): real {
    (if x.negative then -1.0 else 1.0) * Num(x.digits) as real * Exp10(x.exponent + x.before - |x.digits|)
  }

  // What the code computes: at most 18 digits, and an exponent kept within range.
  function Kept(x: Scan): nat {
    if |x.digits| > 18 then 18 else |x.digits|
  }

  function Scale(x: Scan): int {
    x.exponent + x.before - Kept(x)
  }

  function Clamp(e: int): int {
    if e > MAX_EXPONENT then MAX_EXPONENT else if e < -MAX_EXPONENT then -MAX_EXPONENT else e
  }

  function Computed(x: Scan): real {
    (if x.negative then -1.0 else 1.0) * Num(x.digits[..Kept(x)]) as real * Exp10(Clamp(Scale(x)))
  }

  // --- the code ---

  // Lines 138-149: count the mantissa's characters and locate the point.
  method CountMantissa(s: string, start: nat) returns (mantSize: nat, decPt: int, p: nat)
    requires start <= |s|
    ensures p == MantissaEnd(s, start, false) && mantSize == p - start && p <= |s|
    ensures decPt == PointAt(s, start, p)
    ensures |Digits(s, start, p)| == mantSize - (if decPt < 0 then 0 else 1)
    ensures -1 <= decPt && (decPt >= 0 ==> decPt < mantSize)
  {
    hide Digits, PointAt, MantissaEnd, DigitOf;
    NothingRead(s, start);
    decPt, mantSize, p := -1, 0, start;
    while true
      invariant p == start + mantSize <= |s| && MantissaEnd(s, start, false) == MantissaEnd(s, p, decPt >= 0)
      invariant decPt == PointAt(s, start, p) && -1 <= decPt && (decPt >= 0 ==> decPt < mantSize)
      invariant |Digits(s, start, p)| == mantSize - (if decPt < 0 then 0 else 1)
      decreases |s| - p
    {
      var c := CharAt(s, p);
      OneMore(s, start, p);
      MantissaStep(s, p, decPt >= 0);
      if !IsDigit(c) {
        if c != '.' || decPt >= 0 {
          break;
        }
        decPt := mantSize;
      }
      p, mantSize := p + 1, mantSize + 1;
    }
  }

  lemma MantissaStep(s: string, p: nat, point: bool)
    requires p <= |s|
    ensures var c := CharAt(s, p);
            && (IsDigit(c) ==> p < |s| && MantissaEnd(s, p, point) == MantissaEnd(s, p + 1, point) && c != '.')
            && (c == '.' && !point ==> p < |s| && MantissaEnd(s, p, point) == MantissaEnd(s, p + 1, true))
            && (!IsDigit(c) && (c != '.' || point) ==> MantissaEnd(s, p, point) == p)
  {
  }

  lemma {:induction false} OneMore(s: string, i: nat, p: nat)
    requires i <= p
    ensures p < |s| ==>
              && Digits(s, i, p + 1) == Digits(s, i, p) + (if IsDigit(s[p]) then [DigitOf(s[p])] else [])
              && PointAt(s, i, p + 1)
                 == (if PointAt(s, i, p) >= 0 then PointAt(s, i, p) else if s[p] == '.' then p - i else -1)
    decreases p - i
  {
    if i < p && p < |s| {
      OneMore(s, i + 1, p);
    } else if p < |s| {
      assert Digits(s, p + 1, p + 1) == [];
    }
  }

  // A stretch of digits with at most one point, as CountMantissa finds it.
  ghost predicate Mantissa(s: string, i: nat, j: nat) {
    && i <= j <= |s|
    && (forall k :: i <= k < j ==> IsDigit(s[k]) || s[k] == '.')
    && (forall k, m :: i <= k < m < j && s[k] == '.' ==> s[m] != '.')
  }

  lemma {:induction false} MantissaIs(s: string, i: nat, point: bool)
    requires i <= |s|
    ensures Mantissa(s, i, MantissaEnd(s, i, point))
    ensures point ==> forall k :: i <= k < MantissaEnd(s, i, point) ==> s[k] != '.'
    decreases |s| - i
  {
    if i < |s| && IsDigit(s[i]) {
      MantissaIs(s, i + 1, point);
    } else if i < |s| && s[i] == '.' && !point {
      MantissaIs(s, i + 1, true);
    }
  }

  // Without a point every character is a digit.
  lemma NextDigit(s: string, i: nat, j: nat)
    requires Mantissa(s, i, j) && Digits(s, i, j) != []
    ensures i < j && var k := if s[i] == '.' then i + 1 else i;
            && k < j && IsDigit(s[k]) && Mantissa(s, k + 1, j)
            && Digits(s, i, j) == [DigitOf(s[k])] + Digits(s, k + 1, j)
  {
    if s[i] == '.' {
      assert Digits(s, i, j) == Digits(s, i + 1, j);
    }
  }

  // Lines 178-187 and 189-198: the next n digits, passing over the point.
  method TakeDigits(s: string, start: nat, n: nat, ghost j: nat) returns (frac: nat, p: nat)
    requires Mantissa(s, start, j) && n <= |Digits(s, start, j)| && n <= 9
    ensures frac == Num(Digits(s, start, j)[..n]) && frac < 1_000_000_000
    ensures Mantissa(s, p, j) && Digits(s, p, j) == Digits(s, start, j)[n..]
  {
    hide Digits, Mantissa, Num, Pow10, IsDigit, DigitOf;
    NoDigits();
    MantissaBounds(s, start, j);
    frac, p := 0, start;
    ghost var d := Digits(s, start, j);
    var left := n;
    while left > 0
      invariant 0 <= left <= n && Mantissa(s, p, j) && Digits(s, p, j) == d[n - left..]
      invariant frac == Num(d[..n - left])
    {
      TakeOne(s, p, j, d, n - left);
      var c := s[p];
      p := p + 1;
      if c == '.' {
        c := s[p];
        p := p + 1;
      }
      frac := 10 * frac + DigitOf(c);
      left := left - 1;
    }
    DigitsDigits(s, start, j);
    NumBound(d[..n]);
    NinePlaces(n);
  }

  lemma DigitsDigits(s: string, i: nat, j: nat)
    requires j <= |s|
    ensures AreDigits(Digits(s, i, j))
  {
  }

  lemma NoDigits()
    ensures Num([]) == 0 && Pow10(0) == 1
  {
  }

  // Digit k of d is the next one in the text.
  lemma TakeOne(s: string, p: nat, j: nat, d: seq<nat>, k: nat)
    requires k < |d| && Mantissa(s, p, j) && Digits(s, p, j) == d[k..]
    ensures p < j <= |s|
    ensures var m := if s[p] == '.' then p + 1 else p;
            && m < j && IsDigit(s[m]) && Mantissa(s, m + 1, j) && Digits(s, m + 1, j) == d[k + 1..]
            && Num(d[..k + 1]) == 10 * Num(d[..k]) + DigitOf(s[m])
  {
    hide Digits, Num, Mantissa;
    NextDigit(s, p, j);
    MantissaBounds(s, p, j);
    var m := if s[p] == '.' then p + 1 else p;
    assert d[k..][0] == d[k] && d[k..][1..] == d[k + 1..];
    assert d[..k + 1] == d[..k] + [DigitOf(s[m])];
    NumSplit(d[..k], [DigitOf(s[m])]);
    OneDigit(DigitOf(s[m]));
  }

  lemma MantissaBounds(s: string, p: nat, j: nat)
    requires Mantissa(s, p, j)
    ensures p <= j <= |s|
  {
  }

  lemma OneDigit(k: nat)
    ensures Num([k]) == k && Pow10(1) == 10
  {
    assert [k][..0] == [];
  }

  lemma NinePlaces(n: nat)
    requires n <= 9
    ensures Pow10(n) <= 1_000_000_000 && Pow10(9) == 1_000_000_000
  {
    assert Pow10(5) == 100_000;
    assert Pow10(9) == 1_000_000_000;
    PowMonotone(n, 9);
  }

  lemma {:induction false} PowMonotone(a: nat, b: nat)
    requires a <= b
    ensures Pow10(a) <= Pow10(b)
    decreases b
  {
    if a < b {
      PowMonotone(a, b - 1);
    }
  }

  // Lines 176-199: up to 18 digits in two integers of nine.
  method Fraction(s: string, start: nat, mantSize: nat, ghost j: nat) returns (fraction: real, frac1: nat, frac2: nat)
    requires Mantissa(s, start, j) && mantSize <= |Digits(s, start, j)| && mantSize <= 18
    ensures fraction == Num(Digits(s, start, j)[..mantSize]) as real
    ensures frac1 < 1_000_000_000 && frac2 < 1_000_000_000
  {
    hide Digits, Mantissa, Num, Pow10;
    MantissaBounds(s, start, j);
    ghost var d := Digits(s, start, j);
    var first := if mantSize > 9 then mantSize - 9 else 0;
    var p: nat;
    frac1, p := TakeDigits(s, start, first, j);
    frac2, p := TakeDigits(s, p, mantSize - first, j);
    fraction := 1_000_000_000.0 * frac1 as real + frac2 as real;
    var a, b := d[..first], d[first..][..mantSize - first];
    assert a + b == d[..mantSize];
    NumSplit(a, b);
    NinePlaces(9);
    NoDigits();
    if mantSize <= 9 {
      assert a == [];
    }
  }

  // --- the exponent ---

  // Lines 206-222.
  method ReadExponent(s: string, start: nat) returns (exp: int, p: nat)
    requires start <= |s|
    ensures (exp, p) == ScanExponent(s, start)
  {
    p, exp := start, 0;
    if CharAt(s, p) == 'E' || CharAt(s, p) == 'e' {
      var expSign := false;
      p := p + 1;
      if CharAt(s, p) == '-' {
        expSign := true;
        p := p + 1;
      } else {
        if CharAt(s, p) == '+' {
          p := p + 1;
        }
      }
      exp, p := ReadDigits(s, p);
      if expSign {
        exp := -exp;
      }
    }
  }

  method ReadDigits(s: string, start: nat) returns (x: int, p: nat)
    requires start <= |s|
    ensures p == DigitsEnd(s, start) && x == Num(Digits(s, start, p))
  {
    hide Num, Digits;
    NoDigits();
    NothingRead(s, start);
    x, p := 0, start;
    while IsDigit(CharAt(s, p))
      invariant start <= p <= |s| && DigitsEnd(s, start) == DigitsEnd(s, p) && x == Num(Digits(s, start, p))
      decreases |s| - p
    {
      OneMore(s, start, p);
      var d := DigitOf(CharAt(s, p));
      NumSplit(Digits(s, start, p), [d]);
      OneDigit(d);
      x := x * 10 + d;
      p := p + 1;
    }
  }

  lemma NothingRead(s: string, i: nat)
    requires i <= |s|
    ensures Digits(s, i, i) == [] && PointAt(s, i, i) == -1
  {
  }

  // The table powersOf10: entry i is 10^2^i.
  const TABLE_SIZE := 9

  function PowersOf10(i: nat): real
    requires i < TABLE_SIZE
  {
    Pow10(Pow2(i)) as real
  }

  // Lines 246-251: 10^exp one bit at a time, within the table.
  method PowerOf10(exp: nat) returns (dblExp: real)
    requires exp <= MAX_EXPONENT
    ensures dblExp == Pow10(exp) as real
  {
    hide Pow10, Pow2, Part;
    ZeroPowers();
    dblExp := 1.0;
    var e, d := exp, 0;
    while e != 0
      invariant 0 <= e && d <= TABLE_SIZE && e < Pow2(TABLE_SIZE - d) && 0 <= Part(e, d) <= exp
      invariant dblExp == Pow10(exp - Part(e, d)) as real
    {
      BitStep(e, d, exp);
      if e % 2 == 1 {
        OneEntry(exp - Part(e, d), d);
        dblExp := dblExp * PowersOf10(d);
      }
      e, d := e / 2, d + 1;
    }
    NoPart(d);
  }

  lemma OneEntry(done: nat, d: nat)
    requires d < TABLE_SIZE
    ensures Pow10(done) as real * PowersOf10(d) == Pow10(done + Pow2(d)) as real
  {
    hide Pow10, Pow2;
    Pow10Add(done, Pow2(d));
    Products(Pow10(done), Pow10(Pow2(d)));
  }

  // The bits of the exponent still to be used.
  function Part(e: nat, d: nat): nat {
    e * Pow2(d)
  }

  lemma NoPart(d: nat)
    ensures Part(0, d) == 0
  {
  }

  lemma ZeroPowers()
    ensures Pow2(0) == 1 && Pow10(0) == 1 && Pow2(9) == 512 && forall e: nat :: Part(e, 0) == e
  {
    assert Pow2(5) == 32;
    Pow2Add(5, 4);
    assert Pow2(4) == 16;
  }

  lemma BitStep(e: nat, d: nat, exp: nat)
    requires e > 0 && d <= TABLE_SIZE && e < Pow2(TABLE_SIZE - d) && Part(e, d) <= exp
    ensures d < TABLE_SIZE && e / 2 < Pow2(TABLE_SIZE - (d + 1))
    ensures Part(e / 2, d + 1) == Part(e, d) - (if e % 2 == 1 then Pow2(d) else 0)
  {
    assert Pow2(0) == 1;
    Doubled(TABLE_SIZE - d - 1);
    Doubled(d);
    hide Pow2;
    HalfPart(e, Pow2(d));
  }

  lemma HalfPart(e: nat, p: nat)
    ensures (e / 2) * (2 * p) == e * p - (if e % 2 == 1 then p else 0)
  {
    var h := e / 2;
    assert h * (2 * p) == (2 * h) * p;
    if e % 2 == 1 {
      assert e == 2 * h + 1;
      assert (2 * h + 1) * p == (2 * h) * p + p;
    }
  }

  lemma Products(a: nat, b: nat)
    ensures (a * b) as real == a as real * b as real
  {
  }

  // --- the whole ---

  // Lines 138-200: at most 18 digits of the mantissa, as a number.
  method ReadMantissa(s: string, start: nat) returns (fraction: real, fracExp: int, mantSize: nat, pExp: nat)
    requires start <= |s|
    ensures pExp == MantissaEnd(s, start, false) && pExp <= |s|
    ensures var d, point := Digits(s, start, pExp), PointAt(s, start, pExp);
            && mantSize == Min(|d|, 18) && fraction == Num(d[..mantSize]) as real
            && fracExp == (if point < 0 then |d| else point) - mantSize
  {
    hide Digits, Mantissa, MantissaEnd, PointAt, Num;
    var decPt: int;
    MantissaIs(s, start, false);
    mantSize, decPt, pExp := CountMantissa(s, start);
    var p := pExp - mantSize;
    if decPt < 0 {
      decPt := mantSize;
    } else {
      mantSize := mantSize - 1;
    }
    if mantSize > 18 {
      fracExp := decPt - 18;
      mantSize := 18;
    } else {
      fracExp := decPt - mantSize;
    }
    if mantSize == 0 {
      fraction := 0.0;
      NoDigits();
      assert Digits(s, start, pExp)[..0] == [];
    } else {
      var frac1, frac2;
      fraction, frac1, frac2 := Fraction(s, p, mantSize, pExp);
    }
  }

  // Lines 236-256: the fraction times ten to the exponent, kept within range.
  method ApplyExponent(fraction: real, exponent: int) returns (value: real, erange: bool)
    ensures value == fraction * Exp10(Clamp(exponent))
    ensures erange <==> exponent > MAX_EXPONENT || exponent < -MAX_EXPONENT
  {
    hide Pow10;
    var exp: int, expSign := exponent, exponent < 0;
    if expSign {
      exp := -exp;
    }
    erange := exp > MAX_EXPONENT;
    if erange {
      exp := MAX_EXPONENT;
    }
    var dblExp := PowerOf10(exp);
    if expSign {
      value := fraction / dblExp;
      Quotient(fraction, dblExp);
    } else {
      value := fraction * dblExp;
    }
  }

  lemma Quotient(a: real, b: real)
    requires b != 0.0
    ensures a / b == a * (1.0 / b)
  {
  }

  // sc_strtod; end is *endPtr, erange the setting of errno.
  method SC_Strtod(s: string) returns (value: real, end: nat, erange: bool)
    ensures var x := ScanText(s);
            && end == x.end
            && value == (if x.digits == [] then 0.0 else Computed(x))
            && (erange <==> x.digits != [] && (Scale(x) > MAX_EXPONENT || Scale(x) < -MAX_EXPONENT))
    ensures end > 0 <==> exists n, rest :: Spells(s, n, rest)
    ensures forall n, rest :: Spells(s, n, rest) ==>
              end == |Text(n)| && Gives(n, value, erange) && (WithinReach(n) ==> value == Value(n) && !erange)
    ensures (forall n, rest :: !Spells(s, n, rest)) ==> value == 0.0 && !erange
  {
    value, end, erange := Convert(s);
    hide Computed, Value, Text, Spells, ScanText, Scale, Gives;
    Consumed(s);
    forall n, rest | Spells(s, n, rest)
      ensures Gives(n, value, erange)
    {
      NumeralGives(s, n, rest);
    }
  }

  // The body of sc_strtod, against the scan.
  method Convert(s: string) returns (value: real, end: nat, erange: bool)
    ensures var x := ScanText(s);
            && end == x.end
            && value == (if x.digits == [] then 0.0 else Computed(x))
            && (erange <==> x.digits != [] && (Scale(x) > MAX_EXPONENT || Scale(x) < -MAX_EXPONENT))
  {
    hide Digits, MantissaEnd, PointAt, Num, Exp10, ScanExponent, Blanks;
    var p := SkipBlanks(s);
    var sign := false;
    if CharAt(s, p) == '-' {
      sign := true;
      p := p + 1;
    } else {
      if CharAt(s, p) == '+' {
        p := p + 1;
      }
    }
    var fraction, fracExp, mantSize, pExp := ReadMantissa(s, p);
    if mantSize == 0 {
      return 0.0, 0, false;
    }
    var exp: int;
    exp, end := ReadExponent(s, pExp);
    value, erange := ApplyExponent(fraction, fracExp + exp);
    Negated(fraction, Exp10(Clamp(fracExp + exp)));
    if sign {
      value := -value;
    }
  }

  lemma Negated(a: real, b: real)
    ensures -1.0 * a * b == -(a * b) && 1.0 * a * b == a * b
  {
  }

  method SkipBlanks(s: string) returns (p: nat)
    ensures p == Blanks(s, 0) && p <= |s|
  {
    p := 0;
    while IsSpace(CharAt(s, p))
      invariant p <= |s| && Blanks(s, 0) == Blanks(s, p)
      decreases |s| - p
    {
      p := p + 1;
    }
  }

  // --- how good the value is ---

  // 10^e is 10^(e-k) times 10^k.
  lemma Exp10Shift(e: int, k: nat)
    ensures Exp10(e - k) > 0.0 && Pow10(k) as real * Exp10(e - k) == Exp10(e)
  {
    hide Pow10, Exp10;
    if e - k >= 0 {
      Upward(k, e - k);
    } else if e >= 0 {
      Across(e, k - e);
    } else {
      Downward(-e, k);
    }
  }

  lemma Upward(a: nat, b: nat)
    ensures Exp10(b) > 0.0 && Pow10(a) as real * Exp10(b) == Exp10(a + b)
  {
    hide Pow10;
    Pow10Add(a, b);
    Products(Pow10(a), Pow10(b));
  }

  lemma Across(a: nat, b: int)
    requires b > 0
    ensures Exp10(-b) > 0.0 && Pow10(a + b) as real * Exp10(-b) == Exp10(a)
  {
    hide Pow10;
    Pow10Add(a, b);
    Products(Pow10(a), Pow10(b));
    Cancel(Pow10(a) as real, Pow10(b) as real);
  }

  lemma Downward(a: int, b: int)
    requires a > 0 && b >= 0
    ensures Exp10(-a - b) > 0.0 && Pow10(b) as real * Exp10(-a - b) == Exp10(-a)
  {
    hide Pow10;
    Pow10Add(a, b);
    Products(Pow10(a), Pow10(b));
    Cancel2(Pow10(a) as real, Pow10(b) as real);
    assert -(-a - b) == a + b;
    assert -(-a) == a;
  }

  lemma Cancel(a: real, b: real)
    requires a > 0.0 && b > 0.0
    ensures (a * b) * (1.0 / b) == a && 1.0 / b > 0.0
  {
    assert b * (1.0 / b) == 1.0;
  }

  lemma Cancel2(a: real, b: real)
    requires a > 0.0 && b > 0.0
    ensures a * b > 0.0 && 1.0 / (a * b) > 0.0 && b * (1.0 / (a * b)) == 1.0 / a
  {
    var c := a * b;
    assert c * (1.0 / c) == 1.0;
    assert a * (b * (1.0 / c)) == 1.0;
    assert (1.0 / a) * (a * (b * (1.0 / c))) == ((1.0 / a) * a) * (b * (1.0 / c));
  }

  // With at most 18 digits and the exponent in range the value is exact.
  lemma ExactUpTo18(x: Scan)
    requires |x.digits| <= 18 && -MAX_EXPONENT <= Scale(x) <= MAX_EXPONENT
    ensures Computed(x) == Exact(x)
  {
    assert x.digits[..Kept(x)] == x.digits;
  }

  // The value without its sign.
  function Magnitude(x: Scan): real {
    Num(x.digits) as real * Exp10(x.exponent + x.before - |x.digits|)
  }

  function ComputedMagnitude(x: Scan): real {
    Num(x.digits[..Kept(x)]) as real * Exp10(Clamp(Scale(x)))
  }

  // With more digits the magnitude falls short by less than one unit of the 18th digit.
  lemma TruncationBound(x: Scan)
    requires AreDigits(x.digits) && |x.digits| > 18 && -MAX_EXPONENT <= Scale(x) <= MAX_EXPONENT
    ensures 0.0 <= Magnitude(x) - ComputedMagnitude(x) < Exp10(x.exponent + x.before - 18)
  {
    hide Num, Pow10, Exp10;
    var head, tail := x.digits[..18], x.digits[18..];
    var e := x.exponent + x.before - 18;
    assert head + tail == x.digits;
    NumSplit(head, tail);
    NumBound(tail);
    Exp10Shift(e, |tail|);
    Products(Num(head), Pow10(|tail|));
    Shortfall(Num(head) as real, Num(tail) as real, Pow10(|tail|) as real, Exp10(e - |tail|));
  }

  lemma Shortfall(h: real, t: real, p: real, u: real)
    requires 0.0 <= t < p && u > 0.0
    ensures (h * p + t) * u - h * (p * u) == t * u && 0.0 <= t * u < p * u
  {
    assert (h * p + t) * u == (h * p) * u + t * u;
    assert (h * p) * u == h * (p * u);
  }

  // --- the numerals of the documentation ---

  datatype Sign = Bare | Plus | Minus

  // "EX"; the documentation wants a digit in X, the code takes none as 0.
  datatype Exponent = NoExponent | Exponent(capital: bool, sign: Sign, digits: seq<nat>)

  // Blanks, sign, I, the point, F and the exponent.
  datatype Numeral = Numeral(blanks: string, sign: Sign, whole: seq<nat>, point: bool, part: seq<nat>, exponent: Exponent)

  ghost predicate Good(n: Numeral) {
    && (forall k :: 0 <= k < |n.blanks| ==> IsSpace(n.blanks[k]))
    && AreDigits(n.whole) && AreDigits(n.part) && n.whole + n.part != []
    && (n.part != [] ==> n.point)
    && (n.exponent.Exponent? ==> AreDigits(n.exponent.digits))
  }

  function Glyph(d: nat): char {
    if d < 10 then ('0' as int + d) as char else '?'
  }

  function DigitText(d: seq<nat>): (t: string)
    ensures |t| == |d| && forall k :: 0 <= k < |d| ==> t[k] == Glyph(d[k])
  {
    seq(|d|, k requires 0 <= k < |d| => Glyph(d[k]))
  }

  function SignText(s: Sign): string {
    match s
    case Bare => ""
    case Plus => "+"
    case Minus => "-"
  }

  function PointText(point: bool): string {
    if point then "." else ""
  }

  function ExponentText(e: Exponent): string {
    match e
    case NoExponent => ""
    case Exponent(capital, sign, digits) => (if capital then "E" else "e") + SignText(sign) + DigitText(digits)
  }

  function MantissaText(n: Numeral): string {
    DigitText(n.whole) + PointText(n.point) + DigitText(n.part)
  }

  function Text(n: Numeral): string {
    n.blanks + SignText(n.sign) + MantissaText(n) + ExponentText(n.exponent)
  }

  function Signed(sign: Sign, m: int): int {
    if sign == Minus then -m else m
  }

  function ExponentValue(e: Exponent): int {
    match e
    case NoExponent => 0
    case Exponent(_, sign, digits) => Signed(sign, Num(digits))
  }

  // The number it denotes: I.F times ten to the X.
  function Value(n: Numeral): real {
    (if n.sign == Minus then -1.0 else 1.0)
    * (Num(n.whole) as real + Num(n.part) as real * Exp10(-|n.part|)) * Exp10(ExponentValue(n.exponent))
  }

  // The numeral ends here: what follows does not continue it.
  ghost predicate Stops(n: Numeral, rest: string) {
    var c := CharAt(rest, 0);
    && !IsDigit(c)
    && match n.exponent
       case NoExponent => c != 'e' && c != 'E' && (c == '.' ==> n.point)
       case Exponent(_, sign, digits) => digits == [] && sign == Bare ==> c != '+' && c != '-'
  }

  ghost predicate Spells(s: string, n: Numeral, rest: string) {
    Good(n) && Stops(n, rest) && s == Text(n) + rest
  }

  // The scan of a numeral.
  function ScanOf(n: Numeral): Scan {
    Scan(n.sign == Minus, n.whole + n.part, |n.whole|, ExponentValue(n.exponent), |Text(n)|)
  }

  // t stands in s at i.
  ghost predicate Stands(s: string, i: nat, t: string) {
    i + |t| <= |s| && s[i..i + |t|] == t
  }

  lemma StandsBoth(s: string, i: nat, t: string, u: string)
    ensures Stands(s, i, t + u) <==> Stands(s, i, t) && Stands(s, i + |t|, u)
  {
    if i + |t| + |u| <= |s| {
      assert s[i..i + |t + u|] == s[i..i + |t|] + s[i + |t|..i + |t| + |u|];
      assert Stands(s, i, t + u) ==> s[i..i + |t + u|][..|t|] == t && s[i..i + |t + u|][|t|..] == u;
    }
  }

  lemma {:induction false} BlanksRun(s: string, i: nat, j: nat)
    requires i <= j <= |s| && !IsSpace(CharAt(s, j)) && forall k :: i <= k < j ==> IsSpace(s[k])
    ensures Blanks(s, i) == j
    decreases j - i
  {
    if i < j {
      BlanksRun(s, i + 1, j);
    }
  }

  lemma GlyphDigit(d: nat)
    requires d < 10
    ensures IsDigit(Glyph(d)) && DigitOf(Glyph(d)) == d && Glyph(d) == "0123456789"[d]
  {
  }

  lemma FirstDigit(s: string, i: nat, d: seq<nat>)
    requires AreDigits(d) && d != [] && Stands(s, i, DigitText(d))
    ensures i < |s| && IsDigit(s[i]) && DigitOf(s[i]) == d[0] && s[i] != '.'
    ensures Stands(s, i + 1, DigitText(d[1..]))
  {
    hide IsDigit, DigitOf;
    var t := DigitText(d);
    assert s[i] == s[i..i + |t|][0] == Glyph(d[0]);
    GlyphDigit(d[0]);
    assert DigitText(d[1..]) == t[1..];
    assert s[i + 1..i + 1 + |t[1..]|] == s[i..i + |t|][1..];
  }

  // A run of digits is read as these digits.
  lemma {:induction false} DigitsRun(s: string, i: nat, d: seq<nat>, point: bool)
    requires AreDigits(d) && Stands(s, i, DigitText(d))
    ensures Digits(s, i, i + |d|) == d && PointAt(s, i, i + |d|) == -1
    ensures MantissaEnd(s, i, point) == MantissaEnd(s, i + |d|, point) && DigitsEnd(s, i) == DigitsEnd(s, i + |d|)
    decreases |d|
  {
    hide IsDigit, DigitOf, DigitText, Glyph, Digits, PointAt, MantissaEnd, DigitsEnd, Stands;
    TextLength(d);
    StandsIn(s, i, DigitText(d));
    if d != [] {
      FirstDigit(s, i, d);
      DigitsRun(s, i + 1, d[1..], point);
      DigitHere(s, i, i + |d|, point);
      assert d == [d[0]] + d[1..];
    } else {
      NothingRead(s, i);
    }
  }

  lemma DigitHere(s: string, i: nat, j: nat, point: bool)
    requires i < j <= |s| && IsDigit(s[i])
    ensures Digits(s, i, j) == [DigitOf(s[i])] + Digits(s, i + 1, j)
    ensures PointAt(s, i + 1, j) == -1 && s[i] != '.' ==> PointAt(s, i, j) == -1
    ensures MantissaEnd(s, i, point) == MantissaEnd(s, i + 1, point) && DigitsEnd(s, i) == DigitsEnd(s, i + 1)
  {
  }

  lemma {:induction false} DigitsApart(s: string, i: nat, j: nat, k: nat)
    requires i <= j <= k <= |s|
    ensures Digits(s, i, k) == Digits(s, i, j) + Digits(s, j, k)
    ensures PointAt(s, i, k)
            == (if PointAt(s, i, j) >= 0 then PointAt(s, i, j)
                else if PointAt(s, j, k) >= 0 then j - i + PointAt(s, j, k) else -1)
    decreases j - i
  {
    if i < j {
      DigitsApart(s, i + 1, j, k);
    } else {
      NothingRead(s, i);
    }
  }

  // The point, when it is there, and nothing otherwise.
  lemma PointRun(s: string, i: nat, point: bool)
    requires Stands(s, i, PointText(point))
    ensures var j := i + |PointText(point)|;
            && j <= |s| && Digits(s, i, j) == [] && PointAt(s, i, j) == (if point then 0 else -1)
            && (point ==> MantissaEnd(s, i, false) == MantissaEnd(s, j, true))
  {
    if point {
      assert s[i] == s[i..i + 1][0] == '.';
      assert Digits(s, i + 1, i + 1) == [];
    }
  }

  lemma MantissaStops(s: string, j: nat, point: bool)
    requires j <= |s| && !IsDigit(CharAt(s, j)) && (CharAt(s, j) == '.' ==> point)
    ensures MantissaEnd(s, j, point) == j
  {
  }

  // The mantissa is read as I.F.
  lemma MantissaRead(s: string, i: nat, n: Numeral)
    requires Good(n) && Stands(s, i, MantissaText(n))
    requires var j := i + |MantissaText(n)|; !IsDigit(CharAt(s, j)) && (CharAt(s, j) == '.' ==> n.point)
    ensures var j := i + |MantissaText(n)|;
            && j <= |s| && MantissaEnd(s, i, false) == j && Digits(s, i, j) == n.whole + n.part
            && PointAt(s, i, j) == (if n.point then |n.whole| else -1)
  {
    hide Digits, PointAt, MantissaEnd, IsDigit, Stands, DigitText, DigitsEnd, CharAt;
    var w, p, f := DigitText(n.whole), PointText(n.point), DigitText(n.part);
    StandsBoth(s, i, w + p, f);
    StandsBoth(s, i, w, p);
    StandsIn(s, i, MantissaText(n));
    var a, b := i + |w|, i + |w| + |p|;
    var j := b + |f|;
    TextLength(n.whole);
    TextLength(n.part);
    DigitsRun(s, i, n.whole, false);
    PointRun(s, a, n.point);
    DigitsRun(s, b, n.part, n.point);
    MantissaStops(s, j, n.point);
    DigitsApart(s, i, a, j);
    DigitsApart(s, a, b, j);
  }

  lemma StandsIn(s: string, i: nat, t: string)
    requires Stands(s, i, t)
    ensures i + |t| <= |s|
  {
  }

  lemma TextLength(d: seq<nat>)
    ensures |DigitText(d)| == |d|
  {
  }

  lemma SignStands(s: string, i: nat, sign: Sign)
    requires Stands(s, i, SignText(sign)) && (sign == Bare ==> CharAt(s, i) != '-' && CharAt(s, i) != '+')
    ensures (CharAt(s, i) == '-' <==> sign == Minus) && (CharAt(s, i) == '+' <==> sign == Plus)
    ensures i + |SignText(sign)| == if CharAt(s, i) == '-' || CharAt(s, i) == '+' then i + 1 else i
  {
    if sign != Bare {
      assert s[i] == s[i..i + 1][0];
    }
  }

  lemma NoSignText()
    ensures SignText(Bare) == ""
  {
  }

  // The exponent is read as X.
  lemma ExponentRead(s: string, i: nat, n: Numeral, rest: string)
    requires Good(n) && Stops(n, rest) && i <= |s| && s[i..] == ExponentText(n.exponent) + rest
    ensures ScanExponent(s, i) == (ExponentValue(n.exponent), i + |ExponentText(n.exponent)|)
  {
    hide Num, Digits, DigitsEnd, DigitText, IsDigit;
    match n.exponent
    case NoExponent =>
      assert CharAt(s, i) == CharAt(rest, 0);
    case Exponent(capital, sign, digits) =>
      ExponentDigits(s, i, capital, sign, digits, rest);
  }

  lemma ExponentDigits(s: string, i: nat, capital: bool, sign: Sign, digits: seq<nat>, rest: string)
    requires AreDigits(digits) && i <= |s| && s[i..] == ExponentText(Exponent(capital, sign, digits)) + rest
    requires !IsDigit(CharAt(rest, 0))
    requires digits == [] && sign == Bare ==> CharAt(rest, 0) != '+' && CharAt(rest, 0) != '-'
    ensures ScanExponent(s, i) ==
            (ExponentValue(Exponent(capital, sign, digits)), i + |ExponentText(Exponent(capital, sign, digits))|)
  {
    hide Digits, DigitsEnd, Num, IsDigit, DigitText, SignText, ScanExponent, Stands, CharAt, AreDigits, IsSpace, DigitOf,
      Signed, PointAt, MantissaEnd;
    var e, t, d := if capital then "E" else "e", SignText(sign), DigitText(digits);
    TextLength(digits);
    TailParts(s, i, e + t + d, rest);
    StandsBoth(s, i, e + t, d);
    StandsBoth(s, i, e, t);
    MarkStands(s, i, capital);
    ExponentAt(s, i, sign, digits, rest);
  }

  lemma ExponentAt(s: string, i: nat, sign: Sign, digits: seq<nat>, rest: string)
    requires i < |s| && (CharAt(s, i) == 'E' || CharAt(s, i) == 'e') && AreDigits(digits)
    requires var k := i + 1 + |SignText(sign)|;
             && Stands(s, i + 1, SignText(sign)) && Stands(s, k, DigitText(digits))
             && k + |digits| <= |s| && s[k + |digits|..] == rest
    requires !IsDigit(CharAt(rest, 0))
    requires digits == [] && sign == Bare ==> CharAt(rest, 0) != '+' && CharAt(rest, 0) != '-'
    ensures ScanExponent(s, i) ==
            (Signed(sign, Num(digits)), i + 1 + |SignText(sign)| + |digits|)
  {
    hide Digits, DigitsEnd, Num, IsDigit, DigitText, SignText, ScanExponent, Stands, CharAt, AreDigits, IsSpace, DigitOf,
      Signed, PointAt, MantissaEnd;
    var k := i + 1 + |SignText(sign)|;
    NotASign(s, k, digits, rest);
    NoSignText();
    SignStands(s, i + 1, sign);
    DigitsRun(s, k, digits, false);
    Onward(s, k + |digits|, rest);
    DigitsStop(s, k + |digits|);
    ExponentShape(s, i, sign);
  }

  lemma Onward(s: string, i: nat, rest: string)
    requires i <= |s| && s[i..] == rest
    ensures CharAt(s, i) == CharAt(rest, 0)
  {
  }

  lemma MarkStands(s: string, i: nat, capital: bool)
    requires Stands(s, i, if capital then "E" else "e")
    ensures i < |s| && (CharAt(s, i) == 'E' || CharAt(s, i) == 'e')
  {
    assert s[i] == s[i..i + 1][0];
  }

  lemma ExponentShape(s: string, i: nat, sign: Sign)
    requires i < |s| && (CharAt(s, i) == 'E' || CharAt(s, i) == 'e')
    requires (CharAt(s, i + 1) == '-' <==> sign == Minus) && (CharAt(s, i + 1) == '+' <==> sign == Plus)
    ensures var k := i + 1 + |SignText(sign)|;
            && k <= |s|
            && ScanExponent(s, i) == (Signed(sign, Num(Digits(s, k, DigitsEnd(s, k)))), DigitsEnd(s, k))
  {
    hide Digits, DigitsEnd, Num;
  }

  lemma TailParts(s: string, i: nat, t: string, rest: string)
    requires i <= |s| && s[i..] == t + rest
    ensures Stands(s, i, t) && i + |t| <= |s| && s[i + |t|..] == rest && CharAt(s, i + |t|) == CharAt(rest, 0)
  {
    assert s[i..i + |t|] == s[i..][..|t|];
    assert s[i + |t|..] == s[i..][|t|..];
  }

  lemma DigitsStop(s: string, i: nat)
    requires !IsDigit(CharAt(s, i))
    ensures DigitsEnd(s, i) == i
  {
  }

  lemma NotASign(s: string, k: nat, digits: seq<nat>, rest: string)
    requires AreDigits(digits) && Stands(s, k, DigitText(digits))
    requires k + |digits| <= |s| && s[k + |digits|..] == rest
    ensures digits != [] ==> CharAt(s, k) != '-' && CharAt(s, k) != '+'
    ensures digits == [] ==> CharAt(s, k) == CharAt(rest, 0)
  {
    if digits != [] {
      FirstDigit(s, k, digits);
    }
  }

  // A numeral is scanned as what it says, up to its last character.
  lemma NumeralScanned(s: string, n: Numeral, rest: string)
    requires Spells(s, n, rest)
    ensures ScanText(s) == ScanOf(n)
  {
    hide Digits, DigitsEnd, Num, IsDigit, MantissaEnd, PointAt, Blanks, ScanExponent, MantissaText, SignText, ExponentText, Stops,
      ExponentValue, Stands, CharAt;
    var i, k := |n.blanks|, |n.blanks| + |SignText(n.sign)|;
    var j := k + |MantissaText(n)|;
    Parts(s, n, rest);
    AfterBlanks(s, n);
    BlanksRun(s, 0, i);
    SignStands(s, i, n.sign);
    AfterMantissa(s, j, n, rest);
    MantissaRead(s, k, n);
    ExponentRead(s, j, n, rest);
    assert n.point || n.whole + n.part == n.whole;
  }

  lemma Parts(s: string, n: Numeral, rest: string)
    requires s == Text(n) + rest
    ensures var i, k := |n.blanks|, |n.blanks| + |SignText(n.sign)|;
            var j := k + |MantissaText(n)|;
            && j <= |s| && Stands(s, 0, n.blanks) && Stands(s, i, SignText(n.sign)) && Stands(s, k, MantissaText(n))
            && s[j..] == ExponentText(n.exponent) + rest
  {
    hide SignText, MantissaText, ExponentText, Stands;
    var a, b, c := n.blanks, n.blanks + SignText(n.sign), n.blanks + SignText(n.sign) + MantissaText(n);
    assert s == c + (ExponentText(n.exponent) + rest);
    StandsFirst(s, c, ExponentText(n.exponent) + rest);
    StandsBoth(s, 0, b, MantissaText(n));
    StandsBoth(s, 0, a, SignText(n.sign));
  }

  lemma StandsFirst(s: string, t: string, rest: string)
    requires s == t + rest
    ensures Stands(s, 0, t) && s[|t|..] == rest
  {
  }

  // The mantissa begins with a digit or the point.
  lemma MantissaStart(s: string, k: nat, n: Numeral)
    requires Good(n) && Stands(s, k, MantissaText(n))
    ensures IsDigit(CharAt(s, k)) || CharAt(s, k) == '.'
  {
    hide IsDigit, Glyph;
    var t := MantissaText(n);
    assert s[k..k + |t|][0] == s[k];
    if n.whole != [] {
      GlyphDigit(n.whole[0]);
    }
  }

  lemma AfterBlanks(s: string, n: Numeral)
    requires Good(n)
    requires var i, k := |n.blanks|, |n.blanks| + |SignText(n.sign)|;
             Stands(s, 0, n.blanks) && Stands(s, i, SignText(n.sign)) && Stands(s, k, MantissaText(n))
    ensures var i := |n.blanks|;
            && i <= |s| && !IsSpace(CharAt(s, i))
            && (n.sign == Bare ==> CharAt(s, i) != '-' && CharAt(s, i) != '+')
            && forall k :: 0 <= k < i ==> IsSpace(s[k])
  {
    hide MantissaText;
    var i := |n.blanks|;
    assert s[..i] == n.blanks;
    if n.sign == Bare {
      MantissaStart(s, i, n);
    } else {
      assert s[i] == s[i..i + 1][0];
    }
  }

  lemma AfterMantissa(s: string, j: nat, n: Numeral, rest: string)
    requires Good(n) && Stops(n, rest) && j <= |s| && s[j..] == ExponentText(n.exponent) + rest
    ensures !IsDigit(CharAt(s, j)) && (CharAt(s, j) == '.' ==> n.point)
  {
    hide DigitText;
    if n.exponent.NoExponent? {
      assert CharAt(s, j) == CharAt(rest, 0);
    } else {
      assert s[j] == s[j..][0];
    }
  }

  // Few enough digits, and an exponent within the table's reach.
  predicate WithinReach(n: Numeral) {
    |n.whole| + |n.part| <= 18 && -MAX_EXPONENT <= ExponentValue(n.exponent) - |n.part| <= MAX_EXPONENT
  }

  // The scan's exact value is the number the numeral denotes.
  lemma ScanIsValue(n: Numeral)
    ensures Exact(ScanOf(n)) == Value(n)
  {
    hide Num, Pow10, Exp10, ExponentValue;
    var x, p := ExponentValue(n.exponent), |n.part|;
    NumSplit(n.whole, n.part);
    Products(Num(n.whole), Pow10(p));
    Exp10Shift(0, p);
    ExpZero();
    Exp10Shift(x, p);
    assert x + |n.whole| - |n.whole + n.part| == x - p;
    Joined(if n.sign == Minus then -1.0 else 1.0, Num(n.whole) as real, Num(n.part) as real, Pow10(p) as real, Exp10(-p),
           Exp10(x - p));
  }

  lemma ExpZero()
    ensures Exp10(0) == 1.0
  {
  }

  lemma Joined(sign: real, w: real, f: real, p: real, inverse: real, u: real)
    requires p * inverse == 1.0
    ensures sign * (w * p + f) * u == sign * (w + f * inverse) * (p * u)
  {
    assert (w + f * inverse) * p == w * p + f * (p * inverse);
    assert sign * ((w + f * inverse) * p) * u == sign * (w + f * inverse) * (p * u);
  }

  // sc_strtod's value of a numeral within reach is the number it denotes.
  lemma ExactOnNumerals(s: string, n: Numeral, rest: string)
    requires Spells(s, n, rest) && WithinReach(n)
    ensures ScanText(s).digits != [] && Computed(ScanText(s)) == Value(n) && ScanText(s).end == |Text(n)|
    ensures -MAX_EXPONENT <= Scale(ScanText(s)) <= MAX_EXPONENT
  {
    hide Computed, Exact, Value, ScanText, Text;
    NumeralScanned(s, n, rest);
    ScanIsValue(n);
    ExactUpTo18(ScanOf(n));
  }

  // --- every text that is read at all begins with a numeral ---

  // A stretch without a point is the text of its digits.
  lemma {:induction false} AllDigits(s: string, i: nat, j: nat)
    requires i <= j <= |s| && forall k :: i <= k < j ==> IsDigit(s[k])
    ensures s[i..j] == DigitText(Digits(s, i, j))
    decreases j - i
  {
    hide IsDigit, DigitText, DigitOf, Glyph, Digits, PointAt, MantissaEnd, DigitsEnd;
    NothingRead(s, i);
    Nothing();
    if i < j {
      AllDigits(s, i + 1, j);
      GlyphOf(s[i]);
      DigitHere(s, i, j, false);
      OneGlyph(DigitOf(s[i]), Digits(s, i + 1, j));
      assert s[i..j] == [s[i]] + s[i + 1..j];
    }
  }

  lemma GlyphOf(c: char)
    requires IsDigit(c)
    ensures Glyph(DigitOf(c)) == c
  {
  }

  lemma OneGlyph(d: nat, rest: seq<nat>)
    ensures DigitText([d] + rest) == [Glyph(d)] + DigitText(rest)
  {
  }

  // The mantissa between i and j, as I.F.
  lemma MantissaSplit(s: string, i: nat, j: nat) returns (whole: seq<nat>, point: bool, part: seq<nat>)
    requires Mantissa(s, i, j)
    ensures AreDigits(whole) && AreDigits(part) && whole + part == Digits(s, i, j) && (part != [] ==> point)
    ensures s[i..j] == DigitText(whole) + PointText(point) + DigitText(part)
    ensures (exists k :: i <= k < j && s[k] == '.') ==> point
  {
    hide IsDigit, DigitText, Digits, PointAt, MantissaEnd, PointText;
    if k :| i <= k < j && s[k] == '.' {
      whole, point, part := Digits(s, i, k), true, Digits(s, k + 1, j);
      SplitAt(s, i, k, j);
    } else {
      whole, point, part := Digits(s, i, j), false, [];
      AllDigits(s, i, j);
      Nothing();
      assert whole + part == whole;
    }
  }

  lemma Nothing()
    ensures DigitText([]) == "" && PointText(false) == ""
  {
  }

  lemma SplitAt(s: string, i: nat, k: nat, j: nat)
    requires Mantissa(s, i, j) && i <= k < j && s[k] == '.'
    ensures Digits(s, i, k) + Digits(s, k + 1, j) == Digits(s, i, j)
    ensures s[i..j] == DigitText(Digits(s, i, k)) + PointText(true) + DigitText(Digits(s, k + 1, j))
  {
    hide IsDigit, DigitText, Digits, PointAt, MantissaEnd;
    AllDigits(s, i, k);
    AllDigits(s, k + 1, j);
    assert Stands(s, k, PointText(true));
    PointRun(s, k, true);
    DigitsApart(s, i, k, j);
    DigitsApart(s, k, k + 1, j);
    assert s[i..j] == s[i..k] + "." + s[k + 1..j];
  }

  function SignOf(s: string, i: nat): Sign {
    if CharAt(s, i) == '-' then Minus else if CharAt(s, i) == '+' then Plus else Bare
  }

  lemma SignHere(s: string, i: nat)
    requires i <= |s|
    ensures Stands(s, i, SignText(SignOf(s, i)))
  {
  }

  lemma {:induction false} DigitsEndIs(s: string, i: nat)
    requires i <= |s|
    ensures i <= DigitsEnd(s, i) <= |s| && !IsDigit(CharAt(s, DigitsEnd(s, i)))
    ensures forall k :: i <= k < DigitsEnd(s, i) ==> IsDigit(s[k])
    decreases |s| - i
  {
    if i < |s| && IsDigit(s[i]) {
      DigitsEndIs(s, i + 1);
    }
  }

  // Whatever follows the mantissa is an exponent or no part of the numeral.
  lemma ExponentFound(s: string, j: nat) returns (e: Exponent, k: nat)
    requires j <= |s|
    ensures j <= k <= |s| && s[j..k] == ExponentText(e)
    ensures e == NoExponent ==> CharAt(s, k) != 'e' && CharAt(s, k) != 'E' && k == j
    ensures match e
            case NoExponent => true
            case Exponent(_, sign, digits) =>
              && AreDigits(digits) && !IsDigit(CharAt(s, k))
              && (digits == [] && sign == Bare ==> CharAt(s, k) != '+' && CharAt(s, k) != '-')
  {
    if CharAt(s, j) == 'e' || CharAt(s, j) == 'E' {
      e, k := SomeExponentFound(s, j);
    } else {
      e, k := NoExponent, j;
    }
  }

  lemma SomeExponentFound(s: string, j: nat) returns (e: Exponent, k: nat)
    requires j < |s| && (CharAt(s, j) == 'e' || CharAt(s, j) == 'E')
    ensures j <= k <= |s| && s[j..k] == ExponentText(e)
    ensures e.Exponent? && AreDigits(e.digits) && !IsDigit(CharAt(s, k))
    ensures e.digits == [] && e.sign == Bare ==> CharAt(s, k) != '+' && CharAt(s, k) != '-'
  {
    hide Digits, DigitsEnd, IsDigit, DigitText, SignText, Stands, AreDigits, SignOf, DigitOf;
    var sign := SignOf(s, j + 1);
    var m := j + 1 + |SignText(sign)|;
    SignHere(s, j + 1);
    StandsIn(s, j + 1, SignText(sign));
    DigitsEndIs(s, m);
    k := DigitsEnd(s, m);
    AllDigits(s, m, k);
    DigitsDigits(s, m, k);
    e := Exponent(CharAt(s, j) == 'E', sign, Digits(s, m, k));
    Glued(s, j, sign, k);
    TextLength(Digits(s, m, k));
    BareSign(s, j + 1);
  }

  lemma BareSign(s: string, i: nat)
    ensures SignOf(s, i) == Bare ==> SignText(SignOf(s, i)) == "" && CharAt(s, i) != '+' && CharAt(s, i) != '-'
  {
  }

  lemma Glued(s: string, j: nat, sign: Sign, k: nat)
    requires var m := j + 1 + |SignText(sign)|; Stands(s, j + 1, SignText(sign)) && m <= k <= |s|
    ensures s[j..k] == [s[j]] + SignText(sign) + s[j + 1 + |SignText(sign)|..k]
  {
    hide SignText;
  }

  lemma {:induction false} MantissaLast(s: string, i: nat, point: bool)
    requires i <= |s|
    ensures var j := MantissaEnd(s, i, point);
            && !IsDigit(CharAt(s, j))
            && (CharAt(s, j) == '.' ==> point || exists k :: i <= k < j && s[k] == '.')
    decreases |s| - i
  {
    var j := MantissaEnd(s, i, point);
    if i < |s| && IsDigit(s[i]) {
      MantissaLast(s, i + 1, point);
    } else if i < |s| && s[i] == '.' && !point {
      MantissaLast(s, i + 1, true);
      MantissaIs(s, i + 1, true);
      assert s[i] == '.' && i < j;
    }
  }

  lemma {:induction false} BlanksAre(s: string, i: nat)
    requires i <= |s|
    ensures i <= Blanks(s, i) <= |s| && forall k :: i <= k < Blanks(s, i) ==> IsSpace(s[k])
    decreases |s| - i
  {
    if i < |s| && IsSpace(s[i]) {
      BlanksAre(s, i + 1);
    }
  }

  lemma MantissaFound(s: string, m: nat) returns (whole: seq<nat>, point: bool, part: seq<nat>)
    requires m <= |s|
    ensures var j := MantissaEnd(s, m, false);
            && m <= j <= |s| && whole + part == Digits(s, m, j)
            && s[m..j] == DigitText(whole) + PointText(point) + DigitText(part)
            && !IsDigit(CharAt(s, j)) && (CharAt(s, j) == '.' ==> point)
    ensures AreDigits(whole) && AreDigits(part) && (part != [] ==> point)
  {
    hide Digits, IsDigit, DigitText, PointText, MantissaEnd, Mantissa, AreDigits;
    var j := MantissaEnd(s, m, false);
    MantissaIs(s, m, false);
    MantissaBounds(s, m, j);
    MantissaLast(s, m, false);
    whole, point, part := MantissaSplit(s, m, j);
  }

  // If the scanner finds digits, the text begins with a numeral.
  lemma NumeralFound(s: string) returns (n: Numeral, rest: string)
    requires ScanText(s).digits != []
    ensures Spells(s, n, rest)
  {
    hide Digits, DigitsEnd, IsDigit, DigitText, SignText, PointText, ExponentText, MantissaEnd, ScanExponent, PointAt, Blanks,
      IsSpace, Mantissa, AreDigits, Stands, Text;
    BlanksAre(s, 0);
    var i := Blanks(s, 0);
    var sign := SignOf(s, i);
    SignHere(s, i);
    SignStands(s, i, sign);
    var m := i + |SignText(sign)|;
    var j := MantissaEnd(s, m, false);
    var whole, point, part := MantissaFound(s, m);
    var e, k := ExponentFound(s, j);
    n, rest := Numeral(s[..i], sign, whole, point, part, e), s[k..];
    Glue(s, i, m, j, k, n);
    Onward(s, k, rest);
  }

  lemma Glue(s: string, i: nat, m: nat, j: nat, k: nat, n: Numeral)
    requires i <= m <= j <= k <= |s| && m == i + |SignText(n.sign)| && n.blanks == s[..i] && Stands(s, i, SignText(n.sign))
    requires s[m..j] == MantissaText(n) && s[j..k] == ExponentText(n.exponent)
    ensures s == Text(n) + s[k..]
  {
    hide SignText, MantissaText, ExponentText;
    assert s == s[..i] + s[i..m] + s[m..j] + s[j..k] + s[k..];
  }

  lemma NotEmpty(n: Numeral)
    requires Good(n)
    ensures Text(n) != ""
  {
    assert |MantissaText(n)| >= |n.whole + n.part|;
  }

  // Text is consumed exactly when it begins with a numeral, and then exactly that numeral is.
  lemma Consumed(s: string)
    ensures ScanText(s).end > 0 <==> exists n, rest :: Spells(s, n, rest)
    ensures ScanText(s).digits != [] <==> exists n, rest :: Spells(s, n, rest)
    ensures forall n, rest :: Spells(s, n, rest) ==>
              && ScanText(s).end == |Text(n)| && ScanText(s).digits != []
              && (WithinReach(n) ==> Computed(ScanText(s)) == Value(n) && -MAX_EXPONENT <= Scale(ScanText(s)) <= MAX_EXPONENT)
  {
    hide Computed, Exact, Value, Text, Spells, WithinReach, Scale;
    forall n, rest | Spells(s, n, rest)
      ensures ScanText(s) == ScanOf(n) && |Text(n)| > 0 && n.whole + n.part != []
      ensures WithinReach(n) ==> Computed(ScanText(s)) == Value(n) && -MAX_EXPONENT <= Scale(ScanText(s)) <= MAX_EXPONENT
    {
      ReadOne(s, n, rest);
    }
    if ScanText(s).digits != [] {
      var n, rest := NumeralFound(s);
    }
  }

  lemma ReadOne(s: string, n: Numeral, rest: string)
    requires Spells(s, n, rest)
    ensures ScanText(s) == ScanOf(n) && |Text(n)| > 0 && n.whole + n.part != []
    ensures WithinReach(n) ==> Computed(ScanText(s)) == Value(n) && -MAX_EXPONENT <= Scale(ScanText(s)) <= MAX_EXPONENT
  {
    hide Computed, Exact, Value, Text, ScanText;
    NumeralScanned(s, n, rest);
    NotEmpty(n);
    if WithinReach(n) {
      ExactOnNumerals(s, n, rest);
    }
  }

  // What a numeral is read as: its sign, its first 18 digits, and ten to the exponent
  // that places them, for which 511 or -511 is taken, and the range error set, if it
  // is beyond that.
  ghost predicate Gives(n: Numeral, value: real, erange: bool) {
    var d := n.whole + n.part;
    var k := if |d| > 18 then 18 else |d|;
    var e := ExponentValue(n.exponent) + |n.whole| - k;
    var m := if n.sign == Minus then -(Num(d[..k]) as real) else Num(d[..k]) as real;
    && (-511 <= e <= 511 ==> value == m * Exp10(e) && !erange)
    && (e > 511 ==> value == m * Pow10(511) as real && erange)
    && (e < -511 ==> value * Pow10(511) as real == m && erange)
  }

  lemma NumeralGives(s: string, n: Numeral, rest: string)
    requires Spells(s, n, rest)
    ensures var x := ScanText(s); Gives(n, Computed(x), Scale(x) > MAX_EXPONENT || Scale(x) < -MAX_EXPONENT)
  {
    hide ScanText, Text, Num, Exp10, ExponentValue, Pow10, Value;
    NumeralScanned(s, n, rest);
    var x := ScanOf(n);
    Power511();
    SignedProduct(n.sign == Minus, Num(x.digits[..Kept(x)]) as real, Exp10(Clamp(Scale(x))));
    TimesInverse(if n.sign == Minus then -(Num(x.digits[..Kept(x)]) as real) else Num(x.digits[..Kept(x)]) as real,
                 Pow10(511) as real);
  }

  lemma Power511()
    ensures Exp10(511) == Pow10(511) as real > 0.0 && Exp10(-511) == 1.0 / Pow10(511) as real
  {
    hide Pow10;
    assert -(-511) == 511;
  }

  lemma SignedProduct(negative: bool, a: real, b: real)
    ensures (if negative then -1.0 else 1.0) * a * b == (if negative then -a else a) * b
  {
  }

  lemma TimesInverse(m: real, p: real)
    requires p > 0.0
    ensures m * (1.0 / p) * p == m
  {
    assert (1.0 / p) * p == 1.0;
  }

  // Beyond 18 digits the value falls short of the numeral's, toward zero, by less than one unit of the 18th digit.
  lemma LongNumerals(s: string, n: Numeral, rest: string)
    requires Spells(s, n, rest) && |n.whole| + |n.part| > 18
    requires -MAX_EXPONENT <= ExponentValue(n.exponent) + |n.whole| - 18 <= MAX_EXPONENT
    ensures var short := (if n.sign == Minus then -1.0 else 1.0) * (Value(n) - Computed(ScanText(s)));
            0.0 <= short < Exp10(ExponentValue(n.exponent) + |n.whole| - 18)
  {
    hide Value, ScanText, Text, Num, Exp10, ExponentValue;
    NumeralScanned(s, n, rest);
    ScanIsValue(n);
    var x := ScanOf(n);
    BothDigits(n);
    TruncationBound(x);
    Regroup(if n.sign == Minus then -1.0 else 1.0, Num(x.digits) as real, Exp10(x.exponent + x.before - |x.digits|),
            Num(x.digits[..18]) as real, Exp10(Clamp(Scale(x))));
  }

  lemma BothDigits(n: Numeral)
    requires Good(n)
    ensures AreDigits(n.whole + n.part)
  {
  }

  lemma Regroup(g: real, a: real, b: real, c: real, d: real)
    requires g == 1.0 || g == -1.0
    ensures g * (g * a * b - g * c * d) == a * b - c * d
  {
    if g == 1.0 {
      assert g * a == a && g * c == c;
    } else {
      assert g * a == -a && g * c == -c;
      assert -a * b == -(a * b) && -c * d == -(c * d);
    }
  }
}
