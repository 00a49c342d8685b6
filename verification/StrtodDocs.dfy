// sc_strtod against the numerals its documentation describes.
module StrtodDocs {
  import opened Strtod

  // The documented form: "E" comes with a digit in X.
  ghost predicate Documented(n: Numeral) {
    Good(n) && (n.exponent.Exponent? ==> n.exponent.digits != [])
  }

  ghost predicate Begins(s: string, n: Numeral) {
    Good(n) && Stands(s, 0, Text(n))
  }

  // The longest documented numeral at the start of s has k characters.
  ghost predicate LongestDocumented(s: string, k: nat) {
    && (exists n :: Documented(n) && Begins(s, n) && |Text(n)| == k)
    && forall n :: Documented(n) && Begins(s, n) ==> |Text(n)| <= k
  }

  function WithoutExponent(n: Numeral): Numeral {
    n.(exponent := NoExponent)
  }

  // Where the mantissa and the exponent begin.
  function MantissaPlace(n: Numeral): nat {
    |n.blanks| + |SignText(n.sign)|
  }

  function ExponentPlace(n: Numeral): nat {
    MantissaPlace(n) + |MantissaText(n)|
  }

  lemma TextEnds(n: Numeral)
    ensures |Text(n)| == ExponentPlace(n) + |ExponentText(n.exponent)|
    ensures |Text(WithoutExponent(n))| == ExponentPlace(n) == ExponentPlace(WithoutExponent(n))
  {
    hide SignText;
    assert MantissaText(WithoutExponent(n)) == MantissaText(n);
    hide MantissaText;
  }

  // --- what the scanner does with a numeral, whatever follows it ---

  // Where the scanner looks for the mantissa.
  function ScanPlace(s: string): nat {
    var i := Blanks(s, 0);
    if CharAt(s, i) == '-' || CharAt(s, i) == '+' then i + 1 else i
  }

  lemma ScanFrom(s: string)
    ensures ScanPlace(s) <= |s|
    ensures var k, m := ScanPlace(s), MantissaEnd(s, ScanPlace(s), false);
            && m <= |s| && ScanText(s).digits == Digits(s, k, m)
            && ScanText(s).end == (if Digits(s, k, m) == [] then 0 else ScanExponent(s, m).1)
  {
    hide Digits, ScanExponent, MantissaEnd, PointAt, Blanks;
    BlanksFit(s, 0);
  }

  // Blanks and sign are passed over, and the mantissa is read to its end at least.
  lemma StartScanned(s: string, n: Numeral)
    requires Begins(s, n)
    ensures var k, m := MantissaPlace(n), MantissaEnd(s, MantissaPlace(n), false);
            && ExponentPlace(n) <= m <= |s| && Digits(s, k, m) != []
            && ScanText(s).digits == Digits(s, k, m) && ScanText(s).end == ScanExponent(s, m).1
  {
    hide Digits, MantissaEnd, ScanExponent, MantissaText, SignText, ExponentText, Stands, Text, ScanText, ScanPlace, Good;
    BeginsParts(s, n);
    PlaceScanned(s, n);
    ScanFrom(s);
    MantissaReaches(s, MantissaPlace(n), n);
  }

  lemma BeginsParts(s: string, n: Numeral)
    requires Begins(s, n)
    ensures Good(n) && Stands(s, MantissaPlace(n), MantissaText(n))
    ensures ExponentPlace(n) + |ExponentText(n.exponent)| == |Text(n)| <= |s|
    ensures s[ExponentPlace(n)..] == ExponentText(n.exponent) + s[|Text(n)|..]
  {
    hide MantissaText, SignText, ExponentText, Stands;
    var rest := Rest(s, n);
    Parts(s, n, rest);
  }

  lemma PlaceScanned(s: string, n: Numeral)
    requires Begins(s, n)
    ensures MantissaPlace(n) == ScanPlace(s)
  {
    hide MantissaText, SignText, ExponentText, Stands, CharAt, Text, Blanks;
    var rest := Rest(s, n);
    Parts(s, n, rest);
    AfterBlanks(s, n);
    BlanksRun(s, 0, |n.blanks|);
    SignStands(s, |n.blanks|, n.sign);
  }

  lemma Rest(s: string, n: Numeral) returns (rest: string)
    requires Begins(s, n)
    ensures |Text(n)| <= |s| && rest == s[|Text(n)|..] && s == Text(n) + rest
  {
    hide Text;
    rest := s[|Text(n)|..];
  }

  lemma MantissaReaches(s: string, i: nat, n: Numeral)
    requires Good(n) && Stands(s, i, MantissaText(n))
    ensures var j, m := i + |MantissaText(n)|, MantissaEnd(s, i, false);
            j <= m <= |s| && Digits(s, i, m) != []
  {
    hide Digits, PointAt, MantissaEnd, IsDigit, Stands, DigitText, DigitsEnd, CharAt;
    var w, p, f := DigitText(n.whole), PointText(n.point), DigitText(n.part);
    StandsBoth(s, i, w + p, f);
    StandsBoth(s, i, w, p);
    StandsIn(s, i, MantissaText(n));
    var a, b := i + |w|, i + |w| + |p|;
    var j, m := b + |f|, MantissaEnd(s, i, false);
    TextLength(n.whole);
    TextLength(n.part);
    DigitsRun(s, i, n.whole, false);
    PointRun(s, a, n.point);
    DigitsRun(s, b, n.part, n.point);
    Onwards(s, j, n.point);
    DigitsApart(s, i, a, m);
    DigitsApart(s, a, b, m);
    DigitsApart(s, b, j, m);
  }

  lemma Onwards(s: string, j: nat, point: bool)
    requires j <= |s|
    ensures j <= MantissaEnd(s, j, point) <= |s|
  {
  }

  // With an exponent behind it the mantissa is read to its end exactly.
  lemma MantissaExact(s: string, n: Numeral)
    requires Begins(s, n) && n.exponent.Exponent?
    ensures MantissaEnd(s, MantissaPlace(n), false) == ExponentPlace(n)
  {
    hide Digits, MantissaEnd, Text, MantissaText, Stands, SignText, ScanText, PointAt;
    BeginsParts(s, n);
    StartScanned(s, n);
    var j := ExponentPlace(n);
    assert s[j] == s[j..][0];
    MantissaRead(s, MantissaPlace(n), n);
  }

  // The exponent is read to its end at least.
  lemma ExponentReaches(s: string, i: nat, e: Exponent, rest: string)
    requires i <= |s| && s[i..] == ExponentText(e) + rest && (e.Exponent? ==> AreDigits(e.digits))
    ensures ScanExponent(s, i).1 >= i + |ExponentText(e)|
  {
    hide Digits, DigitsEnd, Num, IsDigit, DigitText, SignText, ScanExponent, Stands, CharAt, AreDigits, IsSpace, DigitOf,
      PointAt, MantissaEnd;
    ExponentOnwards(s, i);
    if e.Exponent? {
      var m, t, d := if e.capital then "E" else "e", SignText(e.sign), DigitText(e.digits);
      TextLength(e.digits);
      TailParts(s, i, m + t + d, rest);
      StandsBoth(s, i, m + t, d);
      StandsBoth(s, i, m, t);
      MarkStands(s, i, e.capital);
      NoSignText();
      if e.sign != Bare || e.digits != [] {
        SignedReaches(s, i, e.sign, e.digits, rest);
      }
    }
  }

  lemma SignedReaches(s: string, i: nat, sign: Sign, digits: seq<nat>, rest: string)
    requires i < |s| && (CharAt(s, i) == 'E' || CharAt(s, i) == 'e') && AreDigits(digits)
    requires var k := i + 1 + |SignText(sign)|;
             && Stands(s, i + 1, SignText(sign)) && Stands(s, k, DigitText(digits))
             && k + |digits| <= |s| && s[k + |digits|..] == rest
    requires sign != Bare || digits != []
    ensures ScanExponent(s, i).1 >= i + 1 + |SignText(sign)| + |digits|
  {
    hide Digits, DigitsEnd, Num, IsDigit, DigitText, SignText, ScanExponent, Stands, CharAt, AreDigits, IsSpace, DigitOf,
      PointAt, MantissaEnd, Signed;
    var k := i + 1 + |SignText(sign)|;
    NotASign(s, k, digits, rest);
    NoSignText();
    SignStands(s, i + 1, sign);
    ExponentShape(s, i, sign);
    DigitsRun(s, k, digits, false);
    DigitsOnwards(s, k + |digits|);
  }

  lemma ExponentOnwards(s: string, i: nat)
    requires i <= |s|
    ensures ScanExponent(s, i).1 >= i
    ensures CharAt(s, i) == 'E' || CharAt(s, i) == 'e' ==> ScanExponent(s, i).1 >= i + 1
  {
  }

  lemma DigitsOnwards(s: string, i: nat)
    ensures DigitsEnd(s, i) >= i
  {
  }

  // Every numeral at the start of a text is read, and more if it continues.
  lemma Reaches(s: string, n: Numeral)
    requires Begins(s, n)
    ensures ScanText(s).digits != [] && ScanText(s).end >= |Text(n)|
  {
    hide Digits, MantissaEnd, Text, MantissaText, Stands, SignText, ScanText, ScanExponent, ExponentText;
    BeginsParts(s, n);
    StartScanned(s, n);
    TextEnds(n);
    if n.exponent.Exponent? {
      MantissaExact(s, n);
      ExponentReaches(s, ExponentPlace(n), n.exponent, s[|Text(n)|..]);
    } else {
      ExponentOnwards(s, MantissaEnd(s, MantissaPlace(n), false));
      NoExponentText();
    }
  }

  lemma NoExponentText()
    ensures ExponentText(NoExponent) == ""
  {
  }

  // --- the longest documented numeral ---

  // Without digits in X, no documented numeral goes beyond the mantissa.
  lemma OnlyTheMantissa(s: string, n: Numeral, rest: string, d: Numeral)
    requires Spells(s, n, rest) && n.exponent.Exponent? && n.exponent.digits == []
    requires Documented(d) && Begins(s, d)
    ensures |Text(d)| <= ExponentPlace(n)
  {
    hide Digits, MantissaEnd, Text, MantissaText, Stands, SignText, ScanText, ScanExponent, ExponentText, Stops,
      ScanPlace;
    SpellsBegins(s, n, rest);
    BeginsParts(s, n);
    StartScanned(s, n);
    BeginsParts(s, d);
    StartScanned(s, d);
    PlaceScanned(s, n);
    PlaceScanned(s, d);
    MantissaExact(s, n);
    TextEnds(d);
    if d.exponent.Exponent? {
      MantissaExact(s, d);
      var j := ExponentPlace(n);
      ExponentReaches(s, j, d.exponent, s[|Text(d)|..]);
      SpellsTail(s, n, rest);
      ExponentRead(s, j, n, rest);
      DigitOrSign(s[j..], n.exponent, rest, d.exponent, s[|Text(d)|..]);
    } else {
      NoExponentText();
    }
  }

  lemma SpellsBegins(s: string, n: Numeral, rest: string)
    requires Spells(s, n, rest)
    ensures Begins(s, n) && |Text(n)| <= |s| && rest == s[|Text(n)|..]
  {
    hide Text, Stops;
  }

  lemma SpellsTail(s: string, n: Numeral, rest: string)
    requires Spells(s, n, rest)
    ensures ExponentPlace(n) <= |s| && s[ExponentPlace(n)..] == ExponentText(n.exponent) + rest
  {
    hide SignText, MantissaText, ExponentText, Stops, Stands;
    Parts(s, n, rest);
  }

  // Where one exponent has a sign and ends, the other has no digit.
  lemma DigitOrSign(t: string, e: Exponent, rest: string, d: Exponent, other: string)
    requires e.Exponent? && e.digits == [] && t == ExponentText(e) + rest
    requires d.Exponent? && d.digits != [] && AreDigits(d.digits) && t == ExponentText(d) + other
    ensures |ExponentText(d)| > |ExponentText(e)|
  {
    SignSecond(e, rest);
    DigitSecond(d, other);
  }

  lemma SignSecond(e: Exponent, rest: string)
    requires e.Exponent?
    ensures e.sign != Bare ==> !IsDigit(CharAt(ExponentText(e) + rest, 1))
  {
  }

  lemma DigitSecond(d: Exponent, other: string)
    requires d.Exponent? && d.digits != [] && AreDigits(d.digits)
    ensures d.sign == Bare ==> IsDigit(CharAt(ExponentText(d) + other, 1))
  {
    GlyphDigit(d.digits[0]);
  }

  // The longest documented numeral is the one read, less an exponent without digits.
  lemma DocumentedLength(s: string, n: Numeral, rest: string)
    requires Spells(s, n, rest)
    ensures LongestDocumented(s, if Documented(n) then |Text(n)| else ExponentPlace(n))
  {
    hide Text, Stops, Stands, ScanText, MantissaText, ExponentText, SignText;
    SpellsBegins(s, n, rest);
    if Documented(n) {
      forall d | Documented(d) && Begins(s, d)
        ensures |Text(d)| <= |Text(n)|
      {
        Reaches(s, d);
        NumeralScanned(s, n, rest);
      }
    } else {
      var w := WithoutExponent(n);
      TextEnds(n);
      ShorterBegins(s, n);
      forall d | Documented(d) && Begins(s, d)
        ensures |Text(d)| <= ExponentPlace(n)
      {
        OnlyTheMantissa(s, n, rest, d);
      }
      assert Documented(w) && Begins(s, w) && |Text(w)| == ExponentPlace(n);
    }
  }

  lemma ShorterBegins(s: string, n: Numeral)
    requires Begins(s, n)
    ensures Begins(s, WithoutExponent(n))
  {
    var w := WithoutExponent(n);
    assert Good(w);
    assert Text(n) == Text(w) + ExponentText(n.exponent) by {
      assert MantissaText(w) == MantissaText(n);
      hide MantissaText, SignText;
    }
    hide Text, Good;
    StandsBoth(s, 0, Text(w), ExponentText(n.exponent));
  }

  lemma OneLongest(s: string, j: nat, k: nat)
    requires LongestDocumented(s, j) && LongestDocumented(s, k)
    ensures j == k
  {
    hide Documented, Begins, Text;
  }

  // The code reads what its documentation says if and only if "E" comes with a
  // digit, or not at all; otherwise it consumes the exponent's text as well.
  // The value is the documented one in either case.
  lemma FollowsDocumentation(s: string, n: Numeral, rest: string)
    requires Spells(s, n, rest)
    ensures LongestDocumented(s, ScanText(s).end) <==> n.exponent == NoExponent || n.exponent.digits != []
    ensures !Documented(n) ==>
              && ScanText(s).end == ExponentPlace(n) + |ExponentText(n.exponent)|
              && LongestDocumented(s, ExponentPlace(n)) && Value(WithoutExponent(n)) == Value(n)
  {
    hide Text, Stops, ScanText, MantissaText, SignText, ExponentText, LongestDocumented, Value, ExponentPlace;
    DocumentedLength(s, n, rest);
    NumeralScanned(s, n, rest);
    TextEnds(n);
    if !Documented(n) {
      SomeExponentText(n.exponent);
      SameValue(n);
      if LongestDocumented(s, ScanText(s).end) {
        OneLongest(s, ScanText(s).end, ExponentPlace(n));
        assert false;
      }
    }
  }

  lemma SomeExponentText(e: Exponent)
    requires e.Exponent?
    ensures |ExponentText(e)| > 0
  {
  }

  lemma SameValue(n: Numeral)
    requires n.exponent.Exponent? && n.exponent.digits == []
    ensures Value(WithoutExponent(n)) == Value(n)
  {
    hide Num, Exp10;
    NoDigits();
  }

  // A text at which no number is read begins with no documented numeral.
  lemma NothingMissed(s: string, n: Numeral)
    requires ScanText(s).end == 0
    ensures !Begins(s, n)
  {
    hide ScanText, Text, Begins;
    if Begins(s, n) {
      Reaches(s, n);
      assert Good(n) by {
        BeginsGood(s, n);
      }
      NotEmpty(n);
    }
  }

  lemma BeginsGood(s: string, n: Numeral)
    requires Begins(s, n)
    ensures Good(n)
  {
  }

  // "1e": both characters are consumed, and the documented numeral is "1".
  lemma ExponentWithoutDigits()
    ensures ScanText("1e").end == 2 && LongestDocumented("1e", 1) && !LongestDocumented("1e", 2)
  {
    var n := Numeral("", Bare, [1], false, [], Exponent(false, Bare, []));
    assert DigitText([1]) == "1" && DigitText([]) == "";
    assert Text(n) == "1e" && "1e" == Text(n) + "";
    assert Spells("1e", n, "");
    assert |ExponentText(n.exponent)| == 1;
    hide ScanText, LongestDocumented, Spells;
    NumeralScanned("1e", n, "");
    FollowsDocumentation("1e", n, "");
  }

  // --- neither I nor F ---

  // The documentation lets both I and F be left out.
  ghost predicate Digitless(n: Numeral) {
    && (forall k :: 0 <= k < |n.blanks| ==> IsSpace(n.blanks[k]))
    && n.whole == [] && n.part == []
    && (n.exponent.Exponent? ==> AreDigits(n.exponent.digits) && n.exponent.digits != [])
  }

  // What follows does not continue it.
  ghost predicate Ends(n: Numeral, rest: string) {
    var c := CharAt(rest, 0);
    && !IsDigit(c)
    && (n.exponent == NoExponent ==> c != 'e' && c != 'E' && (c == '.' ==> n.point))
    && (n.exponent == NoExponent && !n.point ==> (n.sign == Bare ==> !IsSpace(c) && c != '-' && c != '+'))
  }

  // The code consumes nothing of it, which is as documented only if there is nothing.
  lemma NeitherIsRead(s: string, n: Numeral, rest: string)
    requires Digitless(n) && Ends(n, rest) && s == Text(n) + rest
    ensures ScanText(s).digits == [] && ScanText(s).end == 0
    ensures ScanText(s).end == |Text(n)| <==> n == Numeral("", Bare, [], false, [], NoExponent)
  {
    hide Digits, MantissaEnd, ScanExponent, Stands, ScanText, ScanPlace, IsDigit, ExponentText, Digitless, Ends, CharAt, Text,
      SignText, IsSpace;
    DigitlessParts(s, n, rest);
    DigitlessPlace(s, n, rest);
    ScanFrom(s);
    NoMantissa(s, MantissaPlace(n), n.point);
    DigitlessText(n);
  }

  lemma DigitlessPlace(s: string, n: Numeral, rest: string)
    requires Digitless(n) && Ends(n, rest) && s == Text(n) + rest
    ensures ScanPlace(s) == MantissaPlace(n)
  {
    hide Stands, Digitless, Ends, CharAt, Text, IsSpace, Blanks, PointText, IsDigit;
    DigitlessParts(s, n, rest);
    DigitlessBlanks(s, n, rest);
    BlanksRun(s, 0, |n.blanks|);
    SignStands(s, |n.blanks|, n.sign);
  }

  lemma DigitlessText(n: Numeral)
    requires Digitless(n)
    ensures |Text(n)| == 0 <==> n == Numeral("", Bare, [], false, [], NoExponent)
  {
  }

  lemma DigitlessBlanks(s: string, n: Numeral, rest: string)
    requires Digitless(n) && s == Text(n) + rest
    ensures forall m :: 0 <= m < |n.blanks| ==> IsSpace(s[m])
  {
    forall m | 0 <= m < |n.blanks|
      ensures IsSpace(s[m])
    {
      assert s[m] == n.blanks[m];
    }
  }

  lemma DigitlessParts(s: string, n: Numeral, rest: string)
    requires Digitless(n) && Ends(n, rest) && s == Text(n) + rest
    ensures var i, k := |n.blanks|, MantissaPlace(n);
            && i <= k <= |s| && !IsSpace(CharAt(s, i)) && Stands(s, i, SignText(n.sign)) && Stands(s, k, PointText(n.point))
            && (n.sign == Bare ==> CharAt(s, i) != '-' && CharAt(s, i) != '+')
            && var j := k + |PointText(n.point)|;
               !IsDigit(CharAt(s, j)) && (CharAt(s, j) == '.' ==> n.point)
  {
    hide IsDigit, Stands, Digitless, Ends, CharAt, SignText, PointText, IsSpace, Text, ExponentText;
    DigitlessPlaces(s, n, rest);
    ExponentStart(n, rest);
    if n.sign != Bare {
      SignIsNoSpace(s, |n.blanks|, n.sign);
    } else {
      NoSignText();
      if n.point {
        PointIsNoSpace(s, |n.blanks|);
      } else {
        NoPointText();
      }
    }
  }

  lemma NoPointText()
    ensures PointText(false) == ""
  {
  }

  lemma SignIsNoSpace(s: string, i: nat, sign: Sign)
    requires Stands(s, i, SignText(sign)) && sign != Bare
    ensures !IsSpace(CharAt(s, i))
  {
    SignStands(s, i, sign);
    hide Stands, SignText;
  }

  lemma PointIsNoSpace(s: string, i: nat)
    requires Stands(s, i, PointText(true))
    ensures !IsSpace(CharAt(s, i)) && CharAt(s, i) != '-' && CharAt(s, i) != '+'
  {
    assert s[i] == s[i..i + 1][0];
  }

  // What stands where, and what comes behind the point.
  lemma DigitlessPlaces(s: string, n: Numeral, rest: string)
    requires Digitless(n) && s == Text(n) + rest
    ensures var i, k := |n.blanks|, MantissaPlace(n);
            && i <= k <= |s| && Stands(s, i, SignText(n.sign)) && Stands(s, k, PointText(n.point))
            && CharAt(s, k + |PointText(n.point)|) == CharAt(ExponentText(n.exponent) + rest, 0)
  {
    EmptyMantissa(n);
    hide Stands, Digitless, CharAt, SignText, PointText, Text, ExponentText, MantissaText;
    var j := MantissaPlace(n) + |PointText(n.point)|;
    Parts(s, n, rest);
    Onward(s, j, ExponentText(n.exponent) + rest);
  }

  lemma EmptyMantissa(n: Numeral)
    requires n.whole == [] && n.part == []
    ensures MantissaText(n) == PointText(n.point)
  {
  }

  lemma ExponentStart(n: Numeral, rest: string)
    requires Digitless(n) && Ends(n, rest)
    ensures var c := CharAt(ExponentText(n.exponent) + rest, 0);
            && !IsDigit(c) && (c == '.' ==> n.point)
            && (!n.point && n.sign == Bare ==> !IsSpace(c) && c != '-' && c != '+')
  {
    if n.exponent.Exponent? {
      assert (ExponentText(n.exponent) + rest)[0] == if n.exponent.capital then 'E' else 'e';
    } else {
      assert ExponentText(n.exponent) + rest == rest;
    }
  }

  lemma NoMantissa(s: string, k: nat, point: bool)
    requires k <= |s| && Stands(s, k, PointText(point))
    requires var j := k + |PointText(point)|; !IsDigit(CharAt(s, j)) && (CharAt(s, j) == '.' ==> point)
    ensures var m := MantissaEnd(s, k, false); m <= |s| && Digits(s, k, m) == []
  {
    hide Digits, PointAt, MantissaEnd, IsDigit, CharAt;
    var j := k + |PointText(point)|;
    PointRun(s, k, point);
    MantissaStops(s, j, point);
  }

  // ".": nothing is consumed.
  lemma PointAlone()
    ensures ScanText(".").end == 0
  {
    var n := Numeral("", Bare, [], true, [], NoExponent);
    assert DigitText([]) == "";
    assert Text(n) == "." && "." == Text(n) + "";
    hide ScanText;
    NeitherIsRead(".", n, "");
  }

  // Blanks of every kind, a sign, both parts, an exponent and a rest: -12.5e1 is -125.
  method ReadSample() returns (value: real, end: nat, erange: bool)
    ensures value == -125.0 && end == 13 && !erange
  {
    var s := " \t\n\r" + [11 as char, 12 as char] + "-12.5e1" + "e2";
    ghost var n := Numeral(" \t\n\r" + [11 as char, 12 as char], Minus, [1, 2], true, [5], Exponent(false, Bare, [1]));
    SampleText(n);
    assert s == Text(n) + "e2";
    assert Spells(s, n, "e2");
    value, end, erange := SC_Strtod(s);
    SampleValue(n);
  }

  lemma SampleText(n: Numeral)
    requires n == Numeral(" \t\n\r" + [11 as char, 12 as char], Minus, [1, 2], true, [5], Exponent(false, Bare, [1]))
    ensures Text(n) == " \t\n\r" + [11 as char, 12 as char] + "-12.5e1" && |Text(n)| == 13 && Good(n) && Stops(n, "e2")
  {
    assert DigitText([1, 2]) == "12" && DigitText([5]) == "5" && DigitText([1]) == "1";
    assert MantissaText(n) == "12.5" && ExponentText(n.exponent) == "e1";
  }

  lemma SampleValue(n: Numeral)
    requires n.sign == Minus && n.whole == [1, 2] && n.part == [5] && n.exponent == Exponent(false, Bare, [1])
    ensures WithinReach(n) && Value(n) == -125.0
  {
    OneDigit(1);
    OneDigit(5);
    LastDigit([1], 2);
    assert [1] + [2] == [1, 2];
    assert Pow10(1) == 10;
    assert Exp10(-1) == 1.0 / 10.0 && Exp10(1) == 10.0;
  }
}
