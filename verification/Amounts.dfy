/** apps/web/src/lib/amounts.ts: exact conversion between base units and decimal text. */
module Amounts {
  import opened Clarity
  import opened Numbers
  import opened Text

  /** `/^\d*\.?\d*$/` */
  predicate MatchesDecimal(s: string) {
    var i := IndexOf(s, '.');
    AllDigits(s[..i]) && (i < |s| ==> AllDigits(s[i + 1..]))
  }

  function ParseUnits(input: string, decimals: nat): Option<nat> {
    var s := Trim(input);
    if !MatchesDecimal(s) || s == "" || s == "." then None
    else
      var i := IndexOf(s, '.');
      var whole := s[..i];
      var frac := if i < |s| then s[i + 1..] else "";
      if |frac| > decimals then None
      else
        ValueOfPadded(frac, decimals);
        ValueOfConcat(if whole == "" then "0" else whole, PadEnd(frac, decimals));
        Some(Value((if whole == "" then "0" else whole) + PadEnd(frac, decimals)))
  }

  /** Thousands separators, as `toLocaleString("en-US")` writes them. */
  function Grouped(s: string): string {
    if |s| <= 3 then s else Grouped(s[..|s| - 3]) + "," + s[|s| - 3..]
  }

  /** The fractional digits of `rest` in units of 10^-decimals, without trailing zeros. */
  function FractionText(rest: nat, decimals: nat): string {
    TrimZeros(PadStart(Digits(rest), decimals))
  }

  function Magnitude(value: int): nat {
    if value < 0 then -value else value
  }

  /** Sign, grouped whole part, point, fraction. */
  function Assembled(negative: bool, whole: string, frac: string): string {
    (if negative then "-" else "") + whole + (if frac != "" then "." + frac else "")
  }

  function FormatUnits(value: int, decimals: nat, minFraction: nat): string {
    var abs, base := Magnitude(value), Pow10(decimals);
    Assembled(value < 0, Grouped(Digits(Quotient(abs, base))),
              PadEnd(FractionText(Remainder(abs, base), decimals), minFraction))
  }

  function WithoutComma(c: char): string {
    if c == ',' then [] else [c]
  }

  /** `s.replace(/,/g, "")` */
  function WithoutCommas(s: string): string {
    if s == [] then [] else WithoutComma(s[0]) + WithoutCommas(s[1..])
  }

  function BpsToPct(bps: nat): string {
    Digits(Quotient(bps, 100)) + "." + PadStart(Digits(Remainder(bps, 100)), 2)
  }

  function PctToBps(pct: string): Option<nat> {
    match ParseUnits(pct, 2)
    case Some(v) => Some(NearestDouble(v))
    case None => None
  }

  // ---- What the parser accepts, and what it makes of it ----

  /** `s` is the numeral with these digits before and after the point. */
  predicate Spells(s: string, whole: string, frac: string, dotted: bool) {
    && AllDigits(whole) && AllDigits(frac)
    && (dotted || frac == "")
    && whole + frac != ""
    && s == whole + (if dotted then "." + frac else "")
  }

  lemma SpellingIsUnique(s: string, whole: string, frac: string, dotted: bool)
    requires Spells(s, whole, frac, dotted)
    ensures IndexOf(s, '.') == |whole| && dotted == (IndexOf(s, '.') < |s|)
    ensures whole == s[..IndexOf(s, '.')] && (dotted ==> frac == s[IndexOf(s, '.') + 1..])
  {
    var i := IndexOf(s, '.');
    assert forall j :: 0 <= j < |whole| ==> s[j] == whole[j];
    if dotted {
      assert s[|whole|] == '.';
    }
  }

  /** The exact value of a numeral in units of 10^-decimals. */
  function Denotes(whole: string, frac: string, decimals: nat): nat
    requires AllDigits(whole) && AllDigits(frac) && |frac| <= decimals
  {
    Value(whole) * Pow10(decimals) + Value(frac) * Pow10(decimals - |frac|)
  }

  /** Exactly the plain non-negative numerals with at most `decimals` fractional
      digits are accepted, and what they parse to is their decimal value, exactly. */
  lemma ParseIsExact(input: string, decimals: nat, v: nat)
    ensures ParseUnits(input, decimals) == Some(v) <==>
      exists whole, frac, dotted ::
        Spells(Trim(input), whole, frac, dotted) && |frac| <= decimals && v == Denotes(whole, frac, decimals)
  {
    var s := Trim(input);
    if ParseUnits(input, decimals) == Some(v) {
      var whole, frac, dotted := AcceptedIsSpelled(input, decimals);
      SpelledIsAccepted(input, whole, frac, dotted, decimals);
    }
    if whole: string, frac: string, dotted: bool :|
      Spells(s, whole, frac, dotted) && |frac| <= decimals && v == Denotes(whole, frac, decimals)
    {
      SpelledIsAccepted(input, whole, frac, dotted, decimals);
    }
  }

  lemma AcceptedIsSpelled(input: string, decimals: nat) returns (whole: string, frac: string, dotted: bool)
    requires ParseUnits(input, decimals).Some?
    ensures Spells(Trim(input), whole, frac, dotted) && |frac| <= decimals
  {
    hide Trim, IndexOf, Value, PadEnd, MatchesDecimal, Spells;
    var s := Trim(input);
    var i := IndexOf(s, '.');
    whole, dotted := s[..i], i < |s|;
    frac := if dotted then s[i + 1..] else "";
    CutAtPoint(s);
  }

  lemma CutAtPoint(s: string)
    requires MatchesDecimal(s) && s != "" && s != "."
    ensures var i := IndexOf(s, '.');
            Spells(s, s[..i], if i < |s| then s[i + 1..] else "", i < |s|)
  {
    hide IndexOf, AllDigits;
    var i := IndexOf(s, '.');
    NoDigits();
    if i < |s| {
      Pieces(s, i);
    } else {
      assert s == s[..i];
    }
  }

  lemma NoDigits()
    ensures AllDigits("")
  {
  }

  lemma Pieces(s: string, i: nat)
    requires i < |s|
    ensures s == s[..i] + ([s[i]] + s[i + 1..])
    ensures s[..i] + s[i + 1..] == "" ==> s == [s[i]]
  {
    assert |s[..i] + s[i + 1..]| == |s| - 1;
  }

  lemma SpelledIsAccepted(input: string, whole: string, frac: string, dotted: bool, decimals: nat)
    requires Spells(Trim(input), whole, frac, dotted) && |frac| <= decimals
    ensures ParseUnits(input, decimals) == Some(Denotes(whole, frac, decimals))
  {
    var s := Trim(input);
    SpellingIsUnique(s, whole, frac, dotted);
    PaddedValue(whole, frac, decimals);
    assert s != "" && s != ".";
    hide Value, Pow10, Denotes, PadEnd, Trim;
  }

  lemma PaddedValue(whole: string, frac: string, decimals: nat)
    requires AllDigits(whole) && AllDigits(frac) && |frac| <= decimals
    ensures AllDigits((if whole == "" then "0" else whole) + PadEnd(frac, decimals))
    ensures Value((if whole == "" then "0" else whole) + PadEnd(frac, decimals)) == Denotes(whole, frac, decimals)
  {
    ValueOfPadded(frac, decimals);
    ValueOfConcat(if whole == "" then "0" else whole, PadEnd(frac, decimals));
    assert Value("0") == 0 by { assert "0"[..0] == ""; }
  }

  /** A numeral with too many fractional digits is refused, never rounded. */
  lemma TooManyDigitsRefused(input: string, whole: string, frac: string, decimals: nat)
    requires Spells(Trim(input), whole, frac, true) && |frac| > decimals
    ensures ParseUnits(input, decimals) == None
  {
    SpellingIsUnique(Trim(input), whole, frac, true);
  }

  // ---- Print, then parse ----

  lemma WithoutCommasStep(c: char, s: string)
    ensures WithoutCommas([c] + s) == WithoutComma(c) + WithoutCommas(s)
  {
    assert ([c] + s)[1..] == s;
  }

  lemma {:induction false} WithoutCommasConcat(a: string, b: string)
    ensures WithoutCommas(a + b) == WithoutCommas(a) + WithoutCommas(b)
  {
    if a == [] {
      assert a + b == b;
    } else {
      hide WithoutCommas, WithoutComma;
      var c, rest := a[0], a[1..];
      WithoutCommasConcat(rest, b);
      WithoutCommasStep(c, rest);
      WithoutCommasStep(c, rest + b);
      Associate([c], rest, b);
      Associate(WithoutComma(c), WithoutCommas(rest), WithoutCommas(b));
      assert a == [c] + rest;
    }
  }

  lemma {:induction false} NoCommas(s: string)
    requires forall i :: 0 <= i < |s| ==> s[i] != ','
    ensures WithoutCommas(s) == s
  {
    if s != [] {
      NoCommas(s[1..]);
    }
  }

  lemma CommaVanishes()
    ensures WithoutCommas(",") == ""
  {
    assert ","[1..] == "";
  }

  lemma OneGroup(grouped: string, head: string, tail: string)
    requires WithoutCommas(grouped) == head && WithoutCommas(tail) == tail
    ensures WithoutCommas(grouped + "," + tail) == head + tail
  {
    hide WithoutCommas;
    CommaVanishes();
    WithoutCommasConcat(grouped + ",", tail);
    WithoutCommasConcat(grouped, ",");
  }

  lemma {:induction false} UngroupGrouped(s: string)
    requires AllDigits(s)
    ensures WithoutCommas(Grouped(s)) == s
  {
    if |s| <= 3 {
      NoCommas(s);
    } else {
      var head, tail := s[..|s| - 3], s[|s| - 3..];
      UngroupGrouped(head);
      NoCommas(tail);
      assert s == head + tail;
      OneGroup(Grouped(head), head, tail);
    }
  }

  /** The fractional text, padded back, is the remainder it was printed from. */
  lemma FractionTextValue(rest: nat, decimals: nat)
    requires rest < Pow10(decimals)
    ensures var t := FractionText(rest, decimals);
            AllDigits(t) && |t| <= decimals && Value(t) * Pow10(decimals - |t|) == rest
  {
    hide PadStart, PadEnd, TrimZeros, Digits, Value, Pow10;
    var padded := PadStart(Digits(rest), decimals);
    var t := FractionText(rest, decimals);
    ValueOfDigits(rest);
    ValueOfPadded(Digits(rest), decimals);
    PadUndoesTrim(padded);
    if decimals == 0 {
      NoFraction(rest);
    } else {
      DigitsFit(rest, decimals);
      PaddedLength(Digits(rest), decimals);
      PrefixIsDigits(padded, t);
      ValueOfPadded(t, decimals);
    }
  }

  lemma NoFraction(rest: nat)
    requires rest < Pow10(0)
    ensures FractionText(rest, 0) == "" && rest == 0 && Value("") == 0
  {
    assert TrimZeros("0") == "" by { assert "0"[..0] == ""; }
  }

  lemma PaddedLength(s: string, n: nat)
    ensures |s| <= n ==> |PadStart(s, n)| == n
    ensures |PadEnd(s, n)| >= n
  {
  }

  lemma PrefixIsDigits(s: string, t: string)
    requires AllDigits(s) && |t| <= |s| && t == s[..|t|]
    ensures AllDigits(t)
  {
  }

  lemma AssembledWithoutCommas(negative: bool, whole: string, frac: string)
    requires AllDigits(whole) && AllDigits(frac)
    ensures WithoutCommas(Assembled(negative, Grouped(whole), frac)) == Assembled(negative, whole, frac)
  {
    var sign := if negative then "-" else "";
    var tail := if frac != "" then "." + frac else "";
    WithoutCommasConcat(sign + Grouped(whole), tail);
    WithoutCommasConcat(sign, Grouped(whole));
    NoCommas(sign);
    UngroupGrouped(whole);
    NoCommas(tail);
  }

  /** No leading zero before the point; behind it at least `minFraction` digits, and no
      more of them than needed. */
  predicate IsCanonical(whole: string, frac: string, minFraction: nat) {
    && whole != "" && (whole[0] == '0' ==> whole == "0")
    && |frac| >= minFraction && (|frac| > minFraction ==> frac[|frac| - 1] != '0')
  }

  lemma {:induction false} NoLeadingZero(n: nat)
    ensures Digits(n)[0] == '0' ==> Digits(n) == "0"
    ensures n > 0 ==> Digits(n)[0] != '0'
  {
    if n >= 10 {
      NoLeadingZero(n / 10);
      assert Digits(n)[0] == Digits(n / 10)[0];
    }
  }

  lemma FractionEnds(rest: nat, decimals: nat)
    ensures var short := FractionText(rest, decimals); short != "" ==> short[|short| - 1] != '0'
  {
  }

  lemma TrimmedFraction(short: string, minFraction: nat)
    requires short != "" ==> short[|short| - 1] != '0'
    ensures var frac := PadEnd(short, minFraction);
            |frac| >= minFraction && (|frac| > minFraction ==> frac[|frac| - 1] != '0')
  {
  }

  /** The character `j` places from the right end. */
  function FromRight(s: string, j: nat): char
    requires j < |s|
  {
    s[|s| - 1 - j]
  }

  /** Separators stand after every third digit from the right, and nowhere else. */
  ghost predicate GroupedByThree(g: string) {
    g != "" && |g| % 4 != 0 && forall j: nat :: j < |g| ==> (FromRight(g, j) == ',' <==> j % 4 == 3)
  }

  lemma {:induction false} SeparatorsEveryThree(s: string)
    requires AllDigits(s) && s != ""
    ensures GroupedByThree(Grouped(s))
  {
    if |s| > 3 {
      var head, tail := s[..|s| - 3], s[|s| - 3..];
      SeparatorsEveryThree(head);
      hide Grouped;
      AppendedGroup(Grouped(head), tail);
    }
  }

  lemma AppendedGroup(h: string, tail: string)
    requires GroupedByThree(h) && |tail| == 3 && AllDigits(tail)
    ensures GroupedByThree(h + "," + tail)
  {
    var g := h + "," + tail;
    forall j: nat | j < |g|
      ensures FromRight(g, j) == ',' <==> j % 4 == 3
    {
      if j < 3 {
        assert FromRight(g, j) == tail[2 - j] && IsDigit(tail[2 - j]);
      } else if j > 3 {
        assert FromRight(g, j) == FromRight(h, j - 4);
        assert (j - 4) % 4 == j % 4;
      }
    }
  }

  /** The printed text, for every amount, number of decimals and padding: sign, digits
      without a leading zero in groups of three, and a fraction that is no longer than
      needed and stands for exactly the remainder. */
  lemma PrintIsExact(value: int, decimals: nat, minFraction: nat) returns (whole: string, frac: string)
    ensures AllDigits(whole) && AllDigits(frac) && IsCanonical(whole, frac, minFraction)
    ensures FormatUnits(value, decimals, minFraction)
         == (if value < 0 then "-" else "") + Grouped(whole) + (if frac != "" then "." + frac else "")
    ensures GroupedByThree(Grouped(whole)) && WithoutCommas(Grouped(whole)) == whole
    ensures minFraction <= decimals ==> |frac| <= decimals && Denotes(whole, frac, decimals) == Magnitude(value)
  {
    whole, frac := FormattedText(value, decimals, minFraction);
    SeparatorsEveryThree(whole);
    UngroupGrouped(whole);
    hide FormatUnits, Denotes, IsCanonical, Grouped, WithoutCommas;
  }

  /** A percentage is printed with exactly two digits after the point. */
  lemma PercentText(bps: nat) returns (whole: string, frac: string)
    ensures BpsToPct(bps) == whole + "." + frac && |frac| == 2
    ensures AllDigits(whole) && AllDigits(frac) && whole != "" && (whole[0] == '0' ==> whole == "0")
    ensures Value(whole) * 100 + Value(frac) == bps
  {
    whole, frac := Digits(Quotient(bps, 100)), PadStart(Digits(Remainder(bps, 100)), 2);
    assert Pow10(2) == 100 by { assert Pow10(1) == 10; }
    DigitsFit(Remainder(bps, 100), 2);
    ValueOfDigits(Quotient(bps, 100));
    ValueOfDigits(Remainder(bps, 100));
    ValueOfPadded(Digits(Remainder(bps, 100)), 2);
    NoLeadingZero(Quotient(bps, 100));
    PaddedLength(Digits(Remainder(bps, 100)), 2);
    hide Digits, Value, Pow10;
  }

  /** The printed text without its separators, and what its fraction is worth. */
  lemma FormattedText(value: int, decimals: nat, minFraction: nat) returns (whole: string, frac: string)
    ensures AllDigits(whole) && whole != "" && AllDigits(frac)
    ensures WithoutCommas(FormatUnits(value, decimals, minFraction)) == Assembled(value < 0, whole, frac)
    ensures FormatUnits(value, decimals, minFraction) == Assembled(value < 0, Grouped(whole), frac)
    ensures IsCanonical(whole, frac, minFraction)
    ensures if minFraction <= decimals then |frac| <= decimals && Denotes(whole, frac, decimals) == Magnitude(value)
            else |frac| > decimals
  {
    hide FractionText, Grouped, Digits, Value, Pow10, PadEnd, WithoutCommas;
    var abs, base := Magnitude(value), Pow10(decimals);
    var short := FractionText(Remainder(abs, base), decimals);
    whole, frac := Digits(Quotient(abs, base)), PadEnd(short, minFraction);
    FractionTextValue(Remainder(abs, base), decimals);
    ValueOfPadded(short, minFraction);
    PaddedLength(short, minFraction);
    AssembledWithoutCommas(value < 0, whole, frac);
    ValueOfDigits(Quotient(abs, base));
    NoLeadingZero(Quotient(abs, base));
    FractionEnds(Remainder(abs, base), decimals);
    TrimmedFraction(short, minFraction);
    if minFraction <= decimals {
      PaddedFraction(short, frac, minFraction, decimals);
    }
  }

  /** Printing an amount and parsing the text, separators removed, gives the amount
      back, for every amount and every number of decimals. Forcing more fractional
      digits than the asset has makes the text unparseable. */
  lemma PrintThenParse(value: nat, decimals: nat, minFraction: nat)
    ensures ParseUnits(WithoutCommas(FormatUnits(value, decimals, minFraction)), decimals)
         == if minFraction <= decimals then Some(value) else None
  {
    var whole, frac := FormattedText(value, decimals, minFraction);
    hide FormatUnits;
    AssembledSpells(whole, frac);
    if minFraction <= decimals {
      SpelledIsAccepted(Assembled(false, whole, frac), whole, frac, frac != "", decimals);
    } else {
      TooManyDigitsRefused(Assembled(false, whole, frac), whole, frac, decimals);
    }
  }

  lemma AssembledSpells(whole: string, frac: string)
    requires AllDigits(whole) && whole != "" && AllDigits(frac)
    ensures Spells(Trim(Assembled(false, whole, frac)), whole, frac, frac != "")
  {
    var text := Assembled(false, whole, frac);
    assert text == whole + (if frac != "" then "." + frac else "");
    NumeralIsTrimmed(text, whole, frac);
  }

  lemma NumeralIsTrimmed(text: string, whole: string, frac: string)
    requires whole != "" && Spells(text, whole, frac, frac != "")
    ensures Trim(text) == text
  {
    assert text[0] == whole[0];
    assert text[|text| - 1] == if frac != "" then frac[|frac| - 1] else whole[|whole| - 1];
    TrimNothing(text);
  }

  lemma PaddedFraction(short: string, frac: string, minFraction: nat, decimals: nat)
    requires AllDigits(short) && AllDigits(frac) && frac == PadEnd(short, minFraction)
    requires |short| <= decimals && minFraction <= decimals
    ensures |frac| <= decimals && Value(frac) * Pow10(decimals - |frac|) == Value(short) * Pow10(decimals - |short|)
  {
    hide Value, Pow10, Zeros;
    if |short| < minFraction {
      ValueOfPadded(short, minFraction);
      Pow10Sum(minFraction - |short|, decimals - minFraction);
      assert Value(short) * Pow10(minFraction - |short|) * Pow10(decimals - minFraction)
          == Value(short) * (Pow10(minFraction - |short|) * Pow10(decimals - minFraction));
    }
  }

  lemma {:induction false} Pow10Sum(a: nat, b: nat)
    ensures Pow10(a) * Pow10(b) == Pow10(a + b)
  {
    if a > 0 {
      Pow10Sum(a - 1, b);
    }
  }

  /** A negative amount prints with a sign, which the parser refuses. */
  lemma NegativeIsRefused(value: int, decimals: nat, minFraction: nat)
    requires value < 0
    ensures ParseUnits(WithoutCommas(FormatUnits(value, decimals, minFraction)), decimals) == None
  {
    var whole, frac := FormattedText(value, decimals, minFraction);
    hide FormatUnits;
    var text := Assembled(true, whole, frac);
    assert text[0] == '-';
    assert text[|text| - 1] == if frac != "" then frac[|frac| - 1] else whole[|whole| - 1];
    TrimNothing(text);
    assert !AllDigits(text[..IndexOf(text, '.')]) by { assert text[..IndexOf(text, '.')][0] == '-'; }
  }

  /** Percentages survive the round trip; a number too large for a double comes back rounded. */
  lemma PercentRoundTrip(bps: nat)
    ensures PctToBps(BpsToPct(bps)) == Some(NearestDouble(bps))
    ensures bps <= TWO53 ==> PctToBps(BpsToPct(bps)) == Some(bps)
  {
    var whole, frac := Digits(Quotient(bps, 100)), PadStart(Digits(Remainder(bps, 100)), 2);
    assert Pow10(2) == 100 by { assert Pow10(1) == 10; }
    DigitsFit(Remainder(bps, 100), 2);
    ValueOfDigits(Quotient(bps, 100));
    ValueOfDigits(Remainder(bps, 100));
    ValueOfPadded(Digits(Remainder(bps, 100)), 2);
    assert BpsToPct(bps) == Assembled(false, whole, frac);
    AssembledSpells(whole, frac);
    SpelledIsAccepted(BpsToPct(bps), whole, frac, true, 2);
    assert Denotes(whole, frac, 2) == bps;
    if bps <= TWO53 {
      SmallIsExact(bps);
    }
  }
}
