/** The string operations the TypeScript code relies on, and decimal numerals. */
module Text {
  import Pricing

  // ---- trim ----

  /** The characters String.prototype.trim removes. */
  predicate IsSpace(c: char) {
    var n := c as int;
    || 9 <= n <= 13 || n == 0x20 || n == 0xA0 || n == 0x1680 || 0x2000 <= n <= 0x200A
    || n == 0x2028 || n == 0x2029 || n == 0x202F || n == 0x205F || n == 0x3000 || n == 0xFEFF
  }

  function TrimStart(s: string): string {
    if s != [] && IsSpace(s[0]) then TrimStart(s[1..]) else s
  }

  function TrimEnd(s: string): string {
    if s != [] && IsSpace(s[|s| - 1]) then TrimEnd(s[..|s| - 1]) else s
  }

  function Trim(s: string): string {
    TrimEnd(TrimStart(s))
  }

  lemma TrimNothing(s: string)
    requires s != [] ==> !IsSpace(s[0]) && !IsSpace(s[|s| - 1])
    ensures Trim(s) == s
  {
  }

  predicate AllSpaces(s: string) {
    forall i :: 0 <= i < |s| ==> IsSpace(s[i])
  }

  lemma {:induction false} TrimStartCuts(s: string) returns (before: string)
    ensures AllSpaces(before) && s == before + TrimStart(s)
    ensures TrimStart(s) != "" ==> !IsSpace(TrimStart(s)[0])
  {
    before := "";
    if s != [] && IsSpace(s[0]) {
      var rest := TrimStartCuts(s[1..]);
      before := [s[0]] + rest;
      assert s == [s[0]] + s[1..];
    }
  }

  lemma {:induction false} TrimEndCuts(s: string) returns (after: string)
    ensures AllSpaces(after) && s == TrimEnd(s) + after
    ensures TrimEnd(s) != "" ==> !IsSpace(TrimEnd(s)[|TrimEnd(s)| - 1])
  {
    after := "";
    if s != [] && IsSpace(s[|s| - 1]) {
      var rest := TrimEndCuts(s[..|s| - 1]);
      after := rest + [s[|s| - 1]];
      assert s == s[..|s| - 1] + [s[|s| - 1]];
    }
  }

  /** Trimming takes off exactly the spaces at both ends. */
  lemma TrimIsExact(s: string) returns (before: string, after: string)
    ensures s == before + Trim(s) + after && AllSpaces(before) && AllSpaces(after)
    ensures Trim(s) != "" ==> !IsSpace(Trim(s)[0]) && !IsSpace(Trim(s)[|Trim(s)| - 1])
  {
    before := TrimStartCuts(s);
    after := TrimEndCuts(TrimStart(s));
    hide TrimStart, TrimEnd;
    Associate(before, Trim(s), after);
    if Trim(s) != "" {
      assert TrimStart(s)[0] == Trim(s)[0];
    }
  }

  lemma {:induction false} TrimStartDrops(before: string, rest: string)
    requires AllSpaces(before) && (rest != "" ==> !IsSpace(rest[0]))
    ensures TrimStart(before + rest) == rest
  {
    if before == "" {
      assert before + rest == rest;
    } else {
      TrimStartDrops(before[1..], rest);
      assert (before + rest)[1..] == before[1..] + rest;
    }
  }

  lemma {:induction false} TrimEndDrops(rest: string, after: string)
    requires AllSpaces(after) && (rest != "" ==> !IsSpace(rest[|rest| - 1]))
    ensures TrimEnd(rest + after) == rest
  {
    if after == "" {
      assert rest + after == rest;
    } else {
      var s := rest + after;
      TrimEndDrops(rest, after[..|after| - 1]);
      assert s[..|s| - 1] == rest + after[..|after| - 1];
    }
  }

  /** Nothing else is left when the spaces are off. */
  lemma TrimIsUnique(before: string, s: string, after: string)
    requires AllSpaces(before) && AllSpaces(after) && s != "" && !IsSpace(s[0]) && !IsSpace(s[|s| - 1])
    ensures Trim(before + s + after) == s
  {
    Associate(before, s, after);
    TrimStartDrops(before, s + after);
    TrimEndDrops(s, after);
    hide TrimStart, TrimEnd;
  }

  // ---- Decimal numerals ----

  predicate IsDigit(c: char) {
    '0' <= c <= '9'
  }

  predicate AllDigits(s: string) {
    forall i :: 0 <= i < |s| ==> IsDigit(s[i])
  }

  function Pow10(n: nat): (p: nat)
    ensures p > 0
  {
    if n == 0 then 1 else 10 * Pow10(n - 1)
  }

  function DigitChar(d: nat): (c: char)
    requires d < 10
    ensures IsDigit(c) && c as int - '0' as int == d
  {
    ('0' as int + d) as char
  }

  /** `n.toString()` of a non-negative integer. */
  function Digits(n: nat): (s: string)
    ensures s != [] && AllDigits(s)
  {
    if n < 10 then [DigitChar(n)] else Digits(n / 10) + [DigitChar(n % 10)]
  }

  /** `BigInt(s)` of a string of digits; the empty string is 0. */
  function Value(s: string): nat
    requires AllDigits(s)
  {
    if s == [] then 0 else 10 * Value(s[..|s| - 1]) + (s[|s| - 1] as int - '0' as int)
  }

  lemma {:induction false} ValueOfDigits(n: nat)
    ensures Value(Digits(n)) == n
  {
    if n >= 10 {
      ValueOfDigits(n / 10);
      assert Digits(n)[..|Digits(n)| - 1] == Digits(n / 10);
    }
  }

  lemma Associate<T>(x: seq<T>, y: seq<T>, z: seq<T>)
    ensures x + (y + z) == (x + y) + z
  {
  }

  lemma ValueOfSnoc(s: string, c: char)
    requires AllDigits(s) && IsDigit(c)
    ensures AllDigits(s + [c]) && Value(s + [c]) == 10 * Value(s) + (c as int - '0' as int)
  {
    assert (s + [c])[..|s|] == s;
  }

  lemma {:induction false} ValueOfConcat(a: string, b: string)
    requires AllDigits(a) && AllDigits(b)
    ensures AllDigits(a + b) && Value(a + b) == Value(a) * Pow10(|b|) + Value(b)
  {
    hide Value, Pow10, AllDigits;
    if b == [] {
      assert a + b == a;
      ValueOfNothing();
    } else {
      var b0, c := b[..|b| - 1], b[|b| - 1];
      SplitDigits(b);
      ValueOfConcat(a, b0);
      ShiftedSum(Value(a), |b0|);
      Associate(a, b0, [c]);
      ValueOfSnoc(a + b0, c);
      ValueOfSnoc(b0, c);
    }
  }

  lemma ValueOfNothing()
    ensures AllDigits("") && Value("") == 0 && Pow10(0) == 1
  {
  }

  lemma SplitDigits(b: string)
    requires b != [] && AllDigits(b)
    ensures AllDigits(b[..|b| - 1]) && IsDigit(b[|b| - 1]) && b == b[..|b| - 1] + [b[|b| - 1]]
  {
  }

  lemma ShiftedSum(v: nat, n: nat)
    ensures v * Pow10(n + 1) == 10 * (v * Pow10(n))
  {
  }

  lemma {:induction false} ValueBelow(s: string)
    requires AllDigits(s)
    ensures Value(s) < Pow10(|s|)
  {
    if s != [] {
      ValueBelow(s[..|s| - 1]);
    }
  }

  lemma {:induction false} DigitsFit(n: nat, d: nat)
    requires n < Pow10(d) && d > 0
    ensures |Digits(n)| <= d
  {
    if n >= 10 {
      assert d > 1;
      DigitsFit(n / 10, d - 1);
    }
  }

  /** Quotient and remainder of non-negative integers. */
  function Quotient(n: nat, d: nat): nat
    requires d > 0
  {
    n / d
  }

  function Remainder(n: nat, d: nat): (r: nat)
    requires d > 0
    ensures r < d && n == Quotient(n, d) * d + r
  {
    Pricing.FloorBounds(n, d);
    n - (n / d) * d
  }

  // ---- Padding with zeros ----

  function Zeros(n: nat): (s: string)
    ensures |s| == n && AllDigits(s) && (forall i :: 0 <= i < n ==> s[i] == '0')
  {
    seq(n, _ => '0')
  }

  function PadStart(s: string, n: nat): string {
    if |s| < n then Zeros(n - |s|) + s else s
  }

  function PadEnd(s: string, n: nat): string {
    if |s| < n then s + Zeros(n - |s|) else s
  }

  /** `s.replace(/0+$/, "")` */
  function TrimZeros(s: string): (t: string)
    ensures |t| <= |s| && t == s[..|t|]
    ensures t != [] ==> t[|t| - 1] != '0'
  {
    if s != [] && s[|s| - 1] == '0' then TrimZeros(s[..|s| - 1]) else s
  }

  lemma {:induction false} ValueOfZeros(n: nat)
    ensures Value(Zeros(n)) == 0
  {
    if n > 0 {
      ValueOfZeros(n - 1);
      assert Zeros(n)[..n - 1] == Zeros(n - 1);
    }
  }

  lemma ValueOfPadded(s: string, n: nat)
    requires AllDigits(s)
    ensures AllDigits(PadStart(s, n)) && Value(PadStart(s, n)) == Value(s)
    ensures AllDigits(PadEnd(s, n)) && (|s| <= n ==> Value(PadEnd(s, n)) == Value(s) * Pow10(n - |s|))
  {
    if |s| < n {
      ValueOfZeros(n - |s|);
      ValueOfConcat(Zeros(n - |s|), s);
      ValueOfConcat(s, Zeros(n - |s|));
    }
  }

  /** What trimming removes, padding puts back. */
  lemma {:induction false} PadUndoesTrim(s: string)
    ensures PadEnd(TrimZeros(s), |s|) == s
  {
    if s != [] && s[|s| - 1] == '0' {
      var s0 := s[..|s| - 1];
      PadUndoesTrim(s0);
      PadOneMore(TrimZeros(s0), |s0|);
      hide PadEnd;
      assert s == s0 + ['0'];
    }
  }

  lemma PadOneMore(t: string, n: nat)
    requires |t| <= n
    ensures PadEnd(t, n + 1) == PadEnd(t, n) + ['0']
  {
    assert Zeros(n + 1 - |t|) == Zeros(n - |t|) + ['0'];
    hide Zeros;
    Associate(t, Zeros(n - |t|), ['0']);
    assert |t| == n ==> t + Zeros(0) == t;
  }

  // ---- Searching ----

  /** The index of the first `c`, or the length of `s`. */
  function IndexOf(s: string, c: char): (i: nat)
    ensures i <= |s|
    ensures forall j :: 0 <= j < i ==> s[j] != c
    ensures i < |s| ==> s[i] == c
  {
    if s == [] || s[0] == c then 0 else 1 + IndexOf(s[1..], c)
  }
}
