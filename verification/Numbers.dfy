/** Non-negative integers as JavaScript numbers: `Number(n)` of an exact integer is
    the nearest double, ties to even. Exact below 2^53, which is where the
    TypeScript side and the contracts can come apart. (The contracts' integers
    stay far below the largest double.) */
module Numbers {
  import opened Clarity
  import Pricing

  const TWO53: nat := 0x20_0000_0000_0000

  /** The distance between neighbouring doubles at `n`. */
  function Spacing(n: nat): (u: nat)
    ensures u > 0
  {
    if n < TWO53 then 1 else 2 * Spacing(n / 2)
  }

  /** The nearest multiple of `u`, ties to the even one. */
  function Rounded(n: nat, u: nat): nat
    requires u > 0
  {
    var q, r := n / u, n % u;
    if 2 * r < u || (2 * r == u && q % 2 == 0) then q * u else (q + 1) * u
  }

  /** `Number(n)` */
  function NearestDouble(n: nat): nat {
    Rounded(n, Spacing(n))
  }

  predicate IsDouble(n: nat) {
    n % Spacing(n) == 0
  }

  lemma SmallIsExact(n: nat)
    requires n <= TWO53
    ensures NearestDouble(n) == n && IsDouble(n)
  {
  }

  /** Spacings only grow, and by whole factors. */
  lemma {:induction false} SpacingDivides(a: nat, b: nat)
    requires a <= b
    ensures Spacing(b) % Spacing(a) == 0
    decreases b
  {
    if b >= TWO53 && a >= TWO53 {
      SpacingDivides(a / 2, b / 2);
      DoubledDivides(Spacing(b / 2), Spacing(a / 2));
    }
  }

  lemma DoubledDivides(x: nat, y: nat)
    requires y > 0 && x % y == 0
    ensures (2 * x) % (2 * y) == 0
  {
    var k := x / y;
    assert 2 * x == k * (2 * y);
    MultipleOf(k, 2 * y);
  }

  lemma MultipleOf(k: nat, d: nat)
    requires d > 0
    ensures (k * d) % d == 0 && (k * d) / d == k
  {
    var x := k * d;
    Pricing.FloorIsLargest(x, d, k);
    Pricing.FloorIsBelow(x, d, k + 1);
    DivisionParts(x, d);
  }

  lemma DivisionParts(x: nat, d: nat)
    requires d > 0
    ensures x == (x / d) * d + x % d
  {
  }

  /** A multiple of a multiple. */
  lemma DividesTransitive(x: nat, y: nat, z: nat)
    requires z > 0 && y > 0 && x % y == 0 && y % z == 0
    ensures x % z == 0
  {
    var k, l := x / y, y / z;
    assert x == k * y == k * (l * z) == (k * l) * z;
    MultipleOf(k * l, z);
  }

  /** Above 2^53 a double has 53 significant bits. */
  lemma {:induction false} SpacingBounds(n: nat)
    requires n >= TWO53
    ensures Spacing(n) >= 2 && Spacing(n) % 2 == 0
    ensures (TWO53 / 2) * Spacing(n) <= n
    ensures n < 2 * TWO53 ==> Spacing(n) == 2
    ensures n >= 2 * TWO53 ==> Spacing(n) >= 4
  {
    if n / 2 >= TWO53 {
      SpacingBounds(n / 2);
    }
  }

  /** Rounding down stays in the same binade. */
  lemma {:induction false} FloorKeepsSpacing(n: nat)
    ensures var u := Spacing(n); Spacing((n / u) * u) == u
  {
    if n >= TWO53 {
      var u, v := Spacing(n), Spacing(n / 2);
      var x := (n / u) * u;
      SpacingBounds(n);
      Pricing.FloorIsLargest(n, u, TWO53 / 2);
      Pricing.MulLe(TWO53 / 2, n / u, u);
      Pricing.MulLe(2, u, TWO53 / 2);
      assert x >= TWO53;
      FloorKeepsSpacing(n / 2);
      HalfFloor(n, v);
    }
  }

  lemma HalfQuotient(n: nat, v: nat)
    requires v > 0
    ensures n / (2 * v) == (n / 2) / v
  {
    var q, d := n / (2 * v), 2 * v;
    Pricing.FloorBounds(n, d);
    assert q * d == 2 * (q * v) && (q + 1) * d == 2 * ((q + 1) * v);
    Pricing.FloorIsLargest(n / 2, v, q);
    Pricing.FloorIsBelow(n / 2, v, q + 1);
  }

  lemma HalfFloor(n: nat, v: nat)
    requires v > 0
    ensures ((n / (2 * v)) * (2 * v)) / 2 == ((n / 2) / v) * v
  {
    var q := n / (2 * v);
    HalfQuotient(n, v);
    assert q * (2 * v) == (q * v) * 2;
  }

  /** Rounding down gives a double, and numbers that round down round to it. */
  lemma RoundedDownIsDouble(n: nat)
    requires NearestDouble(n) <= n
    ensures IsDouble(NearestDouble(n)) && NearestDouble(NearestDouble(n)) == NearestDouble(n)
    ensures Spacing(NearestDouble(n)) == Spacing(n) && NearestDouble(n) == (n / Spacing(n)) * Spacing(n)
  {
    var u := Spacing(n);
    Pricing.FloorBounds(n, u);
    FloorKeepsSpacing(n);
    MultipleOf(n / u, u);
  }

  /** No double is nearer to an integer than the one it is rounded to. */
  lemma NearestIsNearest(n: nat, c: nat)
    requires IsDouble(c)
    ensures c >= n ==> NearestDouble(n) - n <= c - n && n - NearestDouble(n) <= c - n
    ensures c <= n ==> NearestDouble(n) - n <= n - c && n - NearestDouble(n) <= n - c
  {
    var u, q := Spacing(n), n / Spacing(n);
    Pricing.FloorBounds(n, u);
    RoundedToNeighbour(n, u);
    if c > q * u {
      FloorKeepsSpacing(n);
      SpacingDivides(q * u, c);
      DividesTransitive(c, Spacing(c), u);
      MultipleAbove(c, q, u);
    }
    hide Spacing, Rounded, IsDouble;
  }

  /** Half-way between two doubles, the one with the even mantissa is taken. */
  lemma TiesToEven(n: nat)
    requires 2 * (n % Spacing(n)) == Spacing(n)
    ensures (NearestDouble(n) / Spacing(n)) % 2 == 0 && NearestDouble(n) % Spacing(n) == 0
  {
    TieRounded(n, Spacing(n));
    hide Spacing, Rounded;
  }

  lemma TieRounded(n: nat, u: nat)
    requires u > 0 && 2 * (n % u) == u
    ensures (Rounded(n, u) / u) % 2 == 0 && Rounded(n, u) % u == 0
  {
    var q := n / u;
    MultipleOf(q, u);
    MultipleOf(q + 1, u);
    assert Rounded(n, u) == if q % 2 == 0 then q * u else (q + 1) * u;
    hide Rounded;
  }

  lemma RoundedToNeighbour(n: nat, u: nat)
    requires u > 0
    ensures var low, high := (n / u) * u, (n / u + 1) * u;
            && (Rounded(n, u) == low || Rounded(n, u) == high)
            && (Rounded(n, u) == low ==> n - low <= high - n)
            && (Rounded(n, u) == high ==> high - n <= n - low)
  {
    Pricing.FloorBounds(n, u);
    DivisionParts(n, u);
  }

  lemma MultipleAbove(c: nat, q: nat, u: nat)
    requires u > 0 && c % u == 0 && c > q * u
    ensures c >= (q + 1) * u
  {
    var k := c / u;
    DivisionParts(c, u);
    Pricing.CancelLt(q, k, u);
    Pricing.MulLe(q + 1, k, u);
  }

  /** No double lies strictly between an integer and the double it rounds up to. */
  lemma NoDoubleBetween(n: nat, c: nat)
    requires IsDouble(c) && n <= c
    ensures NearestDouble(n) <= c
  {
    NearestIsNearest(n, c);
    hide NearestDouble, IsDouble;
  }

  /** `Number(last) + 1` in double arithmetic. */
  function Successor(last: nat): nat {
    NearestDouble(NearestDouble(last) + 1)
  }

  /** Adding one to a double above 2^53 does nothing, except in the first binade,
      where an odd mantissa is rounded up by two. */
  lemma SuccessorOfDouble(x: nat)
    requires x >= TWO53 && IsDouble(x)
    ensures Successor(x) == (if Spacing(x) == 2 && x % 4 == 2 then x + 2 else x)
    ensures NearestDouble(x) == x
  {
    var u := Spacing(x);
    SpacingBounds(x);
    DividesTransitive(x, u, 2);
    SpacingOfNext(x);
    var q := x / u;
    assert x == q * u;
    RoundedNearMultiple(q, u);
    SuccessorFromRounding(x, u, q);
  }

  lemma SuccessorFromRounding(x: nat, u: nat, q: nat)
    requires u >= 2 && x == q * u && Spacing(x) == u && Spacing(x + 1) == u
    requires Rounded(q * u, u) == q * u
    requires Rounded(q * u + 1, u) == if u == 2 && q % 2 == 1 then q * u + 2 else q * u
    ensures Successor(x) == (if u == 2 && x % 4 == 2 then x + 2 else x) && NearestDouble(x) == x
  {
    hide Spacing, Rounded;
    assert NearestDouble(x) == x;
    assert NearestDouble(x + 1) == Rounded(q * u + 1, u);
    if u == 2 {
      assert x == 2 * q;
    }
  }

  lemma RoundedNearMultiple(q: nat, u: nat)
    requires u >= 2 && u % 2 == 0
    ensures Rounded(q * u, u) == q * u
    ensures Rounded(q * u + 1, u) == if u == 2 && q % 2 == 1 then q * u + 2 else q * u
  {
    MultipleOf(q, u);
    Pricing.FloorIsLargest(q * u + 1, u, q);
    Pricing.FloorIsBelow(q * u + 1, u, q + 1);
    assert (q * u + 1) / u == q && (q * u + 1) % u == 1;
    assert (q + 1) * u == q * u + u;
  }

  lemma {:induction false} SpacingOfNext(x: nat)
    requires x >= TWO53 && x % 2 == 0
    ensures Spacing(x + 1) == Spacing(x)
  {
    assert (x + 1) / 2 == x / 2;
  }

  /** When the successor of a nonce is really larger: always below 2^53; above,
      only when the nonce is rounded up, or is an odd multiple of two below 2^54. */
  predicate Advances(last: nat) {
    last < TWO53 || NearestDouble(last) > last || (last < 2 * TWO53 && last % 4 == 2)
  }

  lemma SuccessorAdvancesIff(last: nat)
    ensures last < TWO53 ==> Successor(last) == last + 1
    ensures Successor(last) > last <==> Advances(last)
  {
    hide Spacing, Rounded;
    if last < TWO53 {
      SmallIsExact(last);
      SmallIsExact(last + 1);
    } else if NearestDouble(last) <= last {
      RoundedDownIsDouble(last);
      LargeDouble(last);
      SuccessorOfDouble(NearestDouble(last));
      SuccessorOfRounded(last);
      FirstBinade(last);
    } else {
      RoundedUpIsDouble(last);
      SuccessorOfDouble(NearestDouble(last));
      SuccessorOfRounded(last);
    }
  }

  /** Adding one starts from the rounded nonce. */
  lemma SuccessorOfRounded(last: nat)
    requires NearestDouble(NearestDouble(last)) == NearestDouble(last)
    ensures Successor(last) == Successor(NearestDouble(last))
  {
    hide Spacing, Rounded, NearestDouble;
  }

  lemma LargeDouble(last: nat)
    requires last >= TWO53
    ensures (last / Spacing(last)) * Spacing(last) >= TWO53
  {
    var u := Spacing(last);
    SpacingBounds(last);
    Pricing.FloorIsLargest(last, u, TWO53 / 2);
    Pricing.MulLe(TWO53 / 2, last / u, u);
    Pricing.MulLe(2, u, TWO53 / 2);
  }

  lemma FirstBinade(last: nat)
    requires last >= TWO53 && NearestDouble(last) <= last
    ensures var x := NearestDouble(last);
            Spacing(x) == 2 && x % 4 == 2 <==> last < 2 * TWO53 && last % 4 == 2
    ensures last < 2 * TWO53 && NearestDouble(last) % 4 == 2 ==> NearestDouble(last) == last
  {
    SpacingBounds(last);
    RoundedDownIsDouble(last);
  }

  lemma RoundedUpIsDouble(n: nat)
    requires n >= TWO53 && NearestDouble(n) > n
    ensures NearestDouble(n) >= TWO53 && IsDouble(NearestDouble(n))
  {
    UpSpacing(n);
    RoundedUp(n, Spacing(n));
    hide Spacing, Rounded;
  }

  lemma RoundedUp(n: nat, u: nat)
    requires u > 0 && Rounded(n, u) > n
    ensures Rounded(n, u) == (n / u + 1) * u
  {
    Pricing.FloorBounds(n, u);
  }

  /** The next multiple of the spacing is a double even when it starts a new binade. */
  lemma {:induction false} UpSpacing(n: nat)
    ensures var u := Spacing(n); IsDouble((n / u + 1) * u)
  {
    var u := Spacing(n);
    if n < TWO53 {
      SmallIsExact(n + 1);
    } else {
      var v := Spacing(n / 2);
      UpSpacing(n / 2);
      HalfCeil(n, v);
      var c := (n / u + 1) * u;
      Pricing.FloorBounds(n, u);
      assert c == 2 * (((n / 2) / v + 1) * v);
      var d := ((n / 2) / v + 1) * v;
      assert Spacing(c) == 2 * Spacing(d);
      DoubledDivides(d, Spacing(d));
    }
  }

  lemma HalfCeil(n: nat, v: nat)
    requires v > 0
    ensures (n / (2 * v) + 1) * (2 * v) == 2 * (((n / 2) / v + 1) * v)
  {
    HalfQuotient(n, v);
    var p := n / (2 * v) + 1;
    assert p * (2 * v) == 2 * (p * v);
  }

  // ---- Some doubles far out ----

  function Pow2(k: nat): (p: nat)
    ensures p > 0
  {
    if k == 0 then 1 else 2 * Pow2(k - 1)
  }

  lemma {:induction false} Pow2Sum(a: nat, b: nat)
    ensures Pow2(a + b) == Pow2(a) * Pow2(b)
  {
    if a > 0 {
      Pow2Sum(a - 1, b);
      assert Pow2(a + b) == 2 * Pow2(a - 1 + b);
    }
  }

  lemma Pow2Values()
    ensures Pow2(17) == 0x2_0000 && Pow2(75) == 0x800_0000_0000_0000_0000 && Pow2(76) == 0x1000_0000_0000_0000_0000
  {
    hide Pow2;
    SmallPowers();
    Product(4, 4, 16, 16);
    Product(8, 8, 256, 256);
    Product(16, 1, 0x1_0000, 2);
    Product(16, 16, 0x1_0000, 0x1_0000);
    Product(32, 32, 0x1_0000_0000, 0x1_0000_0000);
    Product(64, 8, 0x1_0000_0000_0000_0000, 256);
    Product(72, 3, 0x100_0000_0000_0000_0000, 8);
    Product(72, 4, 0x100_0000_0000_0000_0000, 16);
  }

  lemma SmallPowers()
    ensures Pow2(1) == 2 && Pow2(3) == 8 && Pow2(4) == 16
  {
    assert Pow2(2) == 4;
  }

  lemma Product(a: nat, b: nat, x: nat, y: nat)
    requires Pow2(a) == x && Pow2(b) == y
    ensures Pow2(a + b) == x * y
  {
    Pow2Sum(a, b);
  }

  /** In the binade of 2^(52 + k) the spacing is 2^k. */
  lemma {:induction false} SpacingInBinade(n: nat, k: nat)
    requires (TWO53 / 2) * Pow2(k) <= n < TWO53 * Pow2(k)
    ensures Spacing(n) == Pow2(k)
  {
    if k > 0 {
      assert Pow2(k) == 2 * Pow2(k - 1);
      assert n >= TWO53;
      SpacingInBinade(n / 2, k - 1);
    }
  }

  /** 10^21, the first number JavaScript prints with an exponent, is a double. */
  lemma TenTo21()
    ensures IsDouble(1_000_000_000_000_000_000_000)
  {
    Pow2Values();
    SpacingInBinade(1_000_000_000_000_000_000_000, 17);
  }

  /** The largest Clarity uint is no double: it rounds up to 2^128, and adding one
      stays there. */
  lemma LargestUint()
    ensures NearestDouble(UINT_MAX) == UINT_MAX + 1 && IsDouble(UINT_MAX + 1)
    ensures NearestDouble(UINT_MAX + 1) == UINT_MAX + 1 && Successor(UINT_MAX) == UINT_MAX + 1
  {
    Pow2Values();
    SpacingInBinade(UINT_MAX, 75);
    SpacingInBinade(UINT_MAX + 1, 76);
    SuccessorOfDouble(UINT_MAX + 1);
  }

  /** 2^53 + 1, the first integer that is no double, rounds down. */
  lemma FirstInexact()
    ensures NearestDouble(TWO53 + 1) == TWO53
  {
    SpacingBounds(TWO53 + 1);
  }
}
