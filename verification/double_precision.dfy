/** Integers rounded to double precision, as a JSON decoder does that reads numbers into generic values
    (internal/approvalauthority/handler.go): which integers survive, and which stand for themselves alone. */
module DoublePrecision {

  const PRECISION := 0x20_0000_0000_0000

  function Abs(n: int): nat {
    if n < 0 then -n else n
  }

  /** The distance between neighbouring doubles at n: 1 below 2^53, and then twice as much for each further power. */
  function Unit(n: nat): (u: nat)
    ensures u >= 1
  {
    if n < PRECISION then 1 else 2 * Unit(n / 2)
  }

  /** To the nearest multiple of the unit, and to an even one if there are two. */
  function Nearest(n: nat): int {
    var u := Unit(n);
    var q, r := n / u, n % u;
    if 2 * r < u || (2 * r == u && q % 2 == 0) then q * u else (q + 1) * u
  }

  function Rounded(n: int): int {
    if n >= 0 then Nearest(n) else -Nearest(-n)
  }

  /** A number a double can hold. */
  predicate Exact(n: int) {
    Abs(n) % Unit(Abs(n)) == 0
  }

  lemma {:induction false} TimesGrows(a: nat, b: nat, u: nat)
    requires a <= b
    ensures a * u <= b * u
  {
    if a < b {
      TimesGrows(a, b - 1, u);
      assert b * u == (b - 1) * u + u;
    }
  }

  lemma TimesCancels(a: nat, b: nat, u: nat)
    requires a * u < b * u
    ensures a < b
  {
    if a >= b { TimesGrows(b, a, u); }
  }

  lemma DivMod(n: nat, u: nat)
    requires u >= 1
    ensures n == n / u * u + n % u && 0 <= n % u < u
  {
  }

  /** Rounding moves a number by at most half a unit, and leaves exactly the exact ones alone. */
  lemma RoundedIsNear(n: int)
    ensures 2 * Abs(Rounded(n) - n) <= Unit(Abs(n))
    ensures Rounded(n) == n <==> Exact(n)
  {
    var m := Abs(n);
    var u := Unit(m);
    DivMod(m, u);
    assert (m / u + 1) * u == m / u * u + u;
  }

  lemma SmallIsExact(n: int)
    requires Abs(n) <= PRECISION
    ensures Exact(n)
  {
    if Abs(n) == PRECISION { assert Unit(PRECISION / 2) == 1; }
  }

  // ----- Binades: stretches with one unit -----

  /** A power of two. */
  predicate Power(u: nat) {
    u == 1 || (u >= 2 && u % 2 == 0 && Power(u / 2))
  }

  /** The numbers with more than 53 binary digits whose unit is u. */
  predicate InBinade(n: nat, u: nat) {
    u >= 2 && PRECISION / 2 * u <= n < PRECISION * u
  }

  lemma {:induction false} UnitOfLarge(n: nat)
    requires n >= PRECISION
    ensures Power(Unit(n)) && InBinade(n, Unit(n))
  {
    if n / 2 >= PRECISION {
      UnitOfLarge(n / 2);
      var v := Unit(n / 2);
      assert PRECISION / 2 * v <= n / 2 < PRECISION * v;
      assert PRECISION / 2 * (2 * v) <= n < PRECISION * (2 * v);
    } else {
      assert Unit(n / 2) == 1;
    }
  }

  lemma {:induction false} UnitInBinade(n: nat, u: nat)
    requires Power(u) && InBinade(n, u)
    ensures Unit(n) == u
  {
    var v := u / 2;
    if v == 1 {
      assert Unit(n / 2) == 1;
    } else {
      assert u == 2 * v;
      assert PRECISION / 2 * v <= n / 2 < PRECISION * v;
      UnitInBinade(n / 2, v);
    }
  }

  lemma QuotientInBinade(n: nat, u: nat)
    requires InBinade(n, u)
    ensures PRECISION / 2 <= n / u < PRECISION
  {
    DivMod(n, u);
    var q := n / u;
    assert (q + 1) * u == q * u + u;
    TimesCancels(PRECISION / 2, q + 1, u);
    TimesCancels(q, PRECISION, u);
  }

  lemma QuotientOf(n: nat, q: nat, u: nat, r: nat)
    requires n == q * u + r && r < u
    ensures n / u == q && n % u == r
  {
    DivMod(n, u);
    var k := n / u;
    assert (k + 1) * u == k * u + u && (q + 1) * u == q * u + u;
    TimesCancels(q, k + 1, u);
    TimesCancels(k, q + 1, u);
  }

  /** Multiples of the unit in a binade are exact. */
  lemma MultipleInBinade(q: nat, u: nat)
    requires Power(u) && u >= 2 && PRECISION / 2 <= q < PRECISION
    ensures Exact(q * u)
  {
    hide Power;
    TimesGrows(PRECISION / 2, q, u);
    TimesGrows(q + 1, PRECISION, u);
    assert (q + 1) * u == q * u + u;
    UnitInBinade(q * u, u);
    QuotientOf(q * u, q, u, 0);
  }

  lemma Doubled(u: nat)
    requires Power(u) && u >= 1
    ensures Power(2 * u)
  {
  }

  /** Multiples of the unit in a binade, and the number that ends it, are exact. */
  lemma MultipleIsExact(q: nat, u: nat)
    requires Power(u) && u >= 2 && PRECISION / 2 <= q <= PRECISION
    ensures Exact(q * u)
  {
    hide Power, Exact;
    if q < PRECISION {
      MultipleInBinade(q, u);
    } else {
      Doubled(u);
      MultipleInBinade(PRECISION / 2, 2 * u);
      assert q * u == PRECISION / 2 * (2 * u);
    }
  }

  /** What rounding gives is exact, so rounding again changes nothing. */
  lemma RoundedIsExact(n: int)
    ensures Exact(Rounded(n)) && Rounded(Rounded(n)) == Rounded(n)
  {
    hide Exact;
    var m := Abs(n);
    NearestIsExact(m);
    RoundedIsNear(Nearest(m));
    NegatedExact(Nearest(m));
  }

  lemma NegatedExact(n: int)
    requires n >= 0
    ensures Exact(-n) <==> Exact(n)
    ensures Rounded(-n) == -Rounded(n)
  {
  }

  lemma LargeUnit(n: nat, u: nat)
    requires InBinade(n, u)
    ensures u >= 2
  {
  }

  lemma NearestIsExact(n: nat)
    ensures Nearest(n) >= 0 && Exact(Nearest(n))
  {
    if n < PRECISION {
      SmallIsExact(n);
    } else {
      hide Unit, Exact, Power, InBinade;
      var u := Unit(n);
      UnitOfLarge(n);
      LargeUnit(n, u);
      QuotientInBinade(n, u);
      MultipleIsExact(n / u, u);
      MultipleIsExact(n / u + 1, u);
    }
  }

  // ----- What exact and nearest mean -----

  /** 53 binary digits times a power of two. */
  ghost predicate FiftyThreeDigits(n: int) {
    exists q: nat, u: nat :: IsProduct(n, q, u)
  }

  predicate IsProduct(n: int, q: nat, u: nat) {
    q < 0x20_0000_0000_0000 && Power(u) && Abs(n) == q * u
  }

  lemma {:induction false} ProductIsExact(q: nat, u: nat)
    requires q < PRECISION && Power(u)
    ensures Exact(q * u)
    decreases u
  {
    hide Exact;
    if q * u < PRECISION {
      SmallIsExact(q * u);
    } else if q >= PRECISION / 2 {
      assert u >= 2;
      MultipleInBinade(q, u);
    } else {
      assert u != 1 && q * u == 2 * q * (u / 2);
      ProductIsExact(2 * q, u / 2);
    }
  }

  /** The numbers a double can hold are those of 53 binary digits and an exponent. */
  lemma ExactExactly(n: int)
    ensures Exact(n) <==> FiftyThreeDigits(n)
  {
    var m := Abs(n);
    if Exact(n) {
      var u := Unit(m);
      DivMod(m, u);
      if m >= PRECISION {
        UnitOfLarge(m);
        QuotientInBinade(m, u);
      }
      assert IsProduct(n, m / u, u);
    } else if FiftyThreeDigits(n) {
      var q, u :| IsProduct(n, q, u);
      ProductIsExact(q, u);
      assert false;
    }
  }

  /** Between two neighbours on the grid there is no double. */
  lemma NothingBetween(n: nat, m: nat)
    requires n >= PRECISION && n / Unit(n) * Unit(n) < m < (n / Unit(n) + 1) * Unit(n)
    ensures !Exact(m)
  {
    hide Power;
    var u, q := Unit(n), n / Unit(n);
    UnitOfLarge(n);
    QuotientInBinade(n, u);
    TimesGrows(PRECISION / 2, q, u);
    TimesGrows(q + 1, PRECISION, u);
    UnitInBinade(m, u);
    assert (q + 1) * u == q * u + u;
    QuotientOf(m, q, u, m - q * u);
  }

  lemma NextMultiple(q: nat, u: nat)
    ensures (q + 1) * u == q * u + u && q * u >= 0
  {
  }

  /** The neighbours on the grid, and which of them rounding takes. */
  lemma Neighbours(n: nat) returns (low: nat, high: nat)
    ensures var u := Unit(n);
      low == n / u * u && high == (n / u + 1) * u && low <= n < high == low + u
    ensures Nearest(n) == low || Nearest(n) == high
    ensures Nearest(n) == low ==> n - low <= high - n && (n - low == high - n ==> low % (2 * Unit(n)) == 0)
    ensures Nearest(n) == high ==> high - n <= n - low && (n - low == high - n ==> high % (2 * Unit(n)) == 0)
  {
    hide Unit;
    var u := Unit(n);
    var q := n / u;
    DivMod(n, u);
    NextMultiple(q, u);
    low, high := q * u, (q + 1) * u;
    if q % 2 == 0 { EvenMultiple(q, u); } else { EvenMultiple(q + 1, u); }
  }

  lemma NearestOfPositive(n: nat, m: int)
    requires Exact(m)
    ensures Abs(Nearest(n) - n) <= Abs(m - n)
    ensures Abs(Nearest(n) - n) == Abs(m - n) && m != Nearest(n) ==> Nearest(n) % (2 * Unit(n)) == 0
  {
    hide Unit, Nearest, Exact;
    if n < PRECISION {
      NearestGrows(n);
    } else {
      var low, high := Neighbours(n);
      if low < m < high { NothingBetween(n, m); }
    }
  }

  lemma EvenMultiple(q: nat, u: nat)
    requires u >= 1 && q % 2 == 0
    ensures q * u % (2 * u) == 0
  {
    assert q * u == q / 2 * (2 * u);
    QuotientOf(q * u, q / 2, 2 * u, 0);
  }

  /** Rounding gives a nearest double, and of two the one at the even place. */
  lemma RoundedIsNearest(n: int, m: int)
    requires FiftyThreeDigits(m)
    ensures FiftyThreeDigits(Rounded(n)) && Abs(Rounded(n) - n) <= Abs(m - n)
    ensures Abs(Rounded(n) - n) == Abs(m - n) && m != Rounded(n) ==> Abs(Rounded(n)) % (2 * Unit(Abs(n))) == 0
  {
    hide Exact, Nearest, FiftyThreeDigits, Unit;
    NearestIsPositive(Abs(n));
    ExactExactly(m);
    RoundedIsExact(n);
    ExactExactly(Rounded(n));
    if n >= 0 {
      NearestOfPositive(n, m);
    } else {
      ExactExactly(-m);
      OtherSign(m);
      NearestOfPositive(-n, -m);
    }
  }

  lemma OtherSign(m: int)
    requires FiftyThreeDigits(m)
    ensures FiftyThreeDigits(-m)
  {
    var q, u :| IsProduct(m, q, u);
    assert IsProduct(-m, q, u);
  }

  // ----- Numbers that stand for themselves alone -----

  /** Below 2^53 in size, or below 2^54 and at the odd places of its grid. */
  predicate Alone(n: int) {
    Abs(n) < PRECISION || (PRECISION < Abs(n) < 2 * PRECISION && Abs(n) % 4 == 2)
  }

  /** Another number that is rounded like a number that does not stand alone. */
  function Double(n: int): int {
    if !Exact(n) then Rounded(n) else if n >= 0 then n + 1 else n - 1
  }

  lemma UnitNotAlone(n: nat)
    requires !Alone(n) && Exact(n)
    ensures n >= PRECISION && Power(Unit(n)) && InBinade(n, Unit(n)) && (Unit(n) == 2 ==> n % 4 == 0)
  {
    UnitOfLarge(n);
  }

  lemma SuccessorCollides(n: nat)
    requires !Alone(n) && Exact(n)
    ensures Nearest(n + 1) == n
  {
    hide Power, Alone;
    UnitNotAlone(n);
    var u := Unit(n);
    var q := n / u;
    QuotientInBinade(n, u);
    DivMod(n, u);
    TimesGrows(q + 1, PRECISION, u);
    assert (q + 1) * u == q * u + u;
    UnitInBinade(n + 1, u);
    QuotientOf(n + 1, q, u, 1);
    if u < 4 { PowerBelowFour(u); }
  }

  lemma PowerBelowFour(u: nat)
    requires Power(u) && 2 <= u < 4
    ensures u == 2
  {
  }

  lemma DoubleCollides(n: int)
    requires !Alone(n)
    ensures Double(n) != n && Rounded(Double(n)) == Rounded(n)
  {
    hide Exact;
    RoundedIsNear(n);
    if !Exact(n) {
      RoundedIsExact(n);
    } else {
      NegatedExact(Abs(n));
      SuccessorCollides(Abs(n));
    }
  }

  /** What is rounded to at least 2^53 comes from no smaller number, and from 2^54 on only from such. */
  lemma NearestGrows(m: nat)
    ensures m < PRECISION ==> Nearest(m) == m
    ensures m >= PRECISION ==> Nearest(m) >= PRECISION
    ensures m >= 2 * PRECISION ==> Nearest(m) >= 2 * PRECISION
  {
    if m < PRECISION {
      SmallIsExact(m);
      RoundedIsNear(m);
    } else {
      var u := Unit(m);
      UnitOfLarge(m);
      QuotientInBinade(m, u);
      assert m / u * u >= PRECISION / 2 * u >= PRECISION;
      assert (m / u + 1) * u >= m / u * u;
      if m >= 2 * PRECISION {
        if u < 4 { PowerBelowFour(u); }
        assert PRECISION / 2 * u >= 2 * PRECISION;
      }
    }
  }

  lemma FirstBinade(m: nat)
    requires PRECISION <= m < 2 * PRECISION
    ensures Nearest(m) == if m % 2 == 0 then m else if m % 4 == 1 then m - 1 else m + 1
  {
    UnitInBinade(m, 2);
    DivMod(m, 2);
  }

  lemma NearestOfAlone(n: nat, m: nat)
    requires Alone(n) && Nearest(m) == Nearest(n)
    ensures m == n
  {
    hide Nearest;
    NearestGrows(n);
    NearestGrows(m);
    if PRECISION <= n {
      FirstBinade(n);
      if m < 2 * PRECISION { FirstBinade(m); }
    }
  }

  lemma NearestIsPositive(m: nat)
    ensures Nearest(m) >= 0 && (Nearest(m) == 0 ==> m == 0)
  {
    hide Nearest;
    NearestGrows(m);
  }

  /** A number is rounded as no other is exactly when it is below 2^53 in size, or below 2^54 and twice an odd
      number. */
  lemma AloneExactly(n: int)
    ensures (forall m :: Rounded(m) == Rounded(n) ==> m == n) <==> Alone(n)
  {
    hide Exact, Nearest, Double;
    if Alone(n) {
      forall m | Rounded(m) == Rounded(n) ensures m == n {
        NearestIsPositive(Abs(m));
        NearestIsPositive(Abs(n));
        NearestOfAlone(Abs(n), Abs(m));
      }
    } else {
      DoubleCollides(n);
      assert Rounded(Double(n)) == Rounded(n);
    }
  }
}
