/** Stripe's minor units, backend/app/adapters/payment/stripe_provider.py, over Python's Decimal:
    products and quotients are rounded half-even to 28 significant digits. */
module Money {
  import opened Text
  import opened Spelling

  /** A finite Decimal: coefficient / 10^scale. */
  datatype Decimal = Decimal(coefficient: int, scale: nat)

  function Pow10(k: nat): (p: nat)
    ensures p >= 1
  {
    if k == 0 then 1 else 10 * Pow10(k - 1)
  }

  /** The first integer with 29 digits. */
  const LIMIT: nat := 1_0000_0000_0000_0000_0000_0000_0000

  predicate Equal(a: Decimal, b: Decimal) {
    a.coefficient * Pow10(b.scale) == b.coefficient * Pow10(a.scale)
  }

  function Abs(n: int): nat {
    if n < 0 then -n else n
  }

  function WithSign(n: int, sign: int): int {
    if sign < 0 then -n else n
  }

  /** The weight of the 28th significant digit. */
  function Unit(n: nat): (u: nat)
    ensures u >= 1
  {
    if n < LIMIT then 1 else 10 * Unit(n / 10)
  }

  function HalfEven(n: nat, unit: nat): nat
    requires unit >= 1
  {
    var q, r := n / unit, n % unit;
    if 2 * r > unit || (2 * r == unit && q % 2 == 1) then (q + 1) * unit else q * unit
  }

  /** The default context applied to an integer value. */
  function Rounded(n: int): int {
    WithSign(HalfEven(Abs(n), Unit(Abs(n))), n)
  }

  /** At most 28 significant digits. */
  predicate Fits(n: int) {
    Abs(n) % Unit(Abs(n)) == 0
  }

  function Quotient(n: nat, unit: nat): (q: nat)
    requires unit >= 1
    ensures n < unit ==> q == 0
  {
    if n < unit then 0 else Quotient(n - unit, unit) + 1
  }

  /** `int(d)` of n / unit: towards zero. */
  function Truncated(n: int, unit: nat): int
    requires unit >= 1
  {
    WithSign(Quotient(Abs(n), unit), n)
  }

  predicate IsZeroDecimal(currency: string) {
    Lower(currency) in {"jpy", "krw", "vnd", "clp", "huf"}
  }

  function AmountToStripe(amount: Decimal, currency: string): int {
    if IsZeroDecimal(currency) then Truncated(amount.coefficient, Pow10(amount.scale))
    else Truncated(Rounded(amount.coefficient * 100), Pow10(amount.scale))
  }

  function AmountFromStripe(amount: int, currency: string): Decimal {
    if IsZeroDecimal(currency) then Decimal(amount, 0) else Decimal(Rounded(amount), 2)
  }

  // ---- Rounding ----

  lemma HalfEvenExact(n: nat, unit: nat)
    requires unit >= 1
    ensures HalfEven(n, unit) == n <==> n % unit == 0
  {
    var q, r := n / unit, n % unit;
    var p := q * unit;
    assert n == p + r;
    assert (q + 1) * unit == p + unit;
  }

  lemma RoundedIffFits(n: int)
    ensures Rounded(n) == n <==> Fits(n)
  {
    HalfEvenExact(Abs(n), Unit(Abs(n)));
  }

  lemma HalfEvenScales(n: nat, unit: nat)
    requires unit >= 1
    ensures HalfEven(10 * n, 10 * unit) == 10 * HalfEven(n, unit)
  {
    var q, r := n / unit, n % unit;
    assert 10 * n == q * (10 * unit) + 10 * r;
    DivMod(10 * n, 10 * unit, q, 10 * r);
    assert (q + 1) * (10 * unit) == 10 * ((q + 1) * unit);
    assert q * (10 * unit) == 10 * (q * unit);
  }

  lemma MultipleIsAtLeast(x: nat, unit: nat)
    requires x >= 1
    ensures x * unit >= unit
  {
  }

  lemma LowerQuotient(unit: nat, q: nat, r: nat, q': nat, r': nat)
    requires q < q' && r < unit
    ensures q * unit + r < q' * unit + r'
  {
    MultipleIsAtLeast(q' - q, unit);
    assert (q' - q) * unit == q' * unit - q * unit;
  }

  lemma QuotientIsUnique(unit: nat, q: nat, r: nat, q': nat, r': nat)
    requires q * unit + r == q' * unit + r' && r < unit && r' < unit
    ensures q == q' && r == r'
  {
    if q < q' { LowerQuotient(unit, q, r, q', r'); }
    if q' < q { LowerQuotient(unit, q', r', q, r); }
  }

  lemma DivMod(n: nat, unit: nat, q: nat, r: nat)
    requires n == q * unit + r && r < unit
    ensures n / unit == q && n % unit == r
  {
    QuotientIsUnique(unit, q, r, n / unit, n % unit);
  }

  /** A further zero digit never matters. */
  lemma RoundedTenfold(n: int)
    ensures Rounded(10 * n) == 10 * Rounded(n)
  {
    var a := Abs(n);
    assert Abs(10 * n) == 10 * a;
    if 10 * a >= LIMIT {
      assert Unit(10 * a) == 10 * Unit(a);
      HalfEvenScales(a, Unit(a));
    }
  }

  lemma TimesTen(n: int, p: int)
    ensures n * (10 * p) == 10 * (n * p)
  {
  }

  lemma {:induction false} RoundedScales(n: int, k: nat)
    ensures Rounded(n * Pow10(k)) == Rounded(n) * Pow10(k)
  {
    if k > 0 {
      var p := Pow10(k - 1);
      RoundedScales(n, k - 1);
      TimesTen(n, p);
      TimesTen(Rounded(n), p);
      RoundedTenfold(n * p);
    }
  }

  lemma {:induction false} UnitIsPower(n: nat) returns (k: nat)
    ensures Unit(n) == Pow10(k) && n / Unit(n) < LIMIT
  {
    if n < LIMIT {
      k := 0;
    } else {
      var j := UnitIsPower(n / 10);
      k := j + 1;
      var u := Unit(n / 10);
      assert (n / 10) / u == n / (10 * u) by { DivTwice(n, u); }
    }
  }

  lemma DivTwice(n: nat, u: nat)
    requires u >= 1
    ensures (n / 10) / u == n / (10 * u)
  {
    var m := n / 10;
    var q, r := m / u, m % u;
    assert n == q * (10 * u) + (10 * r + n % 10);
    DivMod(n, 10 * u, q, 10 * r + n % 10);
  }

  lemma SmallIsExact(n: int)
    requires Abs(n) <= LIMIT
    ensures Rounded(n) == n
  {
    assert Unit(LIMIT) == 10 * Unit(LIMIT / 10);
  }

  lemma RoundedIsOdd(n: int)
    ensures Rounded(-n) == -Rounded(n)
  {
  }

  lemma RoundedFitsNat(n: nat)
    ensures Rounded(Rounded(n)) == Rounded(n)
  {
    var k := UnitIsPower(n);
    var m := HalfEven(n, Unit(n)) / Unit(n);
    HalfEvenIsMultiple(n, Unit(n));
    SmallIsExact(m);
    RoundedScales(m, k);
  }

  /** Rounding leaves 28 significant digits, also when it carries into a 29th. */
  lemma RoundedFits(n: int)
    ensures Rounded(Rounded(n)) == Rounded(n)
  {
    RoundedFitsNat(Abs(n));
    if n < 0 {
      RoundedIsOdd(-n);
      RoundedIsOdd(Rounded(-n));
    }
  }

  lemma HalfEvenIsMultiple(n: nat, unit: nat)
    requires unit >= 1
    ensures var m := HalfEven(n, unit) / unit; m * unit == HalfEven(n, unit) && m <= n / unit + 1
  {
    var q := n / unit;
    DivMod(q * unit, unit, q, 0);
    DivMod((q + 1) * unit, unit, q + 1, 0);
  }

  // ---- Round trips ----

  lemma {:induction false} QuotientBounds(n: nat, unit: nat)
    requires unit >= 1
    ensures var q := Quotient(n, unit); q * unit <= n < q * unit + unit
  {
    if n >= unit {
      QuotientBounds(n - unit, unit);
      Distribute(Quotient(n - unit, unit), 1, unit);
    }
  }

  lemma QuotientIs(n: nat, unit: nat, q: nat, r: nat)
    requires n == q * unit + r && r < unit
    ensures Quotient(n, unit) == q
  {
    QuotientBounds(n, unit);
    QuotientIsUnique(unit, q, r, Quotient(n, unit), n - Quotient(n, unit) * unit);
  }

  lemma TruncatedMultiple(n: int, unit: nat)
    requires unit >= 1
    ensures Truncated(n * unit, unit) == n
  {
    assert Abs(n * unit) == Abs(n) * unit;
    QuotientIs(Abs(n) * unit, unit, Abs(n), 0);
  }

  /** Minor units survive the way to Decimal and back exactly when they need at most 28 significant
      digits; in a zero-decimal currency always. The currency may change its case on the way. */
  lemma MinorRoundTrip(amount: int, currency: string, currency': string)
    requires Lower(currency) == Lower(currency')
    ensures AmountToStripe(AmountFromStripe(amount, currency), currency') == amount <==>
            IsZeroDecimal(currency) || Fits(amount)
  {
    if IsZeroDecimal(currency) {
      TruncatedMultiple(amount, 1);
    } else {
      RoundedFits(amount);
      RoundedScales(Rounded(amount), 2);
      TruncatedMultiple(Rounded(amount), Pow10(2));
      RoundedIffFits(amount);
    }
  }

  /** The number of minor units in a major one. */
  function Minor(currency: string): nat {
    if IsZeroDecimal(currency) then 1 else 100
  }

  predicate IsWorth(amount: Decimal, currency: string, n: int) {
    && amount.coefficient * Minor(currency) == n * Pow10(amount.scale)
    && (IsZeroDecimal(currency) || Fits(n))
  }

  /** The amount is a whole number of minor units, of at most 28 significant digits where that
      matters. */
  ghost predicate IsPayable(amount: Decimal, currency: string) {
    exists n: int :: IsWorth(amount, currency, n)
  }

  lemma PayableRoundTrips(amount: Decimal, currency: string, n: int)
    requires IsWorth(amount, currency, n)
    ensures AmountToStripe(amount, currency) == n
    ensures Equal(AmountFromStripe(n, currency), amount)
  {
    TruncatedMultiple(n, Pow10(amount.scale));
    if !IsZeroDecimal(currency) {
      RoundedIffFits(n);
      RoundedScales(n, amount.scale);
      assert Pow10(2) == 100;
    }
  }

  /** A Decimal survives the way to minor units and back exactly when it is payable. */
  lemma DecimalRoundTrip(amount: Decimal, currency: string)
    ensures Equal(AmountFromStripe(AmountToStripe(amount, currency), currency), amount) <==> IsPayable(amount, currency)
  {
    if IsPayable(amount, currency) {
      var n: int :| IsWorth(amount, currency, n);
      PayableRoundTrips(amount, currency, n);
    }
    var back := AmountFromStripe(AmountToStripe(amount, currency), currency);
    if Equal(back, amount) {
      assert Pow10(2) == 100;
      RoundedFits(AmountToStripe(amount, currency));
      RoundedIffFits(back.coefficient);
      assert IsWorth(amount, currency, back.coefficient);
    }
  }

  /** `got` is n / unit cut towards zero. */
  predicate IsCut(n: int, got: int, unit: nat) {
    && Abs(got) * unit <= Abs(n) < (Abs(got) + 1) * unit
    && (got > 0 ==> n > 0) && (got < 0 ==> n < 0)
  }

  lemma SignedCut(n: int, q: nat, unit: nat)
    requires q * unit <= Abs(n) < q * unit + unit && (n == 0 ==> q == 0)
    ensures IsCut(n, WithSign(q, n), unit)
  {
    assert Abs(WithSign(q, n)) == q;
    Distribute(q, 1, unit);
  }

  lemma TruncatedIsCut(n: int, unit: nat)
    requires unit >= 1
    ensures IsCut(n, Truncated(n, unit), unit)
  {
    QuotientBounds(Abs(n), unit);
    SignedCut(n, Quotient(Abs(n), unit), unit);
  }

  /** What is left of n when it is cut to a multiple of the unit. */
  function Rest(n: nat, unit: nat): int
    requires unit >= 1
  {
    n - Quotient(n, unit) * unit
  }

  lemma QuotientsAgree(n: nat, rounded: nat, unit: nat)
    requires unit >= 1
    ensures Quotient(rounded, unit) == Quotient(n, unit) <==> 0 <= Rest(n, unit) + (rounded - n) < unit
  {
    QuotientBounds(n, unit);
    QuotientBounds(rounded, unit);
    var r := Rest(n, unit) + (rounded - n);
    if 0 <= r < unit { QuotientIs(rounded, unit, Quotient(n, unit), r); }
  }

  /** Rounding to 28 digits keeps the amount within its minor unit. */
  predicate StaysInUnit(n: int, unit: nat)
    requires unit >= 1
  {
    0 <= Rest(Abs(n), unit) + (Abs(Rounded(n)) - Abs(n)) < unit
  }

  lemma RoundedKeepsSign(n: int)
    ensures Rounded(n) < 0 ==> n < 0
    ensures n < 0 ==> Rounded(n) <= 0
  {
  }

  lemma SameMagnitude(n: int, m: int, p: nat, q: nat)
    requires (m < 0 ==> n < 0) && (n < 0 ==> m <= 0) && (m == 0 ==> q == 0)
    ensures WithSign(q, m) == WithSign(p, n) <==> p == q
  {
  }

  lemma TruncationStays(n: int, unit: nat)
    requires unit >= 1
    ensures Truncated(Rounded(n), unit) == Truncated(n, unit) <==> StaysInUnit(n, unit)
  {
    RoundedKeepsSign(n);
    SameMagnitude(n, Rounded(n), Quotient(Abs(n), unit), Quotient(Abs(Rounded(n)), unit));
    QuotientsAgree(Abs(n), Abs(Rounded(n)), unit);
  }

  /** The conversion cuts towards zero. */
  predicate Converts(amount: Decimal, currency: string) {
    IsZeroDecimal(currency) || StaysInUnit(amount.coefficient * 100, Pow10(amount.scale))
  }

  /** The conversion cuts the exact number of minor units towards zero, so by less than one, if
      and only if rounding to 28 digits keeps the amount within its minor unit. */
  lemma CutsTowardsZeroIff(amount: Decimal, currency: string)
    ensures var exact, unit := amount.coefficient * Minor(currency), Pow10(amount.scale);
            && (AmountToStripe(amount, currency) == Truncated(exact, unit) <==> Converts(amount, currency))
            && IsCut(exact, Truncated(exact, unit), unit)
  {
    TruncatedIsCut(amount.coefficient * Minor(currency), Pow10(amount.scale));
    TruncationStays(amount.coefficient * 100, Pow10(amount.scale));
  }

  /** In particular for every amount of at most 28 significant digits, hence for what the columns
      numeric(12, 2) hold. */
  lemma FittingConverts(amount: Decimal, currency: string)
    ensures Fits(amount.coefficient * 100) ==> Converts(amount, currency)
    ensures Abs(amount.coefficient) < 1_0000_0000_0000 ==> Fits(amount.coefficient * 100)
  {
    RoundedIffFits(amount.coefficient * 100);
    QuotientBounds(Abs(amount.coefficient * 100), Pow10(amount.scale));
    SmallIsExact(if Abs(amount.coefficient) < 1_0000_0000_0000 then amount.coefficient * 100 else 0);
  }

  // ---- Partial refunds ----

  function Sum(coefficients: seq<nat>): nat {
    if coefficients == [] then 0 else Sum(coefficients[1..]) + coefficients[0]
  }

  /** What Stripe is asked to refund, over all partial refunds (stripe_provider.py:241). */
  function Refunded(coefficients: seq<nat>, scale: nat, currency: string): int {
    if coefficients == [] then 0
    else Refunded(coefficients[1..], scale, currency) + AmountToStripe(Decimal(coefficients[0], scale), currency)
  }

  predicate AllConvert(coefficients: seq<nat>, scale: nat, currency: string) {
    forall i :: 0 <= i < |coefficients| ==> Converts(Decimal(coefficients[i], scale), currency)
  }

  lemma Distribute(a: int, b: int, unit: int)
    ensures (a + b) * unit == a * unit + b * unit
  {
  }

  lemma {:induction false} RefundedBounds(coefficients: seq<nat>, scale: nat, currency: string)
    requires AllConvert(coefficients, scale, currency)
    ensures var total, unit := Refunded(coefficients, scale, currency), Pow10(scale);
            var exact := Sum(coefficients) * Minor(currency);
            0 <= total && total * unit <= exact <= total * unit + |coefficients| * (unit - 1)
  {
    if coefficients != [] {
      var unit, rest, first := Pow10(scale), coefficients[1..], coefficients[0];
      RefundedBounds(rest, scale, currency);
      CutsTowardsZeroIff(Decimal(first, scale), currency);
      var got := AmountToStripe(Decimal(first, scale), currency);
      Distribute(Refunded(rest, scale, currency), got, unit);
      Distribute(got, 1, unit);
      Distribute(Sum(rest), first, Minor(currency));
      Distribute(|rest|, 1, unit - 1);
    }
  }

  lemma CompareQuotients(total: int, whole: int, count: nat, exact: int, unit: nat)
    requires count >= 1 && unit >= 1
    requires total * unit <= exact <= total * unit + count * (unit - 1)
    requires whole * unit <= exact < (whole + 1) * unit
    ensures total <= whole <= total + count - 1
  {
    if whole < total { Monotone(whole + 1, total, unit); }
    if whole >= total + count {
      Monotone(total + count, whole, unit);
      Distribute(total, count, unit);
      Distribute(unit - 1, 1, count);
    }
  }

  lemma Monotone(a: int, b: int, unit: nat)
    requires a <= b
    ensures a * unit <= b * unit
  {
  }

  /** Partial refunds of one payment never come to more than refunding their sum at once, and to
      at most one minor unit less for each refund but the first. */
  lemma PartialRefunds(coefficients: seq<nat>, scale: nat, currency: string)
    requires coefficients != [] && AllConvert(coefficients, scale, currency)
    requires Converts(Decimal(Sum(coefficients), scale), currency)
    ensures var whole := AmountToStripe(Decimal(Sum(coefficients), scale), currency);
            var total := Refunded(coefficients, scale, currency);
            total <= whole <= total + |coefficients| - 1
  {
    RefundedBounds(coefficients, scale, currency);
    CutsTowardsZeroIff(Decimal(Sum(coefficients), scale), currency);
    var whole := AmountToStripe(Decimal(Sum(coefficients), scale), currency);
    CompareQuotients(Refunded(coefficients, scale, currency), whole,
                     |coefficients|, Sum(coefficients) * Minor(currency), Pow10(scale));
  }

  /** Beyond 28 digits, and so beyond what the amount columns hold, they can come to more: each part
      rounds up where the sum rounds down. */
  lemma RefundsBeyondPrecision(currency: string)
    requires !IsZeroDecimal(currency)
    ensures var part := LIMIT + 6;
            && !Converts(Decimal(part, 3), currency)
            && Refunded([part, part], 3, currency) > AmountToStripe(Decimal(Sum([part, part]), 3), currency)
  {
    var part := LIMIT + 6;
    assert Pow10(3) == 1000;
    ThreeDigitsGo(part * 100, LIMIT / 10, 600);
    ThreeDigitsGo(2 * part * 100, 2 * (LIMIT / 10) + 1, 200);
    QuotientIs(part * 100, 1000, LIMIT / 10, 600);
    QuotientIs(100 * LIMIT + 1000, 1000, LIMIT / 10 + 1, 0);
    QuotientIs(200 * LIMIT + 1000, 1000, 2 * (LIMIT / 10) + 1, 0);
    assert [part, part][1..] == [part] && [part][1..] == [];
    assert Sum([part]) == part && Sum([part, part]) == 2 * part;
    assert Refunded([part], 3, currency) == LIMIT / 10 + 1;
  }

  lemma ThreeDigitsGo(n: nat, q: nat, r: nat)
    requires n == q * 1000 + r && r < 1000 && r != 500 && 100 * LIMIT <= n < 1000 * LIMIT
    ensures Rounded(n) == if r > 500 then (q + 1) * 1000 else q * 1000
  {
    assert Pow10(3) == 1000 && Pow10(2) == 100;
    UnitOf(n, 3);
    DivMod(n, 1000, q, r);
  }

  lemma {:induction false} UnitOf(n: nat, k: nat)
    requires k > 0 ==> Pow10(k - 1) * LIMIT <= n
    requires n < Pow10(k) * LIMIT
    ensures Unit(n) == Pow10(k)
  {
    if k > 0 { UnitOf(n / 10, k - 1); }
  }

  // ---- In figures ----

  /** The Japanese yen, the Korean won, the Vietnamese dong, the Chilean peso or the Hungarian
      forint, in any letter case. */
  predicate HasNoMinorUnit(currency: string) {
    || Spells(currency, "jpy") || Spells(currency, "krw") || Spells(currency, "vnd") || Spells(currency, "clp")
    || Spells(currency, "huf")
  }

  lemma NoMinorUnitIff(currency: string)
    ensures IsZeroDecimal(currency) <==> HasNoMinorUnit(currency)
  {
    SpellingIsLowering(currency, "jpy");
    SpellingIsLowering(currency, "krw");
    SpellingIsLowering(currency, "vnd");
    SpellingIsLowering(currency, "clp");
    SpellingIsLowering(currency, "huf");
  }

  /** Whole amounts, and amounts with two places. */
  lemma AmountsInFigures(n: int, currency: string)
    requires -1_0000_0000_0000 < n < 1_0000_0000_0000
    ensures AmountToStripe(Decimal(n, 0), currency) == if HasNoMinorUnit(currency) then n else n * 100
    ensures !HasNoMinorUnit(currency) ==> AmountToStripe(Decimal(n, 2), currency) == n
    ensures AmountFromStripe(n, currency) == if HasNoMinorUnit(currency) then Decimal(n, 0) else Decimal(n, 2)
  {
    NoMinorUnitIff(currency);
    SmallIsExact(n);
    SmallIsExact(n * 100);
    TruncatedMultiple(n, 1);
    TruncatedMultiple(n * 100, 1);
    assert Pow10(2) == 100;
    TruncatedMultiple(n, 100);
  }

  lemma CutsOneDigit(n: nat, rest: nat)
    requires rest < 10
    ensures Truncated(n * 10 + rest, 10) == n && Truncated((n * 10 + rest) * 100, 1000) == n
  {
    QuotientIs(n * 10 + rest, 10, n, rest);
    QuotientIs((n * 10 + rest) * 100, 1000, n, rest * 100);
  }

  /** A third place is cut off, and so is the first in a currency without a minor unit. */
  lemma FurtherPlaceIsCut(n: nat, rest: nat, currency: string)
    requires n < 1_0000_0000_0000 && rest < 10
    ensures !HasNoMinorUnit(currency) ==> AmountToStripe(Decimal(n * 10 + rest, 3), currency) == n
    ensures HasNoMinorUnit(currency) ==> AmountToStripe(Decimal(n * 10 + rest, 1), currency) == n
  {
    NoMinorUnitIff(currency);
    SmallIsExact((n * 10 + rest) * 100);
    assert Pow10(1) == 10 && Pow10(3) == 1000;
    CutsOneDigit(n, rest);
  }

  /** The sign of an amount makes no difference to its figures. */
  lemma SignIsKept(amount: Decimal, currency: string)
    ensures AmountToStripe(Decimal(-amount.coefficient, amount.scale), currency) == -AmountToStripe(amount, currency)
  {
    assert -amount.coefficient * 100 == -(amount.coefficient * 100);
    RoundedIsOdd(amount.coefficient * 100);
  }

  function RoundTrip(amount: int, currency: string): int {
    AmountToStripe(AmountFromStripe(amount, currency), currency)
  }

  lemma RoundTripRounds(amount: int, currency: string)
    requires !HasNoMinorUnit(currency)
    ensures RoundTrip(amount, currency) == Rounded(amount)
  {
    NoMinorUnitIff(currency);
    RoundedFits(amount);
    RoundedScales(Rounded(amount), 2);
    TruncatedMultiple(Rounded(amount), Pow10(2));
  }

  /** Amounts of 28 digits survive. The 29th digit goes: a five to the even neighbour, all else to
      the nearer one. */
  lemma LastDigitGoes(amount: int, digit: int, currency: string)
    requires !HasNoMinorUnit(currency) && 0 <= digit < 10
    requires 1000_0000_0000_0000_0000_0000_0000 <= amount < 1_0000_0000_0000_0000_0000_0000_0000
    ensures var up := if digit > 5 || (digit == 5 && amount % 2 == 1) then 1 else 0;
            && RoundTrip(amount, currency) == amount && RoundTrip(-amount, currency) == -amount
            && RoundTrip(amount * 10 + digit, currency) == (amount + up) * 10
            && RoundTrip(-(amount * 10 + digit), currency) == -(amount + up) * 10
  {
    var longer := amount * 10 + digit;
    SmallIsExact(amount);
    RoundedIsOdd(amount);
    RoundedIsOdd(longer);
    UnitOf(longer, 1);
    DivMod(longer, 10, amount, digit);
    RoundTripRounds(amount, currency);
    RoundTripRounds(-amount, currency);
    RoundTripRounds(longer, currency);
    RoundTripRounds(-longer, currency);
  }
}
