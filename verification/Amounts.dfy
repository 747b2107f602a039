/** Amounts in integer minor units (cents): reading a bare number, and writing one back. */
module Amounts {
  import opened Text

  /** Where the decimal separator stands, or the length of t when it has none. */
  function SeparatorIndex(t: string): (i: nat)
    ensures i <= |t|
    ensures forall k :: 0 <= k < i ==> t[k] != '.' && t[k] != ','
    ensures i < |t| ==> t[i] == '.' || t[i] == ','
  {
    if t == "" || t[0] == '.' || t[0] == ',' then 0 else 1 + SeparatorIndex(t[1..])
  }

  function IntegerPart(t: string): string {
    t[..SeparatorIndex(t)]
  }

  function FractionPart(t: string): string {
    var i := SeparatorIndex(t);
    if i < |t| then t[i + 1..] else ""
  }

  /** Digits with at most one decimal group: 12, 12.5 or 12,50. */
  predicate IsBareNumber(t: string) {
    && IntegerPart(t) != "" && AllDigits(IntegerPart(t))
    && (SeparatorIndex(t) < |t| ==> FractionPart(t) != "")
    && AllDigits(FractionPart(t))
  }

  /** The cents a bare number stands for: two fractional digits are read, the next one rounds. */
  function AmountMinorUnits(t: string): nat
    requires IsBareNumber(t)
  {
    var frac := FractionPart(t) + "00";
    var cents := Value(frac[..2]);
    var total := Value(IntegerPart(t)) * 100 + cents;
    var rest := frac[2..];
    if rest != "" && rest[0] >= '5' then total + 1 else total
  }

  /** What a form field accepts as an amount: a bare number, or nothing. */
  function ParseAmount(s: string): (r: (nat, bool))
    ensures r.1 <==> IsBareNumber(s)
  {
    if !IsBareNumber(s) then (0, false) else (AmountMinorUnits(s), true)
  }

  /** Whole euros without decimals, anything else with exactly two. */
  function FormatAmount(minorUnits: nat): string {
    if minorUnits % 100 == 0 then Decimal(minorUnits / 100) else MoneyText(minorUnits)
  }

  /** Euros and exactly two decimals, as the balance prefills and prices are written. */
  function MoneyText(minorUnits: nat): string {
    Decimal(minorUnits / 100) + "." + TwoDigits(minorUnits % 100)
  }

  // ----- Rounding

  lemma DivisionIs(a: int, d: int, q: int)
    requires d > 0 && q * d <= a < q * d + d
    ensures a / d == q
  {
    var e := a / d - q;
    assert a == (q + e) * d + a % d;
    assert (q + e) * d == q * d + e * d;
    MultiplesAreSpaced(e, d);
  }

  lemma MultiplesAreSpaced(e: int, d: int)
    requires d > 0
    ensures e >= 1 ==> e * d >= d
    ensures e <= -1 ==> e * d <= -d
  {}

  /** The leading digit decides which half a digit string lies in. */
  lemma LeadingDigitDecidesHalf(s: string)
    requires s != "" && AllDigits(s)
    ensures s[0] >= '5' <==> 2 * Value(s) >= Pow10(|s|)
  {
    var d, p := DigitValue(s[0]), Pow10(|s| - 1);
    var head := s[..1];
    assert s == head + s[1..];
    ValueOfAppend(head, s[1..]);
    assert head[..|head| - 1] == "" && Value(head) == d;
    ValueBound(s[1..]);
    HalfOfTens(d, p, Value(s[1..]));
  }

  lemma HalfOfTens(d: nat, p: nat, r: nat)
    requires r < p
    ensures d >= 5 <==> 2 * (d * p + r) >= 10 * p
  {
    if d >= 5 {
      assert (d - 5) * p >= 0;
    } else {
      assert (4 - d) * p >= 0;
    }
  }

  lemma HalfUp(whole: nat, r: nat, p: nat)
    requires r < p
    ensures (200 * (whole * p + r) + 100 * p) / (200 * p) == whole + if 2 * r >= p then 1 else 0
  {
    var d := 200 * p;
    var q := whole + if 2 * r >= p then 1 else 0;
    assert q * d == 200 * (whole * p) + if 2 * r >= p then d else 0;
    DivisionIs(200 * (whole * p + r) + 100 * p, d, q);
  }

  /** With k fractional digits and V the number all its digits spell, a bare number is worth
      100 * V / 10^k cents, rounded to the nearest cent with halves rounding up. */
  lemma AmountIsRoundedHalfUp(t: string)
    requires IsBareNumber(t)
    ensures var f := FractionPart(t);
            var v := Value(IntegerPart(t) + f);
            AmountMinorUnits(t) == (200 * v + Pow10(|f|)) / (2 * Pow10(|f|))
  {
    var i, f := IntegerPart(t), FractionPart(t);
    ValueOfAppend(i, f);
    ZeroesAreZero();
    if |f| == 0 {
      assert (f + "00")[..2] == "00";
    } else if |f| == 1 {
      assert (f + "00")[..2] == f + "0" && (f + "00")[2..] == "0";
      ValueOfAppend(f, "0");
      assert Pow10(1) == 10;
    } else {
      LongFractionRoundsHalfUp(t);
    }
  }

  lemma LongFractionRoundsHalfUp(t: string)
    requires IsBareNumber(t) && |FractionPart(t)| >= 2
    ensures var f := FractionPart(t);
            var v := Value(IntegerPart(t) + f);
            AmountMinorUnits(t) == (200 * v + Pow10(|f|)) / (2 * Pow10(|f|))
  {
    hide Value, SeparatorIndex;
    var i, f := IntegerPart(t), FractionPart(t);
    var c, r := f[..2], f[2..];
    var whole, p := Value(i) * 100 + Value(c), Pow10(|r|);
    assert (f + "00")[..2] == c && (f + "00")[2..] == r + "00";
    assert (i + c) + r == i + f;
    ValueOfAppend(i, c);
    ValueOfAppend(i + c, r);
    ValueBound(r);
    assert Pow10(2) == 100 && Pow10(|f|) == 100 * p;
    HalfUp(whole, Value(r), p);
    if r != "" {
      LeadingDigitDecidesHalf(r);
    }
  }

  lemma ZeroesAreZero()
    ensures Value("0") == 0 && Value("00") == 0
  {
    assert "0"[..0] == "";
    assert "00"[..1] == "0";
  }

  // ----- Round trips

  lemma {:induction false} SeparatorAfterDigits(a: string, b: string)
    requires AllDigits(a)
    requires b == "" || b[0] == '.' || b[0] == ','
    ensures SeparatorIndex(a + b) == |a|
  {
    if a == "" {
      assert a + b == b;
    } else {
      assert (a + b)[1..] == a[1..] + b;
      SeparatorAfterDigits(a[1..], b);
    }
  }

  /** Two written decimals are read back exactly. */
  lemma MoneyTextRoundTrip(n: nat)
    ensures IsBareNumber(MoneyText(n)) && AmountMinorUnits(MoneyText(n)) == n
  {
    var euros, cents := Decimal(n / 100), TwoDigits(n % 100);
    var t := MoneyText(n);
    assert t == euros + ("." + cents);
    SeparatorAfterDigits(euros, "." + cents);
    assert IntegerPart(t) == euros && FractionPart(t) == cents;
    assert (cents + "00")[..2] == cents && (cents + "00")[2..] == "00";
    ValueOfDecimal(n / 100);
    ValueOfTwoDigits(n % 100);
  }

  lemma MoneyTextIsNotBlank(n: nat)
    ensures MoneyText(n) != ""
  {}

  /** Every amount's written form is a bare number that reads back to it. */
  lemma FormatAmountRoundTrip(n: nat)
    ensures IsBareNumber(FormatAmount(n)) && AmountMinorUnits(FormatAmount(n)) == n
  {
    if n % 100 == 0 {
      var t := Decimal(n / 100);
      assert t + "" == t;
      SeparatorAfterDigits(t, "");
      assert IntegerPart(t) == t;
      assert ("" + "00")[..2] == "00";
      ZeroesAreZero();
      ValueOfDecimal(n / 100);
    } else {
      MoneyTextRoundTrip(n);
    }
  }

  /** A bare number has no white space and does not start with a sigil. */
  lemma BareNumberIsToken(t: string)
    requires IsBareNumber(t)
    ensures IsToken(t) && IsDigit(t[0])
    ensures forall k :: 0 <= k < |t| ==> IsDigit(t[k]) || t[k] == '.' || t[k] == ','
  {
    var i := SeparatorIndex(t);
    assert IntegerPart(t) == t[..i];
    forall k | 0 <= k < |t| ensures IsDigit(t[k]) || t[k] == '.' || t[k] == ',' {
      if k < i {
        assert t[k] == IntegerPart(t)[k];
      } else if k > i {
        assert t[k] == FractionPart(t)[k - i - 1];
      }
    }
    assert t[0] == IntegerPart(t)[0];
  }

  // ----- Which texts are numbers

  /** The cents a number's digits make: a before the separator, b behind it. */
  function CentsOf(a: string, b: string): int
    requires AllDigits(a) && AllDigits(b)
  {
    (200 * Value(a + b) + Pow10(|b|)) / (2 * Pow10(|b|))
  }

  /** Digits are a number, and so are digits on both sides of a dot or a comma; the two separators mean
      the same cents. */
  lemma NumbersRead(a: string, b: string)
    requires a != "" && AllDigits(a) && b != "" && AllDigits(b)
    ensures ParseAmount(a) == (100 * Value(a), true)
    ensures ParseAmount(a + "." + b) == (CentsOf(a, b), true)
    ensures ParseAmount(a + "," + b) == (CentsOf(a, b), true)
  {
    hide Value, Pow10;
    WholeNumberReads(a);
    DecimalNumberReads(a, '.', b);
    DecimalNumberReads(a, ',', b);
    assert a + "." + b == a + ['.'] + b && a + "," + b == a + [','] + b;
  }

  lemma WholeNumberReads(a: string)
    requires a != "" && AllDigits(a)
    ensures IsBareNumber(a) && AmountMinorUnits(a) == 100 * Value(a)
  {
    hide Value;
    assert a + "" == a;
    SeparatorAfterDigits(a, "");
    assert IntegerPart(a) == a && FractionPart(a) == "";
    assert ("" + "00")[..2] == "00" && ("" + "00")[2..] == "";
    ZeroesAreZero();
  }

  lemma DecimalNumberReads(a: string, sep: char, b: string)
    requires a != "" && AllDigits(a) && b != "" && AllDigits(b) && (sep == '.' || sep == ',')
    ensures IsBareNumber(a + [sep] + b) && AmountMinorUnits(a + [sep] + b) == CentsOf(a, b)
  {
    hide Value, AmountMinorUnits, SeparatorIndex;
    var t := a + [sep] + b;
    assert t == a + ([sep] + b);
    SeparatorAfterDigits(a, [sep] + b);
    assert IntegerPart(t) == a && FractionPart(t) == b;
    AmountIsRoundedHalfUp(t);
  }

  /** Nothing else is a number. */
  lemma NumberParts(t: string) returns (a: string, b: string)
    requires ParseAmount(t).1
    ensures a != "" && AllDigits(a) && AllDigits(b)
    ensures (b == "" && t == a) || (b != "" && (t == a + "." + b || t == a + "," + b))
  {
    a, b := IntegerPart(t), FractionPart(t);
    var i := SeparatorIndex(t);
    if i < |t| {
      assert t == a + [t[i]] + b;
    } else {
      assert t == a;
    }
  }

  lemma RefusedAmountIsZero(t: string)
    requires !ParseAmount(t).1
    ensures ParseAmount(t).0 == 0
  {}

  /** Amounts are written without leading zeros, whole euros bare and others with a dot and two decimals;
      money always has its two decimals. */
  lemma AmountsAreWritten(n: nat)
    ensures n % 100 == 0 ==> FormatAmount(n) == Decimal(n / 100)
    ensures n % 100 != 0 ==> FormatAmount(n) == MoneyText(n)
    ensures exists cents :: |cents| == 2 && AllDigits(cents) && Value(cents) == n % 100
              && MoneyText(n) == Decimal(n / 100) + "." + cents
  {
    ValueOfTwoDigits(n % 100);
    assert MoneyText(n) == Decimal(n / 100) + "." + TwoDigits(n % 100);
  }
}
