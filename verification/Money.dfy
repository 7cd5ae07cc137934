/** Decimal rounding modes, with `real` standing for Python's decimals. */
module Rounding {

  /** ROUND_HALF_UP: the nearest integer, a tie going away from zero
      (roundTiesToAway, section 4.3.1 of IEEE 754-2008). */
  function HalfUp(x: real): (r: int)
    ensures x >= 0.0 ==> x - 0.5 < r as real <= x + 0.5
    ensures x < 0.0 ==> x - 0.5 <= r as real < x + 0.5
  {
    if x >= 0.0 then (x + 0.5).Floor else -((0.5 - x).Floor)
  }

  /** ROUND_CEILING (roundTowardPositive, section 4.3.2 of IEEE 754-2008). */
  function Ceiling(x: real): (r: int)
    ensures x <= r as real < x + 1.0
  {
    -((-x).Floor)
  }

  lemma CeilingMonotone(x: real, y: real)
    requires x <= y
    ensures Ceiling(x) <= Ceiling(y)
  {
  }

  lemma HalfUpOfInteger(n: int)
    ensures HalfUp(n as real) == n
  {
  }
}

/** Minor units of a currency and the conversion to and from Stripe's integers. */
module Currencies {
  import opened Basics
  import opened Rounding

  const DEFAULT_CURRENCY := "usd"

  const ZERO_DECIMAL_CURRENCIES := {
    "bif", "clp", "djf", "gnf", "jpy", "kmf", "krw", "mga",
    "pyg", "rwf", "ugx", "vnd", "vuv", "xaf", "xof", "xpf"
  }

  const THREE_DECIMAL_CURRENCIES := {"bhd", "jod", "kwd", "omr", "tnd"}

  function Decimals(currency: string): nat {
    var code := Lower(if currency == "" then DEFAULT_CURRENCY else currency);
    if code in ZERO_DECIMAL_CURRENCIES then 0
    else if code in THREE_DECIMAL_CURRENCIES then 3
    else 2
  }

  /** How many minor units make one major unit: ten to the power of the decimals. */
  function MinorUnits(currency: string): (units: nat)
    ensures units > 0
  {
    match Decimals(currency)
    case 0 => 1
    case 3 => 1000
    case _ => 100
  }

  /** Yen, won and francs without cents have no minor unit, dinars have a thousand, all others a hundred;
      a missing currency is the dollar. */
  lemma UnitsByCode(currency: string)
    ensures Lower(currency) in {"jpy", "krw", "vnd", "clp", "xaf", "xof", "xpf", "kmf", "gnf", "djf", "rwf", "bif", "mga", "pyg", "ugx", "vuv"} ==> MinorUnits(currency) == 1
    ensures Lower(currency) in {"bhd", "jod", "kwd", "omr", "tnd"} ==> MinorUnits(currency) == 1000
    ensures Lower(currency) in {"usd", "eur", "gbp"} || currency == "" ==> MinorUnits(currency) == 100
  {
    if currency == "" {
      assert Lower(DEFAULT_CURRENCY) == "usd";
    }
  }

  lemma UnitsIgnoreCase(currency: string)
    ensures MinorUnits(Upper(currency)) == MinorUnits(currency)
  {
    LowerOfUpper(currency);
  }

  function ToStripeAmount(amount: real, currency: string): int {
    HalfUp(amount * MinorUnits(currency) as real)
  }

  function FromStripeAmount(cents: int, currency: string): real {
    cents as real / MinorUnits(currency) as real
  }

  /** Rounding an amount to the minor unit of a currency. */
  function Quantize(amount: real, currency: string): real {
    FromStripeAmount(ToStripeAmount(amount, currency), currency)
  }

  lemma FromStripeScaled(cents: int, currency: string)
    ensures FromStripeAmount(cents, currency) * MinorUnits(currency) as real == cents as real
  {
  }

  lemma MinorUnitRoundTrip(cents: int, currency: string)
    ensures ToStripeAmount(FromStripeAmount(cents, currency), currency) == cents
  {
    FromStripeScaled(cents, currency);
    HalfUpOfInteger(cents);
  }

  /** The other way round loses at most half a minor unit, and nothing at all exactly when the
      amount is a whole number of minor units. */
  lemma MajorUnitRoundTrip(amount: real, currency: string)
    ensures var units := MinorUnits(currency) as real;
            && Abs(Quantize(amount, currency) - amount) * units <= 0.5
            && (Quantize(amount, currency) == amount <==> amount * units == (amount * units).Floor as real)
  {
    hide HalfUp, Quantize, MinorUnits;
    var units := MinorUnits(currency) as real;
    var exact, quantized := amount * units, Quantize(amount, currency);
    QuantizeScaled(amount, currency, exact);
    HalfUpIsClose(exact);
    ScaledDifference(quantized, amount, units);
  }

  lemma QuantizeScaled(amount: real, currency: string, exact: real)
    requires exact == amount * MinorUnits(currency) as real
    ensures Quantize(amount, currency) * MinorUnits(currency) as real == HalfUp(exact) as real
  {
    FromStripeScaled(ToStripeAmount(amount, currency), currency);
  }

  lemma HalfUpIsClose(x: real)
    ensures Abs(HalfUp(x) as real - x) <= 0.5
    ensures HalfUp(x) as real == x <==> x == x.Floor as real
  {
    if x == x.Floor as real {
      HalfUpOfInteger(x.Floor);
    }
  }

  lemma ScaledDifference(x: real, y: real, units: real)
    requires units > 0.0
    ensures Abs(x - y) * units == Abs(x * units - y * units)
    ensures x == y <==> x * units == y * units
  {
    var diff := x - y;
    assert diff * units == x * units - y * units;
    if diff < 0.0 {
      assert (-diff) * units == -(diff * units);
      assert diff * units < 0.0;
    } else if diff > 0.0 {
      assert diff * units > 0.0;
    }
  }
}

/** Strict currency conversion, the only one used where money moves. */
module ExchangeRates {
  import opened Basics
  import opened Rounding
  import opened Currencies

  /** Units of each (upper-case) currency per unit of the base currency. */
  type Rates = map<string, real>

  /** The source's ExchangeRateUnavailableError. */
  datatype RateError = MissingRate(currency: string) | ZeroRate(fromCurrency: string, toCurrency: string)

  function ConvertStrict(amount: real, fromCurrency: string, toCurrency: string, rates: Rates): Result<real, RateError> {
    var source, target := Upper(fromCurrency), Upper(toCurrency);
    if source == target || amount == 0.0 then Success(amount)
    else if source !in rates then Failure(MissingRate(source))
    else if target !in rates then Failure(MissingRate(target))
    else if rates[source] == 0.0 || rates[target] == 0.0 then Failure(ZeroRate(source, target))
    else Success(Quantize(amount * (rates[target] / rates[source]), target))
  }

  /** Two codes differ and one of them has no rate, or a rate of zero. */
  predicate LacksRate(fromCurrency: string, toCurrency: string, rates: Rates) {
    var source, target := Upper(fromCurrency), Upper(toCurrency);
    && source != target
    && (source !in rates || target !in rates || rates[source] == 0.0 || rates[target] == 0.0)
  }

  /** No amount but zero is ever converted without a rate for both currencies. With them the result is
      the exact amount rounded to the target's minor unit; the same currency is never rounded. */
  lemma RefusesExactlyWithoutRate(amount: real, fromCurrency: string, toCurrency: string, rates: Rates)
    ensures var r := ConvertStrict(amount, fromCurrency, toCurrency, rates);
            && (r.Failure? <==> amount != 0.0 && LacksRate(fromCurrency, toCurrency, rates))
            && (Upper(fromCurrency) == Upper(toCurrency) || amount == 0.0 ==> r == Success(amount))
            && (r.Success? && Upper(fromCurrency) != Upper(toCurrency) && amount != 0.0 ==>
                  r.value == Quantize(amount * (rates[Upper(toCurrency)] / rates[Upper(fromCurrency)]), toCurrency))
  {
    UnitsIgnoreCase(toCurrency);
    if amount != 0.0 && !LacksRate(fromCurrency, toCurrency, rates) && Upper(fromCurrency) != Upper(toCurrency) {
      var exact := amount * (rates[Upper(toCurrency)] / rates[Upper(fromCurrency)]);
      assert Quantize(exact, Upper(toCurrency)) == Quantize(exact, toCurrency);
    }
  }

  /** The same amount without any rounding. */
  function ExactConversion(amount: real, fromCurrency: string, toCurrency: string, rates: Rates): real {
    var source, target := Upper(fromCurrency), Upper(toCurrency);
    if source == target || source !in rates || target !in rates || rates[source] == 0.0 then amount
    else amount * (rates[target] / rates[source])
  }

  predicate PositiveRates(rates: Rates) {
    forall code | code in rates :: rates[code] > 0.0
  }

  /** Conversion then minor units rounds only once: the result is within half a unit of the exact
      amount, and nothing is rounded away after a real conversion. */
  lemma ConversionRoundsOnce(amount: real, fromCurrency: string, toCurrency: string, rates: Rates)
    requires ConvertStrict(amount, fromCurrency, toCurrency, rates).Success?
    ensures var converted := ConvertStrict(amount, fromCurrency, toCurrency, rates).value;
            var cents := ToStripeAmount(converted, toCurrency);
            var exact := ExactConversion(amount, fromCurrency, toCurrency, rates);
            && cents == ToStripeAmount(exact, toCurrency)
            && Abs(cents as real - exact * MinorUnits(toCurrency) as real) <= 0.5
            && (Upper(fromCurrency) != Upper(toCurrency) ==> FromStripeAmount(cents, toCurrency) == converted)
  {
    var exact := ExactConversion(amount, fromCurrency, toCurrency, rates);
    var converted := ConvertStrict(amount, fromCurrency, toCurrency, rates).value;
    if Upper(fromCurrency) == Upper(toCurrency) {
      assert converted == exact;
    } else if amount == 0.0 {
      ZeroConverts(fromCurrency, toCurrency, rates);
    } else {
      UnitsIgnoreCase(toCurrency);
      assert converted == Quantize(exact, toCurrency);
      MinorUnitRoundTrip(ToStripeAmount(exact, toCurrency), toCurrency);
    }
    StripeAmountIsNearest(exact, toCurrency);
  }

  lemma StripeAmountIsNearest(amount: real, currency: string)
    ensures Abs(ToStripeAmount(amount, currency) as real - amount * MinorUnits(currency) as real) <= 0.5
  {
  }

  lemma ZeroConverts(fromCurrency: string, toCurrency: string, rates: Rates)
    ensures ExactConversion(0.0, fromCurrency, toCurrency, rates) == 0.0
    ensures ToStripeAmount(0.0, toCurrency) == 0 && FromStripeAmount(0, toCurrency) == 0.0
  {
    var units := MinorUnits(toCurrency) as real;
    assert 0.0 * units == 0.0;
    HalfUpOfInteger(0);
  }
}
