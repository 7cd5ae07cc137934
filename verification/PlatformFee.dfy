/** The application fee of a destination charge: estimated Stripe costs plus the platform's margin. */
module PlatformFee {
  import opened Basics
  import opened Rounding
  import opened Currencies
  import opened ExchangeRates

  /** The fee constants, each of which the settings may override. */
  datatype Schedule = Schedule(stripePercent: real, safetyPercent: real, fixedUsd: real, netPercent: real, netMinUsd: real) {
    predicate Sensible() {
      stripePercent >= 0.0 && safetyPercent >= 0.0 && netPercent >= 0.0
    }
  }

  const DEFAULT_SCHEDULE := Schedule(0.029, 0.003, 0.30, 0.01, 0.25)

  function ConvertedUnits(usd: real, currency: string, rates: Rates): Result<int, RateError> {
    match ConvertStrict(usd, "usd", currency, rates)
    case Failure(e) => Failure(e)
    case Success(converted) => Success(ToStripeAmount(converted, currency))
  }

  function EstimatedStripeUnits(total: int, fixed: int, schedule: Schedule): int {
    Ceiling(total as real * (schedule.stripePercent + schedule.safetyPercent)) + fixed
  }

  function MarginUnits(total: int, minimum: int, schedule: Schedule): int {
    Max(Ceiling(total as real * schedule.netPercent), minimum)
  }

  /** The fee once its two constants have been converted to units of the payer's currency. */
  function FeeFor(total: int, fixed: int, minimum: int, schedule: Schedule): int {
    var fee := EstimatedStripeUnits(total, fixed, schedule) + MarginUnits(total, minimum, schedule);
    if fee > total then total else fee
  }

  function Compute(total: int, currency: string, rates: Rates, schedule: Schedule): Result<int, RateError> {
    if total <= 0 then Success(0)
    else
      match ConvertedUnits(schedule.fixedUsd, currency, rates)
      case Failure(e) => Failure(e)
      case Success(fixed) =>
        match ConvertedUnits(schedule.netMinUsd, currency, rates)
        case Failure(e) => Failure(e)
        case Success(minimum) => Success(FeeFor(total, fixed, minimum, schedule))
  }

  /** The documented formula over the reals: cost by percentage and constant, and the larger margin. */
  function Formula(total: real, fixed: real, minimum: real, schedule: Schedule): real {
    var margin := total * schedule.netPercent;
    total * (schedule.stripePercent + schedule.safetyPercent) + fixed + (if margin < minimum then minimum else margin)
  }

  function RealFormula(total: int, fixed: int, minimum: int, schedule: Schedule): real {
    Formula(total as real, fixed as real, minimum as real, schedule)
  }

  lemma FormulaIsSteady(total: real, fixed: real, minimum: real, otherFixed: real, otherMinimum: real, schedule: Schedule)
    requires Abs(fixed - otherFixed) <= 0.5 && Abs(minimum - otherMinimum) <= 0.5
    ensures Abs(Formula(total, fixed, minimum, schedule) - Formula(total, otherFixed, otherMinimum, schedule)) <= 1.0
  {
  }

  /** The fee lies between nothing and the whole charge, never under-collects the formula unless
      it is the whole charge, and over-collects less than two units. */
  lemma FeeBounds(total: int, fixed: int, minimum: int, schedule: Schedule)
    requires total > 0 && fixed >= 0 && minimum >= 0 && schedule.Sensible()
    ensures var fee := FeeFor(total, fixed, minimum, schedule);
            var formula := RealFormula(total, fixed, minimum, schedule);
            && 0 <= fee <= total
            && (fee as real) < formula + 2.0
            && (fee as real >= formula || fee == total)
            && (total as real >= formula + 2.0 ==> fee < total)
  {
    assert total as real * (schedule.stripePercent + schedule.safetyPercent) >= 0.0;
  }

  /** What the platform keeps after the estimated Stripe bill is at least its percentage and its
      minimum whenever the fee is not capped; it is capped exactly when bill and margin exceed the charge. */
  lemma NetMarginGuaranteed(total: int, fixed: int, minimum: int, schedule: Schedule)
    ensures var fee, bill := FeeFor(total, fixed, minimum, schedule), EstimatedStripeUnits(total, fixed, schedule);
            && bill as real >= total as real * (schedule.stripePercent + schedule.safetyPercent) + fixed as real
            && (bill + MarginUnits(total, minimum, schedule) <= total ==>
                  && (fee - bill) as real >= total as real * schedule.netPercent
                  && fee - bill >= minimum)
            && (bill + MarginUnits(total, minimum, schedule) > total ==> fee == total)
  {
    hide Ceiling;
  }

  lemma FeeIsMonotone(small: int, large: int, fixed: int, minimum: int, schedule: Schedule)
    requires 0 < small <= large && schedule.Sensible()
    ensures FeeFor(small, fixed, minimum, schedule) <= FeeFor(large, fixed, minimum, schedule)
  {
    EstimateIsMonotone(small, large, fixed, schedule);
    MarginIsMonotone(small, large, minimum, schedule);
    hide EstimatedStripeUnits, MarginUnits;
  }

  lemma EstimateIsMonotone(small: int, large: int, fixed: int, schedule: Schedule)
    requires small <= large && schedule.Sensible()
    ensures EstimatedStripeUnits(small, fixed, schedule) <= EstimatedStripeUnits(large, fixed, schedule)
  {
    ScaledCeilingMonotone(small, large, schedule.stripePercent + schedule.safetyPercent);
  }

  lemma MarginIsMonotone(small: int, large: int, minimum: int, schedule: Schedule)
    requires small <= large && schedule.Sensible()
    ensures MarginUnits(small, minimum, schedule) <= MarginUnits(large, minimum, schedule)
  {
    ScaledCeilingMonotone(small, large, schedule.netPercent);
    var low, high := Ceiling(small as real * schedule.netPercent), Ceiling(large as real * schedule.netPercent);
    assert low <= high;
    assert MarginUnits(small, minimum, schedule) == Max(low, minimum);
    assert MarginUnits(large, minimum, schedule) == Max(high, minimum);
  }

  lemma ScaledCeilingMonotone(small: int, large: int, factor: real)
    requires small <= large && factor >= 0.0
    ensures Ceiling(small as real * factor) <= Ceiling(large as real * factor)
  {
    assert (large - small) as real * factor >= 0.0;
    assert large as real * factor == small as real * factor + (large - small) as real * factor;
    CeilingMonotone(small as real * factor, large as real * factor);
  }

  /** At the default rates the creator never loses more than one unit when the payer pays more. */
  lemma TakeHomeNeverDropsByMoreThanOne(small: int, large: int, fixed: int, minimum: int)
    requires 0 < small <= large
    ensures large - FeeFor(large, fixed, minimum, DEFAULT_SCHEDULE) >=
            small - FeeFor(small, fixed, minimum, DEFAULT_SCHEDULE) - 1
  {
  }

  /** The one-unit drop does happen: both ceilings step up between 500 and 501 units. */
  lemma TakeHomeCanDrop()
    ensures 501 - FeeFor(501, 0, 0, DEFAULT_SCHEDULE) == 500 - FeeFor(500, 0, 0, DEFAULT_SCHEDULE) - 1
  {
  }

  /** End to end: positive rates make the converted constants non-negative, so the computed fee
      always fits the charge, and a fee is refused only for want of a rate. */
  lemma ComputeFitsTheCharge(total: int, currency: string, rates: Rates, schedule: Schedule)
    requires PositiveRates(rates) && schedule.Sensible() && schedule.fixedUsd >= 0.0 && schedule.netMinUsd >= 0.0
    ensures var r := Compute(total, currency, rates, schedule);
            && (r.Success? ==> 0 <= r.value <= Max(total, 0))
            && (r.Failure? <==>
                && total > 0 && (schedule.fixedUsd > 0.0 || schedule.netMinUsd > 0.0)
                && Upper(currency) != "USD" && ("USD" !in rates || Upper(currency) !in rates))
  {
    assert Upper("usd") == "USD" by {
      assert UpperChar('u') == 'U' && UpperChar('s') == 'S' && UpperChar('d') == 'D';
    }
    ConvertedUnitsNonNegative(schedule.fixedUsd, currency, rates);
    ConvertedUnitsNonNegative(schedule.netMinUsd, currency, rates);
    var r := Compute(total, currency, rates, schedule);
    if r.Success? && total > 0 {
      FeeBounds(total, ConvertedUnits(schedule.fixedUsd, currency, rates).value,
                ConvertedUnits(schedule.netMinUsd, currency, rates).value, schedule);
    }
  }

  /** A constant of the schedule in units of the payer's currency, unrounded. */
  function ExactConstant(usd: real, currency: string, rates: Rates): real {
    ExactConversion(usd, "usd", currency, rates) * MinorUnits(currency) as real
  }

  lemma ConstantIsRounded(usd: real, currency: string, rates: Rates)
    requires ConvertedUnits(usd, currency, rates).Success?
    ensures Abs(ConvertedUnits(usd, currency, rates).value as real - ExactConstant(usd, currency, rates)) <= 0.5
  {
    ConversionRoundsOnce(usd, "usd", currency, rates);
  }

  /** The fee is the documented formula on the dollar constants at the payer's rates: unless it is the
      whole charge it is less than one unit below the formula and less than three above, one from each
      ceiling and half from each constant. Nothing is charged on nothing. */
  lemma ComputeFollowsFormula(total: int, currency: string, rates: Rates, schedule: Schedule)
    requires PositiveRates(rates) && schedule.Sensible() && schedule.fixedUsd >= 0.0 && schedule.netMinUsd >= 0.0
    ensures total <= 0 ==> Compute(total, currency, rates, schedule) == Success(0)
    ensures var r := Compute(total, currency, rates, schedule);
            r.Success? && total > 0 ==>
              var formula := Formula(total as real, ExactConstant(schedule.fixedUsd, currency, rates),
                                     ExactConstant(schedule.netMinUsd, currency, rates), schedule);
              (r.value == total || formula - 1.0 <= r.value as real) && (r.value as real) < formula + 3.0
  {
    hide ConvertedUnits, ExactConstant, FeeFor, Formula;
    var r := Compute(total, currency, rates, schedule);
    if r.Success? && total > 0 {
      ConvertedUnitsNonNegative(schedule.fixedUsd, currency, rates);
      ConvertedUnitsNonNegative(schedule.netMinUsd, currency, rates);
      ConstantIsRounded(schedule.fixedUsd, currency, rates);
      ConstantIsRounded(schedule.netMinUsd, currency, rates);
      var fixed, minimum := ConvertedUnits(schedule.fixedUsd, currency, rates).value, ConvertedUnits(schedule.netMinUsd, currency, rates).value;
      FeeBounds(total, fixed, minimum, schedule);
      FormulaIsSteady(total as real, fixed as real, minimum as real, ExactConstant(schedule.fixedUsd, currency, rates),
                      ExactConstant(schedule.netMinUsd, currency, rates), schedule);
    }
  }

  /** By default a dollar charge of 100.00 carries 3.20 plus 0.30 of estimated cost and 1.00 of margin,
      and one of 10.00 carries 0.32 plus 0.30 plus the minimum of 0.25. */
  lemma DefaultFees(rates: Rates)
    ensures Compute(10000, "usd", rates, DEFAULT_SCHEDULE) == Success(450)
    ensures Compute(1000, "usd", rates, DEFAULT_SCHEDULE) == Success(87)
  {
    assert Lower("usd") == "usd";
    UnitsByCode("usd");
    HalfUpOfInteger(30);
    assert DEFAULT_SCHEDULE.fixedUsd * MinorUnits("usd") as real == 30 as real;
    assert ConvertedUnits(DEFAULT_SCHEDULE.fixedUsd, "usd", rates) == Success(30);
    assert ConvertedUnits(DEFAULT_SCHEDULE.netMinUsd, "usd", rates) == Success(25);
    assert EstimatedStripeUnits(10000, 30, DEFAULT_SCHEDULE) == 350;
    assert EstimatedStripeUnits(1000, 30, DEFAULT_SCHEDULE) == 62;
    assert MarginUnits(10000, 25, DEFAULT_SCHEDULE) == 100 && MarginUnits(1000, 25, DEFAULT_SCHEDULE) == 25;
  }

  lemma ConvertedUnitsNonNegative(usd: real, currency: string, rates: Rates)
    requires PositiveRates(rates) && usd >= 0.0
    ensures var r := ConvertedUnits(usd, currency, rates); r.Success? ==> r.value >= 0
  {
    var r := ConvertedUnits(usd, currency, rates);
    if r.Success? {
      ConversionRoundsOnce(usd, "usd", currency, rates);
      var source, target := Upper("usd"), Upper(currency);
      if source in rates && target in rates {
        assert rates[target] / rates[source] > 0.0;
      }
      assert ExactConversion(usd, "usd", currency, rates) >= 0.0;
    }
  }
}
