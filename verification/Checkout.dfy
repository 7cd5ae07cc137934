/** Stripe line items of a package and their totals in the payer's currency. */
module Checkout {
  import opened Basics
  import opened Rounding
  import opened Currencies
  import opened ExchangeRates

  /** The columns of a packaged record that checkout reads. */
  datatype Expense = Expense(title: string, merchant: string, balance: Option<real>, currency: string, active: bool)

  datatype LineItem = LineItem(currency: string, name: string, description: Option<string>, unitAmount: int, quantity: nat)

  datatype CheckoutItems = CheckoutItems(lineItems: seq<LineItem>, totalCents: int, totalAmount: real)

  const NO_ITEMS := CheckoutItems([], 0, 0.0)

  predicate Payable(expense: Expense) {
    expense.active && expense.balance.Some? && expense.balance.value > 0.0
  }

  /** The line item of one record and its converted amount; None when there is nothing to bill. */
  function LineItemFor(expense: Expense, currency: string, rates: Rates): Result<Option<(LineItem, real)>, RateError> {
    if expense.balance.None? || expense.balance.value <= 0.0 then Success(None)
    else
      match ConvertStrict(expense.balance.value, expense.currency, currency, rates)
      case Failure(e) => Failure(e)
      case Success(converted) =>
        var cents := ToStripeAmount(converted, currency);
        if cents <= 0 then Success(None)
        else
          var name := if expense.title == "" then "Expense Item" else expense.title;
          var description := if expense.merchant == "" then None else Some("Merchant: " + expense.merchant);
          Success(Some((LineItem(currency, name, description, cents, 1), converted)))
  }

  /** What the per-record loop has accumulated after the given records. */
  function PerRecordItems(expenses: seq<Expense>, currency: string, rates: Rates): Result<CheckoutItems, RateError> {
    if expenses == [] then Success(NO_ITEMS)
    else
      match PerRecordItems(expenses[..|expenses| - 1], currency, rates)
      case Failure(e) => Failure(e)
      case Success(items) => AddRecord(items, expenses[|expenses| - 1], currency, rates)
  }

  function AddRecord(items: CheckoutItems, expense: Expense, currency: string, rates: Rates): Result<CheckoutItems, RateError> {
    if !expense.active then Success(items)
    else
      match LineItemFor(expense, currency, rates)
      case Failure(e) => Failure(e)
      case Success(None) => Success(items)
      case Success(Some((item, converted))) =>
        Success(CheckoutItems(items.lineItems + [item], items.totalCents + item.unitAmount, items.totalAmount + converted))
  }

  /** Sum of the converted balances of the active records, whatever their sign. */
  function StrictTotal(expenses: seq<Expense>, currency: string, rates: Rates): Result<real, RateError> {
    if expenses == [] then Success(0.0)
    else
      var last := expenses[|expenses| - 1];
      match StrictTotal(expenses[..|expenses| - 1], currency, rates)
      case Failure(e) => Failure(e)
      case Success(total) =>
        if !last.active || last.balance.None? then Success(total)
        else
          match ConvertStrict(last.balance.value, last.currency, currency, rates)
          case Failure(e) => Failure(e)
          case Success(converted) => Success(total + converted)
  }

  /** A single item for the whole package, or nothing when nothing is payable. */
  function FallbackItems(expenses: seq<Expense>, title: string, currency: string, rates: Rates): Result<CheckoutItems, RateError> {
    match StrictTotal(expenses, currency, rates)
    case Failure(e) => Failure(e)
    case Success(total) =>
      var cents := ToStripeAmount(total, currency);
      if cents <= 0 then Success(NO_ITEMS)
      else
        var name := if title == "" then "Reimbursement" else title;
        Success(CheckoutItems([LineItem(currency, name, None, cents, 1)], cents, total))
  }

  function Items(expenses: seq<Expense>, title: string, currency: string, rates: Rates): Result<CheckoutItems, RateError> {
    match PerRecordItems(expenses, currency, rates)
    case Failure(e) => Failure(e)
    case Success(items) =>
      if items.lineItems != [] then Success(items) else FallbackItems(expenses, title, currency, rates)
  }

  // ----- The loops of the source -----

  method StrictConvertedTotal(expenses: seq<Expense>, currency: string, rates: Rates) returns (r: Result<real, RateError>)
    ensures r == StrictTotal(expenses, currency, rates)
  {
    var total := 0.0;
    var i := 0;
    while i < |expenses|
      invariant 0 <= i <= |expenses|
      invariant StrictTotal(expenses[..i], currency, rates) == Success(total)
    {
      assert expenses[..i + 1][..i] == expenses[..i];
      if expenses[i].active && expenses[i].balance.Some? {
        var converted := ConvertStrict(expenses[i].balance.value, expenses[i].currency, currency, rates);
        if converted.Failure? {
          StrictTotalFailsLater(expenses, i + 1, currency, rates);
          return converted;
        }
        total := total + converted.value;
      }
      i := i + 1;
    }
    assert expenses[..i] == expenses;
    return Success(total);
  }

  method BuildLineItems(expenses: seq<Expense>, title: string, currency: string, rates: Rates)
    returns (r: Result<CheckoutItems, RateError>)
    ensures r == Items(expenses, title, currency, rates)
    ensures r.Success? ==>
      && r.value.totalCents == SumUnitAmounts(r.value.lineItems)
      && forall item | item in r.value.lineItems :: item.unitAmount > 0 && item.quantity == 1 && item.currency == currency
  {
    ItemsAreSound(expenses, title, currency, rates);
    hide StrictTotal, ToStripeAmount, LineItemFor, SumUnitAmounts;
    var lineItems: seq<LineItem> := [];
    var totalCents := 0;
    var totalAmount := 0.0;
    var i := 0;
    while i < |expenses|
      invariant 0 <= i <= |expenses|
      invariant PerRecordItems(expenses[..i], currency, rates) == Success(CheckoutItems(lineItems, totalCents, totalAmount))
    {
      assert expenses[..i + 1][..i] == expenses[..i];
      if expenses[i].active {
        var item := LineItemFor(expenses[i], currency, rates);
        if item.Failure? {
          PerRecordFailsLater(expenses, i + 1, currency, rates);
          return Failure(item.error);
        }
        if item.value.Some? {
          var (line, converted) := item.value.value;
          lineItems := lineItems + [line];
          totalCents := totalCents + line.unitAmount;
          totalAmount := totalAmount + converted;
        }
      }
      i := i + 1;
    }
    assert expenses[..i] == expenses;
    if lineItems != [] {
      return Success(CheckoutItems(lineItems, totalCents, totalAmount));
    }
    var total := StrictConvertedTotal(expenses, currency, rates);
    if total.Failure? {
      return Failure(total.error);
    }
    var cents := ToStripeAmount(total.value, currency);
    if cents <= 0 {
      return Success(NO_ITEMS);
    }
    var name := if title == "" then "Reimbursement" else title;
    return Success(CheckoutItems([LineItem(currency, name, None, cents, 1)], cents, total.value));
  }

  lemma {:induction false} StrictTotalFailsLater(expenses: seq<Expense>, n: nat, currency: string, rates: Rates)
    requires n <= |expenses| && StrictTotal(expenses[..n], currency, rates).Failure?
    ensures StrictTotal(expenses, currency, rates) == StrictTotal(expenses[..n], currency, rates)
  {
    if n < |expenses| {
      var shorter := expenses[..|expenses| - 1];
      assert shorter[..n] == expenses[..n];
      StrictTotalFailsLater(shorter, n, currency, rates);
    } else {
      assert expenses[..n] == expenses;
    }
  }

  lemma {:induction false} PerRecordFailsLater(expenses: seq<Expense>, n: nat, currency: string, rates: Rates)
    requires n <= |expenses| && PerRecordItems(expenses[..n], currency, rates).Failure?
    ensures PerRecordItems(expenses, currency, rates) == PerRecordItems(expenses[..n], currency, rates)
  {
    if n < |expenses| {
      var shorter := expenses[..|expenses| - 1];
      assert shorter[..n] == expenses[..n];
      PerRecordFailsLater(shorter, n, currency, rates);
    } else {
      assert expenses[..n] == expenses;
    }
  }

  // ----- What is billed -----

  function SumUnitAmounts(items: seq<LineItem>): int {
    if items == [] then 0
    else SumUnitAmounts(items[..|items| - 1]) + items[|items| - 1].unitAmount * items[|items| - 1].quantity
  }

  predicate Sound(items: CheckoutItems, currency: string) {
    && items.totalCents == SumUnitAmounts(items.lineItems)
    && forall item | item in items.lineItems :: item.unitAmount > 0 && item.quantity == 1 && item.currency == currency
  }

  lemma AddRecordKeepsSound(items: CheckoutItems, expense: Expense, currency: string, rates: Rates)
    requires Sound(items, currency)
    ensures var r := AddRecord(items, expense, currency, rates); r.Success? ==> Sound(r.value, currency)
  {
    hide ConvertStrict, ToStripeAmount;
    var r := AddRecord(items, expense, currency, rates);
    if r.Success? && r.value != items {
      assert r.value.lineItems[..|r.value.lineItems| - 1] == items.lineItems;
    }
  }

  lemma {:induction false} PerRecordItemsAreSound(expenses: seq<Expense>, currency: string, rates: Rates)
    ensures var r := PerRecordItems(expenses, currency, rates); r.Success? ==> Sound(r.value, currency)
  {
    hide AddRecord;
    if expenses != [] {
      var shorter := PerRecordItems(expenses[..|expenses| - 1], currency, rates);
      PerRecordItemsAreSound(expenses[..|expenses| - 1], currency, rates);
      if shorter.Success? {
        AddRecordKeepsSound(shorter.value, expenses[|expenses| - 1], currency, rates);
      }
    }
  }

  /** In both branches the total is the sum of positive unit amounts in the payer's currency,
      so a non-empty checkout bills a positive total. */
  lemma {:induction false} ItemsAreSound(expenses: seq<Expense>, title: string, currency: string, rates: Rates)
    ensures var r := Items(expenses, title, currency, rates);
            r.Success? ==> Sound(r.value, currency) && (r.value.lineItems == [] <==> r.value.totalCents <= 0)
  {
    PerRecordItemsAreSound(expenses, currency, rates);
    var r := Items(expenses, title, currency, rates);
    if r.Success? {
      var items := r.value.lineItems;
      if PerRecordItems(expenses, currency, rates).value.lineItems == [] && items != [] {
        assert SumUnitAmounts(items[..0]) == 0;
      }
      SumIsPositive(items);
    }
  }

  lemma {:induction false} SumIsPositive(items: seq<LineItem>)
    requires forall item | item in items :: item.unitAmount > 0 && item.quantity == 1
    ensures SumUnitAmounts(items) >= |items|
  {
    if items != [] {
      SumIsPositive(items[..|items| - 1]);
    }
  }

  function PayableCount(expenses: seq<Expense>): nat {
    if expenses == [] then 0
    else PayableCount(expenses[..|expenses| - 1]) + (if Payable(expenses[|expenses| - 1]) then 1 else 0)
  }

  /** A billable balance converted without rounding, in minor units of the payer's currency. */
  function ExactRecordUnits(expense: Expense, currency: string, rates: Rates): real {
    if Payable(expense)
    then ExactConversion(expense.balance.value, expense.currency, currency, rates) * MinorUnits(currency) as real
    else 0.0
  }

  function ExactUnits(expenses: seq<Expense>, currency: string, rates: Rates): real {
    if expenses == [] then 0.0
    else ExactUnits(expenses[..|expenses| - 1], currency, rates) + ExactRecordUnits(expenses[|expenses| - 1], currency, rates)
  }

  lemma ConversionKeepsSign(expense: Expense, currency: string, rates: Rates)
    requires Payable(expense) && PositiveRates(rates)
    ensures ExactRecordUnits(expense, currency, rates) > 0.0
  {
    var exact := ExactConversion(expense.balance.value, expense.currency, currency, rates);
    var source, target := Upper(expense.currency), Upper(currency);
    if source != target && source in rates && target in rates {
      assert rates[target] / rates[source] > 0.0;
    }
    assert exact > 0.0;
  }

  /** One record moves the total by its exact value give or take half a unit. */
  lemma RecordError(items: CheckoutItems, expense: Expense, currency: string, rates: Rates)
    requires PositiveRates(rates) && AddRecord(items, expense, currency, rates).Success?
    ensures Abs((AddRecord(items, expense, currency, rates).value.totalCents - items.totalCents) as real
                - ExactRecordUnits(expense, currency, rates)) <= (if Payable(expense) then 0.5 else 0.0)
  {
    if Payable(expense) {
      ConversionRoundsOnce(expense.balance.value, expense.currency, currency, rates);
      ConversionKeepsSign(expense, currency, rates);
    }
  }

  lemma FromStripeAdds(a: int, b: int, currency: string)
    ensures FromStripeAmount(a + b, currency) == FromStripeAmount(a, currency) + FromStripeAmount(b, currency)
  {
  }

  /** One record in another currency adds the same amount to both totals. */
  lemma RecordIsExact(items: CheckoutItems, expense: Expense, currency: string, rates: Rates)
    requires Upper(expense.currency) != Upper(currency) && AddRecord(items, expense, currency, rates).Success?
    requires items.totalAmount == FromStripeAmount(items.totalCents, currency)
    ensures var after := AddRecord(items, expense, currency, rates).value;
            after.totalAmount == FromStripeAmount(after.totalCents, currency)
  {
    if Payable(expense) {
      ConversionRoundsOnce(expense.balance.value, expense.currency, currency, rates);
      var after := AddRecord(items, expense, currency, rates).value;
      FromStripeAdds(items.totalCents, after.totalCents - items.totalCents, currency);
    }
  }

  /** Per-record rounding: the billed total is within half a minor unit per billable record of the
      exact converted sum, records dropped because they round to zero included. */
  lemma {:induction false} RoundingErrorBound(expenses: seq<Expense>, currency: string, rates: Rates)
    requires PositiveRates(rates)
    requires PerRecordItems(expenses, currency, rates).Success?
    ensures Abs(PerRecordItems(expenses, currency, rates).value.totalCents as real - ExactUnits(expenses, currency, rates))
            <= PayableCount(expenses) as real / 2.0
  {
    if expenses != [] {
      var shorter, last := expenses[..|expenses| - 1], expenses[|expenses| - 1];
      RoundingErrorBound(shorter, currency, rates);
      RecordError(PerRecordItems(shorter, currency, rates).value, last, currency, rates);
    }
  }

  /** When every record is in another currency, the decimal total says exactly what is billed. */
  lemma {:induction false} CrossCurrencyTotalIsExact(expenses: seq<Expense>, currency: string, rates: Rates)
    requires forall e | e in expenses :: Upper(e.currency) != Upper(currency)
    requires PerRecordItems(expenses, currency, rates).Success?
    ensures var items := PerRecordItems(expenses, currency, rates).value;
            items.totalAmount == FromStripeAmount(items.totalCents, currency)
  {
    if expenses != [] {
      var shorter, last := expenses[..|expenses| - 1], expenses[|expenses| - 1];
      CrossCurrencyTotalIsExact(shorter, currency, rates);
      RecordIsExact(PerRecordItems(shorter, currency, rates).value, last, currency, rates);
    }
  }

  predicate NeedsMissingRate(expense: Expense, currency: string, rates: Rates) {
    Payable(expense) && LacksRate(expense.currency, currency, rates)
  }

  /** The per-record branch refuses to bill exactly when some billable record has no usable rate. */
  lemma {:induction false} RefusesExactlyWithoutRates(expenses: seq<Expense>, currency: string, rates: Rates)
    ensures PerRecordItems(expenses, currency, rates).Failure? <==>
            exists e :: e in expenses && NeedsMissingRate(e, currency, rates)
  {
    if expenses != [] {
      var shorter, last := expenses[..|expenses| - 1], expenses[|expenses| - 1];
      RefusesExactlyWithoutRates(shorter, currency, rates);
      assert expenses == shorter + [last];
      RecordRefuses(last, currency, rates);
    }
  }

  lemma RecordRefuses(expense: Expense, currency: string, rates: Rates)
    ensures LineItemFor(expense, currency, rates).Failure? && expense.active <==> NeedsMissingRate(expense, currency, rates)
  {
    hide ConvertStrict, LacksRate;
    if expense.balance.Some? {
      RefusesExactlyWithoutRate(expense.balance.value, expense.currency, currency, rates);
    }
  }

  /** A record the fallback counts, of whatever sign, without a usable rate. */
  predicate CountsWithoutRate(expense: Expense, currency: string, rates: Rates) {
    && expense.active && expense.balance.Some? && expense.balance.value != 0.0
    && LacksRate(expense.currency, currency, rates)
  }

  lemma {:induction false} TotalRefusesExactlyWithoutRates(expenses: seq<Expense>, currency: string, rates: Rates)
    ensures StrictTotal(expenses, currency, rates).Failure? <==>
            exists e :: e in expenses && CountsWithoutRate(e, currency, rates)
  {
    hide ConvertStrict, LacksRate;
    if expenses != [] {
      var shorter, last := expenses[..|expenses| - 1], expenses[|expenses| - 1];
      TotalRefusesExactlyWithoutRates(shorter, currency, rates);
      assert expenses == shorter + [last];
      if last.active && last.balance.Some? {
        RefusesExactlyWithoutRate(last.balance.value, last.currency, currency, rates);
        assert ConvertStrict(last.balance.value, last.currency, currency, rates).Failure? <==> CountsWithoutRate(last, currency, rates);
      }
      assert StrictTotal(expenses, currency, rates).Failure? <==>
             StrictTotal(shorter, currency, rates).Failure? || CountsWithoutRate(last, currency, rates);
    }
  }

  // ----- Which records are billed, and as what -----

  /** The billable records that come to at least one minor unit once rounded. */
  function BilledRecords(expenses: seq<Expense>, currency: string, rates: Rates): seq<Expense> {
    if expenses == [] then []
    else
      var last := expenses[|expenses| - 1];
      BilledRecords(expenses[..|expenses| - 1], currency, rates)
      + (if Payable(last) && ExactRecordUnits(last, currency, rates) >= 0.5 then [last] else [])
  }

  /** The line item of a record: its title, its merchant, and its exact amount to the nearest unit. */
  predicate Bills(item: LineItem, expense: Expense, currency: string, rates: Rates) {
    && item.currency == currency && item.quantity == 1 && item.unitAmount == HalfUp(ExactRecordUnits(expense, currency, rates))
    && item.name == (if expense.title == "" then "Expense Item" else expense.title)
    && item.description == (if expense.merchant == "" then None else Some("Merchant: " + expense.merchant))
  }

  /** The per-record branch bills exactly those records, in order, one line item each. */
  lemma {:induction false} LineItemsAreBilledRecords(expenses: seq<Expense>, currency: string, rates: Rates)
    requires PerRecordItems(expenses, currency, rates).Success?
    ensures var items, billed := PerRecordItems(expenses, currency, rates).value.lineItems, BilledRecords(expenses, currency, rates);
            |items| == |billed| && forall k | 0 <= k < |items| :: Bills(items[k], billed[k], currency, rates)
  {
    hide LineItemFor, Bills, ExactRecordUnits;
    if expenses != [] {
      LineItemsAreBilledRecords(expenses[..|expenses| - 1], currency, rates);
      RecordIsBilled(expenses[|expenses| - 1], currency, rates);
    }
  }

  lemma RecordIsBilled(expense: Expense, currency: string, rates: Rates)
    requires expense.active ==> LineItemFor(expense, currency, rates).Success?
    ensures var billed := Payable(expense) && ExactRecordUnits(expense, currency, rates) >= 0.5;
            expense.active ==>
              var item := LineItemFor(expense, currency, rates).value;
              (item.Some? <==> billed) && (item.Some? ==> Bills(item.value.0, expense, currency, rates))
  {
    hide ConvertStrict, ToStripeAmount, HalfUp, ExactRecordUnits;
    if Payable(expense) && LineItemFor(expense, currency, rates).Success? {
      RecordUnits(expense, currency, rates);
    }
  }

  lemma RecordUnits(expense: Expense, currency: string, rates: Rates)
    requires Payable(expense) && ConvertStrict(expense.balance.value, expense.currency, currency, rates).Success?
    ensures var units := ExactRecordUnits(expense, currency, rates);
            && ToStripeAmount(ConvertStrict(expense.balance.value, expense.currency, currency, rates).value, currency) == HalfUp(units)
            && (HalfUp(units) > 0 <==> units >= 0.5)
  {
    ConversionRoundsOnce(expense.balance.value, expense.currency, currency, rates);
    hide ConvertStrict, ExactConversion, MinorUnits;
  }

  /** When no record comes to a unit of its own, the package is billed as one item for its total, if that
      comes to a unit; otherwise there is nothing to pay. */
  lemma FallbackBillsTheTotal(expenses: seq<Expense>, title: string, currency: string, rates: Rates)
    requires (forall e | e in expenses :: !NeedsMissingRate(e, currency, rates) && !CountsWithoutRate(e, currency, rates))
    requires BilledRecords(expenses, currency, rates) == []
    ensures StrictTotal(expenses, currency, rates).Success?
    ensures var total := StrictTotal(expenses, currency, rates).value;
            var cents := HalfUp(total * MinorUnits(currency) as real);
            Items(expenses, title, currency, rates) == Success(
              if cents <= 0 then CheckoutItems([], 0, 0.0)
              else CheckoutItems([LineItem(currency, if title == "" then "Reimbursement" else title, None, cents, 1)], cents, total))
  {
    hide NeedsMissingRate, CountsWithoutRate, BilledRecords;
    RefusesExactlyWithoutRates(expenses, currency, rates);
    TotalRefusesExactlyWithoutRates(expenses, currency, rates);
    LineItemsAreBilledRecords(expenses, currency, rates);
  }

  function InUnits(amount: real, currency: string): real {
    amount * MinorUnits(currency) as real
  }

  /** The balance of a record the total counts, in units and without rounding. */
  function ExactCountedUnits(expense: Expense, currency: string, rates: Rates): real {
    if expense.active && expense.balance.Some?
    then InUnits(ExactConversion(expense.balance.value, expense.currency, currency, rates), currency) else 0.0
  }

  function ExactTotalUnits(expenses: seq<Expense>, currency: string, rates: Rates): real {
    if expenses == [] then 0.0
    else ExactTotalUnits(expenses[..|expenses| - 1], currency, rates) + ExactCountedUnits(expenses[|expenses| - 1], currency, rates)
  }

  lemma InUnitsAdds(a: real, b: real, currency: string)
    ensures InUnits(a + b, currency) == InUnits(a, currency) + InUnits(b, currency)
    ensures InUnits(0.0, currency) == 0.0
  {
  }

  /** The total counts every active record, negative balances too, to half a unit each. */
  lemma {:induction false} TotalErrorBound(expenses: seq<Expense>, currency: string, rates: Rates)
    requires StrictTotal(expenses, currency, rates).Success?
    ensures Abs(InUnits(StrictTotal(expenses, currency, rates).value, currency) - ExactTotalUnits(expenses, currency, rates))
            <= 0.5 * |expenses| as real
  {
    hide ConvertStrict, ExactConversion, InUnits;
    if expenses == [] {
      InUnitsAdds(0.0, 0.0, currency);
    } else {
      var shorter, last := expenses[..|expenses| - 1], expenses[|expenses| - 1];
      TotalErrorBound(shorter, currency, rates);
      if last.active && last.balance.Some? {
        var converted := ConvertStrict(last.balance.value, last.currency, currency, rates).value;
        ConversionError(last.balance.value, last.currency, currency, rates);
        InUnitsAdds(StrictTotal(shorter, currency, rates).value, converted, currency);
      }
    }
  }

  lemma ConversionError(amount: real, fromCurrency: string, currency: string, rates: Rates)
    requires ConvertStrict(amount, fromCurrency, currency, rates).Success?
    ensures Abs(InUnits(ConvertStrict(amount, fromCurrency, currency, rates).value, currency)
                - InUnits(ExactConversion(amount, fromCurrency, currency, rates), currency)) <= 0.5
  {
    ConversionRoundsOnce(amount, fromCurrency, currency, rates);
    var converted := ConvertStrict(amount, fromCurrency, currency, rates).value;
    var cents := ToStripeAmount(converted, currency);
    FromStripeScaled(cents, currency);
    if Upper(fromCurrency) == Upper(currency) {
      assert converted == ExactConversion(amount, fromCurrency, currency, rates);
    }
    hide ConvertStrict, ExactConversion, MinorUnits, ToStripeAmount, FromStripeAmount;
  }
}
