/** The immutable value objects of the domain: Money, DiscountCode and
    ShippingCost (src/Basket.Domain/ValueObjects). Amounts are C# `decimal`;
    the model uses exact `real` arithmetic. */
module ValueObjects {
  import opened Wrappers
  import opened Errors
  import opened Text

  /** The currency of an empty basket and of every shipping cost. */
  const BaseCurrency: string := "GBP"

  /** An amount in a currency. Equality is structural, as for the C# record. */
  datatype Money = Money(amount: real, currency: string)

  /** `a + b`: defined only between equal currencies; keeps `a`'s currency. */
  function Add(a: Money, b: Money): (r: Result<Money, Error>)
    ensures r.Ok? <==> a.currency == b.currency
    ensures r.Ok? ==> r.value.currency == a.currency && r.value.amount - b.amount == a.amount
    ensures r.Err? ==> r.error == CurrencyMismatch(b.currency, a.currency)
  {
    if a.currency != b.currency then Err(CurrencyMismatch(b.currency, a.currency))
    else Ok(Money(a.amount + b.amount, a.currency))
  }

  /** `a - b`: defined only between equal currencies; keeps `a`'s currency. */
  function Subtract(a: Money, b: Money): (r: Result<Money, Error>)
    ensures r.Ok? <==> a.currency == b.currency
    ensures r.Ok? ==> r.value.currency == a.currency && r.value.amount + b.amount == a.amount
    ensures r.Err? ==> r.error == CurrencyMismatch(b.currency, a.currency)
  {
    if a.currency != b.currency then Err(CurrencyMismatch(b.currency, a.currency))
    else Ok(Money(a.amount - b.amount, a.currency))
  }

  /** `a * factor`: total, scales the amount and keeps the currency. */
  function Multiply(a: Money, factor: real): (r: Money)
    ensures r.currency == a.currency
    ensures factor == 0.0 ==> r.amount == 0.0
    ensures factor == 1.0 ==> r == a
    ensures r.amount == a.amount * factor
  {
    Money(a.amount * factor, a.currency)
  }

  /** `a / divisor`: fails on a zero divisor, otherwise keeps the currency. */
  function Divide(a: Money, divisor: real): (r: Result<Money, Error>)
    ensures r.Ok? <==> divisor != 0.0
    ensures r.Err? ==> r.error == DivideByZero
    ensures r.Ok? ==> r.value.currency == a.currency && r.value.amount * divisor == a.amount
  {
    if divisor == 0.0 then Err(DivideByZero)
    else Ok(Money(a.amount / divisor, a.currency))
  }

  /** Adding then subtracting the same amount gives back the original. */
  lemma AddSubtractRoundTrip(a: Money, b: Money)
    requires a.currency == b.currency
    ensures Add(a, b).Ok?
    ensures Subtract(Add(a, b).value, b) == Ok(a)
  {
  }

  /** Dividing then multiplying by the same non-zero factor gives back the original. */
  lemma DivideMultiplyRoundTrip(a: Money, k: real)
    requires k != 0.0
    ensures Divide(a, k).Ok?
    ensures Multiply(Divide(a, k).value, k) == a
  {
  }

  /** Two Money values are equal exactly when amount and currency are. */
  lemma MoneyEquality(a: Money, b: Money)
    ensures a == b <==> a.amount == b.amount && a.currency == b.currency
  {
  }

  /** A basket-level percentage discount. */
  datatype DiscountCode = DiscountCode(code: string, percentage: real)

  /** The checked constructor: a blank code is rejected first, then a
      percentage outside [0, 100]; otherwise both are stored unchanged. */
  function NewDiscountCode(code: string, percentage: real): (r: Result<DiscountCode, Error>)
    ensures r.Ok? <==> !IsBlank(code) && 0.0 <= percentage <= 100.0
    ensures r.Ok? ==> r.value.code == code && r.value.percentage == percentage
    ensures IsBlank(code) ==> r == Err(InvalidArgument(Code))
    ensures !IsBlank(code) && !(0.0 <= percentage <= 100.0) ==> r == Err(OutOfRange(Percentage))
  {
    if IsBlank(code) then Err(InvalidArgument(Code))
    else if percentage < 0.0 || percentage > 100.0 then Err(OutOfRange(Percentage))
    else Ok(DiscountCode(code, percentage))
  }

  /** A shipping charge for a destination country. */
  datatype ShippingCost = ShippingCost(amount: Money, countryCode: string)
}
