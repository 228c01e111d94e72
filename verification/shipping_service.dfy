/** The shipping-cost lookup
    (src/ShoppingBasket.Application/Services/ShippingService.cs). */
module ShippingService {
  import opened Text
  import opened ValueObjects

  /** The known destinations and their charges, in the base currency. */
  const ShippingRates: map<string, real> := map["US" := 5.0, "UK" := 3.0, "DE" := 4.0]

  /** The charge for every other destination. */
  const FallbackRate: real := 10.0

  /** `GetShippingCost`: total. The country code is upper-cased, looked up in
      the table with a fallback, and returned upper-cased. */
  function GetShippingCost(countryCode: string): (r: ShippingCost)
    ensures r.countryCode == ToUpper(countryCode)
    ensures r.amount.currency == BaseCurrency
    ensures r.amount.amount == if ToUpper(countryCode) in ShippingRates
                               then ShippingRates[ToUpper(countryCode)]
                               else FallbackRate
    ensures r.amount.amount > 0.0
  {
    var upper := ToUpper(countryCode);
    if upper == "US" then ShippingCost(Money(5.0, "GBP"), "US")
    else if upper == "UK" then ShippingCost(Money(3.0, "GBP"), "UK")
    else if upper == "DE" then ShippingCost(Money(4.0, "GBP"), "DE")
    else ShippingCost(Money(10.0, "GBP"), upper)
  }

  /** Upper-casing the argument first changes nothing. */
  lemma ShippingIgnoresCase(countryCode: string)
    ensures GetShippingCost(ToUpper(countryCode)) == GetShippingCost(countryCode)
  {
    ToUpperIdempotent(countryCode);
  }

  /** The table, the fallback, and a lower-case code. */
  lemma ShippingExamples()
    ensures GetShippingCost("US") == ShippingCost(Money(5.0, "GBP"), "US")
    ensures GetShippingCost("UK") == ShippingCost(Money(3.0, "GBP"), "UK")
    ensures GetShippingCost("DE") == ShippingCost(Money(4.0, "GBP"), "DE")
    ensures GetShippingCost("FR") == ShippingCost(Money(10.0, "GBP"), "FR")
    ensures GetShippingCost("uk") == ShippingCost(Money(3.0, "GBP"), "UK")
  {
    assert ToUpper("US") == "US";
    assert ToUpper("UK") == "UK";
    assert ToUpper("DE") == "DE";
    assert ToUpper("FR") == "FR";
    assert ToUpper("uk") == "UK";
  }
}
