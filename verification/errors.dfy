/** The exceptions the core throws, as values. */
module Errors {

  /** The parameter or request field an error or a validation failure is about. */
  datatype Field =
    | ProductId
    | ProductName
    | UnitPrice
    | Quantity
    | DiscountPercentage
    | ValueToAdd
    | VatRate
    | Code
    | Percentage
    | CountryCode
    | Items

  datatype Error =
    /** `ArgumentException`: an empty or blank argument. */
    | InvalidArgument(field: Field)
    /** `ArgumentOutOfRangeException`. */
    | OutOfRange(field: Field)
    /** `InvalidOperationException` raised when two currencies differ:
        `found` was offered where `expected` was required. */
    | CurrencyMismatch(found: string, expected: string)
    /** `DivideByZeroException`. */
    | DivideByZero
    /** `InvalidOperationException("Basket not found")`. */
    | BasketNotFound
    /** `InvalidOperationException("Invalid discount code: <code>")`. */
    | InvalidDiscountCode(code: string)
    /** `NullReferenceException`: the repository returned no basket and the
        caller dereferenced it without a check. */
    | NullBasket
}
