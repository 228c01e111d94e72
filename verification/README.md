# Shopping basket — a Dafny model of the domain and application core

This project models the core of a shopping-basket service written in C#. It covers:

- the `Basket` aggregate, which holds line items, an optional discount code and an optional shipping cost;
- its `BasketItem` lines;
- the `Money`, `DiscountCode` and `ShippingCost` value objects;
- the two hard-coded lookup services (discount codes and shipping rates);
- the request validators;
- the `BasketService` application service that ties them together.

Amounts are C# `decimal`. The model uses Dafny's exact `real`. Quantities are unbounded integers.

Every C# exception becomes a value of `Errors.Error`, carried in a `Result`. Mutations become pure functions that return a new basket.

The service takes the repository's answer as an `Option<Basket>`. It returns a `Reply`: the repository's basket after the call, plus the call's result. This is needed because the C# basket is shared and mutable. When a bulk add throws half-way, the items added before the failure remain in the basket, and `Reply.store` records that.

Modules, one per component:

| file | module | models |
|---|---|---|
| `wrappers.dfy` | `Wrappers` | `Option` (null) and `Result` (throw) |
| `text.dfy` | `Text` | `char.IsWhiteSpace`, `string.IsNullOrWhiteSpace`, `ToUpper`, `OrdinalIgnoreCase` |
| `errors.dfy` | `Errors` | the exception kinds and the fields they name |
| `value_objects.dfy` | `ValueObjects` | `Money`, `DiscountCode`, `ShippingCost` |
| `basket_item.dfy` | `BasketItems` | `BasketItem` |
| `basket.dfy` | `Baskets` | `Basket` |
| `basket_properties.dfy` | `BasketProperties` | the invariant, removal, setters and a per-line restatement of the net total |
| `discount_code_service.dfy` | `DiscountCodeService` | `DiscountCodeService` |
| `shipping_service.dfy` | `ShippingService` | `ShippingService` |
| `validators.dfy` | `Validators` | the request records and their validators |
| `basket_service.dfy` | `BasketService` | `BasketService` |

Behaviour modelled as the code has it, where a reader might expect otherwise:

- **BasketItem accepts any discount.** The constructor's range check reads the `DiscountPercentage` property before it has been assigned, so the comparison sees null and never fires. `BasketItems.NewBasketItem` does the same: `NewBasketItemIgnoresDiscount` proves that acceptance never depends on the discount, and `OversizedDiscountAccepted` shows a 150 % discount accepted with a negative line total. The add-item validator is the only place that enforces the 0 to 100 range.
- **The new line's discount is dropped on a merge.** When a product is added again, only the quantity is merged. The existing line's price and discount stay.
- **The bulk path discards every request's discount.** It also has no rollback when a later item fails.
- **Shipping is added without a currency check.** `GetTotalWithoutVat` adds the shipping amount whatever its currency is.
- **Unguarded dereferences.** Only `AddItemToBasketAsync` checks for a missing basket (`BasketNotFound`). Every other service operation dereferences the basket directly; the model reports that as `NullBasket`. `ApplyDiscountCodeAsync` runs the code lookup before it touches the basket, so an unknown code is reported even when there is no basket.

## Model

| member | source | states |
|---|---|---|
| ValueObjects.Add | src/Basket.Domain/ValueObjects/Money.cs:5-12 | succeeds iff the currencies are equal, otherwise fails with a currency mismatch; the result keeps `a`'s currency and its amount minus `b`'s is `a`'s |
| ValueObjects.Subtract | src/Basket.Domain/ValueObjects/Money.cs:14-21 | succeeds iff the currencies are equal; the result keeps `a`'s currency and its amount plus `b`'s is `a`'s |
| ValueObjects.Multiply | src/Basket.Domain/ValueObjects/Money.cs:23-26 | never fails and keeps the currency; factor 0 gives zero, factor 1 gives the value back |
| ValueObjects.Divide | src/Basket.Domain/ValueObjects/Money.cs:28-35 | fails with DivideByZero iff the divisor is 0; otherwise keeps the currency, and the quotient times the divisor is the original amount |
| ValueObjects.AddSubtractRoundTrip | src/Basket.Domain/ValueObjects/Money.cs:5-21 | for equal currencies, (a + b) − b = a |
| ValueObjects.DivideMultiplyRoundTrip | src/Basket.Domain/ValueObjects/Money.cs:23-35 | for k ≠ 0, (a / k) × k = a |
| ValueObjects.MoneyEquality | src/Basket.Domain/ValueObjects/Money.cs:3 | two Money values are equal iff amount and currency are equal |
| ValueObjects.NewDiscountCode | src/Basket.Domain/ValueObjects/DiscountCode.cs:8-17 | succeeds iff the code is not blank and the percentage is in [0, 100], so both boundaries are accepted; a blank code is reported before a bad percentage; a success stores both values unchanged |
| BasketItems.NewBasketItem | src/ShoppingBasket.Domain/Entities/BasketItem.cs:13-41 | succeeds iff the id is not Empty, the name is not blank, the price is ≥ 0 and the quantity is > 0, each failure with its own error in check order; the discount is never checked; a success stores every argument and is a valid line |
| BasketItems.NewBasketItemIgnoresDiscount | src/ShoppingBasket.Domain/Entities/BasketItem.cs:31-34 | whether construction succeeds is the same for any two discount values |
| BasketItems.OversizedDiscountAccepted | src/ShoppingBasket.Domain/Entities/BasketItem.cs:31-40 | a 150 % discount is accepted, and that line's total is negative (−5 for one unit at 10) |
| BasketItems.IncreaseQuantityBy | src/ShoppingBasket.Domain/Entities/BasketItem.cs:43-50 | fails with OutOfRange iff the increment is ≤ 0; otherwise the quantity grows by exactly the increment, id, name, price and discount are unchanged, and validity (quantity ≥ 1) is kept |
| BasketItems.GetTotalPrice | src/ShoppingBasket.Domain/Entities/BasketItem.cs:52-61 | in the unit price's currency, equal to price × quantity × (1 − discount/100), with an absent discount counting as 0 |
| BasketItems.TotalPriceBounds | src/ShoppingBasket.Domain/Entities/BasketItem.cs:52-61 | with price ≥ 0, quantity ≥ 0 and a discount in [0, 100], 0 ≤ line total ≤ price × quantity |
| BasketItems.TotalPriceAddsUnderIncrease | src/ShoppingBasket.Domain/Entities/BasketItem.cs:43-61 | after adding n units, the line total is the old total plus the total of n units at the same price and discount |
| BasketItems.DiscountedItemExample | tests/Basket.Tests/Domain/BasketTests.cs:141-160 | two units at 100 with 25 % off cost 150 GBP |
| Baskets.Currency | src/ShoppingBasket.Domain/Entities/Basket.cs:8 | GBP for an empty basket; in a single-currency basket, the currency of every line |
| Baskets.HasProductAppend | src/ShoppingBasket.Domain/Entities/Basket.cs:27-35 | after appending a line, a product is present iff it was present before or is the appended line's |
| Baskets.FindProduct | src/ShoppingBasket.Domain/Entities/Basket.cs:27 | finds the first line with the id, and finds none iff no line has it |
| Baskets.AddItem | src/ShoppingBasket.Domain/Entities/Basket.cs:15-37 | a non-empty basket refuses another currency with a mismatch naming both currencies; an empty basket takes any; a new product is appended at the end; an existing product keeps its line, price and discount and gains the quantity, and that merge fails iff the added quantity is ≤ 0; code and shipping are untouched |
| Baskets.RemoveItem | src/ShoppingBasket.Domain/Entities/Basket.cs:39-46 | an absent id leaves the basket equal to itself; a present one removes exactly one line; code and shipping are untouched; no line is invented |
| Baskets.ApplyDiscountCode | src/ShoppingBasket.Domain/Entities/Basket.cs:82-85 | sets the code and leaves the lines and shipping unchanged |
| Baskets.SetShippingCost | src/ShoppingBasket.Domain/Entities/Basket.cs:87-90 | sets the shipping and leaves the lines and code unchanged |
| Baskets.Clear | src/ShoppingBasket.Domain/Entities/Basket.cs:92-97 | yields the empty basket, whose currency is the base currency GBP |
| Baskets.GetTotalWithoutVat | src/ShoppingBasket.Domain/Entities/Basket.cs:48-68 | the net total is in the basket's currency: the first line's, or GBP when empty |
| Baskets.GetTotalWithVat | src/ShoppingBasket.Domain/Entities/Basket.cs:70-80 | fails with OutOfRange iff the rate is outside [0, 1]; otherwise the net total × (1 + rate) in the basket's currency |
| BasketProperties.AddItemPreservesInvariant | src/ShoppingBasket.Domain/Entities/Basket.cs:15-37 | adding a valid line to a well-formed basket (unique ids, one currency, valid lines) succeeds iff the basket is empty or shares the currency, and the result is well-formed |
| BasketProperties.RemoveItemPreservesInvariant | src/ShoppingBasket.Domain/Entities/Basket.cs:39-46 | removal keeps a basket well-formed |
| BasketProperties.SettersPreserveInvariant | src/ShoppingBasket.Domain/Entities/Basket.cs:82-97 | applying a code, setting shipping and clearing keep a basket well-formed |
| BasketProperties.RemoveItemRemovesExactly | src/ShoppingBasket.Domain/Entities/Basket.cs:39-46 | with unique ids, afterwards no line has the id, the remaining lines are exactly the others, and the result is the original with one position cut out, so order is kept |
| BasketProperties.SettersLastWriteWins | src/ShoppingBasket.Domain/Entities/Basket.cs:82-90 | a second code replaces the first, a second shipping cost replaces the first, and setting code and shipping commute |
| BasketProperties.ClearTotalIsZero | src/ShoppingBasket.Domain/Entities/Basket.cs:92-97 | after Clear, the totals without and with VAT are 0 GBP |
| BasketProperties.NetSumWithCode | src/ShoppingBasket.Domain/Entities/Basket.cs:50-60 | with a code, the per-line sum equals Σ totals − code%/100 × Σ totals of eligible lines |
| BasketProperties.NetSumWithoutCode | src/ShoppingBasket.Domain/Entities/Basket.cs:50 | without a code, the per-line sum equals Σ totals |
| BasketProperties.TotalWithoutVatIsPerLineSum | src/ShoppingBasket.Domain/Entities/Basket.cs:48-68 | the net total is the sum over lines of each line's total, reduced by the code only for lines whose own discount is null or 0 (no stacking), plus shipping |
| BasketProperties.LineNetBounds | src/ShoppingBasket.Domain/Entities/Basket.cs:52-60 | with in-range discounts, one line's contribution lies between 0 and price × quantity |
| BasketProperties.NetSumBounds | src/ShoppingBasket.Domain/Entities/Basket.cs:50-60 | with valid lines and in-range discounts, 0 ≤ per-line sum ≤ Σ price × quantity |
| BasketProperties.TotalWithoutVatBounds | src/ShoppingBasket.Domain/Entities/Basket.cs:48-68 | a well-formed basket with in-range discounts and non-negative shipping has 0 ≤ net total ≤ Σ price × quantity + shipping |
| BasketProperties.NetSumUpdate | src/ShoppingBasket.Domain/Entities/Basket.cs:31-60 | replacing one line changes the per-line sum by the difference of the two lines' contributions |
| BasketProperties.NetSumConcat | src/ShoppingBasket.Domain/Entities/Basket.cs:50-60 | the per-line sum of a concatenation is the sum of the parts |
| BasketProperties.LineNetAddsUnderMerge | src/ShoppingBasket.Domain/Entities/Basket.cs:31-60 | a merged line contributes what its two quantities would contribute separately |
| BasketProperties.MergeRaisesNetSum | src/ShoppingBasket.Domain/Entities/Basket.cs:31-60 | merging n units into a line raises the per-line sum by n units at that line's price and discount |
| BasketProperties.AddItemRaisesNetSum | src/ShoppingBasket.Domain/Entities/Basket.cs:27-36 | a successful add raises the per-line sum by the added units' contribution, for both the append and the merge |
| BasketProperties.AddItemRaisesTotal | src/ShoppingBasket.Domain/Entities/Basket.cs:27-36 | a successful add raises the net total by the added units' contribution: at the new line's price and discount for a new product, at the existing line's for a merge |
| BasketProperties.RemoveItemLowersTotal | src/ShoppingBasket.Domain/Entities/Basket.cs:39-46 | removing a present product lowers the net total by exactly that line's contribution |
| BasketProperties.RemoveAtIndex | src/ShoppingBasket.Domain/Entities/Basket.cs:44 | cutting out one position keeps the earlier lines in place and shifts the later ones down by one |
| BasketProperties.TwoProductsExample | tests/Basket.Tests/Domain/BasketTests.cs:77-91 | two different products in one currency give two lines in insertion order |
| BasketProperties.TwoLineTotalExample | tests/Basket.Tests/Domain/BasketTests.cs:111-124 | lines 10 × 2 and 5 × 1 total 25 GBP |
| BasketProperties.DefaultVatExample | tests/Basket.Tests/Domain/BasketTests.cs:126-139 | lines worth 200 give 240 at the default rate 0.2 |
| BasketProperties.CurrencyMismatchExample | tests/Basket.Tests/Domain/BasketTests.cs:93-109 | a USD line after a GBP line fails with a USD/GBP mismatch |
| BasketProperties.MergeExample | tests/Basket.Tests/Domain/BasketTests.cs:26-41 | the same product added with quantities 1 then 2 gives one line of quantity 3 |
| DiscountCodeService.Validate | src/ShoppingBasket.Application/Services/DiscountCodeService.cs:15-21 | succeeds iff the upper-cased code is a table key; the result carries the caller's code string unchanged and the table's percentage; every failure is InvalidDiscountCode with the code, never a DiscountCode constructor error |
| DiscountCodeService.TableIsWellFormed | src/ShoppingBasket.Application/Services/DiscountCodeService.cs:8-13 | every key is already upper case and every percentage is in [0, 100] |
| DiscountCodeService.ValidateMatchesIgnoringCase | src/ShoppingBasket.Application/Services/DiscountCodeService.cs:8-21 | a code is accepted iff it equals some table key ignoring case |
| DiscountCodeService.ValidateIgnoresCase | src/ShoppingBasket.Application/Services/DiscountCodeService.cs:9 | upper-casing the code changes neither acceptance nor percentage |
| DiscountCodeService.ValidateTableExamples | tests/Basket.Tests/Application/DiscountCodeServiceTests.cs:10-21 | SUMMER20 gives 20 and WELCOME10 gives 10 |
| DiscountCodeService.ValidateLowerCaseExample | src/ShoppingBasket.Application/Services/DiscountCodeService.cs:9-20 | "summer20" gives 20 and keeps the lower-case spelling |
| DiscountCodeService.ValidateUnknownExample | tests/Basket.Tests/Application/DiscountCodeServiceTests.cs:23-32 | "INVALID" fails with InvalidDiscountCode("INVALID") |
| Text.ToUpper | src/ShoppingBasket.Application/Services/ShippingService.cs:9 | the upper case of a string has the same length and is the character-by-character upper case, with ASCII a-z mapped to A-Z and every other character kept, so no lower-case ASCII letter remains |
| Text.ToUpperIdempotent | src/ShoppingBasket.Application/Services/ShippingService.cs:9-14 | upper-casing an already upper-cased country code changes nothing |
| Text.BlankIgnoresCase | src/Basket.Application/Validators/ApplyDiscountCodeRequestValidator.cs:10-11 | a string is blank iff its upper case is blank |
| ShippingService.GetShippingCost | src/ShoppingBasket.Application/Services/ShippingService.cs:7-16 | total; the country code returned is the upper-cased input; the amount is the US/UK/DE rate for those codes and 10 otherwise, always positive and always in GBP |
| ShippingService.ShippingIgnoresCase | src/ShoppingBasket.Application/Services/ShippingService.cs:9-14 | GetShippingCost(upper(s)) = GetShippingCost(s) |
| ShippingService.ShippingExamples | tests/ShoppingBasket.Tests/Application/ShippingServiceTests.cs:15-41 | US 5, UK 3, DE 4, FR 10, and "uk" gives UK at 3 |
| Validators.AddItemFailures | src/ShoppingBasket.Application/Validators/AddItemRequestValidator.cs:10-25 | reports each rule iff it is broken: Empty product id, blank name, price ≤ 0, quantity ≤ 0, and a present discount outside [0, 100]; it reports nothing else |
| Validators.AddItemValidIff | src/ShoppingBasket.Application/Validators/AddItemRequestValidator.cs:10-25 | a request is valid iff all five rules hold |
| Validators.ValidRequestBuildsItem | src/ShoppingBasket.Application/Validators/AddItemRequestValidator.cs:10-25 | a valid request passes every check of the line constructor, and its discount, if present, is in [0, 100] |
| Validators.ItemFailures | src/Basket.Application/Validators/AddMultipleItemsRequestValidator.cs:14 | the union of the items' add-item failures: contains each item's failures and nothing else, and is empty iff every item is valid |
| Validators.AddMultipleFailures | src/Basket.Application/Validators/AddMultipleItemsRequestValidator.cs:10-14 | NotEmpty on the list fails iff the list is empty; every item's failures are reported and nothing else; no failure iff the list is non-empty and every item is valid |
| Validators.AllItemsValid | src/Basket.Application/Validators/AddMultipleItemsRequestValidator.cs:14 | true iff every item of the list passes the add-item validator |
| Validators.AddMultipleIgnoresOrder | src/Basket.Application/Validators/AddMultipleItemsRequestValidator.cs:10-14 | two lists that are permutations of each other are both valid or both invalid |
| Validators.ApplyDiscountCodeFailures | src/Basket.Application/Validators/ApplyDiscountCodeRequestValidator.cs:10-11 | no failure iff the code is not blank, so unknown codes pass; the only possible failure is NotEmpty on Code |
| Validators.ApplyDiscountCodeIgnoresCase | src/Basket.Application/Validators/ApplyDiscountCodeRequestValidator.cs:10-11 | acceptance is the same for a code and its upper case |
| Validators.SetShippingFailures | src/ShoppingBasket.Application/Validators/SetShippingRequestValidator.cs:10-12 | no failure iff the code is not blank and 2 to 3 characters long; NotEmpty fails iff blank, Length fails iff the length is outside [2, 3] |
| Validators.SetShippingIgnoresCase | src/ShoppingBasket.Application/Validators/SetShippingRequestValidator.cs:10-12 | a country code and its upper case have the same failures |
| Validators.SetShippingExamples | src/ShoppingBasket.Application/Validators/SetShippingRequestValidator.cs:10-12 | two spaces fail NotEmpty only, "" fails both rules, "U" and "USAX" fail Length only, "FR" passes |
| BasketService.BulkItemFromRequest | src/ShoppingBasket.Application/Services/BasketService.cs:61-66 | the bulk path builds a line iff the single-item path does, with the same error otherwise, and the line is the single-item line with its discount removed |
| BasketService.AddItemToBasket | src/ShoppingBasket.Application/Services/BasketService.cs:36-51 | no basket gives BasketNotFound; a line the request cannot build returns the constructor's error as is; a built line gives exactly `Baskets.AddItem`'s result, so a product already in the basket keeps its position and its line gains the requested quantity; on success the stored basket is the result and holds the product, and a new product's line carries the request's name, price, currency, quantity and discount; on failure the basket is unchanged |
| BasketService.ValidAddOnlyFailsOnCurrency | src/ShoppingBasket.Application/Services/BasketService.cs:36-51 | on a well-formed basket, a validated request succeeds iff the basket is empty or shares its currency, and the basket stays well-formed |
| BasketService.AddEach | src/ShoppingBasket.Application/Services/BasketService.cs:59-69 | the loop always leaves a basket in the store, and a success stores the result |
| BasketService.AddMultipleItemsToBasket | src/ShoppingBasket.Application/Services/BasketService.cs:53-72 | with no basket it always fails and stores nothing; with one, a basket remains stored and a success stores the result |
| BasketService.BulkFailureKeepsPrefix | src/ShoppingBasket.Application/Services/BasketService.cs:59-69 | a failed bulk add leaves the basket as it was after some prefix of the requests succeeded, and the failure is the next request's own failure (no rollback) |
| BasketService.BulkIsSingleAddsWithoutDiscount | src/ShoppingBasket.Application/Services/BasketService.cs:59-69 | the bulk add equals the single-item add applied request by request, in order, with each discount removed, stopping at the first failure |
| BasketService.BulkIgnoresDiscounts | src/ShoppingBasket.Application/Services/BasketService.cs:61-66 | two request lists that differ only in discounts give the same reply |
| BasketService.AddEachIgnoresDiscounts | src/ShoppingBasket.Application/Services/BasketService.cs:61-66 | the bulk loop gives the same reply for request lists that differ only in discounts |
| BasketService.BulkStepAppends | src/ShoppingBasket.Application/Services/BasketService.cs:61-68 | a valid request for a new product in the basket's currency appends a line without a discount |
| BasketService.BulkAppendsNewProducts | src/ShoppingBasket.Application/Services/BasketService.cs:59-69 | valid requests for distinct new products in one matching currency are appended in request order, all without discounts |
| BasketService.RemoveItemFromBasket | src/ShoppingBasket.Application/Services/BasketService.cs:74-81 | no basket gives NullBasket; otherwise stores and returns the basket with the product removed |
| BasketService.RemoveOnlyItemEmpties | tests/ShoppingBasket.Tests/Application/BasketServiceTests.cs:71-85 | removing the only line leaves no lines |
| BasketService.GetTotalWithoutVat | src/ShoppingBasket.Application/Services/BasketService.cs:83-89 | leaves the store unchanged; without a basket fails with NullBasket; otherwise returns the basket's own net total, in its currency, which equals the per-line sum plus shipping |
| BasketService.GetTotalWithVat | src/ShoppingBasket.Application/Services/BasketService.cs:91-97 | leaves the store unchanged; without a basket fails with NullBasket; otherwise the net total × 1.2 (default rate 0.2) in the basket's currency |
| BasketService.ApplyDiscountCode | src/ShoppingBasket.Application/Services/BasketService.cs:99-107 | an unknown code fails with InvalidDiscountCode and leaves the store unchanged; a known code without a basket gives NullBasket and no stored basket; success iff there is a basket and the code is known; the stored code is the lookup's result, lines and shipping untouched |
| BasketService.SetShipping | src/ShoppingBasket.Application/Services/BasketService.cs:109-117 | succeeds iff there is a basket; stores exactly the shipping lookup's result, lines and code untouched |
| BasketService.ClearBasket | src/ShoppingBasket.Application/Services/BasketService.cs:119-126 | with a basket, stores and returns the empty basket |
| BasketService.Summer20Example | tests/ShoppingBasket.Tests/Application/BasketServiceTests.cs:102-120 | SUMMER20 on one line of 100 GBP records the code "SUMMER20" and gives a net total of 80 |
| BasketService.SetShippingExample | tests/ShoppingBasket.Tests/Application/ShippingServiceTests.cs:32-41 | setting shipping for "uk" stores UK at 3 GBP |

## Left out

- HTTP endpoints, the validation filter, the middleware, logging, `async`/`Task` and cancellation tokens: plumbing with no domain logic.
- `GetBasketAsync`: it is only the repository lookup. Every service operation's `store: Option<Basket>` argument stands in for its answer, so it has no member of its own.
- The singleton repository and its concurrent-request race: a concurrency concern. The repository's answer is passed in as an `Option<Basket>` instead.
- `Basket.Id` and `Guid.NewGuid`: ids are opaque and never used in logic. A `Guid` is a natural number, with 0 as `Guid.Empty`.
- `Money.ToString` and the exact exception messages. Only the kind of error is kept, with the values the message names. `Money`'s add and subtract messages name no currencies; the model's one `CurrencyMismatch` kind still carries both currencies there, as the basket's message does.
- Baskets.Currency: a first line whose currency is null is not modelled. In C# `?? "GBP"` then reports GBP, and the add-item validator never checks `Currency`, so a request with a null currency can be stored; after it, GBP lines pass the currency check, and the basket holds two currencies while its total reports GBP. The model's strings are never null, so `BasketProperties.AddItemPreservesInvariant` proves the single-currency invariant only for non-null currencies.
- Null arguments: a null item passed to `AddItem` (`ArgumentNullException`) and null strings. Strings are never null in the model; the service never passes a null item.
- C# `decimal` precision, rounding and overflow. Amounts are exact reals.
- BasketItems.IncreaseQuantityBy: does not model 32-bit wrap-around of `Quantity`, because quantities are unbounded integers.
- Text.ToUpper: maps only ASCII letters. Culture-specific and non-ASCII case mappings of `ToUpper` and `OrdinalIgnoreCase` are not modelled.
- Validators.SetShippingFailures: a null country code is not modelled. In C# it fails only `NotEmpty`, because the length rule passes null, whereas `""` fails both rules.
- Validators.SetShippingFailures: counts Unicode scalar values. C# `Length` counts UTF-16 code units, so a character outside the Basic Multilingual Plane counts once here and twice in C#.
- BasketService.AddMultipleItemsToBasket: when the repository returns no basket and the list is empty, C# returns a null basket without an error. The model reports `NullBasket`. The validator rejects empty lists and the real repository always returns a basket, so this case is not reachable in the service.
