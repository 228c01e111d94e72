/** A line of the basket (src/ShoppingBasket.Domain/Entities/BasketItem.cs). */
module BasketItems {
  import opened Wrappers
  import opened Errors
  import opened Text
  import opened ValueObjects

  /** Product identifiers are `System.Guid`; only their comparison with
      `Guid.Empty` matters, so they are modelled as naturals with 0 as Empty. */
  type Guid = nat

  const EmptyGuid: Guid := 0

  /** In C# only `Quantity` has a setter that is used after construction;
      in the model every update yields a new value. */
  datatype BasketItem = BasketItem(
    productId: Guid,
    productName: string,
    unitPrice: Money,
    quantity: int,
    discountPercentage: Option<real>)

  /** What the constructor establishes and increments keep. */
  predicate Valid(item: BasketItem) {
    && item.productId != EmptyGuid
    && !IsBlank(item.productName)
    && item.unitPrice.amount >= 0.0
    && item.quantity >= 1
  }

  /** The pattern `is < 0 or > 100` on a nullable decimal: false for null. */
  predicate PercentOutOfRange(p: Option<real>) {
    p.Some? && (p.value < 0.0 || p.value > 100.0)
  }

  /** The constructor. Its discount check reads the `DiscountPercentage`
      property, which has not been assigned yet and so is still null: the
      check never fires and any discount percentage is accepted. */
  function NewBasketItem(productId: Guid, productName: string, unitPrice: Money,
                         quantity: int, discountPercentage: Option<real>): (r: Result<BasketItem, Error>)
    ensures r.Ok? <==> productId != EmptyGuid && !IsBlank(productName)
                        && unitPrice.amount >= 0.0 && quantity > 0
    ensures r.Ok? ==> Valid(r.value)
    ensures r.Ok? ==> && r.value.productId == productId
                      && r.value.productName == productName
                      && r.value.unitPrice == unitPrice
                      && r.value.quantity == quantity
                      && r.value.discountPercentage == discountPercentage
    ensures productId == EmptyGuid ==> r == Err(InvalidArgument(ProductId))
    ensures productId != EmptyGuid && IsBlank(productName) ==> r == Err(InvalidArgument(ProductName))
    ensures productId != EmptyGuid && !IsBlank(productName) && unitPrice.amount < 0.0
            ==> r == Err(OutOfRange(UnitPrice))
    ensures productId != EmptyGuid && !IsBlank(productName) && unitPrice.amount >= 0.0 && quantity <= 0
            ==> r == Err(OutOfRange(Quantity))
  {
    var propertyBeforeAssignment: Option<real> := None;
    if productId == EmptyGuid then Err(InvalidArgument(ProductId))
    else if IsBlank(productName) then Err(InvalidArgument(ProductName))
    else if unitPrice.amount < 0.0 then Err(OutOfRange(UnitPrice))
    else if quantity <= 0 then Err(OutOfRange(Quantity))
    else if PercentOutOfRange(propertyBeforeAssignment) then Err(OutOfRange(DiscountPercentage))
    else Ok(BasketItem(productId, productName, unitPrice, quantity, discountPercentage))
  }

  /** Whether construction succeeds never depends on the discount. */
  lemma NewBasketItemIgnoresDiscount(productId: Guid, productName: string, unitPrice: Money,
                                     quantity: int, d1: Option<real>, d2: Option<real>)
    ensures NewBasketItem(productId, productName, unitPrice, quantity, d1).Ok?
        <==> NewBasketItem(productId, productName, unitPrice, quantity, d2).Ok?
  {
  }

  /** `IncreaseQuantityBy`: rejects a non-positive increment; otherwise only
      the quantity changes. */
  function IncreaseQuantityBy(item: BasketItem, valueToAdd: int): (r: Result<BasketItem, Error>)
    ensures r.Ok? <==> valueToAdd > 0
    ensures r.Err? ==> r.error == OutOfRange(ValueToAdd)
    ensures r.Ok? ==> && r.value.quantity - item.quantity == valueToAdd
                      && r.value.quantity > item.quantity
                      && r.value.productId == item.productId
                      && r.value.productName == item.productName
                      && r.value.unitPrice == item.unitPrice
                      && r.value.discountPercentage == item.discountPercentage
    ensures r.Ok? && Valid(item) ==> Valid(r.value)
  {
    if valueToAdd <= 0 then Err(OutOfRange(ValueToAdd))
    else Ok(item.(quantity := item.quantity + valueToAdd))
  }

  /** The discount percentage; an absent discount counts as 0 %. */
  function DiscountOrZero(item: BasketItem): real {
    if item.discountPercentage.Some? then item.discountPercentage.value else 0.0
  }

  /** `GetTotalPrice`: price times quantity, less the item's own discount,
      in the unit price's currency. */
  function GetTotalPrice(item: BasketItem): (r: Money)
    ensures r.currency == item.unitPrice.currency
    ensures r.amount == item.unitPrice.amount * item.quantity as real * (1.0 - DiscountOrZero(item) / 100.0)
  {
    var totalAmount := item.unitPrice.amount * item.quantity as real;
    if item.discountPercentage.Some? then
      var discountAmount := totalAmount * (item.discountPercentage.value / 100.0);
      Money(totalAmount - discountAmount, item.unitPrice.currency)
    else
      Money(totalAmount, item.unitPrice.currency)
  }

  /** With a non-negative price, quantity and a discount in [0, 100], the
      line total lies between zero and the undiscounted total. */
  lemma TotalPriceBounds(item: BasketItem)
    requires item.unitPrice.amount >= 0.0 && item.quantity >= 0
    requires 0.0 <= DiscountOrZero(item) <= 100.0
    ensures 0.0 <= GetTotalPrice(item).amount <= item.unitPrice.amount * item.quantity as real
  {
    var gross := item.unitPrice.amount * item.quantity as real;
    var keep := 1.0 - DiscountOrZero(item) / 100.0;
    assert 0.0 <= keep <= 1.0;
    assert gross >= 0.0;
    assert gross * keep <= gross * 1.0;
    assert gross * keep >= 0.0;
  }

  /** Merging quantities adds the line totals: the merged line costs what the
      two lines would have cost separately at the existing item's price and
      discount. */
  lemma TotalPriceAddsUnderIncrease(item: BasketItem, n: int)
    requires n > 0
    ensures IncreaseQuantityBy(item, n).Ok?
    ensures GetTotalPrice(IncreaseQuantityBy(item, n).value).amount
         == GetTotalPrice(item).amount + GetTotalPrice(item.(quantity := n)).amount
  {
    var u := item.unitPrice.amount;
    var k := 1.0 - DiscountOrZero(item) / 100.0;
    calc {
      GetTotalPrice(IncreaseQuantityBy(item, n).value).amount;
      u * (item.quantity + n) as real * k;
      { assert (item.quantity + n) as real == item.quantity as real + n as real; }
      u * item.quantity as real * k + u * n as real * k;
    }
  }

  /** The constructor accepts a discount above 100 %, and such an item has a
      negative total. */
  lemma OversizedDiscountAccepted()
    ensures NewBasketItem(1, "A", Money(10.0, "GBP"), 1, Some(150.0)).Ok?
    ensures GetTotalPrice(NewBasketItem(1, "A", Money(10.0, "GBP"), 1, Some(150.0)).value).amount == -5.0
  {
    assert !IsBlank("A") by { assert !IsWhiteSpace("A"[0]); }
  }

  /** The example of a 25 % item discount on two units at 100. */
  lemma DiscountedItemExample()
    ensures GetTotalPrice(BasketItem(1, "Product A", Money(100.0, "GBP"), 2, Some(25.0)))
         == Money(150.0, "GBP")
  {
  }
}
