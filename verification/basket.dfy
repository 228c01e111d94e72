/** The basket aggregate (src/ShoppingBasket.Domain/Entities/Basket.cs):
    an insertion-ordered list of lines, an optional discount code and an
    optional shipping cost. The aggregate's `Id` is never read by its logic
    and is not modelled. */
module Baskets {
  import opened Wrappers
  import opened Errors
  import opened ValueObjects
  import opened BasketItems

  datatype Basket = Basket(
    items: seq<BasketItem>,
    discountCode: Option<DiscountCode>,
    shippingCost: Option<ShippingCost>)

  /** A freshly created basket. */
  const EmptyBasket: Basket := Basket([], None, None)

  /** The rate `GetTotalWithVat` uses when the caller gives none. */
  const DefaultVatRate: real := 0.2

  /** The basket's currency: the first line's, or the base currency when
      empty. In a single-currency basket it is every line's currency. */
  function Currency(b: Basket): (c: string)
    ensures |b.items| == 0 ==> c == BaseCurrency
    ensures SingleCurrency(b.items) ==> forall i | 0 <= i < |b.items| :: b.items[i].unitPrice.currency == c
  {
    if |b.items| == 0 then BaseCurrency else b.items[0].unitPrice.currency
  }

  predicate HasProduct(items: seq<BasketItem>, id: Guid) {
    exists i | 0 <= i < |items| :: items[i].productId == id
  }

  /** After appending a line, a product is present iff it was already
      present or is the appended line's. */
  lemma HasProductAppend(items: seq<BasketItem>, x: BasketItem, id: Guid)
    ensures HasProduct(items + [x], id) <==> HasProduct(items, id) || x.productId == id
  {
    var s := items + [x];
    if HasProduct(s, id) {
      var i :| 0 <= i < |s| && s[i].productId == id;
      if i < |items| {
        assert items[i] == s[i];
      }
    }
    if HasProduct(items, id) {
      var i :| 0 <= i < |items| && items[i].productId == id;
      assert s[i] == items[i];
    }
    if x.productId == id {
      assert s[|items|] == x;
    }
  }

  /** The index of the first line for `id`, as `FirstOrDefault` finds it. */
  function FindProduct(items: seq<BasketItem>, id: Guid): (r: Option<nat>)
    ensures r.None? <==> !HasProduct(items, id)
    ensures r.Some? ==> && r.value < |items|
                        && items[r.value].productId == id
                        && forall j | 0 <= j < r.value :: items[j].productId != id
  {
    if |items| == 0 then None
    else if items[0].productId == id then Some(0)
    else match FindProduct(items[1..], id)
      case None =>
        assert forall j | 1 <= j < |items| :: items[j] == items[1..][j - 1];
        None
      case Some(i) => Some(i + 1)
  }

  predicate UniqueProductIds(items: seq<BasketItem>) {
    forall i, j | 0 <= i < j < |items| :: items[i].productId != items[j].productId
  }

  predicate SingleCurrency(items: seq<BasketItem>) {
    forall i | 0 <= i < |items| :: items[i].unitPrice.currency == items[0].unitPrice.currency
  }

  /** What the aggregate keeps true: one line per product, one currency, and
      every line as its constructor left it (in particular quantity >= 1). */
  predicate Invariant(b: Basket) {
    && UniqueProductIds(b.items)
    && SingleCurrency(b.items)
    && forall i | 0 <= i < |b.items| :: Valid(b.items[i])
  }

  /** `AddItem`. A non-empty basket refuses a line in another currency. A
      product already present keeps its line, price and discount and only
      gains the new quantity (the new line's discount is dropped); that merge
      fails if the new quantity is not positive. Any other product is
      appended. The code and shipping are untouched. */
  function AddItem(b: Basket, item: BasketItem): (r: Result<Basket, Error>)
    ensures |b.items| != 0 && item.unitPrice.currency != Currency(b)
            ==> r == Err(CurrencyMismatch(item.unitPrice.currency, Currency(b)))
    ensures !HasProduct(b.items, item.productId)
            ==> (r.Ok? <==> |b.items| == 0 || item.unitPrice.currency == Currency(b))
    ensures HasProduct(b.items, item.productId)
            ==> (r.Ok? <==> item.unitPrice.currency == Currency(b) && item.quantity > 0)
    ensures r.Ok? ==> r.value.discountCode == b.discountCode && r.value.shippingCost == b.shippingCost
    ensures r.Ok? ==> Currency(r.value) == (if |b.items| == 0 then item.unitPrice.currency else Currency(b))
    ensures r.Ok? && !HasProduct(b.items, item.productId) ==> r.value.items == b.items + [item]
    ensures r.Ok? && HasProduct(b.items, item.productId) ==>
              var k := FindProduct(b.items, item.productId).value;
              && |r.value.items| == |b.items|
              && (forall j | 0 <= j < |b.items| && j != k :: r.value.items[j] == b.items[j])
              && r.value.items[k] == b.items[k].(quantity := b.items[k].quantity + item.quantity)
  {
    if |b.items| != 0 && item.unitPrice.currency != Currency(b) then
      Err(CurrencyMismatch(item.unitPrice.currency, Currency(b)))
    else match FindProduct(b.items, item.productId)
      case Some(k) =>
        (match IncreaseQuantityBy(b.items[k], item.quantity)
          case Ok(merged) => Ok(b.(items := b.items[k := merged]))
          case Err(e) => Err(e))
      case None => Ok(b.(items := b.items + [item]))
  }

  /** `RemoveItem`: drops the first line for `id` and keeps the others in
      order; an absent product leaves the basket as it is. */
  function RemoveItem(b: Basket, id: Guid): (r: Basket)
    ensures !HasProduct(b.items, id) ==> r == b
    ensures HasProduct(b.items, id) ==> |r.items| == |b.items| - 1
    ensures r.discountCode == b.discountCode && r.shippingCost == b.shippingCost
    ensures forall x | x in r.items :: x in b.items
  {
    match FindProduct(b.items, id)
      case None => b
      case Some(k) => b.(items := b.items[..k] + b.items[k + 1..])
  }

  /** `ApplyDiscountCode`: replaces any earlier code and nothing else. */
  function ApplyDiscountCode(b: Basket, code: DiscountCode): (r: Basket)
    ensures r.discountCode == Some(code)
    ensures r.items == b.items && r.shippingCost == b.shippingCost
  {
    b.(discountCode := Some(code))
  }

  /** `SetShippingCost`: replaces any earlier shipping cost and nothing else. */
  function SetShippingCost(b: Basket, cost: ShippingCost): (r: Basket)
    ensures r.shippingCost == Some(cost)
    ensures r.items == b.items && r.discountCode == b.discountCode
  {
    b.(shippingCost := Some(cost))
  }

  /** `Clear`: no lines, no code, no shipping. */
  function Clear(b: Basket): (r: Basket)
    ensures r == EmptyBasket
    ensures Currency(r) == BaseCurrency
  {
    b.(items := [], discountCode := None, shippingCost := None)
  }

  /** Sum of the line totals, folded left to right as LINQ's `Sum` does. */
  function SumTotals(items: seq<BasketItem>): real {
    if |items| == 0 then 0.0
    else SumTotals(items[..|items| - 1]) + GetTotalPrice(items[|items| - 1]).amount
  }

  /** A line takes part in the basket-level code only when it carries no
      discount of its own (null or 0): the two discounts never stack. */
  predicate EligibleForCode(item: BasketItem) {
    item.discountPercentage.None? || item.discountPercentage.value == 0.0
  }

  /** Sum of the line totals of the lines eligible for the code. */
  function SumEligibleTotals(items: seq<BasketItem>): real {
    if |items| == 0 then 0.0
    else SumEligibleTotals(items[..|items| - 1])
         + (if EligibleForCode(items[|items| - 1]) then GetTotalPrice(items[|items| - 1]).amount else 0.0)
  }

  /** `GetTotalWithoutVat`: the line totals, less the code's percentage of the
      eligible lines, plus the shipping amount (added without any currency
      check), in the basket's currency. */
  function GetTotalWithoutVat(b: Basket): (r: Money)
    ensures r.currency == Currency(b)
  {
    var totalAmount := SumTotals(b.items);
    var afterCode :=
      if b.discountCode.Some? then
        totalAmount - SumEligibleTotals(b.items) * (b.discountCode.value.percentage / 100.0)
      else totalAmount;
    var withShipping :=
      if b.shippingCost.Some? then afterCode + b.shippingCost.value.amount.amount
      else afterCode;
    Money(withShipping, Currency(b))
  }

  /** `GetTotalWithVat`: a rate outside [0, 1] is refused; otherwise the net
      total plus the rate's share of it, in the basket's currency. */
  function GetTotalWithVat(b: Basket, vatRate: real): (r: Result<Money, Error>)
    ensures r.Ok? <==> 0.0 <= vatRate <= 1.0
    ensures r.Err? ==> r.error == OutOfRange(VatRate)
    ensures r.Ok? ==> && r.value.currency == Currency(b)
                      && r.value.amount == GetTotalWithoutVat(b).amount * (1.0 + vatRate)
  {
    if vatRate < 0.0 || vatRate > 1.0 then Err(OutOfRange(VatRate))
    else
      var totalWithoutVat := GetTotalWithoutVat(b);
      var vatAmount := Multiply(totalWithoutVat, vatRate);
      assert totalWithoutVat.amount + vatAmount.amount == totalWithoutVat.amount * (1.0 + vatRate);
      Add(totalWithoutVat, vatAmount)
  }
}
