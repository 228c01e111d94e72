/** The application service
    (src/ShoppingBasket.Application/Services/BasketService.cs). The
    repository's answer is passed in as an optional basket; every operation
    returns the repository's basket afterwards together with its result, so
    that a mutation that throws half-way stays visible. Logging, `async` and
    cancellation are not modelled. */
module BasketService {
  import opened Wrappers
  import opened Errors
  import opened ValueObjects
  import opened BasketItems
  import opened Validators
  import Baskets
  import BasketProperties
  import DiscountCodeService
  import ShippingService

  type Basket = Baskets.Basket

  /** The repository's basket after a call, and the call's result. */
  datatype Reply<T> = Reply(store: Option<Basket>, result: Result<T, Error>)

  /** The line a single add-item request describes, discount included. */
  function ItemFromRequest(req: AddItemRequest): Result<BasketItem, Error> {
    NewBasketItem(req.productId, req.productName, Money(req.unitPrice, req.currency),
                  req.quantity, req.discountPercentage)
  }

  /** The line the bulk path builds: the request's discount is not passed on,
      so it succeeds exactly when the single-item path does, with the same
      line except that it carries no discount. */
  function BulkItemFromRequest(req: AddItemRequest): (r: Result<BasketItem, Error>)
    ensures r.Ok? <==> ItemFromRequest(req).Ok?
    ensures r.Err? ==> r.error == ItemFromRequest(req).error
    ensures r.Ok? ==> r.value == ItemFromRequest(req).value.(discountPercentage := None)
  {
    NewBasketItem(req.productId, req.productName, Money(req.unitPrice, req.currency),
                  req.quantity, None)
  }

  /** `AddItemToBasketAsync`: fails with `BasketNotFound` without a basket;
      otherwise builds the line from the request and adds it to the basket,
      reporting the constructor's or the basket's error. On success the
      basket holds the product: an existing line gains the requested
      quantity, and a new product's line carries the request's name, price,
      currency, quantity and discount. On failure the basket is unchanged. */
  function AddItemToBasket(store: Option<Basket>, req: AddItemRequest): (r: Reply<Basket>)
    ensures store.None? ==> r == Reply(None, Err(BasketNotFound))
    ensures r.result.Ok? ==> r.store == Some(r.result.value)
    ensures r.result.Err? ==> r.store == store
    ensures r.result.Ok? ==> Baskets.HasProduct(r.result.value.items, req.productId)
    ensures store.Some? && ItemFromRequest(req).Err? ==> r.result == Err(ItemFromRequest(req).error)
    ensures store.Some? && ItemFromRequest(req).Ok?
            ==> r.result == Baskets.AddItem(store.value, ItemFromRequest(req).value)
    ensures r.result.Ok? && Baskets.HasProduct(store.value.items, req.productId) ==>
              var k := Baskets.FindProduct(store.value.items, req.productId).value;
              && |r.result.value.items| == |store.value.items|
              && r.result.value.items[k]
                 == store.value.items[k].(quantity := store.value.items[k].quantity + req.quantity)
    ensures r.result.Ok? && !Baskets.HasProduct(store.value.items, req.productId) ==>
              r.result.value.items == store.value.items
                + [BasketItem(req.productId, req.productName, Money(req.unitPrice, req.currency),
                              req.quantity, req.discountPercentage)]
  {
    match store
      case None => Reply(None, Err(BasketNotFound))
      case Some(b) =>
        match ItemFromRequest(req)
          case Err(e) => Reply(store, Err(e))
          case Ok(item) =>
            match Baskets.AddItem(b, item)
              case Err(e) => Reply(store, Err(e))
              case Ok(b') =>
                assert b'.items[if Baskets.HasProduct(b.items, item.productId)
                                then Baskets.FindProduct(b.items, item.productId).value
                                else |b.items|].productId == item.productId;
                Reply(Some(b'), Ok(b'))
  }

  /** A validated request on a well-formed basket fails only on a currency
      mismatch, and the basket stays well-formed. */
  lemma ValidAddOnlyFailsOnCurrency(b: Basket, req: AddItemRequest)
    requires Baskets.Invariant(b) && IsValidAddItem(req)
    ensures AddItemToBasket(Some(b), req).result.Ok?
        <==> |b.items| == 0 || req.currency == Baskets.Currency(b)
    ensures AddItemToBasket(Some(b), req).result.Ok? ==> Baskets.Invariant(AddItemToBasket(Some(b), req).result.value)
  {
    ValidRequestBuildsItem(req);
    BasketProperties.AddItemPreservesInvariant(b, ItemFromRequest(req).value);
  }

  /** The bulk loop over a present basket: each request in order, stopping at
      the first failure and keeping what was already added. */
  function AddEach(b: Basket, reqs: seq<AddItemRequest>): (r: Reply<Basket>)
    ensures r.store.Some?
    ensures r.result.Ok? ==> r.store == Some(r.result.value)
    decreases |reqs|
  {
    if |reqs| == 0 then Reply(Some(b), Ok(b))
    else match BulkItemFromRequest(reqs[0])
      case Err(e) => Reply(Some(b), Err(e))
      case Ok(item) =>
        match Baskets.AddItem(b, item)
          case Err(e) => Reply(Some(b), Err(e))
          case Ok(b') => AddEach(b', reqs[1..])
  }

  /** `AddMultipleItemsToBasketAsync`. Without a basket, the first request's
      line is still built (so its errors come first) before the basket is
      dereferenced. */
  function AddMultipleItemsToBasket(store: Option<Basket>, req: AddMultipleItemsRequest): (r: Reply<Basket>)
    ensures store.None? ==> r.store == None && r.result.Err?
    ensures store.Some? ==> r.store.Some?
    ensures r.result.Ok? ==> r.store == Some(r.result.value)
  {
    match store
      case None =>
        if |req.items| > 0 && BulkItemFromRequest(req.items[0]).Err?
        then Reply(None, Err(BulkItemFromRequest(req.items[0]).error))
        else Reply(None, Err(NullBasket))
      case Some(b) => AddEach(b, req.items)
  }

  /** One request of the bulk path, applied to a basket. */
  function BulkStep(b: Basket, req: AddItemRequest): Result<Basket, Error> {
    match BulkItemFromRequest(req)
      case Err(e) => Err(e)
      case Ok(item) => Baskets.AddItem(b, item)
  }

  /** The bulk add over `reqs` stopped at request `k`: the first `k` requests
      went in, the basket left behind is theirs, and request `k` failed with
      the error reported. */
  predicate FailsAt(b: Basket, reqs: seq<AddItemRequest>, k: nat)
    requires k < |reqs|
  {
    var before := AddEach(b, reqs[..k]);
    && before.result.Ok?
    && AddEach(b, reqs).store == Some(before.result.value)
    && BulkStep(before.result.value, reqs[k]).Err?
    && AddEach(b, reqs).result == Err(BulkStep(before.result.value, reqs[k]).error)
  }

  /** No rollback: when the bulk add fails, some prefix of the requests was
      added and stays in the basket, and the very next request is the one
      that failed. */
  lemma {:induction false} BulkFailureKeepsPrefix(b: Basket, reqs: seq<AddItemRequest>)
    requires AddEach(b, reqs).result.Err?
    ensures exists k: nat | k < |reqs| :: FailsAt(b, reqs, k)
    decreases |reqs|
  {
    assert reqs[..0] == [];
    if BulkStep(b, reqs[0]).Err? {
      assert AddEach(b, reqs[..0]) == Reply(Some(b), Ok(b));
      assert FailsAt(b, reqs, 0);
    } else {
      var b' := BulkStep(b, reqs[0]).value;
      var rest := reqs[1..];
      assert AddEach(b, reqs) == AddEach(b', rest);
      BulkFailureKeepsPrefix(b', rest);
      var k: nat :| k < |rest| && FailsAt(b', rest, k);
      assert reqs[..k + 1][1..] == rest[..k];
      assert AddEach(b, reqs[..k + 1]) == AddEach(b', rest[..k]);
      assert reqs[k + 1] == rest[k];
      assert FailsAt(b, reqs, k + 1);
    }
  }

  function StripDiscount(req: AddItemRequest): AddItemRequest {
    req.(discountPercentage := None)
  }

  /** The bulk path is the single-item path run request by request with
      every discount removed, stopping at the first failure. */
  function SingleAddsWithoutDiscount(b: Basket, reqs: seq<AddItemRequest>): Reply<Basket>
    decreases |reqs|
  {
    if |reqs| == 0 then Reply(Some(b), Ok(b))
    else
      var step := AddItemToBasket(Some(b), StripDiscount(reqs[0]));
      if step.result.Err? then step
      else SingleAddsWithoutDiscount(step.result.value, reqs[1..])
  }

  lemma {:induction false} BulkIsSingleAddsWithoutDiscount(b: Basket, reqs: seq<AddItemRequest>)
    ensures AddMultipleItemsToBasket(Some(b), AddMultipleItemsRequest(reqs))
         == SingleAddsWithoutDiscount(b, reqs)
    decreases |reqs|
  {
    if |reqs| > 0 {
      assert BulkItemFromRequest(reqs[0]) == ItemFromRequest(StripDiscount(reqs[0]));
      var step := AddItemToBasket(Some(b), StripDiscount(reqs[0]));
      if step.result.Ok? {
        BulkIsSingleAddsWithoutDiscount(step.result.value, reqs[1..]);
      }
    }
  }

  /** A request's discount never influences the bulk path. */
  lemma BulkIgnoresDiscounts(store: Option<Basket>, reqs: seq<AddItemRequest>, others: seq<AddItemRequest>)
    requires |others| == |reqs|
    requires forall i | 0 <= i < |reqs| :: StripDiscount(others[i]) == StripDiscount(reqs[i])
    ensures AddMultipleItemsToBasket(store, AddMultipleItemsRequest(reqs))
         == AddMultipleItemsToBasket(store, AddMultipleItemsRequest(others))
  {
    if store.Some? {
      AddEachIgnoresDiscounts(store.value, reqs, others);
    } else if |reqs| > 0 {
      assert BulkItemFromRequest(reqs[0]) == BulkItemFromRequest(others[0]);
    }
  }

  lemma {:induction false} AddEachIgnoresDiscounts(b: Basket, reqs: seq<AddItemRequest>, others: seq<AddItemRequest>)
    requires |others| == |reqs|
    requires forall i | 0 <= i < |reqs| :: StripDiscount(others[i]) == StripDiscount(reqs[i])
    ensures AddEach(b, reqs) == AddEach(b, others)
    decreases |reqs|
  {
    if |reqs| > 0 {
      assert BulkItemFromRequest(reqs[0]) == BulkItemFromRequest(others[0]) by {
        assert StripDiscount(others[0]) == StripDiscount(reqs[0]);
      }
      if BulkStep(b, reqs[0]).Ok? {
        AddEachIgnoresDiscounts(BulkStep(b, reqs[0]).value, reqs[1..], others[1..]);
      }
    }
  }

  /** The line the bulk path appends for a request. */
  function BulkLine(req: AddItemRequest): BasketItem {
    BasketItem(req.productId, req.productName, Money(req.unitPrice, req.currency), req.quantity, None)
  }

  function BulkLines(reqs: seq<AddItemRequest>): (s: seq<BasketItem>)
    ensures |s| == |reqs|
    ensures forall i | 0 <= i < |reqs| :: s[i] == BulkLine(reqs[i])
  {
    if |reqs| == 0 then [] else [BulkLine(reqs[0])] + BulkLines(reqs[1..])
  }

  /** One valid request for a new product in the basket's currency is
      appended as its bulk line. */
  lemma BulkStepAppends(b: Basket, req: AddItemRequest)
    requires IsValidAddItem(req)
    requires |b.items| > 0 ==> Baskets.Currency(b) == req.currency
    requires !Baskets.HasProduct(b.items, req.productId)
    ensures BulkStep(b, req) == Ok(b.(items := b.items + [BulkLine(req)]))
  {
    ValidRequestBuildsItem(req);
    assert BulkItemFromRequest(req) == Ok(BulkLine(req));
  }

  lemma AppendAssociates<T>(a: seq<T>, x: T, rest: seq<T>)
    ensures a + ([x] + rest) == (a + [x]) + rest
  {
  }

  /** Valid requests for distinct new products, all in the basket's
      currency, are appended in request order, without their discounts. */
  lemma {:induction false} BulkAppendsNewProducts(b: Basket, reqs: seq<AddItemRequest>, currency: string)
    requires forall i | 0 <= i < |reqs| :: IsValidAddItem(reqs[i]) && reqs[i].currency == currency
    requires |b.items| > 0 ==> Baskets.Currency(b) == currency
    requires forall i | 0 <= i < |reqs| :: !Baskets.HasProduct(b.items, reqs[i].productId)
    requires forall i, j | 0 <= i < j < |reqs| :: reqs[i].productId != reqs[j].productId
    ensures AddEach(b, reqs).result == Ok(b.(items := b.items + BulkLines(reqs)))
    decreases |reqs|
  {
    if |reqs| == 0 {
      assert b.items + [] == b.items;
    } else {
      var req := reqs[0];
      BulkStepAppends(b, req);
      var b' := b.(items := b.items + [BulkLine(req)]);
      assert AddEach(b, reqs) == AddEach(b', reqs[1..]);
      assert Baskets.Currency(b') == currency;
      var rest := reqs[1..];
      forall i | 0 <= i < |rest| ensures !Baskets.HasProduct(b'.items, rest[i].productId) {
        assert rest[i] == reqs[i + 1];
        Baskets.HasProductAppend(b.items, BulkLine(req), rest[i].productId);
      }
      forall i | 0 <= i < |rest| ensures IsValidAddItem(rest[i]) && rest[i].currency == currency {
        assert rest[i] == reqs[i + 1];
      }
      forall i, j | 0 <= i < j < |rest| ensures rest[i].productId != rest[j].productId {
        assert rest[i] == reqs[i + 1] && rest[j] == reqs[j + 1];
      }
      BulkAppendsNewProducts(b', rest, currency);
      assert BulkLines(reqs) == [BulkLine(req)] + BulkLines(rest);
      AppendAssociates(b.items, BulkLine(req), BulkLines(rest));
    }
  }

  /** `RemoveItemFromBasketAsync`: delegates to the basket. */
  function RemoveItemFromBasket(store: Option<Basket>, productId: Guid): (r: Reply<Basket>)
    ensures store.None? ==> r == Reply(None, Err(NullBasket))
    ensures store.Some? ==> r.result == Ok(Baskets.RemoveItem(store.value, productId))
    ensures r.result.Ok? ==> r.store == Some(r.result.value)
    ensures r.result.Ok? ==> !Baskets.HasProduct(r.result.value.items, productId)
                             || |r.result.value.items| == |store.value.items| - 1
  {
    match store
      case None => Reply(None, Err(NullBasket))
      case Some(b) =>
        var b' := Baskets.RemoveItem(b, productId);
        Reply(Some(b'), Ok(b'))
  }

  /** Removing the only line leaves an empty basket. */
  lemma RemoveOnlyItemEmpties(b: Basket, productId: Guid)
    requires |b.items| == 1 && b.items[0].productId == productId
    ensures RemoveItemFromBasket(Some(b), productId).result.Ok?
    ensures RemoveItemFromBasket(Some(b), productId).result.value.items == []
  {
  }

  /** `GetTotalWithoutVatAsync`: the basket's own net total, which is the
      per-line sum plus shipping. */
  function GetTotalWithoutVat(store: Option<Basket>): (r: Reply<Money>)
    ensures r.store == store
    ensures store.None? ==> r.result == Err(NullBasket)
    ensures store.Some? ==> r.result == Ok(Baskets.GetTotalWithoutVat(store.value))
    ensures r.result.Ok? ==> r.result.value.currency == Baskets.Currency(store.value)
    ensures r.result.Ok? ==> r.result.value.amount
                             == BasketProperties.NetSum(store.value.items, store.value.discountCode)
                                + BasketProperties.ShippingOrZero(store.value)
  {
    match store
      case None => Reply(None, Err(NullBasket))
      case Some(b) =>
        BasketProperties.TotalWithoutVatIsPerLineSum(b);
        Reply(store, Ok(Baskets.GetTotalWithoutVat(b)))
  }

  /** `GetTotalWithVatAsync`: always the default rate of 0.2, which is in
      range, so a present basket never fails and its total grows by a fifth. */
  function GetTotalWithVat(store: Option<Basket>): (r: Reply<Money>)
    ensures r.store == store
    ensures r.result.Ok? <==> store.Some?
    ensures store.None? ==> r.result == Err(NullBasket)
    ensures r.result.Ok? ==> r.result.value.amount == Baskets.GetTotalWithoutVat(store.value).amount * 1.2
    ensures r.result.Ok? ==> r.result.value.currency == Baskets.Currency(store.value)
  {
    match store
      case None => Reply(None, Err(NullBasket))
      case Some(b) =>
        match Baskets.GetTotalWithVat(b, Baskets.DefaultVatRate)
          case Err(e) => Reply(store, Err(e))
          case Ok(m) => Reply(store, Ok(m))
  }

  /** `ApplyDiscountCodeAsync`: the lookup runs before the basket is touched;
      an unknown code propagates its error and leaves the basket as it was. */
  function ApplyDiscountCode(store: Option<Basket>, code: string): (r: Reply<Basket>)
    ensures DiscountCodeService.Validate(code).Err? ==> r == Reply(store, Err(InvalidDiscountCode(code)))
    ensures store.None? && DiscountCodeService.Validate(code).Ok? ==> r == Reply(None, Err(NullBasket))
    ensures r.result.Ok? <==> store.Some? && DiscountCodeService.Validate(code).Ok?
    ensures r.result.Ok? ==> && r.store == Some(r.result.value)
                             && r.result.value.discountCode == Some(DiscountCodeService.Validate(code).value)
                             && r.result.value.items == store.value.items
                             && r.result.value.shippingCost == store.value.shippingCost
  {
    match DiscountCodeService.Validate(code)
      case Err(e) => Reply(store, Err(e))
      case Ok(discount) =>
        match store
          case None => Reply(None, Err(NullBasket))
          case Some(b) =>
            var b' := Baskets.ApplyDiscountCode(b, discount);
            Reply(Some(b'), Ok(b'))
  }

  /** `SetShippingAsync`: stores exactly what the shipping lookup returns. */
  function SetShipping(store: Option<Basket>, countryCode: string): (r: Reply<Basket>)
    ensures store.None? ==> r == Reply(None, Err(NullBasket))
    ensures r.result.Ok? <==> store.Some?
    ensures r.result.Ok? ==> && r.store == Some(r.result.value)
                             && r.result.value.shippingCost == Some(ShippingService.GetShippingCost(countryCode))
                             && r.result.value.items == store.value.items
                             && r.result.value.discountCode == store.value.discountCode
  {
    match store
      case None => Reply(None, Err(NullBasket))
      case Some(b) =>
        var b' := Baskets.SetShippingCost(b, ShippingService.GetShippingCost(countryCode));
        Reply(Some(b'), Ok(b'))
  }

  /** `ClearBasketAsync`: the basket ends empty, without code or shipping. */
  function ClearBasket(store: Option<Basket>): (r: Reply<Basket>)
    ensures store.None? ==> r == Reply(None, Err(NullBasket))
    ensures store.Some? ==> r == Reply(Some(Baskets.EmptyBasket), Ok(Baskets.EmptyBasket))
  {
    match store
      case None => Reply(None, Err(NullBasket))
      case Some(b) =>
        var b' := Baskets.Clear(b);
        Reply(Some(b'), Ok(b'))
  }

  /** SUMMER20 on one line of 100 records the code as given and brings the
      net total to 80. */
  lemma Summer20Example()
    ensures var item := BasketItem(1, "Product A", Money(100.0, "GBP"), 1, None);
            var r := ApplyDiscountCode(Some(Baskets.Basket([item], None, None)), "SUMMER20");
            && r.result.Ok?
            && r.result.value.discountCode.Some?
            && r.result.value.discountCode.value.code == "SUMMER20"
            && Baskets.GetTotalWithoutVat(r.result.value).amount == 80.0
  {
    var item := BasketItem(1, "Product A", Money(100.0, "GBP"), 1, None);
    var code := DiscountCode("SUMMER20", 20.0);
    DiscountCodeService.ValidateTableExamples();
    var b := Baskets.Basket([item], None, None);
    var r := ApplyDiscountCode(Some(b), "SUMMER20");
    assert r.result == Ok(Baskets.Basket([item], Some(code), None));
    assert [item][..0] == [];
    assert Baskets.SumTotals([item]) == 100.0;
    assert Baskets.SumEligibleTotals([item]) == 100.0;
    assert Baskets.GetTotalWithoutVat(Baskets.Basket([item], Some(code), None)).amount == 80.0;
  }

  /** The shipping set through the service is the looked-up cost, here for a
      lower-case code. */
  lemma SetShippingExample()
    ensures SetShipping(Some(Baskets.EmptyBasket), "uk").result.value.shippingCost
         == Some(ShippingCost(Money(3.0, "GBP"), "UK"))
  {
    ShippingService.ShippingExamples();
  }
}
