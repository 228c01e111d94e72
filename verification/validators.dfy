/** The request records and their FluentValidation rules
    (src/ShoppingBasket.Application/Validators and
    src/Basket.Application/Validators). A validator yields the set of failed
    (field, rule) pairs, which the HTTP layer groups by field; a request is
    valid when the set is empty. For the bulk request, each item's failures
    are reported under the item's own field, without the `Items[i]` index
    FluentValidation puts in the property path.
    These are the only place where the 0 to 100 discount range is enforced. */
module Validators {
  import opened Wrappers
  import opened Errors
  import opened Text
  import opened ValueObjects
  import opened BasketItems

  /** The add-item request. The request record's optional parameters
      default `currency` to "GBP" and `quantity` to 1. */
  datatype AddItemRequest = AddItemRequest(
    productId: Guid,
    productName: string,
    unitPrice: real,
    currency: string,
    quantity: int,
    discountPercentage: Option<real>)

  datatype AddMultipleItemsRequest = AddMultipleItemsRequest(items: seq<AddItemRequest>)

  datatype ApplyDiscountCodeRequest = ApplyDiscountCodeRequest(code: string)

  datatype SetShippingRequest = SetShippingRequest(countryCode: string)

  /** The FluentValidation rules in use. `NotEmpty` on a string rejects a
      blank one, on a Guid rejects `Guid.Empty`, on a list rejects an empty
      one. */
  datatype Rule = NotEmpty | GreaterThanZero | InclusiveBetween | LengthBetween

  datatype Failure = Failure(field: Field, rule: Rule)

  function FailIf(cond: bool, f: Failure): set<Failure> {
    if cond then {f} else {}
  }

  /** AddItemRequestValidator. `UnitPrice` also carries `NotNull`, which a
      C# `decimal` always passes. The discount range is checked only when a
      discount is present. */
  function AddItemFailures(r: AddItemRequest): (fs: set<Failure>)
    ensures Failure(ProductId, NotEmpty) in fs <==> r.productId == EmptyGuid
    ensures Failure(ProductName, NotEmpty) in fs <==> IsBlank(r.productName)
    ensures Failure(UnitPrice, GreaterThanZero) in fs <==> r.unitPrice <= 0.0
    ensures Failure(Quantity, GreaterThanZero) in fs <==> r.quantity <= 0
    ensures Failure(DiscountPercentage, InclusiveBetween) in fs
            <==> r.discountPercentage.Some? && !(0.0 <= r.discountPercentage.value <= 100.0)
    ensures fs <= {Failure(ProductId, NotEmpty), Failure(ProductName, NotEmpty),
                   Failure(UnitPrice, GreaterThanZero), Failure(Quantity, GreaterThanZero),
                   Failure(DiscountPercentage, InclusiveBetween)}
  {
    FailIf(r.productId == EmptyGuid, Failure(ProductId, NotEmpty))
    + FailIf(IsBlank(r.productName), Failure(ProductName, NotEmpty))
    + FailIf(r.unitPrice <= 0.0, Failure(UnitPrice, GreaterThanZero))
    + FailIf(r.quantity <= 0, Failure(Quantity, GreaterThanZero))
    + FailIf(r.discountPercentage.Some? && (r.discountPercentage.value < 0.0 || r.discountPercentage.value > 100.0),
             Failure(DiscountPercentage, InclusiveBetween))
  }

  predicate IsValidAddItem(r: AddItemRequest) {
    AddItemFailures(r) == {}
  }

  /** A request is valid exactly when every rule holds. */
  lemma AddItemValidIff(r: AddItemRequest)
    ensures IsValidAddItem(r) <==>
              && r.productId != EmptyGuid
              && !IsBlank(r.productName)
              && r.unitPrice > 0.0
              && r.quantity > 0
              && (r.discountPercentage.Some? ==> 0.0 <= r.discountPercentage.value <= 100.0)
  {
    var fs := AddItemFailures(r);
    if fs != {} {
      var f :| f in fs;
    }
  }

  /** Whatever passes the validator passes every check of the line
      constructor (the validator is the stricter on price: > 0, not >= 0),
      and its discount, if any, lies in [0, 100]. */
  lemma ValidRequestBuildsItem(r: AddItemRequest)
    requires IsValidAddItem(r)
    ensures NewBasketItem(r.productId, r.productName, Money(r.unitPrice, r.currency),
                          r.quantity, r.discountPercentage).Ok?
    ensures r.discountPercentage.Some? ==> 0.0 <= r.discountPercentage.value <= 100.0
  {
    AddItemValidIff(r);
  }

  /** Every request of a list is valid (RuleForEach), checked one by one. */
  function AllItemsValid(items: seq<AddItemRequest>): (b: bool)
    ensures b <==> forall i | 0 <= i < |items| :: IsValidAddItem(items[i])
  {
    if |items| == 0 then true
    else IsValidAddItem(items[0]) && AllItemsValid(items[1..])
  }

  /** AddMultipleItemsRequestValidator: a non-empty list of valid items. */
  predicate IsValidAddMultiple(r: AddMultipleItemsRequest) {
    |r.items| > 0 && AllItemsValid(r.items)
  }

  /** The failures of every item of a list, in the shape the add-item
      validator reports them. */
  function ItemFailures(items: seq<AddItemRequest>): (fs: set<Failure>)
    ensures forall i | 0 <= i < |items| :: AddItemFailures(items[i]) <= fs
    ensures forall f | f in fs :: exists i | 0 <= i < |items| :: f in AddItemFailures(items[i])
    ensures fs == {} <==> AllItemsValid(items)
  {
    var fs := set i, f | 0 <= i < |items| && f in AddItemFailures(items[i]) :: f;
    assert fs != {} ==> !AllItemsValid(items) by {
      if fs != {} {
        var f :| f in fs;
        var i :| 0 <= i < |items| && f in AddItemFailures(items[i]);
        assert !IsValidAddItem(items[i]);
      }
    }
    fs
  }

  /** AddMultipleItemsRequestValidator as a failure set: `NotEmpty` on the
      list, then the add-item rules on each item (RuleForEach). */
  function AddMultipleFailures(r: AddMultipleItemsRequest): (fs: set<Failure>)
    ensures Failure(Items, NotEmpty) in fs <==> |r.items| == 0
    ensures forall i | 0 <= i < |r.items| :: AddItemFailures(r.items[i]) <= fs
    ensures forall f | f in fs && f != Failure(Items, NotEmpty) ::
              exists i | 0 <= i < |r.items| :: f in AddItemFailures(r.items[i])
    ensures fs == {} <==> IsValidAddMultiple(r)
  {
    FailIf(|r.items| == 0, Failure(Items, NotEmpty)) + ItemFailures(r.items)
  }

  /** Reordering the list never changes its validity. */
  lemma AddMultipleIgnoresOrder(r: AddMultipleItemsRequest, s: AddMultipleItemsRequest)
    requires multiset(r.items) == multiset(s.items)
    ensures IsValidAddMultiple(r) <==> IsValidAddMultiple(s)
  {
    assert |r.items| == |multiset(r.items)| == |s.items|;
    forall x | x in r.items ensures x in s.items {
      assert x in multiset(r.items);
    }
    forall x | x in s.items ensures x in r.items {
      assert x in multiset(s.items);
    }
    if AllItemsValid(r.items) {
      forall i | 0 <= i < |s.items| ensures IsValidAddItem(s.items[i]) {
        assert s.items[i] in s.items;
        var j :| 0 <= j < |r.items| && r.items[j] == s.items[i];
      }
    }
    if AllItemsValid(s.items) {
      forall i | 0 <= i < |r.items| ensures IsValidAddItem(r.items[i]) {
        assert r.items[i] in r.items;
        var j :| 0 <= j < |s.items| && s.items[j] == r.items[i];
      }
    }
  }

  /** ApplyDiscountCodeRequestValidator: the code must not be blank. */
  function ApplyDiscountCodeFailures(r: ApplyDiscountCodeRequest): (fs: set<Failure>)
    ensures fs == {} <==> !IsBlank(r.code)
    ensures forall f | f in fs :: f == Failure(Code, NotEmpty)
  {
    FailIf(IsBlank(r.code), Failure(Code, NotEmpty))
  }

  /** Acceptance of a discount-code request does not depend on letter case. */
  lemma ApplyDiscountCodeIgnoresCase(code: string)
    ensures ApplyDiscountCodeFailures(ApplyDiscountCodeRequest(ToUpper(code))) == {}
        <==> ApplyDiscountCodeFailures(ApplyDiscountCodeRequest(code)) == {}
  {
    BlankIgnoresCase(code);
  }

  /** SetShippingRequestValidator: `NotEmpty` and `Length(2, 3)` both run, so
      an empty code fails twice and a blank two-letter one fails once. */
  function SetShippingFailures(r: SetShippingRequest): (fs: set<Failure>)
    ensures fs == {} <==> !IsBlank(r.countryCode) && 2 <= |r.countryCode| <= 3
    ensures Failure(CountryCode, NotEmpty) in fs <==> IsBlank(r.countryCode)
    ensures Failure(CountryCode, LengthBetween) in fs <==> !(2 <= |r.countryCode| <= 3)
    ensures fs <= {Failure(CountryCode, NotEmpty), Failure(CountryCode, LengthBetween)}
  {
    FailIf(IsBlank(r.countryCode), Failure(CountryCode, NotEmpty))
    + FailIf(|r.countryCode| < 2 || |r.countryCode| > 3, Failure(CountryCode, LengthBetween))
  }

  /** Upper-casing a country code, as the shipping lookup does, changes
      none of its failures. */
  lemma SetShippingIgnoresCase(code: string)
    ensures SetShippingFailures(SetShippingRequest(ToUpper(code)))
         == SetShippingFailures(SetShippingRequest(code))
  {
    BlankIgnoresCase(code);
  }

  /** A blank code of an allowed length, a one-letter and a four-letter code
      are refused; an unknown two-letter code is accepted. */
  lemma SetShippingExamples()
    ensures SetShippingFailures(SetShippingRequest("  ")) == {Failure(CountryCode, NotEmpty)}
    ensures SetShippingFailures(SetShippingRequest("")) == {Failure(CountryCode, NotEmpty), Failure(CountryCode, LengthBetween)}
    ensures SetShippingFailures(SetShippingRequest("U")) == {Failure(CountryCode, LengthBetween)}
    ensures SetShippingFailures(SetShippingRequest("USAX")) == {Failure(CountryCode, LengthBetween)}
    ensures SetShippingFailures(SetShippingRequest("FR")) == {}
  {
    assert IsWhiteSpace("  "[0]) && IsWhiteSpace("  "[1]);
    assert !IsWhiteSpace("U"[0]);
    assert !IsWhiteSpace("USAX"[0]);
    assert !IsWhiteSpace("FR"[0]);
  }
}
