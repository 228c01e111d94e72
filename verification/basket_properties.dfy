/** Properties of the basket aggregate: the invariant every mutation keeps,
    what removal and the setters change, and the net total restated line by
    line. */
module BasketProperties {
  import opened Wrappers
  import opened Errors
  import opened ValueObjects
  import opened BasketItems
  import opened Baskets

  /** What one line contributes to the net total under an optional basket
      code: its own total, reduced by the code only when the line is
      eligible. This is an independent, per-line reading of the total. */
  function LineNet(item: BasketItem, code: Option<DiscountCode>): real {
    if code.Some? && EligibleForCode(item)
    then GetTotalPrice(item).amount * (1.0 - code.value.percentage / 100.0)
    else GetTotalPrice(item).amount
  }

  function NetSum(items: seq<BasketItem>, code: Option<DiscountCode>): real {
    if |items| == 0 then 0.0
    else NetSum(items[..|items| - 1], code) + LineNet(items[|items| - 1], code)
  }

  function ShippingOrZero(b: Basket): real {
    if b.shippingCost.Some? then b.shippingCost.value.amount.amount else 0.0
  }

  /** Price times quantity, ignoring every discount. */
  function GrossSum(items: seq<BasketItem>): real {
    if |items| == 0 then 0.0
    else GrossSum(items[..|items| - 1])
         + items[|items| - 1].unitPrice.amount * items[|items| - 1].quantity as real
  }

  // ---------------------------------------------------------------------
  // The invariant

  /** Adding a constructed line keeps the invariant, and succeeds exactly
      when the basket is empty or shares the line's currency. */
  lemma AddItemPreservesInvariant(b: Basket, item: BasketItem)
    requires Invariant(b) && Valid(item)
    ensures AddItem(b, item).Ok? <==> |b.items| == 0 || item.unitPrice.currency == Currency(b)
    ensures AddItem(b, item).Ok? ==> Invariant(AddItem(b, item).value)
  {
    var r := AddItem(b, item);
    if r.Ok? {
      var s := r.value.items;
      if !HasProduct(b.items, item.productId) {
        assert s == b.items + [item];
        forall i, j | 0 <= i < j < |s| ensures s[i].productId != s[j].productId {
          if j == |b.items| {
            assert s[i] == b.items[i];
          }
        }
      } else {
        var k := FindProduct(b.items, item.productId).value;
        assert forall j | 0 <= j < |s| :: s[j].productId == b.items[j].productId
                                       && s[j].unitPrice == b.items[j].unitPrice;
        assert Valid(s[k]);
      }
    }
  }

  /** Removing keeps the invariant. */
  lemma RemoveItemPreservesInvariant(b: Basket, id: Guid)
    requires Invariant(b)
    ensures Invariant(RemoveItem(b, id))
  {
    var s := RemoveItem(b, id).items;
    if HasProduct(b.items, id) {
      var k := FindProduct(b.items, id).value;
      RemoveAtIndex(b.items, k, s);
      forall i | 0 <= i < |s|
        ensures s[i] == b.items[if i < k then i else i + 1]
      {
      }
      assert UniqueProductIds(s);
      assert SingleCurrency(s) by {
        if |s| > 0 {
          assert s[0].unitPrice.currency == b.items[0].unitPrice.currency;
        }
      }
    }
  }

  /** The setters and `Clear` keep the invariant. */
  lemma SettersPreserveInvariant(b: Basket, code: DiscountCode, cost: ShippingCost)
    requires Invariant(b)
    ensures Invariant(ApplyDiscountCode(b, code))
    ensures Invariant(SetShippingCost(b, cost))
    ensures Invariant(Clear(b))
  {
  }

  // ---------------------------------------------------------------------
  // Removal

  /** Dropping position `k` shifts every later element down by one. */
  lemma RemoveAtIndex(s: seq<BasketItem>, k: nat, t: seq<BasketItem>)
    requires k < |s| && t == s[..k] + s[k + 1..]
    ensures |t| == |s| - 1
    ensures forall j | 0 <= j < k :: t[j] == s[j]
    ensures forall j | k <= j < |t| :: t[j] == s[j + 1]
  {
  }

  /** With one line per product, removal takes out exactly the lines of that
      product, and the survivors keep their relative order. */
  lemma RemoveItemRemovesExactly(b: Basket, id: Guid)
    requires UniqueProductIds(b.items)
    ensures !HasProduct(RemoveItem(b, id).items, id)
    ensures forall x :: x in RemoveItem(b, id).items <==> x in b.items && x.productId != id
    ensures HasProduct(b.items, id) ==>
              exists k | 0 <= k < |b.items| ::
                b.items[k].productId == id && RemoveItem(b, id).items == b.items[..k] + b.items[k + 1..]
  {
    var s := b.items;
    if HasProduct(s, id) {
      var k := FindProduct(s, id).value;
      var t := RemoveItem(b, id).items;
      assert t == s[..k] + s[k + 1..];
      RemoveAtIndex(s, k, t);
      forall j | 0 <= j < |t| ensures t[j].productId != id {
        var i := if j < k then j else j + 1;
        assert t[j] == s[i];
        if i < k { assert s[i].productId != s[k].productId; }
        else { assert s[k].productId != s[i].productId; }
      }
      forall x ensures x in t <==> x in s && x.productId != id {
        if x in s && x.productId != id {
          var i :| 0 <= i < |s| && s[i] == x;
          assert i != k;
          assert x == t[if i < k then i else i - 1];
        }
        if x in t {
          var j :| 0 <= j < |t| && t[j] == x;
          assert x == s[if j < k then j else j + 1];
        }
      }
    }
  }

  // ---------------------------------------------------------------------
  // The setters

  /** A second code replaces the first; code and shipping do not interfere. */
  lemma SettersLastWriteWins(b: Basket, c1: DiscountCode, c2: DiscountCode,
                             s1: ShippingCost, s2: ShippingCost)
    ensures ApplyDiscountCode(ApplyDiscountCode(b, c1), c2) == ApplyDiscountCode(b, c2)
    ensures SetShippingCost(SetShippingCost(b, s1), s2) == SetShippingCost(b, s2)
    ensures ApplyDiscountCode(SetShippingCost(b, s1), c1) == SetShippingCost(ApplyDiscountCode(b, c1), s1)
  {
  }

  /** After `Clear` the net total is zero in the base currency. */
  lemma ClearTotalIsZero(b: Basket)
    ensures GetTotalWithoutVat(Clear(b)) == Money(0.0, BaseCurrency)
    ensures GetTotalWithVat(Clear(b), DefaultVatRate) == Ok(Money(0.0, BaseCurrency))
  {
    var c := Clear(b);
    assert c.items == [] && c.discountCode.None? && c.shippingCost.None?;
    assert SumTotals(c.items) == 0.0;
    var net := GetTotalWithoutVat(c);
    assert net == Money(0.0, BaseCurrency);
    var gross := GetTotalWithVat(c, DefaultVatRate);
    assert gross.Ok? && gross.value.currency == BaseCurrency;
    assert gross.value.amount == 0.0 * (1.0 + DefaultVatRate) == 0.0;
  }

  // ---------------------------------------------------------------------
  // The net total

  lemma {:induction false} NetSumWithCode(items: seq<BasketItem>, code: DiscountCode)
    ensures NetSum(items, Some(code))
         == SumTotals(items) - SumEligibleTotals(items) * (code.percentage / 100.0)
  {
    if |items| > 0 {
      NetSumWithCode(items[..|items| - 1], code);
      NetSumWithCodeStep(items, code);
    }
  }

  /** The inductive step of `NetSumWithCode`: if the identity holds for all
      but the last line, it holds with the last line too. */
  lemma NetSumWithCodeStep(items: seq<BasketItem>, code: DiscountCode)
    requires |items| > 0
    requires var init := items[..|items| - 1];
             NetSum(init, Some(code))
             == SumTotals(init) - SumEligibleTotals(init) * (code.percentage / 100.0)
    ensures NetSum(items, Some(code))
         == SumTotals(items) - SumEligibleTotals(items) * (code.percentage / 100.0)
  {
    var init := items[..|items| - 1];
    var last := items[|items| - 1];
    var p := code.percentage / 100.0;
    var t, e := SumsStep(items, code);
    var l := LineNetWithCode(last, code, t, e);
    FoldStep(NetSum(items, Some(code)), NetSum(init, Some(code)), l,
             SumTotals(items), SumTotals(init), t,
             SumEligibleTotals(items), SumEligibleTotals(init), e, p);
  }

  /** One unfolding of the three sums at the last line, whose total is `t`
      and whose eligible part is `e`. */
  lemma SumsStep(items: seq<BasketItem>, code: DiscountCode) returns (t: real, e: real)
    requires |items| > 0
    ensures t == GetTotalPrice(items[|items| - 1]).amount
    ensures e == if EligibleForCode(items[|items| - 1]) then t else 0.0
    ensures NetSum(items, Some(code))
         == NetSum(items[..|items| - 1], Some(code)) + LineNet(items[|items| - 1], Some(code))
    ensures SumTotals(items) == SumTotals(items[..|items| - 1]) + t
    ensures SumEligibleTotals(items) == SumEligibleTotals(items[..|items| - 1]) + e
  {
    t := GetTotalPrice(items[|items| - 1]).amount;
    e := if EligibleForCode(items[|items| - 1]) then t else 0.0;
  }

  /** One line under a code: its total `t`, less the code's share of its
      eligible part `e`. */
  lemma LineNetWithCode(item: BasketItem, code: DiscountCode, t: real, e: real) returns (l: real)
    requires t == GetTotalPrice(item).amount
    requires e == if EligibleForCode(item) then t else 0.0
    ensures l == LineNet(item, Some(code))
    ensures l == t - e * (code.percentage / 100.0)
  {
    var p := code.percentage / 100.0;
    l := LineNet(item, Some(code));
    if EligibleForCode(item) {
      assert l == t * (1.0 - p);
      assert t * (1.0 - p) == t - t * p;
    }
  }

  /** The arithmetic of one step of the fold: adding a line to both sums
      keeps the net equal to total minus the code's share of the eligible
      part. */
  lemma FoldStep(n: real, n0: real, l: real, s: real, s0: real, t: real,
                 se: real, e0: real, e: real, p: real)
    requires n == n0 + l && s == s0 + t && se == e0 + e
    requires l == t - e * p && n0 == s0 - e0 * p
    ensures n == s - se * p
  {
    assert (e0 + e) * p == e0 * p + e * p;
  }

  lemma {:induction false} NetSumWithoutCode(items: seq<BasketItem>)
    ensures NetSum(items, None) == SumTotals(items)
  {
    if |items| > 0 {
      NetSumWithoutCode(items[..|items| - 1]);
    }
  }

  /** The net total is the sum, line by line, of each line's total after the
      basket code where the line is eligible, plus shipping: no line is ever
      discounted twice. */
  lemma TotalWithoutVatIsPerLineSum(b: Basket)
    ensures GetTotalWithoutVat(b).amount == NetSum(b.items, b.discountCode) + ShippingOrZero(b)
  {
    if b.discountCode.Some? {
      NetSumWithCode(b.items, b.discountCode.value);
    } else {
      NetSumWithoutCode(b.items);
    }
  }

  predicate DiscountInRange(item: BasketItem) {
    0.0 <= DiscountOrZero(item) <= 100.0
  }

  lemma LineNetBounds(item: BasketItem, code: Option<DiscountCode>)
    requires item.unitPrice.amount >= 0.0 && item.quantity >= 1 && DiscountInRange(item)
    requires code.Some? ==> 0.0 <= code.value.percentage <= 100.0
    ensures 0.0 <= LineNet(item, code) <= item.unitPrice.amount * item.quantity as real
  {
    TotalPriceBounds(item);
    var t := GetTotalPrice(item).amount;
    var gross := item.unitPrice.amount * item.quantity as real;
    assert 0.0 <= t <= gross;
    if code.Some? && EligibleForCode(item) {
      var keep := 1.0 - code.value.percentage / 100.0;
      assert LineNet(item, code) == t * keep;
      assert 0.0 <= keep <= 1.0;
      assert 0.0 <= t * keep <= t * 1.0;
    } else {
      assert LineNet(item, code) == t;
    }
  }

  lemma {:induction false} NetSumBounds(items: seq<BasketItem>, code: Option<DiscountCode>)
    requires forall i | 0 <= i < |items| :: Valid(items[i]) && DiscountInRange(items[i])
    requires code.Some? ==> 0.0 <= code.value.percentage <= 100.0
    ensures 0.0 <= NetSum(items, code) <= GrossSum(items)
  {
    if |items| > 0 {
      NetSumBounds(items[..|items| - 1], code);
      LineNetBounds(items[|items| - 1], code);
    }
  }

  /** With in-range discounts and a non-negative shipping amount, the net
      total is never negative and never more than the undiscounted lines
      plus shipping. */
  lemma TotalWithoutVatBounds(b: Basket)
    requires Invariant(b)
    requires forall i | 0 <= i < |b.items| :: DiscountInRange(b.items[i])
    requires b.discountCode.Some? ==> 0.0 <= b.discountCode.value.percentage <= 100.0
    requires ShippingOrZero(b) >= 0.0
    ensures 0.0 <= GetTotalWithoutVat(b).amount <= GrossSum(b.items) + ShippingOrZero(b)
  {
    TotalWithoutVatIsPerLineSum(b);
    NetSumBounds(b.items, b.discountCode);
  }

  lemma {:induction false} NetSumUpdate(items: seq<BasketItem>, k: nat, x: BasketItem,
                                        code: Option<DiscountCode>)
    requires k < |items|
    ensures NetSum(items[k := x], code) == NetSum(items, code) - LineNet(items[k], code) + LineNet(x, code)
  {
    var n := |items|;
    var s := items[k := x];
    if k == n - 1 {
      assert s[..n - 1] == items[..n - 1];
    } else {
      assert s[..n - 1] == items[..n - 1][k := x];
      NetSumUpdate(items[..n - 1], k, x, code);
    }
  }

  lemma {:induction false} NetSumConcat(a: seq<BasketItem>, c: seq<BasketItem>, code: Option<DiscountCode>)
    ensures NetSum(a + c, code) == NetSum(a, code) + NetSum(c, code)
  {
    if |c| > 0 {
      assert (a + c)[..|a + c| - 1] == a + c[..|c| - 1];
      NetSumConcat(a, c[..|c| - 1], code);
    } else {
      assert a + c == a;
    }
  }

  /** A merged line contributes what its two parts would have. */
  lemma LineNetAddsUnderMerge(line: BasketItem, n: int, code: Option<DiscountCode>)
    requires n > 0
    ensures LineNet(line.(quantity := line.quantity + n), code)
         == LineNet(line, code) + LineNet(line.(quantity := n), code)
  {
    var merged := line.(quantity := line.quantity + n);
    TotalPriceAddsUnderIncrease(line, n);
    assert IncreaseQuantityBy(line, n).value == merged;
    var t1 := GetTotalPrice(line).amount;
    var t2 := GetTotalPrice(line.(quantity := n)).amount;
    assert GetTotalPrice(merged).amount == t1 + t2;
    if code.Some? && EligibleForCode(line) {
      var keep := 1.0 - code.value.percentage / 100.0;
      assert (t1 + t2) * keep == t1 * keep + t2 * keep;
    }
  }

  /** Merging `n` units into line `k` raises the per-line sum by what `n`
      units of that line cost. */
  lemma MergeRaisesNetSum(items: seq<BasketItem>, k: nat, n: int, code: Option<DiscountCode>)
    requires k < |items| && n > 0
    ensures NetSum(items[k := items[k].(quantity := items[k].quantity + n)], code)
         == NetSum(items, code) + LineNet(items[k].(quantity := n), code)
  {
    NetSumUpdate(items, k, items[k].(quantity := items[k].quantity + n), code);
    LineNetAddsUnderMerge(items[k], n, code);
  }

  /** The units an add contributes: the new line itself, or the added
      quantity at the existing line's price and discount. */
  function AddedUnits(b: Basket, item: BasketItem): BasketItem {
    if HasProduct(b.items, item.productId)
    then b.items[FindProduct(b.items, item.productId).value].(quantity := item.quantity)
    else item
  }

  /** The per-line sum after a successful add grows by the added units. */
  lemma AddItemRaisesNetSum(b: Basket, item: BasketItem)
    requires AddItem(b, item).Ok?
    ensures NetSum(AddItem(b, item).value.items, b.discountCode)
         == NetSum(b.items, b.discountCode) + LineNet(AddedUnits(b, item), b.discountCode)
  {
    var s := AddItem(b, item).value.items;
    if HasProduct(b.items, item.productId) {
      var k := FindProduct(b.items, item.productId).value;
      assert s == b.items[k := b.items[k].(quantity := b.items[k].quantity + item.quantity)];
      MergeRaisesNetSum(b.items, k, item.quantity, b.discountCode);
    } else {
      assert s == b.items + [item];
      assert s[..|s| - 1] == b.items;
    }
  }

  /** Adding to a basket raises the net total by what the added units cost:
      at the new line's own price and discount when the product is new, and
      at the existing line's price and discount when the units are merged. */
  lemma AddItemRaisesTotal(b: Basket, item: BasketItem)
    requires AddItem(b, item).Ok?
    ensures GetTotalWithoutVat(AddItem(b, item).value).amount
         == GetTotalWithoutVat(b).amount + LineNet(AddedUnits(b, item), b.discountCode)
  {
    var r := AddItem(b, item).value;
    assert r.discountCode == b.discountCode && ShippingOrZero(r) == ShippingOrZero(b);
    TotalWithoutVatIsPerLineSum(b);
    TotalWithoutVatIsPerLineSum(r);
    AddItemRaisesNetSum(b, item);
  }

  /** Removing a product lowers the net total by what its line contributed. */
  lemma RemoveItemLowersTotal(b: Basket, id: Guid)
    requires HasProduct(b.items, id)
    ensures GetTotalWithoutVat(RemoveItem(b, id)).amount
         == GetTotalWithoutVat(b).amount - LineNet(b.items[FindProduct(b.items, id).value], b.discountCode)
  {
    var k := FindProduct(b.items, id).value;
    var code := b.discountCode;
    var r := RemoveItem(b, id);
    var pre, line, post := b.items[..k], b.items[k], b.items[k + 1..];
    assert r.items == pre + post;
    assert r.discountCode == code && ShippingOrZero(r) == ShippingOrZero(b);
    assert b.items == (pre + [line]) + post;
    TotalWithoutVatIsPerLineSum(b);
    TotalWithoutVatIsPerLineSum(r);
    NetSumConcat(pre + [line], post, code);
    NetSumConcat(pre, [line], code);
    NetSumConcat(pre, post, code);
    assert NetSum([line], code) == LineNet(line, code) by {
      assert [line][..0] == [];
    }
  }

  // ---------------------------------------------------------------------
  // Worked examples

  /** Adding two different products keeps both lines, in order. */
  lemma TwoProductsExample(a: BasketItem, c: BasketItem)
    requires a.productId != c.productId && a.unitPrice.currency == c.unitPrice.currency
    ensures AddItem(EmptyBasket, a) == Ok(Basket([a], None, None))
    ensures AddItem(Basket([a], None, None), c) == Ok(Basket([a, c], None, None))
  {
    assert FindProduct([], a.productId) == None;
    assert [] + [a] == [a];
    assert FindProduct([a], c.productId) == None;
    assert [a] + [c] == [a, c];
  }

  /** Two lines, 10 x 2 and 5 x 1, come to 25. */
  lemma TwoLineTotalExample()
    ensures GetTotalWithoutVat(Basket([BasketItem(1, "Product A", Money(10.0, "GBP"), 2, None),
                                       BasketItem(2, "Product B", Money(5.0, "GBP"), 1, None)],
                                      None, None))
         == Money(25.0, "GBP")
  {
    var a := BasketItem(1, "Product A", Money(10.0, "GBP"), 2, None);
    var c := BasketItem(2, "Product B", Money(5.0, "GBP"), 1, None);
    assert [a, c][..1] == [a];
    assert [a][..0] == [];
    assert GetTotalPrice(a).amount == 20.0;
    assert GetTotalPrice(c).amount == 5.0;
    assert SumTotals([a]) == 20.0;
    assert SumTotals([a, c]) == 25.0;
  }

  /** Lines worth 200 in all come to 240 with the default VAT rate. */
  lemma DefaultVatExample()
    ensures GetTotalWithVat(Basket([BasketItem(1, "Product A", Money(100.0, "GBP"), 1, None),
                                    BasketItem(2, "Product B", Money(50.0, "GBP"), 2, None)],
                                   None, None), DefaultVatRate)
         == Ok(Money(240.0, "GBP"))
  {
    var s := [BasketItem(1, "Product A", Money(100.0, "GBP"), 1, None),
              BasketItem(2, "Product B", Money(50.0, "GBP"), 2, None)];
    assert s[..1] == [s[0]];
    assert [s[0]][..0] == [];
    assert SumTotals(s) == 200.0;
    assert GetTotalWithoutVat(Basket(s, None, None)) == Money(200.0, "GBP");
  }

  /** A second line in another currency is refused, whatever it is. */
  lemma CurrencyMismatchExample()
    ensures var a := BasketItem(1, "Product A", Money(10.0, "GBP"), 1, None);
            var c := BasketItem(2, "Product B", Money(15.0, "USD"), 1, None);
            AddItem(AddItem(EmptyBasket, a).value, c) == Err(CurrencyMismatch("USD", "GBP"))
  {
  }

  /** Adding the same product twice merges the quantities into one line. */
  lemma MergeExample()
    ensures var a := BasketItem(7, "Test Product", Money(10.0, "GBP"), 1, None);
            var c := BasketItem(7, "Test Product", Money(10.0, "GBP"), 2, None);
            AddItem(AddItem(EmptyBasket, a).value, c) == Ok(Basket([a.(quantity := 3)], None, None))
  {
    var a := BasketItem(7, "Test Product", Money(10.0, "GBP"), 1, None);
    var c := BasketItem(7, "Test Product", Money(10.0, "GBP"), 2, None);
    assert FindProduct([], 7) == None;
    assert [] + [a] == [a];
    assert AddItem(EmptyBasket, a) == Ok(Basket([a], None, None));
    assert FindProduct([a], 7) == Some(0);
    assert [a][0 := a.(quantity := 3)] == [a.(quantity := 3)];
  }
}
