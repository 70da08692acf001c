/**
 InventoryService: an order passes when the warehouse count covers it on top of the stock already
 reserved, and passing reserves its quantity.
 */
module InventoryService {
  import opened Orders

  type Stocks = map<Product, int>

  function StockOf(stocks: Stocks, product: Product): int
  {
    if product in stocks then stocks[product] else 0
  }

  predicate Covers(count: int, reserved: int, quantity: int)
  {
    count - reserved - quantity >= 0
  }

  /** The verdict on an order of a stocked product, and the reservations after it. */
  function Check(reserved: Stocks, order: Order, product: Product, count: int): (r: (Stocks, OrderValidation))
    ensures r.1.orderId == order.id && r.1.checkType == INVENTORY_CHECK
    ensures r.1.result == PASS ==> StockOf(r.0, product) == StockOf(reserved, product) + order.quantity <= count
    ensures r.1.result != PASS ==> r.1.result == FAIL && r.0 == reserved && count < StockOf(reserved, product) + order.quantity
    ensures forall p :: p != product ==> StockOf(r.0, p) == StockOf(reserved, p)
  {
    var held := StockOf(reserved, product);
    if Covers(count, held, order.quantity)
    then (reserved[product := held + order.quantity], OrderValidation(order.id, INVENTORY_CHECK, PASS))
    else (reserved, OrderValidation(order.id, INVENTORY_CHECK, FAIL))
  }

  class InventoryValidator {
    var reservedStocks: Stocks

    constructor ()
      ensures reservedStocks == map[]
    {
      reservedStocks := map[];
    }

    method Transform(product: Product, order: Order, warehouseStockCount: int) returns (validated: OrderValidation)
      modifies this
      ensures validated == Check(old(reservedStocks), order, product, warehouseStockCount).1
      ensures reservedStocks == Check(old(reservedStocks), order, product, warehouseStockCount).0
    {
      var reserved := 0;
      if product in reservedStocks {
        reserved := reservedStocks[product];
      }
      if warehouseStockCount - reserved - order.quantity >= 0 {
        reservedStocks := reservedStocks[product := reserved + order.quantity];
        validated := OrderValidation(order.id, INVENTORY_CHECK, PASS);
      } else {
        validated := OrderValidation(order.id, INVENTORY_CHECK, FAIL);
      }
    }
  }

  // ------------------------------- orders of one product, at a fixed count

  /** The reservations and the verdicts after a sequence of orders of one product. */
  function Served(reserved: Stocks, orders: seq<Order>, product: Product, count: int): (Stocks, seq<OrderValidation>)
    decreases |orders|
  {
    if orders == [] then (reserved, [])
    else
      var n := |orders| - 1;
      var before := Served(reserved, orders[..n], product, count);
      var last := Check(before.0, orders[n], product, count);
      (last.0, before.1 + [last.1])
  }

  function Quantities(orders: seq<Order>): seq<int>
  {
    seq(|orders|, i requires 0 <= i < |orders| => orders[i].quantity)
  }

  /** The quantities of the orders whose verdict is PASS, in order. */
  function Passed(orders: seq<Order>, verdicts: seq<OrderValidation>): seq<int>
    requires |orders| == |verdicts|
  {
    if orders == [] then []
    else
      var n := |orders| - 1;
      Passed(orders[..n], verdicts[..n]) + (if verdicts[n].result == PASS then [orders[n].quantity] else [])
  }

  function Sum(quantities: seq<int>): int
  {
    if quantities == [] then 0 else Sum(quantities[..|quantities| - 1]) + quantities[|quantities| - 1]
  }

  /** The quantities that pass, when each is held against what passed before it. */
  function Accepted(count: int, quantities: seq<int>): seq<int>
  {
    if quantities == [] then []
    else
      var n := |quantities| - 1;
      var before := Accepted(count, quantities[..n]);
      if Covers(count, Sum(before), quantities[n]) then before + [quantities[n]] else before
  }

  lemma ServedAppend(reserved: Stocks, orders: seq<Order>, order: Order, product: Product, count: int)
    ensures var before := Served(reserved, orders, product, count);
            var last := Check(before.0, order, product, count);
            Served(reserved, orders + [order], product, count) == (last.0, before.1 + [last.1])
  {
    assert (orders + [order])[..|orders|] == orders;
  }

  lemma PassedAppend(orders: seq<Order>, order: Order, verdicts: seq<OrderValidation>, verdict: OrderValidation)
    requires |orders| == |verdicts|
    ensures Passed(orders + [order], verdicts + [verdict]) ==
            Passed(orders, verdicts) + (if verdict.result == PASS then [order.quantity] else [])
  {
    assert (orders + [order])[..|orders|] == orders && (verdicts + [verdict])[..|orders|] == verdicts;
  }

  lemma SumAppend(quantities: seq<int>, quantity: int)
    ensures Sum(quantities + [quantity]) == Sum(quantities) + quantity
  {
    assert (quantities + [quantity])[..|quantities|] == quantities;
  }

  lemma AcceptedAppend(count: int, quantities: seq<int>, quantity: int)
    ensures var before := Accepted(count, quantities);
            Accepted(count, quantities + [quantity]) ==
            if Covers(count, Sum(before), quantity) then before + [quantity] else before
  {
    assert (quantities + [quantity])[..|quantities|] == quantities;
  }

  /** One verdict per order; those that passed are the accepted ones, and their sum is what is reserved. */
  predicate Agrees(stocks: Stocks, verdicts: seq<OrderValidation>, orders: seq<Order>, product: Product, accepted: seq<int>)
  {
    |verdicts| == |orders| && Passed(orders, verdicts) == accepted && StockOf(stocks, product) == Sum(accepted)
  }

  lemma AgreesStep(stocks: Stocks, verdicts: seq<OrderValidation>, orders: seq<Order>, product: Product,
                   accepted: seq<int>, order: Order, count: int)
    requires Agrees(stocks, verdicts, orders, product, accepted)
    ensures var last := Check(stocks, order, product, count);
            Agrees(last.0, verdicts + [last.1], orders + [order], product,
                   if Covers(count, Sum(accepted), order.quantity) then accepted + [order.quantity] else accepted)
  {
    PassedAppend(orders, order, verdicts, Check(stocks, order, product, count).1);
    SumAppend(accepted, order.quantity);
  }

  /** From an empty reservation the orders that pass are those of Accepted. */
  lemma {:induction false} ServedIsAccepted(reserved: Stocks, orders: seq<Order>, product: Product, count: int)
    requires StockOf(reserved, product) == 0
    ensures var (after, verdicts) := Served(reserved, orders, product, count);
            Agrees(after, verdicts, orders, product, Accepted(count, Quantities(orders)))
    decreases |orders|
  {
    if orders != [] {
      var n := |orders| - 1;
      var front, order := orders[..n], orders[n];
      ServedIsAccepted(reserved, front, product, count);
      assert orders == front + [order] && Quantities(orders) == Quantities(front) + [order.quantity];
      var before := Served(reserved, front, product, count);
      ServedAppend(reserved, front, order, product, count);
      AcceptedAppend(count, Quantities(front), order.quantity);
      AgreesStep(before.0, before.1, front, product, Accepted(count, Quantities(front)), order, count);
    }
  }

  /** Units promised: what the orders of positive quantity among these ask for. */
  function Promised(quantities: seq<int>): nat
  {
    if quantities == [] then 0
    else
      var n := |quantities| - 1;
      Promised(quantities[..n]) + (if quantities[n] > 0 then quantities[n] else 0)
  }

  predicate NonNegative(quantities: seq<int>)
  {
    forall i :: 0 <= i < |quantities| ==> quantities[i] >= 0
  }

  lemma {:induction false} AcceptedFits(count: nat, quantities: seq<int>)
    ensures Sum(Accepted(count, quantities)) <= count
  {
    if quantities != [] {
      var n := |quantities| - 1;
      AcceptedFits(count, quantities[..n]);
      var before := Accepted(count, quantities[..n]);
      assert (before + [quantities[n]])[..|before|] == before;
    }
  }

  /** Every order of negative quantity passes, since what passed before it fits. */
  lemma NegativePasses(count: nat, quantities: seq<int>, i: nat)
    requires i < |quantities| && quantities[i] < 0
    ensures Accepted(count, quantities[..i + 1]) == Accepted(count, quantities[..i]) + [quantities[i]]
  {
    AcceptedFits(count, quantities[..i]);
    AcceptedAppend(count, quantities[..i], quantities[i]);
    assert quantities[..i + 1] == quantities[..i] + [quantities[i]];
  }

  /** So something negative passes exactly when something negative is asked for. */
  lemma {:induction false} NegativesAreAccepted(count: nat, quantities: seq<int>)
    ensures NonNegative(Accepted(count, quantities)) <==> NonNegative(quantities)
  {
    if quantities != [] {
      var n := |quantities| - 1;
      var front, before := quantities[..n], Accepted(count, quantities[..n]);
      NegativesAreAccepted(count, front);
      AcceptedFits(count, front);
      assert quantities == front + [quantities[n]];
      if quantities[n] < 0 {
        assert Accepted(count, quantities)[|before|] < 0;
      } else if !NonNegative(front) {
        var i :| 0 <= i < |before| && before[i] < 0;
        assert Accepted(count, quantities)[i] == before[i];
      }
    }
  }

  lemma {:induction false} PromisedAgainstSum(quantities: seq<int>)
    ensures Promised(quantities) >= Sum(quantities)
    ensures NonNegative(quantities) <==> Promised(quantities) == Sum(quantities)
  {
    if quantities != [] {
      PromisedAgainstSum(quantities[..|quantities| - 1]);
    }
  }

  /**
   More is promised than the warehouse holds, for some further orders of non-negative quantity,
   exactly when some order so far was of negative quantity: it frees stock that is not there.
   */
  lemma OversellsIff(count: nat, quantities: seq<int>)
    ensures (forall more :: NonNegative(more) ==> Promised(Accepted(count, quantities + more)) <= count)
            <==> NonNegative(quantities)
  {
    if NonNegative(quantities) {
      forall more | NonNegative(more) ensures Promised(Accepted(count, quantities + more)) <= count {
        NegativesAreAccepted(count, quantities + more);
        PromisedAgainstSum(Accepted(count, quantities + more));
        AcceptedFits(count, quantities + more);
      }
    } else {
      var accepted := Accepted(count, quantities);
      NegativesAreAccepted(count, quantities);
      AcceptedFits(count, quantities);
      PromisedAgainstSum(accepted);
      var q := count - Sum(accepted);
      assert (quantities + [q])[..|quantities|] == quantities;
      assert (accepted + [q])[..|accepted|] == accepted;
      assert NonNegative([q]) && Accepted(count, quantities + [q]) == accepted + [q];
      assert Promised(Accepted(count, quantities + [q])) > count;
    }
  }
}
