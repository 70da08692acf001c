/**
 The reserved stock splits into what the VALIDATED orders ask for and what is stranded with orders
 that passed the inventory check and were not VALIDATED.
 */
module PipelineStranding {
  import opened Orders
  import opened OrderPipeline
  import opened PipelineInvariant
  import opened PipelineTheorems
  import opened PipelinePaths
  import Inventory = InventoryService

  // ------------------------------------------- sold, stranded and reserved

  ghost function Sold(s: System, product: Product): int
  {
    QuantityOf(s.orders, product, ValidatedIds(s))
  }

  ghost function Stranded(s: System, product: Product): int
  {
    QuantityOf(s.orders, product, InventoryPassed(s.validations) - ValidatedIds(s))
  }

  ghost predicate Oversold(s: System, product: Product)
  {
    Sold(s, product) > 0 && Sold(s, product) > Inventory.StockOf(s.warehouse, product)
  }

  lemma {:induction false} QuantitySplit(orders: seq<Stamped<Order>>, product: Product, ids: set<string>, some: set<string>)
    requires some <= ids
    ensures QuantityOf(orders, product, ids) == QuantityOf(orders, product, some) + QuantityOf(orders, product, ids - some)
  {
    if orders != [] {
      QuantitySplit(orders[..|orders| - 1], product, ids, some);
    }
  }

  /** Conservation: every reserved unit is sold or stranded. */
  lemma ReservedIsSoldOrStranded(s: System, product: Product)
    requires Inv(s)
    ensures Inventory.StockOf(s.reserved, product) == Sold(s, product) + Stranded(s, product)
  {
    ValidatedArePassed(s);
    QuantitySplit(s.orders, product, InventoryPassed(s.validations), ValidatedIds(s));
  }

  /** The same ids, as far as the CREATED orders are concerned. */
  ghost predicate SameFor(orders: seq<Stamped<Order>>, ids: set<string>, ids': set<string>)
  {
    forall i :: 0 <= i < |orders| && orders[i].value.state == CREATED ==> (orders[i].value.id in ids <==> orders[i].value.id in ids')
  }

  lemma {:induction false} QuantitySame(orders: seq<Stamped<Order>>, product: Product, ids: set<string>, ids': set<string>)
    requires SameFor(orders, ids, ids')
    ensures QuantityOf(orders, product, ids') == QuantityOf(orders, product, ids)
  {
    if orders != [] {
      QuantitySame(orders[..|orders| - 1], product, ids, ids');
    }
  }

  /** Some continuation by orders of non-negative quantity oversells the product. */
  ghost predicate CanOversell(s: System, product: Product)
  {
    exists d :: Reaches(0, s, d) && Oversold(d, product)
  }
}
