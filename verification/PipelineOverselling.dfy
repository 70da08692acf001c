/**
 When a product can be sold beyond its warehouse count.  Orders of negative quantity pass the
 inventory check and can make the stranded stock negative, and then, and at rest only then, further
 orders of non-negative quantity oversell.
 */
module PipelineOverselling {
  import opened Options
  import opened Orders
  import opened OrderPipeline
  import opened PipelineInvariant
  import opened PipelineTheorems
  import opened PipelineQuiescence
  import opened PipelinePaths
  import opened PipelineStranding
  import opened PipelineProspects
  import opened PipelineSettling
  import Details = OrderDetailsService
  import Inventory = InventoryService
  import Fraud = FraudService
  import Agg = ValidationsAggregator

  // --------------------------------------------------------------- a new order

  lemma {:induction false} LargestCustomer(orders: seq<Stamped<Order>>) returns (c: int)
    ensures forall i :: 0 <= i < |orders| ==> orders[i].value.customerId <= c
  {
    c := 0;
    if orders != [] {
      c := LargestCustomer(orders[..|orders| - 1]);
      var last := orders[|orders| - 1].value.customerId;
      if c < last { c := last; }
    }
  }

  /** A CREATED order of a product, by an id and a customer not seen before. */
  ghost predicate IsNew(s: System, o: Stamped<Order>, product: Product, quantity: int)
  {
    && o.ts == 0 && o.value.state == CREATED
    && o.value.product == Some(product) && o.value.quantity == quantity
    && (forall i :: 0 <= i < |s.orders| ==> s.orders[i].value.id != o.value.id)
    && (forall i :: 0 <= i < |s.fraudLog| ==> s.fraudLog[i].value.customerId != o.value.customerId)
  }

  lemma NewOrder(s: System, product: Product, quantity: int, price: real) returns (o: Stamped<Order>)
    ensures IsNew(s, o, product, quantity) && o.value.price == price
  {
    var id := NewId(s.orders);
    var c := LargestCustomer(s.fraudLog);
    o := Stamped(0, Order(id, c + 1, CREATED, Some(product), quantity, price));
  }

  lemma NoVerdictOnNew(s: System, o: Stamped<Order>, product: Product, quantity: int)
    requires OneVerdictEach(s) && IsNew(s, o, product, quantity)
    ensures forall j :: 0 <= j < |s.validations| ==> s.validations[j].value.orderId != o.value.id
  {
    forall j | 0 <= j < |s.validations| ensures s.validations[j].value.orderId != o.value.id {
      assert Caused(s, s.validations[j].value);
    }
  }

  // ---------------------------------------------- the new order is VALIDATED

  /** The three PASS verdicts on the new order. */
  function Passes(id: string): seq<Stamped<OrderValidation>>
  {
    [Stamped(0, OrderValidation(id, ORDER_DETAILS_CHECK, PASS)),
     Stamped(0, OrderValidation(id, INVENTORY_CHECK, PASS)),
     Stamped(0, OrderValidation(id, FRAUD_CHECK, PASS))]
  }

  /** The new order is on its topic with its verdicts on theirs; the aggregator has not moved. */
  ghost predicate Vetted(s: System, v: System, o: Stamped<Order>)
  {
    && v.orders == s.orders + [o]
    && v.validations == s.validations + Passes(o.value.id)
    && v.warehouse == s.warehouse
    && v.aggOrders == s.aggOrders && v.aggVerdicts == s.aggVerdicts && v.aggLog == s.aggLog
  }

  lemma VetSubmit(least: int, s: System, o: Stamped<Order>, product: Product, quantity: int) returns (t: System)
    requires IsNew(s, o, product, quantity) && least <= quantity
    ensures t == s.(orders := s.orders + [o]) && Reaches(least, s, t)
  {
    ReachesSelf(least, s);
    t := Next(s, Submit(o));
    ReachesStep(least, s, s, Submit(o), t);
  }

  lemma VetDetails(s: System, t: System, n: nat) returns (t': System)
    requires Reaches(0, s, t) && IsCreated(t, n) && n !in t.details && Details.IsValid(t.orders[n].value)
    ensures t' == t.(details := t.details + {n},
                     validations := t.validations + [Stamped(0, OrderValidation(t.orders[n].value.id, ORDER_DETAILS_CHECK, PASS))])
    ensures Reaches(0, s, t')
  {
    t' := Next(t, CheckDetails(n, 0));
    ReachesStep(0, s, t, CheckDetails(n, 0), t');
    assert StampAll([Details.Result(t.orders[n].value)], 0) == [Stamped(0, Details.Result(t.orders[n].value))];
  }

  lemma VetInventory(least: int, s: System, t: System, n: nat, product: Product) returns (t': System)
    requires Reaches(least, s, t) && IsCreated(t, n) && n !in t.inventory
    requires t.orders[n].value.product == Some(product) && product in t.warehouse
    requires Inventory.Covers(t.warehouse[product], Inventory.StockOf(t.reserved, product), t.orders[n].value.quantity)
    ensures t' == t.(inventory := t.inventory + {n}, reserved := t'.reserved,
                     validations := t.validations + [Stamped(0, OrderValidation(t.orders[n].value.id, INVENTORY_CHECK, PASS))])
    ensures Inventory.StockOf(t'.reserved, product) == Inventory.StockOf(t.reserved, product) + t.orders[n].value.quantity
    ensures Reaches(least, s, t')
  {
    t' := Next(t, CheckInventory(n, 0));
    ReachesStep(least, s, t, CheckInventory(n, 0), t');
  }

  lemma VetFraud(s: System, t: System, n: nat) returns (t': System)
    requires Reaches(0, s, t) && IsCreated(t, n) && n !in t.fraud && t.orders[n].value.price == 0.0
    requires forall i :: 0 <= i < |t.fraudLog| ==> t.fraudLog[i].value.customerId != t.orders[n].value.customerId
    ensures t' == t.(fraud := t.fraud + {n}, fraudLog := t.fraudLog + [t.orders[n]],
                     validations := t.validations + [Stamped(0, OrderValidation(t.orders[n].value.id, FRAUD_CHECK, PASS))])
    ensures Reaches(0, s, t')
  {
    Fraud.FirstOrder(t.fraudLog, t.orders[n]);
    assert t.orders[n].value.quantity as real * t.orders[n].value.price == 0.0;
    t' := Next(t, CheckFraud(n, 0));
    ReachesStep(0, s, t, CheckFraud(n, 0), t');
    assert StampAll([OrderValidation(t.orders[n].value.id, FRAUD_CHECK, PASS)], 0)
        == [Stamped(0, OrderValidation(t.orders[n].value.id, FRAUD_CHECK, PASS))];
  }

  lemma Vet(s: System, o: Stamped<Order>, product: Product, quantity: nat) returns (v: System)
    requires InRange(s) && IsNew(s, o, product, quantity) && o.value.price == 0.0 && product in s.warehouse
    requires Inventory.Covers(s.warehouse[product], Inventory.StockOf(s.reserved, product), quantity)
    ensures Vetted(s, v, o) && Reaches(0, s, v)
  {
    var n := |s.orders|;
    assert n !in s.details && n !in s.inventory && n !in s.fraud;
    v := VetSubmit(0, s, o, product, quantity);
    v := VetDetails(s, v, n);
    v := VetInventory(0, s, v, n, product);
    v := VetFraud(s, v, n);
  }

  /** The aggregator takes records of one id: nothing else is decided, submitted or answered. */
  ghost predicate Deciding(v: System, s: System, id: string)
  {
    && v.orders <= s.orders && NoNewCreated(v, s)
    && s.validations == v.validations && s.warehouse == v.warehouse
    && v.aggOrders <= s.aggOrders && v.aggVerdicts <= s.aggVerdicts
    && forall other :: other != id ==> Published(s, other) == Published(v, other)
  }

  lemma DecidingStep(v: System, s: System, id: string, a: Action, s': System)
    requires Deciding(v, s, id) && Enabled(s, a) && (a.AggregateOrder? || a.AggregateVerdict?) && s' == Next(s, a)
    requires Agg.KeyOf(Consumption(s, a)) == id
    ensures Deciding(v, s', id)
  {
    OnlySubmitCreates(s, a);
    forall other | other != id ensures Published(s', other) == Published(v, other) {
      ViewAfter(s, s', Consumption(s, a), other);
    }
    forall i | |v.orders| <= i < |s'.orders| ensures !IsCreated(s', i) {
      if i < |s.orders| { assert !IsCreated(s, i); }
    }
  }

  lemma TakeOrder(s: System, v: System, t: System, n: nat, id: string) returns (t': System)
    requires Reaches(0, s, t) && Deciding(v, t, id)
    requires n < |t.orders| && n !in t.aggOrders && t.orders[n].value.id == id
    ensures Reaches(0, s, t') && Deciding(v, t', id)
    ensures t'.aggOrders == t.aggOrders + {n} && t'.aggVerdicts == t.aggVerdicts
  {
    t' := Next(t, AggregateOrder(n, 0));
    DecidingStep(v, t, id, AggregateOrder(n, 0), t');
    ReachesStep(0, s, t, AggregateOrder(n, 0), t');
  }

  lemma TakeVerdict(s: System, v: System, t: System, j: nat, id: string) returns (t': System)
    requires Reaches(0, s, t) && Deciding(v, t, id)
    requires j < |v.validations| && j !in t.aggVerdicts && v.validations[j].value.orderId == id
    ensures Reaches(0, s, t') && Deciding(v, t', id)
    ensures t'.aggOrders == t.aggOrders && t'.aggVerdicts == t.aggVerdicts + {j}
  {
    t' := Next(t, AggregateVerdict(j, 0));
    DecidingStep(v, t, id, AggregateVerdict(j, 0), t');
    ReachesStep(0, s, t, AggregateVerdict(j, 0), t');
  }

  lemma Decide(s: System, v: System, o: Stamped<Order>) returns (d: System)
    requires InRange(s) && Vetted(s, v, o) && Reaches(0, s, v)
    ensures Deciding(v, d, o.value.id) && Reaches(0, s, d)
    ensures |s.orders| in d.aggOrders
    ensures forall j :: |s.validations| <= j < |s.validations| + 3 ==> j in d.aggVerdicts
  {
    var n, m, id := |s.orders|, |s.validations|, o.value.id;
    assert n !in v.aggOrders && m !in v.aggVerdicts && m + 1 !in v.aggVerdicts && m + 2 !in v.aggVerdicts;
    assert v.validations[m] == Passes(id)[0] && v.validations[m + 1] == Passes(id)[1] && v.validations[m + 2] == Passes(id)[2];
    d := TakeOrder(s, v, v, n, id);
    d := TakeVerdict(s, v, d, m, id);
    d := TakeVerdict(s, v, d, m + 1, id);
    d := TakeVerdict(s, v, d, m + 2, id);
  }

  /** All verdicts on the new order are the three of Passes. */
  lemma OnlyPasses(s: System, v: System, d: System, o: Stamped<Order>, product: Product, quantity: int, j: nat)
    requires OneVerdictEach(s) && IsNew(s, o, product, quantity) && Vetted(s, v, o) && d.validations == v.validations
    requires j < |d.validations| && d.validations[j].value.orderId == o.value.id
    ensures |s.validations| <= j && d.validations[j].ts == 0 && d.validations[j].value.result == PASS
  {
    NoVerdictOnNew(s, o, product, quantity);
    if |s.validations| <= j {
      assert d.validations[j] == Passes(o.value.id)[j - |s.validations|];
    }
  }

  lemma NewIsValidated(s: System, v: System, d: System, o: Stamped<Order>, product: Product, quantity: int)
    requires OneVerdictEach(s) && IsNew(s, o, product, quantity) && Vetted(s, v, o)
    requires Inv(d) && Deciding(v, d, o.value.id) && |s.orders| in d.aggOrders
    requires forall j :: |s.validations| <= j < |s.validations| + 3 ==> j in d.aggVerdicts
    ensures Agg.HasState(Published(d, o.value.id), VALIDATED)
  {
    var n, m, id := |s.orders|, |s.validations|, o.value.id;
    assert d.orders[n] == o && IsCreated(d, n);
    forall j: nat | j < |d.validations| && d.validations[j].value.orderId == id
      ensures d.validations[j].ts == 0 && d.validations[j].value.result == PASS
    {
      OnlyPasses(s, v, d, o, product, quantity, j);
    }
    forall check ensures VerdictDelivered(d, id, check) {
      var j := match check case ORDER_DETAILS_CHECK => m case INVENTORY_CHECK => m + 1 case FRAUD_CHECK => m + 2;
      assert d.validations[j] == Passes(id)[j - m];
      assert IsVerdictOn(d.validations[j], id, check);
    }
    assert FullyDelivered(d, n);
    assert PromptIn(d, n);
    DeliveredIsDecided(d, n);
  }

  lemma SameValidated(s: System, v: System, d: System, o: Stamped<Order>, product: Product, quantity: int)
    requires IsNew(s, o, product, quantity) && Vetted(s, v, o) && Deciding(v, d, o.value.id)
    ensures SameFor(s.orders, ValidatedIds(s), ValidatedIds(d))
  {
    forall i | 0 <= i < |s.orders|
      ensures s.orders[i].value.id in ValidatedIds(s) <==> s.orders[i].value.id in ValidatedIds(d)
    {
      assert d.orders[i] == v.orders[i] == s.orders[i];
      assert Published(d, s.orders[i].value.id) == Published(v, s.orders[i].value.id) == Published(s, s.orders[i].value.id);
    }
  }

  lemma QuantityWithNew(orders: seq<Stamped<Order>>, o: Stamped<Order>, more: seq<Stamped<Order>>, product: Product, ids: set<string>)
    requires o.value.state == CREATED && o.value.product == Some(product) && o.value.id in ids
    requires forall i :: 0 <= i < |more| ==> more[i].value.state != CREATED
    ensures QuantityOf((orders + [o]) + more, product, ids) == QuantityOf(orders, product, ids) + o.value.quantity
  {
    QuantityAppend(orders + [o], more, product, ids);
    assert (orders + [o])[..|orders|] == orders;
  }

  lemma DecidingOrders(v: System, d: System, id: string) returns (more: seq<Stamped<Order>>)
    requires Deciding(v, d, id)
    ensures d.orders == v.orders + more
    ensures forall i :: 0 <= i < |more| ==> more[i].value.state != CREATED
  {
    more := d.orders[|v.orders|..];
    forall i | 0 <= i < |more| ensures more[i].value.state != CREATED {
      assert !IsCreated(d, |v.orders| + i);
    }
  }

  /** What is sold grows by the quantity of the new order. */
  lemma SoldMore(s: System, v: System, d: System, o: Stamped<Order>, product: Product, quantity: int)
    requires IsNew(s, o, product, quantity) && Vetted(s, v, o) && Deciding(v, d, o.value.id)
    requires Agg.HasState(Published(d, o.value.id), VALIDATED)
    ensures Sold(d, product) == Sold(s, product) + quantity
  {
    SameValidated(s, v, d, o, product, quantity);
    QuantitySame(s.orders, product, ValidatedIds(s), ValidatedIds(d));
    var more := DecidingOrders(v, d, o.value.id);
    assert o.value.id in ValidatedIds(d) by {
      assert d.orders[|s.orders|] == o;
    }
    QuantityWithNew(s.orders, o, more, product, ValidatedIds(d));
  }

  // ------------------------------------------------- selling out, and beyond

  /** One more order takes all that is left: what is sold is then the count less what is stranded. */
  lemma SellOut(s: System, product: Product) returns (d: System)
    requires LiveInv(s) && product in s.warehouse
    requires Inventory.StockOf(s.reserved, product) <= s.warehouse[product]
    ensures Reaches(0, s, d) && d.warehouse == s.warehouse
    ensures Sold(d, product) == s.warehouse[product] - Stranded(s, product)
  {
    var quantity: nat := s.warehouse[product] - Inventory.StockOf(s.reserved, product);
    var o := NewOrder(s, product, quantity, 0.0);
    var v := Vet(s, o, product, quantity);
    d := Decide(s, v, o);
    ReachesLive(0, s, d);
    NewIsValidated(s, v, d, o, product, quantity);
    SoldMore(s, v, d, o, product, quantity);
    ReservedIsSoldOrStranded(s, product);
  }

  /** From every state there is a way, without negative orders, to sell the count less what is stranded. */
  lemma SellsTheRest(s: System, product: Product) returns (d: System)
    requires LiveInv(s)
    ensures Reaches(0, s, d) && d.warehouse == s.warehouse[product := Count(s, product)]
    ensures Sold(d, product) == Count(s, product) - Stranded(s, product)
  {
    var t := Stock(0, s, product, Count(s, product));
    d := SellOut(t, product);
    ReachesJoin(0, s, t, d);
  }

  lemma StillSold(s: System, t: System, o: Stamped<Order>, product: Product, quantity: int)
    requires Inv(s) && IsNew(s, o, product, quantity) && t.orders == s.orders + [o] && t.aggLog == s.aggLog
    ensures Sold(t, product) == Sold(s, product)
  {
    var id := o.value.id;
    assert forall other :: Published(t, other) == Published(s, other);
    if Agg.HasState(Published(s, id), VALIDATED) {
      ValidatedPassedAll(s, id, INVENTORY_CHECK);
      NoVerdictOnNew(s, o, product, quantity);
    }
    assert t.orders[..|s.orders|] == s.orders;
    assert forall i :: 0 <= i < |s.orders| ==> t.orders[i] == s.orders[i];
    assert id !in ValidatedIds(t);
    QuantitySame(s.orders, product, ValidatedIds(s), ValidatedIds(t));
  }

  /** The order o was submitted and passed the inventory check. */
  ghost predicate Admitted(s: System, t: System, o: Stamped<Order>, product: Product)
  {
    && t.orders == s.orders + [o] && t.warehouse == s.warehouse && t.aggLog == s.aggLog
    && Inventory.StockOf(t.reserved, product) == Inventory.StockOf(s.reserved, product) + o.value.quantity
    && InventoryPassed(t.validations) == InventoryPassed(s.validations) + {o.value.id}
  }

  lemma Admit(least: int, s: System, o: Stamped<Order>, product: Product, quantity: int) returns (t: System)
    requires LiveInv(s) && IsNew(s, o, product, quantity) && least <= quantity && product in s.warehouse
    requires Inventory.Covers(s.warehouse[product], Inventory.StockOf(s.reserved, product), quantity)
    ensures Reaches(least, s, t) && LiveInv(t) && Admitted(s, t, o, product)
  {
    var n := |s.orders|;
    assert n !in s.inventory;
    t := VetSubmit(least, s, o, product, quantity);
    t := VetInventory(least, s, t, n, product);
    ReachesLive(least, s, t);
    PassedAppend(s.validations, Stamped(0, OrderValidation(o.value.id, INVENTORY_CHECK, PASS)));
  }

  /** An order of negative quantity passes the inventory check and is stranded. */
  lemma NegativeIsStranded(s: System, product: Product, quantity: int) returns (t: System)
    requires LiveInv(s) && product in s.warehouse && quantity < 0
    requires Inventory.StockOf(s.reserved, product) <= s.warehouse[product]
    ensures Reaches(quantity, s, t) && LiveInv(t) && t.warehouse == s.warehouse
    ensures Inventory.StockOf(t.reserved, product) <= t.warehouse[product]
    ensures Stranded(t, product) == Stranded(s, product) + quantity
  {
    var o := NewOrder(s, product, quantity, 0.0);
    t := Admit(quantity, s, o, product, quantity);
    StillSold(s, t, o, product, quantity);
    ReservedIsSoldOrStranded(s, product);
    ReservedIsSoldOrStranded(t, product);
  }

  /** Stranding less than nothing is enough: from there, orders of non-negative quantity oversell. */
  lemma OversellsWhenStranded(states: seq<System>, actions: seq<Action>, k: nat, product: Product)
    requires IsRun(states, actions) && k < |states| && Stranded(states[k], product) < 0
    ensures CanOversell(states[k], product)
  {
    RunLive(states, actions, k);
    var d := SellsTheRest(states[k], product);
    assert Oversold(d, product);
  }

  /** A negative order, then one for all that is left, at a given count. */
  lemma NegativeThenRest(s: System, product: Product, count: nat, quantity: int) returns (d: System)
    requires LiveInv(s) && Inventory.StockOf(s.warehouse, product) <= count && quantity < 0
    ensures Reaches(quantity, s, d) && d.warehouse == s.warehouse[product := count]
    ensures Sold(d, product) == count - Stranded(s, product) - quantity
  {
    var t := Stock(quantity, s, product, count);
    var t' := NegativeIsStranded(t, product, quantity);
    d := SellOut(t', product);
    ReachesInThree(quantity, s, t, t', d);
  }

  /** One order of sufficiently negative quantity is enough, from every state of every run. */
  lemma NegativeOrderOversells(states: seq<System>, actions: seq<Action>, k: nat, product: Product, quantity: int)
    requires IsRun(states, actions) && k < |states|
    requires quantity < 0 && Stranded(states[k], product) + quantity < 0
    ensures exists d :: Reaches(quantity, states[k], d) && Oversold(d, product)
  {
    RunLive(states, actions, k);
    var d := NegativeThenRest(states[k], product, Count(states[k], product), quantity);
    assert Oversold(d, product);
  }

  lemma NothingStranded(product: Product)
    ensures Stranded(EMPTY, product) == 0
  {
  }

  /** For every count and every negative quantity: an order of that quantity, then one for all that is left. */
  lemma NegativeOrderOversellsCount(product: Product, count: nat, quantity: int)
    requires quantity < 0
    ensures exists d :: Reaches(quantity, EMPTY, d) && d.warehouse == map[product := count] && Sold(d, product) == count - quantity
  {
    InitLive();
    NothingStranded(product);
    var d := NegativeThenRest(EMPTY, product, count, quantity);
    assert d.warehouse == map[product := count];
  }

  /** One unit in stock, an order of minus five and one of six: six units are VALIDATED. */
  lemma SixSoldOfOne(product: Product)
    ensures exists d :: Reaches(-5, EMPTY, d) && d.warehouse == map[product := 1] && Sold(d, product) == 6
  {
    NegativeOrderOversellsCount(product, 1, -5);
  }

  /**
   From every state of every run, some continuation by orders of non-negative quantity oversells a
   product exactly when its outlook is negative: the orders that passed and can no longer be
   VALIDATED, and the negative orders still to be taken, sum to less than nothing.
   */
  lemma OversellableIff(states: seq<System>, actions: seq<Action>, k: nat, product: Product)
    requires IsRun(states, actions) && k < |states|
    ensures CanOversell(states[k], product) <==> Outlook(states[k], product) < 0
  {
    RunLive(states, actions, k);
    if Outlook(states[k], product) < 0 {
      var t := OutlookIsReached(states[k], product);
      var d := SellsTheRest(t, product);
      ReachesJoin(0, states[k], t, d);
      assert Oversold(d, product);
    } else {
      SafeOutlook(states[k], product);
    }
  }

  /** At rest that is when less than nothing is stranded. */
  lemma OversellableAtRestIff(states: seq<System>, actions: seq<Action>, k: nat, product: Product)
    requires IsRun(states, actions) && k < |states| && AtRest(states[k])
    ensures CanOversell(states[k], product) <==> Stranded(states[k], product) < 0
  {
    RunLive(states, actions, k);
    OversellableIff(states, actions, k, product);
    RestOutlook(states[k], product);
  }

  // ------------------------------------ a negative order that does no harm

  lemma InvalidIsStranded(r: System, i: nat)
    requires Inv(r) && IsCreated(r, i) && !Details.IsValid(r.orders[i].value)
    requires r.orders[i].value.id in InventoryPassed(r.validations)
    ensures r.orders[i].value.id in InventoryPassed(r.validations) - ValidatedIds(r)
  {
    if Agg.HasState(Published(r, r.orders[i].value.id), VALIDATED) {
      ValidatedIsValidIn(r, i);
    }
  }

  lemma {:induction false} PassedGrows(validations: seq<Stamped<OrderValidation>>, more: seq<Stamped<OrderValidation>>)
    requires validations <= more
    ensures InventoryPassed(validations) <= InventoryPassed(more)
  {
    forall id | id in InventoryPassed(validations) ensures id in InventoryPassed(more) {
      PassedIn(validations, id);
      PassedIn(more, id);
      var j :| 0 <= j < |validations| && validations[j].value == OrderValidation(id, INVENTORY_CHECK, PASS);
      assert more[j] == validations[j];
    }
  }

  lemma QuantityOfTwo(a: Stamped<Order>, b: Stamped<Order>, more: seq<Stamped<Order>>, product: Product, ids: set<string>)
    requires a.value.state == b.value.state == CREATED && a.value.product == b.value.product == Some(product)
    requires a.value.id in ids && b.value.id in ids
    requires forall i :: 0 <= i < |more| ==> more[i].value.state != CREATED
    ensures QuantityOf([a, b] + more, product, ids) == a.value.quantity + b.value.quantity
  {
    QuantityAppend([a, b], more, product, ids);
    assert [a, b][..1] == [a] && [a][..0] == [];
    assert QuantityOf([a, b], product, ids) == QuantityOf([a], product, ids) + b.value.quantity;
    assert QuantityOf([a], product, ids) == a.value.quantity;
  }

  /** Two orders of opposite quantities, neither valid. */
  ghost predicate AreOpposite(a: Order, b: Order, product: Product)
  {
    && a.state == b.state == CREATED && a.product == b.product == Some(product)
    && a.quantity + b.quantity == 0 && !Details.IsValid(a) && !Details.IsValid(b)
  }

  /** Two invalid orders that passed, of opposite quantities, strand nothing between them. */
  lemma OppositesCancel(t: System, r: System, product: Product, a: Stamped<Order>, b: Stamped<Order>)
    requires Inv(r) && Grows(t, r) && NoNewCreated(t, r) && t.orders == [a, b]
    requires AreOpposite(a.value, b.value, product)
    requires a.value.id in InventoryPassed(t.validations) && b.value.id in InventoryPassed(t.validations)
    ensures Stranded(r, product) == 0
    ensures IsCreated(r, 1) && r.orders[1] == b && b.value.id in InventoryPassed(r.validations)
  {
    var ids, more := InventoryPassed(r.validations) - ValidatedIds(r), r.orders[2..];
    PassedGrows(t.validations, r.validations);
    assert r.orders[0] == a && r.orders[1] == b && r.orders == [a, b] + more;
    InvalidIsStranded(r, 0);
    InvalidIsStranded(r, 1);
    forall i | 0 <= i < |more| ensures more[i].value.state != CREATED {
      assert !IsCreated(r, 2 + i);
    }
    QuantityOfTwo(a, b, more, product, ids);
  }

  lemma FirstStock(least: int, product: Product, count: nat) returns (t: System)
    ensures Reaches(least, EMPTY, t) && LiveInv(t) && t.orders == []
    ensures Inventory.StockOf(t.reserved, product) == 0 && product in t.warehouse && t.warehouse[product] == count
  {
    InitLive();
    t := Stock(least, EMPTY, product, count);
  }

  /** An order for all that is in stock, of negative price. */
  lemma AdmitAll(s: System, product: Product, quantity: int) returns (t: System, a: Stamped<Order>)
    requires LiveInv(s) && s.orders == [] && product in s.warehouse && quantity > 0
    requires Inventory.StockOf(s.reserved, product) == 0 && s.warehouse[product] == quantity
    ensures Reaches(-quantity, s, t) && LiveInv(t) && t.orders == [a] && t.warehouse == s.warehouse
    ensures IsNew(s, a, product, quantity) && a.value.price < 0.0 && a.value.id in InventoryPassed(t.validations)
    ensures Inventory.StockOf(t.reserved, product) == quantity
  {
    a := NewOrder(s, product, quantity, -1.0);
    t := Admit(-quantity, s, a, product, quantity);
  }

  /** And one that takes it back. */
  lemma AdmitOpposite(s: System, product: Product, quantity: int, a: Stamped<Order>) returns (t: System, b: Stamped<Order>)
    requires LiveInv(s) && s.orders == [a] && product in s.warehouse && quantity > 0
    requires Inventory.StockOf(s.reserved, product) == quantity && s.warehouse[product] == quantity
    requires a.value.state == CREATED && a.value.product == Some(product) && a.value.quantity == quantity && a.value.price < 0.0
    requires a.value.id in InventoryPassed(s.validations)
    ensures Reaches(-quantity, s, t) && LiveInv(t) && t.orders == [a, b]
    ensures AreOpposite(a.value, b.value, product) && b.value.quantity < 0
    ensures a.value.id in InventoryPassed(t.validations) && b.value.id in InventoryPassed(t.validations)
  {
    b := NewOrder(s, product, -quantity, 0.0);
    t := Admit(-quantity, s, b, product, -quantity);
  }

  lemma AdmitOpposites(s: System, product: Product, quantity: int) returns (t: System, a: Stamped<Order>, b: Stamped<Order>)
    requires LiveInv(s) && s.orders == [] && product in s.warehouse && quantity > 0
    requires Inventory.StockOf(s.reserved, product) == 0 && s.warehouse[product] == quantity
    ensures Reaches(-quantity, s, t) && LiveInv(t) && t.orders == [a, b]
    ensures AreOpposite(a.value, b.value, product) && b.value.quantity < 0
    ensures a.value.id in InventoryPassed(t.validations) && b.value.id in InventoryPassed(t.validations)
  {
    var u;
    u, a := AdmitAll(s, product, quantity);
    t, b := AdmitOpposite(u, product, quantity, a);
    ReachesJoin(-quantity, s, u, t);
  }

  /** An order of negative quantity has passed the inventory check. */
  ghost predicate HasNegative(s: System, product: Product)
  {
    exists i :: 0 <= i < |s.orders| && IsCreated(s, i) && s.orders[i].value.product == Some(product) &&
                s.orders[i].value.quantity < 0 && s.orders[i].value.id in InventoryPassed(s.validations)
  }

  lemma RestAfterOpposites(t: System, product: Product, a: Stamped<Order>, b: Stamped<Order>) returns (r: System)
    requires LiveInv(t) && t.orders == [a, b] && AreOpposite(a.value, b.value, product) && b.value.quantity < 0
    requires a.value.id in InventoryPassed(t.validations) && b.value.id in InventoryPassed(t.validations)
    ensures Reaches(0, t, r) && AtRest(r) && HasNegative(r, product) && !CanOversell(r, product)
  {
    r := RunToRest(t);
    OppositesCancel(t, r, product, a, b);
    RestOutlook(r, product);
    SafeOutlook(r, product);
  }

  /**
   A negative order that passed need not lead to overselling: if an order of the opposite quantity
   passed as well and failed its details check, what is stranded sums to nothing.
   */
  lemma NegativeButSafe(product: Product, quantity: int)
    requires quantity > 0
    ensures exists r :: Reaches(-quantity, EMPTY, r) && AtRest(r) && HasNegative(r, product) && !CanOversell(r, product)
  {
    var s := FirstStock(-quantity, product, quantity);
    var t, a, b := AdmitOpposites(s, product, quantity);
    var r := RestAfterOpposites(t, product, a, b);
    ReachesInThree(-quantity, EMPTY, s, t, r);
  }
}
