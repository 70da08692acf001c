/** What every step of the order services keeps. */
module PipelineInvariant {
  import opened Options
  import opened Orders
  import opened OrderPipeline
  import Details = OrderDetailsService
  import Inventory = InventoryService
  import Fraud = FraudService
  import Agg = ValidationsAggregator

  /** Topics only grow, and so does what has been consumed. */
  ghost predicate Grows(s: System, s': System)
  {
    && s.orders <= s'.orders
    && s.validations <= s'.validations
    && s.details <= s'.details && s.inventory <= s'.inventory && s.fraud <= s'.fraud
    && s.aggOrders <= s'.aggOrders && s.aggVerdicts <= s'.aggVerdicts
  }

  lemma StepGrows(s: System, a: Action)
    requires Enabled(s, a)
    ensures Grows(s, Next(s, a))
  {
  }

  lemma GrowsKeepsCreated(s: System, s': System, i: nat)
    requires Grows(s, s') && IsCreated(s, i)
    ensures IsCreated(s', i) && s'.orders[i] == s.orders[i]
  {
  }

  // ------------------------------------------------------------ the orders topic

  lemma DecisionsAreDecided(s: System, e: Agg.Event)
    ensures forall i :: 0 <= i < |Decisions(s, e)| ==> Decisions(s, e)[i].state != CREATED
  {
    Agg.NeverCreates(Agg.ForKey(s.aggLog, Agg.KeyOf(e)), e);
  }

  /** The records added to the orders topic are not CREATED. */
  ghost predicate NoNewCreated(s: System, s': System)
  {
    forall i :: |s.orders| <= i < |s'.orders| ==> !IsCreated(s', i)
  }

  lemma OnlySubmitCreates(s: System, a: Action)
    requires Enabled(s, a) && !a.Submit?
    ensures NoNewCreated(s, Next(s, a))
  {
    match a {
      case AggregateOrder(i, _) => DecisionsAreDecided(s, Agg.OrderArrived(s.orders[i]));
      case AggregateVerdict(j, _) => DecisionsAreDecided(s, Agg.VerdictArrived(s.validations[j]));
      case _ =>
    }
  }

  lemma StepUniqueIds(s: System, a: Action)
    requires Enabled(s, a) && UniqueIds(s)
    ensures UniqueIds(Next(s, a))
  {
    var s' := Next(s, a);
    StepGrows(s, a);
    if !a.Submit? { OnlySubmitCreates(s, a); }
    forall i, j | 0 <= i < j < |s'.orders| && IsCreated(s', i) && IsCreated(s', j)
      ensures s'.orders[i].value.id != s'.orders[j].value.id
    {
      assert IsCreated(s, i);
      if j < |s.orders| { assert IsCreated(s, j); }
    }
  }

  // ------------------------------------------------------- the validations topic

  lemma VerdictsKept(s: System, s': System)
    requires OneVerdictEach(s) && Grows(s, s') && s'.validations == s.validations
    ensures OneVerdictEach(s')
  {
  }

  lemma VerdictAdded(s: System, s': System, i: nat, v: Stamped<OrderValidation>)
    requires UniqueIds(s) && OneVerdictEach(s) && Grows(s, s')
    requires s'.validations == s.validations + [v]
    requires IsCreated(s, i) && s.orders[i].value.id == v.value.orderId
    requires i !in Consumed(s, v.value.checkType) && i in Consumed(s', v.value.checkType)
    ensures OneVerdictEach(s')
  {
  }

  lemma FraudVerdict(s: System, i: nat)
    requires i < |s.orders|
    ensures var out := Fraud.VerdictsFor(Fraud.Run(s.fraudLog), s.orders[i]);
            if IsCreated(s, i)
            then |out| == 1 && out[0].orderId == s.orders[i].value.id && out[0].checkType == FRAUD_CHECK
            else out == []
  {
    Fraud.RunExact(s.fraudLog);
    Fraud.OneVerdict(Fraud.Run(s.fraudLog), s.fraudLog, s.orders[i]);
  }

  lemma StepVerdicts(s: System, a: Action)
    requires Enabled(s, a) && UniqueIds(s) && OneVerdictEach(s)
    ensures OneVerdictEach(Next(s, a))
  {
    var s' := Next(s, a);
    StepGrows(s, a);
    if a.CheckFraud? { FraudVerdict(s, a.i); }
    if |s'.validations| == |s.validations| {
      assert s'.validations == s.validations;
      VerdictsKept(s, s');
    } else {
      var v := s'.validations[|s.validations|];
      assert s'.validations == s.validations + [v];
      VerdictAdded(s, s', a.i, v);
    }
  }

  // ------------------------------------------------------------- the aggregator

  lemma VerdictsInViewGrows(s: System, s': System, seen: seq<Stamped<OrderValidation>>, id: string)
    requires Grows(s, s') && VerdictsInView(s, seen, id)
    ensures VerdictsInView(s', seen, id)
  {
  }

  lemma OrdersInViewGrows(s: System, s': System, seen: seq<Stamped<Order>>, id: string)
    requires Grows(s, s') && OrdersInView(s, seen, id)
    ensures OrdersInView(s', seen, id)
  {
  }

  lemma SeenPosition(s: System, seen: seq<Stamped<Order>>, id: string) returns (k: nat)
    requires OrdersInView(s, seen, id) && seen != []
    ensures k in s.aggOrders && IsCreated(s, k) && s.orders[k].value.id == id
  {
    assert Delivered(s.orders, s.aggOrders, seen[0]);
    k :| k in s.aggOrders && k < |s.orders| && s.orders[k] == seen[0];
  }

  lemma OrderIsNew(s: System, i: nat, seen: seq<Stamped<Order>>, id: string)
    requires UniqueIds(s) && OrdersInView(s, seen, id)
    requires IsCreated(s, i) && i !in s.aggOrders && s.orders[i].value.id == id
    ensures seen == []
  {
    if seen != [] {
      var k := SeenPosition(s, seen, id);
    }
  }

  /** The view of the order concerned, after one more record. */
  lemma ViewAfter(s: System, s': System, e: Agg.Event, id: string)
    requires s'.aggLog == s.aggLog + [e]
    ensures Seen(s', id) == if e.VerdictArrived? && Agg.KeyOf(e) == id then Seen(s, id) + [e.verdict] else Seen(s, id)
    ensures SeenOrders(s', id) ==
            if e.OrderArrived? && e.order.value.state == CREATED && Agg.KeyOf(e) == id
            then SeenOrders(s, id) + [e.order] else SeenOrders(s, id)
    ensures Published(s', id) == if Agg.KeyOf(e) == id then Published(s, id) + Decisions(s, e) else Published(s, id)
  {
    var log, log' := Agg.ForKey(s.aggLog, id), Agg.ForKey(s'.aggLog, id);
    Agg.ForKeyAppend(s.aggLog, e, id);
    if Agg.KeyOf(e) == id {
      assert log' == log + [e];
      Agg.RunAppend(log, e);
    } else {
      assert log' == log;
    }
  }

  lemma VerdictInView(s: System, s': System, j: nat, seen: seq<Stamped<OrderValidation>>, id: string)
    requires OneVerdictEach(s) && VerdictsInView(s, seen, id) && Grows(s, s')
    requires j < |s.validations| && j !in s.aggVerdicts && j in s'.aggVerdicts && s.validations[j].value.orderId == id
    ensures VerdictsInView(s', seen + [s.validations[j]], id)
  {
  }

  lemma VerdictSeen(s: System, s': System, j: nat, id: string)
    requires OneVerdictEach(s) && AggregatorView(s, id) && Grows(s, s')
    requires j < |s.validations| && j !in s.aggVerdicts && j in s'.aggVerdicts
    requires s'.aggLog == s.aggLog + [Agg.VerdictArrived(s.validations[j])]
    ensures AggregatorView(s', id)
  {
    ViewAfter(s, s', Agg.VerdictArrived(s.validations[j]), id);
    OrdersInViewGrows(s, s', SeenOrders(s, id), id);
    if s.validations[j].value.orderId == id {
      VerdictInView(s, s', j, Seen(s, id), id);
    } else {
      VerdictsInViewGrows(s, s', Seen(s, id), id);
    }
  }

  lemma OrderInView(s: System, s': System, i: nat, seen: seq<Stamped<Order>>, id: string)
    requires UniqueIds(s) && OrdersInView(s, seen, id) && Grows(s, s')
    requires IsCreated(s, i) && i !in s.aggOrders && i in s'.aggOrders && s.orders[i].value.id == id
    ensures OrdersInView(s', seen + [s.orders[i]], id)
  {
    OrderIsNew(s, i, seen, id);
    assert s'.orders[i] == s.orders[i];
    assert Delivered(s'.orders, s'.aggOrders, s.orders[i]);
  }

  lemma OrderSeen(s: System, s': System, i: nat, id: string)
    requires UniqueIds(s) && AggregatorView(s, id) && Grows(s, s')
    requires i < |s.orders| && i !in s.aggOrders && i in s'.aggOrders
    requires s'.aggLog == s.aggLog + [Agg.OrderArrived(s.orders[i])]
    ensures AggregatorView(s', id)
  {
    ViewAfter(s, s', Agg.OrderArrived(s.orders[i]), id);
    VerdictsInViewGrows(s, s', Seen(s, id), id);
    if IsCreated(s, i) && s.orders[i].value.id == id {
      OrderInView(s, s', i, SeenOrders(s, id), id);
    } else {
      OrdersInViewGrows(s, s', SeenOrders(s, id), id);
    }
  }

  lemma StepView(s: System, a: Action, id: string)
    requires Enabled(s, a) && UniqueIds(s) && OneVerdictEach(s) && AggregatorView(s, id)
    ensures AggregatorView(Next(s, a), id)
  {
    var s' := Next(s, a);
    StepGrows(s, a);
    match a {
      case AggregateOrder(i, _) => OrderSeen(s, s', i, id);
      case AggregateVerdict(j, _) => VerdictSeen(s, s', j, id);
      case _ =>
        assert s'.aggLog == s.aggLog;
        VerdictsInViewGrows(s, s', Seen(s, id), id);
        OrdersInViewGrows(s, s', SeenOrders(s, id), id);
    }
  }

  /** The record just consumed by the aggregator. */
  function Consumption(s: System, a: Action): Agg.Event
    requires Enabled(s, a) && (a.AggregateOrder? || a.AggregateVerdict?)
  {
    if a.AggregateOrder? then Agg.OrderArrived(s.orders[a.i]) else Agg.VerdictArrived(s.validations[a.j])
  }

  lemma SeenGrows(s: System, a: Action, id: string)
    requires Enabled(s, a)
    ensures Seen(s, id) <= Seen(Next(s, a), id) && SeenOrders(s, id) <= SeenOrders(Next(s, a), id)
  {
    if a.AggregateOrder? || a.AggregateVerdict? {
      ViewAfter(s, Next(s, a), Consumption(s, a), id);
    }
  }

  lemma ConsumedIsSeen(s: System, a: Action)
    requires Enabled(s, a)
    ensures a.AggregateVerdict? ==> s.validations[a.j] in Seen(Next(s, a), s.validations[a.j].value.orderId)
    ensures a.AggregateOrder? && IsCreated(s, a.i) ==> s.orders[a.i] in SeenOrders(Next(s, a), s.orders[a.i].value.id)
  {
  }

  lemma VerdictStillSeen(s: System, s': System, a: Action, j: nat)
    requires Enabled(s, a) && s' == Next(s, a) && NoVerdictDropped(s) && Grows(s, s') && j in s'.aggVerdicts
    ensures j < |s'.validations| && s'.validations[j] in Seen(s', s'.validations[j].value.orderId)
  {
    if j in s.aggVerdicts {
      SeenGrows(s, a, s.validations[j].value.orderId);
      assert s'.validations[j] == s.validations[j];
    } else {
      ConsumedIsSeen(s, a);
    }
  }

  lemma StepNoVerdictDropped(s: System, s': System, a: Action)
    requires Enabled(s, a) && s' == Next(s, a) && NoVerdictDropped(s) && Grows(s, s')
    ensures NoVerdictDropped(s')
  {
    forall j | j in s'.aggVerdicts
      ensures j < |s'.validations| && s'.validations[j] in Seen(s', s'.validations[j].value.orderId)
    {
      VerdictStillSeen(s, s', a, j);
    }
  }

  lemma StepNoOrderDropped(s: System, s': System, a: Action)
    requires Enabled(s, a) && s' == Next(s, a) && NoOrderDropped(s) && Grows(s, s')
    ensures NoOrderDropped(s')
  {
    ConsumedIsSeen(s, a);
    forall i | i in s'.aggOrders && IsCreated(s', i)
      ensures s'.orders[i] in SeenOrders(s', s'.orders[i].value.id)
    {
      if i in s.aggOrders {
        assert IsCreated(s, i);
        SeenGrows(s, a, s.orders[i].value.id);
      }
    }
  }

  lemma StepNothingDropped(s: System, a: Action)
    requires Enabled(s, a) && NothingDropped(s)
    ensures NothingDropped(Next(s, a))
  {
    StepGrows(s, a);
    StepNoVerdictDropped(s, Next(s, a), a);
    StepNoOrderDropped(s, Next(s, a), a);
  }

  // ----------------------------------------------------------------- the stock

  function Counted(o: Order, product: Product, ids: set<string>): int
  {
    if o.state == CREATED && o.product == Some(product) && o.id in ids then o.quantity else 0
  }

  /** Quantity of a product over the CREATED orders whose id is among the given ones. */
  function QuantityOf(orders: seq<Stamped<Order>>, product: Product, ids: set<string>): int
  {
    if orders == [] then 0
    else
      var n := |orders| - 1;
      QuantityOf(orders[..n], product, ids) + Counted(orders[n].value, product, ids)
  }

  function PassedBy(v: Stamped<OrderValidation>): set<string>
  {
    if v.value.checkType == INVENTORY_CHECK && v.value.result == PASS then {v.value.orderId} else {}
  }

  /** Ids of the orders that passed the inventory check. */
  function InventoryPassed(validations: seq<Stamped<OrderValidation>>): set<string>
  {
    if validations == [] then {}
    else
      var n := |validations| - 1;
      InventoryPassed(validations[..n]) + PassedBy(validations[n])
  }

  lemma PassedAppend(validations: seq<Stamped<OrderValidation>>, v: Stamped<OrderValidation>)
    ensures InventoryPassed(validations + [v]) == InventoryPassed(validations) + PassedBy(v)
  {
  }

  lemma {:induction false} PassedIn(validations: seq<Stamped<OrderValidation>>, id: string)
    ensures id in InventoryPassed(validations) <==>
            exists j :: 0 <= j < |validations| && validations[j].value == OrderValidation(id, INVENTORY_CHECK, PASS)
  {
    if validations != [] {
      var n := |validations| - 1;
      PassedIn(validations[..n], id);
      if j :| 0 <= j < |validations| && validations[j].value == OrderValidation(id, INVENTORY_CHECK, PASS) {
        if j < n { assert validations[..n][j] == validations[j]; }
      }
      if j :| 0 <= j < n && validations[..n][j].value == OrderValidation(id, INVENTORY_CHECK, PASS) {
        assert validations[j] == validations[..n][j];
      }
    }
  }

  /** The reserved stock is exactly what the passed orders ask for, and the warehouse covers it. */
  ghost predicate StockInv(s: System)
  {
    && (forall p :: Inventory.StockOf(s.reserved, p) == QuantityOf(s.orders, p, InventoryPassed(s.validations)))
    && (forall p :: p in s.reserved ==> p in s.warehouse && s.reserved[p] <= s.warehouse[p])
  }

  lemma {:induction false} QuantityIgnores(orders: seq<Stamped<Order>>, product: Product, ids: set<string>, id: string)
    requires forall i :: 0 <= i < |orders| && orders[i].value.state == CREATED ==> orders[i].value.id != id
    ensures QuantityOf(orders, product, ids + {id}) == QuantityOf(orders, product, ids)
  {
    if orders != [] {
      QuantityIgnores(orders[..|orders| - 1], product, ids, id);
    }
  }

  lemma {:induction false} QuantityOfOneMore(orders: seq<Stamped<Order>>, product: Product, ids: set<string>, i: nat)
    requires i < |orders| && orders[i].value.state == CREATED && orders[i].value.id !in ids
    requires forall j :: 0 <= j < |orders| && j != i && orders[j].value.state == CREATED ==>
               orders[j].value.id != orders[i].value.id
    ensures QuantityOf(orders, product, ids + {orders[i].value.id}) ==
            QuantityOf(orders, product, ids) +
            (if orders[i].value.product == Some(product) then orders[i].value.quantity else 0)
  {
    var n := |orders| - 1;
    if i == n {
      QuantityIgnores(orders[..n], product, ids, orders[n].value.id);
    } else {
      QuantityOfOneMore(orders[..n], product, ids, i);
    }
  }

  lemma {:induction false} QuantityMonotone(orders: seq<Stamped<Order>>, product: Product, ids: set<string>, ids': set<string>)
    requires ids <= ids'
    requires forall i :: 0 <= i < |orders| ==> Counted(orders[i].value, product, ids') >= 0
    ensures 0 <= QuantityOf(orders, product, ids) <= QuantityOf(orders, product, ids')
  {
    if orders != [] {
      QuantityMonotone(orders[..|orders| - 1], product, ids, ids');
    }
  }

  lemma {:induction false} QuantityAppend(orders: seq<Stamped<Order>>, more: seq<Stamped<Order>>, product: Product, ids: set<string>)
    requires forall i :: 0 <= i < |more| && more[i].value.state == CREATED ==> more[i].value.id !in ids
    ensures QuantityOf(orders + more, product, ids) == QuantityOf(orders, product, ids)
  {
    if more == [] {
      assert orders + more == orders;
    } else {
      var n := |more| - 1;
      assert (orders + more)[..|orders| + n] == orders + more[..n];
      QuantityAppend(orders, more[..n], product, ids);
    }
  }

  lemma NotAmongPassed(s: System, id: string)
    requires OneVerdictEach(s) && forall i :: 0 <= i < |s.orders| && IsCreated(s, i) ==> s.orders[i].value.id != id
    ensures id !in InventoryPassed(s.validations)
  {
    PassedIn(s.validations, id);
    forall j | 0 <= j < |s.validations| ensures s.validations[j].value.orderId != id {
      assert Caused(s, s.validations[j].value);
    }
  }

  /** New records on the orders topic are not among the passed orders. */
  lemma NewRecords(s: System, a: Action) returns (more: seq<Stamped<Order>>)
    requires Enabled(s, a) && OneVerdictEach(s)
    ensures Next(s, a).orders == s.orders + more
    ensures forall i :: 0 <= i < |more| && more[i].value.state == CREATED ==> more[i].value.id !in InventoryPassed(s.validations)
  {
    var s' := Next(s, a);
    StepGrows(s, a);
    more := s'.orders[|s.orders|..];
    if !a.Submit? { OnlySubmitCreates(s, a); }
    forall i | 0 <= i < |more| && more[i].value.state == CREATED ensures more[i].value.id !in InventoryPassed(s.validations) {
      assert IsCreated(s', |s.orders| + i);
      NotAmongPassed(s, more[i].value.id);
    }
  }

  lemma StockOrders(s: System, s': System, a: Action)
    requires Enabled(s, a) && s' == Next(s, a) && OneVerdictEach(s) && StockInv(s)
    requires s'.reserved == s.reserved && InventoryPassed(s'.validations) == InventoryPassed(s.validations)
    requires forall p :: p in s.warehouse ==> p in s'.warehouse && s.warehouse[p] <= s'.warehouse[p]
    ensures StockInv(s')
  {
    var ids := InventoryPassed(s.validations);
    var more := NewRecords(s, a);
    forall p ensures QuantityOf(s'.orders, p, ids) == QuantityOf(s.orders, p, ids) {
      QuantityAppend(s.orders, more, p, ids);
    }
  }

  lemma NotPassedYet(s: System, i: nat)
    requires UniqueIds(s) && OneVerdictEach(s) && IsCreated(s, i) && i !in s.inventory
    ensures s.orders[i].value.id !in InventoryPassed(s.validations)
    ensures forall j :: 0 <= j < |s.orders| && j != i && IsCreated(s, j) ==> s.orders[j].value.id != s.orders[i].value.id
  {
    var id := s.orders[i].value.id;
    PassedIn(s.validations, id);
    forall j | 0 <= j < |s.orders| && j != i && IsCreated(s, j) ensures s.orders[j].value.id != id {
      assert j < i || i < j;
    }
    if j :| 0 <= j < |s.validations| && s.validations[j].value == OrderValidation(id, INVENTORY_CHECK, PASS) {
      assert Caused(s, s.validations[j].value);
    }
  }

  lemma StockReserved(s: System, i: nat, ts: int)
    requires Enabled(s, CheckInventory(i, ts)) && UniqueIds(s) && OneVerdictEach(s) && StockInv(s) && Stocked(s, i)
    ensures StockInv(OnInventory(s, i, ts))
  {
    var s', order := OnInventory(s, i, ts), s.orders[i].value;
    var product := order.product.value;
    var r := Inventory.Check(s.reserved, order, product, s.warehouse[product]);
    var v := Stamped(ts, r.1);
    assert s'.validations == s.validations + [v];
    PassedAppend(s.validations, v);
    if r.1.result == PASS {
      NotPassedYet(s, i);
      forall p ensures Inventory.StockOf(s'.reserved, p) == QuantityOf(s'.orders, p, InventoryPassed(s'.validations)) {
        QuantityOfOneMore(s.orders, p, InventoryPassed(s.validations), i);
      }
    } else {
      assert InventoryPassed(s'.validations) == InventoryPassed(s.validations);
    }
  }

  lemma NothingElseReserves(s: System, a: Action)
    requires Enabled(s, a) && !(a.CheckInventory? && Stocked(s, a.i))
    ensures var s' := Next(s, a);
            && s'.reserved == s.reserved
            && (forall p :: p in s.warehouse ==> p in s'.warehouse && s.warehouse[p] <= s'.warehouse[p])
  {
  }

  lemma OtherVerdict(s: System, a: Action) returns (more: seq<Stamped<OrderValidation>>)
    requires Enabled(s, a) && !(a.CheckInventory? && Stocked(s, a.i))
    ensures Next(s, a).validations == s.validations + more && |more| <= 1
    ensures forall j :: 0 <= j < |more| ==> more[j].value.checkType != INVENTORY_CHECK
  {
    if a.CheckFraud? { FraudVerdict(s, a.i); }
    more := Next(s, a).validations[|s.validations|..];
  }

  /** Only an order that finds its stock count can pass the inventory check. */
  lemma NothingElsePasses(s: System, a: Action)
    requires Enabled(s, a) && !(a.CheckInventory? && Stocked(s, a.i))
    ensures InventoryPassed(Next(s, a).validations) == InventoryPassed(s.validations)
  {
    var more := OtherVerdict(s, a);
    if more == [] {
      assert s.validations + more == s.validations;
    } else {
      assert more == [more[0]];
      PassedAppend(s.validations, more[0]);
    }
  }

  lemma StepStock(s: System, a: Action)
    requires Enabled(s, a) && UniqueIds(s) && OneVerdictEach(s) && StockInv(s)
    ensures StockInv(Next(s, a))
  {
    if a.CheckInventory? && Stocked(s, a.i) {
      StockReserved(s, a.i, a.ts);
    } else {
      NothingElseReserves(s, a);
      NothingElsePasses(s, a);
      StockOrders(s, Next(s, a), a);
    }
  }

  // --------------------------------------------------------- the details check

  ghost predicate TrueOf(s: System, v: OrderValidation)
  {
    exists i :: 0 <= i < |s.orders| && IsCreated(s, i) && v == Details.Result(s.orders[i].value)
  }

  /** Every details verdict is the result for a CREATED order of that id. */
  ghost predicate TrueDetails(s: System)
  {
    forall j :: 0 <= j < |s.validations| && s.validations[j].value.checkType == ORDER_DETAILS_CHECK ==>
      TrueOf(s, s.validations[j].value)
  }

  lemma TrueOfGrows(s: System, s': System, v: OrderValidation)
    requires Grows(s, s') && TrueOf(s, v)
    ensures TrueOf(s', v)
  {
  }

  lemma StepTrueDetails(s: System, a: Action)
    requires Enabled(s, a) && TrueDetails(s)
    ensures TrueDetails(Next(s, a))
  {
    var s', n := Next(s, a), |s.validations|;
    StepGrows(s, a);
    if a.CheckFraud? { FraudVerdict(s, a.i); }
    forall j | 0 <= j < |s'.validations| && s'.validations[j].value.checkType == ORDER_DETAILS_CHECK
      ensures TrueOf(s', s'.validations[j].value)
    {
      if j < n {
        TrueOfGrows(s, s', s.validations[j].value);
      } else {
        assert a.CheckDetails? && IsCreated(s, a.i);
        assert s'.validations[j].value == Details.Result(s.orders[a.i].value);
        GrowsKeepsCreated(s, s', a.i);
      }
    }
  }

  // ------------------------------------------------------------- all together

  ghost predicate Inv(s: System)
  {
    && UniqueIds(s)
    && OneVerdictEach(s)
    && (forall id :: AggregatorView(s, id))
    && NothingDropped(s)
    && StockInv(s)
    && TrueDetails(s)
  }

  lemma InitInv()
    ensures Inv(EMPTY)
  {
  }

  lemma StepInv(s: System, a: Action)
    requires Enabled(s, a) && Inv(s)
    ensures Inv(Next(s, a))
  {
    StepUniqueIds(s, a);
    StepVerdicts(s, a);
    StepNothingDropped(s, a);
    StepStock(s, a);
    StepTrueDetails(s, a);
    forall id ensures AggregatorView(Next(s, a), id) {
      StepView(s, a, id);
    }
  }

  lemma {:induction false} RunInv(states: seq<System>, actions: seq<Action>, k: nat)
    requires IsRun(states, actions) && k < |states|
    ensures Inv(states[k])
  {
    if k == 0 {
      InitInv();
    } else {
      RunInv(states, actions, k - 1);
      RunStep(states, actions, k - 1);
      StepInv(states[k - 1], actions[k - 1]);
    }
  }
}
