/**
 The order services together.  Topics are sequences of records; every service takes the records of
 a topic in an arbitrary order, each once; what the aggregator decides is written back to the
 orders topic.  The times of verdicts are arbitrary.
 */
module OrderPipeline {
  import opened Orders
  import Details = OrderDetailsService
  import Inventory = InventoryService
  import Fraud = FraudService
  import Agg = ValidationsAggregator

  datatype System = System(
    orders: seq<Stamped<Order>>,                 // topic
    validations: seq<Stamped<OrderValidation>>,  // topic
    warehouse: Inventory.Stocks,                 // table of stock counts
    reserved: Inventory.Stocks,                  // InventoryService's store
    details: set<nat>,                           // positions of orders consumed by OrderDetailsService,
    inventory: set<nat>,                         // by InventoryService,
    fraud: set<nat>,                             // by FraudService,
    aggOrders: set<nat>,                         // by ValidationsAggregatorService
    aggVerdicts: set<nat>,                       // positions of validations it consumed
    fraudLog: seq<Stamped<Order>>,               // what FraudService consumed, in order
    aggLog: seq<Agg.Event>)                      // what ValidationsAggregatorService consumed, in order

  datatype Action =
    | Submit(order: Stamped<Order>)
    | Restock(product: Product, count: int)
    | CheckDetails(i: nat, ts: int)
    | CheckInventory(i: nat, ts: int)
    | CheckFraud(i: nat, ts: int)
    | AggregateOrder(i: nat, ts: int)
    | AggregateVerdict(j: nat, ts: int)

  const EMPTY := System([], [], map[], map[], {}, {}, {}, {}, {}, [], [])

  // ------------------------------------------------------------------- steps

  predicate IsCreated(s: System, i: nat)
  {
    i < |s.orders| && s.orders[i].value.state == CREATED
  }

  /** Order ids are unique among submitted CREATED orders; stock counts never decrease. */
  predicate Enabled(s: System, a: Action)
  {
    match a
    case Submit(o) =>
      o.value.state == CREATED ==>
        forall i :: 0 <= i < |s.orders| && IsCreated(s, i) ==> s.orders[i].value.id != o.value.id
    case Restock(p, count) => p in s.warehouse ==> s.warehouse[p] <= count
    case CheckDetails(i, _) => i < |s.orders| && i !in s.details
    case CheckInventory(i, _) => i < |s.orders| && i !in s.inventory
    case CheckFraud(i, _) => i < |s.orders| && i !in s.fraud
    case AggregateOrder(i, _) => i < |s.orders| && i !in s.aggOrders
    case AggregateVerdict(j, _) => j < |s.validations| && j !in s.aggVerdicts
  }

  function StampAll<T>(values: seq<T>, ts: int): seq<Stamped<T>>
  {
    seq(|values|, i requires 0 <= i < |values| => Stamped(ts, values[i]))
  }

  function OnDetails(s: System, i: nat, ts: int): System
    requires i < |s.orders|
  {
    var out := if IsCreated(s, i) then [Details.Result(s.orders[i].value)] else [];
    s.(details := s.details + {i}, validations := s.validations + StampAll(out, ts))
  }

  /** Orders without a product or whose product has no stock count find no partner in the join. */
  predicate Stocked(s: System, i: nat)
  {
    && IsCreated(s, i)
    && s.orders[i].value.product.Some?
    && s.orders[i].value.product.value in s.warehouse
  }

  function OnInventory(s: System, i: nat, ts: int): System
    requires i < |s.orders|
  {
    if Stocked(s, i) then
      var order := s.orders[i].value;
      var product := order.product.value;
      var (reserved, v) := Inventory.Check(s.reserved, order, product, s.warehouse[product]);
      s.(inventory := s.inventory + {i}, reserved := reserved, validations := s.validations + StampAll([v], ts))
    else s.(inventory := s.inventory + {i})
  }

  function OnFraud(s: System, i: nat, ts: int): System
    requires i < |s.orders|
  {
    var out := Fraud.VerdictsFor(Fraud.Run(s.fraudLog), s.orders[i]);
    s.(fraud := s.fraud + {i}, fraudLog := s.fraudLog + [s.orders[i]],
       validations := s.validations + StampAll(out, ts))
  }

  /** What the aggregator publishes on consuming e. */
  function Decisions(s: System, e: Agg.Event): seq<Order>
  {
    Agg.Step(Agg.Run(Agg.ForKey(s.aggLog, Agg.KeyOf(e))), e).1
  }

  function Next(s: System, a: Action): System
    requires Enabled(s, a)
  {
    match a
    case Submit(o) => s.(orders := s.orders + [o])
    case Restock(p, count) => s.(warehouse := s.warehouse[p := count])
    case CheckDetails(i, ts) => OnDetails(s, i, ts)
    case CheckInventory(i, ts) => OnInventory(s, i, ts)
    case CheckFraud(i, ts) => OnFraud(s, i, ts)
    case AggregateOrder(i, ts) =>
      var e := Agg.OrderArrived(s.orders[i]);
      s.(aggOrders := s.aggOrders + {i}, aggLog := s.aggLog + [e], orders := s.orders + StampAll(Decisions(s, e), ts))
    case AggregateVerdict(j, ts) =>
      var e := Agg.VerdictArrived(s.validations[j]);
      s.(aggVerdicts := s.aggVerdicts + {j}, aggLog := s.aggLog + [e], orders := s.orders + StampAll(Decisions(s, e), ts))
  }

  ghost predicate IsStep(states: seq<System>, actions: seq<Action>, k: nat)
    requires k < |actions| < |states|
  {
    Enabled(states[k], actions[k]) && states[k + 1] == Next(states[k], actions[k])
  }

  /** A run: legal steps from the empty system. */
  ghost predicate IsRun(states: seq<System>, actions: seq<Action>)
  {
    && |states| == |actions| + 1
    && states[0] == EMPTY
    && forall k :: 0 <= k < |actions| ==> IsStep(states, actions, k)
  }

  lemma RunStep(states: seq<System>, actions: seq<Action>, k: nat)
    requires IsRun(states, actions) && k < |actions|
    ensures Enabled(states[k], actions[k]) && states[k + 1] == Next(states[k], actions[k])
  {
    assert IsStep(states, actions, k);
  }

  // --------------------------------------------------- what each step keeps

  /** Positions of the orders topic consumed by the validator of a check type. */
  function Consumed(s: System, check: CheckType): set<nat>
  {
    match check
    case INVENTORY_CHECK => s.inventory
    case FRAUD_CHECK => s.fraud
    case ORDER_DETAILS_CHECK => s.details
  }

  ghost predicate UniqueIds(s: System)
  {
    forall i, j :: 0 <= i < j < |s.orders| && IsCreated(s, i) && IsCreated(s, j) ==>
      s.orders[i].value.id != s.orders[j].value.id
  }

  /** The verdict is about a CREATED order that its validator has consumed. */
  ghost predicate Caused(s: System, v: OrderValidation)
  {
    exists i :: i in Consumed(s, v.checkType) && IsCreated(s, i) && s.orders[i].value.id == v.orderId
  }

  ghost predicate SameQuestion(v: OrderValidation, w: OrderValidation)
  {
    v.orderId == w.orderId && v.checkType == w.checkType
  }

  /** Every verdict has a cause, and no question is answered twice. */
  ghost predicate OneVerdictEach(s: System)
  {
    && (forall j :: 0 <= j < |s.validations| ==> Caused(s, s.validations[j].value))
    && (forall j, k :: 0 <= j < k < |s.validations| ==> !SameQuestion(s.validations[j].value, s.validations[k].value))
  }

  function Seen(s: System, id: string): seq<Stamped<OrderValidation>>
  {
    Agg.Verdicts(Agg.ForKey(s.aggLog, id))
  }

  function SeenOrders(s: System, id: string): seq<Stamped<Order>>
  {
    Agg.Created(Agg.ForKey(s.aggLog, id))
  }

  function Published(s: System, id: string): seq<Order>
  {
    Agg.Published(Agg.ForKey(s.aggLog, id))
  }

  ghost predicate Delivered<T(!new)>(topic: seq<T>, taken: set<nat>, x: T)
  {
    exists j :: j in taken && j < |topic| && topic[j] == x
  }

  ghost predicate VerdictsInView(s: System, seen: seq<Stamped<OrderValidation>>, id: string)
  {
    && Agg.OnePerCheck(seen)
    && forall n :: 0 <= n < |seen| ==> seen[n].value.orderId == id && Delivered(s.validations, s.aggVerdicts, seen[n])
  }

  ghost predicate OrdersInView(s: System, seen: seq<Stamped<Order>>, id: string)
  {
    && |seen| <= 1
    && forall n :: 0 <= n < |seen| ==>
         seen[n].value.id == id && seen[n].value.state == CREATED && Delivered(s.orders, s.aggOrders, seen[n])
  }

  /** Of each order the aggregator has seen at most one verdict per check and at most one CREATED record, all from the topics. */
  ghost predicate AggregatorView(s: System, id: string)
  {
    VerdictsInView(s, Seen(s, id), id) && OrdersInView(s, SeenOrders(s, id), id)
  }

  ghost predicate NoVerdictDropped(s: System)
  {
    forall j :: j in s.aggVerdicts ==> j < |s.validations| && s.validations[j] in Seen(s, s.validations[j].value.orderId)
  }

  ghost predicate NoOrderDropped(s: System)
  {
    && (forall i :: i in s.aggOrders ==> i < |s.orders|)
    && (forall i :: i in s.aggOrders && IsCreated(s, i) ==> s.orders[i] in SeenOrders(s, s.orders[i].value.id))
  }

  /** Everything the aggregator has consumed is in its view. */
  ghost predicate NothingDropped(s: System)
  {
    NoVerdictDropped(s) && NoOrderDropped(s)
  }
}
