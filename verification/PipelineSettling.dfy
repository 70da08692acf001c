/**
 How a product can be played out: from every state there is a continuation in which all its negative
 orders have been taken and every order that may be VALIDATED has been, while the outlook stays.
 */
module PipelineSettling {
  import opened Options
  import opened Orders
  import opened OrderPipeline
  import opened PipelineInvariant
  import opened PipelineTheorems
  import opened PipelineQuiescence
  import opened PipelinePaths
  import opened PipelineStranding
  import opened PipelineProspects
  import Details = OrderDetailsService
  import Inventory = InventoryService
  import Fraud = FraudService
  import Agg = ValidationsAggregator

  // ------------------------------------------------ orders that are left alone

  /** Nothing has happened to the order at position k. */
  ghost predicate SameOrder(s: System, t: System, k: nat)
    requires k < |s.orders|
  {
    var id := s.orders[k].value.id;
    && (k in t.inventory <==> k in s.inventory)
    && Agg.ForKey(t.aggLog, id) == Agg.ForKey(s.aggLog, id)
    && forall j :: |s.validations| <= j < |t.validations| ==> t.validations[j].value.orderId != id
  }

  /** Nothing has happened to the CREATED orders except those in x, and new ones are of no product. */
  ghost predicate Aside(s: System, t: System, x: set<nat>)
  {
    && Grows(s, t)
    && (forall k :: 0 <= k < |s.orders| && IsCreated(s, k) && k !in x ==> SameOrder(s, t, k))
    && (forall k :: |s.orders| <= k < |t.orders| && IsCreated(t, k) ==> t.orders[k].value.product.None?)
  }

  lemma AsideSelf(s: System, x: set<nat>)
    ensures Aside(s, s, x)
  {
  }

  lemma SameOrderOn(s: System, t: System, u: System, k: nat)
    requires Grows(s, t) && Grows(t, u) && k < |s.orders| && SameOrder(s, t, k) && SameOrder(t, u, k)
    ensures SameOrder(s, u, k)
  {
    forall j | |s.validations| <= j < |u.validations| ensures u.validations[j].value.orderId != s.orders[k].value.id {
      if j < |t.validations| { assert u.validations[j] == t.validations[j]; }
    }
  }

  lemma AsideOn(s: System, t: System, u: System, x: set<nat>, y: set<nat>)
    requires Aside(s, t, x) && Aside(t, u, y) && forall k :: k in y ==> k in x || |s.orders| <= k
    ensures Aside(s, u, x)
  {
    GrowsOn(s, t, u);
    forall k | 0 <= k < |s.orders| && IsCreated(s, k) && k !in x ensures SameOrder(s, u, k) {
      GrowsKeepsCreated(s, t, k);
      SameOrderOn(s, t, u, k);
    }
    forall k | |s.orders| <= k < |u.orders| && IsCreated(u, k) ensures u.orders[k].value.product.None? {
      if k < |t.orders| { assert IsCreated(t, k); }
    }
  }

  lemma SameCompletes(s: System, t: System, k: nat, vs: seq<Stamped<OrderValidation>>)
    requires Grows(s, t) && IsCreated(s, k) && SameOrder(s, t, k)
    ensures Completes(t, k, vs) <==> Completes(s, k, vs)
  {
    var id := s.orders[k].value.id;
    assert forall j :: 0 <= j < |s.validations| ==> t.validations[j] == s.validations[j];
    if Completes(s, k, vs) {
      forall j | 0 <= j < |t.validations| && t.validations[j].value.orderId == id ensures t.validations[j] in vs {
        assert j < |s.validations|;
      }
    }
    if Completes(t, k, vs) {
      forall j | 0 <= j < |s.validations| && s.validations[j].value.orderId == id ensures s.validations[j] in vs {
        assert t.validations[j] in vs;
      }
    }
  }

  lemma SamePassed(s: System, t: System, k: nat)
    requires Grows(s, t) && IsCreated(s, k) && SameOrder(s, t, k)
    ensures HasPassed(t, k) == HasPassed(s, k)
  {
    var id := s.orders[k].value.id;
    PassedIn(s.validations, id);
    PassedIn(t.validations, id);
    if j :| 0 <= j < |t.validations| && t.validations[j].value == OrderValidation(id, INVENTORY_CHECK, PASS) {
      assert s.validations[j] == t.validations[j];
    }
    if j :| 0 <= j < |s.validations| && s.validations[j].value == OrderValidation(id, INVENTORY_CHECK, PASS) {
      assert t.validations[j] == s.validations[j];
    }
  }

  /** An order that is left alone keeps its prospect. */
  lemma SameProspect(s: System, t: System, k: nat, product: Product)
    requires Grows(s, t) && IsCreated(s, k) && SameOrder(s, t, k)
    ensures Prospect(t, product, k) == Prospect(s, product, k)
    ensures PlayedOut(s, product, k) ==> PlayedOut(t, product, k)
  {
    GrowsKeepsCreated(s, t, k);
    SamePassed(s, t, k);
    if vs :| Completes(s, k, vs) && Agg.Approved(vs, [s.orders[k]]) { SameCompletes(s, t, k, vs); }
    if vs :| Completes(t, k, vs) && Agg.Approved(vs, [t.orders[k]]) { SameCompletes(s, t, k, vs); }
  }

  // --------------------------------------------- steps that touch one order

  /** The step takes the order at position i, or delivers it or a verdict on it. */
  ghost predicate Touches(s: System, a: Action, i: nat)
    requires Enabled(s, a) && i < |s.orders|
  {
    match a
    case Submit(_) => false
    case Restock(_, _) => false
    case AggregateVerdict(j, _) => s.validations[j].value.orderId == s.orders[i].value.id
    case _ => a.i == i
  }

  lemma OtherLog(s: System, a: Action, i: nat, id: string)
    requires Enabled(s, a) && i < |s.orders| && Touches(s, a, i) && id != s.orders[i].value.id
    ensures Agg.ForKey(Next(s, a).aggLog, id) == Agg.ForKey(s.aggLog, id)
  {
    if a.AggregateOrder? || a.AggregateVerdict? {
      Agg.ForKeyAppend(s.aggLog, Consumption(s, a), id);
    }
  }

  lemma OtherOrder(s: System, a: Action, i: nat, k: nat)
    requires Enabled(s, a) && UniqueIds(s) && IsCreated(s, i) && Touches(s, a, i) && IsCreated(s, k) && k != i
    ensures SameOrder(s, Next(s, a), k)
  {
    var s' := Next(s, a);
    assert s.orders[k].value.id != s.orders[i].value.id by { assert k < i || i < k; }
    OtherLog(s, a, i, s.orders[k].value.id);
    forall j | |s.validations| <= j < |s'.validations| ensures s'.validations[j].value.orderId != s.orders[k].value.id {
      var i' := NewVerdict(s, a, j);
    }
  }

  lemma TouchAside(s: System, a: Action, i: nat, s': System)
    requires Enabled(s, a) && UniqueIds(s) && IsCreated(s, i) && Touches(s, a, i) && s' == Next(s, a)
    ensures Aside(s, s', {i})
  {
    StepGrows(s, a);
    OnlySubmitCreates(s, a);
    forall k | 0 <= k < |s.orders| && IsCreated(s, k) && k !in {i} ensures SameOrder(s, s', k) {
      OtherOrder(s, a, i, k);
    }
  }

  lemma SubmitAside(s: System, o: Stamped<Order>, s': System)
    requires Enabled(s, Submit(o)) && o.value.product.None? && InRange(s) && s' == Next(s, Submit(o))
    ensures Aside(s, s', {})
  {
  }

  lemma RestockAside(s: System, product: Product, count: int, s': System)
    requires Enabled(s, Restock(product, count)) && s' == Next(s, Restock(product, count))
    ensures Aside(s, s', {})
  {
  }

  // ------------------------------------------------- towards an approval

  /** From s to t only the order at position i was dealt with, and vs still completes its verdicts. */
  ghost predicate Settling(s: System, t: System, i: nat, vs: seq<Stamped<OrderValidation>>)
  {
    Reaches(0, s, t) && Aside(s, t, {i}) && IsCreated(t, i) && Completes(t, i, vs)
  }

  lemma SettlingStep(s: System, t: System, i: nat, vs: seq<Stamped<OrderValidation>>, a: Action, t': System)
    requires Settling(s, t, i, vs) && UniqueIds(t) && Enabled(t, a) && Touches(t, a, i) && t' == Next(t, a)
    requires i < |t'.orders| && Completes(t', i, vs)
    ensures Settling(s, t', i, vs)
  {
    TouchAside(t, a, i, t');
    AsideOn(s, t, t', {i}, {i});
    ReachesStep(0, s, t, a, t');
    GrowsKeepsCreated(t, t', i);
  }

  /** The verdict that vs holds for a check, as a check that passes sends it. */
  lemma VerdictFor(t: System, i: nat, vs: seq<Stamped<OrderValidation>>, check: CheckType) returns (n: nat)
    requires i < |t.orders| && Completes(t, i, vs) && Agg.Approved(vs, [t.orders[i]])
    ensures n < 3 && vs[n] == Stamped(vs[n].ts, OrderValidation(t.orders[i].value.id, check, PASS))
  {
    n := CheckAmong(vs, check);
  }

  lemma CompletesWithVerdict(t: System, t': System, i: nat, vs: seq<Stamped<OrderValidation>>, n: nat)
    requires IsCreated(t, i) && Completes(t, i, vs) && n < |vs|
    requires t'.orders == t.orders && t'.aggLog == t.aggLog && t'.validations == t.validations + [vs[n]]
    ensures Completes(t', i, vs)
  {
    forall j | 0 <= j < |t'.validations| && t'.validations[j].value.orderId == t.orders[i].value.id
      ensures t'.validations[j] in vs
    {
      if j < |t.validations| { assert t'.validations[j] == t.validations[j]; }
    }
  }

  lemma SettleDetails(s: System, t: System, i: nat, vs: seq<Stamped<OrderValidation>>) returns (t': System)
    requires Settling(s, t, i, vs) && UniqueIds(t) && Agg.Approved(vs, [t.orders[i]]) && Details.IsValid(t.orders[i].value)
    ensures Settling(s, t', i, vs) && i in t'.details && t'.orders == t.orders
  {
    t' := t;
    if i !in t.details {
      var n := VerdictFor(t, i, vs, ORDER_DETAILS_CHECK);
      t' := Next(t, CheckDetails(i, vs[n].ts));
      assert StampAll([Details.Result(t.orders[i].value)], vs[n].ts) == [vs[n]];
      CompletesWithVerdict(t, t', i, vs, n);
      SettlingStep(s, t, i, vs, CheckDetails(i, vs[n].ts), t');
    }
  }

  // ------------------------------------------------------- the fraud check

  lemma {:induction false} LongestId(orders: seq<Stamped<Order>>) returns (n: nat)
    ensures forall i :: 0 <= i < |orders| ==> |orders[i].value.id| <= n
  {
    n := 0;
    if orders != [] {
      n := LongestId(orders[..|orders| - 1]);
      var last := |orders[|orders| - 1].value.id|;
      if n < last { n := last; }
    }
  }

  lemma NewId(orders: seq<Stamped<Order>>) returns (id: string)
    ensures forall i :: 0 <= i < |orders| ==> orders[i].value.id != id
  {
    var n := LongestId(orders);
    id := seq(n + 1, _ => 'x');
    assert |id| == n + 1;
  }

  /** An order of no product, by the customer and at the time of o, that cancels all they have spent. */
  lemma OffsetOf(log: seq<Stamped<Order>>, o: Stamped<Order>, id: string) returns (offset: Stamped<Order>)
    requires o.value.state == CREATED
    ensures offset.value.id == id && offset.value.state == CREATED && offset.value.product.None? && offset.value.quantity == 1
    ensures Fraud.VerdictsFor(Fraud.Run(log + [offset]), o) == [OrderValidation(o.value.id, FRAUD_CHECK, PASS)]
  {
    var price := -(Fraud.Magnitude(Fraud.Spending(log, o.value.customerId)) + o.value.quantity as real * o.value.price);
    offset := Stamped(o.ts, Order(id, o.value.customerId, CREATED, None, 1, price));
    assert offset.value.quantity as real * offset.value.price == price;
    Fraud.OffsetPasses(log, offset, o);
  }

  /** A new order of no product is submitted and taken by the fraud service. */
  lemma SubmitAndTake(t: System, offset: Stamped<Order>) returns (t': System)
    requires InRange(t) && UniqueIds(t) && Enabled(t, Submit(offset))
    requires offset.value.state == CREATED && offset.value.product.None? && offset.value.quantity == 1
    ensures Reaches(0, t, t') && Aside(t, t', {})
    ensures t'.fraud == t.fraud + {|t.orders|} && t'.fraudLog == t.fraudLog + [offset] && t'.orders == t.orders + [offset]
  {
    var n := |t.orders|;
    var t1 := Next(t, Submit(offset));
    SubmitAside(t, offset, t1);
    StepUniqueIds(t, Submit(offset));
    ReachesSelf(0, t);
    ReachesStep(0, t, t, Submit(offset), t1);
    assert n !in t1.fraud && t1.orders[n] == offset;
    t' := Next(t1, CheckFraud(n, 0));
    TouchAside(t1, CheckFraud(n, 0), n, t');
    AsideOn(t, t1, t', {}, {n});
    ReachesStep(0, t, t1, CheckFraud(n, 0), t');
  }

  /** With such an order submitted and taken first, the order at position i passes the fraud check. */
  lemma Offset(t: System, i: nat) returns (t': System)
    requires LiveInv(t) && IsCreated(t, i) && i !in t.fraud
    ensures Reaches(0, t, t') && Aside(t, t', {}) && i !in t'.fraud
    ensures Fraud.VerdictsFor(Fraud.Run(t'.fraudLog), t.orders[i]) == [OrderValidation(t.orders[i].value.id, FRAUD_CHECK, PASS)]
  {
    var id := NewId(t.orders);
    var offset := OffsetOf(t.fraudLog, t.orders[i], id);
    t' := SubmitAndTake(t, offset);
  }

  lemma SettlingOffset(s: System, t: System, i: nat, vs: seq<Stamped<OrderValidation>>) returns (t': System)
    requires Settling(s, t, i, vs) && LiveInv(t) && i !in t.fraud
    ensures Settling(s, t', i, vs) && i !in t'.fraud && Grows(t, t') && LiveInv(t')
    ensures Fraud.VerdictsFor(Fraud.Run(t'.fraudLog), t.orders[i]) == [OrderValidation(t.orders[i].value.id, FRAUD_CHECK, PASS)]
  {
    t' := Offset(t, i);
    ReachesLive(0, t, t');
    ReachesJoin(0, s, t, t');
    AsideOn(s, t, t', {i}, {});
    GrowsKeepsCreated(t, t', i);
    SameCompletes(t, t', i, vs);
  }

  lemma SettleFraud(s: System, t: System, i: nat, vs: seq<Stamped<OrderValidation>>) returns (t': System)
    requires Settling(s, t, i, vs) && LiveInv(t) && Agg.Approved(vs, [t.orders[i]])
    ensures Settling(s, t', i, vs) && i in t'.fraud && Grows(t, t')
  {
    t' := t;
    if i !in t.fraud {
      var u := SettlingOffset(s, t, i, vs);
      GrowsKeepsCreated(t, u, i);
      var n := VerdictFor(u, i, vs, FRAUD_CHECK);
      t' := Next(u, CheckFraud(i, vs[n].ts));
      assert StampAll([vs[n].value], vs[n].ts) == [vs[n]];
      CompletesWithVerdict(u, t', i, vs, n);
      SettlingStep(s, u, i, vs, CheckFraud(i, vs[n].ts), t');
      StepGrows(u, CheckFraud(i, vs[n].ts));
      GrowsOn(t, u, t');
    }
  }

  // ------------------------------------------------------------ the deliveries

  /** All three checks have answered, so every verdict of vs is on the topic. */
  lemma OnTopic(t: System, i: nat, vs: seq<Stamped<OrderValidation>>, n: nat) returns (j: nat)
    requires IsCreated(t, i) && Completes(t, i, vs) && n < 3
    requires forall check :: HasAnswer(t, t.orders[i].value.id, check)
    ensures j < |t.validations| && t.validations[j] == vs[n]
  {
    var id := t.orders[i].value.id;
    assert HasAnswer(t, id, vs[n].value.checkType);
    j :| 0 <= j < |t.validations| && IsVerdictOn(t.validations[j], id, vs[n].value.checkType);
    var k :| 0 <= k < |vs| && vs[k] == t.validations[j];
    assert k < n || k == n || n < k;
  }

  lemma NotDelivered(t: System, i: nat, vs: seq<Stamped<OrderValidation>>, j: nat)
    requires Inv(t) && IsCreated(t, i) && Completes(t, i, vs)
    requires var n := |Seen(t, t.orders[i].value.id)|;
             n < 3 && j < |t.validations| && t.validations[j] == vs[n]
    ensures j !in t.aggVerdicts
  {
    var seen := Seen(t, t.orders[i].value.id);
    forall k | 0 <= k < |seen| ensures seen[k] != vs[|seen|] {
      assert seen[k] == vs[k];
    }
    assert t.validations[j] !in seen;
  }

  lemma CompletesDelivered(t: System, t': System, i: nat, vs: seq<Stamped<OrderValidation>>)
    requires i < |t.orders| && Completes(t, i, vs) && i < |t'.orders| && t'.orders[i] == t.orders[i]
    requires t'.validations == t.validations && Seen(t', t.orders[i].value.id) <= vs
    ensures Completes(t', i, vs)
  {
  }

  lemma NextSeen(seen: seq<Stamped<OrderValidation>>, vs: seq<Stamped<OrderValidation>>)
    requires seen <= vs && |seen| < |vs|
    ensures seen + [vs[|seen|]] <= vs
  {
  }

  lemma DeliverVerdict(s: System, t: System, i: nat, vs: seq<Stamped<OrderValidation>>, j: nat) returns (t': System)
    requires Settling(s, t, i, vs) && UniqueIds(t) && j < |t.validations| && j !in t.aggVerdicts
    requires |Seen(t, t.orders[i].value.id)| < 3 && t.validations[j] == vs[|Seen(t, t.orders[i].value.id)|]
    ensures Settling(s, t', i, vs) && Grows(t, t')
    ensures Seen(t', t.orders[i].value.id) == Seen(t, t.orders[i].value.id) + [t.validations[j]]
  {
    var a := AggregateVerdict(j, 0);
    t' := Next(t, a);
    StepGrows(t, a);
    GrowsKeepsCreated(t, t', i);
    ViewAfter(t, t', Agg.VerdictArrived(t.validations[j]), t.orders[i].value.id);
    NextSeen(Seen(t, t.orders[i].value.id), vs);
    CompletesDelivered(t, t', i, vs);
    SettlingStep(s, t, i, vs, a, t');
  }

  lemma {:induction false} DeliverVerdicts(s: System, t: System, i: nat, vs: seq<Stamped<OrderValidation>>) returns (t': System)
    requires LiveInv(s) && Settling(s, t, i, vs) && LiveInv(t)
    requires forall check :: HasAnswer(t, t.orders[i].value.id, check)
    ensures Settling(s, t', i, vs) && Seen(t', t.orders[i].value.id) == vs && Grows(t, t')
    decreases 3 - |Seen(t, t.orders[i].value.id)|
  {
    var id := t.orders[i].value.id;
    if |Seen(t, id)| == 3 {
      t' := t;
    } else {
      var j := OnTopic(t, i, vs, |Seen(t, id)|);
      NotDelivered(t, i, vs, j);
      var u := DeliverVerdict(s, t, i, vs, j);
      ReachesLive(0, s, u);
      GrowsKeepsCreated(t, u, i);
      forall check ensures HasAnswer(u, id, check) {
        HasAnswerGrows(t, u, id, check);
      }
      t' := DeliverVerdicts(s, u, i, vs);
      GrowsOn(t, u, t');
    }
  }

  lemma DeliverOrder(s: System, t: System, i: nat, vs: seq<Stamped<OrderValidation>>) returns (t': System)
    requires Settling(s, t, i, vs) && UniqueIds(t) && Seen(t, t.orders[i].value.id) == vs
    ensures Settling(s, t', i, vs) && Grows(t, t') && i in t'.aggOrders && Seen(t', t.orders[i].value.id) == vs
  {
    t' := t;
    if i !in t.aggOrders {
      var a := AggregateOrder(i, 0);
      t' := Next(t, a);
      StepGrows(t, a);
      GrowsKeepsCreated(t, t', i);
      ViewAfter(t, t', Agg.OrderArrived(t.orders[i]), t.orders[i].value.id);
      CompletesDelivered(t, t', i, vs);
      SettlingStep(s, t, i, vs, a, t');
    }
  }

  // ------------------------------------------------------------ one order

  lemma AllAnswered(t: System, i: nat)
    requires LiveInv(t) && IsCreated(t, i) && i in t.details && i in t.fraud && HasPassed(t, i)
    ensures forall check :: HasAnswer(t, t.orders[i].value.id, check)
  {
    var id := t.orders[i].value.id;
    PassedIn(t.validations, id);
    var j :| 0 <= j < |t.validations| && t.validations[j].value == OrderValidation(id, INVENTORY_CHECK, PASS);
    assert IsVerdictOn(t.validations[j], id, INVENTORY_CHECK);
    forall check ensures HasAnswer(t, id, check) {
    }
  }

  lemma PassedOn(s: System, t: System, i: nat)
    requires Grows(s, t) && IsCreated(s, i) && HasPassed(s, i)
    ensures IsCreated(t, i) && t.orders[i] == s.orders[i] && HasPassed(t, i)
  {
    var id := s.orders[i].value.id;
    GrowsKeepsCreated(s, t, i);
    PassedIn(s.validations, id);
    PassedIn(t.validations, id);
    var j :| 0 <= j < |s.validations| && s.validations[j].value == OrderValidation(id, INVENTORY_CHECK, PASS);
    assert t.validations[j] == s.validations[j];
  }

  lemma SettleChecks(s: System, i: nat, vs: seq<Stamped<OrderValidation>>) returns (t: System)
    requires LiveInv(s) && IsCreated(s, i) && HasPassed(s, i) && Details.IsValid(s.orders[i].value)
    requires Completes(s, i, vs) && Agg.Approved(vs, [s.orders[i]])
    ensures Settling(s, t, i, vs) && LiveInv(t) && t.orders[i] == s.orders[i]
    ensures forall check :: HasAnswer(t, s.orders[i].value.id, check)
  {
    AsideSelf(s, {i});
    ReachesSelf(0, s);
    var u := SettleDetails(s, s, i, vs);
    ReachesLive(0, s, u);
    t := SettleFraud(s, u, i, vs);
    ReachesLive(0, s, t);
    PassedOn(s, t, i);
    AllAnswered(t, i);
  }

  /** An order that may be VALIDATED can be, without touching any other. */
  lemma Settle(s: System, i: nat) returns (t: System)
    requires LiveInv(s) && IsCreated(s, i) && HasPassed(s, i) && CanApprove(s, i)
    ensures Reaches(0, s, t) && LiveInv(t) && Aside(s, t, {i}) && i < |t.orders| && IsValidated(t, i)
  {
    var vs :| Completes(s, i, vs) && Agg.Approved(vs, [s.orders[i]]);
    var u := SettleChecks(s, i, vs);
    var v := DeliverVerdicts(s, u, i, vs);
    ReachesLive(0, s, v);
    GrowsKeepsCreated(u, v, i);
    t := DeliverOrder(s, v, i, vs);
    ReachesLive(0, s, t);
    GrowsKeepsCreated(v, t, i);
    ApprovedIsValidated(t, i, vs);
  }

  // ------------------------------------------------------- a negative order

  function Count(s: System, product: Product): nat
  {
    var count := Inventory.StockOf(s.warehouse, product);
    if count > 0 then count else 0
  }

  lemma Stock(least: int, s: System, product: Product, count: nat) returns (t: System)
    requires LiveInv(s) && Inventory.StockOf(s.warehouse, product) <= count
    ensures Reaches(least, s, t) && LiveInv(t)
    ensures t == s.(warehouse := s.warehouse[product := count])
    ensures Inventory.StockOf(t.reserved, product) <= count
    ensures Sold(t, product) == Sold(s, product) && Stranded(t, product) == Stranded(s, product)
  {
    ReachesSelf(least, s);
    t := Next(s, Restock(product, count));
    ReachesStep(least, s, s, Restock(product, count), t);
    StepLive(s, Restock(product, count));
    assert forall id :: Published(t, id) == Published(s, id);
    assert ValidatedIds(t) == ValidatedIds(s);
  }

  lemma NegativeIsInvalid(t: System, i: nat)
    requires i < |t.orders| && t.orders[i].value.quantity < 0
    ensures !CanApprove(t, i)
  {
  }

  lemma PassNow(t: System, i: nat, product: Product) returns (t': System)
    requires Enabled(t, CheckInventory(i, 0)) && UniqueIds(t) && IsOf(t, i, product) && product in t.warehouse
    requires Inventory.Covers(t.warehouse[product], Inventory.StockOf(t.reserved, product), t.orders[i].value.quantity)
    ensures Reaches(0, t, t') && Aside(t, t', {i}) && IsOf(t', i, product) && i in t'.inventory && HasPassed(t', i)
    ensures t'.orders == t.orders
  {
    var v := Stamped(0, OrderValidation(t.orders[i].value.id, INVENTORY_CHECK, PASS));
    t' := Next(t, CheckInventory(i, 0));
    ReachesSelf(0, t);
    ReachesStep(0, t, t, CheckInventory(i, 0), t');
    TouchAside(t, CheckInventory(i, 0), i, t');
    assert t'.validations == t.validations + [v];
    PassedAppend(t.validations, v);
  }

  /** A negative order that has not been taken can be, and passes. */
  lemma TakeNegative(s: System, i: nat, product: Product) returns (t: System)
    requires LiveInv(s) && IsOf(s, i, product) && i !in s.inventory && s.orders[i].value.quantity < 0
    ensures Reaches(0, s, t) && LiveInv(t) && Aside(s, t, {i}) && i < |t.orders|
    ensures PlayedOut(t, product, i) && Prospect(t, product, i) == Prospect(s, product, i)
  {
    var u := Stock(0, s, product, Count(s, product));
    RestockAside(s, product, Count(s, product), u);
    t := PassNow(u, i, product);
    ReachesJoin(0, s, u, t);
    AsideOn(s, u, t, {i}, {i});
    ReachesLive(0, s, t);
    NegativeIsInvalid(t, i);
  }

  // ------------------------------------------------------------ all orders

  lemma {:induction false} OutlookSame(s: System, t: System, product: Product, n: nat)
    requires n <= |t.orders|
    requires forall k :: 0 <= k < n ==> Prospect(t, product, k) == (if k < |s.orders| then Prospect(s, product, k) else 0)
    ensures OutlookUpTo(t, product, n) == OutlookUpTo(s, product, if n < |s.orders| then n else |s.orders|)
  {
    if n > 0 { OutlookSame(s, t, product, n - 1); }
  }

  lemma AsideOutlook(s: System, t: System, i: nat, product: Product)
    requires Aside(s, t, {i}) && i < |s.orders| && i < |t.orders| && Prospect(t, product, i) == Prospect(s, product, i)
    ensures Outlook(t, product) == Outlook(s, product)
  {
    forall k | 0 <= k < |t.orders|
      ensures Prospect(t, product, k) == (if k < |s.orders| then Prospect(s, product, k) else 0)
    {
      if k < |s.orders| && k != i && IsCreated(s, k) {
        SameProspect(s, t, k, product);
      } else if k < |s.orders| {
        assert t.orders[k] == s.orders[k];
      }
    }
    OutlookSame(s, t, product, |t.orders|);
  }

  lemma AsidePlayedOut(s: System, t: System, i: nat, k: nat, product: Product)
    requires Aside(s, t, {i}) && k < |s.orders| && k != i && PlayedOut(s, product, k)
    ensures k < |t.orders| && PlayedOut(t, product, k)
  {
    assert t.orders[k] == s.orders[k];
    if IsCreated(s, k) { SameProspect(s, t, k, product); }
  }

  lemma SettledPlaysOut(s: System, t: System, i: nat, product: Product)
    requires Inv(s) && Inv(t) && Grows(s, t) && IsOf(s, i, product) && HasPassed(s, i) && CanApprove(s, i)
    requires i < |t.orders| && IsValidated(t, i)
    ensures PlayedOut(t, product, i) && Prospect(t, product, i) == Prospect(s, product, i)
  {
    GrowsKeepsCreated(s, t, i);
    if i !in s.inventory { NotPassedYet(s, i); }
    ValidatedCanApprove(t, i);
  }

  /** One more order is played out: a negative one is taken, one that may be VALIDATED is. */
  lemma PlayOne(s: System, i: nat, product: Product) returns (t: System)
    requires LiveInv(s) && i < |s.orders|
    ensures Reaches(0, s, t) && LiveInv(t) && Aside(s, t, {i}) && i < |t.orders|
    ensures PlayedOut(t, product, i) && Prospect(t, product, i) == Prospect(s, product, i)
  {
    if IsOf(s, i, product) && i !in s.inventory && s.orders[i].value.quantity < 0 {
      t := TakeNegative(s, i, product);
    } else if IsOf(s, i, product) && HasPassed(s, i) && CanApprove(s, i) {
      t := Settle(s, i);
      SettledPlaysOut(s, t, i, product);
    } else {
      t := s;
      ReachesSelf(0, s);
      AsideSelf(s, {i});
    }
  }

  /** The first n orders are played out, those that came after s are of no product, and the outlook is that of s. */
  ghost predicate PlayedUpTo(s: System, t: System, product: Product, n: nat)
  {
    && n <= |s.orders| <= |t.orders| && Outlook(t, product) == Outlook(s, product)
    && (forall i :: 0 <= i < n ==> PlayedOut(t, product, i))
    && (forall i :: |s.orders| <= i < |t.orders| ==> !IsOf(t, i, product))
  }

  lemma PlayedNext(s: System, t: System, u: System, product: Product, n: nat)
    requires PlayedUpTo(s, t, product, n) && n < |s.orders| && Aside(t, u, {n})
    requires n < |u.orders| && PlayedOut(u, product, n) && Prospect(u, product, n) == Prospect(t, product, n)
    ensures PlayedUpTo(s, u, product, n + 1)
  {
    AsideOutlook(t, u, n, product);
    forall i | 0 <= i < n + 1 ensures PlayedOut(u, product, i) {
      if i < n { AsidePlayedOut(t, u, n, i, product); }
    }
    forall i | |s.orders| <= i < |u.orders| ensures !IsOf(u, i, product) {
      if i < |t.orders| { assert u.orders[i] == t.orders[i] && !IsOf(t, i, product); }
    }
  }

  lemma {:induction false} PlayAll(s: System, product: Product, n: nat) returns (t: System)
    requires LiveInv(s) && n <= |s.orders|
    ensures Reaches(0, s, t) && LiveInv(t) && PlayedUpTo(s, t, product, n)
  {
    if n == 0 {
      t := s;
      ReachesSelf(0, s);
    } else {
      var u := PlayAll(s, product, n - 1);
      t := PlayOne(u, n - 1, product);
      PlayedNext(s, u, t, product, n - 1);
      ReachesJoin(0, s, u, t);
    }
  }

  /** From every state there is a continuation by orders of non-negative quantity in which exactly the outlook is stranded. */
  lemma OutlookIsReached(s: System, product: Product) returns (t: System)
    requires LiveInv(s)
    ensures Reaches(0, s, t) && LiveInv(t) && Stranded(t, product) == Outlook(s, product)
  {
    t := PlayAll(s, product, |s.orders|);
    forall i | 0 <= i < |t.orders| ensures PlayedOut(t, product, i) {
      if |s.orders| <= i { assert !IsOf(t, i, product); }
    }
    StrandedIsOutlook(t, product);
  }
}
