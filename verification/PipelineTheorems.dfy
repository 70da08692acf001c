/** What holds of every run of the order services, for every delivery order and every verdict time. */
module PipelineTheorems {
  import opened Options
  import opened Orders
  import opened OrderPipeline
  import opened PipelineInvariant
  import Details = OrderDetailsService
  import Fraud = FraudService
  import Agg = ValidationsAggregator

  // -------------------------------------------------------- mutual exclusion

  /** No order is ever published both VALIDATED and FAILED. */
  lemma NeverBothDecisions(states: seq<System>, actions: seq<Action>, k: nat, id: string)
    requires IsRun(states, actions) && k < |states|
    ensures !(Agg.HasState(Published(states[k], id), VALIDATED) && Agg.HasState(Published(states[k], id), FAILED))
  {
    RunInv(states, actions, k);
    assert AggregatorView(states[k], id);
    Agg.NeverBoth(Agg.ForKey(states[k].aggLog, id));
  }

  /** The exact condition, on what the aggregator has been delivered, for either decision. */
  lemma DecisionInEveryRun(states: seq<System>, actions: seq<Action>, k: nat, id: string)
    requires IsRun(states, actions) && k < |states|
    ensures var s := states[k];
            && (Agg.HasState(Published(s, id), VALIDATED) <==> Agg.Approved(Seen(s, id), SeenOrders(s, id)))
            && (Agg.HasState(Published(s, id), FAILED) <==> Agg.Rejected(Seen(s, id), SeenOrders(s, id)))
  {
    RunInv(states, actions, k);
    assert AggregatorView(states[k], id);
    Agg.Decision(Agg.ForKey(states[k].aggLog, id));
  }

  /** No order is ever published VALIDATED twice. */
  lemma ValidatedAtMostOnce(states: seq<System>, actions: seq<Action>, k: nat, id: string)
    requires IsRun(states, actions) && k < |states|
    ensures Agg.HowMany(Published(states[k], id), VALIDATED) <= 1
  {
    RunInv(states, actions, k);
    assert AggregatorView(states[k], id);
    Agg.ValidatedOnce(Agg.ForKey(states[k].aggLog, id));
  }

  lemma CheckAmong(vs: seq<Stamped<OrderValidation>>, check: CheckType) returns (n: nat)
    requires |vs| == 3 && Agg.OnePerCheck(vs)
    ensures n < 3 && vs[n].value.checkType == check
  {
    n := if vs[0].value.checkType == check then 0 else if vs[1].value.checkType == check then 1 else 2;
    Agg.FourChecks(vs[0].value.checkType, vs[1].value.checkType, vs[2].value.checkType, check);
  }

  /** A VALIDATED order passed all three checks. */
  lemma ValidatedPassedAll(s: System, id: string, check: CheckType)
    requires Inv(s) && Agg.HasState(Published(s, id), VALIDATED)
    ensures exists j :: 0 <= j < |s.validations| && s.validations[j].value == OrderValidation(id, check, PASS)
  {
    var seen := Seen(s, id);
    assert AggregatorView(s, id);
    Agg.Decision(Agg.ForKey(s.aggLog, id));
    var n := CheckAmong(seen, check);
    assert Delivered(s.validations, s.aggVerdicts, seen[n]);
    var j :| j in s.aggVerdicts && j < |s.validations| && s.validations[j] == seen[n];
    assert s.validations[j].value == OrderValidation(id, check, PASS);
  }

  lemma ValidatedIsValidIn(s: System, i: nat)
    requires Inv(s) && IsCreated(s, i) && Agg.HasState(Published(s, s.orders[i].value.id), VALIDATED)
    ensures Details.IsValid(s.orders[i].value)
  {
    var id := s.orders[i].value.id;
    ValidatedPassedAll(s, id, ORDER_DETAILS_CHECK);
    var j :| 0 <= j < |s.validations| && s.validations[j].value == OrderValidation(id, ORDER_DETAILS_CHECK, PASS);
    assert TrueOf(s, s.validations[j].value);
    var i' :| 0 <= i' < |s.orders| && IsCreated(s, i') && s.validations[j].value == Details.Result(s.orders[i'].value);
    assert i' < i || i' == i || i < i';
  }

  /** The CREATED order behind a VALIDATED one has a product and neither quantity nor price is negative. */
  lemma ValidatedIsValid(states: seq<System>, actions: seq<Action>, k: nat, i: nat)
    requires IsRun(states, actions) && k < |states| && IsCreated(states[k], i)
    requires Agg.HasState(Published(states[k], states[k].orders[i].value.id), VALIDATED)
    ensures var order := states[k].orders[i].value;
            order.quantity >= 0 && order.price >= 0.0 && order.product.Some?
  {
    RunInv(states, actions, k);
    ValidatedIsValidIn(states[k], i);
  }

  // ------------------------------------------------------------ no overselling

  /** Ids of the orders published VALIDATED. */
  ghost function ValidatedIds(s: System): set<string>
  {
    set i | 0 <= i < |s.orders| && Agg.HasState(Published(s, s.orders[i].value.id), VALIDATED) :: s.orders[i].value.id
  }

  lemma ValidatedArePassed(s: System)
    requires Inv(s)
    ensures ValidatedIds(s) <= InventoryPassed(s.validations)
  {
    forall id | id in ValidatedIds(s) ensures id in InventoryPassed(s.validations) {
      ValidatedPassedAll(s, id, INVENTORY_CHECK);
      PassedIn(s.validations, id);
    }
  }

  /**
   If no order of a product that passed the inventory check is of negative quantity, what the
   VALIDATED orders of the product ask for never exceeds its warehouse count.
   */
  lemma NeverOversold(states: seq<System>, actions: seq<Action>, k: nat, product: Product)
    requires IsRun(states, actions) && k < |states|
    requires forall i :: 0 <= i < |states[k].orders| && IsCreated(states[k], i) &&
                         states[k].orders[i].value.product == Some(product) &&
                         states[k].orders[i].value.id in InventoryPassed(states[k].validations) ==>
               states[k].orders[i].value.quantity >= 0
    ensures var s := states[k];
            var sold := QuantityOf(s.orders, product, ValidatedIds(s));
            sold == 0 || (product in s.warehouse && 0 < sold <= s.warehouse[product])
  {
    var s := states[k];
    RunInv(states, actions, k);
    ValidatedArePassed(s);
    forall i | 0 <= i < |s.orders| ensures Counted(s.orders[i].value, product, InventoryPassed(s.validations)) >= 0 {
      assert s.orders[i].value.state == CREATED ==> IsCreated(s, i);
    }
    QuantityMonotone(s.orders, product, ValidatedIds(s), InventoryPassed(s.validations));
  }

  // ------------------------------------------- orders the inventory join drops

  ghost predicate IsVerdictOn(v: Stamped<OrderValidation>, id: string, check: CheckType)
  {
    v.value.orderId == id && v.value.checkType == check
  }

  ghost predicate HasAnswer(s: System, id: string, check: CheckType)
  {
    exists j :: 0 <= j < |s.validations| && IsVerdictOn(s.validations[j], id, check)
  }

  lemma HasAnswerGrows(s: System, s': System, id: string, check: CheckType)
    requires Grows(s, s') && HasAnswer(s, id, check)
    ensures HasAnswer(s', id, check)
  {
  }

  lemma AnswerHasCause(s: System, id: string, check: CheckType) returns (i: nat)
    requires OneVerdictEach(s) && HasAnswer(s, id, check)
    ensures i in Consumed(s, check) && IsCreated(s, i) && s.orders[i].value.id == id
  {
    var j :| 0 <= j < |s.validations| && IsVerdictOn(s.validations[j], id, check);
    assert Caused(s, s.validations[j].value);
    i :| i in Consumed(s, check) && IsCreated(s, i) && s.orders[i].value.id == id;
  }

  lemma NoAnswerYet(s: System, i: nat, check: CheckType)
    requires UniqueIds(s) && OneVerdictEach(s) && IsCreated(s, i) && i !in Consumed(s, check)
    ensures !HasAnswer(s, s.orders[i].value.id, check)
  {
    if HasAnswer(s, s.orders[i].value.id, check) {
      var i' := AnswerHasCause(s, s.orders[i].value.id, check);
    }
  }

  /** A verdict added by a step is about the order just taken. */
  lemma NewVerdict(s: System, a: Action, j: nat) returns (i: nat)
    requires Enabled(s, a) && |s.validations| <= j < |Next(s, a).validations|
    ensures (a.CheckDetails? || a.CheckInventory? || a.CheckFraud?) && i == a.i
    ensures var v := Next(s, a).validations[j].value;
            IsCreated(s, i) && s.orders[i].value.id == v.orderId && i !in Consumed(s, v.checkType)
  {
    if a.CheckFraud? { FraudVerdict(s, a.i); }
    i := a.i;
  }

  lemma NewVerdictElsewhere(s: System, a: Action, j: nat, i: nat)
    requires Enabled(s, a) && UniqueIds(s) && |s.validations| <= j < |Next(s, a).validations| && IsCreated(s, i)
    requires i in Consumed(s, Next(s, a).validations[j].value.checkType)
    ensures Next(s, a).validations[j].value.orderId != s.orders[i].value.id
  {
    var i' := NewVerdict(s, a, j);
    assert i' < i || i < i';
  }

  /** No later step answers, for a check, an order that the check has taken. */
  lemma NotAnsweredLater(s: System, a: Action, i: nat, check: CheckType)
    requires Enabled(s, a) && UniqueIds(s) && IsCreated(s, i) && i in Consumed(s, check)
    requires HasAnswer(Next(s, a), s.orders[i].value.id, check)
    ensures HasAnswer(s, s.orders[i].value.id, check)
  {
    var s', id := Next(s, a), s.orders[i].value.id;
    forall j | |s.validations| <= j < |s'.validations| ensures !IsVerdictOn(s'.validations[j], id, check) {
      if s'.validations[j].value.checkType == check { NewVerdictElsewhere(s, a, j, i); }
    }
    var j :| 0 <= j < |s'.validations| && IsVerdictOn(s'.validations[j], id, check);
    assert s'.validations[j] == s.validations[j];
  }

  /**
   What the inventory service owes an order: nothing if its product has no stock count; FAIL if the
   count is below what is reserved and the order together, PASS otherwise.
   */
  ghost function InventoryAnswer(s: System, order: Order): Option<CheckResult>
  {
    if order.product.Some? && order.product.value in s.warehouse then
      var product := order.product.value;
      var reserved := if product in s.reserved then s.reserved[product] else 0;
      Some(if s.warehouse[product] < reserved + order.quantity then FAIL else PASS)
    else None
  }

  ghost predicate Answers(s: System, v: OrderValidation)
  {
    exists j :: 0 <= j < |s.validations| && s.validations[j].value == v
  }

  /** The inventory service has taken the record at position i and given this answer, or none. */
  ghost predicate Settled(s: System, i: nat, record: Stamped<Order>, answer: Option<CheckResult>)
  {
    && i in s.inventory && IsCreated(s, i) && s.orders[i] == record
    && (HasAnswer(s, record.value.id, INVENTORY_CHECK) <==> answer.Some?)
    && (answer.Some? ==> Answers(s, OrderValidation(record.value.id, INVENTORY_CHECK, answer.value)))
  }

  /** The inventory service answers an order by the stock count it finds on taking it. */
  lemma AnswersByStock(s: System, i: nat, ts: int)
    requires UniqueIds(s) && OneVerdictEach(s) && IsCreated(s, i) && i !in s.inventory
    ensures Settled(OnInventory(s, i, ts), i, s.orders[i], InventoryAnswer(s, s.orders[i].value))
  {
    var s', answer := OnInventory(s, i, ts), InventoryAnswer(s, s.orders[i].value);
    if answer.Some? {
      var v := s'.validations[|s.validations|];
      assert v.value == OrderValidation(s.orders[i].value.id, INVENTORY_CHECK, answer.value);
      assert IsVerdictOn(v, s.orders[i].value.id, INVENTORY_CHECK);
    } else {
      NoAnswerYet(s, i, INVENTORY_CHECK);
      assert s'.validations == s.validations;
    }
  }

  lemma AnswersGrow(s: System, s': System, v: OrderValidation)
    requires Grows(s, s') && Answers(s, v)
    ensures Answers(s', v)
  {
    var j :| 0 <= j < |s.validations| && s.validations[j].value == v;
    assert s'.validations[j] == s.validations[j];
  }

  lemma StaysSettled(s: System, a: Action, s': System, i: nat, record: Stamped<Order>, answer: Option<CheckResult>)
    requires Enabled(s, a) && s' == Next(s, a) && UniqueIds(s) && Settled(s, i, record, answer)
    ensures Settled(s', i, record, answer)
  {
    var id := record.value.id;
    StepGrows(s, a);
    GrowsKeepsCreated(s, s', i);
    if answer.Some? {
      HasAnswerGrows(s, s', id, INVENTORY_CHECK);
      AnswersGrow(s, s', OrderValidation(id, INVENTORY_CHECK, answer.value));
    } else if HasAnswer(s', id, INVENTORY_CHECK) {
      NotAnsweredLater(s, a, i, INVENTORY_CHECK);
    }
  }

  lemma RunStaysSettled(states: seq<System>, actions: seq<Action>, k: nat, i: nat, record: Stamped<Order>, answer: Option<CheckResult>)
    requires IsRun(states, actions) && k < |actions| && Settled(states[k], i, record, answer)
    ensures Settled(states[k + 1], i, record, answer)
  {
    RunInv(states, actions, k);
    RunStep(states, actions, k);
    StaysSettled(states[k], actions[k], states[k + 1], i, record, answer);
  }

  lemma RunAnswersByStock(states: seq<System>, actions: seq<Action>, m: nat, i: nat)
    requires IsRun(states, actions) && m < |actions|
    requires actions[m].CheckInventory? && actions[m].i == i && IsCreated(states[m], i)
    ensures Settled(states[m + 1], i, states[m].orders[i], InventoryAnswer(states[m], states[m].orders[i].value))
  {
    RunInv(states, actions, m);
    RunStep(states, actions, m);
    AnswersByStock(states[m], i, actions[m].ts);
  }

  /** Whether the inventory service ever answers an order, and how, is settled by the stock on taking it. */
  lemma AnsweredByStock(states: seq<System>, actions: seq<Action>, m: nat, k: nat, i: nat)
    requires IsRun(states, actions) && m < k < |states|
    requires actions[m].CheckInventory? && actions[m].i == i && IsCreated(states[m], i)
    ensures Settled(states[k], i, states[m].orders[i], InventoryAnswer(states[m], states[m].orders[i].value))
  {
    var record, answer := states[m].orders[i], InventoryAnswer(states[m], states[m].orders[i].value);
    RunAnswersByStock(states, actions, m, i);
    var n := m + 1;
    while n < k
      invariant m < n <= k && Settled(states[n], i, record, answer)
    {
      RunStaysSettled(states, actions, n, i, record, answer);
      n := n + 1;
    }
  }

  lemma GrowsOn(s: System, s': System, s'': System)
    requires Grows(s, s') && Grows(s', s'')
    ensures Grows(s, s'')
  {
  }

  lemma RunStepGrows(states: seq<System>, actions: seq<Action>, k: nat)
    requires IsRun(states, actions) && k < |actions|
    ensures Grows(states[k], states[k + 1])
  {
    RunStep(states, actions, k);
    StepGrows(states[k], actions[k]);
  }

  lemma {:induction false} RunGrows(states: seq<System>, actions: seq<Action>, k: nat, m: nat)
    requires IsRun(states, actions) && k <= m < |states|
    ensures Grows(states[k], states[m])
  {
    if k < m {
      RunGrows(states, actions, k, m - 1);
      RunStepGrows(states, actions, m - 1);
      GrowsOn(states[k], states[m - 1], states[m]);
    }
  }

  lemma NoAnswerBefore(states: seq<System>, actions: seq<Action>, m: nat, k: nat, i: nat)
    requires IsRun(states, actions) && k <= m < |actions|
    requires actions[m].CheckInventory? && actions[m].i == i && IsCreated(states[m], i)
    ensures !HasAnswer(states[k], states[m].orders[i].value.id, INVENTORY_CHECK)
  {
    var id := states[m].orders[i].value.id;
    RunInv(states, actions, k);
    RunInv(states, actions, m);
    RunStep(states, actions, m);
    RunGrows(states, actions, k, m);
    forall i': nat | IsCreated(states[k], i')
      ensures IsCreated(states[m], i') && states[m].orders[i'] == states[k].orders[i']
    {
      GrowsKeepsCreated(states[k], states[m], i');
    }
    if HasAnswer(states[k], id, INVENTORY_CHECK) {
      var i' := AnswerHasCause(states[k], id, INVENTORY_CHECK);
    }
  }

  /** An order taken while its product has no stock count is never VALIDATED, in any state of the run. */
  lemma UnstockedNeverValidated(states: seq<System>, actions: seq<Action>, m: nat, k: nat, i: nat)
    requires IsRun(states, actions) && m < |actions| && k < |states|
    requires actions[m].CheckInventory? && actions[m].i == i && IsCreated(states[m], i)
    requires var order := states[m].orders[i].value;
             order.product.None? || order.product.value !in states[m].warehouse
    ensures !Agg.HasState(Published(states[k], states[m].orders[i].value.id), VALIDATED)
  {
    var s, id := states[k], states[m].orders[i].value.id;
    RunInv(states, actions, k);
    if k <= m { NoAnswerBefore(states, actions, m, k, i); } else { AnsweredByStock(states, actions, m, k, i); }
    if Agg.HasState(Published(s, id), VALIDATED) {
      ValidatedPassedAll(s, id, INVENTORY_CHECK);
      var j :| 0 <= j < |s.validations| && s.validations[j].value == OrderValidation(id, INVENTORY_CHECK, PASS);
      assert IsVerdictOn(s.validations[j], id, INVENTORY_CHECK);
    }
  }

  lemma TakenNow(s: System, a: Action, i: nat)
    requires Enabled(s, a) && i !in s.inventory && i in Next(s, a).inventory
    ensures a.CheckInventory? && a.i == i && i < |s.orders|
  {
  }

  lemma RunTakesNow(states: seq<System>, actions: seq<Action>, k: nat, i: nat)
    requires IsRun(states, actions) && k < |actions| && i !in states[k].inventory && i in states[k + 1].inventory
    ensures actions[k].CheckInventory? && actions[k].i == i && i < |states[k].orders|
  {
    RunStep(states, actions, k);
    TakenNow(states[k], actions[k], i);
  }

  /** The step at which the inventory service took an order. */
  lemma {:induction false} TakenAt(states: seq<System>, actions: seq<Action>, k: nat, i: nat) returns (m: nat)
    requires IsRun(states, actions) && k < |states| && i in states[k].inventory
    ensures m < k && actions[m].CheckInventory? && actions[m].i == i && i < |states[m].orders|
  {
    assert k > 0;
    if i in states[k - 1].inventory {
      m := TakenAt(states, actions, k - 1, i);
    } else {
      m := k - 1;
      RunTakesNow(states, actions, m, i);
    }
  }

  // ------------------------------------------------------- the fraud verdicts

  function Taking(orders: seq<Stamped<Order>>, a: Action): seq<Stamped<Order>>
  {
    if a.CheckFraud? && a.i < |orders| then [orders[a.i]] else []
  }

  /** The orders at the positions that the fraud service has taken, in the order it took them. */
  function TakenByFraud(orders: seq<Stamped<Order>>, actions: seq<Action>): seq<Stamped<Order>>
  {
    if actions == [] then []
    else
      var n := |actions| - 1;
      TakenByFraud(orders, actions[..n]) + Taking(orders, actions[n])
  }

  /** Every order the fraud service took is on the topic. */
  ghost predicate TookFrom(orders: seq<Stamped<Order>>, actions: seq<Action>)
  {
    forall k :: 0 <= k < |actions| && actions[k].CheckFraud? ==> actions[k].i < |orders|
  }

  lemma {:induction false} TakenFromMore(orders: seq<Stamped<Order>>, more: seq<Stamped<Order>>, actions: seq<Action>)
    requires orders <= more && TookFrom(orders, actions)
    ensures TakenByFraud(more, actions) == TakenByFraud(orders, actions)
  {
    if actions != [] { TakenFromMore(orders, more, actions[..|actions| - 1]); }
  }

  lemma FraudLogNext(s: System, a: Action)
    requires Enabled(s, a)
    ensures Next(s, a).fraudLog == s.fraudLog + Taking(s.orders, a)
    ensures a.CheckFraud? ==> a.i < |s.orders|
  {
  }

  /** The log of the fraud service is what it has taken. */
  ghost predicate LogsTaken(orders: seq<Stamped<Order>>, log: seq<Stamped<Order>>, actions: seq<Action>)
  {
    TookFrom(orders, actions) && log == TakenByFraud(orders, actions)
  }

  lemma LogsTakenNext(orders: seq<Stamped<Order>>, log: seq<Stamped<Order>>, actions: seq<Action>, a: Action, more: seq<Stamped<Order>>)
    requires LogsTaken(orders, log, actions) && orders <= more && (a.CheckFraud? ==> a.i < |orders|)
    ensures LogsTaken(more, log + Taking(orders, a), actions + [a])
  {
    TakenFromMore(orders, more, actions);
    assert (actions + [a])[..|actions|] == actions;
  }

  lemma RunLogsNext(states: seq<System>, actions: seq<Action>, k: nat)
    requires IsRun(states, actions) && k < |actions| && LogsTaken(states[k].orders, states[k].fraudLog, actions[..k])
    ensures LogsTaken(states[k + 1].orders, states[k + 1].fraudLog, actions[..k] + [actions[k]])
  {
    RunStep(states, actions, k);
    RunStepGrows(states, actions, k);
    FraudLogNext(states[k], actions[k]);
    LogsTakenNext(states[k].orders, states[k].fraudLog, actions[..k], actions[k], states[k + 1].orders);
  }

  lemma {:induction false} FraudLogIsTaken(states: seq<System>, actions: seq<Action>, k: nat)
    requires IsRun(states, actions) && k < |states|
    ensures LogsTaken(states[k].orders, states[k].fraudLog, actions[..k])
  {
    if k > 0 {
      FraudLogIsTaken(states, actions, k - 1);
      RunLogsNext(states, actions, k - 1);
      assert actions[..k] == actions[..k - 1] + [actions[k - 1]];
    }
  }

  /** The verdict on an order, by what its customer has spent in its session among the given orders and this one. */
  ghost predicate JudgedOver(v: OrderValidation, record: Stamped<Order>, log: seq<Stamped<Order>>)
  {
    var spending := Fraud.Spending(log + [record], record.value.customerId);
    exists sessions :: Fraud.ExactFor(sessions, spending) && Fraud.JudgedIn([v], record, spending, sessions)
  }

  lemma FraudJudges(s: System, i: nat)
    requires IsCreated(s, i)
    ensures var out := Fraud.VerdictsFor(Fraud.Run(s.fraudLog), s.orders[i]);
            |out| == 1 && JudgedOver(out[0], s.orders[i], s.fraudLog)
  {
    var log, record := s.fraudLog, s.orders[i];
    var out := Fraud.VerdictsFor(Fraud.Run(log), record);
    FraudVerdict(s, i);
    assert out == [out[0]];
    Fraud.RunExact(log);
    Fraud.OneVerdict(Fraud.Run(log), log, record);
    Fraud.StepExact(Fraud.Run(log), log, record);
    var sessions := Fraud.Sessions(Fraud.StoreAfter(Fraud.Run(log), record), record.value.customerId);
    assert Fraud.ExactFor(sessions, Fraud.Spending(log + [record], record.value.customerId));
  }

  lemma {:induction false} RunKeepsAnswer(states: seq<System>, actions: seq<Action>, m: nat, k: nat, v: OrderValidation)
    requires IsRun(states, actions) && m <= k < |states| && Answers(states[m], v)
    ensures Answers(states[k], v)
  {
    RunGrows(states, actions, m, k);
    AnswersGrow(states[m], states[k], v);
  }

  /**
   In every state after the fraud service took an order there is a verdict of it on that order: FAIL if
   what the customer has spent in the session, over the orders taken before and this one, is 2000 or
   more, PASS otherwise.
   */
  lemma FraudAnswersBySpending(states: seq<System>, actions: seq<Action>, m: nat, k: nat, i: nat) returns (v: OrderValidation)
    requires IsRun(states, actions) && m < k < |states|
    requires actions[m].CheckFraud? && actions[m].i == i && IsCreated(states[m], i)
    ensures Answers(states[k], v) && JudgedOver(v, states[m].orders[i], TakenByFraud(states[m].orders, actions[..m]))
  {
    var s := states[m];
    RunStep(states, actions, m);
    FraudLogIsTaken(states, actions, m);
    FraudJudges(s, i);
    v := Fraud.VerdictsFor(Fraud.Run(s.fraudLog), s.orders[i])[0];
    assert states[m + 1].validations[|s.validations|].value == v;
    RunKeepsAnswer(states, actions, m + 1, k, v);
  }

  // -------------------------------------------------- completeness of decisions

  ghost predicate VerdictDelivered(s: System, id: string, check: CheckType)
  {
    exists j :: j in s.aggVerdicts && j < |s.validations| && IsVerdictOn(s.validations[j], id, check)
  }

  /** The aggregator has been delivered the CREATED order at position i and a verdict on it from every check. */
  ghost predicate FullyDelivered(s: System, i: nat)
  {
    && IsCreated(s, i) && i in s.aggOrders
    && forall check :: VerdictDelivered(s, s.orders[i].value.id, check)
  }

  /** The order and every verdict on it in the topic are within five minutes of one another. */
  ghost predicate PromptIn(s: System, i: nat)
    requires IsCreated(s, i)
  {
    var id := s.orders[i].value.id;
    forall j, k :: 0 <= j < |s.validations| && 0 <= k < |s.validations| &&
                   s.validations[j].value.orderId == id && s.validations[k].value.orderId == id ==>
      Agg.PassCounts.Close(s.validations[j].ts, s.validations[k].ts) &&
      Agg.PassCounts.Close(s.validations[j].ts, s.orders[i].ts)
  }

  ghost predicate HasVerdict(s: System, id: string, result: CheckResult)
  {
    exists j :: 0 <= j < |s.validations| && s.validations[j].value.orderId == id && s.validations[j].value.result == result
  }

  lemma SeenIndex(s: System, id: string, check: CheckType) returns (n: nat)
    requires Inv(s) && VerdictDelivered(s, id, check)
    ensures n < |Seen(s, id)| && IsVerdictOn(Seen(s, id)[n], id, check)
  {
    var j :| j in s.aggVerdicts && j < |s.validations| && IsVerdictOn(s.validations[j], id, check);
    assert s.validations[j] in Seen(s, id);
    n :| n < |Seen(s, id)| && Seen(s, id)[n] == s.validations[j];
  }

  lemma ThreeChecksSeen(s: System, id: string)
    requires Inv(s) && forall check :: VerdictDelivered(s, id, check)
    ensures |Seen(s, id)| == 3
  {
    assert VerdictDelivered(s, id, INVENTORY_CHECK) && VerdictDelivered(s, id, FRAUD_CHECK);
    assert VerdictDelivered(s, id, ORDER_DETAILS_CHECK) && AggregatorView(s, id);
    var a := SeenIndex(s, id, INVENTORY_CHECK);
    var b := SeenIndex(s, id, FRAUD_CHECK);
    var c := SeenIndex(s, id, ORDER_DETAILS_CHECK);
    assert a != b && b != c && a != c;
    Agg.AtMostThreeVerdicts(Seen(s, id));
  }

  lemma OneOrderSeen(s: System, i: nat)
    requires Inv(s) && IsCreated(s, i) && i in s.aggOrders
    ensures SeenOrders(s, s.orders[i].value.id) == [s.orders[i]]
  {
    assert AggregatorView(s, s.orders[i].value.id);
    assert s.orders[i] in SeenOrders(s, s.orders[i].value.id);
  }

  /** Three verdicts are in view once each check's verdict has been delivered. */
  lemma AllThreeSeen(s: System, i: nat)
    requires Inv(s) && FullyDelivered(s, i)
    ensures |Seen(s, s.orders[i].value.id)| == 3
    ensures SeenOrders(s, s.orders[i].value.id) == [s.orders[i]]
  {
    ThreeChecksSeen(s, s.orders[i].value.id);
    OneOrderSeen(s, i);
  }

  /** What the topic holds about the order is what the aggregator has seen of it. */
  lemma SeenIsAll(s: System, id: string, j: nat) returns (n: nat)
    requires Inv(s) && j < |s.validations| && s.validations[j].value.orderId == id
    requires VerdictDelivered(s, id, s.validations[j].value.checkType)
    ensures n < |Seen(s, id)| && Seen(s, id)[n] == s.validations[j]
  {
    var check := s.validations[j].value.checkType;
    var k :| k in s.aggVerdicts && k < |s.validations| && IsVerdictOn(s.validations[k], id, check);
    assert k == j;
    assert s.validations[j] in Seen(s, id);
    n :| n < |Seen(s, id)| && Seen(s, id)[n] == s.validations[j];
  }

  lemma SeenPrompt(s: System, i: nat)
    requires Inv(s) && FullyDelivered(s, i) && PromptIn(s, i)
    ensures Agg.Prompt(Seen(s, s.orders[i].value.id), SeenOrders(s, s.orders[i].value.id))
  {
    var id := s.orders[i].value.id;
    var seen := Seen(s, id);
    AllThreeSeen(s, i);
    assert AggregatorView(s, id);
    forall n | 0 <= n < |seen|
      ensures exists j :: 0 <= j < |s.validations| && s.validations[j] == seen[n]
      ensures seen[n].value.orderId == id
    {
      assert Delivered(s.validations, s.aggVerdicts, seen[n]);
    }
  }

  lemma SeenResults(s: System, i: nat, result: CheckResult)
    requires Inv(s) && FullyDelivered(s, i)
    ensures var id := s.orders[i].value.id;
            HasVerdict(s, id, result) <==> exists n :: 0 <= n < |Seen(s, id)| && Seen(s, id)[n].value.result == result
  {
    var id := s.orders[i].value.id;
    var seen := Seen(s, id);
    assert AggregatorView(s, id);
    if HasVerdict(s, id, result) {
      var j :| 0 <= j < |s.validations| && s.validations[j].value.orderId == id && s.validations[j].value.result == result;
      assert VerdictDelivered(s, id, s.validations[j].value.checkType);
      var n := SeenIsAll(s, id, j);
    }
    if n :| 0 <= n < |seen| && seen[n].value.result == result {
      assert Delivered(s.validations, s.aggVerdicts, seen[n]);
    }
  }

  ghost predicate DecidedByVerdicts(s: System, id: string)
  {
    && (Agg.HasState(Published(s, id), VALIDATED) <==> !HasVerdict(s, id, FAIL) && !HasVerdict(s, id, ERROR))
    && (Agg.HasState(Published(s, id), FAILED) <==> HasVerdict(s, id, FAIL))
  }

  lemma DeliveredIsDecided(s: System, i: nat)
    requires Inv(s) && FullyDelivered(s, i) && PromptIn(s, i)
    ensures DecidedByVerdicts(s, s.orders[i].value.id)
  {
    var id := s.orders[i].value.id;
    AllThreeSeen(s, i);
    SeenPrompt(s, i);
    SeenResults(s, i, FAIL);
    SeenResults(s, i, ERROR);
    assert AggregatorView(s, id);
    Agg.PromptDecision(Agg.ForKey(s.aggLog, id));
  }

  /**
   Once a prompt order and its three verdicts have been delivered it has been published VALIDATED
   iff no check answered anything but PASS, and FAILED iff some check answered FAIL.
   */
  lemma PromptOrdersAreDecided(states: seq<System>, actions: seq<Action>, k: nat, i: nat)
    requires IsRun(states, actions) && k < |states|
    requires FullyDelivered(states[k], i) && PromptIn(states[k], i)
    ensures DecidedByVerdicts(states[k], states[k].orders[i].value.id)
  {
    RunInv(states, actions, k);
    DeliveredIsDecided(states[k], i);
  }
}
