/**
 Although decisions are written back to the orders topic, the services come to rest: every run
 without new submissions is bounded by the work outstanding at its start, and at rest every order
 has been answered, delivered and decided.
 */
module PipelineQuiescence {
  import opened Orders
  import opened OrderPipeline
  import opened PipelineInvariant
  import opened PipelineTheorems
  import Details = OrderDetailsService
  import Agg = ValidationsAggregator

  predicate Internal(a: Action)
  {
    !a.Submit? && !a.Restock?
  }

  // --------------------------------------------------------- outstanding work

  function Cost(done: bool, weight: nat): nat
  {
    if done then 0 else weight
  }

  /** A CREATED record may still cause verdicts and decisions; any other record is only skipped. */
  function OrderWork(s: System, i: nat): nat
  {
    var created := IsCreated(s, i);
    var check, decide := if created then 10 else 1, if created then 25 else 1;
    Cost(i in s.details, check) + Cost(i in s.inventory, check) + Cost(i in s.fraud, check) +
    Cost(i in s.aggOrders, decide)
  }

  function VerdictWork(s: System, j: nat): nat
  {
    Cost(j in s.aggVerdicts, 9)
  }

  function OrdersWork(s: System, n: nat): nat
  {
    if n == 0 then 0 else OrdersWork(s, n - 1) + OrderWork(s, n - 1)
  }

  function VerdictsWork(s: System, n: nat): nat
  {
    if n == 0 then 0 else VerdictsWork(s, n - 1) + VerdictWork(s, n - 1)
  }

  function Work(s: System): nat
  {
    OrdersWork(s, |s.orders|) + VerdictsWork(s, |s.validations|)
  }

  lemma {:induction false} OrdersWorkSame(s: System, s': System, n: nat)
    requires forall i :: 0 <= i < n ==> OrderWork(s', i) == OrderWork(s, i)
    ensures OrdersWork(s', n) == OrdersWork(s, n)
  {
    if n > 0 { OrdersWorkSame(s, s', n - 1); }
  }

  lemma {:induction false} OrdersWorkLess(s: System, s': System, n: nat, k: nat, c: nat)
    requires k < n && OrderWork(s', k) + c == OrderWork(s, k)
    requires forall i :: 0 <= i < n && i != k ==> OrderWork(s', i) == OrderWork(s, i)
    ensures OrdersWork(s', n) + c == OrdersWork(s, n)
  {
    if k == n - 1 {
      OrdersWorkSame(s, s', n - 1);
    } else {
      OrdersWorkLess(s, s', n - 1, k, c);
    }
  }

  lemma {:induction false} OrdersWorkMore(s: System, n: nat, m: nat)
    requires forall i :: n <= i < n + m ==> OrderWork(s, i) == 4
    ensures OrdersWork(s, n + m) == OrdersWork(s, n) + 4 * m
  {
    if m > 0 { OrdersWorkMore(s, n, m - 1); }
  }

  lemma {:induction false} VerdictsWorkSame(s: System, s': System, n: nat)
    requires forall j :: 0 <= j < n ==> VerdictWork(s', j) == VerdictWork(s, j)
    ensures VerdictsWork(s', n) == VerdictsWork(s, n)
  {
    if n > 0 { VerdictsWorkSame(s, s', n - 1); }
  }

  lemma {:induction false} VerdictsWorkLess(s: System, s': System, n: nat, k: nat)
    requires k < n && VerdictWork(s', k) + 9 == VerdictWork(s, k)
    requires forall j :: 0 <= j < n && j != k ==> VerdictWork(s', j) == VerdictWork(s, j)
    ensures VerdictsWork(s', n) + 9 == VerdictsWork(s, n)
  {
    if k == n - 1 {
      VerdictsWorkSame(s, s', n - 1);
    } else {
      VerdictsWorkLess(s, s', n - 1, k);
    }
  }

  // ------------------------------------------------------- consumed positions

  /** Only positions that exist have been consumed. */
  ghost predicate InRange(s: System)
  {
    && (forall i :: i in s.details ==> i < |s.orders|)
    && (forall i :: i in s.inventory ==> i < |s.orders|)
    && (forall i :: i in s.fraud ==> i < |s.orders|)
    && (forall i :: i in s.aggOrders ==> i < |s.orders|)
    && (forall j :: j in s.aggVerdicts ==> j < |s.validations|)
  }

  /** The details and fraud services have answered every CREATED order they consumed. */
  ghost predicate DetailsAnswered(s: System)
  {
    forall i :: i in s.details && IsCreated(s, i) ==> HasAnswer(s, s.orders[i].value.id, ORDER_DETAILS_CHECK)
  }

  ghost predicate FraudAnswered(s: System)
  {
    forall i :: i in s.fraud && IsCreated(s, i) ==> HasAnswer(s, s.orders[i].value.id, FRAUD_CHECK)
  }

  ghost predicate Answered(s: System)
  {
    DetailsAnswered(s) && FraudAnswered(s)
  }

  ghost predicate LiveInv(s: System)
  {
    Inv(s) && InRange(s) && Answered(s)
  }

  lemma StepInRange(s: System, a: Action)
    requires Enabled(s, a) && InRange(s)
    ensures InRange(Next(s, a))
  {
    StepGrows(s, a);
  }

  lemma DetailsAnswers(s: System, i: nat, ts: int)
    requires Enabled(s, CheckDetails(i, ts)) && IsCreated(s, i)
    ensures HasAnswer(OnDetails(s, i, ts), s.orders[i].value.id, ORDER_DETAILS_CHECK)
  {
    assert IsVerdictOn(OnDetails(s, i, ts).validations[|s.validations|], s.orders[i].value.id, ORDER_DETAILS_CHECK);
  }

  lemma FraudAnswers(s: System, i: nat, ts: int)
    requires Enabled(s, CheckFraud(i, ts)) && IsCreated(s, i)
    ensures HasAnswer(OnFraud(s, i, ts), s.orders[i].value.id, FRAUD_CHECK)
  {
    FraudVerdict(s, i);
    assert IsVerdictOn(OnFraud(s, i, ts).validations[|s.validations|], s.orders[i].value.id, FRAUD_CHECK);
  }

  lemma StepDetailsAnswered(s: System, s': System, a: Action)
    requires Enabled(s, a) && s' == Next(s, a) && Grows(s, s') && InRange(s) && DetailsAnswered(s)
    ensures DetailsAnswered(s')
  {
    forall i | i in s'.details && IsCreated(s', i)
      ensures HasAnswer(s', s'.orders[i].value.id, ORDER_DETAILS_CHECK)
    {
      assert i < |s.orders| && s'.orders[i] == s.orders[i] && IsCreated(s, i);
      if i in s.details {
        HasAnswerGrows(s, s', s.orders[i].value.id, ORDER_DETAILS_CHECK);
      } else {
        DetailsAnswers(s, i, a.ts);
      }
    }
  }

  lemma StepFraudAnswered(s: System, s': System, a: Action)
    requires Enabled(s, a) && s' == Next(s, a) && Grows(s, s') && InRange(s) && FraudAnswered(s)
    ensures FraudAnswered(s')
  {
    forall i | i in s'.fraud && IsCreated(s', i)
      ensures HasAnswer(s', s'.orders[i].value.id, FRAUD_CHECK)
    {
      assert i < |s.orders| && s'.orders[i] == s.orders[i] && IsCreated(s, i);
      if i in s.fraud {
        HasAnswerGrows(s, s', s.orders[i].value.id, FRAUD_CHECK);
      } else {
        FraudAnswers(s, i, a.ts);
      }
    }
  }

  lemma StepAnswered(s: System, a: Action)
    requires Enabled(s, a) && InRange(s) && Answered(s)
    ensures InRange(Next(s, a)) && Answered(Next(s, a))
  {
    StepGrows(s, a);
    StepInRange(s, a);
    StepDetailsAnswered(s, Next(s, a), a);
    StepFraudAnswered(s, Next(s, a), a);
  }

  lemma StepLive(s: System, a: Action)
    requires Enabled(s, a) && LiveInv(s)
    ensures LiveInv(Next(s, a))
  {
    StepInv(s, a);
    StepAnswered(s, a);
  }

  lemma InitLive()
    ensures LiveInv(EMPTY)
  {
    InitInv();
  }

  lemma {:induction false} RunLive(states: seq<System>, actions: seq<Action>, k: nat)
    requires IsRun(states, actions) && k < |states|
    ensures LiveInv(states[k])
  {
    if k == 0 {
      InitLive();
    } else {
      RunLive(states, actions, k - 1);
      RunStep(states, actions, k - 1);
      StepLive(states[k - 1], actions[k - 1]);
    }
  }

  // -------------------------------------------------- every step uses up work

  lemma {:induction false} FewCompletions(vs: seq<Stamped<OrderValidation>>)
    ensures |Agg.Completions(vs)| <= |vs| && |Agg.Fails(vs)| <= |vs|
  {
    if vs != [] { FewCompletions(vs[..|vs| - 1]); }
  }

  /** A verdict causes at most two decisions, a CREATED order at most six, any other record none. */
  lemma FewDecisions(s: System, e: Agg.Event)
    requires AggregatorView(s, Agg.KeyOf(e))
    ensures |Decisions(s, e)| <= if e.VerdictArrived? then 2 else if e.order.value.state == CREATED then 6 else 0
  {
    var events := Agg.ForKey(s.aggLog, Agg.KeyOf(e));
    Agg.RunBuffers(events);
    Agg.AtMostThreeVerdicts(Agg.Verdicts(events));
    FewCompletions(Agg.Verdicts(events));
  }

  lemma CheckUsesWork(s: System, s': System, i: nat)
    requires s'.orders == s.orders && s'.aggVerdicts == s.aggVerdicts && i < |s.orders|
    requires OrderWork(s', i) + (if IsCreated(s, i) then 10 else 1) == OrderWork(s, i)
    requires forall k :: 0 <= k < |s.orders| && k != i ==> OrderWork(s', k) == OrderWork(s, k)
    requires |s.validations| <= |s'.validations| <= |s.validations| + (if IsCreated(s, i) then 1 else 0)
    ensures Work(s') < Work(s)
  {
    OrdersWorkLess(s, s', |s.orders|, i, if IsCreated(s, i) then 10 else 1);
    VerdictsWorkSame(s, s', |s.validations|);
  }

  lemma DetailsUsesWork(s: System, i: nat, ts: int)
    requires Enabled(s, CheckDetails(i, ts))
    ensures Work(OnDetails(s, i, ts)) < Work(s)
  {
    var s' := OnDetails(s, i, ts);
    assert forall k :: IsCreated(s', k) == IsCreated(s, k);
    CheckUsesWork(s, s', i);
  }

  lemma InventoryUsesWork(s: System, i: nat, ts: int)
    requires Enabled(s, CheckInventory(i, ts))
    ensures Work(OnInventory(s, i, ts)) < Work(s)
  {
    var s' := OnInventory(s, i, ts);
    assert forall k :: IsCreated(s', k) == IsCreated(s, k);
    CheckUsesWork(s, s', i);
  }

  lemma FraudUsesWork(s: System, i: nat, ts: int)
    requires Enabled(s, CheckFraud(i, ts))
    ensures Work(OnFraud(s, i, ts)) < Work(s)
  {
    var s' := OnFraud(s, i, ts);
    FraudVerdict(s, i);
    assert forall k :: IsCreated(s', k) == IsCreated(s, k);
    CheckUsesWork(s, s', i);
  }

  /** New records cost four: one skip for each of the four consumers of the orders topic. */
  lemma NewRecordsCost(s: System, s': System)
    requires InRange(s) && Grows(s, s') && NoNewCreated(s, s')
    requires s'.details == s.details && s'.inventory == s.inventory && s'.fraud == s.fraud
    requires forall i :: i in s'.aggOrders ==> i < |s.orders|
    ensures OrdersWork(s', |s'.orders|) == OrdersWork(s', |s.orders|) + 4 * (|s'.orders| - |s.orders|)
  {
    var n := |s.orders|;
    forall i | n <= i < |s'.orders| ensures OrderWork(s', i) == 4 {
      assert !IsCreated(s', i);
    }
    OrdersWorkMore(s', n, |s'.orders| - n);
  }

  lemma AggregateOrderUsesWork(s: System, a: Action)
    requires Enabled(s, a) && a.AggregateOrder? && InRange(s) && AggregatorView(s, s.orders[a.i].value.id)
    ensures Work(Next(s, a)) < Work(s)
  {
    var s', n := Next(s, a), |s.orders|;
    StepGrows(s, a);
    OnlySubmitCreates(s, a);
    FewDecisions(s, Agg.OrderArrived(s.orders[a.i]));
    NewRecordsCost(s, s');
    assert forall i :: 0 <= i < n ==> IsCreated(s', i) == IsCreated(s, i);
    OrdersWorkLess(s, s', n, a.i, if IsCreated(s, a.i) then 25 else 1);
    VerdictsWorkSame(s, s', |s.validations|);
  }

  lemma VerdictUsesWork(s: System, s': System, j: nat)
    requires InRange(s) && Grows(s, s') && NoNewCreated(s, s') && j < |s.validations| && j !in s.aggVerdicts
    requires s'.details == s.details && s'.inventory == s.inventory && s'.fraud == s.fraud
    requires s'.aggOrders == s.aggOrders && s'.aggVerdicts == s.aggVerdicts + {j} && s'.validations == s.validations
    requires |s'.orders| <= |s.orders| + 2
    ensures Work(s') < Work(s)
  {
    NewRecordsCost(s, s');
    forall i | 0 <= i < |s.orders| ensures OrderWork(s', i) == OrderWork(s, i) {
      assert IsCreated(s', i) == IsCreated(s, i);
    }
    OrdersWorkSame(s, s', |s.orders|);
    VerdictsWorkLess(s, s', |s.validations|, j);
  }

  lemma AggregateVerdictUsesWork(s: System, a: Action)
    requires Enabled(s, a) && a.AggregateVerdict? && InRange(s) && AggregatorView(s, s.validations[a.j].value.orderId)
    ensures Work(Next(s, a)) < Work(s)
  {
    StepGrows(s, a);
    OnlySubmitCreates(s, a);
    FewDecisions(s, Agg.VerdictArrived(s.validations[a.j]));
    VerdictUsesWork(s, Next(s, a), a.j);
  }

  lemma StepUsesWork(s: System, a: Action)
    requires Enabled(s, a) && Internal(a) && LiveInv(s)
    ensures Work(Next(s, a)) < Work(s) && LiveInv(Next(s, a))
  {
    StepLive(s, a);
    match a {
      case AggregateOrder(_, _) => AggregateOrderUsesWork(s, a);
      case AggregateVerdict(_, _) => AggregateVerdictUsesWork(s, a);
      case CheckDetails(i, ts) => DetailsUsesWork(s, i, ts);
      case CheckInventory(i, ts) => InventoryUsesWork(s, i, ts);
      case CheckFraud(i, ts) => FraudUsesWork(s, i, ts);
    }
  }

  // ---------------------------------------------------------------- theorems

  /** Internal steps from a state on. */
  ghost predicate Continues(states: seq<System>, actions: seq<Action>)
  {
    && |states| == |actions| + 1
    && forall k :: 0 <= k < |actions| ==>
         Internal(actions[k]) && Enabled(states[k], actions[k]) && states[k + 1] == Next(states[k], actions[k])
  }

  lemma {:induction false} WorkRunsDown(states: seq<System>, actions: seq<Action>, k: nat)
    requires Continues(states, actions) && LiveInv(states[0]) && k < |states|
    ensures LiveInv(states[k]) && Work(states[k]) + k <= Work(states[0])
  {
    if k > 0 {
      WorkRunsDown(states, actions, k - 1);
      StepUsesWork(states[k - 1], actions[k - 1]);
    }
  }

  /** From every reachable state the services take at most Work further steps, whatever they do. */
  lemma AlwaysComesToRest(before: seq<System>, past: seq<Action>, states: seq<System>, actions: seq<Action>)
    requires IsRun(before, past) && Continues(states, actions) && states[0] == before[|before| - 1]
    ensures |actions| <= Work(states[0])
  {
    RunLive(before, past, |before| - 1);
    WorkRunsDown(states, actions, |actions|);
  }

  lemma {:induction false} WorkIsLinear(s: System, n: nat)
    ensures OrdersWork(s, n) <= 55 * n && VerdictsWork(s, n) <= 9 * n
  {
    if n > 0 { WorkIsLinear(s, n - 1); }
  }

  /** Freshly submitted orders need at most 55 steps each. */
  lemma FiftyFiveStepsPerOrder(before: seq<System>, past: seq<Action>, states: seq<System>, actions: seq<Action>)
    requires IsRun(before, past) && Continues(states, actions) && states[0] == before[|before| - 1]
    ensures |actions| <= 55 * |states[0].orders| + 9 * |states[0].validations|
  {
    AlwaysComesToRest(before, past, states, actions);
    WorkIsLinear(states[0], |states[0].orders|);
    WorkIsLinear(states[0], |states[0].validations|);
  }

  function Submissions(actions: seq<Action>): nat
  {
    if actions == [] then 0
    else
      var n := |actions| - 1;
      Submissions(actions[..n]) + (if actions[n].Submit? then 1 else 0)
  }

  function InternalSteps(actions: seq<Action>): nat
  {
    if actions == [] then 0
    else
      var n := |actions| - 1;
      InternalSteps(actions[..n]) + (if Internal(actions[n]) then 1 else 0)
  }

  lemma SubmitAddsWork(s: System, o: Stamped<Order>)
    requires InRange(s) && Enabled(s, Submit(o))
    ensures Work(Next(s, Submit(o))) <= Work(s) + 55
  {
    var s', n := Next(s, Submit(o)), |s.orders|;
    forall i | 0 <= i < n ensures OrderWork(s', i) == OrderWork(s, i) {
      assert IsCreated(s', i) == IsCreated(s, i);
    }
    OrdersWorkSame(s, s', n);
    VerdictsWorkSame(s, s', |s.validations|);
  }

  lemma RestockAddsNoWork(s: System, product: Product, count: int)
    requires Enabled(s, Restock(product, count))
    ensures Work(Next(s, Restock(product, count))) == Work(s)
  {
    var s' := Next(s, Restock(product, count));
    OrdersWorkSame(s, s', |s.orders|);
    VerdictsWorkSame(s, s', |s.validations|);
  }

  lemma StepWork(s: System, a: Action, s': System)
    requires LiveInv(s) && Enabled(s, a) && s' == Next(s, a)
    ensures Work(s') + (if Internal(a) then 1 else 0) <= Work(s) + (if a.Submit? then 55 else 0)
  {
    match a {
      case Submit(o) => SubmitAddsWork(s, o);
      case Restock(product, count) => RestockAddsNoWork(s, product, count);
      case _ => StepUsesWork(s, a);
    }
  }

  lemma CountedNext(actions: seq<Action>, k: nat)
    requires k < |actions|
    ensures Submissions(actions[..k + 1]) == Submissions(actions[..k]) + (if actions[k].Submit? then 1 else 0)
    ensures InternalSteps(actions[..k + 1]) == InternalSteps(actions[..k]) + (if Internal(actions[k]) then 1 else 0)
  {
    assert actions[..k + 1][..k] == actions[..k];
  }

  lemma NoWorkAtFirst()
    ensures Work(EMPTY) == 0
  {
  }

  /**
   In every run, submissions and restocking interleaved at will, the steps that the services have
   taken and the work outstanding are together at most 55 for each submission so far.
   */
  lemma {:induction false} WorkIsBounded(states: seq<System>, actions: seq<Action>, k: nat)
    requires IsRun(states, actions) && k < |states|
    ensures Work(states[k]) + InternalSteps(actions[..k]) <= 55 * Submissions(actions[..k])
  {
    if k == 0 {
      NoWorkAtFirst();
    } else {
      WorkIsBounded(states, actions, k - 1);
      RunLive(states, actions, k - 1);
      RunStep(states, actions, k - 1);
      StepWork(states[k - 1], actions[k - 1], states[k]);
      CountedNext(actions, k - 1);
    }
  }

  ghost predicate AtRest(s: System)
  {
    forall a :: Internal(a) ==> !Enabled(s, a)
  }

  lemma RestMeansConsumed(s: System)
    requires AtRest(s)
    ensures forall i :: 0 <= i < |s.orders| ==> i in s.details && i in s.inventory && i in s.fraud && i in s.aggOrders
    ensures forall j :: 0 <= j < |s.validations| ==> j in s.aggVerdicts
  {
    forall i | 0 <= i < |s.orders| ensures i in s.details && i in s.inventory && i in s.fraud && i in s.aggOrders {
      assert !Enabled(s, CheckDetails(i, 0)) && !Enabled(s, CheckInventory(i, 0));
      assert !Enabled(s, CheckFraud(i, 0)) && !Enabled(s, AggregateOrder(i, 0));
    }
    forall j | 0 <= j < |s.validations| ensures j in s.aggVerdicts {
      assert !Enabled(s, AggregateVerdict(j, 0));
    }
  }

  lemma StockedIsDecided(s: System, i: nat)
    requires LiveInv(s) && AtRest(s) && IsCreated(s, i) && HasAnswer(s, s.orders[i].value.id, INVENTORY_CHECK)
    ensures FullyDelivered(s, i)
    ensures PromptIn(s, i) ==> DecidedByVerdicts(s, s.orders[i].value.id)
  {
    var id := s.orders[i].value.id;
    RestMeansConsumed(s);
    forall check ensures VerdictDelivered(s, id, check) {
      assert HasAnswer(s, id, check);
      var j :| 0 <= j < |s.validations| && IsVerdictOn(s.validations[j], id, check);
      assert j in s.aggVerdicts;
    }
    if PromptIn(s, i) { DeliveredIsDecided(s, i); }
  }

  /**
   At rest every CREATED order has been taken by the inventory service, at a step m.  If its product
   had a stock count then, all its verdicts have been delivered, and if they were prompt it has been
   decided by them; if not, no state of the run publishes it VALIDATED.
   */
  lemma DecidedAtRest(states: seq<System>, actions: seq<Action>, k: nat, i: nat) returns (m: nat)
    requires IsRun(states, actions) && k < |states| && AtRest(states[k]) && IsCreated(states[k], i)
    ensures m < k && actions[m].CheckInventory? && actions[m].i == i && IsCreated(states[m], i)
    ensures var s, id := states[k], states[k].orders[i].value.id;
            if InventoryAnswer(states[m], states[m].orders[i].value).Some?
            then FullyDelivered(s, i) && (PromptIn(s, i) ==> DecidedByVerdicts(s, id))
            else forall n :: 0 <= n < |states| ==> !Agg.HasState(Published(states[n], id), VALIDATED)
  {
    var s := states[k];
    RunLive(states, actions, k);
    RestMeansConsumed(s);
    m := TakenAt(states, actions, k, i);
    RunGrows(states, actions, m, k);
    AnsweredByStock(states, actions, m, k, i);
    if InventoryAnswer(states[m], states[m].orders[i].value).Some? {
      StockedIsDecided(s, i);
    } else {
      forall n | 0 <= n < |states| ensures !Agg.HasState(Published(states[n], s.orders[i].value.id), VALIDATED) {
        UnstockedNeverValidated(states, actions, m, n, i);
      }
    }
  }

  lemma DetailsVerdict(s: System, i: nat) returns (j: nat)
    requires LiveInv(s) && IsCreated(s, i) && i in s.details
    ensures j < |s.validations| && s.validations[j].value == Details.Result(s.orders[i].value)
  {
    var id := s.orders[i].value.id;
    assert HasAnswer(s, id, ORDER_DETAILS_CHECK);
    j :| 0 <= j < |s.validations| && IsVerdictOn(s.validations[j], id, ORDER_DETAILS_CHECK);
    assert TrueOf(s, s.validations[j].value);
    var k :| 0 <= k < |s.orders| && IsCreated(s, k) && s.validations[j].value == Details.Result(s.orders[k].value);
    assert k < i || k == i || i < k;
  }

  lemma FailedVerdictDecides(s: System, i: nat, j: nat)
    requires Inv(s) && IsCreated(s, i) && i in s.aggOrders && PromptIn(s, i)
    requires j < |s.validations| && j in s.aggVerdicts
    requires s.validations[j].value.orderId == s.orders[i].value.id && s.validations[j].value.result == FAIL
    ensures Agg.HasState(Published(s, s.orders[i].value.id), FAILED)
  {
    var id := s.orders[i].value.id;
    OneOrderSeen(s, i);
    assert AggregatorView(s, id) && s.validations[j] in Seen(s, id);
    var n :| 0 <= n < |Seen(s, id)| && Seen(s, id)[n] == s.validations[j];
    assert Agg.Rejected(Seen(s, id), [s.orders[i]]);
    Agg.Decision(Agg.ForKey(s.aggLog, id));
  }

  /**
   At rest a prompt CREATED order of negative quantity, of negative price or without a product has been
   published FAILED, whether or not its product is stocked.
   */
  lemma DefectIsFailed(states: seq<System>, actions: seq<Action>, k: nat, i: nat)
    requires IsRun(states, actions) && k < |states| && AtRest(states[k]) && IsCreated(states[k], i) && PromptIn(states[k], i)
    requires var order := states[k].orders[i].value;
             order.quantity < 0 || order.price < 0.0 || order.product.None?
    ensures Agg.HasState(Published(states[k], states[k].orders[i].value.id), FAILED)
  {
    RunLive(states, actions, k);
    RestMeansConsumed(states[k]);
    var j := DetailsVerdict(states[k], i);
    FailedVerdictDecides(states[k], i, j);
  }
}
