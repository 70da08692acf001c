/**
 What may still become of the orders of a product.  An order that passed the inventory check may still
 be VALIDATED as long as the verdicts on it, those delivered in the order they were delivered, can be
 completed to an approval.  The outlook of a product sums the orders that passed and cannot, and the
 negative orders still to be taken: it is the least that can ever be stranded.
 */
module PipelineProspects {
  import opened Options
  import opened Orders
  import opened OrderPipeline
  import opened PipelineInvariant
  import opened PipelineTheorems
  import opened PipelineQuiescence
  import opened PipelinePaths
  import opened PipelineStranding
  import Details = OrderDetailsService
  import Agg = ValidationsAggregator

  // --------------------------------------------- orders that may be VALIDATED

  /** Three verdicts on the order at position i: first those delivered, in their order, and all that are on the topic. */
  ghost predicate Completes(s: System, i: nat, vs: seq<Stamped<OrderValidation>>)
    requires i < |s.orders|
  {
    var id := s.orders[i].value.id;
    && Seen(s, id) <= vs && |vs| == 3 && Agg.OnePerCheck(vs)
    && (forall n :: 0 <= n < |vs| ==> vs[n].value.orderId == id)
    && (forall j :: 0 <= j < |s.validations| && s.validations[j].value.orderId == id ==> s.validations[j] in vs)
  }

  ghost predicate CanApprove(s: System, i: nat)
    requires i < |s.orders|
  {
    Details.IsValid(s.orders[i].value) && exists vs :: Completes(s, i, vs) && Agg.Approved(vs, [s.orders[i]])
  }

  lemma SeenHasAll(s: System, i: nat)
    requires Inv(s) && IsCreated(s, i) && |Seen(s, s.orders[i].value.id)| == 3
    ensures Completes(s, i, Seen(s, s.orders[i].value.id))
  {
    var id := s.orders[i].value.id;
    var seen := Seen(s, id);
    assert AggregatorView(s, id);
    forall j | 0 <= j < |s.validations| && s.validations[j].value.orderId == id ensures s.validations[j] in seen {
      var n := CheckAmong(seen, s.validations[j].value.checkType);
      assert Delivered(s.validations, s.aggVerdicts, seen[n]);
      var k :| k in s.aggVerdicts && k < |s.validations| && s.validations[k] == seen[n];
      assert k == j;
    }
  }

  lemma OneCreatedSeen(s: System, i: nat)
    requires Inv(s) && IsCreated(s, i) && SeenOrders(s, s.orders[i].value.id) != []
    ensures SeenOrders(s, s.orders[i].value.id) == [s.orders[i]]
  {
    var id := s.orders[i].value.id;
    var seen := SeenOrders(s, id);
    assert AggregatorView(s, id) && Delivered(s.orders, s.aggOrders, seen[0]);
    var k :| k in s.aggOrders && k < |s.orders| && s.orders[k] == seen[0];
    assert IsCreated(s, k) && (k < i || k == i || i < k);
  }

  lemma ValidatedCanApprove(s: System, i: nat)
    requires Inv(s) && IsCreated(s, i) && Agg.HasState(Published(s, s.orders[i].value.id), VALIDATED)
    ensures CanApprove(s, i)
  {
    var id := s.orders[i].value.id;
    assert AggregatorView(s, id);
    Agg.Decision(Agg.ForKey(s.aggLog, id));
    SeenHasAll(s, i);
    OneCreatedSeen(s, i);
    ValidatedIsValidIn(s, i);
    assert Completes(s, i, Seen(s, id)) && Agg.Approved(Seen(s, id), [s.orders[i]]);
  }

  /** A completion of a later state is one of an earlier state. */
  lemma CouldApprove(s: System, s': System, i: nat)
    requires Grows(s, s') && IsCreated(s, i) && Seen(s, s.orders[i].value.id) <= Seen(s', s.orders[i].value.id)
    requires CanApprove(s', i)
    ensures CanApprove(s, i)
  {
    GrowsKeepsCreated(s, s', i);
    var vs :| Completes(s', i, vs) && Agg.Approved(vs, [s'.orders[i]]);
    var id := s.orders[i].value.id;
    forall j | 0 <= j < |s.validations| && s.validations[j].value.orderId == id ensures s.validations[j] in vs {
      assert s'.validations[j] == s.validations[j];
    }
    assert Completes(s, i, vs);
  }

  // ------------------------------------------------------------- the outlook

  predicate IsOf(s: System, i: nat, product: Product)
  {
    IsCreated(s, i) && s.orders[i].value.product == Some(product)
  }

  predicate HasPassed(s: System, i: nat)
    requires i < |s.orders|
  {
    s.orders[i].value.id in InventoryPassed(s.validations)
  }

  /** The least that an order can add to what is stranded. */
  ghost function Prospect(s: System, product: Product, i: nat): int
    requires i < |s.orders|
  {
    var quantity := s.orders[i].value.quantity;
    if !IsOf(s, i, product) then 0
    else if i !in s.inventory then (if quantity < 0 then quantity else 0)
    else if HasPassed(s, i) && !CanApprove(s, i) then quantity else 0
  }

  ghost function OutlookUpTo(s: System, product: Product, n: nat): int
    requires n <= |s.orders|
  {
    if n == 0 then 0 else OutlookUpTo(s, product, n - 1) + Prospect(s, product, n - 1)
  }

  ghost function Outlook(s: System, product: Product): int
  {
    OutlookUpTo(s, product, |s.orders|)
  }

  lemma PassedStays(s: System, a: Action, i: nat)
    requires Enabled(s, a) && UniqueIds(s) && IsCreated(s, i) && i in s.inventory
    ensures IsCreated(Next(s, a), i) && Next(s, a).orders[i] == s.orders[i] && HasPassed(Next(s, a), i) == HasPassed(s, i)
  {
    var s', id := Next(s, a), s.orders[i].value.id;
    StepGrows(s, a);
    PassedIn(s.validations, id);
    PassedIn(s'.validations, id);
    if j :| 0 <= j < |s.validations| && s.validations[j].value == OrderValidation(id, INVENTORY_CHECK, PASS) {
      assert s'.validations[j] == s.validations[j];
    }
    if j :| 0 <= j < |s'.validations| && s'.validations[j].value == OrderValidation(id, INVENTORY_CHECK, PASS) {
      if j < |s.validations| {
        assert s.validations[j] == s'.validations[j];
      } else {
        var k := NewVerdict(s, a, j);
      }
    }
  }

  lemma ProspectNeverLess(s: System, a: Action, product: Product, i: nat)
    requires Enabled(s, a) && UniqueIds(s) && i < |s.orders|
    ensures i < |Next(s, a).orders| && Prospect(Next(s, a), product, i) >= Prospect(s, product, i)
  {
    var s' := Next(s, a);
    StepGrows(s, a);
    assert s'.orders[i] == s.orders[i];
    if IsOf(s, i, product) && i in s.inventory {
      PassedStays(s, a, i);
      SeenGrows(s, a, s.orders[i].value.id);
      if CanApprove(s', i) { CouldApprove(s, s', i); }
    }
  }

  lemma NewProspect(s: System, a: Action, product: Product, i: nat)
    requires Enabled(s, a) && InRange(s) && AtLeast(a, 0) && |s.orders| <= i < |Next(s, a).orders|
    ensures Prospect(Next(s, a), product, i) == 0
  {
    if !a.Submit? { OnlySubmitCreates(s, a); }
  }

  lemma {:induction false} OutlookAtLeast(s: System, s': System, product: Product, n: nat)
    requires n <= |s.orders| && n <= |s'.orders|
    requires forall i :: 0 <= i < n ==> Prospect(s', product, i) >= Prospect(s, product, i)
    ensures OutlookUpTo(s', product, n) >= OutlookUpTo(s, product, n)
  {
    if n > 0 { OutlookAtLeast(s, s', product, n - 1); }
  }

  lemma {:induction false} OutlookGrows(s: System, s': System, product: Product, n: nat)
    requires |s.orders| <= n <= |s'.orders|
    requires forall i :: 0 <= i < |s.orders| ==> Prospect(s', product, i) >= Prospect(s, product, i)
    requires forall i :: |s.orders| <= i < n ==> Prospect(s', product, i) == 0
    ensures OutlookUpTo(s', product, n) >= Outlook(s, product)
  {
    if n > |s.orders| {
      OutlookGrows(s, s', product, n - 1);
    } else {
      OutlookAtLeast(s, s', product, n);
    }
  }

  /** No step by orders of non-negative quantity lowers the outlook. */
  lemma OutlookNeverLess(s: System, a: Action, product: Product)
    requires Enabled(s, a) && LiveInv(s) && AtLeast(a, 0)
    ensures Outlook(Next(s, a), product) >= Outlook(s, product)
  {
    var s' := Next(s, a);
    StepGrows(s, a);
    forall i | 0 <= i < |s.orders| ensures Prospect(s', product, i) >= Prospect(s, product, i) {
      ProspectNeverLess(s, a, product, i);
    }
    forall i | |s.orders| <= i < |s'.orders| ensures Prospect(s', product, i) == 0 {
      NewProspect(s, a, product, i);
    }
    OutlookGrows(s, s', product, |s'.orders|);
  }

  lemma PathStepOutlook(states: seq<System>, actions: seq<Action>, s: System, s': System, k: nat, product: Product)
    requires Path(states, actions, 0, s, s') && LiveInv(s) && k < |actions|
    ensures Outlook(states[k + 1], product) >= Outlook(states[k], product)
  {
    PathLive(states, actions, 0, s, s', k);
    assert IsStep(states, actions, k) && AtLeast(actions[k], 0);
    OutlookNeverLess(states[k], actions[k], product);
  }

  lemma {:induction false} PathOutlook(states: seq<System>, actions: seq<Action>, s: System, s': System, k: nat, product: Product)
    requires Path(states, actions, 0, s, s') && LiveInv(s) && k <= |actions|
    ensures Outlook(states[k], product) >= Outlook(s, product)
  {
    if k > 0 {
      PathOutlook(states, actions, s, s', k - 1, product);
      PathStepOutlook(states, actions, s, s', k - 1, product);
    }
  }

  // ------------------------------------------------ the outlook and the stranded

  /** Ids of the orders that passed and were not VALIDATED. */
  ghost function StrandedIds(s: System): set<string>
  {
    InventoryPassed(s.validations) - ValidatedIds(s)
  }

  lemma CountedAtLeast(s: System, product: Product, i: nat)
    requires Inv(s) && i < |s.orders|
    ensures Counted(s.orders[i].value, product, StrandedIds(s)) >= Prospect(s, product, i)
  {
    if IsOf(s, i, product) {
      if i !in s.inventory { NotPassedYet(s, i); }
      if s.orders[i].value.id in ValidatedIds(s) { ValidatedCanApprove(s, i); }
    }
  }

  lemma {:induction false} QuantityAtLeastOutlook(s: System, product: Product, ids: set<string>, n: nat)
    requires n <= |s.orders|
    requires forall i :: 0 <= i < n ==> Counted(s.orders[i].value, product, ids) >= Prospect(s, product, i)
    ensures QuantityOf(s.orders[..n], product, ids) >= OutlookUpTo(s, product, n)
  {
    if n > 0 {
      QuantityAtLeastOutlook(s, product, ids, n - 1);
      assert s.orders[..n][..n - 1] == s.orders[..n - 1];
    }
  }

  /** At least the outlook is stranded. */
  lemma StrandedAtLeastOutlook(s: System, product: Product)
    requires Inv(s)
    ensures Stranded(s, product) >= Outlook(s, product)
  {
    forall i | 0 <= i < |s.orders| ensures Counted(s.orders[i].value, product, StrandedIds(s)) >= Prospect(s, product, i) {
      CountedAtLeast(s, product, i);
    }
    QuantityAtLeastOutlook(s, product, StrandedIds(s), |s.orders|);
    assert s.orders[..|s.orders|] == s.orders;
  }

  /** In every continuation by orders of non-negative quantity at least the outlook is stranded. */
  lemma OutlookBounds(s: System, t: System, product: Product)
    requires LiveInv(s) && Reaches(0, s, t)
    ensures LiveInv(t) && Stranded(t, product) >= Outlook(s, product)
  {
    var states, actions :| Path(states, actions, 0, s, t);
    PathOutlook(states, actions, s, t, |actions|, product);
    ReachesLive(0, s, t);
    StrandedAtLeastOutlook(t, product);
  }

  lemma SafeOutlook(s: System, product: Product)
    requires LiveInv(s) && Outlook(s, product) >= 0
    ensures !CanOversell(s, product)
  {
    forall t | Reaches(0, s, t) ensures !Oversold(t, product) {
      OutlookBounds(s, t, product);
      ReservedIsSoldOrStranded(t, product);
    }
  }

  // ----------------------------------------------------- when all is played out

  ghost predicate IsValidated(s: System, i: nat)
    requires i < |s.orders|
  {
    Agg.HasState(Published(s, s.orders[i].value.id), VALIDATED)
  }

  /** No negative order is left to be taken, and what may be VALIDATED has been. */
  ghost predicate PlayedOut(s: System, product: Product, i: nat)
    requires i < |s.orders|
  {
    IsOf(s, i, product) ==>
      && (i in s.inventory || s.orders[i].value.quantity >= 0)
      && (HasPassed(s, i) && CanApprove(s, i) ==> IsValidated(s, i))
  }

  lemma CountedExactly(s: System, product: Product, i: nat)
    requires Inv(s) && i < |s.orders| && PlayedOut(s, product, i)
    ensures Counted(s.orders[i].value, product, StrandedIds(s)) == Prospect(s, product, i)
  {
    if IsOf(s, i, product) {
      if i !in s.inventory { NotPassedYet(s, i); }
      if s.orders[i].value.id in ValidatedIds(s) { ValidatedCanApprove(s, i); }
    }
  }

  lemma {:induction false} QuantityIsOutlook(s: System, product: Product, ids: set<string>, n: nat)
    requires n <= |s.orders|
    requires forall i :: 0 <= i < n ==> Counted(s.orders[i].value, product, ids) == Prospect(s, product, i)
    ensures QuantityOf(s.orders[..n], product, ids) == OutlookUpTo(s, product, n)
  {
    if n > 0 {
      QuantityIsOutlook(s, product, ids, n - 1);
      assert s.orders[..n][..n - 1] == s.orders[..n - 1];
    }
  }

  /** Then exactly the outlook is stranded. */
  lemma StrandedIsOutlook(s: System, product: Product)
    requires Inv(s) && forall i :: 0 <= i < |s.orders| ==> PlayedOut(s, product, i)
    ensures Stranded(s, product) == Outlook(s, product)
  {
    forall i | 0 <= i < |s.orders| ensures Counted(s.orders[i].value, product, StrandedIds(s)) == Prospect(s, product, i) {
      CountedExactly(s, product, i);
    }
    QuantityIsOutlook(s, product, StrandedIds(s), |s.orders|);
    assert s.orders[..|s.orders|] == s.orders;
  }

  /** A complete view that can be approved has been. */
  lemma ApprovedIsValidated(s: System, i: nat, vs: seq<Stamped<OrderValidation>>)
    requires Inv(s) && IsCreated(s, i) && i in s.aggOrders
    requires Seen(s, s.orders[i].value.id) == vs && Agg.Approved(vs, [s.orders[i]])
    ensures IsValidated(s, i)
  {
    var id := s.orders[i].value.id;
    OneOrderSeen(s, i);
    assert AggregatorView(s, id);
    Agg.Decision(Agg.ForKey(s.aggLog, id));
  }

  lemma RestSeesAll(s: System, i: nat)
    requires LiveInv(s) && AtRest(s) && IsCreated(s, i) && HasPassed(s, i)
    ensures |Seen(s, s.orders[i].value.id)| == 3 && i in s.aggOrders
  {
    var id := s.orders[i].value.id;
    RestMeansConsumed(s);
    PassedIn(s.validations, id);
    var k :| 0 <= k < |s.validations| && s.validations[k].value == OrderValidation(id, INVENTORY_CHECK, PASS);
    assert IsVerdictOn(s.validations[k], id, INVENTORY_CHECK);
    forall check ensures VerdictDelivered(s, id, check) {
      assert HasAnswer(s, id, check);
      var j :| 0 <= j < |s.validations| && IsVerdictOn(s.validations[j], id, check);
      assert j in s.aggVerdicts;
    }
    ThreeChecksSeen(s, id);
  }

  lemma RestIsPlayedOut(s: System, product: Product, i: nat)
    requires LiveInv(s) && AtRest(s) && i < |s.orders|
    ensures PlayedOut(s, product, i)
  {
    RestMeansConsumed(s);
    if IsOf(s, i, product) && HasPassed(s, i) && CanApprove(s, i) {
      var vs :| Completes(s, i, vs) && Agg.Approved(vs, [s.orders[i]]);
      RestSeesAll(s, i);
      ApprovedIsValidated(s, i, vs);
    }
  }

  /** At rest exactly the outlook is stranded. */
  lemma RestOutlook(s: System, product: Product)
    requires LiveInv(s) && AtRest(s)
    ensures Stranded(s, product) == Outlook(s, product)
  {
    forall i | 0 <= i < |s.orders| ensures PlayedOut(s, product, i) {
      RestIsPlayedOut(s, product, i);
    }
    StrandedIsOutlook(s, product);
  }

  /** What is stranded at rest is never lowered again by orders of non-negative quantity. */
  lemma StrandedNeverLess(states: seq<System>, actions: seq<Action>, k: nat, t: System, product: Product)
    requires IsRun(states, actions) && k < |states| && AtRest(states[k]) && Reaches(0, states[k], t)
    ensures Stranded(t, product) >= Stranded(states[k], product)
  {
    RunLive(states, actions, k);
    RestOutlook(states[k], product);
    OutlookBounds(states[k], t, product);
  }
}
