/**
 The orders topic itself.  When the clients submit only CREATED orders, the decided records it
 holds for an id are exactly what the aggregator published for that id, in order.
 */
module PipelineTopic {
  import opened Orders
  import opened OrderPipeline
  import opened PipelineInvariant
  import opened PipelineTheorems
  import Agg = ValidationsAggregator

  ghost predicate SubmitsCreated(actions: seq<Action>)
  {
    forall k :: 0 <= k < |actions| && actions[k].Submit? ==> actions[k].order.value.state == CREATED
  }

  /** The records of an id on the topic that are not CREATED. */
  function DecidedOn(orders: seq<Stamped<Order>>, id: string): seq<Order>
  {
    if orders == [] then []
    else
      var n := |orders| - 1;
      DecidedOn(orders[..n], id) +
      (if orders[n].value.state != CREATED && orders[n].value.id == id then [orders[n].value] else [])
  }

  lemma DecidedAppend(orders: seq<Stamped<Order>>, o: Stamped<Order>, id: string)
    ensures DecidedOn(orders + [o], id) ==
            DecidedOn(orders, id) + (if o.value.state != CREATED && o.value.id == id then [o.value] else [])
  {
    assert (orders + [o])[..|orders|] == orders;
  }

  ghost predicate DecidesOnly(out: seq<Order>, key: string)
  {
    forall i :: 0 <= i < |out| ==> out[i].state != CREATED && out[i].id == key
  }

  lemma {:induction false} DecidedAppendAll(orders: seq<Stamped<Order>>, out: seq<Order>, ts: int, key: string, id: string)
    requires DecidesOnly(out, key)
    ensures DecidedOn(orders + StampAll(out, ts), id) == DecidedOn(orders, id) + (if id == key then out else [])
  {
    if out == [] {
      assert orders + StampAll(out, ts) == orders;
    } else {
      var n := |out| - 1;
      var front := orders + StampAll(out[..n], ts);
      assert orders + StampAll(out, ts) == front + [Stamped(ts, out[n])];
      DecidedAppendAll(orders, out[..n], ts, key, id);
      DecidedAppend(front, Stamped(ts, out[n]), id);
      assert out == out[..n] + [out[n]];
    }
  }

  lemma {:induction false} CreatedOfKey(log: seq<Agg.Event>, id: string)
    ensures forall n :: 0 <= n < |Agg.Created(Agg.ForKey(log, id))| ==> Agg.Created(Agg.ForKey(log, id))[n].value.id == id
  {
    if log != [] {
      var n := |log| - 1;
      CreatedOfKey(log[..n], id);
      var before := Agg.ForKey(log[..n], id);
      if Agg.KeyOf(log[n]) == id {
        Agg.RunAppend(before, log[n]);
      } else {
        assert Agg.ForKey(log, id) == before;
      }
    }
  }

  /** Everything published for an id carries that id and a decision. */
  lemma PublishedDecides(log: seq<Agg.Event>, id: string)
    ensures DecidesOnly(Agg.Published(Agg.ForKey(log, id)), id)
  {
    var events := Agg.ForKey(log, id);
    var out, created := Agg.Published(events), Agg.Created(events);
    Agg.Decided(events);
    CreatedOfKey(log, id);
    forall i | 0 <= i < |out| ensures out[i].state != CREATED && out[i].id == id {
      assert Agg.DecidedAs(out[i], created, VALIDATED) || Agg.DecidedAs(out[i], created, FAILED);
    }
  }

  lemma LaterDecides(before: seq<Order>, out: seq<Order>, key: string)
    requires DecidesOnly(before + out, key)
    ensures DecidesOnly(out, key)
  {
    forall i | 0 <= i < |out| ensures out[i].state != CREATED && out[i].id == key {
      assert (before + out)[|before| + i] == out[i];
    }
  }

  lemma DecisionsDecide(s: System, e: Agg.Event)
    ensures DecidesOnly(Decisions(s, e), Agg.KeyOf(e))
  {
    var key := Agg.KeyOf(e);
    var events := Agg.ForKey(s.aggLog, key);
    PublishedDecides(s.aggLog + [e], key);
    Agg.ForKeyAppend(s.aggLog, e, key);
    Agg.RunAppend(events, e);
    LaterDecides(Agg.Published(events), Decisions(s, e), key);
  }

  ghost predicate HoldsPublished(s: System, id: string)
  {
    DecidedOn(s.orders, id) == Published(s, id)
  }

  lemma AggregateHolds(s: System, e: Agg.Event, ts: int, s': System, id: string)
    requires HoldsPublished(s, id)
    requires s'.aggLog == s.aggLog + [e] && s'.orders == s.orders + StampAll(Decisions(s, e), ts)
    ensures HoldsPublished(s', id)
  {
    ViewAfter(s, s', e, id);
    DecisionsDecide(s, e);
    DecidedAppendAll(s.orders, Decisions(s, e), ts, Agg.KeyOf(e), id);
  }

  lemma StepHolds(s: System, a: Action, s': System, id: string)
    requires Enabled(s, a) && s' == Next(s, a) && (a.Submit? ==> a.order.value.state == CREATED) && HoldsPublished(s, id)
    ensures HoldsPublished(s', id)
  {
    match a {
      case Submit(o) => DecidedAppend(s.orders, o, id);
      case AggregateOrder(i, ts) => AggregateHolds(s, Agg.OrderArrived(s.orders[i]), ts, s', id);
      case AggregateVerdict(j, ts) => AggregateHolds(s, Agg.VerdictArrived(s.validations[j]), ts, s', id);
      case _ =>
    }
  }

  ghost predicate HoldsAllPublished(s: System)
  {
    forall id :: HoldsPublished(s, id)
  }

  lemma InitHolds(states: seq<System>, actions: seq<Action>)
    requires IsRun(states, actions)
    ensures HoldsAllPublished(states[0])
  {
  }

  lemma StepHoldsAll(s: System, a: Action, s': System)
    requires Enabled(s, a) && s' == Next(s, a) && (a.Submit? ==> a.order.value.state == CREATED) && HoldsAllPublished(s)
    ensures HoldsAllPublished(s')
  {
    forall id ensures HoldsPublished(s', id) {
      assert HoldsPublished(s, id);
      StepHolds(s, a, s', id);
    }
  }

  lemma RunStepHolds(states: seq<System>, actions: seq<Action>, k: nat)
    requires IsRun(states, actions) && k < |actions| && HoldsAllPublished(states[k])
    requires actions[k].Submit? ==> actions[k].order.value.state == CREATED
    ensures HoldsAllPublished(states[k + 1])
  {
    RunStep(states, actions, k);
    StepHoldsAll(states[k], actions[k], states[k + 1]);
  }

  /** In every state of such a run the topic holds, for every id, exactly what was published. */
  lemma {:induction false} TopicIsPublished(states: seq<System>, actions: seq<Action>, k: nat)
    requires IsRun(states, actions) && SubmitsCreated(actions) && k < |states|
    ensures HoldsAllPublished(states[k])
  {
    InitHolds(states, actions);
    var n := 0;
    while n < k
      invariant n <= k && HoldsAllPublished(states[n])
    {
      RunStepHolds(states, actions, n);
      n := n + 1;
    }
  }

  lemma {:induction false} OnTopic(orders: seq<Stamped<Order>>, i: nat)
    requires i < |orders| && orders[i].value.state != CREATED
    ensures orders[i].value in DecidedOn(orders, orders[i].value.id)
  {
    var n := |orders| - 1;
    if i < n { OnTopic(orders[..n], i); }
  }

  /** The topic never holds a VALIDATED and a FAILED record of one id. */
  lemma TopicNeverHoldsBoth(states: seq<System>, actions: seq<Action>, k: nat, i: nat, j: nat)
    requires IsRun(states, actions) && SubmitsCreated(actions) && k < |states|
    requires i < |states[k].orders| && j < |states[k].orders|
    requires states[k].orders[i].value.state == VALIDATED && states[k].orders[j].value.state == FAILED
    ensures states[k].orders[i].value.id != states[k].orders[j].value.id
  {
    var orders, id := states[k].orders, states[k].orders[i].value.id;
    TopicIsPublished(states, actions, k);
    assert HoldsPublished(states[k], id);
    NeverBothDecisions(states, actions, k, id);
    OnTopic(orders, i);
    OnTopic(orders, j);
  }

  /** It holds at most one VALIDATED record of an id. */
  lemma TopicHoldsOneValidated(states: seq<System>, actions: seq<Action>, k: nat, id: string)
    requires IsRun(states, actions) && SubmitsCreated(actions) && k < |states|
    ensures Agg.HowMany(DecidedOn(states[k].orders, id), VALIDATED) <= 1
  {
    TopicIsPublished(states, actions, k);
    assert HoldsPublished(states[k], id);
    ValidatedAtMostOnce(states, actions, k, id);
  }
}
