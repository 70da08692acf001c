/**
 The long-poll view of OrdersService: a GET is answered from the materialized view when the view
 holds an order its filter accepts, and is otherwise parked until an update of the view completes it.
 */
module OrdersView {
  import opened Options
  import opened Orders

  /** GET /orders/{id} takes any order, GET /orders/{id}/validated only a decided one. */
  datatype Filter = AnyOrder | Decided

  predicate Accepts(filter: Filter, order: Order)
  {
    filter == Decided ==> order.state == VALIDATED || order.state == FAILED
  }

  /** Asynchronous responses are completed once; a later resume has no effect. */
  datatype Response = Waiting | Resumed(order: Order) | TimedOut

  datatype FilteredResponse = FilteredResponse(request: nat, filter: Filter)

  /** What the store look-up gave: the store may not be ready, the order may be missing. */
  datatype Lookup = NotReady | Read(found: Option<Order>)

  datatype State = State(
    view: map<string, Order>,
    outstanding: map<string, FilteredResponse>,
    responses: map<nat, Response>,
    asked: map<nat, (string, Filter)>,  // what each request asked for
    held: set<(string, Order)>)         // everything the view has ever held

  const EMPTY := State(map[], map[], map[], map[], {})

  datatype Action =
    | Update(id: string, order: Order)
    | Fetch(id: string, request: nat, filter: Filter, lookup: Lookup)
    | Timeout(request: nat)

  // ------------------------------------------------------------------- steps

  function Resume(responses: map<nat, Response>, request: nat, order: Order): map<nat, Response>
  {
    if request in responses && responses[request].Waiting? then responses[request := Resumed(order)] else responses
  }

  /** The request is parked: nothing was found, or not what the filter accepts. */
  predicate Parks(filter: Filter, lookup: Lookup)
  {
    lookup.NotReady? || lookup.found.None? || !Accepts(filter, lookup.found.value)
  }

  /** Requests are new; an order read is one the view has held, perhaps not the one it holds now. */
  predicate Enabled(s: State, a: Action)
  {
    match a
    case Update(_, _) => true
    case Fetch(id, r, _, lookup) =>
      r !in s.responses && (lookup.Read? && lookup.found.Some? ==> (id, lookup.found.value) in s.held)
    case Timeout(r) => r in s.responses
  }

  function Completed(s: State, id: string, order: Order): map<nat, Response>
  {
    if id in s.outstanding && Accepts(s.outstanding[id].filter, order)
    then Resume(s.responses, s.outstanding[id].request, order) else s.responses
  }

  function Next(s: State, a: Action): State
    requires Enabled(s, a)
  {
    match a
    case Update(id, order) =>
      s.(view := s.view[id := order], held := s.held + {(id, order)}, responses := Completed(s, id, order))
    case Fetch(id, r, filter, lookup) =>
      var s' := s.(asked := s.asked[r := (id, filter)]);
      if Parks(filter, lookup)
      then s'.(outstanding := s.outstanding[id := FilteredResponse(r, filter)], responses := s.responses[r := Waiting])
      else s'.(responses := s.responses[r := Resumed(lookup.found.value)])
    case Timeout(r) =>
      if s.responses[r].Waiting? then s.(responses := s.responses[r := TimedOut]) else s
  }

  ghost predicate IsRun(states: seq<State>, actions: seq<Action>)
  {
    && |states| == |actions| + 1
    && states[0] == EMPTY
    && forall k :: 0 <= k < |actions| ==> Enabled(states[k], actions[k]) && states[k + 1] == Next(states[k], actions[k])
  }

  // ------------------------------------------------------------------ safety

  /** Books in order: every request is known, and answers fit what was asked. */
  ghost predicate Sound(s: State)
  {
    && s.asked.Keys == s.responses.Keys
    && (forall id :: id in s.view ==> (id, s.view[id]) in s.held)
    && (forall id :: id in s.outstanding ==>
          s.outstanding[id].request in s.asked && s.asked[s.outstanding[id].request] == (id, s.outstanding[id].filter))
    && (forall r :: r in s.responses && s.responses[r].Resumed? ==>
          Accepts(s.asked[r].1, s.responses[r].order) && (s.asked[r].0, s.responses[r].order) in s.held)
  }

  lemma StepSound(s: State, a: Action)
    requires Enabled(s, a) && Sound(s)
    ensures Sound(Next(s, a))
  {
  }

  lemma {:induction false} RunSound(states: seq<State>, actions: seq<Action>, k: nat)
    requires IsRun(states, actions) && k < |states|
    ensures Sound(states[k])
  {
    if k > 0 {
      RunSound(states, actions, k - 1);
      StepSound(states[k - 1], actions[k - 1]);
    }
  }

  /** In every run a completed GET carries an order the view has held and its filter accepts: never CREATED for /validated. */
  lemma AnswersAreGood(states: seq<State>, actions: seq<Action>, k: nat, r: nat)
    requires IsRun(states, actions) && k < |states|
    requires r in states[k].responses && states[k].responses[r].Resumed?
    ensures r in states[k].asked
    ensures (states[k].asked[r].0, states[k].responses[r].order) in states[k].held
    ensures states[k].asked[r].1 == Decided ==>
              states[k].responses[r].order.state == VALIDATED || states[k].responses[r].order.state == FAILED
  {
    RunSound(states, actions, k);
  }

  // ----------------------------------------------------------------- answers

  /** GET /orders/{id} takes any order, GET /orders/{id}/validated one that is VALIDATED or FAILED. */
  ghost predicate Takes(filter: Filter, order: Order)
  {
    filter == AnyOrder || order.state == VALIDATED || order.state == FAILED
  }

  /** An update answers the request waiting for its id with the order, if the request takes it, and no other. */
  lemma UpdateAnswers(s: State, id: string, order: Order, r: nat)
    requires r in s.responses
    ensures var responses := Next(s, Update(id, order)).responses;
            && responses.Keys == s.responses.Keys
            && responses[r] ==
               if s.responses[r].Waiting? && id in s.outstanding && s.outstanding[id].request == r &&
                  Takes(s.outstanding[id].filter, order)
               then Resumed(order) else s.responses[r]
  {
  }

  /** A GET that finds an order it takes is answered with it at once; otherwise it waits. No other response changes. */
  lemma FetchAnswers(s: State, id: string, r: nat, filter: Filter, lookup: Lookup)
    requires Enabled(s, Fetch(id, r, filter, lookup))
    ensures var s' := Next(s, Fetch(id, r, filter, lookup));
            var answered := lookup.Read? && lookup.found.Some? && Takes(filter, lookup.found.value);
            && s'.responses == s.responses[r := if answered then Resumed(lookup.found.value) else Waiting]
            && s'.outstanding == if answered then s.outstanding else s.outstanding[id := FilteredResponse(r, filter)]
  {
  }

  /** A time-out ends a waiting request and nothing else. */
  lemma TimeoutEnds(s: State, r: nat, other: nat)
    requires r in s.responses && other in s.responses
    ensures var responses := Next(s, Timeout(r)).responses;
            && responses.Keys == s.responses.Keys
            && responses[other] == if other == r && s.responses[r].Waiting? then TimedOut else s.responses[other]
  {
  }

  lemma StepTimesOut(s: State, a: Action, r: nat)
    requires Enabled(s, a) && r in Next(s, a).responses && Next(s, a).responses[r].TimedOut? && a != Timeout(r)
    ensures r in s.responses && s.responses[r].TimedOut?
  {
  }

  /** A response is timed out only by a time-out of its request. */
  lemma {:induction false} OnlyTimeoutsTimeOut(states: seq<State>, actions: seq<Action>, k: nat, r: nat) returns (i: nat)
    requires IsRun(states, actions) && k < |states| && r in states[k].responses && states[k].responses[r].TimedOut?
    ensures i < k && actions[i] == Timeout(r)
  {
    assert k > 0;
    i := k - 1;
    if actions[i] != Timeout(r) {
      StepTimesOut(states[i], actions[i], r);
      i := OnlyTimeoutsTimeOut(states, actions, i, r);
    }
  }

  // ------------------------------------------------------------- wake-ups

  /** The request waits although the view holds what it asked for, or no update can reach it any more. */
  ghost predicate Lost(s: State, r: nat)
    requires r in s.asked
  {
    var (id, filter) := s.asked[r];
    || (id in s.view && Accepts(filter, s.view[id]))
    || id !in s.outstanding || s.outstanding[id].request != r
  }

  ghost predicate NoneLost(s: State)
    requires Sound(s)
  {
    forall r :: r in s.responses && s.responses[r].Waiting? ==> !Lost(s, r)
  }

  ghost predicate Pending(s: State, id: string)
  {
    id in s.outstanding && s.outstanding[id].request in s.responses && s.responses[s.outstanding[id].request].Waiting?
  }

  /** Parking is harmful when the view already holds an acceptable order, or when it displaces a waiting request. */
  ghost predicate Harmful(s: State, a: Action)
  {
    a.Fetch? && Parks(a.filter, a.lookup) && ((a.id in s.view && Accepts(a.filter, s.view[a.id])) || Pending(s, a.id))
  }

  lemma KeptWaiting(s: State, a: Action, r: nat)
    requires Enabled(s, a) && Sound(s) && NoneLost(s) && !Harmful(s, a)
    requires r in Next(s, a).responses && Next(s, a).responses[r].Waiting?
    ensures r in Next(s, a).asked && !Lost(Next(s, a), r)
  {
  }

  /** A step from a state where no wake-up is lost loses one if and only if it parks harmfully. */
  lemma LosesIff(s: State, a: Action)
    requires Enabled(s, a) && Sound(s) && NoneLost(s)
    ensures Sound(Next(s, a)) && (NoneLost(Next(s, a)) <==> !Harmful(s, a))
  {
    StepSound(s, a);
    var s' := Next(s, a);
    if Harmful(s, a) {
      if Pending(s, a.id) {
        var r := s.outstanding[a.id].request;
        assert s'.responses[r].Waiting? && Lost(s', r);
      } else {
        assert s'.responses[a.request].Waiting? && Lost(s', a.request);
      }
    } else {
      forall r | r in s'.responses && s'.responses[r].Waiting? ensures !Lost(s', r) {
        KeptWaiting(s, a, r);
      }
    }
  }

  ghost predicate NoneLostIn(s: State)
  {
    Sound(s) && NoneLost(s)
  }

  /** In every run, no request is lost in any state up to k exactly when no step before k parked harmfully. */
  lemma {:induction false} RunLosesIff(states: seq<State>, actions: seq<Action>, k: nat)
    requires IsRun(states, actions) && k < |states|
    ensures (forall i :: 0 <= i <= k ==> NoneLostIn(states[i])) <==> (forall i :: 0 <= i < k ==> !Harmful(states[i], actions[i]))
  {
    RunSound(states, actions, k);
    if k > 0 {
      RunLosesIff(states, actions, k - 1);
      if NoneLostIn(states[k - 1]) { LosesIff(states[k - 1], actions[k - 1]); }
    }
  }

  /**
   In a run without harmful parking: a waiting GET is answered by the first update of its id that it
   takes, with that order.
   */
  lemma WaitingIsAnswered(states: seq<State>, actions: seq<Action>, k: nat, r: nat)
    requires IsRun(states, actions) && k < |actions| && actions[k].Update?
    requires forall i :: 0 <= i < k ==> !Harmful(states[i], actions[i])
    requires r in states[k].responses && states[k].responses[r].Waiting? && r in states[k].asked
    requires states[k].asked[r].0 == actions[k].id && Takes(states[k].asked[r].1, actions[k].order)
    ensures r in states[k + 1].responses && states[k + 1].responses[r] == Resumed(actions[k].order)
  {
    RunLosesIff(states, actions, k);
    assert NoneLostIn(states[k]);
    UpdateAnswers(states[k], actions[k].id, actions[k].order, r);
  }

  /** Look-up and registration in one step: the order read is the one the view holds now. */
  ghost predicate Atomic(s: State, a: Action)
  {
    a.Fetch? ==> a.lookup == Read(if a.id in s.view then Some(s.view[a.id]) else None) && !Pending(s, a.id)
  }

  /**
   In every run whose look-ups are atomic and whose ids have at most one waiting request each, no
   waiting request has an order in the view that it would accept.
   */
  lemma NoLostWakeUps(states: seq<State>, actions: seq<Action>, k: nat)
    requires IsRun(states, actions) && k < |states|
    requires forall i :: 0 <= i < |actions| ==> Atomic(states[i], actions[i])
    ensures NoneLostIn(states[k])
  {
    forall i | 0 <= i < k ensures !Harmful(states[i], actions[i]) {
      assert Atomic(states[i], actions[i]);
    }
    RunLosesIff(states, actions, k);
  }

  /** Without atomicity: the order is validated between look-up and registration, and the GET waits for nothing. */
  lemma LostWakeUpExample(order: Order, request: nat)
    requires order.state == VALIDATED
    ensures var s1 := Next(EMPTY, Update(order.id, order));
            var park := Fetch(order.id, request, Decided, Read(None));
            Enabled(s1, park) && Next(s1, park).responses[request].Waiting? && Lost(Next(s1, park), request)
  {
  }

  // ------------------------------------------------------------- the service

  class Service {
    var view: map<string, Order>
    var outstandingRequests: map<string, FilteredResponse>
    var responses: map<nat, Response>
    ghost var asked: map<nat, (string, Filter)>
    ghost var held: set<(string, Order)>

    ghost function Contents(): State
      reads this
    {
      State(view, outstandingRequests, responses, asked, held)
    }

    ghost predicate Valid()
      reads this
    {
      Sound(Contents())
    }

    constructor ()
      ensures Valid() && Contents() == EMPTY
    {
      view, outstandingRequests, responses, asked, held := map[], map[], map[], map[], {};
    }

    /** The table is updated, then the stream of its changes notifies the waiting request. */
    method OnOrder(id: string, order: Order)
      requires Valid()
      modifies this
      ensures Valid() && Contents() == Next(old(Contents()), Update(id, order))
    {
      StepSound(Contents(), Update(id, order));
      view := view[id := order];
      held := held + {(id, order)};
      MaybeCompleteLongPollGet(id, order);
    }

    method MaybeCompleteLongPollGet(id: string, order: Order)
      modifies this`responses
      ensures responses == Completed(old(Contents()), id, order)
      ensures id in outstandingRequests && outstandingRequests[id].request in old(responses) &&
              old(responses)[outstandingRequests[id].request].Waiting? && Takes(outstandingRequests[id].filter, order) ==>
              responses == old(responses)[outstandingRequests[id].request := Resumed(order)]
    {
      if id in outstandingRequests {
        var callback := outstandingRequests[id];
        if Accepts(callback.filter, order) {
          responses := Resume(responses, callback.request, order);
        }
      }
    }

    method FetchLocal(id: string, request: nat, filter: Filter, lookup: Lookup)
      requires Valid() && Enabled(Contents(), Fetch(id, request, filter, lookup))
      modifies this
      ensures Valid() && Contents() == Next(old(Contents()), Fetch(id, request, filter, lookup))
    {
      StepSound(Contents(), Fetch(id, request, filter, lookup));
      asked := asked[request := (id, filter)];
      match lookup {
        case Read(found) =>
          if found.None? || !Accepts(filter, found.value) {
            outstandingRequests := outstandingRequests[id := FilteredResponse(request, filter)];
            responses := responses[request := Waiting];
          } else {
            responses := responses[request := Resumed(found.value)];
          }
        case NotReady =>
          outstandingRequests := outstandingRequests[id := FilteredResponse(request, filter)];
          responses := responses[request := Waiting];
      }
    }
  }
}
