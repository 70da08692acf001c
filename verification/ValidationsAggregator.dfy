/**
 ValidationsAggregatorService: a count of three PASS verdicts is joined back to the CREATED order
 and publishes it VALIDATED; any FAIL verdict joined to the order publishes it FAILED.
 All streams are keyed by order id, so one key is described at a time.
 */
module ValidationsAggregator {
  import opened Options
  import opened Orders
  import opened SessionWindows
  import opened PassCounts

  /** A record delivered to the service for one order id. */
  datatype Event = OrderArrived(order: Stamped<Order>) | VerdictArrived(verdict: Verdict)

  datatype KeyState = KeyState(
    counts: seq<Count>,           // session store of PASS counts
    passes: seq<Stamped<nat>>,    // left buffer of the join that validates
    fails: seq<Verdict>,          // left buffer of the join that fails
    orders: seq<Stamped<Order>>,  // right buffer of both joins: the CREATED orders
    failed: Option<Order>)        // the table that collapses failures to one order

  const EMPTY := KeyState([], [], [], [], None)

  // ------------------------------------------------------------ the topology

  /** Values of a join buffer within the join window of t. */
  function Matching<T>(buffer: seq<Stamped<T>>, t: int): (r: seq<T>)
    ensures |r| <= |buffer|
  {
    if buffer == [] then []
    else (if Close(buffer[0].ts, t) then [buffer[0].value] else []) + Matching(buffer[1..], t)
  }

  function Validate(orders: seq<Order>): seq<Order>
  {
    seq(|orders|, i requires 0 <= i < |orders| => orders[i].(state := VALIDATED))
  }

  function Repeat(order: Order, n: nat): seq<Order>
  {
    seq(n, i => order)
  }

  /** The table keeps the first failed order of the key and forwards it on every update. */
  function Reduce(table: Option<Order>, joined: seq<Order>): (r: (Option<Order>, seq<Order>))
    ensures |r.1| == |joined|
    decreases |joined|
  {
    if joined == [] then (table, [])
    else
      var kept := if table.Some? then table.value else joined[0].(state := FAILED);
      var (table', out) := Reduce(Some(kept), joined[1..]);
      (table', [kept] + out)
  }

  /** The updated count, if it is three or more. */
  function Completion(s: seq<Count>, v: Verdict): (r: seq<Stamped<nat>>)
    ensures if Emission(s, v).value >= 3 then r == [Emission(s, v)] else r == []
  {
    if Emission(s, v).value >= NUMBER_OF_RULES then [Emission(s, v)] else []
  }

  function OnVerdict(k: KeyState, v: Verdict): (KeyState, seq<Order>)
  {
    var counted := Completion(k.counts, v);
    var valid := if counted == [] then [] else Validate(Matching(k.orders, counted[0].ts));
    var failing := if v.value.result == FAIL then [v] else [];
    var (table, fail) := Reduce(k.failed, if failing == [] then [] else Matching(k.orders, v.ts));
    (KeyState(CountsAfter(k.counts, v), k.passes + counted, k.fails + failing, k.orders, table), valid + fail)
  }

  function OnOrder(k: KeyState, o: Stamped<Order>): (KeyState, seq<Order>)
  {
    if o.value.state != CREATED then (k, [])
    else
      var valid := Validate(Repeat(o.value, |Matching(k.passes, o.ts)|));
      var (table, fail) := Reduce(k.failed, Repeat(o.value, |Matching(k.fails, o.ts)|));
      (k.(orders := k.orders + [o], failed := table), valid + fail)
  }

  function Step(k: KeyState, e: Event): (KeyState, seq<Order>)
  {
    match e
    case OrderArrived(o) => OnOrder(k, o)
    case VerdictArrived(v) => OnVerdict(k, v)
  }

  function Run(events: seq<Event>): KeyState
  {
    if events == [] then EMPTY else Step(Run(events[..|events| - 1]), events[|events| - 1]).0
  }

  /** Everything the service writes to the orders topic for the key. */
  function Published(events: seq<Event>): seq<Order>
  {
    if events == [] then []
    else
      var n := |events| - 1;
      Published(events[..n]) + Step(Run(events[..n]), events[n]).1
  }

  // ------------------------------------------------------ what was delivered

  function Verdicts(events: seq<Event>): seq<Verdict>
  {
    if events == [] then []
    else
      var n := |events| - 1;
      Verdicts(events[..n]) + (if events[n].VerdictArrived? then [events[n].verdict] else [])
  }

  function Created(events: seq<Event>): seq<Stamped<Order>>
  {
    if events == [] then []
    else
      var n := |events| - 1;
      Created(events[..n]) +
      (if events[n].OrderArrived? && events[n].order.value.state == CREATED then [events[n].order] else [])
  }

  function Fails(vs: seq<Verdict>): seq<Verdict>
  {
    if vs == [] then []
    else
      var n := |vs| - 1;
      Fails(vs[..n]) + (if vs[n].value.result == FAIL then [vs[n]] else [])
  }

  /** The counts of three or more that the session store emits. */
  function Completions(vs: seq<Verdict>): seq<Stamped<nat>>
  {
    if vs == [] then []
    else
      var n := |vs| - 1;
      Completions(vs[..n]) + Completion(Counts(vs[..n]), vs[n])
  }

  /** Counts, completions and failures after one more verdict. */
  lemma BuffersAppend(vs: seq<Verdict>, v: Verdict)
    ensures Counts(vs + [v]) == CountsAfter(Counts(vs), v)
    ensures Completions(vs + [v]) == Completions(vs) + Completion(Counts(vs), v)
    ensures Fails(vs + [v]) == Fails(vs) + (if v.value.result == FAIL then [v] else [])
  {
  }

  ghost predicate Buffered(k: KeyState, vs: seq<Verdict>, created: seq<Stamped<Order>>)
  {
    && k.counts == Counts(vs)
    && k.passes == Completions(vs)
    && k.fails == Fails(vs)
    && k.orders == created
  }

  lemma BufferedAfterVerdict(k: KeyState, vs: seq<Verdict>, created: seq<Stamped<Order>>, v: Verdict)
    requires Buffered(k, vs, created)
    ensures Buffered(OnVerdict(k, v).0, vs + [v], created)
  {
  }

  /** Stores and buffers are determined by the verdicts and the CREATED orders, however they interleave. */
  lemma {:induction false} RunBuffers(events: seq<Event>)
    ensures Buffered(Run(events), Verdicts(events), Created(events))
  {
    if events != [] {
      var n := |events| - 1;
      RunBuffers(events[..n]);
      if events[n].VerdictArrived? {
        BufferedAfterVerdict(Run(events[..n]), Verdicts(events[..n]), Created(events[..n]), events[n].verdict);
        assert Created(events) == Created(events[..n]);
      } else {
        assert Verdicts(events) == Verdicts(events[..n]);
      }
    }
  }

  // ----------------------------------------------- what the joins publish

  ghost predicate HasState(out: seq<Order>, state: OrderState)
  {
    exists i :: 0 <= i < |out| && out[i].state == state
  }

  ghost predicate JoinsSome<L, R>(left: seq<Stamped<L>>, right: seq<Stamped<R>>)
  {
    exists i, j :: 0 <= i < |left| && 0 <= j < |right| && Close(left[i].ts, right[j].ts)
  }

  lemma {:induction false} MatchingNonEmpty<T>(buffer: seq<Stamped<T>>, t: int)
    ensures Matching(buffer, t) != [] <==> exists i :: 0 <= i < |buffer| && Close(buffer[i].ts, t)
    ensures forall x :: x in Matching(buffer, t) ==> exists i :: 0 <= i < |buffer| && buffer[i].value == x
  {
    if buffer != [] {
      MatchingNonEmpty(buffer[1..], t);
      assert forall i :: 0 < i < |buffer| ==> buffer[i] == buffer[1..][i - 1];
      if i :| 0 <= i < |buffer[1..]| && Close(buffer[1..][i].ts, t) {
        assert Close(buffer[i + 1].ts, t);
      }
      forall x | x in Matching(buffer, t) ensures exists i :: 0 <= i < |buffer| && buffer[i].value == x {
        if x in Matching(buffer[1..], t) {
          var i :| 0 <= i < |buffer[1..]| && buffer[1..][i].value == x;
          assert buffer[i + 1].value == x;
        } else {
          assert buffer[0].value == x;
        }
      }
    }
  }

  lemma JoinsSomeAppendLeft<L, R>(left: seq<Stamped<L>>, x: Stamped<L>, right: seq<Stamped<R>>)
    ensures JoinsSome(left + [x], right) <==> JoinsSome(left, right) || Matching(right, x.ts) != []
  {
    MatchingNonEmpty(right, x.ts);
    var left' := left + [x];
    if JoinsSome(left, right) {
      var i, j :| 0 <= i < |left| && 0 <= j < |right| && Close(left[i].ts, right[j].ts);
      assert Close(left'[i].ts, right[j].ts);
    }
    if j :| 0 <= j < |right| && Close(right[j].ts, x.ts) {
      assert Close(left'[|left|].ts, right[j].ts);
    }
  }

  lemma JoinsSomeAppendRight<L, R>(left: seq<Stamped<L>>, right: seq<Stamped<R>>, y: Stamped<R>)
    ensures JoinsSome(left, right + [y]) <==> JoinsSome(left, right) || Matching(left, y.ts) != []
  {
    MatchingNonEmpty(left, y.ts);
    var right' := right + [y];
    if JoinsSome(left, right) {
      var i, j :| 0 <= i < |left| && 0 <= j < |right| && Close(left[i].ts, right[j].ts);
      assert Close(left[i].ts, right'[j].ts);
    }
    if i :| 0 <= i < |left| && Close(left[i].ts, y.ts) {
      assert Close(left[i].ts, right'[|right|].ts);
    }
  }

  ghost predicate DecidedAs(published: Order, created: seq<Stamped<Order>>, state: OrderState)
  {
    exists j :: 0 <= j < |created| && published == created[j].value.(state := state)
  }

  /** Only CREATED orders of the key are ever published, with nothing but their state changed. */
  ghost predicate ComesFrom(out: seq<Order>, created: seq<Stamped<Order>>)
  {
    forall i :: 0 <= i < |out| ==> DecidedAs(out[i], created, VALIDATED) || DecidedAs(out[i], created, FAILED)
  }

  ghost predicate AllDecided(out: seq<Order>, created: seq<Stamped<Order>>, state: OrderState)
  {
    forall i :: 0 <= i < |out| ==> DecidedAs(out[i], created, state)
  }

  ghost predicate Among(orders: seq<Order>, created: seq<Stamped<Order>>)
  {
    forall x :: x in orders ==> exists j :: 0 <= j < |created| && created[j].value == x
  }

  lemma ValidateOut(joined: seq<Order>, created: seq<Stamped<Order>>)
    requires Among(joined, created)
    ensures AllDecided(Validate(joined), created, VALIDATED)
  {
    forall i | 0 <= i < |joined| ensures DecidedAs(Validate(joined)[i], created, VALIDATED) {
      assert joined[i] in joined;
    }
  }

  lemma {:induction false} ReduceOut(table: Option<Order>, joined: seq<Order>, created: seq<Stamped<Order>>)
    requires table.Some? ==> DecidedAs(table.value, created, FAILED)
    requires Among(joined, created)
    ensures var (table', out) := Reduce(table, joined);
            && AllDecided(out, created, FAILED)
            && (table'.Some? ==> DecidedAs(table'.value, created, FAILED))
    decreases |joined|
  {
    if joined != [] {
      var kept := if table.Some? then table.value else joined[0].(state := FAILED);
      assert joined[0] in joined;
      assert DecidedAs(kept, created, FAILED);
      assert forall x :: x in joined[1..] ==> x in joined;
      ReduceOut(Some(kept), joined[1..], created);
    }
  }

  lemma DecidedAsMore(o: Order, created: seq<Stamped<Order>>, created': seq<Stamped<Order>>, state: OrderState)
    requires DecidedAs(o, created, state) && created <= created'
    ensures DecidedAs(o, created', state)
  {
  }

  /** The record completes a join of a count of three with an order. */
  ghost predicate Validates(k: KeyState, e: Event)
  {
    match e
    case OrderArrived(o) => o.value.state == CREATED && Matching(k.passes, o.ts) != []
    case VerdictArrived(v) =>
      Completion(k.counts, v) != [] && Matching(k.orders, Completion(k.counts, v)[0].ts) != []
  }

  /** The record completes a join of a FAIL verdict with an order. */
  ghost predicate FailsNow(k: KeyState, e: Event)
  {
    match e
    case OrderArrived(o) => o.value.state == CREATED && Matching(k.fails, o.ts) != []
    case VerdictArrived(v) => v.value.result == FAIL && Matching(k.orders, v.ts) != []
  }

  lemma MatchingAmong(orders: seq<Stamped<Order>>, t: int, created: seq<Stamped<Order>>)
    requires orders <= created
    ensures Among(Matching(orders, t), created)
  {
    MatchingNonEmpty(orders, t);
    forall x | x in Matching(orders, t) ensures exists j :: 0 <= j < |created| && created[j].value == x {
      var i :| 0 <= i < |orders| && orders[i].value == x;
      assert created[i] == orders[i];
    }
  }

  lemma TwoParts(valid: seq<Order>, fail: seq<Order>, created: seq<Stamped<Order>>)
    requires AllDecided(valid, created, VALIDATED) && AllDecided(fail, created, FAILED)
    ensures ComesFrom(valid + fail, created)
    ensures HasState(valid + fail, VALIDATED) <==> valid != []
    ensures HasState(valid + fail, FAILED) <==> fail != []
  {
    var out := valid + fail;
    if valid != [] { assert out[0] == valid[0] && DecidedAs(valid[0], created, VALIDATED); }
    if fail != [] { assert out[|valid|] == fail[0] && DecidedAs(fail[0], created, FAILED); }
  }

  /** The orders a record joins in the first join and in the second. */
  function Joined(k: KeyState, e: Event): (seq<Order>, seq<Order>)
  {
    match e
    case OrderArrived(o) =>
      if o.value.state != CREATED then ([], [])
      else (Repeat(o.value, |Matching(k.passes, o.ts)|), Repeat(o.value, |Matching(k.fails, o.ts)|))
    case VerdictArrived(v) =>
      (if Completion(k.counts, v) == [] then [] else Matching(k.orders, Completion(k.counts, v)[0].ts),
       if v.value.result == FAIL then Matching(k.orders, v.ts) else [])
  }

  lemma StepParts(k: KeyState, e: Event)
    ensures var (valid, fail) := Joined(k, e);
            && Step(k, e).1 == Validate(valid) + Reduce(k.failed, fail).1
            && Step(k, e).0.failed == Reduce(k.failed, fail).0
            && (Validate(valid) != [] <==> Validates(k, e))
            && (fail != [] <==> FailsNow(k, e))
  {
  }

  lemma JoinedAmong(k: KeyState, e: Event, created: seq<Stamped<Order>>)
    requires k.orders <= created
    requires e.OrderArrived? && e.order.value.state == CREATED ==> e.order in created
    ensures Among(Joined(k, e).0, created) && Among(Joined(k, e).1, created)
  {
    match e {
      case OrderArrived(o) =>
        if o.value.state == CREATED {
          var j :| 0 <= j < |created| && created[j] == o;
        }
      case VerdictArrived(v) =>
        if Completion(k.counts, v) != [] { MatchingAmong(k.orders, Completion(k.counts, v)[0].ts, created); }
        MatchingAmong(k.orders, v.ts, created);
    }
  }

  /** The two parts of a step's output: what the first join validates, what the second fails. */
  lemma StepOutput(k: KeyState, e: Event, created: seq<Stamped<Order>>)
    requires k.failed.Some? ==> DecidedAs(k.failed.value, created, FAILED)
    requires k.orders <= created
    requires e.OrderArrived? && e.order.value.state == CREATED ==> e.order in created
    ensures var (k', out) := Step(k, e);
            && ComesFrom(out, created)
            && (k'.failed.Some? ==> DecidedAs(k'.failed.value, created, FAILED))
            && (HasState(out, VALIDATED) <==> Validates(k, e))
            && (HasState(out, FAILED) <==> FailsNow(k, e))
  {
    var (valid, fail) := Joined(k, e);
    StepParts(k, e);
    JoinedAmong(k, e, created);
    ValidateOut(valid, created);
    ReduceOut(k.failed, fail, created);
    TwoParts(Validate(valid), Reduce(k.failed, fail).1, created);
  }

  lemma HasStateConcat(a: seq<Order>, b: seq<Order>, state: OrderState)
    ensures HasState(a + b, state) <==> HasState(a, state) || HasState(b, state)
  {
    if i :| 0 <= i < |a| && a[i].state == state { assert (a + b)[i].state == state; }
    if i :| 0 <= i < |b| && b[i].state == state { assert (a + b)[|a| + i].state == state; }
  }

  lemma ComesFromConcat(a: seq<Order>, b: seq<Order>, created: seq<Stamped<Order>>, created': seq<Stamped<Order>>)
    requires ComesFrom(a, created) && ComesFrom(b, created') && created <= created'
    ensures ComesFrom(a + b, created')
  {
  }

  lemma JoinsStep(k: KeyState, e: Event)
    ensures var k' := Step(k, e).0;
            && (JoinsSome(k'.passes, k'.orders) <==> JoinsSome(k.passes, k.orders) || Validates(k, e))
            && (JoinsSome(k'.fails, k'.orders) <==> JoinsSome(k.fails, k.orders) || FailsNow(k, e))
  {
    match e {
      case OrderArrived(o) =>
        JoinsSomeAppendRight(k.passes, k.orders, o);
        JoinsSomeAppendRight(k.fails, k.orders, o);
      case VerdictArrived(v) =>
        var counted := Completion(k.counts, v);
        if counted != [] { JoinsSomeAppendLeft(k.passes, counted[0], k.orders); }
        JoinsSomeAppendLeft(k.fails, v, k.orders);
        assert k.passes + [] == k.passes && k.fails + [] == k.fails;
    }
  }

  /**
   What the service publishes for an order, exactly: VALIDATED if and only if some count of three
   and some CREATED order are within the join window, FAILED if and only if some FAIL verdict and
   some CREATED order are, whatever the interleaving.
   */
  lemma {:induction false} Decided(events: seq<Event>)
    ensures HasState(Published(events), VALIDATED) <==> JoinsSome(Completions(Verdicts(events)), Created(events))
    ensures HasState(Published(events), FAILED) <==> JoinsSome(Fails(Verdicts(events)), Created(events))
    ensures ComesFrom(Published(events), Created(events))
    ensures Run(events).failed.Some? ==> DecidedAs(Run(events).failed.value, Created(events), FAILED)
  {
    if events != [] {
      var n := |events| - 1;
      var front, e := events[..n], events[n];
      var k, created, created' := Run(front), Created(front), Created(events);
      Decided(front);
      RunBuffers(front);
      RunBuffers(events);
      if k.failed.Some? { DecidedAsMore(k.failed.value, created, created', FAILED); }
      StepOutput(k, e, created');
      ComesFromConcat(Published(front), Step(k, e).1, created, created');
      HasStateConcat(Published(front), Step(k, e).1, VALIDATED);
      HasStateConcat(Published(front), Step(k, e).1, FAILED);
      JoinsStep(k, e);
    }
  }

  // ------------------------------------------ orders with one verdict per check

  /** At most one verdict per check type. */
  ghost predicate OnePerCheck(vs: seq<Verdict>)
  {
    forall i, j :: 0 <= i < j < |vs| ==> vs[i].value.checkType != vs[j].value.checkType
  }

  lemma FourChecks(a: CheckType, b: CheckType, c: CheckType, d: CheckType)
    ensures a == b || a == c || a == d || b == c || b == d || c == d
  {
  }

  lemma AtMostThreeVerdicts(vs: seq<Verdict>)
    requires OnePerCheck(vs)
    ensures |vs| <= 3
  {
    if 3 < |vs| {
      FourChecks(vs[0].value.checkType, vs[1].value.checkType, vs[2].value.checkType, vs[3].value.checkType);
    }
  }

  lemma {:induction false} NoneOfTwo(vs: seq<Verdict>)
    requires |vs| <= 2
    ensures Completions(vs) == []
  {
    if vs != [] {
      var n := |vs| - 1;
      NoneOfTwo(vs[..n]);
      if n == 1 {
        assert vs[..1] == [vs[0]];
        CountsOfOne(vs[0]);
      }
      TotalAtMost(Counts(vs[..n]), vs[n], 1);
    }
  }

  /** With at most three verdicts the only count of three is the one the third verdict completes. */
  lemma CompletionsOfThree(vs: seq<Verdict>)
    requires |vs| <= 3
    ensures |vs| == 3 && Completes(vs[0], vs[1], vs[2]) ==>
              |Completions(vs)| == 1 && Completions(vs)[0].ts == Max(Max(vs[0].ts, vs[1].ts), vs[2].ts)
    ensures !(|vs| == 3 && Completes(vs[0], vs[1], vs[2])) ==> Completions(vs) == []
  {
    if |vs| == 3 {
      var front, v := [vs[0], vs[1]], vs[2];
      assert vs == front + [v];
      NoneOfTwo(front);
      ThirdTotal(vs[0], vs[1], v);
      BuffersAppend(front, v);
    } else {
      NoneOfTwo(vs);
    }
  }

  /** All three checks passed, each within the session of those before it, and the order within five minutes of the last. */
  ghost predicate Approved(vs: seq<Verdict>, created: seq<Stamped<Order>>)
  {
    && |vs| == 3
    && Completes(vs[0], vs[1], vs[2])
    && exists j :: 0 <= j < |created| && Close(Max(Max(vs[0].ts, vs[1].ts), vs[2].ts), created[j].ts)
  }

  ghost predicate Rejected(vs: seq<Verdict>, created: seq<Stamped<Order>>)
  {
    exists i, j :: 0 <= i < |vs| && 0 <= j < |created| && vs[i].value.result == FAIL && Close(vs[i].ts, created[j].ts)
  }

  lemma JoinWithOne(cs: seq<Stamped<nat>>, t: int, created: seq<Stamped<Order>>)
    requires |cs| == 1 && cs[0].ts == t
    ensures JoinsSome(cs, created) <==> exists j :: 0 <= j < |created| && Close(t, created[j].ts)
  {
  }

  lemma ApprovedIff(vs: seq<Verdict>, created: seq<Stamped<Order>>)
    requires |vs| <= 3
    ensures JoinsSome(Completions(vs), created) <==> Approved(vs, created)
  {
    CompletionsOfThree(vs);
    if |vs| == 3 && Completes(vs[0], vs[1], vs[2]) {
      JoinWithOne(Completions(vs), Max(Max(vs[0].ts, vs[1].ts), vs[2].ts), created);
    }
  }

  lemma {:induction false} FailsExactly(vs: seq<Verdict>)
    ensures forall v :: v in Fails(vs) <==> v in vs && v.value.result == FAIL
  {
    if vs != [] {
      var n := |vs| - 1;
      FailsExactly(vs[..n]);
      assert vs == vs[..n] + [vs[n]];
    }
  }

  lemma RejectedIff(vs: seq<Verdict>, created: seq<Stamped<Order>>)
    ensures JoinsSome(Fails(vs), created) <==> Rejected(vs, created)
  {
    var fs := Fails(vs);
    FailsExactly(vs);
    if JoinsSome(fs, created) {
      var i, j :| 0 <= i < |fs| && 0 <= j < |created| && Close(fs[i].ts, created[j].ts);
      assert fs[i] in fs;
    }
    if Rejected(vs, created) {
      var i, j :| 0 <= i < |vs| && 0 <= j < |created| && vs[i].value.result == FAIL && Close(vs[i].ts, created[j].ts);
      assert vs[i] in fs;
    }
  }

  /** The decision on an order with one verdict per check, exactly. */
  lemma Decision(events: seq<Event>)
    requires OnePerCheck(Verdicts(events))
    ensures HasState(Published(events), VALIDATED) <==> Approved(Verdicts(events), Created(events))
    ensures HasState(Published(events), FAILED) <==> Rejected(Verdicts(events), Created(events))
  {
    Decided(events);
    AtMostThreeVerdicts(Verdicts(events));
    ApprovedIff(Verdicts(events), Created(events));
    RejectedIff(Verdicts(events), Created(events));
  }

  lemma ApprovedNotRejected(vs: seq<Verdict>, created: seq<Stamped<Order>>)
    requires Approved(vs, created)
    ensures !Rejected(vs, created)
  {
  }

  /** No order with one verdict per check is published both VALIDATED and FAILED. */
  lemma NeverBoth(events: seq<Event>)
    requires OnePerCheck(Verdicts(events))
    ensures !(HasState(Published(events), VALIDATED) && HasState(Published(events), FAILED))
  {
    Decision(events);
    if Approved(Verdicts(events), Created(events)) {
      ApprovedNotRejected(Verdicts(events), Created(events));
    }
  }

  function HowMany(out: seq<Order>, state: OrderState): nat
  {
    if out == [] then 0
    else
      var n := |out| - 1;
      HowMany(out[..n], state) + (if out[n].state == state then 1 else 0)
  }

  lemma {:induction false} CountConcat(a: seq<Order>, b: seq<Order>, state: OrderState)
    ensures HowMany(a + b, state) == HowMany(a, state) + HowMany(b, state)
  {
    if b == [] {
      assert a + b == a;
    } else {
      assert (a + b)[..|a| + |b| - 1] == a + b[..|b| - 1];
      CountConcat(a, b[..|b| - 1], state);
    }
  }

  lemma {:induction false} CountNone(out: seq<Order>, state: OrderState)
    requires forall i :: 0 <= i < |out| ==> out[i].state != state
    ensures HowMany(out, state) == 0
  {
    if out != [] { CountNone(out[..|out| - 1], state); }
  }

  lemma {:induction false} CountAtMost(out: seq<Order>, state: OrderState)
    ensures HowMany(out, state) <= |out|
  {
    if out != [] { CountAtMost(out[..|out| - 1], state); }
  }

  lemma {:induction false} ReduceFails(table: Option<Order>, joined: seq<Order>)
    requires table.Some? ==> table.value.state == FAILED
    ensures var (table', out) := Reduce(table, joined);
            && (forall i :: 0 <= i < |out| ==> out[i].state == FAILED)
            && (table'.Some? ==> table'.value.state == FAILED)
    decreases |joined|
  {
    if joined != [] {
      var kept := if table.Some? then table.value else joined[0].(state := FAILED);
      ReduceFails(Some(kept), joined[1..]);
    }
  }

  lemma CountTwoParts(valid: seq<Order>, table: Option<Order>, joined: seq<Order>)
    requires table.Some? ==> table.value.state == FAILED
    ensures HowMany(valid + Reduce(table, joined).1, VALIDATED) <= |valid|
  {
    var fail := Reduce(table, joined).1;
    ReduceFails(table, joined);
    CountConcat(valid, fail, VALIDATED);
    CountAtMost(valid, VALIDATED);
    CountNone(fail, VALIDATED);
  }

  lemma ValidatedByOrder(k: KeyState, o: Stamped<Order>)
    requires k.failed.Some? ==> k.failed.value.state == FAILED
    ensures var (k', out) := OnOrder(k, o);
            && (k'.failed.Some? ==> k'.failed.value.state == FAILED)
            && HowMany(out, VALIDATED) <= if o.value.state == CREATED then |k.passes| else 0
  {
    var joined := Repeat(o.value, |Matching(k.fails, o.ts)|);
    CountTwoParts(Validate(Repeat(o.value, |Matching(k.passes, o.ts)|)), k.failed, joined);
    ReduceFails(k.failed, joined);
  }

  lemma ValidatedByVerdict(k: KeyState, v: Verdict)
    requires k.failed.Some? ==> k.failed.value.state == FAILED
    ensures var (k', out) := OnVerdict(k, v);
            && (k'.failed.Some? ==> k'.failed.value.state == FAILED)
            && HowMany(out, VALIDATED) <= if Completion(k.counts, v) == [] then 0 else |k.orders|
  {
    var counted := Completion(k.counts, v);
    var valid := if counted == [] then [] else Validate(Matching(k.orders, counted[0].ts));
    var joined := if v.value.result == FAIL then Matching(k.orders, v.ts) else [];
    CountTwoParts(valid, k.failed, joined);
    ReduceFails(k.failed, joined);
    assert OnVerdict(k, v).1 == valid + Reduce(k.failed, joined).1;
  }

  lemma {:induction false} FailedTable(events: seq<Event>)
    ensures Run(events).failed.Some? ==> Run(events).failed.value.state == FAILED
  {
    if events != [] {
      var n := |events| - 1;
      var k := Run(events[..n]);
      FailedTable(events[..n]);
      match events[n] {
        case OrderArrived(o) => ValidatedByOrder(k, o);
        case VerdictArrived(v) => ValidatedByVerdict(k, v);
      }
    }
  }

  lemma {:induction false} ValidatedCount(events: seq<Event>)
    requires |Run(events).passes| <= 1 && |Run(events).orders| <= 1
    ensures HowMany(Published(events), VALIDATED) <=
            if Run(events).passes != [] && Run(events).orders != [] then 1 else 0
  {
    if events != [] {
      var n := |events| - 1;
      var k := Run(events[..n]);
      FailedTable(events[..n]);
      match events[n] {
        case OrderArrived(o) => ValidatedByOrder(k, o);
        case VerdictArrived(v) => ValidatedByVerdict(k, v);
      }
      ValidatedCount(events[..n]);
      CountConcat(Published(events[..n]), Step(k, events[n]).1, VALIDATED);
    }
  }

  /** How many records of a join buffer are within five minutes of t. */
  function CloseTo<T>(buffer: seq<Stamped<T>>, t: int): nat
  {
    if buffer == [] then 0 else (if -300_000 <= buffer[0].ts - t <= 300_000 then 1 else 0) + CloseTo(buffer[1..], t)
  }

  /** How many pairs of the two sides of a join are within five minutes of one another. */
  function Pairs<L, R>(left: seq<Stamped<L>>, right: seq<Stamped<R>>): nat
  {
    if left == [] then 0 else CloseTo(right, left[0].ts) + Pairs(left[1..], right)
  }

  lemma {:induction false} MatchingCount<T>(buffer: seq<Stamped<T>>, t: int)
    ensures |Matching(buffer, t)| == CloseTo(buffer, t)
  {
    if buffer != [] { MatchingCount(buffer[1..], t); }
  }

  lemma {:induction false} CloseToAppend<T>(buffer: seq<Stamped<T>>, x: Stamped<T>, t: int)
    ensures CloseTo(buffer + [x], t) == CloseTo(buffer, t) + (if -300_000 <= x.ts - t <= 300_000 then 1 else 0)
  {
    if buffer == [] {
      assert (buffer + [x])[1..] == [];
    } else {
      assert (buffer + [x])[1..] == buffer[1..] + [x];
      CloseToAppend(buffer[1..], x, t);
    }
  }

  lemma {:induction false} PairsAppendLeft<L, R>(left: seq<Stamped<L>>, x: Stamped<L>, right: seq<Stamped<R>>)
    ensures Pairs(left + [x], right) == Pairs(left, right) + CloseTo(right, x.ts)
  {
    if left == [] {
      assert (left + [x])[1..] == [];
    } else {
      assert (left + [x])[1..] == left[1..] + [x];
      PairsAppendLeft(left[1..], x, right);
    }
  }

  lemma {:induction false} PairsAppendRight<L, R>(left: seq<Stamped<L>>, right: seq<Stamped<R>>, y: Stamped<R>)
    ensures Pairs(left, right + [y]) == Pairs(left, right) + CloseTo(left, y.ts)
  {
    if left != [] {
      CloseToAppend(right, y, left[0].ts);
      PairsAppendRight(left[1..], right, y);
    }
  }

  lemma {:induction false} CountAll(out: seq<Order>, state: OrderState)
    requires forall i :: 0 <= i < |out| ==> out[i].state == state
    ensures HowMany(out, state) == |out|
  {
    if out != [] { CountAll(out[..|out| - 1], state); }
  }

  /** What a step publishes, counted by decision. */
  lemma StepCounts(k: KeyState, e: Event)
    requires k.failed.Some? ==> k.failed.value.state == FAILED
    ensures HowMany(Step(k, e).1, VALIDATED) == |Joined(k, e).0|
    ensures HowMany(Step(k, e).1, FAILED) == |Joined(k, e).1|
  {
    var (valid, fail) := Joined(k, e);
    var out, out' := Validate(valid), Reduce(k.failed, fail).1;
    StepParts(k, e);
    ReduceFails(k.failed, fail);
    CountAll(out, VALIDATED);
    CountNone(out, FAILED);
    CountAll(out', FAILED);
    CountNone(out', VALIDATED);
    CountConcat(out, out', VALIDATED);
    CountConcat(out, out', FAILED);
  }

  lemma StepPairs(k: KeyState, e: Event)
    ensures var k' := Step(k, e).0;
            && Pairs(k'.passes, k'.orders) == Pairs(k.passes, k.orders) + |Joined(k, e).0|
            && Pairs(k'.fails, k'.orders) == Pairs(k.fails, k.orders) + |Joined(k, e).1|
  {
    match e {
      case OrderArrived(o) =>
        PairsAppendRight(k.passes, k.orders, o);
        PairsAppendRight(k.fails, k.orders, o);
        MatchingCount(k.passes, o.ts);
        MatchingCount(k.fails, o.ts);
      case VerdictArrived(v) =>
        var counted := Completion(k.counts, v);
        if counted != [] {
          PairsAppendLeft(k.passes, counted[0], k.orders);
          MatchingCount(k.orders, counted[0].ts);
        }
        PairsAppendLeft(k.fails, v, k.orders);
        MatchingCount(k.orders, v.ts);
        assert k.passes + [] == k.passes && k.fails + [] == k.fails;
    }
  }

  /**
   One VALIDATED record is published for every pair of a count of three and a CREATED order within five
   minutes of one another, and one FAILED record for every such pair of a FAIL verdict and an order.
   */
  lemma {:induction false} PublishedCounts(events: seq<Event>)
    ensures HowMany(Published(events), VALIDATED) == Pairs(Completions(Verdicts(events)), Created(events))
    ensures HowMany(Published(events), FAILED) == Pairs(Fails(Verdicts(events)), Created(events))
  {
    RunBuffers(events);
    if events != [] {
      var n := |events| - 1;
      var k := Run(events[..n]);
      PublishedCounts(events[..n]);
      RunBuffers(events[..n]);
      FailedTable(events[..n]);
      StepCounts(k, events[n]);
      StepPairs(k, events[n]);
      CountConcat(Published(events[..n]), Step(k, events[n]).1, VALIDATED);
      CountConcat(Published(events[..n]), Step(k, events[n]).1, FAILED);
    }
  }

  /** Every FAILED record published is the one the table keeps: failures collapse to a single order. */
  ghost predicate Collapsed(out: seq<Order>, table: Option<Order>)
  {
    forall i :: 0 <= i < |out| && out[i].state == FAILED ==> table == Some(out[i])
  }

  lemma {:induction false} ReduceKeepsFirst(table: Option<Order>, joined: seq<Order>)
    ensures var (table', out) := Reduce(table, joined);
            && (forall i :: 0 <= i < |out| ==> table' == Some(out[i]))
            && (table.Some? || joined == [] ==> table' == table)
            && (table.None? && joined != [] ==> table' == Some(joined[0].(state := FAILED)))
    decreases |joined|
  {
    if joined != [] {
      ReduceKeepsFirst(Some(if table.Some? then table.value else joined[0].(state := FAILED)), joined[1..]);
    }
  }

  lemma CollapsedParts(before: seq<Order>, joined: seq<Order>, table: Option<Order>, failing: seq<Order>)
    requires Collapsed(before, table)
    ensures Collapsed(before + (Validate(joined) + Reduce(table, failing).1), Reduce(table, failing).0)
  {
    ReduceKeepsFirst(table, failing);
  }

  lemma {:induction false} FailuresCollapse(events: seq<Event>)
    ensures Collapsed(Published(events), Run(events).failed)
  {
    if events != [] {
      var n := |events| - 1;
      var k := Run(events[..n]);
      FailuresCollapse(events[..n]);
      StepParts(k, events[n]);
      CollapsedParts(Published(events[..n]), Joined(k, events[n]).0, k.failed, Joined(k, events[n]).1);
    }
  }

  /** One verdict per check and one CREATED record: the order is published VALIDATED at most once. */
  lemma ValidatedOnce(events: seq<Event>)
    requires OnePerCheck(Verdicts(events)) && |Created(events)| <= 1
    ensures HowMany(Published(events), VALIDATED) <= 1
  {
    RunBuffers(events);
    AtMostThreeVerdicts(Verdicts(events));
    CompletionsOfThree(Verdicts(events));
    ValidatedCount(events);
  }

  /** Order and verdicts all within five minutes of one another. */
  ghost predicate Prompt(vs: seq<Verdict>, created: seq<Stamped<Order>>)
  {
    && (forall i, j :: 0 <= i < |vs| && 0 <= j < |vs| ==> Close(vs[i].ts, vs[j].ts))
    && (forall i, j :: 0 <= i < |vs| && 0 <= j < |created| ==> Close(vs[i].ts, created[j].ts))
  }

  lemma PromptApproval(vs: seq<Verdict>, created: seq<Stamped<Order>>)
    requires |vs| == 3 && created != [] && Prompt(vs, created)
    ensures Approved(vs, created) <==> forall i :: 0 <= i < 3 ==> vs[i].value.result == PASS
    ensures Rejected(vs, created) <==> exists i :: 0 <= i < 3 && vs[i].value.result == FAIL
  {
    assert Close(vs[0].ts, created[0].ts) && Close(vs[1].ts, created[0].ts) && Close(vs[2].ts, created[0].ts);
  }

  /** A prompt order that has its three verdicts is VALIDATED iff all passed and FAILED iff one failed. */
  lemma PromptDecision(events: seq<Event>)
    requires OnePerCheck(Verdicts(events)) && |Verdicts(events)| == 3 && Created(events) != []
    requires Prompt(Verdicts(events), Created(events))
    ensures HasState(Published(events), VALIDATED) <==>
              forall i :: 0 <= i < 3 ==> Verdicts(events)[i].value.result == PASS
    ensures HasState(Published(events), FAILED) <==>
              exists i :: 0 <= i < 3 && Verdicts(events)[i].value.result == FAIL
  {
    Decision(events);
    PromptApproval(Verdicts(events), Created(events));
  }

  // ------------------------------------------------------------- the service

  function KeyOf(e: Event): string
  {
    match e
    case OrderArrived(o) => o.value.id
    case VerdictArrived(v) => v.value.orderId
  }

  /** The records of one order id, in the order they were delivered. */
  function ForKey(log: seq<Event>, id: string): seq<Event>
  {
    if log == [] then []
    else
      var n := |log| - 1;
      ForKey(log[..n], id) + (if KeyOf(log[n]) == id then [log[n]] else [])
  }

  lemma ForKeyAppend(log: seq<Event>, e: Event, id: string)
    ensures ForKey(log + [e], id) == ForKey(log, id) + (if KeyOf(e) == id then [e] else [])
  {
  }

  lemma RunAppend(events: seq<Event>, e: Event)
    ensures Run(events + [e]) == Step(Run(events), e).0
    ensures Published(events + [e]) == Published(events) + Step(Run(events), e).1
    ensures Verdicts(events + [e]) == Verdicts(events) + (if e.VerdictArrived? then [e.verdict] else [])
    ensures Created(events + [e]) ==
            Created(events) + (if e.OrderArrived? && e.order.value.state == CREATED then [e.order] else [])
  {
  }

  ghost predicate NoneCreated(out: seq<Order>)
  {
    forall i :: 0 <= i < |out| ==> out[i].state != CREATED
  }

  lemma TwoPartsNotCreated(joined: seq<Order>, table: Option<Order>, failing: seq<Order>)
    requires table.Some? ==> table.value.state == FAILED
    ensures NoneCreated(Validate(joined) + Reduce(table, failing).1)
  {
    ReduceFails(table, failing);
  }

  /** What a step publishes is a decision, so it is never CREATED again. */
  lemma NeverCreates(events: seq<Event>, e: Event)
    ensures NoneCreated(Step(Run(events), e).1)
  {
    var k := Run(events);
    FailedTable(events);
    StepParts(k, e);
    TwoPartsNotCreated(Joined(k, e).0, k.failed, Joined(k, e).1);
  }

  function KeyIn(keys: map<string, KeyState>, id: string): KeyState
  {
    if id in keys then keys[id] else EMPTY
  }

  /** Each key's stores are those of its own records alone. */
  ghost predicate KeysOf(keys: map<string, KeyState>, log: seq<Event>)
  {
    forall id :: KeyIn(keys, id) == Run(ForKey(log, id))
  }

  lemma KeysAfter(keys: map<string, KeyState>, log: seq<Event>, e: Event)
    requires KeysOf(keys, log)
    ensures KeysOf(keys[KeyOf(e) := Step(KeyIn(keys, KeyOf(e)), e).0], log + [e])
  {
    var keys' := keys[KeyOf(e) := Step(KeyIn(keys, KeyOf(e)), e).0];
    forall id ensures KeyIn(keys', id) == Run(ForKey(log + [e], id)) {
      ForKeyAppend(log, e, id);
      assert KeyIn(keys, id) == Run(ForKey(log, id));
      if id == KeyOf(e) {
        RunAppend(ForKey(log, id), e);
      } else {
        assert ForKey(log + [e], id) == ForKey(log, id);
      }
    }
  }

  /** The records sent are exactly what the key's published records grow by. */
  ghost predicate Sends(log: seq<Event>, e: Event, out: seq<Order>)
  {
    Published(ForKey(log + [e], KeyOf(e))) == Published(ForKey(log, KeyOf(e))) + out
  }

  lemma StepSends(keys: map<string, KeyState>, log: seq<Event>, e: Event)
    requires KeysOf(keys, log)
    ensures Sends(log, e, Step(KeyIn(keys, KeyOf(e)), e).1)
  {
  }

  class Service {
    var keys: map<string, KeyState>
    ghost var log: seq<Event>  // the records consumed so far

    ghost predicate Valid()
      reads this
    {
      KeysOf(keys, log)
    }

    constructor ()
      ensures Valid() && log == []
    {
      keys, log := map[], [];
    }

    method Process(e: Event) returns (out: seq<Order>)
      requires Valid()
      modifies this
      ensures Valid() && log == old(log) + [e]
      ensures Sends(old(log), e, out)
      ensures forall id :: id != KeyOf(e) ==> KeyIn(keys, id) == KeyIn(old(keys), id)
    {
      KeysAfter(keys, log, e);
      StepSends(keys, log, e);
      var (state, published) := Step(KeyIn(keys, KeyOf(e)), e);
      keys, out := keys[KeyOf(e) := state], published;
      log := log + [e];
    }
  }
}
