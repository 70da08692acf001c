/**
 FraudService: CREATED orders are grouped by customer into session windows with an inactivity gap
 of one hour; the running total of each session decides the fraud check of the order just added.
 */
module FraudService {
  import opened Options
  import opened Orders
  import opened SessionWindows

  const FRAUD_LIMIT: real := 2000.0

  const SESSION_GAP: nat := 3_600_000

  /** The last order of a session and the session's running total. */
  datatype OrderValue = OrderValue(order: Option<Order>, value: real)

  /** Sessions per customer. */
  type Store = map<int, seq<Session<OrderValue>>>

  // ------------------------------------------------ the lambdas of the topology

  function Amount(order: Order): real
  {
    order.quantity as real * order.price
  }

  function Aggregate(order: Order, total: OrderValue): OrderValue
  {
    OrderValue(Some(order), total.value + Amount(order))
  }

  function SimpleMerge(a: OrderValue, b: OrderValue): OrderValue
  {
    OrderValue(b.order, a.value + b.value)
  }

  function MergeAll(acc: OrderValue, found: seq<Session<OrderValue>>): OrderValue
    decreases |found|
  {
    if found == [] then acc else MergeAll(SimpleMerge(acc, found[0].value), found[1..])
  }

  function Verdict(v: OrderValue): OrderValidation
    requires v.order.Some?
  {
    OrderValidation(v.order.value.id, FRAUD_CHECK, if v.value >= FRAUD_LIMIT then FAIL else PASS)
  }

  // ------------------------------------------------------- one input record

  function Sessions(store: Store, customer: int): seq<Session<OrderValue>>
  {
    if customer in store then store[customer] else []
  }

  /** The value put for the merged session of a record. */
  function Total(s: seq<Session<OrderValue>>, rec: Stamped<Order>): OrderValue
  {
    Aggregate(rec.value, MergeAll(OrderValue(None, 0.0), FindSessions(SESSION_GAP, s, rec.ts)))
  }

  /** The change log of the windowed table: a null per removed window, then the new value. */
  function Emitted(s: seq<Session<OrderValue>>, rec: Stamped<Order>): (out: seq<Option<OrderValue>>)
  {
    var v := Total(s, rec);
    var w := Merged(SESSION_GAP, s, rec.ts, v);
    var removed := if w.start == w.end then 0 else |FindSessions(SESSION_GAP, s, rec.ts)|;
    seq(removed, i => None) + [Some(v)]
  }

  /** Nulls are filtered out; every other value is branched into a verdict on the order it carries. */
  function Verdicts(emitted: seq<Option<OrderValue>>): seq<OrderValidation>
  {
    if emitted == [] then []
    else (match emitted[0]
          case Some(v) => if v.order.Some? then [Verdict(v)] else []
          case None => []) + Verdicts(emitted[1..])
  }

  function StoreAfter(store: Store, rec: Stamped<Order>): Store
  {
    if rec.value.state != CREATED then store
    else
      var s := Sessions(store, rec.value.customerId);
      store[rec.value.customerId := Absorb(SESSION_GAP, s, rec.ts, Total(s, rec))]
  }

  function VerdictsFor(store: Store, rec: Stamped<Order>): seq<OrderValidation>
  {
    if rec.value.state != CREATED then []
    else Verdicts(Emitted(Sessions(store, rec.value.customerId), rec))
  }

  function Run(log: seq<Stamped<Order>>): Store
  {
    if log == [] then map[] else StoreAfter(Run(log[..|log| - 1]), log[|log| - 1])
  }

  // --------------------------------------------- what the store has to contain

  function PointOf(rec: Stamped<Order>, customer: int): seq<Point>
  {
    if rec.value.state == CREATED && rec.value.customerId == customer then [Point(rec.ts, rec.value.quantity as real * rec.value.price)] else []
  }

  /** The spending of one customer: time and amount of each CREATED order in the log. */
  function Spending(log: seq<Stamped<Order>>, customer: int): seq<Point>
  {
    if log == [] then [] else Spending(log[..|log| - 1], customer) + PointOf(log[|log| - 1], customer)
  }

  /** The windows are the groups of points at most an hour apart, each with the exact sum of its amounts. */
  ghost predicate ExactFor(s: seq<Session<OrderValue>>, ps: seq<Point>)
  {
    && Groups(3_600_000, s, Times(ps))
    && forall i :: 0 <= i < |s| ==> s[i].value.value == SumIn(ps, s[i].start, s[i].end)
  }

  ghost predicate Exact(store: Store, log: seq<Stamped<Order>>)
  {
    forall customer :: ExactFor(Sessions(store, customer), Spending(log, customer))
  }

  lemma PointOfOrder(rec: Stamped<Order>)
    requires rec.value.state == CREATED
    ensures PointOf(rec, rec.value.customerId) == [Point(rec.ts, Amount(rec.value))]
    ensures Amount(rec.value) == rec.value.quantity as real * rec.value.price
  {
    var ps := PointOf(rec, rec.value.customerId);
    assert ps[0].weight == rec.value.quantity as real * rec.value.price == Amount(rec.value);
  }

  // ------------------------------------------------------------ preservation

  lemma SpendingAppend(log: seq<Stamped<Order>>, rec: Stamped<Order>, customer: int)
    ensures Spending(log + [rec], customer) == Spending(log, customer) + PointOf(rec, customer)
  {
  }

  lemma MergeAllValue(acc: OrderValue, found: seq<Session<OrderValue>>)
    requires |found| <= 2
    ensures MergeAll(acc, found).value == acc.value +
            (if 0 < |found| then found[0].value.value else 0.0) +
            (if 1 < |found| then found[1].value.value else 0.0)
  {
    if |found| == 2 {
      assert MergeAll(acc, found) == MergeAll(SimpleMerge(acc, found[0].value), found[1..]);
      assert found[1..][1..] == [];
    }
  }

  /** The value put is the exact sum over the merged window, the new order included. */
  lemma TotalExact(s: seq<Session<OrderValue>>, ps: seq<Point>, rec: Stamped<Order>)
    requires ExactFor(s, ps)
    ensures var v := Total(s, rec);
            var w := Merged(SESSION_GAP, s, rec.ts, v);
            v.value == SumIn(ps + [Point(rec.ts, rec.value.quantity as real * rec.value.price)], w.start, w.end)
  {
    var v := Total(s, rec);
    var w := Merged(SESSION_GAP, s, rec.ts, v);
    AtMostTwo(SESSION_GAP, s, rec.ts);
    MergeAllValue(OrderValue(None, 0.0), FindSessions(SESSION_GAP, s, rec.ts));
    SumInMerged(SESSION_GAP, s, rec.ts, v, ps);
    SumInAppend(ps, [Point(rec.ts, Amount(rec.value))], w.start, w.end);
  }

  lemma ExactSplice(s: seq<Session<OrderValue>>, a: nat, b: nat, w: Session<OrderValue>, ps: seq<Point>, p: Point)
    requires ExactFor(s, ps) && Merges(SESSION_GAP, s, p.time, a, b, w)
    requires w.value.value == SumIn(ps + [p], w.start, w.end)
    ensures ExactFor(Splice(s, a, b, w), ps + [p])
  {
    var s' := Splice(s, a, b, w);
    SpliceGroups(SESSION_GAP, s, p.time, a, b, w, Times(ps));
    TimesAppend(ps, p);
    forall i | 0 <= i < |s'|
      ensures s'[i].value.value == SumIn(ps + [p], s'[i].start, s'[i].end)
    {
      if i != a {
        var k := SplicedSession(SESSION_GAP, s, p.time, a, b, w, i);
        SumInElsewhere(SESSION_GAP, s[k], ps, p);
      }
    }
  }

  lemma AbsorbExact(s: seq<Session<OrderValue>>, ps: seq<Point>, rec: Stamped<Order>)
    requires ExactFor(s, ps)
    ensures ExactFor(Absorb(SESSION_GAP, s, rec.ts, Total(s, rec)), ps + [Point(rec.ts, Amount(rec.value))])
  {
    var v := Total(s, rec);
    MergeFacts(SESSION_GAP, s, rec.ts, v);
    TotalExact(s, ps, rec);
    ExactSplice(s, Lo(SESSION_GAP, s, rec.ts), Hi(SESSION_GAP, s, rec.ts), Merged(SESSION_GAP, s, rec.ts, v),
                ps, Point(rec.ts, Amount(rec.value)));
  }

  lemma StoreAfterOrder(store: Store, rec: Stamped<Order>)
    requires rec.value.state == CREATED
    ensures var s := Sessions(store, rec.value.customerId);
            Sessions(StoreAfter(store, rec), rec.value.customerId) == Absorb(SESSION_GAP, s, rec.ts, Total(s, rec))
  {
  }

  lemma StoreAfterOther(store: Store, rec: Stamped<Order>, customer: int)
    requires rec.value.state != CREATED || rec.value.customerId != customer
    ensures Sessions(StoreAfter(store, rec), customer) == Sessions(store, customer)
  {
  }

  lemma StepExactFor(store: Store, log: seq<Stamped<Order>>, rec: Stamped<Order>, customer: int)
    requires ExactFor(Sessions(store, customer), Spending(log, customer))
    ensures ExactFor(Sessions(StoreAfter(store, rec), customer), Spending(log + [rec], customer))
  {
    SpendingAppend(log, rec, customer);
    if rec.value.state == CREATED && rec.value.customerId == customer {
      StoreAfterOrder(store, rec);
      PointOfOrder(rec);
      AbsorbExact(Sessions(store, customer), Spending(log, customer), rec);
    } else {
      StoreAfterOther(store, rec, customer);
      assert Spending(log + [rec], customer) == Spending(log, customer);
    }
  }

  lemma StepExact(store: Store, log: seq<Stamped<Order>>, rec: Stamped<Order>)
    requires Exact(store, log)
    ensures Exact(StoreAfter(store, rec), log + [rec])
  {
    forall customer
      ensures ExactFor(Sessions(StoreAfter(store, rec), customer), Spending(log + [rec], customer))
    {
      StepExactFor(store, log, rec, customer);
    }
  }

  /** After every run the windows of every customer are exact. */
  lemma {:induction false} RunExact(log: seq<Stamped<Order>>)
    ensures Exact(Run(log), log)
  {
    if log != [] {
      var n := |log| - 1;
      RunExact(log[..n]);
      StepExact(Run(log[..n]), log[..n], log[n]);
      assert log[..n] + [log[n]] == log;
    }
  }

  // -------------------------------------------------------------- confluence

  lemma {:induction false} SpendingConcat(log: seq<Stamped<Order>>, log': seq<Stamped<Order>>, customer: int)
    ensures Spending(log + log', customer) == Spending(log, customer) + Spending(log', customer)
  {
    if log' == [] {
      assert log + log' == log;
    } else {
      var n := |log'| - 1;
      assert log + log' == (log + log'[..n]) + [log'[n]];
      SpendingAppend(log + log'[..n], log'[n], customer);
      SpendingConcat(log, log'[..n], customer);
    }
  }

  lemma SpendingInsert(before: seq<Stamped<Order>>, rec: Stamped<Order>, after: seq<Stamped<Order>>, customer: int)
    ensures multiset(Spending(before + [rec] + after, customer)) ==
            multiset(Spending(before + after, customer)) + multiset(PointOf(rec, customer))
  {
    var a, p, b := Spending(before, customer), PointOf(rec, customer), Spending(after, customer);
    SpendingAppend(before, rec, customer);
    SpendingConcat(before + [rec], after, customer);
    SpendingConcat(before, after, customer);
    assert multiset(a + p + b) == multiset(a) + multiset(p) + multiset(b);
  }

  lemma {:induction false} SpendingPermuted(log: seq<Stamped<Order>>, log': seq<Stamped<Order>>, customer: int)
    requires multiset(log) == multiset(log')
    ensures multiset(Spending(log, customer)) == multiset(Spending(log', customer))
    decreases |log|
  {
    if log == [] {
      assert |log'| == |multiset(log')| == 0;
    } else {
      var n := |log| - 1;
      assert log[n] in multiset(log');
      var k :| 0 <= k < |log'| && log'[k] == log[n];
      assert log == log[..n] + [log[n]];
      assert log' == log'[..k] + [log'[k]] + log'[k + 1..];
      assert multiset(log[..n]) == multiset(log) - multiset{log[n]};
      assert multiset(log'[..k] + log'[k + 1..]) == multiset(log') - multiset{log[n]};
      SpendingPermuted(log[..n], log'[..k] + log'[k + 1..], customer);
      SpendingInsert(log'[..k], log'[k], log'[k + 1..], customer);
    }
  }

  /**
   The store is confluent: whatever order the same records arrive in, every customer ends with the
   same windows and the same totals.
   */
  lemma Confluent(log: seq<Stamped<Order>>, log': seq<Stamped<Order>>, customer: int)
    requires multiset(log) == multiset(log')
    ensures var s, s' := Sessions(Run(log), customer), Sessions(Run(log'), customer);
            && |s| == |s'|
            && forall i :: 0 <= i < |s| ==>
                 s[i].start == s'[i].start && s[i].end == s'[i].end && s[i].value.value == s'[i].value.value
  {
    var s, s' := Sessions(Run(log), customer), Sessions(Run(log'), customer);
    var ps, ps' := Spending(log, customer), Spending(log', customer);
    RunExact(log);
    RunExact(log');
    SpendingPermuted(log, log', customer);
    assert Times(ps) == Times(ps') by {
      assert forall p :: p in ps <==> p in multiset(ps);
      assert forall p :: p in ps' <==> p in multiset(ps');
    }
    assert ExactFor(s, ps) && ExactFor(s', ps');
    GroupsUnique(SESSION_GAP, s, s', Times(ps));
    forall i | 0 <= i < |s| ensures s[i].value.value == s'[i].value.value {
      SumInPermuted(ps, ps', s[i].start, s[i].end);
    }
  }

  // --------------------------------------------------- one verdict per order

  lemma {:induction false} VerdictsOfEmitted(n: nat, v: OrderValue)
    requires v.order.Some?
    ensures Verdicts(seq(n, i => None) + [Some(v)]) == [Verdict(v)]
  {
    var out := seq(n, i => None) + [Some(v)];
    if n == 0 {
      assert out == [Some(v)];
      assert Verdicts([]) == [];
    } else {
      assert out[1..] == seq(n - 1, i => None) + [Some(v)];
      VerdictsOfEmitted(n - 1, v);
    }
  }

  /** The check of an order against the total of the window w of its customer. */
  ghost predicate Judged(out: seq<OrderValidation>, rec: Stamped<Order>, spending: seq<Point>, w: Session<OrderValue>)
  {
    && Within(w, rec.ts)
    && out == [OrderValidation(rec.value.id, FRAUD_CHECK,
                               if SumIn(spending, w.start, w.end) >= 2000.0 then FAIL else PASS)]
  }

  ghost predicate JudgedIn(out: seq<OrderValidation>, rec: Stamped<Order>, spending: seq<Point>, s: seq<Session<OrderValue>>)
  {
    exists i :: 0 <= i < |s| && Judged(out, rec, spending, s[i])
  }

  /**
   A CREATED order gets exactly one verdict, on itself, and it is FAIL exactly when the spending in
   its session, this order included, has reached the limit; any other order gets none.
   */
  lemma OneVerdict(store: Store, log: seq<Stamped<Order>>, rec: Stamped<Order>)
    requires Exact(store, log)
    ensures rec.value.state != CREATED ==> VerdictsFor(store, rec) == []
    ensures rec.value.state == CREATED ==>
              JudgedIn(VerdictsFor(store, rec), rec, Spending(log + [rec], rec.value.customerId),
                       Sessions(StoreAfter(store, rec), rec.value.customerId))
  {
    if rec.value.state == CREATED {
      var c := rec.value.customerId;
      var s := Sessions(store, c);
      var v := Total(s, rec);
      var w := Merged(SESSION_GAP, s, rec.ts, v);
      assert ExactFor(s, Spending(log, c));
      TotalExact(s, Spending(log, c), rec);
      SpendingAppend(log, rec, c);
      PointOfOrder(rec);
      var removed := if w.start == w.end then 0 else |FindSessions(SESSION_GAP, s, rec.ts)|;
      VerdictsOfEmitted(removed, v);
      assert Absorb(SESSION_GAP, s, rec.ts, v)[Lo(SESSION_GAP, s, rec.ts)] == w;
      assert Judged(VerdictsFor(store, rec), rec, Spending(log + [rec], c), w);
    }
  }

  lemma {:induction false} NoSpending(log: seq<Stamped<Order>>, customer: int)
    requires forall i :: 0 <= i < |log| ==> log[i].value.customerId != customer
    ensures Spending(log, customer) == []
  {
    if log != [] { NoSpending(log[..|log| - 1], customer); }
  }

  /** The first order of a customer is judged on its own amount. */
  lemma {:induction false} FirstOrder(log: seq<Stamped<Order>>, rec: Stamped<Order>)
    requires rec.value.state == CREATED
    requires forall i :: 0 <= i < |log| ==> log[i].value.customerId != rec.value.customerId
    ensures VerdictsFor(Run(log), rec) ==
            [OrderValidation(rec.value.id, FRAUD_CHECK,
                             if rec.value.quantity as real * rec.value.price >= 2000.0 then FAIL else PASS)]
  {
    var c, p := rec.value.customerId, Point(rec.ts, Amount(rec.value));
    RunExact(log);
    OneVerdict(Run(log), log, rec);
    NoSpending(log, c);
    SpendingAppend(log, rec, c);
    PointOfOrder(rec);
    assert Spending(log + [rec], c) == [p];
    var s := Sessions(StoreAfter(Run(log), rec), c);
    var i :| 0 <= i < |s| && Judged(VerdictsFor(Run(log), rec), rec, [p], s[i]);
    assert SumIn([p], s[i].start, s[i].end) == WeightIn(p, s[i].start, s[i].end) + SumIn([p][1..], s[i].start, s[i].end);
  }

  function Magnitude(ps: seq<Point>): real
  {
    if ps == [] then 0.0 else (if ps[0].weight < 0.0 then -ps[0].weight else ps[0].weight) + Magnitude(ps[1..])
  }

  lemma {:induction false} SumAtMost(ps: seq<Point>, lo: int, hi: int)
    ensures SumIn(ps, lo, hi) <= Magnitude(ps)
  {
    if ps != [] { SumAtMost(ps[1..], lo, hi); }
  }

  lemma SumWithTwo(ps: seq<Point>, p: Point, q: Point, lo: int, hi: int)
    requires lo <= p.time <= hi && lo <= q.time <= hi
    ensures SumIn(ps + [p] + [q], lo, hi) == SumIn(ps, lo, hi) + p.weight + q.weight
  {
    SumInAppend(ps + [p], [q], lo, hi);
    SumInAppend(ps, [p], lo, hi);
    assert SumIn([p], lo, hi) == WeightIn(p, lo, hi) + SumIn([p][1..], lo, hi);
    assert SumIn([q], lo, hi) == WeightIn(q, lo, hi) + SumIn([q][1..], lo, hi);
  }

  lemma {:induction false} SpendingOfTwo(log: seq<Stamped<Order>>, offset: Stamped<Order>, rec: Stamped<Order>, p: Point, q: Point)
    requires offset.value.customerId == rec.value.customerId
    requires PointOf(offset, rec.value.customerId) == [p] && PointOf(rec, rec.value.customerId) == [q]
    ensures Spending((log + [offset]) + [rec], rec.value.customerId) == Spending(log, rec.value.customerId) + [p] + [q]
  {
    SpendingAppend(log, offset, rec.value.customerId);
    SpendingAppend(log + [offset], rec, rec.value.customerId);
  }

  /** A session that holds both p and q stays below the limit if all the rest cannot make up for them. */
  lemma {:induction false} SmallSumPasses(out: seq<OrderValidation>, rec: Stamped<Order>, ps: seq<Point>, p: Point, q: Point, w: Session<OrderValue>)
    requires Judged(out, rec, ps + [p] + [q], w) && p.time == q.time == rec.ts
    requires Magnitude(ps) + p.weight + q.weight < 2000.0
    ensures out == [OrderValidation(rec.value.id, FRAUD_CHECK, PASS)]
  {
    SumWithTwo(ps, p, q, w.start, w.end);
    SumAtMost(ps, w.start, w.end);
  }

  lemma {:induction false} OffsetPoints(log: seq<Stamped<Order>>, offset: Stamped<Order>, rec: Stamped<Order>, p: Point, q: Point)
    requires rec.value.state == CREATED && offset.value.customerId == rec.value.customerId && offset.ts == rec.ts
    requires PointOf(offset, rec.value.customerId) == [p] && PointOf(rec, rec.value.customerId) == [q]
    requires p.time == q.time == rec.ts && Magnitude(Spending(log, rec.value.customerId)) + p.weight + q.weight < 2000.0
    ensures VerdictsFor(Run(log + [offset]), rec) == [OrderValidation(rec.value.id, FRAUD_CHECK, PASS)]
  {
    var c, log' := rec.value.customerId, log + [offset];
    var out := VerdictsFor(Run(log'), rec);
    RunExact(log');
    OneVerdict(Run(log'), log', rec);
    SpendingOfTwo(log, offset, rec, p, q);
    var s := Sessions(StoreAfter(Run(log'), rec), c);
    var i :| 0 <= i < |s| && Judged(out, rec, Spending(log' + [rec], c), s[i]);
    SmallSumPasses(out, rec, Spending(log, c), p, q, s[i]);
  }

  /** An order of sufficiently negative amount makes room for any order of that customer at its time. */
  lemma {:induction false} OffsetPasses(log: seq<Stamped<Order>>, offset: Stamped<Order>, rec: Stamped<Order>)
    requires offset.value.state == CREATED && rec.value.state == CREATED
    requires offset.value.customerId == rec.value.customerId && offset.ts == rec.ts
    requires Magnitude(Spending(log, rec.value.customerId)) + rec.value.quantity as real * rec.value.price +
             offset.value.quantity as real * offset.value.price < 2000.0
    ensures VerdictsFor(Run(log + [offset]), rec) == [OrderValidation(rec.value.id, FRAUD_CHECK, PASS)]
  {
    OffsetPoints(log, offset, rec, PointOf(offset, rec.value.customerId)[0], PointOf(rec, rec.value.customerId)[0]);
  }

  // ------------------------------------------------------------- the service

  /** What processing a record does to the store and what it sends. */
  ghost predicate ProcessedRight(before: Store, rec: Stamped<Order>, after: Store, out: seq<OrderValidation>, log: seq<Stamped<Order>>)
  {
    && (forall c :: c != rec.value.customerId ==> Sessions(after, c) == Sessions(before, c))
    && (rec.value.state != CREATED ==> out == [] && after == before)
    && (rec.value.state == CREATED ==>
          JudgedIn(out, rec, Spending(log, rec.value.customerId), Sessions(after, rec.value.customerId)))
  }

  lemma ProcessRight(store: Store, log: seq<Stamped<Order>>, rec: Stamped<Order>, after: Store, out: seq<OrderValidation>)
    requires Exact(store, log) && after == StoreAfter(store, rec) && out == VerdictsFor(store, rec)
    ensures ProcessedRight(store, rec, after, out, log + [rec])
  {
    forall c | c != rec.value.customerId ensures Sessions(after, c) == Sessions(store, c) {
      StoreAfterOther(store, rec, c);
    }
    if rec.value.state == CREATED {
      OneVerdict(store, log, rec);
      assert JudgedIn(out, rec, Spending(log + [rec], rec.value.customerId), Sessions(after, rec.value.customerId));
    } else {
      assert out == [] && after == store;
    }
  }

  class Service {
    var store: Store
    ghost var log: seq<Stamped<Order>>  // the records consumed so far

    /** The store is the run over what was consumed; RunExact says what it then contains. */
    ghost predicate Valid()
      reads this
    {
      store == Run(log)
    }

    constructor ()
      ensures Valid() && log == []
    {
      store, log := map[], [];
    }

    method Process(rec: Stamped<Order>) returns (out: seq<OrderValidation>)
      requires Valid()
      modifies this
      ensures Valid() && log == old(log) + [rec]
      ensures ProcessedRight(old(store), rec, store, out, log)
    {
      RunExact(log);
      assert (log + [rec])[..|log|] == log;
      out := VerdictsFor(store, rec);
      ProcessRight(store, log, rec, StoreAfter(store, rec), out);
      store := StoreAfter(store, rec);
      log := log + [rec];
    }
  }
}
