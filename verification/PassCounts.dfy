/**
 The PASS counter of ValidationsAggregatorService: the verdicts on one order, counted in session
 windows of five minutes whose merger keeps only the later of two counts.
 */
module PassCounts {
  import opened Orders
  import opened SessionWindows

  const NUMBER_OF_RULES: nat := 3

  const WINDOW: nat := 300_000  // session gap and join window alike

  type Verdict = Stamped<OrderValidation>

  type Count = Session<nat>

  function Aggregate(v: OrderValidation, total: nat): nat
  {
    if v.result == PASS then total + 1 else total
  }

  /** The merger keeps the later value, so folding keeps the last one. */
  function KeepLatest(acc: nat, found: seq<Count>): nat
    decreases |found|
  {
    if found == [] then acc else KeepLatest(found[0].value, found[1..])
  }

  function Total(s: seq<Count>, v: Verdict): nat
  {
    Aggregate(v.value, KeepLatest(0, FindSessions(WINDOW, s, v.ts)))
  }

  function CountsAfter(s: seq<Count>, v: Verdict): seq<Count>
  {
    Absorb(WINDOW, s, v.ts, Total(s, v))
  }

  /** The updated count, stamped with the end of its window. */
  function Emission(s: seq<Count>, v: Verdict): Stamped<nat>
  {
    Stamped(Merged(WINDOW, s, v.ts, Total(s, v)).end, Total(s, v))
  }

  function Counts(vs: seq<Verdict>): seq<Count>
  {
    if vs == [] then [] else CountsAfter(Counts(vs[..|vs| - 1]), vs[|vs| - 1])
  }

  function PassPoint(v: Verdict): Point
  {
    Point(v.ts, if v.value.result == PASS then 1.0 else 0.0)
  }

  function Passes(vs: seq<Verdict>): seq<Point>
  {
    seq(|vs|, i requires 0 <= i < |vs| => PassPoint(vs[i]))
  }

  /** The windows group the verdict times and no count exceeds the PASSes in its window. */
  ghost predicate Sound(s: seq<Count>, ps: seq<Point>)
  {
    && Groups(300_000, s, Times(ps))
    && forall i :: 0 <= i < |s| ==> s[i].value as real <= SumIn(ps, s[i].start, s[i].end)
  }

  /** How many PASSes the counts have missed, window by window. */
  function Missed(s: seq<Count>, ps: seq<Point>): real
  {
    if s == [] then 0.0 else SumIn(ps, s[0].start, s[0].end) - s[0].value as real + Missed(s[1..], ps)
  }

  /** What the keep-latest merger throws away: the counts of all sessions found but the last. */
  function Dropped(found: seq<Count>): nat
  {
    if |found| <= 1 then 0 else found[0].value + Dropped(found[1..])
  }

  function Lost(vs: seq<Verdict>): nat
  {
    if vs == [] then 0
    else
      var n := |vs| - 1;
      Lost(vs[..n]) + Dropped(FindSessions(WINDOW, Counts(vs[..n]), vs[n].ts))
  }

  lemma KeepLatestValue(found: seq<Count>)
    requires |found| <= 2
    ensures KeepLatest(0, found) == if found == [] then 0 else found[|found| - 1].value
    ensures Dropped(found) == if |found| == 2 then found[0].value else 0
  {
  }

  lemma {:induction false} MissedConcat(s: seq<Count>, r: seq<Count>, ps: seq<Point>)
    ensures Missed(s + r, ps) == Missed(s, ps) + Missed(r, ps)
  {
    if s == [] {
      assert s + r == r;
    } else {
      assert (s + r)[1..] == s[1..] + r;
      MissedConcat(s[1..], r, ps);
    }
  }

  lemma {:induction false} MissedElsewhere(s: seq<Count>, ps: seq<Point>, p: Point)
    requires forall i :: 0 <= i < |s| ==> !Near(WINDOW, s[i], p.time)
    ensures Missed(s, ps + [p]) == Missed(s, ps)
  {
    if s != [] {
      SumInElsewhere(WINDOW, s[0], ps, p);
      MissedElsewhere(s[1..], ps, p);
    }
  }

  lemma MissedOfTwo(found: seq<Count>, ps: seq<Point>)
    requires |found| <= 2
    ensures Missed(found, ps) ==
            (if 0 < |found| then SumIn(ps, found[0].start, found[0].end) - found[0].value as real else 0.0) +
            (if 1 < |found| then SumIn(ps, found[1].start, found[1].end) - found[1].value as real else 0.0)
  {
  }

  /** The new count against the PASSes of the merged window: only the merger can lose any. */
  lemma TotalAgainstWindow(s: seq<Count>, ps: seq<Point>, v: Verdict)
    requires Sound(s, ps)
    ensures var found := FindSessions(WINDOW, s, v.ts);
            var w := Merged(WINDOW, s, v.ts, Total(s, v));
            && |found| <= 2
            && SumIn(ps + [PassPoint(v)], w.start, w.end) - w.value as real ==
               Missed(found, ps) + Dropped(found) as real
  {
    var found, w := FindSessions(WINDOW, s, v.ts), Merged(WINDOW, s, v.ts, Total(s, v));
    AtMostTwo(WINDOW, s, v.ts);
    KeepLatestValue(found);
    MissedOfTwo(found, ps);
    SumInMerged(WINDOW, s, v.ts, Total(s, v), ps);
    SumInAppend(ps, [PassPoint(v)], w.start, w.end);
  }

  lemma MissedParts(s: seq<Count>, a: nat, b: nat, ps: seq<Point>)
    requires a <= b <= |s|
    ensures Missed(s, ps) == Missed(s[..a], ps) + Missed(s[a..b], ps) + Missed(s[b..], ps)
  {
    assert s == s[..a] + (s[a..b] + s[b..]);
    MissedConcat(s[..a], s[a..b] + s[b..], ps);
    MissedConcat(s[a..b], s[b..], ps);
  }

  lemma MissedSplice(s: seq<Count>, a: nat, b: nat, w: Count, ps: seq<Point>, p: Point)
    requires Separated(WINDOW, s) && Merges(WINDOW, s, p.time, a, b, w)
    ensures Missed(Splice(s, a, b, w), ps + [p]) ==
            Missed(s[..a], ps) + (SumIn(ps + [p], w.start, w.end) - w.value as real) + Missed(s[b..], ps)
  {
    MissedElsewhere(s[..a], ps, p);
    MissedElsewhere(s[b..], ps, p);
    MissedConcat(s[..a] + [w], s[b..], ps + [p]);
    MissedConcat(s[..a], [w], ps + [p]);
  }

  lemma MissedAfter(s: seq<Count>, ps: seq<Point>, v: Verdict)
    requires Sound(s, ps)
    ensures Missed(CountsAfter(s, v), ps + [PassPoint(v)]) ==
            Missed(s, ps) + Dropped(FindSessions(WINDOW, s, v.ts)) as real
  {
    var a, b := Lo(WINDOW, s, v.ts), Hi(WINDOW, s, v.ts);
    MergeFacts(WINDOW, s, v.ts, Total(s, v));
    TotalAgainstWindow(s, ps, v);
    MissedParts(s, a, b, ps);
    MissedSplice(s, a, b, Merged(WINDOW, s, v.ts, Total(s, v)), ps, PassPoint(v));
  }

  lemma SoundSplice(s: seq<Count>, a: nat, b: nat, w: Count, ps: seq<Point>, p: Point)
    requires Sound(s, ps) && Merges(WINDOW, s, p.time, a, b, w)
    requires w.value as real <= SumIn(ps + [p], w.start, w.end)
    ensures Sound(Splice(s, a, b, w), ps + [p])
  {
    var s' := Splice(s, a, b, w);
    SpliceGroups(WINDOW, s, p.time, a, b, w, Times(ps));
    TimesAppend(ps, p);
    forall i | 0 <= i < |s'|
      ensures s'[i].value as real <= SumIn(ps + [p], s'[i].start, s'[i].end)
    {
      if i != a {
        var k := SplicedSession(WINDOW, s, p.time, a, b, w, i);
        SumInElsewhere(WINDOW, s[k], ps, p);
      }
    }
  }

  /** Counts that are never too high are all exact just when nothing is missed. */
  lemma {:induction false} MissedNonNegative(s: seq<Count>, ps: seq<Point>)
    requires forall i :: 0 <= i < |s| ==> s[i].value as real <= SumIn(ps, s[i].start, s[i].end)
    ensures Missed(s, ps) >= 0.0
    ensures Missed(s, ps) == 0.0 <==>
            forall i :: 0 <= i < |s| ==> s[i].value as real == SumIn(ps, s[i].start, s[i].end)
  {
    if s != [] {
      MissedNonNegative(s[1..], ps);
      if forall i :: 0 <= i < |s[1..]| ==> s[1..][i].value as real == SumIn(ps, s[1..][i].start, s[1..][i].end) {
        assert forall i :: 1 <= i < |s| ==> s[i] == s[1..][i - 1];
      } else {
        var i :| 0 <= i < |s[1..]| && s[1..][i].value as real != SumIn(ps, s[1..][i].start, s[1..][i].end);
        assert s[i + 1] == s[1..][i];
      }
    }
  }

  lemma SoundAfter(s: seq<Count>, ps: seq<Point>, v: Verdict)
    requires Sound(s, ps)
    ensures Sound(CountsAfter(s, v), ps + [PassPoint(v)])
  {
    var a, b := Lo(WINDOW, s, v.ts), Hi(WINDOW, s, v.ts);
    MergeFacts(WINDOW, s, v.ts, Total(s, v));
    TotalAgainstWindow(s, ps, v);
    MissedNonNegative(s[a..b], ps);
    SoundSplice(s, a, b, Merged(WINDOW, s, v.ts, Total(s, v)), ps, PassPoint(v));
  }

  lemma PassesAppend(vs: seq<Verdict>)
    requires vs != []
    ensures Passes(vs) == Passes(vs[..|vs| - 1]) + [PassPoint(vs[|vs| - 1])]
  {
  }

  /** In every run the counts are sound, and what they miss in all is exactly what the merger dropped. */
  lemma {:induction false} CountsSound(vs: seq<Verdict>)
    ensures Sound(Counts(vs), Passes(vs))
    ensures Missed(Counts(vs), Passes(vs)) == Lost(vs) as real
  {
    if vs != [] {
      var n := |vs| - 1;
      CountsSound(vs[..n]);
      PassesAppend(vs);
      SoundAfter(Counts(vs[..n]), Passes(vs[..n]), vs[n]);
      MissedAfter(Counts(vs[..n]), Passes(vs[..n]), vs[n]);
    }
  }

  ghost predicate IsExact(s: seq<Count>, ps: seq<Point>)
  {
    forall i :: 0 <= i < |s| ==> s[i].value as real == SumIn(ps, s[i].start, s[i].end)
  }

  lemma ExactIffNothingLost(vs: seq<Verdict>)
    ensures IsExact(Counts(vs), Passes(vs)) <==> Lost(vs) == 0
  {
    CountsSound(vs);
    MissedNonNegative(Counts(vs), Passes(vs));
  }

  /** A PASS at or before time l in the group of times that ends there. */
  ghost predicate PassUpTo(vs: seq<Verdict>, l: int)
  {
    exists k :: 0 <= k < |vs| && vs[k].value.result == PASS && vs[k].ts <= l && Chained(300_000, vs[k].ts, l, Times(Passes(vs)))
  }

  /** The next verdict joins two groups of earlier times, and the left one holds a PASS. */
  ghost predicate BridgesPass(vs: seq<Verdict>, v: Verdict)
  {
    exists l, r :: Bridged(300_000, Times(Passes(vs)), l, v.ts, r) && PassUpTo(vs, l)
  }

  ghost predicate HasPassIn(vs: seq<Verdict>, lo: int, hi: int)
  {
    exists k :: 0 <= k < |vs| && vs[k].value.result == PASS && lo <= vs[k].ts <= hi
  }

  lemma {:induction false} SumOfPasses(vs: seq<Verdict>, lo: int, hi: int)
    ensures SumIn(Passes(vs), lo, hi) >= 0.0
    ensures SumIn(Passes(vs), lo, hi) > 0.0 <==> HasPassIn(vs, lo, hi)
  {
    if vs != [] {
      assert Passes(vs)[1..] == Passes(vs[1..]);
      SumOfPasses(vs[1..], lo, hi);
      if HasPassIn(vs[1..], lo, hi) {
        var k :| 0 <= k < |vs[1..]| && vs[1..][k].value.result == PASS && lo <= vs[1..][k].ts <= hi;
        assert vs[k + 1] == vs[1..][k];
      }
      if HasPassIn(vs, lo, hi) {
        var k :| 0 <= k < |vs| && vs[k].value.result == PASS && lo <= vs[k].ts <= hi;
        if k > 0 { assert vs[1..][k - 1] == vs[k]; }
      }
    }
  }

  lemma TimeOf(vs: seq<Verdict>, k: nat)
    requires k < |vs|
    ensures vs[k].ts in Times(Passes(vs))
  {
    assert Passes(vs)[k] in Passes(vs);
  }

  /** A session holds a PASS exactly when the chain of times that ends with it does. */
  lemma PassInSession(vs: seq<Verdict>, s: seq<Count>, a: nat)
    requires Groups(WINDOW, s, Times(Passes(vs))) && a < |s|
    ensures HasPassIn(vs, s[a].start, s[a].end) <==> PassUpTo(vs, s[a].end)
  {
    var times, l := Times(Passes(vs)), s[a].end;
    if HasPassIn(vs, s[a].start, l) {
      var k :| 0 <= k < |vs| && vs[k].value.result == PASS && s[a].start <= vs[k].ts <= l;
      assert Chained(WINDOW, vs[k].ts, l, times);
    }
    if PassUpTo(vs, l) {
      var k :| 0 <= k < |vs| && vs[k].value.result == PASS && vs[k].ts <= l && Chained(WINDOW, vs[k].ts, l, times);
      TimeOf(vs, k);
      var h := Home(WINDOW, s, times, vs[k].ts);
      ChainStaysInside(WINDOW, s, vs[k].ts, l, times, h);
      assert h == a;
    }
  }

  /** On exact counts the merger drops something exactly when the verdict bridges away a PASS. */
  lemma DropsIffBridgesPass(vs: seq<Verdict>, v: Verdict)
    requires IsExact(Counts(vs), Passes(vs))
    ensures Dropped(FindSessions(WINDOW, Counts(vs), v.ts)) > 0 <==> BridgesPass(vs, v)
  {
    var s, times := Counts(vs), Times(Passes(vs));
    var a := Lo(WINDOW, s, v.ts);
    CountsSound(vs);
    AtMostTwo(WINDOW, s, v.ts);
    KeepLatestValue(FindSessions(WINDOW, s, v.ts));
    if Hi(WINDOW, s, v.ts) == a + 2 {
      TwoFoundAreBridged(WINDOW, s, v.ts, times);
      SumOfPasses(vs, s[a].start, s[a].end);
      PassInSession(vs, s, a);
    }
    if BridgesPass(vs, v) {
      var l, r :| Bridged(WINDOW, times, l, v.ts, r) && PassUpTo(vs, l);
      BridgeFindsTwo(WINDOW, s, times, l, v.ts, r);
    }
  }

  ghost predicate BridgesAt(vs: seq<Verdict>, n: nat)
    requires n < |vs|
  {
    BridgesPass(vs[..n], vs[n])
  }

  /** No verdict, on arrival, joined two groups of earlier verdicts of which the left one held a PASS. */
  ghost predicate NoPassBridged(vs: seq<Verdict>)
  {
    forall n :: 0 <= n < |vs| ==> !BridgesAt(vs, n)
  }

  lemma NoPassBridgedStep(front: seq<Verdict>, v: Verdict)
    ensures NoPassBridged(front + [v]) <==> NoPassBridged(front) && !BridgesPass(front, v)
  {
    var vs := front + [v];
    assert vs[..|front|] == front;
    forall n | 0 <= n < |front| ensures BridgesAt(vs, n) == BridgesAt(front, n) {
      assert vs[..n] == front[..n];
    }
    if NoPassBridged(vs) {
      assert !BridgesAt(vs, |front|);
      forall n | 0 <= n < |front| ensures !BridgesAt(front, n) {
        assert !BridgesAt(vs, n);
      }
    }
  }

  lemma LostStep(front: seq<Verdict>, v: Verdict)
    ensures Lost(front + [v]) == 0 <==> Lost(front) == 0 && !BridgesPass(front, v)
  {
    var vs := front + [v];
    assert vs[..|front|] == front;
    assert Lost(vs) == Lost(front) + Dropped(FindSessions(WINDOW, Counts(front), v.ts));
    if Lost(front) == 0 {
      ExactIffNothingLost(front);
      DropsIffBridgesPass(front, v);
    }
  }

  ghost predicate LosesIfBridged(vs: seq<Verdict>)
  {
    Lost(vs) == 0 <==> NoPassBridged(vs)
  }

  lemma LosesStep(vs: seq<Verdict>, front: seq<Verdict>, v: Verdict)
    requires vs == front + [v] && LosesIfBridged(front)
    ensures LosesIfBridged(vs)
  {
    NoPassBridgedStep(front, v);
    LostStep(front, v);
  }

  lemma NothingLostAtFirst()
    ensures LosesIfBridged([])
  {
  }

  lemma SplitLast(vs: seq<Verdict>) returns (front: seq<Verdict>, v: Verdict)
    requires vs != []
    ensures vs == front + [v] && |front| < |vs|
  {
    front, v := vs[..|vs| - 1], vs[|vs| - 1];
  }

  lemma {:induction false} LosesIffBridgesPass(vs: seq<Verdict>)
    ensures LosesIfBridged(vs)
    decreases |vs|
  {
    if vs == [] {
      NothingLostAtFirst();
    } else {
      var front, v := SplitLast(vs);
      LosesIffBridgesPass(front);
      LosesStep(vs, front, v);
    }
  }

  /** Every count equals the PASSes in its window exactly when no verdict bridged a PASS away. */
  lemma CountsExactIff(vs: seq<Verdict>)
    ensures IsExact(Counts(vs), Passes(vs)) <==> NoPassBridged(vs)
  {
    ExactIffNothingLost(vs);
    LosesIffBridgesPass(vs);
  }

  // ------------------------------------------------- the counts of short runs

  function Value(v: Verdict): nat
  {
    Aggregate(v.value, 0)
  }

  /** Within five minutes of one another. */
  predicate Close(t: int, u: int): (r: bool)
    ensures r <==> -300_000 <= t - u <= 300_000
  {
    t - WINDOW <= u <= t + WINDOW
  }

  lemma TotalOnOne(w: Count, v: Verdict)
    requires w.start <= w.end
    ensures Total([w], v) == Aggregate(v.value, if Near(WINDOW, w, v.ts) then w.value else 0)
    ensures Emission([w], v).ts == if Near(WINDOW, w, v.ts) then Max(v.ts, w.end) else v.ts
  {
    FoundExactly(WINDOW, [w], v.ts);
    KeepLatestValue(FindSessions(WINDOW, [w], v.ts));
  }

  lemma TotalOnTwo(w0: Count, w1: Count, v: Verdict)
    requires w0.start <= w0.end < v.ts < w1.start <= w1.end && w0.end + WINDOW < w1.start
    requires Near(WINDOW, w0, v.ts) && Near(WINDOW, w1, v.ts)
    ensures FindSessions(WINDOW, [w0, w1], v.ts) == [w0, w1]
    ensures CountsAfter([w0, w1], v) == [Session(w0.start, w1.end, Aggregate(v.value, w1.value))]
  {
    var s := [w0, w1];
    FoundExactly(WINDOW, s, v.ts);
    assert Near(WINDOW, s[0], v.ts) && Near(WINDOW, s[1], v.ts);
    assert Lo(WINDOW, s, v.ts) == 0 && Hi(WINDOW, s, v.ts) == 2;
    assert s[0..2] == s;
    KeepLatestValue(s);
  }

  lemma TotalAtMost(s: seq<Count>, v: Verdict, k: nat)
    requires |s| <= 2 && forall i :: 0 <= i < |s| ==> s[i].value <= k
    ensures Total(s, v) <= k + 1
  {
    KeepLatestValue(FindSessions(WINDOW, s, v.ts));
  }

  lemma CountsOfOne(v: Verdict)
    ensures Counts([v]) == [Session(v.ts, v.ts, Value(v))]
  {
  }

  lemma CountsAfterOne(w: Count, v: Verdict)
    requires w.start <= w.end
    ensures CountsAfter([w], v) ==
            if Near(WINDOW, w, v.ts) then [Session(Min(v.ts, w.start), Max(v.ts, w.end), Aggregate(v.value, w.value))]
            else if w.end < v.ts then [w, Session(v.ts, v.ts, Value(v))] else [Session(v.ts, v.ts, Value(v)), w]
  {
    FoundExactly(WINDOW, [w], v.ts);
    KeepLatestValue(FindSessions(WINDOW, [w], v.ts));
  }

  lemma SecondCount(v0: Verdict, v1: Verdict)
    ensures Counts([v0, v1]) == CountsAfter([Session(v0.ts, v0.ts, Value(v0))], v1)
  {
    assert [v0, v1][..1] == [v0];
    CountsOfOne(v0);
  }

  lemma CountsOfTwo(v0: Verdict, v1: Verdict)
    ensures Close(v0.ts, v1.ts) ==>
              Counts([v0, v1]) == [Session(Min(v0.ts, v1.ts), Max(v0.ts, v1.ts), Aggregate(v1.value, Value(v0)))]
    ensures !Close(v0.ts, v1.ts) ==>
              var w0, w1 := Session(v0.ts, v0.ts, Value(v0)), Session(v1.ts, v1.ts, Value(v1));
              Counts([v0, v1]) == if v0.ts < v1.ts then [w0, w1] else [w1, w0]
  {
    SecondCount(v0, v1);
    CountsAfterOne(Session(v0.ts, v0.ts, Value(v0)), v1);
  }

  ghost predicate Completes(v0: Verdict, v1: Verdict, v2: Verdict)
  {
    && v0.value.result == v1.value.result == v2.value.result == PASS
    && -300_000 <= v0.ts - v1.ts <= 300_000
    && Min(v0.ts, v1.ts) - 300_000 <= v2.ts <= Max(v0.ts, v1.ts) + 300_000
  }

  lemma ThirdTotalOn(s: seq<Count>, v0: Verdict, v1: Verdict, v2: Verdict)
    requires Close(v0.ts, v1.ts) ==>
               s == [Session(Min(v0.ts, v1.ts), Max(v0.ts, v1.ts), Aggregate(v1.value, Value(v0)))]
    requires !Close(v0.ts, v1.ts) ==> |s| == 2 && s[0].value <= 1 && s[1].value <= 1
    ensures Total(s, v2) >= NUMBER_OF_RULES <==> Completes(v0, v1, v2)
    ensures Completes(v0, v1, v2) ==> Emission(s, v2).ts == Max(Max(v0.ts, v1.ts), v2.ts)
  {
    if Close(v0.ts, v1.ts) {
      TotalOnOne(s[0], v2);
    } else {
      TotalAtMost(s, v2, 1);
    }
  }

  /** The third verdict of an order brings the count to three just when all passed and each came within the gap of the session so far. */
  lemma ThirdTotal(v0: Verdict, v1: Verdict, v2: Verdict)
    ensures Emission(Counts([v0, v1]), v2).value >= 3 <==> Completes(v0, v1, v2)
    ensures Completes(v0, v1, v2) ==>
              Emission(Counts([v0, v1]), v2).ts == Max(Max(v0.ts, v1.ts), v2.ts)
  {
    CountsOfTwo(v0, v1);
    ThirdTotalOn(Counts([v0, v1]), v0, v1, v2);
  }

  lemma ThirdCount(v0: Verdict, v1: Verdict, v2: Verdict)
    ensures Counts([v0, v1, v2]) == CountsAfter(Counts([v0, v1]), v2)
    ensures Lost([v0, v1, v2]) == Lost([v0, v1]) + Dropped(FindSessions(WINDOW, Counts([v0, v1]), v2.ts))
  {
    assert [v0, v1, v2][..2] == [v0, v1];
  }

  lemma NothingLostByTwo(v0: Verdict, v1: Verdict)
    ensures Lost([v0, v1]) == 0
  {
    assert [v0, v1][..1] == [v0] && [v0][..0] == [];
    CountsOfOne(v0);
    assert |FindSessions(WINDOW, Counts([v0]), v1.ts)| <= 1;
    assert Lost([v0]) == Dropped([]);
  }

  /** A verdict between two sessions, each within the gap: the earlier session's count is forgotten. */
  lemma BridgeLosesCount(v0: Verdict, v1: Verdict, v2: Verdict)
    requires v0.value.result == v1.value.result == v2.value.result == PASS
    requires v0.ts + 300_000 < v1.ts && v1.ts - 300_000 <= v2.ts <= v0.ts + 300_000
    ensures Counts([v0, v1, v2]) == [Session(v0.ts, v1.ts, 2)]
    ensures Lost([v0, v1, v2]) == 1
  {
    var w0, w1 := Session(v0.ts, v0.ts, 1), Session(v1.ts, v1.ts, 1);
    CountsOfTwo(v0, v1);
    assert Counts([v0, v1]) == [w0, w1];
    TotalOnTwo(w0, w1, v2);
    KeepLatestValue([w0, w1]);
    NothingLostByTwo(v0, v1);
    ThirdCount(v0, v1, v2);
  }

  lemma PassTime(vs: seq<Verdict>, t: int) returns (i: int)
    requires t in Times(Passes(vs))
    ensures 0 <= i < |vs| && vs[i].ts == t
  {
    var p :| p in Passes(vs) && p.time == t;
    i :| 0 <= i < |vs| && Passes(vs)[i] == p;
  }

  /** Non-decreasing times never drop a count. */
  lemma {:induction false} OrderedLosesNothing(vs: seq<Verdict>)
    requires forall i, j :: 0 <= i < j < |vs| ==> vs[i].ts <= vs[j].ts
    ensures Lost(vs) == 0
  {
    if vs != [] {
      var n := |vs| - 1;
      var s := Counts(vs[..n]);
      OrderedLosesNothing(vs[..n]);
      CountsSound(vs[..n]);
      AtMostTwo(WINDOW, s, vs[n].ts);
      forall i | 0 <= i < |s| ensures s[i].end <= vs[n].ts {
        var k := PassTime(vs[..n], s[i].end);
      }
    }
  }

  ghost predicate AllClose(vs: seq<Verdict>)
  {
    forall i, j :: 0 <= i < |vs| && 0 <= j < |vs| ==> Close(vs[i].ts, vs[j].ts)
  }

  lemma OneSessionIfClose(vs: seq<Verdict>)
    requires AllClose(vs)
    ensures |Counts(vs)| <= 1
  {
  }

  /** Verdicts all within the gap of one another share one session and never drop a count. */
  lemma {:induction false} CloseLosesNothing(vs: seq<Verdict>)
    requires AllClose(vs)
    ensures Lost(vs) == 0 && |Counts(vs)| <= 1
  {
    OneSessionIfClose(vs);
    if vs != [] {
      var front := vs[..|vs| - 1];
      assert AllClose(front);
      CloseLosesNothing(front);
    }
  }
}
