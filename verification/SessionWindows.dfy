/**
 Session windows of one key, as the Kafka Streams session store keeps them: sessions in time
 order, each the hull of the record times it has absorbed.  Everything here is about the windows;
 what value a session carries is left to the services (FraudService, PassCounts).
 */
module SessionWindows {

  /** The closed window [start, end] and the value aggregated for it. */
  datatype Session<+V> = Session(start: int, end: int, value: V)

  function Min(a: int, b: int): int { if a <= b then a else b }

  function Max(a: int, b: int): int { if a <= b then b else a }

  // ---------------------------------------------------------------- the store

  /** Sessions in time order, more than the inactivity gap apart. */
  ghost predicate Separated<V>(gap: nat, s: seq<Session<V>>)
  {
    && (forall i :: 0 <= i < |s| ==> s[i].start <= s[i].end)
    && (forall i, j :: 0 <= i < j < |s| ==> s[i].end + gap < s[j].start)
  }

  /** The sessions a record at time t is merged with. */
  predicate Near<V>(gap: nat, w: Session<V>, t: int)
  {
    t - gap <= w.end && w.start <= t + gap
  }

  function EndingBefore<V>(s: seq<Session<V>>, bound: int): (k: nat)
    ensures k <= |s|
    ensures forall i :: 0 <= i < k ==> s[i].end < bound
    ensures k < |s| ==> bound <= s[k].end
  {
    if s == [] || bound <= s[0].end then 0 else 1 + EndingBefore(s[1..], bound)
  }

  function StartingUpTo<V>(s: seq<Session<V>>, bound: int): (k: nat)
    ensures k <= |s|
    ensures forall i :: 0 <= i < k ==> s[i].start <= bound
    ensures k < |s| ==> bound < s[k].start
  {
    if s == [] || bound < s[0].start then 0 else 1 + StartingUpTo(s[1..], bound)
  }

  /** First position that findSessions(key, t - gap, t + gap) returns. */
  function Lo<V>(gap: nat, s: seq<Session<V>>, t: int): (k: nat)
    ensures k <= |s|
  {
    EndingBefore(s, t - gap)
  }

  /** One past the last position that findSessions returns. */
  function Hi<V>(gap: nat, s: seq<Session<V>>, t: int): (k: nat)
    ensures Lo(gap, s, t) <= k <= |s|
  {
    Max(Lo(gap, s, t), StartingUpTo(s, t + gap))
  }

  function FindSessions<V>(gap: nat, s: seq<Session<V>>, t: int): seq<Session<V>>
  {
    s[Lo(gap, s, t)..Hi(gap, s, t)]
  }

  /** The hull of [t, t] and the sessions found, carrying v. */
  function Merged<V>(gap: nat, s: seq<Session<V>>, t: int, v: V): (w: Session<V>)
    ensures w.start <= t <= w.end
  {
    var a, b := Lo(gap, s, t), Hi(gap, s, t);
    if a == b then Session(t, t, v)
    else Session(Min(t, s[a].start), Max(t, s[b - 1].end), v)
  }

  /** s with the sessions in [a, b) replaced by w. */
  function Splice<V>(s: seq<Session<V>>, a: nat, b: nat, w: Session<V>): (r: seq<Session<V>>)
    requires a <= b <= |s|
    ensures |r| == |s| - (b - a) + 1
    ensures forall i :: 0 <= i < |r| ==> r[i] == if i < a then s[i] else if i == a then w else s[i - a - 1 + b]
  {
    s[..a] + [w] + s[b..]
  }

  /** Store update for a record at time t: the sessions found are removed, one merged session is put. */
  function Absorb<V>(gap: nat, s: seq<Session<V>>, t: int, v: V): seq<Session<V>>
  {
    Splice(s, Lo(gap, s, t), Hi(gap, s, t), Merged(gap, s, t, v))
  }

  /** The cut at Lo and Hi finds exactly the sessions within the gap of t. */
  lemma FoundExactly<V>(gap: nat, s: seq<Session<V>>, t: int)
    requires Separated(gap, s)
    ensures forall i :: 0 <= i < |s| ==> (Lo(gap, s, t) <= i < Hi(gap, s, t) <==> Near(gap, s[i], t))
  {
  }

  /** A record never merges more than two sessions; when it merges two it falls strictly between them. */
  lemma AtMostTwo<V>(gap: nat, s: seq<Session<V>>, t: int)
    requires Separated(gap, s)
    ensures var a, b := Lo(gap, s, t), Hi(gap, s, t);
            && b <= a + 2
            && (b == a + 2 ==> s[a].end < t < s[a + 1].start)
  {
    var a, b := Lo(gap, s, t), Hi(gap, s, t);
    FoundExactly(gap, s, t);
    if a + 1 < b {
      assert Near(gap, s[a], t) && Near(gap, s[a + 1], t);
      if a + 2 < |s| {
        assert s[a + 1].end + gap < s[a + 2].start;
        assert !Near(gap, s[a + 2], t);
      }
    }
  }

  lemma SpliceSeparated<V>(gap: nat, s: seq<Session<V>>, a: nat, b: nat, w: Session<V>)
    requires Separated(gap, s) && a <= b <= |s| && w.start <= w.end
    requires forall i :: 0 <= i < a ==> s[i].end + gap < w.start
    requires forall i :: b <= i < |s| ==> w.end + gap < s[i].start
    ensures Separated(gap, Splice(s, a, b, w))
  {
  }

  /**
   What a merge at time t does to a store: the sessions in [a, b), at most two, are those near t; w
   is the hull of t and them; all others stay more than the gap away from w.
   */
  ghost predicate Merges<V>(gap: nat, s: seq<Session<V>>, t: int, a: nat, b: nat, w: Session<V>)
  {
    && a <= b <= |s| && b <= a + 2
    && (forall i :: a <= i < b ==> Near(gap, s[i], t) && w.start <= s[i].start && s[i].end <= w.end)
    && (b == a + 2 ==> s[a].end < t < s[a + 1].start)
    && w.start == (if a < b then Min(t, s[a].start) else t)
    && w.end == (if a < b then Max(t, s[b - 1].end) else t)
    && (forall i :: 0 <= i < a ==> s[i].end + gap < w.start)
    && (forall i :: b <= i < |s| ==> w.end + gap < s[i].start)
  }

  /** The cut at time t: what lies before the sessions found ends before t, what lies after starts after t. */
  lemma CutAround<V>(gap: nat, s: seq<Session<V>>, t: int)
    requires Separated(gap, s)
    ensures forall i :: 0 <= i < Lo(gap, s, t) ==> s[i].end < t
    ensures forall i :: Hi(gap, s, t) <= i < |s| ==> t < s[i].start
  {
  }

  lemma CutMerges<V>(gap: nat, s: seq<Session<V>>, t: int, a: nat, b: nat, w: Session<V>)
    requires Separated(gap, s) && a <= b <= |s| && b <= a + 2
    requires forall i :: 0 <= i < |s| ==> (a <= i < b <==> Near(gap, s[i], t))
    requires w.start == (if a < b then Min(t, s[a].start) else t) && w.end == (if a < b then Max(t, s[b - 1].end) else t)
    requires (forall i :: 0 <= i < a ==> s[i].end < t) && (forall i :: b <= i < |s| ==> t < s[i].start)
    requires b == a + 2 ==> s[a].end < t < s[a + 1].start
    ensures Merges(gap, s, t, a, b, w)
  {
  }

  lemma MergeFacts<V>(gap: nat, s: seq<Session<V>>, t: int, v: V)
    requires Separated(gap, s)
    ensures Merges(gap, s, t, Lo(gap, s, t), Hi(gap, s, t), Merged(gap, s, t, v))
  {
    FoundExactly(gap, s, t);
    AtMostTwo(gap, s, t);
    CutAround(gap, s, t);
    CutMerges(gap, s, t, Lo(gap, s, t), Hi(gap, s, t), Merged(gap, s, t, v));
  }

  // ------------------------------------------- windows as groups of record times

  ghost predicate HasNext(gap: nat, t: int, hi: int, times: set<int>)
  {
    exists u :: u in times && t < u <= hi && u <= t + gap
  }

  /** From every time in [lo, hi) the next one is at most the gap away. */
  ghost predicate Chained(gap: nat, lo: int, hi: int, times: set<int>)
  {
    forall t {:trigger HasNext(gap, t, hi, times)} ::
      t in times && lo <= t < hi ==> HasNext(gap, t, hi, times)
  }

  ghost predicate Within<V>(w: Session<V>, t: int)
  {
    w.start <= t <= w.end
  }

  ghost predicate Covered<V>(s: seq<Session<V>>, t: int)
  {
    exists i :: 0 <= i < |s| && Within(s[i], t)
  }

  /**
   The windows of s are the maximal groups of the given times: each window starts and ends at a
   record, inside it consecutive records are at most the gap apart, distinct windows are more than
   the gap apart, and every record is in one.
   */
  ghost predicate Groups<V>(gap: nat, s: seq<Session<V>>, times: set<int>)
  {
    && Separated(gap, s)
    && (forall t {:trigger Covered(s, t)} :: t in times ==> Covered(s, t))
    && (forall i :: 0 <= i < |s| ==>
          s[i].start in times && s[i].end in times && Chained(gap, s[i].start, s[i].end, times))
  }

  /** A chain that reaches past x has a link across x. */
  lemma {:induction false} Crossing(gap: nat, lo: int, hi: int, x: int, times: set<int>) returns (e: int, u: int)
    requires lo in times && lo <= x < hi && Chained(gap, lo, hi, times)
    ensures e in times && u in times && lo <= e <= x < u <= hi && u <= e + gap
    decreases x - lo
  {
    assert HasNext(gap, lo, hi, times);
    u :| u in times && lo < u <= hi && u <= lo + gap;
    if x < u {
      e := lo;
    } else {
      e, u := Crossing(gap, u, hi, x, times);
    }
  }

  /** The session a record time belongs to. */
  lemma Home<V>(gap: nat, s: seq<Session<V>>, times: set<int>, t: int) returns (k: int)
    requires Groups(gap, s, times) && t in times
    ensures 0 <= k < |s| && Within(s[k], t)
  {
    assert Covered(s, t);
    k :| 0 <= k < |s| && Within(s[k], t);
  }

  /** A session that meets the merged window is one of those merged. */
  lemma InsideMerged<V>(gap: nat, s: seq<Session<V>>, t: int, a: nat, b: nat, w: Session<V>, i: int, x: int)
    requires Merges(gap, s, t, a, b, w) && 0 <= i < |s| && Within(s[i], x) && Within(w, x)
    ensures a <= i < b
  {
  }

  /** The next record after t inside the merged window. */
  lemma NextAfterNew<V>(gap: nat, s: seq<Session<V>>, t: int, a: nat, b: nat, w: Session<V>, times: set<int>)
    requires Groups(gap, s, times) && Merges(gap, s, t, a, b, w) && t < w.end
    ensures HasNext(gap, t, w.end, times + {t})
  {
    var last := b - 1;
    if t < s[last].start {
      assert s[last].start in times + {t};
    } else {
      var _, u := Crossing(gap, s[last].start, s[last].end, t, times);
      assert u in times + {t};
    }
  }

  /** The next record after an old one inside the merged window. */
  lemma NextAfterOld<V>(gap: nat, s: seq<Session<V>>, t: int, a: nat, b: nat, w: Session<V>, times: set<int>, x: int)
    requires Groups(gap, s, times) && Merges(gap, s, t, a, b, w) && x in times && w.start <= x < w.end
    ensures HasNext(gap, x, w.end, times + {t})
  {
    var i := Home(gap, s, times, x);
    InsideMerged(gap, s, t, a, b, w, i, x);
    if x < s[i].end {
      assert HasNext(gap, x, s[i].end, times);
      var u :| u in times && x < u <= s[i].end && u <= x + gap;
      assert u in times + {t};
    } else {
      assert Near(gap, s[i], t) && t in times + {t};
    }
  }

  lemma MergedChained<V>(gap: nat, s: seq<Session<V>>, t: int, a: nat, b: nat, w: Session<V>, times: set<int>)
    requires Groups(gap, s, times) && Merges(gap, s, t, a, b, w)
    ensures Chained(gap, w.start, w.end, times + {t})
  {
    forall x | x in times + {t} && w.start <= x < w.end
      ensures HasNext(gap, x, w.end, times + {t})
    {
      if x == t {
        NextAfterNew(gap, s, t, a, b, w, times);
      } else {
        NextAfterOld(gap, s, t, a, b, w, times, x);
      }
    }
  }

  lemma ChainedMore(gap: nat, lo: int, hi: int, times: set<int>, t: int)
    requires Chained(gap, lo, hi, times)
    requires t < lo || hi < t
    ensures Chained(gap, lo, hi, times + {t})
  {
    forall x | x in times + {t} && lo <= x < hi
      ensures HasNext(gap, x, hi, times + {t})
    {
      assert HasNext(gap, x, hi, times);
      var u :| u in times && x < u <= hi && u <= x + gap;
      assert u in times + {t};
    }
  }

  lemma SpliceCovers<V>(gap: nat, s: seq<Session<V>>, t: int, a: nat, b: nat, w: Session<V>, x: int)
    requires Merges(gap, s, t, a, b, w)
    requires x == t || Covered(s, x)
    ensures Covered(Splice(s, a, b, w), x)
  {
    var s' := Splice(s, a, b, w);
    assert s'[a] == w;
    if x == t {
      assert Within(s'[a], x);
    } else {
      var i :| 0 <= i < |s| && Within(s[i], x);
      if a <= i < b {
        assert Within(s'[a], x);
      } else {
        var k := if i < a then i else i - b + a + 1;
        assert s'[k] == s[i];
      }
    }
  }

  /** A session of the spliced store is the merged one or an old one away from t. */
  lemma SplicedSession<V>(gap: nat, s: seq<Session<V>>, t: int, a: nat, b: nat, w: Session<V>, i: nat) returns (k: nat)
    requires Merges(gap, s, t, a, b, w) && i < |Splice(s, a, b, w)| && i != a
    ensures k < |s| && Splice(s, a, b, w)[i] == s[k] && !(a <= k < b)
    ensures Separated(gap, s) ==> !Near(gap, s[k], t)
  {
    k := if i < a then i else i - a - 1 + b;
  }

  lemma SpliceGroups<V>(gap: nat, s: seq<Session<V>>, t: int, a: nat, b: nat, w: Session<V>, times: set<int>)
    requires Groups(gap, s, times) && Merges(gap, s, t, a, b, w)
    ensures Groups(gap, Splice(s, a, b, w), times + {t})
  {
    var s', times' := Splice(s, a, b, w), times + {t};
    SpliceSeparated(gap, s, a, b, w);
    forall x | x in times' ensures Covered(s', x) {
      if x != t { assert Covered(s, x); }
      SpliceCovers(gap, s, t, a, b, w, x);
    }
    forall i | 0 <= i < |s'|
      ensures s'[i].start in times' && s'[i].end in times' && Chained(gap, s'[i].start, s'[i].end, times')
    {
      if i == a {
        MergedChained(gap, s, t, a, b, w, times);
      } else {
        var k := SplicedSession(gap, s, t, a, b, w, i);
        ChainedMore(gap, s[k].start, s[k].end, times, t);
      }
    }
  }

  /** Processing a record keeps the windows the maximal groups of the times seen. */
  lemma AbsorbGroups<V>(gap: nat, s: seq<Session<V>>, t: int, v: V, times: set<int>)
    requires Groups(gap, s, times)
    ensures Groups(gap, Absorb(gap, s, t, v), times + {t})
  {
    MergeFacts(gap, s, t, v);
    SpliceGroups(gap, s, t, Lo(gap, s, t), Hi(gap, s, t), Merged(gap, s, t, v), times);
  }

  // ------------------------------------------------- the groups are unique

  /** A chain that starts before a group does not reach it. */
  lemma ChainEndsBefore<V>(gap: nat, s: seq<Session<V>>, lo: int, hi: int, times: set<int>, i: int)
    requires Groups(gap, s, times) && 0 <= i < |s|
    requires lo in times && Chained(gap, lo, hi, times) && lo < s[i].start
    ensures hi < s[i].start
  {
    if s[i].start <= hi {
      var e, _ := Crossing(gap, lo, hi, s[i].start - 1, times);
      var k := Home(gap, s, times, e);
    }
  }

  /** A chain that starts inside a group does not leave it. */
  lemma ChainStaysInside<V>(gap: nat, s: seq<Session<V>>, lo: int, hi: int, times: set<int>, i: int)
    requires Groups(gap, s, times) && 0 <= i < |s|
    requires lo in times && Chained(gap, lo, hi, times) && Within(s[i], lo)
    ensures hi <= s[i].end
  {
    if s[i].end < hi {
      var _, u := Crossing(gap, lo, hi, s[i].end, times);
      var k := Home(gap, s, times, u);
    }
  }

  /** A group of one partition of the times is a group of every other. */
  lemma SameGroup<V, W>(gap: nat, s: seq<Session<V>>, r: seq<Session<W>>, times: set<int>, i: int) returns (j: int)
    requires Groups(gap, s, times) && Groups(gap, r, times) && 0 <= i < |s|
    ensures 0 <= j < |r| && r[j].start == s[i].start && r[j].end == s[i].end
  {
    j := Home(gap, r, times, s[i].start);
    if r[j].start < s[i].start {
      ChainEndsBefore(gap, s, r[j].start, r[j].end, times, i);
    }
    ChainStaysInside(gap, s, r[j].start, r[j].end, times, i);
    ChainStaysInside(gap, r, s[i].start, s[i].end, times, j);
  }

  lemma {:induction false} GroupsAligned<V, W>(gap: nat, s: seq<Session<V>>, r: seq<Session<W>>, times: set<int>, n: nat)
    requires Groups(gap, s, times) && Groups(gap, r, times) && n <= |s|
    ensures n <= |r|
    ensures forall i :: 0 <= i < n ==> s[i].start == r[i].start && s[i].end == r[i].end
  {
    if n > 0 {
      GroupsAligned(gap, s, r, times, n - 1);
      var j := SameGroup(gap, s, r, times, n - 1);
      if n - 1 < j {
        var k := SameGroup(gap, r, s, times, n - 1);
      }
    }
  }

  /** The windows are determined by the set of record times alone. */
  lemma GroupsUnique<V, W>(gap: nat, s: seq<Session<V>>, r: seq<Session<W>>, times: set<int>)
    requires Groups(gap, s, times) && Groups(gap, r, times)
    ensures |s| == |r|
    ensures forall i :: 0 <= i < |s| ==> s[i].start == r[i].start && s[i].end == r[i].end
  {
    GroupsAligned(gap, s, r, times, |s|);
    GroupsAligned(gap, r, s, times, |r|);
  }

  // --------------------------------------------- records that join two groups

  /** t lies between consecutive times l and r of two groups and is within the gap of both. */
  ghost predicate Bridged(gap: nat, times: set<int>, l: int, t: int, r: int)
  {
    && l in times && r in times
    && l < t < r && t <= l + gap && r <= t + gap
    && l + gap < r
    && forall x :: x in times ==> x <= l || r <= x
  }

  /** Two sessions are merged only across such a bridge, from the end of the one to the start of the other. */
  lemma TwoFoundAreBridged<V>(gap: nat, s: seq<Session<V>>, t: int, times: set<int>)
    requires Groups(gap, s, times) && Hi(gap, s, t) == Lo(gap, s, t) + 2
    ensures Bridged(gap, times, s[Lo(gap, s, t)].end, t, s[Lo(gap, s, t) + 1].start)
  {
    var a := Lo(gap, s, t);
    FoundExactly(gap, s, t);
    AtMostTwo(gap, s, t);
    assert Near(gap, s[a], t) && Near(gap, s[a + 1], t);
    forall x | x in times ensures x <= s[a].end || s[a + 1].start <= x {
      var k := Home(gap, s, times, x);
      assert k <= a || a + 1 <= k;
    }
  }

  lemma EndsAt<V>(gap: nat, s: seq<Session<V>>, times: set<int>, l: int, t: int, r: int) returns (i: nat)
    requires Groups(gap, s, times) && Bridged(gap, times, l, t, r)
    ensures i < |s| && s[i].end == l
  {
    i := Home(gap, s, times, l);
    if l < s[i].end {
      var _, u := Crossing(gap, s[i].start, s[i].end, l, times);
    }
  }

  lemma StartsAt<V>(gap: nat, s: seq<Session<V>>, times: set<int>, l: int, t: int, r: int) returns (i: nat)
    requires Groups(gap, s, times) && Bridged(gap, times, l, t, r)
    ensures i < |s| && s[i].start == r
  {
    i := Home(gap, s, times, r);
    if s[i].start < r {
      var _, u := Crossing(gap, s[i].start, s[i].end, r - 1, times);
    }
  }

  /** Across every such bridge two sessions are merged. */
  lemma BridgeFindsTwo<V>(gap: nat, s: seq<Session<V>>, times: set<int>, l: int, t: int, r: int)
    requires Groups(gap, s, times) && Bridged(gap, times, l, t, r)
    ensures Hi(gap, s, t) == Lo(gap, s, t) + 2 && s[Lo(gap, s, t)].end == l
  {
    var i := EndsAt(gap, s, times, l, t, r);
    var j := StartsAt(gap, s, times, l, t, r);
    FoundExactly(gap, s, t);
    AtMostTwo(gap, s, t);
    assert Near(gap, s[i], t) && Near(gap, s[j], t);
  }

  // ----------------------------------------------- weights of the records

  /** A record of the key: its time and the amount it adds to its session. */
  datatype Point = Point(time: int, weight: real)

  function Times(ps: seq<Point>): set<int>
  {
    set p | p in ps :: p.time
  }

  lemma TimesAppend(ps: seq<Point>, p: Point)
    ensures Times(ps + [p]) == Times(ps) + {p.time}
  {
  }

  function WeightIn(p: Point, lo: int, hi: int): real
  {
    if lo <= p.time <= hi then p.weight else 0.0
  }

  /** Total weight of the records in [lo, hi]. */
  function SumIn(ps: seq<Point>, lo: int, hi: int): real
  {
    if ps == [] then 0.0 else WeightIn(ps[0], lo, hi) + SumIn(ps[1..], lo, hi)
  }

  lemma {:induction false} SumInAppend(ps: seq<Point>, qs: seq<Point>, lo: int, hi: int)
    ensures SumIn(ps + qs, lo, hi) == SumIn(ps, lo, hi) + SumIn(qs, lo, hi)
  {
    if ps == [] {
      assert ps + qs == qs;
    } else {
      assert (ps + qs)[1..] == ps[1..] + qs;
      SumInAppend(ps[1..], qs, lo, hi);
    }
  }

  lemma RemoveAt(ps: seq<Point>, qs: seq<Point>, k: nat)
    requires ps != [] && k < |qs| && qs[k] == ps[0] && multiset(ps) == multiset(qs)
    ensures multiset(ps[1..]) == multiset(qs[..k] + qs[k + 1..])
  {
    var x, rest := ps[0], qs[..k] + qs[k + 1..];
    assert ps == [x] + ps[1..];
    assert multiset(ps[1..]) == multiset(ps) - multiset{x};
    assert qs == qs[..k] + ([x] + qs[k + 1..]);
    assert multiset(qs) == multiset(qs[..k]) + (multiset{x} + multiset(qs[k + 1..]));
    assert multiset(rest) == multiset(qs[..k]) + multiset(qs[k + 1..]);
    assert multiset(rest) == multiset(qs) - multiset{x};
  }

  /** The sum does not depend on the order of arrival. */
  lemma {:induction false} SumInPermuted(ps: seq<Point>, qs: seq<Point>, lo: int, hi: int)
    requires multiset(ps) == multiset(qs)
    ensures SumIn(ps, lo, hi) == SumIn(qs, lo, hi)
  {
    if ps == [] {
      assert |qs| == |multiset(qs)| == 0;
    } else {
      assert ps[0] in multiset(qs);
      var k :| 0 <= k < |qs| && qs[k] == ps[0];
      RemoveAt(ps, qs, k);
      SumInPermuted(ps[1..], qs[..k] + qs[k + 1..], lo, hi);
      SumInAppend(qs[..k], qs[k..], lo, hi);
      SumInAppend(qs[..k], qs[k + 1..], lo, hi);
      assert qs == qs[..k] + qs[k..];
      assert qs[k..][1..] == qs[k + 1..];
    }
  }

  function SumOfTwo<V>(ps: seq<Point>, parts: seq<Session<V>>): real
    requires |parts| <= 2
  {
    (if 0 < |parts| then SumIn(ps, parts[0].start, parts[0].end) else 0.0) +
    (if 1 < |parts| then SumIn(ps, parts[1].start, parts[1].end) else 0.0)
  }

  /** The weight of a window whose records all lie in one or two of its parts. */
  lemma SumInCover<V>(ps: seq<Point>, lo: int, hi: int, parts: seq<Session<V>>)
    requires |parts| <= 2
    requires forall i :: 0 <= i < |parts| ==> lo <= parts[i].start <= parts[i].end <= hi
    requires |parts| == 2 ==> parts[0].end < parts[1].start
    requires forall p :: p in ps && lo <= p.time <= hi ==> exists i :: 0 <= i < |parts| && Within(parts[i], p.time)
    ensures SumIn(ps, lo, hi) == SumOfTwo(ps, parts)
  {
  }

  lemma SumInMerge<V>(gap: nat, s: seq<Session<V>>, t: int, a: nat, b: nat, w: Session<V>, ps: seq<Point>)
    requires Groups(gap, s, Times(ps)) && Merges(gap, s, t, a, b, w)
    ensures SumIn(ps, w.start, w.end) == SumOfTwo(ps, s[a..b])
  {
    var parts := s[a..b];
    forall p | p in ps && w.start <= p.time <= w.end
      ensures exists i :: 0 <= i < |parts| && Within(parts[i], p.time)
    {
      assert p.time in Times(ps);
      var i := Home(gap, s, Times(ps), p.time);
      InsideMerged(gap, s, t, a, b, w, i, p.time);
      assert Within(parts[i - a], p.time);
    }
    SumInCover(ps, w.start, w.end, parts);
  }

  /** What the sessions found weigh together is what the merged window weighs. */
  lemma SumInMerged<V>(gap: nat, s: seq<Session<V>>, t: int, v: V, ps: seq<Point>)
    requires Groups(gap, s, Times(ps))
    ensures var w := Merged(gap, s, t, v);
            |FindSessions(gap, s, t)| <= 2 && SumIn(ps, w.start, w.end) == SumOfTwo(ps, FindSessions(gap, s, t))
  {
    MergeFacts(gap, s, t, v);
    SumInMerge(gap, s, t, Lo(gap, s, t), Hi(gap, s, t), Merged(gap, s, t, v), ps);
  }

  /** A session not found is untouched by a record at time t. */
  lemma SumInElsewhere<V>(gap: nat, w: Session<V>, ps: seq<Point>, p: Point)
    requires !Near(gap, w, p.time)
    ensures SumIn(ps + [p], w.start, w.end) == SumIn(ps, w.start, w.end)
  {
    SumInAppend(ps, [p], w.start, w.end);
  }
}
