/**
 Whole runs of the movie-ratings stream, over any number of processes.  A process fixes its filter
 date when it starts; a merge uses the day it happens on.  A process that is started after a failure
 takes up the batch that was being written, with its own filter date, and may merge it a second time.
 */
module RatingsStream {
  import opened Options
  import opened MovieRatings

  /** A batch handed to the sink: its number, the day its process started, the day of the merge. */
  datatype Delivery = Delivery(batch: nat, startDay: int, day: int)

  // ---------------------------------------------------------------- the runs

  /** Ids of the events of the given batches: the deduplication state after them. */
  function IdsOf(batches: seq<seq<Event>>): set<string>
  {
    set i, k | 0 <= i < |batches| && 0 <= k < |batches[i]| :: batches[i][k].eventId
  }

  /** What a process started on startDay makes of batch b: deduplicated against all batches before it. */
  function RowsOf(batches: seq<seq<Event>>, b: nat, startDay: int): seq<Row>
    requires b < |batches|
  {
    Transform(IdsOf(batches[..b]), batches[b], startDay)
  }

  /** How many batches have been handed over at least once. */
  function Started(deliveries: seq<Delivery>): nat
  {
    if deliveries == [] then 0
    else
      var n := |deliveries| - 1;
      Started(deliveries[..n]) + (if deliveries[n].batch == Started(deliveries[..n]) then 1 else 0)
  }

  predicate InRange(deliveries: seq<Delivery>, batches: seq<seq<Event>>)
  {
    forall k :: 0 <= k < |deliveries| ==> deliveries[k].batch < |batches|
  }

  /** Each delivery is of the next batch or repeats an earlier one, and no process starts before an earlier one. */
  ghost predicate Legal(deliveries: seq<Delivery>, batches: seq<seq<Event>>)
  {
    && InRange(deliveries, batches)
    && (forall k :: 0 <= k < |deliveries| ==> deliveries[k].batch <= Started(deliveries[..k]))
    && (forall i, k :: 0 <= i < k < |deliveries| ==> deliveries[i].startDay <= deliveries[k].startDay)
  }

  predicate IsRetry(deliveries: seq<Delivery>, k: nat)
    requires k < |deliveries|
  {
    deliveries[k].batch < Started(deliveries[..k])
  }

  function Handed(batches: seq<seq<Event>>, deliveries: seq<Delivery>): seq<MicroBatch>
    requires InRange(deliveries, batches)
  {
    seq(|deliveries|, k requires 0 <= k < |deliveries| =>
      MicroBatch(deliveries[k].day, RowsOf(batches, deliveries[k].batch, deliveries[k].startDay)))
  }

  /** No row is dated more than five days before the day. */
  ghost predicate AllInWindow(rows: seq<Row>, day: int)
  {
    forall j :: 0 <= j < |rows| ==> rows[j].ratingDate >= day - 5
  }

  ghost predicate InTime(batches: seq<seq<Event>>, d: Delivery)
    requires d.batch < |batches|
  {
    AllInWindow(RowsOf(batches, d.batch, d.startDay), d.day)
  }

  /** Every retry finds the rows its own process makes of the batch in the window. */
  ghost predicate RetriesInTime(batches: seq<seq<Event>>, deliveries: seq<Delivery>)
    requires InRange(deliveries, batches)
  {
    forall k :: 0 <= k < |deliveries| && IsRetry(deliveries, k) ==> InTime(batches, deliveries[k])
  }

  // ------------------------------------------------------ the rows of a batch

  /** A process that starts later makes fewer rows of the same batch. */
  lemma RowsShrink(batches: seq<seq<Event>>, b: nat, startDay: int, later: int, r: Row)
    requires b < |batches| && startDay <= later && r in RowsOf(batches, b, later)
    ensures r in RowsOf(batches, b, startDay)
  {
    var events := Dedupe(IdsOf(batches[..b]), batches[b]);
    OnTimeExactly(events, later, r);
    OnTimeExactly(events, startDay, r);
  }

  lemma RowsHaveIds(batches: seq<seq<Event>>, b: nat, startDay: int, r: Row)
    requires b < |batches| && r in RowsOf(batches, b, startDay)
    ensures r.eventId in IdsOf(batches[..b + 1])
  {
    var seen := IdsOf(batches[..b]);
    OnTimeExactly(Dedupe(seen, batches[b]), startDay, r);
    DedupeDistinct(seen, batches[b]);
    var e :| e in Dedupe(seen, batches[b]) && r == ToRow(e);
    var k :| 0 <= k < |batches[b]| && batches[b][k] == e;
    assert batches[..b + 1][b][k].eventId == r.eventId;
  }

  lemma IdsGrow(batches: seq<seq<Event>>, b: nat)
    requires b < |batches|
    ensures IdsOf(batches[..b]) <= IdsOf(batches[..b + 1])
  {
    forall id | id in IdsOf(batches[..b]) ensures id in IdsOf(batches[..b + 1]) {
      var i, k :| 0 <= i < b && 0 <= k < |batches[..b][i]| && batches[..b][i][k].eventId == id;
      assert batches[..b + 1][i] == batches[..b][i];
    }
  }

  lemma {:induction false} IdsOfMore(batches: seq<seq<Event>>, b: nat, c: nat)
    requires b <= c <= |batches|
    ensures IdsOf(batches[..b]) <= IdsOf(batches[..c])
  {
    if b < c {
      IdsOfMore(batches, b, c - 1);
      IdsGrow(batches, c - 1);
    }
  }

  /** No id is in the rows of two batches, whichever processes make them. */
  lemma StreamDistinct(batches: seq<seq<Event>>, b: nat, startDay: int, c: nat, startDay': int, r: Row, r': Row)
    requires b < c < |batches| && r in RowsOf(batches, b, startDay) && r' in RowsOf(batches, c, startDay')
    ensures r.eventId != r'.eventId
  {
    RowsHaveIds(batches, b, startDay, r);
    IdsOfMore(batches, b + 1, c);
    TransformDistinct(IdsOf(batches[..c]), batches[c], startDay');
  }

  // ---------------------------------------------- merging once, merging again

  lemma {:induction false} InsertsAll(table: seq<Row>, batch: seq<Row>, prune: Option<int>)
    requires forall j :: 0 <= j < |batch| ==> Unmatched(table, batch[j], prune)
    ensures Inserts(table, batch, prune) == batch
  {
    if batch != [] { InsertsAll(table, batch[1..], prune); }
  }

  /** A batch of new ids is appended whole. */
  lemma MergeAppends(table: seq<Row>, batch: seq<Row>, day: int)
    requires forall i, j :: 0 <= i < |table| && 0 <= j < |batch| ==> table[i].eventId != batch[j].eventId
    ensures Merge(table, batch, Some(day)) == table + batch
  {
    InsertsAll(table, batch, Some(day));
    forall i | 0 <= i < |table| ensures Merge(table, batch, Some(day))[i] == table[i] {
      MergedRow(table, batch, Some(day), i);
    }
  }

  /** The table is the map, row for row. */
  ghost predicate IsTableOf(table: seq<Row>, m: map<string, Row>)
  {
    && DistinctIds(table)
    && (forall r :: r in table ==> r.eventId in m && m[r.eventId] == r)
    && (forall id :: id in m ==> m[id].eventId == id && m[id] in table)
  }

  lemma TableRefines(table: seq<Row>, m: map<string, Row>, day: int)
    requires IsTableOf(table, m)
    ensures Refines(table, m, day)
  {
  }

  ghost predicate AllIn(rows: seq<Row>, table: seq<Row>)
  {
    forall j :: 0 <= j < |rows| ==> rows[j] in table
  }

  /** Rows already in the table are merged without effect if they are in the window; if not, an id is doubled. */
  lemma MergeAgain(table: seq<Row>, m: map<string, Row>, batch: seq<Row>, day: int)
    requires IsTableOf(table, m) && DistinctIds(batch) && AllIn(batch, table)
    ensures AllInWindow(batch, day) ==> Merge(table, batch, Some(day)) == table
    ensures !AllInWindow(batch, day) ==> !DistinctIds(Merge(table, batch, Some(day)))
  {
    if AllInWindow(batch, day) {
      TableRefines(table, m, day);
      RetryUnchangedIff(table, m, batch, day);
    } else {
      var j :| 0 <= j < |batch| && !InWindow(batch[j], day);
      var i :| 0 <= i < |table| && table[i] == batch[j];
      StaleHitDuplicates(table, batch, day, i, j);
    }
  }

  /** Rows are never removed and keep their ids, so a doubled id stays doubled. */
  lemma NeverDistinctAgain(table: seq<Row>, batch: seq<Row>, day: int)
    requires !DistinctIds(table)
    ensures !DistinctIds(Merge(table, batch, Some(day)))
  {
    var i, j :| 0 <= i < j < |table| && table[i].eventId == table[j].eventId;
    MergedRow(table, batch, Some(day), i);
    MergedRow(table, batch, Some(day), j);
    UpdatedSameId(table[i], batch, day);
    UpdatedSameId(table[j], batch, day);
  }

  lemma DistinctConcat(a: seq<Row>, b: seq<Row>)
    requires DistinctIds(a) && DistinctIds(b)
    requires forall i, j :: 0 <= i < |a| && 0 <= j < |b| ==> a[i].eventId != b[j].eventId
    ensures DistinctIds(a + b)
  {
  }

  lemma WrittenRows(before: seq<Row>, m: map<string, Row>, rows: seq<Row>)
    requires IsTableOf(before, m) && DistinctIds(rows)
    requires forall i, j :: 0 <= i < |before| && 0 <= j < |rows| ==> before[i].eventId != rows[j].eventId
    ensures IsTableOf(before + rows, Write(m, rows))
  {
    var m' := Write(m, rows);
    WriteEntries(m, rows);
    WriteKeepsIds(m, rows);
    DistinctConcat(before, rows);
    forall r | r in before + rows ensures r.eventId in m' && m'[r.eventId] == r {
      if r in before {
        var i :| 0 <= i < |before| && before[i] == r;
      }
    }
    forall id | id in m' ensures m'[id] in before + rows {
      if j :| 0 <= j < |rows| && rows[j].eventId == id {
        assert m'[id] == rows[j];
      } else {
        assert m'[id] == m[id];
      }
    }
  }

  lemma {:induction false} WrittenAgain(m: map<string, Row>, rows: seq<Row>)
    requires forall j :: 0 <= j < |rows| ==> rows[j].eventId in m && m[rows[j].eventId] == rows[j]
    ensures Write(m, rows) == m
  {
    if rows != [] { WrittenAgain(m, rows[..|rows| - 1]); }
  }

  // ----------------------------------------------------------- one delivery

  /** After n batches: the table is the map and holds ids of those batches only. */
  ghost predicate Clean(batches: seq<seq<Event>>, n: nat, table: seq<Row>, m: map<string, Row>)
  {
    && n <= |batches| && IsTableOf(table, m)
    && forall i :: 0 <= i < |table| ==> table[i].eventId in IdsOf(batches[..n])
  }

  /** Whatever a process started from now on makes of the first n batches is in the table. */
  ghost predicate Covered(batches: seq<seq<Event>>, n: nat, since: int, table: seq<Row>)
    requires n <= |batches|
  {
    forall b, startDay :: 0 <= b < n && since <= startDay ==> AllIn(RowsOf(batches, b, startDay), table)
  }

  /** The first delivery of a batch appends all its rows. */
  lemma FirstDelivery(batches: seq<seq<Event>>, n: nat, table: seq<Row>, m: map<string, Row>, startDay: int, day: int)
    requires Clean(batches, n, table, m) && n < |batches|
    ensures var rows := RowsOf(batches, n, startDay);
            && Merge(table, rows, Some(day)) == table + rows
            && Clean(batches, n + 1, table + rows, Write(m, rows))
  {
    var rows := RowsOf(batches, n, startDay);
    TransformDistinct(IdsOf(batches[..n]), batches[n], startDay);
    MergeAppends(table, rows, day);
    WrittenRows(table, m, rows);
    IdsGrow(batches, n);
    forall i | 0 <= i < |table + rows| ensures (table + rows)[i].eventId in IdsOf(batches[..n + 1]) {
      if |table| <= i { RowsHaveIds(batches, n, startDay, rows[i - |table|]); }
    }
  }

  lemma CoveredFirst(batches: seq<seq<Event>>, n: nat, since: int, table: seq<Row>, startDay: int)
    requires n < |batches| && Covered(batches, n, since, table) && since <= startDay
    ensures Covered(batches, n + 1, startDay, table + RowsOf(batches, n, startDay))
  {
    var all := table + RowsOf(batches, n, startDay);
    forall b, later | 0 <= b < n + 1 && startDay <= later ensures AllIn(RowsOf(batches, b, later), all) {
      if b < n {
        assert AllIn(RowsOf(batches, b, later), table);
      } else {
        forall j | 0 <= j < |RowsOf(batches, n, later)| ensures RowsOf(batches, n, later)[j] in all {
          RowsShrink(batches, n, startDay, later, RowsOf(batches, n, later)[j]);
        }
      }
    }
  }

  /** A later delivery of a batch changes nothing if it is in time, and doubles an id if not. */
  lemma LaterDelivery(batches: seq<seq<Event>>, n: nat, since: int, table: seq<Row>, m: map<string, Row>, d: Delivery)
    requires Clean(batches, n, table, m) && Covered(batches, n, since, table) && d.batch < n && since <= d.startDay
    ensures var rows := RowsOf(batches, d.batch, d.startDay);
            && (InTime(batches, d) ==> Merge(table, rows, Some(d.day)) == table && Write(m, rows) == m)
            && (!InTime(batches, d) ==> !DistinctIds(Merge(table, rows, Some(d.day))))
  {
    var rows := RowsOf(batches, d.batch, d.startDay);
    TransformDistinct(IdsOf(batches[..d.batch]), batches[d.batch], d.startDay);
    assert AllIn(rows, table);
    MergeAgain(table, m, rows, d.day);
    WrittenAgain(m, rows);
  }

  // -------------------------------------------------------------- whole runs

  /** One delivery takes the table and the map to table' and m'. */
  ghost predicate Delivers(batches: seq<seq<Event>>, d: Delivery, table: seq<Row>, m: map<string, Row>,
                           table': seq<Row>, m': map<string, Row>)
    requires d.batch < |batches|
  {
    var rows := RowsOf(batches, d.batch, d.startDay);
    table' == Merge(table, rows, Some(d.day)) && m' == Write(m, rows)
  }

  ghost predicate IsStep(batches: seq<seq<Event>>, deliveries: seq<Delivery>, tables: seq<seq<Row>>, maps: seq<map<string, Row>>, k: nat)
    requires InRange(deliveries, batches) && k < |deliveries| && |tables| == |maps| == |deliveries| + 1
  {
    Delivers(batches, deliveries[k], tables[k], maps[k], tables[k + 1], maps[k + 1])
  }

  /** The tables and the maps of a run, one after each delivery. */
  ghost predicate IsTrace(batches: seq<seq<Event>>, deliveries: seq<Delivery>, tables: seq<seq<Row>>, maps: seq<map<string, Row>>)
    requires InRange(deliveries, batches)
  {
    && |tables| == |maps| == |deliveries| + 1
    && tables[0] == [] && maps[0] == map[]
    && forall k :: 0 <= k < |deliveries| ==> IsStep(batches, deliveries, tables, maps, k)
  }

  lemma HandedLast(batches: seq<seq<Event>>, deliveries: seq<Delivery>, n: nat)
    requires InRange(deliveries, batches) && |deliveries| == n + 1
    ensures var front, handed := Handed(batches, deliveries[..n]), Handed(batches, deliveries);
            Delivers(batches, deliveries[n], SinkAfter(front), LastWriter(front), SinkAfter(handed), LastWriter(handed))
  {
    assert Handed(batches, deliveries)[..n] == Handed(batches, deliveries[..n]);
  }

  lemma TraceAppend(batches: seq<seq<Event>>, deliveries: seq<Delivery>, n: nat, tables: seq<seq<Row>>, maps: seq<map<string, Row>>,
                    table: seq<Row>, m: map<string, Row>)
    requires InRange(deliveries, batches) && |deliveries| == n + 1 && IsTrace(batches, deliveries[..n], tables, maps)
    requires Delivers(batches, deliveries[n], tables[n], maps[n], table, m)
    ensures IsTrace(batches, deliveries, tables + [table], maps + [m])
  {
    forall k | 0 <= k < n + 1 ensures IsStep(batches, deliveries, tables + [table], maps + [m], k) {
      if k < n { assert IsStep(batches, deliveries[..n], tables, maps, k); }
    }
  }

  lemma {:induction false} Trace(batches: seq<seq<Event>>, deliveries: seq<Delivery>)
      returns (tables: seq<seq<Row>>, maps: seq<map<string, Row>>)
    requires InRange(deliveries, batches)
    ensures IsTrace(batches, deliveries, tables, maps)
    ensures tables[|deliveries|] == SinkAfter(Handed(batches, deliveries))
    ensures maps[|deliveries|] == LastWriter(Handed(batches, deliveries))
    decreases |deliveries|
  {
    var handed := Handed(batches, deliveries);
    if deliveries == [] {
      tables, maps := [[]], [map[]];
    } else {
      var n := |deliveries| - 1;
      tables, maps := Trace(batches, deliveries[..n]);
      HandedLast(batches, deliveries, n);
      TraceAppend(batches, deliveries, n, tables, maps, SinkAfter(handed), LastWriter(handed));
      tables, maps := tables + [SinkAfter(handed)], maps + [LastWriter(handed)];
    }
  }

  // ------------------------------------------------ every batch delivered once

  /** Every batch is delivered once, in order. */
  ghost predicate Once(deliveries: seq<Delivery>)
  {
    forall k :: 0 <= k < |deliveries| ==> deliveries[k].batch == k
  }

  lemma {:induction false} OnceIsClean(batches: seq<seq<Event>>, deliveries: seq<Delivery>,
                                       tables: seq<seq<Row>>, maps: seq<map<string, Row>>, k: nat)
    requires InRange(deliveries, batches) && Once(deliveries) && IsTrace(batches, deliveries, tables, maps) && k <= |deliveries|
    ensures Clean(batches, k, tables[k], maps[k])
  {
    if k > 0 {
      OnceIsClean(batches, deliveries, tables, maps, k - 1);
      assert IsStep(batches, deliveries, tables, maps, k - 1);
      FirstDelivery(batches, k - 1, tables[k - 1], maps[k - 1], deliveries[k - 1].startDay, deliveries[k - 1].day);
    }
  }

  /**
   Delivered once per batch, by whatever processes and on whatever days, the sink holds exactly what
   a last-writer map holds: one row per id, in the window or not.
   */
  lemma StreamIsLastWriter(batches: seq<seq<Event>>, deliveries: seq<Delivery>)
    requires InRange(deliveries, batches) && Once(deliveries)
    ensures IsTableOf(SinkAfter(Handed(batches, deliveries)), LastWriter(Handed(batches, deliveries)))
  {
    var tables, maps := Trace(batches, deliveries);
    OnceIsClean(batches, deliveries, tables, maps, |deliveries|);
  }

  /** The id occurs in batch b, in none before it, and all its events there are on time for the start day. */
  ghost predicate ComesInTime(batches: seq<seq<Event>>, b: nat, startDay: int, id: string)
    requires b < |batches|
  {
    && (exists k :: 0 <= k < |batches[b]| && batches[b][k].eventId == id)
    && (forall i, k :: 0 <= i < b && 0 <= k < |batches[i]| ==> batches[i][k].eventId != id)
    && (forall k :: 0 <= k < |batches[b]| && batches[b][k].eventId == id ==> ToRow(batches[b][k]).ratingDate >= startDay - 5)
  }

  ghost predicate IsRowOf(r: Row, events: seq<Event>)
  {
    exists k :: 0 <= k < |events| && r == ToRow(events[k])
  }

  ghost predicate HoldsFrom(table: seq<Row>, id: string, events: seq<Event>)
  {
    exists r :: r in table && r.eventId == id && IsRowOf(r, events)
  }

  lemma RowsKeep(batches: seq<seq<Event>>, b: nat, startDay: int, id: string)
    requires b < |batches| && ComesInTime(batches, b, startDay, id)
    ensures HoldsFrom(RowsOf(batches, b, startDay), id, batches[b])
  {
    var k :| 0 <= k < |batches[b]| && batches[b][k].eventId == id;
    assert id !in IdsOf(batches[..b]);
    var r := TransformKeeps(IdsOf(batches[..b]), batches[b], startDay, k);
    assert IsRowOf(r, batches[b]);
  }

  lemma FirstDeliveryKeeps(batches: seq<seq<Event>>, n: nat, table: seq<Row>, m: map<string, Row>, startDay: int, day: int,
                           id: string, events: seq<Event>)
    requires Clean(batches, n, table, m) && n < |batches|
    requires HoldsFrom(table, id, events) || HoldsFrom(RowsOf(batches, n, startDay), id, events)
    ensures HoldsFrom(Merge(table, RowsOf(batches, n, startDay), Some(day)), id, events)
  {
    FirstDelivery(batches, n, table, m, startDay, day);
    var rows := RowsOf(batches, n, startDay);
    if HoldsFrom(table, id, events) {
      var r :| r in table && r.eventId == id && IsRowOf(r, events);
      assert r in table + rows;
    } else {
      var r :| r in rows && r.eventId == id && IsRowOf(r, events);
      assert r in table + rows;
    }
  }

  lemma {:induction false} OnceKeeps(batches: seq<seq<Event>>, deliveries: seq<Delivery>,
                                     tables: seq<seq<Row>>, maps: seq<map<string, Row>>, b: nat, k: nat, id: string)
    requires InRange(deliveries, batches) && Once(deliveries) && IsTrace(batches, deliveries, tables, maps)
    requires b < k <= |deliveries| && ComesInTime(batches, b, deliveries[b].startDay, id)
    ensures HoldsFrom(tables[k], id, batches[b])
  {
    var n := k - 1;
    OnceIsClean(batches, deliveries, tables, maps, n);
    assert IsStep(batches, deliveries, tables, maps, n);
    if b == n { RowsKeep(batches, b, deliveries[b].startDay, id); } else { OnceKeeps(batches, deliveries, tables, maps, b, n, id); }
    FirstDeliveryKeeps(batches, n, tables[n], maps[n], deliveries[n].startDay, deliveries[n].day, id, batches[b]);
  }

  /** And it loses nothing: an id that comes in time in a delivered batch is in the sink, in a row of one of its events. */
  lemma StreamLosesNothing(batches: seq<seq<Event>>, deliveries: seq<Delivery>, b: nat, id: string)
    requires InRange(deliveries, batches) && Once(deliveries)
    requires b < |deliveries| && ComesInTime(batches, b, deliveries[b].startDay, id)
    ensures HoldsFrom(SinkAfter(Handed(batches, deliveries)), id, batches[b])
  {
    var tables, maps := Trace(batches, deliveries);
    OnceKeeps(batches, deliveries, tables, maps, b, |deliveries|, id);
  }

  // ------------------------------------------------------ runs with retries

  /** The table is the map, and covers what a process started from now on may hand over again. */
  ghost predicate Good(batches: seq<seq<Event>>, n: nat, since: int, table: seq<Row>, m: map<string, Row>)
  {
    Clean(batches, n, table, m) && Covered(batches, n, since, table)
  }

  lemma GoodStep(batches: seq<seq<Event>>, n: nat, since: int, table: seq<Row>, m: map<string, Row>, d: Delivery,
                 table': seq<Row>, m': map<string, Row>)
    requires Good(batches, n, since, table, m) && d.batch <= n && d.batch < |batches| && since <= d.startDay
    requires Delivers(batches, d, table, m, table', m')
    ensures if d.batch < n && !InTime(batches, d) then !DistinctIds(table')
            else Good(batches, if d.batch == n then n + 1 else n, d.startDay, table', m')
  {
    if d.batch == n {
      FirstDelivery(batches, n, table, m, d.startDay, d.day);
      CoveredFirst(batches, n, since, table, d.startDay);
    } else {
      LaterDelivery(batches, n, since, table, m, d);
    }
  }

  /** The retries among the first k deliveries were in time. */
  ghost predicate InTimeUpTo(batches: seq<seq<Event>>, deliveries: seq<Delivery>, k: nat)
    requires InRange(deliveries, batches) && k <= |deliveries|
  {
    forall i :: 0 <= i < k && IsRetry(deliveries, i) ==> InTime(batches, deliveries[i])
  }

  function Since(deliveries: seq<Delivery>, k: nat): int
    requires k <= |deliveries|
  {
    if deliveries == [] then 0 else if k == 0 then deliveries[0].startDay else deliveries[k - 1].startDay
  }

  /** After k deliveries the table is good, or an id is doubled because a retry was not in time. */
  ghost predicate Reached(batches: seq<seq<Event>>, deliveries: seq<Delivery>, k: nat, table: seq<Row>, m: map<string, Row>)
    requires InRange(deliveries, batches) && k <= |deliveries|
  {
    if InTimeUpTo(batches, deliveries, k)
    then Good(batches, Started(deliveries[..k]), Since(deliveries, k), table, m)
    else !DistinctIds(table)
  }

  lemma StartedNext(deliveries: seq<Delivery>, k: nat)
    requires k < |deliveries|
    ensures Started(deliveries[..k + 1]) ==
            Started(deliveries[..k]) + (if deliveries[k].batch == Started(deliveries[..k]) then 1 else 0)
  {
    assert deliveries[..k + 1][..k] == deliveries[..k];
  }

  lemma ReachedNext(batches: seq<seq<Event>>, deliveries: seq<Delivery>, k: nat, table: seq<Row>, m: map<string, Row>,
                    table': seq<Row>, m': map<string, Row>)
    requires Legal(deliveries, batches) && k < |deliveries| && Reached(batches, deliveries, k, table, m)
    requires Delivers(batches, deliveries[k], table, m, table', m')
    ensures Reached(batches, deliveries, k + 1, table', m')
  {
    var d := deliveries[k];
    StartedNext(deliveries, k);
    if InTimeUpTo(batches, deliveries, k) {
      GoodStep(batches, Started(deliveries[..k]), Since(deliveries, k), table, m, d, table', m');
    } else {
      NeverDistinctAgain(table, RowsOf(batches, d.batch, d.startDay), d.day);
    }
  }

  lemma ReachedFirst(batches: seq<seq<Event>>, deliveries: seq<Delivery>)
    requires InRange(deliveries, batches)
    ensures Reached(batches, deliveries, 0, [], map[])
  {
  }

  lemma {:induction false} TraceReaches(batches: seq<seq<Event>>, deliveries: seq<Delivery>,
                                        tables: seq<seq<Row>>, maps: seq<map<string, Row>>, k: nat)
    requires Legal(deliveries, batches) && IsTrace(batches, deliveries, tables, maps) && k <= |deliveries|
    ensures Reached(batches, deliveries, k, tables[k], maps[k])
  {
    if k == 0 {
      ReachedFirst(batches, deliveries);
    } else {
      TraceReaches(batches, deliveries, tables, maps, k - 1);
      assert IsStep(batches, deliveries, tables, maps, k - 1);
      ReachedNext(batches, deliveries, k - 1, tables[k - 1], maps[k - 1], tables[k], maps[k]);
    }
  }

  /**
   Over a whole run with retries the sink has one row per id exactly when every retry found the rows
   its own process made of the batch in the window; it is then the last-writer map, row for row.
   */
  lemma OneRowPerIdWithRetriesIff(batches: seq<seq<Event>>, deliveries: seq<Delivery>)
    requires Legal(deliveries, batches)
    ensures var sink := SinkAfter(Handed(batches, deliveries));
            && (DistinctIds(sink) <==> RetriesInTime(batches, deliveries))
            && (DistinctIds(sink) <==> IsTableOf(sink, LastWriter(Handed(batches, deliveries))))
  {
    var tables, maps := Trace(batches, deliveries);
    TraceReaches(batches, deliveries, tables, maps, |deliveries|);
  }

  /** A retry that is merged on the day its process started never doubles a row. */
  lemma SameDayRetriesAreSafe(batches: seq<seq<Event>>, deliveries: seq<Delivery>)
    requires Legal(deliveries, batches)
    requires forall k :: 0 <= k < |deliveries| && IsRetry(deliveries, k) ==> deliveries[k].day <= deliveries[k].startDay
    ensures DistinctIds(SinkAfter(Handed(batches, deliveries)))
  {
    forall k | 0 <= k < |deliveries| && IsRetry(deliveries, k) ensures InTime(batches, deliveries[k]) {
      var d := deliveries[k];
      TransformDistinct(IdsOf(batches[..d.batch]), batches[d.batch], d.startDay);
    }
    OneRowPerIdWithRetriesIff(batches, deliveries);
  }

  lemma RowsOfOne(e: Event, startDay: int)
    requires InWindow(ToRow(e), startDay)
    ensures RowsOf([[e]], 0, startDay) == [ToRow(e)]
  {
    assert [[e]][..0] == [] && IdsOf([]) == {} && [e][1..] == [];
    assert Dedupe({}, [e]) == [e] + Dedupe({e.eventId}, []);
    assert Dedupe({}, [e]) == [e];
    assert OnTime([e], startDay) == [ToRow(e)] + OnTime([], startDay);
  }

  /**
   A rating that is on time for the start day of the retrying process, but out of the window by the
   day that process merges it, is stored twice.
   */
  lemma OldRatingStoredTwice(e: Event, first: Delivery, retry: Delivery)
    requires first.batch == 0 && retry.batch == 0 && first.startDay <= retry.startDay
    requires retry.startDay - 5 <= ToRow(e).ratingDate < retry.day - 5
    ensures SinkAfter(Handed([[e]], [first, retry])) == [ToRow(e), ToRow(e)]
  {
    var row := ToRow(e);
    RowsOfOne(e, first.startDay);
    RowsOfOne(e, retry.startDay);
    var handed := Handed([[e]], [first, retry]);
    assert handed == [MicroBatch(first.day, [row]), MicroBatch(retry.day, [row])];
    assert handed[..1] == [MicroBatch(first.day, [row])] && handed[..1][..0] == [];
    assert Inserts([], [row], Some(first.day)) == [row];
    assert SinkAfter(handed[..1]) == [row];
    assert Inserts([row], [row], Some(retry.day)) == [row];
  }
}
