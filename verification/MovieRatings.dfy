/**
 The movie-ratings stream: events are deduplicated, dated and filtered, then merged into a sink
 table partitioned by date.  The merge condition looks only at rows of the last five days.
 */
module MovieRatings {
  import opened Options

  const THRESHOLD_DAYS: nat := 5

  const SECONDS_PER_DAY: nat := 86_400

  datatype Event = Event(eventId: string, userId: string, movieId: string, rating: real, timestamp: int)

  datatype Row = Row(
    eventId: string,
    userId: string,
    movieId: string,
    rating: real,
    isApproved: bool,
    ratingTimestamp: int,
    ratingDate: int)  // days since the epoch

  // --------------------------------------------------------------- the transform

  /** The rating date is the day whose seconds hold the timestamp. */
  function ToRow(e: Event): (r: Row)
    ensures r.ratingDate * SECONDS_PER_DAY <= r.ratingTimestamp < (r.ratingDate + 1) * SECONDS_PER_DAY
    ensures r.ratingTimestamp == e.timestamp && (r.isApproved <==> !(e.rating < 7.0))
    ensures r.eventId == e.eventId && r.userId == e.userId && r.movieId == e.movieId && r.rating == e.rating
  {
    Row(e.eventId, e.userId, e.movieId, e.rating, e.rating >= 7.0, e.timestamp, e.timestamp / SECONDS_PER_DAY)
  }

  /** One event per id, none whose id the deduplication state already holds. */
  function Dedupe(seen: set<string>, events: seq<Event>): seq<Event>
    decreases |events|
  {
    if events == [] then []
    else if events[0].eventId in seen then Dedupe(seen, events[1..])
    else [events[0]] + Dedupe(seen + {events[0].eventId}, events[1..])
  }

  predicate InWindow(row: Row, day: int)
  {
    row.ratingDate >= day - THRESHOLD_DAYS
  }

  /** The rows that are not late with respect to the day the stream was started. */
  function OnTime(events: seq<Event>, startDay: int): seq<Row>
  {
    if events == [] then []
    else (if InWindow(ToRow(events[0]), startDay) then [ToRow(events[0])] else []) + OnTime(events[1..], startDay)
  }

  function Transform(seen: set<string>, events: seq<Event>, startDay: int): seq<Row>
  {
    OnTime(Dedupe(seen, events), startDay)
  }

  ghost predicate DistinctIds(rows: seq<Row>)
  {
    forall i, j :: 0 <= i < j < |rows| ==> rows[i].eventId != rows[j].eventId
  }

  ghost predicate DistinctEvents(events: seq<Event>)
  {
    forall i, j :: 0 <= i < j < |events| ==> events[i].eventId != events[j].eventId
  }

  lemma {:induction false} DedupeDistinct(seen: set<string>, events: seq<Event>)
    ensures DistinctEvents(Dedupe(seen, events))
    ensures forall e :: e in Dedupe(seen, events) ==> e in events && e.eventId !in seen
    decreases |events|
  {
    if events != [] {
      var e := events[0];
      if e.eventId in seen {
        DedupeDistinct(seen, events[1..]);
      } else {
        var rest := Dedupe(seen + {e.eventId}, events[1..]);
        DedupeDistinct(seen + {e.eventId}, events[1..]);
        assert forall i :: 0 <= i < |rest| ==> rest[i] in rest;
      }
    }
  }

  lemma {:induction false} DedupeKeepsEveryId(seen: set<string>, events: seq<Event>, k: nat)
    requires k < |events| && events[k].eventId !in seen
    ensures exists e :: e in Dedupe(seen, events) && e.eventId == events[k].eventId
    decreases |events|
  {
    var e := events[0];
    if e.eventId in seen {
      DedupeKeepsEveryId(seen, events[1..], k - 1);
    } else if events[k].eventId == e.eventId {
      assert e in Dedupe(seen, events);
    } else {
      DedupeKeepsEveryId(seen + {e.eventId}, events[1..], k - 1);
      var x :| x in Dedupe(seen + {e.eventId}, events[1..]) && x.eventId == events[k].eventId;
      assert x in Dedupe(seen, events);
    }
  }

  lemma {:induction false} OnTimeExactly(events: seq<Event>, startDay: int, r: Row)
    ensures r in OnTime(events, startDay) <==> r.ratingDate >= startDay - 5 && exists e :: e in events && r == ToRow(e)
  {
    if events != [] {
      OnTimeExactly(events[1..], startDay, r);
      assert events == [events[0]] + events[1..];
    }
  }

  lemma {:induction false} OnTimeDistinct(events: seq<Event>, startDay: int)
    requires DistinctEvents(events)
    ensures DistinctIds(OnTime(events, startDay))
  {
    if events != [] {
      var rest := OnTime(events[1..], startDay);
      OnTimeDistinct(events[1..], startDay);
      forall i | 0 <= i < |rest| ensures rest[i].eventId != events[0].eventId {
        OnTimeExactly(events[1..], startDay, rest[i]);
        var e :| e in events[1..] && rest[i] == ToRow(e);
      }
    }
  }

  /** A transformed batch has one row per id, every row on time at start, no id seen before. */
  lemma TransformDistinct(seen: set<string>, events: seq<Event>, startDay: int)
    ensures var rows := Transform(seen, events, startDay);
            && DistinctIds(rows)
            && (forall i :: 0 <= i < |rows| ==> InWindow(rows[i], startDay) && rows[i].eventId !in seen)
  {
    var rows := Transform(seen, events, startDay);
    DedupeDistinct(seen, events);
    OnTimeDistinct(Dedupe(seen, events), startDay);
    forall i | 0 <= i < |rows| ensures InWindow(rows[i], startDay) && rows[i].eventId !in seen {
      OnTimeExactly(Dedupe(seen, events), startDay, rows[i]);
    }
  }

  /**
   A new id of the batch is kept, in a row of one of its events, if every event of the batch with
   that id is on time.
   */
  lemma TransformKeeps(seen: set<string>, events: seq<Event>, startDay: int, k: nat) returns (r: Row)
    requires k < |events| && events[k].eventId !in seen
    requires forall i :: 0 <= i < |events| && events[i].eventId == events[k].eventId ==> ToRow(events[i]).ratingDate >= startDay - 5
    ensures r in Transform(seen, events, startDay) && r.eventId == events[k].eventId
    ensures exists i :: 0 <= i < |events| && r == ToRow(events[i])
  {
    DedupeKeepsEveryId(seen, events, k);
    var e :| e in Dedupe(seen, events) && e.eventId == events[k].eventId;
    DedupeDistinct(seen, events);
    var i :| 0 <= i < |events| && events[i] == e;
    r := ToRow(e);
    OnTimeExactly(Dedupe(seen, events), startDay, r);
  }

  // -------------------------------------------------- MERGE into the sink table

  /** The merge condition; without pruning the date plays no part. */
  predicate Matches(target: Row, source: Row, prune: Option<int>)
  {
    && target.eventId == source.eventId
    && (prune.Some? ==> InWindow(target, prune.value))
  }

  /** The first source row that matches a target row. */
  function SourceFor(target: Row, batch: seq<Row>, prune: Option<int>): (r: Option<Row>)
    ensures r.Some? ==> r.value in batch && Matches(target, r.value, prune)
    ensures r.None? ==> forall i :: 0 <= i < |batch| ==> !Matches(target, batch[i], prune)
  {
    if batch == [] then None
    else if Matches(target, batch[0], prune) then Some(batch[0])
    else SourceFor(target, batch[1..], prune)
  }

  /** whenMatchedUpdateAll. */
  function Updated(target: Row, batch: seq<Row>, prune: Option<int>): Row
  {
    var source := SourceFor(target, batch, prune);
    if source.Some? then source.value else target
  }

  predicate Unmatched(table: seq<Row>, source: Row, prune: Option<int>)
  {
    forall i :: 0 <= i < |table| ==> !Matches(table[i], source, prune)
  }

  /** whenNotMatchedInsertAll. */
  function Inserts(table: seq<Row>, batch: seq<Row>, prune: Option<int>): seq<Row>
  {
    if batch == [] then []
    else (if Unmatched(table, batch[0], prune) then [batch[0]] else []) + Inserts(table, batch[1..], prune)
  }

  function Merge(table: seq<Row>, batch: seq<Row>, prune: Option<int>): seq<Row>
  {
    seq(|table|, i requires 0 <= i < |table| => Updated(table[i], batch, prune)) + Inserts(table, batch, prune)
  }

  /** Two source rows match one target row; Delta rejects such a merge. */
  predicate Ambiguous(table: seq<Row>, batch: seq<Row>, prune: Option<int>)
  {
    exists i, j, k :: 0 <= i < |table| && 0 <= j < k < |batch| &&
                      Matches(table[i], batch[j], prune) && Matches(table[i], batch[k], prune)
  }

  lemma DistinctNeverAmbiguous(table: seq<Row>, batch: seq<Row>, prune: Option<int>)
    requires DistinctIds(batch)
    ensures !Ambiguous(table, batch, prune)
  {
  }

  lemma {:induction false} InsertsExactly(table: seq<Row>, batch: seq<Row>, prune: Option<int>)
    ensures forall r :: r in Inserts(table, batch, prune) <==> r in batch && Unmatched(table, r, prune)
    ensures DistinctIds(batch) ==> DistinctIds(Inserts(table, batch, prune))
  {
    if batch != [] {
      var rest := Inserts(table, batch[1..], prune);
      InsertsExactly(table, batch[1..], prune);
      assert batch == [batch[0]] + batch[1..];
      if DistinctIds(batch) {
        forall i | 0 <= i < |rest| ensures rest[i].eventId != batch[0].eventId {
          assert rest[i] in rest;
          var k :| 0 <= k < |batch[1..]| && batch[1..][k] == rest[i];
          assert batch[k + 1] == rest[i];
        }
      }
    }
  }

  lemma {:induction false} NoInserts(table: seq<Row>, batch: seq<Row>, prune: Option<int>)
    requires forall j :: 0 <= j < |batch| ==> !Unmatched(table, batch[j], prune)
    ensures Inserts(table, batch, prune) == []
  {
    if batch != [] { NoInserts(table, batch[1..], prune); }
  }

  // ---------------------------------------- the simple form: last writer wins

  function Write(m: map<string, Row>, batch: seq<Row>): map<string, Row>
  {
    if batch == [] then m
    else
      var n := |batch| - 1;
      Write(m, batch[..n])[batch[n].eventId := batch[n]]
  }

  lemma {:induction false} WrittenEntry(m: map<string, Row>, batch: seq<Row>, i: nat)
    requires DistinctIds(batch) && i < |batch|
    ensures batch[i].eventId in Write(m, batch) && Write(m, batch)[batch[i].eventId] == batch[i]
  {
    var n := |batch| - 1;
    if i < n { WrittenEntry(m, batch[..n], i); }
  }

  lemma {:induction false} UnwrittenEntry(m: map<string, Row>, batch: seq<Row>, id: string)
    requires forall i :: 0 <= i < |batch| ==> batch[i].eventId != id
    ensures (id in Write(m, batch) <==> id in m) && (id in m ==> Write(m, batch)[id] == m[id])
  {
    if batch != [] { UnwrittenEntry(m, batch[..|batch| - 1], id); }
  }

  lemma WriteEntries(m: map<string, Row>, batch: seq<Row>)
    requires DistinctIds(batch)
    ensures forall i :: 0 <= i < |batch| ==>
              batch[i].eventId in Write(m, batch) && Write(m, batch)[batch[i].eventId] == batch[i]
    ensures forall id :: (forall i :: 0 <= i < |batch| ==> batch[i].eventId != id) ==>
              (id in Write(m, batch) <==> id in m) && (id in m ==> Write(m, batch)[id] == m[id])
  {
    forall i | 0 <= i < |batch| ensures batch[i].eventId in Write(m, batch) && Write(m, batch)[batch[i].eventId] == batch[i] {
      WrittenEntry(m, batch, i);
    }
    forall id | forall i :: 0 <= i < |batch| ==> batch[i].eventId != id
      ensures (id in Write(m, batch) <==> id in m) && (id in m ==> Write(m, batch)[id] == m[id])
    {
      UnwrittenEntry(m, batch, id);
    }
  }

  /** The rows of the last five days are the in-window part of the map, one row per id. */
  ghost predicate Refines(table: seq<Row>, m: map<string, Row>, day: int)
  {
    && (forall i :: 0 <= i < |table| && InWindow(table[i], day) ==>
          table[i].eventId in m && m[table[i].eventId] == table[i])
    && (forall id :: id in m ==> m[id].eventId == id)
    && (forall id :: id in m && InWindow(m[id], day) ==> m[id] in table)
    && (forall i, j :: 0 <= i < j < |table| && InWindow(table[i], day) && InWindow(table[j], day) ==>
          table[i].eventId != table[j].eventId)
  }

  /** Every row of a merged table is a kept target row, an updated one or an inserted one. */
  lemma MergedRow(table: seq<Row>, batch: seq<Row>, prune: Option<int>, k: nat)
    requires k < |Merge(table, batch, prune)|
    ensures k < |table| ==> Merge(table, batch, prune)[k] == Updated(table[k], batch, prune)
    ensures |table| <= k ==> Merge(table, batch, prune)[k] in batch && Unmatched(table, Merge(table, batch, prune)[k], prune)
  {
    if |table| <= k {
      InsertsExactly(table, batch, prune);
      assert Merge(table, batch, prune)[k] in Inserts(table, batch, prune);
    }
  }

  lemma DistinctRow(batch: seq<Row>, r: Row, s: Row)
    requires DistinctIds(batch) && r in batch && s in batch && r.eventId == s.eventId
    ensures r == s
  {
  }

  /** An in-window row of the merged table is what the map holds. */
  lemma MergedRowInMap(table: seq<Row>, m: map<string, Row>, batch: seq<Row>, day: int, k: nat)
    requires Refines(table, m, day) && DistinctIds(batch)
    requires k < |Merge(table, batch, Some(day))| && InWindow(Merge(table, batch, Some(day))[k], day)
    ensures var r := Merge(table, batch, Some(day))[k];
            r.eventId in Write(m, batch) && Write(m, batch)[r.eventId] == r
  {
    var r := Merge(table, batch, Some(day))[k];
    MergedRow(table, batch, Some(day), k);
    WriteEntries(m, batch);
    if r in batch {
      var i :| 0 <= i < |batch| && batch[i] == r;
    } else {
      assert r == table[k];
      forall i | 0 <= i < |batch| ensures batch[i].eventId != r.eventId {
        assert !Matches(table[k], batch[i], Some(day));
      }
    }
  }

  /** An update keeps the id, and what was out of the window stays as it was. */
  lemma UpdatedSameId(target: Row, batch: seq<Row>, day: int)
    ensures Updated(target, batch, Some(day)).eventId == target.eventId
    ensures InWindow(Updated(target, batch, Some(day)), day) ==> InWindow(target, day)
  {
  }

  /** Two in-window rows of the merged table have different ids. */
  lemma MergedRowsDiffer(table: seq<Row>, m: map<string, Row>, batch: seq<Row>, day: int, i: nat, j: nat)
    requires Refines(table, m, day) && DistinctIds(batch)
    requires i < j < |Merge(table, batch, Some(day))|
    requires InWindow(Merge(table, batch, Some(day))[i], day) && InWindow(Merge(table, batch, Some(day))[j], day)
    ensures Merge(table, batch, Some(day))[i].eventId != Merge(table, batch, Some(day))[j].eventId
  {
    var merged := Merge(table, batch, Some(day));
    MergedRow(table, batch, Some(day), i);
    MergedRow(table, batch, Some(day), j);
    if |table| <= i {
      InsertsExactly(table, batch, Some(day));
      var n := |table|;
      assert merged[i] == Inserts(table, batch, Some(day))[i - n];
      assert merged[j] == Inserts(table, batch, Some(day))[j - n];
    } else if |table| <= j {
      assert !Matches(table[i], merged[j], Some(day));
      UpdatedSameId(table[i], batch, day);
    } else {
      UpdatedSameId(table[i], batch, day);
      UpdatedSameId(table[j], batch, day);
    }
  }

  /** Every source row is in the merged table. */
  lemma WrittenRowInMerged(table: seq<Row>, batch: seq<Row>, day: int, b: nat)
    requires DistinctIds(batch) && b < |batch|
    ensures batch[b] in Merge(table, batch, Some(day))
  {
    var merged := Merge(table, batch, Some(day));
    if k :| 0 <= k < |table| && Matches(table[k], batch[b], Some(day)) {
      var r := SourceFor(table[k], batch, Some(day));
      DistinctRow(batch, r.value, batch[b]);
      assert merged[k] == batch[b];
    } else {
      InsertsExactly(table, batch, Some(day));
      assert batch[b] in Inserts(table, batch, Some(day));
      var x :| 0 <= x < |Inserts(table, batch, Some(day))| && Inserts(table, batch, Some(day))[x] == batch[b];
      assert merged[|table| + x] == batch[b];
    }
  }

  lemma MapRowInMerged(table: seq<Row>, m: map<string, Row>, batch: seq<Row>, day: int, id: string)
    requires Refines(table, m, day) && DistinctIds(batch)
    requires id in Write(m, batch) && InWindow(Write(m, batch)[id], day)
    ensures Write(m, batch)[id] in Merge(table, batch, Some(day))
  {
    var merged, m' := Merge(table, batch, Some(day)), Write(m, batch);
    WriteEntries(m, batch);
    if b :| 0 <= b < |batch| && batch[b].eventId == id {
      WrittenRowInMerged(table, batch, day, b);
    } else {
      var k :| 0 <= k < |table| && table[k] == m[id];
      MergedRow(table, batch, Some(day), k);
      assert merged[k] == table[k];
    }
  }

  lemma WriteKeepsIds(m: map<string, Row>, batch: seq<Row>)
    requires DistinctIds(batch) && forall id :: id in m ==> m[id].eventId == id
    ensures forall id :: id in Write(m, batch) ==> Write(m, batch)[id].eventId == id
  {
  }

  lemma RefinesLater(table: seq<Row>, m: map<string, Row>, day: int, later: int)
    requires Refines(table, m, day) && day <= later
    ensures Refines(table, m, later)
  {
  }

  /** A pruned merge of a batch with distinct ids refines writing the batch to the map. */
  lemma MergeRefines(table: seq<Row>, m: map<string, Row>, batch: seq<Row>, day: int)
    requires Refines(table, m, day) && DistinctIds(batch)
    ensures Refines(Merge(table, batch, Some(day)), Write(m, batch), day)
  {
    var merged, m' := Merge(table, batch, Some(day)), Write(m, batch);
    forall k | 0 <= k < |merged| && InWindow(merged[k], day)
      ensures merged[k].eventId in m' && m'[merged[k].eventId] == merged[k]
    {
      MergedRowInMap(table, m, batch, day, k);
    }
    forall id | id in m' && InWindow(m'[id], day) ensures m'[id] in merged {
      MapRowInMerged(table, m, batch, day, id);
    }
    forall i, j | 0 <= i < j < |merged| && InWindow(merged[i], day) && InWindow(merged[j], day)
      ensures merged[i].eventId != merged[j].eventId
    {
      MergedRowsDiffer(table, m, batch, day, i, j);
    }
    WriteKeepsIds(m, batch);
  }

  // -------------------------------------------------------------- whole runs

  /** A micro-batch handed to the sink, and the calendar day it is merged on. */
  datatype MicroBatch = MicroBatch(day: int, rows: seq<Row>)

  ghost predicate DaysAdvance(batches: seq<MicroBatch>)
  {
    forall i, j :: 0 <= i < j < |batches| ==> batches[i].day <= batches[j].day
  }

  function SinkAfter(batches: seq<MicroBatch>): seq<Row>
  {
    if batches == [] then []
    else
      var n := |batches| - 1;
      Merge(SinkAfter(batches[..n]), batches[n].rows, Some(batches[n].day))
  }

  function LastWriter(batches: seq<MicroBatch>): map<string, Row>
  {
    if batches == [] then map[]
    else
      var n := |batches| - 1;
      Write(LastWriter(batches[..n]), batches[n].rows)
  }

  /**
   After every sequence of batches on advancing days the in-window rows of the sink are exactly the
   in-window part of the last-writer map, on the last day and on every later one.
   */
  lemma {:induction false} SinkRefines(batches: seq<MicroBatch>, today: int)
    requires DaysAdvance(batches)
    requires forall i :: 0 <= i < |batches| ==> DistinctIds(batches[i].rows) && batches[i].day <= today
    ensures Refines(SinkAfter(batches), LastWriter(batches), today)
  {
    if batches != [] {
      var n := |batches| - 1;
      SinkRefines(batches[..n], batches[n].day);
      MergeRefines(SinkAfter(batches[..n]), LastWriter(batches[..n]), batches[n].rows, batches[n].day);
      RefinesLater(SinkAfter(batches), LastWriter(batches), batches[n].day, today);
    }
  }

  // -------------------------------- when pruning changes the rest of the table

  /** A source row whose id the table holds only in a row that the condition no longer looks at. */
  ghost predicate StaleHit(table: seq<Row>, batch: seq<Row>, day: int)
  {
    exists i, j :: 0 <= i < |table| && 0 <= j < |batch| && table[i].eventId == batch[j].eventId && !InWindow(table[i], day)
  }

  lemma {:induction false} InsertsSame(table: seq<Row>, batch: seq<Row>, day: int)
    requires forall j :: 0 <= j < |batch| ==> (Unmatched(table, batch[j], Some(day)) <==> Unmatched(table, batch[j], None))
    ensures Inserts(table, batch, Some(day)) == Inserts(table, batch, None)
  {
    if batch != [] { InsertsSame(table, batch[1..], day); }
  }

  lemma {:induction false} SameSource(target: Row, batch: seq<Row>, day: int)
    requires forall j :: 0 <= j < |batch| ==> (Matches(target, batch[j], Some(day)) <==> Matches(target, batch[j], None))
    ensures SourceFor(target, batch, Some(day)) == SourceFor(target, batch, None)
  {
    if batch != [] { SameSource(target, batch[1..], day); }
  }

  lemma StaleHitDuplicates(table: seq<Row>, batch: seq<Row>, day: int, i: nat, j: nat)
    requires DistinctIds(table) && DistinctIds(batch) && i < |table| && j < |batch|
    requires table[i].eventId == batch[j].eventId && !InWindow(table[i], day)
    ensures !DistinctIds(Merge(table, batch, Some(day)))
  {
    var pruned := Merge(table, batch, Some(day));
    MergedRow(table, batch, Some(day), i);
    assert pruned[i] == table[i];
    forall k | 0 <= k < |table| ensures !Matches(table[k], batch[j], Some(day)) {
      assert k < i || k == i || i < k;
    }
    InsertsExactly(table, batch, Some(day));
    assert batch[j] in Inserts(table, batch, Some(day));
    var x :| 0 <= x < |Inserts(table, batch, Some(day))| && Inserts(table, batch, Some(day))[x] == batch[j];
    assert pruned[|table| + x] == batch[j];
  }

  lemma FullMergeDistinct(table: seq<Row>, batch: seq<Row>)
    requires DistinctIds(table) && DistinctIds(batch)
    ensures DistinctIds(Merge(table, batch, None))
  {
    var full, n := Merge(table, batch, None), |table|;
    InsertsExactly(table, batch, None);
    forall i, j | 0 <= i < j < |full| ensures full[i].eventId != full[j].eventId {
      MergedRow(table, batch, None, i);
      MergedRow(table, batch, None, j);
      if n <= i {
        assert full[i] == Inserts(table, batch, None)[i - n] && full[j] == Inserts(table, batch, None)[j - n];
      } else if n <= j {
        assert !Matches(table[i], full[j], None);
      }
    }
  }

  /**
   On a table with one row per id the pruned merge gives the same table as the full one if and only
   if there is no stale hit.
   */
  lemma PrunedIsFullIff(table: seq<Row>, batch: seq<Row>, day: int)
    requires DistinctIds(table) && DistinctIds(batch)
    ensures Merge(table, batch, Some(day)) == Merge(table, batch, None) <==> !StaleHit(table, batch, day)
  {
    var pruned, full := Merge(table, batch, Some(day)), Merge(table, batch, None);
    if StaleHit(table, batch, day) {
      var i, j :| 0 <= i < |table| && 0 <= j < |batch| && table[i].eventId == batch[j].eventId && !InWindow(table[i], day);
      StaleHitDuplicates(table, batch, day, i, j);
      FullMergeDistinct(table, batch);
    } else {
      forall i, j | 0 <= i < |table| && 0 <= j < |batch|
        ensures Matches(table[i], batch[j], Some(day)) <==> Matches(table[i], batch[j], None)
      {
      }
      forall i | 0 <= i < |table| ensures pruned[i] == full[i] {
        MergedRow(table, batch, Some(day), i);
        MergedRow(table, batch, None, i);
        SameSource(table[i], batch, day);
      }
      InsertsSame(table, batch, day);
    }
  }

  /** The sink keeps one row per id across a merge if and only if there is no stale hit. */
  lemma OneRowPerIdIff(table: seq<Row>, batch: seq<Row>, day: int)
    requires DistinctIds(table) && DistinctIds(batch)
    ensures DistinctIds(Merge(table, batch, Some(day))) <==> !StaleHit(table, batch, day)
  {
    if StaleHit(table, batch, day) {
      var i, j :| 0 <= i < |table| && 0 <= j < |batch| && table[i].eventId == batch[j].eventId && !InWindow(table[i], day);
      StaleHitDuplicates(table, batch, day, i, j);
    } else {
      PrunedIsFullIff(table, batch, day);
      FullMergeDistinct(table, batch);
    }
  }

  /**
   A micro-batch delivered again on a later day leaves the sink unchanged if and only if all its
   rows are still within the window.
   */
  lemma RetryUnchangedIff(table: seq<Row>, m: map<string, Row>, batch: seq<Row>, day: int)
    requires Refines(table, m, day) && DistinctIds(batch)
    requires forall j :: 0 <= j < |batch| ==> batch[j].eventId in m && m[batch[j].eventId] == batch[j]
    ensures Merge(table, batch, Some(day)) == table <==> forall j :: 0 <= j < |batch| ==> InWindow(batch[j], day)
  {
    var merged := Merge(table, batch, Some(day));
    InsertsExactly(table, batch, Some(day));
    if forall j :: 0 <= j < |batch| ==> InWindow(batch[j], day) {
      forall j | 0 <= j < |batch| ensures !Unmatched(table, batch[j], Some(day)) {
        var k :| 0 <= k < |table| && table[k] == batch[j];
        assert Matches(table[k], batch[j], Some(day));
      }
      NoInserts(table, batch, Some(day));
      forall i | 0 <= i < |table| ensures merged[i] == table[i] {
        MergedRow(table, batch, Some(day), i);
      }
    } else {
      var j :| 0 <= j < |batch| && !InWindow(batch[j], day);
      assert batch[j] in Inserts(table, batch, Some(day));
      assert |merged| > |table|;
    }
  }

  // ------------------------------------------------------------------ the sink

  class Sink {
    var isDeltaTable: bool
    var rows: seq<Row>

    constructor ()
      ensures !isDeltaTable && rows == []
    {
      isDeltaTable, rows := false, [];
    }

    method CreateIfNotExists()
      modifies this
      ensures isDeltaTable
      ensures rows == if old(isDeltaTable) then old(rows) else []
    {
      if !isDeltaTable {
        isDeltaTable, rows := true, [];
      }
    }

    /** An ambiguous merge fails and leaves the table as it was; distinct ids are never ambiguous. */
    method UpsertToSink(batch: seq<Row>, today: int) returns (ok: bool)
      modifies this
      ensures isDeltaTable
      ensures var before := if old(isDeltaTable) then old(rows) else [];
              && ok == !Ambiguous(before, batch, Some(today))
              && rows == if ok then Merge(before, batch, Some(today)) else before
      ensures DistinctIds(batch) ==> ok
    {
      CreateIfNotExists();
      ok := !Ambiguous(rows, batch, Some(today));
      if ok {
        rows := Merge(rows, batch, Some(today));
      }
    }
  }
}
