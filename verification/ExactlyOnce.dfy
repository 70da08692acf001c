/**
 Runs of OrderDetailsService over a partitioned orders topic, with crashes and restarts.  Offsets
 are recorded for CREATED orders only, so the committed offset may lag behind the consumer's
 position; the transaction makes the verdicts and the offsets visible together.
 */
module ExactlyOnce {
  import opened Options
  import opened Orders
  import opened OrderDetailsService

  /** One partition of the orders topic, and what broker and consumer know about it. */
  datatype Partition = Partition(
    log: seq<Order>,                // the topic
    committed: nat,                 // committed offset of the consumer group
    output: seq<OrderValidation>,   // committed verdicts on this partition's orders
    position: nat,                  // next record the consumer processes
    fetched: nat,                   // end of the batch being processed
    offset: Option<nat>,            // entry in consumedOffsets
    pending: seq<OrderValidation>)  // verdicts sent in the open transaction

  datatype Phase = Down | Idle | InTransaction

  datatype State = State(phase: Phase, parts: seq<Partition>)

  datatype Action =
    | Append(partition: nat, order: Order)  // another service writes to the topic
    | Start
    | Poll(ends: seq<nat>)                  // poll returned records; beginTransaction
    | Process(partition: nat)               // one turn of the loop over the records
    | Commit                                // sendOffsetsToTransaction and commitTransaction
    | Crash

  // --------------------------------------------------- one partition at a time

  function Started(p: Partition): Partition
  {
    p.(position := p.committed, fetched := p.committed, offset := None, pending := [])
  }

  function Processed(p: Partition): Partition
    requires p.position < |p.log|
  {
    var order := p.log[p.position];
    var p' := p.(position := p.position + 1);
    if order.state == CREATED
    then p'.(pending := p.pending + [Result(order)], offset := Some(p.position + 1))
    else p'
  }

  function Committed(p: Partition): Partition
  {
    p.(output := p.output + p.pending, pending := [],
       committed := if p.offset.Some? then p.offset.value else p.committed)
  }

  /** A crash aborts the open transaction; what the consumer held in memory is gone. */
  function Crashed(p: Partition): Partition
  {
    p.(pending := [], offset := None)
  }

  // ------------------------------------------------------------------ the runs

  predicate Enabled(s: State, a: Action)
  {
    match a
    case Append(p, _) => p < |s.parts|
    case Start => s.phase == Down
    case Poll(ends) =>
      && s.phase == Idle && |ends| == |s.parts|
      && (forall i :: 0 <= i < |ends| ==> s.parts[i].position <= ends[i] <= |s.parts[i].log|)
      && (exists i :: 0 <= i < |ends| && s.parts[i].position < ends[i])
    case Process(p) =>
      s.phase == InTransaction && p < |s.parts| && s.parts[p].position < s.parts[p].fetched <= |s.parts[p].log|
    case Commit => s.phase == InTransaction && forall i :: 0 <= i < |s.parts| ==> s.parts[i].position == s.parts[i].fetched
    case Crash => s.phase != Down
  }

  function Next(s: State, a: Action): (s': State)
    requires Enabled(s, a)
    ensures |s'.parts| == |s.parts|
  {
    var n := |s.parts|;
    match a
    case Append(p, order) => s.(parts := s.parts[p := s.parts[p].(log := s.parts[p].log + [order])])
    case Start => State(Idle, seq(n, i requires 0 <= i < n => Started(s.parts[i])))
    case Poll(ends) => State(InTransaction, seq(n, i requires 0 <= i < n => s.parts[i].(fetched := ends[i])))
    case Process(p) => s.(parts := s.parts[p := Processed(s.parts[p])])
    case Commit => State(Idle, seq(n, i requires 0 <= i < n => Committed(s.parts[i])))
    case Crash => State(Down, seq(n, i requires 0 <= i < n => Crashed(s.parts[i])))
  }

  predicate Init(s: State)
  {
    s.phase == Down && forall i :: 0 <= i < |s.parts| ==> s.parts[i] == Partition([], 0, [], 0, 0, None, [])
  }

  /** A run: legal steps from an initial state. */
  ghost predicate IsRun(states: seq<State>, actions: seq<Action>)
  {
    && |states| == |actions| + 1
    && Init(states[0])
    && forall i :: 0 <= i < |actions| ==> Enabled(states[i], actions[i]) && states[i + 1] == Next(states[i], actions[i])
  }

  // ------------------------------------------------------------- the invariant

  /** What is committed: exactly the verdicts owed up to the committed offset. */
  ghost predicate CommittedExactly(p: Partition)
  {
    p.committed <= |p.log| && p.output == Owed(p.log[..p.committed])
  }

  /** What the consumer holds: the verdicts owed from there to its position, and where to resume. */
  ghost predicate Tracked(p: Partition)
  {
    && p.committed <= p.position <= p.fetched <= |p.log|
    && p.output + p.pending == Owed(p.log[..p.position])
    && var resume := if p.offset.Some? then p.offset.value else p.committed;
       p.committed <= resume <= p.position && NoneCreated(p.log[resume..p.position])
  }

  ghost predicate Settled(p: Partition)
  {
    && p.pending == [] && p.position == p.fetched
    && (p.offset.Some? ==> p.offset.value == p.committed)
  }

  ghost predicate PartInv(p: Partition, phase: Phase)
  {
    && CommittedExactly(p)
    && (phase != Down ==> Tracked(p))
    && (phase == Idle ==> Settled(p))
  }

  ghost predicate Inv(s: State)
  {
    forall i :: 0 <= i < |s.parts| ==> PartInv(s.parts[i], s.phase)
  }

  lemma StartedInv(p: Partition)
    requires CommittedExactly(p)
    ensures PartInv(Started(p), Idle)
  {
  }

  lemma AppendInv(p: Partition, order: Order, phase: Phase)
    requires PartInv(p, phase)
    ensures PartInv(p.(log := p.log + [order]), phase)
  {
    var log := p.log + [order];
    assert log[..p.committed] == p.log[..p.committed];
    if phase != Down {
      var resume := if p.offset.Some? then p.offset.value else p.committed;
      assert log[..p.position] == p.log[..p.position];
      assert log[resume..p.position] == p.log[resume..p.position];
    }
  }

  /** The verdict owed for one more record. */
  lemma OwedNext(log: seq<Order>, k: nat)
    requires k < |log|
    ensures Owed(log[..k + 1]) == Owed(log[..k]) + (if log[k].state == CREATED then [Result(log[k])] else [])
  {
    assert log[..k + 1][..k] == log[..k];
  }

  lemma NoneCreatedNext(log: seq<Order>, from: nat, k: nat)
    requires from <= k < |log| && NoneCreated(log[from..k]) && log[k].state != CREATED
    ensures NoneCreated(log[from..k + 1])
  {
    assert log[from..k + 1] == log[from..k] + [log[k]];
  }

  lemma ProcessedCreated(p: Partition)
    requires Tracked(p) && p.position < p.fetched && p.log[p.position].state == CREATED
    ensures Tracked(Processed(p))
  {
    var p' := Processed(p);
    OwedNext(p.log, p.position);
    assert p'.output + p'.pending == (p.output + p.pending) + [Result(p.log[p.position])];
    assert p'.log[p.position + 1..p'.position] == [];
  }

  lemma ProcessedSkipped(p: Partition)
    requires Tracked(p) && p.position < p.fetched && p.log[p.position].state != CREATED
    ensures Tracked(Processed(p))
  {
    OwedNext(p.log, p.position);
    NoneCreatedNext(p.log, if p.offset.Some? then p.offset.value else p.committed, p.position);
  }

  lemma ProcessedInv(p: Partition)
    requires PartInv(p, InTransaction) && p.position < p.fetched
    ensures PartInv(Processed(p), InTransaction)
  {
    if p.log[p.position].state == CREATED { ProcessedCreated(p); } else { ProcessedSkipped(p); }
  }

  lemma CommittedInv(p: Partition)
    requires PartInv(p, InTransaction) && p.position == p.fetched
    ensures PartInv(Committed(p), Idle)
  {
    var resume := if p.offset.Some? then p.offset.value else p.committed;
    var consumed := p.log[..p.position];
    assert consumed[resume..] == p.log[resume..p.position];
    OwedSkips(consumed, resume);
    assert consumed[..resume] == p.log[..resume];
  }

  lemma NextInv(s: State, a: Action)
    requires Inv(s) && Enabled(s, a)
    ensures Inv(Next(s, a))
  {
    var s' := Next(s, a);
    forall i | 0 <= i < |s.parts| ensures PartInv(s'.parts[i], s'.phase) {
      var p := s.parts[i];
      assert PartInv(p, s.phase);
      match a {
        case Append(k, order) => if k == i { AppendInv(p, order, s.phase); }
        case Start => StartedInv(p);
        case Poll(ends) => assert s'.parts[i] == p.(fetched := ends[i]);
        case Process(k) => if k == i { ProcessedInv(p); }
        case Commit => CommittedInv(p);
        case Crash => assert s'.parts[i] == Crashed(p);
      }
    }
  }

  lemma {:induction false} RunInv(states: seq<State>, actions: seq<Action>, k: nat)
    requires IsRun(states, actions) && k < |states|
    ensures Inv(states[k])
  {
    if k > 0 {
      RunInv(states, actions, k - 1);
      NextInv(states[k - 1], actions[k - 1]);
    }
  }

  // ------------------------------------------------------------------ theorems

  /**
   In every state of every run, crashes included, the committed verdicts of a partition are exactly
   one per CREATED order below the committed offset, in order.
   */
  lemma ExactlyOnceAlways(states: seq<State>, actions: seq<Action>, k: nat, i: nat)
    requires IsRun(states, actions) && k < |states| && i < |states[k].parts|
    ensures CommittedExactly(states[k].parts[i])
  {
    RunInv(states, actions, k);
  }

  /**
   Between transactions the committed verdicts also cover everything consumed: the stretch that a
   crash would replay holds no CREATED order, so replaying it sends nothing.
   */
  lemma IdleCoversPosition(states: seq<State>, actions: seq<Action>, k: nat, i: nat)
    requires IsRun(states, actions) && k < |states| && i < |states[k].parts| && states[k].phase == Idle
    ensures var p := states[k].parts[i];
            && p.committed <= p.position <= |p.log|
            && p.output == Owed(p.log[..p.position])
            && NoneCreated(p.log[p.committed..p.position])
            && (p.position == |p.log| ==> p.output == Owed(p.log))
  {
    var p := states[k].parts[i];
    RunInv(states, actions, k);
    assert PartInv(p, Idle);
    assert p.log[..|p.log|] == p.log;
  }

  /** No step takes back a committed offset or a committed verdict. */
  lemma NeverBack(s: State, a: Action, i: nat)
    requires Inv(s) && Enabled(s, a) && i < |s.parts|
    ensures var p, p' := s.parts[i], Next(s, a).parts[i];
            p.committed <= p'.committed && p.output <= p'.output && p.log <= p'.log
  {
  }

  /** Along a run committed offsets and committed verdicts only grow. */
  lemma {:induction false} RunNeverBack(states: seq<State>, actions: seq<Action>, j: nat, k: nat, i: nat)
    requires IsRun(states, actions) && j <= k < |states| && i < |states[j].parts|
    ensures i < |states[k].parts|
    ensures states[j].parts[i].committed <= states[k].parts[i].committed
    ensures states[j].parts[i].output <= states[k].parts[i].output
    decreases k
  {
    if j < k {
      RunNeverBack(states, actions, j, k - 1, i);
      RunInv(states, actions, k - 1);
      NeverBack(states[k - 1], actions[k - 1], i);
    }
  }

  // ------------------------------------- the loop body and the steps of a run

  /** The record is the next one of its partition. */
  predicate Fetched(parts: seq<Partition>, r: Record)
  {
    && r.partition < |parts|
    && r.offset == parts[r.partition].position < |parts[r.partition].log|
    && r.order == parts[r.partition].log[r.offset]
  }

  /** The Process steps of a batch, in the order the loop takes the records. */
  function Consume(parts: seq<Partition>, records: seq<Record>): (r: Option<seq<Partition>>)
    ensures r.Some? ==> |r.value| == |parts|
  {
    if records == [] then Some(parts)
    else
      var n := |records| - 1;
      var before := Consume(parts, records[..n]);
      if before.Some? && Fetched(before.value, records[n])
      then Some(before.value[records[n].partition := Processed(before.value[records[n].partition])])
      else None
  }

  /** The steps of a batch leave the offset entries that the service's offset map ends with. */
  lemma {:induction false} BatchOffsets(parts: seq<Partition>, records: seq<Record>, i: nat)
    requires Consume(parts, records).Some? && i < |parts|
    ensures Consume(parts, records).value[i].offset ==
            if NextOffset(records, i).Some? then NextOffset(records, i) else parts[i].offset
  {
    if records != [] {
      BatchOffsets(parts, records[..|records| - 1], i);
    }
  }

  lemma SentForAppend(records: seq<Record>, partition: nat)
    requires records != []
    ensures var n := |records| - 1;
            SentFor(Owed(OrdersIn(records)), Sources(records), partition) ==
            SentFor(Owed(OrdersIn(records[..n])), Sources(records[..n]), partition) +
            (if IsCreatedOf(records[n], partition) then [Result(records[n].order)] else [])
  {
    var n := |records| - 1;
    var sent, sources := Owed(OrdersIn(records)), Sources(records);
    assert OrdersIn(records)[..n] == OrdersIn(records[..n]);
    if records[n].order.state == CREATED {
      var m := |sent| - 1;
      assert sent[..m] == Owed(OrdersIn(records[..n])) && sources[..m] == Sources(records[..n]);
    } else {
      assert sent == Owed(OrdersIn(records[..n])) && sources == Sources(records[..n]);
    }
  }

  /** The steps of a batch leave pending, for each partition, the verdicts the service sends for it, in order. */
  lemma {:induction false} BatchPending(parts: seq<Partition>, records: seq<Record>, i: nat)
    requires Consume(parts, records).Some? && i < |parts|
    ensures Consume(parts, records).value[i].pending ==
            parts[i].pending + SentFor(Owed(OrdersIn(records)), Sources(records), i)
  {
    if records != [] {
      BatchPending(parts, records[..|records| - 1], i);
      SentForAppend(records, i);
    }
  }

  /**
   The loop over a batch, with its offset map and the one sequence of verdicts it sends, does to
   every partition what the steps of a run do to it.
   */
  lemma LoopAgrees(parts: seq<Partition>, records: seq<Record>, before: map<nat, nat>, after: map<nat, nat>,
                   sent: seq<OrderValidation>, i: nat)
    requires Consume(parts, records).Some? && i < |parts|
    requires Lookup(before, i) == parts[i].offset
    requires OffsetsAfter(before, records, after) && sent == Owed(OrdersIn(records))
    ensures Lookup(after, i) == Consume(parts, records).value[i].offset
    ensures Consume(parts, records).value[i].pending == parts[i].pending + SentFor(sent, Sources(records), i)
  {
    BatchOffsets(parts, records, i);
    BatchPending(parts, records, i);
  }
}
