/**
 OrderDetailsService with exactly-once semantics on: a consume-transform-produce loop whose verdicts
 and consumed offsets are committed in one transaction, and which may crash at any point outside
 that commit and start again from the committed offsets.
 */
module OrderDetailsService {
  import opened Options
  import opened Orders

  // ---------------------------------------------------------- the validation

  predicate IsValid(order: Order)
  {
    order.quantity >= 0 && order.price >= 0.0 && order.product.Some?
  }

  /** FAIL for a negative quantity, a negative price or no product, PASS otherwise. */
  function Result(order: Order): (v: OrderValidation)
    ensures v.orderId == order.id && v.checkType == ORDER_DETAILS_CHECK
    ensures v.result == if order.quantity < 0 || order.price < 0.0 || order.product.None? then FAIL else PASS
  {
    OrderValidation(order.id, ORDER_DETAILS_CHECK, if IsValid(order) then PASS else FAIL)
  }

  /** The verdicts owed for a stretch of the orders topic: one per CREATED order, in order. */
  function Owed(orders: seq<Order>): seq<OrderValidation>
  {
    if orders == [] then []
    else
      var n := |orders| - 1;
      Owed(orders[..n]) + (if orders[n].state == CREATED then [Result(orders[n])] else [])
  }

  function CreatedIn(orders: seq<Order>): nat
  {
    if orders == [] then 0
    else
      var n := |orders| - 1;
      CreatedIn(orders[..n]) + (if orders[n].state == CREATED then 1 else 0)
  }

  /** Every CREATED order has exactly one verdict, its own, at its rank among the CREATED orders. */
  lemma {:induction false} OwedOnePerOrder(orders: seq<Order>)
    ensures |Owed(orders)| == CreatedIn(orders)
    ensures forall i :: 0 <= i < |orders| && orders[i].state == CREATED ==>
              CreatedIn(orders[..i]) < |Owed(orders)| && Owed(orders)[CreatedIn(orders[..i])] == Result(orders[i])
  {
    if orders != [] {
      var n := |orders| - 1;
      OwedOnePerOrder(orders[..n]);
      forall i | 0 <= i < n ensures orders[..n][..i] == orders[..i] {
      }
      forall i | 0 <= i < |orders| && orders[i].state == CREATED
        ensures CreatedIn(orders[..i]) < |Owed(orders)| && Owed(orders)[CreatedIn(orders[..i])] == Result(orders[i])
      {
        if i < n { assert orders[..n][i] == orders[i] && orders[..n][..i] == orders[..i]; }
      }
    }
  }

  predicate NoneCreated(orders: seq<Order>)
  {
    forall i :: 0 <= i < |orders| ==> orders[i].state != CREATED
  }

  lemma {:induction false} OwedSkips(orders: seq<Order>, k: nat)
    requires k <= |orders| && NoneCreated(orders[k..])
    ensures Owed(orders) == Owed(orders[..k])
  {
    var n := |orders| - 1;
    if k == |orders| {
      assert orders[..k] == orders;
    } else {
      assert orders[k..][n - k] == orders[n];
      assert orders[k..n] == orders[k..][..n - k];
      assert orders[..n][k..] == orders[k..n] && orders[..n][..k] == orders[..k];
      OwedSkips(orders[..n], k);
    }
  }

  // ----------------------------------------------------- the loop over a batch

  /** A consumed record: where it came from and what it holds. */
  datatype Record = Record(partition: nat, offset: nat, order: Order)

  function OrdersIn(records: seq<Record>): seq<Order>
  {
    seq(|records|, i requires 0 <= i < |records| => records[i].order)
  }

  /** The partition behind each verdict owed for a batch. */
  function Sources(records: seq<Record>): (r: seq<nat>)
    ensures |r| == |Owed(OrdersIn(records))|
  {
    if records == [] then []
    else
      var n := |records| - 1;
      assert OrdersIn(records)[..n] == OrdersIn(records[..n]);
      Sources(records[..n]) + (if records[n].order.state == CREATED then [records[n].partition] else [])
  }

  /** The verdicts sent for one partition. */
  function SentFor(sent: seq<OrderValidation>, sources: seq<nat>, partition: nat): seq<OrderValidation>
    requires |sent| == |sources|
  {
    if sent == [] then []
    else
      var n := |sent| - 1;
      SentFor(sent[..n], sources[..n], partition) + (if sources[n] == partition then [sent[n]] else [])
  }

  predicate IsCreatedOf(r: Record, partition: nat)
  {
    r.partition == partition && r.order.state == CREATED
  }

  /** One past the last CREATED record of a partition. */
  function NextOffset(records: seq<Record>, partition: nat): Option<nat>
  {
    if records == [] then None
    else
      var n := |records| - 1;
      if IsCreatedOf(records[n], partition) then Some(records[n].offset + 1) else NextOffset(records[..n], partition)
  }

  lemma {:induction false} NextOffsetIsLast(records: seq<Record>, partition: nat)
    ensures NextOffset(records, partition).None? <==>
            forall i :: 0 <= i < |records| ==> !IsCreatedOf(records[i], partition)
    ensures NextOffset(records, partition).Some? ==>
            exists i :: 0 <= i < |records| && IsCreatedOf(records[i], partition) &&
                        NextOffset(records, partition).value == records[i].offset + 1 &&
                        forall j :: i < j < |records| ==> !IsCreatedOf(records[j], partition)
  {
    if records != [] {
      var n := |records| - 1;
      NextOffsetIsLast(records[..n], partition);
      if IsCreatedOf(records[n], partition) {
      } else if NextOffset(records[..n], partition).Some? {
        var i :| 0 <= i < n && IsCreatedOf(records[..n][i], partition) &&
                 NextOffset(records[..n], partition).value == records[..n][i].offset + 1 &&
                 forall j :: i < j < n ==> !IsCreatedOf(records[..n][j], partition);
        assert IsCreatedOf(records[i], partition);
        assert forall j :: i < j < n ==> records[j] == records[..n][j];
      } else {
        assert forall i :: 0 <= i < n ==> records[i] == records[..n][i];
      }
    }
  }

  function Lookup(offsets: map<nat, nat>, partition: nat): Option<nat>
  {
    if partition in offsets then Some(offsets[partition]) else None
  }

  /** The offset map after a batch: partitions without a CREATED record keep their entry. */
  ghost predicate OffsetsAfter(before: map<nat, nat>, records: seq<Record>, after: map<nat, nat>)
  {
    forall p: nat :: Lookup(after, p) == if NextOffset(records, p).Some? then NextOffset(records, p) else Lookup(before, p)
  }

  class Service {
    var consumedOffsets: map<nat, nat>

    constructor ()
      ensures consumedOffsets == map[]
    {
      consumedOffsets := map[];
    }

    /** A recorded offset is one past the record, and no other partition's entry moves. */
    method RecordOffset(record: Record)
      modifies this
      ensures Lookup(consumedOffsets, record.partition) == Some(record.offset + 1)
      ensures forall p: nat :: p != record.partition ==> Lookup(consumedOffsets, p) == Lookup(old(consumedOffsets), p)
    {
      consumedOffsets := consumedOffsets[record.partition := record.offset + 1];
    }

    /** The transaction body: sends one verdict per CREATED record and records its offset. */
    method ProcessRecords(records: seq<Record>) returns (sent: seq<OrderValidation>)
      modifies this
      ensures sent == Owed(OrdersIn(records))
      ensures OffsetsAfter(old(consumedOffsets), records, consumedOffsets)
    {
      sent := [];
      for k := 0 to |records|
        invariant sent == Owed(OrdersIn(records[..k]))
        invariant OffsetsAfter(old(consumedOffsets), records[..k], consumedOffsets)
      {
        var record := records[k];
        assert records[..k + 1][..k] == records[..k];
        assert OrdersIn(records[..k + 1])[..k] == OrdersIn(records[..k]);
        if record.order.state == CREATED {
          sent := sent + [Result(record.order)];
          RecordOffset(record);
        }
      }
      assert records[..|records|] == records;
    }
  }
}
