# Order services, movie-ratings sink, regression bisection and dashboard layout: a Dafny model

Four parts of the repository that carry state machines or algorithms, modelled in Dafny 4.11, with
proofs of what they promise.  `dafny verify dfyconfig.toml` checks the whole project.

**Order services.** CREATED orders are checked by three services that work independently; an
aggregator counts their verdicts and publishes each order as VALIDATED or FAILED.

- `Options.dfy`, `Orders.dfy`: optional values and the records of the topics.
- `SessionWindows.dfy`: the session store of one key, and why its windows are the maximal groups of
  the record times. Shared by the fraud check and the PASS counter, which differ in their mergers.
- `FraudService.dfy`, `InventoryService.dfy`, `OrderDetailsService.dfy`: the three checks.
- `PassCounts.dfy`, `ValidationsAggregator.dfy`: the PASS counter, the two joins and the table of failures.
- `ExactlyOnce.dfy`: runs of the details service with crashes, over a partitioned topic.
- `OrderPipeline.dfy`: all services as one step system with arbitrary delivery order;
  `PipelineInvariant.dfy`, `PipelineTheorems.dfy`, `PipelineTopic.dfy`, `PipelineQuiescence.dfy`: what
  holds of every run; `PipelinePaths.dfy`, `PipelineStranding.dfy`, `PipelineProspects.dfy`,
  `PipelineSettling.dfy`, `PipelineOverselling.dfy`: when a product can be sold beyond its stock.
- `OrdersView.dfy`: the long-poll view.

**Movie ratings** (`MovieRatings.dfy`): deduplicated micro-batches merged into a table by a MERGE whose
condition is pruned to the last five days, against a plain last-writer map; `RatingsStream.dfy`: whole
runs of the stream, over several processes, with and without retried batches.

**Bisection** (`Bisection.dfy`): the binary search of `find-regression.py`, handed from CI step to CI step.

**Dashboard layout** (`GridLayout.dfy`): the 24-column grid allocator.

Services and objects that the source updates in place are classes; each method is proved against the
functions that the theorems are about. The gaps of the exercise files are filled as their comments say;
the finished versions under `000-4-confluent-examples-7.8.0-post/microservices-orders/src/main/java` do
the same, except that they give the windows and joins no grace
(`src/main/java/io/confluent/examples/streams/microservices/ValidationsAggregatorService.java:108`, `:125` and `:134`,
`FraudService.java:92`), so that they drop late records, which the exercise versions and this model keep.

## Findings

Properties that one would expect and the code does not have; each comes with the exact condition.
File names are those of the source column below.

- `ValidationsAggregatorService.java:115`: the PASS counter's merger keeps the later of two counts, so
  three PASS verdicts can leave a count of two (`BridgeLosesCount`). Counts are exact iff no verdict joins
  two groups of earlier verdicts of which the left one holds a PASS (`CountsExactIff`), and an order with
  three PASS verdicts is VALIDATED iff `Approved` holds (`Decision`).
- `InventoryService.java:162`: the inventory check accepts every negative quantity, which frees stock that
  is not there (`OversellsIff`); the details check fails such an order, but its reservation stays. With one
  unit in stock, orders of -5 and then 6 end with six units VALIDATED (`SixSoldOfOne`, and for every count
  and negative quantity `NegativeOrderOversellsCount`). Without a negative order among those that passed a
  product is never oversold (`NeverOversold`). A negative order alone does not decide it, since passed
  orders that fail another check strand stock the other way (`NegativeButSafe`). The exact condition, in
  every state: further orders of non-negative quantity can oversell iff the orders that passed and can no
  longer be VALIDATED, and the negative orders still to be taken, sum to less than nothing
  (`OversellableIff`). Such orders may have any price; one of negative price makes room in the fraud check.
- `InventoryService.java:123`: an order is dropped by the join if its product has no stock count at that
  moment; it then gets no inventory verdict, ever, and is never VALIDATED, even if the product is stocked
  later (`AnsweredByStock`, `UnstockedNeverValidated`).
- `stream.py:62` and `stream.py:95`: the late-event filter is fixed when a process starts, while the merge
  condition moves with the calendar. Delivered once per batch the table has one row per id all the same
  (`StreamIsLastWriter`). A batch that was merged but not yet marked as done is merged again by the process
  started next, with the filter date of that process; a rating is stored twice if it is on time for that
  start day but out of the window on the day of the merge (`OldRatingStoredTwice`). One row per id is kept
  iff no retry meets such a rating (`OneRowPerIdWithRetriesIff`), in particular if every retry is merged on
  the day its process started (`SameDayRetriesAreSafe`).
- `OrdersService.java:206-209`: a GET can be parked although the view holds its order, or can displace
  another waiting GET; the exact condition is `LosesIff` for a step and `RunLosesIff` for a run.

Where code and documentation disagree the code is followed. The header of `FraudService.java` (lines 44-49)
speaks of five minutes and a limit of 5000, the code (lines 55 and 100) of 2000 and one hour. The header of
`find-regression.py` (line 17) says that equal bounds are reported at once, the code runs the commit first
(`CheckForward`). The README of the ratings stream (line 8) says that events older than five days are
discarded, the code discards those older than five days before the start of the process.

## Model

| member | source | states |
|---|---|---|
| SessionWindows.FoundExactly | 000-4-confluent-examples-7.8.0-post/microservices-orders/exercises/FraudService.java:98-106 | the sessions taken out of the store for a record are exactly those of its key within the gap of its time |
| SessionWindows.AtMostTwo | 000-4-confluent-examples-7.8.0-post/microservices-orders/exercises/FraudService.java:98-106 | a record merges at most two sessions, and two only when it falls strictly between them |
| SessionWindows.AbsorbGroups | 000-4-confluent-examples-7.8.0-post/microservices-orders/exercises/FraudService.java:96-106 | after every record the windows are again the maximal groups of the record times, more than the gap apart |
| SessionWindows.GroupsUnique | 000-4-confluent-examples-7.8.0-post/microservices-orders/exercises/FraudService.java:96-106 | the windows are determined by the set of record times: two stores over the same times have the same windows |
| SessionWindows.TwoFoundAreBridged | 000-4-confluent-examples-7.8.0-post/microservices-orders/exercises/ValidationsAggregatorService.java:108-117 | two sessions are merged only by a record that falls between consecutive earlier times of two groups, within the gap of both |
| SessionWindows.BridgeFindsTwo | 000-4-confluent-examples-7.8.0-post/microservices-orders/exercises/ValidationsAggregatorService.java:108-117 | and every such record merges two, the left one ending at the earlier of those times |
| FraudService.TotalExact | 000-4-confluent-examples-7.8.0-post/microservices-orders/exercises/FraudService.java:101-105 | the value stored for the merged session is the exact sum of quantity times price of the orders in its window, the new one included |
| FraudService.RunExact | 000-4-confluent-examples-7.8.0-post/microservices-orders/exercises/FraudService.java:89-106 | after every run each customer's windows are the maximal groups of their CREATED orders and each carries the exact total |
| FraudService.Confluent | 000-4-confluent-examples-7.8.0-post/microservices-orders/exercises/FraudService.java:98-106 | whatever order the same records arrive in, every customer ends with the same windows and totals |
| FraudService.OneVerdict | 000-4-confluent-examples-7.8.0-post/microservices-orders/exercises/FraudService.java:108-129 | a CREATED order yields exactly one verdict, on that order, FAIL iff its session's total including it is at least 2000; any other order yields none |
| FraudService.FirstOrder | 000-4-confluent-examples-7.8.0-post/microservices-orders/exercises/FraudService.java:101-129 | the first order of a customer fails iff its quantity times its price is at least 2000 |
| FraudService.OffsetPasses | 000-4-confluent-examples-7.8.0-post/microservices-orders/exercises/FraudService.java:98-129 | after an order of sufficiently negative amount, any order of that customer at the same time passes the fraud check, whatever was spent before |
| FraudService.Service.Process | 000-4-confluent-examples-7.8.0-post/microservices-orders/exercises/FraudService.java:98-129 | updates the store in place: the customer's windows stay exact, other customers are untouched, one verdict is sent |
| PassCounts.CountsSound | 000-4-confluent-examples-7.8.0-post/microservices-orders/exercises/ValidationsAggregatorService.java:106-117 | a stored count never exceeds the PASS verdicts in its window; what the counts miss in all is what the keep-latest merger dropped |
| PassCounts.CountsExactIff | 000-4-confluent-examples-7.8.0-post/microservices-orders/exercises/ValidationsAggregatorService.java:112-117 | all counts are exact iff no verdict, on arrival, joined two groups of earlier verdict times of which the left one held a PASS: a condition on times and results alone |
| PassCounts.BridgeLosesCount | 000-4-confluent-examples-7.8.0-post/microservices-orders/exercises/ValidationsAggregatorService.java:115 | three PASS verdicts of which the last bridges two sessions leave a count of two: the earlier session's count is forgotten |
| PassCounts.OrderedLosesNothing | 000-4-confluent-examples-7.8.0-post/microservices-orders/exercises/ValidationsAggregatorService.java:106-117 | no count is dropped when verdicts arrive in non-decreasing time order |
| PassCounts.CloseLosesNothing | 000-4-confluent-examples-7.8.0-post/microservices-orders/exercises/ValidationsAggregatorService.java:106-117 | no count is dropped, and there is one session, when all verdicts lie within five minutes of one another |
| PassCounts.ThirdTotal | 000-4-confluent-examples-7.8.0-post/microservices-orders/exercises/ValidationsAggregatorService.java:96-123 | the third verdict brings the count to three iff all three passed and each came within the gap of the session so far; the count is stamped with the latest verdict time |
| ValidationsAggregator.RunBuffers | 000-4-confluent-examples-7.8.0-post/microservices-orders/exercises/ValidationsAggregatorService.java:99-137 | session store and join buffers depend only on the verdicts and the CREATED orders, not on how the two streams interleave |
| ValidationsAggregator.Decided | 000-4-confluent-examples-7.8.0-post/microservices-orders/exercises/ValidationsAggregatorService.java:105-147 | VALIDATED is published iff a count of three and a CREATED order are within the join window, FAILED iff a FAIL verdict and a CREATED order are; every record published is a CREATED order with only its state changed |
| ValidationsAggregator.PublishedCounts | 000-4-confluent-examples-7.8.0-post/microservices-orders/exercises/ValidationsAggregatorService.java:105-147 | one VALIDATED record is published per pair of a count of three and a CREATED order within five minutes of one another, one FAILED record per such pair of a FAIL verdict and an order |
| ValidationsAggregator.Decision | 000-4-confluent-examples-7.8.0-post/microservices-orders/exercises/ValidationsAggregatorService.java:96-147 | for an order with one verdict per check: the exact condition on verdict times and results under which it is VALIDATED, and under which it is FAILED |
| ValidationsAggregator.NeverBoth | 000-4-confluent-examples-7.8.0-post/microservices-orders/exercises/ValidationsAggregatorService.java:96-147 | no order with one verdict per check is published both VALIDATED and FAILED |
| ValidationsAggregator.PromptDecision | 000-4-confluent-examples-7.8.0-post/microservices-orders/exercises/ValidationsAggregatorService.java:96-147 | order and three verdicts within five minutes: VALIDATED iff all pass, FAILED iff one fails |
| ValidationsAggregator.ValidatedOnce | 000-4-confluent-examples-7.8.0-post/microservices-orders/exercises/ValidationsAggregatorService.java:112-130 | one verdict per check and one CREATED record: VALIDATED is published at most once |
| ValidationsAggregator.FailuresCollapse | 000-4-confluent-examples-7.8.0-post/microservices-orders/exercises/ValidationsAggregatorService.java:132-147 | all FAILED records published for an order are one and the same record, the first |
| ValidationsAggregator.NeverCreates | 000-4-confluent-examples-7.8.0-post/microservices-orders/exercises/ValidationsAggregatorService.java:125-147 | nothing the service writes back to the orders topic is CREATED |
| ValidationsAggregator.Service.Process | 000-4-confluent-examples-7.8.0-post/microservices-orders/exercises/ValidationsAggregatorService.java:98-147 | updates the stores of one order id in place, leaves every other id's alone, and sends exactly what the id's published records grow by |
| InventoryService.Check | 000-4-confluent-examples-7.8.0-post/microservices-orders/exercises/InventoryService.java:147-176 | PASS iff warehouse count covers reserved stock plus the order, and then exactly that much more is reserved; FAIL changes nothing |
| InventoryService.InventoryValidator.Transform | 000-4-confluent-examples-7.8.0-post/microservices-orders/exercises/InventoryService.java:147-176 | the store after the call and the verdict are those of Check |
| InventoryService.ServedIsAccepted | 000-4-confluent-examples-7.8.0-post/microservices-orders/exercises/InventoryService.java:147-176 | over a sequence of orders of one product at a fixed count, what passes is each quantity that fits on top of what passed before, and what is reserved is the sum of those |
| InventoryService.NegativePasses | 000-4-confluent-examples-7.8.0-post/microservices-orders/exercises/InventoryService.java:161-174 | every order of negative quantity passes, whatever passed before it |
| InventoryService.OversellsIff | 000-4-confluent-examples-7.8.0-post/microservices-orders/exercises/InventoryService.java:161-174 | further orders of non-negative quantity can be promised more than the warehouse holds iff one of the orders so far was of negative quantity |
| OrderDetailsService.Result | 000-4-confluent-examples-7.8.0-post/microservices-orders/exercises/OrderDetailsService.java:194-202 | FAIL for a negative quantity, a negative price or no product, PASS otherwise |
| OrderDetailsService.OwedOnePerOrder | 000-4-confluent-examples-7.8.0-post/microservices-orders/exercises/OrderDetailsService.java:95-114 | the verdicts for a stretch of the topic are one per CREATED order, its own, in order |
| OrderDetailsService.NextOffsetIsLast | 000-4-confluent-examples-7.8.0-post/microservices-orders/exercises/OrderDetailsService.java:126-130 | the offset recorded for a partition is one past its last CREATED record, if it has one |
| OrderDetailsService.Service.ProcessRecords | 000-4-confluent-examples-7.8.0-post/microservices-orders/exercises/OrderDetailsService.java:95-114 | the loop sends exactly the verdicts owed for the batch and leaves the recorded offsets described by NextOffset |
| ExactlyOnce.NextInv | 000-4-confluent-examples-7.8.0-post/microservices-orders/exercises/OrderDetailsService.java:85-122 | the invariant tying log, committed offset, committed verdicts, position, recorded offset and pending verdicts is kept by poll, process, commit, crash and restart |
| ExactlyOnce.ExactlyOnceAlways | 000-4-confluent-examples-7.8.0-post/microservices-orders/exercises/OrderDetailsService.java:79-124 | in every state of every run with crashes the committed verdicts are exactly one per CREATED order below the committed offset, in order |
| ExactlyOnce.IdleCoversPosition | 000-4-confluent-examples-7.8.0-post/microservices-orders/exercises/OrderDetailsService.java:95-130 | between transactions they also cover everything consumed: what a crash would replay holds no CREATED order; once caught up they cover the whole log |
| ExactlyOnce.RunNeverBack | 000-4-confluent-examples-7.8.0-post/microservices-orders/exercises/OrderDetailsService.java:115-130 | committed offsets and committed verdicts only grow along a run |
| ExactlyOnce.LoopAgrees | 000-4-confluent-examples-7.8.0-post/microservices-orders/exercises/OrderDetailsService.java:95-130 | the loop over a batch does to each partition what the per-record steps of a run do: its entry of the offset map, and the verdicts sent for it, in order |
| PipelineInvariant.StepVerdicts | 000-4-confluent-examples-7.8.0-post/microservices-orders/exercises/FraudService.java:89-129 | every step keeps: each verdict has a CREATED order that its validator consumed, and no check answers an order twice |
| PipelineInvariant.StepStock | 000-4-confluent-examples-7.8.0-post/microservices-orders/exercises/InventoryService.java:118-176 | every step keeps: reserved stock is the sum of the quantities of the passed orders, and the warehouse covers it |
| PipelineInvariant.StepView | 000-4-confluent-examples-7.8.0-post/microservices-orders/exercises/ValidationsAggregatorService.java:98-137 | every step keeps: of each order the aggregator has seen at most one verdict per check and one CREATED record, all from the topics |
| PipelineInvariant.RunInv | 000-4-confluent-examples-7.8.0-post/microservices-orders/exercises/ValidationsAggregatorService.java:92-151 | all of the invariant holds in every state of every run |
| PipelineTheorems.NeverBothDecisions | 000-4-confluent-examples-7.8.0-post/microservices-orders/exercises/ValidationsAggregatorService.java:96-147 | in every run, for every delivery order and verdict time, no order is published both VALIDATED and FAILED |
| PipelineTheorems.DecisionInEveryRun | 000-4-confluent-examples-7.8.0-post/microservices-orders/exercises/ValidationsAggregatorService.java:96-147 | in every run VALIDATED is published iff three PASS verdicts chained in time and a close CREATED order have been delivered, FAILED iff a FAIL verdict and a close CREATED order have |
| PipelineTheorems.ValidatedAtMostOnce | 000-4-confluent-examples-7.8.0-post/microservices-orders/exercises/ValidationsAggregatorService.java:112-130 | in every run no order is published VALIDATED twice |
| PipelineTheorems.ValidatedPassedAll | 000-4-confluent-examples-7.8.0-post/microservices-orders/exercises/ValidationsAggregatorService.java:96-130 | a VALIDATED order has a PASS verdict from each of the three checks |
| PipelineTheorems.ValidatedIsValid | 000-4-confluent-examples-7.8.0-post/microservices-orders/exercises/OrderDetailsService.java:194-202 | a VALIDATED order has a product, a non-negative quantity and a non-negative price |
| PipelineTheorems.AnsweredByStock | 000-4-confluent-examples-7.8.0-post/microservices-orders/exercises/InventoryService.java:118-176 | in every state after the inventory service took an order it has answered it iff the order's product had a stock count when it was taken, and the answer is FAIL iff that count was below the reserved stock and the order together |
| PipelineTheorems.FraudAnswersBySpending | 000-4-confluent-examples-7.8.0-post/microservices-orders/exercises/FraudService.java:89-129 | in every state after the fraud service took an order its verdict is on the topic: FAIL iff the customer's spending in the order's session, over the orders taken before and this one, is at least 2000 |
| PipelineTheorems.UnstockedNeverValidated | 000-4-confluent-examples-7.8.0-post/microservices-orders/exercises/InventoryService.java:118-129 | an order taken while its product had no stock count is VALIDATED in no state of the run |
| PipelineTheorems.NeverOversold | 000-4-confluent-examples-7.8.0-post/microservices-orders/exercises/InventoryService.java:148-176 | with counts that never decrease, and no negative order of the product among those that passed, the VALIDATED quantity of a product never exceeds its warehouse count |
| PipelineTopic.TopicIsPublished | 000-4-confluent-examples-7.8.0-post/microservices-orders/exercises/ValidationsAggregatorService.java:125-147 | when only CREATED orders are submitted, the decided records of each id on the orders topic are, in order, exactly what the aggregator published for it |
| PipelineTopic.TopicNeverHoldsBoth | 000-4-confluent-examples-7.8.0-post/microservices-orders/exercises/ValidationsAggregatorService.java:125-147 | so the topic never holds a VALIDATED and a FAILED record of one id |
| PipelineTopic.TopicHoldsOneValidated | 000-4-confluent-examples-7.8.0-post/microservices-orders/exercises/ValidationsAggregatorService.java:112-130 | and at most one VALIDATED record of an id |
| PipelineStranding.ReservedIsSoldOrStranded | 000-4-confluent-examples-7.8.0-post/microservices-orders/exercises/InventoryService.java:157-168 | conservation: the reserved stock is what the VALIDATED orders ask for plus what is stranded with passed orders that were not VALIDATED |
| PipelineOverselling.NegativeIsStranded | 000-4-confluent-examples-7.8.0-post/microservices-orders/exercises/InventoryService.java:161-168 | an order of negative quantity passes and lowers what is stranded by its amount |
| PipelineOverselling.OversellsWhenStranded | 000-4-confluent-examples-7.8.0-post/microservices-orders/exercises/InventoryService.java:161-168 | from every state of every run in which less than nothing of a product is stranded, some continuation by orders of non-negative quantity VALIDATES more than the warehouse count |
| PipelineOverselling.NegativeOrderOversells | 000-4-confluent-examples-7.8.0-post/microservices-orders/exercises/InventoryService.java:161-168 | from every state of every run one order of sufficiently negative quantity is enough for that |
| PipelineOverselling.NegativeOrderOversellsCount | 000-4-confluent-examples-7.8.0-post/microservices-orders/exercises/InventoryService.java:161-168 | for every count and every negative quantity q there is a run, with an order of q and one for all that is then left, that VALIDATES count - q units |
| PipelineProspects.OutlookNeverLess | 000-4-confluent-examples-7.8.0-post/microservices-orders/exercises/InventoryService.java:118-176 | no step lowers the outlook of a product: the sum of its orders that passed and can no longer be VALIDATED, and of its negative orders still to be taken |
| PipelineProspects.OutlookBounds | 000-4-confluent-examples-7.8.0-post/microservices-orders/exercises/InventoryService.java:118-176 | in every continuation of every state by orders of non-negative quantity at least the outlook is stranded |
| PipelineSettling.Settle | 000-4-confluent-examples-7.8.0-post/microservices-orders/exercises/ValidationsAggregatorService.java:96-147 | an order that passed and whose verdicts, those delivered first and in their order, can be completed to an approval can be VALIDATED without anything happening to any other order |
| PipelineSettling.OutlookIsReached | 000-4-confluent-examples-7.8.0-post/microservices-orders/exercises/InventoryService.java:118-176 | from every state some continuation by orders of non-negative quantity strands exactly the outlook |
| PipelineProspects.StrandedNeverLess | 000-4-confluent-examples-7.8.0-post/microservices-orders/exercises/InventoryService.java:157-174 | what is stranded when the services are at rest is never lowered again by orders of non-negative quantity |
| PipelineOverselling.OversellableIff | 000-4-confluent-examples-7.8.0-post/microservices-orders/exercises/InventoryService.java:161-168 | from every state of every run, orders of non-negative quantity can oversell a product iff its outlook is negative |
| PipelineOverselling.OversellableAtRestIff | 000-4-confluent-examples-7.8.0-post/microservices-orders/exercises/InventoryService.java:161-168 | at rest that is iff the passed orders that were not VALIDATED sum to less than nothing |
| PipelinePaths.RunToRest | 000-4-confluent-examples-7.8.0-post/microservices-orders/exercises/ValidationsAggregatorService.java:101-147 | from every state in which the invariant holds the services can be run to rest without a new CREATED order |
| PipelineOverselling.NegativeButSafe | 000-4-confluent-examples-7.8.0-post/microservices-orders/exercises/InventoryService.java:161-168 | a negative order that passed need not lead to that: with an invalid order of the opposite quantity that passed too, a state at rest is reached from which no continuation by orders of non-negative quantity oversells |
| PipelineTheorems.PromptOrdersAreDecided | 000-4-confluent-examples-7.8.0-post/microservices-orders/exercises/ValidationsAggregatorService.java:101-147 | in every run, once a prompt order and its three verdicts are delivered it is VALIDATED iff no check answered otherwise than PASS and FAILED iff one answered FAIL |
| PipelineQuiescence.StepUsesWork | 000-4-confluent-examples-7.8.0-post/microservices-orders/exercises/ValidationsAggregatorService.java:101-147 | every step of a service strictly reduces the outstanding work, although decisions are written back to the orders topic |
| PipelineQuiescence.AlwaysComesToRest | 000-4-confluent-examples-7.8.0-post/microservices-orders/exercises/ValidationsAggregatorService.java:101-147 | from every reachable state, every run without new submissions has at most Work steps |
| PipelineQuiescence.FiftyFiveStepsPerOrder | 000-4-confluent-examples-7.8.0-post/microservices-orders/exercises/ValidationsAggregatorService.java:101-147 | that is at most 55 steps per record of the orders topic and 9 per verdict |
| PipelineQuiescence.WorkIsBounded | 000-4-confluent-examples-7.8.0-post/microservices-orders/exercises/ValidationsAggregatorService.java:101-147 | in every run, submissions and restocking interleaved at will, the steps taken by the services and the work outstanding are together at most 55 per submission so far |
| PipelineQuiescence.DecidedAtRest | 000-4-confluent-examples-7.8.0-post/microservices-orders/exercises/InventoryService.java:118-129 | at rest every CREATED order was taken by the inventory service at some step: if its product had a stock count then, all verdicts are delivered and, if prompt, it is decided by them; if not, no state of the run publishes it VALIDATED |
| PipelineQuiescence.DefectIsFailed | 000-4-confluent-examples-7.8.0-post/microservices-orders/exercises/OrderDetailsService.java:194-202 | at rest a prompt CREATED order of negative quantity, of negative price or without a product has been published FAILED, stocked or not |
| OrdersView.AnswersAreGood | 000-4-confluent-examples-7.8.0-post/microservices-orders/exercises/OrdersService.java:144-149 | in every run a completed GET carries an order the view has held for its id; for /validated it is VALIDATED or FAILED |
| OrdersView.UpdateAnswers | 000-4-confluent-examples-7.8.0-post/microservices-orders/exercises/OrdersService.java:137-149 | an update resumes the request waiting for its id with the order, if the request takes it (any order, or for /validated one that is VALIDATED or FAILED), and changes no other response |
| OrdersView.FetchAnswers | 000-4-confluent-examples-7.8.0-post/microservices-orders/exercises/OrdersService.java:203-217 | a GET that finds an order it takes is answered with it; otherwise it waits, registered under its id; no other response changes |
| OrdersView.OnlyTimeoutsTimeOut | 000-4-confluent-examples-7.8.0-post/microservices-orders/exercises/OrdersService.java:144-149 | in every run a response is timed out only by a time-out of its request |
| OrdersView.WaitingIsAnswered | 000-4-confluent-examples-7.8.0-post/microservices-orders/exercises/OrdersService.java:137-149 | in a run without harmful parking a waiting GET is answered by the next update of its id that it takes, with that order |
| OrdersView.LosesIff | 000-4-confluent-examples-7.8.0-post/microservices-orders/exercises/OrdersService.java:203-217 | a step makes a GET wait in vain iff it parks a request although the view holds what it accepts, or over a request still waiting |
| OrdersView.RunLosesIff | 000-4-confluent-examples-7.8.0-post/microservices-orders/exercises/OrdersService.java:203-217 | in every run no request is lost in any state up to k iff no step before k was such a parking |
| OrdersView.NoLostWakeUps | 000-4-confluent-examples-7.8.0-post/microservices-orders/exercises/OrdersService.java:137-149 | with look-up and registration in one step and one waiting request per id, no waiting request has an acceptable order in the view |
| OrdersView.LostWakeUpExample | 000-4-confluent-examples-7.8.0-post/microservices-orders/exercises/OrdersService.java:206-209 | without that, an update between look-up and registration leaves a /validated GET waiting on a VALIDATED order |
| OrdersView.Service.OnOrder | 000-4-confluent-examples-7.8.0-post/microservices-orders/exercises/OrdersService.java:137-149 | the view is updated and the waiting request notified, as the step says |
| OrdersView.Service.MaybeCompleteLongPollGet | 000-4-confluent-examples-7.8.0-post/microservices-orders/exercises/OrdersService.java:144-149 | the waiting request is resumed iff its filter accepts the order |
| OrdersView.Service.FetchLocal | 000-4-confluent-examples-7.8.0-post/microservices-orders/exercises/OrdersService.java:203-217 | answers or parks the request, the not-ready store included, as the step says |
| MovieRatings.ToRow | 000-confluent-spark-structured-streaming-kafka-master/movie_ratings_streaming/stream.py:67-70 | id, user, movie, rating and timestamp are carried over, the rating date is the day that holds the timestamp, and a rating of 7 or more is approved |
| MovieRatings.DedupeDistinct | 000-confluent-spark-structured-streaming-kafka-master/movie_ratings_streaming/stream.py:66 | one event per id, each from the batch, none seen before |
| MovieRatings.DedupeKeepsEveryId | 000-confluent-spark-structured-streaming-kafka-master/movie_ratings_streaming/stream.py:66 | every new id of the batch is kept |
| MovieRatings.OnTimeExactly | 000-confluent-spark-structured-streaming-kafka-master/movie_ratings_streaming/stream.py:62-69 | a row comes out iff it is that of an event and not late on the start day |
| MovieRatings.TransformDistinct | 000-confluent-spark-structured-streaming-kafka-master/movie_ratings_streaming/stream.py:52-71 | a transformed batch has one row per id, all on time at start, none seen before |
| MovieRatings.TransformKeeps | 000-confluent-spark-structured-streaming-kafka-master/movie_ratings_streaming/stream.py:52-71 | a new id all of whose events in the batch are on time is kept, in a row of one of them |
| MovieRatings.DistinctNeverAmbiguous | 02-delta-master/docs/source/delta-update.md:524 | with distinct ids no target row is matched by two source rows |
| MovieRatings.MergeRefines | 000-confluent-spark-structured-streaming-kafka-master/movie_ratings_streaming/stream.py:91-100 | a MERGE pruned to five days refines writing the batch to a map |
| MovieRatings.SinkRefines | 000-confluent-spark-structured-streaming-kafka-master/movie_ratings_streaming/stream.py:86-100 | after every sequence of batches on advancing days the in-window rows are exactly the in-window part of the last-writer map, one row per id |
| MovieRatings.PrunedIsFullIff | 000-confluent-spark-structured-streaming-kafka-master/movie_ratings_streaming/stream.py:95 | on a table with one row per id the pruned merge equals the unpruned one iff no incoming id is held only by a row out of the window |
| MovieRatings.OneRowPerIdIff | 000-confluent-spark-structured-streaming-kafka-master/movie_ratings_streaming/stream.py:86-100 | the table keeps one row per id iff there is no such hit |
| MovieRatings.RetryUnchangedIff | 000-confluent-spark-structured-streaming-kafka-master/movie_ratings_streaming/stream.py:86-100 | merging rows that the table already holds leaves it unchanged iff all of them are in the window |
| MovieRatings.Sink.UpsertToSink | 000-confluent-spark-structured-streaming-kafka-master/movie_ratings_streaming/stream.py:86-104 | creates the table if there is none, then merges in place, or fails and changes nothing when two source rows match one target; never with distinct ids |
| RatingsStream.StreamDistinct | 000-confluent-spark-structured-streaming-kafka-master/movie_ratings_streaming/stream.py:66 | no id is in the rows of two batches, whichever processes make them and whenever they started |
| RatingsStream.StreamIsLastWriter | 000-confluent-spark-structured-streaming-kafka-master/movie_ratings_streaming/stream.py:20-100 | from raw events to the sink, each batch delivered once, by whatever processes and on whatever days, the whole table is the last-writer map: one row per id, in the window or not |
| RatingsStream.StreamLosesNothing | 000-confluent-spark-structured-streaming-kafka-master/movie_ratings_streaming/stream.py:20-100 | and every id that comes in time in a delivered batch is in the sink, in a row of one of its events |
| RatingsStream.RowsShrink | 000-confluent-spark-structured-streaming-kafka-master/movie_ratings_streaming/stream.py:62-71 | a process that starts later makes of the same batch a subset of the rows |
| RatingsStream.MergeAgain | 000-confluent-spark-structured-streaming-kafka-master/movie_ratings_streaming/stream.py:86-100 | rows already in the table, merged again, leave it as it is if all are in the window, and double an id if not |
| RatingsStream.OneRowPerIdWithRetriesIff | 000-confluent-spark-structured-streaming-kafka-master/movie_ratings_streaming/stream.py:20-100 | over a whole run with batches taken up again by later processes the table has one row per id iff every retry found the rows its own process made of the batch in the window, and is then the last-writer map |
| RatingsStream.SameDayRetriesAreSafe | 000-confluent-spark-structured-streaming-kafka-master/movie_ratings_streaming/stream.py:62-95 | a retry merged on the day its process started never doubles a row |
| RatingsStream.OldRatingStoredTwice | 000-confluent-spark-structured-streaming-kafka-master/movie_ratings_streaming/stream.py:62-95 | a rating on time for the start day of the retrying process, but out of the window on the day it merges, is stored twice |
| Bisection.BisectPosition | 06-spark-risingwave-example-ingestion-framework/ci/scripts/find-regression.py:78-100 | on a linear branch the commit count is the distance and the bisect commit is the start plus half of it |
| Bisection.ProbeBrackets | 06-spark-risingwave-example-ingestion-framework/ci/scripts/find-regression.py:164-180 | for any outcomes: the reported commit is the end or was seen failing, and is the start or follows one seen passing |
| Bisection.ProbeRunsOnce | 06-spark-risingwave-example-ingestion-framework/ci/scripts/find-regression.py:88-100 | no commit is run twice and none outside the range |
| Bisection.ProbeFindsFirstBad | 06-spark-risingwave-example-ingestion-framework/ci/scripts/find-regression.py:164-180 | if outcomes never recover, the first bad commit is reported |
| Bisection.Log2Bounds | 06-spark-risingwave-example-ingestion-framework/ci/scripts/find-regression.py:88-92 | the logarithm of the bound is the floor of the binary one: 2^Log2(d) <= d < 2^(Log2(d) + 1) |
| Bisection.ProbeIsLogarithmic | 06-spark-risingwave-example-ingestion-framework/ci/scripts/find-regression.py:88-112 | at most floor(log2 d) + 1 runs for an initial distance d of at least one |
| Bisection.ProbeWorstCase | 06-spark-risingwave-example-ingestion-framework/ci/scripts/find-regression.py:88-112 | the bound is reached when every commit fails |
| Bisection.MidpointStable | 06-spark-risingwave-example-ingestion-framework/ci/scripts/find-regression.py:88-100 | the midpoint of two commits does not move when the branch grows |
| Bisection.Env.RunPipeline | 06-spark-risingwave-example-ingestion-framework/ci/scripts/find-regression.py:29-48 | the run uploaded is of the commit halfway between the positions of the bounds, or of the good commit if that is not before the bad one |
| Bisection.Env.Check | 06-spark-risingwave-example-ingestion-framework/ci/scripts/find-regression.py:150-180 | narrows the range on the outcome of the midpoint, then reports or goes on |
| Bisection.CheckForward | 06-spark-risingwave-example-ingestion-framework/ci/scripts/find-regression.py:145-180 | with the good commit at or after the bad one the good commit is run: it is reported if it fails, the search moves on to the next commit if it passes, runs off the branch at the tip, and stops on an invalid outcome |
| Bisection.CheckAt | 06-spark-risingwave-example-ingestion-framework/ci/scripts/find-regression.py:150-180 | each check reads the outcome of the very run uploaded before it, also when commits were appended in between |
| Bisection.FindRegression | 06-spark-risingwave-example-ingestion-framework/ci/scripts/find-regression.py:142-180 | a whole search on a growing branch. Bounds in order: a report that is witnessed, first bad if outcomes never recover, after logarithmically many distinct runs; or an exit, and then the last run is the one with an invalid outcome, the earlier ones were valid, distinct and within the same bound. Otherwise: the first commit from the good one on that fails is reported, or the search stops at one without a valid outcome, or past the tip |
| GridLayout.Layout.NextRow | 06-spark-risingwave-example-ingestion-framework/grafana/common.py:82-88 | a rectangle 24 wide and 1 high at column 0, directly below the current band |
| GridLayout.Layout.NextHalfWidthGraph | 06-spark-risingwave-example-ingestion-framework/grafana/common.py:90-99 | a rectangle 12 wide and 8 high, right of the last one if the band is filled up to column 12 at most, else at column 0 of the next band |
| GridLayout.Layout.NextOneThirdWidthGraph | 06-spark-risingwave-example-ingestion-framework/grafana/common.py:101-110 | a rectangle 8 wide and 8 high, right of the last one if the band is filled up to column 16 at most, else at column 0 of the next band |
| GridLayout.PositionSizes | 06-spark-risingwave-example-ingestion-framework/grafana/common.py:82-110 | for every sequence of calls rows are 24 by 1, half-width graphs 12 by 8, third-width graphs 8 by 8 |
| GridLayout.LayoutSafe | 06-spark-risingwave-example-ingestion-framework/grafana/common.py:75-110 | for every sequence of calls the rectangles are inside 24 columns, pairwise disjoint and in reading order |
| GridLayout.HeightOfGraphs | 06-spark-risingwave-example-ingestion-framework/grafana/common.py:90-110 | a run of graphs adds eight rows per band it opens |
| GridLayout.LayoutOptimal | 06-spark-risingwave-example-ingestion-framework/grafana/common.py:82-110 | between rows the height is the least that any in-order division into bands of at most 24 columns has, and is attained |
| GridLayout.ClosedBandsAreFull | 06-spark-risingwave-example-ingestion-framework/grafana/common.py:90-110 | a graph band that a graph closes is at least 16 of 24 columns full |
| GridLayout.LayoutDense | 06-spark-risingwave-example-ingestion-framework/grafana/common.py:90-110 | between rows a non-empty run of graphs of total width W takes a height of at most W/2 + 4 |

## Left out

- Confluent: the order that a session carries is left out, because it depends on the order of arrival; totals are exact numbers, without floating-point rounding.
- NeverBothDecisions: ids of submitted CREATED orders are taken to be unique, and each service processes each record of a topic once; duplicate ids and redelivery outside the details service are not modelled.
- NeverOversold: 32-bit quantities and 64-bit reserved counts are unbounded integers here, without wrap-around.
- OneRowPerIdWithRetriesIff: a retry reads the events of the first delivery and deduplicates against the same earlier batches, as the checkpoint prescribes; any earlier batch may be retried, not only the last.
- FindRegression: the branch is linear and both bounds lie on it; a search that has run past the tip, with an empty good commit, is not followed further; a forward scan is followed on branches whose length stays below some bound, since on one that grows for ever it need not end.
- StreamIsLastWriter: which of several events with one id in a batch survives deduplication is fixed to the first; the date is a single calendar day, without time zones.
- Library behaviour of Kafka Streams: window retention and grace, record caching, rebalancing, several instances of a service.
- The details service with exactly-once semantics off: it depends on when offsets are committed automatically.
- Forwarding of requests between hosts, HTTP, serialisation, configuration and start-up of all services.
- `EmailService.java`: its joins are unfinished and it only logs.
- Everything in the dashboards other than the layout, the SQL scripts, and the documentation and build scripts: they would only add easy members.
