# SporeCast forwarder: verified models

The forwarder is a pipeline over bounded queues: a receiver, enrichment workers and a batching sender. Beside it sit a
bounded-memory anomaly counter whose worker copies are merged into one, a circuit breaker with a connection pool, and
printers that turn logs into syslog lines and field paths. This project models those parts in Dafny and proves what
they keep over all inputs, runs and interleavings.

- `Lru`, `Behavioral`, `StateMerger`, `Workers`, `Handover`: the anomaly counter. Three LRU caches are classes with a recency list
  and a counter map; each carries a ghost history, and its representation invariant says that the fast form is exactly
  what the history determines. A history's current *session* is the run of events since the last gap of 360 seconds or
  more. Merging, its behaviour under eviction, and what the merged state holds of the events of all the workers are
  theorems about these histories.
- `CircuitBreaker`, `SharedBreaker`: the breaker as a class, its meaning in terms of the recorded outcomes, the bound
  on attempts during an outage, and the same code as single atomic actions of any number of threads.
- `ConnectionPool`, `Framing`, `ElkSender`, `ElkDelivery`, `SenderThread`: the sender. `ElkSender` gives the loop as a
  function of a script of turns; it and `ElkDelivery` prove the theorems; `SenderThread` is the loop itself, over the breaker and pool classes, proved
  equal to that function.
- `Pipeline`, `PipelineEnd`, `PipelineSignal`, `PipelineOrder`: the tshark pipeline in ELK mode as a transition system
  with any number of workers, the state merger and the threat-intelligence updater; exactly when a run can return, when
  a signal can leave a packet behind, and when arrival order is kept.
- `SenderInPipeline`: the two models of the sender as one. Each turn of the loop in `ElkSender` is a few of the sender's
  steps in `Pipeline`, and the drain bound becomes one of the whole system.
- `QueueMonitor`: the load test with its floating-point arithmetic.
- `PaloAltoSchema`, `PaloAltoColumns`, `PaloAltoParser`: the field tables, and the assembly of a log from a CSV record.
- `PaloAltoSyslog`, `SyslogParts`, `SyslogTokenizer`, `PaloAltoRoundTrip`: the Wazuh line, the order and the texts of its
  parts, a quote-aware tokenizer as its inverse, and
  the way of a field from the record through the line and back.
- `LogTree`, `FieldPaths`, `ThreatHunt`, `Indicators`: the strings of a log by their addresses, the printed paths, and
  the recursive scans.
- `Json`, `Utf8`, `Collections`, `Selections`, `Numbers`, `Wrappers`: values, decimal printing, UTF-8, sets and
  sequences, what a loop picks out of a list by position, integer widths and powers of two, options and results.

## How the environment enters

Clocks, sockets, the queues of other tasks, regular expressions, the JSON and CSV libraries and the GeoIP database are
parameters. A task's run is a script that lists what each turn meets (flags, receive results, times, whether
connecting works, how much of a payload a stream takes), and theorems hold for every script. Times are integer
nanoseconds. Where a theorem needs a clock that never goes back, it says so. What is assumed of libraries:

- the LRU crate's `get_or_insert_mut` promotes and `peek` does not; consuming a cache visits every entry once, in an
  order that the model leaves open;
- crossbeam reports a channel disconnected only when it is empty and has no senders; `try_send` fails when the channel
  is full or has no receiver;
- JSON text holds no raw newline (section 7 of RFC 8259), and serde_json prints a float without spaces or quotes, as a
  text that reads as the same float, and never repeats a key of an object; no text with a space or a quote parses as a
  float, and "0" parses as a finite one;
- conversions and division round to nearest (section 4.3.1 of IEEE 754-2019), ties either way;
- warnings are logged (the level is fixed at Info), so the arguments of their messages are evaluated;
- atomic operations are interleaved (sequential consistency), `write_all` succeeds exactly when the stream has
  taken everything, and a `TcpStream` whose write fails is dropped.

The configuration is a validated one: worker count, queue sizes and batch size are positive
(`client/wazuh-forwarder/src/infrastructure/config.rs:222-240`). Each named breaker is used by one task, so the sender
has its breaker to itself.

## Where code and documentation differ

- The repository's README (`README.md`, line 153) speaks of a configurable sliding window. The code clears all counters when an update or merge comes
  360 seconds or more after the previous one (`num_minutes() > 5`), so counters cover a session that may last for
  hours, and the window and threshold are constants. The model follows the code.
- The same line says that behavioural analysis is suspended above 80% fill. The receivers compare the queue's length
  with 80% of the constant 250,000, not of the configured capacity, so the flag goes up at 200,000 queued items
  whatever the capacity is, and never when the capacity is smaller (the last clause of `Workers.ReceiverThread`); and the whole
  enrichment is skipped, not only the behavioural part.

## What the proofs bring out

- With the feeds enabled, which is the default, a run whose input ends does not return until a signal comes: after the
  sender's join it awaits the updater, which ends only on the flag (`PipelineEnd.FeedsHang`). A signal before the
  updater's first look at the flag makes the run wait forever for a first load (`PipelineEnd.EarlySignalHangs`).
- A line of more than 120 bytes that is not JSON makes the receiver panic when byte 120 falls inside a character; the
  run then ends with an error and without a drain (`Workers.CutsCharacterIff`).
- Worker snapshots are cumulative, so the merged state counts an event once for every snapshot that includes it
  (`Workers.DeliveredCopies`).
- Two leaves of a log can print the same path, and the scan then reports both alike: exactly the keys that are empty,
  hold a '.' or end in a printed index allow that (`FieldPaths.UnsafeKeysCollide`).
- A counter forgets what it held whenever its key is evicted, so frequent addresses can go unreported
  (`Behavioral.AddressesGoUnreported`); `Lru.CountExactIff` says exactly when that does not happen.

## Model

| member | source | states |
|---|---|---|
| Lru.LruCache.Add | client/wazuh-forwarder/src/domain/behavioral.rs:59-60 | get_or_insert_mut and a saturating addition extend the history by one touch and keep the refinement: the list holds the most recently touched distinct keys, the map their counts |
| Lru.LruCache.Peek | client/wazuh-forwarder/src/domain/behavioral.rs:92-93 | answers exactly for the `capacity` most recently touched distinct keys, with the count since the key last came in, and changes nothing |
| Lru.ListedIffResident | client/wazuh-forwarder/src/domain/behavioral.rs:29-33 | a key is in the recency list if and only if fewer than `capacity` distinct keys were touched after its last touch |
| Lru.KeysAfterByPosition | client/wazuh-forwarder/src/domain/behavioral.rs:59-60 | the recursive notion of recency agrees with positions: the keys at indices above the last touch |
| Lru.InsertListsRecent | client/wazuh-forwarder/src/domain/behavioral.rs:59-60 | a new key goes to the front and a full list loses exactly its least recently touched key |
| Lru.PromoteListsRecent | client/wazuh-forwarder/src/domain/behavioral.rs:59-60 | touching a stored key moves it to the front and evicts nothing |
| Lru.CountNeverExceedsTotal | client/wazuh-forwarder/src/domain/behavioral.rs:59-60 | whatever was evicted, a counter is at most the true count and at most u32::MAX |
| Lru.CountExactWithinCapacity | client/wazuh-forwarder/src/domain/behavioral.rs:59-60 | with at most `capacity` distinct keys nothing is evicted and every counter is the true count capped at u32::MAX |
| Lru.CountExactIff | client/wazuh-forwarder/src/domain/behavioral.rs:59-60 | up to u32::MAX a counter is the true count if and only if every later touch of the key found its entry, that is, fewer than `capacity` other keys came between any two consecutive touches |
| Lru.CountIsStayTotal | client/wazuh-forwarder/src/domain/behavioral.rs:59-60 | a counter is the capped sum of the touches since the last one that did not find the entry, and of nothing before |
| Lru.RotationCountsOne | client/wazuh-forwarder/src/domain/behavioral.rs:59-60 | for every capacity, rotating through capacity + 1 keys touches each of them any number of times and leaves each count at 1 |
| Behavioral.ExpiredMeansSixMinutes | client/wazuh-forwarder/src/domain/behavioral.rs:42 | "more than 5 minutes" in truncated minutes is a gap of at least 360 seconds; a clock that ran backwards never expires |
| Behavioral.SessionIsGapFreeSuffix | client/wazuh-forwarder/src/domain/behavioral.rs:42-51 | the session is the maximal suffix of the events without a long gap, measured from the previous event |
| Behavioral.GapByTimes | client/wazuh-forwarder/src/domain/behavioral.rs:37-51 | in times: an event comes after a long gap if and only if it is 360 seconds or more after the update before it, the later of a merge's two times, or the beginning |
| Behavioral.UpdateCounts | client/wazuh-forwarder/src/domain/behavioral.rs:53-79 | an update of a log without repeated keys counts once the address, the user and the rule that the log's members name, and nothing of a kind of which they name none |
| Behavioral.FirstAddressDecides | client/wazuh-forwarder/src/domain/behavioral.rs:53-57 | the first of source_address, srcip and src that is present decides, even when it holds no string |
| Behavioral.OtherMembersDoNotCount | client/wazuh-forwarder/src/domain/behavioral.rs:53-79 | no member but those three, user and logid matters to what is counted |
| Behavioral.AlertHistory.Update | client/wazuh-forwarder/src/domain/behavioral.rs:39-80 | keeps the three caches equal to what the session's events determine, through the clear after a gap |
| Behavioral.AlertHistory.StoredKeysAreRecent | client/wazuh-forwarder/src/domain/behavioral.rs:39-80 | after any run of updates and merges the stored keys are exactly the most recently touched distinct keys of the session |
| Behavioral.CacheHoldsRecent | client/wazuh-forwarder/src/domain/behavioral.rs:19-36 | the same for any of the three caches: stored keys, their counts, and the memory bound |
| Behavioral.AlertHistory.IsSuspiciousActivity | client/wazuh-forwarder/src/domain/behavioral.rs:82-139 | reports an address, user or rule exactly when it is stored with a count above 10, and None when there is nothing to report |
| Behavioral.AlertHistory.EnrichBehavioral | client/wazuh-forwarder/src/domain/enrichment.rs:273-281 | the report after counting a log, as a function of the session's events; for a worker's own history, the address that the log names is reported if and only if more than 10 logs of the session name it, with their capped number, as long as the addresses named fit the cache, and nothing is reported when it names none; users and rules alike. Beyond that a reported key has more than 10 real events, and the report is the true one if and only if the key has at most 10 or was never evicted between two of them |
| Behavioral.FrequentIsReal | client/wazuh-forwarder/src/domain/behavioral.rs:82-139 | no false alarm: a reported key has more than 10 real events in the session, at least as many as reported |
| Behavioral.FrequentIffManyOccurrences | client/wazuh-forwarder/src/domain/behavioral.rs:82-139 | while the session has at most `capacity` distinct keys, a key is reported if and only if it has more than 10 events, with the capped true count |
| Behavioral.FrequentExactIff | client/wazuh-forwarder/src/domain/behavioral.rs:82-139 | the report about a stored key is its true count if and only if it has at most 10 events or was never evicted in between |
| Behavioral.FrequentIffLongStay | client/wazuh-forwarder/src/domain/behavioral.rs:82-139 | an alarm is raised if and only if more than 10 touches belong to the stored key's present stay, with their capped number |
| Behavioral.ReportIsFair | client/wazuh-forwarder/src/domain/enrichment.rs:273-281 | the previous two for the key an update has just counted, in any session |
| Behavioral.EvictionHidesRepeats | client/wazuh-forwarder/src/domain/behavioral.rs:59-60 | alarms can be missed at every capacity: in a session that rotates through one address more than fit, each has any number of events and none is ever reported |
| Behavioral.AddressesGoUnreported | client/wazuh-forwarder/src/domain/behavioral.rs:11 | with the address cache's own capacity: 250,001 concrete addresses that all come back any number of times and are never reported |
| Behavioral.AlertHistory.Clone | client/wazuh-forwarder/src/application/palo_alto_workers.rs:251-254 | a snapshot holds exactly the resident keys' counts and fits the fixed capacities |
| Behavioral.AlertHistory.Merge | client/wazuh-forwarder/src/domain/behavioral.rs:141-162 | folding in another history extends the session by one event that visits each of the other's counters once, in some order |
| StateMerger.MergedCount | client/wazuh-forwarder/src/domain/behavioral.rs:150-161 | a visited key's own count is added exactly when its entry is still stored as the loop reaches it: the eviction in the middle of a merge, as a condition |
| StateMerger.MergedKeySurvives | client/wazuh-forwarder/src/domain/behavioral.rs:141-162 | for any visiting order every key of the other history survives, with a count between the other's and the saturated sum with what the receiver still stored |
| StateMerger.UnvisitedKey | client/wazuh-forwarder/src/domain/behavioral.rs:141-162 | a key only the receiver has keeps its count, and stays if and only if it and the newcomers fit |
| StateMerger.VisitOrderMatters | client/wazuh-forwarder/src/domain/behavioral.rs:150-161 | under eviction the visiting order shows at every capacity above one: one merge into a full receiver, two orders, counts 2 and 1 for the same key |
| StateMerger.OneSlotOneOrder | client/wazuh-forwarder/src/domain/behavioral.rs:150-161 | at capacity one there is only one order |
| StateMerger.MergedSum | client/wazuh-forwarder/src/application/state.rs:75-78 | when all keys fit, merged counters are the pointwise saturated sums of the delivered snapshots |
| StateMerger.MergedCounters | client/wazuh-forwarder/src/application/state.rs:75-78 | the same on the cache object, both ways: it stores the snapshots' keys and nothing else |
| StateMerger.DeliveryOrderIrrelevant | client/wazuh-forwarder/src/application/palo_alto_workers.rs:415-422 | any permutation of the delivered snapshots, and any visiting orders, give the same counters |
| StateMerger.MergedHistory | client/wazuh-forwarder/src/application/state.rs:75-78 | after merging any snapshots the history stores, for every kind whose keys fit, the saturated sums of those since the last long gap and nothing else |
| StateMerger.InCutIff | client/wazuh-forwarder/src/domain/behavioral.rs:42-51 | what a gap does to clones: one includes an event if and only if it was taken after it and not after the next long gap |
| StateMerger.ClonesAddUp | client/wazuh-forwarder/src/application/palo_alto_workers.rs:251-270 | while keys fit and nothing saturates, what the clones of a history hold for a key adds up to its events, each once for every clone whose session includes it |
| StateMerger.SnapshotsRecount | client/wazuh-forwarder/src/application/palo_alto_workers.rs:251-254 | the sessions of cumulative snapshots add up to every event weighted by the number of snapshots that include it, gaps included |
| StateMerger.UnbrokenHistory | client/wazuh-forwarder/src/application/state.rs:75-78 | when no merge comes a long gap after the one before it, those are all of them |
| StateMerger.StateMergerThread | client/wazuh-forwarder/src/application/palo_alto_workers.rs:405-454 | a turn's snapshot is merged, once and in order, if and only if no turn up to it finds the flag at the loop's head and none before it times out with the flag set or finds the channel disconnected; a history that started empty then stores the saturated sums of those since the last long gap, and of all that were received when their times leave no such gap |
| StateMerger.DeliveredByPosition | client/wazuh-forwarder/src/application/palo_alto_workers.rs:417-438 | the same condition, for the snapshots that the theorems on sums speak of |
| StateMerger.QuietTurnIrrelevant | client/wazuh-forwarder/src/application/palo_alto_workers.rs:434-438 | a receive that times out with the flag clear changes nothing, wherever it comes |
| Workers.ProcessTsharkEkLine | client/wazuh-forwarder/src/application/tshark_workers.rs:68-116 | blank lines, index lines, what is not JSON and what does not normalize are not offered and leave the load flag alone; any other line's packet is offered once and refused without room, and the flag then says whether 200,000 packets were queued; it panics exactly on a line that is cut inside a character |
| Workers.CutsCharacterIff | client/wazuh-forwarder/src/application/tshark_workers.rs:78-88 | the panic, as a condition on the line: not skipped, not JSON, trimmed text longer than 120 bytes with no prefix of exactly 120 |
| Workers.LongLineCutsCharacter | client/wazuh-forwarder/src/application/tshark_workers.rs:82-85 | for example 119 letters and then a character of more than one byte, whatever follows |
| Utf8.BoundaryIff | client/wazuh-forwarder/src/application/tshark_workers.rs:84 | a slice position is a character boundary if and only if some prefix has that many bytes |
| Utf8.BoundaryByBytes | client/wazuh-forwarder/src/application/tshark_workers.rs:84 | in the encoded bytes, a boundary is the end of the text or a byte that does not continue a character |
| Utf8.EncodeDecode | client/wazuh-forwarder/src/application/tshark_workers.rs:84 | the bytes of a character (section 3 of RFC 3629) are as many as its width says and decode to it |
| Workers.ReceiverThread | client/wazuh-forwarder/src/application/tshark_workers.rs:126-166 | a turn's line is read if and only if no turn up to it finds the flag set and none before it meets the end of the input or a line that makes it panic; the packets of these lines that find room are enqueued in order, and the count is the capped number of all packets; the task unwinds exactly when the last line read panics; while fewer than 200,000 are queued the high-load flag never goes up |
| Workers.WorkerThread | client/wazuh-forwarder/src/application/tshark_workers.rs:173-245 | a turn's item is processed if and only if no turn up to it finds the flag set and none before it times out with the flag set or finds the channel disconnected; what the worker hands over are clones of its whole history, at every hundredth item and at the end, wherever the merger's queue had room |
| Workers.EventsByPosition | client/wazuh-forwarder/src/application/palo_alto_workers.rs:227-249 | the history has one update for each counted item, in their order |
| Workers.CutsByPosition | client/wazuh-forwarder/src/application/palo_alto_workers.rs:251-260 | a periodic snapshot is handed over after an item if and only if its number is a multiple of 100 and the merger's queue has room, with the events up to there |
| Workers.ProcessItem | client/wazuh-forwarder/src/application/palo_alto_workers.rs:227-260 | one item updates the history unless skipped, and after a hundredth item the snapshot is the history up to it |
| Workers.DeliveredCopies | client/wazuh-forwarder/src/application/palo_alto_workers.rs:251-254 | with nothing skipped or refused, event i of n is in n/100 - i/100 + 1 delivered snapshots, and in g/100 - i/100 of them when the next long gap comes at event g |
| Workers.SnapshotsExactWhenRecent | client/wazuh-forwarder/src/application/palo_alto_workers.rs:251-270 | what the delivered snapshots hold for a key adds up to its true count if and only if all its events came after the last periodic snapshot, and to more otherwise, when keys fit, nothing saturates and no long gap comes |
| Workers.DeliveredAddressesExactWhenRecent | client/wazuh-forwarder/src/application/palo_alto_workers.rs:251-270 | the same for the address counters of what `Workers.WorkerThread` returns |
| Handover.MergedFromWorkers | client/wazuh-forwarder/src/application/palo_alto_workers.rs:405-454 | from the workers' events to the merged state: whatever the order in which the snapshots of any number of workers arrive, without a long gap between merges, and for each kind whose keys fit, the merged count of a key is the capped sum over the workers of its events, each once for every delivered snapshot that includes it |
| Handover.HandedAddUp | client/wazuh-forwarder/src/application/palo_alto_workers.rs:251-270 | what all the workers hand over for a key adds up to that sum, and holds no other keys than those of their events |
| CircuitBreaker.CircuitBreaker.CanExecute | client/wazuh-forwarder/src/infrastructure/performance.rs:65-89 | an open breaker admits if and only if more than 30 s have passed since the recorded failure, any other always; the move to half-open is the specification function's |
| CircuitBreaker.CircuitBreaker.RecordSuccess | client/wazuh-forwarder/src/infrastructure/performance.rs:91-105 | the new state is the specification function's |
| CircuitBreaker.CircuitBreaker.RecordFailure | client/wazuh-forwarder/src/infrastructure/performance.rs:107-128 | the new state is the specification function's, stamped with the time |
| CircuitBreaker.BreakerRefinesHistory | client/wazuh-forwarder/src/infrastructure/performance.rs:65-144 | with outcomes recorded only after admission: the failure count is the trailing run of failures, the state follows from the outcome history alone, and one of the two counters is zero |
| CircuitBreaker.OpenAfterFifthFailure | client/wazuh-forwarder/src/infrastructure/performance.rs:107-128 | right after a failure the breaker is open if and only if at least five failures end the history |
| CircuitBreaker.RecloseAtThirdSuccess | client/wazuh-forwarder/src/infrastructure/performance.rs:91-105 | a half-open breaker recloses exactly at the third consecutive success |
| CircuitBreaker.OutageBound | client/wazuh-forwarder/src/infrastructure/performance.rs:65-89 | any stretch of consecutive failures lasting T has at most 5 + T/30 s of them |
| SharedBreaker.InvAlways | client/wazuh-forwarder/src/infrastructure/performance.rs:56-144 | under every interleaving the state code stays in {0, 1, 2} and a breaker that is not closed has a recorded failure time |
| SharedBreaker.QuietCounters | client/wazuh-forwarder/src/infrastructure/performance.rs:91-110 | whatever the interleaving, when no call is in progress one of the counters is zero |
| SharedBreaker.NeverWedges | client/wazuh-forwarder/src/infrastructure/performance.rs:65-89 | a call that starts after the back-off is admitted within four actions of its own however others interleave, while no new failure is stamped |
| SharedBreaker.SoloCall | client/wazuh-forwarder/src/infrastructure/performance.rs:65-144 | a call no other thread interrupts does what the sequential operation does |
| ConnectionPool.TakeConserves | client/wazuh-forwarder/src/infrastructure/performance/connection_pool.rs:32-62 | every connection ever opened is idle, in use or discarded, exactly one of the three; a taken one was not in use before |
| ConnectionPool.OpenedAddUp | client/wazuh-forwarder/src/infrastructure/performance/connection_pool.rs:32-78 | opened connections = idle + in use + discarded, in numbers |
| ConnectionPool.GiveBackConserves | client/wazuh-forwarder/src/infrastructure/performance/connection_pool.rs:65-78 | returning keeps that, and the idle queue within its size |
| ConnectionPool.AbandonConserves | client/wazuh-forwarder/src/infrastructure/senders.rs:166-179 | dropping a stream after a failed write keeps that, with an active count that is never decremented |
| ConnectionPool.ReusedInOrder | client/wazuh-forwarder/src/infrastructure/performance/connection_pool.rs:32-78 | over any run of operations, connections are reused in the order in which they became idle |
| ConnectionPool.ConnectionPool.GetConnection | client/wazuh-forwarder/src/infrastructure/performance/connection_pool.rs:32-62 | an idle connection from the front, else a new one, else none: the specification function of the old pool |
| ConnectionPool.ConnectionPool.ReturnConnection | client/wazuh-forwarder/src/infrastructure/performance/connection_pool.rs:65-78 | the specification function of the old pool |
| Framing.BuildPayload | client/wazuh-forwarder/src/infrastructure/senders.rs:151-164 | splitting the payload at newlines gives back the serialized logs of the batch in order |
| Framing.SplitPayload | client/wazuh-forwarder/src/infrastructure/senders.rs:151-164 | framing and splitting are inverse for any newline-free texts, empty ones included |
| Framing.TextsInOrder | client/wazuh-forwarder/src/infrastructure/senders.rs:151-164 | one text for each log that serializes, in the order of the batch |
| ElkSender.ExactlyOnceInOrder | client/wazuh-forwarder/src/infrastructure/senders.rs:46-100 | at every loop head the attempted batches followed by the buffer are the received logs in order; batches hold 1 to batch_size logs |
| ElkSender.NothingWaitsBehindOpenBreaker | client/wazuh-forwarder/src/infrastructure/senders.rs:46-100 | at every loop head an open breaker means an empty buffer, no flush is ever rejected by the inner check, and outcomes follow admissions |
| ElkSender.FinalFlush | client/wazuh-forwarder/src/infrastructure/senders.rs:102-107 | the final flush is not rejected either, and every received log ends up in exactly one attempted batch |
| ElkSender.RetryDelayClosedForm | client/wazuh-forwarder/src/infrastructure/senders.rs:66-72 | retry_delay is min(60, 5 * 2^k) for the k receive-branch failures since the last receive-branch success |
| ElkSender.PoolUnderSender | client/wazuh-forwarder/src/infrastructure/senders.rs:146-179 | at every loop head nothing is in use, at most one connection is idle, and the active count is the number of failed or timed-out writes |
| ElkSender.PoolAfterRun | client/wazuh-forwarder/src/infrastructure/senders.rs:102-107 | the same after any whole run, the final flush included |
| ElkSender.SenderOutageBound | client/wazuh-forwarder/src/infrastructure/senders.rs:46-100 | the outage bound holds of the sender's own flush failures |
| ElkSender.DrainBound | client/wazuh-forwarder/src/infrastructure/senders.rs:46-98 | with the senders gone and q logs queued the loop ends with all q received, after at most 8q passes when shutdown is set and 8(q + 1) when it is not |
| ElkSender.AtMostSevenSkips | client/wazuh-forwarder/src/infrastructure/senders.rs:47-51 | of any eight consecutive passes of a drain at least one is admitted by the breaker |
| ElkDelivery.StreamsUnderSender | client/wazuh-forwarder/src/infrastructure/senders.rs:146-179 | at every loop head: a flush is reported as sent if and only if its stream took the whole payload; a stream that once took less is never used again; and all that was ever given to an idle stream was taken whole |
| ElkDelivery.StreamsAfterRun | client/wazuh-forwarder/src/infrastructure/senders.rs:102-107 | the same after any whole run |
| ElkDelivery.LinesArrive | client/wazuh-forwarder/src/infrastructure/senders.rs:146-179 | what a reader at the other end of a stream sees after any run: the texts of the batches sent on it, line by line and in order, and after them only what a failed write left |
| ElkDelivery.NoEarlyBatch | client/wazuh-forwarder/src/infrastructure/senders.rs:61-88 | in any run a batch of fewer than batch_size logs leaves the loop a flush interval or more after the last flush, or after the start |
| ElkDelivery.NoLateBatch | client/wazuh-forwarder/src/infrastructure/senders.rs:57-90 | conversely, when an admitted pass with a receive or a timeout leaves logs in the buffer, they are fewer than batch_size and less than a flush interval has passed since |
| ElkDelivery.FlushesRecorded | client/wazuh-forwarder/src/infrastructure/senders.rs:61-88 | the breaker was told of every flush in the loop, in order, and of a success exactly for those that were sent |
| ElkDelivery.HealthyRun | client/wazuh-forwarder/src/infrastructure/senders.rs:46-100 | when connecting and writing work, every flush is sent, and at every loop head the breaker is closed and the delay is 5 |
| ElkDelivery.DeadRun | client/wazuh-forwarder/src/infrastructure/senders.rs:46-100 | when no stream takes anything, nothing is ever reported as sent |
| SenderThread.FlushBatchToElk | client/wazuh-forwarder/src/infrastructure/senders.rs:133-180 | an empty batch touches nothing; otherwise the flush is sent if and only if a stream took the whole payload, whose lines are the batch's texts, and failed if it took less; breaker and pool are as specified |
| SenderThread.ElkSenderThread | client/wazuh-forwarder/src/infrastructure/senders.rs:24-111 | the task's final variables, breaker and pool are those of the specification run, for every script; every flush is reported truthfully, no partial batch went out early, each stream took the payloads sent on it in order, and a finished task attempted all that it received, once and in order |
| SenderThread.SenderLoop | client/wazuh-forwarder/src/infrastructure/senders.rs:46-100 | the loop follows the specification run turn by turn, so all theorems on runs hold of its variables |
| SenderThread.HandleReceipt | client/wazuh-forwarder/src/infrastructure/senders.rs:57-99 | each receive result is handled as in the run that `ElkDelivery.NoEarlyBatch` and `ElkDelivery.NoLateBatch` speak of, including the leave on shutdown and the error of a failed join |
| Pipeline.ExactlyOnePlace | client/wazuh-forwarder/src/interface/tshark.rs:63-225 | for any workers, capacities and interleaving, each normalized packet is in exactly one of eight places at every reachable state, and nothing else is anywhere |
| Pipeline.AlwaysWithinBounds | client/wazuh-forwarder/src/interface/tshark.rs:63-66 | no queue ever exceeds its capacity, the merger's of twice the workers included, the buffer stays below the batch size, every batch has 1 to batch_size logs |
| Pipeline.AlwaysDrains | client/wazuh-forwarder/src/interface/tshark.rs:108-225 | main passes a wait or a join only after its task got there; without a signal a worker ends only on a drained parsed queue and the sender only on a drained ELK queue |
| Pipeline.EofDrain | client/wazuh-forwarder/src/interface/tshark.rs:200-216 | past the sender's join with the flag never set, queues, buffer and hands are empty, so each packet was refused by a queue or was in exactly one attempted batch |
| PipelineEnd.ReturnsIff | client/wazuh-forwarder/src/interface/tshark.rs:108-229 | from a reachable state some continuation passes every join if and only if the receiver has not panicked, the sender has not failed, and main does not wait for a first load of the intelligence that never comes |
| PipelineEnd.ReturnsWithoutSignalIff | client/wazuh-forwarder/src/interface/tshark.rs:213-229 | it can do so without a signal if and only if none came, nothing broke and the feeds are off |
| PipelineEnd.ReturnNeedsSignal | client/wazuh-forwarder/src/application/threat_intel.rs:177-207 | with the feeds on, a run that returned has the flag set |
| PipelineEnd.FeedsHang | client/wazuh-forwarder/src/interface/tshark.rs:218-220 | the hang: with the feeds on, every unbroken run without a signal can come to a state where all input is read, sent and joined but the updater, and stays there whatever happens until a signal |
| PipelineEnd.EarlySignalHangs | client/wazuh-forwarder/src/interface/tshark.rs:108-117 | a signal before the updater's first look at the flag leaves main waiting for the intelligence forever |
| PipelineEnd.Progress | client/wazuh-forwarder/src/interface/tshark.rs:108-225 | short of the end, of the hang and of a broken or doomed run, some task has a step that brings a weight of the whole system down |
| PipelineSignal.SignalHarmlessIff | client/wazuh-forwarder/src/application/tshark_workers.rs:190-231 | a first signal lets no run strand an accepted packet if and only if no packet is being read, queued for the workers or in a hand, and the sender has not timed out past a queued one |
| PipelineSignal.SignalCanStrand | client/wazuh-forwarder/src/application/tshark_workers.rs:190-231 | in every configuration a signal can strand an accepted packet |
| PipelineOrder.OneWorkerKeepsOrder | client/wazuh-forwarder/src/interface/tshark.rs:129-155 | with one worker the attempted batches hold packets in arrival order under every interleaving |
| PipelineOrder.OrderIffOneWorker | client/wazuh-forwarder/src/interface/tshark.rs:129-155 | for every configuration, all runs attempt packets in arrival order if and only if there is exactly one worker |
| PipelineOrder.WorkersCanReorder | client/wazuh-forwarder/src/interface/tshark.rs:129-155 | with more workers and any capacities a run attempts the second packet before the first |
| SenderInPipeline.TurnIsSteps | client/wazuh-forwarder/src/infrastructure/senders.rs:46-100 | whatever the other tasks do before and between them, each turn of the sender's loop is a few of the sender's steps in the pipeline, and both end with the same buffer, attempted batches and phase |
| SenderInPipeline.RunIsSteps | client/wazuh-forwarder/src/infrastructure/senders.rs:46-100 | so the loop refines the pipeline's sender over whole runs, turn by turn |
| SenderInPipeline.TruthfulScript | client/wazuh-forwarder/src/infrastructure/senders.rs:46-100 | and for every schedule of the other tasks and all times there is a script that lists what the sender then meets |
| SenderInPipeline.ReceivedMatches | client/wazuh-forwarder/src/infrastructure/senders.rs:46-100 | what the loop has received are the logs of the packets that the system has attempted or buffered, in order |
| SenderInPipeline.EndIsStep | client/wazuh-forwarder/src/infrastructure/senders.rs:102-107 | the flush after the loop is the pipeline's final flush |
| SenderInPipeline.TruthfulIsDrainTurn | client/wazuh-forwarder/src/infrastructure/senders.rs:46-98 | once the last sender of the queue is gone, a turn of the loop in the system is one of a drain |
| SenderInPipeline.SystemDrains | client/wazuh-forwarder/src/interface/tshark.rs:205-216 | the drain bound of the system: from then on, with q packets queued, the loop ends within 8q + 1 turns, or 8(q + 1) without a signal, whatever the other tasks do; the queue is empty, and after the final flush the attempts hold every packet that was buffered or queued, in order |
| QueueMonitor.LoadTestExact | client/wazuh-forwarder/src/infrastructure/performance.rs:190-191 | for any rounding to nearest and any capacity up to 2^53 the floating-point test is exact: 5 * length >= 4 * capacity |
| QueueMonitor.RoundMonotone | client/wazuh-forwarder/src/infrastructure/performance.rs:190-191 | rounding to nearest is monotone, whatever it does with ties |
| QueueMonitor.ThresholdAbove | client/wazuh-forwarder/src/infrastructure/defaults.rs:16 | the literal 0.8 is stored as 7205759403792794 / 2^53, the least representable number above 0.8 |
| QueueMonitor.QueueMonitor.CheckQueueHealth | client/wazuh-forwarder/src/infrastructure/performance.rs:175-220 | the verdict, with zero capacity as high load; the flag holds it until the next check; the report timer restarts exactly when 10 s have passed |
| PaloAltoSchema.NormalizeReplaces | client/wazuh-forwarder/src/domain/palo_alto.rs:121-125 | a stored name has '_' for spaces, slashes and hyphens, small letters for capital ones, and all else unchanged |
| PaloAltoColumns.NormalizedNamesDistinct | client/wazuh-forwarder/src/domain/palo_alto/schema.rs:2-179 | normalization is injective on the 31 + 84 and on the 31 + 53 column names |
| PaloAltoColumns.NormalizedNamesNotForeign | client/wazuh-forwarder/src/domain/palo_alto/schema.rs:2-179 | no column's stored name is that of a metadata or enrichment entry |
| PaloAltoColumns.NormalizedNamePlain | client/wazuh-forwarder/src/domain/palo_alto/schema.rs:2-179 | no column's stored name holds '=' |
| PaloAltoParser.ParsePaloAltoRecord | client/wazuh-forwarder/src/domain/palo_alto.rs:66-144 | fewer than 31 fields is an error; otherwise every field with text is stored with its typed value under the normalized name of its column, which from column 31 on is that of the THREAT table if the trimmed field 3 is THREAT and of the TRAFFIC table if it is anything else; beside the two metadata entries nothing else is stored |
| PaloAltoParser.LateColumnsDropped | client/wazuh-forwarder/src/domain/palo_alto.rs:76-94 | the columns from 84 on of a THREAT record, and from 115 on of any other, are dropped, and only those |
| PaloAltoParser.ColumnTypes | client/wazuh-forwarder/src/domain/palo_alto.rs:101-119 | integer columns make numbers of integer texts, float columns of texts that read as floats (0 of those that are not finite), and everything else stays text |
| PaloAltoParser.ParseI64Iff | client/wazuh-forwarder/src/domain/palo_alto.rs:101-105 | a text is read as a 64-bit integer if and only if it is that integer as printed, perhaps with a sign and zeros in front |
| PaloAltoParser.IntNumberUnsigned | client/wazuh-forwarder/src/domain/palo_alto.rs:101-105 | a stored integer reads back as an unsigned one, as a rule's number does, if and only if it is not negative |
| PaloAltoParser.AssembledKeys | client/wazuh-forwarder/src/domain/palo_alto.rs:82-139 | nothing else is in the log: each key is a present field's or one of the two metadata keys |
| PaloAltoParser.FieldStored | client/wazuh-forwarder/src/domain/palo_alto.rs:121-127 | storing one more field overwrites no earlier one |
| PaloAltoParser.TrimExact | client/wazuh-forwarder/src/domain/palo_alto.rs:96-99 | trimming removes only white space, and leaves none at either end |
| PaloAltoParser.TrimEmpty | client/wazuh-forwarder/src/domain/palo_alto.rs:96-99 | a field counts as empty if and only if it is all white space |
| PaloAltoParser.IntegerRoundTrip | client/wazuh-forwarder/src/domain/palo_alto.rs:101-105 | every 64-bit integer is read back from the text its number prints to |
| PaloAltoSyslog.FormatJsonToPaloAltoSyslog | client/wazuh-forwarder/src/domain/palo_alto.rs:152-253 | the line is the prefix and the log's parts in order; anything but an object is an error |
| PaloAltoSyslog.PartsOrigin | client/wazuh-forwarder/src/domain/palo_alto.rs:178-243 | both ways: which members and enrichment entries get a part, and under which key |
| SyslogParts.PartsInOrder | client/wazuh-forwarder/src/domain/palo_alto.rs:178-243 | the parts in order: the leading fields that are present, in their fixed order and under their syslog keys; then the other members that are neither metadata nor leading nor empty, in the map's order; then the enrichment entries, in theirs |
| SyslogParts.StringText | client/wazuh-forwarder/src/domain/palo_alto.rs:157-163 | a string is printed as it is if and only if it holds no space and no quote, and escaped between quotes otherwise |
| SyslogParts.PlainTexts | client/wazuh-forwarder/src/domain/palo_alto.rs:164-165 | booleans and integers print as themselves, without leading zeros |
| SyslogParts.ArrayText | client/wazuh-forwarder/src/domain/palo_alto.rs:166-172 | an array's quoted text splits at its commas into the texts of its elements, in order and without their quotes |
| SyslogParts.EmptyText | client/wazuh-forwarder/src/domain/palo_alto.rs:173-174 | exactly null, objects, empty strings and empty number texts print as nothing |
| SyslogTokenizer.UnescapeEscape | client/wazuh-forwarder/src/domain/palo_alto.rs:157-163 | unescaping undoes the quote escaping for every string |
| SyslogTokenizer.DecodeString | client/wazuh-forwarder/src/domain/palo_alto.rs:157-163 | decoding a printed string value returns the original string, quoted or not |
| SyslogTokenizer.ValuePrints | client/wazuh-forwarder/src/domain/palo_alto.rs:155-176 | every value prints as a plain or a properly quoted text, and its closing quote is swallowed exactly for a trailing backslash |
| SyslogTokenizer.RoundTrip | client/wazuh-forwarder/src/domain/palo_alto.rs:178-252 | for any printed parts the tokenizer recovers them in order if and only if no key holds '=' and no quoted inner text ends in a backslash |
| SyslogTokenizer.LineRoundTrip | client/wazuh-forwarder/src/domain/palo_alto.rs:152-253 | for every log its line reads back as its parts if and only if every printed member has a key without '=' and no quoted value ending in a backslash |
| SyslogTokenizer.StringFieldSurvives | client/wazuh-forwarder/src/domain/palo_alto.rs:152-253 | through the whole line, a printed string field is recovered under its key and decodes to its original string |
| SyslogTokenizer.BackslashSwallowsTheLine | client/wazuh-forwarder/src/domain/palo_alto.rs:157-163 | any string that needs quotes and ends in a backslash spoils even a one-field line |
| PaloAltoRoundTrip.TypedValueSurvives | client/wazuh-forwarder/src/domain/palo_alto.rs:101-119 | printing a stored value and reading its text under the same column gives the same typed value if and only if the text was not read as a non-finite float |
| PaloAltoRoundTrip.NonFiniteLost | client/wazuh-forwarder/src/domain/palo_alto.rs:107-112 | a non-finite float is stored as the integer 0, prints as "0" and reads back as a float |
| PaloAltoRoundTrip.ParsedLogSound | client/wazuh-forwarder/src/domain/palo_alto.rs:66-144 | the members of a parsed log that reach the line are exactly fields of its record |
| PaloAltoRoundTrip.RecordReadsBack | client/wazuh-forwarder/src/domain/palo_alto.rs:178-252 | a parsed record's line reads back as its parts if and only if no field the schema names has a trimmed text that holds a space or a quote and ends in a backslash |
| PaloAltoRoundTrip.FieldSurvives | client/wazuh-forwarder/src/domain/palo_alto.rs:66-252 | parser, formatter and tokenizer together: when the line reads back, every present field is recovered, with its stored typed value if and only if its text is not a non-finite float, and as "0" if it is |
| ThreatHunt.ScanPatterns | client/wazuh-forwarder/src/domain/enrichment.rs:188-223 | the recursive scan appends the hits of the value's string leaves, each under its printed path |
| LogTree.LeavesAreExactlyTheStrings | client/wazuh-forwarder/src/domain/enrichment.rs:188-222 | the walk reaches exactly the strings that sit at some address of the log |
| LogTree.LeavesDistinct | client/wazuh-forwarder/src/domain/enrichment.rs:188-222 | and reaches each address once |
| LogTree.LeavesInOrder | client/wazuh-forwarder/src/domain/enrichment.rs:188-222 | the walk lists the strings in the order of the log: earlier members and earlier elements first |
| ThreatHunt.ScanIsComplete | client/wazuh-forwarder/src/domain/enrichment.rs:186-223 | hits are exactly the pairs of a string leaf and a matching pattern; with safe keys no two hits share pattern and path |
| ThreatHunt.ScanIsOneToOne | client/wazuh-forwarder/src/domain/enrichment.rs:186-223 | whatever the keys, the hits correspond position by position to the distinct pairs of a string leaf and a matching pattern |
| ThreatHunt.HitsInOrder | client/wazuh-forwarder/src/domain/enrichment.rs:186-223 | the hits follow the order of the strings |
| ThreatHunt.LeafHitsInOrder | client/wazuh-forwarder/src/domain/enrichment.rs:206-219 | and for one string that of the patterns, each with the string's path and its first 100 characters |
| FieldPaths.RenderInjective | client/wazuh-forwarder/src/domain/enrichment.rs:192-202 | when keys are non-empty, hold no '.' and do not end in a printed index such as "[0]", different addresses have different field_path strings |
| FieldPaths.UnsafeKeysCollide | client/wazuh-forwarder/src/domain/enrichment.rs:192-202 | no other key is safe: for every key that breaks one of the three conditions there is a log, without repeated keys, in which a string leaf under that key and another one print the same path, whatever their texts |
| ThreatHunt.CollidingHits | client/wazuh-forwarder/src/domain/enrichment.rs:186-223 | the scan then reports a pattern that matches both twice at one path |
| Indicators.CollectStrings | client/wazuh-forwarder/src/domain/enrichment.rs:168-180 | the strings of a value, in the scan's order |
| Indicators.TextsByPosition | client/wazuh-forwarder/src/domain/enrichment.rs:168-180 | one for each string, by position |
| Indicators.Extract | client/wazuh-forwarder/src/domain/enrichment.rs:19-57 | the matches of one kind over all strings, each once |
| Indicators.FoundInLeaves | client/wazuh-forwarder/src/domain/enrichment.rs:41-51 | all matches of a kind, string by string in the order of the walk |
| Indicators.FirstOccurrencesInOrder | client/wazuh-forwarder/src/domain/enrichment.rs:52-55 | removing repetitions keeps each value where it first occurs |
| Indicators.EnrichIocMatches | client/wazuh-forwarder/src/domain/enrichment.rs:102-166 | a known indicator is reported exactly once if it occurs in some string of the log and not otherwise, in the order of first occurrence; None if and only if none occurs |

## Left out

- Sockets, UDP, stdin, HTTP feed download, cache files, TOML loading, logging and signals: plumbing; a signal may set the flag at any moment, and connecting and writing succeed or fail as the script says.
- Regular expressions, the csv, serde_json, chrono and maxminddb crates: parameters with the few assumptions listed above.
- The syslog prefix stripping before the CSV record, normalize_packet, is_public_ip, GeoIP lookups, string pooling and configuration validation: single-function branch reading.
- The process and correlation parts of the threat hunt, and the assembly of the enrichment object: linear checks over one string.
- StateManager save and load, and the merger's save timer: two integers through JSON; the behavioural history is not saved.
- The stdout mode of the tshark run, thread spawn failures, and panics other than the receiver's: the pipeline model is the ELK mode with all tasks started.
- What the threat-intelligence updater loads, and wall-clock fairness of threads: `PipelineEnd.ReturnsIff` says when the end stays reachable, not that a scheduler reaches it.
- Memory orderings weaker than sequential consistency: the breaker's threads interleave whole atomic operations.
- CircuitBreaker.BreakerRefinesHistory: for outcomes recorded in one sequence, each after an admission; with several threads inside calls at once the counters can mix two threads' outcomes, and `SharedBreaker` states what still holds.
- ElkSender.PoolUnderSender: the active count equals the number of failed writes while that number is below usize::MAX.
- Workers.WorkerThread: the item says whether the enrichment counts it; the enriched log and the two output queues are not repeated here, since `Pipeline` has the queues.
- PaloAltoRoundTrip.FieldSurvives: a float column whose text is an infinity, a NaN or overflows does not come back, neither as its text nor as the stored value: the parser stores the integer 0, and the line's "0" reads as a float (`PaloAltoRoundTrip.NonFiniteLost`).
- Indicators.EnrichIocMatches: reports which indicators match; feed names attached to an address are not part of this model.
- Refusals by the parsed queue after its receivers are gone: main holds its own receiver for the whole run, so a full queue is the only refusal.
