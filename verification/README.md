# A verified model of the threat engine's core

This project models the parts of the engine whose correctness is not visible from any one
function body, and proves what they promise over every input, every schedule and every
run: the lock-free ring buffer, the sequence matcher, the windowed sketches with the
detector built on them, and the pipeline that wires them together. `dafny verify
dfyconfig.toml` checks everything.

## How the model is laid out

**The ring buffer** (`engine/src/queue.rs`). `MpmcQueue` is a machine with any number of
threads. Each atomic access of `push` and `pop` is a step of its own
(`MpmcQueue.StepThread`), and so are the plain write of a slot's value and the plain take;
a weak compare-exchange may fail for no reason. A history that the machine never reads
writes down who claimed each position, with which item, and what each take found.
`QueueInvariant` holds the invariant and its heart, the stability argument: a thread that
once read `seq == pos` may be delayed as long as one likes, and its later successful
compare-exchange still finds the slot free. `QueueSafety` draws the consequences for any
number of producers and consumers and `QueueProgress` the lock-freedom measure, all three
over counters that grow for ever. The real counters are 64-bit words. `QueueWrap` says
exactly when the 64-bit machine (wrapping counters, `pos & mask`, signed difference) follows
the unbounded one, `QueueStale` has runs in which it does not, and `Queue64` shows what of
the protocol then remains: all of it, until a compare-exchange takes a counter that has gone
all the way round for the one it loaded. `QueueOrder` shows that the calls that succeed, of
any number of threads and on either machine, take effect one at a time on an atomic bounded
FIFO. `QueueFifo` shows that with one producer and one consumer, as the pipeline wires each
queue, so do the refused ones, and `QueueFifoWrap` carries that over to 64 bits with no
condition. `QueueCalls` is what a call's steps mean to its caller.
`RingQueue` is the same code as a class with arrays and loops, run by one thread.

**The sequence matcher** (`engine/src/detection/cep.rs`). `CepSpec` says what one rule
does with one source's own events, with attempts that remember which events they matched.
`CepEngine` is the class: tables of partial matches per rule and source, expired, advanced
newest first, dropped and started in place, against that specification. `CepTheory` holds
the order invariant that makes the early `break` harmless, and soundness, completeness,
no-reuse and nesting over whole histories. `CepAlerts` takes these from one rule and one
source to the alerts of an engine fed all sources. `CepSharding` shows that other sources'
events change nothing but the numbers of the alerts.

**The sketches and the detector** (`engine/src/detection/anomaly.rs`). `CountMin` and
`HyperLogLog` are classes over fixed arrays that stand for the exact sequence of
increments and the exact set of keys since the last clear. The hash is any function; the
estimator is over the reals, with any monotone `ln` between `1 - 1/x` and `x - 1` from 1 on.
`DetectorSpec` is the detector with exact counts as a function of its readings (an event
and the two readings of the clock) and of its two decisions, flood and scan;
`DetectorSpec.SketchWatch` is what the sketches decide. `DetectorTheory` shows what holds
of its alerts over whole runs, and that the sketches' decisions have what that takes;
`DetectorWindows` shows when windows roll and how much of an attack is sure to be reported
however it falls across them, and `DetectorReports` says exactly when an alert is raised in
terms of the readings alone.
`Detector` is the class over the two sketches; the map from source to port sketch, a plain
field in the source, is a class of its own there (`PortSketches`), so that updating one
source's sketch in place is shown not to touch another's. Times are readings of a clock
that does not run backwards, as `Instant` is; event timestamps play no part in any window.

**The pipeline** (`engine/src/pipeline.rs`). `Pipeline` composes, over the real queue
machine, a producer that routes by source and drops what a full queue refuses, and one
worker per queue that pops, counts, and runs the signature, anomaly and sequence detectors
in turn, recording each one's alerts before the next; queue steps and counter bumps of all
of them interleave in any order. The counters of the queues are 64-bit or unbounded, as the
configuration says, and each queue keeps the schedule it went through, so that what is
proved of the queue machine applies to it. To count an alert and to add it to the store of
the latest 5000 are two steps, as they are in the source. `Worker` has the anomaly detector
and the sequence matcher as machines and as the classes run them, and `WorkerRuns` what they
raise over whole runs. `PipelineInvariant` and `PipelineRuns` keep the invariant,
`PipelineTheory` states what holds of the events and `PipelineAlerts` what holds of the
alerts. Conservation and order hold for any routing function and any detectors;
`Pipeline.EngineConfig` is the engine's own choice, with 64-bit queues, and `EngineTheory`
says of it what goes in and what comes out in numbers: flags, bytes, hashes, clock readings
and the fields of alerts.

`Words` writes out 64-bit words over the integers, `Numbering` is how alerts are numbered,
and `Mealy` and `Sequences` have the few facts about runs of machines and about filtered
sequences that the other modules share.

## What turned out not to hold, and what does

- A queue of capacity 1 passes the assertion in `new`, but "published" and "free for the
  next lap" are then the same number and the second push overwrites the first item
  (`QueueSafety.OneSlotOverwrites`). With counters that grow for ever the protocol is sound
  for exactly the powers of two from 2 on (`QueueSafety.SoundExactlyFromTwoSlots`).
- With the 64-bit counters of the code that holds of runs of up to 2^64 moves
  (`Queue64.ShortRunsSoundExactlyFromTwoSlots`) but not of all runs: whatever the capacity,
  a push whose thread sleeps before its compare-exchange until the counter has gone all the
  way round overwrites an item (`QueueStale.StaleClaimOverwrites`). Over runs of any length
  the 64-bit queue is sound for a single thread, from two slots on, and for no greater number
  of threads (`Queue64.SoundForeverExactlyWhen`); a given run is sound as long as none of its
  compare-exchanges is such a false claim (`Queue64.ExclusiveWithoutFalseClaims`). With one
  producer and one consumer there are none (`QueueFifoWrap.WrappingRunsAreFifoRuns`).
- On 64 bits a push whose thread sleeps before its load of `seq` through 2^63 pushes and pops
  of other threads is refused by an empty queue (`QueueStale.StalePushIsRefused`).
  `QueueWrap.RunsAgreeExactlyWhen` says in which runs every branch is the right one.
- "`None` if the queue is currently empty" is false with several producers: an earlier
  claimant may not have published yet (`QueueSafety.NoneDespiteACompletedPush`). Exactly
  when `pop` refuses is `QueueSafety.PopRefusedExactlyWhen`, and on 64 bits
  `Queue64.PopRefusedOn64BitsExactlyWhen`; with one producer and one consumer it does mean
  empty (`QueueFifo.RefusedOnlyEmpty`).
- The comment that the Count-Min estimate never undercounts needs the condition that the
  true count fits a saturating cell (`CountMin.NeverUndercountsExactlyWhen`); 2^32
  increments of one key are an input on which it fails (`CountMin.SaturatedUndercounts`).
- A sequence rule of one step never raises an alert: on a lone SYN the rule that looks for
  SYNs stays silent (`CepAlerts.SynOnlyRuleStaysSilent`). The rules are fixed in
  `with_default_rules`, so such a rule arises only by editing that list. Of the rules with
  steps, those whose every scenario fires by its last event are exactly those of two steps
  or more, and those of one step that no event meets
  (`CepAlerts.CompleteExactlyFromTwoSteps`).
- "Flood at 50 SYNs" holds per window, and windows do not slide: 99 SYNs within less than a
  window always raise the alert (`DetectorWindows.NinetyNineSynsAlert`), 98 need not
  (`DetectorWindows.NinetyEightMayPass`).
- "Scan at 25 distinct ports" fails when ports share buckets: 25 ports under a constant hash
  raise nothing (`DetectorTheory.TwentyFivePortsMayPass`). The decision is exact in touched
  buckets (`DetectorTheory.ScanExactlyWhen`); 49 different ones within less than a window
  always raise the alert (`DetectorWindows.FortyNineBucketsAlert`), 48 need not
  (`DetectorWindows.FortyEightMayPass`).
- `docs/DESIGN.md` says that events are not sharded by flow; the code routes by source to
  one queue per worker, and the model follows the code. The comment on the estimator speaks
  of half the buckets being empty where the code asks for nine in ten; the model has 0.9.

## Model

| member | source | states |
|---|---|---|
| QueueInvariant.PushClaimIsSafe | engine/src/queue.rs:59-71 | stability for push: whenever a thread stands before its compare-exchange and the counter still equals its `pos`, however long ago it read `seq`, the position is within one lap of the head and its slot is unclaimed and holds nothing |
| QueueInvariant.PopClaimIsSafe | engine/src/queue.rs:89-101 | the same for pop: the slot is still published and holds the item claimed at that position |
| QueueInvariant.OwnersDiffer | engine/src/queue.rs:30-33 | two different threads between claim and release own different slots |
| QueueInvariant.StepKeepsInv | engine/src/queue.rs:56-113 | every step of every thread, spurious failures included, keeps the slot protocol's invariant |
| QueueInvariant.ReachableInv | engine/src/queue.rs:37-113 | so the invariant holds after every schedule from a new queue with at least two slots |
| QueueSafety.AlwaysExclusive | engine/src/queue.rs:64-73 | with unbounded counters: in every reachable state at most one thread is between claim and release on a slot, a claimed push overwrites `None`, and a claimed pop takes `Some`; `Queue64.ExclusiveWithoutFalseClaims` is about the 64-bit counters |
| QueueSafety.OneSlotOverwrites | engine/src/queue.rs:38-38 | a schedule on a queue of capacity 1 after which a claimed push is about to overwrite an item |
| QueueSafety.SoundExactlyFromTwoSlots | engine/src/queue.rs:37-52 | with unbounded counters: of the capacities `new` accepts, exactly those of at least 2 give exclusive access for every number of threads and every schedule; `Queue64.ShortRunsSoundExactlyFromTwoSlots` and `Queue64.SoundForeverExactlyWhen` are about the 64-bit counters |
| QueueSafety.PopReturnsThePushedItem | engine/src/queue.rs:94-103 | a pop that took position p returns the item that the push of p claimed it with, and is the one thread that claimed p |
| QueueSafety.TakesMatchClaims | engine/src/queue.rs:56-113 | claims and pops match the counters; every taken position gave the item claimed there, and every other dequeued position has its claimant right before the take |
| QueueSafety.TakenOnce | engine/src/queue.rs:101-101 | what a take found is never overwritten or forgotten by a later step |
| QueueSafety.QuietAccountsForEverything | engine/src/queue.rs:56-113 | with no call under way the delivered items are a prefix of the claimed ones in claim order, the rest sit published in their slots, and all other slots are free and empty |
| QueueSafety.PushRefusedExactlyWhen | engine/src/queue.rs:77-78 | `push` refuses if and only if, at its load of `seq`, the position one lap behind was claimed by a push and not released by a pop |
| QueueSafety.PopRefusedExactlyWhen | engine/src/queue.rs:107-108 | `pop` refuses if and only if, at its load of `seq`, the push of its position had not published |
| QueueSafety.AloneRefusalsAreExact | engine/src/queue.rs:54-113 | with no other call under way a refusal means exactly full, respectively exactly empty |
| QueueSafety.NoneDespiteACompletedPush | engine/src/queue.rs:85-108 | a schedule with two producers in which a pop returns `None` after a push has completed |
| QueueProgress.RetriesBoundedByOthers | engine/src/queue.rs:58-82 | in every schedule a thread's non-spurious trips around the loop are at most the successful claims of the other threads on that side |
| QueueProgress.RetryIsPaid | engine/src/queue.rs:88-112 | such a trip happens only if another thread moved the counter since this thread last loaded it |
| QueueProgress.SoloPushMakesOnePass | engine/src/queue.rs:56-83 | a push run without interference returns within one pass of its loop: refused after two steps or done after five |
| QueueProgress.SoloPopMakesOnePass | engine/src/queue.rs:86-113 | a pop run without interference returns within one pass of its loop |
| QueueWrap.WrappedIndex | engine/src/queue.rs:59-59 | `pos & mask` on the wrapped counter is the slot of the unbounded position, for every power of two |
| QueueWrap.WrappedBranchExactlyWhen | engine/src/queue.rs:61-61 | the wrapped signed difference takes the branch of the true one exactly when the true one, modulo the word, stays on its side of half a word |
| QueueWrap.StepAgreesExactlyWhen | engine/src/queue.rs:56-113 | in every state, for every capacity `new` accepts, one step of the 64-bit machine is the wrapped step of the unbounded one if and only if the moving thread branches alike on the wrapped and on the true values |
| QueueWrap.RunsAgreeExactlyWhen | engine/src/queue.rs:56-113 | for every schedule and any number of threads the 64-bit machine goes through the wrapped states of the unbounded one if and only if each moving thread branches alike |
| QueueWrap.FreshBranchesAlike | engine/src/queue.rs:59-71 | in every state that keeps the protocol's invariant, a thread whose loaded position lags by less than half a word less the capacity branches alike |
| QueueStale.StalePushIsRefused | engine/src/queue.rs:60-78 | for every capacity and two threads or more, a schedule after which the 64-bit machine has refused a push although every slot is empty, where the unbounded machine tries again |
| QueueWrap.StepsAgree | engine/src/queue.rs:56-113 | so one step of such a thread is the wrapped step of the unbounded machine |
| QueueWrap.RunsAgree | engine/src/queue.rs:56-113 | and so are whole runs in which every moving thread is as fresh, across overflow of the counters |
| QueueStale.StaleClaimOverwrites | engine/src/queue.rs:64-71 | for every capacity and two threads or more, a schedule after which a push of the 64-bit machine has claimed a slot that holds an item pushed and not popped |
| Queue64.StepFollowsExactlyWhen | engine/src/queue.rs:56-113 | in every state, one step of the 64-bit machine is the step on true positions, with probes that branch by the words, if and only if it is not a false claim: a compare-exchange on a counter that has gone a whole multiple of 2^64 past the position it loaded |
| Queue64.TrueNextKeepsInv | engine/src/queue.rs:56-113 | that step keeps the slot protocol's invariant whatever branches the probes take, for every capacity of at least two slots |
| Queue64.WordsFollow | engine/src/queue.rs:56-113 | so in every run without a false claim the words of the 64-bit machine are those of true positions, for any number of threads |
| Queue64.ExclusiveWithoutFalseClaims | engine/src/queue.rs:64-73 | and the 64-bit machine keeps exclusive access |
| Queue64.PopReturnsThePushedItemOn64Bits | engine/src/queue.rs:94-103 | and its pops return the item that the push of the same position claimed it with |
| Queue64.PushRefusedOn64BitsExactlyWhen | engine/src/queue.rs:77-78 | on true positions, however long other threads have slept: a push whose own position lags by less than half a word less the capacity is refused if and only if the position one lap behind was claimed and not yet released |
| Queue64.PopRefusedOn64BitsExactlyWhen | engine/src/queue.rs:107-108 | and such a pop if and only if the push of its position has not published |
| Queue64.AlikeMeansTrue | engine/src/queue.rs:56-113 | a run whose moves branch alike on words and true values has no false claim, and its true positions are those of the unbounded machine |
| Queue64.ShortRunsSoundExactlyFromTwoSlots | engine/src/queue.rs:37-52 | over all numbers of threads and all runs of at most 2^64 moves, the 64-bit queue keeps exclusive access for exactly the capacities of at least 2 |
| Queue64.SoundForeverExactlyWhen | engine/src/queue.rs:37-52 | over runs of any length, it does so exactly with no thread, or with one thread and at least 2 slots |
| Queue64.ShortRunsAgree | engine/src/queue.rs:56-113 | every run of at most 2^63 moves less the capacity, of any number of threads, goes through the wrapped states of the unbounded machine |
| QueueOrder.MoveIsFifoStep | engine/src/queue.rs:64-71 | any number of threads: a successful compare-exchange of a push adds its item to the claimed items that no pop has claimed, one of a pop removes the first of them, and no other move changes them |
| QueueOrder.SuccessesLinearize | engine/src/queue.rs:56-113 | so the calls that succeed are linearizable at their compare-exchanges for any number of producers and consumers: the atomic bounded FIFO accepts every run of them, and takes in and gives out exactly the items of the positions, in order |
| QueueOrder.SuccessesLinearizeOn64Bits | engine/src/queue.rs:56-113 | and so on 64 bits in every run without a false claim |
| QueueOrder.RepliesAreEffects | engine/src/queue.rs:72-104 | a push that returns `Ok` was the enqueuing of its own position, and a pop that returns an item the dequeuing of its own position, with that item |
| QueueFifo.PushStoreEnqueues | engine/src/queue.rs:72-73 | one producer, one consumer: the release store of a push is the instant its item joins the end of the FIFO |
| QueueFifo.PopStoreDequeues | engine/src/queue.rs:102-103 | the release store of a pop is the instant the first item leaves, and the reply is that item |
| QueueFifo.RefusedOnlyFull | engine/src/queue.rs:77-78 | the push is refused if and only if the FIFO is full at its load of `seq` |
| QueueFifo.RefusedOnlyEmpty | engine/src/queue.rs:107-108 | the pop is refused if and only if the FIFO is empty at its load of `seq` |
| QueueFifo.RunsAreFifoRuns | engine/src/queue.rs:56-113 | linearizability: the atomic bounded FIFO accepts the replies of every run in the order they are given and ends with what the ring holds |
| QueueFifoWrap.WrappingRunsAreFifoRuns | engine/src/queue.rs:56-113 | the same for the 64-bit machine, counter overflow included, with no condition on the threads |
| RingQueue.RingQueue.constructor | engine/src/queue.rs:37-52 | for every power of two a new ring has both counters at 0 and each slot free for the position of its index; from two slots on it stands for the empty FIFO |
| RingQueue.RingQueue.Push | engine/src/queue.rs:56-83 | the loop over slot arrays with wrapping counters appends the item if there is room and otherwise returns it and changes nothing, whatever number of compare-exchanges fail spuriously |
| RingQueue.RingQueue.Pop | engine/src/queue.rs:86-113 | it removes and returns the first item, or returns `None` if and only if there is none |
| Models.ComputeShardKey | engine/src/models.rs:93-105 | the loop computes the fold of the four source-address bytes, most significant first |
| Models.SynByFlags | engine/src/models.rs:35-37 | an event is a SYN exactly if, of its flags as a number, the lowest bit is set and the next is not: `flags % 4 == 1` |
| Models.BytesGiveAddress | engine/src/models.rs:95-100 | the four bytes the key is made from are the address in base 256, most significant first |
| Models.NeighboursHaveDifferentKeys | engine/src/models.rs:93-105 | addresses that differ in one byte have different keys: no step of the hash loses anything |
| Models.KeyOfAddressOne | engine/src/models.rs:93-105 | the key of 0.0.0.1 worked out in decimal |
| Models.ShardOf | engine/src/pipeline.rs:84-84 | the worker is a function of the source address alone and is one of the workers |
| CepEngine.RetainUnexpired | engine/src/detection/cep.rs:96-97 | the pass keeps exactly the partial matches whose window has not elapsed, in order |
| CepEngine.AdvanceNewestFirst | engine/src/detection/cep.rs:101-127 | the in-place loop from the newest, with its `break`, does what the recursive description says, and reports a completion if and only if there is one |
| CepEngine.RetainIncomplete | engine/src/detection/cep.rs:130-132 | the pass drops exactly the completed matches |
| CepEngine.CepEngine.ProcessRule | engine/src/detection/cep.rs:92-144 | one rule's passes over one source's list keep it equal to what that source's own events leave open, and the rule fires exactly as specified |
| CepEngine.CepEngine.Process | engine/src/detection/cep.rs:87-148 | an event's alerts are one per rule that its source's own events make fire, in rule order, numbered on from the engine's next number; every table stays what each source's own events make it |
| CepTheory.ExpiryRemovesPrefix | engine/src/detection/cep.rs:96-97 | expiry removes exactly a prefix of the list, the oldest partial matches |
| CepTheory.BreakHoldsOnlyLastStep | engine/src/detection/cep.rs:99-127 | advancing with the early break is advancing all, except that of the matches already at the last step only the newest completes |
| CepTheory.FeedWrittenOut | engine/src/detection/cep.rs:92-144 | one event's whole effect on a list: a prefix expires, at most one match completes, the others advance or stay, one may start |
| CepTheory.KeyRunInv | engine/src/detection/cep.rs:92-144 | over every history, from oldest to newest starts never decrease and steps never increase, and every open match is a genuine chain of the source's events |
| CepTheory.AlertsAreSound | engine/src/detection/cep.rs:101-127 | an alert is the end of an increasing chain of the source's events that meets every step in order, within the window of its first |
| CepTheory.ScenariosFire | engine/src/detection/cep.rs:92-144 | completeness: events that meet the steps in order within the window raise an alert at the last of them, unless the match begun at the first completed earlier |
| CepTheory.NoEventIsReused | engine/src/detection/cep.rs:129-132 | no two completed matches share their first or their last event |
| CepTheory.PairsNeverCross | engine/src/detection/cep.rs:101-132 | for a two-step rule the completed pairs are well nested: none crosses another |
| CepAlerts.DefaultPairsNeverCross | engine/src/detection/cep.rs:72-78 | so are the probe and exploit pairs of the default rule |
| CepTheory.ShortRulesNeverFire | engine/src/detection/cep.rs:138-143 | a rule of fewer than two steps never completes |
| CepSpec.SuspiciousPayload | engine/src/detection/cep.rs:45-46 | a payload with the six bytes of "passwd" in a row, wherever, is suspicious |
| CepSpec.SuspicionHasWord | engine/src/detection/cep.rs:45-46 | and a suspicious payload has them |
| CepSpec.NoWNoSuspicion | engine/src/detection/cep.rs:45-46 | so a payload without the byte of the letter w is not |
| CepSpec.OtherConditions | engine/src/detection/cep.rs:44-47 | the SYN condition in terms of the flags as a number, and the port condition, which is met from the next port on |
| CepAlerts.ScenariosRaise | engine/src/detection/cep.rs:101-127 | completeness without the exception: every scenario makes its rule fire at some event after its first and no later than its last |
| CepAlerts.CompleteExactlyFromTwoSteps | engine/src/detection/cep.rs:138-143 | of the rules with steps, every scenario fires by its last event if and only if there are at least two steps, or no event meets the only one |
| CepAlerts.SynOnlyRuleStaysSilent | engine/src/detection/cep.rs:138-143 | a lone SYN is a scenario of the one-step rule that looks for SYNs, and raises nothing |
| CepAlerts.FiredIsRaised | engine/src/detection/cep.rs:105-123 | a rule that fires has its alert among those of the event |
| CepAlerts.RaisedHasFired | engine/src/detection/cep.rs:105-123 | and each alert of the event is that of a rule that fires |
| CepAlerts.ScenarioIsReported | engine/src/detection/cep.rs:87-147 | fed any interleaving of sources, the engine raises the alert of every rule for every scenario of one source, after its first event and no later than its last |
| CepAlerts.ReportsAreSound | engine/src/detection/cep.rs:87-147 | and every alert it raises ends a chain of the alert's source that meets a rule's steps in order within the window |
| CepAlerts.ProbeThenExploitIsReported | engine/src/detection/cep.rs:72-78 | with the default rules, an event with SYN and not ACK and then a payload that has the word, of the same source and at most 5 000 000 000 ns later, raise "probe-then-exploit-attempt", severity critical, no later than at the payload |
| CepAlerts.ChainIsProbeThenExploit | engine/src/detection/cep.rs:72-78 | and every completed attempt at the default rule is such a pair |
| CepSharding.NumberingApart | engine/src/detection/cep.rs:105-124 | an event's alerts are about its own source and depend on the next number only in their numbers |
| CepSharding.OtherSourcesChangeNothing | engine/src/detection/cep.rs:92-96 | an engine fed everything raises for a source exactly what an engine fed only that source's events raises, numbering aside |
| CepSharding.EngineNumbers | engine/src/detection/cep.rs:106-108 | the k-th alert of a sequence matcher has number 1 + k modulo 2^64 |
| Numbering.NumbersDiffer | engine/src/detection/cep.rs:106-108 | so among up to 2^64 of its alerts no two numbers are equal |
| CountMin.CountMinSketch.Increment | engine/src/detection/anomaly.rs:52-57 | each row's cell of the key counts one more, saturating, so the table stands for the increments so far and this one |
| CountMin.CountMinSketch.Estimate | engine/src/detection/anomaly.rs:61-66 | the least cell of the key over the rows, each cell being the saturated number of increments hashed there; 0 with no rows |
| CountMin.CountMinSketch.Clear | engine/src/detection/anomaly.rs:68-72 | afterwards the table stands for no increments |
| CountMin.EstimateIsLeastSharing | engine/src/detection/anomaly.rs:61-66 | the estimate is at most the number of increments whose hash shares the key's column, in every row, and in some row it is that number, up to 2^32 - 1 |
| CountMin.ExactIfUnshared | engine/src/detection/anomaly.rs:61-66 | so if in some row no other key shares the key's column the estimate is the true count, up to 2^32 - 1 |
| CountMin.NeverUndercountsExactlyWhen | engine/src/detection/anomaly.rs:59-66 | min(2^32-1, true count) <= estimate <= min(2^32-1, all increments), and the estimate is at least the true count if and only if that is 0 or there are rows and it fits a cell |
| CountMin.SaturatedUndercounts | engine/src/detection/anomaly.rs:55-60 | after 2^32 increments of one key the estimate is below the true count, for every table size and hash |
| CountMin.RowConserves | engine/src/detection/anomaly.rs:52-57 | the increments that landed on a row's cells add up to all increments |
| CountMin.FewHeavyCells | engine/src/detection/anomaly.rs:24-26 | at most total/c cells of a row hold c or more |
| CountMin.ShardNeverEstimatesHigher | engine/src/pipeline.rs:98-112 | a sketch fed a sub-multiset of the increments, as one worker's is, never estimates higher, and order does not matter |
| HyperLogLog.RankIsFirstOne | engine/src/detection/anomaly.rs:98-100 | with the sentinel bit, the rank is the position of the first one among the hash bits below the bucket number, or one past their end if they are all zero |
| HyperLogLog.HashInTwoParts | engine/src/detection/anomaly.rs:98-99 | the bucket number times 2^(64 - bits) plus the bits below it is the hash |
| HyperLogLog.BucketIsInterval | engine/src/detection/anomaly.rs:98-98 | a hash is in bucket k exactly if it lies in the k-th interval of 2^(64 - bits) words |
| HyperLogLog.PartsTellHashes | engine/src/detection/anomaly.rs:98-99 | bucket and low bits are equal exactly if the hashes are |
| HyperLogLog.HyperLogLog.Add | engine/src/detection/anomaly.rs:93-104 | the buckets keep standing for the set of keys, now with this one: each bucket the greatest rank of the keys hashed to it, or zero |
| HyperLogLog.HyperLogLog.Clear | engine/src/detection/anomaly.rs:162-164 | afterwards the buckets stand for the empty set |
| HyperLogLog.StateIsFunctionOfSet | engine/src/detection/anomaly.rs:93-104 | two sketches of the same set of keys have equal buckets: order and repeats do not matter |
| HyperLogLog.BucketsGrowWithKeys | engine/src/detection/anomaly.rs:101-103 | more keys never lower a bucket |
| HyperLogLog.ScanDecisionIsExact | engine/src/detection/anomaly.rs:143-154 | with 1024 buckets the estimate reaches 25.0 if and only if at least 25 buckets are touched, in both regimes of the estimator |
| HyperLogLog.TouchedAtMostKeys | engine/src/detection/anomaly.rs:93-104 | there are at most as many touched buckets as distinct keys |
| HyperLogLog.ScanMeansManyKeys | engine/src/detection/anomaly.rs:249-256 | an estimate of 25.0 means at least 25 distinct keys |
| HyperLogLog.EstimateGrowsWithKeys | engine/src/detection/anomaly.rs:143-154 | the estimate never decreases as keys are added, across the switch of regimes included |
| HyperLogLog.DenseEstimate | engine/src/detection/anomaly.rs:143-154 | with 1024 buckets, at least a tenth of them touched: if z are empty and the t others have ranks from r to r', the estimate lies between 0.7205 * 1024^2 / (z + t / 2^r) and 0.7206 * 1024^2 / (z + t / 2^r') |
| HyperLogLog.FullEstimate | engine/src/detection/anomaly.rs:151-153 | with none empty it lies between 0.7205 * 1024 * 2^r and 0.7206 * 1024 * 2^r' |
| HyperLogLog.SparseEstimate | engine/src/detection/anomaly.rs:147-149 | with fewer than a tenth of m buckets touched, t touched ones are estimated at t or more, and at most at t * m / (m - t) |
| DetectorSpec.StateDescribesWindow | engine/src/detection/anomaly.rs:213-247 | before and after every reading the detector knows exactly the SYNs, ports and alerts of the reading's own window |
| DetectorTheory.FloodDecision | engine/src/detection/anomaly.rs:228-247 | a reading raises a flood alert if and only if it is a SYN, its source has had none in the window, and the decision on the window's SYNs so far is a flood |
| DetectorTheory.FloodAtMostOnce | engine/src/detection/anomaly.rs:232-235 | no source has two flood alerts in one window |
| DetectorTheory.SketchCatchesFloods | engine/src/detection/anomaly.rs:228-233 | the sketch with the threshold decides on a flood whenever the source itself has 50 SYNs, and only if there are 50 SYNs in all, whatever the hash |
| DetectorTheory.FloodByFiftiethSyn | engine/src/detection/anomaly.rs:228-247 | for any such decision, a source with 50 SYNs in a window has its flood alert in that window, no later than at the 50th |
| DetectorTheory.FloodNeedsFiftySyns | engine/src/detection/anomaly.rs:228-235 | for any such decision, a flood alert means at least 50 SYNs in the window so far, over all sources |
| DetectorReports.FloodExactlyWhen | engine/src/detection/anomaly.rs:228-247 | of the sketch as it is built: a reading raises a flood alert if and only if it has SYN and not ACK, its source has had none in the window, and in each of the 4 rows 50 such readings of the window or more have sources whose hash modulo 2048 is the source's |
| DetectorReports.AcksNeverFlood | engine/src/models.rs:35-37 | an event with ACK never raises a flood alert |
| DetectorReports.AcksAreNotCounted | engine/src/detection/anomaly.rs:228-229 | nor does it count towards one |
| DetectorTheory.SketchCountsBuckets | engine/src/detection/anomaly.rs:249-256 | the sketch with the threshold decides on a scan exactly when the ports touch at least 25 of the 1024 buckets |
| DetectorTheory.ScanExactlyWhen | engine/src/detection/anomaly.rs:249-270 | for such a decision, a reading raises a scan alert if and only if its source has had none in the window and its ports of the window touch at least 25 buckets |
| DetectorTheory.ScanNeedsManyPorts | engine/src/detection/anomaly.rs:249-270 | so a scan alert means at least 25 distinct destination ports of the source in the window, and is the source's first there |
| DetectorReports.ScanExactlyWhenIntervals | engine/src/detection/anomaly.rs:249-270 | of the sketch as it is built: a reading raises a scan alert if and only if its source has had none in the window and the hashes of its ports in the window lie in at least 25 intervals of 2^54 words |
| DetectorTheory.TwentyFivePortsMayPass | engine/src/detection/anomaly.rs:206-206 | 25 distinct ports of a source in one window that raise no scan alert, when the hash of ports is constant |
| DetectorWindows.RollsAreApart | engine/src/detection/anomaly.rs:213-221 | two rolls of the window are at least a window apart |
| DetectorWindows.RollsExactlyWhen | engine/src/detection/anomaly.rs:213-221 | the window rolls at a reading if and only if a whole window or more has passed between the clock reading that started the current one and this check |
| DetectorWindows.OneWindowIsShort | engine/src/detection/anomaly.rs:213-221 | so two readings counted in one window are counted less than a window apart |
| DetectorReports.WindowIsShort | engine/src/detection/anomaly.rs:213-221 | so what an alert counts was all counted within less than a window |
| DetectorWindows.ShortSpanCrossesOneRoll | engine/src/detection/anomaly.rs:213-221 | readings within less than a window cross at most one roll |
| DetectorWindows.HalfInOneWindow | engine/src/detection/anomaly.rs:213-221 | so of any 2m - 1 readings within less than a window, m fall in one window |
| DetectorWindows.FiftyInOneWindow | engine/src/detection/anomaly.rs:213-247 | any 99 SYNs of one source within less than a window put 50 of them in one window |
| DetectorWindows.NinetyNineSynsAlert | engine/src/detection/anomaly.rs:213-247 | so that source gets its flood alert, in one of the windows of the span |
| DetectorWindows.NinetyEightMayPass | engine/src/detection/anomaly.rs:213-247 | 98 need not: a run of 98 SYNs of one source within less than a window that raises no flood alert, for any decision that catches floods and any window of at least two ticks |
| DetectorWindows.FortyNineBucketsAlert | engine/src/detection/anomaly.rs:213-270 | any readings of one source within less than a window whose ports hash to 49 different buckets raise its scan alert, in one of the windows of the span |
| DetectorWindows.FortyEightMayPass | engine/src/detection/anomaly.rs:213-270 | 48 need not: for any 48 ports in different buckets, a run of one source within less than a window that raises no scan alert |
| Detector.PortSketches.Count | engine/src/detection/anomaly.rs:249-253 | the source's sketch, made on its first event, counts the port; every other source's sketch stays as it is |
| Detector.PortSketches.Estimate | engine/src/detection/anomaly.rs:254-254 | the answer is the estimator on the buckets that the source's set of ports determines |
| Detector.WindowedAnomalyDetector.constructor | engine/src/detection/anomaly.rs:199-211 | a new detector knows nothing, and numbers its alerts from 1 |
| Detector.WindowedAnomalyDetector.MaybeRollWindow | engine/src/detection/anomaly.rs:213-221 | if the window has elapsed the detector forgets everything and starts a window at the second reading of the clock, else nothing changes |
| Detector.WindowedAnomalyDetector.Observe | engine/src/detection/anomaly.rs:223-273 | over the real sketches, an event changes what the detector knows as the exact specification says, and its alerts are the flood alert and then the scan alert that are due, numbered on |
| Detector.FloodComesFirst | engine/src/detection/anomaly.rs:228-273 | if both alerts of a reading are due, the flood alert, critical, comes first and the scan alert, high, has the next number; both carry the event's time and addresses |
| Worker.DetectionWorker.Handle | engine/src/pipeline.rs:120-128 | a worker's detectors turn an event into the signature, anomaly and sequence alerts in that order, each detector keeping its own state and numbers |
| WorkerRuns.KnownAfter | engine/src/pipeline.rs:110-112 | after any run a worker's anomaly detector knows what the detector alone would know of it |
| WorkerRuns.CompletedAreTheEngines | engine/src/pipeline.rs:126-128 | a worker's sequence alerts, over any run, are those of one engine fed the same observations |
| WorkerRuns.FoundAreTheDetectors | engine/src/pipeline.rs:123-125 | each reading's anomaly alerts are those the detector alone decides on over the run |
| WorkerRuns.FoundNumbers | engine/src/detection/anomaly.rs:234-237 | the k-th alert of an anomaly detector has number 1 + k modulo 2^64 |
| QueueCalls.StepOfPush | engine/src/pipeline.rs:85-94 | one step of the producer's push, to its caller: accepted means there was room and the event is now last, refused means full, otherwise the call goes on and the queue's contents stay |
| QueueCalls.StepOfPop | engine/src/pipeline.rs:117-132 | one step of a worker's pop, to its caller: an event means it was first and is gone, `None` means empty |
| PipelineInvariant.WorkOk | engine/src/pipeline.rs:115-133 | every step of a worker, each detector and each record being a step of its own, keeps: accepted = popped + queued, popped = what each detector was run on + in hand, raised = recorded + being recorded, what the detectors know and raised as each alone would, and the clock's order |
| PipelineRuns.RunOk | engine/src/pipeline.rs:77-134 | every reachable state of the whole pipeline, with 64-bit queues as with unbounded ones, satisfies the invariant |
| PipelineTheory.Conservation | engine/src/pipeline.rs:77-134 | in every reachable state offered = refused + accepted + one push at most under way, accepted = queued + popped, popped = counted + at most one per worker, and the three counters are, modulo 2^64, the events counted, the refusals counted, and the alerts stored with those counted and about to be |
| PipelineTheory.CountersAddUp | engine/src/pipeline.rs:25-29 | below 2^64 events, offered = `events_processed` + `events_dropped` + queued + in the hands of workers or of the producer |
| PipelineTheory.SourceInOrderOnOneWorker | engine/src/pipeline.rs:83-96 | each source's processed events are an in-order prefix of its accepted ones, which are its offered ones less the refused, and no other worker has any of them |
| PipelineTheory.QueuesAreViews | engine/src/pipeline.rs:53-56 | in every reachable state each worker's queue, on 64 bits, is the wrapped state of the unbounded machine after the moves made on it, which are those of one producer and one consumer and a run of the atomic bounded FIFO |
| PipelineTheory.DroppedExactlyWhenFull | engine/src/pipeline.rs:85-94 | an event is dropped only when its worker's queue is full, and accepted only when it is not, and then goes to its end |
| PipelineAlerts.WorkersRaise | engine/src/pipeline.rs:115-128 | what the signature detector found in each event was raised, what a worker's anomaly detector and sequence matcher raised is what each alone raises on what it was run on, and what was recorded is what was raised, in order, less what is being recorded |
| PipelineAlerts.SignaturesAreRaised | engine/src/pipeline.rs:120-122 | what the signature detector finds in an event, under its own name, is raised as it is |
| PipelineAlerts.ShardedIsUnsharded | engine/src/pipeline.rs:98-112 | for every source the workers raise, numbering aside, the sequence alerts that one engine raises that is fed the source's events at the same times, alone or among any others; other workers raise none for it |
| PipelineAlerts.SequenceIsReported | engine/src/pipeline.rs:98-128 | every scenario of one source among the events its worker processed makes that worker raise the rule's alert, after its first event and no later than its last, for any routing |
| PipelineAlerts.SequenceReportsAreSound | engine/src/pipeline.rs:98-128 | and every sequence alert of a worker ends a full chain of the alert's source within the window |
| PipelineAlerts.FloodIsReported | engine/src/pipeline.rs:98-125 | any 99 SYNs of one source that its worker processes within less than a window make that worker raise a flood alert for it, for any routing and any decision that catches floods |
| PipelineAlerts.ScanIsReported | engine/src/pipeline.rs:98-125 | any readings of one source that its worker processes within less than a window, and whose ports hash to 49 different buckets, make that worker raise a scan alert for it |
| PipelineAlerts.ReportsAreBacked | engine/src/pipeline.rs:115-128 | every alert a worker raises says which detector raised it; an anomaly alert is a flood alert with at least 50 SYNs, or a scan alert with at least 25 ports of its source, in its window on that worker, and a sequence alert is one of the sequence matcher's |
| EngineTheory.EngineReportsFloods | engine/src/pipeline.rs:77-134 | the engine as wired: any 99 events of one source with SYN and not ACK that its worker, the key of the address modulo the workers, processes within less than a window make it raise "syn-flood-anomaly", critical, with the source, and the time and destination of the event it is raised at |
| EngineTheory.EngineReportsScans | engine/src/pipeline.rs:77-134 | and any readings within less than a window whose ports hash to 49 different intervals of 2^54 words make it raise "port-scan-anomaly", high |
| EngineTheory.EngineReportsProbeThenExploit | engine/src/pipeline.rs:77-134 | and an event with SYN and not ACK that the source follows with a payload that has the word at most five seconds later makes it raise "probe-then-exploit-attempt", critical |
| EngineTheory.EngineAnomaliesAreSound | engine/src/pipeline.rs:77-134 | every anomaly alert has behind it, within less than a window on its worker, 50 SYNs that share its source's column in each row, or 25 intervals of its source's ports, and the fields of the event it is raised at |
| EngineTheory.EngineSequencesAreSound | engine/src/pipeline.rs:77-134 | every sequence alert has behind it a probe and a payload that has the word, of its source, in that order and at most five seconds apart |
| EngineTheory.EngineNumbersItsAlerts | engine/src/pipeline.rs:109-113 | each worker numbers its anomaly alerts 1, 2, 3 and so on modulo 2^64, and its sequence alerts likewise |
| EngineTheory.SourcesKeepToTheirWorker | engine/src/pipeline.rs:83-84 | a worker's detectors see only sources whose key modulo the number of workers is the worker's own |
| PipelineAlerts.StoreHoldsLatest | engine/src/pipeline.rs:64-71 | in every reachable state the store holds the latest 5000 of the alerts ever added to it, in order, and `alerts_fired` is ahead of their number by at most one per worker |
| PipelineAlerts.LogHasWhatWasRaised | engine/src/pipeline.rs:64-71 | what each worker added is what it raised, in order, less what it still holds |
| Pipeline.EngineConfig | engine/src/pipeline.rs:83-84 | routing by the key of the source address sends every source to one of the workers, whatever their number, and 64-bit queues of an allowed capacity are sound |

## Left out

- Weak memory: atomic accesses are sequentially consistent steps; the Acquire, Release and Relaxed orderings are not modelled.
- RingQueue.RingQueue.constructor: says of a ring of one slot only what its fields are, since it is no FIFO; the machine itself has capacity 1, and `QueueSafety.SoundExactlyFromTwoSlots` is about it.
- RingQueue.RingQueue.Push: is one thread's execution; the branch that reloads the counter after another thread moved it is shown not to be taken there, and is covered by the machine in `MpmcQueue`.
- RingQueue.RingQueue.Pop: is one thread's execution likewise.
- QueueSafety.PushRefusedExactlyWhen, QueueSafety.PopRefusedExactlyWhen, QueueSafety.AloneRefusalsAreExact: over unbounded counters; the two `Queue64` rows on refusals are for 64 bits, where the probing thread must not have slept for half a word (`QueueStale.StalePushIsRefused`).
- QueueProgress.RetriesBoundedByOthers, QueueProgress.RetryIsPaid, QueueProgress.SoloPushMakesOnePass, QueueProgress.SoloPopMakesOnePass: over unbounded counters; on 64 bits they hold of the runs that `QueueWrap.RunsAgreeExactlyWhen` describes, all those of `Queue64.ShortRunsAgree` among them.
- QueueWrap.StepsAgree: is for a thread that lags as little as `QueueWrap.RunsAgree` asks; `QueueWrap.StepAgreesExactlyWhen` has the exact condition.
- QueueWrap.RunsAgree: needs each moving thread's loaded position to lag by less than half a word less the capacity; `QueueWrap.RunsAgreeExactlyWhen` has the exact condition for any run, and `QueueStale.StalePushIsRefused` a run that fails it.
- QueueFifoWrap.WrappingRunsAreFifoRuns: is for capacities below 2^63; a queue of 2^63 slots fits no 64-bit address space.
- Word size and build: 64-bit words and the wrapping arithmetic of a release build; a debug build would panic on overflow.
- Signature detection (`engine/src/detection/signature.rs`): its alerts, numbers included, are arbitrary inputs of a worker's step, since the pattern automaton is not part of this repository.
- The listing of the stored alerts.
- Alert text (`detail`) and the dotted form of addresses.
- Hashes: FxHash and the per-row seeds are any function of key and row; nothing is said about error rates.
- Floating point: the estimator is over the reals and `ln` is any function within the stated bounds, so rounding at exactly 25.0 is not modelled.
- HyperLogLog.HyperLogLog.constructor: bucket bits from 1 to 63, the range in which the source's shifts are defined and the table can have two buckets; buckets are naturals rather than `u8`, and ranks stay below 66.
- CountMin.CountMinSketch.constructor: a table with rows has columns; with rows and no columns the source's hash divides by zero.
- Payload search is for the six bytes of the word, which lossy decoding neither makes nor breaks.
- `flow_key`, the traffic simulator, the HTTP interface, the dashboard, the analysis scripts and the kernel filter.
- A bound on memory per source in the sequence matcher: expiry happens only when the source is seen again, so none is promised.
- Sleeps and thread start-up: they are the scheduler's choice of which thread moves next.
