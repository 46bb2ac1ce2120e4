# Kubexa agent: verified models of its stateful cores

The agent streams a Kubernetes cluster's telemetry to a gateway and runs operations on the gateway's behalf. This project
models the parts of it whose correctness spans many operations, and proves what they promise for all inputs and all runs:

- the durable two-tier queue: byte-bounded memory in front of a segmented write-ahead log (WAL), with in-flight items, acks,
  hand-backs, compaction and crash recovery (`Bytes`, `WalCodec`, `Wal`, `WalReader`, `SpillDisk`, `WalLog`, `DiskStore`,
  `DiskAccounting`, `DiskFaults`, `Queue*`, `BufferedQueue`);
- the drain of that queue into a session, interleaved with acks and sweeps (`Flight`, `Drain`, `DrainBounds`,
  `DrainOrder`, `DrainLoop`, `TurnOrder`);
- console output replayed across stream cuts (`Ring`, `Console`, `ConsoleSession`);
- the node drain job (`NodeDrain`), the metrics mirrors of query rules (`QueryRules`), the per-stream token bucket
  (`Limiter`), capped log lines and their joining (`Utf8`, `LineReader`, `Joiner`), and managed config sets
  (`ManagedConfig`, `ManagedState`).

How the queue is put together. `QueueModel` gives each operation as a function on values; `BufferedQueue` and `DiskStore` are
classes with the agent's fields, and their methods are proved equal to those functions, down to the bytes of the files. Every
disk call consults an arbitrary outcome, so a failing write, read or removal is covered everywhere; `DiskFaults` and
`QueueFlows` say when one failed, and `QueueAdmission`, `QueueSettling`, `QueueHandback` and `QueueDelivery` what each
operation achieves when none did. A ledger beside the state records what was accepted, acked, dropped, written and charged;
it steers nothing. `QueueSteps` breaks each operation into steps with at most one disk write, so that a crash anywhere inside
an operation is one of the states between steps, and `QueueStepProofs` shows that each keeps the invariant from which
`QueueLaws` reads off the promises. A history is any sequence of operations and starts, each completed or cut by a crash
after any of its steps; `QueueCrashes` says what survives them.

What turned out narrower than the comments in the code, each with its exact condition proved:

- An item whose payload passes the writer's limit but whose record body passes 16 MiB is lost at the next start, with every
  later record of its segment (`QueueLimits.OversizedHidesTheRest`, `QueueLimits.RecoveredIffFits`). Histories therefore
  enqueue items that fit.
- Handing an item back to memory reverses the items behind it (`QueueLimits.FrontKeepsOrderIff`); order is proved for items
  that came from disk.
- Without a disk tier the Enqueue loop never ends by itself for an item larger than memory (`QueueLimits.EnqueueEndsIff`).
- Segment headers written at rotation are missing from the byte counter until the next recount. The directory therefore
  outgrows the cap by the headers missing at the last item, which a recount does not undo (`DiskAccounting.AccountingLaw`,
  `DiskAccounting.RecountHidesOvershoot`).
- An uncharged hand-back does retire an item, exactly one that came with more than six attempts and was never charged
  (`QueueLaws.AttemptsLaw`, `QueueLaws.UntriedRetires`).
- Frames go out in order exactly on tty consoles (`Console.TtyLaw`).
- Mirroring reads verbs by case folding and the policy by lower-casing. `QueryRules.MirrorLaw` gives the exact condition under
  which the rule that answers the object LIST is the source of the mirror that answers the metrics LIST; a verb spelt with a
  dotted capital I passes the validation and breaks it (`QueryRules.DottedVerbWidens`), and without that letter it holds
  outright (`QueryRules.NeverWidens`).
- Bucket eviction can be noticed, and the window bound passed, once the burst takes more than ten minutes to earn
  (`TokenBuckets.EvictionLaw`, `TokenBuckets.WindowIff`).

Assumed of the outside: item ids are fresh; an append is written whole or not at all, except that a torn last record is
covered at recovery; a context that has ended stays ended; the gateway resumes a console from
the last number it saw; the hash is injective. Times, contexts, API answers, sends,
verdicts on payloads, hook results and disk outcomes are parameters, arbitrary unless said otherwise. Sorting by an unstable
sort is any order the comparison allows, and map iteration is any order.

## Model

| member | source | states |
|---|---|---|
| `WalCodec.ItemRoundTrip` | internal/queue/disk.go:678-739 | Decoding an encoded item gives it back, up to the 64-bit clock and 32-bit attempts the format keeps. |
| `WalCodec.CanonicalIff` | internal/queue/disk.go:678-701 | An item survives the format unchanged exactly when its clock is an int64 of nanoseconds and its attempts fit 32 bits. |
| `WalCodec.AckRoundTrip` | internal/queue/disk.go:799-808 | Decoding an ack body gives back its id. |
| `WalCodec.HeaderRoundTrip` | internal/queue/disk.go:764-797 | The streaming header reader gets id, clock and attempts of any encoded item, whatever follows it. |
| `WalCodec.HeaderAgreesWithDecode` | internal/queue/disk.go:703-797 | On arbitrary bytes the streaming reader accepts exactly the bodies the whole-body decoder accepts with nothing left over and an id within the limit, and reports the same header. |
| `WalCodec.UnreadableBand` | internal/queue/disk.go:678-701 | A body refused only for its length comes from an item between the writer's 16 MiB payload limit and the readers' 16 MiB body limit. |
| `WalCodec.EncodeItemRecord` | internal/queue/disk.go:678-701 | Filling the buffer field by field yields the specified body; an item the writer refuses has no encoding. |
| `Wal.ReadBack` | internal/queue/disk.go:302-325 | Reading at the offset a record was appended at gives its item; it fails exactly for an ack record or an over-long body. |
| `Wal.ReplayVisits` | internal/queue/disk.go:568-676 | A replay visits each whole record at exactly the offset it was appended at. |
| `Wal.ReplayTorn` | internal/queue/disk.go:568-676 | A record cut short at the end of a file is not seen at all, wherever the cut is. |
| `Wal.ReplayIsFold` | internal/queue/disk.go:568-676 | Replaying a file of readable records, whole or torn in its last append at any byte, is visiting the whole records in order. |
| `Wal.UnreadableHidesTheRest` | internal/queue/disk.go:587-615 | One over-long record hides itself and every later record of its segment, acks included. |
| `WalReader.ReadItemHeader` | internal/queue/disk.go:764-797 | The streaming loop over the reader returns what the specification reads, and leaves the reader right after the record. |
| `WalReader.ReplaySegment` | internal/queue/disk.go:568-676 | The byte loop fills the pending and acked maps exactly as the specified replay of the file's bytes. |
| `SpillDisk.RecoverIsReplay` | internal/queue/disk.go:525-566 | For a directory of readable records, parsing its files in number order equals visiting its records. |
| `WalLog.ReplayLocates` | internal/queue/disk.go:568-644 | Every reference a replay returns names an item record by its segment and offset. |
| `WalLog.AcksFollowAppend` | internal/queue/queue.go:633-652 | Every ack record stays at or after its item's segment through any append that does not re-write an acked item. |
| `WalLog.PrefixIsSelfContained` | internal/queue/queue.go:633-674 | The lowest segment left never holds an ack or an item that reaches outside it. |
| `WalLog.RemoveIsInvisible` | internal/queue/queue.go:633-674 | Deleting a self-contained segment takes from recovery exactly the references into it. |
| `WalLog.HoleResurrects` | internal/queue/queue.go:633-652 | Deleting a segment from the middle brings back every older item whose only ack it held. |
| `DiskStores.DiskStore.constructor` | internal/queue/disk.go:77-101 | Opening a directory gives the specified store: newest file or the next number, and an exact byte count. |
| `DiskStores.OpenLatest` | internal/queue/disk.go:103-124 | The newest file is reopened when it has room, else a new one is created after it. |
| `DiskStores.DiskStore.CreateSegment` | internal/queue/disk.go:126-163 | A new segment file with just its header becomes the active one; a failed create changes nothing. |
| `DiskStores.DiskStore.AppendRecord` | internal/queue/disk.go:233-295 | Appending to the byte files equals appending to the record log, with its rotation, its refusals and the place it returns. |
| `DiskStores.DiskStore.AppendItem` | internal/queue/disk.go:213-219 | An item append is the specified one, or refused by the codec, the cap or a failed write. |
| `DiskStores.DiskStore.AppendAck` | internal/queue/disk.go:222-228 | An ack append is the specified one and is never refused for space. |
| `DiskStores.DiskStore.ReadItem` | internal/queue/disk.go:302-325 | Reading a place in a file equals reading the record log there. |
| `DiskStores.DiskStore.RemoveSegment` | internal/queue/disk.go:386-450 | Removal deletes exactly the named, inactive segment and recounts; a failed one leaves the files. |
| `DiskStores.DiskStore.Recover` | internal/queue/disk.go:525-566 | Recovery over the files returns exactly the pending references of the replay, each once, oldest clock first. |
| `DiskStores.DiskStore.SeedCursor` | internal/queue/queue.go:290-307 | The compaction cursor starts at or below the active segment, every file present and every recovered reference. |
| `DiskStores.DiskStore.Close` | internal/queue/disk.go:810-828 | Closing refuses later writes and leaves the files. |
| `DiskAccounting.AccountingStep` | internal/queue/disk.go:126-163 | Every store call keeps the byte accounting exact: real bytes against the counter plus the headers since the last recount, and the overshoot bound. |
| `DiskAccounting.AccountingLaw` | internal/queue/disk.go:240-295 | After every sequence of store calls the files hold at most totalBytes plus 5 bytes per rotation since the last recount. They outgrow the cap by at most the ack bytes since the last item plus the headers the counter lacked at that item or gained since, which are those since the last recount as long as none came after the item. The next record is refused for space exactly when it is an item that would pass the cap, and an item let in leaves the counter within it. |
| `DiskAccounting.RecountHidesOvershoot` | internal/queue/disk.go:386-428 | A directory and two calls after which the files are past the cap, the acks since the last item and the headers since the last recount together. |
| `DiskFaults.AppendLaw` | internal/queue/disk.go:233-295 | A record is written exactly when the store is open with an active file, an item's record fits under the cap and no open or write fails; it is then the last of the active segment, and of a new segment exactly when the old one would outgrow its limit. |
| `BufferedQueues.BufferedQueue.constructor` | internal/queue/queue.go:216-334 | Starting over a directory adopts the recovered references up to the cap, and counts and acks the rest. |
| `BufferedQueues.BufferedQueue.Enqueue` | internal/queue/queue.go:386-457 | One pass of Enqueue equals its specification: stamp, room by eviction, straight spill of an oversized item, refusals and waiting. |
| `BufferedQueues.BufferedQueue.PutMemory` | internal/queue/queue.go:486-499 | Memory, byte and item counters and the ledger grow by exactly the item. |
| `BufferedQueues.BufferedQueue.MakeMemoryRoom` | internal/queue/queue.go:501-508 | Evicts oldest first until the item fits or memory is empty; stops at a failed eviction. |
| `BufferedQueues.BufferedQueue.EvictOldest` | internal/queue/queue.go:510-544 | The oldest memory item is spilled, or dropped without a disk tier, or put back when the spill fails. |
| `BufferedQueues.BufferedQueue.Spill` | internal/queue/queue.go:551-571 | A written item is kept as a reference with its claim counted; a failed write keeps nothing. |
| `BufferedQueues.BufferedQueue.AddDiskRef` | internal/queue/queue.go:597-601 | The reference goes to the end and its segment's claim grows by one. |
| `BufferedQueues.BufferedQueue.ReleaseDiskRef` | internal/queue/queue.go:612-631 | The segment's claim shrinks by one, a zero claim goes, and an underflow is counted. |
| `BufferedQueues.BufferedQueue.Compact` | internal/queue/queue.go:654-674 | Spent lowest segments are deleted one by one up to the active segment or a failed removal. |
| `BufferedQueues.BufferedQueue.DropOldest` | internal/queue/queue.go:713-729 | The oldest memory item, else the oldest reference with its settling ack, is dropped and counted. |
| `BufferedQueues.BufferedQueue.SettleDroppedRef` | internal/queue/queue.go:739-751 | A dropped reference's ack is written, or the item is remembered as stale. |
| `BufferedQueues.BufferedQueue.DropItem` | internal/queue/queue.go:757-767 | The drop is counted and recorded. |
| `BufferedQueues.BufferedQueue.PullRef` | internal/queue/queue.go:866-948 | The head reference is read; a matching item goes to hand, an unreadable one is released, settled and counted, a closed store stops the loop. |
| `BufferedQueues.BufferedQueue.DequeueOne` | internal/queue/queue.go:866-904 | References first, skipping unreadable ones, then memory. |
| `BufferedQueues.BufferedQueue.DequeueBatch` | internal/queue/queue.go:770-858 | One pass equals its specification: pull up to n, compact, register everything pulled in flight. |
| `BufferedQueues.BufferedQueue.AckId` | internal/queue/queue.go:951-1005 | A disk entry leaves flight only once its ack is written; a memory entry at once. |
| `BufferedQueues.BufferedQueue.Ack` | internal/queue/queue.go:951-1005 | Acks in order up to the first failed write, then compacts in either case; a closed queue refuses. |
| `BufferedQueues.BufferedQueue.Nack` | internal/queue/queue.go:1178-1280 | Hand-back equals its specification: charge or not, retire past the cap, references to the front in order, items to memory, disk or the drop count. |
| `BufferedQueues.BufferedQueue.TakeBackId` | internal/queue/queue.go:1178-1240 | One entry leaves flight, charged by the kind, retired past the cap, else kept in hand with its attempts. |
| `BufferedQueues.BufferedQueue.RetireInflight` | internal/queue/queue.go:1289-1317 | A retired entry releases and settles its reference and counts as dropped, or as delivered-unrecorded. |
| `BufferedQueues.BufferedQueue.EnqueueFront` | internal/queue/queue.go:1360-1387 | With room for one more it cannot fail: the item is first, and the rest follows reversed. |
| `BufferedQueues.BufferedQueue.Drop` | internal/queue/queue.go:1328-1358 | Each id in flight is retired as dropped, then spent segments go. |
| `BufferedQueues.BufferedQueue.SweepInflight` | internal/queue/queue.go:1045-1080 | Exactly the entries in flight since before the deadline, or all without one, are handed back with the given kind. |
| `BufferedQueues.BufferedQueue.Close` | internal/queue/queue.go:1457-1511 | Memory is flushed oldest first up to a failed write, the store closed, and the queue refuses from then on. |
| `QueueStepProofs.StepKeeps` | internal/queue/queue.go:510-1387 | Every single step of any operation, each with at most one disk write, keeps the whole invariant. |
| `QueueTheorems.DoGood` | internal/queue/queue.go:386-1511 | Every operation, a start included, under any disk outcomes keeps the invariant and is a run of single steps, so a crash inside it lands on one of their states. |
| `QueueTheorems.StartGood` | internal/queue/queue.go:216-334 | Starting over whatever a crash left gives a queue with the invariant, for any order of the found references and any failing settling writes. |
| `QueueTheorems.EventGood` | internal/queue/queue.go:216-334 | An operation that completes, one that a crash cuts after any of its own steps, and a start after a crash, completed or cut again, all leave the invariant. |
| `QueueTheorems.HistoryGood` | internal/queue/queue.go:216-1511 | The invariant holds after every history of operations, closes and restarts with crashes inside any of them, one crashed start after another included. |
| `QueueTheorems.HistoryStore` | internal/queue/queue.go:216-1511 | A queue with a spill directory has one after every such history. |
| `QueueLaws.RecoveryLaw` | internal/queue/disk.go:525-676 | Recovery returns every live disk item at its place, no item with a written ack, and besides the live ones only given-up items whose settling ack failed. |
| `QueueLaws.LiveReadable` | internal/queue/queue.go:915-948 | Every live reference reads back an item with its id. |
| `QueueLaws.CompactionLaw` | internal/queue/queue.go:654-674 | Compaction takes from recovery exactly the references below the new cursor, none of them live, and leaves its answer unchanged exactly when no stale record was in a deleted segment. |
| `QueueLaws.DeletedIsDead` | internal/queue/queue.go:654-674 | No live reference is below the cursor or in the segment about to be deleted, and none beyond the active one. |
| `QueueLaws.ClaimsLaw` | internal/queue/queue.go:597-631 | Each segment's claim count is its queued references plus those in a dequeue's hand plus those in flight, and no release ever underflows. |
| `QueueLaws.ClaimCapLaw` | internal/queue/queue.go:585-601 | Live references never exceed the reference cap plus the peak in flight. |
| `QueueLaws.ConservationLaw` | internal/queue/queue.go:477-767 | Accepted plus recovered items equal acked, dropped, delivered-unrecorded, lost at close, depth and in flight; the memory counters match memory exactly. |
| `QueueLaws.AttemptsLaw` | internal/queue/queue.go:1147-1240 | Whatever attempts an item came with or was recovered with, a hand-back retires it exactly when those and its charges so far pass six, and else returns it with that count; an uncharged hand-back retires exactly the items that came with more and were never charged. |
| `QueueLaws.SeventhCharge` | internal/queue/queue.go:1147-1240 | An item that came with a attempts, at most six, is retired exactly at its charge number 7 - a, and never by an uncharged hand-back. |
| `QueueLaws.UntriedRetires` | internal/queue/queue.go:1175-1240 | An item enqueued with seven attempts is dropped by the first untried or session-end hand-back. |
| `QueueAdmission.LeastSpill` | internal/queue/queue.go:501-508 | There is a least number of oldest memory items whose going makes room for an arrival. |
| `QueueAdmission.MakeRoomLaw` | internal/queue/queue.go:501-544 | Making room spills exactly that many, in order, or fails only for want of slots or bytes or for a failed write. |
| `QueueAdmission.EnqueueLaw` | internal/queue/queue.go:386-441 | Over a disk tier, unless a write fails, an arrival is accepted exactly when what it displaces, itself included when larger than memory, fits the slots and the byte cap. It displaces the least number of oldest items and goes behind the rest. It waits only larger than memory, with memory spilled empty and the disk unable to take it, and fails only for a failed write or when what it displaces does not fit. |
| `QueueAdmission.MemoryOnlyLaw` | internal/queue/queue.go:443-455 | Without a disk tier the oldest item makes way, counted, exactly when there is no room, and the arrival is accepted exactly when it then fits. |
| `QueueAdmission.CloseLaw` | internal/queue/queue.go:1457-1511 | A close leaves the memory items as the last references, in order, as far as the slots go, counts the rest as dropped and loses none; it fails only when their records do not fit or a write fails. |
| `QueueSettling.AckLaw` | internal/queue/queue.go:951-1005 | An ack takes a first part of its ids out of flight, those from disk durably, and nothing else changes. It reports an error exactly when a part is left, and only because the write for the next, a disk item, failed. |
| `QueueSettling.DropLaw` | internal/queue/queue.go:1328-1358 | A drop counts exactly the named items in flight as dropped, those from disk durably unless a write failed, and touches nothing queued. |
| `QueueSettling.StartSettles` | internal/queue/queue.go:260-334 | Unless a write fails, every reference a start drops past the cap has its ack written. |
| `QueueSettling.CompactDone` | internal/queue/queue.go:654-674 | Compaction goes on until the lowest segment is claimed or being written, or a removal failed. |
| `QueueHandback.NackLaw` | internal/queue/queue.go:1178-1280 | Every id handed back that is in flight meets one end. Out of attempts it is retired, durably unless a write failed. A reference goes to the front, charged, in the order named. A memory item goes back to memory, charged, if it fits; else it becomes the last reference; it is dropped only without a disk tier, a slot, the bytes, or for a failed write. The outcome is an error exactly when one was dropped over a disk tier. |
| `QueueHandback.NackOneItem` | internal/queue/queue.go:1178-1280 | A memory item with attempts left handed back alone is at the front of memory with its charge if it fits there, else the last reference, else dropped for one of those causes. |
| `QueueHandback.NackAttempts` | internal/queue/queue.go:1147-1280 | Over a whole hand-back an item is retired if the attempts it came with and its charges pass six, and otherwise kept with exactly that count, but for a memory item without a place. |
| `QueueDelivery.DequeueEntries` | internal/queue/queue.go:770-858 | Every item handed out is in flight from then on: a memory item whole, one from disk as its reference with the same attempts; what was in flight stays. |
| `QueueDelivery.PullRefLoses` | internal/queue/queue.go:866-948 | The oldest reference is skipped exactly when reading it fails, and then dropped and settled. |
| `QueueDelivery.DequeueLoses` | internal/queue/queue.go:866-948 | A dequeue drops something only when a read fails, and acks it unless a write fails too. |
| `QueueDelivery.DequeueMemory` | internal/queue/queue.go:770-904 | With nothing on disk, closed or not, a dequeue hands out the oldest items of memory, all of them up to n; with none it parks, or reports a closed queue drained. |
| `QueueCrashes.StepLasts` | internal/queue/queue.go:510-1387 | No step makes recovery forget a reference or move it, unless its ack was written or its segment deleted, nor return anything that was not accepted. |
| `QueueCrashes.RunLasts` | internal/queue/queue.go:386-1511 | The same over every run of steps within one life of the process. |
| `QueueCrashes.StartTakesUp` | internal/queue/queue.go:216-334 | A completed start queues the references it found at their places, in order and up to the cap, and drops and counts exactly the rest. |
| `QueueCrashes.CutStart` | internal/queue/queue.go:260-334 | Wherever a crash cuts a start, recovery returns what it returned before the start, each at its place, less exactly the references past the cap whose acks the start had written. |
| `QueueCrashes.CrashAnywhere` | internal/queue/disk.go:525-566 | After any history, wherever a crash cuts the next operation's own run of steps, recovery is exact: every live item, no acked one, besides them only given-up ones; and where it cuts a start, exact in the sense of CutStart. |
| `QueueCrashes.RestartsTakeUp` | internal/queue/queue.go:216-334 | However many starts crash one after another, the one that completes queues everything recovery returned before the first, or drops and counts it with the cap full, but for what a crashed one had dropped past the cap and acked. |
| `QueueCrashes.Survival` | internal/queue/queue.go:216-1511 | After any history, whatever is live at a running queue or where a crash cut it is taken up by the next start that completes, in that sense. |
| `QueueFifo.EvictContents` | internal/queue/queue.go:510-544 | Eviction leaves the sequence disk-then-memory unchanged. |
| `QueueFifo.EnqueueContents` | internal/queue/queue.go:386-441 | An accepted item goes to the end of that sequence; a waiting one changes nothing. |
| `QueueFifo.SpillStraight` | internal/queue/queue.go:407-441 | An item too large for memory is appended to the sequence by going straight to disk. |
| `QueueFifo.DequeueContents` | internal/queue/queue.go:770-904 | A dequeue, wherever its context ends, returns exactly the front of the sequence and leaves the rest; with looks to spare it returns n items or all there are. |
| `QueueFifo.FifoLaw` | internal/queue/queue.go:386-904 | Over any run of enqueues, dequeues, acks and drops without failed spills or failed reads, contexts ending anywhere, the queue is a plain FIFO: what was there and arrived is, in order, what was handed out and remains. |
| `QueueThinning.DequeueThins` | internal/queue/queue.go:770-948 | With any reads failing, a dequeue returns the front of the sequence in order without the records it could not read, all of them dropped, and leaves the rest; with looks to spare it goes past them until it has n items or nothing is left. |
| `QueueThinning.ThinningLaw` | internal/queue/queue.go:386-948 | The FIFO law with any reads failing: what was handed out and remains is, in order, what was there and arrived, less only dropped items. |
| `QueueLimits.OversizedHidesTheRest` | internal/queue/disk.go:602-615 | Writing an item the readers refuse loses it and every later record of its segment at the next recovery. |
| `QueueLimits.RecoveredIffFits` | internal/queue/disk.go:678-701 | A freshly written item comes back after a restart exactly when its body is within the readers' limit. |
| `QueueLimits.FrontKeepsOrderIff` | internal/queue/queue.go:1360-1387 | Handing an item back to memory keeps the items behind it in order exactly when there is at most one of them; it always keeps the multiset. |
| `QueueLimits.EnqueueEndsIff` | internal/queue/queue.go:443-455 | Without a disk tier the Enqueue loop ever accepts the item exactly when it fits in an empty memory. |
| `Flight.AckFlight` | internal/queue/queue.go:951-1005 | A recorded ack takes all its ids out of flight; no ack puts any in. |
| `Flight.NackFlight` | internal/queue/queue.go:1178-1280 | A hand-back takes exactly its ids out of flight, whatever becomes of them. |
| `Flight.DequeueFlight` | internal/queue/queue.go:770-858 | A dequeue puts exactly the items it returns in flight, at most n, and moves the peak only to that count. |
| `Flight.OthersShrinkFlight` | internal/queue/queue.go:386-1511 | No other operation puts anything in flight or moves its peak, and none reopens a closed queue. |
| `Drain.SettlementOwes` | internal/stream/manager.go:1735-1828 | Sent, terminal, failed and untried ids together cover the batch, wherever a send failed. |
| `Drain.SettleStepFlies` | internal/stream/manager.go:1887-1969 | Each settlement call takes what it settles out of flight, or the queue is closed. |
| `Drain.NextSafe` | internal/stream/manager.go:1713-1852 | Every event of the drain, the ack worker, the sweeps, enqueuers or Close keeps: nothing in flight but what is still owed and, under delivery acks, what was sent. |
| `Drain.NoStranding` | internal/stream/manager.go:1166-1211 | Over every run of sessions under any interleaving: without delivery acks nothing is in flight between batches or after the loop; with them only sent items; nothing after the session-end sweep; unless the queue is closed. |
| `Drain.EnvelopeLaw` | internal/stream/manager.go:1656-1722 | Right after each dequeue under delivery acks at most twice that turn's batch size is in flight, for any acks, sweeps and batch-size changes. |
| `DrainBounds.DrainCapLaw` | internal/stream/manager.go:1656-1722 | Over every run of sessions until the queue closes, live WAL references stay within the reference cap plus twice the largest batch, or plus the peak the run began with. |
| `DrainLoop.SettleAcks` | internal/stream/manager.go:1887-1923 | Two attempts at the acks, then delivered nacks and drops: none of the ids is in flight afterwards unless the queue is closed. |
| `DrainLoop.SettleNacks` | internal/stream/manager.go:1929-1960 | Hands back the ids with the kind given, and nothing for no ids. |
| `DrainLoop.SettleDrops` | internal/stream/manager.go:1964-1969 | Drops the ids, and does nothing for none. |
| `DrainLoop.SettleFailure` | internal/stream/manager.go:1765-1808 | Untried ids back first and uncharged, then the failed one charged, then the acks. |
| `DrainLoop.DrainBatch` | internal/stream/manager.go:1735-1852 | The walk over a batch stops at the first failed send and is settled as the protocol says. |
| `DrainLoop.DrainTurn` | internal/stream/manager.go:1723-1852 | One turn of the loop over the queue object equals the protocol's pull, walk and settlement run alone; the loop goes on exactly when it should, an empty pull included. |
| `DrainLoop.TurnLaw` | internal/stream/manager.go:1713-1852 | Such a turn from nothing in flight leaves nothing in flight without delivery acks, only sent items with them, however it ended. |
| `DrainLoop.EndSession` | internal/stream/manager.go:1166-1211 | Under delivery acks the session end hands back exactly everything in flight, uncharged. |
| `DrainOrder.NackCharges` | internal/queue/queue.go:1147-1215 | A hand-back charges one attempt to exactly the ids it names that are in flight, when its kind charges at all. |
| `DrainOrder.NackRefs` | internal/queue/queue.go:1147-1240 | Handing back disk-sourced items puts those with attempts to spare at the front in the order named, charged by the kind, and drops exactly the others. |
| `DrainOrder.FailureCharges` | internal/stream/manager.go:1765-1792 | After a failed send nobody but the failed item is charged. |
| `DrainOrder.FailureOrder` | internal/stream/manager.go:1777-1792 | The two hand-backs restore disk-sourced items in batch order, the failed one first and charged; exactly those out of attempts, the failed one by this charge included, are dropped. |
| `DrainOrder.PoisonLaw` | internal/stream/manager.go:1765-1792 | A batch taken from disk, however short its context cut it, whose k-th send fails goes back from k on in its original order ahead of the queue, one attempt charged to the k-th item and to nobody else; at its seventh charge the k-th is dropped and the rest goes back in order all the same. |
| `TurnOrder.AckingOrder` | internal/stream/manager.go:1887-1969 | Of the sent items the settlement acks a first part, and all of them unless a write failed; if the acks cannot be recorded the others go back to the front in their order, charged. |
| `TurnOrder.WalkStops` | internal/stream/manager.go:1735-1764 | The walk stops at the first failed send and nowhere else, with every undeliverable item before it noted as terminal. |
| `TurnOrder.BatchOrder` | internal/stream/manager.go:1735-1852 | Settling a batch of disk-sourced items in flight leaves, in this order: sent ones not acked, the failed one charged, the untried ones, the queue. Unless a write failed everything sent and everything undeliverable before the failed send is acked, and the loop goes on exactly when no send failed. |
| `TurnOrder.TurnOrderLaw` | internal/stream/manager.go:1713-1852 | The same over a whole turn from the dequeue on, with any ack writes failing; the loop goes on only with nothing failed and everything sent acked. |
| `Rings.RetainedUnique` | internal/exec/ring.go:30-45 | The longest suffix that fits, or the last frame alone, is determined. |
| `Rings.PushRetains` | internal/exec/ring.go:32-45 | Eviction after a push keeps exactly that suffix. |
| `Rings.Ring.Push` | internal/exec/ring.go:32-45 | The frame gets the next number and the ring holds exactly that suffix of all frames ever pushed, with its byte count. |
| `Rings.Ring.Since` | internal/exec/ring.go:50-65 | Returns all retained frames after the number, in order, and a gap exactly when a later frame was evicted. |
| `Rings.Ring.Last` | internal/exec/ring.go:68-72 | The number of the last frame pushed, 0 if none. |
| `ConsoleSessions.Session.Attach` | internal/exec/session.go:161-167 | Only marks a transport present. |
| `ConsoleSessions.Session.Detach` | internal/exec/session.go:172-187 | Marks it gone and retires the live channel in the same step. |
| `ConsoleSessions.Session.Replay` | internal/exec/session.go:139-145 | Returns the retained frames after the number and retires the live channel in the same step; the gap flag is exact. |
| `ConsoleSessions.Session.Begin` | internal/exec/session.go:371-377 | Under the lock the frame is numbered and kept, and the attachment and channel of that moment captured. |
| `ConsoleSessions.Session.Write` | internal/exec/session.go:359-386 | The bytes are cut into nonempty frames of at most 32 KiB whose concatenation is the input, or a prefix of it when the session ended. What the object holds afterwards is what the writes of those frames make of it, each sent, let go or given up as its select met, and the call fails exactly when the session ended on a live turn. |
| `ConsoleSessions.Session.Select` | internal/exec/session.go:375-382 | With room the frame is the last of the captured channel; a retired channel or an ended session leaves every channel as it was. |
| `ConsoleSessions.WriteLaw` | internal/exec/session.go:359-386 | A write keeps its frames in order, numbered on. While attached, the live channel grows by exactly the frames whose turn met room, in order, and else by none; every other channel is unchanged. |
| `ConsoleSessions.TurnRuns` | internal/exec/session.go:371-382 | A turn of the writer, with any events of others between its locked step and its send, is a run of the protocol: a push, then a delivery, a let-go or a giving-up. |
| `ConsoleSessions.WriteRuns` | internal/exec/session.go:359-386 | A whole write is such a run and ends in the shared state the object has, so the protocol's laws are laws of this writer. |
| `Console.StepKeeps` | internal/exec/session.go:134-187 | Every step of writers, transport, gateway or session end keeps: sent, to be replayed, queued and in the writer's hand are one run of frames up to the last. |
| `Console.AttachmentLaw` | internal/exec/attach.go:213-283 | In every run of a tty console what goes out on an attachment is consecutive frames from right after the resume number, or from the oldest retained with the gap reported. |
| `Console.ReplayLaw` | internal/exec/attach.go:213-283 | What the gateway takes over all attachments is, in order and exactly once, every frame up to the last it saw but for reported gaps; without gaps, the very beginning of the output. |
| `Console.CaughtUp` | internal/exec/session.go:359-386 | A drained live attachment has delivered everything up to the last frame produced. |
| `Console.TtyLaw` | internal/exec/session.go:290-299 | All runs send consecutive numbers exactly when the console has a tty. |
| `Console.TwoWritersSwap` | internal/exec/session.go:371-382 | Without a tty two frames pushed one after the other may go out swapped. |
| `NodeDrain.Classify` | internal/nodeops/classify.go:48-73 | Every pod gets its row in order, and the two blocking lists are exactly the rows with those reasons. |
| `NodeDrain.TableLaw` | internal/nodeops/classify.go:40-73 | A table leaves alone exactly the mirror pods, DaemonSet pods and the agent's own. Its drain is refused exactly if some other pod, neither terminating nor finished, has no controller or mounts an emptyDir and the flag for that is missing. |
| `NodeDrain.CountersPartition` | internal/nodeops/engine.go:255-279 | Evicted, skipped, pending and failed counts add up to the table. |
| `NodeDrain.DrainJob.Report` | internal/nodeops/engine.go:255-279 | An event carries the table and its exact counters. |
| `NodeDrain.DrainJob.EndEarly` | internal/nodeops/drain.go:191-213 | A cancelled context ends the job cancelled, a deadline ends it failed with a timeout. |
| `NodeDrain.DrainJob.TryEvict` | internal/nodeops/drain.go:109-133 | One eviction call: its row becomes exactly what the answer and the context say, other rows stay, forbidden ends the job, and a blocked pod gets its next time. |
| `NodeDrain.DrainJob.Refusal` | internal/nodeops/drain.go:109-133 | An eviction that did not go through sets its own row and retry time only: blocked by a budget, gone, refused by the API, or left alone when forbidden. |
| `NodeDrain.DrainJob.Watch` | internal/nodeops/drain.go:134-150 | An evicting row is gone exactly when a listing no longer shows its uid, at once in a dry run. |
| `NodeDrain.DrainJob.Visit` | internal/nodeops/drain.go:95-151 | A row that is due, PENDING, or BLOCKED outside a dry run with its time come, is asked about exactly once and becomes what the answer says; any other is only watched. No other row and no other pod's time changes. |
| `NodeDrain.DrainJob.Pass` | internal/nodeops/drain.go:95-151 | A walk visits a first part of the table, all of it unless the context ended or a call was forbidden. In that part exactly the due rows have one eviction call each and became what it answered, where no earlier row had the same namespace and name; an EVICTING row was judged by the listing if there was one. Under a living context no row is PENDING afterwards, in either mode. |
| `NodeDrain.NonePending` | internal/nodeops/drain.go:95-151 | A walk over the whole table under a living context with nothing forbidden leaves no row PENDING. |
| `NodeDrain.DrainJob.Relist` | internal/nodeops/drain.go:66-93 | A listing is taken exactly when something is evicting outside a dry run; a forbidden one ends the job with the RBAC code, an ended context ends it, other errors wait; ending it has that cause. |
| `NodeDrain.DrainJob.Remaining` | internal/nodeops/drain.go:155-169 | Nothing remains exactly when every row is final, or BLOCKED in a dry run; a failed row is noticed. |
| `NodeDrain.DrainJob.Tally` | internal/nodeops/drain.go:152-186 | Under a living context the job goes on exactly while a row is left to wait for, which a dry run never has; else it fails exactly if a row is FAILED and succeeds otherwise. |
| `NodeDrain.DrainJob.FirstTable` | internal/nodeops/drain.go:26-43 | The classified table, refused exactly when a pod needs a missing flag, with the code for force as soon as any pod needs that. |
| `NodeDrain.DrainJob.Cordon` | internal/nodeops/cordon.go:17-34 | The node is read, and one patch is sent exactly when it was schedulable; the error is that of the call that failed. |
| `NodeDrain.DrainJob.Turn` | internal/nodeops/drain.go:64-181 | One turn ends the job with a cause or, outside a dry run only, goes on before the deadline with no row PENDING; success means the table is cleared. |
| `NodeDrain.DrainJob.Evictions` | internal/nodeops/drain.go:63-186 | The loop ends; it writes nothing but evictions; success means every row GONE or SKIPPED, or BLOCKED in a dry run, which makes one pass at most; a failure has a FAILED row, a forbidden call or the deadline as its cause. |
| `NodeDrain.DrainJob.CordonAndEvict` | internal/nodeops/drain.go:44-186 | The first write is the cordon patch exactly if the node was read as schedulable; a failed cordon ends the job before any eviction; the node counts as cordoned exactly when the cordon of a real run did not fail. |
| `NodeDrain.DrainJob.Preflight` | internal/nodeops/drain.go:26-43 | Before any write: there is no table exactly when the node or the list answer failed; with a table the job stops exactly when a pod needs a missing flag. |
| `NodeDrain.DrainJob.Run` | internal/nodeops/drain.go:21-186 | For every pod set and all API answers: with the pods listed, REFUSED exactly when one of them is in danger, and then nothing was written; mirror, DaemonSet and the agent's own pods are never evicted; GONE, SKIPPED and FAILED rows never change; a row is GONE only on a call this job made, the eviction of that very row answered NotFound or a listing that no longer shows it; success means every listed pod but those left alone is GONE; a failure has a failed row, a forbidden call, a failed cordon or the deadline as its cause, a cancellation a cancelled context; the node is cordoned exactly when the patch of a real run went through or was not needed; a dry run sends only dry writes and one pass. |
| `QueryRules.First` | internal/query/policy/policy.go:181-222 | The rule that answers a LIST is the first that matches resource, namespace and verb. |
| `QueryRules.MetricsUsageRules` | pkg/config/query.go:236-291 | The loop with its two blocking flags yields exactly the mirrors of the rules that may be mirrored, in order. |
| `QueryRules.EffectiveRules` | pkg/config/query.go:304-326 | The effective list is the owner's or the inherited rules, their mirrors, and namespace discovery unless already targeted. |
| `QueryRules.MirrorsSound` | pkg/config/query.go:236-291 | Every mirror comes from a rule that may be mirrored, with its namespace, names and labels, in source order. |
| `QueryRules.MirrorsComplete` | pkg/config/query.go:236-291 | Every such rule has its mirror. |
| `QueryRules.MirrorAnswers` | internal/query/policy/policy.go:307-392 | A mirror answers a metrics LIST of its own kind exactly where its source's namespace reaches, and no object LIST. |
| `QueryRules.MirrorLaw` | pkg/config/query.go:236-326 | When a mirror answers a metrics LIST in a namespace it has its source's namespace, names and label selector and no field selector; the rule answering the object LIST there is exactly that source if and only if the policy reads the source's verbs as listing and no earlier rule answering there is one only the policy reads so. |
| `QueryRules.AnsweringMirror` | pkg/config/query.go:236-291 | A mirror that answers comes from a rule that may be mirrored and covers the namespace. |
| `QueryRules.MirrorIff` | pkg/config/query.go:208-291 | For rules that pass the validation, a mirror answers exactly when no owner rule answers the metrics LIST itself and some owner rule that lists the object there has no field selector, of its own or of an earlier rule for the resource. |
| `QueryRules.DiscoveryIsApart` | pkg/config/query.go:110-121 | The discovery rule answers neither pods nor nodes, nor their metrics. |
| `QueryRules.ReadingsDifferIff` | pkg/config/query.go:157-167 | The mirroring's and the policy's readings of a verb as list differ exactly on two letters. |
| `QueryRules.ValidListing` | pkg/config/query.go:387-393 | Among rules that pass the validation, every rule the mirroring reads as listing the policy reads so too. |
| `QueryRules.NeverWidens` | pkg/config/query.go:236-326 | For rules that pass the validation and hold no dotted capital I, the rule answering the object LIST is always the source of the mirror answering the metrics LIST. |
| `QueryRules.PolicyReadsMore` | internal/query/policy/policy.go:137-149 | For any verbs only the policy reads as list there are rules for which a mirror answers beside a field-selected object rule. |
| `QueryRules.DottedVerbWidens` | internal/query/policy/policy.go:85-149 | A verb that passes the validation and does this: list spelt with a dotted capital I. |
| `TokenBuckets.Limiter.Allow` | internal/ingestrules/limiter.go:45-79 | Equals the specification: no rule admits, a full map admits untracked, else refill, cap and spend. |
| `TokenBuckets.Limiter.Evict` | internal/ingestrules/limiter.go:82-93 | Deletes exactly the buckets unused since before the instant. |
| `TokenBuckets.AfterSane` | internal/ingestrules/limiter.go:45-93 | Every operation keeps all tokens between zero and the burst. |
| `TokenBuckets.WindowLaw` | internal/ingestrules/limiter.go:45-79 | From any reached state a metered stream admits in any window at most burst plus rate times its length, and tokens stay in range, whatever is evicted meanwhile, provided its own bucket is evicted only where the burst is earned within the bucket's lifetime. |
| `TokenBuckets.WindowIff` | internal/collector/logs/collector.go:276-293 | Without that proviso the bound holds of every window exactly when the burst is at most rate times the bucket's lifetime. |
| `TokenBuckets.LevelAdmits` | internal/ingestrules/limiter.go:45-79 | A metered stream is admitted n bytes exactly when its level at that time is at least n. |
| `TokenBuckets.AdmitIff` | internal/ingestrules/limiter.go:45-79 | After any run, a request that keeps every window ending now within the burst and what the window earns is admitted; and exactly such a request, unless an early eviction refilled the stream. |
| `TokenBuckets.EvictionLaw` | internal/collector/logs/collector.go:276-293 | Over all runs within the cap eviction changes no answer exactly when the burst is at most rate times the bucket's lifetime. |
| `Utf8.TrimToRune` | internal/collector/logs/linereader.go:86-101 | A cut line loses bytes from its end until it ends well; an uncut one is untouched. |
| `Utf8.WholeEndsWell` | internal/collector/logs/linereader.go:86-101 | A string ending in a whole character of section 4 of RFC 3629 is not trimmed. |
| `Utf8.CutEndsBadly` | internal/collector/logs/linereader.go:86-101 | A string ending inside such a character is. |
| `Utf8.TrimLaw` | internal/collector/logs/linereader.go:79-101 | Valid UTF-8 cut anywhere is trimmed to exactly the whole characters that fit. |
| `LineReaders.LineReader.ReadLine` | internal/collector/logs/linereader.go:33-77 | However the bytes are pieced, the result is the stream's next line, cut at the limit, and what remains is the rest after its newline. |
| `LineReaders.ReadAll` | internal/collector/logs/linereader.go:33-77 | Repeated reads give the lines of the stream, the same for every piecing. |
| `LineReaders.PiecesJoin` | internal/collector/logs/linereader.go:31-77 | The pieces between newlines hold no newline and join back to the stream. |
| `LineReaders.LinesArePieces` | internal/collector/logs/linereader.go:33-77 | The lines are those pieces cut at the limit, all of them but an empty last one or one lost to a broken stream. |
| `LineReaders.CutLaw` | internal/collector/logs/linereader.go:44-57 | A line is truncated exactly when longer than the limit; truncated valid UTF-8 is the whole characters that fit. |
| `Joiners.Joiner.Add` | internal/collector/logs/joiner.go:32-57 | Extends the pending record or closes it, by hold time, JSON, continuation and size. |
| `Joiners.Joiner.Flush` | internal/collector/logs/joiner.go:60-75 | Returns the pending record once. |
| `Joiners.Groups` | internal/collector/logs/joiner.go:32-87 | What comes out of any run is its lines in order, cut into groups of one record each. A line is in the group of those before it, or starts the next, exactly by the group's age, its first line being JSON, the line being a continuation and the joined size: no neighbours could have been joined. |
| `Joiners.OpensIff` | internal/collector/logs/joiner.go:32-57 | The joiner starts a new record exactly when the line does not belong to the lines it holds, the held record being JSON exactly when its first line is. |
| `Joiners.MergedIs` | internal/collector/logs/joiner.go:46-56 | A record's text is its lines joined by newlines, its parsed fields the first line's, truncated exactly when a part was. |
| `Joiners.JoinLaw` | internal/collector/logs/joiner.go:32-87 | Over any lines ended by a flush the outputs joined by newlines equal the inputs joined by newlines, each output one input line or within the size. |
| `ManagedConfig.SortedKeys` | internal/stream/manager.go:2308-2314 | The keys in strictly increasing byte order, whatever order the map gives them in. |
| `ManagedConfig.HashInput` | internal/stream/manager.go:2308-2323 | The bytes fed to the hash encode the map by its one sorted listing. |
| `ManagedConfig.EncodingInjective` | internal/stream/manager.go:2299-2323 | Those bytes tell any two maps without NUL in keys or bodies apart. |
| `ManagedConfig.EncodingUnique` | internal/stream/manager.go:2308-2323 | A map has one encoding. |
| `ManagedConfig.NulCollides` | internal/stream/manager.go:2299-2323 | With a NUL in a body two different maps can have one encoding. |
| `ManagedStates.ConfigHolder.ApplyManaged` | internal/stream/manager.go:2216-2297 | A nil or identical set changes nothing; else the set is stored whole, or only the error changes. |
| `ManagedStates.ConfigHolder.KeepRunning` | internal/stream/manager.go:2256-2268 | A refused set changes only the error. |
| `ManagedStates.ConfigHolder.Heartbeat` | internal/stream/manager.go:994-1007 | Revision, error, warnings and running config come from one state. |
| `ManagedStates.RetryLaw` | internal/stream/manager.go:2254-2289 | Over every run of sets, one that failed last is never taken for applied, not even if it failed with an empty message; everything but the error stays as it was. |
| `ManagedStates.ManagedLaw` | internal/stream/manager.go:2216-2297 | Over every run of sets, with a deterministic overlay and hook, what is stored is the last good set and the last set's error: skipping an identical set equals applying it again. |

## Left out

- Real files: fsync, directory listing errors, read-handle caching, file permissions. The disk is a sequence of segment files with atomic appends, failing appends without effect and removals that may fail.
- Blocking and wake-ups (condition variables, timers, context goroutines): an operation that would wait is one pass that reports it waits; what each pass achieves is proved, not that a woken one comes.
- Logging, Prometheus gauges, health reports and compaction-failure log throttling: they do not feed back into the state.
- gRPC streams, TLS, dialing, backoff and the session lifecycle around the drain: a session begins with nothing in flight and ends with the sweep.
- Which payloads the drain judges undeliverable (parsing, disabled collection, age limits): an arbitrary verdict per item.
- The conservation law after a close whose final flush hit a write error: the items that flush could not write are counted apart as lost.
- Console: stdin, resize, exit delivery and the resume watchdog; sequence numbers are unbounded where the code has 64 bits; after a writer gives up a frame at the session's end nothing is claimed about order.
- Node jobs: policy, the one-job slot, cordon and uncordon jobs, message texts, and the waits between turns.
- Query rules: the resource-name parser is a parameter that must read the names the agent writes itself; GET requests, name patterns and request validation are not modelled.
- DrainOrder.PoisonLaw: for a batch whose records can all be read, because an unreadable one is dropped at the dequeue and so is not in the batch; TurnOrder.BatchOrder has no such condition.
- TurnOrder.TurnOrderLaw: for such a batch, with nobody else at the queue during the turn.
- Token bucket: floating-point rounding, and streams admitted untracked past the cap of 20000, for which there is no bound by design.
- Log collection around the line reader: stream reconciliation, parsing, and the metrics of dropped lines.
- Managed config: the YAML overlay itself is one deterministic partial function in the run law and an arbitrary outcome in the single step; restart-required reporting is not modelled.
- ManagedStates.ManagedLaw: for keys and bodies without NUL, because NulCollides shows two sets can look alike otherwise.
