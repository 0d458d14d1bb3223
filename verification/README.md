# Durable benchmark service: model and proofs

This project models the logic around the Raft engines of a benchmark suite for durable
key-value services: the history checker, the replicated and journaled application, the client
retry protocol, the scheduling of the single owner thread, the application worker, and the
producers of measurement evidence together with the validators that must accept it. The Raft
libraries appear only as one totally ordered committed log.

`dafny verify dfyconfig.toml` checks everything. Each component is one module:

- `Kv` is the key-value state machine with session deduplication, and what any log of commands
  says about its answers. `Linearizability` says what a history means, and proves that orders
  found key by key combine into one global order; `Registers` says the same without replaying
  anything. `Checker` is the checker itself, with its memoized search, proved exact. `Layouts`
  says for which histories its verdict carries over to the deduplicating model.
- `Journal` is the byte format and its recovery, over any checksum and any codec that decodes
  what it encodes. `Durable` is the application behind the journal. `Disk` is a file with
  unsynced writes, `Media` what recovery needs of the byte format, `Standing` what a file stands
  for, and `Recovery` the application as a state machine over its file operations, in which the
  process can die at every point and the power can fail while it is down.
- `Retry` is the protocol of clients, nodes and the log, with late and duplicated requests, and
  `Progress` shows that it never gets stuck. `Hops` is one client operation with its retries.
- `Scheduling` is the owner's loop over a deferred queue and a channel. `ApplyWorker` is
  chunking and query fences. `Admission` is the actor's table of pending operations.
- `Histogram`, `Loadgen` and `Evidence` are the load generator's statistics under every
  interleaving, and their validator; `Realizable` says what its acceptance means. `Timelines` is
  the node's bounded operation timelines and their verifier, and `Histories` shows that what they
  tell is what happened. `Plan` is the rotated execution plan. `Counting` is what they share.

Some properties hold only under a condition, which the project states exactly.

- Acknowledged records survive the death of the process in every run. They survive a power loss
  exactly when each open finds the directory synced: `Journal::open` syncs it only for a file
  that it has just created, so a process that dies between the rename of a checkpoint (or the
  creation of the file) and the directory sync is followed by an open that acknowledges records
  in a file which a power loss can take away (`Recovery.OpenIsSafeExactly`,
  `Recovery.AcknowledgedRecordIsLost`, `Recovery.DeathAfterRename`).
- The checker accepts a client whose operation starts exactly when its previous one ends, since
  real-time precedence is strict while session order is not. Every accepted history of a layout
  replays through the deduplicating model exactly when such touching does not occur
  (`Layouts.SeparationIsExact`), and a linearization replays exactly when it keeps the sequences
  in order (`Checker.ReplaysExactly`).
- Abandoning an operation counts one however many it removes, so the timeline accounting survives
  exactly when identities in flight are unique (`Timelines.AbandonBalances`); the actor's pending
  table ensures that they are (`Admission.Actor.Status`).
- The validator names unreachable bins among its complaints but looks only at the highest one. A
  histogram that it accepts can have come from samples exactly when every populated bin can be
  reached (`Realizable.ValidatedExactly`, `Realizable.StrayCountIsAccepted`).
- The execution plan balances positions exactly when the run count is a multiple of the arm count
  (`Plan.BalancedExactly`).

## Model

| member | source | states |
|---|---|---|
| `Kv.Model.Apply` | crates/common/src/model.rs:121-168 | the two maps and the outcome after one command are those of `Step`, whose meaning the three laws below give without naming it |
| `Kv.LogLaw` | crates/common/src/model.rs:121-168 | in every log of supported commands, a fresh get answers the value of the last fresh put, or fresh cas answered as swapped, on its key before it (the initial value if none); a fresh cas answers swapped if and only if that value equals its expected one, leaving its own value then and the old one otherwise |
| `Kv.StoreHoldsLastWritten` | crates/common/src/model.rs:121-168 | after every log, each key holds what the last entry that changed it wrote |
| `Kv.RepeatLaw` | crates/common/src/model.rs:122-138 | an entry that is not fresh is stale if a later sequence of its client came before it; otherwise it answers what the same command answered, or a conflict for another command of that identity |
| `Kv.UnsupportedLaw` | crates/common/src/model.rs:153-156 | a command of an unknown kind never changes the state and is refused with `invalid_command` |
| `Kv.SessionsFollowLog` | crates/common/src/model.rs:121-168 | after any log, a session is open exactly for the clients in it, at a command of the log and at their greatest sequence |
| `Kv.FreshMeansAbsentOrNewer` | crates/common/src/model.rs:122-138 | the session test admits an entry exactly when its sequence exceeds every earlier one of that client in the log |
| `Kv.ErasureKeepsValues` | crates/common/src/model.rs:121-168 | exactly-once erasure: the values after any log equal a plain run of its fresh entries only |
| `Kv.ErasureKeepsAnswers` | crates/common/src/model.rs:121-168 | every fresh entry answers what the plain run of the erased log answers at that point |
| `Kv.SessionNeverRegresses` | crates/common/src/model.rs:121-168 | once applied, a command is never again ahead of its client's session |
| `Kv.CopyIsInvisible` | crates/common/src/model.rs:121-168 | a copy inserted anywhere after its original changes neither the final state nor any later answer, for every command, log and start state |
| `Registers.ExplainsMeans` | benchctl/checker.py:20-31 | an order explains a history if and only if every reply agrees with what the last operation before it that changed its key, by its own reply, left there |
| `Linearizability.SearchStep` | benchctl/checker.py:87-95 | one step of the search is exact: operations are orderable if and only if none remain, or some operation that nothing remaining precedes and whose reply matches leaves the others orderable |
| `Linearizability.Locality` | benchctl/checker.py:66-105 | the whole history has one total order extending strict real time and explaining every reply if and only if the operations of every key have one |
| `Checker.Screen` | benchctl/checker.py:43-57 | accepts exactly the histories of completed, well-formed operations with unique identities |
| `Checker.GroupBy` | benchctl/checker.py:39-57 | each group lists, in history order, exactly the positions with its label; labels are listed once |
| `Checker.SortSorts` | benchctl/checker.py:58-59 | the stable sort by start time keeps the members and orders them |
| `Checker.CheckStream` | benchctl/checker.py:58-62 | adjacent comparison after sorting decides whether every two operations of the stream are in session order |
| `Checker.CheckSessions` | benchctl/checker.py:58-64 | true exactly when every client runs one operation at a time with increasing sequences |
| `Checker.Search.MaskTest` | benchctl/checker.py:70-90 | the predecessor-mask test admits exactly the operations that no remaining operation precedes |
| `Checker.Search.Visit` | benchctl/checker.py:79-95 | the memoized search answers true if and only if the remaining operations have a legal order from the value that respects real time; no answer only at the resource limit |
| `Checker.Search.TryCandidates` | benchctl/checker.py:87-95 | the candidate loop returns the same exact answer and keeps the memo table sound |
| `Checker.CheckKey` | benchctl/checker.py:66-103 | one key is decided exactly, unless it exceeds 250 operations or the resource limit |
| `Checker.CheckKeys` | benchctl/checker.py:65-105 | "passed" implies a global linearization, "failed" implies that none exists |
| `Checker.CheckHistory` | benchctl/checker.py:34-105 | "passed" implies an admissible, globally linearizable history; "failed" implies that no linearization exists and names an unorderable key; "invalid" implies an inadmissible one; "inconclusive" on an admissible history only at a limit |
| `Checker.ReplaysExactly` | crates/common/src/model.rs:121-168 | a linearization replays through the deduplicating model with the observed outcomes if and only if it keeps every client's sequences in order |
| `Checker.SessionsHideNothing` | benchctl/checker.py:58-62 | strict separation of each client's operations makes every linearization replay through the deduplicating model |
| `Checker.TouchingSessionsAreNotReplayable` | benchctl/checker.py:61-74 | an accepted history in which one operation ends exactly when the client's next starts, of which no order replays through the deduplicating model |
| `Layouts.WitnessIsNotReplayable` | benchctl/checker.py:61-74 | for every layout with a touching pair, the history in which the second operation misses the first one's write replays in no order |
| `Layouts.SeparationIsExact` | benchctl/checker.py:58-74 | for fixed clients, sequences and intervals, every admissible linearizable history replays through the deduplicating model if and only if the operations of each client are strictly separated |
| `Journal.FrameIsRead` | crates/common/src/journal.rs:28-96 | a frame is read back as its record whatever follows it |
| `Journal.FrameLayout` | crates/common/src/journal.rs:109-116 | on disk a frame is the length, then the checksum, each highest byte first, then the payload |
| `Journal.FramesOpen` | crates/common/src/journal.rs:28-96 | frames of encoded records open to exactly those records |
| `Journal.RecoveryIsExact` | crates/common/src/journal.rs:46-82 | behind complete records, a tail is cut off without loss if and only if it is torn: a partial frame, an incomplete header or zeros to the end of the file |
| `Journal.PartialFrameIsTorn` | crates/common/src/journal.rs:46-69 | every strict prefix of a frame is a torn tail |
| `Journal.OpenLeavesFrames` | crates/common/src/journal.rs:28-96 | any successful open leaves a file that is exactly the frames of the records returned |
| `Journal.OpenIsIdempotent` | crates/common/src/journal.rs:28-96 | opening the file that an open left returns the same records and cuts nothing |
| `Journal.CorruptFrameIsRejected` | crates/common/src/journal.rs:70-74 | a complete frame with a wrong checksum is rejected wherever it stands |
| `Journal.ZeroFilled` | crates/common/src/journal.rs:229-240 | decides whether the rest of the file is all zeros |
| `Journal.Parse` | crates/common/src/journal.rs:42-78 | the loop computes the recursive reading of the bytes: records, valid length or rejection |
| `Journal.Journal.Open` | crates/common/src/journal.rs:28-96 | creates a missing file empty, returns the records read and truncates the file to its valid length, or refuses |
| `Journal.Journal.Append` | crates/common/src/journal.rs:97-129 | adds exactly one frame to the file of the path, and nothing when poisoned or when the payload does not fit |
| `Journal.Journal.Checkpoint` | crates/common/src/journal.rs:144-204 | success makes the path name one new file holding one frame; any failure after the start leaves the writer poisoned |
| `Durable.CheckedBatchReplays` | crates/common/src/model.rs:233-266 | a batch that passes the pre-check replays completely and ends at its last index |
| `Durable.CheckedExactly` | crates/common/src/model.rs:252-262 | the pre-check passes exactly the batches of valid commands that replay |
| `Durable.ReplayIsRun` | crates/common/src/model.rs:233-247 | replaying a batch gives the run of its commands over the state, the last metadata given and the last index |
| `Durable.AnswersAreOfLog` | crates/common/src/model.rs:233-247 | answer k of a replayed batch is what the log of its commands answers at the command of entry k, and none for an entry without one |
| `Durable.JournalIsLog` | crates/common/src/model.rs:191-247 | the state that a journal replays to is the run of the commands after its last snapshot from that snapshot (from nothing if there is none), with the last metadata and index given |
| `Durable.RestoreNeverRegresses` | crates/common/src/model.rs:212-232 | a restored snapshot never moves the index back, and at the same index changes nothing |
| `Durable.AcceptedNeverFails` | crates/common/src/model.rs:248-266 | after its pre-check no record can fail in replay, and the index moves strictly on |
| `Durable.SnapshotStandsForState` | crates/common/src/model.rs:212-232 | a journal holding only the snapshot of a state replays to that state |
| `Durable.DurableModel.Open` | crates/common/src/model.rs:191-211 | opening succeeds exactly when the file, created if missing, reads and replays; the state is then the run of the commands found after the last snapshot, from that snapshot |
| `Durable.DurableModel.ReplayJournal` | crates/common/src/model.rs:191-211 | replaying record by record succeeds exactly when the whole journal replays, and gives the state of its log |
| `Durable.DurableModel.Restore` | crates/common/src/model.rs:212-232 | refuses an invalid, older or conflicting snapshot and otherwise becomes it |
| `Durable.DurableModel.Replay` | crates/common/src/model.rs:233-247 | the model becomes the run of the batch's commands in order, and answer k is that of the log at the command of entry k |
| `Durable.DurableModel.PreCheck` | crates/common/src/model.rs:252-262 | true exactly when all commands are valid and indexes increase from the applied one |
| `Durable.DurableModel.Apply` | crates/common/src/model.rs:248-266 | applies exactly when the batch passes the pre-check and is journaled first: the model becomes the run of its commands, each answered as the log answers it, with one frame more on disk; otherwise state and files are unchanged |
| `Durable.DurableModel.InstallSnapshot` | crates/common/src/model.rs:327-348 | journals and becomes a snapshot that is ahead; the same snapshot is accepted without a write; everything else changes nothing |
| `Durable.DurableModel.EncodeSnapshot` | crates/common/src/model.rs:276-292 | labelled with the current index, the payload decodes, for a faithful codec, to a record whose replay alone gives the current state |
| `Durable.DurableModel.CheckpointSnapshot` | crates/common/src/model.rs:300-309 | replaces the journal only under the index-equality guard |
| `Durable.DurableModel.MaintainCheckpoint` | crates/common/src/model.rs:310-326 | leaves a journal within its bound alone; beyond it, checkpoints exactly under the index guard, with the files and the poisoned writer of each outcome |
| `Disk.CutReads` | crates/common/src/journal.rs:79-82 | a truncated file reads as the first bytes of what it was |
| `Disk.CutLast` | crates/common/src/journal.rs:79-82 | cutting off the last unsynced write removes it, and until the next sync it may come back |
| `Media.AppendRecovers` | crates/common/src/journal.rs:97-129 | a frame behind complete bytes adds its record to the state they read as |
| `Media.TornRecovers` | crates/common/src/journal.rs:46-82 | a torn tail leaves the state that complete bytes read as |
| `Media.CutRecovers` | crates/common/src/journal.rs:46-82 | what opening keeps reads the same, and what it cuts is a torn tail |
| `Media.CheckpointRecovers` | crates/common/src/journal.rs:144-204 | the frame of a snapshot, alone, reads as its state |
| `Media.JournalIsSound` | crates/common/src/journal.rs:28-129 | a journal with any checksum and any faithful codec has all that recovery relies on |
| `Standing.StandsReads` | crates/common/src/journal.rs:28-96 | a file with unsynced writes reads as the history it stands for |
| `Standing.StandsLeaves` | crates/common/src/journal.rs:54-69 | whatever a power loss leaves of a file stands for at least its synced records and at most all of them |
| `Standing.OpenStands` | crates/common/src/journal.rs:28-96 | opening leaves whole records, all of them synced if a tail was cut or nothing was unsynced |
| `Recovery.NextKeeps` | crates/common/src/model.rs:191-348 | every step of creating, opening, appending, acknowledging, checkpointing (each stage), failing, dying and losing power keeps the invariant, and the stronger one if opens are settled |
| `Recovery.RunIsSafe` | crates/common/src/model.rs:191-348 | the invariant holds in every state of every run, and the stronger one in every run whose opens are all settled |
| `Recovery.DeathRefinement` | crates/common/src/model.rs:191-266 | in every run and at every point, a process that dies leaves a journal that opens to exactly its state, plus at most the record in flight, entirely or not at all |
| `Recovery.LossRefinement` | crates/common/src/journal.rs:28-96 | in every run, whatever name and bytes survive a power loss stand for a part of the history and open to its state |
| `Recovery.CrashRefinement` | crates/common/src/model.rs:191-266 | in every run whose opens are settled, a death at any point and any power loss after it leave exactly the acknowledged records in order, plus at most the one in flight, entirely or not at all |
| `Recovery.CheckpointIsInvisible` | crates/common/src/journal.rs:144-204 | a death at any point of a checkpoint, or after it failed, recovers exactly the state before it in every run; and so does any power loss after it where opens are settled |
| `Recovery.NothingIsAcknowledgedElsewhere` | crates/common/src/journal.rs:97-204 | a record is acknowledged only by an unpoisoned writer in the file that the path names; where opens are settled, no other name can come back |
| `Recovery.PromisesAreKept` | crates/common/src/model.rs:248-266 | in every run whose opens are settled, what was acknowledged (or seen at an open) at any time is in every later history, and the file at the path recovers that history |
| `Recovery.OpenIsSafeExactly` | crates/common/src/journal.rs:28-41 | after settled opens, the next open is settled if and only if no continuation with settled opens ever loses anything promised |
| `Recovery.LostWithItsName` | crates/common/src/journal.rs:28-41 | an open while the directory is unsynced can always be followed by the loss of an acknowledged record |
| `Recovery.LostUnsynced` | crates/common/src/journal.rs:79-96 | an open over complete but unsynced frames can be followed by the loss of what it found |
| `Recovery.DeathAfterRename` | crates/common/src/journal.rs:183-190 | a process that dies between the rename of a checkpoint and the directory sync leaves the path unsettled |
| `Recovery.AcknowledgedRecordIsLost` | crates/common/src/journal.rs:28-41 | a run from the start that loses an acknowledged record: create, die before the directory sync, open, acknowledge, power loss |
| `Recovery.LabelIdentifiesState` | crates/common/src/model.rs:300-309 | in every run, the index-equality guard alone ensures that a checkpoint writes the current state |
| `Retry.CopiesAgree` | crates/common/src/model.rs:121-168 | every copy of a client's newest operation answers what its first copy answered |
| `Retry.NextKeeps` | loadgen/protocol.go:134-177 | every step (invoke, send, admit, commit, apply, node disturbance, receive, give up) keeps the protocol invariant |
| `Retry.RunIsSafe` | loadgen/protocol.go:134-177 | the protocol invariant holds in every state of every run |
| `Retry.ExecutesAtMostOnce` | crates/common/src/model.rs:121-168 | in every run, a second log entry with the same identity changes no state |
| `Retry.WaitingIsAnsweredProperly` | crates/common/src/actor.rs:702-720 | in every run, a reply to a still-waiting operation is its one answer, never a stale-sequence or identity-conflict error |
| `Retry.RunIsLinearizable` | loadgen/main.go:99-143 | in every run, the fresh entries of the log, each once, explain all replies by a plain run and respect real time, also with operations given up |
| `Retry.CompleteHistoryIsAccepted` | benchctl/checker.py:34-105 | a complete history of any run is admissible and linearizable in the checker's own sense |
| `Progress.WaitingCanFinish` | loadgen/protocol.go:134-177 | however a run has gone, an operation that still waits can be completed: the run has a continuation that ends with its proper answer in the history |
| `Hops.Client.Execute` | loadgen/protocol.go:134-177 | the reply is the first decisive one along the sequence of targets, or unknown after every attempt within the deadline was not; the leader is remembered exactly on a result; if a node leads, a client with a round of attempts gets its result within the round, and on the attempt after any reply that names it, and remembers it |
| `Hops.Client.Turn` | loadgen/protocol.go:165-170 | the next node in turn, wrapping around |
| `Hops.EveryNodeIsTried` | loadgen/protocol.go:159-170 | without redirections between them, as many consecutive attempts as there are nodes reach every node |
| `Hops.HintIsFollowed` | loadgen/protocol.go:159-164 | after a reply that names another known node as leader, the next attempt goes to that node |
| `Hops.LeaderIsReached` | loadgen/protocol.go:134-177 | a node that answers with results while the others name no other leader is reached within one round, whatever replies are lost |
| `Scheduling.Owner.PopReady` | crates/common/src/actor.rs:490-493 | takes the head of the deferred queue followed by the channel; nothing exactly when neither has a ready input |
| `Scheduling.Owner.Grow` | crates/common/src/actor/peer.rs:5-40 | a contiguous prefix of ready peer messages, as long as it can be: it ends only at the cap, at an input that may not join, or when nothing is ready; what stops it stays first |
| `Scheduling.Owner.FindPeer` | crates/common/src/actor.rs:523-554 | skips only execute requests, at most a batch of them, or restores the stream; a peer message that it reaches in the queue is found |
| `Scheduling.Owner.RestoreDeferred` | crates/common/src/actor.rs:609-613 | pushing to the front from the last input to the first puts them all back in their order, before what was there |
| `Scheduling.Owner.TakeReadyPeers` | crates/common/src/actor.rs:523-613 | no result leaves the stream unchanged; otherwise it splits as bypassed, peers, rest, with only execute requests bypassed and eligible peers, and bypassed then rest remain; an eligible peer message within reach in the queue must be taken |
| `Scheduling.Owner.CollectReadyClients` | crates/common/src/actor.rs:483-506 | collects in arrival order until a batch is full, nothing is ready or something else stands first; every collected request was overtaken at most once so far |
| `Scheduling.Owner.CollectOne` | crates/common/src/actor.rs:490-504 | one more ready client joins, or what stands there instead stays first |
| `Scheduling.Owner.OnClient` | crates/common/src/actor.rs:407-470 | a client turn proposes every request it admits: at its end the proposed requests and those still waiting to be admitted are all that will be, in arrival order |
| `Scheduling.Owner.Submit` | crates/common/src/actor.rs:412-468 | the commands in hand are proposed exactly once: before a combined peer batch, after a prioritized one, otherwise alone; an eligible peer batch within reach must go with them |
| `Scheduling.Owner.OnPeer` | crates/common/src/actor.rs:364-406 | a peer message is delivered with those behind it, and requests that share its step are proposed before the turn ends |
| `Scheduling.Owner.ProposeReady` | crates/common/src/actor.rs:388-406 | collects execute requests behind a peer batch until a batch is full or no more can be, and proposes exactly those |
| `Scheduling.Owner.Turn` | crates/common/src/actor.rs:317-474 | every turn keeps conservation, order, marks and bounds, proposes all it admitted, and takes an input whenever one can be received |
| `Scheduling.Owner.Run` | crates/common/src/actor.rs:317-474 | over every run: the requests proposed are exactly the admitted ones among those no longer waiting, each once and in arrival order; at most two peer batches, so at most twice the peer batch size of messages, overtake a proposed request; the deferred queue holds at most the batch size plus one; clients and peers are each kept in arrival order with nothing lost or duplicated |
| `Scheduling.BoundedOvertaking` | crates/common/src/actor.rs:407-470 | the bound on batches gives the bound on single messages |
| `Scheduling.DeliverKeeps` | crates/common/src/actor.rs:454-467 | delivering a lookahead batch keeps the invariant and costs each request in hand at most one more overtaking |
| `Scheduling.ProposeKeeps` | crates/common/src/actor.rs:467-470 | proposing the requests in hand keeps the invariant |
| `ApplyWorker.BytesAreWeight` | crates/common/src/apply_worker.rs:84-98 | the sizes that the worker adds up are 128 bytes for each entry plus every byte of client, kind, key, value and expected value; what is retained is twice that plus 64 KiB for each entry |
| `ApplyWorker.Chunk` | crates/common/src/apply_worker.rs:328-348 | the chunks concatenate to the input, each has 1 to 64 entries and weighs, summed over its strings, at most 256 KiB, and no legal partition has fewer |
| `ApplyWorker.CutGreedily` | crates/common/src/apply_worker.rs:331-347 | the greedy loop yields legal chunks, none of which could take the next entry |
| `ApplyWorker.CutOne` | crates/common/src/apply_worker.rs:333-344 | one step closes a full chunk and takes the entry, keeping every chunk legal and maximal |
| `ApplyWorker.MaximalIsFewest` | crates/common/src/apply_worker.rs:331-347 | chunks that stop only at a cap are no more than those of any legal partition |
| `ApplyWorker.ApplyWorker.TrySubmit` | crates/common/src/apply_worker.rs:270-352 | refuses exactly the submissions with a gap or with an entry that alone weighs more than 256 KiB, asks to wait exactly without capacity for entries or retained bytes, and otherwise hands over optimal chunks in order until one is not taken, using up exactly their capacity; the bookkeeping stays valid if and only if the last index covers the store and all fences |
| `ApplyWorker.ApplyWorker.Submit` | crates/common/src/apply_worker.rs:354-359 | the chunks are handed over in order, up to the first that the worker does not take; those taken use up their entries and retained bytes |
| `ApplyWorker.ApplyWorker.Query` | crates/common/src/apply_worker.rs:501-520 | a stopped worker fails the query, 16 waiting turn it away, otherwise it queues with the index accepted now; if the store can be locked, none that was durable is left waiting |
| `ApplyWorker.ApplyWorker.CompleteQueries` | crates/common/src/apply_worker.rs:522-563 | if the store can be locked, answers exactly the front of the queue whose fences were durable, each from the store as it then is, at or past its fence; otherwise nobody |
| `ApplyWorker.ApplyWorker.FailQueries` | crates/common/src/apply_worker.rs:565-582 | every waiting query gets one failure |
| `ApplyWorker.ApplyWorker.InstallSnapshot` | crates/common/src/apply_worker.rs:454-499 | installs only when idle with no query waiting; the store then holds the snapshot and all indexes agree; a snapshot that is invalid, behind, in conflict or not journaled leaves the worker stopped; an idle worker whose store can be locked has no query left |
| `ApplyWorker.ApplyWorker.Progress` | crates/common/src/apply_worker.rs:138-178 | the worker may apply, publish and free its queue at any moment without breaking the invariant |
| `ApplyWorker.RepliesFollowQueries` | crates/common/src/apply_worker.rs:501-582 | the i-th reply goes to the i-th queued query, no answer comes from a store before its fence, and the rest still wait in order |
| `Histogram.ClampMeans` | loadgen/histogram.go:17-25 | a sample is recorded as it is, except that zero counts as one and what does not fit into 63 bits as the greatest that does |
| `Histogram.IndexInRange` | loadgen/histogram.go:17-40 | every clamped sample has a bin inside the array, of nonzero exponent |
| `Histogram.BinHoldsSample` | loadgen/histogram.go:17-40 | the bin holds the sample, and its upper end exceeds it by less than a 64th |
| `Histogram.ComputedOffset` | loadgen/histogram.go:26-34 | the computed offset is the sample's and never reaches the cap |
| `Histogram.Recorder.Add` | loadgen/histogram.go:17-40 | the array of bins, count and maximum become the tally of one more clamped sample, as `Added` gives it |
| `Histogram.Recorder.Merge` | loadgen/histogram.go:41-49 | merging gives the tally of the concatenated samples, as `MergeOf` gives it |
| `Histogram.MergeTallies` | loadgen/histogram.go:41-49 | adding bins, counts and maxima equals tallying all samples together |
| `Histogram.RankBinIsSampleBin` | loadgen/histogram.go:58-61 | the running count first reaches a rank in the bin of the rank-th smallest sample |
| `Histogram.PercentileIsAccurate` | loadgen/histogram.go:50-79 | the reported percentile is at least the true rank-th sample, at most the maximum, and above it by less than a 64th of it |
| `Histogram.RankExists` | loadgen/histogram.go:50-58 | every rank from 1 to the count has a true sample |
| `Histogram.Recorder.Percentile` | loadgen/histogram.go:50-79 | zero without samples, accurate at every rank up to the count, the maximum beyond it |
| `Histogram.Recorder.Summarize` | loadgen/histogram.go:80-85 | the four percentiles, count and maximum of the histogram |
| `Evidence.ReplayPercentile` | benchctl/evidence.py:259-276 | the validator's walk answers exactly the ranks that the bins reach, with the same report |
| `Histogram.PercentilesCoincide` | benchctl/evidence.py:259-276 | the Go and the Python percentile at one rank are equal |
| `Histogram.SummaryIsUnique` | benchctl/evidence.py:279-288 | the two summaries of one histogram are equal |
| `Evidence.TallyPassesValidation` | benchctl/evidence.py:291-321 | every histogram of recorded samples passes the accounting checks |
| `Realizable.ValidatedExactly` | benchctl/evidence.py:291-321 | a histogram is that of some recorded samples, as many as expected, if and only if it passes the accounting checks and every populated bin is one that a sample can have |
| `Realizable.StrayCountIsAccepted` | benchctl/evidence.py:291-321 | a histogram with a count in a bin that no sample can have passes the accounting checks |
| `Loadgen.LatencyIncludesLateness` | loadgen/main.go:54-58 | the latency of an operation runs from its schedule: it is its lateness plus its execution time |
| `Loadgen.SecondHoldsEnd` | loadgen/main.go:59 | an operation is counted in the second that holds its end |
| `Loadgen.AfterAccounts` | loadgen/main.go:51-84 | recording keeps counters, histograms, the table of seconds and the events equal to an independent count and tally of the operations |
| `Loadgen.PlusAccounts` | loadgen/main.go:179-206 | merging two workers accounts for the operations of both, second by second |
| `Loadgen.ClassesPartition` | loadgen/main.go:63-80 | every operation is a success, unknown or an error, and those in the window are successes |
| `Loadgen.Stats.Record` | loadgen/main.go:51-84 | updates all counters, five histograms, the second in which the operation ended and the events, as `After` says |
| `Loadgen.Stats.CountSecond` | loadgen/main.go:59-80 | the second in which the operation ended counts it and keeps the greatest latency of its successes |
| `Loadgen.Stats.Absorb` | loadgen/main.go:181-206 | adds another worker's counters, histograms, seconds and events |
| `Loadgen.Stats.AbsorbSeconds` | loadgen/main.go:193-204 | tables of seconds are added key by key |
| `Loadgen.NextKeeps` | loadgen/main.go:91-173 | dispatching, dropping, closing, taking, finishing and stopping keep conservation, bounds and books |
| `Loadgen.RunIsSafe` | loadgen/main.go:91-173 | the invariant holds in every state of every interleaving |
| `Loadgen.RunCanEnd` | loadgen/main.go:91-173 | however dispatcher and workers have interleaved, the run has a continuation in which every worker has stopped |
| `Loadgen.AcceptedOnce` | loadgen/main.go:91-173 | when all workers have stopped, each accepted arrival was executed exactly once, and offered equals executed plus dropped |
| `Loadgen.MergeResults` | loadgen/main.go:179-206 | the merge loop gives the account of all workers' operations together |
| `Loadgen.AccountValidates` | benchctl/evidence.py:324-372 | the account of any operations satisfies the count equations and all histogram checks |
| `Loadgen.Conclude` | loadgen/main.go:172-235 | at the end of every run the accounting error is never reported and the result passes the validator; every figure is that of the operations: the three classes, network attempts, dropped arrivals, completions in the window (all successes when a capped run ends early), each histogram the tally of its own times, the table of seconds, the measured interval; and the operation cap held |
| `Loadgen.RunIsAccepted` | benchctl/evidence.py:324-372 | the validator reports no error on the result of any finished run |
| `Evidence.HighestBin` | benchctl/evidence.py:311 | the highest populated bin |
| `Evidence.HistogramErrors` | benchctl/evidence.py:291-321 | complains of nothing exactly when the accounting holds |
| `Evidence.ReplaySummary` | benchctl/evidence.py:279-288 | never fails on a histogram whose bins add up, and gives its summary |
| `Evidence.ValidateResult` | benchctl/evidence.py:324-372 | for every schema, reports no error exactly when the count equations, the contract, the rate, and each histogram of the schema with its summary hold |
| `Timelines.AdmitKeeps` | crates/common/src/diagnostics.rs:193-225 | admission keeps the sampling count, the lifecycle sum and unique sampled ordinals |
| `Timelines.ObserveKeeps` | crates/common/src/diagnostics.rs:242-256 | a commit mark keeps the bound by evicting the lowest |
| `Timelines.EvictTakesLowest` | crates/common/src/diagnostics.rs:251-255 | beyond the bound exactly the lowest marks go, each counted; all others keep their first time |
| `Timelines.DispatchKeeps` | crates/common/src/diagnostics.rs:257-280 | dispatch changes only stages and consumes marks |
| `Timelines.CompletedIsSound` | crates/common/src/diagnostics.rs:49-105 | a published timeline has all eight stages, starting at zero and in order |
| `Timelines.CompleteMeans` | crates/common/src/diagnostics.rs:49-105 | a timeline is published exactly for an operation with every stage present and in order; point k is the time from ingress to stage k, the last one the whole time to completion |
| `Timelines.RetainKeeps` | crates/common/src/diagnostics.rs:130-141 | the reservoir, whatever slot is drawn, keeps its size, unique ordinals and sound timelines |
| `Timelines.RetainTakes` | crates/common/src/diagnostics.rs:130-141 | the reservoir takes a timeline exactly while it has room or when the slot falls into it, and then loses one at most |
| `Timelines.FinishKeeps` | crates/common/src/diagnostics.rs:316-336 | completion moves one operation from flight to completed or discarded |
| `Timelines.AbandonKeeps` | crates/common/src/diagnostics.rs:363-375 | abandoning keeps the lifecycle sum when identities in flight are unique |
| `Timelines.AbandonBalances` | crates/common/src/diagnostics.rs:363-375 | the lifecycle sum survives abandoning if and only if at most one operation in flight has the identity |
| `Timelines.TwinsAreRejected` | crates/common/src/diagnostics.rs:363-375 | admitting one identity 65 times and abandoning it once is rejected by the verifier |
| `Timelines.RunKeeps` | crates/common/src/diagnostics.rs:193-375 | the invariant holds after every sequence of calls that admits an identity only while it is not in flight and dispatches commands at nonzero indexes |
| `Timelines.SortRises` | crates/common/src/diagnostics.rs:381-382 | the published timelines are the retained ones in rising order of ordinal |
| `Timelines.PublishedIsAccepted` | benchctl/timelines.py:47-107 | what is published after every such sequence of calls passes every check of the verifier |
| `Histories.SubmitPoint` | crates/common/src/diagnostics.rs:226-241 | a submission reaches exactly the operations it names, and only for the first time |
| `Histories.DispatchPoint` | crates/common/src/diagnostics.rs:257-280 | a dispatch places an operation at the first entry that carries it, unless it is already placed, with the mark found there |
| `Histories.MarkPoint` | crates/common/src/diagnostics.rs:287-309 | progress of the application reaches the first operation at each index that it names, for the first time, and no other |
| `Histories.FlightsTellTheTruth` | crates/common/src/diagnostics.rs:193-375 | after every disciplined sequence of calls, each stage of each operation in flight is the time of the call that set it: its own admission, its first submission, its first dispatch and index since then, an observed commit mark of that index, and progress told of that index |
| `Histories.TimelinesTellTheTruth` | crates/common/src/diagnostics.rs:49-375 | every retained timeline is the history of one operation, from the call that admitted it to the call that completed it |
| `Timelines.InvIsAccepted` | benchctl/timelines.py:47-107 | a node that keeps the invariant publishes a status that passes every check |
| `Timelines.Verify` | benchctl/timelines.py:47-107 | accepts exactly the statuses that satisfy the sampling, lifecycle, bound, retention, ordinal, index and stage conditions |
| `Timelines.Diagnostics.AdmitOperation` | crates/common/src/diagnostics.rs:193-225 | the new state is that of the call, and the invariant holds |
| `Timelines.Diagnostics.ProposalsSubmitted` | crates/common/src/diagnostics.rs:226-241 | marks the first submission of each matching operation in flight |
| `Timelines.Diagnostics.RaftCommitObserved` | crates/common/src/diagnostics.rs:242-256 | the first mark of an index stays; the lowest marks give way beyond the bound |
| `Timelines.Diagnostics.ApplicationDispatched` | crates/common/src/diagnostics.rs:257-280 | consumes the mark of each entry and places it on its operation once |
| `Timelines.Diagnostics.MarkApplication` | crates/common/src/diagnostics.rs:287-309 | marks the first start or durable time of the operation at each index |
| `Timelines.Diagnostics.ClientCompletedAt` | crates/common/src/diagnostics.rs:316-336 | removes the operation and retains or discards its timeline |
| `Timelines.Diagnostics.AbandonOperation` | crates/common/src/diagnostics.rs:363-375 | removes the operation and counts it |
| `Admission.Actor.Execute` | crates/common/src/actor.rs:702-720 | an identity enters the diagnostics only while it is vacant; the same command joins and another conflicts |
| `Admission.Actor.Resolve` | crates/common/src/actor/application.rs:213-272 | an applied command leaves the table; all who wait get its result, or a conflict if they wait for another command of its identity; its timeline is completed if some reply gets through and abandoned otherwise |
| `Admission.Actor.GiveUp` | crates/common/src/actor/application.rs:160-167 | exactly these operations leave the table and their timelines, each counted once as abandoned; nothing else changes |
| `Admission.Actor.Tick` | crates/common/src/actor.rs:337-350 | operations whose replies are all closed are given up, with their timelines; the others keep their open replies |
| `Admission.Actor.Install` | crates/common/src/actor/application.rs:148-169 | a snapshot gives up every pending operation, and no timeline is left in flight |
| `Admission.Actor.Follow` | crates/common/src/actor.rs:781-795 | the calls that follow operations through their stages leave the table valid |
| `Admission.Actor.Status` | benchctl/timelines.py:47-107 | whatever the node has done, the verifier accepts what it publishes |
| `Plan.RotationPlaces` | benchctl/suite_plan.py:19-20 | which repetitions put an arm at a place, exactly |
| `Plan.PlanHasEveryCase` | benchctl/suite_plan.py:42-105 | for each delay, each arm occurs in each repetition at each rate, and each diagnostic arm once at each diagnostic rate, as often as the suite lists them; no other case occurs |
| `Plan.EachCaseOnce` | benchctl/suite_plan.py:42-105 | where the suite lists no delay or rate twice, each of these cases is planned exactly once |
| `Plan.DelaysTally` | benchctl/suite_plan.py:42-105 | how often an arm has a position for a delay and a rate, exactly, for any number of runs |
| `Plan.HitsAre` | benchctl/suite_plan.py:19-20 | each remainder occurs once per whole cycle and perhaps once more |
| `Plan.WholeCyclesBalance` | benchctl/suite_plan.py:42-105 | with whole cycles every arm has every position once per cycle for each mention of the delay and rate |
| `Plan.BalancedExactly` | benchctl/suite_plan.py:42-105 | the timing plan is balanced if and only if the run count is a multiple of the arm count |
| `Plan.PlanLength` | benchctl/results.py:227-235 | the plan has exactly the independently computed number of cases |
| `Plan.ExecutionPlan` | benchctl/suite_plan.py:23-106 | refuses exactly the malformed suites; otherwise the cases are those of the nested loops, numbered 1 to n without gaps, as many as expected |

## Left out

- Text of JSON, CRC arithmetic: the journal takes an arbitrary checksum function and an arbitrary codec whose decoding inverts its encoding; a codec that maps two records to one text, such as an empty option and a null, is excluded by that assumption.
- Input and output errors: an append error ends the process and is modelled as its death; a checkpoint error is a failure at one of its stages.
- Power loss: what was done to a file since its last sync reaches storage in order, the last write perhaps in part or as zeros; mixtures of zeros and parts of a frame, which the code would refuse to open, are not among the outcomes.
- Files: the temporary file of a checkpoint is a new inode, and what is left of it after a failure is never named again.
- Raft engines, peer transport, the persistence fence of the pipelined driver: only a committed log and engine decisions given as functions.
- Scheduling.Owner.Run: the channel is the sequence of all future arrivals and readiness and admission are arbitrary functions of the receive and of the request, so all timings and decisions are covered; what is answered to a request that is not admitted is not modelled; an undecodable peer message ends the process and is not modelled.
- Retry.RunIsSafe: operations answered with an error status count as given up, overload replies as lost requests; leases, ticks and leader changes are arbitrary choices of which node admits a request.
- Hops.Client.Execute: connections, time limits per hop and sleeping are part of the network argument; the leader shared between workers is one field.
- Histogram.Recorder.Percentile: takes an integer rank instead of the rounded product of count and fraction; counters do not wrap at 64 bits.
- Loadgen.Conclude: rates per second and milliseconds, which divide these figures, and the sorted listing of the table of seconds.
- Loadgen.Stats.Record: histograms are values here, as they are embedded in the source; that the array form computes the same values is stated by `Histogram.Recorder.Add` and `Histogram.Recorder.Merge`.
- Evidence.ValidateResult: type checks of the parsed document are typed here.
- Timelines.Verify: shape checks of the parsed document are typed here; counters do not saturate; timing differences between snapshots and the metric histograms are not modelled; the reservoir slot is an arbitrary function.
- Timelines.Diagnostics.AdmitOperation: diagnostics are enabled and the ingress time is present; otherwise the calls do nothing.
- Admission.Actor.Execute: validation, leadership and capacity are checked before it and are not modelled; entries that carry a command have nonzero indexes, as the engines number them.
- ApplyWorker.ApplyWorker.TrySubmit: the library's own queue is the sequence of accepted entries and its free capacity two numbers; one character stands for one byte of a string; the duplicate-index check that diagnostics add is not modelled.
- Plan.ExecutionPlan: the derived options of a case (mode flags, names, seeds) are functions of what is modelled and are not spelled out; the number of fields of an arm is typed.
- Checker.CheckHistory: set membership stands for bit masks, the clock is an argument, and the recursion limit of the interpreter counts as the resource limit; the memo table never evicts.
- Load windows, comparisons, reports, rendering, host sampling, cluster control, builds, microbenchmarks and receipt checks.
