# Verification models of the chat-image services

Two services of the repository pass images on to a tagger. The *logger* receives chat events over a
reverse WebSocket, downloads each image, saves it once per content and hands a task to a NATS
stream through an outbox table. The *processor* takes tasks from the stream, finds the saved file
and feeds a durable file queue from which batches go to a tagging service. This project models
those two hand-offs and the algorithms between them, and proves that they keep their promises
whatever the network, the database, the broker, the tagger and the process's own crashes do.

`dafny verify dfyconfig.toml` checks everything. The modules, from the queue outwards:

| module | what it is about |
|---|---|
| `QueueProtocol` | the tagging queue as a machine over its two files and audit log: one step a file write, a crash between any two |
| `QueueRounds` | one run of the tagger as functions; picks left, bypass, termination measure |
| `TaggerQueue` | the code of the queue as an object; a ghost trace shows it walks through `QueueProtocol` |
| `BatchMatching` | the HTTP runner: matching a reply of any shape to the batch |
| `EndToEnd` | the way of one image from the logger's hand-off to the processor's queue |
| `WorkerProtocol`, `TaggerWorker` | deliveries, redeliveries and acknowledgements on top of the queue; the message handler |
| `OutboxProtocol`, `OutboxRelay`, `OutboxReach` | the outbox table with its two unguarded writers, as a machine and as code; what its runs can go on to do |
| `Contract` | building, encoding, decoding and replaying a task |
| `Naming` | the logger's file names and the worker's glob lookup |
| `ImageProtocol` | the image table beside the outbox as a machine: inserted, settled, handed off, with exceptions and crashes between any two writes |
| `ImagePipeline`, `Downloader` | the code of the logger's handling of one image: retries, refresh, content de-duplication, hand-off; a ghost trace shows it walks through `ImageProtocol` |
| `RefreshChain`, `PayloadSearch` | the chain of actions behind an expired URL, and the two explicit-stack searches it uses |
| `ActionProtocol`, `ActionChannel` | the action channel: calls, responses, time-outs, reconnects; the table of futures as code |
| `Common`, `Json` | option and result values, `strip`, JSON values |

Protocols are machines over values: `Enabled` and `Apply` give the steps, `Execution` the runs, and
the theorems speak about every state of every run. Code that updates state in place is a class whose
methods are proved against functions of the old state; where a protocol exists, the class also
carries a ghost trace of it, so a crash inside a method is one of the protocol's crashes.

Assumptions that stand for the environment: a file write replaces its file atomically
(processor_service/service/chat_image/tagger_pipeline.py:131-138); one tagger runner at a time;
`batch_size` and `max_attempts` are at least one
(processor_service/service/chat_image/config.py:211-215); the broker is a JetStream stream with an
unbounded de-duplication window; echoes never repeat; images are processed one at a time.

## What the code does that one might not expect

- A path can be queued several times: an enqueue looks at the queue file only
  (`QueueProtocol.DuplicatesOccur`). There is a bound on the copies, and
  `QueueProtocol.OvertakingExactly` names the one kind of enqueue that makes a second one possible.
- A comment promises that a saved image's hand-off is never lost
  (logger_service/service/napcat/pipeline.py:649-652). `ImageProtocol.SavedHandOffExactly` says for every saved
  image when that is so; there are three ways in which it is not. The hand-off may never begin: the update that
  saves the image seems to fail although it was stored, the audit line after it raises, or the process crashes
  before the insert (`ImageProtocol.SavedCanBeAbandoned`); the row says saved, so every later copy of the content
  becomes a duplicate, and nothing with this content is ever handed off (`ImageProtocol.AbandonedForGood`). Once
  it has begun, a failing insert does not stop the publish, and both can fail (`OutboxProtocol.HandOffCanBeLost`);
  and with a limit a row can run out of attempts (`OutboxProtocol.LimitCanLose`). `OutboxProtocol.HandOffKept`
  has the exact condition for these two, `OutboxProtocol.GoneForGood` shows that the loss is final, and
  `OutboxReach.KeptCanArrive` that what is kept can still arrive.
- The relay's minimum age is said to keep it from racing the hot path
  (logger_service/service/persistence/repository.py:328-333). No guard does, so the model lets them race:
  `OutboxProtocol.RacingRun` is a run in which the relay has fetched a row whose hot path has yet to publish.
- A row marked published can be marked failed again (`OutboxProtocol.PublishedCanRevert`);
  `OutboxProtocol.PublishedStaysExactly` says when it cannot. A limit of M attempts can record M + 1
  (`OutboxProtocol.BoundReached`); `OutboxReach.LimitPassedExactly` says for which rows.
- A future whose request could not be sent is dropped uncompleted; it is the only kind that no close
  or response can reach (`ActionProtocol.UncompletedIsTabled`, `ActionProtocol.SendFailureDropsFuture`).
- A message id with outer white space, or with brackets that a glob takes for a class, loses the file in the
  worker's lookup (`Naming.PaddedIdIsMissed`, `Naming.BracketedIdIsMissed`, with `Naming.LookupExactly` as the
  exact condition).
- Within one refresh action a later answer without a file id erases the one found before
  (logger_service/service/napcat/handler.py:155-156), so the next action can be called with an id other
  than the last one found (`RefreshChain.SurfacedIdIgnored`, `RefreshChain.LatestIdExactly`).
- An enqueue strips the path once more after it was resolved
  (processor_service/service/chat_image/tagger_pipeline.py:424), so a file whose resolved path ends in
  white space is queued under another name (`EndToEnd.SpacedPathIsRenamed`); `EndToEnd.QueuedUnderOwnName`
  says exactly when a resolved path is queued as it is.
- A JSON null among the path-less results still takes the turn of one unmatched item
  (processor_service/service/chat_image/tagger_pipeline.py:371-376); `BatchMatching.AnswerFor` follows
  the code.
- `image_id: true` in a version-2 task is accepted as 1, because Python's `bool` is an `int`
  (contracts/chat_image_task.py:50-82): `Contract.TrueIsOne`.

## Model

| member | source | states |
|---|---|---|
| QueueProtocol.NoLoss | processor_service/service/chat_image/tagger_pipeline.py:155-181 | after an enqueue of a path has returned, in every later state of every run with crashes, restores, retries and other enqueues the path is in one of the two files or has a final audit entry younger than that enqueue |
| QueueProtocol.SafeStep | processor_service/service/chat_image/tagger_pipeline.py:463-571 | every single file write, and a crash after any of them, keeps the invariant behind no-loss, in which an in-flight copy answers only for enqueues older than its batch |
| QueueProtocol.BoundedDuplication | processor_service/service/chat_image/tagger_pipeline.py:427-440 | from files whose copies of a path have strictly falling attempt counts below the limit, as empty files have, this is so in every state of every run, and there are at most max_attempts copies of a path |
| QueueProtocol.CopiesAtMost | processor_service/service/chat_image/tagger_pipeline.py:535-540 | strictly falling counts below a limit bound the number of copies by the limit |
| QueueProtocol.OrderedStep | processor_service/service/chat_image/tagger_pipeline.py:468-571 | every step keeps that order, although retries go to the front: no queued copy has more attempts than the copy in flight |
| QueueProtocol.DuplicatesOccur | processor_service/service/chat_image/tagger_pipeline.py:434-440 | a run from empty files in which two copies of one path are queued and the bound is met exactly; QueueProtocol.OvertakingExactly says when that happens |
| QueueProtocol.OvertakingExactly | processor_service/service/chat_image/tagger_pipeline.py:434-440 | from files without a repeated path no path is ever queued twice, crashes and restores included, as long as no enqueue overtakes; and an enqueue opens the way to a second copy exactly if it overtakes, that is, queues a path whose batch copy may still be retried |
| QueueProtocol.SingleStep | processor_service/service/chat_image/tagger_pipeline.py:155-181 | every step that does not overtake keeps queue, batch and retries free of repeated paths and of each other's |
| QueueProtocol.DuplicateFollows | processor_service/service/chat_image/tagger_pipeline.py:535-566 | from any reachable state in which a path is queued while its batch copy may be retried, a run to a queue with two copies |
| QueueProtocol.Missing | processor_service/service/chat_image/tagger_pipeline.py:155-181 | a restore takes back exactly the in-flight items whose path is not queued |
| QueueRounds.KeptBudget | processor_service/service/chat_image/tagger_pipeline.py:507-561 | whatever the verdicts, each picked item uses up at least one of the picks it has left |
| QueueRounds.RoundBudget | processor_service/service/chat_image/tagger_pipeline.py:455-574 | a run lowers the picks left in the queue by at least the size of its batch |
| QueueRounds.RoundSize | processor_service/service/chat_image/tagger_pipeline.py:517-566 | the queue shrinks by exactly the successes and the final failures of a run |
| QueueRounds.BoundedBypass | processor_service/service/chat_image/tagger_pipeline.py:563-566 | with any tagger and any interleaved enqueues an item is picked as soon as the batches offered exceed the picks the items ahead of it have left |
| QueueRounds.BypassTurns | processor_service/service/chat_image/tagger_pipeline.py:468-469 | the same bound in turns: picks left ahead divided by batch_size, plus one |
| QueueRounds.PickedAt | processor_service/service/chat_image/tagger_pipeline.py:468-469 | with enqueues arriving first, a run picks the item at a place iff the place is within the batch size, and picks that item |
| TaggerQueue.Pipeline.SaveQueue | processor_service/service/chat_image/tagger_pipeline.py:131-138 | a queue write is exactly one protocol step, which leaves the other file and the log alone |
| TaggerQueue.Pipeline.SaveInflight | processor_service/service/chat_image/tagger_pipeline.py:145-152 | the same for writing or clearing the in-flight file |
| TaggerQueue.Pipeline.AppendAudit | processor_service/service/chat_image/tagger_pipeline.py:184-191 | the same for one audit line, which goes to the end of the log |
| TaggerQueue.Pipeline.RestoreInflight | processor_service/service/chat_image/tagger_pipeline.py:155-181 | unqueued in-flight items come back in front in their order, the in-flight file is gone, the log untouched; the two writes are protocol steps |
| TaggerQueue.Pipeline.EnqueueTask | processor_service/service/chat_image/tagger_pipeline.py:414-445 | an unusable path changes nothing; otherwise the path ends up queued exactly if it was not yet, at the back, and the receipt no-loss speaks of exists |
| TaggerQueue.Pipeline.TakeBatch | processor_service/service/chat_image/tagger_pipeline.py:463-472 | the restored queue's prefix moves to the in-flight file, written before the shortened queue |
| TaggerQueue.Pipeline.SettleBatch | processor_service/service/chat_image/tagger_pipeline.py:506-561 | one audit entry an item in batch order, the items to retry in order with one more attempt, and counters that add up |
| TaggerQueue.Pipeline.FinishBatch | processor_service/service/chat_image/tagger_pipeline.py:563-571 | retries go in front of the queue as it is now, and only then the in-flight file goes |
| TaggerQueue.Pipeline.RunOnce | processor_service/service/chat_image/tagger_pipeline.py:455-574 | for any runner, and enqueues arriving meanwhile: each item has one audit entry, which says what the runner did: its tags if the last result naming the item is a success, else that result's error, the error the runner raised, or that the result is missing, as `retrying` below the limit and `failed` at it; the items with a `retrying` entry are in front of the queue with one more attempt; the counters count the entries, and a runner that raises has no success; every write is a protocol step |
| TaggerQueue.Pipeline.ConcludeRun | processor_service/service/chat_image/tagger_pipeline.py:485-574 | the same from the runner's answer on, with the queue as it is by then |
| QueueRounds.RoundRecorded | processor_service/service/chat_image/tagger_pipeline.py:485-561 | for every runner, the audit entries, the items to retry and the counters of a run are as the runner's own results, or its exception, require |
| TaggerQueue.Pipeline.RunUntilEmpty | processor_service/service/chat_image/tagger_pipeline.py:577-587 | ends for every runner when nothing is enqueued: both files empty, picks within the budget, picked = success + failed, initial length = success + final failures, one audit entry a pick |
| TaggerQueue.IndexResults | processor_service/service/chat_image/tagger_pipeline.py:496-504 | for every path the index holds the last result that names it, and nothing else |
| BatchMatching.RunHttpBatch | processor_service/service/chat_image/tagger_pipeline.py:308-387 | the loops and the fallback counter compute the matching that the laws below are about, with the same errors; every result is the rejection that names its missing file, or follows from the raw fields of an answer in the reply, or says that an answer is missing |
| BatchMatching.JudgedByFields | processor_service/service/chat_image/tagger_pipeline.py:251-293 | an answer tags its file iff its `success` is literally true and its `tags` are absent or a list; otherwise the file is rejected with the answer's own error, after its error type if it has one |
| BatchMatching.TagsInOrder | processor_service/service/chat_image/tagger_pipeline.py:272-280 | a further entry of the list adds its text, or its name, at the end of the tags unless that is blank |
| BatchMatching.NamedByField | processor_service/service/chat_image/tagger_pipeline.py:296-305 | an answer names a file iff its `image_path` is a text that is not blank, and then the file that the stripped text resolves to |
| BatchMatching.MissingFileFails | processor_service/service/chat_image/tagger_pipeline.py:319-338 | whatever the service answers, a batch item whose file is absent, or is no regular file, is rejected with the text that says so |
| BatchMatching.DealtExactly | processor_service/service/chat_image/tagger_pipeline.py:361-376 | a file is dealt the last answer that names it; if no answer names any file, the one in its own place, or none beyond the last |
| BatchMatching.AskedFileFollows | processor_service/service/chat_image/tagger_pipeline.py:361-387 | the verdict on it follows from the raw fields of that answer |
| BatchMatching.IndexAnswers | processor_service/service/chat_image/tagger_pipeline.py:361-368 | splits a reply into the last answer for each named file and the path-less answers in order |
| BatchMatching.MatchAnswers | processor_service/service/chat_image/tagger_pipeline.py:370-387 | the running fallback index deals the k-th path-less answer to the k-th item that no answer names |
| BatchMatching.OneResultPerItem | processor_service/service/chat_image/tagger_pipeline.py:319-387 | whatever the service replies, the results are for exactly the items of the batch, each as often as it occurs there |
| BatchMatching.SlotsApart | processor_service/service/chat_image/tagger_pipeline.py:371-376 | no path-less answer is dealt out twice |
| BatchMatching.SlotAskedFor | processor_service/service/chat_image/tagger_pipeline.py:371-376 | no path-less answer is skipped while unmatched items remain |
| BatchMatching.NamedIsMembership | processor_service/service/chat_image/tagger_pipeline.py:361-368 | with distinct named files, the indexed answer for a file is exactly the answer in the reply that names it |
| BatchMatching.OrderIndependent | processor_service/service/chat_image/tagger_pipeline.py:361-387 | permuting answers that name distinct files changes no result |
| BatchMatching.OwnAnswer | processor_service/service/chat_image/tagger_pipeline.py:496-532 | end to end into the run: each existing file that is named is settled by the raw fields of exactly the answer naming it, even with repeated batch items: tagged, with the non-blank names in the list, iff `success` is literally true and `tags` absent or a list, else rejected with the answer's own error |
| BatchMatching.TagNames | processor_service/service/chat_image/tagger_pipeline.py:251-293 | the tags kept are exactly the non-blank names of the listed tags |
| WorkerProtocol.AckIsHandOff | processor_service/service/chat_image/tagger_worker.py:88-142 | over all deliveries, redeliveries, lost answers and crashes, an acknowledged message is undecodable, or an earlier step of the run resolved that very message to a path on the host as it was then, and from that step on this path is in a queue file or finally audited after the step |
| WorkerProtocol.SettledWasAccepted | processor_service/service/chat_image/tagger_worker.py:334-340 | a message gets acknowledged, or ready to be, only if it is undecodable or an earlier step of the run accepted that message |
| WorkerProtocol.AcceptedInHand | processor_service/service/chat_image/tagger_pipeline.py:434-441 | from the step that accepts a message on, the path it resolved to there is in hand in every state of the run |
| WorkerProtocol.PublishedThenAcked | logger_service/service/chat_image/outbox_relay.py:57-89 | across both services: a row marked published has a stream message with its image's payload, which decodes to its image's task, and once the processor acknowledged that message, its own path has been in hand since the step that accepted it |
| EndToEnd.AckedImageIsQueued | processor_service/service/chat_image/tagger_worker.py:145-200 | an acknowledged message of a saved image was accepted by a step of the run, and if the saved file was there at that step, and resolving a resolved path changes nothing, the path in hand ever since is the resolved path of a file with the image's own content hash, or that path stripped if white space is around it |
| EndToEnd.FoundIsQueued | processor_service/service/chat_image/tagger_worker.py:119-125 | the resolved path of the file that the lookup finds is what the message is queued under, up to the stripping |
| EndToEnd.QueuedUnderOwnName | processor_service/service/chat_image/tagger_pipeline.py:421-424 | a resolved path is queued, as it is if it has no outer white space; and when the stripped path is no link itself, exactly then |
| EndToEnd.VersionOneIsQueued | processor_service/service/chat_image/tagger_worker.py:145-149 | a version-1 message whose file is there is queued under the file's resolved path, whatever else the message and the directories hold |
| EndToEnd.SpacedPathIsRenamed | processor_service/service/chat_image/tagger_pipeline.py:421-424 | for every saved image a host on which its file is there as a link to a path that ends in a space, and is queued under a different path |
| TaggerWorker.ProcessMessage | processor_service/service/chat_image/tagger_worker.py:74-142 | acknowledges exactly undecodable messages and messages whose enqueue returned; only the latter change the queue, and then the path is in it; a task that names an existing file itself is acknowledged with that file's resolved path in the queue |
| TaggerWorker.AbsolutePathAccepted | processor_service/service/chat_image/tagger_pipeline.py:421-424 | an enqueue never silently drops a resolved path |
| OutboxProtocol.OutboxSafety | logger_service/service/napcat/pipeline.py:653-690 | over every interleaving of hot paths, relay, lost and unconfirmed publishes and crashes: a published row has its own task in the stream from then on, rows are never lost or changed, at most one message an image |
| OutboxProtocol.SoundStep | logger_service/service/persistence/repository.py:352-377 | every step of either writer keeps rows, stream, hot paths and relay consistent, and no step loses a row or a message |
| OutboxProtocol.RelayAlwaysDecodes | logger_service/service/chat_image/outbox_relay.py:69-80 | the relay's branch for undecodable payloads is reached in no run |
| OutboxProtocol.StrandedExactly | logger_service/service/persistence/repository.py:336-348 | over every run, a row that is not published is eligible for no later pass iff there is a limit and it has reached it; with no limit never |
| OutboxProtocol.HandOffKept | logger_service/service/napcat/pipeline.py:653-690 | for an image whose hand-off began and whose hot path is over: it has a dispatch row iff its insert stored one before any crash, whether or not the hot path saw it; and its hand-off is kept, in the stream or as a row the relay will fetch, iff it is in the stream or has a row that is not at a limit |
| OutboxProtocol.GoneForGood | logger_service/service/napcat/pipeline.py:661-690 | a hand-off that is not kept, with no pass under way that has its row, is lost: no later step brings its task into the stream |
| OutboxProtocol.RecordedStep | logger_service/service/napcat/pipeline.py:653-690 | every step keeps that if-and-only-if for every image |
| OutboxProtocol.HandOffCanBeLost | logger_service/service/napcat/pipeline.py:661-673 | a run in which the insert fails, the publish goes on and fails, and nothing of the hand-off is left |
| OutboxProtocol.LimitCanLose | logger_service/service/persistence/repository.py:339-343 | a run without a crash or a failing table update in which one lost publish leaves a hand-off that is not kept, because the row is at its limit |
| OutboxProtocol.AttemptBound | logger_service/service/persistence/repository.py:364-377 | attempts never exceed the limit, plus one for a row whose own hot path recorded a failure, though neither update checks it and the two writers race |
| OutboxProtocol.BoundReached | logger_service/service/chat_image/outbox_relay.py:66-89 | a run in which the race reaches that bound; OutboxReach.LimitPassedExactly says exactly when a limit can be passed |
| OutboxProtocol.RacingRun | logger_service/service/persistence/repository.py:322-349 | a run in which the relay has fetched the row of an image whose hot path has not published yet |
| OutboxProtocol.TakenRows | logger_service/service/persistence/repository.py:336-348 | no pass takes a row that is too young, published or at the limit, and it passes over such a row for none that is younger, nor while its batch has room |
| OutboxProtocol.NoRiskStep | logger_service/service/persistence/repository.py:364-377 | every step keeps a row that is not at risk of passing the limit out of risk |
| OutboxProtocol.NoRiskStays | logger_service/service/persistence/repository.py:364-377 | a row that is not at risk is so in every later state, and its attempts stay within the limit |
| OutboxProtocol.PublishedCanRevert | logger_service/service/persistence/repository.py:364-377 | a run in which a row marked published ends as failed with its message in the stream; OutboxProtocol.PublishedStaysExactly says when that cannot happen |
| OutboxProtocol.PublishedStaysExactly | logger_service/service/persistence/repository.py:352-377 | a published row stays published in every continuation of the run iff no writer at work on it could yet find its own publish failed: no hot path before its publish or told of a failure, and no relay pass that has still to publish it or was told of a failure |
| OutboxProtocol.PublishedStays | logger_service/service/persistence/repository.py:352-377 | once published with no such writer, a row is published, with no such writer, in every later state |
| OutboxRelay.Outbox.RecordIntent | logger_service/service/napcat/pipeline.py:653-667 | a pending row at the end of the table, or no row when the insert fails, and on it goes either way |
| OutboxRelay.Outbox.PublishTask | logger_service/service/chat_image/nats_publisher.py:84-145 | the task under its image id is in the stream once, unless the publish was lost; the caller is told only of confirmed ones |
| OutboxRelay.Outbox.RecordResult | logger_service/service/napcat/pipeline.py:675-690 | the image's own row is marked by what the caller was told, or left as it is |
| OutboxRelay.Outbox.HandOff | logger_service/service/napcat/pipeline.py:649-690 | the row and the stream after a hand-off for every combination of failing insert, publish and update; each write is a protocol step |
| OutboxRelay.HandOffRecorded | logger_service/service/napcat/pipeline.py:653-690 | the row of a hand-off holds its image's task, and is published iff the publish was confirmed and the mark stored, failed with one attempt iff it was not confirmed and the mark stored |
| OutboxRelay.Outbox.RelayOnce | logger_service/service/chat_image/outbox_relay.py:47-98 | a pass marks every fetched row by its own publish, stores their tasks, counts both kinds, and leaves hot paths and handed-off images alone |
| OutboxRelay.PassMarks | logger_service/service/chat_image/outbox_relay.py:66-89 | each row of a pass is published if its own publish was confirmed, else failed with one more attempt; no other row changes |
| OutboxRelay.PassSends | logger_service/service/chat_image/outbox_relay.py:57-89 | every task of a pass whose publish was not lost is in the stream under its image id, and nothing else has come into it |
| OutboxRelay.Outbox.RelayRow | logger_service/service/chat_image/outbox_relay.py:66-92 | one row: its task is published again under the image id and only this row is marked |
| OutboxRelay.PublishedRows | logger_service/service/persistence/repository.py:352-361 | after a pass with working publishes exactly the fetched rows are published and nothing else changed |
| OutboxRelay.PassDrains | logger_service/service/persistence/repository.py:322-349 | such a pass takes min(batch_size, eligible) rows and leaves exactly the others eligible |
| OutboxRelay.RelayDrains | logger_service/service/chat_image/outbox_relay.py:57-89 | after k such passes n rows have become max(0, n - k * batch_size) |
| OutboxRelay.PassesToEmpty | logger_service/service/chat_image/outbox_relay.py:57-89 | the outbox is empty after k passes iff k is at least n divided by batch_size, rounded up |
| OutboxReach.KeptCanArrive | logger_service/service/napcat/pipeline.py:649-652 | between two passes of the relay, for an image whose hot path is over, the run can go on to bring its task into the stream iff its hand-off is kept |
| OutboxReach.RowCanArrive | logger_service/service/chat_image/outbox_relay.py:57-89 | passes whose publishes work reach every row that is not at its limit, however many older rows are in front of it |
| OutboxReach.PickOldest | logger_service/service/persistence/repository.py:336-348 | the query has an answer for every table, time and limit: that many of the oldest eligible rows, or all |
| OutboxReach.FetchRow | logger_service/service/persistence/repository.py:336-348 | from any state between passes, working passes lead to one whose pass has just fetched a given unpublished row below its limit, with hot paths and that row unchanged |
| OutboxReach.HotPathPasses | logger_service/service/persistence/repository.py:364-377 | a run in which the relay fails the row up to the limit and its hot path then once more |
| OutboxReach.LimitPassedExactly | logger_service/service/persistence/repository.py:364-377 | some continuation of a run records more attempts on a row than the limit iff the row is at risk: over the limit, or at it with a writer that may still fail it, or below it with a hot path that may still fail it and a relay that holds the row or may still fetch it |
| OutboxReach.RunDrains | logger_service/service/chat_image/outbox_relay.py:57-89 | over runs: if a run goes on with relay passes alone whose publishes work, no old enough row is left to publish iff the passes reach the number of rows divided by batch_size, rounded up |
| Contract.RoundTrip | contracts/chat_image_task.py:26-82 | decoding an encoded task fails exactly for a non-positive id or a blank hash, with those errors, and otherwise gives the task with version at least 2 and hash and path stripped |
| Contract.RoundTripExactly | contracts/chat_image_task.py:26-82 | the tasks that come back unchanged, as an if-and-only-if |
| Contract.DecodedAgain | contracts/chat_image_task.py:40-107 | a decoded task survives another round trip iff it is version 2 and its path was not blank |
| Contract.TrueIsOne | contracts/chat_image_task.py:50-82 | a version-2 message with `true` as its image id decodes as it would with 1, and a decoded id is then 1 |
| Contract.VersionTwoExactly | contracts/chat_image_task.py:49-82 | exactly which objects are taken for a version-2 task, field by field, and the task each of them is |
| Contract.VersionOneExactly | contracts/chat_image_task.py:85-119 | exactly which objects with a path and no version decode, by their path, context and the number that the context's image id stands for |
| Contract.VersionOneFields | contracts/chat_image_task.py:93-107 | such a task has the message's own path, stripped, and hash and URLs of its context where they are texts |
| Contract.ReplayFidelity | logger_service/service/chat_image/nats_publisher.py:65-81 | a task read back from the outbox, as a dictionary or as text, decodes to the same task as the direct publish, and does decode |
| Contract.BuiltDecodes | logger_service/service/chat_image/outbox_relay.py:101-110 | every payload the logger builds decodes to a task for its own image |
| Contract.CoercePositiveInt | contracts/chat_image_task.py:110-119 | a version-1 image id is positive whenever it is accepted |
| Naming.SafeFilename | logger_service/service/chat_image/storage.py:51-53 | never empty, no leading dot or underscore, only characters that are safe in one path component |
| Naming.NameChosen | logger_service/service/chat_image/storage.py:41-53 | the sender's file name goes before the name in the URL, and both before the numbered default; a safe name is taken as it is |
| Naming.DigitsWrite | logger_service/service/chat_image/storage.py:36-38 | the decimal form of a number reads back as that number |
| Naming.SavedNameIsOneComponent | logger_service/service/chat_image/storage.py:24-48 | a saved name is one path component iff neither time stamp nor message id has a slash, whatever the sender called the file |
| Naming.MatchesContains | processor_service/service/chat_image/tagger_worker.py:184-189 | a glob that puts a literal between two stars matches exactly the names containing it |
| Naming.SavedNameMatches | processor_service/service/chat_image/tagger_worker.py:184-189 | a saved name matches the glob built from its own message id, with any stars, question marks and unclosed brackets in it |
| Naming.Candidates | processor_service/service/chat_image/tagger_worker.py:189-191 | exactly the listed regular files that match the pattern |
| Naming.WithHash | processor_service/service/chat_image/tagger_worker.py:193-197 | finds a candidate with the hash whenever there is one |
| Naming.Newest | processor_service/service/chat_image/tagger_worker.py:199-200 | the fallback is a candidate that none is newer than |
| Naming.ResolveExactly | processor_service/service/chat_image/tagger_worker.py:145-200 | for every task and host: the file the task names itself, whatever else there is; else the file its context names; else a fitting file with the hash if there is one, or else one that none is newer than; and nothing iff no file fits |
| Naming.SearchExactly | processor_service/service/chat_image/tagger_worker.py:157-200 | the last part of that for the lookup by chat and message id, with the directory and the glob spelled out |
| Naming.LookupFindsSaved | processor_service/service/chat_image/tagger_worker.py:145-200 | while the saved file is there the worker resolves the task to a file with the task's hash, whatever else is in the directory and in whatever order, and whatever wildcards short of a class the message id holds |
| Naming.LookupExactly | processor_service/service/chat_image/tagger_worker.py:157-200 | with the saved file alone in its directory it is found iff the stripped message id is not blank and the file's name matches that id's glob, classes included |
| Naming.LiteralLookupExactly | processor_service/service/chat_image/tagger_worker.py:184-189 | for a message id without wildcards, this is so iff the file's name contains the needle built from the stripped id |
| Naming.PaddedIdIsMissed | processor_service/service/chat_image/tagger_worker.py:159-191 | a host and a task for which the saved file is there, alone and intact, and is not resolved because its message id has outer white space |
| Naming.BracketedIdIsMissed | processor_service/service/chat_image/tagger_worker.py:184-191 | the same for the message id `[7]`, whose brackets the glob takes for a class |
| ImagePipeline.Logger.UpdateImage | logger_service/service/persistence/repository.py:182-295 | one update of the row in progress is one protocol step, and changes this row only |
| ImagePipeline.Logger.ProcessImage | logger_service/service/napcat/pipeline.py:253-696 | for every behaviour of network, client, database, disk and broker: the row, the file, the outcome, the dispatch row and the stream message, told from the tries and answers alone; the image is abandoned exactly if it is saved and the update seemed to fail or the audit line raised; the recorded attempts equal the requests really made and are at most two rounds of retries |
| ImagePipeline.ImageExplained | logger_service/service/napcat/pipeline.py:353-690 | what is stored after an image: its body and attempts as the tries and the refresh give them, duplicate iff the content is saved already, saved with its file iff it is new and could be written, else failed; handed off iff the row says saved without a doubt and the audit line was written |
| ImagePipeline.FetchesExactly | logger_service/service/napcat/pipeline.py:369-443 | the first working try's body without a refresh; one round and no refresh for an error that is no expired link; for an expired link the refreshed URL, its first working try's body, and one round more or none |
| ImagePipeline.Logger.ProcessImages | logger_service/service/napcat/pipeline.py:236-250 | the table, the files, the dispatch rows and the stream after all images of an event, an exception ending it |
| ImagePipeline.Logger.Download | logger_service/service/napcat/pipeline.py:370-443 | computes the download whose meaning `ImagePipeline.FetchesExactly` tells: original URL first, one refresh only for an expired link, one more download only if it found a URL, attempts of both added up; the attempts are the requests really made |
| ImagePipeline.Logger.DownloadPart | logger_service/service/napcat/pipeline.py:359-443 | no URL means no request and a failure; otherwise body, final URL, attempts and recorded refreshes as the tries and the client's answers require |
| ImagePipeline.Logger.Settle | logger_service/service/napcat/pipeline.py:489-690 | duplicate iff the content is saved already; the file is written before its row; unless the image ends as saved in the eyes of the code, the outbox is untouched |
| ImagePipeline.Logger.StoreNew | logger_service/service/napcat/pipeline.py:535-690 | new content: file first, then the row, then the hand-off; an update that failed or seemed to, and an audit line that raised, leave the outbox untouched |
| ImagePipeline.SavedOrKnown | logger_service/service/napcat/pipeline.py:489-604 | an image recorded as saved brought new content, and row, file and hash agree on it; one recorded as duplicate brought content that is saved |
| ImagePipeline.SavePathSpelled | logger_service/service/chat_image/storage.py:24-38 | the path of a group message's image, spelled out part by part |
| ImagePipeline.EventKeepsDedup | logger_service/service/persistence/repository.py:198-265 | over whole events at most one saved row a hash, and every duplicate row has a saved row of its hash |
| ImageProtocol.UpdateKeepsDedup | logger_service/service/persistence/repository.py:182-265 | the same for each single update of the row in progress |
| ImageProtocol.OneDispatchPerContent | logger_service/service/napcat/pipeline.py:653-660 | in every state of every run, crashes included: content is saved once, dispatch rows are for saved images only, and no two are for the same content |
| ImageProtocol.ConsistentStep | logger_service/service/napcat/pipeline.py:536-690 | every single write, exception and crash keeps table and outbox consistent: content saved once, hand-offs of saved images only, every saved image that is not in progress handed off or abandoned; and takes back no saved row, hand-off or abandonment |
| ImageProtocol.SavedHandOffExactly | logger_service/service/napcat/pipeline.py:649-690 | over every run, for a saved image that is no longer in progress: its hand-off began iff it was not abandoned, and is kept iff it was not abandoned and the task is in the stream or a dispatch row below its limit is left |
| ImageProtocol.AbandonedForGood | logger_service/service/napcat/pipeline.py:489-533 | once a saved image is abandoned, in every later state its row is unchanged and neither it nor any image with its content has been handed off, as a message or as a dispatch row |
| ImageProtocol.SavedCanBeAbandoned | logger_service/service/napcat/pipeline.py:553-604 | a run without a crash in which an image is saved and its hand-off never begins |
| ImagePipeline.Logger.HandOffExactly | logger_service/service/napcat/pipeline.py:649-690 | the same promise on the logger's own tables, whatever images, relay passes and restarts it has been through |
| ImagePipeline.Logger.StillAbandoned | logger_service/service/napcat/pipeline.py:489-533 | what was abandoned at an earlier moment of a logger still is, and nothing with its content has been handed off |
| ImagePipeline.Logger.RelayPass | logger_service/service/chat_image/outbox_relay.py:47-98 | a relay pass over the logger's outbox is a run of the protocol that changes neither image table nor hand-offs nor abandoned images |
| ImagePipeline.Logger.Restart | logger_service/service/napcat/pipeline.py:653-690 | a restart is the protocol's crash: table and stream stay, and an image that was saved but not handed off yet is abandoned |
| ImagePipeline.Logger.constructor | logger_service/service/napcat/pipeline.py:236-250 | a logger can be opened on the tables that any run of the protocol left behind, a crash included |
| ImagePipeline.AttemptsAccounted | logger_service/service/napcat/pipeline.py:71-75 | no attempts exactly when there is no URL, at least one with a body, never more than twice the retry limit |
| ImagePipeline.AtMostSevenRefreshes | logger_service/service/napcat/pipeline.py:394-415 | at most seven refresh calls are recorded on a row |
| ImagePipeline.ContextServesLookup | logger_service/service/napcat/pipeline.py:626-639 | the task context holds what the worker's lookup reads, in a form it takes over unchanged |
| ImagePipeline.PayloadDecodes | logger_service/service/napcat/pipeline.py:641-647 | the payload of a hand-off decodes to the image's own id, hash and context |
| ImagePipeline.SavedImageIsFound | processor_service/service/chat_image/tagger_worker.py:145-200 | across both services: the task handed off for a saved image decodes, and under its own root the worker finds a file with its content's hash |
| Downloader.DownloadWithRetry | logger_service/service/chat_image/downloader.py:83-119 | reported attempts equal the tries made; success is the first working try, failure means all allowed tries broke |
| Downloader.AttemptsInRange | logger_service/service/chat_image/downloader.py:87-119 | the reported attempt lies between the first and the last allowed one |
| Downloader.AttemptLimit | logger_service/service/chat_image/downloader.py:83-87 | the retry count, but at least one |
| Downloader.FromExactly | logger_service/service/chat_image/downloader.py:83-119 | a download has the body of the first try that works within the limit, and breaks off with the last error iff none does |
| PayloadSearch.ExtractFirstHttpUrl | logger_service/service/napcat/handler.py:76-91 | ends on every tree and returns the first URL among its texts from left to right |
| PayloadSearch.FirstUrlExactly | logger_service/service/napcat/handler.py:76-91 | finds a URL iff some text starts with one of the two schemes once stripped and unescaped, and every earlier text does not |
| PayloadSearch.WhichUrl | logger_service/service/napcat/handler.py:76-91 | of several URLs that of the first item of a list, or the first member of an object, that holds one |
| PayloadSearch.PushReversed | logger_service/service/napcat/handler.py:85-90 | pushing children in reverse keeps the left-to-right order of the texts still to come |
| PayloadSearch.ExtractFileId | logger_service/service/napcat/handler.py:94-111 | ends and agrees with a search by recursion: an object's own members first, then its values from last to first, lists forwards |
| PayloadSearch.FileIdExactly | logger_service/service/napcat/handler.py:94-111 | finds an id iff some object anywhere in the tree offers one, and returns one that is offered |
| PayloadSearch.WhichFileId | logger_service/service/napcat/handler.py:94-111 | of several ids the first that an object's own members offer under one of the four keys, in any letter case; else that of the last value, or the first list item, that holds one |
| RefreshChain.TryAction | logger_service/service/napcat/handler.py:124-171 | makes the calls of one action until one has a URL, and reports the file id of the last answer |
| RefreshChain.WalkChain | logger_service/service/napcat/handler.py:196-232 | the loop makes exactly the calls of the chain and returns the URL of the last one; by name these are the planned ones, in full if none has a URL |
| RefreshChain.RefreshImageUrl | logger_service/service/napcat/handler.py:174-248 | the result is that of the call chain the theorems below are about, and its attempts are the planned ones by name; without a client a single failed attempt |
| RefreshChain.RefreshFollowsPlan | logger_service/service/napcat/handler.py:196-232 | when no URL is found the calls are `nc_get_rkey`, `get_image` and `get_file`, each as `file_id` and as `file` with the id in use, or once without parameters, and then `get_msg` iff there is a message id, by number iff it is all digits; when one is found they are a prefix of that |
| RefreshChain.AttemptsAnswered | logger_service/service/napcat/handler.py:135-169 | the k-th attempt has the URL in the data of the client's k-th response, and none if that was an exception |
| RefreshChain.ExpiredExactly | logger_service/service/napcat/handler.py:56-73 | an error counts as an expired link iff a part of it is, letter case aside, one of eleven words |
| RefreshChain.RefreshTrace | logger_service/service/napcat/handler.py:196-248 | for every client: at most seven attempts in the order of the chain, only the last has a URL and it is the one returned, exhausted iff no attempt has one |
| RefreshChain.RefreshUsesLatestId | logger_service/service/napcat/handler.py:196-232 | each call is made with the id in use when its action starts, and this is the file id that an earlier action surfaced last, else the original one, iff that was not erased by a later answer of its action, or was in use already |
| RefreshChain.AnswerWithoutIdErases | logger_service/service/napcat/handler.py:153-156 | when a later answer of its action carries no file id, the one surfaced before is not used by any action until another is found: they use the id that was in use before |
| RefreshChain.LatestIdExactly | logger_service/service/napcat/handler.py:220-228 | the same equivalence for any calls in the order of the chain |
| RefreshChain.SurfacedIdIgnored | logger_service/service/napcat/handler.py:153-171 | a client for which the first action finds an id and the second is called with the original one |
| ActionProtocol.ResultsCorrelated | logger_service/service/napcat/connection.py:61-72 | over all interleavings a call's result is the first response with its echo on its own connection after the call, it returns nothing else, and no other call has that response |
| ActionProtocol.CompletedOnce | logger_service/service/napcat/connection.py:61-82 | once a future is done no step of any kind changes its outcome |
| ActionProtocol.UncompletedIsTabled | logger_service/service/napcat/connection.py:36-59 | an uncompleted future is in its client's table iff its request did not fail to be sent |
| ActionProtocol.SendFailureDropsFuture | logger_service/service/napcat/connection.py:57-59 | a run that leaves an uncompleted future in no table |
| ActionProtocol.ClosedIsDrained | logger_service/service/napcat/connection.py:74-82 | after a close the table is empty and every call that was sent has a completed future |
| ActionProtocol.RegisteredIsTheOpenOne | logger_service/service/napcat/connection.py:92-97 | at handler boundaries a client is open iff it is the registered one, over any reconnects |
| ActionProtocol.TableHoldsLiveOrAborted | logger_service/service/napcat/connection.py:47-59 | a table holds only unanswered calls that are under way or whose own task was cancelled |
| ActionProtocol.InvStep | logger_service/service/napcat/connection.py:33-97 | every step between two suspension points keeps all of this |
| ActionChannel.ActionClient.Begin | logger_service/service/napcat/connection.py:33-39 | a closed channel is refused without a trace; otherwise a new uncompleted future is the only change |
| ActionChannel.ActionClient.Pop | logger_service/service/napcat/connection.py:52-59 | an error removes exactly the call's own entry |
| ActionChannel.ActionClient.Consume | logger_service/service/napcat/connection.py:61-72 | consumed iff the echo is pending; exactly that entry goes and exactly that future is completed, if not done |
| ActionChannel.ActionClient.Close | logger_service/service/napcat/connection.py:74-82 | every pending future that is not done fails with the reason, done ones stay, the table is empty, and a second close does nothing |
| ActionChannel.Registry.SetActionClient | logger_service/service/napcat/connection.py:92-97 | the client registered before is closed and its calls fail, unless it is the same client |
| ActionChannel.Registry.Connect | logger_service/service/napcat/connection.py:234-235 | the new client is the only open one, and calls on the old connection fail at once |
| ActionChannel.Registry.Disconnect | logger_service/service/napcat/connection.py:252-255 | the client is closed, and unregistered unless a newer one has taken over |

## Left out

- Two tagger runners at once, and the restore that counting pending items does without the lock
  (processor_service/service/chat_image/tagger_pipeline.py:448-452): the no-loss and copy bounds do not hold there, so one runner is an assumption.
- `auto_run`, the periodic drain loop with its health checks, and the relay's sleep loop: they only decide when the modelled runs and passes happen.
- Archiving of corrupt queue files, half-written audit lines, and queue items of another shape: the program's own atomic writes do not produce them.
- QueueProtocol.BoundedDuplication: does not start from files edited by hand, or left by a process with a higher limit, in which the copies of a path are not in falling order below the limit; the no-loss, bypass and termination laws cover those too.
- Broker limits on deliveries and age, its finite de-duplication window, and publishing without JetStream.
- QueueRounds.BoundedBypass: assumes no crash, because a restored batch goes back to the front of the queue and is picked again.
- TaggerQueue.Pipeline.RunOnce: a crash or cancellation inside the run is a step of `QueueProtocol`, not an outcome of the method.
- OutboxProtocol.HandOffKept: `Kept` does not count a row at its limit that a relay pass under way has already fetched; `OutboxProtocol.GoneForGood` and `OutboxReach.KeptCanArrive` exclude that case by their own conditions.
- OutboxRelay.Outbox.RelayOnce: a hot path that interleaves with the pass, and a mark that raises and so ends the pass early, are covered by `OutboxProtocol`, not by the method.
- ActionChannel.ActionClient.Begin: `call_action` is split at its suspension points; the waiting itself is in `ActionProtocol`.
- Naming.LookupExactly: the glob of Python 3.11 refuses `**` inside a name, so the law asks for a message id without it; the raised error means no acknowledgement, which `WorkerProtocol` allows at any time.
- Naming.Matches: a `!` that comes to the front of a class only because ranges before it are upside down, as in `[b-a!x]`, negates the class in Python 3.11; here it is a character like any other.
- EndToEnd.AckedImageIsQueued: takes it that resolving a path already resolved on the host changes nothing, for `resolve()` is a parameter.
- Message ids with `/`: the logger then saves into a sub-directory; `Naming.SavedNameIsOneComponent` says so, and the lookup laws speak of files directly in the chat's directory.
- Naming.LookupFindsSaved: two images of one chat saved in the same second under the same message id, sequence number and name overwrite each other; the law asks for the file to be intact.
- Unicode: white space, letter case and digits are ASCII here; HTML unescaping, SHA-256, `int()` on text, `resolve()` and `expanduser()` are parameters.
- JSON text and UTF-8, and the key order of objects, except where a search depends on the order of members.
- Image metadata, stream phases, transfer modes, stored error texts, the `ok` flag of an attempt: they are recorded but steer nothing.
- Non-finite numbers in version-1 tasks, which JSON does not have.
- Event and message rows, plain-text and sender extraction, CQ-code parsing, stream reconciliation, export queries, configuration parsing, metrics, tracing and logging.
