# concertpvr: a verified model of its queues, caches and parsers

concertpvr records live streams and downloads concert videos.  Its state lives
in a database, in a few in-memory queues, sets and dictionaries, and in asyncio
tasks that interleave at every `await`.  This project models that state and
proves what it keeps, over every interleaving, every crash and every input.

The VOD download queue is the centre.  `VodQueueSpec` is a step system in which
each stretch of code between two suspension points is one step; callers, workers,
the download handler, deletions, cancellations and crashes are its actions.
`VodQueueInvariant` states who owns a recording id and proves that every step
keeps it; `VodQueueRuns` draws the promises about whole runs from it,
`VodQueueLiveness` what must come to pass, and `VodQueueFrames` what each step
does and leaves alone; and `VodQueue` is the queue as an object with mutable
fields, each method proved to be the step it stands for.

The other parts follow the same plan.  `BacklogRefreshSpec` and `BacklogRefresh`
hold the resumable, cancellable refresh of a channel's backlog; `Publisher` the
publishes that may delete their own source; `RecorderPool` the pool of live
recorders; `ChannelPoller` the poll for new uploads; `PruningSpec` and `Pruning`
the retention of buffered fragments.  `BacklogResume`, `PublisherOutcomes`,
`RecorderLife` and `PruningOutcomes` say what comes of it in terms of rows,
processes and files alone.  `BacklogBrowse` with `StableSort` is the
filter, sort and page of the backlog, and `BacklogCancel` its bulk cancellation.
`SetlistChars`, `SetlistText` and `SetlistRoundTrip` are the setlist parser with
its line pattern written out; `SetlistStamps`, `SetlistDetector` and
`StampRoundTrip` the search for setlists in descriptions and comments, with the
timestamp pattern written out, and `SetlistNotations` the lines people write in
both; and `RangeStream` the byte ranges of a recording.
`PublisherNecessity` shows that what the publisher's safety asks of its callers
cannot be relaxed, and `Decimals` and `Wrappers` hold what several parts share.

`dafny verify dfyconfig.toml` checks the whole project.

## Where the code and its words disagree

The model follows the code, and a lemma says by how much the words are off.

- The cancel endpoint's description says that a `vod_downloading` row's process is
  terminated.  That holds exactly while the process is registered and its exit
  code is unread (`VodQueueRuns.DownloadingCancelHits`); otherwise nothing happens
  although the reply still reports `vod_cancelled`.
- The refresh-cancel endpoint's description says that a request is dropped when no
  refresh runs.  It stays pending and cancels the next refresh
  (`BacklogRefreshSpec.WhenACancelStaysPending`, `BacklogRefreshSpec.PendingCancelHitsTheNext`).
- Looking at the backlog after a cancelled refresh throws the partial counts away
  (`BacklogRefreshSpec.BrowsingACancelledCacheLosesItsCounts`).
- `publish()` of a segment whose recording is gone writes `publish_failed` in a
  session that its own exception rolls back, so the failure is never seen
  (`PublisherSpec.OrphanSessionIsRolledBack`, `PublisherSpec.OrphansNeverChange`).
- A crash in the middle of a refresh leaves the cache row fetching, and nothing but
  the deletion of the watcher ends that (`BacklogRefreshSpec.CrashLeavesItFetching`,
  `BacklogRefreshSpec.FetchingIsForever`).
- A crash in the middle of a publish leaves its segment "publishing" until it is
  published again, although nothing publishes it any more
  (`PublisherOutcomes.CrashLeavesItPublishing`).
- The bulk cancel says that it also drops the entries from the queue.  By then the
  streams it looks for are deleted, so it never finds one
  (`BacklogCancel.Backlog.CancelDownloads`); the worker drops the entries later
  (`VodQueueRuns.DeletedEntryIsDropped`).
- One fragment that cannot be read, or has expired and cannot be removed, ends the
  retention job before it prunes a full disk (`PruningSpec.OneStuckFragmentBlocksPruning`,
  `PruningSpec.UnreadableFragmentBlocksPruning`).
- A byte range that starts inside the file and ends beyond it is refused, where
  section 14.1.2 of RFC 9110 shortens it (`RangeStream.AgreesWithTheStandardIff`); a
  request for the last bytes is refused as malformed (`RangeStream.SuffixRangesAreRefused`).

## Model

| member | source | states |
|---|---|---|
| VodQueueInvariant.StepKeepsInv | src/concertpvr/vod_queue.py:53-199 | every step of every worker, endpoint, deletion, timeout and crash keeps the ownership invariant |
| VodQueueRuns.StartupRunsKeepInv | src/concertpvr/main.py:252-258 | from any database, every state of every run satisfies the ownership invariant |
| VodQueueRuns.EveryIdHasOneOwner | src/concertpvr/vod_queue.py:143-199 | an id is at most once in the FIFO, the ids about to be enqueued and the workers' hands; its row is vod_queued exactly in the first two, vod_downloading exactly in a worker's hands, and registered exactly while a worker waits for its process |
| VodQueueRuns.FifoIsConserved | src/concertpvr/vod_queue.py:156-199 | in one process lifetime, popped entries followed by the FIFO are the enqueued ones; dispatched entries are the popped ones that are neither cancelled nor sentinels; the join count is FIFO length plus busy workers |
| VodQueueRuns.StepsFollowEdges | src/concertpvr/main.py:115-228 | no step moves a row except along an edge of the lifecycle, although the handler overwrites statuses unseen |
| VodQueueRuns.FinalStatusesAreFinal | src/concertpvr/main.py:213-217 | a complete or cancelled row keeps its contents in every run, restarts included, and a deleted one does not come back |
| VodQueueRuns.ExitCodeDecides | src/concertpvr/vod_downloader.py:159-169 | a download killed by a signal ends vod_cancelled and cannot be retried, one that failed keeps its message and can, one that succeeded goes on; afterwards its process is not registered |
| VodQueueRuns.DispatchDecides | src/concertpvr/main.py:115-128 | an entry that was not cancelled is a queued row; a missing stream fails it, otherwise its row, with nothing else changed, reads vod_downloading in that worker's hands |
| VodQueueRuns.MessagesFollowFailures | src/concertpvr/vod_queue.py:183-192 | failed rows carry a message and rows on their way carry none, in every run; so a retry leaves the row of a new recording |
| VodQueueRuns.QueuedCancelIsExact | src/concertpvr/vod_queue.py:163-171 | while a queued cancel is pending its entry is not dispatched, in any run without restart |
| VodQueueRuns.QueuedCancelEndsCancelled | src/concertpvr/vod_queue.py:106-115 | after the answer "queued", the entry is never dispatched, and once it has left the queue no flag is left and its row, unless deleted, is vod_cancelled |
| VodQueueRuns.CancelAnswersTell | src/concertpvr/vod_queue.py:94-115 | "running" exactly when a worker holds the id with a live process, "queued" exactly when its row exists and the id is in the FIFO or about to be |
| VodQueueRuns.DownloadingCancelHits | src/concertpvr/api/recordings.py:243-268 | cancelling a vod_downloading row terminates its process exactly while that is registered; otherwise the answer is "not_found" and nothing changes |
| VodQueueRuns.RestartForgetsQueuedCancel | src/concertpvr/vod_queue.py:48-51 | after a restart the entry of a queued cancel is back in the FIFO without its flag |
| VodQueueRuns.DeletedEntryIsDropped | src/concertpvr/main.py:115-118 | an entry whose row was deleted passes through a worker and leaves nothing behind |
| VodQueueRuns.ConcurrencyCap | src/concertpvr/vod_queue.py:42-62 | from any startup on, at most max(1, cap) rows read vod_downloading |
| VodQueueRuns.JoinMeansHandled | src/concertpvr/vod_queue.py:140-141 | when the join count is zero everything enqueued was popped and handled, no worker is busy, and a queued row is one whose enqueue call is still to come |
| VodQueueRuns.RestartRequeues | src/concertpvr/vod_recovery.py:19-31 | after a restart interrupted rows are vod_queued and otherwise as they were, all other rows are untouched, the FIFO holds exactly the queued and interrupted ids in ascending order, max(1, cap) fresh workers wait to begin, and nothing else of the old process is left |
| VodQueueLiveness.NoWorkerIsLost | src/concertpvr/vod_queue.py:156-174 | in every run from startup without a stop, the queue runs and no worker has returned or been abandoned; while the FIFO is not empty every worker has a step to take, and a waiting one can take the head |
| VodQueueLiveness.EveryEntryIsTaken | src/concertpvr/vod_queue.py:156-199 | in such runs every entry is popped, in its turn: an entry with j others in front has been once the workers have taken five steps for each of those and what they had left to do, publishes not counted |
| VodQueueLiveness.FinishedDownloadIsPublished | src/concertpvr/main.py:213-250 | after the probe the row is complete and otherwise as it was; the worker publishes exactly as often as there is something to publish and then waits for the next entry |
| VodQueueLiveness.StopEndsTheWorkers | src/concertpvr/vod_queue.py:64-73 | a stop puts one sentinel per worker behind what is queued; from then on the workers take a bounded number of steps, each takes at most one more entry, and none that has not ended is ever stuck |
| VodQueueLiveness.TimeoutEndsTheWorker | src/concertpvr/vod_queue.py:68-73 | a worker cancelled after stop()'s timeout ends, its process is no longer registered, its entry is accounted for and its row stays as it is |
| VodQueueFrames.StepTouchesOneRecording | src/concertpvr/vod_queue.py:53-199 | a step is about one recording at most: the row, process, flags and marks of every other one stay as they are |
| VodQueueFrames.WhatMovesTheFifo | src/concertpvr/vod_queue.py:53-174 | an enqueue appends, a pop removes the head and logs whether it was flagged, and apart from a stop or restart nothing else moves the FIFO |
| VodQueueFrames.CancelTable | src/concertpvr/api/recordings.py:243-268 | the reply to a cancel for every state of a recording: 404, "queued", "running" exactly while a worker waits for its process, or 409 |
| VodQueueFrames.RetryTable | src/concertpvr/api/recordings.py:199-218 | a failed recording becomes a new queued one whose enqueue call puts it behind everything queued; any other is refused and nothing changes |
| VodQueueFrames.SpawnRegisters | src/concertpvr/vod_queue.py:75-85 | from the spawn on a cancel reaches the process, which has not been told to terminate before |
| VodQueueFrames.ExceptionDecides | src/concertpvr/vod_queue.py:183-199 | any other exception fails the row with the first 500 characters of its message, unregisters it and frees the worker |
| VodQueue.Queue.Startup | src/concertpvr/main.py:32-36 | recovery, fresh workers and rehydration leave the startup state of the step system |
| VodQueue.Queue.MarkInterrupted | src/concertpvr/vod_recovery.py:19-31 | every vod_downloading row becomes vod_queued, no other row changes, and the count is theirs |
| VodQueue.Queue.Rehydrate | src/concertpvr/vod_queue.py:143-154 | the vod_queued ids are enqueued in ascending order |
| VodQueue.Queue.RetryVod | src/concertpvr/api/recordings.py:199-218 | 404, 409 or the step that makes a failed row queued again and clears its error |
| VodQueue.Queue.Cancel | src/concertpvr/vod_queue.py:94-115 | the answer and the new state of the step system's cancel |
| VodQueue.Queue.WorkerTakes | src/concertpvr/vod_queue.py:156-174 | one turn of the worker loop is the step system's pop: sentinel, cancelled entry, or handler up to its first await |
| VodQueue.Queue.ProcessExited | src/concertpvr/vod_downloader.py:156-169 | the exit code's classification and what handler and loop make of it are one step: negative is cancelled, positive failed, zero goes on to the probe |
| VodQueue.Queue.ProbeReturned | src/concertpvr/main.py:213-250 | the row becomes complete and the worker goes on to its publishes, or ends |
| VodQueue.Queue.Stop | src/concertpvr/vod_queue.py:64-67 | one sentinel is enqueued for each worker |
| BacklogRefreshSpec.InterruptionsLeaveNoTrace | src/concertpvr/backlog_cache.py:123-249 | refreshing again and again, with cancels at any batch boundary and failed listings in between, ends with the items of one uninterrupted refresh once it completes |
| BacklogRefreshSpec.UninterruptedRefresh | src/concertpvr/backlog_cache.py:206-249 | an undisturbed refresh leaves every listed entry with its own probe's counts and probes each unprobed id once |
| BacklogRefreshSpec.ExactlyTheFirst | src/concertpvr/backlog_cache.py:174-237 | with distinct ids, m probes change exactly the first m unprobed entries and nothing else of any entry |
| BacklogRefreshSpec.ResumeNeverReprobes | src/concertpvr/backlog_cache.py:151-179 | whatever listings, refreshes, browses, cancels and crashes came before, a resumed refresh probes no id that already has a count and every such entry stays as it is |
| BacklogResume.CancelledRefreshIsResumed | src/concertpvr/backlog_cache.py:151-249 | from every reachable cancelled row in which some entry has a view or like count, the refresh does not depend on the listing and does not raise; its calls are, in order, ids of entries with neither count, all of them unless it is cancelled again; called entries get their probe's counts and all others keep theirs |
| BacklogResume.CallsAddUp | src/concertpvr/backlog_cache.py:123-249 | over a refresh cancelled and resumed until it completes, the calls put together are the listed ids, each once |
| BacklogResume.CancelStopsAfterItsBatch | src/concertpvr/backlog_cache.py:202-237 | a first cancel request during batch k stops the probing after exactly 20 times k + 1 videos, if there are more, with the share of counted entries as progress; otherwise it runs through |
| BacklogResume.FreshRefreshMeans | src/concertpvr/backlog_cache.py:151-249 | an undisturbed refresh of a row that is not a cancelled one calls each listed id in order and leaves each listed upload with its own probe's counts, complete and dated now |
| BacklogResume.FlatRefreshMeans | src/concertpvr/backlog_cache.py:56-117 | a flat refresh leaves exactly the listed uploads without counts; a listing that fails keeps the old list and stores the first 500 characters of the error |
| BacklogResume.BrowseMeans | src/concertpvr/api/channel_watchers.py:257-277 | browsing serves what is cached, leaves a complete row alone for a day and a fetching one for good, and has any other fetched afresh |
| BacklogResume.CrashMeans | src/concertpvr/backlog_cache.py:151-237 | a crash forgets the cancel flag; during the listing it leaves the old list, and after k batches the very items and progress that a cancel there would have left, marked fetching |
| BacklogRefreshSpec.ReachedIsUniform | src/concertpvr/backlog_cache.py:221-237 | in every cache row the code can leave, entries with one id carry the same counts |
| BacklogRefreshSpec.ProgressNeverFalls | src/concertpvr/backlog_cache.py:183-237 | from every reachable list on, the percentage stays within 0 to 100 and does not fall from batch to batch |
| BacklogRefreshSpec.WhenACancelStaysPending | src/concertpvr/backlog_cache.py:206-209 | the cancel flag is still set after a refresh exactly when it was set before the probing and the listing failed or left nothing to probe, or the refresh was not cancelled and the request came during its last batch |
| BacklogRefreshSpec.PendingCancelHitsTheNext | src/concertpvr/backlog_cache.py:206-209 | with the flag set a refresh probes nothing: one with something to probe is cancelled and clears it, any other passes it on |
| BacklogRefreshSpec.BrowsingACancelledCacheLosesItsCounts | src/concertpvr/api/channel_watchers.py:266-277 | browsing a cancelled cache lists it afresh: no counts are left and the next refresh does not resume |
| BacklogRefreshSpec.FetchingIsForever | src/concertpvr/api/channel_watchers.py:188-191 | once a crash has left the row fetching, no refresh, browse or restart changes it again |
| BacklogRefresh.BacklogCache.FetchFullChannel | src/concertpvr/backlog_cache.py:56-117 | the flat extract replaces the list, or records the error and keeps the items |
| BacklogRefresh.BacklogCache.FetchWithViews | src/concertpvr/backlog_cache.py:123-249 | the whole slow refresh, dictionaries, merges and flag included, does what the pointwise specification says, and probes exactly the ids that says |
| BacklogRefresh.BacklogCache.ProbeBatches | src/concertpvr/backlog_cache.py:202-237 | the batch loop stops at the first batch that finds the flag set; the cached list is the original one with the probes so far applied |
| PublisherSpec.SourceDeletionIsSafe | src/concertpvr/publisher.py:176-221 | in every run with one publish per segment at a time and no deletion of a publishing segment, source_deleted turns on only when the recording has segments, all published, none of them still cutting; and it never turns back |
| PublisherSpec.OnlyItsOwnPublishDecides | src/concertpvr/publisher.py:176-221 | a segment turns published only by the end of its own publish, and publish_failed only by that one's failure |
| PublisherOutcomes.PublishingWhileInFlight | src/concertpvr/publisher.py:48-221 | in every disciplined run without a crash, a segment reads publishing exactly while a publish of it is in flight |
| PublisherOutcomes.FailureStays | src/concertpvr/publisher.py:215-221 | a failed publish leaves publish_failed and its own message on the row, through crashes and whatever else, until that segment is published again |
| PublisherOutcomes.SuccessStays | src/concertpvr/publisher.py:176-183 | a publish that succeeds leaves its segment published without an error, until it is published again |
| PublisherOutcomes.CrashLeavesItPublishing | src/concertpvr/publisher.py:48-60 | a crash in mid-publish leaves the segment publishing, through every run that does not publish it again |
| PublisherOutcomes.ManualRouteIff | src/concertpvr/api/recordings.py:271-301 | the manual route deletes exactly when row and source are there, the recording has segments, all are published and the removal succeeds; when it answers 404 and 500 |
| PublisherSpec.LastPublishDeletesIff | src/concertpvr/publisher.py:184-211 | a publish deletes the source exactly when the preference asks for it, the removal succeeds and all other segments are published |
| PublisherSpec.StatusIsAGuard | src/concertpvr/publisher.py:48-53 | a segment whose status is not publishing may be published or deleted within that discipline |
| PublisherSpec.SecondPublishLosesItsSource | src/concertpvr/publisher.py:187-211 | from a good state with the other segments published, two publishes of one segment: the first to end deletes the source under the second |
| PublisherSpec.DroppedSegmentLosesItsSource | src/concertpvr/api/recordings.py:284-299 | without the discipline, deleting a publishing segment lets the manual route delete the source under its cut |
| PublisherNecessity.UndisciplinedStepsCanLoseTheSource | src/concertpvr/publisher.py:184-211 | every single step against that discipline, on a recording whose source is there, has a disciplined continuation that deletes the source under a cut |
| PublisherSpec.OrphansNeverChange | src/concertpvr/publisher.py:52-58 | a segment whose recording is gone keeps its row, status and error, through every run, however often it is published: the failure written for it is rolled back each time |
| Publisher.PublishWorker.Begin | src/concertpvr/publisher.py:48-60 | the first session of publish(), committed or rolled back as it ends; within the discipline the invariant is kept |
| Publisher.PublishWorker.Land | src/concertpvr/publisher.py:176-213 | the last session: published, then the all-published test, the watcher's or the global preference, and the deletion; no source is deleted under a flight |
| Publisher.PublishWorker.RemoveSource | src/concertpvr/api/recordings.py:271-301 | the manual route: 404, 409, 500 or the deletion; a deletion leaves no flight of the recording |
| RecorderPoolSpec.PoolIsConsistent | src/concertpvr/pool.py:17-31 | at every suspension point the two dictionaries have the same keys, each task runs the recorder stored under its stream, live tasks are listed, and there are at most max_concurrent |
| RecorderPoolSpec.StartEntersIff | src/concertpvr/pool.py:17-31 | a start enters its recorder exactly if the stream is not being recorded and the pool is not full, and else changes nothing |
| RecorderPoolSpec.EndingRemovesOnlyItsOwn | src/concertpvr/pool.py:24-29 | a task that ends takes its own entry out of both dictionaries and no other |
| RecorderPoolSpec.StopAlwaysTerminates | src/concertpvr/recorder.py:64-86 | after a stop before, during or after the spawn, whenever the process is awaited it has been told to terminate |
| RecorderPoolSpec.TerminatedIffStopped | src/concertpvr/recorder.py:64-86 | in every run of a pool that started empty, a process being awaited has been told to terminate exactly if some stop of the run found its recorder in the pool |
| RecorderLife.SpawnedProcessIsHeld | src/concertpvr/recorder.py:64-86 | in every run of a pool that started empty, once a task has spawned a process and until it ends, it awaits that process, its recorder is in the pool and holds it, and the process has been told to terminate exactly if some stop found that recorder |
| RecorderLife.ARecording | src/concertpvr/recorder.py:64-86 | wherever there is room a new stream can be recorded, with a stop before its coroutine begins, before the spawn or after it, or none: the process is stored and awaited, told to terminate exactly if there was a stop, and its end leaves the dictionaries as they were |
| RecorderLife.RefusalsTell | src/concertpvr/pool.py:17-22 | a start is refused as already recording exactly if its stream is in the pool, and for capacity exactly if it is not and the pool is full |
| RecorderPool.Pool.StartRecorder | src/concertpvr/pool.py:17-31 | refused for a stream being recorded or a full pool, else entered into both dictionaries; their keys stay equal and within the limit |
| RecorderPool.Pool.StopStream | src/concertpvr/pool.py:33-41 | the stop is noted and a spawned process terminated; the dictionaries keep equal keys |
| ChannelPollerSpec.PollIsForwardOnly | src/concertpvr/channel_poller.py:79-211 | every created recording comes from a listed, unknown, not live upload dated strictly after the watcher's day that matches the filter, and from a probe that says not live; in list order, each video once, under fresh ids |
| ChannelPollerSpec.FilterMeans | src/concertpvr/channel_poller.py:35-41 | no filter or a blank one lets every title through, a regular expression those it is found in, and any other filter the titles that contain it, letter case aside |
| ChannelPollerSpec.StreamsStayUnique | src/concertpvr/channel_poller.py:163-190 | there is one stream per video, whatever others commit during the probes |
| ChannelPollerSpec.SecondPollCreatesNothing | src/concertpvr/channel_poller.py:79-211 | polling again with the same list and probes creates nothing, even if others have added streams |
| ChannelPollerSpec.ExactlyTheNewOnes | src/concertpvr/channel_poller.py:85-173 | without interference, a video is created exactly if it was not there and an eligible upload with a successful, not live probe offers it |
| ChannelPoller.Poller.CheckForNewUploads | src/concertpvr/channel_poller.py:61-215 | the loop leaves exactly the rows of the specification and enqueues exactly their ids, in order |
| ChannelPoller.EnqueuedAreCommitted | src/concertpvr/channel_poller.py:213-215 | each enqueued id has the row made for it by then |
| PruningSpec.ShortestOldestFirst | src/concertpvr/buffer.py:67-77 | the files removed from a list are, in its order, the shortest prefix of the deletable ones that reaches the target, or all of them |
| PruningOutcomes.PruningMeans | src/concertpvr/buffer.py:44-77 | pruning that does not raise removes only deletable fragments, and with each of them every deletable one of an earlier time; without the last removed the target was not reached, and with it it is, unless no deletable fragment is left |
| PruningSpec.SecondPruneRemovesNothing | src/concertpvr/buffer.py:55-77 | pruning to the same target again changes nothing, whether or not it was reached or raised |
| PruningSpec.TargetHoldsOffTheNextRunIff | src/concertpvr/retention.py:35-41 | reaching the 10% target keeps the 5% threshold from firing, for all amounts of free space, exactly on disks of at least ten bytes |
| PruningSpec.ExpiryIsExact | src/concertpvr/buffer.py:32-42 | the expiry raises exactly if a fragment of a subscribed stream cannot be read, or is expired and cannot be removed; it deletes only expired fragments, and all of them unless it raises |
| PruningOutcomes.ExpiryMeans | src/concertpvr/buffer.py:32-42 | exactly the fragments older than their subscription's days, of 86400 seconds each, go, unless an unreadable or undeletable one is in the way |
| PruningOutcomes.ExpiryGoesInOrder | src/concertpvr/retention.py:31-32 | however the expiry ends, a fragment is gone exactly if it was too old for a subscription with nothing in the way in an earlier pass, nor at an earlier path in that one |
| PruningOutcomes.FullDiskIsPruned | src/concertpvr/retention.py:35-41 | a disk with less than a twentieth free after the expiry is pruned to a tenth, if auto-prune is on and no fragment is in the way |
| PruningSpec.OneStuckFragmentBlocksPruning | src/concertpvr/retention.py:31-41 | such a fragment ends the job before it looks at a full disk |
| PruningSpec.UnreadableFragmentBlocksPruning | src/concertpvr/buffer.py:44-53 | a fragment that cannot be read, of whatever stream, keeps the job from removing anything but expired fragments |
| PruningSpec.JobSettles | src/concertpvr/retention.py:24-45 | running the whole job again at once changes nothing, however it ended |
| PruningSpec.JobConserves | src/concertpvr/buffer.py:60-77 | over the whole job, bytes in files plus free bytes stay the same |
| Pruning.BufferManager.PruneOlderThan | src/concertpvr/buffer.py:32-42 | the loop removes what the specification says and returns its bytes, or stops at the first file it cannot read or remove |
| Pruning.BufferManager.PruneOldestUntilFree | src/concertpvr/buffer.py:55-77 | nothing with enough space, an exception if the listing meets an unreadable file, else exactly the specified prefix and its bytes |
| Pruning.BufferManager.Prune | src/concertpvr/retention.py:24-45 | one run of the job |
| StableSort.SortedFacts | src/concertpvr/api/channel_watchers.py:284-308 | sorted(): ascending, a permutation, and in the old order among equal keys |
| StableSort.StableOrderIsUnique | src/concertpvr/api/channel_watchers.py:284-308 | no other list is ascending and keeps the order per key |
| BacklogBrowse.RankIsLexical | src/concertpvr/api/channel_watchers.py:285-286 | the numeric date key orders dates as strings of one length compare |
| BacklogBrowse.SortsByCount | src/concertpvr/api/channel_watchers.py:294-307 | higher counts first; an uncounted item ranks as one with the count -1 |
| BacklogBrowse.SortsByDateAndDuration | src/concertpvr/api/channel_watchers.py:285-293 | undated before dated, earlier before later dates, longer before shorter durations |
| BacklogBrowse.SortsAreStable | src/concertpvr/api/channel_watchers.py:284-308 | each mode yields the one stable permutation of the cached list |
| BacklogBrowse.TiesKeepTheCachedOrder | src/concertpvr/api/channel_watchers.py:284-308 | items with one view count, like count, duration or date stay in the cached order under the sort by it, and newest-first keeps the whole list |
| BacklogBrowse.MatchingMeans | src/concertpvr/api/channel_watchers.py:279-282 | with a query, exactly the items whose lower-cased title has the lower-cased query in it |
| BacklogBrowse.PagesAreAPrefix | src/concertpvr/api/channel_watchers.py:310-310 | the first n pages are the first n times limit items of the filtered, sorted list |
| BacklogBrowse.EmptyPageIsTheEnd | frontend/src/components/BacklogBrowser.tsx:225-237 | a page is empty exactly when the pages before it hold everything |
| BacklogBrowse.PagesReassemble | frontend/src/components/BacklogBrowser.tsx:225-244 | all pages together hold each matching item exactly once, and filtering on the server before paging equals filtering in the browser after it |
| BacklogCancel.Backlog.CancelDownloads | src/concertpvr/api/channel_watchers.py:380-428 | exactly the vod_queued recordings of the listed videos go, a stream goes with its last recording and is reported once, and no stream of a reported video is left for the queue clean-up to find |
| BacklogCancel.ToCancelMeans | src/concertpvr/vod_queue.py:117-135 | what that clean-up would find: the least queued or downloading recording of the video's stream |
| SetlistText.MatchRestIsComplete | src/concertpvr/setlist_parser.py:20-28 | whatever the pattern can read after the artist, the left-to-right matcher reads, in the only possible way |
| SetlistRoundTrip.MatchLineMeans | src/concertpvr/setlist_parser.py:20-28 | the matcher's answer is exactly the pattern's: an artist and a reading of the rest, with no shorter artist leaving a readable rest |
| SetlistRoundTrip.TimeRoundTrip | frontend/src/pages/PostDownloadReview.tsx:21-29 | a formatted time reads back as itself, of any length; negative times as zero |
| SetlistRoundTrip.ClockIff | frontend/src/pages/PostDownloadReview.tsx:21-29 | a formatted time has the parser's shape exactly below a hundred hours |
| SetlistRoundTrip.PrintedLineParses | src/concertpvr/setlist_parser.py:44-57 | a printed line with a good artist is read back exactly when both times are below a hundred hours |
| SetlistRoundTrip.ParseSetlistPaste | src/concertpvr/setlist_parser.py:42-58 | the loop over the lines is the recursive specification, first error included |
| SetlistRoundTrip.SetlistRoundTrips | src/concertpvr/setlist_parser.py:42-58 | printing and pasting back returns the same entries exactly when every artist is a non-empty trimmed single line not starting with a hash and every time is within 0 to 99:59:59 |
| SetlistRoundTrip.DecoratedSetlistIsRead | src/concertpvr/setlist_parser.py:42-58 | with blank lines and comments anywhere among its lines, a printed setlist of good entries is read as those entries |
| SetlistRoundTrip.IgnoredLinesAreHarmless | src/concertpvr/setlist_parser.py:42-46 | lines that are white space, or a hash after white space, make no difference to the outcome of any paste |
| SetlistRoundTrip.FirstBadLineIsTheError | src/concertpvr/setlist_parser.py:44-50 | a paste is read exactly if each line is ignored or can be read, and else the first that cannot is the error |
| SetlistNotations.HandwrittenLineIsRead | src/concertpvr/setlist_parser.py:20-39 | an artist without separators in the name, a middle dot or hyphen, two times with or without hours, an en dash, hyphen or "to" between them, any white space: read as that artist and those seconds |
| SetlistStamps.MatchStampMeans | src/concertpvr/setlist_detector.py:30-43 | the scan's answer is exactly the timestamp pattern's: all readings of a line share their head, and of the bodies it returns the one tried first, longest gap and then shortest title |
| StampRoundTrip.StampsRoundTrip | src/concertpvr/setlist_detector.py:57-70 | entries printed as timestamped lines are the ones extracted exactly when every time is below a hundred hours and every title is trimmed, short enough, on one line, without a closing mark and without a leading gap |
| SetlistNotations.HandwrittenStampIsRead | src/concertpvr/setlist_detector.py:30-70 | a time of two or three numbers, perhaps in brackets, any filler of white space, dashes, dots and bullets, a title, closing marks: the entry is that time and title, unless minutes or seconds exceed 59 or the title 200 characters |
| StampRoundTrip.PrintedSetlistIsDetected | src/concertpvr/setlist_detector.py:90-103 | at least two such entries in order are detected, and whatever is detected is all of them |
| SetlistDetector.TimesAreReadable | src/concertpvr/setlist_detector.py:46-54 | a timestamp is accepted exactly when minutes and seconds are below 60, and its parts can be read off the result |
| SetlistDetector.ExtractEntries | src/concertpvr/setlist_detector.py:57-70 | the loop yields the entries of the text's lines, in order |
| SetlistDetector.LongestContiguousBlock | src/concertpvr/setlist_detector.py:73-87 | the block is a slice in order, no other such slice is longer, and none as long starts earlier |
| SetlistDetector.LongestRunIsUnique | src/concertpvr/setlist_detector.py:73-87 | that determines the block |
| SetlistDetector.DetectInDescription | src/concertpvr/setlist_detector.py:90-103 | a setlist is found exactly when two adjacent entries are in order, and it is the longest run |
| SetlistDetector.DetectInComments | src/concertpvr/setlist_detector.py:125-146 | the first of the twenty best comments that holds a setlist is the one used, and nothing is found only if none does |
| SetlistDetector.CandidatesAreRanked | src/concertpvr/setlist_detector.py:128-132 | no comment is lost or repeated; pinned ones come first, then by falling likes |
| SetlistDetector.TiesKeepTheirOrder | src/concertpvr/setlist_detector.py:128-132 | pinned comments, and unpinned ones with equally many likes, are tried in the order in which they came |
| SetlistDetector.BestCommentWins | src/concertpvr/setlist_detector.py:133-145 | with at most twenty comments, no comment with a setlist is ranked before the one chosen |
| RangeStream.HeaderRoundTrip | src/concertpvr/api/recordings.py:122-170 | a header that names a range is understood as that range, and a list of ranges as its first |
| RangeStream.RespondMeans | src/concertpvr/api/recordings.py:163-196 | no header or an empty one gets the whole file; a header is malformed exactly if no number, dash and optional number follow "bytes=" in it; and every other answer is determined by those numbers and the size |
| RangeStream.SuffixRangesAreRefused | src/concertpvr/api/recordings.py:122-167 | a request for the last n bytes is never understood, so it is answered as malformed |
| RangeStream.StreamFile | src/concertpvr/api/recordings.py:126-135 | whatever short but non-empty reads return, the chunks join to exactly the slice, and none is empty or above one mebibyte |
| RangeStream.DeclaredLengthIff | src/concertpvr/api/recordings.py:163-196 | the declared length is the body's exactly when the range does not end more than one byte before it starts; whole files are always declared right |
| RangeStream.AcceptedRangeIsExact | src/concertpvr/api/recordings.py:170-186 | an accepted range in order gets exactly its bytes and its own numbers |
| RangeStream.AgreesWithTheStandardIff | src/concertpvr/api/recordings.py:170-186 | for a single range with a first position, in order, the response is the one section 14.1.2 of RFC 9110 selects exactly unless the range starts inside the file and names an end outside |
| RangeStream.AdjacentRangesReassemble | src/concertpvr/api/recordings.py:163-186 | however a file is cut into adjacent ranges, fetching them by their headers and joining the bodies gives the file |

## Left out

- VodQueueLiveness.EveryEntryIsTaken: is about runs without a stop or restart; the publishes of a finished download are as many as it has segments, so they are counted apart.
- BacklogResume.CallsAddUp: for distinct video ids and probes that return a count; an entry whose probe fails is probed again by the next refresh.
- VodQueueRuns.MessagesFollowFailures: starts from a database in which it holds; complete and cancelled rows may carry any message, as finalizing a failed recording leaves one.
- VodQueueRuns.FinalStatusesAreFinal: the finalize endpoint is not modelled; it sets any row to complete.
- VodQueueRuns.DownloadingCancelHits: a process that ignores SIGTERM is not distinguished; the step system lets it end with any exit code.
- BacklogRefreshSpec.InterruptionsLeaveNoTrace: covers one refresh of a watcher at a time, with one upload list and a deterministic probe; two at once, a browse in between, and a cache row or watcher deleted meanwhile are not modelled.
- BacklogRefreshSpec.ProgressNeverFalls: percentages are exact fractions rounded down, not floating-point numbers.
- BacklogRefresh.BacklogCache.FetchWithViews: probes do not raise and answer for the id they were asked about; a missing count and a null count are one value.
- ChannelPollerSpec.PollIsForwardOnly: dates are day numbers, and the regular expression search, lower-casing and artist extraction are parameters.
- ChannelPoller.Poller.CheckForNewUploads: what other code enqueues during the probes is not in the modelled queue.
- PruningSpec.TargetHoldsOffTheNextRunIff: the two ratios are exact, not floating-point.
- Pruning.BufferManager.Prune: nothing else writes to the disk during the job, the clock is read once, disk usage can be read throughout or not at all, and whether a file can be read or removed does not change meanwhile.
- RecorderPool.Pool.StartRecorder: recorder objects are values in a dictionary, so two names for one recorder are two equal keys; the progress polling is not modelled.
- BacklogBrowse.PagesReassemble: the cached list does not change between the pages, and server and browser lower-case alike.
- RangeStream.AgreesWithTheStandardIff: is about single ranges with a first position; suffix ranges and lists of ranges are covered by RangeStream.SuffixRangesAreRefused and RangeStream.HeaderRoundTrip, and what else follows a range in the header is ignored.
- RangeStream.StreamFile: the file does not change between its size being read and its bytes; media types and missing files are not modelled.
- Chapters as a setlist source, the review page's own parser of pasted timestamps, and the display state of backlog items: each is one pass over a list without state or error paths of its own.
- Failures in the middle of an ingest loop, which leave committed rows without an entry in the queue until the next restart.
- Reuse of recording ids after a deletion, and database sessions that fail to commit.
- yt-dlp, ffmpeg, ffprobe, Emby and the file system: their outcomes are arbitrary parameters.
- The live-broadcast half of the channel poll, schedules, authentication, settings, posters, NFO files and the user interface.
