# Verified models of the telemetry platform's core protocols

This project models, in Dafny, the parts of the platform whose correctness spans several
functions or a whole run, and proves what they promise. Methods that update state in place are
written as classes and loops and proved against functions on values; the promises themselves
are lemmas about those functions and about every run of them.

* **Agent disk buffer and delivery** (`Lines`, `LineFormat`, `SegmentQueue`, `ClassQueue`,
  `Replay`, `ClassReader`, `BufferModel`, `DiskBuffer`, `Ordering`, `Recovery`, `CommitGap`,
  `Delivery`, `AgentRun`, `AgentLife`, `CommitLoss`, `ShedOrder`,
  `SegmentLimit`). Three class queues of append-only segments, a lazy merge by global
  sequence number, two-phase consumption, shedding of whole segments, drop counters, recovery
  from disk. A read returns exactly the longest oldest-first prefix within both limits; a commit
  leaves exactly the rest. From any buffer an agent can open, over every legal run, each event is
  delivered, counted as dropped, or pending; a crash anywhere, also between two deletions of a
  commit or of the shedding, keeps everything pending, in order. Over any number of runs, each cut
  off by a crash, what one run finds pending are the last lines the run before had stored, and
  every line ever stored was delivered, was shed, or is pending at the end. When the buffer is full,
  network activity is shed first and authentication last. `commit` works from counts alone, so an
  answer keeps the books exactly when no segment of a class the batch took from was shed after the read. Two
  runs are exhibited that arriving events bring about: one loses an event while the totals still
  agree, in the other the totals come apart as well.
* **Asset identity** (`AssetIdentity`, `AssetStore`, `AssetHistory`, `AssetCorrections`,
  `AssetMatching`, `AssetRequests`).
  Observations, enrolments, merges and splits as transactions on identifiers, pins, assets and
  devices. Re-delivery of an observation has no further effect, at any later time; no observation
  gives an asset a second device; pins, bindings and survivor pointers stay consistent over every
  history, with one exception that is characterised exactly: a merge request that names its
  survivor twice in two spellings (the request only removes equal texts, and a UUID has several)
  merges the asset into itself.
* **Stream consumer** (`StreamGroup`, `StreamSafety`, `StreamRuns`, `StreamLateCall`,
  `StreamDeadLetters`, `StreamConsumer`). Several consumers, each call a step, crashes between any two. Nothing is
  lost, nothing is acknowledged before it was handled or dead-lettered, and the handler is called
  at most max(1, attempts - 1) times apart from calls whose delivery count was read after the
  entry had been acknowledged by another consumer. Such a late call is possible, because claim and
  count are two calls. The bound without that exception holds exactly for a limit of at most one
  attempt (or if nothing is read, or if claim and count were one step): for every larger limit a
  run exceeds it. The module comment of `consumer.py` says an entry is
  dead-lettered after `max_delivery_attempts`; the code dead-letters on the claim that reaches the
  limit, so the handler runs once less.
* **Rule compiler** (`RuleTree`, `RuleLaws`, `RuleDocuments`, `RuleCompiler`). Compilation to closures, with
  folding at compile time and a mutable leaf counter, accepts exactly the valid trees within the
  bounds, and the closure means what the document says, timeouts and short-circuiting included.
  `rules/FORMAT.md` also forbids possessive groups; the compiler leaves these to the engine.
* **Quotas** (`QuotaCounter`, `QuotaWindow`, `QuotaBound`, `QuotaExact`, `QuotaService`). The
  decrement-and-compensate fallback refines the atomic script under any interleaving; the bucketed
  window admits at most the limit in any ten buckets for serial callers, plus one batch for each
  further caller between check and increment, and this bound is reached. The window is documented
  as 60 seconds; the limit holds between two times exactly when they lie within ten buckets, so
  always within 54 seconds, never from 60 on, and in between depending on where the first time
  falls in its bucket.
* **Provisioning saga** (`SagaState`, `SagaRunner`). Every statement commits on its own and the
  process may stop before any of them. Steps marked done form a prefix, an active tenant has its
  first five steps done, a succeeded saga all six, and each run executes a step at most as often as
  it has attempts left. A terminal saga keeps its status, but starting it again can still give it a
  tenant; exactly when is proved. The module comment of `saga.py` says that a terminal failure
  gives the tenant the status `provisioning_failed`; the code marks the saga first and the tenant
  in a later statement, and resumes running sagas only. A failed saga's tenant lacks its mark, for
  good, exactly when a failing run stopped one statement before its end, when such a run's saga had
  not recorded the account's tenant, or when a later start inserted one. It may even be active.
* **Alert paging** (`AlertPaging`). In all four sorts, with any page sizes, following the cursors
  yields every row that passes the filters exactly once, in order.

`Basics` holds small shared definitions. `dafny verify dfyconfig.toml` checks the project.

## Model

| member | source | states |
|---|---|---|
| Lines.TruncateKeepsLines | agent/collector-core/src/buffer.rs:581-590 | truncation cuts exactly the torn tail and keeps every complete line |
| Lines.SeekDropsLines | agent/collector-core/src/buffer.rs:509-515 | seeking past the bytes of the first k lines leaves exactly the other lines |
| LineFormat.ParseInvertsFormat | agent/collector-core/src/buffer.rs:546-555 | parsing inverts the line format for every sequence number of 64 bits, and a formatted event is one line |
| LineFormat.SegmentNameOrder | agent/collector-core/src/buffer.rs:126-159 | sorting segment names is sorting by sequence number, both ways, and names are distinct |
| SegmentQueue.AppendAddsLine | agent/collector-core/src/buffer.rs:157-185 | an append, with or without rotation, adds one pending line at the end and its length to the bytes |
| SegmentQueue.DropFrontRemovesOldest | agent/collector-core/src/buffer.rs:210-224 | shedding removes exactly the oldest segment and reports its pending entries and its bytes; nothing on an empty queue |
| SegmentQueue.ReclaimExact | agent/collector-core/src/buffer.rs:232-256 | the reclaiming loop keeps every pending line and deletes only fully consumed segments, freeing their bytes |
| SegmentQueue.AdvanceExact | agent/collector-core/src/buffer.rs:228-258 | committing a prefix that was read leaves exactly the other pending lines |
| ClassQueueModule.ClassQueue.constructor | agent/collector-core/src/buffer.rs:142-154 | a recovered queue has nothing active and nothing consumed |
| ClassQueueModule.ClassQueue.Append | agent/collector-core/src/buffer.rs:157-174 | the fields after an append are those of the specification |
| ClassQueueModule.ClassQueue.Rotate | agent/collector-core/src/buffer.rs:176-185 | a non-empty active segment becomes the last closed one, an empty one vanishes |
| ClassQueueModule.ClassQueue.DropFront | agent/collector-core/src/buffer.rs:210-224 | the fields and the report after shedding the oldest segment |
| ClassQueueModule.ClassQueue.Advance | agent/collector-core/src/buffer.rs:228-258 | the loop computes the specified reclaiming and the bytes freed |
| ClassQueueModule.ClassQueue.PendingEntries | agent/collector-core/src/buffer.rs:187-191 | the counters give the number of pending lines |
| ClassQueueModule.ClassQueue.FileSnapshot | agent/collector-core/src/buffer.rs:194-206 | the readable files are those of all segments, front to active |
| ClassReaderModule.ReaderSeesPending | agent/collector-core/src/buffer.rs:372-375 | a reader that skips the consumed bytes sees exactly the pending lines |
| ClassReaderModule.ClassReader.constructor | agent/collector-core/src/buffer.rs:472-483 | a fresh reader has all readable lines ahead |
| ClassReaderModule.ClassReader.ReadNext | agent/collector-core/src/buffer.rs:503-543 | the next line that parses, over file ends and torn lines; lines that do not parse are counted as skipped with their bytes |
| ClassReaderModule.ClassReader.Peek | agent/collector-core/src/buffer.rs:485-490 | peeking consumes nothing and finds nothing exactly when nothing is ahead |
| ClassReaderModule.ClassReader.TakeWithSkipped | agent/collector-core/src/buffer.rs:492-501 | taking consumes the first item together with what was skipped before it |
| Replay.ItemsDrop | agent/collector-core/src/buffer.rs:397-404 | the entries and bytes of the first j items of a class, skipped lines included, are those of a prefix of its lines, and the rest reads as the other items |
| Replay.MergeKeepsClasses | agent/collector-core/src/buffer.rs:378-388 | the merge neither loses, duplicates nor reorders anything of any class |
| Replay.MergeAscends | agent/collector-core/src/buffer.rs:369-388 | sorted classes with unique sequence numbers merge into one strictly ascending sequence |
| Replay.AfterIsRest | agent/collector-core/src/buffer.rs:377-405 | taking n items takes a prefix of every class, and what is left merges to the rest |
| Replay.StopsAtFirstMisfit | agent/collector-core/src/buffer.rs:389-395 | stopping at the first item that does not fit gives the longest prefix that fits |
| BufferModel.ShedOneSpec | agent/collector-core/src/buffer.rs:350-367 | one segment goes, from the first class in priority order that has any; exactly its pending entries are counted; it fails only when everything is empty |
| BufferModel.ShedUntilSpec | agent/collector-core/src/buffer.rs:336-341 | the loop ends with room for any line that fits the buffer, its give-up branch is unreachable, and a class is shed only when the lower ones are empty |
| BufferModel.EnqueueSpec | agent/collector-core/src/buffer.rs:327-347 | an event is refused and counted exactly when larger than the whole buffer; otherwise it becomes the last pending line of its class, and the cap holds |
| ShedOrder.EnqueueByClass | agent/collector-core/src/buffer.rs:327-347 | a network, process or authentication event becomes the last pending line of its own class, kept in that order; refusals and shed lines count in the class they are of |
| ShedOrder.DropsAreNamed | agent/collector-core/src/buffer.rs:60-88 | the next heartbeat gives each refusal and each shed line under the name of its class |
| ShedOrder.LowestFirst | agent/collector-core/src/model.rs:34-42 | over every run: no authentication line is shed while a line of network or process activity is stored, and none of process activity while one of network activity is, but for the line just stored |
| SegmentLimit.AppendRotates | agent/collector-core/src/buffer.rs:157-185 | an append closes the active segment exactly when it has reached the limit |
| SegmentLimit.SegmentsStayBelow | agent/collector-core/src/buffer.rs:157-258 | over every run, legal or not, the active segment of every class is below the limit |
| BufferModel.CommitTakenSpec | agent/collector-core/src/buffer.rs:416-423 | committing prefixes of the classes removes exactly them, whole segments only, and keeps the byte count exact |
| BufferModel.CommitSpec | agent/collector-core/src/buffer.rs:371-423 | committing the first n events of the merged backlog leaves exactly the others, in order |
| DiskBufferModule.PickReader | agent/collector-core/src/buffer.rs:379-388 | the reader whose next entry has the least sequence number |
| DiskBufferModule.TakeFrom | agent/collector-core/src/buffer.rs:396-404 | taking from a reader pops its stream and accounts for what was skipped |
| DiskBufferModule.FillBatch | agent/collector-core/src/buffer.rs:377-405 | the lazy merge loop collects the longest prefix of the merged streams within both limits |
| DiskBufferModule.DiskBuffer.constructor | agent/collector-core/src/buffer.rs:316-322 | the buffer over recovered queues continues after the largest sequence number |
| DiskBufferModule.DiskBuffer.Enqueue | agent/collector-core/src/buffer.rs:327-347 | the state after an event arrives, the shedding loop terminating and never giving up |
| DiskBufferModule.DiskBuffer.ShedOne | agent/collector-core/src/buffer.rs:350-367 | the state and the answer after shedding in priority order |
| DiskBufferModule.DiskBuffer.NextBatch | agent/collector-core/src/buffer.rs:371-412 | the batch is the longest prefix of the backlog with at most so many events and bytes, and nothing is consumed |
| DiskBufferModule.DiskBuffer.Commit | agent/collector-core/src/buffer.rs:416-423 | the state after advancing every class by what the batch took |
| DiskBufferModule.DiskBuffer.PendingEvents | agent/collector-core/src/buffer.rs:429-431 | the number of pending lines of all classes |
| DiskBufferModule.DiskBuffer.TakeDropDelta | agent/collector-core/src/buffer.rs:76-87 | per class the drops not yet reported, which are then reported |
| Ordering.EnqueueKeepsTidy | agent/collector-core/src/buffer.rs:327-347 | stored lines stay sorted by sequence number, distinct across classes, in segments named by their first number |
| Ordering.CommitKeepsTidy | agent/collector-core/src/buffer.rs:416-423 | a commit keeps that order |
| Ordering.BacklogIsSortedPending | agent/collector-core/src/buffer.rs:369-405 | the backlog is all pending events of the three classes, one a line, strictly ascending in the global sequence |
| Recovery.ScanSegment | agent/collector-core/src/buffer.rs:558-578 | entries, bytes and largest sequence number of a segment file |
| Recovery.SortedNamesSort | agent/collector-core/src/buffer.rs:116-126 | only segment files are listed, each once, in ascending order of their names |
| Recovery.OpenClass | agent/collector-core/src/buffer.rs:113-155 | the recovered queue, its bytes and its largest sequence number |
| Recovery.OpenBuffer | agent/collector-core/src/buffer.rs:297-323 | the reopened buffer as a function of what is on disk |
| Recovery.RecoverExact | agent/collector-core/src/buffer.rs:113-155 | whatever the listing's order, foreign files or the point where the last write was cut, exactly the whole segments come back |
| Recovery.ReopenExact | agent/collector-core/src/buffer.rs:297-323 | after a crash anywhere every class holds exactly its surviving lines, the byte count is right, and the next sequence number is above all of them |
| Recovery.ReopenKeepsPending | agent/collector-core/src/buffer.rs:295-323 | after a crash outside a deletion everything pending comes back in order, preceded only by the consumed lines of a front segment that has others |
| Recovery.DeletedWereConsumed | agent/collector-core/src/buffer.rs:228-258 | however many of its deletions a commit has made, only consumed and committed lines are gone |
| Recovery.CrashInCommit | agent/collector-core/src/buffer.rs:416-423 | a crash between any two deletions of a commit, and a reopening, give every class a tail of consumed and committed lines followed by exactly what the commit was to leave |
| CommitGap.CommitExactIffNotShed | agent/collector-core/src/delivery.rs:93-139 | the commit is exact if and only if nothing of the class was shed between reading and committing |
| Delivery.BuildBody | agent/collector-core/src/delivery.rs:106-114 | the body wraps the serialized events, separated by commas |
| Delivery.FitsMeans | agent/collector-core/src/buffer.rs:389-395 | a batch fits if it has few enough events and their texts, with a comma after each, are short enough; one event always fits |
| Delivery.BodyWithinLimit | agent/collector-core/src/delivery.rs:86-114 | the body exceeds the server's limit exactly when it is one event that does so alone |
| Delivery.Deliverer.constructor | agent/collector-core/src/delivery.rs:74-82 | the configured event cap is clamped |
| Delivery.Deliverer.Begin | agent/collector-core/src/delivery.rs:86-103 | what is read under the lock, and that reading consumes nothing |
| Delivery.Deliverer.Finish | agent/collector-core/src/delivery.rs:134-188 | for each status code: 200 to 299 commits the buffer and nothing else touches it; 413 alone halves the cap, never below one; 401 with DEVICE_REVOKED alone stops, and all else backs off |
| Delivery.Deliverer.DeliverOnce | agent/collector-core/src/delivery.rs:85-189 | one whole attempt, with any events arriving while the buffer is unlocked |
| AgentRun.StepKeeps | agent/collector-core/src/delivery.rs:85-189 | every arrival, read, answer and heartbeat keeps the buffer's invariant, the cap and the books |
| AgentRun.AnswerKeepsBooksIffClean | agent/collector-core/src/delivery.rs:93-139 | an answer keeps the books if and only if it commits no batch that took from a class shed since the read |
| AgentRun.RunKeeps | agent/agentd/src/main.rs:254-284 | so does every run, from any state with the invariant, in which no commit follows a shed of a class its batch took from |
| AgentRun.Conservation | agent/collector-core/src/buffer.rs:71-88 | from any buffer that can be opened, per class: events pending at the start or offered = delivered in accepted batches + counted as dropped + pending, the lines leave in order, and reported deltas plus the next one are all drops |
| AgentRun.ReadIsOldestFirst | agent/collector-core/src/buffer.rs:371-412 | in every state reachable from any buffer that can be opened, the files fit the cap if they did at the start, and a read takes exactly the longest oldest-first prefix |
| AgentLife.LoopEnds | agent/collector-core/src/buffer.rs:336-341 | the buffers a crash can find while room is being made are the states of the shedding loop, which ends in one of them |
| AgentLife.RunKeepsLast | agent/collector-core/src/buffer.rs:157-258 | over every legal run the lines on disk are the last ones stored, in order: deletions only ever take the oldest |
| AgentLife.CrashSurvived | agent/collector-core/src/buffer.rs:297-423 | after a crash at rest, in the shedding or in a commit, everything pending that the step cut off had not shed or delivered is pending again, in order |
| AgentLife.ConservationAfterCrash | agent/collector-core/src/buffer.rs:297-323 | the same from any state with the invariant, and conservation over every legal run that follows |
| AgentLife.AtLeastOnce | agent/collector-core/src/delivery.rs:85-189 | over any number of sessions, each ended by a crash: every line a session had pending or stored left in it, delivered or shed, or is pending for the next one and accounted for from there |
| AgentLife.NothingLostOrInvented | agent/collector-core/src/delivery.rs:85-189 | in every session of a life: that account for each of its lines, its conservation, and that the next session finds pending exactly the last lines stored, short of no other than those that left |
| CommitLoss.LosesAnEvent | agent/agentd/src/main.rs:261-268 | with a buffer for two lines in segments of their own: an event arriving during the POST sheds what was read, and the accepted batch then deletes the second event, which is neither delivered nor counted |
| CommitLoss.CountsTooMany | agent/agentd/src/main.rs:261-268 | with both events in one segment: three events offered, two counted as delivered and two as dropped, and the third gone |
| AssetStoreModule.AssetStore.AnyDevice | services/dataplane/src/dataplane/workers/asset_dedup.py:72-77 | some device bound to the asset, whichever the database returns, or none if there is none |
| AssetStoreModule.AssetStore.ResolveAsset | services/dataplane/src/dataplane/workers/asset_dedup.py:211-245 | the loop finds the asset the specification names, whatever the unordered lookup returned |
| AssetStoreModule.AssetStore.LookupIsImmaterial | services/dataplane/src/dataplane/workers/asset_dedup.py:236-243 | with the observed device unbound, the check fails for the device returned exactly when it fails for some device on the asset |
| AssetStoreModule.AssetStore.BindIdentities | services/dataplane/src/dataplane/workers/asset_dedup.py:266-295 | exactly the unbound identifiers that are not pinned elsewhere are bound |
| AssetStoreModule.AssetStore.Handle | services/dataplane/src/dataplane/workers/asset_dedup.py:152-208 | the tables after one observation |
| AssetStoreModule.AssetStore.EnrollDevice | services/dataplane/src/dataplane/api/enrollment.py:305-329 | the three rows of an enrolment, or a conflict and no change |
| AssetStoreModule.AssetStore.ParseIds | services/dataplane/src/dataplane/api/assets.py:343-351 | all ids, or nothing if one text is none |
| AssetStoreModule.AssetStore.CheckActive | services/dataplane/src/dataplane/api/assets.py:240-249 | the first id that is unknown or merged away decides the error |
| AssetStoreModule.AssetStore.PinAll | services/dataplane/src/dataplane/api/assets.py:256-271 | every moved identifier is pinned to its new asset, in any order |
| AssetStoreModule.AssetStore.MergeAssets | services/dataplane/src/dataplane/api/assets.py:230-302 | the tables after a merge, or the error and no change |
| AssetStoreModule.AssetStore.SplitAsset | services/dataplane/src/dataplane/api/assets.py:340-424 | the tables after a split, or the error and no change |
| AssetHistory.ApplyKeepsCoherent | services/dataplane/src/dataplane/api/assets.py:250-271 | after every transaction without exception a pinned identifier is bound to its pinned asset, and bindings point to existing assets |
| AssetHistory.IdentifiersKept | services/dataplane/src/dataplane/workers/asset_dedup.py:103-111 | no transaction forgets an identifier, merge and split keep the set of them, and an observation rebinds none |
| AssetHistory.ReplayChangesNothing | services/dataplane/src/dataplane/workers/asset_dedup.py:178-206 | processing an observation again, after any further transactions, changes no binding, pin or device and creates no asset |
| AssetHistory.AgentIdentityWins | services/dataplane/src/dataplane/workers/asset_dedup.py:222-245 | an observation from a device goes to that device's asset or to one without any device |
| AssetMatching.FieldsYield | services/dataplane/src/dataplane/workers/asset_dedup.py:135-144 | which identifiers the fields of an observation give |
| AssetMatching.ObservationGoesTo | services/dataplane/src/dataplane/workers/asset_dedup.py:159-310 | where an observation goes and all it changes: to its device's asset; else to that of host name and system; else to that of the hardware address, unless another device is bound there; else to a new one. Only unbound identifiers are bound, and only the time seen moves |
| AssetMatching.EnrolledIsKnown | services/dataplane/src/dataplane/api/enrollment.py:305-329 | exactly when an enrolment is refused, its new rows, and that ever after the device's row is there and what it reports goes to the asset it is bound to |
| AssetHistory.NoSecondDevice | services/dataplane/src/dataplane/workers/asset_dedup.py:222-295 | an observation leaves an asset's devices as they were or gives a first device to an asset that had none |
| AssetCorrections.EmptyIsConsistent | db/migrations/0004_tenantdata_core.sql:68-83 | histories can start from empty tables |
| AssetCorrections.MergeKeepsIffApart | services/dataplane/src/dataplane/api/assets.py:230-302 | a merge keeps the tables consistent if and only if the survivor is not listed again among the others |
| AssetCorrections.SelfMergeBreaks | services/dataplane/src/dataplane/api/assets.py:230-233 | two spellings of one id are accepted and merge the asset into itself |
| AssetCorrections.ApplyKeeps | services/dataplane/src/dataplane/api/assets.py:244-302 | every transaction keeps the tables consistent and leaves merged assets' rows untouched, merges that name their survivor twice excepted |
| AssetCorrections.RunKeeps | services/dataplane/src/dataplane/api/assets.py:233-424 | over every such history pins hold, bindings point to active assets, devices agree with their identities, every survivor chain ends at an active asset, and a merged asset never changes |
| AssetCorrections.SplitUndoesMerge | services/dataplane/src/dataplane/api/assets.py:348-419 | splitting out exactly what a merge moved restores the grouping of identifiers and of devices |
| AssetCorrections.SplitAcceptsIff | services/dataplane/src/dataplane/api/assets.py:349-367 | a split goes through exactly for distinct rows of one active asset |
| AssetRequests.MergeAcceptsIff | services/dataplane/src/dataplane/api/assets.py:223-248 | a merge is accepted exactly for 2 to 50 texts, not all the same, of active assets |
| AssetRequests.MergeMovesNamed | services/dataplane/src/dataplane/api/assets.py:249-300 | if no second text names the survivor, every identifier and device of the assets named after the first goes to the first's, is pinned there, and those assets point to it; it was last seen when the latest of them was; nothing else changes |
| AssetRequests.SplitMovesNamed | services/dataplane/src/dataplane/api/assets.py:330-424 | exactly the identifiers named move to a new active asset, are pinned there, and take their devices along; nothing else changes |
| StreamSafety.ApplyKeeps | packages/pipeline/src/soc_pipeline/consumer.py:106-266 | every step of every consumer keeps the invariant of the group |
| StreamSafety.RunKeeps | packages/pipeline/src/soc_pipeline/consumer.py:162-172 | the invariant holds after every interleaving of consumers and crashes |
| StreamSafety.NothingIsLost | packages/pipeline/src/soc_pipeline/consumer.py:106-160 | every entry is in exactly one of undelivered, pending and acknowledged, and an acknowledged one was handled or dead-lettered |
| StreamDeadLetters.HandlerSeesWellFormed | packages/pipeline/src/soc_pipeline/consumer.py:143-266 | over every run the handler is called and returns for well-formed entries only, and a dead-lettered entry is malformed or was delivered as often as the limit |
| StreamSafety.CallsAreDeliveries | packages/pipeline/src/soc_pipeline/consumer.py:239-243 | timely handler calls correspond one to one to deliveries |
| StreamSafety.CallsAreBounded | packages/pipeline/src/soc_pipeline/consumer.py:140-181 | handler calls are at most max(1, attempts - 1) plus late ones; there are no late ones before the acknowledgement, nor if claim and count are one step or the limit is one attempt |
| StreamSafety.ClaimsUseUpAttempts | packages/pipeline/src/soc_pipeline/consumer.py:129-144 | each claim adds one to an entry's count and nothing else does, until the acknowledgement |
| StreamRuns.Ended | packages/pipeline/src/soc_pipeline/consumer.py:145-156 | a consumer that finds the limit reached dead-letters and acknowledges |
| StreamRuns.LastClaimDeadLetters | packages/pipeline/src/soc_pipeline/consumer.py:140-160 | from any reachable state the claim that uses up the attempts ends the entry without a handler call |
| StreamLateCall.LateCallPossible | packages/pipeline/src/soc_pipeline/consumer.py:174-181 | one claim before the limit two consumers can end an entry and call its handler once more |
| StreamLateCall.BoundCanBeExceeded | packages/pipeline/src/soc_pipeline/consumer.py:144-158 | for every limit of two or more, a run that calls the handler once too often |
| StreamLateCall.BoundedExactlyWhen | packages/pipeline/src/soc_pipeline/consumer.py:140-181 | every run keeps to max(1, attempts - 1) calls if and only if claim and count are one step, the limit is at most one, or nothing is read |
| StreamConsumerModule.StreamConsumer.ToDeadLetter | packages/pipeline/src/soc_pipeline/consumer.py:183-208 | the entry is recorded as dead and acknowledged exactly if the callback returns, and otherwise the consumer stops |
| StreamConsumerModule.StreamConsumer.Handle | packages/pipeline/src/soc_pipeline/consumer.py:239-266 | what each behaviour of context and handler leaves behind |
| StreamConsumerModule.StreamConsumer.ProcessFirst | packages/pipeline/src/soc_pipeline/consumer.py:210-266 | the group after one entry was processed, and that the consumer goes on exactly unless the entry is dead-lettered and the callback raises |
| StreamConsumerModule.StreamConsumer.ProcessAll | packages/pipeline/src/soc_pipeline/consumer.py:116-119 | the loop over a response processes all its entries in order |
| StreamConsumerModule.StreamConsumer.PollOnce | packages/pipeline/src/soc_pipeline/consumer.py:106-120 | each entry delivered is settled by its envelope, the limit and the handler: whether it is dead-lettered, handled, acknowledged or left pending, and whether the handler is called; no other entry is touched; the consumer stops exactly if a dead-letter callback raises |
| StreamConsumerModule.StreamConsumer.ClaimStuckOnce | packages/pipeline/src/soc_pipeline/consumer.py:122-160 | each entry reclaimed is settled likewise by its raised count: malformed or at the limit, it is dead-lettered without a call |
| StreamConsumerModule.DrainSettles | packages/pipeline/src/soc_pipeline/consumer.py:116-160 | an uninterrupted consumer settles every entry it holds and touches no other |
| RuleTree.PossessiveIsInSubset | services/dataplane/src/dataplane/rulepub/compiler.py:173-186 | a pattern with a possessive quantifier passes the check of forbidden constructs |
| RuleCompiler.ResolvePath | services/dataplane/src/dataplane/rulepub/compiler.py:278-290 | the loop walks to the scalar at the path or finds none |
| RuleCompiler.StringOrList | services/dataplane/src/dataplane/rulepub/compiler.py:319-344 | accepts exactly short strings and bounded lists of them, and returns all of them |
| RuleCompiler.CheckScalars | services/dataplane/src/dataplane/rulepub/compiler.py:347-356 | accepts exactly lists of scalars |
| RuleCompiler.OpReads | services/dataplane/src/dataplane/rulepub/compiler.py:483-495 | an operator's first letter and remainder give its test and its folding |
| RuleCompiler.CompileStringOp | services/dataplane/src/dataplane/rulepub/compiler.py:483-510 | substring, prefix and suffix tests with needles folded beforehand mean any-of, folded on both sides |
| RuleCompiler.CompileIin | services/dataplane/src/dataplane/rulepub/compiler.py:527-536 | membership in the set of folded values is case-insensitive equality with one of them |
| RuleCompiler.CompileIn | services/dataplane/src/dataplane/rulepub/compiler.py:512-525 | equality with some listed scalar, without coercion |
| RuleCompiler.CompileNumeric | services/dataplane/src/dataplane/rulepub/compiler.py:538-551 | numeric comparison, on numbers only |
| RuleCompiler.CheckSubset | services/dataplane/src/dataplane/rulepub/compiler.py:388-407 | accepts exactly short patterns without forbidden constructs or backreferences that the engine takes |
| RuleCompiler.CompileOther | services/dataplane/src/dataplane/rulepub/compiler.py:466-565 | equality, membership and regex tests; every other operator is refused |
| RuleCompiler.CompileTest | services/dataplane/src/dataplane/rulepub/compiler.py:453-565 | a test is compiled exactly when operator and value are valid, and the closure has its meaning on every event |
| RuleCompiler.CompileLeaf | services/dataplane/src/dataplane/rulepub/compiler.py:437-565 | the same for a leaf, counting it |
| RuleCompiler.CompileNode | services/dataplane/src/dataplane/rulepub/compiler.py:568-618 | accepted if and only if all nodes are valid, the depth fits, and the leaves fit with those already counted; the closure has the tree's meaning |
| RuleCompiler.CompileChildren | services/dataplane/src/dataplane/rulepub/compiler.py:607-607 | the same for all children, the counter threaded through |
| RuleCompiler.CompileCondition | services/dataplane/src/dataplane/rulepub/compiler.py:756-757 | a condition is accepted exactly when every node is valid, depth at most 8 and leaves at most 64; the closure then has the meaning of the tree, and the outcome that the document states by its keys and operators |
| RuleDocuments.AllMeans | services/dataplane/src/dataplane/rulepub/compiler.py:596-613 | an `all` document matches exactly when all its children do; otherwise the first that does not gives the outcome |
| RuleDocuments.AnyMeans | services/dataplane/src/dataplane/rulepub/compiler.py:596-618 | an `any` document fails exactly when all its children do; otherwise the first that does not gives the outcome |
| RuleDocuments.NotMeans | services/dataplane/src/dataplane/rulepub/compiler.py:586-594 | a `not` document exchanges match and miss |
| RuleDocuments.TestMeans | services/dataplane/src/dataplane/rulepub/compiler.py:437-563 | what each of the operators, by its name, says of the scalar at the path |
| RuleDocuments.RegexMeans | services/dataplane/src/dataplane/rulepub/compiler.py:553-563 | a regex test has the outcome of its search, and fails on what is no string |
| RuleDocuments.TestValid | services/dataplane/src/dataplane/rulepub/compiler.py:437-565 | which values each operator takes, by its name |
| RuleDocuments.NestedValid | services/dataplane/src/dataplane/rulepub/compiler.py:568-607 | `all` and `any` take 1 to 32 valid children, `not` one |
| RuleDocuments.SizeOfNested | services/dataplane/src/dataplane/rulepub/compiler.py:568-618 | a nested document is one higher than its highest child and has the leaves of all of them |
| RuleDocuments.SplitMeans | services/dataplane/src/dataplane/rulepub/compiler.py:447 | a path is its segments with dots between them, none of which has a dot |
| RuleDocuments.TwoParts | services/dataplane/src/dataplane/rulepub/compiler.py:245-275 | which paths of two parts a rule of a class may test |
| RuleLaws.FirstDecides | services/dataplane/src/dataplane/rulepub/compiler.py:608-618 | the first child that decides, or times out, is the outcome of all and any |
| RuleLaws.MeaningKeeps | services/dataplane/src/dataplane/rulepub/compiler.py:583-618 | with every leaf under an even number of negations a match is never a miss on a richer event, and dually for odd, timeouts included |
| RuleLaws.MatchesKept | services/dataplane/src/dataplane/rulepub/compiler.py:583-618 | without timeouts, matches are kept on richer events, and dually |
| QuotaCounter.Counter.Script | services/dataplane/src/dataplane/core/quotas.py:32-41 | the script seeds, refuses at zero or below, and decrements |
| QuotaCounter.Counter.Fallback | services/dataplane/src/dataplane/core/quotas.py:143-148 | uninterrupted, the fallback changes the key and answers as the script does |
| QuotaCounter.Counter.Consume | services/dataplane/src/dataplane/core/quotas.py:106-126 | unlimited and non-positive limits leave the key alone; otherwise allowed exactly when something is left |
| QuotaCounter.CounterIsExact | services/dataplane/src/dataplane/core/quotas.py:128-148 | under every interleaving counter = limit - successes - uncompensated denials, and successes never exceed the limit |
| QuotaCounter.DeniedOnlyWhenUsedUp | services/dataplane/src/dataplane/core/quotas.py:141-148 | a caller is denied exactly when the successes have reached the limit, and is otherwise told what is left |
| QuotaCounter.FallbackRefinesScript | services/dataplane/src/dataplane/core/quotas.py:128-148 | every step of the fallback is a step of the script, or none, on the counter with denials given back, with the same answers |
| QuotaBound.WindowIsAdmitted | services/dataplane/src/dataplane/core/quotas.py:74-81 | in reachable states the ten counters add up to what was admitted in their buckets |
| QuotaBound.LivesLongEnough | services/dataplane/src/dataplane/core/quotas.py:98-101 | no counter of the current window has expired |
| QuotaBound.RunKeeps | services/dataplane/src/dataplane/core/quotas.py:83-103 | every interleaving of checks, increments, expiries, crashes and clock steps keeps the bound on all windows |
| QuotaBound.TenBuckets | services/dataplane/src/dataplane/core/quotas.py:26-28 | any ten consecutive buckets admit at most the limit plus one batch per further caller |
| QuotaBound.AnySpan | services/dataplane/src/dataplane/core/quotas.py:83-103 | any 54 seconds admit at most that, any 60 at most twice that |
| QuotaBound.SerialCallers | services/dataplane/src/dataplane/core/quotas.py:83-103 | callers one at a time never exceed the limit in 54 seconds, whatever the batch sizes |
| QuotaExact.BoundIsReached | services/dataplane/src/dataplane/core/quotas.py:83-103 | for any number of callers and any batch size up to the limit a run admits exactly the bound in ten buckets |
| QuotaExact.SpanBoundedExactlyWhen | services/dataplane/src/dataplane/core/quotas.py:83-103 | every run keeps the bound between two times if and only if they lie within ten buckets |
| QuotaExact.SerialExactlyWhen | services/dataplane/src/dataplane/core/quotas.py:26-27 | callers one at a time keep the limit between two times if and only if these lie within ten buckets, which 54 seconds always do and 60 never |
| QuotaServiceModule.QuotaService.CurrentIngestRate | services/dataplane/src/dataplane/core/quotas.py:74-81 | the sum over the ten newest buckets |
| QuotaServiceModule.QuotaService.CheckAndConsume | services/dataplane/src/dataplane/core/quotas.py:83-103 | refused exactly when window and batch exceed the limit, and otherwise a run of check, increment and expiry |
| QuotaServiceModule.MinuteCanDouble | services/dataplane/src/dataplane/core/quotas.py:26-27 | one caller can be let through with twice the limit within sixty seconds |
| SagaState.RowsEnsured | services/controlplane/src/controlplane/saga.py:83-86 | after any number of the first statements: the saga's row, and exactly the missing step rows added as pending |
| SagaState.EnsuredKeeps | services/controlplane/src/controlplane/saga.py:75-96 | wherever the start is cut off, the saga's invariant holds |
| SagaState.DoneInOrder | services/controlplane/src/controlplane/saga.py:38-45 | no step is done before the one that comes before it by name, and an active tenant has its admin user |
| SagaState.StatusKept | services/controlplane/src/controlplane/saga.py:75-96 | starting again leaves a terminal status alone |
| SagaState.TerminalUnchangedIff | services/controlplane/src/controlplane/saga.py:88-95 | starting a terminal saga again changes nothing if and only if it has a tenant recorded, or cannot get one and has all its rows |
| SagaState.StartedAfresh | services/controlplane/src/controlplane/saga.py:75-96 | a first start leaves a running saga with its tenant, the first step done and the others pending |
| SagaRunnerModule.SagaRunner.EnsureStarted | services/controlplane/src/controlplane/saga.py:75-96 | the database after exactly as many statements as the process executed, and whether it got through |
| SagaRunnerModule.SagaRunner.Execute | services/controlplane/src/controlplane/saga.py:166-232 | a step completes exactly when a tenant is recorded and its attempt does; only the last step activates the tenant |
| SagaRunnerModule.SagaRunner.RunStep | services/controlplane/src/controlplane/saga.py:111-148 | a step ends done exactly when one of its remaining attempts completes, activates the tenant exactly when one of them commits that, takes an exact number of statements, and is executed no more often than it has attempts left; its row tells the outcome and counts all attempts if the mark was written, also when the process stops after it, and is otherwise untouched |
| SagaRunnerModule.ClosedIsFinal | services/controlplane/src/controlplane/saga.py:111-148 | a step that is done, or whose row counts all its attempts, is not executed by any operation and stays so |
| SagaRunnerModule.SagaRunner.FailTerminally | services/controlplane/src/controlplane/saga.py:244-253 | the exact tables: nothing written, only the saga failed, or the tenant marked too, and that the second is the one state without the mark |
| SagaRunnerModule.SagaRunner.Run | services/controlplane/src/controlplane/saga.py:98-156 | a terminal saga is untouched; otherwise a run that ends succeeds exactly when every open step can finish, undoes nothing, and keeps to the attempts; it stops exactly when the process does before its last statement, and leaves a failed saga's tenant without its mark exactly in the cases given. Its executions are counted in the rows, except those of one step if the process stopped, and only used-up steps are marked failed |
| SagaRunnerModule.NeededWithoutTenant | services/controlplane/src/controlplane/saga.py:111-147 | a run of a saga without a tenant always fails, after exactly its attempts at the first step and three statements |
| SagaRunnerModule.History | services/controlplane/src/controlplane/saga.py:158-162 | over any sequence of starts, resumes and crashes the invariant holds, nothing done is undone, a terminal saga with a tenant never changes, and a failed saga's tenant lacks its mark exactly when one of the operations left it so; a step that is done or has used up its attempts is never executed again |
| SagaRunnerModule.FailsUnmarked | services/controlplane/src/controlplane/saga.py:234-253 | for every way a fully started saga can fail there is a stop that leaves it failed and its tenant unmarked: still being provisioned, or active exactly when an attempt at the last step committed |
| SagaRunnerModule.FailsWithActiveTenant | services/controlplane/src/controlplane/saga.py:212-253 | a failed saga whose tenant is active, whatever is started or resumed afterwards |
| SagaRunnerModule.TerminalSagaCanChange | services/controlplane/src/controlplane/saga.py:83-95 | a reachable terminal saga that a later start gives a tenant |
| AlertPaging.BeyondIsAfter | services/dataplane/src/dataplane/api/alerts.py:35-54 | in all four sorts the keyset condition selects exactly the rows after the cursor's row in the sort order |
| AlertPaging.OrderedKeeps | services/dataplane/src/dataplane/api/alerts.py:209-213 | ordering gives the same rows in strictly ascending order |
| AlertPaging.OneOrder | services/dataplane/src/dataplane/api/alerts.py:35-54 | rows can be put in order in only one way |
| AlertPaging.RestOfQueue | services/dataplane/src/dataplane/api/alerts.py:194-213 | the query with a row's cursor finds exactly the rest of the queue after that row |
| AlertPaging.PageIsNext | services/dataplane/src/dataplane/api/alerts.py:192-230 | a page holds the next rows, full unless the queue ends, has a cursor exactly when there are more, and its total is the length of the whole queue |
| AlertPaging.RefusedIff | services/dataplane/src/dataplane/api/alerts.py:153-208 | exactly which requests are refused: unknown sort, limit out of range, unknown state or severity names, unreadable times, and cursors that do not decode, are of another sort or lack a readable field |
| AlertPaging.CursorReadBack | services/dataplane/src/dataplane/api/alerts.py:194-230 | a page's cursor is read back as its last row, in the sort it came from and in no other |
| AlertPaging.ReadAll | services/dataplane/src/dataplane/api/alerts.py:167-232 | following the cursors with any page sizes yields every row that passes the request's filters exactly once, in the order that the sort's name says, and every page's total is their number |

## Left out

- Real files, sockets, SQL, Redis and HTTP: files are strings with one character for one byte, tables are maps, calls into the server are steps. I/O errors, `fsync`, UTF-8 decoding and file permissions are not modelled.
- Sequence numbers of the buffer are bounded by 64 bits where they are formatted (`nextSeq <= U64_MAX`); byte and drop counters are unbounded.
- Trailing buffer lines that do not parse are never consumed by a commit; the model follows the code in this, and the run-level theorems about the agent concern buffers the agent wrote itself, in which every line parses.
- AgentRun.Conservation: concerns runs in which no commit follows a shed of a class its batch took from. AgentRun.AnswerKeepsBooksIffClean shows that exactly these answers keep the books: in CommitLoss.LosesAnEvent the ordered account of lines fails though the totals agree, in CommitLoss.CountsTooMany the totals fail too.
- AgentLife.AtLeastOnce: concerns lives whose runs are legal in the same sense. A crash while a buffer is being opened is not modelled; opening writes nothing but the truncation of torn lines, which another opening repeats.
- Delays, back-off and log messages: any delay is allowed, none is modelled.
- Asset display fields, `dedup_rule`, the merge audit, identity timestamps and the endpoint cap of enrolment: they do not influence the identity tables. Transactions of one tenant are taken to be serial, random asset ids either fresh or refused by the primary key, and values outside a column's check constraint are not modelled.
- AssetCorrections.RunKeeps: concerns histories in which no merge names its survivor twice; AssetCorrections.MergeKeepsIffApart shows that exactly these keep the tables consistent.
- Stream trimming and tombstones: the stream is taken to be untrimmed, and any set of pending entries may be claimed, whatever their idle time. A tenant context is taken not to swallow its handler's exception. The endless loop of `run` is any sequence of polls and claims.
- Rule documents outside the condition tree, the schema-version gate, the entity key, YAML and JSON text, NaN and the sign of zero: numbers are reals. Case folding and the regex engine are parameters; a search is a function of pattern and text, so its timeout is too.
- Quota keys for enrolment rates and usage counters, and the day's change of the investigation key, would only add easy members. The quota store being unavailable is not modelled.
- QuotaBound.AnySpan: takes the reading of the clock and of the window as one step, and the limit as fixed.
- Two runners on one saga, and rows that other services change: one runner at a time is assumed. The bodies of the steps are outcomes, apart from the tenant's status.
- SagaRunnerModule.SagaRunner.FailTerminally: the marks in the tables only; the cache, the audit entry and the alert that follow are not modelled.
- The text of a page cursor: a cursor is its decoded fields, or does not decode; a null for a priority, which fails otherwise than with a refusal, is not modelled. Lower-casing and the reading of times are parameters. The table is taken not to change while it is read. Alert transitions, triage and the event references of a page are left out.
