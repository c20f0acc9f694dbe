# Gentle Mesh: a Dafny model

A model of the parts of Gentle Mesh whose guarantees rest on several functions, on loops or on every run of
a state machine, with proofs of those guarantees:

- **Receipt chain.** `ChainStore`, the migration that numbers an unnumbered table from its hash links, the
  chain verifier, the optimistic append, the settlement engine, the lease reaper and the accept and dispute
  handlers. `Protocol` runs all of them as one state machine with freely interleaved calls, and `Decisions`
  says when a handler admits one and how long an acceptance or a dispute lasts in it; `Reaping` follows a
  lease from the reaper's snapshot to the receipt of its contract.
- **Territory scheduler.** The clash relation, branch locks, the priority queue with its drains, and
  `SchedulerRuns`, which interleaves schedules, endings, releases, drains, cancellations, growing surfaces
  and peer manifests. `Waiting` says what a queued task waits for and which steps leave it without a cause.
- **Canonical JSON.** Scanner, parser and serializer, the laws that make the canonical form a value's only
  text (`JcsLaws`), which text that is (`JcsEscapes`), what the parser accepts (`JcsGrammar`), and a strict
  parser that scanning and parsing together amount to (`JcsStrict`).
- **Join log.** The hash-chained log with its subscriptions and verifier, the projector that replays it, and
  the glob matcher that judges territories.
- **Dispatch.** Node selection, runs of reservations and releases, and the bounded retry loop of the mesh
  runner.
- **Two arithmetic pieces.** The Ed25519 field bound and the windowed rate limiter.

`dafny verify dfyconfig.toml` checks everything.

## Reading the model

Code that updates objects in place is a class whose methods are proved equal to functions on values
(`Save`, `ScheduleTask`, `DrainScan`, `AppendTo`, `Reserved` and so on); the lemmas and the runs are about
those functions. Each SQLite transaction, and each section under one mutex, is one atomic step. The accept
and dispute handlers hold nothing between reading a receipt and writing it back, so their read with its
guards and their write are two steps, with anything in between.

SHA-256 and Ed25519 are function parameters: hashes and signatures are never empty, a signature verifies
under the signer's key, and hash injectivity is required only by the lemmas that name it. Number formatting,
`path.Clean`, `path.Match`, `filepath.Match` and Unicode case mapping are parameters too. The clock, ids from
crypto/rand and the results of evaluating assertions come in as arguments. `Protocol.FreshIds` says that
crypto/rand never repeats an id.

What the proofs found out about the code:

- The doc comment at pkg/receipt/chain.go:666-679 says that the executor does not sign the chain link. The
  code does (pkg/receipt/chain.go:819), and the model follows the code.
- The backfill updates by receipt id without naming the pair, and receipt ids are not unique in the schema.
  `Migration.OtherPairsSurviveIff` gives the exact condition under which other pairs are left intact;
  `Migration.SharedIdOverwrites` is a table on which it fails. With shared ids the order in which the pairs are
  listed can decide whether the migration succeeds (`Migration.ListingOrderDecides`).
- Territory exclusion does not survive the growth of a running task's edit surfaces
  (pkg/server/task/task.go:489-499). `SchedulerWitnesses.GrowthBreaksExclusion` is a concrete run;
  `SchedulerRuns.ExclusionStep` says exactly which steps keep exclusion.
- Two tasks of one repository with empty summaries clash, through the fingerprint stage
  (`Federation.ClashMeaning`, `SchedulerWitnesses.EmptySummariesClash`).
- A peer manifest can leave a live task queued with nothing running (`SchedulerWitnesses.PeersStrand`), and
  no drain follows when the manifest is withdrawn, so the task then waits for nothing at all
  (`SchedulerWitnesses.WithdrawnManifestStrands`). `Waiting.JustifiedStep` and `Waiting.AttendedStep` say
  exactly which steps leave a task waiting without a cause.
- An event appended with an empty payload or a time outside UTC makes the log fail its own verifier
  (`JoinLogs.AppendedLogVerifies`, `JoinLogs.EmptyPayloadBreaksTheLog`, `JoinLogs.LocalTimeBreaksTheLog`).
- A subscriber whose cursor lies beyond the log still receives the events appended up to it
  (`JoinLogs.CursorIsKept`, `JoinLogs.CursorBeyondTheLog`), and a resume anchor on an event that the server
  lacks is accepted (`JoinLogs.AnchorMeaning`, `JoinLogs.AnchorOnMissingEvent`).
- Reservations alone keep the load spread over the nodes when all requests are of one kind. A release, or a
  reservation for another kind of request, can leave one node over capacity beside a free one
  (`Reservations.ReleasesOverload`, `Reservations.MixedKindsOverload`); `Reservations.MixedRunsSpreadIff`
  gives the exact condition over whole runs.
- An accepted receipt can become disputed: a dispute handler that read the receipt before the acceptance
  writes its snapshot back over it (`Decisions.OverlapOverturnsAcceptance`). An acceptance is for good iff no
  such dispute is under way (`Decisions.AcceptedForeverIff`).
- A disputed receipt may still be accepted later, because the accept handler does not look at the earlier
  decision (integration/agent/server.go:1057-1087, `Decisions.DisputeIsNotFinal`). A dispute is for good iff no
  acceptance is under way and no signature would make the receipt acceptable (`Decisions.DisputedForeverIff`);
  while the emitter of a receipt of the executor's mesh holds its key, that is never
  (`Decisions.KeyHoldersMayAccept`).
- The rule that nodes at capacity compete only when no eligible node has a free slot decides nothing: a node
  with a free slot ranks before every node without one anyway (`Registries.ChoiceIff`).
- A node that could not be reached is tried again once a heartbeat shows it online
  (`MeshRunners.TriedAfterHeartbeat`), and also by another dispatch that selects between the release of the slot
  and the mark (`MeshRunners.TriedBeforeMark`). `MeshRunners.RetriedIff` is the exact condition.

## Model

| member | source | states |
|---|---|---|
| Receipts.ExecutorContentBlindSpots | pkg/receipt/chain.go:809-827 | the executor's hash ignores exactly the emitter's four fields, its own signature and the sequence number; every other field, the chain link included, is bound |
| Receipts.DecisionKeepsExecutorSignature | pkg/receipt/chain.go:809-851 | no decision of the emitter invalidates the executor's signature |
| Receipts.EmitterMessageBindsDecision | pkg/receipt/chain.go:836-851 | with a collision-free digest, one emitter message fixes decision, reason and all that the executor signed |
| Receipts.ReceiptRef.Sign | pkg/receipt/signer.go:13-36 | only signing time and signature change, and the signed receipt verifies under the signer's key |
| Receipts.ReceiptRef.Accept | pkg/receipt/signer.go:58-84 | acceptance verifies, clears the reason, and leaves the executor's part alone but for the given signing time |
| Receipts.ReceiptRef.Dispute | pkg/receipt/signer.go:89-118 | an empty reason is refused without effect; otherwise the dispute verifies and carries the reason |
| ChainStores.ChainStore.SaveReceipt | pkg/receipt/chain.go:302-423 | outcome, new table and numbered receipt of one save, as the specification function `Save` that the chain lemmas are about |
| ChainStores.ChainStore.UpdateReceipt | pkg/receipt/chain.go:534-562 | only the JSON of rows with this receipt id changes, never their columns |
| ChainStores.ChainStore.GetLastReceipt | pkg/receipt/chain.go:623-644 | the row of the pair with the largest number and then the latest signing time, as stored but for the number, which is the row's; nothing for a pair without rows |
| ChainStores.ChainStore.GetReceipt | pkg/receipt/chain.go:463-479 | what the handlers read: the stored receipt of the first row with this id, its number taken from the row, or not found |
| ChainStores.ChainIsGapFree | pkg/receipt/chain.go:302-423 | in a well-chained store each pair reads 1..n in order without gap, each row carries the hash of the signature before it, and the chain holds every row of the pair |
| ChainStores.SaveKeepsStore | pkg/receipt/chain.go:302-423 | any save, committed or refused, of any receipt, keeps the store well chained and loses no row |
| ChainStores.SaveDecides | pkg/receipt/chain.go:336-423 | exactly when a save commits, finds its link stale, or loses to the contract index; no other outcome is left |
| ChainStores.SaveMeans | pkg/receipt/chain.go:302-423 | on any table and any receipt: the four refusals and the success with their exact conditions on the fields, the head of the pair and the contract, in the order they are told apart; a success adds one row at the end with every column spelled out |
| ChainStores.LatestIsHead | pkg/receipt/chain.go:336-345 | the head read is a row of the pair that no other one exceeds in number, or in signing time at its number |
| ChainStores.ChainMeans | pkg/receipt/chain.go:503-530 | the ordered read of any table lists the rows of the pair, each as often as stored, by number and then signing time |
| ChainVerifier.VerifyChainIntegrity | pkg/receipt/chain.go:680-785 | one verdict per receipt: the executor's signature holds iff it is present and verifies over the digest of the receipt with the six cleared fields, the emitter's likewise with its four, the number and the link as written out; valid iff all hold; an empty chain is not found |
| ChainVerifier.TamperEvident | pkg/receipt/chain.go:733-770 | when a signature verifies for at most one message and the digest is injective, two receipts with one executor signature that both come out as signed agree in every field but the six cleared ones: a rewritten receipt is reported |
| ChainVerifier.DecisionEvident | pkg/receipt/chain.go:746-770 | the same for the emitter: decision and reason are fixed by its signature, along with all the executor signed |
| ChainVerifier.VerifiedRearrangementsArePrefixes | pkg/receipt/chain.go:699-726 | any non-empty sequence built from a verified chain's receipts, with numbers reassigned at will, passes the link and number checks iff it is a prefix of that chain |
| ChainVerifier.WellChainedPassesChecks | pkg/receipt/chain.go:699-726 | the chain read from a well-chained store passes the verifier's number and link checks |
| Backfill.OrderIsUnique | pkg/receipt/chain.go:206-298 | at most one order links the receipts of a pair |
| Backfill.Walk | pkg/receipt/chain.go:249-298 | the walk succeeds iff the pair is migratable, numbers the rows in their linked order, and never reaches the final disconnected branch |
| Backfill.BackfillPair | pkg/receipt/chain.go:197-298 | the backfill of a pair succeeds exactly when ids are distinct, data decodes, no two receipts share a previous hash and some linked order exists; then that order is the numbering |
| Migration.BackfillAll | pkg/receipt/chain.go:167-195 | for the pairs in the order listed, it succeeds iff each pair, when its turn comes, can be arranged and all its JSON decodes or was supplied by an earlier pair with the same id; every row then carries its place in the last listed pair with its id |
| Migration.ReadyMeans | pkg/receipt/chain.go:167-298 | when ids are unique over the table or all JSON decodes, that is when every pair is migratable on its own, in whatever order; on any table migratable pairs suffice and linked orders of all pairs are needed |
| Migration.Migrate | pkg/receipt/chain.go:101-158 | a failure leaves the table as it was; with the column there it succeeds iff numbers and contracts are unique; a first migration succeeds iff every pair is ready in its turn, no contract repeats and the numbers of each pair stay apart; with unique ids, iff every pair is migratable and no contract repeats, and columns in step with the JSON then give a well-chained table |
| Migration.ListingOrderDecides | pkg/receipt/chain.go:167-195 | a concrete table that migrates with its pairs listed in one order and fails in the other |
| Migration.OtherPairsSurviveIff | pkg/receipt/chain.go:285-292 | numbering one pair leaves the whole table in step with its JSON iff no row of another pair carries one of its ids |
| Migration.SharedIdOverwrites | pkg/receipt/chain.go:285-292 | a concrete table of two migratable pairs sharing one id, on which numbering one pair puts its JSON into the other's row |
| Append.Attempt | pkg/receipt/append.go:104-172 | one attempt, others saving and deciding between its read and its save: a transient failure proves a foreign commit on the pair |
| Append.SignAndSaveReceipt | pkg/receipt/append.go:74-172 | success is the newest row, the draft with this pair, one of the ids and this signing time, linked and signed, and the table is otherwise what the others alone made of it; giving up after m attempts, ten by default, means at least m foreign commits on the pair; every other failure is permanent and told apart |
| Protocol.RunIsSafe | integration/agent/server.go:881-1223 | whatever calls, aborts, guarded reads and writes of decisions interleave, the table stays numbered, linked, one row per contract and genuinely signed, and no stored row changes beyond the emitter's decision |
| Protocol.OneAnswerPerContract | pkg/settlement/engine.go:111-167 | all calls answered for a contract hold the same executor-signed content and signature, and the table holds exactly one row for it |
| Protocol.OwnAnswerSaysOrder | pkg/settlement/engine.go:111-167 | in every run what a call stores itself carries its order's emitter, mesh, contract, hash, verdict and payload, in this agent's name and undecided |
| Protocol.CallStepDecides | pkg/receipt/append.go:104-172 | on any sound table a call gives up exactly at a save that lacks a field or finds the head moved once too often; it is answered exactly when its contract has a receipt as it looks, or its own goes through on the head it read; only that save writes |
| Protocol.EveryRunVerifies | pkg/receipt/chain.go:680-785 | after every run the verifier's checks hold for every receipt of every chain of the executor |
| Protocol.FailuresAreForeignCommits | pkg/receipt/append.go:104-191 | a call that failed transiently f times saw at least f receipts of its pair committed after it began, not counting its own when its own save answered it |
| Protocol.StoredReceiptsSurvive | integration/agent/server.go:881-1223 | from any point of a run to its end stored receipts keep row, content and signature |
| Protocol.DecisionTakesEffect | integration/agent/server.go:993-1103 | a decision whose guards passed on the table it read is stored, whatever others committed in between, with its reason and a signature that verifies over the stored row |
| Decisions.DecisionStaysIff | integration/agent/server.go:993-1223 | a step keeps a receipt accepted, disputed or undecided iff it is not the write of another decision of it; what overturns an acceptance is a dispute built on a snapshot from before the acceptance |
| Decisions.DecidedForeverIff | integration/agent/server.go:993-1223 | a receipt carries its decision in every continuation iff no other decision of it has passed its guards unwritten and none would pass them now |
| Decisions.AcceptedForeverIff | integration/agent/server.go:1110-1223 | an acceptance is for good iff no dispute of it has passed its guards and is yet to write |
| Decisions.DisputedForeverIff | integration/agent/server.go:993-1103 | a dispute is for good iff no acceptance of it is yet to write and no signature makes the receipt acceptable |
| Decisions.KeyHoldersMayAccept | integration/agent/server.go:1057-1087 | no dispute of a receipt of the own mesh is for good while its emitter holds a key |
| Decisions.DecidedThroughoutIff | integration/agent/server.go:993-1223 | from any point of a run to its end a receipt carries its decision in every state iff no step in between writes another one of it |
| Decisions.OverlapOverturnsAcceptance | integration/agent/server.go:1160-1223 | a concrete run of two overlapping handlers in which the stored acceptance is overwritten by the dispute |
| Decisions.DisputeIsNotFinal | integration/agent/server.go:1057-1087 | a concrete run in which a stored dispute is followed by an acceptance |
| Decisions.AdmittedIff | integration/agent/server.go:993-1223 | a handler's guards pass on a table exactly when the stored receipt is one of this agent's mesh in a state that allows the decision and the signature verifies over that receipt with the decision and reason written in; then that receipt is what will be written |
| Decisions.SignatureIsForOneDecision | integration/agent/server.go:993-1223 | a signature that passes for one decision and reason passes for no other, when signatures bind their message and the digest is injective |
| Engine.ComputeVerdict | pkg/settlement/engine.go:197-218 | clean iff all results pass; the counter is the number of those that did not, failures and errors alike |
| Engine.RunRemediation | pkg/settlement/engine.go:173-194 | reruns stop at the first clean one, which makes the verdict repaired; without one the verdict is failed after all reruns |
| Engine.RecordOnce | pkg/settlement/engine.go:111-167 | the answer is the one recorded receipt of the contract; a fresh one has the given emitter and executor, one of the ids, the signing time and every field of the draft, is signed, and is the only row the call writes; without an answer it lost the head ten times or a field is missing |
| Engine.Engine.Settle | pkg/settlement/engine.go:87-170 | refuses inadmissible inputs without effect; returns the recorded receipt of the contract, the earlier one when there is one; a fresh one names the envelope's emitter, executor, mesh, contract and computed hash, carries the verdict and the encoded results of the round that decided, and is the only row the call writes; a lost race is answered with the winner's and counted; no answer means ten foreign commits or a missing field |
| Engine.AdmissibleMeans | pkg/settlement/engine.go:87-110 | the five reasons to refuse an envelope |
| Agent.AgentServer.SnapshotExpiredLeases | integration/agent/server.go:446-461 | exactly the leases expired at that moment, each once, each with its registered envelope or none, and nothing purged |
| Agent.AgentServer.ConfirmOne | integration/agent/server.go:473-509 | compare and delete of one snapshot entry, with its envelope |
| Agent.AgentServer.ConfirmAndPurge | integration/agent/server.go:473-509 | a lease goes iff a snapshot entry names it with the expiry it still has; the rest is untouched, and the envelopes of the confirmed entries are handed on in snapshot order |
| Agent.AgentServer.EmitAll | integration/agent/server.go:473-509 | one timeout per envelope; each answer is the receipt recorded for its contract, and no contract recorded before is left without one |
| Agent.AgentServer.ConfirmAndEmit | integration/agent/server.go:473-509 | the second phase whole: what is purged, one recorded answer per confirmed envelope, and how many of them are timeouts |
| Agent.AgentServer.PurgeExpiredLeases | integration/agent/server.go:513-517 | with other handlers acting between the phases, a lease is purged iff it was seen with the expiry it still has and that expiry is past; for every purged lease whose envelope was registered at the snapshot, that envelope is handed on and its contract has a recorded receipt, unless the append gave up or the draft was incomplete |
| Reaping.ReapHandsOn | integration/agent/server.go:473-494 | the envelopes handed on are those of the confirmed entries, in snapshot order |
| Reaping.ReapKeepsEnvelopes | integration/agent/server.go:486-490 | an envelope leaves the table iff a confirmed entry named it |
| Reaping.PurgedIsServed | integration/agent/server.go:446-517 | a lease purged after a snapshot that showed its envelope has that envelope among those handed on, with the answer they got |
| Agent.AgentServer.EmitSettlementTimeout | integration/agent/server.go:523-572 | the answer is the recorded receipt of the contract; one already stored wins without any write, and a fresh one is a signed timeout by this agent for the envelope's emitter, mesh and contract, with the hash rule of timeouts |
| Agent.AgentServer.HandleSettle | integration/agent/server.go:881-986 | a refused request or one with a lease not granted changes nothing; a late one yields a timeout receipt by this agent, any other the engine's verdict with the envelope's parties, mesh, contract and hash and the deciding round's results; the answer is the receipt recorded for the contract, and when none comes back the guard, the missing field or the ten foreign commits are named |
| Agent.AgentServer.HandleAccept | integration/agent/server.go:993-1103 | with others acting between its read and its write, the table changes as `Protocol.Decision` says; accepted iff the guards passed, and then with a stored, verifying decision |
| Agent.AgentServer.HandleDispute | integration/agent/server.go:1110-1223 | as for acceptance, and refused without effect when the receipt was decided as it was read |
| Federation.OverlapMeaning | pkg/protocol/federation.go:292-326 | two surfaces overlap iff one cleaned path takes in the other; the relation is symmetric |
| Federation.SurfaceSpellings | pkg/protocol/federation.go:281-290 | a leading ./, a trailing slash and white space around a surface do not matter |
| Federation.WholeTree | pkg/protocol/federation.go:281-326 | an empty surface, a dot and ./ are the whole tree, which overlaps every surface |
| Federation.SpellingsMatch | pkg/protocol/federation.go:254-279 | a repository spelled as a URL of any scheme, as git@server:path or bare, with or without .git or a slash, matches another one exactly when server and path agree up to case |
| Federation.SummaryMeans | pkg/protocol/federation.go:349-357 | what is compared of a summary is its words in lower case, in order, one blank between them, whatever white space separated them |
| Federation.FindSurfaceOverlaps | pkg/protocol/federation.go:328-347 | one key per overlapping pair, none twice, no other key; non-empty iff some pair overlaps |
| Federation.ClashesWith | pkg/protocol/federation.go:168-225 | reports the kind of the first stage that answers, with the other territory, or nothing |
| Federation.ClashSymmetric | pkg/protocol/federation.go:168-225 | the clash relation is symmetric through all its stages, with the same kind from both sides |
| Federation.ClashMeaning | pkg/protocol/federation.go:115-225 | territories clash iff their repositories match and they share a branch, a surface, a task id or a normalised summary, two empty ones included; the first of these that they share is the reported kind; a territory never clashes with another of its own task |
| Federation.TerritoryManager.FindRunningConflict | pkg/server/federation/manager.go:378-409 | a conflict is found iff a running or a cached peer territory clashes; the first running one is reported, else the first of the clashing peer with the least id |
| Locks.BranchLockManager.ClaimLock | pkg/server/registry/lock.go:53-78 | refused, without effect, iff another task holds the key; otherwise the caller holds it since now, and no other key changes |
| Locks.BranchLockManager.ReleaseLock | pkg/server/registry/lock.go:84-104 | refused, without effect, iff another task holds the key; otherwise just that key is gone |
| Locks.BranchLockManager.GetLock | pkg/server/registry/lock.go:108-123 | the holder of a normalised key, nothing for a key with an empty half |
| Locks.ClaimThenRelease | pkg/server/registry/lock.go:53-104 | claim then release restores the table; in between every other task is refused and cannot free the key |
| Locks.KeyMeaning | pkg/server/registry/lock.go:24-29 | two claims meet on one lock exactly when they name one repository, however spelled, up to case, and one branch up to white space around it |
| Locks.NothingToLock | pkg/server/registry/lock.go:53-57 | a blank repository or branch names nothing to lock |
| Scheduler.TerritoryScheduler.Schedule | pkg/server/http/scheduler.go:170-224 | the whole new state in each of the four modes, as the function `ScheduleTask` that the runs are about |
| Scheduler.TerritoryScheduler.DispatchUnderLock | pkg/server/http/scheduler.go:265-275 | claims the branch and starts the task, or gives the branch back |
| Scheduler.TerritoryScheduler.DrainUnderLock | pkg/server/http/scheduler.go:279-297 | the state, kept queue and started tasks of one pass over the queue |
| Scheduler.TerritoryScheduler.Complete | pkg/server/http/scheduler.go:478-489 | releases the branch, forgets the task and drains |
| Scheduler.TerritoryScheduler.Cancel | pkg/server/http/scheduler.go:140-161 | takes the task out of the queue, the rest in order, and reports whether it waited there |
| Scheduler.TerritoryScheduler.EnqueueByPriority | pkg/server/http/scheduler.go:520-538 | inserts before the first task of lower clamped priority |
| SchedulerRuns.FailedDispatch | pkg/server/http/scheduler.go:265-275 | dispatching a new task fails iff its branch is taken or it is no longer queued, and a failure leaves no trace in the lock table |
| SchedulerRuns.ScheduleOutcome | pkg/server/http/scheduler.go:170-224 | a new task is started iff its branch is free, it is queued and it clashes with nothing or the mode is warn or disabled; it waits iff the mode is queue and it clashes or its branch is taken; else it is rejected |
| SchedulerRuns.ReleaseFrees | pkg/server/http/handlers.go:849-861 | a release leaves its task with no lock and every other task with its own |
| SchedulerRuns.RemoveForgets | pkg/server/http/scheduler.go:478-489 | a completed task leaves the running map and no other does; what the drain adds to it comes off the queue |
| SchedulerRuns.RunKeepsInv | pkg/server/http/scheduler.go:170-489 | in every reachable state running tasks are tracked and hold their branches, every lock belongs to a tracked task, the queue is ordered and fates are unique |
| SchedulerRuns.QueueAndFates | pkg/server/http/scheduler.go:508-538 | the queue is sorted by clamped priority with arrival order among equals; each scheduled task is in exactly one of queued, dispatched, cancelled, rejected |
| SchedulerRuns.QueueByPriority | pkg/server/http/scheduler.go:508-538 | in every reachable queue a task waits behind one of lower priority only where both lie beyond the same end of -100..100, and behind one of equal priority only if it arrived later |
| SchedulerRuns.DrainKeepsOrder | pkg/server/http/scheduler.go:279-297 | what a drain keeps is a subsequence of the queue |
| SchedulerRuns.CancelKeepsOrder | pkg/server/http/scheduler.go:140-161 | cancelling leaves a subsequence that lacks just the cancelled task |
| SchedulerRuns.NoSharedBranch | pkg/server/registry/lock.go:53-104 | in all modes no two running tasks are on one branch of one repository, after normalising both |
| SchedulerRuns.OnlyOwnersFree | pkg/server/http/handlers.go:849-861 | the only step that frees a lock is the release of its own, ended, owner |
| SchedulerRuns.ExclusionStep | pkg/server/http/scheduler.go:170-297 | from an exclusive state a step keeps exclusion iff it neither dispatches over a running clash in warn or disabled mode nor grows a running task into another's surfaces |
| SchedulerRuns.RunExcludes | pkg/server/http/scheduler.go:170-297 | over whole runs: no two running tasks clash in any state iff every step is of that kind |
| SchedulerRuns.SemaphoreRunsExclude | pkg/server/http/scheduler.go:170-297 | runs that schedule only in queue or strict mode and grow no running task never have two clashing running tasks |
| Waiting.DrainKeepsExactly | pkg/server/http/scheduler.go:279-297 | a drain keeps a live task iff in the state it leaves a running task, a peer manifest or a taken branch blocks it; with nothing running there, iff it clashes with a cached peer manifest |
| Waiting.JustifiedStep | pkg/server/http/scheduler.go:170-489 | while every live queued task has one of the three causes to wait, a step keeps that so iff it is not the end of the only runner, the release of the branch or a new peer table that takes a last cause away |
| Waiting.RunJustifiedIff | pkg/server/http/scheduler.go:170-489 | over whole runs: every live queued task has a cause in every state iff no step takes a last one away |
| Waiting.AttendedStep | pkg/server/http/scheduler.go:478-489 | while with nothing running every live queued task clashes with a cached manifest, a step keeps that so iff it is not a peer table, installed while nothing runs, that misses one |
| Waiting.RunAttendedIff | pkg/server/http/scheduler.go:478-489 | over whole runs: in every state with nothing running each live queued task clashes with a cached manifest, iff no peer table installed while nothing ran missed one |
| Waiting.NoRunStrands | pkg/server/http/scheduler.go:199-223 | without peer manifests no reachable state has an empty running map and a live task in the queue |
| SchedulerWitnesses.EmptySummariesClash | pkg/protocol/federation.go:115-225 | two concrete tasks of one repository with empty summaries clash while sharing neither branch nor surface |
| SchedulerWitnesses.GrowthBreaksExclusion | pkg/server/task/task.go:489-499 | a concrete queue-mode run in which a running task grows into another's file and both keep running |
| SchedulerWitnesses.PeersStrand | pkg/server/federation/manager.go:388-408 | a concrete run in which a peer manifest keeps a live task queued with nothing running |
| SchedulerWitnesses.WithdrawnManifestStrands | pkg/server/http/scheduler.go:478-489 | that run followed by the withdrawal of the manifest: the task still waits with nothing running and nothing left that blocks it |
| Jcs.Utf16Less | pkg/jcs/canonical.go:512-523 | compares unit by unit, the shorter first |
| Jcs.KeyOrder | pkg/jcs/canonical.go:512-523 | UTF-16 order is a strict total order on distinct keys |
| Jcs.NotCodePointOrder | pkg/jcs/canonical.go:386-388 | a pair of keys that it orders the other way round than their code points |
| Jcs.SortKeys | pkg/jcs/canonical.go:368-388 | whatever order the members are found in, the sorted list is the same |
| Jcs.CheckUnicodeAndSurrogates | pkg/jcs/canonical.go:109-186 | the index loop accepts exactly the text the recursive scanner accepts: closed strings, no raw control characters, known escapes, surrogates only in pairs |
| Jcs.SerializeString | pkg/jcs/canonical.go:421-471 | appends the quoted and escaped string, which `JcsEscapes` pins down |
| JcsEscapes.EscapeTable | pkg/jcs/canonical.go:421-471 | the seven short escapes, \u00xx for exactly the other control characters, and every other character as itself |
| JcsEscapes.EscapeIsLeast | pkg/jcs/canonical.go:421-471 | the text written for a character is a shortest one that reads back as it, and among those of its length the one without upper-case digits |
| JcsEscapes.EscapedIsShortest | pkg/jcs/canonical.go:421-471 | no shorter text between quotes reads back as the string |
| JcsEscapes.Layout | pkg/jcs/canonical.go:331-418 | lists, objects and literals as text: members in key order, and nothing between the tokens |
| JcsGrammar.NumberMeans | pkg/jcs/canonical.go:189-225 | a text is taken as a number iff it is an optional minus, an integer without leading zero, an optional fraction and an optional exponent |
| JcsGrammar.ScalarMeans | pkg/jcs/canonical.go:205-225 | a number is read iff the longest run of number characters is one, and its text is kept as written |
| JcsGrammar.BlanksAreFree | pkg/jcs/canonical.go:189-276 | the four blanks before a value, a key, a member, an element or a document do not matter |
| JcsGrammar.MemberThen | pkg/jcs/canonical.go:227-256 | a member joins those read before it, whatever blanks surround its tokens, and a key read before refuses the text |
| JcsGrammar.RepeatedKeyIsRefused | pkg/jcs/canonical.go:227-256 | an object that names one member twice is refused, whatever the two values are |
| JcsGrammar.UnitsRead | pkg/jcs/canonical.go:109-225 | hex escapes of either case read as the character whose UTF-16 units they spell, one or two |
| Jcs.SerializeCanonical | pkg/jcs/canonical.go:331-418 | appends the canonical text, or fails exactly when some number has no canonical form |
| JcsParser.Decoder.ParseNext | pkg/jcs/canonical.go:205-225 | reads one value from the front and leaves the rest |
| JcsParser.Decoder.ParseObject | pkg/jcs/canonical.go:227-256 | reads the members to the closing brace, refusing a repeated key |
| JcsParser.Decoder.ParseArray | pkg/jcs/canonical.go:258-276 | reads the elements to the closing bracket |
| JcsParser.Canonicalize | pkg/jcs/canonical.go:35-51 | scan, parse, serialize, each able to refuse |
| JcsStrict.ScanThenParseIsStrict | pkg/jcs/canonical.go:109-225 | scanning and then parsing is one strict parser that refuses lone surrogates: on scanned text none is ever replaced, and text that reads without replacing one passes the scanner |
| JcsStrict.CanonicalIsStrict | pkg/jcs/canonical.go:35-51 | an input has a canonical form iff it reads strictly and all its numbers have one, and it is that value's canonical text |
| JcsStrict.LoneSurrogateIsReplaced | pkg/jcs/canonical.go:158-178 | without the scanner a lone surrogate would read as U+FFFD |
| JcsLaws.RoundTrip | pkg/jcs/canonical.go:35-51 | the canonical text of any value passes the scanner, parses back to the value with its numbers canonical, and is its own canonical form |
| JcsLaws.SameTextIffSameValue | pkg/jcs/canonical.go:331-418 | two values have one canonical text iff they are the same up to how their numbers are written |
| JcsLaws.CanonicalIsIdempotent | pkg/jcs/canonical.go:35-51 | canonicalizing twice is canonicalizing once |
| JcsLaws.CanonicalMeansSameValue | pkg/jcs/canonical.go:35-51 | two inputs have one canonical form iff they parse to the same value up to how numbers are written |
| JoinLogs.VerifyChain | pkg/joinlog/joinlog.go:370-407 | accepts iff every event passes, else reports the first that fails with its first failing check, never later than an event with a fault; with an injective hash the fork branch is unreachable and acceptance means links and contents agree |
| JoinLogs.SameHashSamePrefix | pkg/joinlog/joinlog.go:63-76 | two verified logs that share one event hash agree on its position and, up to it, on every event's id, kind, actor, time, link and canonical payload |
| JoinLogs.HashCovers | pkg/joinlog/joinlog.go:63-76 | events with one hash have equal id, kind, actor, time and link and equal canonical payloads |
| JoinLogs.HashableIff | pkg/joinlog/joinlog.go:63-76 | an event has a hash iff id, kind and actor are not all empty and its payload is absent or JSON |
| JoinLogs.RewriteIsReported | pkg/joinlog/joinlog.go:370-407 | rewriting id, kind, actor, time, link or canonical payload of an event of a verified log, its hash kept, makes the verifier report a fault no later than there |
| JoinLogs.Log.Append | pkg/joinlog/joinlog.go:175-256 | the new table and all subscriber channels after one append, as the function `AppendTo` that the runs are about |
| JoinLogs.LinkedMeans | pkg/joinlog/joinlog.go:175-228 | what is appended keeps what the author gave, with a missing id and a zero time filled in, the head's hash as link, the next number and its own hash |
| JoinLogs.Log.Subscribe | pkg/joinlog/joinlog.go:315-348 | the channel starts with the history and has 128 places, or 64 more than the history when that is more |
| JoinLogs.RunKeepsInv | pkg/joinlog/joinlog.go:175-348 | in every run rows are numbered, linked, hashed and distinct in id, and every subscriber is in step with the table |
| JoinLogs.AppendedLogVerifies | pkg/joinlog/joinlog.go:175-256 | any run of appends is numbered 1..n and linked, and verifies iff every event carried a payload and a UTC time |
| JoinLogs.EmptyPayloadBreaksTheLog | pkg/joinlog/joinlog.go:229-239 | one event without payload yields a log that fails verification |
| JoinLogs.LocalTimeBreaksTheLog | pkg/joinlog/joinlog.go:229-239 | one event with a zone offset yields a log that fails verification |
| JoinLogs.HeadIsUnclaimed | pkg/joinlog/joinlog.go:166-174 | the unique index on the previous hash never rejects: an append fails only for a repeated id or an event that cannot be hashed |
| JoinLogs.StreamHasNoGaps | pkg/joinlog/joinlog.go:315-348 | a subscriber without drops is given exactly the rows after its start, in order, once each; with drops, a strictly increasing part of them |
| JoinLogs.CursorIsKept | pkg/joinlog/joinlog.go:248-254 | for any subscriber, with drops or without, all events received lie after the cursor iff the cursor was within the log or nothing was appended since |
| JoinLogs.CursorBeyondTheLog | pkg/joinlog/joinlog.go:248-254 | a concrete run in which a subscriber with cursor 5 is sent event 1 |
| JoinLogs.AnchorMeaning | pkg/joinlog/http.go:83-101 | a resume from the end of a verified client log is accepted iff the server's log is shorter or agrees with all of it |
| JoinLogs.AnchorRefused | pkg/joinlog/http.go:83-101 | an anchor is refused exactly when it names an event of the log by another hash than the log's |
| JoinLogs.AnchorOnMissingEvent | pkg/joinlog/http.go:83-101 | two concrete verified logs that disagree, with the longer one's end accepted as anchor by the shorter |
| Projectors.Projector.ProjectEvent | pkg/joinlog/projector.go:149-278 | the tables after one event; a malformed payload changes nothing |
| Projectors.Projector.Replay | pkg/joinlog/projector.go:280-291 | projects in order and stops at the first malformed payload, keeping what precedes it |
| Projectors.Projector.Snapshot | pkg/joinlog/projector.go:295-432 | the state read back; a task shows as settled only with a non-empty verdict |
| Projectors.FoldSplits | pkg/joinlog/projector.go:280-291 | projecting a prefix and then the rest is replaying the whole log |
| Projectors.LockReading | pkg/joinlog/projector.go:184-227 | a key is locked iff its last claim or release is a claim, by that task since that time |
| Projectors.TaskReading | pkg/joinlog/projector.go:169-182 | a task is known iff it was created, with the fields of its last creation |
| Projectors.SettledReading | pkg/joinlog/projector.go:229-238 | a task shows as settled iff its last settlement since its first creation has a verdict, and then with that settlement |
| Projectors.HistoryReading | pkg/joinlog/projector.go:213-227 | the history is the releases of the log, all of them, in order |
| Projectors.NodeReading | pkg/joinlog/projector.go:153-168 | a node is known iff it joined, as its last join describes it |
| Projectors.VerificationReading | pkg/joinlog/projector.go:243-278 | the verifications are those of the log, all of them, in order, with their times |
| Projectors.KeyNamesBoth | pkg/joinlog/projector.go:184-227 | keys of branch names, which hold no colon, are equal exactly when repository and branch are |
| Projectors.KeysMeet | pkg/joinlog/projector.go:184-227 | two different pairs with one key, as one branch holds a colon |
| Territories.MatchSurfaceSegments | pkg/joinlog/territory.go:57-78 | matches iff the path splits into consecutive chunks, one segment per ordinary pattern segment and any number per double star |
| Territories.MatchesConcat | pkg/joinlog/territory.go:57-78 | a concatenated pattern matches exactly the concatenations of what its halves match |
| Territories.DoubleStarCollapses | pkg/joinlog/territory.go:57-78 | two double stars in a row say no more than one |
| Territories.DirectoryCovers | pkg/joinlog/territory.go:36-55 | a surface without wildcards covers exactly the paths whose leading segments are its own |
| Territories.PatternCovers | pkg/joinlog/territory.go:36-78 | a surface with wildcards covers exactly itself and the paths that split into consecutive chunks, one per pattern segment |
| Territories.PathSpellings | pkg/joinlog/territory.go:80-92 | a leading ./ or slash and white space around surface or file do not matter |
| Territories.NoPath | pkg/joinlog/territory.go:36-92 | blank text and the root cover nothing and are covered by nothing |
| Territories.VerifyTerritory | pkg/joinlog/territory.go:158-184 | the discrepancies are the uncovered files, each as often as observed, sorted; clean iff all are covered |
| Territories.MoreSurfacesShrink | pkg/joinlog/territory.go:158-193 | declaring more surfaces never adds a discrepancy |
| Territories.OrderedIsUnique | pkg/joinlog/territory.go:168 | a list has only one sorted permutation |
| Registries.PreferenceIsStrictTotal | pkg/server/registry/registry.go:315-328 | the preference is a strict total order on distinct node ids |
| Registries.ChoiceIsUnique | pkg/server/registry/registry.go:266-311 | the chosen node does not depend on the order the node map is traversed in |
| Registries.ChosenAtCapacity | pkg/server/registry/registry.go:280-297 | a node at capacity is chosen iff every eligible node is at capacity |
| Registries.ChoiceIff | pkg/server/registry/registry.go:248-328 | the chosen node is the one of least load for its room among all eligible nodes, then of least load, then chosen longest ago, then of least id; the soft cap never changes which node that is |
| Registries.EligibleMeans | pkg/server/registry/registry.go:266-381 | eligible iff online, heard of within one and a half timeouts, and one agent has the name and all the tags asked for |
| Registries.ReservedMeans | pkg/server/registry/registry.go:219-231 | a reservation adds one dispatch to its node only and stamps it later than every other node |
| Registries.ReleasedMeans | pkg/server/registry/registry.go:235-242 | a release takes one off its node only, never below zero, and undoes a reservation's count |
| Registries.UnreachableMeans | pkg/server/registry/registry.go:345-355 | a node marked unreachable is out for every request, and only that one |
| Registries.Registry.SelectLocked | pkg/server/registry/registry.go:266-311 | nothing is found iff no node is eligible; otherwise the one best candidate |
| Registries.Registry.SelectAndReserve | pkg/server/registry/registry.go:219-231 | the choice gains one dispatch in flight and becomes the most recently selected |
| Registries.Registry.Release | pkg/server/registry/registry.go:235-242 | one slot given back, never below zero |
| Reservations.ReserveKeepsIff | pkg/server/registry/registry.go:219-231 | from a spread load a reservation for any request keeps the load spread for a given kind of request iff it does not overfill a node eligible for it beside a free one |
| Reservations.OwnReservationKeeps | pkg/server/registry/registry.go:219-231 | reservations for the kind of request itself always keep it |
| Reservations.ReleaseKeepsIff | pkg/server/registry/registry.go:235-242 | a release keeps it iff it does not open a slot on an eligible node beside another one over capacity |
| Reservations.MixedRunsSpreadIff | pkg/server/registry/registry.go:219-311 | over runs of mixed reservations and releases from zero the load is spread in every state iff no step harms it |
| Reservations.NoEarlyOverload | pkg/server/registry/registry.go:219-311 | reservations of one kind of request from zero overload no eligible node while another has a free slot |
| Reservations.ReleasesOverload | pkg/server/registry/registry.go:233-242 | a concrete sequence with one release that leaves a node overloaded beside an idle one |
| Reservations.MixedKindsOverload | pkg/server/registry/registry.go:219-311 | a concrete sequence of reservations of two kinds that does so without a release |
| MeshRunners.MeshRunner.DispatchToMesh | pkg/server/runner/mesh.go:197-242 | with no other registry traffic meanwhile: every attempt goes to the registry's choice of the moment; at most three, only the last possibly accepted, fewer only when the task may have been accepted or no choice with an endpoint is left; fallback iff none was made; the registry ends as those attempts leave it |
| MeshRunners.ContactsMean | pkg/server/runner/mesh.go:150-242 | attempts give back every slot they take, and exactly the nodes never reached end up degraded |
| MeshRunners.UnreachedNotRetried | pkg/server/runner/mesh.go:228-239 | so no node is tried again after it could not be reached |
| MeshRunners.DispatchIsAtMostOnce | pkg/server/runner/mesh.go:86-242 | in every concurrent run each node's count is the number of dispatches that hold a slot on it, zero once all have ended, and every ended dispatch was at most once |
| MeshRunners.EndsOnlyWhen | pkg/server/runner/mesh.go:197-242 | in a concurrent run a dispatch ends only when its task may have been accepted, after three attempts, without an eligible node, or on a choice without an endpoint |
| MeshRunners.SelectsTheChoice | pkg/server/runner/mesh.go:150-176 | a dispatch that selects reserves the registry's choice, and dispatches to it iff it has an endpoint |
| MeshRunners.RetriedIff | pkg/server/runner/mesh.go:171-242 | in every concurrent run, after a failed dial a later selection goes to that node iff it is the best candidate then, and it cannot be once the node is marked and no heartbeat or join has brought it back since |
| MeshRunners.TriedBeforeMark | pkg/server/runner/mesh.go:171-236 | a concrete run in which another dispatch is sent to the unreached node before it is marked |
| MeshRunners.TriedAfterHeartbeat | pkg/server/registry/registry.go:124-144 | a concrete run in which a marked node is tried again after a heartbeat |
| PublicKeys.NonCanonicalIff | pkg/signing/validate.go:46-62 | the byte loop detects exactly the encodings whose value modulo 2^255 is at least 2^255 - 19 |
| PublicKeys.HexMeans | pkg/signing/validate.go:25-34 | a text decodes to a byte string iff its digits, of either case, spell it pair by pair |
| PublicKeys.ValidateEd25519PublicKey | pkg/signing/validate.go:25-65 | accepted iff 64 hex digits of a non-zero reduced encoding; each refusal is told apart |
| RateLimiters.RateLimiter.Allow | pkg/server/http/middleware.go:55-83 | decides by the client's own entry, touches no other, never reads the limit |
| RateLimiters.TwoBurstsPerWindow | pkg/server/http/middleware.go:54-83 | fewer than two bursts pass in any closed interval no longer than the window |
| RateLimiters.BurstPerReset | pkg/server/http/middleware.go:68-80 | at most one burst passes from one reset to the next |
| RateLimiters.RefusedIff | pkg/server/http/middleware.go:68-82 | a request is refused iff the window has not passed and the whole burst was spent since the last reset |
| RateLimiters.ClientsAreIndependent | pkg/server/http/middleware.go:54-83 | a client's entry is what its own requests alone would have left |
| RateLimiters.DecidedAlone | pkg/server/http/middleware.go:54-83 | a client's next request is decided by its own earlier requests alone |

## Left out

- HTTP routing, request decoding, TLS, tokens, webhooks, the CLI and the scenario harness: input and output.
- Git, sandboxing and real assertion evaluation: their results are arguments of the engine.
- SQLite, WAL and busy timeouts: tables are sequences, transactions are atomic, index violations are outcomes.
- UTF-8: text is a sequence of scalar values, so the rejection of invalid bytes is not modelled, and offsets count characters.
- IEEE-754 rounding and number formatting: number text has an abstract canonical form; load ratios are exact fractions.
- Jcs.SortKeys: stands for the library sort by an insertion sort; only its result matters.
- Federation.NormalizeRepo: its idempotence is not claimed, and `a.git.git` would refute it.
- Scheduler.TerritoryScheduler: holds task ids with the task table as a map, so sharing of task objects is not modelled; the warning event of warn mode and the runner goroutines are left out.
- Runner retries inside a scheduled task keep it running and touch neither lock nor queue, so runs need no step for them; a runner is taken to leave its task ended before completion.
- SchedulerRuns.Enabled: a task is scheduled once and leaves the running map after its branch release, as the callers do.
- Agent.AgentServer.PurgeExpiredLeases: what other handlers do to the leases between its two phases is an argument.
- JoinLogs: event times outside the years that RFC 3339 can write are not modelled.
- Projectors.Projector.Replay: lemmas start from empty tables; replaying over filled ones would repeat history rows.
- Reservations.MixedRunsSpreadIff: node table and clock stay fixed during the run; heartbeats between reservations are not steps of it.
- Snapshot reads head position and tables separately; their relation under concurrent appends is not modelled.
- MeshRunners: attribution of the node that accepted a dispatch and the local marker on fallback events are left out.
- RateLimiters: eviction of idle clients does not exist in the source and is not added.
- Envelope state tables, protocol field validators and test-only receipt injection would add only easy members.
