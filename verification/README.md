# Claude Archive: deletion, outbox and reconciliation

Claude Archive keeps a user's exported conversations in PostgreSQL, a content-addressed blob store
and a JetStream stream, and has to delete them from all three. This project models the parts of the
service where that is hard and proves what they keep, for every input, run or reachable state.

- `StreamErasure.dfy`, `CarriedCopies.dfy`, `OutboxProtocol.dfy`, `OutboxPump.dfy`: the outbox pump,
  the copies whose commit failed, the deletions that remove outbox rows and ask for stream erasure, and the
  acknowledgement of tombstones, as one interleaved step system.
- `BlobProtocol.dfy`, `LockOrder.dfy`: registrars and erasers racing on digests under one lock per
  digest, and the order in which locks are taken.
- `DeletionClosure.dfy`, `DeletionOrder.dfy`, `DeletionPhases.dfy`: what a deletion removes, in
  which order its rows leave, and how a request resumes after any interruption.
- `Restoration.dfy`, `VersionStore.dfy`, `Reannounce.dfy`: which version of a shared record each
  export presented, how a deletion puts kept records back to what the retained exports hold, and
  what a consumer of the events then holds.
- `ArtifactLineage.dfy`, `ArtifactReconciliation.dfy`, `Reparenting.dfy`, `Reparse.dfy`,
  `ResendPolicy.dfy`: version chains, message parents, reparse plans and resend waits.
- `Common.dfy`: options, results and ascending enumeration of finite sets.

`dafny verify dfyconfig.toml` checks everything. Tables a method updates are fields of a class, and
the method is proved equal to a function on their values; the protocols are step systems over the
same functions. Identifiers are natural numbers ordered as the service orders the real ones, a
digest is the content it covers, and commits, broker answers and other transactions are
nondeterministic steps.

Where the code does less than its documentation says, the exact condition is proved:

- The lock order of `blob_protocol.rs:10` can deadlock when deletions are recorded under accounts of
  one another (`LockOrder.DeadlockIffRing`, and its closed forms for single accounts and for pairs).
  The operator commands never do that (`LockOrder.OperatorPathsNeverDeadlock`).
- A restored conversation is not wholly "an import of only the retained exports": a message row that
  stays keeps a parent, an ordinal or a timestamp that no retained export gave
  (`VersionStore.ParentRestoredIff`, `VersionStore.PlaceRestoredIff`).
- When a deletion removes a project, a kept conversation that it did not observe loses its project and
  is not announced again (`Reannounce.UnobservedConversationIff`). It cannot happen when every export
  observes the projects its conversations name (`Reannounce.ConsumerHoldsTheRowsExactly`).
- A kept project whose latest fact names a retained archive is not announced again even if its row was
  restored (`Reannounce.ProjectRepairedIff`). It cannot happen when every import is announced.
- The evidence bytes are the same in each attempt unless an attempt reads the items after another one
  completed (`DeletionPhases.EvidenceIsStableIff`).

## Model

| member | source | states |
|---|---|---|
| OutboxProtocol.EveryAcknowledgedCopyIsNamed | crates/claude-archive/src/operation_outbox/publish.rs:148-213 | in every run of one pump and any number of deletions, each acknowledged stream copy of an owned content-bearing fact is named by its live row, the transaction in flight, the carry entry of that row, or a command of the same owner |
| OutboxProtocol.CommandsNeverNameLiveOrContentFree | crates/claude-archive/src/stream_erasure.rs:80-116 | in every run a command names only acknowledged copies of its own owner's content-bearing facts whose outbox row is gone, so never a tombstone, report or command |
| OutboxProtocol.MarkNeverLost | crates/claude-archive/src/operation_outbox/publish.rs:248-276 | in every run the row of an acknowledged publication is there and unpublished until it is marked, so the mark affects one row |
| OutboxProtocol.StepKeeps | crates/claude-archive/src/operation_outbox/publish.rs:148-213 | every step of the pump, the carry check, a deletion, a resend or an acknowledgement keeps the invariant |
| OutboxProtocol.RunKeeps | crates/claude-archive/src/operation_outbox/publish.rs:48-120 | the invariant holds at every point of every run |
| OutboxProtocol.SelectionSpares | crates/claude-archive/src/privacy_deletion/planning.rs:619-632 | none of the queries that pick outbox rows for removal picks an unacknowledged tombstone or an unsent command |
| OutboxProtocol.StepSparesRow | crates/claude-archive/src/privacy_deletion/planning_closure.rs:489-533 | no step removes an unacknowledged tombstone or an unsent command, and no step unpublishes a row or changes an outcome |
| OutboxProtocol.RowsSurviveRuns | crates/claude-archive/src/privacy_deletion/tombstones.rs:327-346 | from any point of a run to any later one, a tombstone nobody acknowledged and a command not yet sent is still there while it stays so |
| OutboxProtocol.FirstOutcomeKept | crates/claude-archive/src/deletion_ack.rs:112-161 | every later state of a row shows the first acknowledgement outcome |
| OutboxProtocol.PublishedTombstonesAreResent | crates/claude-archive/src/operation_outbox/publish.rs:218-298 | in every run a published tombstone has its next resend scheduled and is never undeliverable |
| OutboxProtocol.IssuedCommandsSettle | crates/claude-archive/src/stream_erasure.rs:118-150 | every command ever issued is still a row, or its row was published or undeliverable when it left |
| OutboxProtocol.DroppingAsks | crates/claude-archive/src/stream_erasure.rs:80-116 | the commands the deleting statement enqueues are exactly the ones the protocol step asks for |
| OutboxPump.Publisher.PublishFirst | crates/claude-archive/src/operation_outbox/publish.rs:148-191 | a row that is gone, published or given up is skipped; any other publication is exactly a run of protocol steps, keeps the invariant, and leaves an acknowledged sequence in the marked row or in the carry map |
| OutboxPump.CommitLeads | crates/claude-archive/src/operation_outbox/publish.rs:176-184 | lock, acknowledgement, mark and forget together mark the row with the carried sequences and the new one |
| OutboxPump.FailureLeads | crates/claude-archive/src/operation_outbox/publish.rs:176-190 | a commit that reports an error, applied or not, leaves owned content carried |
| OutboxPump.EntryLeads | crates/claude-archive/src/operation_outbox/carry.rs:93-137 | the check of one carried entry is a run of protocol steps for each answer of the table: an unmarked row leaves the entry, a marked one forgets it, and for a row that is gone exactly its sequences are enqueued before it is forgotten |
| StreamErasure.ChunksShape | crates/claude-archive/src/stream_erasure.rs:95-115 | blocks are non-empty, ascending and at most 500 long |
| StreamErasure.BlocksPartition | crates/claude-archive/src/stream_erasure.rs:95-115 | the blocks of a set are disjoint and together exactly that set |
| StreamErasure.CommandsAskExactly | crates/claude-archive/src/stream_erasure.rs:95-115 | per owner the commands are ascending disjoint blocks that name exactly the positive sequences of that owner's content-bearing removed rows |
| StreamErasure.GroupByOwner | crates/claude-archive/src/stream_erasure.rs:95-104 | the loop over the returned rows groups exactly the sequences each owner's content-bearing rows name |
| StreamErasure.EnqueueOwner | crates/claude-archive/src/stream_erasure.rs:105-115 | the chunk loop enqueues the blocks of one owner and leaves every other owner's as they were |
| StreamErasure.EnqueueAll | crates/claude-archive/src/stream_erasure.rs:104-115 | every owner gets its blocks, unless some owner reference does not parse |
| StreamErasure.DropPublishedFactRows | crates/claude-archive/src/stream_erasure.rs:80-116 | removing rows yields, per owner, the blocks of exactly its erasable sequences, or the error of an owner that cannot be named |
| CarriedCopies.Copies.WithNew | crates/claude-archive/src/operation_outbox/carry.rs:36-45 | the carried sequences and the new one, ascending, each once |
| CarriedCopies.Copies.EraseOrphanedCopies | crates/claude-archive/src/operation_outbox/carry.rs:93-114 | an entry leaves only when its row is marked or commands ask for exactly its sequences; after a whole pass only entries of unmarked rows stay |
| BlobProtocol.NoCommittedRowDangles | crates/claude-archive/src/blob_protocol.rs:3-8 | in every run of any number of registrars, row removals and erasers, rollbacks after the file is gone included, no committed row references a digest absent from the store |
| BlobProtocol.ErasedStaysUnreferenced | crates/claude-archive/src/privacy_deletion/execution.rs:149-183 | while an eraser that found a digest unreferenced runs, no committed row comes to reference it |
| BlobProtocol.StepKeeps | crates/claude-archive/src/blob_protocol.rs:78-115 | every step of a registrar, eraser or row removal keeps the invariant |
| BlobProtocol.Store.Register | crates/claude-archive/src/blob_protocol.rs:78-115 | locks are taken in ascending order, one per referenced digest; it succeeds exactly when every blob is present or can be stored again, and a failure names the first missing one and leaves what it already restored |
| LockOrder.DeadlockEntangles | crates/claude-archive/src/blob_protocol.rs:10 | a reachable cycle of waiting transactions is a ring of lock programs each of which needs what the next holds |
| LockOrder.EntanglementDeadlocks | crates/claude-archive/src/blob_protocol.rs:10 | each such ring is a deadlock some run reaches, so the two are the same |
| LockOrder.DeadlockIffRing | crates/claude-archive/src/blob_protocol.rs:10 | for any set of paths, any number of transactions on each: a waiting cycle is reachable exactly when some deletions form a ring, each wanting a name the next has locked, with nothing locked in common; imports, receipts, digests and completions never matter |
| LockOrder.SingleAccountsDeadlockIff | crates/claude-archive/src/privacy_deletion/rows.rs:102-113 | when every deletion has one account: exactly when at least two deletions under distinct names each have the name of the next as their account |
| LockOrder.PairDeadlocksIff | crates/claude-archive/src/privacy_deletion/rows.rs:102-113 | two deletions with any accounts: exactly when one has the name of the other as an account and the other wants its name or an account it has locked by then |
| LockOrder.CrossedPairDeadlocks | crates/claude-archive/src/privacy_deletion/rows.rs:102-113 | two row removals, each recorded under the account of the other, do reach a deadlock |
| LockOrder.OperatorPathsNeverDeadlock | services/claude-archive/src/operator_commands.rs:127-139 | deletions recorded under a text that parses to the account they lock never deadlock, because no such text is the canonical spelling of another account |
| DeletionClosure.Closure.Remove | crates/claude-archive/src/privacy_deletion/planning_closure.rs:23-42 | adds one removal unless it is there, and nothing else |
| DeletionClosure.Closure.AddChildren | crates/claude-archive/src/privacy_deletion/planning_closure.rs:81-93 | one query adds exactly the rows of a table that reference a removed row |
| DeletionClosure.Descendants | crates/claude-archive/src/privacy_deletion/planning_closure.rs:125-139 | the recursive query finds every message below the given ones to any depth, cycles included, and no other |
| DeletionClosure.Closure.AddDependents | crates/claude-archive/src/privacy_deletion/planning_closure.rs:59-324 | the passes in their one order give the least set that holds the seeds and is closed under the child references, each item once |
| DeletionClosure.PassesCover | crates/claude-archive/src/privacy_deletion/planning_closure.rs:110-324 | the passes cover every child reference |
| DeletionClosure.PassesAreOrdered | crates/claude-archive/src/privacy_deletion/planning_closure.rs:59-79 | no later pass adds to a table whose children an earlier pass collected |
| DeletionOrder.PlanIsComplete | crates/claude-archive/src/privacy_deletion/planning.rs:371-475 | the closure of an export or tenant scope leaves out no dependent that the deletes would trip over |
| DeletionOrder.NoStatementLeavesDangling | crates/claude-archive/src/privacy_deletion/rows.rs:326-381 | after every statement of the transaction every foreign key names a row that is there |
| DeletionOrder.ClearingIsIdle | crates/claude-archive/src/privacy_deletion/rows.rs:345-349 | the statement that clears the parent of kept messages has nothing to clear |
| DeletionOrder.ExactlyTheDoomedLeave | crates/claude-archive/src/privacy_deletion/rows.rs:257-381 | the whole transaction deletes exactly the planned rows and their by-reference dependents, and leaves every other row as it was |
| DeletionOrder.Database.RemoveRows | crates/claude-archive/src/privacy_deletion/rows.rs:96-202 | the statement loop keeps the foreign keys whole throughout and ends with exactly the spared rows |
| DeletionPhases.PhasesInOrder | crates/claude-archive/src/privacy_deletion/execution.rs:58-147 | over any attempts stopped anywhere: rows leave in one commit, no byte goes before it, the audit is written once at completion, the recorded evidence is the plan's |
| DeletionPhases.CompletionIsSettled | crates/claude-archive/src/privacy_deletion/execution.rs:186-256 | the step that completes finds every erase item with a blob purged, or turned into a retain |
| DeletionPhases.ErasureTellsTheTruth | crates/claude-archive/src/privacy_deletion/execution.rs:149-183 | in any interleaving the commit of an erasure marks the item purged exactly when no row referenced its blob, and then the blob is gone; otherwise it is retained and nothing went |
| DeletionPhases.PurgedWasErased | crates/claude-archive/src/privacy_deletion/execution.rs:149-183 | in every run the blob of every item that became purged was erased |
| DeletionPhases.RetainedWasReferenced | crates/claude-archive/src/privacy_deletion/rows.rs:281-308 | in every run every item that became retained was referenced by a row at the commit that retained it |
| DeletionPhases.ReturnedIsStored | crates/claude-archive/src/privacy_deletion/execution.rs:186-203 | every attempt that returns, returns the stored report |
| DeletionPhases.CompletedForEver | crates/claude-archive/src/privacy_deletion/execution.rs:186-203 | a completed request never changes, so later calls return the same report |
| DeletionPhases.EvidenceIsStableIff | crates/claude-archive/src/privacy_deletion/execution.rs:88-112 | an attempt computes the evidence of the plan exactly when the items are still there, or were none |
| DeletionPhases.RacingAttemptStoresOtherEvidence | crates/claude-archive/src/privacy_deletion/execution.rs:58-81 | a run in which an attempt overtaken by a completion stores other evidence bytes, which nothing records |
| DeletionPhases.StepKeeps | crates/claude-archive/src/privacy_deletion/rows.rs:96-202 | every commit, and every stop between commits, keeps the invariant |
| DeletionPhases.Executor.EraseBytes | crates/claude-archive/src/privacy_deletion/execution.rs:120-147 | on success no erase item is left, every purged blob is gone and no referenced one is; a failure is an unresolved blob |
| DeletionPhases.Executor.Finalize | crates/claude-archive/src/privacy_deletion/execution.rs:58-81 | an uninterrupted attempt completes from any state when every blob is resolved, and a completed request only returns its report |
| Restoration.RestorationIsImportOfRetained | crates/claude-archive/src/privacy_deletion/restore.rs:174-225 | whatever the rows held, restoring gives the parts, the header and, per presented message, the role and model of an import of only the retained versions; a parent is the imported one or, where none links it, the old one |
| Restoration.RestoredParts | crates/claude-archive/src/privacy_deletion/restore.rs:174-225 | the part at every index is the first one a retained version presented there, and there is one exactly when some retained version presented one |
| Restoration.RestoredRoles | crates/claude-archive/src/reparse.rs:528-549 | role and model of every message are the last ones a retained version presented; other messages are unchanged |
| Restoration.NoDeletedPartSurvives | crates/claude-archive/src/privacy_deletion/restore.rs:174-225 | every surviving part is some retained version's part |
| Restoration.SkippingChangesNothing | crates/claude-archive/src/privacy_deletion/restore.rs:192-200 | skipping a version equal to the one before it changes no row |
| Restoration.PersistTwice | crates/claude-archive/src/reparse.rs:528-583 | persisting one version twice in a row changes nothing the second time |
| Restoration.PartsMeaning | crates/claude-archive/src/reparse.rs:553-563 | a part is stored where one was or one is presented, and the first one stays |
| Restoration.PersistMeaning | crates/claude-archive/src/reparse.rs:528-583 | what one persisted conversation does to each message row, parent links included |
| Restoration.RestoreTwice | crates/claude-archive/src/privacy_deletion/restore.rs:174-225 | restoring again gives the same parts and header |
| Restoration.RestoredMessages | crates/claude-archive/src/privacy_deletion/restore.rs:174-225 | a restored conversation has exactly the messages the removal left and those a retained version presents, and every parent is one of them |
| Restoration.RemovalKeepsParents | crates/claude-archive/src/privacy_deletion/planning_closure.rs:125-139 | removing messages with everything below them leaves no message without its parent |
| Restoration.ParentRestoredIff | crates/claude-archive/src/reparse.rs:565-581 | from the rows before the deletion and the messages it removes: a presented message has the imported parent unless it stayed, had a parent, and no retained version links it |
| Restoration.PlaceRestoredIff | crates/claude-archive/src/reparse.rs:545-549 | likewise its ordinal and timestamp are the imported ones unless it stayed with others than the first retained version that presents it gives |
| Restoration.Tables.PersistParts | crates/claude-archive/src/reparse.rs:553-563 | the part loop inserts each part where there is none |
| Restoration.Tables.LinkParents | crates/claude-archive/src/reparse.rs:565-581 | the second loop links parents among the presented messages |
| Restoration.Tables.PersistMessages | crates/claude-archive/src/reparse.rs:528-583 | both loops together are the persist step |
| Restoration.Tables.RestoreConversation | crates/claude-archive/src/privacy_deletion/restore.rs:174-225 | deletes the parts, replays with the skip, writes the newest header; no held version leaves everything |
| VersionStore.RunKeeps | crates/claude-archive/src/entity_versions.rs:84-133 | at every commit of every run of imports, reparses and deletions each observation has its snapshot, each stored version is named by an observation, each project and conversation holds content an export still there presented, and each message is observed by an export still there |
| VersionStore.StepKeeps | crates/claude-archive/src/privacy_deletion/restore.rs:35-82 | each import, reparse and deletion keeps that |
| VersionStore.DeletionKeeps | crates/claude-archive/src/privacy_deletion/restore.rs:35-82 | a deletion keeps it: no kept record is left with content only deleted exports presented |
| VersionStore.SurvivorIsReplayed | crates/claude-archive/src/privacy_deletion/restore.rs:111-145 | a kept conversation a deleted export observed ends as an import of exactly the versions the retained exports present, in order of receipt |
| VersionStore.KeptMessages | crates/claude-archive/src/privacy_deletion/planning_closure.rs:54-139 | the messages of a kept conversation: unchanged if no deleted export observed it, else those that were there without the ones only deleted exports observed and all below them, and those the versions left present; each is observed by an export left |
| VersionStore.UnobservedRow | crates/claude-archive/src/privacy_deletion/rows.rs:55-57 | a kept record no deleted export observed changes in one way: a removed project is cleared from it |
| VersionStore.ParentRestoredIff | crates/claude-archive/src/reparse.rs:565-581 | from the rows before any deletion in any reachable store: exactly when a presented message ends with the parent an import of only the retained versions gives |
| VersionStore.PlaceRestoredIff | crates/claude-archive/src/reparse.rs:545-549 | the same for its ordinal and timestamp |
| VersionStore.DeletedParentStays | crates/claude-archive/src/reparse.rs:565-581 | a run of two imports and a deletion after which a parent only the deleted export wrote is still there |
| VersionStore.DeletedPlaceStays | crates/claude-archive/src/reparse.rs:545-549 | a run after which an ordinal only the deleted export gave is still there |
| VersionStore.OtherAccountsUntouched | crates/claude-archive/src/privacy_deletion/restore.rs:88-109 | no row and no version of an account the deletion does not lock changes |
| VersionStore.ByReceipt | crates/claude-archive/src/privacy_deletion/restore.rs:126-145 | versions are taken by time of receipt and then by export id |
| VersionStore.ImportHasEffect | crates/claude-archive/src/entity_versions.rs:84-116 | an import changes only the records it presents and its own observations of them |
| VersionStore.LastPresentedStays | crates/claude-archive/src/entity_versions.rs:84-116 | an export presents the version it presented last |
| VersionStore.Tables.Prune | crates/claude-archive/src/entity_versions.rs:120-133 | exactly the versions of the record that no export names leave |
| VersionStore.Tables.Present | crates/claude-archive/src/entity_versions.rs:84-116 | the observation names the new digest, its snapshot is kept, an unnamed earlier one goes |
| VersionStore.Tables.ImportRecord | crates/claude-archive/src/initial_projection.rs:80-110 | writes the shared row and presents the version |
| VersionStore.Tables.RestoreEach | crates/claude-archive/src/privacy_deletion/restore.rs:52-70 | the loop writes exactly the listed records again from what is held of them |
| VersionStore.Tables.RestoreRetainedVersions | crates/claude-archive/src/privacy_deletion/restore.rs:35-82 | stale projects and stale or surviving conversations of the accounts are restored, the rest stays, unnamed versions go |
| VersionStore.RestorationMeetsDeletion | crates/claude-archive/src/privacy_deletion/restore.rs:35-82 | that method, given the survivors, leaves the rows of the deletion step |
| Reannounce.ConsumerHoldsTheRows | crates/claude-archive/src/contract_projection/reannounce.rs:3-8 | in every run whose imports are announced, a consumer that reads the events in outbox order holds exactly the projects and conversations there are, whichever of the dropped facts reached it: each project as its row stands, and each conversation too, except that it may still name a project that went |
| Reannounce.ConsumerHoldsTheRowsExactly | crates/claude-archive/src/contract_projection/reannounce.rs:3-8 | if every export also observes the projects its conversations name, everything is held exactly as its row stands |
| Reannounce.NothingRemovedIsHeld | crates/claude-archive/src/privacy_deletion/tombstones.rs:78-170 | in every run, announced or not, the consumer holds no removed project or conversation |
| Reannounce.RunKeeps | crates/claude-archive/src/contract_projection/reannounce.rs:207-227 | the invariant behind it holds at every point of every run |
| Reannounce.DeletionKeeps | crates/claude-archive/src/privacy_deletion/rows.rs:151-180 | tombstones, re-announcements and purge together keep every kept record announced as it is and every removed one gone |
| Reannounce.ImportKeeps | crates/claude-archive/src/contract_projection.rs:271-376 | an import announces what its rows changed and leaves every other announcement current |
| Reannounce.OutboxForgetsTheDeleted | crates/claude-archive/src/privacy_deletion/tombstones.rs:327-346 | no fact of a deleted archive and no fact of a removed record stays in the outbox |
| Reannounce.AgainFact | crates/claude-archive/src/contract_projection/reannounce.rs:174-199 | a survivor announced again is announced as its row stands, under the earliest export left that presented it |
| Reannounce.SurvivingConversationIsHeld | crates/claude-archive/src/contract_projection/reannounce.rs:282-349 | for any outbox: a kept conversation a deleted export observed is held exactly as its rows are restored, if the export it is announced under was announced |
| Reannounce.SurvivorsAreHeldInRuns | crates/claude-archive/src/contract_projection/reannounce.rs:282-349 | the same at every deletion of every run, announced or not |
| Reannounce.UnobservedConversationIff | crates/claude-archive/src/privacy_deletion/tombstones.rs:282-317 | for any outbox: a kept conversation the deletion did not observe is held as its row stands exactly when it had no project or its project is kept |
| Reannounce.RemovedProjectStaysNamed | crates/claude-archive/src/privacy_deletion/tombstones.rs:282-317 | a run of two announced imports and a deletion after which the consumer holds a conversation with a project that is gone |
| Reannounce.ProjectRepairedIff | crates/claude-archive/src/contract_projection/reannounce.rs:229-271 | for any outbox: a kept project is held as restored exactly when its latest fact names a deleted archive or an export left still presents what its row held |
| Reannounce.DeletedProjectContentStays | crates/claude-archive/src/contract_projection/reannounce.rs:229-271 | a run where it is not: two unannounced imports, a reparse of the first that announces what the second wrote, and the deletion of the second |
| Reannounce.CollectAgain | crates/claude-archive/src/contract_projection/reannounce.rs:282-349 | the loops announce again exactly the survivors that need it and list exactly the outdated conversations |
| Reannounce.CollectedMeetsStep | crates/claude-archive/src/contract_projection/reannounce.rs:207-227 | what the loops collect is what the deletion step announces again |
| ArtifactLineage.OrderMeaning | crates/claude-archive/src/artifact.rs:299-324 | ordering succeeds exactly when every named predecessor is present and there is no cycle; it then lists each version once, predecessors first, and otherwise names a version that explains the failure |
| ArtifactLineage.VisitMeaning | crates/claude-archive/src/artifact.rs:355-400 | what one visit appends, or why it stops, from any state of the walk |
| ArtifactLineage.Visitor.VisitVersion | crates/claude-archive/src/artifact.rs:355-400 | the recursive visit over the two mutable sets terminates on any graph and computes that |
| ArtifactLineage.OrderVersions | crates/claude-archive/src/artifact.rs:299-324 | the loop over the keys yields the order or the first error |
| ArtifactReconciliation.OrderAndRepetitionDoNotMatter | crates/claude-archive/src/artifact.rs:162-236 | whether reconciliation succeeds and every version chain depend only on which observations there are |
| ArtifactReconciliation.TwiceIsOnce | crates/claude-archive/src/artifact.rs:162-236 | reconciling the same observations twice over is reconciling them once |
| ArtifactReconciliation.ReconcileMeaning | crates/claude-archive/src/artifact.rs:162-236 | it succeeds exactly when the observations agree and every lineage is complete and acyclic, and each chain then lists exactly the observed versions |
| ArtifactReconciliation.MergeMeaning | crates/claude-archive/src/artifact.rs:179-236 | merging succeeds exactly when no two observations disagree on an identity or a shared version |
| ArtifactReconciliation.DisplayIsFirst | crates/claude-archive/src/artifact.rs:187-200 | title and raw record of a merged Artifact are those of its first observation |
| ArtifactReconciliation.DisplayStableIff | crates/claude-archive/src/artifact.rs:187-200 | they are the same in every order exactly when all observations of the Artifact share them |
| ArtifactReconciliation.DisplayDependsOnOrder | crates/claude-archive/src/artifact.rs:187-200 | two observations that differ there do show in the order |
| ArtifactReconciliation.MergeVersionsInto | crates/claude-archive/src/artifact.rs:207-236 | the version loop merges or stops at the first conflict |
| ArtifactReconciliation.MergeArtifact | crates/claude-archive/src/artifact.rs:179-205 | an unknown Artifact is added, a known one must have the same identity |
| ArtifactReconciliation.ReconcileExports | crates/claude-archive/src/artifact.rs:162-177 | the loops over exports and Artifacts, then the ordering of each, compute the reconciliation |
| Reparenting.NearestRepresented | crates/claude-archive/src/contract_projection/loaders.rs:401-409 | on any parent graph the bounded walk yields exactly the nearest represented ancestor, or none when there is none |
| Reparenting.LongWalkIsEnough | crates/claude-archive/src/contract_projection/loaders.rs:401-409 | a walk longer than the number of rows has seen every ancestor |
| Reparenting.NearestIsUnique | crates/claude-archive/src/contract_projection/loaders.rs:401-409 | there is one answer |
| Reparenting.PublishRow | crates/claude-archive/src/contract_projection/loaders.rs:382-424 | a row is published under its nearest ancestor exactly when it is stamped and identified |
| Reparenting.LoadMessages | crates/claude-archive/src/contract_projection/loaders.rs:334-437 | loads exactly when every represented row can be published; then each in order, with a warning exactly when a row was left out |
| Reparenting.ParentIsPublished | crates/claude-archive/src/contract_projection/loaders.rs:410-416 | every published parent is a published message of the conversation |
| Reparenting.PublishedAcyclicIff | crates/claude-archive/src/contract_projection/loaders.rs:364-425 | the published graph is acyclic exactly when no stored cycle passes through a represented row |
| Reparenting.AcyclicStaysAcyclic | crates/claude-archive/src/contract_projection/loaders.rs:364-425 | so an acyclic stored graph gives an acyclic published one |
| Reparse.Compare | crates/claude-archive/src/reparse.rs:397-457 | lists each identity of both sides once, in order, with its kind; warnings, announced subjects and completeness follow |
| Reparse.CompareParsed | crates/claude-archive/src/reparse.rs:412-428 | the loop over the parsed conversations gives each its kind and lists those to announce |
| Reparse.CompareOmitted | crates/claude-archive/src/reparse.rs:429-439 | the loop over the current ones lists those the parse leaves out |
| Reparse.SortChanges | crates/claude-archive/src/reparse.rs:440-442 | sorting keeps every change and orders them by identity |
| Reparse.ChangesUnique | crates/claude-archive/src/reparse.rs:397-457 | there is one such list |
| Reparse.ApplyConversations | crates/claude-archive/src/reparse.rs:459-487 | the loop writes and presents each added or changed conversation |
| Reparse.SecondCompareIsQuietIff | crates/claude-archive/src/reparse.rs:397-487 | comparing again after applying finds only unchanged and proposed removals exactly when the first and last parsed conversation of every written id agree |
| Reparse.SecondCompareIsQuiet | crates/claude-archive/src/reparse.rs:397-487 | so always for a parse with unique ids |
| Reparse.RepeatedIdNeverSettles | crates/claude-archive/src/reparse.rs:459-475 | a repeated id with two contents stays changed: the plan compares the last and applies the first |
| Reparse.OtherExportsUntouched | crates/claude-archive/src/entity_versions.rs:84-116 | applying changes no observation of another export |
| ResendPolicy.ExponentBoundIsInert | crates/claude-archive/src/operation_outbox/publish.rs:282-298 | bounding the exponent at 60 never changes the wait of an accepted configuration |
| ResendPolicy.WaitNeverShrinks | crates/claude-archive/src/operation_outbox/publish.rs:282-298 | the wait never shrinks |
| ResendPolicy.WaitWithinBounds | crates/claude-archive/src/config.rs:282-291 | the wait stays between the first wait and the cap |
| ResendPolicy.WaitDoubles | crates/claude-archive/src/operation_outbox/publish.rs:277-298 | each wait is twice the one before, up to the cap |
| ResendPolicy.AtCapFrom15 | crates/claude-archive/src/config.rs:379-392 | every accepted configuration waits the cap from the fifteenth doubling on |
| ResendPolicy.FifteenIsTight | crates/claude-archive/src/config.rs:79-84 | one accepted configuration does not at the fourteenth |
| ResendPolicy.RefusalDelayBounds | crates/claude-archive/src/operation_outbox/publish.rs:305-324 | the refusal delay runs from 2 to 256 seconds, so its cap of 300 never binds |

## Left out

- The pump process restarting: the carry map lives in memory, so `OutboxProtocol` assumes one pump that does not restart.
- Stream copies whose publish timed out: no sequence is known for them, so only acknowledged copies are tracked.
- `publish_pending_with` as one loop: a first publication is `OutboxPump.Publisher.PublishFirst` and a resend one step, but the candidate query, the batch counters and the order under refusal are not modelled.
- Row locks other than the pump's and the queueing of lock waiters: `LockOrder` covers the advisory locks.
- Hash collisions of advisory locks, SHA-256 and JSON: a lock is its name and a digest is its content.
- The blob decisions of the closure and the completeness of erasure: a version removed under a kept Artifact gets no erase item and a blob judged shared is not reconsidered, so only what erase items name is claimed.
- DeletionClosure.Closure.AddDependents: covers the record tables; unknown-record, blob, analysis-link, inbox and outbox items are not in its rows.
- DeletionOrder.PlanIsComplete: assumes that the plan is executed against the rows it was computed from and that an operation binding names an import run of its own export.
- DeletionPhases.Executor.Finalize: does not model `finalize`, the entry point that removes rows and completes without erasing bytes.
- VersionStore.RunKeeps: leaves out observations and rows without a digest.
- DeletionOrder.ExactlyTheDoomedLeave: its rows hold the references that restrict a delete; the clearing of a kept conversation's project is in `VersionStore.UnobservedRow`.
- Reannounce.ConsumerHoldsTheRows: one owner with one account, every row within the event size and loadable as a contract record, events read in outbox order; Artifact subjects are left out because their provider ids recur across scopes.
- Restoration.RestorationIsImportOfRetained: parser stamps, unknown fields and the resolution of a provider project id to a row id are outside it; message observations are in `VersionStore`.
- Reparse.ApplyConversations: the revision rows it appends are not modelled.
- ArtifactReconciliation.ReconcileExports: payload storage, media types and quarantine are part of a version's evidence and storage errors are left out.
- ResendPolicy.WaitDoubles: waits are whole seconds; the service computes them as floats, which hold these products exactly.
- HTTP routes, readiness, telemetry, the command line, configuration loading, export parsing, portable export, completeness counts and import-run states: field-by-field code with little to prove.
