# A verification model of the evidence engine and the run queue

This project models the parts of ExamSage that have to be right when things go wrong, and proves what they
promise: the crash-safe artifact registry and store, the evidence store with its fenced claims, the scheduler
over it, study-map acceptance and coverage, the source splitters, and the queue of agent runs.
`dafny verify dfyconfig.toml` checks all of it.

## How the pieces fit

- `registry.dfy` has the registry's rows, its fifteen mutators and its state check; `registry_invariant.dfy`
  strengthens the check to what the mutators keep, and `registry_rules.dfy` says when each of them changes
  what. `registry_json.dfy`, `registry_log.dfy` and `registry_file.dfy` are the document the rows are written
  as, the hash-chained log, and the open file; `registry_chain.dfy` is what the chain is for.
- `artifact_layout.dfy`, `artifact_steps.dfy` and `artifact_store.dfy` are publication and its recovery:
  the layouts a publication can be cut short in, the steps between them, and the methods that take them.
  `artifact_deletion.dfy` and `workspace_deletion.dfy` delete a workspace, item by item and as a whole.
- `evidence_tables.dfy` has each transaction of the evidence store as a function of the tables, which
  `evidence_rules.dfy` ties to what is refused and what happens to each row. `evidence_invariant.dfy` and
  `evidence_facts.dfy` prove what they keep and promise, `evidence_citations.dfy` what holds of the stored
  citations, and `evidence_store.dfy` is the store itself.
- `scheduler.dfy` is the system of workers, tables and everybody else; `scheduler_rules.dfy` says what a
  worker does with each answer, and `scheduler_runs.dfy` runs frontiers.
- `study_graph.dfy` and `study_map.dfy` accept a study map; `coverage.dfy` counts its coverage, and
  `coverage_ledger.dfy` builds the ledger and reads it part by part;
  `snapshot_rows.dfy` says which calls make the tables forget a snapshot, `snapshot_revocation.dfy` keeps the
  tables and the artifact store together when snapshots go, and `orphaned_document.dfy` shows where that fails.
- `text_lines.dfy`, `tabular.dfy`, `text_chunks.dfy` and `pdf_ranges.dfy` are the splitters;
  `tabular_rules.dfy` tells a table's records by counting quotes.
- `run_queue.dfy` specifies the run queue and proves its promises, `run_queue_rules.dfy` ties it to the rows,
  and `run_coordinator.dfy` implements it.

Two conventions run through all of it. A durable step can go right, fail before or after it took effect, or
be the last before a crash; the parameter `quiet` asks for a run in which nothing fails, so that a contract
can say what an undisturbed run achieves. And a class method is tied both to a function of the old state,
about which the lemmas are proved, and to a rule that says over the rows what changes, without that function.

## What is assumed

- The owned filesystem creates, renames without replacing, and deletes single names atomically, each after
  checking the file's identity; a file created gets an identity no live file has. Nothing else touches the
  directory, except where a contract asks nothing of it (a deletion is safe in any directory).
- SHA-256 is a parameter. Where bytes are compared, the contract asks that no other content has the digest in
  question, or that no two of the named inputs share one.
  Claim tokens, cache digests and unit digests are modelled by what they are digests of; of citation ids
  `EvidenceCitations.Distinguishes` says what is asked.
- The JSON library reads back what it wrote and writes no newline; these, with the digest's length, are the
  premises `RegistryLog.Sound`.
- Random names are fresh: `WorkspaceDeletion.FreshRoundsFor` says what that means for deletions, and
  `WorkspaceDeletion.TokensMakeFreshRounds` that it is enough for the random tokens to differ.
- Deleting the row of a part that an unfinished worker holds is excluded in `Scheduler.Allowed`;
  `EvidenceFacts.RowDeletionRevivesTokens` shows why it has to be, and `SchedulerRuns.RunsSurvive` what holds
  without it.

## Model

| member | source | states |
|---|---|---|
| `RegistryInvariant.SpaceStep` | exam_predictor/evidence/registry.py:248-714 | In every state the registry can reach, each of the 15 mutators yields workspace rows that pass the state check exactly when the request is well formed, and then the strengthened invariant holds again |
| `RegistryInvariant.PostCheckIsExact` | exam_predictor/evidence/registry.py:722-733 | The check after a mutator rejects a changed copy if and only if the request itself was ill formed |
| `RegistryInvariant.ReachablePostCheckNeverRejects` | exam_predictor/evidence/registry.py:1038-1139 | From an empty registry, after any calls at all, the check never rejects a well-formed request |
| `RegistryInvariant.RunKeepsInv` | exam_predictor/evidence/registry.py:722-733 | Any sequence of calls with any arguments, accepted, refused or rejected, keeps every workspace's rows valid |
| `RegistryInvariant.StateCheckAloneIsNotInductive` | exam_predictor/evidence/registry.py:494-518 | The state check by itself is not enough: it accepts an installed journal filed under the wrong kind and then rejects that journal's commit |
| `RegistryInvariant.EmptyLifeLeavesNothing` | exam_predictor/evidence/registry.py:248-347 | Reserving and finalizing record exactly what was asked for; a workspace reserved and retired, or finalized and deleted without artifacts, leaves the registry empty |
| `RegistryInvariant.RowsCarryCurrentGeneration` | exam_predictor/evidence/registry.py:1083-1139 | Every intent, journal, artifact and delete item of a workspace carries the workspace's current generation |
| `RegistryInvariant.StaleGenerationIsInert` | exam_predictor/evidence/registry.py:367-714 | A call made for a generation that is not the current one changes nothing |
| `RegistryInvariant.EndedGenerationStaysDead` | exam_predictor/evidence/registry.py:248-296 | Once a generation has ended, no run that does not reserve it again brings it back, and every late call made for it changes nothing |
| `RegistryInvariant.RevocationIsPermanent` | exam_predictor/evidence/registry.py:370-391 | A snapshot slot that holds the tombstone holds it after every run in which its generation is still alive |
| `RegistryInvariant.CommitKeepsRevocation` | exam_predictor/evidence/registry.py:494-518 | The only commit a revoked snapshot slot ever gets commits the tombstone again |
| `RegistryRules.ReservationRules` | exam_predictor/evidence/registry.py:248-347 | A workspace is reserved exactly when it has no rows, retired only while reserved and only by its own generation, and finalized only by its own reservation, in each case with exactly the rows named |
| `RegistryRules.DeletionRules` | exam_predictor/evidence/registry.py:569-714 | A deletion begins exactly for an active workspace of that generation with nothing under way, and plans one item for each artifact; the rows go exactly when every item is removed |
| `RegistryRules.PlanRule` | exam_predictor/evidence/registry.py:622-645 | A quarantine name is recorded exactly for an item still planned that has none or the same one |
| `RegistryRules.DeleteItemRule` | exam_predictor/evidence/registry.py:647-681 | An item goes exactly from planned to quarantined or from quarantined to removed, under one name, and no other item changes |
| `RegistryRules.IntentRules` | exam_predictor/evidence/registry.py:367-442 | A publication is announced exactly with nothing under way, for the claim the slot has now, never over a tombstone with anything else; its temporary identity is recorded once; it is cleared only under its own names |
| `RegistryRules.PrepareRule` | exam_predictor/evidence/registry.py:444-462 | A journal replaces the announcement exactly when the two agree in everything, save that it may supply the identity |
| `RegistryRules.JournalRules` | exam_predictor/evidence/registry.py:467-518 | A journal advances one phase at a time under its own token; exactly an installed one is committed, and then its new claim takes the slot |
| `RegistryRules.JournalEndRules` | exam_predictor/evidence/registry.py:520-567 | A journal is cleared exactly when committed, and given up only before `installed` |
| `RegistryRules.PublicationIsWellFormed` | exam_predictor/evidence/registry.py:1083-1139 | A publication under way is of the current generation, for three different files in its collection's own directory, and what the slot holds is the old claim until the commit |
| `RegistryRules.ClaimsAreWellFormed` | exam_predictor/evidence/registry.py:1054-1139 | Every claim is filed in its collection's directory under its artifact's name and of its collection's kind, and every delete item is one of a claim |
| `RegistryRules.GenerationIsKept` | exam_predictor/evidence/registry.py:248-714 | While a workspace has rows, every call whatever keeps its generation or ends it |
| `RegistryRules.SecondReservationIsInert` | exam_predictor/evidence/registry.py:248-265 | Reserving a workspace that has rows, under whatever generation, returns and leaves the whole registry as it was |
| `Registry.PathInjective` | exam_predictor/evidence/registry.py:1142-1157 | Two files have the same slot only if they have the same collection and the same name |
| `RegistryJson.DigitsRoundTrip` | exam_predictor/evidence/registry.py:1456-1472 | A number written in decimal reads back as itself |
| `RegistryJson.ClaimRoundTrip` | exam_predictor/evidence/registry.py:1316-1355 | An artifact claim survives being written and parsed |
| `RegistryJson.IntentRoundTrip` | exam_predictor/evidence/registry.py:1358-1410 | A publish intent, with or without an old claim and a temporary identity, survives being written and parsed |
| `RegistryJson.JournalRoundTrip` | exam_predictor/evidence/registry.py:1413-1453 | A publish journal survives being written and parsed |
| `RegistryJson.GatherRestores` | exam_predictor/evidence/registry.py:1256-1312 | Reading a table's rows back, refusing duplicates, restores the table whatever the order of the rows |
| `RegistryJson.NestingRestores` | exam_predictor/evidence/registry.py:1271-1278 | The two-level collection table is restored if and only if no workspace's inner map is empty |
| `RegistryJson.TablesRoundTrip` | exam_predictor/evidence/registry.py:1208-1313 | All six tables read back as written, save that empty inner maps are lost |
| `RegistryLog.ValidStateRoundTrips` | exam_predictor/evidence/registry.py:1250-1313 | Every state that passes the state check is restored exactly by writing it out and reading it back |
| `RegistryLog.EmptyCollectionsAreLost` | exam_predictor/evidence/registry.py:1211-1219 | A workspace whose collection map is empty is not restored, so the check has to demand all three collections |
| `RegistryLog.HexRoundTrip` | exam_predictor/evidence/registry.py:803-806 | A digest's lower-case hexadecimal text reads back as the digest and holds no tab and no newline |
| `RegistryLog.RecordRoundTrips` | exam_predictor/evidence/registry.py:796-874 | A record decodes, at its own place in the chain, to the state, sequence and digest it was made from, and holds no newline before its end |
| `RegistryLog.ReadingGoesOn` | exam_predictor/evidence/registry.py:765-775 | What follows complete records is read from where they end, with the view they lead to |
| `RegistryLog.TruncationIsExact` | exam_predictor/evidence/registry.py:765-787 | Cutting a log off behind its last complete record changes nothing that is read from it |
| `RegistryLog.AppendIsAtomic` | exam_predictor/evidence/registry.py:830-853 | A valid log with any proper prefix of the next record behind it reads as before; with the whole record it reads as the new state |
| `RegistryChain.AcceptedIsBound` | exam_predictor/evidence/registry.py:796-828 | A record is accepted only under the digest of the one before it and its own body, in canonical form, with the next sequence number, and for the root it was written for |
| `RegistryChain.DigestFixesLog` | exam_predictor/evidence/registry.py:765-794 | Two logs with the same number of records and the same last digest are the same bytes, unless two different inputs among their own records have one digest |
| `RegistryFile.LogFile.Scan` | exam_predictor/evidence/registry.py:735-775 | The loop over lines computes the recursive reading of the log |
| `RegistryFile.LogFile.Load` | exam_predictor/evidence/registry.py:735-794 | A load succeeds only on a log that did not go back in sequence, length or digest; it truncates exactly the incomplete tail and never lowers what it remembers |
| `RegistryFile.LogFile.LoadNew` | exam_predictor/evidence/registry.py:750-754 | A new file's header is written by the process that created it; the file stands for the empty registry if and only if the whole header is there, so a cut inside it is for good |
| `RegistryFile.LogFile.Append` | exam_predictor/evidence/registry.py:830-853 | However the write ends, the file reads as the state before or the state after; a record over a size limit is refused untouched |
| `RegistryFile.LogFile.Change` | exam_predictor/evidence/registry.py:726-732 | A copy that is changed and accepted is written as the next record; anything else leaves the file standing for the state before |
| `RegistryFile.LogFile.Mutate` | exam_predictor/evidence/registry.py:722-733 | One call leaves the file standing for the old state or for the mutated one; it returns only if the call was accepted or changed nothing, and then the file stands for the mutated state; an unreadable file is left alone |
| `RegistryFile.LogFile.RunThroughFailures` | exam_predictor/evidence/registry.py:722-794 | After any calls, each failing or crashing anywhere with a new process after each crash, the file stands for the run of the calls that took effect, every returned call among them, and satisfies the invariant |
| `ArtifactLayout.RegistryActsOnRows` | exam_predictor/evidence/registry.py:722-733 | A call is accepted exactly when its workspace's own rows accept it, and changes no other workspace |
| `ArtifactLayout.QuietLayoutIsSettled` | exam_predictor/evidence/artifacts.py:692-728 | With nothing under way, the directory holds exactly the claimed files |
| `ArtifactLayout.NewWorkspaceIsRecoverable` | exam_predictor/evidence/artifacts.py:730-786 | A workspace that has just been finalized, with no files, is recoverable and settled |
| `ArtifactLayout.OldFileSurvives` | exam_predictor/evidence/artifacts.py:454-512 | Until `installed` is recorded, the old file is whole at the target or at the backup |
| `ArtifactLayout.DecidedFilesExist` | exam_predictor/evidence/artifacts.py:514-674 | In every state a publication can be cut short in, each decided file is somewhere in the directory |
| `ArtifactLayout.ClaimFixesFile` | exam_predictor/evidence/artifacts.py:1124-1145 | Two files that satisfy one claim are the same, if no other content has the digest of the first |
| `ArtifactStore.Classify` | exam_predictor/evidence/artifacts.py:1124-1145 | A name is absent, a match for one of the claims with the claimed content, or foreign |
| `ArtifactStore.FirstIdentityDecides` | exam_predictor/evidence/artifacts.py:1124-1145 | The first claim that has the file's identity decides: it is returned if the content is the claimed one, and the file is refused otherwise, as it is when no claim has its identity |
| `ArtifactStore.Store.Record` | exam_predictor/evidence/registry.py:722-733 | One registry call takes effect as a whole or not at all, whether it returns, raises or crashes |
| `ArtifactStore.Store.Stage` | exam_predictor/evidence/artifacts.py:404-442 | Creating, claiming, filling and journalling the temporary file keeps the decided state and stays recoverable at every failure point |
| `ArtifactStore.Store.Install` | exam_predictor/evidence/artifacts.py:454-512 | Moving the old file aside and the new one in decides the new file exactly if it returns, and is recoverable wherever it stops |
| `ArtifactStore.Store.Rollback` | exam_predictor/evidence/artifacts.py:628-674 | From any layout before `installed`, the old file is put back at the target and the other names are freed |
| `ArtifactStore.Store.RecoverPublish` | exam_predictor/evidence/artifacts.py:514-573 | Rolls back before `installed` and forward from it on, without ever changing what is decided |
| `ArtifactStore.Store.RecoverIntent` | exam_predictor/evidence/artifacts.py:575-626 | Removes an announced publication's file and announcement; it refuses, changing nothing, exactly when the file exists but its identity was never recorded |
| `ArtifactStore.Store.Recover` | exam_predictor/evidence/artifacts.py:692-728 | A completed recovery leaves exactly the decided files under their slots and nothing under way |
| `ArtifactStore.Store.Publish` | exam_predictor/evidence/artifacts.py:360-452 | A publication either leaves the decided state or publishes exactly its artifact in its slot; if it returns, the slot holds the given bytes; over a tombstone it never succeeds; undisturbed it returns |
| `ArtifactStore.Store.PublishSettled` | exam_predictor/evidence/artifacts.py:374-451 | The same from a workspace with nothing under way, with the clean-up an exception leads to |
| `ArtifactStore.Store.RevokeSnapshot` | exam_predictor/evidence/artifacts.py:229-257 | A revocation that returns leaves the tombstone in the slot; one already revoked stays so however the call ends |
| `ArtifactStore.Store.RecoverAfterCrashes` | exam_predictor/evidence/artifacts.py:514-674 | After any number of recoveries cut short anywhere, one left alone ends with exactly the decided files, unless the cut fell into the one window recovery refuses |
| `ArtifactDeletion.AdvancingMakesProgress` | exam_predictor/evidence/registry.py:647-681 | Each recorded phase of a delete item leaves exactly one phase less to go in all |
| `ArtifactDeletion.DeletableLayoutIsKnown` | exam_predictor/evidence/artifacts.py:849-887 | Every state a deletion can be cut short in passes the check made before it is taken up again |
| `ArtifactDeletion.LayoutTells` | exam_predictor/evidence/artifacts.py:849-889 | The layout check passes exactly when no file stands anywhere but where an item's file may still be, and every such file is the claimed one, byte for byte |
| `ArtifactDeletion.QuarantineItem` | exam_predictor/evidence/artifacts.py:921-957 | Moves only the claimed file, only to its planned free name, and records that; from a resumable deletion it always can |
| `ArtifactDeletion.RemoveItem` | exam_predictor/evidence/artifacts.py:958-987 | Removes only the claimed file from its quarantine name and records that |
| `ArtifactDeletion.EraseItem` | exam_predictor/evidence/artifacts.py:889-987 | Takes one item from whatever phase it is in to removed, touching no other item and no file that is not its claim |
| `WorkspaceDeletion.EraseItems` | exam_predictor/evidence/artifacts.py:889-987 | Erases all items in any order; cut short anywhere it leaves a deletion that can be taken up again |
| `WorkspaceDeletion.NothingIsLeft` | exam_predictor/evidence/artifacts.py:1071-1092 | When every item is removed, the directory of a resumable deletion is empty |
| `WorkspaceDeletion.ForgetWorkspace` | exam_predictor/evidence/artifacts.py:989-1069 | The workspace's rows go only when every item is removed and no file is left |
| `WorkspaceDeletion.ResumeDeletion` | exam_predictor/evidence/artifacts.py:322-346 | Re-run from any state, a deletion moves or removes nothing but claimed files; from a resumable one, undisturbed, it empties directory and registry; with a foreign file about, it touches nothing |
| `WorkspaceDeletion.BeginDeletion` | exam_predictor/evidence/artifacts.py:283-321 | Recovers what is under way, then turns exactly the decided files into delete items |
| `WorkspaceDeletion.TokensMakeFreshNames` | exam_predictor/evidence/artifacts.py:903-904 | Quarantine names made from distinct random tokens are no slot and differ from one another |
| `WorkspaceDeletion.TokensMakeFreshRounds` | exam_predictor/evidence/artifacts.py:903-904 | So are those of any number of rounds, if no two tokens for different files are the same |
| `WorkspaceDeletion.DeleteWorkspace` | exam_predictor/evidence/artifacts.py:283-346 | A deletion that returns leaves no file and no row; cut short it leaves a recoverable workspace with nothing decided differently, a half-deleted one that can be taken up again, or nothing; undisturbed it ends from any of them |
| `WorkspaceDeletion.DeleteAfterCrashes` | exam_predictor/evidence/artifacts.py:283-346 | After any number of deletions cut short anywhere, before or after the deletion is recorded, one left alone leaves no file and no row; it fails if and only if it began in the one window recovery refuses, and then nothing has changed |
| `EvidenceInvariant.UpsertOneKeepsInv` | exam_predictor/evidence/store.py:407-503 | Storing a plan, new or changed, keeps the tables consistent: stale units, snapshots, cache rows and attempts go together |
| `EvidenceInvariant.PublishKeepsInv` | exam_predictor/evidence/store.py:1238-1372 | Publishing evidence keeps the tables consistent |
| `EvidenceInvariant.InvalidateKeepsInv` | exam_predictor/evidence/store.py:1600-1665 | Invalidating an entry withdraws its units with every snapshot that used them |
| `EvidenceInvariant.RetryKeepsInv` | exam_predictor/evidence/store.py:625-666 | Requeuing failures and dropping those never attempted keeps the tables consistent |
| `EvidenceInvariant.StepKeepsInv` | exam_predictor/evidence/store.py:407-1823 | Every transaction the program makes keeps the tables consistent, whether it commits or raises |
| `EvidenceInvariant.RunKeepsInv` | exam_predictor/evidence/store.py:407-1823 | So does every sequence of them from empty tables |
| `EvidenceFacts.ProcessedMeansOneUnit` | exam_predictor/evidence/store.py:1261-1372 | A part is processed if and only if it has a unit, and then it has exactly one |
| `EvidenceFacts.StoredSnapshotsFit` | exam_predictor/evidence/store.py:1409-1444 | Every stored snapshot depends only on the latest units of processed parts of its own workspace and revision |
| `EvidenceFacts.StepAdvances` | exam_predictor/evidence/store.py:737-761 | While a row lives its generations only grow, and it starts running only under a larger claim generation |
| `EvidenceFacts.OutdatedForGood` | exam_predictor/evidence/store.py:834-842 | While its part's row lives, an outdated token stays outdated whatever is called |
| `EvidenceFacts.OutdatedTokenIsInert` | exam_predictor/evidence/store.py:937-957 | A call under an outdated token raises and changes no table |
| `EvidenceFacts.RenewalOutdates` | exam_predictor/evidence/store.py:913-970 | Every claim, resumption and changed plan, wherever in a batch, outdates all tokens issued before; a claim or resumption leaves exactly the new one valid |
| `EvidenceFacts.RowDeletionRevivesTokens` | exam_predictor/evidence/store.py:653-660 | The guarantee ends with the row: a concrete run in which a dropped and re-planned part makes a dead token valid again |
| `EvidenceFacts.ReuseAgrees` | exam_predictor/evidence/store.py:1148-1236 | A cache hit gives the part the very unit its key is bound to, only re-addressed, with the part's source hash and every citation inside the part |
| `EvidenceFacts.KeyIsNotRebound` | exam_predictor/evidence/store.py:1325-1326 | A cache key keeps its unit as long as the unit is stored |
| `EvidenceFacts.KeysComeFromPublications` | exam_predictor/evidence/store.py:1350-1366 | Every bound key goes back to a publication of that unit under that key for that source |
| `EvidenceFacts.WithdrawnEvidenceIsNotReused` | exam_predictor/evidence/store.py:1655-1658 | After its part's entry is invalidated or its part is planned anew, wherever in a batch, a key finds nothing |
| `EvidenceCitations.StoredUnits` | exam_predictor/evidence/store.py:407-1823 | No call stores a unit but a publication its own and a reuse the bound one, re-addressed |
| `EvidenceCitations.RunKeepsCited` | exam_predictor/evidence/study_map.py:231-258 | After any calls every stored unit has citations, all of them name it, and no two have the same id |
| `EvidenceStore.Store.UpsertPartPlans` | exam_predictor/evidence/store.py:407-503 | Refuses a batch exactly when a plan is running or two revisions of one workspace meet; otherwise makes the revisions current and stores the plans one by one, a changed one starting its part over without its attempts, units and the snapshots using it |
| `EvidenceStore.Store.ClaimParts` | exam_predictor/evidence/store.py:699-762 | Row by row: takes parts of the current revision that are planned, authorized, prepared or waiting and due, by priority, rank, ordinal and id, before every such part it leaves, and leaves one only at the limit; the taken ones run under new generations and no other row changes |
| `EvidenceStore.Store.RecordAttempt` | exam_predictor/evidence/store.py:787-869 | Records an attempt exactly when the part runs under the token, in its workspace's current revision, under an unused number; the row takes the outcome and the larger count |
| `EvidenceStore.Store.ResumeClaim` | exam_predictor/evidence/store.py:913-970 | Takes up a waiting claim exactly when its token is valid and its revision current, under the next claim generation, and hands out the new valid token |
| `EvidenceStore.Store.FailExhaustedClaim` | exam_predictor/evidence/store.py:972-1016 | Fails the part exactly when the claim is held and the revision current |
| `EvidenceStore.Store.PauseClaim` | exam_predictor/evidence/store.py:1042-1071 | Puts a held claim back to waiting, whether or not the revision is still current |
| `EvidenceStore.Store.ReuseCachedEvidence` | exam_predictor/evidence/store.py:1148-1236 | For a running claim, stores the unit the key is bound to under the part's own names and finishes the part; if the source differs or a citation lies outside the part, changes nothing |
| `EvidenceStore.Store.PublishEvidence` | exam_predictor/evidence/store.py:1238-1372 | Accepts exactly a running claim's unit under an unbound key, which it binds, and the publication that finished the part, which changes nothing |
| `EvidenceStore.Store.SaveSnapshot` | exam_predictor/evidence/store.py:1511-1571 | Stores a snapshot exactly when it is one of the current revision whose units, each listed once and all in use, are the last ones of processed parts, with one dependency row for each; the stored one again changes nothing |
| `EvidenceStore.Store.InvalidateEntry` | exam_predictor/evidence/store.py:1600-1665 | The entry's parts are invalidated and lose their units; exactly the revision's snapshots that used these are deleted, recorded as revoked, and reported |
| `EvidenceRules.TransactionFollowsRule` | exam_predictor/evidence/store.py:407-1823 | Each of the fifteen transactions is refused exactly when its rule says so, and otherwise changes every table exactly as the rule says, row by row: retries, recovery after a crash and deletions included |
| `EvidenceStore.Store.CurrentSnapshotContext` | exam_predictor/evidence/store.py:1446-1479 | Gives a latest snapshot of the current revision whenever there is one: its dependency check never turns one away |
| `Scheduler.LookFits` | exam_predictor/evidence/scheduler.py:246-290 | What a worker reads outside a transaction is right for as long as its token matches |
| `Scheduler.RecordFits` | exam_predictor/evidence/scheduler.py:332-403 | Recording an attempt keeps the route bounded and the worker's numbers right |
| `Scheduler.EventKeepsInv` | exam_predictor/evidence/scheduler.py:214-411 | Any event, a worker's move, a claim, a crash or anybody else's store call, keeps the system's invariant |
| `Scheduler.RunsKeepInv` | exam_predictor/evidence/scheduler.py:95-411 | So does every interleaving of such events |
| `Scheduler.AttemptsPerRouteAreBounded` | exam_predictor/evidence/scheduler.py:264-403 | Under any interleaving, no real route has more recorded attempts on a part than the policy allows |
| `Scheduler.AttemptNumbersAreFresh` | exam_predictor/evidence/scheduler.py:332-403 | An attempt about to be recorded under a held claim has a number above all recorded ones, so the uniqueness rule is never hit |
| `Scheduler.RecordingFailsOnlyByFencing` | exam_predictor/evidence/store.py:834-842 | A recording is refused only because the claim was lost or the revision is no longer current |
| `Scheduler.NothingIsStranded` | exam_predictor/evidence/scheduler.py:214-411 | A worker that has returned, on any path, leaves no part running under its claim |
| `Scheduler.EveryMoveIsProgress` | exam_predictor/evidence/scheduler.py:234-411 | Every move of a worker, whatever the others and the provider do, leaves it strictly less to do |
| `SchedulerRuns.EvidenceScheduler.RunFrontier` | exam_predictor/evidence/scheduler.py:95-179 | A frontier claims by the store's rule and ends in every interleaving of its workers; each claimed part is then processed, failed or waiting, the processed and the failed ones are listed exactly and in the order of their claims, and no other row has changed; unless stopped, it reports completion exactly when all it claimed are processed, which are then exactly the parts no longer pending, or when there was nothing to claim and nothing is pending |
| `SchedulerRuns.EvidenceScheduler.RunToCompletion` | exam_predictor/evidence/scheduler.py:181-212 | Terminates; it lists exactly the parts that it made processed and failed, touches no part that was done with, and reports completion exactly when it was not stopped, nothing of the revision is pending and nothing failed |
| `SchedulerRuns.RunsSurvive` | exam_predictor/evidence/scheduler.py:95-411 | Even if rows are deleted under their workers, the tables stay consistent and every move of a worker is still progress |
| `SchedulerRuns.ProcessedAreNotPending` | exam_predictor/evidence/scheduler.py:610-613 | When all of a frontier was processed, exactly its parts are no longer pending |
| `SchedulerRules.CacheIsAskedFirst` | exam_predictor/evidence/scheduler.py:246-262 | A worker with a route asks the cache for the key of its plan and that route; a hit is returned as processed, a miss changes nothing, a refusal gives the claim back |
| `SchedulerRules.MissAsksOrFails` | exam_predictor/evidence/scheduler.py:264-283 | After a miss the provider is asked under the next attempt number and the route's next number, unless the route has had all its attempts: then the part fails |
| `SchedulerRules.MissingRouteWaits` | exam_predictor/evidence/scheduler.py:247-248 | Without a route the part waits, with an attempt recorded on the unavailable route |
| `SchedulerRules.EvidenceIsPublished` | exam_predictor/evidence/scheduler.py:319-331 | Validated evidence is published under the key of the plan and the route and returned as processed; a refusal gives the claim back |
| `SchedulerRules.RetryAsksAgain` | exam_predictor/evidence/scheduler.py:337-379 | A failure that can be retried is recorded as waiting, and the part is asked for again under a new token with both numbers one higher |
| `SchedulerRules.RetryGivenUp` | exam_predictor/evidence/scheduler.py:369-370 | A retry that is not gone through with leaves the part waiting until the recorded time |
| `SchedulerRules.LastRetryFails` | exam_predictor/evidence/scheduler.py:380-390 | A failure that could be retried fails the part when the route has had all its attempts |
| `SchedulerRules.UnretryableWaits` | exam_predictor/evidence/scheduler.py:391-399 | A failure that cannot be retried leaves the part waiting for a later run, and is recorded on its route |
| `SchedulerRules.InvalidFails` | exam_predictor/evidence/scheduler.py:400-410 | Evidence that is not valid fails the part, under the validation's own code |
| `SchedulerRules.StopPauses` | exam_predictor/evidence/scheduler.py:243-286 | Asked to stop before the provider is asked, a worker gives its claim back and returns that its part waits |
| `SchedulerRules.RefusedCallPauses` | exam_predictor/evidence/scheduler.py:222-232 | A store call that is refused changes no table, and its worker gives the claim back if it still has it |
| `StudyGraph.OrderExcludesCycles` | exam_predictor/evidence/study_map.py:861-877 | A graph with a topological order has no cycle |
| `StudyGraph.Search.Visit` | exam_predictor/evidence/study_map.py:865-874 | A visit that raises has met a cycle; one that returns has listed the node with all its dependencies before it |
| `StudyGraph.RejectGraphCycle` | exam_predictor/evidence/study_map.py:861-877 | Raises if and only if the relationships have a cycle; otherwise gives a topological order |
| `StudyMap.ValidateSynthesisPayload` | exam_predictor/evidence/study_map.py:807-858 | Accepts exactly the payloads whose ids differ, whose relations are known, whose evidence is the exact closure within the allowed one, and whose nodes can be ordered with each parent and prerequisite first; if all else is right and it raises, there is a closed walk from nodes to their parents and prerequisites |
| `StudyMap.UnitCheckNeverFails` | exam_predictor/evidence/study_map.py:536-546 | The check for one unit a processed part can never fail on consistent tables |
| `StudyMap.AcceptedMapIsStored` | exam_predictor/evidence/study_map.py:548-645 | A map accepted over the revision's listed evidence passes every check of the store and is saved with all its dependencies |
| `StudyMap.CitationsDiffer` | exam_predictor/evidence/models.py:471-473 | No citation id occurs twice among the citations of a map's units |
| `StudyMap.FirstMapIsValid` | exam_predictor/evidence/models.py:463-493 | After any calls of the program, a first map published through the gate satisfies every check of the snapshot model |
| `SnapshotRevocation.Builder.RecoverRevocations` | exam_predictor/evidence/study_map.py:505-513 | When it returns, every snapshot recorded as revoked holds the tombstone and is marked; cut short anywhere, every mark is true and no tombstone is undone |
| `SnapshotRevocation.Builder.InvalidateEntry` | exam_predictor/evidence/study_map.py:491-503 | When it returns, every snapshot that used the entry's evidence is gone from the tables and holds the tombstone |
| `SnapshotRevocation.Builder.PublishSnapshot` | exam_predictor/evidence/study_map.py:602-645 | A publication that returns has a stored, current snapshot with its document. One whose document step raised has taken its row back, and the document is left without it if and only if it was decided and the burial was not; one that finds the revision gone keeps the row if the burial fails; a crash keeps the row; undisturbed it returns if and only if the snapshot is not buried |
| `SnapshotRevocation.Builder.PublishAgain` | exam_predictor/evidence/study_map.py:602-645 | After a crash and an undisturbed repetition row and document agree, unless the crash fell between the burial and the row's deletion: then the row stays with a tombstone |
| `SnapshotRevocation.IdsAlwaysNameWorkspaces` | exam_predictor/evidence/study_map.py:581-594 | After any calls no snapshot id is revoked for another workspace than it is stored for |
| `OrphanedDocument.OrphanIsReachable` | exam_predictor/evidence/study_map.py:613-633 | A document without its row is reachable: from a finalized workspace the registry accepts every call up to `installed`, the state is recoverable and decides the document, and the row is stored and deleted |
| `SnapshotRows.ForgettingIsExact` | exam_predictor/evidence/store.py:461-481 | The tables stop knowing of a snapshot, stored or revoked, in exactly these calls: a batch that changes the plan of a part it uses, a deletion of an unrevoked snapshot, and the deletion of its workspace |
| `SnapshotRows.UpsertAllTrims` | exam_predictor/evidence/store.py:407-503 | A batch of plans drops exactly the snapshots that use a part whose stored plan some plan of the batch changes |
| `SnapshotRows.ReplanForgets` | exam_predictor/evidence/store.py:461-481 | Every batch that changes a part's plan loses each unrevoked snapshot using its evidence without a recorded revocation |
| `SnapshotRows.KnownForGood` | exam_predictor/evidence/store.py:1600-1665 | Over whole runs a saved snapshot stays stored or recorded as revoked as long as none of those calls is made |
| `CoverageLedger.PartCoverage` | exam_predictor/evidence/study_map.py:880-1009 | Accepts exactly entries that differ, parts of included entries, and processed parts with locators of their own. Every field of every item is told from the parts of its entry: bucket counts, processed and current locators, failure codes in the order met, latest evidence, next action; the totals count each part once. Both validators are satisfied |
| `Coverage.EntryItemValid` | exam_predictor/evidence/models.py:212-258 | An entry's item satisfies its validator if and only if the entry's processed locators differ |
| `Coverage.NextActionIsRight` | exam_predictor/evidence/study_map.py:936-947 | The next action follows from the states of the entry's parts in the order invalidated, waiting, running or pending, failed; it is none exactly when all parts are processed |
| `Coverage.FailureCodesAreErrors` | exam_predictor/evidence/study_map.py:984-990 | The failure codes are exactly the errors of the waiting and failed parts, each once |
| `Coverage.LatestTimeIsLatest` | exam_predictor/evidence/study_map.py:948-952 | The reported time is that of the latest evidence among the processed parts that have any |
| `Coverage.CoverageIsConserved` | exam_predictor/evidence/study_map.py:994-1009 | Every part is counted once in the total and once in the bucket of its state, over all entries |
| `Coverage.CompleteMeansSettled` | exam_predictor/evidence/study_map.py:387-424 | The gate lets a complete map through if and only if every included entry has parts and every part is processed or failed |
| `Coverage.MarkedLedgerIsValid` | exam_predictor/evidence/study_map.py:1012-1034 | Marking influence, which skips the validators, still gives a ledger that satisfies them |
| `CoverageLedger.EntryItemTells` | exam_predictor/evidence/study_map.py:902-993 | Each item tells of its entry's parts, one by one, what its fields say, and of an excluded entry nothing |
| `CoverageLedger.InfluenceIsTraced` | exam_predictor/evidence/study_map.py:1012-1034 | An item is marked exactly when a unit that the map uses comes from a part of the item's entry |
| `CoverageLedger.TracedLedgerIsValid` | exam_predictor/evidence/study_map.py:1012-1034 | Marking the entries the map's units come from keeps both validators satisfied |
| `CoverageLedger.PartialMeansBegun` | exam_predictor/evidence/models.py:292-296 | A ledger is partial exactly when some part is processed, and some part is not or some included entry has no part |
| `Tabular.RecordsAreLossless` | exam_predictor/evidence/preparation.py:1030-1102 | Put together, the records are the text |
| `Tabular.FirstRecordReaches` | exam_predictor/evidence/preparation.py:1044-1050 | A record never ends before the line that is being read |
| `Tabular.ScanBody` | exam_predictor/evidence/preparation.py:1062-1090 | One line scanned with three flags does what the one-character automaton does |
| `Tabular.ReadRecords` | exam_predictor/evidence/preparation.py:1030-1102 | The line reader yields exactly the automaton's records, and fails exactly on malformed text and on a record over the bound |
| `Tabular.GroupRecords` | exam_predictor/evidence/preparation.py:510-541 | Groups records into parts without a gap, within the bound, none of which could have taken one record more |
| `Tabular.PrepareTabular` | exam_predictor/evidence/preparation.py:494-554 | The parts' contents together are the source text, and their record numbers run from one without a gap |
| `TabularRules.RecordsAreTheRule` | exam_predictor/evidence/preparation.py:1030-1102 | A text is read exactly when every quote opens, doubles or closes a field that it fills, told by the parity of the quotes and the neighbouring characters; the records are the stretches between the line ends that stand outside quotes |
| `TextLines.EncodingRoundTrips` | exam_predictor/evidence/preparation.py:425-426 | The size counted for a character is that of its UTF-8 encoding, which decodes to it |
| `TextChunks.ChooseOverlap` | exam_predictor/evidence/preparation.py:438-448 | Repeats the most lines that fit in front of the next one, at most two |
| `TextChunks.ChunkLines` | exam_predictor/evidence/preparation.py:405-467 | Every chunk is within the bound, has a new line, is as full as the next line allowed, and repeats as many of the last lines of the one before as fit |
| `TextChunks.OverlapIsTheTail` | exam_predictor/evidence/preparation.py:438-448 | A chunk is the declared last lines of the one before, followed by its new lines |
| `TextChunks.ChunksLoseNothing` | exam_predictor/evidence/preparation.py:405-467 | Dropping every chunk's declared overlap gives the lines back |
| `TextChunks.PrepareText` | exam_predictor/evidence/preparation.py:405-486 | Splits every text with no line over the bound, and only those; the chunks without their overlap are the text |
| `PdfRanges.RangesPartition` | exam_predictor/evidence/preparation.py:339-380 | For any sizes at all, the ranges follow one another over all pages within the page limit and the byte bound |
| `PdfRanges.EveryPageIsInOneRange` | exam_predictor/evidence/preparation.py:348-363 | Every page is in exactly one range |
| `PdfRanges.FailureNamesAPage` | exam_predictor/evidence/preparation.py:360-362 | Splitting fails only where a single page is over the bound |
| `PdfRanges.PreparePdf` | exam_predictor/evidence/preparation.py:339-380 | The halving loops terminate and compute exactly those ranges, or name a page that is too large |
| `PdfRanges.RangesAreTakenInTurn` | exam_predictor/evidence/preparation.py:348-363 | Each range takes as many of the pages left as it may, or the first half of them, or half of that, that fits |
| `PdfRanges.HalvedIsFirstThatFits` | exam_predictor/evidence/preparation.py:350-363 | Halving stops at the first number of pages that fits, and refuses only a single page |
| `RunQueue.EventKeepsInv` | exam_predictor/runtime/coordinator.py:78-546 | Every critical section, crash included, keeps the queue sound as long as no work is accepted before the start |
| `RunQueue.RunsKeepInv` | exam_predictor/runtime/coordinator.py:78-546 | So does every run of the program over any number of processes |
| `RunQueue.QueueIsSound` | exam_predictor/runtime/store.py:240-259 | At most one run is active; a run under way has exactly one outstanding command; runs first start in creation order; none waits while none is active |
| `RunQueue.EndsAreFinalForGood` | exam_predictor/runtime/coordinator.py:399-476 | A completed or failed run never changes again while its row exists |
| `RunQueue.EarlyWorkIsTheOnlyHazard` | exam_predictor/runtime/coordinator.py:78-154 | Work submitted or resumed before the start keeps the queue sound after it if and only if it left no command behind |
| `RunQueueRules.EventFollowsRule` | exam_predictor/runtime/coordinator.py:78-546 | Each critical section changes the rows, the commands and the marks exactly as its rule says, row by row |
| `RunCoordinator.Coordinator.StartNext` | exam_predictor/runtime/coordinator.py:531-546 | Starts the run that has waited longest, if none is active and no shutdown was asked for |
| `RunCoordinator.Coordinator.SubmitMessage` | exam_predictor/runtime/coordinator.py:98-154 | Queues or starts a new run exactly as the queue's specification says |
| `RunCoordinator.Coordinator.StopRun` | exam_predictor/runtime/coordinator.py:326-338 | Asks exactly a running run to stop |
| `RunCoordinator.Coordinator.TakeCommand` | exam_predictor/runtime/coordinator.py:392-398 | Takes the commands in order, one at a time, and quits on the quit command |
| `RunCoordinator.Coordinator.DeleteSettledRuns` | exam_predictor/runtime/coordinator.py:160-176 | Deletes a workspace's runs exactly when all of them have completed or failed |
| `RunCoordinator.Coordinator.ResumeRun` | exam_predictor/runtime/coordinator.py:340-349 | Resumes exactly a paused run, and not during a shutdown |
| `RunCoordinator.Coordinator.RecoverUnfinished` | exam_predictor/runtime/store.py:421-473 | Pauses every run that was under way, reports it, and touches no other |
| `RunCoordinator.Coordinator.Start` | exam_predictor/runtime/coordinator.py:78-96 | Recovers the table, then starts the next run if none is active |
| `RunCoordinator.Coordinator.EndInvocation` | exam_predictor/runtime/coordinator.py:399-476 | The run whose invocation ended is completed if it finished, failed if it raised, paused if it was interrupted or met a changed source; no other row changes, save that after the first two the run that waited longest starts |
| `RunCoordinator.Coordinator.ShutDown` | exam_predictor/runtime/coordinator.py:351-370 | Asks every run under way to stop and the worker to quit behind its work, once |

## Left out

- Handles, directory anchors, bootstrap of a workspace's directories and removal of the empty tree: only the
  files in the three collections are modelled.
- Writes reach the disk in order; a write that tears is a prefix of what was written.
- The registry's tables are grouped by workspace, and its phases, collections and kinds are enumerations, so
  an unknown word is refused when it is parsed rather than by the state check.
- Identities are pairs of naturals; a sign, a space or an underscore in a written number, which Python would
  read, is refused.
- Object keys of the registry's document are an enumeration.
- The reservation retired after a restart and the locks shared by registries of one root.
- ArtifactStore.Store.FinishCommitted: drops the deletion of a temporary name that the roll-forward path tries,
  because that name is never taken there.
- Artifact reading, the size limit of JSON artifacts, and the empty tombstone of a part.
- SQL, schema migration, run deadlines and timestamps other than the next attempt's; snapshots saved at the
  same time are not told apart by row order.
- EvidenceInvariant.StepKeepsInv: leaves out `mark_running`, attempts recorded as processed and plans stored as
  processed, which neither the scheduler nor the service uses.
- Locator containment is a parameter, as are the names a reused unit is given.
- Providers, prompts and their output are an arbitrary choice at each step; waiting for a retry is one step.
- A store call of the scheduler fails only as its transaction says, not because the database does.
- SnapshotRevocation.Builder.PublishSnapshot: does not promise that no document outlives its row, because the
  code ignores a burial that raises and deletes the row all the same. That leaves the document exactly when it was
  decided and the burial was not; `OrphanedDocument.OrphanIsReachable` is such a case.
- SnapshotRows.ForgettingIsExact: does not promise that every published document has a row or a recorded
  revocation, because a changed plan drops snapshots without recording them, and nothing buries those afterwards.
- CoverageLedger.InfluenceIsTraced: takes part ids and unit ids to be unique, as the store's keys make them.
- Other threads' calls on the artifact store while a snapshot is published; a failing deletion of the row.
- SnapshotRevocation.Builder.RecoverRevocations: goes over the revocations in any order.
- Study-map titles and limitations are reduced to whether they carry a probability label; other text checks,
  scores and confidences are left out, as are the synthesizer's batches.
- The text checks of coverage items.
- TextChunks.PrepareText: reads decoded text; the second attempt with replaced bytes is the same splitting.
- Reading pages, sheets, slides, images and archives; only the sizes of page ranges enter the PDF splitting.
- Provider profiles, credentials and the agent graph behind the run queue; a run's messages and events.
- The worker thread does not die of anything but its quit command.
- The legacy prediction pipeline, the legacy intake and all user interfaces.
