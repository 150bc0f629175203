# Verified model of the data planes

A Dafny 4.11 model of the parts of the repository that carry state machines and
round trips: the PL/pgSQL guards and deferred checks its Alembic revisions install,
and three cores of its operator commands. `dafny verify dfyconfig.toml` checks it.

## What is modelled

**Relationship identity** (`Identity*.dfy`, `SupersessionChains.dfy`). An append-only
log of link, merge and split resolutions governs a links table, supersession pointers,
aliases, affiliations, evidence and conversation participants. Each statement is a
`Step` with the rows the triggers, CHECKs and keys admit; a transaction is a sequence
of steps and a commit that runs the deferred checks. `Session` holds the tables, the
event queue and the snapshot to restore, and is proved against the pure functions
`Run`, `Commits` and `Transact`. The main theorems quantify over every history of
transactions.

Guards are not taken at their word. `IdentityRules` states what the tables hold and
what each kind of statement must meet, column by column and apart from the guards, and
the guards are proved to accept exactly that (`AcceptedIff`); `IdentityAcceptance` does
the same for the deferred checks (`CommitsIff`), and `IdentityReviews` follows each
resolution back to its ruling and its reviewed observations. Each of the other planes
has its own `AcceptedIff`.

The theorems about identity assume what the revision's own docstring says (lines
8-11): a person row is updated, and an observation row added to a resolution, only
under a resolution of the same transaction (`Governed`). The row triggers do not
enforce it; `IdentityGaps` shows what breaks without each half, and exactly when, and
`IdentityWitness` reaches both. Statements that move a link row to another observation
are governed. What they cost is stated exactly, on the statements and the snapshot
before them: a governed history is sound throughout if and only if each transaction
that commits puts back every link row it moves away from an observation that nothing
rests on (`Relinks`, `SoundThroughoutIff`); the supersession chains stand without that
(`EveryHistoryKeepsChains`). The whole-table check catches the rest, since evidence,
affiliations and resolved participants are looked up in the links; a required alias is
not, because its query starts from the links themselves. Transactions are serial.

**Native source control** (`Native*.dfy`). Checkpoint chains with concurrent writers
whose triggers read stale heads; one-shot admission authorities and the checkpoints
bound to them; frozen baseline and backfill windows in microseconds; sealed bucket
selections; the bucket forest; watcher simulations and their receipts; and the
Principal partition, with every key and reference of its lists.

**Review and promotion** (`ReviewPlane.dfy`, `SpanCardinality.dfy`). Governed
transitions of proposals and assertions, immutable decisions and receipts, the
accepted-record check on queued row images, and "at least one span", checked only for
touched rows.

**Operator commands** (`JsonText.dfy`, `TerminalSafe.dfy`, `GrantPlanner.dfy`,
`SourceProfiles.dfy`). The terminal escaper over JSON text, with a reader for the
grammar of RFC 8259 (numbers as in section 6, strings as in section 7); the Knowledge
profile planner over the grants table and its unique key; the source-profile document.

## What turned out false of the code

- A transaction can unlink an observation that a resolution names, by moving its link
  row to another (`ALinkIsLost`); it does so exactly when nothing rests on the observation
  and no statement puts the link row back (`TransactKeepsSoundIff`, `LinkedIffPutBack`).
- A row naming an observation under an old resolution commits; the links stay exact
  exactly when a later resolution links it (`NamingUnderAnOldResolution`,
  `LateNamingGoesBothWays`). Replaying an old merge commits; owners stay live exactly when
  the person owns nothing, and chains finite exactly when the person is not on the
  other's (`SupersedingUnderAnOldMerge`, `AnOldMergeIsReplayed`).
- A client profile does not always converge. Applying fails whole exactly when a grant
  that does not count holds a key the plan needs (`GrantTable.KnowledgeProfile`), as a
  revoked, an expired and a differently flagged one do (`RevokedExpiredAndFlaggedBlock`),
  the revoked one for good (`RevocationIsForGood`). A later plan stays empty exactly when
  no capability rested on grants that expire (`ReplanStaysEmptyIff`,
  `ExpiringGrantsReturn`); for the effect of later statements see `CompletionSurvives`.
- The windows of a baseline and its backfills have no gap on the millisecond grid, and
  they do have one strictly inside each step of one millisecond (`StepsTile`). They tile
  exactly when each run behind them starts where its revision does; a run from before
  the freeze need not (`WindowsTileIff`, `LegacyBaselinesAreAccepted`).
- The bucket trigger does not see rewrites of `bucket_id`. One row at a time is safe;
  one statement over several rows keeps the forest and its scopes exactly under the
  condition of `RewriteKeepsWalksIff`, and can close a cycle (`RekeyingCanCloseACycle`);
  over all statements see `ScopedThroughoutIff`.
- Moving a span link is seen by no trigger of the earlier revision
  (`MovingALinkIsUnseen`); the rule survives exactly when every subject that a move took a
  link off keeps one in place (`CommitKeepsRuleIff`, `CitedThroughoutIff`). The later
  revision forbids moves.
- The rows of one watcher simulation may name different buckets, up to its receipt
  (`AnyThreeBucketsAreReceipted`); they name one exactly when rows 2 and 3 stay in the
  bucket of the row before (`RunKeepsBucketIff`, `ReceiptsBucketIff`).
- Two proposals can come to name one record exactly when a row older than the revision
  names one (`SharingIff`); then one of the two is such a row, untouched
  (`RecordsAreNotShared`).
- The escaper keeps a JSON document's meaning exactly when the document has no raw
  carriage return (`EscapingKeepsDocumentsIff`); the writer never emits one.

## Model

| member | source | states |
|---|---|---|
| `IdentityTheorems.EveryHistorySettles` | migrations/versions/20260804_7f2a9d6c4e18_create_relationship_identity_profiles.py:457-503 | After every history of governed transactions that relink, the links table equals a fold of the resolution log, every owner is live, aliases are exactly what links and names call for, and affiliations and participants rest on observations their own person owns. |
| `IdentityTheorems.HistoryIsSound` | migrations/versions/20260804_7f2a9d6c4e18_create_relationship_identity_profiles.py:325-596 | Every snapshot such a history leaves satisfies the whole invariant: row rules, justified person rows, terminating pointers, exact links, live owners, exact aliases, affiliations and participant support. |
| `IdentityTheorems.SoundThroughoutIff` | migrations/versions/20260804_7f2a9d6c4e18_create_relationship_identity_profiles.py:325-708 | A governed history is sound throughout exactly when every transaction of it that commits relinks: for each link row its statements move to another observation, something rested on the observation left behind before the transaction, or a statement gives that observation a link row that none after it moves away. |
| `IdentityTheorems.LinksFoldTheLog` | migrations/versions/20260804_7f2a9d6c4e18_create_relationship_identity_profiles.py:570-593 | Exact links are the fold of the log: each resolution in turn takes over the observations it names. |
| `IdentityTheorems.FoldTakesTheLast` | migrations/versions/20260804_7f2a9d6c4e18_create_relationship_identity_profiles.py:686-700 | The fold links an observation exactly when some resolution names it, to the last one that does and that resolution's retained person. |
| `IdentityTheorems.SelfSkippingIsSound` | migrations/versions/20260804_7f2a9d6c4e18_create_relationship_identity_profiles.py:328-426 | After any history, governed or not, a transaction that resolved anything and commits has passed all whole-table checks, every skipped resolution has a later unskipped one over the same observations, and all of them are linked. |
| `IdentityTheorems.EveryHistoryKeepsChains` | migrations/versions/20260804_7f2a9d6c4e18_create_relationship_identity_profiles.py:603-676 | From any person, after any governed history, relinking or not, the supersession pointers trace a finite chain without repetition to a live person, and two chains that share anyone are one chain. |
| `IdentityTheorems.SplitUndoesMerge` | migrations/versions/20260804_7f2a9d6c4e18_create_relationship_identity_profiles.py:375-503 | Merging a live prior into a live retained person over exactly the prior's observations and committing the inverse split restores the owner of every observation and every pointer; in between only the prior's observations and pointer moved. |
| `IdentityTheorems.OneResolutionMovesItsObservations` | migrations/versions/20260804_7f2a9d6c4e18_create_relationship_identity_profiles.py:428-503 | A committed transaction with one resolution relinks exactly the observations it names and rewrites no other person's row. |
| `IdentityRules.AcceptedIff` | migrations/versions/20260804_7f2a9d6c4e18_create_relationship_identity_profiles.py:29-1010 | The guards let a statement through exactly when it finds its rows, leaves every table as declared (keys, references, CHECKs, and what each trigger fixes for good), and meets the rule of its kind: an honest case, the last ruling, a person row that becomes what its resolution says, a link under the last naming, and dependents that only follow what their person owns. |
| `IdentityAcceptance.CommitsIff` | migrations/versions/20260804_7f2a9d6c4e18_create_relationship_identity_profiles.py:286-623 | From tables as declared, statements that all ran commit exactly when each new resolution names what was reviewed and either is handed on to a later correction or took hold of people, links, evidence and the whole tables, new people are introduced by a resolution, and every participant is supported. |
| `IdentityAcceptance.HandedOnIff` | migrations/versions/20260804_7f2a9d6c4e18_create_relationship_identity_profiles.py:328-426 | The validator steps aside exactly for the last correction of the linked person, or of the same two people in the other direction, over the same observations. |
| `IdentityReviews.HistoryIsDeclared` | migrations/versions/20260804_7f2a9d6c4e18_create_relationship_identity_profiles.py:29-204 | After any history, governed or not, every table holds what it declares and every participant is supported. |
| `IdentityReviews.HistoryCommitsIff` | migrations/versions/20260804_7f2a9d6c4e18_create_relationship_identity_profiles.py:286-623 | So after any history a transaction commits exactly when its statements run and it leaves what it resolved settled. |
| `IdentityReviews.EveryResolutionWasReviewed` | migrations/versions/20260804_7f2a9d6c4e18_create_relationship_identity_profiles.py:255-284 | In any history each resolution was asked for by its own case and accepted, and no decision carries two. |
| `IdentityReviews.EveryResolutionStoodOnItsRuling` | migrations/versions/20260804_7f2a9d6c4e18_create_relationship_identity_profiles.py:255-284 | Each resolution of any history was inserted by a committed transaction at a statement where its decision accepted and was the last ruling of its case. |
| `IdentityReviews.OverruledIsNotResolved` | migrations/versions/20260804_7f2a9d6c4e18_create_relationship_identity_profiles.py:255-284 | While the last ruling of a case does not accept and no statement rules on it again, no statements resolve anything on that case. |
| `IdentityReviews.OverruledStaysUnresolved` | migrations/versions/20260804_7f2a9d6c4e18_create_relationship_identity_profiles.py:255-284 | The same over everything a history commits later. |
| `IdentityAcceptance.CommitNamesTheReviewed` | migrations/versions/20260804_7f2a9d6c4e18_create_relationship_identity_profiles.py:286-323 | Every resolution of a committing transaction names exactly the nonempty set of observations its case put under review. |
| `IdentityReviews.EveryResolutionNamedTheReviewed` | migrations/versions/20260804_7f2a9d6c4e18_create_relationship_identity_profiles.py:286-323 | So did every resolution of any history when it committed, and it still does exactly if the statements committed since named under it just what they added to its candidate set. |
| `IdentityReviews.GovernedNamesTheReviewedIff` | migrations/versions/20260804_7f2a9d6c4e18_create_relationship_identity_profiles.py:286-323 | In a governed history names never change later, and a resolution goes on naming what is under review exactly while nothing is added to its set. |
| `IdentityReachable.AnyoneCanBeLinked` | migrations/versions/20260804_7f2a9d6c4e18_create_relationship_identity_profiles.py:457-503 | On any plain snapshot a new person can be linked to an unlinked observation in one governed transaction that commits. |
| `IdentityReachable.AnyPairCanBeCorrected` | migrations/versions/20260804_7f2a9d6c4e18_create_relationship_identity_profiles.py:375-503 | On any plain snapshot a merge or split over any nonempty set of observations, whose sides stand where it takes them from, commits and leaves a plain and sound snapshot. |
| `IdentityWitness.PeopleAreReached` | migrations/versions/20260804_7f2a9d6c4e18_create_relationship_identity_profiles.py:457-503 | From the empty tables histories reach snapshots with any number of people, each linked to an observation. |
| `IdentityWitness.AnyMergeCanBeSplit` | migrations/versions/20260804_7f2a9d6c4e18_create_relationship_identity_profiles.py:375-503 | From any plain snapshot a live person can be merged, over whatever he owns, into another and split off again, both committing, and then every owner is as before. |
| `IdentityCorrection.TransactKeepsSoundIff` | migrations/versions/20260804_7f2a9d6c4e18_create_relationship_identity_profiles.py:325-708 | One governed transaction keeps a sound snapshot sound exactly when it does not commit or its statements relink, which can be read off the statements and the snapshot before them. |
| `IdentityCorrection.LinkedIffPutBack` | migrations/versions/20260804_7f2a9d6c4e18_create_relationship_identity_profiles.py:678-708 | Statements leave an observation linked exactly when one of them gives it a link row that none after it moves away, or it was linked and none moves its link row away. |
| `IdentityCorrection.SoundIffRelinked` | migrations/versions/20260804_7f2a9d6c4e18_create_relationship_identity_profiles.py:678-708 | When it commits, the links are exact, and the snapshot sound, exactly when the statements put back every link row they move away. |
| `IdentityCorrection.UnlinkingIsSeenIff` | migrations/versions/20260804_7f2a9d6c4e18_create_relationship_identity_profiles.py:505-593 | The whole-table check misses an observation without its link exactly when no evidence, affiliation or resolved participant rests on it. |
| `IdentityCorrection.CommitKeepsSoundIff` | migrations/versions/20260804_7f2a9d6c4e18_create_relationship_identity_profiles.py:428-593 | When the deferred checks accept what governed statements made of a sound snapshot, the result is sound exactly when no linked observation has lost its link. |
| `IdentityCorrection.TransactKeepsPeople` | migrations/versions/20260804_7f2a9d6c4e18_create_relationship_identity_profiles.py:428-503 | A governed transaction keeps every person row justified by its resolution and every walk finite, whatever it does to link rows. |
| `IdentityCorrection.SkippedHandsOff` | migrations/versions/20260804_7f2a9d6c4e18_create_relationship_identity_profiles.py:328-426 | A skipped resolution leaves its observations to a later one that is not skipped itself. |
| `IdentityCorrection.WholeTableChecksRun` | migrations/versions/20260804_7f2a9d6c4e18_create_relationship_identity_profiles.py:505-593 | The whole-table checks run in every transaction that inserts a resolution. |
| `IdentityCorrection.NewlyNamedIsLinked` | migrations/versions/20260804_7f2a9d6c4e18_create_relationship_identity_profiles.py:286-323 | Every observation a new resolution names, skipped or not, ends the transaction linked. |
| `IdentityCorrection.SupersededRowIsFinal` | migrations/versions/20260804_7f2a9d6c4e18_create_relationship_identity_profiles.py:428-503 | A row that ends a transaction superseded under one of its resolutions points at a live person and owns no link. |
| `IdentityCorrection.NewOwnerIsLive` | migrations/versions/20260804_7f2a9d6c4e18_create_relationship_identity_profiles.py:457-503 | Whoever owns a newly resolved link at commit is live. |
| `IdentityInvariant.StepKeepsRows` | migrations/versions/20260804_7f2a9d6c4e18_create_relationship_identity_profiles.py:625-883 | Every admitted statement keeps the row rules inside the transaction. |
| `IdentityInvariant.RunFollows` | migrations/versions/20260804_7f2a9d6c4e18_create_relationship_identity_profiles.py:625-883 | What the open tables of a governed transaction can differ in from the snapshot it began from. |
| `SupersessionChains.DisjointSimpleChains` | migrations/versions/20260804_7f2a9d6c4e18_create_relationship_identity_profiles.py:29-36 | Terminating pointers with the unique key form disjoint finite chains that visit nobody twice. |
| `SupersessionChains.ChainsMeetInATail` | migrations/versions/20260804_7f2a9d6c4e18_create_relationship_identity_profiles.py:29-36 | Two chains that share a person are one chain, the shorter a tail of the longer. |
| `SupersessionChains.TerminationSurvives` | migrations/versions/20260804_7f2a9d6c4e18_create_relationship_identity_profiles.py:428-451 | If every row a transaction wrote points at nobody or at a live person, every walk still terminates. |
| `SupersessionChains.PointerClosesACycle` | migrations/versions/20260804_7f2a9d6c4e18_create_relationship_identity_profiles.py:648-668 | Pointing a live person at the head of a chain keeps every walk finite exactly when the person is not on that chain. |
| `IdentityGaps.NamingUnderAnOldResolution` | migrations/versions/20260804_7f2a9d6c4e18_create_relationship_identity_profiles.py:286-323 | An observation row added under a committed resolution always commits, and the links stay exact exactly when the observation is linked by a later resolution. |
| `IdentityGaps.SupersedingUnderAnOldMerge` | migrations/versions/20260804_7f2a9d6c4e18_create_relationship_identity_profiles.py:648-668 | A superseding update under a committed merge always commits; owners stay live exactly when the person owns nothing, and walks stay finite exactly when the person is not on the other's chain. |
| `IdentityWitness.LateNamingGoesBothWays` | migrations/versions/20260804_7f2a9d6c4e18_create_relationship_identity_profiles.py:286-323 | Histories reach a late naming row that leaves the links exact and one that does not. |
| `IdentityWitness.AnyMergeCanBeReplayed` | migrations/versions/20260804_7f2a9d6c4e18_create_relationship_identity_profiles.py:625-676 | After a merge over everything a person owns, a second merge of him over one more observation and its split, replaying the first merge commits and leaves a superseded owner. |
| `IdentityWitness.AnOldMergeIsReplayed` | migrations/versions/20260804_7f2a9d6c4e18_create_relationship_identity_profiles.py:625-676 | A governed, relinking history leads to such a snapshot. |
| `IdentityWitness.AnUnrestedLinkCanBeLost` | migrations/versions/20260804_7f2a9d6c4e18_create_relationship_identity_profiles.py:678-708 | On any plain snapshot a governed transaction can commit after taking the link row of an observation that no evidence cites, and that observation is then named but not linked. |
| `IdentityWitness.ALinkIsLost` | migrations/versions/20260804_7f2a9d6c4e18_create_relationship_identity_profiles.py:678-708 | A governed, relinking history leads to a snapshot where such a transaction commits. |
| `IdentityPlane.QueueDecides` | migrations/versions/20260804_7f2a9d6c4e18_create_relationship_identity_profiles.py:598-601 | Running every queued trigger event decides exactly the commit check of the specification. |
| `IdentityPlane.Session.Execute` | migrations/versions/20260804_7f2a9d6c4e18_create_relationship_identity_profiles.py:255-1010 | One statement on the session's tables: the new tables, the refusal, and the queue it leaves; an admitted resolution rests on an accepting decision of its case that no other outranks. |
| `IdentityPlane.Session.FireQueue` | migrations/versions/20260804_7f2a9d6c4e18_create_relationship_identity_profiles.py:598-601 | The queued triggers fired in order accept exactly when the commit check does. |
| `IdentityPlane.Session.Commit` | migrations/versions/20260804_7f2a9d6c4e18_create_relationship_identity_profiles.py:286-601 | Commit keeps the transaction exactly when it is settled, restores the old tables otherwise; what it resolves names exactly what was reviewed, and a sound snapshot stays sound exactly when the transaction relinks. |
| `NativeCheckpoints.EveryRunIsChained` | migrations/versions/20260804_8c4d1e7a2b90_create_native_source_control_plane.py:248-270 | After any interleaving of inserts with stale views, commits and aborts, the rows are linked, unforked, and pending ones sit behind one writer. |
| `NativeCheckpoints.EveryBucketIsOneChain` | migrations/versions/20260804_8c4d1e7a2b90_create_native_source_control_plane.py:175-186 | The committed rows of a bucket with a head at sequence n are exactly one row for each of 1..n, and the walk back from the head visits n, n-1, ..., 1. |
| `NativeCheckpoints.AdmittedInsertSawTheHead` | migrations/versions/20260804_8c4d1e7a2b90_create_native_source_control_plane.py:248-270 | An insert that gets past the unique keys saw the real head of its bucket, however stale its view could have been. |
| `NativeCheckpoints.InsertIsEnabledIff` | migrations/versions/20260804_8c4d1e7a2b90_create_native_source_control_plane.py:175-270 | An insert is admitted exactly when its identifier is unused, its writer saw the row it extends, and the rows with it are linked and unforked. |
| `NativeCheckpoints.TheTriggerAloneForks` | migrations/versions/20260804_8c4d1e7a2b90_create_native_source_control_plane.py:248-270 | Without the unique keys the trigger admits two first checkpoints in one bucket. |
| `NativeCheckpoints.BucketIsNumbered` | migrations/versions/20260804_8c4d1e7a2b90_create_native_source_control_plane.py:175-186 | A bucket whose head has sequence n holds exactly n rows, one for each number. |
| `NativeCheckpoints.WalkVisitsEverySequence` | migrations/versions/20260804_8c4d1e7a2b90_create_native_source_control_plane.py:175-186 | The backward walk from sequence n has n rows, one for each sequence down to 1. |
| `NativeCheckpoints.CheckpointTable.Append` | migrations/versions/20260804_8c4d1e7a2b90_create_native_source_control_plane.py:248-270 | One insert under a possibly stale view: admitted exactly when the trigger and the keys allow it, and the table it leaves. |
| `NativeCheckpoints.CheckpointTable.CommitWriter` | migrations/versions/20260804_8c4d1e7a2b90_create_native_source_control_plane.py:525-538 | A commit makes the writer's rows visible and keeps every chain. |
| `NativeCheckpoints.CheckpointTable.AbortWriter` | migrations/versions/20260804_8c4d1e7a2b90_create_native_source_control_plane.py:525-538 | An abort removes exactly the writer's rows and keeps every chain. |
| `NativeAdmission.AcceptedIff` | migrations/versions/20260805_a7c3e8d1f642_freeze_native_baseline_runs.py:88-314 | A statement is accepted exactly when the rows it leaves are as declared, column by column, and nothing frozen or consumed changed. |
| `NativeAdmission.EveryCheckpointAgrees` | migrations/versions/20260805_a7c3e8d1f642_freeze_native_baseline_runs.py:261-314 | After any statements over tables that start with legacy checkpoints only, every later checkpoint agrees with its consumed authority and its job in cursor, digest, terminal flag, count, job, run, bucket and revision. |
| `NativeAdmission.CheckpointIsRecordedIff` | migrations/versions/20260805_a7c3e8d1f642_freeze_native_baseline_runs.py:261-314 | And after any statements a checkpoint under an unused key is recorded exactly when it agrees so and no checkpoint has spent its authority. |
| `NativeAdmission.StepKeepsBinding` | migrations/versions/20260805_a7c3e8d1f642_freeze_native_baseline_runs.py:261-314 | Every statement keeps each post-freeze checkpoint following its admission, and no authority behind two checkpoints. |
| `NativeAdmission.RunKeepsBinding` | migrations/versions/20260805_a7c3e8d1f642_freeze_native_baseline_runs.py:261-314 | So does every run of statements over tables in which that holds. |
| `NativeAdmission.BackingIsFrozen` | migrations/versions/20260805_a7c3e8d1f642_freeze_native_baseline_runs.py:88-116 | Once a checkpoint rests on an authority, neither that authority nor the job's scope ever changes again. |
| `NativeAdmission.ItemsAreConserved` | migrations/versions/20260805_a7c3e8d1f642_freeze_native_baseline_runs.py:118-129 | Any set of bound checkpoints counts exactly the items its distinct authorities admitted. |
| `NativeAdmission.EveryRunConserves` | migrations/versions/20260805_a7c3e8d1f642_freeze_native_baseline_runs.py:261-314 | The same in every reachable state. |
| `NativeAdmission.AdmissionTables.Consume` | migrations/versions/20260805_a7c3e8d1f642_freeze_native_baseline_runs.py:88-116 | An authority row is consumed at most once, with everything else in it unchanged. |
| `NativeAdmission.AdmissionTables.UpdateJobRow` | migrations/versions/20260805_a7c3e8d1f642_freeze_native_baseline_runs.py:188-199 | A job update that leaves its frozen scope alone, or a refusal. |
| `NativeAdmission.AdmissionTables.Record` | migrations/versions/20260805_a7c3e8d1f642_freeze_native_baseline_runs.py:261-314 | A checkpoint insert succeeds exactly when its key is unused, its authority unspent, and it agrees with authority and job column by column. |
| `NativeWindows.StepKeepsFrozen` | migrations/versions/20260805_a7c3e8d1f642_freeze_native_baseline_runs.py:131-259 | Every run inserted since the freeze froze its revision's start under the kind the history calls for, older runs stand as they were, and jobs keep the window of their run, through every statement. |
| `NativeWindows.AcceptedIff` | migrations/versions/20260805_a7c3e8d1f642_freeze_native_baseline_runs.py:131-259 | A statement is accepted exactly when the runs and jobs it leaves are the ones their revision, baseline and bucket call for. |
| `NativeWindows.EveryJobIsDeclared` | migrations/versions/20260805_a7c3e8d1f642_freeze_native_baseline_runs.py:200-255 | After any statements since the freeze every job that names a run has the exact window its bucket's kind calls for, the inventory window of contacts included. |
| `NativeWindows.WindowOf` | migrations/versions/20260805_a7c3e8d1f642_freeze_native_baseline_runs.py:200-255 | Where a baseline's window lies and where each backfill's does, under any run. |
| `NativeWindows.StepsTile` | migrations/versions/20260805_a7c3e8d1f642_freeze_native_baseline_runs.py:200-255 | Windows that step back one millisecond each are disjoint and cover the whole millisecond grid, and miss exactly the instants strictly inside the steps. |
| `NativeWindows.SpansIffStepsBack` | migrations/versions/20260805_a7c3e8d1f642_freeze_native_baseline_runs.py:235-255 | Windows that lie one before another are everything back to an instant but the open millisecond before each start exactly when each ends one millisecond before the start of the one before it and the last starts there. |
| `NativeWindows.WindowsTileIff` | migrations/versions/20260805_a7c3e8d1f642_freeze_native_baseline_runs.py:27-259 | Whatever runs the freeze found, the windows of a baseline and the backfills since it tile everything back to the current start exactly when each run behind them starts where its revision does; every run inserted since the freeze does. |
| `NativeWindows.WindowsTile` | migrations/versions/20260805_a7c3e8d1f642_freeze_native_baseline_runs.py:131-259 | Under runs inserted since the freeze the windows are disjoint and together cover every millisecond from the current start to the baseline's end. |
| `NativeWindows.LegacyBaselinesAreAccepted` | migrations/versions/20260805_a7c3e8d1f642_freeze_native_baseline_runs.py:175-255 | The job trigger accepts a job under any baseline run from before the freeze, and its window then tiles exactly when that run starts where its revision does. |
| `NativeWindows.RunTables.AddRun` | migrations/versions/20260805_a7c3e8d1f642_freeze_native_baseline_runs.py:131-173 | A run insert is accepted exactly when its frozen inputs are exact. |
| `NativeWindows.RunTables.AddJob` | migrations/versions/20260805_a7c3e8d1f642_freeze_native_baseline_runs.py:175-259 | A job insert is accepted exactly when it matches its frozen run. |
| `NativeWindows.RunTables.ChangeJob` | migrations/versions/20260805_a7c3e8d1f642_freeze_native_baseline_runs.py:188-199 | An update may move a job's state and nothing of its frozen scope. |
| `NativeSelection.SplitUndoesJoin` | migrations/versions/20260804_8c4d1e7a2b90_create_native_source_control_plane.py:318-334 | A newline-joined list of newline-free identifiers can be split back. |
| `NativeSelection.SealIsInjective` | migrations/versions/20260804_8c4d1e7a2b90_create_native_source_control_plane.py:318-334 | Sorting, joining and digesting tells any two nonempty selections apart. |
| `NativeSelection.NewlinesWouldCollide` | migrations/versions/20260804_8c4d1e7a2b90_create_native_source_control_plane.py:72-72 | With a newline in an identifier it would not. |
| `NativeSelection.TransactKeepsSealed` | migrations/versions/20260804_8c4d1e7a2b90_create_native_source_control_plane.py:300-350 | A transaction that commits leaves every revision sealed and every older selection as it was. |
| `NativeSelection.AcceptedIff` | migrations/versions/20260804_8c4d1e7a2b90_create_native_source_control_plane.py:300-334 | A statement is accepted exactly when keys, references and the form of identifiers hold after it. |
| `NativeSelection.CommitsIff` | migrations/versions/20260804_8c4d1e7a2b90_create_native_source_control_plane.py:300-350 | A transaction commits exactly when it adds to no older selection and seals each new revision over a nonempty selection of selectable buckets of its own bridge. |
| `NativeSelection.SelectionIsFinal` | migrations/versions/20260804_8c4d1e7a2b90_create_native_source_control_plane.py:300-350 | Whatever is committed later, a revision keeps the selection it was first committed with. |
| `NativeSelection.LateAdditionIsRefused` | migrations/versions/20260804_8c4d1e7a2b90_create_native_source_control_plane.py:300-350 | A transaction that adds to a committed selection cannot commit. |
| `NativeSelection.SelectionTables.Execute` | migrations/versions/20260804_8c4d1e7a2b90_create_native_source_control_plane.py:525-538 | One statement on the bucket, revision and selection tables. |
| `NativeSelection.SelectionTables.Commit` | migrations/versions/20260804_8c4d1e7a2b90_create_native_source_control_plane.py:343-350 | Commit rechecks every queued seal, keeps the transaction exactly when all hold, and never changes an older selection. |
| `NativeBuckets.EveryWalkIsScoped` | migrations/versions/20260804_8c4d1e7a2b90_create_native_source_control_plane.py:444-476 | After any statements that write one row each the parent walk from a bucket reaches a root, never returns, and meets one account and one source kind only. |
| `NativeBuckets.ScopedThroughoutIff` | migrations/versions/20260804_8c4d1e7a2b90_create_native_source_control_plane.py:71-83 | Over any statements, rewrites of many identifiers among them, every walk stays scoped throughout exactly when each rewrite meets the condition of RewriteKeepsWalksIff on the table it is run on. |
| `NativeBuckets.StepKeepsSound` | migrations/versions/20260804_8c4d1e7a2b90_create_native_source_control_plane.py:444-476 | Every single-row statement, one key rewrite included, keeps the forest and its scopes. |
| `NativeBuckets.AcceptedIff` | migrations/versions/20260804_8c4d1e7a2b90_create_native_source_control_plane.py:420-476 | A statement on one row is accepted exactly when keys, references and parent scopes hold after it and nothing fixed changed. |
| `NativeBuckets.RewriteAcceptedIff` | migrations/versions/20260804_8c4d1e7a2b90_create_native_source_control_plane.py:71-83 | A rewrite of identifiers is accepted exactly when each row gets one and every identifier a child names stays in use away from the children of its old bucket. |
| `NativeBuckets.SoundIffWalksScoped` | migrations/versions/20260804_8c4d1e7a2b90_create_native_source_control_plane.py:444-476 | The parent relation is acyclic and scoped row by row exactly when every parent walk ends, never returns and keeps one account and kind. |
| `NativeBuckets.RewriteKeepsScopeIff` | migrations/versions/20260804_8c4d1e7a2b90_create_native_source_control_plane.py:71-83 | A rewrite of several bucket identifiers that the keys accept keeps children in their parent's account and kind exactly when each identifier taken over goes to a row of the same scope. |
| `NativeBuckets.RewriteKeepsWalksIff` | migrations/versions/20260804_8c4d1e7a2b90_create_native_source_control_plane.py:71-83 | It keeps the forest and its scopes exactly when, besides, no identifiers taken over hang below each other in a ring. |
| `NativeBuckets.OneTakeoverKeepsWalksIff` | migrations/versions/20260804_8c4d1e7a2b90_create_native_source_control_plane.py:71-83 | When one identifier is taken over: exactly when the row that takes it has its scope and does not lie below it. |
| `NativeBuckets.RekeyingCanCloseACycle` | migrations/versions/20260804_8c4d1e7a2b90_create_native_source_control_plane.py:444-476 | Statements from the empty tables lead to three buckets and a rewrite that every key accepts after which a walk never ends. |
| `NativeBuckets.BucketTables.Execute` | migrations/versions/20260804_8c4d1e7a2b90_create_native_source_control_plane.py:420-476 | One statement on one row of the account and bucket tables: accepted exactly when the guards allow it, with a sound table kept sound. |
| `NativeBuckets.BucketTables.Rekey` | migrations/versions/20260804_8c4d1e7a2b90_create_native_source_control_plane.py:71-83 | One rewrite of many identifiers: accepted exactly when the keys allow it, with a sound table kept sound exactly under the condition. |
| `NativeSimulations.ReceiptsAreFinal` | migrations/versions/20260804_8c4d1e7a2b90_create_native_source_control_plane.py:499-520 | A receipted simulation has exactly the rows 1, 2 and 3, the receipt names the third, and no later run changes them or adds a row or a receipt. |
| `NativeSimulations.RunKeepsSound` | migrations/versions/20260804_8c4d1e7a2b90_create_native_source_control_plane.py:272-298 | Every simulation is a prefix of pending, simulating, complete or failed, and every receipt is exact and alone. |
| `NativeSimulations.AcceptedIff` | migrations/versions/20260804_8c4d1e7a2b90_create_native_source_control_plane.py:272-298 | An insert is accepted exactly when its key is unused and the simulations with it are sound. |
| `NativeSimulations.RunKeepsBucketIff` | migrations/versions/20260804_8c4d1e7a2b90_create_native_source_control_plane.py:272-298 | Over any run the rows of a simulation name one bucket exactly when they did before and each row inserted names the bucket of the row before it. |
| `NativeSimulations.ReceiptsBucketIff` | migrations/versions/20260804_8c4d1e7a2b90_create_native_source_control_plane.py:272-298 | A receipt's checkpoint lies in the bucket of the third row, and in that of all three exactly when rows 2 and 3 stayed in the bucket of the row before. |
| `NativeSimulations.AnyThreeBucketsAreReceipted` | migrations/versions/20260804_8c4d1e7a2b90_create_native_source_control_plane.py:272-298 | Wherever a run has led, a fresh simulation can pass through any three buckets and be receipted. |
| `NativeSimulations.SimulationTables.Execute` | migrations/versions/20260804_8c4d1e7a2b90_create_native_source_control_plane.py:272-298 | One insert on the simulation, receipt and checkpoint tables. |
| `NativePartition.UniqueKey` | migrations/versions/20260812_d7a4c9e2f165_partition_native_source_plane.py:48-75 | The ten frozen keys; each leads with the Principal. |
| `NativePartition.Reference` | migrations/versions/20260812_d7a4c9e2f165_partition_native_source_plane.py:79-276 | The twenty-eight frozen references; both column lists of each lead with the Principal. |
| `NativePartition.KeyNamedBy` | migrations/versions/20260812_d7a4c9e2f165_partition_native_source_plane.py:48-276 | Every reference names a declared key of its parent table. |
| `NativePartition.PathStaysInPrincipal` | migrations/versions/20260812_d7a4c9e2f165_partition_native_source_plane.py:79-276 | Any path of references, forwards or backwards, bucket parents and checkpoint predecessors included, stays in one Principal. |
| `NativePartition.ReferencedRowIsUnique` | migrations/versions/20260812_d7a4c9e2f165_partition_native_source_plane.py:48-276 | A reference names one row. |
| `NativePartition.PartitionedIffEveryShareIs` | migrations/versions/20260812_d7a4c9e2f165_partition_native_source_plane.py:48-276 | The twenty tables meet the constraints exactly when every Principal's rows do so by themselves. |
| `NativePartition.SharesAreIndependent` | migrations/versions/20260812_d7a4c9e2f165_partition_native_source_plane.py:48-276 | One Principal's rows can be replaced by any that fit each other without disturbing the rest. |
| `NativePartition.Schema.OwnTables` | migrations/versions/20260812_d7a4c9e2f165_partition_native_source_plane.py:279-292 | Adding the column succeeds exactly when no table holds a row, and otherwise names the first that does. |
| `NativePartition.Schema.AddKeys` | migrations/versions/20260812_d7a4c9e2f165_partition_native_source_plane.py:293-294 | Every listed key is added. |
| `NativePartition.Schema.AddReferences` | migrations/versions/20260812_d7a4c9e2f165_partition_native_source_plane.py:319-328 | Every listed reference is added. |
| `NativePartition.Schema.Upgrade` | migrations/versions/20260812_d7a4c9e2f165_partition_native_source_plane.py:279-328 | The revision is refused exactly when some table is populated, then nothing stays changed; otherwise everything is in place and met. |
| `ReviewPlane.AcceptedIff` | migrations/versions/20260804_3c8f1e2a5b74_create_the_review_and_promotion_tables.py:472-558 | A statement is accepted exactly when the five tables hold their CHECKs, references and keys after it and each row that was there is as it was or moved along a governed edge, in just the columns that edge may write. |
| `ReviewPlane.CommitsIff` | migrations/versions/20260804_3c8f1e2a5b74_create_the_review_and_promotion_tables.py:421-471 | A commit succeeds exactly when every proposal written in it that names a record names the one that was decided: its own assertion in version and type, accepted or due for revalidation, not superseded, decided in its own case as accepted with an equal value or as corrected with a value, and receipted at that instant. |
| `ReviewPlane.BindingIsKept` | migrations/versions/20260804_3c8f1e2a5b74_create_the_review_and_promotion_tables.py:421-471 | After any transactions a proposal that a committed statement has touched names no record or the one that was decided; any other is a row older than the revision and unchanged. |
| `ReviewPlane.BindingIsFinal` | migrations/versions/20260804_3c8f1e2a5b74_create_the_review_and_promotion_tables.py:421-558 | Once a proposal names the record that was decided, row and record stay so through every later transaction. |
| `ReviewPlane.TouchedIsBound` | migrations/versions/20260804_3c8f1e2a5b74_create_the_review_and_promotion_tables.py:421-471 | A proposal that any committed statement has touched is bound to the record it names. |
| `ReviewPlane.RecordsAreNotShared` | migrations/versions/20260804_3c8f1e2a5b74_create_the_review_and_promotion_tables.py:421-471 | When two proposals name one assertion, one of them is a row older than the revision that nothing has touched since. |
| `ReviewPlane.LegacyRowsAreShared` | migrations/versions/20260804_3c8f1e2a5b74_create_the_review_and_promotion_tables.py:421-471 | Every row older than the revision that names a record comes to share it: a proposal made since is accepted under that name. |
| `ReviewPlane.SharingIff` | migrations/versions/20260804_3c8f1e2a5b74_create_the_review_and_promotion_tables.py:421-471 | Two proposals can come to name one assertion exactly when some row older than the revision names one. |
| `ReviewPlane.ImagesDecideAsRows` | migrations/versions/20260804_3c8f1e2a5b74_create_the_review_and_promotion_tables.py:421-471 | Checking the queued row images, some of them stale, decides exactly as checking the final rows of the touched proposals. |
| `ReviewPlane.UpdatesSpendRank` | migrations/versions/20260804_3c8f1e2a5b74_create_the_review_and_promotion_tables.py:472-515 | Every governed update of a proposal strictly lowers its rank. |
| `ReviewPlane.UpdatesAreFew` | migrations/versions/20260804_3c8f1e2a5b74_create_the_review_and_promotion_tables.py:472-537 | Over a whole history a proposal is updated at most three times and an assertion at most once; from any point on a proposal is updated no more often than its state leaves room for, and never from a final state. |
| `ReviewPlane.AssertionsMoveOnce` | migrations/versions/20260804_3c8f1e2a5b74_create_the_review_and_promotion_tables.py:516-529 | An assertion moves at most once, and only from accepted to revalidation required. |
| `ReviewPlane.LineageIsKept` | migrations/versions/20260804_3c8f1e2a5b74_create_the_review_and_promotion_tables.py:472-558 | Origin and value of a proposal never change, and a settled proposal keeps its whole row. |
| `ReviewPlane.AcceptanceCommits` | migrations/versions/20260804_3c8f1e2a5b74_create_the_review_and_promotion_tables.py:421-471 | Wherever a history has led, an open proposal with nothing recorded from it can be accepted, as it stands or corrected, by one transaction that files the whole record and leaves every other row as it was. |
| `ReviewPlane.ThreeUpdatesCommit` | migrations/versions/20260804_3c8f1e2a5b74_create_the_review_and_promotion_tables.py:472-515 | Wherever a history has led, three updates of a proposal that is still as proposed commit. |
| `ReviewPlane.ReviewTables.Execute` | migrations/versions/20260804_3c8f1e2a5b74_create_the_review_and_promotion_tables.py:472-558 | One statement on the five tables. |
| `ReviewPlane.ReviewTables.Commit` | migrations/versions/20260804_3c8f1e2a5b74_create_the_review_and_promotion_tables.py:421-471 | Commit succeeds exactly when every written proposal that names a record names the one that was decided, and keeps or restores all five tables. |
| `SpanCardinality.ChecksAndMovesDecide` | migrations/versions/20260803_2b7e9f4c1a83_create_the_proposal_tables.py:290-324 | Checking the touched rows, and reading off the statements that the moves leave everyone cited, decides as the whole-table rule does, except that a subject inserted and deleted in one transaction makes it fail. |
| `SpanCardinality.TouchedRowsDecide` | migrations/versions/20260803_2b7e9f4c1a83_create_the_proposal_tables.py:290-324 | Without moves the checks alone decide so. |
| `SpanCardinality.AcceptedIff` | migrations/versions/20260803_2b7e9f4c1a83_create_the_proposal_tables.py:290-324 | A statement is accepted exactly when every link is owned after it and the rows count right. |
| `SpanCardinality.LinksLeft` | migrations/versions/20260803_2b7e9f4c1a83_create_the_proposal_tables.py:290-324 | The links statements leave are exactly those last put and not taken since, or there before and never taken. |
| `SpanCardinality.CommitKeepsRuleIff` | migrations/versions/20260803_2b7e9f4c1a83_create_the_proposal_tables.py:313-324 | A transaction that commits, whatever it moves, inserts and deletes, keeps the rule exactly when every surviving subject that a move took a link off has some link that ends in place. |
| `SpanCardinality.CitedThroughoutIff` | migrations/versions/20260803_2b7e9f4c1a83_create_the_proposal_tables.py:290-324 | Over any history the rule holds throughout exactly when every transaction that commits meets that condition. |
| `SpanCardinality.EveryoneStaysCited` | migrations/versions/20260803_2b7e9f4c1a83_create_the_proposal_tables.py:290-324 | After any transactions that move no link every subject cites a span. |
| `SpanCardinality.MovingALinkIsUnseen` | migrations/versions/20260803_2b7e9f4c1a83_create_the_proposal_tables.py:313-324 | A transaction that moves one link always commits, and the rule then holds exactly when the link stays with its subject or was not its last. |
| `SpanCardinality.InsertChecksSuffice` | migrations/versions/20260804_3c8f1e2a5b74_create_the_review_and_promotion_tables.py:391-420 | With immutable links and undeletable subjects only insert checks are queued, and they decide the rule. |
| `SpanCardinality.SpanTables.Execute` | migrations/versions/20260803_2b7e9f4c1a83_create_the_proposal_tables.py:290-324 | One statement on the two tables and the checks it queues. |
| `SpanCardinality.SpanTables.Commit` | migrations/versions/20260803_2b7e9f4c1a83_create_the_proposal_tables.py:313-324 | Commit keeps the transaction exactly when every queued check passes, and the rule exactly when its moves leave everyone cited. |
| `JsonText.DecodeUndoesEncode` | apps/cli/mcp_interactions.py:211-211 | Reading a written document gives the value back, for every JSON value. |
| `TerminalSafe.SafeTextIsFixed` | apps/cli/mcp_interactions.py:78-95 | The escaped text has no unsafe character, escaping again changes nothing, and text is left alone exactly when it had none. |
| `TerminalSafe.UnsafeIff` | apps/cli/mcp_interactions.py:78-82 | Unsafe are exactly the control characters but newline and tab, the twelve bidirectional controls, and the line and paragraph separators. |
| `TerminalSafe.SafeDistributes` | apps/cli/mcp_interactions.py:89-95 | Escaping a concatenation concatenates the escaped parts. |
| `TerminalSafe.EscapesCollideOnText` | apps/cli/mcp_interactions.py:89-95 | On plain text escaping is not injective. |
| `TerminalSafe.EscapingKeepsDocumentsIff` | apps/cli/mcp_interactions.py:89-95 | Escaping any valid JSON document leaves what it says unchanged exactly when it has no raw carriage return. |
| `TerminalSafe.PrintedJsonParsesBack` | apps/cli/mcp_interactions.py:210-211 | The printed line of any value decodes to that value, is free of unsafe characters, and is printed for no other value. |
| `TerminalSafe.RecordDocument` | apps/cli/mcp_interactions.py:145-151 | Every column in order, instants as text. |
| `TerminalSafe.ShowJson` | apps/cli/mcp_interactions.py:202-215 | The `--json` line decodes to the document of the stored record. |
| `GrantPlanner.ProfileRefusal` | apps/cli/remote_mcp.py:290-304 | Exactly the members of the profile are not refused, so a discovery profile never plans an explicit create or a review decision. |
| `GrantPlanner.RoleIff` | src/my_pa/bootstrap/knowledge_discovery_profiles.py:183-217 | A client is bound to the profile of the first list that names it, and only discovery and operator review bind one. |
| `GrantPlanner.ProfilesCompare` | src/my_pa/bootstrap/knowledge_discovery_profiles.py:85-120 | The second discovery profile is the first with provenance; a discovery and the review profile share only the read; each writes only its own writes. |
| `GrantPlanner.MembersAreSorted` | apps/cli/remote_mcp.py:360-360 | Each profile lists its capabilities in the order of their names. |
| `GrantPlanner.OverlayIff` | src/my_pa/bootstrap/knowledge_discovery_profiles.py:220-251 | The overlay leaves a bound client exactly its profile, a manager everything, and anyone else all but the discovery writes. |
| `GrantPlanner.RawRefusal` | apps/cli/remote_mcp.py:78-112 | A raw grant is refused for exactly these reasons: a Knowledge write, a Knowledge grant without purpose, or a capability outside the bound client's profile. |
| `GrantPlanner.PlanIsExact` | apps/cli/remote_mcp.py:360-376 | The plan lists exactly the profile capabilities with no counting grant, each once. |
| `GrantPlanner.ReplanIsEmpty` | apps/cli/remote_mcp.py:360-376 | Re-planning right after an apply is empty. |
| `GrantPlanner.ReplanStaysEmptyIff` | apps/cli/remote_mcp.py:351-376 | It stays empty at every later instant exactly when no capability rested on grants that were counted but expire. |
| `GrantPlanner.StaysCompleteIff` | apps/cli/remote_mcp.py:351-376 | A profile stays complete at every later instant exactly when each capability has a counting row that never expires. |
| `GrantPlanner.CompletionSurvives` | apps/cli/remote_mcp.py:351-402 | Whatever the tool does after a profile is complete, it stays complete exactly when the row that counts for each capability is never revoked by those statements and either does not expire or is renewed by one of them. |
| `GrantPlanner.CanCompleteIff` | apps/cli/remote_mcp.py:351-402 | A profile can be completed exactly when no grant of the target for one of its capabilities is revoked, expired or differently flagged. |
| `GrantPlanner.RevocationIsForGood` | apps/cli/remote_mcp.py:389-401 | A revoked profile grant keeps its unique key, so the profile can never be completed for that target again. |
| `GrantPlanner.RevokedExpiredAndFlaggedBlock` | apps/cli/remote_mcp.py:351-401 | From no grants at all: a revoked profile grant, an expired raw grant and one with the other write flag each leave a table on which applying the profile is a unique violation. |
| `GrantPlanner.ExpiringGrantsReturn` | apps/cli/remote_mcp.py:351-401 | A raw grant that counts and expires leaves a later plan nonempty, and applying that plan is a unique violation. |
| `GrantPlanner.RawGrantsReach` | apps/cli/remote_mcp.py:78-112 | The raw command does grant every capability of the client's own profile but the Knowledge writes. |
| `GrantPlanner.TableKeepsItsKeys` | apps/cli/remote_mcp.py:389-401 | Grants, revocations and renewals keep the unique key. |
| `GrantPlanner.GrantTable.KnowledgeProfile` | apps/cli/remote_mcp.py:312-403 | The command refuses for each reason exactly when it applies, plans, or applies; an apply succeeds exactly when no key it needs is held by a row that does not count; otherwise nothing changes. |
| `GrantPlanner.GrantTable.PlanFor` | apps/cli/remote_mcp.py:359-376 | The loop over the sorted profile computes the plan. |
| `GrantPlanner.GrantTable.OutsideOf` | apps/cli/remote_mcp.py:377-377 | The active grants the profile does not name. |
| `GrantPlanner.GrantTable.ApplyAll` | apps/cli/remote_mcp.py:389-401 | All actions are granted, or a collision takes all of them back. |
| `GrantPlanner.GrantTable.RawGrant` | apps/cli/remote_mcp.py:78-112 | A raw grant is refused for exactly its reasons, fails exactly on a held key, and otherwise adds one row, inside a bound client's profile. |
| `SourceProfiles.CanonicalIsInjective` | apps/cli/knowledge_source_profiles.py:130-134 | The canonical scope text names one origin and one scope. |
| `SourceProfiles.ScopesShareADigestIff` | apps/cli/knowledge_source_profiles.py:130-134 | Two native scopes share a digest exactly when they are the same scope of the same origin. |
| `SourceProfiles.AcceptedIff` | apps/cli/knowledge_source_profiles.py:164-228 | An entry is accepted exactly when every field is in order by itself, whatever order the branches run in. |
| `SourceProfiles.ParsesIff` | apps/cli/knowledge_source_profiles.py:164-228 | An entry parses to a profile exactly when it is acceptable and states that profile field by field: client, origin, ceiling, proof or unproven, direct or not, and the digest it gives or that of its own origin and native scope. |
| `SourceProfiles.FirstDefectIsReported` | apps/cli/knowledge_source_profiles.py:164-228 | A refused entry has the defect that is reported, and none that comes before it in the order of the checks. |
| `SourceProfiles.OneDriveIsRefused` | apps/cli/knowledge_source_profiles.py:146-152 | An origin with OneDrive in it, whatever its capitals and separators, is refused as such. |
| `SourceProfiles.RenderScopedParsesBack` | apps/cli/knowledge_source_profiles.py:130-228 | Stating a profile by its native scope is understood as that profile with the scope's digest. |
| `SourceProfiles.ScopedBindingsAgreeIff` | apps/cli/knowledge_source_profiles.py:130-254 | Two accepted entries that state native scopes bind the same exactly when client, origin and scope agree. |
| `SourceProfiles.AcceptedIsValid` | apps/cli/knowledge_source_profiles.py:164-228 | Whatever is accepted names a bound client and a digest, and direct admission is proven and authoritative. |
| `SourceProfiles.RenderParsesBack` | apps/cli/knowledge_source_profiles.py:164-228 | Every valid profile can be stated, and stating it is understood as that profile. |
| `SourceProfiles.ParseProfiles` | apps/cli/knowledge_source_profiles.py:231-254 | A document is accepted exactly when every entry is and no binding comes twice, and then gives what the entries state, in order; otherwise the first defect is reported. |
| `SourceProfiles.AcceptanceIgnoresOrder` | apps/cli/knowledge_source_profiles.py:231-254 | Acceptance does not depend on the order of the entries. |
| `SourceProfiles.RenderedDocumentStandsIff` | apps/cli/knowledge_source_profiles.py:231-254 | A list of valid profiles stated as a document is accepted exactly when its bindings are distinct. |

## Left out

- Alembic, SQLAlchemy, psycopg, locks, savepoints and the downgrade paths; a statement is one `Step`, a refused one dooms its transaction.
- Row-by-row order inside a multi-row statement: a statement writes one row, except the multi-row rewrite of bucket identifiers.
- Session: holds the fifteen identity tables as one record in one field, so it does not capture aliasing between separately stored tables.
- Rewrites of primary keys other than link rows and `bucket_id`, TRUNCATE, and deletion of a person row.
- Resolution identifiers: a resolution is identified by its position in the log, which stands for both `resolution_id` and `resolution_sequence`.
- Evidence ownership between identity transactions: inserts of evidence and citations have no trigger, so it is claimed only at commits that insert a resolution.
- Organisation, role and date columns of affiliations, organisation rows, and free-text columns no guard reads.
- The `principal_id` columns later revisions add to identity and review tables.
- SHA-256 is an injective constructor or a parameter; clocks, instants' ISO rendering and row identifiers are parameters.
- Lengths and shapes of identifiers and bounded texts that only single-row CHECKs test, except where a theorem needs them.
- Watcher simulations: inserts are serial; concurrent writers with stale views are modelled for checkpoints only, where the same keys decide.
- Provider kinds of accounts, preflight observations, review routes, live gates and the source-binding triggers of the native plane: single-row lookups.
- NativeWindows.WindowsTileIff: takes as the latest baseline the one that the runs' own kinds name, and one job per revision for the bucket, as the frozen run rows do.
- Deletion cascades from capture versions: the lineage triggers refuse them in the review plane, and the span plane models the cascade from a subject to its links only.
- JSON numbers are known by their tokens; NaN, infinities and lone surrogates are not modelled, and neither is the human-readable rendering of a record, where line splitting breaks on characters that would be escaped.
- Case folding in the OneDrive check is modelled for ASCII letters; no other character folds to a letter of that name in place.
- The `profile-plan` and `profile-apply` commands of the broader client profile, allowlist fingerprints, and printing.
- Database calls of the source-profile commands and the bounded retry of `classify-evidence`.
- Vocabulary revisions, plain table revisions, the worker, HTTP, MCP and web composition.
