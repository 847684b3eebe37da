# Crash-recoverable transactions of the dataset curation service

The repository moves recordings, task directories and conversion state around on disk, and it
does so in transactions that a kill at any moment must not break. Each transaction keeps a
durable journal, intent or manifest, renames without ever overwriting, and is resumed by
calling it again. This project models those transactions, and the small algorithms around
them, and proves what they are for.

## How it is modelled

* **Disk.** Files and directories are objects with an identity, and a namespace maps names to
  objects. A rename is one step, and so is replacing a whole file. Where the program appends
  to a log, fills a file that already has its final name, or sets a mode after creating a
  directory, a crash may fall in between.
* **Crashes.** The state-changing code is a class (`Disk`, `StateFile`, `Store`, `Site`,
  `Workspace`, `Registry`) whose methods do what the program's functions do, step by step.
  Every durable step first asks whether the process lives to make it: `life` (or, for the
  materialization, a `script` of kills and of errors that strike before or after a step's
  effect) says how many more steps it gets. A method's
  postcondition covers the outcomes `Done`, `Refused` and `Killed`, so an invariant in it
  holds at every crash point. The `RunAll` methods run any list of calls, each with its own
  life, and are the statements about every reachable state.
* **Parameters.** The digest is an injective function, JSON is an encoding into lines without
  line breaks, and the clock, random tokens, Unicode character classes, dataset validity and
  the contract check are arbitrary functions or values.

## The parts and their main results

* **Contract partition** (`Partition*.dfy`). Under any mixture of applies and rollbacks,
  each killed anywhere, every recording is in exactly one place and the phases never go back
  (`RunAll`). An apply that is not killed is refused exactly in stated cases and otherwise
  reaches one committed state (`Apply`, `CommittedStateIsUnique`), in which every recording is
  where the contract manifest says (`ApplyManifest`). A rollback completes if and only if
  `Restorable` holds at its start, and then restores the original names (`Rollback`).
* **State log** (`StateLog.dfy`), byte by byte. A log cut at any byte parses to its last whole
  record, an append after a torn tail parses to the new record, and the last digest determines
  the history. `PartitionLog.dfy` joins the two levels: the bootstrap record, the first
  records and every append, cut at any byte, are exactly what the transaction model takes for
  one step.
* **State derivation and reconciliation** (`StateDerivation.dfy`, `Reconcile.dfy`). The
  derivation is exact and idempotent and agrees with the recovery's own. Apply and rollback
  are a lens on the tasks in scope: over any run the scope is wholly the original or wholly
  the derived one, and other writers' edits survive.
* **Conversion recovery** (`Recovery*.dfy`). Nothing is lost, the converter stays blocked until
  the receipt is published, the replay loop ends, and a call that is not killed reaches the
  receipt if and only if a stated condition on the start holds. Receipts of any number of
  earlier recoveries are read as the program reads them, and what they can do to a call is
  stated exactly.
* **Materialization** (`Materialize*.dfy`). The original view is always at exactly one of its
  two names, success is reported only for a committed task, and after any kills and any errors,
  before or after the effect of the steps they strike, an undisturbed call commits if and only
  if `CanResume` holds before it: the manifest loads, its quarantines are there, the staging
  root it records is not gone, and no directory is half made. What stops one call stops every
  later one, and no name changes any more. With at most one error in each call, and that before
  its step's effect, only a directory left half made stops it.
* **SQL** (`Sql*.dfy`, `Cte*.dfy`). Quoted text, comments and dollar quotes, as they are written,
  are blanked and copied whole whatever follows them, and every other character is code
  (`SqlPrinter.dfy`). The placeholder translation keeps the meaning of a text if and only if no
  `$` dangles in it. The data-modifying test is decided on every statement with a `WITH` list that
  can be printed (`StatementAnswer`), and on every text that blanking and folding turn into such a
  statement, whatever its literals and comments hold (`RawAnswer`).
* **Validators, registry, cycle stamps, serials.** The fast sweeps equal their definitions by
  counting. A returned dataset is never stale or mixed, though fingerprints are taken file by
  file while the files change, and a call that nothing disturbs returns what is on disk. Stamps are a property of the rows, not
  of their order. Serials become unique, and a second run changes nothing.

## Where the code falls short of its promise

Each of these has an exact condition and an input that shows it.

* A rollback that starts from `finalizing` is blocked for good once a destination already has a
  final mode that differs from the working mode and still holds a recording: the reverse rename
  compares with the stale recorded mode (`FinalizingRestorable`, `WedgedStays`,
  `BlockedRollbackExample`).
* A journal file cut exactly before its final line feed still parses as JSON, differs from the
  expected bytes and makes every later bootstrap refuse (`WriteJournalFile`, `ResumeApply`,
  `CutJournalExample`).
* A backup cut short by a kill, other than within its trailing white space, stays as it is and
  blocks both reconciliation commands from then on (`Perform`). Applying to an already
  reconciled file in another layout is reported as a failed verification, because bytes are
  compared where the documents are equal (`ApplyIsStuck`, `RollbackIsReady`, `StuckExamples`).
* A recovery intent is installed although the rebuild journal names an archive that is not
  there; no later call accepts that intent (`Recover`, `MissingArchiveExample`). One is also
  installed although the state file cannot be rewritten; then every call stops before the
  replacement is written (`Replay`, `UnwritableStateExample`).
* The receipt of an earlier recovery that today's checks reject, because it was taken under
  another contract manifest, or one is given only now or was only then, makes a call for its
  mode raise when it is read before any receipt that the task bears out. While no marker is
  there a restart that could be made is then never started, and the receipt of a later recovery
  is not reached (`EarlierIsSkipped`, `PublishedScan`, `SpoiltReceiptExample`). A receipt whose
  raw recordings have changed is passed over without a look at its markers, but not without
  the check of its manifest (`ChangedRawExample`).
* A kill between creating a staged recording's directory and setting its mode, under a umask
  that changes that mode, makes the staging root foreign to every later call
  (`ForeignIsHalfMade`, `HalfMadeExample`).
* One error that strikes after its step's effect, an interrupt from the keyboard among them, can
  leave a manifest that no call passes any more: a fresh staging root is public and recorded
  nowhere, so the undo calls it foreign and writes `rollback_failed` without an identity; or a
  quarantine is named in memory where nothing was moved (`OneLateErrorExample`).
* A second error, in the undo, can leave `rollback_failed` with a quarantine that was never
  filled, with no staging root, or with the root already set aside. In the last case the
  manifest loads and its quarantines are valid; the next call fails all the same and rewrites it
  as `rolled_back` with an identity, which does not load (`TwoErrorsExample`, `StuckIsRefused`,
  `Run`). Other manifests that say `rollback_failed` are resumed like any
  (`FailedMoveBackResumes`). The view is safe in every case.
* `$a?` is translated to `$a$1`, whose tag swallows what follows (`MeaningIsKept`,
  `DanglingExample`).
* `NOT MATERIALIZED` written with anything but one space between the words, and a first
  expression named `recursive` without the keyword, hide a data-modifying body
  (`StatementAnswer`, `ReservedNameIsMissed`, `MissedExamples`).

## Model

| member | source | states |
|---|---|---|
| PartitionModel.ConsistentIsSafe | scripts/partition_raw_by_contract.py:1907-2070 | In every state the journal can be the record of, each recording is in exactly one of the source and the one destination of its own contract, kept recordings are in the source, and no directory holds an unknown name |
| PartitionModel.PristineIsConsistent | scripts/partition_raw_by_contract.py:2308-2385 | The moment a plan is made, with no destination in existence, is a state its first record describes |
| PartitionLive.ConsistentIsLive | scripts/partition_raw_by_contract.py:1907-2070 | The live check never refuses a state that a crash can leave behind once its destinations are adopted, even if recorded modes are stale |
| PartitionLive.LiveIsSafe | scripts/partition_raw_by_contract.py:1907-2070 | Conversely, whatever the live check accepts has every recording once, as the inventoried object, in its own destination or at home, and in the expected contents |
| PartitionLive.DestinationAccepted | scripts/partition_raw_by_contract.py:1912-1988 | What the live check asks of an adopted destination, phase by phase: the bound directory with the mode and the marker that the phase allows, nothing hidden in it and no name the plan does not have |
| PartitionLive.RecordingAccepted | scripts/partition_raw_by_contract.py:1990-2028 | What it asks of a recording: the inventoried object, at home and in no destination, or in the destination of its contract and in no other |
| PartitionLive.HoldersExact | scripts/partition_raw_by_contract.py:1990-2028 | The location the check computes for a recording can only be the destination of its own contract |
| PartitionSteps.MoveOutChecks | scripts/partition_raw_by_contract.py:201-297 | No comparison made before a rename out can fail in a reachable state: identities, modes and a free target |
| PartitionSteps.MoveBackChecks | scripts/partition_raw_by_contract.py:201-297 | Of those made before a rename back only the comparison of the destination's mode can fail |
| PartitionSteps.PublishedShape | scripts/partition_raw_by_contract.py:1851-1896 | Before any recording moves a published destination is fresh and marked, or is the one that was bound |
| PartitionSteps.MoveOutStep | scripts/partition_raw_by_contract.py:2431-2456 | A rename out keeps the invariant: one recording changes place and stays in one place |
| PartitionSteps.MoveBackStep | scripts/partition_raw_by_contract.py:2597-2615 | A rename back keeps the invariant |
| PartitionSteps.AdoptStep | scripts/partition_raw_by_contract.py:1862-1888 | Binding a published destination's identity in memory keeps the invariant, and its marker is there to bind |
| PartitionSteps.StartApplying | scripts/partition_raw_by_contract.py:2411-2427 | Recording `applying` keeps the invariant once all destinations are adopted |
| PartitionSteps.StartFinalizing | scripts/partition_raw_by_contract.py:2458-2467 | Recording `finalizing` keeps the invariant once everything has moved |
| PartitionSteps.StartRollback | scripts/partition_raw_by_contract.py:2586-2595 | Turning back keeps the invariant from every phase but `rolled_back` |
| PartitionSteps.EndPhase | scripts/partition_raw_by_contract.py:2471-2483 | Recording the end of either direction keeps the invariant, with the committed modes recorded |
| PartitionDisk.Disk.WriteState | scripts/partition_raw_by_contract.py:1031-1062 | An appended record is wholly there, or the records are the old ones, with or without a torn tail; `PartitionLog.AppendRecord` shows this of the bytes |
| PartitionDisk.Disk.BuildConstruction | scripts/partition_raw_by_contract.py:1784-1842 | A construction directory is made, or an earlier call's is completed; nothing else changes and no crash breaks the invariant |
| PartitionDisk.Disk.Publish | scripts/partition_raw_by_contract.py:1843-1849 | The finished directory takes its final name; other destinations are untouched |
| PartitionDisk.Disk.AdoptDestination | scripts/partition_raw_by_contract.py:1851-1896 | Opening a destination that is there always succeeds in a reachable state and binds exactly that contract |
| PartitionDisk.Disk.PrepareDestination | scripts/partition_raw_by_contract.py:1771-1896 | From any half-built destination an uninterrupted preparation is never refused and ends adopted |
| PartitionDisk.Disk.RenameOut | scripts/partition_raw_by_contract.py:201-297 | Never refused; a killed rename left everything where it was |
| PartitionDisk.Disk.RenameBack | scripts/partition_raw_by_contract.py:201-297 | Refused exactly when the destination's mode differs from the recorded one, and otherwise it is the inverse move |
| PartitionDisk.Disk.FinalizeDestination | scripts/partition_raw_by_contract.py:2073-2116 | Removes the marker and sets the mode in an order that any crash and any repetition survives, and moves no recording |
| PartitionBootstrap.WriteBootstrapRecord | scripts/partition_raw_by_contract.py:818-898 | The first durable record fixes the plan; a later call takes that plan or refuses another invocation |
| PartitionBootstrap.WriteJournalFile | scripts/partition_raw_by_contract.py:900-962 | Refused exactly when the file there lacks only its final line feed; any other cut is completed |
| PartitionBootstrap.WriteFirstRecord | scripts/partition_raw_by_contract.py:963-1029 | Writes record 0 after dropping what follows the bootstrap record; refused exactly when the log is already past it or torn |
| PartitionBootstrap.WriteBootstrap | scripts/partition_raw_by_contract.py:818-1029 | Bootstrap agreement: whatever token a later call brings, the first durable plan is installed, and a second complete bootstrap changes nothing |
| PartitionApply.PrepareAll | scripts/partition_raw_by_contract.py:2411-2419 | Uninterrupted, it adopts exactly the plan's destinations, whatever earlier calls left half built |
| PartitionApply.MoveContract | scripts/partition_raw_by_contract.py:2434-2456 | After it no recording of the contract is in the source, from any part of it already moved; recordings only leave the source |
| PartitionApply.MoveAll | scripts/partition_raw_by_contract.py:2431-2456 | After it exactly the kept contract's recordings are in the source |
| PartitionApply.FinalizeAll | scripts/partition_raw_by_contract.py:2073-2116 | All adopted destinations are finished, the source is untouched, and the journal in memory has the installed modes |
| PartitionApply.Finish | scripts/partition_raw_by_contract.py:2469-2483 | From a durable `finalizing` or `rolling_back` record an uninterrupted run always reaches the end of its direction |
| PartitionRollback.SettledIsRestorable | scripts/partition_raw_by_contract.py:2546-2615 | From `reserved`, `applying`, `committed` and `rolled_back` the reverse renames can always complete |
| PartitionRollback.FinalizingRestorable | scripts/partition_raw_by_contract.py:217-297 | From `finalizing` they can if and only if no destination has a final mode different from the working mode |
| PartitionRollback.HomeIsRestorable | scripts/partition_raw_by_contract.py:2597-2615 | Once all is home nothing can block the rollback |
| PartitionRollback.MoveBackKeepsRestorable | scripts/partition_raw_by_contract.py:2597-2615 | A reverse rename neither creates nor removes an obstacle |
| PartitionRollback.AdoptAll | scripts/partition_raw_by_contract.py:2561-2575 | Half-built destinations are adopted, only from `reserved`, and then none is left unadopted |
| PartitionRollback.RestoreContract | scripts/partition_raw_by_contract.py:2597-2615 | Done, the contract's recordings are all home; refused only from a state that cannot be restored |
| PartitionRollback.RestoreOne | scripts/partition_raw_by_contract.py:2600-2614 | One recording comes home or the destination's mode forbids it |
| PartitionRollback.RestoreAll | scripts/partition_raw_by_contract.py:2597-2615 | Done, every recording is home; refused only from a state that cannot be restored |
| PartitionCommands.CommittedIsFinal | scripts/partition_raw_by_contract.py:2471-2483 | A committed partition has full, marker-free destinations of the source's mode, each with exactly its own recordings |
| PartitionCommands.CommittedStateIsUnique | scripts/partition_raw_by_contract.py:2411-2483 | Any two committed states of one plan, with or without crashes on the way, differ at most in the identities of created directories |
| PartitionCommands.RolledBackIsOriginal | scripts/partition_raw_by_contract.py:2616-2630 | A rolled-back partition has the source as inventoried and every adopted destination empty |
| PartitionCommands.ApplyToFinalizing | scripts/partition_raw_by_contract.py:2411-2467 | From `reserved` or `applying`, however far an earlier call got, an uninterrupted run records `finalizing` |
| PartitionCommands.ApplyFrom | scripts/partition_raw_by_contract.py:2403-2483 | Refused exactly in the rollback direction and then without a trace; otherwise it ends committed |
| PartitionCommands.AdoptAndRecord | scripts/partition_raw_by_contract.py:2561-2584 | Adoption before a rollback is recorded and does not change whether the rollback can complete |
| PartitionCommands.TurnBack | scripts/partition_raw_by_contract.py:2561-2596 | The turn of direction is durable before any recording moves back |
| PartitionCommands.RollbackFrom | scripts/partition_raw_by_contract.py:2557-2630 | Completes only if the state could be restored; refused only with the obstacle standing |
| PartitionRuns.ResumableIsAccepted | scripts/partition_raw_by_contract.py:2308-2409 | What a crashed apply leaves is refused by the next apply exactly when the journal file was cut before its last line feed |
| PartitionRuns.RefusalMeans | scripts/partition_raw_by_contract.py:2308-2409 | What apply refuses a valid request for: before the bootstrap record, anything in the way; after it, another request, a changed source or a cut journal; once there are states, another request or a rollback begun |
| PartitionRuns.CutJournalExample | scripts/partition_raw_by_contract.py:940-952 | A disk that a crashed apply can leave, resumable in all else, that apply refuses |
| PartitionRuns.LoadOrBootstrap | scripts/partition_raw_by_contract.py:2303-2401 | Loads the durable journal unchanged or bootstraps one; nothing is refused that an earlier apply of this request left |
| PartitionRuns.Apply | scripts/partition_raw_by_contract.py:2245-2483 | `apply`: refused without a trace exactly in the stated states, never after a rollback began, and otherwise committed; nothing moves before the plan is durable |
| PartitionRuns.Rollback | scripts/partition_raw_by_contract.py:2486-2630 | `rollback`: not killed, it restores the original source if and only if the stated condition on the state before the call holds |
| PartitionRuns.WedgedStays | scripts/partition_raw_by_contract.py:201-297 | A rollback that cannot complete never becomes completable |
| PartitionRuns.RunOne | scripts/partition_raw_by_contract.py:2245-2630 | Any one call, killed anywhere, keeps the disk consistent and agrees with the log before it |
| PartitionRuns.RunAll | scripts/partition_raw_by_contract.py:2245-2630 | Over every run of applies of any requests and rollbacks, killed anywhere: each recording in exactly one place, one plan for good, a log that only grows, phases that never go back |
| PartitionRuns.ResumeApply | scripts/partition_raw_by_contract.py:2303-2483 | After any number of crashed applies one uninterrupted apply commits, except exactly after that one cut of the journal file |
| PartitionRuns.ResumeRollback | scripts/partition_raw_by_contract.py:2486-2630 | After any number of crashed rollbacks of a restorable state one uninterrupted rollback gives back the inventoried source |
| PartitionRuns.BlockedRollbackExample | scripts/partition_raw_by_contract.py:2102-2105 | A reachable kind of state, one destination with its final mode and no `committed` record, that rollback cannot leave |
| PartitionManifest.ReadSerials | scripts/partition_raw_by_contract.py:1213-1226 | Accepts exactly names that are well formed, new to the manifest and ascending |
| PartitionManifest.ReadPartitions | scripts/partition_raw_by_contract.py:1197-1227 | Accepts exactly good partitions with different digests and no common serial, and yields them as a dictionary |
| PartitionManifest.ReadRecordings | scripts/partition_raw_by_contract.py:1229-1246 | Accepts exactly resolved recordings of listed contracts with different serials, and yields the owner of each |
| PartitionManifest.SameOwners | scripts/partition_raw_by_contract.py:1247-1255 | Comparing the two dictionaries is comparing what both lists say of every serial and contract |
| PartitionManifest.ReadHeader | scripts/partition_raw_by_contract.py:1166-1196 | Accepts exactly the required versions, algorithm and invariants, an empty list of invalid recordings, and a relative path that the source task's path ends in |
| PartitionManifest.ValidateManifest | scripts/partition_raw_by_contract.py:1161-1266 | Accepts a manifest exactly when both lists are good, say the same of every serial, and are counted by the summary |
| PartitionManifest.SortIsStrict | scripts/partition_raw_by_contract.py:2431 | Sorting the digests gives each once, in strict order |
| PartitionManifest.ReadRequest | scripts/partition_raw_by_contract.py:1547-1584 | A request is made exactly from an accepted manifest with one destination for each contract that leaves, and it meets everything the transaction assumes of a request |
| PartitionManifest.RequestIsUnique | scripts/partition_raw_by_contract.py:1547-1584 | Only one request says what a manifest says |
| PartitionManifest.UntouchedIsApplied | scripts/partition_raw_by_contract.py:2303-2401 | That request is not refused while nothing has been done yet |
| PartitionManifest.ApplyManifest | scripts/partition_raw_by_contract.py:2245-2483 | From manifest to disk: what is not accepted changes nothing; an accepted manifest is refused exactly where `apply` refuses the one request that says what it says, and never, when not killed, on a disk with exactly its recordings and none of its destinations; a completed apply has every listed recording in the source or in its own contract's destination |
| StateLog.CompleteLinesOfFramed | scripts/partition_raw_by_contract.py:638-646 | Splitting framed lines with an unfinished tail gives back the lines and the size they take |
| StateLog.CutFramed | scripts/partition_raw_by_contract.py:638-646 | A cut at any byte leaves whole lines and at most one tail that has no line break |
| StateLog.ReplayIsExact | scripts/partition_raw_by_contract.py:678-717 | The record loop accepts exactly the encodings of a history numbered from 0 over one plan, chained by digests, and finds that history |
| StateLog.LastDigestDeterminesHistory | scripts/partition_raw_by_contract.py:523-538 | With an injective digest the last digest determines the whole history |
| StateLog.SplitLog | scripts/partition_raw_by_contract.py:638-646 | The loop over the bytes finds the whole lines and their size |
| StateLog.ParseStateLog | scripts/partition_raw_by_contract.py:629-717 | The parser as written equals its definition and returns the last payload, number and digest of an accepted history |
| StateLog.ReplayRecords | scripts/partition_raw_by_contract.py:678-717 | The loop that updates payload, number and previous digest computes the replay |
| StateLog.AcceptedLogIsChained | scripts/partition_raw_by_contract.py:629-717 | Every accepted log is a chained history that ends in what the parser returns |
| StateLog.AcceptedExactly | scripts/partition_raw_by_contract.py:629-717 | A log is accepted as a history exactly when its first line is a bootstrap record of this invocation, its second the header of this journal and plan, and the rest the records of the history |
| StateLog.SameLastDigestSameHistory | scripts/partition_raw_by_contract.py:523-538 | Two accepted logs that end in one digest record the same history, even of different journals |
| StateLog.TornTail | scripts/partition_raw_by_contract.py:629-717 | For every number of records and a cut at every byte: the parser finds exactly the last whole record, or reports the unfinished bootstrap |
| StateLog.StateFile.Append | scripts/partition_raw_by_contract.py:1031-1062 | Truncate and append, cut at any byte of the new record: the log parses to the new record exactly when all of it was written, and otherwise as before |
| PartitionLog.ReadsLastRecord | scripts/partition_raw_by_contract.py:720-771 | Reading the bytes of a log gives the last record of the transaction model, with its number |
| PartitionLog.AppendRecord | scripts/partition_raw_by_contract.py:1031-1062 | Appending a record to the bytes, cut anywhere and over any torn tail, does to the log exactly what the transaction model's step does, whole or not |
| PartitionLog.CutIsTorn | scripts/partition_raw_by_contract.py:629-717 | A log written line after line and cut at any byte is the model's log of the whole lines: nothing decided, the plan decided, or the whole records, torn when bytes follow them |
| PartitionLog.WriteBootstrapBytes | scripts/partition_raw_by_contract.py:857-881 | The bytes of the bootstrap record, cut anywhere, leave nothing decided or fix the plan, as the transaction model's step does |
| PartitionLog.WriteFirstBytes | scripts/partition_raw_by_contract.py:1001-1012 | Header and record 0, cut anywhere, over whatever followed the bootstrap record: record 0 is there exactly when all is written, and otherwise the log is as far as it was |
| Json.SortedSetIsSorted | scripts/reconcile_partition_convert_state.py:342-344 | A sorted set is ascending and has exactly the given elements |
| Json.AscendingIsUnique | scripts/reconcile_partition_convert_state.py:383-385 | An ascending list is determined by its elements, so the written order carries no history |
| Json.MaxIsGreatest | scripts/reconcile_partition_convert_state.py:356-358 | The last serial is one of the serials and greater than every other |
| StateDerivation.SettledFailures | scripts/reconcile_partition_convert_state.py:341-397 | Exactly the cleared serials leave both failure records, what is left is sorted, and no other field changes |
| StateDerivation.SettledIsConsistent | scripts/reconcile_partition_convert_state.py:341-397 | Converted and failed serials are disjoint; the count is the number of converted serials and the last serial their maximum |
| StateDerivation.SettledTwice | scripts/reconcile_partition_convert_state.py:341-397 | Settling again with no new serial to clear moves only `last_updated` |
| StateDerivation.SettleSource | scripts/reconcile_partition_convert_state.py:341-359 | The source branch, field by field, is the one definition of a settled entry with the moved serials cleared |
| StateDerivation.SettleDestination | scripts/reconcile_partition_convert_state.py:381-397 | The destination branch is the same definition with its own serials cleared |
| StateDerivation.RewriteSource | scripts/reconcile_partition_convert_state.py:317-359 | The source entry is rewritten exactly when it can be read and its durable serials were kept |
| StateDerivation.RewriteDestination | scripts/reconcile_partition_convert_state.py:361-397 | A destination entry is rewritten exactly when it is readable and its durable and failed serials lie in its own partition |
| StateDerivation.DeriveReplacement | scripts/reconcile_partition_convert_state.py:307-398 | Succeeds exactly when every entry in scope is derivable, and yields the replacement document; tasks out of scope are untouched |
| StateDerivation.ReplacementIsIdempotent | scripts/reconcile_partition_convert_state.py:307-398 | The derivation applies to its own result and leaves it as it is |
| StateDerivation.ReplacementIsConsistent | scripts/reconcile_partition_convert_state.py:307-398 | After it no serial is both converted and failed anywhere in scope, and counts are right |
| StateDerivation.FailuresLeft | scripts/reconcile_partition_convert_state.py:317-359 | Said of the two documents: from the source's failure records exactly the recordings leave that some destination received or the output has, from a destination's those its output has; every other failure stays, with what was recorded of it |
| StateDerivation.DerivableMeans | scripts/reconcile_partition_convert_state.py:286-385 | When a replacement can be derived, said of the document: readable entries, outputs and failures within the recordings each task has |
| StateDerivation.RecoveryDerivableMeans | backend/converter/recovery_service.py:3398-3440 | The same for the recovery, which takes a missing or null entry for an empty one |
| StateDerivation.DeriveRecovery | backend/converter/recovery_service.py:3410-3490 | The recovery's derivation succeeds exactly on a readable entry and changes that one task |
| StateDerivation.DerivationsAgree | backend/converter/recovery_service.py:3410-3490 | After a reconciliation the recovery's derivation with the same durable serials changes only `last_updated` |
| Reconcile.LensLaws | scripts/reconcile_partition_convert_state.py:459-471 | Composing a scope obeys get-put and put-put |
| Reconcile.DerivationIsLocal | scripts/reconcile_partition_convert_state.py:401-405 | What is derived depends on the entries in scope only, so edits elsewhere cannot change it |
| Reconcile.AdmissibleExact | scripts/reconcile_partition_convert_state.py:411-437 | An entry may be overwritten if and only if each of its fields, present or absent, is one of the two versions' |
| Reconcile.ValidateComposable | scripts/reconcile_partition_convert_state.py:440-456 | The loop accepts exactly when no task in scope conflicts |
| Reconcile.ComposeScope | scripts/reconcile_partition_convert_state.py:459-471 | The loop takes every entry in scope from one document and every other from the other |
| Reconcile.Store.WriteBackup | scripts/reconcile_partition_convert_state.py:599-654 | Killed, it may leave no backup, a cut one that does not decode, or one that lacks only trailing white space and still does |
| Reconcile.Store.Install | scripts/reconcile_partition_convert_state.py:676-706 | The state file is the old one or the new one, never part of one |
| Reconcile.Store.Apply | scripts/reconcile_partition_convert_state.py:747-850 | Refused without a trace exactly in stated states; otherwise the backup is the first original and the scope is derived from it |
| Reconcile.Store.Rollback | scripts/reconcile_partition_convert_state.py:902-977 | Refused exactly in stated states; otherwise every scoped entry is the backup's and every other entry the current one's |
| Reconcile.Store.Perform | scripts/reconcile_partition_convert_state.py:709-986 | From any state a run reaches no conflict is ever reported; apply fails exactly on a cut backup, an underivable document or an equal document in another layout; a cut backup stays cut |
| Reconcile.Store.RunAll | scripts/reconcile_partition_convert_state.py:709-986 | Over any run of applies, rollbacks, kills and outside edits, the scope is wholly original or wholly derived and the rest is what the edits alone made of it |
| Reconcile.BalancedScope | scripts/reconcile_partition_convert_state.py:440-471 | In every such state nothing conflicts, and both compositions land on the two intended documents |
| Reconcile.ApplyIsStuck | scripts/reconcile_partition_convert_state.py:842-850 | The exact condition under which an apply fails, and its result otherwise |
| Reconcile.RollbackIsReady | scripts/reconcile_partition_convert_state.py:902-966 | A rollback succeeds if and only if there is a whole backup, and its result is the original scope |
| Reconcile.StuckExamples | scripts/reconcile_partition_convert_state.py:770-850 | A store with a cut backup, and one already reconciled in another layout: reachable kinds of state in which apply refuses |
| RecoveryModel.NothingIsLost | backend/converter/recovery_service.py:3591-3825 | In every reachable state the output, the archive, each marker and the original state file exist under exactly one of their planned names |
| RecoveryModel.AdmitsTheEntitled | backend/converter/recovery_service.py:2143-2267 | What the checks before a recovery let through, said of the journals' phases, the trees and the contract: a prepared rebuild can be rolled back to an archive that passes, a verified or a provenly adopted one committed, an armed finalization adopted, a failed output set aside |
| RecoveryModel.NewIntentRecords | backend/converter/recovery_service.py:2269-2429 | A new intent holds every marker that is there and no other, the output, the archive exactly when the rebuild journal names it, an adoption for a prepared rebuild alone, and the serials of the tree that is to stay |
| RecoveryModel.BlockedUntilPublished | backend/converter/recovery_service.py:1013-1038 | The converter's gate is closed from the intent to the receipt and open after it, given that full validity implies quick validity |
| RecoveryModel.GateIsOpen | backend/converter/queue_adapter.py:99-114 | The converter is let in exactly when there is no marker, no intent, and no output that fails the quick check |
| RecoveryModel.OutcomeIsDetermined | backend/converter/recovery_service.py:3553-3827 | Two finished recoveries of one start have the same trees, state file content, markers and intent, however often each was killed |
| RecoveryChecks.EvidenceStays | backend/converter/recovery_service.py:2833-2936 | The marker evidence is found as it was at the start, before and after each audit rename |
| RecoveryChecks.IntentPasses | backend/converter/recovery_service.py:2431-2789 | A stored intent is valid again if and only if the archive its rebuild journal names was there |
| RecoveryChecks.MarkersPass | backend/converter/recovery_service.py:2833-2936 | The marker check authorizes every state a replay can leave |
| RecoveryChecks.StatePasses | backend/converter/recovery_service.py:3063-3240 | The state artifact check accepts every position of original and replacement that a replay can leave |
| RecoveryChecks.EverythingPasses | backend/converter/recovery_service.py:3563-3589 | All checks at the head of the loop pass on a resumed task if and only if the named archive was there |
| RecoveryChecks.PreflightAsks | backend/converter/recovery_service.py:2967-3042 | In any namespace the preflight accepts exactly a recorded output on one side of its rename, with a sound archive of the recorded serials for a rollback and a failed output for a restart |
| RecoveryChecks.PreflightPasses | backend/converter/recovery_service.py:2967-3042 | The quarantine preflight accepts the output on either side of its rename |
| RecoveryChecks.CandidateAsks | backend/converter/recovery_service.py:3661-3699 | In any namespace the candidate is accepted exactly when it is the tree that is to stay, sound, with the recorded serials |
| RecoveryChecks.CandidatePasses | backend/converter/recovery_service.py:3661-3699 | The candidate's fresh proof is the proof recorded in the intent |
| RecoverySteps.ReceiptsAdvance | backend/converter/recovery_service.py:3242-3255 | Every phase change is allowed for its mode, lowers the rank and adds the receipts the next phase expects |
| RecoverySteps.PhaseAdvances | backend/converter/recovery_service.py:3242-3255 | Writing the next phase keeps the invariant once the phase's work is done |
| RecoverySteps.QuarantineKeepsFit | backend/converter/recovery_service.py:3620-3626 | The state between the quarantine rename and its record is one a replay accepts |
| RecoverySteps.RestoreKeepsFit | backend/converter/recovery_service.py:3641-3659 | So is the state between the archive rename and its record |
| RecoverySteps.BackupKeepsFit | backend/converter/recovery_service.py:3728-3743 | So is the state with no state file, between backup and install |
| RecoverySteps.InstallKeepsFit | backend/converter/recovery_service.py:3745-3772 | So is the state between install and its record |
| RecoverySteps.AuditKeepsFit | backend/converter/recovery_service.py:3774-3797 | So is the state between any two marker audits |
| RecoverySteps.StatePrepared | backend/converter/recovery_service.py:3701-3726 | A recorded replacement is the one derived from the start's state file |
| RecoverySteps.ProofAdded | backend/converter/recovery_service.py:3598-3619 | Filling in a missing contract proof keeps the intent valid |
| RecoverySite.Site.WriteIntent | backend/converter/recovery_service.py:2815-2831 | The whole intent is installed or nothing changes |
| RecoverySite.Site.Advance | backend/converter/recovery_service.py:3242-3255 | The stored intent is the old one or the advanced one |
| RecoverySite.Site.ResolveDirectory | backend/converter/recovery_service.py:3257-3313 | Succeeds exactly when one of the two names holds the expected tree and the other nothing, and then the destination holds it |
| RecoverySite.Site.ResolveRegular | backend/converter/recovery_service.py:3315-3372 | The same for files |
| RecoverySite.Site.QuarantineOutput | backend/converter/recovery_service.py:3591-3639 | Never refused in a reachable state; it lowers the rank, or fills in the contract proof first |
| RecoverySite.Site.RestoreArchive | backend/converter/recovery_service.py:3641-3659 | Never refused in a reachable state and lowers the rank |
| RecoverySite.Site.VerifyCandidate | backend/converter/recovery_service.py:3661-3699 | Never refused in a reachable state and lowers the rank |
| RecoverySite.Site.BuildReplacement | backend/converter/recovery_service.py:3492-3551 | Written once and found again; refused only when the state file cannot be rewritten, and then without a trace |
| RecoverySite.Site.PrepareState | backend/converter/recovery_service.py:3701-3726 | The same with the record of the replacement |
| RecoverySite.Site.BackupState | backend/converter/recovery_service.py:3728-3743 | Never refused in a reachable state and lowers the rank |
| RecoverySite.Site.InstallState | backend/converter/recovery_service.py:3745-3772 | Never refused in a reachable state and lowers the rank |
| RecoverySite.Site.AuditMarker | backend/converter/recovery_service.py:3776-3785 | One marker moves to its audit name or has already moved |
| RecoverySite.Site.AuditMarkers | backend/converter/recovery_service.py:3774-3797 | All markers are audited from any part of them done |
| RecoverySite.Site.Complete | backend/converter/recovery_service.py:3799-3808 | The durable receipt phase is recorded |
| RecoverySite.Site.Publish | backend/converter/recovery_service.py:3810-3825 | One rename turns the intent into the receipt and the task into a recovered one |
| RecoveryService.Replay | backend/converter/recovery_service.py:3553-3827 | The loop ends by rank and missing proof; not killed, it publishes if and only if the state file can be rewritten; otherwise the recovery is still under way |
| RecoveryService.ExistingReceipt | backend/converter/recovery_service.py:2015-2141 | While a marker is there no receipt is read; otherwise the first of all receipts that is not skipped decides: it is returned, or the call raises |
| RecoveryService.JudgeReceipt | backend/converter/recovery_service.py:2038-2140 | The checks on one receipt, in their order: it is returned exactly when all it names bears it out, and it raises exactly when today's checks reject it, or all is in place but the state file is not what the recovery derives; a changed raw task passes it over before its markers are looked at |
| RecoveryService.AcceptedIsBorneOut | backend/converter/recovery_service.py:2038-2140 | A receipt is returned exactly when it is of this mode and trees, state file, markers, raw recordings and contract manifest still bear it out |
| RecoveryService.AcceptedMeans | backend/converter/recovery_service.py:2038-2140 | The same said of what the receipt records and what is on disk: whose recordings, manifest and validation it was made for, where trees, state file and its backup, and every marker are, and what the journals entitle to |
| RecoveryService.EarlierIsSkipped | backend/converter/recovery_service.py:2038-2140 | After a recovery no earlier receipt is returned, and one raises exactly when its intent, with its contract binding, fails today's checks, or, the raw recordings unchanged, its markers do |
| RecoveryService.PublishedScan | backend/converter/recovery_service.py:2032-2141 | On a recovered task a call of its mode finds its own receipt if and only if no receipt read before it is rejected |
| RecoveryService.Scan | backend/converter/recovery_service.py:3837-3848 | What reading the receipts does to a call on an untouched and on a recovered task |
| RecoveryService.ReceiptStands | backend/converter/recovery_service.py:2015-2141 | The receipt a recovery published is returned by later calls of its mode |
| RecoveryService.NothingElseIsAdmitted | backend/converter/recovery_service.py:2143-2267 | After a recovery no mode's preconditions hold any more |
| RecoveryService.NewIntentFits | backend/converter/recovery_service.py:2269-2429 | A new intent on an admitted task is one a replay can take up |
| RecoveryService.Recover | backend/converter/recovery_service.py:3829-3891 | `recover`, with any earlier receipts: begins a recovery only where journals, trees and contract entitle it to, refuses without a trace elsewhere, resumes, or returns a receipt the task bears out; another mode changes nothing; its own receipt is found if and only if none before it is rejected; not killed and not ended by the receipts, it finishes if and only if the named archive was there and the state file can be rewritten |
| RecoveryService.RunAll | backend/converter/recovery_service.py:3829-3891 | Over any run of calls in any modes, killed anywhere, the task belongs to the first recovery begun, the gate stays closed until it is published, and a last undisturbed call of its mode publishes it |
| RecoveryService.OneCall | backend/converter/queue_adapter.py:99-114 | One more call of any run keeps what the gate relies on |
| RecoveryService.MissingArchiveExample | backend/converter/recovery_service.py:2371 | An admitted start whose intent no later call accepts |
| RecoveryService.UnwritableStateExample | backend/converter/recovery_service.py:3398-3408 | An admitted start whose state file does not decode, so that its recovery never finishes |
| RecoveryService.SpoiltReceiptExample | backend/converter/recovery_service.py:2677-2681 | For any two different contract bindings, none included: a recovery that could be made and finished, and that a receipt taken under the other one keeps from being started |
| RecoveryService.ChangedRawExample | backend/converter/recovery_service.py:2061-2070 | A receipt whose markers do not authorise it today, passed over because its raw recordings have changed; the recovery can be started |
| MaterializeModel.SafeMeansViewOnce | scripts/split_raw_task_by_metadata.py:2083-2102 | The original view is at exactly one of its two names, and what else may have the task's name is the complete tree |
| MaterializeModel.HonouredIsPresentable | scripts/split_raw_task_by_metadata.py:2105-2223 | Under a umask that leaves the wanted modes alone no reachable state has a half-made directory |
| MaterializeModel.StuckIsRefused | scripts/split_raw_task_by_metadata.py:2430-2500 | Of everything calls can leave behind, a call can resume exactly the resumable states with no directory half made |
| MaterializeModel.GuardsMean | scripts/split_raw_task_by_metadata.py:857-925 | The manifest records an identity in exactly the phases that have one, and every recorded quarantine holds the root with its identity and its marker, but for the last one while it is being filled |
| MaterializeModel.OneLateErrorExample | scripts/split_raw_task_by_metadata.py:1032-1041 | Two states that one error after its step's effect leaves and no call passes: a staging root that is public and not recorded, and a quarantine named in memory only |
| MaterializeModel.TwoErrorsExample | scripts/split_raw_task_by_metadata.py:2406-2426 | Three more that a second error leaves: a quarantine never filled, no staging root recorded, and a recorded root already set aside, with a manifest that passes all its own checks |
| MaterializeModel.FailedMoveBackResumes | scripts/split_raw_task_by_metadata.py:2377-2388 | A manifest that says `rollback_failed` because the view could not be moved back stops no call |
| Materialize.Workspace.WritePhase | scripts/split_raw_task_by_metadata.py:2226-2238 | The manifest on disk is the old or the new one, also when the write reports an error, and the one in memory moves on in any case |
| Materialize.Workspace.States | scripts/split_raw_task_by_metadata.py:2083-2102 | What each of the three names holds, or, after an error that a classification passes over, foreign |
| Materialize.Workspace.PrepareConstruction | scripts/split_raw_task_by_metadata.py:700-775 | Makes or completes a reserved, empty root under the construction name only |
| Materialize.Workspace.PublishRoot | scripts/split_raw_task_by_metadata.py:778-839 | The public staging root, when reported, is the reserved one, and it has left its construction name; it is public without being reported only after an error behind the rename |
| Materialize.Workspace.ReserveQuarantine | scripts/split_raw_task_by_metadata.py:932-963 | The name to set the root aside under is durable before the root moves; an error behind its entry into memory leaves an entry that names nothing |
| Materialize.Workspace.QuarantineStaging | scripts/split_raw_task_by_metadata.py:927-1011 | The root is set aside whole and a new one reserved; at every interruption the disk is as before, or the transition is resumable, or it is complete; an entry that names nothing is never passed |
| Materialize.Workspace.FillQuarantine | scripts/split_raw_task_by_metadata.py:965-1011 | From a durable reservation: the root is renamed once, checked, and a new reservation written |
| Materialize.Workspace.SetStagingAside | scripts/split_raw_task_by_metadata.py:965-994 | The rename is made once, in this call or an earlier one |
| Materialize.Workspace.EnsureIdentity | scripts/split_raw_task_by_metadata.py:1014-1048 | Afterwards a recorded root is public; task and rollback names are untouched; a crash or an error leaves a resumable task, and in memory what the undo accepts |
| Materialize.Workspace.TakeIdentity | scripts/split_raw_task_by_metadata.py:1031-1048 | A root is published and its identity recorded; after an error behind the rename it is public and unrecorded |
| Materialize.Workspace.LinkFiles | scripts/split_raw_task_by_metadata.py:2128-2207 | Done, a recording has a link for each of its files; stopped, it has some of them and no other |
| Materialize.Workspace.BuildRecording | scripts/split_raw_task_by_metadata.py:2112-2210 | Only the one recording changes; its directory's mode may be unset only where the umask changes it |
| Materialize.Workspace.MakeDirectory | scripts/split_raw_task_by_metadata.py:2112-2127 | The directory and its mode, in two steps where the umask changes it |
| Materialize.Workspace.BuildStaging | scripts/split_raw_task_by_metadata.py:2105-2223 | Done, the staging root is the complete tree; stopped, it is a part of it |
| Materialize.Workspace.MoveView | scripts/split_raw_task_by_metadata.py:1968-1998 | The view moves to a free name or stays where it is; a reported error allows both |
| Materialize.Workspace.Commit | scripts/split_raw_task_by_metadata.py:2241-2293 | Reports success only when the task is the whole tree and the rollback name holds the view; an error in either look at them is recorded as `recovery_failed` |
| Materialize.Workspace.ReplaceStaging | scripts/split_raw_task_by_metadata.py:1051-1065 | A used root is replaced by an empty recorded one, resumable at every point |
| Materialize.Workspace.CompleteTree | scripts/split_raw_task_by_metadata.py:2493-2521 | Ends with a complete tree beside the view, from whatever was staged |
| Materialize.Workspace.ArchiveView | scripts/split_raw_task_by_metadata.py:2522-2529 | The view steps aside only after `prepared` is recorded with a complete tree |
| Materialize.Workspace.BuildTree | scripts/split_raw_task_by_metadata.py:2493-2529 | From the view in place to the view set aside; stopped, the view is safe and the task resumable; without a staging root it refuses and changes nothing |
| Materialize.Workspace.InstallTree | scripts/split_raw_task_by_metadata.py:2531-2582 | The tree takes the task's name and is committed; at every point, and after an error behind any step, the view is safe and the task resumable |
| Materialize.Workspace.TryForward | scripts/split_raw_task_by_metadata.py:2479-2594 | The guarded part commits, or leaves a resumable task and in memory a state that the undo accepts, a clean one unless an error struck behind its effect |
| Materialize.Workspace.PutBack | scripts/split_raw_task_by_metadata.py:2375-2407 | Done, the view is back and the staging root set aside; in any case what is then recorded can be left behind, and without an error it can be resumed |
| Materialize.Workspace.ClearStaging | scripts/split_raw_task_by_metadata.py:2388-2400 | The staging root is set aside, or what an error leaves is resumable or stuck |
| Materialize.Workspace.Restore | scripts/split_raw_task_by_metadata.py:2372-2427 | The undoing with its record: a task that was resumable is afterwards resumable or stuck, and resumable from a clean state without an error |
| Materialize.Workspace.Undo | scripts/split_raw_task_by_metadata.py:2347-2427 | From a clean state and without a second error it commits a finished tree, leaves a half-made directory alone, and otherwise puts the task back as it was: the view at its name, nothing staged, `rolled_back` recorded; otherwise it leaves a resumable or a stuck task; where the staging root is gone it changes no name |
| Materialize.Workspace.GoForward | scripts/split_raw_task_by_metadata.py:2479-2595 | After one error before its effect the work is undone, finished after all, stopped in a quarantine, or stopped at a half-made directory or an unverified tree; it leaves a committed, resumable or stuck task, the last only after two errors or one behind its effect |
| Materialize.Workspace.RollForward | scripts/split_raw_task_by_metadata.py:2430-2595 | From a resumable task, undisturbed, commits if and only if no directory is half made; a half-made directory or an invalid quarantine stops it with nothing changed, a staging root that is gone stops it for good |
| Materialize.Workspace.Advance | scripts/split_raw_task_by_metadata.py:2437-2595 | What the three names are found to hold decides: foreign or ambiguous names change nothing, a finished tree is committed, a committed task is left as it is, anything else goes through the guarded part |
| Materialize.Workspace.Run | scripts/split_raw_task_by_metadata.py:2598-2731 | Whatever fails the view stays at exactly one name and no staging root is removed; success means the task holds every recording, with its mode and exactly its files, and nothing else, and that no step reported an error; from anything calls can leave, undisturbed, it commits if and only if the manifest loads, its quarantines are valid, its staging root is not gone and no directory is half made; if one of these fails no name changes, none of it passes later, and the manifest changes only where the root is gone; a committed task is never changed again |
| Materialize.Workspace.RunAll | scripts/split_raw_task_by_metadata.py:2598-2731 | Over any calls with any faults the view is safe, success means every recording with exactly its files, and a last undisturbed call commits if and only if those conditions hold; with honoured modes and at most one error each, before its step's effect, it always commits |
| Materialize.ForeignIsHalfMade | scripts/split_raw_task_by_metadata.py:2001-2080 | A half-made directory is the only thing a resumed call calls foreign |
| Materialize.HalfMadeExample | scripts/split_raw_task_by_metadata.py:2105-2223 | A reachable state that no later call can commit |
| Materialize.CommittedIsWhole | scripts/split_raw_task_by_metadata.py:2036-2080 | A committed task holds exactly the planned recordings, each with its mode and exactly its files |
| Materialize.KindsOfTree | scripts/split_raw_task_by_metadata.py:2001-2077 | An owned root is foreign exactly when it holds a directory or file that was not planned or a mode not set; otherwise it is whole, or something planned is missing |
| SqlLexer.TagMeaning | backend/core/db.py:52-63 | A dollar-quote tag is found exactly when a `$`, a tag body and a `$` start the text |
| SqlLexer.LexLosesNothing | backend/core/db.py:197-300 | The pieces put together are the text: nothing is dropped or read twice |
| SqlLexer.BlankKeepsLength | backend/core/db.py:197-300 | Blanking keeps the length, so positions agree |
| SqlLexer.BlankCharacters | backend/core/db.py:197-300 | Each character of the blanked text is the original one or a space |
| SqlLexer.TakeTurn | backend/core/db.py:208-298 | The five flag variables, of which at most one is ever set, follow the modes of the grammar turn by turn |
| SqlLexer.AnalysisSql | backend/core/db.py:197-300 | The loop, with the variables of `TakeTurn`, computes the blanked text of the grammar |
| SqlTranslate.Translate | backend/core/db.py:66-194 | Refuses exactly the texts with both placeholder styles in code, and otherwise replaces the marks of code in order |
| SqlTranslate.NoMark | backend/core/db.py:66-194 | A text with no mark in code comes back unchanged, whatever its literals hold |
| SqlTranslate.DollarVerbatim | backend/core/db.py:66-194 | A dollar-quoted text is copied up to its closing tag |
| SqlTranslate.WordRun | backend/core/db.py:66-194 | A run of word characters in the translation was already one in the text |
| SqlTranslate.TagAfter | backend/core/db.py:52-63 | After a bare `$` the translation makes a tag exactly when the `$` dangles |
| SqlTranslate.HeadStep | backend/core/db.py:66-194 | Where no `$` dangles the first step reads the same before and after |
| SqlPrinter.QuotedIsHidden | backend/core/db.py:123-167 | Text between quotes of either kind, its own quotes doubled, is blanked and copied whole up to the closing quote |
| SqlPrinter.OpenQuoteIsHidden | backend/core/db.py:123-167 | One that is not closed, to the end of the text |
| SqlPrinter.LineIsHidden | backend/core/db.py:91-149 | So is a comment from two dashes to the end of its line, and the line end is kept |
| SqlPrinter.BlockIsHidden | backend/core/db.py:98-155 | So is a comment up to the closing that matches its opening, those nested in it counted, or to the end of the text |
| SqlPrinter.FlatComment | backend/core/db.py:98-155 | With nothing nested in it that is the first closing |
| SqlPrinter.DollarIsHidden | backend/core/db.py:113-174 | So is a dollar quote up to the next occurrence of its tag |
| SqlPrinter.OpenDollarIsHidden | backend/core/db.py:113-174 | One that is not closed, to the end of the text |
| SqlPrinter.CodeIsKept | backend/core/db.py:169-192 | A character that opens none of these is kept, and a question mark is numbered |
| SqlMeaning.MarksShow | backend/core/db.py:66-194 | The translator's marks are the question marks blanking leaves |
| SqlMeaning.NumbersShow | backend/core/db.py:66-194 | Its numbered placeholders are the ones blanking leaves |
| SqlMeaning.DanglingShows | backend/core/db.py:197-300 | A dangling `$` can be seen in the blanked text; none is there when blanking leaves no `$` |
| SqlMeaning.RefusalShows | backend/core/db.py:66-194 | The refusal can be decided on the blanked text |
| SqlMeaning.BlankTwice | backend/core/db.py:197-300 | Blanking is idempotent |
| SqlMeaning.TranslationReadsTheSame | backend/core/db.py:66-194 | Without a dangling `$`, the translation lexes to the same pieces with the k-th mark as `$k`: literals and comments verbatim, blanking commutes, no mark left |
| SqlMeaning.DanglingBreaks | backend/core/db.py:66-194 | With one, the translation always reads differently |
| SqlMeaning.MeaningIsKept | backend/core/db.py:66-194 | Meaning is preserved if and only if the blanked text nowhere has a `$`, a tag body and a `?` in a row |
| SqlMeaning.TranslatedOnce | backend/core/db.py:66-194 | Translating twice is translating once |
| SqlMeaning.DanglingExample | backend/core/db.py:66-194 | `$a?` is such a text |
| CteClassifier.ScanItem | backend/core/db.py:340-386 | One turn of the loop over indices decides, or moves on to the next name with the same answer |
| CteClassifier.ScanBody | backend/core/db.py:366-386 | So does its second half, from the opening parenthesis |
| CteClassifier.Scan | backend/core/db.py:316-388 | The index loop with its depth counters computes the grammar's answer |
| CteClassifier.IsDataModifying | backend/core/db.py:316-388 | The whole function: blank, fold the case, decide |
| CtePrinter.MarkOver | backend/core/db.py:361-367 | A `[NOT] MATERIALIZED` mark is passed over exactly when it has one space |
| CtePrinter.OneExpression | backend/core/db.py:340-386 | One printed expression is passed over to the next unless it decides |
| CtePrinter.ListAnswer | backend/core/db.py:340-388 | On every printable list, the answer is whether a body with only readable marks up to it changes data |
| CtePrinter.StatementAnswer | backend/core/db.py:316-388 | The exact answer on every printable statement, with any white space, columns, marks and optional RECURSIVE; a first name that is the keyword itself, without the keyword, has its own |
| CteAnswers.RawAnswer | backend/core/db.py:316-388 | The exact answer on every raw text that blanking and folding turn into a printed statement, whatever its literals and comments hold: some body starts with one of the four verbs, and NOT MATERIALIZED is written with one space up to it |
| CteAnswers.WritesFirstIsModifies | backend/core/db.py:316-388 | A body changes data exactly when it starts, white space apart, with insert, update, delete or merge |
| CtePrinter.NoKeyword | backend/core/db.py:337-338 | Without the keyword, a first name that merely begins with it does no harm |
| CtePrinter.ReservedHead | backend/core/db.py:337-367 | Then AS is read as the name, and the body as its columns exactly when it follows AS directly or its mark is glued to it |
| CtePrinter.ReservedList | backend/core/db.py:337-386 | So the whole list is passed over, and only a second AS with a body behind it could answer |
| CtePrinter.ReservedNameIsMissed | backend/core/db.py:337-386 | For every list whose first name is the keyword, without the keyword, and that is not followed by AS, the answer is false whatever its bodies do |
| CtePrinter.MissedExamples | backend/core/db.py:337-364 | Two printable statements with a deleting body that is not seen |
| Sorting.SortIsOrdered | backend/converter/validation_service.py:287-289 | Sorting orders by any total order and keeps the elements |
| Sorting.SortKeepsCover | backend/converter/validation_service.py:287-289 | Sorting keeps how often each point is covered |
| Sorting.ChainedCoversOnce | backend/converter/validation_service.py:287-301 | Ordered intervals cover every point once exactly when each starts where the one before ends |
| DatasetValidation.Sweep | backend/converter/validation_service.py:287-301 | The cursor loop accepts exactly the chained ranges |
| DatasetValidation.CollectRanges | backend/converter/validation_service.py:276-285 | A table's ranges are taken exactly when all are non-negative and non-empty |
| DatasetValidation.ValidateEpisodeRanges | backend/converter/validation_service.py:276-302 | Accepts exactly when all ranges are good and together cover each of the rows once and nothing else, in any order over the tables |
| DatasetValidation.SortedRanges | backend/converter/validation_service.py:287-301 | Chaining after the sort is covering once before it |
| DatasetValidation.SweepRows | backend/converter/validation_service.py:446-460 | For any segments the two pointers accept exactly when every row fits the first segment, by start, that ends behind it |
| DatasetValidation.FitsIsAgrees | backend/converter/validation_service.py:446-460 | Where segments follow each other that first segment is the only one that contains the row |
| DatasetValidation.ValidateDataReferences | backend/converter/validation_service.py:426-460 | For any tables: accepts exactly when the indices are a permutation of the row numbers and every row fits the first segment ending behind it; for segments that the range check accepts this is agreement with the one segment containing the row, in any order of rows and tables |
| DatasetValidation.SortedRefs | backend/converter/validation_service.py:440-444 | Comparing the sorted indices with the range is counting each index once |
| DatasetValidation.SameAgreement | backend/converter/validation_service.py:423-440 | Agreement does not depend on the order of rows or segments |
| DatasetValidation.FlattenPlaces | backend/converter/validation_service.py:426-460 | The tables are read one after the other: each row of each table has its own place, and there are no others |
| DatasetRegistry.WithoutKeepsOrder | backend/datasets/services/dataset_registry.py:226-237 | Dropping a path keeps the others in the order of their use |
| DatasetRegistry.PutKeepsOrder | backend/datasets/services/dataset_registry.py:211-214 | Storing or touching a path makes it the newest and keeps the order |
| DatasetRegistry.NewestAreKept | backend/datasets/services/dataset_registry.py:215-216 | What is evicted was used before everything that is kept, and the size fits |
| DatasetRegistry.StableLoadIsUnmixed | backend/datasets/services/dataset_registry.py:255-271 | If the fingerprints before and after a load agree, file by file, the load read one state of the disk, the one between them |
| DatasetRegistry.UnchangedIsCurrent | backend/datasets/services/dataset_registry.py:197-199 | A fingerprint equal to a cached one shows the disk in the cached state when it was begun |
| DatasetRegistry.CachedIsOlder | backend/datasets/services/dataset_registry.py:194-195 | What is cached was on disk, all of it together |
| DatasetRegistry.Registry.constructor | backend/datasets/services/dataset_registry.py:179-190 | An empty cache satisfies the invariant |
| DatasetRegistry.Registry.Touch | backend/datasets/services/dataset_registry.py:200-207 | A hit moves the path to the end and changes nothing else |
| DatasetRegistry.Registry.Insert | backend/datasets/services/dataset_registry.py:211-217 | A loaded context is published under its path and key, and every path it evicts was used before all that stay |
| DatasetRegistry.Registry.Next | backend/datasets/services/dataset_registry.py:192-276 | Every atomic step of a call keeps its record true, brings it nearer its end, and touches the cache only when it returns |
| DatasetRegistry.Registry.FindByKey | backend/datasets/services/dataset_registry.py:219-224 | A key leads to the path last loaded under it, or the call raises |
| DatasetRegistry.Registry.LookInCache | backend/datasets/services/dataset_registry.py:192-195 | A call begins with what the cache holds, which was on disk before |
| DatasetRegistry.Registry.ReturnCached | backend/datasets/services/dataset_registry.py:199-207 | A cached context whose fingerprint was found again is returned, or an equal one that took its place, or the load begins |
| DatasetRegistry.Registry.ReadOne | backend/datasets/services/dataset_registry.py:255-276 | Fingerprints and loads read one file a step |
| DatasetRegistry.Registry.PublishLoaded | backend/datasets/services/dataset_registry.py:209-217 | A stable load is published and returned |
| DatasetRegistry.Registry.Step | backend/datasets/services/dataset_registry.py:192-276 | One call's step among any number of calls disturbs no other |
| DatasetRegistry.Registry.Drop | backend/datasets/services/dataset_registry.py:226-237 | Invalidation removes the path and exactly the keys that lead to it |
| DatasetRegistry.Registry.RewriteFile | backend/datasets/services/dataset_registry.py:46-79 | A change of any one file at any moment, between two entries of a fingerprint too, keeps the invariant |
| DatasetRegistry.Registry.RunAll | backend/datasets/services/dataset_registry.py:192-276 | The invariant holds over every interleaving of calls, invalidations and rewrites, with as many calls as were begun |
| DatasetRegistry.Registry.GetAlone | backend/datasets/services/dataset_registry.py:192-224 | A call that nothing disturbs ends, does not raise, and returns the dataset as it is on disk, the cached one if that is current |
| DatasetRegistry.Registry.ReturnedIsFresh | backend/datasets/services/dataset_registry.py:255-276 | Every returned context had all its files read at the versions in its fingerprint, and those versions were, all together, on disk at one moment of the call; the cache is within its size |
| CycleStamp.DetectArm | backend/datasets/services/cycle_stamp_service.py:24-40 | A frame is an end exactly when it is open, some earlier frame is closed and none between them is open |
| CycleStamp.Detect | backend/datasets/services/cycle_stamp_service.py:43-47 | The ends of either arm, ascending and once each |
| CycleStamp.Merge | backend/datasets/services/cycle_stamp_service.py:47 | The merged list is ascending and has exactly the elements of both |
| CycleStamp.OrderedRowsAreInOrder | backend/datasets/services/cycle_stamp_service.py:123-125 | An episode's ordered rows are all its rows, by frame and then by place |
| CycleStamp.EndsByPlace | backend/datasets/services/cycle_stamp_service.py:127-130 | An end in the ordered list is an end stated of the row itself |
| CycleStamp.TerminalMeans | backend/datasets/services/cycle_stamp_service.py:24-47 | What ends a cycle, in each gripper's own values and thresholds |
| CycleStamp.LastIsFinal | backend/datasets/services/cycle_stamp_service.py:132-135 | The last row of the ordered list is the one that no other row of the episode follows |
| CycleStamp.StampEnds | backend/datasets/services/cycle_stamp_service.py:127-130 | Exactly the episode's ends are set, other episodes' flags are kept, and the ends counted one by one are the flags set: none is set twice |
| CycleStamp.StampEpisode | backend/datasets/services/cycle_stamp_service.py:123-135 | One more episode is flagged, one last row is set, and the ends counted are the flags added |
| CycleStamp.Stamp | backend/datasets/services/cycle_stamp_service.py:98-135 | Every row's flags are what its episode says of it, each episode has one last row, and what was counted end by end and episode by episode is the number of flags set |
| CycleStamp.FlagsDoNotDependOnOrder | backend/datasets/services/cycle_stamp_service.py:98-135 | With distinct frames, a row's flags are the same however rows are ordered and spread over files |
| Decimals.DecimalIsInjective | scripts/fix_split_serial_numbers.py:96-99 | Different suffixes are written differently |
| Decimals.DecimalReadsBack | scripts/fix_split_serial_numbers.py:96-99 | The digits written for a number stand for it, with no zero before them |
| SerialRenaming.NamesDiffer | scripts/fix_split_serial_numbers.py:96-99 | So are the names made with them |
| SerialRenaming.NameExtends | scripts/fix_split_serial_numbers.py:96-99 | A new name is the old serial, an underscore and the number |
| SerialRenaming.FreeName | scripts/fix_split_serial_numbers.py:95-99 | The suffix search ends, at the first name that is free |
| SerialRenaming.PlanNewSerials | scripts/fix_split_serial_numbers.py:74-102 | For any rows: new serials are pairwise distinct and each is or extends a serial of its episode, the former exactly where that was unique; with one row an episode, each episode of a duplicated serial takes the first suffix from its place on that is not taken |
| SerialRenaming.OldSerialIsExtended | scripts/fix_split_serial_numbers.py:88-101 | With one row an episode, unique serials are kept and every other is extended |
| SerialRenaming.PlanGroup | scripts/fix_split_serial_numbers.py:94-101 | A duplicated serial's episodes get names nobody else has |
| SerialRenaming.UniqueKeepsPlan | scripts/fix_split_serial_numbers.py:91-93 | Keeping a unique serial cannot collide with any name given so far |
| SerialRenaming.SuffixKeepsPlan | scripts/fix_split_serial_numbers.py:94-101 | Giving a free name cannot either |
| SerialRenaming.SecondRunIsIdentity | scripts/fix_split_serial_numbers.py:74-102 | After a rewrite any further plan changes nothing |
| SerialRenaming.OneWinner | scripts/fix_split_serial_numbers.py:209-217 | An old reason reaches at most one episode |
| SerialRenaming.WinsByOrder | scripts/fix_split_serial_numbers.py:190-217 | Going by episode, the winner is the lowest-indexed episode with the annotation's grade |
| SerialRenaming.WinsMeans | scripts/fix_split_serial_numbers.py:151-241 | A row wins a reason exactly when the last old annotation with its serial has its grade and a reason, and no row with that serial and grade comes earlier |
| SerialRenaming.MigrateGroup | scripts/fix_split_serial_numbers.py:190-222 | A serial's rows get their annotations, and its reason is attached exactly when some row wins it |
| SerialRenaming.ByEpisodeExact | scripts/fix_split_serial_numbers.py:167-170 | The dictionary by episode holds exactly the last row of each |
| SerialRenaming.PlanMigration | scripts/fix_split_serial_numbers.py:151-241 | For any rows, of which the last of each episode counts: every graded row has its annotation under its new serial, with the reason exactly at the winner; recovered plus orphaned are all reasons when old annotations are distinct by serial |
| SerialRenaming.ReasonsAddUp | scripts/fix_split_serial_numbers.py:236-240 | Recovered and orphaned reasons partition the reasons |

## Left out

- PartitionDisk.Disk.BuildConstruction: creation of the ownership marker is one step, and so is creation of the directory with its working mode (no umask takes owner bits away, no parent hands down a set-group-id bit); a marker cut short in writing is refused by the code (scripts/partition_raw_by_contract.py:1666) and not modelled.
- PartitionRuns.Apply: file ownership and path checks are not modelled, nor the `device` number beside each inode, the size and time of each file inside a recording, or a change of the rename strategy between calls.
- PartitionManifest.ValidateManifest: the serial pattern and the contract's digest are functions, paths are lists of parts, and destinations are named by digest, without their paths.
- PartitionApply.FinalizeAll: destinations are finished in sorted order; the code goes by the order of its dictionary, which nothing depends on.
- RecoveryService.Recover: the raw recordings, the contract manifest, the file with the proof of an adoption and the bound inode of the intent file do not change during a recovery, and no other program writes `convert_state.json` meanwhile; between recoveries all of them may. What is said of later calls on a recovered task is said for as long as they stay.
- RecoveryService.JudgeReceipt: a contract binding and a raw snapshot are opaque numbers that are compared; that a receipt's file has the name its content gives it is left out.
- RecoveryModel.BlockedUntilPublished: trees are opaque objects, and validity, quick validity, durable serials and the contract check are arbitrary functions of a tree.
- Materialize.Workspace.Run: backing files, preserved entries and the manifest's own path are not re-validated, and links are counted by file, without their inodes.
- Json.AscendingIsUnique: values are strings, integers, lists, objects and null; booleans and fractions, and with them the program's `1 == True == 1.0` in comparisons of documents, are left out.
- Reconcile.Store.RunAll: the durable serials, read from parquet files, stay the same over a run; the partition journal's authority check and file modes are left out.
- SqlLexer.AnalysisSql: Unicode character classes are a parameter, and the body of one turn is shared with the translator, where the source writes it twice.
- CteClassifier.IsDataModifying: `str.lower` is an arbitrary function, and CtePrinter speaks about its result.
- DatasetValidation.ValidateDataReferences: parquet columns, task-name lookup, which may raise, and the video checks are left out.
- DatasetRegistry.Registry.ReturnedIsFresh: looking at one file is one step, every change of a file gives it a new version, and the file names a dataset may have are fixed; path validation, the file-lock dictionary and the loaded content are left out.
- CycleStamp.Stamp: values are reals, without float32 rounding or NaN, and the files' rows are one sequence with the flags in one list; writing the parquet files is left out.
- SerialRenaming.SecondRunIsIdentity: requires distinct episode indices, as a dataset has them.
- SerialRenaming.PlanMigration: tags and the `episode_serials` list, which are copied, are left out.
- System calls, locks, fsync, ownership and mode repair, and the fallback rename for file systems without the flag: replaced by atomic steps on a disk that nobody tampers with.
- The detached materialization (scripts/split_raw_task_by_metadata.py:2734-3662): it stops at several crashes on purpose, so it has no resumption to prove.
- Tree fingerprinting and contract-manifest probing in the recovery service: they depend on a converter submodule that is not part of this model.
- Job queue, workers, routers, frontend, database pool and the SQL pipelines: single statements or input and output.
