# A verified model of LibreLoom's sync, storage and CI machinery

This project models the parts of the repository where a mistake loses data or breaks a bound, and
proves what they keep. `dafny verify dfyconfig.toml` checks all of it.

| Part | Files | What is modelled |
|---|---|---|
| Two-way folder sync | `Names`, `SyncModel`, `SyncSafety`, `SyncConvergence`, `SyncOrder`, `SyncOutcome`, `SyncFailures`, `SyncCrash`, `SyncLunaSide`, `SyncPair` | one pass over the names of a local and a remote tree and a ledger; every call may fail, other devices may change Luna at any visit, the machine may stop anywhere |
| Purge of cloud storage | `StorageRows`, `StoragePurge`, `PurgeProofs`, `PurgeOutcomes`, `ConnectDatabase` | one transaction with a savepoint around blob deletes that cannot be undone, and every error exit |
| Delayed deletes | `DelayedDeletes`, `DeleteOutcomes` | requests, the delete worker and purges as steps that interleave as the account lock allows, and die anywhere |
| CI runner | `LogFrames`, `JobSlots`, `WorkerPool`, `FailFast` | the log frame parser, machine-wide job slots and their shares, the worker pool |
| Jobs of Luna Desktop | `LunaFolders`, `JobBook`, `JobRules`, `BackupQueue`, `BackupOutcomes`, `BackupHistory`, `BackupCollisions`, `UploadJob` | when two Luna folders overlap, the history of saved jobs, the first walk and the retry queue of an upload |
| Exact algorithms | `RemoteNames`, `RemoteListing`, `LunaUrl`, `CleartextRule`, `AddressRules`, `Haptics`, `Credits` | names that come from Luna, address normalization, vibration patterns, the credit ledger |

`Text` and `Options` hold what several parts share.

The style is the same throughout. A pure function says what a step of the program comes to. A method
or class, with the loops and fields of the original, is proved to do what that function says.
Lemmas about the function then state what the program promises, over all inputs and whole runs.
Whatever the program does not decide itself (the answers of the disk, the server and the clock, the order of a hash
set, the schedule of workers, the listing order of the database) is a parameter, and the lemmas hold for all of
its values.

## What the proofs brought to light

Some promises do not hold of the code as it is. For each there is an input that breaks it and the exact
condition under which it does hold.

* **An edit can be lost in a conflict.** The conflict name is only checked against the local disk
  (`luna/desktop/src/sync.rs:617-638`). If a file of that name is new on Luna, a later visit in the same
  pass downloads it over the copy just set aside. `SyncSafety.EditKeptIff`: an edit survives every pass
  exactly when its landing name is not such a file.
* **A crash in the conflict arm can delete Luna's version.** Between setting the local file aside and the
  end of the download (`luna/desktop/src/sync.rs:417-429`) the name has no local file; after a restart that reads as a
  local delete (`SyncCrash.CrashLosesLunaVersion`). `SyncLunaSide.LunaOutlivesCrashes`: over every history that does not
  end a pass there, Luna keeps what each pass would have kept. `SyncLunaSide.WindowOnlyInConflict`: only a file in
  conflict can get there. `SyncCrash.LunaVersionSurvivesIff`: the next pass decides by whether it did.
* **A ledger file torn while it is written can cost an edit**, since it reads as empty and the newer side wins
  (`luna/desktop/src/sync.rs:56-71`). `SyncCrash.TornLedgerKeepsIff`: the edit stays exactly if Luna has no such file,
  has its twin, or has one that is not newer.
* **A stored blob can be left with neither row nor reminder.** A request drops the reminder after its
  lock is gone (`luna/connect/internal/api/handlers/storage.go:285-288`), so it can drop the reminder of
  a later delete. `DelayedDeletes.StrandsIff` lists exactly the steps that do this.
* **A version bump can be lost.** A pending delete that names a live record is deleted as a reminder, so the
  error exit does not know that a record's bytes went. `PurgeProofs.AlwaysRaisesIff`: every run that takes a live
  record's bytes and does not lose its commit raises the version exactly if no pending delete names that record;
  `PurgeProofs.VersionRaisedIff` says for each single run whether the version is raised.
* **The CPU bound is not kept below 10000**, the smallest share a job gets: `JobSlots.CpuBoundHoldsIff`. A memory
  share that rounds to 0 reads as no limit: `JobSlots.MemoryLimitedIff`.
* **Nested Luna folders can both be accepted**, as with `"a /"` and `"a /b"` (`JobBook.NestedAccepted`): the checks
  normalize paths once more than the jobs do, which drops white space at the ends only. `LunaFolders.HiddenIff`: some
  folder around or inside a path goes unseen exactly if one of the path's names ends in white space and is still a
  name without it. `JobBook.SafeIffOpen`: a save keeps all jobs apart after every history exactly if its path has
  no such name and, for a sync, does not begin with white space once stored.
* **A file may never be uploaded** when another source holds the same relative path, as both share a ledger entry.
  `BackupCollisions.UncopiedIff`: from any state, a round can count a queued file as done that was never copied exactly
  if the ledger entry for its path is another file's, or another queued file has that path. They share their place on
  Luna as well: `BackupCollisions.LunaHoldsIff`.
* **Silence can be felt as a buzz** when a vibration follows the end of a buzz without a pause:
  `Haptics.InPhaseIffSpaced`, `Haptics.SilenceBuzzes`.
* **Debits on their way at once can leave a debt**, since the balance is read before the transaction. `Credits.DebtIff`:
  exactly if, for some account, they come to more than its balance.

The comment at `luna/desktop/src/sync.rs:410-416` promises that a failure never loses a copy; the model follows the code.

## Model

| member | source | states |
|---|---|---|
| Names.SiblingInjective | luna/desktop/src/sync.rs:312-329 | two numbers never give the same candidate name, so the search for a free name ends |
| Names.FirstFreeIs | luna/desktop/src/sync.rs:617-638 | the name found is free and every number tried before it was taken |
| Names.FreeSiblingIs | luna/desktop/src/sync.rs:312-329 | what the search returns is free and is one of the file's own candidates |
| Names.ConflictNamesApart | luna/desktop/src/sync.rs:604-638 | distinct files, or distinct numbers, never get the same conflict name |
| Names.FreeSiblingAgrees | luna/desktop/src/sync.rs:617-638 | the name chosen depends only on which of the file's own candidates exist |
| Names.NamesAreMarked | luna/desktop/src/sync.rs:604-638 | the mark, or the number, goes between the stem of a file name and its extension, in the same folder |
| SyncSafety.VisitFrame | luna/desktop/src/sync.rs:397-589 | a visit changes no other local file, overwrites nothing in the trash, and puts a file at a new name only as the conflict copy of the visited one |
| SyncSafety.EditedVisit | luna/desktop/src/sync.rs:406-468 | the visit of an edited name leaves the edit in place, under a conflict name, or in the trash |
| SyncSafety.NoEditLost | luna/desktop/src/sync.rs:397-589 | after any part of any pass, with any failures and any activity on Luna, an edited file is at its name, in a conflict sibling or in the trash, if its landing name is not new on Luna |
| SyncSafety.OverwrittenCopy | luna/desktop/src/sync.rs:417-455 | with the landing name new on Luna, a pass without any failure destroys the only copy of an edit |
| SyncSafety.EditKeptIff | luna/desktop/src/sync.rs:397-589 | an edit that is the only copy of its bytes survives all passes if and only if its landing name is not new on Luna |
| SyncSafety.LandingTaken | luna/desktop/src/sync.rs:617-638 | every name can come into that state |
| SyncConvergence.FirstPass | luna/desktop/src/sync.rs:392-589 | one undisturbed pass from a sound ledger leaves every name in step, uploaded, or a conflict copy still to be noted |
| SyncConvergence.SecondPass | luna/desktop/src/sync.rs:392-589 | the second leaves every name in step but for Luna's own time of an upload |
| SyncConvergence.ThirdPass | luna/desktop/src/sync.rs:392-589 | the third leaves every name in step |
| SyncConvergence.SettledIff | luna/desktop/src/sync.rs:406-470 | all names are in step exactly when both sides hold the same names and bytes and the ledger describes both |
| SyncConvergence.ThreePassesSettle | luna/desktop/src/sync.rs:160-186 | three undisturbed passes settle a pair with a sound ledger, for every order of names and all times handed out |
| SyncConvergence.SettledPassMovesNothing | luna/desktop/src/sync.rs:397-589 | in a settled pair every arm is idle and a further pass transfers and changes nothing |
| SyncOrder.PassAllAtOnce | luna/desktop/src/sync.rs:392-589 | what an undisturbed pass makes of every name and of the trash, told without the order of visits |
| SyncOrder.OrderDoesNotMatter | luna/desktop/src/sync.rs:392-397 | two orders of the same names lead to the same state |
| SyncOrder.TrashPathsApart | luna/desktop/src/sync.rs:293-329 | two files never compete for a place in the trash, whatever seconds they go there at |
| SyncOutcome.DeletedOnLuna | luna/desktop/src/sync.rs:528-541 | after an undisturbed pass a file deleted on Luna is in the trash here, and its name is gone from both sides and the ledger |
| SyncOutcome.DeletedHere | luna/desktop/src/sync.rs:556-564 | a file deleted here is gone from Luna and the ledger as well |
| SyncOutcome.NewFile | luna/desktop/src/sync.rs:542-582 | a file on one side that the ledger does not know is on both sides afterwards, with the times the ledger is to compare with |
| SyncOutcome.OnBothSides | luna/desktop/src/sync.rs:487-527 | on both sides and unknown: nothing moves if the sizes are equal and the times within two seconds, otherwise the newer file is on both sides, or the one here if they are equally old |
| SyncOutcome.KnownOnBothSides | luna/desktop/src/sync.rs:406-486 | on both sides and known: the side whose size or time is not the one noted wins; with both changed Luna's file comes here and the one that was here is kept |
| SyncFailures.SendMayFail | luna/desktop/src/sync.rs:456-468 | an upload that fails changes nothing; one whose answer is lost changes Luna's file alone |
| SyncFailures.FetchMayFail | luna/desktop/src/sync.rs:469-486 | a download that fails changes nothing; a file that cannot be looked at afterwards is here without a ledger entry |
| SyncFailures.ConflictMayFail | luna/desktop/src/sync.rs:409-455 | every exit of a conflict: which of the two versions is where, and that the ledger changes only once Luna's version is here |
| SyncFailures.SetAsideMayFail | luna/desktop/src/sync.rs:528-541 | a file that cannot be moved to the trash stays with its entry, and the pass goes on |
| SyncFailures.EraseMayFail | luna/desktop/src/sync.rs:556-564 | a delete on Luna that fails changes nothing; one whose answer is lost keeps the entry |
| SyncFailures.NothingToFail | luna/desktop/src/sync.rs:487-497 | for every other name nothing is transferred, and only the ledger entry may come or go |
| SyncFailures.OthersHadTheirTurn | luna/desktop/src/sync.rs:387-404 | what other devices did to Luna's folder since the listing is what a visit finds there, while it goes by the listing |
| SyncCrash.RunSound | luna/desktop/src/sync.rs:397-589 | any part of a pass keeps the ledger in memory and the one on disk sound for what both sides hold |
| SyncCrash.TrustworthyAlways | luna/desktop/src/sync.rs:160-186 | over every history of partial passes, failed ledger writes and restarts, torn ledger files included, in which no file in conflict would be set aside under a name that is on Luna, every ledger the pair may start from is sound |
| SyncCrash.SettlesAfterCrashes | luna/desktop/src/sync.rs:160-186 | after any such history three undisturbed passes settle the pair |
| SyncCrash.HeldAlways | luna/desktop/src/sync.rs:397-589 | over any such history bytes stay on this computer that are in the trash, or in a file no pass would fetch over under either ledger, if they are so without a ledger whenever the ledger file is found torn |
| SyncCrash.FilesOutliveCrashes | luna/desktop/src/sync.rs:397-589 | a local file a pass would not fetch over, edited or not, known to the ledger or not, outlives any such history |
| SyncCrash.FilesSurviveIff | luna/desktop/src/sync.rs:397-589 | bytes that are only in one local file survive every such history if and only if a pass would not fetch over that file |
| SyncCrash.EditsOutliveCrashes | luna/desktop/src/sync.rs:406-468 | an edit is such a file: its bytes are on this computer after any history of partial passes, failures and restarts, with the same proviso for torn ledger files |
| SyncCrash.TornLedgerKeepsIff | luna/desktop/src/sync.rs:487-527 | after a restart from a torn ledger file and an undisturbed pass, bytes only one local file had are on this computer if and only if Luna has no file of that name, or a twin, or one that is not newer |
| SyncCrash.UnknownSafeIff | luna/desktop/src/sync.rs:487-527 | the proviso for torn ledger files is met by a file exactly if Luna has no file of that name, the same bytes, a twin, or one that is not newer |
| SyncCrash.LunaVersionStays | luna/desktop/src/sync.rs:406-455 | no part of a pass touches Luna's version of a file in conflict |
| SyncCrash.LunaVersionSurvivesIff | luna/desktop/src/sync.rs:417-429 | after a crash in any part of a pass and one undisturbed pass, Luna's version of a file in conflict is kept on both sides if the crash left a local file at the name, and is deleted if it did not |
| SyncCrash.CrashLosesLunaVersion | luna/desktop/src/sync.rs:556-564 | for every file in conflict there is a point at which a crash makes the next pass destroy the only copy of Luna's version |
| SyncLunaSide.LunaOutlivesCrashes | luna/desktop/src/sync.rs:397-589 | over every history of partial passes, failures, crashes and restarts in which no pass ends with the name missing here and known to a ledger, Luna keeps every file that the ledgers in memory and on disk would keep, in conflict or not |
| SyncLunaSide.WindowOnlyInConflict | luna/desktop/src/sync.rs:409-455 | a pass can end so only for a name that was in conflict when it began |
| SyncLunaSide.WindowLoses | luna/desktop/src/sync.rs:556-564 | a name left so is deleted on Luna by the next undisturbed pass after a restart |
| SyncLunaSide.LunaKeptIff | luna/desktop/src/sync.rs:397-589 | an undisturbed pass leaves Luna's bytes of a name if and only if a missing local file is unknown to the ledger and a differing one would not be sent over them |
| SyncPair.FreePath | luna/desktop/src/sync.rs:312-329 | the loop over numbered names returns the first free one |
| SyncPair.Pair.Reload | luna/desktop/src/sync.rs:56-62 | a restart is one restart of the histories the crash theorems are about: memory is lost, the pair goes on from the ledger on disk, and a torn file says from then on that nothing was ever in step |
| SyncPair.Pair.UploadFile | luna/desktop/src/luna.rs:439-546 | Luna gets the local bytes under its own time; without overwrite an existing file is refused; a lost answer may hide a success |
| SyncPair.Pair.FetchFile | luna/desktop/src/sync.rs:469-485 | the download replaces the local file as a whole, and only then the ledger notes it |
| SyncPair.Pair.SendFile | luna/desktop/src/sync.rs:456-468 | the ledger notes the listed size and time, with the local time for both sides |
| SyncPair.Pair.MoveAside | luna/desktop/src/sync.rs:417-420 | the local file moves to its first free conflict name |
| SyncPair.Pair.MoveBack | luna/desktop/src/sync.rs:427 | moving it back restores the state exactly |
| SyncPair.Pair.KeepBoth | luna/desktop/src/sync.rs:409-455 | the conflict arm with its exits: set aside, fetch, note, upload; a failed fetch moves the file back if it can |
| SyncPair.Pair.Quarantine | luna/desktop/src/sync.rs:528-541 | a file deleted on Luna goes to a free place in the trash, or nothing changes |
| SyncPair.Pair.DeleteOnLuna | luna/desktop/src/sync.rs:556-564 | a local delete removes Luna's file without comparing it; a lost answer keeps the ledger entry |
| SyncPair.Pair.VisitName | luna/desktop/src/sync.rs:402-587 | the case split for one name, on the files as listed and the ledger as it is now |
| SyncPair.Pair.VisitKnown | luna/desktop/src/sync.rs:406-486 | the comparisons with the ledger entry and the transfer each leads to |
| SyncPair.Pair.VisitUnknown | luna/desktop/src/sync.rs:487-527 | the comparison of the two files and the transfer it leads to |
| SyncPair.Pair.SyncOnce | luna/desktop/src/sync.rs:377-592 | the pass visits a prefix of the names up to an error or a stop and writes the ledger only at its end: one attempt of the histories the crash theorems are about |
| SyncPair.Pair.RunPair | luna/desktop/src/sync.rs:160-186 | the loop of a running pair, failed passes and stops included, is one of the histories the crash theorems are about |
| PurgeProofs.BlobsCover | luna/connect/internal/accounts/storage_purge.go:126-218 | exactly the rows and reminders in scope are turned into blobs |
| PurgeProofs.DeletedOrLeft | luna/connect/internal/accounts/storage_purge.go:219-245 | deleting stops at the first blob that does not pass; all before it are gone or were left as local without a backend |
| PurgeProofs.PurgeEndings | luna/connect/internal/accounts/storage_purge.go:53-304 | a purge ends with all rows in place and the claim still to be had, or with its whole scope gone after every blob passed and the commit took effect |
| PurgeProofs.NeverForgets | luna/connect/internal/accounts/storage_purge.go:126-304 | a row or reminder disappears only if its blob is gone, or is local with no backend set up |
| PurgeProofs.TouchesOnlyScope | luna/connect/internal/accounts/storage_purge.go:53-304 | outside the account or Luna no blob goes, and rows, reminders, links, claims and versions are exactly as they were, none gone and none new |
| PurgeProofs.ClaimProtocol | luna/connect/internal/accounts/storage_purge.go:332-352 | a Luna that is not due is left alone; after an error exit its claim has its old value or -1, and a later run may take it |
| PurgeProofs.VersionRaisedIff | luna/connect/internal/accounts/storage_purge.go:219-295 | if a live record's bytes went, its Luna's inventory version is raised exactly if the run got to a record's blob, or through all blobs, and the bump is not lost with a commit |
| PurgeProofs.AlwaysRaisesIff | luna/connect/internal/accounts/storage_purge.go:219-245 | every listing and every failure short of a lost commit raise the version when a live record's bytes go, if and only if no pending delete names that record |
| PurgeProofs.RetryCompletes | luna/connect/internal/accounts/storage_purge.go:53-304 | whatever an earlier run left half done, a later one against a healthy store completes, and no named blob is left behind |
| PurgeProofs.ReminderHidesRecord | luna/connect/internal/accounts/storage_purge.go:219-245 | for every live record in scope that a reminder names there is a failure of the store that takes its bytes and leaves the version as it was, in every listing order |
| PurgeOutcomes.BeforeTheSavepoint | luna/connect/internal/accounts/storage_purge.go:53-226 | before the savepoint every exit leaves all as it was; an empty account and a Luna whose date is 0, below -1 or to come are no errors |
| PurgeOutcomes.DeletesUpTo | luna/connect/internal/accounts/storage_purge.go:227-245 | blobs are deleted in order up to the first that stops the purge; exactly the bytes the store took are gone |
| PurgeOutcomes.AfterTheSavepoint | luna/connect/internal/accounts/storage_purge.go:227-304 | what each exit after the savepoint leaves: rows, reminders, links, dates and the exact number of version bumps |
| PurgeOutcomes.HealthyPurge | luna/connect/internal/accounts/storage_purge.go:53-304 | with nothing failing, a purge that is due takes exactly the rows, links, dates and bytes of the account, or of its one Luna, and raises the versions; one that is not due takes nothing |
| PurgeOutcomes.NoLunaNoPurge | luna/connect/internal/accounts/storage_purge.go:40-45 | an empty Luna id never turns into a purge of the account |
| PurgeOutcomes.BumpCounts | luna/connect/internal/database/storage_inventory.go:58-63 | the first bump makes a version 1, a later one adds 1, other Lunas keep theirs |
| ConnectDatabase.Connect.Collect | luna/connect/internal/accounts/storage_purge.go:126-143 | reading a result set row by row yields its blobs in order |
| ConnectDatabase.Connect.BumpAll | luna/connect/internal/accounts/storage_purge.go:219-223 | each listed Luna's version goes up by one, once |
| ConnectDatabase.Connect.DeleteAll | luna/connect/internal/accounts/storage_purge.go:227-245 | the loop deletes up to the first blocked blob and knows whether a record delete had begun |
| ConnectDatabase.Connect.Close | luna/connect/internal/accounts/storage_purge.go:83-88 | the exit that keeps the version bumps: the claim is given back where it is still -1, and the commit may fail |
| ConnectDatabase.Connect.FromSavepoint | luna/connect/internal/accounts/storage_purge.go:224-304 | from the savepoint on: blob deletes, row deletes, the commits and what follows a failed one |
| ConnectDatabase.Connect.PurgeStorage | luna/connect/internal/accounts/storage_purge.go:53-304 | the transaction over committed, working and savepoint copies ends as the lemmas above say, at each of its exits |
| DelayedDeletes.SafeStep | luna/connect/internal/accounts/storage_purge.go:418-478 | every step of a client, of the worker, of a purge or of a crash keeps worker and purge alone on their account, live bytes stored unless a purge took them, and a purge aware of every row and reminder in its scope |
| DelayedDeletes.LiveBytesStay | luna/connect/internal/accounts/storage_purge.go:374-478 | over every interleaving the bytes of a live row are there unless a purge took them, and only a purge takes any |
| DelayedDeletes.PurgeForgetsNothing | luna/connect/internal/accounts/storage_purge.go:53-304 | at work with clients and the worker, a purge that commits has had the bytes of every row and reminder it takes deleted or passed over |
| DelayedDeletes.StrandsIff | luna/connect/internal/api/handlers/storage.go:276-288 | exactly five kinds of step leave a stored blob without row, reminder or request |
| DelayedDeletes.NothingIsForgotten | luna/connect/internal/accounts/storage_purge.go:391-478 | without such a step every stored blob always has one of the three |
| DelayedDeletes.LateCancelStrands | luna/connect/internal/api/handlers/storage.go:285-403 | storing a blob and deleting it before the first request drops its reminder strands the bytes |
| DeleteOutcomes.RowsAfter | luna/connect/internal/api/handlers/storage.go:276-288 | a blob gets its row only when a request commits it, and loses it only to a delete or a purge |
| DeleteOutcomes.RemindersAfter | luna/connect/internal/api/handlers/storage.go:276-288 | a reminder comes only with a delete, and an earlier one keeps its date |
| DeleteOutcomes.BytesAfter | luna/connect/internal/accounts/storage_purge.go:433-478 | bytes go exactly when the store takes them for a worker that found no row, or for a purge |
| DeleteOutcomes.LostAfter | luna/connect/internal/accounts/storage_purge.go:227-245 | a live row is without bytes exactly from a purge's delete until it goes or is stored again |
| DeleteOutcomes.SessionsAfter | luna/connect/internal/accounts/storage_purge.go:418-478 | a session moves only by its own steps, through its stages in order, and a worker goes on only for a blob without a row |
| DeleteOutcomes.LockRules | luna/connect/internal/accounts/storage_purge.go:424-436 | requests share an account, a worker or purge has it to itself, and one that only drops a reminder hinders nobody |
| DeleteOutcomes.PurgeRules | luna/connect/internal/accounts/storage_purge.go:53-304 | a purge lists every row and reminder in its scope, deletes only what it listed, and commits once it got past all of it |
| DeleteOutcomes.ErasedForGood | luna/connect/internal/accounts/storage_purge.go:433-478 | over every interleaving, a blob a worker forgets after the store took its bytes has no bytes, row or reminder |
| LogFrames.Parse | infra/ci-source/internal/runner/runner.go:917-980 | what is left after parsing is always less than one frame |
| LogFrames.ParseThenMore | infra/ci-source/internal/runner/runner.go:917-980 | bytes that arrive later add frames at the end and change none |
| LogFrames.ParseUndoesFraming | infra/ci-source/internal/runner/runner.go:927-950 | framing any payloads and parsing gives them back, with an incomplete frame behind them left over |
| LogFrames.ParseLosesNothing | infra/ci-source/internal/runner/runner.go:927-950 | headers, payloads and leftover make up the whole stream |
| LogFrames.OnlyNewlinesGo | infra/ci-source/internal/runner/runner.go:937-948 | the lines emitted hold every byte of the payloads in order, apart from the newlines; none is empty |
| LogFrames.WholeLines | infra/ci-source/internal/runner/runner.go:937-948 | what stands between newlines, or between one and an end of the payload, is emitted as one line |
| LogFrames.EmitLines | infra/ci-source/internal/runner/runner.go:937-948 | the non-empty lines of a payload, in order |
| LogFrames.TakeFrames | infra/ci-source/internal/runner/runner.go:927-950 | the inner loop emits the lines of all complete frames and keeps the rest |
| LogFrames.StreamOutput | infra/ci-source/internal/runner/runner.go:896-981 | for every way of cutting the stream into reads the lines are those of one parse of the whole, and the loop after its end finds nothing |
| JobSlots.AtMostSlotsHeld | infra/ci-source/internal/runner/slots.go:40-65 | over every interleaving of processes taking, closing and dying at most n slots are held |
| JobSlots.LocksHold | infra/ci-source/internal/runner/slots.go:40-65 | a lock file that is held never changes hands before it is closed or its process ends; a free one goes to whoever tries it |
| JobSlots.SlotsAre | infra/ci-source/internal/config/perf.go:42-49 | the slots are the largest number, of those asked for, that has a whole core each, and one at least |
| JobSlots.Unbounded | infra/ci-source/internal/runner/runner.go:332-345 | without a bound there is no limit; with one, memory is shared out equally |
| JobSlots.CpuBoundHoldsIff | infra/ci-source/internal/runner/runner.go:332-338 | running jobs always fit the CPU bound if and only if it is at least 10000 |
| JobSlots.MemoryFits | infra/ci-source/internal/runner/runner.go:340-345 | memory limits of running jobs never add up to more than the bound |
| JobSlots.MemoryLimitedIff | infra/ci-source/internal/runner/runner.go:340-345 | every job is limited if and only if the bound has a byte for each slot |
| JobSlots.CpuShare | infra/ci-source/internal/config/perf.go:42-49 | one slot's CPU share, equal parts or the smallest share with a single slot |
| JobSlots.Acquire | infra/ci-source/internal/runner/slots.go:40-65 | the first lock file found free, trying them in turn, is taken; a file that cannot be opened ends the search; nothing is held when the wait is cancelled; onWait runs once, after a round without luck |
| WorkerPool.StepConserves | infra/ci-source/internal/runner/runner.go:262-318 | a step neither loses nor doubles a test between queue, workers, channel and results |
| WorkerPool.ExactlyOnce | infra/ci-source/internal/runner/runner.go:226-257 | when the run is over each listed test has been filed as often as it was listed, for every schedule, with fail-fast, skips and cancelled waits |
| WorkerPool.NoSendBlocks | infra/ci-source/internal/runner/runner.go:226-235 | the results channel always has room |
| WorkerPool.StepsRunOut | infra/ci-source/internal/runner/runner.go:262-318 | every step brings the run nearer its end |
| WorkerPool.NeverStuck | infra/ci-source/internal/runner/runner.go:226-257 | until the run is over some step can be taken |
| WorkerPool.RunsAreBounded | infra/ci-source/internal/runner/runner.go:226-318 | so every run ends, after a bounded number of steps |
| FailFast.FiledAsGiven | infra/ci-source/internal/runner/runner.go:260-318 | when a run is over each result has been filed as often as a step gave it: skipped by the flag, the user or a cancelled wait, or what the test itself came to |
| FailFast.NothingRunsAfterStop | infra/ci-source/internal/runner/runner.go:274-283 | once the flag is set it stays set, and a test no worker has carried past it is never run: whatever is filed for it says it was skipped |
| FailFast.QueuedAtStopIsSkipped | infra/ci-source/internal/runner/runner.go:274-283 | such a test in the queue is filed as skipped by the end of the run |
| FailFast.FlagIff | infra/ci-source/internal/runner/runner.go:246-253 | the flag is never set without fail-fast or before a failure, and at the end of a run it is set exactly if a test failed and fail-fast is on |
| FailFast.OnlyThroughTheGates | infra/ci-source/internal/runner/runner.go:273-311 | a test runs only after the flag was seen unset, then the user had not skipped it, then a slot was had |
| FailFast.CollectorMayRaise | infra/ci-source/internal/runner/runner.go:246-253 | the collector raises the flag exactly when it has filed a failure and it is not raised yet |
| WorkerPool.SummaryCoversTests | infra/ci-source/internal/runner/runner.go:240-257 | the summary has one result for each distinct listed test and no other |
| WorkerPool.LastResultShows | infra/ci-source/internal/runner/runner.go:246-248 | the last result filed for a test is the one in the summary |
| WorkerPool.SummaryAddsUp | infra/ci-source/internal/runner/runner.go:226-318 | in the summary of every run passed, failed and skipped add up to the distinct listed tests |
| WorkerPool.CalculateSummaryStats | infra/ci-source/internal/runner/runner.go:1101-1115 | the counts are those of the results by status, and the four of them add up to the total |
| LunaFolders.OverlapIsNesting | luna/desktop/src/dest.rs:27-47 | the test on text holds exactly when one list of folder names is a prefix of the other |
| LunaFolders.AgainIs | luna/desktop/src/dest.rs:27-34 | normalizing a normalized path again trims the start of its first name and the end of its last, drops a name left empty or as a dot, and changes nothing else |
| LunaFolders.NormalizeTwiceIff | luna/desktop/src/dest.rs:27-34 | normalizing twice is normalizing once exactly when no white space is left at either end |
| LunaFolders.OverlapSeenIff | luna/desktop/src/dest.rs:36-47 | of two nested folders, the test on normalized paths sees the overlap exactly if they are equal, the outer one is the drive itself, or the outer one's last name does not hide what is inside |
| LunaFolders.HiddenIff | luna/desktop/src/dest.rs:27-47 | some folder around or inside a path is not seen by the test on normalized paths if and only if one of the path's names ends in white space and is still a name without it |
| LunaFolders.OnceHiddenIff | luna/desktop/src/dest.rs:231-281 | against a folder used as it is stored, some nested folder is not seen if and only if one of its names hides, or it begins with white space |
| LunaFolders.NormalizeTwiceDiffers | luna/desktop/src/dest.rs:27-34 | "/ a" becomes " a" and then "a" |
| LunaFolders.NestedUnseen | luna/desktop/src/dest.rs:36-47 | a folder inside one whose name ends in white space is not seen as such |
| JobBook.Position | luna/desktop/src/lib.rs:353-354 | the first job with an id, or none |
| JobBook.CheckSeesClash | luna/desktop/src/dest.rs:181-281 | of two jobs whose folders clash, the checks see it exactly if the folders are equal, the outer one is the drive itself, or the outer one's last name does not hide what is inside |
| JobBook.CheckIs | luna/desktop/src/dest.rs:181-281 | for all paths, the checks find a job in the way exactly if it is on the same drive and the folders are nested after both paths were normalized once more |
| JobBook.EditKeepsApart | luna/desktop/src/lib.rs:342-394 | one edit, accepted or refused, whose own path hides nothing keeps all jobs apart, whatever the other jobs' paths are |
| JobBook.AlwaysExclusive | luna/desktop/src/lib.rs:342-514 | over every history of saving, editing and deleting with such paths no two jobs on a drive have overlapping Luna folders |
| JobBook.SafeIffOpen | luna/desktop/src/lib.rs:342-471 | a save of a usable folder keeps the jobs apart after every history if and only if its own path hides no folder from the checks |
| JobBook.NestedAccepted | luna/desktop/src/dest.rs:181-281 | with white space at an end two nested uploads are both accepted |
| JobBook.DeleteIs | luna/desktop/src/lib.rs:385-394 | deleting takes every job of that kind with the id and leaves all others, as often as they were there and in order |
| JobRules.BackupSavedIff | luna/desktop/src/lib.rs:342-383 | an upload is saved, in place of the one with its id or at the end, exactly if its folders and its place are good and no other job on the drive is nested with it |
| JobRules.SyncSavedIff | luna/desktop/src/lib.rs:441-471 | a sync is saved under its id or a new one, with its path normalized, exactly if the same is so |
| JobBook.Store.Clear | luna/desktop/src/dest.rs:181-229 | the loop finds a job in the way exactly when there is one, passing over the job being edited |
| JobBook.Store.File | luna/desktop/src/lib.rs:353-383 | the job with that id is replaced in place, or the job is added |
| JobBook.Store.Retain | luna/desktop/src/lib.rs:391-393 | the jobs with other ids stay, in order |
| JobBook.Store.SaveBackupJob | luna/desktop/src/lib.rs:342-383 | saving an upload: refused by any check, or filed |
| JobBook.Store.SaveSyncPair | luna/desktop/src/lib.rs:441-471 | saving a sync: refused by any check, or filed under its normalized path |
| JobBook.Store.DeleteBackupJob | luna/desktop/src/lib.rs:385-394 | deleting removes the uploads with that id and nothing else |
| JobBook.Store.DeleteSyncPair | luna/desktop/src/lib.rs:505-514 | deleting removes the syncs with that id and nothing else |
| BackupQueue.RoundSettles | luna/desktop/src/backup.rs:215-260 | after a round the queue has no repeats and is exactly the set of failed files; what left it is accounted for |
| BackupQueue.RelIs | luna/desktop/src/backup.rs:234-250 | a path is taken as the rest after the first source folder that holds it, and as outside exactly if none does |
| BackupOutcomes.RoundDecides | luna/desktop/src/backup.rs:217-259 | a queued file with a path of its own stays exactly if it cannot be read, or is not in the ledger as it is and is being written or could not be sent; it is on Luna and in the ledger exactly if it was sent |
| BackupHistory.NeverDroppedSilently | luna/desktop/src/backup.rs:173-275 | from any point of any history of walks, reports and rounds, a path queued there, seen by a walk or reported since is queued still or has left the queue since; every departure since has a reason that was true of what was seen of the file, and a file gone as uploaded or current was copied as it was, unless two files share their path below a source |
| BackupQueue.RoundTruthful | luna/desktop/src/backup.rs:423-476 | the reasons are true, and the ledger names only uploads that took place |
| BackupCollisions.UncopiedIff | luna/desktop/src/backup.rs:234-250 | from any state with a queue without repeats, a round can count a queued file as done that was never uploaded if and only if the ledger entry for its path below its source is not its own, or another queued file has that path |
| BackupCollisions.LunaHoldsIff | luna/desktop/src/backup.rs:452-461 | after every history of every job over a set of files Luna holds each file that left the queue as uploaded or current, as it was when it last did, if and only if no two of them have the same path below their sources |
| BackupQueue.WalkAccountsForVisible | luna/desktop/src/backup.rs:353-413 | the first walk uploads, passes over or returns for the queue exactly the files it sees, with true reasons, and the ledger goes on naming only uploads that took place |
| BackupOutcomes.GoneFileIsQueued | luna/desktop/src/backup.rs:375-408 | a file that is gone by the time the first walk reads it is queued for a round to find out |
| BackupOutcomes.SeenAsItIs | luna/desktop/src/backup.rs:365-408 | the walk sees every file it comes to through folders it can read, as it is, or as unreadable if it has gone |
| BackupOutcomes.WalkDecides | luna/desktop/src/backup.rs:353-413 | of the files it sees, one with a path of its own is returned for the queue exactly if it cannot be read, or is not in the ledger as it is and is being written or could not be sent; it is on Luna and in the ledger exactly if it was sent |
| UploadJob.Uploader.Report | luna/desktop/src/backup.rs:203-208 | a reported path is queued unless it waits already |
| UploadJob.Uploader.FindRel | luna/desktop/src/backup.rs:234-250 | the first source that holds the path decides |
| UploadJob.Uploader.UploadOne | luna/desktop/src/backup.rs:423-476 | the ledger changes only after an upload, and the attempt fails in exactly the cases that keep a path queued |
| UploadJob.Uploader.Attempt | luna/desktop/src/backup.rs:223-250 | files that are gone or outside every source need no attempt |
| UploadJob.Uploader.RetryRound | luna/desktop/src/backup.rs:215-259 | the index loop, which removes in place, gives every queued path exactly one turn and keeps those that failed in order |
| UploadJob.Uploader.UploadTree | luna/desktop/src/backup.rs:353-413 | the recursion over folders, with one list of missed files, does the walk the theorems above are about |
| UploadJob.Uploader.RunJob | luna/desktop/src/backup.rs:173-275 | the thread of a job, walk, reports and rounds, is one of the histories the theorems above are about |
| RemoteNames.WalkedPathsLand | luna/desktop/src/luna.rs:567-618 | join_remote rebuilds the listed path of every file the walk reports; join_under accepts it exactly if the platform takes each name as an ordinary one, as on Unix always, and then it lands strictly under the root |
| RemoteNames.JoinUnderInjective | luna/desktop/src/paths.rs:29-47 | different accepted paths land in different places, and none of them climbs |
| RemoteListing.RefusedIff | luna/desktop/src/luna.rs:586-617 | the walk is refused exactly if, among folders not starting with a dot, there is a bad name or one that cannot be listed |
| RemoteListing.FoundIff | luna/desktop/src/luna.rs:586-617 | it reports exactly the files that names not starting with a dot lead to, each with its path below the folder and on the drive |
| RemoteListing.AcceptedIff | luna/desktop/src/paths.rs:13-47 | a path is accepted exactly if none of its names is empty, climbs, or holds a separator or the end of a text, and the platform takes each |
| RemoteNames.EncodingRoundTrips | luna/desktop/src/luna.rs:548-565 | percent-decoding the encoded path gives it back, for every sequence of bytes |
| RemoteNames.EncodingSafe | luna/desktop/src/luna.rs:548-565 | the encoded path holds only unreserved characters and percent signs |
| RemoteListing.PathWritten | luna/desktop/src/luna.rs:548-565 | a path is written byte by byte: letters, digits and "-._~" as they are, all else, slashes too, as a percent sign and two digits |
| RemoteNames.WalkInto | luna/desktop/src/luna.rs:578-618 | the recursion that pushes onto one list reports what the walk is specified to find, and refuses it for one bad name |
| RemoteNames.PushUnder | luna/desktop/src/paths.rs:29-47 | names are pushed one by one; a bad name, or one the platform does not take as an ordinary component, refuses the path |
| LunaUrl.ParseGood | luna/desktop/src/luna_url.rs:18-50 | an accepted address has a host in lower case without white space, a valid port if any, and http only for a host that allows it |
| LunaUrl.ReadsBack | luna/desktop/src/luna_url.rs:65-175 | an accepted address, written out, is read as the same scheme, host and port |
| LunaUrl.NormalizeTwice | luna/desktop/src/luna_url.rs:18-50 | feeding an accepted result back in returns it unchanged |
| LunaUrl.CleartextOnlyWhereAllowed | luna/desktop/src/luna_url.rs:36-42 | the result starts with "http:" exactly when the host may be spoken to in the clear and https was not asked for |
| CleartextRule.CleartextIff | luna/desktop/src/luna_url.rs:36-42 | the result starts with "http:" exactly if https was not asked for and the host is localhost, ::1, ends in .local, .lan or .home, or writes four numbers in 10/8, 127/8, 169.254/16, 192.168/16 or 172.16/12 |
| CleartextRule.AllowedIs | luna/desktop/src/luna_url.rs:187-219 | a host may be spoken to in the clear exactly if it is such a name or writes such a number |
| CleartextRule.QuadTyped | luna/desktop/src/luna_url.rs:18-50 | four numbers typed with http, https or no scheme: private ones keep http unless https was asked for, public ones never do |
| CleartextRule.OctetIs | luna/desktop/src/luna_url.rs:200-205 | a part is an octet exactly if it writes a number up to 255, a plus sign and zeros allowed |
| CleartextRule.PortIs | luna/desktop/src/luna_url.rs:148-155 | a port is taken exactly if it writes a number from 1 to 65535 |
| CleartextRule.TakesColonOrSlash | luna/desktop/src/luna_url.rs:65-96 | a scheme's name, in any case, is taken as one exactly if a colon or a slash follows |
| Text.WhiteSpaceIs | luna/desktop/src/luna_url.rs:60-62 | what counts as white space, character by character |
| AddressRules.WhiteSpaceGoes | luna/desktop/src/luna_url.rs:60-62 | white space goes wherever it stands, and nothing else |
| AddressRules.CapitalsGo | luna/desktop/src/luna_url.rs:157-174 | capital letters become small ones, other characters stay |
| AddressRules.HostIsClean | luna/desktop/src/luna_url.rs:99-121 | an accepted host has no white space, no capital and nothing that begins or ends a path, query, fragment or user |
| AddressRules.OnlyOriginCounts | luna/desktop/src/luna_url.rs:99-121 | a user before the host and a path, query or fragment behind it do not change what an accepted address is read as |
| AddressRules.ColonsMean | luna/desktop/src/luna_url.rs:124-145 | one colon before a number in range is a port, before no number a part of the host; two colons, an empty port or one out of range are refused |
| AddressRules.BracketsMean | luna/desktop/src/luna_url.rs:113-122 | in brackets everything up to the first closing one is the host, and only a port in range may follow |
| AddressRules.HostsTaken | luna/desktop/src/luna_url.rs:157-174 | a host needs a letter or a digit, or in brackets anything but brackets |
| LunaUrl.ReadAfter | luna/desktop/src/luna_url.rs:70-94 | text after a scheme's name counts as a scheme's only if a colon or a slash comes first; these are dropped and nothing else |
| LunaUrl.ReadScheme | luna/desktop/src/luna_url.rs:65-97 | https is tried before http; without colon or slashes the text is no scheme |
| LunaUrl.ReadAuthority | luna/desktop/src/luna_url.rs:99-107 | slashes are dropped and the text is cut at the first path, query or fragment |
| LunaUrl.NormalizeBaseUrl | luna/desktop/src/luna_url.rs:18-50 | the step-by-step normalization yields the specified address, about which the four lemmas above are proved, or refuses it |
| Haptics.ShareFits | shared/ui/utils/haptics.js:87-99 | the buzz in a cycle is at least 1 ms, at most the cycle, and less than 1 ms from its share |
| Haptics.ShareIsNearest | shared/ui/utils/haptics.js:83-99 | a share is the nearest whole number, upwards in the middle, and at least 1 |
| Haptics.SettingsTaken | shared/ui/utils/haptics.js:114-131 | a missing intensity is the usual one, all are held between none and full, and only a positive delay counts |
| Haptics.TimeConserved | shared/ui/utils/haptics.js:114-150 | a pattern adds up to all durations and positive delays, for every list of vibrations |
| Haptics.InPhaseIffSpaced | shared/ui/utils/haptics.js:114-150 | every millisecond is played as buzz or rest as meant exactly when each vibration that takes time and follows the end of a buzz has a positive delay; then the buzz time is the time asked for |
| Haptics.PausesSuffice | shared/ui/utils/haptics.js:121-128 | a positive delay on every vibration after the first is enough |
| Haptics.SilenceBuzzes | shared/ui/utils/haptics.js:132-141 | without one, silence after a full vibration is felt as a buzz |
| Haptics.IntensityKept | shared/ui/utils/haptics.js:83-105 | between no and full intensity the buzz time of one vibration is within 1 ms per started cycle of duration times intensity, and at least 1 ms per cycle |
| Haptics.ModulateVibration | shared/ui/utils/haptics.js:83-105 | the countdown loop pushes exactly the cycles whose length and buzz time the lemmas above bound |
| Haptics.PushPause | shared/ui/utils/haptics.js:121-128 | a delay lengthens a trailing rest or becomes an entry of its own, so that what follows starts at a buzz position |
| Haptics.PushSilence | shared/ui/utils/haptics.js:132-141 | a vibration of no intensity lengthens a trailing rest, or adds an empty buzz and a rest |
| Haptics.ToVibratePattern | shared/ui/utils/haptics.js:114-150 | the list of numbers, with its last entry changed in place, is the pattern the lemmas above speak of |
| Credits.CallKeeps | luna/connect/internal/billing/credits.go:78-190 | one call, whatever its arguments and whatever fails, keeps every balance equal to credits minus debits and not negative, touches one account, and changes nothing if it fails without a commit |
| Credits.AlwaysExplained | luna/connect/internal/billing/credits.go:78-190 | over every history of calls from an empty book the ledger explains every balance and none is negative |
| Credits.InvoiceSpends | luna/connect/internal/billing/credits.go:158-190 | an invoice takes exactly the smaller of balance and bill, takes nothing if there is no bill or the balance cannot be read, and reports what balance and ledger lose |
| Credits.CreditRaises | luna/connect/internal/billing/credits.go:78-96 | a credit raises the balance and the ledger by its amount, unless the amount is not positive, the reason is blank or the account unknown |
| Credits.DebitLowers | luna/connect/internal/billing/credits.go:98-122 | a debit lowers both by its amount, unless the amount is not positive, the reason is empty or the balance does not cover it |
| Credits.StepsAreCalls | luna/connect/internal/billing/credits.go:98-156 | the steps of callers at work together come to the calls when nobody is in between |
| Credits.ExplainedTogether | luna/connect/internal/billing/credits.go:124-156 | the ledger explains the balances in every interleaving of concurrent callers |
| Credits.CoveredAlone | luna/connect/internal/billing/credits.go:98-122 | with one debit at a time on its way per account no interleaving leads into debt |
| Credits.DebtIff | luna/connect/internal/billing/credits.go:98-156 | the debits on their way, any number of them on any accounts, can lead to debt if and only if for some account they come to more than its balance |
| Credits.TwoTogether | luna/connect/internal/billing/credits.go:98-122 | two debits that saw the same balance can leave a debt exactly when they exceed it together |
| Credits.CreditBook.ApplyMovement | luna/connect/internal/billing/credits.go:124-156 | balance and ledger entry change together or not at all |
| Credits.CreditBook.AddCredit | luna/connect/internal/billing/credits.go:78-96 | positive amount, a reason that is not blank and a known account, or refused |
| Credits.CreditBook.DeductCredit | luna/connect/internal/billing/credits.go:100-122 | refused without a balance row or with too little on it |
| Credits.CreditBook.ApplyCreditsToInvoice | luna/connect/internal/billing/credits.go:167-190 | the balance is read first and the smaller of it and the bill is deducted; nothing changes where the bill or the balance is not positive, or the deduction fails |

## Left out

- SyncSafety.NoEditLost: asks that the landing name of a conflict is not new on Luna; `SyncSafety.EditKeptIff` shows that this is needed.
- SyncSafety.EditKeptIff: one conflict name per pass and edit is looked at, and the edit's bytes are taken to be the only copy, since otherwise losing the file loses nothing.
- SyncOutcome.DeletedOnLuna: for undisturbed passes, and names no file in conflict can be set aside under.
- SyncOutcome.DeletedHere: under the same conditions.
- SyncOutcome.NewFile: under the same conditions.
- SyncOutcome.OnBothSides: under the same conditions.
- SyncOutcome.KnownOnBothSides: under the same conditions; the file that was here is kept if its landing name is not new on Luna, as `SyncSafety.EditKeptIff` shows is needed.
- SyncOrder.OrderDoesNotMatter: for undisturbed passes in which no conflict name and no trash place of one name is taken by another; which calls fail in a disturbed pass depends on how far it gets.
- SyncCrash.TrustworthyAlways: for histories in which nobody else changes either side and no file in conflict would be set aside under a name that is on Luna; `SyncSafety.OverwrittenCopy` shows what such a name can do.
- SyncCrash.SettlesAfterCrashes: for the same histories.
- SyncCrash.HeldAlways: for the same histories, and with the bytes held without a ledger when its file is found torn; `SyncCrash.TornLedgerKeepsIff` shows that this is needed.
- SyncCrash.FilesOutliveCrashes: under the same conditions.
- SyncCrash.EditsOutliveCrashes: under the same conditions.
- SyncLunaSide.LunaOutlivesCrashes: for the same histories, those that leave the name in the window set apart; what they lose is stated by `SyncLunaSide.WindowLoses`.
- SyncCrash.LunaVersionSurvivesIff: for files in conflict, one crash and one undisturbed pass; `SyncLunaSide.LunaOutlivesCrashes` is about all files and whole histories.
- DelayedDeletes.NothingIsForgotten: for runs without the five steps `DelayedDeletes.StrandsIff` names, which the program can take.
- JobBook.AlwaysExclusive: for edits whose own path hides no folder, as `JobBook.SafeIffOpen` shows is needed, and for fresh ids; the program takes ids from a millisecond clock.
- JobBook.EditKeepsApart: under the same two conditions.
- BackupOutcomes.RoundDecides: for a file that shares its path below a source with no other queued file; what happens otherwise is the matter of `BackupCollisions.UncopiedIff`.
- BackupOutcomes.WalkDecides: for a file that shares its path below a source with no other file the walk sees.
- BackupCollisions.LunaHoldsIff: for uploads that do not arrive when they are reported as failed, and a Luna folder nobody else writes to.
- Haptics.ShareFits: over exact real numbers, without the rounding of floating point.
- Haptics.IntensityKept: over exact real numbers, without the rounding of floating point.
- Two-way sync: hidden local files, symbolic links, the temporary file of a download, Windows file name rules and file names that are not valid text; local paths that are no synced files stay as they are during a pass; a download replaces a file as a whole.
- Two-way sync: a file that changes between being listed and being visited; the visit goes by the listing, as the program does, and finds the file as it was.
- Purge: `PurgeStorageAnd`'s callback is one step that can fail; quotas, signatures and the device binding of a Luna are no part of the model.
- Delayed deletes: one backend per path; a client that stores bytes twice in one request; the order in which the worker's list comes; that a reminder is overdue when the worker picks it up.
- CI runner: container life cycle, `fetchRemainingLogs` (which reads the same log again), cache warming, and limits of a run that does not share slots with others.
- CI runner: `PerfProfile.resolve`, which picks limits from a profile by branches without an invariant of their own.
- Jobs of Luna Desktop: overlap of folders on this computer goes by canonical paths of the file system and is one answer of the environment here.
- Folder uploads: the file watcher, back-off times, a round stopped halfway, after which the queue is built anew by the first walk, and files in folders the walk cannot read, which `BackupQueue.WalkAccountsForVisible` states are not seen.
- Names from Luna: which names Windows takes as ordinary ones in `join_under`; the platform is a parameter.
- Credits: the listing of entries, clock times, and the reference and staff ids of a movement.
- HTTP, JSON, sockets, keyring, tray, autostart, bundles, updates, the web user interface, Stripe and the mock servers: input and output without an invariant of their own.
