# Private skills: a verified model

This project models, in Dafny 4.11, the parts of the private skills registry whose correctness is hardest
to see by reading: the transactional skill installer, the bundle format with its frontmatter parser, logical
backup and restore, the lockfile edits of the command line, bootstrap owner adoption, and the cache of tenant
handlers. `dafny verify dfyconfig.toml` checks all of it.

## How it is built

**Installer.** `Transaction` has one function per routine of the installer. Every durable action (a rename, an
atomic document write, a directory removal, the marker) costs one unit of `power`, and a routine stops where
the power ends, so a statement about every `Env` is a statement about every crash point; `renames` is the
number of renames that succeed before one fails in a living process. `CrashSafety` describes every disk a crash
can leave behind, `CommitSafety` and `RecoverySafety` show that commit and recovery stay within that
description, `Changes`, `Planning` and `Edits` that every install and removal produces a well-formed
transaction, and `Runs` puts whole runs together: any sequence of calls, each cut off anywhere, is an atomic
history of settled installations. `RunFrames` says what that means for the disk itself: which paths a run never
touches, crash or not, and that journal and lock change together. `Progress` is the other half: with enough
power and no failing rename every call does what it was asked to, and there is a first installation to start
from. `Batches` says what one batch does. `Installer` holds the class whose fields are the directories and the
three documents and whose loops change them action by action; each method is proved equal to the function the
theorems are about. Skills and documents share the namespace of the root: the journal, the marker and the mutex
file lie in it, and so does the lockfile in a global or a custom root (`Transaction.Home`). A destination where a
document lies is refused, and a document is never written over a directory. `StateFiles` says what becomes of
skills with the names of documents, `Limits` gives the exact conditions under which tempting claims hold, and
accepted inputs on the other side of them, and `Settling` says exactly which batches leave a healthy root.
`Verdicts` and `Calls` say of the journal and the directories alone which calls are refused and what an accepted one
leaves, and `Containment` where a call may change directories at all, whatever is on disk.

**Bundles.** `SkillTree` relates extraction, tree digests and manifest checks, and `TreeDigests` says exactly what
a tree digest decides; `BundleFormat` has the canonical encoding and its decoder; `Scalars`, `Frontmatter` and
`FrontmatterFacts` the line parser of `SKILL.md`, and `Documents` shows which documents it is sure to accept; `Acceptance` puts the structural checks and the parser
together into the acceptance of a whole bundle. `PathRules` has the path rules over characters and pieces,
`DocumentRules`, `ScalarReadings` and `BlockReadings` what accepted documents, values and block scalars say over the
lines as they are written, and `Readers` and `WireReadings` read back the JSON and base64 that the printers write.

**Backup and restore.** `Json` and `CanonicalJson` are the printer and the canonical printer; `Blobs` finds and
renames references in a JSON state, `BlobOrder` shows that references and meaning do not depend on key order;
`Manifests`, `Backup` and `Restore` model grouping, validation, capture and the verify-then-seed protocol on a
class with an object store and a state table; `RoundTrip` shows that an honest target takes every readable
backup, for every schema that reads nothing but the meaning of a state; `Registry` has the registry's own schema
and shows that it is one. `Reach` walks the nodes of a state, and `ManifestRules` says of them what every accepted
manifest is.

**Lockfile, adoption, cache.** `LockEdits`, `LockEffects` and `LockRuns`, `Adoption` and `AdoptionRuns`, `TenantCache` and
`TenantRuns`: each a state machine with its in-place operations, and a module about whole runs of it.

`Order`, `Digest`, `Numerals`, `Paths`, `Lockfile` are shared. SHA-256 is a collision-free stand-in: the digest
text spells out its preimage, so injectivity is proved rather than assumed. Digests therefore have no fixed
length here.

## What turned out to be false of the code

Each is shown by a lemma at an input the code accepts, or a family of them, next to the exact condition under
which the expected property does hold.

- A bundle of `SKILL.md` and `a/./b` is accepted, and its installation reports success and leaves a root whose
  journal does not verify (`Limits.HiddenDotIsAccepted`); extraction verifies exactly when no `.` hides in a path
  (`SkillTree.ExtractionVerifiesIff`).
- A skill may be named like a document of the installation (`Limits.StateNamesAreAccepted`). Named like the mutex
  file it is refused (`StateFiles.MutexNameIsRefused`). Named like the journal, the marker, or the lockfile that the
  call writes, it fails half-way, and every later call on that root is refused (`StateFiles.JournalNameSticks`,
  `StateFiles.MarkerNameSticks`, `StateFiles.LockNameSticks`; at a bundle that passes every check
  `Limits.LockNamedSkillSticks`). Named like a lockfile that is not written yet, it is installed, and every later call
  that presents a lock value is refused (`StateFiles.LockNameBlocksLater`). The first installation of a valid,
  extractable plan reports success and leaves a healthy root (nothing in flight, no directory that opening deletes or
  that is in a document's place, every entry verifying) exactly when its name is neither like a stage nor that of a
  document of the root, and no `.` hides in a path (`Limits.FirstInstallSettlesIff`). The same holds of every
  conflict-free batch from every settled root, for the plans that put files in place (`Settling.BatchSettlesIff`).
- A bundle of `SKILL.md`, `a` and `a/b` is accepted and cannot be extracted (`Limits.FileAndDirectoryIsAccepted`);
  extraction succeeds exactly when no file sits where another needs a directory (`SkillTree.ExtractSucceedsIff`).
- A skill with a name like `.pskills-stage-x` is accepted, installed, and deleted by the next opening while its entry
  stays in the journal (`Limits.StageLikeNameIsAccepted`, `Limits.StageLikeSkillIsLost`); opening keeps a top-level
  directory exactly when its name does not start like a stage (`Limits.OpeningKeepsIff`).
- A new directory that lost a file, as a removal cut off half-way leaves it, makes rollback refuse and the old
  directory stay in its backup (`Limits.HalfRemovedStopsRollback`, at a concrete disk
  `Limits.EmptiedSampleStopsRollback`), or, where nothing was replaced, report success and leave the remains
  (`Limits.HalfRemovedIsLeftBehind`). Their companion `Limits.UndoSucceedsIff` says that undoing succeeds exactly when
  the directory in place verifies. Everywhere else the model takes directory removal as one step.
- The tree digest does not determine the files (`SkillTree.TreeDigestIsAmbiguous`): a directory without zero bytes is
  the only one with its digest exactly when it holds at most one file (`TreeDigests.DigestIdentifiesIff`). Against a
  directory without zero bytes, another with the same digest is the same exactly when it has none either
  (`TreeDigests.DigestDecidesIff`), and likewise for bundles (`TreeDigests.TreeDigestDecidesIff`). The file manifest
  decides in all cases (`SkillTree.VerifiedTreesAgree`).
- A registry state of the required shape whose one blob key holds a tab is captured, and its backup refused
  (`Registry.TabKeyIsCapturedNotRead`). As far as the modelled checks go, a captured backup is readable exactly when,
  in the captured state, every blob key is short, without control characters and not blank, every reference path is
  short and without control characters, and no key is referenced more than 200,000 times
  (`Backup.CreateLogicalBackup`). The size and depth budgets of state and manifest text are not part of that condition.
- A pack with two versions of one skill under different install names, or two members of one external identity, is
  recorded with a member that its owner does not hold (`LockRuns.TwoVersionsDangle`, `LockRuns.OneIdentityDangles`).
  Over any run of edits a recorded pack holds all its members exactly when, among the members it was installed from,
  none supersedes an earlier one (`LockRuns.PackIsCompleteIff`). An incomplete pack may be impossible to remove: the
  two examples above are refused and stay recorded. Over any run a removal is refused exactly when some superseded
  member is held by no other owner (`LockRuns.RemovalSucceedsIff`).
- The error text for descriptions speaks of 1024 bytes; the code counts characters, and so does the model.

## Hypotheses

- Installer: one install root per lockfile; directory removal is one step; no outside edits of managed trees;
  skill names are neither like a stage or a backup nor those of documents of a root, in any scope, and bundles hide
  no `.` component (`Planning.PlanSafe`; `Progress.CommitSucceeds`, `Progress.FirstInstall`, the class
  `Installer.LocalState` and the modules `Limits`, `StateFiles` and `Settling` do without); the private
  stage and backup names handed to one call are new and distinct (`Planning.AllocOk`); the directory listing used
  for cleanup reports every stage (`RecoverySafety.Lists`).
- Restore: `put` does not disturb objects that are already there (`Restore.PutReply`), and whatever the database
  reads back is JSON (`Restore.ReadsJson`). The schema of a state is a parameter of capture and restore;
  `Registry.RegistryShape` is the one the registry uses.
- Lock edits: references hold no `:` and versions no `@`, as their syntax says (without it keys would be ambiguous,
  `LockEdits.KeysAreAmbiguousWithoutSyntax`), and direct owners do not start with `pack:` (`LockRuns.EditOk`). Only
  `LockRuns.RunsKeepGood` asks that the members of each pack be independent; `LockRuns.RunsStayExact` does not.
- Adoption: member identifiers are a primary key, stored trimmed (`Adoption.MemberKeys`), so an update by
  identifier reaches the row that was read; the two transactions are serialized by their locks; and during a run
  nobody else writes the member and organization tables.
- Text is a sequence of code points. Orders by UTF-16 unit or locale, and lengths in UTF-16 units, are taken as
  code-point order and length.

## Model

| member | source | states |
|---|---|---|
| CommitSafety.CommitIsSafe | crates/pskills-core/src/install.rs:511-603 | for every crash point and failing rename a commit ends at the intended disk, at the base itself, or at a disk that recovery resolves; a bundle that cannot be extracted never reaches the marker |
| CommitSafety.ActivateIsSafe | crates/pskills-core/src/install.rs:820-852 | wherever activation stops, every operation can still be undone; when it ends, all are switched |
| CommitSafety.StageFilesExtracts | crates/pskills-core/src/install.rs:756-818 | staging a bundle file by file is extraction into its own directory and changes nothing else |
| RecoverySafety.RecoverIsSafe | crates/pskills-core/src/install.rs:1478-1537 | recovery never refuses; it ends at the old or the new installation, the new one exactly when journal and lock both read as new, whatever the phase says; crashing it keeps the same target |
| RecoverySafety.OwnRecordIsValid | crates/pskills-core/src/install.rs:1543-1635 | recovery accepts every marker a commit can write |
| RecoverySafety.BackwardNeverFlips | crates/pskills-core/src/install.rs:1495-1537 | writing the old documents back never turns the decision into rolling forward, also when old and new coincide |
| RecoverySafety.RollBackwardIsSafe | crates/pskills-core/src/install.rs:1637-1679 | rolling back restores the base exactly; crashing it leaves a disk that still rolls back |
| RecoverySafety.FinishIsSafe | crates/pskills-core/src/install.rs:1706-1751 | rolling forward reaches the intended disk; crashing it leaves a disk that still finishes |
| RecoverySafety.KeptDiskVerifies | crates/pskills-core/src/install.rs:1699-1704 | whenever the decision is to keep, every journaled skill verifies, so recovery is not stopped there |
| Runs.StepIsAtomic | crates/pskills-core/src/install.rs:194-459 | from any disk a call leaves one that stands for the installation before it or for the result of its own transaction |
| Runs.RunsAreAtomic | crates/pskills-core/src/install.rs:194-603 | over all runs of installs, removals, crashes and recoveries there is an atomic history of settled installations |
| Runs.RunsEndSettled | crates/pskills-core/src/install.rs:174-178 | wherever a run stops, the next opening settles it: nothing in flight, every journaled directory exists and verifies, owners non-empty, sorted, unique |
| Runs.NoLostUpdates | crates/pskills-core/src/install.rs:626-650 | committed lock values form a chain in which each was computed from its immediate predecessor |
| RunFrames.OutsidePathsAreKept | crates/pskills-core/src/install.rs:194-603 | over any run a path that is neither private nor journaled at the start, and that no event asks to install, is as it was at every point, crashed disks included |
| RunFrames.DocumentsMoveTogether | crates/pskills-core/src/install.rs:511-603 | along any run, between two disks with no transaction in flight, an event leaves journal and lock as they were or writes both as its transaction has them |
| Runs.RecoveryIsRestartable | crates/pskills-core/src/install.rs:1478-1537 | recovery crashed any number of times at any step ends where one uninterrupted recovery would |
| Runs.RecoveryFinishes | crates/pskills-core/src/install.rs:1478-1537 | recovery ends once the power lasts for a bound computed from the disk |
| Runs.RepresentationIsUnique | crates/pskills-core/src/install.rs:1495-1537 | a disk stands for one installation only |
| Progress.CommitSucceeds | crates/pskills-core/src/install.rs:511-603 | with power for a computed number of actions and no failing rename a commit reaches the intended disk, whether or not its bundles verify there |
| Progress.CallSucceeds | crates/pskills-core/src/install.rs:194-459 | from any disk a crash left behind, an acceptable call with enough power recovers, commits and reports success |
| Progress.FirstInstall | crates/pskills-core/src/install.rs:194-357 | any valid, extractable plan installs into an empty root and leaves exactly its extracted files, its entry and the lockfile, whatever its name and paths, unless its directory would be in the place of a document that the call touches |
| Progress.FreshIsSettled | crates/pskills-core/src/install.rs:1229-1242 | the empty installation is settled in every scope, so runs have a start |
| Changes.NewDiskIsSound | crates/pskills-core/src/install.rs:511-603 | proper changes to a settled installation produce a settled installation |
| Changes.TxOfIsOk | crates/pskills-core/src/install.rs:519-563 | proper changes make a transaction that fits the disk, the journals and the locks |
| Planning.InstallChangesOk | crates/pskills-core/src/install.rs:194-357 | a batch of plans with public names and plain bundles asks for proper changes at distinct destinations |
| Planning.RemovalChangesOk | crates/pskills-core/src/install.rs:371-459 | a removal asks for proper changes at distinct destinations, dropping a skill only when no owner is left |
| Planning.BuiltEntryVerifiesIff | crates/pskills-core/src/install.rs:719-754 | the extracted bundle verifies against the entry built for it exactly when no `.` hides in a path |
| Verdicts.BatchAcceptedIff | crates/pskills-core/src/install.rs:253-315 | a batch is accepted exactly when each destination holds no document and is vacant, or holds the intact skill with the plan's digest, or one that only the plan's owner owns while there is room for a backup |
| Verdicts.SelectedIff | crates/pskills-core/src/install.rs:388-410 | names can be selected for removal exactly when they are valid, distinct and of skills that carry the owner, and the selection is the owner's entries of those names, or all |
| Verdicts.RemovalAcceptedIff | crates/pskills-core/src/install.rs:412-432 | a removal is accepted exactly when each entry is intact and another owner stays or there is room to set the directory aside |
| Calls.InstallRefusedIff | crates/pskills-core/src/install.rs:194-357 | on a settled root an install of extractable plans is refused exactly when the lock does not fit, a plan is invalid or shares a destination, or one cannot be installed |
| Calls.RemovalRefusedIff | crates/pskills-core/src/install.rs:371-459 | on a settled root a removal is refused exactly when the owner is none, the lock does not fit, the names cannot be selected, or an entry cannot be released |
| Calls.InstallLeaves | crates/pskills-core/src/install.rs:253-350 | an accepted install leaves new skills with their files and owner, shared skills with exactly the old and the new owner and an untouched directory, replaced ones with the old directory in the backup, and all others as they were |
| Calls.RemovalLeaves | crates/pskills-core/src/install.rs:410-459 | an accepted removal leaves every meant skill with exactly its other owners and an untouched directory, or gone with its last owner, and all others as they were |
| Containment.CallStaysInside | crates/pskills-core/src/install.rs:194-603 | whatever marker, journal and directories are on disk, and wherever the call stops, it changes only stages, backups and the directories of skills that the marker, the journal or its valid plans name |
| Containment.RecoveryStaysInside | crates/pskills-core/src/install.rs:1478-1537 | so does recovery, and if it acts on a marker every name in it is valid |
| Containment.StrangeMarkerIsRefused | crates/pskills-core/src/install.rs:1543-1635 | recovery takes a marker exactly when its version, locks, stage, journals and operations are of the form that calls write, and otherwise changes nothing |
| Containment.UnknownDocumentsAreRefused | crates/pskills-core/src/install.rs:1495-1515 | recovery touches nothing when the journal or the lockfile is neither of the marker's, or both are new and a journaled skill is not intact |
| Containment.StrangeJournalIsRefused | crates/pskills-core/src/install.rs:1135-1175 | a journal with an entry of another form, or two for one place, stops every install and removal |
| Batches.BatchIgnoresPlanOrder | crates/pskills-core/src/install.rs:194-357 | every order of the same plans is accepted alike and makes the same transaction |
| Batches.BatchIsOneByOne | crates/pskills-core/src/install.rs:194-357 | a batch over distinct destinations is accepted exactly when its plans succeed one by one, with the same result |
| Batches.InstallEffect | crates/pskills-core/src/install.rs:194-357 | after a batch each plan's skill is journaled under its digest with its owner, and its directory holds exactly the bundle's files |
| Batches.ReplacedOnlyForSoleOwner | crates/pskills-core/src/install.rs:277-315 | different content replaces a skill only when its sole owner asks |
| Batches.RemovalEffect | crates/pskills-core/src/install.rs:371-459 | a removal keeps the directory exactly while some other owner remains |
| Batches.JournaledTreeIsBundle | crates/pskills-core/src/install.rs:869-897 | in a settled installation a journaled directory holds exactly the files of any bundle with its digest |
| Edits.EditedJournal | crates/pskills-core/src/install.rs:519-527 | replacing and appending entries in place, then sorting, gives the journal of the changes |
| Installer.LocalState.CommitTransaction | crates/pskills-core/src/install.rs:511-603 | the in-place commit takes exactly the steps about which commit safety is proved |
| Installer.LocalState.RecoverLocked | crates/pskills-core/src/install.rs:1478-1537 | the in-place recovery takes exactly the steps about which recovery safety is proved |
| Installer.LocalState.ActivateOperations | crates/pskills-core/src/install.rs:820-852 | the activation loop, action by action |
| Installer.LocalState.RollbackTransaction | crates/pskills-core/src/install.rs:1637-1679 | the rollback loop in reverse operation order, then the stage |
| Installer.LocalState.FinishTransaction | crates/pskills-core/src/install.rs:1706-1751 | artifact cleanup, then the marker |
| Installer.LocalState.ExtractInto | crates/pskills-core/src/install.rs:756-818 | the extraction loop, file by file |
| Installer.LocalState.InstallMany | crates/pskills-core/src/install.rs:194-357 | the whole call is one event of the run model, refusals and dry runs included |
| Installer.LocalState.RemoveOwner | crates/pskills-core/src/install.rs:371-459 | the whole call is one event of the run model |
| Installer.LocalState.PlanInstall | crates/pskills-core/src/install.rs:253-350 | the planning loop accepts exactly batches whose every plan can be installed, by the journal and the directories, and builds their transaction |
| Installer.LocalState.PlanRemoval | crates/pskills-core/src/install.rs:410-453 | the planning loop of a removal accepts exactly entries that can be released, and builds their transaction |
| Installer.LocalState.PlansAreValid | crates/pskills-core/src/install.rs:215-251 | the preflight loop accepts exactly plans with a valid name, owner, file list and digest, at distinct destinations |
| Installer.LocalState.LockChangeAllowed | crates/pskills-core/src/install.rs:626-650 | a lock change needs both values or none, and the expected one must be what a readable lockfile holds |
| Limits.OpeningKeepsIff | crates/pskills-core/src/install.rs:1753-1780 | opening keeps a top-level directory exactly when its name does not start like a stage |
| Limits.StageLikeNameIsAccepted | crates/pskills-core/src/install.rs:996-1007 | a stage-like skill name is accepted |
| Limits.StageLikeSkillIsLost | crates/pskills-core/src/install.rs:1753-1780 | a skill with such a name is installed with success and deleted by the next opening, its entry staying in the journal |
| Limits.FirstInstallSettlesIff | crates/pskills-core/src/install.rs:194-357 | in every scope, with or without a lock change, the first installation of a valid, extractable plan reports success and leaves a healthy root exactly when the name is neither like a stage nor that of a document of the root, and no `.` hides in a path |
| Limits.StateNamesAreAccepted | crates/pskills-core/src/install.rs:996-1007 | the names of the journal, the marker, the mutex file and the lockfiles are accepted as skill names |
| Limits.LockNamedSkillSticks | crates/pskills-core/src/install.rs:103-131 | a bundle that passes every check, named like the global lockfile: its first installation fails half-way, and every later call is refused and changes nothing |
| StateFiles.MutexNameIsRefused | crates/pskills-core/src/install.rs:1026-1036 | a skill named like the mutex file is refused, and nothing changes |
| StateFiles.JournalNameSticks | crates/pskills-core/src/install.rs:1229-1242 | one named like the journal fails half-way and leaves a root on which no recovery succeeds |
| StateFiles.MarkerNameSticks | crates/pskills-core/src/install.rs:820-852 | so does one named like the marker: activation and its rollback both fail |
| StateFiles.LockNameSticks | crates/pskills-core/src/install.rs:574-603 | so does one named like the lockfile that the call writes |
| StateFiles.LockNameBlocksLater | crates/pskills-core/src/install.rs:626-650 | one named like a lockfile that is not written is installed, and every later call with a lock value is refused |
| StateFiles.StuckStays | crates/pskills-core/src/install.rs:194-459 | on a root on which no recovery succeeds every call is refused and changes nothing |
| Settling.BatchSettlesIff | crates/pskills-core/src/install.rs:194-357 | from any settled root a conflict-free batch of valid, extractable plans reports success and leaves a healthy root exactly when every plan that puts files in place has such a name and hides no `.` |
| Settling.CommitWritesJournal | crates/pskills-core/src/install.rs:511-603 | whatever the transaction, a commit that reports success has written its journal |
| Limits.HiddenDotIsAccepted | crates/pskills-core/src/bundle.rs:294-421 | a bundle of `SKILL.md` and `a/./b` passes every check, and installing it reports success and leaves a root whose journal does not verify |
| Limits.UndoSucceedsIff | crates/pskills-core/src/install.rs:1643-1670 | undoing a replacement succeeds exactly when the directory in place verifies |
| Limits.HalfRemovedStopsRollback | crates/pskills-core/src/install.rs:1643-1661 | a new directory that is not exactly its bundle's files makes rollback refuse, the old directory staying in its backup |
| Limits.HalfRemovedIsLeftBehind | crates/pskills-core/src/install.rs:1662-1670 | where nothing was replaced, rollback reports success and leaves the remains in place |
| Limits.EmptiedSampleStopsRollback | crates/pskills-core/src/install.rs:1637-1679 | at a concrete disk with an emptied new directory, the whole rollback refuses and nothing is restored |
| Limits.FileUnderFileIsRefused | crates/pskills-core/src/install.rs:756-818 | two paths of which one is a directory of the other never extract together |
| Limits.FileAndDirectoryIsAccepted | crates/pskills-core/src/bundle.rs:161-230 | a bundle of `SKILL.md`, `a` and `a/b` passes every check and cannot be extracted |
| SkillTree.ExtractSucceedsIff | crates/pskills-core/src/install.rs:756-818 | extraction succeeds exactly when the files fit beside each other, and then holds exactly them |
| SkillTree.ExtractionVerifiesIff | crates/pskills-core/src/install.rs:869-934 | the extracted tree of an accepted bundle verifies exactly when no `.` component hides in a path, and then holds the bundle's files |
| SkillTree.VerifiedTreesAgree | crates/pskills-core/src/install.rs:899-934 | a directory that verifies is the bundle's own file map |
| SkillTree.CheckPassesIff | crates/pskills-core/src/install.rs:869-897 | the check passes for exactly the directories that hold the bundle's files |
| SkillTree.TreeFromEntryKey | crates/pskills-core/src/install.rs:980-984 | the tree digest is read back from a journal key, because names and digests hold no bar |
| SkillTree.TreeDigestIsAmbiguous | crates/pskills-core/src/bundle.rs:263-282 | two different trees share one digest stream |
| TreeDigests.DigestDecidesIff | crates/pskills-core/src/install.rs:916-934 | against a directory without zero bytes, a directory with the same digest is the same exactly when it has none either |
| TreeDigests.DigestIdentifiesIff | crates/pskills-core/src/install.rs:916-934 | a directory without zero bytes is the only one with its digest exactly when it holds at most one file |
| TreeDigests.TreeDigestDecidesIff | crates/pskills-core/src/bundle.rs:263-282 | accepted bundles without zero bytes share a tree digest exactly when they hold the same files |
| PathRules.PathAcceptedIff | crates/pskills-core/src/bundle.rs:294-420 | a path is accepted exactly when it is not empty, has no control character or backslash, at most 4096 units, no empty piece, no drive, no bad end, no leading dot, no bad piece (parent, bad end, reserved character, over 255 bytes, device stem), and no agent's name |
| PathRules.AcceptedStaysBelow | crates/pskills-core/src/bundle.rs:352-399 | from any directory no piece of an accepted path leads above it, and the whole leads below it |
| PathRules.OnDiskIsWalk | crates/pskills-core/src/install.rs:756-818 | an accepted path is written where its pieces lead |
| PathRules.SkillNameIff | crates/pskills-core/src/install.rs:996-1007 | a skill name is an accepted path of one piece |
| Acceptance.ValidateSkillBundle | crates/pskills-core/src/bundle.rs:161-230 | the file loop, the UTF-8 test and the frontmatter parser together accept exactly bundles that keep every rule of number, size, path, case and `SKILL.md`; a structural refusal names a rule that is broken |
| Acceptance.FullAcceptanceIgnoresOrder | crates/pskills-core/src/bundle.rs:161-230 | acceptance to the end does not depend on file order |
| Acceptance.SmallBundleIsAccepted | crates/pskills-core/src/bundle.rs:161-230 | a skill file with a valid name and description and a few small files with valid distinct paths are accepted |
| BundleFormat.ValidateBundle | crates/pskills-core/src/bundle.rs:162-225 | the file loop with its running sets and total accepts exactly bundles of 1 to 2000 files with accepted paths that differ but for case, within both size limits and with a `SKILL.md`, and returns their total size; each refusal says a rule that is broken |
| Readers.PrintedReadsBack | crates/pskills-core/src/bundle.rs:232-240 | what the JSON printer writes is read by a JSON reader as the value |
| Readers.EscapesAreShort | crates/pskills-core/src/bundle.rs:232-240 | the printer escapes only what it must, in the shortest form |
| WireReadings.EncodedReadsBack | crates/pskills-core/src/bundle.rs:195-208 | base64 of any bytes is decoded to them |
| WireReadings.WireReadsBack | crates/pskills-core/src/bundle.rs:242-252 | the wire text of a bundle is read as exactly its files by a reader of JSON and base64, so a parser as decoding assumes exists |
| WireReadings.CanonicalDecodes | crates/pskills-core/src/bundle.rs:232-252 | with that reader, decoding the canonical text of any acceptable bundle gives its normalised files in path order |
| BundleFormat.AcceptanceIgnoresOrder | crates/pskills-core/src/bundle.rs:162-225 | the verdict of the file loop does not depend on file order |
| BundleFormat.CanonicalIgnoresOrder | crates/pskills-core/src/bundle.rs:232-240 | canonical bytes ignore file order |
| BundleFormat.DecodeCanonical | crates/pskills-core/src/bundle.rs:232-252 | decoding canonical bytes gives the normalised files in path order |
| BundleFormat.DecodedReencodes | crates/pskills-core/src/bundle.rs:242-252 | accepted bytes re-encode to themselves and decode to normalised sorted files |
| BundleFormat.DecodeInjective | crates/pskills-core/src/bundle.rs:242-252 | two different accepted byte strings never give the same bundle |
| BundleFormat.DigestDecidesFiles | crates/pskills-core/src/bundle.rs:259-261 | bundles with one digest hold the same files |
| FrontmatterFacts.AcceptedIsExactlyCounted | crates/pskills-core/src/bundle.rs:478-548 | on acceptance the frontmatter ends at the first closing fence, the counted bytes and lines are exactly its length, and both limits hold |
| FrontmatterFacts.ValidateSkillMarkdown | crates/pskills-core/src/bundle.rs:460-573 | the parser's loops compute the specified document, exactly counted |
| FrontmatterFacts.MapIsCounted | crates/pskills-core/src/bundle.rs:818-907 | the metadata map charges every line it passes once, nested blocks included, and passes no fence |
| FrontmatterFacts.LiteralBlockReadsBack | crates/pskills-core/src/bundle.rs:680-816 | any lines written as a literal block with explicit indentation and keep read back with a newline each, and are refused only by the limits |
| BlockReadings.FoldedBlockReadsBack | crates/pskills-core/src/bundle.rs:715-816 | a folded block reads as its text: lines at the indentation joined by single spaces, each blank line and each side of a deeper line a line break, ended with none, one or all breaks as the header says, with written or shown indentation, and refused only by the limits |
| BlockReadings.EmptyGapText | crates/pskills-core/src/bundle.rs:770-786 | in a folded block `k` empty lines between two runs are `k` line breaks, and none is one beside a deeper line |
| BlockReadings.LiteralReadsBack | crates/pskills-core/src/bundle.rs:715-816 | a literal block reads as its lines with a break between any two, ended likewise |
| BlockReadings.Arranged | crates/pskills-core/src/bundle.rs:715-816 | any lines are such runs with blank lines between and behind them |
| BlockReadings.HeaderIff | crates/pskills-core/src/bundle.rs:680-713 | the headers are a style, and an indentation from 1 to 9 and a chomping indicator in either order |
| BlockReadings.TabIsRefused | crates/pskills-core/src/bundle.rs:737-741 | a tab at the start of a line of a block is refused |
| DocumentRules.AcceptedIsGood | crates/pskills-core/src/bundle.rs:460-573 | in an accepted document every line that is not blank, a comment or set in is a field with a usable key, no two keys agree but for case, hyphens and underscores, at most 256 are there, name and description are the values of their fields and within their rules, and the limits hold |
| DocumentRules.MapEntryIff | crates/pskills-core/src/bundle.rs:838-905 | an entry of the metadata map is taken exactly when its indentation is that of the map, its key is usable and new, fewer than 128 precede it, the limits hold, and its value is a text of at most 4096 characters |
| DocumentRules.MetadataOpensMap | crates/pskills-core/src/bundle.rs:503-518 | a field whose key reads `metadata` in any case opens the map when nothing follows on its line, and is refused as a block |
| DocumentRules.LineEnds | crates/pskills-core/src/bundle.rs:466-466 | each kind of line end becomes one line feed, and other text stays |
| ScalarReadings.PlainReads | crates/pskills-core/src/bundle.rs:957-1025 | an unquoted value with blanks around it and a comment behind it is refused as a list, map, tag, anchor, alias, null or with control characters, and otherwise read as a boolean, a number or its text |
| ScalarReadings.NothingIsRefused | crates/pskills-core/src/bundle.rs:957-965 | nothing but blanks and a comment is no value |
| ScalarReadings.DoubleQuotedReads | crates/pskills-core/src/bundle.rs:957-1025 | a double-quoted value reads as the JSON string it is, hash signs and all |
| ScalarReadings.CommentIsCut | crates/pskills-core/src/bundle.rs:916-955 | without quotes a comment starts at the first hash sign at the start or behind a blank |
| Documents.WrittenReadsBack | crates/pskills-core/src/bundle.rs:460-573 | any valid name and printable description, single-quoted between fences, is accepted and read back exactly, whatever follows |
| Frontmatter.ParseBlockScalar | crates/pskills-core/src/bundle.rs:715-816 | the scanning, joining and chomping loops compute the specified block |
| Frontmatter.ParseMetadataMap | crates/pskills-core/src/bundle.rs:818-907 | the map loop with its shared index computes the specified state |
| Frontmatter.ReadFields | crates/pskills-core/src/bundle.rs:485-543 | the top-level loop computes the specified fields |
| Scalars.StripYamlComment | crates/pskills-core/src/bundle.rs:916-955 | the index loop cuts where the quote-aware specification cuts |
| Scalars.SingleQuotedReadsBack | crates/pskills-core/src/bundle.rs:957-1025 | single-quoting any control-free bounded text by doubling quotes reads back as that text, also with blanks and a comment around it |
| Json.PrintInjective | scripts/restore-backup.ts:928-929 | different JSON values print differently |
| CanonicalJson.CanonicalTextDecides | scripts/restore-backup.ts:921-930 | canonical texts are equal exactly when the values are equal up to key order |
| Blobs.RewriteSucceedsIff | scripts/restore-backup.ts:900-913 | rewriting succeeds exactly when every reference is well formed and mapped |
| Blobs.CollectRewritten | scripts/restore-backup.ts:457-470 | collecting after rewriting gives the same paths with the mapped blobs |
| Blobs.RewriteKeepsRest | scripts/restore-backup.ts:900-913 | rewriting changes nothing but the keys of references |
| BlobOrder.CollectIgnoresKeyOrder | scripts/restore-backup.ts:457-470 | values equal up to key order hold the same references at the same paths |
| BlobOrder.BlankedIgnoresKeyOrder | scripts/restore-backup.ts:921-930 | leaving blob keys aside respects equality up to key order |
| Reach.CollectIff | scripts/restore-backup.ts:457-470 | the references of a value are exactly its outermost records with key, digest and size, each at its written path, and collecting fails exactly when one of them is no good blob |
| Reach.StorageKeyIff | scripts/restore-backup.ts:354-359 | a storage key is bounded, has no backslash, colon or NUL, and no empty piece, `.` or `..` |
| Manifests.RefsByKey | scripts/restore-backup.ts:617-631 | the grouping loop gives one group per key with exactly its references, and fails exactly on conflicting digests or sizes |
| Manifests.AggregateBytes | scripts/restore-backup.ts:397-406 | the running total stays within the limit exactly when the sum does |
| Manifests.SameEntriesDecides | scripts/restore-backup.ts:714-725 | comparing sorted entries decides whether a duplicate-free list names exactly the references |
| Backup.OwnedByIff | scripts/restore-backup.ts:472-490 | the ownership check passes exactly when every record at any depth that names an organization names this one |
| ManifestRules.AcceptedManifest | scripts/restore-backup.ts:810-872 | every accepted manifest holds at most 10,000 entries within the byte limits, a state of this organization alone at its revision, and lists exactly the blobs of the state at exactly their paths |
| Backup.ValidateManifest | scripts/restore-backup.ts:810-872 | validation accepts exactly the manifests that list every reference of a valid state of the organization once, within the limits; no record of another organization is anywhere in an accepted state |
| Backup.CreateLogicalBackup | scripts/restore-backup.ts:650-712 | capture succeeds exactly on capturable states, in which no record of another organization is; the manifest lists all references, the archive holds the source's bytes, and it reads back exactly when the captured state's own keys, paths and reference counts are ones the reader takes |
| Backup.UnreadableStateIsRefused | scripts/restore-backup.ts:819-844 | no manifest of a state with other keys, paths or counts is ever accepted |
| Registry.TabKeyIsCapturedNotRead | scripts/restore-backup.ts:354-359 | a state of the registry's shape whose one key holds a tab can be captured, and every manifest of it is refused |
| Registry.RegistryShapeIff | packages/database/src/state.ts:108-180 | the registry's schema accepts exactly records with schema version 1, the eight collections, later collections and hooks as lists, and a policy of known scanners listed once |
| Registry.RegistryReadsMeaning | packages/database/src/state.ts:137-180 | the registry's schema holds of every state that means the same: it looks at no blob, no key order and no revision |
| Registry.RegistryRestores | scripts/restore-backup.ts:932-1010 | every valid manifest of a registry state restores into an empty target that answers honestly |
| Restore.ValidatedStateRewrites | scripts/restore-backup.ts:960-990 | after validation and the object loop the rewrite never meets an unmapped key, and keeps digests, sizes and all else |
| Restore.RestoreTarget.PutAll | scripts/restore-backup.ts:960-989 | the object loop succeeds exactly when archive and store answer well; every object then resolves to the archived bytes and no old object is lost |
| Restore.RestoreTarget.Seed | scripts/restore-backup-postgres.ts:411-474 | the seed takes an empty table exactly when what is read back equals the state up to key order, and otherwise rolls back |
| Restore.RestoreTarget.RestoreLogicalBackup | scripts/restore-backup.ts:932-1010 | success, in exactly the stated cases, only into an empty table of the manifest's own organization, leaves one row that means the captured state at its revision with every reference resolving to the archived bytes; failure leaves the table unchanged; no reachable table has a dangling reference |
| Restore.SeededRowIsFaithful | scripts/restore-backup.ts:990-998 | a row that reads back as the rewritten state carries every reference over, with its path, digest, size and bytes |
| Restore.ReadBackMatches | scripts/restore-backup.ts:994-998 | the final text comparison holds of every row the seed accepted |
| RoundTrip.HonestAnswersAreGood | scripts/restore-backup.ts:970-988 | a store that keeps what it is given and says so answers the whole object loop well |
| RoundTrip.HonestTargetRestores | scripts/restore-backup.ts:932-1010 | every valid manifest with its archive restores into an empty target that answers honestly, under every schema that reads only the meaning |
| RoundTrip.RestoredBytesAreSourceBytes | scripts/restore-backup.ts:633-712 | after capture and restore each reference resolves to the very bytes it had at the source |
| LockEdits.PinnedHolds | crates/pskills-cli/src/main.rs:2082-2206 | pinning gives the owner the pin's key, takes it off exactly the displaced keys, and moves nobody else |
| LockEdits.PinnedTidy | crates/pskills-cli/src/main.rs:2082-2206 | pinning keeps keys unique, owners non-empty and without repeats, and one version per owner |
| LockEdits.PinnedRefusedIff | crates/pskills-cli/src/main.rs:2160-2166 | a pin is refused exactly when its key is already installed under another name |
| LockEffects.PinnedFields | crates/pskills-cli/src/main.rs:2164-2206 | after a pin the skill under its key has exactly the pin's fields and the owner, every other keeps its fields apart from owners, and other owners keep what they hold |
| LockEffects.PinnedLeavesIff | crates/pskills-cli/src/main.rs:2124-2160 | of the other skills the owner keeps exactly those that are neither the same external skill under another key nor another version |
| LockRuns.EditHasEffect | crates/pskills-cli/src/main.rs:1372-1410 | each edit has its effect and no other: a pin, a pack recorded with the text of its members and pinned, a pack that lets go of everything it held, an owner that leaves the named skills |
| LockRuns.RemovalEffect | crates/pskills-cli/src/main.rs:1499-1510 | removing a pack drops its record and its owner from every skill, skills without owners go, and every other holding and field stays |
| LockEffects.LeftUnderHolds | crates/pskills-cli/src/main.rs:1706-1712 | a direct removal takes the owner off the named skills and off no other |
| LockRuns.AgreeingPackIsTaken | crates/pskills-cli/src/main.rs:2160-2166 | a pack of distinct members with distinct names is taken when nothing is installed under a member's key and another name |
| LockRuns.DisagreeingPackIsRefused | crates/pskills-cli/src/main.rs:2160-2166 | it is refused when another owner holds a member's key under another name |
| LockRuns.PackHoldsIff | crates/pskills-cli/src/main.rs:1372-1410 | a pack holds all its members exactly when none supersedes an earlier one |
| LockRuns.TwoVersionsDangle | crates/pskills-cli/src/main.rs:1390-1410 | a pack of two versions of one skill under different install names is taken, recorded with a member its owner does not hold, and cannot be removed |
| LockRuns.OneIdentityDangles | crates/pskills-cli/src/main.rs:2124-2148 | so is a pack of two members with one external identity |
| LockRuns.ValidatePackDestinations | crates/pskills-cli/src/main.rs:2431-2445 | the name loop accepts exactly packs whose install names differ, whatever their case |
| LockRuns.EditKeepsHoldings | crates/pskills-cli/src/main.rs:1478-1510 | an edit of any kind that does not name a pack leaves its holdings exactly as they are |
| LockRuns.EditKeepsOrderly | crates/pskills-cli/src/main.rs:1706-1712 | every edit keeps keys unique, owners non-empty and without repeats, one version per owner, and packs recorded once |
| LockRuns.EditKeepsGoodIff | crates/pskills-cli/src/main.rs:1372-1410 | from a lock in which every pack is complete an edit leads to another such lock exactly when it installs no pack whose members supersede one another |
| LockRuns.RunsStayExact | crates/pskills-cli/src/main.rs:2082-2206 | over every run of edits from an absent lockfile the lock stays orderly, and every recorded pack holds exactly what the members it was installed from leave to it |
| LockRuns.PackIsCompleteIff | crates/pskills-cli/src/main.rs:2082-2206 | over every run a recorded pack is complete exactly when those members are independent |
| LockRuns.RunsKeepGood | crates/pskills-cli/src/main.rs:2082-2206 | runs that install only independent packs keep every pack complete |
| LockRuns.PackStays | crates/pskills-cli/src/main.rs:1378-1389 | a recorded pack stays recorded until an edit names it |
| LockRuns.RemovalSucceedsIff | crates/pskills-cli/src/main.rs:1473-1497 | over every run, removing a recorded pack succeeds exactly when every member that a later one superseded is held by another owner |
| LockRuns.MembersAreFound | crates/pskills-cli/src/main.rs:1482-1497 | in a lock whose packs are all complete, removing a recorded pack finds every member and succeeds |
| LockRuns.DanglingPackStays | crates/pskills-cli/src/main.rs:1482-1497 | a pack of two members of which the second supersedes the first is recorded, and its removal is refused |
| LockRuns.LockDraft.PinSkill | crates/pskills-cli/src/main.rs:2082-2206 | the in-place loops of a pin, or its refusal for a conflicting destination |
| LockRuns.LockDraft.Edit | crates/pskills-cli/src/main.rs:1793-1799 | the in-place edits of each command, with the destination check of a pack and the member lookups of its removal, compute the specified lock or its refusal, and have the stated effect |
| Adoption.AdoptionStore.BindOwner | apps/web/server/bootstrap-adoption.ts:408-576 | on a working database a binding applies exactly when admissible, as the rows say; it then leaves the user the one marked owner and other members, metadata and organizations as they were; otherwise all is rolled back |
| Adoption.AdoptionStore.AppendAudit | apps/web/server/bootstrap-adoption.ts:303-343 | the audit loop refuses events of another user, and appends at most one |
| Adoption.AdoptionStore.Adopt | apps/web/server/bootstrap-adoption.ts:129-182 | nothing is touched without a verified session and a proof by a user of the organization with the owner's role, no worker's, a subject and an allowed token; success leaves the user bound and recorded |
| Adoption.AdmissibleIff | apps/web/server/bootstrap-adoption.ts:408-540 | a binding is admissible exactly when the user is verified, the session is the user's and live, every member row is well formed, no other user is an owner, the user has one row at most, and the organization is new under a free slug or its marker is absent or names the user as a present owner |
| Adoption.OwnerProofIff | apps/web/server/bootstrap-adoption.ts:226-239 | the owner's proof, field by field |
| Adoption.BoundHasOneOwner | apps/web/server/bootstrap-adoption.ts:501-510 | a bound organization has exactly one row with the owner role, the user's |
| Adoption.OthersAreRefused | apps/web/server/bootstrap-adoption.ts:493-506 | while one user is bound no attempt by another is admissible |
| Adoption.RetriesAreAdmissible | apps/web/server/bootstrap-adoption.ts:517-552 | a retry by the bound user is admissible |
| AdoptionRuns.SingleAdoptedOwner | apps/web/server/bootstrap-adoption.ts:160-175 | once a binding is applied, at every later point of any run exactly one row has the owner role and it is the user's, the marker names the user, and at most one adoption event exists and names the user |
| AdoptionRuns.LaterAttemptsFail | apps/web/server/bootstrap-adoption.ts:160-175 | later attempts by others are never applied and change nothing |
| AdoptionRuns.RetryChangesOnlyTheSession | apps/web/server/bootstrap-adoption.ts:517-563 | a retry touches nothing but the active organization of the session |
| AdoptionRuns.AuditOfOwnerSucceeds | apps/web/server/bootstrap-adoption.ts:309-322 | the audit write of a bound user is never refused, even after a failure between the stores |
| TenantRuns.CacheHoldsTheLastUsed | apps/web/server/tenant-runtime.ts:124-155 | in any history, from a point at which the cache is empty and while only answered requests follow, it holds exactly the last N distinct organizations in order of last use |
| TenantRuns.CacheIsInUseOrder | apps/web/server/tenant-runtime.ts:124-155 | over any history of requests, failures, invalidations and clears, cached organizations lie in the order of their last request |
| TenantCache.RecencyIsByLastUse | apps/web/server/tenant-runtime.ts:127-131 | the use order lists each organization once, ordered by its last request |
| TenantCache.TenantHandlers.HandlerFor | apps/web/server/tenant-runtime.ts:124-155 | the handler returned was built for exactly the requested organization and provisioning; keys stay distinct and within the bound |
| TenantCache.TenantHandlers.Evict | apps/web/server/tenant-runtime.ts:149-153 | the eviction loop keeps the newest entries within the bound |
| TenantCache.TenantHandlers.BuildFailed | apps/web/server/tenant-runtime.ts:146-148 | a failed build removes its own entry and never a later one |
| TenantCache.TenantHandlers.InvalidateTenant | apps/web/server/tenant-runtime.ts:210-217 | invalidation removes exactly that organization |
| TenantCache.TenantHandlers.ClearTenants | apps/web/server/tenant-runtime.ts:218-220 | clearing leaves nothing |
| TenantRuns.CachedIsReturned | apps/web/server/tenant-runtime.ts:124-148 | a request whose handler is cached gets that one and builds nothing, any other gets a newly built one or none |
| TenantRuns.OthersStay | apps/web/server/tenant-runtime.ts:146-148 | a failed build takes away no entry but its own, and an invalidation none of another organization |
| TenantRuns.FailedIsNeverReturned | apps/web/server/tenant-runtime.ts:124-155 | over any history of requests, failures, invalidations and clears, each reply was built for what was asked, and a handler whose build failed is never returned afterwards |
| TenantRuns.DroppedIsNeverReturned | apps/web/server/tenant-runtime.ts:210-220 | nor is one returned after its organization was invalidated or the cache cleared |

## Left out

- File system detail: symbolic links, permissions, fsync, native locks, the temporary files of document writes. Paths are map keys, documents are written in one step, calls are serialized.
- Install roots shared by two agents under one lockfile, and the raw `write_lock` and `write_journal` calls that bypass the transaction.
- Settling.BatchSettlesIff: leaves aside names like a backup, and names of documents that lie elsewhere in the scope at hand; `Limits.FirstInstallSettlesIff` covers those for the first installation.
- Installer.LocalState.PlansAreValid: the `SKILL.md` parse of the preflight is in `Acceptance.ValidateSkillBundle`; a destination where a document lies is refused by `Planning.Decide`.
- `executable` bits on disk, and the mixed dry-run check of a batch; a dry run is one flag of the call.
- The lockfile's registry table, targets, and source selectors; registry aliases are a parameter of a pin, and the owner and install names that a `remove` of one skill resolves to are parameters of the edit. Removing every version of a pack is one edit for each.
- Unicode normalisation and case folding: normalisation is a parameter of the bundle format, collision keys and install names fold ASCII only.
- PathRules.PathAcceptedIff: without the rule that a path is in NFC, which the bundle format has as a parameter.
- BundleFormat.ValidateBundle: is the file loop alone; the installer and the encoding are stated for all bundles it passes, of which `Acceptance.ValidateSkillBundle` accepts those whose `SKILL.md` parses. Collision keys fold ASCII letters only.
- The parser of bundle bytes (any that reads back what is printed; `WireReadings` has one) and of quoted YAML strings, the UTF-8 decoder, the syntax of YAML numbers, and the list of refused field names: parameters of the model. No conformance to YAML is claimed.
- Backup.ValidateManifest: covers organization, revision, state, objects and limits of a manifest; locations, fences, capture times and the depth and size budgets of the JSON text are not modelled.
- Restore.RestoreTarget.RestoreLogicalBackup: models the PostgreSQL target, whose preflight accepts exactly an empty table; the emptiness test on other repositories' states and the comparison of source and target locations are not modelled.
- Names and slugs of new organizations are taken as given; proof tokens, request parsing and HTTP replies of the adoption endpoint are not modelled.
- Request routing, authenticators and principals around the tenant cache.
- The HTTP client, credential storage, argument parsing, provisioning scripts, identity, billing, and worker authentication.
- Matching lock owners to journal owners when an external identity changes its install name.
