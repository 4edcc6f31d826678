# ArachOS installer and release checks: a verified model

The core of this project is the journaled install transaction of `src/installer.rs`: a
crash-recovery protocol over three authorities (hardware packages, the Corinth generation,
up to thirteen boot files) and two copies of a journal. Four smaller checks of the
repository are modelled beside it: the readiness ledger, the release channels, the serial
marker matcher and the signed Pacman snapshot.

## How the installer is modelled

- `TargetDisk` is the durable state and the list of atomic writes. `Operations` gives, for
  each operation, the exact sequence of writes it performs from a disk and how it ends. A
  crash is a prefix of that sequence, anywhere.
- `Installer.Machine` is the imperative form: in-memory journals and records, loops, one
  durable write after another. Each method is proved to perform exactly the writes of
  `Operations` and to return the same result, so the theorems about runs speak about it.
- `Preparation` is `prepare`, up to the point where the run theorems start.
- `CrashInvariant.Core` is the invariant of one installation. `UndoProof`,
  `ActivationProof` and `ApplyProof` show that every single write of every operation keeps
  it; `ActivationCuts` and `ApplyCuts` say exactly which boot file is in flight after each
  write; `CrashSafety` lifts that to arbitrary interleavings of interrupted operations and
  restarts; `CrashTheorems`, `RecoveryTheorems` and `VerifyTheorems` draw the conclusions.
- `Admission` says what the documents and the disk must be for an operation to begin at
  all, `Layout` which file of a bundle belongs at which path; both are stated apart from the
  checks as the operations run them.
- `RefusedRollback`, `Superseded` and `StackedRecovery` are about two transactions on one
  target. `Witness` is a smallest target on which the counterexamples happen.
- `inFlight` (`k` in the lemmas) is the index of the boot file that was renamed into place
  but not yet marked in the boot record, or -1.

## What the proofs found

- `docs/INSTALLER.md:73-75` promises that rollback restores the previous boot files. The
  code marks an entry after its rename, so a crash between the two leaves that one new file
  in place for good (`InFlightFileSurvivesRollback`, on an empty target
  `BootLoaderSurvivesRollback`). `RollbackRestoresExactlyWhen` says after which runs the
  promise holds, `MarkFirstRestoresEverything` that marking first would keep it.
- The first write of `boot-mutation.json` is not published by rename. A crash inside it
  leaves an unreadable record that no later operation repairs, with the new generation
  active and no boot file installed (`TornRecordIsPermanent`, `TornRecordOnEmptyTarget`).
- `validate_journal` leaves generation and boot mutations unbounded in the applying state.
  The installer never writes such a journal (`EveryJournalLoads`), but one that is accepted
  makes the recovery after the next fail (`NextRecoverySucceedsExactlyWhen`).
- Rollback asks the generation authority last. Of a transaction that a later one superseded
  it is refused, but by then its backups lie over the later one's boot files
  (`SupersededRollbackOverwritesLater`, on an empty target `RefusedRollbackRemovesBootLoader`).
- `recover` takes the directory in whatever order the system lists it. With one open
  transaction applied over another it succeeds only if the newer one is listed first
  (`StackedRecoverySucceedsExactlyWhen`); `apply` does not check for open transactions.
- A refused `prepare` can remove a staged hardware plan it did not create
  (`RefusedLeavesNoTraceExactlyWhen`).
- The monotonicity test of the release channels and the missing-numbers test of the ledger
  can never fire.

## Assumptions

A generation digest is not the reserved zero digest; the generation store is intact and
answers as its contract says (publishing sets the active generation to the new digest and
records the parent, rolling back restores it); all operations name the same target; one
process at a time; signed hardware plans carry valid package names. A run of one
installation may contain `recover` only if the earlier transactions of the target are
closed, since `recover` is an operation on all of them.
Hashing, document encodings, document parsers, the signature check and regular expressions
are parameters. `prepare` and `apply` take the files they read as arguments.

## Model

| member | source | states |
|---|---|---|
| CrashTheorems.WholeRunCrashSafety | src/installer.rs:359-847 | for every run of interrupted applies, verifies, rollbacks (from either copy), recoveries and restarts: the target is untouched, or already undone, or one complete rollback undoes it, or the record is torn with every boot file still old; undone means old generation, no package, status rolled back, and the old boot tree but for exactly the file at which the apply was cut between rename and mark |
| RecoveryTheorems.WholeRunRecovery | src/installer.rs:795-847 | after any such run one complete recovery undoes the installation, but for that same file, unless it is verified or rolled back, and then writes nothing, provided its record is not torn and the other listed transactions are verified or rolled back |
| CrashSafety.RunInvariant | src/installer.rs:359-847 | every disk of every run, over any earlier transactions, is untouched or satisfies the invariant with exactly the file in flight at which its first accepted apply was cut |
| CrashSafety.EventsKeep | src/installer.rs:359-847 | once the checkpoint exists the invariant, with the same entry in flight, survives any further interrupted operations |
| CrashSafety.SecondApplyWritesNothing | src/installer.rs:1796-1801 | with the checkpoint on the target a further apply changes nothing, whatever the runtime copy says |
| CrashTheorems.RollbackRestoresExactlyWhen | src/installer.rs:1317-1365 | after any run that does not leave a torn record, one complete rollback leaves every boot path as it was iff the apply was not cut between the rename and the mark of a file that differs; on the disk: iff no unmarked entry differs from its backup, or, once the record is gone, iff the tree is restored already |
| ActivationCuts.ActivationAtCut | src/installer.rs:1063-1148 | after every number of writes of activation: which entry is in flight, whether the record is absent, torn or whole, and that nothing has changed before it exists |
| ActivationCuts.InFlightAtCut | src/installer.rs:1139-1146 | in the install loop an entry is in flight exactly between its rename and its mark |
| ApplyCuts.ApplyAtCut | src/installer.rs:359-462 | the same after every number of writes of an apply, for every input/output error during activation |
| CrashTheorems.InFlightFileSurvivesRollback | src/installer.rs:1139-1146 | the counterexample to full restoration, from the start: for any prepared installation that would succeed and any of its files that differs, a crash after its rename and a complete rollback leave the new file |
| CrashTheorems.MarkFirstRestoresEverything | src/installer.rs:1139-1144 | with mark and rename exchanged, every crash in the install loop of such an installation is restored completely |
| CrashTheorems.TornRecordIsPermanent | src/installer.rs:2148-2167 | from the start: crash an apply inside the first write of its boot record, and in every further run the record stays torn, the new generation active, the boot tree old, and rollback fails |
| CrashTheorems.TornRecordStopsRecovery | src/installer.rs:1317-1345 | from a torn record on every rollback and every recovery listing the transaction fails |
| CrashTheorems.RolledBackIsFinal | src/installer.rs:704-793 | after a rollback no run changes the target again, and neither verify nor rollback succeeds from either copy |
| CrashTheorems.EveryJournalLoads | src/installer.rs:1543-1683 | every journal any run leaves in either copy passes the checks of its readers, so recovery is never blocked by the installer's own writes |
| CrashTheorems.CheckpointIsNeverBehind | src/installer.rs:1780-1879 | in every run the checkpoint journal is at least as far as the runtime journal |
| CrashTheorems.ApplyKeepsCopiesInStep | src/installer.rs:395-460 | after every write of apply the copies are equal or the checkpoint is one transition ahead |
| CrashTheorems.InstalledPackagesAreJournaled | src/installer.rs:507-560 | at every point of every run the installed packages are among the journaled ones |
| CrashTheorems.CheckpointCarriesInputs | src/installer.rs:1780-1829 | at every point of every run the checkpoint carries the generation image and the hardware plan that its plan names by digest |
| CrashTheorems.SuccessfulApplyVerifies | src/installer.rs:359-462 | after a successful apply of any accepted bundle verify succeeds as long as no destination changed |
| CrashTheorems.ApplySucceedsExactlyWhen | src/installer.rs:359-462 | on accepted inputs and without an input/output error apply succeeds iff hardware inputs match the plan and agree, the parent is active and every destination is replaceable |
| ApplyCuts.ApplyEndsAs | src/installer.rs:415-462 | an accepted apply that runs to its end leaves both copies of the journal equal: applied if it succeeded, failed if it got as far as activating, still applying otherwise |
| Admission.LoadedDocumentsAre | src/installer.rs:1543-1683 | a plan and a journal are loaded iff each is well formed and they are bound, spelled out field by field and status by status |
| Admission.ApplyBeginsExactlyWhenAllowed | src/installer.rs:359-415 | an apply writes at all iff its documents, generation, hardware plan and bundle are accepted, it is prepared and the target has no checkpoint of it; its first write puts exactly these inputs and the journal of what is about to happen on the target |
| Admission.RollbackOnlyWhenAllowed | src/installer.rs:721-750 | on any disk and from either copy a rollback of unaccepted documents, of a rolled-back transaction or of another target fails and writes nothing; the last two exactly with their own errors |
| Admission.RollbackSucceedsExactlyWhen | src/installer.rs:721-793 | it succeeds iff it is allowed, its boot files can be put back and its generation can be taken back |
| RecoveryTheorems.RecoverClosesEverything | src/installer.rs:795-847 | whenever recover returns Ok(n) over a complete listing of any set of checkpoints, n is the number that were neither verified nor rolled back, all are now one or the other, and those that were are untouched; the next call returns Ok(0) iff every journal that was open had bounded mutation counts |
| RecoveryTheorems.RecoverFromEffect | src/installer.rs:808-845 | a successful scan rolled back exactly the listed transactions that were neither verified nor rolled back, counted them, and left every other as it was |
| RecoveryTheorems.RecoverAccepts | src/installer.rs:811-832 | a successful scan accepted every visible entry and there were at most 128 |
| RecoveryTheorems.RecoverSucceeds | src/installer.rs:795-847 | with at most this transaction neither verified nor rolled back, loadable entries and at most 128 of them besides dot files, recovery succeeds unless the record is torn |
| RecoveryTheorems.NextRecoverySucceedsExactlyWhen | src/installer.rs:1622-1631 | after a successful recovery over any listing the next one over it succeeds iff every listed open journal had bounded mutation counts |
| RecoveryTheorems.WellShapedIsBounded | src/installer.rs:1578-1683 | the journals of the installer's own runs have bounded mutation counts |
| RecoveryTheorems.RollbackTouchesOne | src/installer.rs:721-793 | rolling back one transaction changes no other, and success records it as rolled back |
| RefusedRollback.RefusedExactlyWhen | src/installer.rs:1962-2011 | a rollback whose documents are accepted and whose boot files can be put back is refused by the generation authority iff another generation is active; and exactly when it succeeds |
| RefusedRollback.RefusedRollbackHasUndone | src/installer.rs:757-784 | a refused rollback has changed the disk iff a journaled package was installed or there was a boot record, and leaves no journaled package, no record and every marked destination as the transaction found it |
| RefusedRollback.EntriesUndoEffect | src/installer.rs:1350-1360 | the reverse loop over any record leaves each destination as its first marked entry says and touches nothing else |
| RefusedRollback.BootUndoSucceedsExactlyWhen | src/installer.rs:1317-1365 | boot files can be put back iff there is no record, or it is whole, of this bundle, names boot destinations and own backups only, every marked entry has a bounded backup and what the loop meets first gives way |
| RefusedRollback.GenerationUndoSucceedsExactlyWhen | src/installer.rs:1962-2011 | the generation can be taken back iff nothing was intended on the target, or both digests are readable and the store is at the previous one or has it as parent of the intended one |
| RefusedRollback.TakesBackToRecordedParent | src/installer.rs:1962-2011 | the store is sent back to the parent it records, also when that is not the journaled one, which is then refused |
| Superseded.SupersededRollbackOverwritesLater | src/installer.rs:757-784 | a transaction applied and verified, a second applied over it: rollback of the first is refused unless the second went back to the generation before it, and then the second, still recorded as applied, has the files from before the first under its boot paths |
| StackedRecovery.StackedRecoverySucceedsExactlyWhen | src/installer.rs:808-845 | with one open transaction applied over another, recovery succeeds iff the newer one is listed first (or went back to the generation before both), and then restores the tree and generation from before both |
| Witness.BootLoaderSurvivesRollback | src/installer.rs:1139-1146 | a concrete installation rolled back with its boot loader still in place |
| Witness.TornRecordOnEmptyTarget | src/installer.rs:2148-2167 | a concrete installation that no later run can roll back |
| Witness.RefusedRollbackRemovesBootLoader | src/installer.rs:757-784 | a concrete refused rollback after which the later installation has no boot loader |
| UndoProof.RollbackKeeps | src/installer.rs:721-793 | every write of rollback keeps the invariant; it succeeds iff the documents are at hand, the status is open to rollback and the record is readable, and then everything is undone |
| UndoProof.RollbackDecidesFromCheckpoint | src/installer.rs:721-756 | with a stale runtime copy rollback decides from the checkpoint |
| UndoProof.InterruptedRollbackConverges | src/installer.rs:721-793 | a rollback interrupted anywhere and run again from any copy ends with the same checkpoint, generation store and boot tree as the uninterrupted one |
| UndoProof.VerifyDecidesFromCheckpoint | src/installer.rs:704-719 | however stale the given copy is, verify decides from the checkpoint, and succeeds iff that is applied and the installed bundle verifies |
| UndoProof.VerifyKeeps | src/installer.rs:704-719 | every write of verify keeps the invariant |
| UndoProof.RecoverKeeps | src/installer.rs:795-847 | every write of recover keeps the invariant, in whatever order the directory is listed |
| UndoProof.CorinthUndoKeeps | src/installer.rs:1962-2011 | generation rollback succeeds in every reachable state and restores the journaled previous generation |
| UndoProof.HardwareUndoKeeps | src/installer.rs:2013-2039 | the loop over the journaled packages removes every installed one, after any partial removal |
| UndoProof.BootUndoKeeps | src/installer.rs:1317-1365 | boot rollback accepts every reachable record but a torn one and restores all but the entry in flight |
| ActivationProof.ActivationKeeps | src/installer.rs:1063-1148 | every write of activation keeps the invariant, success installs every file, and it succeeds iff every destination is replaceable |
| ActivationProof.MarkFirstKeeps | src/installer.rs:1139-1144 | with each mark before its rename no entry is ever in flight |
| ActivationProof.BackupNameIsInjective | src/installer.rs:1063-1148 | no two entries share a backup file |
| ApplyProof.ApplyKeeps | src/installer.rs:359-462 | every write of apply keeps the invariant and the copies in step; success leaves the applied disk |
| ApplyProof.HardwareRunKeeps | src/installer.rs:464-560 | every write of provisioning keeps the invariant, packages being journaled before they are installed |
| ApplyProof.PublishRunKeeps | src/installer.rs:426-445 | publication keeps the invariant, also before the journal says so |
| Documents.WellShapedIsBound | src/installer.rs:1543-1683 | the reachable-journal invariant implies what the readers check |
| Documents.UndoneIsWellShaped | src/installer.rs:757-792 | rollback of a reachable journal writes a reachable journal |
| Documents.UndoneIsBoundExactlyWhen | src/installer.rs:1622-1683 | rollback of an accepted journal writes an accepted journal iff the mutation counts are bounded |
| Documents.ApplyingCheckIsTooWeak | src/installer.rs:1622-1631 | a journal the applying check accepts whose rollback writes one that no reader accepts |
| Documents.UndoneCount | src/installer.rs:757-788 | rollback adds each marker at most once and only for a stage that has none |
| Preparation.PreparedIsReady | src/installer.rs:243-332 | what a successful prepare leaves starts a run, and apply refuses none of its documents |
| Preparation.PrepareSucceedsExactlyWhen | src/installer.rs:243-332 | prepare succeeds iff schema, id, generation, bundle and hardware plan are accepted and no file is in the way; the medium then holds the inputs, the plan that names them by digest and the journal that has done nothing |
| Preparation.InterruptedLoadsExactlyWhen | src/installer.rs:307-331 | a crash inside prepare leaves loadable documents iff a stale journal is bound to the plan beside it, stale or new; on a medium without a journal never |
| Preparation.RefusedLeavesNoTraceExactlyWhen | src/installer.rs:307-331 | a refused prepare leaves the medium as it was iff it stops before the plan, staged a hardware plan itself, or finds none |
| Preparation.Medium.PrepareInstall | src/installer.rs:243-332 | the step-by-step prepare ends as specified |
| Installer.Machine.Apply | src/installer.rs:359-462 | performs exactly the specified writes, in order, and returns the specified result, for every fault point of activation |
| Installer.Machine.ProvisionHardware | src/installer.rs:464-560 | announce, install, journal the receipts, as specified |
| Installer.Machine.ActivateBootBundle | src/installer.rs:1063-1148 | backups, record, then rename and mark file by file, as specified, also when an error stops it |
| Installer.Machine.Rollback | src/installer.rs:721-793 | the stages of rollback with the journal changed in memory and written once, as specified |
| Installer.Machine.RollbackBootBundle | src/installer.rs:1317-1365 | the loop over the entries from the last to the first, as specified |
| Installer.Machine.RollbackHardware | src/installer.rs:2013-2039 | the loop over the journaled packages, as specified |
| Installer.Machine.RollbackCorinth | src/installer.rs:1962-2011 | the comparison of decoded digests with the store, as specified |
| VerifyTheorems.VerifyMarksWhatIsInstalled | src/installer.rs:704-719 | on any disk verify succeeds iff the documents are accepted, the deciding journal is applied for this target and the installed bundle re-hashes to the plan; it then says verified in every copy, changes nothing else and would refuse a second time; failing, it changes nothing |
| Installer.Machine.Recover | src/installer.rs:795-847 | the scan over the directory listing, as specified |
| Installer.Machine.RewriteJournalCopies | src/installer.rs:1866-1879 | the checkpoint copy first, then the given copy unless it is the same file |
| BootBundle.AcceptedBundleVerifies | src/installer.rs:866-1023 | an accepted bundle installed file by file passes the re-hash of verify |
| Layout.ReadsExactlyWholeBundles | src/installer.rs:866-1023 | a bundle is read iff its manifest is bounded and of schema 1, the four base files and none or all of the eight services are there with their headers and digests; what is read are these files, by name |
| Layout.VerifiesExactlyWholeBundles | src/installer.rs:1150-1315 | re-hashing accepts iff the same holds of the thirteen paths of the target and the manifest has the planned digest |
| Layout.ReadableExactlyWhenVerifiableInPlace | src/installer.rs:866-1315 | a bundle is read iff its files, each placed at its path, would pass the re-hash |
| Layout.SuccessfulApplyInstallsTheTable | src/installer.rs:1080-1146 | after a successful apply each named artifact lies at its own path, and every other path is as before |
| Layout.DestinationsAreTheTable | src/installer.rs:1367-1384 | a record may name exactly the thirteen paths of the table |
| BootBundle.VerifiedBundleIsUnique | src/installer.rs:1150-1315 | two boot trees that verify against one plan hold the same files, as far as the hash tells the compared files apart |
| BootBundle.DestinationsAreDistinct | src/installer.rs:31-43 | the thirteen destinations are pairwise distinct |
| Hardware.ValidateHardwarePackageSet | src/installer.rs:622-645 | accepts iff all same-named intents of all plans have one version, scope, repository, metadata, artifact and source lock, although each insert replaces the last intent; a refusal names a package with two intents that differ |
| Hardware.PartitionHardwarePlans | src/installer.rs:600-620 | the loop computes the two sides of the partition |
| Hardware.SideMembers | src/installer.rs:582-620 | no intent is lost, none is invented, each is on the side its coverage decides |
| Hardware.BinarySideIs | src/installer.rs:582-620 | an intent is on the binary side iff it is a driver or firmware and the index holds a package equal to it in name and in those six fields, and on the source side otherwise |
| Hardware.BinarySideComesFirst | src/installer.rs:520-556 | every binary package is installed before every source package |
| Hardware.SidesAreDisjoint | src/installer.rs:582-645 | in an accepted set no package name is on both sides |
| Hardware.ReceiptsMatchAnnouncement | src/installer.rs:505-560 | the journaled receipts are exactly the announced packages |
| DigestCodec.EncodeGenerationDigest | src/installer.rs:2073-2081 | the loop writes the two characters of every byte |
| DigestCodec.DecodeGenerationDigest | src/installer.rs:2055-2071 | the loop decodes as specified, refusing malformed and reserved digests |
| DigestCodec.DecodeOfEncode | src/installer.rs:2055-2090 | decoding an encoded digest gives it back, unless it is the reserved one |
| DigestCodec.EncodeOfDecode | src/installer.rs:2055-2090 | encoding a decoded text gives the text back |
| DigestCodec.DecodeAccepts | src/installer.rs:2041-2071 | decoding succeeds iff the text is well formed and not the encoded reserved digest |
| Readiness.CycleDetector.Visit | scripts/verify_production_readiness.py:382-391 | one visit finishes its node and keeps the finished nodes in topological order, or closes a cycle |
| Readiness.DetectCycles | scripts/verify_production_readiness.py:377-394 | accepts iff the graph has no cycle; an accepted graph is ordered topologically; a refusal names a node on a cycle |
| Readiness.ValidateLedger | scripts/verify_production_readiness.py:234-359 | accepts iff every gate is canonical, edges stay inside, there is no cycle and qualified gates have qualified prerequisites; each refusal is explained; the missing-numbers test never fires |
| Readiness.AcceptedIs | scripts/verify_production_readiness.py:234-359 | what an accepted ledger is, gate by gate and field by field |
| Readiness.CanonicalGatesAreATable | scripts/verify_production_readiness.py:43-58 | the canonical table is numbered from 1 and repeats neither id nor document |
| Readiness.QualifiedIsClosed | scripts/verify_production_readiness.py:349-359 | the qualified gates of an accepted ledger are closed under chains of dependencies of any length |
| Readiness.ReadyExactlyWhenLastGatesAre | scripts/verify_production_readiness.py:412-419 | an accepted ledger is production ready iff the gates nothing depends on are qualified |
| ReleaseChannels.Validate | scripts/verify_release_channels.py:346-471 | accepts iff the policy holds of the list of releases, counts the releases of each channel, and never reports a non-monotonic channel |
| ReleaseChannels.AcceptableIsGood | scripts/verify_release_channels.py:275-470 | what an accepted policy is, rule by rule: channels, releases, versions and sequences, retention and the five fields of each promotion |
| ReleaseChannels.CheckChannel | scripts/verify_release_channels.py:439-447 | accepts iff sequences are distinct and within retention; then the sorted list is a strictly increasing permutation |
| ReleaseChannels.CheckPromotions | scripts/verify_release_channels.py:449-470 | accepts iff every release has a source that it promotes unchanged and not earlier |
| ReleaseChannels.StableComesFromDevelopment | scripts/verify_release_channels.py:449-470 | every stable release has a unique testing source and that a unique development source, with equal revision, component lock, package generation, image and signature, and publication times in order |
| ReleaseChannels.RequiredGatesAreQualifiedThroughout | scripts/verify_release_channels.py:420-422 | against an accepted ledger every accepted release has its required gates and all their transitive prerequisites qualified |
| MarkerSequence.VerifySequence | scripts/verify_marker_sequence.py:35-60 | the line numbers are the earliest of all embeddings; a refusal names the marker that ends the shortest prefix without one, and the line the search stopped at |
| MarkerSequence.AcceptsExactlyEmbeddable | scripts/verify_marker_sequence.py:48-60 | accepts iff a strictly increasing assignment of matching lines exists |
| MarkerSequence.VerdictIsUnique | scripts/verify_marker_sequence.py:35-60 | the stated verdict determines the whole result, errors included |
| MarkerSequence.EscapeIsOnePass | scripts/verify_marker_sequence.py:63-69 | the four chained replacements equal one pass over the text |
| MarkerSequence.UnescapeOfEscape | scripts/verify_marker_sequence.py:63-69 | escaping can be undone and emits no tab, carriage return or newline |
| MarkerSequence.EscapeOfUnescape | scripts/verify_marker_sequence.py:63-69 | what can be undone are exactly the escaped texts |
| MarkerSequence.ParseOfReport | scripts/verify_marker_sequence.py:72-79 | the report text gives back exactly the list of patterns and line numbers |
| PacmanSnapshot.ParseSignedSnapshot | installer/calamares/modules/arachpacman/adapter.py:48-76 | accepts iff format, digests, archive names, distinctness and the package limit hold, and returns the described snapshot |
| PacmanSnapshot.DescribedExactlyWhen | installer/calamares/modules/arachpacman/adapter.py:48-76 | what a mapping must be to describe a snapshot, field by field and character by character |
| PacmanSnapshot.Stage.CopyRegularWithDigest | installer/calamares/modules/arachpacman/adapter.py:212-243 | the chunked copy equals its stream, stays within the limit, never overwrites, and leaves a prefix when it fails |
| PacmanSnapshot.Stage.StageAndAuthorize | installer/calamares/modules/arachpacman/adapter.py:108-151 | succeeds iff every input is authorized; then every staged archive still hashes to its signed digest and the stage holds nothing else |
| PacmanSnapshot.CommandInstallsWhatWasSigned | installer/calamares/modules/arachpacman/adapter.py:154-174 | the operands are exactly the staged archives, in signed order, each once, each with the signed digest |
| PacmanSnapshot.CommandStaysOnTarget | installer/calamares/modules/arachpacman/adapter.py:154-174 | the command has the target as root, its database under it, the stage as cache and the staged configuration; it is refused iff target or stage is unusable or the snapshot empty |

## Left out

- CrashTheorems.WholeRunCrashSafety: one boot file may stay new and a torn record stays unrecovered, because the code behaves so; which file and when is part of the statement.
- CrashTheorems.SuccessfulApplyVerifies: assumes the runtime documents are still at hand, as they are when apply returns.
- CrashSafety.RunInvariant: covers the operations of one installation; other transactions are open in it only while no `recover` runs, which `StackedRecovery` and the theorems about `recover` on any set of checkpoints cover.
- Superseded.SupersededRollbackOverwritesLater: both transactions run without interruption, and the two generations have different digests.
- StackedRecovery.StackedRecoverySucceedsExactlyWhen: two transactions, both completely applied; longer stacks and half-applied ones are not treated.
- Readiness.ValidateLedger: evidence, blockers, components, the documents' text and the tracker are one bit per gate; so the kind of error reported for a gate with several faults may differ.
- ReleaseChannels.Validate: of the policy's own fields only retention, soak, gates and evidence are modelled, the constant ones are not; formats, the advisory file and the release report are one bit per release; the built-in stable sort is a specification function with its permutation and order proved.
- PacmanSnapshot.Stage.StageAndAuthorize: the receipt check is one optional digest, and the private-directory checks are one flag.
- Installer.Machine.Apply: input/output errors are modelled during activation, where the code goes on after them; elsewhere an error stops the operation and equals a crash at that point.
- File-system detail: permissions, symbolic links, synchronisation, temporary names, created directories; what is neither absent nor a regular file is either a directory or something a rename replaces.
- The checkpoint directory is published by one rename (`src/installer.rs:1803-1824`), so its creation is one atomic write; temporary directories a crash leaves behind are not on the model's disk, only their hidden names, which the scan skips.
- A torn receipt, a torn backup beyond the empty file, and failures of rollback's own writes other than crashes.
- Corinth, Arach-HWD, gpgv, Pacman and the regular-expression engine beyond the contracts named above; loading of hardware profiles from disk.
- `src/lib.rs`, the component, workflow, threat-model, control-matrix and archiso validators: field-by-field checks with no property across functions.
- The Calamares modules other than the adapter, the shell scripts and image tooling.
