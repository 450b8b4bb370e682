# Verification model of the emergency security tooling

A Dafny 4.11 model of the parts of the repository that move, list, compare and judge files on a
production host, with machine-checked proofs about them. `dafny verify dfyconfig.toml` checks all of it.

The code it follows forms one chain. A native helper lists a document root and prints a snapshot; run
twice it prints the exact difference; Python programs parse both independently, turn the difference into
a signed diagnostic artifact, derive a policy from two such artifacts, and judge the listing against
rules and provenance records. A second native helper moves a bound set of files into quarantine as one
transaction, rolls it back, and reconciles it after a crash. The operator program builds the manifests
that bind that transaction and checks which packages may reopen a site.

## How it is modelled

**Quarantine (`Disk`, `Targets`, `Durability`, `Transaction`, `Recovery`, `Manifest`, `Package`, `Binding`).** The
filesystem is a value: names on the live and on the quarantine side, an inode table with kind, content
digest, size, mode, owner and link count. A `Machine` object holds the current state and the set of
states a power loss may leave (`images`). An oracle decides of each system call whether it completes,
fails, is where the power goes, or is where the process is killed, before or after its effect; a power loss
leaves one image and nothing pending, a killed process leaves the current state and everything that was
pending. A rename that was not yet synced may survive as old name only, new name only, or both names of one
inode with link count 2, and chmod and unlink may survive or not. fsync of a directory or a file discards
the images that disagree with it, so durability is a theorem and not an assumption. The `Helper` object has the original's fields (`targets`, `moved`, `mutation_started`,
held objects, parents, journal) and its methods follow the C functions call by call. "Settled" means
that a power loss now would leave exactly the current state; "Calm" means that no call from now on
fails; "Safe" means that every target is reachable from one of its two names in the current state and in
every image. A failed look is a call that only reads (stat, open, read, readdir) and fails; the ghost field
`blind` counts them, `BlindIn(n)` says that the next n calls complete and the one after them fails.
`Durability` follows state and images through the two loops of reconcile as functions.

**Inventory (`Text`, `Records`, `Sorting`, `Walk`, `Inventory`, `Agreement`, `Snapshot`).** The walk runs
over an arbitrary `World`: every answer of the operating system at every moment is arbitrary, so the tree
may be cyclic and may change under the walk. The helper's text rows are real strings, and the reader
`parse_inventory` is modelled check by check on those strings.

**Difference (`Drift`, `Diagnostic`, `RawPass`, `Runtime`, `Streams`, `DriftAgreement`, `Diagnosis`).** The
record cursors and the merge loop of `diagnostic_delta`, the printed stream, and `parse_raw_pass` as its
reader, including the runtime identity and the bootstrap audit line.

**Volatile policy (`Policy`, `Volatile`, `LogPrefix`, `Disposition`, `Admission`).** The policy token, the
helper's admission of two snapshots under it with its append-prefix proof, `derive`, which builds the token
from two observations, and the whole run from two walks to the admitted output.

**Security surface (`Evidence`, `Verdict`, `Survey`).** Provenance indexing, classification, counts and
verdict, and what a clean verdict says about the walked tree.

**SHA-256 (`Sha256`).** The streaming hasher of both helpers against the definition in sections 5.1.1,
5.2.1 and 6.2.2 of FIPS 180-4. Everywhere else a digest is an arbitrary function with 64-character
values. None is injective on all texts, so no lemma assumes that: where it matters, a lemma asks that the
texts in play do not collide, or concludes that two of them do.

**JSON (`Json`, `Loads`, `Artifact`, `JsonReader`, `Extraction`, `RoundTrip`, `Capture`).** Canonical
serialization, the field-by-field artifact writer, and the buffered reader, against one reference parser
for the grammar of sections 2 to 7 of RFC 8259; and the way from a parsed capture to its artifact and back.

**Reopen (`Reopen`).** Reservations of the reopen phase and the lineage they form.

## Where the code does less than one might expect

Where a member is named, it proves the statement.

- Exit 20 of rollback and reconcile does not mean that nothing moved, because only apply sets
  `mutation_started`: when only the read of the first restored file fails, both end in exit 20 with that file
  back at its live name (`Recovery.ExitTwentyMoved` for any quarantined set, `Recovery.ExitTwentyExample` for
  one concrete file). It does mean that as long as no look fails, and for rollback also whenever a parent or
  a target is not what the manifest binds, since it then stops before the reverse loop
  (`Transaction.Helper.RollbackTransaction`, `Transaction.Helper.ReconcileRollback`). Of apply it is true
  without a condition (`Transaction.Helper.ApplyTransaction`).
- The success line of reconcile is not always durable: a target found at its live name alone gets no
  directory fsync (native/exact-file-quarantine-helper.c:144). From a settled state it is durable; with
  one target's changes pending it is, unless that target is found at its live name alone, some image lacks
  it there, and every other target of its directory is found the same way
  (`Durability.ReconcileDurableIff`, on real runs `Recovery.ReconcilePending`). A file renamed back by a
  killed rollback is such a case (`Recovery.ReconcileUndurable`).
- `parse_manifest` accepts `./a` and `a` as two targets (`Binding.AliasAccepted`). With such aliases and
  two different bound modes reconcile prints a false success line (`Recovery.AliasesReported`); the line is
  true exactly when aliased rows bind one mode (`Transaction.Helper.ReconcileRollback`), and a package the
  operator accepts always does (`Binding.PackageTargets`). The input needs a persisted `manifest.hex` that
  no run of this helper wrote: apply dies with "duplicate physical target"
  (native/exact-file-quarantine-helper.c:124) before `write_bound_text` persists anything, and reconcile
  demands the persisted text (line 160).
- The path test of `parse_manifest` also refuses a normal path one of whose directories ends in two dots,
  such as `a../b` (`Package.PathAcceptedIff`), although the operator's own checks accept it.
- `parse_inventory` refuses a faithful snapshot when some time stamp lies before 1970, and any snapshot
  taken with a time cap other than 900 seconds (`Agreement.ReaderAccepts`).
- The helper's cursors refuse its own snapshot when an issue names a path of more than 4096 bytes, or
  when there are more than 200000 issues (`Streams.IssueStream`). Rows are always readable, because the walk
  leaves an issue and no row for a longer path (`Streams.EntryStream`).
- The helper can die with "mismatch not fully explainable" on two honest snapshots of one run. It does so
  exactly when they differ in more than 200000 rows or in more than 200000 issues, unless a cap of
  `lines_add` (native/displaced-inventory-helper.c:123) stops it before, while it collects the differences;
  and never for want of a difference (`Diagnosis.UnexplainedIff`, `Diagnosis.MismatchExplained`). No such cap
  is met while every printed difference is shorter than 314 bytes (`Diagnosis.ShortGathered`). The rows of
  both together being within 200000, and the issues likewise, rules the message out
  (`Diagnosis.FewAreExplained`); two snapshots of more rows than that which share only the root end in it or
  in that earlier cap (`Diagnosis.ManyAreUnexplained`).
- A drifting `A` rule is never admitted, and `derive` accepts a log suffix in any letter case while the
  helper wants lower case (`Disposition.RuleMeets`). A drifting `C` rule does not ask for a regular file.
- With 64 provenance rows and the extra high-sensitivity path, `derive` writes a token of 65 rules, which
  the helper refuses (`Disposition.DerivedTokenRead`).
- A provenance record whose path is a directory in the inventory is neither an object nor reported
  missing (`Verdict.AbsentObjects` covers exactly the records whose path is not listed at all).
- The artifact has no `delta_count` and no `issue_delta_count` member (`Artifact.WriteArtifact`).
- `extract_bindings` refuses the empty object, which a full parse accepts (`Extraction.ExtractAgrees` is
  therefore stated for the texts it accepts, and `Extraction.ExtractWritten` for nonempty objects).

## Model

| member | source | states |
|---|---|---|
| Disk.Machine.Rename | native/exact-file-quarantine-helper.c:129 | A no-replace rename completes only onto a free name, fails without a change, is lost with the power into one of: old name, new name, both names of one inode, or is killed with its effect or without it and everything pending still pending |
| Disk.Machine.SyncDirectory | native/exact-file-quarantine-helper.c:126-129 | Fsync of a directory leaves only the power-loss images that have its current entries; a failed fsync leaves all of them |
| Disk.SingleLink | native/exact-file-quarantine-helper.c:86 | In a filesystem whose link counts are right, a file with link count 1 has one name |
| Targets.BoundAfterRename | native/exact-file-quarantine-helper.c:126-129 | Renaming one target either way, completed or torn, keeps every target recoverable in the new state and in every power-loss image |
| Targets.BoundAfterChmod | native/exact-file-quarantine-helper.c:126-142 | Re-moding one target to 0400 or its bound mode, completed or torn, keeps every target recoverable in the new state and in every power-loss image |
| Targets.BoundAfterUnlink | native/exact-file-quarantine-helper.c:142 | The single unlink, allowed only while both names are one inode with link count 2, keeps every target recoverable in the new state and in every power-loss image |
| Targets.OriginalIsBound | native/exact-file-quarantine-helper.c:128 | Before the first move every target is recoverable, so the closure above starts from every admitted state |
| Targets.RestoreSettles | native/exact-file-quarantine-helper.c:126 | Chmod, fsync, rename back and two directory fsyncs, begun with anything of this target pending, leave exactly one possible image: the restored state |
| Targets.MoveSettles | native/exact-file-quarantine-helper.c:129 | The move and its two directory fsyncs leave exactly one possible image |
| Targets.UnlinkSettles | native/exact-file-quarantine-helper.c:142 | The recovery unlink and its directory fsync leave exactly one possible image |
| Targets.ChmodSettles | native/exact-file-quarantine-helper.c:126-129 | A chmod and its fsync leave exactly one possible image |
| Targets.RestoreUndoesMove | native/exact-file-quarantine-helper.c:126-129 | Restoring one moved target gives back the filesystem value before the move, with or without the 0400 chmod |
| Targets.RollbackInvertsApply | native/exact-file-quarantine-helper.c:126-137 | Restoring all targets in reverse order after moving all of them in order gives back the very filesystem value before apply |
| Targets.RestoreFindsAll | native/exact-file-quarantine-helper.c:137 | From a state where all targets are quarantined and are different objects, no restore in the reverse loop is blocked by another target |
| Targets.RestoredAreOriginal | native/exact-file-quarantine-helper.c:137 | After the reverse loop all restored targets are exact at their live names at once: later restores never disturb earlier ones, by link count 1 or by distinct objects |
| Targets.AliasesDefeatEachOther | native/exact-file-quarantine-helper.c:138-147 | Two rows for one name with different modes: reconcile's own steps settle both in turn, yet the first is no longer exact at the end |
| Targets.OriginalModesAgree | native/exact-file-quarantine-helper.c:97-147 | All rows can be exact at once only if aliased rows bind the same mode |
| Transaction.SettleStagePreserves | native/exact-file-quarantine-helper.c:138-147 | Whatever prefix of reconcile's steps on one target has happened, no file object lost its last name and no content, owner or kind changed |
| Transaction.StagePreserves | native/exact-file-quarantine-helper.c:126 | Whatever prefix of restore_one has happened, no file object lost its last name and no content, owner or kind changed |
| Transaction.Helper.AbsentAt | native/exact-file-quarantine-helper.c:85 | Answers exactly whether the name is free, or dies; never changes anything |
| Transaction.Helper.OpenExact | native/exact-file-quarantine-helper.c:86-87 | Accepts only a regular single-link file with the bound identity, owner, size, mode and digest; undisturbed it accepts every such file |
| Transaction.Helper.OpenForRecovery | native/exact-file-quarantine-helper.c:88-89 | Accepts only the bound object with bound bytes and owner, one of the two modes, and an allowed link count |
| Transaction.Helper.RestoreOne | native/exact-file-quarantine-helper.c:126 | Success means the target was only in quarantine and is now exactly restored and durable; failure leaves a prefix of the steps; undisturbed it succeeds |
| Transaction.Helper.PrepareLive | native/exact-file-quarantine-helper.c:124 | Undisturbed it passes exactly when every target is exact under its bound parent; it holds those objects and changes nothing |
| Transaction.Helper.PrepareQuarantine | native/exact-file-quarantine-helper.c:125 | Undisturbed it passes exactly when every quarantine name is free, and afterwards each target has a quarantine parent on the root device |
| Transaction.Helper.Journal | native/exact-file-quarantine-helper.c:93 | The journal grows by exactly this row or not at all, and the filesystem stays |
| Transaction.Helper.Begin | native/exact-file-quarantine-helper.c:128 | Nothing has moved when BEGIN is written, and from BEGIN on the prepared state, manifests and parents exist |
| Transaction.Helper.QuarantineOne | native/exact-file-quarantine-helper.c:129 | One target moved, re-moded, verified and durable; or nothing happened; or it is half moved with its moved flag and mutation_started set |
| Transaction.Helper.MoveAll | native/exact-file-quarantine-helper.c:129 | After k targets the state is the value with exactly the first k moved, the journal is BEGIN and k MOVED rows, and every target stays recoverable |
| Transaction.Helper.Compensate | native/exact-file-quarantine-helper.c:131-133 | Never reports success; exit 20 only with the original state back and durable, anything else is reported as partial |
| Transaction.Helper.Commit | native/exact-file-quarantine-helper.c:130 | COMMITTED is journalled before the success line, and a failure after the moves can never end in exit 20 |
| Transaction.Helper.ApplyTransaction | native/exact-file-quarantine-helper.c:127-134 | The success line means every target moved at 0400, durably and journalled; exit 20 means the very state before, durably; every other reported end is partial, and from BEGIN on it can be reconciled; undisturbed it succeeds exactly when all targets are exact and all quarantine names free |
| Transaction.Helper.OpenQuarantineTargets | native/exact-file-quarantine-helper.c:135 | Undisturbed it succeeds when all bound parents are there; it moves nothing |
| Transaction.Helper.ObserveState | native/exact-file-quarantine-helper.c:136 | A success line means all targets at once are exact on the named side with the other name free; undisturbed exactly then; nothing changes |
| Transaction.Helper.RollbackPreflight | native/exact-file-quarantine-helper.c:137 | A failure in the preflight loop has moved nothing; undisturbed it passes exactly when all targets are exact in quarantine |
| Transaction.Helper.RollbackTransaction | native/exact-file-quarantine-helper.c:137 | Success from any state means all targets were exact in quarantine and all are exact at their live names, durably; undisturbed it succeeds exactly then; no object is ever lost; exit 20 after a change needs a failed look, with all parents bound and all targets exact in quarantine at the start |
| Transaction.Helper.RestoreAll | native/exact-file-quarantine-helper.c:137 | The reverse loop ends in the specified filesystem value or stops with every object still reachable, with exit 20 only after a failed look |
| Transaction.Helper.ReconcileOne | native/exact-file-quarantine-helper.c:140-146 | One target, in any state: settled at its live name, left for the reverse loop, or stopped after a prefix of the steps; undisturbed the answer follows from where the object is |
| Transaction.Helper.ReconcileBoth | native/exact-file-quarantine-helper.c:142 | The both-names state with link count 2 loses only the quarantine name, and only after both opens showed the same inode |
| Transaction.Helper.ReconcileLive | native/exact-file-quarantine-helper.c:144 | The live crash state, in either mode, becomes the exact original |
| Transaction.Helper.ReconcileNames | native/exact-file-quarantine-helper.c:138-146 | The forward loop leaves each target either original or marked for the reverse loop, keeps all targets recoverable, ends in exit 20 only by a failed look, and succeeds undisturbed |
| Transaction.Helper.RestoreMoved | native/exact-file-quarantine-helper.c:147 | The reverse loop makes all targets original without disturbing those already verified; with exit 20 only after a failed look |
| Transaction.Helper.ReconcileRollback | native/exact-file-quarantine-helper.c:138-149 | A success line from any state is sound for all targets exactly when aliased rows agree in mode; no object is ever lost; from every recoverable state, undisturbed, it succeeds; exit 20 after a change needs a failed look; state and images at a success line are exactly those of the two loops |
| Recovery.RunOnce | native/exact-file-quarantine-helper.c:126-149 | One rollback, reconcile or observation process, disturbed anywhere, stays inside the recoverable states, and its success line is true |
| Recovery.RecoverRepeatedly | native/exact-file-quarantine-helper.c:126-149 | Any mixture of rollback, reconcile and observation runs that fail or crash anywhere stays inside the recoverable states, and the first undisturbed reconcile restores every target |
| Recovery.ApplyThenRecover | native/exact-file-quarantine-helper.c:126-149 | Whatever happened to apply: before BEGIN nothing moved, and from BEGIN on an undisturbed reconcile brings back every target exact, whatever rollbacks, reconciles and observations were disturbed in between |
| Recovery.AliasesReported | native/exact-file-quarantine-helper.c:138-149 | An undisturbed reconcile over two rows for one name with different modes prints its success line although the first row is not exact |
| Recovery.ExitTwentyMoved | native/exact-file-quarantine-helper.c:126-149 | Rollback or reconcile of any quarantined set in which all calls complete up to the read of the first restored file, and that fails: exit 20, and the file is exact at its live name |
| Recovery.ExitTwentyExample | native/exact-file-quarantine-helper.c:126-149 | The same on one concrete file and a concrete answer to every call |
| Recovery.ReconcilePending | native/exact-file-quarantine-helper.c:138-149 | A reconcile begun with one target's changes pending: all targets are exact at its success line, and durably exactly unless that target was found at its live name alone, an image lacks it there, and no other target of its directory was found elsewhere |
| Recovery.ReconcileUndurable | native/exact-file-quarantine-helper.c:144 | After a rename back without its directory fsyncs, an undisturbed reconcile prints its success line and the file may still be lost from its live name |
| Durability.ReconcileDurableIff | native/exact-file-quarantine-helper.c:138-149 | From every recoverable state with one target's changes pending, every image after the two loops is original exactly under that condition |
| Durability.WaitsIff | native/exact-file-quarantine-helper.c:138-146 | Of different objects, the reverse loop is left exactly those found in quarantine alone at the start |
| Durability.BackwardFinds | native/exact-file-quarantine-helper.c:147 | From recoverable states the reverse loop finds every target left to it |
| Durability.BackwardTame | native/exact-file-quarantine-helper.c:138-147 | The value of the two loops has every target original, for different objects, or for right link counts and aliased rows of one mode |
| Recovery.ApplyThenRollback | native/exact-file-quarantine-helper.c:126-137 | Rollback after a successful apply gives back the very filesystem value before it, durably, and undisturbed it succeeds |
| Manifest.FieldsOf | native/exact-file-quarantine-helper.c:97 | The strtok_r loop over one line finds eight fields exactly when the line has eight nonempty pieces, and then those |
| Manifest.ParseManifest | native/exact-file-quarantine-helper.c:97 | The one-pass parser accepts exactly the texts whose lines are 1 to 64 valid rows with strictly rising paths and whose digest matches, and returns those rows |
| Manifest.ParseParentManifest | native/exact-file-quarantine-helper.c:99-107 | Exactly one pair of numbers for each target, or nothing |
| Package.ExactFileManifests | lib/emergency-operator-v1.py:171-187 | The two texts are the rows and the parents of the actions, one line each, in order |
| Package.PathAcceptedIff | native/exact-file-quarantine-helper.c:97 | Of the normal relative paths the C test accepts exactly those of at most 4096 bytes with no directory name that ends in two dots |
| Package.LineRead | native/exact-file-quarantine-helper.c:97 | One row of the text reads back as the same path, digest, size, mode, owner and object exactly when the action fits the C ranges |
| Package.RelativeOrder | lib/emergency-operator-v1.py:1485-1488 | Under one root, the order of full paths is the order of relative paths |
| Package.ManifestRoundTrip | lib/emergency-operator-v1.py:171-187 | Parsing the built target text gives back the same targets exactly when there is at least one, the text is within the cap and every action fits the C bounds; otherwise the helper refuses it |
| Package.ParentsRoundTrip | lib/emergency-operator-v1.py:171-187 | Parsing the built parent text gives back the same parents exactly when it is within the cap and every number fits 64 bits |
| Binding.PackageTargets | lib/emergency-operator-v1.py:1485-1493 | Targets of an accepted package are distinct objects with distinct live and quarantine names, so every premise of the transaction theorems holds for them |
| Binding.NormalPlaces | native/exact-file-quarantine-helper.c:90 | Two different normal paths lead to different directory entries |
| Text.CanonicalInverse | lib/emergency-operator-v1.py:712-713 | A decimal text without leading zeros is determined by its number, so distinct device or inode texts are distinct identities |
| Binding.AliasAccepted | native/exact-file-quarantine-helper.c:97 | For every accepted path p, ./p is also accepted, is another text, and names the same entry |
| Sha256.PadLength | native/displaced-inventory-helper.c:89 | The padding reaches a whole number of blocks with the least number of zero bytes |
| Sha256.ChainAppend | native/displaced-inventory-helper.c:79-88 | Hashing one more block continues the chain |
| Sha256.Hasher.Schedule | native/displaced-inventory-helper.c:79-86 | The 64 words of the message schedule |
| Sha256.Hasher.Block | native/displaced-inventory-helper.c:79-86 | One block is one compression of section 6.2.2 |
| Sha256.Hasher.Update | native/displaced-inventory-helper.c:88 | Any split of the input into updates means the concatenated message |
| Sha256.Hasher.Finish | native/displaced-inventory-helper.c:89 | Finish gives the digest of the whole message, including the two-block case when more than 56 bytes are used |
| Sha256.HashBytes | native/exact-file-quarantine-helper.c:83 | The one-shot form is the digest |
| Sha256.HashDescriptor | native/exact-file-quarantine-helper.c:84 | For any sequence of short reads and interruptions a result is the digest of the whole file, and with working reads there is one |
| Text.UnhexHex | native/displaced-inventory-helper.c:125 | Hex encoding is inverted by hex decoding |
| Text.HexUnhex | native/displaced-inventory-helper.c:377 | Hex decoding of lower-case hex text is inverted by hex encoding |
| Text.HexOrder | native/displaced-inventory-helper.c:125 | Hex encoding preserves byte order both ways |
| Text.SplitJoin | native/displaced-inventory-helper.c:199-205 | Splitting joined fields at the separator gives the fields back |
| Text.PiecesJoin | native/exact-file-quarantine-helper.c:97 | Strtok_r splitting gives joined nonempty fields back |
| Text.JoinOrder | native/displaced-inventory-helper.c:257-269 | When the separator sorts below every field character, whole-line order is field-by-field order |
| Text.DecimalRoundTrip | lib/native-drift-diagnostic.py:205-213 | Printed numbers are canonical and read back |
| Text.OctalRoundTrip | native/displaced-inventory-helper.c:178 | Printed modes are 3 or 4 octal digits and read back |
| Records.EntryLineSplits | native/displaced-inventory-helper.c:178 | An ENTRY row splits into its sixteen fields |
| Records.EntryLineOrder | native/displaced-inventory-helper.c:178 | Row order is relative-path byte order, and also hex-path order |
| Records.IssueLineOrder | native/displaced-inventory-helper.c:145 | Whole-line order of issues is the order of (reason, path, digest) tuples |
| Records.RelativeInjective | native/displaced-inventory-helper.c:161 | Different component lists are different relative paths |
| Sorting.SortAscends | native/displaced-inventory-helper.c:190 | Sorting by a key that differs on all items is strictly ascending |
| Walk.CountersAddUp | native/displaced-inventory-helper.c:171-179 | Entries = directories + files + other |
| Walk.Walker.Issued | native/displaced-inventory-helper.c:145 | An issue is recorded exactly when the output and line caps allow it, else the helper dies |
| Walk.Walker.HashRegular | native/displaced-inventory-helper.c:162-167 | A digest is always that of one read of exactly the stated size; every other outcome leaves an issue at the path |
| Walk.Walker.ReadNames | native/displaced-inventory-helper.c:148-157 | Sorted safe names of one complete listing, or an issue |
| Walk.Walker.Evidence | native/displaced-inventory-helper.c:171-179 | What is known of one object, with an issue for each gap: not hashed, hard-linked, special or a symbolic link |
| Walk.Walker.Visit | native/displaced-inventory-helper.c:171-179 | One object adds exactly one row with its counters, and stopping always leaves an issue |
| Walk.Walker.Enter | native/displaced-inventory-helper.c:179-187 | A directory identity is expanded at most once, and a directory not entered leaves an issue |
| Walk.Walker.Expand | native/displaced-inventory-helper.c:181-187 | Without a new issue every name of one complete listing has its row |
| Walk.Walker.WalkAt | native/displaced-inventory-helper.c:171-187 | On any graph of directories the walk ends, reports no path twice, at most 200000 rows, only below its own path; and without an issue everything below was listed and reported |
| Agreement.EntryRowIff | lib/read-only-security-surface.py:164-177 | A printed row passes the reader's row checks exactly when its times are not negative |
| Agreement.EntryConsistentHolds | lib/read-only-security-surface.py:216-231 | A printed row passes the reader's cross checks against the issues, the absolute path and the uploads flag |
| Agreement.LinesAscend | native/displaced-inventory-helper.c:193-197 | The printed lines are strictly ascending |
| Agreement.CountsAgree | lib/read-only-security-surface.py:207-213 | All eight counts the reader derives are the walk's counters |
| Agreement.ReaderAccepts | lib/read-only-security-surface.py:148-244 | The reader accepts a snapshot exactly when all times are non-negative and the time cap is 900 seconds |
| Snapshot.DropRepeats | native/displaced-inventory-helper.c:190 | Duplicate issues are dropped, none is lost, and the rest is strictly ascending |
| Snapshot.Order | native/displaced-inventory-helper.c:190 | Sorting and deduplication keep rows, counters and every gap's issue |
| Snapshot.Print | native/displaced-inventory-helper.c:191-197 | The printed text is rows, bindings, summary and issues in one strictly sorted list |
| Snapshot.TakeSnapshot | native/displaced-inventory-helper.c:188-198 | What any run prints is the sorted text of its rows, within the output cap, and the reader accepts it exactly when times are non-negative and the cap is 900 seconds; every digest was taken of bytes one read returned; when it says complete, every directory was listed completely and every name reported |
| Snapshot.ParseInventory | lib/read-only-security-surface.py:148-244 | The one-pass reader accepts exactly the texts that meet all its checks |
| Snapshot.SummaryDetermined | lib/read-only-security-surface.py:196-236 | For given rows the reader accepts exactly one summary row: counts, coverage, commitment and caps are determined to the digit |
| Snapshot.AcceptedDetermined | lib/read-only-security-surface.py:148-244 | Two accepted texts with the same entries, issues, root and runtime are the same text: no other summary, order or extra line passes |
| Drift.RowsExactly | native/displaced-inventory-helper.c:245-269 | A cursor yields exactly the rows of its kind when all are well formed and strictly ascending, else it fails |
| Drift.Cursor.Next | native/displaced-inventory-helper.c:217-256 | One cursor step returns the next record and leaves the rest |
| Drift.MergeStreams | native/displaced-inventory-helper.c:337-350 | The merge loop fails exactly when a stream is malformed, and otherwise returns the specified difference |
| Drift.MergeExact | native/displaced-inventory-helper.c:337-350 | For every path: a record exists exactly when the two rows differ, with exactly those two rows |
| Drift.MergeAscends | native/displaced-inventory-helper.c:337-350 | Records come in strict path order |
| Drift.MergeCount | native/displaced-inventory-helper.c:337-350 | There are at most as many records as rows on both sides |
| Drift.MergeDisjoint | native/displaced-inventory-helper.c:337-350 | Streams without a common path give one record for every row |
| Drift.PatchRestores | native/displaced-inventory-helper.c:337-350 | Patching the first stream with the records gives the second |
| Diagnostic.MergeFrom | native/displaced-inventory-helper.c:337-350 | Each record has at least one side, two different sides, and both of one path |
| Diagnostic.DiagnosticDelta | native/displaced-inventory-helper.c:331-359 | The helper prints a report exactly when the texts differ, are bound to one root and runtime, are readable and the report is within its caps, and then exactly that report; it dies with "mismatch not fully explainable" exactly when the differences could be collected and their counts are zero or above a cap |
| RawPass.ParseDeltas | lib/native-drift-diagnostic.py:362-386 | Accepts exactly rows that are each valid and strictly ascending by decoded path, and returns their records |
| RawPass.ParseIssues | lib/native-drift-diagnostic.py:389-399 | Accepts exactly rows that are each valid and strictly ascending by tuple, and returns their records |
| RawPass.ParseRawPass | lib/native-drift-diagnostic.py:402-483 | Accepts exactly the framed streams with nonce, header, a valid runtime identity, announced counts, both blocks and the trailing line that runtime requires, and returns both record lists |
| Runtime.AuditDetermined | lib/native-drift-diagnostic.py:456-483 | An ephemeral capture has one audit line up to the digest of the private stage, the one field nothing binds |
| Streams.EntryFits | native/displaced-inventory-helper.c:226-229 | Every ENTRY row the walk can make fits the helper's line buffer |
| Streams.EntryStream | native/displaced-inventory-helper.c:245-256 | The cursor reads exactly the rows of every snapshot |
| Streams.IssueStream | native/displaced-inventory-helper.c:257-269 | The cursor reads exactly the issues, if and only if paths are short enough and there are at most 200000 |
| Streams.RootAndRuntime | native/displaced-inventory-helper.c:230-244 | The binding parser finds exactly the printed ROOT and RUNTIME rows |
| DriftAgreement.ColumnsRead | lib/native-drift-diagnostic.py:223-253 | The thirteen printed columns of a state read back as that state |
| DriftAgreement.RowTextRestores | lib/native-drift-diagnostic.py:223-253 | A state and its path determine the whole ENTRY row |
| DriftAgreement.StateDetermines | lib/native-drift-diagnostic.py:223-253 | Equal states at one path are equal rows |
| DriftAgreement.ChangeAgrees | native/displaced-inventory-helper.c:270-275 | The helper's CREATED, DELETED, REPLACED or MODIFIED is what the reader derives from the two states |
| DriftAgreement.DeltaAccepted | lib/native-drift-diagnostic.py:362-386 | Every printed DRIFT row is accepted and read back as its two states and change |
| DriftAgreement.DriftFramed | lib/native-drift-diagnostic.py:104-119 | Every printed DRIFT line is printable ASCII within the reader's line cap |
| DriftAgreement.DeltasAccepted | lib/native-drift-diagnostic.py:438-455 | The whole DRIFT block is accepted in order and rebuilds exactly the helper's difference |
| Diagnosis.IssuesAccepted | lib/native-drift-diagnostic.py:438-455 | The whole DRIFT_ISSUE block is accepted in tuple order and rebuilds exactly the helper's difference |
| Diagnosis.HeaderAccepted | lib/native-drift-diagnostic.py:402-437 | The printed header passes the reader's header checks and announces the true counts |
| Diagnosis.StreamAccepted | lib/native-drift-diagnostic.py:402-483 | Every report printed within the caps, with what its launcher appends, is accepted by parse_raw_pass and reads back as exactly the difference |
| Diagnosis.OneRunReads | native/displaced-inventory-helper.c:230-269 | Two snapshots of one run are bound alike and readable by the cursors |
| Diagnosis.ReportPatches | native/displaced-inventory-helper.c:337-350 | The reported records turn the first snapshot's rows and issues into the second's |
| Diagnosis.MismatchExplained | native/displaced-inventory-helper.c:351 | In one run the texts are equal exactly when there is nothing to report |
| Diagnosis.UnexplainedIff | native/displaced-inventory-helper.c:351 | For two different snapshots of one run the counts fail the check exactly when the differing rows or the differing issues are more than 200000, and the helper dies there exactly when they do and lines_add could collect them |
| Diagnosis.ShortGathered | native/displaced-inventory-helper.c:123 | While every printed difference is shorter than 314 bytes, both lists can be collected |
| Diagnosis.FewAreExplained | native/displaced-inventory-helper.c:351 | It does not while the rows of both, and the issues of both, are within 200000 together |
| Diagnosis.ManyAreUnexplained | native/displaced-inventory-helper.c:351 | The counts fail the check when there are more rows than that and only the root is in both; the helper then dies there exactly when the differences could be collected |
| Diagnosis.Diagnose | native/displaced-inventory-helper.c:429 | Two arbitrary walks, the difference and its reader: whatever is printed is accepted, reads back exactly, and patches the first snapshot into the second |
| Policy.ParseVolatilePolicy | native/displaced-inventory-helper.c:281-289 | The loop accepts exactly the tokens of valid, strictly ascending rules within its caps |
| Policy.TokenInverse | lib/volatile-runtime-disposition.py:677-702 | Parsing a built token gives the rules back exactly when there are at most 64 |
| Policy.ParsedForm | native/displaced-inventory-helper.c:281-289 | Accepted rules are ascending, valid and at most 64 |
| Volatile.CountIssues | native/displaced-inventory-helper.c:309-330 | Counts unresolved rows; zero exactly when there are none |
| Volatile.CheckRows | native/displaced-inventory-helper.c:309-330 | The pairing loop passes exactly when paths coincide and each pair is allowed, and marks exactly the present and the changed rule paths |
| LogPrefix.HashPrefix | native/displaced-inventory-helper.c:305 | Over reads of any length the loop gives the digest of exactly the old size from the start of the file, or dies when a read gives nothing before that |
| LogPrefix.ReachesLong | native/displaced-inventory-helper.c:305 | The reads reach the old size only in a file of at least that size, and always there when none of them fails |
| LogPrefix.VerifyLogPrefix | native/displaced-inventory-helper.c:299-308 | Passes exactly when the opened file is the second row's object, unchanged during the check, and its first bytes have the first row's size and digest |
| LogPrefix.AppendOnly | native/displaced-inventory-helper.c:299-308 | After a passed check the file still begins with the bytes hashed before, or these and the bytes now in their place collide |
| Volatile.EmitVolatile | native/displaced-inventory-helper.c:309-330 | The emission succeeds exactly when the token parses, both snapshots are free of unresolved rows, paths coincide, each changed entry meets its rule, each unchanged rule target is valid, every rule is present, and the output fits; and then exactly that output |
| Volatile.DriftConfined | native/displaced-inventory-helper.c:309-330 | After an admission the exact difference has no created or deleted path, and every changed path has a C or L rule |
| Disposition.FieldsAgree | lib/native-drift-diagnostic.py:223-253 | Two rows agree in a column exactly when the two parsed states agree in it |
| Disposition.CtimeAgrees | native/displaced-inventory-helper.c:292 | The helper's ctime-only test on rows is the Python test on states |
| Disposition.GrowthAgrees | native/displaced-inventory-helper.c:293-298 | The helper's log-growth test on rows, as a condition on the two parsed states |
| Disposition.RuleMeets | lib/volatile-runtime-disposition.py:198-225 | For a change derive accepts, the helper's rule admits it exactly: always for C, with the .log suffix and the prefix proof for L, never for A |
| Disposition.RefusedAlike | lib/volatile-runtime-disposition.py:198-225 | A change of a regular file that derive refuses is refused by the helper under every rule |
| Disposition.DecodeRelCanonical | lib/volatile-runtime-disposition.py:75-81 | Decode_rel accepts exactly the nonempty canonical relative hex paths of the helper |
| Disposition.CheckRepeated | lib/volatile-runtime-disposition.py:651-661 | The path-by-path comparison passes exactly when both observations have the same paths and behaviours and the second began where the first ended |
| Disposition.TokenParts | lib/volatile-runtime-disposition.py:677-699 | The loop over the sorted paths gives one part for each rule exactly when every path fits its provenance role and the configuration file was stable |
| Disposition.IndexRows | lib/volatile-runtime-disposition.py:639-650 | Indexing succeeds exactly on rows with distinct paths, valid paths and known behaviour |
| Disposition.DeriveToken | lib/volatile-runtime-disposition.py:639-702 | The loops over both observations give a token exactly when these justify it and it fits, and then one rule for each drifted path in path order |
| Disposition.DerivedTokenRead | lib/volatile-runtime-disposition.py:614-702 | The helper reads back exactly the derived rules, except for 64 provenance rows and the high-sensitivity path together |
| Disposition.ObservationChain | lib/volatile-runtime-disposition.py:653-661 | Over both observations a ctime-only path kept everything else, and a log kept its identity and grew twice |
| Admission.PairIs | native/displaced-inventory-helper.c:309-330 | The helper's check of one pair of rows under derived rules, as a statement about the observed record and the two states |
| Admission.AdmissibleIff | native/displaced-inventory-helper.c:309-330 | Two printed snapshots pass under derived rules exactly when nothing is unresolved, the root object and the paths are the same, every change is one the record of its path lets through, and every observed path is still there |
| Admission.AdmittedHarmless | native/displaced-inventory-helper.c:299-330 | Every admitted change is of ctime alone, or a log that kept its identity and still begins with the bytes the first walk hashed, up to a collision of the digest |
| Admission.Admit | native/displaced-inventory-helper.c:309-330 | From two observations and two arbitrary walks: finished walks are admitted exactly when the policy is granted and AdmissibleIff holds; then both listed every directory completely, no path came or went, every change is harmless, and the output is the second snapshot with one line for each observed path |
| Evidence.CheckProvenance | lib/read-only-security-surface.py:395-435 | Records are accepted exactly when they bind this inventory's commitment, are each valid and strictly ordered; the index is then exactly the records |
| Evidence.CommitmentBinds | lib/read-only-security-surface.py:390-392 | Unless the two committed texts collide, equal commitments name the same regular files with the same digests |
| Verdict.Classify | lib/read-only-security-surface.py:438-480 | The loop body over rules and record gives the specified judgement of one hashed regular entry |
| Verdict.NoDowngrade | lib/read-only-security-surface.py:438-480 | No provenance record changes whether ACTION_REQUIRED is the outcome, nor its disposition, and none removes a rule that fired |
| Verdict.EntryObjects | lib/read-only-security-surface.py:502-507 | Exactly one object for each hashed regular entry, with the record of its own path |
| Verdict.AbsentObjects | lib/read-only-security-surface.py:508-518 | Exactly one object for each record whose path is not listed |
| Verdict.CountsSum | lib/read-only-security-surface.py:520-525 | The three counts add up to the number of objects |
| Verdict.CleanMeans | lib/read-only-security-surface.py:438-525 | No action and nothing unresolved exactly when every hashed regular file has a matching record and no rule fires, and no record is missing its file |
| Verdict.DeriveSurface | lib/read-only-security-surface.py:502-525 | Objects are sorted, without duplicates and exactly those of the inputs; the counts are exact; the clean state exactly under coverage and CleanMeans |
| Survey.CleanInventory | lib/read-only-security-surface.py:216-231 | In an accepted inventory without unresolved rows every entry is a directory or a hashed single-link regular file, and with settled objects each file matches its record |
| Survey.SurveyTree | lib/read-only-security-surface.py:483-548 | COMPLETE_NO_ACTION for a real walk: every directory was listed completely, and every reported object is a directory or a single-link file whose digest was taken of bytes the walk read, a record confirms it and no rule names it |
| Json.ScanQuoted | lib/native-drift-diagnostic.py:153-154 | Every escaped string reads back |
| Json.CanonIsCanonical | lib/volatile-runtime-disposition.py:29-30 | The sorted form has strictly sorted keys at every level |
| Json.CanonKeeps | lib/volatile-runtime-disposition.py:29-30 | A canonical value is its own sorted form |
| Loads.ParseDump | lib/native-drift-diagnostic.py:153-154 | Parsing the text of any value gives the value and stops exactly behind it, under any caps it fits |
| Loads.CapsAgree | lib/native-drift-diagnostic.py:607-716 | What the capped grammar accepts, the full parse reads alike |
| Loads.CanonicalLoads | lib/volatile-runtime-disposition.py:64-72 | Load_json accepts every canonical text and returns its value |
| Artifact.BoundedWriter.Write | lib/native-drift-diagnostic.py:141-150 | Short writes are continued; within the cap and without a failing call everything is written |
| Artifact.Items | lib/native-drift-diagnostic.py:556-570 | Any number of parsed records is written as one list, with a comma before each but the first |
| Artifact.KeysInOrder | lib/native-drift-diagnostic.py:551-594 | The literal order of the members is the sorted order of their keys |
| Artifact.StreamIsCanonical | lib/volatile-runtime-disposition.py:29-30 | The streamed members add up to the sorted-key canonical text of the whole object |
| Artifact.WriteArtifact | lib/native-drift-diagnostic.py:539-594 | The bytes written around two lists of parsed records are that text, and load_json accepts them; when no write call fails it finishes for every artifact within the byte cap |
| JsonReader.ScanCloses | lib/native-drift-diagnostic.py:652-677 | The end of a string literal can be found without decoding it |
| JsonReader.JsonStream.Fill | lib/native-drift-diagnostic.py:617-631 | Refilling never changes what is left to read, whatever the chunk sizes |
| JsonReader.JsonStream.StringLiteral | lib/native-drift-diagnostic.py:652-677 | Reads exactly one string of the reference grammar, with escapes in either case and surrogate pairs, or fails exactly where it does |
| JsonReader.JsonStream.Literal | lib/native-drift-diagnostic.py:679-689 | Reads exactly one integer, floating-point number, NaN, infinity or literal, on every text without NUL bytes or byte order marks in that token |
| JsonReader.JsonStream.Skip | lib/native-drift-diagnostic.py:691-715 | Consumes exactly one value of the reference grammar within depth and size caps, on every chunking of every text without lone surrogate escapes and without NUL bytes or byte order marks in a scalar |
| Extraction.ExtractBindings | lib/native-drift-diagnostic.py:736-766 | The result depends on the text alone, not on its chunks |
| Extraction.ExtractAgrees | lib/native-drift-diagnostic.py:736-766 | What is extracted is what a full parse finds under those keys, and the top-level keys are distinct |
| Extraction.ExtractWritten | lib/native-drift-diagnostic.py:736-766 | On the text of any nonempty object within the caps, extraction succeeds exactly when the six bindings are usable |
| Extraction.CollectedAt | lib/native-drift-diagnostic.py:736-766 | Each wanted member appears in the result with its own value |
| RoundTrip.WrittenBindings | lib/native-drift-diagnostic.py:539-766 | From the artifact as written, within the stream's caps, extraction gives exactly the bindings of the metadata, for any number of records |
| Reopen.DumpInjective | lib/emergency-operator-v1.py:160-162 | Two values with one canonical text are one value |
| Reopen.CommitmentBinds | lib/emergency-operator-v1.py:839-847 | Where no two texts in play collide, the reservation's commitment determines the whole package except its own reservation reference |
| Reopen.PlaceIsPredecessor | lib/emergency-operator-v1.py:1134-1159 | Two accepted packages share a reservation path exactly when they share the predecessor, or both have none |
| Reopen.NoFork | lib/emergency-operator-v1.py:1134-1369 | In one filesystem state, where no two texts in play collide, two accepted packages of one source with the same predecessor are the same package |
| Reopen.OneLine | lib/emergency-operator-v1.py:1134-1369 | Where no two texts in play collide, any two lineages of one source consist of the same packages as far as both go |
| Reopen.AcceptedExtends | lib/emergency-operator-v1.py:1134-1369 | An accepted package extends its predecessor's lineage, with a new operation and no earlier creation time |
| Reopen.LineageExists | lib/emergency-operator-v1.py:1134-1369 | A concrete filesystem, source and two packages meet all premises of NoFork, OneLine and AcceptedExtends at once |
| Capture.DeltasListable | lib/native-drift-diagnostic.py:438-447 | Every record the delta loop of parse_raw_pass accepts can be written, is canonical, and stays within the string, number and depth caps of the stream reader |
| Capture.IssuesListable | lib/native-drift-diagnostic.py:448-455 | The same for every record of the issue loop |
| Capture.EmitBlock | lib/native-drift-diagnostic.py:439-455 | The loop over one block parses a line and writes its record before the next line is looked at; it survives exactly the blocks the parser accepts, and writes their records with commas |
| Capture.StreamDeltas | lib/native-drift-diagnostic.py:555-560 | From the opening of the delta list to its bracket, with the nonce and header checked in between |
| Capture.StreamIssues | lib/native-drift-diagnostic.py:569-580 | From the opening of the issue list to its last record, and then the trailing line is checked |
| Capture.PartsAre | lib/native-drift-diagnostic.py:402-483 | A capture is accepted as a whole exactly when head, delta block, issue block and tail are accepted in turn |
| Capture.OneCapture | lib/native-drift-diagnostic.py:572-579 | Two accepted passes that agree are the same capture, unless two different texts have one digest |
| Capture.CreateArtifact | lib/native-drift-diagnostic.py:539-604 | The metadata is what the first pass parsed; the second is parsed while it is written and compared before the issue list is closed. A finished artifact means that both were accepted and agree; then it becomes one when no write call fails and the byte cap suffices; the consumer accepts the text, and extraction recovers the bindings of the metadata |

## Left out

- Real system calls, descriptors, openat2 resolution, sealing, rlimits, alarms, signals and environment: replaced by the oracle of the filesystem model and by the arbitrary answers of the walk. A directory listing never names one entry twice.
- Outside writers during a quarantine transaction: nothing but the helper changes the filesystem of `Machine`. The observation methods start from any state, but one without a concurrent writer.
- Transaction.Helper.PrepareQuarantine: the refusals of `mkdir_chain` (owner, mode, symbolic link, other device) are one fault that may come before BEGIN; the created directories and the persisted manifest files have no directory entries of their own.
- Transaction.Helper.ReconcileRollback: the success line is proved sound under exactly the condition that aliased rows bind one mode, because the code accepts aliased rows; see `Recovery.AliasesReported`.
- Durability.ReconcileDurableIff: the exact condition is for one target's changes pending, which is what one failed or killed process leaves of a settled state; several targets pending, after several killed ones, are not characterised.
- Recovery.RecoverRepeatedly: needs the bound manifests and quarantine parents, which exist only from the BEGIN row on; a crash before it leaves directories behind but has moved nothing.
- Snapshot.TakeSnapshot: says nothing about when the helper dies (deadline, line cap, output cap, allocation), only what it prints when it does not.
- Inventory and rollback modes of the inventory helper, which compare two snapshots for equality or list selected paths: comparisons of the modelled text.
- `sscanf` reads a few number forms (leading blanks, signs) that the helper never prints; the model reads canonical forms only.
- Volatile.EmitVolatile: takes the outcome of `verify_log_prefix` as a predicate on the two rows; `LogPrefix` gives that predicate its meaning, with one look at the tree for each pair of rows, and `Admission` joins both.
- Disposition.DeriveToken: the checks of chronology, root identity, runtime continuity and Product identity at the head of `derive`, and the other members of its result, are left out; they compare single values of the two artifacts.
- `parse_candidate` and `inventory_derive`, which read the admitted volatile output again.
- Pass modes are compared as the text that `parse_raw_pass` delivers; `behavior` also accepts other spellings of one octal number.
- Evidence.CheckProvenance: the checks of source artifacts, time stamps and review signatures are the parameter `source`.
- The capture envelope, freshness, release and Product Seal checks around `surface_derive`, and the ruleset file: the rules are a parameter.
- JsonReader.JsonStream.StringLiteral: a surrogate escape without its partner is refused, while Python reads it; such a text is no sequence of characters.
- JsonReader.JsonStream.Literal: a token with NUL bytes or a byte order mark, which `json.loads` on bytes decodes as another encoding or strips, is refused.
- JsonReader.JsonStream.Skip: the same for every scalar it consumes, and a surrogate escape without its partner.
- JSON: `load_json` of texts with floating-point numbers, of which no artifact holds any; strings with characters outside the basic plane on the writing side, where the texts are ASCII. Output files removed after a failed write.
- Capture.CreateArtifact: which metadata values `build_metadata` spells from the parsed first pass is the parameter `spell`; that the bound file itself is stable (`verify_stable`, lib/native-drift-diagnostic.py:571) is not asked, the two passes may differ in anything.
- Reopen.NoFork: ownership and mode checks of the reservation namespace and the contents of reviews, dispositions and consumption markers are the parameter `evidence`.
- `str(int(mode, 8))` beyond the forms the operator's own checks let through.
- Key sets and literal fields of operator packages, ECDSA and HMAC checks, the audit-log grammar, both memfd launchers, the shell loaders, `lib/plugin-policy.py` and `tests/public-data-boundary.py`: conjunctions and tables that would add only easy members.
