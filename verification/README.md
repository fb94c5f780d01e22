# ForgeFS, modelled and proved in Dafny

ForgeFS is a content-addressed store with copy-on-write trees, three-way merge,
crash-durable batch publication, a garbage collector that runs beside writers,
a shared filesystem barrier, group commit, canonical CBOR objects, a typed graph
walk and attenuable capabilities. This project models those parts and proves
what their code and documentation promise, for all inputs and all runs.
`dafny verify dfyconfig.toml` checks everything.

## What is where

| files | what they hold |
|---|---|
| `Names`, `Trees` | byte order, path spellings, trees as canonical sorted entry lists, the file map of a tree |
| `Overlay`, `OverlayApply`, `ReadPath` | the overlay fold, its imperative form, the Noop test, reading through an overlay |
| `Merge`, `MergeRun`, `Walk`, `Renames`, `ThreeWay` | three-way merge, tree walks with explicit stacks, exact renames, symmetry, scoped resolution |
| `Reach`, `MergeBases`, `ObjectGraph`, `GraphWalk` | reachability, best common ancestors, what each kind of object names, the typed graph walk |
| `BarrierGate`, `GroupCommit` | the two concurrency protocols, any number of threads, any run |
| `Device`, `ObjectArea`, `Publish`, `PublishRun`, `PublishBatch`, `StaleProof` | the adversarial device, publication one system call at a time, the durability theorem, the batch as an object under interference, and the theorem in runs with sweeps |
| `Sweep`, `SweepGaps`, `GcWriters`, `GcRefines` | one collection and when it completes, what it can leave without a child, writers against collections in time, and the collection as a sweep of that machine |
| `Cbor`, `CborReader`, `Records`, `Objects`, `CommitCodec`, `TreeCodec`, `ConflictCodec`, `Provenance`, `Contribution`, `Layouts`, `Spelling` | deterministic CBOR (section 4.2.1 of RFC 8949), object codecs, size arithmetic, which key holds which field, UTF-8 and hex by what they spell |
| `Capability`, `Caveats`, `Tokens` | attenuation, the signature chain, the token codec; authority one caveat at a time and how caveats are spelled; where a token keeps its parts and what a signature speaks for |
| `FiniteSets` | counting |

## How the model reads the source

- Names, texts, ids and encoded bytes are byte strings (`string`, or `seq` of a
  byte type where values matter). A path is the list of its components; `Names`
  proves the correspondence with slash-separated spellings.
- A tree id is the tree it names (`TreeId(tree)`), so ids are injective on
  canonical trees and every `id == id` shortcut of the source is an equality of
  trees. BLAKE3 and HMAC are otherwise arbitrary functions: object identity in
  `Publish` is any function of the bytes, and "exact bytes" is stated both as
  "bytes of that identity" and, for a collision-free function, as equality.
- A well-formed tree is what every constructor builds: sorted valid names, entry
  kind agreeing with the object named, no exec bit on directories, at most
  100,000 entries a level. `Tree::decode` does not check the exec bit, and
  `merge_trees` copies the exec bit of our side: `Merge.DirExecBreaksSymmetry`
  shows what that would do to a merge, and `Merge.MergeSymmetricIff` exactly when.
- Overlay keys are validated relative paths. `apply_level` would recurse forever
  on a key with a leading slash.
- The comment at `crates/forge-merge/src/lib.rs:316-317` says our side is kept on
  every unresolved leaf. The modify/delete branch at lines 444-451 keeps nothing;
  the model follows the code (`Merge.PartialAtConflict`).
- Concurrency is a state machine whose steps are one system call, one lock-held
  section or one catalog transaction each. A class holds the mutable state where
  the source has an object (`BarrierGateModel`, `GroupCommitModel`,
  `DeviceModel`, `PublishBatch`, `GraphWorkQueue`, `Reader`); its methods are
  proved against the value-level step functions over which the run theorems are
  stated. `PublishBatch` runs the code's control flow with `Others` called after
  every system call: its contract lets every other store and batch, the kernel's
  writeback and foreign writers take any number of steps there.
- The runs of `Publish` start from any disk whose root exists, whose pending
  changes to directories and other fixed names only add what is visible, whose
  visible fixed names are durable or pending, and whose object names are what is
  visible once all pending changes are written. Files of other programs may be
  there, and appear later, with none of their bytes forced.
- A sweep in `Publish` unlinks one object no open batch has joined: a batch's
  refresh of the object's age is younger than the floor (`GcWriters`). The code's
  sweep calls `forget_cached` (`crates/forge-store/src/lib.rs:479-482`), which
  clears tree and blob caches and no durability proofs, of its own process only;
  `StaleProof` proves that acknowledged objects survive every cut exactly if sweeps
  clear the proofs of every open store.
- A link that is tried again after the winner vanished is a later link in
  `Publish`; `GcWriters` has each attempt as its own step.
- The comment at `crates/forge-api/src/gc.rs:362-368` says collection is sound while
  no put-to-publish interval exceeds the floor. That holds measured from the age a
  join can count on, or when no put loses both link races; a put that does
  (`crates/forge-store/src/blob.rs:935-940`) joins an object of any age
  (`GcWriters.SoundFromPutIff`).
- In `Publish` a batch that waits for the shared barrier is released by a
  filesystem sync that ran after it registered. That is what
  `BarrierGate.AckIsCovered` proves of the gate.
- In the barrier model a leader whose sync fails goes back to waiting; in
  `blob.rs` it returns an error. A caller that has returned is a thread that
  takes no further step, so the runs of the code are among the runs proved here.
- The group-commit explorer stores a writer's id in one byte. Its promise holds
  exactly up to 256 writers (`GroupCommit.FinishesIffByteSized`).
- Counters, statistics and error texts are not modelled; errors keep only their
  kind.

## Model

| member | source | states |
|---|---|---|
| Names.StripSpelling | crates/forge-core/src/tree.rs:249-263 | cutting a path prefix off a slash spelling is cutting components, and fails exactly when the prefix is not a component prefix |
| Trees.BinarySearchGet | crates/forge-core/src/tree.rs:52-57 | binary search over sorted entries finds exactly the entry of that name, or none |
| Trees.Canonical | crates/forge-core/src/tree.rs:18-50 | two sorted trees that answer every lookup alike are the same tree |
| Trees.FilesDetermineTree | crates/forge-core/src/tree.rs:11-50 | trees without empty directories are determined by their file maps |
| OverlayFold.FoldMeaning | crates/forge-core/src/tree.rs:100-203 | at every path the folded tree holds the staged row when no row lies below it, or the base file when no row lies at, above or below it; so a tombstone under a base file removes the file |
| OverlayFold.FoldWellFormed | crates/forge-core/src/tree.rs:100-247 | every level of the folded tree stays strictly sorted, typed and free of directory exec bits |
| OverlayFold.FoldNoEmptyDirs | crates/forge-core/src/tree.rs:158-201 | a base without empty directories folds to a tree without empty directories |
| OverlayFold.NoopByContent | crates/forge-api/src/workspace.rs:593-595 | "folded id equals base id" decides on file content for every overlay exactly when the base has no empty directory |
| OverlayFold.NoopMisled | crates/forge-api/src/workspace.rs:593-595 | with an empty directory in the base, some overlay changes the id and no file |
| OverlayFold.NoopMeansNoEffect | crates/forge-api/src/workspace.rs:750-769 | when the stranded-work test answers no, no row changes what any path holds; the converse holds of every overlay if and only if the base has no empty directory |
| OverlayApply.MergeSortedEntries | crates/forge-core/src/tree.rs:205-247 | one pass over sorted entries and edits: an edited name reads its edit, any other its base entry, and the result is sorted |
| OverlayApply.SplitLevel | crates/forge-core/src/tree.rs:108-157 | the rows below a prefix are split into direct edits and one non-empty group per child, losing and inventing none |
| OverlayApply.ApplyLevel | crates/forge-core/src/tree.rs:108-203 | the recursive level computes the fold of the rows below its prefix, or refuses exactly an over-full result |
| OverlayApply.ApplyOverlay | crates/forge-core/src/tree.rs:100-106 | the published tree is well-formed and holds the folded file at every path |
| ReadPath.Resolve | crates/forge-ns/src/lib.rs:115-180 | a read delivers the staged file, else the base file or directory unless a row lies above it; it is invalid exactly when a staged file is met on the way |
| ReadPath.ReadRefinesPublish | crates/forge-ns/src/lib.rs:115-180 | the read and the published tree agree on the file at a path if and only if no row strictly below turns a visible file into a directory or nothing |
| ReadPath.ReadOutlivesPublish | crates/forge-ns/src/lib.rs:115-180 | the exception is real: a staged `d/x` over a base file `d` |
| Merge.MergeMeaning | crates/forge-merge/src/lib.rs:390-513 | outside conflict scope the three files agree pairwise somewhere and the merged tree holds what the three-way rule says |
| Merge.ScopeIsConflicts | crates/forge-merge/src/lib.rs:378-384 | a path is in scope exactly when it lies at or under a shortest disagreement |
| Merge.PartialAtConflict | crates/forge-merge/src/lib.rs:436-512 | what the partial tree holds at a conflict path: ours if both sides have an entry, nothing for modify/delete |
| Merge.MergeLoose | crates/forge-merge/src/lib.rs:390-513 | merging well-formed trees gives sorted, typed trees with no directory exec bit |
| Merge.MergeSymmetric | crates/forge-merge/src/lib.rs:390-513 | a clean merge of well-formed trees does not depend on which side is ours |
| Merge.MergeSymmetricIff | crates/forge-merge/src/lib.rs:390-513 | on every typed tree (names in order, kinds that fit the objects named, any exec bits), a clean merge is the same from both sides if and only if, wherever the walk merges two changed directories, their exec bits agree |
| Merge.DirExecBreaksSymmetry | crates/forge-merge/src/lib.rs:497-500 | with an exec bit on a directory the merged entry would depend on the side |
| MergeRun.MergeName | crates/forge-merge/src/lib.rs:424-512 | one name of the merge: the merged entry, and exactly the conflicts below that name |
| MergeRun.MergeTrees | crates/forge-merge/src/lib.rs:390-513 | the recursive merge returns the merged tree, or refuses an over-full one, and reports each conflict path exactly once with the three ids found there |
| Walk.ChangedPaths | crates/forge-merge/src/lib.rs:338-376 | the stack walk collects exactly the paths where the trees first differ, descending only into pairs of directories |
| Renames.TreeChanges | crates/forge-merge/src/lib.rs:124-171 | the stack walk finds exactly the deleted and the added paths, with their entries |
| Renames.CountBaseIdentities | crates/forge-merge/src/lib.rs:173-203 | each wanted identity is counted over the whole base tree, capped at two |
| Renames.CountOne | crates/forge-merge/src/lib.rs:173-203 | a count of one means the identity occurs at exactly one path |
| Renames.InferExactRenames | crates/forge-merge/src/lib.rs:205-237 | a source whose identity occurs once in the base and once among the additions is matched with that addition, and nothing else is |
| Renames.IdentityIsAllButName | crates/forge-merge/src/lib.rs:105-109 | two entries have one identity exactly when they agree in everything but the name: object, kind and executable bit |
| Renames.RenamedIsByIdentity | crates/forge-merge/src/lib.rs:173-237 | a rename found by identities and counts is exactly one whose very entry, name apart, is at no other base path and at no other added path |
| Renames.RenameKeepsEntry | crates/forge-merge/src/lib.rs:205-237 | the destination of an exact rename holds the source's entry under the last component of the new path |
| Renames.RenameSymmetric | crates/forge-merge/src/lib.rs:239-291 | rename conflicts do not depend on which side is ours |
| Renames.NoRenameConflictOnShortcut | crates/forge-merge/src/lib.rs:318-333 | skipping rename inference when two trees are equal loses nothing |
| ThreeWay.ExactRenameConflicts | crates/forge-merge/src/lib.rs:239-291 | lists exactly the sources both sides removed where an exact rename is involved and the destinations differ, each once |
| ThreeWay.SortConflicts | crates/forge-merge/src/lib.rs:318-333 | the reports come in path order, none lost or added |
| ThreeWay.AutoMergeTree | crates/forge-merge/src/lib.rs:318-333 | the merged tree together with all disagreements and rename conflicts in path order |
| ThreeWay.AutoMergeMeaning | crates/forge-merge/src/lib.rs:293-333 | outside the reported paths and their descendants the merged tree obeys the three-way rule, and no three files differ pairwise there |
| ThreeWay.AutoMergeSymmetric | crates/forge-merge/src/lib.rs:318-333 | swapping the sides gives the same sorted reports with `a` and `b` swapped, and the same tree when there are none |
| ThreeWay.ThreeWayMerge | crates/forge-merge/src/lib.rs:293-316 | merges cleanly exactly when at every path one of the three entries decides (or both sides are directories) and no exact rename is in dispute; then every path holds what the three-way rule says; otherwise a conflict object with no causal commits whose reports name the ids each side and the base have at their paths |
| ThreeWay.DisputesAreReported | crates/forge-merge/src/lib.rs:286-312 | there is a report exactly when three entries at some path are all different, directories aside, or an exact rename is in dispute |
| ThreeWay.ScopeSpelling | crates/forge-merge/src/lib.rs:378-384 | the scope test on slash spellings is the component-prefix test |
| ThreeWay.DifferenceHasChange | crates/forge-merge/src/lib.rs:338-376 | where two trees differ on a file, a changed path lies at or above it |
| ThreeWay.ChangeHasDifference | crates/forge-merge/src/lib.rs:338-376 | a changed path is no false alarm: in trees without empty directories some file at or below it differs |
| ThreeWay.AdmitTree | crates/forge-api/src/integration.rs:202-241 | accepts a tree exactly when every changed path against the merge over the one recorded base, or none, lies in the conflict's scope; a recorded side only, when there is no scope; never with several bases |
| ThreeWay.ResolutionStaysInScope | crates/forge-api/src/integration.rs:208-239 | an admitted tree agrees with the three-way rule at every path outside the conflict |
| MergeBases.AncestorMap | crates/forge-merge/src/lib.rs:10-27 | succeeds exactly when every ancestor is held and there are at most a million, and then holds exactly the ancestry |
| MergeBases.Dominated | crates/forge-merge/src/lib.rs:50-70 | one candidate's sweep adds exactly the common commits strictly above it |
| MergeBases.BestBases | crates/forge-merge/src/lib.rs:32-78 | returns, in id order, exactly the common ancestors that are no proper ancestor of another; fails exactly when an ancestry cannot be walked |
| MergeBases.BasesUnordered | crates/forge-merge/src/lib.rs:29-78 | the answer is the same for both argument orders |
| MergeBases.BasesCover | crates/forge-merge/src/lib.rs:29-78 | every common ancestor is a returned base or an ancestor of one |
| BarrierGate.StepKeepsInv | crates/forge-store/src/interleave/barrier_gate.rs:105-139 | one leader at a time, always for the generation after the last completed one |
| BarrierGate.CompletedStepsByOne | crates/forge-store/src/blob.rs:264-302 | in every run `completed` moves by one and only on a successful sync; `in_flight` is none or `completed + 1` |
| BarrierGate.GenerationRan | crates/forge-store/src/blob.rs:264-302 | each completed generation is one leader's sync: begun, uninterrupted, successful |
| BarrierGate.AckIsCovered | crates/forge-store/src/blob.rs:264-302 | an acknowledged caller is covered by a sync that began after it read its target and succeeded before the acknowledgement |
| BarrierGate.WaitingMoves | crates/forge-store/src/interleave/barrier_gate.rs:82-103 | a caller whose generation is not complete may lead exactly when nothing is in flight, waits exactly when something is, and is answered exactly when it is complete |
| BarrierGate.LeaderEnds | crates/forge-store/src/blob.rs:283-303 | a leader's sync may succeed or fail; a failure completes and acknowledges nothing, frees the gate, and lets the leader lead again |
| BarrierGate.CanFinish | crates/forge-store/src/interleave/barrier_gate.rs:79-137 | from every gate, however many syncs have failed, some schedule answers every caller with the generation it asked for |
| BarrierGate.FinishesSoon | crates/forge-store/src/interleave/barrier_gate.rs:79-137 | no schedule avoids it: at most six useful steps a caller are possible, and when none is left everybody has been answered |
| BarrierGate.InvPassesChecks | crates/forge-store/src/interleave/barrier_gate.rs:141-172 | the explorer's own invariant check never fires in a reachable state |
| BarrierGate.BarrierGateModel.LegalSteps | crates/forge-store/src/interleave/barrier_gate.rs:82-103 | lists exactly the legal steps |
| BarrierGate.BarrierGateModel.Step | crates/forge-store/src/interleave/barrier_gate.rs:105-139 | takes exactly the modelled transition and keeps the invariant |
| GroupCommit.StepKeepsInv | crates/forge-store/src/interleave/group_commit.rs:154-256 | each enqueued unanswered job is in exactly one of the queue and the holder's batch in progress, and the lock has one holder |
| GroupCommit.WrittenOnce | crates/forge-store/src/interleave/group_commit.rs:154-256 | a mailbox is written at most once, by the holder of the batch that holds its job; Ok exactly by a successful commit, Err exactly by a failed begin or commit |
| GroupCommit.CommittedMeansCommitted | crates/forge-store/src/interleave/group_commit.rs:113-256 | in every run a writer told Ok had its job in a batch that a successful commit answered |
| GroupCommit.CanFinish | crates/forge-store/src/interleave/group_commit.rs:113-256 | from every state that keeps the invariant some legal schedule finishes every writer |
| GroupCommit.AnyOutcome | crates/forge-store/src/interleave/group_commit.rs:113-257 | a batch may fail to begin, commit, fail to commit, or lose its leader, and every job of it learns just that |
| GroupCommit.WriterMoves | crates/forge-store/src/interleave/group_commit.rs:113-153 | what a writer outside a batch may do, in each phase |
| GroupCommit.FinishesIffByteSized | crates/forge-store/src/interleave/group_commit.rs:66-80 | every reachable state of n writers can be finished if and only if n is at most 256 |
| GroupCommit.GroupCommitModel.LegalSteps | crates/forge-store/src/interleave/group_commit.rs:113-152 | lists exactly the legal steps |
| GroupCommit.GroupCommitModel.AnswerBatch | crates/forge-store/src/interleave/group_commit.rs:180-232 | the answer loop fills exactly the batch's mailboxes |
| GroupCommit.GroupCommitModel.Step | crates/forge-store/src/interleave/group_commit.rs:154-256 | takes exactly the modelled transition |
| Device.DeviceModel.FlushDirectory | scripts/powerloss/pl_replay.py:139-156 | the first `keep` pending changes of a directory reach the durable namespace in order, the rest is forgotten |
| Device.DeviceModel.FlushInode | scripts/powerloss/pl_replay.py:173-178 | likewise for an inode's pending writes |
| Device.DeviceModel.OpFsync | scripts/powerloss/pl_replay.py:231-238 | flushes the directory or the inode the path names now, or named durably |
| Device.DeviceModel.OpSyncFs | scripts/powerloss/pl_replay.py:244-248 | flushes everything pending, in some order, and leaves nothing pending |
| Device.DeviceModel.OpWrite | scripts/powerloss/pl_replay.py:215-226 | a buffered write to the visible inode, or to a fresh one |
| Device.FlushKeepsContent | scripts/powerloss/pl_replay.py:158-178 | flushing bytes never changes what a reader sees |
| Device.AppendWrite | scripts/powerloss/pl_replay.py:158-171 | writing at the end of a file appends |
| Device.WriteBytes | scripts/powerloss/pl_replay.py:158-171 | a write puts its bytes at its offset, fills a gap with zeros, and leaves every other byte |
| Device.SizeBytes | scripts/powerloss/pl_replay.py:158-171 | setting the size cuts the end off or appends zeros |
| Device.TornFlushIsWriteback | scripts/powerloss/pl_replay.py:139-156 | a torn flush then a cut is a partial writeback then a cut |
| ObjectArea.FlushDirGrows | scripts/powerloss/pl_replay.py:139-156 | after a directory sync every entry of it in the object area is durable |
| ObjectArea.SyncFsGrows | scripts/powerloss/pl_replay.py:244-248 | after a filesystem sync every visible name in the object area is durable |
| ObjectArea.DurableSurvivesCut | scripts/powerloss/pl_replay.py:297-325 | a durable object is reachable after the cut with unchanged bytes |
| ObjectArea.UnlinkObject | crates/forge-api/src/gc.rs:525-547 | unlinking one object leaves every other one as durable as it was, whatever is pending |
| PublishRun.MakeDirOk | crates/forge-store/src/blob.rs:809-826 | making a shard directory, under each policy, leaves it proved or owed a barrier |
| PublishRun.SyncDirOk | crates/forge-store/src/blob.rs:809-826 | under the per-directory policy the cached directory is durable with all its ancestors |
| PublishRun.LinkOk | crates/forge-store/src/blob.rs:851-945 | a fresh link publishes bytes that are already durable and owes at most its directory's barrier |
| PublishRun.ForceOk | crates/forge-store/src/blob.rs:851-945 | joining an existing object without a cached proof forces its bytes and takes on the barrier |
| PublishRun.CachedOk | crates/forge-store/src/blob.rs:873-883 | joining through the cache joins a durable object |
| PublishRun.RecordInv | crates/forge-store/src/blob.rs:953-1040 | when `finish` records its proofs, everything the batch joined is durable |
| PublishRun.FinishTeaches | crates/forge-store/src/blob.rs:1011-1039 | `finish` teaches its store exactly the directories and objects the batch proved itself, each of them durable |
| PublishRun.StepInv | crates/forge-store/src/blob.rs:809-1040 | every step of every store, batch, background writeback, foreign writer, eviction, reopen and power cut keeps every promise, and so does a sweep that no cache outlives |
| PublishRun.FinishedIsDurable | crates/forge-store/src/blob.rs:953-1040 | in every run whose sweeps leave no cached proof of what they take, once `finish` returned Ok every later power cut leaves each put or joined object reachable with bytes of its identity, until a sweep takes it |
| PublishRun.ExactBytes | crates/forge-store/src/blob.rs:851-945 | with a collision-free identity those are exactly the bytes that were put |
| PublishRun.CachesAreSound | crates/forge-store/src/blob.rs:431-446 | in every state of such a run every cached directory and object proof names something a power cut leaves reachable |
| PublishRun.DeviceIsFree | scripts/powerloss/pl_replay.py:139-178 | nothing holds the device back: power cuts, partial writeback and vanishing temporary names may come at any time |
| PublishRun.UsersAreFree | crates/forge-store/src/blob.rs:431-446 | caches may forget, stores close, batches be dropped and other programs leave files at any time |
| PublishRun.SweepTakesOne | crates/forge-api/src/gc.rs:525-547 | a sweep may take any visible object no open batch has joined or is forcing, and takes that name and nothing else |
| PublishBatch.OthersKeep | crates/forge-store/src/blob.rs:809-1040 | whatever others do between two system calls, the batch stays open, in place and sound; at most a waiting batch becomes covered |
| PublishBatch.PublishBatch.EnsurePathDir | crates/forge-store/src/blob.rs:809-826 | with interference after every call, the directory is found in the cache, made and proved, or made and owed; a failure leaves the batch as it was |
| PublishBatch.PublishBatch.JoinExisting | crates/forge-store/src/blob.rs:873-892 | an existing object joins only after its bytes verified, through the cache or after forcing them |
| PublishBatch.PublishBatch.PublishNew | crates/forge-store/src/blob.rs:894-945 | write, force, link; a lost race joins what is there instead |
| PublishBatch.PublishBatch.PutParts | crates/forge-store/src/blob.rs:851-945 | on success exactly the identity of the bytes is added to what the batch joined; a failure adds nothing, leaves the batch usable, and comes only of a failed call of this put or of a shard path that is no directory, an existing object that does not verify, or a temporary file taken away |
| PublishBatch.PublishBatch.Barriers | crates/forge-store/src/blob.rs:966-1010 | succeeds exactly when none of its calls fails; several directories under the collapsed policy take one shared sync, followed or led, and otherwise each owed directory is synced; after which nothing is owed, and no proof has been published |
| PublishBatch.PublishBatch.FinishAll | crates/forge-store/src/blob.rs:953-1040 | returns Ok exactly when none of its calls fails; Ok means every joined object is acknowledged and durable and every object it forced is cached; otherwise the batch is gone and no step of its own in between published a proof |
| PublishBatch.MuteTeachesNothing | crates/forge-store/src/blob.rs:953-1027 | the steps of `finish` other than the two that record proofs leave every cache and what is acknowledged alone |
| StaleProof.StaleProofAcknowledges | crates/forge-store/src/blob.rs:873-883 | from any reached state in which a ready store holds proofs of an object and of both its shard directories while the object is visible and its name not durable, a batch on that store joins it with no barrier, is acknowledged, and a cut loses the object |
| StaleProof.StaleHappens | crates/forge-store/src/lib.rs:479-482 | such a state is reached: a put is finished, a sweep that leaves one store's proofs alone takes the object, a second batch links it anew without finishing, and the unlink alone is written back |
| StaleProof.AckedSurviveIffAllCleared | crates/forge-store/src/blob.rs:431-446 | over all runs with sweeps, everything acknowledged and not swept since survives every cut if and only if sweeps clear the swept object from every open store's cache |
| Sweep.ReachableClosure | crates/forge-api/src/gc.rs:750-772 | extends a closed visited set by exactly what the roots lead to, and succeeds exactly when all of that can be read and the ids it must schedule fit the work queue |
| Sweep.ProtectFromSurvivors | crates/forge-api/src/gc.rs:720-745 | the protection set holds every spared object and everything a readable protected object names, and nothing that neither a root nor a spared object leads to |
| Sweep.Classify | crates/forge-api/src/gc.rs:480-512 | the doomed are the first 4,096 unreached old files of the shortlist in order; the spared are the young ones and the old ones beyond |
| Sweep.UnlinkAll | crates/forge-api/src/gc.rs:525-547 | only doomed unprotected files go; all of them, exactly when none is stuck |
| Sweep.GcCollect | crates/forge-api/src/gc.rs:378-552 | completes exactly when the floor is met, everything the early and the locked roots lead to can be read within the limit, and nothing to take is stuck; then exactly the unprotected part of the batch is gone, no scanned survivor that could be statted or that a root leads to misses anything one of its fields names, and below the batch limit all old garbage is gone; completed or not, nothing a root leads to field by field goes, and only scanned files whose age by the locked clock reaches the floor go |
| SweepGaps.GapIff | crates/forge-api/src/gc.rs:490-492 | over a scan of distinct files, some graph and roots make a completed collection take a child from a survivor if and only if some scanned file is there but cannot be statted and some old scanned file can be unlinked |
| SweepGaps.GapIsBlind | crates/forge-api/src/gc.rs:480-547 | whoever loses a child to a completed collection could not be statted and hangs on nothing live or spared |
| SweepGaps.BlindLoses | crates/forge-api/src/gc.rs:490-492 | every unstatable scanned file can lose every old one: the graph and roots that do it |
| GcWriters.StepKeeps | crates/forge-store/src/blob.rs:97-130 | every step within the rule, unrefreshed joins included, keeps the roots' closure on disk and every fresh join present with an age no older than the join could count on |
| GcWriters.RootsSurvive | crates/forge-api/src/gc.rs:395-550 | in every interleaving of sweeps with puts that may lose both link races, everything reachable from a root is on disk, if each publication comes within the floor of the ages its joins could count on |
| GcWriters.SoundIffBoundWithinFloor | crates/forge-api/src/gc.rs:358-372 | measured from those ages, collection is sound over all runs if and only if the bound on publications is within the age floor |
| GcWriters.SoundFromPutIff | crates/forge-api/src/gc.rs:358-372 | measured from the writer's own put, as documented, the floor suffices if and only if no put joins without a refresh (or nothing joined is published at all) |
| GcWriters.LatePublishBreaks | crates/forge-api/src/gc.rs:358-372 | for every floor and every larger bound, measured either way, a run within the bound that loses something reachable |
| GcWriters.UnrefreshedJoinBreaks | crates/forge-store/src/blob.rs:935-940 | the run of the second lost race: failed link, sweep, vanished refresh, another writer's old link, failed second link, join as is, sweep, publication; for every floor, with no time between the writer's own put and its publication |
| GcWriters.PutCanJoin | crates/forge-store/src/blob.rs:873-945 | between sweeps every put, however far it has come and whatever races it has lost, can end by joining the object, which is then on disk |
| GcWriters.PutMovesOn | crates/forge-store/src/blob.rs:873-945 | the next step of a put, by how far it has come and what is on disk; only the refreshes wait for a sweep |
| GcRefines.CollectIsSweep | crates/forge-api/src/gc.rs:378-552 | whatever a collection unlinks, completed or stopped half way, a sweep of the machine of writers and sweeps unlinks, within every rule whose floor is at most the collector's |
| GraphWalk.GraphWorkQueue.Schedule | crates/forge-store/src/graph.rs:186-198 | a constraint is queued once; refused exactly when it would bring in one id too many |
| GraphWalk.GraphWorkQueue.Bounded | crates/forge-store/src/graph.rs:141-203 | at most eight constraints per distinct id are ever scheduled |
| GraphWalk.ReachableGraphVerified | crates/forge-store/src/graph.rs:331-369 | succeeds exactly when the root and everything the fields of reachable objects name are there with the types the fields ask for, within the limit; then lists exactly what the root leads to, field by field, in order, each with the type it has; a size refusal means more than `limit` ids are reachable; it terminates on cycles |
| GraphWalk.TooManyIsExact | crates/forge-store/src/graph.rs:186-198 | on a sound graph a size refusal means the reachable set itself is over the limit |
| ObjectGraph.EdgesAreFields | crates/forge-store/src/graph.rs:209-321 | the edges of a decoded object are exactly the ids in its fields, each with the type that field demands: entries, parents, bases, sides, reads and all |
| Cbor.HeadSound | crates/forge-core/src/cbor.rs:109-158 | whatever head is read is the one shortest encoding of what it says |
| Cbor.HeadComplete | crates/forge-core/src/cbor.rs:6-30 | every head that is written reads back |
| Cbor.Complete | crates/forge-core/src/cbor.rs:20-70 | every value that fits a shape reads back from its encoding, leaving the rest of the input |
| Cbor.ParseSound | crates/forge-core/src/cbor.rs:109-283 | any input that reads as a value is that value's encoding followed by the rest |
| CborReader.Reader.TakeHead | crates/forge-core/src/cbor.rs:96-158 | the cursor reads exactly the modelled head and stops behind it |
| CborReader.Reader.ReadValue | crates/forge-core/src/cbor.rs:160-283 | the cursor reads exactly what the parser function reads and stops where it stops |
| CborReader.Reader.ReadFields | crates/forge-core/src/cbor.rs:169-191 | the key loop accepts exactly known keys that increase strictly in encoded form |
| Records.EncodeMapSorted | crates/forge-core/src/cbor.rs:62-70 | whatever order the fields come in, the bytes are those of the one ordered record that holds them |
| Records.PresentPick | crates/forge-core/src/cbor.rs:169-191 | a record that fits is the canonical layout of the values under its keys |
| Objects.FileSound | crates/forge-core/src/object.rs:90-105 | a framed file is the encoding of its type, header and payload |
| Objects.FileComplete | crates/forge-core/src/object.rs:80-88 | every frame that is written parses back |
| Objects.BlobRoundTrip | crates/forge-core/src/object.rs:113-151 | every blob decodes from its encoding |
| Objects.BlobCanonical | crates/forge-core/src/object.rs:120-151 | bytes that decode to a blob are its encoding |
| TreeCodec.TreeRoundTrip | crates/forge-core/src/object.rs:155-256 | every well-formed tree encodes and decodes back |
| TreeCodec.TreeCanonical | crates/forge-core/src/object.rs:198-256 | bytes that decode to a tree are its encoding, and the tree is well-formed |
| TreeCodec.WriteTree | crates/forge-core/src/object.rs:155-196 | the entry-by-entry encoder writes the canonical bytes and refuses exactly over-full trees and invalid names |
| CommitCodec.CommitRoundTrip | crates/forge-core/src/object.rs:270-358 | every well-formed commit decodes from its encoding |
| CommitCodec.CommitCanonical | crates/forge-core/src/object.rs:304-358 | bytes that decode to a commit are its encoding |
| CommitCodec.WriteCommit | crates/forge-core/src/object.rs:270-302 | the encoder's own field order, once sorted, gives the canonical bytes |
| CommitCodec.SnapshotRoundTrip | crates/forge-core/src/object.rs:554-652 | every well-formed snapshot decodes from its encoding |
| CommitCodec.SnapshotCanonical | crates/forge-core/src/object.rs:592-652 | bytes that decode to a snapshot are its encoding |
| CommitCodec.WriteSnapshot | crates/forge-core/src/object.rs:561-590 | the encoder's own field order, once sorted, gives the canonical bytes |
| ConflictCodec.ConflictRoundTrip | crates/forge-core/src/object.rs:403-522 | every admissible conflict decodes from its encoding |
| ConflictCodec.ConflictNotCanonical | crates/forge-core/src/object.rs:484-520 | leaving out an empty `bases` gives other bytes for the same conflict |
| ConflictCodec.ConflictCanonicalIff | crates/forge-core/src/object.rs:453-522 | bytes that decode to a conflict are its encoding if and only if no key was left out |
| Provenance.EntriesEncodedLen | crates/forge-core/src/provenance.rs:34-51 | the running sum is the exact encoded length, refused exactly over the entry and label limits |
| Provenance.ManifestEncodedLen | crates/forge-core/src/provenance.rs:53-71 | the computed length is the exact length of the encoding, in both encodings |
| Provenance.ManifestRoundTrip | crates/forge-core/src/provenance.rs:128-250 | every well-formed manifest decodes from its encoding, with its legacy flag |
| Provenance.EnvelopeNotLegacy | crates/forge-core/src/provenance.rs:128-144 | a current manifest never looks legacy |
| Provenance.ReencodingAgrees | crates/forge-core/src/provenance.rs:196-250 | whatever the parsers accept re-encodes to the bytes read, so the final comparison rejects nothing |
| Contribution.Validate | crates/forge-core/src/contribution.rs:57-94 | the accumulator loops decide exactly the stated limits and path order |
| Contribution.EstimateBounds | crates/forge-core/src/contribution.rs:57-94 | the preflight estimate is at least the real header length of everything admitted |
| Contribution.EncodeContribution | crates/forge-core/src/contribution.rs:96-149 | encoding succeeds exactly when validation does: the later size check never fires |
| Capability.ParseAll | crates/forge-cap/src/lib.rs:238-303 | the loop over caveats computes the intersection of all of them, or fails on the first bad one |
| Capability.AttenuationNarrows | crates/forge-cap/src/lib.rs:94-127 | whatever any extension of a capability with an `ops=` caveat allows, the original allows |
| Capability.AttenuationExact | crates/forge-cap/src/lib.rs:238-303 | extension only narrows if and only if an `ops=` caveat is present, or agents conflict, or no caveat fits any more |
| Caveats.AllowsIffEachAdmits | crates/forge-cap/src/lib.rs:94-127 | a capability allows a request exactly when some caveat names operations, no two name different agents, and every single caveat admits the request: operation, time, references, excluded references |
| Caveats.ParsesIffEachDoes | crates/forge-cap/src/lib.rs:238-303 | a list parses exactly when it has at most 256 caveats and each parses |
| Caveats.OnlySixForms | crates/forge-cap/src/lib.rs:238-303 | nothing but the six forms is a caveat, globs are never missing, and none is over-long |
| Caveats.OpsSpelling | crates/forge-cap/src/lib.rs:245-260 | `ops=` with a comma list says exactly those operations |
| Caveats.AllowSpelling | crates/forge-cap/src/lib.rs:261-270 | `allow=op:` with a comma list scopes that operation to exactly those globs |
| Caveats.RefSpelling | crates/forge-cap/src/lib.rs:271-274 | `ref=` and `ref!=` say exactly the listed globs |
| Caveats.TimeSpelling | crates/forge-cap/src/lib.rs:275-279 | `time<=` in decimal says that time |
| Caveats.TrimDropsBlanks | crates/forge-cap/src/lib.rs:223-236 | white space around a list item is dropped, and nothing else |
| Capability.SignChain | crates/forge-cap/src/lib.rs:199-213 | the loop computes the chained signature |
| Capability.AttenuateHolder | crates/forge-cap/src/lib.rs:388-402 | succeeds exactly when the longer list parses, and any root that verified the original verifies the result |
| Tokens.SignatureSpeaksForOne | crates/forge-cap/src/lib.rs:199-213 | for an ideal MAC and a secret root, a chain signature is that of one location, one identifier and one caveat list: none can be changed, dropped, added or moved |
| Tokens.TokenLayout | crates/forge-cap/src/lib.rs:72-79 | magic, version, location, identifier, caveats in order with their lengths, signature: where each lies in the token |
| Capability.CapRoundTrip | crates/forge-cap/src/lib.rs:72-79 | every capability within the limits decodes from its token bytes |
| Capability.CapCanonical | crates/forge-cap/src/lib.rs:322-371 | token bytes that decode are the encoding of what they decode to |
| Capability.DecodeToken | crates/forge-cap/src/lib.rs:322-371 | the cursor loop decodes exactly what the token function decodes |
| Layouts.CommitLayout | crates/forge-core/src/object.rs:270-302 | a commit file starts with byte 3, and its header holds each field under its own key; `contrib` only when there is one |
| Layouts.SnapshotLayout | crates/forge-core/src/object.rs:561-590 | a snapshot file starts with byte 5, and its header holds each field under its own key |
| Layouts.EntryLayout | crates/forge-core/src/object.rs:155-196 | a tree entry holds name, id, executable bit and kind (1 or 2) under their keys |
| Layouts.TreeLayout | crates/forge-core/src/object.rs:155-196 | a tree file starts with byte 2, and its header holds the entries |
| Layouts.SideLayout | crates/forge-core/src/object.rs:403-452 | a conflicting path holds path, both sides and base under their keys, null when absent |
| Layouts.ConflictLayout | crates/forge-core/src/object.rs:403-452 | a conflict file starts with byte 4, and its header holds each field under its own key |
| Layouts.ContributionLayout | crates/forge-core/src/contribution.rs:96-149 | a contribution header holds each field under its own key |
| Layouts.ReadLayout | crates/forge-core/src/contribution.rs:96-149 | a read holds its path and id under their keys |
| Layouts.ManifestLayout | crates/forge-core/src/provenance.rs:128-195 | a manifest maps each id to who introduced it; the current form wraps that map beside its version |
| Layouts.BlobLayout | crates/forge-core/src/object.rs:113-119 | a blob file starts with byte 1, and its header holds the size |
| Layouts.MajorTypes | crates/forge-core/src/cbor.rs:6-60 | each kind of value has its major type, or its one byte |
| Spelling.Utf8IffSpelled | crates/forge-core/src/cbor.rs:241-258 | bytes are taken for text exactly when they spell some Unicode scalar values |
| Spelling.IdKeyIsHex | crates/forge-core/src/provenance.rs:128-144 | an id key is the lower-case hex of thirty-two bytes, and nothing else is |
| Spelling.ValidNameIsOneStep | crates/forge-core/src/tree.rs:72-89 | a name is valid exactly when it is short, free of NUL, and walking its spelling goes down to that one name |
| Spelling.SpellingWalks | crates/forge-core/src/tree.rs:72-89 | walking the spelling of a valid path leads to that path |

## Left out

- The SQLite catalog: each call is one atomic step with the contract its callers document.
- PublishRun.FinishedIsDurable: for runs whose sweeps leave no cached proof of the swept object, which the code's sweeps do not ensure (`StaleProof.AckedSurviveIffAllCleared`); a failed `fsync` is taken to leave its effects pending, so that a later successful one still covers them.
- GcWriters.RootsSurvive: time only moves forward, and the age a file gets is the machine's own clock.
- Sweep.GcCollect: other processes do not act inside the locked section, and each scanned file lies at the path of its id; after a failed unlink only the reachability and age parts are promised, since doomed parents of unlinked children may then survive.
- BarrierGate.AckIsCovered: generations are unbounded, so the wrap of a 64-bit counter is not modelled.
- Objects missing from or damaged in the store during a merge or an overlay fold: every tree named by a well-formed tree is taken to be readable.
- `Device` renames, symbolic links, directory removal, modes and the `tear`/undo helper, and the `materialise` detail that recreates a directory whose own parents were lost: reachability here asks every ancestor to be durable, which is stricter.
- Mount selection (`longest_mount`, `rel_of`), `ls`, `rename`, checkin and seal orchestration.
- The catalog rows behind the garbage collector's roots: a root set is a list of typed edges.
- The hex spelling of capability tokens and Unicode white space around caveat items (ASCII only here).
- Decoding of contribution receipts, `encode_unsigned`, and the error kinds of the decoders.
- BLAKE3, HMAC-SHA256 and ed25519 themselves, the daemon, HTTP, the command line, host import and export, counters and reports.
