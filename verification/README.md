# Synkronyx, modelled and verified

Synkronyx keeps two directory trees, A and B, equal. Everything it decides comes from three things: the tree
of A, the tree of B, and a table that remembers for each side and path what was last synchronised. This
project models that machinery and proves what the repository promises about it. `dafny verify dfyconfig.toml`
checks the whole project.

A tree is a map from relative path to node (file with content, permissions and mtime; link; directory;
special file). The table and the conflict list are maps. rsync, the filesystem and SQLite appear as their
effect on these maps; a fallible call returns an error instead of throwing one. What the engine asks of the
world while it works is a parameter: the timestamp it would put into the name of a saved copy, and the order
in which a directory walk meets its entries.

How the files fit together:

- `Paths`, `Text`, `Exclude`, `Events`, `Names`, `Nodes`, `Digests`, `Store`, `Disks` are the vocabulary:
  paths and their order, exclude patterns, saved names, digests, the table with its LIKE patterns, the trees.
- `Sync` says as functions what every engine operation comes to; `Engine` is the engine as the repository has
  it, an object whose methods change trees, table and conflict list step by step, each proved to do what the
  function says; `Scanning` is the scan and the order it yields; `Resolution` is the operator's decision.
- `Frames`, `Removal`, `Actions` say what one operation touches, that it succeeds when nothing is in its way,
  and what it leaves; `Promises` puts that into the form in which the methods of `Engine` guarantee it to a
  caller; `Passes` is the invariant of the reconciliation loop.
- `Reconciled`, `Twins`, `Versions`, `Policies`, `Stale`, `StaleRows`, `CaseTwins` are the theorems about whole
  passes; `EventRuns` those about runs of the event path that end, `Rebounds` about those that need not;
  `Locality`, `Straying`, `Slices`, `Workers` those about events handled side by side.
- `Debounce`, `Dispatch` are step systems, so that a statement about every run is one about every interleaving.
  `Guard`, `WatchTree`, `Inotify` are the remaining components, each as an object or method over a specification.

Conditions that return in the theorems: `Start` (both trees well formed, clean paths, the default exclusion of
saved copies in force, no saved name already in use, no directory facing a socket or device) and `UnionOrder`
(the order of `scan.Union`: every visible path once, directories before their contents). `Sound`, for event
runs: every pending event is about a visible path where neither side has more than a file or link, none of them
makes a directory (`MakesDirs`: its file is there, it is not recognised, and the other side lacks a directory above
the path that nothing keeps it from making), an attribute event is pending only where the digests agree, and what has
been written so far is settled or a saved copy. What a run writes, and what may come back as an event, is all that an
operation reports and all else it changes on disk. `Untwinned`: no path that covers the given one by letter case is
removed earlier in the pass. `Removable`: a well-formed tree in which the saved names of the path are not in use.

## What turned out to be false, and exactly when it is true

- *Idempotence alone ends every exchange* (docs/adr-001-prevencao-de-loops.md calls it the guarantee). For a user's
  creations and modifications of files and links exactly when none of them, its file still there and not recognised,
  is copied to where the other side lacks a directory (`Rebounds.EditsLoopExactly`, `EventRuns.EveryRunEnds`). Where
  one is, the copy makes the directory, the event of that directory copies it back, and the attribute event of the
  directory so written is answered for ever; an input: `Rebounds.NewDirectoryLoops`. For one attribute event exactly
  when not both sides hold something there, two links or none, neither of them a special file, that their digests do
  not show to be the same, or the table already vouches for the source (`Rebounds.AttribLoopsExactly`). Between two
  files or two links a loop thus needs different contents. Directories have no digest, so for a directory both sides
  have there always is one (`Rebounds.DirAttribsLoop`). Only the time-based guard stops these exchanges; with a copied
  file it does not expect the directories made for it (internal/engine/engine.go:408-412).
- *A burst is represented by one event.* An attribute event that comes last replaces what came before it, and the
  content does not reach the other side by that event: a file missing there stays missing, one that is there keeps
  its version (`Bursts.LastDecides`, `EventRuns.TrailingAttribHidesContent`). Without it the burst acts like its
  last event (`EventRuns.BurstHandledAsLast`).
- *DeleteSubtree removes the path and all below it.* It also removes rows below a path that differs by ASCII
  letter case alone, since LIKE ignores case: exact if and only if no such row exists (`Store.DeleteSubtreeExact`).
  Three promises fall with it, each on exactly these inputs:
  - *An inventory taken before the first action is as good as looking again.* For trees and conflict list always.
    For the rows of a path exactly unless it is a file or link below a directory that is copied, a path covering
    it by letter case is removed between that copy and its own turn, and none after
    (`StaleRows.StaleInventoryIsHarmless`; an input: `CaseTwins.TwinsPartThePasses`).
  - *A change on one side is not a conflict.* Exactly when no path covering it by letter case is removed before its
    turn (`Policies.OneSidedChangeExactly`; an input: `CaseTwins.TwinMakesConflict`).
  - *Events in distinct subtrees are independent*, see below.
- *A change on one side always reaches the other.* Exactly when there is nothing to carry, or the verdict of the
  survey sees it and either the rows of the path outlast the removals before its turn or the conflict policy favours
  the changed side as the newer one (`Policies.OneSidedChangeArrives`); sampling leaves a blind spot of under a second
  (`Versions.SampledBlindSpot`).
- *A row for the absent side means the path was removed there* (internal/engine/resync.go:447-448). Not when both
  sides removed it before either removal was handled: the rows stay, and a file created there later, while nobody
  watches, is removed by the next pass under union (`Policies.DoubleRemovalLosesNewFile`).
- *Events in distinct subtrees are independent by construction* (internal/engine/dispatch.go:23-26). Handling an
  event other than a move stays within the first component of its path exactly unless it keeps a version of a
  top-level file aside, or removes a directory that covers a row of another component by letter case, or removes a
  top-level directory from which something is set aside (`Locality.EventLocalExactly`; an input for each:
  `Straying.TopConflictStrays`, `Straying.CaseRemovalStrays`, `Straying.PreservedDirStrays`). Once saved copies and
  preserved directories are counted with their original, only the rows forgotten by letter case remain: without
  them all events but moves are independent, and the workers come to the same as one event at a time
  (`Workers.EngineParallelIsSequential`).
- *validateHashes makes the samples smaller than the limit.* Exactly when doubling the sample size does not
  overflow; every larger sample size is accepted (`Digests.AcceptedMeansSampleFits`).
- *The watch index stays a bijection.* Under add exactly when the path is new or already that of the descriptor;
  under renameSubtree exactly when no path that stays is in the way (`WatchIndex.AddKeepsExactly`,
  `WatchIndex.RenameKeepsExactly`).

## Model

| member | source | states |
|---|---|---|
| EventRuns.EveryRunEnds | internal/engine/engine.go:316-417 | without the guard, where no pending event makes a directory: whatever finite Create/Modify/Attrib echoes everything written causes, in whatever order events are handled and whichever are dropped, no infinite run exists |
| Rebounds.EditsLoopExactly | internal/transfer/transfer.go:89-95 | from any trees with clean paths and any table whose directory rows have no digest: files or links just created or modified admit an infinite run if and only if one of them, still there and not recognised, is to be copied to where the other side lacks a directory that can be made |
| Rebounds.NewDirectoryLoops | internal/transfer/transfer.go:89-95 | an input: D/x new on A, nothing on B, empty tables, and only the event of the file |
| EventRuns.NothingWrittenTwice | internal/engine/engine.go:316-417 | over every run from pending events that make no directory no path is written twice, not even a saved conflict copy, everything changed on disk counted as written |
| Rebounds.AttribLoopsExactly | internal/engine/engine.go:536-544 | a single attribute event, of a file, link or directory, admits an infinite run if and only if both sides hold something there, both links or neither and no special file, whose digests do not show it to be the same, and the event is not recognised as already synchronised |
| EventRuns.DirCreationHandled | internal/engine/engine.go:422-451 | an event of a new directory the other side lacks: it ends there with equal contents, all visible entries recorded on both sides, and nothing else touched |
| Rebounds.DirAttribsLoop | internal/transfer/transfer.go:187-227 | an attribute event of a directory both sides have, its rows without digests as the engine records them, always admits an infinite run |
| EventRuns.EventHandled | internal/engine/engine.go:395-417 | where handling an event writes, missing directories above the path come first; besides them it changes its path and a saved name of it only, reports all of that as written, writes its path at most once, and after a write both sides are as recorded with equal digests |
| EventRuns.SettledIsNoOp | internal/engine/engine.go:357-393 | the idempotence layer turns every Create, Modify or Attrib event at a settled path into nothing at all, from either side |
| EventRuns.StepDescends | internal/engine/engine.go:316-336 | each step shrinks the set of unsettled paths still asked for, or keeps it within itself and shortens the list of pending events |
| EventRuns.BurstHandledAsLast | internal/debounce/debounce.go:130-144 | a merged burst about one path whose last event is no attribute event is handled exactly like that last event |
| EventRuns.TrailingAttribHidesContent | internal/debounce/debounce.go:130-144 | a burst that ends in an attribute event leaves a path the other side lacks missing there, and the version of one it has as it was |
| Bursts.LastDecides | internal/debounce/debounce.go:130-144 | the merged event is a deletion iff the last one is, an attribute change iff the last one is, and otherwise a creation or modification |
| StaleRows.StaleInventoryIsHarmless | internal/engine/resync.go:138-238 | survey first, act in depth order with the handled list: same trees and conflict list as re-reading and re-hashing before each action; the same rows for a path if and only if it is not a file or link below a directory that is copied whose record a removal covering it by letter case drops between that copy and its own turn and none after; in that case the pass ends without its rows and the other with both |
| StaleRows.SameEndExactly | internal/engine/resync.go:138-238 | the two passes end in one and the same state if and only if no path loses its record so |
| Stale.InStepHolds | internal/engine/resync.go:158-238 | after every prefix of the order the two passes have the same trees, conflict list and type conflicts, equal nodes below directories settled as a whole, and the same rows but for files and links there that only one of them has looked at again |
| Stale.TurnAlike | internal/engine/resync.go:196-231 | one turn depends on the table at and below its path only, and carries agreement of all other rows along |
| Stale.QuietTurn | internal/engine/resync.go:504-554 | looking again where both sides hold the same node writes nothing: a file or link is recorded, anything else is left as it is |
| CaseTwins.TwinsPartThePasses | internal/engine/resync.go:158-179 | a concrete input, two directories that differ by case alone, on which the rows of a file are gone after the pass and there after one that looks again |
| CaseTwins.TwinMakesConflict | internal/engine/resync.go:653-675 | a concrete input on which an edit of one side alone ends with a saved copy and a conflict row, a directory that covers the file by case alone having been removed first |
| Twins.RowsExactly | internal/engine/resync.go:481-499 | before its turn the rows of a path whose place both sides have are those of the start, or gone on both sides if a path covering it by letter case was to be removed earlier in the order |
| Reconciled.Converges | internal/engine/resync.go:138-238 | with full digests and a policy that acts, one pass leaves both sides agreeing on presence, kind, content, and for files permissions and mtime within a second, wherever no special file and no type conflict stands in the way |
| Reconciled.ClashStays | internal/engine/resync.go:515-529 | a directory facing a file is left alone: nothing visible at or below it changes on either side |
| Reconciled.SecondPassIsIdle | internal/engine/resync.go:504-554 | a second pass, under any clock, creates, removes and overwrites no file or link and leaves the conflict list alone |
| Reconciled.TurnAt | internal/engine/resync.go:170-231 | turn n is skipped below a handled directory; otherwise nothing stands in its way, the survey is still true there, it stays within its frame, and the handled list grows by lone directories and type conflicts only |
| Passes.PassInvHolds | internal/engine/resync.go:158-179 | between two turns: well-formed trees, an exact handled list, every pending path as it was surveyed, its rows only dropped by case folding, its saved names free |
| Passes.SurveyStillTrue | internal/engine/resync.go:158-179 | at its turn what the inventory says of a pending path is what the disks show, so the stale turn equals one decided now |
| Passes.NamesFreeStep | internal/engine/conflict.go:203-220 | acting at one path never takes the saved name of another |
| Versions.NothingIsLost | internal/engine/resync.go:565-595 | union and preserve: every version of a path that is a file on both sides is at the end in place, or at its conflict name, or still had the size and mtime recorded for it |
| Versions.OneSidedChange | internal/engine/resync.go:565-633 | a side that left its recorded state while the other did not wins on both sides, with no saved copy and no trace in the conflict list, if no path covering it by letter case is removed before its turn |
| Policies.OneSidedChangeExactly | internal/engine/resync.go:565-633 | under preserve such a change makes no saved copy if and only if no path covering it by letter case is removed before its turn |
| Policies.OneSidedChangeArrives | internal/engine/resync.go:653-675 | the changed version reaches the other side if and only if there is nothing to carry, or the verdict says the two differ and either its rows last until its turn or the conflict policy favours it as the newer |
| Versions.RecordedDriftIsSeen | internal/engine/resync.go:653-675 | after a recorded copy the verdict sees every change the table sees, sampled or not, while the unchanged side keeps its very size and mtime |
| Versions.SampledBlindSpot | internal/engine/resync.go:635-658 | a concrete change in the middle of a file that table and originOf see and the verdict misses |
| Versions.KeptAfterTurn | internal/engine/resync.go:170-231 | once a path has had its turn neither it nor what was saved of it is touched again in the pass |
| Policies.LoneFileDecided | internal/engine/resync.go:444-499 | a file only one side has, in a place both have, ends the pass on both sides unchanged or on neither: gone exactly when the policy prefers the other side, or under union the table knows it there and no path covering it by letter case is removed before its turn |
| Policies.UndecidedFavoursNewer | internal/engine/resync.go:584-595 | contents differ without a single origin, or the rows that would tell fell before the turn: the newer version, A on a tie, ends on both sides, the other beside it under preserve, both stay under manual, and the conflict list says so |
| Policies.AttrsFollowTheChange | internal/engine/resync.go:684-730 | contents agree: mode and mtime of the one side that changed them, or of the newer side if its rows fell before the turn, reach the other, which keeps its content |
| Policies.ConflictRowSays | internal/engine/conflict.go:115-121 | the row of a conflict has the digest of A before that of B and the resolution of the policy, none under manual |
| Policies.RemovalEventHandled | internal/engine/engine.go:453-476 | the removal of a file empties exactly its place on the other side, and drops its two rows unless it was already reflected |
| Policies.DirRemovalEventHandled | internal/engine/engine.go:453-464 | the removal of a directory, unless already reflected: the other side loses it and all below, files the table does not vouch for move to the preserved directory, exactly the rows it covers go on both sides, and the conflict list has a row for it exactly if something moved |
| Policies.DoubleRemovalLosesNewFile | internal/engine/engine.go:374-378 | a removal of what is gone on both sides changes nothing, and a file created there later on one side is, under union, gone from both after the next pass, exactly unless its rows fall before its turn |
| Actions.TurnIsOk | internal/engine/resync.go:170-212 | a turn with nothing in its way never fails, stays at its path and its saved names (and below it for a lone directory), and brings no new path or special file into being |
| Actions.TurnAgrees | internal/engine/resync.go:444-596 | such a turn leaves its path in agreement, and all below a lone directory equal |
| Actions.TurnIsSafe | internal/engine/resync.go:565-595 | under union and preserve such a turn loses neither version |
| Actions.LoneDirReconciled | internal/engine/resync.go:444-499 | a directory on one side only is either gone from both sides with all below it, or on both with equal, recorded contents, as policy and table decide |
| Actions.MatchingReconciled | internal/engine/resync.go:544-554 | equal digests: only permissions and mtime can move, contents and conflict list stay |
| Actions.AttrsPropagated | internal/engine/engine.go:536-544 | the destination takes mode and mtime, keeps its content, and both rows say what is then on disk |
| Frames.ResolveResult | internal/engine/conflict.go:103-201 | resolving never fails; manual leaves both files alone, otherwise both sides end with the winner and its row, and under preserve the other version lies beside it |
| Frames.PropagateFileResult | internal/engine/engine.go:395-417 | a plain copy unless the destination left its recorded state and differs in content, and then exactly the conflict policy |
| Frames.KeepBothResult | internal/engine/conflict.go:165-199 | preserve: the destination's version under its conflict name, the source's on both sides, two writes |
| Removal.RemoveDirPreserves | internal/engine/delete.go:28-143 | preserve-unknown: nothing remains at or below the directory, every visible file the table does not vouch for sits unchanged at its relative path under the preserved name, no other file does, and all else is untouched |
| Removal.UnsyncedIsUnknown | internal/engine/delete.go:79-143 | the walk finds exactly the files without a row, or departed from it in stat and in digest, each once |
| Removal.MoveAsideMoves | internal/engine/delete.go:51-61 | the moves all succeed, one after the other, and keep every relative path |
| Resolution.ResolutionKeepsBoth | internal/engine/resolve.go:57-191 | any kinds, any policy: the loser's subtree at the path equals the winner's, its whole old subtree is under the preserved name, no other path changes, the rows say so, the conflict is closed |
| Resolution.ResolutionProvides | internal/engine/resolve.go:57-151 | where the losing side has nothing it receives the winner's subtree, and only missing parents are made besides |
| Resolution.NothingToApply | internal/engine/resolve.go:63-72 | without a version to apply, an error and no change |
| Resolution.RoomWhenFree | internal/engine/resolve.go:159-191 | the preserved name suits whenever it is not taken: its parents exist and it lies outside the path |
| Disks.CopyTreeToFreePlace | internal/transfer/transfer.go:115-128 | a tree copied to a free place is exact, and nothing else changes |
| Engine.Engine.Reconcile | internal/engine/resync.go:138-238 | scan both sides, compare, act path by path: ends in the state of the survey-first pass for an order of the union; hence converged wherever nothing stands in the way, and with no version lost under union and preserve |
| Engine.Engine.Turn | internal/engine/resync.go:170-231 | one iteration: skipped below a handled prefix or at a special file, otherwise decided from the inventories; where the survey is still true of the path it stays within its frame, leaves agreement with full digests, and the list grows exactly by lone directories and type conflicts |
| Engine.Engine.CompareInParallel | internal/engine/resync.go:308-373 | a verdict for exactly the paths that are files or links on both sides |
| Engine.Engine.UnderAny | internal/engine/resync.go:413-424 | true iff some prefix lies strictly above the path |
| Engine.Engine.ReconcileBothSides | internal/engine/resync.go:504-596 | two directories get attributes only, a directory facing a file opens a conflict row and settles all below, two files go by their verdict; with true stats and verdict it succeeds, stays within its frame and leaves agreement with full digests |
| Engine.Engine.ReconcileFiles | internal/engine/resync.go:532-596 | equal contents: attributes or just the record; different ones: the winning side of the policy, under union the one side that left its record, else the conflict policy from the newer side; hence agreement with full digests, and under union and preserve no version lost |
| Engine.Engine.ReconcileAttrs | internal/engine/resync.go:684-730 | attributes flow from the one side that left its recorded mode or mtime, else from the newer, A when equal; one version on both sides then agrees in attributes and stays that version on both |
| Engine.Engine.ReconcileOneSided | internal/engine/resync.go:444-479 | a path on one side is removed when the policy prefers the other side, or under union when the table knows it there, and copied otherwise; so a file or directory ends on neither side, or on both with equal, recorded contents |
| Engine.Engine.DeleteOneSided | internal/engine/resync.go:481-499 | the path goes from the side that has it, a directory by way of removeDir, and the rows it covers only if that succeeded; neither side then has anything at or below it, and what the table did not vouch for is in the preserved directory |
| Engine.Engine.Process | internal/engine/engine.go:316-353 | an event the table already reflects, or about a special file, changes nothing; at a settled path a file event does nothing, and whatever it writes leaves a settled path |
| Engine.Engine.PropagateFile | internal/engine/engine.go:395-417 | conflict detection first, then either the conflict policy or a copy across and both rows; a new file arrives unchanged and settled, and under preserve neither of two versions is lost unless it was the recorded one or their contents do not differ |
| Engine.Engine.PropagateDir | internal/engine/engine.go:422-451 | an empty directory is made with its nine mode bits, any other copied as a tree and all visible entries recorded on both sides; a directory the other side lacks ends there with equal, recorded contents |
| Engine.Engine.PropagateAttrs | internal/engine/engine.go:536-544 | mode and mtime to what exists on the other side, nothing created, then both rows or an error when one side has nothing; one version on both sides then agrees in attributes and stays that version |
| Engine.Engine.PropagateDelete | internal/engine/engine.go:453-476 | a directory goes by way of removeDir with its rows, a file with its two rows, a missing file is no error; the other side is then rid of it, unknown files set aside, and exactly the rows covered are gone |
| Engine.Engine.RecordPair | internal/engine/engine.go:573-585 | each side's row becomes what that side holds, or an error and no row when either holds nothing; a recorded pair is no conflict from either side, and settled if its digests agree |
| Engine.Engine.RowsBelow | internal/engine/engine.go:589-631 | the walk records every visible path at or below the root and nothing else |
| Engine.Engine.DetectConflict | internal/engine/conflict.go:34-61 | a conflict iff the destination is no directory, has no row or left it in size or mtime, and differs in content from the source, which with full digests means exactly another version; nothing is changed |
| Engine.Engine.ResolveConflict | internal/engine/conflict.go:103-201 | the conflict row is opened with both digests; manual marks the rows, newer-wins copies the newer and closes it, preserve saves, copies and closes it; the winner is then on both sides and settled, the other version beside it under preserve |
| Engine.Engine.UnsyncedUnder | internal/engine/delete.go:79-143 | the walk collects, in its order, exactly the visible files that have no row in the subtree or left theirs in stat and digest |
| Engine.Engine.RemoveDir | internal/engine/delete.go:28-70 | force, or nothing unknown: the tree goes; otherwise unknown files are moved in order, a conflict row is opened and closed and then the tree goes; with the preserved name free nothing remains at or below, the unknown files are kept unchanged, all else is untouched |
| Engine.Engine.ApplyResolution | internal/engine/resolve.go:57-151 | set the loser aside, clear the path if kinds differ or it is a directory, copy the winner, record, close; with room for the loser both versions survive whole, the rows say so and the conflict is closed |
| Engine.Engine.PreserveLoser | internal/engine/resolve.go:159-191 | the loser is copied beside itself under the synchronised name for both, else under the excluded name of its kind; with room there it is kept whole and nothing else changes |
| Scanning.Walk | internal/scan/scan.go:51-111 | the inventory holds exactly the visible paths with their stat |
| Scanning.Union | internal/scan/scan.go:116-143 | every path of either inventory, strictly sorted by depth and then by name |
| Scanning.SortedIsTopDown | internal/scan/scan.go:133-147 | so sorted, each path occurs once and a directory comes before its contents |
| Scanning.OrderIsDetermined | internal/scan/scan.go:135-143 | the two inventories alone determine the order of the pass |
| Dispatch.ParallelIsSequential | internal/engine/dispatch.go:43-122 | any number of workers, any interleaving of the small steps of handlers and loop, any handler that keeps to the components its event names: the final store is that of handling the events one by one |
| Dispatch.DispatchOrderIsKept | internal/engine/dispatch.go:80-113 | in every run the events of one partition begin in the order of dispatch |
| Dispatch.SharedComponentSharesPartition | internal/engine/dispatch.go:100-122 | events that name a common first component concern a common partition |
| Dispatch.MovesRunAlone | internal/engine/dispatch.go:83-89 | in every run a move between partitions is handled with nothing queued, nobody at work and nothing in flight |
| Dispatch.EveryActionKeeps | internal/engine/dispatch.go:51-97 | each step keeps the count of events in flight right, the order per partition, and the store each partition is heading for |
| Partitions.SubtreeSharesPartition | internal/engine/dispatch.go:108-122 | a directory and everything below it go to the same worker |
| Locality.EventLocalExactly | internal/engine/dispatch.go:13-30 | the nodes, rows and conflict rows an event other than a move changes all have the first component of its path, if and only if it neither keeps a version of a top-level file aside, nor removes a directory covering a row of another component by letter case, nor sets something aside from a top-level directory |
| Straying.TopConflictStrays | internal/engine/conflict.go:165-199 | an input for the first way out: two unrecorded versions of a file at the top of the tree, under preserve |
| Straying.CaseRemovalStrays | internal/engine/engine.go:453-464 | an input for the second: removing Docs/sub while docs/sub/y is recorded |
| Straying.PreservedDirStrays | internal/engine/delete.go:28-70 | an input for the third: a top-level directory with a file the table does not know |
| Slices.EventOn | internal/engine/engine.go:316-353 | what an event other than a move does, errors and writes included, depends only on what is around its path and its saved names, if a walk depends only on what it meets |
| Workers.EngineIsLocal | internal/engine/dispatch.go:13-30 | with saved names counted to the component of their original, the engine handles every event but moves reading and writing one component alone, as long as a removal covers no row of another one by letter case |
| Workers.EngineParallelIsSequential | internal/engine/dispatch.go:43-122 | any number of workers and any interleaving of handlers that run the engine in steps within the component of their event, no removal in its turn forgetting rows of another component: the final store is that of exactly the state that handling the events one by one ends in |
| Partitions.Hash | internal/engine/dispatch.go:126-137 | the loop computes FNV-1a over all bytes of the name |
| Debounce.EveryEventHasOneFate | internal/debounce/debounce.go:70-121 | every event pushed before Close, moves apart, is in exactly one slot, which stands for the merge of all it took in, is emitted once if sent and never otherwise, and has its fate decided when the output closes |
| Debounce.NothingSentOnClosed | internal/debounce/debounce.go:176-192 | in every interleaving the output is open whenever a send is about to happen |
| Debounce.NoEmissionAfterClose | internal/debounce/debounce.go:96-119 | once Close has marked the debouncer closed no emission starts and no push is taken |
| Debounce.PendingWillBeServed | internal/debounce/debounce.go:88-121 | a slot in the map has a live timer or a callback waiting for the lock |
| Debounce.QuietSlotIsEmitted | internal/debounce/debounce.go:96-119 | a pending slot whose timer fires and whose callback gets the lock is emitted, with the event it stands for |
| Debounce.FatesAreFinal | internal/debounce/debounce.go:146-161 | sent, released, cancelled or dropped: no later step revises it |
| Debouncers.Debouncer.Push | internal/debounce/debounce.go:70-121 | a move cancels both its paths and keeps the lock, any other event is merged into the pending slot of its path with the timer reset, or opens one; the invariant of the step system holds again |
| Debouncers.Debouncer.Callback | internal/debounce/debounce.go:96-119 | goes on to emit iff the slot was still pending, and then counts the emission before the lock is free; the invariant holds again |
| Debouncers.Debouncer.BeginClose | internal/debounce/debounce.go:176-188 | stopping and forgetting slot by slot drops exactly the pending ones |
| Expectations.SweepIsInvisible | internal/guard/guard.go:219-244 | two histories that differ only in their sweeps, under a clock that never runs backwards, give every event the same answer |
| Expectations.SuppressionsAreGranted | internal/guard/guard.go:93-193 | per key, in any history, exact matches never exceed what Expect granted |
| Expectations.ConsumeExactly | internal/guard/guard.go:149-193 | an event is taken for an echo iff an expectation for one of its paths is alive or a live subtree of its side covers one |
| Expectations.AnnouncedIsRecognised | internal/guard/guard.go:93-193 | up to the number announced and the deadline, every event of the path is recognised, whatever was there before |
| Guards.Guard.Expect | internal/guard/guard.go:93-108 | adds to a live expectation, replaces a dead one, and moves the deadline |
| Guards.Guard.ExpectSubtree | internal/guard/guard.go:117-129 | renews the subtree of that name in place or appends it |
| Guards.Guard.Consume | internal/guard/guard.go:149-193 | the answer and the whole new memory: first live exact expectation spent, dead ones dropped on the way, then subtrees |
| Guards.Guard.ForgetSubtree | internal/guard/guard.go:132-144 | filtering in place removes all subtrees of that name |
| Guards.Guard.Sweep | internal/guard/guard.go:219-244 | exactly the expired expectations and subtrees go, and the count returned is theirs |
| Digests.SampledDigestSaysExactly | internal/hash/digest.go:171-234 | above the limit equal sampled digests mean same size, same first and same last sample, and nothing more |
| Digests.EqualContentNeverDiffers | internal/hash/digest.go:134-148 | no limits make Compare tell files of equal content apart |
| Digests.FullDigestsDecide | internal/hash/digest.go:134-201 | without sampling Compare answers Same exactly for equal files or links |
| Digests.AcceptedMeansSampleFits | internal/config/config.go:219-237 | accepted and no overflow iff twice the sample is below the limit; beyond half of int64 everything is accepted |
| Digests.TextRoundTrip | internal/hash/digest.go:54-115 | parsing the text of a digest of known kind with colon-free hex succeeds, compares Same, and keeps kind, hex and sampled size |
| Digests.ParseFormatted | internal/hash/digest.go:87-115 | every int64 written in decimal reads back |
| Digests.ComputedSurvives | internal/state/state.go:116-186 | a digest stored as text and read back answers every comparison as before |
| Digests.FeedSample | internal/hash/digest.go:203-234 | two contents feed the hash the same bytes if and only if they agree in size, in the first sample and, where it does not overlap, in the last |
| WatchIndex.AddKeepsExactly | internal/watcher/tree.go:27-37 | add keeps the two maps inverse iff the path is new or already that descriptor's |
| WatchIndex.RemoveKeeps | internal/watcher/tree.go:53-60 | remove keeps them inverse and forgets that descriptor alone |
| WatchIndex.RemoveSubtreeKeeps | internal/watcher/tree.go:64-77 | the descriptors returned are exactly those at or below the path, and the rest stays |
| WatchIndex.RenameKeepsExactly | internal/watcher/tree.go:82-106 | renameSubtree keeps them inverse iff no path that stays is in the way of one that moves |
| WatchIndex.RenameBackRestores | internal/watcher/tree.go:82-106 | into a prefix where only what moves is watched, renaming back restores the index |
| Watching.Tree.Add | internal/watcher/tree.go:27-37 | descriptor and path then lead to each other, every other path but the descriptor's old one is kept, and the maps stay inverse iff the path was new or already this descriptor's |
| Watching.Tree.RemoveSubtree | internal/watcher/tree.go:64-77 | deleting while walking the map drops exactly the subtree from both maps and returns exactly its descriptors |
| Watching.Tree.RenameSubtree | internal/watcher/tree.go:82-106 | on a consistent index the two loops move every path at or below the old prefix to the new one, descriptors kept |
| Inotify.ParseRoundTrip | internal/inotify/inotify.go:183-213 | parsing the kernel's layout of any events with NUL-free names and any padding, followed by part of one more record, returns those events |
| Inotify.TruncatedIsDropped | internal/inotify/inotify.go:190-192 | a buffer that ends within a record yields nothing more |
| Inotify.ParseBuffer | internal/inotify/inotify.go:183-213 | the loop stays within the buffer, ends, and returns what the recursive reading does |
| Inotify.IndexByte | internal/inotify/inotify.go:215-222 | the first occurrence, or -1 |
| Like.SubtreePatternIsPrefixTest | internal/state/state.go:221-247 | the escaped pattern matches exactly what starts with the path and a slash, letters compared without ASCII case |
| Like.EscapedMatchesItself | internal/state/state.go:464-475 | an escaped text consumes exactly its own length, whatever wildcards it holds |
| Like.Escape | internal/state/state.go:464-475 | the loop over the bytes yields the escaped text |
| Store.DeleteSubtreeExact | internal/state/state.go:220-226 | exactly the subtree is forgotten iff no row sits below a path that differs by case alone |
| Store.DeleteSubtreeForgetsOtherCase | internal/state/state.go:220-226 | a concrete row outside the subtree that is forgotten |
| Store.SelectedIsCovered | internal/state/state.go:221-247 | the WHERE clause with its pattern is the plain test used in the model |
| Names.ConflictNameInjective | internal/engine/conflict.go:209-220 | equal names come from equal path, side and timestamp |
| Names.KeepsDirectoryAndExtension | internal/engine/conflict.go:203-220 | the saved copy stays in its directory and keeps its extension |
| Names.SavedNamesAreExcluded | internal/config/config.go:168 | nothing at or below a saved name takes part in synchronisation under the default pattern |
| Names.SavedDisjoint | internal/engine/conflict.go:209-220 | what is saved for one path is never what is saved for another |
| Exclude.ConflictPatternIsMarker | internal/config/config.go:168 | the default pattern matches exactly the components that contain the marker |
| Exclude.ExcludedBelow | internal/config/exclude.go:39-56 | what lies below an excluded path is excluded |
| Exclude.Search | internal/config/exclude.go:39-56 | the nested search over components and patterns answers the predicate |

## Left out

- Renames: propagateMove, and reconcileSubtree with a scope other than the whole tree, are not modelled; moves appear in the debouncer, the guard and the dispatcher.
- Directory attributes: a directory's mtime is not part of the model, since creating a child changes it, and permissions of a new empty directory are its nine bits only, so a second pass may still adjust directories.
- Ownership, hardlinks and the content of special files.
- Exclude patterns that contain a slash, and character classes or escapes in patterns; component patterns with * and ? are modelled.
- A file event whose source is by then a directory, and a destination directory that is a link.
- Times of recording and detection in the table.
- Errors other than structural ones (missing, not a directory, is a directory, not empty, not synchronisable): reading, writing and the database do not fail.
- The guard inside the engine: the run theorems hold for every behaviour of it, so its calls are not repeated there.
- Retries, heartbeat, command line, preflight and the resolution queue around ApplyResolution.
- mtimes outside the years 1823 to 2116, where the difference of two times would saturate.
- SHA-256: idealised as a text of hex digits that differs for different input.
- A path is taken as its sequence of bytes, one char each.
- Context cancellation, except where the debouncer releases an emission by it.
- Deadlock freedom, and a failure handler that blocks.
- Workers.EngineParallelIsSequential: moves are not among its events; one timestamp per path names its saved copies; the table is taken as one map per component, since a removal that forgets rows of another one would write there while its worker reads them.
- EventRuns.EveryRunEnds: events that create or remove directories are not among the pending ones; a new directory leads to attribute events that need not end (Rebounds.DirAttribsLoop), and a removal is not checked against its source again.
- EventRuns.EventHandled: file events at a path where one side has a directory or a special file are not covered.
- Reconciled.Converges: with sampled digests agreement of contents is not promised; what equal samples mean is Digests.SampledDigestSaysExactly.
- Edit against delete of a single file: deleteOneSided removes the file unchecked, and so does the model.
- Inotify.ParseRoundTrip: integers are little-endian, as on the platforms the service is packaged for.
