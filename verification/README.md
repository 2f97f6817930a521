# UTXO-Z: a verified model

UTXO-Z keeps unspent transaction outputs in size classes. Each class is a row of version files with
identities that never change: inserts go to the highest one and rotate to a fresh one when it is full,
deletions reach into the older ones, and compaction builds one file out of several. This project models
that store and proves what its documentation promises: that no crash during a merge or a recovery loses or
duplicates an entry, that the whole store behaves as one map, that a batch of deletions accounts for every
key under any fault, that the bounded-memory uniqueness check is exact, and that a census is either
refused or true.

`dafny verify dfyconfig.toml` checks everything.

## How it is put together

| files | what they hold |
|---|---|
| `Basics`, `Greedy`, `Checked` | shared values, the error codes, one map in several pieces, greedy cuts, checked 64-bit arithmetic |
| `Disk` | inodes, a directory with a durable half and a list of pending changes, barriers, power cuts |
| `Recovery`, `CrashSafety`, `Merge`, `Settling`, `MergeEffect`, `CrashRuns`, `Chain`, `Tidying`, `Evidence`, `Confluence`, `Untouched`, `Thrown` | what a directory means, the trace of a merge for every way its steps can fail and every name it leaves, the trace of a recovery and what it asks of a directory, crash conservation, where interrupted recoveries end, and what an exception out of a merge leaves |
| `Limits`, `Witnesses` | three places where the protocol does not meet the property, each with its exact condition; and an input for every place where the code falls short |
| `BuildLoop`, `Grouping`, `Compaction`, `Reopening`, `Configuring` | the imperative side: the build loop, `merge_versions`, `merge_groups`, `recover_pending_merges`, opening |
| `Sidecar` | the bytes of a merge record |
| `Batch`, `StoreState`, `Insertion`, `Deletion`, `Resolution`, `Retry`, `Walks`, `Store` | batches, one open instance, the way a batch goes through its versions, and its operations as methods of one class |
| `Backing`, `Runs`, `Power`, `Flushed`, `Durability`, `Instances`, `Gates` | whole runs against one map, the same runs on disks that lose power, what outlives a power cut whatever is unflushed, the durability register, what a compaction leaves of the whole instance, the gates |
| `Partitioning`, `Hashing`, `Planning`, `Uniqueness` | the uniqueness verifier |
| `Census`, `Probes` | the census and the derived lookup counters |

Every fault is a parameter. A `Fate` holds the result of every step of a merge that can fail, the unchecked
removals included, an `Escape` after how many of them an exception leaves it; an `InsertLuck` what the allocator does to an insertion, `Faults` which files refuse to
open and where an exception fires, a `ReadFaults` and an allowance which reads and how many steps of a
recovery succeed, `visits` which pass of the uniqueness check meets a file that does not open. Theorems are
about every value of them.

**The crash model is a parameter too.** A power cut keeps a part of the directory changes since the last
barrier: any part at all (`AnySubset`), or an initial run of them (`InOrder`). A file's contents survive
only once synced. Every ordered survivor is also an arbitrary one (`Disk.InOrderIsASubset`). `MergeIsSafe`,
`RecoveryIsSafe`, `CrashConservation`, `CalmAfterMerge`, `CalmAfterRecovery`, `ConfluentUnderPowerCuts` and
the whole runs of `Power` hold for both. `Runs` tells what a process does and how it can die; `Power` puts
the same events on disks, adds `sync` and the loss of power, and proves that every state of every run means
one map. Until a `sync` has reached everything, contents written in place may be lost; `Power` therefore lets
the power fail while the machine is `settled`, which merges, deaths in merges, recoveries and cut recoveries
keep under the conditions written there. `Flushed` is about a machine with any amount of unflushed work, its
process alive or dead, in the middle of a merge or of a recovery: what a `sync` or a merge confirmed and nothing has
written to or retired since is there after the power cut, entries and all.
`UnconfirmedRemovalsComeBack` and `ReopeningNeedsADurableTarget` are
about `AnySubset`.

## Where the code falls short of its promises

Each of these is proved with its exact condition, and `Witnesses` gives an input for each.

1. A record naming more than 64 sources is refused on reading (`src/detail/merge_sidecar.hpp:160`, `:274`),
   and `merge_groups` never limits a group to 64, although the comment beside the limit says that no merge
   combines more. A crash in such a merge leaves a database that does not open; no entry is lost.
   (`Limits.WideMergesDoNotReopen`; 65 empty versions: `Witnesses.SixtyFiveVersions`)
2. When the last barrier of a merge fails the code only warns (`src/database_impl.cpp:2249-2256`, where a
   comment explains why that is thought to be enough). A power cut in the next merge may then bring the old
   record back beside the new one, and recovery refuses two. (`Limits.UnconfirmedRemovalsComeBack`; versions
   0, 1, 2, then 0 and 1 merged, then 2 and 3: `Witnesses.TwoMergesInARow`)
3. Recovery that finds the target unlinks the sources without a barrier first
   (`src/database_impl.cpp:1732-1743`). After a latch or a kill the target's own name may still be pending,
   and a power cut that keeps the unlinks and loses the name loses every entry.
   (`Limits.ReopeningNeedsADurableTarget`; one entry in two versions: `Witnesses.ReopenedTooEarly`)
4. Compaction closes the active version without noting it as owed a flush
   (`src/database_impl.cpp:2329`). Whether the compaction succeeds or fails: when that version is neither
   durable nor owed, no run takes it in and some run merges, it is not active afterwards and no `sync` looks
   at it (`Durability.CompactionForgets`). Before the call, and whatever may stop it, a caller can tell: no
   compaction forgets the version if and only if it is durable or owed, or no two neighbours below it share no
   key and fit together (`Instances.ClosingIsSafe`). If the compaction succeeds and capacity is the only obstacle it
   meets, the sizes tell (`Durability.CapacityForgets`; sizes 1, 1, 2 and a limit of 2:
   `Witnesses.ForgottenVersion`). Without that premise they do not: the check for free space
   (`src/database_impl.cpp:1887-1892`) may refuse the longest run that fits (the same sizes and a limit of 4:
   `Witnesses.ForgottenForWantOfSpace`).
5. An exception between the first erasure in an older file and its `note_dirty` leaves the file out of the
   register. (`Deletion.ErasedIsRegistered`, `Witnesses.UnnotedErasure`)
6. `classify_post_exception` compares the size and the shape of a map and looks for the key. A changed map is
   answered and latched `entry_corrupt` if and only if one of the three tells it apart
   (`Insertion.ChangesAreSeen`); a failed `emplace` that left another map of the same size and shape without
   the key goes unnoticed, and an insertion then answers that there is no room though the entries changed
   (`Insertion.InsertMeans`, `Witnesses.UnseenDamage`). A container that keeps its guarantee never does this.
7. Once the record of a merge has its name, `merge_versions` still allocates outside any handler: paths
   (`src/database_impl.cpp:2141`, `:1666`, `:2223`) and the row of the catalogue
   (`src/detail/version_catalog.hpp:75-80`). An exception there is answered `file_open_failed` by
   `compact_container` (`src/database_impl.cpp:2325-2351`), sets no latch, and the active version is opened
   again: the instance serves above a merge in flight. That is the only way it can, and it does if and only if
   the record is named where the exception leaves the merge (`Runs.SealedUnlessThrown`). What is read stays right,
   and closing and opening puts everything right if nothing was written in between. What was written to a
   file is there after the opening if and only if the file is no source of the merge
   (`Thrown.WrittenThenReopened`): an entry inserted into a source is lost, and one erased from a source comes
   back out of the target. A rotation that takes the name of a target not yet published keeps the store from
   opening (`Thrown.NameTakenThenReopened`). Two empty versions and one insertion: `Witnesses.LostInsertion`.

## Model

| member | source | states |
|---|---|---|
| `Merge.MergeIsSafe` | src/database_impl.cpp:1861-2256 | however its steps fail, cutting a merge after any of them and losing power under either crash model leaves files that count holding exactly the entries from before, each once, with at most one coherent record |
| `CrashRuns.RecoveryIsSafe` | src/database_impl.cpp:1695-1830 | the same for a recovery on a directory whose crash kept what it must |
| `CrashRuns.CrashConservation` | src/database_impl.cpp:1695-1760 | a merge cut anywhere, any number of crashed reopenings, then one that completes: the canonical files hold exactly the map from before the merge; a recovery that refuses has changed nothing, and refuses only a record wider than 64 |
| `CrashRuns.AttemptsKeepSafe` | src/database_impl.cpp:1767-1830 | every crash and cut reopening of a run leaves a directory as safe as the one before |
| `Disk.InOrderIsASubset` | src/detail/durability.hpp:49-61 | every directory that losing changes in order can leave, losing any of them can leave too |
| `Chain.CalmAfterMerge` | src/database_impl.cpp:2183-2256 | after a merge that latched nothing the next one may start; with independent losses only when the last barrier held |
| `Chain.CalmAfterRecovery` | src/database_impl.cpp:1767-1830 | after a recovery that ran to its end the next merge may start and the directory is safe to lose power in; with merge, power cut and recovery this closes the cycle under either crash model |
| `MergeEffect.MergeEffects` | src/database_impl.cpp:1861-2256 | what is visible after a merge: a refused one changed no canonical file and left no record, a complete one replaced the sources by one file of all their entries, a latched one serves the same entries from what the catalogue names |
| `Tidying.RefusedMergesTidyUp` | src/database_impl.cpp:1913-2058 | an error that latches nothing leaves all canonical files and no record, and leaves a `.building` if and only if there was one at the end, its own or an older one whose first removal failed, and its removal failed |
| `Tidying.MergeLeaves` | src/detail/durability.hpp:609-634 | every name after a merge that ran to its end, whatever its outcome: the `.building` name of a published target is there if and only if the second half of the publication failed, that of any other if and only if it was there to be removed and was not; the temporary of the record only if the record was not named and its removal failed; the record unless its removal was reached and worked; the target with the merged entries if and only if it was published; a source unless it was retired; and every other name as it was |
| `Tidying.AnswersByWhatIsLeft` | src/database_impl.cpp:2058-2256 | a merge is complete if and only if the target has its name and the record has not, and latched whenever the record is still named; an error that latches nothing leaves neither; and which step each error code is about |
| `Settling.RecoverySettles` | src/database_impl.cpp:1767-1830 | a recovery that completes leaves no record, no unfinished build and no temporary, and exactly the files that counted |
| `Settling.RecoveryIsIdempotent` | src/database_impl.cpp:1767-1830 | recovery of a settled directory does nothing |
| `Settling.RecoveryIsConfluent` | src/database_impl.cpp:1695-1760 | cut after any step and rerun, recovery ends with the same canonical files as one that was not cut |
| `Confluence.ConfluentUnderPowerCuts` | src/database_impl.cpp:1695-1830 | the same when the power goes instead: from a directory with nothing pending, every survivor of a power cut after any step, under either crash model, is recovered to the same canonical files |
| `Confluence.InterruptionsConverge` | src/database_impl.cpp:1695-1830 | so it is after any number of such interruptions in a row |
| `Confluence.RetiresOnEvidence` | src/database_impl.cpp:1716-1743 | in any directory whatever, recovery unlinks a canonical file only if a readable record names it and the file at its target bears the record's identifier |
| `Evidence.RunsOnEvidence` | src/database_impl.cpp:1767-1810 | of every directory: recovery goes through if and only if there is no record, or one alone that is legible and names the version it is filed under, one to sixty-four sources in ascending order, none of them the target, and a non-zero identifier, and the target is absent or bears that identifier; any other directory is refused untouched |
| `Evidence.UnlinksOnEvidence` | src/database_impl.cpp:1695-1760 | recovery unlinks a record if and only if it is there, legible and about the file at its target's name, and a canonical file if and only if it is a source of a merge whose target is published |
| `Evidence.RecoveryLeaves` | src/database_impl.cpp:1767-1830 | what a recovery that goes through leaves of any directory: the canonical files as they were, but for the sources of a published merge, and no record, unfinished build or temporary |
| `Settling.RecoveryRuns` | src/database_impl.cpp:1767-1830 | recovery of a coherent directory goes through if and only if no record names more than 64 sources |
| `Limits.WideMergesDoNotReopen` | src/detail/merge_sidecar.hpp:274-276 | a merge that names its record can be reopened wherever it is cut if and only if it has at most 64 sources |
| `Limits.UnconfirmedRemovalsComeBack` | src/database_impl.cpp:2249-2256 | after a complete merge the next one can be reopened wherever it is cut if and only if the barrier after the record's removal held |
| `Limits.ReopeningNeedsADurableTarget` | src/database_impl.cpp:1732-1743 | recovery on a merge that latched, wherever it did, is safe at every step if and only if the merge had published nothing or the target's barrier had held |
| `Witnesses.SixtyFiveVersions` | src/database_impl.cpp:2354-2393 | 65 empty versions on a directory at rest, merged with no fault, and a cut after which it does not open |
| `Witnesses.TwoMergesInARow` | src/database_impl.cpp:2249-2256 | two merges in a row, the last barrier of the first failing, and a cut of the second after which the directory does not open |
| `Witnesses.ReopenedTooEarly` | src/database_impl.cpp:1732-1743 | one entry in two versions, a merge that stops at the target's barrier, and a recovery that may lose the entry |
| `Witnesses.ForgottenVersion` | src/database_impl.cpp:2325-2351 | a compaction that meets its contract with capacity the only obstacle, a register complete before it, and a version neither durable nor registered nor active after it, as the sizes foretell |
| `Witnesses.ForgottenForWantOfSpace` | src/database_impl.cpp:1887-1892 | the same with a run refused for want of free space: the compaction succeeds and forgets a version that the longest run that fits would have taken in |
| `Witnesses.UnnotedErasure` | src/database_impl.cpp:1383-1393 | a complete register, one erasure and an exception, and a register that is not |
| `Witnesses.UnseenDamage` | src/detail/insert_transition.hpp:134-140 | an insertion that answers there is no room, latches nothing, and leaves other entries than there were |
| `Witnesses.LostInsertion` | src/database_impl.cpp:1665-1677 | a merge that an exception leaves at the marker of its target, an insertion answered `true` and in its file, and an opening after which it is nowhere |
| `BuildLoop.MoveSource` | src/database_impl.cpp:1964-2058 | one source moved into the target: complete and disjoint, or the duplicate or the lack of room that stopped it |
| `BuildLoop.CollectEntries` | src/database_impl.cpp:1931-2058 | the build loop over every source, under any unreadable source and any throwing insertion |
| `BuildLoop.Classification` | src/database_impl.cpp:1931-2058 | with every source readable, `duplicate_key` exactly when sources share a key and the distinct keys fit; disjoint sources succeed if and only if their total is within the limit |
| `BuildLoop.SharedKeysAreFewer` | src/database_impl.cpp:1964-2058 | sources are disjoint if and only if the union has as many keys as the sources have entries |
| `Compaction.Compactor.Attempt` | src/database_impl.cpp:1861-2256 | the method whose steps are exactly the trace of the proofs above, with the outcome, the catalogue, the register and the latch it leaves; what that trace leaves of every name is in `Tidying.MergeLeaves` |
| `Compaction.Compactor.RetireAll` | src/database_impl.cpp:2196-2245 | the sources leave the catalogue and the register, every removal is attempted, and the record goes only after all succeeded and were confirmed |
| `Compaction.Compactor.PublishTarget` | src/database_impl.cpp:2132-2180 | publication, its withdrawal when refused, with `identity_collision` for a name taken in between and `rename_failed` otherwise, and the latch when neither can be confirmed |
| `Compaction.Compactor.MergeVersions` | src/database_impl.cpp:1861-2256 | one merge: refused before anything is written exactly by a taken name, a failed check, no entropy or an exception; otherwise what it did to the directory, the catalogue and the register, to its end or up to where an exception left it, what each error says of the sources, and that without faults disjoint sources merge if and only if they fit. Run to its end it leaves every name of the directory as `Tidying.MergeLeaves` says |
| `Compaction.Compactor.MergeGroups` | src/database_impl.cpp:2354-2393 | whether it succeeds or fails: the row of versions is cut into consecutive runs as far as it got; a run of one is still catalogued with its table, a longer one is one new version holding the union of exactly those tables, and the rest is untouched; every key keeps every entry it had and gains none, with or without duplicates. With capacity the only obstacle the runs are the longest that fit and the class ends with the fewest files any cutting allows; without faults it only stops for a taken name; left by an exception anywhere it answers `file_open_failed`, latches nothing, and the catalogue names every canonical file unless a record is named; crash safe throughout |
| `Compaction.Container.CompactContainer` | src/database_impl.cpp:2325-2351 | the same account with the active version closed before and opened again after: a failed merge is the answer before a failed reopening; an exception out of the merging, before it has written anything or after any of its steps, is answered `file_open_failed`, never swallowed and latches nothing; a lost active version latches; without any of these the container is mapped and not latched |
| `Grouping.MergesConserve` | src/database_impl.cpp:1931-2058 | a merge of disjoint sources keeps every entry of every key and adds none, whatever duplicates the other versions hold |
| `Instances.MergesAsInRuns` | src/database_impl.cpp:1861-2256 | what the contract of one merge says of its class, run to its end or left by an exception, is one merge, or one exception out of a merge, of the whole-run model |
| `Instances.GroupsAreCompacted` | src/database_impl.cpp:2325-2351 | what the contract of the groups says of its class, whether they succeeded or failed and whatever stopped them, is the compaction the register is judged by |
| `Instances.ClosingIsSafe` | src/database_impl.cpp:2325-2351 | before the call: no compaction, whatever faults it meets, leaves the register incomplete if and only if the version about to be closed is durable or registered, or no two neighbours below it can be merged |
| `Compaction.Compactor.LongestRun` | src/database_impl.cpp:2354-2393 | the shrinking attempts settle on the longest run that fits |
| `Greedy.GreedyIsFewest` | src/database_impl.cpp:2354-2393 | taking the longest run each time is never beaten by any other cutting of the row |
| `Greedy.LongestRunsAreGreedy` | src/database_impl.cpp:2354-2393 | there is one such cutting, and a caller can work it out from the sizes |
| `Reopening.Opening.RecoverRecord` | src/database_impl.cpp:1695-1760 | `recover_one` performs its trace up to the first step or read that fails, the marker and the look for the target included, and answers the error of that one |
| `Reopening.Opening.RecoverPending` | src/database_impl.cpp:1767-1830 | `recover_pending_merges` performs its trace up to the first step that fails or the first listing, record or marker that cannot be read, and answers the error of that one. Of any directory whatever: several records, one that cannot be read or does not spell a merge of one to sixty-four other ascending versions into the version its name says with an identifier, or one whose target was written by something else, is answered `recovery_failed` with nothing done; it succeeds if and only if there is no such obstacle and every read and step works, and then leaves exactly the canonical files that are no source of a published merge |
| `Configuring.Configuration.Configure` | src/database_impl.cpp:682-862 | opening succeeds if and only if every catalogue lists, every class without a version can be given one, and every version opens and holds a map; otherwise the first class that does not open gives the error, a version zero that cannot be made or the highest version that does not open or holds no map; what is opened is what the directory holds, with an empty version zero where a class had none, nothing owed or latched, no identity issued beyond the last of each class, and the running total is the number of entries in it |
| `Configuring.Configuration.CountClass` | src/database_impl.cpp:820-856 | the active version and those below it are each opened and counted once, the highest first; it fails if and only if one of them does not open or holds no map, and with the error of the first |
| `Sidecar.Encode` | src/detail/merge_sidecar.hpp:217-235 | every field of the record at its place, little-endian, sealed by the checksum of what precedes it |
| `Sidecar.Decode` | src/detail/merge_sidecar.hpp:246-327 | a plan comes back exactly when the bytes spell one that recovery may act on |
| `Sidecar.WriteThenRead` | src/detail/merge_sidecar.hpp:217-327 | what is written is read back if and only if it has 1 to 64 ascending sources, none of them its target, a non-zero identifier, and numbers the platform can hold |
| `Sidecar.OneMeaning` | src/detail/merge_sidecar.hpp:246-327 | bytes spell at most one record |
| `Sidecar.DamageIsSeen` | src/detail/merge_sidecar.hpp:175-183 | one changed byte anywhere, and the bytes spell no record at all |
| `Sidecar.SumSeesTheByte` | src/detail/merge_sidecar.hpp:175-183 | the checksum tells apart any two strings that differ in one byte |
| `Sidecar.ReadableIsSensible` | src/detail/merge_sidecar.hpp:315-324 | what the recovery model takes for a readable record is what the bytes allow |
| `Batch.WorkingSetIsFirsts` | src/database_impl.cpp:51-63 | the working set is the first occurrence of each distinct key, all of them |
| `Batch.WorkingSetOf` | src/database_impl.cpp:51-63 | the loop computes it |
| `Batch.StepOverFile` | src/database_impl.cpp:1355-1395 | one older file: which requests it erased, which it left pending, and whether it was noted, with an exception after any erasure |
| `StoreState.ClassOf` | src/database_impl.cpp:165-170 | the first class the value fits |
| `Store.Database.RotateFor` | src/database_impl.cpp:903-925 | the retiring version is owed a flush, an empty one with a fresh identity takes over, or the instance is latched |
| `Store.Database.Insert` | src/database_impl.cpp:886-901 | the first class the value fits takes it, and a value that fits none is refused with nothing changed |
| `Store.Database.InsertInIndex` | src/database_impl.cpp:929-1174 | the rotate-and-retry machine, for every guard, rotation and allocator: `true` if and only if the key is absent from the map that is tried, every rotation asked for works, and the first `emplace` does or, after a failure that left the map intact, the second; `false`, `insufficient_space` and `file_open_failed` each under its own exact condition; the entry is in the active version; and as many generations as those conditions say are made |
| `Insertion.AnswersExactly` | src/database_impl.cpp:941-1174 | the same of its specification: what an insertion answers is told by the key, the guard, the two rotations and the two attempts, in both directions for every answer |
| `Insertion.InsertMeans` | src/database_impl.cpp:929-1174 | what each answer means for the entries: `true` gains exactly that entry in the version active on return; `false` means the key was in the active map and nothing changed; an error without the latch left the entries alone if and only if the first failure did not leave another map of the same size and shape without the key; at most two generations, each counted. When each answer is given is in `AnswersExactly` |
| `Insertion.ChangesAreSeen` | src/detail/insert_transition.hpp:134-140 | an insertion is answered and latched `entry_corrupt` if and only if a failed `emplace`, at the first attempt or at the retry, moved the size or the shape of its map or left the key in it |
| `Insertion.PresentKeysAreRefused` | src/database_impl.cpp:941-964 | a key in the active map is answered `false` and nothing happens, whenever the map is looked at or `emplace` works |
| `Insertion.InsertKeepsBooks` | src/database_impl.cpp:1016-1030 | an insertion that does not latch corruption keeps the running total and the register right |
| `Store.Database.EraseFromActives` | src/database_impl.cpp:1305-1326 | phase one: the active maps, class after class |
| `Store.Database.WalkCached` | src/database_impl.cpp:1505-1521 | phase two, the cached files: each in turn while keys are pending, whatever became of those before; a file that does not open or throws marks the batch incomplete and stops nothing |
| `Store.Database.WalkCatalogues` | src/database_impl.cpp:1522-1552 | phase two, class after class: its catalogue, then every version below the active one that the cache did not hold, the nearest first, while keys are pending; a class that does not list or a version that does not open stops nothing else |
| `Store.Database.ApplyDeletes` | src/database_impl.cpp:1268-1590 | with any file refusing to open, any exception and any cache, what the store lost and what the caller is told agree; its stops are the first of `Walks.WayIs`, all of them if keys are left, each made while some key was in nothing read before; no key left was in an active version or in one read; the error is there if and only if a stop failed, `catalog_unreadable` if and only if a catalogue did; a call without faults completes |
| `Walks.LeftOnlyUnread` | src/database_impl.cpp:1462-1539 | a key a batch leaves, absent or unresolved, was in no active version, in no cached one and in none of a class that lists, but for versions that did not open and versions an exception cut short after that many keys had been taken from them: one unreadable file spares no other |
| `Walks.BatchErrorsExactly` | src/database_impl.cpp:1462-1563 | the error of a batch without exceptions, told without the walk: there if and only if some key was still awaited, stored in nothing that opens before, at a version that does not open or a catalogue that does not list, `catalog_unreadable` if and only if at such a catalogue; a batch that has found all its keys answers none |
| `Walks.WayIs` | src/database_impl.cpp:1505-1552 | the way through the older versions: the cached ones as the cache lists them, then class after class the catalogue and, if it lists, each older version that is not cached, the highest first |
| `Deletion.BatchIsPartitioned` | src/database_impl.cpp:1555-1569 | `erased`, `absent` and `unresolved` partition the first occurrences of the distinct keys |
| `Deletion.LossesAreExact` | src/database_impl.cpp:1312-1395 | the store lost one copy per erased key, from the file that held it, and nothing else |
| `Deletion.AbsentMeansNowhere` | src/database_impl.cpp:1565-1569 | an `absent` key is in no active or older version of any class |
| `Deletion.ErasedIsRegistered` | src/database_impl.cpp:1383-1393 | a file erased from stays registered unless the exception came after its very first erasure, it is not active, and it was not registered before |
| `Deletion.RefuseDeletions` | src/database_impl.cpp:67-80 | a refused batch comes back with each distinct key once, unresolved |
| `Retry.RetriesConverge` | src/database_impl.cpp:1268-1590 | resending only what is unresolved through any faulty calls until one completes removes exactly the stored keys of the first batch, and no key is erased by two calls |
| `Retry.CallByKeys` | src/database_impl.cpp:1268-1590 | one call, key by key: erased, absent or still owed, and what the store then holds |
| `Store.Database.FullFind` | src/database_impl.cpp:3540-3568 | the entry in the active map of the first class that has the key, or the key is in none |
| `Store.Database.FullResolve` | src/database_impl.cpp:3572-3846 | whatever the cache held and in whatever order, a resolution that succeeds is exact; it succeeds if and only if no version it had to open and no catalogue it had to list failed, and answers `catalog_unreadable` if a catalogue did and `version_unreadable` otherwise |
| `Walks.ResolutionErrorsExactly` | src/database_impl.cpp:3668-3820 | a resolution fails if and only if some key is still awaited, stored in nothing that opens before, at a version that does not open or a catalogue that does not list; so one that has found every key before the faulty file succeeds |
| `Resolution.ResolveMeans` | src/database_impl.cpp:3668-3846 | `found` is exactly the requested keys stored below an active version, with their entries, and `absent` the rest, each once |
| `Store.Database.Sync` | src/database_impl.cpp:2514-2589 | success if and only if no cleanup is pending and every barrier it owes works: each active version, the mappings, each registered file, the directory; it leaves every version durable and the register empty; failure discharges nothing |
| `Durability.WorkKeepsRegister` | src/database_impl.cpp:280-292 | an insertion, a rotation, an erasure, a sync or a compaction keeps the register complete if and only if no exception preceded a note and no compaction forgot the version it closed |
| `Durability.RegisterOverRuns` | src/database_impl.cpp:2514-2589 | over every run of them in which no exception precedes a note, no compaction forgets the version it closes and no insertion is answered `entry_corrupt`, failed compactions included, the register is complete and the total right, so a sync that succeeds leaves everything durable |
| `Durability.CompactionForgets` | src/database_impl.cpp:2325-2351 | after any compaction, one that failed or was stopped by whatever refusal included, the register is complete if and only if the version that was active was durable or registered, or a run took it in, or nothing was merged |
| `Durability.FlushedIsNotForgotten` | src/database_impl.cpp:2325-2351 | so a version that was flushed or noted before it is closed is never forgotten, however the compaction ends |
| `Durability.CapacityForgets` | src/database_impl.cpp:2354-2393 | of a compaction that succeeded with capacity the only obstacle: the register is complete afterwards if and only if, before the call, the active version was durable or registered, or the longest runs that fit take it in, or they merge nothing |
| `Durability.CompactionKeepsTotal` | src/database_impl.cpp:2354-2393 | the running total is right after any compaction if it was before |
| `Backing.MergePrefixRepresents` | src/database_impl.cpp:1861-2256 | a process dying at any step of a merge leaves a directory that still means the same entries |
| `Backing.RecoveryPrefixRepresents` | src/database_impl.cpp:1695-1830 | the same for a recovery |
| `Runs.StepKeepsInv` | src/database_impl.cpp:2106-2247 | insertion, deletion, flush, merge, an exception out of a merge after any step, latch, death anywhere, partial recovery and opening each keep the directory and the instance equal to one map, as long as nothing is written between an exception that left a merge with its record named and the next opening |
| `Runs.SealedUnlessThrown` | src/database_impl.cpp:2325-2351 | an instance that serves comes to have a merge in flight below it if and only if an exception leaves a merge with its record named |
| `Thrown.UntoldShows` | src/database_impl.cpp:1861-2180 | however a merge is cut before its catalogue is told, every canonical file is as it was, and unless a record is named there is no other |
| `Thrown.ToldTables` | src/database_impl.cpp:2183-2256 | cut after that, unless the record is still named, the canonical files are exactly those the catalogue names |
| `Thrown.WrittenThenReopened` | src/database_impl.cpp:1716-1743 | above a published merge in flight, what a file is made to hold is there after the next opening if and only if the file is not a source |
| `Thrown.NameTakenThenReopened` | src/database_impl.cpp:1716-1732 | above one not published, a file that takes the name of the target keeps the store from opening, unless it bears the identifier of the merge |
| `Runs.ClassForIsFirstFit` | src/database_impl.cpp:165-170 | the class the runs give an entry is the one an insertion looks for |
| `Power.MoveKeeps` | src/database_impl.cpp:1861-2256 | each of these on disks, and `sync`, and the loss of power with any part of the pending changes, keep that and keep a settled machine safe to lose power in, above a merge in flight too |
| `Power.RunsKeep` | src/database_impl.cpp:2594-2612 | so do runs of any length, under either crash model |
| `Power.RunsServeOneMap` | src/database_impl.cpp:3540-3846 | after any such run, an exception out of a merge included when nothing is written between it and the next opening, an open instance answers `find` and `resolve` as the one map would, holds each key once, and counts right |
| `Power.RunsStaySealed` | src/database_impl.cpp:2325-2351 | over runs in which no exception leaves a merge with its record named, no instance ever serves above a merge in flight |
| `Power.PowerCutKeeps` | src/database_impl.cpp:1861-2256 | what a power cut leaves of every class, in the middle of a merge or of a recovery included, still means its part of the map |
| `Power.SettledAgain` | src/database_impl.cpp:1767-1830 | the first opening after a power cut leaves a machine that may merge and may lose power again |
| `Flushed.FlushedEndures` | src/database_impl.cpp:2514-2589 | at any point of any run, with any amount of unflushed work, after a death, in a cut merge or a cut recovery, a power cut under either crash model keeps every version that a complete `sync` or a merge confirmed and nothing has written to or retired since: its name, and exactly the entries it showed, which are those of an instance that has it open |
| `Flushed.SourceIsInTarget` | src/database_impl.cpp:1931-2058 | every entry of a source a merge takes out of those versions is in the target it puts among them |
| `Flushed.DurableEndures` | src/database_impl.cpp:2494-2589 | from a complete `sync` on, until a `sync` fails or the process ends, those are the versions the instance holds for durable |
| `Power.FreshKeeps` | src/database_impl.cpp:800-822 | a new store on empty disks is such a machine |
| `Runs.FreshInv` | src/database_impl.cpp:800-822 | a new store starts with the empty map |
| `Runs.ServedOnce` | src/detail/database_impl.hpp:278-281 | in every reachable state each key is in one catalogued version at most, the running total is the number of entries, and every catalogued version is in its directory with these entries; an instance that serves with no merge in flight below it (every one that serves, unless an exception left a merge with its record named) has every canonical file catalogued |
| `Runs.FindThenResolve` | src/database_impl.cpp:3540-3846 | `find`, and `resolve` for what it does not answer, say exactly what the one map would |
| `Gates.Handle.Refusal` | src/database.cpp:39-94 | what stands before each operation and which refusal wins |
| `Gates.LetThrough` | src/database.cpp:39-138 | an instance opened for inspection lets nothing that writes through, only a census and a verdict; the integrity latch stops everything, a sync and a census included, with its own code; a pending cleanup stops everything but those two; nothing else is stopped |
| `Gates.Handle.RefuseBatch` | src/database.cpp:39-56 | a batch that is not let through comes back deduplicated and unresolved |
| `Gates.ServedIsUnique` | src/database.cpp:211-241 | unless an exception left a merge with its record named, an operation that serves entries or a verdict gets through only where no two canonical files share a key |
| `Gates.DoubledIsRefused` | src/database.cpp:117-138 | a directory with a target beside its sources belongs to a latched instance, on which every such operation is refused, if and only if no exception left a merge with its record named |
| `Checked.FitsInBudget` | src/uniqueness.cpp:132-149 | exact although the products may overflow |
| `Checked.FitsWhenRecordsDo` | src/uniqueness.cpp:132-149 | a group is accepted if and only if its records are at most what a pass may hold |
| `Checked.CheckedMul` | src/detail/census_arithmetic.hpp:33-38 | refuses exactly the products that would wrap |
| `Partitioning.GroupPrefixes` | src/uniqueness.cpp:235-257 | ascending disjoint ranges with exact record counts, over the limit only as a single prefix |
| `Partitioning.GroupsCover` | src/uniqueness.cpp:235-257 | every non-empty prefix lies in exactly one group |
| `Partitioning.GroupingIsFewest` | src/uniqueness.cpp:235-257 | no covering by ranges within the limit has fewer groups |
| `Uniqueness.CountPrefixes` | src/uniqueness.cpp:179-209 | the planning pass counts every copy under its prefix: as many for each as have a hash in its range, of 4096 that are 2^52 wide |
| `Uniqueness.OnePass` | src/uniqueness.cpp:298-396 | one pass collects, sorts and reports exactly the keys of its group, whatever the visiting order |
| `Uniqueness.Verify` | src/uniqueness.cpp:430-603 | for any hash, budget and order: entries, distinct keys, extra copies, repeated keys, maximum multiplicity, findings and omissions, entries examined and the number of passes are exact, and each finding has as many stored copies of its key as are asked for, in the order of class and generation. It is refused for want of room if and only if the budget does not hold what is held besides records and one record, or some one of 4096 equal ranges of the hash has more copies than a pass has room for, or no runs of those ranges, as many as passes are allowed, fit and have every copy; the number of passes is the smallest for which there are such runs; and the first pass to meet a file that does not open is answered, the planning one before all else that follows it |
| `Planning.OnePlan` | src/uniqueness.cpp:179-257 | one hash, one store and one budget have one plan |
| `Planning.WalkableExactly` | src/uniqueness.cpp:48-50 | a plan can be carried out if and only if none of the 4096 equal ranges of the hash is overfull and runs of them, no more than the passes allowed, fit and have every copy; it then takes as few passes as any such runs |
| `Planning.OneFewest` | src/uniqueness.cpp:235-266 | one hash, one store and one budget have one smallest number of passes |
| `Uniqueness.UniqueMeansOnce` | src/uniqueness.cpp:524-603 | `unique` holds if and only if no key is in two versions |
| `Census.AccumulateFull` | src/census.cpp:155-199 | the sums of one generation, refused exactly for an impossible length or count or an unrepresentable product |
| `Census.NothingWrapped` | src/census.cpp:183-193 | the check after the loop suffices for the unchecked sums inside it |
| `Census.SharedOut` | src/census.cpp:155-262 | payload and unused capacity share out entries times capacity, occupied and empty slots share out the buckets |
| `Census.MeasureGeneration` | src/census.cpp:155-262 | a generation is refused if and only if it is not clean |
| `Census.Fold` | src/census.cpp:264-309 | every sum is true or the fold is refused, the two unchecked ones included |
| `Census.CompactIsHistogram` | src/census.cpp:311-320 | the histogram names exactly the lengths that occur, ascending; its counts sum to the entries and, weighted by length, to the payload |
| `Census.ClassFigures` | src/census.cpp:155-309 | segment, spare, file bytes, group metadata, padding, occupied and empty slots of a class as sums over its generations; a residual if and only if the model of no generation exceeds its segment, and then residual, slots, metadata and spare bytes are the segments |
| `Census.ReportFigures` | src/census.cpp:264-309 | every figure of the report is the sum of that figure over its classes, and where there is a residual everything allocated is accounted for |
| `Census.WalkClass` | src/census.cpp:430-504 | one class: refused exactly when a file, a generation or a sum is at fault, and true otherwise |
| `Census.Census` | src/census.cpp:430-511 | the report is refused if and only if the census cannot be taken; otherwise every figure is the true sum of generations and classes |
| `Probes.Counters.Find` | src/database_impl.cpp:3540-3568 | the search stops at the first class that has the key, and each class searched is counted once |
| `Probes.Counters.Report` | src/database_impl.cpp:2718-2727 | the backward sum gives every class exactly the number of times its map was searched |

## Left out

- Reference mode: the same design with one class and fixed records; the number of classes is generic here, the census of fixed records is not modelled.
- Classes share one directory. A barrier one class asks for also confirms the others' changes; each class is modelled with its own list of pending changes, so fewer are confirmed here than in fact.
- Platforms without a file or directory barrier, where `sync_unsupported` is absorbed.
- Hard links: `publish_new_file` links and then unlinks; the model does both, lets either fail, and tells a taken name from another refusal; whose file took the name is not in the directory of the model.
- Compaction.Compactor.MergeVersions: what a merge writes to metadata records is not modelled; losing one costs a rescan.
- The preventive space check and the entropy source of a merge are parameters (`Luck.check`, `Luck.drawn`).
- Rehash thresholds: the capacity of a target and the guard before an insertion (`can_insert_safely`) are parameters.
- Store.Database.ApplyDeletes: the cache is an arbitrary list of catalogued files instead of a mapping cache with eviction; an allocation failure inside the statistics of the first phase, which escapes the call, is not modelled.
- Store.Database.FullResolve: the resolve mutex and the per-call statistics are not modelled; calls are sequential.
- Runs.StepKeepsInv: nothing is written between an exception that leaves a merge with its record named and the next opening (item 7 says what is lost otherwise); the caller never inserts a key already stored, and allocators keep the documented guarantee of `emplace`; a process killed inside an insertion may leave a map torn, which nothing on disk records.
- CrashRuns.CrashConservation: `Safe` requires the contents of every canonical file to be on stable storage, those of the sources of the merge included; what an unflushed insertion or deletion loses in a power cut is the subject of `Durability`.
- Power.MoveKeeps: as a step of a run, a power cut is considered only while nothing unflushed was written since the last complete `sync`, because contents written in place have no protocol; what it spares at any other moment is in `Flushed`. A version zero or a rotated file is owed that `sync`, since its creation asks for no directory barrier. An exception that leaves a merge withdrawn, or complete without its last barrier, leaves the machine unsettled until then.
- Flushed.FlushedEndures: a `sync` that fails, or succeeds with an incomplete register, confirms nothing here, although the files it reached have their contents flushed: the directory comes last.
- Compaction.Compactor.MergeGroups: a taken name stays a possible answer without faults, because a file no map is in may stand at the next name and the code checks for it.
- Uniqueness.Verify: the budget meter appears as fixed overhead and headroom.
- Partitioning.GroupPrefixes: a group with no records can follow an oversized prefix, as in the code.
- Sidecar.WriteThenRead: reading and writing the file itself is not modelled; `Merge` models its steps.
- Configuring.Configuration.Configure: an inspection open, which creates nothing, is not modelled, nor are the config record and the lock.
- Census.Census: physical blocks, whose sum the code does not check, the inconsistency flag and the per-generation details are not modelled.
- Batches, working sets and pending lists are compacted on sequences rather than in arrays; aliasing does not arise.
- Boost mapping, stamps, paths, logging, rendering, timing, averages and other floating-point statistics.
- Iteration over all keys or entries, which repeats the walk of the census.
