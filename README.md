# gitlet in Dafny

A model of the core of gitlet, a small single-user version-control system written in
Java, with proofs about it. The model covers:

- the staging area (`StagingArea.java`);
- the commit object (`Commit.java`);
- the repository commands of `Repo.java`: `add`, `commit`, `rm`, `branch`, `rm-branch`,
  the three forms of `checkout`, `reset`, `find`, the first-parent walk of `log`, and
  `merge` with its helpers `mergeT`, `m1`, `merge2`, `merge3`, `merge4`, `commitMerge`,
  `splitSection`, `commitHis` and `bfs`.

Every location on disk becomes a field of one `Repository.Repo` object:

- the working directory is a map from file name to content;
- `.gitlet/blobs` is a map from blob id to content;
- `.gitlet/commits` is a map from commit id to `CommitRec`;
- `.gitlet/branches` is a map from branch name to commit id;
- `activeBranch.txt` is a string;
- `stagings.txt` is a `Staging.StagingArea` object.

Each command is a method that changes those fields. It returns, in order, the
diagnostics the source prints (`Diag`).

SHA-1 and Java serialization come from `Utils`, which is not part of this model. They
are function-valued constants of the repository: `Sha1`, `CommitId` and `SerializeText`.
The only thing assumed about them is that `CommitId` is injective: two distinct commit
records never get the same id.

An exception the source does not catch becomes the diagnostic `Exception`. It ends the
command and keeps what was written before it. Four things cause one:

- reading a blob file that does not exist;
- reading a commit file that does not exist;
- `substring` on a string that is too short;
- a null reference.

Files:

| file | module | contents |
|---|---|---|
| `common.dfy` | `Common` | Java nulls as `Option`, `Map.get`, `String.contains` |
| `staging.dfy` | `Staging` | the `StagingArea` class |
| `commit.dfy` | `Commits` | the commit record and the `Commit` class |
| `resolve.dfy` | `Resolution` | how `checkout2` and `reset` resolve an abbreviated commit id |
| `graph.dfy` | `Graph` | `commitHis`, `bfs` and the first-parent chain of `log` |
| `merge_rules.dfy` | `MergeRules` | the per-file decisions of `merge` and the conflict text |
| `repo.dfy` | `Repository` | the `Repo` class and its commands |

The repository invariant `Repository.Repo.Valid` says:

- every stored commit sits under its own id;
- parent links stay inside the store and are acyclic, witnessed by a ghost rank;
- the root commit is stored, and it is the only commit without a first parent;
- every branch points at a stored commit, and the active branch exists.

Every command keeps it.

## Model

| member | source | states |
|---|---|---|
| Staging.StagingArea.constructor | StagingArea.java:17-20 | a new staging area has an empty addition map and an empty removal map |
| Staging.StagingArea.Add | StagingArea.java:26-28 | `add(f, sha)` maps `f` to `sha` for addition; every other addition and the whole removal map are unchanged |
| Staging.StagingArea.AddEmpty | StagingArea.java:33-35 | `add(f)` stages `f` for addition with the empty marker `""`; the removal map is unchanged |
| Staging.StagingArea.Remove | StagingArea.java:41-44 | `remove(f, sha)` maps `f` to `sha` for removal; the other removals and the whole addition map are unchanged |
| Staging.StagingArea.RemoveEmpty | StagingArea.java:49-51 | `remove(f)` stages `f` for removal with the empty marker; the addition map is unchanged |
| Staging.StagingArea.RemoveAdd | StagingArea.java:56-58 | `removeAdd(f)` deletes only key `f` from the addition map |
| Staging.StagingArea.RemoveRemove | StagingArea.java:63-65 | `removeRemove(f)` deletes only key `f` from the removal map |
| Staging.StagingArea.Clear | StagingArea.java:68-71 | after `clear()` both maps are empty |
| Staging.UnstageTwice | StagingArea.java:56-65 | calling `removeAdd` and `removeRemove` twice leaves what calling them once leaves (idempotence) |
| Commits.ApplyStaging | Commit.java:88-97 | the tracked map after applying staging: staged removals are absent, so a removal wins over an addition; additions not also removed map to their staged ids; other files keep their entries; the key set is (old + added) minus removed |
| Commits.Commit.constructor | Commit.java:33-42 | stores the message and both parents, with an empty tracked map and no labels; a null first parent pins the timestamp to the epoch, otherwise it is the clock value |
| Commits.Commit.Load | Repo.java:874-878 | reading a commit file gives an object whose serialized value is the stored record |
| Commits.Commit.SetParent | Commit.java:68-70 | only the first parent changes |
| Commits.Commit.SetParent2 | Commit.java:82-84 | only the second parent changes |
| Commits.Commit.SetBranch | Commit.java:125-127 | only the first label changes |
| Commits.Commit.SetBranch2 | Commit.java:132-134 | only the second label changes |
| Commits.Commit.Combine | Commit.java:102-106 | every file `other` tracks maps to other's blob id; files `other` lacks keep their old entries |
| Commits.Commit.EditHash | Commit.java:88-97 | the loops over additions and then removals leave exactly `ApplyStaging` of the old map |
| Resolution.StripTxt | Repo.java:314 | dropping the last four characters fails exactly when the name is shorter than four; otherwise the name is the result followed by four characters |
| Resolution.StripFileName | Repo.java:314 | stripping `<id>.txt` gives `id` back |
| Resolution.ResolveId | Repo.java:309-313 | the resolution loop ends with `ResolveSpec`: each listed name containing the current pattern replaces it |
| Resolution.ResolveContainsQuery | Repo.java:309-313 | the resolved name always contains the query |
| Resolution.ResolveFromNames | Repo.java:309-313 | the resolved name is the query itself or one of the listed names |
| Resolution.ResolveNoMatch | Repo.java:309-313 | with no listed name containing the query, the query comes back unchanged |
| Resolution.ResolveUnique | Repo.java:309-313 | a query matched only by one name `e`, which no other name contains, resolves to `e` when `e` is listed |
| Resolution.ResolveFullId | Repo.java:309-316 | a full stored id that no other file name contains resolves to its own file, and stripping gives the id back |
| Repository.Repo.CheckoutFullId | Repo.java:298-329 | `checkout2` with such a full id restores the file from that commit |
| Repository.Repo.CheckoutShortId | Repo.java:298-316 | `checkout2` with an id shorter than four characters that no name contains throws |
| Graph.RankedInsert | Repo.java:174-180 | storing a new record whose parents are stored keeps parent links acyclic |
| Graph.RankedParentsStored | Repo.java:910-921 | in an acyclic store, every parent of a stored commit is stored |
| Graph.History | Repo.java:910-921 | `commitHis(id)` contains `id` and lies inside the commit store |
| Graph.HistoryClosed | Repo.java:910-921 | `commitHis(id)` is closed under both parents |
| Graph.HistoryLeast | Repo.java:910-921 | `commitHis(id)` is contained in every parent-closed set containing `id`, so it is the reflexive-transitive ancestor set |
| Graph.HistoryTransitive | Repo.java:910-921 | the history of an ancestor is part of the history |
| Graph.RootInHistory | Repo.java:910-921 | the root commit is in every commit's history |
| Graph.Enqueue | Repo.java:943-950 | `p` is marked afterwards; it is appended to the queue exactly when it was not marked, and only then does the unmarked part of the store shrink |
| Graph.Expand | Repo.java:937-950 | expanding a dequeued commit keeps the queue inside the store and only adds marks; the unmarked part of the store shrinks, or queue and marks stay as they were |
| Graph.ExpandCovers | Repo.java:937-950 | after expanding, both parents of the commit are marked, every newly marked commit is queued, and the rest of the queue stays |
| Graph.BfsFoundInCommon | Repo.java:928-953 | what the search finds is in the common history |
| Graph.BfsNeverNull | Repo.java:943-946 | with the root in the common history, the search never enqueues a null parent: it ends at the root at the latest |
| Graph.BfsFinds | Repo.java:928-953 | when no marked name is a commit id, the search always finds a common commit |
| Graph.QueueNotDrained | Repo.java:930-953 | while the root has not been dequeued, the queue is never empty: the dequeued commits would otherwise be closed under parents and so hold the root |
| Graph.ExpandStep | Repo.java:937-950 | expanding a commit other than the root: it has a first parent, the queue stays in the store, the search makes progress, and every dequeued commit has both parents marked while every marked commit is dequeued or queued |
| Graph.NewParents | Repo.java:943-950 | the parents one expansion enqueues are distinct and none was marked before |
| Graph.ExpandAppends | Repo.java:943-950 | expanding appends exactly `NewParents` to the queue and marks both parents |
| Graph.ExpandFresh | Repo.java:943-950 | an expansion appends exactly the parents it newly marks: each once, none marked before, and nothing else is marked |
| Graph.EnqueueParents | Repo.java:943-950 | the two `if`s that queue and mark the first and then the second parent compute `Expand` |
| Graph.BfsTraceFresh | Repo.java:928-953 | the commits the search enqueues after a queue are distinct and none was marked when it started |
| Graph.BfsEnqueuesOnce | Repo.java:928-953 | from the start commit, no commit is put on the queue twice |
| Graph.Bfs | Repo.java:928-953 | the queue loop returns `BfsSpec`: the first dequeued commit in the common history, first parents before second parents; every commit is queued at most once |
| Graph.FirstParentChain | Repo.java:239-263 | the walk starts at the head, follows first parents only, stays in the store and ends at a commit with no first parent |
| Graph.ChainInHistory | Repo.java:239-263 | every commit on the first-parent chain is in the head's history, and the chain ends at the root |
| MergeRules.ConflictText | Repo.java:806-825 | the conflict text is the head marker, the head's content, the separator, the other's content and the end marker, each at its position |
| MergeRules.ConflictTextInjective | Repo.java:806-825 | for head contents of equal length, equal conflict texts come from equal contents |
| MergeRules.CaseOf | Repo.java:705-722 | the five branches of the merge loop, by which snapshots track the file |
| MergeRules.Merge2Decision | Repo.java:804-829 | the branch of `merge2`'s if-chain: each conflict branch needs the sides it reads to differ from the split |
| MergeRules.Merge2ConflictIff | Repo.java:796-840 | where the loop calls `merge2`, it reports a conflict exactly when both sides differ from the split |
| MergeRules.Merge2Symmetric | Repo.java:796-840 | `merge2` finds a conflict for (head, other) exactly when it finds one for (other, head) |
| MergeRules.SameChangeConflicts | Repo.java:817-826 | the same change made on both sides is still a conflict |
| MergeRules.HelpersExclusive | Repo.java:772-869 | whenever `m1` takes the other's version or `merge4` deletes, `merge2` finds no conflict |
| MergeRules.CodeMatchesDesign | Repo.java:705-722 | the per-file result of the loop agrees with the three-way rules of the design exactly when it is not the same change on both sides, where the code conflicts |
| MergeRules.CodeActionCases | Repo.java:705-722 | each file is a conflict exactly when both sides differ from the split; it takes the other's version exactly when `m1` fires, is adopted for a file only the other tracks, and is deleted exactly when `merge4` fires |
| MergeRules.AddedAs | Repo.java:772-854 | what a file is staged for addition with: the other's id when adopted, and the empty marker when taken over or in conflict |
| MergeRules.RemovedAs | Repo.java:772-869 | what a file is staged for removal with: the other's id when taken over, and the head's id when deleted |
| MergeRules.Additions | Repo.java:705-722 | the staged additions after the loop: one per file that is staged for addition, with its value |
| MergeRules.Removals | Repo.java:705-722 | the staged removals after the loop: one per file that is staged for removal, with its value |
| MergeRules.MergedTrack | Repo.java:745-750 | in the merge commit's map, an adopted file has the other's id, a taken-over or conflicted file has `""`, and every other file, including a deleted one, keeps the head's entry |
| MergeRules.TurnStep | Repo.java:705-722 | a loop turn that does not throw extends the loop's state by its file |
| MergeRules.LoopCommitted | Repo.java:723-762 | committing after a full loop gives the merge outcome: the merge commit's message, parents, labels and map, empty staging, and the conflict report |
| Repository.UntrackedInWay | Repo.java:361-369 | the files `checkout3` warns about: in the working directory, untracked by the head, tracked by the target |
| Repository.Warnings | Repo.java:361-369 | one warning per such file |
| Repository.Synced | Repo.java:371-386 | the working directory after both loops: target files written from their blobs, files only the old head tracks deleted, everything else kept |
| Repository.SyncedBack | Repo.java:341-390 | checking out a commit and then checking out the original again gives what going straight back would give |
| Repository.FindSpecMembers | Repo.java:423-438 | an id is printed exactly when it is a listed stored commit with that message |
| Repository.FindSpecAppend | Repo.java:427-434 | one more listed name adds its id at the end when its message matches |
| Repository.FindComplete | Repo.java:423-438 | over the full listing, `find` prints every commit with that message and no other |
| Repository.FindLoop | Repo.java:424-436 | the loop prints `FindSpec` of the listing, each record's hash being its id; `commitE` is set exactly when something is printed |
| Repository.HasUntracked | Repo.java:693-700 | the search finds a file exactly when some working file is untracked by the head |
| Repository.NewCommit | Repo.java:174-176 | the new commit is on the head with time `now`, no second parent, and the head's map with the staging area applied |
| Repository.NewMergeCommit | Repo.java:739-754 | the merge commit has the epoch timestamp, the head's map with the staged additions and not the removals, and both parents and labels set |
| Repository.LookupDiagsAppend | Repo.java:705-722 | the messages of loop turns together are still `checkout2` messages, with no conflict report and no exception |
| Repository.Repo.Init | Repo.java:62-89 | `init` stores only the root commit, with no blobs; `master` points at the root and is active, and nothing is staged |
| Repository.Repo.RootStored | Repo.java:62-89 | the commit stored under the root id is the root record |
| Repository.Repo.WriteCommit | Repo.java:177-180 | the record is stored under its id; an id already stored holds the same record |
| Repository.Repo.PointBranch | Repo.java:181 | only the named branch's pointer changes |
| Repository.Repo.Add | Repo.java:109-135 | a missing file changes nothing. The blob id is `sha1(content) + sha1(name)`; when the head tracks that id, the file is unstaged from addition, otherwise it is staged with that id and the blob is stored. In every case the file is unstaged from removal |
| Repository.Repo.Commit | Repo.java:159-185 | an empty message prints a diagnostic and goes on; with nothing staged nothing changes. Otherwise the new commit has the head's map with the staging applied and the head as parent, the active branch moves to it, and staging is cleared |
| Repository.Repo.CommitStaged | Repo.java:168-184 | writes the staged commit, moves the active branch to it and clears staging |
| Repository.Repo.Remove | Repo.java:195-223 | a file tracked by neither the head nor the additions changes nothing. A tracked file missing from disk is staged for removal with `""`. A file on disk is unstaged from addition; only when the head tracks it is it staged for removal with `sha1(content)` and deleted |
| Repository.Repo.Branch | Repo.java:541-552 | an existing name is refused unchanged; otherwise the new branch points at the head |
| Repository.Repo.RmBranch | Repo.java:562-574 | a missing or active branch is refused unchanged; otherwise only that pointer is deleted |
| Repository.Repo.RestoreFile | Repo.java:282-287 | the working file gets the blob's content; a missing blob throws after the file is created empty |
| Repository.Repo.Checkout1 | Repo.java:269-288 | the file is restored from the head's blob; a file the head does not track looks up the blob `null.txt` and throws when it is missing |
| Repository.Repo.Checkout2 | Repo.java:298-329 | a file the head does not track is refused; the id is resolved by `contains`; a short resolved name throws, an unknown id is refused, and otherwise the file is restored from that commit's blob. No other working file changes |
| Repository.Repo.WriteTarget | Repo.java:371-380 | every target file gets its blob's content; it throws exactly when some target blob is missing |
| Repository.Repo.DeleteStale | Repo.java:381-386 | exactly the working files the old head tracks and the target does not are deleted |
| Repository.Repo.SyncWorkingTree | Repo.java:371-386 | both loops together leave `Synced` of the working directory, or throw exactly when a target blob is missing |
| Repository.Repo.Checkout3 | Repo.java:341-390 | the active branch and a missing branch are refused unchanged. Otherwise it warns about untracked files without stopping, leaves `Synced` of the working directory, makes the branch active and clears staging; a missing blob throws before the branch and staging change |
| Repository.Repo.Reset | Repo.java:586-635 | resolves the id like `checkout2`: a short name throws and an unknown id is refused, both unchanged; otherwise it behaves as `ResetTo` |
| Repository.Repo.ResetTo | Repo.java:604-634 | warns about untracked files, leaves `Synced` of the working directory, moves the active branch's pointer to the commit and clears staging; a missing blob throws before the pointer and staging change |
| Repository.Repo.Find | Repo.java:423-438 | prints exactly the stored commits with that message, in listing order, and "Found no commit" exactly when there is none |
| Repository.Repo.Log | Repo.java:239-263 | prints the first-parent chain from the head; it throws at the first merge commit whose abbreviated parent ids cannot be taken, after printing the chain up to it |
| Repository.Repo.SplitPoint | Repo.java:882-953 | the search for the split point never hits the root's null parent; what it finds is in both histories; when no commit id is also a file name, it finds one |
| Repository.MarkingKeys | Repo.java:900-903 | the loop over the commit directory listing marks exactly the listed names |
| Repository.Repo.SplitSection | Repo.java:882-906 | `splitSection` is `bfs` from the head over the common history, with the marking map holding the file names of all stored commits |
| Repository.Repo.FastForwardTo | Repo.java:657-661 | reports the fast-forward, then `checkout3` of the other branch: the stores are unchanged; with a target blob missing it throws before the active branch and staging change; otherwise the working directory is `Synced`, the other branch is active and nothing is staged |
| Repository.Repo.MergeT | Repo.java:642-662 | no split point throws; a split point equal to the other head reports an ancestor; a split point with the head's timestamp fast-forwards as `FastForwardTo` states; otherwise nothing is printed. Only the fast-forward changes state |
| Repository.TStep | Repo.java:642-662 | after `mergeT` with nothing staged: a throw is the final outcome; otherwise there was a split point, no conflict is reported, the stores are unchanged, the other branch is active exactly after a fast-forward and then tracks the other head's files, nothing is staged, and only files of the two heads changed on disk |
| Repository.Repo.MergeTStep | Repo.java:701 | the call of `mergeT` inside `merge`, with the outcome `TStep` states |
| Repository.Repo.M1 | Repo.java:772-788 | when the other changed a file and the head did not, the file is checked out from the other head and staged for addition with `""` and for removal with the other's id; otherwise nothing changes |
| Repository.Repo.Merge2 | Repo.java:796-840 | on a conflict, writes the conflict text to the working file and as a blob keyed by `sha1(text) + sha1(name)`, stages the file with `""`, and returns true; it throws exactly when a blob it reads is missing |
| Repository.Repo.Merge3 | Repo.java:845-854 | writes the other's version and stages it with the other's id; it throws exactly when that blob is missing |
| Repository.Repo.Merge4 | Repo.java:859-869 | a file the head kept as the split had it is deleted and staged for removal with the head's id; otherwise nothing changes |
| Repository.Repo.TurnInAll | Repo.java:711-713 | a turn for a file in all three snapshots: `m1`, then `merge2`, with the effect `TurnEffect` states; a taken-over file whose blobs are stored does not throw and is present afterwards when no other listed name contains the other head's id, because `checkout2` then restores it from that head |
| Repository.Repo.TurnNotInOther | Repo.java:716-718 | a turn for a file the other lacks: `merge2`, then `merge4` |
| Repository.Repo.TurnOnlyInOther | Repo.java:714-715 | a turn for a file only the other tracks: `merge3` |
| Repository.Repo.TurnMerge2 | Repo.java:719-721 | a turn that calls only `merge2` |
| Repository.Repo.MergeOne | Repo.java:706-722 | one turn of the loop, dispatched on which snapshots track the file, with the effect `TurnEffect` states: only that file is touched; it is staged as the per-file rules say; it throws only on a missing blob or on a taken-over file whose id lookup is ambiguous; without a throw, adopted, conflicted and (with an unambiguous id) taken-over files are present and deleted ones absent |
| Repository.Repo.Visit | Repo.java:706-722 | a loop turn that does not throw extends the loop's state by its file; a turn that throws read a blob |
| MergeRules.CrashedTurn | Repo.java:706-722 | a turn that throws on a file of the loop shows the merge was not safe: the file is taken over while the other head's id is ambiguous, or one of its blobs is missing |
| MergeRules.MissingBlobUnsafe | Repo.java:371-380 | a file of the other head whose blob is missing makes the merge unsafe, so a fast-forward that throws is covered by the no-throw condition |
| Repository.SharedTracked | Repo.java:702-722 | whichever head is checked out during the loop, it tracks every file both heads track, so `checkout2` inside `m1` passes its tracking check |
| Repository.Repo.MergeLoop | Repo.java:702-722 | after the loop every file is staged, present or absent as the per-file rules say, and the conflict flag is set exactly when some file conflicts; it does not throw when every blob of both heads is stored and, if some file is taken over, no listed name other than the other head's file contains its id; taken-over files are then present |
| Repository.Repo.CommitMerge | Repo.java:734-762 | writes the merge commit with message "Merged <other> into <active>.", the head as first parent and the other head as second, moves the active branch to it and clears staging |
| Repository.TailDiags | Repo.java:723-726 | the messages of a run that reached `commitMerge` hold no exception, and hold the conflict report exactly when the loop found a conflict |
| Repository.Repo.MergeTail | Repo.java:702-726 | the loop, `commitMerge` and the conflict report: it does not throw when every blob of both heads is stored and a taken-over file's lookup of the other head's id is unambiguous; when it does not throw, the merge commit is written as `MergeCommitted` states and working files outside the three snapshots are untouched |
| Repository.CommittedRun | Repo.java:701-726 | a run that commits from working files differing only in the heads' files ends as `RunOutcome` states |
| Repository.Repo.MergeAfterT | Repo.java:702-726 | after a `mergeT` that did not throw, the rest of the merge ends as `RunOutcome` states: no throw under `LoopSafe`, and otherwise a throw or the merge commit |
| Repository.Repo.MergeRun | Repo.java:701-726 | no split point throws with nothing changed; with a split point, every blob of both heads stored and an unambiguous id for the other head (needed only when a file is taken over), the merge does not throw; when it does not throw it commits as `MergeCommitted` states, on the other branch after a fast-forward, and leaves every working file outside the three snapshots as it was |
| Repository.Repo.MergeChecked | Repo.java:687-726 | a split commit that cannot be read throws with nothing changed |
| Repository.Repo.MergeReady | Repo.java:689-726 | staged changes refuse the merge with nothing changed |
| Repository.Repo.MergeClean | Repo.java:693-726 | an untracked working file refuses the merge with nothing changed |
| Repository.Repo.Merge | Repo.java:668-727 | a missing branch or the active branch is refused with nothing changed; otherwise the outcome is `MergeOutcome`: the refusals in the source's order, then `RunOutcome` of `mergeT` and the merge, including its no-throw condition and the presence of taken-over files |

## Left out

- File-system I/O is replaced by map updates. `createNewFile`, `restrictedDelete` and the
  directory listings are modelled only by their effect on those maps.
- The order of a directory listing (`plainFilenamesIn`) is a parameter, `listing`. The
  model requires only that it lists exactly the stored commits' file names.
- A command that throws after writing some files leaves what it wrote. The model states
  that partial state only where a contract needs it; a real crash may also leave a
  half-written file.
- `globalLog`, `status` and the commented-out status code are not part of this model.
  `log` keeps only the chain of ids it prints and where it throws. Dates and message
  text are not modelled.
- Main.java, the command-line dispatcher, is not part of this model.
- `init` is modelled only by the state it creates, not by the directories it makes.
- The wall clock (`new Date()`) is a parameter, `now`.
- SHA-1 and Java serialization are uninterpreted function constants. The commit-id
  function is assumed injective. Blob ids are not assumed injective.
- Commits.CommitRec: a commit's tracked files are an unordered map. The source keeps them
  in a `LinkedHashMap` (Commit.java:17), whose serialized form, and so the commit id
  (Repo.java:177, Repo.java:755-756), depends on insertion order. The model gives two records with the
  same entries the same id.
- `System.out.print` calls are modelled as `Diag` values in output order. The untracked
  warnings are one identical message per file, so the order of the directory listing
  does not matter for them.
- Repository.Repo.MergeChecked: the loop of `merge` over the working files for an
  untracked file runs before the staged-changes check rather than after it. It reads and
  changes nothing the checks between change, so the outcome is the same.
- Repository.Repo.MergeLoop: blob contents written by the loop are not stated. A conflict
  blob written for one file can replace a blob another file is restored from later, so
  what a file ends up holding can depend on the order of the visit. The contract states
  presence, absence, staging and the conflict flag.
- Repository.Repo.Merge: when `mergeT` finds no split point, the outcome states the
  exception and an unchanged state. What a crash in a fast-forward or in the loop leaves
  is not stated. The no-throw condition `LoopSafe` is sufficient, not exact: it asks for
  every blob of both heads on the merge's files, including some the loop does not read.
  When another listed commit file name contains the other head's id, `checkout2` may
  resolve to a different commit. A taken-over file then has no guarantee of completion
  or presence.
- Repository.Repo.Checkout1: after a missing blob, the working directory is not stated in
  its contract (`RestoreFile` states it: the file has been created empty). The check that
  the active branch's file exists is not modelled, because the invariant guarantees that
  the active branch exists.
- Repository.Repo.Checkout2: after a missing blob, the working directory is not stated
  beyond "no other file changes".
- Repository.Repo.M1: likewise, after `checkout2` throws, only the unchanged staging area
  and the other working files are stated.
- Concurrency: one command at a time, as the source assumes.

## Where the code differs from the design

The model follows the code in every case below. Each is stated where it arises.

- `commit` with an empty message prints "Please enter a commit message." and carries on
  (Repo.java:161-163). `Repository.Repo.Commit` lists that diagnostic before the rest.
- The untracked-file check in `checkout3` and `reset` only prints; it does not stop the
  command (Repo.java:361-369, Repo.java:607-614). See `Repository.Repo.Checkout3` and
  `Repository.Repo.ResetTo`.
- `rm` of a tracked file missing from disk stages a removal with `""`. It does not unstage
  the addition (Repo.java:209-211). See `Repository.Repo.Remove`.
- Commit-id resolution uses `contains`, not a prefix match. Every listed name containing
  the current pattern replaces it, so the last match in a chain wins (Repo.java:309-314,
  Repo.java:593-598). See `Resolution.ResolveSpec`.
- `checkout2` checks whether the head tracks the file, not the commit named
  (Repo.java:304). See `Repository.Repo.CheckoutLookup`.
- The `return`s in `mergeT` only leave `mergeT`. `merge` goes on with the loop and
  `commitMerge` after an ancestor report or a fast-forward (Repo.java:701-723). See
  `Repository.Repo.MergeRun`.
- The fast-forward test compares timestamps (Repo.java:657). Merge commits are built with
  a null first parent, so they carry the epoch timestamp (Repo.java:739-741,
  Commit.java:38-40). See `Repository.Repo.MergeTCaseOf` and `Repository.NewMergeCommit`.
- `m1` and `merge2` stage files with `add(s)`, whose blob value is `""`
  (Repo.java:782, Repo.java:836). The merge commit tracks those files with `""`. See
  `MergeRules.MergedTrack`.
- The removal loop of `commitMerge` passes map entries to `remove`, so no key is deleted
  (Repo.java:747-750). A file `merge4` deleted stays tracked in the merge commit. See
  `Repository.NewMergeCommit`.
- `merge2` writes the conflict blob with `writeObject`, that is, serialized
  (Repo.java:833). The model stores `SerializeText` of the text, and writes the plain
  text to the working file.
- A file changed the same way on both sides is reported as a conflict
  (Repo.java:817-826). See `MergeRules.SameChangeConflicts` and
  `MergeRules.CodeMatchesDesign`.
- `bfs` queues a first parent without checking it for null (Repo.java:943-946). The root
  lies in every history and is found when dequeued, so the null parent is never read.
  See `Graph.BfsNeverNull` and `Repository.Repo.SplitPoint`.
- The marking map of `splitSection` holds `<id>.txt` names (Repo.java:900-903), which are
  not commit ids. So it starts, in effect, with only the head marked. See
  `Repository.Repo.SplitOf`.
- `remove` records `sha1(content)` as the removed blob id. `add` uses
  `sha1(content) + sha1(name)` (Repo.java:120, Repo.java:213).
