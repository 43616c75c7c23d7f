# gyt, modelled and proved in Dafny

gyt is a version-control system written in Rust. This project models the parts of it in which the
hard decisions are made, in the form the program gives them (loops over mutable state stay loops,
protocols become steps of a state machine), and proves what those parts are for:

- **Diff** (`Lines`, `EditDistance`, `Myers`, `Hunks`): splitting into lines, Myers' greedy search
  with its saved trace and backward replay, grouping into hunks, and patching with them.
- **Three-way merge** (`EditMaps`, `Merge3`, `MergeCases`): edit maps read off diff scripts, the
  reconciliation loop over them, and what it makes of given files.
- **Clone** (`Fetch`): the depth-limited, label-correcting walk over the object graph.
- **Garbage collection and packing** (`Reach`, `GcProtocol`, `Packing`, `Sorting`): reachability,
  pruning interleaved with uploads and ref updates under two locks, size-bounded packs.
- **CI slots over a file lock** (`CiLock`): acquire, stale reclaim, stolen nonce and release, one
  file operation per step.
- **Ignore patterns** (`Glob`, `GlobClasses`, `GlobComponents`, `GlobCompile`, `GlobText`): the
  pattern compiler, the backtracking matcher, the component-wise reading of a pattern, and what its
  bytes mean.
- **Log** (`TopoOrder`, `Calendar`): the order of commits and the dates printed for them.
- **Index** (`LittleEndian`, `IndexFile`): the binary index file and the index itself.
- **Tickets** (`TicketText`, `TicketLists`, `TicketTables`, `TicketRecords`, `TicketCodec`,
  `TicketBlobs`, `TicketLimits`, `Issues`, `PullRequests`, `Incidents`, `PrCommands`): the text format of issues,
  pull requests and incidents, the append-only gate on their updates, and the `gyt pr` commands.
- `Bytes` holds what all of them share.

`dafny verify dfyconfig.toml` checks the whole project.

## What does not hold of the code, and exactly when it does

Where a promise of the program fails, the model keeps the code as it is, gives an input on which the
promise fails, and proves the condition under which it is met.

- The diff script is a shortest one exactly when the files together have at most 50,000
  lines or share no line (`Myers.Diff`, `EditDistance.CoarseIsShortest`).
- The merge loop never ends when its cursor meets a pure insert before the end of the base
  (`Merge3.HangsIff`, on files `MergeCases.ExampleHang`; it does so whenever both sides only add
  lines and one not just at the end, `MergeCases.AddersHang`), and a merge that ends silently drops
  an edit exactly when that edit starts strictly inside a region the other side deletes
  (`Merge3.LosesNothingIff`, on files `MergeCases.ExampleLostEdit`).
- A loose object that is uploaded again is not protected by the grace period, because writing it
  again leaves its time alone (`GcProtocol.ReuploadUnprotected`). A comment beside the prune loop
  describes a rule based on the start of the walk; the model follows the code, which compares the
  object's age with the grace period.
- If a holder of a CI lock dies, two waiting processes can both end up holding the lock
  (`CiLock.DeathBreaksExclusion`, from an empty start `CiLock.ExclusionLost`); without such a death
  exclusion holds in every run.
- A job that leaves is meant to remove the marker file only while its own nonce is in it. It reads
  and removes in two steps, and so removes the claim of an interrupting entry exactly when that
  entry wrote between the two (`CiLock.ReleaseIff`, `CiLock.ClaimLost`).
- The documentation of the token for `/**/` says that it starts with a slash. The matcher does not
  ask for that: `a/**/b` also takes `ax/b` (`GlobCompile.OverrunText`). A pattern matches
  component by component on every path exactly when it can match nothing, or each component before
  an inner `**` is open-ended and it does not start with two double stars; patterns of double stars
  only never do (`GlobCompile.MatchesByComponentsIff`, on components
  `GlobComponents.ComponentwiseIff`). The pattern `**` alone is meant for every path and matches
  none (`GlobCompile.DoubleStarAlone`), and one that starts with two double stars takes no path of
  one component (`GlobCompile.LeadDoubledMisses`); on double stars side by side a debug build stops
  at an assertion, and the model follows the release build.
- The merge command asks for an open pull request, but only before it takes the lock: what it
  records lands on one that is no longer open exactly when another command shut it in between and
  none reopened it (`PrCommands.LateMerge`, `PrCommands.ClosedThenMerged`).
- The gate on ticket text means to admit only text that can be read back. It misses characters
  beyond ASCII that Rust's debug formatting prints as a numeric escape
  (`TicketLimits.GateMisses`); a ticket reads back exactly when it holds no such character and, for
  incidents, no field key holds an equals sign (`Issues.IssueRoundTrip`,
  `PullRequests.PrRoundTrip`, `Incidents.IncidentRoundTrip`).
- Accepted updates of an incident do not compose; they do exactly when the ends of the chain are not
  one of three steps back (`Incidents.ChainExtendsIff`, `Incidents.BackwardExample`).

## Assumptions

- An object id stands for its content: the hash is injective. Bytes of objects are not modelled.
- The object graph is acyclic; for the fetch to deliver everything it is also well typed (a tag's
  target and a commit's parents are what they should be) and complete, and the server ships what it
  is asked for.
- In the CI protocol, creating a lock file and writing the process id into it is one step, and lock
  files created at different times have different modification times.
- In the gc protocol, both locks exclude as locks do, and removing a file succeeds.
- Which characters beyond ASCII debug formatting shows as themselves, and which ref names are well
  formed, are parameters of the ticket model.

## Model

| member | source | states |
|---|---|---|
| Lines.SplitLines | src/diff.rs:30-46 | the lines hold no newline, and joined with newlines they are the input with its last line ended |
| Lines.SplitJoined | src/diff.rs:30-46 | splitting undoes joining for every list of newline-free lines |
| Lines.UnlinesInjective | src/diff.rs:30-46 | newline-free lines are determined by their joined bytes |
| EditDistance.ScriptLowerBound | src/diff.rs:63-132 | no script between two prefixes is shorter than the distance defined by the edit graph |
| EditDistance.DistIsShortest | src/diff.rs:63-132 | a script as long as the distance is a shortest one |
| EditDistance.Overshoot | src/diff.rs:116-128 | past both ends of the files the distance is that of the end point plus the overshoot, so running past an edge gains nothing |
| EditDistance.CoarseIsShortest | src/diff.rs:78-91 | delete-all then insert-all is a shortest script exactly when the files share no line |
| Myers.StepIsFurthest | src/diff.rs:109-124 | the greedy step from the neighbouring diagonals is exact: it gives the furthest point d edits reach on diagonal k |
| Myers.FollowSnake | src/diff.rs:119-123 | following matching lines ends where they end, and costs no edit |
| Myers.HitIsExact | src/diff.rs:125-128 | the first point at or past both ends is exactly the end point |
| Myers.MissNeedsMore | src/diff.rs:106-131 | a step that ends without a hit proves that d edits do not suffice |
| Myers.WriteKeeps | src/diff.rs:124-131 | writing a diagonal of step d leaves every cell of the other parity as it was |
| Myers.StepDiagonal | src/diff.rs:108-130 | one pass of the inner loop writes the furthest point of its diagonal and nothing else, with every index in range |
| Myers.SearchStep | src/diff.rs:106-131 | one step computes the furthest point of each of its diagonals, or stops at the end point |
| Myers.Search | src/diff.rs:93-132 | the saved trace holds the furthest points of every step, and its length is the edit distance plus one |
| Myers.StepBack | src/diff.rs:138-147 | the saved array of step d still holds the neighbours step d came from |
| Myers.WalkBack | src/diff.rs:149-154 | walking the diagonal back pushes exactly the equal lines and stops next to the previous point |
| Myers.ReplayStep | src/diff.rs:138-166 | one round of the replay goes back one edit and stays inside both files |
| Myers.Backtrack | src/diff.rs:134-170 | the replay ends at the origin with a script that turns one file into the other at the cost of the distance |
| Myers.Diff | src/diff.rs:63-171 | the script always turns the old lines into the new ones, and is shortest exactly below the size limit or without a common line |
| Hunks.CountLines | src/diff.rs:273-284 | the header counts are the numbers of old and new lines of the slice |
| Hunks.LeadContext | src/diff.rs:221-228 | as many kept lines before the change as the context allows, up to the previous change |
| Hunks.LastChange | src/diff.rs:236-261 | runs of kept lines of at most twice the context are absorbed, longer ones end the hunk |
| Hunks.TrailEnd | src/diff.rs:264-269 | as many kept lines after the last change as the context allows |
| Hunks.OpenHunk | src/diff.rs:218-292 | the hunk is a slice of the script with its true positions and counts, framed by its context, and the gap after it is wide enough |
| Hunks.SkipEquals | src/diff.rs:209-213 | only kept lines are skipped, and both positions follow them |
| Hunks.GroupHunks | src/diff.rs:196-310 | the hunks are ordered, disjoint slices outside which every op is a kept line, each framed by its context |
| Hunks.ChangesCovered | src/diff.rs:196-310 | every change lies in a hunk |
| Hunks.SpansOrdered | src/diff.rs:196-310 | no two hunks overlap |
| Hunks.PatchRoundTrip | src/diff.rs:196-310 | applying a script's hunks to the old lines, copying what lies between, gives the new lines |
| Hunks.GroupAndPatch | src/diff.rs:196-310 | grouping any script with any context and patching with the result gives the new lines back |
| EditMaps.WalkEdits | src/merge3.rs:213-246 | the loop builds the edit map of the script, one entry per run of changes |
| EditMaps.ApplyEditsOf | src/merge3.rs:202-246 | replaying a script's edit map over the base gives the side |
| EditMaps.EditsWellFormed | src/merge3.rs:206-246 | the regions lie inside the base, say something, and are separated by a kept line |
| EditMaps.EditsAreRuns | src/merge3.rs:206-246 | the edits of a script are exactly its longest runs of changes, each at its place in the base, with the number of lines it takes out and the lines it puts in |
| Merge3.RegionMeaning | src/merge3.rs:127-163 | the chunk pushed for a region renders, for each side, as the reconciled edit there |
| Merge3.MergeLoop | src/merge3.rs:106-199 | what is merged and what is in conflict, line by line, is what the two edit maps say at each position the cursor visits: one conflict where they differ, the edit where one side edits or both alike, the base line elsewhere; so the chunks render as the base with the reconciled edits, clean exactly when the cursor meets no clash; the loop diverges exactly when its cursor stops |
| Merge3.ConflictsAre | src/merge3.rs:122-197 | the conflicts of a merge that ends are, in order, one for each visited position where both sides edit differently: our lines, the base over the longer of the two regions, and their lines |
| Merge3.MergeLines | src/merge3.rs:58-200 | the fast paths give the changed side, without a conflict; otherwise the sides' edits are those of diff scripts that lead from the base's lines to theirs, shortest scripts exactly as the diff promises, and the outcome is the loop's on these edits, line by line |
| Merge3.SideEdits | src/merge3.rs:94-104 | a side's edits are those of a script from the base to the side's lines, shortest exactly below the size limit or without a common line, and replaying them gives the side |
| Merge3.HangsIff | src/merge3.rs:111-164 | the loop does not end exactly when its cursor visits a pure insert before the end of the base |
| Merge3.EndsWithoutPureInserts | src/merge3.rs:111-164 | for all edits: if every region inside the base deletes something on some side, the loop ends |
| Merge3.StuckForever | src/merge3.rs:132-163 | a cursor that one iteration does not move is never moved |
| Merge3.EndsIff | src/merge3.rs:111-164 | when no region is skipped the loop ends exactly when every region inside the base deletes something |
| Merge3.CleanIff | src/merge3.rs:145-197 | when no region is skipped a merge that ends is clean exactly when the sides agree wherever both edit |
| Merge3.CleanText | src/merge3.rs:134-199 | a clean merge that skips nothing is the base with both edit maps at once |
| Merge3.LosesNothingIff | src/merge3.rs:131-163 | a merge that ends visits every edit exactly when no edit starts inside the other side's deletion |
| Merge3.GoodMerge | src/merge3.rs:93-200 | the three results together, for every outcome of the merge |
| Merge3.HangsSymmetric | src/merge3.rs:111-164 | swapping the sides does not change whether the loop ends |
| Merge3.ReconcileSymmetric | src/merge3.rs:127-163 | swapping the sides swaps the reconciled texts |
| MergeCases.ExampleHang | src/merge3.rs:134-138 | on the files 1 2, 9 1 2 and 1 3 (a line each) every outcome the merge may have is the one that never ends |
| MergeCases.FrontInsertHangs | src/merge3.rs:134-138 | the same for any four different lines: one side puts a line in front, the other changes a later one |
| MergeCases.AddersHang | src/merge3.rs:58-164 | for all files below the size limit: when both sides only add lines and one adds a line that is not at the end, the merge never ends |
| MergeCases.ExampleLostEdit | src/merge3.rs:131-143 | on the files 1 2 3, 3 and 1 9 3 every outcome is a clean merge that renders as the file 3, so the 9 is lost |
| MergeCases.OverlapLosesEdit | src/merge3.rs:131-143 | the same for any four different lines: one side deletes two, the other changes the second of them |
| Fetch.RelaxAllEffect | src/cmd/clone.rs:497-506 | offering a depth to the parents lowers exactly the depths it improves and queues exactly those parents |
| Fetch.WalkKeeps | src/cmd/clone.rs:430-511 | walking any queued object keeps the invariant on depths, queue, walked commits and boundary |
| Fetch.LabelBound | src/cmd/clone.rs:469-507 | once the queue is empty no path is shorter than the recorded depth |
| Fetch.BoundaryExact | src/cmd/clone.rs:488-496 | once the queue is empty the boundary is exactly the commits with parents at the last depth fetched |
| Fetch.EmptyQueueDelivers | src/cmd/clone.rs:315-427 | an empty queue means the whole depth-limited closure is on disk, with shortest depths and the exact boundary |
| Fetch.Receive | src/cmd/clone.rs:338-395 | the objects of a reply are taken up to the first that was not asked for or is malformed, and refused exactly if there is one; exactly those taken are on disk then, each counted once |
| Fetch.Seed | src/cmd/clone.rs:305-313 | the visible refs are queued at depth 0, and exactly those on disk already count as downloaded |
| Fetch.FetchMissing | src/cmd/clone.rs:316-396 | for every server: the first half of a round succeeds exactly when nothing is missing, or the server answers and every object of its answer was asked for and is well formed; then exactly that answer is added to the disk |
| Fetch.Round | src/cmd/clone.rs:315-420 | for every server: a whole round succeeds exactly when its request is answered in that way and what is queued and on disk can be read |
| Fetch.WalkBatch | src/cmd/clone.rs:398-419 | the second half of a round walks what is on disk of the batch, in order, and fails exactly when one of these objects cannot be walked; only children of the batch are queued, one rank lower, so the rounds end |
| Fetch.WalkAndFetch | src/cmd/clone.rs:272-427 | for every server: the fetch succeeds exactly when every round does, each starting where the one before ended, and fails exactly when its last round does; what is newly written was asked for, is reachable from the refs, and is counted exactly; for a server that obliges it succeeds and delivers exactly the depth-limited closure; the list of shallow commits is stored exactly when there is a limit and a boundary, and is the boundary |
| Fetch.VisibleIff | src/cmd/clone.rs:220-226 | the refs that are mirrored are those of five namespaces |
| Fetch.ShallowIsClosed | src/cmd/clone.rs:422-424 | after a fetch, every parent of a fetched commit that is not on the stored boundary is on disk |
| Reach.LiveIsLeast | src/cmd/gc.rs:580-622 | reachability is the least set with the seeds that is closed under the links of readable objects |
| Reach.ComputeReachable | src/cmd/gc.rs:580-622 | the worklist ends and marks exactly the reachable ids |
| Reach.PruneKeepsAllLive | src/cmd/gc.rs:409-441 | removing unreachable objects leaves reachability as it was |
| Reach.CloneIsReachable | src/cmd/gc.rs:580-622 | in a fresh clone, shallow or not, gc finds reachable exactly what the fetch had to deliver: nothing below the stored boundary, and nothing less |
| GcProtocol.GcInvKept | src/cmd/gc.rs:86-107 | every step of every process keeps the protocol invariant: locks have one holder, a pruner's marks are true, packed copies are written first |
| GcProtocol.QuietInv | src/cmd/gc.rs:86-107 | the invariant holds whenever nobody is at work, so in every state of every run from there |
| GcProtocol.PrunerUndisturbed | src/cmd/gc.rs:350-362 | while a process prunes no other step changes objects or roots |
| GcProtocol.OnlyPruneRemoves | src/cmd/gc.rs:378-444 | only the prune step makes an object disappear |
| GcProtocol.PruneExact | src/cmd/gc.rs:409-441 | a pruned file's object stays exactly when it is packed, reachable, or its time can be read and the sampled time is before that time plus a grace period that is not zero |
| GcProtocol.PruneRunExact | src/cmd/gc.rs:350-441 | a whole prune pass in any interleaving: what stays on disk is exactly what was packed, reachable or within the grace period at the walk, so an unreachable file at least that old is gone |
| GcProtocol.NoRefDangles | src/cmd/gc.rs:86-107 | in every interleaving whose ref updates install complete tips, no ref ever dangles |
| GcProtocol.Survives | src/cmd/gc.rs:348-444 | in every interleaving an object that each gc run finds reachable, packed or young is still on disk |
| GcProtocol.GraceProtects | src/cmd/gc.rs:434-440 | in every interleaving an object with a given time, even one ahead of the clock, is on disk as long as the clock is within the grace period of it, reachable or not |
| GcProtocol.ClosureSurvives | src/cmd/gc.rs:348-444 | so a tip whose closure met this at every gc run has its whole closure on disk |
| GcProtocol.ReuploadUnprotected | src/object/store.rs:55-65 | a run that uploads an old loose object again and prunes it at the same instant |
| Packing.GreedyIsMinimal | src/cmd/gc.rs:224-242 | no order-preserving split within the target has fewer batches |
| Packing.Batches | src/cmd/gc.rs:224-242 | the loop computes the greedy split: its batches concatenate to the input, each within the target or a single object, and none fewer is possible |
| Packing.PackBatches | src/cmd/gc.rs:216-242 | sorting then batching packs exactly the objects found, in id order, into the fewest packs |
| Packing.PacksRepeatable | src/cmd/gc.rs:216-222 | one set of objects is packed the same way, whatever order it was found in |
| Sorting.SortCorrect | src/index.rs:184-185 | sorting by key gives an ordered permutation that keeps the order of equal keys |
| CiLock.CheckStep | src/fs_util.rs:175-202 | the staleness check of a lock whose holder lives never gets past its first decision |
| CiLock.LockInvKept | src/fs_util.rs:123-202 | every file operation keeps one lock file per holder and one holder per lock file |
| CiLock.OneHolder | src/ci_wasm.rs:291-337 | two processes that hold the lock of one domain are the same process |
| CiLock.RunSafe | src/fs_util.rs:123-202 | in every run in which no holder dies: one holder per domain, no live lock file is unlinked by a stale check, a running job loses its nonce only to an interrupting one |
| CiLock.SerialMeansOne | src/config.rs:99-121 | under the serial policy at most one non-parallel job runs, whatever the names of the jobs that enter |
| CiLock.DeathBreaksExclusion | src/fs_util.rs:188-201 | from any state with a dead holder and two waiting processes, a run without a death after which both hold the lock of that domain |
| CiLock.ExclusionLost | src/fs_util.rs:188-201 | from an empty start and for every domain there is a run with exactly one death, that of a holder, after which two processes hold the lock of that domain |
| CiLock.InterruptPreempts | src/ci_wasm.rs:309-317 | after an interrupting entry and its first file operation, whatever others do in between, no job that runs in the domain finds its nonce any more |
| CiLock.UndisturbedJob | src/ci_wasm.rs:267-280 | in every run without interrupting entries and without a holder's death a running job finds its own nonce |
| CiLock.StaleIff | src/fs_util.rs:175-190 | a lock file passes the first check for staleness exactly when it is more than a minute old and the process it names, if any, is dead |
| CiLock.ReleaseIff | src/ci_wasm.rs:364-377 | a job that leaves removes a marker that is not its own exactly when it had read its own and an entry replaced it since |
| CiLock.ClaimLost | src/ci_wasm.rs:364-377 | a run in which an interrupting entry loses the claim it has just made |
| CiLock.Sanitize | src/ci_wasm.rs:246-259 | the domain's file name is one non-empty path component of safe characters |
| Glob.AcceptsIffSplits | src/ignore.rs:382-485 | tokens accept a path exactly when it is the concatenation of pieces, one in the language of each token |
| Glob.FindRange | src/ignore.rs:419-426 | a byte is in a class exactly when it lies in one of its ranges |
| Glob.MatchSingle | src/ignore.rs:394-432 | a literal, wildcard, slash or class takes one byte of its own and leaves the rest to the other tokens |
| Glob.MatchStar | src/ignore.rs:433-445 | a star takes any run of bytes up to the next slash |
| Glob.MatchPastSlash | src/ignore.rs:453-458 | every position just past a slash is tried |
| Glob.MatchAt | src/ignore.rs:389-485 | the backtracking matcher decides acceptance of the rest of the path by the rest of the tokens |
| Glob.MatchLoose | src/ignore.rs:365-378 | a loose pattern is tried at every component boundary |
| Glob.RuleMatches | src/ignore.rs:333-379 | a rule hits exactly the paths under its directory that its tokens accept, whole when anchored, from some component on when not |
| Glob.Matched | src/ignore.rs:111-119 | a path is ignored exactly when the last rule that hits it is not negated |
| GlobComponents.LowerStands | src/ignore.rs:389-485 | the tokens of a pattern accept exactly the paths its components loosely stand for |
| GlobComponents.OpenEndedExtends | src/ignore.rs:473-483 | an open-ended component that takes a prefix of a name takes the name |
| GlobComponents.Overrun | src/ignore.rs:473-483 | a component that is not open-ended has a byte whose repetition it refuses after any name |
| GlobComponents.ComponentwiseIff | src/ignore.rs:382-485 | matching is component-wise on all paths exactly when every component before an inner double star is open-ended or the pattern matches nothing |
| GlobComponents.OverrunExample | src/ignore.rs:473-483 | the pattern a, double star, b also takes the path ax/b |
| GlobClasses.CompileClass | src/ignore.rs:290-328 | the class parser reads the ranges up to the closing bracket, or refuses an open class |
| GlobClasses.ClassInside | src/ignore.rs:290-328 | a class closed inside a component reads the same wherever the component stands |
| GlobClasses.ClassMeaning | src/ignore.rs:290-328 | a class written from bytes and ranges reads as itself, and takes exactly the bytes but the slash that one of them covers, or with a mark those that none covers |
| GlobClasses.ClassIsWritten | src/ignore.rs:290-328 | every class that is read was written from bytes and ranges in that way |
| GlobCompile.CompileTokens | src/ignore.rs:190-285 | the compiling loop computes the scan of the pattern, whose meaning on bytes is stated by the rows of GlobText |
| GlobCompile.CompileIsLower | src/ignore.rs:190-285 | every pattern that is not refused compiles to the tokens of its components, runs of double stars taken as one and a doubled start as an empty component; refused exactly when a component has an open class or a trailing backslash |
| GlobCompile.PatternMeaning | src/ignore.rs:190-285 | for every pattern that is not refused: the paths it matches, stated on its components and the path's |
| GlobCompile.MatchesByComponentsIff | src/ignore.rs:190-485 | for every pattern that compiles: it is matched component by component on all paths exactly when its components are not all double stars and either can match nothing, or are open-ended before every inner double star and do not start with two double stars |
| GlobCompile.FlatInside | src/ignore.rs:190-285 | a component without a slash reads the same alone as between any others |
| GlobCompile.CollapsedStands | src/ignore.rs:205-256 | read component by component, a run of double stars means what one does |
| GlobCompile.LeadDoubledMisses | src/ignore.rs:238-254 | a pattern that starts with two double stars takes no path of one component |
| GlobCompile.DoubleStarAlone | src/ignore.rs:218-225 | two stars alone stand for every path and match none |
| GlobCompile.OverrunText | src/ignore.rs:473-483 | the text a/**/b compiles to tokens that take the path ax/b, which its components do not stand for |
| GlobText.FlatMeans | src/ignore.rs:201-284 | the tokens read for a component take exactly the names its bytes stand for: a star any run without a slash, a question mark any byte but the slash, a class the bytes it lists, a backslash the byte behind it, every other byte itself |
| GlobText.FlatEndsAt | src/ignore.rs:190-285 | a component is read up to a place exactly when the bytes up to there hold only closed classes, backslashes with a byte behind them and no slash outside a class, and the pattern ends or a slash follows |
| GlobText.RefusedIff | src/ignore.rs:190-285 | a pattern is refused exactly when its bytes cannot be cut into such components |
| GlobText.PatternText | src/ignore.rs:190-485 | for every pattern that is not refused and every path: what matches, told by the bytes of the pattern and of the path |
| TopoOrder.CountAll | src/cmd/log.rs:351-361 | each counter is the number of edges into its commit, repetitions counted and parents outside the map left out |
| TopoOrder.CountParents | src/cmd/log.rs:372-384 | counting a commit's edges down never takes a counter below zero, and a commit becomes ready exactly when its counter reaches zero |
| TopoOrder.ListOne | src/cmd/log.rs:370-384 | listing a ready commit keeps children before parents and the counters exact |
| TopoOrder.Order | src/cmd/log.rs:347-387 | on every commit map: no commit twice, each after all commits that have it as a parent, and all of them exactly when there is no cycle |
| Calendar.YearOfDay | src/cmd/log.rs:747-749 | the year of era computed for a day is the one the day lies in |
| Calendar.FromMarchIsRight | src/cmd/log.rs:749-753 | month and day computed from the day of the year form a valid date that many days after the first of March |
| Calendar.Ranges | src/cmd/log.rs:743-755 | every intermediate value lies in the range the comments give |
| Calendar.CivilIsRight | src/cmd/log.rs:743-755 | for every day number the date is valid, and counting its years, months and days gives the number back |
| Calendar.CivilIncreases | src/cmd/log.rs:743-755 | later days have later dates, and equal dates come from equal days |
| Calendar.CivilInverse | src/cmd/log.rs:743-755 | every valid date is the date of its own day number |
| Calendar.NoOverflow | src/cmd/log.rs:743-755 | once the first addition fits in 64 bits, so does every later signed step |
| LittleEndian.FromToLe | src/index.rs:189-208 | decoding the low-order bytes of a number that fits gives the number |
| LittleEndian.ToFromLe | src/index.rs:236-276 | encoding the number read from bytes gives the bytes |
| LittleEndian.I64RoundTrip | src/index.rs:196-197 | a signed 64-bit number survives its two's complement bytes |
| IndexFile.ParseIsInverse | src/index.rs:222-314 | parsing accepts exactly the in-order encodings of storable entries, and returns those entries |
| IndexFile.EntryLayout | src/index.rs:193-208 | an entry byte by byte: times, size and mode least significant byte first, the hash, the length of the path, the path |
| IndexFile.HeaderLayout | src/index.rs:187-194 | the header byte by byte: the letters GYTI, version 1, the count |
| IndexFile.PathIff | src/index.rs:59-98 | a path is allowed exactly when it holds no zero byte and no backslash, and no stretch of it between slashes is empty, a dot, two dots or .gyt in any case |
| IndexFile.PathsRead | src/index.rs:222-314 | a file of well-sized entries is read back exactly when each path is UTF-8 and allowed |
| IndexFile.TooFewBytes | src/index.rs:250-255 | a count that cannot fit in the remaining bytes is the count of no valid file |
| IndexFile.Parse | src/index.rs:222-314 | the loop with its offset computes the parse, every slice in bounds for arbitrary input |
| IndexFile.Write | src/index.rs:182-214 | writing fails exactly on too many entries or a path too long, and otherwise gives the header and the entries in path order |
| IndexFile.WriteParse | src/index.rs:182-314 | what is written reads back as the entries stably sorted by path |
| IndexFile.Index.Find | src/index.rs:143-148 | the first entry of the path, if there is one |
| IndexFile.Index.Insert | src/index.rs:151-163 | replaces the entry in its slot or appends it; lookups of other paths are unchanged and distinct paths stay distinct |
| IndexFile.Index.Remove | src/index.rs:166-171 | removes every entry of the path and no other, and says whether there was one |
| TicketText.ReadString | src/issues.rs:485-516 | the unescaping loop computes the parse of a quoted string, refusing unknown escapes |
| TicketText.UnescapeEscaped | src/issues.rs:485-516 | unescaping undoes the printer's escapes, or fails if there is a numeric one |
| TicketText.StringRoundTrip | src/issues.rs:485-516 | a quoted string reads back as itself exactly when it is readable, and otherwise not at all |
| TicketLists.ReadStrings | src/issues.rs:522-563 | the character loop with its flags computes the parse of an array of strings |
| TicketLists.CutQuote | src/issues.rs:535-558 | a quoted string, with its commas and escapes, goes into one piece |
| TicketLists.StringsRoundTrip | src/issues.rs:466-563 | an array of strings reads back as itself exactly when all of them are readable |
| TicketLists.ReadNumbers | src/issues.rs:569-587 | the loop computes the parse of an array of numbers |
| TicketLists.NumbersRoundTrip | src/issues.rs:474-587 | an array of 64-bit numbers reads back as itself |
| TicketLists.IntRoundTrip | src/issues.rs:423-425 | a signed 64-bit number reads back as itself |
| TicketTables.CutPieces | src/incidents.rs:609-642 | the loop cuts a table at the commas outside its strings |
| TicketTables.EntryRefused | src/incidents.rs:645-652 | an entry whose key holds an equals sign is cut inside the key and refused |
| TicketTables.ReadTable | src/incidents.rs:599-654 | the two loops compute the parse of a table |
| TicketTables.TableRoundTrip | src/incidents.rs:474-654 | a table reads back as itself exactly when its texts are readable and its keys hold no equals sign |
| TicketRecords.ValueRoundTrip | src/issues.rs:396-431 | every kind of field reads its printed values back, or fails on an illegible one |
| TicketCodec.RunFields | src/issues.rs:391-431 | reading the printed lines of the fields sets exactly these fields to their values |
| TicketCodec.RunEvents | src/issues.rs:376-406 | reading the printed events closes each event as it was |
| TicketCodec.RoundTrip | src/issues.rs:321-460 | for any list of fields: a printed record reads back as itself exactly when it is legible, and otherwise not at all |
| TicketCodec.ReadOneLine | src/issues.rs:371-432 | one line is skipped, opens an event, sets a field, or is refused |
| TicketCodec.ReadRecord | src/issues.rs:353-460 | the loop over the lines computes the decoding |
| TicketCodec.WriteRecord | src/issues.rs:321-347 | the loops over fields and events compute the encoding |
| TicketBlobs.BlobIs | src/issues.rs:321-347 | for any list of fields: the blob is the first line, then one line for each key with its value, a blank line, and each event under its mark; how values are quoted, escaped and listed is written out |
| TicketBlobs.DecodeIff | src/issues.rs:353-460 | for any list of fields and any text: it reads as a record exactly when every line is blank, a comment, a mark or a known key with a value that parses, and each field is what its last line in its block sets it to or what it starts with |
| TicketBlobs.ParsedTableOrdered | src/incidents.rs:599-654 | a table that is read is in key order |
| TicketLimits.GateLetsThrough | src/issues.rs:122-141 | text that passes the gate is readable exactly when every character in it beyond ASCII is shown |
| TicketLimits.GateMisses | src/issues.rs:122-141 | a zero-width space passes the gate, and its text does not read back when it is not shown |
| TicketLimits.SamePrefix | src/prs.rs:580-586 | the comparison loop answers exactly whether the old log is a prefix of the new one |
| TicketLimits.CheckTimes | src/prs.rs:589-598 | the loop over neighbours answers exactly whether no event is older than the one before it |
| Issues.IssueRoundTrip | src/issues.rs:321-460 | an issue reads back as itself exactly when it is valid and legible, and otherwise not at all |
| Issues.IssueText | src/issues.rs:321-347 | the blob of an issue, line by line: each key beside its own field |
| Issues.IssueReads | src/issues.rs:170-460 | for every text: it reads as exactly the issue that its lines tell, key by key, if that is within the bounds, which are given in numbers |
| Issues.ValidateExtends | src/issues.rs:632-683 | the checks accept exactly the updates that keep the header, extend the log and keep its times in order |
| Issues.ChainExtends | src/issues.rs:632-683 | along accepted updates any later version is an accepted update of any earlier one |
| PullRequests.PrRoundTrip | src/prs.rs:246-393 | a pull request reads back as itself exactly when it is valid and legible, and otherwise not at all |
| PullRequests.PrText | src/prs.rs:246-275 | the blob of a pull request, line by line: each key beside its own field |
| PullRequests.PrReads | src/prs.rs:93-393 | for every text: it reads as exactly the pull request that its lines tell, key by key, if that is within the bounds, which are given in numbers, and its two refs are well formed |
| PullRequests.SourceRead | src/prs.rs:337-368 | a readable blob whose last line of source_ref quotes a text has that text as its source |
| PullRequests.ValidateExtends | src/prs.rs:551-630 | the checks accept exactly the updates that keep the header and log, order the times, never leave merged and enter it with a new merge event |
| PullRequests.ChainExtends | src/prs.rs:551-630 | along accepted updates any later version is an accepted update of any earlier one |
| PullRequests.MergedForGood | src/prs.rs:604-628 | merged is never left, and some update on the way in brought the merge event |
| Incidents.IncidentRoundTrip | src/incidents.rs:291-452 | an incident reads back as itself exactly when it is valid and legible, its field keys included |
| Incidents.IncidentText | src/incidents.rs:291-324 | the blob of an incident, line by line: each key beside its own field |
| Incidents.IncidentReads | src/incidents.rs:95-452 | for every text: it reads as exactly the incident that its lines tell, key by key, a severity also by its other names, if its fields are in key order and it is within the bounds, which are given in numbers |
| Incidents.ValidateExtends | src/incidents.rs:697-750 | the checks accept exactly the updates that keep the header, extend the log in order and make an allowed transition |
| Incidents.ChainKeepsLog | src/incidents.rs:697-741 | the log only grows along accepted updates |
| Incidents.ChainExtendsIff | src/incidents.rs:686-750 | a chain of accepted updates is one accepted update exactly when its ends are not a forbidden step back |
| Incidents.BackwardExample | src/incidents.rs:686-695 | two accepted updates from mitigated to detected, which no accepted update makes |
| PrCommands.SortDedup | src/cmd/pr.rs:714-715 | sorting and dropping repetitions gives the elements once each, in order |
| PrCommands.UpdateList | src/cmd/pr.rs:708-715 | labels become the old and added ones without the removed ones, once each and in order |
| PrCommands.MergeMentions | src/issues.rs:807-818 | mentions become the old and found ones without the ticket itself, once each and in order |
| PrCommands.Apply | src/cmd/pr.rs:394-764 | each command refuses exactly the states and arguments it should, and otherwise changes its own fields and appends its event, which is written out for each command |
| PrCommands.CommandAccepted | src/cmd/pr.rs:394-764 | the gate takes a command's update exactly when the log is in order and the clock is not behind it |
| PrCommands.DoesUnique | src/cmd/pr.rs:394-764 | what a command writes is determined by what it read |
| PrCommands.RunAcceptedIff | src/cmd/pr.rs:394-764 | every version of a run of commands is taken exactly when no command's clock was behind the log |
| PrCommands.SteadyRunAccepted | src/cmd/pr.rs:394-764 | with clocks that never run backwards every version is an accepted update of every earlier one |
| PrCommands.Opened | src/cmd/pr.rs:208-236 | a new pull request's log is in order, and later commands are on time exactly when they are not earlier than its opening |
| PrCommands.PrFile.WriteLocked | src/prs.rs:663-671 | the blob is written exactly when the pull request is valid, under its own number, and then reads back exactly when it is legible |
| PrCommands.PrFile.Run | src/cmd/pr.rs:394-764 | a command succeeds exactly on a blob that reads and bears the number of its ref, if it is not refused and what it makes of the pull request is valid; then that is written, and otherwise the blob stays |
| PrCommands.PrFile.MergeLate | src/cmd/pr.rs:550-599 | a merge from its look to its record, with any commands of others between: it starts exactly on an open pull request, and is recorded on one that is no longer open exactly when one of those commands shut it and none opened it again |
| PrCommands.PrFile.RunAll | src/cmd/pr.rs:394-764 | for any commands, one after the other: each blob is the one before with that command's own effect, unchanged exactly when the command cannot read, is refused or makes something that is not valid |
| PrCommands.PrFile.DiskIsReliable | src/prs.rs:636-671 | what reads bears the number of the ref, and what is valid reads back exactly when it is legible |
| PrCommands.RunHistory | src/cmd/pr.rs:394-764 | the versions written in any run are each made by the next successful command from the one before and read back by it; all are accepted updates exactly when no clock was behind the log |
| PrCommands.StateAfter | src/cmd/pr.rs:394-764 | the state after any run: no longer open exactly when some command shut the pull request for good or none reopened a shut one, merged exactly when it was or some command merged it |
| PrCommands.LateMerge | src/cmd/pr.rs:576-599 | a merge is recorded whatever the state has become since the look, which is other than open exactly when a command between shut the pull request; the gate takes the record exactly when the log is in order and the clock is not behind |
| PrCommands.ClosedThenMerged | src/cmd/pr.rs:576-599 | a run in which a close comes between, and the merge is recorded on the closed pull request |

## Left out

- Tree merge (`merge_trees` in src/merge3.rs): it would only add a case table over paths.
- Rendering: unified diffs, conflict markers, stat bars, graph lanes, colours and all command-line parsing.
- Files and the network: durability of writes, permissions, symbolic links, HTTP, compression, encryption and signatures. The server of the fetch is a function from a round and the ids asked for to a reply.
- GcProtocol.Survives: reflog expiry and the collection of seeds from refs, indexes and sticky files are one set of roots that other steps may change.
- TopoOrder.Order: says nothing about the order of commits with different timestamps, because the initial sort and the later search for a place use opposite orders; the place is a parameter.
- Reading ignore files line by line (`parse_line` in src/ignore.rs): stripping of prefixes and suffixes, easy members.
- TicketCodec.ReadRecord: works on characters; decoding a blob from UTF-8 bytes and encoding it to them is not modelled.
- PrCommands.PrFile.MergeLate: the branch switch and the merge of commits between the look and the record are not modelled; only what other commands do to the pull request in that time is.
- Extraction of mentions from a body, allocation of ticket numbers and the ref-name validator are parameters.
- Blame, history rewriting, merge bases and configuration layering are not modelled.
