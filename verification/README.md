# Verified models of the dev-loop hub and the local code scanner

These Dafny modules model the stateful mechanisms of two programs and prove what they guarantee.

- **Cold start**: the lock protocol of concurrent `daemon up` calls and the daemon start inside it, as a transition system with one step per file operation (`ColdStart`), and when an `up` waits, gives up, gets the lock or tries another port (`ColdStartWaits`).
- **Bounded scanner**: archive scanning on one shared budget (`Archives`, `ArchiveTheorems`, `ArchiveBudgets`, `ArchiveCompleteness`, `ArchiveExpansion`, `ArchiveOrdinary`, `ArchiveReaders`, `ArchiveScanner`, `ArchiveMembers`), capped findings and the exit code (`Findings`, `Verdict`, `WholeScan`), the directory walk (`Walks`, `WalkReach`, `WalkLeaks`, `WalkMarks`, `Walker`), the signal search (`Occurrences`, `ClusterSearch`, `SignalClusters`) and the location sweep (`Locations`).
- **Circuit breaker**: its state and calls (`BreakerCore`), the object (`BreakerObject`), the history it stands for (`BreakerHistory`, `BreakerMarks`), what a restart resumes (`BreakerRestart`) and any number of restarts (`BreakerSessions`).
- **Records and ledgers**: approvals (`ActionKeys`, `KeyGrammar`, `Approvals`, `ApprovalHistory`), the chat inbox (`Inbox`, `InboxRows`), the notifiers (`Notifiers`).
- **Conventions sections**: section spans (`Conventions`, `ConventionSections`), what is billed and what is shipped (`Shipping`, `ShippedText`).

`Texts`, `Options` and `Sequences` hold string functions, the option type and facts about concatenation. `dafny verify dfyconfig.toml` checks everything.

Code that updates objects in place is modelled by classes whose methods are tied to functions of the old state; the theorems are lemmas about those functions and about whole runs. Protocols run by several processes at once are transition systems. Files, processes, decoders, clocks and the network are parameters.

## What was found to be false

- **Mutual exclusion of the cold-start lock** fails without any crash. The staleness test takes a missing lock for a stale one (hub/src/daemon-lifecycle.ts:124-127), so a racer that re-reads the lock just after its owner released it goes on to unlink, and can remove a lock created meanwhile. `ColdStart.ContentionAloneViolates` builds the run. `ColdStart.RereadIsExact` gives the exact condition on the re-read and `ColdStart.BreakVerdictIsExact` the one on the break-mutex; under them `ColdStart.GuardedRunsExclude` holds.
- **At most one daemon** needs that no `up` dies or throws between spawning a child and recording or stopping it. `ColdStart.LosingAChildIsExact` (throws) and `ColdStart.DyingWithAChildIsExact` (dies) say exactly what happens otherwise, `ColdStart.AChildCanBeLost` is a run from an empty machine in which both do.
- **The cluster search does not return the largest left end** when another selection ends at the same offset in a later group; `ClusterSearch.LargestLeftEndIff` says from the streams exactly when it does, `ClusterSearch.TiedGroups` is a case where it does not (`ClusterSearch.TiedGroupsHarm` shows the condition failing there), `SignalClusters.TiedSignals` the same on four bytes, and `ClusterSearch.DistinctOffsetsAreHarmless` one condition under which it always does.
- **A scan without issues can miss archive members**: the payload of a plain gzip is analysed but never opened, whatever it is. `ArchiveCompleteness.NothingIsMissedIff` is exact, `ArchiveCompleteness.GzippedZipIsMissed` is a family of inputs.
- **A plain signal's occurrences are not all reported** when they overlap: exactly then (`Occurrences.EveryOccurrenceIff`), as in `Occurrences.OverlapIsMissed`.
- **A success clears more than its own lane** when another provider's name extends it with a colon: exactly then (`BreakerHistory.LaneReach`), as in the run of `BreakerHistory.OtherLaneIsCleared`. Registered provider names hold no colon (hub/src/team-config.ts:253), so only a model prefix that is not registered (hub/src/breaker.ts:30-34) reaches this.
- **A restored breaker does not always follow the uninterrupted one.** An agent's entry does, whatever is fired later and however often the scheduler was restarted, exactly while no other unclassified tail shares the eight digits of its key (`BreakerSessions.ResumedAgentsInLockstep`); `BreakerSessions.SharedDigitsWitness` is a run that slips. A provider's entry always does, with whatever lanes boot seeded, as long as every fire says its provider or that it has none (`BreakerSessions.ResumedProvidersInLockstep`), which both callers of `record` do (hub/src/run-agents.ts:996, hub/src/status.ts:242). Only a call that leaves the provider out can slip: exactly when the lanes known after boot let other agents reach the entry (`BreakerSessions.LanesDecide`), as in `BreakerSessions.SeededLaneWitness`.
- **A fire-health alert repeats** if a recovery carries the alert's own time stamp: exactly then (`Notifiers.AlertRepeatsIff`), as in the run of `Notifiers.AlertIsRepeated`.
- **A walk descriptor stays open** when the stat right after its open fails (security/local_code_scan.py:1831-1840). `WalkLeaks.LostExactly` counts, from the tree alone, how many do, and says exactly which trees lose none; `Walker.DirectoryWalk.WalkAll` leaves just that many open; `WalkLeaks.OneDescriptorIsLost` is a tree that loses one.

## Model

| member | source | states |
|---|---|---|
| ColdStart.GuardedRunsExclude | hub/src/daemon-lifecycle.ts:115-174 | in every interleaving of any number of `up`s with crashes and time, at most one live process is between acquire and release, if every stale verdict came from a lock found on disk with its owner gone |
| ColdStart.GuardedRemovals | hub/src/daemon-lifecycle.ts:136-173 | in such runs a lock leaves the disk only by its owner's release or after its owner died |
| ColdStart.RereadIsExact | hub/src/daemon-lifecycle.ts:158-163 | whatever the others do, exclusion survives a breaker's re-read iff it found the lock on disk with its owner already gone |
| ColdStart.BreakVerdictIsExact | hub/src/daemon-lifecycle.ts:164-170 | exclusion survives a verdict on the break-mutex iff it is not "stale", or the mutex on disk belongs to a breaker whose own pending verdict is unsound; a missing file is always judged stale |
| ColdStart.MissingLockBreaks | hub/src/daemon-lifecycle.ts:124-127 | a stale verdict while the lock is off the disk can admit two holders |
| ColdStart.ExitingOwnerBreaks | hub/src/daemon-lifecycle.ts:124-163 | so can a verdict on a lock read while its owner was still leaving |
| ColdStart.ContentionAloneViolates | hub/src/daemon-lifecycle.ts:115-174 | a run from a quiet machine, with no crash and no stale lock, in which two processes hold the lock |
| ColdStart.AloneIsNeverBlocked | hub/src/daemon-lifecycle.ts:124-173 | a process alone with files left by the dead always has a next step that brings it nearer the lock |
| ColdStart.AloneAcquires | hub/src/daemon-lifecycle.ts:124-173 | it acquires after at most 17 of its own steps, whatever time passes, and never gives up on its deadline |
| ColdStart.AtMostOneDaemon | hub/src/daemon-lifecycle.ts:314-422 | never two live daemons; with the lock free each live daemon is the recorded one; no losing child is left when the walk goes on |
| ColdStart.LosingAChildIsExact | hub/src/daemon-lifecycle.ts:357-422 | an `up` that throws while its child is unrecorded leaves a free lock and an unrecorded daemon iff the child is alive |
| ColdStart.DyingWithAChildIsExact | hub/src/daemon-lifecycle.ts:357-422 | after an `up` died there, some careful run frees the lock beside an unrecorded daemon iff the child is alive and no breaker with an unsound verdict holds the break-mutex |
| ColdStart.AChildCanBeLost | hub/src/daemon-lifecycle.ts:357-372 | a run from an empty machine that reaches the point where dying and throwing both lose the child |
| ColdStartWaits.FailedIsOverdue | hub/src/daemon-lifecycle.ts:131-135 | over every run, an `up` that has given up was started at least 60 seconds before |
| ColdStartWaits.WaiterDecides | hub/src/daemon-lifecycle.ts:124-170 | behind a live and fresh holder or breaker it tries to create the lock again before its deadline and gives up after it; anything else it read it sets out to break, whatever the time |
| ColdStartWaits.GivesUpBehindLiveOnly | hub/src/daemon-lifecycle.ts:128-135 | nothing but such a live holder or breaker, met after the deadline, makes an `up` give up |
| ColdStartWaits.WaiterAcquires | hub/src/daemon-lifecycle.ts:136-173 | a process that waited and is then left alone with what the others left has held the lock by its 18th step, unless its deadline passes first |
| ColdStartWaits.HoldersAreFresh | hub/src/daemon-lifecycle.ts:124-127 | in every guarded run a running holder or breaker is found fresh, so whoever reads its stamp waits |
| ColdStartWaits.ReleaseDecides | hub/src/daemon-lifecycle.ts:145-166 | a release removes the lock, or the mutex, exactly if it still carries the own stamp |
| ColdStartWaits.EnvironmentActs | hub/src/daemon-lifecycle.ts:115-174 | time, crashes, starts and dying daemons change nothing but themselves |
| ColdStartWaits.RecordDecides | hub/src/daemon-lifecycle.ts:316-329 | a recorded daemon that answers well is left alone, any other live one is stopped before the walk over the ports |
| ColdStartWaits.ProbeDecides | hub/src/daemon-lifecycle.ts:371-417 | a child that serves its port is recorded; any other is stopped, and the next port is tried exactly if it died or, with the port not pinned, somebody else answered |
| ColdStartWaits.PortDecides | hub/src/daemon-lifecycle.ts:337-354 | a child is spawned for one of at most 64 ports, and after the last the `up` ends |
| ColdStartWaits.PortsAreBounded | hub/src/daemon-lifecycle.ts:337-354 | so over every run |
| ArchiveTheorems.ArchiveConserves | security/local_code_scan.py:1098-1312 | for every archive tree: bytes and members analysed plus what is left never exceed the budget, neither remainder goes negative, nothing beyond the depth limit is opened |
| ArchiveTheorems.MembersConserve | security/local_code_scan.py:1162-1252 | the same for the loop over one archive's members, from any point |
| ArchiveTheorems.StepCosts | security/local_code_scan.py:1163-1230 | one member is charged at least what is analysed of it |
| ArchiveBudgets.ArchiveLocked | security/local_code_scan.py:1098-1312 | under a smaller budget a scan is clean iff the scan under a larger one is clean and each container and member of it fits what is then left; a clean scan is the same under both |
| ArchiveBudgets.ArchiveSpends | security/local_code_scan.py:1207-1208 | a clean scan spends exactly what it analysed |
| ArchiveBudgets.AffordableConcat | security/local_code_scan.py:1186-1208 | affordability composes along the order of the scan |
| ArchiveCompleteness.ArchiveExact | security/local_code_scan.py:1087-1252 | after a clean scan a member at any depth was analysed iff its route leads to it and does not cross a plain gzip payload |
| ArchiveCompleteness.NothingIsMissedIff | security/local_code_scan.py:1255-1312 | a clean scan analysed every regular member of every nested archive iff none lies inside a plain gzip payload |
| ArchiveCompleteness.GzippedZipIsMissed | security/local_code_scan.py:1255-1312 | a zip inside an extensionless gzip within the limits scans clean and none of its members is analysed |
| ArchiveExpansion.ArchiveStaysWithin | security/local_code_scan.py:1098-1532 | of every archive, clean or not, no more than the configured total is analysed directly, and of a ZIP or a plain gzip no more than the ratio times its own size |
| ArchiveExpansion.StepWithin | security/local_code_scan.py:1163-1252 | no member beyond the member limit is analysed, and the running total never passes either bound |
| ArchiveOrdinary.CleanIffOrdinary | security/local_code_scan.py:1098-1532 | with an ample budget a tree scans clean iff it is ordinary, a condition on the tree and the limits alone, with totals for the running sums; with any budget no other tree scans clean |
| ArchiveOrdinary.ArchiveSettled | security/local_code_scan.py:1098-1532 | from any depth and route the same, and then exactly the weight of the tree is spent |
| ArchiveOrdinary.StepIffOrdinary | security/local_code_scan.py:1163-1230 | one member passes all checks iff its announced size, kind, content and the running total are in order |
| ArchiveReaders.LimitedReader.Read | security/local_code_scan.py:1060-1075 | never returns a byte beyond the limit, and gives up only when the stream holds more |
| ArchiveReaders.ReadAll | security/local_code_scan.py:1266-1288 | reading through the limited reader delivers the whole stream, or says that it is too long or broken |
| ArchiveReaders.ExtractZip | security/local_code_scan.py:1460-1481 | the chunk loop of a ZIP member does the same |
| ArchiveScanner.FileResult.AddFindings | security/local_code_scan.py:334-341 | keeps the first samples of each severity up to its cap and counts the rest |
| ArchiveScanner.FileResult.AddIssues | security/local_code_scan.py:344-349 | issues kept plus issues omitted are the issues raised |
| ArchiveScanner.FileResult.Merge | security/local_code_scan.py:1087-1095 | merging a result capped by itself leaves what one pass over both would |
| ArchiveScanner.ScanAllMembers | security/local_code_scan.py:1162-1252 | the member loop does what the specification says, on the shared budget object |
| ArchiveScanner.ScanPlainGzip | security/local_code_scan.py:1255-1312 | a gzip without a tar: one payload within the ratio and the budget is analysed, anything else is an issue |
| ArchiveScanner.ScanTarBytes | security/local_code_scan.py:1098-1252 | a tar scan, with its size report, its limited stream and the fall back to a plain gzip |
| ArchiveScanner.ScanZipBytes | security/local_code_scan.py:1353-1510 | a ZIP scan, with its preflight and its per-member checks in order |
| ArchiveScanner.ScanArchiveBytes | security/local_code_scan.py:1513-1532 | depth limit and dispatch; the recursion over nested archives terminates |
| ArchiveScanner.ScanFile | security/local_code_scan.py:1560-1590 | one file's samples are those of its analysis and its archive together; archive bytes and members stay within the configured totals |
| ArchiveMembers.UnsafeIff | security/local_code_scan.py:1078-1084 | a member name is unsafe iff it holds a NUL, is rooted at a separator or a drive, or has a ".." between separators, of either kind |
| ArchiveMembers.NameIsReported | security/local_code_scan.py:1163-1172 | exactly such names are reported |
| ArchiveMembers.CleanReportsNames | security/local_code_scan.py:1163-1252 | a clean scan has reported every unsafe name of the archive |
| ArchiveMembers.ChargedIff | security/local_code_scan.py:1173-1210 | a member is charged its announced size and one member iff its header is in order, the budget affords it and the totals of the archive hold |
| ArchiveMembers.HaltsIff | security/local_code_scan.py:1163-1252 | when the loop over the members ends early |
| ArchiveMembers.RefusalTells | security/local_code_scan.py:1173-1185 | a refusal names the first thing that is wrong with the header |
| ArchiveMembers.ContentTells | security/local_code_scan.py:1186-1252 | which limit an accepted member meets, or what its content turns out to be |
| ArchiveMembers.ArchiveIsEntered | security/local_code_scan.py:1231-1241 | what was analysed is scanned as an archive exactly if it is one by name or content |
| ArchiveMembers.OpenedAs | security/local_code_scan.py:1513-1532 | too deep an archive is only an issue; by the end of its name or its first bytes it is opened as a ZIP, otherwise as a tar |
| ArchiveMembers.ReportDecides | security/local_code_scan.py:1098-1160 | a gzip that reports too many bytes is refused before anything is opened; otherwise it is opened as a tar and, failing that, as a plain gzip unless it is named as a tar |
| ArchiveMembers.PayloadDecides | security/local_code_scan.py:1255-1312 | which payload of a plain gzip is analysed, what it is charged, and what is said of any other |
| ArchiveMembers.NamesAre | security/local_code_scan.py:1011-1018 | which names are archive names, capital letters or not |
| ArchiveMembers.FileReports | security/local_code_scan.py:1560-1590 | what a file reports before its archive is entered |
| Findings.KeptMerge | security/local_code_scan.py:1087-1091 | capping before merging changes nothing |
| Findings.KeptCount | security/local_code_scan.py:334-341 | a severity's samples number the smaller of its findings and its cap |
| Findings.KeptIsFirst | security/local_code_scan.py:334-341 | they are its first ones, in order |
| Findings.KeptIssuesAre | security/local_code_scan.py:344-349 | the issues kept are the first ones, as many as the limit allows |
| Findings.UniqueIs | security/local_code_scan.py:977-980 | of findings of one rule, place and severity the one that came last is left, once |
| Findings.KeptAtLeast | security/local_code_scan.py:1747-1754 | a positive cap never changes whether something is at least a given severity |
| Findings.BoundedAtLeast | security/local_code_scan.py:977-981 | collapsing duplicates and keeping the 128 most severe never lowers the greatest severity |
| Verdict.CappingKeepsVerdict | security/local_code_scan.py:2559-2560 | for every threshold the samples left by all caps give the answer of the full set of findings |
| Verdict.LocalScanner.Consume | security/local_code_scan.py:2013-2019 | kept plus omitted equals raised, for findings and for issues, over all files |
| Verdict.LocalScanner.NoteIssue | security/local_code_scan.py:1756-1762 | and for the walk's own issues |
| Verdict.LocalScanner.ExitCode | security/local_code_scan.py:2557-2560 | 2 iff any issue was raised, kept or omitted; else 1 iff anything found, kept or not, is severe enough; else 0 |
| Verdict.VerdictIs | security/local_code_scan.py:2557-2560 | the exit code told from the raw findings and issues of all files, severity by severity |
| Verdict.VerdictMeansComplete | security/local_code_scan.py:2557-2560 | exit 0 or 1 implies that every scanned file was analysed, and of its archive exactly the members outside plain gzip payloads |
| WholeScan.ExitMeansWholeTrees | security/local_code_scan.py:2033-2082 | exit 0 or 1 implies that exactly the candidate files of the roots' trees that no exclusion covers were yielded, and each was read, analysed and scanned without an issue, whatever order the workers finish in |
| WholeScan.ExitIsTwoIff | security/local_code_scan.py:2557-2560 | exit 2 iff the walk raised an issue or some file it yielded did |
| WholeScan.TreesDecideExitTwo | security/local_code_scan.py:2557-2558 | for every list of roots, exit 2 iff something fails at one of them (it is a link or cannot be looked at, or an entry reached below it cannot be looked at, opened without a race or listed, files already handed over aside) or a yielded file did not scan clean |
| WholeScan.BlindRootExitsTwo | security/local_code_scan.py:1778-1781 | so one root that cannot be looked at is enough |
| WholeScan.RootsYield | security/local_code_scan.py:2062-2082 | over all roots the yielded identities are files of the trees, and without an issue all of them |
| Verdict.NoIssueAnywhere | security/local_code_scan.py:1756-1762 | no issue was raised iff every file's scan was clean |
| Walks.SortedNamesInOrder | security/local_code_scan.py:1856-1856 | a directory's names are gone through once each in byte order |
| Walks.YieldedOnce | security/local_code_scan.py:1990-2005 | over roots visited one after the other, each device, inode and role is yielded at most once, and remembered |
| WalkReach.WalkIsExact | security/local_code_scan.py:1863-2005 | a walk without issues yields exactly the new candidate files of the tree that no exclusion covers; with issues, no others |
| WalkReach.FrameMissesNothing | security/local_code_scan.py:1856-1891 | the names a frame goes through miss nothing below its directory, or below the hooks of a bare repository |
| WalkLeaks.RaisedExactly | security/local_code_scan.py:1774-2005 | a walk of any tree raises one issue for each thing that goes wrong in it, so none iff the root is no link and every entry it comes to can be looked at, opened without a race and, if a directory, listed |
| WalkMarks.RepositoriesAre | security/local_code_scan.py:1863-1957 | a path is recorded as a repository iff the walk comes to an entry .git in it or opens it as a bare one |
| WalkMarks.ExclusionsAre | security/local_code_scan.py:1863-1974 | which paths are recorded as excluded, told from the tree |
| WalkMarks.CountersAre | security/local_code_scan.py:1774-1988 | links, special files and files are counted once for each that the walk comes to |
| WalkMarks.BareIff | security/local_code_scan.py:1863-1888 | a directory is a bare repository iff it holds a file HEAD, a directory objects, and config, refs or packed-refs |
| WalkLeaks.LostExactly | security/local_code_scan.py:1831-2000 | a walk of any tree loses one descriptor for each directory it comes to whose stat fails and each candidate file whose stat fails while its identity is not remembered, and no other; so which trees lose none is decided by the tree |
| WalkLeaks.OneDescriptorIsLost | security/local_code_scan.py:1831-1840 | a root directory whose stat fails after the open loses one |
| Walker.DirectoryWalk.WalkAll | security/local_code_scan.py:1774-2011 | the stack-based walk is the recursive sorted preorder: same events, same files; at its end every descriptor it can still close is closed, and exactly as many are left open as the tree loses |
| Walker.DirectoryWalk.Next | security/local_code_scan.py:1893-2005 | one resumption neither skips nor invents anything; at a yield the open descriptors are exactly the frames' and the file's is handed over |
| Walker.DirectoryWalk.Close | security/local_code_scan.py:2006-2011 | closing early closes every frame's descriptor |
| Walker.DirectoryWalk.FrameFor | security/local_code_scan.py:1831-1861 | a directory that cannot be opened, raced or cannot be listed leaves nothing open, unless its stat failed |
| Walker.DirectoryWalk.EnterGit | security/local_code_scan.py:1914-1957 | of a .git directory only the hooks are entered, and its own descriptor is closed at once |
| Walker.DirectoryWalk.Enter | security/local_code_scan.py:1863-1891 | of a bare repository only the hooks are gone through |
| Walker.DirectoryWalk.CloseFd | security/local_code_scan.py:1897-1900 | only an open descriptor is closed, so none twice |
| Occurrences.AllOccurrences | security/local_code_scan.py:478-485 | the reported matches do not overlap, and every occurrence starts inside one |
| Occurrences.EveryOccurrenceIff | security/local_code_scan.py:478-485 | every occurrence is reported iff no two overlap |
| Occurrences.OverlapIsMissed | security/local_code_scan.py:478-485 | an occurrence that is not reported |
| Occurrences.EmptySignalIsEverywhere | security/local_code_scan.py:478-485 | an empty signal is reported at every offset |
| Occurrences.GreedyIsUnique | security/local_code_scan.py:478-485 | the bytes and the signal determine what is reported |
| SignalClusters.ClusterPlainSignals | security/local_code_scan.py:491-524 | from bytes and groups of plain signals: a value iff one reported occurrence per group can be chosen within the span; it is where such a choice begins whose end no other choice precedes, and none with that end begins later if no offset is reported in two groups |
| SignalClusters.TiedSignals | security/local_code_scan.py:507-524 | on four bytes with a shared offset the only answer begins earlier than another choice with the same end |
| SignalClusters.MergeStreams | security/local_code_scan.py:499-500 | the merge of sorted streams is sorted and holds exactly what they hold |
| SignalClusters.ReportedIsWhatOccurs | security/local_code_scan.py:478-500 | when no signal of a group overlaps itself, a group's stream is exactly its signals' occurrences |
| ClusterSearch.ClusterSignals | security/local_code_scan.py:507-524 | a value is returned iff one occurrence per group can be chosen within the span; the search stops at the earliest merged event that completes one and returns its largest left end |
| ClusterSearch.RightEndIsSmallest | security/local_code_scan.py:507-524 | no selection within the span ends at a smaller offset |
| ClusterSearch.TightestIsUnique | security/local_code_scan.py:507-524 | that stop and its left end are determined by the streams |
| ClusterSearch.LargestLeftEndIff | security/local_code_scan.py:518-524 | the value is the largest left end among all selections ending at that offset iff, in the streams, some group with nothing unread there is last seen no later than every group that still has an occurrence at it |
| ClusterSearch.DistinctOffsetsAreHarmless | security/local_code_scan.py:518-524 | it is whenever no offset occurs in two groups |
| ClusterSearch.TiedGroups | security/local_code_scan.py:518-524 | a tie between groups for which it is not |
| ClusterSearch.NextGroup | security/local_code_scan.py:512-518 | the merged stream takes the smallest head, ties going to the smaller group |
| Locations.AttachLocations | security/local_code_scan.py:424-445 | the one-pass sweep gives every finding the counted location of its clamped offset, in any order and with duplicates |
| Locations.LocationsAreDistinct | security/source_integrity.py:139-143 | later offsets have later locations, so a location names one offset |
| Locations.LocationIs | security/local_code_scan.py:428-437 | the line is one more than the newlines before the offset, the column counts from the last of them |
| BreakerHistory.AgentRefinesHistory | hub/src/breaker.ts:219-273 | for every run, an agent's streak is its longest run of continuing agent-scoped failures, and it is open iff such a run reached the threshold since its last success |
| BreakerHistory.ProviderRefinesHistory | hub/src/breaker.ts:226-263 | a provider entry counts its class's failures from all agents since any success on its lane, and is open iff that count reached the threshold |
| BreakerHistory.LaneReach | hub/src/breaker.ts:238-247 | a success on a lane clears another lane's entries iff that lane's name extends its name with a colon |
| BreakerHistory.OtherLaneIsCleared | hub/src/breaker.ts:238-247 | a run in which it does |
| BreakerHistory.LanesRefineHistory | hub/src/breaker.ts:209-211 | the cached lane of an agent is the last one it was said to run on |
| BreakerHistory.StreakStep | hub/src/breaker.ts:268-268 | how one outcome changes the longest continuing run |
| BreakerHistory.TripStep | hub/src/breaker.ts:270-270 | and whether a run has reached the threshold since the last success |
| BreakerObject.Breaker.Record | hub/src/breaker.ts:219-273 | the maps become what the specification says, and for every entry exactly its flip is announced, so open and close alternate |
| BreakerObject.Breaker.EndProbe | hub/src/breaker.ts:276-282 | clears the probe flag of the agent and of its lane only |
| BreakerObject.Breaker.MarkProbe | hub/src/breaker.ts:286-295 | flags the open entries of agent and lane, and says whether there were any |
| BreakerObject.Breaker.IsOpen | hub/src/breaker.ts:296-304 | open iff the agent's own entry or any entry of its lane is |
| BreakerObject.Breaker.IntervalFor | hub/src/breaker.ts:309-317 | while open never sooner than the probe interval, recording the next probe time |
| BreakerMarks.IntervalIsTheLonger | hub/src/breaker.ts:309-311 | open, it is the longer of the base and the probe interval; closed, the base |
| BreakerMarks.HeldBackIff | hub/src/breaker.ts:296-304 | an agent is held back iff its own entry is open or one of the provider it was last said to run on |
| BreakerMarks.AgentMarksRefineHistory | hub/src/breaker.ts:219-317 | over every run the last failure, the opening time, the probe flag and the next probe time of an agent are what the history of calls says |
| BreakerMarks.ProviderMarksRefineHistory | hub/src/breaker.ts:219-317 | so are those of a provider entry |
| BreakerMarks.ZeroNeverOpens | hub/src/breaker.ts:219-220 | with threshold zero nothing is recorded, opened or stretched |
| BreakerMarks.HashedIff | hub/src/breaker.ts:390-393 | a persisted tail is recognised iff it is these words around eight small hexadecimal digits |
| BreakerObject.Breaker.Restore | hub/src/breaker.ts:363-382 | takes over what the specification of a restart says, before any notice |
| BreakerRestart.ResumedComesBack | hub/src/breaker.ts:363-382 | every entry held after boot is open, not probing, due at no set time, and has the count, times, class and persisted key of the one saved |
| BreakerRestart.FileHolds | hub/src/breaker.ts:323-350 | an agent is in the file iff its entry is open, counts something or is being probed, with the state that says which |
| BreakerRestart.FileListsProviders | hub/src/breaker.ts:334-345 | a provider entry is iff it is open or counts something |
| BreakerSessions.RestartResumesExactly | hub/src/breaker.ts:323-382 | whatever restarts went before, restoring the snapshot resumes exactly the open and half-open entries whose last failure is younger than the probe interval |
| BreakerSessions.ResumedAgentsInLockstep | hub/src/breaker.ts:264-393 | after any number of restarts, a resumed agent entry keeps the streak and open flag of one that never stopped, for all later fires over the words iff its key is no unclassified tail whose digits another tail shares |
| BreakerSessions.SharedDigitsWitness | hub/src/breaker.ts:264-393 | a run in which the restarted entry counts two failures and the other one |
| BreakerSessions.ResumedProvidersInLockstep | hub/src/breaker.ts:226-382 | after any number of restarts, so does a resumed provider entry whatever lanes were seeded, when each fire since says its provider or that it has none |
| BreakerSessions.LanesDecide | hub/src/breaker.ts:222-382 | with fires that leave the provider out, it does for all later calls iff the lanes known after boot let the same agents reach it |
| BreakerSessions.SeededLaneWitness | hub/src/breaker.ts:209-382 | a run with such a fire that clears the one entry and not the other |
| BreakerSessions.CollisionsAreTheOnlySlip | hub/src/breaker.ts:264-393 | on the next unclassified tail both agree iff it is the same tail or has other digits |
| BreakerSessions.KeysAreNamed | hub/src/breaker.ts:334-337 | after any number of restarts every provider entry's key can be split back into provider and class |
| BreakerSessions.TwinsContinueAlike | hub/src/breaker.ts:264-268 | comparing through the persisted key decides as the live key would |
| ActionKeys.KeyRoundTrip | hub/src/approvals.ts:125-185 | joining a parsed key gives the trimmed key, which parses to the same components |
| ActionKeys.EndStateHasKey | hub/src/approvals.ts:125-185 | conversely a class with all its components is the parse of the key they make |
| ActionKeys.SameEndState | hub/src/approvals.ts:125-185 | two legal keys are equal iff class and all components are |
| ActionKeys.ParseKey | hub/src/approvals.ts:125-185 | a legal key has every component its class declares |
| ActionKeys.ExpiryIsBounded | hub/src/approvals.ts:203-239 | a grant is unbounded only by the explicit word; otherwise it ends strictly later; omission means 24 hours |
| KeyGrammar.LegalIff | hub/src/approvals.ts:125-185 | a key is legal iff what it holds between blanks names a class with all of its components, none blank or with a control character |
| KeyGrammar.HasControlIff | hub/src/approvals.ts:160-185 | which code points are control characters |
| KeyGrammar.CodeTells | hub/src/approvals.ts:125-185 | an illegal key is refused for the first thing wrong with it |
| Texts.TrimIff | hub/src/approvals.ts:125-130 | trimming leaves what stands between the blanks |
| Texts.SpacesAre | hub/src/approvals.ts:125-130 | which characters are blanks |
| KeyGrammar.DurationIff | hub/src/approvals.ts:204-213 | a duration is read iff it is a positive, exactly countable number of one of the five units, and is that many of them |
| KeyGrammar.ValueIsDecimal | hub/src/approvals.ts:204-213 | digits are read in base ten |
| KeyGrammar.EndIff | hub/src/approvals.ts:218-239 | when a grant ends |
| Approvals.Lifecycle | hub/src/approvals.ts:285-465 | over every run with a clock that never goes back a row only moves forward, and an ended row never authorises again |
| Approvals.CallMovesAlongEdge | hub/src/approvals.ts:332-465 | one call moves one row along one edge and keeps its key |
| Approvals.RowsStayOk | hub/src/approvals.ts:332-465 | revoked and discharged are never both set, and every stored key is legal and trimmed |
| Approvals.LedgerReplays | hub/src/approvals.ts:332-465 | replaying the events alone gives every approval the state of its row, at any time |
| Approvals.ConsultsUseNothing | hub/src/approvals.ts:543-616 | any number of consults leaves all rows and the next verdict unchanged; unrecorded ones write nothing |
| Approvals.AuthorisesIff | hub/src/approvals.ts:569-585 | a consult authorises iff the key is legal and some row in scope with that key is granted now |
| Approvals.CoversItsEndStateOnly | hub/src/approvals.ts:543-616 | over the rows of any run: iff class and all components match a live grant in scope |
| Approvals.RefusalNamesTheTellingRow | hub/src/approvals.ts:587-615 | a refusal is about the row with the most history, and about none only if there is none |
| Approvals.CoverageAgrees | hub/src/approvals.ts:673-721 | the coverage query agrees with the consult and lists exactly the live grants of the same class for another end state, each with exactly the components that differ |
| Approvals.MissOfIff | hub/src/approvals.ts:689-709 | a row is listed iff it is granted, in scope, legal, of that class, and its trimmed key differs |
| Approvals.ApprovalStore.RequestApproval | hub/src/approvals.ts:332-348 | files a row and one event, or refuses and writes nothing |
| Approvals.ApprovalStore.GrantApproval | hub/src/approvals.ts:371-422 | both shapes of a grant, with every refusal in its order |
| Approvals.ApprovalStore.RevokeApproval | hub/src/approvals.ts:425-442 | only a requested or granted row is revoked |
| Approvals.ApprovalStore.DischargeApproval | hub/src/approvals.ts:449-465 | only a granted row is discharged |
| Approvals.ApprovalStore.ConsultApproval | hub/src/approvals.ts:543-616 | the verdict, and at most one attempt in the ledger |
| Approvals.ApprovalStore.CoverageQuery | hub/src/approvals.ts:673-721 | the loop over granted rows computes exactly the near misses, and writes nothing |
| ApprovalHistory.RowsComeFromCalls | hub/src/approvals.ts:332-465 | over every run each row has the key and project of the call that drew its identifier, and the end, the revocation and the discharge that the calls about it gave |
| ApprovalHistory.RequestTakesEffect | hub/src/approvals.ts:332-348 | what a request leaves, told from its arguments |
| ApprovalHistory.GrantTakesEffect | hub/src/approvals.ts:371-422 | what a grant of a key leaves: project, key and end as given |
| ApprovalHistory.GrantRequestTakesEffect | hub/src/approvals.ts:371-422 | and of a grant of a request |
| ApprovalHistory.RevokeTakesEffect | hub/src/approvals.ts:425-442 | and of a revocation |
| ApprovalHistory.DischargeTakesEffect | hub/src/approvals.ts:449-465 | and of a discharge |
| ApprovalHistory.AuthorisedIffLive | hub/src/approvals.ts:569-585 | a consult authorises iff a row of that key, in scope, was granted, not ended by a call, and has not run out |
| ApprovalHistory.GrantAuthorises | hub/src/approvals.ts:371-585 | a grant just made authorises consults of its key in its scope until its end |
| ApprovalHistory.AuthorisedWasGranted | hub/src/approvals.ts:405-585 | over every run, what a consult authorises was granted by an earlier call for that key and a scope that includes it |
| ApprovalHistory.OtherProjectIsRefused | hub/src/approvals.ts:405-585 | a key granted only for a named project is never authorised within another one |
| ApprovalHistory.VerdictNamesLatest | hub/src/approvals.ts:587-615 | the row a verdict names is the latest of those with its state |
| ApprovalHistory.PendingIsCounted | hub/src/approvals.ts:587-615 | and what it counts as pending are the requested ones |
| ApprovalHistory.AttemptIsRecorded | hub/src/approvals.ts:552-567 | a recorded consult leaves one event: what was asked, which row answered, and the answer |
| Inbox.InboxIsSafe | hub/src/channelstore.ts:158-223 | over every interleaving of overlapping polls: each human message up to the cursor is ingested, no message has two rows, no command is claimed twice |
| Inbox.CommitKeeps | hub/src/channelstore.ts:177-192 | a commit ingests every human message of the history it fetched, and keeps the invariant even if it moves the cursor back |
| Inbox.CursorMovesBack | hub/src/channelstore.ts:186-187 | the cursor can move back |
| Inbox.SlackPageHolds | hub/src/channel.ts:193-212 | paging from the newest message back collects exactly the human messages seen so far |
| Inbox.LarkPageHolds | hub/src/channel.ts:213-233 | paging forward does too, while the history grows |
| Inbox.FurthestIs | hub/src/channel.ts:242-246 | the new cursor is the old one or a fetched time stamp, and nothing fetched lies beyond it |
| Inbox.PollVia | hub/src/channel.ts:189-233 | it returns the human messages of all pages, or nothing: on an error, or when they do not end within 40 pages |
| Inbox.Store.Commit | hub/src/channelstore.ts:177-191 | rows and cursor move together; known messages are not inserted again |
| Inbox.Store.TryClaim | hub/src/channelstore.ts:203-205 | a command is won only while it is unclaimed |
| InboxRows.RowsAreMessages | hub/src/channelstore.ts:158-223 | over every run each row is a human message of the history with its time and command mark, acted on only by a claim or an acknowledgement |
| InboxRows.CommitMovesCursor | hub/src/channelstore.ts:177-191 | the cursor a commit stores |
| InboxRows.SlackTakesAll | hub/src/channel.ts:193-212 | a whole page of the newest-first kind leaves no human message out |
| InboxRows.LarkTakesAll | hub/src/channel.ts:213-233 | nor does one of the oldest-first kind |
| InboxRows.BacklogFitsIff | hub/src/channel.ts:189-233 | left alone, a poll of either kind gets through iff its backlog fits 40 pages |
| InboxRows.ClaimDecides | hub/src/channelstore.ts:203-205 | a claim is won iff the message has a row nobody acted on, and then it has none |
| InboxRows.AckCloses | hub/src/channelstore.ts:203-216 | an acknowledged message is open for no poll, every other one as before |
| InboxRows.FailLosesNothing | hub/src/channelstore.ts:164-176 | a failed fetch changes nothing, and the poll may start again |
| InboxRows.CommandsAreHandled | hub/src/channelstore.ts:199-216 | a poll left alone after its commit leaves no command open, and every other message as it was |
| Notifiers.RemindersAreSpaced | hub/src/daemon-notifiers.ts:77-181 | over every run two reminders about the same thing in the same state are at least the cadence apart |
| Notifiers.DueIsSent | hub/src/daemon-notifiers.ts:100-144 | what is due is sent unless its send fails or the cap is reached |
| Notifiers.TickSends | hub/src/daemon-notifiers.ts:100-180 | a tick sends the first 60 of what is due and deliverable, in order, and marks each |
| Notifiers.AlertsAreSeparateStalls | hub/src/daemon-notifiers.ts:218-278 | between two no-progress alerts a ticket reached Done, none did in the window before the second, so they are more than the window apart |
| Notifiers.StalledIff | hub/src/daemon-notifiers.ts:218-262 | when a stall is new, told from the ledger |
| Notifiers.AlertsAreTheMarkers | hub/src/daemon-notifiers.ts:218-278 | the alerts of a run are its markers |
| Notifiers.HealthAlternates | hub/src/daemon-notifiers.ts:289-337 | with increasing marker times alerts and recoveries strictly alternate, restarts anywhere |
| Notifiers.EpisodeReadExactly | hub/src/daemon-notifiers.ts:301-303 | when an episode is read as open |
| Notifiers.UnrecoveredIff | hub/src/daemon-notifiers.ts:301-303 | an episode is open iff an alert is later than every recovery |
| Notifiers.AlertRepeatsIff | hub/src/daemon-notifiers.ts:301-322 | an announced episode is alerted again iff a recovery carries the alert's time |
| Notifiers.AlertIsRepeated | hub/src/daemon-notifiers.ts:289-337 | a run of four ticks in which it is |
| Notifiers.Daemon.BlockedNotifyTick | hub/src/daemon-notifiers.ts:77-181 | at most 60 sends in a tick, in order, each real one leaving a marker; a dry run writes nothing |
| Notifiers.Daemon.NoProgressNotifyTick | hub/src/daemon-notifiers.ts:218-278 | alerts exactly on a new stall of a warmed-up loop |
| Notifiers.Daemon.FireHealthNotifyTick | hub/src/daemon-notifiers.ts:289-337 | alerts on a degraded reading outside an episode, recovers on a healthy one inside |
| Conventions.ParseConventions | hub/src/context-bill.ts:200-237 | the scan with its mutable fence and head list finds the sections of the specification |
| Conventions.SectionSpansAreLaminar | hub/src/context-bill.ts:221-236 | any two section spans nest or are disjoint |
| Conventions.SectionSpansCover | hub/src/context-bill.ts:221-236 | with distinct anchors and one Topology block every line is in the preamble or a section |
| Conventions.SpanEndIsFirst | hub/src/context-bill.ts:224-233 | a span ends before the first heading that ends it |
| ConventionSections.SectionsAre | hub/src/context-bill.ts:221-236 | each anchor has the section of the last heading with it, which holds no numbered heading of its level or above and no Topology heading but its own, and stops only before such a heading or at the end |
| ConventionSections.EqualLevelsAreDisjoint | hub/src/context-bill.ts:224-236 | two sections of the same level share no line |
| ConventionSections.PreambleAndTopologyAre | hub/src/context-bill.ts:221-236 | a file has a map iff it has a numbered and a Topology heading; where preamble and Topology block lie |
| ConventionSections.HeadsAre | hub/src/context-bill.ts:205-220 | the headings are the heading lines outside fences |
| ConventionSections.HeadOfIff | hub/src/context-bill.ts:216-219 | a heading is two or three hash signs, a space and a title |
| ConventionSections.AnchorIff | hub/src/context-bill.ts:218-219 | a title is numbered iff it begins with a number, perhaps a small letter, a full stop and a space |
| ConventionSections.TopologyIff | hub/src/context-bill.ts:219-219 | which title is the Topology heading |
| ConventionSections.FenceAtIff | hub/src/context-bill.ts:206-215 | a fence is open before a line iff a line outside fences opened it and none since closed it |
| ConventionSections.FenceIff | hub/src/context-bill.ts:208-212 | a fence is three or more of one mark, after blanks; bare if blanks alone follow |
| Shipping.MeasureIsFileSize | hub/src/context-bill.ts:108-114 | the measure of a file is its size exactly when it ends with a newline |
| Texts.Utf8BytesAre | hub/src/context-bill.ts:108-114 | bytes add up over the characters, each one to four by its code point |
| Shipping.SplitSkillConserves | hub/src/context-bill.ts:134-143 | prose and cheat sheet measure the whole file |
| Shipping.ProseHasNoMarkers | hub/src/context-bill.ts:134-143 | no marker line is left in the prose |
| ShippedText.SplitSkillIs | hub/src/context-bill.ts:134-143 | when a file is refused, and which lines are the block otherwise |
| ShippedText.MarkerIff | hub/src/context-bill.ts:129-130 | which lines are markers |
| Shipping.ConventionsLoad | hub/src/context-bill.ts:242-254 | bills the covered lines, each once |
| Shipping.ConventionsUnionText | hub/src/boot-prefix.ts:109-144 | ships the covered lines once each in file order; its content bytes are what is billed for the same sections |
| Shipping.KeptIsCovered | hub/src/context-bill.ts:250-253 | exactly the covered lines, once each, in file order |
| Shipping.PiecesKeepCovered | hub/src/boot-prefix.ts:127-141 | what is shipped is what is billed |
| Shipping.PiecesTile | hub/src/boot-prefix.ts:127-141 | kept lines and collapsed gaps tile the file, and no two gaps touch |
| Shipping.NestedCitationIsFree | hub/src/context-bill.ts:240-254 | citing a section inside a cited one costs nothing |
| Shipping.GapNamesHeading | hub/src/boot-prefix.ts:129-141 | a heading left out is named in the marker of its gap |
| ShippedText.ShippedAre | hub/src/boot-prefix.ts:127-141 | the text shipped is the kept lines alone; each gap leaves one marker, set off by blank lines, naming exactly the sections whose headings it dropped |
| ShippedText.GapAnchorIff | hub/src/boot-prefix.ts:133-134 | which lines name a section |
| ShippedText.ContentIsMeasured | hub/src/context-bill.ts:108-254 | the bytes billed for some lines are the measure of a file of these lines |
| ShippedText.UnprunedAre | hub/src/boot-prefix.ts:115-115 | the sections loaded are the cited ones that the configuration did not turn off |

## Left out

- Tar, gzip, ZIP and end-of-central-directory decoding, the `re` signals, the content analysis and hashing are parameters; the archive theorems about clean scans assume that a limited stream is passed on unchanged and that regular tar members have a stream. Tar member sizes are taken to be natural numbers.
- An exception that the archive methods do not catch, such as a `zlib.error`, which the worker turns into an issue.
- Which of equally severe findings survive the cut to 128: only their severity order is modelled, not the tie-break by path, offset and rule.
- Changes to the directory tree during a walk, except the outcome of each open: a race, a failed stat, a failed listing.
- Real signals, health probes, port binding and the pre-probe of ports: the locked section keeps only their outcomes. `daemon down`, which takes no lock, and process ids that are reused.
- A process that dies while it holds the break-mutex (crash recovery covers it, mutual exclusion does not).
- `classifyFireError` and the cut of the last output line to 160 characters: the error class and the line are inputs.
- breaker.json itself, its coalesced writes, and the note that lists resumed and stale entries.
- SQLite: a transaction and a call of an approval writer are one atomic step each; time stamps are integers, also where the inbox compares strings of equal width.
- The 14-day purge of acted messages, the text of replies and roadmap drafts, and a command whose poll dies after claiming it.
- A restart between a send and its marker repeats that message: the notifier theorems are about markers.
- The wording of messages, reasons, markers and refusals, the `effectiveSpans` count and the bytes of the shipped text beyond its content.
- `_group_offsets` for regular expressions: the cluster search takes sorted streams.
- ClusterSearch.ClusterSignals: states the largest left end for the event it stops at, not for the offset, because the latter is false under ties (LargestLeftEndIff).
- ColdStart.GuardedRunsExclude: requires the guard, because without it exclusion is false (ContentionAloneViolates).
- ArchiveCompleteness.ArchiveExact: excludes members inside a plain gzip payload, because the code does not open them (GzippedZipIsMissed).
- BreakerSessions.ResumedAgentsInLockstep: requires the same threshold for all schedulers, and tails that differ from class names and persisted tails; a restart that does not resume the entry starts it afresh.
- Git history scanning, whose findings and issues enter the same exit code, command dispatch, HTML views, launchd and systemd files, the remaining notifiers, agent operations, blocked-by, rosters, board snapshots and bundles, which would add easier members.
