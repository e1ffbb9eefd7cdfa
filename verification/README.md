# Verified models of the TGW agent services and maintenance tools

Dafny models of the parts of the repository where a mistake costs data or dispatches
something twice, with proofs of what they promise. `dafny verify dfyconfig.toml` checks
everything.

| module | what it models |
|---|---|
| Wrappers | what the models share |
| ActorBindingModel, ActorBinding, ActorBindingCases | the journaled actor-binding transaction over the destination parent and the transaction root, its rollback, legacy siblings, and another actor writing in between |
| Fleet | the all-or-nothing fleet link transaction and its journal rollback |
| TextLines, CodexSplice, DeepSeekSplice | the two registration splices into user configuration files |
| ResumedProjection | what the splices mean for a resumed apply |
| ObservationToken | the durable one-attempt token: an interleaved machine with volatile and durable layers, and the method that runs on it |
| ObservationResult, ObservationController | the observation controller, its descriptors, and the separate validator of its results |
| JsonQuotes, JsonComments, JsonCommas, JsonKeys | the JSON repair passes |
| Ed25519 | double-and-add, clamping, encoding and signing (sections 5.1.2, 5.1.5, 5.1.6 and 5.1.7 of RFC 8032) |
| HostBootstrap | install and rollback of the host-owned declarations |
| CategorySafety, HistoryScrub, Requeue | the maintenance scripts over item records and dead letters |

## How crashes, rivals and failures are modelled

A method of the binding transaction or of the bootstrap may stop before any system call:
it then returns `Cut` with the disk as it is, and nothing after that point happens.
A store created `steady` has no such cut and no failing call; for it the contracts say when
an attempt ends well. `History` methods chain any number of such attempts. In `ActorBinding.Store` every gap
between two system calls may also run an arbitrary number of steps of another actor on the
destination parents; the field `theirs` records which entries that actor still claims. In
`ObservationToken` the interleaving is explicit: a run is a sequence of events of any
number of controllers, kills and power losses; the imperative `Consume`, in which every
system call may fail, is proved to be such a run. Values that come from outside (failing
system calls, replies, parser results, rendering of values) are arbitrary.

`ValidPlan`, `Grounded` and `Start` state what planning establishes: derived names are
distinct, a backup exists exactly for a preimage that is not absent, no effect is planned
for a destination that is already current, every recorded link leads to its recorded
content from where it was found, every projected effect wants the projection of its
preimage, and every destination and sibling is as it was captured. Bindings observed as current are
not assumed to be so: whether they are decides the outcome. One part is an assumption: planning
does not compare an adopted sibling with the desired link, and `ValidEffect` takes them to
differ; the findings say what happens when they do not. `Host` holds what the transaction
reads and does not own: where links lead, and what a store projects to.

## Findings

- A rollback that is cut off after it handed an adopted sibling to its destination cannot
  be finished by another rollback: the retirement loop that runs first finds the sibling
  neither at its path nor retained (`AdoptedRollbackCutOff`). `HandedBackExactly` and
  `Store.Rollback` give the exact condition; one uninterrupted rollback is fine.
- A legacy sibling whose relative target does not lead to the recorded content from the
  transaction root is moved there and then fails its own verification, in every apply and
  every rollback, so it never returns (`RelativeSibling`). `Store.Materialize` and `Store.Rollback` raise exactly when such a
  sibling exists, or for the other reasons they name.
- An apply that adopts a composite store cannot be resumed until the sibling is retired:
  the resumed planning looks for the retained copy and raises (`AdoptedCompositeCutOff`,
  exact condition in `ResumableAtStart`). The same branch would stop a composite store that
  was absent, but planning refuses that one itself
  (agent-services/installers/materialize.py:1787).
- An adopted sibling that already is the desired link is applied and can then not be rolled
  back: the rollback finds the preimage at the destination and a backup beside it
  (`AdoptedIsDesired`, exact condition in `AmbiguousExactly`).
- A finished apply whose projection does not repeat cannot be run again, because planning
  again gives another hash (`ResumableAtEnd`, with `CodexSettled`, `DeepSeekSettled` and `DeepSeekAppendSettled`).
- A foreign entry with exactly the recorded preimage's kind and content is moved to the
  backup without a raise (`RecordedIsMoved`); every other moved entry makes the run raise
  (`MovedOnlyIfRecorded`).
- The fleet materialization reads its sources for the report after its recovery handler
  has ended: an unreadable file raises with all links placed and no journal
  (`UnreadableSource`). Its rollback compares resolved paths, so a source behind a linked
  directory is refused (`UnanchoredSource`). `Store.Materialize` gives both conditions. A
  recovery step that raises ends the recovery; no link is lost (`Store.Recover`).
- The bootstrap rollback restores a symlink by unlinking and then linking. Cut in between,
  the target matches neither its prior nor the installed content, and every later rollback
  refuses (`SymlinkGap`; `Host.Rollback` states if and only if). Directories that the
  install makes above its targets are not declared and stay.
- Trailing-comma removal is not idempotent: `,,]` needs two passes (`SecondPassExample`,
  exact condition in `IdempotentExactly`).
- The DeepSeek splice does not end the generated row with a newline. If the row lacks one,
  it runs into the following text, and a second projection removes that text
  (`UnclosedRow`, `UnclosedRowExample`, exact condition in `SpliceTwice`).
- The requeue guard covers completed runs only, because the marker is saved at the end
  (`UnsavedRunRepeats`); the comment in the script claims the same scope.
- A history value that is not a list is replaced when its group merges, exactly when some
  variant of the group has a non-blank value (`ScalarHistoryExactly`,
  `ScalarHistoryInPass`); `EarlierSurvives` is about list-valued histories.
- A close that fails inside the launch skips the descriptors after it, and the execution
  can still return, as a dispatch in doubt (`Session.CloseAll`, `Session.Execute`).
- The result validator accepts a TOKEN_UNCERTAIN result without evidence references
  (`WithoutEvidenceExactly`), which the controller never returns (`Session.Execute`).

## Model

| member | source | states |
|---|---|---|
| ActorBinding.Store.History | agent-services/installers/materialize.py:1332-1979 | From a planned disk, any sequence of apply and rollback attempts, each cut off before any system call, keeps the journal and disk invariant (names outside the plan included, and no APPLIED journal over a binding that is not as observed); a last attempt that finishes leaves the plan converged or restored; with a plan that always resumes and bindings as observed, an apply raises only after a rollback began, and with a binding that differs none ever finishes; with portable siblings and none adopted no rollback raises, and a finished one gives back every name of both directories as found; with a sibling that is not portable nothing ever finishes |
| ActorBinding.Store.Materialize | agent-services/installers/materialize.py:1896-1979 | One apply attempt. Alone it raises only if, and not cut off it returns if and only if not: a rollback has begun, the attempt resumes a journal that planning again does not give, some sibling's link does not lead to its recorded content from the transaction root, or some observed binding differs from its record; the first two leave disk and journal as they were, and with a binding that differs the journal never becomes APPLIED; a return means every destination holds its desired entry, every preimage its backup, no stage is left, every sibling is retired and the journal names them all. With another actor writing between any two system calls, no entry of theirs is overwritten or deleted, and a return still means that every destination was read with its desired entry, every observed binding was read as recorded, and every backup and retained name holds its recorded preimage |
| ActorBinding.Store.NoisyApplies | agent-services/installers/materialize.py:1896-1979 | Any number of apply attempts, each cut off anywhere, with another actor writing between any two system calls, keep every entry of theirs at its name or in its slot; after an attempt that returned, only entries of a recorded preimage's kind are in a slot |
| ActorBinding.Store.Replan | agent-services/installers/materialize.py:1465-1487 | The prelude of a resumed apply raises exactly when some projected effect is not planned again as the journal has it, and moves nothing |
| ActorBinding.Store.Perform | agent-services/installers/materialize.py:1925-1979 | The journal loops: alone they raise only when some sibling is not portable or some observed binding differs, and finish converged only otherwise; one that finishes, alone or not, has read every destination and every observed binding as it should be |
| ActorBinding.Store.Observe | agent-services/installers/materialize.py:1949-1973 | The final check, from any disk: alone, it finishes only if every observed binding holds its recorded kind and raises only if one does not; with another actor writing in between, finishing still means that each was read as recorded |
| ActorBindingModel.ReplansByPhase | agent-services/installers/materialize.py:1465-1487 | For every phase an interruption can leave a projected effect in, when it is planned again as the journal has it: placed, if projecting twice changes nothing; waiting for its sibling, never; otherwise as long as its preimage is a file or its link still leads there |
| ActorBindingModel.ResumesEverywhere | agent-services/installers/materialize.py:1465-1487 | With portable siblings, stores that were there themselves and projections that repeat, every disk an interrupted apply can leave is resumed |
| ActorBindingModel.ResumableAtStart | agent-services/installers/materialize.py:1467-1480 | Cut off right after the journal was written, an apply can be resumed if and only if every projected store was there as a file |
| ActorBindingModel.ResumableAtEnd | agent-services/installers/materialize.py:1614-1619 | A finished apply can be run again if and only if projecting into every projected store a second time changes nothing |
| ActorBindingModel.AllFollowed | agent-services/installers/materialize.py:1838-1849 | With portable siblings every comparison of an effect's preimage, at either place, comes down to its kind |
| ActorBinding.Store.ApplyEffect | agent-services/installers/materialize.py:811-901 | From every phase an interrupted apply can leave, alone it never raises, goes forward only, touches only its own names, and finishes with the desired entry placed; under interference it keeps every foreign entry at its name or in its slot |
| ActorBinding.Store.WriteStage | agent-services/installers/materialize.py:776-808 | The stage is created only where none is, an existing one is accepted only if it is the desired entry, and nothing else changes |
| ActorBinding.Store.PartDestination | agent-services/installers/materialize.py:868-885 | A destination is moved to its backup only as the recorded preimage; an entry that turns out to be foreign is moved back unless its name is taken again, and the step then raises |
| ActorBinding.Store.ApplyRetirement | agent-services/installers/materialize.py:904-954 | A legacy sibling is moved to its retained name or found there; from either place, alone and not cut off, it raises exactly when its link does not lead to the recorded content from the transaction root; one that is at neither place is refused and nothing moves |
| ActorBinding.Store.MoveOut | agent-services/installers/materialize.py:376-397 | A no-replace rename into the transaction root keeps every foreign entry reachable |
| ActorBinding.Store.Place | agent-services/installers/materialize.py:891-898 | The staged entry is placed only on a free name, so it never replaces a foreign entry |
| ActorBinding.Store.Rollback | agent-services/installers/materialize.py:2074-2191 | From every disk an interrupted apply or rollback can leave, an attempt that is not cut off ends well if and only if no adopted sibling had been handed back and every sibling is portable, and raises otherwise; a completed one restores every destination and non-adopted sibling and leaves no stage or backup |
| ActorBinding.Store.RollbackEffect | agent-services/installers/materialize.py:2142-2181 | Whatever phase it finds, the preimage ends at the destination, backup and stage are gone, and an interruption leaves a phase the next attempt accepts |
| ActorBinding.Store.NormalizeRetirements | agent-services/installers/materialize.py:2106-2109 | All siblings reach their retained names unless one was handed back earlier or is not portable; not cut off, it raises exactly then |
| ActorBinding.Store.RestoreRetirement | agent-services/installers/materialize.py:957-1004 | A retired, portable sibling returns to its path; an adopted one is left to its destination |
| ActorBinding.Store.RestoreAll | agent-services/installers/materialize.py:2185-2191 | With every destination at its preimage, the siblings end restored, adopted ones gone from both directories |
| ActorBinding.MovedOnlyIfRecorded | agent-services/installers/materialize.py:868-890 | After an apply that returned, another actor's entry is at its own name or has exactly the recorded preimage's kind; every other moved entry made the run raise |
| ActorBindingCases.RecordedIsMoved | agent-services/installers/materialize.py:868-898 | The exception is real: another actor replaces a planned destination by a look-alike, every check of the apply passes, and its two renames leave that entry in the backup of a converged disk |
| ActorBindingCases.AdoptedRollbackCutOff | agent-services/installers/materialize.py:2106-2171 | From the planned disk a rollback retires an adopted sibling and moves it on to its destination, every check passing; cut off there, the sibling is refused by the first loop of every later rollback |
| ActorBindingCases.AdoptedCompositeCutOff | agent-services/installers/materialize.py:1467-1477 | An adopted composite store whose apply is cut off right after the journal was written: the disk is as planned and every resumed apply raises before it moves anything |
| ActorBindingCases.AmbiguousExactly | agent-services/installers/materialize.py:2144-2148 | Rolling back a placed effect meets an ambiguous backup if and only if the entry at the destination cannot be told from the preimage; a preimage that differs from the desired entry rules it out |
| ActorBindingCases.AdoptedIsDesired | agent-services/installers/materialize.py:1498-1508 | An adopted sibling that already is the desired link is retired and placed again, every check passing, and the rollback then finds preimage and backup together and raises |
| ActorBindingCases.RelativeSibling | agent-services/installers/materialize.py:931-951 | A sibling whose target leads elsewhere from the transaction root is moved there, and then every apply and every rollback refuses |
| ActorBinding.NothingHandedBack | agent-services/installers/materialize.py:2074-2191 | A plan without adopted siblings never reaches such a disk |
| ActorBindingModel.HandedBackExactly | agent-services/installers/materialize.py:2106-2148 | A disk is in that state if and only if some effect that adopts a sibling already has its preimage at its destination |
| ActorBindingModel.StartIsApplying | agent-services/installers/materialize.py:1881-1895 | The planned disk satisfies the apply invariant under a PLANNED journal |
| ActorBindingModel.ApplyingIsRolling | agent-services/installers/materialize.py:2097-2109 | Every disk an interrupted apply can leave is one rollback starts from, with nothing handed back |
| ActorBindingModel.EffectStep | agent-services/installers/materialize.py:1940-1948 | A possibly cut-off effect keeps the invariant of all effects and siblings and undoes no finished effect |
| ActorBindingModel.RetirementStep | agent-services/installers/materialize.py:1925-1939 | A possibly cut-off retirement keeps the invariant of all effects and siblings, adopted ones included |
| ActorBindingModel.RollEffectStep | agent-services/installers/materialize.py:2110-2181 | A possibly cut-off rollback of one effect keeps the rollback invariant and the link between an adopted preimage and its sibling |
| ActorBindingModel.RollRetirementStep | agent-services/installers/materialize.py:2106-2109 | A possibly cut-off retirement or restoration keeps the rollback invariant and moves no other sibling |
| ActorBindingModel.RestoredIsStart | agent-services/installers/materialize.py:2185-2191 | A completed rollback without adoption is the disk planning saw, name by name |
| ActorBindingModel.ObservedStays | agent-services/installers/materialize.py:1949-1973 | Observed bindings lie outside the names a transaction touches: from every disk it can leave, they are as recorded exactly when they were at the start |
| ActorBindingModel.WantedExactly | agent-services/installers/materialize.py:776-808 | An entry is accepted as the desired one exactly when it is what writing the stage makes, for some metadata of a link |
| Fleet.Store.Materialize | agent-services/installers/materialize.py:201-320 | Without the flag no existing name changes, with it only replaceable links do, and a name that is no link never does; an adapter whose destination exists, is no link to its source and may be neither replaced nor held refuses the whole fleet with nothing changed; after a commit every other adapter not yet linked has its link, and the link it replaced is in its backup; when no call fails and the names are free, an apply commits. Before the links are placed, a conflict, a dry run or any failing step whose recovery finishes leaves the link map exactly as found, and if the recovery itself raises, whatever was there is still at its name or in the backup of that name; once the links are placed, the call returns if and only if every source can be read for its digest, and otherwise raises with the links in place; the returned journal rolls back to the starting map if and only if every newly linked source resolves to itself |
| Fleet.Store.PlanWork | agent-services/installers/materialize.py:233-248 | A conflict anywhere refuses everything; otherwise the work is exactly that of the missing and replaceable adapters, and when the destinations are in order all of it can be carried out |
| Fleet.Sorted | agent-services/installers/materialize.py:237-246 | What the classification decides, by the entries alone: a conflict is an existing destination that is no link to the source and is neither held nor, under the flag, a link; work is due for a missing destination, and under the flag for a foreign link |
| Fleet.Store.LinkAll | agent-services/installers/materialize.py:250-286 | The stage, swap and recovery loops together are all-or-nothing over every destination, stage and backup name when the recovery finishes, and lose no link even when it raises |
| Fleet.Store.Recover | agent-services/installers/materialize.py:276-286 | From every point at which staging or swapping can fail, a recovery that finishes gives back the starting map, and one that raises loses nothing |
| Fleet.Store.SwapOne | agent-services/installers/materialize.py:265-275 | One swap moves one item through its phases and changes no other name, wherever it fails |
| Fleet.Store.BringBack | agent-services/installers/materialize.py:280-282 | Every replaced link returns to its destination from any point of failure, or waits in its backup if the loop raises |
| Fleet.Store.DropStages | agent-services/installers/materialize.py:283-286 | Every staged link left over is removed and nothing else; a loop that finishes leaves the starting map |
| Fleet.Store.Rollback | agent-services/installers/materialize.py:323-345 | The loop computes the journal rolled back from its last entry, comparing resolved links, and refuses exactly when some entry's checks fail |
| Fleet.RollbackInverts | agent-services/installers/materialize.py:312-345 | For every finished materialization, rolling its journal back equals the starting map if every placed link resolves to its source, and is refused if one does not |
| Fleet.UnreadableSource | agent-services/installers/materialize.py:288-303 | A source with an unreadable file has its link staged and placed before the report raises |
| Fleet.UnanchoredSource | agent-services/installers/materialize.py:337-338 | A source behind a linked directory is linked, and an untouched fleet is refused by the rollback |
| Fleet.RollShape | agent-services/installers/materialize.py:330-345 | Undoing any suffix of a finished journal leaves the entries before it linked and the rest as found, up to the first link that does not resolve to its source |
| Fleet.DerivedSeparate | agent-services/installers/materialize.py:258-271 | Stage and backup names derived from the destinations never collide with each other or a destination |
| CodexSplice.RetainedExactly | agent-services/installers/materialize.py:1102-1114 | The retained lines are exactly, and in order, the lines outside tgw-context tables, where being outside is stated by table headers alone |
| CodexSplice.KeptText | agent-services/installers/materialize.py:1118-1119 | All retained text but its trailing white space opens the merged file and the fragment closes it, so nothing else is added, lost or moved |
| CodexSplice.IdempotentExactly | agent-services/installers/materialize.py:1102-1119 | Splicing twice equals splicing once if and only if the fragment's own lines outside managed tables are blank, and absent when the file keeps no line |
| CodexSplice.ManagedIdempotent | agent-services/installers/materialize.py:1102-1119 | For a fragment of managed tables only, splicing twice equals splicing once on every file |
| CodexSplice.PrefixClean | agent-services/installers/materialize.py:1118-1119 | Trimming trailing white space from what is kept never uncovers a managed table header |
| CodexSplice.ContextTrailing | agent-services/installers/materialize.py:1015-1018 | Trailing white space does not change whether a line opens a managed table |
| CodexSplice.HeaderExactly | agent-services/installers/materialize.py:1014-1018 | A bracketed plain name is a table header, and a managed one exactly when it is one of the four spellings of the tgw-context tables |
| CodexSplice.Project | agent-services/installers/materialize.py:1102-1126 | The loop returns that splice; it refuses an inline layout exactly when an entry exists and no managed header does, and refuses a merge that parses to anything unexpected |
| DeepSeekSplice.SpliceTwice | agent-services/installers/materialize.py:1240-1251 | Text before and after the old row is kept character for character; the new row is the generated one at the old indent, and moving it back gives the generated row; a second projection changes nothing if and only if the generated row closes its last line or nothing follows the old row |
| DeepSeekSplice.AppendTwice | agent-services/installers/materialize.py:1234-1239 | Without a row the fragment follows complete lines; a second projection changes nothing when the fragment's row has only spaces before its dash and refuses otherwise |
| DeepSeekSplice.UnclosedRow | agent-services/installers/materialize.py:1240-1248 | For every two-line row without a final newline, the projection glues the next line to it and the second projection removes that line |
| DeepSeekSplice.UnclosedRowExample | agent-services/installers/materialize.py:1240-1248 | A patch store with a comment after its row, and a fragment without a final newline, on which this happens |
| ResumedProjection.CodexSettled | agent-services/installers/materialize.py:1614-1619 | A placed Codex store passes the hash check of a resumed apply if and only if the fragment leaves nothing behind that a splice would take for the user's, and the merge is accepted |
| ResumedProjection.DeepSeekSettled | agent-services/installers/materialize.py:1614-1619 | A placed DeepSeek store whose row was replaced passes it if and only if the generated row closes its last line or nothing follows the old row |
| ResumedProjection.DeepSeekAppendSettled | agent-services/installers/materialize.py:1614-1619 | A placed DeepSeek store to which the fragment was appended passes it if and only if the fragment's row has only spaces before its dash |
| ResumedProjection.RepeatableResumes | agent-services/installers/materialize.py:1465-1487 | With projections that repeat on every text, portable siblings and stores that were there, a cut-off apply is resumed from every disk it can leave |
| DeepSeekSplice.RowEnd | agent-services/installers/materialize.py:1194-1206 | The scan ends the row at its specified extent, which ReachIs and RowIs say by the lines of the text |
| DeepSeekSplice.ReachIs | agent-services/installers/materialize.py:1197-1206 | The scan's end is the only cut with deeper or blank lines before it and a shallower line, or nothing, after it; DeeperIs says by characters which lines are deeper |
| DeepSeekSplice.DeeperIs | agent-services/installers/materialize.py:1197-1206 | A line belongs to the row exactly when it is blank or begins with more spaces than stand before the dash; one with at most as many spaces and then a character that is no white space does not |
| DeepSeekSplice.RowIs | agent-services/installers/materialize.py:1182-1206 | A row laid out in complete lines and followed by such a line is located from its own line to exactly that one |
| DeepSeekSplice.ProjectedIs | agent-services/installers/materialize.py:1240-1251 | On a store written out as lines before, the row, and what follows it, the projection gives the same lines before, the reindented generated row, and the same text after; it is refused when the generated row cannot be reindented |
| DeepSeekSplice.SiblingKept | agent-services/installers/materialize.py:1197-1248 | A row that follows at the same indent, and everything after it, is kept |
| DeepSeekSplice.RefusedUnlessOne | agent-services/installers/materialize.py:1208-1254 | Nothing is projected unless the fragment has exactly one row, the store at most one and the result exactly one |
| DeepSeekSplice.LocateIs | agent-services/installers/materialize.py:1182-1193 | A row laid out with a dash and one space is located at its own line and indent |
| DeepSeekSplice.ReindentRoundTrip | agent-services/installers/materialize.py:1213-1223 | Reindenting a row and reindenting it back gives the row |
| DeepSeekSplice.Reindent | agent-services/installers/materialize.py:1213-1223 | The loop rewrites every line as specified and refuses exactly when a non-blank line is less indented than the source |
| DeepSeekSplice.Project | agent-services/installers/materialize.py:1226-1251 | The projection computes what ProjectedIs, SpliceTwice and AppendTwice speak of |
| ObservationToken.AtMostOneLaunch | src/tgw/a3_observation_authority.py:286-310 | Over every interleaving of controllers on one token root, with kills and power losses that drop unsynced names, at most one launch happens |
| ObservationToken.LaunchHappens | src/tgw/a3_observation_authority.py:119-310 | The guarantee is not empty: from the first state some run spends the token, durably, and launches |
| ObservationToken.CrashForgets | src/tgw/a3_observation_authority.py:119-153 | Nor is the crash: some run loses power after the exclusive create, and the name is free for another attempt |
| ObservationToken.DurableBeforeLaunch | src/tgw/a3_observation_authority.py:119-153 | Whenever a launch can happen the complete marker is durable, is the launcher's own, and nobody launched before |
| ObservationToken.AmbiguousNeverLaunches | src/tgw/a3_observation_authority.py:148-153 | An attempt that was refused, failed or ended ambiguous never launches, whatever happens later |
| ObservationToken.DurableStays | src/tgw/a3_observation_authority.py:119-153 | A durable marker survives every later event |
| ObservationToken.SpentForOthers | src/tgw/a3_observation_authority.py:119-135 | Once one attempt's marker is durable no other attempt launches |
| ObservationToken.StepKeepsInv | src/tgw/a3_observation_authority.py:119-153 | Every event keeps the ownership invariant between markers, program points and launches |
| ObservationToken.RunKeepsInv | src/tgw/a3_observation_authority.py:265-310 | Every run keeps it |
| ObservationToken.TokenRoot.Consume | src/tgw/a3_observation_authority.py:119-153 | The method is a run of the machine that ends at the program point of its verdict; Spent means the name was free and the whole marker is durable; AlreadyConsumed means it was taken and nothing changed; when no call fails, a free name ends as Spent and a taken one as AlreadyConsumed |
| ObservationToken.TokenRoot.WriteAll | src/tgw/a3_observation_authority.py:127-133 | The partial-write loop is a run of write steps; on success the marker holds the whole hash |
| ObservationToken.TokenRoot.Settle | src/tgw/a3_observation_authority.py:126-153 | After the exclusive create the outcome is Spent with a durable complete marker, or ambiguous; never a refusal |
| ObservationController.Session.Execute | src/tgw/a3_host_state_observation.py:2490-2830 | On every path each held descriptor is closed once, or skipped because a close before it in the same loop failed, and never twice; without a failing close all are closed; the launch is called once if the token was spent and never otherwise; without a failing close the answer is the one the token, the reply, the stability of the grant, the store and the readability of the evidence determine: an accepted receipt or remote terminal with all of them good is returned as itself, and a dispatch in doubt appears only otherwise; a failing close surfaces as a raise, or as a dispatch or persistence in doubt; a returned result has dispatched true exactly when launch was called, refers to evidence exactly when its persistence is not in doubt, and passes the validator; the validator never rejects a result the controller built |
| ObservationController.Session.CloseAll | src/tgw/a3_host_state_observation.py:2056-2061 | A closing loop closes a stretch of its descriptors and, exactly when one close fails, skips the rest |
| ObservationController.Session.Attempt | src/tgw/a3_host_state_observation.py:2551-2697 | The controller body closes launch and authorities once and answers exactly as the token, the reply and the fate of the store determine |
| ObservationController.Session.AfterLaunch | src/tgw/a3_host_state_observation.py:2696-2830 | An accepted receipt over a stable grant whose store and evidence are good is returned as PASS with that receipt and its dependency, an accepted remote terminal as itself; a store that loses track gives the persistence terminal; dispatch in doubt is the answer to everything else and to nothing else |
| ObservationController.GoodReplyReturned | src/tgw/a3_host_state_observation.py:2697-2830 | Corollary for Execute: with the token spent and everything good, a valid receipt ends as PASS with that receipt and the dependency on its hash, the SSH identity and the composition, and a valid remote terminal ends as itself |
| ObservationController.Session.Conclude | src/tgw/a3_host_state_observation.py:2629-2695 | Which fates of grant, store and evidence return the published failure terminal as accepted, which turn it into the persistence terminal of the same dispatch flag, and which raise |
| ObservationController.Session.PersistenceResult | src/tgw/a3_host_state_observation.py:2593-2627 | An ambiguous persistence always becomes an accepted result that carries its context |
| ObservationController.Session.RunLaunch | src/tgw/a3_host_state_observation.py:2243-2282 | The launch closure and what it acquired are closed once, a second call cannot run it, and a failing close makes it raise |
| ObservationController.Session.CloseComposition | src/tgw/a3_host_state_observation.py:2325-2334 | Closing a composition whose launch was taken closes nothing twice |
| ObservationResult.FailureResultValid | src/tgw/a3_host_state_observation.py:2833-3001 | Every failure result over its published bundle is accepted |
| ObservationResult.PassResultValid | src/tgw/a3_host_state_observation.py:2833-3001 | Every pass result over its published bundle is accepted |
| ObservationResult.FailureContextValid | src/tgw/a3_host_state_observation.py:1437-1478 | Every context built for a failure passes its independent recomputation |
| ObservationResult.PassContextValid | src/tgw/a3_host_state_observation.py:1437-1478 | Every context built for a pass passes its independent recomputation |
| ObservationResult.ContextDetermined | src/tgw/a3_host_state_observation.py:2351-2486 | The converse: the validator accepts no context but the one the evidence store builds for that origin and grant observation |
| ObservationResult.ExpectedExactly | src/tgw/a3_host_state_observation.py:1437-1478 | The inventory of an attempt names its own four files and every attachment, each by its own hash and length |
| ObservationResult.AcceptedShape | src/tgw/a3_host_state_observation.py:2833-3001 | Corollary for readers of what `Session.Execute` returns: an accepted result has receipt and dependency exactly on PASS and a persistence context exactly on PERSISTENCE_UNCERTAIN |
| ObservationResult.WithoutEvidenceExactly | src/tgw/a3_host_state_observation.py:2833-3001 | An origin is accepted without evidence references if and only if it is TOKEN_UNCERTAIN |
| ObservationResult.WithoutEvidence | src/tgw/a3_host_state_observation.py:2833-3001 | Corollary: whatever is accepted without evidence references is TOKEN_UNCERTAIN, which `Session.Execute` never returns so, or PERSISTENCE_UNCERTAIN |
| JsonQuotes.ReplaceSingleQuotedStrings | tools/repair_itemdata_json.py:111-164 | The index loop computes the rewrite and reports a change exactly when the text changed; what the rewrite is, the rows below say by readers of the text |
| JsonQuotes.MeaningKept | tools/repair_itemdata_json.py:111-164 | A reader that knows both kinds of quotes over the input and one that knows only double quotes over the output read the same sequence of strings and characters, after every prefix |
| JsonQuotes.AlignedExactly | tools/repair_itemdata_json.py:111-164 | The output is the input position by position: a single quote that opens or closes a string reads as a double quote, every other character is itself, and a backslash is inserted exactly before a double quote inside a single-quoted string |
| JsonQuotes.OpensExactly | tools/repair_itemdata_json.py:153-160 | A single quote opens a string exactly at the start of the text or after one of the listed characters |
| JsonQuotes.Simulation | tools/repair_itemdata_json.py:111-164 | After every prefix, a plain double-quote lexer over the output is in the state that corresponds to the rewriter's |
| JsonQuotes.EveryCharacter | tools/repair_itemdata_json.py:111-164 | Before every emitted character that lexer is inside a string exactly when the rewriter was in its double- or single-quote state |
| JsonQuotes.Idempotent | tools/repair_itemdata_json.py:111-164 | A second pass changes nothing |
| JsonComments.RemoveComments | tools/repair_itemdata_json.py:167-207 | The index loop computes the input's tokens without comments and reports a change exactly when the text changed |
| JsonComments.OutputTokens | tools/repair_itemdata_json.py:167-207 | Tokenizing the output gives the input's tokens without comments: no opener outside literals is left or created by joining |
| JsonComments.FirstExactly | tools/repair_itemdata_json.py:167-207 | Which characters open a literal or a comment, and how far the token reaches |
| JsonComments.LineRestExactly | tools/repair_itemdata_json.py:191-196 | A line comment ends before the first carriage return or newline, or with the text |
| JsonComments.BlockRestExactly | tools/repair_itemdata_json.py:197-203 | A block comment ends with its first closer, or with the text when it has none |
| JsonComments.LiteralRestExactly | tools/repair_itemdata_json.py:177-190 | A literal ends with its first double quote that is not escaped, or with the text |
| JsonComments.SameLiterals | tools/repair_itemdata_json.py:167-207 | The output's literals are the input's literals outside comments, in order |
| JsonComments.Idempotent | tools/repair_itemdata_json.py:167-207 | A second pass changes nothing |
| JsonComments.UnchangedExactly | tools/repair_itemdata_json.py:167-207 | Text is returned unchanged if and only if no comment opens outside a literal |
| JsonComments.Reads | tools/repair_itemdata_json.py:167-207 | The tokenizer loses nothing: its tokens spell the text |
| JsonCommas.RemoveTrailingCommas | tools/repair_itemdata_json.py:59-93 | The loop deletes exactly the commas outside strings whose next non-space character closes a bracket or brace |
| JsonCommas.TrimmedExactly | tools/repair_itemdata_json.py:59-93 | The pass by the text alone: a literal, as the comment pass reads it, is copied to its end, and outside literals a character goes exactly when it is a trailing comma |
| JsonCommas.DoomedExactly | tools/repair_itemdata_json.py:83-90 | A comma goes exactly when, past blanks, tabs, carriage returns and newlines, a closing bracket or brace follows |
| JsonCommas.SameLiterals | tools/repair_itemdata_json.py:59-93 | The sequence of string literals is unchanged |
| JsonCommas.IdempotentExactly | tools/repair_itemdata_json.py:59-93 | A second pass changes nothing if and only if no comma outside strings is followed, past spaces, by a deleted comma |
| JsonCommas.SecondPassExample | tools/repair_itemdata_json.py:59-93 | Two commas before a closing bracket need two passes |
| JsonKeys.PassConsumesQuotes | tools/repair_itemdata_json.py:96-108 | Every match of a pass consumes exactly two single quotes, which makes the unbounded loop terminate |
| JsonKeys.NoMatchesExactly | tools/repair_itemdata_json.py:96-108 | A pass replaces nothing if and only if no quoted key is left anywhere, and then it changes nothing |
| JsonKeys.MatchExactly | tools/repair_itemdata_json.py:96-108 | A match is found exactly when the text begins with one as the pattern says, and it is that one |
| JsonKeys.ReplacementReads | tools/repair_itemdata_json.py:96-108 | The replacement is the matched prefix, a double-quoted key that reads back as the quoted one, and a colon |
| JsonKeys.KeyRoundTrip | tools/repair_itemdata_json.py:96-108 | The rewritten key reads back as the key that was quoted |
| JsonKeys.ReplaceSingleQuotedKeys | tools/repair_itemdata_json.py:96-108 | The loop ends with no quoted key left, reports a change exactly when there was one, and removes single quotes in pairs |
| Ed25519.ScalarMult | agent-services/providers/nixos_a3_local_launcher.py:214-222 | Double-and-add equals repeated addition for every scalar, in any commutative group |
| Ed25519.TimesDouble | agent-services/providers/nixos_a3_local_launcher.py:214-222 | Doubling the point halves the scalar |
| Ed25519.Clamping | agent-services/providers/nixos_a3_local_launcher.py:230-233 | For every 64-byte hash the bit sum is the clamped number, a multiple of 8 in [2^254, 2^255) |
| Ed25519.BitSumIsRemainder | agent-services/providers/nixos_a3_local_launcher.py:230-233 | The bits of a byte string summed at their weights are the little-endian number modulo a power of two |
| Ed25519.BytesRoundTrip | agent-services/providers/nixos_a3_local_launcher.py:225-227 | Little-endian bytes read back as the number they encode |
| Ed25519.EncodeDetermines | agent-services/providers/nixos_a3_local_launcher.py:225-227 | Every encoded point determines y and the parity of x |
| Ed25519.TimesModOrder | agent-services/providers/nixos_a3_local_launcher.py:243-249 | Scalars act modulo the order of the base point |
| Ed25519.OrderIs | agent-services/providers/nixos_a3_local_launcher.py:188-188 | The order constant is 2^252 + 27742317777372353535851937790883648493 |
| Ed25519.VerificationEquation | agent-services/providers/nixos_a3_local_launcher.py:243-249 | S times the base equals R plus k times A, for every nonce, challenge and secret |
| Ed25519.PublicKey | agent-services/providers/nixos_a3_local_launcher.py:236-240 | The key encodes the clamped secret times the base, and any seed that is not 32 bytes is refused |
| Ed25519.Sign | agent-services/providers/nixos_a3_local_launcher.py:243-249 | Every signature is 64 bytes, its second half is below the order, and it satisfies the verification equation against the public key |
| HostBootstrap.Host.History | src/tgw/actor_host_bootstrap.py:226-386 | An install cut off anywhere, then any number of rollbacks cut off anywhere: targets stay traceable to prior or installed content, and once a rollback returns, every file and every declared directory is exactly what it was before; with no symlink priors no rollback refuses |
| HostBootstrap.Host.Install | src/tgw/actor_host_bootstrap.py:226-290 | Each step keeps every target prior or installed under the receipt on disk; of the undeclared directories none that was there changes, and only ancestors of targets appear; a fresh install that returns has written every target with its source, mode 0644 and owner root, has asked the service to reload and to be enabled, in that order, and has found it enabled; when nothing fails it returns exactly then; an existing receipt means nothing is written, and success then means an enabled service |
| HostBootstrap.Host.Complete | src/tgw/actor_host_bootstrap.py:279-290 | Everything after the prepared receipt: the receipt becomes INSTALLED exactly when every target is written and the service is enabled |
| HostBootstrap.Host.Rollback | src/tgw/actor_host_bootstrap.py:293-386 | Whatever the targets hold, it refuses, changing nothing, if and only if some target is neither as captured nor as installed, which without another writer means that a symlink prior was cut between unlink and link; a return restores files, declared directories, enablement and activity and has asked of the service exactly the recorded commands in order; when no call fails it fails only over a declared directory it cannot restore or a service that does not take its recorded state; undeclared directories stay as they are; a repeated one changes nothing |
| HostBootstrap.Host.RestoreFile | src/tgw/actor_host_bootstrap.py:342-355 | Restoring one target leaves the others alone, and an interruption leaves it known, except inside the symlink gap |
| HostBootstrap.Host.RestoreDirs | src/tgw/actor_host_bootstrap.py:210-223 | Declared directories end as captured or the restoration fails, and no other directory changes |
| HostBootstrap.Host.Capture | src/tgw/actor_host_bootstrap.py:96-126 | The capture records exactly what the targets and directories are, and fails exactly when one is of another type |
| HostBootstrap.KnownExactly | src/tgw/actor_host_bootstrap.py:321-335 | A rollback accepts a target exactly when capturing it again gives the prior or the installed content, up to mode and owner |
| HostBootstrap.CaptureDetermines | src/tgw/actor_host_bootstrap.py:96-126 | Two nodes or directories that are captured alike are equal |
| HostBootstrap.SymlinkGap | src/tgw/actor_host_bootstrap.py:347-350 | From a symlink prior through install and unlink: cut off there, the target is neither prior nor installed |
| CategorySafety.SignalNeverLost | scripts/data_scrub_legacy_ebay_fields.py:252-267 | Over every sequence of scans, stale or repeated plan applications and promotions, an item that has a canonical or legacy category id keeps one |
| CategorySafety.StepKeeps | scripts/data_scrub_legacy_ebay_fields.py:121-163 | Every single event keeps every pending plan safe for the item it was made for |
| CategorySafety.StripKeeps | scripts/data_scrub_legacy_ebay_fields.py:252-267 | Applying a plan that may drop the legacy id only from an item with a canonical one loses no signal |
| CategorySafety.ScanItem | scripts/data_scrub_legacy_ebay_fields.py:121-163 | Every checked field present lands in exactly one of safe, exception, no-history or held, by the source's rules and in order |
| CategorySafety.ClassExactly | scripts/data_scrub_legacy_ebay_fields.py:136-163 | Held is a category field of an item without a canonical one; of the others, safe and exceptional are those whose history renders alike or not, and the rest have no history |
| CategorySafety.ChosenExactly | scripts/data_scrub_legacy_ebay_fields.py:121-163 | A class's list holds exactly the checked fields of that class that are present |
| CategorySafety.CanonicalExactly | scripts/recompile_category_backfill.py:69-84 | An item is canonical exactly when its own or its draft's category id is none of the six values that count as absent |
| CategorySafety.ChosenSafe | scripts/data_scrub_legacy_ebay_fields.py:136-147 | The legacy id is planned for removal only when a canonical id exists |
| CategorySafety.Recompile | scripts/recompile_category_backfill.py:185-259 | Exactly the items with a recovery are recovered, from the first source in priority order under the lower-case SKU, and the counts add up |
| CategorySafety.RecoveredExactly | scripts/recompile_category_backfill.py:87-226 | An item that is not canonical gets the id and name its legacy fields render to, or what the catalogs have, and writing it leaves exactly that id in the item |
| CategorySafety.LookupOrder | scripts/recompile_category_backfill.py:212-226 | A later catalog is used only when every earlier one has nothing |
| CategorySafety.FillExactly | src/tgw/items.py:320-346 | A promotion writes the id and the name, each where nothing counts as present, drops the verification mark if it wrote, and changes nothing else |
| CategorySafety.StripExactly | src/tgw/items.py:278-303 | A strip removes the named fields that are there, and the verification mark if there was one to remove |
| CategorySafety.FillKeeps | scripts/recompile_category_backfill.py:200-227 | A promotion makes the item canonical and overwrites no value that counts as present |
| HistoryScrub.Idempotent | tools/itemdata_scrub.py:111-192 | Merging then scrubbing twice is the same as once |
| HistoryScrub.VariantSurvives | tools/itemdata_scrub.py:111-156 | Every non-blank variant value ends in its group's history list, which has no duplicates |
| HistoryScrub.EarlierSurvives | tools/itemdata_scrub.py:89-156 | Every earlier entry of a list-valued history survives |
| HistoryScrub.ScalarHistoryExactly | tools/itemdata_scrub.py:138-145 | A history value that is no list survives its group's merge if and only if no variant of the group has anything to say |
| HistoryScrub.ScalarHistoryInPass | tools/itemdata_scrub.py:111-152 | The same for a whole pass over separate groups, whatever the other groups do |
| HistoryScrub.HistoriesStay | tools/itemdata_scrub.py:163-192 | The scrub never drops or changes a history list |
| HistoryScrub.BuildHistories | tools/itemdata_scrub.py:111-156 | The pass over the three groups, against its specification; unreported changes do not happen |
| HistoryScrub.CollectUnique | tools/itemdata_scrub.py:89-108 | The merge keeps first occurrences of the existing entries, then of the non-blank candidates |
| HistoryScrub.UniqueKeeps | tools/itemdata_scrub.py:89-108 | Removing duplicates keeps every value and repeats none |
| HistoryScrub.ScrubKeys | tools/itemdata_scrub.py:180-192 | Removed and kept keys split the document by the removal rule |
| HistoryScrub.KeptExactly | tools/itemdata_scrub.py:163-192 | A key is kept exactly when it is a history, preserved, or neither listed nor matched by a pattern |
| HistoryScrub.FirstOccurrences | tools/itemdata_scrub.py:89-108 | What a merge keeps are the first occurrences, in their order |
| HistoryScrub.NothingElse | tools/itemdata_scrub.py:111-156 | A history list holds nothing but its earlier entries and the values of its group's variants |
| Requeue.EnqueuedOnce | scripts/requeue_ebay_draft_402_dead_letters.py:158-205 | Over every sequence of completed runs sharing a marker, no job is enqueued twice and no SKU more often than a positive cap |
| Requeue.RunKeeps | scripts/requeue_ebay_draft_402_dead_letters.py:165-200 | Every run keeps marker and queue consistent, whatever the queue accepts |
| Requeue.RunGrows | scripts/requeue_ebay_draft_402_dead_letters.py:161-200 | Every row lands in exactly one of the four tallies and no enqueued job is forgotten |
| Requeue.EnqueuedExactly | scripts/requeue_ebay_draft_402_dead_letters.py:165-200 | A row is enqueued exactly when its job is unknown, its SKU is below the cap, a cap of zero or less being none, and the queue accepts it; marker, queue and each tally change exactly then |
| Requeue.UnsavedRunRepeats | scripts/requeue_ebay_draft_402_dead_letters.py:158-202 | A run that dies before saving its marker is repeated in full: the next run over the same rows, if the queue answers alike, enqueues exactly the same jobs once more |
| Requeue.Script.Run | scripts/requeue_ebay_draft_402_dead_letters.py:158-205 | The loop computes that run and saves its marker |

## Left out

- Parent-directory identity, inode and protection checks, `O_NOFOLLOW` opens and the journal's schema checks of the binding transaction: every name is compared by link target and metadata, by content and metadata, and by what a recorded link leads to.
- ActorBinding.Store.Materialize: a resumed attempt is given the same bundle, sources and flags as the first, and what links lead to does not change while the transaction runs.
- Power loss inside the binding transaction and the bootstrap: a crash there stops the process and keeps every completed system call; only the token model has separate volatile and durable layers.
- A torn stage write and the stale `.next` refusal of the atomic writers: each file write is one step.
- Writers other than the rollback itself during a rollback, and the lock files that serialize runs.
- Planning of effects and retirements from bundles, signatures and contracts; rollback of a materialization without a transaction journal.
- ActorBinding.Store.Rollback: does not model the unlink of a destination racing with another writer, because the source takes no precaution there.
- Fleet.Store.Materialize: does not model contract checks or directory creation, requires that no adapter's destination has a name of the stage or backup form, and takes what a link resolves to as fixed during the run.
- Fleet.Store.Rollback: does not say what a refused rollback left, because the source stops in the middle of the journal there.
- CodexSplice.Project: does not model TOML parsing; whether an entry exists and whether the merged text agrees are parameters.
- DeepSeekSplice.SpliceTwice: does not model YAML parsing; where the row's mapping starts is a parameter, and the second projection assumes the parser finds the row where the first put it.
- Line separators other than the newline in the text splices; the Claude registration, which is parsed and rendered whole.
- ObservationController.Session.Execute: does not model descriptors lost while a composition is constructed; the checks before the token (request, composition, grant, readiness) are one arbitrary verdict.
- ObservationResult.ContextDetermined: hashes and the canonical rendering are arbitrary functions, timestamps and diagnostics' text are not constrained beyond their length.
- ObservationController.Session.AfterLaunch: does not model sealing, SSH streaming or decoding of the reply; the frame codec of the helper response is a length prefix and would add easy members.
- Ed25519.Sign: takes the curve's group laws, the order of the base point and the byte length of hashes as hypotheses on an arbitrary suite; the field algebra, SHA-512 and point recovery are not modelled, nor is the verification library.
- File discovery, strict loading, byte-order marks and backups of the JSON repair tool; the order in which the passes are tried.
- HostBootstrap.Host.Install: does not model the creation of the receipt root (src/tgw/actor_host_bootstrap.py:238), which is no target and no declared directory.
- HostBootstrap.Host.Rollback: systemctl calls have arbitrary effects on enablement and activity, and the emptiness of a directory to be removed is arbitrary; the release checks before an install are not modelled.
- CategorySafety.ScanItem: requires a draft listing that is absent, falsy or a mapping, because the source raises on any other.
- CategorySafety.Recompile: the loading of the source catalogs is a parameter, items whose file is missing or unreadable are not in the map of documents, and labels, reports and per-source tallies are left out.
- HistoryScrub.Idempotent: rendering a value as stripped text and the key patterns are arbitrary functions; the order of keys in a document is not modelled.
- Requeue.Script.Run: the queue's answer per row is arbitrary; the query, the dry run and the payload fields that are added do not matter to the guard.
- Flat schema checks, C launchers, the preview web application, and the eBay, Postgres, Gemini, HTTP and image scripts: long, but each clause is settled by reading one branch or lies behind a service.
