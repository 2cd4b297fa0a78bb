# A verified model of OpenCppCoverage's core

This project models, in Dafny 4.11, the parts of OpenCppCoverage whose
correctness is hardest to see, and proves what they promise.

## The breakpoint and single-step protocol

The tool measures line and branch coverage with one-shot traps. `BreakPoint.dfy`
plants traps in batches; `BranchSiteEnumerator.dfy` finds the conditional
branches of the selected lines; `MonitoredLineRegister.dfy` merges both into one
batch per source file and undoes redundant plants; `ExecutedAddressManager.dfy`
keeps saved instructions, branch sites and the flags that outlive modules and
processes; `StepTracking.dfy` keeps pending steps and first breakpoints; and
`CodeCoverageRunner.dfy` reacts to breakpoint and single-step events. These are
classes whose methods are proved equal to functions on their abstract state.

`NativeMachine.dfy` is the specification: processes, threads and modules that
run without a debugger. `Protocol.dfy` is the concurrent system: any number of
processes and threads, traps and steps queued until the debugger handles them in
any order, module loads and unloads, thread and process exits. Its handlers are
the functions that the runner's methods implement. On it are proved

* `ProtocolSafety.dfy`: the memory invariant and execution transparency;
* `ProtocolLines.dfy` and `ProtocolOutcomes.dfy`: exact line coverage and sound
  branch outcomes over whole runs;
* `ProtocolBounds.dfy` and `ProtocolCounting.dfy`: bounded replanting;
* `ProtocolNoLost.dfy` and `ProtocolExitExample.dfy`: no lost site, with the
  exact condition under which an event, and a whole run, keeps every site
  watched, and a run in which the exit of one process loses a site of another;
* `ProtocolSnapshot.dfy`: the report of a run (`Snapshot.dfy`) never throws and
  says only what happened;
* `ProtocolAnswers.dfy`: what the debuggee hears of each exception, composed with
  the event loop of `Debugger.dfy`: of the tool's own events nothing.

The trap is `0xCC` on x86 and the four bytes of `BRK #0xF000` on ARM64; the
protocol is proved for a trap of any positive width. The 32-bit observation
counter and the 64-bit addresses wrap around as in the program.

## Independent cores

* `LineCoverage.dfy` and `CoverageDataMerger.dfy`: merging coverage is a join,
  and aggregating files with the same path in place.
* `UnifiedDiffParser.dfy` and `DiffPrinter.dfy`: the diff parser against a
  renderer of edit scripts in the format of "Diff -u or -U Output Format" of the
  diff utility in POSIX.1-2017 and of git.
* `Wildcards.dfy`: globs compiled to regular expressions, with the meaning of
  section 15.10.2 of ECMA-262, 3rd edition.
* `Debugger.dfy`: the event loop and its tables.
* `PathMatcher.dfy` and `CoverageFilters.dfy`: the postfix path matcher and the
  caches, against uncached answers.
* `UniquePath.dfy`: names that were never handed out before.

`Common.dfy`, `Memory.dfy`, `Debuggee.dfy` and `Decimals.dfy` hold what they
share. `dafny verify dfyconfig.toml` checks the whole project.

## What the results assume

* The loader's breakpoint is the first breakpoint event of each process, and all
  breakpoints of a process report the same one of the two exception codes.
* Line starts and branch sites of a module are instruction boundaries of its
  loaded image, of instructions no shorter than the trap, and do not hold the
  trap originally (`ModuleLoad.OnBoundaries`, part of `Protocol.LoadStep`).
  `CoverageRunners.RestoredUnlessTrap` says what happens otherwise: the thread
  comes back to a trap. Everything else that a load needs of its batches is
  proved of the batches that registration builds
  (`ModuleLoad.BatchesFit`, `ProtocolSafety.RegistrationIsALoad`).
* A registration that throws in the middle of a module ends the tool, so such a
  load has no transition. A successful registration that starts without pending
  sites leaves none.
* The only single steps are the tool's own: a debuggee raises no
  STATUS_SINGLE_STEP itself. The runner would take it for its step if one is
  pending, and `ProtocolOutcomes.OutcomesSound` depends on this.
* Instruction boundaries do not overlap. Two distinct addresses of a batch are
  therefore at least one trap apart (`ModuleLoad.BatchesApart`), which
  `BreakPoints` demands of its callers.
* A branch site has a nonzero taken target, and its instruction lands on one of
  the two targets (`ProtocolNoLost.Faithful`). The other results do not need
  this. Sites found while some addresses of the module already hold traps are
  assumed to be true boundaries as well.
* A module is unloaded only when no thread stands in it and no finished step over
  one of its branches is still queued: the system delivers events in order.
* No thread exits while its trap or step is queued. For the no-lost-site result,
  runs are orderly: no thread exits with a pending step, and no process exits
  while a thread of another one has a pending step.
* Memory reads and writes transfer everything or fail.
* Code is not modified by the debuggee, and an original breakpoint instruction
  only moves the program counter.

## Model

| member | source | states |
|---|---|---|
| ProtocolSafety.Transparency | CppCoverage/CodeCoverageRunner.cpp:186-307 | erasing stops at planted traps and the debugger's handling from any interleaving leaves a run of the native machine, with the same instructions in the same order, ending with every thread where it stands natively |
| ProtocolSafety.MemoryOriginalOrPlanted | CppCoverage/MonitoredLineRegister.cpp:226-270 | in every reachable state each byte of a process is original or belongs to a trap planted at a registered address whose saved instruction is the original one and not the trap |
| ProtocolSafety.ReachableInv | CppCoverage/CodeCoverageRunner.cpp:102-307 | the invariant of memory, bookkeeping and threads holds at the end of every run |
| ProtocolSafety.StepCorrect | CppCoverage/CodeCoverageRunner.cpp:102-307 | every transition (run, trap, step, load, unload, creation, exit) keeps the invariant and is either the native step of its event or invisible to the native machine |
| Protocol.HandleTrapCorrect | CppCoverage/CodeCoverageRunner.cpp:186-230 | handling a queued trap keeps the invariant and moves no thread natively |
| Protocol.HandleStepCorrect | CppCoverage/CodeCoverageRunner.cpp:233-307 | handling a finished step keeps the invariant and moves no thread natively |
| Protocol.HandlersNeverThrow | CppCoverage/CodeCoverageRunner.cpp:186-307 | in every state with the invariant, whatever a handler has to write is mapped |
| ProtocolOutcomes.OutcomesSound | CppCoverage/CodeCoverageRunner.cpp:272-300 | taken (not taken) is recorded only if some thread executed a branch registered for the condition and landed on its taken target (its fall-through) |
| ProtocolOutcomes.CreditIsLocal | CppCoverage/ExecutedAddressManager.cpp:230-253 | crediting a site changes the record of its condition in exactly one outcome flag and no other record or line flag |
| ProtocolLines.LinesExact | CppCoverage/ExecutedAddressManager.cpp:158-175 | at the end of any run a line is marked executed only if some thread natively stood at an address registered for it, and whenever a thread executed an instruction at such an address |
| ProtocolLines.HitIsReal | CppCoverage/CodeCoverageRunner.cpp:186-196 | when a trap of ours is handled the thread natively stands at its address |
| ProtocolLines.ExecutedLinesAreReported | CppCoverage/CodeCoverageRunner.cpp:194-226 | an instruction at a registered address only executes after all lines of the address are marked |
| ProtocolDeltas.RecordsSurvive | CppCoverage/ExecutedAddressManager.cpp:333-390 | no event clears a line flag or an outcome: not an unload, a reload, a process exit or a re-registration |
| ProtocolDeltas.OwnTrapDelta | CppCoverage/CodeCoverageRunner.cpp:213-226 | handling a trap of ours removes that trap, leaves every other trap alone and puts the thread back on the address |
| ProtocolDeltas.StepDelta | CppCoverage/CodeCoverageRunner.cpp:280-299 | handling a finished step credits at most its own site, and plants that site again or changes no memory |
| ProtocolDeltas.LoadDelta | CppCoverage/MonitoredLineRegister.cpp:107-270 | a load leaves every old address with its entry, site and trap, and every new address planted |
| ProtocolDeltas.UnloadDelta | CppCoverage/ExecutedAddressManager.cpp:377-390 | an unload keeps every remaining address as it was |
| ProtocolDeltas.ExitDelta | CppCoverage/ExecutedAddressManager.cpp:363-374 | a process exit keeps every address of the other processes as it was |
| ProtocolNoLost.NoSiteIsLost | CppCoverage/CodeCoverageRunner.cpp:213-299 | in an orderly run every live site with an unseen outcome and fewer than 100 observations is planted, has a trap queued or is being stepped over |
| ProtocolNoLost.NoLostIffGentle | CppCoverage/CodeCoverageRunner.cpp:111-116 | over any run: no site is lost after any event if and only if every event is gentle |
| ProtocolNoLost.NoLostStep | CppCoverage/CodeCoverageRunner.cpp:111-116 | an event keeps every such site watched if and only if it is gentle: no site of another process depends on a pending step when a process exits, and none on a thread that exits |
| ProtocolNoLost.ExitProcessWatch | CppCoverage/BranchStepTracker.cpp:52-58 | after a process exit a site of another process is watched exactly when it is planted or has a trap queued, whatever was pending |
| ProtocolNoLost.ExitThreadWatch | CppCoverage/BranchStepTracker.cpp:46-49 | after a thread exit a site is watched exactly when it is planted or another thread watches it |
| ProtocolExitExample.ExitLosesSite | CppCoverage/BranchStepTracker.cpp:52-58 | a concrete run from the initial state whose last event, the exit of one process, loses a branch site of another that was never observed |
| ProtocolBounds.BoundStep | CppCoverage/CodeCoverageRunner.cpp:186-307 | every transition keeps the books: each stop of a thread is paid by one plant that never stopped it before, each step by one stop |
| ProtocolCounting.ReplantsBounded | CppCoverage/ExecutedAddressManager.cpp:256-275 | a record causes at most 99 replants, and at most 100 more for each wrap-around of its 32-bit counter |
| ProtocolCounting.CountersExact | CppCoverage/ExecutedAddressManager.cpp:230-253 | the counter of a record is the number of its observations in the run, as a 32-bit number |
| ProtocolCounting.NoneOnceComplete | CppCoverage/ExecutedAddressManager.cpp:273-274 | once both outcomes of a condition are seen no later event of the run plants for it |
| ProtocolCounting.ToolEventsBounded | CppCoverage/CodeCoverageRunner.cpp:186-307 | there are at most as many single steps as stops, and at most one stop for each pair of a thread and a plant |
| ProtocolCounting.ToolEventsFinite | CppCoverage/CodeCoverageRunner.cpp:286-297 | when threads times (registered addresses plus 99 per condition record) stay below 2^32, no counter wraps around, each record causes at most 99 replants, and that product bounds all stops and steps |
| ProtocolCounting.NoCounterWraps | CppCoverage/ExecutedAddressManager.cpp:230-253 | under that condition no 32-bit observation counter wraps around |
| ProtocolCounting.LedgerCounts | CppCoverage/CodeCoverageRunner.cpp:186-307 | the ledger of plants, traps, steps and observations counts exactly the events of the run |
| ProtocolSnapshot.SnapshotNeverThrows | CppCoverage/ExecutedAddressManager.cpp:278-330 | in every reachable state every condition has its line and every line its module, so the snapshot cannot throw and leaves nothing out |
| ProtocolSnapshot.ReportIsTrue | CppCoverage/ExecutedAddressManager.cpp:278-330 | a reported line is executed only if a thread natively stood at it, and whenever one executed it; a reported outcome really happened |
| CoverageRunners.CodeCoverageRunner.OnBreakPoint | CppCoverage/CodeCoverageRunner.cpp:186-230 | not ours: nothing changes; ours: flags raised, instruction restored, thread rewound and, at a branch site, stepped |
| CoverageRunners.CodeCoverageRunner.OnSingleStep | CppCoverage/CodeCoverageRunner.cpp:233-307 | the whole new state: pending step cancelled, outcome credited by the landing address of the event (x86) or of the thread context (ARM64), site planted again exactly when it still wants an observation |
| Protocol.LandingsAgree | CppCoverage/CodeCoverageRunner.cpp:258-273 | in every state with the invariant the event and the context of a stepped thread tell the same landing address |
| CoverageRunners.CodeCoverageRunner.OnException | CppCoverage/CodeCoverageRunner.cpp:137-183 | dispatch by code and chance, with single steps before the exception handler |
| ProtocolAnswers.EveryException | CppCoverage/CodeCoverageRunner.cpp:136-184 | composed with the event loop: steps, and breakpoints of ours after the first of a process, are swallowed; a later breakpoint elsewhere ends the process with -2147483645 or is passed on; a C++ exception is survived on request; all else is passed on |
| ProtocolAnswers.OnlyAssertions | CppCoverage/Debugger.cpp:187-203 | only a breakpoint elsewhere, after the first of its process, counts as an assertion of the debuggee |
| ProtocolAnswers.ToolEventsAreSwallowed | CppCoverage/Debugger.cpp:167-223 | in every reachable state a queued event is hidden from the debuggee if and only if it comes from the tool, whatever the options |
| ProtocolAnswers.SeenIsAlive | CppCoverage/ExceptionHandler.cpp:111-121 | only live processes are remembered to have had their first breakpoint, so a reused handle has its own |
| CoverageRunners.CodeCoverageRunner.OnExitProcess | CppCoverage/CodeCoverageRunner.cpp:111-116 | entries of the process removed, all pending steps dropped, its first breakpoint forgotten |
| CoverageRunners.CodeCoverageRunner.OnUnloadDll | CppCoverage/CodeCoverageRunner.cpp:128-134 | entries of the module removed and nothing else |
| CoverageRunners.RestoredUnlessTrap | CppCoverage/CodeCoverageRunner.cpp:223-225 | after a handled trap the thread is back on its address, and the trap is gone if and only if the saved instruction is not the trap |
| CoverageRunners.SingleBatch | CppCoverage/CodeCoverageRunner.cpp:295-296 | planting one address is one write, and fails just when it is unmapped |
| StepTracking.BranchStepTracker.ArmStep | CppCoverage/BranchStepTracker.cpp:25-28 | the pending step of the thread is replaced |
| StepTracking.BranchStepTracker.GetPendingStep | CppCoverage/BranchStepTracker.cpp:31-37 | the pending step of the thread, if any |
| StepTracking.BranchStepTracker.CancelStep | CppCoverage/BranchStepTracker.cpp:40-43 | the pending step of the thread is dropped |
| StepTracking.BranchStepTracker.OnExitProcess | CppCoverage/BranchStepTracker.cpp:52-58 | every pending step is dropped, whatever its process |
| StepTracking.ExceptionHandler.HandleException | CppCoverage/ExceptionHandler.cpp:71-108 | the first breakpoint of each code and process is handed on, later ones are ours to look at |
| StepTracking.ExceptionHandler.OnExitProcess | CppCoverage/ExceptionHandler.cpp:111-121 | exactly the entries of the process are forgotten |
| StepTracking.DistinctErase | CppCoverage/ExceptionHandler.cpp:115-119 | erasing the one occurrence of a process removes it and only it |
| BreakPoints.Sort | CppCoverage/BreakPoint.cpp:76 | a sorted permutation |
| Memory.TrapWords | CppCoverage/BreakPoint.cpp:63-68 | the trap bytes are int3, and BRK #0xF000 in little-endian order |
| BreakPoints.ChunksPartition | CppCoverage/BreakPoint.cpp:76-88 | the chunks are nonempty, span at most 4096 bytes and concatenate to the sorted list |
| BreakPoints.ChunksMaximal | CppCoverage/BreakPoint.cpp:81-85 | the next chunk starts beyond the limit of the one before |
| BreakPoints.PlantMeaning | CppCoverage/BreakPoint.cpp:49-58 | the first save of an address is its original instruction, a later save of it is the trap |
| BreakPoints.PlantedReadsTrap | CppCoverage/BreakPoint.cpp:54-56 | every planted address holds the trap afterwards |
| BreakPoints.PlantUntouched | CppCoverage/BreakPoint.cpp:54-60 | planting changes no byte outside the given instructions |
| BreakPoints.PlantConcat | CppCoverage/BreakPoint.cpp:79-88 | planting two lists one after the other is planting their concatenation |
| BreakPoints.BatchedIsPointwise | CppCoverage/BreakPoint.cpp:71-91 | a completed batch leaves the memory and returns the pairs of planting the sorted addresses one at a time |
| BreakPoints.PatchBuffer | CppCoverage/BreakPoint.cpp:49-58 | patching the buffer in place yields the bytes and the saves of planting the range |
| BreakPoints.PlantIsOneWrite | CppCoverage/BreakPoint.cpp:59-60 | one write of the buffer over the range has the effect of all plants in it |
| BreakPoints.SetBreakPointsRange | CppCoverage/BreakPoint.cpp:34-61 | the range is planted, or nothing changes when it cannot be read |
| BreakPoints.SetBreakPoints | CppCoverage/BreakPoint.cpp:71-91 | all chunks are planted, or exactly those before the first unreadable one |
| BreakPoints.RemoveBreakPoint | CppCoverage/BreakPoint.cpp:94-101 | the saved instruction is written back, in one process only |
| BreakPoints.AdjustEipAfterBreakPointRemoval | CppCoverage/BreakPoint.cpp:104-136 | one trap back with wrap-around, and the single-step flag is added on request |
| MemoryInvariant.FetchOriginalOrTrap | CppCoverage/BreakPoint.cpp:54-56 | at an instruction boundary the processor fetches a planted trap or exactly the original instruction |
| MemoryInvariant.WriteKeeps | CppCoverage/BreakPoint.cpp:94-101 | restoring or planting at a registered address keeps the memory invariant and touches no other entry |
| MemoryInvariant.BatchApart | CppCoverage/BreakPoint.cpp:79-86 | a batch on instruction boundaries has its distinct addresses at least one trap apart |
| ModuleLoad.BatchesApart | CppCoverage/BreakPoint.cpp:79-86 | all batches of a module on instruction boundaries keep their addresses apart |
| ModuleLoad.BatchesFit | CppCoverage/MonitoredLineRegister.cpp:154-223 | the batches that registration builds, on boundaries of the module, have every site among their addresses and its line among their lines |
| ProtocolSafety.RegistrationIsALoad | CppCoverage/MonitoredLineRegister.cpp:107-126 | what the registration methods promise for such batches is a load of the protocol, with their condition on distances discharged |
| MemoryInvariant.BatchKeeps | CppCoverage/MonitoredLineRegister.cpp:226-257 | planting and registering a batch keeps the memory invariant, duplicates included |
| MemoryInvariant.SitesKeep | CppCoverage/MonitoredLineRegister.cpp:259-269 | attaching sites to registered addresses keeps the memory invariant |
| MemoryInvariant.UnloadedProcess | CppCoverage/ExecutedAddressManager.cpp:377-390 | dropping a module's entries with its code keeps the memory invariant |
| ModuleLoad.FilesEffect | CppCoverage/MonitoredLineRegister.cpp:107-126 | registering all files of a module touches nothing outside it, plants every new address and keeps every record |
| AddressManagers.ExecutedAddressManager.AddModule | CppCoverage/ExecutedAddressManager.cpp:106-116 | the module is known and is the last one |
| AddressManagers.ExecutedAddressManager.RegisterAddress | CppCoverage/ExecutedAddressManager.cpp:119-146 | whether the address is new; an old one keeps its instruction and base; the line flag is created unset or kept |
| AddressManagers.ExecutedAddressManager.MarkAddressAsExecuted | CppCoverage/ExecutedAddressManager.cpp:158-175 | exactly the flags of the address are raised, and the saved instruction is returned |
| AddressManagers.ExecutedAddressManager.RegisterConditionSite | CppCoverage/ExecutedAddressManager.cpp:178-215 | the site is created or refreshed; its record is created fresh or kept with its outcomes |
| AddressManagers.ExecutedAddressManager.GetConditionSite | CppCoverage/ExecutedAddressManager.cpp:218-227 | the targets of the site, or zeros |
| AddressManagers.ExecutedAddressManager.MarkConditionOutcome | CppCoverage/ExecutedAddressManager.cpp:230-253 | one outcome flag is set and the 32-bit counter advanced, for the record of the site only |
| AddressManagers.ExecutedAddressManager.ShouldReplantConditionSite | CppCoverage/ExecutedAddressManager.cpp:256-275 | an outcome is missing and the counter is below 100 |
| AddressManagers.ExecutedAddressManager.RemoveEntries | CppCoverage/ExecutedAddressManager.cpp:333-390 | exactly the entries of the process, or of one module of it, are removed; records stay |
| LineRegisters.CollectLines | CppCoverage/MonitoredLineRegister.cpp:161-180 | one entry per selected line start, and the selected lines in order |
| LineRegisters.MergeSites | CppCoverage/MonitoredLineRegister.cpp:197-216 | a site gets an entry of its own exactly when no line starts at it |
| LineRegisters.BatchRegistration | CppCoverage/MonitoredLineRegister.cpp:226-257 | after planting and registering a batch each place has its original instruction saved, holds the trap if it was new or a repeated entry, and nothing else changes |
| LineRegisters.RegisterSavedAt | CppCoverage/MonitoredLineRegister.cpp:234-256 | how one place stands after any number of its batch entries: original, undone or planted again |
| LineRegisters.SitesInBatch | CppCoverage/MonitoredLineRegister.cpp:197-216 | every site of a batch has an entry, and its line is one of the lines of the batch |
| LineRegisters.SitesAreListed | CppCoverage/MonitoredLineRegister.cpp:197-216 | every site of a batch is planted and its line has a flag |
| LineRegisters.MonitoredLineRegister.SetBreakPoint | CppCoverage/MonitoredLineRegister.cpp:226-270 | the batch is planted and registered, and every pending site stands at its address with its own targets, module and condition record; nothing is registered when planting fails |
| LineRegisters.SitesAttach | CppCoverage/MonitoredLineRegister.cpp:259-268 | every site of a batch gets its own targets, the base of the module and the record of its line and index, and no other site changes |
| LineRegisters.SitesRecord | CppCoverage/ExecutedAddressManager.cpp:178-205 | exactly the records of the sites are added, with nothing seen; old records keep what they saw |
| LineRegisters.DistinctRecords | CppCoverage/BranchSiteEnumerator.cpp:168-184 | distinct sites of an enumeration have distinct condition records |
| ModuleLoad.SitesOfModule | CppCoverage/MonitoredLineRegister.cpp:107-270 | after the registration of a module every site of every file has its own targets and record, unless a later file claims its address |
| LineRegisters.SiteInItsLine | CppCoverage/MonitoredLineRegister.cpp:161-195 | when no block wraps around, every site lies in the block of a selected line, starting at its address, with the line number that the site is registered for |
| LineRegisters.RecordsAreLines | CppCoverage/MonitoredLineRegister.cpp:161-195 | the records that bound the blocks carry the symbols and lengths of the selected lines, and no selected line is without a record |
| LineRegisters.MonitoredLineRegister.OnSourceFile | CppCoverage/MonitoredLineRegister.cpp:138-223 | the batch is made of the selected lines and of the sites the enumerator finds for them, and is registered |
| LineRegisters.MonitoredLineRegister.RegisterLineToMonitor | CppCoverage/MonitoredLineRegister.cpp:107-126 | managed modules are skipped; one batch for each selected file, registered in order |
| SiteEnumerators.SortRecords | CppCoverage/BranchSiteEnumerator.cpp:69-71 | a permutation sorted by RVA |
| SiteEnumerators.Deduplicate | CppCoverage/BranchSiteEnumerator.cpp:75-85 | one record per RVA, in order, with the lowest line number |
| SiteEnumerators.SkippedIffWraps | CppCoverage/BranchSiteEnumerator.cpp:101-117 | a range is skipped if and only if its block wraps around the address space; otherwise it ends where the block does: after the length, at the next record of the symbol but at most 4096 bytes on, or 32 bytes on |
| SiteEnumerators.BlocksApart | CppCoverage/BranchSiteEnumerator.cpp:101-113 | a block without a length ends before every later record of its symbol |
| SiteEnumerators.RangesAligned | CppCoverage/BranchSiteEnumerator.cpp:94-119 | range i belongs to record i for every i if and only if no range wraps |
| SiteEnumerators.WrapMisattributes | CppCoverage/BranchSiteEnumerator.cpp:116-118 | a concrete pair of records where a wrapping range shifts the attribution |
| SiteEnumerators.ComputeRanges | CppCoverage/BranchSiteEnumerator.cpp:94-119 | the ranges are the blocks of the records, one for each, if and only if none wraps around |
| SiteEnumerators.DecodeRange | CppCoverage/BranchSiteEnumerator.cpp:136-166 | the whole range is decoded, else its first 32 bytes, else nothing |
| SiteEnumerators.AttributeNumbered | CppCoverage/BranchSiteEnumerator.cpp:168-184 | output addresses are unique, and each line's indices count up from zero in output order |
| SiteEnumerators.LineIndices | CppCoverage/BranchSiteEnumerator.cpp:173-181 | the indices of a line are exactly 0 to k-1 |
| SiteEnumerators.AttributeFirstWins | CppCoverage/BranchSiteEnumerator.cpp:170-171 | each address goes to the first range that decodes it |
| SiteEnumerators.FirstRecordWins | CppCoverage/BranchSiteEnumerator.cpp:62-186 | when no block wraps around, exactly the addresses that the detector finds in some block are sites (in its first 32 bytes when the block is unreadable), each with the line of the first record in RVA order in whose block it is found |
| SiteEnumerators.SiteLiesInBlock | CppCoverage/BranchSiteEnumerator.cpp:136-184 | a site lies in the block of the record that gives it its line, and that block starts at the address given for the line |
| SiteEnumerators.DistinctIndices | CppCoverage/BranchSiteEnumerator.cpp:173-181 | no two sites of a line have the same index |
| SiteEnumerators.RecordsFit | CppCoverage/BranchSiteEnumerator.cpp:62-110 | the records of an enumeration are strictly ordered by RVA and within their widths |
| SiteEnumerators.EnumeratedLines | CppCoverage/BranchSiteEnumerator.cpp:168-184 | every site belongs to one of the given lines |
| SiteEnumerators.Enumerate | CppCoverage/BranchSiteEnumerator.cpp:38-187 | nothing for lists of different lengths; else the sites attributed over the deduplicated records |
| LineCoverages.MergeConditions | Plugin/Exporter/LineCoverage.cpp:66-83 | the loop computes the merge of the two lists |
| LineCoverages.MergeAllMeaning | Plugin/Exporter/LineCoverage.cpp:66-83 | the merge is the OR by condition index and keeps indices unique |
| LineCoverages.MergeIntoEmpty | Plugin/Exporter/LineCoverage.cpp:66-83 | merging a list with unique indices into an empty one copies it |
| LineCoverages.FileCoverage.AddLine | Plugin/Exporter/FileCoverage.cpp:42-50 | the line is added, or nothing changes when its number is taken |
| LineCoverages.FileCoverage.UpdateLine | Plugin/Exporter/FileCoverage.cpp:53-72 | the flag is replaced and the conditions are kept |
| LineCoverages.FileCoverage.MergeLineConditions | Plugin/Exporter/FileCoverage.cpp:75-108 | the conditions are merged into the line, or nothing changes without one |
| LineCoverages.GetLines | Plugin/Exporter/FileCoverage.cpp:128-136 | each line once, in increasing order |
| Snapshots.FileSnapshot | CppCoverage/ExecutedAddressManager.cpp:298-325 | throws exactly when a condition has no line; else every line has its flag and exactly its conditions in increasing index order |
| Snapshots.ListsUnique | CppCoverage/ExecutedAddressManager.cpp:313-323 | such a list has no duplicate index, and there is only one |
| Snapshots.ModuleSnapshot | CppCoverage/ExecutedAddressManager.cpp:288-326 | each file of the module once, exactly |
| Snapshots.CreateCoverageData | CppCoverage/ExecutedAddressManager.cpp:278-330 | each module once, exactly; throws exactly when some condition has no line |
| Snapshots.NeverOrphaned | CppCoverage/ExecutedAddressManager.cpp:313-325 | when every condition has a line no module makes the snapshot throw |
| CoverageMergers.AddFileCoverageTo | CppCoverage/CoverageDataMerger.cpp:73-99 | never throws; the destination becomes the join of both files |
| CoverageMergers.JoinSays | CppCoverage/CoverageDataMerger.cpp:79-97 | the join says a line, flag, condition or outcome if and only if one of the files does |
| CoverageMergers.FillFiles | CppCoverage/CoverageDataMerger.cpp:102-108 | the file becomes the join of the sources in order |
| CoverageMergers.GroupChildrenByKey | CppCoverage/CoverageDataMerger.cpp:52-70 | each key with its children in order |
| CoverageMergers.FillModule | CppCoverage/CoverageDataMerger.cpp:111-126 | one file per path, holding the join of the source files with that path |
| CoverageMergers.Merge | CppCoverage/CoverageDataMerger.cpp:147-165 | one module per path with its merged files, modules and files in the order of their paths, the last name and the last nonzero exit code |
| CoverageMergers.NameAndExitCode | CppCoverage/CoverageDataMerger.cpp:34-48 | the last name and the last nonzero exit code |
| CoverageMergers.MergeIsJoin | CppCoverage/CoverageDataMerger.cpp:147-165 | the merge denotes the union of modules, files, lines and conditions with the OR of all flags |
| CoverageMergers.RunsSayMeans | CppCoverage/CoverageDataMerger.cpp:51-70 | what grouped runs say is what some file of some run says |
| CoverageMergers.OrderDoesNotMatter | CppCoverage/CoverageDataMerger.cpp:147-165 | reordering or repeating the runs changes no module, file, line, condition or flag of the merge |
| CoverageMergers.MergeOfMerges | CppCoverage/CoverageDataMerger.cpp:34-165 | merging the merges of any number of groups is merging all their runs: same coverage and exit code, and the same name unless the last group is empty and the last run has a name |
| CoverageMergers.MergeFileCoverages | CppCoverage/CoverageDataMerger.cpp:129-143 | in place, all files of a group hold the join of the group |
| CoverageMergers.MergeFileCoverage | CppCoverage/CoverageDataMerger.cpp:168-184 | in place, every file holds the join of the original contents of all files with its path |
| CoverageMergers.SumSays | CppCoverage/CoverageDataMerger.cpp:129-143 | such a join says what some file of the group said |
| CoverageMergers.SumUnique | CppCoverage/CoverageDataMerger.cpp:129-143 | condition indices stay unique |
| CoverageMergers.AggregatedForGood | CppCoverage/CoverageDataMerger.cpp:168-184 | a second aggregation changes nothing |
| UnifiedDiffParsers.HeaderIsPattern | FileFilter/UnifiedDiffParser.cpp:201-225 | a hunk header is read, with its captures, if and only if it matches the regular expression |
| UnifiedDiffParsers.HunksExact | FileFilter/UnifiedDiffParser.cpp:208-221 | a matching header gives its target start and count, a missing count being one; a number beyond 2147483647 is an error |
| UnifiedDiffParsers.ErrorsAreLocated | FileFilter/UnifiedDiffParser.cpp:143-262 | on any text, an error names the line at which it is found: the bad hunk header, the line behind a source header that is no target header, or the end of the text |
| UnifiedDiffParsers.Stream.GetLine | FileFilter/UnifiedDiffParser.cpp:125-131 | the next line, counted even when there is none |
| UnifiedDiffParsers.ExtractTargetFile | FileFilter/UnifiedDiffParser.cpp:182-197 | the path up to the first tab, or the error and its line |
| UnifiedDiffParsers.ExtractUpdatedLines | FileFilter/UnifiedDiffParser.cpp:228-252 | the added lines and the lines consumed, or the error and its line |
| UnifiedDiffParsers.FillUpdatedLines | FileFilter/UnifiedDiffParser.cpp:170-179 | the added lines go to the last file |
| UnifiedDiffParsers.UpdateFilePathIfGitDetected | FileFilter/UnifiedDiffParser.cpp:61-80 | the prefix is removed exactly when git is detected |
| UnifiedDiffParsers.Parse | FileFilter/UnifiedDiffParser.cpp:143-167 | the parser answers as its specification on every text, errors included |
| DiffPrinters.ScanRendered | FileFilter/UnifiedDiffParser.cpp:233-252 | scanning a rendered hunk stops after its last target line with exactly the inserted lines |
| DiffPrinters.RoundTrip | FileFilter/UnifiedDiffParser.cpp:143-252 | a rendered edit script parses if and only if no hunk ends in a deleted line beginning with two dashes and a space; the files then carry exactly their inserted lines |
| DiffPrinters.NamesRoundTrip | FileFilter/UnifiedDiffParser.cpp:36-104 | a target loses its prefix if and only if the text has a git header and all its files are named as git names them, in a/ and b/ or missing |
| DiffPrinters.PlainRoundTrip | FileFilter/UnifiedDiffParser.cpp:90-104 | without git headers each surviving target keeps its name |
| DiffPrinters.GitRoundTrip | FileFilter/UnifiedDiffParser.cpp:38-80 | a git diff yields each file that is not deleted without the prefix |
| Decimals.DecimalRoundTrip | FileFilter/UnifiedDiffParser.cpp:212-215 | reading a written number gives it back |
| Decimals.BaseTen | Tools/UniquePath.cpp:33 | numerals are those of base ten |
| WildcardPatterns.Wildcards.constructor | CppCoverage/Wildcards.cpp:31-47 | the pattern is the glob escaped, trimmed and expanded, and searching for it succeeds exactly when the glob matches |
| WildcardPatterns.PassesAreSimultaneous | CppCoverage/Wildcards.cpp:37-41 | sequential passes are one simultaneous escape when the backslash, if escaped, goes first |
| WildcardPatterns.ThirteenPasses | CppCoverage/Wildcards.cpp:27-41 | the thirteen passes are one simultaneous escape |
| WildcardPatterns.EscapedIsSyntax | CppCoverage/Wildcards.cpp:27-28 | the escaped characters are exactly the syntax characters of ECMA-262, but for the star |
| WildcardPatterns.CompilesToTerms | CppCoverage/Wildcards.cpp:37-52 | every glob compiles to a well-formed pattern: literals, and any-sequence for each star of the trimmed glob, none of which is at an end |
| WildcardPatterns.GlobSearch | CppCoverage/Wildcards.cpp:31-59 | searching succeeds if and only if the pieces between stars occur in order without overlap and without a line terminator in between |
| Debuggers.Debugger.OnCreateProcess | CppCoverage/Debugger.cpp:226-244 | tables and root after a process creation, or the failure |
| Debuggers.Debugger.OnExitProcess | CppCoverage/Debugger.cpp:247-265 | process and thread leave the tables |
| Debuggers.Debugger.OnCreateThread | CppCoverage/Debugger.cpp:268-276 | the thread enters the table, or the failure |
| Debuggers.Debugger.OnExitThread | CppCoverage/Debugger.cpp:279-285 | the thread leaves the table, or the failure |
| Debuggers.Debugger.HandleDebugEvent | CppCoverage/Debugger.cpp:107-128 | tables and reported status after any event |
| Debuggers.Debugger.HandleNotCreationalEvent | CppCoverage/Debugger.cpp:131-165 | tables and reported status after an event of a known thread |
| Debuggers.Debugger.Debug | CppCoverage/Debugger.cpp:71-104 | the loop answers as its specification on every trace |
| Debuggers.HandledExactly | CppCoverage/Debugger.cpp:107-285 | on an allowed event nothing throws and the tables hold exactly the living |
| Debuggers.DebugIsExact | CppCoverage/Debugger.cpp:71-104 | on a well-formed trace the loop never throws and returns at the first moment when the root has reported and nobody is left, with the first exit code, assertion or survived C++ exception of the root, and both tables are empty |
| UniquePaths.UniquePath.GetUniquePath | Tools/UniquePath.cpp:26-38 | a new path: itself when free, else its first free numbering; terminates within one more try than there are stored paths |
| UniquePaths.FirstFreeIsNear | Tools/UniquePath.cpp:31-35 | the first free number is near: at most as many names are taken as are stored |
| UniquePaths.UniqueIsNew | Tools/UniquePath.cpp:31-37 | the answer is new and determined |
| UniquePaths.AllDistinct | Tools/UniquePath.cpp:26-38 | over any sequence of calls results are pairwise distinct, and a path not handed out before is returned unchanged |
| UniquePaths.NumberedInjective | Tools/UniquePath.cpp:33 | different numbers give different names |
| PathMatchers.PostFixPathMatcherEngine.constructor | FileFilter/PathMatcher.cpp:61-69 | the files grouped by file name, unmatched |
| PathMatchers.PostFixPathMatcherEngine.Match | FileFilter/PathMatcher.cpp:72-99 | the first fitting entry is bound and answered, or it is already bound to another path |
| PathMatchers.PostFixPathMatcherEngine.GetUnmatchedPaths | FileFilter/PathMatcher.cpp:102-117 | exactly the unbound entries, each once |
| PathMatchers.TableIsUnbound | FileFilter/PathMatcher.cpp:61-69 | every file of the diff has an entry, and none is bound |
| PathMatchers.SelectMeans | FileFilter/PathMatcher.cpp:72-99 | a path selects the first entry under its file name with whose normalized path it ends |
| PathMatchers.SelectIsStatic | FileFilter/PathMatcher.cpp:72-99 | bindings do not change which entry a path selects |
| PathMatchers.EachEntryHasOneOwner | FileFilter/PathMatcher.cpp:72-117 | in an error-free run each entry is bound to the one path that selects it, and the unbound entries are those no query selects |
| PathMatchers.ErrorFree | FileFilter/PathMatcher.cpp:86-91 | a run is error-free if and only if no two queries for one entry differ in their normalized paths |
| PathMatchers.MatchedTwice | FileFilter/UnifiedDiffCoverageFilter.cpp:86-110 | matching a path again answers the same and changes nothing |
| PathMatchers.UnifiedDiffCoverageFilter.SearchFile | FileFilter/UnifiedDiffCoverageFilter.cpp:86-110 | on nonempty paths the cache answers, and leaves the engine, as an uncached match |
| CoverageFilters.UpdateLineDataCaches | FileFilter/ReleaseCoverageFilter.cpp:96-118 | the greatest address of each symbol, and the addresses of each line counted |
| CoverageFilters.ReleaseCoverageFilter.UpdateCachesIfExpired | FileFilter/ReleaseCoverageFilter.cpp:75-93 | the cache holds the data of the queried module and file |
| CoverageFilters.ReleaseCoverageFilter.IsLineSelected | FileFilter/ReleaseCoverageFilter.cpp:47-72 | the cached answer is the uncached one over any sequence of queries |
| CoverageFilters.KeptLines | FileFilter/ReleaseCoverageFilter.cpp:54-71 | only relocated addresses are ignored, only where a symbol ends, and never the one address of a line |
| CoverageFilters.GetExecutableLineOrPreviousOne | CppCoverage/UnifiedDiffCoverageFilterManager.cpp:61-71 | the line itself or the nearest executable line before it; none when there is none |
| CoverageFilters.ExecutableLineCache.GetExecutableLinesSet | CppCoverage/UnifiedDiffCoverageFilterManager.cpp:175-191 | on nonempty paths the line numbers of the file, whatever was asked before |

## Left out

- LineRegisters.MonitoredLineRegister.RegisterLineToMonitor: which modules, files and lines are selected, and what the debug information and the PE header say, are inputs.
- SiteEnumerators.Enumerate: the disassembler is a parameter; the sort is only known to give some sorted permutation.
- AddressManagers.ExecutedAddressManager.MarkAddressAsExecuted: pointers into the file maps are modelled by the keys of their nodes, so the checks for null pointers have no counterpart.
- CoverageMergers.Merge: the source runs are values, since they are only read; paths are strings, and their order is any strict total order.
- CoverageMergers.MergeFileCoverage: takes the file objects of all modules as one list; that they are distinct objects and keyed by line number is how the containers build them.
- UnifiedDiffParsers.Parse: a text is given as its lines; signed overflow of the start plus the count of a hunk is not modelled, the pattern is anchored at the start of the line only, and the message text of an error is reduced to its kind and line number.
- DiffPrinters.RoundTrip: lines after the last hunk of a script are not rendered.
- WildcardPatterns.GlobSearch: case folding is an arbitrary function on characters; the case-sensitive constructor, which selects another grammar, is not modelled.
- PathMatchers.PostFixPathMatcherEngine.Match: path normalisation and the file name of a path are arbitrary functions; the full-path engine is a plain lookup and is not modelled.
- CoverageFilters.ReleaseCoverageFilter.IsLineSelected: paths are assumed to determine their line lists and relocations, as the cache itself does.
- UniquePaths.UniquePath.GetUniquePath: splitting a path into folder, stem and extension is an arbitrary function.
- Debuggers.Debugger.Debug: waiting for and continuing events, and closing handles, are not modelled; a trace is the sequence of events that the system delivers.
- Protocol.HandleTrapCorrect: a process whose breakpoints report both exception codes is not modelled.
- Partial transfers of remote reads and writes, thread suspension, minidumps and logging.
- Selection by filters other than the ones above, warnings about unmatched paths, coverage rates, and the sums of the rate computer.
- Binary, HTML and Cobertura export, option parsing, plugins and the user interface.
