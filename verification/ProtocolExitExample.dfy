/** A run in which the exit of one process loses a branch site of another. */
module ProtocolExitExample {
  import opened Common
  import opened Memory
  import opened Debuggees
  import opened BreakPoints
  import opened AddressManagers
  import opened SiteEnumerators
  import opened LineRegisters
  import opened StepTracking
  import opened CoverageRunners
  import opened NativeMachine
  import opened MemoryInvariant
  import opened ModuleLoad
  import opened Protocol
  import opened ProtocolSafety
  import opened ProtocolDeltas
  import opened ProtocolBounds
  import opened ProtocolCounting
  import opened ProtocolNoLost

  const INT3: Instruction := [0xCC]

  /** int3, or a short conditional jump. */
  function ExampleFetch(m: Mem, a: nat): Option<Instruction> {
    if a !in m then None
    else if m[a] == 0xCC then Some(INT3)
    else if m[a] == 0x75 && a + 1 in m then Some([m[a], m[a + 1]])
    else None
  }

  ghost function ExampleEnv(exec: (nat, Instruction, Regs, Heap) -> (nat, Regs, Heap)): Env {
    Env(Cpu((m, a) => ExampleFetch(m, a), exec), INT3, true)
  }

  lemma ExampleCpuOk(exec: (nat, Instruction, Regs, Heap) -> (nat, Regs, Heap))
    ensures CpuOk(ExampleEnv(exec).cpu, INT3)
  {
    forall m: Mem, a: nat | ExampleFetch(m, a).Some? ensures Holds(m, a, ExampleFetch(m, a).value) {
      assert Read(m, a, |ExampleFetch(m, a).value|) == ExampleFetch(m, a).value;
    }
    forall m: Mem, m': Mem, a: nat | ExampleFetch(m, a).Some? && Holds(m', a, ExampleFetch(m, a).value)
      ensures ExampleFetch(m', a) == ExampleFetch(m, a)
    {
      SameFetch(m, m', a);
    }
    forall m: Mem, a: nat | Holds(m, a, INT3) ensures ExampleFetch(m, a) == Some(INT3) {
      assert Read(m, a, 1)[0] == m[a];
    }
  }

  lemma SameFetch(m: Mem, m': Mem, a: nat)
    requires ExampleFetch(m, a).Some? && Holds(m', a, ExampleFetch(m, a).value)
    ensures ExampleFetch(m', a) == ExampleFetch(m, a)
  {
    var bytes := ExampleFetch(m, a).value;
    assert Read(m', a, |bytes|)[0] == m'[a];
    if |bytes| == 2 {
      assert Read(m', a, |bytes|)[1] == m'[a + 1];
    }
  }

  // ----- The states --------------------------------------------------------------------------------------------

  type Exec = (nat, Instruction, Regs, Heap) -> (nat, Regs, Heap)

  /** The breakpoint that the loader of process 2 runs into, and a module with one branch. */
  const LOADER: Mem := map[99 := 0xCC]
  const CODE: Mem := map[100 := 0x75, 101 := 5]
  const ALL: Mem := map[99 := 0xCC, 100 := 0x75, 101 := 5]
  const PLANTED: Mem := map[99 := 0xCC, 100 := 0xCC, 101 := 5]

  const FILE := FileKey("m", "f")
  const LINE := LineKey(FILE, 10)
  const BRANCH := ConditionKey(FILE, 10, 0)
  const SITE := Address(2, 100)

  const SOURCE := SourceFile("f", true, [SourceLine(10, 36, 0, 2, true)])
  const BATCH := FileBatch([100], map[100 := [10]], [ConditionSite(100, 107, 102, 10, 0)])

  ghost function Registered64(marked: bool): State {
    State({"m"}, map[LINE := marked], map[BRANCH := FRESH_CONDITION], map[SITE := Line([0x75], 64, [LINE])],
          map[SITE := ConditionRuntime(107, 102, 64, BRANCH)], Some(LastModule("m", 64)))
  }

  ghost function Empty(heap: Heap): Process {
    Process(map[], {}, map[], heap, EXCEPTION_BREAKPOINT)
  }

  ghost function Started(heap: Heap): Process {
    Process(LOADER, {99}, map[32 := {99}], heap, EXCEPTION_BREAKPOINT)
  }

  ghost function WithBranch(heap: Heap): Process {
    Process(ALL, {99, 100}, map[32 := {99}, 64 := {100, 101}], heap, EXCEPTION_BREAKPOINT)
  }

  /** Process 1 is idle; thread 7 belongs to process 2. */
  ghost function Stage(regs: Regs, heap: Heap, proc: Process, status: Status, view: View): Sys {
    Sys(map[1 := Empty(heap), 2 := proc], map[7 := Worker(2, regs, status)], view)
  }

  ghost function ViewOf(g: State, pending: map<ThreadId, PendingStep>, seen: set<(int, Handle)>, m: Mem, context: Context): View {
    View(g, pending, seen, map[1 := map[], 2 := m], map[7 := context])
  }

  const SEEN: set<(int, Handle)> := {(EXCEPTION_BREAKPOINT, 2)}
  const PENDING: map<ThreadId, PendingStep> := map[7 := PendingStep(100, 107, 102)]

  ghost function S1(heap: Heap): (s: Sys)
    ensures Shaped(s)
  {
    Sys(map[1 := Empty(heap)], map[], View(EMPTY, map[], {}, map[1 := map[]], map[]))
  }

  ghost function S2(heap: Heap): (s: Sys)
    ensures Shaped(s)
  {
    Sys(map[1 := Empty(heap), 2 := Empty(heap)], map[], View(EMPTY, map[], {}, map[1 := map[], 2 := map[]], map[]))
  }

  ghost function S3(regs: Regs, heap: Heap): (s: Sys)
    ensures Shaped(s)
  {
    Stage(regs, heap, Empty(heap), Running, ViewOf(EMPTY, map[], {}, map[], Context(99, false)))
  }

  ghost function S4(regs: Regs, heap: Heap): (s: Sys)
    ensures Shaped(s)
  {
    Stage(regs, heap, Started(heap), Running, ViewOf(EMPTY, map[], {}, LOADER, Context(99, false)))
  }

  ghost function S5(regs: Regs, heap: Heap): (s: Sys)
    ensures Shaped(s)
  {
    Stage(regs, heap, Started(heap), TrapQueued(99), ViewOf(EMPTY, map[], {}, LOADER, Context(100, false)))
  }

  ghost function S6(regs: Regs, heap: Heap): (s: Sys)
    ensures Shaped(s)
  {
    Stage(regs, heap, Started(heap), Running, ViewOf(EMPTY, map[], SEEN, LOADER, Context(100, false)))
  }

  ghost function S7(regs: Regs, heap: Heap): (s: Sys)
    ensures Shaped(s)
  {
    Stage(regs, heap, WithBranch(heap), Running, ViewOf(Registered64(false), map[], SEEN, PLANTED, Context(100, false)))
  }

  ghost function S8(regs: Regs, heap: Heap): (s: Sys)
    ensures Shaped(s)
  {
    Stage(regs, heap, WithBranch(heap), TrapQueued(100), ViewOf(Registered64(false), map[], SEEN, PLANTED, Context(101, false)))
  }

  /** Thread 7 is about to step over its branch. */
  ghost function S9(regs: Regs, heap: Heap): (s: Sys)
    ensures Shaped(s)
  {
    Stage(regs, heap, WithBranch(heap), Running, ViewOf(Registered64(true), PENDING, SEEN, ALL, Context(100, true)))
  }

  ghost function S10(regs: Regs, heap: Heap): (s: Sys)
    ensures Shaped(s)
  {
    Sys(map[2 := WithBranch(heap)], map[7 := Worker(2, regs, Running)],
        View(Registered64(true), map[], SEEN, map[2 := ALL], map[7 := Context(100, true)]))
  }

  ghost function ExampleRun(regs: Regs, heap: Heap): (run: seq<Sys>)
    ensures |run| == 11
  {
    [INITIAL, S1(heap), S2(heap), S3(regs, heap), S4(regs, heap), S5(regs, heap), S6(regs, heap), S7(regs, heap),
     S8(regs, heap), S9(regs, heap), S10(regs, heap)]
  }

  ghost function ExampleEvents(regs: Regs, heap: Heap): (events: seq<Event>)
    ensures |events| == 10
  {
    [Debuggee(CreateProcess(1, heap, EXCEPTION_BREAKPOINT)),
     Debuggee(CreateProcess(2, heap, EXCEPTION_BREAKPOINT)),
     Debuggee(CreateThread(7, 2, 99, regs)),
     Debuggee(Load(2, 32, LOADER, {99})),
     Debuggee(Run(7)),
     HandleTrap(7),
     Debuggee(Load(2, 64, CODE, {100})),
     Debuggee(Run(7)),
     HandleTrap(7),
     Debuggee(ExitProcess(1))]
  }

  // ----- The steps ---------------------------------------------------------------------------------------------

  lemma Creations(env: Env, regs: Regs, heap: Heap)
    ensures Shaped(INITIAL)
    ensures Next(env, INITIAL, Debuggee(CreateProcess(1, heap, EXCEPTION_BREAKPOINT)), S1(heap))
    ensures Next(env, S1(heap), Debuggee(CreateProcess(2, heap, EXCEPTION_BREAKPOINT)), S2(heap))
    ensures Next(env, S2(heap), Debuggee(CreateThread(7, 2, 99, regs)), S3(regs, heap))
  {
    hide LoadStep, CanUnload, HandleStepOf, RunStep;
  }

  lemma LoadedProcesses(heap: Heap)
    ensures Loaded(Empty(heap), 32, LOADER, {99}) == Started(heap)
    ensures Loaded(Started(heap), 64, CODE, {100}) == WithBranch(heap)
  {
    assert LOADER.Keys == {99} && CODE.Keys == {100, 101} && {99} + {100} == {99, 100};
    assert map[] + LOADER == LOADER && LOADER + CODE == ALL;
  }

  lemma LoadsAreOk(exec: Exec, heap: Heap)
    ensures LoadOk(ExampleEnv(exec).cpu, 1, Empty(heap), 32, LOADER, {99})
    ensures LoadOk(ExampleEnv(exec).cpu, 1, Started(heap), 64, CODE, {100})
  {
    assert StartOk(ExampleEnv(exec).cpu, 1, LOADER, {99}, 99);
    assert StartOk(ExampleEnv(exec).cpu, 1, CODE, {100}, 100);
  }

  lemma RunsIntoLoader(exec: Exec, regs: Regs, heap: Heap)
    ensures Next(ExampleEnv(exec), S4(regs, heap), Debuggee(Run(7)), S5(regs, heap))
  {
  }

  lemma HandlesLoader(exec: Exec, regs: Regs, heap: Heap)
    ensures Next(ExampleEnv(exec), S5(regs, heap), HandleTrap(7), S6(regs, heap))
  {
    hide TrapHit, StepLanded;
  }

  lemma ExampleBatch()
    ensures BatchesOf(64, true, [SOURCE], [("f", BATCH)])
  {
    var lines := SOURCE.lines;
    assert IsLineStart(64, lines, 100, 10) by { assert lines[0] in lines; }
    forall a, l ensures IsLineStart(64, lines, a, l) <==> a == 100 && l == 10 {}
    assert HasLineStart(64, lines, 100);
    assert forall a, l :: Listed(BATCH.linesAt, a, l) <==> a == 100 && l == 10;
    assert SitesOfLines(64, lines, BATCH.sites);
    assert forall a, l :: SiteAt(BATCH.sites, a, l) ==> a == 100;
    assert BatchOf(64, lines, BATCH.sites, BATCH.addresses, BATCH.linesAt);
    assert [SOURCE][..0] == [] && [("f", BATCH)][..0] == [];
    assert BatchesOf(64, true, [], []);
  }

  /** The bookkeeping after the batch, before its site is attached. */
  ghost function BatchState(): State {
    State({"m"}, map[LINE := false], map[], map[SITE := Line([0x75], 64, [LINE])], map[], Some(LastModule("m", 64)))
  }

  lemma ExamplePlace()
    ensures var s := ModuleAdded(EMPTY, "m", 64);
      && PlaceRegistered(INT3, 2, FILE, BATCH.linesAt, 100, s, ALL, BatchState(), PLANTED)
      && FlagsAdded(s, BatchState(), FILE, BATCH.linesAt, BATCH.addresses)
  {
    assert Read(ALL, 100, 1) == [0x75] && Read(PLANTED, 100, 1) == INT3;
    assert IsNewKey(FILE, BATCH.linesAt, BATCH.addresses, LINE) by { assert BATCH.addresses[0] in BATCH.addresses; }
  }

  lemma SingleFile(s: State, m: Mem, path: string, batch: FileBatch, s': State, m': Mem)
    requires s.lastModule.Some? && FileRegistered(INT3, 2, path, batch, s, m, s', m')
    ensures FilesRegistered(INT3, 2, [(path, batch)], s, m, s', m')
  {
    hide FileRegistered;
    var files := [(path, batch)];
    assert files[..0] == [] && files[0].0 == path && files[0].1 == batch;
    assert FilesRegistered(INT3, 2, files[..0], s, m, s, m);
  }

  lemma ExampleFile()
    ensures FilesRegistered(INT3, 2, [("f", BATCH)], ModuleAdded(EMPTY, "m", 64), ALL, Registered64(false), PLANTED)
  {
    hide PlaceRegistered, FlagsAdded;
    var s, t := ModuleAdded(EMPTY, "m", 64), BatchState();
    ExamplePlace();
    assert BatchRegistered(INT3, 2, FILE, BATCH.addresses, BATCH.linesAt, s, ALL, t, PLANTED) by {
      assert !Outside(100, BATCH.addresses, 1) by { assert BATCH.addresses[0] == 100; }
    }
    hide BatchRegistered;
    assert BATCH.sites[..0] == [];
    assert Registered64(false) == RegisterSites(t, 2, "f", BATCH.sites);
    assert FileRegistered(INT3, 2, "f", BATCH, s, ALL, Registered64(false), PLANTED);
    hide FileRegistered;
    SingleFile(s, ALL, "f", BATCH, Registered64(false), PLANTED);
  }

  lemma ExampleBoundaries(heap: Heap)
    ensures OnBoundaries(INT3, WithBranch(heap), {100}, [("f", BATCH)])
  {
    assert Read(ALL, 100, 1)[0] == 0x75;
  }

  lemma StageParts(regs: Regs, heap: Heap, proc: Process, status: Status, g: State, pending: map<ThreadId, PendingStep>,
                   seen: set<(int, Handle)>, m: Mem, context: Context)
    ensures var s := Stage(regs, heap, proc, status, ViewOf(g, pending, seen, m, context));
      && Shaped(s) && 2 in s.processes && s.processes[2] == proc
      && s.view.manager == g && 2 in s.view.memory && s.view.memory[2] == m
  {
  }

  lemma StageLoads(regs: Regs, heap: Heap, proc: Process, status: Status, g: State, pending: map<ThreadId, PendingStep>,
                   seen: set<(int, Handle)>, m: Mem, context: Context,
                   base: nat, image: Mem, starts: set<nat>, g': State, m': Mem)
    ensures var s := Stage(regs, heap, proc, status, ViewOf(g, pending, seen, m, context));
      2 in s.processes && AfterLoad(s, 2, base, image, starts, g', m') ==
        Stage(regs, heap, Loaded(proc, base, image, starts), status, ViewOf(g', pending, seen, m', context))
  {
    hide Loaded;
  }

  lemma LoadsLoader(exec: Exec, regs: Regs, heap: Heap)
    ensures Next(ExampleEnv(exec), S3(regs, heap), Debuggee(Load(2, 32, LOADER, {99})), S4(regs, heap))
  {
    hide LoadOk, Loaded, LoadStep, RunStep, CanUnload, Stage, ViewOf, Started, Empty;
    StageParts(regs, heap, Empty(heap), Running, EMPTY, map[], {}, map[], Context(99, false));
    LoadsAreOk(exec, heap);
    LoadedProcesses(heap);
    assert map[] + LOADER == LOADER;
    UnselectedIsLoaded(ExampleEnv(exec), S3(regs, heap), 2, 32, LOADER, {99});
    StageLoads(regs, heap, Empty(heap), Running, EMPTY, map[], {}, map[], Context(99, false), 32, LOADER, {99}, EMPTY, LOADER);
  }

  lemma LoadsBranch(exec: Exec, regs: Regs, heap: Heap)
    ensures Next(ExampleEnv(exec), S6(regs, heap), Debuggee(Load(2, 64, CODE, {100})), S7(regs, heap))
  {
    hide FilesRegistered, BatchesOf, OnBoundaries, LoadOk, Loaded, LoadStep, RunStep, CanUnload, Stage, ViewOf, Started,
         WithBranch, Registered64;
    var g := Registered64(false);
    StageParts(regs, heap, Started(heap), Running, EMPTY, map[], SEEN, LOADER, Context(100, false));
    ExampleBatch();
    ExampleFile();
    ExampleBoundaries(heap);
    LoadsAreOk(exec, heap);
    LoadedProcesses(heap);
    assert LOADER + CODE == ALL;
    RegisteredIsLoaded(ExampleEnv(exec), S6(regs, heap), 2, 64, CODE, {100}, "m", [SOURCE], [("f", BATCH)], g, PLANTED);
    StageLoads(regs, heap, Started(heap), Running, EMPTY, map[], SEEN, LOADER, Context(100, false), 64, CODE, {100}, g, PLANTED);
  }

  lemma RunsIntoBranch(exec: Exec, regs: Regs, heap: Heap)
    ensures Next(ExampleEnv(exec), S7(regs, heap), Debuggee(Run(7)), S8(regs, heap))
  {
  }

  lemma HandlesBranch(exec: Exec, regs: Regs, heap: Heap)
    ensures Next(ExampleEnv(exec), S8(regs, heap), HandleTrap(7), S9(regs, heap))
  {
    hide StepLanded, TrapHit;
    HitView(heap, regs);
    assert ExceptionHandled(INT3, true, S8(regs, heap).view, 2, 7, EXCEPTION_BREAKPOINT, true, 100).0 == S9(regs, heap).view;
  }

  lemma HitView(heap: Heap, regs: Regs)
    ensures var v := S8(regs, heap).view;
      && CanWrite(v, 2, 100, 1) && TrapHit(INT3, true, v, 2, 7, 100) == S9(regs, heap).view
  {
    hide Write, WithHit;
    HitMemory();
    HitState();
  }

  lemma HitMemory()
    ensures Mapped(PLANTED, 100, 1) && Write(PLANTED, 100, [0x75]) == ALL
  {
  }

  lemma HitState()
    ensures WithHit(Registered64(false), SITE) == Registered64(true)
  {
  }

  lemma ExampleIsRun(exec: Exec, regs: Regs, heap: Heap)
    ensures IsRun(ExampleEnv(exec), ExampleRun(regs, heap), ExampleEvents(regs, heap))
  {
    Creations(ExampleEnv(exec), regs, heap);
    LoadsLoader(exec, regs, heap);
    RunsIntoLoader(exec, regs, heap);
    HandlesLoader(exec, regs, heap);
    LoadsBranch(exec, regs, heap);
    RunsIntoBranch(exec, regs, heap);
    HandlesBranch(exec, regs, heap);
    Exits(ExampleEnv(exec), regs, heap);
    hide Next, Shaped, S1, S2, S3, S4, S5, S6, S7, S8, S9, S10, ExampleEnv;
  }

  lemma Exits(env: Env, regs: Regs, heap: Heap)
    ensures Next(env, S9(regs, heap), Debuggee(ExitProcess(1)), S10(regs, heap))
  {
    hide Without, Registered64, WithBranch, LoadStep, CanUnload, RunStep, HandleStepOf;
    ExitKeepsRegistered();
  }

  lemma ExitKeepsRegistered()
    ensures Without(Registered64(true), 1, None) == Registered64(true)
  {
  }

  // ----- The loss ----------------------------------------------------------------------------------------------

  lemma {:induction false} NoStepsHandled(events: seq<Event>)
    requires forall i :: 0 <= i < |events| ==> !events[i].HandleStep?
    ensures StepEvents(events) == 0
  {
    if events != [] {
      NoStepsHandled(events[..|events| - 1]);
    }
  }

  lemma WatchedBefore(exec: Exec, regs: Regs, heap: Heap, l: Ledger)
    ensures var s := S9(regs, heap); SitesHaveRecords(s.view.manager) && NoLost(ExampleEnv(exec), s, l)
  {
    assert Watches(S9(regs, heap), 7, SITE);
  }

  lemma LostAfter(exec: Exec, regs: Regs, heap: Heap, l: Ledger)
    requires Count(l, BRANCH) == 0
    ensures var s := S10(regs, heap);
      && Shaped(s) && SitesHaveRecords(s.view.manager) && IsSite(s, SITE)
      && s.view.manager.conditionSiteMap[SITE].condition == BRANCH
      && s.view.manager.conditions[BRANCH] == FRESH_CONDITION
      && Wanting(s, l, SITE) && !Watched(ExampleEnv(exec), s, SITE)
  {
    var s := S10(regs, heap);
    assert Read(ALL, 100, 1)[0] == 0x75;
  }

  /**
   Thread 7 of process 2 is about to step over its branch when process 1 exits.
   The exit drops the pending step, so the branch of process 2 is neither planted
   nor stepped over any more, although no outcome of it was ever observed.
   */
  lemma ExitLosesSite(exec: Exec, regs: Regs, heap: Heap)
    ensures var env, run, events := ExampleEnv(exec), ExampleRun(regs, heap), ExampleEvents(regs, heap);
      && IsRun(env, run, events) && Sane(run) && events[9] == Debuggee(ExitProcess(1))
      && NoLostAt(env, run, events, 9) && !NoLostAt(env, run, events, 10)
      && IsSite(run[10], SITE) && run[10].view.manager.conditionSiteMap[SITE].condition == BRANCH
      && run[10].view.manager.conditions[BRANCH] == FRESH_CONDITION
      && Observations(env, run, events, BRANCH) == 0
      && !Watched(env, run[10], SITE)
  {
    var env, run, events := ExampleEnv(exec), ExampleRun(regs, heap), ExampleEvents(regs, heap);
    hide CpuOk, Next, NoLost, Sane, Account, Observations, S9, S10, ExampleRun, ExampleEvents, ExampleEnv, Watched;
    ExampleIsRun(exec, regs, heap);
    ExampleCpuOk(exec);
    ExampleTrap(exec);
    ExampleEnds(regs, heap);
    ReachableSane(env, run, events);
    PrefixIsRun(env, run, events, 9);
    SanePrefix(run, 10);
    assert run[..11] == run && events[..10] == events;
    WatchedBefore(exec, regs, heap, Account(env, run[..10], events[..9]));
    NoStepsHandled(events);
    ObservationsAreSteps(env, run, events, BRANCH);
    LedgerCounts(env, run, events, BRANCH);
    LostAfter(exec, regs, heap, Account(env, run, events));
    assert !NoLost(env, run[10], Account(env, run, events)) by { LostIsLost(env, run[10], Account(env, run, events)); }
  }

  lemma ExampleTrap(exec: Exec)
    ensures ExampleEnv(exec).trap == INT3
  {
  }

  lemma LostIsLost(env: Env, s: Sys, l: Ledger)
    requires Shaped(s) && SitesHaveRecords(s.view.manager) && Wanting(s, l, SITE) && !Watched(env, s, SITE)
    ensures !NoLost(env, s, l)
  {
  }

  lemma ExampleEnds(regs: Regs, heap: Heap)
    ensures var run, events := ExampleRun(regs, heap), ExampleEvents(regs, heap);
      && run[9] == S9(regs, heap) && run[10] == S10(regs, heap)
      && events[9] == Debuggee(ExitProcess(1))
      && forall i :: 0 <= i < |events| ==> !events[i].HandleStep?
  {
  }
}
