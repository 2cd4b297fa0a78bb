/** The report of a run: taking the snapshot never throws, and what it says really happened. */
module ProtocolSnapshot {
  import opened Common
  import opened Memory
  import opened Debuggees
  import opened AddressManagers
  import opened LineRegisters
  import opened CoverageRunners
  import opened NativeMachine
  import opened ModuleLoad
  import opened LineCoverages
  import opened Snapshots
  import opened Protocol
  import opened ProtocolSafety
  import opened ProtocolDeltas
  import opened ProtocolLines
  import opened ProtocolOutcomes

  /** Every line belongs to a module that was added. */
  ghost predicate Nested(g: State) {
    forall k :: k in g.lines ==> k.file.moduleName in g.modules
  }

  // ----- Every line has its module ---------------------------------------------------------------

  lemma {:induction false} SitesKeepModules(s: State, p: Handle, path: string, sites: seq<SiteEnumerators.ConditionSite>)
    requires s.lastModule.Some?
    ensures var s' := RegisterSites(s, p, path, sites); s'.modules == s.modules && s'.lines == s.lines
  {
    if sites != [] {
      SitesKeepModules(s, p, path, sites[..|sites| - 1]);
    }
  }

  lemma FileNested(trap: Instruction, p: Handle, path: string, batch: FileBatch, s: State, m: Mem, s': State, m': Mem)
    requires s.lastModule.Some? && s.lastModule.value.name in s.modules && Nested(s)
    requires FileRegistered(trap, p, path, batch, s, m, s', m')
    ensures Nested(s') && s'.modules == s.modules && s'.lastModule == s.lastModule
  {
    hide PlaceRegistered, OthersKept, BytesKept;
    var t: State :|
      && t.lastModule == s.lastModule
      && BatchRegistered(trap, p, FileOf(s, path), batch.addresses, batch.linesAt, s, m, t, m')
      && s' == RegisterSites(t, p, path, batch.sites);
    SitesKeepModules(t, p, path, batch.sites);
  }

  lemma {:induction false} FilesNested(trap: Instruction, p: Handle, files: seq<(string, FileBatch)>,
                                       s: State, m: Mem, s': State, m': Mem)
    requires s.lastModule.Some? && s.lastModule.value.name in s.modules && Nested(s)
    requires FilesRegistered(trap, p, files, s, m, s', m')
    ensures Nested(s') && s'.modules == s.modules && s'.lastModule == s.lastModule
  {
    hide FileRegistered, Nested;
    if files != [] {
      var n := |files| - 1;
      var t: State, q: Mem :|
        && FilesRegistered(trap, p, files[..n], s, m, t, q)
        && t.lastModule == s.lastModule
        && FileRegistered(trap, p, files[n].0, files[n].1, t, q, s', m');
      FilesNested(trap, p, files[..n], s, m, t, q);
      FileNested(trap, p, files[n].0, files[n].1, t, q, s', m');
    }
  }

  lemma LoadNested(env: Env, s: Sys, p: Handle, base: nat, image: Mem, starts: set<nat>, s': Sys)
    requires Shaped(s) && LoadStep(env, s, p, base, image, starts, s') && Nested(s.view.manager)
    ensures Nested(s'.view.manager)
  {
    hide LoadOk, BatchesOf, OnBoundaries;
    var g := s.view.manager;
    if s'.view.manager != g {
      var name: string, files: seq<SourceFile>, batches: seq<(string, FileBatch)> :|
        && BatchesOf(base, env.branch, files, batches)
        && OnBoundaries(env.trap, s'.processes[p], starts, batches)
        && FilesRegistered(env.trap, p, batches, ModuleAdded(g, name, base), s.view.memory[p] + image,
                           s'.view.manager, s'.view.memory[p]);
      FilesNested(env.trap, p, batches, ModuleAdded(g, name, base), s.view.memory[p] + image, s'.view.manager, s'.view.memory[p]);
    }
  }

  lemma NestedStep(env: Env, s: Sys, e: Event, s': Sys)
    requires Inv(env, s) && Next(env, s, e, s') && Nested(s.view.manager)
    ensures Nested(s'.view.manager)
  {
    hide Inv, LoadStep, CanUnload, HandleStepOf, RunStep, Planted, Known, PlantsAgain;
    assert Shaped(s) by { InvShaped(env, s); }
    if Quiet(e) {
      QuietDelta(env, s, e, s');
    } else {
      match e
      case HandleTrap(t) =>
        if OwnTrap(s, t) {
          OwnTrapDelta(env, s, t, s');
        } else {
          NativeTrapDelta(env, s, t, s');
        }
      case HandleStep(t) => StepDelta(env, s, t, s');
      case Debuggee(step) =>
        match step
        case Load(p, base, image, starts) => LoadNested(env, s, p, base, image, starts, s');
        case _ =>
    }
  }

  lemma {:induction false} ReachableNested(env: Env, run: seq<Sys>, events: seq<Event>)
    requires CpuOk(env.cpu, env.trap) && IsRun(env, run, events)
    ensures Nested(run[|events|].view.manager)
  {
    hide CpuOk, Next, Nested;
    if events != [] {
      var n := |events| - 1;
      RunPrefix(env, run, events);
      ReachableNested(env, run[..n + 1], events[..n]);
      assert run[..n + 1][n] == run[n];
      ReachableInv(env, run[..n + 1], events[..n]);
      NestedStep(env, run[n], events[n], run[n + 1]);
    } else {
      assert Nested(INITIAL.view.manager) by { InitiallyNested(); }
    }
  }

  lemma InitiallyNested()
    ensures Nested(INITIAL.view.manager)
  {
  }

  // ----- The report ---------------------------------------------------------------------------------

  /** In every reachable state the snapshot succeeds, and no line is left out of it for want of a module. */
  lemma SnapshotNeverThrows(env: Env, run: seq<Sys>, events: seq<Event>)
    requires CpuOk(env.cpu, env.trap) && IsRun(env, run, events)
    ensures var g := run[|events|].view.manager;
      && (forall m :: m in g.modules ==> !Orphaned(g, m))
      && (forall k :: k in g.lines ==> k.file.moduleName in g.modules && k.file.path in PathsIn(g.lines, g.conditions, k.file.moduleName))
  {
    ReachableInv(env, run, events);
    ReachableNested(env, run, events);
    hide CpuOk, ThreadsOk, ProcessesOk, Next, Orphaned, IsRun;
    var g := run[|events|].view.manager;
    forall m | m in g.modules ensures !Orphaned(g, m) {
      NeverOrphaned(g, m);
    }
  }

  /**
   What a report taken at the end of a run says about a line: it is executed only
   if some thread natively stood at an address registered for it, and whenever one
   executed an instruction there; and an outcome of a condition is reported only
   if some thread's branch really had it.
   */
  lemma ReportIsTrue(env: Env, run: seq<Sys>, events: seq<Event>, m: ModuleCoverage, f: FileData, n: nat)
    requires CpuOk(env.cpu, env.trap) && IsRun(env, run, events)
    requires ModuleExact(run[|events|].view.manager, m) && f in m.files && n in f.lines
    ensures |run| == |events| + 1 && forall i :: 0 <= i < |run| ==> Shaped(run[i])
    ensures var file := FileKey(m.path, f.path);
      && (f.lines[n].hasBeenExecuted ==> Stood(env, run, LineKey(file, n)))
      && (Executed(env, run, events, LineKey(file, n)) ==> f.lines[n].hasBeenExecuted)
      && (f.lines[n].hasBeenExecuted <==> IsHit(Hits(env, run, events), LineKey(file, n)))
      && forall c :: c in f.lines[n].conditions ==>
           && (c.takenSeen ==> WasTaken(Branches(env, run, events), ConditionKey(file, n, c.index)))
           && (c.notTakenSeen ==> FellThrough(Branches(env, run, events), ConditionKey(file, n, c.index)))
  {
    hide CpuOk, IsRun, Shaped, WasTaken, FellThrough, IsHit, Stood, Executed, ModuleExact;
    ReachableShaped(env, run, events);
    RunLength(env, run, events);
    var g, file := run[|events|].view.manager, FileKey(m.path, f.path);
    LineOfReport(g, m, f, n);
    LinesExact(env, run, events, LineKey(file, n));
    forall c | c in f.lines[n].conditions
      ensures (c.takenSeen ==> WasTaken(Branches(env, run, events), ConditionKey(file, n, c.index)))
           && (c.notTakenSeen ==> FellThrough(Branches(env, run, events), ConditionKey(file, n, c.index)))
    {
      OutcomesSound(env, run, events, ConditionKey(file, n, c.index));
    }
  }

  /** A reported line carries the flag and the outcomes of its records. */
  lemma LineOfReport(g: State, m: ModuleCoverage, f: FileData, n: nat)
    requires ModuleExact(g, m) && f in m.files && n in f.lines
    ensures var file := FileKey(m.path, f.path);
      && LineKey(file, n) in g.lines && f.lines[n].hasBeenExecuted == g.lines[LineKey(file, n)]
      && forall c :: c in f.lines[n].conditions ==>
           && ConditionKey(file, n, c.index) in g.conditions
           && c.takenSeen == g.conditions[ConditionKey(file, n, c.index)].takenSeen
           && c.notTakenSeen == g.conditions[ConditionKey(file, n, c.index)].notTakenSeen
  {
    var file := FileKey(m.path, f.path);
    var lines, conditions := LinesOf(g.lines, file), ConditionsOf(g.conditions, file);
    assert LineExact(f.lines[n], n, lines[n], conditions, conditions.Keys);
    hide Snapshots.Reported, FileExact, ModuleExact;
    forall c | c in f.lines[n].conditions
      ensures ConditionKey(file, n, c.index) in g.conditions
      ensures c.takenSeen == g.conditions[ConditionKey(file, n, c.index)].takenSeen
      ensures c.notTakenSeen == g.conditions[ConditionKey(file, n, c.index)].notTakenSeen
    {
      ReportsItsOutcomes(conditions, n, c.index);
      ConditionsAt(g, file, n, c.index);
    }
  }

  lemma ConditionsAt(g: State, file: FileKey, n: nat, i: nat)
    ensures (n, i) in ConditionsOf(g.conditions, file) <==> ConditionKey(file, n, i) in g.conditions
    ensures ConditionKey(file, n, i) in g.conditions ==>
      ConditionsOf(g.conditions, file)[(n, i)] == g.conditions[ConditionKey(file, n, i)]
  {
    assert ConditionKey(file, n, i) in g.conditions ==> ConditionKey(file, n, i).file == file;
  }
}
