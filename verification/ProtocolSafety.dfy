/**
 Safety of the protocol over whole runs: the memory invariant holds in every
 reachable state, and the instrumented system is a stuttering refinement of the
 native machine.
 */
module ProtocolSafety {
  import opened Common
  import opened Memory
  import opened Debuggees
  import opened AddressManagers
  import opened LineRegisters
  import opened CoverageRunners
  import opened NativeMachine
  import opened MemoryInvariant
  import opened ModuleLoad
  import opened Protocol

  // ----- Processes and threads come and go -----------------------------------------------------

  /** The named process events act on the native machine as their native counterparts. */
  lemma CreateProcessCorrect(env: Env, s: Sys, p: Handle, heap: Heap, trapCode: int)
    requires Inv(env, s) && p !in s.processes && IsTrapCode(trapCode)
    ensures var s' := AfterCreateProcess(s, p, heap, trapCode);
      Inv(env, s') && Simulates(env, s, Debuggee(CreateProcess(p, heap, trapCode)), s')
  {
    hide CpuOk, NativeTrap, Mapped, StateOk, ProcessInv;
    var s' := AfterCreateProcess(s, p, heap, trapCode);
    SameState(s, s');
    forall q | q in s'.processes ensures ProcessInv(env, s', q) {
      if q == p {
        EmptyProcess(env, s, p, s');
      } else {
        assert ProcessInv(env, s, q);
        ProcessMoved(env, s, s', q);
      }
    }
    forall u | u in s.threads ensures ThreadOk(env, s', u) && NativeThread(env, s', u) == NativeThread(env, s, u) {
      assert ThreadOk(env, s, u);
      SameNativeThread(env, s, s', u);
    }
    assert Abs(env, s').threads == Abs(env, s).threads;
  }

  lemma EmptyProcess(env: Env, s: Sys, p: Handle, s': Sys)
    requires StateOk(s) && p !in s.processes && Shaped(s') && p in s'.processes
    requires s'.view.manager == s.view.manager && s'.view.memory[p] == map[]
    requires s'.processes[p].code == map[] && s'.processes[p].starts == {} && s'.processes[p].modules == map[]
    requires IsTrapCode(s'.processes[p].trapCode)
    ensures ProcessInv(env, s', p)
  {
    assert forall a :: Address(p, a) !in s.view.manager.addressLineMap by {
      assert forall a :: Address(p, a).process == p;
    }
    assert forall a :: Address(p, a) !in s.view.manager.conditionSiteMap by {
      assert forall a :: Address(p, a).process == p;
    }
  }

  lemma ProcessMoved(env: Env, s: Sys, s': Sys, q: Handle)
    requires Shaped(s) && Shaped(s') && q in s.processes && q in s'.processes && ProcessInv(env, s, q)
    requires s'.view.manager == s.view.manager
    requires s'.processes[q] == s.processes[q] && s'.view.memory[q] == s.view.memory[q]
    ensures ProcessInv(env, s', q)
  {
  }

  lemma CreatedThread(env: Env, s: Sys, t: ThreadId, p: Handle, pc: nat, regs: Regs)
    requires Shaped(s) && t !in s.threads && p in s.processes
    ensures var s' := AfterCreateThread(s, t, p, pc, regs);
      Shaped(s') && ThreadOk(env, s', t) && NativeThread(env, s', t) == Thread(p, pc, regs)
  {
    hide NativeTrap, StateOk, ProcessesOk;
  }

  lemma CreateThreadCorrect(env: Env, s: Sys, t: ThreadId, p: Handle, pc: nat, regs: Regs)
    requires Inv(env, s) && t !in s.threads && p in s.processes
    ensures var s' := AfterCreateThread(s, t, p, pc, regs);
      Inv(env, s') && Simulates(env, s, Debuggee(CreateThread(t, p, pc, regs)), s')
  {
    hide CpuOk, NativeTrap, StateOk, ProcessesOk;
    CreatedThread(env, s, t, p, pc, regs);
    hide ThreadOk, NativeThread;
    var s' := AfterCreateThread(s, t, p, pc, regs);
    SameProcesses(env, s, s');
    SameState(s, s');
    forall u | u in s.threads ensures ThreadOk(env, s', u) && NativeThread(env, s', u) == NativeThread(env, s, u) {
      BesidesCreated(env, s, t, p, pc, regs, u);
    }
    SameMachine(env, s', Abs(env, s).(threads := Abs(env, s).threads[t := Thread(p, pc, regs)]));
  }

  lemma BesidesCreated(env: Env, s: Sys, t: ThreadId, p: Handle, pc: nat, regs: Regs, u: ThreadId)
    requires Shaped(s) && ThreadsOk(env, s) && t !in s.threads && u in s.threads && p in s.processes
    ensures var s' := AfterCreateThread(s, t, p, pc, regs);
      Shaped(s') && ThreadOk(env, s', u) && NativeThread(env, s', u) == NativeThread(env, s, u)
  {
    hide NativeTrap;
    assert ThreadOk(env, s, u);
    SameNativeThread(env, s, AfterCreateThread(s, t, p, pc, regs), u);
  }

  lemma SameState(s: Sys, s': Sys)
    requires StateOk(s) && s'.view.manager == s.view.manager && s.processes.Keys <= s'.processes.Keys
    ensures StateOk(s')
  {
  }

  lemma ExitThreadCorrect(env: Env, s: Sys, t: ThreadId)
    requires Inv(env, s) && t in s.threads
    ensures var s' := AfterExitThread(s, t); Inv(env, s') && Simulates(env, s, Debuggee(ExitThread(t)), s')
  {
    hide CpuOk, NativeTrap, StateOk, ProcessesOk;
    var s' := AfterExitThread(s, t);
    SameProcesses(env, s, s');
    SameState(s, s');
    forall u | u in s'.threads ensures ThreadOk(env, s', u) && NativeThread(env, s', u) == NativeThread(env, s, u) {
      assert ThreadOk(env, s, u);
      SameNativeThread(env, s, s', u);
    }
    assert Abs(env, s').threads == Abs(env, s).threads - {t};
  }

  ghost function ExitedMachine(n: Machine, p: Handle): Machine {
    Machine(n.processes - {p}, map t | t in n.threads && n.threads[t].process != p :: n.threads[t])
  }

  lemma ExitProcessCorrect(env: Env, s: Sys, p: Handle)
    requires Inv(env, s) && p in s.processes
    ensures var s' := AfterExitProcess(s, p); Inv(env, s') && Simulates(env, s, Debuggee(ExitProcess(p)), s')
  {
    hide CpuOk, NativeTrap, StateOk, ProcessInv, ThreadOk, Without;
    var s' := AfterExitProcess(s, p);
    ExitedState(s, p, s');
    forall q | q in s'.processes ensures ProcessInv(env, s', q) {
      assert ProcessInv(env, s, q);
      ExitedProcess(env, s, p, s', q);
    }
    forall u | u in s'.threads ensures ThreadOk(env, s', u) && NativeThread(env, s', u) == NativeThread(env, s, u) {
      ExitedThread(env, s, p, u);
    }
    SameMachine(env, s', ExitedMachine(Abs(env, s), p));
  }

  lemma ExitedThread(env: Env, s: Sys, p: Handle, u: ThreadId)
    requires Inv(env, s) && u in s.threads && s.threads[u].process != p
    ensures var s' := AfterExitProcess(s, p);
      Shaped(s') && ThreadOk(env, s', u) && NativeThread(env, s', u) == NativeThread(env, s, u)
  {
    hide CpuOk, NativeTrap, StateOk, ProcessesOk;
    assert ThreadOk(env, s, u);
    SameNativeThread(env, s, AfterExitProcess(s, p), u);
  }

  lemma ExitedState(s: Sys, p: Handle, s': Sys)
    requires StateOk(s) && s'.processes == s.processes - {p}
    requires s'.view.manager == Without(s.view.manager, p, None)
    ensures StateOk(s')
  {
  }

  /** An exit leaves the entries of the other processes as they were. */
  lemma ExitedProcess(env: Env, s: Sys, p: Handle, s': Sys, q: Handle)
    requires Shaped(s) && Shaped(s') && q in s'.processes && q in s.processes && q != p && ProcessInv(env, s, q)
    requires s'.processes[q] == s.processes[q] && s'.view.memory[q] == s.view.memory[q]
    requires s'.view.manager == Without(s.view.manager, p, None)
    ensures ProcessInv(env, s', q)
  {
    hide ImageOk, EntryOk;
    forall a | Address(q, a) in s'.view.manager.conditionSiteMap ensures SiteOk(s'.view.manager, Address(q, a)) {
      assert SiteOk(s.view.manager, Address(q, a));
    }
    assert forall x :: Covered(s'.view.manager, q, x, |env.trap|) <==> Covered(s.view.manager, q, x, |env.trap|);
  }

  // ----- Unloading --------------------------------------------------------------------------------

  lemma UnloadCorrect(env: Env, s: Sys, p: Handle, base: nat)
    requires Inv(env, s) && CanUnload(env, s, p, base)
    ensures var s' := AfterUnload(s, p, base); Inv(env, s') && Simulates(env, s, Debuggee(Unload(p, base)), s')
  {
    hide CpuOk, NativeTrap, StateOk, ProcessInv, ThreadOk, Unused, Unloaded;
    var s' := AfterUnload(s, p, base);
    UnloadedState(s, p, base, s');
    forall q | q in s'.processes ensures ProcessInv(env, s', q) {
      assert ProcessInv(env, s, q);
      UnloadedInv(env, s, p, base, s', q);
    }
    forall u | u in s'.threads ensures ThreadOk(env, s', u) && NativeThread(env, s', u) == NativeThread(env, s, u) {
      UnloadedThread(env, s, p, base, s', u);
    }
    assert Abs(env, s').threads == Abs(env, s).threads;
  }

  lemma UnloadedState(s: Sys, p: Handle, base: nat, s': Sys)
    requires StateOk(s) && s'.processes.Keys == s.processes.Keys
    requires s'.view.manager == Without(s.view.manager, p, Some(base))
    ensures StateOk(s')
  {
  }

  lemma UnloadedInv(env: Env, s: Sys, p: Handle, base: nat, s': Sys, q: Handle)
    requires CpuOk(env.cpu, env.trap) && Shaped(s) && Shaped(s') && p in s.processes && base in s.processes[p].modules
    requires s' == AfterUnload(s, p, base) && q in s.processes && ProcessInv(env, s, q)
    ensures ProcessInv(env, s', q)
  {
    hide ImageOk, EntryOk, CpuOk, Unloaded, ProcessOk;
    if q == p {
      UnloadedImage(env.cpu, env.trap, s.processes[p], base);
      UnloadedProcess(env.cpu, env.trap, p, s.processes[p], s.view.manager, s.view.memory[p], base);
      UnloadedCode(s.processes[p], base);
    } else {
      UnloadedOther(env.trap, p, base, s.view.manager, q, s.processes[q], s.view.memory[q]);
    }
  }

  lemma UnloadedCode(proc: Process, base: nat)
    requires base in proc.modules
    ensures Unloaded(proc, base).trapCode == proc.trapCode
  {
  }

  lemma UnloadedOther(trap: Instruction, p: Handle, base: nat, g: State, q: Handle, proc: Process, m: Mem)
    requires ProcessOk(trap, q, proc, g, m) && q != p
    ensures ProcessOk(trap, q, proc, Without(g, p, Some(base)), m)
  {
    hide EntryOk;
    var g' := Without(g, p, Some(base));
    forall a | Address(q, a) in g'.conditionSiteMap ensures SiteOk(g', Address(q, a)) {
      assert SiteOk(g, Address(q, a));
    }
    assert forall x :: Covered(g', q, x, |trap|) <==> Covered(g, q, x, |trap|);
  }

  /** A queued trap stays what it is when its address keeps its boundary, its bytes and its entry. */
  lemma ThreadKept(env: Env, s: Sys, s': Sys, u: ThreadId)
    requires Shaped(s) && Shaped(s') && u in s.threads && u in s'.threads && ThreadOk(env, s, u)
    requires s'.threads[u] == s.threads[u] && s'.view.contexts[u] == s.view.contexts[u]
    requires s'.view.seen == s.view.seen && CodeOf(s', u).trapCode == CodeOf(s, u).trapCode
    requires s.threads[u].status.TrapQueued? ==>
      var a := s.threads[u].status.address;
      && a in CodeOf(s', u).starts && (NativeTrap(env, CodeOf(s', u), a) <==> NativeTrap(env, CodeOf(s, u), a))
      && (Address(s.threads[u].process, a) in s.view.manager.addressLineMap ==>
            Address(s.threads[u].process, a) in s'.view.manager.addressLineMap)
    ensures ThreadOk(env, s', u) && NativeThread(env, s', u) == NativeThread(env, s, u)
  {
    hide NativeTrap;
  }

  /** No thread notices the unloading of a module that is not in use. */
  lemma UnloadedThread(env: Env, s: Sys, p: Handle, base: nat, s': Sys, u: ThreadId)
    requires Inv(env, s) && CanUnload(env, s, p, base) && s' == AfterUnload(s, p, base) && u in s.threads
    requires Shaped(s')
    ensures ThreadOk(env, s', u) && NativeThread(env, s', u) == NativeThread(env, s, u)
  {
    var q := s.threads[u].process;
    assert ThreadOk(env, s, u) && ProcessInv(env, s, q);
    if q == p && s.threads[u].status.TrapQueued? {
      UnusedTrap(env, s, p, base, u);
    }
    hide Inv, ImageOk, ProcessOk, NativeTrap, CanUnload, ThreadOk;
    QueuedStart(env, s, u);
    ThreadKept(env, s, s', u);
  }

  lemma QueuedStart(env: Env, s: Sys, u: ThreadId)
    requires Shaped(s) && u in s.threads && ThreadOk(env, s, u)
    ensures s.threads[u].status.TrapQueued? ==> s.threads[u].status.address in CodeOf(s, u).starts
  {
  }

  lemma UnusedTrap(env: Env, s: Sys, p: Handle, base: nat, u: ThreadId)
    requires Inv(env, s) && CanUnload(env, s, p, base) && u in s.threads && s.threads[u].process == p
    requires s.threads[u].status.TrapQueued?
    ensures var a := s.threads[u].status.address;
      && a in Unloaded(s.processes[p], base).starts
      && (NativeTrap(env, Unloaded(s.processes[p], base), a) <==> NativeTrap(env, s.processes[p], a))
      && (Address(p, a) in s.view.manager.addressLineMap ==>
            Address(p, a) in Without(s.view.manager, p, Some(base)).addressLineMap)
  {
    var a := s.threads[u].status.address;
    assert ThreadOk(env, s, u) && ProcessInv(env, s, p);
    hide ProcessesOk, ThreadsOk, StateOk, NativeTrap, ProcessOk;
    UnloadedTrap(env, s.processes[p], base, a);
    if Address(p, a) in s.view.manager.addressLineMap {
      OursSurvives(env, s, p, base, a);
    }
  }

  lemma OursSurvives(env: Env, s: Sys, p: Handle, base: nat, a: nat)
    requires Inv(env, s) && p in s.processes && base in s.processes[p].modules
    requires Address(p, a) in s.view.manager.addressLineMap && a !in s.processes[p].modules[base]
    ensures Address(p, a) in Without(s.view.manager, p, Some(base)).addressLineMap
  {
    OursIsNotNative(env, s, p, a);
  }

  lemma UnloadedTrap(env: Env, proc: Process, base: nat, a: nat)
    requires CpuOk(env.cpu, env.trap) && ImageOk(env.cpu, |env.trap|, proc) && base in proc.modules
    requires a in proc.starts && a !in proc.modules[base]
    ensures NativeTrap(env, Unloaded(proc, base), a) <==> NativeTrap(env, proc, a)
  {
    UnloadedImage(env.cpu, env.trap, proc, base);
    assert StartOk(env.cpu, |env.trap|, proc.code, proc.starts, a);
    assert a in Unloaded(proc, base).starts;
    StartMapped(env.cpu, env.trap, proc.code, proc.starts, a);
    ReadBytes(proc.code, Unloaded(proc, base).code, a, |env.trap|);
  }

  // ----- Loading ----------------------------------------------------------------------------------

  /** What a load changes in the bookkeeping, whether or not the module is selected. */
  lemma LoadEffects(env: Env, s: Sys, p: Handle, base: nat, image: Mem, starts: set<nat>, s': Sys)
    requires Inv(env, s) && LoadStep(env, s, p, base, image, starts, s')
    ensures p in s'.processes && p in s'.view.memory
    ensures ImageOk(env.cpu, |env.trap|, s'.processes[p])
    ensures ProcessOk(env.trap, p, s'.processes[p], s'.view.manager, s'.view.memory[p])
    ensures LoadEffect(env.trap, p, starts, s.view.manager, s.view.memory[p] + image, s'.view.manager, s'.view.memory[p])
    ensures NoneIn(s.view.manager, p, starts)
    ensures forall a :: Address(p, a) in s.view.manager.addressLineMap ==>
      Mapped(s.view.memory[p], a, |env.trap|) &&
      Read(s.view.memory[p] + image, a, |env.trap|) == Read(s.view.memory[p], a, |env.trap|)
  {
    var proc := s.processes[p];
    assert ProcessInv(env, s, p);
    hide StateOk, ThreadsOk, ProcessesOk, ImageOk, ProcessOk, FilesFit, FilesRegistered, BatchesOf, OnBoundaries, LoadEffect;
    LoadedImage(env.cpu, env.trap, proc, base, image, starts);
    LoadedProcess(env.cpu, env.trap, p, proc, s.view.manager, s.view.memory[p], base, image, starts);
    FreshStarts(env, s, p, base, image, starts);
    var g, m := s.view.manager, s.view.memory[p] + image;
    if s'.view.manager == g && s'.view.memory[p] == m {
      NoFiles(env.trap, p, s'.processes[p], starts, g, m);
    } else {
      var name: string, files: seq<SourceFile>, batches: seq<(string, FileBatch)> :|
        && BatchesOf(base, env.branch, files, batches)
        && OnBoundaries(env.trap, s'.processes[p], starts, batches)
        && FilesRegistered(env.trap, p, batches, ModuleAdded(g, name, base), m, s'.view.manager, s'.view.memory[p]);
      StartsInImage(env, base, proc, image, starts);
      BatchesFit(env.trap, env.branch, s'.processes[p], base, starts, files, batches);
      ModuleAddedSame(env.trap, p, s'.processes[p], g, name, base, m);
      FilesEffect(env.cpu, env.trap, p, s'.processes[p], starts, batches, ModuleAdded(g, name, base), m,
                  s'.view.manager, s'.view.memory[p]);
      AddedEffect(env.trap, p, starts, g, name, base, m, s'.view.manager, s'.view.memory[p]);
    }
  }

  lemma StartsInImage(env: Env, base: nat, proc: Process, image: Mem, starts: set<nat>)
    requires CpuOk(env.cpu, env.trap) && LoadOk(env.cpu, |env.trap|, proc, base, image, starts)
    ensures starts <= image.Keys
  {
    forall a | a in starts ensures a in image {
      StartMapped(env.cpu, env.trap, image, starts, a);
    }
  }

  lemma FreshStarts(env: Env, s: Sys, p: Handle, base: nat, image: Mem, starts: set<nat>)
    requires Inv(env, s) && p in s.processes && LoadOk(env.cpu, |env.trap|, s.processes[p], base, image, starts)
    ensures NoneIn(s.view.manager, p, starts)
  {
    assert ProcessInv(env, s, p);
    forall a | a in starts ensures Address(p, a) !in s.view.manager.addressLineMap {
      StartMapped(env.cpu, env.trap, image, starts, a);
      assert a !in s.processes[p].code;
      if Address(p, a) in s.view.manager.addressLineMap {
        EntryFacts(env.trap, p, s.processes[p], s.view.manager, s.view.memory[p], a);
      }
    }
  }

  lemma ModuleAddedSame(trap: Instruction, p: Handle, proc: Process, g: State, name: string, base: nat, m: Mem)
    requires ProcessOk(trap, p, proc, g, m)
    ensures ProcessOk(trap, p, proc, ModuleAdded(g, name, base), m)
  {
    SameMaps(trap, p, proc, g, ModuleAdded(g, name, base), m);
  }

  lemma AddedEffect(trap: Instruction, p: Handle, region: set<nat>, g: State, name: string, base: nat, m: Mem, g': State, m': Mem)
    requires LoadEffect(trap, p, region, ModuleAdded(g, name, base), m, g', m')
    ensures LoadEffect(trap, p, region, g, m, g', m')
  {
    var h := ModuleAdded(g, name, base);
    forall a: Address | a.process != p || a.value !in region ensures SameEntry(g, g', a) && SameSite(g, g', a) {
      assert SameEntry(h, g', a) && SameSite(h, g', a);
    }
  }

  ghost function AfterLoad(s: Sys, p: Handle, base: nat, image: Mem, starts: set<nat>, g: State, m: Mem): Sys
    requires p in s.processes
  {
    s.(processes := s.processes[p := Loaded(s.processes[p], base, image, starts)],
       view := s.view.(manager := g, memory := s.view.memory[p := m]))
  }

  /**
   What the methods of the registration promise is a load of the protocol: for the
   batches that they build on boundaries of the module, the condition under which
   they promise their effect holds.
   */
  lemma RegistrationIsALoad(env: Env, s: Sys, p: Handle, base: nat, image: Mem, starts: set<nat>, name: string,
                            files: seq<SourceFile>, batches: seq<(string, FileBatch)>, g: State, m: Mem)
    requires Inv(env, s) && p in s.processes && LoadOk(env.cpu, |env.trap|, s.processes[p], base, image, starts)
    requires BatchesOf(base, env.branch, files, batches)
    requires OnBoundaries(env.trap, Loaded(s.processes[p], base, image, starts), starts, batches)
    requires AllApart(env.trap, batches) ==>
      FilesRegistered(env.trap, p, batches, ModuleAdded(s.view.manager, name, base), s.view.memory[p] + image, g, m)
    ensures AllApart(env.trap, batches)
    ensures LoadStep(env, s, p, base, image, starts, AfterLoad(s, p, base, image, starts, g, m))
    ensures FilesAttached(g, p, LastModule(name, base), batches)
  {
    assert ProcessInv(env, s, p);
    hide StateOk, ThreadsOk, ProcessesOk, ImageOk, ProcessOk, FilesRegistered, BatchesOf, OnBoundaries, AllApart, LoadOk;
    var proc := Loaded(s.processes[p], base, image, starts);
    LoadedImage(env.cpu, env.trap, s.processes[p], base, image, starts);
    BatchesApart(env.cpu, env.trap, proc, starts, batches);
    hide Inv, ProcessInv, Shaped;
    InvShaped(env, s);
    RegisteredIsLoaded(env, s, p, base, image, starts, name, files, batches, g, m);
    hide FilesAttached, LoadStep;
    SitesOfModule(env.trap, env.branch, p, base, name, files, batches, s.view.manager, s.view.memory[p] + image, g, m);
  }

  lemma UnselectedIsLoaded(env: Env, s: Sys, p: Handle, base: nat, image: Mem, starts: set<nat>)
    requires Shaped(s) && p in s.processes && LoadOk(env.cpu, |env.trap|, s.processes[p], base, image, starts)
    ensures LoadStep(env, s, p, base, image, starts,
                     AfterLoad(s, p, base, image, starts, s.view.manager, s.view.memory[p] + image))
  {
    hide LoadOk;
  }

  lemma RegisteredIsLoaded(env: Env, s: Sys, p: Handle, base: nat, image: Mem, starts: set<nat>, name: string,
                           files: seq<SourceFile>, batches: seq<(string, FileBatch)>, g: State, m: Mem)
    requires Shaped(s) && p in s.processes && LoadOk(env.cpu, |env.trap|, s.processes[p], base, image, starts)
    requires BatchesOf(base, env.branch, files, batches)
    requires OnBoundaries(env.trap, Loaded(s.processes[p], base, image, starts), starts, batches)
    requires FilesRegistered(env.trap, p, batches, ModuleAdded(s.view.manager, name, base), s.view.memory[p] + image, g, m)
    ensures LoadStep(env, s, p, base, image, starts, AfterLoad(s, p, base, image, starts, g, m))
  {
    hide FilesRegistered, BatchesOf, OnBoundaries, LoadOk;
    assert ModuleRegistered(env.trap, env.branch, p, Loaded(s.processes[p], base, image, starts), base, starts,
                            s.view.manager, s.view.memory[p] + image, g, m);
  }

  lemma LoadCorrect(env: Env, s: Sys, p: Handle, base: nat, image: Mem, starts: set<nat>, s': Sys)
    requires Inv(env, s) && LoadStep(env, s, p, base, image, starts, s')
    ensures Inv(env, s') && Simulates(env, s, Debuggee(Load(p, base, image, starts)), s')
  {
    hide CpuOk, NativeTrap, LoadOk, LoadEffect, ImageOk, ProcessOk, ProcessesOk, ThreadsOk, StateOk, NoneIn, ModuleRegistered;
    LoadEffects(env, s, p, base, image, starts, s');
    LoadState(env, s, p, base, image, starts, s');
    forall q | q in s'.processes ensures ProcessInv(env, s', q) {
      LoadProcess(env, s, p, base, image, starts, s', q);
    }
    assert ProcessesOk(env, s') by { AllProcesses(env, s'); }
    forall u | u in s'.threads ensures ThreadOk(env, s', u) && NativeThread(env, s', u) == NativeThread(env, s, u) {
      LoadThread(env, s, p, base, image, starts, s', u);
    }
    assert ThreadsOk(env, s') by { AllThreads(env, s'); }
    assert Abs(env, s').threads == Abs(env, s).threads;
  }

  lemma AllProcesses(env: Env, s: Sys)
    requires Shaped(s) && forall q :: q in s.processes ==> ProcessInv(env, s, q)
    ensures ProcessesOk(env, s)
  {
  }

  lemma AllThreads(env: Env, s: Sys)
    requires Shaped(s) && forall u :: u in s.threads ==> ThreadOk(env, s, u)
    ensures ThreadsOk(env, s)
  {
  }

  lemma LoadState(env: Env, s: Sys, p: Handle, base: nat, image: Mem, starts: set<nat>, s': Sys)
    requires Inv(env, s) && LoadStep(env, s, p, base, image, starts, s') && p in s'.view.memory
    requires LoadEffect(env.trap, p, starts, s.view.manager, s.view.memory[p] + image, s'.view.manager, s'.view.memory[p])
    ensures StateOk(s')
  {
    hide ProcessesOk, ThreadsOk, CpuOk, LoadStep, NewPlanted, OldReadsKept, RecordsKept, Valid, ConditionsHaveLines;
    assert s'.processes.Keys == s.processes.Keys && p in s.processes by { LoadKeys(env, s, p, base, image, starts, s'); }
    var g, g' := s.view.manager, s'.view.manager;
    forall a | a in g'.addressLineMap ensures a.process in s'.processes {
      if a.process != p {
        assert SameEntry(g, g', a);
      }
    }
    forall a | a in g'.conditionSiteMap ensures a.process in s'.processes {
      if a.process != p {
        assert SameSite(g, g', a);
      }
    }
  }

  lemma LoadKeys(env: Env, s: Sys, p: Handle, base: nat, image: Mem, starts: set<nat>, s': Sys)
    requires Shaped(s) && LoadStep(env, s, p, base, image, starts, s')
    ensures s'.processes.Keys == s.processes.Keys && p in s.processes
  {
  }

  lemma LoadProcess(env: Env, s: Sys, p: Handle, base: nat, image: Mem, starts: set<nat>, s': Sys, q: Handle)
    requires Inv(env, s) && LoadStep(env, s, p, base, image, starts, s') && Shaped(s') && q in s'.processes
    requires ImageOk(env.cpu, |env.trap|, s'.processes[p])
    requires ProcessOk(env.trap, p, s'.processes[p], s'.view.manager, s'.view.memory[p])
    requires LoadEffect(env.trap, p, starts, s.view.manager, s.view.memory[p] + image, s'.view.manager, s'.view.memory[p])
    ensures ProcessInv(env, s', q)
  {
    assert ProcessInv(env, s, q);
    hide ProcessesOk, ThreadsOk, CpuOk, StateOk, NewPlanted, OldReadsKept, RecordsKept, Valid, ConditionsHaveLines,
         ModuleRegistered, LoadOk, ImageOk;
    if q != p {
      OtherProcessKept(env.trap, p, starts, s.view.manager, s'.view.manager, q, s.processes[q], s.view.memory[q]);
    }
  }

  /** Registering a module of process p leaves the other processes alone. */
  lemma OtherProcessKept(trap: Instruction, p: Handle, starts: set<nat>, g: State, g': State, q: Handle, proc: Process, m: Mem)
    requires OthersUntouched(p, starts, g, g') && q != p && ProcessOk(trap, q, proc, g, m)
    ensures ProcessOk(trap, q, proc, g', m)
  {
    hide EntryOk;
    forall a | Address(q, a) in g'.addressLineMap ensures EntryOk(trap, proc, m, a, g'.addressLineMap[Address(q, a)]) {
      assert SameEntry(g, g', Address(q, a));
    }
    forall a | Address(q, a) in g'.conditionSiteMap ensures SiteOk(g', Address(q, a)) {
      assert SameSite(g, g', Address(q, a)) && SameEntry(g, g', Address(q, a));
      assert SiteOk(g, Address(q, a));
    }
    forall x: nat | Covered(g, q, x, |trap|) ensures Covered(g', q, x, |trap|) {
      var a: nat :| Address(q, a) in g.addressLineMap && a <= x < a + |trap|;
      assert SameEntry(g, g', Address(q, a));
    }
  }

  lemma LoadThread(env: Env, s: Sys, p: Handle, base: nat, image: Mem, starts: set<nat>, s': Sys, u: ThreadId)
    requires Inv(env, s) && LoadStep(env, s, p, base, image, starts, s') && Shaped(s') && u in s.threads
    requires LoadEffect(env.trap, p, starts, s.view.manager, s.view.memory[p] + image, s'.view.manager, s'.view.memory[p])
    ensures ThreadOk(env, s', u) && NativeThread(env, s', u) == NativeThread(env, s, u)
  {
    var q := s.threads[u].process;
    assert ThreadOk(env, s, u) && ProcessInv(env, s, q);
    if s.threads[u].status.TrapQueued? {
      LoadedTrap(env, s, p, base, image, starts, s', u);
    }
    hide Inv, ImageOk, ProcessOk, NativeTrap, ThreadOk, LoadEffect, ModuleRegistered, LoadOk;
    ThreadKept(env, s, s', u);
  }

  lemma LoadedTrap(env: Env, s: Sys, p: Handle, base: nat, image: Mem, starts: set<nat>, s': Sys, u: ThreadId)
    requires Inv(env, s) && LoadStep(env, s, p, base, image, starts, s') && Shaped(s') && u in s.threads
    requires OthersUntouched(p, starts, s.view.manager, s'.view.manager)
    requires s.threads[u].status.TrapQueued?
    ensures var a := s.threads[u].status.address;
      && a in CodeOf(s', u).starts && (NativeTrap(env, CodeOf(s', u), a) <==> NativeTrap(env, CodeOf(s, u), a))
      && (Address(s.threads[u].process, a) in s.view.manager.addressLineMap ==>
            Address(s.threads[u].process, a) in s'.view.manager.addressLineMap)
  {
    var q := s.threads[u].process;
    var a := s.threads[u].status.address;
    assert ThreadOk(env, s, u) && ProcessInv(env, s, q);
    hide Inv, ImageOk, ProcessOk, NativeTrap, LoadOk, ModuleRegistered, Loaded;
    if q == p {
      LoadedKeepsTrap(env, s.processes[p], base, image, starts, a);
    }
    assert SameEntry(s.view.manager, s'.view.manager, Address(q, a));
  }

  /** A boundary of an old module keeps its bytes and is not in the new module. */
  lemma LoadedKeepsTrap(env: Env, proc: Process, base: nat, image: Mem, starts: set<nat>, a: nat)
    requires CpuOk(env.cpu, env.trap) && ImageOk(env.cpu, |env.trap|, proc) && a in proc.starts
    requires LoadOk(env.cpu, |env.trap|, proc, base, image, starts)
    ensures a !in starts && a in Loaded(proc, base, image, starts).starts
    ensures NativeTrap(env, Loaded(proc, base, image, starts), a) <==> NativeTrap(env, proc, a)
  {
    assert StartOk(env.cpu, |env.trap|, proc.code, proc.starts, a);
    StartMapped(env.cpu, env.trap, proc.code, proc.starts, a);
    ReadBytes(proc.code, proc.code + image, a, |env.trap|);
    if a in starts {
      StartMapped(env.cpu, env.trap, image, starts, a);
    }
  }

  // ----- Every step ---------------------------------------------------------------------------------

  /**
   Every transition keeps the invariant and is either the native step of its
   event or invisible to the native machine.
   */
  lemma StepCorrect(env: Env, s: Sys, e: Event, s': Sys)
    requires Inv(env, s) && Next(env, s, e, s')
    ensures Inv(env, s') && Simulates(env, s, e, s')
  {
    hide Inv, Simulates, HandleStepOf, RunStep, LoadStep, CanUnload, AfterUnload, AfterExitProcess;
    assert Shaped(s) by { InvShaped(env, s); }
    match e
    case HandleTrap(t) =>
      HandleTrapCorrect(env, s, t, s');
      InvShaped(env, s');
      HandledSimulates(env, s, e, s');
    case HandleStep(t) =>
      HandleStepCorrect(env, s, t, s');
      InvShaped(env, s');
      HandledSimulates(env, s, e, s');
    case Debuggee(step) =>
      match step
      case CreateProcess(p, heap, trapCode) => CreateProcessCorrect(env, s, p, heap, trapCode);
      case ExitProcess(p) => ExitProcessCorrect(env, s, p);
      case CreateThread(t, p, pc, regs) => CreateThreadCorrect(env, s, t, p, pc, regs);
      case ExitThread(t) => ExitThreadCorrect(env, s, t);
      case Load(p, base, image, starts) => LoadCorrect(env, s, p, base, image, starts, s');
      case Unload(p, base) => UnloadCorrect(env, s, p, base);
      case Run(t) => RunCorrect(env, s, t, s');
  }

  lemma InvShaped(env: Env, s: Sys)
    requires Inv(env, s)
    ensures Shaped(s) && SitesHaveRecords(s.view.manager)
  {
  }

  lemma HandledSimulates(env: Env, s: Sys, e: Event, s': Sys)
    requires Shaped(s) && Shaped(s') && !e.Debuggee? && Abs(env, s') == Abs(env, s)
    ensures Simulates(env, s, e, s')
  {
  }

  // ----- Whole runs ----------------------------------------------------------------------------------

  ghost predicate IsRun(env: Env, run: seq<Sys>, events: seq<Event>) {
    && |run| == |events| + 1 && run[0] == INITIAL
    && forall i :: 0 <= i < |events| ==> Shaped(run[i]) && Next(env, run[i], events[i], run[i + 1])
  }

  lemma RunLength(env: Env, run: seq<Sys>, events: seq<Event>)
    requires IsRun(env, run, events)
    ensures |run| == |events| + 1
  {
  }

  lemma RunPrefix(env: Env, run: seq<Sys>, events: seq<Event>)
    requires IsRun(env, run, events) && events != []
    ensures IsRun(env, run[..|events|], events[..|events| - 1])
  {
    var n := |events| - 1;
    forall i | 0 <= i < n
      ensures Shaped(run[..n + 1][i]) && Next(env, run[..n + 1][i], events[..n][i], run[..n + 1][i + 1])
    {
      assert run[..n + 1][i] == run[i] && run[..n + 1][i + 1] == run[i + 1];
    }
  }

  lemma PrefixIsRun(env: Env, run: seq<Sys>, events: seq<Event>, n: nat)
    requires IsRun(env, run, events) && n <= |events|
    ensures IsRun(env, run[..n + 1], events[..n])
  {
    hide Next;
    forall i | 0 <= i < n
      ensures Shaped(run[..n + 1][i]) && Next(env, run[..n + 1][i], events[..n][i], run[..n + 1][i + 1])
    {
      assert run[..n + 1][i] == run[i] && run[..n + 1][i + 1] == run[i + 1];
    }
  }

  /** The invariant holds at the end of every run, hence in every reachable state. */
  lemma {:induction false} ReachableInv(env: Env, run: seq<Sys>, events: seq<Event>)
    requires CpuOk(env.cpu, env.trap) && IsRun(env, run, events)
    ensures Inv(env, run[|events|])
  {
    if events != [] {
      var n := |events| - 1;
      RunPrefix(env, run, events);
      ReachableInv(env, run[..n + 1], events[..n]);
      assert run[..n + 1][n] == run[n];
      StepCorrect(env, run[n], events[n], run[n + 1]);
    }
  }

  /** A byte of a planted trap: the address is registered, and its saved instruction is the original, not the trap. */
  ghost predicate InPlantedTrap(trap: Instruction, p: Handle, code: Mem, g: State, m: Mem, x: nat) {
    exists a: nat ::
      && Address(p, a) in g.addressLineMap && a <= x < a + |trap| && Holds(m, a, trap)
      && Holds(code, a, g.addressLineMap[Address(p, a)].instructionToRestore) && !Holds(code, a, trap)
  }

  lemma OriginalOrPlanted(trap: Instruction, p: Handle, proc: Process, g: State, m: Mem, x: nat)
    requires ProcessOk(trap, p, proc, g, m) && x in m
    ensures m[x] == proc.code[x] || InPlantedTrap(trap, p, proc.code, g, m, x)
  {
    if m[x] != proc.code[x] {
      var a: nat :| Address(p, a) in g.addressLineMap && a <= x < a + |trap|;
      EntryFacts(trap, p, proc, g, m, a);
      ReadBytes(m, proc.code, a, |trap|);
    }
  }

  /** In every reachable state each byte of a process is original or belongs to a planted trap of ours. */
  lemma MemoryOriginalOrPlanted(env: Env, run: seq<Sys>, events: seq<Event>, p: Handle, x: nat)
    requires CpuOk(env.cpu, env.trap) && IsRun(env, run, events)
    ensures Shaped(run[|events|])
    ensures var s := run[|events|];
      p in s.processes ==>
        && s.view.memory[p].Keys == s.processes[p].code.Keys
        && (x in s.view.memory[p] ==>
              || s.view.memory[p][x] == s.processes[p].code[x]
              || InPlantedTrap(env.trap, p, s.processes[p].code, s.view.manager, s.view.memory[p], x))
  {
    ReachableInv(env, run, events);
    var s := run[|events|];
    hide CpuOk, StateOk, ThreadsOk, ImageOk, InPlantedTrap;
    if p in s.processes && x in s.view.memory[p] {
      assert ProcessInv(env, s, p);
      OriginalOrPlanted(env.trap, p, s.processes[p], s.view.manager, s.view.memory[p], x);
    } else if p in s.processes {
      assert ProcessInv(env, s, p);
    }
  }

  /** The debuggee's own steps of a run: everything but stops at planted traps and the debugger's handling. */
  ghost function Erase(env: Env, run: seq<Sys>, events: seq<Event>): seq<Step>
    requires IsRun(env, run, events)
  {
    if events == [] then [] else
    var n := |events| - 1;
    RunPrefix(env, run, events);
    Erase(env, run[..n + 1], events[..n]) +
      if events[n].Debuggee? && !(events[n].step.Run? && Stopped(env, run[n], events[n].step.t))
      then [events[n].step] else []
  }

  ghost predicate NativeRun(env: Env, machines: seq<Machine>, steps: seq<Step>) {
    && |machines| == |steps| + 1 && machines[0] == Machine(map[], map[])
    && forall i :: 0 <= i < |steps| ==> NativeStep(env.cpu, env.trap, machines[i], steps[i], machines[i + 1])
  }

  /**
   Execution transparency.  Under any interleaving of threads, traps, steps,
   replants, loads and unloads, erasing the tool's events leaves a run of the
   native machine: the same instructions, in the same order, with the same
   effects, ending with every thread where it stands natively.
   */
  lemma {:induction false} Transparency(env: Env, run: seq<Sys>, events: seq<Event>) returns (machines: seq<Machine>)
    requires CpuOk(env.cpu, env.trap) && IsRun(env, run, events)
    ensures Shaped(run[|events|])
    ensures NativeRun(env, machines, Erase(env, run, events))
    ensures machines[|machines| - 1] == Abs(env, run[|events|])
  {
    hide Next, NativeStep, CpuOk, Inv, Abs;
    ReachableInv(env, run, events);
    InvShaped(env, run[|events|]);
    if events == [] {
      machines := [Machine(map[], map[])];
      InitialMachine(env);
    } else {
      var n := |events| - 1;
      RunPrefix(env, run, events);
      var before := Transparency(env, run[..n + 1], events[..n]);
      assert run[..n + 1][n] == run[n];
      ReachableInv(env, run[..n + 1], events[..n]);
      StepCorrect(env, run[n], events[n], run[n + 1]);
      machines := ExtendNative(env, run[n], events[n], run[n + 1], before, Erase(env, run[..n + 1], events[..n]));
    }
  }

  lemma InitialMachine(env: Env)
    ensures Shaped(INITIAL) && Abs(env, INITIAL) == Machine(map[], map[])
  {
  }

  lemma ExtendNative(env: Env, s: Sys, e: Event, s': Sys, before: seq<Machine>, steps: seq<Step>)
    returns (machines: seq<Machine>)
    requires Shaped(s) && Shaped(s') && Simulates(env, s, e, s')
    requires NativeRun(env, before, steps) && before[|before| - 1] == Abs(env, s)
    ensures NativeRun(env, machines, steps +
      if e.Debuggee? && !(e.step.Run? && Stopped(env, s, e.step.t)) then [e.step] else [])
    ensures machines[|machines| - 1] == Abs(env, s')
  {
    hide NativeStep, Abs, Stopped;
    if e.Debuggee? && !(e.step.Run? && Stopped(env, s, e.step.t)) {
      machines := before + [Abs(env, s')];
      var all := steps + [e.step];
      forall i | 0 <= i < |all| ensures NativeStep(env.cpu, env.trap, machines[i], all[i], machines[i + 1]) {
        if i < |steps| {
          assert machines[i] == before[i] && machines[i + 1] == before[i + 1] && all[i] == steps[i];
        }
      }
    } else {
      machines := before;
      assert steps + [] == steps;
    }
  }
}
