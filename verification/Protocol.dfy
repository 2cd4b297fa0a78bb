/**
 The breakpoint and single-step protocol as a concurrent system: several
 processes and threads, traps and steps queued until the debugger handles them
 in any order, module loads and unloads.  The handlers are those of
 CoverageRunners.
 */
module Protocol {
  import opened Common
  import opened Memory
  import opened Debuggees
  import opened BreakPoints
  import opened AddressManagers
  import opened SiteEnumerators
  import opened LineRegisters
  import opened StepTracking
  import opened CoverageRunners
  import opened NativeMachine
  import opened MemoryInvariant
  import opened ModuleLoad

  datatype Env = Env(cpu: Cpu, trap: Instruction, branch: bool)

  /** A thread runs, or is blocked until its trap at an address or its finished step is handled. */
  datatype Status = Running | TrapQueued(address: nat) | StepQueued(landing: nat)

  datatype Worker = Worker(process: Handle, regs: Regs, status: Status)

  datatype Sys = Sys(processes: map<Handle, Process>, threads: map<ThreadId, Worker>, view: View)

  datatype Event = Debuggee(step: Step) | HandleTrap(t: ThreadId) | HandleStep(t: ThreadId)

  // ----- The abstraction to the native machine -----------------------------------------------

  /** An original breakpoint instruction, such as the loader's or a DebugBreak. */
  ghost predicate NativeTrap(env: Env, proc: Process, a: nat) {
    Holds(proc.code, a, env.trap)
  }

  /** Where the thread stands natively: at a planted trap it has not executed anything yet. */
  ghost function NativePc(env: Env, proc: Process, worker: Worker, context: Context): nat {
    if worker.status.TrapQueued? && !NativeTrap(env, proc, worker.status.address)
    then worker.status.address else context.pc
  }

  ghost predicate Shaped(s: Sys) {
    && s.view.memory.Keys == s.processes.Keys
    && s.view.contexts.Keys == s.threads.Keys
    && forall t :: t in s.threads ==> s.threads[t].process in s.processes
  }

  ghost function NativeThread(env: Env, s: Sys, t: ThreadId): Thread
    requires Shaped(s) && t in s.threads
  {
    var worker := s.threads[t];
    Thread(worker.process, NativePc(env, s.processes[worker.process], worker, s.view.contexts[t]), worker.regs)
  }

  ghost function Abs(env: Env, s: Sys): Machine
    requires Shaped(s)
  {
    Machine(s.processes, map t | t in s.threads :: NativeThread(env, s, t))
  }

  // ----- Transitions ---------------------------------------------------------------------------

  ghost function PcOf(s: Sys, t: ThreadId): nat
    requires Shaped(s) && t in s.threads
  {
    s.view.contexts[t].pc
  }

  ghost function MemoryOf(s: Sys, t: ThreadId): Mem
    requires Shaped(s) && t in s.threads
  {
    s.view.memory[s.threads[t].process]
  }

  ghost function CodeOf(s: Sys, t: ThreadId): Process
    requires Shaped(s) && t in s.threads
  {
    s.processes[s.threads[t].process]
  }

  /** Whether the instruction pointer of thread t is at an address of ours. */
  ghost predicate AtOurs(s: Sys, t: ThreadId)
    requires Shaped(s) && t in s.threads
  {
    Address(s.threads[t].process, PcOf(s, t)) in s.view.manager.addressLineMap
  }

  /** A trap has stopped thread t just after the trap instruction. */
  ghost function AfterTrap(env: Env, s: Sys, t: ThreadId): Sys
    requires Shaped(s) && t in s.threads
  {
    var context := s.view.contexts[t];
    s.(threads := s.threads[t := s.threads[t].(status := TrapQueued(context.pc))],
       view := s.view.(contexts := s.view.contexts[t := context.(pc := context.pc + |env.trap|)]))
  }

  /** Thread t has executed the given instruction; with the single-step flag it then stops. */
  ghost function AfterExec(env: Env, s: Sys, t: ThreadId, bytes: Instruction): Sys
    requires Shaped(s) && t in s.threads
  {
    var worker, proc, context := s.threads[t], CodeOf(s, t), s.view.contexts[t];
    var (pc, regs, heap) := env.cpu.exec(context.pc, bytes, worker.regs, proc.heap);
    Sys(s.processes[worker.process := proc.(heap := heap)],
        s.threads[t := Worker(worker.process, regs, if context.singleStep then StepQueued(pc) else Running)],
        s.view.(contexts := s.view.contexts[t := Context(pc, false)]))
  }

  /** Thread t executes one instruction, or is stopped by a trap in the memory. */
  ghost predicate RunStep(env: Env, s: Sys, t: ThreadId, s': Sys)
    requires Shaped(s)
  {
    && t in s.threads && s.threads[t].status == Running && PcOf(s, t) in CodeOf(s, t).starts
    && match env.cpu.fetch(MemoryOf(s, t), PcOf(s, t))
       case None => false
       case Some(bytes) =>
         if bytes == env.trap then
           // The first breakpoint event of a process is the loader's own.
           && (AtOurs(s, t) ==> (CodeOf(s, t).trapCode, s.threads[t].process) in s.view.seen)
           && s' == AfterTrap(env, s, t)
         else
           s' == AfterExec(env, s, t, bytes)
  }

  /** The event of thread t, as the debugger receives it. */
  ghost function EventCode(s: Sys, t: ThreadId): (int, nat)
    requires Shaped(s) && t in s.threads && !s.threads[t].status.Running?
  {
    match s.threads[t].status
    case TrapQueued(a) => (s.processes[s.threads[t].process].trapCode, a)
    case StepQueued(landing) => (EXCEPTION_SINGLE_STEP, landing)
  }

  /** The debugger handles the event of thread t and lets it run again. */
  ghost predicate HandleStepOf(env: Env, s: Sys, t: ThreadId, s': Sys)
    requires Shaped(s)
  {
    && t in s.threads && !s.threads[t].status.Running?
    && var (code, a) := EventCode(s, t);
       var p := s.threads[t].process;
       && SitesHaveRecords(s.view.manager)
       && Serviceable(env.trap, s.view, p, t, code, true, a)
       && s' == Sys(s.processes, s.threads[t := s.threads[t].(status := Running)],
                    ExceptionHandled(env.trap, env.branch, s.view, p, t, code, true, a).0)
  }

  /** A module is mapped; its source files are registered when it is selected. */
  ghost predicate LoadStep(env: Env, s: Sys, p: Handle, base: nat, image: Mem, starts: set<nat>, s': Sys)
    requires Shaped(s)
  {
    && p in s.processes && LoadOk(env.cpu, |env.trap|, s.processes[p], base, image, starts)
    && s'.processes == s.processes[p := Loaded(s.processes[p], base, image, starts)]
    && s'.threads == s.threads
    && s'.view == s.view.(manager := s'.view.manager, memory := s'.view.memory)
    && s'.view.memory.Keys == s.view.memory.Keys
    && (forall q :: q in s.view.memory && q != p ==> s'.view.memory[q] == s.view.memory[q])
    && (|| (s'.view.manager == s.view.manager && s'.view.memory[p] == s.view.memory[p] + image)
        || ModuleRegistered(env.trap, env.branch, p, s'.processes[p], base, starts, s.view.manager, s.view.memory[p] + image,
                            s'.view.manager, s'.view.memory[p]))
  }

  /** No thread stands in the module, and no finished step over one of its branches is still queued. */
  ghost predicate Unused(env: Env, s: Sys, p: Handle, region: set<nat>)
    requires Shaped(s)
  {
    forall t :: t in s.threads && s.threads[t].process == p ==>
      && NativeThread(env, s, t).pc !in region
      && (s.threads[t].status.TrapQueued? ==> s.threads[t].status.address !in region)
      && (s.threads[t].status.StepQueued? && t in s.view.pending ==> s.view.pending[t].siteAddress !in region)
  }

  ghost function AfterCreateProcess(s: Sys, p: Handle, heap: Heap, trapCode: int): Sys {
    s.(processes := s.processes[p := Process(map[], {}, map[], heap, trapCode)],
       view := s.view.(memory := s.view.memory[p := map[]]))
  }

  ghost function AfterExitProcess(s: Sys, p: Handle): Sys
    requires Shaped(s)
  {
    Sys(s.processes - {p},
        map t | t in s.threads && s.threads[t].process != p :: s.threads[t],
        ProcessExited(s.view, p).(
          memory := s.view.memory - {p},
          contexts := map t | t in s.threads && s.threads[t].process != p :: s.view.contexts[t]))
  }

  ghost function AfterCreateThread(s: Sys, t: ThreadId, p: Handle, pc: nat, regs: Regs): Sys {
    s.(threads := s.threads[t := Worker(p, regs, Running)],
       view := s.view.(contexts := s.view.contexts[t := Context(pc, false)]))
  }

  ghost function AfterExitThread(s: Sys, t: ThreadId): Sys {
    s.(threads := s.threads - {t}, view := s.view.(contexts := s.view.contexts - {t}))
  }

  ghost function AfterUnload(s: Sys, p: Handle, base: nat): Sys
    requires Shaped(s) && p in s.processes && base in s.processes[p].modules
  {
    s.(processes := s.processes[p := Unloaded(s.processes[p], base)],
       view := ModuleUnloaded(s.view, p, base).(
         memory := s.view.memory[p := s.view.memory[p] - s.processes[p].modules[base]]))
  }

  ghost predicate CanUnload(env: Env, s: Sys, p: Handle, base: nat)
    requires Shaped(s)
  {
    p in s.processes && base in s.processes[p].modules && Unused(env, s, p, s.processes[p].modules[base])
  }

  ghost predicate IsTrapCode(code: int) {
    code == EXCEPTION_BREAKPOINT || code == EXCEPTION_EMULATION_X86
  }

  ghost predicate DebuggeeStep(env: Env, s: Sys, e: Step, s': Sys)
    requires Shaped(s)
  {
    match e
    case CreateProcess(p, heap, trapCode) =>
      p !in s.processes && IsTrapCode(trapCode) && s' == AfterCreateProcess(s, p, heap, trapCode)
    case ExitProcess(p) => p in s.processes && s' == AfterExitProcess(s, p)
    case CreateThread(t, p, pc, regs) =>
      t !in s.threads && p in s.processes && s' == AfterCreateThread(s, t, p, pc, regs)
    case ExitThread(t) => t in s.threads && s.threads[t].status == Running && s' == AfterExitThread(s, t)
    case Load(p, base, image, starts) => LoadStep(env, s, p, base, image, starts, s')
    case Unload(p, base) => CanUnload(env, s, p, base) && s' == AfterUnload(s, p, base)
    case Run(t) => RunStep(env, s, t, s')
  }

  ghost predicate Next(env: Env, s: Sys, e: Event, s': Sys)
    requires Shaped(s)
  {
    match e
    case Debuggee(step) => DebuggeeStep(env, s, step, s')
    case HandleTrap(t) => t in s.threads && s.threads[t].status.TrapQueued? && HandleStepOf(env, s, t, s')
    case HandleStep(t) => t in s.threads && s.threads[t].status.StepQueued? && HandleStepOf(env, s, t, s')
  }

  const INITIAL := Sys(map[], map[], View(EMPTY, map[], {}, map[], map[]))

  // ----- The invariant ----------------------------------------------------------------------------

  /** A queued trap is at a boundary and is either original or ours; ours only after the loader's breakpoint. */
  ghost predicate ThreadOk(env: Env, s: Sys, t: ThreadId)
    requires Shaped(s) && t in s.threads
  {
    var p := s.threads[t].process;
    match s.threads[t].status
    case Running => true
    case StepQueued(landing) => s.view.contexts[t] == Context(landing, false)
    case TrapQueued(a) =>
      && s.view.contexts[t].pc == a + |env.trap| && a in s.processes[p].starts
      && (NativeTrap(env, s.processes[p], a) ||
          (Address(p, a) in s.view.manager.addressLineMap && (s.processes[p].trapCode, p) in s.view.seen))
  }

  ghost predicate ProcessInv(env: Env, s: Sys, p: Handle)
    requires Shaped(s) && p in s.processes
  {
    && ImageOk(env.cpu, |env.trap|, s.processes[p])
    && ProcessOk(env.trap, p, s.processes[p], s.view.manager, s.view.memory[p])
    && IsTrapCode(s.processes[p].trapCode)
  }

  /** The bookkeeping on its own. */
  ghost predicate StateOk(s: Sys) {
    && Valid(s.view.manager) && ConditionsHaveLines(s.view.manager)
    && (forall a :: a in s.view.manager.addressLineMap ==> a.process in s.processes)
    && (forall a :: a in s.view.manager.conditionSiteMap ==> a.process in s.processes)
  }

  ghost predicate ProcessesOk(env: Env, s: Sys)
    requires Shaped(s)
  {
    forall p :: p in s.processes ==> ProcessInv(env, s, p)
  }

  ghost predicate ThreadsOk(env: Env, s: Sys)
    requires Shaped(s)
  {
    forall t :: t in s.threads ==> ThreadOk(env, s, t)
  }

  ghost predicate Inv(env: Env, s: Sys) {
    CpuOk(env.cpu, env.trap) && Shaped(s) && StateOk(s) && ProcessesOk(env, s) && ThreadsOk(env, s)
  }

  /** The step that the native machine makes, if any. */
  ghost predicate Simulates(env: Env, s: Sys, e: Event, s': Sys)
    requires Shaped(s) && Shaped(s')
  {
    if e.Debuggee? && !(e.step.Run? && Stopped(env, s, e.step.t)) then
      NativeStep(env.cpu, env.trap, Abs(env, s), e.step, Abs(env, s'))
    else
      Abs(env, s') == Abs(env, s)
  }

  /** Thread t is about to be stopped by a planted trap. */
  ghost predicate Stopped(env: Env, s: Sys, t: ThreadId)
    requires Shaped(s)
  {
    t in s.threads && AtOurs(s, t) && IsPlanted(env.trap, MemoryOf(s, t), PcOf(s, t))
  }

  // ----- Running: stops and native instructions ---------------------------------------------------------

  /** What a run step of thread t is, seen from the native machine. */
  lemma RunCases(env: Env, s: Sys, t: ThreadId, s': Sys)
    requires Inv(env, s) && RunStep(env, s, t, s')
    ensures Shaped(s) && t in s.threads && s.threads[t].status == Running
    ensures env.cpu.fetch(CodeOf(s, t).code, PcOf(s, t)).Some?
    ensures var bytes := env.cpu.fetch(CodeOf(s, t).code, PcOf(s, t)).value;
      if Stopped(env, s, t) then
        && s' == AfterTrap(env, s, t) && !NativeTrap(env, CodeOf(s, t), PcOf(s, t))
        && (CodeOf(s, t).trapCode, s.threads[t].process) in s.view.seen
      else if bytes == env.trap then
        s' == AfterTrap(env, s, t) && NativeTrap(env, CodeOf(s, t), PcOf(s, t))
      else s' == AfterExec(env, s, t, bytes)
  {
    hide StateOk, ThreadsOk, ImageOk, ProcessOk, StartOk, Mapped, CpuOk, NativeTrap;
    var p, pc := s.threads[t].process, PcOf(s, t);
    assert ProcessInv(env, s, p);
    FetchOriginalOrTrap(env.cpu, env.trap, p, CodeOf(s, t), s.view.manager, MemoryOf(s, t), pc);
    TrapIffFetched(env, CodeOf(s, t), pc);
  }

  lemma TrapIffFetched(env: Env, proc: Process, a: nat)
    requires CpuOk(env.cpu, env.trap)
    ensures env.cpu.fetch(proc.code, a) == Some(env.trap) <==> NativeTrap(env, proc, a)
  {
    var m := proc.code;
    assert env.cpu.fetch(m, a).Some? ==> Holds(m, a, env.cpu.fetch(m, a).value);
  }

  /** A transition that changes neither memory nor bookkeeping keeps every process sound. */
  lemma SameProcesses(env: Env, s: Sys, s': Sys)
    requires Shaped(s) && Shaped(s') && ProcessesOk(env, s)
    requires s'.view.manager == s.view.manager && s'.view.memory == s.view.memory
    requires forall p :: p in s'.processes ==> p in s.processes && s'.processes[p] == s.processes[p].(heap := s'.processes[p].heap)
    ensures ProcessesOk(env, s')
  {
    hide ImageOk, ProcessOk;
    forall p | p in s'.processes ensures ProcessInv(env, s', p) {
      assert ProcessInv(env, s, p);
      HeapIrrelevant(env, p, s.processes[p], s'.processes[p], s.view.manager, s.view.memory[p]);
    }
  }

  lemma TrapInv(env: Env, s: Sys, t: ThreadId)
    requires Inv(env, s) && t in s.threads && PcOf(s, t) in CodeOf(s, t).starts
    requires NativeTrap(env, CodeOf(s, t), PcOf(s, t)) ||
             (AtOurs(s, t) && (CodeOf(s, t).trapCode, s.threads[t].process) in s.view.seen)
    ensures Inv(env, AfterTrap(env, s, t))
  {
    hide CpuOk, ProcessesOk, NativeTrap, Valid, ConditionsHaveLines;
    var s' := AfterTrap(env, s, t);
    SameProcesses(env, s, s');
    forall u | u in s'.threads ensures ThreadOk(env, s', u) {
      assert ThreadOk(env, s, u);
    }
  }

  lemma ExecInv(env: Env, s: Sys, t: ThreadId, bytes: Instruction)
    requires Inv(env, s) && t in s.threads
    ensures Inv(env, AfterExec(env, s, t, bytes))
  {
    hide CpuOk, ProcessesOk, Mapped, Read, Valid, ConditionsHaveLines;
    var s' := AfterExec(env, s, t, bytes);
    SameProcesses(env, s, s');
    forall u | u in s'.threads ensures ThreadOk(env, s', u) {
      assert ThreadOk(env, s, u);
    }
  }

  /** The invariant of a process does not look at its data. */
  lemma HeapIrrelevant(env: Env, p: Handle, proc: Process, proc': Process, s: State, m: Mem)
    requires ImageOk(env.cpu, |env.trap|, proc) && ProcessOk(env.trap, p, proc, s, m)
    requires proc' == proc.(heap := proc'.heap)
    ensures ImageOk(env.cpu, |env.trap|, proc') && ProcessOk(env.trap, p, proc', s, m)
  {
    forall a | a in proc'.starts ensures OwnedStart(env.cpu, proc', a) && StartOk(env.cpu, |env.trap|, proc'.code, proc'.starts, a) {
      assert OwnedStart(env.cpu, proc, a) && StartOk(env.cpu, |env.trap|, proc.code, proc.starts, a);
    }
    forall a | Address(p, a) in s.addressLineMap ensures EntryOk(env.trap, proc', m, a, s.addressLineMap[Address(p, a)]) {
      assert EntryOk(env.trap, proc, m, a, s.addressLineMap[Address(p, a)]);
    }
  }

  /** Threads whose context and status did not change stand where they stood natively. */
  lemma SameNativeThread(env: Env, s: Sys, s': Sys, u: ThreadId)
    requires Shaped(s) && Shaped(s') && u in s.threads && u in s'.threads
    requires s'.threads[u] == s.threads[u] && s'.view.contexts[u] == s.view.contexts[u]
    requires CodeOf(s', u).code == CodeOf(s, u).code
    ensures NativeThread(env, s', u) == NativeThread(env, s, u)
  {
  }

  lemma RunCorrect(env: Env, s: Sys, t: ThreadId, s': Sys)
    requires Inv(env, s) && RunStep(env, s, t, s')
    ensures Inv(env, s') && Simulates(env, s, Debuggee(Run(t)), s')
  {
    hide CpuOk, ProcessesOk, ThreadsOk, StateOk, IsPlanted, NativeTrap, Simulates, AfterTrap, AfterExec;
    RunCases(env, s, t, s');
    var bytes := env.cpu.fetch(CodeOf(s, t).code, PcOf(s, t)).value;
    if Stopped(env, s, t) {
      TrapInv(env, s, t);
      StoppedSimulates(env, s, t);
    } else if bytes == env.trap {
      TrapInv(env, s, t);
      NativeTrapSimulates(env, s, t);
    } else {
      ExecInv(env, s, t, bytes);
      ExecSimulates(env, s, t, bytes);
    }
  }

  /** Only thread t moves in a run step. */
  lemma OnlyOneMoves(env: Env, s: Sys, t: ThreadId, s': Sys)
    requires Shaped(s) && Shaped(s') && t in s.threads
    requires s' == AfterTrap(env, s, t) || exists bytes :: s' == AfterExec(env, s, t, bytes)
    ensures s'.threads.Keys == s.threads.Keys
    ensures forall u :: u in s.threads && u != t ==> NativeThread(env, s', u) == NativeThread(env, s, u)
  {
    forall u | u in s.threads && u != t ensures NativeThread(env, s', u) == NativeThread(env, s, u) {
      SameNativeThread(env, s, s', u);
    }
  }

  /** A planted trap is a stuttering step: natively the thread has not moved. */
  lemma StoppedSimulates(env: Env, s: Sys, t: ThreadId)
    requires Shaped(s) && Stopped(env, s, t) && Shaped(AfterTrap(env, s, t)) && s.threads[t].status == Running
    requires !NativeTrap(env, CodeOf(s, t), PcOf(s, t))
    ensures Simulates(env, s, Debuggee(Run(t)), AfterTrap(env, s, t))
  {
    hide IsPlanted, NativeTrap, AtOurs;
    var s' := AfterTrap(env, s, t);
    OnlyOneMoves(env, s, t, s');
    assert NativeThread(env, s', t) == NativeThread(env, s, t);
    assert Abs(env, s').threads == Abs(env, s).threads;
  }

  lemma NativeTrapSimulates(env: Env, s: Sys, t: ThreadId)
    requires Shaped(s) && t in s.threads && Shaped(AfterTrap(env, s, t)) && s.threads[t].status == Running
    requires PcOf(s, t) in CodeOf(s, t).starts && env.cpu.fetch(CodeOf(s, t).code, PcOf(s, t)) == Some(env.trap)
    requires NativeTrap(env, CodeOf(s, t), PcOf(s, t)) && !Stopped(env, s, t)
    ensures Simulates(env, s, Debuggee(Run(t)), AfterTrap(env, s, t))
  {
    hide NativeTrap, Stopped;
    var s' := AfterTrap(env, s, t);
    OnlyOneMoves(env, s, t, s');
    NativelyRuns(env, s, t);
    assert NativeThread(env, s', t) == AfterRun(env.cpu, env.trap, Abs(env, s), t).threads[t];
    SameMachine(env, s', AfterRun(env.cpu, env.trap, Abs(env, s), t));
  }

  /** A running thread at a boundary can run natively. */
  lemma NativelyRuns(env: Env, s: Sys, t: ThreadId)
    requires Shaped(s) && t in s.threads && s.threads[t].status == Running
    requires PcOf(s, t) in CodeOf(s, t).starts && env.cpu.fetch(CodeOf(s, t).code, PcOf(s, t)).Some?
    ensures CanRun(env.cpu, Abs(env, s), t) && Abs(env, s).threads[t] == Thread(s.threads[t].process, PcOf(s, t), s.threads[t].regs)
  {
  }

  /** A system abstracts to a machine when processes and threads agree one by one. */
  lemma SameMachine(env: Env, s: Sys, n: Machine)
    requires Shaped(s) && s.processes == n.processes && s.threads.Keys == n.threads.Keys
    requires forall u :: u in s.threads ==> NativeThread(env, s, u) == n.threads[u]
    ensures Abs(env, s) == n
  {
    assert Abs(env, s).threads == n.threads;
  }

  lemma ExecSimulates(env: Env, s: Sys, t: ThreadId, bytes: Instruction)
    requires Shaped(s) && t in s.threads && Shaped(AfterExec(env, s, t, bytes)) && s.threads[t].status == Running
    requires PcOf(s, t) in CodeOf(s, t).starts && env.cpu.fetch(CodeOf(s, t).code, PcOf(s, t)) == Some(bytes)
    requires bytes != env.trap && !Stopped(env, s, t)
    ensures Simulates(env, s, Debuggee(Run(t)), AfterExec(env, s, t, bytes))
  {
    hide NativeTrap, Stopped;
    var s' := AfterExec(env, s, t, bytes);
    OnlyOneMoves(env, s, t, s');
    NativelyRuns(env, s, t);
    assert NativeThread(env, s', t) == AfterRun(env.cpu, env.trap, Abs(env, s), t).threads[t];
    SameMachine(env, s', AfterRun(env.cpu, env.trap, Abs(env, s), t));
  }

  // ----- Handling queued events ----------------------------------------------------------------------------

  /** The invariant of a process reads only the two address maps of the bookkeeping. */
  lemma SameMaps(trap: Instruction, p: Handle, proc: Process, s: State, s': State, m: Mem)
    requires ProcessOk(trap, p, proc, s, m)
    requires s'.addressLineMap == s.addressLineMap && s'.conditionSiteMap == s.conditionSiteMap
    ensures ProcessOk(trap, p, proc, s', m)
  {
    forall a | Address(p, a) in s'.conditionSiteMap ensures SiteOk(s', Address(p, a)) {
      assert SiteOk(s, Address(p, a));
    }
    assert forall x :: Covered(s', p, x, |trap|) <==> Covered(s, p, x, |trap|);
  }

  /** A handler that writes the original or the trap at a registered address, and keeps the address maps. */
  lemma HandlerProcesses(env: Env, s: Sys, s': Sys, p: Handle, a: nat, bytes: Instruction)
    requires Shaped(s) && Shaped(s') && ProcessesOk(env, s) && s'.processes == s.processes
    requires Address(p, a) in s.view.manager.addressLineMap && p in s.processes
    requires bytes == env.trap || bytes == s.view.manager.addressLineMap[Address(p, a)].instructionToRestore
    requires s'.view.manager.addressLineMap == s.view.manager.addressLineMap
    requires s'.view.manager.conditionSiteMap == s.view.manager.conditionSiteMap
    requires Mapped(s.view.memory[p], a, |bytes|)
    requires s'.view.memory == s.view.memory[p := Write(s.view.memory[p], a, bytes)]
    ensures ProcessesOk(env, s')
  {
    hide ImageOk, ProcessOk, Mapped, Write;
    forall q | q in s'.processes ensures ProcessInv(env, s', q) {
      assert ProcessInv(env, s, q);
      if q == p {
        WriteKeeps(env.cpu, env.trap, p, s.processes[p], s.view.manager, s.view.memory[p], a, bytes);
      }
      SameMaps(env.trap, q, s.processes[q], s.view.manager, s'.view.manager, s'.view.memory[q]);
    }
  }

  lemma HandlerProcessesSameMemory(env: Env, s: Sys, s': Sys)
    requires Shaped(s) && Shaped(s') && ProcessesOk(env, s) && s'.processes == s.processes
    requires s'.view.manager.addressLineMap == s.view.manager.addressLineMap
    requires s'.view.manager.conditionSiteMap == s.view.manager.conditionSiteMap
    requires s'.view.memory == s.view.memory
    ensures ProcessesOk(env, s')
  {
    hide ImageOk, ProcessOk;
    forall q | q in s'.processes ensures ProcessInv(env, s', q) {
      assert ProcessInv(env, s, q);
      SameMaps(env.trap, q, s.processes[q], s.view.manager, s'.view.manager, s'.view.memory[q]);
    }
  }

  /** The state in which thread t has been handled and runs again. */
  ghost function Resumed(s: Sys, t: ThreadId, view: View): Sys
    requires t in s.threads
  {
    Sys(s.processes, s.threads[t := s.threads[t].(status := Running)], view)
  }

  lemma ResumedThreads(env: Env, s: Sys, t: ThreadId, view: View)
    requires Shaped(s) && t in s.threads && ThreadsOk(env, s)
    requires Shaped(Resumed(s, t, view))
    requires view.manager.addressLineMap == s.view.manager.addressLineMap && s.view.seen <= view.seen
    requires forall u :: u in s.threads && u != t ==> view.contexts[u] == s.view.contexts[u]
    ensures ThreadsOk(env, Resumed(s, t, view))
  {
    hide NativeTrap;
    forall u | u in s.threads ensures ThreadOk(env, Resumed(s, t, view), u) {
      assert ThreadOk(env, s, u);
    }
  }

  lemma ResumedNative(env: Env, s: Sys, t: ThreadId, view: View)
    requires Shaped(s) && t in s.threads && Shaped(Resumed(s, t, view))
    requires forall u :: u in s.threads && u != t ==> view.contexts[u] == s.view.contexts[u]
    requires view.contexts[t].pc == NativeThread(env, s, t).pc
    ensures Abs(env, Resumed(s, t, view)) == Abs(env, s)
  {
    hide NativeTrap;
    var s' := Resumed(s, t, view);
    forall u | u in s.threads ensures NativeThread(env, s', u) == NativeThread(env, s, u) {
      if u != t {
        SameNativeThread(env, s, s', u);
      }
    }
    assert Abs(env, s').threads == Abs(env, s).threads;
  }

  /** A queued trap of ours: its address is registered, not an original trap, and its process is known. */
  lemma OursIsNotNative(env: Env, s: Sys, p: Handle, a: nat)
    requires Inv(env, s) && p in s.processes && Address(p, a) in s.view.manager.addressLineMap
    ensures !NativeTrap(env, s.processes[p], a)
    ensures EntryOk(env.trap, s.processes[p], s.view.memory[p], a, s.view.manager.addressLineMap[Address(p, a)])
  {
    assert ProcessInv(env, s, p);
    EntryFacts(env.trap, p, s.processes[p], s.view.manager, s.view.memory[p], a);
  }

  /** Handling our own trap: the thread is back at the restored instruction, and nothing moved natively. */
  lemma TrapHitCorrect(env: Env, s: Sys, t: ThreadId, a: nat)
    requires Inv(env, s) && t in s.threads && s.threads[t].status == TrapQueued(a)
    requires Address(s.threads[t].process, a) in s.view.manager.addressLineMap
    ensures var p := s.threads[t].process;
      && CanWrite(s.view, p, a, |s.view.manager.addressLineMap[Address(p, a)].instructionToRestore|)
      && var s' := Resumed(s, t, TrapHit(env.trap, env.branch, s.view, p, t, a));
         && Inv(env, s') && Abs(env, s') == Abs(env, s)
         && s'.view.contexts[t].pc == a
  {
    hide CpuOk, ProcessesOk, ThreadsOk, NativeTrap, ConditionsHaveLines, Valid;
    var p := s.threads[t].process;
    OursIsNotNative(env, s, p, a);
    assert ThreadOk(env, s, t) by {
      QueuedThread(env, s, t);
    }
    var line := s.view.manager.addressLineMap[Address(p, a)];
    var view := TrapHit(env.trap, env.branch, s.view, p, t, a);
    var s' := Resumed(s, t, view);
    HitState(s, Address(p, a), s');
    HandlerProcesses(env, s, s', p, a, line.instructionToRestore);
    ResumedThreads(env, s, t, view);
    ResumedNative(env, s, t, view);
  }

  lemma QueuedThread(env: Env, s: Sys, t: ThreadId)
    requires Shaped(s) && ThreadsOk(env, s) && t in s.threads
    ensures ThreadOk(env, s, t)
  {
  }

  lemma HitState(s: Sys, a: Address, s': Sys)
    requires StateOk(s) && a in s.view.manager.addressLineMap && s'.processes == s.processes
    requires s'.view.manager == WithHit(s.view.manager, a)
    ensures StateOk(s')
  {
  }

  /** Handling an original trap: the thread goes on after it. */
  lemma NativeTrapHandled(env: Env, s: Sys, t: ThreadId, a: nat, view: View)
    requires Inv(env, s) && t in s.threads && s.threads[t].status == TrapQueued(a)
    requires NativeTrap(env, CodeOf(s, t), a)
    requires view == s.view.(seen := view.seen) && s.view.seen <= view.seen
    ensures var s' := Resumed(s, t, view); Inv(env, s') && Abs(env, s') == Abs(env, s)
  {
    hide CpuOk, ProcessesOk, ThreadsOk, NativeTrap, ConditionsHaveLines, Valid;
    var s' := Resumed(s, t, view);
    HandlerProcessesSameMemory(env, s, s');
    ResumedThreads(env, s, t, view);
    ResumedNative(env, s, t, view);
  }

  lemma HandleTrapCorrect(env: Env, s: Sys, t: ThreadId, s': Sys)
    requires Inv(env, s) && t in s.threads && s.threads[t].status.TrapQueued? && HandleStepOf(env, s, t, s')
    ensures Inv(env, s') && Abs(env, s') == Abs(env, s)
  {
    var a := s.threads[t].status.address;
    var p := s.threads[t].process;
    assert ThreadOk(env, s, t) && ProcessInv(env, s, p);
    hide Inv, ProcessInv, NativeTrap, Mapped, TrapHit;
    InvShapes(env, s);
    if Address(p, a) in s.view.manager.addressLineMap {
      OursIsNotNative(env, s, p, a);
      TrapHitCorrect(env, s, t, a);
      OwnTrapView(env, s.view, p, t, s.processes[p].trapCode, a);
    } else {
      NativeTrapView(env, s.view, p, t, s.processes[p].trapCode, a);
      NativeTrapHandled(env, s, t, a, s'.view);
    }
  }

  lemma InvShapes(env: Env, s: Sys)
    requires Inv(env, s)
    ensures Shaped(s) && SitesHaveRecords(s.view.manager)
  {
  }

  lemma OwnTrapView(env: Env, v: View, p: Handle, t: ThreadId, code: int, a: nat)
    requires SitesHaveRecords(v.manager) && IsTrapCode(code) && Address(p, a) in v.manager.addressLineMap
    requires (code, p) in v.seen && Serviceable(env.trap, v, p, t, code, true, a)
    ensures ExceptionHandled(env.trap, env.branch, v, p, t, code, true, a).0 == TrapHit(env.trap, env.branch, v, p, t, a)
  {
    hide TrapHit;
  }

  lemma NativeTrapView(env: Env, v: View, p: Handle, t: ThreadId, code: int, a: nat)
    requires SitesHaveRecords(v.manager) && IsTrapCode(code) && Address(p, a) !in v.manager.addressLineMap
    requires Serviceable(env.trap, v, p, t, code, true, a)
    ensures var w := ExceptionHandled(env.trap, env.branch, v, p, t, code, true, a).0;
      w == v.(seen := w.seen) && v.seen <= w.seen
  {
  }

  /** A finished step changes no thread and no original byte: it can only plant its own site again. */
  lemma HandleStepCorrect(env: Env, s: Sys, t: ThreadId, s': Sys)
    requires Inv(env, s) && t in s.threads && s.threads[t].status.StepQueued? && HandleStepOf(env, s, t, s')
    ensures Inv(env, s') && Abs(env, s') == Abs(env, s)
  {
    hide CpuOk, ProcessesOk, ThreadsOk, NativeTrap, Mapped, Write, WithOutcome, ShouldReplant;
    var landing := s.threads[t].status.landing;
    var p := s.threads[t].process;
    QueuedThread(env, s, t);
    assert s' == Resumed(s, t, StepLanded(env.trap, s.view, p, t, landing));
    LandedView(env, s, t, s');
    LandedProcesses(env, s, t, s');
    ResumedThreads(env, s, t, s'.view);
    ResumedNative(env, s, t, s'.view);
  }

  lemma LandedView(env: Env, s: Sys, t: ThreadId, s': Sys)
    requires Inv(env, s) && t in s.threads && s.threads[t].status.StepQueued? && HandleStepOf(env, s, t, s')
    ensures Shaped(s') && StateOk(s')
    ensures s'.view.contexts == s.view.contexts && s'.view.seen == s.view.seen
    ensures s'.view.manager.addressLineMap == s.view.manager.addressLineMap
    ensures s'.view.manager.conditionSiteMap == s.view.manager.conditionSiteMap
  {
    hide CpuOk, ProcessesOk, ThreadsOk, NativeTrap, Mapped, Write;
    LandedState(s, t, s');
  }

  lemma LandedProcesses(env: Env, s: Sys, t: ThreadId, s': Sys)
    requires Inv(env, s) && t in s.threads && s.threads[t].status.StepQueued? && HandleStepOf(env, s, t, s')
    requires Shaped(s')
    requires s'.view.manager.addressLineMap == s.view.manager.addressLineMap
    requires s'.view.manager.conditionSiteMap == s.view.manager.conditionSiteMap
    ensures ProcessesOk(env, s')
  {
    hide CpuOk, ProcessesOk, ThreadsOk, NativeTrap, Mapped, Write, StateOk;
    var landing := s.threads[t].status.landing;
    var p := s.threads[t].process;
    if t in s.view.pending && Classified(s.view.pending[t], landing) && Replants(s.view, p, t, landing) {
      var a := s.view.pending[t].siteAddress;
      SiteRegistered(env, s, p, a);
      HandlerProcesses(env, s, s', p, a, env.trap);
    } else {
      HandlerProcessesSameMemory(env, s, s');
    }
  }

  lemma LandedState(s: Sys, t: ThreadId, s': Sys)
    requires StateOk(s) && s'.processes == s.processes
    requires s'.view.manager == s.view.manager ||
             exists a, taken :: s'.view.manager == WithOutcome(s.view.manager, a, taken)
    ensures StateOk(s')
  {
  }

  /** A live branch site is a registered address, so it can be planted again. */
  lemma SiteRegistered(env: Env, s: Sys, p: Handle, a: nat)
    requires Inv(env, s) && Address(p, a) in s.view.manager.conditionSiteMap
    ensures p in s.processes && Address(p, a) in s.view.manager.addressLineMap
    ensures Mapped(s.view.memory[p], a, |env.trap|)
  {
    assert Address(p, a).process in s.processes;
    assert ProcessInv(env, s, p);
    assert SiteOk(s.view.manager, Address(p, a));
    EntryFacts(env.trap, p, s.processes[p], s.view.manager, s.view.memory[p], a);
  }

  /** The event and the context of a thread tell the same landing address, on either architecture. */
  lemma LandingsAgree(env: Env, s: Sys, t: ThreadId)
    requires Inv(env, s) && t in s.threads && s.threads[t].status.StepQueued?
    ensures EventCode(s, t) == (EXCEPTION_SINGLE_STEP, s.view.contexts[t].pc)
  {
    hide CpuOk, StateOk, ProcessesOk;
    assert ThreadOk(env, s, t);
  }

  /** No handler ever fails: whatever it has to write is mapped. */
  lemma HandlersNeverThrow(env: Env, s: Sys, t: ThreadId)
    requires Inv(env, s) && t in s.threads && !s.threads[t].status.Running?
    ensures SitesHaveRecords(s.view.manager)
    ensures var (code, a) := EventCode(s, t); Serviceable(env.trap, s.view, s.threads[t].process, t, code, true, a)
  {
    var p := s.threads[t].process;
    assert ProcessInv(env, s, p);
    hide ProcessesOk, ThreadsOk, CpuOk, Mapped;
    match s.threads[t].status
    case TrapQueued(a) =>
      if Address(p, a) in s.view.manager.addressLineMap {
        OursIsNotNative(env, s, p, a);
      }
    case StepQueued(landing) =>
      if t in s.view.pending && Replants(s.view, p, t, landing) {
        SiteRegistered(env, s, p, s.view.pending[t].siteAddress);
      }
  }
}
