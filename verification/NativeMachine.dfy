/**
 The specification side of the protocol: processes, threads and modules that
 run without a debugger planting anything.
 */
module NativeMachine {
  import opened Common
  import opened Memory
  import opened Debuggees

  /** The registers of a thread and the data of a process; what they hold does not matter. */
  type Regs(!new)
  type Heap(!new)

  /** A processor: instruction fetch, and execution of one instruction. */
  datatype Cpu = Cpu(
    fetch: (Mem, nat) -> Option<Instruction>,
    exec: (nat, Instruction, Regs, Heap) -> (nat, Regs, Heap))

  ghost predicate Holds(m: Mem, a: nat, bytes: seq<Byte>) {
    Mapped(m, a, |bytes|) && Read(m, a, |bytes|) == bytes
  }

  /** A fetch returns bytes of the memory, depends on no other byte, and recognises the trap. */
  ghost predicate CpuOk(cpu: Cpu, trap: Instruction) {
    && |trap| > 0
    && (forall m, a :: cpu.fetch(m, a).Some? ==> Holds(m, a, cpu.fetch(m, a).value))
    && (forall m, m', a :: cpu.fetch(m, a).Some? && Holds(m', a, cpu.fetch(m, a).value) ==>
          cpu.fetch(m', a) == cpu.fetch(m, a))
    && (forall m, a :: Holds(m, a, trap) ==> cpu.fetch(m, a) == Some(trap))
  }

  /** Code memory, instruction boundaries, loaded modules (base to bytes), data, and the code its breakpoints report. */
  datatype Process = Process(code: Mem, starts: set<nat>, modules: map<nat, set<nat>>, heap: Heap, trapCode: int)

  datatype Thread = Thread(process: Handle, pc: nat, regs: Regs)

  datatype Machine = Machine(processes: map<Handle, Process>, threads: map<ThreadId, Thread>)

  datatype Step =
    | CreateProcess(p: Handle, heap: Heap, trapCode: int)
    | ExitProcess(p: Handle)
    | CreateThread(t: ThreadId, p: Handle, pc: nat, regs: Regs)
    | ExitThread(t: ThreadId)
    | Load(p: Handle, base: nat, image: Mem, starts: set<nat>)
    | Unload(p: Handle, base: nat)
    | Run(t: ThreadId)

  ghost function Loaded(proc: Process, base: nat, image: Mem, starts: set<nat>): Process {
    proc.(code := proc.code + image, starts := proc.starts + starts, modules := proc.modules[base := image.Keys])
  }

  ghost function Unloaded(proc: Process, base: nat): Process
    requires base in proc.modules
  {
    proc.(code := proc.code - proc.modules[base],
          starts := proc.starts - proc.modules[base],
          modules := proc.modules - {base})
  }

  ghost predicate CanRun(cpu: Cpu, n: Machine, t: ThreadId) {
    && t in n.threads && n.threads[t].process in n.processes
    && n.threads[t].pc in n.processes[n.threads[t].process].starts
    && cpu.fetch(n.processes[n.threads[t].process].code, n.threads[t].pc).Some?
  }

  /** One instruction of thread t; an original breakpoint instruction only moves the program counter. */
  ghost function AfterRun(cpu: Cpu, trap: Instruction, n: Machine, t: ThreadId): Machine
    requires CanRun(cpu, n, t)
  {
    var thread := n.threads[t];
    var proc := n.processes[thread.process];
    var bytes := cpu.fetch(proc.code, thread.pc).value;
    if bytes == trap then
      n.(threads := n.threads[t := thread.(pc := thread.pc + |trap|)])
    else
      var (pc, regs, heap) := cpu.exec(thread.pc, bytes, thread.regs, proc.heap);
      Machine(n.processes[thread.process := proc.(heap := heap)], n.threads[t := Thread(thread.process, pc, regs)])
  }

  ghost predicate NativeStep(cpu: Cpu, trap: Instruction, n: Machine, e: Step, n': Machine) {
    match e
    case CreateProcess(p, heap, trapCode) =>
      p !in n.processes && n' == n.(processes := n.processes[p := Process(map[], {}, map[], heap, trapCode)])
    case ExitProcess(p) =>
      && p in n.processes
      && n' == Machine(n.processes - {p}, map t | t in n.threads && n.threads[t].process != p :: n.threads[t])
    case CreateThread(t, p, pc, regs) =>
      t !in n.threads && p in n.processes && n' == n.(threads := n.threads[t := Thread(p, pc, regs)])
    case ExitThread(t) =>
      t in n.threads && n' == n.(threads := n.threads - {t})
    case Load(p, base, image, starts) =>
      p in n.processes && n' == n.(processes := n.processes[p := Loaded(n.processes[p], base, image, starts)])
    case Unload(p, base) =>
      && p in n.processes && base in n.processes[p].modules
      && n' == n.(processes := n.processes[p := Unloaded(n.processes[p], base)])
    case Run(t) =>
      CanRun(cpu, n, t) && n' == AfterRun(cpu, trap, n, t)
  }

  // ----- Images ------------------------------------------------------------------------

  ghost function Length(cpu: Cpu, m: Mem, s: nat): nat
    requires cpu.fetch(m, s).Some?
  {
    |cpu.fetch(m, s).value|
  }

  ghost predicate Inside(s: nat, n: nat, region: set<nat>) {
    forall x :: s <= x < s + n ==> x in region
  }

  /** An instruction boundary: the instruction is no shorter than the trap and overlaps no other boundary. */
  ghost predicate StartOk(cpu: Cpu, w: nat, m: Mem, starts: set<nat>, s: nat) {
    && cpu.fetch(m, s).Some? && w <= Length(cpu, m, s)
    && forall o :: o in starts ==> o <= s || s + Length(cpu, m, s) <= o
  }

  /** Every instruction lies in one module. */
  ghost predicate OwnedStart(cpu: Cpu, proc: Process, s: nat) {
    && cpu.fetch(proc.code, s).Some?
    && exists b :: b in proc.modules && Inside(s, Length(cpu, proc.code, s), proc.modules[b])
  }

  ghost predicate ImageOk(cpu: Cpu, w: nat, proc: Process) {
    && (forall s :: s in proc.starts ==> StartOk(cpu, w, proc.code, proc.starts, s))
    && (forall s :: s in proc.starts ==> OwnedStart(cpu, proc, s))
    && (forall b :: b in proc.modules ==> proc.modules[b] <= proc.code.Keys)
    && (forall b, c :: b in proc.modules && c in proc.modules && b != c ==> proc.modules[b] !! proc.modules[c])
  }

  /** A module image that can be loaded: fresh addresses and well-formed boundaries. */
  ghost predicate LoadOk(cpu: Cpu, w: nat, proc: Process, base: nat, image: Mem, starts: set<nat>) {
    && base !in proc.modules && image.Keys !! proc.code.Keys
    && forall s :: s in starts ==> StartOk(cpu, w, image, starts, s)
  }

  lemma HoldsSub(m: Mem, m': Mem, a: nat, bytes: seq<Byte>)
    requires Holds(m, a, bytes)
    requires forall x: nat :: a <= x < a + |bytes| ==> x in m' && m'[x] == m[x]
    ensures Holds(m', a, bytes)
  {
    ReadBytes(m, m', a, |bytes|);
  }

  lemma FetchSub(cpu: Cpu, trap: Instruction, m: Mem, m': Mem, a: nat)
    requires CpuOk(cpu, trap) && cpu.fetch(m, a).Some?
    requires forall x: nat :: a <= x < a + Length(cpu, m, a) ==> x in m ==> x in m' && m'[x] == m[x]
    ensures cpu.fetch(m', a) == cpu.fetch(m, a)
  {
    assert Holds(m, a, cpu.fetch(m, a).value);
    HoldsSub(m, m', a, cpu.fetch(m, a).value);
  }

  lemma StartMapped(cpu: Cpu, trap: Instruction, m: Mem, starts: set<nat>, s: nat)
    requires CpuOk(cpu, trap) && StartOk(cpu, |trap|, m, starts, s)
    ensures s in m && Mapped(m, s, Length(cpu, m, s))
  {
    assert Holds(m, s, cpu.fetch(m, s).value);
  }

  lemma LoadedImage(cpu: Cpu, trap: Instruction, proc: Process, base: nat, image: Mem, starts: set<nat>)
    requires CpuOk(cpu, trap) && ImageOk(cpu, |trap|, proc) && LoadOk(cpu, |trap|, proc, base, image, starts)
    ensures ImageOk(cpu, |trap|, Loaded(proc, base, image, starts))
  {
    var next := Loaded(proc, base, image, starts);
    forall s | s in next.starts
      ensures StartOk(cpu, |trap|, next.code, next.starts, s) && OwnedStart(cpu, next, s)
    {
      if s in proc.starts {
        OldStart(cpu, trap, proc, base, image, starts, s);
      } else {
        NewStart(cpu, trap, proc, base, image, starts, s);
      }
    }
  }

  lemma OldStart(cpu: Cpu, trap: Instruction, proc: Process, base: nat, image: Mem, starts: set<nat>, s: nat)
    requires CpuOk(cpu, trap) && ImageOk(cpu, |trap|, proc) && LoadOk(cpu, |trap|, proc, base, image, starts)
    requires s in proc.starts
    ensures var next := Loaded(proc, base, image, starts);
      StartOk(cpu, |trap|, next.code, next.starts, s) && OwnedStart(cpu, next, s)
  {
    var next := Loaded(proc, base, image, starts);
    assert StartOk(cpu, |trap|, proc.code, proc.starts, s) && OwnedStart(cpu, proc, s);
    FetchSub(cpu, trap, proc.code, next.code, s);
    var n := Length(cpu, proc.code, s);
    var b :| b in proc.modules && Inside(s, n, proc.modules[b]);
    assert b in next.modules && next.modules[b] == proc.modules[b];
    forall o | o in next.starts ensures o <= s || s + n <= o {
      if o in starts {
        StartMapped(cpu, trap, image, starts, o);
        assert o !in proc.modules[b];
      }
    }
  }

  lemma NewStart(cpu: Cpu, trap: Instruction, proc: Process, base: nat, image: Mem, starts: set<nat>, s: nat)
    requires CpuOk(cpu, trap) && ImageOk(cpu, |trap|, proc) && LoadOk(cpu, |trap|, proc, base, image, starts)
    requires s in starts
    ensures var next := Loaded(proc, base, image, starts);
      StartOk(cpu, |trap|, next.code, next.starts, s) && OwnedStart(cpu, next, s)
  {
    var next := Loaded(proc, base, image, starts);
    assert StartOk(cpu, |trap|, image, starts, s);
    var bytes := cpu.fetch(image, s).value;
    assert Holds(image, s, bytes);
    FetchSub(cpu, trap, image, next.code, s);
    assert Inside(s, |bytes|, next.modules[base]);
    forall o | o in next.starts ensures o <= s || s + |bytes| <= o {
      if o in proc.starts {
        StartMapped(cpu, trap, proc.code, proc.starts, o);
        assert o !in image;
      }
    }
  }

  lemma UnloadedImage(cpu: Cpu, trap: Instruction, proc: Process, base: nat)
    requires CpuOk(cpu, trap) && ImageOk(cpu, |trap|, proc) && base in proc.modules
    ensures ImageOk(cpu, |trap|, Unloaded(proc, base))
    ensures forall s :: s in Unloaded(proc, base).starts ==>
      cpu.fetch(proc.code, s).Some? && Inside(s, Length(cpu, proc.code, s), Unloaded(proc, base).code.Keys)
  {
    var next := Unloaded(proc, base);
    forall s | s in next.starts
      ensures StartOk(cpu, |trap|, next.code, next.starts, s) && OwnedStart(cpu, next, s)
      ensures Inside(s, Length(cpu, proc.code, s), next.code.Keys)
    {
      assert StartOk(cpu, |trap|, proc.code, proc.starts, s) && OwnedStart(cpu, proc, s);
      var n := Length(cpu, proc.code, s);
      var b :| b in proc.modules && Inside(s, n, proc.modules[b]);
      assert s in proc.modules[b] && b != base;
      assert proc.modules[b] !! proc.modules[base];
      assert Holds(proc.code, s, cpu.fetch(proc.code, s).value);
      FetchSub(cpu, trap, proc.code, next.code, s);
      assert b in next.modules;
    }
  }
}
