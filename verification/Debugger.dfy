/** CppCoverage/Debugger.cpp: the event loop and its tables of processes and threads. */
module Debuggers {
  import opened Common
  import opened Debuggees

  type ProcessId = nat

  /** What a debug event tells the loop; an exception comes with the answer of the events handler. */
  datatype Kind =
    | CreateProcess(hProcess: Handle, hThread: Handle)
    | CreateThread(hThread: Handle)
    | ExitProcess(exitCode: int)
    | ExitThread
    | Exception(exceptionType: ExceptionType, code: int)
    | Other  // LOAD_DLL, UNLOAD_DLL, RIP and output events

  datatype DebugEvent = DebugEvent(process: ProcessId, thread: ThreadId, kind: Kind)

  datatype ContinueStatus = DbgContinue | DbgExceptionNotHandled

  datatype ProcessStatus = ProcessStatus(exitCode: Option<int>, continueStatus: Option<ContinueStatus>)

  const NO_STATUS := ProcessStatus(None, None)

  datatype Config = Config(continueAfterCppException: bool, stopOnAssert: bool)

  datatype Tables = Tables(processes: map<ProcessId, Handle>, threads: map<ThreadId, Handle>, root: Option<ProcessId>)

  // ----- The handling of one event --------------------------------------------------------------------

  /** A 32-bit code of the operating system, returned as a C++ int. */
  function AsInt(code: int): int {
    if code < 0x8000_0000 then code else code - 0x1_0000_0000
  }

  function ExceptionStatus(config: Config, exceptionType: ExceptionType, code: int): ProcessStatus {
    match exceptionType
    case BreakPoint => ProcessStatus(None, Some(DbgContinue))
    case SingleStep => ProcessStatus(None, Some(DbgContinue))
    case InvalidBreakPoint =>
      if config.stopOnAssert then ProcessStatus(None, Some(DbgExceptionNotHandled))
      else ProcessStatus(Some(AsInt(EXCEPTION_BREAKPOINT)), Some(DbgContinue))
    case NotHandled => ProcessStatus(None, Some(DbgExceptionNotHandled))
    case Error => ProcessStatus(None, Some(DbgExceptionNotHandled))
    case CppError =>
      if config.continueAfterCppException then ProcessStatus(Some(AsInt(code)), Some(DbgContinue))
      else ProcessStatus(None, Some(DbgExceptionNotHandled))
  }

  /** The status that an event reports. */
  function StatusOf(config: Config, e: DebugEvent): ProcessStatus {
    match e.kind
    case ExitProcess(exitCode) => ProcessStatus(Some(AsInt(exitCode)), None)
    case Exception(exceptionType, code) => ExceptionStatus(config, exceptionType, code)
    case _ => NO_STATUS
  }

  /** The tables after an event, or None when the handling throws. */
  function Handled(t: Tables, e: DebugEvent): Option<Tables> {
    match e.kind
    case CreateProcess(hProcess, hThread) =>
      var root := if t.root.None? && t.processes == map[] then Some(e.process) else t.root;
      if e.process in t.processes || e.thread in t.threads then None
      else Some(Tables(t.processes[e.process := hProcess], t.threads[e.thread := hThread], root))
    case CreateThread(hThread) =>
      if e.thread in t.threads then None else Some(t.(threads := t.threads[e.thread := hThread]))
    case kind =>
      if e.process !in t.processes || e.thread !in t.threads then None
      else if kind.ExitProcess? then Some(t.(processes := t.processes - {e.process}, threads := t.threads - {e.thread}))
      else if kind.ExitThread? then Some(t.(threads := t.threads - {e.thread}))
      else Some(t)
  }

  function NextExitCode(config: Config, t: Tables, e: DebugEvent, exitCode: Option<int>): Option<int> {
    var status := StatusOf(config, e).exitCode;
    if status.Some? && t.root == Some(e.process) && exitCode.None? then status else exitCode
  }

  /** How the loop ends: it returns, an event makes it throw, or it waits for more events. */
  datatype LoopEnd =
    | Returned(exitCode: int, events: nat, tables: Tables)
    | Threw(events: nat)
    | Waiting(tables: Tables, soFar: Option<int>)

  /** The loop, when n events have been handled. */
  function Loop(config: Config, trace: seq<DebugEvent>, n: nat, t: Tables, exitCode: Option<int>): LoopEnd
    requires n <= |trace|
    decreases |trace| - n
  {
    if exitCode.Some? && t.processes == map[] then Returned(exitCode.value, n, t)
    else if n == |trace| then Waiting(t, exitCode)
    else
      match Handled(t, trace[n])
      case None => Threw(n)
      case Some(next) => Loop(config, trace, n + 1, next, NextExitCode(config, next, trace[n], exitCode))
  }

  // ----- The class -------------------------------------------------------------------------------------------

  class Debugger {
    const config: Config
    var processHandles: map<ProcessId, Handle>
    var threadHandles: map<ThreadId, Handle>
    var rootProcessId: Option<ProcessId>

    function Abs(): Tables
      reads this
    {
      Tables(processHandles, threadHandles, rootProcessId)
    }

    constructor (config: Config)
      ensures this.config == config && Abs() == Tables(map[], map[], None)
    {
      this.config := config;
      processHandles, threadHandles, rootProcessId := map[], map[], None;
    }

    method OnCreateThread(hThread: Handle, dwThreadId: ThreadId) returns (ok: bool)
      modifies this`threadHandles
      ensures ok <==> dwThreadId !in old(threadHandles)
      ensures threadHandles == if ok then old(threadHandles)[dwThreadId := hThread] else old(threadHandles)
    {
      ok := dwThreadId !in threadHandles;
      if ok {
        threadHandles := threadHandles[dwThreadId := hThread];
      }
    }

    method OnExitThread(dwThreadId: ThreadId) returns (ok: bool)
      modifies this`threadHandles
      ensures ok <==> dwThreadId in old(threadHandles)
      ensures threadHandles == old(threadHandles) - {dwThreadId}
    {
      ok := dwThreadId in threadHandles;
      threadHandles := threadHandles - {dwThreadId};
    }

    method OnCreateProcess(process: ProcessId, thread: ThreadId, hProcess: Handle, hThread: Handle) returns (ok: bool)
      modifies this
      ensures var next := Handled(old(Abs()), DebugEvent(process, thread, CreateProcess(hProcess, hThread)));
        (ok <==> next.Some?) && (ok ==> Abs() == next.value)
    {
      if rootProcessId.None? && processHandles == map[] {
        rootProcessId := Some(process);
      }
      if process in processHandles {
        return false;
      }
      processHandles := processHandles[process := hProcess];
      ok := OnCreateThread(hThread, thread);
    }

    method OnExitProcess(process: ProcessId, thread: ThreadId) returns (ok: bool)
      modifies this
      ensures ok <==> process in old(processHandles) && thread in old(threadHandles)
      ensures ok ==> Abs() == old(Abs()).(processes := old(processHandles) - {process}, threads := old(threadHandles) - {thread})
    {
      ok := OnExitThread(thread);
      if !ok {
        return;
      }
      ok := process in processHandles;
      processHandles := processHandles - {process};
    }

    /** None when the handling throws. */
    method HandleDebugEvent(e: DebugEvent) returns (r: Option<ProcessStatus>)
      modifies this
      ensures var next := Handled(old(Abs()), e);
        (r.None? <==> next.None?) && (r.Some? ==> Abs() == next.value && r.value == StatusOf(config, e))
    {
      var ok := true;
      match e.kind {
        case CreateProcess(hProcess, hThread) =>
          ok := OnCreateProcess(e.process, e.thread, hProcess, hThread);
        case CreateThread(hThread) =>
          ok := OnCreateThread(hThread, e.thread);
        case _ =>
          if e.process !in processHandles || e.thread !in threadHandles {
            return None;
          }
          r := HandleNotCreationalEvent(e);
          return;
      }
      r := if ok then Some(NO_STATUS) else None;
    }

    method HandleNotCreationalEvent(e: DebugEvent) returns (r: Option<ProcessStatus>)
      requires !e.kind.CreateProcess? && !e.kind.CreateThread?
      modifies this
      ensures var next := Handled(old(Abs()), e);
        e.process in old(processHandles) && e.thread in old(threadHandles) ==>
          r == Some(StatusOf(config, e)) && Some(Abs()) == next
    {
      match e.kind
      case ExitProcess(exitCode) =>
        var ok := OnExitProcess(e.process, e.thread);
        r := if ok then Some(ProcessStatus(Some(AsInt(exitCode)), None)) else None;
      case ExitThread =>
        var ok := OnExitThread(e.thread);
        r := if ok then Some(NO_STATUS) else None;
      case Exception(exceptionType, code) =>
        r := Some(ExceptionStatus(config, exceptionType, code));
      case _ =>
        r := Some(NO_STATUS);
    }

    /** `Debug`, on the events that the system delivers; None while more events are awaited. */
    method Debug(trace: seq<DebugEvent>) returns (r: Option<Result<int>>)
      modifies this
      ensures match Loop(config, trace, 0, Tables(map[], map[], None), None)
        case Returned(exitCode, _, tables) => r == Some(Ok(exitCode)) && Abs() == tables
        case Threw(_) => r == Some(Throw)
        case Waiting(tables, _) => r == None && Abs() == tables
    {
      processHandles, threadHandles, rootProcessId := map[], map[], None;
      var exitCode: Option<int> := None;
      var n := 0;
      while exitCode.None? || processHandles != map[]
        invariant n <= |trace|
        invariant Loop(config, trace, 0, Tables(map[], map[], None), None) == Loop(config, trace, n, Abs(), exitCode)
        decreases |trace| - n
      {
        if n == |trace| {
          return None;
        }
        var status := HandleDebugEvent(trace[n]);
        if status.None? {
          return Some(Throw);
        }
        if status.value.exitCode.Some? && rootProcessId == Some(trace[n].process) && exitCode.None? {
          exitCode := status.value.exitCode;
        }
        n := n + 1;
      }
      r := Some(Ok(exitCode.value));
    }
  }

  // ----- What the system guarantees ------------------------------------------------------------------------------

  /** The live processes and threads, and the first process. */
  datatype Live = Live(processes: map<ProcessId, Handle>, threads: map<ThreadId, (ProcessId, Handle)>, first: Option<ProcessId>)

  const NOBODY := Live(map[], map[], None)

  /** Identifiers of the living are unique; a process reports its exit on its last thread. */
  ghost predicate Allowed(l: Live, e: DebugEvent) {
    match e.kind
    case CreateProcess(_, _) => e.process !in l.processes && e.thread !in l.threads
    case CreateThread(_) => e.process in l.processes && e.thread !in l.threads
    case kind =>
      && e.process in l.processes && e.thread in l.threads && l.threads[e.thread].0 == e.process
      && (kind.ExitProcess? ==> forall t :: t in l.threads && l.threads[t].0 == e.process ==> t == e.thread)
  }

  function After(l: Live, e: DebugEvent): Live {
    match e.kind
    case CreateProcess(hProcess, hThread) =>
      Live(l.processes[e.process := hProcess], l.threads[e.thread := (e.process, hThread)],
           if l.first.None? then Some(e.process) else l.first)
    case CreateThread(hThread) => l.(threads := l.threads[e.thread := (e.process, hThread)])
    case ExitProcess(_) => l.(processes := l.processes - {e.process}, threads := l.threads - {e.thread})
    case ExitThread => l.(threads := l.threads - {e.thread})
    case _ => l
  }

  function LiveAfter(trace: seq<DebugEvent>): Live {
    if trace == [] then NOBODY else After(LiveAfter(trace[..|trace| - 1]), trace[|trace| - 1])
  }

  ghost predicate WellFormed(trace: seq<DebugEvent>) {
    forall n :: 0 <= n < |trace| ==> Allowed(LiveAfter(trace[..n]), trace[n])
  }

  /**
   The exit status that an event reports for its process: its exit code, the
   breakpoint code for an assertion that does not stop it, or the code of a C++
   exception that it survives; each as a signed 32-bit number.
   */
  function ExitReport(config: Config, e: DebugEvent): Option<int> {
    match e.kind
    case ExitProcess(code) => Some(if code <= 2147483647 then code else code - 4294967296)
    case Exception(InvalidBreakPoint, _) => if config.stopOnAssert then None else Some(-2147483645)
    case Exception(CppError, code) =>
      if !config.continueAfterCppException then None
      else Some(if code <= 2147483647 then code else code - 4294967296)
    case _ => None
  }

  lemma StatusIsReport(config: Config, e: DebugEvent)
    ensures StatusOf(config, e).exitCode == ExitReport(config, e)
  {
  }

  /** The first status that an event of a process reports. */
  function FirstStatus(config: Config, trace: seq<DebugEvent>, process: ProcessId): Option<int> {
    if trace == [] then None else
    var n := |trace| - 1;
    var earlier := FirstStatus(config, trace[..n], process);
    if earlier.Some? || trace[n].process != process then earlier else ExitReport(config, trace[n])
  }

  /** Event n is the first of a process to report an exit status, and this is the status. */
  ghost predicate IsFirstReport(config: Config, trace: seq<DebugEvent>, process: ProcessId, n: nat, status: int) {
    && n < |trace| && trace[n].process == process && ExitReport(config, trace[n]) == Some(status)
    && forall m :: 0 <= m < n && trace[m].process == process ==> ExitReport(config, trace[m]).None?
  }

  lemma {:induction false} FirstStatusIsFirst(config: Config, trace: seq<DebugEvent>, process: ProcessId)
    ensures var first := FirstStatus(config, trace, process);
      if first.Some? then exists n: nat :: IsFirstReport(config, trace, process, n, first.value)
      else forall m :: 0 <= m < |trace| && trace[m].process == process ==> ExitReport(config, trace[m]).None?
  {
    hide ExitReport;
    if trace != [] {
      var k := |trace| - 1;
      FirstStatusIsFirst(config, trace[..k], process);
      var earlier := FirstStatus(config, trace[..k], process);
      if earlier.Some? {
        var n: nat :| IsFirstReport(config, trace[..k], process, n, earlier.value);
        assert forall m :: 0 <= m <= n ==> trace[..k][m] == trace[m];
        assert IsFirstReport(config, trace, process, n, earlier.value);
      } else {
        forall m | 0 <= m < k && trace[m].process == process ensures ExitReport(config, trace[m]).None? {
          assert trace[..k][m] == trace[m];
        }
        var now := FirstStatus(config, trace, process);
        assert now.Some? ==> IsFirstReport(config, trace, process, k, now.value);
      }
    }
  }

  // ----- The tables are exact ----------------------------------------------------------------------------------------

  /** The tables hold exactly the living, the root is the first process, and every thread has a live process. */
  ghost predicate Exact(t: Tables, l: Live) {
    && t.processes == l.processes && t.root == l.first
    && t.threads.Keys == l.threads.Keys
    && (forall u :: u in l.threads ==> t.threads[u] == l.threads[u].1)
    && (forall u :: u in l.threads ==> l.threads[u].0 in l.processes)
    && (l.first.None? ==> l.processes == map[])
  }

  lemma HandledExactly(t: Tables, l: Live, e: DebugEvent)
    requires Exact(t, l) && Allowed(l, e)
    ensures Handled(t, e).Some? && Exact(Handled(t, e).value, After(l, e))
  {
  }

  /** The root's first status so far. */
  function RootStatus(config: Config, trace: seq<DebugEvent>): Option<int> {
    var l := LiveAfter(trace);
    if l.first.None? then None else FirstStatus(config, trace, l.first.value)
  }

  /** The root has reported a status and nobody is left. */
  predicate Finished(config: Config, trace: seq<DebugEvent>) {
    RootStatus(config, trace).Some? && LiveAfter(trace).processes == map[]
  }

  /** The first process, once there is one, is the first process for good. */
  lemma FirstStays(trace: seq<DebugEvent>)
    requires trace != [] && LiveAfter(trace[..|trace| - 1]).first.Some?
    ensures LiveAfter(trace).first == LiveAfter(trace[..|trace| - 1]).first
  {
  }

  /** The first event of a well-formed trace creates the first process. */
  lemma {:induction false} FirstExists(trace: seq<DebugEvent>)
    requires WellFormed(trace) && trace != []
    ensures LiveAfter(trace).first.Some? && (|trace| == 1 ==> trace[0].kind.CreateProcess?)
  {
    var n := |trace| - 1;
    assert Allowed(LiveAfter(trace[..n]), trace[n]);
    if n > 0 {
      WellFormedPrefix(trace, n);
      FirstExists(trace[..n]);
    } else {
      assert trace[..0] == [];
    }
  }

  lemma WellFormedPrefix(trace: seq<DebugEvent>, n: nat)
    requires WellFormed(trace) && n <= |trace|
    ensures WellFormed(trace[..n])
  {
    forall k | 0 <= k < n ensures Allowed(LiveAfter(trace[..n][..k]), trace[..n][k]) {
      assert trace[..n][..k] == trace[..k];
    }
  }

  /** The loop takes the first status of the root. */
  lemma TakesFirstOfRoot(config: Config, t: Tables, e: DebugEvent, exitCode: Option<int>)
    ensures NextExitCode(config, t, e, exitCode) ==
      if exitCode.Some? || t.root != Some(e.process) then exitCode else ExitReport(config, e)
  {
  }

  lemma NextStatus(config: Config, trace: seq<DebugEvent>, n: nat, t: Tables)
    requires WellFormed(trace) && n < |trace| && Exact(t, LiveAfter(trace[..n + 1]))
    ensures NextExitCode(config, t, trace[n], RootStatus(config, trace[..n])) == RootStatus(config, trace[..n + 1])
  {
    var before, now := trace[..n], trace[..n + 1];
    assert now[..n] == before && now[n] == trace[n];
    WellFormedPrefix(trace, n + 1);
    FirstExists(now);
    var p := LiveAfter(now).first.value;
    StatusStep(config, now, p);
    StatusIsReport(config, trace[n]);
    TakesFirstOfRoot(config, t, trace[n], RootStatus(config, before));
    hide Handled, Allowed, LiveAfter, FirstStatus, NextExitCode, ExitReport, StatusOf;
    if n == 0 {
      assert before == [] && now == [trace[0]];
      assert RootStatus(config, before) == None by { NoRootYet(config); }
    } else {
      WellFormedPrefix(trace, n);
      FirstExists(before);
      FirstStays(now);
    }
  }

  lemma NoRootYet(config: Config)
    ensures RootStatus(config, []) == None && forall p :: FirstStatus(config, [], p) == None
  {
  }

  lemma StatusStep(config: Config, trace: seq<DebugEvent>, p: ProcessId)
    requires trace != []
    ensures var n := |trace| - 1;
      var earlier := FirstStatus(config, trace[..n], p);
      && FirstStatus(config, trace, p) ==
           (if earlier.Some? || trace[n].process != p then earlier else StatusOf(config, trace[n]).exitCode)
      && (trace[n].kind.CreateProcess? ==> FirstStatus(config, trace, p) == earlier)
  {
    StatusIsReport(config, trace[|trace| - 1]);
  }

  lemma NobodyLeft(t: Tables, l: Live)
    requires Exact(t, l) && t.processes == map[]
    ensures t.threads == map[]
  {
    assert t.threads.Keys == {};
  }

  /** The loop does not throw; it returns after k events just when k is the first time that everything is finished. */
  ghost predicate EndsWell(config: Config, trace: seq<DebugEvent>, n: nat, end: LoopEnd) {
    && !end.Threw?
    && (end.Returned? ==>
          && n <= end.events <= |trace| && Finished(config, trace[..end.events])
          && (forall j :: n <= j < end.events ==> !Finished(config, trace[..j]))
          && RootStatus(config, trace[..end.events]) == Some(end.exitCode)
          && end.tables.processes == map[] && end.tables.threads == map[])
    && (end.Waiting? ==>
          && (forall j :: n <= j <= |trace| ==> !Finished(config, trace[..j]))
          && Exact(end.tables, LiveAfter(trace)) && end.soFar == RootStatus(config, trace))
  }

  /** The loop from a moment on: it never throws, and stops the first time that everything is finished. */
  lemma {:induction false} LoopExact(config: Config, trace: seq<DebugEvent>, n: nat, t: Tables)
    requires WellFormed(trace) && n <= |trace| && Exact(t, LiveAfter(trace[..n]))
    ensures EndsWell(config, trace, n, Loop(config, trace, n, t, RootStatus(config, trace[..n])))
    decreases |trace| - n
  {
    hide Handled, Allowed, RootStatus, NextExitCode, LiveAfter, Exact;
    var exitCode := RootStatus(config, trace[..n]);
    SameProcesses(t, LiveAfter(trace[..n]));
    if exitCode.Some? && t.processes == map[] {
      NobodyLeft(t, LiveAfter(trace[..n]));
    } else if n == |trace| {
      assert trace[..n] == trace;
    } else {
      var now := trace[..n + 1];
      assert now[..n] == trace[..n] && now[n] == trace[n];
      HandledExactly(t, LiveAfter(trace[..n]), trace[n]);
      var next := Handled(t, trace[n]).value;
      LiveStep(now);
      NextStatus(config, trace, n, next);
      LoopExact(config, trace, n + 1, next);
    }
  }

  lemma SameProcesses(t: Tables, l: Live)
    requires Exact(t, l)
    ensures t.processes == l.processes
  {
  }

  lemma LiveStep(trace: seq<DebugEvent>)
    requires trace != []
    ensures LiveAfter(trace) == After(LiveAfter(trace[..|trace| - 1]), trace[|trace| - 1])
  {
  }

  /**
   On a well-formed trace the loop never throws.  It returns after the first
   event with which the first-created process has reported a status and no
   process is left, with the first status of that process, and both tables empty.
   */
  lemma DebugIsExact(config: Config, trace: seq<DebugEvent>)
    requires WellFormed(trace)
    ensures EndsWell(config, trace, 0, Loop(config, trace, 0, Tables(map[], map[], None), None))
    ensures var end := Loop(config, trace, 0, Tables(map[], map[], None), None);
      end.Returned? ==>
        && end.events <= |trace| && LiveAfter(trace[..end.events]).first.Some?
        && exists n: nat ::
             IsFirstReport(config, trace[..end.events], LiveAfter(trace[..end.events]).first.value, n, end.exitCode)
  {
    assert trace[..0] == [];
    LoopExact(config, trace, 0, Tables(map[], map[], None));
    var end := Loop(config, trace, 0, Tables(map[], map[], None), None);
    if end.Returned? {
      FirstStatusIsFirst(config, trace[..end.events], LiveAfter(trace[..end.events]).first.value);
    }
  }
}
