/**
 What the debugger tells the system after an exception: the answer of the runner,
 turned into a continue status by the event loop.
 */
module ProtocolAnswers {
  import opened Common
  import opened Memory
  import opened Debuggees
  import opened AddressManagers
  import opened StepTracking
  import opened CoverageRunners
  import opened NativeMachine
  import opened Protocol
  import opened ProtocolSafety
  import opened ProtocolDeltas
  import Debuggers

  /** EXCEPTION_BREAKPOINT, and the breakpoint code of a 32-bit process on a 64-bit system. */
  predicate IsBreakPointCode(code: int) {
    code == 0x80000003 || code == 0x4000001f
  }

  /** The status that the event loop reports for an exception that the runner handles. */
  ghost function Reported(config: Debuggers.Config, trap: Instruction, branch: bool, v: View, p: Handle, t: ThreadId,
                          code: int, firstChance: bool, a: nat): Debuggers.ProcessStatus
    requires SitesHaveRecords(v.manager) && Serviceable(trap, v, p, t, code, firstChance, a)
  {
    Debuggers.ExceptionStatus(config, ExceptionHandled(trap, branch, v, p, t, code, firstChance, a).1, code)
  }

  const SWALLOWED := Debuggers.ProcessStatus(None, Some(Debuggers.DbgContinue))
  const PASSED_ON := Debuggers.ProcessStatus(None, Some(Debuggers.DbgExceptionNotHandled))

  /**
   What becomes of every exception.  Single steps and breakpoints at addresses of
   ours are swallowed.  A later breakpoint of a process elsewhere is an assertion: it
   ends the process with -2147483645 or is passed on.  An unhandled C++ exception is
   survived on request.  Everything else, the loader's breakpoint included, is passed
   on to the debuggee.
   */
  lemma EveryException(config: Debuggers.Config, trap: Instruction, branch: bool, v: View, p: Handle, t: ThreadId,
                       code: int, firstChance: bool, a: nat)
    requires SitesHaveRecords(v.manager) && Serviceable(trap, v, p, t, code, firstChance, a)
    ensures var status := Reported(config, trap, branch, v, p, t, code, firstChance, a);
      var later := firstChance && IsBreakPointCode(code) && (code, p) in v.seen;
      var ours := Address(p, a) in v.manager.addressLineMap;
      && (code == 0x80000004 || (later && ours) ==> status == SWALLOWED)
      && (later && !ours ==>
            status == if config.stopOnAssert then PASSED_ON
                      else Debuggers.ProcessStatus(Some(-2147483645), Some(Debuggers.DbgContinue)))
      && (code == 0xE06D7363 && !firstChance && config.continueAfterCppException ==>
            status == Debuggers.ProcessStatus(Some(-529697949), Some(Debuggers.DbgContinue)))
      && (code != 0x80000004 && !later && !(code == 0xE06D7363 && !firstChance && config.continueAfterCppException) ==>
            status == PASSED_ON)
  {
    hide TrapHit, StepLanded;
  }

  /** Only a breakpoint elsewhere, after the first of its process, counts as an assertion of the debuggee. */
  lemma OnlyAssertions(trap: Instruction, branch: bool, v: View, p: Handle, t: ThreadId, code: int, firstChance: bool, a: nat)
    requires SitesHaveRecords(v.manager) && Serviceable(trap, v, p, t, code, firstChance, a)
    ensures ExceptionHandled(trap, branch, v, p, t, code, firstChance, a).1 == InvalidBreakPoint <==>
      firstChance && IsBreakPointCode(code) && (code, p) in v.seen && Address(p, a) !in v.manager.addressLineMap
  {
    hide TrapHit, StepLanded;
  }

  /** Whether the event that thread t has queued comes from the tool. */
  ghost predicate IsToolEvent(s: Sys, t: ThreadId)
    requires Shaped(s)
  {
    t in s.threads && (s.threads[t].status.StepQueued? || OwnTrap(s, t))
  }

  ghost function ReportedFor(env: Env, config: Debuggers.Config, s: Sys, t: ThreadId): Debuggers.ProcessStatus
    requires Inv(env, s) && t in s.threads && !s.threads[t].status.Running?
  {
    HandlersNeverThrow(env, s, t);
    var (code, a) := EventCode(s, t);
    Reported(config, env.trap, env.branch, s.view, s.threads[t].process, t, code, true, a)
  }

  /** A trap of ours is queued only after the first breakpoint of its process. */
  lemma OwnTrapSeen(env: Env, s: Sys, t: ThreadId)
    requires Inv(env, s) && OwnTrap(s, t)
    ensures (s.processes[s.threads[t].process].trapCode, s.threads[t].process) in s.view.seen
  {
    assert ThreadOk(env, s, t);
    OursIsNotNative(env, s, s.threads[t].process, s.threads[t].status.address);
  }

  lemma QueuedEvent(env: Env, config: Debuggers.Config, s: Sys, t: ThreadId)
    requires Inv(env, s) && t in s.threads && !s.threads[t].status.Running?
    ensures IsToolEvent(s, t) ==> ReportedFor(env, config, s, t) == SWALLOWED
    ensures !IsToolEvent(s, t) ==> ReportedFor(env, config, s, t) != SWALLOWED
  {
    hide Inv, Serviceable, Reported;
    InvShaped(env, s);
    var p := s.threads[t].process;
    HasTrapCode(env, s, p);
    if OwnTrap(s, t) {
      OwnTrapSeen(env, s, t);
    }
    HandlersNeverThrow(env, s, t);
    var (code, a) := EventCode(s, t);
    EveryException(config, env.trap, env.branch, s.view, p, t, code, true, a);
  }

  /**
   In every reachable state, whatever the options, the debuggee never hears of a stop
   at a trap of ours or of a step of ours, and it hears of, or ends with, every
   breakpoint of its own.
   */
  lemma ToolEventsAreSwallowed(env: Env, config: Debuggers.Config, run: seq<Sys>, events: seq<Event>, t: ThreadId)
    requires CpuOk(env.cpu, env.trap) && IsRun(env, run, events)
    requires t in run[|events|].threads && !run[|events|].threads[t].status.Running?
    ensures Inv(env, run[|events|])
    ensures ReportedFor(env, config, run[|events|], t) == SWALLOWED <==> IsToolEvent(run[|events|], t)
  {
    hide Next, ReportedFor, IsToolEvent, CpuOk;
    ReachableInv(env, run, events);
    QueuedEvent(env, config, run[|events|], t);
  }

  // ----- The processes whose first breakpoint has been seen ------------------------------------------------

  /** Only live processes are remembered, under the breakpoint codes. */
  ghost predicate SeenAlive(s: Sys) {
    forall e :: e in s.view.seen ==> IsBreakPointCode(e.0) && e.1 in s.processes
  }

  lemma HandledSeen(trap: Instruction, branch: bool, v: View, p: Handle, t: ThreadId, code: int, firstChance: bool, a: nat)
    requires SitesHaveRecords(v.manager) && Serviceable(trap, v, p, t, code, firstChance, a)
    ensures ExceptionHandled(trap, branch, v, p, t, code, firstChance, a).0.seen ==
      v.seen + if firstChance && IsBreakPointCode(code) then {(code, p)} else {}
  {
    assert (code, p) in v.seen ==> v.seen + {(code, p)} == v.seen;
    assert v.seen + {} == v.seen;
  }

  lemma SeenAfterHandling(env: Env, s: Sys, t: ThreadId, s': Sys)
    requires Shaped(s) && SeenAlive(s) && HandleStepOf(env, s, t, s')
    ensures SeenAlive(s')
  {
    hide ExceptionHandled, Serviceable;
    var (code, a) := EventCode(s, t);
    HandledSeen(env.trap, env.branch, s.view, s.threads[t].process, t, code, true, a);
  }

  lemma SeenAfterRun(env: Env, s: Sys, t: ThreadId, s': Sys)
    requires Shaped(s) && RunStep(env, s, t, s')
    ensures s'.view.seen == s.view.seen && s'.processes.Keys == s.processes.Keys
  {
  }

  lemma SeenAfterLoad(env: Env, s: Sys, p: Handle, base: nat, image: Mem, starts: set<nat>, s': Sys)
    requires Shaped(s) && LoadStep(env, s, p, base, image, starts, s')
    ensures s'.view.seen == s.view.seen && s'.processes.Keys == s.processes.Keys
  {
  }

  lemma SeenStep(env: Env, s: Sys, e: Event, s': Sys)
    requires Shaped(s) && SeenAlive(s) && Next(env, s, e, s')
    ensures SeenAlive(s')
  {
    hide HandleStepOf, RunStep, LoadStep;
    match e
    case HandleTrap(t) => SeenAfterHandling(env, s, t, s');
    case HandleStep(t) => SeenAfterHandling(env, s, t, s');
    case Debuggee(step) =>
      match step
      case Run(t) => SeenAfterRun(env, s, t, s');
      case Load(p, base, image, starts) => SeenAfterLoad(env, s, p, base, image, starts, s');
      case _ =>
  }

  /**
   In every reachable state only live processes are remembered, so a process that
   gets the handle of an exited one still has its own first breakpoint.
   */
  lemma {:induction false} SeenIsAlive(env: Env, run: seq<Sys>, events: seq<Event>)
    requires CpuOk(env.cpu, env.trap) && IsRun(env, run, events)
    ensures SeenAlive(run[|events|])
    ensures forall p, code :: p !in run[|events|].processes ==> (code, p) !in run[|events|].view.seen
  {
    hide CpuOk, Next;
    if events != [] {
      var n := |events| - 1;
      RunPrefix(env, run, events);
      SeenIsAlive(env, run[..n + 1], events[..n]);
      assert run[..n + 1][n] == run[n];
      SeenStep(env, run[n], events[n], run[n + 1]);
    }
  }
}
