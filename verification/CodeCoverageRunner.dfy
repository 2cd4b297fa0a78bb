/**
 CppCoverage/CodeCoverageRunner.cpp: the reactions to breakpoint and
 single-step events.  The handlers are methods of a class; each is proved
 equal to a function on the values that handlers can change.
 */
module CoverageRunners {
  import opened Common
  import opened Memory
  import opened Debuggees
  import opened BreakPoints
  import opened AddressManagers
  import opened SiteEnumerators
  import opened LineRegisters
  import opened StepTracking

  /** Everything a handler can read or change. */
  datatype View = View(
    manager: State,
    pending: map<ThreadId, PendingStep>,
    seen: set<(int, Handle)>,
    memory: map<Handle, Mem>,
    contexts: map<ThreadId, Context>)

  // ----- Handlers on values -------------------------------------------------------------

  /** The targets of a branch site; zero when the address has none or branch coverage is off. */
  ghost function SiteInfo(s: State, a: Address, branch: bool): ConditionSiteInfo {
    if branch && a in s.conditionSiteMap
    then ConditionSiteInfo(s.conditionSiteMap[a].takenTarget, s.conditionSiteMap[a].fallThrough)
    else ConditionSiteInfo(0, 0)
  }

  ghost predicate CanWrite(v: View, p: Handle, a: nat, w: nat) {
    p in v.memory && Mapped(v.memory[p], a, w)
  }

  /** A trap of ours: raise the flags, restore the instruction, rewind, and step over a branch site. */
  ghost function TrapHit(trap: Instruction, branch: bool, v: View, p: Handle, t: ThreadId, a: nat): View
    requires Address(p, a) in v.manager.addressLineMap && t in v.contexts
    requires CanWrite(v, p, a, |v.manager.addressLineMap[Address(p, a)].instructionToRestore|)
  {
    var address := Address(p, a);
    var site := SiteInfo(v.manager, address, branch);
    var isSite := site.takenTarget != 0;
    v.(manager := WithHit(v.manager, address),
       pending := if isSite then v.pending[t := PendingStep(a, site.takenTarget, site.fallThrough)] else v.pending,
       memory := v.memory[p := Write(v.memory[p], a, v.manager.addressLineMap[address].instructionToRestore)],
       contexts := v.contexts[t := Context(Rewind(v.contexts[t].pc, |trap|), v.contexts[t].singleStep || isSite)])
  }

  /**
   The thread is back at the address of its trap, and the trap is gone if and only
   if the saved instruction is not itself the trap: an address that held the trap
   before it was registered would stop the thread again and again.
   */
  lemma RestoredUnlessTrap(trap: Instruction, branch: bool, v: View, p: Handle, t: ThreadId, a: nat)
    requires Address(p, a) in v.manager.addressLineMap && t in v.contexts && a + |trap| < UINT64
    requires v.contexts[t].pc == a + |trap| && |v.manager.addressLineMap[Address(p, a)].instructionToRestore| == |trap|
    requires CanWrite(v, p, a, |trap|)
    ensures var w := TrapHit(trap, branch, v, p, t, a);
      && w.contexts[t].pc == a && Mapped(w.memory[p], a, |trap|)
      && (Read(w.memory[p], a, |trap|) == trap <==> v.manager.addressLineMap[Address(p, a)].instructionToRestore == trap)
  {
    ReadWriteSame(v.memory[p], a, v.manager.addressLineMap[Address(p, a)].instructionToRestore);
  }

  ghost predicate Classified(step: PendingStep, landing: nat) {
    landing == step.fallThrough || landing == step.takenTarget
  }

  /** The step over the branch site has landed: credit the outcome and perhaps plant the site again. */
  ghost function StepLanded(trap: Instruction, v: View, p: Handle, t: ThreadId, landing: nat): View
    requires SitesHaveRecords(v.manager)
    requires t in v.pending && Classified(v.pending[t], landing) && Replants(v, p, t, landing) ==>
      CanWrite(v, p, v.pending[t].siteAddress, |trap|)
  {
    if t !in v.pending then v else
    var step := v.pending[t];
    if !Classified(step, landing) then v.(pending := v.pending - {t}) else
    v.(pending := v.pending - {t},
       manager := WithOutcome(v.manager, Address(p, step.siteAddress), landing == step.takenTarget),
       memory := if Replants(v, p, t, landing)
                 then v.memory[p := Write(v.memory[p], step.siteAddress, trap)] else v.memory)
  }

  /** After crediting the outcome, the site still wants another observation. */
  ghost predicate Replants(v: View, p: Handle, t: ThreadId, landing: nat)
    requires SitesHaveRecords(v.manager) && t in v.pending
  {
    var a := Address(p, v.pending[t].siteAddress);
    ShouldReplant(WithOutcome(v.manager, a, landing == v.pending[t].takenTarget), a)
  }

  ghost function ProcessExited(v: View, p: Handle): View {
    v.(manager := Without(v.manager, p, None),
       pending := map[],
       seen := set s | s in v.seen && s.1 != p)
  }

  ghost function ModuleUnloaded(v: View, p: Handle, base: nat): View {
    v.(manager := Without(v.manager, p, Some(base)))
  }

  /** Planting a single address is one write. */
  lemma SingleBatch(trap: Instruction, m: Mem, a: nat, m': Mem, r: Result<seq<SavedInstruction>>)
    requires Batched(trap, m, [a], m', r)
    ensures r.Ok? <==> Mapped(m, a, |trap|)
    ensures r.Ok? ==> m' == Write(m, a, trap)
    ensures r.Throw? ==> m' == m
  {
    var chunks := Chunks(Sort([a]), 0);
    assert Sort([a]) == [a];
    var e := ChunkEnd([a], 0, 1);
    assert e == 1 && [a][0..1] == [a];
    assert Chunks([a], 1) == [];
    assert chunks == [[a]] + [];
    assert chunks[0] == [a];
    if r.Ok? {
      BatchedIsPointwise(trap, m, [a], m', r.value);
      assert [a][..0] == [];
      assert Plant(trap, m, [a]).memory == Write(m, a, trap);
      assert chunks[0] in chunks && ChunkMapped(m, chunks[0], |trap|);
    } else {
      var k: nat :| Interrupted(trap, m, chunks, k, m');
      assert k == 0 && chunks[..0] == [];
    }
  }

  /** The memory that the handler of an exception must be able to write, if any, is writable. */
  ghost predicate Serviceable(trap: Instruction, v: View, p: Handle, t: ThreadId, code: int, firstChance: bool, a: nat)
    requires SitesHaveRecords(v.manager)
  {
    && p in v.memory && t in v.contexts
    && if code == EXCEPTION_SINGLE_STEP then
         t in v.pending && Classified(v.pending[t], a) && Replants(v, p, t, a) ==>
           CanWrite(v, p, v.pending[t].siteAddress, |trap|)
       else
         Address(p, a) in v.manager.addressLineMap ==>
           CanWrite(v, p, a, |v.manager.addressLineMap[Address(p, a)].instructionToRestore|)
  }

  /** What `OnException` does and answers. */
  ghost function ExceptionHandled(trap: Instruction, branch: bool, v: View, p: Handle, t: ThreadId, code: int,
                                  firstChance: bool, a: nat): (View, ExceptionType)
    requires SitesHaveRecords(v.manager) && Serviceable(trap, v, p, t, code, firstChance, a)
  {
    if code == EXCEPTION_SINGLE_STEP then (StepLanded(trap, v, p, t, a), SingleStep) else
    match StatusOf(code, firstChance, (code, p) in v.seen)
    case BreakPointStatus =>
      if Address(p, a) in v.manager.addressLineMap then (TrapHit(trap, branch, v, p, t, a), BreakPoint)
      else (v, InvalidBreakPoint)
    case FirstChanceException =>
      (v.(seen := v.seen + if code == EXCEPTION_BREAKPOINT || code == EXCEPTION_EMULATION_X86 then {(code, p)} else {}),
       NotHandled)
    case ErrorStatus => (v, Error)
    case CppErrorStatus => (v, CppError)
  }

  /** The outcome of a step that landed, unless its site has to be written and cannot be. */
  ghost predicate Stepped(trap: Instruction, v: View, p: Handle, t: ThreadId, landing: nat, r: Result<ExceptionType>, v': View)
    requires SitesHaveRecords(v.manager)
  {
    (t in v.pending && Classified(v.pending[t], landing) && Replants(v, p, t, landing) ==>
       CanWrite(v, p, v.pending[t].siteAddress, |trap|)) ==>
      r == Ok(SingleStep) && v' == StepLanded(trap, v, p, t, landing)
  }

  /** The outcome of any exception, unless something has to be written and cannot be. */
  ghost predicate Answered(trap: Instruction, branch: bool, v: View, p: Handle, t: ThreadId, code: int, firstChance: bool,
                           a: nat, r: Result<ExceptionType>, v': View)
    requires SitesHaveRecords(v.manager)
  {
    Serviceable(trap, v, p, t, code, firstChance, a) ==>
      r.Ok? && (v', r.value) == ExceptionHandled(trap, branch, v, p, t, code, firstChance, a)
  }

  // ----- The class -------------------------------------------------------------------------

  class CodeCoverageRunner {
    const arch: Arch
    const trap: Instruction
    const branchCoverageEnabled: bool
    const os: Debuggee
    const manager: ExecutedAddressManager
    const tracker: BranchStepTracker
    const handler: ExceptionHandler

    ghost predicate Valid()
      reads manager, handler
    {
      AddressManagers.Valid(manager.Abs()) && handler.Valid()
    }

    ghost function Abs(): View
      reads os, manager, tracker, handler
    {
      View(manager.Abs(), tracker.pendingSteps, handler.Seen(), os.memory, os.contexts)
    }

    constructor (arch: Arch, branchCoverageEnabled: bool, os: Debuggee)
      ensures this.arch == arch && trap == Trap(arch) && this.branchCoverageEnabled == branchCoverageEnabled && this.os == os
      ensures Valid() && fresh(manager) && fresh(tracker) && fresh(handler)
      ensures Abs() == View(EMPTY, map[], {}, os.memory, os.contexts)
    {
      this.arch, this.trap, this.branchCoverageEnabled, this.os := arch, Trap(arch), branchCoverageEnabled, os;
      manager := new ExecutedAddressManager();
      tracker := new BranchStepTracker();
      handler := new ExceptionHandler();
    }

    ghost predicate Restorable(process: Handle, thread: ThreadId, a: nat)
      reads os, manager, tracker, handler
    {
      && Address(process, a) in manager.addressLineMap && thread in os.contexts
      && CanWrite(Abs(), process, a, |manager.addressLineMap[Address(process, a)].instructionToRestore|)
    }

    /** Whether the address is ours; throws only when the instruction cannot be restored or the thread is unknown. */
    method OnBreakPoint(process: Handle, thread: ThreadId, addressValue: nat) returns (r: Result<bool>)
      requires Valid()
      modifies os, manager, tracker
      ensures Valid()
      ensures Address(process, addressValue) !in old(manager.addressLineMap) ==> r == Ok(false) && Abs() == old(Abs())
      ensures old(Restorable(process, thread, addressValue)) ==>
        r == Ok(true) && Abs() == TrapHit(trap, branchCoverageEnabled, old(Abs()), process, thread, addressValue)
    {
      var address := Address(process, addressValue);
      var oldInstruction := manager.MarkAddressAsExecuted(address);
      if oldInstruction.None? {
        return Ok(false);
      }
      var conditionSite := ConditionSiteInfo(0, 0);
      if branchCoverageEnabled {
        conditionSite := manager.GetConditionSite(address);
      }
      var isConditionSite := conditionSite.takenTarget != 0;
      if isConditionSite {
        tracker.ArmStep(thread, PendingStep(addressValue, conditionSite.takenTarget, conditionSite.fallThrough));
      }
      var restored := RemoveBreakPoint(os, process, addressValue, oldInstruction.value);
      if !restored {
        return Throw;
      }
      var adjusted := AdjustEipAfterBreakPointRemoval(trap, os, thread, isConditionSite);
      if !adjusted {
        return Throw;
      }
      r := Ok(true);
    }

    /** Drops the pending step, credits its outcome and perhaps plants the site again. */
    method CreditStep(process: Handle, thread: ThreadId, landing: nat) returns (r: Result<ExceptionType>)
      requires Valid() && process in os.memory && thread in tracker.pendingSteps
      modifies os`memory, manager, tracker
      ensures Valid()
      ensures Stepped(trap, old(Abs()), process, thread, landing, r, Abs())
    {
      var pendingStep := tracker.pendingSteps[thread];
      var isFallThrough := landing == pendingStep.fallThrough;
      var isTaken := landing == pendingStep.takenTarget;
      tracker.CancelStep(thread);
      if isTaken || isFallThrough {
        var siteAddress := Address(process, pendingStep.siteAddress);
        manager.MarkConditionOutcome(siteAddress, isTaken);
        var replant := manager.ShouldReplantConditionSite(siteAddress);
        if replant {
          ghost var m := os.memory[process];
          var planted := SetBreakPoints(trap, os, process, [pendingStep.siteAddress]);
          SingleBatch(trap, m, pendingStep.siteAddress, os.memory[process], planted);
          if planted.Throw? {
            return Throw;
          }
          assert os.memory == old(os.memory)[process := os.memory[process]];
        }
      }
      r := Ok(SingleStep);
    }

    /**
     The landing address comes from the event on x86 and from the context of the
     thread on ARM64.  Throws without that context, or when the site is to be planted
     again and cannot be written.
     */
    method OnSingleStep(process: Handle, thread: ThreadId, address: nat) returns (r: Result<ExceptionType>)
      requires Valid() && process in os.memory
      modifies os`memory, manager, tracker
      ensures Valid()
      ensures thread !in old(tracker.pendingSteps) ==> r == Ok(SingleStep) && Abs() == old(Abs())
      ensures thread in old(tracker.pendingSteps) && arch == Arm64 && thread !in old(os.contexts) ==>
        r == Throw && Abs() == old(Abs())
      ensures arch == X86 ==> Stepped(trap, old(Abs()), process, thread, address, r, Abs())
      ensures arch == Arm64 && thread in old(os.contexts) ==>
        Stepped(trap, old(Abs()), process, thread, old(os.contexts)[thread].pc, r, Abs())
    {
      hide WithOutcome, ShouldReplant, Replants, CanWrite;
      var pending := tracker.GetPendingStep(thread);
      if pending.None? {
        return Ok(SingleStep);
      }
      var landing := address;
      if arch == Arm64 {
        if thread !in os.contexts {
          return Throw;
        }
        landing := os.contexts[thread].pc;
      }
      r := CreditStep(process, thread, landing);
    }

    method OnException(process: Handle, thread: ThreadId, code: int, firstChance: bool, address: nat)
      returns (r: Result<ExceptionType>)
      requires Valid() && process in os.memory
      modifies os, manager, tracker, handler
      ensures Valid()
      ensures code != EXCEPTION_SINGLE_STEP || arch == X86 ==>
        Answered(trap, branchCoverageEnabled, old(Abs()), process, thread, code, firstChance, address, r, Abs())
      ensures code == EXCEPTION_SINGLE_STEP && arch == Arm64 && thread in old(os.contexts) ==>
        Answered(trap, branchCoverageEnabled, old(Abs()), process, thread, code, firstChance, old(os.contexts)[thread].pc,
                 r, Abs())
    {
      if code == EXCEPTION_SINGLE_STEP {
        r := OnSingleStep(process, thread, address);
        return;
      }
      var status := handler.HandleException(process, code, firstChance);
      match status
      case BreakPointStatus =>
        assert handler.Seen() == old(handler.Seen());
        var ours := OnBreakPoint(process, thread, address);
        if ours.Throw? {
          return Throw;
        }
        return Ok(if ours.value then BreakPoint else InvalidBreakPoint);
      case FirstChanceException =>
        assert Abs() == old(Abs()).(seen := handler.Seen());
        return Ok(NotHandled);
      case ErrorStatus =>
        assert handler.Seen() == old(handler.Seen());
        return Ok(Error);
      case CppErrorStatus =>
        assert handler.Seen() == old(handler.Seen());
        return Ok(CppError);
    }

    method OnExitProcess(process: Handle)
      requires Valid()
      modifies manager, tracker, handler
      ensures Valid()
      ensures Abs() == ProcessExited(old(Abs()), process)
    {
      handler.OnExitProcess(process);
      manager.RemoveEntries(process, None);
      tracker.OnExitProcess();
    }

    method OnUnloadDll(process: Handle, baseOfDll: nat)
      requires Valid()
      modifies manager
      ensures Valid()
      ensures Abs() == ModuleUnloaded(old(Abs()), process, baseOfDll)
    {
      manager.RemoveEntries(process, Some(baseOfDll));
    }
  }
}
