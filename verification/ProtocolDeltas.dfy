/** How each transition of the protocol changes the entries, the planted traps and the records. */
module ProtocolDeltas {
  import opened Common
  import opened Memory
  import opened Debuggees
  import opened BreakPoints
  import opened AddressManagers
  import opened LineRegisters
  import opened StepTracking
  import opened CoverageRunners
  import opened NativeMachine
  import opened MemoryInvariant
  import opened ModuleLoad
  import opened Protocol
  import opened ProtocolSafety

  ghost predicate Planted(env: Env, s: Sys, a: Address) {
    a.process in s.view.memory && IsPlanted(env.trap, s.view.memory[a.process], a.value)
  }

  ghost predicate Known(s: Sys, a: Address) {
    a in s.view.manager.addressLineMap
  }

  ghost predicate IsSite(s: Sys, a: Address) {
    a in s.view.manager.conditionSiteMap
  }

  /** The address keeps its entry, its site and its trap. */
  ghost predicate Kept(env: Env, s: Sys, s': Sys, a: Address) {
    && SameEntry(s.view.manager, s'.view.manager, a) && SameSite(s.view.manager, s'.view.manager, a)
    && (Planted(env, s', a) <==> Planted(env, s, a))
  }

  /** The handling of a trap of ours by thread t. */
  ghost predicate OwnTrap(s: Sys, t: ThreadId)
    requires Shaped(s)
  {
    && t in s.threads && s.threads[t].status.TrapQueued?
    && Known(s, Address(s.threads[t].process, s.threads[t].status.address))
  }

  ghost function TrapAddress(s: Sys, t: ThreadId): Address
    requires Shaped(s) && t in s.threads && s.threads[t].status.TrapQueued?
  {
    Address(s.threads[t].process, s.threads[t].status.address)
  }

  /** Writing the original or the trap at a known address plants or unplants it, and nothing else. */
  lemma WritePlants(env: Env, s: Sys, a: Address, bytes: Instruction, s': Sys)
    requires Inv(env, s) && Known(s, a) && a.process in s.view.memory
    requires bytes == env.trap || bytes == s.view.manager.addressLineMap[a].instructionToRestore
    requires Mapped(s.view.memory[a.process], a.value, |bytes|)
    requires s'.view.memory == s.view.memory[a.process := Write(s.view.memory[a.process], a.value, bytes)]
    ensures Planted(env, s', a) <==> bytes == env.trap
    ensures forall b :: Known(s, b) && b != a ==> (Planted(env, s', b) <==> Planted(env, s, b))
  {
    KnownFacts(env, s, a);
    forall b | Known(s, b) ensures Planted(env, s', b) <==> if b == a then bytes == env.trap else Planted(env, s, b) {
      KnownFacts(env, s, b);
      hide Inv, Planted;
      WritePlantsAt(env, s, a, bytes, s', b);
    }
  }

  lemma WritePlantsAt(env: Env, s: Sys, a: Address, bytes: Instruction, s': Sys, b: Address)
    requires SoundAt(env, s, a) && Known(s, a) && Known(s, b) && a.process in s.view.memory && b.process in s.view.memory
    requires bytes == env.trap || bytes == s.view.manager.addressLineMap[a].instructionToRestore
    requires Mapped(s.view.memory[a.process], a.value, |bytes|)
    requires s'.view.memory == s.view.memory[a.process := Write(s.view.memory[a.process], a.value, bytes)]
    ensures Planted(env, s', b) <==> if b == a then bytes == env.trap else Planted(env, s, b)
  {
    var p := a.process;
    assert Address(p, a.value) == a && Address(b.process, b.value) == b;
    hide ImageOk, ProcessOk, Write;
    WriteKeeps(env.cpu, env.trap, p, s.processes[p], s.view.manager, s.view.memory[p], a.value, bytes);
  }

  ghost predicate SoundAt(env: Env, s: Sys, a: Address) {
    && a.process in s.processes && a.process in s.view.memory
    && ImageOk(env.cpu, |env.trap|, s.processes[a.process])
    && ProcessOk(env.trap, a.process, s.processes[a.process], s.view.manager, s.view.memory[a.process])
  }

  lemma KnownFacts(env: Env, s: Sys, a: Address)
    requires Inv(env, s) && Known(s, a)
    ensures Address(a.process, a.value) == a && a.process in s.processes && a.process in s.view.memory
    ensures ProcessInv(env, s, a.process) && SoundAt(env, s, a)
    ensures EntryOk(env.trap, s.processes[a.process], s.view.memory[a.process], a.value, s.view.manager.addressLineMap[a])
  {
    assert ProcessInv(env, s, a.process);
    assert Address(a.process, a.value) == a;
  }

  lemma OwnTrapDelta(env: Env, s: Sys, t: ThreadId, s': Sys)
    requires Inv(env, s) && OwnTrap(s, t) && HandleStepOf(env, s, t, s')
    ensures var a := TrapAddress(s, t);
      && CanWrite(s.view, a.process, a.value, |s.view.manager.addressLineMap[a].instructionToRestore|)
      && t in s.view.contexts
      && s' == Resumed(s, t, TrapHit(env.trap, env.branch, s.view, a.process, t, a.value))
      && !Planted(env, s', a) && s'.view.contexts[t].pc == a.value
      && (forall b :: Known(s, b) && b != a ==> (Planted(env, s', b) <==> Planted(env, s, b)))
  {
    var a := TrapAddress(s, t);
    KnownFacts(env, s, a);
    OwnTrapState(env, s, t, s');
    TrapHitCorrect(env, s, t, a.value);
    hide Inv, ImageOk, ProcessOk, HandleStepOf;
    WritePlants(env, s, a, s.view.manager.addressLineMap[a].instructionToRestore, s');
  }

  lemma OwnTrapState(env: Env, s: Sys, t: ThreadId, s': Sys)
    requires Inv(env, s) && OwnTrap(s, t) && HandleStepOf(env, s, t, s')
    ensures var a := TrapAddress(s, t);
      && CanWrite(s.view, a.process, a.value, |s.view.manager.addressLineMap[a].instructionToRestore|)
      && t in s.view.contexts
      && s' == Resumed(s, t, TrapHit(env.trap, env.branch, s.view, a.process, t, a.value))
  {
    var a := TrapAddress(s, t);
    assert ThreadOk(env, s, t) && ProcessInv(env, s, a.process);
    OursIsNotNative(env, s, a.process, a.value);
    hide Inv, ImageOk, ProcessOk, NativeTrap, TrapHit;
    InvShaped(env, s);
    OwnTrapView(env, s.view, a.process, t, s.processes[a.process].trapCode, a.value);
  }

  lemma NativeTrapDelta(env: Env, s: Sys, t: ThreadId, s': Sys)
    requires Inv(env, s) && t in s.threads && s.threads[t].status.TrapQueued? && !OwnTrap(s, t) && HandleStepOf(env, s, t, s')
    ensures s' == Resumed(s, t, s.view.(seen := s'.view.seen))
  {
    HasTrapCode(env, s, s.threads[t].process);
    hide Inv, Serviceable;
    var p, a := s.threads[t].process, s.threads[t].status.address;
    NativeTrapView(env, s.view, p, t, s.processes[p].trapCode, a);
  }

  lemma HasTrapCode(env: Env, s: Sys, p: Handle)
    requires Inv(env, s) && p in s.processes
    ensures IsTrapCode(s.processes[p].trapCode)
  {
    assert ProcessInv(env, s, p);
  }

  /** The step of thread t is credited. */
  ghost predicate Credits(s: Sys, t: ThreadId)
    requires Shaped(s)
  {
    && t in s.threads && s.threads[t].status.StepQueued? && t in s.view.pending
    && Classified(s.view.pending[t], s.threads[t].status.landing)
  }

  ghost function StepSite(s: Sys, t: ThreadId): Address
    requires Shaped(s) && t in s.threads && t in s.view.pending
  {
    Address(s.threads[t].process, s.view.pending[t].siteAddress)
  }

  ghost predicate PlantsAgain(s: Sys, t: ThreadId)
    requires Shaped(s) && SitesHaveRecords(s.view.manager)
  {
    Credits(s, t) && Replants(s.view, s.threads[t].process, t, s.threads[t].status.landing)
  }

  lemma StepDelta(env: Env, s: Sys, t: ThreadId, s': Sys)
    requires Inv(env, s) && t in s.threads && s.threads[t].status.StepQueued? && HandleStepOf(env, s, t, s')
    ensures s'.processes == s.processes && s'.threads == s.threads[t := s.threads[t].(status := Running)]
    ensures s'.view.contexts == s.view.contexts && s'.view.seen == s.view.seen
    ensures s'.view.pending == s.view.pending - {t}
    ensures s'.view.manager == if Credits(s, t)
      then WithOutcome(s.view.manager, StepSite(s, t), s.threads[t].status.landing == s.view.pending[t].takenTarget)
      else s.view.manager
    ensures if PlantsAgain(s, t) then
        && IsSite(s, StepSite(s, t)) && Known(s, StepSite(s, t))
        && Planted(env, s', StepSite(s, t))
        && (forall b :: Known(s, b) && b != StepSite(s, t) ==> (Planted(env, s', b) <==> Planted(env, s, b)))
      else s'.view.memory == s.view.memory
  {
    hide CpuOk, ThreadsOk, ImageOk, ProcessOk;
    var p := s.threads[t].process;
    StepView(env, s, t, s');
    if PlantsAgain(s, t) {
      var a := StepSite(s, t);
      assert IsSite(s, a);
      SiteRegistered(env, s, p, a.value);
      WritePlants(env, s, a, env.trap, s');
    }
  }

  /** A handled step plants its own site or nothing. */
  lemma StepPlantsMore(env: Env, s: Sys, t: ThreadId, s': Sys)
    requires Inv(env, s) && t in s.threads && s.threads[t].status.StepQueued? && HandleStepOf(env, s, t, s')
    ensures s'.view.manager.addressLineMap == s.view.manager.addressLineMap
    ensures forall a :: Known(s, a) && Planted(env, s, a) ==> Planted(env, s', a)
  {
    hide ImageOk, ProcessOk, CpuOk, ThreadsOk, ProcessesOk, HandleStepOf, Classified, Planted, Replants;
    StepDelta(env, s, t, s');
    if PlantsAgain(s, t) {
      forall a | Known(s, a) && Planted(env, s, a) ensures Planted(env, s', a) {
        assert a != StepSite(s, t) ==> Planted(env, s', a);
      }
    } else {
      SameMemoryPlanted(env, s, s');
    }
  }

  lemma SameMemoryPlanted(env: Env, s: Sys, s': Sys)
    requires s'.view.memory == s.view.memory
    ensures forall a :: Planted(env, s, a) <==> Planted(env, s', a)
  {
  }

  lemma StepView(env: Env, s: Sys, t: ThreadId, s': Sys)
    requires Inv(env, s) && t in s.threads && s.threads[t].status.StepQueued? && HandleStepOf(env, s, t, s')
    ensures s'.processes == s.processes && s'.threads == s.threads[t := s.threads[t].(status := Running)]
    ensures s'.view.contexts == s.view.contexts && s'.view.seen == s.view.seen
    ensures s'.view.pending == s.view.pending - {t}
    ensures s'.view.manager == if Credits(s, t)
      then WithOutcome(s.view.manager, StepSite(s, t), s.threads[t].status.landing == s.view.pending[t].takenTarget)
      else s.view.manager
    ensures !PlantsAgain(s, t) ==> s'.view.memory == s.view.memory
    ensures PlantsAgain(s, t) ==>
      var a := StepSite(s, t);
      CanWrite(s.view, a.process, a.value, |env.trap|) &&
      s'.view.memory == s.view.memory[a.process := Write(s.view.memory[a.process], a.value, env.trap)]
  {
    hide CpuOk, ThreadsOk, ProcessesOk, WithOutcome, Mapped, Write, ShouldReplant;
  }

  // ----- Loads, unloads, exits ------------------------------------------------------------------------

  /** Old addresses are untouched by a load, and new ones are planted. */
  lemma LoadDelta(env: Env, s: Sys, p: Handle, base: nat, image: Mem, starts: set<nat>, s': Sys)
    requires Inv(env, s) && LoadStep(env, s, p, base, image, starts, s')
    ensures forall a :: Known(s, a) ==> Kept(env, s, s', a)
    ensures forall a :: Known(s', a) && !Known(s, a) ==> a.process == p && Planted(env, s', a)
    ensures RecordsKept(s.view.manager, s'.view.manager)
    ensures s'.view.pending == s.view.pending && s'.threads == s.threads && s'.view.contexts == s.view.contexts
  {
    hide CpuOk, StateOk, ThreadsOk, ProcessesOk, ImageOk, ProcessOk, LoadOk, ModuleRegistered, RecordsKept;
    LoadEffects(env, s, p, base, image, starts, s');
    LoadOthers(env, s, p, base, image, starts, s');
    forall a | Known(s, a) ensures Kept(env, s, s', a) {
      LoadKept(env, s, p, starts, image, s', a);
    }
    forall a | Known(s', a) && !Known(s, a) ensures a.process == p && Planted(env, s', a) {
      assert a.process != p ==> SameEntry(s.view.manager, s'.view.manager, a);
      assert Address(a.process, a.value) == a;
    }
  }

  lemma LoadShape(env: Env, s: Sys, p: Handle, base: nat, image: Mem, starts: set<nat>, s': Sys)
    requires Shaped(s) && LoadStep(env, s, p, base, image, starts, s')
    ensures p in s.processes && LoadOk(env.cpu, |env.trap|, s.processes[p], base, image, starts)
  {
  }

  lemma NewNotInCode(env: Env, proc: Process, base: nat, image: Mem, starts: set<nat>, a: nat)
    requires CpuOk(env.cpu, env.trap) && LoadOk(env.cpu, |env.trap|, proc, base, image, starts) && a in starts
    ensures a !in proc.code
  {
    StartMapped(env.cpu, env.trap, image, starts, a);
  }

  lemma LoadOthers(env: Env, s: Sys, p: Handle, base: nat, image: Mem, starts: set<nat>, s': Sys)
    requires Shaped(s) && LoadStep(env, s, p, base, image, starts, s')
    ensures s'.view.pending == s.view.pending && s'.threads == s.threads && s'.view.contexts == s.view.contexts
    ensures p in s.view.memory && s'.view.memory.Keys == s.view.memory.Keys
    ensures forall q :: q in s.view.memory && q != p ==> s'.view.memory[q] == s.view.memory[q]
  {
  }

  lemma LoadKept(env: Env, s: Sys, p: Handle, starts: set<nat>, image: Mem, s': Sys, a: Address)
    requires p in s.view.memory && p in s'.view.memory && Known(s, a) && s'.view.memory.Keys == s.view.memory.Keys
    requires LoadEffect(env.trap, p, starts, s.view.manager, s.view.memory[p] + image, s'.view.manager, s'.view.memory[p])
    requires NoneIn(s.view.manager, p, starts)
    requires forall b :: Address(p, b) in s.view.manager.addressLineMap ==>
      Mapped(s.view.memory[p], b, |env.trap|) &&
      Read(s.view.memory[p] + image, b, |env.trap|) == Read(s.view.memory[p], b, |env.trap|)
    requires forall q :: q in s.view.memory && q != p ==> s'.view.memory[q] == s.view.memory[q]
    ensures Kept(env, s, s', a)
  {
    hide RecordsKept, Valid, ConditionsHaveLines, NewPlanted;
    if a.process == p {
      assert Address(p, a.value) == a;
      assert a.value !in starts;
    }
    assert SameEntry(s.view.manager, s'.view.manager, a) && SameSite(s.view.manager, s'.view.manager, a);
  }

  lemma UnloadDelta(env: Env, s: Sys, p: Handle, base: nat)
    requires Inv(env, s) && CanUnload(env, s, p, base)
    ensures var s' := AfterUnload(s, p, base);
      && (forall a :: Known(s', a) ==> Known(s, a) && Kept(env, s, s', a))
      && (forall a :: IsSite(s', a) ==>
            IsSite(s, a) && s'.view.manager.conditionSiteMap[a] == s.view.manager.conditionSiteMap[a])
  {
    var s' := AfterUnload(s, p, base);
    forall a | Known(s', a) ensures Known(s, a) && Kept(env, s, s', a) {
      UnloadSites(env, s, p, base, a);
      UnloadPlanted(env, s, p, base, a);
    }
  }

  lemma UnloadPlanted(env: Env, s: Sys, p: Handle, base: nat, a: Address)
    requires Inv(env, s) && p in s.processes && base in s.processes[p].modules
    requires a in Without(s.view.manager, p, Some(base)).addressLineMap
    ensures Planted(env, AfterUnload(s, p, base), a) <==> Planted(env, s, a)
  {
    assert ProcessInv(env, s, p);
    UnloadedReads(env, p, s.processes[p], s.view.manager, s.view.memory[p], base);
    assert Address(a.process, a.value) == a;
    hide Inv, Unloaded, Without, IsPlanted;
    UnloadedMemory(env, s, p, base, a.process);
  }

  lemma UnloadedMemory(env: Env, s: Sys, p: Handle, base: nat, q: Handle)
    requires Shaped(s) && p in s.processes && base in s.processes[p].modules
    ensures q in AfterUnload(s, p, base).view.memory <==> q in s.view.memory
    ensures q in s.view.memory ==> (AfterUnload(s, p, base).view.memory[q] ==
      if q == p then s.view.memory[p] - s.processes[p].modules[base] else s.view.memory[q])
  {
  }

  lemma UnloadedReads(env: Env, p: Handle, proc: Process, g: State, m: Mem, base: nat)
    requires CpuOk(env.cpu, env.trap) && ImageOk(env.cpu, |env.trap|, proc) && ProcessOk(env.trap, p, proc, g, m)
    requires base in proc.modules
    ensures forall a :: Address(p, a) in Without(g, p, Some(base)).addressLineMap ==>
      (IsPlanted(env.trap, m - proc.modules[base], a) <==> IsPlanted(env.trap, m, a))
  {
    hide ImageOk, ProcessOk, CpuOk;
    UnloadedProcess(env.cpu, env.trap, p, proc, g, m, base);
  }

  lemma UnloadSites(env: Env, s: Sys, p: Handle, base: nat, a: Address)
    requires Inv(env, s) && p in s.processes && a in Without(s.view.manager, p, Some(base)).addressLineMap
    ensures SameEntry(s.view.manager, Without(s.view.manager, p, Some(base)), a)
    ensures SameSite(s.view.manager, Without(s.view.manager, p, Some(base)), a)
  {
    if a.process == p && IsSite(s, a) {
      assert ProcessInv(env, s, p);
      assert Address(p, a.value) == a && SiteOk(s.view.manager, Address(p, a.value));
    }
  }

  lemma ExitDelta(env: Env, s: Sys, p: Handle)
    requires Inv(env, s) && p in s.processes
    ensures var s' := AfterExitProcess(s, p);
      && (forall a :: Known(s', a) ==> Known(s, a) && a.process != p && Kept(env, s, s', a))
      && (forall a :: IsSite(s', a) ==>
            IsSite(s, a) && a.process != p && s'.view.manager.conditionSiteMap[a] == s.view.manager.conditionSiteMap[a])
  {
    hide CpuOk, StateOk, ThreadsOk, ProcessesOk;
  }

  /** Every site is a known address. */
  lemma SitesAreKnown(env: Env, s: Sys, a: Address)
    requires Inv(env, s) && IsSite(s, a)
    ensures Known(s, a) && a.process in s.processes
  {
    SiteRegistered(env, s, a.process, a.value);
    assert Address(a.process, a.value) == a;
  }

  /** The transitions that touch neither the bookkeeping nor the memory. */
  ghost predicate Quiet(e: Event) {
    e.Debuggee? && (e.step.CreateProcess? || e.step.CreateThread? || e.step.ExitThread? || e.step.Run?)
  }

  lemma QuietDelta(env: Env, s: Sys, e: Event, s': Sys)
    requires Inv(env, s) && Next(env, s, e, s') && Quiet(e)
    ensures s'.view.manager == s.view.manager && s'.view.pending == s.view.pending
    ensures forall p :: p in s.view.memory ==> p in s'.view.memory && s'.view.memory[p] == s.view.memory[p]
    ensures forall a :: Known(s, a) ==> Kept(env, s, s', a)
  {
    hide CpuOk, ThreadsOk, ProcessesOk, Next;
    QuietView(env, s, e, s');
    forall a | Known(s, a) ensures Kept(env, s, s', a) {
      assert a.process in s.processes;
    }
  }

  lemma QuietView(env: Env, s: Sys, e: Event, s': Sys)
    requires Shaped(s) && Next(env, s, e, s') && Quiet(e)
    ensures s'.view.manager == s.view.manager && s'.view.pending == s.view.pending
    ensures forall p :: p in s.view.memory ==> p in s'.view.memory && s'.view.memory[p] == s.view.memory[p]
  {
  }

  // ----- Records are never lost --------------------------------------------------------------------------

  ghost predicate LinesSurvive(g: State, g': State) {
    forall k :: k in g.lines ==> k in g'.lines && (g.lines[k] ==> g'.lines[k])
  }

  ghost predicate ConditionsSurvive(g: State, g': State) {
    forall c :: c in g.conditions ==>
      && c in g'.conditions
      && (g.conditions[c].takenSeen ==> g'.conditions[c].takenSeen)
      && (g.conditions[c].notTakenSeen ==> g'.conditions[c].notTakenSeen)
  }

  /** No event clears a line flag or an outcome: not an unload, a reload, a process exit or a re-registration. */
  lemma RecordsSurvive(env: Env, s: Sys, e: Event, s': Sys)
    requires Inv(env, s) && Next(env, s, e, s')
    ensures LinesSurvive(s.view.manager, s'.view.manager) && ConditionsSurvive(s.view.manager, s'.view.manager)
  {
    hide Inv, LoadStep, CanUnload, HandleStepOf, RunStep;
    assert Shaped(s) by { InvShaped(env, s); }
    if Quiet(e) {
      QuietDelta(env, s, e, s');
    } else {
      match e
      case HandleTrap(t) => TrapSurvives(env, s, t, s');
      case HandleStep(t) => StepSurvives(env, s, t, s');
      case Debuggee(step) =>
        match step
        case ExitProcess(p) =>
        case Load(p, base, image, starts) => LoadDelta(env, s, p, base, image, starts, s');
        case Unload(p, base) =>
        case _ =>
    }
  }

  lemma TrapSurvives(env: Env, s: Sys, t: ThreadId, s': Sys)
    requires Inv(env, s) && t in s.threads && s.threads[t].status.TrapQueued? && HandleStepOf(env, s, t, s')
    ensures LinesSurvive(s.view.manager, s'.view.manager) && s'.view.manager.conditions == s.view.manager.conditions
  {
    hide Inv, HandleStepOf;
    assert Shaped(s) by { InvShaped(env, s); }
    if OwnTrap(s, t) {
      OwnTrapDelta(env, s, t, s');
    } else {
      NativeTrapDelta(env, s, t, s');
    }
  }

  lemma StepSurvives(env: Env, s: Sys, t: ThreadId, s': Sys)
    requires Inv(env, s) && t in s.threads && s.threads[t].status.StepQueued? && HandleStepOf(env, s, t, s')
    ensures s'.view.manager.lines == s.view.manager.lines && ConditionsSurvive(s.view.manager, s'.view.manager)
  {
    hide Inv, HandleStepOf, Planted, PlantsAgain;
    StepDelta(env, s, t, s');
  }
}
