/** Outcome soundness over runs: a credited outcome is an execution of the branch that landed there. */
module ProtocolOutcomes {
  import opened Common
  import opened Memory
  import opened Debuggees
  import opened AddressManagers
  import opened LineRegisters
  import opened StepTracking
  import opened CoverageRunners
  import opened NativeMachine
  import opened MemoryInvariant
  import opened ModuleLoad
  import opened Protocol
  import opened ProtocolSafety
  import opened ProtocolDeltas

  /** Thread executed the branch instruction at a registered site and landed at an address. */
  datatype Branch = Branch(thread: ThreadId, address: Address, landing: nat, site: ConditionRuntime)

  /** The thread of a run step stands at a branch site and executes it natively. */
  ghost predicate ExecutesBranch(env: Env, s: Sys, e: Event)
    requires Shaped(s)
  {
    && e.Debuggee? && e.step.Run? && e.step.t in s.threads && !Stopped(env, s, e.step.t)
    && IsSite(s, Address(s.threads[e.step.t].process, PcOf(s, e.step.t)))
  }

  ghost function NewBranches(env: Env, s: Sys, e: Event, s': Sys): seq<Branch>
    requires Shaped(s) && Shaped(s')
  {
    if ExecutesBranch(env, s, e) && e.step.t in s'.threads then
      var a := Address(s.threads[e.step.t].process, PcOf(s, e.step.t));
      [Branch(e.step.t, a, PcOf(s', e.step.t), s.view.manager.conditionSiteMap[a])]
    else []
  }

  ghost function Branches(env: Env, run: seq<Sys>, events: seq<Event>): seq<Branch>
    requires IsRun(env, run, events) && forall i :: 0 <= i < |run| ==> Shaped(run[i])
  {
    if events == [] then [] else
    var n := |events| - 1;
    RunPrefix(env, run, events);
    Branches(env, run[..n + 1], events[..n]) + NewBranches(env, run[n], events[n], run[n + 1])
  }

  ghost predicate WasTaken(branches: seq<Branch>, c: ConditionKey) {
    exists b :: b in branches && b.site.condition == c && b.landing == b.site.takenTarget
  }

  ghost predicate FellThrough(branches: seq<Branch>, c: ConditionKey) {
    exists b :: b in branches && b.site.condition == c && b.landing == b.site.fallThrough
  }

  ghost predicate RecordSound(branches: seq<Branch>, c: ConditionKey, record: ConditionState) {
    (record.takenSeen ==> WasTaken(branches, c)) && (record.notTakenSeen ==> FellThrough(branches, c))
  }

  ghost predicate RecordsSound(g: State, branches: seq<Branch>) {
    forall c :: c in g.conditions ==> RecordSound(branches, c, g.conditions[c])
  }

  /** The pending step has the targets of the live site it was armed for. */
  ghost predicate ArmedAt(s: Sys, a: Address, step: PendingStep) {
    && a.value == step.siteAddress && IsSite(s, a)
    && s.view.manager.conditionSiteMap[a].takenTarget == step.takenTarget
    && s.view.manager.conditionSiteMap[a].fallThrough == step.fallThrough
  }

  /** The finished step is an execution of the branch it was armed for. */
  ghost predicate Landed(s: Sys, branches: seq<Branch>, p: Handle, step: PendingStep, landing: nat) {
    exists b ::
      && b in branches && b.address == Address(p, step.siteAddress) && b.landing == landing
      && b.site.takenTarget == step.takenTarget && b.site.fallThrough == step.fallThrough
      && (IsSite(s, b.address) ==> s.view.manager.conditionSiteMap[b.address].condition == b.site.condition)
  }

  ghost predicate StepSound(s: Sys, branches: seq<Branch>, t: ThreadId)
    requires Shaped(s) && t in s.threads
  {
    t in s.view.pending ==>
      var p, step := s.threads[t].process, s.view.pending[t];
      match s.threads[t].status
      case Running => s.view.contexts[t].singleStep ==> ArmedAt(s, Address(p, s.view.contexts[t].pc), step)
      case TrapQueued(a) => s.view.contexts[t].singleStep ==> ArmedAt(s, Address(p, a), step)
      case StepQueued(landing) => step.siteAddress in s.processes[p].code && Landed(s, branches, p, step, landing)
  }

  ghost predicate StepsSound(s: Sys, branches: seq<Branch>)
    requires Shaped(s)
  {
    forall t :: t in s.threads ==> StepSound(s, branches, t)
  }

  // ----- Steps of a run ------------------------------------------------------------------------------

  /** A step stays sound while its thread, its site and the code under it stay. */
  lemma StepStays(s: Sys, s': Sys, branches: seq<Branch>, more: seq<Branch>, t: ThreadId)
    requires Shaped(s) && Shaped(s') && t in s.threads && t in s'.threads && StepSound(s, branches, t)
    requires s'.threads[t] == s.threads[t] && s'.view.contexts[t] == s.view.contexts[t]
    requires t in s'.view.pending ==> t in s.view.pending && s'.view.pending[t] == s.view.pending[t]
    requires t in s'.view.pending ==>
      var a := Address(s.threads[t].process, s.view.pending[t].siteAddress);
      && (s.threads[t].status.StepQueued? && a.value in CodeOf(s, t).code ==> a.value in CodeOf(s', t).code)
      && (!s.threads[t].status.StepQueued? && s.view.contexts[t].singleStep ==> IsSite(s', a))
      && (IsSite(s', a) && (IsSite(s, a) || a.value in CodeOf(s, t).code) ==>
            IsSite(s, a) && s'.view.manager.conditionSiteMap[a] == s.view.manager.conditionSiteMap[a])
    ensures StepSound(s', branches + more, t)
  {
    if t in s'.view.pending && s.threads[t].status.StepQueued? {
      var p, step := s.threads[t].process, s.view.pending[t];
      var b :| b in branches && b.address == Address(p, step.siteAddress) && b.landing == s.threads[t].status.landing
        && b.site.takenTarget == step.takenTarget && b.site.fallThrough == step.fallThrough
        && (IsSite(s, b.address) ==> s.view.manager.conditionSiteMap[b.address].condition == b.site.condition);
      assert b in branches + more;
    }
  }

  lemma RecordsStay(g: State, g': State, branches: seq<Branch>, more: seq<Branch>)
    requires RecordsSound(g, branches)
    requires forall c :: c in g'.conditions ==>
      (c in g.conditions && g'.conditions[c] == g.conditions[c]) || g'.conditions[c] == FRESH_CONDITION
    ensures RecordsSound(g', branches + more)
  {
    forall c | c in g'.conditions ensures RecordSound(branches + more, c, g'.conditions[c]) {
      assert forall b :: b in branches ==> b in branches + more;
    }
  }

  // ----- Running ----------------------------------------------------------------------------------------

  lemma RunOutcome(env: Env, s: Sys, t: ThreadId, s': Sys, branches: seq<Branch>)
    requires Inv(env, s) && Inv(env, s') && RunStep(env, s, t, s') && StepsSound(s, branches)
    ensures StepsSound(s', branches + NewBranches(env, s, Debuggee(Run(t)), s'))
  {
    hide Inv, RunStep, NativeTrap, Landed, ArmedAt, NewBranches, StepSound, Stopped;
    RunCases(env, s, t, s');
    InvShaped(env, s');
    var more := NewBranches(env, s, Debuggee(Run(t)), s');
    forall u | u in s'.threads ensures StepSound(s', branches + more, u) {
      if u == t {
        MoverSound(env, s, t, s', branches);
      } else {
        OtherSound(env, s, t, s', branches, more, u);
      }
    }
  }

  lemma OtherSound(env: Env, s: Sys, t: ThreadId, s': Sys, branches: seq<Branch>, more: seq<Branch>, u: ThreadId)
    requires Shaped(s) && Shaped(s') && t in s.threads && u in s'.threads && u != t && StepsSound(s, branches)
    requires s' == AfterTrap(env, s, t) || exists bytes :: s' == AfterExec(env, s, t, bytes)
    ensures StepSound(s', branches + more, u)
  {
    hide Landed;
    assert StepSound(s, branches, u);
    StepStays(s, s', branches, more, u);
  }

  /** The thread that moves: a stop keeps it armed, and an armed execution is logged as a branch. */
  lemma MoverSound(env: Env, s: Sys, t: ThreadId, s': Sys, branches: seq<Branch>)
    requires Inv(env, s) && Shaped(s') && RunStep(env, s, t, s') && t in s.threads && StepSound(s, branches, t)
    requires t in s'.threads
    ensures StepSound(s', branches + NewBranches(env, s, Debuggee(Run(t)), s'), t)
  {
    hide Inv, RunStep, NativeTrap, NewBranches, Stopped;
    RunCases(env, s, t, s');
    var p := s.threads[t].process;
    var a := Address(p, PcOf(s, t));
    if t in s.view.pending && s.view.contexts[t].singleStep {
      if Stopped(env, s, t) {
      } else {
        ArmedExecution(env, s, t, s', branches);
      }
    }
  }

  lemma ArmedExecution(env: Env, s: Sys, t: ThreadId, s': Sys, branches: seq<Branch>)
    requires Inv(env, s) && Shaped(s') && RunStep(env, s, t, s') && !Stopped(env, s, t)
    requires t in s.view.pending && s.view.contexts[t].singleStep && t in s'.threads
    requires ArmedAt(s, Address(s.threads[t].process, PcOf(s, t)), s.view.pending[t])
    ensures StepSound(s', branches + NewBranches(env, s, Debuggee(Run(t)), s'), t)
  {
    hide Inv, RunStep, NativeTrap, Stopped;
    RunCases(env, s, t, s');
    var p, pc := s.threads[t].process, PcOf(s, t);
    var a := Address(p, pc);
    SitesAreKnown(env, s, a);
    OursIsNotNative(env, s, p, pc);
    SiteInCode(env, s, a);
    var bytes := env.cpu.fetch(CodeOf(s, t).code, pc).value;
    assert s' == AfterExec(env, s, t, bytes);
    LoggedBranch(env, s, t, bytes, branches);
  }

  lemma SiteInCode(env: Env, s: Sys, a: Address)
    requires Inv(env, s) && Known(s, a)
    ensures a.process in s.processes && a.value in s.processes[a.process].code
  {
    KnownFacts(env, s, a);
    assert CpuOk(env.cpu, env.trap);
  }

  lemma LoggedBranch(env: Env, s: Sys, t: ThreadId, bytes: Instruction, branches: seq<Branch>)
    requires Shaped(s) && t in s.threads && s.threads[t].status == Running && Shaped(AfterExec(env, s, t, bytes))
    requires !Stopped(env, s, t) && t in s.view.pending && s.view.contexts[t].singleStep
    requires ArmedAt(s, Address(s.threads[t].process, PcOf(s, t)), s.view.pending[t])
    requires PcOf(s, t) in CodeOf(s, t).code
    ensures var s' := AfterExec(env, s, t, bytes);
      StepSound(s', branches + NewBranches(env, s, Debuggee(Run(t)), s'), t)
  {
    hide Stopped;
    var s' := AfterExec(env, s, t, bytes);
    var a := Address(s.threads[t].process, PcOf(s, t));
    var b := Branch(t, a, PcOf(s', t), s.view.manager.conditionSiteMap[a]);
    assert NewBranches(env, s, Debuggee(Run(t)), s') == [b];
    assert b in branches + [b];
    assert Landed(s', branches + [b], a.process, s.view.pending[t], PcOf(s', t));
  }

  // ----- Handling ------------------------------------------------------------------------------------------

  /** Handling a trap of ours arms the thread for the site it stands at, if any. */
  lemma TrapOutcome(env: Env, s: Sys, t: ThreadId, s': Sys, branches: seq<Branch>)
    requires Inv(env, s) && Shaped(s') && OwnTrap(s, t) && HandleStepOf(env, s, t, s') && StepsSound(s, branches)
    ensures StepsSound(s', branches)
  {
    hide Inv, HandleStepOf, Landed, Planted;
    InvShaped(env, s);
    OwnTrapDelta(env, s, t, s');
    forall u | u in s'.threads ensures StepSound(s', branches, u) {
      assert StepSound(s, branches, u);
      if u != t {
        StepStays(s, s', branches, [], u);
        assert branches + [] == branches;
      }
    }
  }

  lemma NativeTrapOutcome(env: Env, s: Sys, t: ThreadId, s': Sys, branches: seq<Branch>)
    requires Inv(env, s) && Shaped(s') && t in s.threads && s.threads[t].status.TrapQueued? && !OwnTrap(s, t)
    requires HandleStepOf(env, s, t, s') && StepsSound(s, branches)
    ensures StepsSound(s', branches)
  {
    hide Inv, HandleStepOf, Landed;
    InvShaped(env, s);
    NativeTrapDelta(env, s, t, s');
    forall u | u in s'.threads ensures StepSound(s', branches, u) {
      assert StepSound(s, branches, u);
      if u != t {
        StepStays(s, s', branches, [], u);
        assert branches + [] == branches;
      } else if t in s.view.pending && s.view.contexts[t].singleStep {
        SitesAreKnown(env, s, TrapAddress(s, t));
      }
    }
  }

  /** Handling a finished step credits an outcome that the thread's branch really had. */
  lemma StepOutcome(env: Env, s: Sys, t: ThreadId, s': Sys, branches: seq<Branch>)
    requires Inv(env, s) && Shaped(s') && t in s.threads && s.threads[t].status.StepQueued?
    requires HandleStepOf(env, s, t, s') && StepsSound(s, branches) && RecordsSound(s.view.manager, branches)
    ensures StepsSound(s', branches) && RecordsSound(s'.view.manager, branches)
  {
    hide Inv, HandleStepOf, RecordSound, PlantsAgain, Planted;
    InvShaped(env, s);
    StepDelta(env, s, t, s');
    assert StepSound(s, branches, t);
    forall u | u in s'.threads && u != t ensures StepSound(s', branches, u) {
      assert StepSound(s, branches, u);
      hide Landed;
      CreditKeepsSites(s, t, s');
      StepStays(s, s', branches, [], u);
      assert branches + [] == branches;
    }
    if Credits(s, t) && IsSite(s, StepSite(s, t)) {
      CreditIsSound(s, t, branches);
    }
  }

  lemma CreditKeepsSites(s: Sys, t: ThreadId, s': Sys)
    requires Shaped(s) && SitesHaveRecords(s.view.manager) && t in s.threads && s.threads[t].status.StepQueued?
    requires s'.view.manager == if Credits(s, t)
      then WithOutcome(s.view.manager, StepSite(s, t), s.threads[t].status.landing == s.view.pending[t].takenTarget)
      else s.view.manager
    ensures s'.view.manager.conditionSiteMap == s.view.manager.conditionSiteMap
  {
  }

  lemma CreditIsSound(s: Sys, t: ThreadId, branches: seq<Branch>)
    requires Shaped(s) && SitesHaveRecords(s.view.manager) && Credits(s, t) && IsSite(s, StepSite(s, t))
    requires StepSound(s, branches, t) && RecordsSound(s.view.manager, branches)
    ensures RecordsSound(
      WithOutcome(s.view.manager, StepSite(s, t), s.threads[t].status.landing == s.view.pending[t].takenTarget), branches)
  {
    var step, landing := s.view.pending[t], s.threads[t].status.landing;
    var g := s.view.manager;
    var c := g.conditionSiteMap[StepSite(s, t)].condition;
    assert Landed(s, branches, s.threads[t].process, step, landing);
    assert RecordSound(branches, c, g.conditions[c]);
    assert landing == step.takenTarget ==> WasTaken(branches, c);
    assert landing != step.takenTarget ==> FellThrough(branches, c);
  }

  /** Crediting a site changes the record of that site and no other. */
  lemma CreditIsLocal(g: State, a: Address, taken: bool, c: ConditionKey)
    requires SitesHaveRecords(g) && c in g.conditions
    ensures var g' := WithOutcome(g, a, taken);
      && g'.conditions.Keys == g.conditions.Keys && g'.lines == g.lines
      && (if a in g.conditionSiteMap && g.conditionSiteMap[a].condition == c then
            && g'.conditions[c].takenSeen == (g.conditions[c].takenSeen || taken)
            && g'.conditions[c].notTakenSeen == (g.conditions[c].notTakenSeen || !taken)
          else g'.conditions[c] == g.conditions[c])
  {
  }

  // ----- Processes and modules --------------------------------------------------------------------------------

  lemma LoadOutcome(env: Env, s: Sys, p: Handle, base: nat, image: Mem, starts: set<nat>, s': Sys, branches: seq<Branch>)
    requires Inv(env, s) && Shaped(s') && LoadStep(env, s, p, base, image, starts, s') && StepsSound(s, branches)
    ensures StepsSound(s', branches)
  {
    hide Inv, LoadStep, Landed, Planted;
    assert Shaped(s) by { InvShaped(env, s); }
    LoadDelta(env, s, p, base, image, starts, s');
    LoadNewSites(env, s, p, base, image, starts, s');
    LoadCode(env, s, p, base, image, starts, s');
    forall u | u in s'.threads ensures StepSound(s', branches, u) {
      assert StepSound(s, branches, u);
      if u in s.view.pending {
        var a := Address(s.threads[u].process, s.view.pending[u].siteAddress);
        if IsSite(s, a) {
          SitesAreKnown(env, s, a);
          assert Kept(env, s, s', a);
        }
      }
      StepStays(s, s', branches, [], u);
      assert branches + [] == branches;
    }
  }

  /** A load only adds sites outside the code loaded before. */
  lemma LoadNewSites(env: Env, s: Sys, p: Handle, base: nat, image: Mem, starts: set<nat>, s': Sys)
    requires Inv(env, s) && LoadStep(env, s, p, base, image, starts, s')
    ensures forall a :: IsSite(s', a) && a.process in s.processes && a.value in s.processes[a.process].code ==>
      IsSite(s, a) && s'.view.manager.conditionSiteMap[a] == s.view.manager.conditionSiteMap[a]
  {
    LoadEffects(env, s, p, base, image, starts, s');
    LoadShape(env, s, p, base, image, starts, s');
    hide StateOk, ThreadsOk, ProcessesOk, LoadStep, ImageOk, ProcessOk, LoadOk, NewPlanted, OldReadsKept, RecordsKept, Valid;
    forall a | IsSite(s', a) && a.process in s.processes && a.value in s.processes[a.process].code
      ensures IsSite(s, a) && s'.view.manager.conditionSiteMap[a] == s.view.manager.conditionSiteMap[a]
    {
      if a.process == p && a.value in starts {
        NewNotInCode(env, s.processes[p], base, image, starts, a.value);
      } else {
        assert SameSite(s.view.manager, s'.view.manager, a);
      }
    }
  }

  lemma LoadCode(env: Env, s: Sys, p: Handle, base: nat, image: Mem, starts: set<nat>, s': Sys)
    requires Shaped(s) && LoadStep(env, s, p, base, image, starts, s')
    ensures s'.processes.Keys == s.processes.Keys
    ensures forall q, x :: q in s.processes && x in s.processes[q].code ==> x in s'.processes[q].code
  {
  }

  lemma UnloadShape(env: Env, s: Sys, p: Handle, base: nat)
    requires Shaped(s) && CanUnload(env, s, p, base)
    ensures p in s.processes && base in s.processes[p].modules
  {
  }

  lemma UnloadOutcome(env: Env, s: Sys, p: Handle, base: nat, branches: seq<Branch>)
    requires Inv(env, s) && CanUnload(env, s, p, base) && StepsSound(s, branches) && Shaped(AfterUnload(s, p, base))
    ensures StepsSound(AfterUnload(s, p, base), branches)
  {
    hide Inv, Landed, Planted, CanUnload;
    InvShaped(env, s);
    UnloadShape(env, s, p, base);
    UnloadDelta(env, s, p, base);
    var s' := AfterUnload(s, p, base);
    forall u | u in s'.threads ensures StepSound(s', branches, u) {
      assert StepSound(s, branches, u);
      UnloadPending(env, s, p, base, branches, u);
      StepStays(s, s', branches, [], u);
      assert branches + [] == branches;
    }
  }

  /** A module that is not in use holds no armed site and no site of a queued step. */
  lemma UnloadPending(env: Env, s: Sys, p: Handle, base: nat, branches: seq<Branch>, u: ThreadId)
    requires Inv(env, s) && CanUnload(env, s, p, base) && u in s.threads && StepSound(s, branches, u)
    ensures u in s.view.pending ==>
      var a := Address(s.threads[u].process, s.view.pending[u].siteAddress);
      && (s.threads[u].status.StepQueued? && a.process == p ==> a.value !in s.processes[p].modules[base])
      && (!s.threads[u].status.StepQueued? && s.view.contexts[u].singleStep ==>
            a in Without(s.view.manager, p, Some(base)).conditionSiteMap)
  {
    hide StateOk, ThreadsOk, ProcessesOk, CpuOk, Landed;
    if u in s.view.pending && !s.threads[u].status.StepQueued? && s.view.contexts[u].singleStep {
      var a := Address(s.threads[u].process, s.view.pending[u].siteAddress);
      assert IsSite(s, a);
      SitesAreKnown(env, s, a);
      if a.process == p {
        assert NativeThread(env, s, u).pc == a.value || s.threads[u].status == TrapQueued(a.value);
        OursSurvives(env, s, p, base, a.value);
        SiteBase(env, s, a);
      }
    }
  }

  lemma SiteBase(env: Env, s: Sys, a: Address)
    requires Inv(env, s) && IsSite(s, a)
    ensures Known(s, a) && s.view.manager.addressLineMap[a].dllBaseOfImage == s.view.manager.conditionSiteMap[a].dllBaseOfImage
  {
    SitesAreKnown(env, s, a);
    assert ProcessInv(env, s, a.process);
    assert Address(a.process, a.value) == a;
    assert SiteOk(s.view.manager, Address(a.process, a.value));
  }

  // ----- Every step, every run ---------------------------------------------------------------------------------

  lemma OutcomeStep(env: Env, s: Sys, e: Event, s': Sys, branches: seq<Branch>)
    requires Inv(env, s) && Inv(env, s') && Next(env, s, e, s')
    requires StepsSound(s, branches) && RecordsSound(s.view.manager, branches)
    ensures StepsSound(s', branches + NewBranches(env, s, e, s'))
    ensures RecordsSound(s'.view.manager, branches + NewBranches(env, s, e, s'))
  {
    hide Inv, LoadStep, CanUnload, AfterUnload, HandleStepOf, RunStep, StepsSound, RecordsSound, Stopped, Planted;
    InvShaped(env, s);
    InvShaped(env, s');
    var more := NewBranches(env, s, e, s');
    match e
    case HandleTrap(t) =>
      assert branches + more == branches;
      TrapSurvives(env, s, t, s');
      RecordsStay(s.view.manager, s'.view.manager, branches, more);
      if OwnTrap(s, t) {
        TrapOutcome(env, s, t, s', branches);
      } else {
        NativeTrapOutcome(env, s, t, s', branches);
      }
    case HandleStep(t) =>
      assert branches + more == branches;
      StepOutcome(env, s, t, s', branches);
    case Debuggee(step) => DebuggeeOutcome(env, s, step, s', branches);
  }

  lemma DebuggeeOutcome(env: Env, s: Sys, step: Step, s': Sys, branches: seq<Branch>)
    requires Inv(env, s) && Inv(env, s') && DebuggeeStep(env, s, step, s')
    requires StepsSound(s, branches) && RecordsSound(s.view.manager, branches)
    ensures StepsSound(s', branches + NewBranches(env, s, Debuggee(step), s'))
    ensures RecordsSound(s'.view.manager, branches + NewBranches(env, s, Debuggee(step), s'))
  {
    hide Inv, LoadStep, CanUnload, HandleStepOf, RunStep, StepsSound, RecordsSound, Stopped, Planted, Kept;
    InvShaped(env, s);
    InvShaped(env, s');
    var more := NewBranches(env, s, Debuggee(step), s');
    if !step.Run? {
      assert branches + more == branches;
    }
    DebuggeeRecords(env, s, step, s');
    RecordsStay(s.view.manager, s'.view.manager, branches, more);
    match step
    case Run(t) => RunOutcome(env, s, t, s', branches);
    case Load(p, base, image, starts) => LoadOutcome(env, s, p, base, image, starts, s', branches);
    case Unload(p, base) => UnloadOutcome(env, s, p, base, branches);
    case _ => OtherOutcome(env, s, step, s', branches);
  }

  lemma DebuggeeRecords(env: Env, s: Sys, step: Step, s': Sys)
    requires Inv(env, s) && DebuggeeStep(env, s, step, s')
    ensures forall c :: c in s'.view.manager.conditions ==>
      (c in s.view.manager.conditions && s'.view.manager.conditions[c] == s.view.manager.conditions[c])
      || s'.view.manager.conditions[c] == FRESH_CONDITION
  {
    hide Inv, LoadStep, CanUnload, RunStep, Planted, Kept;
    InvShaped(env, s);
    if Quiet(Debuggee(step)) {
      QuietDelta(env, s, Debuggee(step), s');
    } else if step.Load? {
      LoadDelta(env, s, step.p, step.base, step.image, step.starts, s');
    }
  }

  /** Creations and exits: the steps that remain stay sound. */
  lemma OtherOutcome(env: Env, s: Sys, step: Step, s': Sys, branches: seq<Branch>)
    requires Shaped(s) && Shaped(s') && StepsSound(s, branches) && DebuggeeStep(env, s, step, s')
    requires step.CreateProcess? || step.ExitProcess? || step.CreateThread? || step.ExitThread?
    ensures StepsSound(s', branches)
  {
    hide Landed, Without;
    assert branches + [] == branches;
    forall u | u in s'.threads ensures StepSound(s', branches, u) {
      if u in s.threads {
        assert StepSound(s, branches, u);
        StepStays(s, s', branches, [], u);
      }
    }
  }

  lemma ReachableShaped(env: Env, run: seq<Sys>, events: seq<Event>)
    requires CpuOk(env.cpu, env.trap) && IsRun(env, run, events)
    ensures forall i :: 0 <= i < |run| ==> Shaped(run[i])
  {
    hide CpuOk, Next, IsRun;
    forall i | 0 <= i < |run| ensures Shaped(run[i]) {
      RunLength(env, run, events);
      PrefixIsRun(env, run, events, i);
      ReachableInv(env, run[..i + 1], events[..i]);
      InvShaped(env, run[..i + 1][i]);
    }
  }

  lemma {:induction false} ReachableOutcomes(env: Env, run: seq<Sys>, events: seq<Event>)
    requires CpuOk(env.cpu, env.trap) && IsRun(env, run, events) && forall i :: 0 <= i < |run| ==> Shaped(run[i])
    ensures StepsSound(run[|events|], Branches(env, run, events))
    ensures RecordsSound(run[|events|].view.manager, Branches(env, run, events))
  {
    hide CpuOk, Next, StepSound, RecordSound;
    if events != [] {
      var n := |events| - 1;
      RunPrefix(env, run, events);
      var before := run[..n + 1];
      forall i | 0 <= i < |before| ensures Shaped(before[i]) {
        assert before[i] == run[i];
      }
      ReachableOutcomes(env, run[..n + 1], events[..n]);
      assert run[..n + 1][n] == run[n];
      ReachableInv(env, run[..n + 1], events[..n]);
      ReachableInv(env, run, events);
      OutcomeStep(env, run[n], events[n], run[n + 1], Branches(env, run[..n + 1], events[..n]));
    }
  }

  /**
   Outcome soundness.  In every reachable state a condition is marked taken (not
   taken) only if some thread really executed a branch registered for it and
   landed on its taken target (its fall-through).
   */
  lemma OutcomesSound(env: Env, run: seq<Sys>, events: seq<Event>, c: ConditionKey)
    requires CpuOk(env.cpu, env.trap) && IsRun(env, run, events)
    requires c in run[|events|].view.manager.conditions
    ensures forall i :: 0 <= i < |run| ==> Shaped(run[i])
    ensures run[|events|].view.manager.conditions[c].takenSeen ==> WasTaken(Branches(env, run, events), c)
    ensures run[|events|].view.manager.conditions[c].notTakenSeen ==> FellThrough(Branches(env, run, events), c)
  {
    ReachableShaped(env, run, events);
    ReachableOutcomes(env, run, events);
  }
}
