/** No lost site: what is still worth observing is planted, trapped at, or being stepped over. */
module ProtocolNoLost {
  import opened Common
  import opened Memory
  import opened Debuggees
  import opened AddressManagers
  import opened LineRegisters
  import opened StepTracking
  import opened CoverageRunners
  import opened NativeMachine
  import opened ModuleLoad
  import opened Protocol
  import opened ProtocolSafety
  import opened ProtocolDeltas
  import opened ProtocolOutcomes
  import opened ProtocolBounds
  import opened ProtocolCounting

  /** A live site with an unseen outcome and fewer observations than the cap. */
  ghost predicate Wanting(s: Sys, l: Ledger, a: Address)
    requires SitesHaveRecords(s.view.manager)
  {
    && IsSite(s, a)
    && var c := s.view.manager.conditionSiteMap[a].condition;
       (!s.view.manager.conditions[c].takenSeen || !s.view.manager.conditions[c].notTakenSeen) &&
       Count(l, c) < 100
  }

  ghost predicate TrapPending(s: Sys, t: ThreadId, a: Address) {
    t in s.threads && s.threads[t].process == a.process && s.threads[t].status == TrapQueued(a.value)
  }

  /** Thread t is about to step over the branch at a, or has done so and will be credited. */
  ghost predicate Stepping(s: Sys, t: ThreadId, a: Address)
    requires Shaped(s)
  {
    && t in s.threads && s.threads[t].process == a.process
    && t in s.view.pending && s.view.pending[t].siteAddress == a.value
    && match s.threads[t].status
       case Running => s.view.contexts[t].singleStep && PcOf(s, t) == a.value
       case StepQueued(landing) => Classified(s.view.pending[t], landing)
       case TrapQueued(_) => false
  }

  ghost predicate Watches(s: Sys, t: ThreadId, a: Address)
    requires Shaped(s)
  {
    TrapPending(s, t, a) || Stepping(s, t, a)
  }

  ghost predicate Watched(env: Env, s: Sys, a: Address)
    requires Shaped(s)
  {
    Planted(env, s, a) || exists t :: Watches(s, t, a)
  }

  ghost predicate NoLost(env: Env, s: Sys, l: Ledger)
    requires Shaped(s) && SitesHaveRecords(s.view.manager)
  {
    forall a :: Wanting(s, l, a) ==> Watched(env, s, a)
  }

  /** What the branch detector promises: a nonzero taken target, and a branch that lands on one of the two targets. */
  ghost predicate Faithful(env: Env, s: Sys, a: Address)
    requires IsSite(s, a)
  {
    var site := s.view.manager.conditionSiteMap[a];
    && site.takenTarget != 0
    && a.process in s.processes
    && var fetched := env.cpu.fetch(s.processes[a.process].code, a.value);
       fetched.Some? ==>
         forall regs, heap ::
           var landing := env.cpu.exec(a.value, fetched.value, regs, heap).0;
           landing == site.takenTarget || landing == site.fallThrough
  }

  ghost predicate SitesFaithful(env: Env, s: Sys) {
    forall a :: IsSite(s, a) ==> Faithful(env, s, a)
  }

  /**
   The exact condition on an event.  A process exit drops every thread's pending
   step, so no site of another process may depend on one; a thread exit is never
   told to the runner, so no site may depend on the exiting thread.
   */
  ghost predicate Gentle(env: Env, s: Sys, l: Ledger, e: Event)
    requires Shaped(s) && SitesHaveRecords(s.view.manager)
  {
    match e
    case Debuggee(ExitProcess(p)) =>
      forall a :: Wanting(s, l, a) && a.process != p ==> Planted(env, s, a) || exists t :: TrapPending(s, t, a)
    case Debuggee(ExitThread(t)) =>
      forall a :: Wanting(s, l, a) ==> Planted(env, s, a) || exists u :: u != t && Watches(s, u, a)
    case _ => true
  }

  // ----- Wanting is never gained by an old site ------------------------------------------------------------

  lemma WantingBefore(s: Sys, s': Sys, l: Ledger, l': Ledger, a: Address)
    requires SitesHaveRecords(s.view.manager) && SitesHaveRecords(s'.view.manager) && Wanting(s', l', a)
    requires IsSite(s, a) && s'.view.manager.conditionSiteMap[a] == s.view.manager.conditionSiteMap[a]
    requires ConditionsSurvive(s.view.manager, s'.view.manager)
    requires forall c :: Count(l', c) >= Count(l, c)
    ensures Wanting(s, l, a)
  {
  }

  ghost predicate SameSiteAt(s: Sys, s': Sys, a: Address) {
    IsSite(s, a) && IsSite(s', a) && s'.view.manager.conditionSiteMap[a] == s.view.manager.conditionSiteMap[a]
  }

  /** A site that is not planted was a site before. */
  lemma OldSite(env: Env, s: Sys, e: Event, s': Sys, a: Address)
    requires Inv(env, s) && Inv(env, s') && Shaped(s) && Next(env, s, e, s') && IsSite(s', a) && !Planted(env, s', a)
    ensures SameSiteAt(s, s', a)
  {
    hide Inv, LoadStep, CanUnload, HandleStepOf, RunStep, Planted, Known, Kept, AfterUnload;
    InvShaped(env, s);
    match e
    case HandleTrap(t) =>
      if OwnTrap(s, t) {
        OwnTrapDelta(env, s, t, s');
      } else {
        NativeTrapDelta(env, s, t, s');
      }
    case HandleStep(t) =>
      StepDelta(env, s, t, s');
      hide PlantsAgain;
      CreditKeepsSites(s, t, s');
    case Debuggee(step) =>
      match step
      case Load(p, base, image, starts) =>
        LoadDelta(env, s, p, base, image, starts, s');
        SitesAreKnown(env, s', a);
        assert Kept(env, s, s', a);
        KeptSite(env, s, s', a);
      case Unload(p, base) => UnloadDelta(env, s, p, base);
      case _ =>
        if Quiet(e) {
          QuietDelta(env, s, e, s');
        }
  }

  lemma KeptSite(env: Env, s: Sys, s': Sys, a: Address)
    requires Kept(env, s, s', a) && IsSite(s', a)
    ensures SameSiteAt(s, s', a)
  {
  }

  // ----- Watching survives ----------------------------------------------------------------------------------

  lemma WatchesStay(s: Sys, s': Sys, t: ThreadId, a: Address)
    requires Shaped(s) && Shaped(s') && Watches(s, t, a) && t in s'.threads
    requires s'.threads[t] == s.threads[t] && s'.view.contexts[t] == s.view.contexts[t]
    requires t in s.view.pending ==> t in s'.view.pending && s'.view.pending[t] == s.view.pending[t]
    ensures Watches(s', t, a)
  {
  }

  /** Threads, contexts and pending steps that were there are still there, unchanged. */
  ghost predicate ThreadsStay(s: Sys, s': Sys)
    requires Shaped(s) && Shaped(s')
  {
    && (forall t :: t in s.threads ==>
          t in s'.threads && s'.threads[t] == s.threads[t] && s'.view.contexts[t] == s.view.contexts[t])
    && s'.view.pending == s.view.pending
  }

  lemma WatchedStays(env: Env, s: Sys, s': Sys, a: Address)
    requires Shaped(s) && Shaped(s') && ThreadsStay(s, s') && Watched(env, s, a)
    requires Planted(env, s, a) ==> Planted(env, s', a)
    ensures Watched(env, s', a)
  {
    hide Planted, Watches;
    if !Planted(env, s, a) {
      var t :| Watches(s, t, a);
      assert t in s.threads by { WatcherExists(s, t, a); }
      WatchesStay(s, s', t, a);
    }
  }

  lemma WatcherExists(s: Sys, t: ThreadId, a: Address)
    requires Shaped(s) && Watches(s, t, a)
    ensures t in s.threads
  {
  }

  lemma RunWatch(env: Env, s: Sys, t: ThreadId, s': Sys, branches: seq<Branch>, a: Address)
    requires Inv(env, s) && Shaped(s) && Shaped(s') && RunStep(env, s, t, s') && StepsSound(s, branches)
    requires SitesFaithful(env, s) && IsSite(s, a) && Watched(env, s, a)
    ensures Watched(env, s', a)
  {
    hide Inv, RunStep, Planted, Watches, StepsSound, SitesFaithful, Stopped;
    if Planted(env, s, a) {
      SitesAreKnown(env, s, a);
      QuietDelta(env, s, Debuggee(Run(t)), s');
      assert Kept(env, s, s', a);
    } else {
      var u :| Watches(s, u, a);
      RunWatches(env, s, t, s', branches, a, u);
    }
  }

  lemma RunWatches(env: Env, s: Sys, t: ThreadId, s': Sys, branches: seq<Branch>, a: Address, u: ThreadId)
    requires Inv(env, s) && Shaped(s) && Shaped(s') && RunStep(env, s, t, s') && StepsSound(s, branches)
    requires SitesFaithful(env, s) && IsSite(s, a) && Watches(s, u, a) && !Planted(env, s, a)
    ensures Watches(s', u, a)
  {
    hide Inv, RunStep, NativeTrap, Planted, Landed, Faithful, AfterTrap, AfterExec, Stopped;
    RunCases(env, s, t, s');
    if u != t {
      OthersStay(env, s, t, s', u);
      WatchesStay(s, s', u, a);
    } else {
      SitesAreKnown(env, s, a);
      assert Address(a.process, a.value) == a;
      OursIsNotNative(env, s, a.process, a.value);
      assert StepSound(s, branches, t);
      assert !Stopped(env, s, t) by { NotStopped(env, s, t, a); }
      var bytes := env.cpu.fetch(CodeOf(s, t).code, PcOf(s, t)).value;
      NotTheTrap(env, s, t);
      ExecWatches(env, s, t, a, bytes);
    }
  }

  lemma NotStopped(env: Env, s: Sys, t: ThreadId, a: Address)
    requires Shaped(s) && t in s.threads && !Planted(env, s, a)
    requires a.process == s.threads[t].process && a.value == PcOf(s, t)
    ensures !Stopped(env, s, t)
  {
  }

  lemma NotTheTrap(env: Env, s: Sys, t: ThreadId)
    requires Inv(env, s) && t in s.threads && !NativeTrap(env, CodeOf(s, t), PcOf(s, t))
    ensures env.cpu.fetch(CodeOf(s, t).code, PcOf(s, t)) != Some(env.trap)
  {
    TrapIffFetched(env, CodeOf(s, t), PcOf(s, t));
  }

  lemma OthersStay(env: Env, s: Sys, t: ThreadId, s': Sys, u: ThreadId)
    requires Shaped(s) && Shaped(s') && t in s.threads && u in s.threads && u != t
    requires s' == AfterTrap(env, s, t) || exists bytes :: s' == AfterExec(env, s, t, bytes)
    ensures u in s'.threads && s'.threads[u] == s.threads[u] && s'.view.contexts[u] == s.view.contexts[u]
    ensures s'.view.pending == s.view.pending
  {
  }

  /** Stepping over a branch lands on one of its targets. */
  lemma ExecWatches(env: Env, s: Sys, t: ThreadId, a: Address, bytes: Instruction)
    requires Shaped(s) && Stepping(s, t, a) && s.threads[t].status == Running && Shaped(AfterExec(env, s, t, bytes))
    requires ArmedAt(s, a, s.view.pending[t]) && Faithful(env, s, a)
    requires env.cpu.fetch(CodeOf(s, t).code, PcOf(s, t)) == Some(bytes)
    ensures Watches(AfterExec(env, s, t, bytes), t, a)
  {
    var worker, proc, context := s.threads[t], CodeOf(s, t), s.view.contexts[t];
    var landing := env.cpu.exec(context.pc, bytes, worker.regs, proc.heap).0;
    assert Classified(s.view.pending[t], landing);
  }

  /** Handling our trap at a site arms the thread for it. */
  lemma TrapWatch(env: Env, s: Sys, t: ThreadId, s': Sys, a: Address)
    requires Inv(env, s) && Shaped(s) && Shaped(s') && OwnTrap(s, t) && HandleStepOf(env, s, t, s')
    requires env.branch && SitesFaithful(env, s) && IsSite(s, a) && Watched(env, s, a)
    ensures Watched(env, s', a)
  {
    hide Inv, HandleStepOf, Planted, SitesFaithful;
    OwnTrapDelta(env, s, t, s');
    SitesAreKnown(env, s, a);
    var b := TrapAddress(s, t);
    if a == b {
      assert Faithful(env, s, a) by { IsFaithful(env, s, a); }
      assert Stepping(s', t, a);
      assert Watches(s', t, a);
    } else if !Planted(env, s, a) {
      var u :| Watches(s, u, a);
      assert u != t;
      WatchesStay(s, s', u, a);
    }
  }

  lemma IsFaithful(env: Env, s: Sys, a: Address)
    requires SitesFaithful(env, s) && IsSite(s, a)
    ensures Faithful(env, s, a)
  {
  }

  lemma NativeTrapWatch(env: Env, s: Sys, t: ThreadId, s': Sys, a: Address)
    requires Inv(env, s) && Shaped(s) && Shaped(s') && t in s.threads && s.threads[t].status.TrapQueued? && !OwnTrap(s, t)
    requires HandleStepOf(env, s, t, s') && IsSite(s, a) && Watched(env, s, a)
    ensures Watched(env, s', a)
  {
    hide Inv, HandleStepOf, Planted;
    NativeTrapDelta(env, s, t, s');
    SitesAreKnown(env, s, a);
    SameMemoryPlanted(env, s, s');
    if !Planted(env, s, a) {
      var u :| Watches(s, u, a);
      assert Address(a.process, a.value) == a;
      assert u != t;
      WatchesStay(s, s', u, a);
    }
  }

  /** A site that still wants observations after its step was credited is planted again. */
  lemma StepWatch(env: Env, s: Sys, t: ThreadId, s': Sys, l': Ledger, a: Address)
    requires Inv(env, s) && Shaped(s) && Shaped(s') && SitesHaveRecords(s'.view.manager)
    requires t in s.threads && s.threads[t].status.StepQueued? && HandleStepOf(env, s, t, s')
    requires IsSite(s, a) && Watched(env, s, a) && CountsAgree(s'.view.manager, l') && Wanting(s', l', a)
    ensures Watched(env, s', a)
  {
    hide Inv, HandleStepOf, Planted, Wanting, CountsAgree, PlantsAgain;
    InvShaped(env, s);
    StepDelta(env, s, t, s');
    SitesAreKnown(env, s, a);
    if Planted(env, s, a) {
      StepPlantsMore(env, s, t, s');
    } else {
      var u :| Watches(s, u, a);
      if u == t {
        assert StepSite(s, t) == a;
        WantingReplants(s, t, s', l');
      } else {
        WatchesStay(s, s', u, a);
      }
    }
  }

  lemma WantingReplants(s: Sys, t: ThreadId, s': Sys, l': Ledger)
    requires Shaped(s) && SitesHaveRecords(s.view.manager) && SitesHaveRecords(s'.view.manager) && Credits(s, t)
    requires s'.view.manager ==
      WithOutcome(s.view.manager, StepSite(s, t), s.threads[t].status.landing == s.view.pending[t].takenTarget)
    requires CountsAgree(s'.view.manager, l') && Wanting(s', l', StepSite(s, t))
    ensures PlantsAgain(s, t)
  {
    var c := s'.view.manager.conditionSiteMap[StepSite(s, t)].condition;
    SmallCount(Count(l', c));
  }

  lemma SmallCount(n: nat)
    requires n < 100
    ensures n % 0x1_0000_0000 == n
  {
  }

  // ----- Exits, exactly --------------------------------------------------------------------------------------

  /** After a process exit a site of another process is watched just when it does not depend on a pending step. */
  lemma ExitProcessWatch(env: Env, s: Sys, p: Handle, a: Address)
    requires Inv(env, s) && Shaped(s) && p in s.processes && Shaped(AfterExitProcess(s, p))
    requires IsSite(s, a) && a.process != p
    ensures Watched(env, AfterExitProcess(s, p), a) <==> Planted(env, s, a) || exists t :: TrapPending(s, t, a)
  {
    hide Inv, Planted, Without;
    var s' := AfterExitProcess(s, p);
    ExitPlanted(env, s, p, a);
    if t :| TrapPending(s, t, a) {
      assert TrapPending(s', t, a);
      assert Watches(s', t, a);
    }
    if t :| Watches(s', t, a) {
      assert TrapPending(s, t, a);
    }
  }

  lemma ExitPlanted(env: Env, s: Sys, p: Handle, a: Address)
    requires Shaped(s) && a.process != p
    ensures Planted(env, AfterExitProcess(s, p), a) <==> Planted(env, s, a)
  {
  }

  lemma ExitThreadWatch(env: Env, s: Sys, t: ThreadId, a: Address)
    requires Shaped(s) && t in s.threads && Shaped(AfterExitThread(s, t))
    ensures Watched(env, AfterExitThread(s, t), a) <==> Planted(env, s, a) || exists u :: u != t && Watches(s, u, a)
  {
    hide Planted, Watches;
    var s' := AfterExitThread(s, t);
    SameMemoryPlanted(env, s, s');
    forall u | u != t ensures Watches(s', u, a) <==> Watches(s, u, a) {
      ExitThreadOther(s, t, u, a);
    }
    ExitedWatchesNothing(s, t, a);
  }

  lemma ExitThreadOther(s: Sys, t: ThreadId, u: ThreadId, a: Address)
    requires Shaped(s) && t in s.threads && Shaped(AfterExitThread(s, t)) && u != t
    ensures Watches(AfterExitThread(s, t), u, a) <==> Watches(s, u, a)
  {
  }

  lemma ExitedWatchesNothing(s: Sys, t: ThreadId, a: Address)
    requires Shaped(s) && t in s.threads && Shaped(AfterExitThread(s, t))
    ensures !Watches(AfterExitThread(s, t), t, a)
  {
  }

  lemma WantingAcrossExit(s: Sys, p: Handle, l: Ledger, a: Address)
    requires Shaped(s) && SitesHaveRecords(s.view.manager) && SitesHaveRecords(AfterExitProcess(s, p).view.manager)
    ensures Wanting(AfterExitProcess(s, p), l, a) <==> Wanting(s, l, a) && a.process != p
  {
  }

  lemma ExitProcessExact(env: Env, s: Sys, p: Handle, l: Ledger)
    requires Inv(env, s) && Shaped(s) && p in s.processes && SitesHaveRecords(s.view.manager)
    requires Shaped(AfterExitProcess(s, p)) && SitesHaveRecords(AfterExitProcess(s, p).view.manager)
    ensures NoLost(env, AfterExitProcess(s, p), l) <==> Gentle(env, s, l, Debuggee(ExitProcess(p)))
  {
    hide Inv, Wanting, Planted, Watched, AfterExitProcess, TrapPending;
    forall a ensures Wanting(AfterExitProcess(s, p), l, a) ==> (
      Watched(env, AfterExitProcess(s, p), a) <==> Planted(env, s, a) || exists t :: TrapPending(s, t, a))
    ensures Wanting(AfterExitProcess(s, p), l, a) <==> Wanting(s, l, a) && a.process != p
    {
      WantingAcrossExit(s, p, l, a);
      if Wanting(s, l, a) && a.process != p {
        assert IsSite(s, a) by { WantingIsSite(s, l, a); }
        ExitProcessWatch(env, s, p, a);
      }
    }
  }

  lemma WantingIsSite(s: Sys, l: Ledger, a: Address)
    requires SitesHaveRecords(s.view.manager) && Wanting(s, l, a)
    ensures IsSite(s, a)
  {
  }

  lemma ExitThreadExact(env: Env, s: Sys, t: ThreadId, l: Ledger)
    requires Shaped(s) && t in s.threads && SitesHaveRecords(s.view.manager)
    requires Shaped(AfterExitThread(s, t)) && SitesHaveRecords(AfterExitThread(s, t).view.manager)
    ensures NoLost(env, AfterExitThread(s, t), l) <==> Gentle(env, s, l, Debuggee(ExitThread(t)))
  {
    hide Planted, Watched, Watches;
    forall a ensures Wanting(AfterExitThread(s, t), l, a) <==> Wanting(s, l, a)
    ensures Watched(env, AfterExitThread(s, t), a) <==> Planted(env, s, a) || exists u :: u != t && Watches(s, u, a)
    {
      ExitThreadWatch(env, s, t, a);
    }
  }

  // ----- Every step, every run ---------------------------------------------------------------------------------

  /** A watched site stays watched by every event but the exits. */
  lemma KeepsWatch(env: Env, s: Sys, e: Event, s': Sys, l': Ledger, branches: seq<Branch>, a: Address)
    requires Inv(env, s) && Inv(env, s') && Shaped(s) && Shaped(s') && Next(env, s, e, s')
    requires SitesHaveRecords(s'.view.manager) && CountsAgree(s'.view.manager, l')
    requires env.branch && SitesFaithful(env, s) && StepsSound(s, branches)
    requires !(e.Debuggee? && (e.step.ExitProcess? || e.step.ExitThread?))
    requires SameSiteAt(s, s', a) && Watched(env, s, a) && Wanting(s', l', a)
    ensures Watched(env, s', a)
  {
    hide Inv, LoadStep, CanUnload, HandleStepOf, RunStep, Planted, AfterUnload, Wanting, CountsAgree, SitesFaithful,
         StepsSound, Watched, Known, Kept, SitesHaveRecords;
    assert Known(s, a) && Known(s', a) by { SitesAreKnown(env, s, a); SitesAreKnown(env, s', a); }
    match e
    case HandleTrap(t) =>
      if OwnTrap(s, t) {
        TrapWatch(env, s, t, s', a);
      } else {
        NativeTrapWatch(env, s, t, s', a);
      }
    case HandleStep(t) => StepWatch(env, s, t, s', l', a);
    case Debuggee(step) =>
      if step.Run? {
        RunWatch(env, s, step.t, s', branches, a);
      } else {
        DebuggeeKeepsWatch(env, s, step, s', a);
      }
  }

  lemma DebuggeeKeepsWatch(env: Env, s: Sys, step: Step, s': Sys, a: Address)
    requires Inv(env, s) && Shaped(s) && Shaped(s') && DebuggeeStep(env, s, step, s')
    requires !step.ExitProcess? && !step.ExitThread? && !step.Run?
    requires Known(s, a) && Known(s', a) && Watched(env, s, a)
    ensures Watched(env, s', a)
  {
    hide Inv, LoadStep, CanUnload, Planted, AfterUnload, Watched, Known, Kept;
    match step
    case Load(p, base, image, starts) =>
      LoadDelta(env, s, p, base, image, starts, s');
      KeptStays(env, s, s', a);
    case Unload(p, base) =>
      UnloadDelta(env, s, p, base);
      UnloadThreads(env, s, p, base);
      KeptStays(env, s, s', a);
    case _ =>
      QuietDelta(env, s, Debuggee(step), s');
      KeptStays(env, s, s', a);
  }

  lemma UnloadThreads(env: Env, s: Sys, p: Handle, base: nat)
    requires Shaped(s) && CanUnload(env, s, p, base)
    ensures var s' := AfterUnload(s, p, base);
      s'.threads == s.threads && s'.view.contexts == s.view.contexts && s'.view.pending == s.view.pending
  {
  }

  lemma KeptStays(env: Env, s: Sys, s': Sys, a: Address)
    requires Shaped(s) && Shaped(s') && ThreadsStay(s, s') && Watched(env, s, a) && Kept(env, s, s', a)
    ensures Watched(env, s', a)
  {
    hide Planted, Watched, ThreadsStay;
    WatchedStays(env, s, s', a);
  }

  lemma CountsGrow(env: Env, s: Sys, e: Event, s': Sys, l: Ledger)
    requires Inv(env, s) && Shaped(s) && SitesHaveRecords(s.view.manager) && BoundInv(env, s, l) && Next(env, s, e, s')
    ensures forall c :: Count(NextLedger(env, s, e, s', l), c) >= Count(l, c)
  {
    hide Inv, BoundInv, Next, NextLedger, Count;
    Counts(env, s, e, s', l);
  }

  lemma NoLostOther(env: Env, s: Sys, e: Event, s': Sys, l: Ledger, branches: seq<Branch>)
    requires Inv(env, s) && Inv(env, s') && Shaped(s) && Shaped(s') && Next(env, s, e, s')
    requires SitesHaveRecords(s.view.manager) && SitesHaveRecords(s'.view.manager)
    requires BoundInv(env, s, l) && CountsAgree(s'.view.manager, NextLedger(env, s, e, s', l))
    requires env.branch && SitesFaithful(env, s) && StepsSound(s, branches)
    requires !(e.Debuggee? && (e.step.ExitProcess? || e.step.ExitThread?))
    requires NoLost(env, s, l)
    ensures NoLost(env, s', NextLedger(env, s, e, s', l))
  {
    hide Inv, Next, Planted, Wanting, CountsAgree, SitesFaithful, StepsSound, Watched, NextLedger, BoundInv, Count,
         ConditionsSurvive, LinesSurvive, SitesHaveRecords;
    var l' := NextLedger(env, s, e, s', l);
    CountsGrow(env, s, e, s', l);
    RecordsSurvive(env, s, e, s');
    forall a | Wanting(s', l', a) ensures Watched(env, s', a) {
      WantingIsSite(s', l', a);
      if Planted(env, s', a) {
        PlantedWatched(env, s', a);
      } else {
        OldSite(env, s, e, s', a);
        WantingBefore(s, s', l, l', a);
        KeepsWatch(env, s, e, s', l', branches, a);
      }
    }
  }

  lemma PlantedWatched(env: Env, s: Sys, a: Address)
    requires Shaped(s) && Planted(env, s, a)
    ensures Watched(env, s, a)
  {
  }

  /** An event keeps every wanting site watched if and only if it is gentle. */
  lemma NoLostStep(env: Env, s: Sys, e: Event, s': Sys, l: Ledger, branches: seq<Branch>)
    requires Inv(env, s) && Shaped(s) && SitesHaveRecords(s.view.manager) && Next(env, s, e, s')
    requires BoundInv(env, s, l) && StepsSound(s, branches) && NoLost(env, s, l)
    requires env.branch && SitesFaithful(env, s)
    ensures Shaped(s') && SitesHaveRecords(s'.view.manager)
    ensures NoLost(env, s', NextLedger(env, s, e, s', l)) <==> Gentle(env, s, l, e)
  {
    StepCorrect(env, s, e, s');
    hide Inv, Simulates, LoadStep, CanUnload, HandleStepOf, RunStep, BoundInv, NoLost, SitesFaithful, StepsSound, Gentle,
         AfterExitProcess, AfterExitThread, AfterUnload, SitesHaveRecords, AfterStep, WithTrap, WithLoad, NewAddresses;
    InvShaped(env, s');
    BoundStep(env, s, e, s', l);
    if e.Debuggee? && e.step.ExitProcess? {
      ExitProcessExact(env, s, e.step.p, l);
    } else if e.Debuggee? && e.step.ExitThread? {
      ExitThreadExact(env, s, e.step.t, l);
    } else {
      CountsOf(env, s', NextLedger(env, s, e, s', l));
      NoLostOther(env, s, e, s', l, branches);
      OthersAreGentle(env, s, l, e);
    }
  }

  lemma CountsOf(env: Env, s: Sys, l: Ledger)
    requires Shaped(s) && BoundInv(env, s, l)
    ensures CountsAgree(s.view.manager, l)
  {
  }

  lemma OthersAreGentle(env: Env, s: Sys, l: Ledger, e: Event)
    requires Shaped(s) && SitesHaveRecords(s.view.manager)
    requires !(e.Debuggee? && (e.step.ExitProcess? || e.step.ExitThread?))
    ensures Gentle(env, s, l, e)
  {
  }

  /** No process exits while a thread of another has a pending step, and no thread exits with one. */
  ghost predicate Orderly(s: Sys, e: Event) {
    match e
    case Debuggee(ExitProcess(p)) => forall t :: t in s.threads && s.threads[t].process != p ==> t !in s.view.pending
    case Debuggee(ExitThread(t)) => t !in s.view.pending
    case _ => true
  }

  lemma OrderlyIsGentle(env: Env, s: Sys, l: Ledger, e: Event, s': Sys)
    requires Shaped(s) && SitesHaveRecords(s.view.manager) && Next(env, s, e, s') && NoLost(env, s, l) && Orderly(s, e)
    ensures Gentle(env, s, l, e)
  {
    hide LoadStep, CanUnload, HandleStepOf, RunStep, Planted, Wanting;
    if e.Debuggee? && e.step.ExitProcess? {
      forall a | Wanting(s, l, a) && a.process != e.step.p ensures Planted(env, s, a) || exists t :: TrapPending(s, t, a) {
        assert Watched(env, s, a);
      }
    } else if e.Debuggee? && e.step.ExitThread? {
      forall a | Wanting(s, l, a) ensures Planted(env, s, a) || exists u :: u != e.step.t && Watches(s, u, a) {
        assert Watched(env, s, a);
      }
    }
  }

  lemma InitialNoLost(env: Env)
    ensures Shaped(INITIAL) && SitesHaveRecords(INITIAL.view.manager) && NoLost(env, INITIAL, EMPTY_LEDGER)
  {
  }

  ghost predicate AllFaithful(env: Env, run: seq<Sys>) {
    forall s :: s in run ==> SitesFaithful(env, s)
  }

  /** No site is lost after the first i events. */
  ghost predicate NoLostAt(env: Env, run: seq<Sys>, events: seq<Event>, i: nat)
    requires IsRun(env, run, events) && Sane(run) && i <= |events|
  {
    PrefixIsRun(env, run, events, i);
    SanePrefix(run, i + 1);
    NoLost(env, run[i], Account(env, run[..i + 1], events[..i]))
  }

  ghost predicate GentleAt(env: Env, run: seq<Sys>, events: seq<Event>, i: nat)
    requires IsRun(env, run, events) && Sane(run) && i < |events|
  {
    PrefixIsRun(env, run, events, i);
    SanePrefix(run, i + 1);
    Gentle(env, run[i], Account(env, run[..i + 1], events[..i]), events[i])
  }

  lemma NoLostFirst(env: Env, run: seq<Sys>, events: seq<Event>)
    requires IsRun(env, run, events) && Sane(run)
    ensures NoLostAt(env, run, events, 0)
  {
    hide Next, NoLost;
    InitialNoLost(env);
    assert events[..0] == [];
  }

  lemma NextAccount(env: Env, run: seq<Sys>, events: seq<Event>, i: nat)
    requires IsRun(env, run, events) && Sane(run) && i < |events|
    ensures IsRun(env, run[..i + 1], events[..i]) && IsRun(env, run[..i + 2], events[..i + 1])
    ensures Sane(run[..i + 1]) && Sane(run[..i + 2])
    ensures Account(env, run[..i + 2], events[..i + 1]) ==
      NextLedger(env, run[i], events[i], run[i + 1], Account(env, run[..i + 1], events[..i]))
  {
    hide Next, NextLedger;
    PrefixIsRun(env, run, events, i);
    PrefixIsRun(env, run, events, i + 1);
    SanePrefix(run, i + 1);
    SanePrefix(run, i + 2);
    assert run[..i + 2][..i + 1] == run[..i + 1] && events[..i + 1][..i] == events[..i];
  }

  lemma NoLostNext(env: Env, run: seq<Sys>, events: seq<Event>, i: nat)
    requires CpuOk(env.cpu, env.trap) && IsRun(env, run, events) && Sane(run) && env.branch && AllFaithful(env, run)
    requires i < |events| && NoLostAt(env, run, events, i)
    ensures NoLostAt(env, run, events, i + 1) <==> GentleAt(env, run, events, i)
  {
    hide CpuOk, Next, NextLedger, NoLost, SitesFaithful, Gentle, Inv, BoundInv, StepsSound, RecordsSound;
    NextAccount(env, run, events, i);
    var before := run[..i + 1];
    assert before[i] == run[i];
    ReachableInv(env, before, events[..i]);
    ReachableBound(env, before, events[..i]);
    ReachableOutcomes(env, before, events[..i]);
    NoLostStep(env, run[i], events[i], run[i + 1], Account(env, before, events[..i]), Branches(env, before, events[..i]));
  }

  lemma {:induction false} GentleRun(env: Env, run: seq<Sys>, events: seq<Event>, n: nat)
    requires CpuOk(env.cpu, env.trap) && IsRun(env, run, events) && Sane(run) && env.branch && AllFaithful(env, run)
    requires n <= |events| && forall i :: 0 <= i < n ==> GentleAt(env, run, events, i)
    ensures NoLostAt(env, run, events, n)
  {
    hide CpuOk, Next, AllFaithful, NoLostAt, GentleAt;
    if n == 0 {
      NoLostFirst(env, run, events);
    } else {
      GentleRun(env, run, events, n - 1);
      NoLostNext(env, run, events, n - 1);
    }
  }

  /** No site is ever lost in a run if and only if every event of it is gentle. */
  lemma NoLostIffGentle(env: Env, run: seq<Sys>, events: seq<Event>)
    requires CpuOk(env.cpu, env.trap) && IsRun(env, run, events) && env.branch && AllFaithful(env, run)
    ensures Sane(run)
    ensures (forall i :: 0 <= i <= |events| ==> NoLostAt(env, run, events, i))
       <==> (forall i :: 0 <= i < |events| ==> GentleAt(env, run, events, i))
  {
    hide CpuOk, Next, AllFaithful, NoLostAt, GentleAt;
    ReachableSane(env, run, events);
    if forall i :: 0 <= i <= |events| ==> NoLostAt(env, run, events, i) {
      forall i | 0 <= i < |events| ensures GentleAt(env, run, events, i) {
        NoLostNext(env, run, events, i);
      }
    } else if forall i :: 0 <= i < |events| ==> GentleAt(env, run, events, i) {
      forall i | 0 <= i <= |events| ensures NoLostAt(env, run, events, i) {
        GentleRun(env, run, events, i);
      }
    }
  }

  lemma OrderlyGentleAt(env: Env, run: seq<Sys>, events: seq<Event>, i: nat)
    requires IsRun(env, run, events) && Sane(run) && i < |events| && NoLostAt(env, run, events, i)
    requires Orderly(run[i], events[i])
    ensures GentleAt(env, run, events, i)
  {
    hide Next, Account, Orderly, NoLost, Gentle;
    PrefixIsRun(env, run, events, i);
    SanePrefix(run, i + 1);
    OrderlyIsGentle(env, run[i], Account(env, run[..i + 1], events[..i]), events[i], run[i + 1]);
  }

  lemma {:induction false} OrderlyRun(env: Env, run: seq<Sys>, events: seq<Event>, n: nat)
    requires CpuOk(env.cpu, env.trap) && IsRun(env, run, events) && Sane(run) && env.branch && AllFaithful(env, run)
    requires n <= |events| && forall i :: 0 <= i < |events| ==> Orderly(run[i], events[i])
    ensures NoLostAt(env, run, events, n)
  {
    hide CpuOk, Next, AllFaithful, NoLostAt, GentleAt, Orderly;
    if n == 0 {
      NoLostFirst(env, run, events);
    } else {
      OrderlyRun(env, run, events, n - 1);
      OrderlyGentleAt(env, run, events, n - 1);
      NoLostNext(env, run, events, n - 1);
    }
  }

  /**
   No lost site.  In an orderly run every live condition site that still has an
   unseen outcome and fewer than 100 observations is planted, has a trap queued,
   or is being stepped over by some thread.
   */
  lemma NoSiteIsLost(env: Env, run: seq<Sys>, events: seq<Event>, a: Address)
    requires CpuOk(env.cpu, env.trap) && IsRun(env, run, events) && env.branch
    requires forall s :: s in run ==> SitesFaithful(env, s)
    requires forall i :: 0 <= i < |events| ==> Orderly(run[i], events[i])
    requires IsSite(run[|events|], a)
    ensures Sane(run)
    ensures var s := run[|events|];
      var c := s.view.manager.conditionSiteMap[a].condition;
      (!s.view.manager.conditions[c].takenSeen || !s.view.manager.conditions[c].notTakenSeen) &&
      Observations(env, run, events, c) < 100 ==>
        Watched(env, s, a)
  {
    hide CpuOk, Next, SitesFaithful, Orderly, Watched;
    ReachableSane(env, run, events);
    OrderlyRun(env, run, events, |events|);
    assert run[..|run|] == run && events[..|events|] == events;
    LedgerCounts(env, run, events, run[|events|].view.manager.conditionSiteMap[a].condition);
    assert Wanting(run[|events|], Account(env, run, events), a) ==> Watched(env, run[|events|], a);
  }
}
