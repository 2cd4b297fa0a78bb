/** Bounded replanting: every trap and step of the tool is paid for by a plant, and plants are bounded. */
module ProtocolBounds {
  import opened Common
  import opened Memory
  import opened Debuggees
  import opened AddressManagers
  import opened LineRegisters
  import opened StepTracking
  import opened CoverageRunners
  import opened NativeMachine
  import opened ModuleLoad
  import opened Protocol
  import opened ProtocolSafety
  import opened ProtocolDeltas

  /** One act of planting: by the n-th load, or after the n-th observation of a condition. */
  datatype PlantId =
    | LoadPlant(address: Address, load: nat)
    | Replant(address: Address, condition: ConditionKey, observation: nat)

  /** What has happened so far; observations are counted without wrap-around. */
  datatype Ledger = Ledger(
    observations: map<ConditionKey, nat>,
    current: map<Address, PlantId>,
    plants: set<PlantId>,
    replants: set<(ConditionKey, nat)>,
    traps: set<(ThreadId, PlantId)>,
    steps: set<(ThreadId, PlantId)>,
    last: map<ThreadId, PlantId>,
    threads: set<ThreadId>,
    loads: nat, loadPlants: nat, trapCount: nat, stepCount: nat)

  const EMPTY_LEDGER := Ledger(map[], map[], {}, {}, {}, {}, map[], {}, 0, 0, 0, 0)

  ghost function Count(l: Ledger, c: ConditionKey): nat {
    if c in l.observations then l.observations[c] else 0
  }

  ghost function WithTrap(l: Ledger, t: ThreadId, a: Address): Ledger {
    if a !in l.current then l else
    l.(traps := l.traps + {(t, l.current[a])}, last := l.last[t := l.current[a]], trapCount := l.trapCount + 1)
  }

  ghost function WithStep(l: Ledger, t: ThreadId): Ledger {
    if t !in l.last then l else l.(steps := l.steps + {(t, l.last[t])}, stepCount := l.stepCount + 1)
  }

  ghost function WithObservation(l: Ledger, c: ConditionKey): Ledger {
    l.(observations := l.observations[c := Count(l, c) + 1])
  }

  ghost function WithReplant(l: Ledger, a: Address, c: ConditionKey): Ledger {
    var id := Replant(a, c, Count(l, c));
    l.(current := l.current[a := id], plants := l.plants + {id}, replants := l.replants + {(c, Count(l, c))})
  }

  ghost function NewAddresses(s: Sys, s': Sys): set<Address> {
    s'.view.manager.addressLineMap.Keys - s.view.manager.addressLineMap.Keys
  }

  ghost function LoadIds(l: Ledger, added: set<Address>): set<PlantId> {
    set a | a in added :: LoadPlant(a, l.loads)
  }

  ghost function WithLoad(l: Ledger, added: set<Address>): Ledger {
    l.(current := l.current + (map a | a in added :: LoadPlant(a, l.loads)),
       plants := l.plants + LoadIds(l, added),
       loads := l.loads + 1, loadPlants := l.loadPlants + |added|)
  }

  /** The record that a handled step credits. */
  ghost function CreditedRecord(s: Sys, t: ThreadId): ConditionKey
    requires Shaped(s) && Credits(s, t) && IsSite(s, StepSite(s, t))
  {
    s.view.manager.conditionSiteMap[StepSite(s, t)].condition
  }

  ghost function AfterStep(s: Sys, t: ThreadId, l: Ledger): Ledger
    requires Shaped(s) && SitesHaveRecords(s.view.manager)
  {
    var l1 := WithStep(l, t);
    if !Credits(s, t) || !IsSite(s, StepSite(s, t)) then l1 else
    var l2 := WithObservation(l1, CreditedRecord(s, t));
    if PlantsAgain(s, t) then WithReplant(l2, StepSite(s, t), CreditedRecord(s, t)) else l2
  }

  ghost function NextLedger(env: Env, s: Sys, e: Event, s': Sys, l: Ledger): Ledger
    requires Shaped(s) && SitesHaveRecords(s.view.manager)
  {
    match e
    case HandleTrap(t) => l
    case HandleStep(t) => AfterStep(s, t, l)
    case Debuggee(step) =>
      match step
      case Run(t) => if Stopped(env, s, t) then WithTrap(l, t, Address(s.threads[t].process, PcOf(s, t))) else l
      case Load(p, base, image, starts) => WithLoad(l, NewAddresses(s, s'))
      case CreateThread(t, p, pc, regs) => l.(threads := l.threads + {t})
      case _ => l
  }

  // ----- The invariant ------------------------------------------------------------------------------------

  ghost predicate PlantKnown(l: Ledger, id: PlantId) {
    && id in l.plants
    && match id
       case LoadPlant(a, n) => n < l.loads
       case Replant(a, c, n) => (c, n) in l.replants
  }

  /** A record asks for another observation exactly when its 32-bit counter is below the cap. */
  ghost predicate ReplantAllowed(l: Ledger, r: (ConditionKey, nat)) {
    1 <= r.1 <= Count(l, r.0) && r.1 % 0x1_0000_0000 < 100
  }

  ghost predicate LedgerOk(l: Ledger) {
    && (forall id :: id in l.plants ==> PlantKnown(l, id))
    && (forall r :: r in l.replants ==> ReplantAllowed(l, r))
    && (forall k :: k in l.traps ==> k.0 in l.threads && k.1 in l.plants)
    && l.steps <= l.traps
    && l.trapCount == |l.traps| && l.stepCount == |l.steps|
    && |l.plants| == l.loadPlants + |l.replants|
  }

  /** The trap at a planted address has stopped no thread, except one that is still queued there. */
  ghost predicate PlantFresh(s: Sys, l: Ledger, a: Address) {
    && a in l.current && l.current[a] in l.plants && l.current[a].address == a
    && forall t :: (t, l.current[a]) in l.traps ==>
         t in s.threads && s.threads[t].process == a.process && s.threads[t].status == TrapQueued(a.value)
  }

  ghost predicate PlantsFresh(env: Env, s: Sys, l: Ledger) {
    forall a :: Known(s, a) && Planted(env, s, a) ==> PlantFresh(s, l, a)
  }

  /** The thread has been stopped by a trap of ours whose step is still to come. */
  ghost predicate Owes(s: Sys, t: ThreadId)
    requires Shaped(s) && t in s.threads
  {
    s.view.contexts[t].singleStep || s.threads[t].status.StepQueued? || OwnTrap(s, t)
  }

  ghost predicate Paid(s: Sys, l: Ledger, t: ThreadId)
    requires Shaped(s) && t in s.threads
  {
    t in l.threads && (Owes(s, t) ==> t in l.last && (t, l.last[t]) in l.traps && (t, l.last[t]) !in l.steps)
  }

  ghost predicate ThreadsPaid(s: Sys, l: Ledger)
    requires Shaped(s)
  {
    forall t :: t in s.threads ==> Paid(s, l, t)
  }

  ghost predicate CountsAgree(g: State, l: Ledger) {
    && (forall c :: c in l.observations ==> c in g.conditions)
    && (forall c :: c in g.conditions ==> g.conditions[c].observationCount == Count(l, c) % 0x1_0000_0000)
  }

  ghost predicate BoundInv(env: Env, s: Sys, l: Ledger)
    requires Shaped(s)
  {
    LedgerOk(l) && PlantsFresh(env, s, l) && ThreadsPaid(s, l) && CountsAgree(s.view.manager, l)
  }

  // ----- Effects on the ledger alone --------------------------------------------------------------------------

  lemma TrapLedger(l: Ledger, t: ThreadId, a: Address)
    requires LedgerOk(l) && t in l.threads && a in l.current && l.current[a] in l.plants && (t, l.current[a]) !in l.traps
    ensures LedgerOk(WithTrap(l, t, a))
  {
    var l' := WithTrap(l, t, a);
    forall id | id in l'.plants ensures PlantKnown(l', id) {
      assert PlantKnown(l, id);
    }
    forall r | r in l'.replants ensures ReplantAllowed(l', r) {
      assert ReplantAllowed(l, r);
    }
  }

  lemma StepLedger(l: Ledger, t: ThreadId)
    requires LedgerOk(l) && t in l.last && (t, l.last[t]) in l.traps && (t, l.last[t]) !in l.steps
    ensures LedgerOk(WithStep(l, t))
  {
    var l' := WithStep(l, t);
    forall id | id in l'.plants ensures PlantKnown(l', id) {
      assert PlantKnown(l, id);
    }
    forall r | r in l'.replants ensures ReplantAllowed(l', r) {
      assert ReplantAllowed(l, r);
    }
  }

  lemma ObservationLedger(l: Ledger, c: ConditionKey)
    requires LedgerOk(l)
    ensures LedgerOk(WithObservation(l, c)) && Count(WithObservation(l, c), c) == Count(l, c) + 1
    ensures forall r :: r in l.replants && r.0 == c ==> r.1 < Count(WithObservation(l, c), c)
  {
    var l' := WithObservation(l, c);
    forall id | id in l'.plants ensures PlantKnown(l', id) {
      assert PlantKnown(l, id);
    }
    forall r | r in l'.replants ensures ReplantAllowed(l', r) && (r.0 == c ==> r.1 < Count(l', c)) {
      assert ReplantAllowed(l, r);
    }
  }

  lemma ReplantLedger(l: Ledger, a: Address, c: ConditionKey)
    requires LedgerOk(l) && Count(l, c) >= 1 && Count(l, c) % 0x1_0000_0000 < 100
    requires forall r :: r in l.replants && r.0 == c ==> r.1 < Count(l, c)
    ensures LedgerOk(WithReplant(l, a, c)) && Replant(a, c, Count(l, c)) !in l.plants
  {
    var l' := WithReplant(l, a, c);
    var id := Replant(a, c, Count(l, c));
    assert id in l.plants ==> PlantKnown(l, id);
    assert (c, Count(l, c)) !in l.replants;
    forall i | i in l'.plants ensures PlantKnown(l', i) {
      assert i == id || PlantKnown(l, i);
    }
    forall r | r in l'.replants ensures ReplantAllowed(l', r) {
      assert r in l.replants ==> ReplantAllowed(l, r);
    }
  }

  lemma {:induction false} LoadIdsSize(l: Ledger, added: set<Address>)
    ensures |LoadIds(l, added)| == |added|
  {
    if added != {} {
      var a :| a in added;
      LoadIdsSize(l, added - {a});
      assert LoadIds(l, added) == LoadIds(l, added - {a}) + {LoadPlant(a, l.loads)};
      assert LoadPlant(a, l.loads) !in LoadIds(l, added - {a});
    } else {
      assert LoadIds(l, added) == {};
    }
  }

  lemma LoadLedger(l: Ledger, added: set<Address>)
    requires LedgerOk(l)
    ensures LedgerOk(WithLoad(l, added)) && LoadIds(l, added) !! l.plants
  {
    var l' := WithLoad(l, added);
    LoadIdsSize(l, added);
    forall id | id in l.plants ensures id !in LoadIds(l, added) {
      assert PlantKnown(l, id);
    }
    forall i | i in l'.plants ensures PlantKnown(l', i) {
      assert i in LoadIds(l, added) || PlantKnown(l, i);
    }
    forall r | r in l'.replants ensures ReplantAllowed(l', r) {
      assert ReplantAllowed(l, r);
    }
  }

  // ----- Running -------------------------------------------------------------------------------------------------

  lemma StopBound(env: Env, s: Sys, t: ThreadId, l: Ledger)
    requires Shaped(s) && BoundInv(env, s, l) && Stopped(env, s, t) && s.threads[t].status == Running
    requires Shaped(AfterTrap(env, s, t))
    ensures BoundInv(env, AfterTrap(env, s, t), WithTrap(l, t, Address(s.threads[t].process, PcOf(s, t))))
  {
    hide LedgerOk, CountsAgree;
    var a := Address(s.threads[t].process, PcOf(s, t));
    var s' := AfterTrap(env, s, t);
    assert Known(s, a) && Planted(env, s, a);
    assert PlantFresh(s, l, a) && Paid(s, l, t);
    TrapLedger(l, t, a);
    StepsAreTraps(l);
    CountsSame(s.view.manager, l, WithTrap(l, t, a));
    hide Planted;
    forall b | Known(s', b) && Planted(env, s', b) ensures PlantFresh(s', WithTrap(l, t, a), b) {
      SameMemoryPlanted(env, s, s');
      assert Known(s, b) && PlantFresh(s, l, b);
    }
    forall u | u in s'.threads ensures Paid(s', WithTrap(l, t, a), u) {
      assert Paid(s, l, u);
    }
  }

  lemma StepsAreTraps(l: Ledger)
    requires LedgerOk(l)
    ensures l.steps <= l.traps
  {
  }

  lemma CountsSame(g: State, l: Ledger, l': Ledger)
    requires CountsAgree(g, l) && l'.observations == l.observations
    ensures CountsAgree(g, l')
  {
  }

  /** No thread appears or gets a debt. */
  ghost predicate NoNewDebt(s: Sys, s': Sys)
    requires Shaped(s) && Shaped(s')
  {
    forall u :: u in s'.threads ==> u in s.threads && (Owes(s', u) ==> Owes(s, u))
  }

  /** Threads stopped by our traps stay where they are. */
  ghost predicate OwnTrapsKept(s: Sys, s': Sys)
    requires Shaped(s)
  {
    forall u :: OwnTrap(s, u) ==> u in s'.threads && s'.threads[u] == s.threads[u]
  }

  /** A transition that owes nothing new and changes neither traps nor entries. */
  lemma QuietBound(env: Env, s: Sys, s': Sys, l: Ledger)
    requires Shaped(s) && Shaped(s') && BoundInv(env, s, l)
    requires s'.view.manager == s.view.manager
    requires forall a :: Known(s, a) ==> (Planted(env, s', a) <==> Planted(env, s, a))
    requires OwnTrapsKept(s, s') && NoNewDebt(s, s')
    ensures BoundInv(env, s', l)
  {
    hide LedgerOk, CountsAgree, Planted;
    forall b | Known(s', b) && Planted(env, s', b) ensures PlantFresh(s', l, b) {
      assert Known(s, b) && PlantFresh(s, l, b);
    }
    forall u | u in s'.threads ensures Paid(s', l, u) {
      assert Paid(s, l, u);
    }
  }

  lemma RunBound(env: Env, s: Sys, t: ThreadId, s': Sys, l: Ledger)
    requires Inv(env, s) && Inv(env, s') && RunStep(env, s, t, s') && Shaped(s) && BoundInv(env, s, l) && Shaped(s')
    ensures BoundInv(env, s', NextLedger(env, s, Debuggee(Run(t)), s', l))
  {
    hide Inv, RunStep, NativeTrap, BoundInv, Stopped, AfterTrap, AfterExec;
    RunCases(env, s, t, s');
    if Stopped(env, s, t) {
      StopBound(env, s, t, l);
    } else {
      RunQuiet(env, s, t, s');
      QuietDelta(env, s, Debuggee(Run(t)), s');
      KeptPlanted(env, s, s');
      QuietBound(env, s, s', l);
    }
  }

  lemma KeptPlanted(env: Env, s: Sys, s': Sys)
    requires forall a :: Known(s, a) ==> Kept(env, s, s', a)
    ensures forall a :: Known(s, a) ==> (Planted(env, s', a) <==> Planted(env, s, a))
  {
    hide Planted, SameEntry, SameSite;
    forall a | Known(s, a) ensures Planted(env, s', a) <==> Planted(env, s, a) {
      assert Kept(env, s, s', a);
    }
  }

  /** An instruction executed without a stop leaves no new debt. */
  lemma RunQuiet(env: Env, s: Sys, t: ThreadId, s': Sys)
    requires Inv(env, s) && Shaped(s') && RunStep(env, s, t, s') && !Stopped(env, s, t)
    ensures s'.view.manager == s.view.manager && OwnTrapsKept(s, s') && NoNewDebt(s, s')
  {
    hide Inv, RunStep, Stopped, AfterTrap, AfterExec, NativeTrap;
    RunCases(env, s, t, s');
    var bytes := env.cpu.fetch(CodeOf(s, t).code, PcOf(s, t)).value;
    if bytes == env.trap {
      if AtOurs(s, t) {
        OursIsNotNative(env, s, s.threads[t].process, PcOf(s, t));
      }
      NativeStopQuiet(env, s, t);
    } else {
      ExecQuiet(env, s, t, bytes);
    }
  }

  lemma NativeStopQuiet(env: Env, s: Sys, t: ThreadId)
    requires Shaped(s) && t in s.threads && s.threads[t].status == Running && !AtOurs(s, t)
    requires Shaped(AfterTrap(env, s, t))
    ensures var s' := AfterTrap(env, s, t);
      s'.view.manager == s.view.manager && OwnTrapsKept(s, s') && NoNewDebt(s, s')
  {
  }

  lemma ExecQuiet(env: Env, s: Sys, t: ThreadId, bytes: Instruction)
    requires Shaped(s) && t in s.threads && s.threads[t].status == Running && Shaped(AfterExec(env, s, t, bytes))
    ensures var s' := AfterExec(env, s, t, bytes);
      s'.view.manager == s.view.manager && OwnTrapsKept(s, s') && NoNewDebt(s, s')
  {
  }

  // ----- Handling ------------------------------------------------------------------------------------------------

  lemma TrapBound(env: Env, s: Sys, t: ThreadId, s': Sys, l: Ledger)
    requires Inv(env, s) && Shaped(s) && Shaped(s') && BoundInv(env, s, l) && OwnTrap(s, t) && HandleStepOf(env, s, t, s')
    ensures BoundInv(env, s', l)
  {
    hide Inv, HandleStepOf, LedgerOk, Planted;
    OwnTrapDelta(env, s, t, s');
    CountsSameRecords(s.view.manager, s'.view.manager, l);
    var a := TrapAddress(s, t);
    forall b | Known(s', b) && Planted(env, s', b) ensures PlantFresh(s', l, b) {
      assert Known(s, b) && b != a && Planted(env, s, b);
      assert PlantFresh(s, l, b);
    }
    forall u | u in s'.threads ensures Paid(s', l, u) {
      assert Paid(s, l, u);
    }
  }

  lemma CountsSameRecords(g: State, g': State, l: Ledger)
    requires CountsAgree(g, l) && g'.conditions == g.conditions
    ensures CountsAgree(g', l)
  {
  }

  lemma NativeTrapBound(env: Env, s: Sys, t: ThreadId, s': Sys, l: Ledger)
    requires Inv(env, s) && Shaped(s) && Shaped(s') && BoundInv(env, s, l)
    requires t in s.threads && s.threads[t].status.TrapQueued? && !OwnTrap(s, t) && HandleStepOf(env, s, t, s')
    ensures BoundInv(env, s', l)
  {
    hide Inv, HandleStepOf, BoundInv;
    NativeTrapDelta(env, s, t, s');
    SameMemoryPlanted(env, s, s');
    hide Planted;
    QuietBound(env, s, s', l);
  }

  /** The crediting of a finished step, on the ledger and the counters. */
  lemma CreditBound(g: State, a: Address, taken: bool, l: Ledger)
    requires SitesHaveRecords(g) && a in g.conditionSiteMap && CountsAgree(g, l)
    ensures var c := g.conditionSiteMap[a].condition;
      var g' := WithOutcome(g, a, taken);
      && CountsAgree(g', WithObservation(l, c))
      && (ShouldReplant(g', a) ==> Count(WithObservation(l, c), c) % 0x1_0000_0000 < 100)
  {
    var c := g.conditionSiteMap[a].condition;
    CounterWraps(Count(l, c));
  }

  lemma CounterWraps(n: nat)
    ensures (n % 0x1_0000_0000 + 1) % 0x1_0000_0000 == (n + 1) % 0x1_0000_0000
  {
  }

  lemma AfterStepOk(env: Env, s: Sys, t: ThreadId, s': Sys, l: Ledger)
    requires Inv(env, s) && Shaped(s) && BoundInv(env, s, l)
    requires t in s.threads && s.threads[t].status.StepQueued? && HandleStepOf(env, s, t, s')
    ensures LedgerOk(AfterStep(s, t, l)) && CountsAgree(s'.view.manager, AfterStep(s, t, l))
    ensures AfterStep(s, t, l).traps == l.traps && AfterStep(s, t, l).threads == l.threads && AfterStep(s, t, l).last == l.last
    ensures AfterStep(s, t, l).steps == l.steps + {(t, l.last[t])}
    ensures l.plants <= AfterStep(s, t, l).plants
    ensures if PlantsAgain(s, t) then
        var a := StepSite(s, t);
        && a in AfterStep(s, t, l).current && AfterStep(s, t, l).current == l.current[a := AfterStep(s, t, l).current[a]]
        && AfterStep(s, t, l).current[a].address == a
        && AfterStep(s, t, l).current[a] in AfterStep(s, t, l).plants && AfterStep(s, t, l).current[a] !in l.plants
      else AfterStep(s, t, l).current == l.current
  {
    hide Inv, HandleStepOf, LedgerOk, CountsAgree, Planted, Replants, ShouldReplant, WithOutcome;
    InvShaped(env, s);
    StepDelta(env, s, t, s');
    assert Paid(s, l, t);
    var l1 := WithStep(l, t);
    StepLedger(l, t);
    CountsSame(s.view.manager, l, l1);
    if Credits(s, t) && IsSite(s, StepSite(s, t)) {
      var a, c := StepSite(s, t), CreditedRecord(s, t);
      var taken := s.threads[t].status.landing == s.view.pending[t].takenTarget;
      var l2 := WithObservation(l1, c);
      ObservationLedger(l1, c);
      CreditBound(s.view.manager, a, taken, l1);
      if PlantsAgain(s, t) {
        ReplantsMeans(s, t);
        ReplantLedger(l2, a, c);
        CountsSame(s'.view.manager, l2, WithReplant(l2, a, c));
      }
    } else {
      UncreditedSame(s, t, s');
      CountsSameRecords(s.view.manager, s'.view.manager, l1);
    }
  }

  lemma ReplantsMeans(s: Sys, t: ThreadId)
    requires Shaped(s) && SitesHaveRecords(s.view.manager) && PlantsAgain(s, t)
    ensures IsSite(s, StepSite(s, t))
    ensures ShouldReplant(WithOutcome(s.view.manager, StepSite(s, t),
                                      s.threads[t].status.landing == s.view.pending[t].takenTarget), StepSite(s, t))
  {
  }

  lemma UncreditedSame(s: Sys, t: ThreadId, s': Sys)
    requires Shaped(s) && SitesHaveRecords(s.view.manager) && t in s.threads && s.threads[t].status.StepQueued?
    requires !Credits(s, t) || !IsSite(s, StepSite(s, t))
    requires s'.view.manager == if Credits(s, t)
      then WithOutcome(s.view.manager, StepSite(s, t), s.threads[t].status.landing == s.view.pending[t].takenTarget)
      else s.view.manager
    ensures s'.view.manager.conditions == s.view.manager.conditions && !PlantsAgain(s, t)
  {
  }

  lemma StepBound(env: Env, s: Sys, t: ThreadId, s': Sys, l: Ledger)
    requires Inv(env, s) && Shaped(s) && Shaped(s') && SitesHaveRecords(s.view.manager) && BoundInv(env, s, l)
    requires t in s.threads && s.threads[t].status.StepQueued? && HandleStepOf(env, s, t, s')
    ensures BoundInv(env, s', AfterStep(s, t, l))
  {
    hide Inv, HandleStepOf, LedgerOk, CountsAgree, Planted, AfterStep, Replants, Classified, WithOutcome;
    StepDelta(env, s, t, s');
    AfterStepOk(env, s, t, s', l);
    StepEnds(env, s, t, s');
    var l' := AfterStep(s, t, l);
    forall b | Known(s', b) && Planted(env, s', b) ensures PlantFresh(s', l', b) {
      assert Known(s, b);
      if PlantsAgain(s, t) && b == StepSite(s, t) {
        TrapsArePlants(l);
      } else {
        assert Planted(env, s, b) by { StepPlantedBefore(env, s, t, s', b); }
        assert PlantFresh(s, l, b);
      }
    }
    forall u | u in s'.threads ensures Paid(s', l', u) {
      assert Paid(s, l, u);
    }
  }

  lemma TrapsArePlants(l: Ledger)
    requires LedgerOk(l)
    ensures forall k :: k in l.traps ==> k.1 in l.plants
  {
  }

  lemma StepPlantedBefore(env: Env, s: Sys, t: ThreadId, s': Sys, b: Address)
    requires Inv(env, s) && Shaped(s) && SitesHaveRecords(s.view.manager)
    requires t in s.threads && s.threads[t].status.StepQueued? && HandleStepOf(env, s, t, s')
    requires Known(s, b) && Planted(env, s', b) && !(PlantsAgain(s, t) && b == StepSite(s, t))
    ensures Planted(env, s, b)
  {
    hide Inv, HandleStepOf, Planted, PlantsAgain;
    StepDelta(env, s, t, s');
    if !PlantsAgain(s, t) {
      SameMemoryPlanted(env, s, s');
    }
  }

  /** After its step the thread runs without the single-step flag. */
  lemma StepEnds(env: Env, s: Sys, t: ThreadId, s': Sys)
    requires Inv(env, s) && Shaped(s') && t in s.threads && s.threads[t].status.StepQueued? && HandleStepOf(env, s, t, s')
    ensures s'.threads.Keys == s.threads.Keys && t in s'.threads && !Owes(s', t)
    ensures s'.view.manager.addressLineMap == s.view.manager.addressLineMap
  {
    hide StateOk, ProcessesOk, CpuOk, HandleStepOf;
    assert ThreadOk(env, s, t);
    StepDelta(env, s, t, s');
  }

  // ----- Processes and modules -------------------------------------------------------------------------------------

  lemma LoadBound(env: Env, s: Sys, p: Handle, base: nat, image: Mem, starts: set<nat>, s': Sys, l: Ledger)
    requires Inv(env, s) && Shaped(s) && Shaped(s') && BoundInv(env, s, l)
    requires LoadStep(env, s, p, base, image, starts, s')
    ensures BoundInv(env, s', WithLoad(l, NewAddresses(s, s')))
  {
    hide Inv, LoadStep, LedgerOk, CountsAgree, Planted, Kept, Owes, PlantFresh, WithLoad, RecordsKept;
    var added := NewAddresses(s, s');
    LoadDelta(env, s, p, base, image, starts, s');
    LoadLedger(l, added);
    CountsAfterLoad(s.view.manager, s'.view.manager, l, added);
    forall b | Known(s', b) && Planted(env, s', b) ensures PlantFresh(s', WithLoad(l, added), b) {
      LoadFresh(env, s, s', l, b);
    }
    forall u | u in s'.threads ensures Paid(s', WithLoad(l, added), u) {
      assert Paid(s, l, u);
      LoadOwes(env, s, p, base, image, starts, s', u);
      LoadKeepsLedger(l, added);
    }
  }

  lemma LoadKeepsLedger(l: Ledger, added: set<Address>)
    ensures var l' := WithLoad(l, added);
      l'.threads == l.threads && l'.last == l.last && l'.traps == l.traps && l'.steps == l.steps
  {
  }

  lemma LoadFresh(env: Env, s: Sys, s': Sys, l: Ledger, b: Address)
    requires LedgerOk(l) && PlantsFresh(env, s, l) && s'.threads == s.threads
    requires Known(s, b) ==> Kept(env, s, s', b)
    requires Known(s', b) && Planted(env, s', b) && LoadIds(l, NewAddresses(s, s')) !! l.plants
    ensures PlantFresh(s', WithLoad(l, NewAddresses(s, s')), b)
  {
    hide Planted, SameEntry, SameSite, LedgerOk;
    if Known(s, b) {
      assert PlantFresh(s, l, b);
    } else {
      TrapsArePlants(l);
      assert LoadPlant(b, l.loads) in LoadIds(l, NewAddresses(s, s'));
    }
  }

  lemma CountsAfterLoad(g: State, g': State, l: Ledger, added: set<Address>)
    requires CountsAgree(g, l) && RecordsKept(g, g')
    ensures CountsAgree(g', WithLoad(l, added))
  {
  }

  lemma LoadOwes(env: Env, s: Sys, p: Handle, base: nat, image: Mem, starts: set<nat>, s': Sys, u: ThreadId)
    requires Inv(env, s) && Shaped(s) && Shaped(s') && LoadStep(env, s, p, base, image, starts, s') && u in s.threads
    ensures u in s'.threads && (Owes(s', u) <==> Owes(s, u))
  {
    assert ThreadOk(env, s, u);
    hide StateOk, ThreadsOk, ProcessesOk, CpuOk, LoadStep, NativeTrap, Planted;
    LoadDelta(env, s, p, base, image, starts, s');
    if s.threads[u].status.TrapQueued? {
      var a := TrapAddress(s, u);
      if Known(s, a) {
        assert Kept(env, s, s', a);
      } else {
        LoadNewKnown(env, s, p, base, image, starts, s', a);
        QueuedInCode(env, s, u);
      }
    }
  }

  lemma QueuedInCode(env: Env, s: Sys, u: ThreadId)
    requires Inv(env, s) && u in s.threads && s.threads[u].status.TrapQueued?
    ensures s.threads[u].status.address in CodeOf(s, u).code
  {
    assert ThreadOk(env, s, u) && ProcessInv(env, s, s.threads[u].process);
    var proc := CodeOf(s, u);
    StartInCode(env, proc, s.threads[u].status.address);
  }

  lemma StartInCode(env: Env, proc: Process, a: nat)
    requires CpuOk(env.cpu, env.trap) && ImageOk(env.cpu, |env.trap|, proc) && a in proc.starts
    ensures a in proc.code
  {
    StartMapped(env.cpu, env.trap, proc.code, proc.starts, a);
  }

  /** A load registers no address in code that was there before. */
  lemma LoadNewKnown(env: Env, s: Sys, p: Handle, base: nat, image: Mem, starts: set<nat>, s': Sys, a: Address)
    requires Inv(env, s) && LoadStep(env, s, p, base, image, starts, s') && !Known(s, a)
    ensures Known(s', a) ==> p in s.processes && a.process == p && a.value !in s.processes[p].code
  {
    LoadEffects(env, s, p, base, image, starts, s');
    LoadShape(env, s, p, base, image, starts, s');
    hide StateOk, ThreadsOk, ProcessesOk, LoadStep, LoadOk, NewPlanted, OldReadsKept, RecordsKept, Valid;
    assert a.process != p || a.value !in starts ==> SameEntry(s.view.manager, s'.view.manager, a);
    if a.process == p && a.value in starts {
      NewNotInCode(env, s.processes[p], base, image, starts, a.value);
    }
  }

  /** Threads only disappear, and only from processes that keep no address. */
  ghost predicate ThreadsRemain(s: Sys, s': Sys)
    requires Shaped(s) && Shaped(s')
  {
    && (forall u :: u in s'.threads ==>
          u in s.threads && s'.threads[u] == s.threads[u] && s'.view.contexts[u] == s.view.contexts[u])
    && (forall u :: OwnTrap(s, u) && Known(s', TrapAddress(s, u)) ==> u in s'.threads)
  }

  /** Exits and unloads only remove addresses and threads. */
  lemma RemovalBound(env: Env, s: Sys, s': Sys, l: Ledger)
    requires Shaped(s) && Shaped(s') && BoundInv(env, s, l)
    requires s'.view.manager.conditions == s.view.manager.conditions
    requires forall a :: Known(s', a) ==> Known(s, a) && Kept(env, s, s', a)
    requires ThreadsRemain(s, s')
    ensures BoundInv(env, s', l)
  {
    hide LedgerOk, Planted, SameEntry, SameSite, CountsAgree;
    CountsSameRecords(s.view.manager, s'.view.manager, l);
    forall b | Known(s', b) && Planted(env, s', b) ensures PlantFresh(s', l, b) {
      assert Known(s, b) && Kept(env, s, s', b) && PlantFresh(s, l, b);
      RemovalFresh(env, s, s', l, b);
    }
    forall u | u in s'.threads ensures Paid(s', l, u) {
      assert Paid(s, l, u);
    }
  }

  lemma RemovalFresh(env: Env, s: Sys, s': Sys, l: Ledger, b: Address)
    requires Shaped(s) && Shaped(s') && PlantFresh(s, l, b) && Known(s, b) && Known(s', b) && ThreadsRemain(s, s')
    ensures PlantFresh(s', l, b)
  {
    forall t | (t, l.current[b]) in l.traps
      ensures t in s'.threads && s'.threads[t].process == b.process && s'.threads[t].status == TrapQueued(b.value)
    {
      assert TrapAddress(s, t) == b && OwnTrap(s, t);
    }
  }

  lemma CreateThreadBound(env: Env, s: Sys, t: ThreadId, p: Handle, pc: nat, regs: Regs, l: Ledger)
    requires Shaped(s) && Shaped(AfterCreateThread(s, t, p, pc, regs)) && BoundInv(env, s, l) && t !in s.threads
    ensures BoundInv(env, AfterCreateThread(s, t, p, pc, regs), l.(threads := l.threads + {t}))
  {
    hide Planted, CountsAgree;
    var s' := AfterCreateThread(s, t, p, pc, regs);
    var l' := l.(threads := l.threads + {t});
    SameMemoryPlanted(env, s, s');
    CountsSame(s.view.manager, l, l');
    forall id | id in l'.plants ensures PlantKnown(l', id) {
      assert PlantKnown(l, id);
    }
    forall r | r in l'.replants ensures ReplantAllowed(l', r) {
      assert ReplantAllowed(l, r);
    }
    forall b | Known(s', b) && Planted(env, s', b) ensures PlantFresh(s', l', b) {
      assert Known(s, b) && PlantFresh(s, l, b);
    }
    forall u | u in s'.threads ensures Paid(s', l', u) {
      if u != t {
        assert Paid(s, l, u);
      }
    }
  }

  lemma UnloadBound(env: Env, s: Sys, p: Handle, base: nat, l: Ledger)
    requires Inv(env, s) && CanUnload(env, s, p, base) && Shaped(s) && Shaped(AfterUnload(s, p, base))
    requires BoundInv(env, s, l)
    ensures BoundInv(env, AfterUnload(s, p, base), l)
  {
    hide Inv, BoundInv, Kept, SameEntry;
    UnloadDelta(env, s, p, base);
    RemovalBound(env, s, AfterUnload(s, p, base), l);
  }

  lemma ExitBound(env: Env, s: Sys, p: Handle, l: Ledger)
    requires Inv(env, s) && p in s.processes && Shaped(s) && Shaped(AfterExitProcess(s, p)) && BoundInv(env, s, l)
    ensures BoundInv(env, AfterExitProcess(s, p), l)
  {
    hide Inv, BoundInv, Kept, SameEntry;
    ExitDelta(env, s, p);
    RemovalBound(env, s, AfterExitProcess(s, p), l);
  }

  lemma ExitThreadBound(env: Env, s: Sys, t: ThreadId, l: Ledger)
    requires Shaped(s) && t in s.threads && s.threads[t].status == Running && Shaped(AfterExitThread(s, t))
    requires BoundInv(env, s, l)
    ensures BoundInv(env, AfterExitThread(s, t), l)
  {
    hide BoundInv, Planted;
    SameMemoryPlanted(env, s, AfterExitThread(s, t));
    QuietBound(env, s, AfterExitThread(s, t), l);
  }

  lemma CreateProcessBound(env: Env, s: Sys, p: Handle, heap: Heap, trapCode: int, l: Ledger)
    requires Inv(env, s) && p !in s.processes && Shaped(s) && Shaped(AfterCreateProcess(s, p, heap, trapCode))
    requires BoundInv(env, s, l)
    ensures BoundInv(env, AfterCreateProcess(s, p, heap, trapCode), l)
  {
    hide BoundInv, CpuOk, ProcessesOk, ThreadsOk, Valid, ConditionsHaveLines;
    QuietBound(env, s, AfterCreateProcess(s, p, heap, trapCode), l);
  }

  // ----- Every step -------------------------------------------------------------------------------------------------

  /** Every transition keeps the books: what stops or steps a thread is paid for by a plant of its own. */
  lemma BoundStep(env: Env, s: Sys, e: Event, s': Sys, l: Ledger)
    requires Inv(env, s) && Inv(env, s') && Shaped(s) && SitesHaveRecords(s.view.manager) && Next(env, s, e, s')
    requires BoundInv(env, s, l)
    ensures Shaped(s') && BoundInv(env, s', NextLedger(env, s, e, s', l))
  {
    hide Inv, BoundInv, LoadStep, CanUnload, AfterUnload, AfterExitProcess, HandleStepOf, RunStep, Stopped,
         AfterStep, WithLoad, WithTrap, Known;
    InvShaped(env, s');
    match e
    case HandleTrap(t) =>
      if OwnTrap(s, t) {
        TrapBound(env, s, t, s', l);
      } else {
        NativeTrapBound(env, s, t, s', l);
      }
    case HandleStep(t) => StepBound(env, s, t, s', l);
    case Debuggee(step) =>
      match step
      case CreateProcess(p, heap, trapCode) => CreateProcessBound(env, s, p, heap, trapCode, l);
      case ExitProcess(p) => ExitBound(env, s, p, l);
      case CreateThread(t, p, pc, regs) => CreateThreadBound(env, s, t, p, pc, regs, l);
      case ExitThread(t) => ExitThreadBound(env, s, t, l);
      case Load(p, base, image, starts) => LoadBound(env, s, p, base, image, starts, s', l);
      case Unload(p, base) => UnloadBound(env, s, p, base, l);
      case Run(t) => RunBound(env, s, t, s', l);
  }
}
