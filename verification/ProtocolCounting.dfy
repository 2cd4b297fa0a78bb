/** Bounded replanting over whole runs: how many traps, steps and replants a run can hold. */
module ProtocolCounting {
  import opened Common
  import opened Memory
  import opened Debuggees
  import opened AddressManagers
  import opened LineRegisters
  import opened StepTracking
  import opened CoverageRunners
  import opened NativeMachine
  import opened ModuleLoad
  import opened Protocol
  import opened ProtocolSafety
  import opened ProtocolDeltas
  import opened ProtocolBounds

  ghost predicate Sane(run: seq<Sys>) {
    forall i :: 0 <= i < |run| ==> Shaped(run[i]) && SitesHaveRecords(run[i].view.manager)
  }

  lemma ReachableSane(env: Env, run: seq<Sys>, events: seq<Event>)
    requires CpuOk(env.cpu, env.trap) && IsRun(env, run, events)
    ensures Sane(run)
  {
    hide CpuOk, Next;
    forall i | 0 <= i < |run| ensures Shaped(run[i]) && SitesHaveRecords(run[i].view.manager) {
      PrefixIsRun(env, run, events, i);
      ReachableInv(env, run[..i + 1], events[..i]);
      InvShaped(env, run[..i + 1][i]);
    }
  }

  lemma SanePrefix(run: seq<Sys>, n: nat)
    requires Sane(run) && n <= |run|
    ensures Sane(run[..n])
  {
  }

  // ----- What is counted -------------------------------------------------------------------------

  ghost predicate IsStop(env: Env, s: Sys, e: Event)
    requires Shaped(s)
  {
    e.Debuggee? && e.step.Run? && Stopped(env, s, e.step.t)
  }

  ghost predicate IsReplant(s: Sys, e: Event, c: ConditionKey)
    requires Shaped(s) && SitesHaveRecords(s.view.manager)
  {
    e.HandleStep? && PlantsAgain(s, e.t) && IsSite(s, StepSite(s, e.t)) && CreditedRecord(s, e.t) == c
  }

  ghost predicate IsObservation(s: Sys, e: Event, c: ConditionKey)
    requires Shaped(s)
  {
    e.HandleStep? && Credits(s, e.t) && IsSite(s, StepSite(s, e.t)) && CreditedRecord(s, e.t) == c
  }

  /** How often a planted trap stops a thread. */
  ghost function Stops(env: Env, run: seq<Sys>, events: seq<Event>): nat
    requires IsRun(env, run, events) && Sane(run)
  {
    if events == [] then 0 else
    var n := |events| - 1;
    RunPrefix(env, run, events);
    Stops(env, run[..n + 1], events[..n]) + if IsStop(env, run[n], events[n]) then 1 else 0
  }

  /** How many single-step events the debugger receives. */
  ghost function StepEvents(events: seq<Event>): nat {
    if events == [] then 0 else
    var n := |events| - 1;
    StepEvents(events[..n]) + if events[n].HandleStep? then 1 else 0
  }

  /** How often a condition record causes a replant. */
  ghost function Replantings(env: Env, run: seq<Sys>, events: seq<Event>, c: ConditionKey): nat
    requires IsRun(env, run, events) && Sane(run)
  {
    if events == [] then 0 else
    var n := |events| - 1;
    RunPrefix(env, run, events);
    Replantings(env, run[..n + 1], events[..n], c) + if IsReplant(run[n], events[n], c) then 1 else 0
  }

  ghost function AllReplantings(env: Env, run: seq<Sys>, events: seq<Event>): nat
    requires IsRun(env, run, events) && Sane(run)
  {
    if events == [] then 0 else
    var n := |events| - 1;
    RunPrefix(env, run, events);
    AllReplantings(env, run[..n + 1], events[..n]) +
      if events[n].HandleStep? && PlantsAgain(run[n], events[n].t) then 1 else 0
  }

  /** How often an outcome of a condition is credited. */
  ghost function Observations(env: Env, run: seq<Sys>, events: seq<Event>, c: ConditionKey): nat
    requires IsRun(env, run, events) && Sane(run)
  {
    if events == [] then 0 else
    var n := |events| - 1;
    RunPrefix(env, run, events);
    Observations(env, run[..n + 1], events[..n], c) + if IsObservation(run[n], events[n], c) then 1 else 0
  }

  /** How many addresses all loads together register. */
  ghost function Registered(env: Env, run: seq<Sys>, events: seq<Event>): nat
    requires IsRun(env, run, events) && Sane(run)
  {
    if events == [] then 0 else
    var n := |events| - 1;
    RunPrefix(env, run, events);
    Registered(env, run[..n + 1], events[..n]) +
      if events[n].Debuggee? && events[n].step.Load? then |NewAddresses(run[n], run[n + 1])| else 0
  }

  /** The threads ever created. */
  ghost function Threads(events: seq<Event>): set<ThreadId> {
    if events == [] then {} else
    var n := |events| - 1;
    Threads(events[..n]) +
      if events[n].Debuggee? && events[n].step.CreateThread? then {events[n].step.t} else {}
  }

  // ----- The ledger of a run ------------------------------------------------------------------------

  ghost function Account(env: Env, run: seq<Sys>, events: seq<Event>): Ledger
    requires IsRun(env, run, events) && Sane(run)
  {
    if events == [] then EMPTY_LEDGER else
    var n := |events| - 1;
    RunPrefix(env, run, events);
    NextLedger(env, run[n], events[n], run[n + 1], Account(env, run[..n + 1], events[..n]))
  }

  lemma InitialBound(env: Env)
    ensures Shaped(INITIAL) && BoundInv(env, INITIAL, EMPTY_LEDGER)
  {
  }

  lemma {:induction false} ReachableBound(env: Env, run: seq<Sys>, events: seq<Event>)
    requires CpuOk(env.cpu, env.trap) && IsRun(env, run, events) && Sane(run)
    ensures BoundInv(env, run[|events|], Account(env, run, events))
  {
    hide CpuOk, Next, BoundInv, NextLedger;
    if events == [] {
      InitialBound(env);
    } else {
      var n := |events| - 1;
      RunPrefix(env, run, events);
      ReachableBound(env, run[..n + 1], events[..n]);
      assert run[..n + 1][n] == run[n];
      ReachableInv(env, run[..n + 1], events[..n]);
      ReachableInv(env, run, events);
      BoundStep(env, run[n], events[n], run[n + 1], Account(env, run[..n + 1], events[..n]));
    }
  }

  ghost function ReplantsOf(l: Ledger, c: ConditionKey): set<nat> {
    set r | r in l.replants && r.0 == c :: r.1
  }

  /** What one event adds to the ledger is what it adds to the counts. */
  ghost predicate Advances(env: Env, s: Sys, e: Event, s': Sys, l: Ledger, l': Ledger)
    requires Shaped(s) && SitesHaveRecords(s.view.manager)
  {
    && l'.trapCount == l.trapCount + (if IsStop(env, s, e) then 1 else 0)
    && l'.stepCount == l.stepCount + (if e.HandleStep? then 1 else 0)
    && l'.loadPlants == l.loadPlants + (if e.Debuggee? && e.step.Load? then |NewAddresses(s, s')| else 0)
    && l'.threads == l.threads + (if e.Debuggee? && e.step.CreateThread? then {e.step.t} else {})
    && |l'.replants| == |l.replants| + (if e.HandleStep? && PlantsAgain(s, e.t) then 1 else 0)
    && (forall c :: |ReplantsOf(l', c)| == |ReplantsOf(l, c)| + if IsReplant(s, e, c) then 1 else 0)
    && (forall c :: Count(l', c) == Count(l, c) + if IsObservation(s, e, c) then 1 else 0)
  }

  lemma SameReplants(l: Ledger, l': Ledger)
    requires l'.replants == l.replants && l'.observations == l.observations
    ensures forall c :: ReplantsOf(l', c) == ReplantsOf(l, c) && Count(l', c) == Count(l, c)
  {
  }

  lemma ReplantAdds(l: Ledger, a: Address, c: ConditionKey)
    requires (c, Count(l, c)) !in l.replants
    ensures var l' := WithReplant(l, a, c);
      forall d :: |ReplantsOf(l', d)| == |ReplantsOf(l, d)| + if d == c then 1 else 0
  {
    var l' := WithReplant(l, a, c);
    forall d ensures |ReplantsOf(l', d)| == |ReplantsOf(l, d)| + if d == c then 1 else 0 {
      if d == c {
        assert ReplantsOf(l', d) == ReplantsOf(l, d) + {Count(l, c)};
        assert Count(l, c) !in ReplantsOf(l, d);
      } else {
        assert ReplantsOf(l', d) == ReplantsOf(l, d);
      }
    }
  }

  lemma StopAdvances(env: Env, s: Sys, e: Event, s': Sys, l: Ledger)
    requires Shaped(s) && SitesHaveRecords(s.view.manager) && BoundInv(env, s, l) && IsStop(env, s, e)
    ensures Advances(env, s, e, s', l, NextLedger(env, s, e, s', l))
  {
    hide LedgerOk, CountsAgree, ReplantsOf, Count;
    var a := Address(s.threads[e.step.t].process, PcOf(s, e.step.t));
    assert Known(s, a) && Planted(env, s, a) && PlantFresh(s, l, a);
    SameReplants(l, WithTrap(l, e.step.t, a));
  }

  lemma StepAdvances(env: Env, s: Sys, e: Event, s': Sys, l: Ledger)
    requires Inv(env, s) && Shaped(s) && SitesHaveRecords(s.view.manager) && BoundInv(env, s, l)
    requires e.HandleStep? && Next(env, s, e, s')
    ensures Advances(env, s, e, s', l, NextLedger(env, s, e, s', l))
  {
    hide Inv, HandleStepOf, LedgerOk, CountsAgree, Planted, Replants, Classified, ReplantsOf, Count, WithReplant, WithObservation;
    var t := e.t;
    assert Paid(s, l, t);
    var l1 := WithStep(l, t);
    SameReplants(l, l1);
    StepLedger(l, t);
    if Credits(s, t) && IsSite(s, StepSite(s, t)) {
      CreditAdvances(env, s, e, s', l);
    } else {
      NoCreditNoReplant(s, t);
    }
  }

  lemma NoCreditNoReplant(s: Sys, t: ThreadId)
    requires Shaped(s) && SitesHaveRecords(s.view.manager)
    ensures PlantsAgain(s, t) ==> Credits(s, t) && IsSite(s, StepSite(s, t))
  {
  }

  lemma ObservationAdds(l: Ledger, c: ConditionKey)
    ensures var l' := WithObservation(l, c);
      && l'.replants == l.replants && l' == l.(observations := l'.observations)
      && forall d :: Count(l', d) == Count(l, d) + (if d == c then 1 else 0) && ReplantsOf(l', d) == ReplantsOf(l, d)
  {
  }

  lemma CreditAdvances(env: Env, s: Sys, e: Event, s': Sys, l: Ledger)
    requires Shaped(s) && SitesHaveRecords(s.view.manager) && e.HandleStep?
    requires Credits(s, e.t) && IsSite(s, StepSite(s, e.t))
    requires e.t in l.last && LedgerOk(WithStep(l, e.t))
    ensures Advances(env, s, e, s', l, AfterStep(s, e.t, l))
  {
    hide LedgerOk, Planted, Replants, Classified, ReplantsOf, Count, WithObservation, WithReplant, SitesHaveRecords;
    var l1 := WithStep(l, e.t);
    SameReplants(l, l1);
    var a, c := StepSite(s, e.t), CreditedRecord(s, e.t);
    ObservationAdds(l1, c);
    if PlantsAgain(s, e.t) {
      ObservationLedger(l1, c);
      NewReplant(l1, c);
      var l2 := WithObservation(l1, c);
      ReplantAdds(l2, a, c);
      ReplantKeepsCounts(l2, a, c);
      ReplantGrows(l2, a, c);
    }
  }

  /** The next observation of a record has caused no replant yet. */
  lemma NewReplant(l: Ledger, c: ConditionKey)
    requires forall r :: r in l.replants && r.0 == c ==> r.1 < Count(WithObservation(l, c), c)
    ensures (c, Count(WithObservation(l, c), c)) !in WithObservation(l, c).replants
  {
  }

  lemma ReplantGrows(l: Ledger, a: Address, c: ConditionKey)
    requires (c, Count(l, c)) !in l.replants
    ensures var l' := WithReplant(l, a, c);
      && |l'.replants| == |l.replants| + 1 && l'.trapCount == l.trapCount && l'.stepCount == l.stepCount
      && l'.loadPlants == l.loadPlants && l'.threads == l.threads
  {
  }

  lemma ReplantKeepsCounts(l: Ledger, a: Address, c: ConditionKey)
    ensures forall d :: Count(WithReplant(l, a, c), d) == Count(l, d)
  {
  }

  lemma OtherLedger(env: Env, s: Sys, e: Event, s': Sys, l: Ledger)
    requires Shaped(s) && SitesHaveRecords(s.view.manager) && !e.HandleStep? && !IsStop(env, s, e)
    ensures var l' := NextLedger(env, s, e, s', l);
      && l'.replants == l.replants && l'.observations == l.observations
      && l'.trapCount == l.trapCount && l'.stepCount == l.stepCount
      && l'.loadPlants == l.loadPlants + (if e.Debuggee? && e.step.Load? then |NewAddresses(s, s')| else 0)
      && l'.threads == l.threads + (if e.Debuggee? && e.step.CreateThread? then {e.step.t} else {})
  {
    hide Stopped, NewAddresses, SitesHaveRecords, Shaped, PlantsAgain;
  }

  lemma QuietAdvances(env: Env, s: Sys, e: Event, s': Sys, l: Ledger, l': Ledger)
    requires Shaped(s) && SitesHaveRecords(s.view.manager) && !e.HandleStep? && !IsStop(env, s, e)
    requires l'.replants == l.replants && l'.trapCount == l.trapCount && l'.stepCount == l.stepCount
    requires l'.loadPlants == l.loadPlants + (if e.Debuggee? && e.step.Load? then |NewAddresses(s, s')| else 0)
    requires l'.threads == l.threads + (if e.Debuggee? && e.step.CreateThread? then {e.step.t} else {})
    requires forall c :: ReplantsOf(l', c) == ReplantsOf(l, c) && Count(l', c) == Count(l, c)
    ensures Advances(env, s, e, s', l, l')
  {
    hide ReplantsOf, Count, Stopped, NewAddresses, SitesHaveRecords, Shaped, PlantsAgain;
  }

  lemma OtherAdvances(env: Env, s: Sys, e: Event, s': Sys, l: Ledger)
    requires Shaped(s) && SitesHaveRecords(s.view.manager) && !e.HandleStep? && !IsStop(env, s, e)
    ensures Advances(env, s, e, s', l, NextLedger(env, s, e, s', l))
  {
    hide *;
    var l' := NextLedger(env, s, e, s', l);
    OtherLedger(env, s, e, s', l);
    SameReplants(l, l');
    QuietAdvances(env, s, e, s', l, l');
  }

  lemma Counts(env: Env, s: Sys, e: Event, s': Sys, l: Ledger)
    requires Inv(env, s) && Shaped(s) && SitesHaveRecords(s.view.manager) && BoundInv(env, s, l) && Next(env, s, e, s')
    ensures Advances(env, s, e, s', l, NextLedger(env, s, e, s', l))
  {
    hide Inv, BoundInv, Next, NextLedger, Advances, Stopped;
    if e.HandleStep? {
      StepAdvances(env, s, e, s', l);
    } else if IsStop(env, s, e) {
      StopAdvances(env, s, e, s', l);
    } else {
      OtherAdvances(env, s, e, s', l);
    }
  }

  /** The ledger counts what happens. */
  lemma {:induction false} LedgerCounts(env: Env, run: seq<Sys>, events: seq<Event>, c: ConditionKey)
    requires CpuOk(env.cpu, env.trap) && IsRun(env, run, events) && Sane(run)
    ensures var l := Account(env, run, events);
      && l.trapCount == Stops(env, run, events) && l.stepCount == StepEvents(events)
      && l.loadPlants == Registered(env, run, events) && l.threads == Threads(events)
      && |l.replants| == AllReplantings(env, run, events)
      && |ReplantsOf(l, c)| == Replantings(env, run, events, c) && Count(l, c) == Observations(env, run, events, c)
  {
    hide CpuOk, Next, BoundInv, NextLedger, IsStop, IsReplant, IsObservation, NewAddresses;
    if events == [] {
      assert ReplantsOf(EMPTY_LEDGER, c) == {};
    } else {
      var n := |events| - 1;
      RunPrefix(env, run, events);
      LedgerCounts(env, run[..n + 1], events[..n], c);
      ReachableBound(env, run[..n + 1], events[..n]);
      assert run[..n + 1][n] == run[n];
      ReachableInv(env, run[..n + 1], events[..n]);
      Counts(env, run[n], events[n], run[n + 1], Account(env, run[..n + 1], events[..n]));
    }
  }

  // ----- Counting -------------------------------------------------------------------------------------

  ghost function Firsts<A, B>(pairs: set<(A, B)>, x: A): set<B> {
    set k | k in pairs && k.0 == x :: k.1
  }

  lemma {:induction false} RowSize<A, B>(pairs: set<(A, B)>, x: A)
    requires forall k :: k in pairs ==> k.0 == x
    ensures |pairs| == |Firsts(pairs, x)|
  {
    if pairs != {} {
      var k :| k in pairs;
      RowSize(pairs - {k}, x);
      assert Firsts(pairs, x) == Firsts(pairs - {k}, x) + {k.1};
      assert k.1 !in Firsts(pairs - {k}, x);
    }
  }

  lemma OneRowMore(m: nat, n: nat)
    requires m > 0
    ensures m * n == (m - 1) * n + n
  {
  }

  /** A relation between two finite sets is no larger than their product. */
  lemma {:induction false} ProductBound<A, B>(pairs: set<(A, B)>, xs: set<A>, ys: set<B>)
    requires forall k :: k in pairs ==> k.0 in xs && k.1 in ys
    ensures |pairs| <= |xs| * |ys|
  {
    if xs != {} {
      var x :| x in xs;
      var row := set k | k in pairs && k.0 == x;
      RowSize(row, x);
      SubsetSize(Firsts(row, x), ys);
      ProductBound(pairs - row, xs - {x}, ys);
      assert pairs == row + (pairs - row);
      OneRowMore(|xs|, |ys|);
    } else {
      assert pairs == {};
    }
  }

  /** How many of the first n observations of a record leave its counter below the cap. */
  ghost function Allowance(n: nat): nat {
    100 * (n / 0x1_0000_0000) + if n % 0x1_0000_0000 < 100 then n % 0x1_0000_0000 else 99
  }

  ghost function BelowCap(n: nat): set<nat> {
    set k: nat | 1 <= k <= n && k % 0x1_0000_0000 < 100
  }

  lemma {:induction false} BelowCapSize(n: nat)
    ensures |BelowCap(n)| == Allowance(n)
  {
    if n == 0 {
      assert BelowCap(0) == {};
    } else {
      BelowCapSize(n - 1);
      if n % 0x1_0000_0000 < 100 {
        assert BelowCap(n) == BelowCap(n - 1) + {n};
      } else {
        assert BelowCap(n) == BelowCap(n - 1);
      }
      AllowanceStep(n);
    }
  }

  lemma AllowanceStep(n: nat)
    requires n > 0
    ensures Allowance(n) == Allowance(n - 1) + if n % 0x1_0000_0000 < 100 then 1 else 0
  {
    if n % 0x1_0000_0000 == 0 {
      assert (n - 1) / 0x1_0000_0000 == n / 0x1_0000_0000 - 1 && (n - 1) % 0x1_0000_0000 == 0x1_0000_0000 - 1;
    } else {
      assert (n - 1) / 0x1_0000_0000 == n / 0x1_0000_0000 && (n - 1) % 0x1_0000_0000 == n % 0x1_0000_0000 - 1;
    }
  }

  // ----- The bounds ---------------------------------------------------------------------------------------

  lemma RecordAllowance(l: Ledger, c: ConditionKey)
    requires LedgerOk(l)
    ensures |ReplantsOf(l, c)| <= Allowance(Count(l, c))
  {
    forall n | n in ReplantsOf(l, c) ensures n in BelowCap(Count(l, c)) {
      assert ReplantAllowed(l, (c, n));
    }
    SubsetSize(ReplantsOf(l, c), BelowCap(Count(l, c)));
    BelowCapSize(Count(l, c));
  }

  lemma AllowanceWithoutWrap(n: nat)
    requires n < 0x1_0000_0000
    ensures Allowance(n) <= 99
  {
  }

  lemma TrapAllowance(l: Ledger)
    requires LedgerOk(l)
    ensures l.stepCount <= l.trapCount <= |l.threads| * (l.loadPlants + |l.replants|)
  {
    ProductBound(l.traps, l.threads, l.plants);
    SubsetSize(l.steps, l.traps);
  }

  ghost function Range(n: nat): set<nat> {
    if n == 0 then {} else Range(n - 1) + {n}
  }

  lemma {:induction false} RangeHas(n: nat, k: nat)
    ensures k in Range(n) <==> 1 <= k <= n
  {
    if n > 0 {
      RangeHas(n - 1, k);
    }
  }

  lemma {:induction false} RangeSize(n: nat)
    ensures |Range(n)| == n
  {
    if n > 0 {
      RangeSize(n - 1);
      RangeHas(n - 1, n);
    }
  }

  lemma ReplantAllowance(g: State, l: Ledger)
    requires LedgerOk(l) && CountsAgree(g, l) && forall c :: c in g.conditions ==> Count(l, c) < 0x1_0000_0000
    ensures |l.replants| <= |g.conditions| * 99
  {
    hide Range;
    forall r | r in l.replants ensures r.0 in g.conditions.Keys && r.1 in Range(99) {
      assert ReplantAllowed(l, r);
      assert r.0 in l.observations;
      RangeHas(99, r.1);
    }
    hide *;
    RangeSize(99);
    ProductBound(l.replants, g.conditions.Keys, Range(99));
  }

  /**
   A condition record causes at most one replant per observation that leaves its
   32-bit counter below the cap: at most 99, unless the counter wraps around,
   which allows 100 more each time.
   */
  lemma ReplantsBounded(env: Env, run: seq<Sys>, events: seq<Event>, c: ConditionKey)
    requires CpuOk(env.cpu, env.trap) && IsRun(env, run, events)
    ensures Sane(run)
    ensures Replantings(env, run, events, c) <= Allowance(Observations(env, run, events, c))
    ensures Observations(env, run, events, c) < 0x1_0000_0000 ==> Replantings(env, run, events, c) <= 99
  {
    hide *;
    ReachableSane(env, run, events);
    BoundsOfRun(env, run, events);
    LedgerCounts(env, run, events, c);
    RecordAllowance(Account(env, run, events), c);
    if Observations(env, run, events, c) < 0x1_0000_0000 {
      AllowanceWithoutWrap(Observations(env, run, events, c));
    }
  }

  lemma BoundsOfRun(env: Env, run: seq<Sys>, events: seq<Event>)
    requires CpuOk(env.cpu, env.trap) && IsRun(env, run, events) && Sane(run)
    ensures LedgerOk(Account(env, run, events)) && CountsAgree(run[|events|].view.manager, Account(env, run, events))
  {
    hide CpuOk, Next, LedgerOk, CountsAgree, PlantsFresh, ThreadsPaid, NextLedger;
    ReachableBound(env, run, events);
  }

  /** The counter of a record is the number of its observations in the run, as a 32-bit number. */
  lemma CountersExact(env: Env, run: seq<Sys>, events: seq<Event>, c: ConditionKey)
    requires CpuOk(env.cpu, env.trap) && IsRun(env, run, events)
    ensures Sane(run) && |run| == |events| + 1
    ensures c in run[|events|].view.manager.conditions ==>
      run[|events|].view.manager.conditions[c].observationCount == Observations(env, run, events, c) % 0x1_0000_0000
    ensures c !in run[|events|].view.manager.conditions ==> Observations(env, run, events, c) == 0
  {
    hide CpuOk, Next, Sane, LedgerOk, Account, Observations, ReplantsOf;
    RunLength(env, run, events);
    ReachableSane(env, run, events);
    BoundsOfRun(env, run, events);
    LedgerCounts(env, run, events, c);
  }

  /** Each plant stops each thread at most once, and each stop is followed by at most one step. */
  lemma ToolEventsBounded(env: Env, run: seq<Sys>, events: seq<Event>)
    requires CpuOk(env.cpu, env.trap) && IsRun(env, run, events)
    ensures Sane(run)
    ensures StepEvents(events) <= Stops(env, run, events)
    ensures Stops(env, run, events) <=
      |Threads(events)| * (Registered(env, run, events) + AllReplantings(env, run, events))
  {
    hide *;
    ReachableSane(env, run, events);
    BoundsOfRun(env, run, events);
    LedgerCounts(env, run, events, ConditionKey(FileKey("", ""), 0, 0));
    TrapAllowance(Account(env, run, events));
  }

  /** As long as no counter has wrapped around, the records allow at most 99 replants each. */
  lemma BoundsUnlessWrapped(env: Env, run: seq<Sys>, events: seq<Event>)
    requires CpuOk(env.cpu, env.trap) && IsRun(env, run, events)
    requires Sane(run)
    requires forall c :: c in run[|events|].view.manager.conditions ==> Observations(env, run, events, c) < 0x1_0000_0000
    ensures AllReplantings(env, run, events) <= |run[|events|].view.manager.conditions| * 99
    ensures StepEvents(events) <= Stops(env, run, events)
    ensures Stops(env, run, events) <= |Threads(events)| *
      (Registered(env, run, events) + |run[|events|].view.manager.conditions| * 99)
  {
    hide *;
    RunLength(env, run, events);
    ToolEventsBounded(env, run, events);
    BoundsOfRun(env, run, events);
    var l, g := Account(env, run, events), run[|events|].view.manager;
    forall c | c in g.conditions ensures Count(l, c) < 0x1_0000_0000 {
      LedgerCounts(env, run, events, c);
    }
    LedgerCounts(env, run, events, ConditionKey(FileKey("", ""), 0, 0));
    ReplantAllowance(g, l);
    Monotone(|Threads(events)|, Registered(env, run, events) + AllReplantings(env, run, events),
             Registered(env, run, events) + |g.conditions| * 99);
  }

  lemma Monotone(n: nat, x: nat, y: nat)
    requires x <= y
    ensures n * x <= n * y
  {
  }

  // ----- Few enough loads, threads and records leave no counter to wrap around ---------------------------------

  /** What the loads, the threads and the condition records of a run allow. */
  ghost function Cap(env: Env, run: seq<Sys>, events: seq<Event>): nat
    requires IsRun(env, run, events) && Sane(run)
  {
    CapOf(|Threads(events)|, Registered(env, run, events), |run[|events|].view.manager.conditions|)
  }

  function CapOf(threads: nat, registered: nat, records: nat): nat {
    threads * (registered + records * 99)
  }

  lemma CapOfGrows(threads: nat, registered: nat, records: nat, threads': nat, registered': nat, records': nat)
    requires threads <= threads' && registered <= registered' && records <= records'
    ensures CapOf(threads, registered, records) <= CapOf(threads', registered', records')
  {
    var x, y := registered + records * 99, registered' + records' * 99;
    Monotone(threads, x, y);
    Monotone(y, threads, threads');
  }

  lemma CapGrows(env: Env, run: seq<Sys>, events: seq<Event>)
    requires CpuOk(env.cpu, env.trap) && IsRun(env, run, events) && Sane(run) && events != []
    ensures var n := |events| - 1;
      && IsRun(env, run[..n + 1], events[..n])
      && Cap(env, run[..n + 1], events[..n]) <= Cap(env, run, events)
  {
    hide CpuOk, Next, Inv, NewAddresses, LinesSurvive, CapOf;
    var n := |events| - 1;
    RunPrefix(env, run, events);
    var before := run[..n + 1];
    assert before[n] == run[n];
    ReachableInv(env, before, events[..n]);
    RecordsSurvive(env, run[n], events[n], run[n + 1]);
    var c, c' := run[n].view.manager.conditions, run[n + 1].view.manager.conditions;
    SubsetSize(c.Keys, c'.Keys);
    SubsetSize(Threads(events[..n]), Threads(events));
    CapOfGrows(|Threads(events[..n])|, Registered(env, before, events[..n]), |c|,
               |Threads(events)|, Registered(env, run, events), |c'|);
  }

  lemma {:induction false} ObservationsAreSteps(env: Env, run: seq<Sys>, events: seq<Event>, c: ConditionKey)
    requires IsRun(env, run, events) && Sane(run)
    ensures Observations(env, run, events, c) <= StepEvents(events)
  {
    hide Next, IsObservation, Shaped;
    if events != [] {
      var n := |events| - 1;
      RunPrefix(env, run, events);
      ObservationsAreSteps(env, run[..n + 1], events[..n], c);
      ObservationIsStep(run[n], events[n], c);
    }
  }

  lemma ObservationIsStep(s: Sys, e: Event, c: ConditionKey)
    requires Shaped(s)
    ensures IsObservation(s, e, c) ==> e.HandleStep?
  {
  }

  /** A step is paid by an earlier stop, so the counters cannot get ahead of the cap. */
  lemma {:induction false} NoCounterWraps(env: Env, run: seq<Sys>, events: seq<Event>)
    requires CpuOk(env.cpu, env.trap) && IsRun(env, run, events) && Sane(run)
    requires Cap(env, run, events) < 0x1_0000_0000
    ensures StepEvents(events) < 0x1_0000_0000
    ensures forall c :: Observations(env, run, events, c) < 0x1_0000_0000
  {
    hide CpuOk, Next, IsStop, Observations, Cap;
    if events != [] {
      var n := |events| - 1;
      CapGrows(env, run, events);
      var before := run[..n + 1];
      NoCounterWraps(env, before, events[..n]);
      CappedUnlessWrapped(env, before, events[..n]);
      ToolEventsBounded(env, run, events);
      StepIsNoStop(env, run[n], events[n]);
    }
    forall c ensures Observations(env, run, events, c) < 0x1_0000_0000 {
      ObservationsAreSteps(env, run, events, c);
    }
  }

  lemma StepIsNoStop(env: Env, s: Sys, e: Event)
    requires Shaped(s)
    ensures e.HandleStep? ==> !IsStop(env, s, e)
  {
  }

  lemma CappedUnlessWrapped(env: Env, run: seq<Sys>, events: seq<Event>)
    requires CpuOk(env.cpu, env.trap) && IsRun(env, run, events) && Sane(run)
    requires forall c :: Observations(env, run, events, c) < 0x1_0000_0000
    ensures StepEvents(events) <= Stops(env, run, events) <= Cap(env, run, events)
    ensures AllReplantings(env, run, events) <= |run[|events|].view.manager.conditions| * 99
  {
    hide CpuOk, Next, Sane, Observations, Stops, Registered, AllReplantings;
    BoundsUnlessWrapped(env, run, events);
  }

  /**
   The tool's events are finite for finite loads and threads.  When the threads,
   times the registered addresses and 99 for each condition record, stay below
   2^32, no counter wraps around, each record causes at most 99 replants, and that
   product bounds the stops and the steps of the run.
   */
  lemma ToolEventsFinite(env: Env, run: seq<Sys>, events: seq<Event>)
    requires CpuOk(env.cpu, env.trap) && IsRun(env, run, events)
    ensures Sane(run)
    ensures Cap(env, run, events) < 0x1_0000_0000 ==>
      && StepEvents(events) <= Stops(env, run, events) <= Cap(env, run, events)
      && (forall c :: Observations(env, run, events, c) < 0x1_0000_0000)
      && (forall c :: Replantings(env, run, events, c) <= 99)
      && AllReplantings(env, run, events) <= |run[|events|].view.manager.conditions| * 99
  {
    hide *;
    RunLength(env, run, events);
    ReachableSane(env, run, events);
    if Cap(env, run, events) < 0x1_0000_0000 {
      NoCounterWraps(env, run, events);
      CappedUnlessWrapped(env, run, events);
      forall c ensures Replantings(env, run, events, c) <= 99 {
        ReplantsBounded(env, run, events, c);
      }
    }
  }

  // ----- Nothing is planted for a record that is complete --------------------------------------------------

  ghost predicate Complete(s: Sys, c: ConditionKey) {
    && c in s.view.manager.conditions
    && s.view.manager.conditions[c].takenSeen && s.view.manager.conditions[c].notTakenSeen
  }

  lemma CompleteNeverReplants(s: Sys, e: Event, c: ConditionKey)
    requires Shaped(s) && SitesHaveRecords(s.view.manager) && Complete(s, c)
    ensures !IsReplant(s, e, c)
  {
  }

  /** Once both outcomes of a condition are seen, no later event of the run plants for it. */
  lemma {:induction false} NoneOnceComplete(env: Env, run: seq<Sys>, events: seq<Event>, n: nat, c: ConditionKey)
    requires CpuOk(env.cpu, env.trap) && IsRun(env, run, events) && n <= |events| && Complete(run[n], c)
    ensures Sane(run) && IsRun(env, run[..n + 1], events[..n]) && Sane(run[..n + 1])
    ensures Complete(run[|events|], c)
    ensures Replantings(env, run, events, c) == Replantings(env, run[..n + 1], events[..n], c)
  {
    hide CpuOk, Next, IsReplant, Complete;
    ReachableSane(env, run, events);
    PrefixIsRun(env, run, events, n);
    SanePrefix(run, n + 1);
    if n == |events| {
      assert run[..n + 1] == run && events[..n] == events;
    } else {
      var k := |events| - 1;
      RunPrefix(env, run, events);
      assert run[..k + 1][n] == run[n];
      NoneOnceComplete(env, run[..k + 1], events[..k], n, c);
      assert run[..k + 1][..n + 1] == run[..n + 1] && events[..k][..n] == events[..n];
      assert run[..k + 1][k] == run[k];
      ReachableInv(env, run[..k + 1], events[..k]);
      StaysComplete(env, run[k], events[k], run[k + 1], c);
      CompleteNeverReplants(run[k], events[k], c);
    }
  }

  lemma StaysComplete(env: Env, s: Sys, e: Event, s': Sys, c: ConditionKey)
    requires Inv(env, s) && Shaped(s) && Next(env, s, e, s') && Complete(s, c)
    ensures Complete(s', c)
  {
    hide Inv, Next;
    RecordsSurvive(env, s, e, s');
  }
}
