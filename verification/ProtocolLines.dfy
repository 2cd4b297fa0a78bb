/** Exact line coverage over runs. */
module ProtocolLines {
  import opened Common
  import opened Memory
  import opened Debuggees
  import opened AddressManagers
  import opened LineRegisters
  import opened CoverageRunners
  import opened NativeMachine
  import opened ModuleLoad
  import opened Protocol
  import opened ProtocolSafety
  import opened ProtocolDeltas

  /** A thread stood at a registered address, which carried these lines. */
  datatype Hit = Hit(address: Address, lines: seq<LineKey>)

  ghost function NewHits(s: Sys, e: Event): seq<Hit>
    requires Shaped(s)
  {
    if e.HandleTrap? && OwnTrap(s, e.t)
    then [Hit(TrapAddress(s, e.t), s.view.manager.addressLineMap[TrapAddress(s, e.t)].hasBeenExecuted)]
    else []
  }

  /** The hits of a run. */
  ghost function Hits(env: Env, run: seq<Sys>, events: seq<Event>): seq<Hit>
    requires IsRun(env, run, events)
  {
    if events == [] then [] else
    var n := |events| - 1;
    RunPrefix(env, run, events);
    Hits(env, run[..n + 1], events[..n]) + NewHits(run[n], events[n])
  }

  ghost predicate IsHit(hits: seq<Hit>, k: LineKey) {
    exists h :: h in hits && k in h.lines
  }

  ghost predicate AllRaised(g: State, keys: seq<LineKey>) {
    forall k :: k in keys ==> k in g.lines && g.lines[k]
  }

  /** Raised flags are exactly the hit ones, and an address without its trap has raised all its flags. */
  ghost predicate LineInv(env: Env, s: Sys, hits: seq<Hit>) {
    && (forall k :: k in s.view.manager.lines ==> (s.view.manager.lines[k] <==> IsHit(hits, k)))
    && (forall k :: IsHit(hits, k) ==> k in s.view.manager.lines)
    && (forall a :: Known(s, a) && !Planted(env, s, a) ==> AllRaised(s.view.manager, s.view.manager.addressLineMap[a].hasBeenExecuted))
  }

  /** The native position of a thread whose trap of ours is handled is the hit address: it really was there. */
  lemma HitIsReal(env: Env, s: Sys, t: ThreadId)
    requires Inv(env, s) && OwnTrap(s, t)
    ensures NativeThread(env, s, t).pc == TrapAddress(s, t).value
    ensures NativeThread(env, s, t).process == TrapAddress(s, t).process
  {
    OursIsNotNative(env, s, s.threads[t].process, s.threads[t].status.address);
  }

  lemma LinesAfterTrap(env: Env, s: Sys, t: ThreadId, s': Sys, hits: seq<Hit>)
    requires Inv(env, s) && LineInv(env, s, hits) && OwnTrap(s, t) && HandleStepOf(env, s, t, s')
    ensures LineInv(env, s', hits + NewHits(s, HandleTrap(t)))
  {
    var a := TrapAddress(s, t);
    FlagsOfEntry(env, s, a);
    OwnTrapDelta(env, s, t, s');
    hide Inv, HandleStepOf, Planted;
    HitRaises(env, s, a, s', hits);
  }

  lemma HitRaises(env: Env, s: Sys, a: Address, s': Sys, hits: seq<Hit>)
    requires LineInv(env, s, hits) && Known(s, a) && s'.view.manager == WithHit(s.view.manager, a)
    requires forall k :: k in s.view.manager.addressLineMap[a].hasBeenExecuted ==> k in s.view.manager.lines
    requires forall b :: Known(s, b) && b != a ==> (Planted(env, s', b) <==> Planted(env, s, b))
    ensures LineInv(env, s', hits + [Hit(a, s.view.manager.addressLineMap[a].hasBeenExecuted)])
  {
    hide Planted;
    var line := s.view.manager.addressLineMap[a];
    var all := hits + [Hit(a, line.hasBeenExecuted)];
    forall k ensures IsHit(all, k) <==> IsHit(hits, k) || k in line.hasBeenExecuted {
      assert forall h :: h in all <==> h in hits || h == Hit(a, line.hasBeenExecuted);
    }
    forall b | Known(s', b) && !Planted(env, s', b)
      ensures AllRaised(s'.view.manager, s'.view.manager.addressLineMap[b].hasBeenExecuted)
    {
      assert Known(s, b);
      if b != a {
        assert AllRaised(s.view.manager, s.view.manager.addressLineMap[b].hasBeenExecuted);
      }
    }
  }

  lemma FlagsOfEntry(env: Env, s: Sys, a: Address)
    requires Inv(env, s) && Known(s, a)
    ensures forall k :: k in s.view.manager.addressLineMap[a].hasBeenExecuted ==> k in s.view.manager.lines
  {
  }

  /** Any transition that keeps the flags, and the entries and traps of the addresses that stay known. */
  lemma LinesKept(env: Env, s: Sys, s': Sys, hits: seq<Hit>)
    requires LineInv(env, s, hits)
    requires forall k :: k in s.view.manager.lines ==> k in s'.view.manager.lines
    requires forall k :: k in s'.view.manager.lines ==>
      s'.view.manager.lines[k] == (k in s.view.manager.lines && s.view.manager.lines[k])
    requires UnplantedKept(env, s, s')
    ensures LineInv(env, s', hits)
  {
    forall k | k in s'.view.manager.lines ensures s'.view.manager.lines[k] <==> IsHit(hits, k) {
      if k !in s.view.manager.lines {
        assert !IsHit(hits, k);
      }
    }
    forall a | Known(s', a) && !Planted(env, s', a)
      ensures AllRaised(s'.view.manager, s'.view.manager.addressLineMap[a].hasBeenExecuted)
    {
      assert AllRaised(s.view.manager, s.view.manager.addressLineMap[a].hasBeenExecuted);
    }
  }

  /** An address without its trap was known before, without its trap, with the same entry. */
  ghost predicate UnplantedKept(env: Env, s: Sys, s': Sys) {
    forall a :: Known(s', a) && !Planted(env, s', a) ==>
      Known(s, a) && !Planted(env, s, a) && SameEntry(s.view.manager, s'.view.manager, a)
  }

  lemma AllKept(env: Env, s: Sys, s': Sys)
    requires forall a :: Known(s', a) && !Known(s, a) ==> Planted(env, s', a)
    requires forall a :: Known(s, a) && Known(s', a) ==> Kept(env, s, s', a)
    ensures UnplantedKept(env, s, s')
  {
    hide Planted, SameEntry, SameSite;
    forall a | Known(s', a) && !Planted(env, s', a)
      ensures Known(s, a) && !Planted(env, s, a) && SameEntry(s.view.manager, s'.view.manager, a)
    {
      assert Known(s, a);
      assert Kept(env, s, s', a);
    }
  }

  lemma LineStep(env: Env, s: Sys, e: Event, s': Sys, hits: seq<Hit>)
    requires Inv(env, s) && Next(env, s, e, s') && LineInv(env, s, hits)
    ensures LineInv(env, s', hits + NewHits(s, e))
  {
    hide Inv, LoadStep, CanUnload, HandleStepOf, RunStep, LineInv, Planted, Kept, UnplantedKept;
    assert Shaped(s) by { InvShaped(env, s); }
    if e.HandleTrap? && OwnTrap(s, e.t) {
      LinesAfterTrap(env, s, e.t, s', hits);
    } else {
      assert hits + NewHits(s, e) == hits;
      if Quiet(e) {
        QuietDelta(env, s, e, s');
        AllKept(env, s, s');
      } else {
        match e
        case HandleTrap(t) => NativeTrapDelta(env, s, t, s'); ManagerAndMemorySame(env, s, s'); AllKept(env, s, s');
        case HandleStep(t) => StepUnplanted(env, s, t, s'); StepSurvives(env, s, t, s');
        case Debuggee(step) =>
          match step
          case ExitProcess(p) => ExitDelta(env, s, p); AllKept(env, s, s');
          case Load(p, base, image, starts) => LoadDelta(env, s, p, base, image, starts, s'); AllKept(env, s, s');
          case Unload(p, base) => UnloadDelta(env, s, p, base); AllKept(env, s, s');
          case _ =>
      }
      LinesKept(env, s, s', hits);
    }
  }

  lemma ManagerAndMemorySame(env: Env, s: Sys, s': Sys)
    requires s'.view.manager == s.view.manager && s'.view.memory == s.view.memory
    ensures forall a :: Known(s, a) ==> Kept(env, s, s', a)
  {
  }

  /** After a handled step an address without a trap had none before. */
  lemma StepUnplanted(env: Env, s: Sys, t: ThreadId, s': Sys)
    requires Inv(env, s) && t in s.threads && s.threads[t].status.StepQueued? && HandleStepOf(env, s, t, s')
    ensures UnplantedKept(env, s, s')
  {
    hide Inv, HandleStepOf, Planted;
    StepPlantsMore(env, s, t, s');
    forall a | Known(s', a) && !Planted(env, s', a)
      ensures Known(s, a) && !Planted(env, s, a) && SameEntry(s.view.manager, s'.view.manager, a)
    {
      assert Known(s, a);
    }
  }

  lemma {:induction false} ReachableLines(env: Env, run: seq<Sys>, events: seq<Event>)
    requires CpuOk(env.cpu, env.trap) && IsRun(env, run, events)
    ensures LineInv(env, run[|events|], Hits(env, run, events))
  {
    if events != [] {
      hide CpuOk, Next, LineInv;
      var n := |events| - 1;
      RunPrefix(env, run, events);
      ReachableLines(env, run[..n + 1], events[..n]);
      assert run[..n + 1][n] == run[n];
      ReachableInv(env, run[..n + 1], events[..n]);
      LineStep(env, run[n], events[n], run[n + 1], Hits(env, run[..n + 1], events[..n]));
    }
  }

  /** Nothing executed goes unreported: when an instruction at a registered address runs, its lines are already marked. */
  lemma ExecutedLinesAreReported(env: Env, run: seq<Sys>, events: seq<Event>, t: ThreadId, s': Sys)
    requires CpuOk(env.cpu, env.trap) && IsRun(env, run, events)
    requires Shaped(run[|events|]) && RunStep(env, run[|events|], t, s') && AtOurs(run[|events|], t)
    requires !Stopped(env, run[|events|], t)
    ensures var s := run[|events|];
      AllRaised(s.view.manager, s.view.manager.addressLineMap[Address(s.threads[t].process, PcOf(s, t))].hasBeenExecuted)
  {
    ReachableLines(env, run, events);
    var s := run[|events|];
    assert Known(s, Address(s.threads[t].process, PcOf(s, t)));
  }

  // ----- Whole runs against the native machine -------------------------------------------------------------

  /** Natively, thread t stands at an address registered for line k. */
  ghost predicate StandsOn(env: Env, s: Sys, t: ThreadId, k: LineKey) {
    && Shaped(s) && t in s.threads
    && var thread := NativeThread(env, s, t);
       var a := Address(thread.process, thread.pc);
       Known(s, a) && k in s.view.manager.addressLineMap[a].hasBeenExecuted
  }

  /** At some moment of the run some thread natively stood at an address registered for the line. */
  ghost predicate Stood(env: Env, run: seq<Sys>, k: LineKey) {
    exists i, t :: 0 <= i < |run| && StandsOn(env, run[i], t, k)
  }

  /** Event i is the native execution, by thread t, of an instruction at an address registered for the line. */
  ghost predicate ExecutedAt(env: Env, run: seq<Sys>, events: seq<Event>, i: nat, t: ThreadId, k: LineKey)
    requires |run| == |events| + 1 && i < |events|
  {
    events[i] == Debuggee(Run(t)) && StandsOn(env, run[i], t, k) && !Stopped(env, run[i], t)
  }

  ghost predicate Executed(env: Env, run: seq<Sys>, events: seq<Event>, k: LineKey)
    requires |run| == |events| + 1
  {
    exists i, t :: 0 <= i < |events| && ExecutedAt(env, run, events, i, t, k)
  }

  ghost predicate Marked(s: Sys, k: LineKey) {
    k in s.view.manager.lines && s.view.manager.lines[k]
  }

  lemma HitStands(env: Env, s: Sys, e: Event, k: LineKey)
    requires Inv(env, s) && Shaped(s) && IsHit(NewHits(s, e), k)
    ensures e.HandleTrap? && StandsOn(env, s, e.t, k)
  {
    HitIsReal(env, s, e.t);
  }

  lemma {:induction false} HitsStood(env: Env, run: seq<Sys>, events: seq<Event>, k: LineKey)
    requires CpuOk(env.cpu, env.trap) && IsRun(env, run, events)
    ensures IsHit(Hits(env, run, events), k) ==> Stood(env, run, k)
  {
    hide CpuOk, Next, Inv, StandsOn, NewHits;
    if events != [] && IsHit(Hits(env, run, events), k) {
      var n := |events| - 1;
      RunPrefix(env, run, events);
      var before := run[..n + 1];
      assert before[n] == run[n];
      if IsHit(NewHits(run[n], events[n]), k) {
        ReachableInv(env, before, events[..n]);
        HitStands(env, run[n], events[n], k);
      } else {
        HitsStood(env, before, events[..n], k);
        var i, t :| 0 <= i < |before| && StandsOn(env, before[i], t, k);
        assert StandsOn(env, run[i], t, k);
      }
    }
  }

  /** A marked line stays marked. */
  lemma {:induction false} MarkStays(env: Env, run: seq<Sys>, events: seq<Event>, i: nat, k: LineKey)
    requires CpuOk(env.cpu, env.trap) && IsRun(env, run, events) && i <= |events| && Marked(run[i], k)
    ensures Marked(run[|events|], k)
  {
    hide CpuOk, Next, Inv, ConditionsSurvive;
    if i < |events| {
      var n := |events| - 1;
      RunPrefix(env, run, events);
      var before := run[..n + 1];
      assert before[n] == run[n] && before[i] == run[i];
      MarkStays(env, before, events[..n], i, k);
      ReachableInv(env, before, events[..n]);
      RecordsSurvive(env, run[n], events[n], run[n + 1]);
    }
  }

  lemma RunnerStands(env: Env, s: Sys, t: ThreadId, k: LineKey, s': Sys)
    requires Shaped(s) && Next(env, s, Debuggee(Run(t)), s') && StandsOn(env, s, t, k)
    ensures RunStep(env, s, t, s') && AtOurs(s, t)
    ensures k in s.view.manager.addressLineMap[Address(s.threads[t].process, PcOf(s, t))].hasBeenExecuted
  {
  }

  lemma ExecutedIsMarked(env: Env, run: seq<Sys>, events: seq<Event>, i: nat, t: ThreadId, k: LineKey)
    requires CpuOk(env.cpu, env.trap) && IsRun(env, run, events) && i < |events| && ExecutedAt(env, run, events, i, t, k)
    ensures Marked(run[|events|], k)
  {
    hide CpuOk, Next, StandsOn, RunStep, Stopped;
    PrefixIsRun(env, run, events, i);
    var before := run[..i + 1];
    assert before[i] == run[i];
    RunnerStands(env, run[i], t, k, run[i + 1]);
    ExecutedLinesAreReported(env, before, events[..i], t, run[i + 1]);
    MarkStays(env, run, events, i, k);
  }

  /**
   Exact line coverage.  At the end of any run a line is marked executed only if
   some thread natively stood at an address registered for it, and whenever some
   thread executed an instruction at such an address; it is marked exactly when a
   trap at such an address was handled.
   */
  lemma LinesExact(env: Env, run: seq<Sys>, events: seq<Event>, k: LineKey)
    requires CpuOk(env.cpu, env.trap) && IsRun(env, run, events)
    ensures |run| == |events| + 1
    ensures Marked(run[|events|], k) ==> Stood(env, run, k)
    ensures Executed(env, run, events, k) ==> Marked(run[|events|], k)
    ensures Marked(run[|events|], k) <==> IsHit(Hits(env, run, events), k)
  {
    hide CpuOk, Next, ExecutedAt, Stood;
    assert Marked(run[|events|], k) <==> IsHit(Hits(env, run, events), k) by { ReachableLines(env, run, events); }
    HitsStood(env, run, events, k);
    if Executed(env, run, events, k) {
      var i, t :| 0 <= i < |events| && ExecutedAt(env, run, events, i, t, k);
      ExecutedIsMarked(env, run, events, i, t, k);
    }
  }
}
