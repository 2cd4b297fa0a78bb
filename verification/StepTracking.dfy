/**
 CppCoverage/BranchStepTracker.cpp (the pending single step of each thread) and
 CppCoverage/ExceptionHandler.cpp (the first breakpoint of each process).
 */
module StepTracking {
  import opened Common
  import opened Debuggees

  datatype PendingStep = PendingStep(siteAddress: nat, takenTarget: nat, fallThrough: nat)

  class BranchStepTracker {
    var pendingSteps: map<ThreadId, PendingStep>

    constructor ()
      ensures pendingSteps == map[]
    {
      pendingSteps := map[];
    }

    method ArmStep(thread: ThreadId, step: PendingStep)
      modifies this
      ensures pendingSteps == old(pendingSteps)[thread := step]
    {
      pendingSteps := pendingSteps[thread := step];
    }

    method GetPendingStep(thread: ThreadId) returns (r: Option<PendingStep>)
      ensures r == if thread in pendingSteps then Some(pendingSteps[thread]) else None
    {
      r := if thread in pendingSteps then Some(pendingSteps[thread]) else None;
    }

    method CancelStep(thread: ThreadId)
      modifies this
      ensures pendingSteps == old(pendingSteps) - {thread}
    {
      pendingSteps := pendingSteps - {thread};
    }

    /** Drops the pending step of every thread, whatever its process. */
    method OnExitProcess()
      modifies this
      ensures pendingSteps == map[]
    {
      pendingSteps := map[];
    }
  }

  datatype ExceptionHandlerStatus = BreakPointStatus | FirstChanceException | ErrorStatus | CppErrorStatus

  /** The answer for an exception, given whether its process has already reported this breakpoint code. */
  function StatusOf(code: int, firstChance: bool, seen: bool): ExceptionHandlerStatus {
    if firstChance then
      if (code == EXCEPTION_BREAKPOINT || code == EXCEPTION_EMULATION_X86) && seen then BreakPointStatus
      else FirstChanceException
    else if code == CPP_EXCEPTION then CppErrorStatus else ErrorStatus
  }

  class ExceptionHandler {
    var processes: map<int, seq<Handle>>

    /** The two breakpoint codes, each with the distinct processes that have reported it. */
    ghost predicate Valid()
      reads this
    {
      && processes.Keys == {EXCEPTION_BREAKPOINT, EXCEPTION_EMULATION_X86}
      && forall code :: code in processes ==> Distinct(processes[code])
    }

    ghost function Seen(): set<(int, Handle)>
      reads this
    {
      set code, p | code in processes && p in processes[code] :: (code, p)
    }

    constructor ()
      ensures Valid() && Seen() == {}
    {
      processes := map[EXCEPTION_BREAKPOINT := [], EXCEPTION_EMULATION_X86 := []];
    }

    method HandleException(process: Handle, code: int, firstChance: bool) returns (status: ExceptionHandlerStatus)
      requires Valid()
      modifies this
      ensures Valid()
      ensures status == StatusOf(code, firstChance, (code, process) in old(Seen()))
      ensures Seen() == old(Seen()) +
        if firstChance && (code == EXCEPTION_BREAKPOINT || code == EXCEPTION_EMULATION_X86) then {(code, process)} else {}
    {
      if firstChance {
        if code in processes {
          if process !in processes[code] {
            DistinctSnoc(processes[code], process);
            processes := processes[code := processes[code] + [process]];
          } else {
            return BreakPointStatus;
          }
        }
        return FirstChanceException;
      }
      status := if code == CPP_EXCEPTION then CppErrorStatus else ErrorStatus;
    }

    method OnExitProcess(process: Handle)
      requires Valid()
      modifies this
      ensures Valid()
      ensures Seen() == set s | s in old(Seen()) && s.1 != process
    {
      var codes := [EXCEPTION_BREAKPOINT, EXCEPTION_EMULATION_X86];
      for n := 0 to 2
        invariant Valid()
        invariant forall code, p :: code in processes ==>
          (p in processes[code] <==> p in old(processes)[code] && (p != process || code !in codes[..n]))
      {
        var code := codes[n];
        if process in processes[code] {
          var it :| 0 <= it < |processes[code]| && processes[code][it] == process;
          DistinctErase(processes[code], it);
          processes := processes[code := processes[code][..it] + processes[code][it + 1..]];
        }
      }
      assert codes[..2] == codes && codes[0] in codes && codes[1] in codes;
      forall s ensures s in Seen() <==> s in old(Seen()) && s.1 != process {
        assert s in Seen() <==> s.0 in processes && s.1 in processes[s.0];
        assert s in old(Seen()) <==> s.0 in old(processes) && s.1 in old(processes)[s.0];
      }
    }
  }

  ghost predicate Distinct(s: seq<Handle>) {
    forall i, j :: 0 <= i < j < |s| ==> s[i] != s[j]
  }

  lemma DistinctSnoc(s: seq<Handle>, p: Handle)
    requires Distinct(s) && p !in s
    ensures Distinct(s + [p]) && forall q :: q in s + [p] <==> q in s || q == p
  {
  }

  /** Erasing the one occurrence of an element removes it, and only it. */
  lemma DistinctErase(s: seq<Handle>, it: nat)
    requires Distinct(s) && it < |s|
    ensures var r := s[..it] + s[it + 1..]; Distinct(r) && forall q :: q in r <==> q in s && q != s[it]
  {
    var r := s[..it] + s[it + 1..];
    forall q | q in s && q != s[it] ensures q in r {
      var k :| 0 <= k < |s| && s[k] == q;
      assert r[if k < it then k else k - 1] == q;
    }
  }
}
