/**
 What the operating system keeps for the debuggees: the memory of every
 process and the control part of every thread context.
 */
module Debuggees {
  import opened Common
  import opened Memory

  type Handle = nat
  type ThreadId = nat

  /** Program counter and single-step flag (EFLAGS.TF, or PSTATE.SS on ARM64). */
  datatype Context = Context(pc: nat, singleStep: bool)

  const EXCEPTION_BREAKPOINT: int := 0x80000003
  const EXCEPTION_EMULATION_X86: int := 0x4000001f
  const EXCEPTION_SINGLE_STEP: int := 0x80000004
  const CPP_EXCEPTION: int := 0xE06D7363

  /** What the handler of the debug events answers for an exception. */
  datatype ExceptionType = BreakPoint | InvalidBreakPoint | SingleStep | NotHandled | Error | CppError

  /** At most the memory of one process has changed. */
  ghost predicate OnlyProcess(before: map<Handle, Mem>, after: map<Handle, Mem>, process: Handle) {
    && after.Keys == before.Keys
    && forall p :: p in before && p != process ==> after[p] == before[p]
  }

  class Debuggee {
    var memory: map<Handle, Mem>
    var contexts: map<ThreadId, Context>

    constructor ()
      ensures memory == map[] && contexts == map[]
    {
      memory, contexts := map[], map[];
    }

    predicate Accessible(process: Handle, address: nat, size: nat)
      reads this`memory
    {
      process in memory && Mapped(memory[process], address, size)
    }

    method ReadProcessMemory(process: Handle, address: nat, size: nat) returns (r: Result<seq<Byte>>)
      ensures r.Ok? <==> Accessible(process, address, size)
      ensures r.Ok? ==> r.value == Read(memory[process], address, size)
    {
      if Accessible(process, address, size) {
        r := Ok(Read(memory[process], address, size));
      } else {
        r := Throw;
      }
    }

    method WriteProcessMemory(process: Handle, address: nat, bytes: seq<Byte>) returns (ok: bool)
      modifies this`memory
      ensures ok <==> old(Accessible(process, address, |bytes|))
      ensures memory == if ok then old(memory[process := Write(memory[process], address, bytes)]) else old(memory)
    {
      ok := Accessible(process, address, |bytes|);
      if ok {
        memory := memory[process := Write(memory[process], address, bytes)];
      }
    }
  }
}
