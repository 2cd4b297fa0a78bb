/**
 CppCoverage/ExecutedAddressManager.cpp.  A pointer to a line flag or to a
 condition record is modelled by the key of the std::map node it points into:
 such nodes are created once and never erased.  The nested maps from module to
 file to line are flattened: a file has an entry exactly when it has a line or a
 condition.
 */
module AddressManagers {
  import opened Common
  import opened Memory
  import opened Debuggees

  datatype Address = Address(process: Handle, value: nat)

  datatype FileKey = FileKey(moduleName: string, path: string)
  datatype LineKey = LineKey(file: FileKey, line: nat)
  datatype ConditionKey = ConditionKey(file: FileKey, line: nat, index: nat)

  const UINT32: nat := 0x1_0000_0000
  const MAX_OBSERVATIONS: nat := 100

  datatype ConditionState = ConditionState(takenSeen: bool, notTakenSeen: bool, observationCount: nat)

  const FRESH_CONDITION := ConditionState(false, false, 0)

  /** `ExecutedAddressManager::Line`: the saved instruction and the flags to raise on a hit. */
  datatype Line = Line(instructionToRestore: Instruction, dllBaseOfImage: nat, hasBeenExecuted: seq<LineKey>)

  datatype ConditionRuntime =
    ConditionRuntime(takenTarget: nat, fallThrough: nat, dllBaseOfImage: nat, condition: ConditionKey)

  datatype ConditionSiteInfo = ConditionSiteInfo(takenTarget: nat, fallThrough: nat)

  datatype LastModule = LastModule(name: string, baseOfImage: nat)

  datatype State = State(
    modules: set<string>,
    lines: map<LineKey, bool>,
    conditions: map<ConditionKey, ConditionState>,
    addressLineMap: map<Address, Line>,
    conditionSiteMap: map<Address, ConditionRuntime>,
    lastModule: Option<LastModule>)

  const EMPTY := State({}, map[], map[], map[], map[], None)

  // ----- The operations on states ----------------------------------------------

  ghost function LineKeyOf(s: State, path: string, line: nat): LineKey
    requires s.lastModule.Some?
  {
    LineKey(FileKey(s.lastModule.value.name, path), line)
  }

  /** Registers a line at an address; an address keeps the instruction and base of its first registration. */
  ghost function WithAddress(s: State, a: Address, path: string, line: nat, instruction: Instruction): State
    requires s.lastModule.Some?
  {
    var key := LineKeyOf(s, path, line);
    var entry := if a in s.addressLineMap then s.addressLineMap[a]
                 else Line(instruction, s.lastModule.value.baseOfImage, []);
    s.(lines := if key in s.lines then s.lines else s.lines[key := false],
       addressLineMap := s.addressLineMap[a := entry.(hasBeenExecuted := entry.hasBeenExecuted + [key])])
  }

  /** Raises exactly the given flags. */
  ghost function Raised(lines: map<LineKey, bool>, keys: seq<LineKey>): (r: map<LineKey, bool>)
    ensures r.Keys == lines.Keys
  {
    map k | k in lines :: lines[k] || k in keys
  }

  ghost function WithHit(s: State, a: Address): State
    requires a in s.addressLineMap
  {
    s.(lines := Raised(s.lines, s.addressLineMap[a].hasBeenExecuted))
  }

  ghost function WithConditionSite(s: State, a: Address, path: string, line: nat, index: nat,
                                   takenTarget: nat, fallThrough: nat): State
    requires s.lastModule.Some?
  {
    var file := FileKey(s.lastModule.value.name, path);
    var key := ConditionKey(file, line, index);
    s.(conditions := if key in s.conditions then s.conditions else s.conditions[key := FRESH_CONDITION],
       conditionSiteMap :=
         s.conditionSiteMap[a := ConditionRuntime(takenTarget, fallThrough, s.lastModule.value.baseOfImage, key)])
  }

  function Observed(c: ConditionState, taken: bool): ConditionState {
    ConditionState(c.takenSeen || taken, c.notTakenSeen || !taken, (c.observationCount + 1) % UINT32)
  }

  /** Every site points at a record that exists. */
  ghost predicate SitesHaveRecords(s: State) {
    forall a :: a in s.conditionSiteMap ==> s.conditionSiteMap[a].condition in s.conditions
  }

  /** Every flag pointer points at a flag that exists. */
  ghost predicate FlagsExist(s: State) {
    forall a, k :: a in s.addressLineMap && k in s.addressLineMap[a].hasBeenExecuted ==> k in s.lines
  }

  /** Every condition record belongs to a line that has a flag. */
  ghost predicate ConditionsHaveLines(s: State) {
    forall c :: c in s.conditions ==> LineKey(c.file, c.line) in s.lines
  }

  ghost predicate Valid(s: State) {
    SitesHaveRecords(s) && FlagsExist(s)
  }

  ghost function WithOutcome(s: State, a: Address, taken: bool): State
    requires SitesHaveRecords(s)
  {
    if a !in s.conditionSiteMap then s else
    var key := s.conditionSiteMap[a].condition;
    s.(conditions := s.conditions[key := Observed(s.conditions[key], taken)])
  }

  predicate WantsObservation(c: ConditionState) {
    (!c.takenSeen || !c.notTakenSeen) && c.observationCount < MAX_OBSERVATIONS
  }

  ghost predicate ShouldReplant(s: State, a: Address)
    requires SitesHaveRecords(s)
  {
    a in s.conditionSiteMap && WantsObservation(s.conditions[s.conditionSiteMap[a].condition])
  }

  /** Drops the address entries that belong to a process, or to one module of it. */
  ghost function Without(s: State, process: Handle, dllBase: Option<nat>): State {
    s.(addressLineMap := map a | a in s.addressLineMap &&
         !(a.process == process && (dllBase.Some? ==> s.addressLineMap[a].dllBaseOfImage == dllBase.value))
         :: s.addressLineMap[a],
       conditionSiteMap := map a | a in s.conditionSiteMap &&
         !(a.process == process && (dllBase.Some? ==> s.conditionSiteMap[a].dllBaseOfImage == dllBase.value))
         :: s.conditionSiteMap[a])
  }

  // ----- The class ---------------------------------------------------------------

  class ExecutedAddressManager {
    var modules: set<string>
    var lines: map<LineKey, bool>
    var conditions: map<ConditionKey, ConditionState>
    var addressLineMap: map<Address, Line>
    var conditionSiteMap: map<Address, ConditionRuntime>
    var lastModule: Option<LastModule>

    ghost function Abs(): State
      reads this
    {
      State(modules, lines, conditions, addressLineMap, conditionSiteMap, lastModule)
    }

    constructor ()
      ensures Abs() == EMPTY
    {
      modules, lines, conditions := {}, map[], map[];
      addressLineMap, conditionSiteMap, lastModule := map[], map[], None;
    }

    method AddModule(moduleName: string, dllBaseOfImage: nat)
      modifies this
      ensures Abs() == old(Abs()).(modules := old(modules) + {moduleName},
                                   lastModule := Some(LastModule(moduleName, dllBaseOfImage)))
    {
      modules := modules + {moduleName};
      lastModule := Some(LastModule(moduleName, dllBaseOfImage));
    }

    /** Returns whether the address was new; throws without a last module. */
    method RegisterAddress(address: Address, filename: string, lineNumber: nat, instructionValue: Instruction)
      returns (r: Result<bool>)
      modifies this
      ensures r == if old(lastModule).None? then Throw else Ok(address !in old(addressLineMap))
      ensures Abs() == if old(lastModule).None? then old(Abs())
                       else WithAddress(old(Abs()), address, filename, lineNumber, instructionValue)
    {
      if lastModule.None? {
        return Throw;
      }
      var file := FileKey(lastModule.value.name, filename);
      var keepBreakpoint := false;
      if address !in addressLineMap {
        addressLineMap := addressLineMap[address := Line(instructionValue, lastModule.value.baseOfImage, [])];
        keepBreakpoint := true;
      }
      var key := LineKey(file, lineNumber);
      if key !in lines {
        lines := lines[key := false];
      }
      var line := addressLineMap[address];
      addressLineMap := addressLineMap[address := line.(hasBeenExecuted := line.hasBeenExecuted + [key])];
      r := Ok(keepBreakpoint);
    }

    method MarkAddressAsExecuted(address: Address) returns (r: Option<Instruction>)
      requires FlagsExist(Abs())
      modifies this`lines
      ensures address !in addressLineMap ==> r == None && lines == old(lines)
      ensures address in addressLineMap ==>
        r == Some(addressLineMap[address].instructionToRestore) && Abs() == WithHit(old(Abs()), address)
    {
      if address !in addressLineMap {
        return None;
      }
      var line := addressLineMap[address];
      for n := 0 to |line.hasBeenExecuted|
        invariant lines == Raised(old(lines), line.hasBeenExecuted[..n])
      {
        lines := lines[line.hasBeenExecuted[n] := true];
      }
      assert line.hasBeenExecuted[..|line.hasBeenExecuted|] == line.hasBeenExecuted;
      r := Some(line.instructionToRestore);
    }

    method RegisterConditionSite(address: Address, filename: string, line: nat, conditionIndex: nat,
                                 takenTarget: nat, fallThrough: nat)
      returns (r: Result<()>)
      modifies this
      ensures r == if old(lastModule).None? then Throw else Ok(())
      ensures Abs() == if old(lastModule).None? then old(Abs())
        else WithConditionSite(old(Abs()), address, filename, line, conditionIndex, takenTarget, fallThrough)
    {
      if lastModule.None? {
        return Throw;
      }
      var file := FileKey(lastModule.value.name, filename);
      var key := ConditionKey(file, line, conditionIndex);
      if key !in conditions {
        conditions := conditions[key := FRESH_CONDITION];
      }
      if address !in conditionSiteMap {
        conditionSiteMap :=
          conditionSiteMap[address := ConditionRuntime(takenTarget, fallThrough, lastModule.value.baseOfImage, key)];
      } else {
        var site := conditionSiteMap[address];
        conditionSiteMap := conditionSiteMap[address := site.(takenTarget := takenTarget, fallThrough := fallThrough,
                                                             dllBaseOfImage := lastModule.value.baseOfImage,
                                                             condition := key)];
      }
      r := Ok(());
    }

    /** All-zero targets mean that the address carries no conditional branch. */
    method GetConditionSite(address: Address) returns (r: ConditionSiteInfo)
      ensures r == if address in conditionSiteMap
                   then ConditionSiteInfo(conditionSiteMap[address].takenTarget, conditionSiteMap[address].fallThrough)
                   else ConditionSiteInfo(0, 0)
    {
      if address !in conditionSiteMap {
        return ConditionSiteInfo(0, 0);
      }
      var site := conditionSiteMap[address];
      r := ConditionSiteInfo(site.takenTarget, site.fallThrough);
    }

    method MarkConditionOutcome(address: Address, taken: bool)
      requires SitesHaveRecords(Abs())
      modifies this`conditions
      ensures Abs() == WithOutcome(old(Abs()), address, taken)
    {
      if address !in conditionSiteMap {
        return;
      }
      var key := conditionSiteMap[address].condition;
      var condition := conditions[key];
      if taken {
        condition := condition.(takenSeen := true);
      } else {
        condition := condition.(notTakenSeen := true);
      }
      condition := condition.(observationCount := (condition.observationCount + 1) % UINT32);
      conditions := conditions[key := condition];
    }

    method ShouldReplantConditionSite(address: Address) returns (r: bool)
      requires SitesHaveRecords(Abs())
      ensures r <==> ShouldReplant(Abs(), address)
      ensures r <==>
        && address in conditionSiteMap
        && var c := conditions[conditionSiteMap[address].condition];
           (!c.takenSeen || !c.notTakenSeen) && c.observationCount < 100
    {
      if address !in conditionSiteMap {
        return false;
      }
      var condition := conditions[conditionSiteMap[address].condition];
      r := (!condition.takenSeen || !condition.notTakenSeen) && condition.observationCount < MAX_OBSERVATIONS;
    }

    /** The two erase loops of `OnExitProcess` (no base) and `OnUnloadModule` (with a base). */
    method RemoveEntries(process: Handle, dllBase: Option<nat>)
      modifies this`addressLineMap, this`conditionSiteMap
      ensures Abs() == Without(old(Abs()), process, dllBase)
    {
      var rest := addressLineMap.Keys;
      while rest != {}
        invariant rest <= old(addressLineMap).Keys && rest <= addressLineMap.Keys
        invariant conditionSiteMap == old(conditionSiteMap)
        invariant forall a :: a in addressLineMap <==>
          a in old(addressLineMap) && (a in rest || a in Without(old(Abs()), process, dllBase).addressLineMap)
        invariant forall a :: a in addressLineMap ==> addressLineMap[a] == old(addressLineMap)[a]
      {
        var it :| it in rest;
        rest := rest - {it};
        if it.process == process && (dllBase.Some? ==> addressLineMap[it].dllBaseOfImage == dllBase.value) {
          addressLineMap := addressLineMap - {it};
        }
      }
      assert addressLineMap == Without(old(Abs()), process, dllBase).addressLineMap;
      rest := conditionSiteMap.Keys;
      while rest != {}
        invariant rest <= old(conditionSiteMap).Keys && rest <= conditionSiteMap.Keys
        invariant addressLineMap == Without(old(Abs()), process, dllBase).addressLineMap
        invariant forall a :: a in conditionSiteMap <==>
          a in old(conditionSiteMap) && (a in rest || a in Without(old(Abs()), process, dllBase).conditionSiteMap)
        invariant forall a :: a in conditionSiteMap ==> conditionSiteMap[a] == old(conditionSiteMap)[a]
      {
        var it :| it in rest;
        rest := rest - {it};
        if it.process == process && (dllBase.Some? ==> conditionSiteMap[it].dllBaseOfImage == dllBase.value) {
          conditionSiteMap := conditionSiteMap - {it};
        }
      }
      assert conditionSiteMap == Without(old(Abs()), process, dllBase).conditionSiteMap;
    }
  }
}
