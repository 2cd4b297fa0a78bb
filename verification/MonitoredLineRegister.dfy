/**
 CppCoverage/MonitoredLineRegister.cpp: one batch of traps per source file,
 with the bookkeeping of lines and branch sites.
 */
module LineRegisters {
  import opened Common
  import opened Memory
  import opened Debuggees
  import opened BreakPoints
  import opened AddressManagers
  import opened SiteEnumerators

  type LinesByAddress = map<nat, seq<nat>>

  /** A line record of the debug information; `selected` is the answer of the coverage filters. */
  datatype SourceLine = SourceLine(lineNumber: nat, virtualAddress: nat, symbolIndex: nat, length: nat, selected: bool)

  // ----- Registration of a planted batch, on values --------------------------------

  datatype Registry = Registry(state: State, memory: Mem)

  /** Registers all lines of one planted address; a refused registration writes the saved bytes back. */
  ghost function RegisterLines(r: Registry, a: Address, path: string, instruction: Instruction, lines: seq<nat>)
    : (q: Registry)
    requires r.state.lastModule.Some? && Mapped(r.memory, a.value, |instruction|)
    ensures q.state.lastModule == r.state.lastModule && q.memory.Keys == r.memory.Keys
  {
    if lines == [] then r else
    var n := |lines| - 1;
    var q := RegisterLines(r, a, path, instruction, lines[..n]);
    Registry(WithAddress(q.state, a, path, lines[n], instruction),
             if a in q.state.addressLineMap then Write(q.memory, a.value, instruction) else q.memory)
  }

  ghost predicate SavedMapped(m: Mem, saved: seq<SavedInstruction>) {
    forall i :: 0 <= i < |saved| ==> Mapped(m, saved[i].1, |saved[i].0|)
  }

  /** The registration loop of `SetBreakPoint` over all saved instructions. */
  ghost function RegisterSaved(r: Registry, p: Handle, path: string, linesAt: LinesByAddress, saved: seq<SavedInstruction>)
    : (q: Registry)
    requires r.state.lastModule.Some? && SavedMapped(r.memory, saved)
    ensures q.state.lastModule == r.state.lastModule && q.memory.Keys == r.memory.Keys
  {
    if saved == [] then r else
    var n := |saved| - 1;
    var (instruction, a) := saved[n];
    var q := RegisterSaved(r, p, path, linesAt, saved[..n]);
    if a in linesAt then RegisterLines(q, Address(p, a), path, instruction, linesAt[a]) else q
  }

  ghost function RegisterSites(s: State, p: Handle, path: string, sites: seq<ConditionSite>): (q: State)
    requires s.lastModule.Some?
    ensures q.lastModule == s.lastModule
  {
    if sites == [] then s else
    var n := |sites| - 1;
    WithConditionSite(RegisterSites(s, p, path, sites[..n]), Address(p, sites[n].siteAddress), path,
                      sites[n].lineNumber, sites[n].conditionIndex, sites[n].takenTarget, sites[n].fallThrough)
  }

  // ----- What attaching the sites leaves ----------------------------------------------

  ghost function RecordOf(file: FileKey, site: ConditionSite): ConditionKey {
    ConditionKey(file, site.lineNumber, site.conditionIndex)
  }

  /** The site stands at its address with its own targets, module and condition record. */
  ghost predicate SiteAttached(s: State, p: Handle, file: FileKey, base: nat, site: ConditionSite) {
    var a := Address(p, site.siteAddress);
    && a in s.conditionSiteMap
    && s.conditionSiteMap[a].takenTarget == site.takenTarget && s.conditionSiteMap[a].fallThrough == site.fallThrough
    && s.conditionSiteMap[a].dllBaseOfImage == base
    && s.conditionSiteMap[a].condition == RecordOf(file, site) && RecordOf(file, site) in s.conditions
  }

  ghost predicate AllAttached(s: State, p: Handle, file: FileKey, base: nat, sites: seq<ConditionSite>) {
    forall site :: site in sites ==> SiteAttached(s, p, file, base, site)
  }

  ghost predicate HasRecord(file: FileKey, sites: seq<ConditionSite>, c: ConditionKey) {
    exists site :: site in sites && RecordOf(file, site) == c
  }

  /** Old records keep what they saw; exactly the records of the sites are new, and they have seen nothing. */
  ghost predicate RecordsAdded(s: State, s': State, file: FileKey, sites: seq<ConditionSite>) {
    && (forall c :: c in s'.conditions <==> c in s.conditions || HasRecord(file, sites, c))
    && (forall c :: c in s'.conditions ==>
          s'.conditions[c] == if c in s.conditions then s.conditions[c] else ConditionState(false, false, 0))
  }

  ghost predicate SiteAmong(p: Handle, sites: seq<ConditionSite>, a: Address) {
    a.process == p && exists site :: site in sites && site.siteAddress == a.value
  }

  lemma {:induction false} SitesAttach(s: State, p: Handle, path: string, sites: seq<ConditionSite>)
    requires s.lastModule.Some? && UniqueAddresses(sites)
    ensures var q := RegisterSites(s, p, path, sites);
      && AllAttached(q, p, FileOf(s, path), s.lastModule.value.baseOfImage, sites)
      && (forall a :: !SiteAmong(p, sites, a) ==> (a in q.conditionSiteMap <==> a in s.conditionSiteMap))
      && (forall a :: !SiteAmong(p, sites, a) && a in s.conditionSiteMap ==> q.conditionSiteMap[a] == s.conditionSiteMap[a])
  {
    if sites != [] {
      var n := |sites| - 1;
      var init, last := sites[..n], sites[n];
      SitesAttach(s, p, path, init);
      assert forall site :: site in sites <==> site in init || site == last;
      var t, q := RegisterSites(s, p, path, init), RegisterSites(s, p, path, sites);
      forall site | site in sites ensures SiteAttached(q, p, FileOf(s, path), s.lastModule.value.baseOfImage, site) {
        if site in init {
          assert SiteAttached(t, p, FileOf(s, path), s.lastModule.value.baseOfImage, site);
          var k :| 0 <= k < n && init[k] == site;
          assert sites[k].siteAddress != last.siteAddress;
        }
      }
    }
  }

  lemma {:induction false} SitesRecord(s: State, p: Handle, path: string, sites: seq<ConditionSite>)
    requires s.lastModule.Some?
    ensures RecordsAdded(s, RegisterSites(s, p, path, sites), FileOf(s, path), sites)
  {
    var file := FileOf(s, path);
    if sites != [] {
      var n := |sites| - 1;
      var init, last := sites[..n], sites[n];
      SitesRecord(s, p, path, init);
      forall c ensures HasRecord(file, sites, c) <==> HasRecord(file, init, c) || c == RecordOf(file, last) {
        assert forall site :: site in sites <==> site in init || site == last;
      }
    } else {
      assert forall c :: !HasRecord(file, sites, c);
    }
  }

  /** Distinct sites of an enumeration have distinct condition records. */
  lemma DistinctRecords(file: FileKey, sites: seq<ConditionSite>, i: nat, j: nat)
    requires NumberedInOrder(sites) && i < j < |sites|
    ensures RecordOf(file, sites[i]) != RecordOf(file, sites[j])
  {
    if sites[i].lineNumber == sites[j].lineNumber {
      DistinctIndices(sites, i, j);
    }
  }

  // ----- What the registration leaves -----------------------------------------------

  ghost function KeysOf(file: FileKey, lines: seq<nat>): (keys: seq<LineKey>)
    ensures |keys| == |lines|
  {
    seq(|lines|, i requires 0 <= i < |lines| => LineKey(file, lines[i]))
  }

  ghost function FileOf(s: State, path: string): FileKey
    requires s.lastModule.Some?
  {
    FileKey(s.lastModule.value.name, path)
  }

  lemma WriteTwice(m: Mem, a: nat, bytes: seq<Byte>)
    requires Mapped(m, a, |bytes|)
    ensures Write(Write(m, a, bytes), a, bytes) == Write(m, a, bytes)
  {
  }

  ghost function EntryAfter(s: State, a: Address, path: string, instruction: Instruction, lines: seq<nat>): Line
    requires s.lastModule.Some?
  {
    var entry := if a in s.addressLineMap then s.addressLineMap[a]
                 else Line(instruction, s.lastModule.value.baseOfImage, []);
    entry.(hasBeenExecuted := entry.hasBeenExecuted + KeysOf(FileOf(s, path), lines))
  }

  lemma WithAddressEntry(s: State, a: Address, path: string, line: nat, instruction: Instruction, init: seq<nat>)
    requires s.lastModule.Some?
    ensures KeysOf(FileOf(s, path), init + [line]) == KeysOf(FileOf(s, path), init) + [LineKey(FileOf(s, path), line)]
    ensures WithAddress(s, a, path, line, instruction).addressLineMap ==
            s.addressLineMap[a := EntryAfter(s, a, path, instruction, [line])]
  {
    var file := FileOf(s, path);
    assert KeysOf(file, [line]) == [LineKey(file, line)];
  }

  lemma {:induction false} RegisterLinesEntry(r: Registry, a: Address, path: string, instruction: Instruction, lines: seq<nat>)
    requires r.state.lastModule.Some? && Mapped(r.memory, a.value, |instruction|)
    ensures RegisterLines(r, a, path, instruction, lines).state.addressLineMap ==
      if lines == [] then r.state.addressLineMap
      else r.state.addressLineMap[a := EntryAfter(r.state, a, path, instruction, lines)]
  {
    if lines != [] {
      var n := |lines| - 1;
      var q := RegisterLines(r, a, path, instruction, lines[..n]);
      RegisterLinesEntry(r, a, path, instruction, lines[..n]);
      WithAddressEntry(q.state, a, path, lines[n], instruction, lines[..n]);
      assert lines == lines[..n] + [lines[n]];
      if n == 0 {
        assert lines == [lines[n]];
      } else {
        var file := FileOf(r.state, path);
        assert KeysOf(file, [lines[n]]) == [LineKey(file, lines[n])];
        var before := if a in r.state.addressLineMap then r.state.addressLineMap[a].hasBeenExecuted else [];
        assert (before + KeysOf(file, lines[..n])) + [LineKey(file, lines[n])] == before + KeysOf(file, lines);
      }
    }
  }

  lemma {:induction false} RegisterLinesMemory(r: Registry, a: Address, path: string, instruction: Instruction, lines: seq<nat>)
    requires r.state.lastModule.Some? && Mapped(r.memory, a.value, |instruction|)
    ensures RegisterLines(r, a, path, instruction, lines).memory ==
      if lines != [] && (a in r.state.addressLineMap || |lines| >= 2) then Write(r.memory, a.value, instruction)
      else r.memory
  {
    if lines != [] {
      var n := |lines| - 1;
      RegisterLinesEntry(r, a, path, instruction, lines[..n]);
      RegisterLinesMemory(r, a, path, instruction, lines[..n]);
      WriteTwice(r.memory, a.value, instruction);
    }
  }

  lemma {:induction false} RegisterLinesFlags(r: Registry, a: Address, path: string, instruction: Instruction, lines: seq<nat>)
    requires r.state.lastModule.Some? && Mapped(r.memory, a.value, |instruction|)
    ensures var q := RegisterLines(r, a, path, instruction, lines);
      && (forall k :: k in q.state.lines <==> k in r.state.lines || (k.file == FileOf(r.state, path) && k.line in lines))
      && (forall k :: k in q.state.lines ==> q.state.lines[k] == (k in r.state.lines && r.state.lines[k]))
      && q.state.conditions == r.state.conditions && q.state.conditionSiteMap == r.state.conditionSiteMap
      && q.state.modules == r.state.modules
  {
    if lines != [] {
      var n := |lines| - 1;
      RegisterLinesFlags(r, a, path, instruction, lines[..n]);
      assert lines == lines[..n] + [lines[n]];
      assert forall l :: l in lines <==> l in lines[..n] || l == lines[n];
      WithAddressFlags(RegisterLines(r, a, path, instruction, lines[..n]).state, a, path, lines[n], instruction);
      hide WithAddress;
    }
  }

  lemma WithAddressFlags(s: State, a: Address, path: string, line: nat, instruction: Instruction)
    requires s.lastModule.Some?
    ensures var s' := WithAddress(s, a, path, line, instruction);
      && (forall k :: k in s'.lines <==> k in s.lines || (k.file == FileOf(s, path) && k.line == line))
      && (forall k :: k in s'.lines ==> s'.lines[k] == (k in s.lines && s.lines[k]))
      && s'.conditions == s.conditions && s'.conditionSiteMap == s.conditionSiteMap && s'.modules == s.modules
  {
  }

  /** The addresses of saved instructions, in planting order. */
  ghost function Places(saved: seq<SavedInstruction>): (places: seq<nat>)
    ensures |places| == |saved|
  {
    seq(|saved|, i requires 0 <= i < |saved| => saved[i].1)
  }

  ghost predicate IsNewKey(file: FileKey, linesAt: LinesByAddress, places: seq<nat>, k: LineKey) {
    k.file == file && exists a :: a in places && a in linesAt && k.line in linesAt[a]
  }

  /** Exactly the lines of the given places have a flag now; flags keep their value and start false. */
  ghost predicate FlagsAdded(s: State, s': State, file: FileKey, linesAt: LinesByAddress, places: seq<nat>) {
    && (forall k :: k in s'.lines <==> k in s.lines || IsNewKey(file, linesAt, places, k))
    && (forall k :: k in s'.lines ==> s'.lines[k] == (k in s.lines && s.lines[k]))
  }

  lemma {:induction false} RegisterSavedFlags(r: Registry, p: Handle, path: string, linesAt: LinesByAddress,
                                              saved: seq<SavedInstruction>)
    requires r.state.lastModule.Some? && SavedMapped(r.memory, saved)
    ensures var q := RegisterSaved(r, p, path, linesAt, saved);
      && FlagsAdded(r.state, q.state, FileOf(r.state, path), linesAt, Places(saved))
      && q.state.conditions == r.state.conditions && q.state.conditionSiteMap == r.state.conditionSiteMap
      && q.state.modules == r.state.modules
  {
    if saved != [] {
      var n := |saved| - 1;
      var (instruction, a) := saved[n];
      RegisterSavedFlags(r, p, path, linesAt, saved[..n]);
      var q := RegisterSaved(r, p, path, linesAt, saved[..n]);
      assert Places(saved) == Places(saved[..n]) + [a];
      assert forall x :: x in Places(saved) <==> x in Places(saved[..n]) || x == a;
      if a in linesAt {
        RegisterLinesFlags(q, Address(p, a), path, instruction, linesAt[a]);
      }
    }
  }

  /** The entry of a place: an old entry keeps its instruction and base; the lines of the place are among its flags. */
  ghost predicate EntryKept(s: State, s': State, a: Address, file: FileKey, lines: seq<nat>)
    requires a in s'.addressLineMap
  {
    && (a in s.addressLineMap ==>
          && s'.addressLineMap[a].instructionToRestore == s.addressLineMap[a].instructionToRestore
          && s'.addressLineMap[a].dllBaseOfImage == s.addressLineMap[a].dllBaseOfImage)
    && (forall k :: k in s'.addressLineMap[a].hasBeenExecuted <==>
          (a in s.addressLineMap && k in s.addressLineMap[a].hasBeenExecuted) || (k.file == file && k.line in lines))
  }

  lemma EntryAfterKept(s: State, s': State, a: Address, path: string, instruction: Instruction, lines: seq<nat>)
    requires s.lastModule.Some? && a in s'.addressLineMap
    requires s'.addressLineMap[a] == EntryAfter(s, a, path, instruction, lines)
    ensures EntryKept(s, s', a, FileOf(s, path), lines)
  {
    var keys := KeysOf(FileOf(s, path), lines);
    forall k ensures k in keys <==> k.file == FileOf(s, path) && k.line in lines {
      if k.file == FileOf(s, path) && k.line in lines {
        var i :| 0 <= i < |lines| && lines[i] == k.line;
        assert keys[i] == k;
      }
    }
  }

  /** The saved instruction at position i: the original, or the trap when the place is repeated. */
  ghost predicate SavedFrom(trap: Instruction, m: Mem, saved: seq<SavedInstruction>, i: nat)
    requires i < |saved|
  {
    var a := saved[i].1;
    && Mapped(m, a, |trap|)
    && saved[i].0 == if a in Places(saved)[..i] then trap else Read(m, a, |trap|)
  }

  ghost predicate AllSavedFrom(trap: Instruction, m: Mem, saved: seq<SavedInstruction>) {
    forall i :: 0 <= i < |saved| ==> SavedFrom(trap, m, saved, i)
  }

  /** What an induction over the saves needs to know of the last one, with a place in view. */
  lemma SavedPrefix(trap: Instruction, m: Mem, saved: seq<SavedInstruction>, a: nat)
    requires saved != [] && AllSavedFrom(trap, m, saved) && Clear(a, Places(saved), |trap|)
    ensures var init := saved[..|saved| - 1];
      var (instruction, b) := saved[|saved| - 1];
      && AllSavedFrom(trap, m, init) && Clear(a, Places(init), |trap|)
      && multiset(Places(saved))[a] == multiset(Places(init))[a] + (if b == a then 1 else 0)
      && Mapped(m, b, |trap|) && |instruction| == |trap|
      && instruction == (if multiset(Places(init))[b] > 0 then trap else Read(m, b, |trap|))
      && (b == a || a + |trap| <= b || b + |trap| <= a)
  {
    var n := |saved| - 1;
    var init := saved[..n];
    assert Places(saved) == Places(init) + [saved[n].1];
    assert SavedFrom(trap, m, saved, n);
    assert Places(saved)[n] == saved[n].1;
    forall i | 0 <= i < n ensures SavedFrom(trap, m, init, i) && Places(init)[i] == Places(saved)[i] {
      assert SavedFrom(trap, m, saved, i);
      assert Places(init)[..i] == Places(saved)[..i];
    }
  }

  /** How place a stands after c of its batch entries have been registered. */
  ghost predicate PlaceAfter(trap: Instruction, p: Handle, file: FileKey, lines: seq<nat>, a: nat, c: nat,
                             s: State, m: Mem, s': State, m': Mem)
    requires s.lastModule.Some? && Mapped(m, a, |trap|)
  {
    var address := Address(p, a);
    && Mapped(m', a, |trap|)
    && (address in s'.addressLineMap <==> address in s.addressLineMap || c > 0)
    && (c == 0 && address in s.addressLineMap ==> s'.addressLineMap[address] == s.addressLineMap[address])
    && (c > 0 ==> EntryKept(s, s', address, file, lines))
    && (c > 0 && address !in s.addressLineMap ==>
          && s'.addressLineMap[address].instructionToRestore == Read(m, a, |trap|)
          && s'.addressLineMap[address].dllBaseOfImage == s.lastModule.value.baseOfImage)
    && Read(m', a, |trap|) ==
         if c == 1 && (address in s.addressLineMap || |lines| >= 2) then Read(m, a, |trap|) else trap
  }

  lemma RegisterSavedOther(r: Registry, p: Handle, path: string, linesAt: LinesByAddress, saved: seq<SavedInstruction>,
                           a: Address)
    requires r.state.lastModule.Some? && SavedMapped(r.memory, saved)
    requires a.process != p || a.value !in linesAt
    ensures SameEntry(r.state, RegisterSaved(r, p, path, linesAt, saved).state, a)
  {
    if saved != [] {
      var n := |saved| - 1;
      var (instruction, b) := saved[n];
      RegisterSavedOther(r, p, path, linesAt, saved[..n], a);
      var q := RegisterSaved(r, p, path, linesAt, saved[..n]);
      if b in linesAt {
        RegisterLinesEntry(q, Address(p, b), path, instruction, linesAt[b]);
        RegisterLinesMemory(q, Address(p, b), path, instruction, linesAt[b]);
      }
    }
  }

  lemma {:induction false} RegisterSavedOutside(r: Registry, p: Handle, path: string, linesAt: LinesByAddress,
                                                saved: seq<SavedInstruction>, x: nat)
    requires r.state.lastModule.Some? && SavedMapped(r.memory, saved) && x in r.memory
    requires forall i :: 0 <= i < |saved| ==> x < saved[i].1 || saved[i].1 + |saved[i].0| <= x
    ensures RegisterSaved(r, p, path, linesAt, saved).memory[x] == r.memory[x]
  {
    if saved != [] {
      var n := |saved| - 1;
      var (instruction, b) := saved[n];
      RegisterSavedOutside(r, p, path, linesAt, saved[..n], x);
      var q := RegisterSaved(r, p, path, linesAt, saved[..n]);
      if b in linesAt {
        RegisterLinesEntry(q, Address(p, b), path, instruction, linesAt[b]);
        RegisterLinesMemory(q, Address(p, b), path, instruction, linesAt[b]);
      }
    }
  }

  lemma PlaceUntouched(trap: Instruction, r: Registry, m: Mem, p: Handle, file: FileKey, lines: seq<nat>, a: nat)
    requires r.state.lastModule.Some? && m.Keys == r.memory.Keys
    requires Mapped(m, a, |trap|) && Read(r.memory, a, |trap|) == trap
    ensures PlaceAfter(trap, p, file, lines, a, 0, r.state, m, r.state, r.memory)
  {
  }

  /** Follows one place through the registration of a planted batch. */
  lemma {:induction false} RegisterSavedAt(trap: Instruction, r: Registry, m: Mem, p: Handle, path: string,
                                           linesAt: LinesByAddress, saved: seq<SavedInstruction>, a: nat)
    requires r.state.lastModule.Some? && SavedMapped(r.memory, saved) && m.Keys == r.memory.Keys
    requires AllSavedFrom(trap, m, saved)
    requires Mapped(m, a, |trap|) && Read(r.memory, a, |trap|) == trap
    requires Clear(a, Places(saved), |trap|)
    requires a in linesAt && linesAt[a] != []
    ensures var q := RegisterSaved(r, p, path, linesAt, saved);
      PlaceAfter(trap, p, FileOf(r.state, path), linesAt[a], a, multiset(Places(saved))[a], r.state, m, q.state, q.memory)
  {
    hide PlaceAfter, AllSavedFrom, Clear;
    if saved == [] {
      PlaceUntouched(trap, r, m, p, FileOf(r.state, path), linesAt[a], a);
    } else {
      var init := saved[..|saved| - 1];
      var (instruction, b) := saved[|saved| - 1];
      SavedPrefix(trap, m, saved, a);
      RegisterSavedAt(trap, r, m, p, path, linesAt, init, a);
      var q := RegisterSaved(r, p, path, linesAt, init);
      var c := multiset(Places(init))[a];
      if b == a {
        RegisterPlace(trap, r.state, m, q, p, path, linesAt[a], a, c, instruction);
      } else if b in linesAt {
        RegisterElsewhere(trap, r.state, m, q, p, path, linesAt, b, instruction, a, c);
      }
    }
  }

  lemma RegisterElsewhere(trap: Instruction, s: State, m: Mem, q: Registry, p: Handle, path: string,
                          linesAt: LinesByAddress, b: nat, instruction: Instruction, a: nat, c: nat)
    requires s.lastModule.Some? && q.state.lastModule == s.lastModule
    requires Mapped(m, a, |trap|) && Mapped(q.memory, b, |trap|) && |instruction| == |trap|
    requires a in linesAt && b in linesAt && (a + |trap| <= b || b + |trap| <= a) && a != b
    requires PlaceAfter(trap, p, FileOf(s, path), linesAt[a], a, c, s, m, q.state, q.memory)
    ensures var t := RegisterLines(q, Address(p, b), path, instruction, linesAt[b]);
      PlaceAfter(trap, p, FileOf(s, path), linesAt[a], a, c, s, m, t.state, t.memory)
  {
    RegisterLinesEntry(q, Address(p, b), path, instruction, linesAt[b]);
    RegisterLinesMemory(q, Address(p, b), path, instruction, linesAt[b]);
    ReadWriteApart(q.memory, b, instruction, a, |trap|);
  }

  /** The step of `RegisterSavedAt` at the place itself. */
  lemma RegisterPlace(trap: Instruction, s: State, m: Mem, q: Registry, p: Handle, path: string, lines: seq<nat>,
                      a: nat, c: nat, instruction: Instruction)
    requires s.lastModule.Some? && q.state.lastModule == s.lastModule && lines != []
    requires Mapped(m, a, |trap|)
    requires PlaceAfter(trap, p, FileOf(s, path), lines, a, c, s, m, q.state, q.memory)
    requires instruction == if c > 0 then trap else Read(m, a, |trap|)
    ensures var t := RegisterLines(q, Address(p, a), path, instruction, lines);
      PlaceAfter(trap, p, FileOf(s, path), lines, a, c + 1, s, m, t.state, t.memory)
  {
    var address := Address(p, a);
    var t := RegisterLines(q, address, path, instruction, lines);
    RegisterLinesEntry(q, address, path, instruction, lines);
    RegisterLinesMemory(q, address, path, instruction, lines);
    EntryAfterKept(q.state, t.state, address, path, instruction, lines);
    ReadWriteSame(q.memory, a, instruction);
    assert EntryKept(q.state, t.state, address, FileOf(s, path), lines);
  }

  // ----- The whole batch ---------------------------------------------------------------

  /** The batch has one entry per line of an address. */
  ghost predicate BatchMatches(addresses: seq<nat>, linesAt: LinesByAddress) {
    && (forall a :: a in addresses <==> a in linesAt)
    && (forall a :: a in linesAt ==> linesAt[a] != [] && multiset(addresses)[a] == |linesAt[a]|)
  }

  /**
   What registering the batch of one file does.  Every address of the batch is
   known afterwards and, if it was new, its entry saves its original instruction
   and it holds the trap.  An address known before keeps its saved instruction.
   Nothing else changes.
   */
  ghost predicate BatchRegistered(trap: Instruction, p: Handle, file: FileKey, addresses: seq<nat>, linesAt: LinesByAddress,
                                  s: State, m: Mem, s': State, m': Mem)
    requires s.lastModule.Some?
  {
    && BytesKept(|trap|, addresses, m, m')
    && (forall a :: a in linesAt ==> PlaceRegistered(trap, p, file, linesAt, a, s, m, s', m'))
    && OthersKept(p, linesAt, s, s')
    && FlagsAdded(s, s', file, linesAt, addresses)
    && s'.conditions == s.conditions && s'.conditionSiteMap == s.conditionSiteMap
    && s'.modules == s.modules && s'.lastModule == s.lastModule
  }

  ghost predicate BytesKept(w: nat, addresses: seq<nat>, m: Mem, m': Mem) {
    m'.Keys == m.Keys && forall x :: x in m && Outside(x, addresses, w) ==> m'[x] == m[x]
  }

  ghost predicate OthersKept(p: Handle, linesAt: LinesByAddress, s: State, s': State) {
    forall a: Address :: a.process != p || a.value !in linesAt ==> SameEntry(s, s', a)
  }

  ghost predicate SameEntry(s: State, s': State, a: Address) {
    && (a in s'.addressLineMap <==> a in s.addressLineMap)
    && (a in s.addressLineMap ==> s'.addressLineMap[a] == s.addressLineMap[a])
  }

  ghost predicate PlaceRegistered(trap: Instruction, p: Handle, file: FileKey, linesAt: LinesByAddress, a: nat,
                                  s: State, m: Mem, s': State, m': Mem)
    requires s.lastModule.Some? && a in linesAt
  {
    Mapped(m, a, |trap|) && PlaceAfter(trap, p, file, linesAt[a], a, |linesAt[a]|, s, m, s', m')
  }

  lemma SortMembers(addresses: seq<nat>)
    ensures forall a :: a in addresses <==> a in Sort(addresses)
  {
    forall a ensures a in addresses <==> a in Sort(addresses) {
      assert a in addresses <==> a in multiset(addresses);
      assert a in Sort(addresses) <==> a in multiset(Sort(addresses));
    }
  }

  /** What the batch saves at one of its sorted addresses. */
  lemma BatchSavesAt(trap: Instruction, m: Mem, addresses: seq<nat>, m': Mem, saved: seq<SavedInstruction>, i: nat)
    requires Batched(trap, m, addresses, m', Ok(saved)) && Apart(|trap|, addresses) && i < |Sort(addresses)|
    ensures var sorted := Sort(addresses);
      && |saved| == |sorted|
      && Mapped(m, sorted[i], |trap|)
      && saved[i] == (if sorted[i] in sorted[..i] then trap else Read(m, sorted[i], |trap|), sorted[i])
  {
    hide Batched, Apart;
    var sorted := Sort(addresses);
    BatchedIsPointwise(trap, m, addresses, m', saved);
    SortMembers(addresses);
    ClearSorted(addresses, sorted, sorted[i], |trap|);
    PlantMeaning(trap, m, sorted, i);
  }

  /** The saves of a completed batch, as the registration loop needs them. */
  lemma BatchSaves(trap: Instruction, m: Mem, addresses: seq<nat>, m': Mem, saved: seq<SavedInstruction>)
    requires Batched(trap, m, addresses, m', Ok(saved)) && Apart(|trap|, addresses)
    ensures m'.Keys == m.Keys && Places(saved) == Sort(addresses)
    ensures AllSavedFrom(trap, m, saved) && SavedMapped(m', saved)
  {
    hide Batched, Apart;
    var sorted := Sort(addresses);
    BatchedIsPointwise(trap, m, addresses, m', saved);
    assert |saved| == |sorted|;
    forall i | 0 <= i < |sorted|
      ensures saved[i].1 == sorted[i]
    {
      BatchSavesAt(trap, m, addresses, m', saved, i);
    }
    assert Places(saved) == sorted;
    forall i | 0 <= i < |saved|
      ensures SavedFrom(trap, m, saved, i) && Mapped(m', saved[i].1, |saved[i].0|)
    {
      BatchSavesAt(trap, m, addresses, m', saved, i);
    }
  }

  lemma BatchPlace(trap: Instruction, m: Mem, addresses: seq<nat>, m': Mem, saved: seq<SavedInstruction>, a: nat)
    requires Batched(trap, m, addresses, m', Ok(saved)) && Apart(|trap|, addresses) && a in addresses
    ensures Clear(a, Sort(addresses), |trap|)
    ensures Mapped(m, a, |trap|) && Mapped(m', a, |trap|) && Read(m', a, |trap|) == trap
  {
    var sorted := Sort(addresses);
    BatchedIsPointwise(trap, m, addresses, m', saved);
    SortMembers(addresses);
    ClearSorted(addresses, sorted, a, |trap|);
    PlantedReadsTrap(trap, m, sorted, a);
  }

  lemma BatchElsewhere(trap: Instruction, m: Mem, addresses: seq<nat>, m': Mem, saved: seq<SavedInstruction>, x: nat)
    requires Batched(trap, m, addresses, m', Ok(saved))
    requires x in m && Outside(x, addresses, |trap|)
    ensures x in m' && m'[x] == m[x]
  {
    var sorted := Sort(addresses);
    BatchedIsPointwise(trap, m, addresses, m', saved);
    SortMembers(addresses);
    forall i | 0 <= i < |sorted| ensures x < sorted[i] || sorted[i] + |trap| <= x {
      assert sorted[i] in addresses;
    }
    PlantUntouched(trap, m, sorted, x);
  }

  lemma ClearSorted(addresses: seq<nat>, sorted: seq<nat>, a: nat, w: nat)
    requires Apart(w, addresses) && a in addresses && forall b :: b in sorted ==> b in addresses
    ensures Clear(a, sorted, w)
  {
    var i :| 0 <= i < |addresses| && addresses[i] == a;
    assert Clear(addresses[i], addresses, w);
    forall j | 0 <= j < |sorted| ensures sorted[j] == a || a + w <= sorted[j] || sorted[j] + w <= a {
      assert sorted[j] in addresses;
    }
  }

  lemma FlagsAddedPermuted(s: State, s': State, file: FileKey, linesAt: LinesByAddress, xs: seq<nat>, ys: seq<nat>)
    requires FlagsAdded(s, s', file, linesAt, xs) && multiset(xs) == multiset(ys)
    ensures FlagsAdded(s, s', file, linesAt, ys)
  {
    forall a ensures a in xs <==> a in ys {
      assert a in xs <==> a in multiset(xs);
      assert a in ys <==> a in multiset(ys);
    }
    assert forall k :: IsNewKey(file, linesAt, xs, k) <==> IsNewKey(file, linesAt, ys, k);
  }

  /** Planting a batch and registering its saves achieves `BatchRegistered`. */
  lemma BatchRegistration(trap: Instruction, s: State, m: Mem, p: Handle, path: string, addresses: seq<nat>,
                          linesAt: LinesByAddress, planted: Mem, saved: seq<SavedInstruction>)
    requires s.lastModule.Some? && BatchMatches(addresses, linesAt) && Apart(|trap|, addresses)
    requires Batched(trap, m, addresses, planted, Ok(saved))
    ensures SavedMapped(planted, saved)
    ensures var q := RegisterSaved(Registry(s, planted), p, path, linesAt, saved);
      BatchRegistered(trap, p, FileOf(s, path), addresses, linesAt, s, m, q.state, q.memory)
  {
    hide Batched, AllSavedFrom, Apart, PlaceRegistered, FlagsAdded, RegisterSaved, SameEntry, BytesKept;
    BatchSaves(trap, m, addresses, planted, saved);
    var r := Registry(s, planted);
    var q := RegisterSaved(r, p, path, linesAt, saved);
    forall a | a in linesAt ensures PlaceRegistered(trap, p, FileOf(s, path), linesAt, a, s, m, q.state, q.memory) {
      BatchPlaceRegistered(trap, s, m, p, path, addresses, linesAt, planted, saved, a);
    }
    forall a: Address | a.process != p || a.value !in linesAt ensures SameEntry(s, q.state, a) {
      RegisterSavedOther(r, p, path, linesAt, saved, a);
    }
    RegisterSavedFlags(r, p, path, linesAt, saved);
    FlagsAddedPermuted(s, q.state, FileOf(s, path), linesAt, Places(saved), addresses);
    BatchOutside(trap, s, m, p, path, addresses, linesAt, planted, saved);
  }

  lemma BatchPlaceRegistered(trap: Instruction, s: State, m: Mem, p: Handle, path: string, addresses: seq<nat>,
                             linesAt: LinesByAddress, planted: Mem, saved: seq<SavedInstruction>, a: nat)
    requires s.lastModule.Some? && BatchMatches(addresses, linesAt) && Apart(|trap|, addresses)
    requires Batched(trap, m, addresses, planted, Ok(saved)) && SavedMapped(planted, saved) && a in linesAt
    ensures var q := RegisterSaved(Registry(s, planted), p, path, linesAt, saved);
      PlaceRegistered(trap, p, FileOf(s, path), linesAt, a, s, m, q.state, q.memory)
  {
    hide Batched, AllSavedFrom, Apart, Clear, PlaceAfter;
    BatchSaves(trap, m, addresses, planted, saved);
    BatchPlace(trap, m, addresses, planted, saved, a);
    RegisterSavedAt(trap, Registry(s, planted), m, p, path, linesAt, saved, a);
  }

  lemma BatchOutside(trap: Instruction, s: State, m: Mem, p: Handle, path: string, addresses: seq<nat>,
                     linesAt: LinesByAddress, planted: Mem, saved: seq<SavedInstruction>)
    requires s.lastModule.Some? && Apart(|trap|, addresses)
    requires Batched(trap, m, addresses, planted, Ok(saved)) && SavedMapped(planted, saved)
    ensures BytesKept(|trap|, addresses, m, RegisterSaved(Registry(s, planted), p, path, linesAt, saved).memory)
  {
    hide Batched, Apart;
    BatchSaves(trap, m, addresses, planted, saved);
    SortMembers(addresses);
    forall x | x in m && Outside(x, addresses, |trap|)
      ensures RegisterSaved(Registry(s, planted), p, path, linesAt, saved).memory[x] == m[x]
    {
      BatchElsewhere(trap, m, addresses, planted, saved, x);
      forall i | 0 <= i < |saved| ensures x < saved[i].1 || saved[i].1 + |saved[i].0| <= x {
        assert SavedFrom(trap, m, saved, i);
        assert Places(saved)[i] in Sort(addresses) && saved[i].1 in addresses;
      }
      RegisterSavedOutside(Registry(s, planted), p, path, linesAt, saved, x);
    }
  }

  // ----- Building the batch of a source file ----------------------------------------------

  /** The traps of one source file: the addresses to plant, the lines of each, and the branch sites. */
  datatype FileBatch = FileBatch(addresses: seq<nat>, linesAt: LinesByAddress, sites: seq<ConditionSite>)

  function AddressOf(base: nat, line: SourceLine): nat {
    (line.virtualAddress + base) % UINT64
  }

  /** A selected line l starts at address a. */
  ghost predicate IsLineStart(base: nat, lines: seq<SourceLine>, a: nat, l: nat) {
    exists s :: s in lines && s.selected && s.lineNumber == l && StartsAt(base, s, a)
  }

  /** The line starts at its virtual address past the base, as 64-bit addresses go. */
  ghost predicate StartsAt(base: nat, line: SourceLine, a: nat) {
    a == (base + line.virtualAddress) % 0x1_0000_0000_0000_0000
  }

  ghost predicate HasLineStart(base: nat, lines: seq<SourceLine>, a: nat) {
    exists l :: IsLineStart(base, lines, a, l)
  }

  ghost predicate Listed(linesAt: LinesByAddress, a: nat, l: nat) {
    a in linesAt && l in linesAt[a]
  }

  ghost predicate SiteAt(sites: seq<ConditionSite>, a: nat, l: nat) {
    exists s :: s in sites && s.siteAddress == a && s.lineNumber == l
  }

  /** One entry per selected line start, and one per site that is not a line start. */
  ghost predicate BatchOf(base: nat, lines: seq<SourceLine>, sites: seq<ConditionSite>, addresses: seq<nat>,
                          linesAt: LinesByAddress)
  {
    && BatchMatches(addresses, linesAt)
    && forall a, l :: Listed(linesAt, a, l) <==>
         IsLineStart(base, lines, a, l) || (!HasLineStart(base, lines, a) && SiteAt(sites, a, l))
  }

  /** Sites have distinct addresses, are numbered line by line and belong to selected lines. */
  ghost predicate SitesOfLines(base: nat, lines: seq<SourceLine>, sites: seq<ConditionSite>) {
    && UniqueAddresses(sites) && NumberedInOrder(sites)
    && forall s :: s in sites ==> exists a :: IsLineStart(base, lines, a, s.lineNumber)
  }

  /** The selected lines, in order. */
  function Chosen(lines: seq<SourceLine>): seq<SourceLine> {
    if lines == [] then [] else
    Chosen(lines[..|lines| - 1]) + if lines[|lines| - 1].selected then [lines[|lines| - 1]] else []
  }

  function NumbersOf(lines: seq<SourceLine>): (r: seq<nat>)
    ensures |r| == |lines|
  {
    seq(|lines|, i requires 0 <= i < |lines| => lines[i].lineNumber)
  }

  function AddressesOf(base: nat, lines: seq<SourceLine>): (r: seq<nat>)
    ensures |r| == |lines|
  {
    seq(|lines|, i requires 0 <= i < |lines| => AddressOf(base, lines[i]))
  }

  function SymbolsOf(lines: seq<SourceLine>): (r: seq<nat>)
    ensures |r| == |lines|
  {
    seq(|lines|, i requires 0 <= i < |lines| => lines[i].symbolIndex)
  }

  function LengthsOf(lines: seq<SourceLine>): (r: seq<nat>)
    ensures |r| == |lines|
  {
    seq(|lines|, i requires 0 <= i < |lines| => lines[i].length)
  }

  lemma {:induction false} ChosenAreSelected(lines: seq<SourceLine>)
    ensures forall s :: s in Chosen(lines) <==> s in lines && s.selected
  {
    if lines != [] {
      var n := |lines| - 1;
      ChosenAreSelected(lines[..n]);
      assert lines == lines[..n] + [lines[n]];
    }
  }

  /** A record of the enumeration stands for a selected line that starts at its RVA. */
  ghost predicate RecordOfLine(base: nat, lines: seq<SourceLine>, e: LineRecord) {
    exists line :: line in lines && line.selected && line.symbolIndex == e.symbolIndex && line.length == e.length &&
      StartsAt(base, line, (base + e.rva) % 0x1_0000_0000_0000_0000)
  }

  lemma RecordStandsForLine(base: nat, lines: seq<SourceLine>, n: nat)
    requires n < |Chosen(lines)|
    ensures var c := Chosen(lines);
      var r := Records(base, NumbersOf(c), AddressesOf(base, c), SymbolsOf(c), LengthsOf(c))[n];
      && c[n] in lines && c[n].selected && c[n].symbolIndex == r.symbolIndex && c[n].length == r.length
      && StartsAt(base, c[n], (base + r.rva) % 0x1_0000_0000_0000_0000)
  {
    var c := Chosen(lines);
    ChosenAreSelected(lines);
    assert c[n] in c;
    BackToAddress(base, AddressesOf(base, c)[n]);
  }

  /** The records that bound the blocks carry the symbols and the lengths of the selected lines, and no line is without a record. */
  lemma RecordsAreLines(base: nat, lines: seq<SourceLine>, d: seq<LineRecord>)
    requires var c := Chosen(lines);
      Deduplicated(Records(base, NumbersOf(c), AddressesOf(base, c), SymbolsOf(c), LengthsOf(c)), d)
    ensures forall k :: 0 <= k < |d| ==> RecordOfLine(base, lines, d[k])
    ensures forall line :: line in lines && line.selected ==>
      exists k :: 0 <= k < |d| && StartsAt(base, line, (base + d[k].rva) % 0x1_0000_0000_0000_0000)
  {
    hide StartsAt, Records, Chosen, LowestLine, StrictByRva, NumbersOf, AddressesOf, SymbolsOf, LengthsOf;
    var c := Chosen(lines);
    var records := Records(base, NumbersOf(c), AddressesOf(base, c), SymbolsOf(c), LengthsOf(c));
    assert |records| == |c| by { RecordCount(base, c); }
    ChosenAreSelected(lines);
    forall k | 0 <= k < |d| ensures RecordOfLine(base, lines, d[k]) {
      assert d[k] in d && HasOrigin(records, d[k]);
      var r :| r in records && r.rva == d[k].rva && r.symbolIndex == d[k].symbolIndex && r.length == d[k].length;
      var n :| 0 <= n < |records| && records[n] == r;
      RecordStandsForLine(base, lines, n);
    }
    forall line | line in lines && line.selected
      ensures exists k :: 0 <= k < |d| && StartsAt(base, line, (base + d[k].rva) % 0x1_0000_0000_0000_0000)
    {
      var n :| 0 <= n < |c| && c[n] == line;
      RecordStandsForLine(base, lines, n);
      assert records[n] in records && HasRva(d, records[n].rva);
      var k :| 0 <= k < |d| && d[k].rva == records[n].rva;
    }
  }

  lemma RecordCount(base: nat, c: seq<SourceLine>)
    ensures |Records(base, NumbersOf(c), AddressesOf(base, c), SymbolsOf(c), LengthsOf(c))| == |c|
  {
  }

  /** The branch at address b lies in the block of a record, and that block starts where a selected line l starts. */
  ghost predicate InLineBlock(base: nat, lines: seq<SourceLine>, d: seq<LineRecord>, l: nat, b: nat) {
    exists a: nat, i: nat, end: nat ::
      IsLineStart(base, lines, a, l) && i < |d| && BlockEnds(d, i, end) && a <= b < a + (end - d[i].rva)
  }

  /** When no block wraps around, every site lies in the block of the selected line that it is registered for. */
  lemma SiteInItsLine(memory: map<Handle, Mem>, p: Handle, base: nat, lines: seq<SourceLine>, d: seq<LineRecord>,
                      detect: Detector, sites: seq<ConditionSite>, s: ConditionSite)
    requires var c := Chosen(lines);
      Deduplicated(Records(base, NumbersOf(c), AddressesOf(base, c), SymbolsOf(c), LengthsOf(c)), d)
    requires Enumerated(memory, p, base, d, detect, sites) && s in sites && StaysInside(detect)
    requires NoneWraps(d) && forall line :: line in lines ==> line.length < 0x1_0000_0000
    ensures InLineBlock(base, lines, d, s.lineNumber, s.siteAddress)
  {
    hide Deduplicated, Enumerated, NoneWraps, StaysInside, BlockEnds, FirstRecord, Records;
    var c := Chosen(lines);
    var numbers, addresses, symbols, lengths := NumbersOf(c), AddressesOf(base, c), SymbolsOf(c), LengthsOf(c);
    ChosenAreSelected(lines);
    forall n | n in lengths ensures n < 0x1_0000_0000 {
      var i :| 0 <= i < |c| && lengths[i] == n;
      assert c[i] in c;
    }
    RecordsFit(base, numbers, addresses, symbols, lengths, d);
    FirstRecordWins(memory, p, base, d, detect, sites);
    var i: nat :| FirstRecord(memory, p, base, d, detect, s, i);
    assert i < |d| by { FirstRecordBound(memory, p, base, d, detect, s, i); }
    SiteLiesInBlock(memory, p, base, numbers, addresses, symbols, lengths, d, detect, s, i);
    var n: nat, end: nat :|
      && n < |numbers| && s.lineNumber == numbers[n] && BlockEnds(d, i, end)
      && addresses[n] % 0x1_0000_0000_0000_0000 <= s.siteAddress < addresses[n] % 0x1_0000_0000_0000_0000 + (end - d[i].rva);
    var a := addresses[n] % 0x1_0000_0000_0000_0000;
    assert c[n] in c && StartsAt(base, c[n], a);
    assert IsLineStart(base, lines, a, s.lineNumber);
  }

  lemma FirstRecordBound(memory: map<Handle, Mem>, p: Handle, base: nat, d: seq<LineRecord>, detect: Detector,
                         s: ConditionSite, i: nat)
    requires FirstRecord(memory, p, base, d, detect, s, i)
    ensures i < |d|
  {
  }

  /** The sites that the enumerator finds in the memory for the selected lines. */
  ghost predicate SitesFound(memory: map<Handle, Mem>, p: Handle, base: nat, lines: seq<SourceLine>, detect: Detector,
                             sites: seq<ConditionSite>)
  {
    var c := Chosen(lines);
    if c == [] then sites == [] else
    exists d :: Deduplicated(Records(base, NumbersOf(c), AddressesOf(base, c), SymbolsOf(c), LengthsOf(c)), d) &&
                Enumerated(memory, p, base, d, detect, sites)
  }

  function AddLineAt(linesAt: LinesByAddress, a: nat, l: nat): LinesByAddress {
    linesAt[a := (if a in linesAt then linesAt[a] else []) + [l]]
  }

  lemma AddLineAtListed(addresses: seq<nat>, linesAt: LinesByAddress, a: nat, l: nat)
    requires BatchMatches(addresses, linesAt)
    ensures BatchMatches(addresses + [a], AddLineAt(linesAt, a, l))
    ensures forall b, k :: Listed(AddLineAt(linesAt, a, l), b, k) <==> Listed(linesAt, b, k) || (b == a && k == l)
  {
    var more := addresses + [a];
    forall b ensures multiset(more)[b] == multiset(addresses)[b] + (if b == a then 1 else 0) {}
    if a !in linesAt {
      assert a !in multiset(addresses);
    }
  }

  lemma MoreStarts(base: nat, lines: seq<SourceLine>, n: nat)
    requires n < |lines|
    ensures var line := lines[n];
      forall a, l :: IsLineStart(base, lines[..n + 1], a, l) <==>
        IsLineStart(base, lines[..n], a, l) || (line.selected && l == line.lineNumber && a == AddressOf(base, line))
  {
    hide StartsAt;
    var line, now := lines[n], lines[..n + 1];
    assert forall s :: s in now <==> s in lines[..n] || s == line;
    forall a, l ensures IsLineStart(base, now, a, l) <==>
      IsLineStart(base, lines[..n], a, l) || (line.selected && l == line.lineNumber && a == AddressOf(base, line))
    {
      StartsAtAddress(base, line, a);
    }
  }

  lemma StartsAtAddress(base: nat, line: SourceLine, a: nat)
    ensures StartsAt(base, line, a) <==> a == AddressOf(base, line)
  {
  }

  method CollectLines(base: nat, lines: seq<SourceLine>)
    returns (addresses: seq<nat>, linesAt: LinesByAddress, selected: seq<SourceLine>)
    ensures BatchOf(base, lines, [], addresses, linesAt)
    ensures selected == Chosen(lines) && forall s :: s in selected <==> s in lines && s.selected
  {
    addresses, linesAt, selected := [], map[], [];
    for n := 0 to |lines|
      invariant BatchMatches(addresses, linesAt)
      invariant forall a, l :: Listed(linesAt, a, l) <==> IsLineStart(base, lines[..n], a, l)
      invariant selected == Chosen(lines[..n]) && forall s :: s in selected <==> s in lines[..n] && s.selected
    {
      hide IsLineStart, Listed, BatchMatches, AddLineAt;
      var line := lines[n];
      assert lines[..n + 1][..n] == lines[..n];
      assert lines[..n + 1] == lines[..n] + [line];
      MoreStarts(base, lines, n);
      if line.selected {
        var addressValue := AddressOf(base, line);
        AddLineAtListed(addresses, linesAt, addressValue, line.lineNumber);
        linesAt := AddLineAt(linesAt, addressValue, line.lineNumber);
        addresses := addresses + [addressValue];
        selected := selected + [line];
      }
    }
    assert lines[..|lines|] == lines;
  }

  /** A site that coincides with a line start gets no entry of its own. */
  method MergeSites(base: nat, ghost lines: seq<SourceLine>, sites: seq<ConditionSite>,
                    addresses0: seq<nat>, linesAt0: LinesByAddress)
    returns (addresses: seq<nat>, linesAt: LinesByAddress)
    requires BatchOf(base, lines, [], addresses0, linesAt0) && UniqueAddresses(sites)
    ensures BatchOf(base, lines, sites, addresses, linesAt)
  {
    addresses, linesAt := addresses0, linesAt0;
    for n := 0 to |sites|
      invariant BatchOf(base, lines, sites[..n], addresses, linesAt)
    {
      MergeSite(base, lines, sites, n, addresses, linesAt);
      if sites[n].siteAddress !in linesAt {
        addresses := addresses + [sites[n].siteAddress];
        linesAt := AddLineAt(linesAt, sites[n].siteAddress, sites[n].lineNumber);
      }
    }
    assert sites[..|sites|] == sites;
  }

  lemma MergeSite(base: nat, lines: seq<SourceLine>, sites: seq<ConditionSite>, n: nat,
                  addresses: seq<nat>, linesAt: LinesByAddress)
    requires n < |sites| && UniqueAddresses(sites) && BatchOf(base, lines, sites[..n], addresses, linesAt)
    ensures var (a, l) := (sites[n].siteAddress, sites[n].lineNumber);
      if a in linesAt then BatchOf(base, lines, sites[..n + 1], addresses, linesAt)
      else BatchOf(base, lines, sites[..n + 1], addresses + [a], AddLineAt(linesAt, a, l))
  {
    var a, l := sites[n].siteAddress, sites[n].lineNumber;
    AddLineAtListed(addresses, linesAt, a, l);
    assert sites[..n + 1] == sites[..n] + [sites[n]];
    forall b, k ensures SiteAt(sites[..n + 1], b, k) <==> SiteAt(sites[..n], b, k) || (b == a && k == l) {
      assert forall s :: s in sites[..n + 1] <==> s in sites[..n] || s == sites[n];
    }
    assert forall k :: !SiteAt(sites[..n], a, k);
    if a in linesAt {
      var k := linesAt[a][0];
      assert Listed(linesAt, a, k);
      assert HasLineStart(base, lines, a);
    } else {
      forall k ensures !IsLineStart(base, lines, a, k) {
        assert !Listed(linesAt, a, k);
      }
    }
  }

  // ----- The effect of registering a source file and a module ---------------------------------

  /** The batch is planted and registered, then its branch sites are attached. */
  ghost predicate FileRegistered(trap: Instruction, p: Handle, path: string, batch: FileBatch,
                                 s: State, m: Mem, s': State, m': Mem)
    requires s.lastModule.Some?
  {
    exists t: State ::
      && t.lastModule == s.lastModule
      && BatchRegistered(trap, p, FileOf(s, path), batch.addresses, batch.linesAt, s, m, t, m')
      && s' == RegisterSites(t, p, path, batch.sites)
  }

  /** The source files of a module, one after the other. */
  ghost predicate FilesRegistered(trap: Instruction, p: Handle, files: seq<(string, FileBatch)>,
                                  s: State, m: Mem, s': State, m': Mem)
    requires s.lastModule.Some?
  {
    if files == [] then s' == s && m' == m else
    var n := |files| - 1;
    exists t: State, q: Mem ::
      && FilesRegistered(trap, p, files[..n], s, m, t, q)
      && t.lastModule == s.lastModule
      && FileRegistered(trap, p, files[n].0, files[n].1, t, q, s', m')
  }

  lemma SavedAlwaysMapped(trap: Instruction, m: Mem, addresses: seq<nat>, m': Mem, saved: seq<SavedInstruction>)
    requires Batched(trap, m, addresses, m', Ok(saved))
    ensures m'.Keys == m.Keys && SavedMapped(m', saved)
  {
    BatchedIsPointwise(trap, m, addresses, m', saved);
    forall i | 0 <= i < |saved| ensures Mapped(m', saved[i].1, |saved[i].0|) {
      SavedAtItsTurn(trap, m, Sort(addresses), i);
    }
  }

  /** What `SetBreakPoint` does when every transfer succeeds. */
  ghost predicate BatchDone(trap: Instruction, p: Handle, path: string, addresses: seq<nat>, linesAt: LinesByAddress,
                            sites: seq<ConditionSite>, s: State, m: Mem, s': State, m': Mem)
    requires s.lastModule.Some?
  {
    exists planted: Mem, saved: seq<SavedInstruction> ::
      && Batched(trap, m, addresses, planted, Ok(saved))
      && SavedMapped(planted, saved)
      && m' == RegisterSaved(Registry(s, planted), p, path, linesAt, saved).memory
      && s' == RegisterSites(RegisterSaved(Registry(s, planted), p, path, linesAt, saved).state, p, path, sites)
  }

  lemma BatchDoneRegisters(trap: Instruction, p: Handle, path: string, batch: FileBatch, s: State, m: Mem, s': State, m': Mem)
    requires s.lastModule.Some? && BatchMatches(batch.addresses, batch.linesAt) && Apart(|trap|, batch.addresses)
    requires BatchDone(trap, p, path, batch.addresses, batch.linesAt, batch.sites, s, m, s', m')
    ensures FileRegistered(trap, p, path, batch, s, m, s', m')
  {
    hide Batched, BatchRegistered, RegisterSaved, RegisterSites, Apart, BatchMatches;
    var planted: Mem, saved: seq<SavedInstruction> :|
      && Batched(trap, m, batch.addresses, planted, Ok(saved))
      && SavedMapped(planted, saved)
      && m' == RegisterSaved(Registry(s, planted), p, path, batch.linesAt, saved).memory
      && s' == RegisterSites(RegisterSaved(Registry(s, planted), p, path, batch.linesAt, saved).state, p, path, batch.sites);
    BatchRegistration(trap, s, m, p, path, batch.addresses, batch.linesAt, planted, saved);
    var t := RegisterSaved(Registry(s, planted), p, path, batch.linesAt, saved).state;
    assert t.lastModule == s.lastModule;
  }

  /** A source file of the debug information; `selected` is the answer of the coverage filters. */
  datatype SourceFile = SourceFile(path: string, selected: bool, lines: seq<SourceLine>)

  ghost function ModuleAdded(s: State, name: string, base: nat): State {
    s.(modules := s.modules + {name}, lastModule := Some(LastModule(name, base)))
  }

  ghost predicate AllApart(trap: Instruction, files: seq<(string, FileBatch)>) {
    forall i :: 0 <= i < |files| ==> Apart(|trap|, files[i].1.addresses)
  }

  /** One batch for each selected file, in order, made of its lines and of sites on them. */
  ghost predicate BatchesOf(base: nat, branch: bool, files: seq<SourceFile>, batches: seq<(string, FileBatch)>) {
    if files == [] then batches == [] else
    var n, file := |files| - 1, files[|files| - 1];
    if !file.selected then BatchesOf(base, branch, files[..n], batches) else
    && batches != []
    && var (path, batch) := batches[|batches| - 1];
       && path == file.path && SitesOfLines(base, file.lines, batch.sites) && (!branch ==> batch.sites == [])
       && BatchOf(base, file.lines, batch.sites, batch.addresses, batch.linesAt)
       && BatchesOf(base, branch, files[..n], batches[..|batches| - 1])
  }

  class MonitoredLineRegister {
    const trap: Instruction
    const os: Debuggee
    const manager: ExecutedAddressManager
    const branchCoverageEnabled: bool
    const detect: Detector
    var pendingConditionSites: seq<ConditionSite>

    constructor (trap: Instruction, os: Debuggee, manager: ExecutedAddressManager, branchCoverageEnabled: bool, detect: Detector)
      ensures this.trap == trap && this.os == os && this.manager == manager
      ensures this.branchCoverageEnabled == branchCoverageEnabled && this.detect == detect
      ensures pendingConditionSites == []
    {
      this.trap, this.os, this.manager := trap, os, manager;
      this.branchCoverageEnabled, this.detect := branchCoverageEnabled, detect;
      pendingConditionSites := [];
    }

    ghost function Now(process: Handle): Registry
      requires process in os.memory
      reads this, manager, os
    {
      Registry(manager.Abs(), os.memory[process])
    }

    method RegisterPlace(address: Address, path: string, instruction: Instruction, lines: seq<nat>)
      requires address.process in os.memory && Mapped(os.memory[address.process], address.value, |instruction|)
      requires manager.lastModule.Some?
      modifies os`memory, manager
      ensures OnlyProcess(old(os.memory), os.memory, address.process)
      ensures Now(address.process) == RegisterLines(old(Now(address.process)), address, path, instruction, lines)
    {
      for n := 0 to |lines|
        invariant OnlyProcess(old(os.memory), os.memory, address.process)
        invariant manager.lastModule.Some?
        invariant Now(address.process) ==
                  RegisterLines(old(Now(address.process)), address, path, instruction, lines[..n])
      {
        assert lines[..n + 1][..n] == lines[..n];
        var keep := manager.RegisterAddress(address, path, lines[n], instruction);
        if !keep.value {
          var ok := RemoveBreakPoint(os, address.process, address.value, instruction);
        }
      }
      assert lines[..|lines|] == lines;
    }

    method RegisterBatch(path: string, process: Handle, linesAt: LinesByAddress, saved: seq<SavedInstruction>)
      requires process in os.memory && SavedMapped(os.memory[process], saved) && manager.lastModule.Some?
      modifies os`memory, manager
      ensures OnlyProcess(old(os.memory), os.memory, process)
      ensures Now(process) == RegisterSaved(old(Now(process)), process, path, linesAt, saved)
    {
      for n := 0 to |saved|
        invariant OnlyProcess(old(os.memory), os.memory, process)
        invariant manager.lastModule.Some?
        invariant Now(process) == RegisterSaved(old(Now(process)), process, path, linesAt, saved[..n])
      {
        assert saved[..n + 1][..n] == saved[..n];
        var (oldInstruction, addressValue) := saved[n];
        assert Mapped(old(os.memory[process]), saved[n].1, |saved[n].0|);
        if addressValue in linesAt {
          RegisterPlace(Address(process, addressValue), path, oldInstruction, linesAt[addressValue]);
        }
      }
      assert saved[..|saved|] == saved;
    }

    method AttachSites(path: string, process: Handle)
      requires manager.lastModule.Some?
      modifies this`pendingConditionSites, manager
      ensures manager.Abs() == RegisterSites(old(manager.Abs()), process, path, old(pendingConditionSites))
      ensures pendingConditionSites == []
      ensures UniqueAddresses(old(pendingConditionSites)) ==>
        AllAttached(manager.Abs(), process, FileOf(old(manager.Abs()), path), old(manager.lastModule).value.baseOfImage,
                    old(pendingConditionSites))
      ensures RecordsAdded(old(manager.Abs()), manager.Abs(), FileOf(old(manager.Abs()), path), old(pendingConditionSites))
    {
      ghost var s, sites := manager.Abs(), pendingConditionSites;
      SitesRecord(s, process, path, sites);
      if UniqueAddresses(sites) {
        SitesAttach(s, process, path, sites);
      }
      for n := 0 to |pendingConditionSites|
        invariant pendingConditionSites == old(pendingConditionSites)
        invariant manager.lastModule.Some?
        invariant manager.Abs() == RegisterSites(old(manager.Abs()), process, path, pendingConditionSites[..n])
      {
        var site := pendingConditionSites[n];
        assert pendingConditionSites[..n + 1][..n] == pendingConditionSites[..n];
        var r := manager.RegisterConditionSite(Address(process, site.siteAddress), path, site.lineNumber,
                                               site.conditionIndex, site.takenTarget, site.fallThrough);
      }
      assert pendingConditionSites[..|pendingConditionSites|] == pendingConditionSites;
      pendingConditionSites := [];
    }

    method SetBreakPoint(path: string, process: Handle, addresses: seq<nat>, linesAt: LinesByAddress) returns (r: Result<()>)
      requires process in os.memory && manager.lastModule.Some?
      modifies this`pendingConditionSites, os`memory, manager
      ensures OnlyProcess(old(os.memory), os.memory, process)
      ensures r.Throw? ==> manager.Abs() == old(manager.Abs())
      ensures r.Ok? ==> pendingConditionSites == [] && manager.lastModule == old(manager.lastModule)
      ensures r.Ok? ==>
        BatchDone(trap, process, path, addresses, linesAt, old(pendingConditionSites), old(manager.Abs()), old(os.memory[process]),
                  manager.Abs(), os.memory[process])
      ensures r.Ok? && UniqueAddresses(old(pendingConditionSites)) ==>
        AllAttached(manager.Abs(), process, FileOf(old(manager.Abs()), path), old(manager.lastModule).value.baseOfImage,
                    old(pendingConditionSites))
    {
      hide Batched, RegisterSaved, RegisterSites, SavedMapped, UniqueAddresses, AllAttached, RecordsAdded;
      ghost var m, s := os.memory[process], manager.Abs();
      var oldInstructions := SetBreakPoints(trap, os, process, addresses);
      if oldInstructions.Throw? {
        return Throw;
      }
      ghost var planted := os.memory[process];
      SavedAlwaysMapped(trap, m, addresses, planted, oldInstructions.value);
      RegisterBatch(path, process, linesAt, oldInstructions.value);
      AttachSites(path, process);
      assert BatchDone(trap, process, path, addresses, linesAt, old(pendingConditionSites), s, m, manager.Abs(), os.memory[process]);
      r := Ok(());
    }

    /** Sites of the selected lines, in an enumeration over the current memory. */
    method EnumerateSites(process: Handle, base: nat, ghost lines: seq<SourceLine>, selected: seq<SourceLine>)
      returns (sites: seq<ConditionSite>)
      requires selected == Chosen(lines) && forall s :: s in selected <==> s in lines && s.selected
      ensures SitesOfLines(base, lines, sites) && SitesFound(os.memory, process, base, lines, detect, sites)
    {
      var numbers, addresses := NumbersOf(selected), AddressesOf(base, selected);
      var symbols, lengths := SymbolsOf(selected), LengthsOf(selected);
      sites := Enumerate(os, process, base, numbers, addresses, symbols, lengths, detect);
      if numbers != [] {
        ghost var d :| Deduplicated(Records(base, numbers, addresses, symbols, lengths), d) &&
                       Enumerated(os.memory, process, base, d, detect, sites);
        EnumeratedLines(os.memory, process, base, numbers, addresses, symbols, lengths, d, detect, sites);
        forall s | s in sites ensures exists a :: IsLineStart(base, lines, a, s.lineNumber) {
          var i :| 0 <= i < |numbers| && numbers[i] == s.lineNumber;
          assert selected[i] in selected;
          assert IsLineStart(base, lines, AddressOf(base, selected[i]), s.lineNumber);
        }
      }
    }

    /** `OnSourceFile`; the ghost results are the batch it builds and the sites it enumerates. */
    method OnSourceFile(path: string, process: Handle, base: nat, lines: seq<SourceLine>)
      returns (r: Result<()>, ghost batch: FileBatch, ghost sites: seq<ConditionSite>)
      requires process in os.memory
      modifies this`pendingConditionSites, os`memory, manager
      ensures OnlyProcess(old(os.memory), os.memory, process)
      ensures r.Throw? ==> manager.Abs() == old(manager.Abs())
      ensures r.Ok? ==> old(manager.lastModule).Some? && manager.lastModule == old(manager.lastModule)
      ensures r.Ok? ==> SitesOfLines(base, lines, sites)
      ensures r.Ok? ==> if branchCoverageEnabled then SitesFound(old(os.memory), process, base, lines, detect, sites) else sites == []
      ensures r.Ok? ==> BatchOf(base, lines, sites, batch.addresses, batch.linesAt)
      ensures r.Ok? ==> batch.sites == old(pendingConditionSites) + sites && pendingConditionSites == []
      ensures r.Ok? && old(pendingConditionSites) == [] ==>
        AllAttached(manager.Abs(), process, FileOf(old(manager.Abs()), path), old(manager.lastModule).value.baseOfImage, sites)
      ensures r.Ok? && Apart(|trap|, batch.addresses) ==>
        FileRegistered(trap, process, path, batch, old(manager.Abs()), old(os.memory[process]), manager.Abs(), os.memory[process])
    {
      hide BatchOf, SitesOfLines, SitesFound, Chosen, BatchDone, FileRegistered, Apart, UniqueAddresses, AllAttached;
      batch, sites := FileBatch([], map[], []), [];
      if manager.lastModule.None? {
        return Throw, batch, sites;
      }
      var addresses, linesAt, selected := CollectLines(base, lines);
      var found: seq<ConditionSite> := [];
      if branchCoverageEnabled {
        found := EnumerateSites(process, base, lines, selected);
      } else {
        NoSites(base, lines);
      }
      sites := found;
      SitesUnique(base, lines, found);
      addresses, linesAt := MergeSites(base, lines, found, addresses, linesAt);
      assert [] + found == found;
      pendingConditionSites := pendingConditionSites + found;
      batch := FileBatch(addresses, linesAt, pendingConditionSites);
      r := SetBreakPoint(path, process, addresses, linesAt);
      if r.Ok? && Apart(|trap|, addresses) {
        BatchOfMatches(base, lines, found, addresses, linesAt);
        BatchDoneRegisters(trap, process, path, batch, old(manager.Abs()), old(os.memory[process]),
                           manager.Abs(), os.memory[process]);
      }
    }

    /** `RegisterLineToMonitor`: managed modules are skipped; the selected files are registered in order. */
    method RegisterLineToMonitor(isNative: bool, hasSymbols: bool, modulePath: string, process: Handle, base: nat,
                                 files: seq<SourceFile>)
      returns (r: Result<bool>, ghost done: seq<(string, FileBatch)>)
      requires process in os.memory
      modifies this`pendingConditionSites, os`memory, manager
      ensures OnlyProcess(old(os.memory), os.memory, process)
      ensures !isNative ==> r == Ok(false) && manager.Abs() == old(manager.Abs()) && os.memory == old(os.memory)
      ensures isNative && !hasSymbols ==>
        r == Ok(false) && os.memory == old(os.memory) && manager.Abs() == ModuleAdded(old(manager.Abs()), modulePath, base)
      ensures r.Ok? && old(pendingConditionSites) == [] ==> pendingConditionSites == []
      ensures isNative && hasSymbols && r.Ok? && old(pendingConditionSites) == [] ==>
        BatchesOf(base, branchCoverageEnabled, files, done)
      ensures isNative && hasSymbols && r.Ok? ==> r == Ok(true) && (AllApart(trap, done) ==>
        FilesRegistered(trap, process, done, ModuleAdded(old(manager.Abs()), modulePath, base), old(os.memory[process]),
                        manager.Abs(), os.memory[process]))
    {
      done := [];
      if !isNative {
        return Ok(false), done;
      }
      manager.AddModule(modulePath, base);
      if !hasSymbols {
        return Ok(false), done;
      }
      ghost var s := manager.Abs();
      for n := 0 to |files|
        invariant OnlyProcess(old(os.memory), os.memory, process)
        invariant manager.lastModule == s.lastModule
        invariant old(pendingConditionSites) == [] ==>
          pendingConditionSites == [] && BatchesOf(base, branchCoverageEnabled, files[..n], done)
        invariant AllApart(trap, done) ==>
          FilesRegistered(trap, process, done, s, old(os.memory[process]), manager.Abs(), os.memory[process])
      {
        hide FilesRegistered, FileRegistered, Apart, BatchOf, SitesOfLines, SitesFound, BatchesOf;
        ghost var earlier := done;
        if files[n].selected {
          ghost var t, q := manager.Abs(), os.memory[process];
          var one, batch, sites := OnSourceFile(files[n].path, process, base, files[n].lines);
          if one.Throw? {
            return Throw, done;
          }
          if AllApart(trap, done + [(files[n].path, batch)]) {
            OneMoreFile(trap, process, done, files[n].path, batch, s, old(os.memory[process]), t, q,
                        manager.Abs(), os.memory[process]);
          }
          done := done + [(files[n].path, batch)];
          if old(pendingConditionSites) == [] {
            assert batch.sites == sites by { assert [] + sites == sites; }
            NextBatch(base, branchCoverageEnabled, files, n, earlier, batch);
          }
        } else {
          NoBatch(base, branchCoverageEnabled, files, n, done);
        }
      }
      assert files[..|files|] == files;
      r := Ok(true);
    }
  }

  lemma NextBatch(base: nat, branch: bool, files: seq<SourceFile>, n: nat, done: seq<(string, FileBatch)>, batch: FileBatch)
    requires n < |files| && files[n].selected && BatchesOf(base, branch, files[..n], done)
    requires SitesOfLines(base, files[n].lines, batch.sites) && (!branch ==> batch.sites == [])
    requires BatchOf(base, files[n].lines, batch.sites, batch.addresses, batch.linesAt)
    ensures BatchesOf(base, branch, files[..n + 1], done + [(files[n].path, batch)])
  {
    hide SitesOfLines, BatchOf;
    var all := done + [(files[n].path, batch)];
    assert files[..n + 1][..n] == files[..n] && all[..|done|] == done;
  }

  lemma NoBatch(base: nat, branch: bool, files: seq<SourceFile>, n: nat, done: seq<(string, FileBatch)>)
    requires n < |files| && !files[n].selected
    ensures BatchesOf(base, branch, files[..n + 1], done) <==> BatchesOf(base, branch, files[..n], done)
  {
    assert files[..n + 1][..n] == files[..n];
  }

  lemma OneMoreFile(trap: Instruction, p: Handle, done: seq<(string, FileBatch)>, path: string, batch: FileBatch,
                    s: State, m: Mem, t: State, q: Mem, s': State, m': Mem)
    requires s.lastModule.Some? && t.lastModule == s.lastModule
    requires AllApart(trap, done + [(path, batch)])
    requires AllApart(trap, done) ==> FilesRegistered(trap, p, done, s, m, t, q)
    requires Apart(|trap|, batch.addresses) ==> FileRegistered(trap, p, path, batch, t, q, s', m')
    ensures FilesRegistered(trap, p, done + [(path, batch)], s, m, s', m')
  {
    hide FileRegistered, Apart;
    var all := done + [(path, batch)];
    assert all[..|done|] == done && all[|done|] == (path, batch);
    assert forall i :: 0 <= i < |done| ==> all[i] == done[i];
  }

  lemma NoSites(base: nat, lines: seq<SourceLine>)
    ensures SitesOfLines(base, lines, [])
  {
  }

  lemma SitesUnique(base: nat, lines: seq<SourceLine>, sites: seq<ConditionSite>)
    requires SitesOfLines(base, lines, sites)
    ensures UniqueAddresses(sites)
  {
  }

  lemma BatchOfMatches(base: nat, lines: seq<SourceLine>, sites: seq<ConditionSite>, addresses: seq<nat>, linesAt: LinesByAddress)
    requires BatchOf(base, lines, sites, addresses, linesAt)
    ensures BatchMatches(addresses, linesAt)
  {
  }

  /** Every site of a batch has an entry, and its line is one of the lines of the batch. */
  lemma SitesInBatch(base: nat, lines: seq<SourceLine>, batch: FileBatch, sites: seq<ConditionSite>)
    requires SitesOfLines(base, lines, sites) && BatchOf(base, lines, sites, batch.addresses, batch.linesAt)
    ensures forall site :: site in sites ==>
      site.siteAddress in batch.linesAt && exists a :: Listed(batch.linesAt, a, site.lineNumber)
  {
    forall site | site in sites
      ensures site.siteAddress in batch.linesAt && exists a :: Listed(batch.linesAt, a, site.lineNumber)
    {
      var a :| IsLineStart(base, lines, a, site.lineNumber);
      assert Listed(batch.linesAt, a, site.lineNumber);
      var b := site.siteAddress;
      assert SiteAt(sites, b, site.lineNumber);
      if HasLineStart(base, lines, b) {
        var l :| IsLineStart(base, lines, b, l);
        assert Listed(batch.linesAt, b, l);
      } else {
        assert Listed(batch.linesAt, b, site.lineNumber);
      }
    }
  }

  /** Every site of a batch is planted, and its line has a flag after the registration. */
  lemma SitesAreListed(trap: Instruction, p: Handle, path: string, base: nat, lines: seq<SourceLine>,
                       batch: FileBatch, sites: seq<ConditionSite>, s: State, m: Mem, s': State, m': Mem)
    requires s.lastModule.Some? && SitesOfLines(base, lines, sites)
    requires BatchOf(base, lines, sites, batch.addresses, batch.linesAt)
    requires BatchRegistered(trap, p, FileOf(s, path), batch.addresses, batch.linesAt, s, m, s', m')
    ensures forall site :: site in sites ==>
      site.siteAddress in batch.linesAt && LineKey(FileOf(s, path), site.lineNumber) in s'.lines
  {
    SitesInBatch(base, lines, batch, sites);
    forall site | site in sites
      ensures site.siteAddress in batch.linesAt && LineKey(FileOf(s, path), site.lineNumber) in s'.lines
    {
      assert IsNewKey(FileOf(s, path), batch.linesAt, batch.addresses, LineKey(FileOf(s, path), site.lineNumber));
    }
  }
}
