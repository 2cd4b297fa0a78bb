/**
 What loading a module does to the bookkeeping: the batches of its source files
 touch nothing but the new module, and leave every new address planted.
 */
module ModuleLoad {
  import opened Common
  import opened Memory
  import opened Debuggees
  import opened BreakPoints
  import opened AddressManagers
  import opened SiteEnumerators
  import opened LineRegisters
  import opened NativeMachine
  import opened MemoryInvariant

  ghost predicate SameSite(s: State, s': State, a: Address) {
    && (a in s'.conditionSiteMap <==> a in s.conditionSiteMap)
    && (a in s.conditionSiteMap ==> s'.conditionSiteMap[a] == s.conditionSiteMap[a])
  }

  /** Flags and condition records survive with their values; new ones start unset. */
  ghost predicate RecordsKept(s: State, s': State) {
    && (forall k :: k in s.lines ==> k in s'.lines)
    && (forall k :: k in s'.lines ==> s'.lines[k] == (k in s.lines && s.lines[k]))
    && (forall c :: c in s.conditions ==> c in s'.conditions && s'.conditions[c] == s.conditions[c])
    && (forall c :: c in s'.conditions ==> c in s.conditions || s'.conditions[c] == FRESH_CONDITION)
  }

  ghost predicate OthersUntouched(p: Handle, region: set<nat>, s: State, s': State) {
    forall a: Address :: a.process != p || a.value !in region ==> SameEntry(s, s', a) && SameSite(s, s', a)
  }

  ghost predicate OldReadsKept(w: nat, p: Handle, s: State, m: Mem, m': Mem) {
    forall a :: Address(p, a) in s.addressLineMap ==>
      Mapped(m, a, w) && Mapped(m', a, w) && Read(m', a, w) == Read(m, a, w)
  }

  ghost predicate NewPlanted(trap: Instruction, p: Handle, s: State, s': State, m': Mem) {
    forall a :: Address(p, a) in s'.addressLineMap && Address(p, a) !in s.addressLineMap ==> IsPlanted(trap, m', a)
  }

  ghost predicate LoadEffect(trap: Instruction, p: Handle, region: set<nat>, s: State, m: Mem, s': State, m': Mem) {
    && OthersUntouched(p, region, s, s')
    && OldReadsKept(|trap|, p, s, m, m')
    && NewPlanted(trap, p, s, s', m')
    && RecordsKept(s, s')
    && (Valid(s) ==> Valid(s'))
    && (ConditionsHaveLines(s) ==> ConditionsHaveLines(s'))
  }

  /** The line of every site is among the lines of the batch. */
  ghost predicate SiteLinesListed(batch: FileBatch) {
    forall site :: site in batch.sites ==> exists a :: a in batch.linesAt && site.lineNumber in batch.linesAt[a]
  }

  ghost predicate FileFits(trap: Instruction, proc: Process, base: nat, region: set<nat>, batch: FileBatch) {
    && BatchFits(trap, proc, base, batch)
    && (forall a :: a in batch.linesAt ==> a in region)
    && SiteLinesListed(batch)
  }

  ghost predicate NoneIn(s: State, p: Handle, region: set<nat>) {
    forall a :: a in region ==> Address(p, a) !in s.addressLineMap
  }

  // ----- One batch, then its sites -------------------------------------------------------

  lemma BatchValid(trap: Instruction, p: Handle, path: string, batch: FileBatch, s: State, m: Mem, s': State, m': Mem)
    requires s.lastModule.Some? && Valid(s)
    requires forall a :: a in batch.linesAt ==> a in batch.addresses && batch.linesAt[a] != []
    requires BatchRegistered(trap, p, FileOf(s, path), batch.addresses, batch.linesAt, s, m, s', m')
    ensures Valid(s')
  {
    var file := FileOf(s, path);
    forall a, k | a in s'.addressLineMap && k in s'.addressLineMap[a].hasBeenExecuted ensures k in s'.lines {
      if a.process == p && a.value in batch.linesAt {
        assert PlaceRegistered(trap, p, file, batch.linesAt, a.value, s, m, s', m');
        assert Address(p, a.value) == a;
        assert EntryKept(s, s', a, file, batch.linesAt[a.value]);
        if !(a in s.addressLineMap && k in s.addressLineMap[a].hasBeenExecuted) {
          assert IsNewKey(file, batch.linesAt, batch.addresses, k);
        }
      } else {
        assert SameEntry(s, s', a);
      }
    }
  }

  lemma {:induction false} SitesValid(s: State, p: Handle, path: string, sites: seq<ConditionSite>)
    requires s.lastModule.Some?
    ensures var s' := RegisterSites(s, p, path, sites);
      && s'.lines == s.lines && s'.addressLineMap == s.addressLineMap
      && (Valid(s) ==> Valid(s')) && RecordsKept(s, s')
      && (ConditionsHaveLines(s) && (forall site :: site in sites ==> LineKey(FileOf(s, path), site.lineNumber) in s.lines)
          ==> ConditionsHaveLines(s'))
  {
    if sites != [] {
      SitesValid(s, p, path, sites[..|sites| - 1]);
    }
  }

  lemma {:induction false} SitesElsewhere(s: State, p: Handle, path: string, sites: seq<ConditionSite>, a: Address)
    requires s.lastModule.Some?
    requires forall site :: site in sites ==> a != Address(p, site.siteAddress)
    ensures SameSite(s, RegisterSites(s, p, path, sites), a)
  {
    if sites != [] {
      SitesElsewhere(s, p, path, sites[..|sites| - 1], a);
      assert sites[|sites| - 1] in sites;
    }
  }

  lemma FileEffect(cpu: Cpu, trap: Instruction, p: Handle, proc: Process, region: set<nat>, path: string, batch: FileBatch,
                   s: State, m: Mem, s': State, m': Mem)
    requires ImageOk(cpu, |trap|, proc) && ProcessOk(trap, p, proc, s, m) && s.lastModule.Some?
    requires FileFits(trap, proc, s.lastModule.value.baseOfImage, region, batch)
    requires FileRegistered(trap, p, path, batch, s, m, s', m')
    ensures ProcessOk(trap, p, proc, s', m') && s'.lastModule == s.lastModule
    ensures OthersUntouched(p, region, s, s') && RecordsKept(s, s')
    ensures NewPlanted(trap, p, s, s', m')
    ensures forall a :: Address(p, a) in s.addressLineMap && IsPlanted(trap, m, a) ==> IsPlanted(trap, m', a)
    ensures forall a :: Address(p, a) in s.addressLineMap && a !in region ==>
      Mapped(m, a, |trap|) && Mapped(m', a, |trap|) && Read(m', a, |trap|) == Read(m, a, |trap|)
    ensures Valid(s) ==> Valid(s')
    ensures ConditionsHaveLines(s) ==> ConditionsHaveLines(s')
  {
    hide ImageOk, ProcessOk, BatchRegistered, BatchFits, Valid;
    var t: State :|
      && t.lastModule == s.lastModule
      && BatchRegistered(trap, p, FileOf(s, path), batch.addresses, batch.linesAt, s, m, t, m')
      && s' == RegisterSites(t, p, path, batch.sites);
    SitesValid(t, p, path, batch.sites);
    FileProcess(cpu, trap, p, proc, path, batch, s, m, t, m');
    FileOthers(trap, p, proc, region, path, batch, s, m, t, m');
    FileReads(cpu, trap, p, proc, region, path, batch, s, m, t, m');
    FileRecords(trap, p, proc, path, batch, s, m, t, m');
  }

  lemma FileProcess(cpu: Cpu, trap: Instruction, p: Handle, proc: Process, path: string, batch: FileBatch,
                    s: State, m: Mem, t: State, m': Mem)
    requires ImageOk(cpu, |trap|, proc) && ProcessOk(trap, p, proc, s, m) && s.lastModule.Some?
    requires BatchFits(trap, proc, s.lastModule.value.baseOfImage, batch)
    requires t.lastModule == s.lastModule
    requires BatchRegistered(trap, p, FileOf(s, path), batch.addresses, batch.linesAt, s, m, t, m')
    ensures ProcessOk(trap, p, proc, RegisterSites(t, p, path, batch.sites), m')
  {
    BatchKeeps(cpu, trap, p, proc, path, batch, s, m, t, m');
    forall site | site in batch.sites ensures Address(p, site.siteAddress) in t.addressLineMap {
      PlaceKnown(trap, p, FileOf(s, path), batch.linesAt, site.siteAddress, s, m, t, m');
    }
    SitesKeep(cpu, trap, p, proc, path, s.lastModule.value.baseOfImage, batch.sites, t, m');
  }

  lemma FileOthers(trap: Instruction, p: Handle, proc: Process, region: set<nat>, path: string, batch: FileBatch,
                   s: State, m: Mem, t: State, m': Mem)
    requires s.lastModule.Some? && t.lastModule == s.lastModule
    requires FileFits(trap, proc, s.lastModule.value.baseOfImage, region, batch)
    requires BatchRegistered(trap, p, FileOf(s, path), batch.addresses, batch.linesAt, s, m, t, m')
    ensures OthersUntouched(p, region, s, RegisterSites(t, p, path, batch.sites))
  {
    var s' := RegisterSites(t, p, path, batch.sites);
    SitesValid(t, p, path, batch.sites);
    forall a: Address | a.process != p || a.value !in region ensures SameEntry(s, s', a) && SameSite(s, s', a) {
      assert SameEntry(s, t, a);
      SitesElsewhere(t, p, path, batch.sites, a);
    }
  }

  lemma FileReads(cpu: Cpu, trap: Instruction, p: Handle, proc: Process, region: set<nat>, path: string, batch: FileBatch,
                  s: State, m: Mem, t: State, m': Mem)
    requires ImageOk(cpu, |trap|, proc) && ProcessOk(trap, p, proc, s, m) && s.lastModule.Some?
    requires FileFits(trap, proc, s.lastModule.value.baseOfImage, region, batch)
    requires BatchRegistered(trap, p, FileOf(s, path), batch.addresses, batch.linesAt, s, m, t, m')
    ensures NewPlanted(trap, p, s, t, m')
    ensures forall a :: Address(p, a) in s.addressLineMap && IsPlanted(trap, m, a) ==> IsPlanted(trap, m', a)
    ensures forall a :: Address(p, a) in s.addressLineMap && a !in region ==>
      Mapped(m, a, |trap|) && Mapped(m', a, |trap|) && Read(m', a, |trap|) == Read(m, a, |trap|)
  {
    hide PlaceAfter, FlagsAdded, IsPlanted, EntryOk;
    forall a | Address(p, a) in t.addressLineMap && Address(p, a) !in s.addressLineMap ensures IsPlanted(trap, m', a) {
      assert a !in batch.linesAt ==> SameEntry(s, t, Address(p, a));
      BatchEntryOk(cpu, trap, p, proc, path, batch, s, m, t, m', a);
    }
    forall a | Address(p, a) in s.addressLineMap && IsPlanted(trap, m, a) ensures IsPlanted(trap, m', a) {
      BatchSameBase(trap, p, path, batch, s, m, t, m', Address(p, a));
      BatchEntryOk(cpu, trap, p, proc, path, batch, s, m, t, m', a);
    }
    forall a | Address(p, a) in s.addressLineMap && a !in region
      ensures Mapped(m, a, |trap|) && Mapped(m', a, |trap|) && Read(m', a, |trap|) == Read(m, a, |trap|)
    {
      EntryFacts(trap, p, proc, s, m, a);
      BatchReadElsewhere(cpu, trap, proc, batch, m, m', a);
    }
  }

  lemma EntryFacts(trap: Instruction, p: Handle, proc: Process, s: State, m: Mem, a: nat)
    requires ProcessOk(trap, p, proc, s, m) && Address(p, a) in s.addressLineMap
    ensures EntryOk(trap, proc, m, a, s.addressLineMap[Address(p, a)])
    ensures a in proc.starts && Mapped(m, a, |trap|)
  {
  }

  lemma FileRecords(trap: Instruction, p: Handle, proc: Process, path: string, batch: FileBatch,
                    s: State, m: Mem, t: State, m': Mem)
    requires s.lastModule.Some? && t.lastModule == s.lastModule
    requires BatchFits(trap, proc, s.lastModule.value.baseOfImage, batch) && SiteLinesListed(batch)
    requires BatchRegistered(trap, p, FileOf(s, path), batch.addresses, batch.linesAt, s, m, t, m')
    ensures RecordsKept(s, RegisterSites(t, p, path, batch.sites))
    ensures Valid(s) ==> Valid(t)
    ensures ConditionsHaveLines(s) ==> ConditionsHaveLines(RegisterSites(t, p, path, batch.sites))
  {
    hide PlaceRegistered, OthersKept, BytesKept, Valid, RegisterSites, SiteLinesListed, IsNewKey;
    SitesValid(t, p, path, batch.sites);
    if Valid(s) {
      BatchValid(trap, p, path, batch, s, m, t, m');
    }
    SiteLinesFlagged(trap, p, path, batch, s, m, t, m');
  }

  /** The line of every site of the batch has a flag. */
  lemma SiteLinesFlagged(trap: Instruction, p: Handle, path: string, batch: FileBatch, s: State, m: Mem, t: State, m': Mem)
    requires s.lastModule.Some? && SiteLinesListed(batch)
    requires forall a :: a in batch.linesAt ==> a in batch.addresses
    requires BatchRegistered(trap, p, FileOf(s, path), batch.addresses, batch.linesAt, s, m, t, m')
    ensures forall site :: site in batch.sites ==> LineKey(FileOf(s, path), site.lineNumber) in t.lines
  {
    hide PlaceRegistered, OthersKept, BytesKept;
    forall site | site in batch.sites ensures LineKey(FileOf(s, path), site.lineNumber) in t.lines {
      var a :| a in batch.linesAt && site.lineNumber in batch.linesAt[a];
      assert IsNewKey(FileOf(s, path), batch.linesAt, batch.addresses, LineKey(FileOf(s, path), site.lineNumber));
    }
  }

  // ----- All files of the module ------------------------------------------------------------

  ghost predicate FilesFit(trap: Instruction, proc: Process, base: nat, region: set<nat>, files: seq<(string, FileBatch)>) {
    forall i :: 0 <= i < |files| ==> FileFits(trap, proc, base, region, files[i].1)
  }

  /** What the debug information has to get right: the batches lie on boundaries of the new module that hold no trap. */
  ghost predicate OnBoundaries(trap: Instruction, proc: Process, starts: set<nat>, batches: seq<(string, FileBatch)>) {
    forall i :: 0 <= i < |batches| ==> BatchOnBoundaries(trap, proc, starts, batches[i].1)
  }

  ghost predicate BatchOnBoundaries(trap: Instruction, proc: Process, starts: set<nat>, batch: FileBatch) {
    forall a :: a in batch.addresses ==> a in starts && Mapped(proc.code, a, |trap|) && !Holds(proc.code, a, trap)
  }

  /** The effect of `RegisterLineToMonitor` on the source files of a new module. */
  ghost predicate ModuleRegistered(trap: Instruction, branch: bool, p: Handle, proc: Process, base: nat, starts: set<nat>,
                                   s: State, m: Mem, s': State, m': Mem)
  {
    exists name: string, files: seq<SourceFile>, batches: seq<(string, FileBatch)> ::
      && BatchesOf(base, branch, files, batches)
      && OnBoundaries(trap, proc, starts, batches)
      && FilesRegistered(trap, p, batches, ModuleAdded(s, name, base), m, s', m')
  }

  // ----- The sites of the module ----------------------------------------------------------------

  ghost predicate LaterAmong(p: Handle, files: seq<(string, FileBatch)>, i: nat, a: Address) {
    exists j :: i < j < |files| && SiteAmong(p, files[j].1.sites, a)
  }

  /** Every site has its own targets and record, unless a later file claims its address. */
  ghost predicate FilesAttached(s: State, p: Handle, m: LastModule, files: seq<(string, FileBatch)>) {
    forall i :: 0 <= i < |files| ==> FileAttached(s, p, m, files, i)
  }

  ghost predicate FileAttached(s: State, p: Handle, m: LastModule, files: seq<(string, FileBatch)>, i: nat)
    requires i < |files|
  {
    forall site :: site in files[i].1.sites && !LaterAmong(p, files, i, Address(p, site.siteAddress)) ==>
      SiteAttached(s, p, FileKey(m.name, files[i].0), m.baseOfImage, site)
  }

  ghost predicate AllUnique(files: seq<(string, FileBatch)>) {
    forall i :: 0 <= i < |files| ==> UniqueAddresses(files[i].1.sites)
  }

  lemma OneFileAttaches(trap: Instruction, p: Handle, path: string, batch: FileBatch, s: State, m: Mem, s': State, m': Mem)
    requires s.lastModule.Some? && UniqueAddresses(batch.sites) && FileRegistered(trap, p, path, batch, s, m, s', m')
    ensures AllAttached(s', p, FileOf(s, path), s.lastModule.value.baseOfImage, batch.sites)
    ensures forall a :: !SiteAmong(p, batch.sites, a) && a in s.conditionSiteMap ==>
      a in s'.conditionSiteMap && s'.conditionSiteMap[a] == s.conditionSiteMap[a]
    ensures forall c :: c in s.conditions ==> c in s'.conditions
  {
    hide BytesKept, PlaceRegistered, OthersKept, FlagsAdded, RegisterSites, AllAttached, SiteAmong, UniqueAddresses;
    var t: State :|
      && t.lastModule == s.lastModule
      && BatchRegistered(trap, p, FileOf(s, path), batch.addresses, batch.linesAt, s, m, t, m')
      && s' == RegisterSites(t, p, path, batch.sites);
    SitesAttach(t, p, path, batch.sites);
    SitesRecord(t, p, path, batch.sites);
  }

  lemma StaysAttached(s: State, s': State, p: Handle, file: FileKey, base: nat, site: ConditionSite)
    requires SiteAttached(s, p, file, base, site)
    requires var a := Address(p, site.siteAddress);
      a in s.conditionSiteMap ==> a in s'.conditionSiteMap && s'.conditionSiteMap[a] == s.conditionSiteMap[a]
    requires forall c :: c in s.conditions ==> c in s'.conditions
    ensures SiteAttached(s', p, file, base, site)
  {
  }

  lemma {:induction false} FilesAttach(trap: Instruction, p: Handle, files: seq<(string, FileBatch)>,
                                       s: State, m: Mem, s': State, m': Mem)
    requires s.lastModule.Some? && AllUnique(files) && FilesRegistered(trap, p, files, s, m, s', m')
    ensures FilesAttached(s', p, s.lastModule.value, files)
  {
    hide FileRegistered, SiteAttached, SiteAmong, UniqueAddresses;
    if files != [] {
      var n := |files| - 1;
      var t: State, q: Mem :|
        && FilesRegistered(trap, p, files[..n], s, m, t, q)
        && t.lastModule == s.lastModule
        && FileRegistered(trap, p, files[n].0, files[n].1, t, q, s', m');
      FilesAttach(trap, p, files[..n], s, m, t, q);
      OneFileAttaches(trap, p, files[n].0, files[n].1, t, q, s', m');
      forall i | 0 <= i < |files| ensures FileAttached(s', p, s.lastModule.value, files, i) {
        if i < n {
          EarlierAttached(t, s', p, s.lastModule.value, files, i);
        }
      }
    }
  }

  lemma EarlierAttached(t: State, s': State, p: Handle, m: LastModule, files: seq<(string, FileBatch)>, i: nat)
    requires i < |files| - 1 && FileAttached(t, p, m, files[..|files| - 1], i)
    requires forall a :: !SiteAmong(p, files[|files| - 1].1.sites, a) && a in t.conditionSiteMap ==>
      a in s'.conditionSiteMap && s'.conditionSiteMap[a] == t.conditionSiteMap[a]
    requires forall c :: c in t.conditions ==> c in s'.conditions
    ensures FileAttached(s', p, m, files, i)
  {
    hide SiteAttached, SiteAmong;
    var n := |files| - 1;
    var file := FileKey(m.name, files[i].0);
    forall site | site in files[i].1.sites && !LaterAmong(p, files, i, Address(p, site.siteAddress))
      ensures SiteAttached(s', p, file, m.baseOfImage, site)
    {
      var a := Address(p, site.siteAddress);
      forall j | i < j < n ensures !SiteAmong(p, files[..n][j].1.sites, a) {
        assert files[..n][j] == files[j];
      }
      assert !SiteAmong(p, files[n].1.sites, a);
      assert files[..n][i] == files[i] && SiteAttached(t, p, file, m.baseOfImage, site);
      StaysAttached(t, s', p, file, m.baseOfImage, site);
    }
  }

  /** The batches of registration have unique site addresses. */
  lemma {:induction false} BatchesUnique(base: nat, branch: bool, files: seq<SourceFile>, batches: seq<(string, FileBatch)>)
    requires BatchesOf(base, branch, files, batches)
    ensures AllUnique(batches)
    ensures forall i :: 0 <= i < |batches| ==> NumberedInOrder(batches[i].1.sites)
  {
    hide UniqueAddresses, NumberedInOrder, BatchOf;
    if files != [] {
      var n, k := |files| - 1, |batches| - 1;
      if files[n].selected {
        BatchesUnique(base, branch, files[..n], batches[..k]);
        assert forall i :: 0 <= i < k ==> batches[..k][i] == batches[i];
      } else {
        BatchesUnique(base, branch, files[..n], batches);
      }
    }
  }

  /**
   After the registration of a module every site that registration found for a file
   has its own targets and its own condition record, unless a later file of the
   module claims the same address.
   */
  lemma SitesOfModule(trap: Instruction, branch: bool, p: Handle, base: nat, name: string, files: seq<SourceFile>,
                      batches: seq<(string, FileBatch)>, s: State, m: Mem, s': State, m': Mem)
    requires BatchesOf(base, branch, files, batches)
    requires FilesRegistered(trap, p, batches, ModuleAdded(s, name, base), m, s', m')
    ensures FilesAttached(s', p, LastModule(name, base), batches)
    ensures forall k :: 0 <= k < |batches| ==> NumberedInOrder(batches[k].1.sites)
  {
    hide FilesRegistered, BatchesOf, FilesAttached, AllUnique;
    BatchesUnique(base, branch, files, batches);
    FilesAttach(trap, p, batches, ModuleAdded(s, name, base), m, s', m');
  }

  /** The batch that registration builds fits the module. */
  lemma BatchFitsModule(trap: Instruction, proc: Process, base: nat, starts: set<nat>, lines: seq<SourceLine>, batch: FileBatch)
    requires base in proc.modules && starts <= proc.starts && starts <= proc.modules[base]
    requires SitesOfLines(base, lines, batch.sites) && BatchOf(base, lines, batch.sites, batch.addresses, batch.linesAt)
    requires BatchOnBoundaries(trap, proc, starts, batch)
    ensures FileFits(trap, proc, base, starts, batch)
  {
    hide Holds, Mapped;
    BatchOfMatches(base, lines, batch.sites, batch.addresses, batch.linesAt);
    SitesInBatch(base, lines, batch, batch.sites);
    hide BatchOf, SitesOfLines;
    forall site | site in batch.sites ensures exists a :: a in batch.linesAt && site.lineNumber in batch.linesAt[a] {
      var a :| Listed(batch.linesAt, a, site.lineNumber);
    }
  }

  lemma {:induction false} BatchesFit(trap: Instruction, branch: bool, proc: Process, base: nat, starts: set<nat>,
                                      files: seq<SourceFile>, batches: seq<(string, FileBatch)>)
    requires base in proc.modules && starts <= proc.starts && starts <= proc.modules[base]
    requires BatchesOf(base, branch, files, batches) && OnBoundaries(trap, proc, starts, batches)
    ensures FilesFit(trap, proc, base, starts, batches)
  {
    hide SitesOfLines, BatchOf, BatchOnBoundaries, FileFits;
    if files != [] {
      var n, file := |files| - 1, files[|files| - 1];
      if !file.selected {
        BatchesFit(trap, branch, proc, base, starts, files[..n], batches);
      } else {
        var k := |batches| - 1;
        BatchesFit(trap, branch, proc, base, starts, files[..n], batches[..k]);
        BatchFitsModule(trap, proc, base, starts, file.lines, batches[k].1);
        forall i | 0 <= i < |batches| ensures FileFits(trap, proc, base, starts, batches[i].1) {
          assert i < k ==> batches[..k][i] == batches[i];
        }
      }
    }
  }

  /** Batches on boundaries keep their addresses apart, as planting demands. */
  lemma BatchesApart(cpu: Cpu, trap: Instruction, proc: Process, starts: set<nat>, batches: seq<(string, FileBatch)>)
    requires ImageOk(cpu, |trap|, proc) && starts <= proc.starts && OnBoundaries(trap, proc, starts, batches)
    ensures AllApart(trap, batches)
  {
    hide ImageOk, Apart;
    forall i | 0 <= i < |batches| ensures Apart(|trap|, batches[i].1.addresses) {
      assert BatchOnBoundaries(trap, proc, starts, batches[i].1);
      BatchApart(cpu, trap, proc, batches[i].1.addresses);
    }
  }

  lemma {:induction false} FilesEffect(cpu: Cpu, trap: Instruction, p: Handle, proc: Process, region: set<nat>,
                                       files: seq<(string, FileBatch)>, s: State, m: Mem, s': State, m': Mem)
    requires ImageOk(cpu, |trap|, proc) && ProcessOk(trap, p, proc, s, m) && s.lastModule.Some?
    requires NoneIn(s, p, region)
    requires FilesFit(trap, proc, s.lastModule.value.baseOfImage, region, files)
    requires FilesRegistered(trap, p, files, s, m, s', m')
    ensures ProcessOk(trap, p, proc, s', m') && s'.lastModule == s.lastModule
    ensures LoadEffect(trap, p, region, s, m, s', m')
  {
    hide ImageOk, ProcessOk, FileRegistered, FileFits, RecordsKept, Valid, ConditionsHaveLines, IsPlanted, SameEntry;
    if files == [] {
      NoFiles(trap, p, proc, region, s, m);
    } else {
      var n := |files| - 1;
      var t: State, q: Mem :|
        && FilesRegistered(trap, p, files[..n], s, m, t, q)
        && t.lastModule == s.lastModule
        && FileRegistered(trap, p, files[n].0, files[n].1, t, q, s', m');
      assert FilesFit(trap, proc, s.lastModule.value.baseOfImage, region, files[..n]) by {
        assert forall i :: 0 <= i < n ==> files[..n][i] == files[i];
      }
      FilesEffect(cpu, trap, p, proc, region, files[..n], s, m, t, q);
      FileEffect(cpu, trap, p, proc, region, files[n].0, files[n].1, t, q, s', m');
      EffectsCompose(trap, p, region, s, m, t, q, s', m');
    }
  }

  lemma NoFiles(trap: Instruction, p: Handle, proc: Process, region: set<nat>, s: State, m: Mem)
    requires ProcessOk(trap, p, proc, s, m)
    ensures LoadEffect(trap, p, region, s, m, s, m)
  {
    forall a | Address(p, a) in s.addressLineMap ensures Mapped(m, a, |trap|) {
      EntryFacts(trap, p, proc, s, m, a);
    }
  }

  lemma EffectsCompose(trap: Instruction, p: Handle, region: set<nat>, s: State, m: Mem, t: State, q: Mem, s': State, m': Mem)
    requires NoneIn(s, p, region) && LoadEffect(trap, p, region, s, m, t, q)
    requires OthersUntouched(p, region, t, s') && RecordsKept(t, s') && NewPlanted(trap, p, t, s', m')
    requires forall a :: Address(p, a) in t.addressLineMap && IsPlanted(trap, q, a) ==> IsPlanted(trap, m', a)
    requires forall a :: Address(p, a) in t.addressLineMap && a !in region ==>
      Mapped(q, a, |trap|) && Mapped(m', a, |trap|) && Read(m', a, |trap|) == Read(q, a, |trap|)
    requires (Valid(t) ==> Valid(s')) && (ConditionsHaveLines(t) ==> ConditionsHaveLines(s'))
    ensures LoadEffect(trap, p, region, s, m, s', m')
  {
    hide Valid, ConditionsHaveLines, IsPlanted, Mapped, Read;
    forall a: Address | a.process != p || a.value !in region ensures SameEntry(s, s', a) && SameSite(s, s', a) {
      assert SameEntry(s, t, a) && SameSite(s, t, a) && SameEntry(t, s', a) && SameSite(t, s', a);
    }
    forall a | Address(p, a) in s.addressLineMap
      ensures Mapped(m, a, |trap|) && Mapped(m', a, |trap|) && Read(m', a, |trap|) == Read(m, a, |trap|)
    {
      assert SameEntry(s, t, Address(p, a));
    }
  }
}
