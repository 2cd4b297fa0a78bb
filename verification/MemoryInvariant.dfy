/**
 The memory invariant of one debuggee process: each code byte is original or
 belongs to a trap planted at a registered address, and each saved instruction
 is the original one, never the trap.
 */
module MemoryInvariant {
  import opened Common
  import opened Memory
  import opened Debuggees
  import opened BreakPoints
  import opened AddressManagers
  import opened SiteEnumerators
  import opened LineRegisters
  import opened NativeMachine

  /** A registered address: a boundary of its module, saved as the original, holding the original or the trap. */
  ghost predicate EntryOk(trap: Instruction, proc: Process, m: Mem, a: nat, line: Line) {
    && a in proc.starts && Mapped(proc.code, a, |trap|) && Mapped(m, a, |trap|)
    && line.instructionToRestore == Read(proc.code, a, |trap|) != trap
    && line.dllBaseOfImage in proc.modules && a in proc.modules[line.dllBaseOfImage]
    && (Read(m, a, |trap|) == trap || Read(m, a, |trap|) == line.instructionToRestore)
  }

  /** A branch site shares the entry and the module of its address. */
  ghost predicate SiteOk(s: State, a: Address)
    requires a in s.conditionSiteMap
  {
    a in s.addressLineMap && s.addressLineMap[a].dllBaseOfImage == s.conditionSiteMap[a].dllBaseOfImage
  }

  ghost predicate Covered(s: State, p: Handle, x: nat, w: nat) {
    exists a: nat :: Address(p, a) in s.addressLineMap && a <= x < a + w
  }

  ghost predicate ProcessOk(trap: Instruction, p: Handle, proc: Process, s: State, m: Mem) {
    && m.Keys == proc.code.Keys
    && (forall a :: Address(p, a) in s.addressLineMap ==> EntryOk(trap, proc, m, a, s.addressLineMap[Address(p, a)]))
    && (forall a :: Address(p, a) in s.conditionSiteMap ==> SiteOk(s, Address(p, a)))
    && (forall x :: x in m ==> m[x] == proc.code[x] || Covered(s, p, x, |trap|))
  }

  ghost predicate IsPlanted(trap: Instruction, m: Mem, a: nat) {
    Holds(m, a, trap)
  }

  /** Registered addresses of a process are one instruction apart. */
  lemma EntriesApart(cpu: Cpu, trap: Instruction, proc: Process, a: nat, b: nat)
    requires ImageOk(cpu, |trap|, proc) && a in proc.starts && b in proc.starts && a != b
    ensures a + |trap| <= b || b + |trap| <= a
  {
    assert StartOk(cpu, |trap|, proc.code, proc.starts, a) && StartOk(cpu, |trap|, proc.code, proc.starts, b);
  }

  /** A batch on instruction boundaries keeps its addresses apart, as planting demands. */
  lemma BatchApart(cpu: Cpu, trap: Instruction, proc: Process, addresses: seq<nat>)
    requires ImageOk(cpu, |trap|, proc) && forall a :: a in addresses ==> a in proc.starts
    ensures Apart(|trap|, addresses)
  {
    forall i | 0 <= i < |addresses| ensures Clear(addresses[i], addresses, |trap|) {
      forall j | 0 <= j < |addresses|
        ensures addresses[j] == addresses[i] || addresses[i] + |trap| <= addresses[j] || addresses[j] + |trap| <= addresses[i]
      {
        if addresses[i] != addresses[j] {
          EntriesApart(cpu, trap, proc, addresses[i], addresses[j]);
        }
      }
    }
  }

  // ----- Fetching ---------------------------------------------------------------------

  /** At a boundary the processor fetches either a planted trap or exactly the original instruction. */
  lemma FetchOriginalOrTrap(cpu: Cpu, trap: Instruction, p: Handle, proc: Process, s: State, m: Mem, pc: nat)
    requires CpuOk(cpu, trap) && ImageOk(cpu, |trap|, proc) && ProcessOk(trap, p, proc, s, m) && pc in proc.starts
    ensures cpu.fetch(proc.code, pc).Some?
    ensures if Address(p, pc) in s.addressLineMap && IsPlanted(trap, m, pc) then cpu.fetch(m, pc) == Some(trap)
            else cpu.fetch(m, pc) == cpu.fetch(proc.code, pc)
    ensures Address(p, pc) in s.addressLineMap ==> cpu.fetch(proc.code, pc) != Some(trap)
  {
    assert StartOk(cpu, |trap|, proc.code, proc.starts, pc);
    StartMapped(cpu, trap, proc.code, proc.starts, pc);
    if Address(p, pc) in s.addressLineMap {
      EntryNotTrap(cpu, trap, p, proc, s, m, pc);
    }
    if !(Address(p, pc) in s.addressLineMap && IsPlanted(trap, m, pc)) {
      forall x: nat | pc <= x < pc + Length(cpu, proc.code, pc) ensures m[x] == proc.code[x] {
        if Covered(s, p, x, |trap|) {
          CoveredByOwnStart(cpu, trap, p, proc, s, m, pc, x);
        }
      }
      FetchSub(cpu, trap, proc.code, m, pc);
    }
  }

  lemma EntryNotTrap(cpu: Cpu, trap: Instruction, p: Handle, proc: Process, s: State, m: Mem, a: nat)
    requires CpuOk(cpu, trap) && ProcessOk(trap, p, proc, s, m) && Address(p, a) in s.addressLineMap
    ensures cpu.fetch(proc.code, a) != Some(trap)
  {
    assert EntryOk(trap, proc, m, a, s.addressLineMap[Address(p, a)]);
    assert cpu.fetch(proc.code, a).Some? ==> Holds(proc.code, a, cpu.fetch(proc.code, a).value);
  }

  /** A covered byte of the instruction at pc is covered by pc itself, and is original when pc holds no trap. */
  lemma CoveredByOwnStart(cpu: Cpu, trap: Instruction, p: Handle, proc: Process, s: State, m: Mem, pc: nat, x: nat)
    requires CpuOk(cpu, trap) && ImageOk(cpu, |trap|, proc) && ProcessOk(trap, p, proc, s, m) && pc in proc.starts
    requires cpu.fetch(proc.code, pc).Some? && pc <= x < pc + Length(cpu, proc.code, pc) && x in m
    requires Covered(s, p, x, |trap|)
    requires !(Address(p, pc) in s.addressLineMap && IsPlanted(trap, m, pc))
    ensures m[x] == proc.code[x]
  {
    var a: nat :| Address(p, a) in s.addressLineMap && a <= x < a + |trap|;
    assert EntryOk(trap, proc, m, a, s.addressLineMap[Address(p, a)]);
    assert StartOk(cpu, |trap|, proc.code, proc.starts, pc) && StartOk(cpu, |trap|, proc.code, proc.starts, a);
    assert a == pc;
    ReadBytes(m, proc.code, pc, |trap|);
  }

  // ----- Writes of the handlers -----------------------------------------------------------

  /** Restoring or planting at a registered address keeps the invariant. */
  lemma WriteKeeps(cpu: Cpu, trap: Instruction, p: Handle, proc: Process, s: State, m: Mem, a: nat, bytes: Instruction)
    requires ImageOk(cpu, |trap|, proc) && ProcessOk(trap, p, proc, s, m) && Address(p, a) in s.addressLineMap
    requires bytes == trap || bytes == s.addressLineMap[Address(p, a)].instructionToRestore
    ensures Mapped(m, a, |bytes|) && |bytes| == |trap|
    ensures ProcessOk(trap, p, proc, s, Write(m, a, bytes))
    ensures Read(Write(m, a, bytes), a, |trap|) == bytes
    ensures forall b :: Address(p, b) in s.addressLineMap && b != a ==>
      Mapped(m, b, |trap|) && Read(Write(m, a, bytes), b, |trap|) == Read(m, b, |trap|)
  {
    assert EntryOk(trap, proc, m, a, s.addressLineMap[Address(p, a)]);
    var m' := Write(m, a, bytes);
    ReadWriteSame(m, a, bytes);
    forall b | Address(p, b) in s.addressLineMap
      ensures EntryOk(trap, proc, m', b, s.addressLineMap[Address(p, b)])
      ensures b != a ==> Mapped(m, b, |trap|) && Read(m', b, |trap|) == Read(m, b, |trap|)
    {
      assert EntryOk(trap, proc, m, b, s.addressLineMap[Address(p, b)]);
      if b != a {
        EntriesApart(cpu, trap, proc, a, b);
        ReadWriteApart(m, a, bytes, b, |trap|);
      }
    }
    forall x | x in m' ensures m'[x] == proc.code[x] || Covered(s, p, x, |trap|) {
      if a <= x < a + |bytes| {
        assert Covered(s, p, x, |trap|);
      }
    }
  }

  // ----- Loading and unloading ---------------------------------------------------------------

  lemma LoadedProcess(cpu: Cpu, trap: Instruction, p: Handle, proc: Process, s: State, m: Mem,
                      base: nat, image: Mem, starts: set<nat>)
    requires CpuOk(cpu, trap) && ProcessOk(trap, p, proc, s, m) && LoadOk(cpu, |trap|, proc, base, image, starts)
    ensures ProcessOk(trap, p, Loaded(proc, base, image, starts), s, m + image)
    ensures forall a :: Address(p, a) in s.addressLineMap ==>
      Mapped(m, a, |trap|) && Read(m + image, a, |trap|) == Read(m, a, |trap|)
  {
    var next := Loaded(proc, base, image, starts);
    forall a | Address(p, a) in s.addressLineMap
      ensures EntryOk(trap, next, m + image, a, s.addressLineMap[Address(p, a)])
      ensures Mapped(m, a, |trap|) && Read(m + image, a, |trap|) == Read(m, a, |trap|)
    {
      assert EntryOk(trap, proc, m, a, s.addressLineMap[Address(p, a)]);
      ReadBytes(m, m + image, a, |trap|);
      ReadBytes(proc.code, next.code, a, |trap|);
    }
  }

  lemma UnloadedProcess(cpu: Cpu, trap: Instruction, p: Handle, proc: Process, s: State, m: Mem, base: nat)
    requires CpuOk(cpu, trap) && ImageOk(cpu, |trap|, proc) && ProcessOk(trap, p, proc, s, m) && base in proc.modules
    ensures ProcessOk(trap, p, Unloaded(proc, base), Without(s, p, Some(base)), m - proc.modules[base])
    ensures forall a :: Address(p, a) in Without(s, p, Some(base)).addressLineMap ==>
      Mapped(m, a, |trap|) && Mapped(m - proc.modules[base], a, |trap|) &&
      Read(m - proc.modules[base], a, |trap|) == Read(m, a, |trap|)
  {
    var next, s', m' := Unloaded(proc, base), Without(s, p, Some(base)), m - proc.modules[base];
    UnloadedImage(cpu, trap, proc, base);
    forall a | Address(p, a) in s'.addressLineMap
      ensures EntryOk(trap, next, m', a, s'.addressLineMap[Address(p, a)])
      ensures Mapped(m, a, |trap|) && Mapped(m', a, |trap|) && Read(m', a, |trap|) == Read(m, a, |trap|)
    {
      assert EntryOk(trap, proc, m, a, s.addressLineMap[Address(p, a)]);
      assert proc.modules[s.addressLineMap[Address(p, a)].dllBaseOfImage] !! proc.modules[base];
      assert a in next.starts;
      assert StartOk(cpu, |trap|, proc.code, proc.starts, a);
      ReadBytes(m, m', a, |trap|);
      ReadBytes(proc.code, next.code, a, |trap|);
    }
    forall a | Address(p, a) in s'.conditionSiteMap ensures SiteOk(s', Address(p, a)) {
      assert SiteOk(s, Address(p, a));
    }
    forall x | x in m' ensures m'[x] == next.code[x] || Covered(s', p, x, |trap|) {
      if m[x] != proc.code[x] {
        assert Covered(s, p, x, |trap|);
        var a: nat :| Address(p, a) in s.addressLineMap && a <= x < a + |trap|;
        CoverSurvives(cpu, trap, p, proc, s, m, base, a, x);
      }
    }
  }

  lemma CoverSurvives(cpu: Cpu, trap: Instruction, p: Handle, proc: Process, s: State, m: Mem, base: nat, a: nat, x: nat)
    requires CpuOk(cpu, trap) && ImageOk(cpu, |trap|, proc) && ProcessOk(trap, p, proc, s, m) && base in proc.modules
    requires Address(p, a) in s.addressLineMap && a <= x < a + |trap| && x !in proc.modules[base]
    ensures Address(p, a) in Without(s, p, Some(base)).addressLineMap
  {
    assert EntryOk(trap, proc, m, a, s.addressLineMap[Address(p, a)]);
    assert OwnedStart(cpu, proc, a) && StartOk(cpu, |trap|, proc.code, proc.starts, a);
    var b :| b in proc.modules && Inside(a, Length(cpu, proc.code, a), proc.modules[b]);
    assert a in proc.modules[b] && x in proc.modules[b];
    var c := s.addressLineMap[Address(p, a)].dllBaseOfImage;
    assert a in proc.modules[c];
    assert b == c;
  }

  // ----- Registering source files -----------------------------------------------------------

  /** The batch lies on boundaries of the module, none of which holds a trap originally; sites are in the batch. */
  ghost predicate BatchFits(trap: Instruction, proc: Process, base: nat, batch: FileBatch) {
    && base in proc.modules
    && (forall a :: a in batch.linesAt ==>
          a in proc.starts && a in proc.modules[base] && Mapped(proc.code, a, |trap|) && !Holds(proc.code, a, trap))
    && (forall a :: a in batch.addresses <==> a in batch.linesAt)
    && (forall a :: a in batch.linesAt ==> batch.linesAt[a] != [])
    && (forall site :: site in batch.sites ==> site.siteAddress in batch.linesAt)
  }

  lemma UnregisteredIsOriginal(cpu: Cpu, trap: Instruction, p: Handle, proc: Process, s: State, m: Mem, a: nat)
    requires ImageOk(cpu, |trap|, proc) && ProcessOk(trap, p, proc, s, m) && a in proc.starts
    requires Mapped(proc.code, a, |trap|) && Address(p, a) !in s.addressLineMap
    ensures Mapped(m, a, |trap|) && Read(m, a, |trap|) == Read(proc.code, a, |trap|)
  {
    forall x: nat | a <= x < a + |trap| ensures m[x] == proc.code[x] {
      UnregisteredNotCovered(cpu, trap, p, proc, s, m, a, x);
    }
    ReadBytes(m, proc.code, a, |trap|);
  }

  lemma UnregisteredNotCovered(cpu: Cpu, trap: Instruction, p: Handle, proc: Process, s: State, m: Mem, a: nat, x: nat)
    requires ImageOk(cpu, |trap|, proc) && ProcessOk(trap, p, proc, s, m) && a in proc.starts
    requires Address(p, a) !in s.addressLineMap && a <= x < a + |trap|
    ensures !Covered(s, p, x, |trap|)
  {
    forall b: nat | Address(p, b) in s.addressLineMap ensures !(b <= x < b + |trap|) {
      assert EntryOk(trap, proc, m, b, s.addressLineMap[Address(p, b)]);
      EntriesApart(cpu, trap, proc, a, b);
    }
  }

  /** Planting and registering a fitting batch keeps every entry sound. */
  lemma BatchEntryOk(cpu: Cpu, trap: Instruction, p: Handle, proc: Process, path: string, batch: FileBatch,
                     s: State, m: Mem, s': State, m': Mem, a: nat)
    requires ImageOk(cpu, |trap|, proc) && ProcessOk(trap, p, proc, s, m) && s.lastModule.Some?
    requires BatchFits(trap, proc, s.lastModule.value.baseOfImage, batch)
    requires BatchRegistered(trap, p, FileOf(s, path), batch.addresses, batch.linesAt, s, m, s', m')
    requires Address(p, a) in s'.addressLineMap
    ensures EntryOk(trap, proc, m', a, s'.addressLineMap[Address(p, a)])
    ensures a in batch.linesAt && Address(p, a) !in s.addressLineMap ==> IsPlanted(trap, m', a)
    ensures Address(p, a) in s.addressLineMap && IsPlanted(trap, m, a) ==> IsPlanted(trap, m', a)
  {
    if a in batch.linesAt {
      hide BytesKept, FlagsAdded, OthersKept;
      assert PlaceRegistered(trap, p, FileOf(s, path), batch.linesAt, a, s, m, s', m');
      if Address(p, a) in s.addressLineMap {
        assert EntryOk(trap, proc, m, a, s.addressLineMap[Address(p, a)]);
      } else {
        UnregisteredIsOriginal(cpu, trap, p, proc, s, m, a);
      }
    } else {
      hide PlaceRegistered, FlagsAdded;
      assert SameEntry(s, s', Address(p, a));
      assert EntryOk(trap, proc, m, a, s.addressLineMap[Address(p, a)]);
      BatchReadElsewhere(cpu, trap, proc, batch, m, m', a);
    }
  }

  lemma BatchReadElsewhere(cpu: Cpu, trap: Instruction, proc: Process, batch: FileBatch, m: Mem, m': Mem, a: nat)
    requires ImageOk(cpu, |trap|, proc) && a in proc.starts && Mapped(m, a, |trap|)
    requires forall b :: b in batch.addresses ==> b in proc.starts && b != a
    requires BytesKept(|trap|, batch.addresses, m, m')
    ensures Mapped(m', a, |trap|) && Read(m', a, |trap|) == Read(m, a, |trap|)
  {
    forall x: nat | a <= x < a + |trap| ensures m'[x] == m[x] {
      forall i | 0 <= i < |batch.addresses| ensures x < batch.addresses[i] || batch.addresses[i] + |trap| <= x {
        EntriesApart(cpu, trap, proc, a, batch.addresses[i]);
      }
    }
    ReadBytes(m, m', a, |trap|);
  }

  lemma BatchKeeps(cpu: Cpu, trap: Instruction, p: Handle, proc: Process, path: string, batch: FileBatch,
                   s: State, m: Mem, s': State, m': Mem)
    requires ImageOk(cpu, |trap|, proc) && ProcessOk(trap, p, proc, s, m) && s.lastModule.Some?
    requires BatchFits(trap, proc, s.lastModule.value.baseOfImage, batch)
    requires BatchRegistered(trap, p, FileOf(s, path), batch.addresses, batch.linesAt, s, m, s', m')
    ensures ProcessOk(trap, p, proc, s', m')
  {
    forall a | Address(p, a) in s'.addressLineMap ensures EntryOk(trap, proc, m', a, s'.addressLineMap[Address(p, a)]) {
      BatchEntryOk(cpu, trap, p, proc, path, batch, s, m, s', m', a);
    }
    forall a | Address(p, a) in s'.conditionSiteMap ensures SiteOk(s', Address(p, a)) {
      assert SiteOk(s, Address(p, a));
      BatchSameBase(trap, p, path, batch, s, m, s', m', Address(p, a));
    }
    forall x | x in m' ensures m'[x] == proc.code[x] || Covered(s', p, x, |trap|) {
      BatchByte(trap, p, proc, path, batch, s, m, s', m', x);
    }
  }

  lemma BatchByte(trap: Instruction, p: Handle, proc: Process, path: string, batch: FileBatch,
                  s: State, m: Mem, s': State, m': Mem, x: nat)
    requires ProcessOk(trap, p, proc, s, m) && s.lastModule.Some?
    requires BatchFits(trap, proc, s.lastModule.value.baseOfImage, batch)
    requires BatchRegistered(trap, p, FileOf(s, path), batch.addresses, batch.linesAt, s, m, s', m')
    requires x in m'
    ensures m'[x] == proc.code[x] || Covered(s', p, x, |trap|)
  {
    hide PlaceAfter, EntryOk, FlagsAdded;
    if Outside(x, batch.addresses, |trap|) {
      if Covered(s, p, x, |trap|) {
        var a: nat :| Address(p, a) in s.addressLineMap && a <= x < a + |trap|;
        BatchSameBase(trap, p, path, batch, s, m, s', m', Address(p, a));
      }
    } else {
      var i :| 0 <= i < |batch.addresses| && batch.addresses[i] <= x < batch.addresses[i] + |trap|;
      PlaceKnown(trap, p, FileOf(s, path), batch.linesAt, batch.addresses[i], s, m, s', m');
    }
  }

  lemma PlaceKnown(trap: Instruction, p: Handle, file: FileKey, linesAt: LinesByAddress, a: nat,
                   s: State, m: Mem, s': State, m': Mem)
    requires s.lastModule.Some? && a in linesAt
    requires PlaceRegistered(trap, p, file, linesAt, a, s, m, s', m') && linesAt[a] != []
    ensures Address(p, a) in s'.addressLineMap
  {
  }

  /** An address known before a batch is known after it, with the same instruction and base. */
  lemma BatchSameBase(trap: Instruction, p: Handle, path: string, batch: FileBatch, s: State, m: Mem, s': State, m': Mem,
                      a: Address)
    requires s.lastModule.Some? && a in s.addressLineMap
    requires BatchRegistered(trap, p, FileOf(s, path), batch.addresses, batch.linesAt, s, m, s', m')
    ensures a in s'.addressLineMap
    ensures s'.addressLineMap[a].dllBaseOfImage == s.addressLineMap[a].dllBaseOfImage
    ensures s'.addressLineMap[a].instructionToRestore == s.addressLineMap[a].instructionToRestore
    ensures forall k :: k in s.addressLineMap[a].hasBeenExecuted ==> k in s'.addressLineMap[a].hasBeenExecuted
  {
    if a.process == p && a.value in batch.linesAt {
      assert PlaceRegistered(trap, p, FileOf(s, path), batch.linesAt, a.value, s, m, s', m');
      assert Address(p, a.value) == a;
    } else {
      assert SameEntry(s, s', a);
    }
  }

  /** Attaching sites to registered addresses of the module keeps the invariant. */
  lemma {:induction false} SitesKeep(cpu: Cpu, trap: Instruction, p: Handle, proc: Process, path: string, base: nat,
                                     sites: seq<ConditionSite>, s: State, m: Mem)
    requires ImageOk(cpu, |trap|, proc) && ProcessOk(trap, p, proc, s, m)
    requires s.lastModule.Some? && s.lastModule.value.baseOfImage == base && base in proc.modules
    requires forall site :: site in sites ==>
      Address(p, site.siteAddress) in s.addressLineMap && site.siteAddress in proc.modules[base]
    ensures var s' := RegisterSites(s, p, path, sites);
      && s'.addressLineMap == s.addressLineMap && s'.lines == s.lines && s'.modules == s.modules
      && ProcessOk(trap, p, proc, s', m)
      && (forall a: Address :: a in s'.conditionSiteMap ==>
            a in s.conditionSiteMap || (a.process == p && exists site :: site in sites && site.siteAddress == a.value))
      && (forall a: Address :: a.process != p && a in s.conditionSiteMap ==>
            a in s'.conditionSiteMap && s'.conditionSiteMap[a] == s.conditionSiteMap[a])
  {
    if sites != [] {
      var n := |sites| - 1;
      var init, last := sites[..n], sites[n];
      SitesKeep(cpu, trap, p, proc, path, base, init, s, m);
      var q := RegisterSites(s, p, path, init);
      var s' := RegisterSites(s, p, path, sites);
      assert sites == init + [last];
      assert forall site :: site in sites <==> site in init || site == last;
      var a := Address(p, last.siteAddress);
      assert EntryOk(trap, proc, m, a.value, s.addressLineMap[a]);
      var b := s.addressLineMap[a].dllBaseOfImage;
      assert b == base;
      forall c | Address(p, c) in s'.conditionSiteMap ensures SiteOk(s', Address(p, c)) {
        if c != a.value {
          assert SiteOk(q, Address(p, c));
        }
      }
      assert forall x :: Covered(s', p, x, |trap|) <==> Covered(q, p, x, |trap|);
    }
  }
}
