/** CppCoverage/BreakPoint.cpp: batched planting of traps, removal and rewind. */
module BreakPoints {
  import opened Common
  import opened Memory
  import opened Debuggees

  type SavedInstruction = (Instruction, nat)

  const RANGE_LIMIT: nat := 4096

  // ----- Sorting and chunking ---------------------------------------------

  ghost predicate Sorted(s: seq<nat>) {
    forall i, j :: 0 <= i < j < |s| ==> s[i] <= s[j]
  }

  function Insert(x: nat, s: seq<nat>): (r: seq<nat>)
    ensures multiset(r) == multiset(s) + multiset{x}
  {
    if s == [] || x <= s[0] then
      [x] + s
    else
      assert s == [s[0]] + s[1..];
      [s[0]] + Insert(x, s[1..])
  }

  lemma {:induction false} InsertSorted(x: nat, s: seq<nat>)
    requires Sorted(s)
    ensures Sorted(Insert(x, s))
  {
    if s != [] && x > s[0] {
      InsertSorted(x, s[1..]);
      var t := Insert(x, s[1..]);
      forall i | 0 <= i < |t| ensures s[0] <= t[i] {
        assert t[i] in multiset(t);
        assert t[i] == x || t[i] in s[1..];
      }
    }
  }

  /** `std::sort` on addresses. */
  function Sort(s: seq<nat>): (r: seq<nat>)
    ensures Sorted(r) && multiset(r) == multiset(s)
  {
    if s == [] then
      []
    else
      assert s == [s[0]] + s[1..];
      InsertSorted(s[0], Sort(s[1..]));
      Insert(s[0], Sort(s[1..]))
  }

  /** The end of the chunk that starts at `begin`, when all positions before i are known to belong to it. */
  function ChunkEnd(s: seq<nat>, begin: nat, i: nat): (e: nat)
    requires begin < i <= |s|
    ensures i <= e <= |s|
    ensures forall j :: i <= j < e ==> s[j] - s[begin] <= RANGE_LIMIT
    ensures e < |s| ==> s[e] - s[begin] > RANGE_LIMIT
    decreases |s| - i
  {
    if i == |s| || s[i] - s[begin] > RANGE_LIMIT then i else ChunkEnd(s, begin, i + 1)
  }

  /** The greedy split into chunks of a sorted list from a position on. */
  function Chunks(s: seq<nat>, begin: nat): (chunks: seq<seq<nat>>)
    requires begin <= |s|
    decreases |s| - begin
  {
    if begin == |s| then [] else
    var e := ChunkEnd(s, begin, begin + 1);
    [s[begin..e]] + Chunks(s, e)
  }

  function Flatten(chunks: seq<seq<nat>>): seq<nat> {
    if chunks == [] then [] else chunks[0] + Flatten(chunks[1..])
  }

  lemma {:induction false} FlattenAppend(chunks: seq<seq<nat>>, chunk: seq<nat>)
    ensures Flatten(chunks + [chunk]) == Flatten(chunks) + chunk
  {
    if chunks != [] {
      assert (chunks + [chunk])[1..] == chunks[1..] + [chunk];
      FlattenAppend(chunks[1..], chunk);
    }
  }

  /** The chunks partition the sorted list, in order; each is nonempty and spans at most 4096 bytes. */
  lemma {:induction false} ChunksPartition(s: seq<nat>, begin: nat)
    requires Sorted(s) && begin <= |s|
    ensures Flatten(Chunks(s, begin)) == s[begin..]
    ensures forall c :: c in Chunks(s, begin) ==> c != [] && Sorted(c) && c[|c| - 1] - c[0] <= 4096
    decreases |s| - begin
  {
    if begin < |s| {
      var e := ChunkEnd(s, begin, begin + 1);
      ChunksPartition(s, e);
      assert s[begin..] == s[begin..e] + s[e..];
      FirstChunk(s, begin);
      hide Sorted;
      assert Chunks(s, begin)[1..] == Chunks(s, e);
    }
  }

  lemma FirstChunk(s: seq<nat>, begin: nat)
    requires Sorted(s) && begin < |s|
    ensures var c := s[begin..ChunkEnd(s, begin, begin + 1)];
      c != [] && Sorted(c) && c[|c| - 1] - c[0] <= 4096
  {
  }

  /** No chunk could have been longer: the next chunk starts beyond its limit. */
  lemma {:induction false} ChunksMaximal(s: seq<nat>, begin: nat, k: nat)
    requires Sorted(s) && begin <= |s| && k + 1 < |Chunks(s, begin)|
    ensures Chunks(s, begin)[k] != [] && Chunks(s, begin)[k + 1] != []
    ensures Chunks(s, begin)[k + 1][0] > Chunks(s, begin)[k][0] + 4096
    decreases |s| - begin
  {
    var e := ChunkEnd(s, begin, begin + 1);
    if k > 0 {
      ChunksMaximal(s, e, k - 1);
    }
  }

  // ----- One address at a time: the specification ----------------------------

  ghost predicate AllMapped(m: Mem, addresses: seq<nat>, w: nat) {
    forall i :: 0 <= i < |addresses| ==> Mapped(m, addresses[i], w)
  }

  /** A memory and the instructions that the planted traps replaced. */
  datatype Planted = Planted(memory: Mem, saved: seq<SavedInstruction>)

  ghost function PlantOne(trap: Instruction, before: Planted, a: nat): (after: Planted)
    requires Mapped(before.memory, a, |trap|)
    ensures after.memory.Keys == before.memory.Keys
  {
    Planted(Write(before.memory, a, trap), before.saved + [(Read(before.memory, a, |trap|), a)])
  }

  /** Plants one address after the other, saving what each write replaces. */
  ghost function Plant(trap: Instruction, m: Mem, addresses: seq<nat>): (r: Planted)
    requires AllMapped(m, addresses, |trap|)
    ensures r.memory.Keys == m.Keys && |r.saved| == |addresses|
  {
    if addresses == [] then
      Planted(m, [])
    else
      var n := |addresses| - 1;
      PlantOne(trap, Plant(trap, m, addresses[..n]), addresses[n])
  }

  lemma PlantSnoc(trap: Instruction, m: Mem, addresses: seq<nat>, a: nat)
    requires AllMapped(m, addresses, |trap|) && Mapped(m, a, |trap|)
    ensures AllMapped(m, addresses + [a], |trap|)
    ensures Plant(trap, m, addresses + [a]) == PlantOne(trap, Plant(trap, m, addresses), a)
  {
    assert (addresses + [a])[..|addresses|] == addresses;
  }

  /** Instruction a overlaps no given instruction but itself. */
  ghost predicate Clear(a: nat, addresses: seq<nat>, w: nat) {
    forall i :: 0 <= i < |addresses| ==> addresses[i] == a || a + w <= addresses[i] || addresses[i] + w <= a
  }

  /** Distinct given addresses are at least one instruction apart. */
  ghost predicate Apart(w: nat, addresses: seq<nat>) {
    forall i :: 0 <= i < |addresses| ==> Clear(addresses[i], addresses, w)
  }

  ghost predicate Outside(x: nat, addresses: seq<nat>, w: nat) {
    forall i :: 0 <= i < |addresses| ==> x < addresses[i] || addresses[i] + w <= x
  }

  /** Planting changes no byte outside the planted instructions. */
  lemma {:induction false} PlantUntouched(trap: Instruction, m: Mem, addresses: seq<nat>, x: nat)
    requires AllMapped(m, addresses, |trap|)
    requires x in m && Outside(x, addresses, |trap|)
    ensures Plant(trap, m, addresses).memory[x] == m[x]
  {
    if addresses != [] {
      PlantUntouched(trap, m, addresses[..|addresses| - 1], x);
    }
  }

  lemma PlantUntouchedRead(trap: Instruction, m: Mem, addresses: seq<nat>, a: nat)
    requires AllMapped(m, addresses, |trap|) && Mapped(m, a, |trap|)
    requires Clear(a, addresses, |trap|) && a !in addresses
    ensures Read(Plant(trap, m, addresses).memory, a, |trap|) == Read(m, a, |trap|)
  {
    forall x: nat | a <= x < a + |trap| ensures Plant(trap, m, addresses).memory[x] == m[x] {
      PlantUntouched(trap, m, addresses, x);
    }
    ReadBytes(Plant(trap, m, addresses).memory, m, a, |trap|);
  }

  /** An instruction is saved as it reads after the plants before it. */
  lemma {:induction false} SavedAtItsTurn(trap: Instruction, m: Mem, addresses: seq<nat>, i: nat)
    requires AllMapped(m, addresses, |trap|) && i < |addresses|
    ensures Plant(trap, m, addresses).saved[i] ==
            (Read(Plant(trap, m, addresses[..i]).memory, addresses[i], |trap|), addresses[i])
  {
    var n := |addresses| - 1;
    if i < n {
      SavedAtItsTurn(trap, m, addresses[..n], i);
      assert addresses[..n][..i] == addresses[..i];
    }
  }

  /** Every planted address holds the trap afterwards. */
  lemma {:induction false} PlantedReadsTrap(trap: Instruction, m: Mem, addresses: seq<nat>, a: nat)
    requires AllMapped(m, addresses, |trap|) && Clear(a, addresses, |trap|) && a in addresses
    ensures Mapped(m, a, |trap|)
    ensures Read(Plant(trap, m, addresses).memory, a, |trap|) == trap
  {
    var n := |addresses| - 1;
    var now := Plant(trap, m, addresses[..n]).memory;
    if a == addresses[n] {
      ReadWriteSame(now, a, trap);
    } else {
      PlantedReadsTrap(trap, m, addresses[..n], a);
      ReadWriteApart(now, addresses[n], trap, a, |trap|);
    }
  }

  /** The first save of an address is its original instruction; a later save of it is the trap. */
  lemma PlantMeaning(trap: Instruction, m: Mem, addresses: seq<nat>, i: nat)
    requires AllMapped(m, addresses, |trap|) && i < |addresses| && Clear(addresses[i], addresses, |trap|)
    ensures Plant(trap, m, addresses).saved[i] ==
            (if addresses[i] in addresses[..i] then trap else Read(m, addresses[i], |trap|), addresses[i])
  {
    SavedAtItsTurn(trap, m, addresses, i);
    if addresses[i] in addresses[..i] {
      PlantedReadsTrap(trap, m, addresses[..i], addresses[i]);
    } else {
      PlantUntouchedRead(trap, m, addresses[..i], addresses[i]);
    }
  }

  lemma MappedParts(m: Mem, xs: seq<nat>, ys: seq<nat>, w: nat)
    ensures AllMapped(m, xs + ys, w) <==> AllMapped(m, xs, w) && AllMapped(m, ys, w)
  {
    if AllMapped(m, xs + ys, w) {
      forall i | 0 <= i < |xs| ensures Mapped(m, xs[i], w) {
        assert (xs + ys)[i] == xs[i];
      }
      forall i | 0 <= i < |ys| ensures Mapped(m, ys[i], w) {
        assert (xs + ys)[|xs| + i] == ys[i];
      }
    }
  }

  lemma MappedOne(m: Mem, a: nat, w: nat)
    ensures AllMapped(m, [a], w) <==> Mapped(m, a, w)
  {
    assert [a][0] == a;
  }

  lemma SameKeysMapped(m: Mem, m': Mem, addresses: seq<nat>, a: nat, n: nat, w: nat)
    requires m.Keys == m'.Keys
    ensures (AllMapped(m, addresses, w) <==> AllMapped(m', addresses, w)) && (Mapped(m, a, n) <==> Mapped(m', a, n))
  {
  }

  lemma {:induction false} PlantConcat(trap: Instruction, m: Mem, xs: seq<nat>, ys: seq<nat>)
    requires AllMapped(m, xs, |trap|) && AllMapped(m, ys, |trap|)
    ensures AllMapped(m, xs + ys, |trap|)
    ensures Plant(trap, m, xs + ys).memory == Plant(trap, Plant(trap, m, xs).memory, ys).memory
    ensures Plant(trap, m, xs + ys).saved == Plant(trap, m, xs).saved + Plant(trap, Plant(trap, m, xs).memory, ys).saved
  {
    hide AllMapped, Mapped, Plant, PlantOne;
    MappedParts(m, xs, ys, |trap|);
    SameKeysMapped(m, Plant(trap, m, xs).memory, ys, 0, 0, |trap|);
    var middle := Plant(trap, m, xs).memory;
    if ys == [] {
      assert xs + ys == xs;
      PlantNothing(trap, middle);
    } else {
      var n := |ys| - 1;
      assert ys == ys[..n] + [ys[n]];
      MappedParts(m, ys[..n], [ys[n]], |trap|);
      MappedOne(m, ys[n], |trap|);
      SameKeysMapped(m, middle, ys[..n], ys[n], |trap|, |trap|);
      PlantConcat(trap, m, xs, ys[..n]);
      assert xs + ys == (xs + ys[..n]) + [ys[n]];
      PlantSnoc(trap, m, xs + ys[..n], ys[n]);
      PlantSnoc(trap, middle, ys[..n], ys[n]);
      SameKeysMapped(m, Plant(trap, middle, ys[..n]).memory, [], ys[n], |trap|, |trap|);
      SavedAfterOne(trap, Plant(trap, m, xs + ys[..n]), Plant(trap, middle, ys[..n]), Plant(trap, m, xs).saved, ys[n]);
    }
  }

  lemma PlantNothing(trap: Instruction, m: Mem)
    ensures Plant(trap, m, []) == Planted(m, [])
  {
  }

  lemma SavedAfterOne(trap: Instruction, whole: Planted, part: Planted, earlier: seq<SavedInstruction>, a: nat)
    requires whole.memory == part.memory && whole.saved == earlier + part.saved && Mapped(part.memory, a, |trap|)
    ensures PlantOne(trap, whole, a).memory == PlantOne(trap, part, a).memory
    ensures PlantOne(trap, whole, a).saved == earlier + PlantOne(trap, part, a).saved
  {
    var one := (Read(part.memory, a, |trap|), a);
    assert (earlier + part.saved) + [one] == earlier + (part.saved + [one]);
  }

  // ----- The source's batched form --------------------------------------------

  ghost predicate ChunkMapped(m: Mem, chunk: seq<nat>, w: nat) {
    chunk != [] ==> chunk[0] <= chunk[|chunk| - 1] && Mapped(m, chunk[0], chunk[|chunk| - 1] - chunk[0] + w)
  }

  lemma ChunkMappedAll(m: Mem, chunk: seq<nat>, w: nat)
    requires Sorted(chunk) && ChunkMapped(m, chunk, w)
    ensures AllMapped(m, chunk, w)
  {
    forall i | 0 <= i < |chunk| ensures Mapped(m, chunk[i], w) {
      assert chunk[0] <= chunk[i] <= chunk[|chunk| - 1];
    }
  }

  /** The given chunks, in order, were all readable and are planted. */
  ghost predicate PlantedChunks(trap: Instruction, m: Mem, done: seq<seq<nat>>, after: Planted) {
    && (forall c :: c in done ==> ChunkMapped(m, c, |trap|))
    && AllMapped(m, Flatten(done), |trap|)
    && after == Plant(trap, m, Flatten(done))
  }

  lemma SameKeysChunk(m: Mem, m': Mem, chunk: seq<nat>, w: nat)
    requires m.Keys == m'.Keys
    ensures ChunkMapped(m, chunk, w) <==> ChunkMapped(m', chunk, w)
  {
  }

  lemma PlantedOneMore(trap: Instruction, m: Mem, done: seq<seq<nat>>, now: Planted, chunk: seq<nat>)
    requires PlantedChunks(trap, m, done, now)
    requires ChunkMapped(now.memory, chunk, |trap|) && AllMapped(now.memory, chunk, |trap|)
    ensures var after := Plant(trap, now.memory, chunk);
      PlantedChunks(trap, m, done + [chunk], Planted(after.memory, now.saved + after.saved))
  {
    hide Plant, Flatten, AllMapped, Mapped, ChunkMapped;
    FlattenAppend(done, chunk);
    SameKeysMapped(m, now.memory, chunk, 0, 0, |trap|);
    SameKeysChunk(m, now.memory, chunk, |trap|);
    PlantConcat(trap, m, Flatten(done), chunk);
  }

  /** The effect of `SetBreakPoints`: all chunks are planted, or exactly those before the first unreadable one. */
  ghost predicate Batched(trap: Instruction, m: Mem, addresses: seq<nat>, m': Mem, r: Result<seq<SavedInstruction>>) {
    var chunks := Chunks(Sort(addresses), 0);
    match r
    case Ok(saved) => PlantedChunks(trap, m, chunks, Planted(m', saved))
    case Throw => exists k :: Interrupted(trap, m, chunks, k, m')
  }

  ghost predicate Interrupted(trap: Instruction, m: Mem, chunks: seq<seq<nat>>, k: nat, m': Mem) {
    && k < |chunks|
    && !ChunkMapped(m, chunks[k], |trap|)
    && exists saved :: PlantedChunks(trap, m, chunks[..k], Planted(m', saved))
  }

  /** A completed batch equals planting the sorted addresses one at a time. */
  lemma BatchedIsPointwise(trap: Instruction, m: Mem, addresses: seq<nat>, m': Mem, saved: seq<SavedInstruction>)
    requires Batched(trap, m, addresses, m', Ok(saved))
    ensures AllMapped(m, Sort(addresses), |trap|)
    ensures Planted(m', saved) == Plant(trap, m, Sort(addresses))
  {
    ChunksPartition(Sort(addresses), 0);
  }

  /** The batch is done up to position `begin` of the sorted list, which starts a chunk. */
  ghost predicate BatchState(trap: Instruction, m: Mem, sorted: seq<nat>, begin: nat, now: Planted)
    requires begin <= |sorted|
  {
    exists done :: Chunks(sorted, 0) == done + Chunks(sorted, begin) && PlantedChunks(trap, m, done, now)
  }

  lemma BatchStart(trap: Instruction, m: Mem, sorted: seq<nat>)
    ensures BatchState(trap, m, sorted, 0, Planted(m, []))
  {
    assert Chunks(sorted, 0) == [] + Chunks(sorted, 0) && PlantedChunks(trap, m, [], Planted(m, []));
  }

  lemma BatchAdvance(trap: Instruction, m: Mem, sorted: seq<nat>, begin: nat, it: nat, now: Planted)
    requires begin < it <= |sorted| && ChunkEnd(sorted, begin, begin + 1) == it
    requires BatchState(trap, m, sorted, begin, now)
    requires ChunkMapped(now.memory, sorted[begin..it], |trap|) && AllMapped(now.memory, sorted[begin..it], |trap|)
    ensures var after := Plant(trap, now.memory, sorted[begin..it]);
      BatchState(trap, m, sorted, it, Planted(after.memory, now.saved + after.saved))
  {
    hide PlantedChunks, ChunkMapped, AllMapped, Plant;
    var done :| Chunks(sorted, 0) == done + Chunks(sorted, begin) && PlantedChunks(trap, m, done, now);
    PlantedOneMore(trap, m, done, now, sorted[begin..it]);
    assert Chunks(sorted, 0) == (done + [sorted[begin..it]]) + Chunks(sorted, it);
  }

  lemma BatchInterrupt(trap: Instruction, m: Mem, sorted: seq<nat>, begin: nat, it: nat, now: Planted)
    requires begin < it <= |sorted| && ChunkEnd(sorted, begin, begin + 1) == it
    requires BatchState(trap, m, sorted, begin, now)
    requires !ChunkMapped(now.memory, sorted[begin..it], |trap|)
    ensures exists k :: Interrupted(trap, m, Chunks(sorted, 0), k, now.memory)
  {
    hide AllMapped, Plant, Flatten;
    var done :| Chunks(sorted, 0) == done + Chunks(sorted, begin) && PlantedChunks(trap, m, done, now);
    assert Chunks(sorted, 0)[..|done|] == done && Chunks(sorted, 0)[|done|] == sorted[begin..it];
    assert Interrupted(trap, m, Chunks(sorted, 0), |done|, now.memory);
  }

  lemma BatchComplete(trap: Instruction, m: Mem, sorted: seq<nat>, now: Planted)
    requires BatchState(trap, m, sorted, |sorted|, now)
    ensures PlantedChunks(trap, m, Chunks(sorted, 0), now)
  {
    var done :| Chunks(sorted, 0) == done + Chunks(sorted, |sorted|) && PlantedChunks(trap, m, done, now);
    assert done == Chunks(sorted, 0);
  }

  lemma ReadAfterPatch(trap: Instruction, m: Mem, first: nat, size: nat, a: nat)
    requires Mapped(m, first, size) && first <= a && a + |trap| <= first + size
    ensures var index := a - first;
      var buffer := Read(m, first, size);
      && buffer[index..index + |trap|] == Read(m, a, |trap|)
      && buffer[..index] + trap + buffer[index + |trap|..] == Read(Write(m, a, trap), first, size)
  {
  }

  method CopyInto(buffer: array<Byte>, index: nat, bytes: seq<Byte>)
    requires index + |bytes| <= buffer.Length
    modifies buffer
    ensures buffer[..] == old(buffer[..][..index]) + bytes + old(buffer[..][index + |bytes|..])
  {
    forall i | 0 <= i < |bytes| {
      buffer[index + i] := bytes[i];
    }
  }

  lemma PatchStep(trap: Instruction, m: Mem, first: nat, size: nat, range: seq<nat>, i: nat)
    requires AllMapped(m, range, |trap|) && Mapped(m, first, size) && i < |range|
    requires first <= range[i] && range[i] + |trap| <= first + size
    ensures AllMapped(m, range[..i], |trap|) && AllMapped(m, range[..i + 1], |trap|)
    ensures var now, next := Plant(trap, m, range[..i]), Plant(trap, m, range[..i + 1]);
      var buffer, index := Read(now.memory, first, size), range[i] - first;
      && next.saved == now.saved + [(buffer[index..index + |trap|], range[i])]
      && Read(next.memory, first, size) == buffer[..index] + trap + buffer[index + |trap|..]
  {
    hide Plant, Read, Write, AllMapped, Mapped;
    assert range == range[..i + 1] + range[i + 1..];
    MappedParts(m, range[..i + 1], range[i + 1..], |trap|);
    assert range[..i + 1] == range[..i] + [range[i]];
    MappedParts(m, range[..i], [range[i]], |trap|);
    MappedOne(m, range[i], |trap|);
    var now := Plant(trap, m, range[..i]);
    SameKeysMapped(m, now.memory, [], first, size, |trap|);
    PlantSnoc(trap, m, range[..i], range[i]);
    ReadAfterPatch(trap, now.memory, first, size, range[i]);
  }

  /** The patch loop of `SetBreakPointsRange`, on the buffer that holds the bytes of the range. */
  method PatchBuffer(trap: Instruction, buffer: array<Byte>, ghost m: Mem, first: nat, range: seq<nat>)
    returns (oldInstructions: seq<SavedInstruction>)
    requires AllMapped(m, range, |trap|) && Mapped(m, first, buffer.Length)
    requires forall i :: 0 <= i < |range| ==> first <= range[i] && range[i] + |trap| <= first + buffer.Length
    requires buffer[..] == Read(m, first, buffer.Length)
    modifies buffer
    ensures oldInstructions == Plant(trap, m, range).saved
    ensures buffer[..] == Read(Plant(trap, m, range).memory, first, buffer.Length)
  {
    hide Plant, Read;
    oldInstructions := [];
    assert range[..0] == [];
    PlantNothing(trap, m);
    for i := 0 to |range|
      invariant oldInstructions == Plant(trap, m, range[..i]).saved
      invariant buffer[..] == Read(Plant(trap, m, range[..i]).memory, first, buffer.Length)
    {
      PatchStep(trap, m, first, buffer.Length, range, i);
      var index := range[i] - first;
      var oldInstruction := buffer[..][index..index + |trap|];
      CopyInto(buffer, index, trap);
      oldInstructions := oldInstructions + [(oldInstruction, range[i])];
    }
    assert range[..|range|] == range;
  }

  lemma PlantIsOneWrite(trap: Instruction, m: Mem, first: nat, size: nat, range: seq<nat>)
    requires AllMapped(m, range, |trap|) && Mapped(m, first, size)
    requires forall i :: 0 <= i < |range| ==> first <= range[i] && range[i] + |trap| <= first + size
    ensures Write(m, first, Read(Plant(trap, m, range).memory, first, size)) == Plant(trap, m, range).memory
  {
    hide Plant, Write, Read;
    var after := Plant(trap, m, range).memory;
    forall x | x in m && !(first <= x < first + size) ensures after[x] == m[x] {
      PlantUntouched(trap, m, range, x);
    }
    WriteOver(m, after, first, size);
  }

  /** One write brings over all changes inside a range. */
  lemma WriteOver(m: Mem, after: Mem, first: nat, size: nat)
    requires after.Keys == m.Keys && Mapped(m, first, size)
    requires forall x :: x in m && !(first <= x < first + size) ==> after[x] == m[x]
    ensures Write(m, first, Read(after, first, size)) == after
  {
  }

  method SetBreakPointsRange(trap: Instruction, os: Debuggee, process: Handle, range: seq<nat>)
    returns (r: Result<seq<SavedInstruction>>)
    requires Sorted(range) && range != [] && process in os.memory
    modifies os`memory
    ensures r.Ok? <==> old(ChunkMapped(os.memory[process], range, |trap|))
    ensures r.Ok? ==>
      && old(AllMapped(os.memory[process], range, |trap|))
      && os.memory == old(os.memory)[process := Plant(trap, old(os.memory[process]), range).memory]
      && r.value == Plant(trap, old(os.memory[process]), range).saved
    ensures r.Throw? ==> os.memory == old(os.memory)
  {
    var firstValue := range[0];
    assert firstValue <= range[|range| - 1];
    var memorySpaceSize := range[|range| - 1] - firstValue + |trap|;
    var bytes := os.ReadProcessMemory(process, firstValue, memorySpaceSize);
    if bytes.Throw? {
      return Throw;
    }
    ghost var m := os.memory[process];
    ChunkMappedAll(m, range, |trap|);
    var buffer := new Byte[memorySpaceSize](i requires 0 <= i < |bytes.value| => bytes.value[i]);
    assert buffer[..] == bytes.value;
    var oldInstructions := PatchBuffer(trap, buffer, m, firstValue, range);
    PlantIsOneWrite(trap, m, firstValue, memorySpaceSize, range);
    var written := os.WriteProcessMemory(process, firstValue, buffer[..]);
    r := Ok(oldInstructions);
  }

  /** One call of `SetBreakPointsRange` inside a batch that has reached `begin`. */
  method SetNextRange(trap: Instruction, os: Debuggee, process: Handle, sorted: seq<nat>, begin: nat, it: nat,
                      ghost m: Mem, oldInstructions: seq<SavedInstruction>)
    returns (r: Result<seq<SavedInstruction>>)
    requires process in os.memory && Sorted(sorted) && begin < it <= |sorted|
    requires ChunkEnd(sorted, begin, begin + 1) == it
    requires BatchState(trap, m, sorted, begin, Planted(os.memory[process], oldInstructions))
    modifies os`memory
    ensures process in os.memory && OnlyProcess(old(os.memory), os.memory, process)
    ensures match r
      case Ok(saved) => BatchState(trap, m, sorted, it, Planted(os.memory[process], saved))
      case Throw => exists k :: Interrupted(trap, m, Chunks(sorted, 0), k, os.memory[process])
  {
    hide ChunkMapped, AllMapped, Plant, Chunks, BatchState;
    ghost var now := Planted(os.memory[process], oldInstructions);
    r := SetBreakPointsRange(trap, os, process, sorted[begin..it]);
    if r.Throw? {
      BatchInterrupt(trap, m, sorted, begin, it, now);
      return;
    }
    BatchAdvance(trap, m, sorted, begin, it, now);
    r := Ok(oldInstructions + r.value);
  }

  /** `BreakPoint::SetBreakPoints`: sorts, cuts at 4096 bytes and patches one chunk per transfer. */
  method SetBreakPoints(trap: Instruction, os: Debuggee, process: Handle, addresses: seq<nat>)
    returns (r: Result<seq<SavedInstruction>>)
    requires process in os.memory
    modifies os`memory
    ensures process in os.memory && OnlyProcess(old(os.memory), os.memory, process)
    ensures Batched(trap, old(os.memory[process]), addresses, os.memory[process], r)
  {
    hide Chunks, PlantedChunks, BatchState, Interrupted;
    ghost var m := os.memory[process];
    var sorted := Sort(addresses);
    r := Ok([]);
    var begin, it := 0, 0;
    BatchStart(trap, m, sorted);
    while it < |sorted|
      invariant 0 <= begin <= it <= |sorted| && r.Ok?
      invariant it > 0 ==> begin < it && ChunkEnd(sorted, begin, begin + 1) == ChunkEnd(sorted, begin, it)
      invariant process in os.memory && OnlyProcess(old(os.memory), os.memory, process)
      invariant BatchState(trap, m, sorted, begin, Planted(os.memory[process], r.value))
    {
      if sorted[it] - sorted[begin] > RANGE_LIMIT {
        r := SetNextRange(trap, os, process, sorted, begin, it, m, r.value);
        if r.Throw? {
          return;
        }
        begin := it;
      }
      it := it + 1;
    }
    if begin < |sorted| {
      r := SetNextRange(trap, os, process, sorted, begin, |sorted|, m, r.value);
      if r.Throw? {
        return;
      }
    }
    BatchComplete(trap, m, sorted, Planted(os.memory[process], r.value));
  }

  /** `BreakPoint::RemoveBreakPoint`. */
  method RemoveBreakPoint(os: Debuggee, process: Handle, address: nat, oldInstruction: Instruction) returns (ok: bool)
    modifies os`memory
    ensures ok <==> old(os.Accessible(process, address, |oldInstruction|))
    ensures os.memory == if ok
      then old(os.memory[process := Write(os.memory[process], address, oldInstruction)]) else old(os.memory)
  {
    ok := os.WriteProcessMemory(process, address, oldInstruction);
  }

  /** The program counter one trap back, with 64-bit wrap-around. */
  function Rewind(pc: nat, w: nat): nat {
    if w <= pc then pc - w else (pc - w) % UINT64
  }

  /** `BreakPoint::AdjustEipAfterBreakPointRemoval`. */
  method AdjustEipAfterBreakPointRemoval(trap: Instruction, os: Debuggee, thread: ThreadId, requestSingleStep: bool)
    returns (ok: bool)
    modifies os`contexts
    ensures ok <==> thread in old(os.contexts)
    ensures os.contexts == if ok
      then old(os.contexts)[thread := Context(Rewind(old(os.contexts)[thread].pc, |trap|),
                                              old(os.contexts)[thread].singleStep || requestSingleStep)]
      else old(os.contexts)
  {
    ok := thread in os.contexts;
    if ok {
      var context := os.contexts[thread];
      context := context.(pc := Rewind(context.pc, |trap|));
      if requestSingleStep {
        context := context.(singleStep := true);
      }
      os.contexts := os.contexts[thread := context];
    }
  }
}
