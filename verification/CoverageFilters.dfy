/**
 FileFilter/ReleaseCoverageFilter.cpp and the executable lines of
 CppCoverage/UnifiedDiffCoverageFilterManager.cpp: two caches that must answer
 as if nothing were cached.
 */
module CoverageFilters {
  import opened Common

  datatype LineInfo = LineInfo(lineNumber: int, virtualAddress: nat, symbolIndex: nat)

  datatype ModuleInfo = ModuleInfo(path: string, hProcess: nat, baseOfImage: nat)

  datatype FileInfo = FileInfo(filePath: string, lines: seq<LineInfo>)

  // ----- Which lines are selected ----------------------------------------------------------------------

  /** The address is the greatest one of some symbol. */
  ghost predicate IsLastOfSymbol(lines: seq<LineInfo>, address: nat) {
    exists l :: l in lines && l.virtualAddress == address &&
      forall k :: k in lines && k.symbolIndex == l.symbolIndex ==> k.virtualAddress <= address
  }

  function AddressCount(lines: seq<LineInfo>, lineNumber: int): nat {
    if lines == [] then 0 else
    AddressCount(lines[..|lines| - 1], lineNumber) + if lines[|lines| - 1].lineNumber == lineNumber then 1 else 0
  }

  /** Two records of the file carry the line. */
  ghost predicate HasOtherAddress(lines: seq<LineInfo>, lineNumber: int) {
    exists i, j :: 0 <= i < j < |lines| && lines[i].lineNumber == lineNumber && lines[j].lineNumber == lineNumber
  }

  lemma {:induction false} CountedOnce(lines: seq<LineInfo>, lineNumber: int)
    ensures AddressCount(lines, lineNumber) >= 1 <==> exists i :: 0 <= i < |lines| && lines[i].lineNumber == lineNumber
    ensures AddressCount(lines, lineNumber) >= 2 <==> HasOtherAddress(lines, lineNumber)
  {
    if lines != [] {
      var n := |lines| - 1;
      var init := lines[..n];
      CountedOnce(init, lineNumber);
      if HasOtherAddress(init, lineNumber) {
        var i, j :| 0 <= i < j < n && init[i].lineNumber == lineNumber && init[j].lineNumber == lineNumber;
        assert lines[i].lineNumber == lineNumber && lines[j].lineNumber == lineNumber;
      }
      if HasOtherAddress(lines, lineNumber) {
        var i, j :| 0 <= i < j < |lines| && lines[i].lineNumber == lineNumber && lines[j].lineNumber == lineNumber;
        assert init[i].lineNumber == lineNumber;
        assert j < n ==> init[j].lineNumber == lineNumber;
      }
      if AddressCount(init, lineNumber) >= 1 {
        var i :| 0 <= i < n && init[i].lineNumber == lineNumber;
        assert lines[i].lineNumber == lineNumber;
      }
    }
  }

  /** A relocated last address of a symbol is ignored on a line that has other addresses. */
  ghost predicate Selected(relocations: set<nat>, lines: seq<LineInfo>, line: LineInfo) {
    !(IsLastOfSymbol(lines, line.virtualAddress) && HasOtherAddress(lines, line.lineNumber) &&
      line.virtualAddress in relocations)
  }

  /** Only relocated addresses are ignored, only where a symbol ends, and never the one address of a line. */
  lemma KeptLines(relocations: set<nat>, lines: seq<LineInfo>, line: LineInfo)
    ensures line.virtualAddress !in relocations ==> Selected(relocations, lines, line)
    ensures (forall i, j :: 0 <= i < |lines| && 0 <= j < |lines| && lines[i].lineNumber == line.lineNumber == lines[j].lineNumber ==>
              i == j) ==> Selected(relocations, lines, line)
    ensures (forall l :: l in lines && l.virtualAddress == line.virtualAddress ==>
              exists k :: k in lines && k.symbolIndex == l.symbolIndex && k.virtualAddress > l.virtualAddress) ==>
      Selected(relocations, lines, line)
  {
  }

  // ----- The computation of the line data ------------------------------------------------------------------

  datatype FileData = FileData(path: string, lastSymbolAddresses: set<nat>, addressCountByLine: map<int, nat>)

  /** The greatest address of each symbol. */
  ghost predicate Greatest(lines: seq<LineInfo>, bySymbol: map<nat, nat>) {
    && (forall l :: l in lines ==> l.symbolIndex in bySymbol && l.virtualAddress <= bySymbol[l.symbolIndex])
    && (forall s :: s in bySymbol ==> exists l :: l in lines && l.symbolIndex == s && l.virtualAddress == bySymbol[s])
  }

  ghost predicate Counted(lines: seq<LineInfo>, counts: map<int, nat>) {
    forall n :: (if n in counts then counts[n] else 0) == AddressCount(lines, n)
  }

  lemma GreatestOneMore(lines: seq<LineInfo>, bySymbol: map<nat, nat>, l: LineInfo)
    requires Greatest(lines, bySymbol)
    ensures var prior := if l.symbolIndex in bySymbol then bySymbol[l.symbolIndex] else 0;
      Greatest(lines + [l], bySymbol[l.symbolIndex := if prior < l.virtualAddress then l.virtualAddress else prior])
  {
    var s := l.symbolIndex;
    var prior := if s in bySymbol then bySymbol[s] else 0;
    var next := bySymbol[s := if prior < l.virtualAddress then l.virtualAddress else prior];
    var all := lines + [l];
    assert forall k :: k in all <==> k in lines || k == l;
    forall u | u in next ensures exists k :: k in all && k.symbolIndex == u && k.virtualAddress == next[u] {
      if u in bySymbol && next[u] == bySymbol[u] {
        var k :| k in lines && k.symbolIndex == u && k.virtualAddress == bySymbol[u];
        assert k in all;
      } else {
        assert l in all;
      }
    }
  }

  lemma CountedOneMore(lines: seq<LineInfo>, counts: map<int, nat>, l: LineInfo)
    requires Counted(lines, counts)
    ensures Counted(lines + [l], counts[l.lineNumber := (if l.lineNumber in counts then counts[l.lineNumber] else 0) + 1])
  {
    assert (lines + [l])[..|lines|] == lines;
  }

  lemma GreatestIsLast(lines: seq<LineInfo>, bySymbol: map<nat, nat>, address: nat)
    requires Greatest(lines, bySymbol)
    ensures IsLastOfSymbol(lines, address) <==> exists s :: s in bySymbol && bySymbol[s] == address
  {
    if IsLastOfSymbol(lines, address) {
      var l :| l in lines && l.virtualAddress == address &&
               forall k :: k in lines && k.symbolIndex == l.symbolIndex ==> k.virtualAddress <= address;
      assert bySymbol[l.symbolIndex] == address;
    }
    if s :| s in bySymbol && bySymbol[s] == address {
      var l :| l in lines && l.symbolIndex == s && l.virtualAddress == address;
    }
  }

  method UpdateLineDataCaches(filePath: string, lines: seq<LineInfo>) returns (r: FileData)
    ensures r.path == filePath
    ensures forall a :: a in r.lastSymbolAddresses <==> IsLastOfSymbol(lines, a)
    ensures Counted(lines, r.addressCountByLine)
  {
    hide Greatest, Counted, IsLastOfSymbol;
    var addressesBySymbolIndex: map<nat, nat> := map[];
    var addressCountByLine: map<int, nat> := map[];
    assert Greatest(lines[..0], addressesBySymbolIndex) && Counted(lines[..0], addressCountByLine) by { NothingYet(lines); }
    for n := 0 to |lines|
      invariant Greatest(lines[..n], addressesBySymbolIndex) && Counted(lines[..n], addressCountByLine)
    {
      var l := lines[n];
      GreatestOneMore(lines[..n], addressesBySymbolIndex, l);
      CountedOneMore(lines[..n], addressCountByLine, l);
      assert lines[..n + 1] == lines[..n] + [l];
      var it := if l.symbolIndex in addressesBySymbolIndex then addressesBySymbolIndex[l.symbolIndex] else 0;
      addressesBySymbolIndex := addressesBySymbolIndex[l.symbolIndex := if it < l.virtualAddress then l.virtualAddress else it];
      var count := if l.lineNumber in addressCountByLine then addressCountByLine[l.lineNumber] else 0;
      addressCountByLine := addressCountByLine[l.lineNumber := count + 1];
    }
    assert lines[..|lines|] == lines;
    var last := set s | s in addressesBySymbolIndex :: addressesBySymbolIndex[s];
    forall a ensures a in last <==> IsLastOfSymbol(lines, a) {
      GreatestIsLast(lines, addressesBySymbolIndex, a);
    }
    r := FileData(filePath, last, addressCountByLine);
  }

  lemma NothingYet(lines: seq<LineInfo>)
    ensures Greatest(lines[..0], map[]) && Counted(lines[..0], map[])
  {
  }

  // ----- The nested cache of the release filter -----------------------------------------------------------------

  datatype ModuleData = ModuleData(path: string, relocations: set<nat>, fileData: Option<FileData>)

  /** What the paths stand for: the relocations of a module, and the lines of a file of a module. */
  datatype World = World(relocations: string -> set<nat>, lines: (string, string) -> seq<LineInfo>)

  class ReleaseCoverageFilter {
    const extract: (nat, nat) -> set<nat>
    ghost const world: World
    var moduleData: Option<ModuleData>

    ghost predicate Valid()
      reads this
    {
      moduleData.Some? ==>
        && moduleData.value.relocations == world.relocations(moduleData.value.path)
        && (moduleData.value.fileData.Some? ==> DataOk(moduleData.value.path, moduleData.value.fileData.value))
    }

    /** The cached data is that of its paths. */
    ghost predicate DataOk(modulePath: string, d: FileData) {
      var lines := world.lines(modulePath, d.path);
      (forall a :: a in d.lastSymbolAddresses <==> IsLastOfSymbol(lines, a)) && Counted(lines, d.addressCountByLine)
    }

    constructor (extract: (nat, nat) -> set<nat>, ghost world: World)
      ensures this.extract == extract && this.world == world && Valid()
    {
      this.extract, this.world := extract, world;
      moduleData := None;
    }

    /** The query speaks of the module and file that its paths stand for. */
    ghost predicate Consistent(moduleInfo: ModuleInfo, fileInfo: FileInfo) {
      && extract(moduleInfo.hProcess, moduleInfo.baseOfImage) == world.relocations(moduleInfo.path)
      && fileInfo.lines == world.lines(moduleInfo.path, fileInfo.filePath)
    }

    method UpdateCachesIfExpired(moduleInfo: ModuleInfo, fileInfo: FileInfo)
      requires Valid() && Consistent(moduleInfo, fileInfo)
      modifies this
      ensures Valid() && moduleData.Some? && moduleData.value.path == moduleInfo.path
      ensures moduleData.value.fileData.Some? && moduleData.value.fileData.value.path == fileInfo.filePath
    {
      hide Counted, IsLastOfSymbol;
      if moduleData.None? || moduleData.value.path != moduleInfo.path {
        moduleData := Some(ModuleData(moduleInfo.path, extract(moduleInfo.hProcess, moduleInfo.baseOfImage), None));
      }
      if moduleData.value.fileData.None? || moduleData.value.fileData.value.path != fileInfo.filePath {
        var d := UpdateLineDataCaches(fileInfo.filePath, fileInfo.lines);
        moduleData := Some(moduleData.value.(fileData := Some(d)));
      }
    }

    /** The cached filter answers as the uncached one over any sequence of queries. */
    method IsLineSelected(moduleInfo: ModuleInfo, fileInfo: FileInfo, lineInfo: LineInfo) returns (r: bool)
      requires Valid() && Consistent(moduleInfo, fileInfo)
      modifies this
      ensures Valid()
      ensures r <==> Selected(extract(moduleInfo.hProcess, moduleInfo.baseOfImage), fileInfo.lines, lineInfo)
    {
      hide IsLastOfSymbol, HasOtherAddress;
      CountedOnce(fileInfo.lines, lineInfo.lineNumber);
      UpdateCachesIfExpired(moduleInfo, fileInfo);
      var data := moduleData.value.fileData.value;
      if lineInfo.virtualAddress !in data.lastSymbolAddresses {
        return true;
      }
      var addressCount := if lineInfo.lineNumber in data.addressCountByLine then data.addressCountByLine[lineInfo.lineNumber] else 0;
      if addressCount < 2 {
        return true;
      }
      if lineInfo.virtualAddress !in moduleData.value.relocations {
        return true;
      }
      r := false;
    }
  }

  // ----- Executable lines ---------------------------------------------------------------------------------------------

  ghost predicate SortedLines(lines: seq<int>) {
    forall i, j :: 0 <= i < j < |lines| ==> lines[i] < lines[j]
  }

  /** `std::set::lower_bound`: the place of the first element that is not less. */
  function LowerBound(lines: seq<int>, n: int): (i: nat)
    ensures i <= |lines| && (i < |lines| ==> lines[i] >= n) && forall k :: 0 <= k < i ==> lines[k] < n
  {
    if lines == [] || lines[0] >= n then 0 else 1 + LowerBound(lines[1..], n)
  }

  /** The line itself when it is executable, and otherwise the nearest executable line before it. */
  method GetExecutableLineOrPreviousOne(lineNumber: int, executableLines: seq<int>) returns (r: Option<int>)
    requires SortedLines(executableLines)
    ensures r.None? <==> forall k :: k in executableLines ==> k > lineNumber
    ensures r.Some? ==> r.value in executableLines && r.value <= lineNumber
    ensures r.Some? ==> forall k :: k in executableLines && k <= lineNumber ==> k <= r.value
  {
    var it := LowerBound(executableLines, lineNumber);
    if it < |executableLines| && executableLines[it] == lineNumber {
      assert executableLines[it] in executableLines;
      return Some(lineNumber);
    }
    if it == 0 {
      forall k | k in executableLines ensures k > lineNumber {
        var i :| 0 <= i < |executableLines| && executableLines[i] == k;
        assert i > 0 ==> executableLines[0] < executableLines[i];
      }
      return None;
    }
    forall k | k in executableLines && k <= lineNumber ensures k <= executableLines[it - 1] {
      var i :| 0 <= i < |executableLines| && executableLines[i] == k;
      assert i > it ==> executableLines[it] < executableLines[i];
    }
    assert executableLines[it - 1] in executableLines;
    r := Some(executableLines[it - 1]);
  }

  function LineNumbers(lines: seq<LineInfo>): set<int> {
    set l | l in lines :: l.lineNumber
  }

  class ExecutableLineCache {
    ghost const linesOf: string -> seq<LineInfo>
    var currentFilePath: string
    var executableLinesSet: set<int>

    ghost predicate Valid()
      reads this
    {
      currentFilePath != "" ==> executableLinesSet == LineNumbers(linesOf(currentFilePath))
    }

    constructor (ghost linesOf: string -> seq<LineInfo>)
      ensures this.linesOf == linesOf && Valid() && currentFilePath == "" && executableLinesSet == {}
    {
      this.linesOf := linesOf;
      currentFilePath, executableLinesSet := "", {};
    }

    /** On a nonempty path, the line numbers of the file, whatever was asked before. */
    method GetExecutableLinesSet(fileInfo: FileInfo) returns (r: set<int>)
      requires Valid() && fileInfo.lines == linesOf(fileInfo.filePath)
      modifies this
      ensures Valid()
      ensures fileInfo.filePath != "" ==> r == LineNumbers(fileInfo.lines)
      ensures fileInfo.filePath == old(currentFilePath) ==> r == old(executableLinesSet)
    {
      if fileInfo.filePath != currentFilePath {
        executableLinesSet := {};
        for n := 0 to |fileInfo.lines|
          invariant executableLinesSet == LineNumbers(fileInfo.lines[..n])
        {
          assert fileInfo.lines[..n + 1] == fileInfo.lines[..n] + [fileInfo.lines[n]];
          executableLinesSet := executableLinesSet + {fileInfo.lines[n].lineNumber};
        }
        assert fileInfo.lines[..|fileInfo.lines|] == fileInfo.lines;
        currentFilePath := fileInfo.filePath;
      }
      r := executableLinesSet;
    }
  }
}
