/** CppCoverage/CoverageDataMerger.cpp: merging the coverage of several runs. */
module CoverageMergers {
  import opened LineCoverages

  // ----- What a line map says: five kinds of facts, all joined by OR ---------------------------

  datatype Fact = Line(n: nat) | Executed(n: nat) | HasCondition(n: nat, i: nat) | TakenSeen(n: nat, i: nat) | NotTakenSeen(n: nat, i: nat)

  ghost predicate Says(lines: LineMap, q: Fact) {
    && q.n in lines
    && match q
       case Line(n) => true
       case Executed(n) => lines[n].hasBeenExecuted
       case HasCondition(n, i) => HasIndex(lines[n].conditions, i)
       case TakenSeen(n, i) => Taken(lines[n].conditions, i)
       case NotTakenSeen(n, i) => NotTaken(lines[n].conditions, i)
  }

  /** Condition indices are unique on every line. */
  ghost predicate UniqueLines(lines: LineMap) {
    forall n :: n in lines ==> UniqueIndices(lines[n].conditions)
  }

  // ----- Adding one file to another --------------------------------------------------------------

  function JoinLine(source: LineCoverage, destination: LineCoverage): LineCoverage {
    LineCoverage(destination.lineNumber, destination.hasBeenExecuted || source.hasBeenExecuted,
                 MergeAll(destination.conditions, source.conditions))
  }

  function Join(source: LineMap, destination: LineMap): (r: LineMap) {
    map n | n in source.Keys + destination.Keys ::
      if n !in destination then source[n] else if n !in source then destination[n]
      else JoinLine(source[n], destination[n])
  }

  lemma JoinSays(source: LineMap, destination: LineMap, q: Fact)
    ensures Says(Join(source, destination), q) <==> Says(source, q) || Says(destination, q)
  {
    if q.n in source && q.n in destination && !q.Line? && !q.Executed? {
      MergeAllMeaning(destination[q.n].conditions, source[q.n].conditions, q.i);
    }
  }

  lemma JoinUnique(source: LineMap, destination: LineMap)
    requires UniqueLines(source) && UniqueLines(destination)
    ensures UniqueLines(Join(source, destination))
  {
    forall n | n in source && n in destination ensures UniqueIndices(Join(source, destination)[n].conditions) {
      MergeAllMeaning(destination[n].conditions, source[n].conditions, 0);
    }
  }

  lemma {:induction false} MergeIntoItself(cs: seq<Condition>, k: nat)
    requires UniqueIndices(cs) && k <= |cs|
    ensures MergeAll(cs, cs[..k]) == cs
  {
    if k > 0 {
      MergeIntoItself(cs, k - 1);
      assert cs[..k][..k - 1] == cs[..k - 1];
      assert FindIndex(cs, cs[k - 1].index) == k - 1;
    }
  }

  /** Joining a file with itself changes nothing. */
  lemma JoinItself(lines: LineMap)
    requires Keyed(lines) && UniqueLines(lines)
    ensures Join(lines, lines) == lines
  {
    forall n | n in lines ensures JoinLine(lines[n], lines[n]) == lines[n] {
      var cs := lines[n].conditions;
      MergeIntoItself(cs, |cs|);
      assert cs[..|cs|] == cs;
    }
  }

  /** One line of the source: added, or its flag and conditions joined into the line that is there. */
  method AddLineCoverageTo(line: LineCoverage, destinationFile: FileCoverage)
    requires Keyed(destinationFile.lines)
    modifies destinationFile`lines
    ensures destinationFile.lines == old(destinationFile.lines)[line.lineNumber :=
      if line.lineNumber in old(destinationFile.lines) then JoinLine(line, old(destinationFile.lines)[line.lineNumber]) else line]
  {
    var lineNumber := line.lineNumber;
    if lineNumber !in destinationFile.lines {
      var ok := destinationFile.AddLine(line);
      assert ok;
    } else {
      if line.hasBeenExecuted {
        var ok := destinationFile.UpdateLine(lineNumber, true);
        assert ok;
      }
      if line.conditions != [] {
        var ok := destinationFile.MergeLineConditions(lineNumber, line.conditions);
        assert ok;
      }
    }
  }

  ghost function Part(source: LineMap, numbers: set<nat>): LineMap {
    map n | n in source && n in numbers :: source[n]
  }

  lemma JoinOneMore(source: LineMap, numbers: set<nat>, before: LineMap, n: nat)
    requires n in source && n !in numbers
    ensures (n in Join(Part(source, numbers), before) <==> n in before)
    ensures n in before ==> Join(Part(source, numbers), before)[n] == before[n]
    ensures Join(Part(source, numbers + {n}), before) ==
      Join(Part(source, numbers), before)[n := if n in before then JoinLine(source[n], before[n]) else source[n]]
  {
    hide JoinLine;
  }

  lemma JoinKeyed(source: LineMap, numbers: set<nat>, before: LineMap)
    requires Keyed(source) && Keyed(before)
    ensures Keyed(Join(Part(source, numbers), before))
  {
  }

  /** `AddFileCoverageTo`: never throws; the destination becomes the join.  The source is only read. */
  method AddFileCoverageTo(source: LineMap, destinationFile: FileCoverage)
    requires Keyed(source) && Keyed(destinationFile.lines)
    modifies destinationFile`lines
    ensures destinationFile.lines == Join(source, old(destinationFile.lines)) && Keyed(destinationFile.lines)
  {
    hide Join, JoinLine;
    var lines := GetLines(source);
    ghost var before, numbers: set<nat> := destinationFile.lines, {};
    assert destinationFile.lines == Join(Part(source, {}), before) by { JoinNothing(source, before); }
    for k := 0 to |lines|
      invariant numbers == set i | 0 <= i < k :: lines[i].lineNumber
      invariant destinationFile.lines == Join(Part(source, numbers), before)
    {
      JoinOneMore(source, numbers, before, lines[k].lineNumber);
      JoinKeyed(source, numbers, before);
      AddLineCoverageTo(lines[k], destinationFile);
      numbers := numbers + {lines[k].lineNumber};
    }
    AllParts(source, lines);
    JoinKeyed(source, numbers, before);
  }

  lemma JoinNothing(source: LineMap, before: LineMap)
    ensures Join(Part(source, {}), before) == before
  {
  }

  lemma AllParts(source: LineMap, lines: seq<LineCoverage>)
    requires InLineOrder(lines, source) && Keyed(source)
    ensures Part(source, set i | 0 <= i < |lines| :: lines[i].lineNumber) == source
  {
    forall n | n in source ensures exists i :: 0 <= i < |lines| && lines[i].lineNumber == n {
      var i :| 0 <= i < |lines| && lines[i] == source[n];
      assert lines[i].lineNumber == n;
    }
  }

  // ----- Adding several files to one ----------------------------------------------------------------

  /** Adds the files in order. */
  function JoinAll(sources: seq<LineMap>, destination: LineMap): LineMap {
    if sources == [] then destination else
    var n := |sources| - 1;
    Join(sources[n], JoinAll(sources[..n], destination))
  }

  ghost predicate SomeSays(maps: seq<LineMap>, q: Fact) {
    exists m :: m in maps && Says(m, q)
  }

  lemma {:induction false} JoinAllSays(sources: seq<LineMap>, destination: LineMap, q: Fact)
    ensures Says(JoinAll(sources, destination), q) <==> SomeSays(sources, q) || Says(destination, q)
  {
    if sources != [] {
      var n := |sources| - 1;
      JoinAllSays(sources[..n], destination, q);
      JoinSays(sources[n], JoinAll(sources[..n], destination), q);
      assert sources == sources[..n] + [sources[n]];
      assert forall m :: m in sources <==> m in sources[..n] || m == sources[n];
    }
  }

  lemma {:induction false} JoinAllUnique(sources: seq<LineMap>, destination: LineMap)
    requires UniqueLines(destination) && forall m :: m in sources ==> UniqueLines(m)
    ensures UniqueLines(JoinAll(sources, destination))
  {
    if sources != [] {
      var n := |sources| - 1;
      JoinAllUnique(sources[..n], destination);
      JoinUnique(sources[n], JoinAll(sources[..n], destination));
    }
  }

  lemma {:induction false} JoinAllSame(sources: seq<LineMap>, lines: LineMap)
    requires Keyed(lines) && UniqueLines(lines) && forall i :: 0 <= i < |sources| ==> sources[i] == lines
    ensures JoinAll(sources, lines) == lines
  {
    if sources != [] {
      JoinAllSame(sources[..|sources| - 1], lines);
      JoinItself(lines);
    }
  }

  ghost predicate AllKeyed(sources: seq<LineMap>) {
    forall i :: 0 <= i < |sources| ==> Keyed(sources[i])
  }

  /** `FillFiles`. */
  method FillFiles(file: FileCoverage, sources: seq<LineMap>)
    requires Keyed(file.lines) && AllKeyed(sources)
    modifies file`lines
    ensures file.lines == JoinAll(sources, old(file.lines)) && Keyed(file.lines)
  {
    hide Keyed;
    for k := 0 to |sources|
      invariant file.lines == JoinAll(sources[..k], old(file.lines)) && Keyed(file.lines)
    {
      assert sources[..k + 1][..k] == sources[..k];
      AddFileCoverageTo(sources[k], file);
    }
    assert sources[..|sources|] == sources;
  }

  // ----- Grouping -----------------------------------------------------------------------------------------

  function Children<O, C>(collection: seq<O>, getChildren: O -> seq<C>): seq<C> {
    if collection == [] then [] else
    Children(collection[..|collection| - 1], getChildren) + getChildren(collection[|collection| - 1])
  }

  function WithKey<K(==), C>(children: seq<C>, getKey: C -> K, key: K): (r: seq<C>)
    ensures forall c :: c in r ==> c in children
  {
    if children == [] then [] else
    WithKey(children[..|children| - 1], getKey, key) +
      if getKey(children[|children| - 1]) == key then [children[|children| - 1]] else []
  }

  lemma {:induction false} WithKeyMembers<K, C>(children: seq<C>, getKey: C -> K, key: K)
    ensures forall c :: c in WithKey(children, getKey, key) <==> c in children && getKey(c) == key
  {
    if children != [] {
      var n := |children| - 1;
      WithKeyMembers(children[..n], getKey, key);
      assert children == children[..n] + [children[n]];
    }
  }

  lemma {:induction false} NoneWithKey<K, C>(children: seq<C>, getKey: C -> K, key: K)
    requires forall c :: c in children ==> getKey(c) != key
    ensures WithKey(children, getKey, key) == []
  {
    if children != [] {
      NoneWithKey(children[..|children| - 1], getKey, key);
    }
  }

  lemma {:induction false} WithKeyConcat<K, C>(xs: seq<C>, ys: seq<C>, getKey: C -> K, key: K)
    ensures WithKey(xs + ys, getKey, key) == WithKey(xs, getKey, key) + WithKey(ys, getKey, key)
  {
    if ys == [] {
      assert xs + ys == xs;
    } else {
      var n := |ys| - 1;
      WithKeyConcat(xs, ys[..n], getKey, key);
      assert (xs + ys)[..|xs + ys| - 1] == xs + ys[..n];
    }
  }

  lemma {:induction false} ChildrenConcat<O, C>(xs: seq<O>, ys: seq<O>, getChildren: O -> seq<C>)
    ensures Children(xs + ys, getChildren) == Children(xs, getChildren) + Children(ys, getChildren)
  {
    if ys == [] {
      assert xs + ys == xs;
    } else {
      var n := |ys| - 1;
      ChildrenConcat(xs, ys[..n], getChildren);
      assert (xs + ys)[..|xs + ys| - 1] == xs + ys[..n];
    }
  }

  /** Each key with its children, in order. */
  ghost predicate Grouped<K, C>(groups: map<K, seq<C>>, children: seq<C>, getKey: C -> K) {
    && (forall k :: k in groups ==> groups[k] == WithKey(children, getKey, k) && groups[k] != [])
    && (forall c :: c in children ==> getKey(c) in groups)
  }

  lemma GroupedOneMore<K, C>(groups: map<K, seq<C>>, children: seq<C>, getKey: C -> K, child: C)
    requires Grouped(groups, children, getKey)
    ensures var key := getKey(child);
      Grouped(groups[key := (if key in groups then groups[key] else []) + [child]], children + [child], getKey)
  {
    var key := getKey(child);
    var all := children + [child];
    assert all[..|children|] == children;
    if key !in groups {
      NoneWithKey(children, getKey, key);
    }
    forall c | c in all ensures c in children || c == child {
    }
  }

  /** `GroupChildrenByKey`. */
  method GroupChildrenByKey<O, K(==), C>(collection: seq<O>, getChildren: O -> seq<C>, getKey: C -> K)
    returns (childrenByKey: map<K, seq<C>>)
    ensures Grouped(childrenByKey, Children(collection, getChildren), getKey)
  {
    hide Grouped;
    childrenByKey := map[];
    assert Grouped(childrenByKey, [], getKey) by { NothingGrouped<K, C>(getKey); }
    ghost var done: seq<C> := [];
    for i := 0 to |collection|
      invariant done == Children(collection[..i], getChildren)
      invariant Grouped(childrenByKey, done, getKey)
    {
      var children := getChildren(collection[i]);
      ghost var before := done;
      for j := 0 to |children|
        invariant done == before + children[..j]
        invariant Grouped(childrenByKey, done, getKey)
      {
        var child := children[j];
        var key := getKey(child);
        GroupedOneMore(childrenByKey, done, getKey, child);
        childrenByKey := childrenByKey[key := (if key in childrenByKey then childrenByKey[key] else []) + [child]];
        assert before + children[..j + 1] == (before + children[..j]) + [child];
        done := done + [child];
      }
      assert collection[..i + 1][..i] == collection[..i];
      assert children[..|children|] == children;
    }
    assert collection[..|collection|] == collection;
  }

  lemma NothingGrouped<K, C>(getKey: C -> K)
    ensures Grouped(map[], [], getKey)
  {
  }

  // ----- Merging runs ----------------------------------------------------------------------------------------

  function ModulesOf(d: CoverageData): seq<ModuleCoverage> {
    d.modules
  }

  function ModulePath(m: ModuleCoverage): string {
    m.path
  }

  function FilesIn(m: ModuleCoverage): seq<FileData> {
    m.files
  }

  function FilePath(f: FileData): string {
    f.path
  }

  function LastName(runs: seq<CoverageData>): string {
    if runs == [] then "" else runs[|runs| - 1].name
  }

  function LastNotZeroExitCode(runs: seq<CoverageData>): int {
    if runs == [] then 0 else
    var n := |runs| - 1;
    if runs[n].exitCode != 0 then runs[n].exitCode else LastNotZeroExitCode(runs[..n])
  }

  /** The source modules with a path, and the files with a path among the files of some modules. */
  function ModulesAt(runs: seq<CoverageData>, path: string): seq<ModuleCoverage> {
    WithKey(Children(runs, ModulesOf), ModulePath, path)
  }

  function FilesAt(modules: seq<ModuleCoverage>, path: string): seq<FileData> {
    WithKey(Children(modules, FilesIn), FilePath, path)
  }

  function LinesOf(files: seq<FileData>): (r: seq<LineMap>)
    ensures |r| == |files|
  {
    seq(|files|, i requires 0 <= i < |files| => files[i].lines)
  }

  ghost predicate FilesKeyed(files: seq<FileData>) {
    forall f :: f in files ==> Keyed(f.lines)
  }

  /** One file for each path of the source files, holding the join of the source files with that path. */
  ghost predicate FilesMerged(modules: seq<ModuleCoverage>, files: seq<FileData>) {
    && (forall i, j :: 0 <= i < j < |files| ==> files[i].path != files[j].path)
    && (forall f :: f in Children(modules, FilesIn) ==> exists g :: g in files && g.path == f.path)
    && (forall f :: f in files ==>
          FilesAt(modules, f.path) != [] && f.lines == JoinAll(LinesOf(FilesAt(modules, f.path)), map[]))
  }

  /** One module for each path of the source modules, with the merged files. */
  ghost predicate ModulesMerged(runs: seq<CoverageData>, modules: seq<ModuleCoverage>) {
    && (forall i, j :: 0 <= i < j < |modules| ==> modules[i].path != modules[j].path)
    && (forall m :: m in Children(runs, ModulesOf) ==> exists n :: n in modules && n.path == m.path)
    && (forall m :: m in modules ==> ModulesAt(runs, m.path) != [] && FilesMerged(ModulesAt(runs, m.path), m.files))
  }

  /** The order in which `std::map` visits its keys: a strict total order. */
  ghost predicate IsOrder(less: (string, string) -> bool) {
    && (forall p :: !less(p, p))
    && (forall p, q :: p == q || less(p, q) || less(q, p))
    && (forall p, q, r :: less(p, q) && less(q, r) ==> less(p, r))
  }

  ghost predicate InOrder(less: (string, string) -> bool, paths: seq<string>) {
    forall i, j :: 0 <= i < j < |paths| ==> less(paths[i], paths[j])
  }

  ghost predicate IsFirst(less: (string, string) -> bool, paths: set<string>, p: string) {
    p in paths && forall q :: q in paths && q != p ==> less(p, q)
  }

  lemma {:induction false} FirstPath(less: (string, string) -> bool, paths: set<string>)
    requires IsOrder(less) && paths != {}
    ensures exists p :: IsFirst(less, paths, p)
  {
    var p :| p in paths;
    if paths == {p} {
      assert IsFirst(less, paths, p);
    } else {
      FirstPath(less, paths - {p});
      var q :| IsFirst(less, paths - {p}, q);
      if less(p, q) {
        forall x | x in paths && x != p ensures less(p, x) {
          assert x in paths - {p};
          assert x != q ==> less(q, x);
        }
        assert IsFirst(less, paths, p);
      } else {
        assert IsFirst(less, paths, q);
      }
    }
  }

  method KeysInOrder(less: (string, string) -> bool, keys: set<string>) returns (paths: seq<string>)
    requires IsOrder(less)
    ensures InOrder(less, paths) && forall p :: p in paths <==> p in keys
  {
    paths := [];
    var rest := keys;
    while rest != {}
      invariant rest <= keys && InOrder(less, paths)
      invariant forall p :: p in paths <==> p in keys && p !in rest
      invariant forall p, q :: p in paths && q in rest ==> less(p, q)
    {
      FirstPath(less, rest);
      var p :| p in rest && forall q :: q in rest && q != p ==> less(p, q);
      assert forall q :: q in paths + [p] <==> q in paths || q == p;
      paths := paths + [p];
      rest := rest - {p};
    }
  }

  function PathsOf(files: seq<FileData>): (r: seq<string>)
    ensures |r| == |files| && forall i :: 0 <= i < |files| ==> r[i] == files[i].path
  {
    seq(|files|, i requires 0 <= i < |files| => files[i].path)
  }

  function ModulePathsOf(modules: seq<ModuleCoverage>): (r: seq<string>)
    ensures |r| == |modules| && forall i :: 0 <= i < |modules| ==> r[i] == modules[i].path
  {
    seq(|modules|, i requires 0 <= i < |modules| => modules[i].path)
  }

  /** The body of the loop of `FillModule`. */
  method MergedFile(path: string, files: seq<FileData>) returns (r: FileData)
    requires FilesKeyed(files)
    ensures r == FileData(path, JoinAll(LinesOf(files), map[])) && Keyed(r.lines)
  {
    var file := new FileCoverage(path);
    FillFiles(file, LinesOf(files));
    r := FileData(file.path, file.lines);
  }

  /** `FillModule`. */
  method FillModule(less: (string, string) -> bool, path: string, modules: seq<ModuleCoverage>) returns (r: ModuleCoverage)
    requires IsOrder(less) && FilesKeyed(Children(modules, FilesIn))
    ensures r.path == path && FilesMerged(modules, r.files) && FilesKeyed(r.files) && InOrder(less, PathsOf(r.files))
  {
    hide Keyed, JoinAll, IsOrder, Grouped, InOrder, FilesMerged;
    var filesByPath := GroupChildrenByKey(modules, FilesIn, FilePath);
    var paths := KeysInOrder(less, filesByPath.Keys);
    var files: seq<FileData> := [];
    for k := 0 to |paths|
      invariant |files| == k && FilesKeyed(files)
      invariant forall i :: 0 <= i < k ==> files[i] == FileData(paths[i], JoinAll(LinesOf(filesByPath[paths[i]]), map[]))
    {
      assert FilesKeyed(filesByPath[paths[k]]) by { GroupKeyed(filesByPath, modules, paths[k]); }
      var file := MergedFile(paths[k], filesByPath[paths[k]]);
      assert forall f :: f in files + [file] <==> f in files || f == file;
      files := files + [file];
    }
    FilesOfGroups(less, modules, filesByPath, paths, files);
    r := ModuleCoverage(path, files);
  }

  lemma GroupKeyed(filesByPath: map<string, seq<FileData>>, modules: seq<ModuleCoverage>, path: string)
    requires Grouped(filesByPath, Children(modules, FilesIn), FilePath) && path in filesByPath
    requires FilesKeyed(Children(modules, FilesIn))
    ensures FilesKeyed(filesByPath[path])
  {
    hide Keyed;
  }

  lemma FilesOfGroups(less: (string, string) -> bool, modules: seq<ModuleCoverage>, filesByPath: map<string, seq<FileData>>,
                      paths: seq<string>, files: seq<FileData>)
    requires IsOrder(less) && Grouped(filesByPath, Children(modules, FilesIn), FilePath)
    requires InOrder(less, paths) && (forall p :: p in paths <==> p in filesByPath) && |files| == |paths|
    requires forall i :: 0 <= i < |files| ==> files[i] == FileData(paths[i], JoinAll(LinesOf(filesByPath[paths[i]]), map[]))
    ensures FilesMerged(modules, files) && InOrder(less, PathsOf(files))
  {
    hide JoinAll, LinesOf;
    assert PathsOf(files) == paths;
    forall f | f in Children(modules, FilesIn) ensures exists g :: g in files && g.path == f.path {
      assert FilePath(f) in paths;
      var i :| 0 <= i < |paths| && paths[i] == FilePath(f);
      assert files[i] in files;
    }
  }

  function SourceFiles(runs: seq<CoverageData>): seq<FileData> {
    Children(Children(runs, ModulesOf), FilesIn)
  }

  /** A module that merges the source modules of its path, with its files in order. */
  ghost predicate ModuleDone(less: (string, string) -> bool, sources: seq<ModuleCoverage>, m: ModuleCoverage) {
    FilesMerged(sources, m.files) && FilesKeyed(m.files) && InOrder(less, PathsOf(m.files))
  }

  /** `CoverageDataMerger::Merge`. */
  method Merge(less: (string, string) -> bool, runs: seq<CoverageData>) returns (r: CoverageData)
    requires IsOrder(less) && FilesKeyed(SourceFiles(runs))
    ensures r.name == LastName(runs) && r.exitCode == LastNotZeroExitCode(runs)
    ensures ModulesMerged(runs, r.modules) && forall m :: m in r.modules ==> FilesKeyed(m.files)
    ensures InOrder(less, ModulePathsOf(r.modules)) && forall m :: m in r.modules ==> InOrder(less, PathsOf(m.files))
  {
    hide Keyed, FilesMerged, FilesKeyed, IsOrder, InOrder, ModulesMerged, Grouped, ModuleDone;
    var name, exitCode := NameAndExitCode(runs);
    var modulesByPath := GroupChildrenByKey(runs, ModulesOf, ModulePath);
    var paths := KeysInOrder(less, modulesByPath.Keys);
    var modules: seq<ModuleCoverage> := [];
    for k := 0 to |paths|
      invariant |modules| == k
      invariant forall i :: 0 <= i < k ==>
        modules[i].path == paths[i] && ModuleDone(less, modulesByPath[paths[i]], modules[i])
    {
      assert FilesKeyed(Children(modulesByPath[paths[k]], FilesIn)) by {
        KeyedAt(runs, paths[k]);
        GroupIs(modulesByPath, runs, paths[k]);
      }
      var m := FillModule(less, paths[k], modulesByPath[paths[k]]);
      assert ModuleDone(less, modulesByPath[paths[k]], m) by { IsDone(less, modulesByPath[paths[k]], m); }
      modules := modules + [m];
    }
    ModulesOfGroups(less, runs, modulesByPath, paths, modules);
    r := CoverageData(name, exitCode, modules);
  }

  lemma IsDone(less: (string, string) -> bool, sources: seq<ModuleCoverage>, m: ModuleCoverage)
    requires FilesMerged(sources, m.files) && FilesKeyed(m.files) && InOrder(less, PathsOf(m.files))
    ensures ModuleDone(less, sources, m)
  {
  }

  lemma GroupIs(modulesByPath: map<string, seq<ModuleCoverage>>, runs: seq<CoverageData>, path: string)
    requires Grouped(modulesByPath, Children(runs, ModulesOf), ModulePath) && path in modulesByPath
    ensures modulesByPath[path] == ModulesAt(runs, path) && modulesByPath[path] != []
  {
  }

  lemma ModulesOfGroups(less: (string, string) -> bool, runs: seq<CoverageData>, modulesByPath: map<string, seq<ModuleCoverage>>,
                        paths: seq<string>, modules: seq<ModuleCoverage>)
    requires IsOrder(less) && Grouped(modulesByPath, Children(runs, ModulesOf), ModulePath)
    requires InOrder(less, paths) && (forall p :: p in paths <==> p in modulesByPath) && |modules| == |paths|
    requires forall i :: 0 <= i < |modules| ==>
      modules[i].path == paths[i] && ModuleDone(less, modulesByPath[paths[i]], modules[i])
    ensures ModulesMerged(runs, modules) && InOrder(less, ModulePathsOf(modules))
    ensures forall m :: m in modules ==> FilesKeyed(m.files) && InOrder(less, PathsOf(m.files))
  {
    hide FilesMerged, FilesKeyed;
    assert ModulePathsOf(modules) == paths;
    forall m | m in Children(runs, ModulesOf) ensures exists n :: n in modules && n.path == m.path {
      assert ModulePath(m) in paths;
      var i :| 0 <= i < |paths| && paths[i] == ModulePath(m);
      assert modules[i] in modules;
    }
    forall m | m in modules ensures ModulesAt(runs, m.path) != [] && ModuleDone(less, ModulesAt(runs, m.path), m) {
      var i :| 0 <= i < |modules| && modules[i] == m;
      assert paths[i] in paths;
      GroupIs(modulesByPath, runs, paths[i]);
    }
  }

  lemma {:induction false} ChildrenMembers<O, C>(collection: seq<O>, getChildren: O -> seq<C>, c: C)
    ensures c in Children(collection, getChildren) <==> exists o :: o in collection && c in getChildren(o)
  {
    if collection != [] {
      var n := |collection| - 1;
      ChildrenMembers(collection[..n], getChildren, c);
      assert collection == collection[..n] + [collection[n]];
      assert forall o :: o in collection <==> o in collection[..n] || o == collection[n];
    }
  }

  lemma KeyedAt(runs: seq<CoverageData>, path: string)
    requires FilesKeyed(SourceFiles(runs))
    ensures FilesKeyed(Children(ModulesAt(runs, path), FilesIn))
  {
    hide Keyed;
    forall f | f in Children(ModulesAt(runs, path), FilesIn) ensures f in SourceFiles(runs) {
      ChildrenMembers(ModulesAt(runs, path), FilesIn, f);
      ChildrenMembers(Children(runs, ModulesOf), FilesIn, f);
    }
  }

  /** The loop of `CreateCoverageData`. */
  method NameAndExitCode(runs: seq<CoverageData>) returns (name: string, lastNotZeroExitCode: int)
    ensures name == LastName(runs) && lastNotZeroExitCode == LastNotZeroExitCode(runs)
  {
    name, lastNotZeroExitCode := "", 0;
    for k := 0 to |runs|
      invariant name == LastName(runs[..k]) && lastNotZeroExitCode == LastNotZeroExitCode(runs[..k])
    {
      name := runs[k].name;
      if runs[k].exitCode != 0 {
        lastNotZeroExitCode := runs[k].exitCode;
      }
      assert runs[..k + 1][..k] == runs[..k];
    }
    assert runs[..|runs|] == runs;
  }

  // ----- The laws of the merge -----------------------------------------------------------------------------

  /** What the runs say about a line of a file of a module. */
  ghost predicate RunsSay(runs: seq<CoverageData>, modulePath: string, filePath: string, q: Fact) {
    SomeSays(LinesOf(FilesAt(ModulesAt(runs, modulePath), filePath)), q)
  }

  ghost predicate HasModule(runs: seq<CoverageData>, modulePath: string) {
    ModulesAt(runs, modulePath) != []
  }

  ghost predicate HasFile(runs: seq<CoverageData>, modulePath: string, filePath: string) {
    FilesAt(ModulesAt(runs, modulePath), filePath) != []
  }

  /** The same modules, files, lines, flags, conditions and outcomes. */
  ghost predicate SameCoverage(a: seq<CoverageData>, b: seq<CoverageData>) {
    && (forall m :: HasModule(a, m) <==> HasModule(b, m))
    && (forall m, f :: HasFile(a, m, f) <==> HasFile(b, m, f))
    && (forall m, f, q :: RunsSay(a, m, f, q) <==> RunsSay(b, m, f, q))
  }

  ghost predicate IsMergeOf(runs: seq<CoverageData>, r: CoverageData) {
    r.name == LastName(runs) && r.exitCode == LastNotZeroExitCode(runs) && ModulesMerged(runs, r.modules)
  }

  lemma {:induction false} WithUniqueKey<K, C>(children: seq<C>, getKey: C -> K, k: nat)
    requires k < |children| && forall i, j :: 0 <= i < j < |children| ==> getKey(children[i]) != getKey(children[j])
    ensures WithKey(children, getKey, getKey(children[k])) == [children[k]]
  {
    var n := |children| - 1;
    var key := getKey(children[k]);
    if k == n {
      forall c | c in children[..n] ensures getKey(c) != key {
      }
      NoneWithKey(children[..n], getKey, key);
    } else {
      WithUniqueKey(children[..n], getKey, k);
    }
  }

  /** With distinct keys a key selects one child or none. */
  lemma AtMostOne<K, C>(children: seq<C>, getKey: C -> K, key: K)
    requires forall i, j :: 0 <= i < j < |children| ==> getKey(children[i]) != getKey(children[j])
    ensures if exists c :: c in children && getKey(c) == key
            then exists c :: c in children && getKey(c) == key && WithKey(children, getKey, key) == [c]
            else WithKey(children, getKey, key) == []
  {
    if c :| c in children && getKey(c) == key {
      var k :| 0 <= k < |children| && children[k] == c;
      WithUniqueKey(children, getKey, k);
    } else {
      NoneWithKey(children, getKey, key);
    }
  }

  lemma SomeWithKey<K, C>(children: seq<C>, getKey: C -> K, key: K)
    ensures WithKey(children, getKey, key) != [] <==> exists c :: c in children && getKey(c) == key
  {
    WithKeyMembers(children, getKey, key);
    var r := WithKey(children, getKey, key);
    assert |r| > 0 ==> r[0] in r;
  }

  lemma OneChild<O, C>(o: O, getChildren: O -> seq<C>)
    ensures Children([o], getChildren) == getChildren(o)
  {
    assert [o][..0] == [];
  }

  /** The modules of a merged run with a path: none, or the one that merges the source modules. */
  lemma MergedModuleAt(runs: seq<CoverageData>, r: CoverageData, path: string)
    requires ModulesMerged(runs, r.modules)
    ensures if ModulesAt(runs, path) == [] then ModulesAt([r], path) == []
            else exists m :: ModulesAt([r], path) == [m] && FilesMerged(ModulesAt(runs, path), m.files)
  {
    hide FilesMerged, Children, WithKey;
    OneChild(r, ModulesOf);
    SomeWithKey(Children(runs, ModulesOf), ModulePath, path);
    AtMostOne(r.modules, ModulePath, path);
  }

  lemma MergedFileAt(modules: seq<ModuleCoverage>, m: ModuleCoverage, path: string)
    requires FilesMerged(modules, m.files)
    ensures FilesAt([m], path) == if FilesAt(modules, path) == [] then []
      else [FileData(path, JoinAll(LinesOf(FilesAt(modules, path)), map[]))]
  {
    hide JoinAll, Children, WithKey;
    OneChild(m, FilesIn);
    SomeWithKey(Children(modules, FilesIn), FilePath, path);
    AtMostOne(m.files, FilePath, path);
  }

  lemma NoFilesAt(path: string)
    ensures FilesAt([], path) == [] && forall q :: !SomeSays(LinesOf([]), q)
  {
    assert Children<ModuleCoverage, FileData>([], FilesIn) == [];
  }

  /** The merge denotes the pointwise OR of its runs, with the union of their modules, files, lines and conditions. */
  lemma MergeIsJoin(runs: seq<CoverageData>, r: CoverageData)
    requires ModulesMerged(runs, r.modules)
    ensures SameCoverage([r], runs)
  {
    hide ModulesMerged, FilesMerged, HasModule, HasFile, RunsSay;
    forall m, f, q ensures SameAt([r], runs, m, f, q) {
      MergeSays(runs, r, m, f, q);
    }
    SameEverywhere([r], runs);
  }

  ghost predicate SameAt(a: seq<CoverageData>, b: seq<CoverageData>, m: string, f: string, q: Fact) {
    && (HasModule(a, m) <==> HasModule(b, m)) && (HasFile(a, m, f) <==> HasFile(b, m, f))
    && (RunsSay(a, m, f, q) <==> RunsSay(b, m, f, q))
  }

  lemma SameEverywhere(a: seq<CoverageData>, b: seq<CoverageData>)
    requires forall m, f, q :: SameAt(a, b, m, f, q)
    ensures SameCoverage(a, b)
  {
    hide HasModule, HasFile, RunsSay;
    forall m ensures HasModule(a, m) <==> HasModule(b, m) {
      assert SameAt(a, b, m, "", Line(0));
    }
    forall m, f ensures HasFile(a, m, f) <==> HasFile(b, m, f) {
      assert SameAt(a, b, m, f, Line(0));
    }
    forall m, f, q ensures RunsSay(a, m, f, q) <==> RunsSay(b, m, f, q) {
      assert SameAt(a, b, m, f, q);
    }
  }

  lemma MergeSays(runs: seq<CoverageData>, r: CoverageData, m: string, f: string, q: Fact)
    requires ModulesMerged(runs, r.modules)
    ensures HasModule([r], m) <==> HasModule(runs, m)
    ensures HasFile([r], m, f) <==> HasFile(runs, m, f)
    ensures RunsSay([r], m, f, q) <==> RunsSay(runs, m, f, q)
  {
    hide ModulesMerged, FilesMerged, ModulesAt, FilesAt, Says, JoinAll;
    MergedModuleAt(runs, r, m);
    NoFilesAt(f);
    if HasModule(runs, m) {
      var merged :| ModulesAt([r], m) == [merged] && FilesMerged(ModulesAt(runs, m), merged.files);
      MergedFileAt(ModulesAt(runs, m), merged, f);
      var sources := LinesOf(FilesAt(ModulesAt(runs, m), f));
      JoinAllSays(sources, map[], q);
      NothingSaid(q);
      OneSays(FileData(f, JoinAll(sources, map[])), q);
    }
  }

  lemma NothingSaid(q: Fact)
    ensures !Says(map[], q)
  {
  }

  lemma OneSays(file: FileData, q: Fact)
    ensures SomeSays(LinesOf([file]), q) <==> Says(file.lines, q)
  {
    hide Says;
    assert LinesOf([file]) == [file.lines];
    assert [file.lines][0] in [file.lines];
  }

  /** Some run has a file that says it. */
  ghost predicate SaidSomewhere(runs: seq<CoverageData>, modulePath: string, filePath: string, q: Fact) {
    exists d, m, f :: d in runs && m in d.modules && m.path == modulePath && f in m.files && f.path == filePath && Says(f.lines, q)
  }

  lemma InModulesAt(runs: seq<CoverageData>, modulePath: string, m: ModuleCoverage)
    ensures m in ModulesAt(runs, modulePath) <==> m.path == modulePath && exists d :: d in runs && m in d.modules
  {
    WithKeyMembers(Children(runs, ModulesOf), ModulePath, modulePath);
    ChildrenMembers(runs, ModulesOf, m);
    assert forall d: CoverageData :: m in ModulesOf(d) <==> m in d.modules;
  }

  lemma InFilesAt(modules: seq<ModuleCoverage>, filePath: string, f: FileData)
    ensures f in FilesAt(modules, filePath) <==> f.path == filePath && exists m :: m in modules && f in m.files
  {
    WithKeyMembers(Children(modules, FilesIn), FilePath, filePath);
    ChildrenMembers(modules, FilesIn, f);
    assert forall m: ModuleCoverage :: f in FilesIn(m) <==> f in m.files;
  }

  lemma RunsSayMeans(runs: seq<CoverageData>, modulePath: string, filePath: string, q: Fact)
    ensures RunsSay(runs, modulePath, filePath, q) <==> SaidSomewhere(runs, modulePath, filePath, q)
  {
    hide Says, ModulesAt, FilesAt, LinesOf, SomeSays;
    var modules := ModulesAt(runs, modulePath);
    FilesSay(FilesAt(modules, filePath), q);
    if RunsSay(runs, modulePath, filePath, q) {
      var f :| f in FilesAt(modules, filePath) && Says(f.lines, q);
      InFilesAt(modules, filePath, f);
      var m :| m in modules && f in m.files;
      InModulesAt(runs, modulePath, m);
    }
    if d, m, f :| d in runs && m in d.modules && m.path == modulePath && f in m.files && f.path == filePath && Says(f.lines, q) {
      InModulesAt(runs, modulePath, m);
      InFilesAt(modules, filePath, f);
    }
  }

  lemma FilesSay(files: seq<FileData>, q: Fact)
    ensures SomeSays(LinesOf(files), q) <==> exists f :: f in files && Says(f.lines, q)
  {
    hide Says;
    if f :| f in files && Says(f.lines, q) {
      var k :| 0 <= k < |files| && files[k] == f;
      assert LinesOf(files)[k] == f.lines;
    }
  }

  lemma SameRunsSay(a: seq<CoverageData>, b: seq<CoverageData>, m: string, f: string, q: Fact)
    requires forall d :: d in a <==> d in b
    ensures SameAt(a, b, m, f, q)
  {
    hide Says, ModulesAt, FilesAt, RunsSay;
    var x, y := ModulesAt(a, m), ModulesAt(b, m);
    forall c ensures c in x <==> c in y {
      InModulesAt(a, m, c);
      InModulesAt(b, m, c);
    }
    forall c ensures c in FilesAt(x, f) <==> c in FilesAt(y, f) {
      InFilesAt(x, f, c);
      InFilesAt(y, f, c);
    }
    SameMembersEmpty(x, y);
    SameMembersEmpty(FilesAt(x, f), FilesAt(y, f));
    RunsSayMeans(a, m, f, q);
    RunsSayMeans(b, m, f, q);
  }

  lemma SameMembersEmpty<C>(x: seq<C>, y: seq<C>)
    requires forall c :: c in x <==> c in y
    ensures x == [] <==> y == []
  {
    assert x != [] ==> x[0] in x;
    assert y != [] ==> y[0] in y;
  }

  /** Neither the order of the runs nor repeating them matters for the coverage of the merge. */
  lemma OrderDoesNotMatter(a: seq<CoverageData>, b: seq<CoverageData>, ra: CoverageData, rb: CoverageData)
    requires forall d :: d in a <==> d in b
    requires IsMergeOf(a, ra) && IsMergeOf(b, rb)
    ensures SameCoverage([ra], [rb])
  {
    hide ModulesMerged, HasModule, HasFile, RunsSay;
    forall m, f, q ensures SameAt([ra], [rb], m, f, q) {
      MergeSays(a, ra, m, f, q);
      MergeSays(b, rb, m, f, q);
      SameRunsSay(a, b, m, f, q);
    }
    SameEverywhere([ra], [rb]);
  }

  lemma RunsConcat(a: seq<CoverageData>, b: seq<CoverageData>, m: string, f: string, q: Fact)
    ensures HasModule(a + b, m) <==> HasModule(a, m) || HasModule(b, m)
    ensures HasFile(a + b, m, f) <==> HasFile(a, m, f) || HasFile(b, m, f)
    ensures RunsSay(a + b, m, f, q) <==> RunsSay(a, m, f, q) || RunsSay(b, m, f, q)
  {
    hide Says, WithKey, Children;
    ChildrenConcat(a, b, ModulesOf);
    WithKeyConcat(Children(a, ModulesOf), Children(b, ModulesOf), ModulePath, m);
    ChildrenConcat(ModulesAt(a, m), ModulesAt(b, m), FilesIn);
    WithKeyConcat(Children(ModulesAt(a, m), FilesIn), Children(ModulesAt(b, m), FilesIn), FilePath, f);
    var x, y := FilesAt(ModulesAt(a, m), f), FilesAt(ModulesAt(b, m), f);
    assert FilesAt(ModulesAt(a + b, m), f) == x + y;
    assert LinesOf(x + y) == LinesOf(x) + LinesOf(y);
  }

  lemma {:induction false} ExitCodeConcat(a: seq<CoverageData>, b: seq<CoverageData>)
    ensures LastNotZeroExitCode(a + b) == if LastNotZeroExitCode(b) != 0 then LastNotZeroExitCode(b) else LastNotZeroExitCode(a)
  {
    if b == [] {
      assert a + b == a;
    } else {
      var n := |b| - 1;
      ExitCodeConcat(a, b[..n]);
      assert (a + b)[..|a + b| - 1] == a + b[..n];
    }
  }

  function Flatten(groups: seq<seq<CoverageData>>): seq<CoverageData> {
    if groups == [] then [] else Flatten(groups[..|groups| - 1]) + groups[|groups| - 1]
  }

  /** Each run of `merged` is the merge of its group. */
  ghost predicate MergedEach(groups: seq<seq<CoverageData>>, merged: seq<CoverageData>) {
    |merged| == |groups| && forall i :: 0 <= i < |groups| ==> IsMergeOf(groups[i], merged[i])
  }

  lemma {:induction false} MergedGroupsSay(groups: seq<seq<CoverageData>>, merged: seq<CoverageData>,
                                           m: string, f: string, q: Fact)
    requires MergedEach(groups, merged)
    ensures SameAt(merged, Flatten(groups), m, f, q)
    ensures LastNotZeroExitCode(merged) == LastNotZeroExitCode(Flatten(groups))
  {
    hide ModulesMerged, HasModule, HasFile, RunsSay;
    if groups != [] {
      var n := |groups| - 1;
      MergedGroupsSay(groups[..n], merged[..n], m, f, q);
      assert merged == merged[..n] + [merged[n]];
      RunsConcat(merged[..n], [merged[n]], m, f, q);
      RunsConcat(Flatten(groups[..n]), groups[n], m, f, q);
      MergeSays(groups[n], merged[n], m, f, q);
      ExitCodeConcat(Flatten(groups[..n]), groups[n]);
    }
  }

  /**
   Merging the merges of any groups is merging all their runs: the same coverage
   and the same exit code, and the same name unless the last group is empty.
   */
  lemma MergeOfMerges(groups: seq<seq<CoverageData>>, merged: seq<CoverageData>, r: CoverageData, whole: CoverageData)
    requires MergedEach(groups, merged) && IsMergeOf(merged, r) && IsMergeOf(Flatten(groups), whole)
    ensures SameCoverage([r], [whole])
    ensures r.exitCode == whole.exitCode
    ensures r.name == whole.name <==> groups == [] || groups[|groups| - 1] != [] || LastName(Flatten(groups)) == ""
  {
    hide ModulesMerged, HasModule, HasFile, RunsSay;
    forall m, f, q ensures SameAt([r], [whole], m, f, q) {
      MergedGroupsSay(groups, merged, m, f, q);
      MergeSays(merged, r, m, f, q);
      MergeSays(Flatten(groups), whole, m, f, q);
    }
    SameEverywhere([r], [whole]);
    MergedGroupsSay(groups, merged, "", "", Line(0));
  }

  // ----- Aggregating files with the same path, in place ---------------------------------------------------

  function ObjectPath(f: FileCoverage): string {
    f.path
  }

  ghost predicate DistinctObjects(files: seq<FileCoverage>) {
    forall i, j :: 0 <= i < j < |files| ==> files[i] != files[j]
  }

  ghost function Contents(files: seq<FileCoverage>): (r: seq<LineMap>)
    reads files
    ensures |r| == |files| && forall i :: 0 <= i < |files| ==> r[i] == files[i].lines
  {
    seq(|files|, i requires 0 <= i < |files| reads files => files[i].lines)
  }

  /** The last file of a group, joined with the others in order. */
  function Sum(contents: seq<LineMap>): LineMap
    requires contents != []
  {
    JoinAll(contents[..|contents| - 1], contents[|contents| - 1])
  }

  /** `MergeFileCoverages`. */
  method MergeFileCoverages(fileCoverages: seq<FileCoverage>)
    requires DistinctObjects(fileCoverages) && fileCoverages != [] && AllKeyed(Contents(fileCoverages))
    modifies fileCoverages
    ensures forall f :: f in fileCoverages ==> f.lines == Sum(old(Contents(fileCoverages)))
  {
    hide Keyed, Join;
    ghost var contents := Contents(fileCoverages);
    assert JoinAll([], contents[|contents| - 1]) == contents[|contents| - 1];
    if |fileCoverages| > 1 {
      var n := |fileCoverages| - 1;
      var fileCoverageSum := fileCoverages[n];
      for k := 0 to n
        invariant fileCoverageSum.lines == JoinAll(contents[..k], contents[n]) && Keyed(fileCoverageSum.lines)
        invariant forall i :: 0 <= i < n ==> fileCoverages[i].lines == contents[i]
      {
        assert contents[..k + 1][..k] == contents[..k];
        AddFileCoverageTo(fileCoverages[k].lines, fileCoverageSum);
      }
      for k := 0 to n
        invariant fileCoverageSum.lines == Sum(contents)
        invariant forall i :: 0 <= i < k ==> fileCoverages[i].lines == Sum(contents)
      {
        fileCoverages[k].lines := fileCoverageSum.lines;
      }
    } else {
      assert contents[..0] == [];
    }
  }

  /** The files of all modules with a path, in order. */
  function SamePath(files: seq<FileCoverage>, path: string): seq<FileCoverage> {
    WithKey(files, ObjectPath, path)
  }

  lemma {:induction false} SamePathDistinct(files: seq<FileCoverage>, path: string)
    requires DistinctObjects(files)
    ensures DistinctObjects(SamePath(files, path))
  {
    if files != [] {
      var n := |files| - 1;
      SamePathDistinct(files[..n], path);
      assert files[n] !in files[..n];
    }
  }

  lemma InSamePath(files: seq<FileCoverage>, f: FileCoverage, path: string)
    ensures f in SamePath(files, path) <==> f in files && f.path == path
  {
    WithKeyMembers(files, ObjectPath, path);
  }

  lemma GroupOf(groups: map<string, seq<FileCoverage>>, files: seq<FileCoverage>, path: string)
    requires Grouped(groups, files, ObjectPath) && path in groups && DistinctObjects(files)
    ensures groups[path] == SamePath(files, path) && groups[path] != [] && DistinctObjects(groups[path])
    ensures forall k :: 0 <= k < |groups[path]| ==> groups[path][k] in files && groups[path][k].path == path
    ensures forall f :: f in files && f.path == path ==> f in groups[path]
  {
    SamePathDistinct(files, path);
    forall k | 0 <= k < |groups[path]| ensures groups[path][k] in files && groups[path][k].path == path {
      InSamePath(files, groups[path][k], path);
    }
    forall f | f in files && f.path == path ensures f in groups[path] {
      InSamePath(files, f, path);
    }
  }

  lemma AllGrouped(groups: map<string, seq<FileCoverage>>, files: seq<FileCoverage>)
    requires Grouped(groups, files, ObjectPath)
    ensures forall f :: f in files ==> f.path in groups
  {
    forall f | f in files ensures f.path in groups {
      assert ObjectPath(f) in groups;
    }
  }

  /** The first loop of `MergeFileCoverage`. */
  method GroupByPath(files: seq<FileCoverage>) returns (fileCoveragesByPath: map<string, seq<FileCoverage>>)
    ensures Grouped(fileCoveragesByPath, files, ObjectPath)
  {
    fileCoveragesByPath := map[];
    for k := 0 to |files|
      invariant Grouped(fileCoveragesByPath, files[..k], ObjectPath)
    {
      var path := files[k].path;
      GroupedOneMore(fileCoveragesByPath, files[..k], ObjectPath, files[k]);
      assert files[..k + 1] == files[..k] + [files[k]];
      fileCoveragesByPath :=
        fileCoveragesByPath[path := (if path in fileCoveragesByPath then fileCoveragesByPath[path] else []) + [files[k]]];
    }
    assert files[..|files|] == files;
  }

  /** `MergeFileCoverage`, on the files of all modules; they are objects of their own. */
  method MergeFileCoverage(files: seq<FileCoverage>)
    requires DistinctObjects(files) && AllKeyed(Contents(files))
    modifies files
    ensures forall f :: f in files ==> SamePath(files, f.path) != []
    ensures forall f :: f in files ==> f.lines == Sum(old(Contents(SamePath(files, f.path))))
  {
    hide Keyed, Join, JoinAll, Sum, Grouped, DistinctObjects, WithKey;
    forall f | f in files ensures SamePath(files, f.path) != [] {
      InSamePath(files, f, f.path);
    }
    var fileCoveragesByPath := GroupByPath(files);
    assert forall f :: f in files ==> f.path in fileCoveragesByPath by { AllGrouped(fileCoveragesByPath, files); }
    var rest := fileCoveragesByPath.Keys;
    while rest != {}
      invariant rest <= fileCoveragesByPath.Keys
      invariant forall f :: f in files && f.path in rest ==> f.lines == old(f.lines)
      invariant forall f :: f in files && f.path !in rest ==> f.lines == Sum(old(Contents(SamePath(files, f.path))))
    {
      var path :| path in rest;
      GroupOf(fileCoveragesByPath, files, path);
      assert Contents(fileCoveragesByPath[path]) == old(Contents(SamePath(files, path)));
      MergeFileCoverages(fileCoveragesByPath[path]);
      rest := rest - {path};
    }
  }

  /** After the aggregation a file says what some file with its path said. */
  lemma SumSays(contents: seq<LineMap>, q: Fact)
    requires contents != []
    ensures Says(Sum(contents), q) <==> SomeSays(contents, q)
  {
    hide Says, JoinAll;
    var n := |contents| - 1;
    JoinAllSays(contents[..n], contents[n], q);
    assert contents == contents[..n] + [contents[n]];
    assert forall m :: m in contents <==> m in contents[..n] || m == contents[n];
  }

  lemma SumUnique(contents: seq<LineMap>)
    requires contents != [] && forall m :: m in contents ==> UniqueLines(m)
    ensures UniqueLines(Sum(contents))
  {
    JoinAllUnique(contents[..|contents| - 1], contents[|contents| - 1]);
  }

  lemma {:induction false} JoinAllKeyed(sources: seq<LineMap>, destination: LineMap)
    requires Keyed(destination) && AllKeyed(sources)
    ensures Keyed(JoinAll(sources, destination))
  {
    if sources != [] {
      JoinAllKeyed(sources[..|sources| - 1], destination);
    }
  }

  /** Aggregating a second time changes nothing: the files of a path all hold the sum, and its sum is itself. */
  lemma AggregatedForGood(contents: seq<LineMap>, again: seq<LineMap>)
    requires contents != [] && AllKeyed(contents) && forall m :: m in contents ==> UniqueLines(m)
    requires again != [] && forall i :: 0 <= i < |again| ==> again[i] == Sum(contents)
    ensures Sum(again) == Sum(contents)
  {
    hide UniqueLines, Keyed, JoinAll;
    SumUnique(contents);
    JoinAllKeyed(contents[..|contents| - 1], contents[|contents| - 1]);
    JoinAllSame(again[..|again| - 1], Sum(contents));
  }
}
