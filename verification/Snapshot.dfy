/** `ExecutedAddressManager::CreateCoverageData`: the coverage reported from the bookkeeping. */
module Snapshots {
  import opened Common
  import opened AddressManagers
  import opened LineCoverages

  /** `std::pair<unsigned int, unsigned int>`: a line number and a condition index. */
  type Place = (nat, nat)

  predicate Before(a: Place, b: Place) {
    a.0 < b.0 || (a.0 == b.0 && a.1 < b.1)
  }

  predicate IsFirst(a: Place, places: set<Place>) {
    a in places && forall b :: b in places && b != a ==> Before(a, b)
  }

  /** A nonempty `std::map` has a first key. */
  lemma {:induction false} FirstExists(places: set<Place>)
    requires places != {}
    ensures exists a :: IsFirst(a, places)
  {
    var b :| b in places;
    if places == {b} {
      assert IsFirst(b, places);
    } else {
      FirstExists(places - {b});
      var a :| IsFirst(a, places - {b});
      if Before(a, b) {
        assert IsFirst(a, places);
      } else {
        forall o | o in places && o != b ensures Before(b, o) {
          assert a != b && (o == a || Before(a, o));
        }
        assert IsFirst(b, places);
      }
    }
  }

  // ----- What a file must report -------------------------------------------------------------

  function Reported(conditions: map<Place, ConditionState>, n: nat, i: nat): Condition
    requires (n, i) in conditions
  {
    Condition(i, conditions[(n, i)].takenSeen, conditions[(n, i)].notTakenSeen)
  }

  lemma ReportsItsOutcomes(conditions: map<Place, ConditionState>, n: nat, i: nat)
    requires (n, i) in conditions
    ensures var c := Reported(conditions, n, i);
      && c.index == i
      && c.takenSeen == conditions[(n, i)].takenSeen && c.notTakenSeen == conditions[(n, i)].notTakenSeen
  {
  }

  /** Exactly the conditions of line n among the given places, in increasing index order. */
  ghost predicate Lists(cs: seq<Condition>, conditions: map<Place, ConditionState>, places: set<Place>, n: nat) {
    && (forall j, k :: 0 <= j < k < |cs| ==> cs[j].index < cs[k].index)
    && (forall c :: c in cs ==> (n, c.index) in places && (n, c.index) in conditions && c == Reported(conditions, n, c.index))
    && (forall i :: (n, i) in places && (n, i) in conditions ==> Reported(conditions, n, i) in cs)
  }

  ghost predicate LineExact(line: LineCoverage, n: nat, executed: bool, conditions: map<Place, ConditionState>, places: set<Place>) {
    line.lineNumber == n && line.hasBeenExecuted == executed && Lists(line.conditions, conditions, places, n)
  }

  /** The lines of the file with their flags, and each line with its conditions. */
  ghost predicate FileExact(reported: LineMap, lines: map<nat, bool>, conditions: map<Place, ConditionState>) {
    && reported.Keys == lines.Keys
    && forall n :: n in lines ==> LineExact(reported[n], n, lines[n], conditions, conditions.Keys)
  }

  /** What is listed for a line has no duplicate, and two exact lists are the same. */
  lemma {:induction false} ListsUnique(cs: seq<Condition>, ds: seq<Condition>, conditions: map<Place, ConditionState>,
                                       places: set<Place>, n: nat)
    requires Lists(cs, conditions, places, n) && Lists(ds, conditions, places, n)
    ensures UniqueIndices(cs) && cs == ds
    decreases |cs|
  {
    if cs != [] {
      var c := cs[|cs| - 1];
      assert (n, c.index) in places && c in ds;
      var d := ds[|ds| - 1];
      assert (n, d.index) in places && d in cs;
      assert c == d;
      var rest := places - {(n, c.index)};
      DropLast(cs, conditions, places, n);
      DropLast(ds, conditions, places, n);
      ListsUnique(cs[..|cs| - 1], ds[..|ds| - 1], conditions, rest, n);
      assert cs == cs[..|cs| - 1] + [c] && ds == ds[..|ds| - 1] + [d];
    } else {
      assert |ds| > 0 ==> (n, ds[0].index) in places;
    }
  }

  lemma DropLast(cs: seq<Condition>, conditions: map<Place, ConditionState>, places: set<Place>, n: nat)
    requires Lists(cs, conditions, places, n) && cs != []
    ensures Lists(cs[..|cs| - 1], conditions, places - {(n, cs[|cs| - 1].index)}, n)
  {
    var k := |cs| - 1;
    forall c | c in cs[..k] ensures c.index != cs[k].index && c in cs {
    }
    forall i | (n, i) in places - {(n, cs[k].index)} && (n, i) in conditions ensures Reported(conditions, n, i) in cs[..k] {
      var j :| 0 <= j < |cs| && cs[j] == Reported(conditions, n, i);
    }
  }

  lemma ListsNothing(cs: seq<Condition>, conditions: map<Place, ConditionState>, places: set<Place>, n: nat)
    requires Lists(cs, conditions, places, n) && forall place :: place in places ==> place.0 != n
    ensures cs == []
  {
    assert |cs| > 0 ==> (n, cs[0].index) in places;
  }

  // ----- One file -------------------------------------------------------------------------------

  /** The lines of the file, before any condition is attached. */
  method FileLines(path: string, lines: map<nat, bool>) returns (file: FileCoverage)
    ensures fresh(file) && file.path == path && file.lines == map n | n in lines :: LineCoverage(n, lines[n], [])
  {
    file := new FileCoverage(path);
    var rest := lines.Keys;
    while rest != {}
      invariant rest <= lines.Keys
      invariant file.path == path
      invariant file.lines == map n | n in lines && n !in rest :: LineCoverage(n, lines[n], [])
    {
      var n :| n in rest;
      rest := rest - {n};
      var ok := file.AddLine(LineCoverage(n, lines[n], []));
      assert ok;
    }
  }

  /** The lambda `flush`: attaches the collected conditions to their line, if there are any. */
  method Flush(file: FileCoverage, currentLine: nat, conditions: seq<Condition>) returns (ok: bool)
    modifies file`lines
    ensures ok <==> conditions == [] || currentLine in old(file.lines)
    ensures file.lines == if ok && conditions != []
      then old(file.lines)[currentLine := old(file.lines)[currentLine].(
             conditions := MergeAll(old(file.lines)[currentLine].conditions, conditions))]
      else old(file.lines)
  {
    ok := true;
    if conditions != [] {
      ok := file.MergeLineConditions(currentLine, conditions);
    }
  }

  /** While the places are visited in order: every line but the current one is complete for what was visited. */
  ghost predicate Visited(reported: LineMap, lines: map<nat, bool>, conditions: map<Place, ConditionState>,
                          done: set<Place>, currentLine: nat, pending: seq<Condition>) {
    && reported.Keys == lines.Keys
    && done <= conditions.Keys
    && Lists(pending, conditions, done, currentLine)
    && (forall n :: n in lines && n != currentLine ==> LineExact(reported[n], n, lines[n], conditions, done))
    && (currentLine in lines ==> reported[currentLine] == LineCoverage(currentLine, lines[currentLine], []))
    && (forall d :: d in done ==> d.0 <= currentLine && (d.0 == currentLine || d.0 in lines))
  }

  ghost predicate InOrder(done: set<Place>, rest: set<Place>) {
    forall d, o :: d in done && o in rest ==> Before(d, o)
  }

  /** Flushing completes the current line; the next line has no conditions yet. */
  lemma FlushedVisited(reported: LineMap, lines: map<nat, bool>, conditions: map<Place, ConditionState>,
                       done: set<Place>, currentLine: nat, pending: seq<Condition>, flushed: LineMap, next: nat)
    requires Visited(reported, lines, conditions, done, currentLine, pending)
    requires pending == [] || currentLine in lines
    requires flushed == if pending == [] then reported
      else reported[currentLine := reported[currentLine].(conditions := MergeAll([], pending))]
    requires next > currentLine
    ensures Visited(flushed, lines, conditions, done, next, [])
    ensures forall n :: n in lines ==> LineExact(flushed[n], n, lines[n], conditions, done)
  {
    ListsUnique(pending, pending, conditions, done, currentLine);
    MergeIntoEmpty(pending);
    if next in lines {
      ListsNothing(flushed[next].conditions, conditions, done, next);
    }
  }

  /** Collecting the first remaining place. */
  lemma Collected(conditions: map<Place, ConditionState>, done: set<Place>, rest: set<Place>, place: Place, pending: seq<Condition>)
    requires InOrder(done, rest) && place in rest && place in conditions && Lists(pending, conditions, done, place.0)
    ensures Lists(pending + [Reported(conditions, place.0, place.1)], conditions, done + {place}, place.0)
  {
    var all := pending + [Reported(conditions, place.0, place.1)];
    forall c | c in pending ensures c.index < place.1 {
      assert Before((place.0, c.index), place);
    }
    forall i | (place.0, i) in done + {place} && (place.0, i) in conditions ensures Reported(conditions, place.0, i) in all {
      if i != place.1 {
        assert Reported(conditions, place.0, i) in pending;
      } else {
        assert all[|pending|] == Reported(conditions, place.0, i);
      }
    }
  }

  /** One file of the snapshot; it throws exactly when some condition has no line. */
  method FileSnapshot(path: string, lines: map<nat, bool>, conditions: map<Place, ConditionState>)
    returns (r: Result<FileData>)
    ensures r.Ok? <==> forall place :: place in conditions ==> place.0 in lines
    ensures r.Ok? ==> r.value.path == path && FileExact(r.value.lines, lines, conditions)
  {
    var file := FileLines(path, lines);
    var rest := conditions.Keys;
    ghost var done: set<Place> := {};
    var currentLine := 0;
    var pending: seq<Condition> := [];
    while rest != {}
      invariant done + rest == conditions.Keys && done !! rest && InOrder(done, rest)
      invariant Visited(file.lines, lines, conditions, done, currentLine, pending)
      invariant forall o :: o in rest ==> currentLine <= o.0
      invariant fresh(file) && file.path == path
    {
      FirstExists(rest);
      var place :| IsFirst(place, rest);
      if place.0 != currentLine {
        ghost var before := file.lines;
        var ok := Flush(file, currentLine, pending);
        if !ok {
          assert (currentLine, pending[0].index) in conditions;
          return Throw;
        }
        FlushedVisited(before, lines, conditions, done, currentLine, pending, file.lines, place.0);
        pending := [];
        currentLine := place.0;
      }
      Collected(conditions, done, rest, place, pending);
      pending := pending + [Reported(conditions, place.0, place.1)];
      StillVisited(file.lines, lines, conditions, done, place);
      rest := rest - {place};
      done := done + {place};
    }
    ghost var before := file.lines;
    var ok := Flush(file, currentLine, pending);
    if !ok {
      assert (currentLine, pending[0].index) in conditions;
      return Throw;
    }
    assert done == conditions.Keys;
    FlushedVisited(before, lines, conditions, done, currentLine, pending, file.lines, currentLine + 1);
    AllHaveLines(conditions, lines, currentLine, pending, done);
    r := Ok(FileData(file.path, file.lines));
  }

  /** A new place on the current line changes nothing for the other lines. */
  lemma StillVisited(reported: LineMap, lines: map<nat, bool>, conditions: map<Place, ConditionState>, done: set<Place>, place: Place)
    requires reported.Keys == lines.Keys
    ensures forall n :: n in lines && n != place.0 && LineExact(reported[n], n, lines[n], conditions, done) ==>
      LineExact(reported[n], n, lines[n], conditions, done + {place})
  {
  }

  lemma AllHaveLines(conditions: map<Place, ConditionState>, lines: map<nat, bool>, currentLine: nat, pending: seq<Condition>,
                     done: set<Place>)
    requires pending == [] || currentLine in lines
    requires Lists(pending, conditions, done, currentLine) && done == conditions.Keys
    requires forall d :: d in done ==> d.0 <= currentLine && (d.0 == currentLine || d.0 in lines)
    ensures forall place :: place in conditions ==> place.0 in lines
  {
    forall place | place in conditions ensures place.0 in lines {
      if place.0 == currentLine {
        assert place == (currentLine, place.1);
        assert Reported(conditions, currentLine, place.1) in pending;
      }
    }
  }

  // ----- The whole snapshot ---------------------------------------------------------------------------

  function LinesOf(lines: map<LineKey, bool>, file: FileKey): map<nat, bool> {
    map k | k in lines && k.file == file :: k.line := lines[k]
  }

  function ConditionsOf(conditions: map<ConditionKey, ConditionState>, file: FileKey): map<Place, ConditionState> {
    map c | c in conditions && c.file == file :: (c.line, c.index) := conditions[c]
  }

  /** The files of a module: those with a line or a condition. */
  function PathsIn(lines: map<LineKey, bool>, conditions: map<ConditionKey, ConditionState>, moduleName: string): set<string> {
    (set k | k in lines && k.file.moduleName == moduleName :: k.file.path) +
    (set c | c in conditions && c.file.moduleName == moduleName :: c.file.path)
  }

  ghost predicate ModuleExact(s: State, m: ModuleCoverage) {
    && (forall i, j :: 0 <= i < j < |m.files| ==> m.files[i].path != m.files[j].path)
    && (forall f :: f in m.files ==> f.path in PathsIn(s.lines, s.conditions, m.path))
    && (forall p :: p in PathsIn(s.lines, s.conditions, m.path) ==> exists f :: f in m.files && f.path == p)
    && (forall f :: f in m.files ==>
          FileExact(f.lines, LinesOf(s.lines, FileKey(m.path, f.path)), ConditionsOf(s.conditions, FileKey(m.path, f.path))))
  }

  /** A condition of this module has no line. */
  ghost predicate Orphaned(s: State, moduleName: string) {
    exists c :: c in s.conditions && c.file.moduleName == moduleName && LineKey(c.file, c.line) !in s.lines
  }

  lemma HasPaths(s: State, moduleName: string)
    ensures forall c :: c in s.conditions && c.file.moduleName == moduleName ==>
      c.file.path in PathsIn(s.lines, s.conditions, moduleName)
  {
  }

  method ModuleSnapshot(manager: ExecutedAddressManager, moduleName: string) returns (r: Result<ModuleCoverage>)
    ensures r.Ok? <==> !Orphaned(manager.Abs(), moduleName)
    ensures r.Ok? ==> r.value.path == moduleName && ModuleExact(manager.Abs(), r.value)
  {
    hide FileExact, LinesOf, ConditionsOf, PathsIn;
    HasPaths(manager.Abs(), moduleName);
    var files: seq<FileData> := [];
    var paths := PathsIn(manager.lines, manager.conditions, moduleName);
    var rest := paths;
    while rest != {}
      invariant rest <= paths
      invariant forall i, j :: 0 <= i < j < |files| ==> files[i].path != files[j].path
      invariant forall f :: f in files ==> f.path in paths && f.path !in rest
      invariant forall p :: p in paths && p !in rest ==> exists f :: f in files && f.path == p
      invariant forall f :: f in files ==>
        FileExact(f.lines, LinesOf(manager.lines, FileKey(moduleName, f.path)),
                  ConditionsOf(manager.conditions, FileKey(moduleName, f.path)))
      invariant forall c :: c in manager.conditions && c.file.moduleName == moduleName && c.file.path !in rest ==>
        LineKey(c.file, c.line) in manager.lines
    {
      var path :| path in rest;
      var key := FileKey(moduleName, path);
      var lines, conditions := LinesOf(manager.lines, key), ConditionsOf(manager.conditions, key);
      var file := FileSnapshot(path, lines, conditions);
      FileOrphans(manager.Abs(), key);
      if file.Throw? {
        return Throw;
      }
      rest := rest - {path};
      files := files + [file.value];
    }
    r := Ok(ModuleCoverage(moduleName, files));
  }

  lemma FileOrphans(s: State, file: FileKey)
    ensures (forall place :: place in ConditionsOf(s.conditions, file) ==> place.0 in LinesOf(s.lines, file)) <==>
            (forall c :: c in s.conditions && c.file == file ==> LineKey(c.file, c.line) in s.lines)
  {
    forall n ensures n in LinesOf(s.lines, file) <==> LineKey(file, n) in s.lines {
      if LineKey(file, n) in s.lines {
        assert LineKey(file, n).line == n;
      }
    }
    forall c | c in s.conditions && c.file == file ensures (c.line, c.index) in ConditionsOf(s.conditions, file) {
    }
    forall place | place in ConditionsOf(s.conditions, file) ensures ConditionKey(file, place.0, place.1) in s.conditions {
    }
  }

  /** Every module once. */
  ghost predicate ModulesListed(s: State, modules: seq<ModuleCoverage>) {
    && (forall i, j :: 0 <= i < j < |modules| ==> modules[i].path != modules[j].path)
    && (forall m :: m in modules ==> m.path in s.modules)
    && (forall name :: name in s.modules ==> exists m :: m in modules && m.path == name)
  }

  /** The snapshot: it throws exactly when a condition of some module has no line, and is exact otherwise. */
  method CreateCoverageData(manager: ExecutedAddressManager, name: string, exitCode: int) returns (r: Result<CoverageData>)
    ensures r.Ok? <==> forall m :: m in manager.modules ==> !Orphaned(manager.Abs(), m)
    ensures r.Ok? ==> r.value.name == name && r.value.exitCode == exitCode
    ensures r.Ok? ==> ModulesListed(manager.Abs(), r.value.modules)
    ensures r.Ok? ==> forall m :: m in r.value.modules ==> ModuleExact(manager.Abs(), m)
  {
    var modules: seq<ModuleCoverage> := [];
    var rest := manager.modules;
    while rest != {}
      invariant rest <= manager.modules
      invariant forall i, j :: 0 <= i < j < |modules| ==> modules[i].path != modules[j].path
      invariant forall m :: m in modules ==> m.path in manager.modules && m.path !in rest
      invariant forall m :: m in manager.modules && m !in rest ==> exists n :: n in modules && n.path == m
      invariant forall m :: m in modules ==> ModuleExact(manager.Abs(), m)
      invariant forall m :: m in manager.modules && m !in rest ==> !Orphaned(manager.Abs(), m)
    {
      var moduleName :| moduleName in rest;
      var m := ModuleSnapshot(manager, moduleName);
      if m.Throw? {
        return Throw;
      }
      rest := rest - {moduleName};
      modules := modules + [m.value];
    }
    r := Ok(CoverageData(name, exitCode, modules));
  }

  /** When every condition has a line, no module is orphaned: the snapshot cannot throw. */
  lemma NeverOrphaned(s: State, moduleName: string)
    requires ConditionsHaveLines(s)
    ensures !Orphaned(s, moduleName)
  {
  }
}
