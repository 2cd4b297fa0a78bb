/**
 Plugin/Exporter/LineCoverage.cpp and Plugin/Exporter/FileCoverage.cpp: the
 coverage of one line with its branch conditions, and of one file; and the
 containers of files, modules and runs.
 */
module LineCoverages {
  import opened Common

  datatype Condition = Condition(index: nat, takenSeen: bool, notTakenSeen: bool)

  datatype LineCoverage = LineCoverage(lineNumber: nat, hasBeenExecuted: bool, conditions: seq<Condition>)

  // ----- What a list of conditions means: an OR per condition index -----------

  ghost predicate HasIndex(cs: seq<Condition>, i: nat) {
    exists c :: c in cs && c.index == i
  }

  ghost predicate Taken(cs: seq<Condition>, i: nat) {
    exists c :: c in cs && c.index == i && c.takenSeen
  }

  ghost predicate NotTaken(cs: seq<Condition>, i: nat) {
    exists c :: c in cs && c.index == i && c.notTakenSeen
  }

  ghost predicate UniqueIndices(cs: seq<Condition>) {
    forall i, j :: 0 <= i < j < |cs| ==> cs[i].index != cs[j].index
  }

  // ----- MergeConditions -------------------------------------------------------

  /** `std::find_if` by condition index; |cs| when there is none. */
  function FindIndex(cs: seq<Condition>, i: nat): (k: nat)
    ensures k <= |cs|
    ensures forall j :: 0 <= j < k ==> cs[j].index != i
    ensures k < |cs| ==> cs[k].index == i
  {
    if cs == [] || cs[0].index == i then 0 else 1 + FindIndex(cs[1..], i)
  }

  function MergeOne(cs: seq<Condition>, c: Condition): seq<Condition> {
    var k := FindIndex(cs, c.index);
    if k == |cs| then
      cs + [c]
    else
      cs[k := Condition(c.index, cs[k].takenSeen || c.takenSeen, cs[k].notTakenSeen || c.notTakenSeen)]
  }

  function MergeAll(cs: seq<Condition>, more: seq<Condition>): seq<Condition> {
    if more == [] then cs else MergeOne(MergeAll(cs, more[..|more| - 1]), more[|more| - 1])
  }

  /** `LineCoverage::MergeConditions`. */
  method MergeConditions(cs: seq<Condition>, conditions: seq<Condition>) returns (r: seq<Condition>)
    ensures r == MergeAll(cs, conditions)
  {
    r := cs;
    for n := 0 to |conditions|
      invariant r == MergeAll(cs, conditions[..n])
    {
      var condition := conditions[n];
      var it := FindIndex(r, condition.index);
      if it == |r| {
        r := r + [condition];
      } else {
        r := r[it := r[it].(takenSeen := r[it].takenSeen || condition.takenSeen,
                            notTakenSeen := r[it].notTakenSeen || condition.notTakenSeen)];
      }
      assert conditions[..n + 1][..n] == conditions[..n];
    }
    assert conditions[..|conditions|] == conditions;
  }

  lemma MergeOneMeaning(cs: seq<Condition>, c: Condition, i: nat)
    ensures var r := MergeOne(cs, c);
      && (HasIndex(r, i) <==> HasIndex(cs, i) || c.index == i)
      && (Taken(r, i) <==> Taken(cs, i) || (c.index == i && c.takenSeen))
      && (NotTaken(r, i) <==> NotTaken(cs, i) || (c.index == i && c.notTakenSeen))
    ensures UniqueIndices(cs) ==> UniqueIndices(MergeOne(cs, c))
  {
    var k := FindIndex(cs, c.index);
    var r := MergeOne(cs, c);
    if k < |cs| {
      forall d | d in cs ensures d == cs[k] || d in r {
        var j :| 0 <= j < |cs| && cs[j] == d;
        if j != k {
          assert r[j] == d;
        }
      }
      forall d | d in r ensures d == r[k] || d in cs {
        var j :| 0 <= j < |r| && r[j] == d;
        if j != k {
          assert cs[j] == d;
        }
      }
      assert r[k] in r && cs[k] in cs;
    }
  }

  /** Merging condition lists is the pointwise OR, keyed by condition index, and keeps indices unique. */
  lemma {:induction false} MergeAllMeaning(cs: seq<Condition>, more: seq<Condition>, i: nat)
    ensures var r := MergeAll(cs, more);
      && (HasIndex(r, i) <==> HasIndex(cs, i) || HasIndex(more, i))
      && (Taken(r, i) <==> Taken(cs, i) || Taken(more, i))
      && (NotTaken(r, i) <==> NotTaken(cs, i) || NotTaken(more, i))
    ensures UniqueIndices(cs) ==> UniqueIndices(MergeAll(cs, more))
  {
    if more != [] {
      var init, last := more[..|more| - 1], more[|more| - 1];
      MergeAllMeaning(cs, init, i);
      MergeOneMeaning(MergeAll(cs, init), last, i);
      assert more == init + [last];
      assert forall c :: c in more <==> c in init || c == last;
    }
  }

  /** Merging into an empty list a list with unique indices copies it. */
  lemma {:induction false} MergeIntoEmpty(more: seq<Condition>)
    requires UniqueIndices(more)
    ensures MergeAll([], more) == more
  {
    if more != [] {
      var init, last := more[..|more| - 1], more[|more| - 1];
      MergeIntoEmpty(init);
      assert more == init + [last];
    }
  }

  // ----- FileCoverage ----------------------------------------------------------

  type LineMap = map<nat, LineCoverage>

  /** Each line is stored under its own number. */
  ghost predicate Keyed(lines: LineMap) {
    forall n :: n in lines ==> lines[n].lineNumber == n
  }

  /** Each line of the map once, in increasing order. */
  ghost predicate InLineOrder(r: seq<LineCoverage>, lines: LineMap) {
    && (forall n :: n in lines ==> lines[n] in r)
    && (forall i :: 0 <= i < |r| ==> r[i].lineNumber in lines && lines[r[i].lineNumber] == r[i])
    && (forall i, j :: 0 <= i < j < |r| ==> r[i].lineNumber < r[j].lineNumber)
  }

  predicate IsSmallest(n: nat, s: set<nat>) {
    n in s && forall o :: o in s ==> n <= o
  }

  lemma {:induction false} SmallestExists(s: set<nat>)
    requires s != {}
    ensures exists n :: IsSmallest(n, s)
  {
    var n :| n in s;
    if s == {n} {
      assert IsSmallest(n, s);
    } else {
      SmallestExists(s - {n});
      var m :| IsSmallest(m, s - {n});
      forall o | o in s ensures o == n || m <= o {
        assert o == n || o in s - {n};
      }
      assert IsSmallest(if n < m then n else m, s);
    }
  }

  function Except(lines: LineMap, rest: set<nat>): LineMap {
    map n | n in lines && n !in rest :: lines[n]
  }

  lemma OneMoreLine(r: seq<LineCoverage>, lines: LineMap, rest: set<nat>, n: nat)
    requires Keyed(lines) && rest <= lines.Keys && IsSmallest(n, rest) && InLineOrder(r, Except(lines, rest))
    requires forall i, o :: 0 <= i < |r| && o in rest ==> r[i].lineNumber < o
    ensures InLineOrder(r + [lines[n]], Except(lines, rest - {n}))
    ensures forall i, o :: 0 <= i < |r| + 1 && o in rest - {n} ==> (r + [lines[n]])[i].lineNumber < o
  {
    var all := r + [lines[n]];
    forall k | k in Except(lines, rest - {n}) ensures lines[k] in all {
      if k == n {
        assert all[|r|] == lines[k];
      } else {
        assert k in Except(lines, rest) && lines[k] in r;
      }
    }
    forall o | o in rest - {n} ensures n < o {
      assert o in rest;
    }
  }

  /** `FileCoverage::GetLines`: the lines in increasing line order. */
  method GetLines(lines: LineMap) returns (r: seq<LineCoverage>)
    requires Keyed(lines)
    ensures InLineOrder(r, lines)
  {
    r := [];
    var rest := lines.Keys;
    while rest != {}
      invariant rest <= lines.Keys
      invariant InLineOrder(r, Except(lines, rest))
      invariant forall i, o :: 0 <= i < |r| && o in rest ==> r[i].lineNumber < o
    {
      SmallestExists(rest);
      var n :| IsSmallest(n, rest);
      OneMoreLine(r, lines, rest, n);
      r := r + [lines[n]];
      rest := rest - {n};
    }
    assert Except(lines, {}) == lines;
  }

  class FileCoverage {
    const path: string
    var lines: LineMap

    constructor (path: string)
      ensures this.path == path && lines == map[]
    {
      this.path := path;
      lines := map[];
    }

    /** The overload of `AddLine` that takes a whole line. */
    method AddLine(line: LineCoverage) returns (ok: bool)
      modifies this`lines
      ensures ok <==> line.lineNumber !in old(lines)
      ensures lines == if ok then old(lines)[line.lineNumber := line] else old(lines)
    {
      ok := line.lineNumber !in lines;
      if ok {
        lines := lines[line.lineNumber := line];
      }
    }

    method UpdateLine(lineNumber: nat, hasBeenExecuted: bool) returns (ok: bool)
      modifies this`lines
      ensures ok <==> lineNumber in old(lines)
      ensures lines == if ok then
        old(lines)[lineNumber := LineCoverage(lineNumber, hasBeenExecuted, old(lines)[lineNumber].conditions)]
      else old(lines)
    {
      ok := lineNumber in lines;
      if ok {
        var conditions := lines[lineNumber].conditions;
        lines := lines - {lineNumber};
        lines := lines[lineNumber := LineCoverage(lineNumber, hasBeenExecuted, conditions)];
      }
    }

    /** `MergeLineConditions`; `AddLineConditions` has the same body. */
    method MergeLineConditions(lineNumber: nat, conditions: seq<Condition>) returns (ok: bool)
      modifies this`lines
      ensures ok <==> lineNumber in old(lines)
      ensures lines == if ok then
        old(lines)[lineNumber := old(lines)[lineNumber].(conditions := MergeAll(old(lines)[lineNumber].conditions, conditions))]
      else old(lines)
    {
      ok := lineNumber in lines;
      if ok {
        var merged := MergeConditions(lines[lineNumber].conditions, conditions);
        lines := lines[lineNumber := lines[lineNumber].(conditions := merged)];
      }
    }
  }

  // ----- Modules and runs ----------------------------------------------------------

  /** A file, module or run that nobody writes to any more is a value. */
  datatype FileData = FileData(path: string, lines: LineMap)

  datatype ModuleCoverage = ModuleCoverage(path: string, files: seq<FileData>)

  datatype CoverageData = CoverageData(name: string, exitCode: int, modules: seq<ModuleCoverage>)
}
