/**
 FileFilter/PathMatcher.cpp, the postfix engine, and the cache in front of it in
 FileFilter/UnifiedDiffCoverageFilter.cpp.  A pointer to a file of the diff is
 modelled by its place in the engine's table.
 */
module PathMatchers {
  import opened Common
  import opened UnifiedDiffParsers

  datatype PathData = PathData(postFixPath: File, matchedPath: Option<string>)

  type Table = map<string, seq<PathData>>

  datatype Entry = Entry(filename: string, index: nat)

  datatype MatchResult = NotFound | Found(entry: Entry) | Ambiguous

  /** `NormalizePath`, and `filename` of a normalized path. */
  datatype Paths = Paths(normalize: string -> string, filename: string -> string)

  // ----- One match ---------------------------------------------------------------------------------

  predicate EndsWith(s: string, suffix: string) {
    |suffix| <= |s| && s[|s| - |suffix|..] == suffix
  }

  predicate Fits(paths: Paths, path: string, d: PathData) {
    EndsWith(path, paths.normalize(d.postFixPath.path))
  }

  /** The first entry that fits; their number when none does. */
  function FirstFit(paths: Paths, path: string, ds: seq<PathData>): (i: nat)
    ensures i <= |ds| && (i < |ds| ==> Fits(paths, path, ds[i]))
    ensures forall k :: 0 <= k < i ==> !Fits(paths, path, ds[k])
  {
    if ds == [] || Fits(paths, path, ds[0]) then 0 else 1 + FirstFit(paths, path, ds[1..])
  }

  predicate InTable(t: Table, e: Entry) {
    e.filename in t && e.index < |t[e.filename]|
  }

  /** The entry that a normalized path selects. */
  function Select(paths: Paths, t: Table, path: string): (r: Option<Entry>)
    ensures r.Some? ==> InTable(t, r.value)
  {
    var filename := paths.filename(path);
    if filename !in t then None else
    var i := FirstFit(paths, path, t[filename]);
    if i == |t[filename]| then None else Some(Entry(filename, i))
  }

  /** The path ends with the suffix. */
  ghost predicate Ends(path: string, suffix: string) {
    exists prefix :: path == prefix + suffix
  }

  lemma EndsWithMeans(s: string, suffix: string)
    ensures EndsWith(s, suffix) <==> Ends(s, suffix)
  {
    if EndsWith(s, suffix) {
      assert s == s[..|s| - |suffix|] + suffix;
    }
    if prefix :| s == prefix + suffix {
      assert s[|s| - |suffix|..] == suffix;
    }
  }

  /** The path ends with the normalized path of the entry. */
  ghost predicate EndsLike(paths: Paths, t: Table, path: string, e: Entry) {
    InTable(t, e) && Ends(path, paths.normalize(t[e.filename][e.index].postFixPath.path))
  }

  /** A path selects the first entry under its file name with whose path it ends. */
  lemma SelectMeans(paths: Paths, t: Table, path: string, e: Entry)
    ensures Select(paths, t, path) == Some(e) <==>
      && e.filename == paths.filename(path) && EndsLike(paths, t, path, e)
      && forall k :: 0 <= k < e.index ==> !EndsLike(paths, t, path, Entry(e.filename, k))
    ensures Select(paths, t, path).None? <==>
      forall k: nat :: !EndsLike(paths, t, path, Entry(paths.filename(path), k))
  {
    hide EndsWith, Ends;
    forall s, suffix ensures EndsWith(s, suffix) <==> Ends(s, suffix) {
      EndsWithMeans(s, suffix);
    }
    var f := paths.filename(path);
    if f in t {
      var i := FirstFit(paths, path, t[f]);
      assert forall k :: 0 <= k < |t[f]| ==> (Fits(paths, path, t[f][k]) <==> EndsLike(paths, t, path, Entry(f, k)));
    }
  }

  function Bound(t: Table, e: Entry): Option<string>
    requires InTable(t, e)
  {
    t[e.filename][e.index].matchedPath
  }

  function Bind(t: Table, e: Entry, path: string): Table
    requires InTable(t, e)
  {
    t[e.filename := t[e.filename][e.index := t[e.filename][e.index].(matchedPath := Some(path))]]
  }

  /** What a match answers and how it leaves the table. */
  function Matched(paths: Paths, t: Table, path: string): (Table, MatchResult) {
    var normalized := paths.normalize(path);
    var e := Select(paths, t, normalized);
    if e.None? then (t, NotFound)
    else if Bound(t, e.value).Some? && Bound(t, e.value).value != normalized then (t, Ambiguous)
    else (Bind(t, e.value, normalized), Found(e.value))
  }

  // ----- The engine -----------------------------------------------------------------------------------

  /** The files by their file name, in order, none matched yet. */
  function TableOf(paths: Paths, files: seq<File>): Table {
    if files == [] then map[] else
    var n := |files| - 1;
    var t := TableOf(paths, files[..n]);
    var filename := paths.filename(paths.normalize(files[n].path));
    t[filename := (if filename in t then t[filename] else []) + [PathData(files[n], None)]]
  }

  class PostFixPathMatcherEngine {
    const paths: Paths
    var postFixPathByFilename: Table

    constructor (paths: Paths, files: seq<File>)
      ensures this.paths == paths && postFixPathByFilename == TableOf(paths, files)
    {
      this.paths := paths;
      postFixPathByFilename := map[];
      new;
      for n := 0 to |files|
        invariant postFixPathByFilename == TableOf(paths, files[..n]) && this.paths == paths
      {
        var filename := paths.filename(paths.normalize(files[n].path));
        postFixPathByFilename := postFixPathByFilename[filename :=
          (if filename in postFixPathByFilename then postFixPathByFilename[filename] else []) + [PathData(files[n], None)]];
        assert files[..n + 1][..n] == files[..n];
      }
      assert files[..|files|] == files;
    }

    method Match(path: string) returns (r: MatchResult)
      modifies this
      ensures (postFixPathByFilename, r) == Matched(paths, old(postFixPathByFilename), path)
    {
      var normalizedPath := paths.normalize(path);
      var filename := paths.filename(normalizedPath);
      if filename !in postFixPathByFilename {
        return NotFound;
      }
      var it := postFixPathByFilename[filename];
      var first := FirstFit(paths, normalizedPath, it);
      for i := 0 to |it|
        invariant i <= first && postFixPathByFilename == old(postFixPathByFilename)
      {
        if Fits(paths, normalizedPath, it[i]) {
          if it[i].matchedPath.Some? && it[i].matchedPath.value != normalizedPath {
            return Ambiguous;
          }
          postFixPathByFilename :=
            postFixPathByFilename[filename := it[i := it[i].(matchedPath := Some(normalizedPath))]];
          return Found(Entry(filename, i));
        }
      }
      r := NotFound;
    }

    method GetUnmatchedPaths() returns (r: seq<string>)
      ensures IsUnmatchedList(postFixPathByFilename, r)
    {
      r := [];
      ghost var entries := [];
      var t := postFixPathByFilename;
      var rest := t.Keys;
      while rest != {}
        invariant rest <= t.Keys
        invariant Listed(t, r, entries)
        invariant forall e :: e in entries <==> InTable(t, e) && Bound(t, e).None? && e.filename !in rest
      {
        var filename :| filename in rest;
        for i := 0 to |t[filename]|
          invariant Listed(t, r, entries)
          invariant forall e :: e in entries <==>
            InTable(t, e) && Bound(t, e).None? && (e.filename !in rest || (e.filename == filename && e.index < i))
        {
          if t[filename][i].matchedPath.None? {
            ListedOneMore(t, r, entries, Entry(filename, i));
            r := r + [t[filename][i].postFixPath.path];
            entries := entries + [Entry(filename, i)];
          }
        }
        rest := rest - {filename};
      }
    }
  }

  /** Distinct entries, and their paths. */
  ghost predicate Listed(t: Table, r: seq<string>, entries: seq<Entry>) {
    && |entries| == |r|
    && (forall i, j :: 0 <= i < j < |entries| ==> entries[i] != entries[j])
    && (forall i :: 0 <= i < |entries| ==> InTable(t, entries[i]) && r[i] == t[entries[i].filename][entries[i].index].postFixPath.path)
  }

  /** The paths of exactly the unbound entries, each entry once. */
  ghost predicate IsUnmatchedList(t: Table, r: seq<string>) {
    exists entries ::
      Listed(t, r, entries) && forall e :: e in entries <==> InTable(t, e) && Bound(t, e).None?
  }

  lemma ListedOneMore(t: Table, r: seq<string>, entries: seq<Entry>, e: Entry)
    requires Listed(t, r, entries) && InTable(t, e) && e !in entries
    ensures Listed(t, r + [t[e.filename][e.index].postFixPath.path], entries + [e])
    ensures forall x :: x in entries + [e] <==> x in entries || x == e
  {
  }

  // ----- Any sequence of queries -------------------------------------------------------------------------

  /** The table after some queries; None once a query was ambiguous. */
  function AfterQueries(paths: Paths, t: Table, queries: seq<string>): Option<Table> {
    if queries == [] then Some(t) else
    var before := AfterQueries(paths, t, queries[..|queries| - 1]);
    if before.None? then None else
    var (after, r) := Matched(paths, before.value, queries[|queries| - 1]);
    if r.Ambiguous? then None else Some(after)
  }

  /** The query selects the entry. */
  ghost predicate Asks(paths: Paths, t: Table, query: string, e: Entry) {
    Select(paths, t, paths.normalize(query)) == Some(e)
  }

  ghost predicate SameFiles(t: Table, u: Table) {
    && t.Keys == u.Keys
    && forall f :: f in t ==> |t[f]| == |u[f]| && forall i :: 0 <= i < |t[f]| ==> t[f][i].postFixPath == u[f][i].postFixPath
  }

  /** Bindings do not change what a path selects. */
  lemma SelectIsStatic(paths: Paths, t: Table, u: Table, path: string)
    requires SameFiles(t, u)
    ensures Select(paths, t, path) == Select(paths, u, path)
  {
    var f := paths.filename(path);
    if f in t {
      var i, j := FirstFit(paths, path, t[f]), FirstFit(paths, path, u[f]);
      assert i < |t[f]| ==> Fits(paths, path, t[f][i]) && Fits(paths, path, u[f][i]);
      assert j < |u[f]| ==> Fits(paths, path, u[f][j]) && Fits(paths, path, t[f][j]);
    }
  }

  /** Two queries for one entry have the same normalized path. */
  ghost predicate Consistent(paths: Paths, t: Table, queries: seq<string>) {
    forall i, j, e :: 0 <= i < |queries| && 0 <= j < |queries| && Asks(paths, t, queries[i], e) && Asks(paths, t, queries[j], e) ==>
      paths.normalize(queries[i]) == paths.normalize(queries[j])
  }

  ghost predicate BoundByQueries(paths: Paths, t: Table, queries: seq<string>, u: Table, e: Entry)
    requires InTable(u, e)
  {
    && (forall q :: q in queries && Asks(paths, t, q, e) ==> Bound(u, e) == Some(paths.normalize(q)))
    && ((forall q :: q in queries ==> !Asks(paths, t, q, e)) ==> Bound(u, e).None?)
  }

  ghost predicate Unbound(t: Table) {
    forall e :: InTable(t, e) ==> Bound(t, e).None?
  }

  /** The table after an error-free run: the same files, each bound by exactly the queries that select it. */
  ghost predicate RunOk(paths: Paths, t: Table, queries: seq<string>, u: Table) {
    SameFiles(t, u) && forall e :: InTable(u, e) ==> BoundByQueries(paths, t, queries, u, e)
  }

  lemma OneMoreQuery(paths: Paths, t: Table, queries: seq<string>, u: Table, query: string)
    requires RunOk(paths, t, queries, u)
    ensures var (after, r) := Matched(paths, u, query);
      !r.Ambiguous? ==> RunOk(paths, t, queries + [query], after)
    ensures Matched(paths, u, query).1.Ambiguous? <==>
      exists e, q :: q in queries && Asks(paths, t, query, e) && Asks(paths, t, q, e) && paths.normalize(q) != paths.normalize(query)
  {
    var (after, r) := Matched(paths, u, query);
    var path := paths.normalize(query);
    SelectIsStatic(paths, t, u, path);
    var e := Select(paths, t, path);
    if e.Some? {
      assert BoundByQueries(paths, t, queries, u, e.value);
    }
    if !r.Ambiguous? {
      forall x | InTable(after, x) ensures BoundByQueries(paths, t, queries + [query], after, x) {
        BoundAfter(paths, t, queries, u, query, x);
      }
    }
  }

  lemma BoundAfter(paths: Paths, t: Table, queries: seq<string>, u: Table, query: string, x: Entry)
    requires RunOk(paths, t, queries, u) && !Matched(paths, u, query).1.Ambiguous?
    requires InTable(Matched(paths, u, query).0, x)
    requires Select(paths, t, paths.normalize(query)) == Select(paths, u, paths.normalize(query))
    ensures BoundByQueries(paths, t, queries + [query], Matched(paths, u, query).0, x)
  {
    assert BoundByQueries(paths, t, queries, u, x);
    assert forall q :: q in queries + [query] <==> q in queries || q == query;
  }

  /**
   In an error-free run over any queries each entry is bound to at most one source
   path, that of the queries which select it; the entries without a binding are
   those that no query selects.
   */
  lemma {:induction false} EachEntryHasOneOwner(paths: Paths, t: Table, queries: seq<string>)
    requires Unbound(t) && AfterQueries(paths, t, queries).Some?
    ensures RunOk(paths, t, queries, AfterQueries(paths, t, queries).value)
  {
    if queries != [] {
      var n := |queries| - 1;
      EachEntryHasOneOwner(paths, t, queries[..n]);
      OneMoreQuery(paths, t, queries[..n], AfterQueries(paths, t, queries[..n]).value, queries[n]);
      assert queries == queries[..n] + [queries[n]];
    }
  }

  /** A run is free of errors if and only if no two queries for one entry differ in their normalized paths. */
  lemma {:induction false} ErrorFree(paths: Paths, t: Table, queries: seq<string>)
    requires Unbound(t)
    ensures AfterQueries(paths, t, queries).Some? <==> Consistent(paths, t, queries)
  {
    if queries != [] {
      var n := |queries| - 1;
      var init, last := queries[..n], queries[n];
      ErrorFree(paths, t, init);
      ConsistentStep(paths, t, init, last);
      assert queries == init + [last];
      if AfterQueries(paths, t, init).Some? {
        EachEntryHasOneOwner(paths, t, init);
        OneMoreQuery(paths, t, init, AfterQueries(paths, t, init).value, last);
      }
    }
  }

  lemma ConsistentStep(paths: Paths, t: Table, queries: seq<string>, last: string)
    ensures Consistent(paths, t, queries + [last]) <==>
      && Consistent(paths, t, queries)
      && forall e, q :: q in queries && Asks(paths, t, last, e) && Asks(paths, t, q, e) ==> paths.normalize(q) == paths.normalize(last)
  {
    hide Asks;
    var all := queries + [last];
    var n := |queries|;
    assert all[n] == last && forall i :: 0 <= i < n ==> all[i] == queries[i];
    if Consistent(paths, t, all) {
      forall i, j, e | 0 <= i < n && 0 <= j < n && Asks(paths, t, queries[i], e) && Asks(paths, t, queries[j], e)
        ensures paths.normalize(queries[i]) == paths.normalize(queries[j])
      {
        assert Asks(paths, t, all[i], e) && Asks(paths, t, all[j], e);
      }
      forall e, q | q in queries && Asks(paths, t, last, e) && Asks(paths, t, q, e)
        ensures paths.normalize(q) == paths.normalize(last)
      {
        var i :| 0 <= i < n && queries[i] == q;
        assert Asks(paths, t, all[i], e) && Asks(paths, t, all[n], e);
      }
    }
  }

  // ----- The one-entry cache ----------------------------------------------------------------------------------

  class UnifiedDiffCoverageFilter {
    const pathMatcher: PostFixPathMatcherEngine
    var lastPath: string
    var lastFile: Option<Entry>

    /** Matching the last path again would answer the same and change nothing. */
    ghost predicate Valid()
      reads this, pathMatcher
    {
      lastPath != "" ==>
        Matched(pathMatcher.paths, pathMatcher.postFixPathByFilename, lastPath) ==
          (pathMatcher.postFixPathByFilename, if lastFile.None? then NotFound else Found(lastFile.value))
    }

    constructor (paths: Paths, files: seq<File>)
      ensures Valid() && fresh(pathMatcher) && pathMatcher.paths == paths
      ensures pathMatcher.postFixPathByFilename == TableOf(paths, files) && lastPath == "" && lastFile == None
    {
      pathMatcher := new PostFixPathMatcherEngine(paths, files);
      lastPath, lastFile := "", None;
    }

    /** On a nonempty path the cache answers, and leaves the engine, as an uncached match would. */
    method SearchFile(path: string) returns (r: MatchResult)
      requires Valid()
      modifies this, pathMatcher
      ensures Valid()
      ensures path == old(lastPath) ==>
        r == (if old(lastFile).None? then NotFound else Found(old(lastFile).value))
      ensures path != "" ==>
        (pathMatcher.postFixPathByFilename, r) == Matched(pathMatcher.paths, old(pathMatcher.postFixPathByFilename), path)
    {
      if path == lastPath {
        return if lastFile.None? then NotFound else Found(lastFile.value);
      }
      r := pathMatcher.Match(path);
      if r.Ambiguous? {
        return;
      }
      MatchedTwice(pathMatcher.paths, old(pathMatcher.postFixPathByFilename), path);
      lastFile := if r.Found? then Some(r.entry) else None;
      lastPath := path;
    }
  }

  /** Matching a path twice in a row answers the same and changes nothing the second time. */
  lemma MatchedTwice(paths: Paths, t: Table, path: string)
    requires !Matched(paths, t, path).1.Ambiguous?
    ensures Matched(paths, Matched(paths, t, path).0, path) == (Matched(paths, t, path).0, Matched(paths, t, path).1)
  {
    var (u, r) := Matched(paths, t, path);
    var normalized := paths.normalize(path);
    assert SameFiles(t, u);
    SelectIsStatic(paths, t, u, normalized);
    if r.Found? {
      var f, i := r.entry.filename, r.entry.index;
      assert u[f][i].(matchedPath := Some(normalized)) == u[f][i];
      assert u[f][i := u[f][i]] == u[f] && u[f := u[f]] == u;
    }
  }

  /** The entry of the table holds the file, in the group of its file name. */
  ghost predicate Holds(paths: Paths, t: Table, e: Entry, f: File) {
    && InTable(t, e) && t[e.filename][e.index].postFixPath == f && e.filename == paths.filename(paths.normalize(f.path))
  }

  ghost predicate AllHeld(paths: Paths, t: Table, files: seq<File>) {
    forall f :: f in files ==> exists e :: Holds(paths, t, e, f)
  }

  /** The engine starts with every file of the diff in its group, unbound. */
  lemma {:induction false} TableIsUnbound(paths: Paths, files: seq<File>)
    ensures Unbound(TableOf(paths, files))
    ensures AllHeld(paths, TableOf(paths, files), files)
  {
    if files != [] {
      var n := |files| - 1;
      TableIsUnbound(paths, files[..n]);
      var t, u := TableOf(paths, files[..n]), TableOf(paths, files);
      forall e | InTable(u, e) ensures Bound(u, e).None? {
        assert InTable(t, e) ==> Bound(u, e) == Bound(t, e);
      }
      assert files == files[..n] + [files[n]];
      forall f | f in files ensures exists e :: Holds(paths, u, e, f) {
        if f in files[..n] {
          var e :| Holds(paths, t, e, f);
          assert Holds(paths, u, e, f);
        } else {
          assert f == files[n];
          var filename := paths.filename(paths.normalize(f.path));
          assert Holds(paths, u, Entry(filename, |u[filename]| - 1), f);
        }
      }
    }
  }

  lemma OneFileTable(paths: Paths, f: File)
    ensures TableOf(paths, [f]) == map[paths.filename(paths.normalize(f.path)) := [PathData(f, None)]]
  {
    assert [f][..0] == [];
    assert [] + [PathData(f, None)] == [PathData(f, None)];
  }

  /**
   The empty path is why the cache needs nonempty paths: a new filter answers it
   without asking the engine, although a diff entry with an empty name fits it.
   */
  lemma EmptyPathIsNotAsked(paths: Paths)
    requires paths.normalize("") == ""
    ensures Matched(paths, TableOf(paths, [File("", {})]), "").1 == Found(Entry(paths.filename(""), 0))
  {
    OneFileTable(paths, File("", {}));
    hide TableOf;
    assert Fits(paths, "", PathData(File("", {}), None));
  }
}
