/**
 Rendering of edit scripts in the unified format, section "Diff -u or -U Output
 Format" of the diff utility in POSIX.1-2017, with git's additions; and what
 the parser makes of them.
 */
module DiffPrinters {
  import opened Common
  import opened Decimals
  import opened UnifiedDiffParsers

  datatype BodyLine = Context(text: string) | Deleted(text: string) | Inserted(text: string) | NoNewline

  /** An edited region: where it starts in both files, the text after the header, and the lines. */
  datatype Hunk = Hunk(startFrom: nat, startTo: nat, section: string, body: seq<BodyLine>)

  /** The edits of one file; other lines may stand before its header. */
  datatype FileDiff = FileDiff(preamble: seq<string>, source: string, target: string, sourceStamp: Option<string>,
                               targetStamp: Option<string>, hunks: seq<Hunk>)

  // ----- Rendering ---------------------------------------------------------------------------------

  function RenderLine(line: BodyLine): string {
    match line
    case Context(text) => " " + text
    case Deleted(text) => "-" + text
    case Inserted(text) => "+" + text
    case NoNewline => "\\ No newline at end of file"
  }

  function RenderBody(body: seq<BodyLine>): (r: seq<string>)
    ensures |r| == |body|
  {
    if body == [] then [] else [RenderLine(body[0])] + RenderBody(body[1..])
  }

  predicate InTarget(line: BodyLine) {
    line.Context? || line.Inserted?
  }

  predicate InSource(line: BodyLine) {
    line.Context? || line.Deleted?
  }

  function CountTo(body: seq<BodyLine>): nat {
    if body == [] then 0 else (if InTarget(body[0]) then 1 else 0) + CountTo(body[1..])
  }

  function CountFrom(body: seq<BodyLine>): nat {
    if body == [] then 0 else (if InSource(body[0]) then 1 else 0) + CountFrom(body[1..])
  }

  /** A count of one is left out. */
  function RenderRange(start: nat, count: nat): Range {
    Range(Decimal(start), if count == 1 then None else Some(Decimal(count)))
  }

  function RenderHeader(h: Hunk): string {
    "@@ -" + RangeText(RenderRange(h.startFrom, CountFrom(h.body))) + " +" +
      RangeText(RenderRange(h.startTo, CountTo(h.body))) + " @@" + h.section
  }

  lemma RenderedHeader(h: Hunk)
    ensures RenderHeader(h) ==
      HeaderText(" ", RenderRange(h.startFrom, CountFrom(h.body)), " ", RenderRange(h.startTo, CountTo(h.body)), " ", h.section)
  {
    var from, to := RangeText(RenderRange(h.startFrom, CountFrom(h.body))), RangeText(RenderRange(h.startTo, CountTo(h.body)));
    SpacedHeader(from, to, h.section);
  }

  lemma SpacedHeader(from: string, to: string, rest: string)
    ensures "@@ -" + from + " +" + to + " @@" + rest ==
      "@@" + (" " + ("-" + (from + (" " + ("+" + (to + (" " + ("@@" + rest))))))))
  {
    assert "@@ -" == "@@" + (" " + "-") && " +" == " " + "+" && " @@" == " " + "@@";
  }

  function RenderHunk(h: Hunk): seq<string> {
    [RenderHeader(h)] + RenderBody(h.body)
  }

  function RenderHunks(hunks: seq<Hunk>): seq<string> {
    if hunks == [] then [] else RenderHunk(hunks[0]) + RenderHunks(hunks[1..])
  }

  function Stamped(name: string, stamp: Option<string>): string {
    if stamp.Some? then name + "\t" + stamp.value else name
  }

  function SourceLine(f: FileDiff): string {
    "--- " + Stamped(f.source, f.sourceStamp)
  }

  function TargetLine(f: FileDiff): string {
    "+++ " + Stamped(f.target, f.targetStamp)
  }

  function RenderFile(f: FileDiff): seq<string> {
    f.preamble + ([SourceLine(f), TargetLine(f)] + RenderHunks(f.hunks))
  }

  function RenderFiles(files: seq<FileDiff>): seq<string> {
    if files == [] then [] else RenderFile(files[0]) + RenderFiles(files[1..])
  }

  // ----- What the edit script says ---------------------------------------------------------------------

  /** The numbers of the inserted lines, counting target lines from a start. */
  function InsertedLines(body: seq<BodyLine>, current: int): set<int> {
    if body == [] then {} else
    (if body[0].Inserted? then {current} else {}) +
      InsertedLines(body[1..], if InTarget(body[0]) then current + 1 else current)
  }

  function InsertedInHunks(hunks: seq<Hunk>): set<int> {
    if hunks == [] then {} else InsertedLines(hunks[0].body, hunks[0].startTo) + InsertedInHunks(hunks[1..])
  }

  function Edited(files: seq<FileDiff>): seq<File> {
    if files == [] then [] else [File(files[0].target, InsertedInHunks(files[0].hunks))] + Edited(files[1..])
  }

  function SourceLines(files: seq<FileDiff>): seq<string> {
    if files == [] then [] else [SourceLine(files[0])] + SourceLines(files[1..])
  }

  predicate HasGitHeader(files: seq<FileDiff>) {
    exists f, line :: f in files && line in f.preamble && StartsWith(line, "diff --git")
  }

  // ----- Well-formed scripts --------------------------------------------------------------------------------

  /** Numbers that an int can hold. */
  predicate HunkFits(h: Hunk) {
    && h.startFrom <= 2147483647 && CountFrom(h.body) <= 2147483647
    && h.startTo + CountTo(h.body) <= 2147483647
  }

  /** A line between files: a git header, or a line that no file or hunk begins with. */
  predicate PreambleLine(line: string) {
    !StartsWith(line, "--- ") && !StartsWith(line, "+++ ") && !StartsWith(line, "@@")
  }

  /** A tab would end the target name. */
  predicate FileFits(f: FileDiff) {
    && (forall line :: line in f.preamble ==> PreambleLine(line))
    && '\t' !in f.target
    && (forall h :: h in f.hunks ==> HunkFits(h))
  }

  predicate ScriptFits(files: seq<FileDiff>) {
    forall f :: f in files ==> FileFits(f)
  }

  /** The lines after the last target line of a hunk, which the parser does not count. */
  function Leftover(body: seq<BodyLine>): seq<BodyLine> {
    if CountTo(body) == 0 then body else Leftover(body[1..])
  }

  /** A deleted line that reads like a file header. */
  predicate LooksLikeHeader(line: BodyLine) {
    line.Deleted? && StartsWith(line.text, "-- ")
  }

  /** No hunk ends in a deleted line that reads like a file header. */
  predicate Harmless(h: Hunk) {
    forall line :: line in Leftover(h.body) ==> !LooksLikeHeader(line)
  }

  predicate HarmlessScript(files: seq<FileDiff>) {
    forall f, h :: f in files && h in f.hunks ==> Harmless(h)
  }

  // ----- One hunk ----------------------------------------------------------------------------------------

  lemma RangeReads(start: nat, count: nat)
    ensures var r := RenderRange(start, count); RangeOk(r) && Value(r.start) == start && CountOf(r) == count
    ensures var r := RenderRange(start, count); start <= 2147483647 && count <= 2147483647 ==> RangeFits(r)
  {
    DecimalRoundTrip(start);
    DecimalRoundTrip(count);
  }

  /** A rendered header is read back. */
  lemma HeaderReads(h: Hunk, read: nat)
    requires HunkFits(h)
    ensures HunksOf(RenderHeader(h), read) == Parsed(HunksDifferences(h.startTo, CountTo(h.body)))
    ensures IsHunkHeader(RenderHeader(h))
  {
    hide Decimal, Value, ReadHeader, HeaderText;
    var from, to := RenderRange(h.startFrom, CountFrom(h.body)), RenderRange(h.startTo, CountTo(h.body));
    RangeReads(h.startFrom, CountFrom(h.body));
    RangeReads(h.startTo, CountTo(h.body));
    RenderedHeader(h);
    HeaderIsRead(" ", from, " ", to, " ", h.section);
    StartsWithAt(" ", from, " ", to, " ", h.section);
  }

  lemma StartsWithAt(a: string, from: Range, b: string, to: Range, c: string, rest: string)
    ensures IsHunkHeader(HeaderText(a, from, b, to, c, rest))
  {
    var line := HeaderText(a, from, b, to, c, rest);
    assert line[0] == '@' && line[1] == '@';
    assert line[..2] == "@@";
  }

  lemma RenderedLine(line: BodyLine)
    ensures Skipped(RenderLine(line)) <==> !InTarget(line)
    ensures StartsWith(RenderLine(line), "+") <==> line.Inserted?
    ensures !InTarget(line) ==> (IsOther(RenderLine(line)) <==> !LooksLikeHeader(line))
    ensures LooksLikeHeader(line) ==> StartsWith(RenderLine(line), FROM_FILE_PREFIX)
    ensures !StartsWith(RenderLine(line), GIT_HEADER)
    ensures !InTarget(line) ==> !StartsWith(RenderLine(line), TO_FILE_PREFIX)
  {
    var r := RenderLine(line);
    assert r[0] == match line case Context(_) => ' ' case Deleted(_) => '-' case Inserted(_) => '+' case NoNewline => '\\';
    if line.Deleted? {
      assert r[1..] == line.text;
      assert StartsWith(line.text, "-- ") <==> StartsWith(r, "--- ") by {
        assert "--- " == "-" + "-- ";
        if StartsWith(line.text, "-- ") {
          assert r[..4] == "--- ";
        }
        if StartsWith(r, "--- ") {
          assert line.text[..3] == r[1..4] == "-- ";
        }
      }
    }
  }

  lemma {:induction false} NothingInserted(body: seq<BodyLine>, current: int)
    requires CountTo(body) == 0
    ensures InsertedLines(body, current) == {} && Leftover(body) == body
  {
    if body != [] {
      NothingInserted(body[1..], current);
    }
  }

  lemma {:induction false} LeftoverSize(body: seq<BodyLine>)
    ensures |Leftover(body)| <= |body| && CountTo(Leftover(body)) == 0
  {
    if CountTo(body) != 0 {
      LeftoverSize(body[1..]);
    }
  }

  lemma {:induction false} RenderedLeftover(body: seq<BodyLine>, rest: seq<string>)
    ensures |Leftover(body)| <= |body|
    ensures (RenderBody(body) + rest)[|body| - |Leftover(body)|..] == RenderBody(Leftover(body)) + rest
  {
    LeftoverSize(body);
    if CountTo(body) != 0 {
      RenderedLeftover(body[1..], rest);
      LeftoverSize(body[1..]);
      assert RenderBody(body) + rest == [RenderLine(body[0])] + (RenderBody(body[1..]) + rest);
    }
  }

  /** Scanning a rendered body stops after its last target line, with the inserted lines. */
  lemma {:induction false} ScanRendered(body: seq<BodyLine>, rest: seq<string>, current: int)
    ensures var (n, last, updated) := Scan(RenderBody(body) + rest, current, current + CountTo(body));
      && |Leftover(body)| <= |body| && n == |body| - |Leftover(body)| && last == current + CountTo(body)
      && (set k | k in updated) == InsertedLines(body, current)
  {
    LeftoverSize(body);
    if CountTo(body) == 0 {
      NothingInserted(body, current);
    } else {
      var lines, line := RenderBody(body) + rest, body[0];
      LeftoverSize(body[1..]);
      assert lines[0] == RenderLine(line) && lines[1..] == RenderBody(body[1..]) + rest;
      RenderedLine(line);
      var next := if InTarget(line) then current + 1 else current;
      ScanRendered(body[1..], rest, next);
      hide StartsWith, RenderLine, Skipped;
      var (n, last, updated) := Scan(lines[1..], next, current + CountTo(body));
      SetOfSum(if line.Inserted? then [current] else [], updated);
    }
  }

  lemma SetOfSum(xs: seq<int>, ys: seq<int>)
    ensures (set k | k in xs + ys) == (set k | k in xs) + set k | k in ys
  {
  }

  /** The state after more added lines of the last file. */
  function WithLines(s: State, added: set<int>): State
    requires s.files != []
  {
    var last := s.files[|s.files| - 1];
    s.(files := s.files[|s.files| - 1 := last.(selectedLines := last.selectedLines + added)])
  }

  /** Lines that are not a target header, or no lines. */
  ghost predicate NoTarget(rest: seq<string>) {
    rest != [] ==> !StartsWith(rest[0], TO_FILE_PREFIX)
  }

  lemma {:induction false} LeftoverRead(left: seq<BodyLine>, rest: seq<string>, read: nat, s: State)
    requires CountTo(left) == 0 && NoTarget(rest)
    ensures NoTarget(RenderBody(left) + rest)
    ensures if forall line :: line in left ==> !LooksLikeHeader(line)
            then ParseFrom(RenderBody(left) + rest, read, s) == ParseFrom(rest, read + |left|, s)
            else ParseFrom(RenderBody(left) + rest, read, s).Failed?
  {
    if left == [] {
      assert RenderBody(left) + rest == rest;
    } else {
      var line, more := left[0], RenderBody(left[1..]) + rest;
      assert RenderBody(left) + rest == [RenderLine(line)] + more;
      assert left == [line] + left[1..];
      LeftoverRead(left[1..], rest, read + 1, s);
      RenderedLine(line);
      hide ParseFrom, StartsWith, RenderLine;
      if LooksLikeHeader(line) {
        assert line in left;
        NoTargetFails(more, read + 1);
        FileHeaderRead(RenderLine(line), more, read, s);
      } else {
        assert forall l :: l in left <==> l == line || l in left[1..];
        OtherRead(RenderLine(line), more, read, s);
      }
    }
  }

  lemma NoTargetFails(rest: seq<string>, read: nat)
    requires NoTarget(rest)
    ensures TargetOf(rest, read).Failed?
  {
  }

  /** A rendered hunk adds its inserted lines to the last file, or fails when it ends in a line like a header. */
  lemma OneHunkRead(h: Hunk, rest: seq<string>, read: nat, s: State)
    requires HunkFits(h) && s.files != [] && NoTarget(rest)
    ensures if Harmless(h)
            then ParseFrom(RenderHunk(h) + rest, read, s) ==
                 ParseFrom(rest, read + |RenderHunk(h)|, WithLines(s, InsertedLines(h.body, h.startTo)))
            else ParseFrom(RenderHunk(h) + rest, read, s).Failed?
  {
    hide ParseFrom, RenderHeader, IsHunkHeader, HunksOf, Scan, InsertedLines, RenderBody, CountTo, NoTarget, LooksLikeHeader;
    var lines := RenderBody(h.body) + rest;
    assert RenderHunk(h) + rest == [RenderHeader(h)] + lines;
    HeaderReads(h, read + 1);
    ScanRendered(h.body, rest, h.startTo);
    RenderedLeftover(h.body, rest);
    LeftoverSize(h.body);
    HunkRead(RenderHeader(h), lines, read, s);
    var (n, updated) := UpdatedOf(RenderHeader(h), lines, read + 1).value;
    LeftoverRead(Leftover(h.body), rest, read + 1 + n, WithLines(s, InsertedLines(h.body, h.startTo)));
  }

  // ----- Hunks, files, scripts -----------------------------------------------------------------------------

  lemma HunksNoTarget(hunks: seq<Hunk>, rest: seq<string>)
    requires NoTarget(rest)
    ensures NoTarget(RenderHunks(hunks) + rest)
  {
    if hunks == [] {
      assert RenderHunks(hunks) + rest == rest;
    } else {
      var h := hunks[0];
      assert (RenderHunks(hunks) + rest)[0] == RenderHeader(h);
      RenderedHeader(h);
      StartsWithAt(" ", RenderRange(h.startFrom, CountFrom(h.body)), " ", RenderRange(h.startTo, CountTo(h.body)), " ", h.section);
      assert RenderHeader(h)[..2] == "@@";
    }
  }

  lemma WithLinesTwice(s: State, a: set<int>, b: set<int>)
    requires s.files != []
    ensures WithLines(WithLines(s, a), b) == WithLines(s, a + b)
    ensures WithLines(s, {}) == s
  {
    var n := |s.files| - 1;
    var last := s.files[n];
    assert (last.selectedLines + a) + b == last.selectedLines + (a + b);
    assert last.selectedLines + {} == last.selectedLines;
    assert s.files[n := last] == s.files;
    assert s.files[n := last.(selectedLines := last.selectedLines + a)][n := last.(selectedLines := last.selectedLines + (a + b))]
        == s.files[n := last.(selectedLines := last.selectedLines + (a + b))];
  }

  lemma {:induction false} HunksRead(hunks: seq<Hunk>, rest: seq<string>, read: nat, s: State)
    requires (forall h :: h in hunks ==> HunkFits(h)) && s.files != [] && NoTarget(rest)
    ensures if forall h :: h in hunks ==> Harmless(h)
            then ParseFrom(RenderHunks(hunks) + rest, read, s) ==
                 ParseFrom(rest, read + |RenderHunks(hunks)|, WithLines(s, InsertedInHunks(hunks)))
            else ParseFrom(RenderHunks(hunks) + rest, read, s).Failed?
  {
    hide ParseFrom, HunkFits, Harmless, NoTarget, RenderHunk, InsertedLines;
    if hunks == [] {
      assert RenderHunks(hunks) + rest == rest;
      WithLinesTwice(s, {}, {});
    } else {
      var h, more := hunks[0], RenderHunks(hunks[1..]) + rest;
      assert RenderHunks(hunks) + rest == RenderHunk(h) + more;
      assert forall k :: k in hunks <==> k == h || k in hunks[1..];
      HunksNoTarget(hunks[1..], rest);
      OneHunkRead(h, more, read, s);
      if Harmless(h) {
        var added := InsertedLines(h.body, h.startTo);
        HunksRead(hunks[1..], rest, read + |RenderHunk(h)|, WithLines(s, added));
        WithLinesTwice(s, added, InsertedInHunks(hunks[1..]));
      }
    }
  }

  predicate GitIn(preamble: seq<string>) {
    exists line :: line in preamble && StartsWith(line, "diff --git")
  }

  lemma {:induction false} PreambleRead(preamble: seq<string>, rest: seq<string>, read: nat, s: State)
    requires forall line :: line in preamble ==> PreambleLine(line)
    ensures ParseFrom(preamble + rest, read, s) ==
      ParseFrom(rest, read + |preamble|, s.(foundGitHeader := s.foundGitHeader || GitIn(preamble)))
  {
    if preamble == [] {
      assert preamble + rest == rest;
    } else {
      var line, more := preamble[0], preamble[1..] + rest;
      assert preamble + rest == [line] + more;
      assert forall k :: k in preamble <==> k == line || k in preamble[1..];
      assert PreambleLine(line);
      hide ParseFrom, StartsWith;
      if StartsWith(line, GIT_HEADER) {
        GitHeaderRead(line, more, read, s);
        PreambleRead(preamble[1..], rest, read + 1, s.(foundGitHeader := true));
      } else {
        OtherRead(line, more, read, s);
        PreambleRead(preamble[1..], rest, read + 1, s);
      }
    }
  }

  lemma {:induction false} TabFound(line: string, from: nat, tab: nat)
    requires from <= tab <= |line| && (forall k :: from <= k < tab ==> line[k] != '\t') && (tab < |line| ==> line[tab] == '\t')
    ensures FindTab(line, from) == tab
    decreases tab - from
  {
    if from < tab {
      TabFound(line, from + 1, tab);
    }
  }

  lemma TargetLineRead(f: FileDiff)
    requires '\t' !in f.target
    ensures StartsWith(TargetLine(f), TO_FILE_PREFIX) && TargetPath(TargetLine(f)) == f.target
    ensures StartsWith(SourceLine(f), FROM_FILE_PREFIX) && !StartsWith(SourceLine(f), GIT_HEADER)
    ensures !StartsWith(SourceLine(f), TO_FILE_PREFIX)
  {
    var line := TargetLine(f);
    assert line[..4] == TO_FILE_PREFIX;
    var tab := 4 + |f.target|;
    assert line[4..tab] == f.target;
    forall k | 0 <= k < tab ensures line[k] != '\t' {
      if k >= 4 {
        assert line[k] == f.target[k - 4];
      }
    }
    TabFound(line, 0, tab);
    assert SourceLine(f)[..4] == FROM_FILE_PREFIX && SourceLine(f)[0] == '-';
  }

  /** The state after a file. */
  function WithFile(s: State, f: FileDiff): State {
    State(s.files + [File(f.target, InsertedInHunks(f.hunks))], s.sourceFileLines + [SourceLine(f)],
          s.foundGitHeader || GitIn(f.preamble))
  }

  predicate HarmlessFile(f: FileDiff) {
    forall h :: h in f.hunks ==> Harmless(h)
  }

  lemma OneFileRead(f: FileDiff, rest: seq<string>, read: nat, s: State)
    requires FileFits(f) && NoTarget(rest)
    ensures if HarmlessFile(f)
            then ParseFrom(RenderFile(f) + rest, read, s) == ParseFrom(rest, read + |RenderFile(f)|, WithFile(s, f))
            else ParseFrom(RenderFile(f) + rest, read, s).Failed?
  {
    hide ParseFrom, StartsWith, Harmless, HunkFits, InsertedInHunks, RenderHunks, SourceLine, TargetLine, TargetPath, GitIn, NoTarget;
    var hunks := RenderHunks(f.hunks) + rest;
    var headers := [SourceLine(f), TargetLine(f)];
    assert RenderFile(f) + rest == f.preamble + (headers + hunks);
    var s1 := s.(foundGitHeader := s.foundGitHeader || GitIn(f.preamble));
    PreambleRead(f.preamble, headers + hunks, read, s);
    TargetLineRead(f);
    var more := [TargetLine(f)] + hunks;
    assert headers + hunks == [SourceLine(f)] + more && more[1..] == hunks;
    FileHeaderRead(SourceLine(f), more, read + |f.preamble|, s1);
    var s2 := s1.(sourceFileLines := s1.sourceFileLines + [SourceLine(f)], files := s1.files + [File(f.target, {})]);
    HunksRead(f.hunks, rest, read + |f.preamble| + 2, s2);
    LastFile(s1.files, f.target, InsertedInHunks(f.hunks), s2);
  }

  lemma LastFile(files: seq<File>, path: string, added: set<int>, s: State)
    requires s.files == files + [File(path, {})]
    ensures WithLines(s, added) == s.(files := files + [File(path, added)])
  {
    assert {} + added == added;
  }

  lemma FilesNoTarget(files: seq<FileDiff>)
    requires ScriptFits(files)
    ensures NoTarget(RenderFiles(files))
  {
    if files != [] {
      var f := files[0];
      assert FileFits(f);
      TargetLineRead(f);
      assert f.preamble != [] ==> PreambleLine(f.preamble[0]);
      hide StartsWith, SourceLine, TargetLine;
      assert RenderFiles(files)[0] == if f.preamble == [] then SourceLine(f) else f.preamble[0];
    }
  }

  /** The state after all files. */
  function WithFiles(s: State, files: seq<FileDiff>): State {
    State(s.files + Edited(files), s.sourceFileLines + SourceLines(files), s.foundGitHeader || HasGitHeader(files))
  }

  lemma WithFilesStep(s: State, files: seq<FileDiff>)
    requires files != []
    ensures WithFiles(s, files) == WithFiles(WithFile(s, files[0]), files[1..])
  {
    hide InsertedInHunks, SourceLine, StartsWith, HasGitHeader, GitIn;
    var f, rest := files[0], files[1..];
    assert Edited(files) == [File(f.target, InsertedInHunks(f.hunks))] + Edited(rest);
    assert SourceLines(files) == [SourceLine(f)] + SourceLines(rest);
    Regroup(s.files, File(f.target, InsertedInHunks(f.hunks)), Edited(rest));
    Regroup(s.sourceFileLines, SourceLine(f), SourceLines(rest));
    GitStep(files);
  }

  lemma Regroup<T>(xs: seq<T>, x: T, ys: seq<T>)
    ensures (xs + [x]) + ys == xs + ([x] + ys)
  {
  }

  lemma GitStep(files: seq<FileDiff>)
    requires files != []
    ensures HasGitHeader(files) <==> GitIn(files[0].preamble) || HasGitHeader(files[1..])
  {
    hide StartsWith;
    assert forall g :: g in files <==> g == files[0] || g in files[1..];
  }

  lemma HarmlessStep(files: seq<FileDiff>)
    requires files != []
    ensures HarmlessScript(files) <==> HarmlessFile(files[0]) && HarmlessScript(files[1..])
    ensures ScriptFits(files) ==> FileFits(files[0]) && ScriptFits(files[1..])
  {
    hide Harmless, FileFits;
    assert forall g :: g in files <==> g == files[0] || g in files[1..];
  }

  lemma NoFilesRead(read: nat, s: State)
    ensures ParseFrom(RenderFiles([]), read, s) == Parsed(WithFiles(s, [])) && HarmlessScript([])
  {
    assert s.files + [] == s.files && s.sourceFileLines + [] == s.sourceFileLines;
  }

  lemma {:induction false} FilesRead(files: seq<FileDiff>, read: nat, s: State)
    requires ScriptFits(files)
    ensures if HarmlessScript(files) then ParseFrom(RenderFiles(files), read, s) == Parsed(WithFiles(s, files))
            else ParseFrom(RenderFiles(files), read, s).Failed?
  {
    hide ParseFrom, RenderFile, NoTarget, HarmlessFile, HarmlessScript, ScriptFits, FileFits, WithFiles, WithFile;
    if files == [] {
      NoFilesRead(read, s);
    } else {
      var f, rest := files[0], files[1..];
      HarmlessStep(files);
      WithFilesStep(s, files);
      FilesNoTarget(rest);
      OneFileRead(f, RenderFiles(rest), read, s);
      FilesRead(rest, read + |RenderFile(f)|, WithFile(s, f));
    }
  }

  /**
   The round trip.  Rendering an edit script and parsing it succeeds if and only
   if no hunk ends in a deleted line that reads like a file header; then the
   target files carry exactly the numbers of their inserted lines, up to the
   treatment of missing files and git prefixes.
   */
  lemma RoundTrip(files: seq<FileDiff>)
    requires ScriptFits(files)
    ensures ParseLines(RenderFiles(files)).Parsed? <==> HarmlessScript(files)
    ensures HarmlessScript(files) ==>
      ParseLines(RenderFiles(files)) == Parsed(Finished(State(Edited(files), SourceLines(files), HasGitHeader(files))))
  {
    hide Finished, HarmlessScript, RenderFiles, HasGitHeader;
    FilesRead(files, 0, State([], [], false));
    assert WithFiles(State([], [], false), files) == State(Edited(files), SourceLines(files), HasGitHeader(files));
  }

  // ----- Plain diffs -------------------------------------------------------------------------------------------

  /** The files that still exist after the edit. */
  function Surviving(files: seq<FileDiff>): seq<FileDiff> {
    if files == [] then [] else (if files[0].target == "/dev/null" then [] else [files[0]]) + Surviving(files[1..])
  }

  lemma {:induction false} SurvivingEdited(files: seq<FileDiff>)
    ensures WithoutDevNull(Edited(files)) == Edited(Surviving(files))
  {
    hide InsertedInHunks;
    if files != [] {
      SurvivingEdited(files[1..]);
      var f := File(files[0].target, InsertedInHunks(files[0].hunks));
      assert Edited(files)[1..] == Edited(files[1..]);
      if files[0].target != DEV_NULL {
        assert Surviving(files)[0] == files[0] && Surviving(files)[1..] == Surviving(files[1..]);
        assert Edited(Surviving(files)) == [f] + Edited(Surviving(files[1..]));
      } else {
        assert Surviving(files) == Surviving(files[1..]);
      }
    }
  }

  /** A diff without git headers yields each surviving target under its own name. */
  lemma PlainRoundTrip(files: seq<FileDiff>)
    requires ScriptFits(files) && HarmlessScript(files) && !HasGitHeader(files)
    ensures ParseLines(RenderFiles(files)) == Parsed(Edited(Surviving(files)))
  {
    hide ScriptFits, HarmlessScript, HasGitHeader, RenderFiles, ParseLines;
    RoundTrip(files);
    SurvivingEdited(files);
  }

  // ----- Names -----------------------------------------------------------------------------------------------------

  /** The file is named as git names it: in `a/` and `b/`, or missing. */
  predicate GitNamed(f: FileDiff) {
    && (f.target == "/dev/null" || StartsWith(f.target, "b/"))
    && (StartsWith(Stamped(f.source, f.sourceStamp), "/dev/null") || StartsWith(Stamped(f.source, f.sourceStamp), "a/"))
  }

  lemma PrefixedSource(s: string, prefix: string)
    ensures StartsWith("--- " + s, "--- " + prefix) <==> StartsWith(s, prefix)
  {
    var line, start := "--- " + s, "--- " + prefix;
    if StartsWith(s, prefix) {
      assert line[..|start|] == "--- " + s[..|prefix|];
    }
    if StartsWith(line, start) {
      assert s[..|prefix|] == line[4..|start|] == start[4..] == prefix;
    }
  }

  lemma {:induction false} TargetNames(files: seq<File>)
    ensures (forall f :: f in WithoutDevNull(files) ==> StartsWith(f.path, "b/")) <==>
      forall i :: 0 <= i < |files| ==> files[i].path == "/dev/null" || StartsWith(files[i].path, "b/")
  {
    hide StartsWith;
    if files != [] {
      TargetNames(files[1..]);
      assert forall g :: g in WithoutDevNull(files) <==>
        g in WithoutDevNull(files[1..]) || (g == files[0] && files[0].path != "/dev/null");
      assert forall i :: 0 < i < |files| ==> files[i] == files[1..][i - 1];
    }
  }

  lemma {:induction false} SourceNames(lines: seq<string>)
    ensures (forall l :: l in WithoutDevNullSources(lines) ==> StartsWith(l, "--- a/")) <==>
      forall i :: 0 <= i < |lines| ==> StartsWith(lines[i], "--- /dev/null") || StartsWith(lines[i], "--- a/")
  {
    hide StartsWith;
    if lines != [] {
      SourceNames(lines[1..]);
      assert FROM_FILE_PREFIX + DEV_NULL == "--- /dev/null";
      assert forall l :: l in WithoutDevNullSources(lines) <==>
        l in WithoutDevNullSources(lines[1..]) || (l == lines[0] && !StartsWith(lines[0], "--- /dev/null"));
      assert forall i :: 0 < i < |lines| ==> lines[i] == lines[1..][i - 1];
    }
  }

  lemma {:induction false} NamesAt(files: seq<FileDiff>)
    ensures |Edited(files)| == |SourceLines(files)| == |files|
    ensures forall i :: 0 <= i < |files| ==>
      Edited(files)[i].path == files[i].target && SourceLines(files)[i] == SourceLine(files[i])
  {
    hide InsertedInHunks, SourceLine;
    if files != [] {
      NamesAt(files[1..]);
    }
  }

  lemma GitNames(files: seq<FileDiff>)
    ensures IsGitDetected(WithoutDevNull(Edited(files)), WithoutDevNullSources(SourceLines(files)), true) <==>
      forall f :: f in files ==> GitNamed(f)
  {
    var edited, sources := Edited(files), SourceLines(files);
    hide StartsWith, Stamped, Edited, SourceLines, WithoutDevNull, WithoutDevNullSources;
    TargetNames(edited);
    SourceNames(sources);
    NamesAt(files);
    assert FROM_FILE_PREFIX + "a/" == "--- a/" && GIT_TARGET_PREFIX == "b/";
    assert "--- " + "/dev/null" == "--- /dev/null" && "--- " + "a/" == "--- a/";
    forall i | 0 <= i < |files|
      ensures GitNamed(files[i]) <==>
        && (edited[i].path == "/dev/null" || StartsWith(edited[i].path, "b/"))
        && (StartsWith(sources[i], "--- /dev/null") || StartsWith(sources[i], "--- a/"))
    {
      PrefixedSource(Stamped(files[i].source, files[i].sourceStamp), "/dev/null");
      PrefixedSource(Stamped(files[i].source, files[i].sourceStamp), "a/");
    }
  }

  /** The surviving files, without the first two characters of their names. */
  ghost predicate IsStripped(files: seq<File>, stripped: seq<File>) {
    && |stripped| == |files|
    && forall i :: 0 <= i < |files| ==>
         StartsWith(files[i].path, "b/") && stripped[i] == File(files[i].path[2..], files[i].selectedLines)
  }

  /**
   The names of the round trip: a target loses its prefix if and only if the text has
   a git header and all its files are named as git names them.
   */
  lemma NamesRoundTrip(files: seq<FileDiff>)
    requires ScriptFits(files) && HarmlessScript(files)
    ensures ParseLines(RenderFiles(files)).Parsed?
    ensures var edited, parsed := Edited(Surviving(files)), ParseLines(RenderFiles(files)).value;
      if HasGitHeader(files) && forall f :: f in files ==> GitNamed(f) then IsStripped(edited, parsed) else parsed == edited
  {
    hide ScriptFits, HarmlessScript, HasGitHeader, RenderFiles, ParseLines, GitNamed, StartsWith;
    RoundTrip(files);
    SurvivingEdited(files);
    GitNames(files);
  }

  // ----- Git diffs -----------------------------------------------------------------------------------------------

  /** A file in a git diff: created, deleted or changed under one name. */
  datatype GitDiff = GitDiff(name: string, created: bool, deleted: bool, extended: seq<string>, hunks: seq<Hunk>)

  function GitFileDiff(g: GitDiff): FileDiff {
    FileDiff(["diff --git a/" + g.name + " b/" + g.name] + g.extended,
             if g.created then "/dev/null" else "a/" + g.name,
             if g.deleted then "/dev/null" else "b/" + g.name,
             None, None, g.hunks)
  }

  function GitFileDiffs(diffs: seq<GitDiff>): seq<FileDiff> {
    if diffs == [] then [] else [GitFileDiff(diffs[0])] + GitFileDiffs(diffs[1..])
  }

  /** Each file that is not deleted, under its name without prefix. */
  function GitEdited(diffs: seq<GitDiff>): seq<File> {
    if diffs == [] then [] else
    (if diffs[0].deleted then [] else [File(diffs[0].name, InsertedInHunks(diffs[0].hunks))]) + GitEdited(diffs[1..])
  }

  lemma GitTargets(g: GitDiff)
    ensures g.deleted <==> GitFileDiff(g).target == DEV_NULL
    ensures !g.deleted ==> StartsWith(GitFileDiff(g).target, GIT_TARGET_PREFIX) && GitFileDiff(g).target[2..] == g.name
    ensures StartsWith(SourceLine(GitFileDiff(g)), FROM_FILE_PREFIX + DEV_NULL) <==> g.created
    ensures !g.created ==> StartsWith(SourceLine(GitFileDiff(g)), FROM_FILE_PREFIX + "a/")
  {
    var target, line := GitFileDiff(g).target, SourceLine(GitFileDiff(g));
    if !g.deleted {
      assert target[0] == 'b' && target[..2] == "b/";
    }
    if g.created {
      assert line == FROM_FILE_PREFIX + DEV_NULL;
    } else {
      assert line[4] == 'a' && line[..6] == "--- a/";
      assert (FROM_FILE_PREFIX + DEV_NULL)[4] == '/';
    }
  }

  lemma {:induction false} GitSources(diffs: seq<GitDiff>)
    ensures forall line :: line in WithoutDevNullSources(SourceLines(GitFileDiffs(diffs))) ==> StartsWith(line, FROM_FILE_PREFIX + "a/")
  {
    hide StartsWith, GitFileDiff, SourceLine;
    if diffs != [] {
      GitSources(diffs[1..]);
      GitTargets(diffs[0]);
      var sources := SourceLines(GitFileDiffs(diffs));
      assert GitFileDiffs(diffs)[1..] == GitFileDiffs(diffs[1..]);
      assert sources[0] == SourceLine(GitFileDiff(diffs[0])) && sources[1..] == SourceLines(GitFileDiffs(diffs[1..]));
    }
  }

  lemma {:induction false} GitFiles(diffs: seq<GitDiff>)
    ensures var files := WithoutDevNull(Edited(GitFileDiffs(diffs)));
      && (forall f :: f in files ==> StartsWith(f.path, GIT_TARGET_PREFIX))
      && WithoutGitPrefix(files) == GitEdited(diffs)
  {
    hide InsertedInHunks, StartsWith;
    if diffs != [] {
      var g, rest := diffs[0], diffs[1..];
      GitFiles(rest);
      GitTargets(g);
      var d := GitFileDiff(g);
      var all := Edited(GitFileDiffs(diffs));
      assert GitFileDiffs(diffs)[1..] == GitFileDiffs(rest);
      assert all[0] == File(d.target, InsertedInHunks(g.hunks)) && all[1..] == Edited(GitFileDiffs(rest));
      hide GitFileDiff;
      var files, more := WithoutDevNull(all), WithoutDevNull(all[1..]);
      if g.deleted {
        assert files == more;
      } else {
        assert files == [all[0]] + more;
        assert forall f :: f in files <==> f == all[0] || f in more;
        PrefixOfFirst(all[0], more, g.name);
      }
    }
  }

  lemma PrefixOfFirst(first: File, more: seq<File>, name: string)
    requires StartsWith(first.path, GIT_TARGET_PREFIX) && first.path[2..] == name
    requires forall f :: f in more ==> StartsWith(f.path, GIT_TARGET_PREFIX)
    ensures forall f :: f in [first] + more ==> StartsWith(f.path, GIT_TARGET_PREFIX)
    ensures WithoutGitPrefix([first] + more) == [first.(path := name)] + WithoutGitPrefix(more)
  {
  }

  /** A git diff yields each file that is not deleted under its name without the prefix. */
  lemma GitRoundTrip(diffs: seq<GitDiff>)
    requires ScriptFits(GitFileDiffs(diffs)) && HarmlessScript(GitFileDiffs(diffs))
    ensures ParseLines(RenderFiles(GitFileDiffs(diffs))) == Parsed(GitEdited(diffs))
  {
    hide ScriptFits, HarmlessScript, RenderFiles, ParseLines, HasGitHeader;
    var files := GitFileDiffs(diffs);
    RoundTrip(files);
    GitSources(diffs);
    GitFiles(diffs);
    if diffs != [] {
      GitHeaders(diffs);
    }
  }

  lemma GitHeaders(diffs: seq<GitDiff>)
    requires diffs != []
    ensures HasGitHeader(GitFileDiffs(diffs))
  {
    var f := GitFileDiff(diffs[0]);
    var line := f.preamble[0];
    assert line == "diff --git" + (" a/" + diffs[0].name + " b/" + diffs[0].name);
    assert StartsWith(line, "diff --git");
    assert f == GitFileDiffs(diffs)[0] && f in GitFileDiffs(diffs) && line in f.preamble;
  }
}
