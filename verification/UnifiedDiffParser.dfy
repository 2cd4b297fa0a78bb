/**
 FileFilter/UnifiedDiffParser.cpp: the added lines of each target file of a
 unified diff.  A text is given as its lines.
 */
module UnifiedDiffParsers {
  import opened Common
  import opened Decimals

  const INT_MAX: int := 0x7FFF_FFFF

  /** `FileFilter::File`. */
  datatype File = File(path: string, selectedLines: set<int>)

  datatype Error =
    | ErrorNoFilenameBeforeHunks
    | ErrorCannotReadLine
    | ErrorExpectFromFilePrefix
    | ErrorInvalidHunks
    | ErrorContextHunks
    | OutOfRange  // thrown by std::stoi

  /** An error with the number of the line at which it was found. */
  datatype Outcome<+T> = Parsed(value: T) | Failed(error: Error, line: nat)

  const FROM_FILE_PREFIX := "--- "
  const TO_FILE_PREFIX := "+++ "
  const GIT_HEADER := "diff --git"
  const GIT_TARGET_PREFIX := "b/"
  const DEV_NULL := "/dev/null"

  predicate StartsWith(line: string, prefix: string) {
    prefix <= line
  }

  // ----- The header of a hunk ------------------------------------------------------------------

  predicate IsSpace(c: char) {
    c == ' ' || '\t' <= c <= '\r'
  }

  function SkipSpaces(s: string): string {
    if s != "" && IsSpace(s[0]) then SkipSpaces(s[1..]) else s
  }

  /** How many digits s starts with. */
  function DigitCount(s: string): (n: nat)
    ensures n <= |s| && AllDigits(s[..n])
    ensures n < |s| ==> !IsDigit(s[n])
  {
    if s != "" && IsDigit(s[0]) then 1 + DigitCount(s[1..]) else 0
  }

  /** One range: digits, and perhaps a comma and digits. */
  datatype Range = Range(start: string, count: Option<string>)

  ghost predicate RangeOk(r: Range) {
    r.start != "" && AllDigits(r.start) && (r.count.Some? ==> r.count.value != "" && AllDigits(r.count.value))
  }

  function ReadRange(s: string): (r: Option<(Range, string)>)
    ensures r.Some? ==> RangeOk(r.value.0)
  {
    var n := DigitCount(s);
    if n == 0 then None else
    var rest := s[n..];
    var k := if rest != "" && rest[0] == ',' then DigitCount(rest[1..]) else 0;
    if k > 0 then Some((Range(s[..n], Some(rest[1..][..k])), rest[1..][k..]))
    else Some((Range(s[..n], None), rest))
  }

  function Expect(s: string, token: string): Option<string> {
    if token <= s then Some(s[|token|..]) else None
  }

  /** The two ranges of a hunk header. */
  function ReadHeader(line: string): (r: Option<(Range, Range)>)
    ensures r.Some? ==> RangeOk(r.value.0) && RangeOk(r.value.1)
  {
    var afterAt := Expect(line, "@@");
    if afterAt.None? then None else
    var afterMinus := Expect(SkipSpaces(afterAt.value), "-");
    if afterMinus.None? then None else
    var from := ReadRange(afterMinus.value);
    if from.None? then None else
    var afterPlus := Expect(SkipSpaces(from.value.1), "+");
    if afterPlus.None? then None else
    var to := ReadRange(afterPlus.value);
    if to.None? then None else
    var end := Expect(SkipSpaces(to.value.1), "@@");
    if end.None? then None else Some((from.value.0, to.value.0))
  }

  // ----- The pattern that the header must match ---------------------------------------------------

  ghost predicate AllSpaces(s: string) {
    forall i :: 0 <= i < |s| ==> s[i] as int == 32 || 9 <= s[i] as int <= 13
  }

  function RangeText(r: Range): string {
    r.start + if r.count.Some? then "," + r.count.value else ""
  }

  /** `^@@\s*-(\d+)(?:,(\d+))?\s*\+(\d+)(?:,(\d+))?\s*@@` with what the groups captured. */
  ghost predicate MatchesPattern(line: string, from: Range, to: Range) {
    && RangeOk(from) && RangeOk(to)
    && exists a, b, c, rest ::
         && AllSpaces(a) && AllSpaces(b) && AllSpaces(c)
         && line == HeaderText(a, from, b, to, c, rest)
  }

  function HeaderText(a: string, from: Range, b: string, to: Range, c: string, rest: string): string {
    "@@" + (a + ("-" + (RangeText(from) + (b + ("+" + (RangeText(to) + (c + ("@@" + rest))))))))
  }

  lemma {:induction false} SkipsAll(a: string, rest: string)
    requires AllSpaces(a) && (rest != "" ==> !IsSpace(rest[0]))
    ensures SkipSpaces(a + rest) == rest
  {
    if a == "" {
      assert a + rest == rest;
    } else {
      assert (a + rest)[1..] == a[1..] + rest;
      SkipsAll(a[1..], rest);
    }
  }

  lemma {:induction false} SkippedSpaces(s: string) returns (a: string)
    ensures AllSpaces(a) && s == a + SkipSpaces(s)
  {
    if s != "" && IsSpace(s[0]) {
      var b := SkippedSpaces(s[1..]);
      a := [s[0]] + b;
      assert ([s[0]] + b) + SkipSpaces(s) == [s[0]] + (b + SkipSpaces(s));
    } else {
      a := "";
    }
  }

  lemma {:induction false} CountsAll(digits: string, rest: string)
    requires AllDigits(digits) && (rest != "" ==> !IsDigit(rest[0]))
    ensures DigitCount(digits + rest) == |digits|
  {
    if digits == "" {
      assert digits + rest == rest;
    } else {
      assert (digits + rest)[1..] == digits[1..] + rest;
      CountsAll(digits[1..], rest);
    }
  }

  /** A range is read back in front of anything that cannot continue it. */
  lemma ReadsRange(r: Range, rest: string)
    requires RangeOk(r) && (rest != "" ==> !IsDigit(rest[0]) && rest[0] != ',')
    ensures ReadRange(RangeText(r) + rest) == Some((r, rest))
  {
    var s := RangeText(r) + rest;
    if r.count.Some? {
      var after := "," + r.count.value + rest;
      assert s == r.start + after;
      CountsAll(r.start, after);
      assert s[|r.start|..] == after && after[1..] == r.count.value + rest;
      CountsAll(r.count.value, rest);
      assert after[1..1 + |r.count.value|] == r.count.value && after[1 + |r.count.value|..] == rest;
    } else {
      assert s == r.start + rest;
      CountsAll(r.start, rest);
      assert s[|r.start|..] == rest;
    }
  }

  lemma RangeTextRead(s: string)
    requires ReadRange(s).Some?
    ensures s == RangeText(ReadRange(s).value.0) + ReadRange(s).value.1
  {
  }

  lemma ExpectPrefix(token: string, rest: string)
    ensures Expect(token + rest, token) == Some(rest)
  {
    assert (token + rest)[..|token|] == token && (token + rest)[|token|..] == rest;
  }

  /** A matching line is read, with the captured ranges. */
  lemma PatternIsRead(line: string, from: Range, to: Range)
    requires MatchesPattern(line, from, to)
    ensures ReadHeader(line) == Some((from, to))
  {
    hide ReadRange, SkipSpaces, Expect, RangeText, RangeOk;
    var a, b, c, rest :| AllSpaces(a) && AllSpaces(b) && AllSpaces(c) && line == HeaderText(a, from, b, to, c, rest);
    HeaderIsRead(a, from, b, to, c, rest);
  }

  lemma HeaderIsRead(a: string, from: Range, b: string, to: Range, c: string, rest: string)
    requires RangeOk(from) && RangeOk(to) && AllSpaces(a) && AllSpaces(b) && AllSpaces(c)
    ensures ReadHeader(HeaderText(a, from, b, to, c, rest)) == Some((from, to))
  {
    hide ReadRange, SkipSpaces, Expect, RangeText, RangeOk;
    var s6 := "@@" + rest;
    var s5 := RangeText(to) + (c + s6);
    var s4 := "+" + s5;
    var s3 := RangeText(from) + (b + s4);
    var s2 := "-" + s3;
    ExpectPrefix("@@", a + s2);
    SkipsAll(a, s2);
    ExpectPrefix("-", s3);
    ReadsRangeBefore(from, b, s4);
    SkipsAll(b, s4);
    ExpectPrefix("+", s5);
    ReadsRangeBefore(to, c, s6);
    SkipsAll(c, s6);
    ExpectPrefix("@@", rest);
  }

  lemma ReadsRangeBefore(r: Range, spaces: string, rest: string)
    requires RangeOk(r) && AllSpaces(spaces) && rest != "" && !IsDigit(rest[0]) && rest[0] != ','
    ensures ReadRange(RangeText(r) + (spaces + rest)) == Some((r, spaces + rest))
  {
    ReadsRange(r, spaces + rest);
  }

  lemma ExpectMeans(s: string, token: string)
    requires Expect(s, token).Some?
    ensures s == token + Expect(s, token).value
  {
  }

  /** What is read matches the pattern. */
  lemma ReadIsPattern(line: string)
    requires ReadHeader(line).Some?
    ensures MatchesPattern(line, ReadHeader(line).value.0, ReadHeader(line).value.1)
  {
    hide ReadRange, SkipSpaces, Expect, RangeText, RangeOk;
    ExpectMeans(line, "@@");
    var s1 := Expect(line, "@@").value;
    var a := SkippedSpaces(s1);
    ExpectMeans(SkipSpaces(s1), "-");
    var s3 := Expect(SkipSpaces(s1), "-").value;
    RangeTextRead(s3);
    var (from, s4) := ReadRange(s3).value;
    var b := SkippedSpaces(s4);
    ExpectMeans(SkipSpaces(s4), "+");
    var s5 := Expect(SkipSpaces(s4), "+").value;
    RangeTextRead(s5);
    var (to, s6) := ReadRange(s5).value;
    var c := SkippedSpaces(s6);
    ExpectMeans(SkipSpaces(s6), "@@");
    var rest := Expect(SkipSpaces(s6), "@@").value;
    assert line == HeaderText(a, from, b, to, c, rest);
  }

  /** Reading a header is matching the pattern: the same lines, and the same captures. */
  lemma HeaderIsPattern(line: string, from: Range, to: Range)
    ensures ReadHeader(line) == Some((from, to)) <==> MatchesPattern(line, from, to)
  {
    if MatchesPattern(line, from, to) {
      PatternIsRead(line, from, to);
    }
    if ReadHeader(line) == Some((from, to)) {
      ReadIsPattern(line);
    }
  }

  /** The numbers of a matching header, with a count of one when there is none; each must fit an int. */
  lemma HunksExact(line: string, read: nat, from: Range, to: Range)
    requires MatchesPattern(line, from, to)
    ensures var fits := RangeMax(from) <= 2147483647 && RangeMax(to) <= 2147483647;
      HunksOf(line, read) == if !fits then Failed(OutOfRange, read)
        else Parsed(HunksDifferences(Value(to.start), if to.count.Some? then Value(to.count.value) else 1))
  {
    PatternIsRead(line, from, to);
  }

  /** The greatest number of a range. */
  function RangeMax(r: Range): nat
    requires RangeOk(r)
  {
    if r.count.Some? && Value(r.count.value) > Value(r.start) then Value(r.count.value) else Value(r.start)
  }

  // ----- The specification of the parser ------------------------------------------------------------

  datatype HunksDifferences = HunksDifferences(startTo: int, countTo: int)

  /** What the main loop has collected. */
  datatype State = State(files: seq<File>, sourceFileLines: seq<string>, foundGitHeader: bool)

  function FitsInt(digits: string): bool
    requires AllDigits(digits)
  {
    Value(digits) <= INT_MAX
  }

  function CountOf(r: Range): (n: nat)
    requires RangeOk(r)
  {
    if r.count.Some? then Value(r.count.value) else 1
  }

  function RangeFits(r: Range): bool
    requires RangeOk(r)
  {
    FitsInt(r.start) && (r.count.Some? ==> FitsInt(r.count.value))
  }

  /** `ExtractHunksDifferences`; only the target range is used afterwards. */
  function HunksOf(line: string, read: nat): Outcome<HunksDifferences> {
    var header := ReadHeader(line);
    if header.None? then Failed(ErrorInvalidHunks, read)
    else if !RangeFits(header.value.0) || !RangeFits(header.value.1) then Failed(OutOfRange, read)
    else Parsed(HunksDifferences(Value(header.value.1.start), CountOf(header.value.1)))
  }

  predicate Skipped(line: string) {
    StartsWith(line, "-") || StartsWith(line, "\\")
  }

  /** The lines of a hunk: how many are read, the target line reached, and the added target lines. */
  function Scan(lines: seq<string>, current: int, end: int): (r: (nat, int, seq<int>))
    ensures r.0 <= |lines|
    ensures current <= end ==> current <= r.1 <= end
    ensures r.1 < end ==> r.0 == |lines|
  {
    if current >= end || lines == [] then (0, current, []) else
    var next := if Skipped(lines[0]) then current else current + 1;
    var (n, last, updated) := Scan(lines[1..], next, end);
    (n + 1, last, (if StartsWith(lines[0], "+") then [current] else []) + updated)
  }

  /** The path between the prefix and the first tab. */
  function TargetPath(line: string): string
    requires StartsWith(line, TO_FILE_PREFIX)
  {
    line[|TO_FILE_PREFIX|..FindTab(line, 0)]
  }

  function FindTab(line: string, from: nat): (i: nat)
    requires from <= |line|
    ensures from <= i <= |line| && (i < |line| ==> line[i] == '\t') && forall k :: from <= k < i ==> line[k] != '\t'
    decreases |line| - from
  {
    if from == |line| || line[from] == '\t' then from else FindTab(line, from + 1)
  }

  function Selected(files: seq<File>, updated: seq<int>): seq<File>
    requires files != []
  {
    var last := files[|files| - 1];
    files[|files| - 1 := last.(selectedLines := last.selectedLines + set n | n in updated)]
  }

  /** `ExtractTargetFile`, on the lines after the source header; `read` lines have been read. */
  function TargetOf(lines: seq<string>, read: nat): (r: Outcome<string>)
    ensures r.Parsed? ==> lines != []
  {
    if lines == [] then Failed(ErrorCannotReadLine, read + 1)
    else if !StartsWith(lines[0], TO_FILE_PREFIX) then Failed(ErrorExpectFromFilePrefix, read + 1)
    else Parsed(TargetPath(lines[0]))
  }

  /** `ExtractUpdatedLines`, on the lines after a hunk header: how many it reads, and the added lines. */
  function UpdatedOf(header: string, lines: seq<string>, read: nat): (r: Outcome<(nat, seq<int>)>)
    ensures r.Parsed? ==> r.value.0 <= |lines|
  {
    match HunksOf(header, read)
    case Failed(error, at) => Failed(error, at)
    case Parsed(h) =>
      var (n, last, updated) := Scan(lines, h.startTo, h.startTo + h.countTo);
      if last != h.startTo + h.countTo then Failed(ErrorContextHunks, read + n + 1) else Parsed((n, updated))
  }

  /** The main loop, on the lines that are left; `read` lines have been read. */
  function ParseFrom(lines: seq<string>, read: nat, s: State): Outcome<State>
    decreases |lines|
  {
    if lines == [] then Parsed(s) else
    var line := lines[0];
    if StartsWith(line, GIT_HEADER) then
      ParseFrom(lines[1..], read + 1, s.(foundGitHeader := true))
    else if StartsWith(line, FROM_FILE_PREFIX) then
      match TargetOf(lines[1..], read + 1)
      case Failed(error, at) => Failed(error, at)
      case Parsed(path) =>
        ParseFrom(lines[2..], read + 2, s.(sourceFileLines := s.sourceFileLines + [line], files := s.files + [File(path, {})]))
    else if StartsWith(line, "@@") then
      if s.files == [] then Failed(ErrorNoFilenameBeforeHunks, read + 1) else
      match UpdatedOf(line, lines[1..], read + 1)
      case Failed(error, at) => Failed(error, at)
      case Parsed((n, updated)) => ParseFrom(lines[1 + n..], read + 1 + n, s.(files := Selected(s.files, updated)))
    else
      ParseFrom(lines[1..], read + 1, s)
  }

  function WithoutDevNull(files: seq<File>): (r: seq<File>) {
    if files == [] then [] else
    (if files[0].path == DEV_NULL then [] else [files[0]]) + WithoutDevNull(files[1..])
  }

  function WithoutDevNullSources(sourceFileLines: seq<string>): (r: seq<string>) {
    if sourceFileLines == [] then [] else
    (if StartsWith(sourceFileLines[0], FROM_FILE_PREFIX + DEV_NULL) then [] else [sourceFileLines[0]]) +
      WithoutDevNullSources(sourceFileLines[1..])
  }

  predicate IsGitDetected(files: seq<File>, sourceFileLines: seq<string>, foundGitHeader: bool) {
    && foundGitHeader
    && (forall f :: f in files ==> StartsWith(f.path, GIT_TARGET_PREFIX))
    && (forall line :: line in sourceFileLines ==> StartsWith(line, FROM_FILE_PREFIX + "a/"))
  }

  function WithoutGitPrefix(files: seq<File>): seq<File>
    requires forall f :: f in files ==> StartsWith(f.path, GIT_TARGET_PREFIX)
  {
    seq(|files|, i requires 0 <= i < |files| =>
      assert files[i] in files && StartsWith(files[i].path, GIT_TARGET_PREFIX);
      files[i].(path := files[i].path[|GIT_TARGET_PREFIX|..]))
  }

  /** `RemoveDevNull`, then `UpdateFilePathIfGitDetected`. */
  function Finished(s: State): seq<File> {
    var files := WithoutDevNull(s.files);
    if IsGitDetected(files, WithoutDevNullSources(s.sourceFileLines), s.foundGitHeader) then WithoutGitPrefix(files) else files
  }

  function ParseLines(lines: seq<string>): Outcome<seq<File>> {
    match ParseFrom(lines, 0, State([], [], false))
    case Failed(error, line) => Failed(error, line)
    case Parsed(s) => Parsed(Finished(s))
  }

  // ----- Where errors are found -------------------------------------------------------------------------

  /** A hunk header with a number that does not fit an int. */
  ghost predicate MatchesTooLarge(line: string, from: Range, to: Range) {
    MatchesPattern(line, from, to) && (RangeMax(from) > 2147483647 || RangeMax(to) > 2147483647)
  }

  ghost predicate IsPattern(line: string) {
    exists from, to :: MatchesPattern(line, from, to)
  }

  ghost predicate IsTooLarge(line: string) {
    exists from, to :: MatchesTooLarge(line, from, to)
  }

  /** What stands at the line that an error names, lines counted from one. */
  ghost predicate ErrorAt(text: seq<string>, error: Error, line: nat) {
    match error
    case ErrorNoFilenameBeforeHunks => 1 <= line <= |text| && StartsWith(text[line - 1], "@@")
    case ErrorInvalidHunks =>
      && 1 <= line <= |text| && StartsWith(text[line - 1], "@@")
      && !IsPattern(text[line - 1])
    case OutOfRange =>
      1 <= line <= |text| && IsTooLarge(text[line - 1])
    case ErrorCannotReadLine => line == |text| + 1 && line >= 2 && StartsWith(text[line - 2], "--- ")
    case ErrorExpectFromFilePrefix =>
      2 <= line <= |text| && StartsWith(text[line - 2], "--- ") && !StartsWith(text[line - 1], "+++ ")
    case ErrorContextHunks => line == |text| + 1
  }

  lemma HunkErrorAt(text: seq<string>, read: nat)
    requires read < |text| && StartsWith(text[read], "@@")
    ensures var r := UpdatedOf(text[read], text[read + 1..], read + 1); r.Failed? ==> ErrorAt(text, r.error, r.line)
  {
    hide ReadHeader, MatchesPattern, StartsWith, Scan;
    var line := text[read];
    var header := ReadHeader(line);
    if header.None? {
      forall from, to ensures !MatchesPattern(line, from, to) {
        HeaderIsPattern(line, from, to);
      }
    } else {
      var (from, to) := header.value;
      HeaderIsPattern(line, from, to);
      HunksExact(line, read + 1, from, to);
      assert HunksOf(line, read + 1).Failed? ==> MatchesTooLarge(line, from, to);
    }
  }

  lemma {:induction false} ErrorsFrom(text: seq<string>, read: nat, s: State)
    requires read <= |text|
    ensures var r := ParseFrom(text[read..], read, s); r.Failed? ==> ErrorAt(text, r.error, r.line)
    decreases |text| - read
  {
    hide ErrorAt, UpdatedOf, Selected;
    if read < |text| {
      var lines, line := text[read..], text[read];
      assert lines[0] == line && lines[1..] == text[read + 1..];
      if StartsWith(line, GIT_HEADER) {
        ErrorsFrom(text, read + 1, s.(foundGitHeader := true));
      } else if StartsWith(line, FROM_FILE_PREFIX) {
        TargetErrorAt(text, read);
        var target := TargetOf(text[read + 1..], read + 1);
        if target.Parsed? {
          assert lines[2..] == text[read + 2..];
          ErrorsFrom(text, read + 2, s.(sourceFileLines := s.sourceFileLines + [line],
                                        files := s.files + [File(target.value, {})]));
        }
      } else if StartsWith(line, "@@") {
        HunkErrorAt(text, read);
        NoFilenameAt(text, read);
        var updated := UpdatedOf(line, text[read + 1..], read + 1);
        if s.files != [] && updated.Parsed? {
          var n := updated.value.0;
          assert lines[1 + n..] == text[read + 1 + n..];
          ErrorsFrom(text, read + 1 + n, s.(files := Selected(s.files, updated.value.1)));
        }
      } else {
        ErrorsFrom(text, read + 1, s);
      }
    }
  }

  lemma TargetErrorAt(text: seq<string>, read: nat)
    requires read < |text| && StartsWith(text[read], FROM_FILE_PREFIX)
    ensures var r := TargetOf(text[read + 1..], read + 1); r.Failed? ==> ErrorAt(text, r.error, r.line)
    ensures TargetOf(text[read + 1..], read + 1).Parsed? ==> read + 2 <= |text|
  {
  }

  lemma NoFilenameAt(text: seq<string>, read: nat)
    requires read < |text| && StartsWith(text[read], "@@")
    ensures ErrorAt(text, ErrorNoFilenameBeforeHunks, read + 1)
  {
  }

  /** On any text, an error names the line at which it is found. */
  lemma ErrorsAreLocated(text: seq<string>)
    ensures var r := ParseLines(text); r.Failed? ==> ErrorAt(text, r.error, r.line)
  {
    hide ErrorAt;
    assert text[0..] == text;
    ErrorsFrom(text, 0, State([], [], false));
  }

  // ----- The parser --------------------------------------------------------------------------------------

  class Stream {
    const lines: seq<string>
    var position: nat
    var currentLine: nat

    ghost predicate Valid()
      reads this
    {
      position <= |lines|
    }

    /** The lines that are left. */
    ghost function Rest(): seq<string>
      requires Valid()
      reads this
    {
      lines[position..]
    }

    constructor (lines: seq<string>)
      ensures Valid() && Rest() == lines && currentLine == 0
    {
      this.lines, position, currentLine := lines, 0, 0;
    }

    /** `Stream::GetLine`: counts the line even when there is none. */
    method GetLine() returns (line: Option<string>)
      requires Valid()
      modifies this
      ensures Valid() && currentLine == old(currentLine) + 1
      ensures line == if old(Rest()) == [] then None else Some(old(Rest())[0])
      ensures Rest() == if old(Rest()) == [] then [] else old(Rest())[1..]
    {
      currentLine := currentLine + 1;
      if position < |lines| {
        line := Some(lines[position]);
        position := position + 1;
      } else {
        line := None;
      }
    }
  }

  method ExtractTargetFile(stream: Stream) returns (r: Outcome<string>)
    requires stream.Valid()
    modifies stream
    ensures stream.Valid() && stream.currentLine == old(stream.currentLine) + 1
    ensures r == TargetOf(old(stream.Rest()), old(stream.currentLine))
    ensures r.Parsed? ==> stream.Rest() == old(stream.Rest())[1..]
  {
    var line := stream.GetLine();
    if line.None? {
      return Failed(ErrorCannotReadLine, stream.currentLine);
    }
    if !StartsWith(line.value, TO_FILE_PREFIX) {
      return Failed(ErrorExpectFromFilePrefix, stream.currentLine);
    }
    r := Parsed(TargetPath(line.value));
  }

  /** The scan has taken some lines and has this left to do. */
  ghost predicate Scanned(lines: seq<string>, start: int, end: int, taken: nat, current: int, updated: seq<int>) {
    && taken <= |lines|
    && var (n, last, all) := Scan(lines, start, end);
       var (m, last', more) := Scan(lines[taken..], current, end);
       n == taken + m && last == last' && all == updated + more
  }

  lemma ScanStarts(lines: seq<string>, start: int, end: int)
    ensures Scanned(lines, start, end, 0, start, [])
  {
    assert lines[0..] == lines;
  }

  lemma ScanStep(lines: seq<string>, start: int, end: int, taken: nat, current: int, updated: seq<int>)
    requires Scanned(lines, start, end, taken, current, updated) && current < end && taken < |lines|
    ensures var line := lines[taken];
      Scanned(lines, start, end, taken + 1, if Skipped(line) then current else current + 1,
              if StartsWith(line, "+") then updated + [current] else updated)
    ensures StartsWith(lines[taken], "+") ==> !Skipped(lines[taken])
  {
    assert StartsWith(lines[taken], "+") ==> lines[taken][0] == '+';
    assert lines[taken..][1..] == lines[taken + 1..];
  }

  lemma ScanEnds(lines: seq<string>, start: int, end: int, taken: nat, current: int, updated: seq<int>)
    requires Scanned(lines, start, end, taken, current, updated) && (current >= end || taken == |lines|)
    ensures Scan(lines, start, end) == (taken, current, updated)
  {
    assert updated + [] == updated;
  }

  lemma ScanStays(lines: seq<string>, start: int, end: int)
    requires start <= end
    ensures Scan(lines, start, end).1 <= end && (Scan(lines, start, end).1 < end ==> Scan(lines, start, end).0 == |lines|)
  {
  }

  lemma HunksOrdered(line: string, read: nat)
    requires HunksOf(line, read).Parsed?
    ensures HunksOf(line, read).value.startTo <= HunksOf(line, read).value.startTo + HunksOf(line, read).value.countTo
  {
  }

  /** The loop of `ExtractUpdatedLines`; it reads past the end of the text when the hunk is cut short. */
  method ScanBody(stream: Stream, start: int, end: int) returns (currentLine: int, updatedLines: seq<int>)
    requires stream.Valid() && start <= end
    modifies stream
    ensures stream.Valid()
    ensures var (n, last, updated) := Scan(old(stream.Rest()), start, end);
      && currentLine == last && updatedLines == updated
      && stream.currentLine == old(stream.currentLine) + n + (if last == end then 0 else 1)
      && (last == end ==> stream.Rest() == old(stream.Rest())[n..])
  {
    currentLine, updatedLines := start, [];
    ghost var before, taken := stream.Rest(), 0;
    ScanStarts(before, start, end);
    ScanStays(before, start, end);
    hide Scan, Scanned, StartsWith, Skipped;
    var good := true;
    while currentLine < end && good
      invariant stream.Valid() && taken <= |before| && stream.Rest() == before[taken..]
      invariant stream.currentLine == old(stream.currentLine) + taken + if good then 0 else 1
      invariant Scanned(before, start, end, taken, currentLine, updatedLines)
      invariant !good ==> currentLine < end && taken == |before|
      decreases |before| - taken, good
    {
      var lineStr := stream.GetLine();
      if lineStr.None? {
        good := false;
      } else {
        assert lineStr.value == before[taken];
        ScanStep(before, start, end, taken, currentLine, updatedLines);
        taken := taken + 1;
        if !Skipped(lineStr.value) {
          if StartsWith(lineStr.value, "+") {
            updatedLines := updatedLines + [currentLine];
          }
          currentLine := currentLine + 1;
        }
      }
    }
    ScanEnds(before, start, end, taken, currentLine, updatedLines);
  }

  method ExtractUpdatedLines(stream: Stream, line: string) returns (r: Outcome<seq<int>>)
    requires stream.Valid()
    modifies stream
    ensures stream.Valid()
    ensures match UpdatedOf(line, old(stream.Rest()), old(stream.currentLine))
      case Failed(error, at) => r == Failed(error, at)
      case Parsed((n, updated)) =>
        r == Parsed(updated) && stream.currentLine == old(stream.currentLine) + n && stream.Rest() == old(stream.Rest())[n..]
  {
    hide Scan, HunksOf;
    var h := HunksOf(line, stream.currentLine);
    if h.Failed? {
      return Failed(h.error, h.line);
    }
    HunksOrdered(line, stream.currentLine);
    var endLine := h.value.startTo + h.value.countTo;
    var currentLine, updatedLines := ScanBody(stream, h.value.startTo, endLine);
    if currentLine != endLine {
      return Failed(ErrorContextHunks, stream.currentLine);
    }
    r := Parsed(updatedLines);
  }

  method UpdateFilePathIfGitDetected(files: seq<File>, sourceFileLines: seq<string>, foundGitHeader: bool)
    returns (r: seq<File>)
    ensures r == if IsGitDetected(files, sourceFileLines, foundGitHeader) then WithoutGitPrefix(files) else files
  {
    r := files;
    if IsGitDetected(files, sourceFileLines, foundGitHeader) {
      for i := 0 to |files|
        invariant |r| == |files|
        invariant forall k :: 0 <= k < i ==> r[k] == WithoutGitPrefix(files)[k]
        invariant forall k :: i <= k < |files| ==> r[k] == files[k]
      {
        assert files[i] in files && StartsWith(files[i].path, GIT_TARGET_PREFIX);
        r := r[i := r[i].(path := r[i].path[|GIT_TARGET_PREFIX|..])];
      }
    }
  }

  // The cases of the main loop, one unfolding each.

  lemma GitHeaderRead(line: string, rest: seq<string>, read: nat, s: State)
    requires StartsWith(line, GIT_HEADER)
    ensures ParseFrom([line] + rest, read, s) == ParseFrom(rest, read + 1, s.(foundGitHeader := true))
  {
    assert ([line] + rest)[1..] == rest;
  }

  lemma FileHeaderRead(line: string, rest: seq<string>, read: nat, s: State)
    requires !StartsWith(line, GIT_HEADER) && StartsWith(line, FROM_FILE_PREFIX)
    ensures match TargetOf(rest, read + 1)
      case Failed(error, at) => ParseFrom([line] + rest, read, s) == Failed(error, at)
      case Parsed(path) =>
        ParseFrom([line] + rest, read, s) == ParseFrom(rest[1..], read + 2,
          s.(sourceFileLines := s.sourceFileLines + [line], files := s.files + [File(path, {})]))
  {
    assert ([line] + rest)[1..] == rest;
    if rest != [] {
      assert ([line] + rest)[2..] == rest[1..];
    }
  }

  predicate IsHunkHeader(line: string) {
    !StartsWith(line, GIT_HEADER) && !StartsWith(line, FROM_FILE_PREFIX) && StartsWith(line, "@@")
  }

  lemma HunkRead(line: string, rest: seq<string>, read: nat, s: State)
    requires IsHunkHeader(line)
    ensures if s.files == [] then ParseFrom([line] + rest, read, s) == Failed(ErrorNoFilenameBeforeHunks, read + 1) else
      match UpdatedOf(line, rest, read + 1)
      case Failed(error, at) => ParseFrom([line] + rest, read, s) == Failed(error, at)
      case Parsed((n, updated)) =>
        ParseFrom([line] + rest, read, s) == ParseFrom(rest[n..], read + 1 + n, s.(files := Selected(s.files, updated)))
  {
    hide UpdatedOf, TargetOf, Selected, StartsWith;
    var lines := [line] + rest;
    assert lines[1..] == rest;
    match UpdatedOf(line, rest, read + 1)
    case Failed(error, at) =>
    case Parsed((n, updated)) => assert lines[1 + n..] == rest[n..];
  }

  predicate IsOther(line: string) {
    !StartsWith(line, GIT_HEADER) && !StartsWith(line, FROM_FILE_PREFIX) && !StartsWith(line, "@@")
  }

  lemma OtherRead(line: string, rest: seq<string>, read: nat, s: State)
    requires IsOther(line)
    ensures ParseFrom([line] + rest, read, s) == ParseFrom(rest, read + 1, s)
  {
    assert ([line] + rest)[1..] == rest;
  }

  lemma ParsedAll(read: nat, s: State)
    ensures ParseFrom([], read, s) == Parsed(s)
  {
  }

  method FillUpdatedLines(line: string, files: seq<File>, stream: Stream) returns (r: Outcome<seq<File>>)
    requires stream.Valid()
    modifies stream
    ensures stream.Valid()
    ensures files == [] ==> r == Failed(ErrorNoFilenameBeforeHunks, old(stream.currentLine))
    ensures files != [] ==>
      match UpdatedOf(line, old(stream.Rest()), old(stream.currentLine))
      case Failed(error, at) => r == Failed(error, at)
      case Parsed((n, updated)) =>
        r == Parsed(Selected(files, updated)) && stream.currentLine == old(stream.currentLine) + n &&
        stream.Rest() == old(stream.Rest())[n..]
  {
    hide UpdatedOf;
    if files == [] {
      return Failed(ErrorNoFilenameBeforeHunks, stream.currentLine);
    }
    var updatedLines := ExtractUpdatedLines(stream, line);
    if updatedLines.Failed? {
      return Failed(updatedLines.error, updatedLines.line);
    }
    r := Parsed(Selected(files, updatedLines.value));
  }

  /** The line read ahead and the lines behind it. */
  function Ahead(line: Option<string>, rest: seq<string>): seq<string> {
    if line.Some? then [line.value] + rest else rest
  }

  lemma AheadOf(before: seq<string>, line: Option<string>, rest: seq<string>)
    requires line == if before == [] then None else Some(before[0])
    requires rest == if before == [] then [] else before[1..]
    ensures Ahead(line, rest) == before
  {
  }

  /** One round of the loop of `UnifiedDiffParser::Parse`, after a line has been read. */
  method ReadOne(line: string, stream: Stream, s: State) returns (r: Outcome<State>)
    requires stream.Valid() && stream.currentLine > 0
    modifies stream
    ensures stream.Valid() && (r.Parsed? ==> stream.currentLine > 0 && |stream.Rest()| <= |old(stream.Rest())|)
    ensures ParseFrom([line] + old(stream.Rest()), old(stream.currentLine) - 1, s) ==
      match r
      case Failed(error, at) => Failed(error, at)
      case Parsed(next) => ParseFrom(stream.Rest(), stream.currentLine, next)
  {
    hide ParseFrom, UpdatedOf, TargetOf, Selected, StartsWith;
    if StartsWith(line, GIT_HEADER) {
      GitHeaderRead(line, stream.Rest(), stream.currentLine - 1, s);
      r := Parsed(s.(foundGitHeader := true));
    } else if StartsWith(line, FROM_FILE_PREFIX) {
      FileHeaderRead(line, stream.Rest(), stream.currentLine - 1, s);
      var target := ExtractTargetFile(stream);
      if target.Failed? {
        return Failed(target.error, target.line);
      }
      r := Parsed(s.(sourceFileLines := s.sourceFileLines + [line], files := s.files + [File(target.value, {})]));
    } else if StartsWith(line, "@@") {
      HunkRead(line, stream.Rest(), stream.currentLine - 1, s);
      var filled := FillUpdatedLines(line, s.files, stream);
      if filled.Failed? {
        return Failed(filled.error, filled.line);
      }
      r := Parsed(s.(files := filled.value));
    } else {
      OtherRead(line, stream.Rest(), stream.currentLine - 1, s);
      r := Parsed(s);
    }
  }

  /** The loop of `UnifiedDiffParser::Parse`. */
  method ReadAll(istr: seq<string>) returns (r: Outcome<State>)
    ensures r == ParseFrom(istr, 0, State([], [], false))
  {
    hide ParseFrom, Ahead;
    var stream := new Stream(istr);
    var s := State([], [], false);
    var line := stream.GetLine();
    AheadOf(istr, line, stream.Rest());
    while line.Some?
      invariant stream.Valid() && stream.currentLine > 0
      invariant line.None? ==> stream.Rest() == []
      invariant ParseFrom(istr, 0, State([], [], false)) == ParseFrom(Ahead(line, stream.Rest()), stream.currentLine - 1, s)
      decreases |stream.Rest()|, line.Some?
    {
      AheadOf([line.value] + stream.Rest(), line, stream.Rest());
      var next := ReadOne(line.value, stream, s);
      if next.Failed? {
        return Failed(next.error, next.line);
      }
      s := next.value;
      ghost var rest := stream.Rest();
      line := stream.GetLine();
      AheadOf(rest, line, stream.Rest());
    }
    AheadOf([], line, stream.Rest());
    ParsedAll(stream.currentLine - 1, s);
    r := Parsed(s);
  }

  /** `UnifiedDiffParser::Parse`. */
  method Parse(istr: seq<string>) returns (r: Outcome<seq<File>>)
    ensures r == ParseLines(istr)
  {
    var s := ReadAll(istr);
    if s.Failed? {
      return Failed(s.error, s.line);
    }
    var files := WithoutDevNull(s.value.files);
    var sourceFileLines := WithoutDevNullSources(s.value.sourceFileLines);
    files := UpdateFilePathIfGitDetected(files, sourceFileLines, s.value.foundGitHeader);
    r := Parsed(files);
  }
}
