/**
 CppCoverage/Wildcards.cpp: compiling a glob to a regular expression, and what
 searching for it means.  The regular expressions are those of section 15.10.2
 of ECMA-262, 3rd edition, as far as the compiled patterns need them.
 */
module WildcardPatterns {
  import opened Common

  const ESCAPED_CHARS: seq<char> := ['\\', '^', '$', '.', '+', '(', ')', '[', ']', '{', '}', '|', '?']

  // ----- The compilation ---------------------------------------------------------------------------

  /** `boost::replace_all` for a single character. */
  function ReplaceAll(s: string, c: char, format: string): string {
    if s == "" then "" else (if s[0] == c then format else [s[0]]) + ReplaceAll(s[1..], c, format)
  }

  function TrimLeft(s: string): string {
    if s != "" && s[0] == '*' then TrimLeft(s[1..]) else s
  }

  function TrimRight(s: string): string {
    if s != "" && s[|s| - 1] == '*' then TrimRight(s[..|s| - 1]) else s
  }

  function Trim(s: string): string {
    TrimRight(TrimLeft(s))
  }

  /** The replace passes, one for each character, in order. */
  function Passes(s: string, chars: seq<char>): string {
    if chars == [] then s else
    var c := chars[|chars| - 1];
    ReplaceAll(Passes(s, chars[..|chars| - 1]), c, ['\\', c])
  }

  /** The simultaneous escape: a backslash before each of the characters. */
  function Escape(s: string, chars: seq<char>): string {
    if s == "" then "" else (if s[0] in chars then ['\\', s[0]] else [s[0]]) + Escape(s[1..], chars)
  }

  function Compiled(s: string): string {
    ReplaceAll(Trim(Passes(s, ESCAPED_CHARS)), '*', ".*")
  }

  class Wildcards {
    const originalStr: string
    const pattern: string

    constructor (str: string)
      ensures originalStr == str && pattern == Compiled(str)
      ensures forall fold, s :: Search(fold, pattern, s) == Some(GlobMatches(fold, Pieces(str), s))
    {
      originalStr := str;
      var rewritten := str;
      for n := 0 to |ESCAPED_CHARS|
        invariant rewritten == Passes(str, ESCAPED_CHARS[..n])
      {
        var c := ESCAPED_CHARS[n];
        rewritten := ReplaceAll(rewritten, c, ['\\', c]);
        assert ESCAPED_CHARS[..n + 1][..n] == ESCAPED_CHARS[..n];
      }
      assert ESCAPED_CHARS[..|ESCAPED_CHARS|] == ESCAPED_CHARS;
      rewritten := Trim(rewritten);
      pattern := ReplaceAll(rewritten, '*', ".*");
      forall fold, s ensures Search(fold, Compiled(str), s) == Some(GlobMatches(fold, Pieces(str), s)) {
        GlobSearch(fold, str, s);
      }
    }

    /** `Match`; None stands for a pattern that the regular expression library refuses. */
    ghost function Match(fold: char -> char, s: string): Option<bool> {
      Search(fold, pattern, s)
    }
  }

  // ----- The passes are one simultaneous escape ---------------------------------------------------------

  lemma {:induction false} ReplaceConcat(s: string, t: string, c: char, format: string)
    ensures ReplaceAll(s + t, c, format) == ReplaceAll(s, c, format) + ReplaceAll(t, c, format)
  {
    if s == "" {
      assert s + t == t;
    } else {
      assert (s + t)[1..] == s[1..] + t;
      ReplaceConcat(s[1..], t, c, format);
    }
  }

  lemma {:induction false} EscapeConcat(s: string, t: string, chars: seq<char>)
    ensures Escape(s + t, chars) == Escape(s, chars) + Escape(t, chars)
  {
    if s == "" {
      assert s + t == t;
    } else {
      assert (s + t)[1..] == s[1..] + t;
      EscapeConcat(s[1..], t, chars);
    }
  }

  lemma {:induction false} EscapeNothing(s: string)
    ensures Escape(s, []) == s
  {
    if s != "" {
      EscapeNothing(s[1..]);
    }
  }

  /** A later pass leaves the inserted backslashes alone. */
  lemma {:induction false} OneMorePass(s: string, chars: seq<char>, c: char)
    requires c !in chars && (chars == [] || c != '\\')
    ensures ReplaceAll(Escape(s, chars), c, ['\\', c]) == Escape(s, chars + [c])
  {
    if s != "" {
      OneMorePass(s[1..], chars, c);
      var first := if s[0] in chars then ['\\', s[0]] else [s[0]];
      ReplaceConcat(first, Escape(s[1..], chars), c, ['\\', c]);
      assert first[1..] == if s[0] in chars then [s[0]] else [];
      assert ReplaceAll(first, c, ['\\', c]) == if s[0] in chars + [c] then ['\\', s[0]] else [s[0]] by {
        if s[0] in chars {
          assert first[1..][1..] == [];
        }
      }
    }
  }

  /** Passes equal the simultaneous escape when the backslash, if it is escaped at all, goes first. */
  lemma {:induction false} PassesAreSimultaneous(s: string, chars: seq<char>)
    requires forall i, j :: 0 <= i < j < |chars| ==> chars[i] != chars[j]
    requires forall i :: 0 < i < |chars| ==> chars[i] != '\\'
    ensures Passes(s, chars) == Escape(s, chars)
  {
    if chars == [] {
      EscapeNothing(s);
    } else {
      var n := |chars| - 1;
      PassesAreSimultaneous(s, chars[..n]);
      OneMorePass(s, chars[..n], chars[n]);
      assert chars == chars[..n] + [chars[n]];
    }
  }

  lemma ThirteenPasses(s: string)
    ensures Passes(s, ESCAPED_CHARS) == Escape(s, ESCAPED_CHARS)
  {
    PassesAreSimultaneous(s, ESCAPED_CHARS);
  }

  /** In another order the backslash of an earlier pass would itself be escaped. */
  lemma BackslashMustGoFirst()
    ensures Passes("?", ['?', '\\']) == "\\\\?" != Escape("?", ['?', '\\'])
  {
    assert ['?', '\\'][..1] == ['?'] && ['?'][..0] == [];
    assert ReplaceAll("?", '?', "\\?") == "\\?" by {
      assert "?"[1..] == "";
    }
    assert ReplaceAll("\\?", '\\', "\\\\") == "\\\\?" by {
      assert "\\?"[1..] == "?" && "?"[1..] == "";
      assert ReplaceAll("?", '\\', "\\\\") == "?";
    }
    assert Passes("?", ['?']) == "\\?";
    assert "?"[1..] == "";
  }

  // ----- The regular expressions ---------------------------------------------------------------------------

  /** A literal character, or `.*`. */
  datatype Term = Lit(c: char) | AnyStar

  /** The characters that are no PatternCharacter in section 15.10.1 of ECMA-262. */
  predicate IsSyntax(c: char) {
    || c == '^' || c == '$' || c == '\\' || c == '.' || c == '*' || c == '+' || c == '?'
    || c == '(' || c == ')' || c == '[' || c == ']' || c == '{' || c == '}' || c == '|'
  }

  /** The escaped characters are exactly the syntax characters, but for the star that the glob keeps. */
  lemma EscapedIsSyntax(c: char)
    ensures c in ESCAPED_CHARS <==> IsSyntax(c) && c != '*'
  {
  }

  /** Reads a pattern made of escaped syntax characters, pattern characters and `.*`; None for anything else. */
  function Read(pattern: string): Option<seq<Term>> {
    if pattern == "" then Some([])
    else if pattern[0] == '\\' && |pattern| > 1 && IsSyntax(pattern[1]) then Then(Lit(pattern[1]), Read(pattern[2..]))
    else if pattern[0] == '.' && |pattern| > 1 && pattern[1] == '*' then Then(AnyStar, Read(pattern[2..]))
    else if !IsSyntax(pattern[0]) then Then(Lit(pattern[0]), Read(pattern[1..]))
    else None
  }

  function Then(term: Term, rest: Option<seq<Term>>): Option<seq<Term>> {
    if rest.Some? then Some([term] + rest.value) else None
  }

  /** What a glob stands for, character by character. */
  function Terms(glob: string): seq<Term> {
    if glob == "" then [] else [if glob[0] == '*' then AnyStar else Lit(glob[0])] + Terms(glob[1..])
  }

  lemma {:induction false} TrimLeftEscape(s: string)
    ensures TrimLeft(Escape(s, ESCAPED_CHARS)) == Escape(TrimLeft(s), ESCAPED_CHARS)
  {
    if s != "" && s[0] == '*' {
      assert Escape(s, ESCAPED_CHARS)[1..] == Escape(s[1..], ESCAPED_CHARS);
      TrimLeftEscape(s[1..]);
    }
  }

  lemma {:induction false} TrimRightEscape(s: string)
    ensures TrimRight(Escape(s, ESCAPED_CHARS)) == Escape(TrimRight(s), ESCAPED_CHARS)
  {
    if s != "" {
      var n := |s| - 1;
      var e := Escape(s, ESCAPED_CHARS);
      assert s == s[..n] + [s[n]];
      EscapeConcat(s[..n], [s[n]], ESCAPED_CHARS);
      assert [s[n]][1..] == "";
      assert e[|e| - 1] == s[n];
      if s[n] == '*' {
        assert e[..|e| - 1] == Escape(s[..n], ESCAPED_CHARS);
        TrimRightEscape(s[..n]);
      }
    }
  }

  /** Escaping does not touch stars, so trimming before or after is the same. */
  lemma TrimEscape(s: string)
    ensures Trim(Escape(s, ESCAPED_CHARS)) == Escape(Trim(s), ESCAPED_CHARS)
  {
    TrimLeftEscape(s);
    TrimRightEscape(TrimLeft(s));
  }

  /** The compiled text reads as the terms of the glob. */
  lemma {:induction false} CompiledReads(glob: string)
    ensures Read(ReplaceAll(Escape(glob, ESCAPED_CHARS), '*', ".*")) == Some(Terms(glob))
  {
    if glob != "" {
      var c := glob[0];
      CompiledReads(glob[1..]);
      var first := if c in ESCAPED_CHARS then ['\\', c] else [c];
      ReplaceConcat(first, Escape(glob[1..], ESCAPED_CHARS), '*', ".*");
      var head := if c == '*' then ".*" else first;
      FirstReplaced(c);
      var rest := ReplaceAll(Escape(glob[1..], ESCAPED_CHARS), '*', ".*");
      assert (head + rest)[|head|..] == rest;
      ReadFirst(c, rest);
    }
  }

  lemma FirstReplaced(c: char)
    ensures var first := if c in ESCAPED_CHARS then ['\\', c] else [c];
      ReplaceAll(first, '*', ".*") == if c == '*' then ".*" else first
  {
    assert [c][1..] == [];
    if c in ESCAPED_CHARS {
      assert '*' !in ESCAPED_CHARS;
      assert ReplaceAll([c], '*', ".*") == [c];
      assert ['\\', c][1..] == [c];
    }
  }

  lemma ReadFirst(c: char, rest: string)
    ensures var head := if c == '*' then ".*" else if c in ESCAPED_CHARS then ['\\', c] else [c];
      Read(head + rest) == Then(if c == '*' then AnyStar else Lit(c), Read(rest))
  {
    EscapedIsSyntax(c);
    hide ESCAPED_CHARS;
    var head := if c == '*' then ".*" else if c in ESCAPED_CHARS then ['\\', c] else [c];
    var text := head + rest;
    assert text[|head|..] == rest;
    assert text[0] == head[0];
    if |head| == 2 {
      assert text[1] == head[1];
    }
  }

  lemma {:induction false} TrimmedRight(s: string)
    ensures var t := TrimRight(s); t <= s && (t != "" ==> t[|t| - 1] != '*')
  {
    if s != "" && s[|s| - 1] == '*' {
      TrimmedRight(s[..|s| - 1]);
    }
  }

  lemma {:induction false} TrimmedLeft(s: string)
    ensures TrimLeft(s) != "" ==> TrimLeft(s)[0] != '*'
  {
    if s != "" && s[0] == '*' {
      TrimmedLeft(s[1..]);
    }
  }

  /** Every glob compiles to a pattern of the fragment, with the terms of the trimmed glob; no star is at either end of it. */
  lemma CompilesToTerms(str: string)
    ensures Read(Compiled(str)) == Some(Terms(Trim(str)))
    ensures Trim(str) != "" ==> Trim(str)[0] != '*' && Trim(str)[|Trim(str)| - 1] != '*'
  {
    TrimmedLeft(str);
    TrimmedRight(TrimLeft(str));
    ThirteenPasses(str);
    TrimEscape(str);
    CompiledReads(Trim(str));
  }

  // ----- Searching -------------------------------------------------------------------------------------------

  /** Section 7.3 of ECMA-262: a dot matches none of these. */
  predicate IsLineTerminator(c: char) {
    c == '\n' || c == '\r' || c == '\U{2028}' || c == '\U{2029}'
  }

  ghost predicate OnOneLine(s: string, i: nat, j: nat)
    requires i <= j <= |s|
  {
    forall k :: i <= k < j ==> !IsLineTerminator(s[k])
  }

  /** The terms match from position i; characters are compared after folding. */
  ghost predicate MatchAt(fold: char -> char, terms: seq<Term>, s: string, i: nat) {
    && i <= |s|
    && if terms == [] then true else
       match terms[0]
       case Lit(c) => i < |s| && fold(s[i]) == fold(c) && MatchAt(fold, terms[1..], s, i + 1)
       case AnyStar => exists j :: i <= j <= |s| && OnOneLine(s, i, j) && MatchAt(fold, terms[1..], s, j)
  }

  /** `std::regex_search` for a compiled glob; None when the pattern is not one. */
  ghost function Search(fold: char -> char, pattern: string, s: string): Option<bool> {
    var terms := Read(pattern);
    if terms.None? then None else Some(exists i :: MatchAt(fold, terms.value, s, i))
  }

  // ----- What a glob means ---------------------------------------------------------------------------------------

  /** The texts between stars, empty ones included. */
  function Split(glob: string): (parts: seq<string>)
    ensures parts != []
  {
    if glob == "" then [""] else
    var rest := Split(glob[1..]);
    if glob[0] == '*' then [""] + rest else [[glob[0]] + rest[0]] + rest[1..]
  }

  function NonEmpty(parts: seq<string>): seq<string> {
    if parts == [] then [] else (if parts[0] == "" then [] else [parts[0]]) + NonEmpty(parts[1..])
  }

  /** The pieces of a glob. */
  function Pieces(glob: string): seq<string> {
    NonEmpty(Split(glob))
  }

  ghost predicate OccursAt(fold: char -> char, piece: string, s: string, k: nat) {
    k + |piece| <= |s| && forall j :: 0 <= j < |piece| ==> fold(s[k + j]) == fold(piece[j])
  }

  /** The pieces occur in order without overlap from a position on, with no line terminator in the gaps. */
  ghost predicate InOrder(fold: char -> char, pieces: seq<string>, s: string, from: nat)
    decreases |pieces|, 1
  {
    && from <= |s|
    && (pieces == [] || exists k :: from <= k <= |s| && OnOneLine(s, from, k) && StartAt(fold, pieces, s, k))
  }

  /** The first piece occurs at a position, and the others follow it in order. */
  ghost predicate StartAt(fold: char -> char, pieces: seq<string>, s: string, k: nat)
    requires pieces != []
    decreases |pieces|, 0
  {
    OccursAt(fold, pieces[0], s, k) && InOrder(fold, pieces[1..], s, k + |pieces[0]|)
  }

  /** The first piece occurs anywhere, and the others follow it in order. */
  ghost predicate GlobMatches(fold: char -> char, pieces: seq<string>, s: string) {
    pieces == [] || exists k :: StartAt(fold, pieces, s, k)
  }

  lemma OccursCons(fold: char -> char, c: char, piece: string, s: string, i: nat)
    ensures OccursAt(fold, [c] + piece, s, i) <==> i < |s| && fold(s[i]) == fold(c) && OccursAt(fold, piece, s, i + 1)
  {
    if OccursAt(fold, [c] + piece, s, i) {
      assert ([c] + piece)[0] == c;
      forall j | 0 <= j < |piece| ensures fold(s[i + 1 + j]) == fold(piece[j]) {
        assert ([c] + piece)[j + 1] == piece[j];
      }
    }
  }

  /** Matching the terms of a glob is finding its parts one after the other. */
  lemma {:induction false} MatchIsChain(fold: char -> char, glob: string, s: string, i: nat)
    ensures MatchAt(fold, Terms(glob), s, i) <==> StartAt(fold, Split(glob), s, i)
    decreases |glob|, 0
  {
    if glob == "" {
      EmptyChain(fold, s, i);
    } else if glob[0] == '*' {
      StarIsGap(fold, glob[1..], s, i);
      StarChain(fold, glob, s, i);
    } else {
      MatchIsChain(fold, glob[1..], s, i + 1);
      LiteralChain(fold, glob, s, i);
    }
  }

  lemma EmptyChain(fold: char -> char, s: string, i: nat)
    ensures MatchAt(fold, Terms(""), s, i) <==> StartAt(fold, Split(""), s, i)
  {
  }

  lemma StarChain(fold: char -> char, glob: string, s: string, i: nat)
    requires glob != "" && glob[0] == '*'
    ensures MatchAt(fold, Terms(glob), s, i) <==>
      i <= |s| && exists j :: i <= j <= |s| && OnOneLine(s, i, j) && MatchAt(fold, Terms(glob[1..]), s, j)
    ensures StartAt(fold, Split(glob), s, i) <==> InOrder(fold, Split(glob[1..]), s, i)
  {
    hide OnOneLine, Split, StartAt, InOrder;
    assert Terms(glob)[1..] == Terms(glob[1..]) && Terms(glob)[0] == AnyStar;
    SplitStar(glob);
    EmptyStart(fold, Split(glob), s, i);
  }

  /** An empty first part is found anywhere. */
  lemma EmptyStart(fold: char -> char, parts: seq<string>, s: string, i: nat)
    requires parts != [] && parts[0] == ""
    ensures StartAt(fold, parts, s, i) <==> InOrder(fold, parts[1..], s, i)
  {
    hide OnOneLine;
    assert InOrder(fold, parts[1..], s, i) ==> i <= |s|;
    assert OccursAt(fold, "", s, i) <==> i <= |s|;
    hide InOrder;
  }

  lemma SplitStar(glob: string)
    requires glob != "" && glob[0] == '*'
    ensures Split(glob)[0] == "" && Split(glob)[1..] == Split(glob[1..])
  {
  }

  lemma LiteralChain(fold: char -> char, glob: string, s: string, i: nat)
    requires glob != "" && glob[0] != '*'
    requires MatchAt(fold, Terms(glob[1..]), s, i + 1) <==> StartAt(fold, Split(glob[1..]), s, i + 1)
    ensures MatchAt(fold, Terms(glob), s, i) <==> StartAt(fold, Split(glob), s, i)
  {
    var rest := Split(glob[1..]);
    assert Terms(glob)[1..] == Terms(glob[1..]) && Terms(glob)[0] == Lit(glob[0]);
    OccursCons(fold, glob[0], rest[0], s, i);
    assert Split(glob)[0] == [glob[0]] + rest[0] && Split(glob)[1..] == rest[1..];
    hide OccursAt, InOrder, Split;
  }

  lemma StarIsGap(fold: char -> char, glob: string, s: string, i: nat)
    ensures (i <= |s| && exists j :: i <= j <= |s| && OnOneLine(s, i, j) && MatchAt(fold, Terms(glob), s, j)) <==>
            InOrder(fold, Split(glob), s, i)
    decreases |glob|, 1
  {
    hide MatchAt, Terms, Split, OnOneLine, StartAt;
    forall j: nat ensures MatchAt(fold, Terms(glob), s, j) <==> StartAt(fold, Split(glob), s, j) {
      MatchIsChain(fold, glob, s, j);
    }
  }

  /** A gap before a gap is a gap. */
  lemma LongerGap(fold: char -> char, pieces: seq<string>, s: string, from: nat, k: nat)
    requires pieces != [] && from <= k <= |s| && OnOneLine(s, from, k) && InOrder(fold, pieces, s, k)
    ensures InOrder(fold, pieces, s, from)
  {
    var j :| k <= j <= |s| && OnOneLine(s, k, j) && StartAt(fold, pieces, s, j);
    assert OnOneLine(s, from, j);
  }

  /** Empty parts do not matter. */
  lemma {:induction false} EmptyParts(fold: char -> char, parts: seq<string>, s: string, from: nat)
    ensures InOrder(fold, parts, s, from) <==> InOrder(fold, NonEmpty(parts), s, from)
    decreases |parts|
  {
    if parts != [] && from <= |s| {
      if parts[0] == "" {
        EmptyFirst(fold, parts, s, from);
        EmptyParts(fold, parts[1..], s, from);
        assert NonEmpty(parts) == NonEmpty(parts[1..]);
      } else {
        assert NonEmpty(parts)[0] == parts[0] && NonEmpty(parts)[1..] == NonEmpty(parts[1..]);
        forall k: nat ensures StartAt(fold, parts, s, k) <==> StartAt(fold, NonEmpty(parts), s, k) {
          EmptyParts(fold, parts[1..], s, k + |parts[0]|);
        }
      }
    }
  }

  lemma EmptyFirst(fold: char -> char, parts: seq<string>, s: string, from: nat)
    requires parts != [] && parts[0] == "" && from <= |s|
    ensures InOrder(fold, parts, s, from) <==> InOrder(fold, parts[1..], s, from)
  {
    if InOrder(fold, parts, s, from) {
      var k :| from <= k <= |s| && OnOneLine(s, from, k) && StartAt(fold, parts, s, k);
      if parts[1..] != [] {
        LongerGap(fold, parts[1..], s, from, k);
      }
    }
    if InOrder(fold, parts[1..], s, from) {
      assert OnOneLine(s, from, from) && StartAt(fold, parts, s, from);
    }
  }

  lemma {:induction false} TrimLeftPieces(glob: string)
    ensures Pieces(TrimLeft(glob)) == Pieces(glob)
    ensures TrimLeft(glob) != "" ==> TrimLeft(glob)[0] != '*'
  {
    if glob != "" && glob[0] == '*' {
      TrimLeftPieces(glob[1..]);
      assert Split(glob)[1..] == Split(glob[1..]);
    }
  }

  lemma {:induction false} SplitTrailingStar(glob: string)
    ensures Split(glob + "*") == Split(glob) + [""]
  {
    if glob == "" {
      assert glob + "*" == "*" && "*"[1..] == "";
    } else {
      assert (glob + "*")[1..] == glob[1..] + "*";
      SplitTrailingStar(glob[1..]);
    }
  }

  lemma {:induction false} NonEmptyTrailing(parts: seq<string>)
    ensures NonEmpty(parts + [""]) == NonEmpty(parts)
  {
    if parts == [] {
      assert parts + [""] == [""];
    } else {
      assert (parts + [""])[1..] == parts[1..] + [""];
      NonEmptyTrailing(parts[1..]);
    }
  }

  lemma {:induction false} TrimRightPieces(glob: string)
    ensures Pieces(TrimRight(glob)) == Pieces(glob)
    ensures TrimRight(glob) != "" ==> TrimRight(glob)[0] == glob[0]
    ensures |TrimRight(glob)| <= |glob|
  {
    if glob != "" && glob[|glob| - 1] == '*' {
      var init := glob[..|glob| - 1];
      TrimRightPieces(init);
      assert glob == init + "*";
      SplitTrailingStar(init);
      NonEmptyTrailing(Split(init));
    }
  }

  /** A glob that does not begin with a star begins with its first piece. */
  lemma FirstPiece(glob: string)
    requires glob != "" && glob[0] != '*'
    ensures Split(glob)[0] != "" && Pieces(glob) == [Split(glob)[0]] + NonEmpty(Split(glob)[1..])
  {
  }

  /**
   A compiled glob always is a well-formed pattern, and searching for it succeeds
   if and only if the pieces between the stars occur in order without overlap,
   with no line terminator between them.
   */
  lemma GlobSearch(fold: char -> char, str: string, s: string)
    ensures Search(fold, Compiled(str), s) == Some(GlobMatches(fold, Pieces(str), s))
  {
    CompilesToTerms(str);
    var glob := Trim(str);
    TrimLeftPieces(str);
    TrimRightPieces(TrimLeft(str));
    assert glob == TrimRight(TrimLeft(str)) && (glob != "" ==> glob[0] != '*');
    hide Compiled, Read, Trim, TrimLeft, TrimRight;
    if glob == "" {
      EmptyGlob(fold, s);
    } else {
      hide MatchAt, Terms, Split, NonEmpty, StartAt;
      forall i: nat ensures MatchAt(fold, Terms(glob), s, i) <==> StartAt(fold, Pieces(glob), s, i) {
        MatchIsPieces(fold, glob, s, i);
      }
      FirstPiece(glob);
    }
  }

  lemma EmptyGlob(fold: char -> char, s: string)
    ensures MatchAt(fold, Terms(""), s, 0) && Pieces("") == []
  {
    assert NonEmpty([""]) == [];
  }

  lemma MatchIsPieces(fold: char -> char, glob: string, s: string, i: nat)
    requires glob != "" && glob[0] != '*'
    ensures Pieces(glob) != []
    ensures MatchAt(fold, Terms(glob), s, i) <==> StartAt(fold, Pieces(glob), s, i)
  {
    FirstPiece(glob);
    var parts := Split(glob);
    MatchIsChain(fold, glob, s, i);
    EmptyParts(fold, parts[1..], s, i + |parts[0]|);
    assert Pieces(glob)[0] == parts[0] && Pieces(glob)[1..] == NonEmpty(parts[1..]);
  }
}
