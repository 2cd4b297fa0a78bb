/**
 CppCoverage/BranchSiteEnumerator.cpp: which conditional branches belong to
 which source line.  The disassembler is a parameter.
 */
module SiteEnumerators {
  import opened Common
  import opened Memory
  import opened Debuggees

  const LAST_LINE_CAP: nat := 32
  const MAX_LINE_RANGE: nat := 4096
  const RETRY_WINDOW: nat := 32

  datatype LineRecord = LineRecord(rva: nat, lineNumber: nat, symbolIndex: nat, length: nat)

  datatype DetectedSite = DetectedSite(address: nat, takenTarget: nat, fallThrough: nat)

  datatype ConditionSite =
    ConditionSite(siteAddress: nat, takenTarget: nat, fallThrough: nat, lineNumber: nat, conditionIndex: nat)

  type Detector = (nat, seq<Byte>) -> seq<DetectedSite>

  // ----- Records: sort and deduplicate ------------------------------------------

  ghost predicate SortedByRva(s: seq<LineRecord>) {
    forall i, j :: 0 <= i < j < |s| ==> s[i].rva <= s[j].rva
  }

  ghost predicate StrictByRva(s: seq<LineRecord>) {
    forall i, j :: 0 <= i < j < |s| ==> s[i].rva < s[j].rva
  }

  function InsertByRva(record: LineRecord, s: seq<LineRecord>): (r: seq<LineRecord>)
    ensures multiset(r) == multiset(s) + multiset{record}
  {
    if s == [] || record.rva <= s[0].rva then
      [record] + s
    else
      assert s == [s[0]] + s[1..];
      [s[0]] + InsertByRva(record, s[1..])
  }

  lemma {:induction false} InsertByRvaSorted(record: LineRecord, s: seq<LineRecord>)
    requires SortedByRva(s)
    ensures SortedByRva(InsertByRva(record, s))
  {
    if s != [] && record.rva > s[0].rva {
      InsertByRvaSorted(record, s[1..]);
      var t := InsertByRva(record, s[1..]);
      forall i | 0 <= i < |t| ensures s[0].rva <= t[i].rva {
        assert t[i] in multiset(t);
        assert t[i] == record || t[i] in s[1..];
      }
    }
  }

  /** `std::sort` by RVA: not stable, so callers only learn that the result is a sorted permutation. */
  method SortRecords(records: seq<LineRecord>) returns (sorted: seq<LineRecord>)
    ensures SortedByRva(sorted) && multiset(sorted) == multiset(records)
  {
    sorted := [];
    for n := 0 to |records|
      invariant SortedByRva(sorted) && multiset(sorted) == multiset(records[..n])
    {
      InsertByRvaSorted(records[n], sorted);
      sorted := InsertByRva(records[n], sorted);
      assert records[..n + 1] == records[..n] + [records[n]];
    }
    assert records[..|records|] == records;
  }

  /** `l` is the line number that deduplication keeps for an RVA: the lowest one. */
  ghost predicate LowestLine(records: seq<LineRecord>, rva: nat, l: nat) {
    && (exists r :: r in records && r.rva == rva && r.lineNumber == l)
    && (forall r :: r in records && r.rva == rva ==> l <= r.lineNumber)
  }

  ghost predicate HasRva(d: seq<LineRecord>, rva: nat) {
    exists r :: r in d && r.rva == rva
  }

  /** The symbol and the length of a kept record are those of some record with its RVA. */
  ghost predicate HasOrigin(records: seq<LineRecord>, e: LineRecord) {
    exists r :: r in records && r.rva == e.rva && r.symbolIndex == e.symbolIndex && r.length == e.length
  }

  /** One record per RVA, in RVA order, with the lowest line number. */
  ghost predicate Deduplicated(records: seq<LineRecord>, d: seq<LineRecord>) {
    && StrictByRva(d)
    && (forall r :: r in records ==> HasRva(d, r.rva))
    && (forall e :: e in d ==> LowestLine(records, e.rva, e.lineNumber) && HasOrigin(records, e))
  }

  lemma DeduplicatedPermutation(a: seq<LineRecord>, b: seq<LineRecord>, d: seq<LineRecord>)
    requires multiset(a) == multiset(b) && Deduplicated(a, d)
    ensures Deduplicated(b, d)
  {
    forall r ensures r in a <==> r in b {
      assert r in a <==> r in multiset(a);
      assert r in b <==> r in multiset(b);
    }
    forall e | e in d ensures LowestLine(b, e.rva, e.lineNumber) && HasOrigin(b, e) {
      assert LowestLine(a, e.rva, e.lineNumber) && HasOrigin(a, e);
    }
  }

  function Lower(e: LineRecord, line: nat): LineRecord {
    if line < e.lineNumber then e.(lineNumber := line) else e
  }

  /** A record with the RVA of the last kept one can only lower its line number. */
  lemma DeduplicateSame(done: seq<LineRecord>, record: LineRecord, init: seq<LineRecord>, last: LineRecord)
    requires Deduplicated(done, init + [last]) && last.rva == record.rva
    ensures Deduplicated(done + [record], init + [Lower(last, record.lineNumber)])
  {
    var all, d, lowered := done + [record], init + [last], Lower(last, record.lineNumber);
    var d' := init + [lowered];
    assert forall r :: r in all <==> r in done || r == record;
    assert (forall e :: e in d' <==> e in init || e == lowered) && (forall e :: e in d <==> e in init || e == last);
    assert StrictByRva(d') by {
      assert forall k :: 0 <= k < |d| ==> d'[k].rva == d[k].rva;
    }
    forall r | r in all ensures HasRva(d', r.rva) {
      assert HasRva(d, r.rva);
      var e :| e in d && e.rva == r.rva;
      assert (if e == last then lowered else e) in d';
    }
    forall e | e in init ensures e.rva != record.rva {
      var k :| 0 <= k < |init| && init[k] == e;
      assert d[k] == e && d[|init|] == last;
    }
    DeduplicateKeeps(done, record, d, d', last, lowered);
  }

  lemma DeduplicateKeeps(done: seq<LineRecord>, record: LineRecord, d: seq<LineRecord>, d': seq<LineRecord>,
                         last: LineRecord, lowered: LineRecord)
    requires forall e :: e in d ==> LowestLine(done, e.rva, e.lineNumber) && HasOrigin(done, e)
    requires last in d && last.rva == record.rva && lowered == Lower(last, record.lineNumber)
    requires forall e :: e in d' ==> e == lowered || (e in d && e.rva != record.rva)
    ensures forall e :: e in d' ==> LowestLine(done + [record], e.rva, e.lineNumber) && HasOrigin(done + [record], e)
  {
    assert forall r :: r in done + [record] <==> r in done || r == record;
    assert LowestLine(done, last.rva, last.lineNumber) && HasOrigin(done, last);
    forall e | e in d' ensures LowestLine(done + [record], e.rva, e.lineNumber) && HasOrigin(done + [record], e) {
      if e != lowered {
        assert LowestLine(done, e.rva, e.lineNumber) && HasOrigin(done, e);
      }
    }
  }

  /** A record with a larger RVA is kept. */
  lemma DeduplicateNew(done: seq<LineRecord>, record: LineRecord, d: seq<LineRecord>)
    requires Deduplicated(done, d)
    requires forall r :: r in done ==> r.rva < record.rva
    ensures Deduplicated(done + [record], d + [record])
  {
    var all, d' := done + [record], d + [record];
    assert forall r :: r in all <==> r in done || r == record;
    assert forall e :: e in d' <==> e in d || e == record;
    forall r | r in all ensures HasRva(d', r.rva) {
      if r in done {
        assert HasRva(d, r.rva);
      }
    }
    forall e | e in d' ensures LowestLine(all, e.rva, e.lineNumber) && HasOrigin(all, e) {
      if e in d {
        assert LowestLine(done, e.rva, e.lineNumber) && HasOrigin(done, e);
      }
    }
    forall k | 0 <= k < |d| ensures d[k].rva < record.rva {
      assert d[k] in d && LowestLine(done, d[k].rva, d[k].lineNumber);
    }
  }

  /** Without the RVA of the next record at its end, the kept list stays below that RVA. */
  lemma DeduplicateBelow(done: seq<LineRecord>, record: LineRecord, d: seq<LineRecord>)
    requires Deduplicated(done, d)
    requires forall r :: r in done ==> r.rva <= record.rva
    requires d == [] || d[|d| - 1].rva != record.rva
    ensures forall r :: r in done ==> r.rva < record.rva
  {
    if d != [] {
      var last := d[|d| - 1];
      assert last in d && LowestLine(done, last.rva, last.lineNumber);
      assert forall e :: e in d ==> e.rva <= last.rva;
    }
    forall r | r in done ensures r.rva < record.rva {
      assert HasRva(d, r.rva);
    }
  }

  /** The body of the deduplication loop. */
  method DeduplicateNext(ghost done: seq<LineRecord>, record: LineRecord, before: seq<LineRecord>)
    returns (deduped: seq<LineRecord>)
    requires Deduplicated(done, before) && forall r :: r in done ==> r.rva <= record.rva
    ensures Deduplicated(done + [record], deduped)
  {
    hide Deduplicated;
    deduped := before;
    if deduped != [] && deduped[|deduped| - 1].rva == record.rva {
      var back := deduped[|deduped| - 1];
      assert deduped == deduped[..|deduped| - 1] + [back];
      DeduplicateSame(done, record, deduped[..|deduped| - 1], back);
      if record.lineNumber < back.lineNumber {
        deduped := deduped[|deduped| - 1 := back.(lineNumber := record.lineNumber)];
        assert deduped == before[..|before| - 1] + [Lower(back, record.lineNumber)];
      }
      return;
    }
    DeduplicateBelow(done, record, deduped);
    DeduplicateNew(done, record, deduped);
    deduped := deduped + [record];
  }

  method Deduplicate(records: seq<LineRecord>) returns (deduped: seq<LineRecord>)
    requires SortedByRva(records)
    ensures Deduplicated(records, deduped)
  {
    deduped := [];
    for n := 0 to |records|
      invariant Deduplicated(records[..n], deduped)
    {
      hide Deduplicated, SortedByRva;
      SortedPrefix(records, n);
      deduped := DeduplicateNext(records[..n], records[n], deduped);
      assert records[..n + 1] == records[..n] + [records[n]];
    }
    assert records[..|records|] == records;
  }

  lemma SortedPrefix(records: seq<LineRecord>, n: nat)
    requires SortedByRva(records) && n < |records|
    ensures forall r :: r in records[..n] ==> r.rva <= records[n].rva
  {
  }

  // ----- Ranges ------------------------------------------------------------------

  /** The next record, from j on, of the same symbol as record i; |d| when there is none. */
  function NextOfSymbol(d: seq<LineRecord>, i: nat, j: nat): (k: nat)
    requires i < j <= |d|
    ensures j <= k <= |d|
    decreases |d| - j
  {
    if j == |d| || d[j].symbolIndex == d[i].symbolIndex then j else NextOfSymbol(d, i, j + 1)
  }

  function Min(a: nat, b: nat): nat {
    if a <= b then a else b
  }

  /** The end of the byte range of record i, with 64-bit wrap-around. */
  function RangeEnd(d: seq<LineRecord>, i: nat): nat
    requires i < |d|
  {
    var begin := d[i].rva;
    if d[i].length > 0 then (begin + d[i].length) % UINT64 else
    var k := NextOfSymbol(d, i, i + 1);
    if k < |d| then Min(d[k].rva, (begin + MAX_LINE_RANGE) % UINT64) else (begin + LAST_LINE_CAP) % UINT64
  }

  /** The ranges of the first n records, without the empty or reversed ones. */
  function Ranges(d: seq<LineRecord>, n: nat): seq<(nat, nat)>
    requires n <= |d|
  {
    if n == 0 then []
    else Ranges(d, n - 1) + if RangeEnd(d, n - 1) <= d[n - 1].rva then [] else [(d[n - 1].rva, RangeEnd(d, n - 1))]
  }

  // ----- What the ranges are ----------------------------------------------------------------------------------

  /** Widths of the source: RVAs are 64-bit, block lengths 32-bit. */
  ghost predicate RecordWidths(d: seq<LineRecord>) {
    forall i :: 0 <= i < |d| ==> d[i].rva < 0x1_0000_0000_0000_0000 && d[i].length < 0x1_0000_0000
  }

  /** Record k is the first one behind record i that has its symbol. */
  ghost predicate FollowsInSymbol(d: seq<LineRecord>, i: nat, k: nat) {
    && i < k < |d| && d[k].symbolIndex == d[i].symbolIndex
    && forall j :: i < j < k ==> d[j].symbolIndex != d[i].symbolIndex
  }

  ghost predicate IsLastOfSymbol(d: seq<LineRecord>, i: nat)
    requires i < |d|
  {
    forall j :: i < j < |d| ==> d[j].symbolIndex != d[i].symbolIndex
  }

  /**
   Where the block of record i ends: after its length when it has one; otherwise
   at the next record of its symbol, but at most 4096 bytes on, or 32 bytes on
   when it is the last record of its symbol.
   */
  ghost predicate BlockEnds(d: seq<LineRecord>, i: nat, end: nat)
    requires i < |d|
  {
    if d[i].length > 0 then end == d[i].rva + d[i].length
    else if IsLastOfSymbol(d, i) then end == d[i].rva + 32
    else
      && (exists k: nat :: FollowsInSymbol(d, i, k) && (end == d[k].rva || (end == d[i].rva + 4096 && end <= d[k].rva)))
      && end <= d[i].rva + 4096
  }

  /** The block of record i, before the next record cuts it off, reaches the end of the 64-bit addresses. */
  ghost predicate Wraps(d: seq<LineRecord>, i: nat)
    requires i < |d|
  {
    d[i].rva + (if d[i].length > 0 then d[i].length else if IsLastOfSymbol(d, i) then 32 else 4096)
      >= 0x1_0000_0000_0000_0000
  }

  ghost predicate NoneWraps(d: seq<LineRecord>) {
    forall i :: 0 <= i < |d| ==> !Wraps(d, i)
  }

  lemma {:induction false} NextIsFirst(d: seq<LineRecord>, i: nat, j: nat)
    requires i < j <= |d| && forall m :: i < m < j ==> d[m].symbolIndex != d[i].symbolIndex
    ensures var k := NextOfSymbol(d, i, j);
      if k < |d| then FollowsInSymbol(d, i, k) && !IsLastOfSymbol(d, i) else IsLastOfSymbol(d, i)
    decreases |d| - j
  {
    if j < |d| && d[j].symbolIndex != d[i].symbolIndex {
      NextIsFirst(d, i, j + 1);
    }
  }

  /** The skip of an empty range fires exactly when its block wraps around the address space. */
  lemma SkippedIffWraps(d: seq<LineRecord>, i: nat)
    requires StrictByRva(d) && RecordWidths(d) && i < |d|
    ensures RangeEnd(d, i) <= d[i].rva <==> Wraps(d, i)
    ensures !Wraps(d, i) ==> BlockEnds(d, i, RangeEnd(d, i))
  {
    NextIsFirst(d, i, i + 1);
  }

  /** A block without a length ends before the next record of its symbol, so such blocks do not overlap. */
  lemma BlocksApart(d: seq<LineRecord>, i: nat, j: nat, end: nat)
    requires StrictByRva(d) && i < j < |d| && d[i].symbolIndex == d[j].symbolIndex && d[i].length == 0
    requires BlockEnds(d, i, end)
    ensures end <= d[j].rva
  {
    var k: nat :| FollowsInSymbol(d, i, k) && (end == d[k].rva || (end == d[i].rva + 4096 && end <= d[k].rva));
    assert k <= j;
  }

  /** The ranges are the blocks of the records, one for each. */
  ghost predicate AreBlocks(d: seq<LineRecord>, ranges: seq<(nat, nat)>) {
    |ranges| == |d| && forall i :: 0 <= i < |d| ==> ranges[i].0 == d[i].rva && BlockEnds(d, i, ranges[i].1)
  }

  /** Range i belongs to record i, for every i, exactly when no range wraps. */
  lemma {:induction false} RangesAligned(d: seq<LineRecord>, n: nat)
    requires StrictByRva(d) && RecordWidths(d) && n <= |d|
    ensures |Ranges(d, n)| <= n
    ensures |Ranges(d, n)| == n <==> forall i :: 0 <= i < n ==> !Wraps(d, i)
    ensures |Ranges(d, n)| == n ==> forall i :: 0 <= i < n ==>
      Ranges(d, n)[i] == (d[i].rva, RangeEnd(d, i)) && BlockEnds(d, i, RangeEnd(d, i))
  {
    if n > 0 {
      hide RangeEnd, Wraps, BlockEnds;
      RangesAligned(d, n - 1);
      SkippedIffWraps(d, n - 1);
    }
  }

  lemma RangesAreBlocks(d: seq<LineRecord>)
    requires StrictByRva(d) && RecordWidths(d)
    ensures NoneWraps(d) <==> AreBlocks(d, Ranges(d, |d|))
  {
    hide RangeEnd, Wraps, BlockEnds, Ranges;
    RangesAligned(d, |d|);
  }

  // ----- Decoding and attribution ---------------------------------------------------

  /** What is decoded for one range: all of it, its first 32 bytes, or nothing when unreadable. */
  ghost function Decoded(memory: map<Handle, Mem>, process: Handle, base: nat, range: (nat, nat), detect: Detector)
    : seq<DetectedSite>
    requires range.0 < range.1
  {
    var start := (base + range.0) % UINT64;
    var size := range.1 - range.0;
    if process !in memory then []
    else if Mapped(memory[process], start, size) then detect(start, Read(memory[process], start, size))
    else if Mapped(memory[process], start, Min(size, RETRY_WINDOW)) then
      detect(start, Read(memory[process], start, Min(size, RETRY_WINDOW)))
    else []
  }

  lemma {:induction false} RangesNonempty(d: seq<LineRecord>, n: nat)
    requires n <= |d|
    ensures |Ranges(d, n)| <= n
    ensures forall i :: 0 <= i < |Ranges(d, n)| ==> Ranges(d, n)[i].0 < Ranges(d, n)[i].1
  {
    if n > 0 {
      RangesNonempty(d, n - 1);
    }
  }

  ghost predicate HasAddress(sites: seq<ConditionSite>, a: nat) {
    exists s :: s in sites && s.siteAddress == a
  }

  function CountLine(sites: seq<ConditionSite>, line: nat): nat {
    if sites == [] then 0
    else CountLine(sites[..|sites| - 1], line) + if sites[|sites| - 1].lineNumber == line then 1 else 0
  }

  /** Adds a decoded site to the output, unless an earlier range already has its address. */
  ghost function AttributeSite(sites: seq<ConditionSite>, line: nat, site: DetectedSite): seq<ConditionSite> {
    if HasAddress(sites, site.address) then sites
    else sites + [ConditionSite(site.address, site.takenTarget, site.fallThrough, line, CountLine(sites, line))]
  }

  ghost function AttributeRange(sites: seq<ConditionSite>, line: nat, detected: seq<DetectedSite>): seq<ConditionSite> {
    if detected == [] then sites
    else AttributeSite(AttributeRange(sites, line, detected[..|detected| - 1]), line, detected[|detected| - 1])
  }

  /** Attributes the decoded sites of all ranges: range i belongs to line lines[i]. */
  ghost function Attribute(lines: seq<nat>, decoded: seq<seq<DetectedSite>>): seq<ConditionSite>
    requires |lines| == |decoded|
  {
    if lines == [] then []
    else
      var n := |lines| - 1;
      AttributeRange(Attribute(lines[..n], decoded[..n]), lines[n], decoded[n])
  }

  ghost predicate Decodes(detected: seq<DetectedSite>, a: nat) {
    exists s :: s in detected && s.address == a
  }

  ghost predicate UniqueAddresses(sites: seq<ConditionSite>) {
    forall i, j :: 0 <= i < j < |sites| ==> sites[i].siteAddress != sites[j].siteAddress
  }

  /** The condition index of an output site is the number of earlier output sites of its line. */
  ghost predicate NumberedInOrder(sites: seq<ConditionSite>) {
    forall k :: 0 <= k < |sites| ==> sites[k].conditionIndex == CountLine(sites[..k], sites[k].lineNumber)
  }

  /** A site with a new address is added with the number of earlier sites of its line; any other changes nothing. */
  lemma NextSite(sites: seq<ConditionSite>, line: nat, site: DetectedSite)
    ensures var r := AttributeSite(sites, line, site);
      if HasAddress(sites, site.address) then r == sites
      else
        && |r| == |sites| + 1 && r[..|sites|] == sites
        && r[|sites|].siteAddress == site.address && r[|sites|].lineNumber == line
        && r[|sites|].conditionIndex == CountLine(sites, line)
  {
  }

  lemma NumberedSnoc(sites: seq<ConditionSite>, s: ConditionSite)
    requires UniqueAddresses(sites) && NumberedInOrder(sites)
    requires !HasAddress(sites, s.siteAddress) && s.conditionIndex == CountLine(sites, s.lineNumber)
    ensures UniqueAddresses(sites + [s]) && NumberedInOrder(sites + [s])
  {
    hide CountLine;
    var r := sites + [s];
    forall k | 0 <= k < |r| ensures r[k].conditionIndex == CountLine(r[..k], r[k].lineNumber) {
      assert r[..k] == sites[..k];
      assert k == |sites| ==> sites[..k] == sites;
    }
    assert forall i :: 0 <= i < |sites| ==> sites[i] in sites;
  }

  lemma AttributeSiteNumbered(sites: seq<ConditionSite>, line: nat, site: DetectedSite)
    requires UniqueAddresses(sites) && NumberedInOrder(sites)
    ensures var r := AttributeSite(sites, line, site); UniqueAddresses(r) && NumberedInOrder(r)
  {
    NextSite(sites, line, site);
    hide AttributeSite, UniqueAddresses, NumberedInOrder, CountLine, HasAddress;
    var r := AttributeSite(sites, line, site);
    if !HasAddress(sites, site.address) {
      NumberedSnoc(sites, r[|sites|]);
      assert r == r[..|sites|] + [r[|sites|]];
    }
  }

  lemma {:induction false} AttributeRangeNumbered(sites: seq<ConditionSite>, line: nat, detected: seq<DetectedSite>)
    requires UniqueAddresses(sites) && NumberedInOrder(sites)
    ensures var r := AttributeRange(sites, line, detected); UniqueAddresses(r) && NumberedInOrder(r)
  {
    if detected != [] {
      var n := |detected| - 1;
      AttributeRangeNumbered(sites, line, detected[..n]);
      AttributeSiteNumbered(AttributeRange(sites, line, detected[..n]), line, detected[n]);
    }
  }

  /** Output addresses are unique, and the indices of every line count 0, 1, 2, ... in output order. */
  lemma {:induction false} AttributeNumbered(lines: seq<nat>, decoded: seq<seq<DetectedSite>>)
    requires |lines| == |decoded|
    ensures UniqueAddresses(Attribute(lines, decoded)) && NumberedInOrder(Attribute(lines, decoded))
  {
    if lines != [] {
      var n := |lines| - 1;
      AttributeNumbered(lines[..n], decoded[..n]);
      AttributeRangeNumbered(Attribute(lines[..n], decoded[..n]), lines[n], decoded[n]);
    }
  }

  /** The indices of one line, read off the output, are exactly 0 .. k-1. */
  /** No two sites of a line have the same index. */
  lemma DistinctIndices(sites: seq<ConditionSite>, i: nat, j: nat)
    requires NumberedInOrder(sites) && i < j < |sites| && sites[i].lineNumber == sites[j].lineNumber
    ensures sites[i].conditionIndex < sites[j].conditionIndex
  {
    var line := sites[i].lineNumber;
    assert sites[..i + 1][..i] == sites[..i];
    CountGrows(sites, i + 1, j, line);
  }

  lemma {:induction false} CountGrows(sites: seq<ConditionSite>, m: nat, n: nat, line: nat)
    requires m <= n <= |sites|
    ensures CountLine(sites[..m], line) <= CountLine(sites[..n], line)
  {
    if m < n {
      assert sites[..n][..n - 1] == sites[..n - 1];
      CountGrows(sites, m, n - 1, line);
    }
  }

  lemma {:induction false} LineIndices(sites: seq<ConditionSite>, line: nat, i: nat)
    requires NumberedInOrder(sites)
    ensures (exists s :: s in sites && s.lineNumber == line && s.conditionIndex == i) <==> i < CountLine(sites, line)
  {
    if sites != [] {
      var n := |sites| - 1;
      var init := sites[..n];
      forall k | 0 <= k < n ensures init[k].conditionIndex == CountLine(init[..k], init[k].lineNumber) {
        assert init[..k] == sites[..k] && init[k] == sites[k];
      }
      assert NumberedInOrder(init);
      var last := sites[n];
      assert last.conditionIndex == CountLine(init, last.lineNumber);
      hide NumberedInOrder;
      LineIndices(init, line, i);
      assert sites == init + [last];
      assert forall s :: s in sites <==> s in init || s == last;
    }
  }

  /** A site output for a range comes from it, carries its line, and was in no earlier output. */
  lemma {:induction false} AttributeRangeOwner(sites: seq<ConditionSite>, line: nat, detected: seq<DetectedSite>)
    ensures var r := AttributeRange(sites, line, detected);
      && |sites| <= |r| && r[..|sites|] == sites
      && (forall k :: |sites| <= k < |r| ==>
            && r[k].lineNumber == line
            && DetectedSite(r[k].siteAddress, r[k].takenTarget, r[k].fallThrough) in detected
            && !HasAddress(sites, r[k].siteAddress))
      && (forall a :: HasAddress(r, a) <==> HasAddress(sites, a) || Decodes(detected, a))
  {
    if detected != [] {
      var n := |detected| - 1;
      var init, last := detected[..n], detected[n];
      AttributeRangeOwner(sites, line, init);
      var q := AttributeRange(sites, line, init);
      var r := AttributeSite(q, line, last);
      assert detected == init + [last];
      assert forall s :: s in detected <==> s in init || s == last;
      forall a ensures HasAddress(r, a) <==> HasAddress(q, a) || a == last.address {
        if HasAddress(q, last.address) {
        } else {
          assert forall s :: s in r <==> s in q || s == r[|q|];
        }
      }
      forall s | s in sites ensures s in q {
        var k :| 0 <= k < |sites| && sites[k] == s;
        assert q[..|sites|][k] == s;
      }
    }
  }

  /** Range i is the first, in RVA order, that decodes address a. */
  ghost predicate FirstDecoder(decoded: seq<seq<DetectedSite>>, i: nat, a: nat) {
    && i < |decoded| && Decodes(decoded[i], a)
    && forall j :: 0 <= j < i ==> !Decodes(decoded[j], a)
  }

  /** The output holds exactly the decoded addresses; each goes to the first range that decodes it. */
  lemma {:induction false} AttributeFirstWins(lines: seq<nat>, decoded: seq<seq<DetectedSite>>)
    requires |lines| == |decoded|
    ensures forall a :: HasAddress(Attribute(lines, decoded), a) <==> exists i :: 0 <= i < |decoded| && Decodes(decoded[i], a)
    ensures forall s :: s in Attribute(lines, decoded) ==> Owned(lines, decoded, s)
  {
    if lines != [] {
      var n := |lines| - 1;
      var before := Attribute(lines[..n], decoded[..n]);
      var r := Attribute(lines, decoded);
      AttributeFirstWins(lines[..n], decoded[..n]);
      AttributeRangeOwner(before, lines[n], decoded[n]);
      forall a ensures HasAddress(r, a) <==> exists i :: 0 <= i < |decoded| && Decodes(decoded[i], a) {
        if HasAddress(before, a) {
          var i :| 0 <= i < n && Decodes(decoded[..n][i], a);
          assert Decodes(decoded[i], a);
        } else if exists i :: 0 <= i < |decoded| && Decodes(decoded[i], a) {
          var i :| 0 <= i < |decoded| && Decodes(decoded[i], a);
          assert i < n ==> Decodes(decoded[..n][i], a);
        }
      }
      forall k | 0 <= k < |r| ensures Owned(lines, decoded, r[k]) {
        assert k < |before| ==> before[k] in before;
        if k < |before| {
          assert r[..|before|][k] == before[k];
          OwnedMonotone(lines, decoded, r[k]);
        } else {
          var s := DetectedSite(r[k].siteAddress, r[k].takenTarget, r[k].fallThrough);
          assert s in decoded[n] && !HasAddress(before, s.address);
          forall j | 0 <= j < n ensures !Decodes(decoded[j], s.address) {
            assert decoded[..n][j] == decoded[j];
          }
          assert FirstDecoder(decoded, n, s.address);
          assert OwnedBy(lines, decoded, r[k], n);
        }
      }
    }
  }

  ghost predicate OwnedBy(lines: seq<nat>, decoded: seq<seq<DetectedSite>>, s: ConditionSite, i: nat)
    requires |lines| == |decoded|
  {
    && FirstDecoder(decoded, i, s.siteAddress)
    && s.lineNumber == lines[i]
    && DetectedSite(s.siteAddress, s.takenTarget, s.fallThrough) in decoded[i]
  }

  /** The site carries the line and the targets of the first range that decodes its address. */
  ghost predicate Owned(lines: seq<nat>, decoded: seq<seq<DetectedSite>>, s: ConditionSite)
    requires |lines| == |decoded|
  {
    exists i :: OwnedBy(lines, decoded, s, i)
  }

  lemma OwnedMonotone(lines: seq<nat>, decoded: seq<seq<DetectedSite>>, s: ConditionSite)
    requires |lines| == |decoded| > 0
    requires Owned(lines[..|lines| - 1], decoded[..|lines| - 1], s)
    ensures Owned(lines, decoded, s)
  {
    var n := |lines| - 1;
    var i :| OwnedBy(lines[..n], decoded[..n], s, i);
    forall j | 0 <= j < i ensures !Decodes(decoded[j], s.siteAddress) {
      assert decoded[..n][j] == decoded[j];
    }
    assert OwnedBy(lines, decoded, s, i);
  }

  // ----- The method -------------------------------------------------------------------

  function Records(base: nat, numbers: seq<nat>, addresses: seq<nat>, symbols: seq<nat>, lengths: seq<nat>)
    : (records: seq<LineRecord>)
    requires |numbers| == |addresses| == |symbols| == |lengths|
  {
    seq(|numbers|, i requires 0 <= i < |numbers| =>
      LineRecord((addresses[i] - base) % UINT64, numbers[i], symbols[i], lengths[i]))
  }

  ghost function LinesOf(d: seq<LineRecord>, n: nat): (lines: seq<nat>)
    requires n <= |d|
    ensures |lines| == n
  {
    seq(n, i requires 0 <= i < n => d[i].lineNumber)
  }

  ghost function DecodedRanges(memory: map<Handle, Mem>, process: Handle, base: nat, ranges: seq<(nat, nat)>,
                               detect: Detector): (decoded: seq<seq<DetectedSite>>)
    requires forall i :: 0 <= i < |ranges| ==> ranges[i].0 < ranges[i].1
    ensures |decoded| == |ranges|
  {
    seq(|ranges|, i requires 0 <= i < |ranges| => Decoded(memory, process, base, ranges[i], detect))
  }

  /** The decoded sites are attributed to the lines of the first records, range by range. */
  ghost predicate Enumerated(memory: map<Handle, Mem>, process: Handle, base: nat, d: seq<LineRecord>,
                             detect: Detector, sites: seq<ConditionSite>)
  {
    var ranges := Ranges(d, |d|);
    RangesNonempty(d, |d|);
    sites == Attribute(LinesOf(d, |ranges|), DecodedRanges(memory, process, base, ranges, detect))
  }

  method FindRangeEnd(d: seq<LineRecord>, i: nat) returns (end: nat)
    requires i < |d|
    ensures end == RangeEnd(d, i)
  {
    var begin := d[i].rva;
    end := (begin + LAST_LINE_CAP) % UINT64;
    if d[i].length > 0 {
      end := (begin + d[i].length) % UINT64;
    } else {
      var j := i + 1;
      while j < |d|
        invariant i + 1 <= j <= |d|
        invariant NextOfSymbol(d, i, i + 1) == NextOfSymbol(d, i, j)
      {
        if d[j].symbolIndex == d[i].symbolIndex {
          end := Min(d[j].rva, (begin + MAX_LINE_RANGE) % UINT64);
          break;
        }
        j := j + 1;
      }
    }
  }

  method ComputeRanges(deduped: seq<LineRecord>) returns (ranges: seq<(nat, nat)>)
    ensures ranges == Ranges(deduped, |deduped|)
    ensures StrictByRva(deduped) && RecordWidths(deduped) ==> (NoneWraps(deduped) <==> AreBlocks(deduped, ranges))
  {
    ranges := [];
    for i := 0 to |deduped|
      invariant ranges == Ranges(deduped, i)
    {
      var begin := deduped[i].rva;
      var end := FindRangeEnd(deduped, i);
      if end <= begin {
        continue;
      }
      ranges := ranges + [(begin, end)];
    }
    if StrictByRva(deduped) && RecordWidths(deduped) {
      RangesAreBlocks(deduped);
    }
  }

  method DecodeRange(os: Debuggee, process: Handle, base: nat, range: (nat, nat), detect: Detector)
    returns (detected: seq<DetectedSite>)
    requires range.0 < range.1
    ensures detected == Decoded(os.memory, process, base, range, detect)
  {
    var start := (base + range.0) % UINT64;
    var size := range.1 - range.0;
    var bytes := os.ReadProcessMemory(process, start, size);
    if bytes.Throw? {
      bytes := os.ReadProcessMemory(process, start, Min(size, RETRY_WINDOW));
      if bytes.Throw? {
        return [];
      }
    }
    detected := detect(start, bytes.value);
  }

  /** The source's two maps agree with the output so far. */
  ghost predicate MapsAgree(sites: seq<ConditionSite>, countPerLine: map<nat, nat>, indexByAddress: map<nat, nat>) {
    && (forall a :: a in indexByAddress <==> HasAddress(sites, a))
    && (forall l :: (if l in countPerLine then countPerLine[l] else 0) == CountLine(sites, l))
  }

  lemma MapsStep(sites: seq<ConditionSite>, c: map<nat, nat>, ix: map<nat, nat>, line: nat, site: DetectedSite)
    requires MapsAgree(sites, c, ix) && site.address !in ix
    ensures MapsAgree(AttributeSite(sites, line, site), c[line := CountLine(sites, line) + 1],
                      ix[site.address := CountLine(sites, line)])
  {
    var r := AttributeSite(sites, line, site);
    assert r[..|sites|] == sites;
    assert forall s :: s in r <==> s in sites || s == r[|sites|];
    forall a ensures a in ix[site.address := CountLine(sites, line)] <==> HasAddress(r, a) {
      assert HasAddress(r, a) <==> HasAddress(sites, a) || a == site.address;
    }
  }

  method AttributeDetected(sites0: seq<ConditionSite>, countPerLine0: map<nat, nat>, indexByAddress0: map<nat, nat>,
                           line: nat, detected: seq<DetectedSite>)
    returns (sites: seq<ConditionSite>, countPerLine: map<nat, nat>, indexByAddress: map<nat, nat>)
    requires MapsAgree(sites0, countPerLine0, indexByAddress0)
    ensures sites == AttributeRange(sites0, line, detected)
    ensures MapsAgree(sites, countPerLine, indexByAddress)
  {
    sites, countPerLine, indexByAddress := sites0, countPerLine0, indexByAddress0;
    for n := 0 to |detected|
      invariant sites == AttributeRange(sites0, line, detected[..n])
      invariant MapsAgree(sites, countPerLine, indexByAddress)
    {
      var site := detected[n];
      assert detected[..n + 1][..n] == detected[..n];
      if site.address in indexByAddress {
        continue;
      }
      MapsStep(sites, countPerLine, indexByAddress, line, site);
      var index := if line in countPerLine then countPerLine[line] else 0;
      countPerLine := countPerLine[line := index + 1];
      indexByAddress := indexByAddress[site.address := index];
      sites := sites + [ConditionSite(site.address, site.takenTarget, site.fallThrough, line, index)];
    }
    assert detected[..|detected|] == detected;
  }

  method DecodeAndAttribute(os: Debuggee, process: Handle, base: nat, deduped: seq<LineRecord>,
                            ranges: seq<(nat, nat)>, detect: Detector)
    returns (sites: seq<ConditionSite>)
    requires |ranges| <= |deduped| && forall i :: 0 <= i < |ranges| ==> ranges[i].0 < ranges[i].1
    ensures sites == Attribute(LinesOf(deduped, |ranges|), DecodedRanges(os.memory, process, base, ranges, detect))
  {
    ghost var lines := LinesOf(deduped, |ranges|);
    ghost var decoded := DecodedRanges(os.memory, process, base, ranges, detect);
    sites := [];
    var countPerLine: map<nat, nat>, indexByAddress: map<nat, nat> := map[], map[];
    for i := 0 to |ranges|
      invariant sites == Attribute(lines[..i], decoded[..i])
      invariant MapsAgree(sites, countPerLine, indexByAddress)
    {
      var detected := DecodeRange(os, process, base, ranges[i], detect);
      sites, countPerLine, indexByAddress :=
        AttributeDetected(sites, countPerLine, indexByAddress, deduped[i].lineNumber, detected);
      assert lines[..i + 1][..i] == lines[..i] && decoded[..i + 1][..i] == decoded[..i];
    }
    assert lines[..|ranges|] == lines && decoded[..|ranges|] == decoded;
  }

  /** `BranchSiteEnumerator::Enumerate`. */
  method Enumerate(os: Debuggee, process: Handle, base: nat, numbers: seq<nat>, addresses: seq<nat>,
                   symbols: seq<nat>, lengths: seq<nat>, detect: Detector)
    returns (sites: seq<ConditionSite>)
    ensures !(|numbers| == |addresses| == |symbols| == |lengths|) || numbers == [] ==> sites == []
    ensures |numbers| == |addresses| == |symbols| == |lengths| && numbers != [] ==>
      exists d :: Deduplicated(Records(base, numbers, addresses, symbols, lengths), d) &&
                  Enumerated(os.memory, process, base, d, detect, sites)
  {
    if |numbers| != |addresses| || |numbers| != |symbols| || |numbers| != |lengths| || numbers == [] {
      return [];
    }
    var records := Records(base, numbers, addresses, symbols, lengths);
    var sorted := SortRecords(records);
    var deduped := Deduplicate(sorted);
    DeduplicatedPermutation(sorted, records, deduped);
    var ranges := ComputeRanges(deduped);
    RangesNonempty(deduped, |deduped|);
    sites := DecodeAndAttribute(os, process, base, deduped, ranges, detect);
    assert Enumerated(os.memory, process, base, deduped, detect, sites);
  }

  /** How many bytes of a block are read: all of them, or at most 32 when they cannot all be read. */
  ghost predicate ReadsBytes(m: Mem, start: nat, size: nat, n: nat) {
    Mapped(m, start, n) && (n == size || (!Mapped(m, start, size) && n == if size < 32 then size else 32))
  }

  /** The detector finds the site in the readable bytes of the block of record i. */
  ghost predicate Finds(memory: map<Handle, Mem>, process: Handle, base: nat, d: seq<LineRecord>, detect: Detector,
                        i: nat, site: DetectedSite)
  {
    && i < |d| && process in memory
    && exists end, n :: BlockEnds(d, i, end) && FindsUpTo(memory[process], base, d[i].rva, end, n, detect, site)
  }

  ghost predicate FindsUpTo(m: Mem, base: nat, rva: nat, end: nat, n: nat, detect: Detector, site: DetectedSite) {
    var start := (base + rva) % 0x1_0000_0000_0000_0000;
    rva <= end && ReadsBytes(m, start, end - rva, n) && site in detect(start, Read(m, start, n))
  }

  ghost predicate FindsAt(memory: map<Handle, Mem>, process: Handle, base: nat, d: seq<LineRecord>, detect: Detector,
                          i: nat, a: nat)
  {
    exists site: DetectedSite :: site.address == a && Finds(memory, process, base, d, detect, i, site)
  }

  /** The site has the line and the targets of record i, the first one in RVA order in whose block it is found. */
  ghost predicate FirstRecord(memory: map<Handle, Mem>, process: Handle, base: nat, d: seq<LineRecord>, detect: Detector,
                              s: ConditionSite, i: nat)
  {
    && i < |d| && s.lineNumber == d[i].lineNumber
    && Finds(memory, process, base, d, detect, i, DetectedSite(s.siteAddress, s.takenTarget, s.fallThrough))
    && forall j :: 0 <= j < i ==> !FindsAt(memory, process, base, d, detect, j, s.siteAddress)
  }

  lemma OneBlockEnd(d: seq<LineRecord>, i: nat, x: nat, y: nat)
    requires StrictByRva(d) && i < |d| && BlockEnds(d, i, x) && BlockEnds(d, i, y)
    ensures x == y
  {
    if d[i].length == 0 && !IsLastOfSymbol(d, i) {
      var k: nat :| FollowsInSymbol(d, i, k) && (x == d[k].rva || (x == d[i].rva + 4096 && x <= d[k].rva));
      var l: nat :| FollowsInSymbol(d, i, l) && (y == d[l].rva || (y == d[i].rva + 4096 && y <= d[l].rva));
      assert k == l;
    }
  }

  lemma DecodedIsFound(memory: map<Handle, Mem>, process: Handle, base: nat, d: seq<LineRecord>, detect: Detector,
                       i: nat, end: nat, site: DetectedSite)
    requires StrictByRva(d) && i < |d| && BlockEnds(d, i, end) && d[i].rva < end
    ensures site in Decoded(memory, process, base, (d[i].rva, end), detect) <==>
      Finds(memory, process, base, d, detect, i, site)
  {
    hide BlockEnds, Mapped, Read;
    if process in memory {
      forall e | BlockEnds(d, i, e) ensures e == end {
        OneBlockEnd(d, i, e, end);
      }
      DecodedUpTo(memory, process, base, d[i].rva, end, detect, site);
      assert forall n :: FindsUpTo(memory[process], base, d[i].rva, end, n, detect, site) ==>
        Finds(memory, process, base, d, detect, i, site);
    }
  }

  lemma DecodedUpTo(memory: map<Handle, Mem>, process: Handle, base: nat, rva: nat, end: nat, detect: Detector,
                    site: DetectedSite)
    requires process in memory && rva < end
    ensures site in Decoded(memory, process, base, (rva, end), detect) <==>
      exists n :: FindsUpTo(memory[process], base, rva, end, n, detect, site)
  {
    var m, start, size := memory[process], (base + rva) % 0x1_0000_0000_0000_0000, end - rva;
    var n := if Mapped(m, start, size) then size else if size < 32 then size else 32;
    assert forall k :: ReadsBytes(m, start, size, k) ==> k == n;
    if site in Decoded(memory, process, base, (rva, end), detect) {
      assert FindsUpTo(m, base, rva, end, n, detect, site);
    }
  }

  /**
   When no block wraps around, exactly the addresses that the detector finds in some
   block are sites, and each carries the line of the first record in RVA order in
   whose block it is found.
   */
  lemma FirstRecordWins(memory: map<Handle, Mem>, process: Handle, base: nat, d: seq<LineRecord>, detect: Detector,
                        sites: seq<ConditionSite>)
    requires StrictByRva(d) && RecordWidths(d) && NoneWraps(d) && Enumerated(memory, process, base, d, detect, sites)
    ensures forall s :: s in sites ==> exists i :: FirstRecord(memory, process, base, d, detect, s, i)
    ensures forall a :: HasAddress(sites, a) <==> exists i :: 0 <= i < |d| && FindsAt(memory, process, base, d, detect, i, a)
  {
    hide RangeEnd, Wraps, BlockEnds, Decoded, Attribute, Decodes, HasAddress, Finds, FindsAt;
    RangesAreBlocks(d);
    RangesNonempty(d, |d|);
    var ranges := Ranges(d, |d|);
    var lines := LinesOf(d, |ranges|);
    var decoded := DecodedRanges(memory, process, base, ranges, detect);
    AttributeFirstWins(lines, decoded);
    forall i, a | 0 <= i < |d| ensures Decodes(decoded[i], a) <==> FindsAt(memory, process, base, d, detect, i, a) {
      DecodesIsFinds(memory, process, base, d, detect, i, ranges[i].1, a);
    }
    forall s | s in sites ensures exists i :: FirstRecord(memory, process, base, d, detect, s, i) {
      assert Owned(lines, decoded, s);
      var i: nat :| OwnedBy(lines, decoded, s, i);
      DecodedIsFound(memory, process, base, d, detect, i, ranges[i].1, DetectedSite(s.siteAddress, s.takenTarget, s.fallThrough));
      assert FirstRecord(memory, process, base, d, detect, s, i);
    }
  }

  lemma DecodesIsFinds(memory: map<Handle, Mem>, process: Handle, base: nat, d: seq<LineRecord>, detect: Detector,
                       i: nat, end: nat, a: nat)
    requires StrictByRva(d) && i < |d| && BlockEnds(d, i, end) && d[i].rva < end
    ensures Decodes(Decoded(memory, process, base, (d[i].rva, end), detect), a) <==>
      FindsAt(memory, process, base, d, detect, i, a)
  {
    hide BlockEnds, Decoded, Finds;
    forall site ensures site in Decoded(memory, process, base, (d[i].rva, end), detect) <==>
      Finds(memory, process, base, d, detect, i, site)
    {
      DecodedIsFound(memory, process, base, d, detect, i, end, site);
    }
  }

  /** The disassembler only reports branches inside the bytes that it is given. */
  ghost predicate StaysInside(detect: Detector) {
    forall start: nat, bytes, s :: s in detect(start, bytes) ==> start <= s.address < start + |bytes|
  }

  /** A site lies in the block of the record that gives it its line, and that block starts at the address of the line. */
  lemma SiteLiesInBlock(memory: map<Handle, Mem>, process: Handle, base: nat, numbers: seq<nat>, addresses: seq<nat>,
                        symbols: seq<nat>, lengths: seq<nat>, d: seq<LineRecord>, detect: Detector,
                        s: ConditionSite, i: nat)
    requires |numbers| == |addresses| == |symbols| == |lengths|
    requires Deduplicated(Records(base, numbers, addresses, symbols, lengths), d)
    requires StaysInside(detect) && FirstRecord(memory, process, base, d, detect, s, i)
    ensures exists n: nat, end: nat ::
      && n < |numbers| && s.lineNumber == numbers[n] && BlockEnds(d, i, end)
      && addresses[n] % 0x1_0000_0000_0000_0000 <= s.siteAddress < addresses[n] % 0x1_0000_0000_0000_0000 + (end - d[i].rva)
  {
    hide BlockEnds, FindsUpTo, Deduplicated, StaysInside, Records;
    var site := DetectedSite(s.siteAddress, s.takenTarget, s.fallThrough);
    var end, k :| BlockEnds(d, i, end) && FindsUpTo(memory[process], base, d[i].rva, end, k, detect, site);
    FoundInside(memory[process], base, d[i].rva, end, k, detect, site);
    KeptLine(base, numbers, addresses, symbols, lengths, d, i);
    var n :| 0 <= n < |numbers| && numbers[n] == d[i].lineNumber && (addresses[n] - base) % UINT64 == d[i].rva;
    BackToAddress(base, addresses[n]);
  }

  lemma FoundInside(m: Mem, base: nat, rva: nat, end: nat, n: nat, detect: Detector, site: DetectedSite)
    requires StaysInside(detect) && FindsUpTo(m, base, rva, end, n, detect, site)
    ensures var start := (base + rva) % 0x1_0000_0000_0000_0000;
      rva <= end && start <= site.address < start + (end - rva)
  {
    hide Mapped;
  }

  lemma BackToAddress(base: nat, address: nat)
    ensures (base + (address - base) % UINT64) % 0x1_0000_0000_0000_0000 == address % 0x1_0000_0000_0000_0000
  {
  }

  /** The records of an enumeration are strictly ordered and within their widths. */
  lemma RecordsFit(base: nat, numbers: seq<nat>, addresses: seq<nat>, symbols: seq<nat>, lengths: seq<nat>, d: seq<LineRecord>)
    requires |numbers| == |addresses| == |symbols| == |lengths| && forall n :: n in lengths ==> n < 0x1_0000_0000
    requires Deduplicated(Records(base, numbers, addresses, symbols, lengths), d)
    ensures StrictByRva(d) && RecordWidths(d)
  {
    var records := Records(base, numbers, addresses, symbols, lengths);
    forall i | 0 <= i < |d| ensures d[i].rva < UINT64 && d[i].length < 0x1_0000_0000 {
      assert d[i] in d && HasOrigin(records, d[i]);
      var r :| r in records && r.rva == d[i].rva && r.length == d[i].length;
      var n :| 0 <= n < |records| && records[n] == r;
      assert lengths[n] in lengths && records[n].length == lengths[n];
    }
  }

  /** Every site is attributed to one of the given lines. */
  lemma EnumeratedLines(memory: map<Handle, Mem>, process: Handle, base: nat, numbers: seq<nat>, addresses: seq<nat>,
                        symbols: seq<nat>, lengths: seq<nat>, d: seq<LineRecord>, detect: Detector,
                        sites: seq<ConditionSite>)
    requires |numbers| == |addresses| == |symbols| == |lengths|
    requires Deduplicated(Records(base, numbers, addresses, symbols, lengths), d)
    requires Enumerated(memory, process, base, d, detect, sites)
    ensures UniqueAddresses(sites) && NumberedInOrder(sites)
    ensures forall s :: s in sites ==> s.lineNumber in numbers
  {
    var ranges := Ranges(d, |d|);
    RangesNonempty(d, |d|);
    var lines := LinesOf(d, |ranges|);
    var decoded := DecodedRanges(memory, process, base, ranges, detect);
    AttributeNumbered(lines, decoded);
    AttributeFirstWins(lines, decoded);
    forall s | s in sites ensures s.lineNumber in numbers {
      assert Owned(lines, decoded, s);
      var i :| OwnedBy(lines, decoded, s, i);
      KeptLine(base, numbers, addresses, symbols, lengths, d, i);
    }
  }

  lemma KeptLine(base: nat, numbers: seq<nat>, addresses: seq<nat>, symbols: seq<nat>, lengths: seq<nat>,
                 d: seq<LineRecord>, i: nat)
    requires |numbers| == |addresses| == |symbols| == |lengths|
    requires Deduplicated(Records(base, numbers, addresses, symbols, lengths), d) && i < |d|
    ensures d[i].lineNumber in numbers
    ensures exists n :: 0 <= n < |numbers| && numbers[n] == d[i].lineNumber && (addresses[n] - base) % UINT64 == d[i].rva
  {
    var records := Records(base, numbers, addresses, symbols, lengths);
    assert d[i] in d && LowestLine(records, d[i].rva, d[i].lineNumber);
    var r :| r in records && r.rva == d[i].rva && r.lineNumber == d[i].lineNumber;
    var n :| 0 <= n < |records| && records[n] == r;
    assert numbers[n] == r.lineNumber;
  }

  /**
   When the range of a record wraps around the address space it is skipped, and
   the ranges no longer line up with the records: here everything decoded in
   the block of line 2 is attributed to line 1.
   */
  lemma WrapMisattributes(memory: map<Handle, Mem>, process: Handle, base: nat, detect: Detector, sites: seq<ConditionSite>)
    ensures var d := [LineRecord(UINT64 - 32, 1, 0, 0), LineRecord(UINT64 - 16, 2, 1, 8)];
      && StrictByRva(d) && RecordWidths(d)
      && Ranges(d, 2) == [(UINT64 - 16, UINT64 - 8)]
      && (Enumerated(memory, process, base, d, detect, sites) ==> forall s :: s in sites ==> s.lineNumber == 1)
  {
    var d := [LineRecord(UINT64 - 32, 1, 0, 0), LineRecord(UINT64 - 16, 2, 1, 8)];
    assert NextOfSymbol(d, 0, 1) == 2;
    assert Ranges(d, 0) == [] && Ranges(d, 1) == [];
    if Enumerated(memory, process, base, d, detect, sites) {
      var lines := LinesOf(d, 1);
      var decoded := DecodedRanges(memory, process, base, Ranges(d, 2), detect);
      AttributeFirstWins(lines, decoded);
      forall s | s in sites ensures s.lineNumber == 1 {
        assert Owned(lines, decoded, s);
      }
    }
  }
}
