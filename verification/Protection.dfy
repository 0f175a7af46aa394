/** Which offsets of a Markdown text are code, from src/lib/markdownProtection.ts: the
    lines, the ranges recorded for fences and inline spans, and the index over them. */
module Protection {
  import opened Basics
  import opened TextLines

  const TICK: nat := 0x60
  const TILDE: nat := 126
  const SPACE: nat := 32

  // ------------------------------------------------------------ lines

  datatype Line = Line(start: nat, end: nat, text: Text, fenced: bool)

  function FeedFrom(s: Text, i: nat): (n: nat)
    requires i <= |s|
    ensures i <= n <= |s|
    ensures n < |s| ==> s[n] == LINE_FEED
    ensures forall k :: i <= k < n ==> s[k] != LINE_FEED
    decreases |s| - i
  {
    if i == |s| || s[i] == LINE_FEED then i else FeedFrom(s, i + 1)
  }

  function LineAt(s: Text, start: nat): (l: Line)
    requires start < |s|
    ensures l.start == start < l.end <= |s|
  {
    var newline := FeedFrom(s, start);
    var textEnd := if newline > start && s[newline - 1] == 13 then newline - 1 else newline;
    Line(start, if newline == |s| then |s| else newline + 1, s[start..textEnd], false)
  }

  function LinesFrom(s: Text, start: nat): seq<Line>
    requires start <= |s|
    decreases |s| - start
  {
    if start == |s| then [] else [LineAt(s, start)] + LinesFrom(s, LineAt(s, start).end)
  }

  /** sourceLines */
  method SourceLines(s: Text) returns (lines: seq<Line>)
    ensures lines == LinesFrom(s, 0)
  {
    hide LineAt;
    lines := [];
    var start := 0;
    while start < |s|
      invariant start <= |s| && lines + LinesFrom(s, start) == LinesFrom(s, 0)
    {
      var l := LineAt(s, start);
      assert lines + ([l] + LinesFrom(s, l.end)) == lines + [l] + LinesFrom(s, l.end);
      lines := lines + [l];
      start := l.end;
    }
    assert lines + [] == lines;
  }

  /** Each line begins where the one before it ends. */
  predicate Tiles(lines: seq<Line>, start: nat, end: nat) {
    if lines == [] then start == end
    else lines[0].start == start && lines[0].start < lines[0].end && Tiles(lines[1..], lines[0].end, end)
  }

  function Covered(s: Text, lines: seq<Line>): Text
    requires forall k :: 0 <= k < |lines| ==> lines[k].start <= lines[k].end <= |s|
  {
    if lines == [] then [] else s[lines[0].start..lines[0].end] + Covered(s, lines[1..])
  }

  /** What a line's text leaves out is its line ending; only the last line may lack a line feed. */
  predicate EndsAsLine(s: Text, l: Line)
    requires l.start <= l.end <= |s|
  {
    var n := l.end - l.start - |l.text|;
    && LINE_FEED !in l.text && 0 <= n <= 2 && l.text == s[l.start..l.end - n]
    && IsEnding(l.text, s[l.end - n..l.end], l.end == |s|)
  }

  predicate IsEnding(text: Text, ending: Text, last: bool) {
    || (last && ending == [13])
    || ending == [13, LINE_FEED]
    || ((ending == [LINE_FEED] || (last && ending == [])) && (text == [] || text[|text| - 1] != 13))
  }

  lemma LineEnds(s: Text, start: nat)
    requires start < |s|
    ensures EndsAsLine(s, LineAt(s, start))
  {
    hide FeedFrom, IsEnding;
    var newline := FeedFrom(s, start);
    var textEnd := if newline > start && s[newline - 1] == 13 then newline - 1 else newline;
    var l := LineAt(s, start);
    assert l.text == s[start..textEnd] && l.end - (l.end - l.start - |l.text|) == textEnd;
    EndingIs(s, start, newline, textEnd);
  }

  lemma EndingIs(s: Text, start: nat, newline: nat, textEnd: nat)
    requires start <= newline <= |s| && start < |s| && (newline < |s| ==> s[newline] == LINE_FEED)
    requires textEnd == if newline > start && s[newline - 1] == 13 then newline - 1 else newline
    ensures var end := if newline == |s| then |s| else newline + 1;
      IsEnding(s[start..textEnd], s[textEnd..end], end == |s|)
  {
    if newline == |s| {
      assert s[textEnd..newline] == if textEnd < newline then [13] else [];
    } else if textEnd < newline {
      assert s[textEnd..newline + 1] == [13, LINE_FEED];
    } else {
      assert s[textEnd..newline + 1] == [LINE_FEED];
    }
  }

  /** The lines tile the text: joining their stretches gives it back. */
  lemma {:induction false} LinesTile(s: Text, start: nat)
    requires start <= |s|
    ensures var lines := LinesFrom(s, start);
      && Tiles(lines, start, |s|)
      && (forall k :: 0 <= k < |lines| ==> lines[k].start <= lines[k].end <= |s| && EndsAsLine(s, lines[k]))
      && Covered(s, lines) == s[start..]
    decreases |s| - start
  {
    hide LineAt, EndsAsLine;
    if start < |s| {
      var l, rest := LineAt(s, start), LinesFrom(s, LineAt(s, start).end);
      LineEnds(s, start);
      LinesTile(s, l.end);
      assert s[start..] == s[l.start..l.end] + s[l.end..];
      assert LinesFrom(s, start) == [l] + rest && ([l] + rest)[1..] == rest;
    }
  }

  // ------------------------------------------------------------ fences

  datatype Fence = Fence(unit: nat, width: nat, indent: nat, depth: nat)

  function RunEnd(s: Text, i: nat, c: nat): (end: nat)
    requires i <= |s|
    ensures i <= end <= |s|
    decreases |s| - i
  {
    if i < |s| && s[i] == c then RunEnd(s, i + 1, c) else i
  }

  function DigitsEnd(s: Text, i: nat): (end: nat)
    requires i <= |s|
    ensures i <= end <= |s|
    decreases |s| - i
  {
    if i < |s| && 48 <= s[i] <= 57 then DigitsEnd(s, i + 1) else i
  }

  datatype Mark = Mark(unit: nat, start: nat, end: nat)

  /** fenceMarker: up to three blanks, then three or more ticks or tildes. */
  function FenceMarker(text: Text): (m: Option<Mark>)
    ensures m.Some? ==> m.value.start + 3 <= m.value.end <= |text|
  {
    var n := RunEnd(text, 0, SPACE);
    if n > 3 || n == |text| || text[n] !in {TICK, TILDE} then None
    else
      var end := RunEnd(text, n, text[n]);
      if end < n + 3 then None else Some(Mark(text[n], n, end))
  }

  /** rootFenceOpening: no tick may follow a fence of ticks. */
  function RootOpening(text: Text): Option<Fence> {
    match FenceMarker(text)
    case None => None
    case Some(m) =>
      if m.unit == TICK && TICK in text[m.end..] then None else Some(Fence(m.unit, m.end - m.start, 0, 0))
  }

  /** One list marker with its blanks, or 0. */
  function ListMarker(text: Text): (n: nat)
    ensures n <= |text|
  {
    var n := RunEnd(text, 0, SPACE);
    if n > 3 || n == |text| then 0
    else
      var digits := DigitsEnd(text, n);
      var end :=
        if text[n] in {42, 43, 45} then n + 1
        else if 1 <= digits - n <= 9 && digits < |text| && text[digits] in {46, 41} then digits + 1
        else 0;
      if end == 0 || RunEnd(text, end, SPACE) == end then 0
      else if RunEnd(text, end, SPACE) > end + 4 then end + 4
      else RunEnd(text, end, SPACE)
  }

  /** All list markers from an offset on. */
  function ListMarkers(text: Text, offset: nat): (end: nat)
    requires offset <= |text|
    ensures offset <= end <= |text|
    decreases |text| - offset
  {
    var n := ListMarker(text[offset..]);
    if n == 0 then offset else ListMarkers(text, offset + n)
  }

  /** listFenceOpening */
  function ListOpening(text: Text): Option<Fence> {
    var offset := ListMarkers(text, 0);
    if offset == 0 then None
    else
      match RootOpening(text[offset..])
      case None => None
      case Some(f) => Some(f.(indent := offset))
  }

  /** Length of one block quote marker, or 0. */
  function QuoteMarker(text: Text): (n: nat)
    ensures n <= |text|
  {
    var n := RunEnd(text, 0, SPACE);
    if n > 3 || n == |text| || text[n] != 62 then 0
    else if n + 1 < |text| && text[n + 1] in {SPACE, 9} then n + 2 else n + 1
  }

  /** removeBlockquotePrefix */
  function Unquoted(text: Text, depth: nat): Option<Text> {
    if depth == 0 then Some(text)
    else if QuoteMarker(text) == 0 then None
    else Unquoted(text[QuoteMarker(text)..], depth - 1)
  }

  function QuoteDepth(text: Text): nat
    decreases |text|
  {
    if QuoteMarker(text) == 0 then 0 else 1 + QuoteDepth(text[QuoteMarker(text)..])
  }

  /** blockquoteFenceOpening */
  function QuoteOpening(text: Text): Option<Fence> {
    var depth := QuoteDepth(text);
    if depth == 0 then None
    else
      match Unquoted(text, depth)
      case None => None
      case Some(rest) =>
        var opening := if RootOpening(rest).Some? then RootOpening(rest) else ListOpening(rest);
        if opening.None? then None else Some(opening.value.(depth := depth))
  }

  function Opening(text: Text): Option<Fence> {
    if RootOpening(text).Some? then RootOpening(text)
    else if ListOpening(text).Some? then ListOpening(text)
    else QuoteOpening(text)
  }

  function Blanks(n: nat): Text { if n == 0 then [] else [SPACE] + Blanks(n - 1) }

  /** removeIndent, from an offset and a column on; a tab goes to the next multiple of four. */
  function Outdented(text: Text, offset: nat, columns: nat, required: nat): Option<Text>
    requires offset <= |text|
    decreases |text| - offset
  {
    if offset < |text| && columns < required then
      if text[offset] == SPACE then Outdented(text, offset + 1, columns + 1, required)
      else if text[offset] == 9 then Outdented(text, offset + 1, columns + (4 - columns % 4), required)
      else None
    else if columns < required then None
    else Some(Blanks(columns - required) + text[offset..])
  }

  predicate BlankFrom(text: Text, i: nat) { forall k | i <= k < |text| :: text[k] in {SPACE, 9} }

  /** closesFence */
  predicate Closes(text: Text, fence: Fence) {
    match Unquoted(text, fence.depth)
    case None => false
    case Some(quoted) =>
      match if fence.indent == 0 then Some(quoted) else Outdented(quoted, 0, 0, fence.indent)
      case None => false
      case Some(rest) =>
        match FenceMarker(rest)
        case None => false
        case Some(m) =>
          m.unit == fence.unit && m.end - m.start >= fence.width && BlankFrom(rest, m.end)
  }

  /** A fence goes on as long as its block quote does. */
  predicate GoesOn(l: Line, fence: Option<Fence>) { fence.Some? && Unquoted(l.text, fence.value.depth).Some? }

  predicate Flagged(l: Line, fence: Option<Fence>) { GoesOn(l, fence) || Opening(l.text).Some? }

  function After(l: Line, fence: Option<Fence>): Option<Fence> {
    if GoesOn(l, fence) then if Closes(l.text, fence.value) then None else fence else Opening(l.text)
  }

  /** The lines with their fence flags, given the fence that is open before them. */
  function Fenced(lines: seq<Line>, fence: Option<Fence>): (r: seq<Line>)
    ensures |r| == |lines|
    ensures forall k :: 0 <= k < |r| ==> r[k] == lines[k].(fenced := r[k].fenced)
  {
    if lines == [] then []
    else [lines[0].(fenced := Flagged(lines[0], fence))] + Fenced(lines[1..], After(lines[0], fence))
  }

  // ------------------------------------------------------------ ranges

  datatype Range = Range(start: nat, end: nat)

  function FenceRanges(lines: seq<Line>): seq<Range> {
    if lines == [] then []
    else (if lines[0].fenced then [Range(lines[0].start, lines[0].end)] else []) + FenceRanges(lines[1..])
  }

  /** How many backslashes stand directly before i. */
  function Backslashes(text: Text, i: nat): nat
    requires i <= |text|
  {
    if i > 0 && text[i - 1] == 92 then 1 + Backslashes(text, i - 1) else 0
  }

  /** An inline span whose closing run has not come yet. */
  datatype Inline = Inline(start: nat, width: nat)

  datatype Scanned = Scanned(ranges: seq<Range>, inline: Option<Inline>)

  /** The runs of ticks of one line from an offset on. */
  function ScanLine(l: Line, offset: nat, inline: Option<Inline>): Scanned
    requires offset <= |l.text|
    decreases |l.text| - offset
  {
    if offset == |l.text| then Scanned([], inline)
    else if l.text[offset] != TICK || Backslashes(l.text, offset) % 2 == 1 then ScanLine(l, offset + 1, inline)
    else
      RunAdvances(l.text, offset);
      var end := RunEnd(l.text, offset, TICK);
      if inline.None? then ScanLine(l, end, Some(Inline(l.start + offset, end - offset)))
      else if inline.value.width == end - offset then
        var rest := ScanLine(l, end, None);
        rest.(ranges := [Range(inline.value.start, l.start + end)] + rest.ranges)
      else ScanLine(l, end, inline)
  }

  lemma RunAdvances(s: Text, i: nat)
    requires i < |s| && s[i] == TICK
    ensures RunEnd(s, i, TICK) > i
  {
  }

  /** The inline ranges of flagged lines; a fence ends an open span, and so does the end
      of the text. */
  function InlineRanges(lines: seq<Line>, inline: Option<Inline>, end: nat): seq<Range> {
    if lines == [] then if inline.Some? then [Range(inline.value.start, end)] else []
    else if lines[0].fenced then
      (if inline.Some? then [Range(inline.value.start, lines[0].start)] else []) + InlineRanges(lines[1..], None, end)
    else
      var scanned := ScanLine(lines[0], 0, inline);
      scanned.ranges + InlineRanges(lines[1..], scanned.inline, end)
  }

  /** Everything the text records as code. */
  function Recorded(content: Text): seq<Range> {
    var lines := Fenced(LinesFrom(content, 0), None);
    FenceRanges(lines) + InlineRanges(lines, None, |content|)
  }

  // ------------------------------------------------------------ membership

  predicate Contains(r: Range, offset: nat) { r.start <= offset < r.end }

  predicate Holds(ranges: seq<Range>, offset: nat) {
    exists k | 0 <= k < |ranges| :: Contains(ranges[k], offset)
  }

  predicate Forward(ranges: seq<Range>) { forall k | 0 <= k < |ranges| :: ranges[k].start < ranges[k].end }

  /** Sorted, with room between neighbours. */
  predicate Gapped(ranges: seq<Range>) {
    Forward(ranges) && forall i, j | 0 <= i < j < |ranges| :: ranges[i].end < ranges[j].start
  }

  predicate Before(a: Range, b: Range) { a.start < b.start || (a.start == b.start && a.end <= b.end) }

  predicate Ordered(ranges: seq<Range>) { forall i, j | 0 <= i < j < |ranges| :: Before(ranges[i], ranges[j]) }

  function Insert(ranges: seq<Range>, r: Range): seq<Range> {
    if ranges == [] || !Before(ranges[0], r) then [r] + ranges else [ranges[0]] + Insert(ranges[1..], r)
  }

  /** ranges.sort */
  function Sorted(ranges: seq<Range>): seq<Range> {
    if ranges == [] then [] else Insert(Sorted(ranges[..|ranges| - 1]), ranges[|ranges| - 1])
  }

  lemma {:induction false} InsertKeeps(ranges: seq<Range>, r: Range)
    requires Ordered(ranges)
    ensures Ordered(Insert(ranges, r)) && multiset(Insert(ranges, r)) == multiset(ranges) + multiset{r}
  {
    if ranges == [] {
    } else if !Before(ranges[0], r) {
      forall j | 0 <= j < |ranges| ensures Before(r, ranges[j]) {
        if j > 0 { assert Before(ranges[0], ranges[j]); }
      }
    } else {
      var rest := Insert(ranges[1..], r);
      InsertKeeps(ranges[1..], r);
      assert ranges == [ranges[0]] + ranges[1..];
      forall j | 0 <= j < |rest| ensures Before(ranges[0], rest[j]) {
        assert rest[j] in multiset(rest);
        assert rest[j] == r || rest[j] in ranges[1..];
      }
    }
  }

  lemma NoneOrdered()
    ensures Ordered([])
  {
  }

  lemma {:induction false} SortedKeeps(ranges: seq<Range>)
    ensures Ordered(Sorted(ranges)) && multiset(Sorted(ranges)) == multiset(ranges)
  {
    hide Ordered, Insert;
    if ranges == [] {
      assert Ordered(Sorted(ranges)) by { NoneOrdered(); }
    } else {
      var n := |ranges| - 1;
      SortedKeeps(ranges[..n]);
      InsertKeeps(Sorted(ranges[..n]), ranges[n]);
      assert ranges == ranges[..n] + [ranges[n]];
    }
  }

  /** Sorting moves ranges without changing what they contain. */
  lemma SortedHolds(ranges: seq<Range>, offset: nat)
    ensures Holds(Sorted(ranges), offset) == Holds(ranges, offset)
    ensures Forward(ranges) ==> Forward(Sorted(ranges))
  {
    SortedKeeps(ranges);
    var sorted := Sorted(ranges);
    forall k | 0 <= k < |sorted| ensures sorted[k] in ranges { assert sorted[k] in multiset(sorted); }
    forall k | 0 <= k < |ranges| ensures ranges[k] in sorted { assert ranges[k] in multiset(ranges); }
  }

  /** mergedRanges: sorted ranges with strict gaps, covering exactly the same offsets. */
  method MergedRanges(ranges: seq<Range>) returns (merged: seq<Range>)
    requires Forward(ranges)
    ensures Gapped(merged)
    ensures forall offset: nat :: Holds(merged, offset) == Holds(ranges, offset)
  {
    hide Sorted;
    var sorted := Sorted(ranges);
    SortedKeeps(ranges);
    forall offset: nat ensures Holds(sorted, offset) == Holds(ranges, offset) { SortedHolds(ranges, offset); }
    SortedHolds(ranges, 0);
    merged := [];
    var k := 0;
    while k < |sorted|
      invariant 0 <= k <= |sorted| && Gapped(merged)
      invariant merged == [] <==> k == 0
      invariant merged != [] && k < |sorted| ==> merged[|merged| - 1].start <= sorted[k].start
      invariant forall offset: nat :: Holds(merged, offset) == Holds(sorted[..k], offset)
    {
      var r := sorted[k];
      var n := |merged| - 1;
      assert k + 1 < |sorted| ==> Before(r, sorted[k + 1]);
      ghost var was := merged;
      if merged != [] && r.start <= merged[n].end {
        merged := merged[..n] + [Range(merged[n].start, if merged[n].end < r.end then r.end else merged[n].end)];
        Extended(was, r);
      } else {
        merged := merged + [r];
        Appended(was, r);
      }
      assert sorted[..k + 1] == sorted[..k] + [r];
      forall offset: nat ensures Holds(merged, offset) == Holds(sorted[..k + 1], offset) {
        HoldsLast(sorted[..k], r, offset);
      }
      k := k + 1;
    }
    assert sorted[..|sorted|] == sorted;
  }

  lemma HoldsLast(ranges: seq<Range>, r: Range, offset: nat)
    ensures Holds(ranges + [r], offset) <==> Holds(ranges, offset) || Contains(r, offset)
  {
    var all := ranges + [r];
    assert forall k :: 0 <= k < |ranges| ==> all[k] == ranges[k];
    assert all[|ranges|] == r;
  }

  lemma Extended(merged: seq<Range>, r: Range)
    requires Gapped(merged) && merged != [] && r.start < r.end
    requires merged[|merged| - 1].start <= r.start <= merged[|merged| - 1].end
    ensures var n := |merged| - 1; var last := merged[n];
      var out := merged[..n] + [Range(last.start, if last.end < r.end then r.end else last.end)];
      && Gapped(out)
      && forall offset: nat :: Holds(out, offset) <==> Holds(merged, offset) || Contains(r, offset)
  {
    var n := |merged| - 1;
    var last := merged[n];
    var wide := Range(last.start, if last.end < r.end then r.end else last.end);
    var out := merged[..n] + [wide];
    forall offset: nat ensures Holds(out, offset) <==> Holds(merged, offset) || Contains(r, offset) {
      HoldsLast(merged[..n], wide, offset);
      HoldsLast(merged[..n], last, offset);
      assert merged == merged[..n] + [last];
    }
  }

  lemma Appended(merged: seq<Range>, r: Range)
    requires Gapped(merged) && r.start < r.end
    requires merged != [] ==> merged[|merged| - 1].end < r.start
    ensures Gapped(merged + [r])
    ensures forall offset: nat :: Holds(merged + [r], offset) <==> Holds(merged, offset) || Contains(r, offset)
  {
    var n := |merged| - 1;
    var out := merged + [r];
    forall i | 0 <= i < |merged| ensures merged[i].end < r.start {
      if i < n { assert merged[i].end < merged[n].start; }
    }
    forall offset: nat ensures Holds(out, offset) <==> Holds(merged, offset) || Contains(r, offset) {
      HoldsLast(merged, r, offset);
    }
  }

  // ------------------------------------------------------------ what is recorded is well formed

  /** Ranges that go forward and lie within the text. */
  predicate Within(ranges: seq<Range>, end: nat) {
    forall k | 0 <= k < |ranges| :: ranges[k].start < ranges[k].end <= end
  }

  lemma WithinJoin(a: seq<Range>, b: seq<Range>, end: nat)
    requires Within(a, end) && Within(b, end)
    ensures Within(a + b, end)
  {
  }

  lemma {:induction false} FenceWithin(lines: seq<Line>, start: nat, end: nat)
    requires Tiles(lines, start, end)
    ensures Within(FenceRanges(lines), end) && start <= end
  {
    if lines != [] {
      FenceWithin(lines[1..], lines[0].end, end);
      WithinJoin(if lines[0].fenced then [Range(lines[0].start, lines[0].end)] else [], FenceRanges(lines[1..]), end);
    }
  }

  /** A line whose text lies within it. */
  predicate Fits(l: Line) { l.start + |l.text| <= l.end }

  lemma {:induction false} ScanWithin(l: Line, offset: nat, inline: Option<Inline>)
    requires offset <= |l.text| && Fits(l) && (inline.Some? ==> inline.value.start < l.start + offset)
    ensures var s := ScanLine(l, offset, inline);
      Within(s.ranges, l.end) && (s.inline.Some? ==> s.inline.value.start < l.end)
    decreases |l.text| - offset
  {
    if offset < |l.text| {
      if l.text[offset] != TICK || Backslashes(l.text, offset) % 2 == 1 {
        ScanWithin(l, offset + 1, inline);
      } else {
        RunAdvances(l.text, offset);
        var end := RunEnd(l.text, offset, TICK);
        if inline.None? {
          ScanWithin(l, end, Some(Inline(l.start + offset, end - offset)));
        } else if inline.value.width == end - offset {
          ScanWithin(l, end, None);
          WithinJoin([Range(inline.value.start, l.start + end)], ScanLine(l, end, None).ranges, l.end);
        } else {
          ScanWithin(l, end, inline);
        }
      }
    }
  }

  lemma {:induction false} InlineWithin(lines: seq<Line>, inline: Option<Inline>, start: nat, end: nat)
    requires Tiles(lines, start, end) && (forall k :: 0 <= k < |lines| ==> Fits(lines[k]))
    requires inline.Some? ==> inline.value.start < start
    ensures Within(InlineRanges(lines, inline, end), end)
    decreases |lines|
  {
    FenceWithin(lines, start, end);
    if lines != [] {
      var l := lines[0];
      FenceWithin(lines[1..], l.end, end);
      if l.fenced {
        InlineWithin(lines[1..], None, l.end, end);
        WithinJoin(if inline.Some? then [Range(inline.value.start, l.start)] else [], InlineRanges(lines[1..], None, end), end);
      } else {
        var s := ScanLine(l, 0, inline);
        ScanWithin(l, 0, inline);
        InlineWithin(lines[1..], s.inline, l.end, end);
        WithinJoin(s.ranges, InlineRanges(lines[1..], s.inline, end), end);
      }
    }
  }

  lemma {:induction false} FencedTiles(lines: seq<Line>, fence: Option<Fence>, start: nat, end: nat)
    requires Tiles(lines, start, end)
    ensures Tiles(Fenced(lines, fence), start, end)
    decreases |lines|
  {
    hide Flagged, After;
    if lines != [] {
      var l, next := lines[0], After(lines[0], fence);
      FencedTiles(lines[1..], next, l.end, end);
      assert Fenced(lines, fence)[1..] == Fenced(lines[1..], next);
    }
  }

  lemma RecordedWithin(content: Text)
    ensures Within(Recorded(content), |content|)
  {
    hide LinesFrom, Fenced, FenceRanges, InlineRanges;
    var plain := LinesFrom(content, 0);
    LinesTile(content, 0);
    FencedTiles(plain, None, 0, |content|);
    var lines := Fenced(plain, None);
    forall k | 0 <= k < |lines| ensures Fits(lines[k]) { assert EndsAsLine(content, plain[k]); }
    FenceWithin(lines, 0, |content|);
    InlineWithin(lines, None, 0, |content|);
    WithinJoin(FenceRanges(lines), InlineRanges(lines, None, |content|), |content|);
  }

  // ------------------------------------------------------------ the index

  /** The object that markdownProtection returns. */
  class Index {
    const lines: seq<Line>
    const ranges: seq<Range>
    ghost const recorded: seq<Range>

    ghost predicate Valid() { Gapped(ranges) && forall offset: nat :: Holds(ranges, offset) == Holds(recorded, offset) }

    constructor (lines: seq<Line>, ranges: seq<Range>, ghost recorded: seq<Range>)
      requires Gapped(ranges) && forall offset: nat :: Holds(ranges, offset) == Holds(recorded, offset)
      ensures Valid() && this.lines == lines && this.recorded == recorded
    {
      this.lines, this.ranges, this.recorded := lines, ranges, recorded;
    }

    /** isProtected: a binary search that agrees with plain membership. */
    method IsProtected(offset: nat) returns (found: bool)
      requires Valid()
      ensures found == Holds(recorded, offset)
    {
      var low, high := 0, |ranges| - 1;
      while low <= high
        invariant 0 <= low <= high + 1 <= |ranges|
        invariant forall k :: 0 <= k < low ==> ranges[k].end <= offset
        invariant forall k :: high < k < |ranges| ==> offset < ranges[k].start
        decreases high - low
      {
        var middle := (low + high) / 2;
        var range := ranges[middle];
        if offset < range.start {
          forall k | middle <= k < |ranges| ensures offset < ranges[k].start {
            if middle < k { assert range.end < ranges[k].start; }
          }
          high := middle - 1;
        } else if offset >= range.end {
          forall k | 0 <= k <= middle ensures ranges[k].end <= offset {
            if k < middle { assert ranges[k].end < range.start; }
          }
          low := middle + 1;
        } else {
          assert Contains(ranges[middle], offset);
          return true;
        }
      }
      return false;
    }
  }

  /** The first pass of markdownProtection: flag the lines of fenced blocks. */
  method FlagFences(plain: seq<Line>) returns (lines: seq<Line>, ranges: seq<Range>)
    ensures lines == Fenced(plain, None) && ranges == FenceRanges(lines)
  {
    hide Opening, Closes, Unquoted, Fenced, FenceRanges;
    lines, ranges := [], [];
    NothingFenced();
    var fence: Option<Fence> := None;
    var k := 0;
    assert plain[0..] == plain;
    while k < |plain|
      invariant 0 <= k <= |plain|
      invariant lines + Fenced(plain[k..], fence) == Fenced(plain, None)
      invariant ranges == FenceRanges(lines)
    {
      var l := plain[k];
      ghost var was := lines;
      assert plain[k..][1..] == plain[k + 1..];
      FencedFirst(plain[k..], fence, lines);
      k := k + 1;
      if fence.Some? {
        if Unquoted(l.text, fence.value.depth).Some? {
          lines := lines + [l.(fenced := true)];
          ranges := ranges + [Range(l.start, l.end)];
          FenceLast(was, l.(fenced := true));
          if Closes(l.text, fence.value) { fence := None; }
          continue;
        }
        fence := None;
      }
      var opening := Opening(l.text);
      fence := opening;
      lines := lines + [l.(fenced := opening.Some?)];
      FenceLast(was, l.(fenced := opening.Some?));
      if opening.None? { continue; }
      ranges := ranges + [Range(l.start, l.end)];
    }
    assert lines + [] == lines;
  }

  lemma NothingFenced()
    ensures FenceRanges([]) == [] && forall fence :: Fenced([], fence) == []
  {
  }

  /** One line of the first pass, after those already flagged. */
  lemma FencedFirst(lines: seq<Line>, fence: Option<Fence>, done: seq<Line>)
    requires lines != []
    ensures var l := lines[0];
      done + Fenced(lines, fence) == done + [l.(fenced := Flagged(l, fence))] + Fenced(lines[1..], After(l, fence))
  {
    hide Flagged, After;
    var first, rest := [lines[0].(fenced := Flagged(lines[0], fence))], Fenced(lines[1..], After(lines[0], fence));
    assert done + (first + rest) == done + first + rest;
  }

  lemma FenceFirst(lines: seq<Line>)
    ensures FenceRanges(lines) ==
      if lines == [] then []
      else (if lines[0].fenced then [Range(lines[0].start, lines[0].end)] else []) + FenceRanges(lines[1..])
  {
  }

  lemma {:induction false} FenceLast(lines: seq<Line>, l: Line)
    ensures FenceRanges(lines + [l]) == FenceRanges(lines) + if l.fenced then [Range(l.start, l.end)] else []
  {
    hide FenceRanges;
    FenceFirst(lines);
    FenceFirst(lines + [l]);
    if lines == [] {
      FenceFirst([]);
      assert (lines + [l])[1..] == [];
    } else {
      assert (lines + [l])[1..] == lines[1..] + [l] && (lines + [l])[0] == lines[0];
      FenceLast(lines[1..], l);
    }
  }

  /** The runs of ticks of one line. */
  method ScanTicks(l: Line, open: Option<Inline>) returns (ranges: seq<Range>, inline: Option<Inline>)
    ensures Scanned(ranges, inline) == ScanLine(l, 0, open)
  {
    hide Backslashes;
    ranges, inline := [], open;
    var offset := 0;
    while offset < |l.text|
      invariant offset <= |l.text|
      invariant var rest := ScanLine(l, offset, inline); ScanLine(l, 0, open) == Scanned(ranges + rest.ranges, rest.inline)
      decreases |l.text| - offset
    {
      if l.text[offset] != TICK || Backslashes(l.text, offset) % 2 == 1 {
        offset := offset + 1;
        continue;
      }
      RunAdvances(l.text, offset);
      var end := RunEnd(l.text, offset, TICK);
      if inline.None? {
        inline := Some(Inline(l.start + offset, end - offset));
      } else if inline.value.width == end - offset {
        ghost var rest := ScanLine(l, end, None).ranges;
        assert ranges + ([Range(inline.value.start, l.start + end)] + rest) == ranges + [Range(inline.value.start, l.start + end)] + rest;
        ranges := ranges + [Range(inline.value.start, l.start + end)];
        inline := None;
      }
      offset := end;
    }
    assert ranges + [] == ranges;
  }

  /** The second pass: inline spans over the lines that no fence protects. */
  method CollectInline(lines: seq<Line>, end: nat) returns (ranges: seq<Range>)
    ensures ranges == InlineRanges(lines, None, end)
  {
    hide ScanLine, InlineRanges;
    ranges := [];
    var inline: Option<Inline> := None;
    var k := 0;
    assert lines[0..] == lines;
    while k < |lines|
      invariant 0 <= k <= |lines|
      invariant ranges + InlineRanges(lines[k..], inline, end) == InlineRanges(lines, None, end)
    {
      var l := lines[k];
      assert lines[k..][1..] == lines[k + 1..];
      InlineFirst(lines[k..], inline, end, ranges);
      k := k + 1;
      if l.fenced {
        if inline.Some? {
          ranges := ranges + [Range(inline.value.start, l.start)];
          inline := None;
        }
        continue;
      }
      var more, next := ScanTicks(l, inline);
      ranges := ranges + more;
      inline := next;
    }
    assert lines[k..] == [];
    InlineLast(inline, end);
    assert ranges + [] == ranges;
    if inline.Some? { ranges := ranges + [Range(inline.value.start, end)]; }
  }

  lemma InlineLast(inline: Option<Inline>, end: nat)
    ensures InlineRanges([], inline, end) == if inline.Some? then [Range(inline.value.start, end)] else []
  {
  }

  lemma AfterDone(done: seq<Range>, first: seq<Range>, rest: seq<Range>)
    ensures done + (first + rest) == done + first + rest && done + [] == done && [] + rest == rest
  {
  }

  /** One line of the second pass, after the ranges already found. */
  lemma InlineFirst(lines: seq<Line>, inline: Option<Inline>, end: nat, done: seq<Range>)
    requires lines != []
    ensures var l := lines[0];
      done + InlineRanges(lines, inline, end) ==
        if l.fenced then
          (if inline.Some? then done + [Range(inline.value.start, l.start)] else done) + InlineRanges(lines[1..], None, end)
        else done + ScanLine(l, 0, inline).ranges + InlineRanges(lines[1..], ScanLine(l, 0, inline).inline, end)
  {
    hide ScanLine;
    var l := lines[0];
    if l.fenced {
      var first, rest := if inline.Some? then [Range(inline.value.start, l.start)] else [], InlineRanges(lines[1..], None, end);
      AfterDone(done, first, rest);
      assert InlineRanges(lines, inline, end) == first + rest;
    } else {
      var s := ScanLine(l, 0, inline);
      var rest := InlineRanges(lines[1..], s.inline, end);
      assert done + (s.ranges + rest) == done + s.ranges + rest;
    }
  }

  /** markdownProtection: the index it returns answers exactly for the recorded ranges. */
  method MarkdownProtection(content: Text) returns (index: Index)
    ensures fresh(index) && index.Valid()
    ensures index.lines == Fenced(LinesFrom(content, 0), None) && index.recorded == Recorded(content)
  {
    hide LinesFrom, Fenced, FenceRanges, InlineRanges, Gapped, Holds;
    var plain := SourceLines(content);
    var lines, fences := FlagFences(plain);
    var spans := CollectInline(lines, |content|);
    RecordedWithin(content);
    var merged := MergedRanges(fences + spans);
    index := new Index(lines, merged, fences + spans);
  }
}
