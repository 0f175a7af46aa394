/** What src/lib/markdownProtection.ts records as code, said on the lines of the text: the
    fenced blocks, and the spans of ticks between them. */
module ProtectionSpans {
  import opened Basics
  import opened TextLines
  import opened Protection
  import opened ProtectionShape

  // ------------------------------------------------------------ blocks of lines

  datatype Block = Block(first: nat, last: nat, fence: Fence)

  /** Lines first to last - 1 are a fenced block: it opens on its first line, all later lines
      stay, none but its last closes it, and it ends there, or before a line that does not
      stay, or with the text. */
  ghost predicate IsBlock(lines: seq<Line>, b: Block) {
    && b.first < b.last <= |lines| && Opens(lines[b.first].text, b.fence)
    && (forall k :: b.first < k < b.last ==> Stays(lines[k].text, b.fence))
    && (forall k :: b.first < k < b.last - 1 ==> !ClosesBy(lines[k].text, b.fence))
    && (|| (b.last - 1 > b.first && ClosesBy(lines[b.last - 1].text, b.fence))
        || b.last == |lines| || !Stays(lines[b.last].text, b.fence))
  }

  predicate InBlock(blocks: seq<Block>, k: nat) { exists j :: 0 <= j < |blocks| && blocks[j].first <= k < blocks[j].last }

  /** The blocks from a line on, in their order, with every line that opens a fence outside
      the blocks before it. */
  ghost predicate Divides(lines: seq<Line>, from: nat, blocks: seq<Block>) {
    && (forall j :: 0 <= j < |blocks| ==> from <= blocks[j].first && IsBlock(lines, blocks[j]))
    && (forall j, j' :: 0 <= j < j' < |blocks| ==> blocks[j].last <= blocks[j'].first)
    && (forall k :: from <= k < |lines| && !InBlock(blocks, k) ==> forall f :: !Opens(lines[k].text, f))
  }

  /** The lines keep their places and texts, and those of the blocks are flagged. */
  ghost predicate Flags(plain: seq<Line>, blocks: seq<Block>, flagged: seq<Line>) {
    && |flagged| == |plain|
    && forall k :: 0 <= k < |plain| ==> flagged[k] == plain[k].(fenced := InBlock(blocks, k))
  }

  lemma GoesOnExactly(l: Line, f: Fence)
    ensures GoesOn(l, Some(f)) <==> Stays(l.text, f)
  {
    hide Dequotes, Unquoted;
    if Stays(l.text, f) {
      var rest :| Dequotes(l.text, f.depth, rest);
      DequotesExactly(l.text, f.depth, rest);
    }
    if GoesOn(l, Some(f)) { DequotesExactly(l.text, f.depth, Unquoted(l.text, f.depth).value); }
  }

  /** Whether the first pass flags line k when it goes on from line i. */
  function FlagAt(lines: seq<Line>, i: nat, fence: Option<Fence>, k: nat): bool
    requires i <= k < |lines|
  {
    Fenced(lines[i..], fence)[k - i].fenced
  }

  lemma FlagFirst(lines: seq<Line>, i: nat, fence: Option<Fence>)
    requires i < |lines|
    ensures FlagAt(lines, i, fence, i) == Flagged(lines[i], fence)
    ensures forall k :: i < k < |lines| ==> FlagAt(lines, i, fence, k) == FlagAt(lines, i + 1, After(lines[i], fence), k)
  {
    hide Flagged, After, Fenced;
    var next := After(lines[i], fence);
    assert lines[i..][0] == lines[i] && lines[i..][1..] == lines[i + 1..];
    FencedSplits(lines[i..], fence);
    var rest := Fenced(lines[i + 1..], next);
    forall k | i < k < |lines| ensures FlagAt(lines, i, fence, k) == FlagAt(lines, i + 1, next, k) {
      assert Fenced(lines[i..], fence)[k - i] == rest[k - i - 1];
    }
  }

  lemma FencedSplits(lines: seq<Line>, fence: Option<Fence>)
    requires lines != []
    ensures Fenced(lines, fence) == [lines[0].(fenced := Flagged(lines[0], fence))] + Fenced(lines[1..], After(lines[0], fence))
  {
    hide Flagged, After;
  }

  /** From within a block to its end. */
  lemma {:induction false} ToTheEnd(lines: seq<Line>, first: nat, i: nat, f: Fence) returns (last: nat)
    requires first < i <= |lines| && Opens(lines[first].text, f)
    requires forall k :: first < k < i ==> Stays(lines[k].text, f) && !ClosesBy(lines[k].text, f)
    ensures i <= last && IsBlock(lines, Block(first, last, f))
    ensures forall k :: i <= k < last ==> FlagAt(lines, i, Some(f), k)
    ensures forall k :: last <= k < |lines| ==> FlagAt(lines, i, Some(f), k) == FlagAt(lines, last, None, k)
    decreases |lines| - i
  {
    hide Opens, Stays, ClosesBy, FlagAt, Closes, Opening, Unquoted;
    last := i;
    if i < |lines| {
      var l := lines[i];
      GoesOnExactly(l, f);
      ClosesExactly(l.text, f);
      FlagFirst(lines, i, Some(f));
      if !Stays(l.text, f) {
        FlagFirst(lines, i, None);
      } else if ClosesBy(l.text, f) {
        last := i + 1;
      } else {
        last := ToTheEnd(lines, first, i + 1, f);
      }
    }
  }

  lemma {:induction false} Division(lines: seq<Line>, i: nat) returns (blocks: seq<Block>)
    requires i <= |lines|
    ensures Divides(lines, i, blocks)
    ensures forall k :: i <= k < |lines| ==> (FlagAt(lines, i, None, k) <==> InBlock(blocks, k))
    decreases |lines| - i
  {
    hide Opens, IsBlock, FlagAt, Opening, Unquoted;
    blocks := [];
    if i < |lines| {
      var l := lines[i];
      FlagFirst(lines, i, None);
      if Opening(l.text).Some? {
        var f := Opening(l.text).value;
        OpeningExactly(l.text, f);
        var last := ToTheEnd(lines, i, i + 1, f);
        var b := Block(i, last, f);
        BlockGoes(lines, b);
        var rest := Division(lines, last);
        blocks := [b] + rest;
        BlockAdded(lines, b, rest);
      } else {
        forall f ensures !Opens(l.text, f) { OpeningExactly(l.text, f); }
        blocks := Division(lines, i + 1);
      }
    }
  }

  lemma BlockGoes(lines: seq<Line>, b: Block)
    requires IsBlock(lines, b)
    ensures b.first < b.last <= |lines|
  {
  }

  lemma BlockAdded(lines: seq<Line>, b: Block, rest: seq<Block>)
    requires IsBlock(lines, b) && Divides(lines, b.last, rest)
    ensures Divides(lines, b.first, [b] + rest)
    ensures forall k: nat :: InBlock([b] + rest, k) <==> b.first <= k < b.last || InBlock(rest, k)
  {
    hide Opens, Stays, ClosesBy;
    var all := [b] + rest;
    forall k: nat | InBlock(rest, k) ensures InBlock(all, k) {
      var j :| 0 <= j < |rest| && rest[j].first <= k < rest[j].last;
      assert all[j + 1] == rest[j];
    }
    forall k: nat | b.first <= k < b.last ensures InBlock(all, k) { assert all[0] == b; }
  }

  /** The first pass flags exactly the lines of the fenced blocks. */
  lemma FencedExactly(lines: seq<Line>)
    ensures exists blocks :: Divides(lines, 0, blocks) && Flags(lines, blocks, Fenced(lines, None))
  {
    hide Divides, InBlock, Fenced;
    var blocks := Division(lines, 0);
    assert lines[0..] == lines;
    var r := Fenced(lines, None);
    forall k | 0 <= k < |lines| ensures r[k] == lines[k].(fenced := InBlock(blocks, k)) {
      assert r[k] == lines[k].(fenced := FlagAt(lines, 0, None, k));
    }
    assert Flags(lines, blocks, r);
  }

  // ------------------------------------------------------------ spans of ticks

  const BACKSLASH: nat := 92

  /** An odd number of backslashes stands directly before i. */
  predicate Escaped(text: Text, i: nat)
    requires i <= |text|
  {
    exists n: nat | n <= i :: n % 2 == 1 && All(text, i - n, i, BACKSLASH) && (n == i || text[i - n - 1] != BACKSLASH)
  }

  /** text[a..b] is a whole run of ticks of which the first is not escaped. */
  predicate TickRun(text: Text, a: nat, b: nat) {
    && a < b <= |text| && All(text, a, b, TICK) && !Escaped(text, a)
    && (b == |text| || text[b] != TICK)
    && (a == 0 || text[a - 1] != TICK || Escaped(text, a - 1))
  }

  predicate RunIn(l: Line, a: nat, b: nat) { !l.fenced && l.start <= a && l.start <= b && TickRun(l.text, a - l.start, b - l.start) }

  /** A run of ticks outside the fenced lines, at the offsets a to b of the content. */
  predicate RunAt(lines: seq<Line>, a: nat, b: nat) { exists k :: 0 <= k < |lines| && RunIn(lines[k], a, b) }

  predicate FenceAt(lines: seq<Line>, p: nat) { exists k :: 0 <= k < |lines| && lines[k].fenced && lines[k].start == p }

  /** No run of w ticks begins between the two offsets. */
  ghost predicate NoRun(lines: seq<Line>, from: nat, to: int, w: nat) {
    forall x: nat, y: nat :: from < x < to && RunAt(lines, x, y) ==> y - x != w
  }

  /** A span begins at a run of w ticks and has no fenced line in it. It ends at the end of
      the next run of w ticks, or, when no such run comes first, where the next fenced line
      begins or the content ends. */
  ghost predicate SpanOf(lines: seq<Line>, end: nat, r: Range, w: nat) {
    && RunAt(lines, r.start, r.start + w) && r.start + w <= r.end
    && (forall p: nat :: r.start < p < r.end ==> !FenceAt(lines, p))
    && if r.start + w <= r.end - w && RunAt(lines, r.end - w, r.end)
       then NoRun(lines, r.start, r.end - w, w)
       else (r.end == end || FenceAt(lines, r.end)) && NoRun(lines, r.start, r.end, w)
  }

  ghost predicate IsSpan(lines: seq<Line>, end: nat, r: Range) { exists w: nat :: SpanOf(lines, end, r, w) }

  predicate InSpan(spans: seq<Range>, a: nat, b: nat) { exists j :: 0 <= j < |spans| && spans[j].start <= a && b <= spans[j].end }

  /** The spans one after another, with every run of ticks in one of them. */
  ghost predicate Spans(lines: seq<Line>, end: nat, spans: seq<Range>) {
    && SpanList(lines, end, spans)
    && forall a: nat, b: nat :: RunAt(lines, a, b) ==> InSpan(spans, a, b)
  }

  ghost predicate SpanList(lines: seq<Line>, end: nat, spans: seq<Range>) {
    && (forall j :: 0 <= j < |spans| ==> IsSpan(lines, end, spans[j]))
    && forall j, j' :: 0 <= j < j' < |spans| ==> spans[j].end <= spans[j'].start
  }

  // ------------------------------------------------------------ the second pass

  lemma {:induction false} BackslashesAll(text: Text, i: nat)
    requires i <= |text|
    ensures var n := Backslashes(text, i);
      n <= i && All(text, i - n, i, BACKSLASH) && (n == i || text[i - n - 1] != BACKSLASH)
  {
    if i > 0 && text[i - 1] == BACKSLASH { BackslashesAll(text, i - 1); }
  }

  lemma OneCount(text: Text, i: nat, m: nat, n: nat)
    requires m <= i <= |text| && All(text, i - m, i, BACKSLASH) && (m == i || text[i - m - 1] != BACKSLASH)
    requires n <= i && All(text, i - n, i, BACKSLASH) && (n == i || text[i - n - 1] != BACKSLASH)
    ensures m == n
  {
  }

  lemma EscapedExactly(text: Text, i: nat)
    requires i <= |text|
    ensures Escaped(text, i) <==> Backslashes(text, i) % 2 == 1
  {
    hide Backslashes;
    var n := Backslashes(text, i);
    BackslashesAll(text, i);
    if Escaped(text, i) {
      var m: nat :| m <= i && m % 2 == 1 && All(text, i - m, i, BACKSLASH) && (m == i || text[i - m - 1] != BACKSLASH);
      OneCount(text, i, m, n);
    }
  }

  predicate Ordered(lines: seq<Line>) {
    && (forall k :: 0 <= k < |lines| ==> lines[k].start < lines[k].end && Fits(lines[k]))
    && forall k, k' :: 0 <= k < k' < |lines| ==> lines[k].end <= lines[k'].start
  }

  /** What has been found up to p: spans, then an open one, and every run before p in them. */
  ghost predicate Done(lines: seq<Line>, end: nat, spans: seq<Range>, inline: Option<Inline>, p: nat) {
    && SpanList(lines, end, spans)
    && (forall j :: 0 <= j < |spans| ==> spans[j].end <= p)
    && (inline.Some? ==> OpenSpan(lines, spans, inline.value, p))
    && (forall a: nat, b: nat :: RunAt(lines, a, b) && a < p ==> b <= p)
    && (forall a: nat, b: nat :: RunAt(lines, a, b) && a < p ==> InSpan(spans, a, b) || (inline.Some? && inline.value.start <= a))
  }

  ghost predicate OpenSpan(lines: seq<Line>, spans: seq<Range>, i: Inline, p: nat) {
    && RunAt(lines, i.start, i.start + i.width) && i.start + i.width <= p
    && (forall j :: 0 <= j < |spans| ==> spans[j].end <= i.start)
    && (forall q: nat :: i.start < q < p ==> !FenceAt(lines, q))
    && NoRun(lines, i.start, p, i.width)
  }

  lemma RunGoes(lines: seq<Line>, a: nat, b: nat)
    requires RunAt(lines, a, b)
    ensures a < b
  {
  }

  lemma Skipped(lines: seq<Line>, end: nat, spans: seq<Range>, inline: Option<Inline>, p: nat, p': nat)
    requires Done(lines, end, spans, inline, p) && p <= p'
    requires forall a: nat, b: nat :: p <= a < p' ==> !RunAt(lines, a, b)
    requires inline.Some? ==> forall q: nat :: p <= q < p' ==> !FenceAt(lines, q)
    ensures Done(lines, end, spans, inline, p')
  {
    hide RunAt, FenceAt, IsSpan, InSpan;
  }

  /** The only run that begins at p or before p' ends there. */
  ghost predicate NextRun(lines: seq<Line>, p: nat, p': nat) {
    && p < p' && RunAt(lines, p, p')
    && (forall a: nat, b: nat :: p <= a < p' && RunAt(lines, a, b) ==> a == p && b == p')
    && (forall q: nat :: p <= q < p' ==> !FenceAt(lines, q))
  }

  lemma Opened(lines: seq<Line>, end: nat, spans: seq<Range>, p: nat, p': nat)
    requires Done(lines, end, spans, None, p) && NextRun(lines, p, p')
    ensures Done(lines, end, spans, Some(Inline(p, p' - p)), p')
  {
    hide RunAt, FenceAt, IsSpan, InSpan;
  }

  lemma Passed(lines: seq<Line>, end: nat, spans: seq<Range>, i: Inline, p: nat, p': nat)
    requires Done(lines, end, spans, Some(i), p) && NextRun(lines, p, p') && i.width != p' - p
    ensures Done(lines, end, spans, Some(i), p')
  {
    hide RunAt, FenceAt, IsSpan, InSpan;
  }

  lemma Closed(lines: seq<Line>, end: nat, spans: seq<Range>, i: Inline, p: nat, p': nat)
    requires Done(lines, end, spans, Some(i), p) && NextRun(lines, p, p') && i.width == p' - p
    ensures Done(lines, end, spans + [Range(i.start, p')], None, p')
  {
    hide RunAt, FenceAt, IsSpan, InSpan;
    var r := Range(i.start, p');
    assert SpanOf(lines, end, r, i.width);
    SpanAdded(lines, end, spans, r, p');
  }

  /** A fenced line or the end of the content closes an open span. */
  lemma CutOff(lines: seq<Line>, end: nat, spans: seq<Range>, i: Inline, p: nat)
    requires Done(lines, end, spans, Some(i), p) && (p == end || FenceAt(lines, p))
    ensures Done(lines, end, spans + [Range(i.start, p)], None, p)
  {
    hide RunAt, FenceAt, IsSpan, InSpan;
    var r := Range(i.start, p);
    RunGoes(lines, i.start, i.start + i.width);
    assert SpanOf(lines, end, r, i.width);
    SpanAdded(lines, end, spans, r, p);
  }

  lemma SpanAdded(lines: seq<Line>, end: nat, spans: seq<Range>, r: Range, p: nat)
    requires SpanList(lines, end, spans) && (exists w: nat :: SpanOf(lines, end, r, w)) && r.end == p
    requires forall j :: 0 <= j < |spans| ==> spans[j].end <= r.start
    ensures SpanList(lines, end, spans + [r])
    ensures forall a: nat, b: nat :: InSpan(spans, a, b) || (r.start <= a && b <= p) ==> InSpan(spans + [r], a, b)
  {
    hide RunAt, FenceAt, SpanOf;
    var all := spans + [r];
    forall a: nat, b: nat | InSpan(spans, a, b) || (r.start <= a && b <= p) ensures InSpan(all, a, b) {
      if InSpan(spans, a, b) {
        var j :| 0 <= j < |spans| && spans[j].start <= a && b <= spans[j].end;
        assert all[j] == spans[j];
      } else {
        assert all[|spans|] == r;
      }
    }
  }

  lemma OneLine(lines: seq<Line>, j: nat, k: nat, p: nat)
    requires Ordered(lines) && j < |lines| && k < |lines|
    requires lines[j].start <= p < lines[j].end && lines[k].start <= p < lines[k].end
    ensures j == k
  {
  }

  /** A run that begins within a line is of that line. */
  lemma RunsOfLine(lines: seq<Line>, k: nat, a: nat, b: nat)
    requires Ordered(lines) && k < |lines| && lines[k].start <= a < lines[k].end
    ensures RunAt(lines, a, b) <==> RunIn(lines[k], a, b)
  {
    hide TickRun;
    if RunAt(lines, a, b) {
      var j :| 0 <= j < |lines| && RunIn(lines[j], a, b);
      RunWithin(lines[j], a, b);
      assert Fits(lines[j]);
      OneLine(lines, j, k, a);
    }
  }

  lemma RunWithin(l: Line, a: nat, b: nat)
    requires RunIn(l, a, b)
    ensures l.start <= a < b <= l.start + |l.text|
  {
  }

  lemma NoFenceWithin(lines: seq<Line>, k: nat, q: nat)
    requires Ordered(lines) && k < |lines| && lines[k].start <= q < lines[k].end
    ensures FenceAt(lines, q) <==> lines[k].fenced && q == lines[k].start
  {
    if FenceAt(lines, q) {
      var j :| 0 <= j < |lines| && lines[j].fenced && lines[j].start == q;
      OneLine(lines, j, k, q);
    }
  }

  /** Where the scan of a line stands: never inside a run. */
  predicate Clear(text: Text, i: nat) {
    i <= |text| && (i == 0 || i == |text| || text[i - 1] != TICK || text[i] != TICK || Escaped(text, i - 1))
  }

  /** The run that the scan finds at an offset. */
  lemma RunFound(text: Text, i: nat)
    requires i < |text| && Clear(text, i) && text[i] == TICK && !Escaped(text, i)
    ensures var e := RunEnd(text, i, TICK);
      && TickRun(text, i, e) && Clear(text, e)
      && forall a: nat, b: nat :: i <= a < e && TickRun(text, a, b) ==> a == i && b == e
  {
    hide RunEnd, Escaped;
    RunAdvances(text, i);
    RunEndAll(text, i, TICK);
    var e := RunEnd(text, i, TICK);
    forall a: nat, b: nat | i <= a < e && TickRun(text, a, b) ensures a == i && b == e {
      if i < a {
        assert text[a - 1] == TICK;
        NotEscaped(text, i, a - 1);
      }
    }
  }

  lemma AfterBackslash(text: Text, k: nat)
    requires k <= |text|
    ensures Escaped(text, k) ==> k > 0 && text[k - 1] == BACKSLASH
  {
  }

  /** Behind a tick of an unescaped run no tick is escaped. */
  lemma NotEscaped(text: Text, i: nat, k: nat)
    requires i <= k < |text| && !Escaped(text, i) && All(text, i, k, TICK)
    ensures !Escaped(text, k)
  {
    hide Escaped;
    AfterBackslash(text, k);
    assert i < k ==> text[k - 1] == TICK;
  }

  lemma NextInLine(lines: seq<Line>, k: nat, offset: nat)
    requires Ordered(lines) && k < |lines| && !lines[k].fenced
    requires var t := lines[k].text; offset < |t| && Clear(t, offset) && t[offset] == TICK && !Escaped(t, offset)
    ensures var e := RunEnd(lines[k].text, offset, TICK);
      e <= |lines[k].text| && Clear(lines[k].text, e) && NextRun(lines, lines[k].start + offset, lines[k].start + e)
  {
    hide TickRun, Clear, RunEnd, RunAt, FenceAt, Escaped;
    var l, e := lines[k], RunEnd(lines[k].text, offset, TICK);
    RunAdvances(l.text, offset);
    RunFound(l.text, offset);
    var p, p' := l.start + offset, l.start + e;
    assert Fits(l);
    RunsOfLine(lines, k, p, p');
    forall a: nat, b: nat | p <= a < p' && RunAt(lines, a, b) ensures a == p && b == p' {
      RunsOfLine(lines, k, a, b);
      assert TickRun(l.text, a - l.start, b - l.start);
    }
    forall q: nat | p <= q < p' ensures !FenceAt(lines, q) { NoFenceWithin(lines, k, q); }
  }

  lemma NoRunHere(lines: seq<Line>, k: nat, p: nat, p': nat)
    requires Ordered(lines) && k < |lines| && lines[k].start <= p <= p' <= lines[k].end
    requires forall a: nat, b: nat :: p <= a < p' ==> !RunIn(lines[k], a, b)
    ensures forall a: nat, b: nat :: p <= a < p' ==> !RunAt(lines, a, b)
    ensures !lines[k].fenced ==> forall q: nat :: p <= q < p' ==> !FenceAt(lines, q)
  {
    hide RunAt, FenceAt, RunIn;
    forall a: nat, b: nat | p <= a < p' ensures !RunAt(lines, a, b) { RunsOfLine(lines, k, a, b); }
    if !lines[k].fenced { forall q: nat | p <= q < p' ensures !FenceAt(lines, q) { NoFenceWithin(lines, k, q); } }
  }

  lemma {:induction false} ScanKeeps(lines: seq<Line>, end: nat, k: nat, offset: nat, spans: seq<Range>, inline: Option<Inline>)
    requires Ordered(lines) && k < |lines| && !lines[k].fenced && Clear(lines[k].text, offset)
    requires Done(lines, end, spans, inline, lines[k].start + offset)
    ensures var s := ScanLine(lines[k], offset, inline);
      Done(lines, end, spans + s.ranges, s.inline, lines[k].start + |lines[k].text|)
    decreases |lines[k].text| - offset
  {
    hide Done, NextRun, RunIn, Escaped, Backslashes;
    var l := lines[k];
    var p := l.start + offset;
    assert spans + [] == spans;
    if offset < |l.text| {
      EscapedExactly(l.text, offset);
      if l.text[offset] != TICK || Escaped(l.text, offset) {
        NotARun(lines, k, offset);
        Skipped(lines, end, spans, inline, p, p + 1);
        ScanKeeps(lines, end, k, offset + 1, spans, inline);
      } else {
        RunAdvances(l.text, offset);
        NextInLine(lines, k, offset);
        var e := RunEnd(l.text, offset, TICK);
        var p' := l.start + e;
        match inline
        case None =>
          Opened(lines, end, spans, p, p');
          ScanKeeps(lines, end, k, e, spans, Some(Inline(p, e - offset)));
        case Some(i) =>
          if i.width == e - offset {
            Closed(lines, end, spans, i, p, p');
            var r := Range(i.start, p');
            ScanKeeps(lines, end, k, e, spans + [r], None);
            assert spans + ([r] + ScanLine(l, e, None).ranges) == spans + [r] + ScanLine(l, e, None).ranges;
          } else {
            Passed(lines, end, spans, i, p, p');
            ScanKeeps(lines, end, k, e, spans, inline);
          }
      }
    }
  }

  lemma NotARun(lines: seq<Line>, k: nat, offset: nat)
    requires Ordered(lines) && k < |lines| && !lines[k].fenced && Clear(lines[k].text, offset)
    requires var t := lines[k].text; offset < |t| && (t[offset] != TICK || Escaped(t, offset))
    ensures var p := lines[k].start + offset;
      && Clear(lines[k].text, offset + 1)
      && (forall a: nat, b: nat :: p <= a < p + 1 ==> !RunAt(lines, a, b))
      && (forall q: nat :: p <= q < p + 1 ==> !FenceAt(lines, q))
  {
    hide RunAt, FenceAt, Escaped;
    var l := lines[k];
    assert Fits(l);
    NoRunHere(lines, k, l.start + offset, l.start + offset + 1);
  }

  lemma {:induction false} InlineKeeps(lines: seq<Line>, end: nat, k: nat, p: nat, spans: seq<Range>, inline: Option<Inline>)
    requires Ordered(lines) && k <= |lines| && Tiles(lines[k..], p, end)
    requires Done(lines, end, spans, inline, p)
    ensures Done(lines, end, spans + InlineRanges(lines[k..], inline, end), None, end)
    decreases |lines| - k
  {
    hide Done, ScanLine, InlineRanges, Ordered, RunAt, FenceAt, RunIn, Clear;
    var rest := lines[k..];
    assert spans + [] == spans;
    if k == |lines| {
      InlineLast(inline, end);
      if inline.Some? { CutOff(lines, end, spans, inline.value, end); }
    } else {
      var l := lines[k];
      assert rest[0] == l && rest[1..] == lines[k + 1..];
      InlineFirst(rest, inline, end, spans);
      if l.fenced {
        FencedLine(lines, k);
        var cut := if inline.Some? then spans + [Range(inline.value.start, p)] else spans;
        if inline.Some? { CutOff(lines, end, spans, inline.value, p); }
        Skipped(lines, end, cut, None, p, l.end);
        InlineKeeps(lines, end, k + 1, l.end, cut, None);
      } else {
        var s := ScanLine(l, 0, inline);
        ClearFirst(l.text);
        ScanKeeps(lines, end, k, 0, spans, inline);
        LineEnding(lines, k);
        Skipped(lines, end, spans + s.ranges, s.inline, l.start + |l.text|, l.end);
        InlineKeeps(lines, end, k + 1, l.end, spans + s.ranges, s.inline);
      }
    }
  }

  lemma ClearFirst(text: Text)
    ensures Clear(text, 0)
  {
  }

  lemma FencedLine(lines: seq<Line>, k: nat)
    requires Ordered(lines) && k < |lines| && lines[k].fenced
    ensures FenceAt(lines, lines[k].start) && lines[k].start <= lines[k].end
    ensures forall a: nat, b: nat :: lines[k].start <= a < lines[k].end ==> !RunAt(lines, a, b)
  {
    hide RunAt;
    NoRunHere(lines, k, lines[k].start, lines[k].end);
  }

  lemma LineEnding(lines: seq<Line>, k: nat)
    requires Ordered(lines) && k < |lines| && !lines[k].fenced
    ensures var p := lines[k].start + |lines[k].text|;
      && p <= lines[k].end
      && (forall a: nat, b: nat :: p <= a < lines[k].end ==> !RunAt(lines, a, b))
      && (forall q: nat :: p <= q < lines[k].end ==> !FenceAt(lines, q))
  {
    hide RunAt, FenceAt;
    assert Fits(lines[k]);
    NoRunHere(lines, k, lines[k].start + |lines[k].text|, lines[k].end);
  }

  lemma {:induction false} TilesOrdered(lines: seq<Line>, start: nat, end: nat)
    requires Tiles(lines, start, end) && forall k :: 0 <= k < |lines| ==> Fits(lines[k])
    ensures Ordered(lines) && start <= end && forall k :: 0 <= k < |lines| ==> start <= lines[k].start < end
    decreases |lines|
  {
    if lines != [] {
      var rest := lines[1..];
      TilesOrdered(rest, lines[0].end, end);
      forall k, k' | 0 <= k < k' < |lines| ensures lines[k].end <= lines[k'].start {
        assert lines[k'] == rest[k' - 1];
        if k > 0 { assert lines[k] == rest[k - 1]; }
      }
      forall k | 0 <= k < |lines| ensures start <= lines[k].start < lines[k].end && Fits(lines[k]) && lines[k].start < end {
        if k > 0 { assert lines[k] == rest[k - 1]; }
      }
    }
  }

  /** The second pass finds exactly the spans of ticks outside the fenced lines. */
  lemma InlineExactly(lines: seq<Line>, end: nat)
    requires Tiles(lines, 0, end) && forall k :: 0 <= k < |lines| ==> Fits(lines[k])
    ensures Spans(lines, end, InlineRanges(lines, None, end))
  {
    hide Tiles, RunAt, IsSpan, InSpan, InlineRanges, Ordered, Fits;
    TilesOrdered(lines, 0, end);
    assert lines[0..] == lines;
    Begin(lines, end);
    InlineKeeps(lines, end, 0, 0, [], None);
    var spans := InlineRanges(lines, None, end);
    assert [] + spans == spans;
    forall a: nat, b: nat | RunAt(lines, a, b) ensures InSpan(spans, a, b) { RunBefore(lines, a, b, end); }
  }

  lemma Begin(lines: seq<Line>, end: nat)
    ensures Done(lines, end, [], None, 0)
  {
  }

  lemma RunBefore(lines: seq<Line>, a: nat, b: nat, end: nat)
    requires RunAt(lines, a, b) && Tiles(lines, 0, end) && forall k :: 0 <= k < |lines| ==> Fits(lines[k])
    ensures a < end
  {
    hide RunIn;
    var k :| 0 <= k < |lines| && RunIn(lines[k], a, b);
    RunWithin(lines[k], a, b);
    TilesWithin(lines, 0, end, k);
    assert Fits(lines[k]);
  }

  lemma {:induction false} TilesWithin(lines: seq<Line>, start: nat, end: nat, k: nat)
    requires Tiles(lines, start, end) && k < |lines|
    ensures lines[k].end <= end
    decreases |lines|
  {
    if k > 0 {
      TilesWithin(lines[1..], lines[0].end, end, k - 1);
    } else {
      FenceWithin(lines[1..], lines[0].end, end);
    }
  }

  // ------------------------------------------------------------ what is recorded

  /** The lines of a text: they tile it, their texts leave out nothing but line endings. */
  predicate AreLines(content: Text, lines: seq<Line>) {
    && Tiles(lines, 0, |content|)
    && forall k :: 0 <= k < |lines| ==>
      lines[k].start <= lines[k].end <= |content| && EndsAsLine(content, lines[k])
  }

  /** The ranges of the flagged lines, in their order. */
  ghost predicate LineRanges(lines: seq<Line>, ranges: seq<Range>) {
    && (forall r :: r in ranges <==> exists k :: 0 <= k < |lines| && lines[k].fenced && r == Range(lines[k].start, lines[k].end))
    && forall j, j' :: 0 <= j < j' < |ranges| ==> ranges[j].end <= ranges[j'].start
  }

  lemma {:induction false} FencesExactly(lines: seq<Line>, start: nat, end: nat)
    requires Tiles(lines, start, end)
    ensures LineRanges(lines, FenceRanges(lines)) && forall j :: 0 <= j < |FenceRanges(lines)| ==> start <= FenceRanges(lines)[j].start
    decreases |lines|
  {
    hide FenceRanges;
    FenceFirst(lines);
    if lines != [] {
      var l, rest := lines[0], lines[1..];
      FencesExactly(rest, l.end, end);
      var r := Range(l.start, l.end);
      var here := if l.fenced then [r] else [];
      var all := here + FenceRanges(rest);
      assert forall k :: 1 <= k < |lines| ==> lines[k] == rest[k - 1];
      forall q ensures q in all <==> exists k :: 0 <= k < |lines| && lines[k].fenced && q == Range(lines[k].start, lines[k].end) {
        if q in FenceRanges(rest) {
          var k :| 0 <= k < |rest| && rest[k].fenced && q == Range(rest[k].start, rest[k].end);
          assert lines[k + 1].fenced;
        }
        if q in here { assert lines[0].fenced; }
        if exists k :: 0 <= k < |lines| && lines[k].fenced && q == Range(lines[k].start, lines[k].end) {
          var k :| 0 <= k < |lines| && lines[k].fenced && q == Range(lines[k].start, lines[k].end);
          if k > 0 { assert rest[k - 1].fenced; }
        }
      }
    }
  }

  /** The recorded ranges are the lines of the fenced blocks and the spans of ticks between them. */
  lemma RecordedExactly(content: Text)
    ensures exists plain, blocks, lines, fences, spans ::
      && AreLines(content, plain) && Divides(plain, 0, blocks) && Flags(plain, blocks, lines)
      && LineRanges(lines, fences) && Spans(lines, |content|, spans)
      && Recorded(content) == fences + spans
  {
    hide LinesFrom, Fenced, FenceRanges, InlineRanges, Tiles, Divides, Flags, Spans, LineRanges;
    var plain := LinesFrom(content, 0);
    LinesTile(content, 0);
    assert AreLines(content, plain);
    FencedExactly(plain);
    var lines := Fenced(plain, None);
    var blocks :| Divides(plain, 0, blocks) && Flags(plain, blocks, lines);
    FencedTiles(plain, None, 0, |content|);
    forall k | 0 <= k < |lines| ensures Fits(lines[k]) { assert EndsAsLine(content, plain[k]); }
    FencesExactly(lines, 0, |content|);
    InlineExactly(lines, |content|);
  }
}
