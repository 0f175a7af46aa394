/** The printers of src/lib/attachInput.ts, and the round trips with its parser. */
module AttachFold {
  import opened Basics
  import opened TextLines
  import opened FitText
  import opened Attach

  // ------------------------------------------------------------ fences

  function Repeat(c: nat, n: nat): (t: Text)
    ensures |t| == n && forall k :: 0 <= k < n ==> t[k] == c
  {
    if n == 0 then [] else [c] + Repeat(c, n - 1)
  }

  function Max(a: nat, b: nat): nat { if a < b then b else a }

  /** The longest run of ticks. */
  function Longest(t: Text): nat { if t == [] then 0 else Max(Ticks(t), Longest(t[1..])) }

  /** fenceFor: longer than any run of ticks in the text. */
  function FenceFor(t: Text): Text { Repeat(TICK, Max(3, Longest(t) + 1)) }

  lemma {:induction false} TicksAt(t: Text, i: nat)
    requires i <= |t|
    ensures Ticks(t[i..]) <= Longest(t)
  {
    if i < |t| {
      if i > 0 {
        TicksAt(t[1..], i - 1);
        assert t[1..][i - 1..] == t[i..];
      } else {
        assert t[0..] == t;
      }
    }
  }

  lemma {:induction false} TicksOfPrefix(t: Text, n: nat)
    requires n <= |t|
    ensures Ticks(t[..n]) <= Ticks(t)
  {
    if n > 0 && t[0] == TICK {
      TicksOfPrefix(t[1..], n - 1);
      assert t[..n][1..] == t[1..][..n - 1];
    }
  }

  lemma {:induction false} LongestOfSuffix(t: Text, i: nat)
    requires i <= |t|
    ensures Longest(t[i..]) <= Longest(t)
  {
    if i > 0 {
      LongestOfSuffix(t[1..], i - 1);
      assert t[1..][i - 1..] == t[i..];
    } else {
      assert t[0..] == t;
    }
  }

  /** No line of the text is as long a fence as the one around it. */
  lemma {:induction false} FenceHolds(t: Text, k: nat)
    requires k < |Lines(t)|
    ensures FenceRun(Lines(t)[k]) <= Longest(t)
    decreases |t|
  {
    hide IndexOf;
    var i := IndexOf(t, LINE_FEED);
    if i == |t| || k == 0 {
      TicksAt(t, 0);
      assert t[0..] == t;
      TicksOfPrefix(t, i);
      assert t[..|t|] == t;
    } else {
      LongestOfSuffix(t, i + 1);
      FenceHolds(t[i + 1..], k - 1);
    }
  }

  lemma FenceIsFence(t: Text)
    ensures FenceRun(FenceFor(t)) == |FenceFor(t)| == Max(3, Longest(t) + 1)
    ensures LINE_FEED !in FenceFor(t)
  {
    hide Longest;
    var f := FenceFor(t);
    AllTicks(f);
    assert f[|f|..] == [];
  }

  lemma {:induction false} AllTicks(f: Text)
    requires forall k :: 0 <= k < |f| ==> f[k] == TICK
    ensures Ticks(f) == |f|
  {
    if f != [] { AllTicks(f[1..]); }
  }

  // ------------------------------------------------------------ one folded part

  /** A labelled part: its label line and the body. */
  datatype Part = Part(mark: Text, body: Text)

  predicate PartOk(p: Part) { LINE_FEED !in p.mark && LabelOf(p.mark).Some? }

  function PartText(p: Part): Text {
    p.mark + [LINE_FEED] + FenceFor(p.body) + [LINE_FEED] + p.body + [LINE_FEED] + FenceFor(p.body)
  }

  function PartLines(p: Part): (lines: seq<Text>)
    ensures |lines| == |Lines(p.body)| + 3
  {
    [p.mark, FenceFor(p.body)] + Lines(p.body) + [FenceFor(p.body)]
  }

  lemma PartTextLines(p: Part)
    requires LINE_FEED !in p.mark
    ensures Join(PartLines(p)) == PartText(p) && FeedFree(PartLines(p))
  {
    hide Lines, FenceFor;
    var fence := FenceFor(p.body);
    FenceIsFence(p.body);
    JoinLines(p.body);
    JoinConcat([p.mark], [fence]);
    JoinConcat([p.mark] + [fence], Lines(p.body));
    JoinConcat([p.mark] + [fence] + Lines(p.body), [fence]);
    assert [p.mark] + [fence] == [p.mark, fence];
    assert p.mark + [LINE_FEED] + fence + [LINE_FEED] + p.body + [LINE_FEED] + fence == PartText(p);
  }

  /** The block a part parses to. */
  function BlockOf(p: Part): Block
    requires PartOk(p)
  {
    LabelOf(p.mark).value.(body := p.body, truncated := false)
  }

  /** Scanning where a part stands finds exactly that part, and what follows it. */
  lemma ScanPart(lines: seq<Text>, i: nat, p: Part)
    requires PartOk(p) && Occurs(lines, i, PartLines(p))
    ensures i < |lines| && Scan(lines, i) == Some(Scanned(BlockOf(p), i + |PartLines(p)|))
  {
    hide Lines, Join, LabelOf, FenceRun, FenceFor;
    var fence, body := FenceFor(p.body), Lines(p.body);
    var n := |fence|;
    FenceIsFence(p.body);
    PartAt(lines, i, p);
    forall k | i + 2 <= k < i + 2 + |body| ensures FenceRun(lines[k]) != n {
      FenceHolds(p.body, k - i - 2);
      assert lines[k] == body[k - i - 2];
    }
    CloseIs(lines, i + 2, n, i + 2 + |body|);
    JoinLines(p.body);
    assert lines[i + 2..i + 2 + |body|] == body;
  }

  lemma PartAt(lines: seq<Text>, i: nat, p: Part)
    requires Occurs(lines, i, PartLines(p))
    ensures var body := Lines(p.body);
      && i + 3 + |body| <= |lines|
      && lines[i] == p.mark && lines[i + 1] == FenceFor(p.body) && lines[i + 2 + |body|] == FenceFor(p.body)
      && forall k :: i + 2 <= k < i + 2 + |body| ==> lines[k] == body[k - i - 2]
  {
    hide Lines, FenceFor;
    var part := PartLines(p);
    assert part[0] == p.mark && part[1] == FenceFor(p.body) && part[|part| - 1] == FenceFor(p.body);
    assert forall k :: 2 <= k < |part| - 1 ==> part[k] == Lines(p.body)[k - 2];
  }

  lemma {:induction false} CloseIs(lines: seq<Text>, j: nat, n: nat, end: nat)
    requires j <= end < |lines| && FenceRun(lines[end]) == n
    requires forall k :: j <= k < end ==> FenceRun(lines[k]) != n
    ensures CloseAt(lines, j, n) == end
    decreases end - j
  {
    hide FenceRun;
    if j < end { CloseIs(lines, j + 1, n, end); }
  }

  // ------------------------------------------------------------ many parts

  /** join("\n\n") */
  function JoinParts(parts: seq<Text>): Text {
    if parts == [] then []
    else if |parts| == 1 then parts[0]
    else parts[0] + [LINE_FEED, LINE_FEED] + JoinParts(parts[1..])
  }

  predicate PartsOk(parts: seq<Part>) { forall k | 0 <= k < |parts| :: PartOk(parts[k]) }

  function Texts(parts: seq<Part>): seq<Text> {
    if parts == [] then [] else [PartText(parts[0])] + Texts(parts[1..])
  }

  /** Each part after an empty line. */
  function Tail(parts: seq<Part>): seq<Text> {
    if parts == [] then [] else [[]] + PartLines(parts[0]) + Tail(parts[1..])
  }

  function Blocks(parts: seq<Part>): seq<Block>
    requires PartsOk(parts)
  {
    if parts == [] then [] else [BlockOf(parts[0])] + Blocks(parts[1..])
  }

  function Empties(n: nat): (lines: seq<Text>)
    ensures |lines| == n && forall k :: 0 <= k < n ==> lines[k] == []
  {
    if n == 0 then [] else [[]] + Empties(n - 1)
  }

  /** The lines of a text with parts folded in after it. */
  lemma {:induction false} FoldedLines(front: Text, lines: seq<Text>, parts: seq<Part>)
    requires lines != [] && FeedFree(lines) && front == Join(lines) && PartsOk(parts)
    ensures Lines(JoinParts([front] + Texts(parts))) == lines + Tail(parts)
    decreases |parts|
  {
    hide Lines, PartLines, PartOk, PartText;
    if parts == [] {
      assert [front] + Texts(parts) == [front];
      LinesJoin(lines);
      assert lines + Tail(parts) == lines;
    } else {
      var p, more := parts[0], parts[1..];
      assert PartOk(p);
      MarkIsLine(p);
      PartTextLines(p);
      FoldedLines(PartText(p), PartLines(p), more);
      var rest := JoinParts([PartText(p)] + Texts(more));
      var restLines := PartLines(p) + Tail(more);
      assert [front] + Texts(parts) == [front] + ([PartText(p)] + Texts(more));
      assert ([front] + Texts(parts))[1..] == [PartText(p)] + Texts(more);
      assert JoinParts([front] + Texts(parts)) == front + [LINE_FEED, LINE_FEED] + rest;
      JoinLines(rest);
      JoinConcat(lines, [[]] + restLines);
      JoinConcat([[]], restLines);
      assert Join([[]] + restLines) == [LINE_FEED] + rest;
      assert front + [LINE_FEED] + ([LINE_FEED] + rest) == front + [LINE_FEED, LINE_FEED] + rest;
      AllFeedFree(lines, restLines, rest);
      LinesJoin(lines + ([[]] + restLines));
      assert lines + Tail(parts) == lines + ([[]] + restLines);
    }
  }

  lemma MarkIsLine(p: Part)
    requires PartOk(p)
    ensures LINE_FEED !in p.mark
  {
  }

  lemma AllFeedFree(a: seq<Text>, b: seq<Text>, rest: Text)
    requires FeedFree(a) && b == Lines(rest)
    ensures FeedFree(a + ([[]] + b))
  {
    hide Lines;
  }

  // ------------------------------------------------------------ parsing what was folded

  lemma EmptyIsNoLabel()
    ensures LabelOf([]).None? && FenceRun([]) == 0
  {
  }

  lemma {:induction false} SplitTail(lines: seq<Text>, i: nat, parts: seq<Part>)
    requires PartsOk(parts) && Occurs(lines, i, Tail(parts)) && i + |Tail(parts)| == |lines|
    ensures SplitFrom(lines, i) == Pieces(Empties(|parts|), Blocks(parts))
    decreases |parts|
  {
    hide PartLines, PartOk, Scan, LabelOf;
    if parts != [] {
      var p := parts[0];
      assert PartOk(p);
      TailAt(lines, i, parts);
      EmptyIsNoLabel();
      EmptyScan(lines, i);
      ScanPart(lines, i + 1, p);
      SplitTail(lines, i + 1 + |PartLines(p)|, parts[1..]);
    }
  }

  lemma TailAt(lines: seq<Text>, i: nat, parts: seq<Part>)
    requires parts != [] && Occurs(lines, i, Tail(parts)) && i + |Tail(parts)| == |lines|
    ensures var n := |PartLines(parts[0])|;
      && i < |lines| && lines[i] == [] && Occurs(lines, i + 1, PartLines(parts[0]))
      && Occurs(lines, i + 1 + n, Tail(parts[1..])) && i + 1 + n + |Tail(parts[1..])| == |lines|
  {
    hide PartLines, Occurs, Tail;
    var empty: seq<Text> := [[]];
    var part, tail := PartLines(parts[0]), Tail(parts[1..]);
    TailIs(parts);
    OccursJoin(lines, i, empty + part, tail);
    OccursJoin(lines, i, empty, part);
    FirstOccurs(lines, i, []);
  }

  lemma TailIs(parts: seq<Part>)
    requires parts != []
    ensures Tail(parts) == [[]] + PartLines(parts[0]) + Tail(parts[1..])
  {
  }

  lemma FirstOccurs(lines: seq<Text>, i: nat, line: Text)
    requires Occurs(lines, i, [line])
    ensures i < |lines| && lines[i] == line
  {
    assert lines[i] == [line][0];
  }

  lemma EmptyScan(lines: seq<Text>, i: nat)
    requires i < |lines| && lines[i] == []
    ensures Scan(lines, i).None?
  {
    EmptyIsNoLabel();
  }

  /** No label line of the text is followed by a fence. */
  predicate NoPair(lines: seq<Text>) { forall i | 0 <= i < |lines| :: !Opens(lines, i) }

  /** Before the first folded part, nothing opens. */
  lemma {:induction false} SplitFront(front: seq<Text>, tail: seq<Text>, i: nat)
    requires NoPair(front) && i <= |front| && (tail == [] || FenceRun(tail[0]) == 0)
    ensures SplitFrom(front + tail, i) == Prepend(front[i..], [], SplitFrom(front + tail, |front|))
    decreases |front| - i
  {
    hide LabelOf, FenceRun, SplitFrom, NoPair, Prepend;
    var lines := front + tail;
    var rest := SplitFrom(lines, |front|);
    if i == |front| {
      assert front[i..] == [];
      PrependNothing(rest);
    } else {
      FrontShut(front, tail, i);
      SplitFront(front, tail, i + 1);
      SplitSkip(lines, i);
      PrependTwice(lines[i], front[i + 1..], rest);
      assert front[i..] == [lines[i]] + front[i + 1..];
    }
  }

  lemma PrependNothing(rest: Pieces)
    ensures Prepend([], [], rest) == rest
  {
    assert [] + rest.kept == rest.kept && [] + rest.blocks == rest.blocks;
  }

  lemma PrependTwice(line: Text, more: seq<Text>, rest: Pieces)
    ensures Prepend([line], [], Prepend(more, [], rest)) == Prepend([line] + more, [], rest)
  {
    assert [line] + (more + rest.kept) == [line] + more + rest.kept && [] + ([] + rest.blocks) == [] + rest.blocks;
  }

  lemma FrontShut(front: seq<Text>, tail: seq<Text>, i: nat)
    requires NoPair(front) && i < |front| && (tail == [] || FenceRun(tail[0]) == 0)
    ensures Scan(front + tail, i).None?
  {
    hide LabelOf, FenceRun;
    assert !Opens(front, i);
  }

  lemma SplitSkip(lines: seq<Text>, i: nat)
    requires i < |lines| && Scan(lines, i).None?
    ensures SplitFrom(lines, i) == Prepend([lines[i]], [], SplitFrom(lines, i + 1))
  {
    var rest := SplitFrom(lines, i + 1);
    assert [] + rest.blocks == rest.blocks;
  }

  lemma {:induction false} JoinEmpties(n: nat)
    ensures Blank(Join(Empties(n)))
  {
    if n > 1 {
      JoinEmpties(n - 1);
      assert Empties(n)[1..] == Empties(n - 1);
    }
  }

  /** Empty lines after a text do not survive the trim. */
  lemma TrimFront(front: seq<Text>, n: nat)
    requires front != []
    ensures TrimEnd(Join(front + Empties(n))) == TrimEnd(Join(front))
  {
    if n == 0 {
      assert front + Empties(n) == front;
    } else {
      JoinEmpties(n);
      JoinConcat(front, Empties(n));
      var blank := [LINE_FEED] + Join(Empties(n));
      assert Join(front + Empties(n)) == Join(front) + blank;
      TrimEndBlank(Join(front), blank);
    }
  }

  /** Split undoes fold: a front in which nothing opens, with parts after it. */
  lemma SplitFolded(front: Text, parts: seq<Part>)
    requires NoPair(Lines(front)) && PartsOk(parts)
    ensures SplitOf(JoinParts([front] + Texts(parts))) == Split(Trim(front), Blocks(parts))
  {
    hide Lines, Tail, Texts, LabelOf, FenceRun, PartOk;
    var lines := Lines(front);
    JoinLines(front);
    FoldedLines(front, lines, parts);
    var all := lines + Tail(parts);
    TailStarts(parts);
    SplitFront(lines, Tail(parts), 0);
    OccursWhole(all);
    OccursJoin(all, 0, lines, Tail(parts));
    SplitTail(all, |lines|, parts);
    assert lines[0..] == lines && [] + Blocks(parts) == Blocks(parts);
    TrimFront(lines, |parts|);
  }

  lemma TailStarts(parts: seq<Part>)
    ensures Tail(parts) == [] || FenceRun(Tail(parts)[0]) == 0
  {
    EmptyIsNoLabel();
  }
}
