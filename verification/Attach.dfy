/** Folding of attachments and retrieved passages into a prompt, and the parser that takes
    them out again, from src/lib/attachInput.ts. */
module Attach {
  import opened Basics
  import opened TextLines

  const TICK: nat := 0x60
  const DASH: nat := 0x2014

  // ------------------------------------------------------------ labels and fences

  /** What a regular expression's dot matches. */
  predicate Dot(c: nat) { c != LINE_FEED && c != 13 && c != 0x2028 && c != 0x2029 }

  predicate OneLine(t: Text) { t != [] && forall k | 0 <= k < |t| :: Dot(t[k]) }

  /** What stands between a fixed beginning and a fixed end, when both are there. */
  function Between(line: Text, open: Text, close: Text): Option<Text> {
    if |open| + |close| < |line| && open <= line && line[|line| - |close|..] == close
       && OneLine(line[|open|..|line| - |close|])
    then Some(line[|open|..|line| - |close|]) else None
  }

  function FileOpen(): Text { Units("Attached file ") + [DASH, 32] }

  function ImageOpen(): Text { Units("[image: ") }

  function DocsOpen(): Text { Units("[docs: ") }

  function By(): Text { [32, DASH] + Units(" transcribed on-device by ") }

  function Locating(): Text { [32, DASH, 32] }

  /** The last place from which sep stands in t with something on both sides. */
  function LastSplit(t: Text, sep: Text, k: nat): (at: Option<nat>)
    requires k + |sep| <= |t|
    ensures at.Some? ==> 0 < at.value && at.value + |sep| < |t| && sep <= t[at.value..]
  {
    if k == 0 then None
    else if sep <= t[k..] && k + |sep| < |t| then Some(k)
    else LastSplit(t, sep, k - 1)
  }

  /** The first such place. */
  function FirstSplit(t: Text, sep: Text, k: nat): (at: Option<nat>)
    requires k <= |t|
    ensures at.Some? ==> 0 < at.value && at.value + |sep| < |t| && sep <= t[at.value..]
    decreases |t| - k
  {
    if k + |sep| >= |t| then None
    else if k > 0 && sep <= t[k..] then Some(k)
    else FirstSplit(t, sep, k + 1)
  }

  datatype Kind = FileBlock | ImageBlock | DocBlock

  datatype Block = Block(kind: Kind, name: Text, model: Option<Text>, locator: Option<Text>, body: Text, truncated: bool)

  function FileOf(name: Text, body: Text, truncated: bool): Block { Block(FileBlock, name, None, None, body, truncated) }

  function FileLabel(line: Text): Option<Block> {
    match Between(line, FileOpen(), [58])
    case None => None
    case Some(name) => Some(FileOf(name, [], false))
  }

  /** The name is as long as it can be. */
  function ImageLabel(line: Text): Option<Block> {
    match Between(line, ImageOpen(), [93])
    case None => None
    case Some(inside) =>
      if |inside| < |By()| then None
      else
        match LastSplit(inside, By(), |inside| - |By()|)
        case None => None
        case Some(k) => Some(Block(ImageBlock, inside[..k], Some(inside[k + |By()|..]), None, [], false))
  }

  /** The name is as short as it can be. */
  function DocLabel(line: Text): Option<Block> {
    match Between(line, DocsOpen(), [93])
    case None => None
    case Some(inside) =>
      match FirstSplit(inside, Locating(), 0)
      case None => Some(Block(DocBlock, inside, None, None, [], false))
      case Some(k) => Some(Block(DocBlock, inside[..k], None, Some(inside[k + |Locating()|..]), [], false))
  }

  function LabelOf(line: Text): Option<Block> {
    if FileLabel(line).Some? then FileLabel(line)
    else if ImageLabel(line).Some? then ImageLabel(line)
    else DocLabel(line)
  }

  function Ticks(line: Text): (n: nat)
    ensures n <= |line|
    ensures forall k :: 0 <= k < n ==> line[k] == TICK
    ensures n < |line| ==> line[n] != TICK
  {
    if line != [] && line[0] == TICK then 1 + Ticks(line[1..]) else 0
  }

  /** How long a fence the line is, or 0. */
  function FenceRun(line: Text): nat {
    if Ticks(line) >= 3 && Blank(line[Ticks(line)..]) then Ticks(line) else 0
  }

  // ------------------------------------------------------------ scanning one block

  /** The first line from j on that is a fence of exactly n ticks. */
  function CloseAt(lines: seq<Text>, j: nat, n: nat): (end: nat)
    requires j <= |lines|
    ensures j <= end <= |lines|
    ensures end < |lines| ==> FenceRun(lines[end]) == n
    ensures forall k :: j <= k < end ==> FenceRun(lines[k]) != n
    decreases |lines| - j
  {
    if j == |lines| || FenceRun(lines[j]) == n then j else CloseAt(lines, j + 1, n)
  }

  datatype Scanned = Scanned(block: Block, next: nat)

  predicate Opens(lines: seq<Text>, i: nat)
    requires i < |lines|
  {
    LabelOf(lines[i]).Some? && i + 1 < |lines| && FenceRun(lines[i + 1]) > 0
  }

  function Scan(lines: seq<Text>, i: nat): (r: Option<Scanned>)
    requires i < |lines|
    ensures r.Some? <==> Opens(lines, i)
    ensures r.Some? ==> i + 2 <= r.value.next <= |lines|
  {
    if !Opens(lines, i) then None
    else
      var end := CloseAt(lines, i + 2, FenceRun(lines[i + 1]));
      Some(Scanned(LabelOf(lines[i]).value.(body := Join(lines[i + 2..end]), truncated := end == |lines|),
                   if end < |lines| then end + 1 else end))
  }

  /** scanFoldedBlock */
  method ScanFoldedBlock(lines: seq<Text>, i: nat) returns (r: Option<Scanned>)
    requires i < |lines|
    ensures r == Scan(lines, i)
  {
    var marked := LabelOf(lines[i]);
    if marked.None? { return None; }
    if i + 1 >= |lines| || FenceRun(lines[i + 1]) == 0 { return None; }
    var marker := FenceRun(lines[i + 1]);
    var body: seq<Text> := [];
    var closed := false;
    var j := i + 2;
    while j < |lines|
      invariant i + 2 <= j <= |lines| && !closed
      invariant body == lines[i + 2..j]
      invariant CloseAt(lines, i + 2, marker) == CloseAt(lines, j, marker)
    {
      if FenceRun(lines[j]) == marker {
        closed := true;
        break;
      }
      body := body + [lines[j]];
      j := j + 1;
    }
    return Some(Scanned(marked.value.(body := Join(body), truncated := !closed), if closed then j + 1 else |lines|));
  }

  // ------------------------------------------------------------ splitting and stripping

  datatype Pieces = Pieces(kept: seq<Text>, blocks: seq<Block>)

  function SplitFrom(lines: seq<Text>, i: nat): Pieces
    requires i <= |lines|
    decreases |lines| - i
  {
    if i == |lines| then Pieces([], [])
    else
      match Scan(lines, i)
      case None => var rest := SplitFrom(lines, i + 1); rest.(kept := [lines[i]] + rest.kept)
      case Some(found) => var rest := SplitFrom(lines, found.next); rest.(blocks := [found.block] + rest.blocks)
  }

  datatype Split = Split(prompt: Text, blocks: seq<Block>)

  function SplitOf(content: Text): Split {
    var pieces := SplitFrom(Lines(content), 0);
    Split(Trim(Join(pieces.kept)), pieces.blocks)
  }

  function Prepend(kept: seq<Text>, blocks: seq<Block>, rest: Pieces): Pieces {
    Pieces(kept + rest.kept, blocks + rest.blocks)
  }

  /** splitFoldedBlocks */
  method SplitFoldedBlocks(content: Text) returns (r: Split)
    ensures r == SplitOf(content)
  {
    hide Scan, Join;
    var lines := Lines(content);
    var kept: seq<Text> := [];
    var blocks: seq<Block> := [];
    var i := 0;
    while i < |lines|
      invariant 0 <= i <= |lines|
      invariant SplitFrom(lines, 0) == Prepend(kept, blocks, SplitFrom(lines, i))
      decreases |lines| - i
    {
      var found := ScanFoldedBlock(lines, i);
      ghost var k, b, rest := kept, blocks, SplitFrom(lines, if found.Some? then found.value.next else i + 1);
      if found.None? {
        kept := kept + [lines[i]];
        assert k + ([lines[i]] + rest.kept) == k + [lines[i]] + rest.kept;
        i := i + 1;
      } else {
        blocks := blocks + [found.value.block];
        assert b + ([found.value.block] + rest.blocks) == b + [found.value.block] + rest.blocks;
        i := found.value.next;
      }
    }
    assert kept + [] == kept && blocks + [] == blocks;
    return Split(Trim(Join(kept)), blocks);
  }

  datatype Stripped = Stripped(kept: seq<Text>, count: nat)

  function StripFrom(lines: seq<Text>, i: nat): Stripped
    requires i <= |lines|
    decreases |lines| - i
  {
    if i == |lines| then Stripped([], 0)
    else
      match Scan(lines, i)
      case None => var rest := StripFrom(lines, i + 1); rest.(kept := [lines[i]] + rest.kept)
      case Some(found) =>
        var rest := StripFrom(lines, found.next);
        if found.block.kind.DocBlock? then rest.(count := 1 + rest.count)
        else rest.(kept := lines[i..found.next] + rest.kept)
  }

  function Feeds(t: Text): (n: nat)
    ensures n <= |t|
  {
    if t != [] && t[|t| - 1] == LINE_FEED then 1 + Feeds(t[..|t| - 1]) else 0
  }

  /** Three or more line feeds at the end become one. */
  function Collapsed(t: Text): Text { if Feeds(t) >= 3 then t[..|t| - Feeds(t)] + [LINE_FEED] else t }

  datatype History = History(content: Text, count: nat)

  function StripOf(content: Text): History {
    var s := StripFrom(Lines(content), 0);
    History(TrimEnd(Collapsed(Join(s.kept))), s.count)
  }

  function After(kept: seq<Text>, count: nat, rest: Stripped): Stripped { Stripped(kept + rest.kept, count + rest.count) }

  lemma StripUnfolds(lines: seq<Text>, i: nat, kept: seq<Text>, count: nat)
    requires i < |lines|
    ensures After(kept, count, StripFrom(lines, i)) ==
      match Scan(lines, i)
      case None => After(kept + [lines[i]], count, StripFrom(lines, i + 1))
      case Some(found) =>
        if found.block.kind.DocBlock? then After(kept, count + 1, StripFrom(lines, found.next))
        else After(kept + lines[i..found.next], count, StripFrom(lines, found.next))
  {
    hide Scan;
    match Scan(lines, i)
    case None =>
      var rest := StripFrom(lines, i + 1);
      assert kept + ([lines[i]] + rest.kept) == kept + [lines[i]] + rest.kept;
    case Some(found) =>
      var part, rest := lines[i..found.next], StripFrom(lines, found.next);
      assert kept + (part + rest.kept) == kept + part + rest.kept;
  }

  /** stripDocBlocks */
  method StripDocBlocks(content: Text) returns (r: History)
    ensures r == StripOf(content)
  {
    hide Scan, Join, Collapsed, StripFrom;
    var lines := Lines(content);
    var kept: seq<Text> := [];
    var count := 0;
    var i := 0;
    assert After([], 0, StripFrom(lines, 0)) == StripFrom(lines, 0);
    while i < |lines|
      invariant 0 <= i <= |lines|
      invariant StripFrom(lines, 0) == After(kept, count, StripFrom(lines, i))
      decreases |lines| - i
    {
      var found := ScanFoldedBlock(lines, i);
      StripUnfolds(lines, i, kept, count);
      if found.None? {
        kept := kept + [lines[i]];
        i := i + 1;
      } else {
        if found.value.block.kind.DocBlock? {
          count := count + 1;
        } else {
          kept := kept + lines[i..found.value.next];
        }
        i := found.value.next;
      }
    }
    StripEnds(lines, kept, count);
    return History(TrimEnd(Collapsed(Join(kept))), count);
  }

  lemma StripEnds(lines: seq<Text>, kept: seq<Text>, count: nat)
    ensures After(kept, count, StripFrom(lines, |lines|)) == Stripped(kept, count)
  {
    assert kept + [] == kept;
  }
}
