/** What the two parsers of src/lib/attachInput.ts make of any content: which stretches of its
    lines are folded blocks, what they hold, and what is left of the content without them. */
module AttachParts {
  import opened Basics
  import opened TextLines
  import opened Attach
  import opened AttachTrips
  import opened AttachLabels

  // ------------------------------------------------------------ one block

  /** n backticks, at least three, and blanks. */
  predicate IsFence(line: Text, n: nat) {
    3 <= n <= |line| && (forall k | 0 <= k < n :: line[k] == 0x60) && forall k | n <= k < |line| :: IsSpaceCode(line[k])
  }

  lemma FenceExactly(line: Text, n: nat)
    ensures FenceRun(line) == n > 0 <==> IsFence(line, n)
  {
    var t := Ticks(line);
    assert forall k :: t <= k < |line| ==> line[k] == line[t..][k - t];
    assert forall k :: 0 <= k < |line| - t ==> line[t..][k] == line[t + k];
    if IsFence(line, n) { TicksAre(line, n); }
  }

  lemma {:induction false} TicksAre(line: Text, n: nat)
    requires n <= |line| && (forall k | 0 <= k < n :: line[k] == 0x60) && (n < |line| ==> line[n] != 0x60)
    ensures Ticks(line) == n
  {
    if n > 0 { TicksAre(line[1..], n - 1); }
  }

  /** The block of these lines: a label, a fence, and the lines up to the next fence of the same
      length, or up to the end when there is none. */
  ghost predicate Blocks(lines: seq<Text>, i: nat, b: Block, next: nat) {
    && i + 1 < |lines| && Labels(lines[i], b.(body := [], truncated := false))
    && exists n: nat :: Encloses(lines, i, n, b, next)
  }

  /** A fence of n ticks opens under the label, and holds the block's body. */
  ghost predicate Encloses(lines: seq<Text>, i: nat, n: nat, b: Block, next: nat) {
    i + 1 < |lines| && IsFence(lines[i + 1], n) && Holds(lines, i + 2, n, b, next)
  }

  ghost predicate Holds(lines: seq<Text>, from: nat, n: nat, b: Block, next: nat) {
    if b.truncated then from <= next == |lines| && b.body == Join(lines[from..]) && NoFence(lines, from, next, n)
    else from < next <= |lines| && b.body == Join(lines[from..next - 1]) && NoFence(lines, from, next - 1, n) && IsFence(lines[next - 1], n)
  }

  predicate NoFence(lines: seq<Text>, from: nat, to: nat, n: nat)
    requires to <= |lines|
  {
    forall k | from <= k < to :: !IsFence(lines[k], n)
  }

  lemma HoldsExactly(lines: seq<Text>, from: nat, n: nat, b: Block, next: nat)
    requires from <= |lines| && n > 0
    ensures var end := CloseAt(lines, from, n);
      Holds(lines, from, n, b, next) <==>
        b.body == Join(lines[from..end]) && b.truncated == (end == |lines|) && next == if end < |lines| then end + 1 else end
  {
    hide Join, IsFence, FenceRun, CloseAt;
    var end := CloseAt(lines, from, n);
    forall k | from <= k < |lines| ensures FenceRun(lines[k]) == n <==> IsFence(lines[k], n) { FenceExactly(lines[k], n); }
    assert lines[from..] == lines[from..|lines|];
  }

  lemma BlocksExactly(lines: seq<Text>, i: nat, b: Block, next: nat)
    requires i < |lines|
    ensures Blocks(lines, i, b, next) <==> Scan(lines, i) == Some(Scanned(b, next))
  {
    hide Join, IsFence, FenceRun, CloseAt, Labels, LabelOf, Holds;
    LabelExactly(lines[i], b.(body := [], truncated := false));
    if LabelOf(lines[i]).Some? {
      LabelExactly(lines[i], LabelOf(lines[i]).value);
      Untouched(lines[i], LabelOf(lines[i]).value);
    }
    if i + 1 < |lines| {
      var n := FenceRun(lines[i + 1]);
      forall m: nat | Encloses(lines, i, m, b, next) ensures m == n > 0 { FenceExactly(lines[i + 1], m); }
      if n > 0 {
        FenceExactly(lines[i + 1], n);
        HoldsExactly(lines, i + 2, n, b, next);
        assert Encloses(lines, i, n, b, next) <==> Holds(lines, i + 2, n, b, next);
      }
    }
  }

  lemma Untouched(line: Text, b: Block)
    requires Labels(line, b)
    ensures b.body == [] && !b.truncated
  {
  }

  // ------------------------------------------------------------ the whole content

  /** A line of prose, or a folded block of so many lines. */
  datatype Piece = Prose | Quote(block: Block, size: nat)

  /** The lines from i on are these pieces: whatever can be read as a block is one. */
  ghost predicate Divides(lines: seq<Text>, i: nat, ps: seq<Piece>)
    decreases |ps|
  {
    if ps == [] then i == |lines|
    else
      && i < |lines|
      && match ps[0]
         case Prose => NoBlock(lines, i) && Divides(lines, i + 1, ps[1..])
         case Quote(b, size) => Blocks(lines, i, b, i + size) && Divides(lines, i + size, ps[1..])
  }

  ghost predicate NoBlock(lines: seq<Text>, i: nat) { forall b, next :: !Blocks(lines, i, b, next) }

  /** The prose, with the documents' blocks left out and the others kept when asked for. */
  function Rest(lines: seq<Text>, i: nat, ps: seq<Piece>, others: bool): seq<Text>
    decreases |ps|
  {
    if ps == [] || i >= |lines| then []
    else
      match ps[0]
      case Prose => [lines[i]] + Rest(lines, i + 1, ps[1..], others)
      case Quote(b, size) =>
        (if others && !b.kind.DocBlock? && i + size <= |lines| then lines[i..i + size] else []) + Rest(lines, i + size, ps[1..], others)
  }

  function BlocksOf(ps: seq<Piece>): seq<Block> {
    if ps == [] then [] else (if ps[0].Quote? then [ps[0].block] else []) + BlocksOf(ps[1..])
  }

  function DocsOf(ps: seq<Piece>): nat {
    if ps == [] then 0 else (if ps[0].Quote? && ps[0].block.kind.DocBlock? then 1 else 0) + DocsOf(ps[1..])
  }

  lemma {:induction false} Parted(lines: seq<Text>, i: nat) returns (ps: seq<Piece>)
    requires i <= |lines|
    ensures Divides(lines, i, ps)
    ensures SplitFrom(lines, i) == Pieces(Rest(lines, i, ps, false), BlocksOf(ps))
    ensures StripFrom(lines, i) == Stripped(Rest(lines, i, ps, true), DocsOf(ps))
    decreases |lines| - i
  {
    hide Scan, Blocks;
    if i == |lines| {
      ps := [];
    } else {
      forall b, next ensures Blocks(lines, i, b, next) <==> Scan(lines, i) == Some(Scanned(b, next)) {
        BlocksExactly(lines, i, b, next);
      }
      ScanWithin(lines, i);
      match Scan(lines, i)
      case None =>
        var more := Parted(lines, i + 1);
        ps := [Prose] + more;
        assert ps[1..] == more && [] + BlocksOf(more) == BlocksOf(more);
      case Some(found) =>
        var more := Parted(lines, found.next);
        ps := [Quote(found.block, found.next - i)] + more;
        assert ps[1..] == more;
        assert [] + Rest(lines, found.next, more, false) == Rest(lines, found.next, more, false);
        assert [] + Rest(lines, found.next, more, true) == Rest(lines, found.next, more, true);
    }
  }

  /** Every content is read as pieces in one way. Splitting gives its prose, trimmed, and its
      blocks in order; stripping gives what is left without the documents' blocks, trimmed at
      the end, and their number. */
  lemma ContentExactly(content: Text) returns (ps: seq<Piece>)
    ensures var lines := Lines(content);
      && Divides(lines, 0, ps)
      && SplitOf(content) == Split(Trim(Join(Rest(lines, 0, ps, false))), BlocksOf(ps))
      && StripOf(content) == History(TrimEnd(Join(Rest(lines, 0, ps, true))), DocsOf(ps))
  {
    hide Lines, Divides, Collapsed, Join, TrimEnd, Trim;
    ps := Parted(Lines(content), 0);
    TrimCollapsed(Join(StripFrom(Lines(content), 0).kept));
  }
}
