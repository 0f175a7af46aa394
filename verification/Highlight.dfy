/** The prompt highlighter of src/lib/markdownHighlight.ts: which pieces of a text get
    which kind, and that joining the tokens gives the text back. */
module Highlight {
  import opened Basics
  import opened TextLines

  datatype Kind =
    | Plain | Syntax | Heading | Strong | Em | StrongEm | Strike | Code | CodeBlock | Quoted | Label | Url | Rule

  datatype Token = Token(text: Text, kind: Kind)

  // ------------------------------------------------------------ the sink

  /** push: empty texts are dropped, equal neighbours are merged. */
  function Push(tokens: seq<Token>, t: Token): seq<Token> {
    if t.text == [] then tokens
    else if tokens != [] && tokens[|tokens| - 1].kind == t.kind then
      tokens[..|tokens| - 1] + [Token(tokens[|tokens| - 1].text + t.text, t.kind)]
    else tokens + [t]
  }

  function PushAll(tokens: seq<Token>, pieces: seq<Token>): seq<Token>
    decreases |pieces|
  {
    if pieces == [] then tokens else PushAll(Push(tokens, pieces[0]), pieces[1..])
  }

  /** A coloured character. */
  datatype Cell = Cell(unit: nat, kind: Kind)

  function Paint(t: Token): (cells: seq<Cell>)
    ensures |cells| == |t.text|
  {
    seq(|t.text|, k requires 0 <= k < |t.text| => Cell(t.text[k], t.kind))
  }

  function Cells(tokens: seq<Token>): seq<Cell> {
    if tokens == [] then [] else Cells(tokens[..|tokens| - 1]) + Paint(tokens[|tokens| - 1])
  }

  /** Joining the tokens. */
  function Flat(tokens: seq<Token>): Text {
    if tokens == [] then [] else tokens[0].text + Flat(tokens[1..])
  }

  /** No token is empty, and neighbours differ. */
  predicate Merged(tokens: seq<Token>) {
    && (forall k | 0 <= k < |tokens| :: tokens[k].text != [])
    && (forall k | 0 < k < |tokens| :: tokens[k - 1].kind != tokens[k].kind)
  }

  lemma PushKeeps(tokens: seq<Token>, t: Token)
    requires Merged(tokens)
    ensures Merged(Push(tokens, t)) && Cells(Push(tokens, t)) == Cells(tokens) + Paint(t)
  {
    var n := |tokens| - 1;
    if t.text == [] {
      assert Cells(tokens) + Paint(t) == Cells(tokens);
    } else if tokens != [] && tokens[n].kind == t.kind {
      var last := Token(tokens[n].text + t.text, t.kind);
      var out := tokens[..n] + [last];
      assert out[..|out| - 1] == tokens[..n];
      assert Paint(last) == Paint(tokens[n]) + Paint(t);
      assert forall k :: 0 <= k < n ==> out[k] == tokens[k];
    } else {
      assert (tokens + [t])[..|tokens|] == tokens;
    }
  }

  lemma {:induction false} PushAllJoins(tokens: seq<Token>, a: seq<Token>, b: seq<Token>)
    ensures PushAll(tokens, a + b) == PushAll(PushAll(tokens, a), b)
    decreases |a|
  {
    hide Push;
    if a == [] {
      assert a + b == b;
    } else {
      assert (a + b)[1..] == a[1..] + b;
      PushAllJoins(Push(tokens, a[0]), a[1..], b);
    }
  }

  lemma {:induction false} CellsJoin(a: seq<Token>, b: seq<Token>)
    ensures Cells(a + b) == Cells(a) + Cells(b)
    decreases |b|
  {
    if b == [] {
      assert a + b == a;
    } else {
      var n := |b| - 1;
      CellsJoin(a, b[..n]);
      assert (a + b)[..|a| + n] == a + b[..n];
      assert Cells(a) + Cells(b[..n]) + Paint(b[n]) == Cells(a) + (Cells(b[..n]) + Paint(b[n]));
    }
  }

  /** Merging neither loses, adds, reorders nor recolours a character. */
  lemma {:induction false} PushAllKeeps(tokens: seq<Token>, pieces: seq<Token>)
    requires Merged(tokens)
    ensures Merged(PushAll(tokens, pieces)) && Cells(PushAll(tokens, pieces)) == Cells(tokens) + Cells(pieces)
    decreases |pieces|
  {
    hide Push, Merged;
    if pieces == [] {
      assert Cells(tokens) + [] == Cells(tokens);
    } else {
      PushKeeps(tokens, pieces[0]);
      PushAllKeeps(Push(tokens, pieces[0]), pieces[1..]);
      CellsJoin([pieces[0]], pieces[1..]);
      assert pieces == [pieces[0]] + pieces[1..];
      assert Cells([pieces[0]]) == Paint(pieces[0]) by { CellsOne(pieces[0]); }
      assert Cells(tokens) + Paint(pieces[0]) + Cells(pieces[1..]) == Cells(tokens) + (Paint(pieces[0]) + Cells(pieces[1..]));
    }
  }

  lemma CellsOne(t: Token)
    ensures Cells([t]) == Paint(t)
  {
    assert [t][..0] == [];
  }

  function UnitsOf(cells: seq<Cell>): (t: Text)
    ensures |t| == |cells|
  {
    seq(|cells|, k requires 0 <= k < |cells| => cells[k].unit)
  }

  lemma {:induction false} FlatJoins(a: seq<Token>, b: seq<Token>)
    ensures Flat(a + b) == Flat(a) + Flat(b)
  {
    if a == [] {
      assert a + b == b;
    } else {
      assert (a + b)[1..] == a[1..] + b;
      FlatJoins(a[1..], b);
      assert a[0].text + (Flat(a[1..]) + Flat(b)) == a[0].text + Flat(a[1..]) + Flat(b);
    }
  }

  lemma {:induction false} FlatIsUnits(tokens: seq<Token>)
    ensures Flat(tokens) == UnitsOf(Cells(tokens))
  {
    if tokens != [] {
      var n := |tokens| - 1;
      FlatIsUnits(tokens[..n]);
      FlatJoins(tokens[..n], [tokens[n]]);
      assert tokens == tokens[..n] + [tokens[n]];
      assert [tokens[n]][1..] == [] && tokens[n].text + [] == tokens[n].text;
      assert UnitsOf(Paint(tokens[n])) == tokens[n].text;
      assert UnitsOf(Cells(tokens)) == UnitsOf(Cells(tokens[..n])) + UnitsOf(Paint(tokens[n]));
    }
  }

  // ------------------------------------------------------------ characters

  const TICK: nat := 0x60

  predicate Dot(c: nat) { c != LINE_FEED && c != 13 && c != 0x2028 && c != 0x2029 }

  predicate Digit(c: nat) { 48 <= c <= 57 }

  predicate WordUnit(c: nat) { Digit(c) || 65 <= c <= 90 || 97 <= c <= 122 || c == 95 }

  /** The end of the run of c that starts at i. */
  function RunEnd(s: Text, i: nat, c: nat): (end: nat)
    requires i <= |s|
    ensures i <= end <= |s|
    ensures forall k :: i <= k < end ==> s[k] == c
    decreases |s| - i
  {
    if i < |s| && s[i] == c then RunEnd(s, i + 1, c) else i
  }

  function SpacesEnd(s: Text, i: nat): (end: nat)
    requires i <= |s|
    ensures i <= end <= |s|
    decreases |s| - i
  {
    if i < |s| && IsSpaceCode(s[i]) then SpacesEnd(s, i + 1) else i
  }

  function DigitsEnd(s: Text, i: nat): (end: nat)
    requires i <= |s|
    ensures i <= end <= |s|
    decreases |s| - i
  {
    if i < |s| && Digit(s[i]) then DigitsEnd(s, i + 1) else i
  }

  predicate At(s: Text, i: nat, part: Text) { i + |part| <= |s| && s[i..i + |part|] == part }

  // ------------------------------------------------------------ inline constructs

  /** Every construct character: backslash, tick, bracket, star, underscore, tilde, bang. */
  predicate Special(c: nat) { c in {92, TICK, 91, 42, 95, 126, 33} }

  function PlainEnd(s: Text, i: nat): (end: nat)
    requires i <= |s|
    ensures i <= end <= |s|
    decreases |s| - i
  {
    if i < |s| && !Special(s[i]) then PlainEnd(s, i + 1) else i
  }

  /** The first unit from i on that is c or a line feed. */
  function Until(s: Text, i: nat, c: nat): (end: nat)
    requires i <= |s|
    ensures i <= end <= |s|
    decreases |s| - i
  {
    if i < |s| && s[i] != c && s[i] != LINE_FEED then Until(s, i + 1, c) else i
  }

  /** closingTicks, from j on */
  function ClosingTicks(s: Text, j: nat, n: nat): (close: Option<nat>)
    requires j <= |s| && n > 0
    ensures close.Some? ==> j <= close.value && close.value + n <= |s| && RunEnd(s, close.value, TICK) == close.value + n
    decreases |s| - j
  {
    if j == |s| then None
    else if s[j] != TICK then ClosingTicks(s, j + 1, n)
    else
      RunGoesOn(s, j);
      if RunEnd(s, j, TICK) - j == n then Some(j) else ClosingTicks(s, RunEnd(s, j, TICK), n)
  }

  lemma RunGoesOn(s: Text, j: nat)
    requires j < |s| && s[j] == TICK
    ensures RunEnd(s, j, TICK) > j
  {
  }

  /** closingDelimiter, from j on */
  function ClosingDelimiter(s: Text, j: nat, marker: Text): (close: Option<nat>)
    requires 0 < j <= |s| && marker != []
    ensures close.Some? ==> j <= close.value && At(s, close.value, marker)
    decreases |s| - j
  {
    if j == |s| then None
    else if At(s, j, marker) && !IsSpaceCode(s[j - 1])
            && !(marker[0] == 95 && j + |marker| < |s| && WordUnit(s[j + |marker|])) then Some(j)
    else ClosingDelimiter(s, j + 1, marker)
  }

  datatype Mark = Mark(marker: Text, kind: Kind)

  /** Longest first. */
  function Marks(): seq<Mark> {
    [Mark([42, 42, 42], StrongEm), Mark([95, 95, 95], StrongEm), Mark([42, 42], Strong), Mark([95, 95], Strong),
     Mark([126, 126], Strike), Mark([42], Em), Mark([95], Em)]
  }

  /** Where an emphasis that opens at i with this mark closes. */
  function EmphasisClose(s: Text, i: nat, m: Mark): (close: Option<nat>)
    requires i < |s| && m.marker != []
    ensures close.Some? ==> At(s, i, m.marker) && i + |m.marker| < close.value && At(s, close.value, m.marker)
  {
    var from := i + |m.marker|;
    if !At(s, i, m.marker) || (m.marker[0] == 95 && i > 0 && WordUnit(s[i - 1])) then None
    else if from >= |s| || IsSpaceCode(s[from]) then None
    else ClosingDelimiter(s, from + 1, m.marker)
  }

  function FirstEmphasis(s: Text, i: nat, k: nat): (found: Option<(Mark, nat)>)
    requires i < |s| && k <= |Marks()|
    ensures found.Some? ==>
      && found.value.0.marker != [] && At(s, i, found.value.0.marker)
      && i + |found.value.0.marker| < found.value.1 && At(s, found.value.1, found.value.0.marker)
    decreases |Marks()| - k
  {
    if k == |Marks()| then None
    else
      var close := EmphasisClose(s, i, Marks()[k]);
      if close.Some? then Some((Marks()[k], close.value)) else FirstEmphasis(s, i, k + 1)
  }

  /** An inline link or image: where its label and its target begin and end. */
  datatype Link = Link(bang: nat, labelEnd: nat, urlEnd: nat)

  function LinkAt(s: Text, i: nat): (link: Option<Link>)
    requires i < |s|
    ensures link.Some? ==> var l := link.value;
      && l.bang <= 1 && i + l.bang + 1 <= l.labelEnd && l.labelEnd + 2 <= l.urlEnd < |s|
      && (l.bang == 1 ==> s[i] == 33) && s[i + l.bang] == 91
      && s[l.labelEnd] == 93 && s[l.labelEnd + 1] == 40 && s[l.urlEnd] == 41
  {
    var bang := if s[i] == 33 then 1 else 0;
    if i + bang >= |s| || s[i + bang] != 91 then None
    else
      var labelEnd := Until(s, i + bang + 1, 93);
      if labelEnd + 1 >= |s| || s[labelEnd] != 93 || s[labelEnd + 1] != 40 then None
      else
        var urlEnd := Until(s, labelEnd + 2, 41);
        if urlEnd == |s| || s[urlEnd] != 41 then None else Some(Link(bang, labelEnd, urlEnd))
  }

  /** What stands at i. */
  datatype Construct =
    | Escape
    | Span(end: nat, close: nat)
    | Ticks(end: nat)
    | Linked(link: Link)
    | Emphasis(mark: Mark, close: nat)
    | Run(end: nat)

  function ConstructAt(s: Text, i: nat): (c: Construct)
    requires i < |s|
    ensures match c
      case Escape => i + 1 < |s| && s[i] == 92
      case Span(end, close) => i < end <= close && close + (end - i) <= |s|
        && (forall k :: i <= k < end ==> s[k] == TICK) && (forall k :: close <= k < close + (end - i) ==> s[k] == TICK)
      case Ticks(end) => i < end <= |s|
      case Linked(l) => Some(l) == LinkAt(s, i)
      case Emphasis(m, close) => m.marker != [] && At(s, i, m.marker) && i + |m.marker| < close && At(s, close, m.marker)
      case Run(end) => i < end <= |s|
  {
    if s[i] == 92 && i + 1 < |s| then Escape
    else if s[i] == TICK then
      RunGoesOn(s, i);
      var end := RunEnd(s, i, TICK);
      var close := ClosingTicks(s, end, end - i);
      if close.Some? then Span(end, close.value) else Ticks(end)
    else if LinkAt(s, i).Some? then Linked(LinkAt(s, i).value)
    else if FirstEmphasis(s, i, 0).Some? then
      Emphasis(FirstEmphasis(s, i, 0).value.0, FirstEmphasis(s, i, 0).value.1)
    else Run(if Special(s[i]) then i + 1 else PlainEnd(s, i + 1))
  }

  /** combine */
  function Combine(outer: Kind, inner: Kind): Kind {
    if (outer.Strong? && inner.Em?) || (outer.Em? && inner.Strong?) then StrongEm else inner
  }

  /** scanInline from i on, as the pieces it pushes. */
  function Inline(s: Text, base: Kind, i: nat): seq<Token>
    requires i <= |s|
    decreases |s|, |s| - i
  {
    if i == |s| then []
    else
      match ConstructAt(s, i)
      case Escape => [Token([92], Syntax), Token([s[i + 1]], base)] + Inline(s, base, i + 2)
      case Span(end, close) =>
        [Token(s[i..end], Syntax), Token(s[end..close], Code), Token(s[i..end], Syntax)] + Inline(s, base, close + (end - i))
      case Ticks(end) => [Token(s[i..end], base)] + Inline(s, base, end)
      case Linked(l) =>
        [Token(s[i..i + l.bang] + [91], Syntax)] + Inline(s[i + l.bang + 1..l.labelEnd], Label, 0)
        + [Token([93, 40], Syntax), Token(s[l.labelEnd + 2..l.urlEnd], Url), Token([41], Syntax)]
        + Inline(s, base, l.urlEnd + 1)
      case Emphasis(m, close) =>
        [Token(m.marker, Syntax)] + Inline(s[i + |m.marker|..close], Combine(base, m.kind), 0) + [Token(m.marker, Syntax)]
        + Inline(s, base, close + |m.marker|)
      case Run(end) => [Token(s[i..end], base)] + Inline(s, base, end)
  }

  function LinkPieces(s: Text, i: nat, l: Link): seq<Token>
    requires i < |s| && LinkAt(s, i) == Some(l)
  {
    [Token(s[i..i + l.bang] + [91], Syntax)] + Inline(s[i + l.bang + 1..l.labelEnd], Label, 0)
    + [Token([93, 40], Syntax), Token(s[l.labelEnd + 2..l.urlEnd], Url), Token([41], Syntax)]
  }

  function EmphasisPieces(s: Text, base: Kind, i: nat, m: Mark, close: nat): seq<Token>
    requires At(s, i, m.marker) && i + |m.marker| < close && At(s, close, m.marker)
  {
    [Token(m.marker, Syntax)] + Inline(s[i + |m.marker|..close], Combine(base, m.kind), 0) + [Token(m.marker, Syntax)]
  }

  lemma InlineIs(s: Text, base: Kind, i: nat)
    requires i < |s|
    ensures Inline(s, base, i) ==
      match ConstructAt(s, i)
      case Escape => [Token([92], Syntax), Token([s[i + 1]], base)] + Inline(s, base, i + 2)
      case Span(end, close) =>
        [Token(s[i..end], Syntax), Token(s[end..close], Code), Token(s[i..end], Syntax)] + Inline(s, base, close + (end - i))
      case Ticks(end) => [Token(s[i..end], base)] + Inline(s, base, end)
      case Linked(l) => LinkPieces(s, i, l) + Inline(s, base, l.urlEnd + 1)
      case Emphasis(m, close) => EmphasisPieces(s, base, i, m, close) + Inline(s, base, close + |m.marker|)
      case Run(end) => [Token(s[i..end], base)] + Inline(s, base, end)
  {
    hide ConstructAt, LinkAt;
  }

  // ------------------------------------------------------------ lines

  /** How many leading blanks, or None when there are more than three. */
  function Indent(line: Text): (n: Option<nat>)
    ensures n.Some? ==> n.value <= |line|
  {
    if SpacesEnd(line, 0) <= 3 then Some(SpacesEnd(line, 0)) else None
  }

  /** A fence line: its indent and the end of its run of ticks or tildes. */
  datatype Fence = Fence(indent: nat, end: nat)

  function FenceAt(line: Text): (f: Option<Fence>)
    ensures f.Some? ==> f.value.indent + 3 <= f.value.end <= |line|
  {
    match Indent(line)
    case None => None
    case Some(n) =>
      if n == |line| then None
      else
        var end := if line[n] == TICK then RunEnd(line, n, TICK) else RunEnd(line, n, 126);
        if end >= n + 3 && forall k | end <= k < |line| :: Dot(line[k]) then Some(Fence(n, end)) else None
  }

  predicate IsRule(line: Text) {
    match Indent(line)
    case None => false
    case Some(n) =>
      n < |line| && line[n] in {45, 42, 95} && RunEnd(line, n, line[n]) >= n + 3
      && SpacesEnd(line, RunEnd(line, n, line[n])) == |line|
  }

  /** Length of a heading marker, or 0. */
  function HeadingLength(rest: Text): (n: nat)
    ensures n <= |rest|
  {
    var n := RunEnd(rest, 0, 35);
    if 1 <= n <= 6 && (n == |rest| || IsSpaceCode(rest[n])) then n else 0
  }

  function QuoteLength(rest: Text, i: nat): (n: nat)
    requires i <= |rest|
    ensures i <= n <= |rest|
    decreases |rest| - i
  {
    if i < |rest| && rest[i] == 62 then
      QuoteLength(rest, if i + 1 < |rest| && IsSpaceCode(rest[i + 1]) then i + 2 else i + 1)
    else i
  }

  /** Length of a bullet or number with the blanks after it, or 0. */
  function BulletLength(rest: Text): (n: nat)
    ensures n <= |rest|
  {
    var digits := DigitsEnd(rest, 0);
    var marker :=
      if rest != [] && rest[0] in {45, 42, 43} then 1
      else if 1 <= digits <= 9 && digits < |rest| && rest[digits] in {46, 41} then digits + 1
      else 0;
    if marker > 0 && SpacesEnd(rest, marker) > marker then SpacesEnd(rest, marker) else 0
  }

  function TaskLength(rest: Text): (n: nat)
    ensures n <= |rest|
  {
    if |rest| >= 3 && rest[0] == 91 && rest[1] in {32, 120, 88} && rest[2] == 93 && SpacesEnd(rest, 3) > 3
    then SpacesEnd(rest, 3) else 0
  }

  /** The marker pieces of an ordinary line, where its prose begins, and its kind. */
  datatype Opening = Opening(pieces: seq<Token>, from: nat, base: Kind)

  function Piece(s: Text, i: nat, j: nat, kind: Kind): Token
    requires i <= j <= |s|
  {
    Token(s[i..j], kind)
  }

  function OpeningOf(line: Text): (o: Opening)
    ensures o.from <= |line|
  {
    var indent := SpacesEnd(line, 0);
    var rest := line[indent..];
    var heading := HeadingLength(rest);
    if heading > 0 then
      Opening([Piece(line, 0, indent, Plain), Piece(rest, 0, heading, Syntax)], indent + heading, Heading)
    else
      var quote := QuoteLength(rest, 0);
      var bullet := BulletLength(rest[quote..]);
      var item := quote + bullet;
      var task := if bullet > 0 then TaskLength(rest[item..]) else 0;
      Opening([Piece(line, 0, indent, Plain), Piece(rest, 0, quote, Syntax), Piece(rest, quote, item, Syntax),
               Piece(rest, item, item + task, Syntax)],
              indent + item + task, if quote > 0 then Quoted else Plain)
  }

  /** scanLine */
  function LinePieces(line: Text): seq<Token> {
    if IsRule(line) then [Token(line, Rule)]
    else var o := OpeningOf(line); o.pieces + Inline(line[o.from..], o.base, 0)
  }

  /** The open fence, as its character and length. */
  datatype Open = Open(unit: nat, length: nat)

  predicate ClosesFence(line: Text, fence: Open) {
    match FenceAt(line)
    case None => false
    case Some(f) => line[f.indent] == fence.unit && f.end - f.indent >= fence.length && Trim(line[f.end..]) == []
  }

  function NextFence(line: Text, fence: Option<Open>): Option<Open> {
    if fence.Some? then if ClosesFence(line, fence.value) then None else fence
    else
      match FenceAt(line)
      case None => None
      case Some(f) => Some(Open(line[f.indent], f.end - f.indent))
  }

  function OneLine(line: Text, fence: Option<Open>): seq<Token> {
    if fence.Some? then [Token(line, if ClosesFence(line, fence.value) then Syntax else CodeBlock)]
    else
      match FenceAt(line)
      case Some(f) => [Token(line[..f.end], Syntax), Token(line[f.end..], Code)]
      case None => LinePieces(line)
  }

  function Separator(i: nat, fence: Option<Open>): seq<Token> {
    if i == 0 then [] else [Token([LINE_FEED], if fence.Some? then CodeBlock else Plain)]
  }

  function Document(lines: seq<Text>, i: nat, fence: Option<Open>): seq<Token>
    requires i <= |lines|
    decreases |lines| - i
  {
    if i == |lines| then []
    else Separator(i, fence) + OneLine(lines[i], fence) + Document(lines, i + 1, NextFence(lines[i], fence))
  }

  function Tokens(source: Text): seq<Token> { PushAll([], Document(Lines(source), 0, None)) }

  // ------------------------------------------------------------ nothing is lost

  lemma FlatOne(t: Token)
    ensures Flat([t]) == t.text
  {
    assert [t][1..] == [] && t.text + [] == t.text;
  }

  lemma FlatThree(a: Token, b: Token, c: Token)
    ensures Flat([a, b, c]) == a.text + b.text + c.text && Flat([a, b]) == a.text + b.text
  {
    assert [a, b, c] == [a] + [b] + [c] && [a, b] == [a] + [b];
    FlatJoins([a] + [b], [c]);
    FlatJoins([a], [b]);
    FlatOne(a);
    FlatOne(b);
    FlatOne(c);
  }

  /** Joining the pieces of an inline text gives that text. */
  lemma {:induction false} InlineLossless(s: Text, base: Kind, i: nat)
    requires i <= |s|
    ensures Flat(Inline(s, base, i)) == s[i..]
    decreases |s|, |s| - i
  {
    hide ConstructAt, Flat, Inline, LinkPieces, EmphasisPieces, Combine;
    if i == |s| {
      InlineNothing(s, base);
    } else {
      InlineIs(s, base, i);
      match ConstructAt(s, i)
      case Escape => EscapeLossless(s, base, i);
      case Span(end, close) => SpanLossless(s, base, i, end, close);
      case Ticks(end) => RunLossless(s, base, i, end);
      case Linked(l) => LinkLossless(s, base, i, l);
      case Emphasis(m, close) => EmphasisLossless(s, base, i, m, close);
      case Run(end) => RunLossless(s, base, i, end);
    }
  }

  lemma EscapeLossless(s: Text, base: Kind, i: nat)
    requires i + 1 < |s| && s[i] == 92
    ensures Flat([Token([92], Syntax), Token([s[i + 1]], base)] + Inline(s, base, i + 2)) == s[i..]
    decreases |s|, |s| - i, 0
  {
    hide Flat, Inline;
    InlineLossless(s, base, i + 2);
    FlatJoins([Token([92], Syntax), Token([s[i + 1]], base)], Inline(s, base, i + 2));
    FlatThree(Token([92], Syntax), Token([s[i + 1]], base), Token([92], Syntax));
    assert s[i..] == [92] + [s[i + 1]] + s[i + 2..];
  }

  lemma InlineNothing(s: Text, base: Kind)
    ensures Flat(Inline(s, base, |s|)) == [] == s[|s|..]
  {
  }

  lemma FlatNothing()
    ensures Flat([]) == []
  {
  }

  lemma RunLossless(s: Text, base: Kind, i: nat, end: nat)
    requires i < end <= |s|
    ensures Flat([Token(s[i..end], base)] + Inline(s, base, end)) == s[i..]
    decreases |s|, |s| - i, 0
  {
    hide Flat, Inline;
    InlineLossless(s, base, end);
    FlatJoins([Token(s[i..end], base)], Inline(s, base, end));
    FlatOne(Token(s[i..end], base));
    assert s[i..] == s[i..end] + s[end..];
  }

  lemma SpanLossless(s: Text, base: Kind, i: nat, end: nat, close: nat)
    requires i < end <= close && close + (end - i) <= |s|
    requires (forall k :: i <= k < end ==> s[k] == TICK) && (forall k :: close <= k < close + (end - i) ==> s[k] == TICK)
    ensures Flat([Token(s[i..end], Syntax), Token(s[end..close], Code), Token(s[i..end], Syntax)]
                 + Inline(s, base, close + (end - i))) == s[i..]
    decreases |s|, |s| - i, 0
  {
    hide Flat, Inline;
    var next := close + (end - i);
    var a, b := Token(s[i..end], Syntax), Token(s[end..close], Code);
    InlineLossless(s, base, next);
    FlatJoins([a, b, a], Inline(s, base, next));
    FlatThree(a, b, a);
    assert s[close..next] == s[i..end];
    assert s[i..] == s[i..end] + s[end..close] + s[close..next] + s[next..];
  }

  lemma LinkLossless(s: Text, base: Kind, i: nat, l: Link)
    requires i < |s| && LinkAt(s, i) == Some(l)
    ensures Flat(LinkPieces(s, i, l) + Inline(s, base, l.urlEnd + 1)) == s[i..]
    decreases |s|, |s| - i, 0
  {
    hide Flat, Inline, LinkAt;
    var open, shut := Token(s[i..i + l.bang] + [91], Syntax), Token([93, 40], Syntax);
    var url, close := Token(s[l.labelEnd + 2..l.urlEnd], Url), Token([41], Syntax);
    var tag := s[i + l.bang + 1..l.labelEnd];
    var inner, rest := Inline(tag, Label, 0), Inline(s, base, l.urlEnd + 1);
    InlineLossless(tag, Label, 0);
    assert tag[0..] == tag;
    InlineLossless(s, base, l.urlEnd + 1);
    FlatJoins([open] + inner + [shut, url, close], rest);
    FlatJoins([open] + inner, [shut, url, close]);
    FlatJoins([open], inner);
    FlatOne(open);
    FlatThree(shut, url, close);
    LinkText(s, i, l);
  }

  lemma LinkText(s: Text, i: nat, l: Link)
    requires i < |s| && LinkAt(s, i) == Some(l)
    ensures s[i..] == s[i..i + l.bang] + [91] + s[i + l.bang + 1..l.labelEnd] + ([93, 40] + s[l.labelEnd + 2..l.urlEnd] + [41])
                      + s[l.urlEnd + 1..]
  {
    hide LinkAt;
  }

  lemma EmphasisLossless(s: Text, base: Kind, i: nat, m: Mark, close: nat)
    requires m.marker != [] && At(s, i, m.marker) && i + |m.marker| < close && At(s, close, m.marker)
    ensures Flat(EmphasisPieces(s, base, i, m, close) + Inline(s, base, close + |m.marker|)) == s[i..]
    decreases |s|, |s| - i, 0
  {
    hide Flat, Inline;
    var mark, from, next := Token(m.marker, Syntax), i + |m.marker|, close + |m.marker|;
    var body := s[from..close];
    var inner, rest := Inline(body, Combine(base, m.kind), 0), Inline(s, base, next);
    InlineLossless(body, Combine(base, m.kind), 0);
    assert body[0..] == body;
    InlineLossless(s, base, next);
    FlatJoins([mark] + inner + [mark], rest);
    FlatJoins([mark] + inner, [mark]);
    FlatJoins([mark], inner);
    FlatOne(mark);
    assert s[i..] == s[i..from] + body + s[close..next] + s[next..];
  }

  lemma OpeningLossless(line: Text)
    ensures Flat(OpeningOf(line).pieces) == line[..OpeningOf(line).from]
  {
    hide Flat, HeadingLength, QuoteLength, BulletLength, TaskLength, SpacesEnd;
    var indent := SpacesEnd(line, 0);
    var rest := line[indent..];
    var heading := HeadingLength(rest);
    if heading > 0 {
      FlatThree(Piece(line, 0, indent, Plain), Piece(rest, 0, heading, Syntax), Piece(rest, 0, heading, Syntax));
      assert line[..indent + heading] == line[0..indent] + rest[0..heading];
    } else {
      var quote := QuoteLength(rest, 0);
      var bullet := BulletLength(rest[quote..]);
      var item := quote + bullet;
      var task := if bullet > 0 then TaskLength(rest[item..]) else 0;
      var a, b := Piece(line, 0, indent, Plain), Piece(rest, 0, quote, Syntax);
      var c, d := Piece(rest, quote, item, Syntax), Piece(rest, item, item + task, Syntax);
      assert [a, b, c, d] == [a, b] + [c, d];
      FlatJoins([a, b], [c, d]);
      FlatThree(a, b, a);
      FlatThree(c, d, c);
      assert line[..indent + item + task] == a.text + b.text + (c.text + d.text);
    }
  }

  lemma LineLossless(line: Text, fence: Option<Open>)
    ensures Flat(OneLine(line, fence)) == line
  {
    hide Flat, Inline, OpeningOf, IsRule, FenceAt, ClosesFence;
    if fence.Some? {
      FlatOne(Token(line, if ClosesFence(line, fence.value) then Syntax else CodeBlock));
    } else if FenceAt(line).Some? {
      var f := FenceAt(line).value;
      FlatThree(Token(line[..f.end], Syntax), Token(line[f.end..], Code), Token(line[..f.end], Syntax));
      assert line == line[..f.end] + line[f.end..];
    } else if IsRule(line) {
      FlatOne(Token(line, Rule));
    } else {
      var o := OpeningOf(line);
      var prose := line[o.from..];
      OpeningLossless(line);
      InlineLossless(prose, o.base, 0);
      assert prose[0..] == prose && line == line[..o.from] + prose;
      FlatJoins(o.pieces, Inline(prose, o.base, 0));
    }
  }

  lemma {:induction false} DocumentLossless(lines: seq<Text>, i: nat, fence: Option<Open>)
    requires i < |lines|
    ensures Flat(Document(lines, i, fence)) == (if i == 0 then [] else [LINE_FEED]) + Join(lines[i..])
    decreases |lines| - i
  {
    hide Flat, OneLine, NextFence;
    var separator, pieces := Separator(i, fence), OneLine(lines[i], fence);
    var rest := Document(lines, i + 1, NextFence(lines[i], fence));
    LineLossless(lines[i], fence);
    FlatJoins(separator + pieces, rest);
    FlatJoins(separator, pieces);
    FlatNothing();
    if i > 0 { FlatOne(separator[0]); }
    assert lines[i..][1..] == lines[i + 1..];
    if i + 1 < |lines| {
      DocumentLossless(lines, i + 1, NextFence(lines[i], fence));
      assert Join(lines[i..]) == lines[i] + [LINE_FEED] + Join(lines[i + 1..]);
      assert Flat(separator) + lines[i] + ([LINE_FEED] + Join(lines[i + 1..])) == Flat(separator) + Join(lines[i..]);
    } else {
      assert Join(lines[i..]) == lines[i];
      assert Flat(separator) + lines[i] + [] == Flat(separator) + lines[i];
    }
  }

  /** For every source the tokens join to the source exactly, none is empty, neighbours
      differ in kind, and the merging has changed no character's colour. */
  lemma Lossless(source: Text)
    ensures Flat(Tokens(source)) == source && Merged(Tokens(source))
    ensures Cells(Tokens(source)) == Cells(Document(Lines(source), 0, None))
  {
    hide Flat, Lines, Join, Document, PushAll, Cells;
    var lines := Lines(source);
    var pieces := Document(lines, 0, None);
    DocumentLossless(lines, 0, None);
    JoinLines(source);
    assert lines[0..] == lines && [] + Join(lines) == Join(lines);
    PushAllKeeps([], pieces);
    assert Cells([]) == [] by { NoCells(); }
    assert [] + Cells(pieces) == Cells(pieces);
    FlatIsUnits(pieces);
    FlatIsUnits(Tokens(source));
  }

  lemma NoCells()
    ensures Cells([]) == []
  {
  }
}
