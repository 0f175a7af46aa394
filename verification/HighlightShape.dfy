/** Which piece of a prompt src/lib/markdownHighlight.ts gives which kind, as patterns of
    the text, and that the tokens follow them. */
module HighlightShape {
  import opened Basics
  import opened Regex
  import opened TextLines
  import opened Highlight

  // ------------------------------------------------------------ inline patterns

  datatype Shape =
    | Escaped
    | CodeSpan(n: nat, close: nat)
    | LoneTicks(n: nat)
    | LinkOf(bang: nat, labelEnd: nat, urlEnd: nat)
    | Emphasised(marker: Text, close: nat)
    | Bare(n: nat)

  predicate Is(s: Text, i: nat, c: char) { i < |s| && s[i] == c as nat }

  predicate AllTicks(s: Text, i: nat, j: nat)
    requires i <= j <= |s|
  {
    forall k | i <= k < j :: s[k] == '`' as nat
  }

  /** n ticks at i, and no more behind them. */
  predicate TicksAt(s: Text, i: nat, n: nat) { n > 0 && i + n <= |s| && AllTicks(s, i, i + n) && !Is(s, i + n, '`') }

  /** A whole run of exactly n ticks. */
  predicate WholeRun(s: Text, i: nat, n: nat) { TicksAt(s, i, n) && (i == 0 || !Is(s, i - 1, '`')) }

  predicate NoneOf(s: Text, i: nat, j: nat, c: char)
    requires i <= j <= |s|
  {
    forall k | i <= k < j :: s[k] != c as nat && s[k] != '\n' as nat
  }

  /** (!?)\[([^\]\n]*)\]\(([^)\n]*)\) */
  predicate LinkShape(s: Text, i: nat, bang: nat, labelEnd: nat, urlEnd: nat) {
    var open := i + bang;
    && bang <= 1 && (bang == 1 ==> Is(s, i, '!')) && Is(s, open, '[')
    && open < labelEnd < |s| && NoneOf(s, open + 1, labelEnd, ']') && Is(s, labelEnd, ']') && Is(s, labelEnd + 1, '(')
    && labelEnd + 1 < urlEnd < |s| && NoneOf(s, labelEnd + 2, urlEnd, ')') && Is(s, urlEnd, ')')
  }

  /** A letter, a digit or an underscore stands at i. */
  predicate InWord(s: Text, i: int) {
    0 <= i < |s| && ('0' as nat <= s[i] <= '9' as nat || 'A' as nat <= s[i] <= 'Z' as nat || 'a' as nat <= s[i] <= 'z' as nat || s[i] == '_' as nat)
  }

  predicate SpaceAt(s: Text, i: nat) { i < |s| && IsSpaceCode(s[i]) }

  predicate Stands(s: Text, i: nat, word: Text) { i + |word| <= |s| && s[i..i + |word|] == word }

  /** The marker may open here: not an underscore behind a word, and a character that is
      no space comes next. */
  predicate MayOpen(s: Text, i: nat, marker: Text) {
    && Stands(s, i, marker) && i + |marker| < |s| && !SpaceAt(s, i + |marker|)
    && (Is(marker, 0, '_') ==> !InWord(s, i - 1))
  }

  /** The marker may close there: not behind a space, and not an underscore before a word. */
  predicate MayClose(s: Text, j: nat, marker: Text) {
    && Stands(s, j, marker) && j > 0 && !SpaceAt(s, j - 1)
    && (Is(marker, 0, '_') ==> !InWord(s, j + |marker|))
  }

  /** It opens here and closes at the first place where it may. */
  predicate EmphasisShape(s: Text, i: nat, marker: Text, close: nat) {
    && MayOpen(s, i, marker) && i + |marker| < close && MayClose(s, close, marker)
    && forall j | i + |marker| < j < close :: !MayClose(s, j, marker)
  }

  ghost predicate Emphasises(s: Text, i: nat, marker: Text) { exists close: nat :: EmphasisShape(s, i, marker, close) }

  /** The markers in the order in which they are tried. */
  function Markers(): seq<Text> { [Units("***"), Units("___"), Units("**"), Units("__"), Units("~~"), Units("*"), Units("_")] }

  predicate Construct(c: nat) { c in Units("\\`[*_~!") }

  ghost predicate Shaped(s: Text, i: nat, shape: Shape)
    requires i < |s|
  {
    match shape
    case Escaped => Is(s, i, '\\') && i + 1 < |s|
    case CodeSpan(n, close) =>
      TicksAt(s, i, n) && i + n <= close && WholeRun(s, close, n) && forall c: nat | i + n <= c < close :: !WholeRun(s, c, n)
    case LoneTicks(n) => TicksAt(s, i, n) && forall c: nat | i + n <= c :: !WholeRun(s, c, n)
    case LinkOf(bang, labelEnd, urlEnd) => LinkShape(s, i, bang, labelEnd, urlEnd)
    case Emphasised(marker, close) =>
      EmphasisShape(s, i, marker, close)
      && exists k :: 0 <= k < |Markers()| && Markers()[k] == marker && forall j :: 0 <= j < k ==> !Emphasises(s, i, Markers()[j])
    case Bare(n) =>
      && (Is(s, i, '\\') ==> i + 1 == |s|) && !Is(s, i, '`')
      && (forall bang: nat, labelEnd: nat, urlEnd: nat :: !LinkShape(s, i, bang, labelEnd, urlEnd))
      && (forall k :: 0 <= k < |Markers()| ==> !Emphasises(s, i, Markers()[k]))
      && 0 < n && i + n <= |s| && (n > 1 ==> forall k | i <= k < i + n :: !Construct(s[k]))
      && (!Construct(s[i]) && i + n < |s| ==> Construct(s[i + n]))
  }

  /** The kind of what an emphasis encloses: within strong text emphasis is both. */
  function BodyKind(base: Kind, marker: Text): Kind {
    if |marker| == 3 then StrongEm
    else if Is(marker, 0, '~') then Strike
    else if |marker| == 2 then if base.Em? then StrongEm else Strong
    else if base.Strong? then StrongEm else Em
  }

  /** The pieces of an inline text of one kind, from i on. */
  ghost predicate Reads(s: Text, base: Kind, i: nat, pieces: seq<Token>)
    decreases |s|, |s| - i, 1
  {
    if i >= |s| then pieces == []
    else exists shape: Shape, inner: seq<Token>, rest: seq<Token> ::
      Shaped(s, i, shape) && ReadsOn(s, base, i, shape, inner, rest, pieces)
  }

  /** The pieces are those of the shape, with the pieces within it, and then the rest. */
  ghost predicate ReadsOn(s: Text, base: Kind, i: nat, shape: Shape, inner: seq<Token>, rest: seq<Token>, pieces: seq<Token>)
    requires i < |s| && Shaped(s, i, shape)
    decreases |s|, |s| - i, 0
  {
    match shape
    case Escaped =>
      Reads(s, base, i + 2, rest) && pieces == [Token(Units("\\"), Syntax), Token([s[i + 1]], base)] + rest
    case CodeSpan(n, close) =>
      && Reads(s, base, close + n, rest)
      && pieces == [Token(s[i..i + n], Syntax), Token(s[i + n..close], Code), Token(s[i..i + n], Syntax)] + rest
    case LoneTicks(n) => Reads(s, base, i + n, rest) && pieces == [Token(s[i..i + n], base)] + rest
    case LinkOf(bang, labelEnd, urlEnd) =>
      && Reads(s[i + bang + 1..labelEnd], Label, 0, inner) && Reads(s, base, urlEnd + 1, rest)
      && pieces == [Token(s[i..i + bang + 1], Syntax)] + inner
           + [Token(Units("]("), Syntax), Token(s[labelEnd + 2..urlEnd], Url), Token(Units(")"), Syntax)] + rest
    case Emphasised(marker, close) =>
      && Reads(s[i + |marker|..close], BodyKind(base, marker), 0, inner) && Reads(s, base, close + |marker|, rest)
      && pieces == [Token(marker, Syntax)] + inner + [Token(marker, Syntax)] + rest
    case Bare(n) => Reads(s, base, i + n, rest) && pieces == [Token(s[i..i + n], base)] + rest
  }

  // ------------------------------------------------------------ the scanner finds the patterns

  lemma {:induction false} RunEndIs(s: Text, i: nat, c: nat)
    requires i <= |s|
    ensures var e := RunEnd(s, i, c); e == |s| || s[e] != c
    decreases |s| - i
  {
    if i < |s| && s[i] == c { RunEndIs(s, i + 1, c); }
  }

  lemma {:induction false} ClosingTicksIs(s: Text, j: nat, n: nat)
    requires j <= |s| && n > 0 && (j == 0 || j == |s| || !Is(s, j - 1, '`') || !Is(s, j, '`'))
    ensures match ClosingTicks(s, j, n)
      case None => forall c: nat | j <= c :: !WholeRun(s, c, n)
      case Some(close) => WholeRun(s, close, n) && forall c: nat | j <= c < close :: !WholeRun(s, c, n)
    decreases |s| - j
  {
    hide RunEnd;
    if j < |s| {
      if s[j] != Highlight.TICK {
        ClosingTicksIs(s, j + 1, n);
      } else {
        RunGoesOn(s, j);
        RunEndIs(s, j, Highlight.TICK);
        var e := RunEnd(s, j, Highlight.TICK);
        OnlyRun(s, j, e, n);
        if e - j != n { ClosingTicksIs(s, e, n); }
      }
    }
  }

  /** Within a run only the run itself is whole. */
  lemma OnlyRun(s: Text, j: nat, e: nat, n: nat)
    requires j < e <= |s| && AllTicks(s, j, e) && !Is(s, e, '`') && (j == 0 || !Is(s, j - 1, '`'))
    ensures WholeRun(s, j, n) <==> n == e - j
    ensures forall c: nat | j < c < e :: !WholeRun(s, c, n)
  {
  }

  lemma {:induction false} UntilIs(s: Text, i: nat, c: char)
    requires i <= |s|
    ensures var e := Until(s, i, c as nat); NoneOf(s, i, e, c) && (e == |s| || s[e] == c as nat || s[e] == '\n' as nat)
    decreases |s| - i
  {
    if i < |s| && s[i] != c as nat && s[i] != LINE_FEED { UntilIs(s, i + 1, c); }
  }

  lemma LinkIs(s: Text, i: nat)
    requires i < |s|
    ensures match LinkAt(s, i)
      case None => forall bang: nat, labelEnd: nat, urlEnd: nat :: !LinkShape(s, i, bang, labelEnd, urlEnd)
      case Some(l) => LinkShape(s, i, l.bang, l.labelEnd, l.urlEnd)
  {
    hide Until, LinkShape;
    var bang := if s[i] == 33 then 1 else 0;
    if i + bang < |s| && s[i + bang] == 91 {
      UntilIs(s, i + bang + 1, ']');
      var labelEnd := Until(s, i + bang + 1, 93);
      if labelEnd + 2 <= |s| { UntilIs(s, labelEnd + 2, ')'); }
    }
    forall bang': nat, labelEnd: nat, urlEnd: nat | LinkShape(s, i, bang', labelEnd, urlEnd)
      ensures LinkAt(s, i).Some?
    {
      LinkFound(s, i, bang', labelEnd, urlEnd);
    }
    if LinkAt(s, i).Some? { FoundLink(s, i); }
  }

  lemma UntilFound(s: Text, i: nat, e: nat, c: char)
    requires i <= e < |s| && NoneOf(s, i, e, c) && (s[e] == c as nat)
    ensures Until(s, i, c as nat) == e
    decreases e - i
  {
    if i < e { UntilFound(s, i + 1, e, c); }
  }

  lemma LinkFound(s: Text, i: nat, bang: nat, labelEnd: nat, urlEnd: nat)
    requires i < |s| && LinkShape(s, i, bang, labelEnd, urlEnd)
    ensures LinkAt(s, i).Some?
  {
    hide Until;
    UntilFound(s, i + bang + 1, labelEnd, ']');
    UntilFound(s, labelEnd + 2, urlEnd, ')');
  }

  lemma FoundLink(s: Text, i: nat)
    requires i < |s| && LinkAt(s, i).Some?
    ensures var l := LinkAt(s, i).value; LinkShape(s, i, l.bang, l.labelEnd, l.urlEnd)
  {
    hide Until;
    var bang := if s[i] == 33 then 1 else 0;
    var labelEnd := Until(s, i + bang + 1, 93);
    UntilIs(s, i + bang + 1, ']');
    UntilIs(s, labelEnd + 2, ')');
  }

  lemma {:induction false} ClosingDelimiterIs(s: Text, j: nat, marker: Text)
    requires 0 < j <= |s| && marker != []
    ensures match ClosingDelimiter(s, j, marker)
      case None => forall c: nat | j <= c :: !MayClose(s, c, marker)
      case Some(close) => MayClose(s, close, marker) && forall c: nat | j <= c < close :: !MayClose(s, c, marker)
    decreases |s| - j
  {
    hide IsSpaceCode;
    if j < |s| {
      MayCloseIs(s, j, marker);
      if ClosingDelimiter(s, j, marker) != Some(j) { ClosingDelimiterIs(s, j + 1, marker); }
    }
  }

  lemma MayCloseIs(s: Text, j: nat, marker: Text)
    requires 0 < j < |s| && marker != []
    ensures MayClose(s, j, marker) <==>
      At(s, j, marker) && !IsSpaceCode(s[j - 1]) && !(marker[0] == 95 && j + |marker| < |s| && WordUnit(s[j + |marker|]))
    ensures MayClose(s, j, marker) <==> ClosingDelimiter(s, j, marker) == Some(j)
  {
    hide IsSpaceCode;
    ClosingGoesOn(s, j, marker);
  }

  lemma ClosingGoesOn(s: Text, j: nat, marker: Text)
    requires 0 < j < |s| && marker != []
    ensures ClosingDelimiter(s, j + 1, marker) != Some(j)
  {
  }

  lemma EmphasisIs(s: Text, i: nat, m: Mark)
    requires i < |s| && m.marker != []
    ensures match EmphasisClose(s, i, m)
      case None => !Emphasises(s, i, m.marker)
      case Some(close) => EmphasisShape(s, i, m.marker, close)
  {
    hide IsSpaceCode, ClosingDelimiter;
    var from := i + |m.marker|;
    if from < |s| { ClosingDelimiterIs(s, from + 1, m.marker); }
  }

  lemma MarkersAre()
    ensures |Markers()| == |Marks()| && forall k :: 0 <= k < |Marks()| ==> Marks()[k].marker == Markers()[k]
    ensures forall k :: 0 <= k < |Markers()| ==> Markers()[k] != []
  {
    assert Units("***") == [42, 42, 42] && Units("___") == [95, 95, 95] && Units("**") == [42, 42] && Units("__") == [95, 95];
    assert Units("~~") == [126, 126] && Units("*") == [42] && Units("_") == [95];
  }

  lemma {:induction false} FirstEmphasisIs(s: Text, i: nat, k: nat)
    requires i < |s| && k <= |Marks()|
    ensures match FirstEmphasis(s, i, k)
      case None => forall j :: k <= j < |Marks()| ==> !Emphasises(s, i, Markers()[j])
      case Some(found) =>
        && EmphasisShape(s, i, found.0.marker, found.1)
        && exists j :: k <= j < |Marks()| && Marks()[j] == found.0 && forall h :: k <= h < j ==> !Emphasises(s, i, Markers()[h])
    decreases |Marks()| - k
  {
    hide EmphasisShape, EmphasisClose, Marks, Markers, Emphasises, At;
    MarkersAre();
    if k < |Marks()| {
      EmphasisIs(s, i, Marks()[k]);
      if EmphasisClose(s, i, Marks()[k]).None? {
        FirstEmphasisIs(s, i, k + 1);
      }
    }
  }

  lemma {:induction false} PlainEndIs(s: Text, i: nat)
    requires i <= |s|
    ensures var e := PlainEnd(s, i); (forall k | i <= k < e :: !Construct(s[k])) && (e < |s| ==> Construct(s[e]))
    decreases |s| - i
  {
    hide Construct, Special;
    if i < |s| {
      SpecialIs(s[i]);
      if !Special(s[i]) { PlainEndIs(s, i + 1); }
    }
  }

  lemma SpecialIs(c: nat)
    ensures Special(c) <==> Construct(c)
  {
    assert Units("\\`[*_~!") == [92, 96, 91, 42, 95, 126, 33];
  }

  function ShapeOf(c: Highlight.Construct, i: nat): Shape {
    match c
    case Escape => Escaped
    case Span(end, close) => CodeSpan(if end > i then end - i else 0, close)
    case Ticks(end) => LoneTicks(if end > i then end - i else 0)
    case Linked(l) => LinkOf(l.bang, l.labelEnd, l.urlEnd)
    case Emphasis(m, close) => Emphasised(m.marker, close)
    case Run(end) => Bare(if end > i then end - i else 0)
  }

  lemma ConstructIs(s: Text, i: nat)
    requires i < |s|
    ensures Shaped(s, i, ShapeOf(ConstructAt(s, i), i))
  {
    hide LinkShape, EmphasisShape, Emphasises, ClosingTicks, LinkAt, FirstEmphasis, RunEnd, Marks, Markers, WholeRun, Construct, Special;
    RunEndIs(s, i, Highlight.TICK);
    LinkIs(s, i);
    FirstEmphasisIs(s, i, 0);
    MarkersAre();
    if s[i] == Highlight.TICK {
      RunGoesOn(s, i);
      var e := RunEnd(s, i, Highlight.TICK);
      ClosingTicksIs(s, e, e - i);
    }
    SpecialIs(s[i]);
    PlainEndIs(s, i + 1);
  }

  /** The inner text of a construct and the kind it is read with. */
  function InnerOf(s: Text, base: Kind, i: nat, c: Highlight.Construct): seq<Token>
    requires i < |s| && c == ConstructAt(s, i)
  {
    match c
    case Linked(l) => Inline(s[i + l.bang + 1..l.labelEnd], Label, 0)
    case Emphasis(m, close) => Inline(s[i + |m.marker|..close], Combine(base, m.kind), 0)
    case _ => []
  }

  ghost predicate InnerReads(s: Text, base: Kind, i: nat, c: Highlight.Construct)
    requires i < |s| && c == ConstructAt(s, i)
  {
    if c.Linked? then Reads(s[i + c.link.bang + 1..c.link.labelEnd], Label, 0, InnerOf(s, base, i, c))
    else if c.Emphasis? then
      var kind := BodyKind(base, c.mark.marker);
      Combine(base, c.mark.kind) == kind && Reads(s[i + |c.mark.marker|..c.close], kind, 0, InnerOf(s, base, i, c))
    else true
  }

  function NextOf(s: Text, i: nat, c: Highlight.Construct): (n: nat)
    requires i < |s| && c == ConstructAt(s, i)
    ensures i < n <= |s|
  {
    match c
    case Escape => i + 2
    case Span(end, close) => close + (end - i)
    case Ticks(end) => end
    case Linked(l) => l.urlEnd + 1
    case Emphasis(m, close) => close + |m.marker|
    case Run(end) => end
  }

  lemma BodyKinds(s: Text, i: nat, base: Kind)
    requires i < |s| && ConstructAt(s, i).Emphasis?
    ensures var m := ConstructAt(s, i).mark; Combine(base, m.kind) == BodyKind(base, m.marker)
  {
    hide EmphasisShape, Emphasises, EmphasisClose, At, LinkAt, ClosingTicks;
    FirstEmphasisIs(s, i, 0);
    var k :| 0 <= k < |Marks()| && Marks()[k] == ConstructAt(s, i).mark;
  }

  lemma {:induction false} InlineReads(s: Text, base: Kind, i: nat)
    requires i <= |s|
    ensures Reads(s, base, i, Inline(s, base, i))
    decreases |s|, |s| - i
  {
    hide ConstructAt, Shaped, ReadsOn, Inline, Combine, BodyKind;
    if i == |s| {
      InlineNothing(s, base);
      NoPieces(s, base);
    } else {
      var c := ConstructAt(s, i);
      var rest := Inline(s, base, NextOf(s, i, c));
      ConstructIs(s, i);
      InlineReads(s, base, NextOf(s, i, c));
      match c {
        case Linked(l) => InlineReads(s[i + l.bang + 1..l.labelEnd], Label, 0);
        case Emphasis(m, close) =>
          BodyKinds(s, i, base);
          InlineReads(s[i + |m.marker|..close], Combine(base, m.kind), 0);
        case _ =>
      }
      PiecesOf(s, base, i);
      assert ReadsOn(s, base, i, ShapeOf(c, i), InnerOf(s, base, i, c), rest, Inline(s, base, i));
    }
  }

  lemma NoPieces(s: Text, base: Kind)
    ensures Inline(s, base, |s|) == []
  {
  }

  /** The scanner pushes the pieces of the shape. */
  lemma PiecesOf(s: Text, base: Kind, i: nat)
    requires i < |s| && Shaped(s, i, ShapeOf(ConstructAt(s, i), i))
    requires var c := ConstructAt(s, i); Reads(s, base, NextOf(s, i, c), Inline(s, base, NextOf(s, i, c)))
    requires InnerReads(s, base, i, ConstructAt(s, i))
    ensures var c := ConstructAt(s, i);
      ReadsOn(s, base, i, ShapeOf(c, i), InnerOf(s, base, i, c), Inline(s, base, NextOf(s, i, c)), Inline(s, base, i))
  {
    hide ConstructAt, Shaped, Reads, Inline, Combine, BodyKind, LinkAt, LinkPieces, Units;
    InlineIs(s, base, i);
    EscapeUnit();
    if ConstructAt(s, i).Linked? { LinkedPieces(s, i, ConstructAt(s, i).link); }
  }

  lemma EscapeUnit()
    ensures Units("\\") == [92]
  {
  }

  lemma LinkedPieces(s: Text, i: nat, l: Link)
    requires i < |s| && ConstructAt(s, i) == Linked(l) && i + l.bang < |s| && s[i + l.bang] == 91
    ensures LinkPieces(s, i, l) == [Token(s[i..i + l.bang + 1], Syntax)] + Inline(s[i + l.bang + 1..l.labelEnd], Label, 0)
      + [Token(Units("]("), Syntax), Token(s[l.labelEnd + 2..l.urlEnd], Url), Token(Units(")"), Syntax)]
  {
    hide ConstructAt, Inline;
    assert Units("](") == [93, 40] && Units(")") == [41];
    assert s[i..i + l.bang + 1] == s[i..i + l.bang] + [91];
  }

  // ------------------------------------------------------------ lines

  predicate Spaces(s: Text, i: nat, j: nat)
    requires i <= j <= |s|
  {
    forall k | i <= k < j :: IsSpaceCode(s[k])
  }

  /** All the spaces from i on, up to j. */
  predicate SpacesTo(s: Text, i: nat, j: nat) { i <= j <= |s| && Spaces(s, i, j) && !SpaceAt(s, j) }

  /** The run of one character from n on, up to e, is at least three long. */
  predicate LongRun(s: Text, n: nat, e: nat) {
    n + 3 <= e <= |s| && (forall k | n <= k < e :: s[k] == s[n]) && (e == |s| || s[e] != s[n])
  }

  /** ^(\s{0,3})(`{3,}|~{3,})(.*)$, whose dot takes no line terminator. */
  predicate FenceLine(line: Text, n: nat, e: nat) {
    && n <= 3 && LongRun(line, n, e) && Spaces(line, 0, n) && (Is(line, n, '`') || Is(line, n, '~'))
    && forall k | e <= k < |line| :: line[k] !in {10, 13, 0x2028, 0x2029}
  }

  /** ^\s{0,3}(?:-{3,}|\*{3,}|_{3,})\s*$ */
  predicate RuleRun(line: Text, n: nat, e: nat) {
    && n <= 3 && LongRun(line, n, e) && Spaces(line, 0, n) && Spaces(line, e, |line|)
    && (Is(line, n, '-') || Is(line, n, '*') || Is(line, n, '_'))
  }

  ghost predicate RuleLine(line: Text) { exists n: nat, e: nat :: RuleRun(line, n, e) }

  /** ^#{1,6}(?=\s|$) */
  predicate HeadingMark(s: Text, i: nat, j: nat) {
    i < j <= i + 6 && j <= |s| && (forall k | i <= k < j :: s[k] == '#' as nat) && (j == |s| || SpaceAt(s, j))
  }

  function QuoteRe(): Re<nat> { Cat(Class(c => c == '>' as nat), Maybe(Class(IsSpaceCode))) }

  /** ^(?:>\s?)+, as long as it can be. */
  ghost predicate QuoteMark(s: Text, i: nat, j: nat) {
    && i < j <= |s| && Matches(Plus(QuoteRe()), s[i..j])
    && !Is(s, j, '>') && (Is(s, j - 1, '>') ==> !SpaceAt(s, j))
  }

  /** ^(?:[-*+]|\d{1,9}[.)])\s+, with its marker up to m. */
  predicate BulletMark(s: Text, i: nat, m: nat, j: nat) {
    && i < m < j && SpacesTo(s, m, j)
    && if m == i + 1 then Is(s, i, '-') || Is(s, i, '*') || Is(s, i, '+')
       else m - i <= 10 && (forall k | i <= k < m - 1 :: '0' as nat <= s[k] <= '9' as nat) && (Is(s, m - 1, '.') || Is(s, m - 1, ')'))
  }

  ghost predicate Bullet(s: Text, i: nat, j: nat) { exists m :: BulletMark(s, i, m, j) }

  /** ^\[[ xX]\]\s+ */
  predicate TaskMark(s: Text, i: nat, j: nat) {
    && i + 3 < j && SpacesTo(s, i + 3, j) && Is(s, i, '[') && Is(s, i + 2, ']')
    && (Is(s, i + 1, ' ') || Is(s, i + 1, 'x') || Is(s, i + 1, 'X'))
  }

  /** The markers of a prose line: blanks to a, a quote prefix to b, a bullet to c and its
      task box to d, each only where it stands. */
  ghost predicate ProseMarks(s: Text, a: nat, b: nat, c: nat, d: nat) {
    && SpacesTo(s, 0, a) && (forall j :: !HeadingMark(s, a, j))
    && (QuoteMark(s, a, b) || (b == a && !Is(s, a, '>')))
    && (Bullet(s, b, c) || (c == b && forall j :: !Bullet(s, b, j)))
    && ((c > b && TaskMark(s, c, d)) || (d == c && (c == b || forall j :: !TaskMark(s, c, j))))
  }

  ghost predicate HeadingPieces(line: Text, a: nat, b: nat, inner: seq<Token>, pieces: seq<Token>) {
    && SpacesTo(line, 0, a) && HeadingMark(line, a, b) && Reads(line[b..], Heading, 0, inner)
    && pieces == [Token(line[..a], Plain), Token(line[a..b], Syntax)] + inner
  }

  ghost predicate ProsePieces(line: Text, a: nat, b: nat, c: nat, d: nat, inner: seq<Token>, pieces: seq<Token>) {
    && a <= b <= c <= d <= |line| && ProseMarks(line, a, b, c, d)
    && Reads(line[d..], if a < b then Quoted else Plain, 0, inner)
    && pieces == [Token(line[..a], Plain), Token(line[a..b], Syntax), Token(line[b..c], Syntax), Token(line[c..d], Syntax)] + inner
  }

  /** A line outside fences: a rule, a heading, or prose behind its markers. */
  ghost predicate LineReads(line: Text, pieces: seq<Token>) {
    if RuleLine(line) then pieces == [Token(line, Rule)]
    else
      || (exists a, b, inner :: HeadingPieces(line, a, b, inner, pieces))
      || (exists a, b, c, d, inner :: ProsePieces(line, a, b, c, d, inner, pieces))
  }

  /** The line closes a fence of this character and length. */
  ghost predicate Shuts(line: Text, fence: Open) {
    exists n: nat, e: nat :: ShutsAt(line, fence, n, e)
  }

  predicate ShutsAt(line: Text, fence: Open, n: nat, e: nat) {
    FenceLine(line, n, e) && line[n] == fence.unit && e - n >= fence.length && Spaces(line, e, |line|)
  }

  /** The pieces of a line and the fence that is open behind it. */
  ghost predicate LineStep(line: Text, fence: Option<Open>, pieces: seq<Token>, next: Option<Open>) {
    if fence.Some? then
      if Shuts(line, fence.value) then pieces == [Token(line, Syntax)] && next == None
      else pieces == [Token(line, CodeBlock)] && next == fence
    else if exists n: nat, e: nat :: FenceLine(line, n, e) then
      exists n: nat, e: nat :: FenceLine(line, n, e) && next == Some(Open(line[n], e - n))
        && pieces == [Token(line[..e], Syntax), Token(line[e..], Code)]
    else LineReads(line, pieces) && next == None
  }

  /** The pieces of the lines from i on; the line feed before a line is of the block it is in. */
  ghost predicate LinesRead(lines: seq<Text>, i: nat, fence: Option<Open>, pieces: seq<Token>)
    requires i <= |lines|
    decreases |lines| - i, 1
  {
    if i == |lines| then pieces == []
    else exists first: seq<Token>, next: Option<Open>, rest: seq<Token> :: LinesReadOn(lines, i, fence, first, next, rest, pieces)
  }

  ghost predicate LinesReadOn(lines: seq<Text>, i: nat, fence: Option<Open>, first: seq<Token>, next: Option<Open>, rest: seq<Token>,
                              pieces: seq<Token>)
    requires i < |lines|
    decreases |lines| - i, 0
  {
    && LineStep(lines[i], fence, first, next) && LinesRead(lines, i + 1, next, rest)
    && pieces == (if i == 0 then [] else [Token([LINE_FEED], if fence.Some? then CodeBlock else Plain)]) + first + rest
  }

  // ------------------------------------------------------------ the line scanner finds them

  lemma {:induction false} SpacesEndIs(s: Text, i: nat)
    requires i <= |s|
    ensures SpacesTo(s, i, SpacesEnd(s, i))
    decreases |s| - i
  {
    hide IsSpaceCode;
    if i < |s| && IsSpaceCode(s[i]) { SpacesEndIs(s, i + 1); }
  }

  lemma OneEnd(s: Text, i: nat, j: nat, j': nat)
    requires SpacesTo(s, i, j) && SpacesTo(s, i, j')
    ensures j == j'
  {
    hide IsSpaceCode;
  }

  lemma {:induction false} RunEndFound(s: Text, i: nat, c: nat, e: nat)
    requires i <= e <= |s| && (forall k :: i <= k < e ==> s[k] == c) && (e == |s| || s[e] != c)
    ensures RunEnd(s, i, c) == e
    decreases e - i
  {
    if i < e { RunEndFound(s, i + 1, c, e); }
  }

  /** Blanks before a character that is none are all blanks. */
  lemma IndentFound(s: Text, n: nat)
    requires n < |s| && Spaces(s, 0, n) && !IsSpaceCode(s[n])
    ensures SpacesEnd(s, 0) == n
  {
    hide IsSpaceCode, SpacesEnd;
    SpacesEndIs(s, 0);
    OneEnd(s, 0, n, SpacesEnd(s, 0));
  }

  lemma FenceLineIs(line: Text, n: nat, e: nat)
    ensures FenceLine(line, n, e) <==> FenceAt(line) == Some(Fence(n, e))
  {
    hide SpacesEnd, RunEnd;
    SpacesEndIs(line, 0);
    if FenceLine(line, n, e) {
      IndentFound(line, n);
      RunEndFound(line, n, line[n], e);
    }
    if FenceAt(line) == Some(Fence(n, e)) {
      RunEndIs(line, n, line[n]);
      RunStarts(line, n, e);
    }
  }

  lemma RunStarts(line: Text, n: nat, e: nat)
    requires FenceAt(line) == Some(Fence(n, e))
    ensures line[n] == 96 || line[n] == 126
    ensures RunEnd(line, n, line[n]) == e
  {
    hide SpacesEnd;
  }

  lemma RuleLineIs(line: Text)
    ensures RuleLine(line) <==> IsRule(line)
  {
    hide SpacesEnd, RunEnd;
    SpacesEndIs(line, 0);
    var n := SpacesEnd(line, 0);
    if RuleLine(line) {
      var n', e :| RuleRun(line, n', e);
      IndentFound(line, n');
      RunEndFound(line, n, line[n], e);
      SpacesEndIs(line, e);
      OneEnd(line, e, SpacesEnd(line, e), |line|);
    }
    if IsRule(line) {
      var e := RunEnd(line, n, line[n]);
      RunEndIs(line, n, line[n]);
      SpacesEndIs(line, e);
      assert RuleRun(line, n, e);
    }
  }

  lemma HeadingIs(line: Text, a: nat)
    requires a <= |line|
    ensures var n := HeadingLength(line[a..]); if n > 0 then HeadingMark(line, a, a + n) else forall j :: !HeadingMark(line, a, j)
  {
    hide RunEnd;
    var rest := line[a..];
    assert forall k :: 0 <= k < |rest| ==> rest[k] == line[a + k];
    RunEndIs(rest, 0, 35);
    forall j: nat | HeadingMark(line, a, j) ensures HeadingLength(rest) > 0 {
      RunEndFound(rest, 0, 35, j - a);
    }
  }

  lemma {:induction false} QuoteRuns(s: Text, i: nat)
    requires i <= |s|
    ensures var e := QuoteLength(s, i);
      Matches(Star(QuoteRe()), s[i..e]) && !Is(s, e, '>') && (e > i && Is(s, e - 1, '>') ==> !SpaceAt(s, e))
    decreases |s| - i
  {
    hide Matches, IsSpaceCode;
    var e := QuoteLength(s, i);
    if i < |s| && s[i] == 62 {
      var j := if i + 1 < |s| && IsSpaceCode(s[i + 1]) then i + 2 else i + 1;
      QuoteRuns(s, j);
      OneQuote(s, i, j);
      assert s[i..e][..j - i] == s[i..j] && s[i..e][j - i..] == s[j..e];
      StarIs(QuoteRe(), s[i..e], j - i);
      if e == j { QuoteStops(s, i, j); }
    } else {
      StarOfNone(QuoteRe());
      assert s[i..e] == [];
    }
  }

  lemma QuoteStops(s: Text, i: nat, j: nat)
    requires i < |s| && s[i] == 62 && j == if i + 1 < |s| && IsSpaceCode(s[i + 1]) then i + 2 else i + 1
    ensures Is(s, j - 1, '>') ==> !SpaceAt(s, j)
  {
  }

  lemma OneQuote(s: Text, i: nat, j: nat)
    requires i < |s| && s[i] == 62 && j == if i + 1 < |s| && IsSpaceCode(s[i + 1]) then i + 2 else i + 1
    ensures Matches(QuoteRe(), s[i..j])
  {
    hide Matches, IsSpaceCode;
    OneThen((c: nat) => c == '>' as nat, Maybe(Class(IsSpaceCode)), s[i..j]);
    MaybeIs(IsSpaceCode, s[i..j][1..]);
  }

  lemma QuoteIs(line: Text, a: nat)
    requires a <= |line|
    ensures var n := QuoteLength(line[a..], 0); if n > 0 then QuoteMark(line, a, a + n) else !Is(line, a, '>')
  {
    hide Matches, IsSpaceCode;
    var rest := line[a..];
    var n := QuoteLength(rest, 0);
    QuoteRuns(rest, 0);
    assert forall k :: 0 <= k < |rest| ==> rest[k] == line[a + k];
    if n > 0 {
      assert rest[0..n] == line[a..a + n];
      var i := StarSplits(QuoteRe(), rest[0..n]);
      CatIs(QuoteRe(), Star(QuoteRe()), rest[0..n], i);
    }
  }

  lemma BulletIs(line: Text, b: nat)
    requires b <= |line|
    ensures var n := BulletLength(line[b..]);
      if n > 0 then Bullet(line, b, b + n) else forall j :: !Bullet(line, b, j)
  {
    hide SpacesEnd, DigitsEnd, IsSpaceCode;
    var rest := line[b..];
    DigitsEndIs(rest, 0);
    if BulletLength(rest) > 0 {
      var m := if rest[0] in {45, 42, 43} then 1 else DigitsEnd(rest, 0) + 1;
      SpacesEndIs(rest, m);
      assert BulletMark(line, b, b + m, b + BulletLength(rest));
    }
    forall j: nat | Bullet(line, b, j) ensures BulletLength(rest) > 0 {
      var m: nat :| BulletMark(line, b, m, j);
      BulletFound(line, b, m, j);
    }
  }

  lemma {:induction false} DigitsEndIs(s: Text, i: nat)
    requires i <= |s|
    ensures var e := DigitsEnd(s, i); (forall k :: i <= k < e ==> Digit(s[k])) && (e == |s| || !Digit(s[e]))
    decreases |s| - i
  {
    if i < |s| && Digit(s[i]) { DigitsEndIs(s, i + 1); }
  }

  lemma {:induction false} DigitsEndFound(s: Text, i: nat, e: nat)
    requires i <= e < |s| && (forall k :: i <= k < e ==> Digit(s[k])) && !Digit(s[e])
    ensures DigitsEnd(s, i) == e
    decreases e - i
  {
    if i < e { DigitsEndFound(s, i + 1, e); }
  }

  lemma BulletFound(line: Text, b: nat, m: nat, j: nat)
    requires b <= |line| && BulletMark(line, b, m, j)
    ensures BulletLength(line[b..]) > 0
  {
    hide SpacesEnd, DigitsEnd, IsSpaceCode;
    var rest := line[b..];
    assert rest[0] == line[b] && rest[m - 1 - b] == line[m - 1] && rest[m - b] == line[m];
    if m > b + 1 { DigitsEndFound(rest, 0, m - 1 - b); }
    SpacesEndIs(rest, m - b);
    assert IsSpaceCode(line[m]);
  }

  lemma TaskIs(line: Text, c: nat)
    requires c <= |line|
    ensures var n := TaskLength(line[c..]); if n > 0 then TaskMark(line, c, c + n) else forall j :: !TaskMark(line, c, j)
  {
    hide SpacesEnd, IsSpaceCode;
    var rest := line[c..];
    if |rest| >= 3 { SpacesEndIs(rest, 3); }
    forall j: nat | TaskMark(line, c, j) ensures TaskLength(rest) > 0 {
      assert rest[3] == line[c + 3] && IsSpaceCode(line[c + 3]);
    }
  }

  lemma ProseIs(line: Text)
    requires !IsRule(line) && HeadingLength(line[SpacesEnd(line, 0)..]) == 0
    ensures exists a, b, c, d, inner :: ProsePieces(line, a, b, c, d, inner, LinePieces(line))
  {
    hide IsRule, HeadingLength, QuoteLength, BulletLength, TaskLength, SpacesEnd, Inline, HeadingMark, QuoteMark, Bullet, TaskMark, SpacesTo, Reads;
    var a := SpacesEnd(line, 0);
    var rest := line[a..];
    var quote := QuoteLength(rest, 0);
    var b := a + quote;
    assert rest[quote..] == line[b..];
    var bullet := BulletLength(rest[quote..]);
    var c := b + bullet;
    assert rest[quote + bullet..] == line[c..];
    var task := if bullet > 0 then TaskLength(rest[quote + bullet..]) else 0;
    var d := c + task;
    SpacesEndIs(line, 0);
    HeadingIs(line, a);
    QuoteIs(line, a);
    BulletIs(line, b);
    TaskIs(line, c);
    assert ProseMarks(line, a, b, c, d);
    var base := if a < b then Quoted else Plain;
    InlineReads(line[d..], base, 0);
    Cuts(line, a, b, c, d);
    assert ProsePieces(line, a, b, c, d, Inline(line[d..], base, 0), LinePieces(line));
  }

  lemma Cuts(line: Text, a: nat, b: nat, c: nat, d: nat)
    requires a <= b <= c <= d <= |line|
    ensures line[a..][0..b - a] == line[a..b] && line[a..][b - a..c - a] == line[b..c]
    ensures line[a..][c - a..d - a] == line[c..d] && line[0..a] == line[..a]
  {
  }

  lemma LineReadsIs(line: Text)
    ensures LineReads(line, LinePieces(line))
  {
    hide IsRule, RuleLine, HeadingLength, SpacesEnd, Inline, HeadingMark, SpacesTo, Reads, QuoteLength, BulletLength, TaskLength, ProsePieces;
    RuleLineIs(line);
    var a := SpacesEnd(line, 0);
    var heading := HeadingLength(line[a..]);
    if !IsRule(line) {
      if heading > 0 {
        var b := a + heading;
        SpacesEndIs(line, 0);
        HeadingIs(line, a);
        InlineReads(line[b..], Heading, 0);
        assert line[a..][0..heading] == line[a..b] && line[0..a] == line[..a];
        assert HeadingPieces(line, a, b, Inline(line[b..], Heading, 0), LinePieces(line));
      } else {
        ProseIs(line);
      }
    }
  }

  lemma ShutsIs(line: Text, fence: Open)
    ensures Shuts(line, fence) <==> ClosesFence(line, fence)
  {
    hide FenceAt, Trim;
    if Shuts(line, fence) {
      var n: nat, e: nat :| ShutsAt(line, fence, n, e);
      FenceLineIs(line, n, e);
      BlankIs(line, e);
    }
    if ClosesFence(line, fence) {
      var f := FenceAt(line).value;
      FenceLineIs(line, f.indent, f.end);
      BlankIs(line, f.end);
      assert ShutsAt(line, fence, f.indent, f.end);
    }
  }

  lemma BlankIs(line: Text, e: nat)
    requires e <= |line|
    ensures Spaces(line, e, |line|) <==> Trim(line[e..]) == []
  {
    hide IsSpaceCode, Trim;
    TrimBlank(line[e..]);
    assert forall k :: 0 <= k < |line[e..]| ==> line[e..][k] == line[e + k];
    if Blank(line[e..]) {
      forall k | e <= k < |line| ensures IsSpaceCode(line[k]) { assert line[k] == line[e..][k - e]; }
    }
  }

  lemma LineStepIs(line: Text, fence: Option<Open>)
    ensures LineStep(line, fence, OneLine(line, fence), NextFence(line, fence))
  {
    hide FenceLine, FenceAt, Shuts, ClosesFence, LineReads, LinePieces;
    if fence.Some? {
      ShutsIs(line, fence.value);
    } else {
      if exists n: nat, e: nat :: FenceLine(line, n, e) {
        var n: nat, e: nat :| FenceLine(line, n, e);
        FenceLineIs(line, n, e);
      }
      if FenceAt(line).Some? {
        FenceLineIs(line, FenceAt(line).value.indent, FenceAt(line).value.end);
      } else {
        LineReadsIs(line);
      }
    }
  }

  lemma {:induction false} LinesReadIs(lines: seq<Text>, i: nat, fence: Option<Open>)
    requires i <= |lines|
    ensures LinesRead(lines, i, fence, Document(lines, i, fence))
    decreases |lines| - i
  {
    hide LineStep, OneLine, NextFence;
    if i < |lines| {
      var next := NextFence(lines[i], fence);
      LineStepIs(lines[i], fence);
      LinesReadIs(lines, i + 1, next);
      assert LinesReadOn(lines, i, fence, OneLine(lines[i], fence), next, Document(lines, i + 1, next), Document(lines, i, fence));
    }
  }

  /** Every character of a prompt has the kind that the patterns give it. */
  lemma TokensExactly(source: Text)
    ensures exists pieces :: LinesRead(Lines(source), 0, None, pieces) && Cells(Tokens(source)) == Cells(pieces)
    ensures Merged(Tokens(source))
  {
    hide LinesRead, Document, Cells, Merged, Tokens;
    LinesReadIs(Lines(source), 0, None);
    Lossless(source);
  }
}
