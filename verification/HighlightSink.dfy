/** The highlighter in its own form: a mutable sink that merges the last token, scanners
    that advance an index and recurse through the same sink. */
module HighlightSink {
  import opened Basics
  import opened TextLines
  import opened Highlight

  class Sink {
    var tokens: seq<Token>

    constructor ()
      ensures tokens == []
    {
      tokens := [];
    }

    method Push(text: Text, kind: Kind)
      modifies this
      ensures tokens == Highlight.Push(old(tokens), Token(text, kind))
    {
      if text == [] { return; }
      if tokens != [] && tokens[|tokens| - 1].kind == kind {
        var last := tokens[|tokens| - 1];
        tokens := tokens[..|tokens| - 1] + [last.(text := last.text + text)];
      } else {
        tokens := tokens + [Token(text, kind)];
      }
    }

    method PushEach(pieces: seq<Token>)
      modifies this
      ensures tokens == PushAll(old(tokens), pieces)
    {
      hide Highlight.Push;
      var k := 0;
      assert pieces[0..] == pieces;
      while k < |pieces|
        invariant 0 <= k <= |pieces|
        invariant PushAll(old(tokens), pieces) == PushAll(tokens, pieces[k..])
      {
        assert pieces[k..][1..] == pieces[k + 1..];
        Push(pieces[k].text, pieces[k].kind);
        k := k + 1;
      }
    }
  }

  // ------------------------------------------------------------ searching

  /** closingTicks */
  method FindClosingTicks(s: Text, start: nat, n: nat) returns (close: Option<nat>)
    requires start <= |s| && n > 0
    ensures close == ClosingTicks(s, start, n)
  {
    var j := start;
    while j < |s|
      invariant start <= j <= |s|
      invariant ClosingTicks(s, start, n) == ClosingTicks(s, j, n)
      decreases |s| - j
    {
      if s[j] != TICK {
        j := j + 1;
        continue;
      }
      var k := j;
      while k < |s| && s[k] == TICK
        invariant j <= k <= |s|
        invariant RunEnd(s, j, TICK) == RunEnd(s, k, TICK)
      {
        k := k + 1;
      }
      RunGoesOn(s, j);
      if k - j == n { return Some(j); }
      j := k;
    }
    return None;
  }

  /** closingDelimiter */
  method FindClosingDelimiter(s: Text, i: nat, m: Mark) returns (close: Option<nat>)
    requires i < |s| && m.marker != [] && At(s, i, m.marker)
    requires !(m.marker[0] == 95 && i > 0 && WordUnit(s[i - 1]))
    ensures close == EmphasisClose(s, i, m)
  {
    hide EmphasisClose, IsSpaceCode, WordUnit, At;
    var from := i + |m.marker|;
    CloseIsDelimiter(s, i, m);
    if from >= |s| || IsSpaceCode(s[from]) { return None; }
    var j := from + 1;
    while j < |s|
      invariant from + 1 <= j <= |s|
      invariant ClosingDelimiter(s, from + 1, m.marker) == ClosingDelimiter(s, j, m.marker)
    {
      if At(s, j, m.marker) && !IsSpaceCode(s[j - 1])
         && !(m.marker[0] == 95 && j + |m.marker| < |s| && WordUnit(s[j + |m.marker|])) {
        return Some(j);
      }
      j := j + 1;
    }
    return None;
  }

  lemma CloseIsDelimiter(s: Text, i: nat, m: Mark)
    requires i < |s| && m.marker != [] && At(s, i, m.marker)
    requires !(m.marker[0] == 95 && i > 0 && WordUnit(s[i - 1]))
    ensures var from := i + |m.marker|;
      EmphasisClose(s, i, m) ==
        if from >= |s| || IsSpaceCode(s[from]) then None else ClosingDelimiter(s, from + 1, m.marker)
  {
    hide ClosingDelimiter, IsSpaceCode, WordUnit, At;
  }

  method FindEmphasis(s: Text, i: nat) returns (found: Option<(Mark, nat)>)
    requires i < |s|
    ensures found == FirstEmphasis(s, i, 0)
  {
    hide EmphasisClose;
    var marks := Marks();
    var k := 0;
    while k < |marks|
      invariant 0 <= k <= |marks| && marks == Marks()
      invariant FirstEmphasis(s, i, 0) == FirstEmphasis(s, i, k)
    {
      var m := marks[k];
      var close: Option<nat> := None;
      if At(s, i, m.marker) && !(m.marker[0] == 95 && i > 0 && WordUnit(s[i - 1])) {
        close := FindClosingDelimiter(s, i, m);
      }
      NoEmphasis(s, i, m);
      if close.Some? { return Some((m, close.value)); }
      k := k + 1;
    }
    return None;
  }

  lemma NoEmphasis(s: Text, i: nat, m: Mark)
    requires i < |s| && m.marker != []
    ensures !At(s, i, m.marker) || (m.marker[0] == 95 && i > 0 && WordUnit(s[i - 1])) ==> EmphasisClose(s, i, m).None?
  {
  }

  method FindConstruct(s: Text, i: nat) returns (c: Construct)
    requires i < |s|
    ensures c == ConstructAt(s, i)
  {
    hide LinkAt, FirstEmphasis, ClosingTicks, PlainEnd;
    if s[i] == 92 && i + 1 < |s| { return Escape; }
    if s[i] == TICK {
      RunGoesOn(s, i);
      var end := i + 1;
      while end < |s| && s[end] == TICK
        invariant i < end <= |s| && RunEnd(s, i, TICK) == RunEnd(s, end, TICK)
      {
        end := end + 1;
      }
      var close := FindClosingTicks(s, end, end - i);
      return if close.Some? then Span(end, close.value) else Ticks(end);
    }
    var link := LinkAt(s, i);
    if link.Some? { return Linked(link.value); }
    var emphasis := FindEmphasis(s, i);
    if emphasis.Some? { return Emphasis(emphasis.value.0, emphasis.value.1); }
    return Run(if Special(s[i]) then i + 1 else PlainEnd(s, i + 1));
  }

  // ------------------------------------------------------------ scanning

  /** What has been pushed is the pieces up to the index. */
  ghost predicate Pushed(before: seq<Token>, tokens: seq<Token>, s: Text, base: Kind, i: nat)
    requires i <= |s|
  {
    PushAll(before, Inline(s, base, 0)) == PushAll(tokens, Inline(s, base, i))
  }

  /** scanInline */
  method ScanInline(s: Text, base: Kind, out: Sink)
    modifies out
    ensures out.tokens == PushAll(old(out.tokens), Inline(s, base, 0))
    decreases |s|
  {
    hide Inline, PushAll, ConstructAt, LinkPieces, EmphasisPieces, Combine;
    var i := 0;
    while i < |s|
      invariant 0 <= i <= |s|
      invariant Pushed(old(out.tokens), out.tokens, s, base, i)
      decreases |s| - i
    {
      var c := FindConstruct(s, i);
      InlineIs(s, base, i);
      ghost var tokens := out.tokens;
      match c {
        case Escape =>
          PushAllJoins(tokens, [Token([92], Syntax), Token([s[i + 1]], base)], Inline(s, base, i + 2));
          out.PushEach([Token([92], Syntax), Token([s[i + 1]], base)]);
          i := i + 2;
        case Span(end, close) =>
          var pieces := [Token(s[i..end], Syntax), Token(s[end..close], Code), Token(s[i..end], Syntax)];
          PushAllJoins(tokens, pieces, Inline(s, base, close + (end - i)));
          out.PushEach(pieces);
          i := close + (end - i);
        case Ticks(end) =>
          PushAllJoins(tokens, [Token(s[i..end], base)], Inline(s, base, end));
          out.PushEach([Token(s[i..end], base)]);
          i := end;
        case Linked(l) =>
          ScanLink(s, i, l, out);
          PushAllJoins(tokens, LinkPieces(s, i, l), Inline(s, base, l.urlEnd + 1));
          i := l.urlEnd + 1;
        case Emphasis(m, close) =>
          ScanEmphasis(s, base, i, m, close, out);
          PushAllJoins(tokens, EmphasisPieces(s, base, i, m, close), Inline(s, base, close + |m.marker|));
          i := close + |m.marker|;
        case Run(end) =>
          PushAllJoins(tokens, [Token(s[i..end], base)], Inline(s, base, end));
          out.PushEach([Token(s[i..end], base)]);
          i := end;
      }
    }
    Done(out.tokens, s, base);
  }

  lemma Done(tokens: seq<Token>, s: Text, base: Kind)
    ensures PushAll(tokens, Inline(s, base, |s|)) == tokens
  {
  }

  method ScanLink(s: Text, i: nat, l: Link, out: Sink)
    requires i < |s| && LinkAt(s, i) == Some(l)
    modifies out
    ensures out.tokens == PushAll(old(out.tokens), LinkPieces(s, i, l))
    decreases |s|, 0
  {
    hide Inline, PushAll, LinkAt;
    var open := [Token(s[i..i + l.bang] + [91], Syntax)];
    var shut := [Token([93, 40], Syntax), Token(s[l.labelEnd + 2..l.urlEnd], Url), Token([41], Syntax)];
    var tag := s[i + l.bang + 1..l.labelEnd];
    PushAllJoins(out.tokens, open + Inline(tag, Label, 0), shut);
    PushAllJoins(out.tokens, open, Inline(tag, Label, 0));
    out.PushEach(open);
    ScanInline(tag, Label, out);
    out.PushEach(shut);
  }

  method ScanEmphasis(s: Text, base: Kind, i: nat, m: Mark, close: nat, out: Sink)
    requires m.marker != [] && At(s, i, m.marker) && i + |m.marker| < close && At(s, close, m.marker)
    modifies out
    ensures out.tokens == PushAll(old(out.tokens), EmphasisPieces(s, base, i, m, close))
    decreases |s|, 0
  {
    hide Inline, PushAll;
    var mark := [Token(m.marker, Syntax)];
    var body := s[i + |m.marker|..close];
    PushAllJoins(out.tokens, mark + Inline(body, Combine(base, m.kind), 0), mark);
    PushAllJoins(out.tokens, mark, Inline(body, Combine(base, m.kind), 0));
    out.PushEach(mark);
    ScanInline(body, Combine(base, m.kind), out);
    out.PushEach(mark);
  }

  /** scanLine */
  method ScanLine(line: Text, out: Sink)
    modifies out
    ensures out.tokens == PushAll(old(out.tokens), LinePieces(line))
  {
    hide Inline, PushAll, IsRule, OpeningOf;
    if IsRule(line) {
      out.PushEach([Token(line, Rule)]);
      return;
    }
    var o := OpeningOf(line);
    PushAllJoins(out.tokens, o.pieces, Inline(line[o.from..], o.base, 0));
    out.PushEach(o.pieces);
    ScanInline(line[o.from..], o.base, out);
  }

  method ScanOne(line: Text, fence: Option<Open>, out: Sink)
    modifies out
    ensures out.tokens == PushAll(old(out.tokens), OneLine(line, fence))
  {
    hide PushAll, LinePieces, FenceAt, ClosesFence;
    if fence.Some? {
      out.PushEach([Token(line, if ClosesFence(line, fence.value) then Syntax else CodeBlock)]);
    } else if FenceAt(line).Some? {
      var f := FenceAt(line).value;
      out.PushEach([Token(line[..f.end], Syntax), Token(line[f.end..], Code)]);
    } else {
      ScanLine(line, out);
    }
  }

  /** tokenizeMarkdown */
  method TokenizeMarkdown(source: Text) returns (tokens: seq<Token>)
    ensures tokens == Tokens(source)
    ensures Flat(tokens) == source && Merged(tokens)
  {
    hide PushAll, OneLine, NextFence, Lines, Flat, Merged;
    Lossless(source);
    var out := new Sink();
    var fence: Option<Open> := None;
    var lines := Lines(source);
    var i := 0;
    while i < |lines|
      invariant 0 <= i <= |lines|
      invariant Tokens(source) == PushAll(out.tokens, Document(lines, i, fence))
    {
      var separator := Separator(i, fence);
      ghost var rest := Document(lines, i + 1, NextFence(lines[i], fence));
      PushAllJoins(out.tokens, separator + OneLine(lines[i], fence), rest);
      PushAllJoins(out.tokens, separator, OneLine(lines[i], fence));
      out.PushEach(separator);
      ScanOne(lines[i], fence, out);
      fence := NextFence(lines[i], fence);
      i := i + 1;
    }
    NothingLeft(out.tokens);
    return out.tokens;
  }

  lemma NothingLeft(tokens: seq<Token>)
    ensures PushAll(tokens, []) == tokens
  {
  }
}
