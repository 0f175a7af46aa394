/** The lines that open and close a fence in src/lib/markdownProtection.ts, as patterns of
    their text, and that the functions of Protection recognise exactly these. */
module ProtectionShape {
  import opened Basics
  import opened TextLines
  import opened Protection

  const TAB: nat := 9

  // ------------------------------------------------------------ patterns of a line

  /** text[i..j] is n of c. */
  predicate All(text: Text, i: nat, j: nat, c: nat)
    requires i <= j <= |text|
  {
    forall k | i <= k < j :: text[k] == c
  }

  predicate Whites(text: Text) { forall k | 0 <= k < |text| :: text[k] in {SPACE, TAB} }

  /** Up to three blanks, then w >= 3 of one of the two fence characters, then a tail that
      does not go on with it. */
  predicate FenceRun(text: Text, c: nat, w: nat, tail: Text) {
    exists n: nat | n <= 3 :: RunAfter(text, n, c, w, tail)
  }

  predicate RunAfter(text: Text, n: nat, c: nat, w: nat, tail: Text) {
    && c in {TICK, TILDE} && w >= 3 && n + w <= |text| && All(text, 0, n, SPACE) && All(text, n, n + w, c)
    && tail == text[n + w..] && (tail == [] || tail[0] != c)
  }

  /** A block quote marker of e characters: up to three blanks, ">", and the blank or tab after it. */
  predicate Quote(text: Text, e: nat) { exists n: nat | n <= 3 :: QuoteAfter(text, n, e) }

  predicate QuoteAfter(text: Text, n: nat, e: nat) {
    && n < |text| && All(text, 0, n, SPACE) && text[n] == '>' as nat
    && e == if n + 1 < |text| && text[n + 1] in {SPACE, TAB} then n + 2 else n + 1
  }

  /** A list marker of e characters: up to three blanks, a bullet or one to nine digits with
      a dot or a parenthesis, then one to four blanks, as many as there are. */
  predicate Item(text: Text, e: nat) {
    exists n: nat, m: nat | n <= 3 && m <= |text| :: Marker(text, n, m) && BlanksUpTo(text, m, e)
  }

  predicate Marker(text: Text, n: nat, m: nat) {
    && n < m <= |text| && All(text, 0, n, SPACE)
    && if m == n + 1 then text[n] in {'*' as nat, '+' as nat, '-' as nat}
       else Digits(text, n, m - 1) && m - 1 - n <= 9 && text[m - 1] in {'.' as nat, ')' as nat}
  }

  predicate Digits(text: Text, i: nat, j: nat)
    requires i <= j <= |text|
  {
    forall k | i <= k < j :: '0' as nat <= text[k] <= '9' as nat
  }

  predicate BlanksUpTo(text: Text, m: nat, e: nat) {
    && m < e <= m + 4 && e <= |text| && All(text, m, e, SPACE)
    && (e == m + 4 || e == |text| || text[e] != SPACE)
  }

  /** rest is left of the text behind exactly depth block quote markers. */
  predicate Dequotes(text: Text, depth: nat, rest: Text) {
    if depth == 0 then rest == text
    else exists e: nat | e <= |text| :: Quote(text, e) && Dequotes(text[e..], depth - 1, rest)
  }

  /** rest is left of the text behind all its list markers, which take indent characters. */
  predicate Items(text: Text, indent: nat, rest: Text)
    decreases indent
  {
    if indent == 0 then rest == text && forall e: nat | e <= |text| :: !Item(text, e)
    else exists e: nat | 0 < e <= indent && e <= |text| :: Item(text, e) && Items(text[e..], indent - e, rest)
  }

  /** A line that opens a fence: all its block quote markers, all list markers behind them,
      and a run; no tick may follow a run of ticks. */
  ghost predicate Opens(text: Text, f: Fence) { exists q, r, tail :: OpensBy(text, f, q, r, tail) }

  predicate OpensBy(text: Text, f: Fence, q: Text, r: Text, tail: Text) {
    && Dequotes(text, f.depth, q) && (forall e: nat | e <= |q| :: !Quote(q, e))
    && Items(q, f.indent, r)
    && FenceRun(r, f.unit, f.width, tail) && (f.unit == TICK ==> TICK !in tail)
  }

  /** The columns that blanks and tabs take, a tab going to the next multiple of four. */
  function Columns(s: Text): nat {
    if s == [] then 0
    else
      var before := Columns(s[..|s| - 1]);
      if s[|s| - 1] == TAB then before + 4 - before % 4 else before + 1
  }

  /** The shortest margin of blanks and tabs that takes the columns of the list item. */
  predicate Margin(text: Text, p: nat, indent: nat) {
    && p <= |text| && Whites(text[..p]) && Columns(text[..p]) >= indent
    && forall j | 0 <= j < p :: Columns(text[..j]) < indent
  }

  /** A line that closes the fence: behind its block quote markers and the item's margin, a
      run of the fence's character, at least as long, with only blanks and tabs after it. */
  ghost predicate ClosesBy(text: Text, f: Fence) {
    exists q, p :: Dequotes(text, f.depth, q) && Margin(q, p, f.indent) && ClosingRun(Realigned(q, p, f.indent), f)
  }

  function Realigned(text: Text, p: nat, indent: nat): Text
    requires Margin(text, p, indent)
  {
    seq(Columns(text[..p]) - indent, _ => SPACE) + text[p..]
  }

  ghost predicate ClosingRun(text: Text, f: Fence) { exists w: nat, tail: Text :: FenceRun(text, f.unit, w, tail) && w >= f.width && Whites(tail) }

  /** A line that still has the block quote markers of the fence. */
  ghost predicate Stays(text: Text, f: Fence) { exists rest :: Dequotes(text, f.depth, rest) }

  // ------------------------------------------------------------ the patterns are what is scanned for

  lemma {:induction false} RunEndIs(s: Text, i: nat, c: nat, end: nat)
    requires i <= end <= |s| && All(s, i, end, c) && (end == |s| || s[end] != c)
    ensures RunEnd(s, i, c) == end
    decreases end - i
  {
    if i < end { RunEndIs(s, i + 1, c, end); }
  }

  lemma {:induction false} RunEndAll(s: Text, i: nat, c: nat)
    requires i <= |s|
    ensures var e := RunEnd(s, i, c); All(s, i, e, c) && (e == |s| || s[e] != c)
    decreases |s| - i
  {
    if i < |s| && s[i] == c { RunEndAll(s, i + 1, c); }
  }

  lemma {:induction false} DigitsEndIs(s: Text, i: nat, end: nat)
    requires i <= end <= |s| && Digits(s, i, end) && (end == |s| || !(48 <= s[end] <= 57))
    ensures DigitsEnd(s, i) == end
    decreases end - i
  {
    if i < end { DigitsEndIs(s, i + 1, end); }
  }

  lemma {:induction false} DigitsEndAll(s: Text, i: nat)
    requires i <= |s|
    ensures var e := DigitsEnd(s, i); Digits(s, i, e) && (e == |s| || !(48 <= s[e] <= 57))
    decreases |s| - i
  {
    if i < |s| && 48 <= s[i] <= 57 { DigitsEndAll(s, i + 1); }
  }

  lemma FenceRunExactly(text: Text, c: nat, w: nat, tail: Text)
    ensures FenceRun(text, c, w, tail) <==>
      match FenceMarker(text)
      case None => false
      case Some(m) => m.unit == c && m.end - m.start == w && tail == text[m.end..]
  {
    hide RunEnd;
    var n := RunEnd(text, 0, SPACE);
    RunEndAll(text, 0, SPACE);
    if n < |text| { RunEndAll(text, n, text[n]); }
    if FenceRun(text, c, w, tail) {
      var k: nat :| k <= 3 && RunAfter(text, k, c, w, tail);
      RunEndIs(text, 0, SPACE, k);
      assert tail != [] ==> tail[0] == text[k + w];
      RunEndIs(text, k, c, k + w);
    }
    match FenceMarker(text)
    case None =>
    case Some(m) =>
      if m.unit == c && m.end - m.start == w && tail == text[m.end..] {
        assert tail != [] ==> tail[0] == text[m.end];
        assert RunAfter(text, n, c, w, tail);
      }
  }

  lemma QuoteExactly(text: Text, e: nat)
    ensures Quote(text, e) <==> e > 0 && QuoteMarker(text) == e
  {
    hide RunEnd;
    var n := RunEnd(text, 0, SPACE);
    RunEndAll(text, 0, SPACE);
    if Quote(text, e) {
      var k: nat :| k <= 3 && QuoteAfter(text, k, e);
      RunEndIs(text, 0, SPACE, k);
    }
    if e > 0 && QuoteMarker(text) == e { assert QuoteAfter(text, n, e); }
  }

  lemma {:induction false} DequotesExactly(text: Text, depth: nat, rest: Text)
    ensures Dequotes(text, depth, rest) <==> Unquoted(text, depth) == Some(rest)
    decreases depth
  {
    hide Quote, QuoteMarker;
    if depth > 0 {
      if Dequotes(text, depth, rest) {
        var e: nat :| e <= |text| && Quote(text, e) && Dequotes(text[e..], depth - 1, rest);
        QuoteExactly(text, e);
        DequotesExactly(text[e..], depth - 1, rest);
      }
      var n := QuoteMarker(text);
      if n > 0 && Unquoted(text, depth) == Some(rest) {
        QuoteExactly(text, n);
        DequotesExactly(text[n..], depth - 1, rest);
      }
    }
  }

  lemma NoQuote(text: Text)
    ensures (forall e: nat | e <= |text| :: !Quote(text, e)) <==> QuoteMarker(text) == 0
  {
    hide Quote, QuoteMarker;
    QuoteExactly(text, QuoteMarker(text));
    if QuoteMarker(text) == 0 { forall e: nat | e <= |text| ensures !Quote(text, e) { QuoteExactly(text, e); } }
  }

  /** Counting the block quote markers finds all of them. */
  lemma {:induction false} DepthExactly(text: Text, depth: nat, rest: Text)
    ensures Unquoted(text, depth) == Some(rest) && QuoteMarker(rest) == 0 <==>
      depth == QuoteDepth(text) && Unquoted(text, QuoteDepth(text)) == Some(rest)
    decreases |text|
  {
    hide QuoteMarker;
    var n := QuoteMarker(text);
    if n > 0 && depth > 0 { DepthExactly(text[n..], depth - 1, rest); }
  }

  lemma ItemExactly(text: Text, e: nat)
    ensures Item(text, e) <==> e > 0 && ListMarker(text) == e
  {
    hide RunEnd, DigitsEnd;
    if Item(text, e) {
      var n: nat, m: nat :| n <= 3 && m <= |text| && Marker(text, n, m) && BlanksUpTo(text, m, e);
      ItemFound(text, n, m, e);
    }
    if e > 0 && ListMarker(text) == e { FoundItem(text); }
  }

  lemma ItemFound(text: Text, n: nat, m: nat, e: nat)
    requires n <= 3 && m <= |text| && Marker(text, n, m) && BlanksUpTo(text, m, e)
    ensures ListMarker(text) == e
  {
    hide RunEnd, DigitsEnd;
    RunEndIs(text, 0, SPACE, n);
    RunEndAll(text, m, SPACE);
    BlanksEnd(text, m, e);
    if m > n + 1 { DigitsEndIs(text, n, m - 1); }
  }

  /** Up to four blanks are taken. */
  lemma BlanksEnd(text: Text, m: nat, e: nat)
    requires m <= |text|
    ensures BlanksUpTo(text, m, e) <==> var end := RunEnd(text, m, SPACE); end > m && e == if end > m + 4 then m + 4 else end
  {
    hide RunEnd;
    RunEndAll(text, m, SPACE);
    if BlanksUpTo(text, m, e) && e < m + 4 { RunEndIs(text, m, SPACE, e); }
  }

  lemma FoundItem(text: Text)
    requires ListMarker(text) > 0
    ensures Item(text, ListMarker(text))
  {
    hide RunEnd, DigitsEnd, BlanksUpTo;
    var n, e := RunEnd(text, 0, SPACE), ListMarker(text);
    RunEndAll(text, 0, SPACE);
    DigitsEndAll(text, n);
    var m := if text[n] in {42, 43, 45} then n + 1 else DigitsEnd(text, n) + 1;
    BlanksEnd(text, m, e);
    assert Marker(text, n, m);
  }

  lemma NoItem(text: Text)
    ensures (forall e: nat | e <= |text| :: !Item(text, e)) <==> ListMarker(text) == 0
  {
    hide Item, ListMarker;
    ItemExactly(text, ListMarker(text));
    if ListMarker(text) == 0 { forall e: nat | e <= |text| ensures !Item(text, e) { ItemExactly(text, e); } }
  }

  lemma {:induction false} ItemsExactly(text: Text, offset: nat, indent: nat, rest: Text)
    requires offset <= |text|
    ensures Items(text[offset..], indent, rest) <==>
      ListMarkers(text, offset) == offset + indent && rest == text[offset + indent..]
    decreases indent
  {
    hide Item, ListMarker;
    var here := text[offset..];
    NoItem(here);
    var n := ListMarker(here);
    if indent > 0 {
      if Items(here, indent, rest) {
        var e: nat :| 0 < e <= indent && e <= |here| && Item(here, e) && Items(here[e..], indent - e, rest);
        ItemExactly(here, e);
        assert here[e..] == text[offset + e..];
        ItemsExactly(text, offset + e, indent - e, rest);
      }
      if ListMarkers(text, offset) == offset + indent && rest == text[offset + indent..] && n > 0 {
        ItemExactly(here, n);
        assert here[n..] == text[offset + n..];
        ItemsExactly(text, offset + n, indent - n, rest);
      }
    }
  }

  /** The three kinds of line beginnings exclude each other. */
  lemma Beginnings(text: Text)
    ensures FenceMarker(text).Some? ==> QuoteMarker(text) == 0 && ListMarker(text) == 0
    ensures ListMarker(text) > 0 ==> QuoteMarker(text) == 0
  {
    hide RunEnd;
  }

  lemma RootExactly(text: Text, f: Fence)
    ensures RootOpening(text) == Some(f) <==>
      f.indent == f.depth == 0 && exists tail :: FenceRun(text, f.unit, f.width, tail) && (f.unit == TICK ==> TICK !in tail)
  {
    hide FenceRun, FenceMarker;
    if exists tail :: FenceRun(text, f.unit, f.width, tail) && (f.unit == TICK ==> TICK !in tail) {
      var tail :| FenceRun(text, f.unit, f.width, tail) && (f.unit == TICK ==> TICK !in tail);
      FenceRunExactly(text, f.unit, f.width, tail);
    }
    match FenceMarker(text)
    case None =>
    case Some(m) => FenceRunExactly(text, m.unit, m.end - m.start, text[m.end..]);
  }

  /** Behind the block quote markers: all list markers and the run. */
  ghost predicate OpensInner(q: Text, f: Fence) {
    exists r, tail :: Items(q, f.indent, r) && FenceRun(r, f.unit, f.width, tail) && (f.unit == TICK ==> TICK !in tail)
  }

  lemma InnerExactly(q: Text, f: Fence)
    requires f.depth == 0
    ensures OpensInner(q, f) <==> (if RootOpening(q).Some? then RootOpening(q) else ListOpening(q)) == Some(f)
  {
    hide FenceRun, Items, ListMarkers, RootOpening;
    var indent := ListMarkers(q, 0);
    assert q[0..] == q;
    NoneBefore(q);
    if OpensInner(q, f) {
      var r, tail :| Items(q, f.indent, r) && FenceRun(r, f.unit, f.width, tail) && (f.unit == TICK ==> TICK !in tail);
      ItemsExactly(q, 0, f.indent, r);
      RootExactly(r, f.(indent := 0));
    }
    if (if RootOpening(q).Some? then RootOpening(q) else ListOpening(q)) == Some(f) {
      var r := q[indent..];
      var g := RootOpening(r).value;
      RootExactly(r, g);
      assert f == g.(indent := indent);
      ItemsExactly(q, 0, indent, r);
      var tail :| FenceRun(r, g.unit, g.width, tail) && (g.unit == TICK ==> TICK !in tail);
      assert Items(q, f.indent, r) && FenceRun(r, f.unit, f.width, tail);
    }
  }

  lemma NoneBefore(q: Text)
    ensures RootOpening(q).Some? ==> ListMarkers(q, 0) == 0
  {
    hide ListMarker, FenceMarker;
    assert q[0..] == q;
    Beginnings(q);
  }

  lemma OpeningExactly(text: Text, f: Fence)
    ensures Opens(text, f) <==> Opening(text) == Some(f)
  {
    hide Dequotes, Quote, Items, FenceRun, RootOpening, ListOpening, QuoteMarker, Unquoted, QuoteDepth;
    var flat := f.(depth := 0);
    if Opens(text, f) {
      var q, r, tail :| OpensBy(text, f, q, r, tail);
      DequotesExactly(text, f.depth, q);
      NoQuote(q);
      DepthExactly(text, f.depth, q);
      assert OpensInner(q, flat);
      InnerExactly(q, flat);
      Unfolding(text, q);
    }
    if Opening(text) == Some(f) {
      var q := OpenedBehind(text, f);
      InnerExactly(q, flat);
      DequotesExactly(text, f.depth, q);
      NoQuote(q);
      DepthExactly(text, f.depth, q);
      var r, tail :| Items(q, f.indent, r) && FenceRun(r, f.unit, f.width, tail) && (f.unit == TICK ==> TICK !in tail);
      assert OpensBy(text, f, q, r, tail);
    }
  }

  /** With block quote markers in front, nothing else opens; without, nothing is taken off. */
  lemma Unfolding(text: Text, q: Text)
    requires Unquoted(text, QuoteDepth(text)) == Some(q)
    ensures QuoteDepth(text) == 0 ==> q == text && QuoteOpening(text) == None
    ensures QuoteDepth(text) > 0 ==> RootOpening(text).None? && ListOpening(text).None?
  {
    hide FenceMarker, ListMarker;
    assert text[0..] == text;
    Beginnings(text);
  }

  lemma OpenedBehind(text: Text, f: Fence) returns (q: Text)
    requires Opening(text) == Some(f)
    ensures f.depth == QuoteDepth(text) && Unquoted(text, f.depth) == Some(q)
    ensures (if RootOpening(q).Some? then RootOpening(q) else ListOpening(q)) == Some(f.(depth := 0))
  {
    hide FenceMarker, ListMarkers, QuoteMarker;
    DepthFound(text);
    q := Unquoted(text, QuoteDepth(text)).value;
    Unfolding(text, q);
    FlatOpenings(text);
    FlatOpenings(q);
  }

  lemma FlatOpenings(text: Text)
    ensures RootOpening(text).Some? ==> RootOpening(text).value.depth == 0
    ensures ListOpening(text).Some? ==> ListOpening(text).value.depth == 0
  {
    hide FenceMarker, ListMarkers;
  }

  lemma {:induction false} DepthFound(text: Text)
    ensures Unquoted(text, QuoteDepth(text)).Some?
    decreases |text|
  {
    hide QuoteMarker;
    if QuoteMarker(text) > 0 { DepthFound(text[QuoteMarker(text)..]); }
  }

  // ------------------------------------------------------------ closing

  lemma {:induction false} BlanksAre(n: nat)
    ensures Blanks(n) == seq(n, _ => SPACE)
  {
    if n > 0 { BlanksAre(n - 1); }
  }

  lemma OneMargin(text: Text, p: nat, p': nat, indent: nat)
    requires Margin(text, p, indent) && Margin(text, p', indent)
    ensures p == p'
  {
    hide Columns;
  }

  lemma ColumnsGrow(text: Text, i: nat)
    requires i < |text|
    ensures Columns(text[..i + 1]) ==
      if text[i] == TAB then Columns(text[..i]) + (4 - Columns(text[..i]) % 4) else Columns(text[..i]) + 1
  {
    assert text[..i + 1][..i] == text[..i];
  }

  lemma {:induction false} MarginFound(text: Text, offset: nat, indent: nat)
    requires offset <= |text| && Whites(text[..offset]) && forall j | 0 <= j < offset :: Columns(text[..j]) < indent
    ensures match Outdented(text, offset, Columns(text[..offset]), indent)
      case None => forall p: nat :: !Margin(text, p, indent)
      case Some(rest) => exists p: nat :: Margin(text, p, indent) && rest == Realigned(text, p, indent)
    decreases |text| - offset
  {
    hide Columns;
    var columns := Columns(text[..offset]);
    if columns >= indent {
      BlanksAre(columns - indent);
      assert Margin(text, offset, indent);
    } else if offset < |text| && text[offset] in {SPACE, TAB} {
      ColumnsGrow(text, offset);
      assert text[..offset + 1] == text[..offset] + [text[offset]];
      MarginFound(text, offset + 1, indent);
    } else {
      forall p: nat ensures !Margin(text, p, indent) { NoMargin(text, offset, p, indent); }
    }
  }

  lemma NoMargin(text: Text, offset: nat, p: nat, indent: nat)
    requires offset <= |text| && Columns(text[..offset]) < indent
    requires offset < |text| ==> text[offset] !in {SPACE, TAB}
    requires forall j | 0 <= j < offset :: Columns(text[..j]) < indent
    ensures !Margin(text, p, indent)
  {
    hide Columns;
    if offset < p <= |text| { assert text[..p][offset] == text[offset]; }
  }

  lemma ClosesExactly(text: Text, f: Fence)
    ensures ClosesBy(text, f) <==> Closes(text, f)
  {
    hide Dequotes, Unquoted, FenceRun, FenceMarker, Outdented, Margin;
    if ClosesBy(text, f) {
      var q, p :| Dequotes(text, f.depth, q) && Margin(q, p, f.indent) && ClosingRun(Realigned(q, p, f.indent), f);
      DequotesExactly(text, f.depth, q);
      Realigns(q, p, f.indent);
      EndsAfter(text, f, q, Realigned(q, p, f.indent));
    }
    if Closes(text, f) {
      var q := Unquoted(text, f.depth).value;
      DequotesExactly(text, f.depth, q);
      var p := MarginOf(q, f.indent);
      EndsAfter(text, f, q, Realigned(q, p, f.indent));
      assert Dequotes(text, f.depth, q) && Margin(q, p, f.indent) && ClosingRun(Realigned(q, p, f.indent), f);
    }
  }

  lemma EndsAfter(text: Text, f: Fence, q: Text, rest: Text)
    requires Unquoted(text, f.depth) == Some(q)
    requires (if f.indent == 0 then Some(q) else Outdented(q, 0, 0, f.indent)) == Some(rest)
    ensures Closes(text, f) <==> ClosingRun(rest, f)
  {
    hide Unquoted, Outdented, FenceMarker, ClosingRun, BlankFrom;
    RunCloses(rest, f);
  }

  lemma Realigns(q: Text, p: nat, indent: nat)
    requires Margin(q, p, indent)
    ensures (if indent == 0 then Some(q) else Outdented(q, 0, 0, indent)) == Some(Realigned(q, p, indent))
  {
    hide Outdented;
    MarginFound(q, 0, indent);
    ZeroOutdented(q, indent);
    var p' := MarginOf(q, indent);
    OneMargin(q, p, p', indent);
  }

  lemma ZeroOutdented(q: Text, indent: nat)
    ensures Columns(q[..0]) == 0 && Outdented(q, 0, 0, 0) == Some(q)
  {
    assert q[0..] == q && Blanks(0) + q == q;
  }

  lemma MarginOf(q: Text, indent: nat) returns (p: nat)
    requires (if indent == 0 then Some(q) else Outdented(q, 0, 0, indent)).Some?
    ensures Margin(q, p, indent)
    ensures (if indent == 0 then Some(q) else Outdented(q, 0, 0, indent)) == Some(Realigned(q, p, indent))
  {
    hide Outdented, Margin;
    MarginFound(q, 0, indent);
    ZeroOutdented(q, indent);
    p :| Margin(q, p, indent) && Outdented(q, 0, 0, indent).value == Realigned(q, p, indent);
  }

  lemma RunCloses(rest: Text, f: Fence)
    ensures ClosingRun(rest, f) <==>
      match FenceMarker(rest)
      case None => false
      case Some(m) => m.unit == f.unit && m.end - m.start >= f.width && BlankFrom(rest, m.end)
  {
    hide FenceRun, FenceMarker;
    if ClosingRun(rest, f) {
      var w: nat, tail :| FenceRun(rest, f.unit, w, tail) && w >= f.width && Whites(tail);
      FenceRunExactly(rest, f.unit, w, tail);
      var m := FenceMarker(rest).value;
      forall k | m.end <= k < |rest| ensures rest[k] in {SPACE, 9} { assert rest[k] == tail[k - m.end]; }
    }
    match FenceMarker(rest)
    case None =>
    case Some(m) => FenceRunExactly(rest, m.unit, m.end - m.start, rest[m.end..]);
  }
}
