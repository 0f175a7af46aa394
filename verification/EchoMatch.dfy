/** The filter does its job: an exact echo of an armed line is replaced, however the
    PTY cuts it up, and everything after it goes through untouched. */
module EchoMatch {
  import opened Basics
  import opened EchoText
  import opened EchoModel
  import opened EchoLaws
  import opened EchoChunks

  /** A command line a shell echoes as it was typed: printable, not ending in a blank. */
  predicate Typed(line: Codes) {
    && line != [] && line[|line| - 1] != SPACE
    && forall i | 0 <= i < |line| :: line[i] >= SPACE && !Unprintable(line[i])
  }

  lemma {:induction false} StripPlain(s: Codes, budget: nat)
    requires ESC !in s
    ensures Strip(s, budget) == Stripped(s, [], false)
    decreases |s|
  {
    if s != [] {
      assert ESC !in s[1..];
      StripPlain(s[1..], budget);
    }
  }

  lemma {:induction false} NoBackspace(kept: Codes, s: Codes)
    requires BACKSPACE !in s
    ensures Backspaced(kept, s) == kept + s
    decreases |s|
  {
    if s != [] {
      NoBackspace(kept + [s[0]], s[1..]);
      assert kept + [s[0]] + s[1..] == kept + s;
    } else {
      assert kept + s == kept;
    }
  }

  lemma {:induction false} NoWrap(s: Codes)
    requires forall i :: 0 <= i < |s| - 1 ==> s[i] != CR
    requires |s| >= 2 ==> s[|s| - 1] != CR || s[|s| - 2] != SPACE
    ensures Unwrapped(s) == s && Rejoined(s) == s
    decreases |s|
  {
    if s != [] { NoWrap(s[1..]); }
  }

  lemma {:induction false} NoTrailing(s: Codes)
    requires s != [] ==> s[|s| - 1] != CR
    ensures WithoutTrailing(s + [CR], CR) == s
  {
    assert (s + [CR])[..|s|] == s;
  }

  /** A line echoed literally, with the carriage return before its line feed,
      normalises to itself. */
  lemma LiteralEcho(line: Codes)
    requires Typed(line)
    ensures Normalize(line + [CR]) == Some(Normalized(line, [], false))
  {
    hide Strip, Backspaced, Unwrapped, Rejoined, WithoutTrailing, Units;
    var raw := line + [CR];
    var budget := if Units(raw) <= MAX_ECHO_BYTES then MAX_ECHO_BYTES - Units(raw) else 0;
    assert forall i :: 0 <= i < |raw| ==> (raw[i] == CR || raw[i] == line[i]) && !Unprintable(raw[i]);
    StripPlain(raw, budget);
    NoBackspace([], raw);
    assert [] + raw == raw;
    NoWrap(raw);
    NoTrailing(line);
  }

  lemma {:induction false} Quiet(bytes: Codes)
    requires forall i :: 0 <= i < |bytes| ==> (bytes[i] >= SPACE && bytes[i] != 127) || bytes[i] == CR
    ensures !HasNonEchoControl(bytes)
    decreases |bytes|
  {
    if bytes != [] { Quiet(bytes[1..]); }
  }

  /** A whole echoed line at the front of the output is swapped for what the user
      should see, and feeding continues behind it. */
  lemma EchoIsReplaced(u: Codec, s: Filter, line: Codes, bytes: Codes, rest: Codes, cb: seq<nat>)
    requires s.queue != [] && Live(s.queue, s.now) && Idle(s.queue[0])
    requires Typed(line) && u.decode(bytes + [CR]) == line + [CR]
    requires bytes != [] && |bytes| + 2 <= MAX_ECHO_BYTES
    requires forall i :: 0 <= i < |bytes| ==> bytes[i] >= SPACE && bytes[i] != 127
    requires IndexOfLine(s.queue, line) < |s.queue|
    ensures var i := IndexOfLine(s.queue, line);
      var raw := bytes + [CR, LF];
      Feed(u, s, raw + rest, cb) ==
        Continue(u, s.(queue := s.queue[i + 1..]), cb,
                 Write(u.encode(Shown(s.queue[i].visible, Normalized(line, [], false))), raw, [], Some(Swap(s.queue[i].id, raw))),
                 rest)
  {
    hide Continue, Match, Forward, Normalize, HasNonEchoControl, IndexOf, IndexOfLine, Shown, Live, Leading;
    var held := bytes + [CR, LF] + rest;
    var head := Wake(s.queue[0], s.now);
    var k := head.(acks := cb);
    ExpireLive(s);
    assert [] + cb == cb && [] + held == held && bytes + [CR, LF] + rest != [];
    assert Feed(u, s, held, cb) == Forward(u, s, k, held);
    NoLead(held, head.nonce.Some?, Nonces(s.queue));
    assert held == [] + held;
    ForwardRuns(u, s, k, held, [], held, Scan(0, None, Running));
    assert k.(protocol := None, forwarded := 0) == k;
    MatchReplaces(u, s, k, line, bytes, rest);
  }

  lemma MatchReplaces(u: Codec, s: Filter, k: Echo, line: Codes, bytes: Codes, rest: Codes)
    requires s.queue != []
    requires Typed(line) && u.decode(bytes + [CR]) == line + [CR] && |bytes| + 2 <= MAX_ECHO_BYTES
    requires forall i :: 0 <= i < |bytes| ==> bytes[i] >= SPACE && bytes[i] != 127
    requires IndexOfLine(s.queue, line) < |s.queue|
    ensures var i := IndexOfLine(s.queue, line);
      var raw := bytes + [CR, LF];
      Match(u, s, k, raw + rest) ==
        Continue(u, s.(queue := s.queue[i + 1..]), k.acks,
                 Write(u.encode(Shown(s.queue[i].visible, Normalized(line, [], false))), raw, [], Some(Swap(s.queue[i].id, raw))),
                 rest)
  {
    hide Continue, Normalize, HasNonEchoControl, IndexOf, IndexOfLine, Shown;
    LiteralEcho(line);
    LineEnd(bytes, rest);
    Quiet(bytes + [CR]);
  }

  lemma NoLead(held: Codes, owned: bool, nonces: set<Codes>)
    requires held != [] && held[0] != ESC
    ensures Leading(None, held, owned, nonces) == Scan(0, None, Running)
  {
  }

  lemma LineEnd(bytes: Codes, rest: Codes)
    requires forall i :: 0 <= i < |bytes| ==> bytes[i] >= SPACE && bytes[i] != 127
    ensures var held := bytes + [CR, LF] + rest;
      && IndexOf(held, LF) == |bytes| + 1
      && held[..|bytes| + 1] == bytes + [CR] && held[..|bytes| + 2] == bytes + [CR, LF] && held[|bytes| + 2..] == rest
  {
    hide IndexOf;
    var held := bytes + [CR, LF] + rest;
    assert held[|bytes| + 1] == LF;
    var i := IndexOf(held, LF);
    assert forall j :: 0 <= j < |bytes| ==> held[j] == bytes[j];
    assert held[|bytes|] == CR;
  }

  /** One armed command, any chunking: the terminal shows the visible command, then
      exactly the output that followed the echo, and the expectation is gone. */
  lemma AnyChunkingShowsTheCommand(u: Codec, s: Filter, line: Codes, bytes: Codes, rest: Codes, chunks: seq<Codes>)
    requires |s.queue| == 1 && Live(s.queue, s.now) && Idle(s.queue[0]) && s.queue[0].line == line
    requires Typed(line) && u.decode(bytes + [CR]) == line + [CR] && bytes != []
    requires forall i :: 0 <= i < |bytes| ==> bytes[i] >= SPACE && bytes[i] != 127
    requires Whole(chunks) == bytes + [CR, LF] + rest && |Whole(chunks)| <= MAX_ECHO_BYTES
    ensures var t := FeedEach(u, s, chunks);
      && Bytes(t.log) == Bytes(s.log) + (u.encode(Shown(s.queue[0].visible, Normalized(line, [], false))) + rest)
      && t.queue == []
  {
    hide Feed, FeedEach, Shown, Live, IndexOfLine;
    assert IndexOfLine(s.queue, line) == 0;
    EveryChunking(u, s, chunks);
    EchoIsReplaced(u, s, line, bytes, rest, []);
    var raw := bytes + [CR, LF];
    var w := Write(u.encode(Shown(s.queue[0].visible, Normalized(line, [], false))), raw, [], Some(Swap(s.queue[0].id, raw)));
    var v := w.(bytes := w.bytes + rest, source := w.source + rest);
    Joined(s.log, [v]);
    One(v);
  }

  /** What the user sees in place of a literal echo: the command on a line of its own, or
      nothing at all for a line that is to stay hidden. */
  function Seen(visible: Option<Codes>): Codes {
    match visible
    case None => [13, 27, 91, 50, 75]
    case Some(command) => command + [13, 10]
  }

  lemma LiteralShown(visible: Option<Codes>, line: Codes)
    ensures Shown(visible, Normalized(line, [], false)) == Seen(visible)
  {
    EraseCodes();
    if visible.Some? { assert [] + visible.value + [CR, LF] + [] == visible.value + [13, 10]; }
  }

  /** One armed command, any chunking: the terminal gets the command and a new line, and
      then exactly the output that followed the echo. */
  lemma CommandIsShown(u: Codec, s: Filter, line: Codes, bytes: Codes, rest: Codes, chunks: seq<Codes>)
    requires |s.queue| == 1 && Live(s.queue, s.now) && Idle(s.queue[0]) && s.queue[0].line == line
    requires Typed(line) && u.decode(bytes + [CR]) == line + [CR] && bytes != []
    requires forall i :: 0 <= i < |bytes| ==> bytes[i] >= SPACE && bytes[i] != 127
    requires Whole(chunks) == bytes + [CR, LF] + rest && |Whole(chunks)| <= MAX_ECHO_BYTES
    ensures var t := FeedEach(u, s, chunks);
      && Bytes(t.log) == Bytes(s.log) + (u.encode(Seen(s.queue[0].visible)) + rest)
      && t.queue == []
  {
    hide FeedEach, Shown, Live, Bytes, Whole, Typed;
    AnyChunkingShowsTheCommand(u, s, line, bytes, rest, chunks);
    LiteralShown(s.queue[0].visible, line);
  }

  // ------------------------------------------------------------ bounded expansion

  lemma {:induction false} UnitsJoin(a: Codes, b: Codes)
    ensures Units(a + b) == Units(a) + Units(b)
  {
    if a == [] { assert a + b == b; }
    else {
      assert (a + b)[1..] == a[1..] + b;
      UnitsJoin(a[1..], b);
    }
  }

  lemma {:induction false} UnitsOfBlanks(n: nat)
    ensures Units(Repeat(SPACE, n)) == n
  {
    if n > 0 {
      assert Repeat(SPACE, n)[1..] == Repeat(SPACE, n - 1);
      UnitsOfBlanks(n - 1);
    }
  }

  lemma {:induction false} StripBound(raw: Codes, budget: nat)
    ensures Units(Strip(raw, budget).text) <= Units(raw) + budget
    decreases |raw|
  {
    hide EchoCsiKind, SequenceLength, Advance;
    if raw != [] {
      var n := SequenceLength(raw);
      if n == 0 {
        StripBound(raw[1..], budget);
        UnitsJoin([raw[0]], Strip(raw[1..], budget).text);
      } else {
        var count := Advance(raw[..n]);
        var left := if count <= budget then budget - count else budget;
        StripBound(raw[n..], left);
        UnitsOfBlanks(count);
        UnitsJoin(if count <= budget then Repeat(SPACE, count) else [ESC], Strip(raw[n..], left).text);
        UnitsJoin(raw[..n], raw[n..]);
        assert raw[..n] + raw[n..] == raw;
      }
    }
  }

  lemma {:induction false} BackspacedBound(kept: Codes, s: Codes)
    ensures Units(Backspaced(kept, s)) <= Units(kept) + Units(s)
    decreases |s|
  {
    if s != [] {
      if s[0] == BACKSPACE {
        if kept != [] { UnitsJoin(kept[..|kept| - 1], [kept[|kept| - 1]]); assert kept[..|kept| - 1] + [kept[|kept| - 1]] == kept; }
        BackspacedBound(if kept == [] then [] else kept[..|kept| - 1], s[1..]);
      } else {
        BackspacedBound(kept + [s[0]], s[1..]);
        UnitsJoin(kept, [s[0]]);
      }
    }
  }

  lemma {:induction false} RedrawBound(s: Codes)
    ensures Units(Unwrapped(s)) <= Units(s) && Units(Rejoined(s)) <= Units(s)
    decreases |s|
  {
    if s != [] {
      RedrawBound(s[1..]);
      if |s| >= 2 { RedrawBound(s[2..]); assert s[1..][1..] == s[2..]; }
      assert ([s[0]] + Unwrapped(s[1..]))[1..] == Unwrapped(s[1..]);
      assert ([s[0]] + Rejoined(s[1..]))[1..] == Rejoined(s[1..]);
    }
  }

  lemma {:induction false} TrailingBound(s: Codes, c: nat)
    ensures Units(WithoutTrailing(s, c)) <= Units(s)
    decreases |s|
  {
    if s != [] && s[|s| - 1] == c {
      TrailingBound(s[..|s| - 1], c);
      UnitsJoin(s[..|s| - 1], [s[|s| - 1]]);
      assert s[..|s| - 1] + [s[|s| - 1]] == s;
    }
  }

  /** However many cursor advances a line claims, its normal form stays bounded. */
  lemma ExpansionIsBounded(raw: Codes)
    ensures var n := Normalize(raw);
      n.Some? ==> Units(n.value.text) <= MAX_ECHO_BYTES || Units(n.value.text) <= Units(raw)
  {
    hide Strip, Backspaced, Unwrapped, Rejoined, WithoutTrailing, Units;
    var budget := if Units(raw) <= MAX_ECHO_BYTES then MAX_ECHO_BYTES - Units(raw) else 0;
    var t0 := Strip(raw, budget).text;
    StripBound(raw, budget);
    var t1 := Backspaced([], t0);
    BackspacedBound([], t0);
    NoUnits();
    RedrawBound(t1);
    RedrawBound(Unwrapped(t1));
    TrailingBound(Rejoined(Unwrapped(t1)), CR);
  }

  lemma NoUnits()
    ensures Units([]) == 0
  {
  }
}
