/** What single events do to the expectations of src/lib/ptyEcho.ts, said on the queue and
    on the bytes: arming, cleanup, replies, lifecycle signals and unknown output. */
module EchoSteps {
  import opened Basics
  import opened EchoText
  import opened EchoModel
  import opened EchoLaws
  import opened EchoChunks
  import opened EchoMatch
  import EchoShape

  // ------------------------------------------------------------ arming

  /** The places of the expectations that have a nonce, in order. */
  ghost predicate Owned(queue: seq<Echo>, places: seq<nat>) {
    Own(queue, places) && Ascends(places) && forall i: nat :: OwnsAt(queue, i) ==> i in places
  }

  predicate Own(queue: seq<Echo>, places: seq<nat>) { forall k | 0 <= k < |places| :: OwnsAt(queue, places[k]) }

  predicate Ascends(places: seq<nat>) { forall j, k | 0 <= j < k < |places| :: places[j] < places[k] }

  predicate OwnsAt(queue: seq<Echo>, i: nat) { i < |queue| && queue[i].nonce.Some? }

  ghost predicate Selects(queue: seq<Echo>, places: seq<nat>, kept: seq<Echo>) {
    |kept| == |places| && forall k :: 0 <= k < |places| ==> places[k] < |queue| && kept[k] == queue[places[k]]
  }

  /** The line holds "RP;", these thirty-two hexadecimal digits and ";". */
  ghost predicate Carries(line: Codes, nonce: Codes) {
    && |nonce| == 32 && (forall k :: 0 <= k < 32 ==> 48 <= nonce[k] <= 57 || 97 <= nonce[k] <= 102)
    && exists i :: 0 <= i <= |line| && [82, 80, 59] + nonce + [59] <= line[i..]
  }

  lemma {:induction false} ContainsIs(s: Codes, part: Codes)
    ensures Contains(s, part) <==> exists i :: 0 <= i <= |s| && part <= s[i..]
  {
    assert s[0..] == s;
    if s != [] {
      ContainsIs(s[1..], part);
      if i :| 0 <= i <= |s| && part <= s[i..] {
        if i > 0 { assert s[1..][i - 1..] == s[i..]; }
      }
      if i :| 0 <= i <= |s[1..]| && part <= s[1..][i..] { assert s[1..][i..] == s[i + 1..]; }
    }
  }

  lemma NonceIs(line: Codes, visible: Option<Codes>, requested: Option<Codes>)
    ensures OwnedNonce(line, visible, requested) ==
      if visible.None? && requested.Some? && Carries(line, requested.value) then requested else None
  {
    if requested.Some? {
      var nonce := requested.value;
      assert Ascii("RP;") == [82, 80, 59] && Ascii(";") == [59];
      ContainsIs(line, [82, 80, 59] + nonce + [59]);
    }
  }

  lemma {:induction false} KeptIs(queue: seq<Echo>) returns (places: seq<nat>)
    ensures Owned(queue, places) && Selects(queue, places, Kept(queue, (e: Echo) => e.nonce.None?))
  {
    var gone := (e: Echo) => e.nonce.None?;
    places := [];
    if queue != [] {
      var rest := KeptIs(queue[1..]);
      places := (if queue[0].nonce.Some? then [0] else []) + Later(rest);
      LaterOwned(queue, rest);
      KeptFirst(queue, gone);
      LaterSelects(queue, rest, Kept(queue[1..], gone));
    }
  }

  function Later(places: seq<nat>): (r: seq<nat>)
    ensures |r| == |places| && forall k :: 0 <= k < |r| ==> r[k] == places[k] + 1
  {
    seq(|places|, k requires 0 <= k < |places| => places[k] + 1)
  }

  lemma KeptFirst(queue: seq<Echo>, gone: Echo -> bool)
    requires queue != []
    ensures Kept(queue, gone) == (if gone(queue[0]) then [] else [queue[0]]) + Kept(queue[1..], gone)
  {
  }

  lemma LaterOwned(queue: seq<Echo>, rest: seq<nat>)
    requires queue != [] && Owned(queue[1..], rest)
    ensures Owned(queue, (if queue[0].nonce.Some? then [0] else []) + Later(rest))
  {
    hide Own, Ascends, OwnsAt;
    LaterOwn(queue, rest);
    LaterAscends(rest, queue[0].nonce.Some?);
    forall i: nat | OwnsAt(queue, i) ensures i in (if queue[0].nonce.Some? then [0] else []) + Later(rest) {
      OwnsShifted(queue, i);
      if i > 0 { LaterHas(rest, i - 1); }
    }
  }

  lemma LaterHas(rest: seq<nat>, i: nat)
    requires i in rest
    ensures i + 1 in Later(rest)
  {
    var j :| 0 <= j < |rest| && rest[j] == i;
    assert Later(rest)[j] == i + 1;
  }

  lemma LaterOwn(queue: seq<Echo>, rest: seq<nat>)
    requires queue != [] && Own(queue[1..], rest)
    ensures Own(queue, (if queue[0].nonce.Some? then [0] else []) + Later(rest))
  {
    hide OwnsAt;
    var first := queue[0].nonce.Some?;
    var places := (if first then [0] else []) + Later(rest);
    forall k | 0 <= k < |places| ensures OwnsAt(queue, places[k]) {
      OwnsShifted(queue, places[k]);
      if !(first && k == 0) { assert OwnsAt(queue[1..], rest[if first then k - 1 else k]); }
    }
  }

  lemma LaterAscends(rest: seq<nat>, first: bool)
    requires Ascends(rest)
    ensures Ascends((if first then [0] else []) + Later(rest))
  {
  }

  lemma OwnsShifted(queue: seq<Echo>, i: nat)
    requires queue != []
    ensures OwnsAt(queue, i) <==> if i == 0 then queue[0].nonce.Some? else OwnsAt(queue[1..], i - 1)
  {
  }

  lemma LaterSelects(queue: seq<Echo>, rest: seq<nat>, kept: seq<Echo>)
    requires queue != [] && Selects(queue[1..], rest, kept)
    ensures Selects(queue, (if queue[0].nonce.Some? then [0] else []) + Later(rest),
                    (if queue[0].nonce.Some? then [queue[0]] else []) + kept)
  {
    assert forall k :: 0 <= k < |rest| ==> queue[1..][rest[k]] == queue[Later(rest)[k]];
  }

  /** Arming keeps the probes that are still expected, adds the new expectation behind them,
      and drops from the front what goes beyond four. It is a probe when it stays hidden and
      its line carries the nonce. */
  lemma ArmedExactly(s: Filter, line: Codes, visible: Option<Codes>, requested: Option<Codes>)
    returns (places: seq<nat>, kept: seq<Echo>)
    ensures Owned(s.queue, places) && Selects(s.queue, places, kept)
    ensures var probe := visible.None? && requested.Some? && Carries(line, requested.value);
      var echo := Echo(|s.armed|, line, visible, [], [], s.now + 2_000, None, 0, if probe then requested else None,
                       if probe then s.now + 60_000 else 0, false);
      var all := kept + [echo];
      && Expect(s, line, visible, requested).queue == all[if |all| > 4 then |all| - 4 else 0..]
      && Expect(s, line, visible, requested).armed == s.armed + [Armed(line, visible)]
  {
    hide Kept, Gone, OwnedNonce;
    NonceIs(line, visible, requested);
    places := KeptIs(s.queue);
    kept := Kept(s.queue, (e: Echo) => e.nonce.None?);
  }

  // ------------------------------------------------------------ cleanup

  /** Cleaning up an expectation leaves a probe that holds nothing for the rest of its
      minute; any other is taken out, and what it held is shown. */
  lemma RetiredExactly(s: Filter, i: nat)
    requires i < |s.queue| && forall j :: 0 <= j < i ==> s.queue[j].id != s.queue[i].id
    ensures var e := s.queue[i]; var t := Retire(s, e.id);
      if e.nonce.Some? && s.now < e.expiresAt && e.bytes == [] && e.acks == [] then
        t == s.(queue := s.queue[i := e.(retired := true, deadline := e.expiresAt)])
      else
        t == s.(queue := s.queue[..i] + s.queue[i + 1..],
                log := s.log + if e.bytes == [] && e.acks == [] then [] else [Write(e.bytes, e.bytes, e.acks, None)])
  {
    hide IndexOfId;
    assert IndexOfId(s.queue, s.queue[i].id) == i;
  }

  lemma NobodyRetires(s: Filter, id: nat)
    requires forall j :: 0 <= j < |s.queue| ==> s.queue[j].id != id
    ensures Retire(s, id) == s
  {
    hide IndexOfId;
    assert IndexOfId(s.queue, id) == |s.queue|;
  }

  /** A filter with one hidden probe in it that was cleaned up before anything came. */
  ghost predicate LateProbe(s: Filter, line: Codes, armedAt: int) {
    && |s.queue| == 1
    && var e := s.queue[0];
       && e.line == line && e.visible.None? && e.nonce.Some? && e.retired && e.expiresAt == armedAt + 60_000
       && Idle(e)
  }

  lemma ProbeIsLate(s: Filter, line: Codes, nonce: Codes)
    requires s.queue == [] && Carries(line, nonce)
    ensures LateProbe(Retire(Expect(s, line, None, Some(nonce)), |s.armed|), line, s.now)
  {
    var places, kept := ArmedExactly(s, line, None, Some(nonce));
    assert kept == [];
    var t := Expect(s, line, None, Some(nonce));
    RetiredExactly(t, 0);
  }

  /** Its echo is still hidden when it comes within a minute of arming. */
  lemma LateEchoIsHidden(u: Codec, s: Filter, line: Codes, armedAt: int, bytes: Codes, rest: Codes, cb: seq<nat>)
    requires LateProbe(s, line, armedAt) && s.now < armedAt + 60_000
    requires Typed(line) && u.decode(bytes + [CR]) == line + [CR] && bytes != [] && |bytes| + 2 <= MAX_ECHO_BYTES
    requires forall i :: 0 <= i < |bytes| ==> bytes[i] >= SPACE && bytes[i] != 127
    ensures var raw := bytes + [CR, LF];
      Feed(u, s, raw + rest, cb) ==
        s.(queue := []).Log(Write(u.encode([13, 27, 91, 50, 75]) + rest, raw + rest, cb, Some(Swap(s.queue[0].id, raw))))
  {
    hide Feed, Shown, Seen;
    assert IndexOfLine(s.queue, line) == 0;
    EchoIsReplaced(u, s, line, bytes, rest, cb);
    HiddenSeen(line);
  }

  lemma HiddenSeen(line: Codes)
    ensures Shown(None, Normalized(line, [], false)) == [13, 27, 91, 50, 75]
  {
    LiteralShown(None, line);
  }

  /** After that minute it is shown as it is. */
  lemma LaterEchoIsShown(u: Codec, s: Filter, line: Codes, armedAt: int, bytes: Codes, cb: seq<nat>)
    requires LateProbe(s, line, armedAt) && s.now >= armedAt + 60_000 && bytes != []
    ensures Feed(u, s, bytes, cb) == s.(queue := []).Log(Write(bytes, bytes, cb, None))
  {
    hide Forward, Leading;
    var e := s.queue[0];
    var gone := (x: Echo) => x.Expired(s.now);
    OneGone(e, gone);
    assert s.queue == [e];
    assert Expire(s) == s.(queue := []) by { assert s.log + [] == s.log; }
  }

  lemma OneGone(e: Echo, gone: Echo -> bool)
    requires gone(e) && Idle(e)
    ensures Kept([e], gone) == [] && FlushAll(Gone([e], gone)) == []
  {
    assert [e][1..] == [];
    assert Gone([e], gone) == [e];
  }

  // ------------------------------------------------------------ replies and lifecycle signals

  /** ESC ] body BEL */
  function OscString(body: Codes): Codes { [27, 93] + body + [7] }

  predicate PlainBody(body: Codes) { forall k | 0 <= k < |body| :: body[k] != 7 && body[k] != 24 && body[k] != 26 && body[k] != 27 }

  /** What the scan remembers of a string: its first 256 bytes. */
  function Remembered(s: Codes): Codes { if |s| <= 256 then s else s[..256] }

  /** The byte at n ends a string that is open before: CAN, SUB, the BEL of an OSC string, or
      the backslash of ESC \\. */
  predicate Terminates(p: Protocol, bytes: Codes, n: nat) {
    && n < |bytes|
    && (|| bytes[n] == 24 || bytes[n] == 26 || (p.kind.Osc? && bytes[n] == 7)
        || (bytes[n] == 92 && if n == 0 then p.escaped else bytes[n - 1] == 27))
  }

  /** What is known of an open string when it has gone on for these bytes. */
  function GoneOn(p: Protocol, bytes: Codes): Protocol {
    Protocol(p.kind, if bytes == [] then p.escaped else bytes[|bytes| - 1] == 27, Remembered(p.prefix + bytes))
  }

  /** A string goes on through bytes none of which ends it. */
  lemma {:induction false} StringGoesOn(p: Protocol, bytes: Codes, owned: bool, nonces: set<Codes>)
    requires |p.prefix| <= 256 && forall k: nat :: !Terminates(p, bytes, k)
    ensures Leading(Some(p), bytes, owned, nonces) == Scan(|bytes|, Some(GoneOn(p, bytes)), Running)
    decreases |bytes|
  {
    hide Remembered, StopAt, Leading, Extended;
    if bytes == [] {
      NothingGone(p);
      NothingLeads(p, owned, nonces);
    } else {
      LeadingOn(p, bytes, owned, nonces);
      var q := Protocol(p.kind, bytes[0] == 27, Extended(p, bytes[0]));
      assert !Terminates(p, bytes, 0);
      forall k: nat ensures !Terminates(q, bytes[1..], k) { assert !Terminates(p, bytes, k + 1); }
      ExtendedFits(p, bytes[0]);
      StringGoesOn(q, bytes[1..], owned, nonces);
      RememberedOn(p, bytes[0], bytes[1..]);
      assert p.prefix + [bytes[0]] + bytes[1..] == p.prefix + bytes;
    }
  }

  lemma NothingLeads(p: Protocol, owned: bool, nonces: set<Codes>)
    ensures Leading(Some(p), [], owned, nonces) == Scan(0, Some(p), Running)
    ensures Leading(None, [], owned, nonces) == Scan(0, None, Running)
  {
  }

  lemma NothingGone(p: Protocol)
    requires |p.prefix| <= 256
    ensures GoneOn(p, []) == p
  {
    assert p.prefix + [] == p.prefix;
  }

  lemma ExtendedFits(p: Protocol, c: nat)
    requires |p.prefix| <= 256
    ensures |Extended(p, c)| <= 256
  {
  }

  /** It ends at the first byte that ends it, and what it was decides what comes of it. */
  lemma {:induction false} StringStops(p: Protocol, bytes: Codes, n: nat, owned: bool, nonces: set<Codes>)
    requires |p.prefix| <= 256 && Terminates(p, bytes, n) && forall k: nat :: k < n ==> !Terminates(p, bytes, k)
    ensures var stop := StopAt(p.kind, Remembered(p.prefix + bytes[..n + 1]), owned, nonces);
      Leading(Some(p), bytes, owned, nonces) == Behind(n + 1, stop, Leading(None, bytes[n + 1..], owned, nonces))
    decreases |bytes|
  {
    hide Remembered, StopAt, Leading;
    LeadingOn(p, bytes, owned, nonces);
    var q := Protocol(p.kind, bytes[0] == 27, Extended(p, bytes[0]));
    RememberedOn(p, bytes[0], bytes[1..n + 1]);
    if n == 0 {
      assert bytes[..1] == [bytes[0]] && bytes[1..1] == [];
      LastRemembered(p, bytes[0]);
    } else {
      assert !Terminates(p, bytes, 0);
      forall k: nat ensures Terminates(q, bytes[1..], k) <==> Terminates(p, bytes, k + 1) {}
      ExtendedFits(p, bytes[0]);
      StringStops(q, bytes[1..], n - 1, owned, nonces);
      assert bytes[1..][..n] == bytes[1..n + 1] && bytes[1..][n..] == bytes[n + 1..];
      assert p.prefix + [bytes[0]] + bytes[1..n + 1] == p.prefix + bytes[..n + 1];
    }
  }

  /** The scan goes on behind what it has read, unless that was a reason to stop. */
  function Behind(n: nat, stop: Stop, rest: Scan): Scan {
    if stop.Running? then rest.(length := n + rest.length) else Scan(n, None, stop)
  }

  lemma LeadingOn(p: Protocol, bytes: Codes, owned: bool, nonces: set<Codes>)
    requires bytes != []
    ensures var prefix := Extended(p, bytes[0]);
      Leading(Some(p), bytes, owned, nonces) ==
        if Terminates(p, bytes, 0) then Behind(1, StopAt(p.kind, prefix, owned, nonces), Leading(None, bytes[1..], owned, nonces))
        else Behind(1, Running, Leading(Some(Protocol(p.kind, bytes[0] == 27, prefix)), bytes[1..], owned, nonces))
  {
    hide StopAt, Extended;
  }

  lemma LastRemembered(p: Protocol, c: nat)
    requires |p.prefix| <= 256
    ensures Extended(p, c) == Remembered(p.prefix + [c])
  {
  }

  lemma RememberedOn(p: Protocol, c: nat, rest: Codes)
    requires |p.prefix| <= 256
    ensures Remembered(Extended(p, c) + rest) == Remembered(p.prefix + [c] + rest)
  {
  }

  lemma OscScanned(body: Codes, owned: bool, nonces: set<Codes>)
    requires PlainBody(body)
    ensures Leading(None, OscString(body), owned, nonces)
         == Scan(|OscString(body)|, None, StopAt(Osc, Remembered(body + [7]), owned, nonces))
  {
    hide StopAt, Leading;
    var bytes := OscString(body);
    var p := Protocol(Osc, false, []);
    var text := body + [7];
    Opened(bytes, text, owned, nonces);
    BellEnds(p, body);
    StringStops(p, text, |body|, owned, nonces);
    NothingLeads(p, owned, nonces);
    assert [] + text == text && text[..|body| + 1] == text && text[|body| + 1..] == [];
  }

  lemma BellEnds(p: Protocol, body: Codes)
    requires PlainBody(body) && p.kind.Osc? && !p.escaped
    ensures forall k: nat :: Terminates(p, body + [7], k) <==> k == |body|
  {
    var text := body + [7];
    forall k: nat ensures Terminates(p, text, k) <==> k == |body| {
      if k < |body| {
        assert text[k] == body[k];
        if k > 0 { assert text[k - 1] == body[k - 1]; }
      }
    }
  }

  lemma Opened(bytes: Codes, text: Codes, owned: bool, nonces: set<Codes>)
    requires bytes == [27, 93] + text
    ensures Leading(None, bytes, owned, nonces) == Behind(2, Running, Leading(Some(Protocol(Osc, false, [])), text, owned, nonces))
  {
    assert bytes[2..] == text;
    assert LeadMove(None, bytes, owned, nonces) == Move(2, Some(Protocol(Osc, false, [])), Running);
  }

  lemma RememberedReply(body: Codes, nonce: Codes)
    requires EchoShape.HasReply(body, nonce)
    ensures EchoShape.HasReply(Remembered(body + [7]), nonce)
  {
    var head := [54, 57, 55, 51, 59, 82, 80, 59] + nonce + [59];
    assert head <= body + [7] && |head| == 41;
  }

  /** A reply ends the expectations up to the one whose nonce it carries, and passes on. */
  lemma ReplyEnds(u: Codec, s: Filter, body: Codes, nonce: Codes, i: nat, cb: seq<nat>)
    requires s.queue != [] && Live(s.queue, s.now) && Idle(s.queue[0]) && !s.queue[0].retired
    requires PlainBody(body) && EchoShape.HasReply(body, nonce)
    requires i < |s.queue| && s.queue[i].nonce == Some(nonce) && forall j :: 0 <= j < i ==> s.queue[j].nonce != Some(nonce)
    ensures Feed(u, s, OscString(body), cb) == s.(queue := s.queue[i + 1..]).Log(Write(OscString(body), OscString(body), cb, None))
  {
    hide Leading, Match, Remembered, EchoShape.HasReply, IndexOfNonce, Live, Nonces, StopAt;
    var bytes := OscString(body);
    var e := s.queue[0];
    RememberedReply(body, nonce);
    EchoShape.ReplyExactly(Osc, Remembered(body + [7]), nonce);
    OscScanned(body, e.nonce.Some?, Nonces(s.queue));
    assert StopAt(Osc, Remembered(body + [7]), e.nonce.Some?, Nonces(s.queue)) == Reply(nonce) by { ReplyStops(s.queue, body, nonce, i); }
    assert IndexOfNonce(s.queue, nonce) == i;
    FeedHead(u, s, bytes, cb);
    ForwardStops(u, s, e.(acks := cb), bytes, bytes, [], Scan(|bytes|, None, Reply(nonce)));
    assert bytes + [] == bytes;
  }

  lemma ReplyStops(queue: seq<Echo>, body: Codes, nonce: Codes, i: nat)
    requires ReplyNonce(Osc, Remembered(body + [7])) == Some(nonce) && i < |queue| && queue[i].nonce == Some(nonce)
    ensures forall owned :: StopAt(Osc, Remembered(body + [7]), owned, Nonces(queue)) == Reply(nonce)
  {
    hide ReplyNonce, IsLifecycle, Remembered;
    assert nonce in Nonces(queue);
  }

  /** With an unexpired head that holds nothing, feeding is looking at the bytes. */
  lemma FeedHead(u: Codec, s: Filter, bytes: Codes, cb: seq<nat>)
    requires s.queue != [] && Live(s.queue, s.now) && Idle(s.queue[0]) && !s.queue[0].retired && bytes != []
    ensures Feed(u, s, bytes, cb) == Forward(u, s, s.queue[0].(acks := cb), bytes)
  {
    hide Forward, Live;
    ExpireLive(s);
    assert [] + bytes == bytes && [] + cb == cb;
  }

  /** A lifecycle signal ends an ordinary expectation; a probe it leaves alone. */
  lemma LifecycleEnds(u: Codec, s: Filter, body: Codes, cb: seq<nat>)
    requires s.queue != [] && Live(s.queue, s.now) && Idle(s.queue[0]) && !s.queue[0].retired
    requires PlainBody(body) && |body| < 250 && EchoShape.Announces(body + [7])
    requires forall nonce :: EchoShape.HasReply(body + [7], nonce) ==> forall j :: 0 <= j < |s.queue| ==> s.queue[j].nonce != Some(nonce)
    ensures var w := Write(OscString(body), OscString(body), cb, None); var e := s.queue[0];
      Feed(u, s, OscString(body), cb) ==
        if e.nonce.None? then s.(queue := s.queue[1..]).Log(w)
        else s.(queue := [e.(forwarded := |OscString(body)|)] + s.queue[1..]).Log(w)
  {
    hide Leading, Match, EchoShape.HasReply, EchoShape.Announces, IndexOfNonce, Live, Nonces, StopAt, IsLifecycle;
    var bytes := OscString(body);
    var e := s.queue[0];
    EchoShape.LifecycleExactly(Osc, body + [7]);
    OscScanned(body, e.nonce.Some?, Nonces(s.queue));
    LifecycleStops(s.queue, body, e.nonce.Some?);
    FeedHead(u, s, bytes, cb);
    assert bytes + [] == bytes;
    var scan := Scan(|bytes|, None, if e.nonce.Some? then Running else Lifecycle);
    if e.nonce.None? {
      ForwardStops(u, s, e.(acks := cb), bytes, bytes, [], scan);
    } else {
      ForwardRuns(u, s, e.(acks := cb), bytes, bytes, [], scan);
    }
  }

  lemma LifecycleStops(queue: seq<Echo>, body: Codes, owned: bool)
    requires |body| < 250 && IsLifecycle(Osc, body + [7])
    requires forall nonce :: EchoShape.HasReply(body + [7], nonce) ==> forall j :: 0 <= j < |queue| ==> queue[j].nonce != Some(nonce)
    ensures StopAt(Osc, Remembered(body + [7]), owned, Nonces(queue)) == if owned then Running else Lifecycle
  {
    hide ReplyNonce, IsLifecycle, EchoShape.HasReply;
    var reply := ReplyNonce(Osc, body + [7]);
    if reply.Some? { EchoShape.ReplyExactly(Osc, body + [7], reply.value); }
  }

  // ------------------------------------------------------------ output that is not ours

  /** A whole line that is no expected one ends all expectations, and everything is shown
      as it came. */
  lemma UnknownIsShown(u: Codec, s: Filter, bytes: Codes, rest: Codes, cb: seq<nat>)
    requires s.queue != [] && Live(s.queue, s.now) && Idle(s.queue[0]) && !s.queue[0].retired
    requires bytes != [] && bytes[0] != ESC && LF !in bytes
    requires match Normalize(u.decode(bytes))
      case None => true
      case Some(n) => forall j :: 0 <= j < |s.queue| ==> s.queue[j].line != n.text
    ensures var all := bytes + [LF] + rest;
      Feed(u, s, all, cb) == s.(queue := []).Log(Write(all, all, cb, None))
  {
    hide Leading, Match, Normalize, HasNonEchoControl, IndexOf, IndexOfLine, Live, Nonces;
    var all := bytes + [LF] + rest;
    var e := s.queue[0];
    FeedHead(u, s, all, cb);
    assert all[0] == bytes[0];
    NoLead(all, e.nonce.Some?, Nonces(s.queue));
    assert [] + all == all;
    ForwardRuns(u, s, e.(acks := cb), all, [], all, Scan(0, None, Running));
    FirstFeed(bytes, rest);
    UnknownSurrenders(u, s, e.(acks := cb, protocol := None, forwarded := 0), bytes, rest);
  }

  lemma FirstFeed(bytes: Codes, rest: Codes)
    requires LF !in bytes
    ensures var all := bytes + [LF] + rest; IndexOf(all, LF) == |bytes| && all[..|bytes|] == bytes
  {
    hide IndexOf;
    var all := bytes + [LF] + rest;
    assert all[|bytes|] == LF && forall j :: 0 <= j < |bytes| ==> all[j] == bytes[j];
  }

  lemma UnknownSurrenders(u: Codec, s: Filter, head: Echo, bytes: Codes, rest: Codes)
    requires s.queue != [] && IndexOf(bytes + [LF] + rest, LF) == |bytes| && (bytes + [LF] + rest)[..|bytes|] == bytes
    requires match Normalize(u.decode(bytes))
      case None => true
      case Some(n) => forall j :: 0 <= j < |s.queue| ==> s.queue[j].line != n.text
    ensures Match(u, s, head, bytes + [LF] + rest) == Surrender(s, head, bytes + [LF] + rest)
  {
    hide Normalize, HasNonEchoControl, IndexOf, IndexOfLine;
  }

  // ------------------------------------------------------------ output that may still become ours

  /** The time a head waits for the rest of its line: as long as it had, and, when it had been
      cleaned up already, two seconds, or what is left of its minute. */
  function WaitOf(e: Echo, now: int): int {
    if !e.retired then e.deadline
    else if e.nonce.Some? && e.expiresAt - now >= 2_000 then now + 2_000
    else if e.nonce.Some? && e.expiresAt >= now then e.expiresAt
    else now
  }

  /** The beginning of a line is held, with its acknowledgments, and the terminal gets nothing. */
  lemma PartIsHeld(u: Codec, s: Filter, bytes: Codes, cb: seq<nat>)
    requires s.queue != [] && Live(s.queue, s.now) && Idle(s.queue[0])
    requires bytes != [] && |bytes| <= MAX_ECHO_BYTES
    requires forall i :: 0 <= i < |bytes| ==> bytes[i] >= SPACE && bytes[i] != 127
    ensures var e := s.queue[0];
      Feed(u, s, bytes, cb) ==
        s.(queue := [e.(retired := false, deadline := WaitOf(e, s.now), bytes := bytes, acks := cb)] + s.queue[1..])
  {
    hide Leading, Match, HasNonEchoControl, IndexOf, Live, Nonces, WaitOf;
    var e := s.queue[0];
    var head := e.(retired := false, deadline := WaitOf(e, s.now), acks := cb);
    FeedWakes(u, s, bytes, cb);
    NoLead(bytes, e.nonce.Some?, Nonces(s.queue));
    assert [] + bytes == bytes;
    ForwardRuns(u, s, head, bytes, [], bytes, Scan(0, None, Running));
    assert IndexOf(bytes, LF) == |bytes|;
    EchoMatch.Quiet(bytes);
    MatchHolds(u, s, head, bytes);
  }

  lemma FeedWakes(u: Codec, s: Filter, bytes: Codes, cb: seq<nat>)
    requires s.queue != [] && Live(s.queue, s.now) && Idle(s.queue[0]) && bytes != []
    ensures var e := s.queue[0];
      Feed(u, s, bytes, cb) == Forward(u, s, e.(retired := false, deadline := WaitOf(e, s.now), acks := cb), bytes)
  {
    hide Forward, Live;
    ExpireLive(s);
    assert [] + bytes == bytes && [] + cb == cb;
  }
}
