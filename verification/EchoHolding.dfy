/** How long the echo filter of src/lib/ptyEcho.ts keeps a byte from the terminal. A byte
    is followed by its offset in the PTY input, whichever expectation holds it. */
module EchoHolding {
  import opened Basics
  import opened EchoText
  import opened EchoModel
  import opened EchoLaws
  import opened EchoChunks
  import opened EchoRuns

  /** What is held is neither a whole line nor the start of a finished protocol string. */
  predicate Resting(bytes: Codes) { bytes != [] ==> LF !in bytes && LeadLength(bytes) == 0 }

  ghost predicate Rests(s: Filter) {
    && (s.queue != [] ==> Resting(s.queue[0].bytes))
    && (forall i :: 0 <= i < |s.queue| ==> s.now <= s.queue[i].deadline)
  }

  ghost predicate Calm(s: Filter) { QueueOk(s) && Rests(s) }

  /** Either the same expectation is still at the head, or at most n of the last bytes
      are held. */
  ghost predicate SameOrNew(t: Filter, id: nat, n: nat) {
    (t.queue != [] && t.queue[0].id == id) || |Held(t.queue)| <= n
  }

  // ------------------------------------------------------------ what more bytes do to held ones

  /** A protocol string that more bytes complete takes all that was held. */
  lemma LeadTakesAll(a: Codes, b: Codes)
    requires a != [] && LeadLength(a) == 0
    ensures LeadLength(a + b) == 0 || LeadLength(a + b) >= |a|
  {
    hide EchoCsiKind, IsQuery;
    LeadStays(a, b);
    if Partial(a) && |a| >= 2 { CsiEndPasses(a, b, 2); }
  }

  lemma {:induction false} CsiEndPasses(a: Codes, b: Codes, i: nat)
    requires i <= |a| && CsiEnd(a, i) == |a|
    ensures CsiEnd(a + b, i) >= |a|
    decreases |a| - i
  {
    if i < |a| { CsiEndPasses(a, b, i + 1); }
  }

  lemma LeadingTakesAll(held: Codes, past: nat, owned: bool, nonces: set<Codes>)
    requires 0 < past <= |held| && LeadLength(held[..past]) == 0
    ensures var scan := Leading(None, held, owned, nonces); scan.length == 0 || scan.length >= past
  {
    hide LeadLength, Leading;
    assert held == held[..past] + held[past..];
    LeadTakesAll(held[..past], held[past..]);
    Unfolded(None, held, owned, nonces, LeadMove(None, held, owned, nonces));
  }

  /** Where the scan stops, no protocol string begins. */
  lemma StopsMeansNone(rest: Codes, owned: bool, nonces: set<Codes>)
    requires rest != [] && Leading(None, rest, owned, nonces).length == 0
    ensures LeadLength(rest) == 0
  {
    hide LeadLength, Leading;
    Unfolded(None, rest, owned, nonces, LeadMove(None, rest, owned, nonces));
  }

  // ------------------------------------------------------------ feeding

  lemma FeedRests(u: Codec, s: Filter, bytes: Codes, cb: seq<nat>)
    requires Calm(s)
    ensures var t := Feed(u, s, bytes, cb);
      && Rests(t) && |Held(t.queue)| <= |Held(s.queue)| + |bytes|
      && (s.queue != [] ==> SameOrNew(t, s.queue[0].id, |bytes|))
    decreases |s.queue|, 3
  {
    hide Forward, QueueOk, Resting;
    if bytes != [] {
      var gone := (e: Echo) => e.Expired(s.now);
      var s1 := Expire(s);
      KeptShrinks(s.queue, gone);
      ExpireCalm(s);
      if s1.queue != [] {
        var woken := Wake(s1.queue[0], s.now);
        var head := woken.(acks := woken.acks + cb);
        var past := |head.bytes|;
        assert (head.bytes + bytes)[..past] == head.bytes;
        HeadRests(s1);
        ForwardRests(u, s1, head, head.bytes + bytes, past);
      }
    }
  }

  lemma HeadRests(s: Filter)
    requires Calm(s) && s.queue != []
    ensures var e := s.queue[0];
      e.bytes != [] ==> e.protocol.None? && !e.retired && LF !in e.bytes && LeadLength(e.bytes) == 0
    ensures s.now <= Wake(s.queue[0], s.now).deadline
  {
  }

  /** Expiry keeps the head as it is, or leaves one that holds nothing. */
  lemma ExpireCalm(s: Filter)
    requires Calm(s)
    ensures Calm(Expire(s))
    ensures var q := Expire(s).queue; (q != [] && q[0] == s.queue[0] && s.queue != []) || Held(q) == []
  {
    hide LogOk, Members, AllIdle, HeadOk, LeadLength;
    var gone := (e: Echo) => e.Expired(s.now);
    KeptQueue(s, gone);
    KeptMembers(s.queue, gone, s.armed, s.now);
  }

  /** The first `past` bytes of what is held had been held before this chunk. */
  ghost predicate Carrying(s: Filter, head: Echo, held: Codes, past: nat) {
    && QueueOk(s) && s.queue != [] && head.id == s.queue[0].id && s.now <= head.deadline
    && (forall i :: 0 <= i < |s.queue| ==> s.now <= s.queue[i].deadline)
    && held != [] && past <= |held| && LF !in held[..past]
  }

  lemma ForwardRests(u: Codec, s: Filter, head: Echo, held: Codes, past: nat)
    requires Carrying(s, head, held, past)
    requires past > 0 ==> head.protocol.None? && LeadLength(held[..past]) == 0
    ensures var t := Forward(u, s, head, held);
      Rests(t) && |Held(t.queue)| <= |held| && SameOrNew(t, head.id, |held| - past)
    decreases |s.queue|, 2
  {
    hide Leading, LeadLength, Forward, Continue, RunningFrom, Nonces, IndexOfNonce, QueueOk, Rests;
    var nonces := Nonces(s.queue);
    var scan := Leading(head.protocol, held, head.nonce.Some?, nonces);
    var prefix, rest := held[..scan.length], held[scan.length..];
    assert held == prefix + rest;
    if past > 0 { LeadingTakesAll(held, past, head.nonce.Some?, nonces); }
    ScanStops(head.protocol, held, head.nonce.Some?, nonces);
    if !scan.stop.Running? {
      ForwardStops(u, s, head, held, prefix, rest, scan);
      var through := if scan.stop.Reply? then IndexOfNonce(s.queue, scan.stop.nonce) else 0;
      ContinueRests(u, s, through, head.acks, Plain(prefix, []), rest);
    } else {
      ForwardRuns(u, s, head, held, prefix, rest, scan);
      if rest != [] { StopsMeansNone(rest, head.nonce.Some?, nonces); }
      RunningRests(u, s, head, held, prefix, rest, past, scan.protocol);
    }
  }

  lemma RunningRests(u: Codec, s: Filter, head: Echo, held: Codes, prefix: Codes, rest: Codes, past: nat, protocol: Option<Protocol>)
    requires Carrying(s, head, held, past) && held == prefix + rest && (prefix == [] || |prefix| >= past)
    requires rest != [] ==> LeadLength(rest) == 0
    ensures var t := RunningFrom(u, s, head, held, prefix, rest, protocol);
      Rests(t) && |Held(t.queue)| <= |held| && SameOrNew(t, head.id, |held| - past)
    decreases |s.queue|, 2, 0
  {
    hide Match, LeadLength, QueueOk;
    var kept := head.(protocol := protocol, forwarded := head.forwarded + |prefix|);
    if |prefix| == 0 {
      assert rest == held;
      MatchRests(u, s, kept, rest, past);
    } else if head.forwarded + |prefix| <= MAX_ECHO_BYTES && rest != [] {
      LoggedCarries(s, Plain(prefix, []));
      MatchRests(u, s.Log(Plain(prefix, [])), kept, rest, 0);
    }
  }

  lemma LoggedCarries(s: Filter, w: Write)
    requires QueueOk(s)
    ensures QueueOk(s.Log(w))
  {
    hide Members, AllIdle;
  }

  lemma NoLineYet(held: Codes, past: nat)
    requires past <= |held| && LF !in held[..past]
    ensures IndexOf(held, LF) >= past
  {
    hide IndexOf;
    forall j | 0 <= j < past ensures held[j] != LF { assert held[..past][j] in held[..past]; }
  }

  lemma MatchRests(u: Codec, s: Filter, head: Echo, held: Codes, past: nat)
    requires Carrying(s, head, held, past) && LeadLength(held) == 0
    ensures var t := Match(u, s, head, held);
      Rests(t) && |Held(t.queue)| <= |held| && SameOrNew(t, head.id, |held| - past)
    decreases |s.queue|, 1
  {
    hide Normalize, HasNonEchoControl, Continue, LeadLength, QueueOk, IndexOf, IndexOfLine, Shown;
    var end := IndexOf(held, LF);
    if end < |held| {
      NoLineYet(held, past);
      var line := Normalize(u.decode(held[..end]));
      var i := if line.Some? then IndexOfLine(s.queue, line.value.text) else |s.queue|;
      if i < |s.queue| {
        ContinueRests(u, s, i, head.acks,
                      Write(u.encode(Shown(s.queue[i].visible, line.value)), held[..end + 1], [],
                            Some(Swap(s.queue[i].id, held[..end + 1]))),
                      held[end + 1..]);
      }
    }
  }

  lemma ContinueRests(u: Codec, s: Filter, through: nat, acks: seq<nat>, w: Write, rest: Codes)
    requires w.Write? && through < |s.queue| && QueueOk(s)
    requires forall i :: 0 <= i < |s.queue| ==> s.now <= s.queue[i].deadline
    ensures var t := Continue(u, s.(queue := s.queue[through + 1..]), acks, w, rest);
      Rests(t) && |Held(t.queue)| <= |rest|
    decreases |s.queue|, 0
  {
    hide Feed, Members, AllIdle, HeadOk, LeadLength;
    var left := s.(queue := s.queue[through + 1..]);
    SuffixOk(s.queue, through + 1, s.armed, s.now);
    if rest != [] && left.queue != [] { FeedRests(u, left.Log(w), rest, acks); }
  }

  // ------------------------------------------------------------ every other step

  /** What a step does to what is held: more only by its own input, and all of that
      unless the same expectation still holds it. */
  ghost predicate KeepsHolding(s: Filter, t: Filter, input: nat) {
    && Rests(t) && |Held(t.queue)| <= |Held(s.queue)| + input
    && (s.queue != [] ==> SameOrNew(t, s.queue[0].id, input))
  }

  /** The head stays as it is, or what it held is gone. */
  lemma HeadOrNothing(s: Filter, t: Filter)
    requires Calm(s) && t.now == s.now && forall i :: 0 <= i < |t.queue| ==> s.now <= t.queue[i].deadline
    requires (t.queue != [] && s.queue != [] && t.queue[0].id == s.queue[0].id && t.queue[0].bytes == s.queue[0].bytes)
      || Held(t.queue) == []
    ensures KeepsHolding(s, t, 0)
  {
    hide QueueOk, LeadLength;
  }

  lemma RetireRests(s: Filter, id: nat)
    requires Calm(s)
    ensures KeepsHolding(s, Retire(s, id), 0)
  {
    hide Members, AllIdle, HeadOk, Idle, LeadLength, KeepsHolding;
    var i := IndexOfId(s.queue, id);
    var t := Retire(s, id);
    if i < |s.queue| {
      var e := s.queue[i];
      if e.nonce.Some? && s.now < e.expiresAt && !e.HasContent() {
        var q := s.queue[i := e.(retired := true, deadline := e.expiresAt)];
        assert i > 0 ==> q[0] == s.queue[0];
      } else {
        WithoutOk(s, i);
        assert forall j :: 0 <= j < |t.queue| ==> t.queue[j] == s.queue[if j < i then j else j + 1];
      }
    }
    HeadOrNothing(s, t);
  }

  lemma ExpectRests(u: Codec, s: Filter, line: Codes, visible: Option<Codes>, requested: Option<Codes>)
    requires Calm(s)
    ensures KeepsHolding(s, Expect(s, line, visible, requested), 0)
  {
    hide Calm, KeepsHolding, Expect;
    var kept := Kept(s.queue, (e: Echo) => e.nonce.None?);
    SupersededRests(s, kept);
    var echo := ExpectQueue(s, line, visible, requested);
    var q, t := kept + [echo], Expect(s, line, visible, requested);
    var extra := if |q| > MAX_EXPECTATIONS then |q| - MAX_EXPECTATIONS else 0;
    assert forall i :: 0 <= i < |t.queue| ==> t.queue[i] == if extra + i < |kept| then kept[extra + i] else echo;
    HeadOrNothing(s, t);
  }

  lemma ExpectQueue(s: Filter, line: Codes, visible: Option<Codes>, requested: Option<Codes>) returns (echo: Echo)
    ensures echo.bytes == [] && echo.deadline == s.now + ECHO_WAIT_MS
    ensures var q := Kept(s.queue, (e: Echo) => e.nonce.None?) + [echo]; var t := Expect(s, line, visible, requested);
      t.now == s.now && t.queue == q[if |q| > MAX_EXPECTATIONS then |q| - MAX_EXPECTATIONS else 0..]
  {
    hide OwnedNonce, Kept, Gone, FlushAll;
    var nonce := OwnedNonce(line, visible, requested);
    echo := Echo(|s.armed|, line, visible, [], [], s.now + ECHO_WAIT_MS, None, 0, nonce,
                 if nonce.Some? then s.now + LATE_PROBE_ECHO_MS else 0, false);
  }

  /** What stays in the queue when ordinary expectations are superseded. */
  lemma SupersededRests(s: Filter, kept: seq<Echo>)
    requires Calm(s) && kept == Kept(s.queue, (e: Echo) => e.nonce.None?)
    ensures |kept| <= MAX_EXPECTATIONS && forall i :: 0 <= i < |kept| ==> s.now <= kept[i].deadline
    ensures (kept != [] && s.queue != [] && kept[0] == s.queue[0]) || Held(kept) == []
    ensures forall i :: 0 < i < |kept| ==> kept[i].bytes == []
  {
    hide Members, AllIdle, HeadOk, LeadLength;
    var gone := (e: Echo) => e.nonce.None?;
    KeptQueue(s, gone);
    KeptMembers(s.queue, gone, s.armed, s.now);
    Room(s.(queue := kept));
    forall i | 0 < i < |kept| ensures kept[i].bytes == [] { OnlyHeadHolds(s.(queue := kept), i); }
  }

  lemma StepRests(u: Codec, s: Filter, fed: nat, e: Event)
    requires Sound(u, s, fed) && Rests(s) && Legal(s, e)
    ensures KeepsHolding(s, Step(u, s, fed, e), |InputOf(e)|)
  {
    hide LogOk, Members, AllIdle, HeadOk, LeadLength, Feed, Expect, Retire;
    match e
    case Chunk(bytes, _) => FeedRests(u, s, bytes, Callback(e, fed));
    case Expected(line, visible, requested) => ExpectRests(u, s, line, visible, requested);
    case Retired(id) => RetireRests(s, id);
    case Cancelled(_) =>
    case Tick(_) =>
  }

  // ------------------------------------------------------------ two seconds for every byte

  /** The clock never passes a due timer. */
  ghost predicate LegalRun(u: Codec, s: Filter, fed: nat, events: seq<Event>)
    decreases |events|
  {
    events != [] ==>
      && Legal(s, events[0])
      && LegalRun(u, Step(u, s, fed, events[0]), Offset(events[0], fed), events[1..])
  }

  /** The byte at this offset of the input has not been passed on. */
  predicate IsHeld(s: Filter, fed: nat, offset: nat) { |Sources(s.log)| <= offset < fed }

  lemma StepHolds(u: Codec, s: Filter, fed: nat, e: Event, offset: nat)
    requires Sound(u, s, fed) && Rests(s) && Legal(s, e) && IsHeld(s, fed, offset)
    ensures var t, fed' := Step(u, s, fed, e), Offset(e, fed);
      && Sound(u, t, fed') && Rests(t) && offset < fed'
      && (IsHeld(t, fed', offset) ==>
            && s.queue != [] && Holds(s, s.queue[0].id) && Holds(t, s.queue[0].id)
            && t.queue[0].deadline == s.queue[0].deadline)
  {
    hide Sound, Step, Sources, Rests, Legal;
    StepLaw(u, s, fed, e);
    StepRests(u, s, fed, e);
    HeldLengths(u, s, fed);
    HeldLengths(u, Step(u, s, fed, e), Offset(e, fed));
    if IsHeld(Step(u, s, fed, e), Offset(e, fed), offset) { StepDeadline(u, s, fed, e); }
  }

  lemma HeldLengths(u: Codec, s: Filter, fed: nat)
    requires Sound(u, s, fed)
    ensures |Sources(s.log)| + |Held(s.queue)| == fed
  {
    hide Good;
  }

  /** A byte that is passed on stays passed on. */
  lemma {:induction false} PassedOn(u: Codec, s: Filter, fed: nat, events: seq<Event>, offset: nat)
    requires Sound(u, s, fed) && Rests(s) && LegalRun(u, s, fed, events) && |Sources(s.log)| > offset
    ensures |Sources(EchoRuns.Run(u, s, fed, events).log)| > offset
    decreases |events|
  {
    hide Sound, Step, Sources, Rests, Legal;
    if events != [] {
      var e, t := events[0], Step(u, s, fed, events[0]);
      StepLaw(u, s, fed, e);
      StepRests(u, s, fed, e);
      HeldLengths(u, s, fed);
      HeldLengths(u, t, Offset(e, fed));
      PassedOn(u, t, Offset(e, fed), events[1..], offset);
    }
  }

  /** A byte that is held now and still held later is held by the expectation that held it
      first, and that one's deadline has not passed. */
  lemma {:induction false} HeldUntil(u: Codec, s: Filter, fed: nat, events: seq<Event>, offset: nat)
    requires Sound(u, s, fed) && Rests(s) && LegalRun(u, s, fed, events)
    requires IsHeld(s, fed, offset) && |Sources(EchoRuns.Run(u, s, fed, events).log)| <= offset
    ensures s.queue != [] && EchoRuns.Run(u, s, fed, events).now <= s.queue[0].deadline <= s.now + ECHO_WAIT_MS
    decreases |events|
  {
    hide Sound, Step, Sources, Legal, LeadLength;
    HeldLengths(u, s, fed);
    HeadDeadline(u, s, fed);
    if events != [] {
      var e, t := events[0], Step(u, s, fed, events[0]);
      StepHolds(u, s, fed, e, offset);
      if |Sources(t.log)| > offset { PassedOn(u, t, Offset(e, fed), events[1..], offset); }
      HeldUntil(u, t, Offset(e, fed), events[1..], offset);
    }
  }

  lemma HeadDeadline(u: Codec, s: Filter, fed: nat)
    requires Sound(u, s, fed) && s.queue != [] && s.queue[0].bytes != []
    ensures s.queue[0].deadline <= s.now + ECHO_WAIT_MS
  {
    hide LogOk;
  }

  /** Every run keeps what is held at rest. */
  lemma {:induction false} RunRests(u: Codec, s: Filter, fed: nat, events: seq<Event>)
    requires Sound(u, s, fed) && Rests(s) && LegalRun(u, s, fed, events)
    ensures Sound(u, EchoRuns.Run(u, s, fed, events), fed + |Input(events)|) && Rests(EchoRuns.Run(u, s, fed, events))
    decreases |events|
  {
    hide Sound, Step, Rests, Legal;
    if events != [] {
      var e := events[0];
      StepLaw(u, s, fed, e);
      StepRests(u, s, fed, e);
      RunRests(u, Step(u, s, fed, e), Offset(e, fed), events[1..]);
    }
  }

  lemma {:induction false} RunJoins(u: Codec, s: Filter, fed: nat, a: seq<Event>, b: seq<Event>)
    ensures EchoRuns.Run(u, s, fed, a + b) == EchoRuns.Run(u, EchoRuns.Run(u, s, fed, a), fed + |Input(a)|, b)
    ensures LegalRun(u, s, fed, a + b) <==> LegalRun(u, s, fed, a) && LegalRun(u, EchoRuns.Run(u, s, fed, a), fed + |Input(a)|, b)
    decreases |a|
  {
    hide Step, Legal;
    if a == [] {
      assert a + b == b;
    } else {
      assert (a + b)[1..] == a[1..] + b;
      RunJoins(u, Step(u, s, fed, a[0]), Offset(a[0], fed), a[1..], b);
    }
  }

  /** No byte of the PTY's output is kept from the terminal for more than two seconds, in
      any run in which no timer is late: one that is held after some events and still held
      after more of them has waited at most that long in between. */
  lemma NoByteIsHeldLong(u: Codec, before: seq<Event>, after: seq<Event>, offset: nat)
    requires LegalRun(u, FRESH, 0, before + after) && offset < |Input(before)|
    requires |Sources(EchoRuns.Run(u, FRESH, 0, before).log)| <= offset
    requires |Sources(EchoRuns.Run(u, FRESH, 0, before + after).log)| <= offset
    ensures EchoRuns.Run(u, FRESH, 0, before + after).now <= EchoRuns.Run(u, FRESH, 0, before).now + ECHO_WAIT_MS
  {
    hide Sound, Sources, EchoRuns.Run, LegalRun, Input;
    FreshIsSound(u);
    RunJoins(u, FRESH, 0, before, after);
    RunRests(u, FRESH, 0, before);
    HeldUntil(u, EchoRuns.Run(u, FRESH, 0, before), |Input(before)|, after, offset);
  }
}
