/** The echo filter over whole runs: every order of chunks, expectations, cleanups,
    timers, cancellations and clock ticks. */
module EchoRuns {
  import opened Basics
  import opened EchoText
  import opened EchoModel
  import opened EchoLaws
  import opened EchoChunks

  datatype Event =
    | Chunk(bytes: Codes, acked: bool)
    | Expected(line: Codes, visible: Option<Codes>, requested: Option<Codes>)
    /** A request's cleanup callback, or the expectation's own timer. */
    | Retired(id: nat)
    | Cancelled(discard: bool)
    | Tick(to: int)

  const FRESH: Filter := Filter([], [], [], 0)

  /** `fed` is the input offset reached so far: it names the chunk's callback. */
  function Callback(e: Event, fed: nat): seq<nat> {
    if e.Chunk? && e.acked then [fed + |e.bytes|] else []
  }

  function Step(u: Codec, s: Filter, fed: nat, e: Event): Filter {
    match e
    case Chunk(bytes, _) => Feed(u, s, bytes, Callback(e, fed))
    case Expected(line, visible, requested) => Expect(s, line, visible, requested)
    case Retired(id) => Retire(s, id)
    case Cancelled(discard) => Cancel(s, discard)
    case Tick(to) => if to > s.now then s.(now := to) else s
  }

  function Offset(e: Event, fed: nat): nat { if e.Chunk? then fed + |e.bytes| else fed }

  function Run(u: Codec, s: Filter, fed: nat, events: seq<Event>): Filter
    decreases |events|
  {
    if events == [] then s else Run(u, Step(u, s, fed, events[0]), Offset(events[0], fed), events[1..])
  }

  function InputOf(e: Event): Codes { if e.Chunk? then e.bytes else [] }

  /** The PTY input of a run. */
  function Input(events: seq<Event>): Codes {
    if events == [] then [] else InputOf(events[0]) + Input(events[1..])
  }

  /** An empty chunk is passed on at once; only the others can be held. */
  function Owed(e: Event, fed: nat): seq<nat> {
    if e.Chunk? && e.bytes != [] then Callback(e, fed) else []
  }

  /** The callbacks its non-empty chunks carry, in chunk order. */
  function Callbacks(events: seq<Event>, fed: nat): seq<nat> {
    if events == [] then [] else Owed(events[0], fed) + Callbacks(events[1..], Offset(events[0], fed))
  }

  // ------------------------------------------------------------ single steps

  ghost predicate Sound(u: Codec, s: Filter, fed: nat) {
    Good(u, s) && |Trace(s)| == fed && Due(HeldAcks(s.queue), fed)
  }

  lemma GenuineLater(u: Codec, armed: seq<Armed>, x: Armed, log: seq<Write>, bound: nat)
    requires LogOk(u, armed, log, bound) && bound <= |armed|
    ensures LogOk(u, armed + [x], log, bound)
  {
    hide Normalize, Shown, OnTime, ConsumedOnce;
    forall j | 0 <= j < |log| ensures Genuine(u, armed + [x], log[j]) { assert Genuine(u, armed, log[j]); }
  }

  lemma WithoutOk(s: Filter, i: nat)
    requires QueueOk(s) && i < |s.queue|
    ensures QueueOk(s.(queue := Without(s.queue, i))) && Oldest(s) <= Oldest(s.(queue := Without(s.queue, i)))
    ensures Held(Without(s.queue, i)) == (if i == 0 then [] else Held(s.queue))
    ensures HeldAcks(Without(s.queue, i)) == (if i == 0 then [] else HeldAcks(s.queue))
  {
    hide Members, AllIdle, HeadOk, Idle;
    var q := Without(s.queue, i);
    WithoutMembers(s.queue, i, s.armed, s.now);
    if i == 0 {
      assert q == s.queue[1..];
      if q != [] { IdleHead(q); }
    } else {
      WithoutIdle(s.queue[1..], i - 1);
      assert q[0] == s.queue[0] && q[1..] == Without(s.queue[1..], i - 1);
    }
  }

  lemma WithoutMembers(queue: seq<Echo>, i: nat, armed: seq<Armed>, now: int)
    requires Members(queue, armed, now) && i < |queue|
    ensures Members(Without(queue, i), armed, now)
    ensures queue[0].id < |armed| && forall j :: 0 <= j < |Without(queue, i)| ==> queue[0].id <= Without(queue, i)[j].id < |armed|
  {
    var q := Without(queue, i);
    assert forall j :: 0 <= j < |q| ==> q[j] == queue[if j < i then j else j + 1];
  }

  lemma WithoutIdle(queue: seq<Echo>, i: nat)
    requires AllIdle(queue) && i < |queue|
    ensures AllIdle(Without(queue, i))
  {
    hide Idle;
    var q := Without(queue, i);
    assert forall j :: 0 <= j < |q| ==> q[j] == queue[if j < i then j else j + 1];
  }

  lemma MarkedOk(s: Filter, i: nat, e: Echo)
    requires QueueOk(s) && i < |s.queue|
    requires e == s.queue[i].(retired := true, deadline := e.deadline) && e.nonce.Some? && !e.HasContent()
    ensures QueueOk(s.(queue := s.queue[i := e])) && Oldest(s) == Oldest(s.(queue := s.queue[i := e]))
    ensures Held(s.queue[i := e]) == Held(s.queue) && HeldAcks(s.queue[i := e]) == HeldAcks(s.queue)
  {
    var q := s.queue[i := e];
    assert forall j :: 0 < j < |s.queue| ==> s.queue[j] == s.queue[1..][j - 1];
    assert forall j :: 0 < j < |q| ==> q[1..][j - 1] == q[j];
    forall j | 0 < j < |q| ensures Idle(q[j]) { assert Idle(s.queue[j]); }
  }

  lemma OnlyHeadHolds(s: Filter, i: nat)
    requires QueueOk(s) && 0 < i < |s.queue|
    ensures !s.queue[i].HasContent()
  {
    assert Idle(s.queue[1..][i - 1]);
  }

  lemma RetireLaw(u: Codec, s: Filter, fed: nat, id: nat)
    requires Sound(u, s, fed)
    ensures var t := Retire(s, id);
      && Sound(u, t, fed) && Trace(t) == Trace(s) && AckTrace(t) == AckTrace(s) && Oldest(s) <= Oldest(t)
      && t.armed == s.armed && t.now == s.now
  {
    hide LogOk, Sources, Acks, Members, AllIdle;
    var i := IndexOfId(s.queue, id);
    var t := Retire(s, id);
    if i < |s.queue| {
      var e := s.queue[i];
      if e.nonce.Some? && s.now < e.expiresAt && !e.HasContent() {
        MarkedOk(s, i, e.(retired := true, deadline := e.expiresAt));
      } else {
        WithoutOk(s, i);
        BoundRaised(u, s.armed, s.log, Oldest(s), Oldest(t));
        if i > 0 { OnlyHeadHolds(s, i); }
        FlushOne(u, s, e, Oldest(t));
      }
    }
  }

  lemma FlushWhole(queue: seq<Echo>)
    requires queue != [] ==> AllIdle(queue[1..])
    ensures FlushAll(queue) == if queue == [] then [] else Flushed(queue[0])
    ensures DiscardAll(queue) ==
      if queue == [] || !queue[0].HasContent() then [] else [Discard(queue[0].bytes, queue[0].acks)]
  {
    if queue != [] { FlushIdle(queue[1..]); }
  }

  lemma CancelLaw(u: Codec, s: Filter, fed: nat, discard: bool)
    requires Sound(u, s, fed)
    ensures var t := Cancel(s, discard);
      && Sound(u, t, fed) && Trace(t) == Trace(s) && AckTrace(t) == AckTrace(s) && Oldest(s) <= Oldest(t)
      && t.now == s.now
  {
    hide LogOk, Sources, Acks, AllIdle, Members, FlushAll, DiscardAll;
    FlushWhole(s.queue);
    NoQueueOk(s);
    BoundRaised(u, s.armed, s.log, Oldest(s), |s.armed|);
    if s.queue == [] {
      assert FlushAll([]) == [] && DiscardAll([]) == [] && s.log + [] == s.log;
    } else if discard && s.queue[0].HasContent() {
      DiscardOne(u, s, s.queue[0]);
    } else {
      FlushOne(u, s, s.queue[0], |s.armed|);
      assert discard ==> s.log + [] == s.log + Flushed(s.queue[0]);
    }
  }

  lemma NoQueueOk(s: Filter)
    requires QueueOk(s)
    ensures QueueOk(s.(queue := [])) && Oldest(s) <= |s.armed|
  {
  }

  lemma DiscardOne(u: Codec, s: Filter, e: Echo)
    requires LogOk(u, s.armed, s.log, Oldest(s)) && Oldest(s) <= |s.armed| && e.bytes != []
    requires Due(e.acks, |Sources(s.log)| + |e.bytes|)
    ensures var log := s.log + [Discard(e.bytes, e.acks)];
      && LogOk(u, s.armed, log, |s.armed|)
      && Sources(log) == Sources(s.log) + e.bytes && Acks(log) == Acks(s.log) + e.acks
  {
    hide LogOk, Sources, Acks;
    LogKept(u, s.armed, s.log, Oldest(s), Discard(e.bytes, e.acks), |s.armed|);
  }

  lemma Room(s: Filter)
    requires QueueOk(s)
    ensures |s.queue| <= MAX_EXPECTATIONS && Oldest(s) <= |s.armed|
  {
  }

  /** Arming one more expectation behind owned probes, with room made for it. */
  lemma ArmOk(s: Filter, echo: Echo, extra: nat)
    requires QueueOk(s) && forall i :: 0 <= i < |s.queue| ==> s.queue[i].nonce.Some?
    requires echo.id == |s.armed| && Idle(echo) && !echo.retired && echo.deadline == s.now + ECHO_WAIT_MS
    requires extra == if |s.queue| == MAX_EXPECTATIONS then 1 else 0
    ensures var q := (s.queue + [echo])[extra..];
      var t := s.(queue := q, armed := s.armed + [Armed(echo.line, echo.visible)]);
      && QueueOk(t) && Oldest(s) <= Oldest(t)
      && Held(q) == (if extra == 1 then [] else Held(s.queue))
      && HeldAcks(q) == (if extra == 1 then [] else HeldAcks(s.queue))
  {
    hide Members, AllIdle, HeadOk, Idle;
    var q := (s.queue + [echo])[extra..];
    ArmMembers(s.queue, s.armed, s.now, echo, extra);
    IdleLast(if s.queue == [] then [] else s.queue[1..], echo);
    if extra == 1 {
      assert q == s.queue[1..] + [echo];
      IdleHead(q);
    } else if s.queue == [] {
      IdleHead([echo]);
    } else {
      assert q == s.queue + [echo] && q[1..] == s.queue[1..] + [echo];
    }
  }

  lemma ArmMembers(queue: seq<Echo>, armed: seq<Armed>, now: int, echo: Echo, extra: nat)
    requires Members(queue, armed, now) && forall i :: 0 <= i < |queue| ==> queue[i].nonce.Some?
    requires echo.id == |armed| && !echo.retired && echo.deadline == now + ECHO_WAIT_MS
    requires extra == if |queue| == MAX_EXPECTATIONS then 1 else 0
    ensures var q := (queue + [echo])[extra..];
      && Members(q, armed + [Armed(echo.line, echo.visible)], now)
      && (forall j :: 0 <= j < |q| ==> q[j].id <= |armed|) && (queue != [] ==> queue[0].id <= q[0].id)
  {
    var q := (queue + [echo])[extra..];
    assert forall i :: 0 <= i < |q| ==> q[i] == if i + extra < |queue| then queue[i + extra] else echo;
  }

  lemma IdleLast(queue: seq<Echo>, echo: Echo)
    requires queue != [] ==> AllIdle(queue)
    requires Idle(echo)
    ensures AllIdle(queue + [echo])
  {
    hide Idle;
  }

  lemma FlushFew(q: seq<Echo>)
    requires q != []
    ensures FlushAll(q[..0]) == [] && FlushAll(q[..1]) == Flushed(q[0])
  {
    assert q[..1] == [q[0]] && q[..1][1..] == [] && FlushAll([]) == [];
  }

  lemma EvictedLater(s: Filter, gone: Echo -> bool)
    ensures Evict(s, gone).armed == s.armed && Evict(s, gone).now == s.now
  {
  }

  lemma ExpectLaw(u: Codec, s: Filter, fed: nat, line: Codes, visible: Option<Codes>, requested: Option<Codes>)
    requires Sound(u, s, fed)
    ensures var t := Expect(s, line, visible, requested);
      && Sound(u, t, fed) && Trace(t) == Trace(s) && AckTrace(t) == AckTrace(s) && Oldest(s) <= Oldest(t)
      && t.now == s.now
  {
    hide LogOk, Members, AllIdle, Sources, Acks, OwnedNonce, Evict, Bounded;
    var gone := (e: Echo) => e.nonce.None?;
    EvictKeeps(u, s, gone);
    EvictedLater(s, gone);
    var nonce := OwnedNonce(line, visible, requested);
    var echo := Echo(|s.armed|, line, visible, [], [], s.now + ECHO_WAIT_MS, None, 0, nonce,
                     if nonce.Some? then s.now + LATE_PROBE_ECHO_MS else 0, false);
    ArmLaw(u, Evict(s, gone), fed, echo);
  }

  lemma ArmLaw(u: Codec, s: Filter, fed: nat, echo: Echo)
    requires Sound(u, s, fed) && forall i :: 0 <= i < |s.queue| ==> s.queue[i].nonce.Some?
    requires echo.id == |s.armed| && Idle(echo) && !echo.retired && echo.deadline == s.now + ECHO_WAIT_MS
    ensures var t := Bounded(s.(queue := s.queue + [echo], armed := s.armed + [Armed(echo.line, echo.visible)]));
      && Sound(u, t, fed) && Trace(t) == Trace(s) && AckTrace(t) == AckTrace(s) && Oldest(s) <= Oldest(t)
      && t.now == s.now
  {
    hide LogOk, Sources, Acks, Members, AllIdle, Flushed, FlushAll;
    var armed := s.armed + [Armed(echo.line, echo.visible)];
    var q := s.queue + [echo];
    var t := Bounded(s.(queue := q, armed := armed));
    Room(s);
    GenuineLater(u, s.armed, Armed(echo.line, echo.visible), s.log, Oldest(s));
    FlushFew(q);
    if |q| > MAX_EXPECTATIONS {
      ArmOk(s, echo, 1);
      FlushOne(u, s.(armed := armed), s.queue[0], Oldest(t));
    } else {
      ArmOk(s, echo, 0);
      assert s.log + [] == s.log;
      BoundRaised(u, armed, s.log, Oldest(s), Oldest(t));
    }
  }

  // ------------------------------------------------------------ whole runs

  lemma StepLaw(u: Codec, s: Filter, fed: nat, e: Event)
    requires Sound(u, s, fed)
    ensures var t := Step(u, s, fed, e);
      && Sound(u, t, Offset(e, fed)) && Oldest(s) <= Oldest(t)
      && Trace(t) == Trace(s) + InputOf(e)
      && AckTrace(t) == AckTrace(s) + Owed(e, fed)
      && t.now == if e.Tick? && e.to > s.now then e.to else s.now
  {
    hide Good, Sources, Acks, Feed, Expect, Cancel, Retire;
    match e
    case Chunk(bytes, _) => FeedLaw(u, s, bytes, Callback(e, fed));
    case Expected(line, visible, requested) => ExpectLaw(u, s, fed, line, visible, requested);
    case Retired(id) => RetireLaw(u, s, fed, id);
    case Cancelled(discard) => CancelLaw(u, s, fed, discard);
    case Tick(to) => TickKeeps(u, s, to);
  }

  lemma TickKeeps(u: Codec, s: Filter, to: int)
    requires Good(u, s)
    ensures Good(u, if to > s.now then s.(now := to) else s)
  {
    hide LogOk;
  }

  /** Byte and callback conservation. After any run the log stands for exactly the
      PTY input up to the bytes the head holds, each callback of a non-empty chunk is
      on exactly one entry or held, in chunk order and never early, and every entry
      that differs from its source is a proven echo of an expectation used once. */
  lemma {:induction false} RunConserves(u: Codec, s: Filter, fed: nat, events: seq<Event>)
    requires Sound(u, s, fed)
    ensures var t := Run(u, s, fed, events);
      && Good(u, t)
      && Trace(t) == Trace(s) + Input(events)
      && AckTrace(t) == AckTrace(s) + Callbacks(events, fed)
    decreases |events|
  {
    hide Good, Trace, AckTrace, Step, Offset, InputOf, Owed;
    if events == [] {
      assert Trace(s) + [] == Trace(s) && AckTrace(s) + [] == AckTrace(s);
    } else {
      var e, t := events[0], Step(u, s, fed, events[0]);
      StepLaw(u, s, fed, e);
      RunConserves(u, t, Offset(e, fed), events[1..]);
      assert Trace(s) + InputOf(e) + Input(events[1..]) == Trace(s) + Input(events);
      assert AckTrace(s) + Owed(e, fed) + Callbacks(events[1..], Offset(e, fed)) == AckTrace(s) + Callbacks(events, fed);
    }
  }

  lemma FreshIsSound(u: Codec)
    ensures Sound(u, FRESH, 0)
  {
  }

  /** The same for a run from nothing, spelled out. */
  lemma EveryRun(u: Codec, events: seq<Event>)
    ensures var t := Run(u, FRESH, 0, events);
      && Sources(t.log) + Held(t.queue) == Input(events)
      && Acks(t.log) + HeldAcks(t.queue) == Callbacks(events, 0)
      && OnTime(t.log)
      && (forall j :: 0 <= j < |t.log| ==> Genuine(u, t.armed, t.log[j]))
      && ConsumedOnce(t.log, |t.armed|)
      && |Held(t.queue)| <= MAX_ECHO_BYTES && |t.queue| <= MAX_EXPECTATIONS
      && (forall i :: 0 < i < |t.queue| ==> !t.queue[i].HasContent())
  {
    hide Genuine, OnTime, ConsumedOnce, Normalize, Run, Input, Callbacks;
    FreshIsSound(u);
    RunConserves(u, FRESH, 0, events);
    var t := Run(u, FRESH, 0, events);
    BoundRaised(u, t.armed, t.log, Oldest(t), |t.armed|);
    forall i | 0 < i < |t.queue| ensures !t.queue[i].HasContent() { OnlyHeadHolds(t, i); }
    assert Trace(FRESH) == [] && AckTrace(FRESH) == [];
  }

  // ------------------------------------------------------------ nothing is dropped

  /** Only a discarding cancel drops input. */
  ghost predicate AllWritten(log: seq<Write>) { forall j :: 0 <= j < |log| ==> log[j].Write? }

  lemma FlushAllWrites(queue: seq<Echo>)
    ensures AllWritten(FlushAll(queue))
  {
  }

  lemma FeedWrites(u: Codec, s: Filter, bytes: Codes, cb: seq<nat>)
    requires AllWritten(s.log)
    ensures s.log <= Feed(u, s, bytes, cb).log && AllWritten(Feed(u, s, bytes, cb).log)
    decreases |s.queue|, 3
  {
    if bytes != [] {
      var s1 := Expire(s);
      KeptShrinks(s.queue, (e: Echo) => e.Expired(s.now));
      FlushAllWrites(Gone(s.queue, (e: Echo) => e.Expired(s.now)));
      if s1.queue != [] {
        var woken := Wake(s1.queue[0], s.now);
        ForwardWrites(u, s1, woken.(acks := woken.acks + cb), woken.bytes + bytes);
      }
    }
  }

  lemma LogWrites(s: Filter, w: Write, t: Filter)
    requires AllWritten(s.log) && w.Write? && t.log == s.log + [w]
    ensures s.log <= t.log && AllWritten(t.log)
  {
  }

  lemma ForwardWrites(u: Codec, s: Filter, head: Echo, held: Codes)
    requires s.queue != [] && AllWritten(s.log)
    ensures s.log <= Forward(u, s, head, held).log && AllWritten(Forward(u, s, head, held).log)
    decreases |s.queue|, 2
  {
    hide Leading, Normalize, HasNonEchoControl, Forward, Continue, RunningFrom, Nonces, IndexOfNonce, AllWritten;
    var scan := Leading(head.protocol, held, head.nonce.Some?, Nonces(s.queue));
    var prefix, rest := held[..scan.length], held[scan.length..];
    assert held == prefix + rest;
    if !scan.stop.Running? {
      ForwardStops(u, s, head, held, prefix, rest, scan);
      var through := if scan.stop.Reply? then IndexOfNonce(s.queue, scan.stop.nonce) else 0;
      ContinueWrites(u, s.(queue := s.queue[through + 1..]), head.acks, Plain(prefix, []), rest);
    } else {
      ForwardRuns(u, s, head, held, prefix, rest, scan);
      RunningWrites(u, s, head, held, prefix, rest, scan.protocol);
    }
  }

  lemma RunningWrites(u: Codec, s: Filter, head: Echo, held: Codes, prefix: Codes, rest: Codes, protocol: Option<Protocol>)
    requires s.queue != [] && AllWritten(s.log)
    ensures var t := RunningFrom(u, s, head, held, prefix, rest, protocol);
      s.log <= t.log && AllWritten(t.log)
    decreases |s.queue|, 2, 0
  {
    hide Match, AllWritten;
    var t := RunningFrom(u, s, head, held, prefix, rest, protocol);
    var kept := head.(protocol := protocol, forwarded := head.forwarded + |prefix|);
    if |prefix| == 0 {
      MatchWrites(u, s, kept, rest);
    } else if head.forwarded + |prefix| > MAX_ECHO_BYTES {
      LogWrites(s, Plain(held, head.acks), t);
    } else if rest == [] {
      LogWrites(s, Plain(prefix, head.acks), t);
    } else {
      LogWrites(s, Plain(prefix, []), s.Log(Plain(prefix, [])));
      MatchWrites(u, s.Log(Plain(prefix, [])), kept, rest);
    }
  }

  lemma MatchWrites(u: Codec, s: Filter, head: Echo, held: Codes)
    requires s.queue != [] && AllWritten(s.log)
    ensures s.log <= Match(u, s, head, held).log && AllWritten(Match(u, s, head, held).log)
    decreases |s.queue|, 1
  {
    hide Normalize, HasNonEchoControl;
    var end := IndexOf(held, LF);
    if end < |held| {
      var line := Normalize(u.decode(held[..end]));
      var i := if line.Some? then IndexOfLine(s.queue, line.value.text) else |s.queue|;
      if i < |s.queue| {
        ContinueWrites(u, s.(queue := s.queue[i + 1..]), head.acks,
                       Write(u.encode(Shown(s.queue[i].visible, line.value)), held[..end + 1], [],
                             Some(Swap(s.queue[i].id, held[..end + 1]))),
                       held[end + 1..]);
      }
    }
  }

  lemma ContinueWrites(u: Codec, s: Filter, acks: seq<nat>, w: Write, rest: Codes)
    requires w.Write? && AllWritten(s.log)
    ensures s.log <= Continue(u, s, acks, w, rest).log && AllWritten(Continue(u, s, acks, w, rest).log)
    decreases |s.queue|, 4
  {
    if rest != [] && s.queue != [] { FeedWrites(u, s.Log(w), rest, acks); }
  }

  /** The log is append-only, and without a discarding cancel every byte of input was
      written or is still held. */
  lemma {:induction false} NothingDropped(u: Codec, s: Filter, fed: nat, events: seq<Event>)
    requires AllWritten(s.log)
    requires Cancelled(true) !in events
    ensures s.log <= Run(u, s, fed, events).log && AllWritten(Run(u, s, fed, events).log)
    decreases |events|
  {
    if events != [] {
      var e, t := events[0], Step(u, s, fed, events[0]);
      if e.Chunk? { FeedWrites(u, s, e.bytes, Callback(e, fed)); }
      if e.Cancelled? { FlushAllWrites(s.queue); }
      if e.Expected? { ExpectWrites(s, e.line, e.visible, e.requested); }
      NothingDropped(u, t, Offset(e, fed), events[1..]);
    }
  }

  lemma ExpectWrites(s: Filter, line: Codes, visible: Option<Codes>, requested: Option<Codes>)
    requires AllWritten(s.log)
    ensures s.log <= Expect(s, line, visible, requested).log && AllWritten(Expect(s, line, visible, requested).log)
  {
    hide OwnedNonce;
    var gone := (e: Echo) => e.nonce.None?;
    FlushAllWrites(Gone(s.queue, gone));
    var t := Expect(s, line, visible, requested);
    var nonce := OwnedNonce(line, visible, requested);
    var echo := Echo(|s.armed|, line, visible, [], [], s.now + ECHO_WAIT_MS, None, 0, nonce,
                     if nonce.Some? then s.now + LATE_PROBE_ECHO_MS else 0, false);
    var q := Kept(s.queue, gone) + [echo];
    var extra := if |q| > MAX_EXPECTATIONS then |q| - MAX_EXPECTATIONS else 0;
    FlushAllWrites(q[..extra]);
    assert t.log == s.log + FlushAll(Gone(s.queue, gone)) + FlushAll(q[..extra]);
  }

  // ------------------------------------------------------------ bytes are held briefly

  /** Everything in the queue is younger than id, or is id with its deadline intact. */
  ghost predicate Younger(queue: seq<Echo>, id: nat, deadline: int) {
    forall i :: 0 <= i < |queue| ==> queue[i].id > id || (queue[i].id == id && queue[i].deadline == deadline)
  }

  ghost predicate From(queue: seq<Echo>, low: nat) { forall i :: 0 <= i < |queue| ==> queue[i].id >= low }

  ghost predicate Ordered(queue: seq<Echo>) {
    forall i, j :: 0 <= i < j < |queue| ==> queue[i].id < queue[j].id
  }

  lemma KeptOrdered(queue: seq<Echo>, gone: Echo -> bool, low: nat)
    requires Ordered(queue) && From(queue, low)
    ensures Ordered(Kept(queue, gone)) && From(Kept(queue, gone), low)
    ensures queue != [] ==>
      var kept := Kept(queue, gone);
      From(kept, queue[0].id + 1) || (kept != [] && kept[0] == queue[0])
  {
    hide Ordered, From;
    if queue == [] {
      NoneOrdered(low);
    } else {
      TailOrdered(queue, low);
      KeptOrdered(queue[1..], gone, queue[0].id + 1);
      var rest := Kept(queue[1..], gone);
      FromLower(rest, queue[0].id + 1, low);
      if gone(queue[0]) { assert Kept(queue, gone) == rest; } else { OrderedFirst(queue[0], rest, low); }
    }
  }

  lemma NoneOrdered(low: nat)
    ensures Ordered([]) && From([], low)
  {
  }

  lemma TailOrdered(queue: seq<Echo>, low: nat)
    requires queue != [] && Ordered(queue) && From(queue, low)
    ensures Ordered(queue[1..]) && From(queue[1..], queue[0].id + 1) && low <= queue[0].id
  {
  }

  lemma FromLower(queue: seq<Echo>, high: nat, low: nat)
    requires From(queue, high) && low <= high
    ensures From(queue, low)
  {
  }

  lemma OrderedFirst(e: Echo, rest: seq<Echo>, low: nat)
    requires Ordered(rest) && From(rest, e.id + 1) && low <= e.id
    ensures Ordered([e] + rest) && From([e] + rest, low)
  {
  }

  lemma FeedYounger(u: Codec, s: Filter, bytes: Codes, cb: seq<nat>, low: nat)
    requires From(s.queue, low) && Ordered(s.queue)
    ensures From(Feed(u, s, bytes, cb).queue, low)
    ensures s.queue != [] && !s.queue[0].retired ==>
      Younger(Feed(u, s, bytes, cb).queue, s.queue[0].id, s.queue[0].deadline)
    decreases |s.queue|, 3
  {
    hide Forward;
    if bytes != [] {
      var gone := (e: Echo) => e.Expired(s.now);
      var s1 := Expire(s);
      KeptShrinks(s.queue, gone);
      KeptOrdered(s.queue, gone, low);
      if s1.queue != [] {
        var woken := Wake(s1.queue[0], s.now);
        ForwardYounger(u, s1, woken.(acks := woken.acks + cb), woken.bytes + bytes);
      }
    }
  }

  lemma ForwardYounger(u: Codec, s: Filter, head: Echo, held: Codes)
    requires s.queue != [] && Ordered(s.queue) && s.queue[0].id == head.id
    ensures Younger(Forward(u, s, head, held).queue, head.id, head.deadline)
    decreases |s.queue|, 2
  {
    hide Leading, Normalize, HasNonEchoControl, Forward, Continue, RunningFrom, Nonces, IndexOfNonce, Ordered;
    var scan := Leading(head.protocol, held, head.nonce.Some?, Nonces(s.queue));
    var prefix, rest := held[..scan.length], held[scan.length..];
    assert held == prefix + rest;
    if !scan.stop.Running? {
      ForwardStops(u, s, head, held, prefix, rest, scan);
      var through := if scan.stop.Reply? then IndexOfNonce(s.queue, scan.stop.nonce) else 0;
      ContinueYounger(u, s, through, head.acks, Plain(prefix, []), rest);
    } else {
      ForwardRuns(u, s, head, held, prefix, rest, scan);
      RunningYounger(u, s, head, held, prefix, rest, scan.protocol);
    }
  }

  lemma RunningYounger(u: Codec, s: Filter, head: Echo, held: Codes, prefix: Codes, rest: Codes, protocol: Option<Protocol>)
    requires s.queue != [] && Ordered(s.queue) && s.queue[0].id == head.id
    ensures Younger(RunningFrom(u, s, head, held, prefix, rest, protocol).queue, head.id, head.deadline)
    decreases |s.queue|, 2, 0
  {
    hide Match;
    var kept := head.(protocol := protocol, forwarded := head.forwarded + |prefix|);
    if |prefix| == 0 {
      MatchYounger(u, s, kept, rest);
    } else if head.forwarded + |prefix| <= MAX_ECHO_BYTES && rest != [] {
      MatchYounger(u, s.Log(Plain(prefix, [])), kept, rest);
    }
  }

  lemma MatchYounger(u: Codec, s: Filter, head: Echo, held: Codes)
    requires s.queue != [] && Ordered(s.queue) && s.queue[0].id == head.id
    ensures Younger(Match(u, s, head, held).queue, head.id, head.deadline)
    decreases |s.queue|, 1
  {
    hide Normalize, HasNonEchoControl, Continue;
    var end := IndexOf(held, LF);
    if end < |held| {
      var line := Normalize(u.decode(held[..end]));
      var i := if line.Some? then IndexOfLine(s.queue, line.value.text) else |s.queue|;
      if i < |s.queue| {
        ContinueYounger(u, s, i, head.acks,
                        Write(u.encode(Shown(s.queue[i].visible, line.value)), held[..end + 1], [],
                              Some(Swap(s.queue[i].id, held[..end + 1]))),
                        held[end + 1..]);
      }
    }
  }

  lemma ContinueYounger(u: Codec, s: Filter, through: nat, acks: seq<nat>, w: Write, rest: Codes)
    requires w.Write? && through < |s.queue| && Ordered(s.queue)
    ensures From(Continue(u, s.(queue := s.queue[through + 1..]), acks, w, rest).queue, s.queue[0].id + 1)
    decreases |s.queue|, 0
  {
    hide Feed;
    var left := s.(queue := s.queue[through + 1..]);
    if rest != [] && left.queue != [] { FeedYounger(u, left.Log(w), rest, acks, s.queue[0].id + 1); }
  }

  predicate Holds(s: Filter, id: nat) { s.queue != [] && s.queue[0].id == id && s.queue[0].bytes != [] }

  /** The clock does not pass a due timer. */
  predicate Legal(s: Filter, e: Event) {
    e.Tick? ==> forall i | 0 <= i < |s.queue| :: e.to <= s.queue[i].deadline
  }

  /** Throughout the run the expectation holds output without a break. */
  ghost predicate HoldsThroughout(u: Codec, s: Filter, fed: nat, events: seq<Event>, id: nat)
    decreases |events|
  {
    && Holds(s, id)
    && (events != [] ==>
          && Legal(s, events[0])
          && HoldsThroughout(u, Step(u, s, fed, events[0]), Offset(events[0], fed), events[1..], id))
  }

  lemma StepDeadline(u: Codec, s: Filter, fed: nat, e: Event)
    requires Sound(u, s, fed) && s.queue != [] && s.queue[0].bytes != []
    requires var t := Step(u, s, fed, e); Holds(t, s.queue[0].id)
    ensures Step(u, s, fed, e).queue[0].deadline == s.queue[0].deadline
  {
    hide LogOk, Feed, OwnedNonce;
    if e.Chunk? { FeedYounger(u, s, e.bytes, Callback(e, fed), s.queue[0].id); }
    if e.Expected? {
      KeptOrdered(s.queue, (e: Echo) => e.nonce.None?, s.queue[0].id);
    }
  }

  /** No byte is held longer than two seconds, however many chunks, cleanups and new
      expectations arrive meanwhile. */
  lemma {:induction false} HeldBriefly(u: Codec, s: Filter, fed: nat, events: seq<Event>, id: nat)
    requires Sound(u, s, fed) && HoldsThroughout(u, s, fed, events, id) && s.now <= s.queue[0].deadline
    ensures Run(u, s, fed, events).now <= s.queue[0].deadline <= s.now + ECHO_WAIT_MS
    decreases |events|
  {
    hide LogOk, Step;
    if events != [] {
      var e, t := events[0], Step(u, s, fed, events[0]);
      StepLaw(u, s, fed, e);
      StepDeadline(u, s, fed, e);
      HeldBriefly(u, t, Offset(e, fed), events[1..], id);
    }
  }
}
