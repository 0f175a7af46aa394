/** Conservation of bytes and callbacks by the echo filter, and its bounds. */
module EchoLaws {
  import opened Basics
  import opened EchoText
  import opened EchoModel
  import EchoShape

  // ------------------------------------------------------------ what a log stands for

  /** The PTY input a log accounts for. */
  function Sources(log: seq<Write>): Codes {
    if log == [] then [] else Sources(log[..|log| - 1]) + log[|log| - 1].source
  }

  /** The callbacks of non-empty chunks that a log has passed on, in order. */
  function Acks(log: seq<Write>): seq<nat> {
    if log == [] then []
    else Acks(log[..|log| - 1]) + (if log[|log| - 1].source == [] then [] else log[|log| - 1].acks)
  }

  function Held(queue: seq<Echo>): Codes { if queue == [] then [] else queue[0].bytes }

  function HeldAcks(queue: seq<Echo>): seq<nat> { if queue == [] then [] else queue[0].acks }

  /** Everything the terminal has been told or still has to be told. */
  function Trace(s: Filter): Codes { Sources(s.log) + Held(s.queue) }

  function AckTrace(s: Filter): seq<nat> { Acks(s.log) + HeldAcks(s.queue) }

  /** No callback is passed on before the last byte it answers for: a callback is
      named by the input offset at which its chunk ended. */
  ghost predicate OnTime(log: seq<Write>) {
    forall j :: 0 <= j < |log| && log[j].source != [] ==>
      forall a :: a in log[j].acks ==> a <= |Sources(log[..j + 1])|
  }

  /** A write is its source verbatim, unless the source starts with one whole line that
      shows the line of the expectation it names: then what that expectation lets be seen
      stands in its place. */
  ghost predicate Genuine(u: Codec, armed: seq<Armed>, w: Write) {
    w.Write? ==>
      match w.swapped
      case None => w.bytes == w.source
      case Some(swap) =>
        && swap.id < |armed|
        && swap.raw != [] && swap.raw <= w.source && |swap.raw| <= MAX_ECHO_BYTES
        && swap.raw[|swap.raw| - 1] == LF && LF !in swap.raw[..|swap.raw| - 1]
        && EchoShape.Swapped(u.encode, w.bytes, u.decode(swap.raw[..|swap.raw| - 1]), armed[swap.id].line,
                             armed[swap.id].visible, w.source[|swap.raw|..])
  }

  predicate IsSwap(w: Write) { w.Write? && w.swapped.Some? }

  /** Each expectation is consumed at most once, oldest first, and never comes back. */
  ghost predicate ConsumedOnce(log: seq<Write>, bound: nat) {
    && (forall j :: 0 <= j < |log| && IsSwap(log[j]) ==> log[j].swapped.value.id < bound)
    && (forall i, j :: 0 <= i < j < |log| && IsSwap(log[i]) && IsSwap(log[j]) ==>
          log[i].swapped.value.id < log[j].swapped.value.id)
  }

  ghost predicate LogOk(u: Codec, armed: seq<Armed>, log: seq<Write>, bound: nat) {
    && (forall j :: 0 <= j < |log| ==> Genuine(u, armed, log[j]))
    && OnTime(log)
    && ConsumedOnce(log, bound)
  }

  /** Expectations with a smaller identity have left the queue for good. */
  function Oldest(s: Filter): nat { if s.queue == [] then |s.armed| else s.queue[0].id }

  // ------------------------------------------------------------ what a queue may look like

  predicate Idle(e: Echo) { e.bytes == [] && e.acks == [] && e.protocol.None? && e.forwarded == 0 }

  ghost predicate AllIdle(queue: seq<Echo>) {
    forall i :: 0 <= i < |queue| ==> Idle(queue[i])
  }

  predicate HeadOk(e: Echo) {
    && (e.bytes == [] ==> e.acks == [])
    && |e.bytes| <= MAX_ECHO_BYTES
    && e.forwarded <= MAX_ECHO_BYTES
    && (e.protocol.Some? ==> e.bytes == [])
    && (e.retired ==> e.bytes == [])
  }

  /** Identity, order, ownership and the two-second holding deadline. */
  ghost predicate Members(queue: seq<Echo>, armed: seq<Armed>, now: int) {
    && |queue| <= MAX_EXPECTATIONS
    && (forall i :: 0 <= i < |queue| ==>
         && queue[i].id < |armed| && armed[queue[i].id] == Armed(queue[i].line, queue[i].visible)
         && (queue[i].retired ==> queue[i].nonce.Some?)
         && (!queue[i].retired ==> queue[i].deadline <= now + ECHO_WAIT_MS))
    && (forall i, j :: 0 <= i < j < |queue| ==> queue[i].id < queue[j].id)
    && (forall i :: 0 <= i < |queue| - 1 ==> queue[i].nonce.Some?)
  }

  ghost predicate QueueOk(s: Filter) {
    && Members(s.queue, s.armed, s.now)
    && (s.queue != [] ==> HeadOk(s.queue[0]) && AllIdle(s.queue[1..]))
  }

  ghost predicate Good(u: Codec, s: Filter) { QueueOk(s) && LogOk(u, s.armed, s.log, Oldest(s)) }

  ghost predicate Due(acks: seq<nat>, end: nat) { forall a :: a in acks ==> a <= end }

  // ------------------------------------------------------------ logs

  lemma Logged(log: seq<Write>, w: Write)
    ensures Sources(log + [w]) == Sources(log) + w.source
    ensures Acks(log + [w]) == Acks(log) + if w.source == [] then [] else w.acks
    ensures OnTime(log) && (w.source == [] || Due(w.acks, |Sources(log)| + |w.source|)) ==> OnTime(log + [w])
  {
    assert (log + [w])[..|log|] == log;
    assert (log + [w])[..|log| + 1] == log + [w];
    if OnTime(log) && (w.source == [] || Due(w.acks, |Sources(log)| + |w.source|)) {
      forall j | 0 <= j < |log| + 1 && (log + [w])[j].source != []
        ensures forall a :: a in (log + [w])[j].acks ==> a <= |Sources((log + [w])[..j + 1])|
      {
        if j < |log| { assert (log + [w])[..j + 1] == log[..j + 1]; }
      }
    }
  }

  lemma PlainLogged(u: Codec, armed: seq<Armed>, log: seq<Write>, bound: nat, bytes: Codes, acks: seq<nat>, bound': nat)
    requires LogOk(u, armed, log, bound) && bound <= bound'
    requires bytes == [] || Due(acks, |Sources(log)| + |bytes|)
    ensures Genuine(u, armed, Plain(bytes, acks))
    ensures LogOk(u, armed, log + [Plain(bytes, acks)], bound')
    ensures Sources(log + [Plain(bytes, acks)]) == Sources(log) + bytes
    ensures Acks(log + [Plain(bytes, acks)]) == Acks(log) + if bytes == [] then [] else acks
  {
    hide LogOk, OnTime, Sources, Acks;
    LogKept(u, armed, log, bound, Plain(bytes, acks), bound');
  }

  lemma LogKept(u: Codec, armed: seq<Armed>, log: seq<Write>, bound: nat, w: Write, bound': nat)
    requires LogOk(u, armed, log, bound) && bound <= bound'
    requires Genuine(u, armed, w)
    requires w.source == [] || Due(w.acks, |Sources(log)| + |w.source|)
    requires IsSwap(w) ==> bound <= w.swapped.value.id < bound'
    ensures LogOk(u, armed, log + [w], bound')
    ensures Sources(log + [w]) == Sources(log) + w.source
    ensures Acks(log + [w]) == Acks(log) + if w.source == [] then [] else w.acks
  {
    hide Genuine, OnTime, Sources, Acks;
    Logged(log, w);
    assert forall j :: 0 <= j < |log| ==> (log + [w])[j] == log[j];
  }

  lemma BoundRaised(u: Codec, armed: seq<Armed>, log: seq<Write>, bound: nat, bound': nat)
    requires LogOk(u, armed, log, bound) && bound <= bound'
    ensures LogOk(u, armed, log, bound')
  {
    hide Genuine, OnTime;
  }

  /** Flushing a queue that holds nothing beyond its head adds at most one entry. */
  lemma FlushIdle(queue: seq<Echo>)
    requires AllIdle(queue)
    ensures FlushAll(queue) == [] && DiscardAll(queue) == []
  {
    if queue != [] { FlushIdle(queue[1..]); }
  }

  lemma KeptIdle(queue: seq<Echo>, gone: Echo -> bool)
    requires AllIdle(queue)
    ensures AllIdle(Kept(queue, gone)) && AllIdle(Gone(queue, gone))
  {
    if queue != [] { KeptIdle(queue[1..], gone); }
  }

  lemma KeptMembers(queue: seq<Echo>, gone: Echo -> bool, armed: seq<Armed>, now: int)
    requires Members(queue, armed, now)
    ensures Members(Kept(queue, gone), armed, now)
    ensures |Kept(queue, gone)| <= |queue|
    ensures forall i :: 0 <= i < |Kept(queue, gone)| ==> Kept(queue, gone)[i] in queue && !gone(Kept(queue, gone)[i])
  {
    hide Members;
    if queue != [] {
      MembersTail(queue, armed, now);
      KeptMembers(queue[1..], gone, armed, now);
      var rest := Kept(queue[1..], gone);
      if gone(queue[0]) { assert Kept(queue, gone) == rest; } else { MembersCons(queue, rest, armed, now); }
    } else {
      assert Kept(queue, gone) == queue;
    }
  }

  lemma MembersTail(queue: seq<Echo>, armed: seq<Armed>, now: int)
    requires Members(queue, armed, now) && queue != []
    ensures Members(queue[1..], armed, now)
  {
  }

  lemma MembersCons(queue: seq<Echo>, rest: seq<Echo>, armed: seq<Armed>, now: int)
    requires Members(queue, armed, now) && queue != [] && Members(rest, armed, now) && |rest| < |queue|
    requires forall i :: 0 <= i < |rest| ==> rest[i] in queue[1..]
    ensures Members([queue[0]] + rest, armed, now)
  {
    forall i | 0 <= i < |rest| ensures rest[i].id > queue[0].id { assert rest[i] in queue[1..]; }
    if rest != [] { assert |queue| > 1 && queue[0].nonce.Some?; }
  }

  lemma SuffixOk(queue: seq<Echo>, k: nat, armed: seq<Armed>, now: int)
    requires 1 <= k <= |queue| && Members(queue, armed, now) && AllIdle(queue[1..])
    ensures Members(queue[k..], armed, now) && AllIdle(queue[k..])
    ensures k < |queue| ==> queue[k].id > queue[k - 1].id >= queue[0].id
    ensures Held(queue[k..]) == [] && HeldAcks(queue[k..]) == []
    ensures k < |queue| ==> HeadOk(queue[k]) && AllIdle(queue[k..][1..])
  {
    assert queue[k..] == queue[1..][k - 1..];
    assert forall i :: 0 <= i < |queue| - k ==> queue[k..][i] == queue[1..][k - 1 + i];
    if k < |queue| {
      assert Idle(queue[1..][k - 1]);
      assert queue[k..][0] == queue[k];
    }
  }

  lemma KeptQueue(s: Filter, gone: Echo -> bool)
    requires QueueOk(s)
    ensures var t := s.(queue := Kept(s.queue, gone));
      QueueOk(t) && |t.queue| <= |s.queue| && Oldest(s) <= Oldest(t)
    ensures var q := Kept(s.queue, gone);
      (q != [] && q[0] == s.queue[0]) || (Held(q) == [] && HeldAcks(q) == [])
    ensures s.queue != [] && !gone(s.queue[0]) ==> Kept(s.queue, gone) != [] && Kept(s.queue, gone)[0] == s.queue[0]
    ensures s.queue != [] && gone(s.queue[0]) ==> Held(Kept(s.queue, gone)) == [] && HeldAcks(Kept(s.queue, gone)) == []
  {
    hide Members, AllIdle, HeadOk;
    var q := Kept(s.queue, gone);
    KeptMembers(s.queue, gone, s.armed, s.now);
    MemberIds(s.queue, s.armed, s.now);
    if s.queue != [] {
      KeptIdle(s.queue[1..], gone);
      if gone(s.queue[0]) {
        assert q == Kept(s.queue[1..], gone);
        if q != [] { IdleHead(q); }
      } else {
        assert q[1..] == Kept(s.queue[1..], gone);
      }
    }
  }

  lemma MemberIds(queue: seq<Echo>, armed: seq<Armed>, now: int)
    requires Members(queue, armed, now)
    ensures forall e :: e in queue ==> queue[0].id <= e.id < |armed|
  {
  }

  lemma IdleHead(queue: seq<Echo>)
    requires AllIdle(queue) && queue != []
    ensures HeadOk(queue[0]) && AllIdle(queue[1..]) && Held(queue) == [] && HeldAcks(queue) == []
  {
    assert Idle(queue[0]);
  }

  /** Only the head can hold anything, so a sweep flushes at most the head. */
  lemma GoneFlushed(queue: seq<Echo>, gone: Echo -> bool)
    requires queue != [] && AllIdle(queue[1..])
    ensures FlushAll(Gone(queue, gone)) == if gone(queue[0]) then Flushed(queue[0]) else []
  {
    hide AllIdle;
    KeptIdle(queue[1..], gone);
    FlushIdle(Gone(queue[1..], gone));
    assert gone(queue[0]) ==> Gone(queue, gone)[0] == queue[0] && Gone(queue, gone)[1..] == Gone(queue[1..], gone);
    assert !gone(queue[0]) ==> Gone(queue, gone) == Gone(queue[1..], gone);
  }

  lemma FlushOne(u: Codec, s: Filter, e: Echo, bound: nat)
    requires LogOk(u, s.armed, s.log, Oldest(s)) && Oldest(s) <= bound
    requires Due(e.acks, |Sources(s.log)| + |e.bytes|) && (e.bytes == [] ==> e.acks == [])
    ensures LogOk(u, s.armed, s.log + Flushed(e), bound)
    ensures Sources(s.log + Flushed(e)) == Sources(s.log) + e.bytes
    ensures Acks(s.log + Flushed(e)) == Acks(s.log) + e.acks
  {
    hide LogOk, Sources, Acks;
    BoundRaised(u, s.armed, s.log, Oldest(s), bound);
    if e.HasContent() { PlainLogged(u, s.armed, s.log, Oldest(s), e.bytes, e.acks, bound); }
    else { assert s.log + [] == s.log; }
  }

  /** Evicting keeps the trace: only the head can hold anything. */
  lemma EvictKeeps(u: Codec, s: Filter, gone: Echo -> bool)
    requires Good(u, s)
    requires Due(HeldAcks(s.queue), |Trace(s)|)
    ensures var t := Evict(s, gone);
      && Good(u, t) && Trace(t) == Trace(s) && AckTrace(t) == AckTrace(s)
      && |t.queue| <= |s.queue| && Oldest(s) <= Oldest(t)
      && (t.queue != [] ==> Held(t.queue) == [] || t.queue[0] == s.queue[0])
      && (forall i :: 0 <= i < |t.queue| ==> t.queue[i] in s.queue && !gone(t.queue[i]))
  {
    hide LogOk, Sources, Acks, Members, AllIdle, Kept, Gone, FlushAll, Flushed;
    var t := Evict(s, gone);
    KeptQueue(s, gone);
    KeptMembers(s.queue, gone, s.armed, s.now);
    BoundRaised(u, s.armed, s.log, Oldest(s), Oldest(t));
    if s.queue == [] {
      NothingGone(gone);
      assert s.log + [] == s.log;
    } else {
      GoneFlushed(s.queue, gone);
      if gone(s.queue[0]) { FlushOne(u, s, s.queue[0], Oldest(t)); }
      else { assert s.log + [] == s.log; }
    }
  }

  lemma NothingGone(gone: Echo -> bool)
    ensures FlushAll(Gone([], gone)) == []
  {
  }

  // ------------------------------------------------------------ feeding output

  /** What one step of feeding preserves: the queue and log stay good, the trace
      grows by exactly the bytes fed, and the callbacks by exactly the chunk's. */
  ghost predicate Fed(u: Codec, t: Filter, armed: seq<Armed>, now: int, low: nat, trace: Codes, acks: seq<nat>) {
    && Good(u, t) && t.armed == armed && t.now == now && low <= Oldest(t)
    && Trace(t) == trace && AckTrace(t) == acks && Due(HeldAcks(t.queue), |trace|)
  }

  lemma FeedLaw(u: Codec, s: Filter, bytes: Codes, cb: seq<nat>)
    requires Good(u, s) && Due(HeldAcks(s.queue), |Trace(s)|)
    requires bytes != [] ==> Due(cb, |Trace(s)| + |bytes|)
    ensures Fed(u, Feed(u, s, bytes, cb), s.armed, s.now, Oldest(s), Trace(s) + bytes,
                AckTrace(s) + if bytes == [] then [] else cb)
    decreases |s.queue|, 3
  {
    hide LogOk, Sources, Acks, Forward, Members, AllIdle, Kept, Gone, FlushAll;
    var gone := (e: Echo) => e.Expired(s.now);
    var s1 := Expire(s);
    if bytes == [] {
      PlainLogged(u, s.armed, s.log, Oldest(s), [], cb, Oldest(s));
      assert s.Log(Plain([], cb)).log == s.log + [Plain([], cb)];
    } else {
      EvictKeeps(u, s, gone);
      if s1.queue == [] {
        PlainLogged(u, s1.armed, s1.log, Oldest(s1), bytes, cb, Oldest(s1));
      } else {
        var woken := Wake(s1.queue[0], s.now);
        var head := woken.(acks := woken.acks + cb);
        var held := head.bytes + bytes;
        KeptShrinks(s.queue, gone);
        WakeHolds(s1, cb, held);
        assert AckTrace(s) + cb == Acks(s1.log) + head.acks;
        assert Trace(s) + bytes == Sources(s1.log) + held;
        ForwardLaw(u, s1, head, held);
      }
    }
  }

  /** The head with a chunk appended, before anything is decided about it. */
  ghost predicate Holding(s: Filter, head: Echo, held: Codes) {
    && s.queue != []
    && Members(s.queue, s.armed, s.now) && AllIdle(s.queue[1..])
    && Members([head] + s.queue[1..], s.armed, s.now)
    && head.id == s.queue[0].id && head.line == s.queue[0].line && head.visible == s.queue[0].visible
    && head.nonce == s.queue[0].nonce && !head.retired && head.deadline <= s.now + ECHO_WAIT_MS
    && head.forwarded <= MAX_ECHO_BYTES
    && held != [] && Due(head.acks, |Sources(s.log)| + |held|)
  }

  lemma WakeHolds(s: Filter, cb: seq<nat>, held: Codes)
    requires s.queue != [] && QueueOk(s) && held != []
    requires Due(s.queue[0].acks, |Sources(s.log)| + |held|) && Due(cb, |Sources(s.log)| + |held|)
    ensures var woken := Wake(s.queue[0], s.now);
      Holding(s, woken.(acks := woken.acks + cb), held)
  {
    hide Sources;
    var woken := Wake(s.queue[0], s.now);
    HeadReplaced(s.queue, woken.(acks := woken.acks + cb), s.armed, s.now);
  }

  lemma HeadReplaced(queue: seq<Echo>, head: Echo, armed: seq<Armed>, now: int)
    requires queue != [] && Members(queue, armed, now)
    requires head.id == queue[0].id && head.line == queue[0].line && head.visible == queue[0].visible
    requires head.nonce == queue[0].nonce
    requires head.retired ==> head.nonce.Some?
    requires !head.retired ==> head.deadline <= now + ECHO_WAIT_MS
    ensures Members([head] + queue[1..], armed, now)
  {
    var changed := [head] + queue[1..];
    assert forall i :: 1 <= i < |queue| ==> changed[i] == queue[i];
  }

  lemma ForwardLaw(u: Codec, s: Filter, head: Echo, held: Codes)
    requires Holding(s, head, held) && LogOk(u, s.armed, s.log, Oldest(s))
    ensures Fed(u, Forward(u, s, head, held), s.armed, s.now, Oldest(s), Sources(s.log) + held, Acks(s.log) + head.acks)
    decreases |s.queue|, 2
  {
    hide Leading, LogOk, Sources, Acks, Match, Continue, Members, AllIdle, Nonces, IndexOfNonce, Surrender;
    var scan := Leading(head.protocol, held, head.nonce.Some?, Nonces(s.queue));
    var prefix, rest := held[..scan.length], held[scan.length..];
    assert held == prefix + rest;
    if !scan.stop.Running? {
      var through := if scan.stop.Reply? then IndexOfNonce(s.queue, scan.stop.nonce) else 0;
      PassLaw(u, s, through, head, prefix, rest, held);
    } else if scan.length > 0 && head.forwarded + scan.length > MAX_ECHO_BYTES {
      SurrenderLaw(u, s, head, held);
    } else {
      var kept := head.(protocol := scan.protocol, forwarded := head.forwarded + scan.length);
      HeadReplaced(s.queue, kept, s.armed, s.now);
      if scan.length > 0 && rest == [] {
        assert prefix == held;
        CalmLaw(u, s, head, kept.(bytes := [], acks := []), held);
      } else if scan.length > 0 {
        PlainLogged(u, s.armed, s.log, Oldest(s), prefix, [], Oldest(s));
        MatchLaw(u, s.Log(Plain(prefix, [])), kept, rest);
      } else {
        MatchLaw(u, s, kept, rest);
      }
    }
  }

  lemma PassLaw(u: Codec, s: Filter, through: nat, head: Echo, prefix: Codes, rest: Codes, held: Codes)
    requires Holding(s, head, held) && LogOk(u, s.armed, s.log, Oldest(s))
    requires through < |s.queue| && held == prefix + rest && prefix != []
    ensures Fed(u, Continue(u, s.(queue := s.queue[through + 1..]), head.acks, Plain(prefix, []), rest), s.armed, s.now,
                Oldest(s), Sources(s.log) + held, Acks(s.log) + head.acks)
    decreases |s.queue|, 1
  {
    hide LogOk, Sources, Acks, Continue, Members, AllIdle;
    PlainLogged(u, s.armed, s.log, Oldest(s), prefix, [], Oldest(s));
    ContinueLaw(u, s, through, head.acks, Plain(prefix, []), rest);
    assert Sources(s.log) + prefix + rest == Sources(s.log) + held;
  }

  lemma CalmLaw(u: Codec, s: Filter, head: Echo, calm: Echo, held: Codes)
    requires Holding(s, head, held) && LogOk(u, s.armed, s.log, Oldest(s))
    requires calm == head.(bytes := [], acks := [], protocol := calm.protocol, forwarded := calm.forwarded)
    requires calm.forwarded <= MAX_ECHO_BYTES
    ensures Fed(u, s.(queue := [calm] + s.queue[1..]).Log(Plain(held, head.acks)), s.armed, s.now, Oldest(s),
                Sources(s.log) + held, Acks(s.log) + head.acks)
  {
    hide LogOk, Sources, Acks, Members, AllIdle;
    PlainLogged(u, s.armed, s.log, Oldest(s), held, head.acks, Oldest(s));
    HeadReplaced(s.queue, calm, s.armed, s.now);
    assert ([calm] + s.queue[1..])[1..] == s.queue[1..];
  }

  lemma SurrenderLaw(u: Codec, s: Filter, head: Echo, held: Codes)
    requires Holding(s, head, held) && LogOk(u, s.armed, s.log, Oldest(s))
    ensures Fed(u, Surrender(s, head, held), s.armed, s.now, Oldest(s), Sources(s.log) + held, Acks(s.log) + head.acks)
  {
    hide LogOk, Sources, Acks;
    PlainLogged(u, s.armed, s.log, Oldest(s), held, head.acks, |s.armed|);
  }

  lemma MatchLaw(u: Codec, s: Filter, head: Echo, held: Codes)
    requires Holding(s, head, held) && LogOk(u, s.armed, s.log, Oldest(s)) && head.protocol.None?
    ensures Fed(u, Match(u, s, head, held), s.armed, s.now, Oldest(s), Sources(s.log) + held, Acks(s.log) + head.acks)
    decreases |s.queue|, 1
  {
    hide LogOk, Sources, Acks, Normalize, HasNonEchoControl, Continue, OnTime, ConsumedOnce, Genuine, Shown, Surrender, IndexOf, IndexOfLine;
    var end := IndexOf(held, LF);
    var size := if end == |held| then |held| else end + 1;
    var line := if end == |held| then None else Normalize(u.decode(held[..end]));
    var i := if line.Some? then IndexOfLine(s.queue, line.value.text) else |s.queue|;
    if HasNonEchoControl(held[..end]) || size > MAX_ECHO_BYTES || (end < |held| && i == |s.queue|) {
      SurrenderLaw(u, s, head, held);
    } else if end < |held| {
      var raw := held[..end + 1];
      var w := Write(u.encode(Shown(s.queue[i].visible, line.value)), raw, [], Some(Swap(s.queue[i].id, raw)));
      assert held == raw + held[end + 1..];
      assert raw[..end] == held[..end];
      SwapGenuine(u, s.armed, s.queue[i], raw, line.value);
      ContinueLaw(u, s, i, head.acks, w, held[end + 1..]);
    } else {
      StillHeld(u, s, head, held);
    }
  }

  /** An unfinished line within the limit is kept. */
  lemma StillHeld(u: Codec, s: Filter, head: Echo, held: Codes)
    requires Holding(s, head, held) && LogOk(u, s.armed, s.log, Oldest(s)) && head.protocol.None?
    requires |held| <= MAX_ECHO_BYTES
    ensures Fed(u, s.(queue := [head.(bytes := held)] + s.queue[1..]), s.armed, s.now, Oldest(s),
                Sources(s.log) + held, Acks(s.log) + head.acks)
  {
    hide LogOk, Sources, Acks;
    HeadReplaced(s.queue, head.(bytes := held), s.armed, s.now);
    assert ([head.(bytes := held)] + s.queue[1..])[1..] == s.queue[1..];
  }

  lemma SwapGenuine(u: Codec, armed: seq<Armed>, e: Echo, raw: Codes, line: Normalized)
    requires e.id < |armed| && armed[e.id] == Armed(e.line, e.visible)
    requires raw != [] && |raw| <= MAX_ECHO_BYTES && raw[|raw| - 1] == LF && LF !in raw[..|raw| - 1]
    requires Normalize(u.decode(raw[..|raw| - 1])) == Some(line) && line.text == e.line
    ensures Genuine(u, armed, Write(u.encode(Shown(e.visible, line)), raw, [], Some(Swap(e.id, raw))))
  {
    hide Normalize, Shown, EchoShape.Reads, EchoShape.Replaces;
    var text := u.decode(raw[..|raw| - 1]);
    var bits := ShownReplaces(text, line, e.visible);
    var shown := Shown(e.visible, line);
    assert raw[|raw|..] == [] && u.encode(shown) + [] == u.encode(shown);
    assert EchoShape.Reads(text, bits, e.line) && EchoShape.Replaces(shown, e.visible, bits);
    assert EchoShape.Swapped(u.encode, u.encode(shown), text, e.line, e.visible, []);
  }

  /** What the filter writes for a line is what the parts of the line call for. */
  lemma ShownReplaces(text: Codes, line: Normalized, visible: Option<Codes>) returns (bits: seq<EchoShape.Bit>)
    requires Normalize(text) == Some(line)
    ensures EchoShape.Reads(text, bits, line.text) && EchoShape.Replaces(Shown(visible, line), visible, bits)
  {
    hide Normalize, EchoShape.Divides, EchoShape.Shows, EchoShape.TextOf, EchoShape.ModesOf, EchoShape.ErasesToEnd, EchoShape.Printable;
    bits := EchoShape.NormalizeExactly(text);
    EraseCodes();
    var out := Shown(visible, line);
    if visible.Some? && !line.clearToEnd {
      assert [] + visible.value + [CR, LF] == visible.value + [CR, LF];
    }
  }

  lemma EraseCodes()
    ensures Ascii("[2K") == [91, 50, 75] && Ascii("[K") == [91, 75]
    ensures [CR, ESC] + Ascii("[2K") == [13, 27, 91, 50, 75] && [ESC] + Ascii("[K") == [27, 91, 75]
  {
  }

  lemma GenuineExtended(u: Codec, armed: seq<Armed>, w: Write, rest: Codes, acks: seq<nat>)
    requires Genuine(u, armed, w) && w.Write?
    ensures Genuine(u, armed, w.(bytes := w.bytes + rest, source := w.source + rest, acks := acks))
  {
    hide EchoShape.Swapped;
    if w.swapped.Some? {
      var swap := w.swapped.value;
      var n := |swap.raw|;
      assert (w.source + rest)[n..] == w.source[n..] + rest;
      SwappedMore(u.encode, w.bytes, u.decode(swap.raw[..n - 1]), armed[swap.id].line, armed[swap.id].visible, w.source[n..], rest);
    }
  }

  lemma SwappedMore(encode: Codes -> Codes, out: Codes, text: Codes, line: Codes, visible: Option<Codes>, rest: Codes, more: Codes)
    requires EchoShape.Swapped(encode, out, text, line, visible, rest)
    ensures EchoShape.Swapped(encode, out + more, text, line, visible, rest + more)
  {
    hide EchoShape.Reads, EchoShape.Replaces;
    var bits, shown :| EchoShape.Reads(text, bits, line) && EchoShape.Replaces(shown, visible, bits) && out == encode(shown) + rest;
    assert out + more == encode(shown) + (rest + more);
  }

  lemma ContinueLaw(u: Codec, s: Filter, through: nat, acks: seq<nat>, w: Write, rest: Codes)
    requires through < |s.queue| && Members(s.queue, s.armed, s.now) && AllIdle(s.queue[1..])
    requires LogOk(u, s.armed, s.log, Oldest(s)) && Genuine(u, s.armed, w)
    requires w.Write? && w.source != [] && w.acks == []
    requires IsSwap(w) ==> w.swapped.value.id == s.queue[through].id
    requires Due(acks, |Sources(s.log)| + |w.source| + |rest|)
    ensures Fed(u, Continue(u, s.(queue := s.queue[through + 1..]), acks, w, rest), s.armed, s.now, Oldest(s.(queue := s.queue[through + 1..])),
                Sources(s.log) + w.source + rest, Acks(s.log) + acks)
    ensures Oldest(s) < Oldest(s.(queue := s.queue[through + 1..]))
    decreases |s.queue|, 0
  {
    hide Genuine, LogOk, Sources, Acks, Feed, Members, AllIdle, HeadOk;
    var left := s.(queue := s.queue[through + 1..]);
    SuffixOk(s.queue, through + 1, s.armed, s.now);
    MemberIds(s.queue, s.armed, s.now);
    if rest == [] || left.queue == [] {
      var whole := w.(bytes := w.bytes + rest, source := w.source + rest, acks := acks);
      GenuineExtended(u, s.armed, w, rest, acks);
      LogKept(u, s.armed, s.log, Oldest(s), whole, Oldest(left));
    } else {
      LogKept(u, s.armed, s.log, Oldest(s), w, Oldest(left));
      FeedLaw(u, left.Log(w), rest, acks);
    }
  }
}
