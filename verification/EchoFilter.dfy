/** src/lib/ptyEcho.ts in its own form: per-terminal expectation objects updated in
    place, byte-scanning loops and the mutual recursion of writing and continuing.
    Every method is proved to do what EchoModel says. */
module EchoFilter {
  import opened Basics
  import opened EchoText
  import opened EchoModel
  import opened EchoChunks

  class PendingEcho {
    /** The object's identity, as a number: its place among all ever armed. */
    const id: nat
    const line: Codes
    const visible: Option<Codes>
    const nonce: Option<Codes>
    const expiresAt: int
    var bytes: Codes
    var acks: seq<nat>
    var deadline: int
    var protocol: Option<Protocol>
    var forwarded: nat
    var retired: bool

    ghost function Value(): Echo
      reads this
    {
      Echo(id, line, visible, bytes, acks, deadline, protocol, forwarded, nonce, expiresAt, retired)
    }

    constructor (id: nat, line: Codes, visible: Option<Codes>, nonce: Option<Codes>, expiresAt: int, deadline: int)
      ensures Value() == Echo(id, line, visible, [], [], deadline, None, 0, nonce, expiresAt, false)
    {
      this.id, this.line, this.visible, this.nonce, this.expiresAt := id, line, visible, nonce, expiresAt;
      bytes, acks, this.deadline, protocol, forwarded, retired := [], [], deadline, None, 0, false;
    }
  }

  ghost function Values(queue: seq<PendingEcho>): (values: seq<Echo>)
    reads queue
    ensures |values| == |queue|
    ensures forall i :: 0 <= i < |queue| ==> values[i] == queue[i].Value()
  {
    if queue == [] then [] else [queue[0].Value()] + Values(queue[1..])
  }

  // ------------------------------------------------------------ scanning loops

  /** hasNonEchoControl */
  method ScanNonEchoControl(bytes: Codes) returns (found: bool)
    ensures found == HasNonEchoControl(bytes)
  {
    var i := 0;
    while i < |bytes|
      invariant 0 <= i <= |bytes|
      invariant HasNonEchoControl(bytes) == HasNonEchoControl(bytes[i..])
    {
      var rest := bytes[i..];
      if bytes[i] == ESC {
        var start := i;
        i := i + 1;
        if i == |bytes| { return false; }
        if bytes[i] != 91 { return true; }
        i := i + 1;
        while i < |bytes| && Parameter(bytes[i])
          invariant start + 2 <= i <= |bytes|
          invariant CsiEnd(rest, i - start) == CsiEnd(rest, 2)
        {
          i := i + 1;
        }
        assert CsiEnd(rest, 2) == i - start;
        if i == |bytes| { return false; }
        assert rest[..i - start + 1] == bytes[start..i + 1] && rest[i - start + 1..] == bytes[i + 1..];
        if EchoCsiKind(bytes[start..i + 1]).Foreign? { return true; }
        i := i + 1;
      } else {
        if (bytes[i] < 32 && bytes[i] != BACKSPACE && bytes[i] != CR) || bytes[i] == 127 { return true; }
        assert rest[1..] == bytes[i + 1..];
        i := i + 1;
      }
    }
    return false;
  }

  function Prefixed(text: Codes, modes: Codes, clearToEnd: bool, rest: Stripped): Stripped {
    Stripped(text + rest.text, modes + rest.modes, clearToEnd || rest.clearToEnd)
  }

  lemma StripUnfolds(raw: Codes, budget: nat)
    requires raw != []
    ensures var n := SequenceLength(raw);
      Strip(raw, budget) ==
        if n == 0 then Prefixed([raw[0]], [], false, Strip(raw[1..], budget))
        else
          var fits := Advance(raw[..n]) <= budget;
          Prefixed(if fits then Repeat(SPACE, Advance(raw[..n])) else [ESC],
                   if EchoCsiKind(raw[..n]).Mode? then raw[..n] else [],
                   raw[n - 1] == 75,
                   Strip(raw[n..], if fits then budget - Advance(raw[..n]) else budget))
  {
    hide EchoCsiKind, SequenceLength, Advance;
    assert [] + Strip(raw[1..], budget).modes == Strip(raw[1..], budget).modes;
  }

  lemma PrefixedTwice(text: Codes, modes: Codes, clear: bool, text': Codes, modes': Codes, clear': bool, rest: Stripped)
    ensures Prefixed(text, modes, clear, Prefixed(text', modes', clear', rest))
         == Prefixed(text + text', modes + modes', clear || clear', rest)
  {
  }

  /** The replacement pass of normalizeEcho, which spends a shared padding budget. */
  method StripSequences(raw: Codes, budget: nat) returns (text: Codes, modes: Codes, clearToEnd: bool)
    ensures Strip(raw, budget) == Stripped(text, modes, clearToEnd)
  {
    hide Strip, EchoCsiKind, SequenceLength, Advance, Prefixed, Repeat;
    text, modes, clearToEnd := [], [], false;
    var padding := budget;
    var i := 0;
    Bare(Strip(raw, budget));
    assert raw[0..] == raw;
    while i < |raw|
      invariant 0 <= i <= |raw|
      invariant Strip(raw, budget) == Prefixed(text, modes, clearToEnd, Strip(raw[i..], padding))
      decreases |raw| - i
    {
      ghost var rest := raw[i..];
      ghost var t, m, c, left := text, modes, clearToEnd, padding;
      StripUnfolds(rest, padding);
      var n := SequenceLength(raw[i..]);
      if n == 0 {
        text := text + [raw[i]];
        assert rest[1..] == raw[i + 1..] && m + [] == m;
        PrefixedTwice(t, m, c, [raw[i]], [], false, Strip(rest[1..], padding));
        i := i + 1;
      } else {
        var sequence := raw[i..i + n];
        assert sequence == rest[..n] && rest[n..] == raw[i + n..] && m + [] == m;
        if EchoCsiKind(sequence).Mode? { modes := modes + sequence; }
        if sequence[n - 1] == 75 { clearToEnd := true; }
        var count := Advance(sequence);
        if count > padding {
          text := text + [ESC];
        } else {
          padding := padding - count;
          text := text + Repeat(SPACE, count);
        }
        PrefixedTwice(t, m, c, if count <= left then Repeat(SPACE, count) else [ESC],
                      if EchoCsiKind(sequence).Mode? then sequence else [], sequence[n - 1] == 75, Strip(rest[n..], padding));
        i := i + n;
      }
    }
    assert raw[i..] == [];
    Finished(text, modes, clearToEnd, padding);
  }

  lemma Bare(rest: Stripped)
    ensures Prefixed([], [], false, rest) == rest
  {
    assert [] + rest.text == rest.text && [] + rest.modes == rest.modes;
  }

  lemma Finished(text: Codes, modes: Codes, clearToEnd: bool, budget: nat)
    ensures Prefixed(text, modes, clearToEnd, Strip([], budget)) == Stripped(text, modes, clearToEnd)
  {
    assert text + [] == text && modes + [] == modes;
  }

  /** normalizeEcho: the sequence replacement, then the backspaces, then the redraws. */
  method NormalizeEcho(raw: Codes) returns (r: Option<Normalized>)
    ensures r == Normalize(raw)
  {
    hide Strip, Unwrapped, Rejoined, WithoutTrailing, Units;
    var budget := if Units(raw) <= MAX_ECHO_BYTES then MAX_ECHO_BYTES - Units(raw) else 0;
    var text, modes, clearToEnd := StripSequences(raw, budget);
    if HasUnprintable(text) { return None; }
    var characters: Codes := [];
    var j := 0;
    while j < |text|
      invariant 0 <= j <= |text|
      invariant Backspaced([], text) == Backspaced(characters, text[j..])
    {
      assert text[j..][1..] == text[j + 1..];
      if text[j] == BACKSPACE {
        characters := if characters == [] then [] else characters[..|characters| - 1];
      } else {
        characters := characters + [text[j]];
      }
      j := j + 1;
    }
    return Some(Normalized(WithoutTrailing(Rejoined(Unwrapped(characters)), CR), modes, clearToEnd));
  }

  /** The CSI sequence at index i, when it is complete and may be passed on. */
  method LeadingCsi(bytes: Codes, i: nat) returns (n: nat)
    requires i + 1 < |bytes| && bytes[i] == ESC && bytes[i + 1] == 91
    ensures n == LeadLength(bytes[i..]) && i + n <= |bytes|
  {
    hide IsQuery, EchoCsiKind;
    ghost var rest := bytes[i..];
    var end := i + 2;
    while end < |bytes| && Parameter(bytes[end])
      invariant i + 2 <= end <= |bytes|
      invariant CsiEnd(rest, end - i) == CsiEnd(rest, 2)
    {
      end := end + 1;
    }
    assert CsiEnd(rest, 2) == end - i;
    if end == |bytes| { return 0; }
    var sequence := bytes[i..end + 1];
    assert sequence == rest[..end - i + 1];
    if !IsQuery(sequence) && EchoCsiKind(sequence).Foreign? { return 0; }
    return end + 1 - i;
  }

  /** leadingProtocol: how far the bytes are protocol strings, which keep only their state. */
  method LeadingProtocol(echo: PendingEcho, bytes: Codes, nonces: set<Codes>) returns (length: nat, stop: Stop)
    modifies echo`protocol
    ensures length <= |bytes|
    ensures Scan(length, echo.protocol, stop) == Leading(old(echo.protocol), bytes, echo.nonce.Some?, nonces)
  {
    hide Leading, CsiEnd, IsQuery, EchoCsiKind, Extended, EndsString, StopAt;
    var i := 0;
    ghost var owned := echo.nonce.Some?;
    ghost var whole := Leading(echo.protocol, bytes, owned, nonces);
    assert bytes[0..] == bytes;
    while i < |bytes|
      invariant 0 <= i <= |bytes|
      invariant whole == Shifted(i, Leading(echo.protocol, bytes[i..], owned, nonces))
      decreases |bytes| - i
    {
      ghost var rest := bytes[i..];
      ghost var move := LeadMove(echo.protocol, rest, owned, nonces);
      Unfolded(echo.protocol, rest, owned, nonces, move);
      assert rest[move.length..] == bytes[i + move.length..];
      if echo.protocol.Some? {
        var protocol, byte := echo.protocol.value, bytes[i];
        i := i + 1;
        var prefix := Extended(protocol, byte);
        if EndsString(protocol, byte) {
          stop := StopAt(protocol.kind, prefix, echo.nonce.Some?, nonces);
          echo.protocol := None;
          if !stop.Running? { return i, stop; }
        } else {
          echo.protocol := Some(Protocol(protocol.kind, byte == ESC, prefix));
        }
        continue;
      }
      if bytes[i] != ESC || i + 1 == |bytes| { return i, Running; }
      var next := bytes[i + 1];
      if next == 93 || next == 80 {
        echo.protocol := Some(Protocol(if next == 93 then Osc else Dcs, false, []));
        i := i + 2;
        continue;
      }
      if next != 91 { return i, Running; }
      var n := LeadingCsi(bytes, i);
      if n == 0 { return i, Running; }
      i := i + n;
    }
    Nothing(echo.protocol, owned, nonces);
    assert bytes[i..] == [];
    return i, Running;
  }

  // ------------------------------------------------------------ the outcomes of Match

  /** What the head held before does not matter to the line it holds now. */
  lemma MatchIgnoresHeld(u: Codec, s: Filter, h1: Echo, h2: Echo, held: Codes)
    requires s.queue != [] && h1.(bytes := []) == h2.(bytes := [])
    ensures Match(u, s, h1, held) == Match(u, s, h2, held)
  {
    hide HasNonEchoControl, Normalize, Continue, IndexOf, IndexOfLine, Shown;
  }

  /** What rules the held line out before it is decoded. */
  predicate RuledOut(held: Codes) {
    var end := IndexOf(held, LF);
    HasNonEchoControl(held[..end]) || (if end == |held| then |held| else end + 1) > MAX_ECHO_BYTES
  }

  lemma MatchSurrenders(u: Codec, s: Filter, head: Echo, held: Codes)
    requires s.queue != [] && RuledOut(held)
    ensures Match(u, s, head, held) == Surrender(s, head, held)
  {
    hide HasNonEchoControl, Normalize, Continue, IndexOf, IndexOfLine, Shown, Surrender;
  }

  lemma MatchWaits(u: Codec, s: Filter, head: Echo, held: Codes)
    requires s.queue != [] && !RuledOut(held) && IndexOf(held, LF) == |held|
    ensures Match(u, s, head, held) == s.(queue := [head.(bytes := held)] + s.queue[1..])
  {
    hide HasNonEchoControl, Normalize, Continue, IndexOf, IndexOfLine, Shown, Surrender;
  }

  lemma MatchMisses(u: Codec, s: Filter, head: Echo, held: Codes, end: nat, line: Option<Normalized>)
    requires s.queue != [] && !RuledOut(held) && end == IndexOf(held, LF) < |held|
    requires line == Normalize(u.decode(held[..end]))
    requires line.None? || IndexOfLine(s.queue, line.value.text) == |s.queue|
    ensures Match(u, s, head, held) == Surrender(s, head, held)
  {
    hide HasNonEchoControl, Normalize, Continue, IndexOf, IndexOfLine, Shown, Surrender;
  }

  lemma MatchSwaps(u: Codec, s: Filter, head: Echo, held: Codes, end: nat, i: nat, line: Normalized)
    requires s.queue != [] && !RuledOut(held) && end == IndexOf(held, LF) < |held|
    requires Some(line) == Normalize(u.decode(held[..end])) && i == IndexOfLine(s.queue, line.text) < |s.queue|
    ensures Match(u, s, head, held) ==
      Continue(u, s.(queue := s.queue[i + 1..]), head.acks,
               Write(u.encode(Shown(s.queue[i].visible, line)), held[..end + 1], [], Some(Swap(s.queue[i].id, held[..end + 1]))),
               held[end + 1..])
  {
    hide HasNonEchoControl, Normalize, Continue, IndexOf, IndexOfLine, Shown, Surrender;
  }

  // ------------------------------------------------------------ one terminal

  class EchoFilter {
    const u: Codec
    /** The entry of `pending` for this terminal. */
    var queue: seq<PendingEcho>
    /** What has been written to the terminal. */
    var written: seq<Write>
    /** performance.now() */
    var now: int
    /** Every expectation ever armed, which the log's evidence refers to. */
    var armed: seq<Armed>

    ghost function View(): Filter
      reads this, queue
    {
      Filter(Values(queue), written, armed, now)
    }

    /** Expectations are distinct objects, queued in the order they were armed. */
    ghost predicate Valid()
      reads this
    {
      && (forall i :: 0 <= i < |queue| ==> queue[i].id < |armed|)
      && (forall i, j :: 0 <= i < j < |queue| ==> queue[i].id < queue[j].id)
    }

    constructor (u: Codec)
      ensures Valid() && this.u == u && View() == Filter([], [], [], 0)
    {
      this.u := u;
      queue, written, now, armed := [], [], 0, [];
    }

    /** term.write with the callbacks that fire when the bytes have been parsed */
    method TermWrite(w: Write)
      requires Valid()
      modifies this`written
      ensures Valid() && View() == old(View()).Log(w) && queue == old(queue)
    {
      written := written + [w];
    }

    method IndexOfEcho(echo: PendingEcho) returns (i: nat)
      ensures i <= |queue|
      ensures i < |queue| ==> queue[i] == echo
      ensures i == |queue| ==> echo !in queue
    {
      i := 0;
      while i < |queue|
        invariant 0 <= i <= |queue| && echo !in queue[..i]
      {
        if queue[i] == echo { return; }
        i := i + 1;
      }
      assert queue[..i] == queue;
    }

    /** writeEcho of everything an expectation that left the queue still holds */
    method Flush(echo: PendingEcho)
      requires Valid()
      modifies this`written
      ensures Valid() && queue == old(queue)
      ensures View() == old(View()).(log := old(written) + Flushed(echo.Value()))
    {
      if echo.bytes != [] || echo.acks != [] { TermWrite(Plain(echo.bytes, echo.acks)); }
      else { assert written + [] == written; }
    }

    /** retireEcho: a cleanup callback or a timer */
    method RetireEcho(echo: PendingEcho)
      requires Valid() && forall e :: e in queue && e.id == echo.id ==> e == echo
      modifies this`queue, this`written, echo`retired, echo`deadline
      ensures Valid() && View() == Retire(old(View()), echo.id)
      ensures forall i :: 0 <= i < |old(queue)| && old(queue)[i] == echo ==>
        queue == old(queue) || queue == old(queue)[..i] + old(queue)[i + 1..]
    {
      hide IndexOfId, Values;
      var i := IndexOfEcho(echo);
      FoundById(queue, echo, i);
      if i == |queue| { return; }
      if echo.nonce.Some? && now < echo.expiresAt && echo.bytes == [] && echo.acks == [] {
        MarkRetired(echo, i);
      } else {
        RemoveAt(i);
        Flush(echo);
      }
    }

    method MarkRetired(echo: PendingEcho, ghost i: nat)
      requires Valid() && i < |queue| && queue[i] == echo
      modifies echo`retired, echo`deadline
      ensures Valid()
      ensures View() == old(View()).(queue := old(View()).queue[i :=
        old(echo.Value()).(retired := true, deadline := echo.expiresAt)])
    {
      ghost var before := Values(queue);
      echo.retired, echo.deadline := true, echo.expiresAt;
      assert Values(queue) == before[i := echo.Value()];
    }

    lemma FoundById(queue: seq<PendingEcho>, echo: PendingEcho, i: nat)
      requires forall e :: e in queue && e.id == echo.id ==> e == echo
      requires i <= |queue| && (i < |queue| ==> queue[i] == echo) && (i == |queue| ==> echo !in queue)
      requires forall j, k :: 0 <= j < k < |queue| ==> queue[j].id < queue[k].id
      ensures IndexOfId(Values(queue), echo.id) == i
    {
      hide IndexOfId;
      var k := IndexOfId(Values(queue), echo.id);
      assert k < |queue| ==> queue[k] in queue;
    }

    method RemoveAt(i: nat)
      requires Valid() && i < |queue|
      modifies this`queue
      ensures Valid() && queue == old(queue[..i] + queue[i + 1..])
      ensures View() == old(View()).(queue := Without(old(View()).queue, i))
    {
      queue := queue[..i] + queue[i + 1..];
    }

    /** removeEcho, and writeEcho of what it still holds */
    method Leave(echo: PendingEcho, ghost k: nat)
      requires Valid() && k < |queue| && queue[k] == echo
      modifies this`queue, this`written
      ensures Valid() && queue == old(queue)[..k] + old(queue)[k + 1..]
      ensures View() == old(View()).(queue := Without(old(View()).queue, k), log := old(written) + Flushed(old(echo.Value())))
    {
      var i := IndexOfEcho(echo);
      assert i == k;
      RemoveAt(i);
      Flush(echo);
    }

    /** Drop the first n expectations from the queue. */
    method DropFirst(n: nat)
      requires Valid() && n <= |queue|
      modifies this`queue
      ensures Valid() && queue == old(queue)[n..]
      ensures View() == old(View()).(queue := old(View()).queue[n..])
    {
      queue := queue[n..];
    }

    /** The two sweeps over a snapshot of the queue: a new expectation supersedes
        ordinary ones, a chunk retires what has expired. */
    method Sweep(ordinary: bool, ghost gone: Echo -> bool)
      requires Valid()
      requires forall e: Echo :: gone(e) == if ordinary then e.nonce.None? else e.Expired(now)
      modifies this`queue, this`written
      ensures Valid() && View() == Evict(old(View()), gone)
      ensures forall e :: e in queue ==> e in old(queue)
    {
      hide Evict, Values, Sweeping, Valid, StillQueued;
      var snapshot, i := queue, 0;
      ghost var s := View();
      SweepStarts(s, gone);
      AllQueued(queue);
      while i < |snapshot|
        invariant 0 <= i <= |snapshot| && Valid() && now == old(now)
        invariant Values(snapshot) == s.queue && View() == Sweeping(s, i, gone)
        invariant StillQueued(queue, snapshot, i)
        invariant forall e :: e in queue ==> e in snapshot
      {
        SweepOne(snapshot, i, ordinary, s, gone);
        i := i + 1;
      }
      SweepEnds(s, gone);
    }

    /** Nothing at or behind index i of the snapshot has left the queue. */
    ghost predicate StillQueued(q: seq<PendingEcho>, snapshot: seq<PendingEcho>, i: nat) {
      i <= |snapshot| && |snapshot| - i <= |q| && q[|q| - (|snapshot| - i)..] == snapshot[i..]
    }

    lemma AllQueued(q: seq<PendingEcho>)
      ensures StillQueued(q, q, 0)
    {
    }

    /** One candidate of a sweep. */
    method SweepOne(snapshot: seq<PendingEcho>, i: nat, ordinary: bool, ghost s: Filter, ghost gone: Echo -> bool)
      requires Valid() && i < |snapshot| && StillQueued(queue, snapshot, i)
      requires forall e: Echo :: gone(e) == if ordinary then e.nonce.None? else e.Expired(now)
      requires Values(snapshot) == s.queue && View() == Sweeping(s, i, gone)
      modifies this`queue, this`written
      ensures Valid() && View() == Sweeping(s, i + 1, gone) && StillQueued(queue, snapshot, i + 1)
      ensures forall e :: e in queue ==> e in old(queue)
    {
      hide Evict, Values, Sweeping, Valid, Without, Flushed, StillQueued;
      var candidate := snapshot[i];
      ghost var k := |queue| - (|snapshot| - i);
      QueuedNext(queue, snapshot, i);
      SweepStep(s, i, gone, k);
      assert s.queue[i] == candidate.Value();
      if if ordinary then candidate.nonce.None? else candidate.nonce.Some? && now >= candidate.expiresAt {
        Leave(candidate, k);
      }
    }

    lemma QueuedNext(q: seq<PendingEcho>, snapshot: seq<PendingEcho>, i: nat)
      requires i < |snapshot| && StillQueued(q, snapshot, i)
      ensures var k := |q| - (|snapshot| - i);
        && 0 <= k < |q| && q[k] == snapshot[i]
        && StillQueued(q, snapshot, i + 1) && StillQueued(q[..k] + q[k + 1..], snapshot, i + 1)
        && forall e :: e in q[..k] + q[k + 1..] ==> e in q
    {
      var k := |q| - (|snapshot| - i);
      DropAt(q, k, snapshot[i..]);
      assert snapshot[i..][1..] == snapshot[i + 1..];
    }

    lemma DropAt<T>(q: seq<T>, k: nat, tail: seq<T>)
      requires k < |q| && q[k..] == tail
      ensures (q[..k] + q[k + 1..])[k..] == tail[1..] && q[k + 1..] == tail[1..] && q[k] == tail[0]
    {
    }

    /** The sweep after its first i candidates. */
    ghost function Sweeping(s: Filter, i: nat, gone: Echo -> bool): Filter
      requires i <= |s.queue|
    {
      s.(queue := Kept(s.queue[..i], gone) + s.queue[i..], log := s.log + FlushAll(Gone(s.queue[..i], gone)))
    }

    lemma SweepStarts(s: Filter, gone: Echo -> bool)
      ensures Sweeping(s, 0, gone) == s
    {
      assert s.queue[..0] == [] && s.queue[0..] == s.queue && s.log + [] == s.log && [] + s.queue == s.queue;
    }

    lemma SweepEnds(s: Filter, gone: Echo -> bool)
      ensures Sweeping(s, |s.queue|, gone) == Evict(s, gone)
    {
      assert s.queue[..|s.queue|] == s.queue && Kept(s.queue, gone) + [] == Kept(s.queue, gone);
    }

    lemma SweepStep(s: Filter, i: nat, gone: Echo -> bool, k: nat)
      requires i < |s.queue| && |Sweeping(s, i, gone).queue| == k + |s.queue| - i
      ensures Sweeping(s, i, gone).queue[k] == s.queue[i]
      ensures Sweeping(s, i + 1, gone) ==
        var now := Sweeping(s, i, gone);
        if gone(s.queue[i]) then now.(queue := Without(now.queue, k), log := now.log + Flushed(s.queue[i])) else now
    {
      hide Kept, Gone, FlushAll, Flushed;
      var v, x := s.queue[..i], s.queue[i];
      assert s.queue[..i + 1] == v + [x] && s.queue[i..] == [x] + s.queue[i + 1..];
      Swept(v, x, gone);
      FlushLast(Gone(v, gone), x);
      var q := Kept(v, gone);
      assert gone(x) ==> Without(q + s.queue[i..], |q|) == q + s.queue[i + 1..];
      assert !gone(x) ==> q + [x] + s.queue[i + 1..] == q + s.queue[i..] && Gone(v, gone) + [] == Gone(v, gone) && q + [] == q;
      assert s.log + (FlushAll(Gone(v, gone)) + Flushed(x)) == s.log + FlushAll(Gone(v, gone)) + Flushed(x);
    }

    lemma {:induction false} Swept(a: seq<Echo>, x: Echo, gone: Echo -> bool)
      ensures Kept(a + [x], gone) == Kept(a, gone) + if gone(x) then [] else [x]
      ensures Gone(a + [x], gone) == Gone(a, gone) + if gone(x) then [x] else []
    {
      hide Kept, Gone;
      SweptFirst(a + [x], gone);
      SweptFirst([x], gone);
      NoneSwept(gone);
      if a == [] {
        assert a + [x] == [x] && [x][1..] == [];
      } else {
        SweptFirst(a, gone);
        Swept(a[1..], x, gone);
        assert (a + [x])[1..] == a[1..] + [x] && (a + [x])[0] == a[0];
      }
    }

    lemma SweptFirst(q: seq<Echo>, gone: Echo -> bool)
      requires q != []
      ensures Kept(q, gone) == (if gone(q[0]) then [] else [q[0]]) + Kept(q[1..], gone)
      ensures Gone(q, gone) == (if gone(q[0]) then [q[0]] else []) + Gone(q[1..], gone)
    {
    }

    lemma NoneSwept(gone: Echo -> bool)
      ensures Kept([], gone) == [] && Gone([], gone) == []
    {
    }

    lemma {:induction false} FlushLast(a: seq<Echo>, x: Echo)
      ensures FlushAll(a + [x]) == FlushAll(a) + Flushed(x)
    {
      if a == [] {
        assert a + [x] == [x] && FlushAll([x]) == Flushed(x) + FlushAll([]);
      } else {
        FlushLast(a[1..], x);
        assert (a + [x])[1..] == a[1..] + [x];
      }
    }

    /** expectPtyEcho; the result is what the returned cleanup closure retires. */
    method ExpectPtyEcho(line: Codes, visible: Option<Codes>, requested: Option<Codes>) returns (echo: PendingEcho)
      requires Valid()
      modifies this
      ensures Valid() && View() == Expect(old(View()), line, visible, requested)
      ensures fresh(echo) && forall e :: e in queue ==> e in old(queue) || e == echo
    {
      hide Evict, Values, OwnedNonce, Bounded, Valid;
      Sweep(true, (e: Echo) => e.nonce.None?);
      echo := Arm(line, visible, OwnedNonce(line, visible, requested));
      Trim();
    }

    /** The expectation itself, queued behind the others. */
    method Arm(line: Codes, visible: Option<Codes>, nonce: Option<Codes>) returns (echo: PendingEcho)
      requires Valid()
      modifies this`queue, this`armed
      ensures Valid() && fresh(echo) && queue == old(queue) + [echo]
      ensures View() == old(View()).(
        queue := old(View()).queue + [Echo(|old(armed)|, line, visible, [], [], now + ECHO_WAIT_MS, None, 0, nonce,
                                           if nonce.Some? then now + LATE_PROBE_ECHO_MS else 0, false)],
        armed := old(armed) + [Armed(line, visible)])
    {
      hide Values;
      ghost var before := Values(queue);
      echo := new PendingEcho(|armed|, line, visible, nonce,
                              if nonce.Some? then now + LATE_PROBE_ECHO_MS else 0, now + ECHO_WAIT_MS);
      queue := queue + [echo];
      armed := armed + [Armed(line, visible)];
      assert Values(queue) == before + [echo.Value()];
    }

    /** Only the newest expectations stay. */
    method Trim()
      requires Valid()
      modifies this`queue, this`written
      ensures Valid() && View() == Bounded(old(View()))
      ensures forall e :: e in queue ==> e in old(queue)
    {
      hide FlushAll, Values, Flushed;
      ghost var s, n := View(), 0;
      NoneOldest(s);
      while |queue| > MAX_EXPECTATIONS
        invariant Valid() && n <= |s.queue| && |queue| == |s.queue| - n
        invariant n > 0 ==> |queue| >= MAX_EXPECTATIONS
        invariant View() == Overflowed(s, n)
        invariant forall e :: e in queue ==> e in old(queue)
      {
        OneOldest(s, n);
        Leave(queue[0], 0);
        n := n + 1;
      }
    }

    ghost function Overflowed(s: Filter, n: nat): Filter
      requires n <= |s.queue|
    {
      s.(queue := s.queue[n..], log := s.log + FlushAll(s.queue[..n]))
    }

    lemma NoneOldest(s: Filter)
      ensures Overflowed(s, 0) == s
    {
      assert s.queue[..0] == [] && s.queue[0..] == s.queue && s.log + [] == s.log;
    }

    lemma OneOldest(s: Filter, n: nat)
      requires n < |s.queue|
      ensures var t := Overflowed(s, n);
        t.queue != [] && Overflowed(s, n + 1) == t.(queue := Without(t.queue, 0), log := t.log + Flushed(t.queue[0]))
    {
      hide FlushAll, Flushed;
      assert s.queue[..n + 1] == s.queue[..n] + [s.queue[n]];
      FlushLast(s.queue[..n], s.queue[n]);
      assert s.log + (FlushAll(s.queue[..n]) + Flushed(s.queue[n])) == s.log + FlushAll(s.queue[..n]) + Flushed(s.queue[n]);
      assert Without(s.queue[n..], 0) == s.queue[n + 1..];
    }

    /** cancelPtyEcho */
    method CancelPtyEcho(discard: bool)
      requires Valid()
      modifies this`queue, this`written
      ensures Valid() && View() == Cancel(old(View()), discard)
    {
      hide FlushAll, DiscardAll, Values, Flushed;
      var gone, i := queue, 0;
      ghost var v, log := Values(queue), written;
      queue := [];
      NoFlush();
      assert v[..0] == [] && log + [] == log;
      while i < |gone|
        invariant 0 <= i <= |gone| && Valid() && queue == [] && Values(gone) == v
        invariant written == log + if discard then DiscardAll(v[..i]) else FlushAll(v[..i])
      {
        assert v[..i + 1] == v[..i] + [v[i]];
        FlushLast(v[..i], v[i]);
        DiscardLast(v[..i], v[i]);
        if discard {
          if gone[i].bytes != [] || gone[i].acks != [] { TermWrite(Discard(gone[i].bytes, gone[i].acks)); }
        } else {
          Flush(gone[i]);
        }
        i := i + 1;
      }
      assert v[..|v|] == v;
    }

    lemma NoFlush()
      ensures FlushAll([]) == [] && DiscardAll([]) == []
    {
    }

    lemma {:induction false} DiscardLast(a: seq<Echo>, x: Echo)
      ensures DiscardAll(a + [x]) == DiscardAll(a) + if x.HasContent() then [Discard(x.bytes, x.acks)] else []
    {
      if a == [] {
        assert a + [x] == [x] && [x][1..] == [];
      } else {
        DiscardLast(a[1..], x);
        assert (a + [x])[1..] == a[1..] + [x];
      }
    }

    // ---------------------------------------------------------- feeding output

    /** writePtyOutput */
    method WritePtyOutput(bytes: Codes, onParsed: seq<nat>)
      requires Valid()
      modifies this`queue, this`written, queue
      ensures Valid() && View() == Feed(u, old(View()), bytes, onParsed)
      ensures forall e :: e in queue ==> e in old(queue)
      decreases |queue|, 5
    {
      hide Forward, Values, Evict, Kept, Valid;
      if bytes == [] {
        TermWrite(Plain(bytes, onParsed));
        return;
      }
      ghost var s := View();
      Sweep(false, (e: Echo) => e.Expired(s.now));
      SweptSize(s);
      if queue == [] {
        TermWrite(Plain(bytes, onParsed));
        return;
      }
      var echo := queue[0];
      assert echo in queue;
      WakeHead(echo, onParsed);
      assert forall i :: 0 <= i < |queue| ==> queue[i] in old(queue);
      ForwardProtocol(echo, echo.bytes + bytes, Expire(s));
    }

    /** The first chunk after retirement restarts the ordinary buffering deadline. */
    method WakeHead(echo: PendingEcho, onParsed: seq<nat>)
      requires Valid() && queue != [] && queue[0] == echo
      modifies echo`retired, echo`deadline, echo`acks
      ensures Valid()
      ensures var woken := Wake(old(echo.Value()), now);
        && echo.Value() == woken.(acks := woken.acks + onParsed)
        && View() == old(View()).(queue := [echo.Value()] + old(View()).queue[1..])
    {
      if echo.retired {
        echo.retired := false;
        var left := if echo.nonce.Some? then echo.expiresAt - now else 0;
        echo.deadline := now + if left < 0 then 0 else if left < ECHO_WAIT_MS then left else ECHO_WAIT_MS;
      }
      echo.acks := echo.acks + onParsed;
      assert View().queue == [echo.Value()] + old(View()).queue[1..];
    }

    lemma SweptSize(s: Filter)
      ensures |Expire(s).queue| <= |s.queue|
    {
      KeptShrinks(s.queue, (e: Echo) => e.Expired(s.now));
    }

    /** The head of the queue is echo, and the rest is as in state s. */
    ghost predicate Heads(echo: PendingEcho, s: Filter)
      reads this, queue
    {
      && queue != [] && echo == queue[0] && s.queue != []
      && View() == s.(queue := [echo.Value()] + s.queue[1..])
      && echo.nonce == s.queue[0].nonce && echo.line == s.queue[0].line
      && echo.visible == s.queue[0].visible && echo.id == s.queue[0].id
    }

    lemma HeadsAlike(echo: PendingEcho, s: Filter, nonce: Codes, line: Codes)
      requires Heads(echo, s)
      ensures var q := View().queue;
        && |q| == |s.queue| && Nonces(q) == Nonces(s.queue)
        && IndexOfNonce(q, nonce) == IndexOfNonce(s.queue, nonce) && IndexOfLine(q, line) == IndexOfLine(s.queue, line)
        && Alike(s.queue, q)
    {
      hide Nonces, IndexOfNonce, IndexOfLine, Values;
      HeadAlike(s.queue, View().queue);
      AlikeLookups(s.queue, View().queue, nonce, line);
    }

    method SetHeld(echo: PendingEcho, bytes: Codes, acks: seq<nat>, forwarded: nat, ghost s: Filter)
      requires Valid() && Heads(echo, s)
      modifies echo`bytes, echo`acks, echo`forwarded
      ensures Valid() && Heads(echo, s)
      ensures echo.Value() == old(echo.Value()).(bytes := bytes, acks := acks, forwarded := forwarded)
    {
      ghost var before := View().queue;
      echo.bytes, echo.acks, echo.forwarded := bytes, acks, forwarded;
      assert before[1..] == s.queue[1..];
      assert forall k :: 1 <= k < |queue| ==> queue[k].Value() == before[k];
      assert View().queue == [echo.Value()] + s.queue[1..];
    }

    /** The part of writePtyOutput that passes leading protocol traffic on. The ghost
        state s is the one in which the head was found. */
    method ForwardProtocol(echo: PendingEcho, held: Codes, ghost s: Filter)
      requires Valid() && Heads(echo, s)
      modifies this`queue, this`written, queue
      ensures Valid() && View() == Forward(u, s, old(echo.Value()), held)
      ensures forall e :: e in queue ==> e in old(queue)
      decreases |queue|, 4
    {
      hide Values, Leading, Forward, Continue, Match, Nonces, IndexOfNonce, Valid, Alike, Heads, RunningFrom;
      ghost var head, scan := echo.Value(), Leading(echo.protocol, held, echo.nonce.Some?, Nonces(s.queue));
      NonEmptyHeads(echo, s);
      var length, stop := ScanHead(echo, held, s);
      var prefix, rest := held[..length], held[length..];
      assert held == prefix + rest;
      if stop.Running? {
        ForwardRuns(u, s, head, held, prefix, rest, scan);
        KeepHolding(echo, held, prefix, rest, s, head);
      } else {
        ForwardStops(u, s, head, held, prefix, rest, scan);
        PassAndContinue(echo, prefix, rest, stop, s);
      }
    }

    /** A scan that ran to a quiet end: the budget, then the line. */
    method KeepHolding(echo: PendingEcho, held: Codes, prefix: Codes, rest: Codes, ghost s: Filter, ghost head: Echo)
      requires Valid() && Heads(echo, s) && held == prefix + rest
      requires echo.Value() == head.(bytes := held, protocol := echo.protocol)
      modifies this`queue, this`written, queue
      ensures Valid() && s.queue != [] && View() == RunningFrom(u, s, head, held, prefix, rest, old(echo.protocol))
      ensures forall e :: e in queue ==> e in old(queue)
      decreases |queue|, 3
    {
      hide Values, Match, Valid, Heads, Surrender, RunningFrom;
      NonEmptyHeads(echo, s);
      RunningIs(u, s, head, held, prefix, rest, echo.protocol);
      if |prefix| > 0 {
        SetHeld(echo, rest, echo.acks, echo.forwarded + |prefix|, s);
        if echo.forwarded > MAX_ECHO_BYTES {
          SurrenderSame(s, echo.Value(), head, held);
          GiveUp(echo, held, s);
          return;
        }
        if rest == [] {
          FlushPrefix(echo, prefix, s);
          return;
        }
        PassPrefix(echo, prefix, s);
      }
      assert |prefix| == 0 ==> rest == held;
      ghost var logged := if |prefix| > 0 then s.Log(Plain(prefix, [])) else s;
      MatchIgnoresHeld(u, logged, echo.Value(), head.(protocol := echo.protocol, forwarded := head.forwarded + |prefix|), rest);
      MatchLine(echo, rest, logged);
    }

    static lemma RunningIs(u: Codec, s: Filter, head: Echo, held: Codes, prefix: Codes, rest: Codes, protocol: Option<Protocol>)
      requires s.queue != []
      ensures var out := RunningFrom(u, s, head, held, prefix, rest, protocol);
        var kept := head.(protocol := protocol, forwarded := head.forwarded + |prefix|);
        if |prefix| == 0 then out == Match(u, s, kept, rest)
        else if kept.forwarded > MAX_ECHO_BYTES then out == Surrender(s, head, held)
        else if rest == [] then out == s.(queue := [kept.(bytes := [], acks := [])] + s.queue[1..]).Log(Plain(prefix, head.acks))
        else out == Match(u, s.Log(Plain(prefix, [])), kept, rest)
    {
      hide Match, Surrender;
    }

    lemma SurrenderSame(s: Filter, h1: Echo, h2: Echo, held: Codes)
      requires h1.acks == h2.acks
      ensures Surrender(s, h1, held) == Surrender(s, h2, held)
    {
    }

    lemma NonEmptyHeads(echo: PendingEcho, s: Filter)
      requires Heads(echo, s)
      ensures queue != [] && queue[0] == echo && s.queue != [] && echo in queue && echo.nonce == s.queue[0].nonce
      ensures View().armed == s.armed && View().now == s.now && View().log == s.log && |View().queue| == |s.queue|
    {
    }

    method PassPrefix(echo: PendingEcho, prefix: Codes, ghost s: Filter)
      requires Valid() && Heads(echo, s)
      modifies this`written
      ensures Valid() && queue == old(queue) && Heads(echo, s.Log(Plain(prefix, [])))
    {
      TermWrite(Plain(prefix, []));
    }

    method FlushPrefix(echo: PendingEcho, prefix: Codes, ghost s: Filter)
      requires Valid() && Heads(echo, s)
      modifies this`written, echo`bytes, echo`acks, echo`forwarded
      ensures Valid() && queue == old(queue)
      ensures View() ==
        s.(queue := [old(echo.Value()).(bytes := [], acks := [])] + s.queue[1..]).Log(Plain(prefix, old(echo.acks)))
    {
      var acks := echo.acks;
      SetHeld(echo, [], [], echo.forwarded, s);
      TermWrite(Plain(prefix, acks));
    }

    method PassAndContinue(echo: PendingEcho, prefix: Codes, rest: Codes, stop: Stop, ghost s: Filter)
      requires Valid() && Heads(echo, s) && !stop.Running? && (stop.Reply? ==> stop.nonce in Nonces(s.queue))
      modifies this`queue, this`written, queue
      ensures Valid()
      ensures View() ==
        var through := if stop.Reply? then IndexOfNonce(s.queue, stop.nonce) else 0;
        Continue(u, s.(queue := s.queue[through + 1..]), old(echo.acks), Plain(prefix, []), rest)
      ensures forall e :: e in queue ==> e in old(queue)
      decreases |queue|, 1
    {
      hide Values, Continue, Nonces, IndexOfNonce, Valid, Heads;
      NonEmptyHeads(echo, s);
      var acks := echo.acks;
      DropAnswered(echo, stop, s);
      assert forall i :: 0 <= i < |queue| ==> queue[i] in old(queue);
      WriteAndContinue(acks, Plain(prefix, []), rest);
    }

    /** A reply consumes its request and everything queued before it; a lifecycle mark
        consumes the head. */
    method DropAnswered(echo: PendingEcho, stop: Stop, ghost s: Filter)
      requires Valid() && Heads(echo, s) && !stop.Running? && (stop.Reply? ==> stop.nonce in Nonces(s.queue))
      modifies this`queue
      ensures Valid() && |queue| < |old(queue)| && forall e :: e in queue ==> e in old(queue)
      ensures View() ==
        var through := if stop.Reply? then IndexOfNonce(s.queue, stop.nonce) else 0;
        s.(queue := s.queue[through + 1..])
    {
      hide Values, Nonces, IndexOfNonce, Valid, Heads;
      var through := 0;
      NonEmptyHeads(echo, s);
      if stop.Reply? { through := FindAnswered(echo, stop.nonce, s); }
      HeadsTail(echo, s, through + 1);
      DropFirst(through + 1);
    }

    method FindAnswered(echo: PendingEcho, nonce: Codes, ghost s: Filter) returns (i: nat)
      requires Valid() && Heads(echo, s) && nonce in Nonces(s.queue)
      ensures i == IndexOfNonce(s.queue, nonce) < |s.queue|
    {
      hide Values, Nonces, IndexOfNonce, Valid, Alike, Heads;
      HeadsAlike(echo, s, nonce, []);
      OwnedIsFound(s.queue, nonce);
      i := FindNonce(nonce);
    }

    lemma HeadsTail(echo: PendingEcho, s: Filter, n: nat)
      requires Heads(echo, s) && 1 <= n <= |s.queue|
      ensures n <= |View().queue| && View().queue[n..] == s.queue[n..]
      ensures View().(queue := s.queue[n..]) == s.(queue := s.queue[n..])
    {
      hide Values;
    }

    lemma HeadAlike(q: seq<Echo>, r: seq<Echo>)
      requires q != [] && r != [] && r[1..] == q[1..]
      requires q[0].id == r[0].id && q[0].line == r[0].line && q[0].visible == r[0].visible && q[0].nonce == r[0].nonce
      ensures Alike(q, r)
    {
    }

    lemma OwnedIsFound(queue: seq<Echo>, nonce: Codes)
      requires nonce in Nonces(queue)
      ensures IndexOfNonce(queue, nonce) < |queue|
    {
      hide IndexOfNonce;
    }

    /** Hold the chunk and scan what is held for leading protocol traffic. */
    method ScanHead(echo: PendingEcho, held: Codes, ghost s: Filter) returns (length: nat, stop: Stop)
      requires Valid() && Heads(echo, s)
      modifies echo`bytes, echo`acks, echo`forwarded, echo`protocol
      ensures Valid() && Heads(echo, s) && length <= |held|
      ensures var scan := Leading(old(echo.protocol), held, echo.nonce.Some?, Nonces(s.queue));
        && scan == Scan(length, echo.protocol, stop)
        && echo.Value() == old(echo.Value()).(bytes := held, protocol := scan.protocol)
    {
      hide Values, Leading, Nonces, Valid, Alike, Heads;
      SetHeld(echo, held, echo.acks, echo.forwarded, s);
      HeadsAlike(echo, s, [], []);
      var nonces := OwnedNonces();
      length, stop := ScanHeld(echo, held, nonces, s);
    }

    method ScanHeld(echo: PendingEcho, held: Codes, nonces: set<Codes>, ghost s: Filter) returns (length: nat, stop: Stop)
      requires Valid() && Heads(echo, s)
      modifies echo`protocol
      ensures Valid() && Heads(echo, s) && length <= |held|
      ensures Scan(length, echo.protocol, stop) == Leading(old(echo.protocol), held, echo.nonce.Some?, nonces)
      ensures echo.Value() == old(echo.Value()).(protocol := echo.protocol)
    {
      hide Leading;
      length, stop := LeadingProtocol(echo, held, nonces);
      assert View().queue == [echo.Value()] + s.queue[1..];
    }

    method OwnedNonces() returns (nonces: set<Codes>)
      ensures nonces == Nonces(Values(queue))
    {
      nonces := set i | 0 <= i < |queue| && queue[i].nonce.Some? :: queue[i].nonce.value;
    }

    method FindNonce(nonce: Codes) returns (i: nat)
      ensures i == IndexOfNonce(Values(queue), nonce)
    {
      hide IndexOfNonce;
      i := 0;
      while i < |queue| && queue[i].nonce != Some(nonce)
        invariant 0 <= i <= |queue| && forall j :: 0 <= j < i ==> queue[j].nonce != Some(nonce)
      {
        i := i + 1;
      }
    }

    method FindLine(line: Codes) returns (i: nat)
      ensures i == IndexOfLine(Values(queue), line)
    {
      hide IndexOfLine;
      i := 0;
      while i < |queue| && queue[i].line != line
        invariant 0 <= i <= |queue| && forall j :: 0 <= j < i ==> queue[j].line != line
      {
        i := i + 1;
      }
    }

    /** The part of writePtyOutput that looks for one whole echoed line. */
    method MatchLine(echo: PendingEcho, held: Codes, ghost s: Filter)
      requires Valid() && Heads(echo, s) && echo.bytes == held
      modifies this`queue, this`written, queue
      ensures Valid() && View() == Match(u, s, old(echo.Value()), held)
      ensures forall e :: e in queue ==> e in old(queue)
      decreases |queue|, 2
    {
      hide Values, HasNonEchoControl, Normalize, Match, Continue, IndexOf, IndexOfLine, Shown, Surrender, Valid, Alike, Heads, RuledOut;
      NonEmptyHeads(echo, s);
      ghost var head := echo.Value();
      var end := IndexOf(held, LF);
      var noisy := ScanNonEchoControl(held[..end]);
      RuledOutIs(held);
      if noisy || (if end == |held| then |held| else end + 1) > MAX_ECHO_BYTES {
        MatchSurrenders(u, s, head, held);
        GiveUp(echo, held, s);
        return;
      }
      if end == |held| {
        MatchWaits(u, s, head, held);
        StillHolding(echo, s);
        return;
      }
      var line := NormalizeEcho(u.decode(held[..end]));
      if line.None? {
        MatchMisses(u, s, head, held, end, line);
        GiveUp(echo, held, s);
        return;
      }
      LookUp(echo, held, end, line.value, s);
    }

    /** Look the held line up and replace it. */
    method LookUp(echo: PendingEcho, held: Codes, end: nat, line: Normalized, ghost s: Filter)
      requires Valid() && Heads(echo, s) && s.queue != []
      requires !RuledOut(held) && end == IndexOf(held, LF) < |held| && Some(line) == Normalize(u.decode(held[..end]))
      modifies this`queue, this`written, queue
      ensures Valid() && View() == Match(u, s, old(echo.Value()), held)
      ensures forall e :: e in queue ==> e in old(queue)
      decreases |queue|, 1
    {
      hide Values, Normalize, Match, Continue, IndexOf, IndexOfLine, Shown, Surrender, Valid, Alike, Heads, RuledOut;
      ghost var head := echo.Value();
      HeadsAlike(echo, s, [], line.text);
      var i := FindLine(line.text);
      if i == |queue| {
        MatchMisses(u, s, head, held, end, Some(line));
        GiveUp(echo, held, s);
        return;
      }
      MatchSwaps(u, s, head, held, end, i, line);
      SwapLine(echo, held, end, i, line, s);
    }

    static lemma RuledOutIs(held: Codes)
      ensures var end := IndexOf(held, LF);
        RuledOut(held) <==> HasNonEchoControl(held[..end]) || (if end == |held| then |held| else end + 1) > MAX_ECHO_BYTES
    {
    }

    lemma StillHolding(echo: PendingEcho, s: Filter)
      requires Heads(echo, s)
      ensures View() == s.(queue := [echo.Value()] + s.queue[1..])
    {
    }

    method SwapLine(echo: PendingEcho, held: Codes, end: nat, i: nat, line: Normalized, ghost s: Filter)
      requires Valid() && Heads(echo, s) && end < |held| && i < |queue|
      modifies this`queue, this`written, queue
      ensures Valid() && i < |s.queue|
      ensures View() ==
        Continue(u, s.(queue := s.queue[i + 1..]), old(echo.acks),
                 Write(u.encode(Shown(s.queue[i].visible, line)), held[..end + 1], [], Some(Swap(s.queue[i].id, held[..end + 1]))),
                 held[end + 1..])
      ensures forall e :: e in queue ==> e in old(queue)
      decreases |queue|, 0
    {
      hide Values, Continue, Shown, Valid, Alike;
      HeadsAlike(echo, s, [], []);
      var matched := queue[i];
      AlikeAt(s.queue, View().queue, i);
      var acks := echo.acks;
      DropFirst(i + 1);
      assert View().queue == s.queue[i + 1..];
      WriteAndContinue(acks,
                       Write(u.encode(Shown(matched.visible, line)), held[..end + 1], [],
                             Some(Swap(matched.id, held[..end + 1]))),
                       held[end + 1..]);
    }

    /** Unknown output invalidates the queue and is preserved. */
    method GiveUp(echo: PendingEcho, held: Codes, ghost s: Filter)
      requires Valid() && Heads(echo, s)
      modifies this`queue, this`written
      ensures Valid() && queue == [] && View() == Surrender(s, echo.Value(), held)
    {
      queue := [];
      TermWrite(Plain(held, echo.acks));
    }

    /** writeAndContinue */
    method WriteAndContinue(acks: seq<nat>, w: Write, rest: Codes)
      requires Valid() && w.Write?
      modifies this`queue, this`written, queue
      ensures Valid() && View() == Continue(u, old(View()), acks, w, rest)
      ensures forall e :: e in queue ==> e in old(queue)
      decreases |queue|, 6
    {
      if rest == [] || queue == [] {
        TermWrite(w.(bytes := w.bytes + rest, source := w.source + rest, acks := acks));
      } else {
        TermWrite(w);
        WritePtyOutput(rest, acks);
      }
    }
  }
}
