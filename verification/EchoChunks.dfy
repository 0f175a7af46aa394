/** How the PTY splits its output into chunks makes no difference to what the terminal
    receives, as long as the head's protocol budget is not exceeded. */
module EchoChunks {
  import opened Basics
  import opened EchoText
  import opened EchoModel
  import opened EchoLaws

  /** One byte more than the head may forward: the last chunk is never empty. */
  const CHUNK_BUDGET: nat := MAX_ECHO_BYTES + 1

  /** What the terminal has received. */
  function Bytes(log: seq<Write>): Codes {
    if log == [] then []
    else Bytes(log[..|log| - 1]) + (if log[|log| - 1].Write? then log[|log| - 1].bytes else [])
  }

  ghost predicate Similar(q1: seq<Echo>, q2: seq<Echo>) {
    |q1| == |q2| && forall i :: 0 <= i < |q1| ==> q1[i].(acks := []) == q2[i].(acks := [])
  }

  /** Enough agreement for one held line: the heads may hold different bytes. */
  ghost predicate Alike(q1: seq<Echo>, q2: seq<Echo>) {
    && q1 != [] && q2 != [] && Similar(q1[1..], q2[1..])
    && q1[0].id == q2[0].id && q1[0].line == q2[0].line && q1[0].visible == q2[0].visible && q1[0].nonce == q2[0].nonce
  }

  ghost predicate Level(s1: Filter, s2: Filter) {
    s1.armed == s2.armed && s1.now == s2.now && Bytes(s1.log) == Bytes(s2.log) && Sources(s1.log) == Sources(s2.log)
  }

  /** Two states that differ only in who is told when, and in how writes are cut. */
  ghost predicate Same(s1: Filter, s2: Filter) {
    Similar(s1.queue, s2.queue) && Level(s1, s2)
  }

  // ------------------------------------------------------------ scanning is incremental

  lemma {:induction false} CsiEndGrows(a: Codes, b: Codes, i: nat)
    requires i <= |a| && CsiEnd(a, i) < |a|
    ensures CsiEnd(a + b, i) == CsiEnd(a, i)
    decreases |a| - i
  {
    if Parameter(a[i]) { CsiEndGrows(a, b, i + 1); }
  }

  lemma {:induction false} NoisyGrows(a: Codes, b: Codes)
    requires HasNonEchoControl(a)
    ensures HasNonEchoControl(a + b)
    decreases |a|
  {
    hide EchoCsiKind;
    if a[0] == ESC {
      if a[1] == 91 {
        var end := CsiEnd(a, 2);
        CsiEndGrows(a, b, 2);
        assert (a + b)[..end + 1] == a[..end + 1];
        if !EchoCsiKind(a[..end + 1]).Foreign? {
          NoisyGrows(a[end + 1..], b);
          assert (a + b)[end + 1..] == a[end + 1..] + b;
        }
      }
    } else if HasNonEchoControl(a[1..]) {
      NoisyGrows(a[1..], b);
      assert (a + b)[1..] == a[1..] + b;
    }
  }

  /** An escape sequence whose end has not arrived. */
  predicate Partial(a: Codes) {
    a == [ESC] || (|a| >= 2 && a[0] == ESC && a[1] == 91 && CsiEnd(a, 2) == |a|)
  }

  lemma PartialIsQuiet(a: Codes)
    requires Partial(a)
    ensures LF !in a && !HasNonEchoControl(a)
  {
  }

  lemma LeadStays(a: Codes, b: Codes)
    requires a != []
    ensures LeadLength(a) != 0 ==> LeadLength(a + b) == LeadLength(a)
    ensures LeadLength(a) == 0 && !Partial(a) ==> LeadLength(a + b) == 0
  {
    hide EchoCsiKind, IsQuery;
    if |a| >= 2 && a[0] == ESC && a[1] == 91 && CsiEnd(a, 2) < |a| {
      CsiEndGrows(a, b, 2);
      var end := CsiEnd(a, 2);
      assert (a + b)[..end + 1] == a[..end + 1];
    }
  }

  lemma MoveStays(p: Option<Protocol>, a: Codes, b: Codes, owned: bool, nonces: set<Codes>)
    requires a != [] && LeadMove(p, a, owned, nonces).length != 0
    ensures LeadMove(p, a + b, owned, nonces) == LeadMove(p, a, owned, nonces)
  {
    hide LeadLength, StopAt, EndsString, Extended;
    LeadStays(a, b);
  }

  function Shifted(n: nat, scan: Scan): Scan { scan.(length := n + scan.length) }

  lemma Nothing(p: Option<Protocol>, owned: bool, nonces: set<Codes>)
    ensures Leading(p, [], owned, nonces) == Scan(0, p, Running)
  {
  }

  lemma Unfolded(p: Option<Protocol>, a: Codes, owned: bool, nonces: set<Codes>, m: Move)
    requires a != [] && m == LeadMove(p, a, owned, nonces)
    ensures Leading(p, a, owned, nonces) ==
      if m.length == 0 || !m.stop.Running? then Scan(m.length, m.protocol, m.stop)
      else Shifted(m.length, Leading(m.protocol, a[m.length..], owned, nonces))
  {
    hide LeadMove;
  }

  /** Scanning a longer input gives the same verdict, or resumes where it stopped. */
  lemma {:induction false} LeadingGrows(p: Option<Protocol>, a: Codes, b: Codes, owned: bool, nonces: set<Codes>)
    ensures var scan := Leading(p, a, owned, nonces);
      Leading(p, a + b, owned, nonces) ==
        if scan.stop.Running? then Shifted(scan.length, Leading(scan.protocol, a[scan.length..] + b, owned, nonces))
        else scan
    decreases |a|
  {
    hide LeadMove, Leading;
    if a == [] {
      Nothing(p, owned, nonces);
      assert a[0..] + b == a + b == b;
    } else {
      var m := LeadMove(p, a, owned, nonces);
      Unfolded(p, a, owned, nonces, m);
      if m.length == 0 {
        assert a[0..] + b == a + b;
        NoMoveInside(p, a, owned, nonces);
      } else {
        var more := a[m.length..];
        MoveStays(p, a, b, owned, nonces);
        Unfolded(p, a + b, owned, nonces, m);
        assert (a + b)[m.length..] == more + b;
        if m.stop.Running? {
          LeadingGrows(m.protocol, more, b, owned, nonces);
          var rest := Leading(m.protocol, more, owned, nonces);
          assert more[rest.length..] == a[m.length + rest.length..];
        }
      }
    }
  }

  /** The scan never stops inside a string. */
  lemma NoMoveInside(p: Option<Protocol>, a: Codes, owned: bool, nonces: set<Codes>)
    requires a != [] && LeadMove(p, a, owned, nonces).length == 0
    ensures p.None?
  {
  }

  // ------------------------------------------------------------ logs and similar queues

  lemma {:induction false} Joined(log: seq<Write>, more: seq<Write>)
    ensures Bytes(log + more) == Bytes(log) + Bytes(more)
    ensures Sources(log + more) == Sources(log) + Sources(more)
  {
    hide Bytes, Sources;
    if more == [] {
      assert log + more == log;
      Unlogged();
    } else {
      var n := |more| - 1;
      Joined(log, more[..n]);
      Longer(log + more[..n], more[n]);
      Longer(more[..n], more[n]);
      assert more[..n] + [more[n]] == more && log + more[..n] + [more[n]] == log + more;
    }
  }

  lemma Unlogged()
    ensures Bytes([]) == [] && Sources([]) == []
  {
  }

  lemma Longer(log: seq<Write>, w: Write)
    ensures Bytes(log + [w]) == Bytes(log) + (if w.Write? then w.bytes else [])
    ensures Sources(log + [w]) == Sources(log) + w.source
  {
    assert (log + [w])[..|log|] == log;
  }

  lemma One(w: Write)
    ensures Bytes([w]) == (if w.Write? then w.bytes else []) && Sources([w]) == w.source
  {
    assert [w][..0] == [];
  }

  lemma SimilarAlike(q1: seq<Echo>, q2: seq<Echo>)
    requires Similar(q1, q2) && q1 != []
    ensures Alike(q1, q2)
  {
    assert q1[0].(acks := []) == q2[0].(acks := []);
  }

  lemma AlikeAt(q1: seq<Echo>, q2: seq<Echo>, i: nat)
    requires Alike(q1, q2) && i < |q1|
    ensures i < |q2|
    ensures q1[i].id == q2[i].id && q1[i].line == q2[i].line && q1[i].visible == q2[i].visible && q1[i].nonce == q2[i].nonce
    ensures Similar(q1[i + 1..], q2[i + 1..])
  {
    if i > 0 { assert q1[1..][i - 1].(acks := []) == q2[1..][i - 1].(acks := []); }
    var r1, r2 := q1[i + 1..], q2[i + 1..];
    forall j | 0 <= j < |r1| ensures r1[j].(acks := []) == r2[j].(acks := []) {
      assert r1[j] == q1[1..][i + j] && r2[j] == q2[1..][i + j];
    }
  }

  lemma AlikeLookups(q1: seq<Echo>, q2: seq<Echo>, nonce: Codes, line: Codes)
    requires Alike(q1, q2)
    ensures |q1| == |q2| && Nonces(q1) == Nonces(q2)
    ensures IndexOfNonce(q1, nonce) == IndexOfNonce(q2, nonce) && IndexOfLine(q1, line) == IndexOfLine(q2, line)
  {
    hide IndexOfNonce, IndexOfLine, Alike, Nonces;
    AlikeSize(q1, q2);
    forall i | 0 <= i < |q1| ensures q1[i].nonce == q2[i].nonce && q1[i].line == q2[i].line {
      AlikeAt(q1, q2, i);
    }
    assert IndexOfNonce(q1, nonce) == IndexOfNonce(q2, nonce);
    assert IndexOfLine(q1, line) == IndexOfLine(q2, line);
    assert forall n :: n in Nonces(q1) <==> n in Nonces(q2);
  }

  lemma AlikeSize(q1: seq<Echo>, q2: seq<Echo>)
    requires Alike(q1, q2)
    ensures |q1| == |q2|
  {
  }

  lemma {:induction false} SimilarExpiry(q1: seq<Echo>, q2: seq<Echo>, now: int)
    requires Similar(q1, q2)
    ensures var gone := (e: Echo) => e.Expired(now);
      && Similar(Kept(q1, gone), Kept(q2, gone))
      && Bytes(FlushAll(Gone(q1, gone))) == Bytes(FlushAll(Gone(q2, gone)))
      && Sources(FlushAll(Gone(q1, gone))) == Sources(FlushAll(Gone(q2, gone)))
  {
    if q1 != [] {
      var gone := (e: Echo) => e.Expired(now);
      assert q1[0].(acks := []) == q2[0].(acks := []);
      SimilarExpiry(q1[1..], q2[1..], now);
      FlushFirst(q1, gone);
      FlushFirst(q2, gone);
    }
  }

  lemma FlushFirst(q: seq<Echo>, gone: Echo -> bool)
    requires q != []
    ensures Bytes(FlushAll(Gone(q, gone))) == (if gone(q[0]) then q[0].bytes else []) + Bytes(FlushAll(Gone(q[1..], gone)))
    ensures Sources(FlushAll(Gone(q, gone))) == (if gone(q[0]) then q[0].bytes else []) + Sources(FlushAll(Gone(q[1..], gone)))
  {
    var rest := Gone(q[1..], gone);
    if gone(q[0]) {
      assert Gone(q, gone)[1..] == rest;
      Joined(Flushed(q[0]), FlushAll(rest));
      if q[0].HasContent() { One(Plain(q[0].bytes, q[0].acks)); }
    } else {
      assert Gone(q, gone) == rest;
    }
  }

  // ------------------------------------------------------------ acknowledgments do not steer

  lemma LogLevel(s1: Filter, s2: Filter, w1: Write, w2: Write)
    requires s1.armed == s2.armed && s1.now == s2.now && w1.Write? && w2.Write?
    requires Bytes(s1.log) + w1.bytes == Bytes(s2.log) + w2.bytes
    requires Sources(s1.log) + w1.source == Sources(s2.log) + w2.source
    ensures Level(s1.Log(w1), s2.Log(w2))
  {
    Joined(s1.log, [w1]); Joined(s2.log, [w2]);
    One(w1); One(w2);
  }

  lemma ExpireSame(s1: Filter, s2: Filter)
    requires Same(s1, s2)
    ensures Same(Expire(s1), Expire(s2))
  {
    var gone := (e: Echo) => e.Expired(s1.now);
    SimilarExpiry(s1.queue, s2.queue, s1.now);
    Joined(s1.log, FlushAll(Gone(s1.queue, gone)));
    Joined(s2.log, FlushAll(Gone(s2.queue, gone)));
  }

  lemma ExpireShrinks(s: Filter)
    ensures |Expire(s).queue| <= |s.queue| && Expire(s).now == s.now && Expire(s).armed == s.armed
  {
    KeptShrinks(s.queue, (e: Echo) => e.Expired(s.now));
  }

  lemma SameSize(q1: seq<Echo>, q2: seq<Echo>)
    requires Similar(q1, q2)
    ensures |q1| == |q2|
  {
  }

  lemma AcksOnly(e1: Echo, e2: Echo)
    requires e1.(acks := []) == e2.(acks := [])
    ensures e2 == e1.(acks := e2.acks)
  {
  }

  lemma WakeSame(q1: seq<Echo>, q2: seq<Echo>, now: int)
    requires Similar(q1, q2) && q1 != []
    ensures q2 != [] && Wake(q1[0], now).(acks := []) == Wake(q2[0], now).(acks := [])
  {
    assert q1[0].(acks := []) == q2[0].(acks := []);
  }

  /** Callbacks never change what feeding does. */
  lemma FeedSame(u: Codec, s1: Filter, s2: Filter, bytes: Codes, x: seq<nat>, y: seq<nat>)
    requires Same(s1, s2)
    ensures Same(Feed(u, s1, bytes, x), Feed(u, s2, bytes, y))
    decreases |s1.queue|, 3
  {
    hide Forward, Bytes, Sources, Similar, Level, Alike, Expire;
    if bytes == [] {
      LogLevel(s1, s2, Plain([], x), Plain([], y)) by { LevelLogs(s1, s2, []); }
    } else {
      var t1, t2 := Expire(s1), Expire(s2);
      ExpireSame(s1, s2);
      ExpireShrinks(s1);
      ExpireShrinks(s2);
      LevelLogs(s1, s2, []);
      SameSize(t1.queue, t2.queue);
      LevelLogs(t1, t2, bytes);
      if t1.queue == [] {
        LogLevel(t1, t2, Plain(bytes, x), Plain(bytes, y));
      } else {
        var w1, w2 := Wake(t1.queue[0], s1.now), Wake(t2.queue[0], s2.now);
        WakeSame(t1.queue, t2.queue, s1.now);
        SimilarAlike(t1.queue, t2.queue);
        var held := w1.bytes + bytes;
        assert [] + held == held;
        AcksOnly(w1, w2);
        LevelLogs(t1, t2, []);
        Resume(u, t1, t2, w1.(acks := w1.acks + x), w2.(acks := w2.acks + y), [], held);
      }
    }
  }

  lemma LevelLogs(s1: Filter, s2: Filter, more: Codes)
    requires Level(s1, s2)
    ensures s1.armed == s2.armed && s1.now == s2.now
    ensures Bytes(s1.log) + more == Bytes(s2.log) + more && Sources(s1.log) + more == Sources(s2.log) + more
    ensures more == [] ==> Bytes(s1.log) + more == Bytes(s2.log) && Sources(s1.log) + more == Sources(s2.log)
  {
    assert Bytes(s2.log) + [] == Bytes(s2.log) && Sources(s2.log) + [] == Sources(s2.log);
  }

  lemma ForwardStops(u: Codec, s: Filter, head: Echo, held: Codes, prefix: Codes, rest: Codes, scan: Scan)
    requires s.queue != [] && scan == Leading(head.protocol, held, head.nonce.Some?, Nonces(s.queue))
    requires held == prefix + rest && |prefix| == scan.length && !scan.stop.Running?
    ensures Forward(u, s, head, held) ==
      var through := if scan.stop.Reply? then IndexOfNonce(s.queue, scan.stop.nonce) else 0;
      Continue(u, s.(queue := s.queue[through + 1..]), head.acks, Plain(prefix, []), rest)
  {
    hide Leading, Match, Continue, Surrender, Nonces, IndexOfNonce;
    assert held[..scan.length] == prefix && held[scan.length..] == rest;
  }

  function RunningFrom(u: Codec, s: Filter, head: Echo, held: Codes, prefix: Codes, rest: Codes, protocol: Option<Protocol>): Filter
    requires s.queue != []
  {
    var kept := head.(protocol := protocol, forwarded := head.forwarded + |prefix|);
    if |prefix| > 0 && head.forwarded + |prefix| > MAX_ECHO_BYTES then Surrender(s, head, held)
    else if |prefix| > 0 && rest == [] then
      s.(queue := [kept.(bytes := [], acks := [])] + s.queue[1..]).Log(Plain(prefix, head.acks))
    else Match(u, if |prefix| > 0 then s.Log(Plain(prefix, [])) else s, kept, rest)
  }

  lemma ForwardRuns(u: Codec, s: Filter, head: Echo, held: Codes, prefix: Codes, rest: Codes, scan: Scan)
    requires s.queue != [] && scan == Leading(head.protocol, held, head.nonce.Some?, Nonces(s.queue))
    requires held == prefix + rest && |prefix| == scan.length && scan.stop.Running?
    ensures Forward(u, s, head, held) == RunningFrom(u, s, head, held, prefix, rest, scan.protocol)
  {
    hide Leading, Match, Continue, Surrender, Nonces, IndexOfNonce;
    assert held[..scan.length] == prefix && held[scan.length..] == rest;
  }

  /** The two states agree once P has been written on the left. */
  ghost predicate Behind(s1: Filter, s2: Filter, P: Codes) {
    && s1.armed == s2.armed && s1.now == s2.now
    && Bytes(s1.log) + P == Bytes(s2.log) && Sources(s1.log) + P == Sources(s2.log)
  }

  /** Handing the head a scanned part P and then R is the same as handing it P + R. */
  lemma Resume(u: Codec, s1: Filter, s2: Filter, h1: Echo, h2: Echo, P: Codes, R: Codes)
    requires Alike(s1.queue, s2.queue) && Behind(s1, s2, P)
    requires h2.(bytes := []) == h1.(bytes := [], acks := h2.acks, protocol := h2.protocol, forwarded := h1.forwarded + |P|)
    requires R != []
    requires Leading(h1.protocol, P + R, h1.nonce.Some?, Nonces(s1.queue))
          == Shifted(|P|, Leading(h2.protocol, R, h1.nonce.Some?, Nonces(s1.queue)))
    requires P != [] ==> h1.forwarded + |P| + |R| <= CHUNK_BUDGET
    ensures Same(Forward(u, s1, h1, P + R), Forward(u, s2, h2, R))
    decreases |s1.queue|, 2
  {
    hide Same, Forward, RunningFrom, Leading, Continue, Bytes, Sources, Similar, Alike, Behind, Nonces, IndexOfNonce;
    AlikeLookups(s1.queue, s2.queue, [], []);
    NonEmpty(s1.queue, s2.queue);
    var scan := Leading(h2.protocol, R, h2.nonce.Some?, Nonces(s2.queue));
    var prefix, rest := R[..scan.length], R[scan.length..];
    CutInThree(P, R, scan.length);
    if !scan.stop.Running? {
      ForwardStops(u, s1, h1, P + R, P + prefix, rest, Shifted(|P|, scan));
      ForwardStops(u, s2, h2, R, prefix, rest, scan);
      ResumeStopped(u, s1, s2, h1.acks, h2.acks, P, prefix, rest, scan);
    } else {
      ForwardRuns(u, s1, h1, P + R, P + prefix, rest, Shifted(|P|, scan));
      ForwardRuns(u, s2, h2, R, prefix, rest, scan);
      ResumeMatching(u, s1, s2, h1, h2, P, prefix, rest, scan.protocol);
    }
  }

  lemma CutInThree(P: Codes, R: Codes, n: nat)
    requires n <= |R|
    ensures R == R[..n] + R[n..] && P + R == (P + R[..n]) + R[n..]
  {
  }

  lemma NonEmpty(q1: seq<Echo>, q2: seq<Echo>)
    requires Alike(q1, q2)
    ensures q1 != [] && q2 != []
  {
  }

  lemma ResumeStopped(u: Codec, s1: Filter, s2: Filter, x: seq<nat>, y: seq<nat>, P: Codes, prefix: Codes, rest: Codes, scan: Scan)
    requires Alike(s1.queue, s2.queue) && Behind(s1, s2, P)
    requires !scan.stop.Running? && (scan.stop.Reply? ==> scan.stop.nonce in Nonces(s1.queue))
    ensures
      var through := if scan.stop.Reply? then IndexOfNonce(s1.queue, scan.stop.nonce) else 0;
      && through < |s1.queue| == |s2.queue|
      && (scan.stop.Reply? ==> through == IndexOfNonce(s2.queue, scan.stop.nonce))
      && Same(Continue(u, s1.(queue := s1.queue[through + 1..]), x, Plain(P + prefix, []), rest),
              Continue(u, s2.(queue := s2.queue[through + 1..]), y, Plain(prefix, []), rest))
    decreases |s1.queue|, 1, 1
  {
    hide Same, Continue, Bytes, Sources, Similar, Alike, IndexOfNonce;
    AlikeLookups(s1.queue, s2.queue, if scan.stop.Reply? then scan.stop.nonce else [], []);
    NonEmpty(s1.queue, s2.queue);
    Reassociated(s1, s2, P, prefix);
    var through := if scan.stop.Reply? then IndexOfNonce(s1.queue, scan.stop.nonce) else 0;
    AlikeAt(s1.queue, s2.queue, through);
    ContinueSame(u, s1.(queue := s1.queue[through + 1..]), s2.(queue := s2.queue[through + 1..]), x, y,
                 Plain(P + prefix, []), Plain(prefix, []), rest);
  }

  lemma Reassociated(s1: Filter, s2: Filter, P: Codes, prefix: Codes)
    requires Behind(s1, s2, P)
    ensures Bytes(s1.log) + (P + prefix) == Bytes(s2.log) + prefix
    ensures Sources(s1.log) + (P + prefix) == Sources(s2.log) + prefix
  {
  }

  lemma ResumeMatching(u: Codec, s1: Filter, s2: Filter, h1: Echo, h2: Echo, P: Codes, prefix: Codes, rest: Codes, protocol: Option<Protocol>)
    requires Alike(s1.queue, s2.queue) && Behind(s1, s2, P) && s1.queue != [] && s2.queue != []
    requires h2.(bytes := []) == h1.(bytes := [], acks := h2.acks, protocol := h2.protocol, forwarded := h1.forwarded + |P|)
    requires prefix + rest != []
    requires P != [] ==> h1.forwarded + |P| + |prefix + rest| <= CHUNK_BUDGET
    ensures Same(RunningFrom(u, s1, h1, P + (prefix + rest), P + prefix, rest, protocol),
                 RunningFrom(u, s2, h2, prefix + rest, prefix, rest, protocol))
    decreases |s1.queue|, 1, 1
  {
    hide Match, Bytes, Sources, Similar, Alike, Level;
    var k1 := h1.(protocol := protocol, forwarded := h1.forwarded + |P + prefix|);
    var k2 := h2.(protocol := protocol, forwarded := h2.forwarded + |prefix|);
    Reassociated(s1, s2, P, prefix);
    if |P + prefix| > 0 && h1.forwarded + |P + prefix| > MAX_ECHO_BYTES {
      SurrenderSame(s1, s2, h1, h2, P, prefix + rest);
    } else if rest == [] {
      var c1, c2 := k1.(bytes := [], acks := []), k2.(bytes := [], acks := []);
      HeadSame(s1.queue, s2.queue, c1, c2);
      LogLevel(s1.(queue := [c1] + s1.queue[1..]), s2.(queue := [c2] + s2.queue[1..]),
               Plain(P + prefix, h1.acks), Plain(prefix, h2.acks));
    } else {
      PrefixLevel(s1, s2, P, prefix);
      MatchSame(u, if |P + prefix| > 0 then s1.Log(Plain(P + prefix, [])) else s1,
                if |prefix| > 0 then s2.Log(Plain(prefix, [])) else s2, k1, k2, rest);
    }
  }

  lemma PrefixLevel(s1: Filter, s2: Filter, P: Codes, prefix: Codes)
    requires Behind(s1, s2, P)
    ensures Level(if |P| + |prefix| > 0 then s1.Log(Plain(P + prefix, [])) else s1,
                  if |prefix| > 0 then s2.Log(Plain(prefix, [])) else s2)
  {
    hide Bytes, Sources;
    if |P| + |prefix| > 0 { Joined(s1.log, [Plain(P + prefix, [])]); One(Plain(P + prefix, [])); }
    if |prefix| > 0 { Joined(s2.log, [Plain(prefix, [])]); One(Plain(prefix, [])); }
    Reassociated(s1, s2, P, prefix);
    assert |P| == 0 ==> Bytes(s1.log) + P == Bytes(s1.log) && Sources(s1.log) + P == Sources(s1.log);
    assert |prefix| == 0 ==> Bytes(s2.log) + prefix == Bytes(s2.log) && Sources(s2.log) + prefix == Sources(s2.log);
  }

  lemma HeadSame(q1: seq<Echo>, q2: seq<Echo>, k1: Echo, k2: Echo)
    requires Alike(q1, q2) && k1.(acks := []) == k2.(acks := [])
    ensures q1 != [] && q2 != [] && Similar([k1] + q1[1..], [k2] + q2[1..])
  {
    forall i | 0 <= i < |q1| ensures ([k1] + q1[1..])[i].(acks := []) == ([k2] + q2[1..])[i].(acks := []) {
      if i > 0 { assert q1[1..][i - 1].(acks := []) == q2[1..][i - 1].(acks := []); }
    }
  }

  lemma SurrenderSame(s1: Filter, s2: Filter, h1: Echo, h2: Echo, P: Codes, held: Codes)
    requires Behind(s1, s2, P)
    ensures Same(Surrender(s1, h1, P + held), Surrender(s2, h2, held))
  {
    Reassociated(s1, s2, P, held);
    LogLevel(s1.(queue := []), s2.(queue := []), Plain(P + held, h1.acks), Plain(held, h2.acks));
  }

  lemma MatchSame(u: Codec, s1: Filter, s2: Filter, h1: Echo, h2: Echo, held: Codes)
    requires Alike(s1.queue, s2.queue) && Level(s1, s2) && s1.queue != [] && s2.queue != []
    requires h1.(bytes := [], acks := []) == h2.(bytes := [], acks := [])
    ensures Same(Match(u, s1, h1, held), Match(u, s2, h2, held))
    decreases |s1.queue|, 1, 0
  {
    hide HasNonEchoControl, Normalize, Continue, Bytes, Sources, Similar, Alike, Shown, IndexOf, IndexOfLine, Surrender;
    var end := IndexOf(held, LF);
    var line := Normalize(u.decode(held[..end]));
    var text := if line.Some? then line.value.text else [];
    AlikeLookups(s1.queue, s2.queue, [], text);
    LevelLogs(s1, s2, []);
    SurrenderSame(s1, s2, h1, h2, [], held);
    assert [] + held == held;
    HeadSame(s1.queue, s2.queue, h1.(bytes := held), h2.(bytes := held));
    var i := if line.Some? then IndexOfLine(s1.queue, text) else |s1.queue|;
    if end < |held| && i < |s1.queue| {
      AlikeAt(s1.queue, s2.queue, i);
      var bytes := u.encode(Shown(s1.queue[i].visible, line.value));
      var w := Write(bytes, held[..end + 1], [], Some(Swap(s1.queue[i].id, held[..end + 1])));
      ContinueSame(u, s1.(queue := s1.queue[i + 1..]), s2.(queue := s2.queue[i + 1..]), h1.acks, h2.acks, w, w,
                   held[end + 1..]);
    }
  }

  lemma ContinueSame(u: Codec, s1: Filter, s2: Filter, x: seq<nat>, y: seq<nat>, w1: Write, w2: Write, rest: Codes)
    requires Similar(s1.queue, s2.queue) && s1.armed == s2.armed && s1.now == s2.now && w1.Write? && w2.Write?
    requires Bytes(s1.log) + w1.bytes == Bytes(s2.log) + w2.bytes
    requires Sources(s1.log) + w1.source == Sources(s2.log) + w2.source
    ensures Same(Continue(u, s1, x, w1, rest), Continue(u, s2, y, w2, rest))
    decreases |s1.queue|, 4
  {
    hide Feed, Bytes, Sources, Similar, Level;
    SameSize(s1.queue, s2.queue);
    if rest == [] || s1.queue == [] {
      var v1 := w1.(bytes := w1.bytes + rest, source := w1.source + rest, acks := x);
      var v2 := w2.(bytes := w2.bytes + rest, source := w2.source + rest, acks := y);
      assert Bytes(s1.log) + v1.bytes == Bytes(s1.log) + w1.bytes + rest == Bytes(s2.log) + v2.bytes;
      assert Sources(s1.log) + v1.source == Sources(s1.log) + w1.source + rest == Sources(s2.log) + v2.source;
      LogLevel(s1, s2, v1, v2);
    } else {
      LogLevel(s1, s2, w1, w2);
      FeedSame(u, s1.Log(w1), s2.Log(w2), rest, x, y);
    }
  }

  // ------------------------------------------------------------ one chunk or two

  ghost predicate Live(queue: seq<Echo>, now: int) {
    forall i :: 0 <= i < |queue| ==> !queue[i].Expired(now)
  }

  lemma ExpireLive(s: Filter)
    requires Live(s.queue, s.now)
    ensures Expire(s) == s
  {
    NoneGone(s.queue, (e: Echo) => e.Expired(s.now));
    assert s.log + [] == s.log;
  }

  lemma NoneGone(queue: seq<Echo>, gone: Echo -> bool)
    requires forall i :: 0 <= i < |queue| ==> !gone(queue[i])
    ensures Kept(queue, gone) == queue && Gone(queue, gone) == []
  {
    if queue != [] { NoneGone(queue[1..], gone); }
  }

  lemma NoneLeft(queue: seq<Echo>, gone: Echo -> bool)
    ensures forall i :: 0 <= i < |Kept(queue, gone)| ==> !gone(Kept(queue, gone)[i])
  {
    if queue != [] { NoneLeft(queue[1..], gone); }
  }

  /** Expectations behind the head have seen nothing yet. */
  ghost predicate Waiting(queue: seq<Echo>) { queue != [] ==> AllIdle(queue[1..]) }

  lemma KeptWaiting(queue: seq<Echo>, gone: Echo -> bool)
    requires Waiting(queue)
    ensures Waiting(Kept(queue, gone))
    ensures var kept := Kept(queue, gone);
      kept != [] ==> kept[0] == queue[0] || Idle(kept[0])
  {
    if queue != [] {
      KeptIdle(queue[1..], gone);
      if !gone(queue[0]) { assert Kept(queue, gone)[1..] == Kept(queue[1..], gone); }
    }
  }

  function Load(queue: seq<Echo>): nat {
    if queue == [] then 0 else queue[0].forwarded + |queue[0].bytes|
  }

  /** Feeding a chunk in two parts leaves the terminal and the queue as feeding it
      whole does, provided the head's protocol budget covers it. */
  lemma FeedChunks(u: Codec, s: Filter, a: Codes, b: Codes, x: seq<nat>, y: seq<nat>, z: seq<nat>)
    requires Waiting(s.queue) && Load(s.queue) + |a| + |b| <= CHUNK_BUDGET
    ensures Same(Feed(u, Feed(u, s, a, x), b, y), Feed(u, s, a + b, z))
    decreases |s.queue|, 3
  {
    hide Forward, Bytes, Sources, Similar, Level, Expire;
    if a == [] {
      assert a + b == b;
      LoggedEmpty(s, x);
      FeedSame(u, s.Log(Plain([], x)), s, b, y, z);
    } else if b == [] {
      assert a + b == a;
      SameRefl(s);
      FeedSame(u, s, s, a, x, z);
      LoggedEmpty(Feed(u, s, a, x), y);
      SameTrans(Feed(u, s, a, x).Log(Plain([], y)), Feed(u, s, a, x), Feed(u, s, a, z));
    } else {
      var s1 := Expire(s);
      ExpireShrinks(s);
      ExpiredIsLive(s);
      if s1.queue == [] {
        TwoPlain(u, s1, a, b, x, y, z);
      } else {
        var woken := Wake(s1.queue[0], s.now);
        var h1, h2 := woken.(acks := woken.acks + x), woken.(acks := woken.acks + z);
        assert woken.bytes + (a + b) == (woken.bytes + a) + b;
        ForwardChunks(u, s1, h1, h2, woken.bytes + a, b, y);
      }
    }
  }

  lemma LoggedEmpty(s: Filter, x: seq<nat>)
    ensures Same(s.Log(Plain([], x)), s)
  {
    Joined(s.log, [Plain([], x)]);
    One(Plain([], x));
  }

  lemma SameRefl(s: Filter)
    ensures Same(s, s)
  {
  }

  lemma SameTrans(s1: Filter, s2: Filter, s3: Filter)
    requires Same(s1, s2) && Same(s2, s3)
    ensures Same(s1, s3)
  {
    forall i | 0 <= i < |s1.queue| ensures s1.queue[i].(acks := []) == s3.queue[i].(acks := []) {
      assert s1.queue[i].(acks := []) == s2.queue[i].(acks := []) == s3.queue[i].(acks := []);
    }
  }

  lemma ExpiredIsLive(s: Filter)
    requires Waiting(s.queue)
    ensures var t := Expire(s);
      Live(t.queue, s.now) && Waiting(t.queue) && Load(t.queue) <= Load(s.queue)
  {
    NoneLeft(s.queue, (e: Echo) => e.Expired(s.now));
    KeptWaiting(s.queue, (e: Echo) => e.Expired(s.now));
  }

  lemma TwoPlain(u: Codec, s: Filter, a: Codes, b: Codes, x: seq<nat>, y: seq<nat>, z: seq<nat>)
    requires s.queue == [] && b != []
    ensures Same(Feed(u, s.Log(Plain(a, x)), b, y), s.Log(Plain(a + b, z)))
  {
    var t := s.Log(Plain(a, x));
    ExpireLive(t);
    Joined(s.log, [Plain(a, x)]); One(Plain(a, x));
    assert Bytes(s.log) + a + b == Bytes(s.log) + (a + b) && Sources(s.log) + a + b == Sources(s.log) + (a + b);
    LogLevel(t, s, Plain(b, y), Plain(a + b, z));
  }

  /** Feeding b to a queue whose awake head already holds some bytes. */
  lemma FeedAwake(u: Codec, s: Filter, b: Codes, y: seq<nat>)
    requires s.queue != [] && Live(s.queue, s.now) && !s.queue[0].retired && b != []
    ensures Feed(u, s, b, y) ==
      Forward(u, s, s.queue[0].(acks := s.queue[0].acks + y), s.queue[0].bytes + b)
  {
    hide Forward;
    ExpireLive(s);
  }

  /** A state whose head is awake and matches the queue it stands in. */
  ghost predicate Awake(s: Filter, head: Echo) {
    && s.queue != [] && Live(s.queue, s.now) && AllIdle(s.queue[1..]) && !head.retired && !head.Expired(s.now)
    && head.id == s.queue[0].id && head.line == s.queue[0].line
    && head.visible == s.queue[0].visible && head.nonce == s.queue[0].nonce
  }

  lemma ForwardChunks(u: Codec, s: Filter, h1: Echo, h2: Echo, H: Codes, b: Codes, y: seq<nat>)
    requires Awake(s, h1) && h2 == h1.(acks := h2.acks) && H != [] && b != []
    requires h1.forwarded + |H| + |b| <= CHUNK_BUDGET
    ensures Same(Feed(u, Forward(u, s, h1, H), b, y), Forward(u, s, h2, H + b))
    decreases |s.queue|, 2
  {
    hide Same, Forward, Feed, RunningFrom, Leading, Continue, Bytes, Sources, Live, AllIdle, Nonces, IndexOfNonce;
    var nonces := Nonces(s.queue);
    var scan := Leading(h1.protocol, H, h1.nonce.Some?, nonces);
    var prefix, rest := H[..scan.length], H[scan.length..];
    assert H == prefix + rest && H + b == prefix + (rest + b);
    LeadingGrows(h1.protocol, H, b, h1.nonce.Some?, nonces);
    if !scan.stop.Running? {
      var through := if scan.stop.Reply? then IndexOfNonce(s.queue, scan.stop.nonce) else 0;
      ForwardStops(u, s, h1, H, prefix, rest, scan);
      ForwardStops(u, s, h2, H + b, prefix, rest + b, scan);
      LeftLive(s.queue, s.now, through + 1);
      ContinueChunks(u, s.(queue := s.queue[through + 1..]), h1.acks, h2.acks, Plain(prefix, []), rest, b, y);
    } else {
      ForwardRuns(u, s, h1, H, prefix, rest, scan);
      RunningChunks(u, s, h1, h2, prefix, rest, b, y, scan.protocol);
    }
  }

  lemma LeftLive(queue: seq<Echo>, now: int, n: nat)
    requires queue != [] && Live(queue, now) && AllIdle(queue[1..]) && 1 <= n <= |queue|
    ensures Live(queue[n..], now) && AllIdle(queue[n..]) && Waiting(queue[n..]) && Load(queue[n..]) == 0
  {
    var q := queue[n..];
    assert forall i :: 0 <= i < |q| ==> q[i] == queue[1..][n - 1 + i];
    if q != [] { assert Idle(q[0]); }
  }

  lemma ContinueChunks(u: Codec, left: Filter, x: seq<nat>, z: seq<nat>, w: Write, rest: Codes, b: Codes, y: seq<nat>)
    requires w.Write? && b != [] && |rest| + |b| <= CHUNK_BUDGET
    requires Live(left.queue, left.now) && Waiting(left.queue) && Load(left.queue) == 0
    ensures Same(Feed(u, Continue(u, left, x, w, rest), b, y), Continue(u, left, z, w, rest + b))
    decreases |left.queue|, 4
  {
    hide Same, Feed, Bytes, Sources, Live;
    if left.queue == [] {
      LastChunks(u, left, x, z, w, rest, b, y);
    } else if rest == [] {
      var v := w.(bytes := w.bytes + rest, source := w.source + rest, acks := x);
      assert rest + b == b && w.bytes + [] == w.bytes && w.source + [] == w.source;
      RelogSame(left, v, w);
      FeedSame(u, left.Log(v), left.Log(w), b, y, z);
    } else {
      FeedChunks(u, left.Log(w), rest, b, x, y, z);
    }
  }

  lemma RelogSame(s: Filter, v: Write, w: Write)
    requires v.Write? && w.Write? && v.bytes == w.bytes && v.source == w.source
    ensures Same(s.Log(v), s.Log(w))
  {
    LogLevel(s, s, v, w);
  }

  lemma StraightThrough(u: Codec, s: Filter, b: Codes, y: seq<nat>)
    requires s.queue == [] && b != []
    ensures Feed(u, s, b, y) == s.Log(Plain(b, y))
  {
    ExpireLive(s);
  }

  /** With an empty queue every byte goes straight through. */
  lemma LastChunks(u: Codec, left: Filter, x: seq<nat>, z: seq<nat>, w: Write, rest: Codes, b: Codes, y: seq<nat>)
    requires w.Write? && b != [] && left.queue == []
    ensures Same(Feed(u, left.Log(w.(bytes := w.bytes + rest, source := w.source + rest, acks := x)), b, y),
                 left.Log(w.(bytes := w.bytes + (rest + b), source := w.source + (rest + b), acks := z)))
  {
    hide Bytes, Sources, Feed;
    var v := w.(bytes := w.bytes + rest, source := w.source + rest, acks := x);
    var t := left.Log(v);
    StraightThrough(u, t, b, y);
    Longer(left.log, v);
    assert Bytes(left.log) + (w.bytes + rest) + b == Bytes(left.log) + (w.bytes + (rest + b));
    assert Sources(left.log) + (w.source + rest) + b == Sources(left.log) + (w.source + (rest + b));
    LogLevel(t, left, Plain(b, y), w.(bytes := w.bytes + (rest + b), source := w.source + (rest + b), acks := z));
  }

  lemma SameSym(s1: Filter, s2: Filter)
    requires Same(s1, s2)
    ensures Same(s2, s1)
  {
  }

  /** The case where the scan of H ran to a quiet end with `rest` left over. */
  lemma RunningChunks(u: Codec, s: Filter, h1: Echo, h2: Echo, prefix: Codes, rest: Codes, b: Codes, y: seq<nat>,
                      protocol: Option<Protocol>)
    requires Awake(s, h1) && h2 == h1.(acks := h2.acks) && prefix + rest != [] && b != []
    requires h1.forwarded + |prefix + rest| + |b| <= CHUNK_BUDGET
    requires protocol.Some? ==> rest == []
    requires Leading(h1.protocol, prefix + rest, h1.nonce.Some?, Nonces(s.queue)) == Scan(|prefix|, protocol, Running)
    ensures Same(Feed(u, RunningFrom(u, s, h1, prefix + rest, prefix, rest, protocol), b, y),
                 Forward(u, s, h2, (prefix + rest) + b))
    decreases |s.queue|, 1, 5
  {
    hide Same, Forward, Feed, Match, Leading, Nonces, Awake, HasNonEchoControl, IndexOf;
    assert rest == [] ==> rest + b == b && prefix + rest == prefix;
    if rest == [] || (IndexOf(rest, LF) == |rest| && !HasNonEchoControl(rest)) {
      HoldingChunks(u, s, h1, h2, prefix, rest, b, y, protocol);
    } else {
      DecidedChunks(u, s, h1, h2, prefix, rest, b, y);
    }
  }

  lemma HoldingChunks(u: Codec, s: Filter, h1: Echo, h2: Echo, prefix: Codes, rest: Codes, b: Codes, y: seq<nat>,
                      protocol: Option<Protocol>)
    requires Awake(s, h1) && h2 == h1.(acks := h2.acks) && prefix + rest != [] && b != []
    requires h1.forwarded + |prefix + rest| + |b| <= CHUNK_BUDGET
    requires Leading(h1.protocol, prefix + rest, h1.nonce.Some?, Nonces(s.queue)) == Scan(|prefix|, protocol, Running)
    requires rest == [] || (IndexOf(rest, LF) == |rest| && !HasNonEchoControl(rest))
    ensures Same(Feed(u, RunningFrom(u, s, h1, prefix + rest, prefix, rest, protocol), b, y),
                 Forward(u, s, h2, (prefix + rest) + b))
    decreases |s.queue|, 1, 4
  {
    hide Same, Forward, Feed, Match, Leading, Nonces, Live, AllIdle, HasNonEchoControl, IndexOf;
    var kept := h1.(protocol := protocol, forwarded := h1.forwarded + |prefix|);
    var s' := if |prefix| > 0 then s.Log(Plain(prefix, [])) else s;
    LeadingGrows(h1.protocol, prefix + rest, b, h1.nonce.Some?, Nonces(s.queue));
    assert (prefix + rest)[|prefix|..] == rest && (prefix + rest) + b == prefix + (rest + b);
    if rest == [] {
      assert rest + b == b && prefix + rest == prefix;
      ResumeHeld(u, s, s.Log(Plain(prefix, h1.acks)), h1.acks, h1, h2, kept.(bytes := [], acks := []), prefix, b, y);
    } else {
      MatchHolds(u, s', kept, rest);
      ResumeHeld(u, s, s', [], h1, h2, kept.(bytes := rest), prefix, b, y);
    }
  }

  lemma DecidedChunks(u: Codec, s: Filter, h1: Echo, h2: Echo, prefix: Codes, rest: Codes, b: Codes, y: seq<nat>)
    requires Awake(s, h1) && h2 == h1.(acks := h2.acks) && rest != [] && b != []
    requires h1.forwarded + |prefix + rest| + |b| <= CHUNK_BUDGET
    requires Leading(h1.protocol, prefix + rest, h1.nonce.Some?, Nonces(s.queue)) == Scan(|prefix|, None, Running)
    requires IndexOf(rest, LF) < |rest| || HasNonEchoControl(rest)
    ensures Same(Feed(u, RunningFrom(u, s, h1, prefix + rest, prefix, rest, None), b, y),
                 Forward(u, s, h2, (prefix + rest) + b))
    decreases |s.queue|, 1, 4
  {
    hide Same, Forward, Feed, Match, Leading, Nonces, Live, AllIdle, HasNonEchoControl, Partial, IndexOf;
    var kept := h1.(protocol := None, forwarded := h1.forwarded + |prefix|);
    var s' := if |prefix| > 0 then s.Log(Plain(prefix, [])) else s;
    LeadingGrows(h1.protocol, prefix + rest, b, h1.nonce.Some?, Nonces(s.queue));
    assert (prefix + rest)[|prefix|..] == rest && (prefix + rest) + b == prefix + (rest + b);
    NotPartial(rest);
    ScanStops(h1.protocol, prefix + rest, h1.nonce.Some?, Nonces(s.queue));
    LeadingStops(rest, b, h1.nonce.Some?, Nonces(s.queue));
    ForwardRuns(u, s, h2, (prefix + rest) + b, prefix, rest + b, Scan(|prefix|, None, Running));
    AwakeLogged(s, h1, s', kept);
    MatchChunks(u, s', kept, h2.(protocol := None, forwarded := h2.forwarded + |prefix|), rest, b, y);
  }

  lemma AwakeLogged(s: Filter, head: Echo, s': Filter, head': Echo)
    requires Awake(s, head) && s'.queue == s.queue && s'.now == s.now
    requires head' == head.(bytes := head'.bytes, acks := head'.acks, protocol := head'.protocol, forwarded := head'.forwarded)
    ensures Awake(s', head')
  {
  }

  lemma MatchHolds(u: Codec, s: Filter, head: Echo, held: Codes)
    requires s.queue != [] && IndexOf(held, LF) == |held| && !HasNonEchoControl(held) && |held| <= MAX_ECHO_BYTES
    ensures Match(u, s, head, held) == s.(queue := [head.(bytes := held)] + s.queue[1..])
  {
    hide HasNonEchoControl, IndexOf;
    assert held[..|held|] == held;
  }

  lemma NotPartial(a: Codes)
    requires IndexOf(a, LF) < |a| || HasNonEchoControl(a)
    ensures !Partial(a)
  {
    if Partial(a) { PartialIsQuiet(a); }
  }

  lemma LeadingStops(a: Codes, b: Codes, owned: bool, nonces: set<Codes>)
    requires a != [] && !Partial(a)
    requires Leading(None, a, owned, nonces).length == 0
    ensures Leading(None, a + b, owned, nonces) == Scan(0, None, Running)
  {
    hide LeadLength, Partial;
    LeadStays(a, b);
  }

  /** A scan that ran out of protocol traffic would not move on a second try. */
  lemma {:induction false} ScanStops(p: Option<Protocol>, a: Codes, owned: bool, nonces: set<Codes>)
    ensures var scan := Leading(p, a, owned, nonces);
      scan.stop.Running? && scan.length < |a| ==> Leading(None, a[scan.length..], owned, nonces) == Scan(0, None, Running)
    decreases |a|
  {
    hide LeadMove, Leading;
    if a != [] {
      var m := LeadMove(p, a, owned, nonces);
      Unfolded(p, a, owned, nonces, m);
      if m.length == 0 {
        NoMoveInside(p, a, owned, nonces);
        assert a[0..] == a;
      } else if m.stop.Running? {
        var more := a[m.length..];
        ScanStops(m.protocol, more, owned, nonces);
        var rest := Leading(m.protocol, more, owned, nonces);
        assert more[rest.length..] == a[m.length + rest.length..];
      }
    } else {
      Nothing(p, owned, nonces);
    }
  }

  /** The head went on holding k; the next chunk resumes where the scan stopped. */
  lemma ResumeHeld(u: Codec, s: Filter, t: Filter, acks: seq<nat>, h1: Echo, h2: Echo, k: Echo, prefix: Codes, b: Codes, y: seq<nat>)
    requires Awake(s, h1) && h2 == h1.(acks := h2.acks) && b != []
    requires t == if |prefix| > 0 then s.Log(Plain(prefix, acks)) else s
    requires k.(bytes := [], acks := []) == h1.(bytes := [], acks := [], protocol := k.protocol, forwarded := h1.forwarded + |prefix|)
    requires h1.forwarded + |prefix| + |k.bytes| + |b| <= CHUNK_BUDGET
    requires Leading(h1.protocol, prefix + (k.bytes + b), h1.nonce.Some?, Nonces(s.queue))
          == Shifted(|prefix|, Leading(k.protocol, k.bytes + b, h1.nonce.Some?, Nonces(s.queue)))
    ensures Same(Feed(u, t.(queue := [k] + s.queue[1..]), b, y), Forward(u, s, h2, prefix + (k.bytes + b)))
    decreases |s.queue|, 1, 3
  {
    hide Same, Forward, Feed, Leading, Bytes, Sources, Nonces, AllIdle;
    var r := t.(queue := [k] + s.queue[1..]);
    var next := k.(acks := k.acks + y);
    KeptAwake(s, h1, k);
    FeedAwake(u, r, b, y);
    if |prefix| > 0 { Joined(s.log, [Plain(prefix, acks)]); One(Plain(prefix, acks)); }
    assert |prefix| == 0 ==> Bytes(s.log) + prefix == Bytes(s.log) && Sources(s.log) + prefix == Sources(s.log);
    assert r.queue[1..] == s.queue[1..];
    AcksOnly(next, k);
    Resume(u, s, r, h2, next, prefix, k.bytes + b);
    SameSym(Forward(u, s, h2, prefix + (k.bytes + b)), Forward(u, r, next, k.bytes + b));
  }

  lemma KeptAwake(s: Filter, h1: Echo, k: Echo)
    requires Awake(s, h1)
    requires k.(bytes := [], acks := []) == h1.(bytes := [], acks := [], protocol := k.protocol, forwarded := k.forwarded)
    ensures Live([k] + s.queue[1..], s.now) && !k.retired
    ensures k.id == h1.id && k.line == h1.line && k.visible == h1.visible && k.nonce == h1.nonce
  {
    assert forall i :: 1 <= i < |s.queue| ==> ([k] + s.queue[1..])[i] == s.queue[i];
  }

  lemma MatchChunks(u: Codec, s: Filter, k1: Echo, k2: Echo, R: Codes, b: Codes, y: seq<nat>)
    requires Awake(s, k1) && k2 == k1.(acks := k2.acks) && b != [] && |R| + |b| <= CHUNK_BUDGET
    requires IndexOf(R, LF) < |R| || HasNonEchoControl(R)
    ensures Same(Feed(u, Match(u, s, k1, R), b, y), Match(u, s, k2, R + b))
    decreases |s.queue|, 1, 1
  {
    hide Same, Feed, Continue, HasNonEchoControl, Normalize, Shown, IndexOf, IndexOfLine, Live, AllIdle;
    var end := IndexOf(R, LF);
    SurrenderChunks(u, s, k1, k2, R, b, y);
    LineStays(R, b);
    if end == |R| {
      assert R[..end] == R;
      NoisyLine(R, b);
    } else {
      var line := Normalize(u.decode(R[..end]));
      var i := if line.Some? then IndexOfLine(s.queue, line.value.text) else |s.queue|;
      if !HasNonEchoControl(R[..end]) && i < |s.queue| {
        assert (R + b)[..end + 1] == R[..end + 1] && (R + b)[end + 1..] == R[end + 1..] + b;
        LeftLive(s.queue, s.now, i + 1);
        ContinueChunks(u, s.(queue := s.queue[i + 1..]), k1.acks, k2.acks,
                       Write(u.encode(Shown(s.queue[i].visible, line.value)), R[..end + 1], [],
                             Some(Swap(s.queue[i].id, R[..end + 1]))),
                       R[end + 1..], b, y);
      }
    }
  }

  lemma LineStays(R: Codes, b: Codes)
    ensures IndexOf(R, LF) < |R| ==> IndexOf(R + b, LF) == IndexOf(R, LF) && (R + b)[..IndexOf(R, LF)] == R[..IndexOf(R, LF)]
  {
    hide IndexOf;
    var i, j := IndexOf(R, LF), IndexOf(R + b, LF);
    if i < |R| {
      assert (R + b)[i] == LF;
      assert j < |R| ==> (R + b)[j] == R[j];
    }
  }

  lemma NoisyLine(R: Codes, b: Codes)
    requires HasNonEchoControl(R) && IndexOf(R, LF) == |R|
    ensures HasNonEchoControl((R + b)[..IndexOf(R + b, LF)])
  {
    hide IndexOf;
    var j := IndexOf(R + b, LF);
    assert forall i :: 0 <= i < |R| ==> (R + b)[i] == R[i];
    assert (R + b)[..j] == R + b[..j - |R|];
    NoisyGrows(R, b[..j - |R|]);
  }

  lemma SurrenderChunks(u: Codec, s: Filter, k1: Echo, k2: Echo, R: Codes, b: Codes, y: seq<nat>)
    requires b != []
    ensures Same(Feed(u, Surrender(s, k1, R), b, y), Surrender(s, k2, R + b))
  {
    hide Same, Feed;
    assert [] + R == R && [] + (R + b) == R + b;
    LastChunks(u, s.(queue := []), k1.acks, k2.acks, Plain([], []), R, b, y);
  }

  // ------------------------------------------------------------ any number of chunks

  function Whole(chunks: seq<Codes>): Codes {
    if chunks == [] then [] else Whole(chunks[..|chunks| - 1]) + chunks[|chunks| - 1]
  }

  function FeedEach(u: Codec, s: Filter, chunks: seq<Codes>): Filter {
    if chunks == [] then s else Feed(u, FeedEach(u, s, chunks[..|chunks| - 1]), chunks[|chunks| - 1], [])
  }

  lemma {:induction false} EveryChunking(u: Codec, s: Filter, chunks: seq<Codes>)
    requires Waiting(s.queue) && Load(s.queue) + |Whole(chunks)| <= CHUNK_BUDGET
    ensures Same(FeedEach(u, s, chunks), Feed(u, s, Whole(chunks), []))
  {
    hide Same, Feed;
    if chunks == [] {
      NothingFed(u, s);
    } else {
      var front, last := chunks[..|chunks| - 1], chunks[|chunks| - 1];
      var t := Feed(u, s, Whole(front), []);
      EveryChunking(u, s, front);
      FeedSame(u, FeedEach(u, s, front), t, last, [], []);
      FeedChunks(u, s, Whole(front), last, [], [], []);
      SameTrans(FeedEach(u, s, chunks), Feed(u, t, last, []), Feed(u, s, Whole(chunks), []));
    }
  }

  lemma NothingFed(u: Codec, s: Filter)
    ensures Same(s, Feed(u, s, [], []))
  {
    LoggedEmpty(s, []);
    SameSym(s.Log(Plain([], [])), s);
  }

  /** Chunk boundaries are invisible: two ways of cutting the same output give the
      terminal the same bytes and leave the same queue. */
  lemma ChunkingIsInvisible(u: Codec, s: Filter, chunks: seq<Codes>, chunks': seq<Codes>)
    requires Waiting(s.queue) && Whole(chunks) == Whole(chunks')
    requires Load(s.queue) + |Whole(chunks)| <= CHUNK_BUDGET
    ensures Same(FeedEach(u, s, chunks), FeedEach(u, s, chunks'))
  {
    hide Same, Feed;
    EveryChunking(u, s, chunks);
    EveryChunking(u, s, chunks');
    var whole := Feed(u, s, Whole(chunks), []);
    SameSym(FeedEach(u, s, chunks'), whole);
    SameTrans(FeedEach(u, s, chunks), whole, FeedEach(u, s, chunks'));
  }

  // ------------------------------------------------------------ and no further

  /** However the output is cut, a bounded amount of it leaves the same terminal. */
  ghost predicate Invisible(bound: nat) {
    forall u: Codec, s: Filter, chunks: seq<Codes>, chunks': seq<Codes> |
      Waiting(s.queue) && Whole(chunks) == Whole(chunks') && Load(s.queue) + |Whole(chunks)| <= bound ::
        Same(FeedEach(u, s, chunks), FeedEach(u, s, chunks'))
  }

  predicate Inert(bytes: Codes) { forall k | 0 <= k < |bytes| :: bytes[k] !in {7, 24, 26, ESC, 92} }

  /** Inside a string nothing but its end matters; only its first 256 bytes are kept. */
  lemma {:induction false} InsideString(prefix: Codes, bytes: Codes, owned: bool, nonces: set<Codes>)
    requires Inert(bytes) && |prefix| <= 256
    ensures var scan := Leading(Some(Protocol(Osc, false, prefix)), bytes, owned, nonces);
      && scan.length == |bytes| && scan.stop.Running? && scan.protocol.Some?
      && scan.protocol.value.kind.Osc? && !scan.protocol.value.escaped
      && prefix <= scan.protocol.value.prefix && |scan.protocol.value.prefix| <= 256
    decreases |bytes|
  {
    hide Leading;
    var p := Protocol(Osc, false, prefix);
    if bytes == [] {
      Nothing(Some(p), owned, nonces);
    } else {
      var next := Protocol(Osc, false, Extended(p, bytes[0]));
      var m := Move(1, Some(next), Running);
      assert bytes[0] != ESC && LeadMove(Some(p), bytes, owned, nonces) == m;
      Unfolded(Some(p), bytes, owned, nonces, m);
      InsideString(next.prefix, bytes[1..], owned, nonces);
    }
  }

  const NONCE: Codes := Repeat(48, 32)

  function Header(): Codes { Ascii("6973;RP;") + NONCE + [59] }

  lemma HeaderIsReply(prefix: Codes)
    requires Header() <= prefix
    ensures |Header()| == 41 && Inert(Header()) && ReplyNonce(Osc, prefix) == Some(NONCE)
  {
    var h := Header();
    assert prefix[..41] == h;
    assert prefix[..8] == h[..8] == Ascii("6973;RP;") && prefix[8..40] == h[8..40] == NONCE && prefix[40] == h[40];
  }

  /** A reply so long that its beginning alone exceeds what the head may forward. */
  function LongReply(): Codes { Header() + Repeat(48, 65_535 - |Header()|) }

  function ProbeLine(): Codes { Ascii("RP;") + NONCE + Ascii(";") }

  function Asked(): Echo {
    Echo(0, ProbeLine(), None, [], [], ECHO_WAIT_MS, None, 0, Some(NONCE), LATE_PROBE_ECHO_MS, false)
  }

  function Ordinary(): Echo { Echo(1, Ascii("ls"), None, [], [], ECHO_WAIT_MS, None, 0, None, 0, false) }

  /** A probe's expectation and then a command's, as arming them leaves the filter. */
  function TwoAsked(): Filter {
    Filter([Asked(), Ordinary()], [], [Armed(ProbeLine(), None), Armed(Ascii("ls"), None)], 0)
  }

  lemma TwoAskedIsReached()
    ensures TwoAsked() == Expect(Expect(Filter([], [], [], 0), ProbeLine(), None, Some(NONCE)), Ascii("ls"), None, None)
  {
    hide NONCE, Ascii;
    var gone := (e: Echo) => e.nonce.None?;
    NonceIsOwned();
    var s1 := Expect(Filter([], [], [], 0), ProbeLine(), None, Some(NONCE));
    assert s1.queue == [Asked()] && s1.log == [] by { NoneFlushed([Asked()]); }
    NoneGone(s1.queue, gone);
    assert s1.log + [] == s1.log;
    NoneFlushed([Asked()] + [Ordinary()]);
  }

  lemma NoneFlushed(queue: seq<Echo>)
    ensures FlushAll(queue[..0]) == [] && queue[0..] == queue
  {
  }

  lemma NonceIsOwned()
    ensures OwnedNonce(ProbeLine(), None, Some(NONCE)) == Some(NONCE)
  {
    assert forall i :: 0 <= i < 32 ==> NONCE[i] == 48;
    assert ProbeLine() <= ProbeLine();
  }

  lemma LongReplyScans(owned: bool, nonces: set<Codes>)
    requires NONCE in nonces
    ensures var opening := [ESC, 93] + LongReply();
      && |opening| == 65_537
      && Leading(None, opening, owned, nonces).stop.Running? && Leading(None, opening, owned, nonces).length == 65_537
      && var whole := Leading(None, opening + [7], owned, nonces); whole.stop == Reply(NONCE) && whole.length == 65_538
  {
    hide Leading, Header, Repeat;
    var body := LongReply();
    var opening := [ESC, 93] + body;
    assert Header() <= Header();
    HeaderIsReply(Header());
    assert Inert(body) by { LongReplyInert(); }
    var start := Protocol(Osc, false, []);
    var m := Move(2, Some(start), Running);
    assert LeadMove(None, opening, owned, nonces) == m;
    Unfolded(None, opening, owned, nonces, m);
    assert opening[2..] == body;
    InsideHeader(body, owned, nonces);
    var scan := Leading(Some(start), body, owned, nonces);
    LeadingGrows(None, opening, [7], owned, nonces);
    assert opening[65_537..] + [7] == [7];
    var p := scan.protocol;
    var last := LeadMove(p, [7], owned, nonces);
    LongReplyEnds(p.value, owned, nonces);
    Unfolded(p, [7], owned, nonces, last);
  }

  lemma LongReplyInert()
    ensures Inert(LongReply())
  {
    HeaderIsReply(Header());
  }

  /** The string remembers its header. */
  lemma InsideHeader(body: Codes, owned: bool, nonces: set<Codes>)
    requires body == LongReply() && Inert(body)
    ensures var scan := Leading(Some(Protocol(Osc, false, [])), body, owned, nonces);
      && scan.length == |body| && scan.stop.Running? && scan.protocol.Some?
      && scan.protocol.value.kind.Osc? && !scan.protocol.value.escaped && Header() <= scan.protocol.value.prefix
  {
    hide Leading, Header, Repeat;
    var header, more := Header(), Repeat(48, 65_535 - |Header()|);
    HeaderIsReply(header);
    var start := Protocol(Osc, false, []);
    HeaderRead(header, [], owned, nonces);
    InsideString(header, more, owned, nonces) by { assert forall k :: 0 <= k < |more| ==> more[k] == body[41 + k]; }
    LeadingGrows(Some(start), header, more, owned, nonces);
    assert header[41..] + more == more;
    assert [] + header == header;
  }

  lemma {:induction false} HeaderRead(bytes: Codes, prefix: Codes, owned: bool, nonces: set<Codes>)
    requires Inert(bytes) && |prefix| + |bytes| <= 256
    ensures Leading(Some(Protocol(Osc, false, prefix)), bytes, owned, nonces)
         == Scan(|bytes|, Some(Protocol(Osc, false, prefix + bytes)), Running)
    decreases |bytes|
  {
    hide Leading;
    var p := Protocol(Osc, false, prefix);
    if bytes == [] {
      Nothing(Some(p), owned, nonces);
      assert prefix + bytes == prefix;
    } else {
      var next := Protocol(Osc, false, prefix + [bytes[0]]);
      var m := Move(1, Some(next), Running);
      assert bytes[0] != ESC && LeadMove(Some(p), bytes, owned, nonces) == m;
      Unfolded(Some(p), bytes, owned, nonces, m);
      HeaderRead(bytes[1..], next.prefix, owned, nonces);
      assert prefix + [bytes[0]] + bytes[1..] == prefix + bytes;
    }
  }

  lemma LongReplyEnds(p: Protocol, owned: bool, nonces: set<Codes>)
    requires p.kind.Osc? && Header() <= p.prefix && NONCE in nonces
    ensures LeadMove(Some(p), [7], owned, nonces) == Move(1, None, Reply(NONCE))
  {
    hide Header;
    HeaderIsReply(Extended(p, 7));
  }

  /** Arm a probe and then a command; a reply of 65,538 bytes follows. In one chunk it answers its probe and the next expectation
      lives on; cut before its last byte it ends all matching. */
  lemma LongReplySplits(u: Codec)
    ensures var s, opening := TwoAsked(), [ESC, 93] + LongReply();
      && s == Expect(Expect(Filter([], [], [], 0), ProbeLine(), None, Some(NONCE)), Ascii("ls"), None, None)
      && QueueOk(s) && Waiting(s.queue) && Load(s.queue) + |opening + [7]| == 65_538
      && !Same(FeedEach(u, s, [opening + [7]]), FeedEach(u, s, [opening, [7]]))
  {
    hide LongReply, Feed, FeedEach, Ascii, Expect;
    var s, opening := TwoAsked(), [ESC, 93] + LongReply();
    TwoAskedIsReached();
    TwoAskedHead();
    LongReplyScans(true, Nonces(s.queue));
    OnlyOne(u, s, opening + [7]);
    OnlyTwo(u, s, opening, [7]);
    WholeReplyAnswers(u);
    CutReplyEndsAll(u);
  }

  lemma WholeReplyAnswers(u: Codec)
    ensures |Feed(u, TwoAsked(), [ESC, 93] + LongReply() + [7], []).queue| == 1
  {
    hide Leading, LongReply, Forward, Continue, Match, Nonces, Feed, Asked, Ordinary, NONCE;
    var s, bytes := TwoAsked(), [ESC, 93] + LongReply() + [7];
    var head := Asked();
    TwoAskedHead();
    LongReplyScans(true, Nonces(s.queue));
    FeedAwake(u, s, bytes, []);
    assert [] + bytes == bytes && head.acks + [] == head.acks && bytes == bytes + [];
    ForwardStops(u, s, head, bytes, bytes, [], Leading(None, bytes, true, Nonces(s.queue)));
    StopsAfterOne(u, s, bytes);
  }

  lemma TwoAskedHead()
    ensures var s := TwoAsked();
      && Live(s.queue, s.now) && |s.queue| == 2 && s.queue[0] == Asked() && IndexOfNonce(s.queue, NONCE) == 0
    ensures Asked().nonce == Some(NONCE) && Asked().protocol == None && Asked().forwarded == 0
    ensures Asked().acks == [] && Asked().bytes == [] && !Asked().retired
  {
  }

  lemma CutReplyEndsAll(u: Codec)
    ensures Feed(u, Feed(u, TwoAsked(), [ESC, 93] + LongReply(), []), [7], []).queue == []
  {
    hide Leading, LongReply, Forward, Continue, Match, Nonces, Feed, Asked, Ordinary, NONCE, TwoAsked;
    var s, opening := TwoAsked(), [ESC, 93] + LongReply();
    var head := Asked();
    TwoAskedHead();
    LongReplyScans(true, Nonces(s.queue));
    FeedAwake(u, s, opening, []);
    assert [] + opening == opening && head.acks + [] == head.acks && opening == opening + [];
    ForwardRuns(u, s, head, opening, opening, [], Leading(None, opening, true, Nonces(s.queue)));
    StraightThrough(u, Surrender(s, head, opening), [7], []);
  }

  lemma StopsAfterOne(u: Codec, s: Filter, bytes: Codes)
    requires |s.queue| == 2
    ensures |Continue(u, s.(queue := s.queue[1..]), [], Plain(bytes, []), []).queue| == 1
  {
  }

  lemma OnlyOne(u: Codec, s: Filter, a: Codes)
    ensures FeedEach(u, s, [a]) == Feed(u, s, a, [])
  {
    hide Feed;
    assert [a][..0] == [];
  }

  lemma OnlyTwo(u: Codec, s: Filter, a: Codes, b: Codes)
    ensures FeedEach(u, s, [a, b]) == Feed(u, Feed(u, s, a, []), b, [])
  {
    hide Feed;
    assert [a, b][..1] == [a];
    OnlyOne(u, s, a);
  }

  /** Cutting is invisible for exactly the amounts of output within the budget. */
  lemma InvisibleExactly(bound: nat)
    ensures Invisible(bound) <==> bound <= CHUNK_BUDGET
  {
    hide FeedEach, Same, LongReply;
    if bound <= CHUNK_BUDGET {
      forall u: Codec, s: Filter, chunks: seq<Codes>, chunks': seq<Codes> |
        Waiting(s.queue) && Whole(chunks) == Whole(chunks') && Load(s.queue) + |Whole(chunks)| <= bound
        ensures Same(FeedEach(u, s, chunks), FeedEach(u, s, chunks'))
      {
        ChunkingIsInvisible(u, s, chunks, chunks');
      }
    } else {
      var u := Codec(x => x, x => x);
      var opening := [ESC, 93] + LongReply();
      LongReplySplits(u);
      assert Whole([opening + [7]]) == opening + [7] == Whole([opening, [7]]) by {
        WholeOne(opening + [7]);
        assert [opening, [7]][..1] == [opening];
        WholeOne(opening);
      }
    }
  }

  lemma WholeOne(a: Codes)
    ensures Whole([a]) == a
  {
    assert [a][..0] == [] && [] + a == a;
  }
}
