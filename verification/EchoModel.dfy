/** What src/lib/ptyEcho.ts does to one terminal, as a function from state to state.
    The class in EchoFilter.dfy is proved equal to these functions; the laws about
    them are in EchoLaws.dfy and EchoChunks.dfy. */
module EchoModel {
  import opened Basics
  import opened EchoText

  const ECHO_WAIT_MS: nat := 2_000
  const LATE_PROBE_ECHO_MS: nat := 60_000
  const MAX_EXPECTATIONS: nat := 4

  /** Text decoding and encoding, which every law holds for. */
  datatype Codec = Codec(decode: Codes -> Codes, encode: Codes -> Codes)

  datatype Armed = Armed(line: Codes, visible: Option<Codes>)

  /** One pending expectation. `id` is its identity: its index among all those ever
      armed. Acknowledgments are the callbacks it owes, in order. */
  datatype Echo = Echo(
    id: nat,
    line: Codes,
    visible: Option<Codes>,
    bytes: Codes,
    acks: seq<nat>,
    deadline: int,
    protocol: Option<Protocol>,
    forwarded: nat,
    nonce: Option<Codes>,
    expiresAt: int,
    retired: bool)
  {
    predicate HasContent() { bytes != [] || acks != [] }

    predicate Expired(now: int) { nonce.Some? && now >= expiresAt }
  }

  /** The echo line a write replaced, and the expectation that justified it. */
  datatype Swap = Swap(id: nat, raw: Codes)

  /** One entry of the terminal's log. `source` is the PTY input the entry stands for;
      `acks` are the callbacks that fire once the terminal has parsed it. A Discard
      entry is input dropped with the terminal, whose callbacks fire at once. */
  datatype Write =
    | Write(bytes: Codes, source: Codes, acks: seq<nat>, swapped: Option<Swap>)
    | Discard(source: Codes, acks: seq<nat>)

  datatype Filter = Filter(queue: seq<Echo>, log: seq<Write>, armed: seq<Armed>, now: int) {
    function Log(w: Write): Filter { this.(log := log + [w]) }
  }

  function Plain(bytes: Codes, acks: seq<nat>): Write { Write(bytes, bytes, acks, None) }

  function Nonces(queue: seq<Echo>): (nonces: set<Codes>)
    ensures forall n :: n in nonces <==> exists i :: 0 <= i < |queue| && queue[i].nonce == Some(n)
  {
    set i | 0 <= i < |queue| && queue[i].nonce.Some? :: queue[i].nonce.value
  }

  function IndexOfNonce(queue: seq<Echo>, nonce: Codes): (i: nat)
    ensures i <= |queue|
    ensures i < |queue| ==> queue[i].nonce == Some(nonce)
    ensures forall j :: 0 <= j < i ==> queue[j].nonce != Some(nonce)
  {
    if queue == [] || queue[0].nonce == Some(nonce) then 0 else 1 + IndexOfNonce(queue[1..], nonce)
  }

  function IndexOfLine(queue: seq<Echo>, line: Codes): (i: nat)
    ensures i <= |queue|
    ensures i < |queue| ==> queue[i].line == line
    ensures forall j :: 0 <= j < i ==> queue[j].line != line
  {
    if queue == [] || queue[0].line == line then 0 else 1 + IndexOfLine(queue[1..], line)
  }

  function IndexOfId(queue: seq<Echo>, id: nat): (i: nat)
    ensures i <= |queue|
    ensures i < |queue| ==> queue[i].id == id
    ensures forall j :: 0 <= j < i ==> queue[j].id != id
  {
    if queue == [] || queue[0].id == id then 0 else 1 + IndexOfId(queue[1..], id)
  }

  // ------------------------------------------------------------ leaving the queue

  function Flushed(e: Echo): seq<Write> {
    if e.HasContent() then [Plain(e.bytes, e.acks)] else []
  }

  function FlushAll(queue: seq<Echo>): seq<Write> {
    if queue == [] then [] else Flushed(queue[0]) + FlushAll(queue[1..])
  }

  function DiscardAll(queue: seq<Echo>): seq<Write> {
    if queue == [] then []
    else (if queue[0].HasContent() then [Discard(queue[0].bytes, queue[0].acks)] else []) + DiscardAll(queue[1..])
  }

  function Without(queue: seq<Echo>, i: nat): seq<Echo>
    requires i < |queue|
  {
    queue[..i] + queue[i + 1..]
  }

  /** retireEcho: a request's cleanup, and every timer. */
  function Retire(s: Filter, id: nat): Filter {
    var i := IndexOfId(s.queue, id);
    if i == |s.queue| then s
    else
      var e := s.queue[i];
      if e.nonce.Some? && s.now < e.expiresAt && !e.HasContent() then
        s.(queue := s.queue[i := e.(retired := true, deadline := e.expiresAt)])
      else s.(queue := Without(s.queue, i), log := s.log + Flushed(e))
  }

  /** What a filter of the queue keeps, and what it sends away. */
  function Kept(queue: seq<Echo>, gone: Echo -> bool): seq<Echo> {
    if queue == [] then []
    else (if gone(queue[0]) then [] else [queue[0]]) + Kept(queue[1..], gone)
  }

  function Gone(queue: seq<Echo>, gone: Echo -> bool): seq<Echo> {
    if queue == [] then []
    else (if gone(queue[0]) then [queue[0]] else []) + Gone(queue[1..], gone)
  }

  function Evict(s: Filter, gone: Echo -> bool): Filter {
    s.(queue := Kept(s.queue, gone), log := s.log + FlushAll(Gone(s.queue, gone)))
  }

  function Expire(s: Filter): Filter { Evict(s, (e: Echo) => e.Expired(s.now)) }

  /** Keep only the newest expectations. */
  function Bounded(s: Filter): Filter {
    var extra := if |s.queue| > MAX_EXPECTATIONS then |s.queue| - MAX_EXPECTATIONS else 0;
    s.(queue := s.queue[extra..], log := s.log + FlushAll(s.queue[..extra]))
  }

  /** A probe nonce is honoured only for a hidden line that really carries it. */
  function OwnedNonce(line: Codes, visible: Option<Codes>, requested: Option<Codes>): Option<Codes> {
    if visible.None? && requested.Some? && IsNonce(requested.value)
       && Contains(line, Ascii("RP;") + requested.value + Ascii(";"))
    then requested else None
  }

  predicate Contains(s: Codes, part: Codes) {
    part <= s || (s != [] && Contains(s[1..], part))
  }

  /** expectPtyEcho */
  function Expect(s: Filter, line: Codes, visible: Option<Codes>, requested: Option<Codes>): Filter {
    var s1 := Evict(s, (e: Echo) => e.nonce.None?);
    var nonce := OwnedNonce(line, visible, requested);
    var echo := Echo(|s.armed|, line, visible, [], [], s.now + ECHO_WAIT_MS, None, 0, nonce,
                     if nonce.Some? then s.now + LATE_PROBE_ECHO_MS else 0, false);
    Bounded(s1.(queue := s1.queue + [echo], armed := s.armed + [Armed(line, visible)]))
  }

  /** cancelPtyEcho */
  function Cancel(s: Filter, discard: bool): Filter {
    s.(queue := [], log := s.log + (if discard then DiscardAll(s.queue) else FlushAll(s.queue)))
  }

  // ------------------------------------------------------------ feeding output

  function Shown(visible: Option<Codes>, n: Normalized): Codes {
    (if visible.None? then [CR, ESC] + Ascii("[2K")
     else (if n.clearToEnd then [ESC] + Ascii("[K") else []) + visible.value + [CR, LF])
    + n.modes
  }

  /** The first chunk after retirement restarts the ordinary holding deadline. */
  function Wake(e: Echo, now: int): Echo {
    if !e.retired then e
    else
      var left := if e.nonce.Some? then e.expiresAt - now else 0;
      var wait := if left < 0 then 0 else if left < ECHO_WAIT_MS then left else ECHO_WAIT_MS;
      e.(retired := false, deadline := now + wait)
  }

  /** writePtyOutput: `cb` is what the chunk's callback acknowledges. */
  function Feed(u: Codec, s: Filter, bytes: Codes, cb: seq<nat>): Filter
    decreases |s.queue|, 3
  {
    if bytes == [] then s.Log(Plain([], cb))
    else
      var s1 := Expire(s);
      KeptShrinks(s.queue, (e: Echo) => e.Expired(s.now));
      if s1.queue == [] then s1.Log(Plain(bytes, cb))
      else
        var head := Wake(s1.queue[0], s.now);
        Forward(u, s1, head.(acks := head.acks + cb), head.bytes + bytes)
  }

  /** Pass leading protocol traffic on, then look at what is left. */
  function Forward(u: Codec, s: Filter, head: Echo, held: Codes): Filter
    requires s.queue != []
    decreases |s.queue|, 2
  {
    var scan := Leading(head.protocol, held, head.nonce.Some?, Nonces(s.queue));
    var prefix, rest := held[..scan.length], held[scan.length..];
    if !scan.stop.Running? then
      var through := if scan.stop.Reply? then IndexOfNonce(s.queue, scan.stop.nonce) else 0;
      Continue(u, s.(queue := s.queue[through + 1..]), head.acks, Plain(prefix, []), rest)
    else if scan.length > 0 && head.forwarded + scan.length > MAX_ECHO_BYTES then
      Surrender(s, head, held)
    else
      var kept := head.(protocol := scan.protocol, forwarded := head.forwarded + scan.length);
      if scan.length > 0 && rest == [] then
        s.(queue := [kept.(bytes := [], acks := [])] + s.queue[1..]).Log(Plain(prefix, head.acks))
      else
        Match(u, if scan.length > 0 then s.Log(Plain(prefix, [])) else s, kept, rest)
  }

  /** Anything that is not our line goes out untouched and ends all matching. */
  function Surrender(s: Filter, head: Echo, held: Codes): Filter {
    s.(queue := []).Log(Plain(held, head.acks))
  }

  /** Replace the held line when it is one of ours, keep it while it is unfinished. */
  function Match(u: Codec, s: Filter, head: Echo, held: Codes): Filter
    requires s.queue != []
    decreases |s.queue|, 1
  {
    var end := IndexOf(held, LF);
    var size := if end == |held| then |held| else end + 1;
    if HasNonEchoControl(held[..end]) || size > MAX_ECHO_BYTES then Surrender(s, head, held)
    else if end == |held| then s.(queue := [head.(bytes := held)] + s.queue[1..])
    else
      var line := Normalize(u.decode(held[..end]));
      var i := if line.Some? then IndexOfLine(s.queue, line.value.text) else |s.queue|;
      if i == |s.queue| then Surrender(s, head, held)
      else
        var matched := s.queue[i];
        Continue(u, s.(queue := s.queue[i + 1..]), head.acks,
                 Write(u.encode(Shown(matched.visible, line.value)), held[..end + 1], [],
                       Some(Swap(matched.id, held[..end + 1]))),
                 held[end + 1..])
  }

  /** writeAndContinue: the callbacks stay with the chunk's last bytes. */
  function Continue(u: Codec, s: Filter, acks: seq<nat>, w: Write, rest: Codes): Filter
    requires w.Write?
    decreases |s.queue|, 4
  {
    if rest == [] || s.queue == [] then
      s.Log(w.(bytes := w.bytes + rest, source := w.source + rest, acks := acks))
    else Feed(u, s.Log(w), rest, acks)
  }

  lemma KeptShrinks(queue: seq<Echo>, gone: Echo -> bool)
    ensures |Kept(queue, gone)| <= |queue|
  {
  }
}
