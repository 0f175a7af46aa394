/** Control sequences and the echo normaliser of src/lib/ptyEcho.ts.
    A byte string and a decoded string are both sequences of codes, so that one
    recogniser serves the bytes of a chunk and the text of a decoded line. */
module EchoText {
  import opened Basics

  type Codes = seq<nat>

  const BACKSPACE: nat := 8
  const LF: nat := 10
  const CR: nat := 13
  const ESC: nat := 27
  const SPACE: nat := 32
  const MAX_ECHO_BYTES: nat := 65_536

  function Ascii(s: string): Codes {
    seq(|s|, i requires 0 <= i < |s| => s[i] as int)
  }

  predicate Digit(c: nat) { 48 <= c <= 57 }

  predicate Hex(c: nat) { Digit(c) || 97 <= c <= 102 }

  predicate IsNonce(s: Codes) { |s| == 32 && forall i | 0 <= i < 32 :: Hex(s[i]) }

  predicate AllDigits(s: Codes) { forall i | 0 <= i < |s| :: Digit(s[i]) }

  /** The text after one optional leading marker. */
  function After(s: Codes, marker: nat): Codes {
    if s != [] && s[0] == marker then s[1..] else s
  }

  function Groups(s: Codes): (groups: seq<Codes>)
    ensures groups != []
  {
    if s == [] then [[]]
    else
      var rest := Groups(s[1..]);
      if s[0] == 59 then [[]] + rest else [[s[0]] + rest[0]] + rest[1..]
  }

  predicate AlternateScreen(params: Codes, final: nat) {
    && (final == 104 || final == 108)
    && params != [] && params[0] == 63
    && var groups := Groups(params[1..]);
       && (forall i | 0 <= i < |groups| :: groups[i] != [] && AllDigits(groups[i]))
       && (exists i | 0 <= i < |groups| :: groups[i] in {Ascii("47"), Ascii("1047"), Ascii("1049")})
  }

  datatype CsiKind = Mode | Decoration | Foreign

  /** What one complete CSI sequence may be inside an echoed line. */
  function EchoCsiKind(sequence: Codes): CsiKind {
    if |sequence| < 3 || sequence[0] != ESC || sequence[1] != 91 then Foreign
    else
      var params := sequence[2..|sequence| - 1];
      var final := sequence[|sequence| - 1];
      var body := After(params, 63);
      if AlternateScreen(params, final) then Foreign
      else if (final == 104 || final == 108) && body != []
              && forall i | 0 <= i < |body| :: Digit(body[i]) || body[i] == 59 then Mode
      else if final == 109 && forall i | 0 <= i < |params| :: Digit(params[i]) || params[i] == 59 || params[i] == 58 then
        Decoration
      else if final in {67, 68, 71, 75} && AllDigits(params) then Decoration
      else Foreign
  }

  /** A terminal query, which must reach the terminal at once. */
  predicate IsQuery(sequence: Codes) {
    && |sequence| >= 3 && sequence[0] == ESC && sequence[1] == 91
    && var params := sequence[2..|sequence| - 1];
       var final := sequence[|sequence| - 1];
       || (final == 110 && After(params, 63) in {[53], [54]})
       || (final == 99 && AllDigits(if params != [] && params[0] in {62, 61} then params[1..] else params))
       || (final == 112 && params != [] && params[|params| - 1] == 36
           && var number := After(params[..|params| - 1], 63);
              number != [] && AllDigits(number))
  }

  predicate Parameter(c: nat) { 0x20 <= c <= 0x3f }

  /** Index of the first code from i on that is not a CSI parameter. */
  function CsiEnd(bytes: Codes, i: nat): (end: nat)
    requires i <= |bytes|
    ensures i <= end <= |bytes|
    ensures forall j :: i <= j < end ==> Parameter(bytes[j])
    ensures end < |bytes| ==> !Parameter(bytes[end])
    decreases |bytes| - i
  {
    if i == |bytes| || !Parameter(bytes[i]) then i else CsiEnd(bytes, i + 1)
  }

  /** Whether the bytes hold a control that no echoed command line contains. */
  predicate HasNonEchoControl(bytes: Codes)
    decreases |bytes|
  {
    if bytes == [] then false
    else if bytes[0] == ESC then
      if |bytes| == 1 then false
      else if bytes[1] != 91 then true
      else
        var end := CsiEnd(bytes, 2);
        if end == |bytes| then false
        else EchoCsiKind(bytes[..end + 1]).Foreign? || HasNonEchoControl(bytes[end + 1..])
    else
      (bytes[0] < 32 && bytes[0] != BACKSPACE && bytes[0] != CR) || bytes[0] == 127 || HasNonEchoControl(bytes[1..])
  }

  // ------------------------------------------------------------ normalizeEcho

  datatype Stripped = Stripped(text: Codes, modes: Codes, clearToEnd: bool)

  datatype Normalized = Normalized(text: Codes, modes: Codes, clearToEnd: bool)

  /** JavaScript's length of a text: two units for a code outside the first plane. */
  function Units(s: Codes): nat {
    if s == [] then 0 else (if s[0] > 0xffff then 2 else 1) + Units(s[1..])
  }

  function Value(digits: Codes): nat
  {
    if digits == [] then 0
    else 10 * Value(digits[..|digits| - 1]) + (if digits[|digits| - 1] >= 48 then digits[|digits| - 1] - 48 else 0)
  }

  function Run(s: Codes, i: nat, low: nat, high: nat): (end: nat)
    requires i <= |s|
    ensures i <= end <= |s|
    decreases |s| - i
  {
    if i < |s| && low <= s[i] <= high then Run(s, i + 1, low, high) else i
  }

  /** Length of the control sequence the text starts with, or 0. */
  function SequenceLength(s: Codes): (n: nat)
    ensures n <= |s|
    ensures n != 0 ==> n >= 3 && s[0] == ESC && s[1] == 91
  {
    if |s| < 2 || s[0] != ESC || s[1] != 91 then 0
    else
      var end := Run(s, Run(s, 2, 0x30, 0x3f), 0x20, 0x2f);
      if end < |s| && 0x40 <= s[end] <= 0x7e then end + 1 else 0
  }

  function Repeat(c: nat, n: nat): (s: Codes)
    ensures |s| == n
    ensures forall i :: 0 <= i < n ==> s[i] == c
  {
    if n == 0 then [] else [c] + Repeat(c, n - 1)
  }

  /** How many blanks a cursor-forward sequence stands for; 0 for any other. */
  function Advance(sequence: Codes): nat
    requires |sequence| >= 3
  {
    var digits := sequence[2..|sequence| - 1];
    if sequence[|sequence| - 1] != 67 || !AllDigits(digits) then 0
    else if Value(digits) == 0 then 1 else Value(digits)
  }

  /** Remove the control sequences, keeping modes and expanding cursor advances
      while the budget lasts. */
  function Strip(raw: Codes, budget: nat): Stripped
    decreases |raw|
  {
    if raw == [] then Stripped([], [], false)
    else
      var n := SequenceLength(raw);
      if n == 0 then
        var rest := Strip(raw[1..], budget);
        rest.(text := [raw[0]] + rest.text)
      else
        var sequence := raw[..n];
        var count := Advance(sequence);
        var fits := count <= budget;
        var rest := Strip(raw[n..], if fits then budget - count else budget);
        Stripped(
          (if fits then Repeat(SPACE, count) else [ESC]) + rest.text,
          (if EchoCsiKind(sequence).Mode? then sequence else []) + rest.modes,
          sequence[n - 1] == 75 || rest.clearToEnd)
  }

  /** C0, DEL and C1 controls other than backspace, line feed and return. */
  predicate Unprintable(c: nat) {
    c <= 7 || c == 9 || c == 11 || c == 12 || 14 <= c <= 31 || 127 <= c <= 159
  }

  predicate HasUnprintable(s: Codes) { exists i | 0 <= i < |s| :: Unprintable(s[i]) }

  function Backspaced(kept: Codes, s: Codes): Codes
    decreases |s|
  {
    if s == [] then kept
    else if s[0] == BACKSPACE then Backspaced(if kept == [] then [] else kept[..|kept| - 1], s[1..])
    else Backspaced(kept + [s[0]], s[1..])
  }

  /** Remove every blank-and-return pair. */
  function Unwrapped(s: Codes): Codes
    decreases |s|
  {
    if |s| >= 2 && s[0] == SPACE && s[1] == CR then Unwrapped(s[2..])
    else if s == [] then [] else [s[0]] + Unwrapped(s[1..])
  }

  /** Remove a character and the return after it when the row repeats it. */
  function Rejoined(s: Codes): Codes
    decreases |s|
  {
    if |s| >= 3 && s[0] != CR && s[1] == CR && s[2] == s[0] then Rejoined(s[2..])
    else if s == [] then [] else [s[0]] + Rejoined(s[1..])
  }

  function WithoutTrailing(s: Codes, c: nat): Codes
    decreases |s|
  {
    if s != [] && s[|s| - 1] == c then WithoutTrailing(s[..|s| - 1], c) else s
  }

  /** The printable command a redrawn line shows, or None when the line holds a
      control this module does not know how to edit. */
  function Normalize(raw: Codes): Option<Normalized> {
    var budget := if Units(raw) <= MAX_ECHO_BYTES then MAX_ECHO_BYTES - Units(raw) else 0;
    var stripped := Strip(raw, budget);
    if HasUnprintable(stripped.text) then None
    else
      Some(Normalized(
        WithoutTrailing(Rejoined(Unwrapped(Backspaced([], stripped.text))), CR),
        stripped.modes,
        stripped.clearToEnd))
  }

  // ------------------------------------------------------------ leading protocol strings

  datatype StringKind = Osc | Dcs

  /** An OSC or DCS string whose end has not arrived yet. */
  datatype Protocol = Protocol(kind: StringKind, escaped: bool, prefix: Codes)

  datatype Stop = Running | Lifecycle | Reply(nonce: Codes)

  datatype Scan = Scan(length: nat, protocol: Option<Protocol>, stop: Stop)

  predicate EndsString(p: Protocol, byte: nat) {
    (p.kind.Osc? && byte == 7) || (p.escaped && byte == 92) || byte == 24 || byte == 26
  }

  function Extended(p: Protocol, byte: nat): Codes {
    if |p.prefix| < 256 then p.prefix + [byte] else p.prefix
  }

  /** The nonce of a probe reply, when the string is one. */
  function ReplyNonce(kind: StringKind, prefix: Codes): Option<Codes> {
    if kind.Osc? && |prefix| >= 41 && prefix[..8] == Ascii("6973;RP;") && IsNonce(prefix[8..40]) && prefix[40] == 59
    then Some(prefix[8..40]) else None
  }

  predicate IsLifecycle(kind: StringKind, prefix: Codes) {
    && kind.Osc?
    && (|| Ascii("6973;") <= prefix
        || (&& |prefix| >= 5 && prefix[..4] == Ascii("133;") && prefix[4] in {65, 67, 68}
            && (|prefix| == 5 || prefix[5] in {59, 7, ESC})))
  }

  /** What the end of a string means for a queue owning these nonces. */
  function StopAt(kind: StringKind, prefix: Codes, owned: bool, nonces: set<Codes>): Stop {
    var reply := ReplyNonce(kind, prefix);
    if reply.Some? && reply.value in nonces then Reply(reply.value)
    else if !owned && IsLifecycle(kind, prefix) then Lifecycle
    else Running
  }

  /** Length of the opener or harmless CSI sequence the bytes start with, or 0
      when the scan must stop here. */
  function LeadLength(bytes: Codes): (n: nat)
    ensures n <= |bytes|
    ensures n != 0 ==> n >= 2 && bytes[0] == ESC
  {
    if |bytes| < 2 || bytes[0] != ESC then 0
    else if bytes[1] == 93 || bytes[1] == 80 then 2
    else if bytes[1] != 91 then 0
    else
      var end := CsiEnd(bytes, 2);
      if end == |bytes| then 0
      else if IsQuery(bytes[..end + 1]) || !EchoCsiKind(bytes[..end + 1]).Foreign? then end + 1
      else 0
  }

  /** One move of the scan: the bytes it takes (none when it must stop), the string it
      is then inside, and whether that ends the scan. */
  datatype Move = Move(length: nat, protocol: Option<Protocol>, stop: Stop)

  function LeadMove(p: Option<Protocol>, bytes: Codes, owned: bool, nonces: set<Codes>): (m: Move)
    requires bytes != []
    ensures m.length <= |bytes|
    ensures m.length == 0 ==> m.stop.Running? && m.protocol.None?
    ensures m.stop.Reply? ==> m.stop.nonce in nonces && m.protocol.None?
    ensures m.stop.Lifecycle? ==> m.protocol.None?
  {
    if p.Some? then
      var prefix := Extended(p.value, bytes[0]);
      if EndsString(p.value, bytes[0]) then Move(1, None, StopAt(p.value.kind, prefix, owned, nonces))
      else Move(1, Some(Protocol(p.value.kind, bytes[0] == ESC, prefix)), Running)
    else
      var n := LeadLength(bytes);
      Move(n,
           if n == 0 || bytes[1] == 91 then None
           else Some(Protocol(if bytes[1] == 93 then Osc else Dcs, false, [])),
           Running)
  }

  /** How many leading bytes are protocol traffic, and why the scan stopped. */
  function Leading(p: Option<Protocol>, bytes: Codes, owned: bool, nonces: set<Codes>): (scan: Scan)
    ensures scan.length <= |bytes|
    ensures !scan.stop.Running? ==> scan.length > 0
    ensures scan.stop.Reply? ==> scan.stop.nonce in nonces
    ensures scan.protocol.Some? ==> scan.length == |bytes|
    decreases |bytes|
  {
    if bytes == [] then Scan(0, p, Running)
    else
      var m := LeadMove(p, bytes, owned, nonces);
      if m.length == 0 || !m.stop.Running? then Scan(m.length, m.protocol, m.stop)
      else
        var rest := Leading(m.protocol, bytes[m.length..], owned, nonces);
        rest.(length := m.length + rest.length)
  }
}
