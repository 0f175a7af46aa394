/** The private tokens of src/lib/ptyExecShell.ts: what the typed suffix prints, and which
    payloads the token parser reads. */
module ShellTokens {
  import opened Basics
  import opened ShellScan
  import opened ShellSentinel

  // ------------------------------------------------------------ parsePrivateToken

  datatype Token = Reply(nonce: string, zsh: string, bash: string, fish: string) | Done(exit: nat, nonce: string)

  /** split(";") */
  function Split(s: string): (parts: seq<string>)
    ensures parts != []
  {
    if s == "" then [""]
    else if s[0] == ';' then [""] + Split(s[1..])
    else var rest := Split(s[1..]); [[s[0]] + rest[0]] + rest[1..]
  }

  predicate Starts(s: string, c: char) { s != "" && s[0] == c }

  /** ^(?:0|[1-9]\d{0,2})$ */
  predicate IsExit(s: string) {
    s == "0" || (1 <= |s| <= 3 && '1' <= s[0] <= '9' && forall k | 0 <= k < |s| :: '0' <= s[k] <= '9')
  }

  function Number(s: string): nat
    requires forall k | 0 <= k < |s| :: '0' <= s[k] <= '9'
  {
    if s == "" then 0 else 10 * Number(s[..|s| - 1]) + (s[|s| - 1] as int - '0' as int)
  }

  function ParseToken(payload: string): Option<Token> {
    var parts := Split(payload);
    if parts[0] == "RP" then
      if |parts| != 5 || !IsNonce(parts[1]) || !Starts(parts[2], 'z') || !Starts(parts[3], 'b') || !Starts(parts[4], 'f') then None
      else Some(Reply(parts[1], parts[2][1..], parts[3][1..], parts[4][1..]))
    else if parts[0] == "RD" then
      if |parts| != 3 || !IsExit(parts[1]) || Number(parts[1]) > 255 || !IsNonce(parts[2]) then None
      else Some(Done(Number(parts[1]), parts[2]))
    else None
  }

  lemma {:induction false} SplitJoins(s: string)
    ensures s == Joined(Split(s)) && forall k :: 0 <= k < |Split(s)| ==> ';' !in Split(s)[k]
  {
    if s != "" {
      SplitJoins(s[1..]);
      var rest := Split(s[1..]);
      if s[0] == ';' {
        assert Split(s)[1..] == rest;
        assert s == [';'] + s[1..];
      } else {
        assert Split(s)[1..] == rest[1..];
        assert s == [s[0]] + s[1..];
        JoinedFirst(s[0], rest);
      }
    }
  }

  function Joined(parts: seq<string>): string {
    if parts == [] then "" else if |parts| == 1 then parts[0] else parts[0] + [';'] + Joined(parts[1..])
  }

  lemma JoinedFirst(c: char, rest: seq<string>)
    requires rest != []
    ensures Joined([[c] + rest[0]] + rest[1..]) == [c] + Joined(rest)
  {
    var all := [[c] + rest[0]] + rest[1..];
    assert all[1..] == rest[1..];
    if |rest| > 1 { assert [c] + rest[0] + [';'] + Joined(rest[1..]) == [c] + (rest[0] + [';'] + Joined(rest[1..])); }
  }

  lemma {:induction false} SplitOne(part: string)
    requires ';' !in part
    ensures Split(part) == [part]
  {
    if part != "" {
      SplitOne(part[1..]);
      assert part == [part[0]] + part[1..];
    }
  }

  lemma {:induction false} SplitMore(part: string, rest: string)
    requires ';' !in part
    ensures Split(part + [';'] + rest) == [part] + Split(rest)
  {
    var s := part + [';'] + rest;
    if part == "" {
      assert s[1..] == rest;
    } else {
      SplitMore(part[1..], rest);
      assert s[1..] == part[1..] + [';'] + rest;
      assert part == [part[0]] + part[1..];
    }
  }

  lemma HexHasNoSemicolon(nonce: string)
    requires IsNonce(nonce)
    ensures ';' !in nonce
  {
  }

  lemma ThreeParts(a: string, b: string, c: string)
    ensures Joined([a, b, c]) == a + [';'] + b + [';'] + c
  {
    assert [a, b, c][1..] == [b, c] && [b, c][1..] == [c];
    assert Joined([c]) == c;
    assert Joined([b, c]) == b + [';'] + c;
    assert Joined([a, b, c]) == a + [';'] + Joined([b, c]);
    assert a + [';'] + (b + [';'] + c) == a + [';'] + b + [';'] + c;
  }

  lemma ThreeSplit(a: string, b: string, c: string)
    requires ';' !in a && ';' !in b && ';' !in c
    ensures Split(a + [';'] + b + [';'] + c) == [a, b, c]
  {
    hide Split;
    assert a + [';'] + b + [';'] + c == a + [';'] + (b + [';'] + c);
    SplitMore(a, b + [';'] + c);
    SplitMore(b, c);
    SplitOne(c);
  }

  /** The payload of a completion. */
  function Completion(exit: nat, nonce: string): string { "RD" + [';'] + Decimal(exit) + [';'] + nonce }

  lemma DoneReads(exit: nat, nonce: string)
    requires exit <= 255 && IsNonce(nonce)
    ensures ParseToken(Completion(exit, nonce)) == Some(Done(exit, nonce))
  {
    hide Split, Number, Decimal, IsNonce, IsExit;
    DecimalReads(exit);
    HexHasNoSemicolon(nonce);
    ThreeSplit("RD", Decimal(exit), nonce);
    assert Split(Completion(exit, nonce))[0][1] == 'D';
  }

  lemma ReadDone(payload: string)
    requires ParseToken(payload).Some? && ParseToken(payload).value.Done?
    ensures var t := ParseToken(payload).value; t.exit <= 255 && IsNonce(t.nonce) && payload == Completion(t.exit, t.nonce)
  {
    hide Split, Number, Decimal, IsNonce, IsExit, Joined;
    var parts := Split(payload);
    SplitJoins(payload);
    assert parts == [parts[0], parts[1], parts[2]];
    ThreeParts(parts[0], parts[1], parts[2]);
    ExitIsDecimal(parts[1]);
  }

  /** A completion is read from exactly the payloads that spell one. */
  lemma DoneExactly(payload: string, exit: nat, nonce: string)
    ensures ParseToken(payload) == Some(Done(exit, nonce)) <==>
      exit <= 255 && IsNonce(nonce) && payload == Completion(exit, nonce)
  {
    hide ParseToken, Completion, IsNonce;
    if exit <= 255 && IsNonce(nonce) { DoneReads(exit, nonce); }
    if ParseToken(payload) == Some(Done(exit, nonce)) { ReadDone(payload); }
  }

  /** The payload of a probe's reply. */
  function Answer(nonce: string, zsh: string, bash: string, fish: string): string {
    "RP" + [';'] + (nonce + [';'] + ("z" + zsh) + [';'] + (("b" + bash) + [';'] + ("f" + fish)))
  }

  lemma AnswerReads(nonce: string, zsh: string, bash: string, fish: string)
    requires IsNonce(nonce) && ';' !in zsh && ';' !in bash && ';' !in fish
    ensures ParseToken(Answer(nonce, zsh, bash, fish)) == Some(Reply(nonce, zsh, bash, fish))
  {
    hide Split, IsNonce, Number, IsExit;
    var z, b, f := "z" + zsh, "b" + bash, "f" + fish;
    var tail := b + [';'] + f;
    HexHasNoSemicolon(nonce);
    SplitMore("RP", nonce + [';'] + z + [';'] + tail);
    assert nonce + [';'] + z + [';'] + tail == nonce + [';'] + (z + [';'] + tail);
    SplitMore(nonce, z + [';'] + tail);
    SplitMore(z, tail);
    SplitMore(b, f);
    SplitOne(f);
    assert Split(Answer(nonce, zsh, bash, fish)) == ["RP", nonce, z, b, f];
    assert z[1..] == zsh && b[1..] == bash && f[1..] == fish;
  }

  lemma ReadAnswer(payload: string)
    requires ParseToken(payload).Some? && ParseToken(payload).value.Reply?
    ensures var t := ParseToken(payload).value;
      && IsNonce(t.nonce) && ';' !in t.zsh && ';' !in t.bash && ';' !in t.fish
      && payload == Answer(t.nonce, t.zsh, t.bash, t.fish)
  {
    hide Split, IsNonce, Number, IsExit, Joined;
    var parts := Split(payload);
    SplitJoins(payload);
    var n, z, b, f := parts[1], parts[2], parts[3], parts[4];
    assert parts == ["RP", n, z, b, f];
    FiveParts("RP", n, z, b, f);
    assert z == "z" + z[1..] && b == "b" + b[1..] && f == "f" + f[1..];
  }

  lemma FiveParts(a: string, b: string, c: string, d: string, e: string)
    ensures Joined([a, b, c, d, e]) == a + [';'] + (b + [';'] + c + [';'] + (d + [';'] + e))
  {
    hide Joined;
    JoinMore([a, b, c, d, e]);
    JoinMore([b, c, d, e]);
    ThreeParts(c, d, e);
    assert [a, b, c, d, e][1..] == [b, c, d, e] && [b, c, d, e][1..] == [c, d, e];
    assert b + [';'] + (c + [';'] + d + [';'] + e) == b + [';'] + c + [';'] + (d + [';'] + e);
  }

  lemma JoinMore(parts: seq<string>)
    requires |parts| > 1
    ensures Joined(parts) == parts[0] + [';'] + Joined(parts[1..])
  {
  }

  /** A probe's reply is read from exactly the payloads that spell one. */
  lemma AnswerExactly(payload: string, nonce: string, zsh: string, bash: string, fish: string)
    ensures ParseToken(payload) == Some(Reply(nonce, zsh, bash, fish)) <==>
      && IsNonce(nonce) && ';' !in zsh && ';' !in bash && ';' !in fish
      && payload == Answer(nonce, zsh, bash, fish)
  {
    hide ParseToken, Answer, IsNonce;
    if IsNonce(nonce) && ';' !in zsh && ';' !in bash && ';' !in fish { AnswerReads(nonce, zsh, bash, fish); }
    if ParseToken(payload) == Some(Reply(nonce, zsh, bash, fish)) { ReadAnswer(payload); }
  }

  function Decimal(n: nat): string { if n < 10 then [('0' as int + n) as char] else Decimal(n / 10) + [('0' as int + n % 10) as char] }

  lemma {:induction false} DecimalReads(n: nat)
    requires n <= 255
    ensures IsExit(Decimal(n)) && Number(Decimal(n)) == n && ';' !in Decimal(n)
    ensures |Decimal(n)| == if n < 10 then 1 else if n < 100 then 2 else 3
  {
    if n >= 10 {
      DecimalReads(n / 10);
      var d := Decimal(n);
      assert d[..|d| - 1] == Decimal(n / 10);
      assert n / 10 > 0 ==> Decimal(n / 10) != "0";
    } else {
      var d := Decimal(n);
      assert d[..0] == "" && Number("") == 0;
    }
  }

  lemma {:induction false} ExitIsDecimal(s: string)
    requires IsExit(s)
    ensures Decimal(Number(s)) == s
  {
    hide Decimal, Number;
    assert forall k :: 0 <= k < |s| ==> '0' <= s[k] <= '9';
    var front := s[..|s| - 1];
    NumberLast(s);
    DecimalLast(Number(front), s[|s| - 1] as int - '0' as int);
    assert s == front + [s[|s| - 1]];
    if |s| == 1 {
      NoNumber();
      assert front == "" && "" + [s[0]] == [s[0]];
    } else {
      ExitIsDecimal(front);
      Leading(front);
    }
  }

  lemma NumberLast(s: string)
    requires s != "" && forall k :: 0 <= k < |s| ==> '0' <= s[k] <= '9'
    ensures Number(s) == 10 * Number(s[..|s| - 1]) + (s[|s| - 1] as int - '0' as int)
  {
  }

  lemma NoNumber()
    ensures Number("") == 0
  {
  }

  lemma DecimalLast(n: nat, d: nat)
    requires d < 10
    ensures Decimal(10 * n + d) == (if n == 0 then "" else Decimal(n)) + [('0' as int + d) as char]
  {
    if n > 0 { assert (10 * n + d) / 10 == n && (10 * n + d) % 10 == d; }
  }

  lemma {:induction false} Leading(s: string)
    requires s != "" && s[0] != '0' && forall k :: 0 <= k < |s| ==> '0' <= s[k] <= '9'
    ensures Number(s) > 0
  {
    if |s| > 1 { Leading(s[..|s| - 1]); }
  }

  // ------------------------------------------------------------ what the suffix prints

  predicate Octal(c: char) { '0' <= c <= '7' }

  function Digit(c: char): nat
    requires Octal(c)
  {
    c as int - '0' as int
  }

  /** printf with one argument, as far as the suffix needs it: \ooo and %s. */
  function Printed(format: string, argument: string): string {
    if format == "" then ""
    else if |format| >= 4 && format[0] == '\\' && Octal(format[1]) && Octal(format[2]) && Octal(format[3]) then
      [((64 * Digit(format[1]) + 8 * Digit(format[2]) + Digit(format[3])) % 256) as char] + Printed(format[4..], argument)
    else if |format| >= 2 && format[0] == '%' && format[1] == 's' then argument + Printed(format[2..], argument)
    else [format[0]] + Printed(format[1..], argument)
  }

  predicate Verbatim(c: char) { c != '\\' && c != '%' }

  lemma {:induction false} PrintsText(text: string, more: string, argument: string)
    requires forall k :: 0 <= k < |text| ==> Verbatim(text[k])
    ensures Printed(text + more, argument) == text + Printed(more, argument)
  {
    if text == "" {
      assert text + more == more;
    } else {
      assert (text + more)[1..] == text[1..] + more;
      PrintsText(text[1..], more, argument);
    }
  }

  const ESCAPE: char := 27 as char
  const BELL: char := 7 as char

  lemma PrintsEscape(more: string, argument: string)
    ensures Printed("\\033" + more, argument) == [ESCAPE] + Printed(more, argument)
    ensures Printed("\\007" + more, argument) == [BELL] + Printed(more, argument)
    ensures Printed("%s" + more, argument) == argument + Printed(more, argument)
  {
    assert ("\\033" + more)[4..] == more && ("\\007" + more)[4..] == more && ("%s" + more)[2..] == more;
  }

  /** The suffix runs printf in the same shell right after the command, on the command's own
      exit status. */
  lemma SuffixIs(kind: Dialect, nonce: string)
    requires IsNonce(nonce)
    ensures SentinelSuffix(kind, nonce) == Some(
      "; command printf '\\033]6973;RD;%s;" + nonce + "\\007' " + if kind.Fish? then "$status" else "$?")
  {
    Regroup(OPENING, "\\033]6973;RD;%s;", nonce, "\\007", Status(kind));
    assert OPENING + "'" + "\\033]6973;RD;%s;" == "; command printf '\\033]6973;RD;%s;";
    assert "\\007" + "' " == "\\007' " && "$" + Status(kind) == if kind.Fish? then "$status" else "$?";
  }

  lemma Regroup(opening: string, before: string, nonce: string, after: string, status: string)
    ensures opening + ['\''] + (before + nonce + after) + ['\''] + [' '] + ['$'] + status
         == (opening + "'" + before) + nonce + (after + "' ") + ("$" + status)
  {
  }

  /** What it prints is one private sequence, which the parser reads as the completion of
      this very command with that status. */
  lemma SuffixAnswers(nonce: string, exit: nat)
    requires IsNonce(nonce) && exit <= 255
    ensures var format := "\\033]6973;RD;%s;" + nonce + "\\007";
      var payload := Completion(exit, nonce);
      && Format(nonce) == format
      && Printed(format, Decimal(exit)) == [ESCAPE] + "]6973;" + payload + [BELL]
      && ParseToken(payload) == Some(Done(exit, nonce))
  {
    hide Printed;
    var arg := Decimal(exit);
    var bell := "\\007" + "";
    var tail := ";" + nonce + bell;
    assert Format(nonce) == "\\033" + ("]6973;RD;" + ("%s" + tail));
    PrintsEscape("]6973;RD;" + ("%s" + tail), arg);
    PrintsText("]6973;RD;", "%s" + tail, arg);
    PrintsEscape(tail, arg);
    PrintsText(";" + nonce, bell, arg);
    PrintsEscape("", arg);
    PrintsNothing(arg);
    DoneExactly(Completion(exit, nonce), exit, nonce);
    assert Printed(Format(nonce), arg) == [ESCAPE] + ("]6973;RD;" + (arg + (";" + nonce + [BELL])));
  }

  lemma PrintsNothing(argument: string)
    ensures Printed("", argument) == ""
  {
  }
}
