/** When src/lib/ptyExecShell.ts may append a completion suffix to a command, and why
    the shell then reads that suffix as a command of its own. */
module ShellSentinel {
  import opened Basics
  import opened ShellScan
  import opened ShellGrammar

  // ------------------------------------------------------------ the trailing-operator gate

  datatype Trailing = Clear | Semicolon | Operator

  /** What one character of a scope does to the gate, and how far it reaches. */
  datatype TailStep = Background | To(trailing: Trailing, length: nat)

  function TailOn(t: Trailing, previous: Option<char>, ch: char, next: Option<char>): (r: TailStep)
    ensures r.To? ==> 1 <= r.length <= 2
    ensures r.To? && r.length == 2 ==> next.Some?
  {
    if IsSpace(ch) then To(t, 1)
    else if ch == '&' then
      if next == Some('&') then To(Operator, 2)
      else if previous == Some('>') || previous == Some('<') then To(Operator, 1)
      else Background
    else if ch == '|' then To(Operator, if next == Some('|') then 2 else 1)
    else if ch == ';' then To(Semicolon, 1)
    else if ch == '>' || ch == '<' then To(Operator, 1)
    else if ch == ')' || ch == '}' then To(if t.Semicolon? then Clear else t, 1)
    else To(Clear, 1)
  }

  function TailFrom(t: Trailing, scope: string, i: nat): Option<Trailing>
    decreases |scope| - i
  {
    if i >= |scope| then Some(t)
    else
      match TailOn(t, At(scope, i - 1), scope[i], At(scope, i + 1))
      case Background => None
      case To(trailing, length) => TailFrom(trailing, scope, i + length)
  }

  predicate CompleteTail(scope: string, allowSemicolon: bool) {
    var t := TailFrom(Clear, scope, 0);
    t.Some? && (t.value.Clear? || (allowSemicolon && t.value.Semicolon?))
  }

  /** hasCompleteTail */
  method HasCompleteTail(scope: string, allowSemicolon: bool) returns (ok: bool)
    ensures ok == CompleteTail(scope, allowSemicolon)
  {
    var trailing := Clear;
    var i := 0;
    while i < |scope|
      invariant 0 <= i
      invariant TailFrom(Clear, scope, 0) == TailFrom(trailing, scope, i)
    {
      var ch := scope[i];
      var previous, next := At(scope, i - 1), At(scope, i + 1);
      if IsSpace(ch) {
        i := i + 1;
        continue;
      }
      if ch == '&' {
        if next == Some('&') {
          trailing := Operator;
          i := i + 1;
        } else if previous == Some('>') || previous == Some('<') {
          trailing := Operator;
        } else {
          return false;
        }
      } else if ch == '|' {
        trailing := Operator;
        if next == Some('|') { i := i + 1; }
      } else if ch == ';' {
        trailing := Semicolon;
      } else if ch == '>' || ch == '<' {
        trailing := Operator;
      } else if ch == ')' || ch == '}' {
        if trailing.Semicolon? { trailing := Clear; }
      } else {
        trailing := Clear;
      }
      i := i + 1;
    }
    return trailing.Clear? || (allowSemicolon && trailing.Semicolon?);
  }

  // ------------------------------------------------------------ canSentinel

  predicate HasHeredoc(text: string) { exists i | 0 <= i < |text| - 1 :: text[i] == '<' && text[i + 1] == '<' }

  predicate CompleteScope(scope: string, nested: bool) {
    CompleteTail(scope, nested) && CompleteControl(Words(scope, 0))
  }

  /** canSentinel */
  predicate CanSentinel(command: string) {
    && !HasHeredoc(command)
    && !(command != [] && command[|command| - 1] == '\\')
    && (forall i | 0 <= i < |command| :: !IsControl(command[i]))
    && var scopes := Scan(command);
       scopes.Some? && forall k | 0 <= k < |scopes.value| :: CompleteScope(scopes.value[k], k != 0)
  }

  datatype Dialect = Posix | Fish

  predicate IsNonce(nonce: string) {
    |nonce| == 32 && forall i | 0 <= i < 32 :: '0' <= nonce[i] <= '9' || 'a' <= nonce[i] <= 'f'
  }

  const OPENING: string := "; command printf "

  /** The parameter that holds the last exit status. */
  function Status(kind: Dialect): (name: string)
    ensures name != []
  {
    if kind.Fish? then "status" else "?"
  }

  function Format(nonce: string): string { "\\033]6973;RD;%s;" + nonce + "\\007" }

  /** sentinelSuffix, which throws for anything but a nonce. */
  function SentinelSuffix(kind: Dialect, nonce: string): Option<string> {
    if IsNonce(nonce) then Some(SuffixText(kind, nonce)) else None
  }

  function SuffixText(kind: Dialect, nonce: string): string {
    OPENING + ['\''] + Format(nonce) + ['\''] + [' '] + ['$'] + Status(kind)
  }

  /** How the suffix looks to the control grammar: its quoted format is one word. */
  function SuffixScope(kind: Dialect): string { OPENING + "q" + [' '] + ['$'] + Status(kind) }

  // ------------------------------------------------------------ reading the suffix

  predicate Ordinary(c: char) { c !in "\\'\"`$#&(){}" }

  lemma OrdinaryStep(s: State, text: string, i: nat)
    requires s.Valid() && s.quote.Bare? && i < |text|
    requires Ordinary(text[i]) || (text[i] == '$' && i + 1 < |text| && text[i + 1] != '(' && text[i + 1] != '{')
    ensures StepAt(s, text, i) == Go(s.Append([text[i]]), 1)
  {
  }

  lemma AppendTwice(s: State, a: string, b: string)
    requires s.Valid()
    ensures s.Append(a).Append(b) == s.Append(a + b)
  {
    if s.scope.Some? { assert s.scopes[s.scope.value] + a + b == s.scopes[s.scope.value] + (a + b); }
  }

  /** Ordinary text is copied to the current scope as it stands. */
  lemma {:induction false} ReadOrdinary(s: State, text: string, i: nat, part: string)
    requires s.Valid() && s.quote.Bare? && i + |part| <= |text| && text[i..i + |part|] == part
    requires forall k :: 0 <= k < |part| ==> Ordinary(part[k])
    ensures ScanFrom(s, text, i) == ScanFrom(s.Append(part), text, i + |part|)
    decreases |part|
  {
    hide StepAt, Ordinary;
    if part == [] {
      AppendNothing(s);
    } else {
      assert text[i] == part[0] && text[i + 1..i + |part|] == part[1..];
      OrdinaryStep(s, text, i);
      ReadOrdinary(s.Append([part[0]]), text, i + 1, part[1..]);
      AppendTwice(s, [part[0]], part[1..]);
      assert part == [part[0]] + part[1..];
    }
  }

  lemma {:induction false} ReadQuoted(s: State, text: string, i: nat, end: nat)
    requires s.Valid() && s.quote.Single?
    requires i <= end < |text| && text[end] == '\'' && '\'' !in text[i..end]
    ensures ScanFrom(s, text, i) == ScanFrom(s.(quote := Bare), text, end + 1)
    decreases end - i
  {
    hide Plain, Quoted;
    if i < end {
      assert text[i] in text[i..end];
      ReadQuoted(s, text, i + 1, end);
    }
  }

  lemma QuoteOpens(s: State, text: string, i: nat)
    requires s.Valid() && s.quote.Bare? && i < |text| && text[i] == '\''
    ensures ScanFrom(s, text, i) == ScanFrom(s.Append("q").(quote := Single), text, i + 1)
  {
    hide Quoted, Dollar, Closing;
  }

  /** Ordinary text, one quoted word and a plain parameter, up to the end of the line. */
  lemma ReadParts(s: State, text: string, i: nat, opening: string, format: string, closing: string)
    requires s.Valid() && s.quote.Bare?
    requires i <= |text| && text[i..] == opening + ['\''] + format + ['\''] + [' '] + ['$'] + closing
    requires closing != [] && '\'' !in format
    requires forall k :: 0 <= k < |opening| ==> Ordinary(opening[k])
    requires forall k :: 0 <= k < |closing| ==> Ordinary(closing[k])
    ensures ScanFrom(s, text, i) == ScanFrom(s.Append(opening + "q" + [' '] + ['$'] + closing), text, |text|)
  {
    hide ScanFrom, Ordinary;
    var j := i + |opening|;
    var end := j + 1 + |format|;
    PartsAt(text, i, opening, format, closing);
    ReadOrdinary(s, text, i, opening);
    var s1 := s.Append(opening);
    QuoteOpens(s1, text, j);
    var s2 := s1.Append("q");
    ReadQuoted(s2.(quote := Single), text, j + 1, end);
    ReadOne(s2, text, end + 1);
    ReadOne(s2.Append([' ']), text, end + 2);
    ReadOrdinary(s2.Append([' ']).Append(['$']), text, end + 3, closing);
    AppendTwice(s, opening, "q");
    AppendTwice(s, opening + "q", [' ']);
    AppendTwice(s, opening + "q" + [' '], ['$']);
    AppendTwice(s, opening + "q" + [' '] + ['$'], closing);
  }

  lemma ReadOne(s: State, text: string, i: nat)
    requires s.Valid() && s.quote.Bare? && i + 1 < |text|
    requires text[i] == ' ' || (text[i] == '$' && Ordinary(text[i + 1]))
    ensures ScanFrom(s, text, i) == ScanFrom(s.Append([text[i]]), text, i + 1)
  {
    hide StepAt;
    OrdinaryStep(s, text, i);
  }

  lemma PartsAt(text: string, i: nat, opening: string, format: string, closing: string)
    requires i <= |text| && text[i..] == opening + ['\''] + format + ['\''] + [' '] + ['$'] + closing
    requires closing != []
    ensures var j := i + |opening|; var end := j + 1 + |format|;
      && end + 3 + |closing| == |text|
      && text[i..j] == opening && text[j] == '\'' && text[j + 1..end] == format && text[end] == '\''
      && text[end + 1] == ' ' && text[end + 2] == '$' && text[end + 3] == closing[0]
      && text[end + 3..end + 3 + |closing|] == closing
  {
    var rest := text[i..];
    var j := |opening|;
    var end := j + 1 + |format|;
    assert rest[..j] == opening && rest[j] == '\'' && rest[j + 1..end] == format && rest[end] == '\'';
    assert rest[end + 1] == ' ' && rest[end + 2] == '$' && rest[end + 3..] == closing;
    assert forall k :: 0 <= k < |rest| ==> rest[k] == text[i + k];
  }

  lemma SuffixParts(kind: Dialect, nonce: string)
    requires IsNonce(nonce)
    ensures '\'' !in Format(nonce)
    ensures forall k :: 0 <= k < |OPENING| ==> Ordinary(OPENING[k])
    ensures forall k :: 0 <= k < |Status(kind)| ==> Ordinary(Status(kind)[k])
    ensures SuffixText(kind, nonce) != [] && SuffixText(kind, nonce)[0] == ';'
  {
  }

  lemma AppendNothing(s: State)
    requires s.Valid()
    ensures s.Append([]) == s
  {
    if s.scope.Some? { assert s.scopes[s.scope.value] + [] == s.scopes[s.scope.value]; }
  }

  lemma ReadEnd(s: State, text: string)
    requires s.Valid()
    ensures ScanFrom(s, text, |text|) == if s.quote.Bare? && s.contexts == [] then Some(s.scopes) else None
  {
  }

  /** For every accepted command, the scan of the command followed by its suffix
      succeeds, and the suffix is read in the outermost scope: never inside a quote, a
      group, a substitution or an arithmetic expression. */
  lemma TopLevelSuffix(command: string, kind: Dialect, nonce: string)
    requires CanSentinel(command) && SentinelSuffix(kind, nonce).Some?
    ensures Scan(command).Some? && Scan(command).value != []
    ensures var scopes := Scan(command).value;
      Scan(command + SentinelSuffix(kind, nonce).value) == Some(scopes[0 := scopes[0] + SuffixScope(kind)])
  {
    hide StepAt, Ordinary, Format, Status, ScanFrom, HasHeredoc, CompleteScope;
    var more := SuffixText(kind, nonce);
    SuffixParts(kind, nonce);
    assert more != [] && more[0] == ';';
    ScanThrough(START, command, more, 0);
    assert (command + more)[|command|..] == more;
    var outermost := State(Scan(command).value, [], Some(0), Bare);
    ReadParts(outermost, command + more, |command|, OPENING, Format(nonce), Status(kind));
    ReadEnd(outermost.Append(SuffixScope(kind)), command + more);
  }

  // ------------------------------------------------------------ the whole line is a safe command

  /** A complete scope stays complete when the suffix follows it. */
  lemma {:induction false} TailThrough(t: Trailing, scope: string, more: string, i: nat)
    requires i <= |scope| && more != [] && more[0] == ';'
    requires TailFrom(t, scope, i).Some?
    ensures TailFrom(t, scope + more, i) == TailFrom(TailFrom(t, scope, i).value, scope + more, |scope|)
    decreases |scope| - i
  {
    hide TailOn;
    if i < |scope| {
      var text := scope + more;
      assert At(text, i - 1) == At(scope, i - 1) && text[i] == scope[i];
      assert i + 1 < |scope| ==> At(text, i + 1) == At(scope, i + 1);
      assert i + 1 == |scope| ==> At(text, i + 1) == Some(';');
      TailSame(t, At(scope, i - 1), scope[i], At(scope, i + 1));
      var r := TailOn(t, At(scope, i - 1), scope[i], At(scope, i + 1));
      TailThrough(r.trailing, scope, more, i + r.length);
    }
  }

  lemma TailSame(t: Trailing, previous: Option<char>, ch: char, next: Option<char>)
    ensures TailOn(t, previous, ch, next) == TailOn(t, previous, ch, if next.Some? then next else Some(';'))
  {
  }

  /** Text without operators whose last character is not blank ends a command. */
  lemma {:induction false} TailClears(t: Trailing, scope: string, i: nat)
    requires i < |scope| && !IsSpace(scope[|scope| - 1])
    requires forall k :: i <= k < |scope| ==> scope[k] !in "&|;<>)}"
    ensures TailFrom(t, scope, i) == Some(Clear)
    decreases |scope| - i
  {
    if i + 1 < |scope| { TailClears(TailOn(t, At(scope, i - 1), scope[i], At(scope, i + 1)).trailing, scope, i + 1); }
  }

  lemma {:induction false} EndStays(a: string, b: string, i: nat)
    requires i <= |a| && b != [] && b[0] == ';'
    ensures WordEnd(a + b, i) == WordEnd(a, i)
    decreases |a| - i
  {
    if i < |a| && WordChar(a[i]) { EndStays(a, b, i + 1); }
  }

  lemma FoundStays(a: string, b: string, i: nat)
    requires i < |a| && b != [] && b[0] == ';'
    ensures FindWord(a + b, i) == FindWord(a, i)
  {
    hide WordChar, WordEnd;
    var text := a + b;
    EndStays(a, b, i);
    assert text[i] == a[i] && text[i..WordEnd(a, i)] == a[i..WordEnd(a, i)];
    if i + 1 < |a| { assert text[i + 1] == a[i + 1] && text[i..i + 2] == a[i..i + 2]; } else { assert text[i + 1] == ';'; }
  }

  lemma {:induction false} WordsJoin(a: string, b: string, i: nat)
    requires i <= |a| && b != [] && b[0] == ';'
    ensures Words(a + b, i) == Words(a, i) + Words(b, 0)
    decreases |a| - i
  {
    hide FindWord;
    if i == |a| {
      WordsShift(a, b, 0);
      assert Words(a, i) + Words(b, 0) == Words(b, 0);
    } else {
      FoundStays(a, b, i);
      WordsJoin(a, b, FindWord(a, i).end);
    }
  }

  lemma {:induction false} EndShifts(a: string, b: string, i: nat)
    requires i <= |b|
    ensures WordEnd(a + b, |a| + i) == |a| + WordEnd(b, i)
    decreases |b| - i
  {
    if i < |b| && WordChar(b[i]) { EndShifts(a, b, i + 1); }
  }

  lemma FoundShifts(a: string, b: string, i: nat)
    requires i < |b|
    ensures FindWord(a + b, |a| + i) == Found(FindWord(b, i).words, |a| + FindWord(b, i).end)
  {
    hide WordChar, WordEnd;
    var text := a + b;
    var n := |a| + i;
    EndShifts(a, b, i);
    assert text[n] == b[i] && text[n..|a| + WordEnd(b, i)] == b[i..WordEnd(b, i)];
    if i + 1 < |b| { assert text[n + 1] == b[i + 1] && text[n..n + 2] == b[i..i + 2]; }
  }

  /** Words of a suffix do not depend on what precedes it. */
  lemma {:induction false} WordsShift(a: string, b: string, i: nat)
    requires i <= |b|
    ensures Words(a + b, |a| + i) == Words(b, i)
    decreases |b| - i
  {
    hide FindWord;
    if i < |b| {
      FoundShifts(a, b, i);
      WordsShift(a, b, FindWord(b, i).end);
    }
  }

  lemma {:induction false} WordEndsAt(w: string, rest: string, i: nat)
    requires i <= |w| && (forall k :: 0 <= k < |w| ==> WordChar(w[k])) && (rest == [] || !WordChar(rest[0]))
    ensures WordEnd(w + rest, i) == |w|
    decreases |w| - i
  {
    if i < |w| { WordEndsAt(w, rest, i + 1); }
  }

  lemma WordFirst(w: string, rest: string)
    requires w != [] && (forall k :: 0 <= k < |w| ==> WordChar(w[k])) && (rest == [] || !WordChar(rest[0]))
    ensures Words(w + rest, 0) == [w] + Words(rest, 0)
  {
    WordEndsAt(w, rest, 0);
    WordsShift(w, rest, 0);
    assert (w + rest)[0] == w[0] && (w + rest)[0..|w|] == w;
  }

  lemma BlankFirst(rest: string)
    ensures Words([' '] + rest, 0) == Words(rest, 0)
  {
    WordsShift([' '], rest, 0);
    assert IsSpace(' ');
  }

  const TYPED: seq<string> := ["command", "printf", "q"]

  lemma SuffixWords(kind: Dialect)
    ensures Words(SuffixScope(kind), 0) == [";"] + TYPED + [['$'] + Status(kind)]
  {
    hide Words, WordChar, Status;
    var q := "q" + ([' '] + (['$'] + Status(kind)));
    var printf := "printf" + ([' '] + q);
    var command := "command" + ([' '] + printf);
    assert SuffixScope(kind) == [';'] + ([' '] + command) by {
      assert OPENING == [';'] + [' '] + "command" + [' '] + "printf" + [' '];
    }
    WordLetters(kind);
    LastWords(kind);
    WordFirst("printf", [' '] + q);
    BlankFirst(printf);
    WordFirst("command", [' '] + printf);
    BlankFirst(command);
    SemicolonFirst([' '] + command);
  }

  lemma LastWords(kind: Dialect)
    ensures Words([' '] + ("q" + ([' '] + (['$'] + Status(kind)))), 0) == ["q", ['$'] + Status(kind)]
  {
    hide Words, WordChar, Status;
    var last := ['$'] + Status(kind);
    WordLetters(kind);
    assert last + [] == last;
    WordFirst(last, []);
    BlankFirst(last);
    WordFirst("q", [' '] + last);
    BlankFirst("q" + ([' '] + last));
    NoWords();
  }

  lemma NoWords()
    ensures Words([], 0) == []
  {
  }

  lemma SemicolonFirst(rest: string)
    ensures Words([';'] + rest, 0) == [";"] + Words(rest, 0)
  {
    WordsShift([';'], rest, 0);
  }

  lemma WordLetters(kind: Dialect)
    ensures !WordChar(' ')
    ensures forall k :: 0 <= k < |['$'] + Status(kind)| ==> WordChar((['$'] + Status(kind))[k])
    ensures forall k :: 0 <= k < 7 ==> WordChar("command"[k])
    ensures forall k :: 0 <= k < 6 ==> WordChar("printf"[k])
    ensures WordChar('q')
  {
  }

  lemma {:induction false} KeywordsJoin(a: seq<string>, b: seq<string>, place: Place)
    ensures Keywords(a + b, place) == Keywords(a, place) + Keywords(b, PlaceAfter(a, place))
    ensures PlaceAfter(a + b, place) == PlaceAfter(b, PlaceAfter(a, place))
  {
    hide IsKeyword, Next, KeywordOf;
    if a == [] {
      assert a + b == b;
    } else {
      assert (a + b)[1..] == a[1..] + b;
      KeywordsJoin(a[1..], b, Next(place, a[0]));
    }
  }

  lemma SuffixKeywords(kind: Dialect, place: Place)
    requires !place.test
    ensures var words := [";"] + TYPED + [['$'] + Status(kind)];
      Keywords(words, place) == [] && !PlaceAfter(words, place).test
  {
    var last := [['$'] + Status(kind)];
    var words := [";"] + TYPED + last;
    assert words[1..] == TYPED + last && words[1..][1..] == ["printf", "q"] + last;
    assert words[1..][1..][1..] == ["q"] + last && words[1..][1..][1..][1..] == last && last[1..] == [];
    assert Next(place, ";") == Place(true, false);
    assert Next(Place(true, false), "command") == Place(false, false);
    assert last[0][0] == '$' && forall w :: w in {";", "&&", "||", "|", "(", "{"} ==> w[0] != '$';
    Inert(["printf", "q"] + last);
  }

  /** Outside command position only an operator matters. */
  lemma {:induction false} Inert(words: seq<string>)
    requires forall k :: 0 <= k < |words| ==> words[k] !in {";", "&&", "||", "|", "(", "{"}
    ensures Keywords(words, Place(false, false)) == [] && PlaceAfter(words, Place(false, false)) == Place(false, false)
  {
    if words != [] { Inert(words[1..]); }
  }

  lemma SuffixControl(words: seq<string>, kind: Dialect)
    requires CompleteControl(words)
    ensures CompleteControl(words + ([";"] + TYPED + [['$'] + Status(kind)]))
  {
    hide Keywords, PlaceAfter, Accepts;
    var more := [";"] + TYPED + [['$'] + Status(kind)];
    var start := Place(true, false);
    KeywordsJoin(words, more, start);
    SuffixKeywords(kind, PlaceAfter(words, start));
    assert Keywords(words, start) + [] == Keywords(words, start);
    assert forall k :: 0 <= k < |more| ==> more[k] != ")";
    assert forall k :: 0 <= k < |words| ==> (words + more)[k] == words[k];
    assert forall k :: |words| <= k < |words + more| ==> (words + more)[k] == more[k - |words|];
  }

  lemma SuffixScopeComplete(scope: string, kind: Dialect)
    requires CompleteScope(scope, false)
    ensures CompleteScope(scope + SuffixScope(kind), false)
  {
    hide TailFrom, Words, CompleteControl;
    var more := SuffixScope(kind);
    SuffixClears(kind);
    TailThrough(Clear, scope, more, 0);
    var text := scope + more;
    assert forall k :: |scope| <= k < |text| ==> text[k] == more[k - |scope|];
    SemicolonClears(text, |scope|);
    WordsJoin(scope, more, 0);
    SuffixWords(kind);
    SuffixControl(Words(scope, 0), kind);
  }

  lemma SuffixClears(kind: Dialect)
    ensures var more := SuffixScope(kind);
      && |more| > 1 && more[0] == ';' && !IsSpace(more[|more| - 1])
      && forall k :: 1 <= k < |more| ==> more[k] !in "&|;<>)}"
  {
  }

  lemma SemicolonClears(text: string, i: nat)
    requires i + 1 < |text| && text[i] == ';' && !IsSpace(text[|text| - 1])
    requires forall k :: i + 1 <= k < |text| ==> text[k] !in "&|;<>)}"
    ensures TailFrom(Clear, text, i) == Some(Clear)
  {
    assert !IsSpace(';');
    TailClears(Semicolon, text, i + 1);
  }

  /** The line that is typed, command and suffix together, is again a line that could
      carry a suffix: nothing in it is left open. */
  lemma SuffixKeepsSafe(command: string, kind: Dialect, nonce: string)
    requires CanSentinel(command) && SentinelSuffix(kind, nonce).Some?
    ensures CanSentinel(command + SentinelSuffix(kind, nonce).value)
  {
    hide Scan, CompleteScope, SuffixScope;
    TopLevelSuffix(command, kind, nonce);
    SuffixScopeComplete(Scan(command).value[0], kind);
    SuffixCharacters(command, kind, nonce);
  }

  lemma SuffixCharacters(command: string, kind: Dialect, nonce: string)
    requires !HasHeredoc(command) && IsNonce(nonce)
    requires forall i :: 0 <= i < |command| ==> !IsControl(command[i])
    ensures var line := command + SuffixText(kind, nonce);
      && !HasHeredoc(line) && line != [] && line[|line| - 1] != '\\'
      && forall i :: 0 <= i < |line| ==> !IsControl(line[i])
  {
    var more := SuffixText(kind, nonce);
    PlainCharacters(kind, nonce);
  }

  lemma PlainCharacters(kind: Dialect, nonce: string)
    requires IsNonce(nonce)
    ensures var more := SuffixText(kind, nonce);
      && more != [] && more[|more| - 1] != '\\' && forall k :: 0 <= k < |more| ==> !IsControl(more[k]) && more[k] != '<'
  {
  }
}
