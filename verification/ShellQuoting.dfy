/** The quoting printer of src/lib/ptyExecShell.ts and the word splitter of
    src/lib/nesting.ts, which is its decoder (section 2.2 of the POSIX Shell Command
    Language). */
module ShellQuoting {
  import opened Basics
  import opened ShellScan

  // ------------------------------------------------------------ the decoder

  datatype Split = Split(words: seq<string>, complete: bool, compound: bool)

  /** The splitter between two characters. */
  datatype Reader = Reader(words: seq<string>, current: string, started: bool, quote: Quote, compound: bool) {
    function Word(): seq<string> { if started then words + [current] else words }

    function Take(c: char): Reader { this.(current := current + [c]) }
  }

  const EMPTY := Reader([], "", false, Bare, false)

  /** One character; `next` matters to a backslash alone. None when the text stops at a
      backslash. */
  function Read(r: Reader, ch: char, next: Option<char>): Option<(Reader, nat)>
    ensures var out := Read(r, ch, next); out.Some? ==> out.value.1 > 0
  {
    if r.quote.Single? then Some((if ch == '\'' then r.(quote := Bare) else r.Take(ch), 1))
    else if ch == '\\' then
      if next.None? then None
      else if r.quote.Bare? || next.value in "$`\"\\\n" then
        Some(((if next.value == '\n' then r else r.Take(next.value)).(started := true), 2))
      else Some((r.Take(ch), 1))
    else if r.quote.Double? then Some((if ch == '"' then r.(quote := Bare) else r.Take(ch), 1))
    else if ch == '\'' then Some((r.(quote := Single, started := true), 1))
    else if ch == '"' then Some((r.(quote := Double, started := true), 1))
    else if IsSpace(ch) then Some((Reader(r.Word(), "", false, Bare, r.compound), 1))
    else
      Some((r.Take(ch).(started := true, compound := r.compound || ch in ";&|<>()`" || (ch == '#' && !r.started)), 1))
  }

  function SplitFrom(r: Reader, text: string, i: nat): Split
    decreases |text| - i
  {
    if i >= |text| then Split(r.Word(), r.quote.Bare?, r.compound)
    else
      match Read(r, text[i], At(text, i + 1))
      case None => Split(r.words, false, r.compound)
      case Some(step) => SplitFrom(step.0, text, i + step.1)
  }

  function SplitOf(command: string): Split { SplitFrom(EMPTY, command, 0) }

  /** splitCommand */
  method SplitCommand(command: string) returns (split: Split)
    ensures split == SplitOf(command)
  {
    var words: seq<string> := [];
    var current := "";
    var started, quote, compound := false, Bare, false;
    var i := 0;
    while i < |command|
      invariant 0 <= i
      invariant SplitOf(command) == SplitFrom(Reader(words, current, started, quote, compound), command, i)
      decreases |command| - i
    {
      var ch := command[i];
      if quote.Single? {
        if ch == '\'' { quote := Bare; } else { current := current + [ch]; }
        i := i + 1;
        continue;
      }
      if ch == '\\' {
        var next := At(command, i + 1);
        if next.None? { return Split(words, false, compound); }
        if quote.Bare? || next.value in "$`\"\\\n" {
          if next.value != '\n' { current := current + [next.value]; }
          started := true;
          i := i + 2;
          continue;
        }
        current := current + [ch];
        i := i + 1;
        continue;
      }
      if quote.Double? {
        if ch == '"' { quote := Bare; } else { current := current + [ch]; }
        i := i + 1;
        continue;
      }
      if ch == '\'' || ch == '"' {
        quote := if ch == '\'' then Single else Double;
        started := true;
        i := i + 1;
        continue;
      }
      if IsSpace(ch) {
        if started { words := words + [current]; }
        current, started := "", false;
        i := i + 1;
        continue;
      }
      if ch in ";&|<>()`" || (ch == '#' && !started) { compound := true; }
      current := current + [ch];
      started := true;
      i := i + 1;
    }
    if started { words := words + [current]; }
    return Split(words, quote.Bare?, compound);
  }

  // ------------------------------------------------------------ the printer

  /** Close the quote, quote a quote, open again. */
  const FIVE: string := "'\"'\"'"

  /** Replace every single quote by a quoted one. */
  function Escaped(value: string): string {
    if value == "" then ""
    else (if value[0] == '\'' then FIVE else [value[0]]) + Escaped(value[1..])
  }

  function Quoted(value: string): string { ['\''] + Escaped(value) + ['\''] }

  datatype Binding = Binding(name: string, value: string)

  predicate NameChar(c: char) { 'A' <= c <= 'Z' || 'a' <= c <= 'z' || '0' <= c <= '9' || c == '_' }

  predicate ValidName(name: string) {
    |name| > 5 && name[..5] == "VRUN_" && forall k | 5 <= k < |name| :: NameChar(name[k])
  }

  predicate HasControl(s: string) { exists k | 0 <= k < |s| :: IsControl(s[k]) }

  /** JavaScript's length: a character beyond the first plane is two units. */
  function Units(s: string): nat {
    if s == "" then 0 else (if s[0] as int > 0xffff then 2 else 1) + Units(s[1..])
  }

  datatype PrefixError = InvalidName(name: string) | ControlCharacters(name: string) | TooLong

  const MAX_LINE: nat := 4_096

  /** The assignments of the entries, or the first entry that is refused. */
  function Assignments(entries: seq<Binding>): Result<string, PrefixError> {
    if entries == [] then Ok("")
    else if !ValidName(entries[0].name) then Err(InvalidName(entries[0].name))
    else if HasControl(entries[0].value) then Err(ControlCharacters(entries[0].name))
    else
      match Assignments(entries[1..])
      case Err(e) => Err(e)
      case Ok(rest) => Ok(entries[0].name + ['='] + Quoted(entries[0].value) + [' '] + rest)
  }

  /** prefixCommandEnvironment, over the entries in the order the caller sorted them. */
  function PrefixCommandEnvironment(command: string, entries: seq<Binding>): Result<string, PrefixError> {
    if entries == [] then Ok(command)
    else
      match Assignments(entries)
      case Err(e) => Err(e)
      case Ok(assignments) =>
        var line := ENV + [' '] + assignments + (SHELL + [' ']) + (FLAG + [' ']) + Quoted(command);
        if Units(line) > MAX_LINE then Err(TooLong) else Ok(line)
  }

  // ------------------------------------------------------------ decoding what was printed

  /** Reading more of the same word. */
  function Reading(r: Reader, more: string): Reader { r.(current := r.current + more, started := true) }

  lemma EscapedFirst(value: string)
    requires value != ""
    ensures Escaped(value) == (if value[0] == '\'' then FIVE else [value[0]]) + Escaped(value[1..])
    ensures value == [value[0]] + value[1..]
  {
  }

  lemma {:induction false} ReadsEscaped(r: Reader, text: string, i: nat, value: string)
    requires r.quote.Single? && r.started && Occurs(text, i, Escaped(value) + ['\''])
    ensures SplitFrom(r, text, i)
         == SplitFrom(r.(current := r.current + value, quote := Bare), text, i + |Escaped(value)| + 1)
    decreases |value|
  {
    hide IsSpace, Escaped, Occurs, SplitFrom;
    if value == "" {
      assert Escaped(value) + ['\''] == ['\''] && |Escaped(value)| == 0 by { EscapedNothing(); }
      assert r.current + value == r.current;
      StepInside(r, text, i, '\'');
    } else {
      EscapedFirst(value);
      var first := if value[0] == '\'' then FIVE else [value[0]];
      var more := Escaped(value[1..]) + ['\''];
      assert Escaped(value) + ['\''] == first + more;
      OccursJoin(text, i, first, more);
      if value[0] == '\'' {
        FiveSteps(r, text, i);
      } else {
        StepInside(r, text, i, value[0]);
      }
      ReadsEscaped(r.Take(value[0]), text, i + |first|, value[1..]);
      assert r.current + [value[0]] + value[1..] == r.current + value;
    }
  }

  lemma EscapedNothing()
    ensures Escaped("") == ""
  {
  }

  lemma StepInside(r: Reader, text: string, i: nat, c: char)
    requires r.quote.Single? && Occurs(text, i, [c])
    ensures SplitFrom(r, text, i) == SplitFrom(if c == '\'' then r.(quote := Bare) else r.Take(c), text, i + 1)
  {
    hide IsSpace;
    assert text[i] == [c][0];
  }

  /** The five characters that stand for one single quote. */
  lemma FiveSteps(r: Reader, text: string, i: nat)
    requires r.quote.Single? && r.started && Occurs(text, i, FIVE)
    ensures SplitFrom(r, text, i) == SplitFrom(r.Take('\''), text, i + 5)
  {
    hide IsSpace;
    assert text[i] == '\'' && text[i + 1] == '"' && text[i + 2] == '\'' && text[i + 3] == '"' && text[i + 4] == '\'' by {
      assert FIVE[0] == '\'' && FIVE[1] == '"' && FIVE[2] == '\'' && FIVE[3] == '"' && FIVE[4] == '\'';
    }
    var r1 := r.(quote := Bare);
    assert SplitFrom(r, text, i) == SplitFrom(r1, text, i + 1);
    var r2 := r.(quote := Double);
    assert SplitFrom(r1, text, i + 1) == SplitFrom(r2, text, i + 2);
    var r3 := r2.Take('\'');
    assert SplitFrom(r2, text, i + 2) == SplitFrom(r3, text, i + 3);
    assert SplitFrom(r3, text, i + 3) == SplitFrom(r3.(quote := Bare), text, i + 4);
    assert SplitFrom(r3.(quote := Bare), text, i + 4) == SplitFrom(r3.(quote := Single), text, i + 5);
  }

  /** Decoding a quoted string gives it back, as part of the word it stands in. */
  lemma QuotingRoundTrip(r: Reader, text: string, i: nat, value: string)
    requires r.quote.Bare? && Occurs(text, i, Quoted(value))
    ensures SplitFrom(r, text, i) == SplitFrom(Reading(r, value), text, i + |Quoted(value)|)
  {
    hide IsSpace, Escaped, Occurs, SplitFrom;
    var more := Escaped(value) + ['\''];
    assert Quoted(value) == ['\''] + more;
    OccursJoin(text, i, ['\''], more);
    StepOutside(r, text, i);
    ReadsEscaped(r.(quote := Single, started := true), text, i + 1, value);
  }

  lemma StepOutside(r: Reader, text: string, i: nat)
    requires r.quote.Bare? && Occurs(text, i, ['\''])
    ensures SplitFrom(r, text, i) == SplitFrom(r.(quote := Single, started := true), text, i + 1)
  {
    hide IsSpace;
    assert text[i] == ['\''][0];
  }

  predicate PlainChar(c: char) { !IsSpace(c) && c !in "\\'\";&|<>()`#" }

  lemma {:induction false} ReadsPlain(r: Reader, text: string, i: nat, word: string)
    requires r.quote.Bare? && word != "" && Occurs(text, i, word)
    requires forall k :: 0 <= k < |word| ==> PlainChar(word[k])
    ensures SplitFrom(r, text, i) == SplitFrom(Reading(r, word), text, i + |word|)
    decreases |word|
  {
    hide Occurs, SplitFrom, PlainChar;
    var next := Reading(r, [word[0]]);
    assert word == [word[0]] + word[1..];
    OccursJoin(text, i, [word[0]], word[1..]);
    StepPlain(r, text, i, word[0]);
    if |word| > 1 {
      ReadsPlain(next, text, i + 1, word[1..]);
      assert r.current + [word[0]] + word[1..] == r.current + word;
    } else {
      assert word == [word[0]];
    }
  }

  lemma StepPlain(r: Reader, text: string, i: nat, c: char)
    requires r.quote.Bare? && Occurs(text, i, [c]) && PlainChar(c)
    ensures SplitFrom(r, text, i) == SplitFrom(Reading(r, [c]), text, i + 1)
  {
    hide IsSpace;
    assert text[i] == [c][0];
  }

  lemma ReadsSpace(r: Reader, text: string, i: nat)
    requires r.quote.Bare? && Occurs(text, i, [' '])
    ensures SplitFrom(r, text, i) == SplitFrom(Reader(r.Word(), "", false, Bare, r.compound), text, i + 1)
  {
    assert IsSpace(' ') && text[i] == [' '][0];
  }

  /** NAME=value, for each entry. */
  function Bindings(entries: seq<Binding>): seq<string> {
    if entries == [] then []
    else [entries[0].name + ['='] + entries[0].value] + Bindings(entries[1..])
  }

  /** A reader between two words. */
  function Between(words: seq<string>): Reader { Reader(words, "", false, Bare, false) }

  lemma NameIsPlain(name: string)
    requires ValidName(name)
    ensures forall k :: 0 <= k < |name + ['=']| ==> PlainChar((name + ['='])[k])
  {
    forall k | 0 <= k < |name + ['=']| ensures PlainChar((name + ['='])[k]) {
      if k < 5 { assert name[k] == name[..5][k]; }
    }
  }

  lemma ReadsBinding(words: seq<string>, text: string, i: nat, name: string, value: string)
    requires ValidName(name) && Occurs(text, i, name + ['='] + Quoted(value) + [' '])
    ensures SplitFrom(Between(words), text, i)
         == SplitFrom(Between(words + [name + ['='] + value]), text, i + |name + ['='] + Quoted(value) + [' ']|)
  {
    hide IsSpace, SplitFrom, Quoted, PlainChar, ValidName, Occurs;
    var prefix, quoted := name + ['='], Quoted(value);
    OccursJoin(text, i, prefix + quoted, [' ']);
    OccursJoin(text, i, prefix, quoted);
    NameIsPlain(name);
    var r := Between(words);
    ReadsPlain(r, text, i, prefix);
    QuotingRoundTrip(Reading(r, prefix), text, i + |prefix|, value);
    ReadsSpace(Reading(Reading(r, prefix), value), text, i + |prefix| + |quoted|);
    assert "" + prefix + value == prefix + value;
  }

  lemma {:induction false} ReadsBindings(words: seq<string>, text: string, i: nat, entries: seq<Binding>)
    requires Assignments(entries).Ok? && Occurs(text, i, Assignments(entries).value)
    ensures SplitFrom(Between(words), text, i)
         == SplitFrom(Between(words + Bindings(entries)), text, i + |Assignments(entries).value|)
    decreases |entries|
  {
    hide SplitFrom, Quoted, ValidName, HasControl, Occurs;
    if entries == [] {
      assert words + Bindings(entries) == words;
    } else {
      var e := entries[0];
      var part, rest := e.name + ['='] + Quoted(e.value) + [' '], Assignments(entries[1..]).value;
      assert Assignments(entries).value == part + rest;
      OccursJoin(text, i, part, rest);
      ReadsBinding(words, text, i, e.name, e.value);
      ReadsBindings(words + [e.name + ['='] + e.value], text, i + |part|, entries[1..]);
      assert words + [e.name + ['='] + e.value] + Bindings(entries[1..]) == words + Bindings(entries);
    }
  }

  lemma ReadsWord(words: seq<string>, text: string, i: nat, word: string)
    requires word != "" && forall k :: 0 <= k < |word| ==> PlainChar(word[k])
    requires Occurs(text, i, word + [' '])
    ensures SplitFrom(Between(words), text, i) == SplitFrom(Between(words + [word]), text, i + |word + [' ']|)
  {
    hide IsSpace, SplitFrom, PlainChar, Occurs;
    OccursJoin(text, i, word, [' ']);
    ReadsPlain(Between(words), text, i, word);
    ReadsSpace(Reading(Between(words), word), text, i + |word|);
    assert "" + word == word;
  }

  lemma ReadsNothing(r: Reader, text: string)
    ensures SplitFrom(r, text, |text|) == Split(r.Word(), r.quote.Bare?, r.compound)
  {
  }

  const ENV: string := "env"
  const SHELL: string := "/bin/sh"
  const FLAG: string := "-c"

  lemma FixedWords()
    ensures ENV != "" && SHELL != "" && FLAG != ""
    ensures forall k :: 0 <= k < |ENV| ==> PlainChar(ENV[k])
    ensures forall k :: 0 <= k < |SHELL| ==> PlainChar(SHELL[k])
    ensures forall k :: 0 <= k < |FLAG| ==> PlainChar(FLAG[k])
  {
  }

  /** For every command and non-empty environment that is accepted, the printed line
      decodes to exactly env, the assignments, the child shell and the command, whatever
      quotes, spaces or operators the values and the command contain. */
  lemma PrefixRoundTrip(command: string, entries: seq<Binding>)
    requires entries != [] && PrefixCommandEnvironment(command, entries).Ok?
    ensures SplitOf(PrefixCommandEnvironment(command, entries).value)
         == Split([ENV] + Bindings(entries) + [SHELL, FLAG, command], true, false)
  {
    hide IsSpace, SplitFrom, Quoted, PlainChar, Assignments, Units, Bindings, Occurs, ENV, SHELL, FLAG;
    var env, shell, flag := ENV + [' '], SHELL + [' '], FLAG + [' '];
    var assignments, quoted := Assignments(entries).value, Quoted(command);
    var line := env + assignments + shell + flag + quoted;
    OccursWhole(line);
    OccursJoin(line, 0, env + assignments + shell + flag, quoted);
    OccursJoin(line, 0, env + assignments + shell, flag);
    OccursJoin(line, 0, env + assignments, shell);
    OccursJoin(line, 0, env, assignments);
    FixedWords();
    ReadsWord([], line, 0, ENV);
    assert [] + [ENV] == [ENV];
    ReadsBindings([ENV], line, |env|, entries);
    var words := [ENV] + Bindings(entries);
    ReadsWord(words, line, |env + assignments|, SHELL);
    ReadsWord(words + [SHELL], line, |env + assignments + shell|, FLAG);
    var r := Between(words + [SHELL] + [FLAG]);
    QuotingRoundTrip(r, line, |env + assignments + shell + flag|, command);
    ReadsNothing(Reading(r, command), line);
    assert "" + command == command;
    assert words + [SHELL] + [FLAG] + [command] == words + [SHELL, FLAG, command];
  }

  // ------------------------------------------------------------ what is refused

  /** ^VRUN_[A-Za-z0-9_]+$ */
  predicate Named(name: string) {
    && 5 < |name| && "VRUN_" <= name
    && forall k | 5 <= k < |name| :: 'A' <= name[k] <= 'Z' || 'a' <= name[k] <= 'z' || '0' <= name[k] <= '9' || name[k] == '_'
  }

  predicate Controls(value: string) { exists k | 0 <= k < |value| :: value[k] as int <= 0x1f || 0x7f <= value[k] as int <= 0x9f }

  /** The k-th entry is the first that is refused, for this reason. */
  predicate FirstRefused(entries: seq<Binding>, k: nat, e: PrefixError) {
    && k < |entries| && (forall j | 0 <= j < k :: Named(entries[j].name) && !Controls(entries[j].value))
    && e == (if !Named(entries[k].name) then InvalidName(entries[k].name) else ControlCharacters(entries[k].name))
    && (Named(entries[k].name) ==> Controls(entries[k].value))
  }

  lemma RefusalsAre(b: Binding)
    ensures ValidName(b.name) <==> Named(b.name)
    ensures HasControl(b.value) <==> Controls(b.value)
  {
    if |b.name| > 5 { assert b.name[..5] == "VRUN_" <==> "VRUN_" <= b.name; }
  }

  lemma {:induction false} AssignmentsExactly(entries: seq<Binding>)
    ensures match Assignments(entries)
      case Ok(_) => forall k :: 0 <= k < |entries| ==> Named(entries[k].name) && !Controls(entries[k].value)
      case Err(e) => exists k: nat :: FirstRefused(entries, k, e)
  {
    hide ValidName, HasControl, Named, Controls, Quoted;
    if entries != [] {
      RefusalsAre(entries[0]);
      AssignmentsExactly(entries[1..]);
      var rest := Assignments(entries[1..]);
      if !Named(entries[0].name) || Controls(entries[0].value) {
        assert FirstRefused(entries, 0, Assignments(entries).error);
      } else if rest.Err? {
        var k: nat :| FirstRefused(entries[1..], k, rest.error);
        assert FirstRefused(entries, k + 1, rest.error);
        assert Assignments(entries) == Err(rest.error);
      }
    }
  }

  /** A command with inputs is refused exactly for the first input with a bad name or with
      control characters in its value, or because the line is longer than 4,096 units. */
  lemma PrefixExactly(command: string, entries: seq<Binding>)
    ensures match PrefixCommandEnvironment(command, entries)
      case Err(TooLong) =>
        entries != [] && Assignments(entries).Ok?
        && Units(ENV + [' '] + Assignments(entries).value + (SHELL + [' ']) + (FLAG + [' ']) + Quoted(command)) > 4_096
      case Err(e) => exists k: nat :: FirstRefused(entries, k, e)
      case Ok(line) =>
        && (forall k :: 0 <= k < |entries| ==> Named(entries[k].name) && !Controls(entries[k].value))
        && (entries == [] ==> line == command) && (entries != [] ==> Units(line) <= 4_096)
  {
    hide Named, Controls, Quoted, Units, Assignments;
    AssignmentsExactly(entries);
    if Assignments(entries).Err? {
      assert Assignments(entries).error != TooLong by { NotTooLong(entries); }
    }
  }

  lemma NotTooLong(entries: seq<Binding>)
    ensures Assignments(entries) != Err(TooLong)
  {
  }
}
