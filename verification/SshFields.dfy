/** What a line of an ssh config file says and which host fields it sets, told from the
    text alone: src-tauri/src/ssh_config.rs. */
module SshFields {
  import opened Basics
  import opened SshConfig

  // ------------------------------------------------------------ the shape of a line

  predicate AllWhite(s: string) { forall k | 0 <= k < |s| :: White(s[k]) }

  predicate AllIn(s: string, chars: string) { forall k | 0 <= k < |s| :: s[k] in chars }

  /** Text that neither begins nor ends with white space. */
  predicate Bare(s: string) { s != "" && !White(s[0]) && !White(s[|s| - 1]) }

  /** Two keywords that differ in the case of English letters at most. */
  predicate SameLetters(lower: string, key: string) {
    |lower| == |key|
    && forall k | 0 <= k < |key| ::
         lower[k] == if 'A' <= key[k] <= 'Z' then (key[k] as int - 'A' as int + 'a' as int) as char else key[k]
  }

  /** The line is white space, a key, a separator, a value and white space. The separator
      is not empty: equals signs, blanks and tabs, then white space; a value that begins
      with an equals sign has white space other than blanks and tabs before it. */
  ghost predicate Shaped(line: string, keyword: string, value: string, before: string, key: string, signs: string,
                         gap: string, after: string) {
    && line == before + key + signs + gap + value + after
    && AllWhite(before) && AllWhite(after) && AllWhite(gap) && AllIn(signs, "= \t")
    && key != "" && (forall k :: 0 <= k < |key| ==> !White(key[k]) && key[k] != '=') && key[0] != '#'
    && signs + gap != "" && Bare(value)
    && (if gap == "" then value[0] != '=' else gap[0] !in " \t")
    && SameLetters(keyword, key)
  }

  ghost predicate Says(line: string, keyword: string, value: string) {
    exists before, key, signs, gap, after :: Shaped(line, keyword, value, before, key, signs, gap, after)
  }

  lemma {:induction false} LowerIs(key: string, lower: string)
    ensures SameLetters(lower, key) <==> lower == Lower(key)
  {
    if key == "" {
    } else {
      if |lower| > 0 {
        LowerIs(key[1..], lower[1..]);
        assert lower == [lower[0]] + lower[1..];
        if SameLetters(lower, key) { assert lower[0] == lower[0]; assert SameLetters(lower[1..], key[1..]); }
        if lower == Lower(key) {
          assert lower[1..] == Lower(key[1..]);
          forall k | 0 <= k < |key|
            ensures lower[k] == if 'A' <= key[k] <= 'Z' then (key[k] as int - 'A' as int + 'a' as int) as char else key[k]
          {
            if k > 0 { assert key[k] == key[1..][k - 1] && lower[k] == lower[1..][k - 1]; }
          }
        }
      }
    }
  }

  lemma {:induction false} TrimStartIs(s: string) returns (white: string)
    ensures s == white + TrimStart(s) && AllWhite(white)
    ensures TrimStart(s) != "" ==> !White(TrimStart(s)[0])
  {
    hide White;
    if s != "" && White(s[0]) {
      white := TrimStartIs(s[1..]);
      white := [s[0]] + white;
    } else {
      white := "";
    }
  }

  lemma {:induction false} TrimEndIs(s: string) returns (white: string)
    ensures s == TrimEnd(s) + white && AllWhite(white)
    ensures TrimEnd(s) != "" ==> !White(TrimEnd(s)[|TrimEnd(s)| - 1])
  {
    hide White;
    if s != "" && White(s[|s| - 1]) {
      var n := |s| - 1;
      white := TrimEndIs(s[..n]);
      assert s == s[..n] + [s[n]];
      white := white + [s[n]];
    } else {
      white := "";
    }
  }

  lemma TrimIs(s: string) returns (before: string, after: string)
    ensures s == before + Trim(s) + after && AllWhite(before) && AllWhite(after)
    ensures Trim(s) != "" ==> Bare(Trim(s))
  {
    hide White, TrimStart, TrimEnd;
    after := TrimEndIs(s);
    before := TrimStartIs(TrimEnd(s));
    var t := Trim(s);
    assert TrimEnd(s) == before + t;
    if t != "" { assert TrimEnd(s)[|TrimEnd(s)| - 1] == t[|t| - 1]; }
  }

  lemma {:induction false} TrimStartOf(white: string, t: string)
    requires AllWhite(white) && (t != "" ==> !White(t[0]))
    ensures TrimStart(white + t) == t
  {
    hide White;
    if white == "" {
      assert white + t == t;
    } else {
      assert (white + t)[1..] == white[1..] + t;
      TrimStartOf(white[1..], t);
    }
  }

  lemma {:induction false} TrimEndOf(t: string, white: string)
    requires AllWhite(white) && (t != "" ==> !White(t[|t| - 1]))
    ensures TrimEnd(t + white) == t
    decreases |white|
  {
    hide White;
    if white == "" {
      assert t + white == t;
    } else {
      var n := |white| - 1;
      assert (t + white)[..|t| + n] == t + white[..n];
      TrimEndOf(t, white[..n]);
    }
  }

  lemma TrimOf(before: string, t: string, after: string)
    requires AllWhite(before) && AllWhite(after) && Bare(t)
    ensures Trim(before + t + after) == t
  {
    hide White, TrimStart, TrimEnd;
    TrimEndOf(before + t, after);
    TrimStartOf(before, t);
  }

  lemma {:induction false} BreakIs(s: string)
    ensures Break(s) <= |s| && (Break(s) < |s| ==> White(s[Break(s)]) || s[Break(s)] == '=')
    ensures forall k :: 0 <= k < Break(s) ==> !White(s[k]) && s[k] != '='
  {
    hide White;
    if s != "" && !White(s[0]) && s[0] != '=' {
      BreakIs(s[1..]);
      forall k | 0 <= k < Break(s) ensures !White(s[k]) && s[k] != '=' {
        if k > 0 { assert s[k] == s[1..][k - 1]; }
      }
    }
  }

  lemma {:induction false} SkipIs(s: string) returns (signs: string)
    ensures s == signs + SkipSeparators(s) && AllIn(signs, "= \t")
    ensures SkipSeparators(s) != "" ==> SkipSeparators(s)[0] !in "= \t"
  {
    if s != "" && s[0] in "= \t" {
      var more := SkipIs(s[1..]);
      signs := [s[0]] + more;
      assert s == [s[0]] + s[1..];
    } else {
      signs := "";
    }
  }

  lemma {:induction false} SkipOf(signs: string, t: string)
    requires AllIn(signs, "= \t") && (t != "" ==> t[0] !in "= \t")
    ensures SkipSeparators(signs + t) == t
  {
    if signs == "" {
      assert signs + t == t;
    } else {
      assert (signs + t)[1..] == signs[1..] + t;
      SkipOf(signs[1..], t);
    }
  }

  lemma {:induction false} BreakOf(key: string, rest: string)
    requires forall k :: 0 <= k < |key| ==> !White(key[k]) && key[k] != '='
    requires rest == "" || White(rest[0]) || rest[0] == '='
    ensures Break(key + rest) == |key|
  {
    hide White;
    if key == "" {
      assert key + rest == rest;
    } else {
      assert (key + rest)[1..] == key[1..] + rest;
      BreakOf(key[1..], rest);
    }
  }

  lemma WhiteSigns()
    ensures White(' ') && White('\t') && !White('=') && !White('#')
  {
  }

  /** A line means a directive exactly when it has the shape of one. */
  lemma MeansExactly(line: string, keyword: string, value: string)
    ensures Meaning(line) == Some(Directive(keyword, value)) <==> Says(line, keyword, value)
  {
    hide Shaped;
    if Meaning(line) == Some(Directive(keyword, value)) { MeaningHasShape(line, keyword, value); }
    if Says(line, keyword, value) {
      var before, key, signs, gap, after :| Shaped(line, keyword, value, before, key, signs, gap, after);
      ShapeHasMeaning(line, keyword, value, before, key, signs, gap, after);
    }
  }

  lemma MeaningHasShape(line: string, keyword: string, value: string)
    requires Meaning(line) == Some(Directive(keyword, value))
    ensures Says(line, keyword, value)
  {
    hide White, Trim, Break, SkipSeparators, Lower;
    var before, after := TrimIs(line);
    var text := Trim(line);
    BreakIs(text);
    var i := Break(text);
    var key, rest := text[..i], text[i..];
    assert text == key + rest;
    var signs := SkipIs(rest);
    var t := SkipSeparators(rest);
    var gap, tail := TrimIs(t);
    LowerIs(key, keyword);
    NothingLower();
    WhiteSigns();
    assert t[0] == if gap == "" then value[0] else gap[0];
    assert line == before + (key + (signs + (gap + value + tail))) + after;
    Reassociate(before, key, signs, gap, value, tail, after);
    assert Shaped(line, keyword, value, before, key, signs, gap, tail + after);
  }

  lemma Reassociate(before: string, key: string, signs: string, gap: string, value: string, tail: string, after: string)
    ensures before + (key + (signs + (gap + value + tail))) + after == before + key + signs + gap + value + (tail + after)
  {
  }

  lemma NothingLower()
    ensures Lower("") == ""
  {
  }

  lemma ShapeHasMeaning(line: string, keyword: string, value: string, before: string, key: string, signs: string,
                        gap: string, after: string)
    requires Shaped(line, keyword, value, before, key, signs, gap, after)
    ensures Meaning(line) == Some(Directive(keyword, value))
  {
    hide White, Trim, Break, SkipSeparators, Lower;
    WhiteSigns();
    var rest := signs + gap + value;
    var text := key + rest;
    assert line == before + text + after;
    assert text[0] == key[0] && text[|text| - 1] == value[|value| - 1];
    TrimOf(before, text, after);
    assert rest[0] == (signs + gap)[0];
    assert signs == "" ==> rest[0] == gap[0];
    BreakOf(key, rest);
    assert text[..|key|] == key && text[|key|..] == rest;
    assert (gap + value)[0] == if gap == "" then value[0] else gap[0];
    assert rest == signs + (gap + value);
    SkipOf(signs, gap + value);
    assert gap + value == gap + value + "";
    TrimOf(gap, value, "");
    LowerIs(key, keyword);
    assert keyword != "";
  }

  // ------------------------------------------------------------ numbers

  /** The value of a decimal numeral, read from the left. */
  function Numeral(s: string, high: nat): nat
    requires forall k | 0 <= k < |s| :: '0' <= s[k] <= '9'
  {
    if s == "" then high else Numeral(s[1..], 10 * high + (s[0] as int - '0' as int))
  }

  lemma {:induction false} NumeralLast(s: string, high: nat)
    requires s != "" && forall k :: 0 <= k < |s| ==> '0' <= s[k] <= '9'
    ensures Numeral(s, high) == 10 * Numeral(s[..|s| - 1], high) + (s[|s| - 1] as int - '0' as int)
  {
    if |s| > 1 {
      var next := 10 * high + (s[0] as int - '0' as int);
      assert s[1..][..|s| - 2] == s[..|s| - 1][1..];
      NumeralLast(s[1..], next);
    } else {
      assert s[1..] == "" && s[..0] == "";
    }
  }

  lemma {:induction false} NumberIs(s: string)
    requires forall k :: 0 <= k < |s| ==> '0' <= s[k] <= '9'
    ensures Number(s) == Numeral(s, 0)
    decreases |s|
  {
    if s != "" {
      NumeralLast(s, 0);
      NumberIs(s[..|s| - 1]);
    }
  }

  /** The word is a number that a port may have: digits, a plus sign before them at most. */
  ghost predicate IsPort(word: string, n: nat) {
    exists digits ::
      && (word == digits || word == "+" + digits)
      && digits != "" && (forall k :: 0 <= k < |digits| ==> '0' <= digits[k] <= '9')
      && n == Numeral(digits, 0) && n <= 65_535
  }

  lemma PortExactly(word: string, n: nat)
    ensures Port(word) == Some(n) <==> IsPort(word, n)
  {
    hide Number, Numeral;
    var digits := if word != "" && word[0] == '+' then word[1..] else word;
    assert word == digits || word == "+" + digits;
    if Digits(digits) { NumberIs(digits); }
    if IsPort(word, n) {
      var ds :| (word == ds || word == "+" + ds) && ds != "" && (forall k :: 0 <= k < |ds| ==> '0' <= ds[k] <= '9')
        && n == Numeral(ds, 0) && n <= 65_535;
      assert ds[0] != '+';
      assert ("+" + ds)[1..] == ds;
      assert ds == digits;
    }
  }

  // ------------------------------------------------------------ which line sets a field

  /** The line gives the keyword this first word. */
  ghost predicate Gives(line: string, keyword: string, word: string) {
    exists value :: Says(line, keyword, value) && Words(value) != [] && Words(value)[0] == word
  }

  /** The first line that gives the keyword a word, if any. */
  ghost predicate FirstWord(lines: seq<string>, keyword: string, found: Option<string>) {
    match found
    case None => forall i, word :: 0 <= i < |lines| ==> !Gives(lines[i], keyword, word)
    case Some(word) =>
      exists i :: 0 <= i < |lines| && Gives(lines[i], keyword, word)
        && forall j, other :: 0 <= j < i ==> !Gives(lines[j], keyword, other)
  }

  ghost predicate GivesPort(line: string, n: nat) { exists word :: Gives(line, "port", word) && IsPort(word, n) }

  ghost predicate FirstPort(lines: seq<string>, found: Option<nat>) {
    match found
    case None => forall i, n :: 0 <= i < |lines| ==> !GivesPort(lines[i], n)
    case Some(n) =>
      exists i :: 0 <= i < |lines| && GivesPort(lines[i], n) && forall j, other :: 0 <= j < i ==> !GivesPort(lines[j], other)
  }

  ghost predicate OpensNothing(lines: seq<string>) {
    forall i, value :: 0 <= i < |lines| ==> !Says(lines[i], "host", value) && !Says(lines[i], "match", value)
  }

  /** The words that are names, in their order. */
  ghost predicate Selected(words: seq<string>, aliases: seq<string>, at: seq<nat>) {
    && |at| == |aliases|
    && (forall k :: 0 <= k < |at| ==> at[k] < |words| && words[at[k]] == aliases[k])
    && (forall j, k :: 0 <= j < k < |at| ==> at[j] < at[k])
    && (forall i :: 0 <= i < |words| ==>
          (i in at <==> IsName(words[i])))
  }

  /** A word without a star, a question mark or a bang at the front. */
  predicate IsName(word: string) { '*' !in word && '?' !in word && !(word != "" && word[0] == '!') }

  /** What a host block says of one alias. */
  ghost predicate Described(h: Host, alias: string, lines: seq<string>) {
    && h.alias == alias
    && FirstWord(lines, "hostname", h.hostname) && FirstWord(lines, "user", h.username)
    && FirstWord(lines, "identityfile", h.identityFile) && FirstWord(lines, "proxyjump", h.jumpHost)
    && FirstPort(lines, h.port)
  }

  function Given(line: string, keyword: string): Option<string> {
    match Meaning(line)
    case Some(Directive(k, value)) => if k == keyword && Words(value) != [] then Some(Words(value)[0]) else None
    case None => None
  }

  lemma GivesIs(line: string, keyword: string, word: string)
    ensures Gives(line, keyword, word) <==> Given(line, keyword) == Some(word)
  {
    hide Says, Meaning, Words;
    if Given(line, keyword) == Some(word) { MeansExactly(line, keyword, Meaning(line).value.value); }
    if Gives(line, keyword, word) {
      var value :| Says(line, keyword, value) && Words(value) != [] && Words(value)[0] == word;
      MeansExactly(line, keyword, value);
    }
  }

  lemma GivesPortIs(line: string, n: nat)
    ensures GivesPort(line, n) <==> GivenPort(line) == Some(n)
  {
    hide Given, Gives, IsPort, Port;
    forall word ensures Gives(line, "port", word) <==> Given(line, "port") == Some(word) { GivesIs(line, "port", word); }
    forall word ensures IsPort(word, n) <==> Port(word) == Some(n) { PortExactly(word, n); }
  }

  lemma FirstWordIs(lines: seq<string>, keyword: string, found: Option<string>)
    requires lines != []
    requires if Given(lines[0], keyword).Some? then found == Given(lines[0], keyword) else FirstWord(lines[1..], keyword, found)
    ensures FirstWord(lines, keyword, found)
  {
    hide Given, Gives;
    var rest := lines[1..];
    forall word ensures Gives(lines[0], keyword, word) <==> Given(lines[0], keyword) == Some(word) {
      GivesIs(lines[0], keyword, word);
    }
    if Given(lines[0], keyword).Some? {
      assert Gives(lines[0], keyword, found.value);
    } else if found.Some? {
      var i :| 0 <= i < |rest| && Gives(rest[i], keyword, found.value)
        && forall j, other :: 0 <= j < i ==> !Gives(rest[j], keyword, other);
      assert Gives(lines[i + 1], keyword, found.value);
      forall j, other | 0 <= j < i + 1 ensures !Gives(lines[j], keyword, other) {
        if j > 0 { assert lines[j] == rest[j - 1]; }
      }
    } else {
      forall j, other | 0 <= j < |lines| ensures !Gives(lines[j], keyword, other) {
        if j > 0 { assert lines[j] == rest[j - 1]; }
      }
    }
  }

  function GivenPort(line: string): Option<nat> {
    if Given(line, "port").Some? then Port(Given(line, "port").value) else None
  }

  lemma FirstPortIs(lines: seq<string>, found: Option<nat>)
    requires lines != []
    requires if GivenPort(lines[0]).Some? then found == GivenPort(lines[0]) else FirstPort(lines[1..], found)
    ensures FirstPort(lines, found)
  {
    hide GivenPort, GivesPort;
    var rest := lines[1..];
    forall n: nat ensures GivesPort(lines[0], n) <==> GivenPort(lines[0]) == Some(n) { GivesPortIs(lines[0], n); }
    if GivenPort(lines[0]).Some? {
      assert GivesPort(lines[0], found.value);
    } else if found.Some? {
      var i :| 0 <= i < |rest| && GivesPort(rest[i], found.value) && forall j, other :: 0 <= j < i ==> !GivesPort(rest[j], other);
      assert GivesPort(lines[i + 1], found.value);
      forall j, other: nat | 0 <= j < i + 1 ensures !GivesPort(lines[j], other) {
        if j > 0 { assert lines[j] == rest[j - 1]; }
      }
    } else {
      forall j, other: nat | 0 <= j < |lines| ensures !GivesPort(lines[j], other) {
        if j > 0 { assert lines[j] == rest[j - 1]; }
      }
    }
  }

  // ------------------------------------------------------------ a block

  lemma {:induction false} SetGives(hosts: seq<Host>, current: seq<nat>, keyword: string, value: string, i: nat)
    requires i < |hosts|
    ensures Set(hosts, current, keyword, value)[i] == if i in current then With(hosts[i], keyword, value) else hosts[i]
    decreases |current|
  {
    hide With;
    if current != [] {
      var rest := if current[0] < |hosts| then hosts[current[0] := With(hosts[current[0]], keyword, value)] else hosts;
      WithTwice(hosts[i], keyword, value);
      SetGives(rest, current[1..], keyword, value, i);
    }
  }

  lemma WithTwice(h: Host, keyword: string, value: string)
    ensures With(With(h, keyword, value), keyword, value) == With(h, keyword, value)
  {
  }

  /** What one line does to a host of the current block. */
  function Told(h: Host, line: string): Host {
    h.(hostname := Or(h.hostname, Given(line, "hostname")),
       username := Or(h.username, Given(line, "user")),
       identityFile := Or(h.identityFile, Given(line, "identityfile")),
       jumpHost := Or(h.jumpHost, Given(line, "proxyjump")),
       port := Or(h.port, GivenPort(line)))
  }

  lemma WithTells(h: Host, line: string, keyword: string, value: string)
    requires Meaning(line) == Some(Directive(keyword, value)) && Words(value) != []
    ensures With(h, keyword, Words(value)[0]) == Told(h, line)
  {
    hide Meaning, Words, Port;
  }

  lemma LineTells(s: Parser, line: string, i: nat)
    requires i < |s.hosts| && !(Meaning(line).Some? && Meaning(line).value.keyword in {"host", "match"})
    ensures var t := StepLine(s, line);
      && |t.hosts| == |s.hosts| && t.current == s.current && t.skipping == s.skipping
      && t.hosts[i] == if !s.skipping && i in s.current then Told(s.hosts[i], line) else s.hosts[i]
  {
    hide Meaning, Words, Set, With, Told;
    ToldNothing(s.hosts[i], line);
    match Meaning(line)
    case None =>
    case Some(Directive(keyword, value)) =>
      if Words(value) != [] {
        SetGives(s.hosts, s.current, keyword, Words(value)[0], i);
        WithTells(s.hosts[i], line, keyword, value);
      }
  }

  lemma ToldNothing(h: Host, line: string)
    ensures Meaning(line).None? || !IsField(Meaning(line).value.keyword) || Words(Meaning(line).value.value) == [] ==>
      Told(h, line) == h
  {
    hide Meaning, Words;
  }

  /** The fields that lines add to a host. */
  ghost predicate Adds(h: Host, h': Host, lines: seq<string>) {
    && h'.alias == h.alias
    && (if h.hostname.Some? then h'.hostname == h.hostname else FirstWord(lines, "hostname", h'.hostname))
    && (if h.username.Some? then h'.username == h.username else FirstWord(lines, "user", h'.username))
    && (if h.identityFile.Some? then h'.identityFile == h.identityFile else FirstWord(lines, "identityfile", h'.identityFile))
    && (if h.jumpHost.Some? then h'.jumpHost == h.jumpHost else FirstWord(lines, "proxyjump", h'.jumpHost))
    && (if h.port.Some? then h'.port == h.port else FirstPort(lines, h'.port))
  }

  lemma AddsNothing(h: Host)
    ensures Adds(h, h, [])
  {
  }

  lemma AddsFirst(h: Host, h': Host, lines: seq<string>)
    requires lines != [] && Adds(Told(h, lines[0]), h', lines[1..])
    ensures Adds(h, h', lines)
  {
    hide FirstWord, FirstPort, Given, GivenPort;
    if h.hostname.None? { FirstWordIs(lines, "hostname", h'.hostname); }
    if h.username.None? { FirstWordIs(lines, "user", h'.username); }
    if h.identityFile.None? { FirstWordIs(lines, "identityfile", h'.identityFile); }
    if h.jumpHost.None? { FirstWordIs(lines, "proxyjump", h'.jumpHost); }
    if h.port.None? { FirstPortIs(lines, h'.port); }
  }

  /** Lines that open no block change the hosts of the current one and no others. */
  lemma {:induction false} LinesTell(s: Parser, lines: seq<string>, i: nat)
    requires i < |s.hosts| && OpensNothing(lines)
    ensures var t := ParseFrom(s, lines);
      && |t.hosts| == |s.hosts|
      && if !s.skipping && i in s.current then Adds(s.hosts[i], t.hosts[i], lines) else t.hosts[i] == s.hosts[i]
    decreases |lines|
  {
    hide StepLine, Meaning, Says, Adds, Told;
    if lines == [] {
      AddsNothing(s.hosts[i]);
    } else {
      OpensNot(lines[0], lines);
      LineTells(s, lines[0], i);
      assert forall k :: 0 <= k < |lines[1..]| ==> lines[1..][k] == lines[k + 1];
      LinesTell(StepLine(s, lines[0]), lines[1..], i);
      if !s.skipping && i in s.current { AddsFirst(s.hosts[i], ParseFrom(s, lines).hosts[i], lines); }
    }
  }

  lemma OpensNot(line: string, lines: seq<string>)
    requires lines != [] && line == lines[0] && OpensNothing(lines)
    ensures !(Meaning(line).Some? && Meaning(line).value.keyword in {"host", "match"})
  {
    hide Says, Meaning;
    if Meaning(line).Some? { MeansExactly(line, Meaning(line).value.keyword, Meaning(line).value.value); }
  }

  lemma {:induction false} ConcreteIsSelected(words: seq<string>) returns (at: seq<nat>)
    ensures Selected(words, Concrete(words), at)
  {
    if words == [] {
      at := [];
    } else {
      var rest := ConcreteIsSelected(words[1..]);
      at := seq(|rest|, k requires 0 <= k < |rest| => rest[k] + 1);
      SelectedFirst(words, rest, at);
      if !IsPattern(words[0]) { at := [0] + at; }
    }
  }

  lemma SelectedFirst(words: seq<string>, rest: seq<nat>, at: seq<nat>)
    requires words != [] && Selected(words[1..], Concrete(words[1..]), rest)
    requires |at| == |rest| && forall k :: 0 <= k < |at| ==> at[k] == rest[k] + 1
    ensures Selected(words, Concrete(words), if IsPattern(words[0]) then at else [0] + at)
  {
    hide IsName, Concrete, IsPattern, Selected;
    ConcreteFirst(words);
    Moved(words, Concrete(words[1..]), rest, at);
    if IsPattern(words[0]) {
      assert [] + Concrete(words[1..]) == Concrete(words[1..]);
      NotSelected(words, Concrete(words[1..]), at);
    } else {
      FirstSelected(words, Concrete(words[1..]), at);
    }
  }

  /** What is selected of the words behind the first. */
  ghost predicate Behind(words: seq<string>, names: seq<string>, at: seq<nat>) {
    && |at| == |names|
    && (forall k :: 0 <= k < |at| ==> 0 < at[k] < |words| && words[at[k]] == names[k])
    && (forall j, k :: 0 <= j < k < |at| ==> at[j] < at[k])
    && (forall i :: 0 < i < |words| ==> (i in at <==> IsName(words[i])))
  }

  lemma NotSelected(words: seq<string>, names: seq<string>, at: seq<nat>)
    requires words != [] && Behind(words, names, at) && !IsName(words[0])
    ensures Selected(words, names, at)
  {
    hide IsName;
  }

  lemma FirstSelected(words: seq<string>, names: seq<string>, at: seq<nat>)
    requires words != [] && Behind(words, names, at) && IsName(words[0])
    ensures Selected(words, [words[0]] + names, [0] + at)
  {
    hide IsName;
  }

  lemma Moved(words: seq<string>, names: seq<string>, rest: seq<nat>, at: seq<nat>)
    requires words != [] && Selected(words[1..], names, rest)
    requires |at| == |rest| && forall k :: 0 <= k < |at| ==> at[k] == rest[k] + 1
    ensures Behind(words, names, at)
  {
    hide IsName;
    forall i | 0 < i < |words| ensures i in at <==> IsName(words[i]) {
      assert words[1..][i - 1] == words[i];
      ShiftedIn(rest, at, i - 1);
    }
    forall k | 0 <= k < |at| ensures 0 < at[k] < |words| && words[at[k]] == names[k] {
      assert words[1..][rest[k]] == words[at[k]];
    }
  }

  lemma ConcreteFirst(words: seq<string>)
    requires words != []
    ensures Concrete(words) == (if IsPattern(words[0]) then [] else [words[0]]) + Concrete(words[1..])
    ensures IsPattern(words[0]) <==> !IsName(words[0])
  {
  }

  lemma ShiftedIn(rest: seq<nat>, at: seq<nat>, i: nat)
    requires |at| == |rest| && forall k :: 0 <= k < |at| ==> at[k] == rest[k] + 1
    ensures i + 1 in at <==> i in rest
  {
    if i in rest {
      var k :| 0 <= k < |rest| && rest[k] == i;
      assert at[k] == i + 1;
    }
  }

  /** A Host line and the lines of its block: one host per word that is no pattern, in
      order, each with the first value that the block gives each of its fields. */
  lemma HostBlock(s: Parser, header: string, value: string, lines: seq<string>) returns (aliases: seq<string>, at: seq<nat>)
    requires Says(header, "host", value) && OpensNothing(lines)
    ensures Selected(Words(value), aliases, at)
    ensures var t := ParseFrom(s, [header] + lines); var n := |s.hosts|;
      && |t.hosts| == n + |aliases| && t.hosts[..n] == s.hosts
      && forall k :: 0 <= k < |aliases| ==> Described(t.hosts[n + k], aliases[k], lines)
  {
    hide Says, Meaning, Words, ParseFrom, Selected, Adds, OpensNothing, StepLine, Described, Concrete, Fresh;
    MeansExactly(header, "host", value);
    aliases := Concrete(Words(value));
    at := ConcreteIsSelected(Words(value));
    var n := |s.hosts|;
    var s1 := StepLine(s, header);
    var t := ParseFrom(s, [header] + lines);
    Unfolds(s, [header] + lines);
    assert ([header] + lines)[1..] == lines;
    HeaderOpens(s, header, value, aliases);
    LinesCount(s1, lines);
    forall i | 0 <= i < n ensures t.hosts[i] == s.hosts[i] { LinesTell(s1, lines, i); }
    forall k | 0 <= k < |aliases| ensures Described(t.hosts[n + k], aliases[k], lines) {
      assert s1.current[k] == n + k;
      LinesTell(s1, lines, n + k);
      FreshDescribed(aliases[k], t.hosts[n + k], lines);
    }
  }

  lemma HeaderOpens(s: Parser, header: string, value: string, aliases: seq<string>)
    requires Meaning(header) == Some(Directive("host", value)) && aliases == Concrete(Words(value))
    ensures var t := StepLine(s, header); var n := |s.hosts|;
      && |t.hosts| == n + |aliases| && t.skipping == (aliases == [])
      && (forall i :: 0 <= i < n ==> t.hosts[i] == s.hosts[i] && i !in t.current)
      && |t.current| == |aliases|
      && (forall k :: 0 <= k < |aliases| ==> t.hosts[n + k] == Fresh(aliases[k]) && t.current[k] == n + k)
  {
    hide Meaning, Words;
    FreshEach(aliases);
  }

  lemma {:induction false} FreshEach(aliases: seq<string>)
    ensures forall k :: 0 <= k < |aliases| ==> FreshAll(aliases)[k] == Fresh(aliases[k])
  {
    if aliases != [] { FreshEach(aliases[1..]); }
  }

  lemma FreshDescribed(alias: string, h: Host, lines: seq<string>)
    requires Adds(Fresh(alias), h, lines)
    ensures Described(h, alias, lines)
  {
    hide FirstWord, FirstPort;
  }

  lemma LinesCount(s: Parser, lines: seq<string>)
    requires OpensNothing(lines)
    ensures |ParseFrom(s, lines).hosts| == |s.hosts|
    decreases |lines|
  {
    hide StepLine, Meaning, Says;
    if lines != [] {
      OpensNot(lines[0], lines);
      LineCounts(s, lines[0]);
      assert forall k :: 0 <= k < |lines[1..]| ==> lines[1..][k] == lines[k + 1];
      LinesCount(StepLine(s, lines[0]), lines[1..]);
    }
  }

  lemma LineCounts(s: Parser, line: string)
    requires !(Meaning(line).Some? && Meaning(line).value.keyword in {"host", "match"})
    ensures |StepLine(s, line).hosts| == |s.hosts|
  {
    hide Meaning, Words, Set;
  }

  /** A Match line, or a Host line of patterns alone, and the lines of its block change no
      host. */
  lemma SkippedBlock(s: Parser, header: string, value: string, lines: seq<string>)
    requires OpensNothing(lines)
    requires Says(header, "match", value) || (Says(header, "host", value) && exists at :: Selected(Words(value), [], at))
    ensures ParseFrom(s, [header] + lines).hosts == s.hosts
  {
    hide Says, Meaning, Words, ParseFrom, Selected, OpensNothing, StepLine;
    if Says(header, "match", value) {
      MeansExactly(header, "match", value);
      MatchSkips(s, header, value);
      var s1 := StepLine(s, header);
      Unfolds(s, [header] + lines);
      assert ([header] + lines)[1..] == lines;
      LinesCount(s1, lines);
      forall i | 0 <= i < |s.hosts| ensures ParseFrom(s, [header] + lines).hosts[i] == s.hosts[i] { LinesTell(s1, lines, i); }
    } else {
      var at :| Selected(Words(value), [], at);
      var aliases, at' := HostBlock(s, header, value, lines);
      SelectedNone(Words(value), at, aliases, at');
      assert ParseFrom(s, [header] + lines).hosts[..|s.hosts|] == ParseFrom(s, [header] + lines).hosts;
    }
  }

  lemma MatchSkips(s: Parser, header: string, value: string)
    requires Meaning(header) == Some(Directive("match", value))
    ensures var t := StepLine(s, header); t.hosts == s.hosts && t.skipping
  {
    hide Meaning, Words;
  }

  lemma FirstIsIn(at: seq<nat>)
    ensures at != [] ==> at[0] in at
  {
  }

  lemma SelectedNone(words: seq<string>, at: seq<nat>, aliases: seq<string>, at': seq<nat>)
    requires Selected(words, [], at) && Selected(words, aliases, at')
    ensures aliases == []
  {
    FirstIsIn(at');
  }

  // ------------------------------------------------------------ the words of a value

  /** White space, a character as it is, a quoted stretch, or one whose quote never ends. */
  datatype Piece = Blank(c: char) | Char(c: char) | Quote(q: char, text: string) | Open(q: char, text: string)

  predicate Mark(c: char) { c == '"' || c == '\'' }

  predicate Legal(pieces: seq<Piece>) {
    forall k | 0 <= k < |pieces| ::
      match pieces[k]
      case Blank(c) => White(c)
      case Char(c) => !White(c) && !Mark(c)
      case Quote(q, text) => Mark(q) && q !in text
      case Open(q, text) => Mark(q) && q !in text && k == |pieces| - 1
  }

  function PieceText(p: Piece): string {
    match p
    case Blank(c) => [c]
    case Char(c) => [c]
    case Quote(q, text) => [q] + text + [q]
    case Open(q, text) => [q] + text
  }

  function Spelled(pieces: seq<Piece>): string {
    if pieces == [] then "" else PieceText(pieces[0]) + Spelled(pieces[1..])
  }

  /** What a piece adds to its word. */
  function Inside(p: Piece): string {
    match p
    case Blank(_) => ""
    case Char(c) => [c]
    case Quote(_, text) => text
    case Open(_, text) => text
  }

  /** The words between blanks, the empty ones left out; `word` is read already. */
  function Cut(pieces: seq<Piece>, word: string): seq<string> {
    if pieces == [] then if word == "" then [] else [word]
    else if pieces[0].Blank? then (if word == "" then [] else [word]) + Cut(pieces[1..], "")
    else Cut(pieces[1..], word + Inside(pieces[0]))
  }

  lemma {:induction false} ReadsQuote(r: Reader, text: string, rest: string)
    requires r.quote.Some? && r.quote.value !in text
    ensures ReadAll(r, text + rest) == ReadAll(r.(current := r.current + text), rest)
    decreases |text|
  {
    hide White;
    if text == "" {
      assert text + rest == rest && r.current + text == r.current;
    } else {
      assert (text + rest)[1..] == text[1..] + rest;
      ReadsQuote(r.(current := r.current + [text[0]]), text[1..], rest);
      assert r.current + [text[0]] + text[1..] == r.current + text;
    }
  }

  /** One piece is read as it should be. */
  lemma ReadsPiece(r: Reader, p: Piece, rest: string)
    requires r.quote.None? && Legal([p]) && (p.Open? ==> rest == "")
    ensures ReadAll(r, PieceText(p) + rest) ==
      if p.Blank? then ReadAll(Reader(if r.current == "" then r.words else r.words + [r.current], "", None), rest)
      else ReadAll(r.(current := r.current + Inside(p)), rest)
  {
    hide White;
    assert [p][0] == p;
    var text := PieceText(p) + rest;
    WhiteIsNoMark();
    match p
    case Blank(c) => assert text[1..] == rest;
    case Char(c) => assert text[1..] == rest;
    case Quote(q, inner) =>
      assert text[1..] == inner + ([q] + rest) && ([q] + rest)[1..] == rest;
      ReadsQuote(r.(quote := Some(q)), inner, [q] + rest);
    case Open(q, inner) =>
      assert text[1..] == inner + "";
      ReadsQuote(r.(quote := Some(q)), inner, "");
  }

  lemma WhiteIsNoMark()
    ensures forall c :: Mark(c) ==> !White(c)
  {
  }

  lemma {:induction false} ReadsPieces(r: Reader, pieces: seq<Piece>)
    requires r.quote.None? && Legal(pieces)
    ensures ReadAll(r, Spelled(pieces)) == r.words + Cut(pieces, r.current)
    decreases |pieces|
  {
    hide White, ReadAll, PieceText, Inside;
    if pieces == [] {
      NothingToRead(r);
    } else {
      var p, rest := pieces[0], pieces[1..];
      assert Legal([p]) && Legal(rest) by { LegalTail(pieces); }
      assert p.Open? ==> Spelled(rest) == "";
      ReadsPiece(r, p, Spelled(rest));
      if p.Blank? {
        var ended := if r.current == "" then [] else [r.current];
        assert r.words + [] == r.words;
        ReadsPieces(Reader(r.words + ended, "", None), rest);
        assert r.words + ended + Cut(rest, "") == r.words + (ended + Cut(rest, ""));
      } else {
        ReadsPieces(r.(current := r.current + Inside(p)), rest);
      }
    }
  }

  lemma LegalTail(pieces: seq<Piece>)
    requires pieces != [] && Legal(pieces)
    ensures Legal([pieces[0]]) && Legal(pieces[1..]) && (pieces[0].Open? ==> pieces[1..] == [])
  {
    hide White;
    assert forall k :: 0 <= k < |pieces[1..]| ==> pieces[1..][k] == pieces[k + 1];
  }

  lemma NothingToRead(r: Reader)
    ensures ReadAll(r, "") == r.words + if r.current == "" then [] else [r.current]
  {
    assert r.words + [] == r.words;
  }

  /** Every text is spelled by some pieces. */
  lemma {:induction false} SomePieces(text: string) returns (pieces: seq<Piece>)
    ensures Legal(pieces) && Spelled(pieces) == text
    decreases |text|
  {
    hide White;
    if text == "" {
      pieces := [];
    } else {
      var p, rest := FirstPiece(text);
      pieces := SomePieces(rest);
      LegalCons(p, pieces, rest);
      assert ([p] + pieces)[1..] == pieces;
      pieces := [p] + pieces;
    }
  }

  lemma LegalCons(p: Piece, pieces: seq<Piece>, rest: string)
    requires Legal([p]) && Legal(pieces) && Spelled(pieces) == rest && (p.Open? ==> rest == "")
    ensures Legal([p] + pieces)
  {
    hide White;
    assert [p][0] == p;
    if pieces != [] { PieceNotEmpty(pieces[0]); }
    assert forall k :: 0 < k < |[p] + pieces| ==> ([p] + pieces)[k] == pieces[k - 1];
  }

  lemma PieceNotEmpty(p: Piece)
    ensures PieceText(p) != ""
  {
  }

  lemma FirstPiece(text: string) returns (p: Piece, rest: string)
    requires text != ""
    ensures Legal([p]) && text == PieceText(p) + rest && (p.Open? ==> rest == "") && |rest| < |text|
  {
    hide White;
    var c := text[0];
    if Mark(c) {
      var i := IndexOf(text[1..], c);
      if i < |text| - 1 {
        p, rest := Quote(c, text[1..][..i]), text[i + 2..];
        assert text == [c] + text[1..][..i] + [c] + text[i + 2..];
      } else {
        p, rest := Open(c, text[1..]), "";
        assert text == [c] + text[1..] + "";
      }
    } else {
      p, rest := if White(c) then Blank(c) else Char(c), text[1..];
    }
    assert [p][0] == p;
  }

  /** The words of a value are exactly what its pieces spell, cut at blanks outside quotes. */
  lemma WordsExactly(value: string, words: seq<string>)
    requires Bare(value)
    ensures Words(value) == words <==> exists pieces :: Legal(pieces) && Spelled(pieces) == value && Cut(pieces, "") == words
  {
    hide White, ReadAll, Legal, Spelled, Cut, Trim;
    assert "" + value + "" == value;
    TrimOf("", value, "");
    forall pieces | Legal(pieces) && Spelled(pieces) == value ensures Words(value) == Cut(pieces, "") {
      ReadsPieces(Reader([], "", None), pieces);
      assert [] + Cut(pieces, "") == Cut(pieces, "");
    }
    var pieces := SomePieces(value);
  }

  // ------------------------------------------------------------ the includes of a file

  /** The words of the include lines, in their order. */
  ghost predicate Lists(lines: seq<string>, includes: seq<string>) {
    if lines == [] then includes == []
    else
      || ((forall value :: !Says(lines[0], "include", value)) && Lists(lines[1..], includes))
      || (exists value, rest :: Says(lines[0], "include", value) && includes == Words(value) + rest && Lists(lines[1..], rest))
  }

  lemma {:induction false} IncludesListed(s: Parser, lines: seq<string>) returns (includes: seq<string>)
    ensures ParseFrom(s, lines).includes == s.includes + includes && Lists(lines, includes)
    decreases |lines|
  {
    hide StepLine, Says, Meaning, Words;
    if lines == [] {
      includes := [];
    } else {
      var rest := IncludesListed(StepLine(s, lines[0]), lines[1..]);
      LineIncludes(s, lines[0]);
      forall value ensures Says(lines[0], "include", value) <==> Meaning(lines[0]) == Some(Directive("include", value)) {
        MeansExactly(lines[0], "include", value);
      }
      if Meaning(lines[0]).Some? && Meaning(lines[0]).value.keyword == "include" {
        var value := Meaning(lines[0]).value.value;
        includes := Words(value) + rest;
        assert s.includes + Words(value) + rest == s.includes + includes;
      } else {
        includes := rest;
      }
    }
  }

  lemma LineIncludes(s: Parser, line: string)
    ensures StepLine(s, line).includes ==
      if Meaning(line).Some? && Meaning(line).value.keyword == "include" then s.includes + Words(Meaning(line).value.value)
      else s.includes
  {
    hide Meaning, Words;
  }

  // ------------------------------------------------------------ the hosts of several files

  /** What a scan lists for one file is what that file's lines give, and a file that is not there
      gives nothing. */
  lemma HostsOfOne(fs: Files, file: string)
    ensures HostsOf(fs, [file]) == if fs.lines(file).Some? then Parse(fs.lines(file).value).hosts else []
  {
    hide Parse, HostsOf;
    NothingListed(fs);
    HostsNext(fs, [], file);
    assert [] + [file] == [file];
  }

  lemma NothingListed(fs: Files)
    ensures HostsOf(fs, []) == []
  {
  }

  /** The hosts of several files are listed one file after the other. */
  lemma {:induction false} HostsListed(fs: Files, a: seq<string>, b: seq<string>)
    ensures HostsOf(fs, a + b) == HostsOf(fs, a) + HostsOf(fs, b)
    decreases |b|
  {
    hide Parse, HostsOf;
    if b == [] {
      assert a + b == a;
      NothingListed(fs);
    } else {
      var n := |b| - 1;
      HostsListed(fs, a, b[..n]);
      HostsNext(fs, a + b[..n], b[n]);
      HostsNext(fs, b[..n], b[n]);
      assert a + b[..n] + [b[n]] == a + b && b[..n] + [b[n]] == b;
    }
  }
}
