/** The host importer of src-tauri/src/ssh_config.rs: one file's lines to hosts and
    includes, and the walk over included files. */
module SshConfig {
  import opened Basics

  // ------------------------------------------------------------ directives

  /** char::is_whitespace */
  predicate White(c: char) { var n := c as int; (IsSpaceCode(n) && n != 0xfeff) || n == 0x85 }

  function Lower(s: string): string {
    if s == "" then ""
    else [if 'A' <= s[0] <= 'Z' then (s[0] as int + 32) as char else s[0]] + Lower(s[1..])
  }

  function TrimStart(s: string): string { if s != "" && White(s[0]) then TrimStart(s[1..]) else s }

  function TrimEnd(s: string): string { if s != "" && White(s[|s| - 1]) then TrimEnd(s[..|s| - 1]) else s }

  function Trim(s: string): string { TrimStart(TrimEnd(s)) }

  /** Index of the first white space or equals sign. */
  function Break(s: string): (i: nat)
    ensures i <= |s|
  {
    if s == "" || White(s[0]) || s[0] == '=' then 0 else 1 + Break(s[1..])
  }

  function SkipSeparators(s: string): string {
    if s != "" && s[0] in "= \t" then SkipSeparators(s[1..]) else s
  }

  datatype Directive = Directive(keyword: string, value: string)

  /** split_directive */
  function SplitDirective(line: string): Option<Directive> {
    var i := Break(line);
    if i == |line| then None
    else
      var keyword, value := Lower(line[..i]), Trim(SkipSeparators(line[i..]));
      if keyword == "" || value == "" then None else Some(Directive(keyword, value))
  }

  datatype Reader = Reader(words: seq<string>, current: string, quote: Option<char>)

  function Read(r: Reader, ch: char): Reader {
    if r.quote.Some? then
      if Some(ch) == r.quote then r.(quote := None) else r.(current := r.current + [ch])
    else if ch == '"' || ch == '\'' then r.(quote := Some(ch))
    else if White(ch) then
      if r.current == "" then r else Reader(r.words + [r.current], "", None)
    else r.(current := r.current + [ch])
  }

  function ReadAll(r: Reader, s: string): seq<string>
    decreases |s|
  {
    if s == "" then if r.current == "" then r.words else r.words + [r.current] else ReadAll(Read(r, s[0]), s[1..])
  }

  function Words(value: string): seq<string> { ReadAll(Reader([], "", None), Trim(value)) }

  /** tokenize */
  method Tokenize(value: string) returns (out: seq<string>)
    ensures out == Words(value)
  {
    var text := Trim(value);
    out := [];
    var current: string := "";
    var quote: Option<char> := None;
    var i := 0;
    assert text[0..] == text;
    while i < |text|
      invariant 0 <= i <= |text|
      invariant Words(value) == ReadAll(Reader(out, current, quote), text[i..])
    {
      var ch := text[i];
      assert text[i..][1..] == text[i + 1..];
      i := i + 1;
      if quote.Some? {
        if ch == quote.value { quote := None; } else { current := current + [ch]; }
        continue;
      }
      if ch == '"' || ch == '\'' {
        quote := Some(ch);
        continue;
      }
      if White(ch) {
        if current != "" {
          out := out + [current];
          current := "";
        }
        continue;
      }
      current := current + [ch];
    }
    if current != "" { out := out + [current]; }
  }

  // ------------------------------------------------------------ quoted words come back whole

  function Quoted(w: string): string { ['"'] + w + ['"'] }

  /** The words in double quotes, with a blank between them. */
  function Printed(words: seq<string>): string {
    if words == [] then ""
    else if |words| == 1 then Quoted(words[0])
    else Quoted(words[0]) + [' '] + Printed(words[1..])
  }

  lemma {:induction false} ReadsInside(r: Reader, w: string, rest: string)
    requires r.quote == Some('"') && '"' !in w
    ensures ReadAll(r, w + rest) == ReadAll(r.(current := r.current + w), rest)
    decreases |w|
  {
    if w == "" {
      assert w + rest == rest && r.current + w == r.current;
    } else {
      assert (w + rest)[1..] == w[1..] + rest;
      assert r.current + [w[0]] + w[1..] == r.current + w;
      ReadsInside(Read(r, w[0]), w[1..], rest);
    }
  }

  lemma ReadsQuoted(r: Reader, w: string, rest: string)
    requires r.quote.None? && '"' !in w
    ensures ReadAll(r, Quoted(w) + rest) == ReadAll(r.(current := r.current + w), rest)
  {
    var text := Quoted(w) + rest;
    assert text[1..] == w + (['"'] + rest);
    assert (['"'] + rest)[1..] == rest;
    ReadsInside(r.(quote := Some('"')), w, ['"'] + rest);
  }

  lemma {:induction false} ReadsPrinted(done: seq<string>, words: seq<string>)
    requires forall k :: 0 <= k < |words| ==> words[k] != "" && '"' !in words[k]
    ensures ReadAll(Reader(done, "", None), Printed(words)) == done + words
    decreases |words|
  {
    hide Read, ReadAll, Quoted, Printed;
    PrintedIs(words);
    if words == [] {
      AtEnd(done);
      assert done + words == done;
    } else {
      var last := |words| == 1;
      var rest := if last then "" else [' '] + Printed(words[1..]);
      assert "" + words[0] == words[0];
      ReadsQuoted(Reader(done, "", None), words[0], rest);
      WordEnds(done, words[0], Printed(words[1..]));
      if last {
        assert done + [words[0]] == done + words;
      } else {
        ReadsPrinted(done + [words[0]], words[1..]);
        assert done + [words[0]] + words[1..] == done + words;
      }
    }
  }

  lemma PrintedIs(words: seq<string>)
    ensures Printed(words) ==
      if words == [] then ""
      else Quoted(words[0]) + (if |words| == 1 then "" else [' '] + Printed(words[1..]))
  {
    hide Quoted;
    if |words| == 1 { assert Quoted(words[0]) + "" == Quoted(words[0]); }
  }

  lemma AtEnd(done: seq<string>)
    ensures ReadAll(Reader(done, "", None), "") == done
  {
  }

  lemma WordEnds(done: seq<string>, word: string, rest: string)
    requires word != ""
    ensures ReadAll(Reader(done, word, None), "") == done + [word]
    ensures ReadAll(Reader(done, word, None), [' '] + rest) == ReadAll(Reader(done + [word], "", None), rest)
  {
    hide White;
    BlankIsWhite();
    assert ([' '] + rest)[1..] == rest;
  }

  lemma BlankIsWhite()
    ensures White(' ') && !White('"')
  {
  }

  lemma {:induction false} PrintedEnds(words: seq<string>)
    requires words != []
    ensures Printed(words) != "" && Printed(words)[0] == '"' && Printed(words)[|Printed(words)| - 1] == '"'
  {
    if |words| > 1 { PrintedEnds(words[1..]); }
  }

  /** Splitting what was quoted gives the words back, whatever blanks, apostrophes or
      equals signs they hold. */
  lemma QuotedRoundTrip(words: seq<string>)
    requires forall k :: 0 <= k < |words| ==> words[k] != "" && '"' !in words[k]
    ensures Words(Printed(words)) == words
  {
    hide White;
    BlankIsWhite();
    if words != [] { PrintedEnds(words); }
    assert Trim(Printed(words)) == Printed(words);
    ReadsPrinted([], words);
    assert [] + words == words;
  }

  // ------------------------------------------------------------ parsing lines

  datatype Host = Host(
    alias: string,
    hostname: Option<string>,
    username: Option<string>,
    port: Option<nat>,
    identityFile: Option<string>,
    jumpHost: Option<string>)

  function Fresh(alias: string): Host { Host(alias, None, None, None, None, None) }

  predicate Digits(s: string) { s != "" && forall k | 0 <= k < |s| :: '0' <= s[k] <= '9' }

  function Number(s: string): nat
    requires forall k | 0 <= k < |s| :: '0' <= s[k] <= '9'
  {
    if s == "" then 0 else 10 * Number(s[..|s| - 1]) + (s[|s| - 1] as int - '0' as int)
  }

  /** parse::<u16>: an optional plus sign, digits, at most 65535. */
  function Port(s: string): Option<nat> {
    var digits := if s != "" && s[0] == '+' then s[1..] else s;
    if Digits(digits) && Number(digits) <= 65_535 then Some(Number(digits)) else None
  }

  function Or<T>(first: Option<T>, later: Option<T>): Option<T> { if first.Some? then first else later }

  /** The first value of a keyword wins. */
  function With(h: Host, keyword: string, value: string): Host {
    if keyword == "hostname" then h.(hostname := Or(h.hostname, Some(value)))
    else if keyword == "user" then h.(username := Or(h.username, Some(value)))
    else if keyword == "port" then h.(port := Or(h.port, Port(value)))
    else if keyword == "identityfile" then h.(identityFile := Or(h.identityFile, Some(value)))
    else if keyword == "proxyjump" then h.(jumpHost := Or(h.jumpHost, Some(value)))
    else h
  }

  predicate IsPattern(alias: string) { '*' in alias || '?' in alias || (alias != "" && alias[0] == '!') }

  function Concrete(words: seq<string>): seq<string> {
    if words == [] then [] else (if IsPattern(words[0]) then [] else [words[0]]) + Concrete(words[1..])
  }

  /** The parser between two lines. The aliases that the current Host line opened are the
      hosts from `open` on, when there are any. */
  datatype Parser = Parser(hosts: seq<Host>, includes: seq<string>, current: seq<nat>, skipping: bool)

  const START := Parser([], [], [], false)

  ghost predicate Valid(s: Parser) {
    forall k :: 0 <= k < |s.current| ==> s.current[k] < |s.hosts|
  }

  function Range(from: nat, n: nat): (r: seq<nat>)
    ensures |r| == n && forall k :: 0 <= k < n ==> r[k] == from + k
    decreases n
  {
    if n == 0 then [] else [from] + Range(from + 1, n - 1)
  }

  function FreshAll(aliases: seq<string>): (hosts: seq<Host>)
    ensures |hosts| == |aliases|
  {
    if aliases == [] then [] else [Fresh(aliases[0])] + FreshAll(aliases[1..])
  }

  function Set(hosts: seq<Host>, current: seq<nat>, keyword: string, value: string): (r: seq<Host>)
    ensures |r| == |hosts|
    decreases |current|
  {
    if current == [] then hosts
    else
      var rest := if current[0] < |hosts| then hosts[current[0] := With(hosts[current[0]], keyword, value)] else hosts;
      Set(rest, current[1..], keyword, value)
  }

  predicate IsField(keyword: string) { keyword in {"hostname", "user", "port", "identityfile", "proxyjump"} }

  function Meaning(line: string): Option<Directive> {
    var text := Trim(line);
    if text == "" || text[0] == '#' then None else SplitDirective(text)
  }

  function StepLine(s: Parser, line: string): Parser {
    match Meaning(line)
    case None => s
    case Some(Directive(keyword, value)) =>
      if keyword == "host" then
        var aliases := Concrete(Words(value));
        s.(hosts := s.hosts + FreshAll(aliases), current := Range(|s.hosts|, |aliases|), skipping := aliases == [])
      else if keyword == "match" then s.(current := [], skipping := true)
      else if keyword == "include" then s.(includes := s.includes + Words(value))
      else if s.skipping || s.current == [] || !IsField(keyword) || Words(value) == [] then s
      else s.(hosts := Set(s.hosts, s.current, keyword, Words(value)[0]))
  }

  function ParseFrom(s: Parser, lines: seq<string>): Parser
    decreases |lines|
  {
    if lines == [] then s else ParseFrom(StepLine(s, lines[0]), lines[1..])
  }

  function Parse(lines: seq<string>): Parser { ParseFrom(START, lines) }

  /** parse, over the lines of the text */
  method ParseLines(lines: seq<string>) returns (hosts: seq<Host>, includes: seq<string>)
    ensures hosts == Parse(lines).hosts && includes == Parse(lines).includes
  {
    hide Words, Meaning, With;
    hosts, includes := [], [];
    var current: seq<nat> := [];
    var skipping := false;
    var n := 0;
    assert lines[0..] == lines;
    while n < |lines|
      invariant 0 <= n <= |lines|
      invariant Parse(lines) == ParseFrom(Parser(hosts, includes, current, skipping), lines[n..])
    {
      ghost var before := Parser(hosts, includes, current, skipping);
      assert lines[n..][1..] == lines[n + 1..];
      var directive := Meaning(lines[n]);
      n := n + 1;
      if directive.None? { continue; }
      var keyword := directive.value.keyword;
      var words := Tokenize(directive.value.value);
      if keyword == "host" {
        hosts, current := OpenHosts(hosts, words);
        skipping := current == [];
      } else if keyword == "match" {
        current, skipping := [], true;
      } else if keyword == "include" {
        includes := includes + words;
      } else if !skipping && current != [] && IsField(keyword) && words != [] {
        hosts := SetFields(hosts, current, keyword, words[0]);
      }
      assert Parser(hosts, includes, current, skipping) == StepLine(before, lines[n - 1]);
    }
  }

  lemma NoAliases()
    ensures Concrete([]) == [] && FreshAll([]) == [] && forall n :: Range(n, 0) == []
  {
  }

  lemma ConcreteUnfolds(words: seq<string>, n: nat)
    requires words != []
    ensures var rest := Concrete(words[1..]);
      if IsPattern(words[0]) then
        Concrete(words) == rest
      else
        && FreshAll(Concrete(words)) == [Fresh(words[0])] + FreshAll(rest)
        && Range(n, |Concrete(words)|) == [n] + Range(n + 1, |rest|) && |Concrete(words)| == 1 + |rest|
  {
    hide IsPattern;
    if !IsPattern(words[0]) { assert Concrete(words)[1..] == Concrete(words[1..]); }
  }

  method OpenHosts(hosts: seq<Host>, words: seq<string>) returns (out: seq<Host>, current: seq<nat>)
    ensures out == hosts + FreshAll(Concrete(words)) && current == Range(|hosts|, |Concrete(words)|)
  {
    hide IsPattern, FreshAll, Range, Concrete;
    out, current := hosts, [];
    var k := 0;
    NoAliases();
    assert words[0..] == words;
    while k < |words|
      invariant 0 <= k <= |words|
      invariant |out| == |hosts| + |current|
      invariant out + FreshAll(Concrete(words[k..])) == hosts + FreshAll(Concrete(words))
      invariant current + Range(|out|, |Concrete(words[k..])|) == Range(|hosts|, |Concrete(words)|)
    {
      assert words[k..][1..] == words[k + 1..];
      ConcreteUnfolds(words[k..], |out|);
      if !IsPattern(words[k]) {
        current := current + [|out|];
        out := out + [Fresh(words[k])];
      }
      k := k + 1;
    }
  }

  method SetFields(hosts: seq<Host>, current: seq<nat>, keyword: string, value: string) returns (out: seq<Host>)
    ensures out == Set(hosts, current, keyword, value)
  {
    hide With;
    out := hosts;
    var k := 0;
    assert current[0..] == current;
    while k < |current|
      invariant 0 <= k <= |current|
      invariant Set(hosts, current, keyword, value) == Set(out, current[k..], keyword, value)
    {
      var i := current[k];
      assert current[k..][1..] == current[k + 1..];
      if i < |out| { out := out[i := With(out[i], keyword, value)]; }
      k := k + 1;
    }
  }

  // ------------------------------------------------------------ blocks are isolated

  predicate OpensBlock(line: string) {
    Meaning(line).Some? && Meaning(line).value.keyword in {"host", "match"}
  }

  /** t has read the same lines as s, from nothing instead of after (hosts, includes). */
  ghost predicate Shifted(s: Parser, t: Parser, hosts: seq<Host>, includes: seq<string>) {
    && s.hosts == hosts + t.hosts && s.includes == includes + t.includes && s.skipping == t.skipping
    && |s.current| == |t.current|
    && (forall k :: 0 <= k < |t.current| ==> s.current[k] == |hosts| + t.current[k] && t.current[k] < |t.hosts|)
  }

  lemma {:induction false} SetShifted(hosts: seq<Host>, own: seq<Host>, s: seq<nat>, t: seq<nat>, keyword: string, value: string)
    requires |s| == |t| && forall k :: 0 <= k < |t| ==> s[k] == |hosts| + t[k] && t[k] < |own|
    ensures Set(hosts + own, s, keyword, value) == hosts + Set(own, t, keyword, value)
    decreases |t|
  {
    hide With;
    if t != [] {
      var changed := own[t[0] := With(own[t[0]], keyword, value)];
      assert (hosts + own)[s[0]] == own[t[0]];
      assert (hosts + own)[s[0] := With(own[t[0]], keyword, value)] == hosts + changed;
      SetShifted(hosts, changed, s[1..], t[1..], keyword, value);
    }
  }

  lemma StepShifted(s: Parser, t: Parser, hosts: seq<Host>, includes: seq<string>, line: string)
    requires Shifted(s, t, hosts, includes)
    ensures Shifted(StepLine(s, line), StepLine(t, line), hosts, includes)
  {
    hide Meaning, Words, Concrete, With;
    match Meaning(line)
    case None =>
    case Some(Directive(keyword, value)) =>
      var aliases := Concrete(Words(value));
      assert hosts + t.hosts + FreshAll(aliases) == hosts + (t.hosts + FreshAll(aliases));
      assert includes + t.includes + Words(value) == includes + (t.includes + Words(value));
      if Words(value) != [] { SetShifted(hosts, t.hosts, s.current, t.current, keyword, Words(value)[0]); }
  }

  lemma {:induction false} RunShifted(s: Parser, t: Parser, hosts: seq<Host>, includes: seq<string>, lines: seq<string>)
    requires Shifted(s, t, hosts, includes)
    ensures Shifted(ParseFrom(s, lines), ParseFrom(t, lines), hosts, includes)
    decreases |lines|
  {
    hide StepLine, Shifted;
    if lines != [] {
      StepShifted(s, t, hosts, includes, lines[0]);
      RunShifted(StepLine(s, lines[0]), StepLine(t, lines[0]), hosts, includes, lines[1..]);
    }
  }

  lemma {:induction false} ParseJoins(s: Parser, a: seq<string>, b: seq<string>)
    ensures ParseFrom(s, a + b) == ParseFrom(ParseFrom(s, a), b)
    decreases |a|
  {
    hide StepLine;
    if a == [] {
      assert a + b == b;
    } else {
      assert (a + b)[1..] == a[1..] + b;
      ParseJoins(StepLine(s, a[0]), a[1..], b);
    }
  }

  /** No directive bleeds across a block boundary: when b begins with a Host or Match
      line, parsing a ++ b gives the hosts and includes of a, then those of b alone. */
  lemma BlockIsolation(a: seq<string>, b: seq<string>)
    requires b != [] && OpensBlock(b[0])
    ensures Parse(a + b).hosts == Parse(a).hosts + Parse(b).hosts
    ensures Parse(a + b).includes == Parse(a).includes + Parse(b).includes
  {
    hide ParseFrom;
    var s := Parse(a);
    ParseJoins(START, a, b);
    Unfolds(s, b);
    Unfolds(START, b);
    BoundaryShifted(s, b[0]);
    RunShifted(StepLine(s, b[0]), StepLine(START, b[0]), s.hosts, s.includes, b[1..]);
  }

  lemma Unfolds(s: Parser, lines: seq<string>)
    requires lines != []
    ensures ParseFrom(s, lines) == ParseFrom(StepLine(s, lines[0]), lines[1..])
  {
  }

  lemma BoundaryShifted(s: Parser, line: string)
    requires OpensBlock(line)
    ensures Shifted(StepLine(s, line), StepLine(START, line), s.hosts, s.includes)
  {
    hide Meaning, Words, Concrete;
  }

  // ------------------------------------------------------------ the first value wins

  /** h' is h, possibly with fields set that were not. */
  predicate Extends(h: Host, h': Host) {
    && h'.alias == h.alias
    && (h.hostname.Some? ==> h'.hostname == h.hostname) && (h.username.Some? ==> h'.username == h.username)
    && (h.port.Some? ==> h'.port == h.port) && (h.identityFile.Some? ==> h'.identityFile == h.identityFile)
    && (h.jumpHost.Some? ==> h'.jumpHost == h.jumpHost)
  }

  lemma WithExtends(h: Host, keyword: string, value: string)
    ensures Extends(h, With(h, keyword, value))
  {
  }

  lemma {:induction false} SetExtends(hosts: seq<Host>, current: seq<nat>, keyword: string, value: string, i: nat)
    requires i < |hosts|
    ensures Extends(hosts[i], Set(hosts, current, keyword, value)[i])
    ensures i !in current ==> Set(hosts, current, keyword, value)[i] == hosts[i]
    decreases |current|
  {
    hide With;
    if current != [] {
      var rest := if current[0] < |hosts| then hosts[current[0] := With(hosts[current[0]], keyword, value)] else hosts;
      WithExtends(hosts[i], keyword, value);
      SetExtends(rest, current[1..], keyword, value, i);
    }
  }

  /** Later lines never change a host's alias or a field that was set, nor drop a host. */
  lemma {:induction false} FirstValueWins(s: Parser, lines: seq<string>, i: nat)
    requires i < |s.hosts|
    ensures i < |ParseFrom(s, lines).hosts| && Extends(s.hosts[i], ParseFrom(s, lines).hosts[i])
    decreases |lines|
  {
    hide Meaning, Words, Concrete, Set;
    if lines != [] {
      var t := StepLine(s, lines[0]);
      match Meaning(lines[0]) {
        case None =>
        case Some(Directive(keyword, value)) =>
          if Words(value) != [] { SetExtends(s.hosts, s.current, keyword, Words(value)[0], i); }
      }
      FirstValueWins(t, lines[1..], i);
    }
  }

  // ------------------------------------------------------------ the files of a scan

  const MAX_INCLUDE_DEPTH: nat := 3
  const MAX_FILES: nat := 64

  /** The file system: canonical names, what lies under the ssh directory, a file's lines
      and the files an include pattern names. */
  datatype Files = Files(
    canonical: string -> Option<string>,
    inside: string -> bool,
    lines: string -> Option<seq<string>>,
    expand: string -> seq<string>)

  datatype Job = Job(path: string, depth: nat)

  function Expanded(fs: Files, includes: seq<string>, depth: nat): seq<Job> {
    if includes == [] then [] else Jobs(fs.expand(includes[0]), depth) + Expanded(fs, includes[1..], depth)
  }

  function Jobs(paths: seq<string>, depth: nat): seq<Job> {
    if paths == [] then [] else [Job(paths[0], depth)] + Jobs(paths[1..], depth)
  }

  /** The hosts of the files read, in the order they were read. */
  function HostsOf(fs: Files, read: seq<string>): seq<Host> {
    if read == [] then []
    else
      HostsOf(fs, read[..|read| - 1])
      + match fs.lines(read[|read| - 1]) case None => [] case Some(lines) => Parse(lines).hosts
  }

  predicate Distinct(s: seq<string>) { forall i, j | 0 <= i < j < |s| :: s[i] != s[j] }

  // ------------------------------------------------------------ which files a scan reads

  /** The file a path names, when it lies under the ssh directory. */
  function Target(fs: Files, path: string): Option<string> {
    var canon := fs.canonical(path);
    if canon.Some? && fs.inside(canon.value) then canon else None
  }

  /** What a file that has been read adds to the queue. */
  function Follow(fs: Files, file: Job): seq<Job> {
    var lines := fs.lines(file.path);
    if lines.None? || file.depth >= MAX_INCLUDE_DEPTH then [] else Expanded(fs, Parse(lines.value).includes, file.depth + 1)
  }

  function Paths(visits: seq<Job>): (paths: seq<string>)
    ensures |paths| == |visits| && forall k :: 0 <= k < |visits| ==> paths[k] == visits[k].path
  {
    seq(|visits|, k requires 0 <= k < |visits| => visits[k].path)
  }

  /** The files read, each with the depth at which it was met first. */
  function Visits(fs: Files, queue: seq<Job>, read: seq<Job>): (visits: seq<Job>)
    requires |read| <= MAX_FILES
    ensures read <= visits && |visits| <= MAX_FILES
    decreases MAX_FILES - |read|, |queue|
  {
    if queue == [] || |read| == MAX_FILES then read
    else
      var n := |queue| - 1;
      var file := Target(fs, queue[n].path);
      if file.None? || file.value in Paths(read) then Visits(fs, queue[..n], read)
      else
        var visit := Job(file.value, queue[n].depth);
        Visits(fs, queue[..n] + Follow(fs, visit), read + [visit])
  }

  function Scan(fs: Files, entry: string): (visits: seq<Job>)
    ensures |visits| <= MAX_FILES
  {
    Visits(fs, [Job(entry, 0)], [])
  }

  lemma VisitsSkip(fs: Files, queue: seq<Job>, read: seq<Job>)
    requires queue != [] && |read| < MAX_FILES
    requires var file := Target(fs, queue[|queue| - 1].path); file.None? || file.value in Paths(read)
    ensures Visits(fs, queue, read) == Visits(fs, queue[..|queue| - 1], read)
  {
  }

  lemma VisitsRead(fs: Files, queue: seq<Job>, read: seq<Job>, visit: Job)
    requires queue != [] && |read| < MAX_FILES && visit.depth == queue[|queue| - 1].depth
    requires Target(fs, queue[|queue| - 1].path) == Some(visit.path) && visit.path !in Paths(read)
    ensures Visits(fs, queue, read) == Visits(fs, queue[..|queue| - 1] + Follow(fs, visit), read + [visit])
    ensures Paths(read + [visit]) == Paths(read) + [visit.path]
  {
    hide Follow, Target;
  }

  lemma VisitsEnd(fs: Files, queue: seq<Job>, read: seq<Job>)
    requires |read| <= MAX_FILES && (queue == [] || |read| == MAX_FILES)
    ensures Visits(fs, queue, read) == read
  {
  }

  /** The entry is read first. */
  lemma EntryFirst(fs: Files, entry: string)
    ensures Target(fs, entry).Some? ==> Scan(fs, entry) != [] && Scan(fs, entry)[0] == Job(Target(fs, entry).value, 0)
  {
    hide Target, Follow, Visits;
    if Target(fs, entry).Some? { VisitsRead(fs, [Job(entry, 0)], [], Job(Target(fs, entry).value, 0)); }
  }

  /** scan: the files read are those of the specification, the entry first, each lies
      under the ssh directory, is read once, and the hosts are those of the files read, in
      order. */
  method ScanFiles(fs: Files, entry: string) returns (out: seq<Host>, seen: seq<string>)
    ensures seen == Paths(Scan(fs, entry))
    ensures out == HostsOf(fs, seen) && Distinct(seen) && |seen| <= 64
    ensures forall k :: 0 <= k < |seen| ==> fs.inside(seen[k])
    ensures Target(fs, entry).Some? ==> seen != [] && seen[0] == Target(fs, entry).value
  {
    hide Parse, Visits, Paths, Follow, HostsOf, Distinct, Scan;
    out, seen := [], [];
    var queue := [Job(entry, 0)];
    ghost var visits: seq<Job> := [];
    EntryFirst(fs, entry);
    ScanStarts(fs, entry);
    while queue != [] && |seen| < MAX_FILES
      invariant out == HostsOf(fs, seen) && Distinct(seen) && |seen| <= MAX_FILES
      invariant forall k :: 0 <= k < |seen| ==> fs.inside(seen[k])
      invariant seen == Paths(visits) && Scan(fs, entry) == Visits(fs, queue, visits)
      decreases MAX_FILES - |seen|, |queue|
    {
      var job := queue[|queue| - 1];
      var canon := fs.canonical(job.path);
      if canon.None? || !fs.inside(canon.value) || canon.value in seen {
        VisitsSkip(fs, queue, visits);
        queue := queue[..|queue| - 1];
        continue;
      }
      ghost var visit := Job(canon.value, job.depth);
      VisitsRead(fs, queue, visits, visit);
      HostsNext(fs, seen, canon.value);
      DistinctNext(seen, canon.value);
      queue := queue[..|queue| - 1];
      seen, visits := seen + [canon.value], visits + [visit];
      var hosts, more := ReadFile(fs, Job(canon.value, job.depth));
      out := out + hosts;
      queue := queue + more;
    }
    VisitsEnd(fs, queue, visits);
  }

  /** One file's hosts, and the jobs its includes add while they are to be followed. */
  method ReadFile(fs: Files, file: Job) returns (hosts: seq<Host>, more: seq<Job>)
    ensures hosts == (if fs.lines(file.path).Some? then Parse(fs.lines(file.path).value).hosts else [])
    ensures more == Follow(fs, file)
  {
    hide Parse, Follow, Expanded;
    FollowIs(fs, file);
    hosts, more := [], [];
    var lines := fs.lines(file.path);
    if lines.None? { return; }
    var includes;
    hosts, includes := ParseLines(lines.value);
    if file.depth >= MAX_INCLUDE_DEPTH { return; }
    more := Expand(fs, includes, file.depth + 1);
  }

  lemma DistinctNext(seen: seq<string>, file: string)
    requires Distinct(seen) && file !in seen
    ensures Distinct(seen + [file])
  {
  }

  lemma ScanStarts(fs: Files, entry: string)
    ensures HostsOf(fs, []) == [] && Paths([]) == [] && Distinct([])
    ensures Scan(fs, entry) == Visits(fs, [Job(entry, 0)], [])
  {
  }

  lemma HostsNext(fs: Files, read: seq<string>, file: string)
    ensures HostsOf(fs, read + [file]) == HostsOf(fs, read) + (if fs.lines(file).Some? then Parse(fs.lines(file).value).hosts else [])
  {
    hide Parse;
    assert (read + [file])[..|read|] == read;
  }

  lemma FollowIs(fs: Files, file: Job)
    ensures fs.lines(file.path).None? || file.depth >= MAX_INCLUDE_DEPTH ==> Follow(fs, file) == []
    ensures fs.lines(file.path).Some? && file.depth < MAX_INCLUDE_DEPTH ==>
      Follow(fs, file) == Expanded(fs, Parse(fs.lines(file.path).value).includes, file.depth + 1)
  {
  }

  /** One file includes another. */
  ghost predicate Includes(fs: Files, from: string, file: string) {
    && fs.lines(from).Some?
    && exists inc, path :: inc in Parse(fs.lines(from).value).includes && path in fs.expand(inc) && Target(fs, path) == Some(file)
  }

  /** The entry reaches a file over n includes. */
  ghost predicate Reaches(fs: Files, entry: string, file: string, n: nat)
    decreases n
  {
    if n == 0 then Target(fs, entry) == Some(file)
    else exists from :: Reaches(fs, entry, from, n - 1) && Includes(fs, from, file)
  }

  lemma {:induction false} JobsAre(paths: seq<string>, depth: nat, job: Job)
    ensures job in Jobs(paths, depth) <==> job.depth == depth && job.path in paths
  {
    if paths != [] {
      JobsAre(paths[1..], depth, job);
      assert job.path in paths <==> job.path == paths[0] || job.path in paths[1..];
    }
  }

  lemma {:induction false} ExpandedAre(fs: Files, includes: seq<string>, depth: nat, job: Job)
    ensures job in Expanded(fs, includes, depth) <==> job.depth == depth && exists inc :: inc in includes && job.path in fs.expand(inc)
  {
    hide Jobs;
    if includes != [] {
      JobsAre(fs.expand(includes[0]), depth, job);
      ExpandedAre(fs, includes[1..], depth, job);
      assert forall inc :: inc in includes <==> inc == includes[0] || inc in includes[1..];
    }
  }

  /** A file that is queued, or has been read, is reached over as many includes. */
  ghost predicate Sound(fs: Files, entry: string, queue: seq<Job>, read: seq<Job>) {
    && (forall k :: 0 <= k < |queue| ==>
          && queue[k].depth <= MAX_INCLUDE_DEPTH
          && (Target(fs, queue[k].path).Some? ==> Reaches(fs, entry, Target(fs, queue[k].path).value, queue[k].depth)))
    && (forall k :: 0 <= k < |read| ==> read[k].depth <= MAX_INCLUDE_DEPTH && Reaches(fs, entry, read[k].path, read[k].depth))
  }

  lemma FollowSound(fs: Files, entry: string, visit: Job, job: Job)
    requires Reaches(fs, entry, visit.path, visit.depth) && visit.depth <= MAX_INCLUDE_DEPTH && job in Follow(fs, visit)
    ensures job.depth == visit.depth + 1 <= MAX_INCLUDE_DEPTH
    ensures Target(fs, job.path).Some? ==> Reaches(fs, entry, Target(fs, job.path).value, job.depth)
  {
    hide Expanded, Target, Parse;
    ExpandedAre(fs, Parse(fs.lines(visit.path).value).includes, visit.depth + 1, job);
    if Target(fs, job.path).Some? { assert Includes(fs, visit.path, Target(fs, job.path).value); }
  }

  /** Each file read is the entry, or an include of a file reached before it, over at most
      three includes. */
  lemma {:induction false} VisitsSound(fs: Files, entry: string, queue: seq<Job>, read: seq<Job>)
    requires |read| <= MAX_FILES && Sound(fs, entry, queue, read)
    ensures Sound(fs, entry, [], Visits(fs, queue, read))
    decreases MAX_FILES - |read|, |queue|
  {
    hide Target, Follow, Reaches, Paths;
    if queue != [] && |read| < MAX_FILES {
      var n := |queue| - 1;
      var file := Target(fs, queue[n].path);
      if file.None? || file.value in Paths(read) {
        VisitsSound(fs, entry, queue[..n], read);
      } else {
        var visit := Job(file.value, queue[n].depth);
        var more := Follow(fs, visit);
        forall k | 0 <= k < |more|
          ensures more[k].depth <= MAX_INCLUDE_DEPTH
          ensures Target(fs, more[k].path).Some? ==> Reaches(fs, entry, Target(fs, more[k].path).value, more[k].depth)
        {
          FollowSound(fs, entry, visit, more[k]);
        }
        VisitsSound(fs, entry, queue[..n] + more, read + [visit]);
      }
    }
  }

  /** A file's includes have been read or are queued, when they are to be followed. */
  ghost predicate Closed(fs: Files, queue: seq<Job>, read: seq<Job>) {
    forall k, file :: 0 <= k < |read| && read[k].depth < MAX_INCLUDE_DEPTH && Includes(fs, read[k].path, file) ==>
      Met(fs, queue, read, file)
  }

  ghost predicate Met(fs: Files, queue: seq<Job>, read: seq<Job>, file: string) {
    file in Paths(read) || exists k :: 0 <= k < |queue| && Target(fs, queue[k].path) == Some(file)
  }

  lemma FollowMeets(fs: Files, visit: Job, file: string) returns (k: nat)
    requires visit.depth < MAX_INCLUDE_DEPTH && Includes(fs, visit.path, file)
    ensures k < |Follow(fs, visit)| && Target(fs, Follow(fs, visit)[k].path) == Some(file)
  {
    hide Expanded, Target, Parse;
    var includes := Parse(fs.lines(visit.path).value).includes;
    var inc, path :| inc in includes && path in fs.expand(inc) && Target(fs, path) == Some(file);
    ExpandedAre(fs, includes, visit.depth + 1, Job(path, visit.depth + 1));
    assert Job(path, visit.depth + 1) in Follow(fs, visit);
    k :| 0 <= k < |Follow(fs, visit)| && Follow(fs, visit)[k] == Job(path, visit.depth + 1);
  }

  /** Taking a job off the queue loses nothing, once its file has been read. */
  lemma MetStill(fs: Files, queue: seq<Job>, read: seq<Job>, more: seq<Job>, read': seq<Job>, file: string)
    requires queue != [] && Met(fs, queue, read, file) && read <= read'
    requires Target(fs, queue[|queue| - 1].path) == Some(file) ==> file in Paths(read')
    ensures Met(fs, queue[..|queue| - 1] + more, read', file)
  {
    hide Target;
    var n := |queue| - 1;
    if file in Paths(read) {
      var k :| 0 <= k < |read| && Paths(read)[k] == file;
      assert Paths(read')[k] == file;
    } else {
      var k :| 0 <= k < |queue| && Target(fs, queue[k].path) == Some(file);
      if k < n { assert (queue[..n] + more)[k] == queue[k]; }
    }
  }

  lemma StepClosed(fs: Files, queue: seq<Job>, read: seq<Job>, visit: Job)
    requires queue != [] && Closed(fs, queue, read) && Target(fs, queue[|queue| - 1].path) == Some(visit.path)
    ensures Closed(fs, queue[..|queue| - 1] + Follow(fs, visit), read + [visit])
  {
    hide Target, Follow, Includes;
    var n, more, read' := |queue| - 1, Follow(fs, visit), read + [visit];
    assert Paths(read')[|read|] == visit.path;
    forall k, file | 0 <= k < |read'| && read'[k].depth < MAX_INCLUDE_DEPTH && Includes(fs, read'[k].path, file)
      ensures Met(fs, queue[..n] + more, read', file)
    {
      if k < |read| {
        MetStill(fs, queue, read, more, read', file);
      } else {
        var m := FollowMeets(fs, visit, file);
        assert (queue[..n] + more)[n + m] == more[m];
      }
    }
  }

  lemma SkipClosed(fs: Files, queue: seq<Job>, read: seq<Job>)
    requires queue != [] && Closed(fs, queue, read)
    requires var file := Target(fs, queue[|queue| - 1].path); file.None? || file.value in Paths(read)
    ensures Closed(fs, queue[..|queue| - 1], read)
  {
    hide Target, Includes;
    var n := |queue| - 1;
    assert queue[..n] + [] == queue[..n];
    forall k, file | 0 <= k < |read| && read[k].depth < MAX_INCLUDE_DEPTH && Includes(fs, read[k].path, file)
      ensures Met(fs, queue[..n], read, file)
    {
      MetStill(fs, queue, read, [], read, file);
    }
  }

  /** While fewer than 64 files have been read, every include that is followed is read. */
  lemma {:induction false} VisitsClosed(fs: Files, queue: seq<Job>, read: seq<Job>)
    requires |read| <= MAX_FILES && Closed(fs, queue, read) && |Visits(fs, queue, read)| < MAX_FILES
    ensures Closed(fs, [], Visits(fs, queue, read))
    ensures forall k :: 0 <= k < |queue| && Target(fs, queue[k].path).Some? ==>
      Target(fs, queue[k].path).value in Paths(Visits(fs, queue, read))
    decreases MAX_FILES - |read|, |queue|
  {
    hide Target, Follow, Closed;
    if queue != [] {
      var n := |queue| - 1;
      var file := Target(fs, queue[n].path);
      var all := Visits(fs, queue, read);
      if file.None? || file.value in Paths(read) {
        SkipClosed(fs, queue, read);
        VisitsClosed(fs, queue[..n], read);
        if file.Some? { ReadStays(read, all, file.value); }
      } else {
        var visit := Job(file.value, queue[n].depth);
        var queue' := queue[..n] + Follow(fs, visit);
        StepClosed(fs, queue, read, visit);
        VisitsClosed(fs, queue', read + [visit]);
        assert Paths(read + [visit])[|read|] == file.value;
        ReadStays(read + [visit], all, file.value);
        assert forall k :: 0 <= k < n ==> queue'[k] == queue[k];
      }
    }
  }

  lemma ReadStays(read: seq<Job>, all: seq<Job>, file: string)
    requires read <= all && file in Paths(read)
    ensures file in Paths(all)
  {
    var k :| 0 <= k < |read| && Paths(read)[k] == file;
    assert Paths(all)[k] == file;
  }

  method Expand(fs: Files, includes: seq<string>, depth: nat) returns (jobs: seq<Job>)
    ensures jobs == Expanded(fs, includes, depth)
    ensures forall k :: 0 <= k < |jobs| ==> jobs[k].depth == depth
  {
    jobs := [];
    var k := 0;
    assert includes[0..] == includes;
    while k < |includes|
      invariant 0 <= k <= |includes|
      invariant jobs + Expanded(fs, includes[k..], depth) == Expanded(fs, includes, depth)
      invariant forall k :: 0 <= k < |jobs| ==> jobs[k].depth == depth
    {
      assert includes[k..][1..] == includes[k + 1..];
      JobsDepth(fs.expand(includes[k]), depth);
      jobs := jobs + Jobs(fs.expand(includes[k]), depth);
      k := k + 1;
    }
  }

  lemma {:induction false} JobsDepth(paths: seq<string>, depth: nat)
    ensures forall k :: 0 <= k < |Jobs(paths, depth)| ==> Jobs(paths, depth)[k].depth == depth
  {
    if paths != [] { JobsDepth(paths[1..], depth); }
  }
}
