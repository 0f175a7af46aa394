/** The command lines that the structure scanner of src/lib/ptyExecShell.ts accepts, as
    nested pieces of shell text, and the grammar scopes that their pieces make. */
module ShellPieces {
  import opened Basics
  import opened ShellScan
  import opened ShellSentinel

  /** One piece of a command line. Single holds how many characters are quoted; Last is a
      backslash that ends the line; Arith holds the text before and after its inner
      parenthesis. */
  datatype Piece =
    | Plain(c: char)
    | And
    | Escaped
    | Last
    | SingleQuoted(n: nat)
    | DoubleQuoted(inner: Pieces)
    | Substitution(inner: Pieces)
    | Ticks(inner: Pieces)
    | Parameter(inner: Pieces)
    | Arith(inner: Pieces, outer: Pieces)
    | Parens(inner: Pieces)
    | Braces(inner: Pieces)

  datatype Pieces = Nil | Cons(head: Piece, tail: Pieces)

  function Width(p: Piece): (n: nat)
    ensures n > 0
  {
    match p
    case Plain(_) => 1
    case And => 2
    case Escaped => 2
    case Last => 1
    case SingleQuoted(n) => n + 2
    case DoubleQuoted(inner) => Length(inner) + 2
    case Substitution(inner) => Length(inner) + 3
    case Ticks(inner) => Length(inner) + 2
    case Parameter(inner) => Length(inner) + 3
    case Arith(inner, outer) => Length(inner) + Length(outer) + 5
    case Parens(inner) => Length(inner) + 2
    case Braces(inner) => Length(inner) + 2
  }

  function Length(ps: Pieces): nat {
    match ps
    case Nil => 0
    case Cons(p, rest) => Width(p) + Length(rest)
  }

  // ------------------------------------------------------------ where a piece may stand

  /** What encloses a piece: the character that would close its context, whether its text
      is shell grammar, and whether it stands in double quotes. */
  datatype Env = Env(closer: Option<char>, scoped: bool, quoted: bool)

  const TOP := Env(None, true, false)

  predicate Is(text: string, i: nat, c: char) { i < |text| && text[i] == c }

  predicate WordEdge(c: char) { IsSpaceCode(c as int) || c in ";&|(){}<>" }

  predicate Standalone(text: string, i: nat) {
    (i == 0 || (i <= |text| && WordEdge(text[i - 1]))) && (i + 1 >= |text| || WordEdge(text[i + 1]))
  }

  /** A dollar sign that expands nothing. */
  predicate LoneDollar(text: string, i: nat) { !Is(text, i + 1, '(') && !Is(text, i + 1, '{') }

  predicate InWord(text: string, i: nat) {
    0 < i <= |text| && !IsSpaceCode(text[i - 1] as int) && text[i - 1] !in ";&|()<>"
  }

  /** A character that stands for itself outside quotes: no comment, no background job, no
      stray closing and no opening. */
  predicate BareChar(text: string, i: nat, c: char, env: Env) {
    && c !in "\\'\"`()"
    && (c == '$' ==> LoneDollar(text, i))
    && (c == '#' ==> InWord(text, i))
    && (c == '&' ==> 0 < i <= |text| && text[i - 1] in "<>" && !Is(text, i + 1, '>') && !Is(text, i + 1, '&'))
    && (c == '{' ==> env.scoped && !Standalone(text, i))
    && (c == '}' ==> env.closer != Some('}') && !Standalone(text, i))
  }

  predicate QuotedChar(text: string, i: nat, c: char) { c !in "\\\"`" && (c == '$' ==> LoneDollar(text, i)) }

  /** The piece stands in the text at i. */
  predicate Stands(text: string, i: nat, p: Piece, env: Env)
    decreases p
  {
    match p
    case Plain(c) => Is(text, i, c) && if env.quoted then QuotedChar(text, i, c) else BareChar(text, i, c, env)
    case And => !env.quoted && Is(text, i, '&') && Is(text, i + 1, '&')
    case Escaped => Is(text, i, '\\') && i + 1 < |text|
    case Last => Is(text, i, '\\') && i + 1 == |text| && env.closer.None? && !env.quoted
    case SingleQuoted(n) => !env.quoted && Is(text, i, '\'') && Is(text, i + 1 + n, '\'') && '\'' !in text[i + 1..i + 1 + n]
    case DoubleQuoted(inner) =>
      !env.quoted && Is(text, i, '"') && Stand(text, i + 1, inner, env.(quoted := true)) && Is(text, i + 1 + Length(inner), '"')
    case Substitution(inner) =>
      && Is(text, i, '$') && Is(text, i + 1, '(') && !Is(text, i + 2, '(')
      && Stand(text, i + 2, inner, Env(Some(')'), true, false)) && Is(text, i + 2 + Length(inner), ')')
    case Ticks(inner) =>
      && (env.quoted || env.closer != Some('`')) && Is(text, i, '`')
      && Stand(text, i + 1, inner, Env(Some('`'), true, false)) && Is(text, i + 1 + Length(inner), '`')
    case Parameter(inner) =>
      && Is(text, i, '$') && Is(text, i + 1, '{')
      && Stand(text, i + 2, inner, Env(Some('}'), false, false)) && Is(text, i + 2 + Length(inner), '}')
    case Arith(inner, outer) =>
      && Is(text, i, '$') && Is(text, i + 1, '(') && Is(text, i + 2, '(')
      && Stand(text, i + 3, inner, Env(Some(')'), false, false)) && Is(text, i + 3 + Length(inner), ')')
      && Stand(text, i + 4 + Length(inner), outer, Env(Some(')'), false, false))
      && Is(text, i + 4 + Length(inner) + Length(outer), ')')
    case Parens(inner) =>
      && !env.quoted && Is(text, i, '(')
      && Stand(text, i + 1, inner, Env(Some(')'), env.scoped, false)) && Is(text, i + 1 + Length(inner), ')')
    case Braces(inner) =>
      && !env.quoted && Is(text, i, '{') && (env.scoped ==> Standalone(text, i))
      && Stand(text, i + 1, inner, Env(Some('}'), env.scoped, false)) && Is(text, i + 1 + Length(inner), '}')
  }

  predicate Stand(text: string, i: nat, ps: Pieces, env: Env)
    decreases ps
  {
    match ps
    case Nil => true
    case Cons(p, rest) => Stands(text, i, p, env) && Stand(text, i + Width(p), rest, env)
  }

  // ------------------------------------------------------------ the scopes of the pieces

  /** What a piece is in its own scope: a character of grammar, or one word. */
  function Own(p: Piece, quoted: bool): string {
    match p
    case Plain(c) => if quoted then "" else [c]
    case And => "&&"
    case Escaped => if quoted then "" else "q"
    case DoubleQuoted(inner) => "q" + Owns(inner, true)
    case Parens(inner) => "(" + Owns(inner, false) + ")"
    case Braces(inner) => "{" + Owns(inner, false) + "}"
    case _ => "q"
  }

  function Owns(ps: Pieces, quoted: bool): string {
    match ps
    case Nil => ""
    case Cons(p, rest) => Own(p, quoted) + Owns(rest, quoted)
  }

  /** The scopes opened within a piece, in the order in which they open. */
  function Nested(p: Piece): seq<string> {
    match p
    case DoubleQuoted(inner) => Nesteds(inner)
    case Substitution(inner) => [Owns(inner, false)] + Nesteds(inner)
    case Ticks(inner) => [Owns(inner, false)] + Nesteds(inner)
    case Parameter(inner) => Nesteds(inner)
    case Arith(inner, outer) => Nesteds(inner) + Nesteds(outer)
    case Parens(inner) => Nesteds(inner)
    case Braces(inner) => Nesteds(inner)
    case _ => []
  }

  function Nesteds(ps: Pieces): seq<string> {
    match ps
    case Nil => []
    case Cons(p, rest) => Nested(p) + Nesteds(rest)
  }

  // ------------------------------------------------------------ the scanner over pieces

  function EnvOf(s: State): Env {
    Env(if s.contexts == [] then None else Some(s.contexts[|s.contexts| - 1].close), s.scope.Some?, s.quote.Double?)
  }

  /** The state with more text in its scope and more scopes behind the others. */
  function Grown(s: State, own: string, nested: seq<string>): (t: State)
    requires s.Valid()
    ensures t.Valid() && EnvOf(t) == EnvOf(s) && t.quote == s.quote
  {
    var t := s.Append(own);
    t.(scopes := t.scopes + nested)
  }

  lemma GrownTwice(s: State, a: string, m: seq<string>, b: string, n: seq<string>)
    requires s.Valid()
    ensures Grown(Grown(s, a, m), b, n) == Grown(s, a + b, m + n)
  {
    var once, both := Grown(Grown(s, a, m), b, n), Grown(s, a + b, m + n);
    if s.scope.Some? {
      var k := s.scope.value;
      assert s.scopes[k] + a + b == s.scopes[k] + (a + b);
      assert once.scopes == both.scopes;
    } else {
      assert s.scopes + m + n == s.scopes + (m + n);
    }
  }

  lemma GrownNot(s: State)
    requires s.Valid()
    ensures Grown(s, "", []) == s
  {
    if s.scope.Some? { assert s.scopes[s.scope.value] + "" == s.scopes[s.scope.value]; }
    assert s.scopes + [] == s.scopes;
  }

  lemma GrownOwn(s: State, a: string)
    requires s.Valid()
    ensures Grown(s, a, []) == s.Append(a)
  {
    assert s.Append(a).scopes + [] == s.Append(a).scopes;
  }

  // ------------------------------------------------------------ what stands is scanned so

  lemma PastEnd(s: State, text: string)
    requires s.Valid()
    ensures ScanFrom(s, text, |text| + 1) == ScanFrom(s, text, |text|)
  {
  }

  /** One character that is copied or skipped. */
  lemma ScanPlain(s: State, text: string, i: nat, c: char)
    requires s.Valid() && !s.quote.Single? && Stands(text, i, Plain(c), EnvOf(s))
    ensures StepAt(s, text, i) == Go(if s.quote.Double? then s else s.Append([c]), 1)
  {
  }

  lemma ScanAnd(s: State, text: string, i: nat)
    requires s.Valid() && s.quote.Bare? && Is(text, i, '&') && Is(text, i + 1, '&')
    ensures StepAt(s, text, i) == Go(s.Append("&&"), 2)
  {
  }

  lemma ScanEscaped(s: State, text: string, i: nat)
    requires s.Valid() && !s.quote.Single? && Is(text, i, '\\')
    ensures StepAt(s, text, i) == Go(if s.quote.Double? then s else s.Append("q"), 2)
  {
  }

  lemma ScanQuote(s: State, text: string, i: nat)
    requires s.Valid()
    ensures s.quote.Bare? && Is(text, i, '\'') ==> StepAt(s, text, i) == Go(s.Append("q").(quote := Single), 1)
    ensures s.quote.Bare? && Is(text, i, '"') ==> StepAt(s, text, i) == Go(s.Append("q").(quote := Double), 1)
    ensures s.quote.Double? && Is(text, i, '"') ==> StepAt(s, text, i) == Go(s.(quote := Bare), 1)
  {
  }

  lemma ScanTick(s: State, text: string, i: nat)
    requires s.Valid() && !s.quote.Single? && Is(text, i, '`') && (s.quote.Double? || !s.Closes('`'))
    ensures StepAt(s, text, i) == Go(s.OpenCommand('`'), 1)
  {
  }

  lemma ScanDollar(s: State, text: string, i: nat)
    requires s.Valid() && !s.quote.Single? && Is(text, i, '$')
    ensures Is(text, i + 1, '(') && !Is(text, i + 2, '(') ==> StepAt(s, text, i) == Go(s.OpenCommand(')'), 2)
    ensures Is(text, i + 1, '(') && Is(text, i + 2, '(') ==> StepAt(s, text, i) == Go(s.OpenArithmetic(), 3)
    ensures Is(text, i + 1, '{') ==> StepAt(s, text, i) == Go(s.Append("q").Open('}', Kind.Parameter, None), 2)
  {
  }

  lemma ScanParen(s: State, text: string, i: nat)
    requires s.Valid() && s.quote.Bare? && Is(text, i, '(')
    ensures StepAt(s, text, i) == Go(s.Append("(").Open(')', Group, s.scope), 1)
  {
  }

  lemma ScanBrace(s: State, text: string, i: nat)
    requires s.Valid() && s.quote.Bare? && Is(text, i, '{') && (s.scope.Some? ==> Standalone(text, i))
    ensures StepAt(s, text, i) == Go(s.Append("{").Open('}', if s.scope.None? then Kind.Parameter else Group, s.scope), 1)
  {
  }

  lemma ScanClose(s: State, text: string, i: nat, c: char)
    requires s.Valid() && s.quote.Bare? && s.Closes(c) && c in ")}`" && Is(text, i, c)
    ensures StepAt(s, text, i) == Go(s.Close(c).value, 1)
  {
  }

  lemma ScanOn(s: State, text: string, i: nat, r: Step)
    requires s.Valid() && i < |text| && StepAt(s, text, i) == r && r.Go?
    ensures ScanFrom(s, text, i) == ScanFrom(r.state, text, i + r.length)
  {
    hide StepAt;
  }

  // ------------------------------------------------------------ contexts opened and closed again

  /** A substitution leaves one word and its own scope. */
  lemma CommandDone(s: State, close: char, own: string, nested: seq<string>)
    requires s.Valid()
    ensures var t := Grown(s.OpenCommand(close), own, nested);
      t.quote.Bare? && t.Closes(close) && t.Close(close) == Some(Grown(s, "q", [own] + nested))
  {
    var base := s.Append("q");
    var t := Grown(s.OpenCommand(close), own, nested);
    assert "" + own == own;
    assert (base.scopes + [""])[|s.scopes| := own] == base.scopes + [own];
    assert base.scopes + [own] + nested == base.scopes + ([own] + nested);
    assert t.contexts[..|t.contexts| - 1] == s.contexts;
  }

  lemma GroupDone(s: State, open: char, close: char, own: string, nested: seq<string>)
    requires s.Valid() && s.quote.Bare?
    ensures var t := Grown(s.Append([open]).Open(close, Group, s.scope), own, nested);
      t.quote.Bare? && t.Closes(close) && t.Close(close) == Some(Grown(s, [open] + own + [close], nested))
  {
    var t := Grown(s.Append([open]).Open(close, Group, s.scope), own, nested);
    var done := t.Close(close).value;
    assert t.contexts[..|t.contexts| - 1] == s.contexts;
    if s.scope.Some? {
      var text := s.scopes[s.scope.value];
      assert text + [open] + own + [close] == text + ([open] + own + [close]);
      assert done.scopes == Grown(s, [open] + own + [close], nested).scopes;
    }
  }

  /** Text that belongs to no scope leaves only the scopes within it. */
  lemma ParameterDone(s: State, own: string, nested: seq<string>)
    requires s.Valid()
    ensures var t := Grown(s.Append("q").Open('}', Kind.Parameter, None), own, nested);
      t.quote.Bare? && t.Closes('}') && t.Close('}') == Some(Grown(s, "q", nested))
  {
    var t := Grown(s.Append("q").Open('}', Kind.Parameter, None), own, nested);
    assert t.contexts[..|t.contexts| - 1] == s.contexts;
  }

  lemma BraceDone(s: State, own: string, nested: seq<string>)
    requires s.Valid() && s.quote.Bare? && s.scope.None?
    ensures var t := Grown(s.Append("{").Open('}', Kind.Parameter, None), own, nested);
      t.quote.Bare? && t.Closes('}') && t.Close('}') == Some(Grown(s, "{" + own + "}", nested))
  {
    var t := Grown(s.Append("{").Open('}', Kind.Parameter, None), own, nested);
    assert t.contexts[..|t.contexts| - 1] == s.contexts;
  }

  lemma ArithDone(s: State, own: string, nested: seq<string>, own': string, nested': seq<string>)
    requires s.Valid()
    ensures var t := Grown(s.OpenArithmetic(), own, nested);
      && t.quote.Bare? && t.scope.None? && t.Closes(')') && t.Close(')').Some?
      && t.Close(')').value.quote.Bare? && EnvOf(t.Close(')').value) == Env(Some(')'), false, false)
      && var t' := Grown(t.Close(')').value, own', nested');
         t'.quote.Bare? && t'.Closes(')') && t'.Close(')') == Some(Grown(s, "q", nested + nested'))
  {
    var base := s.Append("q");
    var t := Grown(s.OpenArithmetic(), own, nested);
    var mid := t.Close(')').value;
    var t' := Grown(mid, own', nested');
    assert t.contexts[..|t.contexts| - 1] == base.Open(')', Arithmetic, None).contexts;
    assert t'.contexts[..|t'.contexts| - 1] == s.contexts;
    assert base.scopes + nested + nested' == base.scopes + (nested + nested');
  }

  lemma DoubleDone(s: State, own: string, nested: seq<string>)
    requires s.Valid() && s.quote.Bare?
    ensures Grown(s.Append("q").(quote := Double), own, nested).(quote := Bare) == Grown(s, "q" + own, nested)
  {
    GrownTwice(s, "q", [], own, nested);
    GrownOwn(s, "q");
    assert [] + nested == nested;
  }

  /** From the inside of a context over its closing character. */
  lemma OverClose(s: State, text: string, j: nat, t: State, c: char, done: State)
    requires s.Valid() && t.Valid() && t.quote.Bare? && t.Closes(c) && t.Close(c) == Some(done) && c in ")}`"
    requires Is(text, j, c)
    ensures ScanFrom(t, text, j) == ScanFrom(done, text, j + 1)
  {
    ScanClose(t, text, j, c);
    ScanOn(t, text, j, Go(done, 1));
  }

  /** The state behind a list of pieces. */
  function Behind(s: State, ps: Pieces): (t: State)
    requires s.Valid()
    ensures t.Valid() && EnvOf(t) == EnvOf(s) && t.quote == s.quote
  {
    Grown(s, Owns(ps, s.quote.Double?), Nesteds(ps))
  }

  lemma {:induction false} ScanPieces(s: State, text: string, i: nat, ps: Pieces)
    requires s.Valid() && !s.quote.Single? && i <= |text| && Stand(text, i, ps, EnvOf(s))
    ensures i + Length(ps) <= |text|
    ensures ScanFrom(s, text, i) == ScanFrom(Behind(s, ps), text, i + Length(ps))
    decreases Length(ps), 3
  {
    hide ScanFrom, Grown, EnvOf;
    match ps
    case Nil => GrownNot(s);
    case Cons(p, rest) =>
      ScanPiece(s, text, i, p);
      var quoted := s.quote.Double?;
      var t := Grown(s, Own(p, quoted), Nested(p));
      ScanPieces(t, text, i + Width(p), rest);
      GrownTwice(s, Own(p, quoted), Nested(p), Owns(rest, quoted), Nesteds(rest));
  }

  lemma {:induction false} ScanPiece(s: State, text: string, i: nat, p: Piece)
    requires s.Valid() && !s.quote.Single? && Stands(text, i, p, EnvOf(s))
    ensures i + Width(p) <= |text|
    ensures ScanFrom(s, text, i) == ScanFrom(Grown(s, Own(p, s.quote.Double?), Nested(p)), text, i + Width(p))
    decreases Width(p), 2
  {
    hide ScanFrom, StepAt, Grown, EnvOf, BareChar, QuotedChar, Stand, Standalone, Owns, Nesteds, Length;
    EnvIs(s);
    match p
    case Plain(c) =>
      ScanPlain(s, text, i, c);
      ScanOn(s, text, i, StepAt(s, text, i));
      GrownOwn(s, [c]);
      GrownNot(s);
    case And =>
      ScanAnd(s, text, i);
      ScanOn(s, text, i, StepAt(s, text, i));
      GrownOwn(s, "&&");
    case Escaped =>
      ScanEscaped(s, text, i);
      ScanOn(s, text, i, StepAt(s, text, i));
      GrownOwn(s, "q");
      GrownNot(s);
    case Last =>
      ScanEscaped(s, text, i);
      ScanOn(s, text, i, StepAt(s, text, i));
      GrownOwn(s, "q");
      PastEnd(s.Append("q"), text);
    case SingleQuoted(n) =>
      ScanQuote(s, text, i);
      ScanOn(s, text, i, StepAt(s, text, i));
      ReadQuoted(s.Append("q").(quote := Single), text, i + 1, i + 1 + n);
      GrownOwn(s, "q");
    case _ => ScanEnclosing(s, text, i, p);
  }

  lemma {:induction false} ScanEnclosing(s: State, text: string, i: nat, p: Piece)
    requires s.Valid() && !s.quote.Single? && Stands(text, i, p, EnvOf(s))
    requires p.DoubleQuoted? || p.Substitution? || p.Ticks? || p.Parameter? || p.Arith? || p.Parens? || p.Braces?
    ensures i + Width(p) <= |text|
    ensures ScanFrom(s, text, i) == ScanFrom(Grown(s, Own(p, s.quote.Double?), Nested(p)), text, i + Width(p))
    decreases Width(p), 1
  {
    hide ScanFrom, StepAt, Grown, EnvOf, Stand, Standalone, Owns, Nesteds, Length;
    EnvIs(s);
    match p
    case DoubleQuoted(inner) => ScanDouble(s, text, i, inner);
    case Substitution(inner) =>
      ScanDollar(s, text, i);
      ScanOn(s, text, i, StepAt(s, text, i));
      ScanCommand(s, text, i + 2, inner, ')');
    case Ticks(inner) =>
      ScanTick(s, text, i);
      ScanOn(s, text, i, StepAt(s, text, i));
      ScanCommand(s, text, i + 1, inner, '`');
    case Parameter(inner) => ScanParameter(s, text, i, inner);
    case Arith(inner, outer) => ScanArith(s, text, i, inner, outer);
    case Parens(inner) => ScanParens(s, text, i, inner);
    case Braces(inner) => ScanBraces(s, text, i, inner);
  }

  lemma EnvIs(s: State)
    requires s.Valid()
    ensures EnvOf(s).closer != Some('`') <==> !s.Closes('`')
    ensures EnvOf(s).quoted == s.quote.Double? && EnvOf(s).scoped == s.scope.Some?
    ensures EnvOf(s).closer.None? <==> s.contexts == []
  {
  }

  lemma EnvOpened(s: State, close: char, kind: Kind, next: Option<nat>)
    requires s.Valid() && (next.Some? ==> next.value < |s.scopes|)
    ensures EnvOf(s.Open(close, kind, next)) == Env(Some(close), next.Some?, false)
    ensures EnvOf(s.OpenCommand(close)) == Env(Some(close), true, false)
    ensures EnvOf(s.OpenArithmetic()) == Env(Some(')'), false, false)
  {
  }

  lemma {:induction false} ScanDouble(s: State, text: string, i: nat, inner: Pieces)
    requires s.Valid() && s.quote.Bare? && Is(text, i, '"')
    requires Stand(text, i + 1, inner, EnvOf(s).(quoted := true)) && Is(text, i + 1 + Length(inner), '"')
    ensures i + Length(inner) + 2 <= |text|
    ensures ScanFrom(s, text, i) == ScanFrom(Grown(s, "q" + Owns(inner, true), Nesteds(inner)), text, i + Length(inner) + 2)
    decreases Length(inner) + 2, 0
  {
    hide ScanFrom, StepAt, Grown, Stand, Owns, Nesteds, Length;
    var s1 := s.Append("q").(quote := Double);
    ScanQuote(s, text, i);
    ScanOn(s, text, i, Go(s1, 1));
    assert EnvOf(s1) == EnvOf(s).(quoted := true);
    ScanPieces(s1, text, i + 1, inner);
    var t, j := Behind(s1, inner), i + 1 + Length(inner);
    ScanQuote(t, text, j);
    ScanOn(t, text, j, Go(t.(quote := Bare), 1));
    DoubleDone(s, Owns(inner, true), Nesteds(inner));
  }

  lemma {:induction false} ScanCommand(s: State, text: string, i: nat, inner: Pieces, close: char)
    requires s.Valid() && i <= |text| && close in ")`"
    requires Stand(text, i, inner, Env(Some(close), true, false)) && Is(text, i + Length(inner), close)
    ensures i + Length(inner) + 1 <= |text|
    ensures ScanFrom(s.OpenCommand(close), text, i) ==
      ScanFrom(Grown(s, "q", [Owns(inner, false)] + Nesteds(inner)), text, i + Length(inner) + 1)
    decreases Length(inner) + 1, 0
  {
    hide ScanFrom, StepAt, Grown, EnvOf, Stand, Owns, Nesteds, Length;
    EnvOpened(s, close, Command, None);
    ScanPieces(s.OpenCommand(close), text, i, inner);
    CommandDone(s, close, Owns(inner, false), Nesteds(inner));
    OverClose(s, text, i + Length(inner), Behind(s.OpenCommand(close), inner), close, Grown(s, "q", [Owns(inner, false)] + Nesteds(inner)));
  }

  lemma {:induction false} ScanParameter(s: State, text: string, i: nat, inner: Pieces)
    requires s.Valid() && !s.quote.Single? && Is(text, i, '$') && Is(text, i + 1, '{')
    requires Stand(text, i + 2, inner, Env(Some('}'), false, false)) && Is(text, i + 2 + Length(inner), '}')
    ensures i + Length(inner) + 3 <= |text|
    ensures ScanFrom(s, text, i) == ScanFrom(Grown(s, "q", Nesteds(inner)), text, i + Length(inner) + 3)
    decreases Length(inner) + 3, 0
  {
    hide ScanFrom, StepAt, Grown, EnvOf, Stand, Owns, Nesteds, Length;
    var s1 := s.Append("q").Open('}', Kind.Parameter, None);
    ScanDollar(s, text, i);
    ScanOn(s, text, i, Go(s1, 2));
    EnvOpened(s.Append("q"), '}', Kind.Parameter, None);
    ScanPieces(s1, text, i + 2, inner);
    ParameterDone(s, Owns(inner, false), Nesteds(inner));
    OverClose(s, text, i + 2 + Length(inner), Behind(s1, inner), '}', Grown(s, "q", Nesteds(inner)));
  }

  lemma {:induction false} ScanArith(s: State, text: string, i: nat, inner: Pieces, outer: Pieces)
    requires s.Valid() && !s.quote.Single? && Is(text, i, '$') && Is(text, i + 1, '(') && Is(text, i + 2, '(')
    requires Stand(text, i + 3, inner, Env(Some(')'), false, false)) && Is(text, i + 3 + Length(inner), ')')
    requires Stand(text, i + 4 + Length(inner), outer, Env(Some(')'), false, false))
    requires Is(text, i + 4 + Length(inner) + Length(outer), ')')
    ensures i + Length(inner) + Length(outer) + 5 <= |text|
    ensures ScanFrom(s, text, i) ==
      ScanFrom(Grown(s, "q", Nesteds(inner) + Nesteds(outer)), text, i + Length(inner) + Length(outer) + 5)
    decreases Length(inner) + Length(outer) + 5, 0
  {
    hide ScanFrom, StepAt, Grown, EnvOf, Stand, Owns, Nesteds, Length;
    var s1 := s.OpenArithmetic();
    ScanDollar(s, text, i);
    ScanOn(s, text, i, Go(s1, 3));
    EnvOpened(s, ')', Command, None);
    ScanPieces(s1, text, i + 3, inner);
    ArithDone(s, Owns(inner, false), Nesteds(inner), Owns(outer, false), Nesteds(outer));
    var t := Behind(s1, inner);
    var mid, j := t.Close(')').value, i + 3 + Length(inner);
    OverClose(s, text, j, t, ')', mid);
    ScanPieces(mid, text, j + 1, outer);
    OverClose(s, text, j + 1 + Length(outer), Behind(mid, outer), ')', Grown(s, "q", Nesteds(inner) + Nesteds(outer)));
  }

  lemma {:induction false} ScanParens(s: State, text: string, i: nat, inner: Pieces)
    requires s.Valid() && s.quote.Bare? && Is(text, i, '(')
    requires Stand(text, i + 1, inner, Env(Some(')'), s.scope.Some?, false)) && Is(text, i + 1 + Length(inner), ')')
    ensures i + Length(inner) + 2 <= |text|
    ensures ScanFrom(s, text, i) ==
      ScanFrom(Grown(s, "(" + Owns(inner, false) + ")", Nesteds(inner)), text, i + Length(inner) + 2)
    decreases Length(inner) + 2, 0
  {
    hide ScanFrom, StepAt, Grown, Stand, Owns, Nesteds, Length;
    var s1 := s.Append("(").Open(')', Group, s.scope);
    ScanParen(s, text, i);
    ScanOn(s, text, i, Go(s1, 1));
    EnvOpened(s.Append("("), ')', Group, s.scope);
    ScanPieces(s1, text, i + 1, inner);
    GroupDone(s, '(', ')', Owns(inner, false), Nesteds(inner));
    OverClose(s, text, i + 1 + Length(inner), Behind(s1, inner), ')', Grown(s, "(" + Owns(inner, false) + ")", Nesteds(inner)));
  }

  lemma {:induction false} ScanBraces(s: State, text: string, i: nat, inner: Pieces)
    requires s.Valid() && s.quote.Bare? && Is(text, i, '{') && (s.scope.Some? ==> Standalone(text, i))
    requires Stand(text, i + 1, inner, Env(Some('}'), s.scope.Some?, false)) && Is(text, i + 1 + Length(inner), '}')
    ensures i + Length(inner) + 2 <= |text|
    ensures ScanFrom(s, text, i) ==
      ScanFrom(Grown(s, "{" + Owns(inner, false) + "}", Nesteds(inner)), text, i + Length(inner) + 2)
    decreases Length(inner) + 2, 0
  {
    hide ScanFrom, StepAt, Grown, Stand, Standalone, Owns, Nesteds, Length;
    var s1 := s.Append("{").Open('}', if s.scope.None? then Kind.Parameter else Group, s.scope);
    ScanBrace(s, text, i);
    ScanOn(s, text, i, Go(s1, 1));
    EnvOpened(s.Append("{"), '}', if s.scope.None? then Kind.Parameter else Group, s.scope);
    ScanPieces(s1, text, i + 1, inner);
    if s.scope.None? {
      BraceDone(s, Owns(inner, false), Nesteds(inner));
    } else {
      GroupDone(s, '{', '}', Owns(inner, false), Nesteds(inner));
    }
    OverClose(s, text, i + 1 + Length(inner), Behind(s1, inner), '}', Grown(s, "{" + Owns(inner, false) + "}", Nesteds(inner)));
  }

  // ------------------------------------------------------------ what is scanned stands so

  /** The end of the region that a state is in: the character that closes it, or, outside
      all contexts, the end of the text. */
  predicate EndsAt(s: State, text: string, j: nat) {
    if s.quote.Double? then Is(text, j, '"')
    else if s.contexts == [] then j == |text|
    else Is(text, j, s.contexts[|s.contexts| - 1].close)
  }

  ghost predicate Scans(s: State, text: string, i: nat)
    requires s.Valid()
  {
    i <= |text| && ScanFrom(s, text, i).Some?
  }

  lemma GrownEnds(s: State, own: string, nested: seq<string>, text: string, j: nat)
    requires s.Valid()
    ensures EndsAt(Grown(s, own, nested), text, j) == EndsAt(s, text, j)
  {
  }

  /** A scan that succeeds has not refused the character it is at. */
  lemma ScansOn(s: State, text: string, i: nat)
    requires s.Valid() && Scans(s, text, i) && !EndsAt(s, text, i) && !s.quote.Single?
    ensures i < |text| && StepAt(s, text, i).Go?
    ensures var r := StepAt(s, text, i); ScanFrom(r.state, text, i + r.length).Some?
  {
    hide StepAt;
  }

  lemma {:induction false} QuoteEnds(s: State, text: string, i: nat) returns (end: nat)
    requires s.Valid() && s.quote.Single? && Scans(s, text, i)
    ensures i <= end && Is(text, end, '\'') && '\'' !in text[i..end]
    decreases |text| - i
  {
    hide ShellScan.Plain, Quoted;
    if text[i] == '\'' {
      end := i;
    } else {
      end := QuoteEnds(s, text, i + 1);
      assert text[i..end] == [text[i]] + text[i + 1..end];
    }
  }

  lemma {:induction false} PiecesFrom(s: State, text: string, i: nat) returns (ps: Pieces)
    requires s.Valid() && !s.quote.Single? && Scans(s, text, i)
    ensures Stand(text, i, ps, EnvOf(s)) && EndsAt(s, text, i + Length(ps))
    decreases |text| - i, 3
  {
    hide StepAt, ScanFrom, Grown, Stands, EnvOf, EndsAt;
    if EndsAt(s, text, i) {
      ps := Nil;
    } else {
      var p := PieceAt(s, text, i);
      ScanPiece(s, text, i, p);
      var t := Grown(s, Own(p, s.quote.Double?), Nested(p));
      var rest := PiecesFrom(t, text, i + Width(p));
      GrownEnds(s, Own(p, s.quote.Double?), Nested(p), text, i + Width(p) + Length(rest));
      ps := Cons(p, rest);
    }
  }

  lemma {:induction false} PieceAt(s: State, text: string, i: nat) returns (p: Piece)
    requires s.Valid() && !s.quote.Single? && Scans(s, text, i) && !EndsAt(s, text, i)
    ensures Stands(text, i, p, EnvOf(s))
    decreases |text| - i, 2
  {
    hide StepAt, ScanFrom, EnvOf, EndsAt, Standalone, BareChar, QuotedChar, Stand;
    ScansOn(s, text, i);
    EnvIs(s);
    var c := text[i];
    if c == '\\' {
      ScanEscaped(s, text, i);
      if i + 1 < |text| {
        p := Escaped;
      } else {
        LastEnds(s, text, i);
        p := Last;
      }
    } else if c == '`' {
      NotClosing(s, text, i, '`');
      ScanTick(s, text, i);
      var inner := PiecesFrom(s.OpenCommand('`'), text, i + 1);
      CommandEnds(s, '`', text, i + 1 + Length(inner));
      p := Piece.Ticks(inner);
    } else if c == '$' && !LoneDollar(text, i) {
      p := DollarPiece(s, text, i);
    } else if s.quote.Double? {
      PlainQuoted(s, text, i);
      p := Plain(c);
    } else {
      p := BarePiece(s, text, i);
    }
  }

  lemma LastEnds(s: State, text: string, i: nat)
    requires s.Valid() && !s.quote.Single? && i + 1 == |text| && text[i] == '\\' && ScanFrom(s, text, i).Some?
    ensures s.quote.Bare? && s.contexts == []
  {
    hide StepAt;
    ScanEscaped(s, text, i);
  }

  lemma NotClosing(s: State, text: string, i: nat, c: char)
    requires s.Valid() && Is(text, i, c) && !EndsAt(s, text, i)
    ensures s.quote.Double? || !s.Closes(c)
  {
  }

  lemma CommandEnds(s: State, close: char, text: string, j: nat)
    requires s.Valid() && EndsAt(s.OpenCommand(close), text, j)
    ensures Is(text, j, close) && EnvOf(s.OpenCommand(close)) == Env(Some(close), true, false)
  {
  }

  lemma PlainQuoted(s: State, text: string, i: nat)
    requires s.Valid() && s.quote.Double? && i < |text| && !EndsAt(s, text, i)
    requires text[i] !in "\\`" && (text[i] == '$' ==> LoneDollar(text, i))
    ensures Stands(text, i, Plain(text[i]), EnvOf(s))
  {
  }

  lemma {:induction false} DollarPiece(s: State, text: string, i: nat) returns (p: Piece)
    requires s.Valid() && !s.quote.Single? && Scans(s, text, i) && Is(text, i, '$') && !LoneDollar(text, i)
    requires var r := StepAt(s, text, i); r.Go? && ScanFrom(r.state, text, i + r.length).Some?
    ensures Stands(text, i, p, EnvOf(s))
    decreases |text| - i, 1
  {
    hide StepAt, ScanFrom, EnvOf, EndsAt, Stand, Grown, Owns, Nesteds, Length;
    ScanDollar(s, text, i);
    if Is(text, i + 1, '{') {
      var s1 := s.Append("q").Open('}', Kind.Parameter, None);
      EnvOpened(s.Append("q"), '}', Kind.Parameter, None);
      var inner := PiecesFrom(s1, text, i + 2);
      OpenEnds(s.Append("q"), '}', Kind.Parameter, None, text, i + 2 + Length(inner));
      p := Piece.Parameter(inner);
    } else if !Is(text, i + 2, '(') {
      var inner := PiecesFrom(s.OpenCommand(')'), text, i + 2);
      CommandEnds(s, ')', text, i + 2 + Length(inner));
      p := Substitution(inner);
    } else {
      p := ArithPiece(s, text, i);
    }
  }

  lemma {:induction false} ArithPiece(s: State, text: string, i: nat) returns (p: Piece)
    requires s.Valid() && !s.quote.Single? && i + 2 < |text| && text[i] == '$' && text[i + 1] == text[i + 2] == '('
    requires ScanFrom(s.OpenArithmetic(), text, i + 3).Some?
    ensures Stands(text, i, p, EnvOf(s))
    decreases |text| - i, 0
  {
    hide StepAt, ScanFrom, EnvOf, EndsAt, Stand, Grown, Owns, Nesteds, Length;
    var s1 := s.OpenArithmetic();
    EnvOpened(s, ')', Kind.Command, None);
    var inner := PiecesFrom(s1, text, i + 3);
    var j := i + 3 + Length(inner);
    ScanPieces(s1, text, i + 3, inner);
    var t := Behind(s1, inner);
    BetweenParens(s, inner);
    var mid := t.Close(')').value;
    ArithEnds(s, text, j);
    OverClose(s, text, j, t, ')', mid);
    var outer := PiecesFrom(mid, text, j + 1);
    EnvEnds(mid, text, j + 1 + Length(outer));
    p := Arith(inner, outer);
  }

  lemma BetweenParens(s: State, inner: Pieces)
    requires s.Valid()
    ensures var t := Behind(s.OpenArithmetic(), inner);
      && t.quote.Bare? && t.Closes(')') && t.Close(')').Some?
      && t.Close(')').value.quote.Bare? && EnvOf(t.Close(')').value) == Env(Some(')'), false, false)
  {
    hide Grown, EnvOf;
    ArithDone(s, Owns(inner, false), Nesteds(inner), "", []);
  }

  lemma OpenEnds(s: State, close: char, kind: Kind, next: Option<nat>, text: string, j: nat)
    requires s.Valid() && (next.Some? ==> next.value < |s.scopes|) && EndsAt(s.Open(close, kind, next), text, j)
    ensures Is(text, j, close)
  {
  }

  lemma ArithEnds(s: State, text: string, j: nat)
    requires s.Valid() && EndsAt(s.OpenArithmetic(), text, j)
    ensures Is(text, j, ')')
  {
  }

  lemma EnvEnds(s: State, text: string, j: nat)
    requires EndsAt(s, text, j) && EnvOf(s).closer.Some? && !EnvOf(s).quoted
    ensures Is(text, j, EnvOf(s).closer.value)
  {
  }

  lemma {:induction false} BarePiece(s: State, text: string, i: nat) returns (p: Piece)
    requires s.Valid() && s.quote.Bare? && Scans(s, text, i) && !EndsAt(s, text, i) && i < |text|
    requires text[i] !in "\\`" && (text[i] == '$' ==> LoneDollar(text, i))
    requires var r := StepAt(s, text, i); r.Go? && ScanFrom(r.state, text, i + r.length).Some?
    ensures Stands(text, i, p, EnvOf(s))
    decreases |text| - i, 1
  {
    hide StepAt, ScanFrom, EnvOf, EndsAt, Standalone, BareChar, Stand;
    var c := text[i];
    EnvIs(s);
    ScanQuote(s, text, i);
    if c == '\'' {
      var end := QuoteEnds(s.Append("q").(quote := Single), text, i + 1);
      p := SingleQuoted(end - i - 1);
    } else if c == '"' {
      var s1 := s.Append("q").(quote := Double);
      assert EnvOf(s1) == EnvOf(s).(quoted := true) by { DoubleEnv(s, s1); }
      var inner := PiecesFrom(s1, text, i + 1);
      DoubleEnds(s1, text, i + 1 + Length(inner));
      p := DoubleQuoted(inner);
    } else if c == '(' || (c == '{' && (s.scope.None? || Standalone(text, i))) {
      p := GroupPiece(s, text, i);
    } else if c == '&' && Is(text, i + 1, '&') {
      p := And;
    } else {
      BareStands(s, text, i);
      p := Plain(c);
    }
  }

  lemma {:induction false} GroupPiece(s: State, text: string, i: nat) returns (p: Piece)
    requires s.Valid() && s.quote.Bare? && i < |text|
    requires text[i] == '(' || (text[i] == '{' && (s.scope.None? || Standalone(text, i)))
    requires var r := StepAt(s, text, i); r.Go? && ScanFrom(r.state, text, i + r.length).Some?
    ensures Stands(text, i, p, EnvOf(s))
    decreases |text| - i, 0
  {
    hide StepAt, ScanFrom, EnvOf, EndsAt, Standalone, Stand, Length;
    EnvIs(s);
    if text[i] == '(' {
      ScanParen(s, text, i);
      EnvOpened(s.Append("("), ')', Group, s.scope);
      var inner := PiecesFrom(s.Append("(").Open(')', Group, s.scope), text, i + 1);
      OpenEnds(s.Append("("), ')', Group, s.scope, text, i + 1 + Length(inner));
      p := Parens(inner);
    } else {
      var kind := if s.scope.None? then Kind.Parameter else Group;
      ScanBrace(s, text, i);
      EnvOpened(s.Append("{"), '}', kind, s.scope);
      var inner := PiecesFrom(s.Append("{").Open('}', kind, s.scope), text, i + 1);
      OpenEnds(s.Append("{"), '}', kind, s.scope, text, i + 1 + Length(inner));
      p := Braces(inner);
    }
  }

  lemma DoubleEnv(s: State, s1: State)
    requires s.Valid() && s1 == s.Append("q").(quote := Double)
    ensures EnvOf(s1) == EnvOf(s).(quoted := true)
  {
  }

  lemma DoubleEnds(s: State, text: string, j: nat)
    requires s.quote.Double? && EndsAt(s, text, j)
    ensures Is(text, j, '"')
  {
  }

  /** A character that is not refused and opens or closes nothing stands for itself. */
  lemma BareStands(s: State, text: string, i: nat)
    requires s.Valid() && s.quote.Bare? && i < |text| && StepAt(s, text, i).Go? && !EndsAt(s, text, i)
    requires text[i] !in "\\`'\"(" && (text[i] == '$' ==> LoneDollar(text, i))
    requires text[i] == '{' ==> s.scope.Some? && !Standalone(text, i)
    requires text[i] == '&' ==> !Is(text, i + 1, '&')
    ensures Stands(text, i, Plain(text[i]), EnvOf(s))
  {
  }

  // ------------------------------------------------------------ the two together

  /** The scan accepts a line exactly when pieces of shell text make it up, and its scopes
      are then those of the pieces, the outermost first. */
  lemma ScanExactly(text: string, scopes: seq<string>)
    ensures Scan(text) == Some(scopes) <==>
      exists ps :: Stand(text, 0, ps, TOP) && Length(ps) == |text| && scopes == [Owns(ps, false)] + Nesteds(ps)
  {
    hide ScanFrom, Stand, Length, Owns, Nesteds;
    assert EnvOf(START) == TOP;
    if Scan(text) == Some(scopes) {
      var ps := PiecesFrom(START, text, 0);
      OfPieces(text, ps);
      assert Stand(text, 0, ps, TOP) && Length(ps) == |text| && scopes == [Owns(ps, false)] + Nesteds(ps);
    }
    if exists ps :: Stand(text, 0, ps, TOP) && Length(ps) == |text| && scopes == [Owns(ps, false)] + Nesteds(ps) {
      var ps :| Stand(text, 0, ps, TOP) && Length(ps) == |text| && scopes == [Owns(ps, false)] + Nesteds(ps);
      OfPieces(text, ps);
    }
  }

  lemma OfPieces(text: string, ps: Pieces)
    requires Stand(text, 0, ps, TOP) && Length(ps) == |text|
    ensures Scan(text) == Some([Owns(ps, false)] + Nesteds(ps))
  {
    hide ScanFrom, Stand, Length, Owns, Nesteds;
    assert EnvOf(START) == TOP;
    ScanPieces(START, text, 0, ps);
    ReadEnd(Behind(START, ps), text);
    assert "" + Owns(ps, false) == Owns(ps, false);
    assert START.Append(Owns(ps, false)).scopes == [Owns(ps, false)];
  }
}
