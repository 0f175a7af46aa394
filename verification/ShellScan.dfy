/** The structure scanner of src/lib/ptyExecShell.ts: a stack of quoting and grouping
    contexts that splits a command line into its grammar scopes. */
module ShellScan {
  import opened Basics

  predicate IsSpace(c: char) { IsSpaceCode(c as int) }

  predicate IsControl(c: char) { c as int <= 0x1f || 0x7f <= c as int <= 0x9f }

  function At(text: string, i: int): Option<char> {
    if 0 <= i < |text| then Some(text[i]) else None
  }

  /** Where a word may begin or end; the edge of the line counts. */
  predicate Boundary(c: Option<char>) { c.None? || IsSpace(c.value) || c.value in ";&|(){}<>" }

  datatype Quote = Bare | Single | Double

  datatype Kind = Group | Command | Parameter | Arithmetic | Backtick

  datatype Context = Context(close: char, kind: Kind, quote: Quote, scope: Option<nat>)

  /** `scope` is the grammar scope that text is being copied to, if any. */
  datatype State = State(scopes: seq<string>, contexts: seq<Context>, scope: Option<nat>, quote: Quote) {
    /** Scope numbers are real, and outside all contexts text goes to the outermost scope. */
    ghost predicate Valid() {
      && scopes != []
      && (scope.Some? ==> scope.value < |scopes|)
      && (forall k :: 0 <= k < |contexts| && contexts[k].scope.Some? ==> contexts[k].scope.value < |scopes|)
      && (if contexts == [] then scope == Some(0) else contexts[0].scope == Some(0))
    }

    function Append(text: string): (s: State)
      requires Valid()
      ensures s.Valid()
    {
      if scope.Some? then this.(scopes := scopes[scope.value := scopes[scope.value] + text]) else this
    }

    function Open(close: char, kind: Kind, next: Option<nat>): (s: State)
      requires Valid() && (next.Some? ==> next.value < |scopes|)
      ensures s.Valid() && s.contexts != []
    {
      State(scopes, contexts + [Context(close, kind, quote, scope)], next, Bare)
    }

    /** A substitution is one ordinary word of its outer scope. */
    function OpenCommand(close: char): (s: State)
      requires Valid()
      ensures s.Valid()
    {
      var outer := Append("q");
      outer.(scopes := outer.scopes + [""]).Open(close, if close == '`' then Backtick else Command, Some(|scopes|))
    }

    /** Two parentheses to close, of which only the outer one restores the scope. */
    function OpenArithmetic(): (s: State)
      requires Valid()
      ensures s.Valid()
    {
      var outer := Append("q").Open(')', Arithmetic, None);
      outer.(contexts := outer.contexts + [Context(')', Arithmetic, Bare, None)])
    }

    predicate Closes(expected: char) { contexts != [] && contexts[|contexts| - 1].close == expected }

    function Close(expected: char): (s: Option<State>)
      requires Valid()
      ensures s.Some? ==> s.value.Valid()
      ensures s.Some? <==> Closes(expected)
    {
      if !Closes(expected) then None
      else
        var context := contexts[|contexts| - 1];
        var inner := if context.kind.Group? then Append([expected]) else this;
        Some(State(inner.scopes, contexts[..|contexts| - 1], context.scope, context.quote))
    }
  }

  const START := State([""], [], Some(0), Bare)

  /** What one character does, and how many characters it consumes. */
  datatype Step = Refuse | Go(state: State, length: nat)

  /** `$(`, `$((` and `${`, which open the same way inside and outside double quotes. */
  function Dollar(s: State, next: Option<char>, next2: Option<char>): (r: Option<Step>)
    requires s.Valid()
    ensures r.Some? ==> r.value.Go? && r.value.state.Valid() && r.value.length > 0
  {
    if next == Some('(') then
      if next2 == Some('(') then Some(Go(s.OpenArithmetic(), 3)) else Some(Go(s.OpenCommand(')'), 2))
    else if next == Some('{') then Some(Go(s.Append("q").Open('}', Parameter, None), 2))
    else None
  }

  function Quoted(s: State, ch: char, next: Option<char>, next2: Option<char>): (r: Step)
    requires s.Valid()
    ensures r.Go? && r.state.Valid() && r.length > 0
  {
    if ch == '\\' then Go(s, 2)
    else if ch == '"' then Go(s.(quote := Bare), 1)
    else if ch == '`' then Go(s.OpenCommand('`'), 1)
    else
      var dollar := if ch == '$' then Dollar(s, next, next2) else None;
      if dollar.Some? then dollar.value else Go(s, 1)
  }

  function Closing(s: Option<State>): (r: Step)
    requires s.Some? ==> s.value.Valid()
    ensures r.Go? ==> r.state.Valid() && r.length > 0
  {
    if s.Some? then Go(s.value, 1) else Refuse
  }

  function Plain(s: State, previous: Option<char>, ch: char, next: Option<char>, next2: Option<char>): (r: Step)
    requires s.Valid()
    ensures r.Go? ==> r.state.Valid() && r.length > 0
  {
    if ch == '\\' then Go(s.Append("q"), 2)
    else if ch == '\'' then Go(s.Append("q").(quote := Single), 1)
    else if ch == '"' then Go(s.Append("q").(quote := Double), 1)
    else if ch == '`' then
      if s.Closes('`') then Closing(s.Close('`')) else Go(s.OpenCommand('`'), 1)
    else if ch == '$' && Dollar(s, next, next2).Some? then Dollar(s, next, next2).value
    else Unquoted(s, previous, ch, next)
  }

  /** A character that is neither a quote nor an expansion. */
  function Unquoted(s: State, previous: Option<char>, ch: char, next: Option<char>): (r: Step)
    requires s.Valid()
    ensures r.Go? ==> r.state.Valid() && r.length > 0
  {
    if ch == '#' && (previous.None? || IsSpace(previous.value) || previous.value in ";&|()<>") then Refuse
    else if ch == '&' && next == Some('>') then Refuse
    else if ch == '&' && next == Some('&') then Go(s.Append("&&"), 2)
    else if ch == '&' && previous != Some('>') && previous != Some('<') then Refuse
    else if ch == '(' then Go(s.Append("(").Open(')', Group, s.scope), 1)
    else if ch == ')' then Closing(s.Close(')'))
    else if ch == '{' && (s.scope.None? || (Boundary(previous) && Boundary(next))) then
      Go(s.Append("{").Open('}', if s.scope.None? then Parameter else Group, s.scope), 1)
    else if ch == '}' && s.Closes('}') then Closing(s.Close('}'))
    else if ch == '}' && Boundary(previous) && Boundary(next) then Refuse
    else Go(s.Append([ch]), 1)
  }

  /** One step of the scan, from the character and its neighbours. */
  function StepOn(s: State, previous: Option<char>, ch: char, next: Option<char>, next2: Option<char>): (r: Step)
    requires s.Valid()
    ensures r.Go? ==> r.state.Valid() && r.length > 0
  {
    match s.quote
    case Single => Go(if ch == '\'' then s.(quote := Bare) else s, 1)
    case Double => Quoted(s, ch, next, next2)
    case Bare => Plain(s, previous, ch, next, next2)
  }

  function StepAt(s: State, text: string, i: nat): (r: Step)
    requires s.Valid() && i < |text|
    ensures r.Go? ==> r.state.Valid() && r.length > 0
  {
    StepOn(s, At(text, i - 1), text[i], At(text, i + 1), At(text, i + 2))
  }

  /** The scopes of the text from i on, or None when something is left open. */
  function ScanFrom(s: State, text: string, i: nat): Option<seq<string>>
    requires s.Valid()
    decreases |text| - i
  {
    if i >= |text| then if s.quote.Bare? && s.contexts == [] then Some(s.scopes) else None
    else
      match StepAt(s, text, i)
      case Refuse => None
      case Go(next, length) => ScanFrom(next, text, i + length)
  }

  function Scan(text: string): Option<seq<string>> { ScanFrom(START, text, 0) }

  // ------------------------------------------------------------ text after a complete command

  /** Appending text that starts with ';' does not change how the command is read. */
  lemma SameStep(s: State, previous: Option<char>, ch: char, next: Option<char>, next2: Option<char>, after: Option<char>)
    requires s.Valid() && next2.None? && (next.None? ==> ch != '\\')
    ensures var next' := if next.Some? then next else Some(';');
            var next2' := if next.Some? then Some(';') else after;
      StepOn(s, previous, ch, next, next2) == StepOn(s, previous, ch, next', next2')
  {
  }

  /** The scan of command + more goes through the command exactly as the scan of the
      command alone, and then reads on outside every context in the outermost scope. */
  lemma {:induction false} ScanThrough(s: State, command: string, more: string, i: nat)
    requires s.Valid() && i <= |command|
    requires more != [] && more[0] == ';'
    requires command != [] ==> command[|command| - 1] != '\\'
    requires ScanFrom(s, command, i).Some?
    ensures var scopes := ScanFrom(s, command, i).value;
      && scopes != []
      && ScanFrom(s, command + more, i) == ScanFrom(State(scopes, [], Some(0), Bare), command + more, |command|)
    decreases |command| - i
  {
    hide StepOn;
    if i < |command| {
      var text := command + more;
      assert At(text, i - 1) == At(command, i - 1) && text[i] == command[i];
      assert i + 1 < |command| ==> At(text, i + 1) == At(command, i + 1);
      assert i + 2 < |command| ==> At(text, i + 2) == At(command, i + 2);
      assert i + 2 == |command| ==> At(text, i + 2) == Some(';');
      if i + 2 >= |command| {
        SameStep(s, At(command, i - 1), command[i], At(command, i + 1), At(command, i + 2), At(text, i + 2));
      }
      var r := StepAt(s, command, i);
      assert StepAt(s, text, i) == r;
      StepWithin(s, command, i);
      ScanThrough(r.state, command, more, i + r.length);
    }
  }

  lemma StepWithin(s: State, command: string, i: nat)
    requires s.Valid() && i < |command| && command[|command| - 1] != '\\'
    ensures var r := StepAt(s, command, i); r.Go? ==> i + r.length <= |command|
  {
  }
}
