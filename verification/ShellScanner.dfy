/** scanShellStructure in its own form: closures that update the scopes, the context
    stack, the current scope and the quote in place, driven by an index. */
module ShellScanner {
  import opened Basics
  import opened ShellScan

  class Scanner {
    var scopes: seq<string>
    var contexts: seq<Context>
    var scope: Option<nat>
    var quote: Quote

    ghost function View(): State
      reads this
    {
      State(scopes, contexts, scope, quote)
    }

    ghost predicate Valid()
      reads this
    {
      View().Valid()
    }

    constructor ()
      ensures View() == START
    {
      scopes, contexts, scope, quote := [""], [], Some(0), Bare;
    }

    method Append(text: string)
      requires Valid()
      modifies this
      ensures Valid() && View() == old(View()).Append(text)
    {
      if scope.Some? { scopes := scopes[scope.value := scopes[scope.value] + text]; }
    }

    method Open(close: char, kind: Kind, next: Option<nat>)
      requires Valid() && (next.Some? ==> next.value < |scopes|)
      modifies this
      ensures Valid() && View() == old(View()).Open(close, kind, next)
    {
      contexts := contexts + [Context(close, kind, quote, scope)];
      quote := Bare;
      scope := next;
    }

    method OpenCommandScope(close: char)
      requires Valid()
      modifies this
      ensures Valid() && View() == old(View()).OpenCommand(close)
    {
      Append("q");
      var nested := |scopes|;
      scopes := scopes + [""];
      Open(close, if close == '`' then Backtick else Command, Some(nested));
    }

    method OpenArithmetic()
      requires Valid()
      modifies this
      ensures Valid() && View() == old(View()).OpenArithmetic()
    {
      Append("q");
      var outerScope := scope;
      Open(')', Arithmetic, None);
      contexts := contexts + [Context(')', Arithmetic, Bare, None)];
      // Of the two markers, the first one pushed brings the scope back.
      var outer := |contexts| - 2;
      contexts := contexts[outer := contexts[outer].(scope := outerScope)];
      assert View().contexts == old(View()).OpenArithmetic().contexts;
    }

    method Close(expected: char) returns (ok: bool)
      requires Valid()
      modifies this
      ensures Valid()
      ensures ok == old(View()).Closes(expected)
      ensures if ok then old(View()).Close(expected) == Some(View()) else View() == old(View())
    {
      if contexts == [] || contexts[|contexts| - 1].close != expected { return false; }
      var context := contexts[|contexts| - 1];
      ghost var inner := if context.kind.Group? then View().Append([expected]) else View();
      if context.kind.Group? { Append([expected]); }
      contexts := contexts[..|contexts| - 1];
      quote := context.quote;
      scope := context.scope;
      return true;
    }

    /** `$(`, `$((` and `${`: how many more characters they take, if they open anything. */
    method Dollar(next: Option<char>, next2: Option<char>) returns (more: nat)
      requires Valid()
      modifies this
      ensures Valid()
      ensures ShellScan.Dollar(old(View()), next, next2) == if more > 0 then Some(Go(View(), more + 1)) else None
      ensures more == 0 ==> View() == old(View())
    {
      if next == Some('(') {
        if next2 == Some('(') {
          OpenArithmetic();
          return 2;
        }
        OpenCommandScope(')');
        return 1;
      }
      if next == Some('{') {
        Append("q");
        Open('}', Parameter, None);
        return 1;
      }
      return 0;
    }

    /** One character inside double quotes. */
    method Quoted(ch: char, next: Option<char>, next2: Option<char>) returns (more: nat)
      requires Valid()
      modifies this
      ensures Valid() && ShellScan.Quoted(old(View()), ch, next, next2) == Go(View(), more + 1)
    {
      hide ShellScan.Dollar, State.OpenCommand;
      more := 0;
      if ch == '\\' { return 1; }
      if ch == '"' {
        quote := Bare;
      } else if ch == '`' {
        OpenCommandScope('`');
      } else if ch == '$' {
        more := Dollar(next, next2);
      }
    }

    /** One character outside quotes. */
    method Plain(previous: Option<char>, ch: char, next: Option<char>, next2: Option<char>)
      returns (ok: bool, more: nat)
      requires Valid()
      modifies this
      ensures Valid()
      ensures ShellScan.Plain(old(View()), previous, ch, next, next2) == if ok then Go(View(), more + 1) else Refuse
    {
      hide ShellScan.Dollar, State.OpenCommand, State.Open, State.Close, Boundary, IsSpace, ShellScan.Unquoted;
      ok, more := true, 0;
      if ch == '\\' { Append("q"); return true, 1; }
      if ch == '\'' { Append("q"); quote := Single; return; }
      if ch == '"' { Append("q"); quote := Double; return; }
      if ch == '`' {
        if contexts != [] && contexts[|contexts| - 1].close == '`' { ok := Close('`'); } else { OpenCommandScope('`'); }
        return;
      }
      if ch == '$' {
        more := Dollar(next, next2);
        if more > 0 { return; }
      }
      ok, more := Unquoted(previous, ch, next);
    }

    /** A character that is neither a quote nor an expansion. */
    method Unquoted(previous: Option<char>, ch: char, next: Option<char>) returns (ok: bool, more: nat)
      requires Valid()
      modifies this
      ensures Valid()
      ensures ShellScan.Unquoted(old(View()), previous, ch, next) == if ok then Go(View(), more + 1) else Refuse
    {
      hide State.Open, State.Close, Boundary, IsSpace;
      ok, more := true, 0;
      if ch == '#' && (previous.None? || IsSpace(previous.value) || previous.value in ";&|()<>") { return false, 0; }
      if ch == '&' {
        if next == Some('>') { return false, 0; }
        if next == Some('&') { Append("&&"); return true, 1; }
        if previous != Some('>') && previous != Some('<') { return false, 0; }
      }
      if ch == '(' { Append("("); Open(')', Group, scope); return; }
      if ch == ')' { ok := Close(')'); return; }
      if ch == '{' {
        if scope.None? || (Boundary(previous) && Boundary(next)) {
          Append("{");
          Open('}', if scope.None? then Parameter else Group, scope);
        } else {
          Append("{");
        }
        return;
      }
      if ch == '}' && contexts != [] && contexts[|contexts| - 1].close == '}' { ok := Close('}'); return; }
      if ch == '}' && Boundary(previous) && Boundary(next) { return false, 0; }
      Append([ch]);
    }
  }

  /** scanShellStructure */
  method ScanShellStructure(command: string) returns (scopes: Option<seq<string>>)
    ensures scopes == Scan(command)
  {
    hide State.Valid, Plain, Quoted;
    var scanner := new Scanner();
    StartIsValid();
    var i := 0;
    while i < |command|
      invariant 0 <= i && scanner.Valid()
      invariant Scan(command) == ScanFrom(scanner.View(), command, i)
      decreases |command| - i
    {
      var ch := command[i];
      var previous, next, next2 := At(command, i - 1), At(command, i + 1), At(command, i + 2);
      if scanner.quote.Single? {
        Requoted(scanner.View());
        if ch == '\'' { scanner.quote := Bare; }
        i := i + 1;
      } else if scanner.quote.Double? {
        var more := scanner.Quoted(ch, next, next2);
        i := i + 1 + more;
      } else {
        var ok, more := scanner.Plain(previous, ch, next, next2);
        if !ok { return None; }
        i := i + 1 + more;
      }
    }
    return if scanner.quote.Bare? && scanner.contexts == [] then Some(scanner.scopes) else None;
  }

  lemma StartIsValid()
    ensures START.Valid()
  {
  }

  lemma Requoted(s: State)
    requires s.Valid()
    ensures s.(quote := Bare).Valid()
  {
  }
}
