/** The tracker of src/lib/osc133.ts in its own form: an object whose fields the OSC
    handlers update in place. Each handler is proved to do what BlockModel says. */
module BlockTracker {
  import opened Basics
  import opened BlockModel

  /** The number the next block gets, shared by every tracker. */
  class Counter {
    var next: nat

    constructor ()
      ensures next == 1
    {
      next := 1;
    }
  }

  class Tracking {
    const env: Env
    const counter: Counter
    var phase: Phase
    var inputMarker: Option<nat>
    var inputStartX: nat
    var pendingCommand: Option<string>
    var shellToken: Option<string>
    var expectedShellToken: Option<string>
    var currentBlockId: Option<nat>
    var inputPristine: bool
    var suspended: bool
    var runbookOutputIsolation: bool
    var runbookClipboardIsolation: bool
    /** What the callbacks have been told. */
    var calls: seq<Call>

    ghost function View(): Tracker
      reads this, counter
    {
      Tracker(phase, inputMarker, inputStartX, pendingCommand, shellToken, expectedShellToken, currentBlockId, inputPristine,
              suspended, runbookOutputIsolation, runbookClipboardIsolation, counter.next, calls)
    }

    /** Both scopes were validated when they were set. */
    ghost predicate ScopesOk()
      reads this
    {
      (shellToken.Some? ==> IsScope(shellToken.value)) && (expectedShellToken.Some? ==> IsScope(expectedShellToken.value))
    }

    constructor (env: Env, counter: Counter)
      ensures ScopesOk()
      ensures this.env == env && this.counter == counter && View() == FRESH.(nextId := counter.next)
    {
      this.env, this.counter := env, counter;
      phase, inputMarker, inputStartX, pendingCommand := AtRest, None, 0, None;
      shellToken, expectedShellToken, currentBlockId, inputPristine := None, None, None, false;
      suspended, runbookOutputIsolation, runbookClipboardIsolation, calls := false, false, false, [];
    }

    method Call(c: Call)
      modifies this`calls
      ensures View() == old(View()).Tell(c)
    {
      calls := calls + [c];
    }

    method SetPhase(p: Phase)
      modifies this`phase, this`calls
      ensures View() == old(View()).In(p)
    {
      phase := p;
      Call(PhaseChange(p));
    }

    /** matchesShellScope, which looks at every position. */
    method MatchesShellScope(candidate: string, expected: Option<string>) returns (same: bool)
      requires IsScope(candidate) && (expected.Some? ==> IsScope(expected.value))
      ensures same <==> expected == Some(candidate)
    {
      if expected.None? { return false; }
      var difference := false;
      for i := 0 to 32
        invariant difference <==> exists k :: 0 <= k < i && candidate[k] != expected.value[k]
      {
        difference := difference || candidate[i] != expected.value[i];
      }
      assert !difference ==> candidate == expected.value;
      return !difference;
    }

    /** setExpectedShellScope; a refused scope throws. */
    method SetExpectedShellScope(scope: string) returns (accepted: bool)
      requires ScopesOk()
      modifies this`expectedShellToken
      ensures ScopesOk()
      ensures View() == Step(env, old(View()), SetScope(scope))
      ensures accepted <==> IsScope(scope) && !Scoped(old(View())) && old(phase).AtRest?
    {
      if !IsScope(scope) || expectedShellToken.Some? || shellToken.Some? || !phase.AtRest? { return false; }
      expectedShellToken := Some(scope);
      return true;
    }

    method EndBlock(exit: int)
      requires currentBlockId.Some?
      modifies this`currentBlockId, this`calls
      ensures View() == old(View()).Tell(BlockEnd(old(currentBlockId).value, exit)).(block := None)
    {
      Call(BlockEnd(currentBlockId.value, exit));
      currentBlockId := None;
    }

    method StartBlock(screen: Screen)
      modifies this, counter
      ensures shellToken == old(shellToken) && expectedShellToken == old(expectedShellToken)
      ensures View() == CommandStarts(env, old(View()), screen)
    {
      var command := if pendingCommand.Some? then pendingCommand.value
                     else env.scrape(inputMarker, inputStartX, screen.stamp);
      pendingCommand := None;
      var blockId := counter.next;
      counter.next := counter.next + 1;
      currentBlockId := Some(blockId);
      Call(BlockStart(blockId, command));
      SetPhase(Output);
    }

    method HandleMark(data: string, screen: Screen)
      modifies this, counter
      ensures shellToken == old(shellToken) && expectedShellToken == old(expectedShellToken)
      ensures View() == Handle133(env, old(View()), data, screen)
    {
      hide CommandStarts, ExitOf;
      if data == "" { return; }
      match data[0]
      case 'A' =>
        if phase.Output? && currentBlockId.Some? { EndBlock(0); }
        SetPhase(Prompt);
      case 'B' =>
        inputMarker := screen.marker;
        inputStartX := screen.column;
        inputPristine := true;
        SetPhase(Input);
      case 'C' => StartBlock(screen);
      case 'D' =>
        if currentBlockId.Some? { EndBlock(ExitOf(env, data)); }
        SetPhase(AtRest);
      case _ =>
    }

    method Locate(text: string)
      modifies this`calls
      ensures View() == Located(env, old(View()), text)
    {
      var place := env.location(text);
      if place.Some? { Call(CwdChange(place.value)); }
    }

    method Decode(text: string)
      modifies this`pendingCommand
      ensures View() == Decoded(env, old(View()), text)
    {
      var decoded := env.decode(text);
      if decoded.Some? { pendingCommand := decoded; }
    }

    method HandleShellEvent(data: string, screen: Screen)
      requires ScopesOk()
      modifies this, counter
      ensures ScopesOk()
      ensures View() == HandleShell(env, old(View()), data, screen)
    {
      hide Handle133, ParseShell, Located, Decoded;
      var shell := ParseShell(data);
      if shell.None? { return; }
      TokenIsScope(data);
      var token, payload := shell.value.token, Or(shell.value.payload);
      if shell.value.kind.Ready? {
        if shell.value.payload.Some? { return; }
        if expectedShellToken.Some? {
          var expected := MatchesShellScope(token, expectedShellToken);
          if !expected { return; }
        }
        if shellToken.None? { shellToken := Some(token); }
        return;
      }
      var ours := MatchesShellScope(token, shellToken);
      if !ours { return; }
      match shell.value.kind
      case Mark => HandleMark(payload, screen);
      case Cwd => Locate(payload);
      case Cmd => Decode(payload);
      case Ready =>
    }

    lemma TokenIsScope(data: string)
      requires ParseShell(data).Some?
      ensures IsScope(ParseShell(data).value.token)
    {
    }

    /** The handler of OSC 133. */
    method OnOsc133(data: string, screen: Screen)
      modifies this, counter
      ensures View() == Step(env, old(View()), Osc133(data, screen))
    {
      hide Handle133;
      if suspended || runbookOutputIsolation || expectedShellToken.Some? || shellToken.Some? { return; }
      HandleMark(data, screen);
    }

    /** The handler of OSC 7. */
    method OnOsc7(data: string)
      modifies this`calls
      ensures View() == Step(env, old(View()), Osc7(data))
    {
      if suspended || runbookOutputIsolation || expectedShellToken.Some? || shellToken.Some? { return; }
      Locate(data);
    }

    /** The handler of OSC 6973. */
    method OnOsc6973(data: string, screen: Screen)
      requires ScopesOk()
      modifies this, counter
      ensures ScopesOk()
      ensures View() == Step(env, old(View()), Osc6973(data, screen))
    {
      hide HandleShell, Decoded;
      if suspended { return; }
      if runbookOutputIsolation {
        if RD <= data { Call(Private(data)); }
        return;
      }
      if SHELL <= data {
        HandleShellEvent(data[6..], screen);
      } else if CMD <= data {
        if expectedShellToken.Some? || shellToken.Some? { return; }
        Decode(data[4..]);
      } else {
        Call(Private(data));
      }
    }
  }
}
