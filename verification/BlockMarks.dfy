/** What the marks that reach the tracker of src/lib/osc133.ts do, said on the payloads of
    the events: which are heard, and which exit code a block end reports. */
module BlockMarks {
  import opened Basics
  import opened BlockModel

  // ------------------------------------------------------------ payloads

  predicate LowHex(c: char) { '0' <= c <= '9' || 'a' <= c <= 'f' }

  predicate IsToken(s: string) { |s| == 32 && forall k | 0 <= k < |s| :: LowHex(s[k]) }

  function Name(kind: Kind): string {
    match kind
    case Ready => "READY"
    case Mark => "133"
    case Cwd => "7"
    case Cmd => "CMD"
  }

  /** ^([a-f0-9]{32});(READY|133|7|CMD)(?:;([\s\S]*))?$ */
  predicate Spells(data: string, shell: Shell) {
    && IsToken(shell.token)
    && data == shell.token + [';'] + Name(shell.kind) + if shell.payload.Some? then [';'] + shell.payload.value else []
  }

  lemma PayloadIs(rest: string, name: string, payload: Option<string>)
    ensures rest == name + (if payload.Some? then [';'] + payload.value else []) <==> Payload(rest, name) == Some(payload)
  {
    if name <= rest { assert rest == name + rest[|name|..]; }
    if name < rest { assert rest[|name|..] == [rest[|name|]] + rest[|name| + 1..]; }
    if rest == name + (if payload.Some? then [';'] + payload.value else []) {
      assert rest[..|name|] == name;
      if payload.Some? { assert rest[|name|] == ';' && rest[|name| + 1..] == payload.value; }
    }
  }

  lemma OneName(rest: string, kind: Kind, payload: Option<string>)
    requires Payload(rest, Name(kind)) == Some(payload)
    ensures kind.Mark? || kind.Cwd? || kind.Cmd? ==> Payload(rest, "READY").None?
    ensures kind.Cwd? || kind.Cmd? ==> Payload(rest, "133").None?
    ensures kind.Cmd? ==> Payload(rest, "7").None?
  {
    assert rest[0] == Name(kind)[0];
  }

  lemma ParsesExactly(data: string, shell: Shell)
    ensures Spells(data, shell) <==> ParseShell(data) == Some(shell)
  {
    hide Payload;
    var name := Name(shell.kind);
    if Spells(data, shell) {
      var rest := name + if shell.payload.Some? then [';'] + shell.payload.value else [];
      assert data == shell.token + [';'] + rest;
      assert data[..32] == shell.token && data[32] == ';' && data[33..] == rest;
      PayloadIs(rest, name, shell.payload);
      OneName(rest, shell.kind, shell.payload);
    }
    if ParseShell(data) == Some(shell) {
      var rest := data[33..];
      assert data == data[..32] + [data[32]] + rest;
      PayloadIs(rest, name, shell.payload);
      assert data[..32] + [';'] + (name + if shell.payload.Some? then [';'] + shell.payload.value else [])
          == data[..32] + [';'] + name + if shell.payload.Some? then [';'] + shell.payload.value else [];
    }
  }

  // ------------------------------------------------------------ marks that are heard

  /** The mark reaches the tracker: plainly while no scope is expected or bound, or in the
      name of the bound scope; never during a replay or an isolated command. */
  ghost predicate Heard(s: Tracker, e: Event, mark: string) {
    && !s.suspended && !s.isolated
    && ((e.Osc133? && e.data == mark && s.token.None? && s.expected.None?)
        || (e.Osc6973? && s.token.Some? && exists payload: Option<string> :: ScopedMark(s.token.value, e.data, payload, mark)))
  }

  predicate ScopedMark(token: string, data: string, payload: Option<string>, mark: string) {
    && "SHELL;" <= data && Spells(data[6..], Shell(token, Mark, payload))
    && mark == if payload.Some? then payload.value else ""
  }

  /** The number behind the letter of the mark; 0 when there is none or it is not read. */
  function Reported(env: Env, mark: string): int {
    var number := if |mark| <= 2 then "0" else mark[2..];
    if env.exitCode(number).Some? then env.exitCode(number).value else 0
  }

  lemma HeardMark(env: Env, s: Tracker, e: Event, mark: string)
    requires Heard(s, e, mark)
    ensures (e.Osc133? || e.Osc6973?) && Step(env, s, e) == Handle133(env, s, mark, e.screen)
  {
    hide Handle133, ParseShell, Spells;
    if e.Osc6973? {
      var payload :| ScopedMark(s.token.value, e.data, payload, mark);
      ParsesExactly(e.data[6..], Shell(s.token.value, Mark, payload));
    }
  }

  /** D ends the open block, if any, with the number it carries. */
  function OnEnd(env: Env, s: Tracker, mark: string): Tracker {
    var told := if s.block.Some? then [BlockEnd(s.block.value, Reported(env, mark))] else [];
    s.(phase := AtRest, block := None, calls := s.calls + told + [PhaseChange(AtRest)])
  }

  /** A ends a block that is still running, with 0. */
  function OnPrompt(s: Tracker): Tracker {
    if s.phase.Output? && s.block.Some? then
      s.(phase := Prompt, block := None, calls := s.calls + [BlockEnd(s.block.value, 0), PhaseChange(Prompt)])
    else s.(phase := Prompt, calls := s.calls + [PhaseChange(Prompt)])
  }

  /** B anchors the input. */
  function OnInput(s: Tracker, screen: Screen): Tracker {
    s.(phase := Input, inputMarker := screen.marker, inputStart := screen.column, pristine := true,
       calls := s.calls + [PhaseChange(Input)])
  }

  /** C opens the next block, with the command sent for it, or else the one on the screen. */
  function OnStart(env: Env, s: Tracker, screen: Screen): Tracker {
    var command := if s.pending.Some? then s.pending.value else env.scrape(s.inputMarker, s.inputStart, screen.stamp);
    s.(phase := Output, pending := None, block := Some(s.nextId), nextId := s.nextId + 1,
       calls := s.calls + [BlockStart(s.nextId, command), PhaseChange(Output)])
  }

  /** The four marks, and nothing for any other. */
  lemma MarkActs(env: Env, s: Tracker, e: Event, mark: string)
    requires Heard(s, e, mark)
    ensures e.Osc133? || e.Osc6973?
    ensures Step(env, s, e) ==
      if mark == "" then s
      else if mark[0] == 'A' then OnPrompt(s)
      else if mark[0] == 'B' then OnInput(s, e.screen)
      else if mark[0] == 'C' then OnStart(env, s, e.screen)
      else if mark[0] == 'D' then OnEnd(env, s, mark)
      else s
  {
    hide Step, Heard, ExitOf, Reported, OnPrompt, OnInput, OnStart, OnEnd, PromptStarts, InputStarts, CommandStarts, CommandEnds;
    HeardMark(env, s, e, mark);
    ActsAlike(env, s, e.screen, mark);
  }

  lemma ActsAlike(env: Env, s: Tracker, screen: Screen, mark: string)
    ensures PromptStarts(s) == OnPrompt(s) && InputStarts(s, screen) == OnInput(s, screen)
    ensures CommandStarts(env, s, screen) == OnStart(env, s, screen)
    ensures CommandEnds(s, ExitOf(env, mark)) == OnEnd(env, s, mark)
  {
    hide ExitOf, Reported, OnEnd, CommandEnds;
    EndsAlike(env, s, mark);
  }

  lemma EndsAlike(env: Env, s: Tracker, mark: string)
    ensures CommandEnds(s, ExitOf(env, mark)) == OnEnd(env, s, mark)
  {
    hide ExitOf, Reported;
    ReportedIs(env, mark);
    assert s.calls + [] == s.calls;
  }

  lemma ReportedIs(env: Env, mark: string)
    ensures ExitOf(env, mark) == Reported(env, mark)
  {
  }

  lemma MarkIsHeard(s: Tracker, e: Event, payload: Option<string>)
    requires e.Osc6973? && !s.suspended && !s.isolated && s.token.Some? && "SHELL;" <= e.data
    requires Spells(e.data[6..], Shell(s.token.value, Mark, payload))
    ensures exists mark :: Heard(s, e, mark)
  {
    assert ScopedMark(s.token.value, e.data, payload, Or(payload));
    assert Heard(s, e, Or(payload));
  }

  /** Without a mark the phase, the block and the block callbacks stay. */
  lemma NoMark(env: Env, s: Tracker, e: Event)
    requires forall mark :: !Heard(s, e, mark)
    ensures var t := Step(env, s, e);
      && t.phase == s.phase && t.block == s.block && s.calls <= t.calls
      && forall k :: |s.calls| <= k < |t.calls| ==> t.calls[k].CwdChange? || t.calls[k].Private?
  {
    hide Handle133, ParseShell, Spells;
    if e.Osc133? { assert !Heard(s, e, e.data); }
    if e.Osc6973? && !s.suspended && !s.isolated && SHELL <= e.data && ParseShell(e.data[6..]).Some? {
      var shell := ParseShell(e.data[6..]).value;
      ParsesExactly(e.data[6..], shell);
      if shell.kind.Mark? && s.token == Some(shell.token) {
        MarkIsHeard(s, e, shell.payload);
      }
    }
  }

  // ------------------------------------------------------------ where a reported exit comes from

  /** The event ends the block with this exit: a heard D that carries it, or a heard A with
      the block still running, which reports 0. */
  ghost predicate Ends(env: Env, s: Tracker, e: Event, exit: int) {
    exists mark :: Heard(s, e, mark) && EndsBy(env, s, mark, exit)
  }

  predicate EndsBy(env: Env, s: Tracker, mark: string, exit: int) {
    mark != "" && ((mark[0] == 'D' && exit == Reported(env, mark)) || (mark[0] == 'A' && s.phase.Output? && exit == 0))
  }

  lemma MarkEnds(env: Env, s: Tracker, e: Event, mark: string, k: nat)
    requires Heard(s, e, mark)
    requires var calls := Step(env, s, e).calls; |s.calls| <= k < |calls| && calls[k].BlockEnd?
    ensures var c := Step(env, s, e).calls[k]; k == |s.calls| && s.block == Some(c.id) && EndsBy(env, s, mark, c.exit)
  {
    hide Step, Heard, Reported;
    MarkActs(env, s, e, mark);
    var t, c := Step(env, s, e), Step(env, s, e).calls[k];
    if mark == "" || mark[0] !in "ABCD" {
    } else if mark[0] == 'D' {
      assert c == t.calls[|s.calls|..][k - |s.calls|];
    } else if mark[0] == 'A' {
      assert c == t.calls[|s.calls|..][k - |s.calls|];
    }
  }

  lemma StepTells(env: Env, s: Tracker, e: Event, k: nat)
    requires var calls := Step(env, s, e).calls; |s.calls| <= k < |calls| && calls[k].BlockEnd?
    ensures var c := Step(env, s, e).calls[k]; k == |s.calls| && s.block == Some(c.id) && Ends(env, s, e, c.exit)
  {
    hide Step, Heard, Reported;
    if mark :| Heard(s, e, mark) {
      MarkEnds(env, s, e, mark, k);
    } else {
      NoMark(env, s, e);
    }
  }

  lemma StepKeepsCalls(env: Env, s: Tracker, e: Event)
    ensures s.calls <= Step(env, s, e).calls
  {
    hide Step, Heard, Reported;
    if mark :| Heard(s, e, mark) {
      MarkActs(env, s, e, mark);
    } else {
      NoMark(env, s, e);
    }
  }

  lemma {:induction false} RunLast(env: Env, s: Tracker, events: seq<Event>)
    requires events != []
    ensures var n := |events| - 1; Run(env, s, events) == Step(env, Run(env, s, events[..n]), events[n])
    decreases |events|
  {
    hide Step;
    if |events| > 1 {
      RunLast(env, Step(env, s, events[0]), events[1..]);
      assert events[1..][..|events| - 2] == events[..|events| - 1][1..];
    }
  }

  /** Every reported block end, in every stream of events, was made by one event of the
      stream, which ended the block open at that moment with the exit it carries. */
  lemma {:induction false} EndsReport(env: Env, events: seq<Event>, k: nat)
    requires var calls := Run(env, FRESH, events).calls; k < |calls| && calls[k].BlockEnd?
    ensures var c := Run(env, FRESH, events).calls[k];
      exists n :: 0 <= n < |events| && var s := Run(env, FRESH, events[..n]);
        |s.calls| == k && s.block == Some(c.id) && Ends(env, s, events[n], c.exit)
    decreases |events|
  {
    hide Step, Run, Ends;
    if events == [] {
      NothingRun(env);
    } else {
      var n := |events| - 1;
      var s := Run(env, FRESH, events[..n]);
      RunLast(env, FRESH, events);
      StepKeepsCalls(env, s, events[n]);
      if k < |s.calls| {
        EndsReport(env, events[..n], k);
        var m :| 0 <= m < n && var s' := Run(env, FRESH, events[..n][..m]);
          |s'.calls| == k && s'.block == Some(s.calls[k].id) && Ends(env, s', events[..n][m], s.calls[k].exit);
        assert events[..n][..m] == events[..m];
      } else {
        StepTells(env, s, events[n], k);
      }
    }
  }

  lemma NothingRun(env: Env)
    ensures Run(env, FRESH, []).calls == []
  {
  }

  // ------------------------------------------------------------ commands, places, private payloads

  /** A payload of the bound scope, or, while there is no scope, the plain form of it. */
  ghost predicate Says(s: Tracker, data: string, kind: Kind, text: string) {
    s.token.Some? && exists payload: Option<string> :: ScopedText(s.token.value, data, kind, payload, text)
  }

  predicate ScopedText(token: string, data: string, kind: Kind, payload: Option<string>, text: string) {
    "SHELL;" <= data && Spells(data[6..], Shell(token, kind, payload)) && text == if payload.Some? then payload.value else ""
  }

  predicate Free(s: Tracker) { s.token.None? && s.expected.None? }

  ghost predicate HeardCommand(s: Tracker, e: Event, text: string) {
    && !s.suspended && !s.isolated && e.Osc6973?
    && (Says(s, e.data, Cmd, text) || (Free(s) && "CMD;" <= e.data && text == e.data[4..]))
  }

  ghost predicate HeardPlace(s: Tracker, e: Event, text: string) {
    && !s.suspended && !s.isolated
    && ((e.Osc7? && Free(s) && text == e.data) || (e.Osc6973? && Says(s, e.data, Cwd, text)))
  }

  /** Everything on the private channel but shell traffic; of an isolated command only its
      completion. */
  predicate HeardPrivate(s: Tracker, e: Event) {
    && !s.suspended && e.Osc6973?
    && if s.isolated then "RD;" <= e.data else !("SHELL;" <= e.data) && !("CMD;" <= e.data)
  }

  lemma SaysOnce(s: Tracker, data: string, kind: Kind, text: string, kind': Kind, text': string)
    requires Says(s, data, kind, text) && Says(s, data, kind', text')
    ensures kind == kind' && text == text'
  {
    hide Spells;
    var payload :| ScopedText(s.token.value, data, kind, payload, text);
    var payload' :| ScopedText(s.token.value, data, kind', payload', text');
    ParsesExactly(data[6..], Shell(s.token.value, kind, payload));
    ParsesExactly(data[6..], Shell(s.token.value, kind', payload'));
  }

  /** What an event that carries no mark does. */
  ghost predicate Acts(env: Env, s: Tracker, e: Event, t: Tracker) {
    && t.inputMarker == s.inputMarker && t.inputStart == s.inputStart
    && (forall text :: HeardCommand(s, e, text) ==>
          t.pending == (if env.decode(text).Some? then env.decode(text) else s.pending) && t.calls == s.calls)
    && (forall text :: HeardPlace(s, e, text) ==> t.pending == s.pending && t.calls == s.calls + Told(env, text))
    && (HeardPrivate(s, e) ==> t.pending == s.pending && t.calls == s.calls + [Private(e.data)])
    && (!HeardPrivate(s, e) && (forall text :: !HeardCommand(s, e, text) && !HeardPlace(s, e, text)) ==>
          t.pending == s.pending && t.calls == s.calls)
  }

  function Told(env: Env, text: string): seq<Call> {
    if env.location(text).Some? then [CwdChange(env.location(text).value)] else []
  }

  lemma ShellActs(env: Env, s: Tracker, e: Event)
    requires e.Osc6973? && !s.suspended && !s.isolated && SHELL <= e.data && forall mark :: !Heard(s, e, mark)
    ensures Acts(env, s, e, Step(env, s, e))
  {
    hide Handle133, ParseShell, Spells;
    var data := e.data[6..];
    assert s.calls + [] == s.calls && !(CMD <= e.data) by { assert SHELL[0] != CMD[0]; }
    if ParseShell(data).Some? && s.token == Some(ParseShell(data).value.token) {
      var shell := ParseShell(data).value;
      ParsesExactly(data, shell);
      var text := Or(shell.payload);
      assert ScopedText(s.token.value, e.data, shell.kind, shell.payload, text);
      assert Says(s, e.data, shell.kind, text);
      OneSaying(s, e.data, shell.kind, text);
      if shell.kind.Mark? { MarkIsHeard(s, e, shell.payload); }
      if shell.kind.Cmd? { assert HeardCommand(s, e, text); }
      if shell.kind.Cwd? { assert HeardPlace(s, e, text); }
    } else {
      NoSaying(s, e.data);
    }
  }

  lemma OneSaying(s: Tracker, data: string, kind: Kind, text: string)
    requires Says(s, data, kind, text)
    ensures forall kind', text' :: Says(s, data, kind', text') ==> kind' == kind && text' == text
  {
    hide Says;
    forall kind', text' | Says(s, data, kind', text') ensures kind' == kind && text' == text {
      SaysOnce(s, data, kind, text, kind', text');
    }
  }

  lemma NoSaying(s: Tracker, data: string)
    requires "SHELL;" <= data
    requires ParseShell(data[6..]).None? || s.token != Some(ParseShell(data[6..]).value.token)
    ensures forall kind, text :: !Says(s, data, kind, text)
  {
    hide ParseShell, Spells;
    forall kind, text | Says(s, data, kind, text) ensures false {
      var payload: Option<string> :| ScopedText(s.token.value, data, kind, payload, text);
      ParsesExactly(data[6..], Shell(s.token.value, kind, payload));
    }
  }

  lemma PlainActs(env: Env, s: Tracker, e: Event)
    requires !(e.Osc6973? && !s.suspended && !s.isolated && SHELL <= e.data) && forall mark :: !Heard(s, e, mark)
    ensures Acts(env, s, e, Step(env, s, e))
  {
    hide Handle133, ParseShell, HandleShell, Spells;
    assert s.calls + [] == s.calls;
    if e.Osc133? { assert !Heard(s, e, e.data); }
    if e.Osc7? && !s.suspended && !s.isolated && Free(s) { assert HeardPlace(s, e, e.data); }
    if e.Osc6973? && !s.suspended && !s.isolated && CMD <= e.data && Free(s) { assert HeardCommand(s, e, e.data[4..]); }
  }

  /** What any other event tells and remembers. */
  lemma OthersAct(env: Env, s: Tracker, e: Event)
    requires forall mark :: !Heard(s, e, mark)
    ensures Acts(env, s, e, Step(env, s, e))
  {
    hide Step, Acts, Heard;
    if e.Osc6973? && !s.suspended && !s.isolated && SHELL <= e.data { ShellActs(env, s, e); } else { PlainActs(env, s, e); }
  }

  /** The event starts a block with this number and command: a heard C, with the command
      that is pending or else the one on the screen. */
  ghost predicate Begins(env: Env, s: Tracker, e: Event, id: nat, command: string) {
    && (e.Osc133? || e.Osc6973?) && (exists mark :: Heard(s, e, mark) && mark != "" && mark[0] == 'C')
    && id == s.nextId
    && command == if s.pending.Some? then s.pending.value else env.scrape(s.inputMarker, s.inputStart, e.screen.stamp)
  }

  lemma StepStarts(env: Env, s: Tracker, e: Event, k: nat)
    requires var calls := Step(env, s, e).calls; |s.calls| <= k < |calls| && calls[k].BlockStart?
    ensures var c := Step(env, s, e).calls[k]; k == |s.calls| && Begins(env, s, e, c.id, c.command)
  {
    hide Step, Heard, Reported, OnPrompt, OnInput, OnStart, OnEnd;
    if mark :| Heard(s, e, mark) {
      MarkActs(env, s, e, mark);
      OnlyStartsStart(env, s, e.screen, mark);
    } else {
      NoMark(env, s, e);
    }
  }

  /** Of the four marks, C alone tells a start. */
  lemma OnlyStartsStart(env: Env, s: Tracker, screen: Screen, mark: string)
    ensures Quiet(s, OnPrompt(s)) && Quiet(s, OnInput(s, screen)) && Quiet(s, OnEnd(env, s, mark)) && Quiet(s, s)
    ensures OnStart(env, s, screen).calls == s.calls
      + [BlockStart(s.nextId, if s.pending.Some? then s.pending.value else env.scrape(s.inputMarker, s.inputStart, screen.stamp)),
         PhaseChange(Output)]
  {
    hide Reported;
  }

  /** Nothing that was told since is a start. */
  predicate Quiet(s: Tracker, t: Tracker) {
    forall k :: |s.calls| <= k < |t.calls| ==> !t.calls[k].BlockStart?
  }

  lemma {:induction false} StartsReport(env: Env, events: seq<Event>, k: nat)
    requires var calls := Run(env, FRESH, events).calls; k < |calls| && calls[k].BlockStart?
    ensures var c := Run(env, FRESH, events).calls[k];
      exists n :: 0 <= n < |events| && var s := Run(env, FRESH, events[..n]);
        |s.calls| == k && Begins(env, s, events[n], c.id, c.command)
    decreases |events|
  {
    hide Step, Run, Begins;
    if events == [] {
      NothingRun(env);
    } else {
      var n := |events| - 1;
      var s := Run(env, FRESH, events[..n]);
      RunLast(env, FRESH, events);
      StepKeepsCalls(env, s, events[n]);
      if k < |s.calls| {
        StartsReport(env, events[..n], k);
        var m :| 0 <= m < n && var s' := Run(env, FRESH, events[..n][..m]);
          |s'.calls| == k && Begins(env, s', events[..n][m], s.calls[k].id, s.calls[k].command);
        assert events[..n][..m] == events[..m];
      } else {
        StepStarts(env, s, events[n], k);
      }
    }
  }

  /** The input is untouched from the moment a heard B shows it until the user types. */
  lemma PristineExactly(env: Env, s: Tracker, e: Event)
    ensures Step(env, s, e).pristine <==>
      || (exists mark :: Heard(s, e, mark) && mark != "" && mark[0] == 'B')
      || (s.pristine && !(e == Typed(false) && s.phase.Input?))
  {
    hide Step, Heard, Reported;
    if mark :| Heard(s, e, mark) {
      MarkActs(env, s, e, mark);
      HeardOnce(s, e, mark);
    } else {
      UnmarkedPristine(env, s, e);
    }
  }

  lemma HeardOnce(s: Tracker, e: Event, mark: string)
    requires Heard(s, e, mark)
    ensures (e.Osc133? || e.Osc6973?) && forall mark' :: Heard(s, e, mark') ==> mark' == mark
  {
    hide Spells;
    forall mark' | Heard(s, e, mark') ensures mark' == mark {
      if e.Osc6973? {
        var payload :| ScopedMark(s.token.value, e.data, payload, mark);
        var payload' :| ScopedMark(s.token.value, e.data, payload', mark');
        ParsesExactly(e.data[6..], Shell(s.token.value, Mark, payload));
        ParsesExactly(e.data[6..], Shell(s.token.value, Mark, payload'));
      }
    }
  }

  lemma UnmarkedPristine(env: Env, s: Tracker, e: Event)
    requires forall mark :: !Heard(s, e, mark)
    ensures Step(env, s, e).pristine == (s.pristine && !(e == Typed(false) && s.phase.Input?))
  {
    hide Handle133, ParseShell, Spells;
    if e.Osc133? { assert !Heard(s, e, e.data); }
    if e.Osc6973? && !s.suspended && !s.isolated && SHELL <= e.data && ParseShell(e.data[6..]).Some? {
      var shell := ParseShell(e.data[6..]).value;
      ParsesExactly(e.data[6..], shell);
      if shell.kind.Mark? && s.token == Some(shell.token) { MarkIsHeard(s, e, shell.payload); }
    }
  }
}
