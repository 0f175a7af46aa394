/** The prompt tracker of src/lib/osc133.ts as a function from state to state. What the
    terminal shows and how payloads are decoded are parameters. */
module BlockModel {
  import opened Basics

  datatype Phase = AtRest | Prompt | Input | Output

  /** What the surrounding code provides: the command text read back from the screen
      between a marker and the cursor, base64, an OSC 7 location, a decimal exit code. */
  datatype Env = Env(
    scrape: (Option<nat>, nat, nat) -> string,
    decode: string -> Option<string>,
    location: string -> Option<Place>,
    exitCode: string -> Option<int>)

  datatype Place = Place(path: string, host: Option<string>)

  datatype Call =
    | BlockStart(id: nat, command: string)
    | BlockEnd(id: nat, exit: int)
    | CwdChange(place: Place)
    | PhaseChange(phase: Phase)
    | Private(payload: string)

  /** The screen when an event arrives: a name for its contents, the marker that can be
      registered on the cursor's row, if any, and the cursor's column. */
  datatype Screen = Screen(stamp: nat, marker: Option<nat>, column: nat)

  datatype Tracker = Tracker(
    phase: Phase,
    inputMarker: Option<nat>,
    inputStart: nat,
    pending: Option<string>,
    token: Option<string>,
    expected: Option<string>,
    block: Option<nat>,
    pristine: bool,
    suspended: bool,
    isolated: bool,
    clipboard: bool,
    nextId: nat,
    calls: seq<Call>)
  {
    function Tell(c: Call): Tracker { this.(calls := calls + [c]) }

    function In(p: Phase): Tracker { this.(phase := p).Tell(PhaseChange(p)) }
  }

  const FRESH := Tracker(AtRest, None, 0, None, None, None, None, false, false, false, false, 1, [])

  // ------------------------------------------------------------ semantic marks

  function Argument(data: string): string { if |data| > 2 then data[2..] else "" }

  function ExitOf(env: Env, data: string): int {
    var arg := Argument(data);
    var code := env.exitCode(if arg == "" then "0" else arg);
    if code.Some? then code.value else 0
  }

  /** A new prompt: an open block that never reported its end is closed. */
  function PromptStarts(s: Tracker): Tracker {
    (if s.phase.Output? && s.block.Some? then s.Tell(BlockEnd(s.block.value, 0)).(block := None) else s).In(Prompt)
  }

  function InputStarts(s: Tracker, screen: Screen): Tracker {
    s.(inputMarker := screen.marker, inputStart := screen.column, pristine := true).In(Input)
  }

  function CommandStarts(env: Env, s: Tracker, screen: Screen): Tracker {
    var command := if s.pending.Some? then s.pending.value else env.scrape(s.inputMarker, s.inputStart, screen.stamp);
    s.(pending := None, nextId := s.nextId + 1, block := Some(s.nextId)).Tell(BlockStart(s.nextId, command)).In(Output)
  }

  function CommandEnds(s: Tracker, exit: int): Tracker {
    (if s.block.Some? then s.Tell(BlockEnd(s.block.value, exit)).(block := None) else s).In(AtRest)
  }

  /** handle133 */
  function Handle133(env: Env, s: Tracker, data: string, screen: Screen): Tracker {
    if data == "" then s
    else if data[0] == 'A' then PromptStarts(s)
    else if data[0] == 'B' then InputStarts(s, screen)
    else if data[0] == 'C' then CommandStarts(env, s, screen)
    else if data[0] == 'D' then CommandEnds(s, ExitOf(env, data))
    else s
  }

  // ------------------------------------------------------------ scoped events

  predicate Hex(c: char) { '0' <= c <= '9' || 'a' <= c <= 'f' }

  predicate IsScope(s: string) { |s| == 32 && forall i | 0 <= i < 32 :: Hex(s[i]) }

  datatype Kind = Ready | Mark | Cwd | Cmd

  datatype Shell = Shell(token: string, kind: Kind, payload: Option<string>)

  /** What is left after a kind: nothing, or a payload after a semicolon. */
  function Payload(rest: string, name: string): Option<Option<string>> {
    if !(name <= rest) then None
    else if |rest| == |name| then Some(None)
    else if rest[|name|] == ';' then Some(Some(rest[|name| + 1..]))
    else None
  }

  function ParseShell(data: string): Option<Shell> {
    if |data| < 33 || !IsScope(data[..32]) || data[32] != ';' then None
    else
      var token, rest := data[..32], data[33..];
      if Payload(rest, "READY").Some? then Some(Shell(token, Ready, Payload(rest, "READY").value))
      else if Payload(rest, "133").Some? then Some(Shell(token, Mark, Payload(rest, "133").value))
      else if Payload(rest, "7").Some? then Some(Shell(token, Cwd, Payload(rest, "7").value))
      else if Payload(rest, "CMD").Some? then Some(Shell(token, Cmd, Payload(rest, "CMD").value))
      else None
  }

  function Decoded(env: Env, s: Tracker, text: string): Tracker {
    if env.decode(text).Some? then s.(pending := env.decode(text)) else s
  }

  function Located(env: Env, s: Tracker, text: string): Tracker {
    if env.location(text).Some? then s.Tell(CwdChange(env.location(text).value)) else s
  }

  function Or(o: Option<string>): string { if o.Some? then o.value else "" }

  /** handleShellEvent */
  function HandleShell(env: Env, s: Tracker, data: string, screen: Screen): Tracker {
    match ParseShell(data)
    case None => s
    case Some(Shell(token, kind, payload)) =>
      if kind.Ready? then
        if payload.Some? || (s.expected.Some? && Some(token) != s.expected) || s.token.Some? then s
        else s.(token := Some(token))
      else if s.token != Some(token) then s
      else
        match kind
        case Mark => Handle133(env, s, Or(payload), screen)
        case Cwd => Located(env, s, Or(payload))
        case Cmd => Decoded(env, s, Or(payload))
        case Ready => s
  }

  // ------------------------------------------------------------ events

  datatype Event =
    | Osc133(data: string, screen: Screen)
    | Osc7(data: string)
    | Osc6973(data: string, screen: Screen)
    | Typed(reply: bool)
    | Suspend
    | Resume
    | BeginIsolation
    | EndIsolation
    | SetScope(scope: string)
    | Elsewhere

  const SHELL: string := "SHELL;"
  const CMD: string := "CMD;"
  const RD: string := "RD;"

  predicate Scoped(s: Tracker) { s.token.Some? || s.expected.Some? }

  function Step(env: Env, s: Tracker, e: Event): Tracker {
    match e
    case Osc133(data, screen) => if s.suspended || s.isolated || Scoped(s) then s else Handle133(env, s, data, screen)
    case Osc7(data) => if s.suspended || s.isolated || Scoped(s) then s else Located(env, s, data)
    case Osc6973(data, screen) =>
      if s.suspended then s
      else if s.isolated then if RD <= data then s.Tell(Private(data)) else s
      else if SHELL <= data then HandleShell(env, s, data[6..], screen)
      else if CMD <= data then if Scoped(s) then s else Decoded(env, s, data[4..])
      else s.Tell(Private(data))
    case Typed(reply) => if s.phase.Input? && !reply then s.(pristine := false) else s
    case Suspend => s.(suspended := true)
    case Resume => s.(suspended := false)
    case BeginIsolation => s.(isolated := true, clipboard := true)
    case EndIsolation => s.(isolated := false)
    // An invalid or late scope throws and changes nothing.
    case SetScope(scope) =>
      if !IsScope(scope) || Scoped(s) || !s.phase.AtRest? then s else s.(expected := Some(scope))
    // Another terminal's tracker takes a block number.
    case Elsewhere => s.(nextId := s.nextId + 1)
  }

  function Run(env: Env, s: Tracker, events: seq<Event>): Tracker
    decreases |events|
  {
    if events == [] then s else Run(env, Step(env, s, events[0]), events[1..])
  }

  // ------------------------------------------------------------ scope non-interference

  /** An event that the bound scope may act through. */
  predicate Speaks(s: Tracker, e: Event) {
    && e.Osc6973? && SHELL <= e.data
    && var shell := ParseShell(e.data[6..]);
       shell.Some? && s.token == Some(shell.value.token) && !shell.value.kind.Ready?
  }

  /** Kept in the reduced stream: the scope's own events while the tracker listens. */
  predicate Accepted(s: Tracker, e: Event) {
    e.Elsewhere? || (!s.suspended && !s.isolated && Speaks(s, e))
  }

  function OnlyAccepted(env: Env, s: Tracker, events: seq<Event>): seq<Event>
    decreases |events|
  {
    if events == [] then []
    else
      (if Accepted(s, events[0]) then [events[0]] else []) + OnlyAccepted(env, Step(env, s, events[0]), events[1..])
  }

  function Public(calls: seq<Call>): seq<Call> {
    if calls == [] then []
    else
      var c := calls[|calls| - 1];
      Public(calls[..|calls| - 1]) + if c.Private? then [] else [c]
  }

  lemma PublicLast(calls: seq<Call>, c: Call)
    ensures Public(calls + [c]) == Public(calls) + if c.Private? then [] else [c]
  {
    assert (calls + [c])[..|calls|] == calls;
  }

  /** The two trackers agree on phase, open block, prompt anchor, pending command and
      every callback but the private channel's. */
  ghost predicate Agree(s: Tracker, t: Tracker) {
    && s.token == t.token && s.token.Some?
    && s.phase == t.phase && s.block == t.block && s.pending == t.pending && s.nextId == t.nextId
    && s.inputMarker == t.inputMarker && s.inputStart == t.inputStart
    && Public(s.calls) == Public(t.calls)
    && !t.suspended && !t.isolated
  }

  lemma TellBoth(s: Tracker, t: Tracker, c: Call)
    requires Agree(s, t)
    ensures Agree(s.Tell(c), t.Tell(c))
    ensures c.Private? ==> Agree(s.Tell(c), t)
  {
    PublicLast(s.calls, c);
    PublicLast(t.calls, c);
  }

  lemma InBoth(s: Tracker, t: Tracker, p: Phase)
    requires Agree(s, t)
    ensures Agree(s.In(p), t.In(p))
  {
    hide Public;
    TellBoth(s.(phase := p), t.(phase := p), PhaseChange(p));
  }

  lemma EndBoth(s: Tracker, t: Tracker, exit: int)
    requires Agree(s, t) && s.block.Some?
    ensures Agree(s.Tell(BlockEnd(s.block.value, exit)).(block := None), t.Tell(BlockEnd(t.block.value, exit)).(block := None))
  {
    hide Public;
    TellBoth(s, t, BlockEnd(s.block.value, exit));
  }

  lemma PromptAgrees(s: Tracker, t: Tracker, exit: int)
    requires Agree(s, t)
    ensures Agree(PromptStarts(s), PromptStarts(t)) && Agree(CommandEnds(s, exit), CommandEnds(t, exit))
  {
    hide Public, Tracker.In, Tracker.Tell;
    InBoth(s, t, Prompt);
    InBoth(s, t, AtRest);
    if s.block.Some? {
      EndBoth(s, t, 0);
      EndBoth(s, t, exit);
      InBoth(s.Tell(BlockEnd(s.block.value, 0)).(block := None), t.Tell(BlockEnd(t.block.value, 0)).(block := None), Prompt);
      InBoth(s.Tell(BlockEnd(s.block.value, exit)).(block := None), t.Tell(BlockEnd(t.block.value, exit)).(block := None), AtRest);
    }
  }

  lemma InputAgrees(s: Tracker, t: Tracker, screen: Screen)
    requires Agree(s, t)
    ensures Agree(InputStarts(s, screen), InputStarts(t, screen))
  {
    hide Public, Tracker.In;
    InBoth(s.(inputMarker := screen.marker, inputStart := screen.column, pristine := true),
           t.(inputMarker := screen.marker, inputStart := screen.column, pristine := true), Input);
  }

  lemma StartAgrees(env: Env, s: Tracker, t: Tracker, screen: Screen)
    requires Agree(s, t)
    ensures Agree(CommandStarts(env, s, screen), CommandStarts(env, t, screen))
  {
    hide Public, Tracker.In;
    var command := if s.pending.Some? then s.pending.value else env.scrape(s.inputMarker, s.inputStart, screen.stamp);
    var s1 := s.(pending := None, nextId := s.nextId + 1, block := Some(s.nextId));
    var t1 := t.(pending := None, nextId := t.nextId + 1, block := Some(t.nextId));
    TellBoth(s1, t1, BlockStart(s.nextId, command));
    InBoth(s1.Tell(BlockStart(s.nextId, command)), t1.Tell(BlockStart(t.nextId, command)), Output);
  }

  lemma Handle133Agrees(env: Env, s: Tracker, t: Tracker, data: string, screen: Screen)
    requires Agree(s, t)
    ensures Agree(Handle133(env, s, data, screen), Handle133(env, t, data, screen))
  {
    hide Agree, PromptStarts, InputStarts, CommandStarts, CommandEnds;
    PromptAgrees(s, t, ExitOf(env, data));
    InputAgrees(s, t, screen);
    StartAgrees(env, s, t, screen);
  }

  /** An event of the bound scope does the same to both. */
  lemma SpeakAgrees(env: Env, s: Tracker, t: Tracker, e: Event)
    requires Agree(s, t) && !s.suspended && !s.isolated && Speaks(s, e)
    ensures Agree(Step(env, s, e), Step(env, t, e))
  {
    hide Public, Handle133, ParseShell;
    var shell := ParseShell(e.data[6..]).value;
    var payload := Or(shell.payload);
    Handle133Agrees(env, s, t, payload, e.screen);
    if env.location(payload).Some? { TellBoth(s, t, CwdChange(env.location(payload).value)); }
  }

  /** Any other event leaves what the scope owns alone. */
  lemma OthersSilent(env: Env, s: Tracker, t: Tracker, e: Event)
    requires Agree(s, t) && !Accepted(s, e)
    ensures Agree(Step(env, s, e), t)
  {
    hide Public, Handle133, ParseShell;
    if e.Osc6973? { TellBoth(s, t, Private(e.data)); }
  }

  lemma StepAgrees(env: Env, s: Tracker, t: Tracker, e: Event)
    requires Agree(s, t)
    ensures if Accepted(s, e) then Agree(Step(env, s, e), Step(env, t, e)) else Agree(Step(env, s, e), t)
  {
    hide Public, Speaks;
    if e.Elsewhere? {
    } else if Accepted(s, e) {
      SpeakAgrees(env, s, t, e);
    } else {
      OthersSilent(env, s, t, e);
    }
  }

  /** Once a scope is bound, any stream of OSC events, replays and isolation toggles has
      the effect of the bound scope's own accepted events alone. */
  lemma {:induction false} ScopeNonInterference(env: Env, s: Tracker, t: Tracker, events: seq<Event>)
    requires Agree(s, t)
    ensures Agree(Run(env, s, events), Run(env, t, OnlyAccepted(env, s, events)))
    decreases |events|
  {
    hide Agree, Step, Accepted;
    if events != [] {
      var e, rest := events[0], OnlyAccepted(env, Step(env, s, events[0]), events[1..]);
      StepAgrees(env, s, t, e);
      if Accepted(s, e) {
        ScopeNonInterference(env, Step(env, s, e), Step(env, t, e), events[1..]);
        assert ([e] + rest)[1..] == rest;
      } else {
        ScopeNonInterference(env, Step(env, s, e), t, events[1..]);
        assert [] + rest == rest;
      }
    }
  }

  // ------------------------------------------------------------ blocks

  /** The block that is open after these calls. */
  function Open(calls: seq<Call>): Option<nat> {
    if calls == [] then None
    else
      match calls[|calls| - 1]
      case BlockStart(id, _) => Some(id)
      case BlockEnd(_, _) => None
      case _ => Open(calls[..|calls| - 1])
  }

  /** Every end is that of the block opened last, which is still open; numbers grow. */
  predicate Disciplined(calls: seq<Call>, bound: nat) {
    && (forall k | 0 <= k < |calls| :: calls[k].BlockEnd? ==> Open(calls[..k]) == Some(calls[k].id))
    && (forall k | 0 <= k < |calls| :: calls[k].BlockStart? ==> calls[k].id < bound)
    && (forall j, k | 0 <= j < k < |calls| :: calls[j].BlockStart? && calls[k].BlockStart? ==> calls[j].id < calls[k].id)
  }

  ghost predicate BlocksOk(s: Tracker) { Disciplined(s.calls, s.nextId) && s.block == Open(s.calls) }

  lemma TellOk(s: Tracker, c: Call, bound: nat)
    requires BlocksOk(s) && s.nextId <= bound
    requires c.BlockEnd? ==> s.block == Some(c.id)
    requires c.BlockStart? ==> s.nextId <= c.id < bound
    ensures Disciplined(s.calls + [c], bound)
    ensures Open(s.calls + [c]) == if c.BlockStart? then Some(c.id) else if c.BlockEnd? then None else s.block
  {
    var calls := s.calls + [c];
    assert calls[..|s.calls|] == s.calls;
    assert forall k :: 0 <= k < |s.calls| ==> calls[k] == s.calls[k] && calls[..k] == s.calls[..k];
  }

  lemma InOk(s: Tracker, p: Phase)
    requires BlocksOk(s)
    ensures BlocksOk(s.In(p))
  {
    hide Disciplined, Open;
    TellOk(s, PhaseChange(p), s.nextId);
  }

  lemma EndOk(s: Tracker, exit: int)
    requires BlocksOk(s) && s.block.Some?
    ensures BlocksOk(s.Tell(BlockEnd(s.block.value, exit)).(block := None))
  {
    hide Disciplined, Open;
    TellOk(s, BlockEnd(s.block.value, exit), s.nextId);
  }

  lemma Handle133Ok(env: Env, s: Tracker, data: string, screen: Screen)
    requires BlocksOk(s)
    ensures BlocksOk(Handle133(env, s, data, screen))
  {
    hide Disciplined, Open, ExitOf, Tracker.In;
    InOk(s, Prompt);
    InOk(s, AtRest);
    InOk(s.(inputMarker := screen.marker, inputStart := screen.column, pristine := true), Input);
    if s.block.Some? {
      EndOk(s, 0);
      EndOk(s, ExitOf(env, data));
      InOk(s.Tell(BlockEnd(s.block.value, 0)).(block := None), Prompt);
      InOk(s.Tell(BlockEnd(s.block.value, ExitOf(env, data))).(block := None), AtRest);
    }
    var command := if s.pending.Some? then s.pending.value else env.scrape(s.inputMarker, s.inputStart, screen.stamp);
    TellOk(s, BlockStart(s.nextId, command), s.nextId + 1);
    InOk(s.(pending := None, nextId := s.nextId + 1, block := Some(s.nextId)).Tell(BlockStart(s.nextId, command)), Output);
  }

  lemma LocatedOk(env: Env, s: Tracker, text: string)
    requires BlocksOk(s)
    ensures BlocksOk(Located(env, s, text))
  {
    hide Disciplined, Open;
    if env.location(text).Some? { TellOk(s, CwdChange(env.location(text).value), s.nextId); }
  }

  lemma StepOk(env: Env, s: Tracker, e: Event)
    requires BlocksOk(s)
    ensures BlocksOk(Step(env, s, e))
  {
    hide Open, Handle133, Located, ParseShell;
    match e
    case Osc133(data, screen) => Handle133Ok(env, s, data, screen);
    case Osc7(data) => LocatedOk(env, s, data);
    case Osc6973(data, screen) =>
      TellOk(s, Private(data), s.nextId);
      if SHELL <= data && ParseShell(data[6..]).Some? {
        var payload := Or(ParseShell(data[6..]).value.payload);
        Handle133Ok(env, s, payload, screen);
        LocatedOk(env, s, payload);
      }
    case _ =>
  }

  lemma {:induction false} RunOk(env: Env, s: Tracker, events: seq<Event>)
    requires BlocksOk(s)
    ensures BlocksOk(Run(env, s, events))
    decreases |events|
  {
    hide BlocksOk, Step;
    if events != [] {
      StepOk(env, s, events[0]);
      RunOk(env, Step(env, s, events[0]), events[1..]);
    }
  }

  lemma {:induction false} OpenWasStarted(calls: seq<Call>) returns (k: nat)
    requires Open(calls).Some?
    ensures k < |calls| && calls[k].BlockStart? && calls[k].id == Open(calls).value
    ensures forall j :: k < j < |calls| ==> !calls[j].BlockStart? && !calls[j].BlockEnd?
  {
    var n := |calls| - 1;
    if calls[n].BlockStart? {
      k := n;
    } else {
      k := OpenWasStarted(calls[..n]);
      assert forall j :: 0 <= j < n ==> calls[..n][j] == calls[j];
    }
  }

  /** Every block end in every stream ends the block that was opened last, which nothing
      has ended since. */
  lemma EndsTheLatest(env: Env, events: seq<Event>, j: nat) returns (k: nat)
    requires var calls := Run(env, FRESH, events).calls; j < |calls| && calls[j].BlockEnd?
    ensures var calls := Run(env, FRESH, events).calls;
      && k < j && calls[k].BlockStart? && calls[k].id == calls[j].id
      && forall l :: k < l < j ==> !calls[l].BlockStart? && !calls[l].BlockEnd?
  {
    hide Run, Open;
    assert BlocksOk(FRESH) by { NothingOpen(); }
    RunOk(env, FRESH, events);
    var calls := Run(env, FRESH, events).calls;
    k := OpenWasStarted(calls[..j]);
    assert forall l :: 0 <= l < j ==> calls[..j][l] == calls[l];
  }

  /** In every stream each block number is ended at most once, and only while its block
      is the one opened last. */
  lemma BlocksEndOnce(env: Env, events: seq<Event>, i: nat, j: nat)
    requires var calls := Run(env, FRESH, events).calls; i <= j < |calls| && calls[i].BlockEnd? && calls[j].BlockEnd?
    ensures var calls := Run(env, FRESH, events).calls;
      && (i < j ==> calls[i].id != calls[j].id)
      && exists k :: 0 <= k < j && calls[k].BlockStart? && calls[k].id == calls[j].id
           && forall l :: k < l < j ==> !calls[l].BlockStart? && !calls[l].BlockEnd?
  {
    hide Run, Open;
    assert BlocksOk(FRESH) by { NothingOpen(); }
    RunOk(env, FRESH, events);
    var k := EndsTheLatest(env, events, j);
    var m := EndsTheLatest(env, events, i);
    assert i < j ==> i <= k;
  }

  lemma NothingOpen()
    ensures Open([]).None?
  {
  }

  // ------------------------------------------------------------ binding

  /** Nothing but the private channel has spoken, and no other scope can bind. */
  ghost predicate Waiting(s: Tracker, scope: string) {
    && s.expected == Some(scope) && s.token in {None, Some(scope)}
    && (s.token.None? ==> s.phase.AtRest? && s.block.None? && s.pending.None? && Public(s.calls) == [])
  }

  lemma StepBinds(env: Env, s: Tracker, scope: string, e: Event)
    requires Waiting(s, scope)
    ensures Waiting(Step(env, s, e), scope)
  {
    hide Public, Handle133, ParseShell;
    if e.Osc6973? { PublicLast(s.calls, Private(e.data)); }
    if e.Osc6973? && SHELL <= e.data && ParseShell(e.data[6..]).Some? {
      Handle133Keeps(env, s, Or(ParseShell(e.data[6..]).value.payload), e.screen);
    }
  }

  lemma Handle133Keeps(env: Env, s: Tracker, data: string, screen: Screen)
    ensures var t := Handle133(env, s, data, screen); t.token == s.token && t.expected == s.expected
  {
    hide PromptStarts, InputStarts, CommandStarts, CommandEnds, ExitOf;
    MarksKeep(env, s, ExitOf(env, data), screen);
  }

  lemma MarksKeep(env: Env, s: Tracker, exit: int, screen: Screen)
    ensures PromptStarts(s).token == s.token && PromptStarts(s).expected == s.expected
    ensures InputStarts(s, screen).token == s.token && InputStarts(s, screen).expected == s.expected
    ensures CommandStarts(env, s, screen).token == s.token && CommandStarts(env, s, screen).expected == s.expected
    ensures CommandEnds(s, exit).token == s.token && CommandEnds(s, exit).expected == s.expected
  {
  }

  /** A terminal given its scope before any output: in every stream only that scope can
      ever own it, and until it announces itself no block, phase or directory callback
      has happened. */
  lemma {:induction false} ScopeBinds(env: Env, s: Tracker, scope: string, events: seq<Event>)
    requires Waiting(s, scope)
    ensures Waiting(Run(env, s, events), scope)
    decreases |events|
  {
    hide Waiting, Step;
    if events != [] {
      StepBinds(env, s, scope, events[0]);
      ScopeBinds(env, Step(env, s, events[0]), scope, events[1..]);
    }
  }

  lemma FreshWaits(env: Env, scope: string)
    requires IsScope(scope)
    ensures Waiting(Step(env, FRESH, SetScope(scope)), scope)
  {
  }
}
