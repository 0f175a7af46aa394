/** src/lib/ptyExec.ts for one terminal session, as a system of atomic steps: what runs
    between two points where the code awaits something. Everything the outside world may
    do in between (output, keystrokes, replies, timers, other callers) is an event. */
module ExecModel {
  import opened Basics

  const APPROVAL_PROMPT_TTL_MS: int := 30_000
  const IDLE_POLL_MS: int := 100
  const QUIESCENCE_MS: int := 600
  const PROMPT_GRACE_MS: int := 1_500
  const BLOCK_BIND_MS: int := 5_000
  const PROBE_WAIT_MS: int := 10_000
  const CARD_REFRESH_MS: int := 750
  const STALL_IDLE_MS: int := 30_000
  const LADDER_STEP_MS: int := 400
  const LADDER_LENGTH: nat := 3
  const USER_INTERRUPT_GRACE_MS: int := 1_000
  const USER_INTERRUPT_DELIVERY_TIMEOUT_MS: int := 1_000
  const FRONTEND_WATCHDOG_GRACE_MS: int := 15_000
  const PROOF_TTL_MS: int := 300_000

  function Max(a: int, b: int): int { if a < b then b else a }

  function Min(a: int, b: int): int { if a < b then a else b }

  // ------------------------------------------------------------ what can be seen

  /** What the program can see of the terminal. `entry` names the TermEntry object. */
  datatype World = World(
    entry: Option<nat>,
    disposed: bool,
    exited: bool,
    alternate: bool,
    row: nat,
    cursorX: nat,
    blankRow: bool,
    passwordRow: bool,
    confirmRow: bool,
    dataAt: int,
    inputAt: int,
    remote: Option<nat>,
    emptyPrompt: bool,
    promptColumn: bool,
    integration: bool)
  {
    predicate Live() { entry.Some? && !disposed }

    /** The keyboard stamp of the current entry. */
    function Keyboard(): Option<(nat, int)> { if entry.Some? then Some((entry.value, inputAt)) else None }
  }

  /** The terminal epoch a snapshot pins down. */
  datatype Prompt = Prompt(entry: Option<nat>, alternate: bool, row: nat, cursorX: nat, dataAt: int, inputAt: int)

  function PromptOf(w: World): Prompt { Prompt(w.entry, w.alternate, w.row, w.cursorX, w.dataAt, w.inputAt) }

  /** The terminal is still exactly as snapped, live, and on the normal buffer. */
  predicate Still(p: Prompt, w: World) { w.Live() && !w.alternate && PromptOf(w) == p }

  /** The operator can attest to what is visible. */
  predicate Capturable(w: World) { w.Live() && !w.alternate && w.cursorX > 0 && !w.blankRow }

  datatype Binding = Binding(prompt: Prompt, here: bool, capturedAt: int)

  datatype Proof = Proof(keyboard: (nat, int), remote: Option<nat>, provenAt: int)

  // ------------------------------------------------------------ a run

  datatype Mode = Integrated | Sentinel

  datatype Error =
    | Timeout | TerminalBusy | IntegrationUnavailable | TerminalClosed | ShellProbeFailed | NotObserved
    | Unsafe | Interrupted | InterruptFailed | TargetChanged | Cancelled

  /** What a run reports. `note` is whether its note says that nothing was executed. */
  datatype Outcome = Outcome(exit: Option<int>, error: Option<Error>, note: bool)

  /** An error with the note that goes with it. */
  function Failed(e: Error): Outcome {
    Outcome(None, Some(e),
            e in {Unsafe, TerminalBusy, IntegrationUnavailable, TerminalClosed, ShellProbeFailed, TargetChanged})
  }

  /** How abortSession ends a live job: an error and no note. */
  function Released(e: Error): Outcome { Outcome(None, Some(e), false) }

  /** One call of runInTerminal. What the command text admits is three facts: it passes
      sanitizeCommand, canSentinel accepts it, the guarded line can be built in bounds. */
  datatype Options = Options(
    approval: nat,
    timeout: int,
    idleWait: int,
    sane: bool,
    suffixable: bool,
    fits: bool,
    claims: bool,
    nonceCompletion: bool,
    binding: Option<nat>,
    attested: bool)

  datatype Goal = ForIntegrated | ForSentinel | ForProbe | ForCommand(keyboard: Option<(nat, int)>)

  datatype Readiness = Ready | NotReady | Gone | Stopped

  datatype Cause = Tui | User

  datatype Stall = Hijacked | Password | Input | Idle

  /** The interrupt ladder: how many keys are written, and when to look again. */
  datatype Ladder = Ladder(keys: nat, stepAt: Option<int>)

  datatype Job = Job(
    mode: Mode,
    bound: Option<nat>,
    foreign: nat,
    cause: Option<Cause>,
    pending: bool,
    confirmed: bool,
    buffered: Option<Outcome>,
    ladder: Option<Ladder>,
    proved: bool,
    stall: Option<Stall>,
    paused: int,
    lastTick: int,
    bindAt: Option<int>,
    deliveryAt: Option<int>,
    graceAt: Option<int>,
    deadlineAt: Option<int>,
    refreshAt: int,
    capAt: int,
    gestureAt: Option<int>,
    completions: seq<Outcome>)

  /** Where a run is: what it awaits, or how it ended. A settled run keeps the job it
      had, if it dispatched, as evidence. */
  datatype Stage =
    | ProbeClaim
    | ProbeClaimed(granted: bool)
    | Waiting(goal: Goal, deadline: int, graceUntil: int, tickAt: int)
    | Waited(goal: Goal, result: Readiness)
    | Probing(keyboard: Option<(nat, int)>, deadline: int)
    | Probed(keyboard: Option<(nat, int)>, answered: bool)
    | FinalClaim(mode: Mode, prompt: Prompt)
    | FinalClaimed(mode: Mode, prompt: Prompt, granted: bool)
    | Running(job: Job)
    | Settled(outcome: Outcome, last: Option<Job>)

  datatype AbortReason = Stop | Close

  datatype Run = Run(
    o: Options,
    startedAt: int,
    remote: Option<nat>,
    reserved: bool,
    released: bool,
    aborted: Option<AbortReason>,
    approved: Option<Prompt>,
    authorized: bool,
    stage: Stage)
  {
    function DeadlineAt(): int { startedAt + o.timeout }

    function Remaining(now: int): int { Max(0, DeadlineAt() - now) }

    predicate ProbeIsAuthorized() { o.nonceCompletion && remote.Some? }

    /** Between reservation and the end of its finally block. */
    predicate Owns() { reserved && !released }

    function AbortedOutcome(): Outcome {
      if aborted == Some(Close) then Failed(TerminalClosed) else Failed(Cancelled)
    }
  }

  /** What was written to the PTY. A line carries the prompt that had been accepted and
      the terminal as it was at that moment. */
  datatype Entry =
    | Line(run: nat, mode: Mode, prompt: Prompt, at: World)
    | Probe(run: nat, at: World)
    | Key(run: nat, cause: Cause)

  datatype State = State(
    now: int,
    w: World,
    runs: seq<Run>,
    reservation: Option<nat>,
    job: Option<nat>,
    bindings: map<nat, Binding>,
    proof: Option<Proof>,
    log: seq<Entry>)
  {
    function At(i: nat, stage: Stage): State
      requires i < |runs|
    {
      this.(runs := runs[i := runs[i].(stage := stage)])
    }

    function Write(e: Entry): State { this.(log := log + [e]) }
  }

  const EMPTY_WORLD := World(None, false, false, false, 0, 0, true, false, false, 0, 0, None, false, false, false)

  const INITIAL := State(0, EMPTY_WORLD, [], None, None, map[], None, [])

  // ------------------------------------------------------------ shell proofs

  predicate Usable(p: Proof, s: State, remote: Option<nat>) {
    && s.w.Live() && s.w.Keyboard() == Some(p.keyboard) && p.remote == remote && s.now - p.provenAt <= PROOF_TTL_MS
  }

  /** reusableShellProof: a proof that fails any test is forgotten. */
  function Reusable(s: State, remote: Option<nat>): (bool, State) {
    if s.proof.Some? && Usable(s.proof.value, s, remote) then (true, s) else (false, s.(proof := None))
  }

  // ------------------------------------------------------------ settling

  /** A run that has no live job ends with an outcome. */
  function End(s: State, i: nat, outcome: Outcome): State
    requires i < |s.runs|
  {
    s.At(i, Settled(outcome, None))
  }

  /** job.finish, which acts once. */
  function Finish(s: State, i: nat, outcome: Outcome): State
    requires i < |s.runs|
  {
    var r := s.runs[i];
    if !r.stage.Running? then s
    else
      var job := r.stage.job;
      var forget := r.remote.Some? && job.mode.Sentinel? && !job.proved;
      s.At(i, Settled(outcome, Some(job))).(job := None, proof := if forget then None else s.proof)
  }

  // ------------------------------------------------------------ preflight

  function Wait(s: State, i: nat, goal: Goal): State
    requires i < |s.runs|
  {
    var left := Max(0, Min(s.runs[i].o.idleWait, s.runs[i].DeadlineAt() - s.now));
    s.At(i, Waiting(goal, s.now + left, s.now + PROMPT_GRACE_MS, s.now))
  }

  /** resolveSentinelPrompt or resolveMode, up to its first wait. */
  function ChooseMode(s: State, i: nat): State
    requires i < |s.runs|
  {
    var r := s.runs[i];
    if s.w.remote != r.remote then End(s, i, Failed(TargetChanged))
    else Wait(s, i, if r.remote.Some? then ForProbe else if r.o.nonceCompletion then ForSentinel else ForIntegrated)
  }

  /** The part of runReservedInTerminal before its first await. */
  function Begin(s: State, i: nat): State
    requires i < |s.runs|
  {
    var r := s.runs[i];
    var token := r.o.binding;
    var found := token.Some? && token.value in s.bindings;
    var taken := if found then Some(s.bindings[token.value]) else None;
    var s1 := if found then s.(bindings := s.bindings - {token.value}) else s;
    var approved :=
      if taken.Some? && taken.value.here && s.now - taken.value.capturedAt <= APPROVAL_PROMPT_TTL_MS
      then Some(taken.value.prompt) else None;
    if token.Some? && (approved.None? || !Still(approved.value, s.w)) then End(s1, i, Failed(TargetChanged))
    else
      var s2 := s1.(runs := s1.runs[i := r.(approved := approved)]);
      var gated := r.o.attested && r.remote.Some? && approved.None?;
      var reused := if gated then Reusable(s2, r.remote) else (true, s2);
      if !reused.0 then End(reused.1, i, Failed(TerminalBusy))
      else if !r.ProbeIsAuthorized() then ChooseMode(reused.1, i)
      else if !r.o.claims || r.Remaining(s.now) <= 0 then End(reused.1, i, Failed(TargetChanged))
      else reused.1.At(i, ProbeClaim)
  }

  /** runInTerminal. */
  function Start(s: State, o: Options): State {
    var i := |s.runs|;
    var refused := (e: Error) =>
      s.(runs := s.runs + [Run(o, s.now, s.w.remote, false, false, None, None, false, Settled(Failed(e), None))]);
    if !o.sane then refused(Unsafe)
    else if s.job.Some? || s.reservation.Some? then refused(TerminalBusy)
    else if !s.w.Live() then refused(TerminalClosed)
    else if (s.w.remote.Some? || o.nonceCompletion) && !o.suffixable then refused(Unsafe)
    else
      Begin(s.(runs := s.runs + [Run(o, s.now, s.w.remote, true, false, None, None, false, ProbeClaim)],
               reservation := Some(o.approval)), i)
  }

  /** One tick of waitForPrompt. */
  function PromptTick(s: State, i: nat): State
    requires i < |s.runs|
  {
    var r := s.runs[i];
    if !r.stage.Waiting? || s.now < r.stage.tickAt then s
    else
      var stage, w := r.stage, s.w;
      if r.aborted.Some? then s.At(i, Waited(stage.goal, Stopped))
      else if !w.Live() || w.exited then s.At(i, Waited(stage.goal, Gone))
      else if !w.alternate && PromptShown(stage.goal, stage.graceUntil, w, s.now) then s.At(i, Waited(stage.goal, Ready))
      else if s.now >= stage.deadline then s.At(i, Waited(stage.goal, NotReady))
      else s.At(i, stage.(tickAt := s.now + IDLE_POLL_MS))
  }

  predicate PromptShown(goal: Goal, graceUntil: int, w: World, now: int) {
    if goal.ForIntegrated? || goal.ForSentinel? then w.emptyPrompt || (now > graceUntil && w.promptColumn)
    else now - w.dataAt >= QUIESCENCE_MS && now - w.inputAt >= QUIESCENCE_MS && w.cursorX > 0 && !w.blankRow
  }

  /** A prompt that was not reached: what runReservedInTerminal reports. */
  function NoPrompt(s: State, i: nat, result: Readiness): State
    requires i < |s.runs|
  {
    var r := s.runs[i];
    if r.aborted.Some? || result.Stopped? then End(s, i, r.AbortedOutcome())
    else if result.Gone? then End(s, i, Failed(TerminalClosed))
    else if r.remote.None? && s.w.remote.None? && s.w.entry.Some? && !s.w.alternate && !s.w.integration then
      End(s, i, Failed(IntegrationUnavailable))
    else End(s, i, Failed(TerminalBusy))
  }

  /** An await of the prompt gate has been answered. */
  function AfterWait(s: State, i: nat, canWrite: bool): State
    requires i < |s.runs| && s.runs[i].stage.Waited?
  {
    var r := s.runs[i];
    var goal, result := r.stage.goal, r.stage.result;
    if !result.Ready? then NoPrompt(s, i, result)
    else if s.w.remote != r.remote then EndUnlessAborted(s, i, Failed(TargetChanged))
    else
      match goal
      case ForIntegrated => Prepare(s, i, Integrated, canWrite)
      case ForSentinel => Prepare(s, i, Sentinel, canWrite)
      case ForProbe => SendProbe(s, i)
      case ForCommand(keyboard) =>
        if s.w.Keyboard() != keyboard then EndUnlessAborted(s, i, Failed(TargetChanged))
        else Prepare(RememberProof(s, r.remote), i, Sentinel, canWrite)
  }

  function RememberProof(s: State, remote: Option<nat>): State {
    if s.w.Live() then s.(proof := Some(Proof(s.w.Keyboard().value, remote, s.now))) else s
  }

  /** After every mode resolution an abort wins over its result. */
  function EndUnlessAborted(s: State, i: nat, outcome: Outcome): State
    requires i < |s.runs|
  {
    End(s, i, if s.runs[i].aborted.Some? then s.runs[i].AbortedOutcome() else outcome)
  }

  /** The probe is itself terminal input: recheck everything, then type it. */
  function SendProbe(s: State, i: nat): State
    requires i < |s.runs|
  {
    var r := s.runs[i];
    var reused := Reusable(s, r.remote);
    var s1 := reused.1;
    if r.o.attested && r.approved.None? && !reused.0 then NoPrompt(s1, i, NotReady)
    else if r.approved.Some? && !Still(r.approved.value, s.w) then EndUnlessAborted(s1, i, Failed(TargetChanged))
    else if Min(PROBE_WAIT_MS, r.DeadlineAt() - s.now) <= 0 then NoPrompt(s1, i, NotReady)
    else if r.aborted.Some? then s1.At(i, Probed(s.w.Keyboard(), false))
    else
      s1.At(i, Probing(s.w.Keyboard(), s.now + Min(PROBE_WAIT_MS, r.DeadlineAt() - s.now))).Write(Probe(i, s.w))
  }

  /** The probe was answered, or will not be. */
  function AfterProbe(s: State, i: nat): State
    requires i < |s.runs| && s.runs[i].stage.Probed?
  {
    var r := s.runs[i];
    var keyboard := r.stage.keyboard;
    if r.aborted.Some? then End(s, i, r.AbortedOutcome())
    else if !r.stage.answered then
      var s1 := s.(proof := None);
      if !s.w.Live() || s.w.exited then End(s1, i, Failed(TerminalClosed))
      else if s.w.remote != r.remote || s.w.Keyboard() != keyboard then End(s1, i, Failed(TargetChanged))
      else End(s1, i, Failed(ShellProbeFailed))
    else if s.w.remote != r.remote || keyboard.None? || s.w.Keyboard() != keyboard then End(s, i, Failed(TargetChanged))
    else Wait(s, i, ForCommand(keyboard))
  }

  /** The claim that precedes the authorized probe has been answered. */
  function AfterProbeClaim(s: State, i: nat): State
    requires i < |s.runs| && s.runs[i].stage.ProbeClaimed?
  {
    var r := s.runs[i];
    if r.aborted.Some? then End(s, i, r.AbortedOutcome())
    else if !r.stage.granted || s.w.remote != r.remote then End(s, i, Failed(TargetChanged))
    else if r.approved.Some? && !Still(r.approved.value, s.w) then End(s, i, Failed(TargetChanged))
    else ChooseMode(s.(runs := s.runs[i := r.(authorized := true)]), i)
  }

  /** A prompt was accepted: snap it, build the line, claim the dispatch if that is
      still to be done. */
  function Prepare(s: State, i: nat, mode: Mode, canWrite: bool): State
    requires i < |s.runs|
  {
    var r := s.runs[i];
    if r.aborted.Some? then End(s, i, r.AbortedOutcome())
    else if !s.w.Live() then End(s, i, Failed(TerminalClosed))
    else if (mode.Sentinel? && !r.o.suffixable) || !r.o.fits then End(s, i, Failed(Unsafe))
    else if !r.o.claims || r.authorized then Dispatch(s, i, mode, PromptOf(s.w), canWrite)
    else if r.Remaining(s.now) <= 0 then End(s, i, Failed(TargetChanged))
    else s.At(i, FinalClaim(mode, PromptOf(s.w)))
  }

  function AfterFinalClaim(s: State, i: nat, canWrite: bool): State
    requires i < |s.runs| && s.runs[i].stage.FinalClaimed?
  {
    var r := s.runs[i];
    if r.aborted.Some? then End(s, i, r.AbortedOutcome())
    else if !r.stage.granted then End(s, i, Failed(TargetChanged))
    else Dispatch(s, i, r.stage.mode, r.stage.prompt, canWrite)
  }

  // ------------------------------------------------------------ dispatch

  /** The epoch the operator attested, as far as this run can still demand it. */
  predicate EpochBound(r: Run, w: World) {
    r.approved.Some? ==>
      if r.remote.Some? then
        && w.Live() && w.entry == r.approved.value.entry && !w.alternate && !r.approved.value.alternate
        && w.inputAt == r.approved.value.inputAt
      else Still(r.approved.value, w)
  }

  /** Everything that must hold in the step that types the line. */
  predicate PromptBound(r: Run, mode: Mode, prompt: Prompt, w: World) {
    && w.remote == r.remote
    && EpochBound(r, w)
    && Still(prompt, w)
    && (mode.Integrated? ==> w.emptyPrompt || w.promptColumn)
  }

  function NewJob(r: Run, mode: Mode, now: int): Job {
    Job(mode, None, 0, None, false, false, None, None, false, None, 0, r.startedAt,
        if mode.Integrated? then Some(now + BLOCK_BIND_MS) else None,
        None, None, Some(now + r.Remaining(now)), now + CARD_REFRESH_MS,
        now + Max(0, r.DeadlineAt() + FRONTEND_WATCHDOG_GRACE_MS - now), None, [])
  }

  function Dispatch(s: State, i: nat, mode: Mode, prompt: Prompt, canWrite: bool): State
    requires i < |s.runs|
  {
    var r := s.runs[i];
    if r.Remaining(s.now) <= 0 then End(s, i, Failed(TerminalBusy))
    else if !PromptBound(r, mode, prompt, s.w) then End(s, i, Failed(TargetChanged))
    else if r.aborted.Some? then End(s, i, r.AbortedOutcome())
    else
      var live := s.At(i, Running(NewJob(r, mode, s.now))).(job := Some(i));
      if !canWrite then Finish(live, i, Failed(TargetChanged)) else live.Write(Line(i, mode, prompt, s.w))
  }

  // ------------------------------------------------------------ a live job

  function Update(s: State, i: nat, job: Job): State
    requires i < |s.runs|
  {
    s.At(i, Running(job))
  }

  /** settleAuthoritativeCompletion: while a user's SIGINT is unconfirmed the first
      completion is kept back. */
  function Complete(s: State, i: nat, exit: int): State
    requires i < |s.runs| && s.runs[i].stage.Running?
  {
    var job := s.runs[i].stage.job;
    var outcome := Outcome(Some(exit), if job.cause.Some? then Some(Interrupted) else None, false);
    var seen := job.(completions := job.completions + [outcome]);
    if job.cause == Some(User) && job.pending && !job.confirmed then
      Update(s, i, if job.buffered.None? then seen.(buffered := Some(outcome)) else seen)
    else Finish(Update(s, i, seen), i, outcome)
  }

  /** A user's Interrupt gesture; `thrown` when the write could not even be issued. */
  function UserInterrupt(s: State, i: nat, thrown: bool): State
    requires i < |s.runs| && s.runs[i].stage.Running?
  {
    var job := s.runs[i].stage.job;
    if job.pending || job.ladder.Some? || job.graceAt.Some? then s
    else
      var asked := job.(pending := true, cause := Some(User), gestureAt := Some(s.now));
      if thrown then Finish(Update(s, i, asked), i, Failed(InterruptFailed))
      else
        Update(s, i, asked.(deliveryAt := Some(s.now + USER_INTERRUPT_DELIVERY_TIMEOUT_MS))).Write(Key(i, User))
  }

  function TuiInterrupt(s: State, i: nat): State
    requires i < |s.runs| && s.runs[i].stage.Running?
  {
    var job := s.runs[i].stage.job;
    if job.ladder.Some? || job.pending || job.graceAt.Some? then s
    else Update(s, i, job.(ladder := Some(Ladder(1, None)), cause := Some(Tui))).Write(Key(i, Tui))
  }

  function ArmGrace(job: Job, now: int): Job {
    if job.graceAt.Some? then job else job.(graceAt := Some(now + USER_INTERRUPT_GRACE_MS))
  }

  function SigintAnswered(s: State, i: nat, delivered: bool): State
    requires i < |s.runs| && s.runs[i].stage.Running?
  {
    var job := s.runs[i].stage.job;
    if !job.pending || job.confirmed then s
    else if !delivered then Finish(s, i, Failed(InterruptFailed))
    else
      var known := job.(confirmed := true, deliveryAt := None);
      if known.buffered.Some? then Finish(Update(s, i, known.(buffered := None)), i, known.buffered.value)
      else Update(s, i, ArmGrace(known, s.now))
  }

  /** A ladder key has been accepted or refused by the bridge. */
  function KeyAnswered(s: State, i: nat): State
    requires i < |s.runs| && s.runs[i].stage.Running?
  {
    var job := s.runs[i].stage.job;
    if job.ladder.None? || job.ladder.value.stepAt.Some? then s
    else Update(s, i, job.(ladder := Some(job.ladder.value.(stepAt := Some(s.now + LADDER_STEP_MS)))))
  }

  function LadderStep(s: State, i: nat): State
    requires i < |s.runs| && s.runs[i].stage.Running?
  {
    var job := s.runs[i].stage.job;
    if job.ladder.None? || job.ladder.value.stepAt.None? || s.now < job.ladder.value.stepAt.value then s
    else if !(s.w.entry.Some? && s.w.alternate) then Update(s, i, ArmGrace(job.(ladder := None), s.now))
    else if job.ladder.value.keys < LADDER_LENGTH then
      Update(s, i, job.(ladder := Some(Ladder(job.ladder.value.keys + 1, None)))).Write(Key(i, Tui))
    else Finish(s, i, Failed(InterruptFailed))
  }

  function BlockStarted(s: State, i: nat, block: nat, ours: bool): State
    requires i < |s.runs| && s.runs[i].stage.Running?
  {
    var job := s.runs[i].stage.job;
    if job.mode.Sentinel? || job.bound.Some? then s
    else if ours then Update(s, i, job.(bound := Some(block)))
    else if job.foreign + 1 >= 2 then Finish(s, i, Failed(NotObserved))
    else Update(s, i, job.(foreign := job.foreign + 1))
  }

  /** An RD token with this job's nonce, or another one. */
  function TokenSeen(s: State, i: nat, exit: int, ours: bool): State
    requires i < |s.runs| && s.runs[i].stage.Running?
  {
    var job := s.runs[i].stage.job;
    if job.mode.Integrated? || !ours then s
    else
      var renewed := if s.runs[i].remote.Some? && s.proof.Some? then Some(s.proof.value.(provenAt := s.now)) else s.proof;
      Complete(Update(s.(proof := renewed), i, job.(proved := true)), i, exit)
  }

  function ClassifyStall(job: Job, w: World, now: int): Option<Stall> {
    if (w.entry.Some? && w.alternate) || job.ladder.Some? then Some(Hijacked)
    else if !w.Live() then None
    else if w.passwordRow then Some(Password)
    else if now - w.dataAt < STALL_IDLE_MS then None
    else Some(if w.confirmRow then Input else Idle)
  }

  /** The card refresh charges the time spent at a password prompt to the user. */
  function Refresh(s: State, i: nat): State
    requires i < |s.runs| && s.runs[i].stage.Running?
  {
    var job := s.runs[i].stage.job;
    if s.now < job.refreshAt then s
    else
      var next := job.(refreshAt := s.now + CARD_REFRESH_MS);
      if !s.w.Live() then Update(s, i, next)
      else
        Update(s, i, next.(
          paused := if job.stall == Some(Password) then job.paused + (s.now - job.lastTick) else job.paused,
          lastTick := s.now,
          stall := ClassifyStall(job, s.w, s.now)))
  }

  datatype Timer = BindTimer | DeliveryTimer | GraceTimer | DeadlineTimer | CapTimer

  predicate Due(at: Option<int>, now: int) { at.Some? && at.value <= now }

  function Fire(s: State, i: nat, timer: Timer): State
    requires i < |s.runs| && s.runs[i].stage.Running?
  {
    var r := s.runs[i];
    var job := r.stage.job;
    match timer
    case BindTimer =>
      if !Due(job.bindAt, s.now) then s
      else if job.bound.None? && job.cause.None? then Finish(s, i, Failed(NotObserved))
      else Update(s, i, job.(bindAt := None))
    case DeliveryTimer =>
      if !Due(job.deliveryAt, s.now) then s
      else if !job.confirmed then Finish(s, i, Failed(InterruptFailed))
      else Update(s, i, job.(deliveryAt := None))
    case GraceTimer =>
      if !Due(job.graceAt, s.now) then s else Finish(s, i, Failed(Interrupted))
    case DeadlineTimer =>
      if !Due(job.deadlineAt, s.now) then s
      else if job.cause.Some? then Update(s, i, job.(deadlineAt := None))
      else
        var left := r.o.timeout - (s.now - r.startedAt - job.paused);
        if left > 0 then Update(s, i, job.(deadlineAt := Some(s.now + left))) else Finish(s, i, Failed(Timeout))
    case CapTimer =>
      if s.now < job.capAt then s
      else
        Finish(s, i, Failed(
          match job.cause
          case None => Timeout
          case Some(User) => if job.confirmed then Interrupted else InterruptFailed
          case Some(Tui) => InterruptFailed))
  }

  // ------------------------------------------------------------ steps

  /** Something that happens to one run. */
  datatype RunEvent =
    | Claimed(granted: bool)
    | ClaimExpired
    | Poll
    | ProbeAnswered
    | ProbeLost
    | ProbeExpired
    | Resume(canWrite: bool)
    | Finally
    | Gesture(approval: nat, thrown: bool)
    | SigintReply(delivered: bool)
    | LineRefused
    | KeyReply
    | Rung
    | Disposed
    | Started(block: nat, ours: bool)
    | Ended(block: nat, exit: int)
    | Token(exit: int, mine: bool)
    | AlternateScreen
    | Beat
    | Alarm(timer: Timer)

  datatype Event =
    | Tick(to: int)
    | Seen(w: World)
    | Capture(token: nat, here: bool)
    | Release(token: nat)
    | Call(o: Options)
    | Abort(reason: AbortReason, expected: Option<nat>)
    | ForgetProof
    | On(run: nat, e: RunEvent)

  /** Events of a live job. */
  function JobStep(s: State, i: nat, e: RunEvent): State
    requires i < |s.runs| && s.runs[i].stage.Running?
  {
    var job := s.runs[i].stage.job;
    match e
    case Gesture(approval, thrown) => if approval == s.runs[i].o.approval then UserInterrupt(s, i, thrown) else s
    case SigintReply(delivered) => SigintAnswered(s, i, delivered)
    case LineRefused => Finish(s, i, Failed(TerminalClosed))
    case KeyReply => KeyAnswered(s, i)
    case Rung => LadderStep(s, i)
    case Disposed => Finish(s, i, Failed(TerminalClosed))
    case Started(block, ours) => BlockStarted(s, i, block, ours)
    case Ended(block, exit) => if job.mode.Integrated? && job.bound == Some(block) then Complete(s, i, exit) else s
    case Token(exit, mine) => TokenSeen(s, i, exit, mine)
    case AlternateScreen => TuiInterrupt(Update(s, i, job.(stall := Some(Hijacked))), i)
    case Beat => Refresh(s, i)
    case Alarm(timer) => Fire(s, i, timer)
    case _ => s
  }

  /** Events of a run that has not dispatched. */
  function PreflightStep(s: State, i: nat, e: RunEvent): State
    requires i < |s.runs| && !s.runs[i].stage.Running?
  {
    var r := s.runs[i];
    match e
    case Claimed(granted) =>
      if r.stage.ProbeClaim? then s.At(i, ProbeClaimed(granted))
      else if r.stage.FinalClaim? then s.At(i, FinalClaimed(r.stage.mode, r.stage.prompt, granted))
      else s
    case ClaimExpired =>
      if s.now < r.DeadlineAt() then s
      else if r.stage.ProbeClaim? then s.At(i, ProbeClaimed(false))
      else if r.stage.FinalClaim? then s.At(i, FinalClaimed(r.stage.mode, r.stage.prompt, false))
      else s
    case Poll => PromptTick(s, i)
    case ProbeAnswered => if r.stage.Probing? then s.At(i, Probed(r.stage.keyboard, true)) else s
    case ProbeLost => if r.stage.Probing? then s.At(i, Probed(r.stage.keyboard, false)) else s
    case ProbeExpired =>
      if r.stage.Probing? && s.now >= r.stage.deadline then s.At(i, Probed(r.stage.keyboard, false)) else s
    case Resume(canWrite) =>
      if r.stage.ProbeClaimed? then AfterProbeClaim(s, i)
      else if r.stage.Waited? then AfterWait(s, i, canWrite)
      else if r.stage.Probed? then AfterProbe(s, i)
      else if r.stage.FinalClaimed? then AfterFinalClaim(s, i, canWrite)
      else s
    case Finally =>
      if r.stage.Settled? && r.Owns() then
        s.(runs := s.runs[i := r.(released := true)],
           reservation := if s.reservation == Some(r.o.approval) then None else s.reservation)
      else s
    case _ => s
  }

  /** abortSession while no job is live: the reserved run's controller is aborted, and
      what it awaits is answered at once, except a prompt poll, which sees it next time. */
  function AbortRun(r: Run, reason: AbortReason): Run {
    if r.aborted.Some? then r
    else
      r.(aborted := Some(reason),
         stage :=
           match r.stage
           case ProbeClaim => ProbeClaimed(false)
           case FinalClaim(mode, prompt) => FinalClaimed(mode, prompt, false)
           case Probing(keyboard, _) => Probed(keyboard, false)
           case stage => stage)
  }

  function AbortSession(s: State, reason: AbortReason, expected: Option<nat>): State {
    if s.job.Some? && s.job.value < |s.runs| then
      if expected.Some? && s.runs[s.job.value].o.approval != expected.value then s
      else Finish(s, s.job.value, Released(if reason.Close? then TerminalClosed else Cancelled))
    else if s.reservation.None? || (expected.Some? && s.reservation != expected) then s
    else s.(runs := seq(|s.runs|, k requires 0 <= k < |s.runs| =>
                      if s.runs[k].Owns() then AbortRun(s.runs[k], reason) else s.runs[k]))
  }

  function Step(s: State, e: Event): State {
    match e
    case Tick(to) => if to > s.now then s.(now := to) else s
    case Seen(w) => s.(w := w)
    case Capture(token, here) =>
      if Capturable(s.w) then
        s.(bindings := s.bindings[token := Binding(PromptOf(s.w), here, s.now)])
      else s
    case Release(token) => s.(bindings := s.bindings - {token})
    case Call(o) => Start(s, o)
    case Abort(reason, expected) => AbortSession(s, reason, expected)
    case ForgetProof => s.(proof := None)
    case On(i, e) =>
      if i >= |s.runs| then s
      else if s.runs[i].stage.Running? then JobStep(s, i, e)
      else PreflightStep(s, i, e)
  }

  function Execute(s: State, events: seq<Event>): State
    decreases |events|
  {
    if events == [] then s else Execute(Step(s, events[0]), events[1..])
  }
}
